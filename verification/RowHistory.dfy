/** Histories of rows: every push paints a row of its own and carries the rows before it over
    to its own width. Painting and carrying are left open. */
module RowHistory {

  /** Push `k` as it looks after `n` pushes: painted then, carried over by every later one. */
  function Carried<P, R>(log: seq<P>, k: nat, n: nat, paint: P -> R, carry: (R, P) -> R): R
    requires k < n <= |log|
    decreases n
  {
    if n == k + 1 then paint(log[k]) else carry(Carried(log, k, n - 1, paint, carry), log[n - 1])
  }

  /** Row `r` of the picture: the `r`-th newest push, blank before there were that many. */
  function RowOf<P, R>(log: seq<P>, r: nat, paint: P -> R, carry: (R, P) -> R, blank: P -> R): R
    requires |log| > 0
  {
    if r < |log| then Carried(log, |log| - 1 - r, |log|, paint, carry) else blank(log[|log| - 1])
  }

  lemma {:induction false} CarriedStays<P, R>(log: seq<P>, p: P, k: nat, n: nat, paint: P -> R, carry: (R, P) -> R)
    requires k < n <= |log|
    ensures Carried(log + [p], k, n, paint, carry) == Carried(log, k, n, paint, carry)
    decreases n
  {
    if n > k + 1 {
      CarriedStays(log, p, k, n - 1, paint, carry);
    }
  }

  /** A push puts its own row on top and carries over every row before it, blank ones included. */
  lemma PushShifts<P, R>(log: seq<P>, p: P, r: nat, paint: P -> R, carry: (R, P) -> R, blank: P -> R)
    requires |log| > 0 ==> carry(blank(log[|log| - 1]), p) == blank(p)
    ensures RowOf(log + [p], r, paint, carry, blank) ==
      if r == 0 then paint(p)
      else if |log| == 0 then blank(p)
      else carry(RowOf(log, r - 1, paint, carry, blank), p)
  {
    if 0 < r <= |log| {
      CarriedStays(log, p, |log| - r, |log|, paint, carry);
    }
  }
}
