/** A ring kept in a buffer by a head index (next out) and a tail index (next in), one
    slot always left free, and what it holds. */
module Ring {

  datatype Ring<T> = Ring(buf: seq<T>, head: nat, tail: nat)

  function Next(i: nat, cap: nat): nat
    requires cap > 0
  {
    (i + 1) % cap
  }

  /** The index `k` places past the head. */
  function At(head: nat, k: nat, cap: nat): nat
  {
    if head + k < cap then head + k else head + k - cap
  }

  function Count(head: nat, tail: nat, cap: nat): int {
    if head <= tail then tail - head else tail + cap - head
  }

  /** The ring holds the entries of `held` from index `from` on, oldest first. */
  ghost predicate Holds<T>(r: Ring<T>, held: seq<T>, from: nat)
  {
    && |r.buf| >= 2 && r.head < |r.buf| && r.tail < |r.buf|
    && from <= |held| && |held| - from == Count(r.head, r.tail, |r.buf|)
    && forall k {:trigger At(r.head, k, |r.buf|)} :: 0 <= k < |held| - from ==>
         r.buf[At(r.head, k, |r.buf|)] == held[from + k]
  }

  lemma NextIs(i: nat, cap: nat)
    requires i < cap
    ensures Next(i, cap) == if i + 1 == cap then 0 else i + 1
  {
    if i + 1 < cap {
      assert (i + 1) % cap == i + 1;
    } else {
      assert (i + 1) % cap == 0;
    }
  }

  /** Writing at the tail and moving it on. */
  function Put<T>(r: Ring<T>, x: T): Ring<T>
    requires r.tail < |r.buf|
  {
    Ring(r.buf[r.tail := x], r.head, Next(r.tail, |r.buf|))
  }

  lemma PutHolds<T>(r: Ring<T>, x: T, held: seq<T>, from: nat)
    requires Holds(r, held, from) && Next(r.tail, |r.buf|) != r.head
    ensures Holds(Put(r, x), held + [x], from)
  {
    NextIs(r.tail, |r.buf|);
    forall k | 0 <= k < |held| + 1 - from
      ensures Put(r, x).buf[At(r.head, k, |r.buf|)] == (held + [x])[from + k]
    {
    }
  }

  /** Moving the head on gives up the oldest entry. */
  function Drop<T>(r: Ring<T>): Ring<T>
    requires r.buf != []
  {
    r.(head := Next(r.head, |r.buf|))
  }

  lemma DropHolds<T>(r: Ring<T>, held: seq<T>, from: nat)
    requires Holds(r, held, from) && from < |held|
    ensures r.buf[r.head] == held[from]
    ensures Holds(Drop(r), held, from + 1)
  {
    NextIs(r.head, |r.buf|);
    var next := Next(r.head, |r.buf|);
    assert r.buf[At(r.head, 0, |r.buf|)] == held[from];
    forall k | 0 <= k < |held| - from - 1
      ensures r.buf[At(next, k, |r.buf|)] == held[from + 1 + k]
    {
      assert r.buf[At(r.head, k + 1, |r.buf|)] == held[from + (k + 1)];
    }
  }

  /** How many of the oldest entries a ring that drops them when full has dropped. */
  function Dropped<T>(record: seq<T>, cap: nat): nat {
    if |record| < cap then 0 else |record| - cap + 1
  }

  /** One entry more, the oldest dropped if there is no room. */
  method PutLossy<T>(r: Ring<T>, x: T, ghost record: seq<T>) returns (r': Ring<T>)
    requires Holds(r, record, Dropped(record, |r.buf|))
    ensures |r'.buf| == |r.buf| && Holds(r', record + [x], Dropped(record + [x], |r.buf|))
  {
    r' := r;
    ghost var from := Dropped(record, |r.buf|);
    NextIs(r.tail, |r.buf|);
    if Next(r.tail, |r.buf|) == r.head {
      DropHolds(r, record, from);
      NextIs(r.head, |r.buf|);
      r' := Drop(r);
      from := from + 1;
    }
    PutHolds(r', x, record, from);
    r' := Put(r', x);
  }

  /** A full ring is emptied, oldest first, into a buffer of twice the size. */
  method Grow<T>(r: Ring<T>, blank: T, ghost held: seq<T>, ghost from: nat) returns (r': Ring<T>)
    requires Holds(r, held, from)
    ensures Holds(r', held, from) && |r'.buf| == 2 * |r.buf| && Next(r'.tail, |r'.buf|) != r'.head
  {
    var nq, n, i := seq(|r.buf| * 2, _ => blank), 0, r.head;
    while i != r.tail
      invariant |nq| == |r.buf| * 2 && 0 <= n <= |held| - from && i == At(r.head, n, |r.buf|)
      invariant forall k :: 0 <= k < n ==> nq[k] == held[from + k]
      decreases |held| - from - n
    {
      NextIs(i, |r.buf|);
      assert r.buf[At(r.head, n, |r.buf|)] == held[from + n];
      nq := nq[n := r.buf[i]];
      n := n + 1;
      i := Next(i, |r.buf|);
    }
    r' := Ring(nq, 0, n);
    NextIs(n, |nq|);
  }
}
