/** The key line as a plain stream: the queued segments written out sample by sample, and
    the ramp that follows it. This is the simple form the generator's pull loop refines. */
module CwStream {
  import opened Arith
  import opened CwSchedule

  function Hold(down: bool, n: int): seq<bool> {
    seq(Max(n, 0), _ => down)
  }

  /** The key position at every sample of the first `n` segments. */
  function Expand(segs: seq<Seg>, n: nat): seq<bool>
    requires n <= |segs|
  {
    if n == 0 then [] else Expand(segs, n - 1) + Hold(segs[n - 1].down, segs[n - 1].len)
  }

  function LineOf(segs: seq<Seg>): seq<bool> { Expand(segs, |segs|) }

  /** Where the key is at sample `i`: up after the end of the line. */
  predicate KeyAt(line: seq<bool>, i: nat) { i < |line| && line[i] }

  /** Key-down samples among the `n` from sample `from` on. */
  function Downs(line: seq<bool>, from: nat, n: nat): nat {
    if n == 0 then 0 else Downs(line, from, n - 1) + (if KeyAt(line, from + n - 1) then 1 else 0)
  }

  function MarkLength(segs: seq<Seg>, n: nat): int
    requires n <= |segs|
  {
    if n == 0 then 0 else MarkLength(segs, n - 1) + (if segs[n - 1].down then segs[n - 1].len else 0)
  }

  /** One sample of the ramp: `n` steps from rest to full, at once when `n` is not positive. */
  function RampStep(pos: int, n: int, down: bool): int {
    if n <= 0 then (if down then 1 else 0)
    else if down && pos < n then pos + 1
    else if !down && pos > 0 then pos - 1
    else pos
  }

  /** The ramp after `k` samples of the line, counted from sample `from`. */
  function RampAt(pos: int, n: int, line: seq<bool>, from: nat, k: nat): int {
    if k == 0 then pos else RampStep(RampAt(pos, n, line, from, k - 1), n, KeyAt(line, from + k - 1))
  }

  /** Full deflection: the last ramp position, or 1 for a hard-keyed generator. */
  function Full(n: int): int { Max(n, 1) }

  predicate RampInBounds(pos: int, n: int) { 0 <= pos <= Full(n) }

  predicate Positive(segs: seq<Seg>) { forall i :: 0 <= i < |segs| ==> segs[i].len > 0 }

  // ---- lines and segments -----------------------------------------------------

  lemma ExpandLength(segs: seq<Seg>, n: nat)
    requires n <= |segs| && Positive(segs)
    ensures |Expand(segs, n)| == Length(segs, n) >= n
  {}

  lemma SegmentInLine(segs: seq<Seg>, j: nat, n: nat)
    requires j < n <= |segs| && Positive(segs)
    ensures |Expand(segs, j + 1)| == |Expand(segs, j)| + segs[j].len
    ensures Expand(segs, j + 1) <= Expand(segs, n)
    ensures forall i :: |Expand(segs, j)| <= i < |Expand(segs, j + 1)| ==> KeyAt(Expand(segs, n), i) == segs[j].down
  {
    if n > j + 1 {
      SegmentInLine(segs, j, n - 1);
      var line, longer := Expand(segs, n - 1), Expand(segs, n);
      assert line <= longer;
      forall i | |Expand(segs, j)| <= i < |Expand(segs, j + 1)| ensures KeyAt(longer, i) == segs[j].down {
        assert KeyAt(line, i) == segs[j].down;
      }
    }
  }

  // ---- pulling is a stream function --------------------------------------------

  /** Everything one pull of `n` samples from sample `from` does: the ramp positions put
      out, the key-down count returned, and where it leaves the line and the ramp. */
  datatype Pulled = Pulled(out: seq<int>, downs: nat, from: nat, ramp: int)

  function Pull(line: seq<bool>, from: nat, pos: int, rampN: int, n: nat): Pulled
    requires from <= |line|
  {
    Pulled(seq(n, i requires 0 <= i < n => RampAt(pos, rampN, line, from, i + 1)),
           Downs(line, from, n), Min(from + n, |line|), RampAt(pos, rampN, line, from, n))
  }

  /** A pull of one sample more. */
  lemma PullNext(line: seq<bool>, from: nat, pos: int, rampN: int, n: nat)
    requires from <= |line|
    ensures var target := KeyAt(line, from + n);
      && KeyAt(line, Min(from + n, |line|)) == target
      && Min(Min(from + n, |line|) + 1, |line|) == Min(from + n + 1, |line|)
      && RampAt(pos, rampN, line, from, n + 1) == RampStep(RampAt(pos, rampN, line, from, n), rampN, target)
      && Downs(line, from, n + 1) == Downs(line, from, n) + (if target then 1 else 0)
  {}

  lemma RampInTwo(line: seq<bool>, from: nat, pos: int, rampN: int, n: nat, m: nat)
    requires from <= |line|
    ensures
      RampAt(pos, rampN, line, from, n + m)
      == RampAt(RampAt(pos, rampN, line, from, n), rampN, line, Min(from + n, |line|), m)
  {
    if m > 0 {
      RampInTwo(line, from, pos, rampN, n, m - 1);
    }
  }

  lemma DownsInTwo(line: seq<bool>, from: nat, n: nat, m: nat)
    requires from <= |line|
    ensures Downs(line, from, n + m) == Downs(line, from, n) + Downs(line, Min(from + n, |line|), m)
  {
    if m > 0 {
      DownsInTwo(line, from, n, m - 1);
    }
  }

  /** Pulling `n` and then `m` samples is pulling `n + m` samples. */
  lemma PullInTwo(line: seq<bool>, from: nat, pos: int, rampN: int, n: nat, m: nat)
    requires from <= |line|
    ensures
      var first := Pull(line, from, pos, rampN, n);
      var second := Pull(line, first.from, first.ramp, rampN, m);
      Pull(line, from, pos, rampN, n + m)
      == Pulled(first.out + second.out, first.downs + second.downs, second.from, second.ramp)
  {
    var first := Pull(line, from, pos, rampN, n);
    var second := Pull(line, first.from, first.ramp, rampN, m);
    var both := Pull(line, from, pos, rampN, n + m);
    forall i | n <= i < n + m
      ensures both.out[i] == second.out[i - n]
    {
      RampInTwo(line, from, pos, rampN, n, i + 1 - n);
    }
    assert both.out == first.out + second.out;
    RampInTwo(line, from, pos, rampN, n, m);
    DownsInTwo(line, from, n, m);
  }

  lemma {:induction false} DownsWhileHeld(line: seq<bool>, a: nat, k: nat, down: bool)
    requires forall i :: a <= i < a + k ==> KeyAt(line, i) == down
    ensures Downs(line, 0, a + k) == Downs(line, 0, a) + (if down then k else 0)
  {
    if k > 0 {
      DownsWhileHeld(line, a, k - 1, down);
    }
  }

  lemma {:induction false} DownsOfSegs(segs: seq<Seg>, n: nat)
    requires n <= |segs| && Positive(segs)
    ensures Downs(LineOf(segs), 0, |Expand(segs, n)|) == MarkLength(segs, n)
  {
    if n > 0 {
      DownsOfSegs(segs, n - 1);
      SegmentInLine(segs, n - 1, |segs|);
      DownsWhileHeld(LineOf(segs), |Expand(segs, n - 1)|, segs[n - 1].len, segs[n - 1].down);
    }
  }

  /** Once the schedule is played out, the key-down counts returned add up to the total
      length of the marks that were queued. */
  lemma KeyDownTotal(segs: seq<Seg>, n: nat)
    requires Positive(segs) && n >= |LineOf(segs)|
    ensures Downs(LineOf(segs), 0, n) == MarkLength(segs, |segs|)
  {
    DownsOfSegs(segs, |segs|);
    DownsWhileHeld(LineOf(segs), |LineOf(segs)|, n - |LineOf(segs)|, false);
  }

  // ---- the ramp -----------------------------------------------------------------

  lemma RampStays(pos: int, n: int, line: seq<bool>, from: nat, k: nat)
    requires RampInBounds(pos, n)
    ensures RampInBounds(RampAt(pos, n, line, from, k), n)
  {}

  /** A ramp in bounds moves by at most one step a sample, whatever the key does: an abort
      in mid-mark cannot make the envelope jump. */
  lemma RampIsGradual(pos: int, n: int, line: seq<bool>, from: nat, k: nat)
    requires RampInBounds(pos, n)
    ensures -1 <= RampAt(pos, n, line, from, k + 1) - RampAt(pos, n, line, from, k) <= 1
  {
    RampStays(pos, n, line, from, k);
  }

  /** The ramp `k` samples after it was at `pos`, the key held all the time. */
  function Moved(pos: int, n: int, down: bool, k: nat): int {
    if k == 0 then pos
    else if n <= 0 then (if down then 1 else 0)
    else if down then Min(n, pos + k) else Max(0, pos - k)
  }

  lemma {:induction false} RampWhileHeld(pos: int, n: int, line: seq<bool>, from: nat, a: nat, k: nat, down: bool)
    requires RampInBounds(RampAt(pos, n, line, from, a), n)
    requires forall i :: from + a <= i < from + a + k ==> KeyAt(line, i) == down
    ensures RampAt(pos, n, line, from, a + k) == Moved(RampAt(pos, n, line, from, a), n, down, k)
  {
    if k > 0 {
      RampWhileHeld(pos, n, line, from, a, k - 1, down);
    }
  }

  /** With the ramp no longer than the segment, every mark ends at full amplitude and every
      gap ends at rest, wherever it stands in the queue. */
  lemma SegmentSettles(segs: seq<Seg>, j: nat, pos: int, n: int)
    requires Positive(segs) && j < |segs| && RampInBounds(pos, n) && segs[j].len >= n
    ensures RampAt(pos, n, LineOf(segs), 0, |Expand(segs, j + 1)|) == if segs[j].down then Full(n) else 0
  {
    var a := |Expand(segs, j)|;
    SegmentInLine(segs, j, |segs|);
    RampStays(pos, n, LineOf(segs), 0, a);
    RampWhileHeld(pos, n, LineOf(segs), 0, a, segs[j].len, segs[j].down);
  }

  // ---- coming to rest -------------------------------------------------------------

  predicate Idle(line: seq<bool>, from: nat, pos: int) { from >= |line| && pos <= 0 }

  predicate IdleAfter(line: seq<bool>, from: nat, pos: int, n: int, k: nat)
    requires from <= |line|
  {
    var p := Pull(line, from, pos, n, k); Idle(line, p.from, p.ramp)
  }

  /** The generator is idle after `k` samples exactly when the queue has run out and the
      ramp has had time to come down from where the last sample of the queue left it. */
  lemma IdleExactly(line: seq<bool>, from: nat, pos: int, n: int, k: nat)
    requires RampInBounds(pos, n) && from <= |line|
    ensures
      var left := |line| - from;
      IdleAfter(line, from, pos, n, k) <==> k >= left + RampAt(pos, n, line, from, left)
  {
    var left := |line| - from;
    RampStays(pos, n, line, from, left);
    if k >= left {
      RampWhileHeld(pos, n, line, from, left, k - left, false);
    }
  }

  /** So the remaining samples plus one full ramp always suffice ... */
  lemma IdleInTime(line: seq<bool>, from: nat, pos: int, n: int, k: nat)
    requires RampInBounds(pos, n) && from <= |line| && k >= |line| - from + Full(n)
    ensures IdleAfter(line, from, pos, n, k)
  {
    RampStays(pos, n, line, from, |line| - from);
    IdleExactly(line, from, pos, n, k);
  }

  /** ... but for a hard-keyed generator (no ramp) the remaining samples alone suffice
      exactly when the queue does not end key down. */
  lemma HardKeyingNeedsOneMore(line: seq<bool>, from: nat, pos: int)
    requires RampInBounds(pos, 0) && from <= |line|
    ensures
      IdleAfter(line, from, pos, 0, |line| - from)
      <==> if from == |line| then pos == 0 else !line[|line| - 1]
  {
    IdleExactly(line, from, pos, 0, |line| - from);
  }

  /** A ramp left above its range by a shorter ramp setting stays there while the key is
      held, and once the key is up returns into range after exactly the excess samples. */
  lemma {:induction false} OvershootReturns(pos: int, n: int, line: seq<bool>, from: nat, k: nat)
    requires n > 0 && pos > n
    ensures (forall i :: from <= i < from + k ==> KeyAt(line, i)) ==> RampAt(pos, n, line, from, k) == pos
    ensures (forall i :: from <= i < from + k ==> !KeyAt(line, i)) ==>
      && RampAt(pos, n, line, from, k) == Max(0, pos - k)
      && (RampInBounds(RampAt(pos, n, line, from, k), n) <==> k >= pos - n)
  {
    if k > 0 {
      OvershootReturns(pos, n, line, from, k - 1);
    }
  }
}
