/** The waterfall's noise floor: a low percentile of every frame, read off a coarse histogram
    instead of sorting the columns, and followed slowly. */
module NoiseFloor {

  const BINS := 140
  const PERCENT := 20
  const SMOOTH := 0.04

  /** A column's bin: one dB wide, over -160 to -20 dBm (a column is its level plus 200). */
  function Bin(d: nat): (b: nat)
    ensures b < BINS
  {
    if d < 40 then 0 else if d - 40 > BINS - 1 then BINS - 1 else d - 40
  }

  /** In dBm: bins are 1 dB wide from -160 on, and take what lies outside at the ends. */
  lemma BinIsTheDecibel(d: nat)
    ensures var dbm := d - 200;
      Bin(d) == if dbm < -160 then 0 else if dbm >= -20 then 139 else dbm + 160
  {}

  /** How many of the first `n` columns are in bin `v` or below. */
  function Below(s: seq<nat>, n: nat, v: int): (c: nat)
    requires n <= |s|
    ensures c <= n
  {
    if n == 0 then 0 else Below(s, n - 1, v) + (if Bin(s[n - 1]) <= v then 1 else 0)
  }

  predicate Sorted(s: seq<nat>) { forall i, j :: 0 <= i < j < |s| ==> s[i] <= s[j] }

  // ---- counting and sorting ------------------------------------------------------------

  lemma {:induction false} BelowSame(s: seq<nat>, t: seq<nat>, n: nat, v: int)
    requires n <= |s| && n <= |t| && s[..n] == t[..n]
    ensures Below(s, n, v) == Below(t, n, v)
  {
    if n > 0 {
      assert s[..n - 1] == s[..n][..n - 1] && t[..n - 1] == t[..n][..n - 1];
      assert s[n - 1] == s[..n][n - 1] && t[n - 1] == t[..n][n - 1];
      BelowSame(s, t, n - 1, v);
    }
  }

  /** Taking out one column takes out its count. */
  lemma {:induction false} BelowWithout(s: seq<nat>, j: nat, n: nat, v: int)
    requires j < n <= |s|
    ensures Below(s, n, v) == Below(s[..j] + s[j + 1..], n - 1, v) + (if Bin(s[j]) <= v then 1 else 0)
  {
    var t := s[..j] + s[j + 1..];
    if n == j + 1 {
      assert t[..j] == s[..j];
      BelowSame(s, t, j, v);
    } else {
      BelowWithout(s, j, n - 1, v);
      assert t[n - 2] == s[n - 1];
    }
  }

  lemma TakenOut(t: seq<nat>, j: nat)
    requires j < |t|
    ensures multiset(t) == multiset(t[..j] + t[j + 1..]) + multiset{t[j]}
  {
    assert t == t[..j] + [t[j]] + t[j + 1..];
  }

  /** The last column taken out of one order and its like out of the other. */
  lemma SameRest(s: seq<nat>, t: seq<nat>, j: nat)
    requires multiset(s) == multiset(t) && |s| > 0 && j < |t| && t[j] == s[|s| - 1]
    ensures multiset(s[..|s| - 1]) == multiset(t[..j] + t[j + 1..])
  {
    var n := |s| - 1;
    assert s == s[..n] + [s[n]];
    assert multiset(s) == multiset(s[..n]) + multiset{s[n]};
    TakenOut(t, j);
    assert multiset(s[..n]) == multiset(s) - multiset{s[n]};
  }

  lemma {:induction false} BelowPermuted(s: seq<nat>, t: seq<nat>, v: int)
    requires multiset(s) == multiset(t)
    ensures |s| == |t| && Below(s, |s|, v) == Below(t, |t|, v)
  {
    assert |s| == |multiset(s)| == |multiset(t)| == |t|;
    if |s| > 0 {
      var n := |s| - 1;
      var x := s[n];
      assert x in multiset(t);
      var j :| 0 <= j < |t| && t[j] == x;
      var rest := t[..j] + t[j + 1..];
      SameRest(s, t, j);
      BelowPermuted(s[..n], rest, v);
      BelowWithout(t, j, |t|, v);
      BelowSame(s, s[..n], n, v);
    }
  }

  /** In sorted columns at least `k` are in bin `v` or below exactly when the `k`-th is. */
  lemma {:induction false} BelowSorted(s: seq<nat>, n: nat, k: nat, v: int)
    requires Sorted(s) && 1 <= k <= n <= |s|
    ensures Below(s, n, v) >= k <==> Bin(s[k - 1]) <= v
  {
    if k < n {
      BelowSorted(s, n - 1, k, v);
      assert s[k - 1] <= s[n - 1];
    } else if n > 1 {
      BelowSorted(s, n - 1, n - 1, v);
      assert s[n - 2] <= s[n - 1];
    }
  }

  // ---- the histogram ---------------------------------------------------------------------

  function InBin(s: seq<nat>, n: nat, b: nat): nat
    requires n <= |s|
  {
    if n == 0 then 0 else InBin(s, n - 1, b) + (if Bin(s[n - 1]) == b then 1 else 0)
  }

  lemma {:induction false} OneMoreBin(s: seq<nat>, n: nat, b: nat)
    requires n <= |s|
    ensures Below(s, n, b) == Below(s, n, b - 1) + InBin(s, n, b)
  {
    if n > 0 {
      OneMoreBin(s, n - 1, b);
    }
  }

  lemma {:induction false} AllBelow(s: seq<nat>, n: nat)
    requires n <= |s|
    ensures Below(s, n, BINS - 1) == n && Below(s, n, -1) == 0
  {
    if n > 0 {
      AllBelow(s, n - 1);
    }
  }

  function Target(n: nat): nat { n * PERCENT / 100 }

  /** A fifth of the columns, rounded down. */
  lemma TargetIsAFifth(n: nat)
    ensures 5 * Target(n) <= n < 5 * (Target(n) + 1)
  {}

  method Histogram(dbm: seq<nat>) returns (hist: array<nat>)
    ensures fresh(hist) && hist.Length == BINS
    ensures forall b :: 0 <= b < BINS ==> hist[b] == InBin(dbm, |dbm|, b)
  {
    hist := new nat[BINS](_ => 0);
    for x := 0 to |dbm|
      invariant forall b :: 0 <= b < BINS ==> hist[b] == InBin(dbm, x, b)
    {
      var b := if dbm[x] < 40 then 0 else dbm[x] - 40;
      if b > BINS - 1 {
        b := BINS - 1;
      }
      hist[b] := hist[b] + 1;
    }
  }

  /** The first bin with the target number of columns at or below it. */
  ghost predicate Chosen(dbm: seq<nat>, pb: nat) {
    && pb < BINS && Below(dbm, |dbm|, pb) >= Target(|dbm|)
    && forall b :: 0 <= b < pb ==> Below(dbm, |dbm|, b) < Target(|dbm|)
  }

  /** The scan over the running count; it always finds a bin. */
  method Percentile(dbm: seq<nat>) returns (pb: nat)
    ensures Chosen(dbm, pb)
  {
    var hist := Histogram(dbm);
    var target, cum, b := |dbm| * PERCENT / 100, 0, 0;
    pb := 0;
    AllBelow(dbm, |dbm|);
    while b < BINS
      modifies {}
      invariant b <= BINS && cum == Below(dbm, |dbm|, b - 1)
      invariant forall c :: 0 <= c < b ==> Below(dbm, |dbm|, c) < target
      invariant b == BINS ==> cum == |dbm|
    {
      cum := cum + hist[b];
      OneMoreBin(dbm, |dbm|, b);
      if cum >= target {
        pb := b;
        return;
      }
      b := b + 1;
    }
    assert false;
  }

  /** It is the bin of the column that sorting would put at the 20th percentile; with fewer than
      five columns the target is none and it is the lowest bin. */
  lemma HistogramRefinesSorting(dbm: seq<nat>, sorted: seq<nat>, pb: nat)
    requires Chosen(dbm, pb) && multiset(dbm) == multiset(sorted) && Sorted(sorted)
    ensures |sorted| == |dbm|
    ensures |dbm| >= 5 ==> 1 <= Target(|dbm|) <= |dbm| && pb == Bin(sorted[Target(|dbm|) - 1])
    ensures |dbm| < 5 ==> pb == 0
  {
    BelowPermuted(dbm, sorted, pb);
    var k, lowest := Target(|dbm|), Below(dbm, |dbm|, 0);
    if |dbm| >= 5 {
      var want := Bin(sorted[k - 1]);
      BelowSorted(sorted, |sorted|, k, pb);
      BelowSorted(sorted, |sorted|, k, want);
      BelowPermuted(dbm, sorted, want);
    }
  }

  // ---- the floor follows -----------------------------------------------------------------------

  function Noise(pb: nat): real { -160.0 + pb as real + 0.5 }

  datatype Floor = Unset | At(low: real)

  function Tracked(f: Floor, noise: real): Floor {
    match f
    case Unset => At(noise)
    case At(low) => At(low + SMOOTH * (noise - low))
  }

  /** The first frame sets the floor to the middle of its bin, every later one moves it a twenty-fifth of the way. */
  lemma FloorFollows(f: Floor, pb: nat)
    ensures var mid, t := -159.5 + pb as real, Tracked(f, Noise(pb));
      t.At? && (f.Unset? ==> t.low == mid) && (f.At? ==> 25.0 * (t.low - f.low) == mid - f.low)
  {}

  /** Within the histogram's range, half a bin in. */
  predicate InRange(f: Floor) { f.At? ==> -159.5 <= f.low <= -20.5 }

  lemma TrackedInRange(f: Floor, pb: nat)
    requires InRange(f) && pb < BINS
    ensures Tracked(f, Noise(pb)).At? && InRange(Tracked(f, Noise(pb)))
  {}

  function TrackedAll(pbs: seq<nat>, n: nat): Floor
    requires n <= |pbs|
  {
    if n == 0 then Unset else Tracked(TrackedAll(pbs, n - 1), Noise(pbs[n - 1]))
  }

  /** Whatever the frames, the tracked floor stays in range. */
  lemma {:induction false} FloorStaysInRange(pbs: seq<nat>, n: nat)
    requires 1 <= n <= |pbs| && forall i :: 0 <= i < |pbs| ==> pbs[i] < BINS
    ensures TrackedAll(pbs, n).At? && InRange(TrackedAll(pbs, n))
  {
    if n > 1 {
      FloorStaysInRange(pbs, n - 1);
    }
    TrackedInRange(TrackedAll(pbs, n - 1), pbs[n - 1]);
  }
}
