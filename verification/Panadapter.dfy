/** The spectrum trace: columns reduced to the width of the window by their maximum, mapped to
    heights, and drawn as two coverage masks cut to the band of rows the trace runs through. */
module Panadapter {
  import opened Arith

  // ---- columns --------------------------------------------------------------------------

  /** Where output column `x` of `w` begins among `n` data columns. */
  function Start(x: nat, n: nat, w: nat): nat
    requires w > 0
  {
    x * n / w
  }

  function MaxOf(s: seq<real>, a: nat, b: nat): real
    requires a < b <= |s|
    decreases b
  {
    if b == a + 1 then s[a] else MaxReal(MaxOf(s, a, b - 1), s[b - 1])
  }

  lemma {:induction false} MaxIsHighest(s: seq<real>, a: nat, b: nat)
    requires a < b <= |s|
    ensures forall k :: a <= k < b ==> s[k] <= MaxOf(s, a, b)
    ensures exists k :: a <= k < b && s[k] == MaxOf(s, a, b)
    decreases b
  {
    if b == a + 1 {
      assert s[a] == MaxOf(s, a, b);
    } else {
      MaxIsHighest(s, a, b - 1);
      if s[b - 1] <= MaxOf(s, a, b - 1) {
        var k :| a <= k < b - 1 && s[k] == MaxOf(s, a, b - 1);
        assert s[k] == MaxOf(s, a, b);
      } else {
        assert s[b - 1] == MaxOf(s, a, b);
      }
    }
  }

  /** With at least as many data columns as output columns, every output column takes at least one,
      they begin with the first and end with the last. */
  lemma ColumnsTile(x: nat, n: nat, w: nat)
    requires 0 < w <= n && x < w
    ensures Start(x, n, w) < Start(x + 1, n, w) <= n
    ensures Start(0, n, w) == 0 && Start(w, n, w) == n
  {
    LastStart(n, w);
    NextStart(x, n, w);
    StartIsMonotone(x + 1, w, n, w);
  }

  lemma LastStart(n: nat, w: nat)
    requires w > 0
    ensures Start(w, n, w) == n
  {
    DivModUnique(w * n, n, 0, w);
  }

  lemma NextStart(x: nat, n: nat, w: nat)
    requires 0 < w <= n
    ensures Start(x, n, w) < Start(x + 1, n, w)
  {
    var a := x * n;
    assert (x + 1) * n == a + n;
    DivModUnique(a + w, a / w + 1, a % w, w);
    DivMonotone(a + w, a + n, w);
  }

  lemma StartIsMonotone(x: nat, y: nat, n: nat, w: nat)
    requires w > 0 && x <= y
    ensures Start(x, n, w) <= Start(y, n, w)
  {
    MulMonotone(n, x, y);
    DivMonotone(x * n, y * n, w);
  }

  /** The output column a data column goes to, searched from `x` on. */
  function Owner(k: nat, n: nat, w: nat, x: nat): (o: nat)
    requires 0 < w <= n && k < n && x < w && Start(x, n, w) <= k
    ensures o < w && Start(o, n, w) <= k < Start(o + 1, n, w)
    decreases w - x
  {
    ColumnsTile(x, n, w);
    if k < Start(x + 1, n, w) then x else Owner(k, n, w, x + 1)
  }

  /** Every data column goes to exactly one output column. */
  lemma OwnerIsUnique(k: nat, n: nat, w: nat, x: nat)
    requires 0 < w <= n && k < n && x < w && Start(x, n, w) <= k < Start(x + 1, n, w)
    ensures Start(0, n, w) <= k && x == Owner(k, n, w, 0)
  {
    ColumnsTile(0, n, w);
    var o := Owner(k, n, w, 0);
    if o < x {
      StartIsMonotone(o + 1, x, n, w);
    } else if x < o {
      StartIsMonotone(x + 1, o, n, w);
    }
  }

  /** MAX decimation, for the trace's own columns and for the pixels alike. */
  function Decimated(s: seq<real>, w: nat): (r: seq<real>)
    requires 0 < w <= |s|
    ensures |r| == w
  {
    seq(w, x requires 0 <= x < w =>
      ColumnsTile(x, |s|, w);
      MaxOf(s, Start(x, |s|, w), Start(x + 1, |s|, w)))
  }

  lemma ColumnReaches(s: seq<real>, w: nat, k: nat)
    requires 0 < w <= |s| && k < |s|
    ensures Start(0, |s|, w) <= k && s[k] <= Decimated(s, w)[Owner(k, |s|, w, 0)]
  {
    ColumnsTile(0, |s|, w);
    var o := Owner(k, |s|, w, 0);
    ColumnsTile(o, |s|, w);
    MaxIsHighest(s, Start(o, |s|, w), Start(o + 1, |s|, w));
  }

  lemma OutputIsSomeColumn(s: seq<real>, w: nat, x: nat)
    requires 0 < w <= |s| && x < w
    ensures exists k :: 0 <= k < |s| && s[k] == Decimated(s, w)[x]
  {
    ColumnsTile(x, |s|, w);
    MaxIsHighest(s, Start(x, |s|, w), Start(x + 1, |s|, w));
    var k :| Start(x, |s|, w) <= k < Start(x + 1, |s|, w) && s[k] == Decimated(s, w)[x];
  }

  /** Decimation keeps the peak: nothing higher appears and the highest column is still there. */
  lemma PeakSurvives(s: seq<real>, w: nat)
    requires 0 < w <= |s|
    ensures MaxOf(Decimated(s, w), 0, w) == MaxOf(s, 0, |s|)
  {
    var d := Decimated(s, w);
    MaxIsHighest(s, 0, |s|);
    MaxIsHighest(d, 0, w);
    var k :| 0 <= k < |s| && s[k] == MaxOf(s, 0, |s|);
    ColumnReaches(s, w, k);
    var x :| 0 <= x < w && d[x] == MaxOf(d, 0, w);
    OutputIsSomeColumn(s, w, x);
  }

  /** ... also when the trace is first decimated to its own columns and then to the pixels. */
  lemma PeakSurvivesTwice(s: seq<real>, t: nat, w: nat)
    requires 0 < w <= t <= |s|
    ensures MaxOf(Decimated(Decimated(s, t), w), 0, w) == MaxOf(s, 0, |s|)
  {
    PeakSurvives(s, t);
    PeakSurvives(Decimated(s, t), w);
  }

  /** Column position `x * n / w`: the column it is in, and how far past it. */
  function Fraction(p: nat, w: nat): (t: real)
    requires w > 0
    ensures 0.0 <= t < 1.0
  {
    (p % w) as real / w as real
  }

  function Lerp(s: seq<real>, x: nat, w: nat): real
    requires |s| > 0 && w > 0 && x < w
  {
    var n := |s|;
    if x == 0 then s[0]
    else if x * n >= (n - 1) * w then s[n - 1]
    else
      DivIsBelow(x * n, w, n - 1);
      var c, t := x * n / w, Fraction(x * n, w);
      (1.0 - t) * s[c] + t * s[c + 1]
  }

  /** What is plotted at pixel `x`: the maximum of its columns, or the interpolated level when there
      are more pixels than columns. */
  function ColumnValue(s: seq<real>, x: nat, w: nat): real
    requires |s| > 0 && x < w
  {
    if |s| >= w then Decimated(s, w)[x] else Lerp(s, x, w)
  }

  /** The maximum loop, as both decimations run it. */
  method MaxLoop(s: seq<real>, a: nat, b: nat) returns (m: real)
    requires a < b <= |s|
    ensures m == MaxOf(s, a, b)
  {
    m := s[a];
    var k := a + 1;
    while k < b
      invariant a < k <= b && m == MaxOf(s, a, k)
    {
      if s[k] > m {
        m := s[k];
      }
      k := k + 1;
    }
  }

  /** One output column of `w`: both decimations' loop over its run of columns. */
  method DecimatedColumn(s: seq<real>, x: nat, w: nat) returns (m: real)
    requires x < w <= |s|
    ensures m == Decimated(s, w)[x]
  {
    ColumnsTile(x, |s|, w);
    m := MaxLoop(s, x * |s| / w, (x + 1) * |s| / w);
  }

  method PlotColumn(s: seq<real>, x: nat, w: nat) returns (v: real)
    requires |s| > 0 && x < w
    ensures v == ColumnValue(s, x, w)
  {
    if |s| >= w {
      v := DecimatedColumn(s, x, w);
    } else {
      v := Lerp(s, x, w);
    }
  }

  /** The trace brought down to its own number of columns, if it has more. */
  method TraceColumns(s: seq<real>, tc: nat) returns (tr: seq<real>)
    requires |s| > 0
    ensures tr == if 2 <= tc < |s| then Decimated(s, tc) else s
  {
    if !(2 <= tc < |s|) {
      return s;
    }
    tr := [];
    ghost var want := Decimated(s, tc);
    while |tr| < tc
      invariant |tr| <= tc == |want| && tr == want[..|tr|]
    {
      var m := DecimatedColumn(s, |tr|, tc);
      tr := tr + [m];
    }
  }

  lemma LerpForm(a: real, b: real, t: real)
    ensures (1.0 - t) * a + t * b == a + t * (b - a) == a - t * (a - b)
  {}

  lemma Between(a: real, b: real, t: real, lo: real, hi: real)
    requires lo <= a <= hi && lo <= b <= hi && 0.0 <= t <= 1.0
    ensures lo <= (1.0 - t) * a + t * b <= hi
  {
    var v := (1.0 - t) * a + t * b;
    LerpForm(a, b, t);
    if b >= a {
      var d := b - a;
      PartOf(t, d);
      var e := t * d;
      assert v == a + e && 0.0 <= e <= d;
    } else {
      var d := a - b;
      PartOf(t, d);
      var e := t * d;
      assert v == a - e && 0.0 <= e <= d;
    }
  }

  lemma LerpIsInRange(s: seq<real>, x: nat, w: nat, lo: real, hi: real)
    requires |s| > 0 && w > 0 && x < w && forall k :: 0 <= k < |s| ==> lo <= s[k] <= hi
    ensures lo <= Lerp(s, x, w) <= hi
  {
    var n := |s|;
    if 0 < x && x * n < (n - 1) * w {
      DivIsBelow(x * n, w, n - 1);
      var c := x * n / w;
      Between(s[c], s[c + 1], Fraction(x * n, w), lo, hi);
    }
  }

  /** Nothing is plotted outside the range of the data. */
  lemma PlottedIsInRange(s: seq<real>, x: nat, w: nat, lo: real, hi: real)
    requires |s| > 0 && x < w && forall k :: 0 <= k < |s| ==> lo <= s[k] <= hi
    ensures lo <= ColumnValue(s, x, w) <= hi
  {
    if |s| >= w {
      OutputIsSomeColumn(s, w, x);
    } else {
      LerpIsInRange(s, x, w, lo, hi);
    }
  }

  // ---- heights --------------------------------------------------------------------------------

  function ToY(dbm: real, high: real, low: real, h: nat): (y: real)
    requires high > low
    ensures 0.0 <= y <= h as real
  {
    var t := (high - dbm) / (high - low);
    var u := if t < 0.0 then 0.0 else if t > 1.0 then 1.0 else t;
    PartOf(u, h as real);
    u * h as real
  }

  lemma PartOf(h: real, whole: real)
    requires 0.0 <= h <= 1.0 && whole >= 0.0
    ensures 0.0 <= h * whole <= whole
  {
    Scaled(0.0, h, whole);
    Scaled(h, 1.0, whole);
  }

  /** The top of the window is the top of the strip and its bottom the bottom, and in between the height is in
      proportion; so a stronger level never lies lower. */
  lemma HeightIsInProportion(dbm: real, high: real, low: real, h: nat)
    requires high > low
    ensures dbm >= high ==> ToY(dbm, high, low, h) == 0.0
    ensures dbm <= low ==> ToY(dbm, high, low, h) == h as real
    ensures low <= dbm <= high ==> ToY(dbm, high, low, h) * (high - low) == (high - dbm) * h as real
  {
    var t, d := (high - dbm) / (high - low), high - low;
    assert t * d == high - dbm;
    if dbm >= high {
      Scaled(t, 0.0, d);
      assert t <= 0.0;
    }
    if dbm <= low {
      assert t >= 1.0;
    }
    if low <= dbm <= high {
      assert 0.0 <= t <= 1.0;
      assert (t * h as real) * d == (t * d) * h as real;
    }
  }

  predicate Heights(y: seq<real>, h: nat) {
    |y| > 0 && forall x :: 0 <= x < |y| ==> 0.0 <= y[x] <= h as real
  }

  /** The midpoints with the neighbouring columns. */
  function MidLeft(y: seq<real>, x: nat): real
    requires x < |y|
  {
    if x > 0 then 0.5 * (y[x - 1] + y[x]) else y[x]
  }

  function MidRight(y: seq<real>, x: nat): real
    requires x < |y|
  {
    if x + 1 < |y| then 0.5 * (y[x] + y[x + 1]) else y[x]
  }

  function Least(a: real, b: real, c: real): real { if a <= b && a <= c then a else if b <= c then b else c }

  function Most(a: real, b: real, c: real): real { if a >= b && a >= c then a else if b >= c then b else c }

  /** The run of the trace through a column, and the boundary of the fill under it. */
  function RunLow(y: seq<real>, x: nat): real
    requires x < |y|
  {
    Least(MidLeft(y, x), y[x], MidRight(y, x))
  }

  function RunHigh(y: seq<real>, x: nat): real
    requires x < |y|
  {
    Most(MidLeft(y, x), y[x], MidRight(y, x))
  }

  function Boundary(y: seq<real>, x: nat): (b: real)
    requires x < |y|
    ensures RunLow(y, x) <= b <= RunHigh(y, x)
  {
    0.25 * (MidLeft(y, x) + 2.0 * y[x] + MidRight(y, x))
  }

  // ---- coverage ---------------------------------------------------------------------------------

  const HALF := 0.6

  function Round(x: real): int { (x + 0.5).Floor }

  /** Coverage of row `r` by what lies below the boundary, 0 to 255. */
  function FillAt(y: seq<real>, x: nat, r: int): int
    requires x < |y|
  {
    Round(ClampReal(r as real + 1.0 - Boundary(y, x), 0.0, 1.0) * 255.0)
  }

  /** Coverage of row `r` by the interval [lo, hi]. */
  function Cov(lo: real, hi: real, r: int): int {
    var a, b := if lo > r as real then lo else r as real, if hi < r as real + 1.0 then hi else r as real + 1.0;
    if b - a <= 0.0 then 0 else if b - a >= 1.0 then 255 else Round((b - a) * 255.0)
  }

  function TraceAt(y: seq<real>, x: nat, r: int): int
    requires x < |y|
  {
    Cov(RunLow(y, x) - HALF, RunHigh(y, x) + HALF, r)
  }

  function Ceil(x: real): int { -(-x).Floor }

  function LowestRun(y: seq<real>, n: nat): (m: real)
    requires 1 <= n <= |y|
    ensures forall x :: 0 <= x < n ==> m <= RunLow(y, x)
    ensures exists x :: 0 <= x < n && m == RunLow(y, x)
  {
    if n == 1 then RunLow(y, 0)
    else
      var m := LowestRun(y, n - 1);
      if RunLow(y, n - 1) < m then RunLow(y, n - 1) else m
  }

  function HighestRun(y: seq<real>, n: nat): (m: real)
    requires 1 <= n <= |y|
    ensures forall x :: 0 <= x < n ==> RunHigh(y, x) <= m
    ensures exists x :: 0 <= x < n && m == RunHigh(y, x)
  {
    if n == 1 then RunHigh(y, 0)
    else
      var m := HighestRun(y, n - 1);
      if RunHigh(y, n - 1) > m then RunHigh(y, n - 1) else m
  }

  /** The band of rows kept of a strip `h` rows high. */
  function BandTop(y: seq<real>): int
    requires |y| > 0
  {
    var a := (LowestRun(y, |y|) - HALF).Floor - 1;
    if a < 0 then 0 else a
  }

  function BandBottom(y: seq<real>, h: nat): int
    requires |y| > 0
  {
    var b := Ceil(HighestRun(y, |y|) + HALF) + 1;
    if b > h then h else b
  }

  lemma RunsAreInTheStrip(y: seq<real>, h: nat, x: nat)
    requires Heights(y, h) && x < |y|
    ensures 0.0 <= RunLow(y, x) <= RunHigh(y, x) <= h as real
  {}

  /** The band is never empty. */
  lemma BandIsNotEmpty(y: seq<real>, h: nat)
    requires Heights(y, h) && h >= 1
    ensures 0 <= BandTop(y) < BandBottom(y, h) <= h
  {
    var i :| 0 <= i < |y| && LowestRun(y, |y|) == RunLow(y, i);
    RunsAreInTheStrip(y, h, i);
    RunsAreInTheStrip(y, h, 0);
    assert LowestRun(y, |y|) <= RunLow(y, 0) <= RunHigh(y, 0) <= HighestRun(y, |y|);
  }

  /** Cutting the masks to the band loses nothing: in the strip, the rows above it are empty in both
      masks, the rows below it are full in the fill and empty in the trace. */
  lemma CutLosesNothing(y: seq<real>, h: nat, x: nat, r: nat)
    requires Heights(y, h) && x < |y| && r < h
    ensures r < BandTop(y) ==> FillAt(y, x, r) == 0 && TraceAt(y, x, r) == 0
    ensures r >= BandBottom(y, h) ==> FillAt(y, x, r) == 255 && TraceAt(y, x, r) == 0
  {
    assert LowestRun(y, |y|) <= RunLow(y, x) && RunHigh(y, x) <= HighestRun(y, |y|);
    if r < BandTop(y) {
      assert ClampReal(r as real + 1.0 - Boundary(y, x), 0.0, 1.0) == 0.0;
    } else if r >= BandBottom(y, h) {
      assert ClampReal(r as real + 1.0 - Boundary(y, x), 0.0, 1.0) == 1.0;
    }
  }

  /** Only the rows from the floor of the interval to its ceiling are covered at all, and they have
      a row in between only if it is covered whole. */
  lemma CoveredRows(lo: real, hi: real, r: int)
    requires lo < hi
    ensures r < lo.Floor || r >= Ceil(hi) ==> Cov(lo, hi, r) == 0
    ensures lo.Floor < r < Ceil(hi) - 1 ==> Cov(lo, hi, r) == 255
  {}

  // ---- the two loops --------------------------------------------------------------------------------

  method Extent(y: seq<real>) returns (lo: real, hi: real)
    requires |y| > 0
    ensures lo == LowestRun(y, |y|) && hi == HighestRun(y, |y|)
  {
    lo, hi := RunLow(y, 0), RunHigh(y, 0);
    for x := 1 to |y|
      invariant lo == LowestRun(y, x) && hi == HighestRun(y, x)
    {
      if RunLow(y, x) < lo { lo := RunLow(y, x); }
      if RunHigh(y, x) > hi { hi := RunHigh(y, x); }
    }
  }

  /** The level and the height of every column. */
  method Plot(dbm: seq<real>, w: nat, h: nat, high: real, low: real) returns (d: array<real>, y: array<real>)
    requires |dbm| > 0 && high > low
    ensures d.Length == y.Length == w
    ensures forall x :: 0 <= x < w ==> d[x] == ColumnValue(dbm, x, w) && y[x] == ToY(d[x], high, low, h)
  {
    d, y := new real[w](_ => 0.0), new real[w](_ => 0.0);
    for x := 0 to w
      invariant d != y
      invariant forall i :: 0 <= i < x ==> d[i] == ColumnValue(dbm, i, w) && y[i] == ToY(d[i], high, low, h)
    {
      var v := PlotColumn(dbm, x, w);
      d[x] := v;
      y[x] := ToY(v, high, low, h);
    }
  }

  /** The band of the heights, clamped to the strip. */
  method Band(y: seq<real>, h: nat) returns (some: bool, r0: int, r1: int)
    requires Heights(y, h) && h >= 1
    ensures some && r0 == BandTop(y) && r1 == BandBottom(y, h)
  {
    var lo, hi := Extent(y);
    var a, b := (lo - HALF).Floor - 1, Ceil(hi + HALF) + 1;
    if a < 0 { a := 0; }
    if b > h { b := h; }
    BandIsNotEmpty(y, h);
    return b > a, a, b;
  }

  /** The levels and heights of all columns, and the band; no picture only for lack of columns or rows. */
  method BodyBand(dbm: seq<real>, w: nat, h: nat, high: real, low: real)
      returns (ok: bool, d: seq<real>, y: seq<real>, r0: int, r1: int)
    requires high > low
    ensures ok <==> w >= 1 && h >= 1 && |dbm| >= 2
    ensures ok ==> |d| == |y| == w && Heights(y, h)
                   && (forall x :: 0 <= x < w ==> d[x] == ColumnValue(dbm, x, w) && y[x] == ToY(d[x], high, low, h))
                   && r0 == BandTop(y) && r1 == BandBottom(y, h)
  {
    ok, d, y, r0, r1 := false, [], [], 0, 0;
    if w < 1 || h < 1 || |dbm| < 2 {
      return;
    }
    var levels, heights := Plot(dbm, w, h, high, low);
    d, y := levels[..], heights[..];
    ok, r0, r1 := Band(y, h);
  }

  // ---- the colour strip ----------------------------------------------------------------------------

  /** The brightest of a column and its neighbours. */
  function Brightest(d: seq<real>, x: nat): real
    requires x < |d|
  {
    var a := if x > 0 then MaxReal(d[x], d[x - 1]) else d[x];
    if x + 1 < |d| then MaxReal(a, d[x + 1]) else a
  }

  /** Both columns a segment of the trace runs between are coloured at least as bright as its brighter end,
      and no column brighter than some end of a segment through it. */
  lemma SegmentIsBright(d: seq<real>, x: nat)
    requires x < |d|
    ensures x > 0 ==> Brightest(d, x) >= MaxReal(d[x - 1], d[x]) && Brightest(d, x - 1) >= MaxReal(d[x - 1], d[x])
    ensures exists k :: x - 1 <= k <= x + 1 && 0 <= k < |d| && Brightest(d, x) == d[k]
  {
    assert d[x] == Brightest(d, x) || (x > 0 && d[x - 1] == Brightest(d, x)) || (x + 1 < |d| && d[x + 1] == Brightest(d, x));
  }

  datatype Rgb = Rgb(r: real, g: real, b: real)

  const ALPHA := 0.98

  /** One channel, lifted half way to white. */
  function Lifted(c: real): int { Trunc((0.5 + 0.5 * c) * ALPHA * 255.0 + 0.5) }

  /** The colour of a column: alpha, red, green and blue from the top byte down. */
  function StripAt(d: seq<real>, x: nat, low: real, span: real, palette: real -> Rgb): int
    requires x < |d|
  {
    var c := palette((Brightest(d, x) - low) / MaxReal(span, 1.0));
    ((Trunc(ALPHA * 255.0 + 0.5) * 256 + Lifted(c.r)) * 256 + Lifted(c.g)) * 256 + Lifted(c.b)
  }

  method ColourStrip(d: seq<real>, low: real, span: real, palette: real -> Rgb, strip: array<int>)
    requires strip.Length == |d|
    modifies strip
    ensures forall x :: 0 <= x < |d| ==> strip[x] == StripAt(d, x, low, span, palette)
  {
    var s := if span < 1.0 then 1.0 else span;
    for x := 0 to |d|
      invariant forall i :: 0 <= i < x ==> strip[i] == StripAt(d, i, low, span, palette)
    {
      var v := d[x];
      if x > 0 && d[x - 1] > v { v := d[x - 1]; }
      if x + 1 < |d| && d[x + 1] > v { v := d[x + 1]; }
      var c := palette((v - low) / s);
      var a, r, g, b := Trunc(ALPHA * 255.0 + 0.5), Lifted(c.r), Lifted(c.g), Lifted(c.b);
      strip[x] := ((a * 256 + r) * 256 + g) * 256 + b;
    }
  }

  /** The masks of the band's rows and the colours of its columns: every fill pixel, and of the trace only
      the rows it touches. Nothing is drawn for another width or a band outside the strip. */
  method BodyMasks(w: int, h: nat, d: seq<real>, y: seq<real>, r0: int, r1: int, low: real, span: real, palette: real -> Rgb,
                   fill: array2<int>, trace: array2<int>, strip: array<int>) returns (drawn: bool)
    requires |d| == |y| && fill != trace
    requires fill.Length0 == trace.Length0 == Max(r1 - r0, 0) && fill.Length1 == trace.Length1 == strip.Length == Max(w, 0)
    modifies fill, trace, strip
    ensures drawn <==> 1 <= w == |y| && 0 <= r0 < r1 <= h
    ensures drawn ==>
      && (forall r, x :: 0 <= r < r1 - r0 && 0 <= x < |y| ==> fill[r, x] == FillAt(y, x, r0 + r))
      && (forall r, x :: 0 <= r < r1 - r0 && 0 <= x < |y| ==> trace[r, x] == TraceAt(y, x, r0 + r))
      && (forall x :: 0 <= x < |y| ==> strip[x] == StripAt(d, x, low, span, palette))
    ensures !drawn ==> unchanged(fill) && unchanged(trace) && unchanged(strip)
  {
    drawn := !(w < 1 || w != |y| || r1 - r0 < 1 || r0 < 0 || r1 > h);
    if drawn {
      FillMask(y, r0, fill);
      TraceMask(y, r0, r1, trace);
      ColourStrip(d, low, span, palette, strip);
    }
  }

  method FillMask(y: seq<real>, r0: int, fill: array2<int>)
    requires fill.Length1 == |y|
    modifies fill
    ensures forall r, x :: 0 <= r < fill.Length0 && 0 <= x < |y| ==> fill[r, x] == FillAt(y, x, r0 + r)
  {
    for r := 0 to fill.Length0
      invariant forall i, x :: 0 <= i < r && 0 <= x < |y| ==> fill[i, x] == FillAt(y, x, r0 + i)
    {
      for x := 0 to |y|
        invariant forall i, k :: 0 <= i < r && 0 <= k < |y| ==> fill[i, k] == FillAt(y, k, r0 + i)
        invariant forall k :: 0 <= k < x ==> fill[r, k] == FillAt(y, k, r0 + r)
      {
        fill[r, x] := FillAt(y, x, r0 + r);
      }
    }
  }

  method TraceMask(y: seq<real>, r0: int, r1: int, trace: array2<int>)
    requires r0 < r1 && trace.Length0 == r1 - r0 && trace.Length1 == |y|
    modifies trace
    ensures forall r, x :: 0 <= r < r1 - r0 && 0 <= x < |y| ==> trace[r, x] == TraceAt(y, x, r0 + r)
  {
    for r := 0 to r1 - r0
      invariant forall i, x :: 0 <= i < r && 0 <= x < |y| ==> trace[i, x] == 0
    {
      for x := 0 to |y|
        invariant forall i, k :: 0 <= i < r && 0 <= k < |y| ==> trace[i, k] == 0
        invariant forall k :: 0 <= k < x ==> trace[r, k] == 0
      {
        trace[r, x] := 0;
      }
    }
    for x := 0 to |y|
      invariant forall r, k :: 0 <= r < r1 - r0 && 0 <= k < x ==> trace[r, k] == TraceAt(y, k, r0 + r)
      invariant forall r, k :: 0 <= r < r1 - r0 && x <= k < |y| ==> trace[r, k] == 0
    {
      TraceColumn(y, x, r0, r1, trace);
    }
  }

  method TraceColumn(y: seq<real>, x: nat, r0: int, r1: int, trace: array2<int>)
    requires x < |y| && r0 < r1 && trace.Length0 == r1 - r0 && trace.Length1 == |y|
    requires forall r :: 0 <= r < r1 - r0 ==> trace[r, x] == 0
    modifies trace
    ensures forall r :: 0 <= r < r1 - r0 ==> trace[r, x] == TraceAt(y, x, r0 + r)
    ensures forall r, k :: 0 <= r < r1 - r0 && 0 <= k < |y| && k != x ==> trace[r, k] == old(trace[r, k])
  {
    var lo, hi := RunLow(y, x) - HALF, RunHigh(y, x) + HALF;
    var a, b := lo.Floor, Ceil(hi);
    if a < r0 { a := r0; }
    if b > r1 { b := r1; }
    var r := a;
    while r < b
      invariant a <= r && (r <= b || r == a)
      invariant forall i :: 0 <= i < r1 - r0 ==> trace[i, x] == if a <= r0 + i < r then Cov(lo, hi, r0 + i) else 0
      invariant forall i, k :: 0 <= i < r1 - r0 && 0 <= k < |y| && k != x ==> trace[i, k] == old(trace[i, k])
    {
      trace[r - r0, x] := Cov(lo, hi, r);
      r := r + 1;
    }
    forall i | 0 <= i < r1 - r0 ensures trace[i, x] == TraceAt(y, x, r0 + i) {
      CoveredRows(lo, hi, r0 + i);
    }
  }
}
