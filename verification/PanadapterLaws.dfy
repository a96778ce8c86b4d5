/** What the spectrum trace shows: levels between columns, the area under the trace, the coverage of
    single pixels and their colour, all by the numbers. */
module PanadapterLaws {
  import opened Arith
  import opened Panadapter

  // ---- levels between columns -----------------------------------------------------------

  /** With fewer columns than pixels, a pixel `x * n / w` columns along has the level on the straight line between
      the two columns there, the first and the last column holding at the ends. */
  lemma LevelIsOnTheLine(s: seq<real>, x: nat, w: nat)
    requires 0 < |s| < w && x < w
    ensures var p := x * |s|;
      && (x == 0 ==> ColumnValue(s, x, w) == s[0])
      && (x > 0 && p >= (|s| - 1) * w ==> ColumnValue(s, x, w) == s[|s| - 1])
      && (x > 0 && p < (|s| - 1) * w ==>
            p / w + 1 < |s| && ColumnValue(s, x, w) * w as real
                               == (w - p % w) as real * s[p / w] + (p % w) as real * s[p / w + 1])
  {
    var p := x * |s|;
    if x > 0 && p < (|s| - 1) * w {
      DivIsBelow(p, w, |s| - 1);
      OnTheLine(s[p / w], s[p / w + 1], (p % w) as real, w as real);
    }
  }

  lemma OnTheLine(a: real, b: real, q: real, w: real)
    requires w > 0.0
    ensures ((1.0 - q / w) * a + q / w * b) * w == (w - q) * a + q * b
  {
    var t := q / w;
    assert t * w == q;
    assert ((1.0 - t) * a + t * b) * w == (w - t * w) * a + t * w * b;
  }

  // ---- the trace through a column ---------------------------------------------------------

  /** Halfway to the column on the left and on the right; at the ends the column itself. */
  function HalfwayLeft(y: seq<real>, x: nat): real
    requires x < |y|
  {
    if x == 0 then y[0] else (y[x - 1] + y[x]) / 2.0
  }

  function HalfwayRight(y: seq<real>, x: nat): real
    requires x < |y|
  {
    if x == |y| - 1 then y[x] else (y[x] + y[x + 1]) / 2.0
  }

  /** The run of a column is the span of the polyline in it: from one halfway point through the column's own height
      to the other, and no further. */
  lemma RunIsTheSpan(y: seq<real>, x: nat)
    requires x < |y|
    ensures var l, m, r := HalfwayLeft(y, x), y[x], HalfwayRight(y, x);
      && RunLow(y, x) <= l <= RunHigh(y, x) && RunLow(y, x) <= m <= RunHigh(y, x) && RunLow(y, x) <= r <= RunHigh(y, x)
      && (RunLow(y, x) == l || RunLow(y, x) == m || RunLow(y, x) == r)
      && (RunHigh(y, x) == l || RunHigh(y, x) == m || RunHigh(y, x) == r)
  {}

  /** The boundary of the fill is the mean height of the polyline in the column. */
  lemma BoundaryIsTheMean(y: seq<real>, x: nat)
    requires x < |y|
    ensures Boundary(y, x) == ((HalfwayLeft(y, x) + y[x]) / 2.0 + (y[x] + HalfwayRight(y, x)) / 2.0) / 2.0
  {}

  function Total(s: seq<real>, n: nat): real
    requires n <= |s|
  {
    if n == 0 then 0.0 else Total(s, n - 1) + s[n - 1]
  }

  function Boundaries(y: seq<real>, n: nat): real
    requires n <= |y|
  {
    if n == 0 then 0.0 else Boundaries(y, n - 1) + Boundary(y, n - 1)
  }

  lemma {:induction false} BoundariesUpTo(y: seq<real>, n: nat)
    requires n <= |y|
    ensures Boundaries(y, n) == Total(y, n) + if 0 < n < |y| then (y[n] - y[n - 1]) / 8.0 else 0.0
  {
    if n > 0 {
      BoundariesUpTo(y, n - 1);
    }
  }

  /** So smoothing the boundary moves no area: over the whole trace it adds up to the heights plotted. */
  lemma FillKeepsTheArea(y: seq<real>)
    ensures Boundaries(y, |y|) == Total(y, |y|)
  {
    BoundariesUpTo(y, |y|);
  }

  // ---- coverage -----------------------------------------------------------------------------

  /** The nearest of the 256 steps to a share of a pixel. */
  predicate IsStep(v: int, share: real) { v as real - 0.5 <= share * 255.0 < v as real + 0.5 }

  /** A pixel of the fill is covered by as much of its row as lies below the boundary. */
  lemma FillIsTheShare(y: seq<real>, x: nat, r: int)
    requires x < |y|
    ensures var b, top := Boundary(y, x), r as real;
      && (b <= top ==> FillAt(y, x, r) == 255)
      && (b >= top + 1.0 ==> FillAt(y, x, r) == 0)
      && (top <= b <= top + 1.0 ==> IsStep(FillAt(y, x, r), top + 1.0 - b))
  {}

  /** A pixel of the trace is covered by as much of its row as the run, widened by 0.6 rows on either side, takes up. */
  lemma TraceIsTheShare(y: seq<real>, x: nat, r: int)
    requires x < |y|
    ensures var lo, hi, top := RunLow(y, x) - 0.6, RunHigh(y, x) + 0.6, r as real;
      var share := (if hi < top + 1.0 then hi else top + 1.0) - (if lo > top then lo else top);
      && (share <= 0.0 ==> TraceAt(y, x, r) == 0)
      && (0.0 <= share <= 1.0 ==> IsStep(TraceAt(y, x, r), share))
      && share <= 1.0
  {
    RunIsTheSpan(y, x);
  }

  // ---- colour ---------------------------------------------------------------------------------

  /** A colour component is lifted halfway to white, and taken at 98 per cent. */
  lemma LiftIsHalfway(c: real)
    requires 0.0 <= c <= 1.0
    ensures 0 <= Lifted(c) < 256 && IsStep(Lifted(c), (1.0 + c) / 2.0 * 0.98)
  {}

  /** The word of a column has 98 per cent opacity and then the lifted red, green and blue of the palette's colour for
      the brightest level there, as far into the window as that level lies (a window below 1 dB counting as 1 dB). */
  lemma StripIsTheColour(d: seq<real>, x: nat, low: real, span: real, palette: real -> Rgb, wide: real, c: Rgb)
    requires x < |d| && wide == (if span < 1.0 then 1.0 else span) && c == palette((Brightest(d, x) - low) / wide)
    requires 0.0 <= c.r <= 1.0 && 0.0 <= c.g <= 1.0 && 0.0 <= c.b <= 1.0
    ensures var v := StripAt(d, x, low, span, palette);
      && IsStep(v / 0x1000000, 0.98) && IsStep(v / 0x10000 % 0x100, (1.0 + c.r) / 2.0 * 0.98)
      && IsStep(v / 0x100 % 0x100, (1.0 + c.g) / 2.0 * 0.98) && IsStep(v % 0x100, (1.0 + c.b) / 2.0 * 0.98)
  {
    var v, r, g, b := StripAt(d, x, low, span, palette), Lifted(c.r), Lifted(c.g), Lifted(c.b);
    LiftIsHalfway(c.r);
    LiftIsHalfway(c.g);
    LiftIsHalfway(c.b);
    assert v == ((250 * 256 + r) * 256 + g) * 256 + b by {
      StripWord(d, x, low, span, palette, wide, c);
    }
    Bytes(v, r, g, b);
  }

  lemma StripWord(d: seq<real>, x: nat, low: real, span: real, palette: real -> Rgb, wide: real, c: Rgb)
    requires x < |d| && wide == (if span < 1.0 then 1.0 else span) && c == palette((Brightest(d, x) - low) / wide)
    ensures StripAt(d, x, low, span, palette) == ((250 * 256 + Lifted(c.r)) * 256 + Lifted(c.g)) * 256 + Lifted(c.b)
  {
    assert wide == MaxReal(span, 1.0);
  }

  lemma Bytes(v: int, r: int, g: int, b: int)
    requires 0 <= r < 256 && 0 <= g < 256 && 0 <= b < 256 && v == ((250 * 256 + r) * 256 + g) * 256 + b
    ensures v / 0x1000000 == 250 && v / 0x10000 % 0x100 == r && v / 0x100 % 0x100 == g && v % 0x100 == b
  {}

  // ---- the band -------------------------------------------------------------------------------

  /** The band begins one row above the row the widened trace first touches and ends one row below the last, as far
      as the strip goes. */
  lemma BandIsTight(y: seq<real>, h: nat, lo: real, hi: real)
    requires Heights(y, h) && h >= 1
    requires lo == LowestRun(y, |y|) - 0.6 && hi == HighestRun(y, |y|) + 0.6
    ensures BandTop(y) > 0 ==> (BandTop(y) + 1) as real <= lo < (BandTop(y) + 2) as real
    ensures BandTop(y) == 0 ==> lo < 2.0
    ensures BandBottom(y, h) < h ==> (BandBottom(y, h) - 2) as real < hi <= (BandBottom(y, h) - 1) as real
    ensures BandBottom(y, h) == h ==> (h - 2) as real < hi
  {
    BandIsNotEmpty(y, h);
  }
}
