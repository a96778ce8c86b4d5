/** The waterfall: a bitmap of 256 rows and, kept in lockstep, the palette index of every cell,
    so that a palette switch can recolour the history and a change of width resample it. The
    newest row is row 0; a serial counts the changes. */
module Waterfall {
  import opened Arith
  import opened Options
  import opened SpscRing
  import NoiseFloor
  import RowHistory

  const ROWS := 256
  const SPAN := 42.0

  // ---- one row -----------------------------------------------------------------------

  function Index(x: real): (i: int)
    ensures 0 <= i < 256
  {
    var i := Trunc(x);
    if i < 0 then 0 else if i > 255 then 255 else i
  }

  function Level(x: real, scale: real): real { x * scale }

  function Mapped(x: real, scale: real): (i: int)
    ensures 0 <= i < 256
  {
    Index(Level(x, scale))
  }

  /** The palette index of a column (its level plus 200) in a window `span` dB high. */
  function Quant(d: nat, low: real, span: real): (i: int)
    requires span > 0.0
    ensures 0 <= i < 256
  {
    Mapped(d as real - 200.0 - low, 255.0 / span)
  }

  lemma IndexFollows(v: real, w: real)
    requires v <= w
    ensures Index(v) <= Index(w)
    ensures (v <= 0.0 ==> Index(v) == 0) && (v >= 255.0 ==> Index(v) == 255)
  {}

  lemma FullScale(span: real)
    requires span > 0.0
    ensures 255.0 / span > 0.0 && span * (255.0 / span) == 255.0
  {}

  /** Order and ends of a level scaled so that `span` is full scale. */
  lemma LevelFollows(x: real, y: real, span: real, s: real)
    requires x <= y && s > 0.0 && span * s == 255.0
    ensures Level(x, s) <= Level(y, s)
    ensures x <= 0.0 ==> Level(x, s) <= 0.0
    ensures x >= span ==> Level(x, s) >= 255.0
  {
    Scaled(x, y, s);
    if x <= 0.0 {
      Scaled(x, 0.0, s);
    }
    if x >= span {
      Scaled(span, x, s);
    }
  }

  lemma MappedFollows(x: real, y: real, span: real, s: real)
    requires x <= y && s > 0.0 && span * s == 255.0
    ensures Mapped(x, s) <= Mapped(y, s)
    ensures x <= 0.0 ==> Mapped(x, s) == 0
    ensures x >= span ==> Mapped(x, s) == 255
  {
    LevelFollows(x, y, span, s);
    IndexFollows(Level(x, s), Level(y, s));
  }

  /** A stronger column never gets a lower index; at the floor of the window and below it is 0, at
      the top and above 255. */
  lemma QuantIsMonotone(d: nat, e: nat, low: real, span: real)
    requires span > 0.0 && d <= e
    ensures Quant(d, low, span) <= Quant(e, low, span)
    ensures d as real - 200.0 <= low ==> Quant(d, low, span) == 0
    ensures d as real - 200.0 >= low + span ==> Quant(d, low, span) == 255
  {
    FullScale(span);
    MappedFollows(d as real - 200.0 - low, e as real - 200.0 - low, span, 255.0 / span);
  }

  /** Inside the window the 256 indices share it evenly. */
  lemma QuantIsInProportion(d: nat, low: real, span: real)
    requires span > 0.0 && 0.0 <= d as real - 200.0 - low <= span
    ensures var i, x := Quant(d, low, span) as real, d as real - 200.0 - low;
      i * span <= x * 255.0 < (i + 1.0) * span
  {
    FullScale(span);
    LevelShare(d as real - 200.0 - low, span, 255.0 / span);
  }

  lemma LevelShare(x: real, span: real, s: real)
    requires 0.0 <= x <= span && s > 0.0 && span * s == 255.0
    ensures var i := Mapped(x, s) as real; i * span <= x * 255.0 < (i + 1.0) * span
  {
    LevelFollows(0.0, x, span, s);
    LevelFollows(x, span, span, s);
    var v := Level(x, s);
    assert 0.0 <= v <= 255.0 && Mapped(x, s) == v.Floor;
    Share(v.Floor as real, v, x, span, s);
  }

  lemma Share(i: real, v: real, x: real, span: real, s: real)
    requires i <= v < i + 1.0 && v == x * s && s > 0.0 && span > 0.0 && span * s == 255.0
    ensures i * span <= x * 255.0 < (i + 1.0) * span
  {
    assert v * span == x * (span * s);
    Scaled(i, v, span);
    Scaled(v, i + 1.0, span);
  }

  function Quantised(dbm: seq<nat>, low: real, span: real): (r: seq<int>)
    requires span > 0.0
    ensures |r| == |dbm|
  {
    seq(|dbm|, x requires 0 <= x < |dbm| => Quant(dbm[x], low, span))
  }

  function Blank(n: nat): (r: seq<int>)
    ensures |r| == n
  {
    seq(n, x => 0)
  }

  /** The nearest column of `cols` for column `x` of `n`. */
  function Nearest(x: nat, cols: nat, n: nat): (sx: nat)
    requires x < n && cols > 0
    ensures sx < cols
  {
    assert x * cols < n * cols by {
      MulMonotone(cols, x + 1, n);
    }
    DivIsBelow(x * cols, n, cols);
    x * cols / n
  }

  /** A column is taken from as far along the old row as it lies along the new one. */
  lemma NearestIsInProportion(x: nat, cols: nat, n: nat)
    requires x < n && cols > 0
    ensures Nearest(x, cols, n) * n <= x * cols < (Nearest(x, cols, n) + 1) * n
  {
    var q := x * cols / n;
    assert n * q <= x * cols < n * q + n;
  }

  /** The column map never runs backwards, and widening drops no column: column `k` is the nearest
      of the first output column at or past it. */
  lemma NearestKeepsOrder(x: nat, y: nat, cols: nat, n: nat)
    requires x <= y < n && cols > 0
    ensures Nearest(x, cols, n) <= Nearest(y, cols, n)
  {
    MulMonotone(cols, x, y);
    DivMonotone(x * cols, y * cols, n);
  }

  lemma WideningKeepsEveryColumn(k: nat, cols: nat, n: nat) returns (x: nat)
    requires k < cols <= n
    ensures x < n && Nearest(x, cols, n) == k
  {
    var p := k * n + cols - 1;
    x := p / cols;
    var r := p % cols;
    assert x * cols == k * n + (cols - 1 - r);
    MulMonotone(n, k + 1, cols);
    assert (k + 1) * n == k * n + n;
    assert x * cols < n * cols;
    if x >= n {
      MulMonotone(cols, n, x);
    }
    DivModUnique(x * cols, k, cols - 1 - r, n);
  }

  /** Nearest columns; nothing to take from counts as blank. */
  function Stretched(row: seq<int>, n: nat): (r: seq<int>)
    ensures |r| == n
  {
    if |row| == 0 then Blank(n) else seq(n, x requires 0 <= x < n => row[Nearest(x, |row|, n)])
  }

  lemma SameWidthIsIdentity(row: seq<int>)
    requires |row| > 0
    ensures Stretched(row, |row|) == row
  {
    var n := |row|;
    forall x | 0 <= x < n ensures Nearest(x, n, n) == x {
      DivModUnique(x * n, x, 0, n);
    }
  }

  // ---- the history ----------------------------------------------------------------------

  /** A row as it was pushed: its columns and the window they were quantised in. */
  datatype Pushed = Pushed(dbm: seq<nat>, low: real, span: real)

  ghost predicate LogOk(log: seq<Pushed>) {
    forall k :: 0 <= k < |log| ==> |log[k].dbm| > 0 && log[k].span > 0.0
  }

  function Painted(p: Pushed): (r: seq<int>)
    ensures |r| == |p.dbm|
  {
    if p.span > 0.0 then Quantised(p.dbm, p.low, p.span) else Blank(|p.dbm|)
  }

  function Carry(row: seq<int>, p: Pushed): seq<int> { Stretched(row, |p.dbm|) }

  function BlankFor(p: Pushed): seq<int> { Blank(|p.dbm|) }

  /** Row `r` of the picture: the `r`-th newest push, quantised then and carried through every
      later width; blank before there were that many. */
  function RowOf(log: seq<Pushed>, r: nat): seq<int>
    requires |log| > 0
  {
    RowHistory.RowOf(log, r, Painted, Carry, BlankFor)
  }

  function Widened(rows: seq<seq<int>>, n: nat): (h: seq<seq<int>>)
    ensures |h| == |rows|
  {
    seq(|rows|, r requires 0 <= r < |rows| => Stretched(rows[r], n))
  }

  lemma BlankStays(cols: nat, n: nat)
    ensures Stretched(Blank(cols), n) == Blank(n)
  {}

  lemma PushShifts(log: seq<Pushed>, p: Pushed, r: nat)
    ensures RowOf(log + [p], r) ==
      if r == 0 then Painted(p) else if |log| == 0 then BlankFor(p) else Carry(RowOf(log, r - 1), p)
  {
    if |log| > 0 {
      BlankStays(|log[|log| - 1].dbm|, |p.dbm|);
    }
    RowHistory.PushShifts(log, p, r, Painted, Carry, BlankFor);
  }

  // ---- the two images ---------------------------------------------------------------------

  ghost predicate Cells(idx: array2<int>, rows: seq<seq<int>>)
    reads idx
  {
    && |rows| == idx.Length0
    && (forall r :: 0 <= r < |rows| ==> |rows[r]| == idx.Length1)
    && forall r, x :: 0 <= r < idx.Length0 && 0 <= x < idx.Length1 ==> idx[r, x] == rows[r][x]
  }

  ghost predicate Indices(rows: seq<seq<int>>) {
    forall r, x :: 0 <= r < |rows| && 0 <= x < |rows[r]| ==> 0 <= rows[r][x] < 256
  }

  /** Every pixel is the palette colour of its cell. */
  ghost predicate Coloured(surf: array2<u32>, rows: seq<seq<int>>, lut: seq<u32>)
    requires |lut| == 256 && Indices(rows)
    reads surf
  {
    && |rows| == surf.Length0
    && (forall r :: 0 <= r < |rows| ==> |rows[r]| == surf.Length1)
    && forall r, x :: 0 <= r < surf.Length0 && 0 <= x < surf.Length1 ==> surf[r, x] == lut[rows[r][x]]
  }

  method Recolour(surf: array2<u32>, idx: array2<int>, lut: seq<u32>, ghost rows: seq<seq<int>>)
    requires |lut| == 256 && Indices(rows) && Cells(idx, rows)
    requires surf.Length0 == idx.Length0 && surf.Length1 == idx.Length1
    modifies surf
    ensures Coloured(surf, rows, lut)
  {
    for r := 0 to idx.Length0
      invariant forall i, x :: 0 <= i < r && 0 <= x < surf.Length1 ==> surf[i, x] == lut[rows[i][x]]
    {
      for x := 0 to idx.Length1
        invariant forall i, y :: 0 <= i < r && 0 <= y < surf.Length1 ==> surf[i, y] == lut[rows[i][y]]
        invariant forall y :: 0 <= y < x ==> surf[r, y] == lut[rows[r][y]]
      {
        surf[r, x] := lut[idx[r, x]];
      }
    }
  }

  /** One row of the history at its new width. */
  method ResampleRow(was: array2<int>, idx: array2<int>, r: nat, ghost row: seq<int>)
    requires r < was.Length0 == idx.Length0 && 0 < was.Length1 == |row| && was != idx
    requires forall x :: 0 <= x < |row| ==> was[r, x] == row[x]
    modifies idx
    ensures forall x :: 0 <= x < idx.Length1 ==> idx[r, x] == Stretched(row, idx.Length1)[x]
    ensures forall i, x :: 0 <= i < idx.Length0 && i != r && 0 <= x < idx.Length1 ==> idx[i, x] == old(idx[i, x])
  {
    for x := 0 to idx.Length1
      invariant forall y :: 0 <= y < x ==> idx[r, y] == Stretched(row, idx.Length1)[y]
      invariant forall i, y :: 0 <= i < idx.Length0 && i != r && 0 <= y < idx.Length1 ==> idx[i, y] == old(idx[i, y])
    {
      var sx := Nearest(x, was.Length1, idx.Length1);
      idx[r, x] := was[r, sx];
    }
  }

  /** The new, wider or narrower, index buffer. */
  method Resample(was: array2<int>, n: nat, ghost rows: seq<seq<int>>) returns (idx: array2<int>)
    requires n > 0 && was.Length1 > 0 && Cells(was, rows)
    ensures fresh(idx) && idx.Length0 == was.Length0 && idx.Length1 == n
    ensures Cells(idx, Widened(rows, n))
  {
    ghost var wide := Widened(rows, n);
    idx := new int[was.Length0, n]((_, _) => 0);
    for r := 0 to was.Length0
      invariant forall i, x :: 0 <= i < r && 0 <= x < n ==> idx[i, x] == wide[i][x]
      invariant Cells(was, rows)
    {
      ResampleRow(was, idx, r, rows[r]);
      assert wide[r] == Stretched(rows[r], n);
    }
  }

  /** Everything down by one row; the top row is left to be overwritten. */
  method Scroll<T>(img: array2<T>)
    modifies img
    ensures forall r, x :: 1 <= r < img.Length0 && 0 <= x < img.Length1 ==> img[r, x] == old(img[r - 1, x])
  {
    var r := img.Length0 - 1;
    while r > 0
      invariant -1 <= r < img.Length0
      invariant forall i, x :: 1 <= i && r < i < img.Length0 && 0 <= x < img.Length1 ==> img[i, x] == old(img[i - 1, x])
      invariant forall i, x :: 0 <= i <= r && i < img.Length0 && 0 <= x < img.Length1 ==> img[i, x] == old(img[i, x])
    {
      for x := 0 to img.Length1
        invariant forall i, y :: 1 <= i && r < i < img.Length0 && 0 <= y < img.Length1 ==> img[i, y] == old(img[i - 1, y])
        invariant forall i, y :: 0 <= i < r && 0 <= y < img.Length1 ==> img[i, y] == old(img[i, y])
        invariant forall y :: 0 <= y < x ==> img[r, y] == old(img[r - 1, y])
      {
        img[r, x] := img[r - 1, x];
      }
      r := r - 1;
    }
  }

  /** The new row on top of both images. */
  method PaintRow(idx: array2<int>, surf: array2<u32>, dbm: seq<nat>, low: real, span: real, lut: seq<u32>)
    requires idx.Length0 == surf.Length0 == ROWS && idx.Length1 == surf.Length1 == |dbm| && |lut| == 256 && span > 0.0
    modifies idx, surf
    ensures forall x :: 0 <= x < |dbm| ==> idx[0, x] == Quant(dbm[x], low, span) && surf[0, x] == lut[idx[0, x]]
    ensures forall r, x :: 1 <= r < ROWS && 0 <= x < |dbm| ==>
      idx[r, x] == old(idx[r, x]) && surf[r, x] == old(surf[r, x])
  {
    for x := 0 to |dbm|
      invariant forall y :: 0 <= y < x ==> idx[0, y] == Quant(dbm[y], low, span) && surf[0, y] == lut[idx[0, y]]
      invariant forall r, y :: 1 <= r < ROWS && 0 <= y < |dbm| ==>
        idx[r, y] == old(idx[r, y]) && surf[r, y] == old(surf[r, y])
    {
      var i := Quant(dbm[x], low, span);
      idx[0, x] := i;
      surf[0, x] := lut[i];
    }
  }

  // ---- a push on the two images -----------------------------------------------------------

  function Scrolled(rows: seq<seq<int>>, top: seq<int>): seq<seq<int>>
    requires |rows| > 0
  {
    [top] + rows[..|rows| - 1]
  }

  method PushImages(idx: array2<int>, surf: array2<u32>, dbm: seq<nat>, low: real, span: real, lut: seq<u32>,
                    ghost rows: seq<seq<int>>)
    requires idx.Length0 == surf.Length0 == ROWS && idx.Length1 == surf.Length1 == |dbm|
    requires |lut| == 256 && Indices(rows) && Cells(idx, rows) && Coloured(surf, rows, lut) && span > 0.0
    modifies idx, surf
    ensures var rows' := Scrolled(rows, Quantised(dbm, low, span));
      Indices(rows') && Cells(idx, rows') && Coloured(surf, rows', lut)
  {
    Scroll(surf);
    Scroll(idx);
    PaintRow(idx, surf, dbm, low, span, lut);
    ghost var rows' := Scrolled(rows, Quantised(dbm, low, span));
    assert forall r :: 1 <= r < ROWS ==> rows'[r] == rows[r - 1];
  }

  function Blanks(n: nat): (h: seq<seq<int>>)
    ensures |h| == ROWS && Indices(h)
  {
    seq(ROWS, r => Blank(n))
  }

  /** The images of a fresh surface: the palette's lowest colour everywhere. */
  method BlankImages(n: nat, lut: seq<u32>) returns (idx: array2<int>, surf: array2<u32>)
    requires |lut| == 256
    ensures fresh(idx) && fresh(surf) && idx.Length0 == surf.Length0 == ROWS && idx.Length1 == surf.Length1 == n
    ensures Cells(idx, Blanks(n)) && Coloured(surf, Blanks(n), lut)
  {
    idx := new int[ROWS, n]((_, _) => 0);
    surf := new u32[ROWS, n]((_, _) => 0);
    ghost var rows := Blanks(n);
    assert forall r, x :: 0 <= r < ROWS && 0 <= x < n ==> idx[r, x] == rows[r][x];
    Recolour(surf, idx, lut, rows);
  }

  lemma WidenedIndices(rows: seq<seq<int>>, n: nat)
    requires Indices(rows)
    ensures Indices(Widened(rows, n))
  {}

  /** The whole picture after a log of pushes. */
  function Rows(log: seq<Pushed>): (h: seq<seq<int>>)
    requires |log| > 0
    ensures |h| == ROWS
  {
    seq(ROWS, r requires 0 <= r < ROWS => RowOf(log, r))
  }

  /** What the surface shows at width `n` just before the next push. */
  function Base(log: seq<Pushed>, n: nat): (h: seq<seq<int>>)
    ensures |h| == ROWS && forall r :: 0 <= r < ROWS ==> |h[r]| == n
  {
    if |log| == 0 then Blanks(n) else Widened(Rows(log), n)
  }

  lemma BaseAtSameWidth(log: seq<Pushed>)
    requires LogOk(log) && |log| > 0
    ensures Base(log, |log[|log| - 1].dbm|) == Rows(log)
  {
    var n := |log[|log| - 1].dbm|;
    RowsAreIndices(log);
    forall r | 0 <= r < ROWS ensures Base(log, n)[r] == Rows(log)[r] {
      SameWidthIsIdentity(RowOf(log, r));
    }
  }

  /** A push on that picture gives the picture of the longer log. */
  lemma PushExtendsTheLog(log: seq<Pushed>, p: Pushed)
    ensures Scrolled(Base(log, |p.dbm|), Painted(p)) == Rows(log + [p])
  {
    var h := Scrolled(Base(log, |p.dbm|), Painted(p));
    assert (log + [p])[|log|] == p;
    forall r | 0 <= r < ROWS ensures h[r] == Rows(log + [p])[r] {
      PushShifts(log, p, r);
      if r > 0 {
        assert h[r] == Base(log, |p.dbm|)[r - 1];
      }
    }
  }

  lemma {:induction false} CarriedIsWhole(log: seq<Pushed>, k: nat, n: nat)
    requires k < n <= |log|
    ensures var row := RowHistory.Carried(log, k, n, Painted, Carry);
      |row| == |log[n - 1].dbm| && forall x :: 0 <= x < |row| ==> 0 <= row[x] < 256
    decreases n
  {
    if n > k + 1 {
      CarriedIsWhole(log, k, n - 1);
    }
  }

  /** Every row is as wide as the newest push and holds palette indices. */
  lemma RowsAreIndices(log: seq<Pushed>)
    requires |log| > 0
    ensures Indices(Rows(log))
    ensures forall r :: 0 <= r < ROWS ==> |Rows(log)[r]| == |log[|log| - 1].dbm|
  {
    forall r | 0 <= r < ROWS
      ensures |Rows(log)[r]| == |log[|log| - 1].dbm|
      ensures forall x :: 0 <= x < |Rows(log)[r]| ==> 0 <= Rows(log)[r][x] < 256
    {
      if r < |log| {
        CarriedIsWhole(log, |log| - 1 - r, |log|);
      }
    }
  }

  // ---- the widget ---------------------------------------------------------------------------

  type Bitmap = seq<seq<u32>>

  function BitmapOf(rows: seq<seq<int>>, lut: seq<u32>): Bitmap
    requires |lut| == 256 && Indices(rows)
  {
    seq(|rows|, r requires 0 <= r < |rows| =>
      seq(|rows[r]|, x requires 0 <= x < |rows[r]| => lut[rows[r][x]]))
  }

  /** The picture of a log in a palette; no surface before the first push. */
  function Picture(log: seq<Pushed>, lut: seq<u32>): Bitmap
    requires |lut| == 256
  {
    if |log| == 0 then []
    else
      RowsAreIndices(log);
      BitmapOf(Rows(log), lut)
  }

  function Width(log: seq<Pushed>): nat {
    if |log| == 0 then 0 else |log[|log| - 1].dbm|
  }

  /** One frame on both images of a log, already as wide as the frame. */
  method PushOn(idx: array2<int>, surf: array2<u32>, dbm: seq<nat>, low: real, span: real, lut: seq<u32>,
                ghost log: seq<Pushed>)
    requires idx.Length0 == surf.Length0 == ROWS && idx.Length1 == surf.Length1 == |dbm| > 0 && span > 0.0
    requires |lut| == 256 && LogOk(log) && Indices(Base(log, |dbm|))
    requires Cells(idx, Base(log, |dbm|)) && Coloured(surf, Base(log, |dbm|), lut)
    modifies idx, surf
    ensures var log' := log + [Pushed(dbm, low, span)];
      && LogOk(log') && Width(log') == |dbm|
      && Indices(Rows(log')) && Cells(idx, Rows(log')) && Coloured(surf, Rows(log'), lut)
  {
    ghost var p := Pushed(dbm, low, span);
    PushExtendsTheLog(log, p);
    assert (log + [p])[|log|] == p;
    PushImages(idx, surf, dbm, low, span, lut, Base(log, |dbm|));
  }

  /** The range columns are quantised in. */
  datatype Range = Range(manual: bool, low: real, span: real, floor: NoiseFloor.Floor)

  function LowOf(g: Range): real {
    if g.manual then g.low else if g.floor.At? then g.floor.low else -120.0
  }

  function SpanOf(g: Range): real { if g.manual then g.span else SPAN }

  predicate RangeOk(g: Range) { (g.manual ==> g.span > 0.0) && NoiseFloor.InRange(g.floor) }

  /** The window: the pinned one; else 42 dB from the tracked floor on, or from -120 dBm before there is one. */
  lemma WindowIs(g: Range)
    ensures g.manual ==> LowOf(g) == g.low && SpanOf(g) == g.span
    ensures !g.manual ==> SpanOf(g) == 42.0 && LowOf(g) == if g.floor.Unset? then -120.0 else g.floor.low
  {}

  /** So a range that is not pinned begins within the histogram, whatever frames have come. */
  lemma LowIsInRange(g: Range)
    requires RangeOk(g) && !g.manual
    ensures -159.5 <= LowOf(g) <= -20.5 && SpanOf(g) > 0.0
  {}

  /** A frame moves the floor by its percentile bin, or a pinned range not at all. */
  ghost predicate Follows(g: Range, g': Range, dbm: seq<nat>) {
    if g.manual then g' == g
    else exists pb :: NoiseFloor.Chosen(dbm, pb) && g' == g.(floor := NoiseFloor.Tracked(g.floor, NoiseFloor.Noise(pb)))
  }

  class Display {
    var idx: array2<int>
    var surf: array2<u32>
    var lut: seq<u32>
    var range: Range
    var serial: u32
    ghost var log: seq<Pushed>
    ghost var shown: seq<Bitmap>   // the picture after every change, the first one before any

    ghost predicate Images()
      reads this, idx, surf
    {
      && |lut| == 256 && LogOk(log)
      && idx.Length0 == surf.Length0 == ROWS && idx.Length1 == surf.Length1
      && idx.Length1 == Width(log)
      && (|log| > 0 ==> Cells(idx, Rows(log)) && Indices(Rows(log)) && Coloured(surf, Rows(log), lut))
    }

    ghost predicate Valid()
      reads this, idx, surf
    {
      && Images()
      && RangeOk(range)
      && |shown| > 0 && serial == Wrap(|shown| - 1)
      && shown[|shown| - 1] == Picture(log, lut)
    }

    constructor (palette: seq<u32>)
      requires |palette| == 256
      ensures Valid() && fresh(idx) && fresh(surf) && log == []
    {
      idx := new int[ROWS, 0]((_, _) => 0);
      surf := new u32[ROWS, 0]((_, _) => 0);
      lut, range, serial := palette, Range(false, 0.0, 0.0, NoiseFloor.Unset), 0;
      log, shown := [], [[]];
    }

    /** A palette switch recolours the whole stored history. */
    method SetPalette(palette: seq<u32>)
      requires Valid() && |palette| == 256
      modifies this`lut, this`serial, this`shown, surf
      ensures Valid() && lut == palette
      ensures shown == if log == [] then old(shown) else old(shown) + [Picture(log, palette)]
    {
      lut := palette;
      if idx.Length1 > 0 {
        Recolour(surf, idx, lut, Rows(log));
        Bump();
      }
    }

    method SetManualRange(low: real, span: real)
      requires Valid()
      modifies this`range
      ensures Valid() && range == if span > 0.0 then Range(true, low, span, old(range).floor) else old(range).(manual := false)
    {
      if span > 0.0 {
        range := range.(manual := true, low := low, span := span);
      } else {
        range := range.(manual := false);
      }
    }

    /** The surface at `n` columns: kept, resampled, or new. */
    method EnsureSurface(n: nat)
      requires Images() && n > 0
      modifies this`idx, this`surf
      ensures idx.Length0 == surf.Length0 == ROWS && idx.Length1 == surf.Length1 == n
      ensures Indices(Base(log, n)) && Cells(idx, Base(log, n)) && Coloured(surf, Base(log, n), lut)
      ensures idx == old(idx) || fresh(idx)
      ensures surf == old(surf) || fresh(surf)
    {
      if idx.Length1 == n {
        BaseAtSameWidth(log);
        return;
      }
      if idx.Length1 > 0 {
        RowsAreIndices(log);
        WidenedIndices(Rows(log), n);
        var fresher := Resample(idx, n, Rows(log));
        var painted := new u32[ROWS, n]((_, _) => 0);
        Recolour(painted, fresher, lut, Base(log, n));
        idx, surf := fresher, painted;
      } else {
        idx, surf := BlankImages(n, lut);
      }
    }

    /** The floor follows the frame unless the range is pinned. */
    method Track(dbm: seq<nat>)
      requires RangeOk(range)
      modifies this`range
      ensures RangeOk(range) && Follows(old(range), range, dbm)
    {
      if !range.manual {
        var pb := NoiseFloor.Percentile(dbm);
        NoiseFloor.TrackedInRange(range.floor, pb);
        range := range.(floor := NoiseFloor.Tracked(range.floor, NoiseFloor.Noise(pb)));
      }
    }

    /** The frame onto a surface of its width. */
    method Draw(dbm: seq<nat>)
      requires |dbm| > 0 && SpanOf(range) > 0.0 && |lut| == 256 && LogOk(log) && Indices(Base(log, |dbm|))
      requires idx.Length0 == surf.Length0 == ROWS && idx.Length1 == surf.Length1 == |dbm|
      requires Cells(idx, Base(log, |dbm|)) && Coloured(surf, Base(log, |dbm|), lut)
      modifies this`log, idx, surf
      ensures Images() && log == old(log) + [Pushed(dbm, LowOf(range), SpanOf(range))]
    {
      PushOn(idx, surf, dbm, LowOf(range), SpanOf(range), lut, log);
      log := log + [Pushed(dbm, LowOf(range), SpanOf(range))];
    }

    /** The picture has changed. */
    method Bump()
      requires Images() && |shown| > 0 && serial == Wrap(|shown| - 1) && RangeOk(range)
      modifies this`serial, this`shown
      ensures Valid() && shown == old(shown) + [Picture(log, lut)]
    {
      WrapOfSum(|shown| - 1, 1);
      shown := shown + [Picture(log, lut)];
      serial := Wrap(serial + 1);
    }

    /** One frame: the row is quantised in the range in force after it and goes on top. A frame
        without columns changes nothing. */
    method Push(dbm: seq<nat>)
      requires Valid()
      modifies this, idx, surf
      ensures Valid() && lut == old(lut)
      ensures dbm == [] ==> unchanged(this)
      ensures dbm != [] ==>
        && log == old(log) + [Pushed(dbm, LowOf(range), SpanOf(range))]
        && shown == old(shown) + [Picture(log, lut)] && Follows(old(range), range, dbm)
      ensures idx == old(idx) || fresh(idx)
      ensures surf == old(surf) || fresh(surf)
    {
      if |dbm| < 1 {
        return;
      }
      EnsureSurface(|dbm|);
      Track(dbm);
      Draw(dbm);
      Bump();
    }
  }

  // ---- the texture cache ------------------------------------------------------------------------

  /** Within a whole turn of the 32-bit serial, equal serials mean no change in between. */
  lemma EqualSerialsNoChange(a: nat, b: nat)
    requires a <= b < a + WORD && Wrap(a) == Wrap(b)
    ensures a == b
  {
    WrapOfDifference(b, a);
  }

  /** The pixels, row by row. */
  method CopyPixels(surf: array2<u32>, ghost rows: seq<seq<int>>, ghost lut: seq<u32>) returns (t: Bitmap)
    requires |lut| == 256 && Indices(rows) && Coloured(surf, rows, lut)
    ensures t == BitmapOf(rows, lut)
  {
    ghost var want := BitmapOf(rows, lut);
    t := [];
    while |t| < surf.Length0
      invariant |t| <= surf.Length0 && t == want[..|t|]
    {
      var r, row := |t|, [];
      while |row| < surf.Length1
        invariant |row| <= surf.Length1 && row == want[r][..|row|]
      {
        row := row + [surf[r, |row|]];
      }
      assert row == want[r];
      assert want[..r + 1] == want[..r] + [want[r]];
      t := t + [row];
    }
  }

  /** One cached texture of one waterfall; `at` is the change it was taken after. */
  class TextureCache {
    var tex: Option<Bitmap>
    var serial: u32
    ghost var at: nat

    ghost predicate Valid(shown: seq<Bitmap>)
      reads this
    {
      tex.Some? ==> at < |shown| && tex.value == shown[at] && serial == Wrap(at)
    }

    constructor ()
      ensures tex.None?
    {
      tex, serial, at := None, 0, 0;
    }

    /** The texture handed out is always a picture the waterfall has shown, and the current one
        unless exactly a multiple of 2^32 changes went by since it was taken. */
    method Get(d: Display) returns (t: Option<Bitmap>)
      requires d.Valid() && Valid(d.shown)
      modifies this
      ensures Valid(d.shown)
      ensures d.log == [] ==> t.None?
      ensures d.log != [] ==> t.Some? && t == tex && at < |d.shown| && t.value == d.shown[at]
      ensures d.log != [] && (old(tex).Some? ==> |d.shown| - 1 - old(at) < WORD) ==>
        t.value == Picture(d.log, d.lut)
    {
      if d.idx.Length1 == 0 {
        return None;
      }
      if tex.Some? && serial == d.serial {
        if |d.shown| - 1 - at < WORD {
          EqualSerialsNoChange(at, |d.shown| - 1);
        }
        return tex;
      }
      var pixels := CopyPixels(d.surf, Rows(d.log), d.lut);
      tex, serial, at := Some(pixels), d.serial, |d.shown| - 1;
      t := tex;
    }
  }

  /** What is on the screen: the pixel of column `x` in the row of the `r`-th newest of `n` pushes is
      the palette's colour of that push's column, as quantised then and carried to today's width. */
  lemma PixelOfTheHistory(log: seq<Pushed>, lut: seq<u32>, r: nat, x: nat)
    requires |lut| == 256 && r < ROWS && r < |log| && x < Width(log)
    ensures var cells := RowHistory.Carried(log, |log| - 1 - r, |log|, Painted, Carry);
      && |Picture(log, lut)| == ROWS && |Picture(log, lut)[r]| == Width(log) == |cells| && 0 <= cells[x] < 256
      && Picture(log, lut)[r][x] == lut[cells[x]]
  {
    RowsAreIndices(log);
    CarriedIsWhole(log, |log| - 1 - r, |log|);
  }

  // ---- from one picture to the next --------------------------------------------------------------

  /** A frame appears on top, every column in the palette's colour of its own index. */
  lemma PushIsOnTop(log: seq<Pushed>, p: Pushed, lut: seq<u32>, x: nat)
    requires |lut| == 256 && x < |p.dbm| && p.span > 0.0
    ensures |Picture(log + [p], lut)| == ROWS && |Picture(log + [p], lut)[0]| == |p.dbm|
    ensures Picture(log + [p], lut)[0][x] == lut[Quant(p.dbm[x], p.low, p.span)]
  {
    RowsAreIndices(log + [p]);
    PushShifts(log, p, 0);
    assert Rows(log + [p])[0] == Painted(p);
  }

  /** At the same width everything else moves down one row as it is. */
  lemma PictureMovesDown(log: seq<Pushed>, p: Pushed, lut: seq<u32>, r: nat)
    requires |lut| == 256 && |log| > 0 && Width(log) == |p.dbm| > 0 && r + 1 < ROWS
    ensures |Picture(log + [p], lut)| == |Picture(log, lut)| == ROWS
    ensures Picture(log + [p], lut)[r + 1] == Picture(log, lut)[r]
  {
    RowsAreIndices(log);
    RowsAreIndices(log + [p]);
    PushShifts(log, p, r + 1);
    var row := Rows(log)[r];
    assert |row| == |p.dbm|;
    SameWidthIsIdentity(row);
    assert Rows(log + [p])[r + 1] == row;
  }

  /** At a new width every pixel moves down from the nearest column. */
  lemma PictureStretches(log: seq<Pushed>, p: Pushed, lut: seq<u32>, r: nat, x: nat)
    requires |lut| == 256 && |log| > 0 && Width(log) > 0 && r + 1 < ROWS && x < |p.dbm|
    ensures |Picture(log + [p], lut)| == |Picture(log, lut)| == ROWS
    ensures |Picture(log + [p], lut)[r + 1]| == |p.dbm| && |Picture(log, lut)[r]| == Width(log)
    ensures Picture(log + [p], lut)[r + 1][x] == Picture(log, lut)[r][Nearest(x, Width(log), |p.dbm|)]
  {
    RowsAreIndices(log);
    RowsAreIndices(log + [p]);
    PushShifts(log, p, r + 1);
    assert Rows(log + [p])[r + 1] == Stretched(Rows(log)[r], |p.dbm|);
  }

  /** Rows no push has reached yet are in the lowest colour. */
  lemma NothingYet(log: seq<Pushed>, lut: seq<u32>, r: nat, x: nat)
    requires |lut| == 256 && 0 < |log| <= r < ROWS && x < Width(log)
    ensures |Picture(log, lut)| == ROWS && |Picture(log, lut)[r]| == Width(log) && Picture(log, lut)[r][x] == lut[0]
  {
    RowsAreIndices(log);
    assert Rows(log)[r] == Blank(Width(log));
  }
}
