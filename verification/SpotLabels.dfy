/** Packing the labels of the DX spots into three rows, left to right. */
module SpotLabels {
  import opened Arith

  const ROWS := 3
  const ROW_HEIGHT := 17.0
  const EMPTY := -1000000000.0

  /** A spot in view: the pixel column of its frequency and the width of its call. */
  datatype Tick = Tick(px: nat, width: real)

  function At(t: Tick): real { t.px as real + 0.5 }

  function RightOf(t: Tick): real { At(t) + t.width + 6.0 }

  // ---- the readouts ---------------------------------------------------------------------

  /** The strip's width and what its corners show: with a radio of its own the program's readout
      block from `x0` to `x1`, without one the server's readout up to `x1`, if they have been drawn. */
  datatype Zones = Zones(w: nat, radio: bool, drawn: bool, x0: real, x1: real)

  const TOP := 32.0
  const UNDER_SERVER_READOUT := 82.0 + 4.0 + 13.0
  const UNDER_METER := 54.0 + 24.0 * 1.06 + 26.0 + 13.0
  const UNDER_READOUT := 28.0 + 112.0 * 1.26 + 13.0

  function MeterLeft(z: Zones): real { z.w as real - 28.0 - 384.0 * 1.06 - 40.0 }

  /** The baseline of a spot's first row: under whatever its label would land on. */
  function Base(z: Zones, t: Tick): real {
    var b0 := if !z.radio && z.drawn && At(t) - 3.0 <= z.x1 + 6.0 && RightOf(t) >= 38.0 then UNDER_SERVER_READOUT else TOP;
    var b1 := if RightOf(t) >= MeterLeft(z) then MaxReal(b0, UNDER_METER) else b0;
    if z.radio && z.drawn && z.x1 > z.x0 && RightOf(t) >= z.x0 - 6.0 && At(t) - 3.0 <= z.x1 + 6.0
    then MaxReal(b1, UNDER_READOUT) else b1
  }

  /** The four baselines there are. */
  lemma Bases(z: Zones, t: Tick)
    ensures UNDER_METER == 118.44 && UNDER_READOUT == 182.12 && UNDER_SERVER_READOUT == 99.0
    ensures z.radio ==> Base(z, t) in {32.0, 118.44, 182.12}
    ensures !z.radio ==> Base(z, t) in {32.0, 99.0, 118.44}
  {}

  // ---- rows -----------------------------------------------------------------------------

  /** A label with its row, its box's ends in pixels and its baseline. */
  datatype Label = Hidden | Placed(row: nat, x0: real, x1: real, ly: real)

  /** Where each row is taken up to. */
  datatype Ends = Ends(r0: real, r1: real, r2: real)

  function End(e: Ends, row: nat): real {
    if row == 0 then e.r0 else if row == 1 then e.r1 else e.r2
  }

  /** The first row free at `x`, 3 if none is. */
  function FreeRow(e: Ends, x: real): (r: nat)
    ensures r <= ROWS
    ensures r < ROWS ==> x - 2.0 > End(e, r)
    ensures r == ROWS ==> x - 2.0 <= e.r0 && x - 2.0 <= e.r1 && x - 2.0 <= e.r2
  {
    if x - 2.0 > e.r0 then 0 else if x - 2.0 > e.r1 then 1 else if x - 2.0 > e.r2 then 2 else 3
  }

  function Taken(e: Ends, row: nat, to: real): Ends {
    if row == 0 then e.(r0 := to) else if row == 1 then e.(r1 := to) else if row == 2 then e.(r2 := to) else e
  }

  function LabelOf(z: Zones, t: Tick, row: nat): Label {
    if row >= ROWS then Hidden
    else Placed(row, At(t) - 3.0, RightOf(t), Base(z, t) + row as real * ROW_HEIGHT)
  }

  /** A label stands at its tick, 17 pixels a row below the ruler's baseline of 32, unless it would meet a readout:
      then it is moved down just so far that its box is clear of the bottom of every readout it meets, the
      server's at 86, the meter's at 105.44 and the program's own at 169.12 pixels. */
  lemma LabelKeepsClear(z: Zones, t: Tick, row: nat)
    requires row < 3
    ensures var l := LabelOf(z, t, row);
      var server := !z.radio && z.drawn && l.x0 <= z.x1 + 6.0 && l.x1 >= 38.0;
      var meter := l.x1 >= z.w as real - 475.04;
      var own := z.radio && z.drawn && z.x1 > z.x0 && l.x1 >= z.x0 - 6.0 && l.x0 <= z.x1 + 6.0;
      var bottom := if own then 169.12 else if meter then 105.44 else if server then 86.0 else 19.0;
      && l.row == row && l.x0 == t.px as real - 2.5 && l.x1 == t.px as real + 6.5 + t.width
      && l.ly - 13.0 == bottom + 17.0 * row as real
  {}

  predicate Fits(z: Zones, t: Tick, l: Label) { l.Placed? ==> l.row < ROWS && l == LabelOf(z, t, l.row) }

  predicate Within(l: Label, e: Ends) { l.Placed? ==> l.row < ROWS && l.x1 + 2.0 <= End(e, l.row) }

  /** Two labels of a row, the second placed later: it begins past the end of the first. */
  predicate Apart(a: Label, b: Label) {
    a.Placed? && b.Placed? && a.row == b.row ==> a.x1 < b.x0
  }

  /** A label of this row reaches up to `x`. */
  predicate Blocks(l: Label, row: nat, x: real) {
    l.Placed? && l.row == row && l.x1 + 4.0 >= x
  }

  ghost predicate Blocked(ls: seq<Label>, n: nat, row: nat, x: real)
    requires n <= |ls|
  {
    exists j :: 0 <= j < n && Blocks(ls[j], row, x)
  }

  /** A label is left out only where labels before it block every row. */
  ghost predicate Explained(ts: seq<Tick>, ls: seq<Label>, i: nat)
    requires i < |ls| <= |ts|
  {
    ls[i].Hidden? ==> Blocked(ls, i, 0, At(ts[i])) && Blocked(ls, i, 1, At(ts[i])) && Blocked(ls, i, 2, At(ts[i]))
  }

  ghost predicate Packed(z: Zones, ts: seq<Tick>, ls: seq<Label>) {
    && |ls| <= |ts|
    && (forall i :: 0 <= i < |ls| ==> Fits(z, ts[i], ls[i]))
    && (forall i, j :: 0 <= i < j < |ls| ==> Apart(ls[i], ls[j]))
    && (forall i :: 0 <= i < |ls| ==> Explained(ts, ls, i))
  }

  /** The row is empty, or taken up to two pixels past the end of one of its labels. */
  ghost predicate Reached(ls: seq<Label>, e: Ends, row: nat) {
    End(e, row) == EMPTY || exists j :: 0 <= j < |ls| && Reaches(ls[j], row, End(e, row))
  }

  predicate Reaches(l: Label, row: nat, end: real) { l.Placed? && l.row == row && l.x1 + 2.0 == end }

  ghost predicate Ready(ls: seq<Label>, e: Ends) {
    && (forall i :: 0 <= i < |ls| ==> Within(ls[i], e))
    && Reached(ls, e, 0) && Reached(ls, e, 1) && Reached(ls, e, 2)
  }

  lemma BlockedStays(ls: seq<Label>, l: Label, n: nat, row: nat, x: real)
    requires n <= |ls| && Blocked(ls, n, row, x)
    ensures Blocked(ls + [l], n, row, x)
  {
    var j :| 0 <= j < n && Blocks(ls[j], row, x);
    assert (ls + [l])[j] == ls[j];
  }

  lemma ReachedBlocks(ls: seq<Label>, l: Label, e: Ends, row: nat, x: real)
    requires Reached(ls, e, row) && EMPTY < x - 2.0 <= End(e, row)
    ensures Blocked(ls + [l], |ls|, row, x)
  {
    var j :| 0 <= j < |ls| && Reaches(ls[j], row, End(e, row));
    assert Blocks((ls + [l])[j], row, x);
  }

  lemma ReachedStays(ls: seq<Label>, l: Label, e: Ends, e': Ends, row: nat)
    requires Reached(ls, e, row)
    requires End(e', row) == End(e, row) || Reaches(l, row, End(e', row))
    ensures Reached(ls + [l], e', row)
  {
    if Reaches(l, row, End(e', row)) {
      assert Reaches((ls + [l])[|ls|], row, End(e', row));
    } else if End(e, row) != EMPTY {
      var j :| 0 <= j < |ls| && Reaches(ls[j], row, End(e, row));
      assert Reaches((ls + [l])[j], row, End(e', row));
    }
  }

  lemma NextIsReady(ls: seq<Label>, e: Ends, z: Zones, t: Tick, row: nat)
    requires Ready(ls, e) && t.width >= 0.0 && row == FreeRow(e, At(t))
    ensures Ready(ls + [LabelOf(z, t, row)], Taken(e, row, At(t) + t.width + 8.0))
  {
    var l, e' := LabelOf(z, t, row), Taken(e, row, At(t) + t.width + 8.0);
    forall i | 0 <= i < |ls| + 1 ensures Within((ls + [l])[i], e') {
      if i < |ls| {
        assert Within(ls[i], e);
      }
    }
    ReachedStays(ls, l, e, e', 0);
    ReachedStays(ls, l, e, e', 1);
    ReachedStays(ls, l, e, e', 2);
  }

  lemma NextIsPacked(z: Zones, ts: seq<Tick>, ls: seq<Label>, e: Ends, row: nat)
    requires |ls| < |ts| && Packed(z, ts, ls) && Ready(ls, e)
    requires row == FreeRow(e, At(ts[|ls|]))
    ensures Packed(z, ts, ls + [LabelOf(z, ts[|ls|], row)])
  {
    var n, t, l := |ls|, ts[|ls|], LabelOf(z, ts[|ls|], row);
    var ls' := ls + [l];
    forall i, j | 0 <= i < j < n + 1 ensures Apart(ls'[i], ls'[j]) {
      if j == n {
        assert Within(ls[i], e);
      } else {
        assert Apart(ls[i], ls[j]);
      }
    }
    forall i | 0 <= i < n + 1 ensures Explained(ts, ls', i) {
      if i < n {
        ExplainedStays(ts, ls, l, i);
      } else if row == ROWS {
        ReachedBlocks(ls, l, e, 0, At(t));
        ReachedBlocks(ls, l, e, 1, At(t));
        ReachedBlocks(ls, l, e, 2, At(t));
      }
    }
  }

  lemma ExplainedStays(ts: seq<Tick>, ls: seq<Label>, l: Label, i: nat)
    requires i < |ls| < |ts| && Explained(ts, ls, i)
    ensures Explained(ts, ls + [l], i)
  {
    if ls[i].Hidden? {
      BlockedStays(ls, l, i, 0, At(ts[i]));
      BlockedStays(ls, l, i, 1, At(ts[i]));
      BlockedStays(ls, l, i, 2, At(ts[i]));
    }
  }

  const FREE := Packing([], Ends(EMPTY, EMPTY, EMPTY))

  /** The labels so far and how far they take the rows. */
  datatype Packing = Packing(ls: seq<Label>, e: Ends)

  function Next(z: Zones, t: Tick, p: Packing): Packing {
    var row := FreeRow(p.e, At(t));
    Packing(p.ls + [LabelOf(z, t, row)], Taken(p.e, row, At(t) + t.width + 8.0))
  }

  /** The first `n` spots packed. */
  function Labels(z: Zones, ts: seq<Tick>, n: nat): (p: Packing)
    requires n <= |ts|
    ensures |p.ls| == n
  {
    if n == 0 then FREE else Next(z, ts[n - 1], Labels(z, ts, n - 1))
  }

  ghost predicate Sound(z: Zones, ts: seq<Tick>, p: Packing) { Packed(z, ts, p.ls) && Ready(p.ls, p.e) }

  lemma NextIsSound(z: Zones, ts: seq<Tick>, p: Packing)
    requires Sound(z, ts, p) && |p.ls| < |ts| && ts[|p.ls|].width >= 0.0
    ensures Sound(z, ts, Next(z, ts[|p.ls|], p))
  {
    var t := ts[|p.ls|];
    NextIsReady(p.ls, p.e, z, t, FreeRow(p.e, At(t)));
    NextIsPacked(z, ts, p.ls, p.e, FreeRow(p.e, At(t)));
  }

  lemma {:induction false} LabelsAreSound(z: Zones, ts: seq<Tick>, n: nat)
    requires n <= |ts| && forall i :: 0 <= i < |ts| ==> ts[i].width >= 0.0
    ensures Sound(z, ts, Labels(z, ts, n))
  {
    if n > 0 {
      LabelsAreSound(z, ts, n - 1);
      NextIsSound(z, ts, Labels(z, ts, n - 1));
    }
  }

  /** Greedy packing: labels of a row never overlap, and a label is left out only where all three rows
      are taken. */
  method Layout(z: Zones, ts: seq<Tick>) returns (ls: seq<Label>)
    requires forall i :: 0 <= i < |ts| ==> ts[i].width >= 0.0
    ensures |ls| == |ts| && Packed(z, ts, ls) && ls == Labels(z, ts, |ts|).ls
  {
    var e := FREE.e;
    ls := [];
    for n := 0 to |ts|
      invariant Labels(z, ts, n) == Packing(ls, e)
    {
      var t := ts[n];
      var row := FreeRow(e, At(t));
      e := Taken(e, row, At(t) + t.width + 8.0);
      ls := ls + [LabelOf(z, t, row)];
    }
    LabelsAreSound(z, ts, |ts|);
  }

  // ---- overlaps -------------------------------------------------------------------------

  predicate Beside(a: Label, b: Label)
    requires a.Placed? && b.Placed?
  {
    a.x0 < b.x1 && b.x0 < a.x1
  }

  /** The box of a label: from 13 pixels above its baseline to 4 below. */
  predicate Overlap(a: Label, b: Label)
    requires a.Placed? && b.Placed?
  {
    Beside(a, b) && a.ly - 13.0 < b.ly + 4.0 && b.ly - 13.0 < a.ly + 4.0
  }

  /** One label is pushed under the server's readout, the other under the meter, and the first is one or
      two rows further down. */
  predicate Crossed(z: Zones, s: Tick, a: Label, t: Tick, b: Label)
    requires a.Placed? && b.Placed?
  {
    Base(z, s) == UNDER_SERVER_READOUT && Base(z, t) == UNDER_METER && (a.row == b.row + 1 || a.row == b.row + 2)
  }

  /** Two labels overlap if and only if they are beside each other in x and crossed between the server's
      readout and the meter. */
  lemma OverlapExactly(z: Zones, ts: seq<Tick>, ls: seq<Label>, i: nat, j: nat)
    requires |ls| == |ts| && Packed(z, ts, ls) && i < j < |ls| && ls[i].Placed? && ls[j].Placed?
    ensures Overlap(ls[i], ls[j]) <==>
      Beside(ls[i], ls[j]) && (Crossed(z, ts[i], ls[i], ts[j], ls[j]) || Crossed(z, ts[j], ls[j], ts[i], ls[i]))
  {
    assert Fits(z, ts[i], ls[i]) && Fits(z, ts[j], ls[j]) && Apart(ls[i], ls[j]);
    Bases(z, ts[i]);
    Bases(z, ts[j]);
  }

  /** With a radio of its own the program never lets two labels overlap, however they are pushed. */
  lemma RadioLabelsNeverOverlap(z: Zones, ts: seq<Tick>, ls: seq<Label>, i: nat, j: nat)
    requires |ls| == |ts| && Packed(z, ts, ls) && i < j < |ls| && ls[i].Placed? && ls[j].Placed?
    requires z.radio
    ensures !Overlap(ls[i], ls[j])
  {
    OverlapExactly(z, ts, ls, i, j);
    Bases(z, ts[i]);
    Bases(z, ts[j]);
  }

  /** In front of a server they may: three spots on a strip 620 pixels wide, the second in the second row
      under the readout, the third in the first row under the meter. The program lays out labels in front
      of a radio only, so this is about a branch of the layout it does not take. */
  lemma ServerLabelsMayOverlap()
    ensures var z, ts := Zones(620, false, true, 44.0, 300.0), [Tick(50, 40.0), Tick(95, 40.0), Tick(101, 40.0)];
      var ls := Labels(z, ts, 3).ls;
      ls[1].Placed? && ls[2].Placed? && Overlap(ls[1], ls[2])
  {
    var z, ts := Zones(620, false, true, 44.0, 300.0), [Tick(50, 40.0), Tick(95, 40.0), Tick(101, 40.0)];
    var p1, p2, p3 := Labels(z, ts, 1), Labels(z, ts, 2), Labels(z, ts, 3);
    assert Labels(z, ts, 0) == FREE;
    assert p1.e == FREE.e.(r0 := 98.5);
    assert p2.ls[1] == LabelOf(z, ts[1], 1) && p2.e == Ends(98.5, 143.5, EMPTY);
    assert p3.ls[1] == p2.ls[1] && p3.ls[2] == LabelOf(z, ts[2], 0);
  }
}
