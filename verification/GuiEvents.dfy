/** What each event does to the operating state, with nothing taken from the functions the handlers are made
    of: the modes by their numbers, the groups and defaults by what they are for. */
module GuiEvents {
  import Ctun
  import opened GuiState

  /** DIGU, DIGL and RTTY. */
  predicate Digital(mode: int) { mode in {7, 9, 12} }

  /** A power request as the rating allows it. */
  function Allowed(a: App, w: real): real { if w < 0.0 then 0.0 else if w > a.k.watts then a.k.watts else w }

  /** What the cap leaves of a drive. */
  function UnderCap(a: App, drive: real): real {
    if Digital(a.mode) && drive > a.power.cap then a.power.cap else drive
  }

  /** A value noted for the band in force. */
  function Noted(s: seq<real>, band: int, v: real): seq<real>
    requires band < |s|
  {
    if band < 0 then s else s[band := v]
  }

  /** What the transmitter knows after it was told of a drive and a tune power. */
  function Heard(a: App, drive: real, tune: real): Pushed {
    if a.k.txReady then Pushed(UnderCap(a, drive), tune, a.mode) else a.power.pushed
  }

  /** The drive slider moved to a new place: drive and slider are what rating and cap leave of it, the band
      notes both requests, the transmitter is told. Moved to where it stands, it does nothing. */
  lemma DriveSliderMoves(a: App, w: real)
    requires Ok(a)
    ensures Allowed(a, w) == a.power.driveSlider ==> Step(a, DriveSlider(w)) == a
    ensures Allowed(a, w) != a.power.driveSlider ==>
      var d, p := UnderCap(a, Allowed(a, w)), a.power;
      Step(a, DriveSlider(w)) == a.(power := p.(drive := d, driveSlider := d, bandDrive := Noted(p.bandDrive, a.band, d),
                                               bandTune := Noted(p.bandTune, a.band, p.tune), pushed := Heard(a, d, p.tune)))
  {}

  /** The tune slider likewise; no cap applies to tuning. */
  lemma TuneSliderMoves(a: App, w: real)
    requires Ok(a)
    ensures Allowed(a, w) == a.power.tuneSlider ==> Step(a, TuneSlider(w)) == a
    ensures Allowed(a, w) != a.power.tuneSlider ==>
      var t, p := Allowed(a, w), a.power;
      Step(a, TuneSlider(w)) == a.(power := p.(tune := t, tuneSlider := t, bandDrive := Noted(p.bandDrive, a.band, p.drive),
                                              bandTune := Noted(p.bandTune, a.band, t), pushed := Heard(a, p.drive, t)))
  {}

  /** A client's drive: the same, but the slider moves only where the cap bites. */
  lemma ClientsDriveIs(a: App, w: real)
    requires Ok(a)
    ensures var v, p := Allowed(a, w), a.power;
      var d := UnderCap(a, v);
      Step(a, TciDrive(w)) == a.(power := p.(drive := d, driveSlider := if d == v then p.driveSlider else d,
                                            bandDrive := Noted(p.bandDrive, a.band, d),
                                            bandTune := Noted(p.bandTune, a.band, p.tune), pushed := Heard(a, d, p.tune)))
  {}

  lemma ClientsTuneIs(a: App, w: real)
    requires Ok(a)
    ensures var t, p := Allowed(a, w), a.power;
      Step(a, TciTune(w)) == a.(power := p.(tune := t, bandDrive := Noted(p.bandDrive, a.band, p.drive),
                                           bandTune := Noted(p.bandTune, a.band, t), pushed := Heard(a, p.drive, t)))
  {}

  /** A new cap between 1 W and the rating: in a digital mode a drive above it comes down to it, slider and band
      memory with it, and either way the transmitter is told. */
  lemma NewCapIs(a: App, w: real)
    requires Ok(a) && 1.0 <= w <= a.k.watts
    ensures var r, p := Step(a, DigiMax(w)), a.power;
      var low := Digital(a.mode) && p.drive > w;
      var d := if low then w else p.drive;
      r == a.(power := p.(cap := w, drive := d, driveSlider := if low then w else p.driveSlider,
                          bandDrive := if low then Noted(p.bandDrive, a.band, w) else p.bandDrive,
                          bandTune := if low then Noted(p.bandTune, a.band, p.tune) else p.bandTune,
                          pushed := if a.k.txReady then Pushed(d, p.tune, a.mode) else p.pushed))
  {}

  // ---- filters ------------------------------------------------------------------------------

  /** A filter chosen from the ten presets of the mode brings that preset's edges, Var1 and Var2 the edges last
      dragged in that mode; the mode remembers the choice, and nothing else changes. */
  lemma ChosenFilterIs(a: App, i: int)
    requires Ok(a) && 0 <= i < 12
    ensures var e := if i < 10 then a.k.presets[a.mode][i] else a.filter.vars[a.mode][i - 10];
      Step(a, FilterPick(i)) == a.(filter := Filter(i, a.filter.byMode[a.mode := i], a.filter.vars, e.lo, e.hi))
  {}

  lemma NoSuchFilter(a: App, i: int)
    requires Ok(a) && !(0 <= i < 12)
    ensures Step(a, FilterPick(i)) == a
  {}

  /** Edges dragged: no further out than 20 kHz, no closer than 50 Hz, the lower one having its way; they become
      those of Var1 when a preset was selected, and otherwise of the variable filter that is. */
  lemma DraggedFilterIs(a: App, lo: int, hi: int)
    requires Inv(a)
    ensures var r, f := Step(a, FilterDrag(lo, hi)), a.filter;
      var i := if f.idx < 10 then 10 else f.idx;
      var l := if lo < -20000 then -20000 else lo;
      var h := if hi > 20000 then 20000 else hi;
      var e := Edges(l, if h - l < 50 then l + 50 else h);
      r == a.(filter := Filter(i, f.byMode[a.mode := i], f.vars[a.mode := f.vars[a.mode][i - 10 := e]], e.lo, e.hi))
  {
    assert a.filter.byMode[a.mode := a.filter.idx] == a.filter.byMode;
  }

  /** A client's edges, when they are in order, replace those in force and nothing else. */
  lemma ClientsEdgesAre(a: App, lo: int, hi: int)
    requires Ok(a)
    ensures Step(a, TciFilter(lo, hi)) == if lo < hi then a.(filter := a.filter.(flo := lo, fhi := hi)) else a
  {}

  // ---- modes and AGC --------------------------------------------------------------------------

  /** CW, AM, the digital modes and all others have an AGC setting each. */
  function AgcGroup(mode: int): nat {
    if mode in {3, 4} then 1 else if mode in {6, 10} then 2 else if mode in {7, 9, 12} then 3 else 0
  }

  /** A mode that has never been used starts with its own default preset. */
  function FirstFilter(mode: int): nat {
    if mode in {3, 4, 6, 10} then 4 else if mode in {7, 9} then 2 else 5
  }

  lemma PickedAgcIs(a: App, m: int)
    requires Ok(a)
    ensures Step(a, AgcPick(m)) ==
      if 0 <= m <= 4 then a.(agc := Agc(m, a.agc.byGroup[AgcGroup(a.mode) := m])) else a
  {}

  /** A mode button brings the filter the mode was left with, or its default, with its edges, and the AGC of its
      group, filing the old group's; the band notes the mode; in a digital mode the cap is enforced. */
  lemma NewModeIs(a: App, m: int)
    requires Ok(a) && m in {0, 1, 3, 4, 6, 7, 9, 10, 12} && m != a.mode
    ensures var r, f, g := Step(a, ModeButton(m)), a.filter, a.agc;
      var i := if 0 <= f.byMode[m] < 12 then f.byMode[m] else FirstFilter(m);
      var e := if i < 10 then a.k.presets[m][i] else f.vars[m][i - 10];
      var kept := g.byGroup[AgcGroup(a.mode) := g.agc];
      && r.mode == r.toggle == m && r.vfo == a.vfo && r.band == a.band
      && r.bandMode == (if a.band < 0 then a.bandMode else a.bandMode[a.band := m])
      && r.filter == Filter(i, f.byMode[m := i], f.vars, e.lo, e.hi)
      && r.agc == (if AgcGroup(m) == AgcGroup(a.mode) then g else Agc(kept[AgcGroup(m)], kept))
  {
    NewModesFilterIs(a.k, a.filter, m);
    NewModesAgcIs(a.agc, a.mode, m);
  }

  lemma NewModesFilterIs(k: Setup, f: Filter, m: int)
    requires FilterOk(k, f) && m in {0, 1, 3, 4, 6, 7, 9, 10, 12}
    ensures var i := if 0 <= f.byMode[m] < 12 then f.byMode[m] else FirstFilter(m);
      var e := if i < 10 then k.presets[m][i] else f.vars[m][i - 10];
      Restored(f, m) == i && Selected(k, f, m, i) == Filter(i, f.byMode[m := i], f.vars, e.lo, e.hi)
  {}

  lemma NewModesAgcIs(g: Agc, from: int, to: int)
    requires AgcOk(g)
    ensures var kept := g.byGroup[AgcGroup(from) := g.agc];
      AgcEntered(g, from, to) == if AgcGroup(to) == AgcGroup(from) then g else Agc(kept[AgcGroup(to)], kept)
  {}

  lemma NewModesPowerIs(a: App, m: int)
    requires Ok(a) && m in {0, 1, 3, 4, 6, 7, 9, 10, 12} && m != a.mode
    ensures var q, p := Step(a, ModeButton(m)).power, a.power;
      var low := Digital(m) && p.drive > p.cap;
      && q.tune == p.tune && q.tuneSlider == p.tuneSlider && q.cap == p.cap
      && q.drive == (if low then p.cap else p.drive)
      && q.driveSlider == (if low then p.cap else p.driveSlider)
      && q.bandDrive == (if low then Noted(p.bandDrive, a.band, p.cap) else p.bandDrive)
      && (a.k.txReady ==> q.pushed == Pushed(q.drive, p.tune, m))
  {}

  /** A button that is down already, or a mode without one, does nothing. */
  lemma NoNewMode(a: App, m: int)
    requires Ok(a) && (m == a.mode || m !in {0, 1, 3, 4, 6, 7, 9, 10, 12})
    ensures Step(a, ModeButton(m)) == a
  {}

  // ---- bands and VFOs -------------------------------------------------------------------------

  /** The dial lies in band `b`, and in no earlier one of the table. */
  predicate DialIn(a: App, b: nat) {
    && b < |a.k.bands| && a.k.bands[b].lo <= a.vfo.freq <= a.k.bands[b].hi
    && forall j :: 0 <= j < b ==> !(a.k.bands[j].lo <= a.vfo.freq <= a.k.bands[j].hi)
  }

  predicate DialOut(a: App) {
    forall j :: 0 <= j < |a.k.bands| ==> !(a.k.bands[j].lo <= a.vfo.freq <= a.k.bands[j].hi)
  }

  lemma TickFindsBand(a: App, b: nat)
    requires Ok(a) && DialIn(a, b)
    ensures BandFor(a.k.bands, a.vfo.freq, 0) == b && Step(a, Tick).band == b
  {
    BandIsTheFirst(a.k.bands, a.vfo.freq, 0);
    assert Holds(a.k.bands[b], a.vfo.freq);
    var c := BandFor(a.k.bands, a.vfo.freq, 0);
    assert c >= 0 && Holds(a.k.bands[c], a.vfo.freq);
  }

  /** Out of every band a tick takes the band off and tells the transmitter; requests and mode stay. */
  lemma TickFindsNone(a: App)
    requires Ok(a) && DialOut(a)
    ensures Step(a, Tick) ==
      if a.band == -1 then a else a.(band := -1, power := a.power.(pushed := Heard(a, a.power.drive, a.power.tune)))
  {
    BandIsTheFirst(a.k.bands, a.vfo.freq, 0);
    forall j | 0 <= j < |a.k.bands| ensures !Holds(a.k.bands[j], a.vfo.freq) {}
  }

  lemma CopyIs(a: App)
    requires Ok(a)
    ensures Step(a, Copy) == a.(vfo := Vfo(a.vfo.freq, a.vfo.centre, a.vfo.freq, a.mode, a.vfo.onB))
  {}

  /** The receiver's passband, seen from the centre, lies within the span by a fiftieth of it on either side. */
  predicate PassbandIn(a: App, freq: int, centre: int) {
    && centre - a.rate / 2 + a.rate / 50 <= freq + a.filter.flo
    && freq + a.filter.fhi <= centre + a.rate / 2 - a.rate / 50
  }

  /** A dial move: without CTUN the centre is the dial; with it the centre stays where it is if the passband then
      fits, and if the passband fits at all it does so in the end. */
  lemma DialMoves(a: App, f: int)
    requires Ok(a) && f >= 1
    ensures var r := Step(a, Dialled(f));
      && r == a.(vfo := a.vfo.(freq := f, centre := r.vfo.centre))
      && (!a.ctun ==> r.vfo.centre == f)
      && (a.ctun && PassbandIn(a, f, a.vfo.centre) && a.filter.flo <= 0 <= a.filter.fhi ==> r.vfo.centre == a.vfo.centre)
      && (a.filter.flo <= a.filter.fhi && PassbandIn(a, f, f) ==> PassbandIn(a, f, r.vfo.centre))
  {
    if a.filter.flo <= a.filter.fhi && PassbandIn(a, f, f) {
      Ctun.DialEndsInRoom(TuningOf(a).(freq := f));
    }
  }

  /** A client's centre: without CTUN it is a dial move; with it, from a dial in its room, the dial keeps its
      distance from the centre as long as it stays positive. */
  lemma ClientsCentreIs(a: App, c: int)
    requires Ok(a) && c >= 1
    ensures !a.ctun ==> Step(a, CentreAsked(c)) == Step(a, Dialled(c))
    ensures var r, d := Step(a, CentreAsked(c)), a.vfo.freq - a.vfo.centre;
      (a.ctun && c + d >= 1 && PassbandIn(a, a.vfo.freq, a.vfo.centre) && PassbandIn(a, c, c)
       && a.filter.flo <= a.filter.fhi) ==> r == a.(vfo := a.vfo.(freq := c + d, centre := c))
  {
    if a.ctun && PassbandIn(a, a.vfo.freq, a.vfo.centre) && PassbandIn(a, c, c) && a.filter.flo <= a.filter.fhi {
      Ctun.OffsetIsKept(TuningOf(a), c);
    }
  }

  /** A frequency or a centre below 1 Hz is ignored. */
  lemma NoSuchFrequency(a: App, f: int)
    requires Ok(a) && f < 1
    ensures Step(a, Dialled(f)) == Step(a, CentreAsked(f)) == a
  {}

  /** The VFOs change places; one never set counts as a copy of the other. While keyed nothing happens. */
  lemma SwapIs(a: App)
    requires Ok(a)
    ensures Step(a, Swap(true)) == a
    ensures var v, r := a.vfo, Step(a, Swap(false)).vfo;
      && r.freq == (if v.ofreq < 1 then v.freq else v.ofreq)
      && r.ofreq == v.freq && r.omode == a.mode && r.onB != v.onB
  {}
}
