/** What the operator can rely on across handlers: leaving a mode or a band and coming back,
    swapping the VFOs twice, the edges of the chosen filter; and where the digital power cap
    is kept and where it is not.

    The laws are about the events of GuiState, one at a time or over whole runs; GuiHandlers
    shows that the handlers amount to those events. */
module GuiLaws {
  import opened GuiState

  // ---- there and back ------------------------------------------------------------------

  predicate EdgesMatch(a: App)
    requires Ok(a)
  {
    EdgesOf(a.k, a.filter, a.mode, a.filter.idx) == Edges(a.filter.flo, a.filter.fhi)
  }

  lemma AgcComesBack(g: Agc, m: int, other: int)
    requires AgcOk(g) && g.byGroup[GroupOf(m)] == g.agc
    ensures AgcEntered(AgcEntered(g, m, other), other, m).agc == g.agc
  {}

  lemma FilterComesBack(k: Setup, f: Filter, m: int, other: int)
    requires FilterOk(k, f) && 0 <= m < NMODES && 0 <= other < NMODES && m != other && f.byMode[m] == f.idx
    ensures var f1 := Selected(k, f, other, Restored(f, other));
      var f2 := Selected(k, f1, m, Restored(f1, m));
      && f2.idx == f.idx && f2.vars == f.vars
      && EdgesOf(k, f2, m, f2.idx) == Edges(f2.flo, f2.fhi) == EdgesOf(k, f, m, f.idx)
  {}

  /** A mode left and re-entered comes back with its filter, the filter's edges and its AGC. */
  lemma ModeComesBack(a: App, other: int)
    requires Inv(a) && HasButton(other) && other != a.mode
    ensures var r := ModeEntered(ModeEntered(a, other), a.mode);
      && r.mode == a.mode && r.filter.idx == a.filter.idx && r.agc.agc == a.agc.agc
      && EdgesMatch(r) && (EdgesMatch(a) ==> r.filter.flo == a.filter.flo && r.filter.fhi == a.filter.fhi)
  {
    AgcComesBack(a.agc, a.mode, other);
    FilterComesBack(a.k, a.filter, a.mode, other);
    var a1 := ModeEntered(a, other);
    assert a1.filter == Selected(a.k, a.filter, other, Restored(a.filter, other));
    assert a1.agc == AgcEntered(a.agc, a.mode, other);
  }

  /** The edges are those of the selected filter after every event but a client's own edges. */
  lemma EdgesFollowTheFilter(a: App, e: Event)
    requires Inv(a) && EdgesMatch(a) && !e.TciFilter?
    ensures EdgesMatch(Step(a, e))
  {
    match e
    case Tick => BandKeepsEdges(a);
    case ModeButton(m) => if HasButton(m) { ModeKeepsEdges(a, m); }
    case Swap(keyed) =>
      if !keyed {
        BandKeepsEdges(Exchanged(a));
        if HasButton(OwnMode(a)) {
          ModeKeepsEdges(BandApplied(Exchanged(a)), OwnMode(a));
        }
      }
    case FilterDrag(lo, hi) => DraggedEdges(a.k, a.filter, a.mode, lo, hi);
    case _ =>
  }

  lemma DraggedEdges(k: Setup, f: Filter, m: int, lo: int, hi: int)
    requires FilterOk(k, f) && 0 <= m < NMODES
    ensures var r := Dragged(k, f, m, lo, hi);
      && EdgesOf(k, r, m, r.idx) == Edges(r.flo, r.fhi) && NPRESET <= r.idx
      && -20000 <= r.flo && r.flo + 50 <= r.fhi
  {}

  lemma ModeKeepsEdges(a: App, m: int)
    requires Ok(a) && EdgesMatch(a) && HasButton(m)
    ensures EdgesMatch(ModeEntered(a, m))
  {
    if m != a.mode {
      assert ModeEntered(a, m).filter == Selected(a.k, a.filter, m, Restored(a.filter, m));
    }
  }

  lemma BandKeepsEdges(a: App)
    requires Ok(a) && EdgesMatch(a)
    ensures EdgesMatch(BandApplied(a))
  {
    var b := BandFor(a.k.bands, a.vfo.freq, 0);
    if b != a.band && b >= 0 {
      var a1 := a.(band := b, power := a.power.(drive := a.power.bandDrive[b], tune := a.power.bandTune[b]));
      if a.bandMode[b] != a.mode && HasButton(a.bandMode[b]) {
        ModeKeepsEdges(a1, a.bandMode[b]);
      }
      var l := BandLoaded(a, b);
      assert BandApplied(a).filter == l.filter && BandApplied(a).mode == l.mode;
    }
  }

  // ---- bands -------------------------------------------------------------------------------

  /** The dial moved by any tuning path. */
  function TunedTo(a: App, f: int): (r: App)
    requires Inv(a) && f >= 1
    ensures Inv(r) && r == a.(vfo := r.vfo) && r.vfo.freq == f
  {
    StepKeepsInv(a, Dialled(f));
    Step(a, Dialled(f))
  }

  /** Two power states differ in no band but `band`, nor in the cap. */
  predicate SameElsewhere(p: Power, q: Power, band: int)
    requires |p.bandDrive| == |q.bandDrive| && |p.bandTune| == |q.bandTune|
  {
    && p.cap == q.cap
    && (forall c :: 0 <= c < |p.bandDrive| && c != band ==> p.bandDrive[c] == q.bandDrive[c])
    && (forall c :: 0 <= c < |p.bandTune| && c != band ==> p.bandTune[c] == q.bandTune[c])
  }

  /** The sliders' part of a band change: at most the cap is enforced, and that exactly when the
      drive slider moves. */
  lemma SlidersBring(k: Setup, p: Power, mode: int, band: int)
    requires PowerOk(k, p, band)
    ensures var q := Told(k, SlidersFollow(k, p, mode, band), mode);
      && SameElsewhere(p, q, band) && q.tune == p.tune
      && q.drive == if p.driveSlider == p.drive then p.drive else Capped(p, mode, p.drive)
  {}

  /** The power of a band just loaded, before the sliders follow. */
  function LoadedPower(a: App, b: nat): Power
    requires Ok(a) && b < |a.k.bands|
  {
    var p := a.power.(drive := a.power.bandDrive[b], tune := a.power.bandTune[b]);
    if a.bandMode[b] == a.mode || !HasButton(a.bandMode[b]) then p
    else DigiClamped(a.k, Told(a.k, p, a.bandMode[b]), a.bandMode[b], b)
  }

  lemma LoadedPowerIs(a: App, b: nat)
    requires Ok(a) && b < |a.k.bands|
    ensures BandLoaded(a, b).power == LoadedPower(a, b)
    ensures BandLoaded(a, b).mode == if HasButton(a.bandMode[b]) then a.bandMode[b] else a.mode
    ensures forall c :: 0 <= c < |a.bandMode| && c != b ==> BandLoaded(a, b).bandMode[c] == a.bandMode[c]
  {}

  lemma LoadedPowerBrings(a: App, b: nat)
    requires Ok(a) && b < |a.k.bands|
    ensures var p, q := a.power, LoadedPower(a, b);
      && |q.bandDrive| == |p.bandDrive| && |q.bandTune| == |p.bandTune|
      && SameElsewhere(p, q, b) && q.tune == p.bandTune[b]
      && (q.drive == p.bandDrive[b] || q.drive == Capped(p, a.bandMode[b], p.bandDrive[b]))
      && (a.bandMode[b] != a.mode && HasButton(a.bandMode[b]) ==> q.drive == Capped(p, a.bandMode[b], p.bandDrive[b]))
      && (a.bandMode[b] == a.mode ==> q.drive == p.bandDrive[b] && q.driveSlider == p.driveSlider)
  {}

  /** After a tick the band is the first of the table the dial lies in, or none. */
  lemma BandIsTheDials(a: App)
    requires Ok(a)
    ensures var b, bands, f := BandApplied(a).band, a.k.bands, a.vfo.freq;
      && -1 <= b < |bands|
      && (b >= 0 ==> bands[b].lo <= f <= bands[b].hi)
      && (forall k :: 0 <= k < (if b >= 0 then b else |bands|) ==> f < bands[k].lo || bands[k].hi < f)
  {
    BandIsTheFirst(a.k.bands, a.vfo.freq, 0);
    var b := BandFor(a.k.bands, a.vfo.freq, 0);
    assert BandApplied(a).band == b;
    forall k | 0 <= k < (if b >= 0 then b else |a.k.bands|)
      ensures a.vfo.freq < a.k.bands[k].lo || a.k.bands[k].hi < a.vfo.freq
    {
      assert !Holds(a.k.bands[k], a.vfo.freq);
    }
  }

  /** A change of band brings the new band's mode, tune power and drive, the drive capped unless
      neither the mode nor the slider moves; it touches no other band's memories. */
  lemma BandBrings(a: App, b: nat)
    requires Inv(a) && b == BandFor(a.k.bands, a.vfo.freq, 0) && b != a.band
    ensures a.k.bands[b].lo <= a.vfo.freq <= a.k.bands[b].hi
    ensures var r, want := BandApplied(a), a.power.bandDrive[b];
      && r.band == b && r.mode == a.bandMode[b] && r.power.tune == a.power.bandTune[b]
      && SameElsewhere(a.power, r.power, b)
      && (forall c :: 0 <= c < |a.bandMode| && c != b ==> r.bandMode[c] == a.bandMode[c])
      && r.power.drive == if a.bandMode[b] == a.mode && a.power.driveSlider == want then want
                          else Capped(a.power, a.bandMode[b], want)
  {
    BandIsTheDials(a);
    LoadedPowerIs(a, b);
    LoadedPowerBrings(a, b);
    assert HasButton(a.bandMode[b]);
    var l := BandLoaded(a, b);
    SlidersBring(l.k, l.power, l.mode, b);
  }

  /** A band left for another (or for none) and re-entered comes back with its mode, its tune power
      and its drive, as long as that drive respects the cap of a digital mode. */
  lemma BandComesBack(a: App, there: int, back: int)
    requires Inv(a) && a.band >= 0 && there >= 1 && back >= 1 && BandFor(a.k.bands, back, 0) == a.band
    requires BandFor(a.k.bands, there, 0) != a.band
    requires Digi(a.mode) ==> a.power.drive <= a.power.cap
    ensures var r := Step(Step(Step(Step(a, Dialled(there)), Tick), Dialled(back)), Tick);
      r.band == a.band && r.mode == a.mode && r.power.tune == a.power.tune && r.power.drive == a.power.drive
  {
    var a0 := TunedTo(a, there);
    var b := BandFor(a.k.bands, there, 0);
    if b >= 0 {
      BandBrings(a0, b);
    }
    BandKeepsInv(a0);
    BandBrings(TunedTo(BandApplied(a0), back), a.band);
  }

  // ---- the digital power cap -------------------------------------------------------------------

  predicate CapKept(a: App) { Digi(a.mode) ==> a.power.drive <= a.power.cap }

  /** A change to band `b` would stay in the same digital mode, that band remembers more than the cap, and
      the drive slider happens to stand at that value already, so that its handler does not run. */
  predicate Stale(a: App, b: int)
    requires Ok(a) && b < |a.k.bands|
  {
    && b >= 0 && b != a.band && Digi(a.mode) && a.bandMode[b] == a.mode
    && a.power.bandDrive[b] > a.power.cap && a.power.driveSlider == a.power.bandDrive[b]
  }

  /** The band coming up leaves the stored drive above the cap exactly then. */
  lemma CapKeptUnlessSliderIsStale(a: App)
    requires Inv(a)
    ensures var b := BandFor(a.k.bands, a.vfo.freq, 0);
      CapKept(a) || (b >= 0 && b != a.band) ==> (CapKept(BandApplied(a)) <==> !Stale(a, b))
    ensures Stale(a, BandFor(a.k.bands, a.vfo.freq, 0)) ==> BandApplied(a).mode == a.mode
  {
    var b := BandFor(a.k.bands, a.vfo.freq, 0);
    if b >= 0 && b != a.band {
      BandBrings(a, b);
    }
  }

  predicate Below(p: Power, mode: int) { Digi(mode) ==> p.drive <= p.cap }

  lemma RequestsKeepTheCap(k: Setup, p: Power, mode: int, band: int, v: real)
    requires PowerOk(k, p, band)
    ensures Below(DigiClamped(k, p, mode, band), mode)
    ensures Below(DriveAsked(k, p, mode, band, v), mode)
    ensures Below(p, mode) ==>
      && Below(DriveSlid(k, p, mode, band, v), mode) && Below(TuneSlid(k, p, mode, band, v), mode)
      && Below(TuneAsked(k, p, mode, band, v), mode) && Below(CapChosen(k, p, mode, band, v), mode)
  {}

  lemma ModeKeepsTheCap(a: App, m: int)
    requires Ok(a) && HasButton(m) && (m == a.mode ==> CapKept(a))
    ensures CapKept(ModeEntered(a, m))
  {
    if m != a.mode {
      RequestsKeepTheCap(a.k, Told(a.k, a.power, m), m, a.band, 0.0);
      assert ModeEntered(a, m).power == DigiClamped(a.k, Told(a.k, a.power, m), m, a.band);
    }
  }

  /** The events that leave the stored drive above the cap: a band coming up by the dial, or by a VFO
      whose own mode does not take over, with the slider stale. */
  predicate Breaks(a: App, e: Event)
    requires Ok(a)
  {
    match e
    case Tick => Stale(a, BandFor(a.k.bands, a.vfo.freq, 0))
    case Swap(keyed) =>
      && !keyed && Stale(a, BandFor(a.k.bands, Parked(a).0, 0))
      && (OwnMode(a) == a.mode || !HasButton(OwnMode(a)))
    case _ => false
  }

  /** The first half of a swap: the band of the frequency that was parked. */
  lemma SwapBringsBand(a: App)
    requires Inv(a) && CapKept(a)
    ensures var b, r := BandFor(a.k.bands, Parked(a).0, 0), BandApplied(Exchanged(a));
      (CapKept(r) <==> !Stale(a, b)) && (Stale(a, b) ==> r.mode == a.mode)
  {
    CapKeptUnlessSliderIsStale(Exchanged(a));
  }

  lemma SwapBreaksExactly(a: App)
    requires Inv(a) && CapKept(a)
    ensures CapKept(Swapped(a, false)) <==> !Breaks(a, Swap(false))
  {
    SwapBringsBand(a);
    var m, r := OwnMode(a), BandApplied(Exchanged(a));
    if HasButton(m) && m != r.mode {
      ModeKeepsTheCap(r, m);
    }
  }

  lemma PowerEventsKeepTheCap(a: App, e: Event)
    requires Inv(a) && CapKept(a) && (e.DriveSlider? || e.TuneSlider? || e.TciDrive? || e.TciTune? || e.DigiMax?)
    ensures CapKept(Step(a, e))
  {
    RequestsKeepTheCap(a.k, a.power, a.mode, a.band, e.w);
  }

  /** After any event the stored drive respects the cap if and only if the event is none of those. */
  lemma CapBreaksExactly(a: App, e: Event)
    requires Inv(a) && CapKept(a)
    ensures CapKept(Step(a, e)) <==> !Breaks(a, e)
  {
    match e
    case Tick => CapKeptUnlessSliderIsStale(a);
    case Swap(keyed) => if !keyed { SwapBreaksExactly(a); }
    case ModeButton(m) => if HasButton(m) { ModeKeepsTheCap(a, m); }
    case DriveSlider(_) => PowerEventsKeepTheCap(a, e);
    case TuneSlider(_) => PowerEventsKeepTheCap(a, e);
    case TciDrive(_) => PowerEventsKeepTheCap(a, e);
    case TciTune(_) => PowerEventsKeepTheCap(a, e);
    case DigiMax(_) => PowerEventsKeepTheCap(a, e);
    case _ => PlainEventsKeepTheCap(a, e);
  }

  lemma PlainEventsKeepTheCap(a: App, e: Event)
    requires Inv(a) && CapKept(a)
    requires e.FilterPick? || e.FilterDrag? || e.TciFilter? || e.AgcPick? || e.Dialled? || e.CentreAsked? || e.Copy?
    ensures CapKept(Step(a, e))
  {}

  lemma SliderGoesStale(k: Setup, p: Power, mode: int, band: int, b: nat, w: real, low: real, cap: real)
    requires PowerOk(k, p, band) && Digi(mode) && b < |k.bands| && b != band
    requires 0.0 <= low <= cap && 1.0 <= cap < w <= p.cap && p.driveSlider != w
    ensures var q := CapChosen(k, DriveAsked(k, DriveSlid(k, p, mode, band, w), mode, band, low), mode, band, cap);
      q.driveSlider == w && q.cap == cap && q.bandDrive[b] == p.bandDrive[b]
  {
    var q1 := DriveSlid(k, p, mode, band, w);
    assert q1.driveSlider == w && q1.cap == p.cap;
    var q2 := DriveAsked(k, q1, mode, band, low);
    assert q2.driveSlider == w && q2.drive == low;
  }

  /** A slider moved up, a client's lower drive, a lowered cap, and then the dial in the band that remembers
      the slider's value: the stored drive ends above the cap (what is transmitted does not). */
  lemma StaleSlider(a: App, f: int, w: real, low: real, cap: real)
    requires Inv(a) && a.band >= 0 && Digi(a.mode) && f >= 1
    requires 0.0 <= low <= cap && 1.0 <= cap < w <= a.power.cap && a.power.driveSlider != w
    requires var b := BandFor(a.k.bands, f, 0);
      b >= 0 && b != a.band && a.bandMode[b] == a.mode && a.power.bandDrive[b] == w
    ensures
      var s := Step(Step(Step(a, DriveSlider(w)), TciDrive(low)), DigiMax(cap));
      var r := Step(Step(s, Dialled(f)), Tick);
      Digi(r.mode) && r.power.cap == cap && r.power.drive == w > cap
      && (a.k.txReady ==> r.power.pushed.drive == cap)
  {
    var b := BandFor(a.k.bands, f, 0);
    StepKeepsInv(a, DriveSlider(w));
    var s1 := Step(a, DriveSlider(w));
    StepKeepsInv(s1, TciDrive(low));
    var s2 := Step(s1, TciDrive(low));
    StepKeepsInv(s2, DigiMax(cap));
    var s3 := Step(s2, DigiMax(cap));
    SliderGoesStale(a.k, a.power, a.mode, a.band, b, w, low, cap);
    BandStays(TunedTo(s3, f), b, w);
  }

  lemma BandStays(a: App, b: nat, w: real)
    requires Inv(a) && b == BandFor(a.k.bands, a.vfo.freq, 0) && b != a.band && Digi(a.mode) && a.bandMode[b] == a.mode
    requires a.power.driveSlider == a.power.bandDrive[b] == w > a.power.cap
    ensures var r := BandApplied(a);
      r.mode == a.mode && r.power.cap == a.power.cap && r.power.drive == w
      && (a.k.txReady ==> r.power.pushed.drive == a.power.cap)
  {
    BandBrings(a, b);
    BandKeepsInv(a);
  }

  // ---- two VFOs ---------------------------------------------------------------------------------

  lemma SwapTakesTheParkedMode(a: App)
    requires Inv(a)
    ensures var r := Swapped(a, false);
      && r.vfo.freq == Parked(a).0 && r.vfo.ofreq == a.vfo.freq && r.vfo.omode == a.mode && r.vfo.onB == !a.vfo.onB
      && (HasButton(OwnMode(a)) ==> r.mode == OwnMode(a))
  {}

  /** Swapping twice gives back both frequencies, both modes and the letter exactly when the parked
      VFO was set and its mode has a button; unset, it becomes a copy of the active one. */
  lemma TwoSwapsRestore(a: App)
    requires Inv(a) && a.vfo.freq >= 1
    ensures var r := Swapped(Swapped(a, false), false);
      (r.vfo.freq == a.vfo.freq && r.mode == a.mode && r.vfo.ofreq == a.vfo.ofreq && r.vfo.omode == a.vfo.omode
       && r.vfo.onB == a.vfo.onB)
      <==> a.vfo.ofreq >= 1 && HasButton(a.vfo.omode)
  {
    var s := Swapped(a, false);
    SwapTakesTheParkedMode(a);
    SwapKeepsInv(a, false);
    SwapTakesTheParkedMode(s);
  }

  // ---- start-up ----------------------------------------------------------------------------------

  predicate Loadable(s: App) {
    && |s.k.bands| == |s.power.bandDrive| == |s.power.bandTune|
    && PowerOk(s.k, s.power, -1) && FilterOk(s.k, s.filter) && AgcOk(s.agc)
    && BandModesOk(s.bandMode, |s.k.bands|) && 0 <= s.mode < NMODES
  }

  /** The state put together from the settings `s`: the band the dial is in gives the power requests
      and takes the start-up mode; filter and AGC are the ones remembered for that mode. */
  function Started(s: App): App
    requires Loadable(s)
  {
    var b := BandFor(s.k.bands, s.vfo.freq, 0);
    var p := if b >= 0 then s.power.(drive := s.power.bandDrive[b], tune := s.power.bandTune[b]) else s.power;
    var q := p.(driveSlider := p.drive, tuneSlider := p.tune);
    s.(band := b, toggle := if HasButton(s.mode) then s.mode else -1,
       bandMode := if b >= 0 then s.bandMode[b := s.mode] else s.bandMode,
       agc := s.agc.(agc := s.agc.byGroup[GroupOf(s.mode)]),
       filter := Selected(s.k, s.filter, s.mode, Restored(s.filter, s.mode)),
       power := Told(s.k, q, s.mode))
  }

  /** Start-up meets the invariant exactly when the start-up mode and the modes remembered for the
      other bands have buttons. */
  lemma StartedInvariant(s: App)
    requires Loadable(s)
    ensures Inv(Started(s)) <==>
      HasButton(s.mode) && forall b :: 0 <= b < |s.bandMode| && b != BandFor(s.k.bands, s.vfo.freq, 0) ==> HasButton(s.bandMode[b])
  {
    var b0 := BandFor(s.k.bands, s.vfo.freq, 0);
    var r := Started(s);
    assert forall b :: 0 <= b < |s.bandMode| && b != b0 ==> r.bandMode[b] == s.bandMode[b];
    assert Buttons(r.bandMode) && HasButton(s.mode) <==>
      HasButton(s.mode) && forall b :: 0 <= b < |s.bandMode| && b != b0 ==> HasButton(s.bandMode[b]);
    assert r.filter.byMode[s.mode] == r.filter.idx;
  }
}
