/** The handlers as they run: each assigns the fields it is about and sets toggles and sliders,
    whose own handlers then run inside it. Every one of them amounts to one event of GuiState.

    A slider or a toggle runs its handler only when its value changes, so the handlers below
    call one another exactly where the setters of the toolkit would: a band sets the mode
    button and both sliders, a mode the filter and the AGC, and the cap the drive slider. */
module GuiHandlers {
  import Ctun
  import opened GuiState

  lemma FiledTwice(p: Power, band: int)
    requires band < |p.bandDrive| && band < |p.bandTune|
    ensures Filed(Filed(p, band), band) == Filed(p, band)
  {}

  /** The scan of the band table. */
  method BandForFreq(bands: seq<Edges>, f: int) returns (b: int)
    ensures b == BandFor(bands, f, 0)
  {
    for i := 0 to |bands|
      invariant BandFor(bands, f, 0) == BandFor(bands, f, i)
    {
      if f >= bands[i].lo && f <= bands[i].hi {
        return i;
      }
    }
    return -1;
  }

  class Gui {
    const k: Setup
    const ctun: bool
    const rate: nat
    var vfo: Vfo
    var band: int
    var mode: int
    var toggle: int
    var bandMode: seq<int>
    var filter: Filter
    var agc: Agc
    var power: Power

    function State(): App
      reads this
    {
      App(k, ctun, rate, vfo, band, mode, toggle, bandMode, filter, agc, power)
    }

    constructor (a: App)
      ensures State() == a
    {
      k, ctun, rate, vfo, band, mode, toggle := a.k, a.ctun, a.rate, a.vfo, a.band, a.mode, a.toggle;
      bandMode, filter, agc, power := a.bandMode, a.filter, a.agc, a.power;
    }

    // ---- power ----------------------------------------------------------------------------

    method StoreBand()
      requires PowerOk(k, power, band)
      modifies this`power
      ensures power == Filed(old(power), band) && PowerOk(k, power, band)
    {
      if band >= 0 {
        power := power.(bandDrive := power.bandDrive[band := power.drive], bandTune := power.bandTune[band := power.tune]);
      }
    }

    method PushCfg()
      modifies this`power
      ensures power == Told(k, old(power), mode)
    {
      if !k.txReady {
        return;
      }
      var drive := power.drive;
      if Digi(mode) && drive > power.cap {
        drive := power.cap;
      }
      power := power.(pushed := Pushed(drive, power.tune, mode));
    }

    /** Moving a slider runs its handler; setting it where it stands does not. */
    method SetDriveSlider(v: real)
      requires PowerOk(k, power, band)
      modifies this`power
      ensures power == DriveSlid(k, old(power), mode, band, v)
      decreases if Digi(mode) && Clip(k, v) > power.cap then 1 else 0, 2
    {
      if Clip(k, v) != power.driveSlider {
        power := power.(driveSlider := Clip(k, v));
        OnDriveChanged();
      }
    }

    method OnDriveChanged()
      requires PowerOk(k, power, band)
      modifies this`power
      ensures var d := Capped(old(power), mode, old(power).driveSlider);
        power == Told(k, Filed(old(power).(drive := d, driveSlider := d), band), mode)
      decreases if Digi(mode) && power.driveSlider > power.cap then 1 else 0, 1
    {
      power := power.(drive := power.driveSlider);
      var clamped := DigiDriveClamp();
      if clamped {
        return;
      }
      StoreBand();
      PushCfg();
    }

    /** The cap clamps the stored drive and sets the slider, which runs the drive handler again. */
    method DigiDriveClamp() returns (clamped: bool)
      requires PowerOk(k, power, band)
      modifies this`power
      ensures power == DigiClamped(k, old(power), mode, band)
      ensures clamped <==> Digi(mode) && old(power).drive > old(power).cap
      decreases if Digi(mode) && power.drive > power.cap then 1 else 0, 0
    {
      if Digi(mode) && power.drive > power.cap {
        power := power.(drive := power.cap);
        FiledTwice(power, band);
        StoreBand();
        SetDriveSlider(power.cap);
        return true;
      }
      return false;
    }

    method SetTuneSlider(v: real)
      requires PowerOk(k, power, band)
      modifies this`power
      ensures power == TuneSlid(k, old(power), mode, band, v)
    {
      if Clip(k, v) != power.tuneSlider {
        power := power.(tuneSlider := Clip(k, v));
        OnTuneDriveChanged();
      }
    }

    method OnTuneDriveChanged()
      requires PowerOk(k, power, band)
      modifies this`power
      ensures power == Told(k, Filed(old(power).(tune := old(power).tuneSlider), band), mode)
    {
      power := power.(tune := power.tuneSlider);
      StoreBand();
      PushCfg();
    }

    method TciSetDrive(w: real)
      requires Ok(State())
      modifies this`power
      ensures State() == Step(old(State()), TciDrive(w))
    {
      var v := w;
      if v < 0.0 { v := 0.0; }
      if v > k.watts { v := k.watts; }
      power := power.(drive := v);
      var clamped := DigiDriveClamp();
      StoreBand();
      PushCfg();
    }

    method TciSetTuneDrive(w: real)
      requires Ok(State())
      modifies this`power
      ensures State() == Step(old(State()), TciTune(w))
    {
      var v := w;
      if v < 0.0 { v := 0.0; }
      if v > k.watts { v := k.watts; }
      power := power.(tune := v);
      StoreBand();
      PushCfg();
    }

    method OnPrefDigiMax(w: real)
      requires Ok(State()) && 1.0 <= w <= k.watts
      modifies this`power
      ensures State() == Step(old(State()), DigiMax(w))
    {
      power := power.(cap := w);
      var clamped := DigiDriveClamp();
      PushCfg();
    }

    // ---- filter and AGC -----------------------------------------------------------------------

    method FilterSelect(idx: int)
      requires Ok(State())
      modifies this`filter
      ensures State() == Step(old(State()), FilterPick(idx))
    {
      if idx < 0 || idx >= NPRESET + 2 {
        return;
      }
      filter := filter.(idx := idx, byMode := filter.byMode[mode := idx]);
      var e := EdgesOf(k, filter, mode, idx);
      filter := filter.(flo := e.lo, fhi := e.hi);
    }

    method FilterApplyVarEdges(lo0: int, hi0: int)
      requires Ok(State())
      modifies this`filter
      ensures State() == Step(old(State()), FilterDrag(lo0, hi0))
    {
      var lo, hi := lo0, hi0;
      if lo < -20000 { lo := -20000; }
      if hi > 20000 { hi := 20000; }
      if hi < lo + 50 { hi := lo + 50; }
      if filter.idx < NPRESET {
        filter := filter.(idx := NPRESET);
        filter := filter.(byMode := filter.byMode[mode := filter.idx]);
      }
      var v := filter.idx - NPRESET;
      filter := filter.(vars := filter.vars[mode := filter.vars[mode][v := Edges(lo, hi)]], flo := lo, fhi := hi);
    }

    method TciSetFilter(lo: int, hi: int)
      requires Ok(State())
      modifies this`filter
      ensures State() == Step(old(State()), TciFilter(lo, hi))
    {
      if hi <= lo {
        return;
      }
      filter := filter.(flo := lo, fhi := hi);
    }

    method AgcSelect(m: int)
      requires Ok(State())
      modifies this`agc
      ensures State() == Step(old(State()), AgcPick(m))
    {
      if m < 0 || m > 4 {
        return;
      }
      agc := Agc(m, agc.byGroup[GroupOf(mode) := m]);
    }

    // ---- mode, band, VFOs -----------------------------------------------------------------------

    /** Activating a mode button: its handler runs unless it is down already. */
    method SetToggle(m: int)
      requires Ok(State()) && HasButton(m)
      modifies this`toggle, this`mode, this`agc, this`bandMode, this`filter, this`power
      ensures State() == ModeEntered(old(State()), m)
    {
      if toggle != m {
        toggle := m;
        OnModeToggled(m);
      }
    }

    /** The AGC character follows the mode's group. */
    method AgcFollows(from: int, to: int)
      requires AgcOk(agc)
      modifies this`agc
      ensures agc == AgcEntered(old(agc), from, to)
    {
      var oldGroup, newGroup := GroupOf(from), GroupOf(to);
      if oldGroup != newGroup {
        agc := agc.(byGroup := agc.byGroup[oldGroup := agc.agc]);
        var a := agc.byGroup[newGroup];
        if 0 <= a <= 4 && a != agc.agc {
          agc := agc.(agc := a);
        }
      }
    }

    /** The mode's last filter, or its default. */
    method FilterFollows(m: int)
      requires FilterOk(k, filter) && HasButton(m)
      modifies this`filter
      ensures filter == Selected(k, old(filter), m, Restored(old(filter), m))
    {
      var idx := filter.byMode[m];
      if idx < 0 || idx >= NPRESET + 2 {
        idx := DefaultFilter(m);
      }
      filter := filter.(idx := idx, byMode := filter.byMode[m := idx]);
      var e := EdgesOf(k, filter, m, idx);
      filter := filter.(flo := e.lo, fhi := e.hi);
    }

    method OnModeToggled(m: int)
      requires toggle == m && Ok(State().(toggle := mode)) && HasButton(m) && m != mode
      modifies this`mode, this`agc, this`bandMode, this`filter, this`power
      ensures State() == ModeEntered(old(State().(toggle := mode)), m)
    {
      var was := mode;
      mode := m;
      AgcFollows(was, m);
      if band >= 0 {
        bandMode := bandMode[band := m];
      }
      FilterFollows(m);
      PushCfg();
      var clamped := DigiDriveClamp();
    }

    method BandApply()
      requires Ok(State())
      modifies this`band, this`toggle, this`mode, this`agc, this`bandMode, this`filter, this`power
      ensures State() == BandApplied(old(State()))
    {
      var b := BandForFreq(k.bands, vfo.freq);
      if b == band {
        return;
      }
      band := b;
      if b >= 0 {
        power := power.(drive := power.bandDrive[b], tune := power.bandTune[b]);
        var m := bandMode[b];
        if m != mode && HasButton(m) {
          SetToggle(m);
        }
        SetDriveSlider(power.drive);
        SetTuneSlider(power.tune);
      }
      PushCfg();
    }

    method EngineSetFrequency(f: int)
      modifies this`vfo
      ensures State() == Retuned(old(State()), Ctun.Follow(TuningOf(old(State())).(freq := f)))
    {
      var c, half, m := vfo.centre, rate / 2, rate / 50;
      if !ctun {
        c := f;
      } else if Ctun.Abs(f - c) > half {
        c := f;
      } else {
        var lo, hi := c - half + m - filter.flo, c + half - m - filter.fhi;
        if f < lo {
          c := c - (lo - f);
        } else if f > hi {
          c := c + (f - hi);
        }
      }
      vfo := vfo.(freq := f, centre := c);
    }

    /** The centre moves and the dial stays, as far as the dial's passband allows. */
    method EngineSetCentre(c0: int)
      modifies this`vfo
      ensures State() == Retuned(old(State()), Ctun.Centred(TuningOf(old(State())), c0))
    {
      var c, half, m := c0, rate / 2, rate / 50;
      var cmin, cmax := vfo.freq + filter.fhi + m - half, vfo.freq + filter.flo - m + half;
      if c < cmin { c := cmin; }
      if c > cmax { c := cmax; }
      if c < 1 { c := 1; }
      vfo := vfo.(centre := c);
    }

    method TciSetFreq(f: int)
      requires Ok(State())
      modifies this`vfo
      ensures State() == Step(old(State()), Dialled(f))
    {
      if f >= 1 {
        EngineSetFrequency(f);
      }
    }

    method TciSetCentre(c0: int)
      requires Ok(State())
      modifies this`vfo
      ensures State() == Step(old(State()), CentreAsked(c0))
    {
      if c0 < 1 {
        return;
      }
      if !ctun {
        TciSetFreq(c0);
        return;
      }
      var off := vfo.freq - vfo.centre;
      vfo := vfo.(freq := if c0 + off > 0 then c0 + off else 1);
      EngineSetCentre(c0);
    }

    /** The exchange itself; the result is the mode the now-active VFO had. */
    method Exchange() returns (nm: int)
      modifies this`vfo
      ensures State() == Exchanged(old(State())) && nm == OwnMode(old(State()))
    {
      if vfo.ofreq < 1 {
        vfo := vfo.(ofreq := vfo.freq, omode := mode);
      }
      var f, m := vfo.freq, mode;
      nm := if 0 <= vfo.omode < NMODES then vfo.omode else m;
      vfo := vfo.(freq := vfo.ofreq, ofreq := f, omode := m, onB := !vfo.onB);
      EngineSetFrequency(vfo.freq);
    }

    method VfoSwap(keyed: bool)
      requires Ok(State())
      modifies this
      ensures State() == Swapped(old(State()), keyed)
    {
      if keyed {
        return;
      }
      var nm := Exchange();
      BandApply();
      if nm != mode && HasButton(nm) {
        SetToggle(nm);
      }
    }

    method VfoCopy()
      requires Ok(State())
      modifies this`vfo
      ensures State() == Step(old(State()), Copy)
    {
      vfo := vfo.(ofreq := vfo.freq, omode := mode);
    }
  }
}
