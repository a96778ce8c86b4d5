/** The operating state: per-band, per-mode and per-AGC-group memories kept by handlers that
    set off one another. A toggle or a slider runs its handler only when its value changes,
    and a handler may set it again. */
module GuiState {
  import opened Arith
  import opened Ctun

  const NMODES := 13
  const NPRESET := 10

  const LSB := 0
  const USB := 1
  const CWL := 3
  const CWU := 4
  const AM := 6
  const DIGU := 7
  const DIGL := 9
  const SAM := 10
  const RTTY := 12

  datatype Edges = Edges(lo: int, hi: int)

  /** What does not change while the radio is in use: the band table, the filter presets of
      every mode, the power rating, and whether the transmitter is up. */
  datatype Setup = Setup(bands: seq<Edges>, presets: seq<seq<Edges>>, watts: real, txReady: bool)

  /** The mode buttons there are. */
  predicate HasButton(mode: int) { mode in {LSB, USB, CWL, CWU, AM, DIGU, DIGL, SAM, RTTY} }

  predicate Digi(mode: int) { mode == DIGU || mode == DIGL || mode == RTTY }

  function GroupOf(mode: int): (g: nat)
    ensures g < 4
  {
    if mode == CWL || mode == CWU then 1
    else if mode == AM || mode == SAM then 2
    else if Digi(mode) then 3
    else 0
  }

  function DefaultFilter(mode: int): (i: nat)
    ensures i < NPRESET
  {
    if mode in {CWL, CWU, AM, SAM} then 4 else if mode == DIGU || mode == DIGL then 2 else 5
  }

  /** The first band of the table that holds `f`, from entry `i` on; -1 out of band. */
  function BandFor(bands: seq<Edges>, f: int, i: nat): (b: int)
    requires i <= |bands|
    ensures -1 <= b < |bands|
    decreases |bands| - i
  {
    if i == |bands| then -1
    else if bands[i].lo <= f <= bands[i].hi then i
    else BandFor(bands, f, i + 1)
  }

  predicate Holds(band: Edges, f: int) { band.lo <= f && f <= band.hi }

  /** From the start of the table it finds a band that holds the frequency, and no earlier one does; none
      is found exactly when no band holds it. */
  lemma {:induction false} BandIsTheFirst(bands: seq<Edges>, f: int, i: nat)
    requires i <= |bands|
    ensures var b := BandFor(bands, f, i);
      && (b >= 0 ==> i <= b && Holds(bands[b], f) && forall k :: i <= k < b ==> !Holds(bands[k], f))
      && (b == -1 <==> forall k :: i <= k < |bands| ==> !Holds(bands[k], f))
    decreases |bands| - i
  {
    if i < |bands| && !Holds(bands[i], f) {
      BandIsTheFirst(bands, f, i + 1);
    }
  }

  // ---- transmit power -------------------------------------------------------------------

  /** What the transmitter was last told. */
  datatype Pushed = Pushed(drive: real, tune: real, mode: int)

  datatype Power = Power(drive: real, tune: real, cap: real, driveSlider: real, tuneSlider: real,
                         bandDrive: seq<real>, bandTune: seq<real>, pushed: Pushed)

  function Request(p: Power, mode: int): Pushed {
    Pushed(if Digi(mode) && p.drive > p.cap then p.cap else p.drive, p.tune, mode)
  }

  function Told(k: Setup, p: Power, mode: int): Power {
    if k.txReady then p.(pushed := Request(p, mode)) else p
  }

  function Filed(p: Power, band: int): Power
    requires band < |p.bandDrive| && band < |p.bandTune|
  {
    if band >= 0 then p.(bandDrive := p.bandDrive[band := p.drive], bandTune := p.bandTune[band := p.tune]) else p
  }

  predicate Within(s: seq<real>, max: real) { forall i :: 0 <= i < |s| ==> 0.0 <= s[i] <= max }

  predicate PowerOk(k: Setup, p: Power, band: int) {
    && |p.bandDrive| == |p.bandTune| == |k.bands| && -1 <= band < |k.bands|
    && 0.0 <= p.drive <= k.watts && 0.0 <= p.tune <= k.watts && 1.0 <= p.cap <= k.watts
    && 0.0 <= p.driveSlider <= k.watts && 0.0 <= p.tuneSlider <= k.watts
    && Within(p.bandDrive, k.watts) && Within(p.bandTune, k.watts)
  }

  function Clip(k: Setup, v: real): real {
    ClampReal(v, 0.0, k.watts)
  }

  function Capped(p: Power, mode: int, v: real): real {
    if Digi(mode) && v > p.cap then p.cap else v
  }

  /** The drive slider set to `v`, with everything that follows: nothing if it stands there. */
  function DriveSlid(k: Setup, p: Power, mode: int, band: int, v: real): (q: Power)
    requires PowerOk(k, p, band)
    ensures PowerOk(k, q, band)
  {
    if Clip(k, v) == p.driveSlider then p
    else
      var d := Capped(p, mode, Clip(k, v));
      Told(k, Filed(p.(drive := d, driveSlider := d), band), mode)
  }

  function TuneSlid(k: Setup, p: Power, mode: int, band: int, v: real): (q: Power)
    requires PowerOk(k, p, band)
    ensures PowerOk(k, q, band)
  {
    if Clip(k, v) == p.tuneSlider then p
    else Told(k, Filed(p.(tune := Clip(k, v), tuneSlider := Clip(k, v)), band), mode)
  }

  /** The cap enforced on the stored drive; the transmitter hears of it only if the slider moved. */
  function DigiClamped(k: Setup, p: Power, mode: int, band: int): (q: Power)
    requires PowerOk(k, p, band)
    ensures PowerOk(k, q, band)
  {
    if !(Digi(mode) && p.drive > p.cap) then p
    else
      var q := Filed(p.(drive := p.cap), band);
      if p.driveSlider == p.cap then q else Told(k, q.(driveSlider := p.cap), mode)
  }

  /** A client sets the drive: the slider follows only if the cap bites. */
  function DriveAsked(k: Setup, p: Power, mode: int, band: int, v: real): (q: Power)
    requires PowerOk(k, p, band)
    ensures PowerOk(k, q, band)
  {
    Told(k, Filed(DigiClamped(k, p.(drive := Clip(k, v)), mode, band), band), mode)
  }

  function TuneAsked(k: Setup, p: Power, mode: int, band: int, v: real): (q: Power)
    requires PowerOk(k, p, band)
    ensures PowerOk(k, q, band)
  {
    Told(k, Filed(p.(tune := Clip(k, v)), band), mode)
  }

  function CapChosen(k: Setup, p: Power, mode: int, band: int, v: real): (q: Power)
    requires PowerOk(k, p, band)
    ensures PowerOk(k, q, band)
  {
    if 1.0 <= v <= k.watts then Told(k, DigiClamped(k, p.(cap := v), mode, band), mode) else p
  }

  // ---- filters and AGC ---------------------------------------------------------------------

  datatype Filter = Filter(idx: int, byMode: seq<int>, vars: seq<seq<Edges>>, flo: int, fhi: int)

  predicate FilterOk(k: Setup, f: Filter) {
    && |k.presets| == NMODES && (forall m :: 0 <= m < NMODES ==> |k.presets[m]| == NPRESET)
    && |f.byMode| == NMODES && |f.vars| == NMODES && (forall m :: 0 <= m < NMODES ==> |f.vars[m]| == 2)
    && 0 <= f.idx < NPRESET + 2
  }

  function EdgesOf(k: Setup, f: Filter, mode: int, idx: int): Edges
    requires FilterOk(k, f) && 0 <= mode < NMODES && idx < NPRESET + 2
  {
    if idx < NPRESET then k.presets[mode][if idx < 0 then DefaultFilter(mode) else idx]
    else f.vars[mode][idx - NPRESET]
  }

  function Selected(k: Setup, f: Filter, mode: int, idx: int): (r: Filter)
    requires FilterOk(k, f) && 0 <= mode < NMODES && 0 <= idx < NPRESET + 2
    ensures FilterOk(k, r)
  {
    var e := EdgesOf(k, f, mode, idx);
    Filter(idx, f.byMode[mode := idx], f.vars, e.lo, e.hi)
  }

  /** The filter a mode comes up with: the one it was left with, if that still makes sense. */
  function Restored(f: Filter, mode: int): int
    requires |f.byMode| == NMODES && 0 <= mode < NMODES
  {
    if 0 <= f.byMode[mode] < NPRESET + 2 then f.byMode[mode] else DefaultFilter(mode)
  }

  function Clamped(lo: int, hi: int): Edges {
    var l, h := if lo < -20000 then -20000 else lo, if hi > 20000 then 20000 else hi;
    Edges(l, if h < l + 50 then l + 50 else h)
  }

  /** A preset being dragged turns into Var1, the presets stay; Var1 and Var2 change in place. */
  function Dragged(k: Setup, f: Filter, mode: int, lo: int, hi: int): (r: Filter)
    requires FilterOk(k, f) && 0 <= mode < NMODES
    ensures FilterOk(k, r)
  {
    var e, idx := Clamped(lo, hi), if f.idx < NPRESET then NPRESET else f.idx;
    Filter(idx, f.byMode[mode := if f.idx < NPRESET then idx else f.byMode[mode]],
           f.vars[mode := f.vars[mode][idx - NPRESET := e]], e.lo, e.hi)
  }

  datatype Agc = Agc(agc: int, byGroup: seq<int>)

  predicate AgcOk(g: Agc) {
    |g.byGroup| == 4 && 0 <= g.agc <= 4 && forall i :: 0 <= i < 4 ==> 0 <= g.byGroup[i] <= 4
  }

  function AgcEntered(g: Agc, from: int, to: int): (r: Agc)
    requires AgcOk(g)
    ensures AgcOk(r)
  {
    if GroupOf(from) == GroupOf(to) then g
    else
      var kept := g.byGroup[GroupOf(from) := g.agc];
      Agc(if 0 <= kept[GroupOf(to)] <= 4 then kept[GroupOf(to)] else g.agc, kept)
  }

  // ---- the whole state ----------------------------------------------------------------------

  /** Two VFOs: the active one, and the other one parked in `ofreq`, `omode`; `onB` is the letter. */
  datatype Vfo = Vfo(freq: int, centre: int, ofreq: int, omode: int, onB: bool)

  datatype App = App(k: Setup, ctun: bool, rate: nat, vfo: Vfo, band: int, mode: int, toggle: int,
                     bandMode: seq<int>, filter: Filter, agc: Agc, power: Power)

  predicate BandModesOk(bandMode: seq<int>, n: nat) {
    |bandMode| == n && forall b :: 0 <= b < n ==> 0 <= bandMode[b] < NMODES
  }

  predicate Ok(a: App) {
    && PowerOk(a.k, a.power, a.band) && FilterOk(a.k, a.filter) && AgcOk(a.agc)
    && BandModesOk(a.bandMode, |a.k.bands|)
    && HasButton(a.mode) && a.toggle == a.mode
  }

  /** The band remembers the power requests in force. */
  predicate PowerFiled(p: Power, band: int)
    requires band < |p.bandDrive| && band < |p.bandTune|
  {
    band >= 0 ==> p.bandDrive[band] == p.drive && p.bandTune[band] == p.tune
  }

  /** The transmitter knows the power and mode in force, never above the cap in a digital mode. */
  predicate PowerTold(k: Setup, p: Power, mode: int) {
    k.txReady ==> p.pushed == Request(p, mode)
  }

  /** The operator's memories agree with what is in force. */
  predicate Remembered(a: App)
    requires Ok(a)
  {
    && (a.band >= 0 ==> a.bandMode[a.band] == a.mode)
    && PowerFiled(a.power, a.band)
    && a.filter.byMode[a.mode] == a.filter.idx
    && a.agc.byGroup[GroupOf(a.mode)] == a.agc.agc
  }

  predicate Buttons(bandMode: seq<int>) { forall b :: 0 <= b < |bandMode| ==> HasButton(bandMode[b]) }

  predicate Inv(a: App) {
    Ok(a) && Remembered(a) && PowerTold(a.k, a.power, a.mode) && Buttons(a.bandMode)
  }

  function BandModeFiled(bandMode: seq<int>, band: int, m: int): (r: seq<int>)
    requires band < |bandMode|
    ensures |r| == |bandMode|
    ensures 0 <= m < NMODES && BandModesOk(bandMode, |bandMode|) ==> BandModesOk(r, |r|)
  {
    if band >= 0 then bandMode[band := m] else bandMode
  }

  /** A mode button coming down. */
  function ModeEntered(a: App, m: int): (r: App)
    requires Ok(a) && HasButton(m)
    ensures Ok(r) && r.k == a.k && r.band == a.band && r.vfo == a.vfo && r.mode == m
  {
    if m == a.toggle then a
    else
      a.(mode := m, toggle := m, bandMode := BandModeFiled(a.bandMode, a.band, m),
         agc := AgcEntered(a.agc, a.mode, m), filter := Selected(a.k, a.filter, m, Restored(a.filter, m)),
         power := DigiClamped(a.k, Told(a.k, a.power, m), m, a.band))
  }

  /** Band `b` comes up: its power requests first, then the mode last used on it. */
  function BandLoaded(a: App, b: nat): (r: App)
    requires Ok(a) && b < |a.k.bands|
    ensures Ok(r) && r.k == a.k && r.band == b && r.vfo == a.vfo
  {
    var a1 := a.(band := b, power := a.power.(drive := a.power.bandDrive[b], tune := a.power.bandTune[b]));
    if a.bandMode[b] != a.mode && HasButton(a.bandMode[b]) then ModeEntered(a1, a.bandMode[b]) else a1
  }

  /** ... and last the two sliders. */
  function SlidersFollow(k: Setup, p: Power, mode: int, band: int): (q: Power)
    requires PowerOk(k, p, band)
    ensures PowerOk(k, q, band)
  {
    var p1 := DriveSlid(k, p, mode, band, p.drive);
    TuneSlid(k, p1, mode, band, p1.tune)
  }

  /** The dial may be in another band. */
  function BandApplied(a: App): (r: App)
    requires Ok(a)
    ensures Ok(r) && r.k == a.k && r.vfo == a.vfo
  {
    var b := BandFor(a.k.bands, a.vfo.freq, 0);
    if b == a.band then a
    else if b < 0 then a.(band := b, power := Told(a.k, a.power, a.mode))
    else
      var l := BandLoaded(a, b);
      l.(power := Told(l.k, SlidersFollow(l.k, l.power, l.mode, b), l.mode))
  }

  function TuningOf(a: App): Tuning {
    Tuning(a.vfo.freq, a.vfo.centre, a.ctun, a.rate, a.filter.flo, a.filter.fhi)
  }

  function Retuned(a: App, t: Tuning): (r: App)
    ensures r == a.(vfo := r.vfo)
    ensures Ok(a) ==> Ok(r)
  {
    a.(vfo := a.vfo.(freq := t.freq, centre := t.centre))
  }

  /** The parked VFO's frequency and mode; never set, the other VFO counts as a copy. */
  function Parked(a: App): (int, int) {
    if a.vfo.ofreq < 1 then (a.vfo.freq, a.mode) else (a.vfo.ofreq, a.vfo.omode)
  }

  /** The two VFOs exchanged, and the receiver retuned. */
  function Exchanged(a: App): (r: App)
    ensures r == a.(vfo := r.vfo) && (Ok(a) ==> Ok(r))
    ensures r.vfo.freq == Parked(a).0 && r.vfo.ofreq == a.vfo.freq && r.vfo.omode == a.mode && r.vfo.onB == !a.vfo.onB
  {
    var a1 := a.(vfo := Vfo(Parked(a).0, a.vfo.centre, a.vfo.freq, a.mode, !a.vfo.onB));
    Retuned(a1, Follow(TuningOf(a1)))
  }

  function OwnMode(a: App): int {
    if 0 <= Parked(a).1 < NMODES then Parked(a).1 else a.mode
  }

  /** A/B: the parked VFO becomes the active one; its band's memories come up first, its own mode
      wins. Refused while keyed. */
  function Swapped(a: App, keyed: bool): (r: App)
    requires Ok(a)
    ensures Ok(r) && r.k == a.k
  {
    if keyed then a
    else
      var a2 := BandApplied(Exchanged(a));
      if OwnMode(a) != a2.mode && HasButton(OwnMode(a)) then ModeEntered(a2, OwnMode(a)) else a2
  }

  function WithPower(a: App, p: Power): (r: App)
    requires Ok(a) && PowerOk(a.k, p, a.band)
    ensures Ok(r)
  {
    a.(power := p)
  }

  function WithFilter(a: App, f: Filter): (r: App)
    requires Ok(a) && FilterOk(a.k, f)
    ensures Ok(r)
  {
    a.(filter := f)
  }

  function AgcPicked(a: App, m: int): (r: App)
    requires Ok(a)
    ensures Ok(r)
  {
    if 0 <= m <= 4 then a.(agc := Agc(m, a.agc.byGroup[GroupOf(a.mode) := m])) else a
  }

  datatype Event =
    | Tick
    | ModeButton(mode: int)               // a click, or a client's modulation
    | DriveSlider(w: real)
    | TuneSlider(w: real)
    | TciDrive(w: real)
    | TciTune(w: real)
    | DigiMax(w: real)
    | FilterPick(idx: int)
    | FilterDrag(lo: int, hi: int)
    | TciFilter(lo: int, hi: int)
    | AgcPick(agc: int)
    | Dialled(f: int)
    | CentreAsked(c: int)
    | Swap(keyed: bool)
    | Copy

  function Step(a: App, e: Event): (r: App)
    requires Ok(a)
    ensures Ok(r) && r.k == a.k
  {
    match e
    case Tick => BandApplied(a)
    case ModeButton(m) => if HasButton(m) then ModeEntered(a, m) else a
    case DriveSlider(w) => WithPower(a, DriveSlid(a.k, a.power, a.mode, a.band, w))
    case TuneSlider(w) => WithPower(a, TuneSlid(a.k, a.power, a.mode, a.band, w))
    case TciDrive(w) => WithPower(a, DriveAsked(a.k, a.power, a.mode, a.band, w))
    case TciTune(w) => WithPower(a, TuneAsked(a.k, a.power, a.mode, a.band, w))
    case DigiMax(w) => WithPower(a, CapChosen(a.k, a.power, a.mode, a.band, w))
    case FilterPick(i) => if 0 <= i < NPRESET + 2 then WithFilter(a, Selected(a.k, a.filter, a.mode, i)) else a
    case FilterDrag(lo, hi) => WithFilter(a, Dragged(a.k, a.filter, a.mode, lo, hi))
    case TciFilter(lo, hi) => if hi <= lo then a else WithFilter(a, a.filter.(flo := lo, fhi := hi))
    case AgcPick(m) => AgcPicked(a, m)
    case Dialled(f) => if f < 1 then a else Retuned(a, Follow(TuningOf(a).(freq := f)))
    case CentreAsked(c) => Retuned(a, CentreSet(TuningOf(a), c))
    case Swap(keyed) => Swapped(a, keyed)
    case Copy => a.(vfo := a.vfo.(ofreq := a.vfo.freq, omode := a.mode))
  }

  /** A run: the states the events lead through. */
  ghost predicate Run(states: seq<App>, es: seq<Event>) {
    && |states| == |es| + 1
    && forall i :: 0 <= i < |es| ==> Ok(states[i]) && states[i + 1] == Step(states[i], es[i])
  }

  // ---- the memories never drift ------------------------------------------------------------

  lemma SlidersKeepPower(k: Setup, p: Power, mode: int, band: int, v: real)
    requires PowerOk(k, p, band) && PowerFiled(p, band)
    ensures PowerFiled(DriveSlid(k, p, mode, band, v), band)
    ensures PowerFiled(TuneSlid(k, p, mode, band, v), band)
    ensures PowerFiled(DigiClamped(k, p, mode, band), band)
    ensures PowerTold(k, p, mode) ==>
      && PowerTold(k, DriveSlid(k, p, mode, band, v), mode)
      && PowerTold(k, TuneSlid(k, p, mode, band, v), mode)
      && PowerTold(k, DigiClamped(k, p, mode, band), mode)
  {}

  lemma RequestsAreFiledAndTold(k: Setup, p: Power, mode: int, band: int, v: real)
    requires PowerOk(k, p, band) && PowerFiled(p, band) && PowerTold(k, p, mode)
    ensures PowerFiled(DriveAsked(k, p, mode, band, v), band) && PowerTold(k, DriveAsked(k, p, mode, band, v), mode)
    ensures PowerFiled(TuneAsked(k, p, mode, band, v), band) && PowerTold(k, TuneAsked(k, p, mode, band, v), mode)
    ensures PowerFiled(CapChosen(k, p, mode, band, v), band) && PowerTold(k, CapChosen(k, p, mode, band, v), mode)
  {}

  lemma ModePowerKept(k: Setup, p: Power, m: int, band: int)
    requires PowerOk(k, p, band) && PowerFiled(p, band)
    ensures var q := DigiClamped(k, Told(k, p, m), m, band); PowerFiled(q, band) && PowerTold(k, q, m)
  {
    SlidersKeepPower(k, Told(k, p, m), m, band, 0.0);
  }

  lemma FilterIsFiled(k: Setup, f: Filter, m: int, idx: int)
    requires FilterOk(k, f) && 0 <= m < NMODES && 0 <= idx < NPRESET + 2
    ensures Selected(k, f, m, idx).byMode[m] == Selected(k, f, m, idx).idx
  {}

  lemma AgcIsFiled(g: Agc, from: int, to: int)
    requires AgcOk(g) && g.byGroup[GroupOf(from)] == g.agc
    ensures AgcEntered(g, from, to).byGroup[GroupOf(to)] == AgcEntered(g, from, to).agc
  {}

  /** A new mode files itself, its filter and its group's AGC, and reaches the transmitter. */
  lemma ModeIsRemembered(a: App, m: int)
    requires Ok(a) && HasButton(m) && m != a.mode && PowerFiled(a.power, a.band)
    requires a.agc.byGroup[GroupOf(a.mode)] == a.agc.agc
    ensures var r := ModeEntered(a, m); Remembered(r) && PowerTold(r.k, r.power, r.mode)
    ensures Buttons(a.bandMode) ==> Buttons(ModeEntered(a, m).bandMode)
  {
    ModePowerKept(a.k, a.power, m, a.band);
    AgcIsFiled(a.agc, a.mode, m);
    FilterIsFiled(a.k, a.filter, m, Restored(a.filter, m));
    var r := ModeEntered(a, m);
    assert r.bandMode == BandModeFiled(a.bandMode, a.band, m);
  }

  lemma ModeKeepsInv(a: App, m: int)
    requires Inv(a) && HasButton(m)
    ensures Inv(ModeEntered(a, m))
  {
    if m != a.mode {
      ModeIsRemembered(a, m);
    }
  }

  lemma BandLoadedRemembers(a: App, b: nat)
    requires Ok(a) && Remembered(a) && b < |a.k.bands| && b != a.band
    ensures Remembered(BandLoaded(a, b)) <==> HasButton(a.bandMode[b])
    ensures PowerFiled(BandLoaded(a, b).power, b)
    ensures Buttons(a.bandMode) ==> Buttons(BandLoaded(a, b).bandMode)
  {
    var a1 := a.(band := b, power := a.power.(drive := a.power.bandDrive[b], tune := a.power.bandTune[b]));
    if a.bandMode[b] != a.mode && HasButton(a.bandMode[b]) {
      ModeIsRemembered(a1, a.bandMode[b]);
    }
  }

  lemma SlidersFollowKeeps(k: Setup, p: Power, mode: int, band: int)
    requires PowerOk(k, p, band) && PowerFiled(p, band)
    ensures PowerFiled(SlidersFollow(k, p, mode, band), band)
  {
    SlidersKeepPower(k, p, mode, band, p.drive);
    var p1 := DriveSlid(k, p, mode, band, p.drive);
    SlidersKeepPower(k, p1, mode, band, p1.tune);
  }

  /** After a change of band the memories agree exactly when the mode remembered for the new band
      still has a button; the transmitter is up to date either way. */
  lemma BandMemoryNeedsAButton(a: App)
    requires Ok(a) && Remembered(a) && PowerTold(a.k, a.power, a.mode)
    ensures var r, b := BandApplied(a), BandFor(a.k.bands, a.vfo.freq, 0);
      && (Remembered(r) <==> b == a.band || b < 0 || HasButton(a.bandMode[b]))
      && PowerTold(r.k, r.power, r.mode)
      && (Buttons(a.bandMode) ==> Buttons(r.bandMode))
  {
    var b := BandFor(a.k.bands, a.vfo.freq, 0);
    if b != a.band && b >= 0 {
      BandLoadedRemembers(a, b);
      var l := BandLoaded(a, b);
      SlidersFollowKeeps(l.k, l.power, l.mode, b);
    }
  }

  lemma BandKeepsInv(a: App)
    requires Inv(a)
    ensures Inv(BandApplied(a))
  {
    BandMemoryNeedsAButton(a);
  }

  lemma SwapKeepsInv(a: App, keyed: bool)
    requires Inv(a)
    ensures Inv(Swapped(a, keyed))
  {
    if !keyed {
      BandKeepsInv(Exchanged(a));
      if HasButton(OwnMode(a)) {
        ModeKeepsInv(BandApplied(Exchanged(a)), OwnMode(a));
      }
    }
  }

  lemma PowerEventsKeepInv(a: App, e: Event)
    requires Inv(a) && (e.DriveSlider? || e.TuneSlider? || e.TciDrive? || e.TciTune? || e.DigiMax?)
    ensures Inv(Step(a, e))
  {
    SlidersKeepPower(a.k, a.power, a.mode, a.band, e.w);
    RequestsAreFiledAndTold(a.k, a.power, a.mode, a.band, e.w);
  }

  lemma FilterEventsKeepInv(a: App, e: Event)
    requires Inv(a) && (e.FilterPick? || e.FilterDrag? || e.TciFilter? || e.AgcPick?)
    ensures Inv(Step(a, e))
  {}

  lemma TuningEventsKeepInv(a: App, e: Event)
    requires Inv(a) && (e.Dialled? || e.CentreAsked? || e.Copy?)
    ensures Inv(Step(a, e))
  {}

  lemma StepKeepsInv(a: App, e: Event)
    requires Inv(a)
    ensures Inv(Step(a, e))
  {
    match e
    case Tick => BandKeepsInv(a);
    case ModeButton(m) => if HasButton(m) { ModeKeepsInv(a, m); }
    case Swap(keyed) => SwapKeepsInv(a, keyed);
    case DriveSlider(_) => PowerEventsKeepInv(a, e);
    case TuneSlider(_) => PowerEventsKeepInv(a, e);
    case TciDrive(_) => PowerEventsKeepInv(a, e);
    case TciTune(_) => PowerEventsKeepInv(a, e);
    case DigiMax(_) => PowerEventsKeepInv(a, e);
    case FilterPick(_) => FilterEventsKeepInv(a, e);
    case FilterDrag(_, _) => FilterEventsKeepInv(a, e);
    case TciFilter(_, _) => FilterEventsKeepInv(a, e);
    case AgcPick(_) => FilterEventsKeepInv(a, e);
    case _ => TuningEventsKeepInv(a, e);
  }

  /** After every event of every run: the current band remembers the mode and both power requests,
      the mode its filter, the mode's group its AGC; and the transmitter was last told exactly the
      requests in force. */
  lemma {:induction false} MemoriesNeverDrift(states: seq<App>, es: seq<Event>, n: nat)
    requires Run(states, es) && n <= |es| && Inv(states[0])
    ensures Inv(states[n])
  {
    if n > 0 {
      MemoriesNeverDrift(states, es, n - 1);
      StepKeepsInv(states[n - 1], es[n - 1]);
    }
  }

  /** ... so no digital mode is ever transmitted above the cap. */
  lemma CapReachesTheTransmitter(states: seq<App>, es: seq<Event>, n: nat)
    requires Run(states, es) && n <= |es| && Inv(states[0])
    ensures var r := states[n];
      r.k.txReady && Digi(r.mode) ==> r.power.pushed.drive <= r.power.cap && r.power.pushed.mode == r.mode
  {
    MemoriesNeverDrift(states, es, n);
  }
}
