/** CTUN tuning: the receiver's span stands on a centre, the dial moves inside it. The dial's
    passband must stay inside the span, a fiftieth of the rate away from its edges.

    A dial that leaves its room takes the centre along, by the overshoot while it is within the
    span and onto itself beyond. A dragged centre stops where the dial has no more room; a
    centre set by a client carries the dial along. */
module Ctun {

  /** The tuning state; the passband edges are whole Hz relative to the dial. */
  datatype Tuning = Tuning(freq: int, centre: int, on: bool, rate: nat, flo: int, fhi: int)

  function Half(t: Tuning): int { t.rate / 2 }

  function Margin(t: Tuning): int { t.rate / 50 }

  function RoomLow(t: Tuning): int { t.centre - Half(t) + Margin(t) - t.flo }

  function RoomHigh(t: Tuning): int { t.centre + Half(t) - Margin(t) - t.fhi }

  /** The passband of the dial lies in the span with its margin. */
  predicate InRoom(t: Tuning) { RoomLow(t) <= t.freq <= RoomHigh(t) }

  /** Each passband edge is within the span when the dial is on the centre. */
  predicate PassbandFits(t: Tuning) {
    Margin(t) - Half(t) <= t.flo && t.fhi <= Half(t) - Margin(t) && t.flo <= t.fhi
  }

  function Abs(x: int): nat { if x < 0 then -x else x }

  // ---- the dial moves -------------------------------------------------------------------

  /** A new dial frequency (already in `freq`) is taken up. */
  function Follow(t: Tuning): Tuning {
    if !t.on || Abs(t.freq - t.centre) > Half(t) then t.(centre := t.freq)
    else if t.freq < RoomLow(t) then t.(centre := t.centre - (RoomLow(t) - t.freq))
    else if t.freq > RoomHigh(t) then t.(centre := t.centre + (t.freq - RoomHigh(t)))
    else t
  }

  /** With a passband that fits, the dial always ends in the room. */
  lemma DialEndsInRoom(t: Tuning)
    requires PassbandFits(t)
    ensures InRoom(Follow(t))
  {}

  /** ... and after a move without CTUN, or out of the span, only with one that fits the edges. */
  lemma RecentredInRoom(t: Tuning)
    requires !t.on || Abs(t.freq - t.centre) > Half(t)
    ensures Follow(t).centre == t.freq
    ensures InRoom(Follow(t)) <==> Margin(t) - Half(t) <= t.flo && t.fhi <= Half(t) - Margin(t)
  {}

  /** Within the span, exactly the passbands no wider than the room can be held. */
  lemma HeldInRoom(t: Tuning)
    requires t.on && Abs(t.freq - t.centre) <= Half(t)
    ensures InRoom(Follow(t)) <==> t.fhi - t.flo <= 2 * (Half(t) - Margin(t))
  {}

  /** Within the span the centre moves as little as it can: not at all when the dial already
      fits, and otherwise by the overshoot; no nearer centre has room for the dial. */
  lemma CentreMovesLeast(t: Tuning, other: int)
    requires t.on && Abs(t.freq - t.centre) <= Half(t) && PassbandFits(t)
    ensures InRoom(t) ==> Follow(t) == t
    ensures Abs(Follow(t).centre - t.centre) ==
            (if t.freq < RoomLow(t) then RoomLow(t) - t.freq else if t.freq > RoomHigh(t) then t.freq - RoomHigh(t) else 0)
    ensures InRoom(t.(centre := other)) ==> Abs(other - t.centre) >= Abs(Follow(t).centre - t.centre)
  {}

  // ---- the centre moves -------------------------------------------------------------------

  function LowestCentre(t: Tuning): int { t.freq + t.fhi + Margin(t) - Half(t) }

  function HighestCentre(t: Tuning): int { t.freq + t.flo - Margin(t) + Half(t) }

  /** A wished-for centre, kept where the dial has room and positive. */
  function Centred(t: Tuning, wish: int): Tuning {
    var c := if wish < LowestCentre(t) then LowestCentre(t) else wish;
    var d := if c > HighestCentre(t) then HighestCentre(t) else c;
    t.(centre := if d < 1 then 1 else d)
  }

  /** Whatever centre is wished for, a positive dial whose passband fits stays put and ends in the room,
      and the centre is the positive one nearest to the wish that has room for it. */
  lemma CentreEndsInRoom(t: Tuning, wish: int, other: int)
    requires PassbandFits(t) && t.freq >= 1
    ensures Centred(t, wish).freq == t.freq && Centred(t, wish).centre >= 1
    ensures InRoom(Centred(t, wish))
    ensures other >= 1 && InRoom(t.(centre := other)) ==>
            Abs(other - wish) >= Abs(Centred(t, wish).centre - wish)
  {}

  /** A client sets the centre: under CTUN the dial rides along. */
  function CentreSet(t: Tuning, c: int): Tuning {
    if c < 1 then t
    else if !t.on then Follow(t.(freq := c))
    else
      var offset := t.freq - t.centre;
      Centred(t.(freq := if c + offset > 0 then c + offset else 1), c)
  }

  /** From a dial in its room, the centre becomes exactly what was asked and the offset is kept,
      exactly when the dial stays positive; otherwise the dial stops at 1 Hz. */
  lemma OffsetIsKept(t: Tuning, c: int)
    requires t.on && c >= 1 && InRoom(t) && PassbandFits(t)
    ensures (CentreSet(t, c).centre == c && CentreSet(t, c).freq - c == t.freq - t.centre)
            <==> c + (t.freq - t.centre) >= 1
    ensures c + (t.freq - t.centre) >= 1 ==> InRoom(CentreSet(t, c))
    ensures c + (t.freq - t.centre) < 1 ==> CentreSet(t, c).freq == 1
  {}

  // ---- whole runs ----------------------------------------------------------------------------

  datatype Event =
    | Dial(f: int)       // any tuning path
    | Centre(c: int)     // a client's dds
    | Pan(c: int)        // the spectrum dragged

  function Step(t: Tuning, e: Event): Tuning {
    match e
    case Dial(f) => if f < 1 then t else Follow(t.(freq := f))
    case Centre(c) => CentreSet(t, c)
    case Pan(c) => Centred(t, c)
  }

  /** What each event is: the dial goes where it is tuned to and a drag leaves it alone; without CTUN centre and dial
      are one after every move of the dial; below 1 Hz nothing is tuned to. */
  lemma EventIs(t: Tuning, f: int)
    ensures f < 1 ==> Step(t, Dial(f)) == Step(t, Centre(f)) == t
    ensures f >= 1 ==> Step(t, Dial(f)).freq == f && SamePassband(t, Step(t, Dial(f)))
    ensures f >= 1 && !t.on ==> Step(t, Dial(f)) == Step(t, Centre(f)) == t.(freq := f, centre := f)
    ensures Step(t, Pan(f)) == t.(centre := Step(t, Pan(f)).centre)
  {}

  function Run(t: Tuning, es: seq<Event>, n: nat): Tuning
    requires n <= |es|
  {
    if n == 0 then t else Step(Run(t, es, n - 1), es[n - 1])
  }

  /** What every event keeps. */
  predicate Held(t: Tuning) { t.on && t.freq >= 1 && InRoom(t) && PassbandFits(t) }

  predicate SamePassband(t: Tuning, r: Tuning) { r.on == t.on && r.rate == t.rate && r.flo == t.flo && r.fhi == t.fhi }

  lemma DialKeepsHeld(t: Tuning, f: int)
    requires Held(t) && f >= 1
    ensures Held(Follow(t.(freq := f))) && SamePassband(t, Follow(t.(freq := f)))
  {
    DialEndsInRoom(t.(freq := f));
  }

  lemma PanKeepsHeld(t: Tuning, c: int)
    requires t.on && t.freq >= 1 && PassbandFits(t)
    ensures Held(Centred(t, c)) && SamePassband(t, Centred(t, c))
  {
    CentreEndsInRoom(t, c, 1);
  }

  lemma CentreKeepsHeld(t: Tuning, c: int)
    requires Held(t) && c >= 1
    ensures Held(CentreSet(t, c)) && SamePassband(t, CentreSet(t, c))
  {
    var offset := t.freq - t.centre;
    PanKeepsHeld(t.(freq := if c + offset > 0 then c + offset else 1), c);
  }

  lemma StepKeepsHeld(t: Tuning, e: Event)
    requires Held(t)
    ensures Held(Step(t, e)) && SamePassband(t, Step(t, e))
  {
    match e
    case Dial(f) => if f >= 1 { DialKeepsHeld(t, f); }
    case Centre(c) => if c >= 1 { CentreKeepsHeld(t, c); }
    case Pan(c) => PanKeepsHeld(t, c);
  }

  /** In every run under CTUN with a passband that fits, the dial stays positive and in its
      room, whatever is tuned, dragged or asked for. */
  lemma {:induction false} DialStaysInRoom(t: Tuning, es: seq<Event>, n: nat)
    requires n <= |es| && t.on && t.freq >= 1 && InRoom(t)
    requires PassbandFits(t)
    ensures var r := Run(t, es, n);
      r.on && r.freq >= 1 && InRoom(r) && r.rate == t.rate && r.flo == t.flo && r.fhi == t.fhi
  {
    if n > 0 {
      DialStaysInRoom(t, es, n - 1);
      StepKeepsHeld(Run(t, es, n - 1), es[n - 1]);
    }
  }
}
