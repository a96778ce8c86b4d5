/** Who keyed the radio: the client table, the remembered keyer and the queued unkeys of the
    TCI server, and the key flag of the TX thread, as steps of one machine. */
module TciKeying {

  // The main loop runs commands, queued calls and the reporter; the service thread opens and
  // closes connections; the TX thread decides by itself, slot by slot, when the radio is keyed.
  // Every handler, and every slot of the TX thread, is one step.

  const MAX_CLIENTS := 8

  datatype Client = Client(inuse: bool, txOwner: bool)

  /** The transmitter as the server's operations see it: whether the TX runtime is up and there is a
      MOX button; the button, which is only the wish to transmit; any other wish (TUNE, pedal,
      two-tone, text); whether the TX thread has the radio keyed; and the exciter source. */
  datatype Radio = Radio(ready: bool, hasButton: bool, button: bool, other: bool, keyed: bool, sourceTci: bool)

  /** `byTrx` remembers that the MOX button came down by a `trx` command. */
  datatype State = State(cli: seq<Client>, trxClient: int, idles: nat, radio: Radio, byTrx: bool,
                         lastValid: bool, lastTrx: bool)

  /** What can happen. A slot of the TX thread brings the gate's answer of that moment: it may refuse
      (out of band, a protection trip) and allow again while the button stays down. */
  datatype Event =
    | Established
    | Closed(slot: nat)
    | TrxOn(slot: nat, tci: bool)
    | TrxOff(slot: nat)
    | UnkeyIdle
    | Reporter
    | Button(on: bool)
    | OtherKey(on: bool)
    | GateSlot(allowed: bool)

  // ---- the operations the server calls ----------------------------------------

  function Trx(r: Radio): bool { r.ready && r.keyed }

  predicate SetTrxFails(r: Radio) { !r.ready || !r.hasButton }

  function SetTrx(r: Radio, on: bool): Radio {
    if SetTrxFails(r) then r else r.(button := on)
  }

  function SetSource(r: Radio, tci: bool): Radio {
    if !r.ready then r else r.(sourceTci := tci)
  }

  // ---- one step -----------------------------------------------------------------

  /** The first free slot, or the table size. */
  function FreeSlot(cli: seq<Client>, from: nat): (i: nat)
    requires from <= |cli|
    ensures from <= i <= |cli|
    ensures i < |cli| ==> !cli[i].inuse
    decreases |cli| - from
  {
    if from == |cli| || !cli[from].inuse then from else FreeSlot(cli, from + 1)
  }

  predicate Connected(s: State, slot: int) {
    0 <= slot < |s.cli| && s.cli[slot].inuse
  }

  predicate OwnedByAnother(cli: seq<Client>, slot: nat) {
    exists i :: 0 <= i < |cli| && i != slot && cli[i].inuse && cli[i].txOwner
  }

  function SetOwner(cli: seq<Client>, slot: nat, owner: bool): seq<Client>
    requires slot < |cli|
  {
    cli[slot := cli[slot].(txOwner := owner)]
  }

  /** What `trx:0,true` does to the client table and to the radio. */
  function KeyedTable(s: State, slot: nat, tci: bool): seq<Client>
    requires slot < |s.cli|
  {
    if !tci || OwnedByAnother(s.cli, slot) then s.cli
    else SetOwner(s.cli, slot, !SetTrxFails(s.radio))
  }

  function KeyedRadio(s: State, slot: nat, tci: bool): Radio
    requires slot < |s.cli|
  {
    if !tci then SetTrx(s.radio, true)
    else if OwnedByAnother(s.cli, slot) then s.radio
    else if SetTrxFails(s.radio) then SetSource(s.radio, false)
    else SetTrx(SetSource(s.radio, true), true)
  }

  /** The radio after a command or a call; a key raised by a `trx` stays one while the button is down. */
  function WithRadio(s: State, r: Radio): State {
    s.(radio := r, byTrx := s.byTrx && r.button)
  }

  function Keyed(s: State, slot: nat, tci: bool): State
    requires slot < |s.cli|
  {
    var r := KeyedRadio(s, slot, tci);
    s.(cli := KeyedTable(s, slot, tci), radio := r, trxClient := slot,
       byTrx := s.byTrx || (!s.radio.button && r.button))
  }

  /** A reporter tick that sees the radio unkeyed, having seen it keyed or nothing before. */
  predicate SeesUnkeyed(s: State) {
    (!s.lastValid || s.lastTrx) && !Trx(s.radio)
  }

  /** The connection in this slot is the remembered keyer or feeds the exciter. */
  predicate Responsible(s: State, slot: nat) {
    Connected(s, slot) && (s.cli[slot].txOwner || s.trxClient == slot)
  }

  function Step(s: State, e: Event): State {
    match e
    case Established =>
      var i := FreeSlot(s.cli, 0);
      if i == |s.cli| then s else s.(cli := s.cli[i := Client(true, false)])
    case Closed(slot) =>
      if !Connected(s, slot) then s
      else if Responsible(s, slot) then
        s.(cli := s.cli[slot := Client(false, false)], trxClient := -1, idles := s.idles + 1)
      else s.(cli := s.cli[slot := s.cli[slot].(inuse := false)])
    case TrxOn(slot, tci) => if Connected(s, slot) then Keyed(s, slot, tci) else s
    case TrxOff(slot) =>
      if !Connected(s, slot) then s
      else
        var r := SetTrx(s.radio, false);
        WithRadio(s, if s.cli[slot].txOwner then SetSource(r, false) else r)
          .(cli := SetOwner(s.cli, slot, false), trxClient := -1)
    case UnkeyIdle =>
      if s.idles == 0 then s
      else WithRadio(s, SetSource(SetTrx(s.radio, false), false)).(idles := s.idles - 1)
    case Reporter =>
      s.(lastValid := true, lastTrx := Trx(s.radio), trxClient := if SeesUnkeyed(s) then -1 else s.trxClient)
    case Button(on) => WithRadio(s, SetTrx(s.radio, on))
    case OtherKey(on) => s.(radio := s.radio.(other := on))
    case GateSlot(allowed) => s.(radio := Slotted(s.radio, allowed))
  }

  /** One slot of the TX thread. */
  function Slotted(r: Radio, allowed: bool): Radio {
    r.(keyed := r.ready && (r.button || r.other) && allowed)
  }

  /** The state after the first `n` events. */
  function Run(s: State, es: seq<Event>, n: nat): State
    requires n <= |es|
  {
    if n == 0 then s else Step(Run(s, es, n - 1), es[n - 1])
  }

  /** The server as it starts, with a transmitter or without. */
  function Start(ready: bool, hasButton: bool): State {
    State(seq(MAX_CLIENTS, _ => Client(false, false)), -1, 0,
          Radio(ready, hasButton, false, false, false, false), false, false, false)
  }

  // ---- safety ---------------------------------------------------------------------

  ghost predicate OneOwner(cli: seq<Client>) {
    && (forall i :: 0 <= i < |cli| && cli[i].txOwner ==> cli[i].inuse)
    && (forall i, j :: 0 <= i < j < |cli| && cli[i].txOwner ==> !cli[j].txOwner)
  }

  ghost predicate HasOwner(cli: seq<Client>) {
    exists i :: 0 <= i < |cli| && cli[i].inuse && cli[i].txOwner
  }

  /** At most one owner, and only a connected one; the remembered keyer is connected; the exciter takes
      its audio from TCI only while a connected client feeds it or an unkey is on its way. */
  ghost predicate Safe(s: State) {
    && |s.cli| == MAX_CLIENTS && OneOwner(s.cli)
    && (s.trxClient == -1 || Connected(s, s.trxClient))
    && (s.radio.sourceTci ==> HasOwner(s.cli) || s.idles > 0)
    && RadioOk(s)
  }

  predicate RadioOk(s: State) {
    && (s.byTrx ==> s.radio.button)
    && (s.radio.button ==> !SetTrxFails(s.radio))
    && (s.radio.sourceTci || s.radio.keyed ==> s.radio.ready)
  }

  lemma OwnerSet(cli: seq<Client>, slot: nat, owner: bool)
    requires OneOwner(cli) && slot < |cli| && cli[slot].inuse
    requires owner ==> !OwnedByAnother(cli, slot)
    ensures OneOwner(SetOwner(cli, slot, owner))
    ensures owner ==> HasOwner(SetOwner(cli, slot, owner))
    ensures HasOwner(cli) && !cli[slot].txOwner ==> HasOwner(SetOwner(cli, slot, owner))
  {
    var cli' := SetOwner(cli, slot, owner);
    if owner {
      assert cli'[slot].inuse && cli'[slot].txOwner;
      assert forall i :: 0 <= i < |cli| && i != slot ==> !cli[i].txOwner;
    } else if HasOwner(cli) && !cli[slot].txOwner {
      assert cli' == cli;
    }
  }

  lemma KeyingIsSafe(s: State, slot: nat, tci: bool)
    requires Safe(s) && Connected(s, slot)
    ensures Safe(Keyed(s, slot, tci))
  {
    if tci && !OwnedByAnother(s.cli, slot) {
      OwnerSet(s.cli, slot, !SetTrxFails(s.radio));
    }
  }

  /** While the source is TCI and no unkey is queued, the owner that feeds it. */
  lemma OwnerKept(cli: seq<Client>, cli': seq<Client>)
    requires HasOwner(cli) && |cli'| == |cli|
    requires forall i :: 0 <= i < |cli| && cli[i].inuse && cli[i].txOwner ==> cli'[i] == cli[i]
    ensures HasOwner(cli')
  {
    var i :| 0 <= i < |cli| && cli[i].inuse && cli[i].txOwner;
    assert cli'[i].inuse && cli'[i].txOwner;
  }

  lemma SlotOpened(cli: seq<Client>, i: nat)
    requires OneOwner(cli) && i < |cli| && !cli[i].inuse
    ensures OneOwner(cli[i := Client(true, false)])
    ensures HasOwner(cli) ==> HasOwner(cli[i := Client(true, false)])
  {
    if HasOwner(cli) {
      OwnerKept(cli, cli[i := Client(true, false)]);
    }
  }

  lemma SlotClosed(cli: seq<Client>, i: nat)
    requires OneOwner(cli) && i < |cli|
    ensures OneOwner(cli[i := Client(false, false)])
    ensures HasOwner(cli) && !cli[i].txOwner ==> HasOwner(cli[i := Client(false, false)])
  {
    if HasOwner(cli) && !cli[i].txOwner {
      OwnerKept(cli, cli[i := Client(false, false)]);
    }
  }

  lemma OpeningIsSafe(s: State)
    requires Safe(s)
    ensures Safe(Step(s, Established))
  {
    var i := FreeSlot(s.cli, 0);
    if i < |s.cli| {
      SlotOpened(s.cli, i);
    }
  }

  lemma ClosingIsSafe(s: State, slot: nat)
    requires Safe(s)
    ensures Safe(Step(s, Closed(slot)))
  {
    if Connected(s, slot) {
      SlotClosed(s.cli, slot);
      assert Step(s, Closed(slot)).cli == s.cli[slot := Client(false, false)];
    }
  }

  lemma UnkeyingIsSafe(s: State, slot: nat)
    requires Safe(s)
    ensures Safe(Step(s, TrxOff(slot)))
  {
    if Connected(s, slot) {
      OwnerSet(s.cli, slot, false);
    }
  }

  lemma OtherStepIsSafe(s: State, e: Event)
    requires Safe(s) && (e.Reporter? || e.Button? || e.OtherKey? || e.GateSlot?)
    ensures Safe(Step(s, e))
  {
    assert Step(s, e).cli == s.cli;
  }

  lemma IdleIsSafe(s: State)
    requires Safe(s)
    ensures Safe(Step(s, UnkeyIdle))
  {
    assert Step(s, UnkeyIdle).cli == s.cli;
  }

  lemma StepIsSafe(s: State, e: Event)
    requires Safe(s)
    ensures Safe(Step(s, e))
  {
    match e
    case TrxOn(slot, tci) =>
      if Connected(s, slot) {
        KeyingIsSafe(s, slot, tci);
      }
    case Established => OpeningIsSafe(s);
    case Closed(slot) => ClosingIsSafe(s, slot);
    case TrxOff(slot) => UnkeyingIsSafe(s, slot);
    case UnkeyIdle => IdleIsSafe(s);
    case _ => OtherStepIsSafe(s, e);
  }

  // ---- what a command achieves -----------------------------------------------------------

  /** Nobody but `slot` feeds the exciter. */
  predicate FreeFor(s: State, slot: nat) {
    forall i :: 0 <= i < |s.cli| && i != slot ==> !s.cli[i].txOwner
  }

  /** A key-down from the microphone, or from TCI while no other client feeds the exciter, presses the button
      and remembers its sender, if there is a transmitter and a button to press. From TCI the exciter then
      listens to TCI, fed by that client alone; from the microphone source and owners stay as they are. */
  lemma KeyDownKeys(s: State, slot: nat, tci: bool)
    requires Safe(s) && Connected(s, slot) && s.radio.ready && s.radio.hasButton && (tci ==> FreeFor(s, slot))
    ensures var t := Step(s, TrxOn(slot, tci));
      && t.radio == s.radio.(button := true, sourceTci := tci || s.radio.sourceTci)
      && t.trxClient == slot && (!s.radio.button ==> t.byTrx)
      && |t.cli| == |s.cli| && (forall i :: 0 <= i < |s.cli| && i != slot ==> t.cli[i] == s.cli[i])
      && t.cli[slot] == Client(true, tci || s.cli[slot].txOwner)
  {}

  /** Without a transmitter or a button it does not: nothing is pressed, and from TCI the client is no owner
      and the source is the microphone. */
  lemma KeyDownFails(s: State, slot: nat, tci: bool)
    requires Safe(s) && Connected(s, slot) && !(s.radio.ready && s.radio.hasButton) && (tci ==> FreeFor(s, slot))
    ensures var t := Step(s, TrxOn(slot, tci));
      && !t.radio.button && t.radio.keyed == s.radio.keyed && t.trxClient == slot
      && (tci ==> !t.radio.sourceTci && !t.cli[slot].txOwner)
      && (!tci ==> t.radio == s.radio && t.cli == s.cli)
  {}

  /** A key-up takes the button up, forgets keyer and ownership, and gives the source back if the client fed
      the exciter; another client's ownership stays. */
  lemma KeyUpUnkeys(s: State, slot: nat)
    requires Safe(s) && Connected(s, slot)
    ensures var t := Step(s, TrxOff(slot));
      && !t.radio.button && t.trxClient == -1 && !t.byTrx
      && t.radio == s.radio.(button := false, sourceTci := s.radio.sourceTci && !s.cli[slot].txOwner)
      && |t.cli| == |s.cli| && (forall i :: 0 <= i < |s.cli| && i != slot ==> t.cli[i] == s.cli[i])
      && t.cli[slot] == Client(true, false)
  {}

  /** The TX thread keys exactly a radio that is asked to transmit and may. */
  lemma SlotKeys(s: State, allowed: bool)
    ensures var t := Step(s, GateSlot(allowed));
      && (Trx(t.radio) <==> allowed && s.radio.ready && (s.radio.button || s.radio.other))
      && t == s.(radio := s.radio.(keyed := t.radio.keyed))
  {}

  /** So an accepted key-down transmits from the next slot that is allowed to, in front of the asked source ... */
  lemma KeyDownTransmits(s: State, slot: nat, tci: bool)
    requires Safe(s) && Connected(s, slot) && s.radio.ready && s.radio.hasButton && (tci ==> FreeFor(s, slot))
    ensures var t := Step(Step(s, TrxOn(slot, tci)), GateSlot(true));
      Trx(t.radio) && (tci ==> t.radio.sourceTci && t.cli[slot].txOwner && FreeFor(t, slot))
  {
    KeyDownKeys(s, slot, tci);
  }

  /** ... and a key-up stops it in the next slot, whatever the gate says, unless something else wishes to transmit. */
  lemma KeyUpStops(s: State, slot: nat, allowed: bool)
    requires Safe(s) && Connected(s, slot) && !s.radio.other
    ensures !Trx(Step(Step(s, TrxOff(slot)), GateSlot(allowed)).radio)
  {
    KeyUpUnkeys(s, slot);
  }

  /** A queued unkey takes button and source back, whoever is connected, and is then gone from the queue. */
  lemma UnkeyRuns(s: State)
    requires Safe(s) && s.idles > 0
    ensures Step(s, UnkeyIdle)
         == s.(idles := s.idles - 1, byTrx := false, radio := s.radio.(button := false, sourceTci := false))
  {}

  /** A client that leaves frees its slot; if it fed the exciter or was the keyer, an unkey is queued and no keyer
      remembered, and the radio itself is not touched before that runs. */
  lemma LeavingIs(s: State, slot: nat)
    requires Safe(s) && Connected(s, slot)
    ensures Step(s, Closed(slot)) ==
      if s.cli[slot].txOwner || s.trxClient == slot
      then s.(cli := s.cli[slot := Client(false, false)], trxClient := -1, idles := s.idles + 1)
      else s.(cli := s.cli[slot := Client(false, false)])
  {}

  /** A reporter tick notes whether the radio transmits, and forgets the keyer if that is newly no. */
  lemma TickNotes(s: State)
    ensures var t, now := Step(s, Reporter), s.radio.ready && s.radio.keyed;
      && t == s.(lastValid := true, lastTrx := now, trxClient := t.trxClient)
      && t.trxClient == if !now && (s.lastTrx || !s.lastValid) then -1 else s.trxClient
  {}

  /** The operator's own button and any other wish to transmit leave clients, keyer and source alone. */
  lemma LocalKeys(s: State, on: bool)
    requires s.radio.ready && s.radio.hasButton
    ensures Step(s, Button(on)) == s.(radio := s.radio.(button := on), byTrx := s.byTrx && on)
    ensures Step(s, OtherKey(on)) == s.(radio := s.radio.(other := on))
  {}

  /** At the start nobody is connected, nothing is pressed, keyed or announced, and the source is the microphone. */
  lemma StartsUnkeyed(ready: bool, hasButton: bool)
    ensures var s := Start(ready, hasButton);
      && s.radio == Radio(ready, hasButton, false, false, false, false) && !Trx(s.radio)
      && |s.cli| == 8 && (forall i :: 0 <= i < 8 ==> !s.cli[i].inuse && !s.cli[i].txOwner)
      && s.trxClient == -1 && s.idles == 0 && !s.byTrx && !s.lastValid && !s.lastTrx
  {}

  /** A new connection takes the first free slot with a clean record and disturbs nothing; a full table refuses it. */
  lemma FirstFreeIsTaken(s: State, i: nat)
    requires i < |s.cli| && !s.cli[i].inuse && forall k :: 0 <= k < i ==> s.cli[k].inuse
    ensures Step(s, Established) == s.(cli := s.cli[i := Client(true, false)])
  {
    FreeSlotIs(s.cli, 0, i);
  }

  lemma FullTableRefuses(s: State)
    requires forall k :: 0 <= k < |s.cli| ==> s.cli[k].inuse
    ensures Step(s, Established) == s
  {}

  lemma {:induction false} FreeSlotIs(cli: seq<Client>, from: nat, i: nat)
    requires from <= i < |cli| && !cli[i].inuse && forall k :: from <= k < i ==> cli[k].inuse
    ensures FreeSlot(cli, from) == i
    decreases i - from
  {
    if from < i {
      FreeSlotIs(cli, from + 1, i);
    }
  }

  /** In every interleaving of commands, closes, queued unkeys, reporter ticks, TX slots and local keying. */
  lemma {:induction false} RunIsSafe(s: State, es: seq<Event>, n: nat)
    requires Safe(s) && n <= |es|
    ensures Safe(Run(s, es, n))
  {
    if n > 0 {
      RunIsSafe(s, es, n - 1);
      StepIsSafe(Run(s, es, n - 1), es[n - 1]);
    }
  }

  lemma EveryRunIsSafe(ready: bool, hasButton: bool, es: seq<Event>)
    ensures Safe(Run(Start(ready, hasButton), es, |es|))
  {
    RunIsSafe(Start(ready, hasButton), es, |es|);
  }

  // ---- who is remembered as the keyer --------------------------------------------------

  /** A `trx` key-down from a connected client, carried out or refused. */
  predicate Sends(s: State, e: Event) { e.TrxOn? && Connected(s, e.slot) }

  predicate Clears(s: State, e: Event) {
    match e
    case TrxOff(slot) => Connected(s, slot)
    case Closed(slot) => Responsible(s, slot)
    case Reporter => SeesUnkeyed(s)
    case _ => false
  }

  lemma KeyerStep(s: State, e: Event)
    ensures Step(s, e).trxClient == if Sends(s, e) then e.slot else if Clears(s, e) then -1 else s.trxClient
  {}

  predicate SendsAt(s: State, es: seq<Event>, i: nat)
    requires i < |es|
  {
    Sends(Run(s, es, i), es[i])
  }

  predicate ClearsAt(s: State, es: seq<Event>, i: nat)
    requires i < |es|
  {
    Clears(Run(s, es, i), es[i])
  }

  function KeyerAt(s: State, es: seq<Event>, n: nat): int
    requires n <= |es|
  {
    Run(s, es, n).trxClient
  }

  lemma KeyerNext(s: State, es: seq<Event>, n: nat)
    requires n < |es|
    ensures KeyerAt(s, es, n + 1) ==
      if SendsAt(s, es, n) then es[n].slot else if ClearsAt(s, es, n) then -1 else KeyerAt(s, es, n)
  {
    KeyerStep(Run(s, es, n), es[n]);
  }

  lemma {:induction false} KeyerStays(s: State, es: seq<Event>, a: nat, n: nat)
    requires a <= n <= |es| && forall i :: a <= i < n ==> !SendsAt(s, es, i)
    requires KeyerAt(s, es, a) == -1 || !ClearedWithin(s, es, a, n)
    ensures KeyerAt(s, es, n) == KeyerAt(s, es, a)
    decreases n
  {
    if a < n {
      KeyerStays(s, es, a, n - 1);
      KeyerNext(s, es, n - 1);
    }
  }

  ghost predicate ClearedWithin(s: State, es: seq<Event>, a: nat, n: nat)
    requires n <= |es|
  {
    exists i :: a <= i < n && ClearsAt(s, es, i)
  }

  lemma SenderStays(s: State, es: seq<Event>, k: nat, n: nat)
    requires k < n <= |es| && SendsAt(s, es, k) && !ClearedWithin(s, es, k + 1, n)
    requires forall i :: k < i < n ==> !SendsAt(s, es, i)
    ensures KeyerAt(s, es, n) == es[k].slot
  {
    KeyerNext(s, es, k);
    KeyerStays(s, es, k + 1, n);
  }

  lemma SenderCleared(s: State, es: seq<Event>, i: nat, n: nat)
    requires i < n <= |es| && ClearsAt(s, es, i)
    requires forall j :: i <= j < n ==> !SendsAt(s, es, j)
    ensures KeyerAt(s, es, n) == -1
  {
    KeyerNext(s, es, i);
    KeyerStays(s, es, i + 1, n);
  }

  /** The remembered keyer is the last client that sent a key-down, accepted or refused, exactly if
      nothing has cleared it since; otherwise there is none. */
  lemma KeyerIsTheLastSender(s: State, es: seq<Event>, k: nat, n: nat)
    requires k < n <= |es| && SendsAt(s, es, k)
    requires forall i :: k < i < n ==> !SendsAt(s, es, i)
    ensures KeyerAt(s, es, n) == if ClearedWithin(s, es, k + 1, n) then -1 else es[k].slot
  {
    if ClearedWithin(s, es, k + 1, n) {
      var i :| k + 1 <= i < n && ClearsAt(s, es, i);
      SenderCleared(s, es, i, n);
    } else {
      SenderStays(s, es, k, n);
    }
  }

  // ---- a key without a keyer ---------------------------------------------------------------

  /** The last key-down command, if any, was before the last reporter tick that saw the radio unkeyed. */
  predicate Forgotten(s: State, es: seq<Event>, n: nat)
    requires n <= |es|
  {
    n > 0 && StillForgotten(Run(s, es, n - 1), es[n - 1], Forgotten(s, es, n - 1))
  }

  predicate StillForgotten(s: State, e: Event, forgotten: bool) {
    !Sends(s, e) && ((e.Reporter? && SeesUnkeyed(s)) || forgotten)
  }

  predicate KeyerOk(s: State) { s.trxClient == -1 || Connected(s, s.trxClient) }

  predicate Answered(s: State, forgotten: bool) {
    s.byTrx && s.idles == 0 ==> (Connected(s, s.trxClient) <==> !forgotten)
  }

  /** A key-down remembers its sender, a reporter tick may forget it; all else that clears the keyer also
      queues an unkey or takes the button up, and an unkey that runs takes it up too. */
  lemma AnsweredStep(s: State, e: Event, next: State, forgotten: bool)
    requires next == Step(s, e) && RadioOk(s) && KeyerOk(s) && KeyerOk(next) && Answered(s, forgotten)
    ensures Answered(next, StillForgotten(s, e, forgotten))
  {
    KeyerStep(s, e);
  }

  /** With the button down by a `trx` command and no unkey queued, a connected client is remembered as
      the keyer if and only if no reporter tick since the last key-down command saw the radio newly
      unkeyed. */
  lemma {:induction false} KeyIsAnsweredFor(s0: State, es: seq<Event>, n: nat)
    requires Safe(s0) && !s0.byTrx && n <= |es|
    ensures AnsweredAt(s0, es, n)
  {
    if n > 0 {
      KeyIsAnsweredFor(s0, es, n - 1);
      AnsweredNext(s0, es, n - 1);
    }
  }

  predicate AnsweredAt(s0: State, es: seq<Event>, n: nat)
    requires n <= |es|
  {
    Answered(Run(s0, es, n), Forgotten(s0, es, n))
  }

  lemma AnsweredNext(s0: State, es: seq<Event>, n: nat)
    requires Safe(s0) && n < |es| && AnsweredAt(s0, es, n)
    ensures AnsweredAt(s0, es, n + 1)
  {
    var s, next, forgotten := Run(s0, es, n), Run(s0, es, n + 1), Forgotten(s0, es, n);
    assert Answered(next, StillForgotten(s, es[n], forgotten)) by {
      KeyerStaysOk(s0, es, n);
      KeyerStaysOk(s0, es, n + 1);
      RunNext(s0, es, n);
      AnsweredStep(s, es[n], next, forgotten);
    }
    assert Forgotten(s0, es, n + 1) == StillForgotten(s, es[n], forgotten);
  }

  lemma KeyerStaysOk(s0: State, es: seq<Event>, n: nat)
    requires Safe(s0) && n <= |es|
    ensures KeyerOk(Run(s0, es, n)) && RadioOk(Run(s0, es, n))
  {
    RunIsSafe(s0, es, n);
  }

  lemma RunNext(s: State, es: seq<Event>, n: nat)
    requires n < |es|
    ensures Run(s, es, n + 1) == Step(Run(s, es, n), es[n])
  {}

  /** The gate drops the key (the dial leaves the band) and gives it back while the button stays down,
      with a reporter tick in between: the radio transmits on a key raised by `trx`, the client that
      raised it has gone, and no unkey is queued. */
  lemma KeyForgotten()
    ensures
      var es := [Established, TrxOn(0, false), GateSlot(true), Reporter, GateSlot(false), Reporter, GateSlot(true), Closed(0)];
      var s := Run(Start(true, true), es, 8);
      s.byTrx && Trx(s.radio) && s.idles == 0 && s.trxClient == -1 && !Connected(s, 0)
  {
    var es := [Established, TrxOn(0, false), GateSlot(true), Reporter, GateSlot(false), Reporter, GateSlot(true), Closed(0)];
    var s0 := Start(true, true);
    var s1 := Step(s0, Established);
    assert s1.cli[0] == Client(true, false);
    var s2 := Step(s1, TrxOn(0, false));
    var s4 := Step(Step(s2, GateSlot(true)), Reporter);
    assert s4.lastTrx && s4.trxClient == 0;
    var s6 := Step(Step(s4, GateSlot(false)), Reporter);
    assert s6.radio.button && s6.trxClient == -1;
    assert Run(s0, es, 2) == s2 by {
      RunNext(s0, es, 0);
      RunNext(s0, es, 1);
    }
    assert Run(s0, es, 6) == s6 by {
      RunNext(s0, es, 2);
      RunNext(s0, es, 3);
      RunNext(s0, es, 4);
      RunNext(s0, es, 5);
    }
    RunNext(s0, es, 6);
    RunNext(s0, es, 7);
  }

  // ---- a departing keyer unkeys -----------------------------------------------------

  predicate RaisesKey(e: Event) {
    e.TrxOn? || (e.Button? && e.on)
  }

  predicate Quiet(s: State) { !s.radio.button && !s.radio.sourceTci }

  lemma StaysQuiet(s: State, e: Event)
    requires Quiet(s) && !RaisesKey(e)
    ensures Quiet(Step(s, e))
  {}

  /** Whatever else happens, as long as nobody keys again, the button stays up and the source mic. */
  lemma {:induction false} RunStaysQuiet(s: State, es: seq<Event>, n: nat)
    requires n <= |es| && Quiet(s) && forall e :: e in es ==> !RaisesKey(e)
    ensures Quiet(Run(s, es, n))
  {
    if n > 0 {
      RunStaysQuiet(s, es, n - 1);
      StaysQuiet(Run(s, es, n - 1), es[n - 1]);
    }
  }

  lemma UnkeyStaysQueued(s: State, e: Event)
    requires e != UnkeyIdle
    ensures Step(s, e).idles >= s.idles
  {}

  lemma {:induction false} UnkeysStayQueued(s: State, es: seq<Event>, n: nat)
    requires n <= |es| && UnkeyIdle !in es
    ensures Run(s, es, n).idles >= s.idles
  {
    if n > 0 {
      UnkeysStayQueued(s, es, n - 1);
      UnkeyStaysQueued(Run(s, es, n - 1), es[n - 1]);
    }
  }

  lemma UnkeyIsQuiet(s: State)
    requires Safe(s) && s.idles > 0
    ensures Quiet(Step(s, UnkeyIdle))
  {}

  /** When the remembered keyer, or the client that feeds the radio, disconnects, then whatever happens
      before the queued unkey runs, and whatever but a new key after it, leaves the button up, the
      exciter on the microphone, and the radio keyed, after a TX slot, only by something else. */
  lemma DepartureUnkeys(s: State, slot: nat, before: seq<Event>, after: seq<Event>, allowed: bool)
    requires Safe(s) && Responsible(s, slot)
    requires UnkeyIdle !in before && forall e :: e in after ==> !RaisesKey(e)
    ensures
      var mid := Run(Step(s, Closed(slot)), before, |before|);
      var end := Run(Step(mid, UnkeyIdle), after, |after|);
      && mid.idles > 0 && Quiet(end)
      && (Trx(Step(end, GateSlot(allowed)).radio) ==> end.radio.other)
  {
    var gone := Step(s, Closed(slot));
    var mid := Run(gone, before, |before|);
    StepIsSafe(s, Closed(slot));
    RunIsSafe(gone, before, |before|);
    UnkeysStayQueued(gone, before, |before|);
    UnkeyIsQuiet(mid);
    RunStaysQuiet(Step(mid, UnkeyIdle), after, |after|);
  }

  /** With no unkey queued, a departure leaves the button down if and only if the client neither feeds
      the radio nor is remembered as its keyer. */
  lemma DepartureEndsTheOver(s: State, slot: nat)
    requires Safe(s) && s.idles == 0 && s.radio.button && Connected(s, slot)
    ensures Step(Step(s, Closed(slot)), UnkeyIdle).radio.button <==> !Responsible(s, slot)
  {}

  /** So a departing client ends the over under another's TX audio exactly if it was the last to send a
      key-down: one that is refused is remembered all the same, and changes nothing else. */
  lemma RefusedClientEndsTheOver(s: State, slot: nat)
    requires Safe(s) && s.idles == 0 && s.radio.button && Connected(s, slot) && OwnedByAnother(s.cli, slot)
    ensures
      var refused := Step(s, TrxOn(slot, true));
      && refused == s.(trxClient := slot)
      && !Step(Step(refused, Closed(slot)), UnkeyIdle).radio.button
      && HasOwner(Step(Step(refused, Closed(slot)), UnkeyIdle).cli)
    ensures Step(Step(s, Closed(slot)), UnkeyIdle).radio.button <==> s.trxClient != slot
  {
    var refused := Step(s, TrxOn(slot, true));
    assert !s.cli[slot].txOwner by {
      var i :| 0 <= i < |s.cli| && i != slot && s.cli[i].inuse && s.cli[i].txOwner;
    }
    DepartureEndsTheOver(s, slot);
    StepIsSafe(s, TrxOn(slot, true));
    DepartureEndsTheOver(refused, slot);
    OwnerKept(s.cli, Step(Step(refused, Closed(slot)), UnkeyIdle).cli);
  }

  // ---- the server's own code ----------------------------------------------------------

  class TciServer {
    const cli: array<Client>
    var trxClient: int
    var idles: nat
    var radio: Radio
    var lastValid: bool
    var lastTrx: bool
    ghost var byTrx: bool

    ghost function Snapshot(): State
      reads this, cli
    {
      State(cli[..], trxClient, idles, radio, byTrx, lastValid, lastTrx)
    }

    constructor (ready: bool, hasButton: bool)
      ensures Snapshot() == Start(ready, hasButton) && fresh(cli)
    {
      cli := new Client[MAX_CLIENTS](_ => Client(false, false));
      trxClient, idles, lastValid, lastTrx, byTrx := -1, 0, false, false, false;
      radio := Radio(ready, hasButton, false, false, false, false);
      new;
      assert cli[..] == Start(ready, hasButton).cli;
    }

    /** A connection opens: it gets the first free slot, or none. */
    method OnEstablished() returns (idx: int)
      modifies cli
      ensures Snapshot() == Step(old(Snapshot()), Established)
      ensures idx == -1 || Connected(Snapshot(), idx)
    {
      idx := -1;
      var i := 0;
      while i < cli.Length
        invariant 0 <= i <= cli.Length && FreeSlot(cli[..], 0) == FreeSlot(cli[..], i)
      {
        if !cli[i].inuse {
          idx := i;
          break;
        }
        i := i + 1;
      }
      if idx >= 0 {
        cli[idx] := Client(true, false);
        assert cli[..] == old(cli[..])[idx := Client(true, false)];
      }
    }

    /** A connection is gone: if it keyed the radio or owns the TX audio, an unkey is queued. */
    method OnClosed(slot: int)
      modifies this`trxClient, this`idles, cli
      ensures slot < 0 ==> Snapshot() == old(Snapshot())
      ensures slot >= 0 ==> Snapshot() == Step(old(Snapshot()), Closed(slot))
    {
      if slot < 0 || slot >= cli.Length || !cli[slot].inuse { return; }
      ghost var was := cli[..];
      if cli[slot].txOwner || trxClient == slot {
        cli[slot] := cli[slot].(txOwner := false);
        trxClient := -1;
        idles := idles + 1;
      }
      cli[slot] := cli[slot].(inuse := false);
      assert cli[..] == was[slot := cli[slot]];
    }

    /** `trx:0,true[,tci]` from a connected client. */
    method OnTrxOn(slot: nat, srcTci: bool)
      requires Connected(Snapshot(), slot)
      modifies this`trxClient, this`radio, this`byTrx, cli
      ensures Snapshot() == Step(old(Snapshot()), TrxOn(slot, srcTci))
    {
      ghost var was, down := cli[..], radio.button;
      if srcTci {
        var busy := false;
        for i := 0 to cli.Length
          invariant busy <==> exists k :: 0 <= k < i && k != slot && was[k].inuse && was[k].txOwner
          invariant cli[..] == was
        {
          if cli[i].inuse && cli[i].txOwner && i != slot { busy := true; }
        }
        assert busy == OwnedByAnother(was, slot);
        if !busy {
          KeyFromTci(slot);
        }
      } else {
        var failed := CallSetTrx(true);
      }
      byTrx := byTrx || (!down && radio.button);
      trxClient := slot;
    }

    /** The owner's key: the source switches before the button, and both are undone if a call fails. */
    method KeyFromTci(slot: nat)
      requires Connected(Snapshot(), slot) && !OwnedByAnother(cli[..], slot)
      modifies this`radio, cli
      ensures cli[..] == KeyedTable(old(Snapshot()), slot, true)
      ensures radio == KeyedRadio(old(Snapshot()), slot, true)
    {
      ghost var was := cli[..];
      cli[slot] := cli[slot].(txOwner := true);
      var refused := CallSetSource(true);
      if !refused {
        refused := CallSetTrx(true);
      }
      if refused {
        cli[slot] := cli[slot].(txOwner := false);
        var _ := CallSetSource(false);
      }
      assert cli[..] == was[slot := cli[slot]];
    }

    /** `trx:0,false` from a connected client. */
    method OnTrxOff(slot: nat)
      requires Connected(Snapshot(), slot)
      modifies this`trxClient, this`radio, this`byTrx, cli
      ensures Snapshot() == Step(old(Snapshot()), TrxOff(slot))
    {
      ghost var table := cli[..];
      var _ := CallSetTrx(false);
      byTrx := byTrx && radio.button;
      var was := cli[slot].txOwner;
      cli[slot] := cli[slot].(txOwner := false);
      assert cli[..] == table[slot := cli[slot]];
      trxClient := -1;
      if was {
        var _ := CallSetSource(false);
      }
    }

    /** The queued call after the keying client vanished. */
    method TxOwnerLostIdle()
      modifies this`idles, this`radio, this`byTrx
      ensures Snapshot() == Step(old(Snapshot()), UnkeyIdle)
    {
      if idles == 0 { return; }
      idles := idles - 1;
      var _ := CallSetTrx(false);
      var _ := CallSetSource(false);
      byTrx := byTrx && radio.button;
    }

    /** The reporter forgets the keyer when it sees the radio unkeyed by any path. */
    method OnReporter()
      modifies this`trxClient, this`lastValid, this`lastTrx
      ensures Snapshot() == Step(old(Snapshot()), Reporter)
    {
      var trx := Trx(radio);
      if !lastValid || trx != lastTrx {
        if !trx { trxClient := -1; }
      }
      lastTrx := trx;
      lastValid := true;
    }

    /** The button is all a `trx` command moves. */
    method CallSetTrx(on: bool) returns (failed: bool)
      modifies this`radio
      ensures radio == SetTrx(old(radio), on) && failed == SetTrxFails(old(radio))
    {
      failed := !radio.ready || !radio.hasButton;
      if !failed {
        radio := radio.(button := on);
      }
    }

    method CallSetSource(tci: bool) returns (failed: bool)
      modifies this`radio
      ensures radio == SetSource(old(radio), tci) && failed == !old(radio).ready
    {
      failed := !radio.ready;
      if !failed {
        radio := radio.(sourceTci := tci);
      }
    }
  }
}
