/** The lock-free single-producer single-consumer rings (RX audio, IQ, PipeWire playback):
    free-running 32-bit indices, masked into a power-of-two buffer.

    The producer and the consumer are two processes whose loads, slot accesses and stores
    interleave freely; acquire/release stores are taken as atomic steps in one order. */
module SpscRing {
  import opened Arith

  const WORD := 0x1_0000_0000

  type u32 = x: int | 0 <= x < WORD

  function Wrap(x: int): u32 { x % WORD }

  /** A push in progress: its own head, the tail it loaded (and what that stood for), what
      it was given and how much of it is in the ring; `counted` once the total is updated. */
  datatype Producer<T> =
    | Resting
    | Pushing(h: u32, t: u32, t0: nat, src: seq<T>, i: nat, counted: bool)

  /** A read in progress: the tail, how many to take, what has been copied out; then the
      tail is released and the total still to be updated. */
  datatype Consumer<T> =
    | Waiting
    | Reading(t: u32, n: nat, chunk: seq<T>)
    | Released(n: nat)

  /** The shared memory and both processes. `accepted` and `taken` are all samples ever
      published and ever consumed. */
  datatype State<T> = State(buf: seq<T>, head: u32, tail: u32, prod: Producer<T>, cons: Consumer<T>,
                            inTotal: nat, outTotal: nat, accepted: seq<T>, taken: seq<T>)

  datatype Action<T> =
    | BeginPush(src: seq<T>)   // load both indices
    | Write                    // one slot, while the ring is not full
    | CountIn                  // add what was written to the running total
    | Publish                  // store the head
    | BeginRead(n: nat)        // load both indices and decide how many to take
    | Read                     // one slot
    | Release                  // store the tail
    | CountOut

  predicate Enabled<T>(s: State<T>, a: Action<T>) {
    var cap := |s.buf|;
    match a
    case BeginPush(_) => s.prod.Resting?
    case Write => s.prod.Pushing? && !s.prod.counted && s.prod.i < |s.prod.src| && Wrap(s.prod.h - s.prod.t) < cap
    case CountIn => s.prod.Pushing? && !s.prod.counted && (s.prod.i == |s.prod.src| || Wrap(s.prod.h - s.prod.t) >= cap)
    case Publish => s.prod.Pushing? && s.prod.counted
    case BeginRead(n) => s.cons.Waiting? && n <= Wrap(s.head - s.tail)
    case Read => s.cons.Reading? && |s.cons.chunk| < s.cons.n
    case Release => s.cons.Reading? && |s.cons.chunk| == s.cons.n
    case CountOut => s.cons.Released?
  }

  function Next<T>(s: State<T>, a: Action<T>): State<T>
    requires Enabled(s, a) && |s.buf| > 0
  {
    var cap := |s.buf|;
    match a
    case BeginPush(src) => s.(prod := Pushing(s.head, s.tail, |s.taken|, src, 0, false))
    case Write =>
      var p := s.prod;
      s.(buf := s.buf[p.h % cap := p.src[p.i]], prod := p.(h := Wrap(p.h + 1), i := p.i + 1))
    case CountIn =>
      s.(inTotal := s.inTotal + Wrap(s.prod.h - s.head), prod := s.prod.(counted := true))
    case Publish =>
      s.(head := s.prod.h, prod := Resting,
         accepted := if s.prod.i <= |s.prod.src| then s.accepted + s.prod.src[..s.prod.i] else s.accepted)
    case BeginRead(n) => s.(cons := Reading(s.tail, n, []))
    case Read =>
      var c := s.cons;
      s.(cons := c.(chunk := c.chunk + [s.buf[Wrap(c.t + |c.chunk|) % cap]]))
    case Release =>
      s.(tail := Wrap(s.cons.t + s.cons.n), cons := Released(s.cons.n), taken := s.taken + s.cons.chunk)
    case CountOut => s.(outTotal := s.outTotal + s.cons.n, cons := Waiting)
  }

  /** The buffer size is a power of two up to 2^31: it divides the index range and more. */
  ghost predicate Capacity(cap: nat) {
    0 < cap < WORD && WORD % cap == 0
  }

  /** Slot `k`, counted without bound, holds `x`. */
  ghost predicate Slot<T>(buf: seq<T>, k: nat, x: T) {
    |buf| > 0 && buf[k % |buf|] == x
  }

  /** The indices name the two ends of the unread samples, which are all in their slots. */
  ghost predicate RingOk<T>(buf: seq<T>, head: u32, tail: u32, accepted: seq<T>, taken: seq<T>) {
    && Capacity(|buf|)
    && head == Wrap(|accepted|) && tail == Wrap(|taken|)
    && |taken| <= |accepted| <= |taken| + |buf|
    && (forall k :: 0 <= k < |taken| ==> taken[k] == accepted[k])
    && (forall k :: |taken| <= k < |accepted| ==> Slot(buf, k, accepted[k]))
  }

  /** What a push in progress knows: `h` is the number of samples published so far. */
  ghost predicate ProducerOk<T>(buf: seq<T>, p: Producer<T>, h: nat, t: nat) {
    p.Pushing? ==>
      && p.t0 <= t && p.t == Wrap(p.t0) && p.h == Wrap(h + p.i)
      && p.i <= |p.src| && h + p.i <= p.t0 + |buf|
      && forall j :: 0 <= j < p.i ==> Slot(buf, h + j, p.src[j])
  }

  /** What a read in progress knows: its copies are the oldest unread samples. */
  ghost predicate ConsumerOk<T>(c: Consumer<T>, accepted: seq<T>, t: nat) {
    c.Reading? ==>
      && c.t == Wrap(t) && |c.chunk| <= c.n && t + c.n <= |accepted|
      && forall j :: 0 <= j < |c.chunk| ==> c.chunk[j] == accepted[t + j]
  }

  ghost predicate TotalsOk<T>(s: State<T>) {
    && s.inTotal == |s.accepted| + (if s.prod.Pushing? && s.prod.counted then s.prod.i else 0)
    && s.outTotal + (if s.cons.Released? then s.cons.n else 0) == |s.taken|
  }

  ghost predicate Inv<T>(s: State<T>) {
    && RingOk(s.buf, s.head, s.tail, s.accepted, s.taken)
    && ProducerOk(s.buf, s.prod, |s.accepted|, |s.taken|)
    && ConsumerOk(s.cons, s.accepted, |s.taken|)
    && TotalsOk(s)
  }

  // ---- modular arithmetic ------------------------------------------------------

  /** A masked wrapped index is the masked unbounded index. */
  lemma MaskOfWrap(x: nat, cap: nat)
    requires Capacity(cap)
    ensures Wrap(x) % cap == x % cap
  {
    var k, q, r := WORD / cap, x / WORD, x % WORD;
    var e := r / cap;
    assert WORD * q == (cap * k) * q == cap * (k * q);
    assert cap * (k * q + e) == cap * (k * q) + cap * e;
    DivModUnique(x, k * q + e, r % cap, cap);
  }

  lemma WrapOfDifference(a: nat, b: nat)
    requires 0 <= a - b < WORD
    ensures Wrap(Wrap(a) - Wrap(b)) == a - b
  {}

  lemma WrapOfSum(a: nat, b: nat)
    ensures Wrap(Wrap(a) + b) == Wrap(a + b)
  {}

  /** Indices less than a buffer apart have different slots. */
  lemma SlotsDiffer(a: nat, b: nat, cap: nat)
    requires 0 < cap && b < a < b + cap
    ensures a % cap != b % cap
  {
    var d := a / cap - b / cap;
    assert cap * d == cap * (a / cap) - cap * (b / cap);
    MultipleIsFar(cap, d);
  }

  // ---- every step ----------------------------------------------------------------

  /** The slot a write goes to is the next one, and no unread sample is in it. */
  lemma WriteSlot<T>(s: State<T>)
    requires Inv(s) && Enabled(s, Write)
    ensures s.prod.h % |s.buf| == (|s.accepted| + s.prod.i) % |s.buf|
    ensures |s.accepted| + s.prod.i < s.prod.t0 + |s.buf|
  {
    MaskOfWrap(|s.accepted| + s.prod.i, |s.buf|);
    WrapOfDifference(|s.accepted| + s.prod.i, s.prod.t0);
  }

  /** Writing slot `n` leaves every slot less than a buffer behind it. */
  lemma OtherSlotsStay<T>(buf: seq<T>, n: nat, x: T, k: nat, y: T)
    requires |buf| > 0 && k < n < k + |buf| && Slot(buf, k, y)
    ensures Slot(buf[n % |buf| := x], k, y)
  {
    SlotsDiffer(n, k, |buf|);
  }

  lemma WriteKeepsInv<T>(s: State<T>)
    requires Inv(s) && Enabled(s, Write)
    ensures Inv(Next(s, Write))
  {
    var s' := Next(s, Write);
    var p, n := s.prod, |s.accepted| + s.prod.i;
    WriteSlot(s);
    assert s'.buf == s.buf[n % |s.buf| := p.src[p.i]];
    WrapOfSum(n, 1);
    forall k | |s.taken| <= k < |s.accepted| ensures Slot(s'.buf, k, s.accepted[k]) {
      OtherSlotsStay(s.buf, n, p.src[p.i], k, s.accepted[k]);
    }
    forall j | 0 <= j < p.i + 1 ensures Slot(s'.buf, |s.accepted| + j, p.src[j]) {
      if j < p.i {
        OtherSlotsStay(s.buf, n, p.src[p.i], |s.accepted| + j, p.src[j]);
      }
    }
    assert ProducerOk(s'.buf, s'.prod, |s.accepted|, |s.taken|);
  }

  lemma PublishKeepsInv<T>(s: State<T>)
    requires Inv(s) && Enabled(s, Publish)
    ensures Inv(Next(s, Publish))
  {
    var s' := Next(s, Publish);
    var h := |s.accepted|;
    forall k | |s.taken| <= k < h + s.prod.i ensures Slot(s'.buf, k, s'.accepted[k]) {
      if k >= h {
        assert Slot(s.buf, h + (k - h), s.prod.src[k - h]);
      }
    }
    assert RingOk(s'.buf, s'.head, s'.tail, s'.accepted, s'.taken);
  }

  lemma CountInKeepsInv<T>(s: State<T>)
    requires Inv(s) && Enabled(s, CountIn)
    ensures Inv(Next(s, CountIn))
  {
    WrapOfDifference(|s.accepted| + s.prod.i, |s.accepted|);
  }

  lemma ReadKeepsInv<T>(s: State<T>)
    requires Inv(s) && Enabled(s, Read)
    ensures Inv(Next(s, Read))
  {
    var k := |s.taken| + |s.cons.chunk|;
    MaskOfWrap(k, |s.buf|);
    WrapOfSum(|s.taken|, |s.cons.chunk|);
    assert Slot(s.buf, k, s.accepted[k]);
  }

  lemma ReleaseKeepsInv<T>(s: State<T>)
    requires Inv(s) && Enabled(s, Release)
    ensures Inv(Next(s, Release))
  {
    var s' := Next(s, Release);
    WrapOfSum(|s.taken|, s.cons.n);
    forall k | 0 <= k < |s'.taken| ensures s'.taken[k] == s.accepted[k] {
      if k >= |s.taken| {
        assert s.cons.chunk[k - |s.taken|] == s.accepted[|s.taken| + (k - |s.taken|)];
      }
    }
    assert RingOk(s'.buf, s'.head, s'.tail, s'.accepted, s'.taken);
  }

  lemma NextKeepsInv<T>(s: State<T>, a: Action<T>)
    requires Inv(s) && Enabled(s, a)
    ensures Inv(Next(s, a))
  {
    match a
    case Write => WriteKeepsInv(s);
    case CountIn => CountInKeepsInv(s);
    case Publish => PublishKeepsInv(s);
    case Read => ReadKeepsInv(s);
    case Release => ReleaseKeepsInv(s);
    case BeginRead(n) => WrapOfDifference(|s.accepted|, |s.taken|);
    case _ =>
  }

  /** A schedule of the two processes, each step enabled when it is taken. */
  ghost predicate Execution<T>(states: seq<State<T>>, actions: seq<Action<T>>) {
    && |states| == |actions| + 1
    && Empty(states[0])
    && forall i :: 0 <= i < |actions| ==>
         |states[i].buf| > 0 && Enabled(states[i], actions[i]) && states[i + 1] == Next(states[i], actions[i])
  }

  /** The ring at start-up: any contents, both indices 0. */
  ghost predicate Empty<T>(s: State<T>) {
    && Capacity(|s.buf|)
    && s == State(s.buf, 0, 0, Resting, Waiting, 0, 0, [], [])
  }

  lemma {:induction false} InvAlong<T>(states: seq<State<T>>, actions: seq<Action<T>>, i: nat)
    requires Execution(states, actions) && i < |states|
    ensures Inv(states[i])
  {
    if i > 0 {
      InvAlong(states, actions, i - 1);
      NextKeepsInv(states[i - 1], actions[i - 1]);
    }
  }

  /** In every execution, at every moment and across any number of index wraps: the consumer
      has exactly a prefix of the accepted samples, in order; the occupancy read off the two
      indices is right and never above the capacity; every unread sample is still in its slot;
      and when both processes are at rest the totals differ by the unread samples. */
  lemma RingIsFaithful<T>(states: seq<State<T>>, actions: seq<Action<T>>, i: nat)
    requires Execution(states, actions) && i < |states|
    ensures
      var s := states[i];
      && s.taken <= s.accepted
      && Wrap(s.head - s.tail) == |s.accepted| - |s.taken| <= |s.buf|
      && (forall k :: |s.taken| <= k < |s.accepted| ==> Slot(s.buf, k, s.accepted[k]))
      && (s.cons.Reading? ==> s.taken + s.cons.chunk <= s.accepted)
      && (s.prod.Resting? && s.cons.Waiting? ==> s.inTotal == s.outTotal + Wrap(s.head - s.tail))
  {
    InvAlong(states, actions, i);
    var s := states[i];
    WrapOfDifference(|s.accepted|, |s.taken|);
  }

  /** A push that is done has put in all it was given, or has filled the ring as it saw it:
      samples are only ever dropped from the end of a push, and only when there is no room. */
  lemma DropsOnlyWhenFull<T>(s: State<T>)
    requires Inv(s) && Enabled(s, CountIn)
    ensures s.prod.i == |s.prod.src| || |s.accepted| + s.prod.i == s.prod.t0 + |s.buf|
  {
    WrapOfDifference(|s.accepted| + s.prod.i, s.prod.t0);
  }

  // ---- nobody is ever stuck ----------------------------------------------------------

  /** A push begun goes on as long as it has samples and saw room, and is then counted and published. */
  lemma PusherMayGoOn<T>(s: State<T>, src: seq<T>)
    requires Inv(s)
    ensures Enabled(s, BeginPush(src)) <==> s.prod.Resting?
    ensures s.prod.Pushing? && !s.prod.counted ==>
      var room := |s.accepted| + s.prod.i < s.prod.t0 + |s.buf|;
      && (Enabled(s, Write) <==> s.prod.i < |s.prod.src| && room)
      && (Enabled(s, CountIn) <==> s.prod.i == |s.prod.src| || !room)
    ensures s.prod.Pushing? && s.prod.counted ==> Enabled(s, Publish)
  {
    if s.prod.Pushing? {
      SeenRoom(s.buf, s.prod, |s.accepted|, |s.taken|);
    }
  }

  lemma SeenRoom<T>(buf: seq<T>, p: Producer<T>, h: nat, t: nat)
    requires ProducerOk(buf, p, h, t) && p.Pushing? && t <= h && Capacity(|buf|)
    ensures Wrap(p.h - p.t) == h + p.i - p.t0
  {
    WrapOfDifference(h + p.i, p.t0);
  }

  /** A read may take any number of the samples published and no more, and then goes on to its end. */
  lemma ReaderMayGoOn<T>(s: State<T>, n: nat)
    requires Inv(s)
    ensures s.cons.Waiting? ==> (Enabled(s, BeginRead(n)) <==> |s.taken| + n <= |s.accepted|)
    ensures s.cons.Reading? ==>
      && (Enabled(s, Read) <==> |s.cons.chunk| < s.cons.n)
      && (Enabled(s, Release) <==> |s.cons.chunk| == s.cons.n)
    ensures s.cons.Released? ==> Enabled(s, CountOut)
  {
    WrapOfDifference(|s.accepted|, |s.taken|);
  }

  ghost predicate MayWrite<T>(s: State<T>, k: nat) {
    && Inv(s) && s.prod.Pushing? && !s.prod.counted
    && s.prod.i + k <= |s.prod.src| && |s.accepted| + s.prod.i + k <= s.prod.t0 + |s.buf|
  }

  /** After `k` more samples of a push, the consumer resting. */
  ghost function Written<T>(s: State<T>, k: nat): (r: State<T>)
    requires MayWrite(s, k)
    ensures MayWrite(r, 0) && |r.buf| == |s.buf|
    ensures r == s.(buf := r.buf, prod := r.prod) && r.prod == s.prod.(h := r.prod.h, i := s.prod.i + k)
  {
    if k == 0 then s
    else
      var p := Written(s, k - 1);
      PusherMayGoOn(p, []);
      NextKeepsInv(p, Write);
      Next(p, Write)
  }

  /** A push undisturbed by reads puts in as many of its samples as there is room for, from the first on. */
  lemma PushAlone<T>(s: State<T>, src: seq<T>)
    requires Inv(s) && s.prod.Resting?
    ensures var n := Min(|src|, |s.taken| + |s.buf| - |s.accepted|);
      && n >= 0 && MayWrite(Next(s, BeginPush(src)), n)
      && var w := Written(Next(s, BeginPush(src)), n);
      && Enabled(w, CountIn) && Enabled(Next(w, CountIn), Publish)
      && var r := Next(Next(w, CountIn), Publish);
      && Inv(r) && r.prod.Resting? && r.accepted == s.accepted + src[..n] && r.inTotal == s.inTotal + n
      && r.taken == s.taken && r.tail == s.tail && r.cons == s.cons
  {
    var n, b := Min(|src|, |s.taken| + |s.buf| - |s.accepted|), Next(s, BeginPush(src));
    NextKeepsInv(s, BeginPush(src));
    var w := Written(b, n);
    PusherMayGoOn(w, []);
    NextKeepsInv(w, CountIn);
    var c := Next(w, CountIn);
    NextKeepsInv(c, Publish);
  }

  ghost predicate MayRead<T>(s: State<T>, k: nat) {
    Inv(s) && s.cons.Reading? && |s.cons.chunk| + k <= s.cons.n
  }

  ghost function Copied<T>(s: State<T>, k: nat): (r: State<T>)
    requires MayRead(s, k)
    ensures MayRead(r, 0) && r == s.(cons := r.cons) && r.cons == s.cons.(chunk := r.cons.chunk)
    ensures |r.cons.chunk| == |s.cons.chunk| + k
  {
    if k == 0 then s
    else
      var p := Copied(s, k - 1);
      NextKeepsInv(p, Read);
      Next(p, Read)
  }

  /** A read of up to as many samples as are unread gets exactly the oldest of them and gives up their slots. */
  lemma ReadAlone<T>(s: State<T>, n: nat)
    requires Inv(s) && s.cons.Waiting? && |s.taken| + n <= |s.accepted|
    ensures Enabled(s, BeginRead(n)) && MayRead(Next(s, BeginRead(n)), n)
    ensures var c := Copied(Next(s, BeginRead(n)), n);
      && Enabled(c, Release) && Enabled(Next(c, Release), CountOut)
      && var r := Next(Next(c, Release), CountOut);
      && Inv(r) && r.cons.Waiting? && r.taken == s.taken + s.accepted[|s.taken|..|s.taken| + n]
      && r.outTotal == s.outTotal + n && r.accepted == s.accepted && r.head == s.head && r.prod == s.prod
  {
    ReaderMayGoOn(s, n);
    NextKeepsInv(s, BeginRead(n));
    var c := Copied(Next(s, BeginRead(n)), n);
    NextKeepsInv(c, Release);
    var d := Next(c, Release);
    NextKeepsInv(d, CountOut);
    assert c.cons.chunk == s.accepted[|s.taken|..|s.taken| + n];
  }

  // ---- the loops, run on their own -------------------------------------------------

  /** The samples of `data` from index `from` on are in their slots. */
  ghost predicate Stored<T>(buf: seq<T>, from: nat, data: seq<T>) {
    forall k :: from <= k < |data| ==> Slot(buf, k, data[k])
  }

  lemma StoreNext<T>(buf: seq<T>, from: nat, data: seq<T>, x: T)
    requires Stored(buf, from, data) && from <= |data| < from + |buf|
    ensures Stored(buf[|data| % |buf| := x], from, data + [x])
  {
    forall k | from <= k < |data| ensures Slot(buf[|data| % |buf| := x], k, (data + [x])[k]) {
      OtherSlotsStay(buf, |data|, x, k, data[k]);
    }
  }

  /** One turn of the push loop, with everything it needs about the masked index. */
  lemma PushTurn<T>(buf: seq<T>, from: nat, data: seq<T>, h: u32, t: u32, x: T)
    requires Capacity(|buf|) && Stored(buf, from, data) && from <= |data| <= from + |buf|
    requires h == Wrap(|data|) && t == Wrap(from)
    ensures Wrap(h - t) == |data| - from
    ensures |data| < from + |buf| ==>
      Stored(buf[h % |buf| := x], from, data + [x]) && Wrap(h + 1) == Wrap(|data| + 1)
  {
    WrapOfDifference(|data|, from);
    MaskOfWrap(|data|, |buf|);
    WrapOfSum(|data|, 1);
    if |data| < from + |buf| {
      StoreNext(buf, from, data, x);
    }
  }

  method Store<T>(buf: array<T>, k: nat, x: T)
    requires k < buf.Length
    modifies buf
    ensures buf[..] == old(buf[..])[k := x]
  {
    buf[k] := x;
  }

  /** The push loop: sample by sample until the ring is full. */
  method Fill<T>(buf: array<T>, h0: u32, t: u32, src: seq<T>, ghost from: nat, ghost data0: seq<T>)
      returns (h: u32)
    requires Capacity(buf.Length) && Stored(buf[..], from, data0)
    requires from <= |data0| <= from + buf.Length && h0 == Wrap(|data0|) && t == Wrap(from)
    modifies buf
    ensures var n := Min(|src|, from + buf.Length - |data0|);
      Stored(buf[..], from, data0 + src[..n]) && h == Wrap(|data0| + n)
  {
    var i := 0;
    h := h0;
    ghost var data := data0;
    while i < |src|
      invariant i <= |src| && data == data0 + src[..i]
      invariant from <= |data| <= from + buf.Length && h == Wrap(|data|)
      invariant Stored(buf[..], from, data)
    {
      ghost var was := buf[..];
      PushTurn(was, from, data, h, t, src[i]);
      if Wrap(h - t) >= buf.Length {
        break;
      }
      Store(buf, h % buf.Length, src[i]);
      assert data + [src[i]] == data0 + src[..i + 1];
      data := data + [src[i]];
      h, i := Wrap(h + 1), i + 1;
    }
  }

  /** The copy loop: `n` samples from the tail on. */
  method CopyOut<T>(buf: array<T>, t: u32, n: nat, ghost from: nat, ghost data: seq<T>) returns (chunk: seq<T>)
    requires Capacity(buf.Length) && Stored(buf[..], from, data) && t == Wrap(from) && from + n <= |data|
    ensures chunk == data[from..from + n]
  {
    chunk := [];
    while |chunk| < n
      invariant |chunk| <= n && chunk == data[from..from + |chunk|]
    {
      ghost var k := from + |chunk|;
      MaskOfWrap(k, buf.Length);
      WrapOfSum(from, |chunk|);
      assert Slot(buf[..], k, data[k]);
      chunk := chunk + [buf[Wrap(t + |chunk|) % buf.Length]];
    }
  }

  /** What a finished push and a finished read do to the ring. */
  lemma Filled<T>(buf0: seq<T>, buf: seq<T>, head: u32, h: u32, tail: u32, accepted: seq<T>, taken: seq<T>, more: seq<T>)
    requires RingOk(buf0, head, tail, accepted, taken) && |buf| == |buf0|
    requires Stored(buf, |taken|, accepted + more) && h == Wrap(|accepted| + |more|)
    requires |accepted| + |more| <= |taken| + |buf|
    ensures RingOk(buf, h, tail, accepted + more, taken) && Wrap(h - head) == |more|
  {
    WrapOfDifference(|accepted| + |more|, |accepted|);
  }

  lemma Emptied<T>(buf: seq<T>, head: u32, tail: u32, accepted: seq<T>, taken: seq<T>, n: nat)
    requires RingOk(buf, head, tail, accepted, taken) && |taken| + n <= |accepted|
    ensures RingOk(buf, head, Wrap(tail + n), accepted, taken + accepted[|taken|..|taken| + n])
  {
    WrapOfSum(|taken|, n);
  }

  class Buffer<T> {
    const buf: array<T>
    var head: u32
    var tail: u32
    ghost var accepted: seq<T>
    ghost var taken: seq<T>

    ghost predicate Valid() reads this, buf {
      RingOk(buf[..], head, tail, accepted, taken)
    }

    constructor (capacity: nat, zero: T)
      requires Capacity(capacity)
      ensures Valid() && fresh(buf) && buf.Length == capacity && accepted == [] && taken == []
    {
      buf := new T[capacity](_ => zero);
      head, tail := 0, 0;
      accepted, taken := [], [];
    }

    /** Pushing sample by sample until the ring is full: what fits is kept, the rest is
        dropped; the return value is what the IQ side adds to its running total. */
    method Push(src: seq<T>) returns (added: u32)
      requires Valid()
      modifies this`head, this`accepted, buf
      ensures Valid()
      ensures added == Min(|src|, buf.Length - (|old(accepted)| - |taken|))
      ensures accepted == old(accepted) + src[..added]
    {
      ghost var was := buf[..];
      var h := Fill(buf, head, tail, src, |taken|, accepted);
      ghost var more := src[..Min(|src|, |taken| + buf.Length - |accepted|)];
      Filled(was, buf[..], head, h, tail, accepted, taken, more);
      added := Wrap(h - head);
      head, accepted := h, accepted + more;
    }

    /** Reading up to `want` samples: the copies are the oldest unread ones. */
    method Take(want: nat) returns (chunk: seq<T>)
      requires Valid()
      modifies this`tail, this`taken
      ensures Valid()
      ensures |chunk| == Min(want, |accepted| - |old(taken)|)
      ensures chunk == accepted[|old(taken)|..|old(taken)| + |chunk|]
      ensures taken == old(taken) + chunk
    {
      WrapOfDifference(|accepted|, |taken|);
      var n := Min(want, Wrap(head - tail));
      chunk := CopyOut(buf, tail, n, |taken|, accepted);
      Emptied(buf[..], head, tail, accepted, taken, n);
      tail, taken := Wrap(tail + n), taken + chunk;
    }

    /** A playback callback of `frames` frames: queued ones first, silence after. */
    method Play(frames: nat, silence: T) returns (dst: seq<T>)
      requires Valid()
      modifies this`tail, this`taken
      ensures Valid() && |dst| == frames
      ensures taken == old(taken) + dst[..Min(frames, |accepted| - |old(taken)|)]
      ensures forall i :: Min(frames, |accepted| - |old(taken)|) <= i < frames ==> dst[i] == silence
    {
      dst := Take(frames);
      ghost var played := dst;
      while |dst| < frames
        invariant |played| <= |dst| <= frames && dst[..|played|] == played
        invariant forall i :: |played| <= i < |dst| ==> dst[i] == silence
      {
        dst := dst + [silence];
      }
    }
  }
}
