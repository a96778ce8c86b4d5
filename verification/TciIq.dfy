/** One subscribed client's IQ stream: frames are gathered into blocks of 2048, and every
    block carries the centre frequency its frames belong to, squeezed into three words:
    the centre of its first frame, the frame at which the centre changed (0: it did not)
    and the centre from there on. */
module TciIq {
  import opened Arith
  import opened SpscRing

  const BLOCK_FRAMES := 2048
  const CHUNK := 1024
  const STAMP_EVENTS := 64

  /** A change of centre: the DDC-rate frame it takes effect at, and the new centre. */
  datatype Event = Event(at: real, hz: int)
  datatype Sample = Sample(i: real, q: real)
  datatype Stamp = Stamp(hz0: int, off: nat, hz1: int)

  /** What became of one frame: what was stored, the centre in force, and whether a change
      of centre was taken up just before it. */
  datatype Frame = Frame(s: Sample, centre: int, retuned: bool)

  function Oriented(s: Sample, conj: bool): Sample {
    if conj then Sample(s.i, -s.q) else s
  }

  // ---- labels: which centre is in force at which frame --------------------------------

  /** How far along the log of changes a frame at position `x` gets, from `seen` on. */
  function Reach(log: seq<Event>, seen: nat, x: real): (r: nat)
    requires seen <= |log|
    ensures seen <= r <= |log|
    decreases |log| - seen
  {
    if seen < |log| && log[seen].at <= x then Reach(log, seen + 1, x) else seen
  }

  function LabelAfter(log: seq<Event>, seen: nat, reach: nat, cur: int): int
    requires seen <= reach <= |log|
  {
    if reach > seen then log[reach - 1].hz else cur
  }

  function Position(base: nat, n: nat, count: nat): real
    requires count > 0
  {
    base as real + n as real * (CHUNK as real / count as real)
  }

  /** The log position after the first `n` of a chunk's `count` frames. */
  function SeenAt(log: seq<Event>, seen: nat, base: nat, count: nat, n: nat): (r: nat)
    requires seen <= |log| && n <= count
    ensures seen <= r <= |log|
  {
    if n == 0 then seen else Reach(log, SeenAt(log, seen, base, count, n - 1), Position(base, n - 1, count))
  }

  function CurAt(log: seq<Event>, seen: nat, cur: int, base: nat, count: nat, n: nat): int
    requires seen <= |log| && n <= count
  {
    LabelAfter(log, seen, SeenAt(log, seen, base, count, n), cur)
  }

  /** A chunk's first `n` frames, oriented and labelled. */
  function Labelled(log: seq<Event>, seen: nat, cur: int, src: seq<Sample>, conj: bool, base: nat, n: nat): (r: seq<Frame>)
    requires seen <= |log| && n <= |src|
    ensures |r| == n
  {
    if n == 0 then [] else
      Labelled(log, seen, cur, src, conj, base, n - 1)
      + [Frame(Oriented(src[n - 1], conj), CurAt(log, seen, cur, base, |src|, n),
               SeenAt(log, seen, base, |src|, n) > SeenAt(log, seen, base, |src|, n - 1))]
  }

  lemma {:induction false} ReachIsPast(log: seq<Event>, seen: nat, x: real)
    requires seen <= |log|
    ensures forall k :: seen <= k < Reach(log, seen, x) ==> log[k].at <= x
    ensures Reach(log, seen, x) < |log| ==> log[Reach(log, seen, x)].at > x
    decreases |log| - seen
  {
    if seen < |log| && log[seen].at <= x {
      ReachIsPast(log, seen + 1, x);
    }
  }

  /** One past the last of the changes `start` to `n` that comes no later than `x`. */
  function LastDue(log: seq<Event>, start: nat, x: real, n: nat): (r: nat)
    requires start <= n <= |log|
    ensures start <= r <= n
    ensures r > start ==> log[r - 1].at <= x
    ensures forall k :: r <= k < n ==> log[k].at > x
  {
    if n == start then start else if log[n - 1].at <= x then n else LastDue(log, start, x, n - 1)
  }

  /** No change that lies ahead of `x` was noted before one that does not. */
  ghost predicate InOrder(log: seq<Event>, start: nat, x: real) {
    forall j, k :: start <= j < k < |log| && log[k].at <= x ==> log[j].at <= x
  }

  /** The scan stops at the first change still ahead. So the change it has reached is the last one due
      exactly when no change ahead of the frame was noted before one that is not. */
  lemma LabelIsTheCentreInForce(log: seq<Event>, start: nat, x: real)
    requires start <= |log|
    ensures Reach(log, start, x) == LastDue(log, start, x, |log|) <==> InOrder(log, start, x)
  {
    ReachIsPast(log, start, x);
    var r, due := Reach(log, start, x), LastDue(log, start, x, |log|);
    var reached, last := if r > start then log[r - 1].at else x, if due > start then log[due - 1].at else x;
    assert reached <= x && last <= x;
  }

  ghost predicate Ascending(log: seq<Event>, start: nat) {
    forall j, k :: start <= j < k < |log| ==> log[j].at <= log[k].at
  }

  /** At every position at once exactly when the positions of the changes ascend. */
  lemma AlwaysInOrder(log: seq<Event>, start: nat)
    ensures (forall x :: InOrder(log, start, x)) <==> Ascending(log, start)
  {
    if forall x :: InOrder(log, start, x) {
      forall j, k | start <= j < k < |log| ensures log[j].at <= log[k].at {
        assert InOrder(log, start, log[k].at);
      }
    }
  }

  // ---- a block's stamp and its labels ----------------------------------------------------

  /** The centre a client reads off a stamp for frame `i`. */
  function Expand(st: Stamp, i: nat): int {
    if st.off == 0 || i < st.off then st.hz0 else st.hz1
  }

  /** Labels move only where a change was taken up. */
  ghost predicate Steady(fs: seq<Frame>) {
    forall i :: 0 < i < |fs| ==> !fs[i].retuned ==> fs[i].centre == fs[i - 1].centre
  }

  /** The stamp of the frames of one block, full or not: the first label, the first frame
      after it at which a change was taken up, and the last label. */
  ghost predicate Describes(st: Stamp, fs: seq<Frame>) {
    && |fs| > 0
    && st.hz0 == fs[0].centre
    && st.off < |fs|
    && (forall i :: 0 < i < (if st.off == 0 then |fs| else st.off) ==> !fs[i].retuned)
    && (st.off > 0 ==> fs[st.off].retuned && st.hz1 == fs[|fs| - 1].centre)
  }

  lemma {:induction false} LabelHolds(fs: seq<Frame>, from: nat, to: nat)
    requires Steady(fs) && from <= to < |fs|
    requires forall i :: from < i <= to ==> !fs[i].retuned
    ensures fs[to].centre == fs[from].centre
  {
    if from < to {
      LabelHolds(fs, from, to - 1);
    }
  }

  /** A stamp is right for every frame before its offset and for the block's last frame; it is
      right for the whole block exactly when the centre stayed put from the offset on. */
  lemma StampTellsTheLabels(st: Stamp, fs: seq<Frame>)
    requires Describes(st, fs) && Steady(fs)
    ensures Expand(st, |fs| - 1) == fs[|fs| - 1].centre
    ensures forall i :: 0 <= i < (if st.off == 0 then |fs| else st.off) ==> Expand(st, i) == fs[i].centre
    ensures (forall i :: 0 <= i < |fs| ==> Expand(st, i) == fs[i].centre) <==>
            (st.off > 0 ==> forall i :: st.off <= i < |fs| ==> fs[i].centre == fs[|fs| - 1].centre)
  {
    var quiet := if st.off == 0 then |fs| else st.off;
    forall i | 0 <= i < quiet ensures Expand(st, i) == fs[i].centre {
      LabelHolds(fs, 0, i);
    }
    if st.off > 0 {
      forall i | st.off <= i < |fs| ensures Expand(st, i) == st.hz1 {}
    }
  }

  /** A change was taken up at most once after the first frame. */
  ghost predicate AtMostOneChange(fs: seq<Frame>) {
    forall i, j :: 0 < i < |fs| && 0 < j < |fs| && fs[i].retuned && fs[j].retuned ==> i == j
  }

  /** One change after the first frame: the stamp gives back every label. */
  lemma OneChangeIsExact(st: Stamp, fs: seq<Frame>)
    requires Describes(st, fs) && Steady(fs)
    requires AtMostOneChange(fs)
    ensures forall i :: 0 <= i < |fs| ==> Expand(st, i) == fs[i].centre
  {
    StampTellsTheLabels(st, fs);
    if st.off > 0 {
      forall i | st.off <= i < |fs| ensures fs[i].centre == fs[|fs| - 1].centre {
        LabelHolds(fs, st.off, i);
        LabelHolds(fs, st.off, |fs| - 1);
      }
    }
  }

  // ---- the stamp events: a log seen through a ring of 64 -----------------------------------

  /** The ring holds the last 64 events of the log. */
  ghost predicate Snapshot(ev: seq<Event>, log: seq<Event>) {
    && |ev| == STAMP_EVENTS
    && forall k :: 0 <= k < |log| && |log| - STAMP_EVENTS <= k ==> ev[k % STAMP_EVENTS] == log[k]
  }

  lemma NotedEventIsLast(ev: seq<Event>, log: seq<Event>, e: Event)
    requires Snapshot(ev, log)
    ensures Wrap(|log|) % STAMP_EVENTS == |log| % STAMP_EVENTS
    ensures Snapshot(ev[|log| % STAMP_EVENTS := e], log + [e])
  {
    MaskOfWrap(|log|, STAMP_EVENTS);
    forall k | 0 <= k <= |log| && |log| + 1 - STAMP_EVENTS <= k
      ensures ev[|log| % STAMP_EVENTS := e][k % STAMP_EVENTS] == (log + [e])[k]
    {
      if k < |log| {
        SlotsDiffer(|log|, k, STAMP_EVENTS);
      }
    }
  }

  ghost predicate Changes(log: seq<Event>) {
    forall k :: 0 <= k < |log| ==> log[k].hz > 0 && (k > 0 ==> log[k].hz != log[k - 1].hz)
  }

  class StampLog {
    const ev: array<Event>
    var n: u32
    var lastHz: int
    ghost var log: seq<Event>

    ghost predicate Valid() reads this, ev {
      && ev.Length == STAMP_EVENTS && Snapshot(ev[..], log) && n == Wrap(|log|)
      && Changes(log) && lastHz == if log == [] then 0 else log[|log| - 1].hz
    }

    constructor ()
      ensures Valid() && fresh(ev) && log == []
    {
      ev := new Event[STAMP_EVENTS](_ => Event(0.0, 0));
      n, lastHz, log := 0, 0, [];
    }

    /** A positive centre other than the last one is noted, everything else ignored. */
    method Note(at: real, hz: int)
      requires Valid()
      modifies this, ev
      ensures Valid() && log == if hz > 0 && hz != old(lastHz) then old(log) + [Event(at, hz)] else old(log)
    {
      if hz > 0 && hz != lastHz {
        ghost var was := ev[..];
        NotedEventIsLast(was, log, Event(at, hz));
        WrapOfSum(|log|, 1);
        ev[n % STAMP_EVENTS] := Event(at, hz);
        assert ev[..] == was[|log| % STAMP_EVENTS := Event(at, hz)];
        log := log + [Event(at, hz)];
        n, lastHz := Wrap(n + 1), hz;
      }
    }
  }

  /** The ring, oldest slot first. */
  function Backlog(ev: seq<Event>, n: nat): (r: seq<Event>)
    requires |ev| == STAMP_EVENTS
    ensures |r| == STAMP_EVENTS
  {
    seq(STAMP_EVENTS, j requires 0 <= j < STAMP_EVENTS => ev[(n + j) % STAMP_EVENTS])
  }

  /** Where in the backlog a client picks up: at most 64 changes back, however far behind it is. */
  function PickUp(n: u32, seen: u32): (r: nat)
    ensures r <= STAMP_EVENTS
  {
    STAMP_EVENTS - Min(Wrap(n - seen), STAMP_EVENTS)
  }

  /** The wrapped count of a client at place `k` of the backlog. */
  function CountAt(n: u32, k: nat): u32 { Wrap(n + WORD - STAMP_EVENTS + k) }

  lemma Congruent(x: int, y: int, k: int)
    requires x == y + WORD * k
    ensures Wrap(x) == Wrap(y)
  {
    DivModUnique(x, y / WORD + k, y % WORD, WORD);
  }

  /** The stamp after the events before one frame. */
  function Restamped(st: Stamp, fill: nat, retuned: bool, cur: int): Stamp {
    if fill == 0 then st.(hz0 := cur)
    else if !retuned then st
    else Stamp(st.hz0, if st.off == 0 then fill else st.off, cur)
  }

  /** The slot at a client's count holds what is at its place of the backlog. */
  lemma Peek(ev: seq<Event>, n: u32, k: nat)
    requires |ev| == STAMP_EVENTS && k <= STAMP_EVENTS
    ensures CountAt(n, k) == n <==> k == STAMP_EVENTS
    ensures k < STAMP_EVENTS ==> ev[CountAt(n, k) % STAMP_EVENTS] == Backlog(ev, n)[k]
    ensures Wrap(CountAt(n, k) + 1) == CountAt(n, k + 1)
  {
    var m := n + WORD - STAMP_EVENTS + k;
    MaskOfWrap(m, STAMP_EVENTS);
    WrapOfSum(m, 1);
    DivModUnique(m, (n + k) / STAMP_EVENTS + WORD / STAMP_EVENTS - 1, (n + k) % STAMP_EVENTS, STAMP_EVENTS);
  }

  /** The inner loop: take up every change due at frame position `x`, from place `from` of the backlog on. */
  method TakeUp(ev: seq<Event>, n: u32, x: real, fill: nat, st0: Stamp, cur0: int, seen0: u32, ghost from: nat)
      returns (st: Stamp, cur: int, seen: u32)
    requires |ev| == STAMP_EVENTS && from <= STAMP_EVENTS && seen0 == CountAt(n, from)
    requires fill == 0 ==> st0.hz0 == cur0
    ensures var log := Backlog(ev, n);
      && seen == CountAt(n, Reach(log, from, x))
      && cur == LabelAfter(log, from, Reach(log, from, x), cur0)
      && st == Restamped(st0, fill, Reach(log, from, x) > from, cur)
  {
    st, cur, seen := st0, cur0, seen0;
    ghost var log, k := Backlog(ev, n), from;
    Peek(ev, n, k);
    while seen != n && ev[seen % STAMP_EVENTS].at <= x
      invariant from <= k <= STAMP_EVENTS && seen == CountAt(n, k)
      invariant seen != n <==> k < STAMP_EVENTS
      invariant k < STAMP_EVENTS ==> ev[seen % STAMP_EVENTS] == log[k]
      invariant Reach(log, from, x) == Reach(log, k, x)
      invariant cur == LabelAfter(log, from, k, cur0)
      invariant st == Restamped(st0, fill, k > from, cur)
      decreases STAMP_EVENTS - k
    {
      Peek(ev, n, k);
      cur := ev[seen % STAMP_EVENTS].hz;
      if fill == 0 {
        st := st.(hz0 := cur);
      } else {
        if st.off == 0 {
          st := st.(off := fill);
        }
        st := st.(hz1 := cur);
      }
      seen, k := Wrap(seen + 1), k + 1;
      Peek(ev, n, k);
    }
  }

  /** What a client's count says about its place, as the code finds it. */
  lemma PlaceOf(n: u32, seen: u32)
    ensures Wrap(n - seen) > STAMP_EVENTS ==> Wrap(n - STAMP_EVENTS) == CountAt(n, PickUp(n, seen))
    ensures Wrap(n - seen) <= STAMP_EVENTS ==> seen == CountAt(n, PickUp(n, seen))
  {
    Congruent(n + WORD - STAMP_EVENTS, n - STAMP_EVENTS, 1);
    Congruent(n + WORD - Wrap(n - seen), seen, 1 + (n - seen) / WORD);
  }

  // ---- blocks ----------------------------------------------------------------------------------

  const IQ_STREAM := 0
  const FLOAT32 := 3

  /** An IQ message: the 16 header words and its frames. */
  datatype Block = Block(head: seq<u32>, frames: seq<Sample>)

  /** Everything a block was made of: its frames, their stamp, its number since the stream's
      start, the layout of words 8-11 and the rate in force when it was sent. */
  datatype Record = Record(frames: seq<Frame>, st: Stamp, number: nat, layout: int, rate: u32)

  function Header(rate: u32, frames: nat, layout: int, count: u32, st: Stamp): (h: seq<u32>)
    ensures |h| == 16
  {
    [0, rate, FLOAT32, 0, 0, Wrap(frames * 2), IQ_STREAM, 2]
    + (if layout == 1 then [Wrap(st.hz0), Wrap(st.off), Wrap(st.hz1), 0]
       else if layout == 2 then [count, Wrap(st.hz0), Wrap(st.off), Wrap(st.hz1)]
       else [count, 0, 0, 0])
    + [0, 0, 0, 0]
  }

  /** What a client that knows the layout reads as the centre of frame `i`. */
  function ReadCentre(head: seq<u32>, layout: int, i: nat): u32
    requires |head| == 16 && (layout == 1 || layout == 2)
  {
    var w := if layout == 1 then 8 else 9;
    if head[w + 1] == 0 || i < head[w + 1] then head[w] else head[w + 2]
  }

  ghost predicate Carries(samples: seq<Sample>, fs: seq<Frame>) {
    |samples| >= |fs| && forall i :: 0 <= i < |fs| ==> samples[i] == fs[i].s
  }

  /** A queued block is the 2048 frames of its record, under a header that describes them. */
  ghost predicate BlockOk(b: Block, r: Record) {
    && |r.frames| == BLOCK_FRAMES == |b.frames|
    && Carries(b.frames, r.frames)
    && Steady(r.frames) && Describes(r.st, r.frames)
    && b.head == Header(r.rate, BLOCK_FRAMES, r.layout, Wrap(r.number), r.st)
  }

  /** A layout-1 or layout-2 client gets the centre (mod 2^32) of the block's first and last frame,
      and of every frame if a change was taken up at most once after the first. */
  lemma ClientReadsTheCentre(b: Block, r: Record, i: nat)
    requires BlockOk(b, r) && (r.layout == 1 || r.layout == 2) && i < BLOCK_FRAMES
    requires i == 0 || i == BLOCK_FRAMES - 1 || AtMostOneChange(r.frames)
    ensures ReadCentre(b.head, r.layout, i) == Wrap(r.frames[i].centre)
  {
    assert Wrap(r.st.off) == r.st.off;
    assert ReadCentre(b.head, r.layout, i) == Wrap(Expand(r.st, i));
    StampTellsTheLabels(r.st, r.frames);
    if i != 0 && i != BLOCK_FRAMES - 1 {
      OneChangeIsExact(r.st, r.frames);
    }
  }

  /** What any client finds in the other words: the rate, floats, twice as many numbers as frames, the kind of stream,
      two channels; and the block's number wherever the layout has a counter. */
  lemma BlockWords(b: Block, r: Record)
    requires BlockOk(b, r)
    ensures |b.head| == 16 && b.head[1] == r.rate && b.head[2] == 3 && b.head[5] == 4096 && b.head[6] == 0 && b.head[7] == 2
    ensures r.layout != 1 ==> b.head[8] == Wrap(r.number)
    ensures r.layout != 1 && r.layout != 2 ==> b.head[9] == b.head[10] == b.head[11] == 0
    ensures r.layout == 1 ==> b.head[11] == 0
    ensures forall k :: 0 <= k < 16 && k !in {1, 2, 5, 7, 8, 9, 10, 11} ==> b.head[k] == 0
  {}

  /** Frames whose centre changes from 7000 to 7010 at the second and on to 7020 at the third, and their
      block in layout 2. */
  function TwiceRetuned(z: Sample): seq<Frame> {
    seq(BLOCK_FRAMES, i => Frame(z, if i == 0 then 7000 else if i == 1 then 7010 else 7020, i == 1 || i == 2))
  }

  function TwiceRetunedBlock(z: Sample, rate: u32, number: nat): Block {
    Block(Header(rate, BLOCK_FRAMES, 2, Wrap(number), Stamp(7000, 1, 7020)), seq(BLOCK_FRAMES, i => z))
  }

  /** The frame between the two changes is read with the second. */
  lemma TwoChangesBlur(z: Sample, rate: u32, number: nat)
    ensures BlockOk(TwiceRetunedBlock(z, rate, number), Record(TwiceRetuned(z), Stamp(7000, 1, 7020), number, 2, rate))
    ensures TwiceRetuned(z)[1].centre == 7010 && ReadCentre(TwiceRetunedBlock(z, rate, number).head, 2, 1) == 7020
  {
    var fs := TwiceRetuned(z);
    assert fs[0].centre == 7000 && fs[1].retuned && fs[1].centre == 7010 && fs[BLOCK_FRAMES - 1].centre == 7020;
  }

  // ---- the stream ---------------------------------------------------------------------------------

  /** All frames a client was sent, in order. */
  function Flat(sent: seq<Record>): seq<Frame> {
    if sent == [] then [] else Flat(sent[..|sent| - 1]) + sent[|sent| - 1].frames
  }

  /** The frames in blocks sent and, after them, the frames waiting for their block to fill. */
  datatype History = History(sent: seq<Record>, part: seq<Frame>, start: nat)

  function Stream(h: History): seq<Frame> { Flat(h.sent) + h.part }

  ghost predicate SentOk(queue: seq<Block>, sent: seq<Record>, start: nat) {
    && |queue| == |sent| && start <= |sent|
    && (forall k :: 0 <= k < |sent| ==> BlockOk(queue[k], sent[k]))
    && (forall k :: start <= k < |sent| ==> sent[k].number == k - start)
  }

  /** The block being filled. */
  ghost predicate PartOk(part: seq<Frame>, blk: seq<Sample>, fill: nat, st: Stamp, cur: int) {
    && |part| == fill && Carries(blk, part) && Steady(part)
    && (fill > 0 ==> Describes(st, part) && part[fill - 1].centre == cur)
  }

  lemma PartGrows(part: seq<Frame>, blk: seq<Sample>, fill: nat, st: Stamp, cur: int, st': Stamp, f: Frame)
    requires PartOk(part, blk, fill, st, cur) && fill < |blk|
    requires !f.retuned ==> f.centre == cur
    requires st' == Restamped(if fill == 0 then Stamp(cur, 0, 0) else st, fill, f.retuned, f.centre)
    ensures PartOk(part + [f], blk[fill := f.s], fill + 1, st', f.centre)
  {}

  function Closed(h: History, st: Stamp, layout: int, rate: u32): History
    requires h.start <= |h.sent|
  {
    History(h.sent + [Record(h.part, st, |h.sent| - h.start, layout, rate)], [], h.start)
  }

  lemma BlockDone(queue: seq<Block>, h: History, blk: seq<Sample>, st: Stamp, cur: int, layout: int, rate: u32, count: u32)
    requires SentOk(queue, h.sent, h.start) && count == Wrap(|h.sent| - h.start)
    requires |blk| == BLOCK_FRAMES && PartOk(h.part, blk, BLOCK_FRAMES, st, cur)
    ensures var b, h' := Block(Header(rate, BLOCK_FRAMES, layout, count, st), blk), Closed(h, st, layout, rate);
      && SentOk(queue + [b], h'.sent, h'.start)
      && Wrap(count + 1) == Wrap(|h'.sent| - h'.start)
      && Stream(h') == Stream(h)
  {
    var r := Record(h.part, st, |h.sent| - h.start, layout, rate);
    assert BlockOk(Block(Header(rate, BLOCK_FRAMES, layout, count, st), blk), r);
    assert (h.sent + [r])[..|h.sent|] == h.sent;
    WrapOfSum(|h.sent| - h.start, 1);
  }

  lemma StreamGrows(h: History, f: Frame)
    ensures Stream(h.(part := h.part + [f])) == Stream(h) + [f]
  {
    assert Flat(h.sent) + (h.part + [f]) == Flat(h.sent) + h.part + [f];
  }

  /** A labelled stretch grows by one frame. */
  lemma NextLabel(log: seq<Event>, from: nat, cur: int, src: seq<Sample>, conj: bool, base: nat, i: nat, before: seq<Frame>)
    requires from <= |log| && i < |src|
    ensures
      var seen, x := SeenAt(log, from, base, |src|, i), Position(base, i, |src|);
      var f := Frame(Oriented(src[i], conj), CurAt(log, from, cur, base, |src|, i + 1), Reach(log, seen, x) > seen);
      && SeenAt(log, from, base, |src|, i + 1) == Reach(log, seen, x)
      && CurAt(log, from, cur, base, |src|, i + 1)
         == LabelAfter(log, seen, Reach(log, seen, x), CurAt(log, from, cur, base, |src|, i))
      && before + Labelled(log, from, cur, src, conj, base, i) + [f]
         == before + Labelled(log, from, cur, src, conj, base, i + 1)
  {}

  class IqClient {
    const blk: array<Sample>
    var fill: nat
    var stamp: Stamp
    var cur: int
    var seen: u32
    var count: u32
    var layout: int
    var rate: u32
    var queue: seq<Block>
    ghost var h: History

    ghost predicate Valid() reads this, blk {
      && blk.Length == BLOCK_FRAMES && fill < BLOCK_FRAMES
      && PartOk(h.part, blk[..], fill, stamp, cur)
      && SentOk(queue, h.sent, h.start)
      && count == Wrap(|h.sent| - h.start)
    }

    constructor (rate0: u32)
      ensures Valid() && fresh(blk) && Stream(h) == []
    {
      blk := new Sample[BLOCK_FRAMES](_ => Sample(0.0, 0.0));
      fill, stamp, cur, seen, count, layout := 0, Stamp(0, 0, 0), 0, 0, 0, 0;
      rate, queue := rate0, [];
      h := History([], [], 0);
    }

    /** `iq_start`: the block in progress is dropped, the packet counter restarts. */
    method Start(n: u32, dial: int)
      requires Valid()
      modifies this
      ensures Valid() && seen == n && cur == dial && count == 0
      ensures h == History(old(h).sent, [], |old(h).sent|) && queue == old(queue)
    {
      fill, count, seen := 0, 0, n;
      cur, stamp := dial, Stamp(dial, 0, 0);
      h := History(h.sent, [], |h.sent|);
    }

    /** `iq_samplerate`: one of the four rates drops the block in progress, and the counter runs on;
        anything else is ignored. */
    method SetRate(r: int)
      requires Valid()
      modifies this`rate, this`fill, this`h
      ensures Valid()
      ensures r in {48000, 96000, 192000, 384000} ==> rate == r && h == old(h).(part := [])
      ensures r !in {48000, 96000, 192000, 384000} ==> rate == old(rate) && fill == old(fill) && h == old(h)
    {
      if r == 48000 || r == 96000 || r == 192000 || r == 384000 {
        rate, fill := r, 0;
        h := h.(part := []);
      }
    }

    /** `iq_stamp`: the layout from the next block on. */
    method SetLayout(v: int)
      requires Valid()
      modifies this`layout
      ensures Valid() && layout == Clamp(v, 0, 2)
    {
      layout := Clamp(v, 0, 2);
    }

    /** The full block goes out under the next number. */
    method Emit()
      requires blk.Length == BLOCK_FRAMES == fill
      requires PartOk(h.part, blk[..], fill, stamp, cur)
      requires SentOk(queue, h.sent, h.start) && count == Wrap(|h.sent| - h.start)
      modifies this`fill, this`count, this`queue, this`h
      ensures Valid() && fill == 0 && Stream(h) == Stream(old(h))
      ensures old(queue) <= queue
    {
      BlockDone(queue, h, blk[..], stamp, cur, layout, rate, count);
      queue := queue + [Block(Header(rate, fill, layout, count, stamp), blk[..])];
      h := Closed(h, stamp, layout, rate);
      count, fill := Wrap(count + 1), 0;
    }

    /** The changes due before a frame at `x`, and the stamp with them. */
    method Relabel(ev: seq<Event>, n: u32, x: real, ghost from: nat)
      requires |ev| == STAMP_EVENTS && from <= STAMP_EVENTS && seen == CountAt(n, from)
      modifies this`stamp, this`cur, this`seen
      ensures var log := Backlog(ev, n);
        && seen == CountAt(n, Reach(log, from, x))
        && cur == LabelAfter(log, from, Reach(log, from, x), old(cur))
        && stamp == Restamped(if fill == 0 then Stamp(old(cur), 0, 0) else old(stamp), fill, Reach(log, from, x) > from, cur)
    {
      if fill == 0 {
        stamp := Stamp(cur, 0, 0);
      }
      stamp, cur, seen := TakeUp(ev, n, x, fill, stamp, cur, seen, from);
    }

    /** The client between the label of frame `f` and its samples; `st0` and `cur0` are from before. */
    ghost predicate Awaits(f: Frame, st0: Stamp, cur0: int) reads this, blk {
      && blk.Length == BLOCK_FRAMES && fill < BLOCK_FRAMES
      && PartOk(h.part, blk[..], fill, st0, cur0)
      && SentOk(queue, h.sent, h.start) && count == Wrap(|h.sent| - h.start)
      && cur == f.centre && (!f.retuned ==> f.centre == cur0)
      && stamp == Restamped(if fill == 0 then Stamp(cur0, 0, 0) else st0, fill, f.retuned, f.centre)
    }

    /** The frame into the block, and out with a full one. */
    method Append(s: Sample, ghost f: Frame, ghost st0: Stamp, ghost cur0: int)
      requires Awaits(f, st0, cur0) && f.s == s
      modifies this`fill, this`count, this`queue, this`h, blk
      ensures Valid() && Stream(h) == Stream(old(h)) + [f]
    {
      ghost var part0, blk0 := h.part, blk[..];
      blk[fill] := s;
      assert blk[..] == blk0[fill := s];
      PartGrows(part0, blk0, fill, st0, cur0, stamp, f);
      StreamGrows(h, f);
      h := h.(part := h.part + [f]);
      fill := fill + 1;
      if fill >= BLOCK_FRAMES {
        Emit();
      }
    }

    /** One frame: the changes due before it, its stamp, its samples. */
    method PutFrame(ev: seq<Event>, n: u32, x: real, s: Sample, ghost from: nat)
      requires Valid() && |ev| == STAMP_EVENTS && from <= STAMP_EVENTS && seen == CountAt(n, from)
      modifies this`fill, this`stamp, this`cur, this`seen, this`count, this`queue, this`h, blk
      ensures Valid()
      ensures var log := Backlog(ev, n);
        && seen == CountAt(n, Reach(log, from, x))
        && cur == LabelAfter(log, from, Reach(log, from, x), old(cur))
        && Stream(h) == Stream(old(h)) + [Frame(s, cur, Reach(log, from, x) > from)]
    {
      ghost var cur0, st0 := cur, stamp;
      Relabel(ev, n, x, from);
      Append(s, Frame(s, cur, Reach(Backlog(ev, n), from, x) > from), st0, cur0);
    }

    /** A client more than 64 changes behind loses the oldest of them. */
    method CatchUp(n: u32) returns (ghost from: nat)
      requires Valid()
      modifies this`seen
      ensures Valid() && from == PickUp(n, old(seen)) && seen == CountAt(n, from)
    {
      from := PickUp(n, seen);
      PlaceOf(n, seen);
      if Wrap(n - seen) > STAMP_EVENTS {
        seen := Wrap(n - STAMP_EVENTS);
      }
    }

    /** After the first `i` frames of a chunk whose labels come from `log`, from place `from` and label `cur0` on. */
    ghost predicate Within(log: seq<Event>, n: u32, from: nat, cur0: int, src: seq<Sample>, conj: bool, base: nat, i: nat,
                           before: seq<Frame>)
      requires from <= |log| && i <= |src|
      reads this, blk
    {
      && Valid() && seen == CountAt(n, SeenAt(log, from, base, |src|, i)) && cur == CurAt(log, from, cur0, base, |src|, i)
      && Stream(h) == before + Labelled(log, from, cur0, src, conj, base, i)
    }

    /** The loop body of Pump. */
    method PumpFrame(ev: seq<Event>, n: u32, src: seq<Sample>, conj: bool, base: nat, i: nat,
                     ghost from: nat, ghost cur0: int, ghost before: seq<Frame>)
      requires |ev| == STAMP_EVENTS && from <= STAMP_EVENTS && i < |src|
      requires Within(Backlog(ev, n), n, from, cur0, src, conj, base, i, before)
      modifies this`fill, this`stamp, this`cur, this`seen, this`count, this`queue, this`h, blk
      ensures Within(Backlog(ev, n), n, from, cur0, src, conj, base, i + 1, before)
    {
      ghost var log := Backlog(ev, n);
      var q := if conj then -src[i].q else src[i].q;
      PutFrame(ev, n, Position(base, i, |src|), Sample(src[i].i, q), SeenAt(log, from, base, |src|, i));
      NextLabel(log, from, cur0, src, conj, base, i, before);
    }

    /** One chunk of the pump: `src` is what the resampler made of 1024 frames from `base` on, and `ev`
        and `n` are the ring and its count as they were when the chunk was begun. */
    method Pump(ev: seq<Event>, n: u32, src: seq<Sample>, conj: bool, base: nat)
      requires Valid() && |ev| == STAMP_EVENTS
      modifies this`fill, this`stamp, this`cur, this`seen, this`count, this`queue, this`h, blk
      ensures Within(Backlog(ev, n), n, PickUp(n, old(seen)), old(cur), src, conj, base, |src|, Stream(old(h)))
    {
      ghost var cur0, before := cur, Stream(h);
      ghost var from := CatchUp(n);
      assert before + [] == before;
      var i := 0;
      while i < |src|
        invariant i <= |src| && Within(Backlog(ev, n), n, from, cur0, src, conj, base, i, before)
      {
        PumpFrame(ev, n, src, conj, base, i, from, cur0, before);
        i := i + 1;
      }
    }
  }
}
