/** A subscribed client over a whole run: chunks pumped and centres changed in any order. */
module TciIqRun {
  import opened Arith
  import opened SpscRing
  import opened TciIq

  // ---- the ring's backlog and the log -------------------------------------------------------

  /** Where in the log of `n` changes a client that has seen `seen` picks up. Beyond a whole turn of
      the 32-bit counter the backlog reads short, and more changes are skipped. */
  function Resume(seen: nat, n: nat): (r: int)
    ensures r <= n <= r + STAMP_EVENTS
    ensures seen <= n ==> r >= seen
  {
    Congruent(Wrap(n) - Wrap(seen), n - seen, seen / WORD - n / WORD);
    n - (STAMP_EVENTS - PickUp(Wrap(n), Wrap(seen)))
  }

  /** A client's turn takes up nothing from before its start exactly when the ring was looked at no
      earlier than the start. */
  lemma TurnIsRight(seen: nat, n: nat)
    ensures Resume(seen, n) >= seen <==> seen <= n
  {}

  lemma {:induction false} AllDue(log: seq<Event>, from: nat, x: real)
    requires from <= |log| && forall k :: from <= k < |log| ==> log[k].at <= x
    ensures Reach(log, from, x) == |log|
    decreases |log| - from
  {
    if from < |log| {
      AllDue(log, from + 1, x);
    }
  }

  /** A client that started behind the look taken before its turn is taken for one far behind: it is
      led through the whole ring, and with every slot due its frame gets the ring's newest centre in
      place of the dial it started with. In a ring never written to that is no centre at all. */
  lemma StartedLate(ev: seq<Event>, n: u32, ahead: nat, dial: int, x: real)
    requires |ev| == STAMP_EVENTS && forall k :: 0 <= k < STAMP_EVENTS ==> ev[k].at <= x
    requires 1 <= ahead <= WORD - STAMP_EVENTS
    ensures PickUp(n, Wrap(n + ahead)) == 0
    ensures var log := Backlog(ev, n);
      LabelAfter(log, 0, Reach(log, 0, x), dial) == ev[(n + STAMP_EVENTS - 1) % STAMP_EVENTS].hz
  {
    Congruent(n - Wrap(n + ahead), WORD - ahead, (n + ahead) / WORD - 1);
    AllDue(Backlog(ev, n), 0, x);
  }

  lemma BacklogAt(ev: seq<Event>, log: seq<Event>, k: nat)
    requires Snapshot(ev, log) && k < |log| <= k + STAMP_EVENTS
    ensures Backlog(ev, Wrap(|log|))[k + STAMP_EVENTS - |log|] == log[k]
  {
    var n, j := Wrap(|log|), k + STAMP_EVENTS - |log|;
    DivModUnique(n + j, k / STAMP_EVENTS + 1 - |log| / WORD * (WORD / STAMP_EVENTS), k % STAMP_EVENTS, STAMP_EVENTS);
  }

  /** From where a client picks up, the ring in order is the log. */
  lemma BacklogIsLog(ev: seq<Event>, log: seq<Event>, seen: nat)
    requires Snapshot(ev, log) && seen <= |log|
    ensures Backlog(ev, Wrap(|log|))[PickUp(Wrap(|log|), Wrap(seen))..] == log[Resume(seen, |log|)..]
  {
    var r := Resume(seen, |log|);
    var back, rest := Backlog(ev, Wrap(|log|))[STAMP_EVENTS + r - |log|..], log[r..];
    forall i | 0 <= i < |rest| ensures back[i] == rest[i] {
      BacklogAt(ev, log, r + i);
    }
  }

  /** A place in the backlog and the place in the log it stands for have the same wrapped count. */
  lemma SameCount(n: nat, place: int, k: nat)
    requires place - n == k - STAMP_EVENTS
    ensures CountAt(Wrap(n), k) == Wrap(place)
  {
    Congruent(Wrap(n) + WORD - STAMP_EVENTS + k, place, 1 - n / WORD);
  }

  lemma {:induction false} ReachFrom(a: seq<Event>, s: nat, b: seq<Event>, t: nat, x: real)
    requires s <= |a| && t <= |b| && a[s..] == b[t..]
    ensures Reach(a, s, x) - s == Reach(b, t, x) - t
    decreases |a| - s
  {
    assert |a| - s == |b| - t;
    if s < |a| {
      assert a[s] == a[s..][0] == b[t];
      assert a[s + 1..] == a[s..][1..] == b[t + 1..];
      ReachFrom(a, s + 1, b, t + 1, x);
    }
  }

  lemma TailFrom(a: seq<Event>, s: nat, b: seq<Event>, t: nat, d: nat)
    requires s <= |a| && t <= |b| && a[s..] == b[t..] && s + d <= |a|
    ensures t + d <= |b| && a[s + d..] == b[t + d..]
  {
    assert |a[s..]| == |b[t..]|;
    assert a[s + d..] == a[s..][d..] && b[t + d..] == b[t..][d..];
  }

  lemma LabelFrom(a: seq<Event>, s: nat, b: seq<Event>, t: nat, d: nat, cur: int)
    requires s <= |a| && t <= |b| && a[s..] == b[t..] && s + d <= |a|
    ensures t + d <= |b| && LabelAfter(a, s, s + d, cur) == LabelAfter(b, t, t + d, cur)
  {
    TailFrom(a, s, b, t, d);
    if d > 0 {
      assert a[s..][d - 1] == b[t..][d - 1];
    }
  }

  lemma {:induction false} SeenFrom(a: seq<Event>, s: nat, b: seq<Event>, t: nat, base: nat, count: nat, n: nat)
    requires s <= |a| && t <= |b| && a[s..] == b[t..] && n <= count
    ensures SeenAt(a, s, base, count, n) - s == SeenAt(b, t, base, count, n) - t
  {
    if n > 0 {
      SeenFrom(a, s, b, t, base, count, n - 1);
      var d := SeenAt(a, s, base, count, n - 1) - s;
      TailFrom(a, s, b, t, d);
      ReachFrom(a, s + d, b, t + d, Position(base, n - 1, count));
    }
  }

  lemma CurFrom(a: seq<Event>, s: nat, b: seq<Event>, t: nat, cur: int, base: nat, count: nat, n: nat)
    requires s <= |a| && t <= |b| && a[s..] == b[t..] && n <= count
    ensures CurAt(a, s, cur, base, count, n) == CurAt(b, t, cur, base, count, n)
  {
    SeenFrom(a, s, b, t, base, count, n);
    LabelFrom(a, s, b, t, SeenAt(a, s, base, count, n) - s, cur);
  }

  /** Labels depend only on the changes not yet taken up. */
  lemma {:induction false} LabelledFrom(a: seq<Event>, s: nat, b: seq<Event>, t: nat, cur: int, src: seq<Sample>,
                                        conj: bool, base: nat, n: nat)
    requires s <= |a| && t <= |b| && a[s..] == b[t..] && n <= |src|
    ensures Labelled(a, s, cur, src, conj, base, n) == Labelled(b, t, cur, src, conj, base, n)
  {
    if n > 0 {
      LabelledFrom(a, s, b, t, cur, src, conj, base, n - 1);
      SeenFrom(a, s, b, t, base, |src|, n - 1);
      SeenFrom(a, s, b, t, base, |src|, n);
      CurFrom(a, s, b, t, cur, base, |src|, n);
    }
  }

  // ---- whole runs ---------------------------------------------------------------------------

  /** What reaches the client: a change of centre, or what the resampler made of 1024 more frames. */
  datatype Input =
    | Change(at: real, hz: int)
    | Chunk(src: seq<Sample>)

  /** The log of changes, how much of it the client has taken up, its label, the position of the next
      frame and all its frames so far. */
  datatype Feed = Feed(log: seq<Event>, seen: nat, cur: int, base: nat, stream: seq<Frame>)

  function LastHz(log: seq<Event>): int { if log == [] then 0 else log[|log| - 1].hz }

  function Noted(log: seq<Event>, at: real, hz: int): (r: seq<Event>)
    ensures log <= r
  {
    if hz > 0 && hz != LastHz(log) then log + [Event(at, hz)] else log
  }

  function Fed(f: Feed, i: Input, conj: bool): (r: Feed)
    requires f.seen <= |f.log|
    ensures r.seen <= |r.log|
  {
    match i
    case Change(at, hz) => f.(log := Noted(f.log, at, hz))
    case Chunk(src) =>
      var from := Resume(f.seen, |f.log|);
      Feed(f.log, SeenAt(f.log, from, f.base, |src|, |src|), CurAt(f.log, from, f.cur, f.base, |src|, |src|), f.base + CHUNK,
           f.stream + Labelled(f.log, from, f.cur, src, conj, f.base, |src|))
  }

  function FedTo(f: Feed, inputs: seq<Input>, n: nat, conj: bool): (r: Feed)
    requires f.seen <= |f.log| && n <= |inputs|
    ensures r.seen <= |r.log|
  {
    if n == 0 then f else Fed(FedTo(f, inputs, n - 1, conj), inputs[n - 1], conj)
  }

  /** The client and the log of changes are where the feed says. */
  ghost predicate Follows(c: IqClient, l: StampLog, base: nat, f: Feed)
    reads c, c.blk, l, l.ev
  {
    && c.Valid() && l.Valid() && f.seen <= |f.log| && base == f.base
    && l.log == f.log && c.seen == Wrap(f.seen) && c.cur == f.cur && Stream(c.h) == f.stream
  }

  /** What a chunk does by the backlog is what it does by the log. */
  lemma PumpedIs(ev: seq<Event>, f: Feed, src: seq<Sample>, conj: bool)
    requires Snapshot(ev, f.log) && f.seen <= |f.log|
    ensures
      var n := Wrap(|f.log|);
      var back, from, r := Backlog(ev, n), PickUp(n, Wrap(f.seen)), Fed(f, Chunk(src), conj);
      && r.stream == f.stream + Labelled(back, from, f.cur, src, conj, f.base, |src|)
      && Wrap(r.seen) == CountAt(n, SeenAt(back, from, f.base, |src|, |src|))
      && r.cur == CurAt(back, from, f.cur, f.base, |src|, |src|)
  {
    var n, r := Wrap(|f.log|), Resume(f.seen, |f.log|);
    var back, from := Backlog(ev, n), PickUp(n, Wrap(f.seen));
    BacklogIsLog(ev, f.log, f.seen);
    LabelledFrom(back, from, f.log, r, f.cur, src, conj, f.base, |src|);
    SeenFrom(back, from, f.log, r, f.base, |src|, |src|);
    CurFrom(back, from, f.log, r, f.cur, f.base, |src|, |src|);
    SameCount(|f.log|, SeenAt(f.log, r, f.base, |src|, |src|), SeenAt(back, from, f.base, |src|, |src|));
  }

  /** One input to the server. */
  method Take(c: IqClient, l: StampLog, i: Input, conj: bool, base: nat, ghost f: Feed) returns (base': nat)
    requires Follows(c, l, base, f)
    modifies c, c.blk, l, l.ev
    ensures Follows(c, l, base', Fed(f, i, conj))
  {
    base' := base;
    match i
    case Change(at, hz) =>
      l.Note(at, hz);
    case Chunk(src) =>
      c.Pump(l.ev[..], l.n, src, conj, base);
      PumpedIs(l.ev[..], f, src, conj);
      base' := base + CHUNK;
  }

  /** In any run of inputs the client follows the feed. */
  method Serve(c: IqClient, l: StampLog, inputs: seq<Input>, conj: bool, base: nat, ghost f: Feed) returns (base': nat)
    requires Follows(c, l, base, f)
    modifies c, c.blk, l, l.ev
    ensures Follows(c, l, base', FedTo(f, inputs, |inputs|, conj))
    ensures Delivered(c.queue, c.h, FedTo(f, inputs, |inputs|, conj).stream)
  {
    base' := base;
    ghost var g := f;
    for i := 0 to |inputs|
      invariant g.seen <= |g.log| && Follows(c, l, base', g) && g == FedTo(f, inputs, i, conj)
    {
      base' := Take(c, l, inputs[i], conj, base', g);
      g := Fed(g, inputs[i], conj);
    }
  }

  lemma {:induction false} FlatAt(sent: seq<Record>, k: nat, j: nat)
    requires forall m :: 0 <= m < |sent| ==> |sent[m].frames| == BLOCK_FRAMES
    ensures |Flat(sent)| == BLOCK_FRAMES * |sent|
    ensures k < |sent| && j < BLOCK_FRAMES ==>
      BLOCK_FRAMES * k + j < |Flat(sent)| && Flat(sent)[BLOCK_FRAMES * k + j] == sent[k].frames[j]
  {
    if sent != [] {
      FlatAt(sent[..|sent| - 1], k, j);
    }
  }

  /** What the queue and the history of a client that follows a feed are. */
  ghost predicate Delivered(queue: seq<Block>, h: History, stream: seq<Frame>) {
    SentOk(queue, h.sent, h.start) && Stream(h) == stream
  }

  /** So the blocks sent and the frames waiting are exactly the labelled frames of all chunks, in order: the
      `j`-th frame of block `k` is frame `2048 * k + j` of the stream, under a header that describes its block. */
  lemma BlocksAreTheFeed(queue: seq<Block>, h: History, stream: seq<Frame>, k: nat, j: nat)
    requires Delivered(queue, h, stream) && k < |queue| && j < BLOCK_FRAMES
    ensures |h.sent| == |queue| && BlockOk(queue[k], h.sent[k])
    ensures |stream| == BLOCK_FRAMES * |queue| + |h.part| && BLOCK_FRAMES * k + j < |stream|
    ensures h.sent[k].frames[j] == stream[BLOCK_FRAMES * k + j]
    ensures queue[k].frames[j] == stream[BLOCK_FRAMES * k + j].s
  {
    assert BlockOk(queue[k], h.sent[k]);
    forall m | 0 <= m < |h.sent| ensures |h.sent[m].frames| == BLOCK_FRAMES {
      assert BlockOk(queue[m], h.sent[m]);
    }
    FlatAt(h.sent, k, j);
  }

  // ---- what the stream is -----------------------------------------------------------------

  /** Every sample the first `n` inputs brought. */
  function Raw(inputs: seq<Input>, n: nat): seq<Sample>
    requires n <= |inputs|
  {
    if n == 0 then []
    else Raw(inputs, n - 1) + if inputs[n - 1].Chunk? then inputs[n - 1].src else []
  }

  lemma {:induction false} LabelledAt(log: seq<Event>, seen: nat, cur: int, src: seq<Sample>, conj: bool, base: nat, n: nat, i: nat)
    requires seen <= |log| && i < n <= |src|
    ensures Labelled(log, seen, cur, src, conj, base, n)[i]
         == Frame(Oriented(src[i], conj), CurAt(log, seen, cur, base, |src|, i + 1),
                  SeenAt(log, seen, base, |src|, i + 1) > SeenAt(log, seen, base, |src|, i))
  {
    if i < n - 1 {
      LabelledAt(log, seen, cur, src, conj, base, n - 1, i);
    }
  }

  /** The frame made of a sample: conjugation changes the sign of Q and nothing else. */
  lemma FrameIsConjugated(log: seq<Event>, seen: nat, cur: int, src: seq<Sample>, conj: bool, base: nat, i: nat)
    requires seen <= |log| && i < |src|
    ensures var z := Labelled(log, seen, cur, src, conj, base, |src|)[i].s;
      z.i == src[i].i && z.q == if conj then -src[i].q else src[i].q
  {
    LabelledAt(log, seen, cur, src, conj, base, |src|, i);
  }

  lemma ChunkSurvives(f: Feed, src: seq<Sample>, conj: bool, i: nat)
    requires f.seen <= |f.log| && i < |src|
    ensures var r := Fed(f, Chunk(src), conj);
      && |r.stream| == |f.stream| + |src|
      && r.stream[|f.stream| + i].s.i == src[i].i
      && r.stream[|f.stream| + i].s.q == if conj then -src[i].q else src[i].q
  {
    FrameIsConjugated(f.log, Resume(f.seen, |f.log|), f.cur, src, conj, f.base, i);
  }

  lemma {:induction false} EverySampleHasAFrame(f: Feed, inputs: seq<Input>, n: nat, conj: bool)
    requires f.seen <= |f.log| && n <= |inputs|
    ensures |FedTo(f, inputs, n, conj).stream| == |f.stream| + |Raw(inputs, n)|
    ensures f.stream <= FedTo(f, inputs, n, conj).stream
  {
    if n > 0 {
      EverySampleHasAFrame(f, inputs, n - 1, conj);
    }
  }

  /** Whatever the centre does, no sample is lost, repeated or moved; I is sent as it came, and Q with its sign
      changed under conjugation. */
  lemma {:induction false} SamplesSurvive(f: Feed, inputs: seq<Input>, n: nat, conj: bool, k: nat)
    requires f.seen <= |f.log| && n <= |inputs| && k < |Raw(inputs, n)|
    ensures var stream := FedTo(f, inputs, n, conj).stream;
      && f.stream <= stream && |stream| == |f.stream| + |Raw(inputs, n)|
      && stream[|f.stream| + k].s.i == Raw(inputs, n)[k].i
      && stream[|f.stream| + k].s.q == if conj then -Raw(inputs, n)[k].q else Raw(inputs, n)[k].q
  {
    var p, before := FedTo(f, inputs, n - 1, conj), |Raw(inputs, n - 1)|;
    EverySampleHasAFrame(f, inputs, n, conj);
    EverySampleHasAFrame(f, inputs, n - 1, conj);
    if k < before {
      SamplesSurvive(f, inputs, n - 1, conj, k);
    } else {
      ChunkSurvives(p, inputs[n - 1].src, conj, k - before);
    }
  }

  // ---- what the labels are ----------------------------------------------------------------

  /** Every change the client has taken up since it had seen `start` of them is behind the next frame, and
      its label is the last of them. */
  ghost predicate Caught(f: Feed, start: nat, dial: int) {
    && start <= f.seen <= |f.log|
    && (forall k :: start <= k < f.seen ==> f.log[k].at <= f.base as real)
    && f.cur == LabelAfter(f.log, start, f.seen, dial)
  }

  /** The label the scan gives a frame at `x` by the changes after the first `start`. */
  function ScannedAt(log: seq<Event>, start: nat, x: real, dial: int): int
    requires start <= |log|
  {
    LabelAfter(log, start, Reach(log, start, x), dial)
  }

  /** The centre in force at `x`: the last of those changes that comes no later, or the dial. */
  function CentreAt(log: seq<Event>, start: nat, x: real, dial: int): int
    requires start <= |log|
  {
    LabelAfter(log, start, LastDue(log, start, x, |log|), dial)
  }

  lemma {:induction false} ReachOn(log: seq<Event>, start: nat, seen: nat, x: real)
    requires start <= seen <= |log| && forall k :: start <= k < seen ==> log[k].at <= x
    ensures Reach(log, start, x) == Reach(log, seen, x)
    decreases seen - start
  {
    if start < seen {
      ReachOn(log, start + 1, seen, x);
    }
  }

  /** The frames of a chunk are in order and in front of the next chunk. */
  lemma PositionsAscend(base: nat, n: nat, count: nat)
    requires n < count
    ensures base as real <= Position(base, n, count) < (base + CHUNK) as real
    ensures n > 0 ==> Position(base, n - 1, count) <= Position(base, n, count)
  {
    var step := CHUNK as real / count as real;
    assert step * count as real == CHUNK as real;
    Scaled(n as real, count as real, step);
    Scaled(0.0, n as real, step);
    if n > 0 {
      Scaled((n - 1) as real, n as real, step);
    }
  }

  /** Frame after frame of a chunk, all changes taken up are past and the label is that of the scan. */
  lemma {:induction false} FrameLabel(f: Feed, start: nat, dial: int, count: nat, i: nat)
    requires Caught(f, start, dial) && i < count
    ensures var at := SeenAt(f.log, f.seen, f.base, count, i + 1);
      && (forall k :: start <= k < at ==> f.log[k].at <= Position(f.base, i, count))
      && at == Reach(f.log, start, Position(f.base, i, count))
      && CurAt(f.log, f.seen, f.cur, f.base, count, i + 1) == ScannedAt(f.log, start, Position(f.base, i, count), dial)
  {
    var x, before := Position(f.base, i, count), SeenAt(f.log, f.seen, f.base, count, i);
    PositionsAscend(f.base, i, count);
    if i > 0 {
      FrameLabel(f, start, dial, count, i - 1);
    }
    ReachOn(f.log, start, before, x);
    ReachIsPast(f.log, before, x);
  }

  /** No chunk finds the client more than 64 changes behind. */
  predicate Prompt(f: Feed)
    requires f.seen <= |f.log|
  {
    |f.log| - f.seen <= STAMP_EVENTS
  }

  lemma PromptResumes(f: Feed)
    requires f.seen <= |f.log| && Prompt(f)
    ensures Resume(f.seen, |f.log|) == f.seen
  {
    WrapOfDifference(|f.log|, f.seen);
  }

  lemma ChunkKeepsCaught(f: Feed, start: nat, dial: int, src: seq<Sample>, conj: bool)
    requires Caught(f, start, dial) && Prompt(f)
    ensures Caught(Fed(f, Chunk(src), conj), start, dial)
  {
    PromptResumes(f);
    if |src| > 0 {
      PositionsAscend(f.base, |src| - 1, |src|);
      FrameLabel(f, start, dial, |src|, |src| - 1);
    }
  }

  ghost predicate AlwaysPrompt(f: Feed, inputs: seq<Input>, n: nat, conj: bool)
    requires f.seen <= |f.log| && n <= |inputs|
  {
    n > 0 ==> AlwaysPrompt(f, inputs, n - 1, conj) && (inputs[n - 1].Chunk? ==> Prompt(FedTo(f, inputs, n - 1, conj)))
  }

  lemma InputKeepsCaught(f: Feed, start: nat, dial: int, i: Input, conj: bool)
    requires Caught(f, start, dial) && (i.Chunk? ==> Prompt(f))
    ensures Caught(Fed(f, i, conj), start, dial)
  {
    if i.Chunk? {
      ChunkKeepsCaught(f, start, dial, i.src, conj);
    }
  }

  /** A client that is never more than 64 changes behind stays caught up. */
  lemma {:induction false} StaysCaught(f: Feed, start: nat, dial: int, inputs: seq<Input>, n: nat, conj: bool)
    requires Caught(f, start, dial) && n <= |inputs| && AlwaysPrompt(f, inputs, n, conj)
    ensures Caught(FedTo(f, inputs, n, conj), start, dial)
  {
    if n > 0 {
      StaysCaught(f, start, dial, inputs, n - 1, conj);
      InputKeepsCaught(FedTo(f, inputs, n - 1, conj), start, dial, inputs[n - 1], conj);
    }
  }

  lemma ChunkLabel(f: Feed, start: nat, dial: int, src: seq<Sample>, conj: bool, i: nat)
    requires Caught(f, start, dial) && Prompt(f) && i < |src|
    ensures var r := Fed(f, Chunk(src), conj);
      && |r.stream| == |f.stream| + |src|
      && r.stream[|f.stream| + i].centre == ScannedAt(f.log, start, Position(f.base, i, |src|), dial)
  {
    PromptResumes(f);
    LabelledAt(f.log, f.seen, f.cur, src, conj, f.base, |src|, i);
    FrameLabel(f, start, dial, |src|, i);
  }

  lemma LabelIsScanned(f: Feed, start: nat, dial: int, inputs: seq<Input>, n: nat, conj: bool, i: nat)
    requires Caught(f, start, dial) && n < |inputs| && inputs[n].Chunk? && i < |inputs[n].src|
    requires AlwaysPrompt(f, inputs, n + 1, conj)
    ensures var p, r := FedTo(f, inputs, n, conj), FedTo(f, inputs, n + 1, conj);
      && start <= |p.log| && |r.stream| == |p.stream| + |inputs[n].src|
      && r.stream[|p.stream| + i].centre == ScannedAt(p.log, start, Position(p.base, i, |inputs[n].src|), dial)
  {
    StaysCaught(f, start, dial, inputs, n, conj);
    ChunkLabel(FedTo(f, inputs, n, conj), start, dial, inputs[n].src, conj, i);
  }

  /** In any run in which the client is never more than 64 changes behind, the change that labels a frame is
      the last of those noted by then that come no later than it (or the dial the stream was started with, when
      there is none) exactly when no change still ahead of the frame was noted before one that is not. */
  lemma LabelsAreInForce(f: Feed, start: nat, dial: int, inputs: seq<Input>, n: nat, conj: bool, i: nat)
    requires Caught(f, start, dial) && n < |inputs| && inputs[n].Chunk? && i < |inputs[n].src|
    requires AlwaysPrompt(f, inputs, n + 1, conj)
    ensures var p, r := FedTo(f, inputs, n, conj), FedTo(f, inputs, n + 1, conj);
      var x := Position(p.base, i, |inputs[n].src|);
      && start <= |p.log| && |r.stream| == |p.stream| + |inputs[n].src|
      && r.stream[|p.stream| + i].centre == ScannedAt(p.log, start, x, dial)
      && (Reach(p.log, start, x) == LastDue(p.log, start, x, |p.log|) <==> InOrder(p.log, start, x))
      && (InOrder(p.log, start, x) ==> r.stream[|p.stream| + i].centre == CentreAt(p.log, start, x, dial))
  {
    LabelIsScanned(f, start, dial, inputs, n, conj, i);
    var p := FedTo(f, inputs, n, conj);
    LabelIsTheCentreInForce(p.log, start, Position(p.base, i, |inputs[n].src|));
  }

  /** No change is noted behind frames already served. */
  ghost predicate Punctual(f: Feed, inputs: seq<Input>, n: nat, conj: bool)
    requires f.seen <= |f.log| && n <= |inputs|
  {
    n > 0 ==> Punctual(f, inputs, n - 1, conj)
              && (inputs[n - 1].Change? ==> inputs[n - 1].at >= FedTo(f, inputs, n - 1, conj).base as real)
  }

  /** Everything noted after `log` lies at `edge` or ahead of it. */
  ghost predicate Ahead(log: seq<Event>, edge: nat, g: Feed) {
    log <= g.log && edge <= g.base && forall k :: |log| <= k < |g.log| ==> g.log[k].at >= edge as real
  }

  lemma StaysAhead(log: seq<Event>, edge: nat, g: Feed, i: Input, conj: bool)
    requires g.seen <= |g.log| && Ahead(log, edge, g) && (i.Change? ==> i.at >= g.base as real)
    ensures Ahead(log, edge, Fed(g, i, conj))
  {}

  /** Once chunk `n` is served, every new change lies ahead of it. */
  lemma {:induction false} LaterChangesLieAhead(f: Feed, inputs: seq<Input>, n: nat, m: nat, conj: bool)
    requires f.seen <= |f.log| && n < m <= |inputs| && inputs[n].Chunk? && Punctual(f, inputs, m, conj)
    ensures var p := FedTo(f, inputs, n, conj); Ahead(p.log, p.base + CHUNK, FedTo(f, inputs, m, conj))
  {
    if n < m - 1 {
      LaterChangesLieAhead(f, inputs, n, m - 1, conj);
      var p := FedTo(f, inputs, n, conj);
      StaysAhead(p.log, p.base + CHUNK, FedTo(f, inputs, m - 1, conj), inputs[m - 1], conj);
    }
  }

  lemma {:induction false} ReachInLonger(log: seq<Event>, long: seq<Event>, start: nat, x: real)
    requires start <= |log| && log <= long && forall k :: |log| <= k < |long| ==> long[k].at > x
    ensures Reach(long, start, x) == Reach(log, start, x)
    decreases |log| - start
  {
    if start < |log| {
      ReachInLonger(log, long, start + 1, x);
    }
  }

  lemma ScanInLonger(log: seq<Event>, long: seq<Event>, start: nat, dial: int, base: nat, i: nat, count: nat)
    requires start <= |log| && log <= long && i < count
    requires forall k :: |log| <= k < |long| ==> long[k].at >= (base + CHUNK) as real
    ensures ScannedAt(long, start, Position(base, i, count), dial) == ScannedAt(log, start, Position(base, i, count), dial)
  {
    PositionsAscend(base, i, count);
    ReachInLonger(log, long, start, Position(base, i, count));
  }

  /** Then nothing noted later could have changed a label: it is the one the scan gives by the whole log. */
  lemma LabelsAreFinal(f: Feed, start: nat, dial: int, inputs: seq<Input>, n: nat, conj: bool, i: nat)
    requires Caught(f, start, dial) && n < |inputs| && inputs[n].Chunk? && i < |inputs[n].src|
    requires AlwaysPrompt(f, inputs, n + 1, conj) && Punctual(f, inputs, |inputs|, conj)
    ensures var p, r, q := FedTo(f, inputs, n, conj), FedTo(f, inputs, n + 1, conj), FedTo(f, inputs, |inputs|, conj);
      && start <= |q.log| && |r.stream| == |p.stream| + |inputs[n].src|
      && r.stream[|p.stream| + i].centre == ScannedAt(q.log, start, Position(p.base, i, |inputs[n].src|), dial)
  {
    LabelIsScanned(f, start, dial, inputs, n, conj, i);
    ScanIsFinal(f, start, dial, inputs, n, conj, i);
  }

  lemma ScanIsFinal(f: Feed, start: nat, dial: int, inputs: seq<Input>, n: nat, conj: bool, i: nat)
    requires f.seen <= |f.log| && n < |inputs| && inputs[n].Chunk? && i < |inputs[n].src|
    requires Punctual(f, inputs, |inputs|, conj) && start <= |FedTo(f, inputs, n, conj).log|
    ensures var p, q := FedTo(f, inputs, n, conj), FedTo(f, inputs, |inputs|, conj);
      var x := Position(p.base, i, |inputs[n].src|);
      start <= |q.log| && ScannedAt(q.log, start, x, dial) == ScannedAt(p.log, start, x, dial)
  {
    var p, q := FedTo(f, inputs, n, conj), FedTo(f, inputs, |inputs|, conj);
    LaterChangesLieAhead(f, inputs, n, |inputs|, conj);
    ScanInLonger(p.log, q.log, start, dial, p.base, i, |inputs[n].src|);
  }

  lemma {:induction false} StreamIsPrefix(f: Feed, inputs: seq<Input>, n: nat, m: nat, conj: bool)
    requires f.seen <= |f.log| && n <= m <= |inputs|
    ensures FedTo(f, inputs, n, conj).stream <= FedTo(f, inputs, m, conj).stream
  {
    if n < m {
      StreamIsPrefix(f, inputs, n, m - 1, conj);
    }
  }

  /** What became of frame `i` of the `n`-th input. */
  ghost predicate IsFrame(frame: Frame, f: Feed, inputs: seq<Input>, n: nat, conj: bool, i: nat)
    requires f.seen <= |f.log| && n < |inputs|
  {
    var p, q := FedTo(f, inputs, n, conj), FedTo(f, inputs, n + 1, conj);
    |p.stream| + i < |q.stream| && frame == q.stream[|p.stream| + i]
  }

  lemma BlockHoldsFrame(queue: seq<Block>, h: History, f: Feed, inputs: seq<Input>, conj: bool, n: nat, i: nat, k: nat, j: nat)
    requires f.seen <= |f.log| && n < |inputs| && inputs[n].Chunk? && i < |inputs[n].src|
    requires Delivered(queue, h, FedTo(f, inputs, |inputs|, conj).stream) && k < |queue| && j < BLOCK_FRAMES
    requires BLOCK_FRAMES * k + j == |FedTo(f, inputs, n, conj).stream| + i
    ensures BlockOk(queue[k], h.sent[k]) && IsFrame(h.sent[k].frames[j], f, inputs, n, conj, i)
  {
    var at, all := BLOCK_FRAMES * k + j, FedTo(f, inputs, |inputs|, conj).stream;
    assert BlockOk(queue[k], h.sent[k]) && at < |all| && h.sent[k].frames[j] == all[at] by {
      BlocksAreTheFeed(queue, h, all, k, j);
    }
    assert IsFrame(all[at], f, inputs, n, conj, i) by {
      FrameInStream(f, inputs, n, conj, i, at);
    }
  }

  /** What the words of a block that has frame `i` of the `n`-th input at place `j` say of it. */
  lemma WordsTellTheLabel(b: Block, r: Record, f: Feed, start: nat, dial: int, inputs: seq<Input>, conj: bool, n: nat,
                          i: nat, j: nat)
    requires Caught(f, start, dial) && n < |inputs| && inputs[n].Chunk? && i < |inputs[n].src|
    requires AlwaysPrompt(f, inputs, n + 1, conj)
    requires BlockOk(b, r) && (r.layout == 1 || r.layout == 2) && j < BLOCK_FRAMES
    requires j == 0 || j == BLOCK_FRAMES - 1 || AtMostOneChange(r.frames)
    requires IsFrame(r.frames[j], f, inputs, n, conj, i)
    ensures b.frames[j].i == inputs[n].src[i].i
    ensures b.frames[j].q == if conj then -inputs[n].src[i].q else inputs[n].src[i].q
    ensures var p := FedTo(f, inputs, n, conj);
      start <= |p.log| && ReadCentre(b.head, r.layout, j)
                          == Wrap(ScannedAt(p.log, start, Position(p.base, i, |inputs[n].src|), dial))
  {
    LabelIsScanned(f, start, dial, inputs, n, conj, i);
    SampleInStream(f, inputs, n, conj, i);
    ClientReadsTheCentre(b, r, j);
  }

  /** And what a layout-1 or layout-2 client reads in the end off a block for frame `i` of the `n`-th input is that
      label: for the block's first and last frame, and for every frame if a change was taken up at most once after
      the first. The sample is the frame's own, conjugated if asked. */
  lemma BlocksTellTheCentre(queue: seq<Block>, h: History, f: Feed, start: nat, dial: int, inputs: seq<Input>,
                            conj: bool, n: nat, i: nat, k: nat, j: nat)
    requires Caught(f, start, dial) && n < |inputs| && inputs[n].Chunk? && i < |inputs[n].src|
    requires AlwaysPrompt(f, inputs, n + 1, conj)
    requires Delivered(queue, h, FedTo(f, inputs, |inputs|, conj).stream) && k < |queue| && j < BLOCK_FRAMES
    requires BLOCK_FRAMES * k + j == |FedTo(f, inputs, n, conj).stream| + i
    requires h.sent[k].layout == 1 || h.sent[k].layout == 2
    requires j == 0 || j == BLOCK_FRAMES - 1 || AtMostOneChange(h.sent[k].frames)
    ensures BlockOk(queue[k], h.sent[k]) && queue[k].frames[j].i == inputs[n].src[i].i
    ensures queue[k].frames[j].q == if conj then -inputs[n].src[i].q else inputs[n].src[i].q
    ensures var p := FedTo(f, inputs, n, conj);
      start <= |p.log| && ReadCentre(queue[k].head, h.sent[k].layout, j)
                          == Wrap(ScannedAt(p.log, start, Position(p.base, i, |inputs[n].src|), dial))
  {
    BlockHoldsFrame(queue, h, f, inputs, conj, n, i, k, j);
    WordsTellTheLabel(queue[k], h.sent[k], f, start, dial, inputs, conj, n, i, j);
  }

  lemma FrameInStream(f: Feed, inputs: seq<Input>, n: nat, conj: bool, i: nat, at: nat)
    requires f.seen <= |f.log| && n < |inputs| && inputs[n].Chunk? && i < |inputs[n].src|
    requires at == |FedTo(f, inputs, n, conj).stream| + i
    ensures var all := FedTo(f, inputs, |inputs|, conj).stream;
      at < |all| && IsFrame(all[at], f, inputs, n, conj, i)
  {
    SampleInStream(f, inputs, n, conj, i);
    StreamIsPrefix(f, inputs, n + 1, |inputs|, conj);
  }

  lemma SampleInStream(f: Feed, inputs: seq<Input>, n: nat, conj: bool, i: nat)
    requires f.seen <= |f.log| && n < |inputs| && inputs[n].Chunk? && i < |inputs[n].src|
    ensures var p, r := FedTo(f, inputs, n, conj), FedTo(f, inputs, n + 1, conj);
      && |p.stream| + i < |r.stream|
      && r.stream[|p.stream| + i].s.i == inputs[n].src[i].i
      && r.stream[|p.stream| + i].s.q == if conj then -inputs[n].src[i].q else inputs[n].src[i].q
  {
    ChunkSurvives(FedTo(f, inputs, n, conj), inputs[n].src, conj, i);
  }

  /** Two changes of which the second has the smaller position, and a chunk between the two. */
  function TurnedBack(z: Sample): seq<Input> {
    [Change(10.0, 7010), Change(5.0, 7020), Chunk(seq(CHUNK, _ => z))]
  }

  /** Frame 7 keeps the dial, although a change to 7020 came before it. */
  lemma ChangesOutOfOrder(z: Sample)
    ensures var f, inputs := Feed([], 0, 7000, 0, []), TurnedBack(z);
      var r := FedTo(f, inputs, 3, false);
      && Caught(f, 0, 7000) && AlwaysPrompt(f, inputs, 3, false)
      && |r.stream| == CHUNK && r.stream[7].centre == 7000 && CentreAt(r.log, 0, 7.0, 7000) == 7020
  {
    var f, inputs := Feed([], 0, 7000, 0, []), TurnedBack(z);
    var p1, p2 := FedTo(f, inputs, 1, false), FedTo(f, inputs, 2, false);
    assert FedTo(f, inputs, 0, false) == f && p1 == Fed(f, inputs[0], false);
    assert p2 == Fed(p1, inputs[1], false) == Feed([Event(10.0, 7010), Event(5.0, 7020)], 0, 7000, 0, []);
    assert AlwaysPrompt(f, inputs, 0, false) && AlwaysPrompt(f, inputs, 1, false) && AlwaysPrompt(f, inputs, 2, false);
    LabelsAreInForce(f, 0, 7000, inputs, 2, false, 7);
    assert Position(0, 7, CHUNK) == 7.0;
  }
}
