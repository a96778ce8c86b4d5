/** Where a change of centre is put on the IQ stream: by the time it was made, through a clock that takes
    each push's offset (time minus frames ringed over the rate) and keeps the least of two seconds. */
module SampleClock {
  import opened Arith

  const SECOND := 1000000

  /** A push: its time in microseconds and the frames ringed by then. */
  datatype Arrival = Arrival(now: nat, total: nat)

  function Seconds(us: nat): real { us as real / 1000000.0 }

  function OffsetOf(p: Arrival, rate: nat): real
    requires rate > 0
  {
    Seconds(p.now) - p.total as real / rate as real
  }

  /** What the clock takes from a push: its offset and the second it came in. */
  datatype Tick = Tick(off: real, second: nat)

  function TickOf(p: Arrival, rate: nat): Tick
    requires rate > 0
  {
    Tick(OffsetOf(p, rate), p.now / SECOND)
  }

  lemma TickIs(p: Arrival, rate: nat)
    requires rate > 0
    ensures var t := TickOf(p, rate);
      && t.second * 1000000 <= p.now < (t.second + 1) * 1000000
      && (p.now as real / 1000000.0 - t.off) * rate as real == p.total as real
  {}

  /** The least offset of the pushes `lo` to `hi`. */
  function Least(ps: seq<Tick>, lo: nat, hi: nat): (r: real)
    requires lo < hi <= |ps|
    ensures forall k :: lo <= k < hi ==> r <= ps[k].off
    ensures exists k :: lo <= k < hi && r == ps[k].off
  {
    if hi == lo + 1 then ps[lo].off
    else
      var m := Least(ps, lo, hi - 1);
      if ps[hi - 1].off < m then ps[hi - 1].off else m
  }

  /** All pushes from `lo` to `hi`, and there are some, fall into one second. */
  ghost predicate InSecond(ps: seq<Tick>, lo: nat, hi: nat, second: int) {
    lo < hi <= |ps| && forall k :: lo <= k < hi ==> ps[k].second == second
  }

  /** The position of a change at time `t`, with an offset `off`. */
  function Index(t: nat, off: real, latency: real, rate: nat): real {
    (Seconds(t) - off + latency) * rate as real
  }

  lemma LeastIsPrefix(ps: seq<Tick>, more: seq<Tick>, lo: nat, hi: nat)
    requires lo < hi <= |ps|
    ensures Least(ps + more, lo, hi) == Least(ps, lo, hi)
  {
    if hi > lo + 1 {
      LeastIsPrefix(ps, more, lo, hi - 1);
    }
  }

  lemma LeastInTwo(ps: seq<Tick>, lo: nat, mid: nat, hi: nat)
    requires lo < mid < hi <= |ps|
    ensures var a, b := Least(ps, lo, mid), Least(ps, mid, hi);
      Least(ps, lo, hi) == if b < a then b else a
  {
    if hi > mid + 1 {
      LeastInTwo(ps, lo, mid, hi - 1);
    }
  }

  // ---- the clock ----------------------------------------------------------------------------

  /** The clock's variables. */
  datatype Clock = Clock(cur: real, prev: real, havePrev: bool, bucket: int, valid: bool)

  const NotRunning := Clock(0.0, 0.0, false, -1, false)

  /** An offset this far above the present one means the stream paused. */
  predicate StartsOver(c: Clock, off: real) { c.valid && off > c.cur + 0.2 }

  function Pushed(c0: Clock, t: Tick): Clock {
    var c := if StartsOver(c0, t.off) then c0.(bucket := -1, havePrev := false) else c0;
    if t.second != c.bucket then
      Clock(t.off, if c.bucket >= 0 then c.cur else c.prev, c.bucket >= 0 || c.havePrev, t.second, true)
    else c.(cur := if t.off < c.cur then t.off else c.cur, valid := true)
  }

  function Offset(c: Clock): real {
    if c.havePrev && c.prev < c.cur then c.prev else c.cur
  }

  /** The pushes since the clock last started over, and where those of the second heard last and of the
      second heard before it begin. */
  datatype Heard = Heard(since: seq<Tick>, here: nat, there: nat)

  /** The present second's and the last one's least offsets are kept, no push but the first of a clock that
      starts over having come more than 0.2 s late. */
  ghost predicate Keeps(c: Clock, h: Heard) {
    var ps := h.since;
    && (!c.valid ==> c.bucket == -1 && !c.havePrev && h == Heard([], 0, 0))
    && (c.valid ==>
      && InSecond(ps, h.here, |ps|, c.bucket) && c.bucket >= 0
      && c.cur == Least(ps, h.here, |ps|) && ps[|ps| - 1].off <= c.cur + 0.2
      && if c.havePrev then LastSecond(c, h) else h.there == h.here == 0)
  }

  ghost predicate LastSecond(c: Clock, h: Heard) {
    var ps := h.since;
    && h.there < h.here < |ps| && ps[h.there].second < c.bucket && InSecond(ps, h.there, h.here, ps[h.there].second)
    && (h.there > 0 ==> ps[h.there - 1].second < ps[h.there].second)
    && c.prev == Least(ps, h.there, h.here) && c.cur <= c.prev + 0.2
  }

  function HeardOn(c: Clock, h: Heard, t: Tick): Heard {
    if StartsOver(c, t.off) || !c.valid then Heard([t], 0, 0)
    else if t.second != c.bucket then Heard(h.since + [t], |h.since|, h.here)
    else h.(since := h.since + [t])
  }

  /** A push more than 200 ms later than the offset in hand begins a new history, any other joins the one there is. */
  lemma PushJoins(c: Clock, h: Heard, t: Tick)
    requires Keeps(c, h)
    ensures c.valid && t.off <= c.cur + 0.2 ==> HeardOn(c, h, t).since == h.since + [t]
    ensures !c.valid || t.off > c.cur + 0.2 ==>
      HeardOn(c, h, t) == Heard([t], 0, 0) && Pushed(c, t).cur == t.off && !Pushed(c, t).havePrev
  {}

  lemma SameSecondKeeps(c: Clock, h: Heard, t: Tick)
    requires Keeps(c, h) && c.valid && c.bucket == t.second && !StartsOver(c, t.off)
    ensures Keeps(Pushed(c, t), HeardOn(c, h, t))
  {
    LeastIsPrefix(h.since, [t], h.here, |h.since|);
    if c.havePrev {
      LeastIsPrefix(h.since, [t], h.there, h.here);
    }
  }

  lemma NextSecondKeeps(c: Clock, h: Heard, t: Tick)
    requires Keeps(c, h) && c.valid && c.bucket < t.second && !StartsOver(c, t.off)
    ensures Keeps(Pushed(c, t), HeardOn(c, h, t))
  {
    var ps := h.since + [t];
    LeastIsPrefix(h.since, [t], h.here, |h.since|);
    assert InSecond(ps, |h.since|, |ps|, t.second);
    assert InSecond(ps, h.here, |h.since|, c.bucket);
  }

  lemma PushKeeps(c: Clock, h: Heard, t: Tick)
    requires Keeps(c, h) && (c.valid ==> c.bucket <= t.second)
    ensures Keeps(Pushed(c, t), HeardOn(c, h, t))
  {
    if c.valid && !StartsOver(c, t.off) {
      if c.bucket == t.second {
        SameSecondKeeps(c, h, t);
      } else {
        NextSecondKeeps(c, h, t);
      }
    }
  }

  /** The offset in use is the least of the two seconds heard last, at most 0.4 s below that of the last push. */
  lemma OffsetIsTheLeast(c: Clock, h: Heard)
    requires Keeps(c, h) && c.valid
    ensures h.there < |h.since| && Offset(c) == Least(h.since, h.there, |h.since|)
    ensures Offset(c) <= h.since[|h.since| - 1].off <= Offset(c) + 0.4
  {
    if c.havePrev {
      LeastInTwo(h.since, h.there, h.here, |h.since|);
    }
  }

  /** The frames that should be ringed by time `t`, going by the rate since push `p`, and the latency. */
  function Ringed(p: Arrival, t: nat, latency: real, rate: nat): real {
    p.total as real + (Seconds(t) - Seconds(p.now) + latency) * rate as real
  }

  /** So a change is never put in front of the frames that were ringed when it was made, nor more than 0.4 s
      behind them. */
  lemma StampIsInPlace(c: Clock, h: Heard, p: Arrival, t: nat, latency: real, rate: nat)
    requires Keeps(c, h) && c.valid && rate > 0 && h.since[|h.since| - 1] == TickOf(p, rate)
    ensures Ringed(p, t, latency, rate) <= Index(t, Offset(c), latency, rate) <= Ringed(p, t, latency, rate) + 0.4 * rate as real
  {
    OffsetIsTheLeast(c, h);
    IndexIsNear(p, t, Offset(c), latency, rate);
  }

  lemma IndexIsNear(p: Arrival, t: nat, off: real, latency: real, rate: nat)
    requires rate > 0 && off <= OffsetOf(p, rate) <= off + 0.4
    ensures Ringed(p, t, latency, rate) <= Index(t, off, latency, rate) <= Ringed(p, t, latency, rate) + 0.4 * rate as real
  {
    Spread(p.total as real, Seconds(t), Seconds(p.now), off, latency, rate as real);
  }

  lemma Spread(total: real, t: real, now: real, off: real, latency: real, x: real)
    requires x > 0.0 && off <= now - total / x <= off + 0.4
    ensures total + (t - now + latency) * x <= (t - off + latency) * x <= total + (t - now + latency) * x + 0.4 * x
  {
    var part, y := total / x, t - now + latency;
    assert part * x == total;
    Distribute(y, part, x);
    Distribute(y + part, 0.4, x);
    Scaled(y + part, t - off + latency, x);
    Scaled(t - off + latency, y + part + 0.4, x);
  }

  lemma Distribute(a: real, b: real, x: real)
    ensures (a + b) * x == a * x + b * x
  {}

  /** Two changes keep their order exactly when the offset has grown by no more than the time between them. */
  lemma StampsAscend(t1: nat, off1: real, t2: nat, off2: real, latency: real, rate: nat)
    requires rate > 0
    ensures Index(t1, off1, latency, rate) <= Index(t2, off2, latency, rate) <==> off2 - off1 <= Seconds(t2) - Seconds(t1)
  {
    var a, b := Seconds(t1) - off1 + latency, Seconds(t2) - off2 + latency;
    if a <= b {
      Scaled(a, b, rate as real);
    } else {
      Scaled(b, a, rate as real);
    }
  }

  /** Which a stall breaks: of two changes 20 ms apart, with the first push after 800 ms of silence between them,
      the second is put more than half a second in front of the first. */
  lemma StampsTurnBack()
    ensures
      var c1 := Pushed(NotRunning, TickOf(Arrival(500000, 24000), 48000));
      var c2 := Pushed(c1, TickOf(Arrival(1300000, 24000), 48000));
      Index(1310000, Offset(c2), 0.001, 48000) < Index(1290000, Offset(c1), 0.001, 48000) - 24000.0
  {
    assert OffsetOf(Arrival(500000, 24000), 48000) == 0.0;
    assert OffsetOf(Arrival(1300000, 24000), 48000) == 0.8;
  }

  class SampleClock {
    const rate: nat
    var cur: real
    var prev: real
    var havePrev: bool
    var bucket: int
    var valid: bool
    ghost var h: Heard

    function State(): Clock
      reads this
    {
      Clock(cur, prev, havePrev, bucket, valid)
    }

    ghost predicate Valid()
      reads this
    {
      rate > 0 && Keeps(State(), h)
    }

    constructor (rate0: nat)
      requires rate0 > 0
      ensures Valid() && State() == NotRunning && rate == rate0
    {
      rate := rate0;
      cur, prev, havePrev, bucket, valid := 0.0, 0.0, false, -1, false;
      h := Heard([], 0, 0);
    }

    /** A push; time does not run backwards. */
    method Push(now: nat, total: nat)
      requires Valid() && (valid ==> bucket <= now / SECOND)
      modifies this
      ensures Valid()
      ensures State() == Pushed(old(State()), TickOf(Arrival(now, total), rate))
      ensures h == HeardOn(old(State()), old(h), TickOf(Arrival(now, total), rate))
    {
      ghost var c0, h0 := State(), h;
      var off, second := Seconds(now) - total as real / rate as real, now / SECOND;
      PushKeeps(c0, h0, Tick(off, second));
      h := HeardOn(c0, h0, Tick(off, second));
      if valid && off > cur + 0.2 {
        bucket, havePrev := -1, false;
      }
      if second != bucket {
        if bucket >= 0 {
          prev, havePrev := cur, true;
        }
        bucket, cur := second, off;
      } else if off < cur {
        cur := off;
      }
      valid := true;
    }

    /** Where a change made at time `t` goes, `total` frames having been ringed. */
    method Stamp(t: nat, latency: real, total: nat) returns (at: real)
      requires Valid()
      ensures !valid ==> at == total as real + latency * rate as real
      ensures valid ==>
        h.there < |h.since| && at == Index(t, Least(h.since, h.there, |h.since|), latency, rate)
    {
      if valid {
        OffsetIsTheLeast(State(), h);
        var off := if havePrev && prev < cur then prev else cur;
        at := Index(t, off, latency, rate);
      } else {
        at := total as real + latency * rate as real;
      }
    }
  }
}
