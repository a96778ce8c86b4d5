/** The CW generator: a growing ring of segments and the segment being sounded, the ramp,
    the sample clock and the schedule end, and the lossy record of queued characters. */
module CwGen {
  import opened Arith
  import opened MorseCode
  import opened CwSchedule
  import opened CwStream
  import opened Ring
  import opened Sequences

  /** C's lround: to the nearest integer, halves away from zero. */
  function LRound(x: real): int {
    if x >= 0.0 then (x + 0.5).Floor else -((-x + 0.5).Floor)
  }

  function DotLength(sr: int, wpm: int): int {
    Max(LRound(sr as real * 1.2 / Clamp(wpm, 1, 60) as real), 1)
  }

  function DashLength(dot: int, weight: real): int {
    Max(LRound(dot as real * 3.0 * weight / 50.0), 1)
  }

  function RampLength(sr: int, rampMs: real, dot: int): int {
    var rn, cap := LRound(sr as real * rampMs / 1000.0), (0.9 * dot as real).Floor;
    if rn < 0 then 0 else if rn > cap then cap else rn
  }

  lemma RoundIsNearest(x: real)
    ensures x >= 0.0 ==> LRound(x) as real - 0.5 <= x < LRound(x) as real + 0.5
    ensures x <= 0.0 ==> LRound(x) as real - 0.5 < x <= LRound(x) as real + 0.5
  {}

  /** At every speed the generator allows, a dot is the whole number of samples nearest to 1.2 s over the words
      per minute; speeds beyond are taken as the nearest allowed. */
  lemma DotIsOneUnit(sr: int, wpm: int)
    requires sr >= 1000
    ensures 1 <= wpm <= 60 ==>
      var d := DotLength(sr, wpm) as real;
      (d - 0.5) * wpm as real <= sr as real * 1.2 < (d + 0.5) * wpm as real
    ensures wpm < 1 ==> DotLength(sr, wpm) == DotLength(sr, 1)
    ensures wpm > 60 ==> DotLength(sr, wpm) == DotLength(sr, 60)
  {
    if 1 <= wpm <= 60 {
      UnitIsNearest(sr as real * 1.2, wpm as real);
    }
  }

  lemma UnitIsNearest(y: real, w: real)
    requires y >= 1200.0 && 1.0 <= w <= 60.0
    ensures var n := LRound(y / w) as real; n >= 1.0 && (n - 0.5) * w <= y < (n + 0.5) * w
  {
    var x := y / w;
    assert x * w == y;
    if x < 20.0 {
      Scaled(x, 20.0, w);
    }
    RoundIsNearest(x);
    var n := LRound(x) as real;
    Within(n - 0.5, x, n + 0.5, w, y);
  }

  lemma Within(a: real, x: real, b: real, w: real, y: real)
    requires a <= x < b && w > 0.0 && x * w == y
    ensures a * w <= y < b * w
  {
    Scaled(a, x, w);
    Scaled(x, b, w);
  }

  /** A dash is the number nearest to three dots weighted, weight 50 being none; it never vanishes. */
  lemma DashIsWeighted(dot: int, weight: real)
    requires dot >= 1 && weight >= 0.0
    ensures var d := DashLength(dot, weight);
      && d >= 1
      && (d as real - 0.5) * 50.0 <= MaxReal(dot as real * 3.0 * weight, 25.0) < (d as real + 0.5) * 50.0
  {
    var x := dot as real * 3.0 * weight;
    assert x >= 0.0;
    RoundIsNearest(x / 50.0);
  }

  /** The ramp is the number of samples nearest to the milliseconds asked for, but no more than nine tenths of a dot. */
  lemma RampIsAsAsked(sr: int, rampMs: real, dot: int)
    requires sr >= 1000 && rampMs >= 0.0 && dot >= 1
    ensures var r, x := RampLength(sr, rampMs, dot) as real, sr as real * rampMs / 1000.0;
      && 0.0 <= r <= 0.9 * dot as real && r - 0.5 <= x
      && (x < r + 0.5 || 0.9 * dot as real < r + 1.0)
  {
    var x := sr as real * rampMs / 1000.0;
    assert x >= 0.0;
    RoundIsNearest(x);
  }

  /** The ramp always fits in a dot, so a dot reaches full amplitude. */
  lemma RampFitsDot(sr: int, rampMs: real, dot: int)
    requires dot >= 1
    ensures 0 <= RampLength(sr, rampMs, dot) < dot
  {}

  /** At weight 50 a dash is three dots exactly. */
  lemma DashAtFifty(dot: int)
    requires dot >= 1
    ensures DashLength(dot, 50.0) == 3 * dot
  {
    assert dot as real * 3.0 * 50.0 / 50.0 == (3 * dot) as real;
  }

  predicate EndsAscend(chars: seq<CwCh>, limit: int) {
    && (forall i, j :: 0 <= i < j < |chars| ==> chars[i].end <= chars[j].end)
    && (forall i :: 0 <= i < |chars| ==> chars[i].end <= limit)
  }

  /** How many of the first `n` recorded characters have finished sounding at `clock`. */
  function Sounded(chars: seq<CwCh>, n: nat, clock: int): nat
    requires n <= |chars|
  {
    if n == 0 then 0 else Sounded(chars, n - 1, clock) + (if chars[n - 1].end <= clock then 1 else 0)
  }

  /** On an ascending record, the count is where an early-exit scan stops. */
  lemma SoundedIsPrefix(chars: seq<CwCh>, n: nat, clock: int, k: nat)
    requires k <= n <= |chars|
    requires forall i, j :: 0 <= i < j < |chars| ==> chars[i].end <= chars[j].end
    requires forall i :: 0 <= i < k ==> chars[i].end <= clock
    requires k < |chars| ==> chars[k].end > clock
    ensures Sounded(chars, n, clock) == k
  {
    if n > k {
      SoundedIsPrefix(chars, n - 1, clock, k);
    } else if n > 0 {
      SoundedOfSounded(chars, n, clock);
    }
  }

  lemma SoundedOfSounded(chars: seq<CwCh>, n: nat, clock: int)
    requires n <= |chars| && forall i :: 0 <= i < n ==> chars[i].end <= clock
    ensures Sounded(chars, n, clock) == n
  {}

  lemma GapIsPositive(units: int, dot: int)
    requires units >= 1 && dot >= 1
    ensures units * dot >= 1
  {}

  /** One more character of the text, seen as a step of the schedule. */
  lemma TextStep(start: Sending, text: string, p: nat, dot: int, dash: int)
    requires p < |text|
    ensures KeyedTo(start, text, p + 1, dot, dash) == KeyedNext(KeyedTo(start, text, p, dot, dash), text[p], dot, dash)
  {
    var ks, k := KeysTo(text, p), KeyOf(text[p]);
    SendKeysPrefix(start, ks, k, |ks|, dot, dash);
    assert k == [] ==> ks + k == ks;
  }

  /** The send as it stands after `p` characters of the text. */
  function KeyedTo(start: Sending, text: string, p: nat, dot: int, dash: int): Sending
    requires p <= |text|
  {
    SendKeys(start, KeysTo(text, p), |KeysTo(text, p)|, dot, dash)
  }

  function KeyedNext(st: Sending, c: char, dot: int, dash: int): Sending {
    var k := KeyOf(c);
    if k == [] then st else SendKey(st, k[0], dot, dash)
  }

  /** What one send queues: positive lengths, an end that agrees with them, and records
      whose ends ascend between the start and the end of what was queued. */
  ghost predicate Sane(s: Sending, from: int) {
    && s.pending >= 0 && Positive(s.segs)
    && s.end == from + Length(s.segs, |s.segs|) && s.end >= from
    && EndsAscend(s.chars, s.end)
    && forall i :: 0 <= i < |s.chars| ==> from <= s.chars[i].end
  }

  lemma CharSegsPositive(code: string, i: nat, pending: int, dot: int, dash: int)
    requires i <= |code| && pending >= 0 && dot >= 1 && dash >= 1
    ensures Positive(CharSegs(code, i, pending, dot, dash))
    ensures CharLength(code, i, pending, dot, dash) >= 0
  {
    var segs := CharSegs(code, i, pending, dot, dash);
    CharKeying([], code, i, pending, dot, dash);
    assert [] + segs == segs;
    KeyingIsPositive(segs, dot, dash);
    CharLengthIs(code, i, pending, dot, dash);
    LengthGrows(segs, 0, |segs|);
  }

  lemma KeyIsSane(s: Sending, k: Key, from: int, dot: int, dash: int)
    requires Sane(s, from) && dot >= 1 && dash >= 1
    ensures Sane(SendKey(s, k, dot, dash), from)
  {
    if k.Letter? {
      var segs := CharSegs(k.code, |k.code|, s.pending, dot, dash);
      CharSegsPositive(k.code, |k.code|, s.pending, dot, dash);
      CharLengthIs(k.code, |k.code|, s.pending, dot, dash);
      LengthAppend(s.segs, segs, |segs|);
    }
  }

  lemma NextIsSane(st: Sending, c: char, from: int, dot: int, dash: int)
    requires Sane(st, from) && dot >= 1 && dash >= 1
    ensures Sane(KeyedNext(st, c, dot, dash), from)
  {
    if KeyOf(c) != [] {
      KeyIsSane(st, KeyOf(c)[0], from, dot, dash);
    }
  }

  // ---- shaping --------------------------------------------------------------------

  /** What a send queues is made of: gaps of a dot and more, marks of a dot or a dash, and a gap before
      every mark but the first. */
  ghost predicate Keying(segs: seq<Seg>, dot: int, dash: int) {
    forall i :: 0 <= i < |segs| ==> KeyedAt(segs, i, dot, dash)
  }

  predicate KeyedAt(segs: seq<Seg>, i: nat, dot: int, dash: int)
    requires i < |segs|
  {
    if segs[i].down then (segs[i].len == dot || segs[i].len == dash) && (i > 0 ==> !segs[i - 1].down)
    else segs[i].len >= dot
  }

  lemma UnitsAreDots(units: int, dot: int)
    requires units >= 1 && dot >= 1
    ensures units * dot >= dot
  {}

  /** A gap and a mark more; only the very first mark may do without the gap. */
  lemma KeyingGrows(segs: seq<Seg>, gap: int, mark: char, dot: int, dash: int)
    requires Keying(segs, dot, dash) && dot >= 1 && (segs != [] ==> gap > 0)
    ensures Keying(segs + (GapSeg(gap, dot) + [MarkSeg(mark, dot, dash)]), dot, dash)
  {
    var more := GapSeg(gap, dot) + [MarkSeg(mark, dot, dash)];
    if gap > 0 {
      UnitsAreDots(gap, dot);
    }
    forall i | 0 <= i < |segs + more| ensures KeyedAt(segs + more, i, dot, dash) {
      if i < |segs| {
        assert KeyedAt(segs, i, dot, dash);
      }
    }
  }

  lemma {:induction false} CharKeying(segs: seq<Seg>, code: string, i: nat, pending: int, dot: int, dash: int)
    requires i <= |code| && dot >= 1 && Keying(segs, dot, dash) && (segs != [] ==> pending > 0)
    ensures Keying(segs + CharSegs(code, i, pending, dot, dash), dot, dash)
  {
    if i == 0 {
      assert segs + [] == segs;
    } else {
      var front, gap := CharSegs(code, i - 1, pending, dot, dash), if i == 1 then pending else 1;
      CharKeying(segs, code, i - 1, pending, dot, dash);
      KeyingGrows(segs + front, gap, code[i - 1], dot, dash);
      assert segs + front + (GapSeg(gap, dot) + [MarkSeg(code[i - 1], dot, dash)])
          == segs + CharSegs(code, i, pending, dot, dash);
    }
  }

  lemma {:induction false} SendIsKeying(idle: bool, end: int, ks: seq<Key>, n: nat, dot: int, dash: int)
    requires n <= |ks| && dot >= 1
    ensures var s := SendKeys(Start(idle, end), ks, n, dot, dash);
      Keying(s.segs, dot, dash) && (s.segs != [] ==> s.pending > 0)
  {
    if n > 0 {
      SendIsKeying(idle, end, ks, n - 1, dot, dash);
      var p, k := SendKeys(Start(idle, end), ks, n - 1, dot, dash), ks[n - 1];
      if k.Letter? {
        CharKeying(p.segs, k.code, |k.code|, p.pending, dot, dash);
      }
    }
  }

  /** Where the ramp is when segment `j` has been played out. */
  function RampAfter(segs: seq<Seg>, j: nat, pos: int, n: int): int
    requires j < |segs|
  {
    RampAt(pos, n, LineOf(segs), 0, |Expand(segs, j + 1)|)
  }

  /** From a ramp position `from` on, a mark reaches full amplitude if and only if it is long enough. */
  lemma MarkReaches(segs: seq<Seg>, j: nat, pos: int, n: int, from: int)
    requires Positive(segs) && j < |segs| && segs[j].down && RampInBounds(pos, n)
    requires RampAt(pos, n, LineOf(segs), 0, |Expand(segs, j)|) == from
    ensures RampAfter(segs, j, pos, n) == Full(n) <==> from + segs[j].len >= n
  {
    var a := |Expand(segs, j)|;
    SegmentInLine(segs, j, |segs|);
    RampStays(pos, n, LineOf(segs), 0, a);
    RampWhileHeld(pos, n, LineOf(segs), 0, a, segs[j].len, true);
  }

  lemma KeyingIsPositive(segs: seq<Seg>, dot: int, dash: int)
    requires Keying(segs, dot, dash) && dot >= 1 && dash >= 1
    ensures Positive(segs)
  {
    forall i | 0 <= i < |segs| ensures segs[i].len > 0 {
      assert KeyedAt(segs, i, dot, dash);
    }
  }

  lemma KeyingSettles(segs: seq<Seg>, dot: int, dash: int, pos: int, n: int, j: nat)
    requires Keying(segs, dot, dash) && dot >= 1 && dash >= 1 && n < dot && RampInBounds(pos, n) && j < |segs|
    ensures !segs[j].down ==> RampAfter(segs, j, pos, n) == 0
    ensures segs[j].down && segs[j].len == dot ==> RampAfter(segs, j, pos, n) == Full(n)
    ensures segs[j].down && segs[j].len != dot ==>
      (segs[j].len == dash && (RampAfter(segs, j, pos, n) == Full(n) <==> (if j == 0 then pos else 0) + dash >= n))
  {
    KeyingIsPositive(segs, dot, dash);
    assert KeyedAt(segs, j, dot, dash);
    if !segs[j].down || segs[j].len == dot {
      SegmentSettles(segs, j, pos, n);
    } else {
      if j > 0 {
        assert KeyedAt(segs, j - 1, dot, dash);
        SegmentSettles(segs, j - 1, pos, n);
      }
      MarkReaches(segs, j, pos, n, if j == 0 then pos else 0);
    }
  }

  /** Whatever ramp is set and however light the weight, every gap a text queues ends at rest and every
      dot at full amplitude; a dash reaches full amplitude if and only if it is as long as the ramp (the
      first mark of a text may begin on a ramp that is still coming down). */
  lemma EverySegmentSettles(text: string, idle: bool, end: int, sr: int, rampMs: real, dot: int, dash: int, pos: int, j: nat)
    requires dot >= 1 && dash >= 1 && RampInBounds(pos, RampLength(sr, rampMs, dot))
    requires j < |CwSchedule.SendText(Start(idle, end), text, dot, dash).segs|
    ensures var segs, n := CwSchedule.SendText(Start(idle, end), text, dot, dash).segs, RampLength(sr, rampMs, dot);
      && (!segs[j].down ==> RampAfter(segs, j, pos, n) == 0)
      && (segs[j].down && segs[j].len == dot ==> RampAfter(segs, j, pos, n) == Full(n))
      && (segs[j].down && segs[j].len != dot ==>
          (segs[j].len == dash && (RampAfter(segs, j, pos, n) == Full(n) <==> (if j == 0 then pos else 0) + dash >= n)))
  {
    SendIsKeying(idle, end, Keys(text), |Keys(text)|, dot, dash);
    RampFitsDot(sr, rampMs, dot);
    KeyingSettles(CwSchedule.SendText(Start(idle, end), text, dot, dash).segs, dot, dash, pos, RampLength(sr, rampMs, dot), j);
  }

  /** From weight 50 up a dash is no shorter than the ramp. */
  lemma HeavyDashReaches(sr: int, rampMs: real, dot: int, weight: real)
    requires dot >= 1 && weight >= 50.0
    ensures DashLength(dot, weight) >= RampLength(sr, rampMs, dot)
  {
    RampFitsDot(sr, rampMs, dot);
    var three := dot as real * 3.0;
    Scaled(50.0, weight, three);
    assert three * weight >= dot as real * 150.0;
    RoundsUpTo(three * weight / 50.0, dot);
  }

  lemma RoundsUpTo(x: real, k: int)
    requires x >= k as real && k >= 0
    ensures LRound(x) >= k
  {}

  /** At weight 10, 20 words a minute and a ramp of 60 ms, the dash of a lone T stops short of full amplitude. */
  lemma LightDashFallsShort()
    ensures var dot := DotLength(48000, 20);
      var dash, n := DashLength(dot, 10.0), RampLength(48000, 60.0, dot);
      var segs := CwSchedule.SendText(Start(true, 0), "T", dot, dash).segs;
      segs == [Seg(true, dash)] && RampAfter(segs, 0, 0, n) != Full(n)
  {
    var dot := DotLength(48000, 20);
    assert dot == 2880;
    var dash, n := DashLength(dot, 10.0), RampLength(48000, 60.0, dot);
    assert dash == 1728 && n == 2592;
    var segs := CwSchedule.SendText(Start(true, 0), "T", dot, dash).segs;
    LoneT(dot, dash);
    EverySegmentSettles("T", true, 0, 48000, 60.0, dot, dash, 0, 0);
  }

  lemma LoneT(dot: int, dash: int)
    ensures CwSchedule.SendText(Start(true, 0), "T", dot, dash).segs == [Seg(true, dash)]
  {
    assert KeysTo("T", 0) == [] && KeyOf('T') == [Letter('T', "-")];
    assert Keys("T") == [Letter('T', "-")];
    assert CharSegs("-", 0, 0, dot, dash) == [];
    assert SendKeys(Start(true, 0), Keys("T"), 0, dot, dash) == Start(true, 0);
  }

  lemma AscendOnward(a: seq<CwCh>, b: seq<CwCh>, mid: int, end: int)
    requires EndsAscend(a, mid) && EndsAscend(b, end) && mid <= end
    requires forall i :: 0 <= i < |b| ==> mid <= b[i].end
    ensures EndsAscend(a + b, end)
  {}

  function Left(segs: seq<Seg>, played: int): int { Length(segs, |segs|) - played }

  /** What one send does to an exact schedule (what is left to play is what the clock has not
      reached) and to an ascending record. */
  lemma SendStaysSound(before: seq<Seg>, played: int, shown: seq<CwCh>, st: Sending, end: int, clock: int)
    requires Positive(before) && Left(before, played) == Max(0, end - clock) && EndsAscend(shown, end)
    requires Sane(st, Max(end, clock))
    ensures Positive(before + st.segs) && Left(before + st.segs, played) == Max(0, st.end - clock)
    ensures EndsAscend(shown + st.chars, st.end)
  {
    LengthAppend(before, st.segs, |st.segs|);
    AscendOnward(shown, st.chars, Max(end, clock), st.end);
  }

  /** The sample a segment in play is at. */
  lemma KeyOfSegment(segs: seq<Seg>, j: nat, rem: int)
    requires Positive(segs) && j < |segs| && 0 < rem <= segs[j].len
    ensures Length(segs, j + 1) - rem >= 0
    ensures KeyAt(LineOf(segs), Length(segs, j + 1) - rem) == segs[j].down
  {
    ExpandLength(segs, j);
    ExpandLength(segs, j + 1);
    SegmentInLine(segs, j, |segs|);
  }

  lemma LengthGrows(segs: seq<Seg>, i: nat, j: nat)
    requires Positive(segs) && i <= j <= |segs|
    ensures Length(segs, i) <= Length(segs, j) && (i < j ==> Length(segs, i) < Length(segs, j))
  {}

  /** What the character ring has kept of the record. */
  function Kept(record: seq<CwCh>, cap: nat): seq<CwCh>
    requires cap >= 1
  {
    record[Dropped(record, cap)..]
  }

  function PullLine(segs: seq<Seg>, from: nat, pos: int, rampN: int, n: nat): Pulled {
    CwStream.Pull(LineOf(segs), Min(from, |LineOf(segs)|), pos, rampN, n)
  }

  lemma PulledIs(segs: seq<Seg>, from: nat, pos: int, rampN: int, n: nat, out: seq<int>)
    requires from <= |LineOf(segs)| && |out| == n
    requires forall k :: 0 <= k < n ==> out[k] == RampAt(pos, rampN, LineOf(segs), from, k + 1)
    ensures Pulled(out, Downs(LineOf(segs), from, n), Min(from + n, |LineOf(segs)|), RampAt(pos, rampN, LineOf(segs), from, n))
         == PullLine(segs, from, pos, rampN, n)
  {}

  /** What the rings stand for: the segments queued since the last flush, how many of them
      have left the ring and how many samples of them have been sounded, and the characters
      of the present over. */
  datatype History = History(segs: seq<Seg>, fetched: nat, played: nat, record: seq<CwCh>)

  class CwGen {
    const sr: int
    var dot: int
    var dash: int
    var weight: real
    var rampMs: real
    var rampN: int

    var q: Ring<Seg>
    var curDown: bool
    var curRem: int
    var haveCur: bool
    var rampPos: int

    var clock: int
    var schedEnd: int
    var cq: Ring<CwCh>

    ghost var h: History

    ghost predicate Shape()
      reads this
    {
      && Holds(q, h.segs, h.fetched)
      && Holds(cq, h.record, Dropped(h.record, |cq.buf|))
      && Positive(h.segs)
      && h.played + (if haveCur then curRem else 0) == Length(h.segs, h.fetched)
      && (haveCur ==> h.fetched > 0 && curDown == h.segs[h.fetched - 1].down && 0 < curRem <= h.segs[h.fetched - 1].len)
      && dot >= 1 && dash >= 1 && rampPos >= 0
    }

    /** What every public operation keeps: a well-formed generator whose schedule is exact
        (what is left to play is what the clock has not reached) and whose record ascends. */
    ghost predicate Valid()
      reads this
    {
      && Shape()
      && Left(h.segs, h.played) == Max(0, schedEnd - clock)
      && EndsAscend(h.record, schedEnd)
      && |cq.buf| == 256
    }

    constructor (sampleRate: int, wpm: int, weight: real, rampMs: real)
      requires sampleRate >= 1000
      ensures Valid()
      ensures h == History([], 0, 0, []) && rampPos == 0 && clock == 0 && schedEnd == 0
      ensures sr == sampleRate && dot == DotLength(sr, wpm) && dash == DashLength(dot, weight)
      ensures this.rampMs == MaxReal(rampMs, 0.0) && rampN == RampLength(sr, this.rampMs, dot)
    {
      sr := sampleRate;
      this.weight := weight;
      this.rampMs := MaxReal(rampMs, 0.0);
      dot := DotLength(sampleRate, wpm);
      dash := DashLength(DotLength(sampleRate, wpm), weight);
      rampN := RampLength(sampleRate, MaxReal(rampMs, 0.0), DotLength(sampleRate, wpm));
      q := Ring(seq(256, _ => Seg(false, 0)), 0, 0);
      cq := Ring(seq(256, _ => CwCh(' ', 0)), 0, 0);
      curDown, curRem, haveCur, rampPos, clock, schedEnd := false, 0, false, 0, 0, 0;
      h := History([], 0, 0, []);
    }

    /** A live speed change: what is queued stays as it is. */
    method SetTiming(wpm: int, weight: real)
      requires Valid()
      modifies this`dot, this`dash, this`weight, this`rampN
      ensures Valid()
      ensures dot == DotLength(sr, wpm) && dash == DashLength(dot, weight) && this.weight == weight
      ensures rampN == RampLength(sr, rampMs, dot)
    {
      this.weight := weight;
      dot := DotLength(sr, wpm);
      dash := DashLength(dot, weight);
      rampN := RampLength(sr, rampMs, dot);
    }

    /** A live change of the ramp: whatever its setting, it stays inside a dot. */
    method SetRamp(rampMs: real)
      requires Valid()
      modifies this`rampMs, this`rampN
      ensures Valid()
      ensures this.rampMs == MaxReal(rampMs, 0.0) && rampN == RampLength(sr, this.rampMs, dot)
    {
      this.rampMs := MaxReal(rampMs, 0.0);
      rampN := RampLength(sr, this.rampMs, dot);
    }

    method PushSeg(down: bool, len: int)
      requires Shape()
      modifies this`q, this`schedEnd, this`h
      ensures Shape()
      ensures h == if len <= 0 then old(h) else old(h).(segs := old(h).segs + [Seg(down, len)])
      ensures schedEnd == old(schedEnd) + Max(len, 0)
    {
      if len <= 0 { return; }
      if Next(q.tail, |q.buf|) == q.head {        // full: grow
        q := Grow(q, Seg(false, 0), h.segs, h.fetched);
      }
      PutHolds(q, Seg(down, len), h.segs, h.fetched);
      LengthPrefix(h.segs, [Seg(down, len)], h.fetched);
      q := Put(q, Seg(down, len));
      schedEnd := schedEnd + len;
      h := h.(segs := h.segs + [Seg(down, len)]);
    }

    /** Records a character at the present end of the schedule; a full ring drops its oldest. */
    method PushChar(ch: char)
      requires Shape()
      modifies this`cq, this`h
      ensures Shape() && |cq.buf| == |old(cq).buf|
      ensures h == old(h).(record := old(h).record + [CwCh(ch, schedEnd)])
    {
      cq := PutLossy(cq, CwCh(ch, schedEnd), h.record);
      h := h.(record := h.record + [CwCh(ch, schedEnd)]);
    }

    /** The concrete send in progress is at `st`, begun when the history was `was`. */
    ghost predicate Tracks(st: Sending, was: History, pending: int, atStart: bool)
      reads this
    {
      && Shape()
      && pending == st.pending && atStart == st.atStart && schedEnd == st.end && |cq.buf| == 256
      && h == was.(segs := was.segs + st.segs, record := was.record + st.chars)
    }

    /** Queues a text behind whatever is still to be sounded. A send from idle starts a new
        record; one onto a busy queue continues the record. */
    method SendText(text: string)
      requires Valid()
      modifies this`q, this`schedEnd, this`cq, this`h
      ensures Valid()
      ensures
        var idle := old(Idle(LineOf(h.segs), h.played, rampPos));
        var sent := CwSchedule.SendText(Start(idle, Max(old(schedEnd), clock)), text, dot, dash);
        && schedEnd == sent.end
        && h == old(h).(segs := old(h).segs + sent.segs,
                        record := (if idle then [] else old(h).record) + sent.chars)
    {
      var atStart := IsIdle();
      ghost var was, end := h, schedEnd;
      if atStart {
        cq := cq.(head := 0, tail := 0);
        h := h.(record := []);
      }
      if schedEnd < clock {
        schedEnd := clock;
      }
      ghost var shown := h.record;
      ghost var st := KeyText(text, atStart);
      SendStaysSound(was.segs, was.played, shown, st, end, clock);
    }

    /** The loop of SendText. */
    method KeyText(text: string, idle: bool) returns (ghost st: Sending)
      requires Shape() && |cq.buf| == 256
      modifies this`q, this`schedEnd, this`cq, this`h
      ensures st == CwSchedule.SendText(Start(idle, old(schedEnd)), text, dot, dash)
      ensures Tracks(st, old(h), st.pending, st.atStart) && Sane(st, old(schedEnd))
    {
      var pending, atStart := 0, idle;
      ghost var was, start := h, Start(idle, schedEnd);
      st := start;
      assert was.segs + st.segs == was.segs && was.record + st.chars == was.record;
      for p := 0 to |text|
        invariant st == KeyedTo(start, text, p, dot, dash)
        invariant Tracks(st, was, pending, atStart) && Sane(st, start.end)
      {
        TextStep(start, text, p, dot, dash);
        NextIsSane(st, text[p], start.end, dot, dash);
        pending, atStart, st := SendOne(text[p], pending, atStart, st, was);
      }
    }

    /** One character of the text: the loop body of SendText. */
    method SendOne(c: char, pending: int, atStart: bool, ghost st: Sending, ghost was: History)
      returns (pending': int, atStart': bool, ghost st': Sending)
      requires Tracks(st, was, pending, atStart) && pending >= 0
      modifies this`q, this`schedEnd, this`cq, this`h
      ensures Tracks(st', was, pending', atStart')
      ensures st' == KeyedNext(st, c, dot, dash)
    {
      pending', atStart', st' := pending, atStart, st;
      if c == ' ' || c == '\t' || c == '\n' {
        if !atStart && pending < 7 {
          pending' := 7;
          Regroup(was.record, st.chars, [CwCh(' ', schedEnd)]);
          PushChar(' ');
        }
        st' := SendKey(st, Blank, dot, dash);
      } else {
        var m := MorseOf(c);
        if m != "" {
          SendCode(m, ToUpper(c), pending, st, was);
          pending', atStart' := 3, false;
          st' := SendKey(st, Letter(ToUpper(c), m), dot, dash);
        }
      }
    }

    method SendCode(m: string, sign: char, pending: int, ghost st: Sending, ghost was: History)
      requires Tracks(st, was, pending, st.atStart) && m != "" && pending >= 0
      modifies this`q, this`schedEnd, this`cq, this`h
      ensures Tracks(SendKey(st, Letter(sign, m), dot, dash), was, 3, false)
    {
      PushMarks(m, pending);
      Regroup(was.segs, st.segs, CharSegs(m, |m|, pending, dot, dash));
      Regroup(was.record, st.chars, [CwCh(sign, schedEnd)]);
      PushChar(sign);
    }

    /** The marks of one character and the gaps before them. */
    method PushMarks(m: string, pending: int)
      requires Shape() && m != "" && pending >= 0
      modifies this`q, this`schedEnd, this`h
      ensures Shape()
      ensures h == old(h).(segs := old(h).segs + CharSegs(m, |m|, pending, dot, dash))
      ensures schedEnd == old(schedEnd) + CharLength(m, |m|, pending, dot, dash)
    {
      var owed := pending;
      ghost var was, added: seq<Seg> := h, [];
      assert was.segs + added == was.segs;
      for i := 0 to |m|
        invariant Shape()
        invariant owed == (if i == 0 then pending else 0)
        invariant added == CharSegs(m, i, pending, dot, dash) && h == was.(segs := was.segs + added)
        invariant schedEnd == old(schedEnd) + CharLength(m, i, pending, dot, dash)
      {
        added := PushMark(if i == 0 then owed else 1, m[i], was, added);
        owed := 0;
      }
    }

    /** One mark behind its gap, `added` having been queued already. */
    method PushMark(gap: int, mark: char, ghost was: History, ghost added: seq<Seg>)
      returns (ghost added': seq<Seg>)
      requires Shape() && gap >= 0 && h == was.(segs := was.segs + added)
      modifies this`q, this`schedEnd, this`h
      ensures Shape()
      ensures added' == added + GapSeg(gap, dot) + [MarkSeg(mark, dot, dash)]
      ensures h == was.(segs := was.segs + added')
      ensures schedEnd == old(schedEnd) + Units(gap, dot) + MarkSeg(mark, dot, dash).len
    {
      added' := added;
      if gap > 0 {
        GapIsPositive(gap, dot);
        PushSeg(false, gap * dot);
        Regroup(was.segs, added, [Seg(false, gap * dot)]);
        added' := added + [Seg(false, gap * dot)];
      }
      PushSeg(true, if mark == '-' then dash else dot);
      Regroup(was.segs, added', [MarkSeg(mark, dot, dash)]);
      added' := added' + [MarkSeg(mark, dot, dash)];
    }

    /** Drops everything queued; the ramp is left where it is, to come down by itself. */
    method Flush()
      requires Valid()
      modifies this`q, this`haveCur, this`curRem, this`cq, this`schedEnd, this`h
      ensures Valid() && h == History([], 0, 0, []) && schedEnd == clock
    {
      q := q.(head := 0, tail := 0);
      haveCur := false;
      curRem := 0;
      cq := cq.(head := 0, tail := 0);
      schedEnd := clock;
      h := History([], 0, 0, []);
    }

    /** The next `n` samples: the key line refined to ramp positions, one by one. */
    method Pull(out: array<int>, n: int) returns (keydown: nat)
      requires Valid() && n <= out.Length
      modifies this`q, this`curDown, this`curRem, this`haveCur, this`rampPos, this`clock, this`h, out
      ensures Valid() && clock == old(clock) + Max(n, 0)
      ensures h == old(h).(fetched := h.fetched, played := h.played)
      ensures n <= 0 ==> keydown == 0 && h == old(h) && rampPos == old(rampPos) && out[..] == old(out[..])
      ensures n > 0 ==>
        && Pulled(out[..n], keydown, h.played, rampPos) == PullLine(h.segs, old(h.played), old(rampPos), rampN, n)
        && out[n..] == old(out[n..])
    {
      keydown := 0;
      if n <= 0 { return; }
      keydown := Samples(out, n);
      clock := clock + n;
      PulledIs(h.segs, old(h.played), old(rampPos), rampN, n, out[..n]);
    }

    /** The loop of Pull. */
    method Samples(out: array<int>, n: nat) returns (keydown: nat)
      requires Shape() && n <= out.Length
      modifies this`q, this`curDown, this`curRem, this`haveCur, this`rampPos, this`h, out
      ensures Shape()
      ensures old(h.played) <= |LineOf(h.segs)| == Length(h.segs, |h.segs|)
      ensures h == old(h).(fetched := h.fetched, played := Min(old(h.played) + n, |LineOf(h.segs)|))
      ensures rampPos == RampAt(old(rampPos), rampN, LineOf(h.segs), old(h.played), n)
      ensures keydown == Downs(LineOf(h.segs), old(h.played), n)
      ensures forall k :: 0 <= k < n ==> out[k] == RampAt(old(rampPos), rampN, LineOf(h.segs), old(h.played), k + 1)
      ensures forall k :: n <= k < out.Length ==> out[k] == old(out[k])
    {
      keydown := 0;
      PlayedInLine();
      ghost var line, was, pos, n0 := LineOf(h.segs), h, rampPos, rampN;
      for i := 0 to n
        invariant Shape() && rampN == n0
        invariant h == was.(fetched := h.fetched, played := Min(was.played + i, |line|))
        invariant rampPos == RampAt(pos, n0, line, was.played, i)
        invariant keydown == Downs(line, was.played, i)
        invariant forall k :: 0 <= k < i ==> out[k] == RampAt(pos, n0, line, was.played, k + 1)
        invariant forall k :: n <= k < out.Length ==> out[k] == old(out[k])
      {
        PullNext(line, was.played, pos, n0, i);
        var target := SampleInto(out, i);
        if target { keydown := keydown + 1; }
      }
    }

    lemma PlayedInLine()
      requires Shape()
      ensures |LineOf(h.segs)| == Length(h.segs, |h.segs|) >= h.played
      ensures h.fetched < |h.segs| ==> Length(h.segs, h.fetched) < |LineOf(h.segs)|
    {
      ExpandLength(h.segs, |h.segs|);
      LengthGrows(h.segs, h.fetched, |h.segs|);
    }

    method SampleInto(out: array<int>, i: nat) returns (target: bool)
      requires Shape() && i < out.Length
      modifies this`q, this`curDown, this`curRem, this`haveCur, this`rampPos, this`h, out
      ensures Shape()
      ensures target == KeyAt(LineOf(h.segs), old(h.played))
      ensures h == old(h).(fetched := h.fetched, played := Min(old(h.played) + 1, |LineOf(h.segs)|))
      ensures rampPos == RampStep(old(rampPos), rampN, target) && out[i] == rampPos
      ensures forall k :: 0 <= k < out.Length && k != i ==> out[k] == old(out[k])
    {
      target := Sample();
      out[i] := rampPos;
    }

    /** One sample of the key line and of the ramp. */
    method Sample() returns (target: bool)
      requires Shape()
      modifies this`q, this`curDown, this`curRem, this`haveCur, this`rampPos, this`h
      ensures Shape()
      ensures target == KeyAt(LineOf(h.segs), old(h.played))
      ensures h == old(h).(fetched := h.fetched, played := Min(old(h.played) + 1, |LineOf(h.segs)|))
      ensures rampPos == RampStep(old(rampPos), rampN, target)
    {
      Fetch();
      target := haveCur && curDown;
      rampPos := FollowKey(rampPos, rampN, target);
      Count();
    }

    /** Counts one sample of the segment being sounded. */
    method Count()
      requires Shape() && (haveCur || h.fetched == |h.segs|)
      modifies this`curRem, this`haveCur, this`h
      ensures Shape()
      ensures (old(haveCur) && curDown) == KeyAt(LineOf(h.segs), old(h.played))
      ensures h == old(h).(played := Min(old(h.played) + 1, |LineOf(h.segs)|))
    {
      PlayedInLine();
      if haveCur {
        KeyOfSegment(h.segs, h.fetched - 1, curRem);
        curRem := curRem - 1;
        if curRem <= 0 { haveCur := false; }
        h := h.(played := h.played + 1);
      }
    }

    static method FollowKey(pos: int, n: int, target: bool) returns (pos': int)
      ensures pos' == RampStep(pos, n, target)
    {
      pos' := pos;
      if n <= 0 {
        pos' := if target then 1 else 0;
      } else if target && pos < n {
        pos' := pos + 1;
      } else if !target && pos > 0 {
        pos' := pos - 1;
      }
    }

    /** Takes the next segment off the queue when none is being sounded. */
    method Fetch()
      requires Shape()
      modifies this`q, this`curDown, this`curRem, this`haveCur, this`h
      ensures Shape() && h == old(h).(fetched := h.fetched)
      ensures haveCur || h.fetched == |h.segs|
    {
      if !haveCur {
        if q.head != q.tail {
          DropHolds(q, h.segs, h.fetched);
          curDown := q.buf[q.head].down;
          curRem := q.buf[q.head].len;
          q := Drop(q);
          haveCur := true;
          h := h.(fetched := h.fetched + 1);
        } else {
          curDown := false;
        }
      }
    }

    method IsIdle() returns (idle: bool)
      requires Shape()
      ensures idle == Idle(LineOf(h.segs), h.played, rampPos)
    {
      idle := q.head == q.tail && !haveCur && rampPos <= 0;
      PlayedInLine();
    }

    /** The record for display, cut to the buffer, and how much of it has been sounded: the
        early-exit scan counts every retained character whose end the clock has reached. */
    method Progress(buflen: int) returns (buf: string, cur: int)
      requires Valid()
      ensures buflen < 2 ==> buf == "" && cur == 0
      ensures buflen >= 2 ==>
        var kept := Kept(h.record, |cq.buf|);
        && buf == Letters(kept[..Min(|kept|, buflen - 1)])
        && cur == Min(Sounded(kept, |kept|, clock), |buf|)
    {
      buf, cur := "", 0;
      if buflen < 2 { return; }
      ghost var kept := Kept(h.record, |cq.buf|);
      var sent := CountSounded(kept);
      var i := cq.head;
      while i != cq.tail && |buf| < buflen - 1
        invariant |buf| <= |kept| && |buf| <= buflen - 1 && i == At(cq.head, |buf|, |cq.buf|)
        invariant buf == Letters(kept[..|buf|])
        decreases |kept| - |buf|
      {
        assert cq.buf[At(cq.head, |buf|, |cq.buf|)] == kept[|buf|];
        NextIs(i, |cq.buf|);
        buf := buf + [cq.buf[i].ch];
        i := Next(i, |cq.buf|);
      }
      cur := if sent < |buf| then sent else |buf|;
    }

    /** The first loop of Progress. */
    method CountSounded(ghost kept: seq<CwCh>) returns (sent: nat)
      requires Valid() && kept == Kept(h.record, |cq.buf|)
      ensures sent == Sounded(kept, |kept|, clock)
    {
      sent := 0;
      var i := cq.head;
      while i != cq.tail
        invariant 0 <= sent <= |kept| && i == At(cq.head, sent, |cq.buf|)
        invariant forall k :: 0 <= k < sent ==> kept[k].end <= clock
        decreases |kept| - sent
      {
        assert cq.buf[At(cq.head, sent, |cq.buf|)] == kept[sent];
        NextIs(i, |cq.buf|);
        if cq.buf[i].end > clock { break; }
        sent := sent + 1;
        i := Next(i, |cq.buf|);
      }
      SoundedIsPrefix(kept, |kept|, clock, sent);
    }
  }

  /** A new generator, or none for a sample rate below 1000. */
  method New(sampleRate: int, wpm: int, weight: real, rampMs: real) returns (g: CwGen?)
    ensures g == null <==> sampleRate < 1000
    ensures g != null ==> fresh(g) && g.Valid() && g.sr == sampleRate && g.h == History([], 0, 0, [])
  {
    if sampleRate < 1000 { return null; }
    g := new CwGen(sampleRate, wpm, weight, rampMs);
  }
}
