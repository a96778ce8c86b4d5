/** A generator over a whole run: texts sent, samples pulled, speed and ramp changed, and aborts, in any order. */
module CwRun {
  import opened Arith
  import opened MorseCode
  import opened CwSchedule
  import opened CwStream
  import opened CwGen

  // ---- what a text is worth ---------------------------------------------------------------

  /** Key-down samples of the first `i` marks of a code. */
  function CodeTime(code: string, i: nat, dot: int, dash: int): int
    requires i <= |code|
  {
    if i == 0 then 0 else CodeTime(code, i - 1, dot, dash) + if code[i - 1] == '-' then dash else dot
  }

  /** Key-down samples of the first `n` keys. */
  function KeysTime(ks: seq<Key>, n: nat, dot: int, dash: int): int
    requires n <= |ks|
  {
    if n == 0 then 0
    else KeysTime(ks, n - 1, dot, dash)
         + if ks[n - 1].Letter? then CodeTime(ks[n - 1].code, |ks[n - 1].code|, dot, dash) else 0
  }

  /** What a text is worth: the marks of its characters. */
  function TextTime(text: string, dot: int, dash: int): int { KeysTime(Keys(text), |Keys(text)|, dot, dash) }

  lemma {:induction false} MarksAppend(a: seq<Seg>, b: seq<Seg>, n: nat)
    requires n <= |b|
    ensures MarkLength(a + b, |a| + n) == MarkLength(a, |a|) + MarkLength(b, n)
  {
    if n == 0 {
      MarksPrefix(a, b, |a|);
    } else {
      MarksAppend(a, b, n - 1);
    }
  }

  lemma {:induction false} MarksPrefix(a: seq<Seg>, b: seq<Seg>, n: nat)
    requires n <= |a|
    ensures MarkLength(a + b, n) == MarkLength(a, n)
  {
    if n > 0 {
      MarksPrefix(a, b, n - 1);
    }
  }

  lemma OneMark(gap: int, mark: char, dot: int, dash: int)
    ensures var segs := GapSeg(gap, dot) + [MarkSeg(mark, dot, dash)];
      MarkLength(segs, |segs|) == if mark == '-' then dash else dot
  {
    var segs := GapSeg(gap, dot) + [MarkSeg(mark, dot, dash)];
    assert MarkLength(segs, 0) == 0;
    assert MarkLength(segs, 1) == if segs[0].down then segs[0].len else 0;
  }

  lemma {:induction false} CharMarks(code: string, i: nat, pending: int, dot: int, dash: int)
    requires i <= |code|
    ensures var segs := CharSegs(code, i, pending, dot, dash); MarkLength(segs, |segs|) == CodeTime(code, i, dot, dash)
  {
    if i > 0 {
      var front, gap := CharSegs(code, i - 1, pending, dot, dash), if i == 1 then pending else 1;
      var last := GapSeg(gap, dot) + [MarkSeg(code[i - 1], dot, dash)];
      CharMarks(code, i - 1, pending, dot, dash);
      OneMark(gap, code[i - 1], dot, dash);
      MarksAppend(front, last, |last|);
      assert front + last == CharSegs(code, i, pending, dot, dash);
    }
  }

  lemma KeyMarks(s: Sending, k: Key, dot: int, dash: int)
    ensures var s' := SendKey(s, k, dot, dash);
      MarkLength(s'.segs, |s'.segs|)
      == MarkLength(s.segs, |s.segs|) + if k.Letter? then CodeTime(k.code, |k.code|, dot, dash) else 0
  {
    if k.Letter? {
      var segs := CharSegs(k.code, |k.code|, s.pending, dot, dash);
      CharMarks(k.code, |k.code|, s.pending, dot, dash);
      MarksAppend(s.segs, segs, |segs|);
    }
  }

  /** Whenever it is sent and onto whatever, a text is worth its own marks. */
  lemma {:induction false} KeysMarks(start: Sending, ks: seq<Key>, n: nat, dot: int, dash: int)
    requires n <= |ks| && start.segs == []
    ensures var s := SendKeys(start, ks, n, dot, dash); MarkLength(s.segs, |s.segs|) == KeysTime(ks, n, dot, dash)
  {
    if n > 0 {
      KeysMarks(start, ks, n - 1, dot, dash);
      KeyMarks(SendKeys(start, ks, n - 1, dot, dash), ks[n - 1], dot, dash);
    }
  }

  // ---- what is still owed -------------------------------------------------------------------

  /** Key-down samples queued and not yet sounded. */
  function Owed(h: History): int { OwedOf(h.segs, h.played) }

  function OwedOf(segs: seq<Seg>, played: nat): int {
    MarkLength(segs, |segs|) - Downs(LineOf(segs), 0, played)
  }

  lemma {:induction false} LineIsPrefix(a: seq<Seg>, b: seq<Seg>, n: nat)
    requires n <= |a|
    ensures Expand(a + b, n) == Expand(a, n)
  {
    if n > 0 {
      LineIsPrefix(a, b, n - 1);
    }
  }

  lemma {:induction false} LineGrows(a: seq<Seg>, b: seq<Seg>, n: nat)
    requires |a| <= n <= |a + b|
    ensures LineOf(a) <= Expand(a + b, n)
  {
    if n == |a| {
      LineIsPrefix(a, b, n);
    } else {
      LineGrows(a, b, n - 1);
    }
  }

  lemma LineIsLonger(a: seq<Seg>, b: seq<Seg>)
    ensures LineOf(a) <= LineOf(a + b)
  {
    LineGrows(a, b, |a + b|);
  }

  lemma {:induction false} DownsInLonger(line: seq<bool>, long: seq<bool>, n: nat)
    requires line <= long && n <= |line|
    ensures Downs(long, 0, n) == Downs(line, 0, n)
  {
    if n > 0 {
      DownsInLonger(line, long, n - 1);
    }
  }

  lemma MarksGrow(a: seq<Seg>, b: seq<Seg>)
    ensures MarkLength(a + b, |a + b|) == MarkLength(a, |a|) + MarkLength(b, |b|)
  {
    MarksAppend(a, b, |b|);
  }

  lemma DownsStay(a: seq<Seg>, b: seq<Seg>, played: nat)
    requires played <= |LineOf(a)|
    ensures Downs(LineOf(a + b), 0, played) == Downs(LineOf(a), 0, played)
  {
    LineIsLonger(a, b);
    DownsInLonger(LineOf(a), LineOf(a + b), played);
  }

  lemma SendOwes(a: seq<Seg>, b: seq<Seg>, played: nat)
    requires played <= |LineOf(a)|
    ensures OwedOf(a + b, played) == OwedOf(a, played) + MarkLength(b, |b|)
  {
    MarksGrow(a, b);
    DownsStay(a, b, played);
  }

  /** Beyond the end of the line the key is up. */
  lemma DownsStop(line: seq<bool>, n: nat)
    ensures Downs(line, 0, n) == Downs(line, 0, Min(n, |line|))
  {
    if n > |line| {
      DownsWhileHeld(line, |line|, n - |line|, false);
    }
  }

  lemma PullPays(h: History, n: nat)
    requires h.played <= |LineOf(h.segs)|
    ensures Owed(h) == Downs(LineOf(h.segs), h.played, n) + Owed(h.(played := Min(h.played + n, |LineOf(h.segs)|)))
  {
    DownsInTwo(LineOf(h.segs), 0, h.played, n);
    DownsStop(LineOf(h.segs), h.played + n);
  }

  /** Nothing more than what is queued is owed, and nothing once it has been played out. */
  lemma PaidInFull(h: History)
    requires Positive(h.segs) && h.played <= |LineOf(h.segs)|
    ensures Owed(h) >= 0 && (h.played >= |LineOf(h.segs)| ==> Owed(h) == 0)
  {
    KeyDownTotal(h.segs, |LineOf(h.segs)|);
    DownsInTwo(LineOf(h.segs), 0, h.played, |LineOf(h.segs)| - h.played);
  }

  // ---- runs -----------------------------------------------------------------------------------

  datatype Op =
    | Send(text: string)
    | Take(n: nat)
    | Speed(wpm: int, weight: real)
    | Shape(rampMs: real)
    | Abort

  datatype Timing = Timing(dot: int, dash: int)

  /** The timing in force after the first `n` operations. */
  function TimingAt(t: Timing, sr: int, ops: seq<Op>, n: nat): Timing
    requires n <= |ops|
  {
    if n == 0 then t
    else if ops[n - 1].Speed? then
      var dot := DotLength(sr, ops[n - 1].wpm);
      Timing(dot, DashLength(dot, ops[n - 1].weight))
    else TimingAt(t, sr, ops, n - 1)
  }

  function Worth(t: Timing, op: Op): int {
    if op.Send? then TextTime(op.text, t.dot, t.dash) else 0
  }

  /** What the texts of the first `n` operations are worth, each at the timing it was sent with. */
  function Keyed(t: Timing, sr: int, ops: seq<Op>, n: nat): int
    requires n <= |ops|
  {
    if n == 0 then 0 else Keyed(t, sr, ops, n - 1) + Worth(TimingAt(t, sr, ops, n - 1), ops[n - 1])
  }

  method DoSend(g: CwGen, text: string)
    requires g.Valid()
    modifies g
    ensures g.Valid() && g.dot == old(g.dot) && g.dash == old(g.dash)
    ensures Owed(g.h) == Owed(old(g.h)) + TextTime(text, g.dot, g.dash)
  {
    ghost var h, start := g.h, Start(Idle(LineOf(g.h.segs), g.h.played, g.rampPos), Max(g.schedEnd, g.clock));
    g.PlayedInLine();
    g.SendText(text);
    KeysMarks(start, Keys(text), |Keys(text)|, g.dot, g.dash);
    SendOwes(h.segs, CwSchedule.SendText(start, text, g.dot, g.dash).segs, h.played);
  }

  method DoTake(g: CwGen, n: nat) returns (down: nat)
    requires g.Valid()
    modifies g
    ensures g.Valid() && g.dot == old(g.dot) && g.dash == old(g.dash)
    ensures down + Owed(g.h) == Owed(old(g.h))
  {
    var out := new int[n];
    g.PlayedInLine();
    PullPays(g.h, n);
    down := g.Pull(out, n);
  }

  /** One operation: what it returns of key-down samples and what it drops. */
  method Do(g: CwGen, op: Op) returns (down: nat, ghost dropped: int)
    requires g.Valid()
    modifies g
    ensures g.Valid()
    ensures down + dropped + Owed(g.h) == Owed(old(g.h)) + Worth(Timing(old(g.dot), old(g.dash)), op)
    ensures dropped == if op.Abort? then Owed(old(g.h)) else 0
    ensures Timing(g.dot, g.dash) == TimingAt(Timing(old(g.dot), old(g.dash)), g.sr, [op], 1)
  {
    down, dropped := 0, 0;
    match op
    case Send(text) =>
      DoSend(g, text);
    case Take(n) =>
      down := DoTake(g, n);
    case Speed(wpm, weight) =>
      g.SetTiming(wpm, weight);
    case Shape(rampMs) =>
      g.SetRamp(rampMs);
    case Abort =>
      dropped := Owed(g.h);
      g.Flush();
  }

  /** Over any run the key-down samples returned, those dropped by aborts and those still owed are together those
      owed at the start and the marks of the texts sent, each at the speed it was sent with. */
  method Operate(g: CwGen, ops: seq<Op>) returns (down: nat, ghost dropped: int)
    requires g.Valid()
    modifies g
    ensures g.Valid()
    ensures down + dropped + Owed(g.h)
         == Owed(old(g.h)) + Keyed(Timing(old(g.dot), old(g.dash)), g.sr, ops, |ops|)
    ensures Abort !in ops ==> dropped == 0
    ensures Owed(g.h) >= 0 && (Idle(LineOf(g.h.segs), g.h.played, g.rampPos) ==> Owed(g.h) == 0)
  {
    down, dropped := 0, 0;
    ghost var t, owed := Timing(g.dot, g.dash), Owed(g.h);
    for i := 0 to |ops|
      invariant g.Valid() && Timing(g.dot, g.dash) == TimingAt(t, g.sr, ops, i)
      invariant down + dropped + Owed(g.h) == owed + Keyed(t, g.sr, ops, i)
      invariant Abort !in ops ==> dropped == 0
    {
      var more;
      ghost var lost;
      more, lost := Do(g, ops[i]);
      down, dropped := down + more, dropped + lost;
    }
    g.PlayedInLine();
    PaidInFull(g.h);
  }
}
