/** What one send queues, as a function of the text, and what a receiver reads back from
    the queued segments. Recursive functions here take the length of the prefix they are
    about, so that `F(s, |s|)` is the value for the whole of `s`. */
module CwSchedule {
  import opened MorseCode

  datatype Seg = Seg(down: bool, len: int)

  /** A queued character and the schedule position where it has finished sounding. */
  datatype CwCh = CwCh(ch: char, end: int)

  /** A character as the sender sees it; characters without a code are dropped. */
  datatype Key = Blank | Letter(sign: char, code: string)

  function KeyOf(c: char): seq<Key> {
    if IsBlank(c) then [Blank]
    else if MorseOf(c) == "" then []
    else [Letter(ToUpper(c), MorseOf(c))]
  }

  function KeysTo(text: string, n: nat): seq<Key>
    requires n <= |text|
  {
    if n == 0 then [] else KeysTo(text, n - 1) + KeyOf(text[n - 1])
  }

  function Keys(text: string): seq<Key> { KeysTo(text, |text|) }

  // ---- the sender -------------------------------------------------------------

  /** The running values of one send: gap units owed before the next mark, whether
      nothing has been keyed yet, and what has been queued so far. */
  datatype Sending = Sending(pending: int, atStart: bool, segs: seq<Seg>, chars: seq<CwCh>, end: int)

  function Start(idle: bool, end: int): Sending { Sending(0, idle, [], [], end) }

  function GapSeg(units: int, dot: int): (g: seq<Seg>) {
    if units > 0 then [Seg(false, units * dot)] else []
  }

  function Units(units: int, dot: int): int { if units > 0 then units * dot else 0 }

  function MarkSeg(mark: char, dot: int, dash: int): Seg {
    Seg(true, if mark == '-' then dash else dot)
  }

  /** The first `i` marks of a character: `pending` gap units before its first mark, one between marks. */
  function CharSegs(code: string, i: nat, pending: int, dot: int, dash: int): seq<Seg>
    requires i <= |code|
  {
    if i == 0 then []
    else
      CharSegs(code, i - 1, pending, dot, dash)
      + GapSeg(if i == 1 then pending else 1, dot) + [MarkSeg(code[i - 1], dot, dash)]
  }

  /** How long they take. */
  function CharLength(code: string, i: nat, pending: int, dot: int, dash: int): int
    requires i <= |code|
  {
    if i == 0 then 0
    else
      CharLength(code, i - 1, pending, dot, dash)
      + Units(if i == 1 then pending else 1, dot) + MarkSeg(code[i - 1], dot, dash).len
  }

  function Length(segs: seq<Seg>, n: nat): int
    requires n <= |segs|
  {
    if n == 0 then 0 else Length(segs, n - 1) + segs[n - 1].len
  }

  function SendKey(s: Sending, k: Key, dot: int, dash: int): Sending {
    match k
    case Blank =>
      if !s.atStart && s.pending < 7 then s.(pending := 7, chars := s.chars + [CwCh(' ', s.end)]) else s
    case Letter(sign, code) =>
      var end := s.end + CharLength(code, |code|, s.pending, dot, dash);
      Sending(3, false, s.segs + CharSegs(code, |code|, s.pending, dot, dash), s.chars + [CwCh(sign, end)], end)
  }

  function SendKeys(s: Sending, ks: seq<Key>, n: nat, dot: int, dash: int): Sending
    requires n <= |ks|
  {
    if n == 0 then s else SendKey(SendKeys(s, ks, n - 1, dot, dash), ks[n - 1], dot, dash)
  }

  function SendText(s: Sending, text: string, dot: int, dash: int): Sending {
    SendKeys(s, Keys(text), |Keys(text)|, dot, dash)
  }

  lemma LengthAppend(a: seq<Seg>, b: seq<Seg>, n: nat)
    requires n <= |b|
    ensures Length(a + b, |a| + n) == Length(a, |a|) + Length(b, n)
  {
    if n == 0 {
      LengthPrefix(a, b, |a|);
    } else {
      LengthAppend(a, b, n - 1);
    }
  }

  lemma LengthPrefix(a: seq<Seg>, b: seq<Seg>, n: nat)
    requires n <= |a|
    ensures Length(a + b, n) == Length(a, n)
  {}

  lemma CharLengthIs(code: string, i: nat, pending: int, dot: int, dash: int)
    requires i <= |code|
    ensures
      var segs := CharSegs(code, i, pending, dot, dash);
      CharLength(code, i, pending, dot, dash) == Length(segs, |segs|)
  {
    if i > 0 {
      var front := CharSegs(code, i - 1, pending, dot, dash);
      var last := GapSeg(if i == 1 then pending else 1, dot) + [MarkSeg(code[i - 1], dot, dash)];
      CharLengthIs(code, i - 1, pending, dot, dash);
      LengthAppend(front, last, |last|);
      assert front + last == CharSegs(code, i, pending, dot, dash);
      assert Length(last, 1) == last[0].len;
    }
  }

  // ---- the receiver ---------------------------------------------------------

  /** Letters read so far and the code-tree node of the letter being read (1 = none begun). */
  datatype Hearing = Hearing(text: string, node: nat)

  function EndLetter(h: Hearing): string {
    if h.node == 1 then h.text else h.text + [LetterAt(h.node)]
  }

  /** One keyed segment as an operator hears it, `dot` samples being the unit: marks of
      one and three units, gaps of one, three and seven (section 2 of Part I of Annex 1
      of ITU-R M.1677-1). Any other length reads as an error sign. */
  function HearSeg(h: Hearing, s: Seg, dot: int): Hearing {
    if s.down && s.len == dot then h.(node := 2 * h.node)
    else if s.down && s.len == 3 * dot then h.(node := 2 * h.node + 1)
    else if !s.down && s.len == dot then h
    else if !s.down && s.len == 3 * dot then Hearing(EndLetter(h), 1)
    else if !s.down && s.len == 7 * dot then Hearing(EndLetter(h) + " ", 1)
    else Hearing(h.text + "#", 1)
  }

  function Hear(segs: seq<Seg>, n: nat, dot: int): Hearing
    requires n <= |segs|
  {
    if n == 0 then Hearing("", 1) else HearSeg(Hear(segs, n - 1, dot), segs[n - 1], dot)
  }

  function Heard(segs: seq<Seg>, dot: int): Hearing { Hear(segs, |segs|, dot) }

  function Decode(segs: seq<Seg>, dot: int): string { EndLetter(Heard(segs, dot)) }

  lemma HearPrefix(a: seq<Seg>, b: seq<Seg>, n: nat, dot: int)
    requires n <= |a|
    ensures Hear(a + b, n, dot) == Hear(a, n, dot)
  {}

  lemma HearAppend(a: seq<Seg>, s: Seg, dot: int)
    ensures Heard(a + [s], dot) == HearSeg(Heard(a, dot), s, dot)
  {
    HearPrefix(a, [s], |a|, dot);
  }

  // ---- what the text means --------------------------------------------------

  /** The keyable content: capitals, one ' ' for each blank, unknown characters dropped. */
  function Plain(ks: seq<Key>): string {
    seq(|ks|, i requires 0 <= i < |ks| => if ks[i].Blank? then ' ' else ks[i].sign)
  }

  predicate EndsBlank(s: string) { s != "" && s[|s| - 1] == ' ' }

  /** The first `n` characters with blanks in front removed and every run of blanks made one. */
  function Squeeze(s: string, n: nat): string
    requires n <= |s|
  {
    if n == 0 then ""
    else
      var t := Squeeze(s, n - 1);
      if s[n - 1] == ' ' && (t == "" || EndsBlank(t)) then t else t + [s[n - 1]]
  }

  function TrimEnd(s: string): string {
    if EndsBlank(s) then s[..|s| - 1] else s
  }

  /** The text as keyed; a blank at the end, which keys nothing, is still there. */
  function Spaced(ks: seq<Key>): string { Squeeze(Plain(ks), |ks|) }

  /** What a character is understood as: a blank as a space, a letter as its capital, and what the receiver's tree
      does not have as nothing. */
  ghost function SignOf(c: char): string {
    if c == ' ' || c == '\t' || c == '\n' then " " else if InTree(Capital(c)) then [Capital(c)] else ""
  }

  /** The signs of the first `n` characters of a text. */
  ghost function Signs(text: string, n: nat): string
    requires n <= |text|
  {
    if n == 0 then "" else Signs(text, n - 1) + SignOf(text[n - 1])
  }

  /** The text as it should be keyed, and the text as it should be understood. */
  ghost function AsKeyed(text: string): string { Squeeze(Signs(text, |text|), |Signs(text, |text|)|) }

  ghost function Normal(text: string): string { TrimEnd(AsKeyed(text)) }

  lemma {:induction false} PlainIsSigns(text: string, n: nat)
    requires n <= |text|
    ensures Plain(KeysTo(text, n)) == Signs(text, n)
  {
    if n > 0 {
      var ks, k := KeysTo(text, n - 1), KeyOf(text[n - 1]);
      assert Plain(ks) == Signs(text, n - 1) by { PlainIsSigns(text, n - 1); }
      assert Plain(k) == SignOf(text[n - 1]) by { KeyIsSign(text[n - 1]); }
      PlainAppend(ks, k);
    }
  }

  lemma PlainAppend(a: seq<Key>, b: seq<Key>)
    ensures Plain(a + b) == Plain(a) + Plain(b)
  {}

  lemma KeyIsSign(c: char)
    ensures Plain(KeyOf(c)) == SignOf(c)
  {
    KeyableIsInTree(c);
    CapitalIs(c);
  }

  /** A key whose code reads back to its sign, as every key of a text does. */
  predicate Sound(k: Key) { k.Letter? ==> Spells(k.code, k.sign) }

  lemma KeyIsSound(c: char)
    ensures forall k :: k in KeyOf(c) ==> Sound(k)
  {
    if !IsBlank(c) && MorseOf(c) != "" {
      MorseReadsBack(c);
    }
  }

  lemma KeysAreSound(text: string, n: nat)
    requires n <= |text|
    ensures forall k :: k in KeysTo(text, n) ==> Sound(k)
  {
    if n > 0 {
      KeysAreSound(text, n - 1);
      KeyIsSound(text[n - 1]);
    }
  }

  // ---- round trip -----------------------------------------------------------

  /** A gap before a character, as heard. */
  function HearGap(h: Hearing, units: int, dot: int): Hearing {
    if units > 0 then HearSeg(h, Seg(false, units * dot), dot) else h
  }

  lemma HearGapAndMark(a: seq<Seg>, gap: int, mark: Seg, dot: int)
    ensures Heard(a + (GapSeg(gap, dot) + [mark]), dot) == HearSeg(HearGap(Heard(a, dot), gap, dot), mark, dot)
  {
    if gap > 0 {
      HearAppend(a, Seg(false, gap * dot), dot);
      HearAppend(a + [Seg(false, gap * dot)], mark, dot);
      assert a + (GapSeg(gap, dot) + [mark]) == a + [Seg(false, gap * dot)] + [mark];
    } else {
      HearAppend(a, mark, dot);
      assert GapSeg(gap, dot) + [mark] == [mark];
    }
  }

  lemma {:induction false} HearChar(a: seq<Seg>, code: string, i: nat, pending: int, dot: int)
    requires dot > 0 && 1 <= i <= |code|
    requires forall i :: 0 <= i < |code| ==> code[i] == '.' || code[i] == '-'
    ensures
      var before := HearGap(Heard(a, dot), pending, dot);
      Heard(a + CharSegs(code, i, pending, dot, 3 * dot), dot) == before.(node := CodeNode(before.node, code, i))
  {
    var front := CharSegs(code, i - 1, pending, dot, 3 * dot);
    var gap, mark := if i == 1 then pending else 1, MarkSeg(code[i - 1], dot, 3 * dot);
    HearGapAndMark(a + front, gap, mark, dot);
    assert a + front + (GapSeg(gap, dot) + [mark]) == a + CharSegs(code, i, pending, dot, 3 * dot);
    if i == 1 {
      assert a + front == a;
    } else {
      HearChar(a, code, i - 1, pending, dot);
    }
  }

  lemma CodeNodeGrows(node: nat, code: string, i: nat)
    requires node >= 1 && i <= |code|
    ensures CodeNode(node, code, i) >= node
    ensures i > 0 ==> CodeNode(node, code, i) > node
  {}

  /** The receiver of a half-sent text has `sq`, less the blank still owed. */
  ghost predicate InStep(s: Sending, sq: string, dot: int) {
    var h := Heard(s.segs, dot);
    && s.atStart == (sq == "")
    && s.pending == (if sq == "" then 0 else if EndsBlank(sq) then 7 else 3)
    && EndLetter(h) == TrimEnd(sq)
    && (sq == "" <==> h.node == 1)
    && (sq == "" ==> h.text == "")
  }

  /** The gap owed before the next mark closes the letter and sounds the owed blank. */
  lemma GapCatchesUp(s: Sending, sq: string, dot: int)
    requires dot > 0 && InStep(s, sq, dot)
    ensures HearGap(Heard(s.segs, dot), s.pending, dot) == Hearing(sq, 1)
  {
    if EndsBlank(sq) {
      assert TrimEnd(sq) + " " == sq;
    }
  }

  /** What one more key adds to the text as keyed. */
  function Grown(sq: string, k: Key): string {
    if k.Letter? then sq + [k.sign] else if sq == "" || EndsBlank(sq) then sq else sq + " "
  }

  lemma KeyKeepsStep(s: Sending, sq: string, k: Key, dot: int)
    requires dot > 0 && Sound(k) && InStep(s, sq, dot)
    ensures InStep(SendKey(s, k, dot, 3 * dot), Grown(sq, k), dot)
  {
    if k.Letter? {
      GapCatchesUp(s, sq, dot);
      HearChar(s.segs, k.code, |k.code|, s.pending, dot);
      CodeNodeGrows(1, k.code, |k.code|);
      assert Heard(SendKey(s, k, dot, 3 * dot).segs, dot) == Hearing(sq, CodeNode(1, k.code, |k.code|));
    }
  }

  lemma SpacedNext(ks: seq<Key>, n: nat)
    requires n < |ks| && Sound(ks[n])
    ensures Squeeze(Plain(ks), n + 1) == Grown(Squeeze(Plain(ks), n), ks[n])
  {}

  lemma {:induction false} StaysInStep(ks: seq<Key>, n: nat, dot: int, end: int)
    requires dot > 0 && n <= |ks| && forall k :: k in ks ==> Sound(k)
    ensures InStep(SendKeys(Start(true, end), ks, n, dot, 3 * dot), Squeeze(Plain(ks), n), dot)
  {
    if n > 0 {
      StaysInStep(ks, n - 1, dot, end);
      SpacedNext(ks, n - 1);
      KeyKeepsStep(SendKeys(Start(true, end), ks, n - 1, dot, 3 * dot), Squeeze(Plain(ks), n - 1), ks[n - 1], dot);
    }
  }

  /** Sending from idle at weight 50 is understood: the keyed segments decode to the text
      in capitals, without unknown characters and without spare blanks. */
  lemma RoundTrip(text: string, dot: int, end: int)
    requires dot > 0
    ensures Decode(SendText(Start(true, end), text, dot, 3 * dot).segs, dot) == Normal(text)
  {
    KeysAreSound(text, |text|);
    PlainIsSigns(text, |text|);
    StaysInStep(Keys(text), |Keys(text)|, dot, end);
  }

  // ---- the record shown to the operator --------------------------------------

  function Letters(chars: seq<CwCh>): string {
    seq(|chars|, i requires 0 <= i < |chars| => chars[i].ch)
  }

  /** The first `k + 1` recorded characters are what the receiver has once the schedule
      has been played up to the end position of the last of them. */
  ghost predicate HeardBy(s: Sending, start: int, k: nat, dot: int)
    requires k < |s.chars|
  {
    exists j :: 0 <= j <= |s.segs| && HeardAt(s, start, k, j, dot)
  }

  ghost predicate HeardAt(s: Sending, start: int, k: nat, j: nat, dot: int)
    requires k < |s.chars| && j <= |s.segs|
  {
    && start + Length(s.segs, j) == s.chars[k].end
    && EndLetter(Hear(s.segs, j, dot)) == TrimEnd(Letters(s.chars)[..k + 1])
  }

  lemma HeardByKept(s: Sending, s': Sending, more: seq<Seg>, start: int, k: nat, dot: int)
    requires k < |s.chars| && s'.segs == s.segs + more && s.chars <= s'.chars && HeardBy(s, start, k, dot)
    ensures HeardBy(s', start, k, dot)
  {
    var j :| 0 <= j <= |s.segs| && HeardAt(s, start, k, j, dot);
    HearPrefix(s.segs, more, j, dot);
    LengthPrefix(s.segs, more, j);
    assert Letters(s'.chars)[..k + 1] == Letters(s.chars)[..k + 1];
    assert HeardAt(s', start, k, j, dot);
  }

  /** What a key queues. */
  function KeySegs(s: Sending, k: Key, dot: int): seq<Seg> {
    if k.Blank? then [] else CharSegs(k.code, |k.code|, s.pending, dot, 3 * dot)
  }

  lemma RecordGrows(s: Sending, k: Key, dot: int)
    ensures
      var s' := SendKey(s, k, dot, 3 * dot);
      && s'.segs == s.segs + KeySegs(s, k, dot)
      && s'.end - s.end == Length(s'.segs, |s'.segs|) - Length(s.segs, |s.segs|)
      && (s' == s || s'.chars == s.chars + [CwCh(if k.Blank? then ' ' else k.sign, s'.end)])
  {
    if k.Letter? {
      var segs := KeySegs(s, k, dot);
      CharLengthIs(k.code, |k.code|, s.pending, dot, 3 * dot);
      LengthAppend(s.segs, segs, |segs|);
    }
  }

  /** A record added at the current end of the schedule tells what has been heard by then. */
  lemma NewRecordHeard(s: Sending, start: int, dot: int)
    requires s.chars != [] && s.chars[|s.chars| - 1].end == s.end
    requires s.end == start + Length(s.segs, |s.segs|)
    requires InStep(s, Letters(s.chars), dot)
    ensures HeardBy(s, start, |s.chars| - 1, dot)
  {
    assert Letters(s.chars)[..|s.chars|] == Letters(s.chars);
    assert HeardAt(s, start, |s.chars| - 1, |s.segs|, dot);
  }

  /** The record is the text as keyed (a trailing blank still shown), and every recorded
      character carries the schedule position by which it has been heard. */
  ghost predicate RecordTells(s: Sending, sq: string, start: int, dot: int) {
    && Letters(s.chars) == sq
    && s.end == start + Length(s.segs, |s.segs|)
    && forall k :: 0 <= k < |s.chars| ==> HeardBy(s, start, k, dot)
  }

  lemma KeyIsRecorded(p: Sending, sq: string, k: Key, dot: int)
    requires Letters(p.chars) == sq && p.atStart == (sq == "") && (p.pending == 7 <==> EndsBlank(sq)) && p.pending <= 7
    ensures Letters(SendKey(p, k, dot, 3 * dot).chars) == Grown(sq, k)
  {
    LettersNext(p.chars, CwCh(if k.Blank? then ' ' else k.sign, SendKey(p, k, dot, 3 * dot).end));
  }

  lemma RecordOfNextKey(p: Sending, sq: string, s: Sending, k: Key, start: int, dot: int)
    requires RecordTells(p, sq, start, dot) && s == SendKey(p, k, dot, 3 * dot)
    requires InStep(s, Letters(s.chars), dot)
    ensures RecordTells(s, Letters(s.chars), start, dot)
  {
    RecordGrows(p, k, dot);
    if s != p {
      NewRecordHeard(s, start, dot);
      OldRecordsHeard(p, s, k, start, dot);
    }
  }

  lemma LettersNext(chars: seq<CwCh>, c: CwCh)
    ensures Letters(chars + [c]) == Letters(chars) + [c.ch]
  {}

  lemma OldRecordsHeard(p: Sending, s: Sending, k: Key, start: int, dot: int)
    requires p.chars <= s.chars && s.segs == p.segs + KeySegs(p, k, dot)
    requires forall i :: 0 <= i < |p.chars| ==> HeardBy(p, start, i, dot)
    ensures forall i :: 0 <= i < |p.chars| ==> HeardBy(s, start, i, dot)
  {
    forall i | 0 <= i < |p.chars| ensures HeardBy(s, start, i, dot) {
      HeardByKept(p, s, KeySegs(p, k, dot), start, i, dot);
    }
  }

  lemma RecordStep(p: Sending, sq: string, k: Key, start: int, dot: int)
    requires RecordTells(p, sq, start, dot) && InStep(p, sq, dot)
    requires InStep(SendKey(p, k, dot, 3 * dot), Grown(sq, k), dot)
    ensures RecordTells(SendKey(p, k, dot, 3 * dot), Grown(sq, k), start, dot)
  {
    KeyIsRecorded(p, sq, k, dot);
    RecordOfNextKey(p, sq, SendKey(p, k, dot, 3 * dot), k, start, dot);
  }

  lemma StepInStep(ks: seq<Key>, n: nat, dot: int, end: int)
    requires dot > 0 && n < |ks| && forall k :: k in ks ==> Sound(k)
    ensures
      var p, sq := SendKeys(Start(true, end), ks, n, dot, 3 * dot), Squeeze(Plain(ks), n);
      InStep(p, sq, dot) && InStep(SendKey(p, ks[n], dot, 3 * dot), Grown(sq, ks[n]), dot)
  {
    StaysInStep(ks, n, dot, end);
    KeyKeepsStep(SendKeys(Start(true, end), ks, n, dot, 3 * dot), Squeeze(Plain(ks), n), ks[n], dot);
  }

  lemma {:induction false} RecordOfKeys(ks: seq<Key>, n: nat, dot: int, start: int)
    requires dot > 0 && n <= |ks| && forall k :: k in ks ==> Sound(k)
    ensures RecordTells(SendKeys(Start(true, start), ks, n, dot, 3 * dot), Squeeze(Plain(ks), n), start, dot)
  {
    if n > 0 {
      RecordOfKeys(ks, n - 1, dot, start);
      RecordNext(ks, n - 1, dot, start);
    }
  }

  lemma RecordNext(ks: seq<Key>, n: nat, dot: int, start: int)
    requires dot > 0 && n < |ks| && forall k :: k in ks ==> Sound(k)
    requires RecordTells(SendKeys(Start(true, start), ks, n, dot, 3 * dot), Squeeze(Plain(ks), n), start, dot)
    ensures RecordTells(SendKeys(Start(true, start), ks, n + 1, dot, 3 * dot), Squeeze(Plain(ks), n + 1), start, dot)
  {
    var p, sq := SendKeys(Start(true, start), ks, n, dot, 3 * dot), Squeeze(Plain(ks), n);
    assert Squeeze(Plain(ks), n + 1) == Grown(sq, ks[n]) by { SpacedNext(ks, n); }
    assert RecordTells(SendKey(p, ks[n], dot, 3 * dot), Grown(sq, ks[n]), start, dot) by {
      StepInStep(ks, n, dot, start);
      RecordStep(p, sq, ks[n], start, dot);
    }
  }

  lemma RecordTellsWhatWasHeard(text: string, dot: int, start: int)
    requires dot > 0
    ensures RecordTells(SendText(Start(true, start), text, dot, 3 * dot), AsKeyed(text), start, dot)
  {
    PlainIsSigns(text, |text|);
    KeysAreSound(text, |text|);
    RecordOfKeys(Keys(text), |Keys(text)|, dot, start);
  }

  // ---- two sends in a row -----------------------------------------------------

  lemma KeysPrefix(a: string, b: string, n: nat)
    requires n <= |a|
    ensures KeysTo(a + b, n) == KeysTo(a, n)
  {}

  lemma KeysAppend(a: string, b: string, n: nat)
    requires n <= |b|
    ensures KeysTo(a + b, |a| + n) == Keys(a) + KeysTo(b, n)
  {
    if n == 0 {
      KeysPrefix(a, b, |a|);
    } else {
      KeysAppend(a, b, n - 1);
    }
  }

  lemma SendKeysPrefix(s: Sending, a: seq<Key>, b: seq<Key>, n: nat, dot: int, dash: int)
    requires n <= |a|
    ensures SendKeys(s, a + b, n, dot, dash) == SendKeys(s, a, n, dot, dash)
  {}

  lemma SendKeysAppend(s: Sending, a: seq<Key>, b: seq<Key>, n: nat, dot: int, dash: int)
    requires n <= |b|
    ensures SendKeys(s, a + b, |a| + n, dot, dash) == SendKeys(SendKeys(s, a, |a|, dot, dash), b, n, dot, dash)
  {
    if n == 0 {
      SendKeysPrefix(s, a, b, |a|, dot, dash);
    } else {
      SendKeysAppend(s, a, b, n - 1, dot, dash);
    }
  }

  lemma GapFirst(code: string, i: nat, pending: int, dot: int, dash: int)
    requires 1 <= i <= |code|
    ensures CharSegs(code, i, pending, dot, dash) == GapSeg(pending, dot) + CharSegs(code, i, 0, dot, dash)
  {}

  /** The gap missing between the queue and a second send of `ks` onto it. */
  function Missing(pending: int, ks: seq<Key>, dot: int): seq<Seg> {
    if ks == [] || ks[0].Blank? then [] else GapSeg(pending, dot)
  }

  /** `one` continues the queue of `s`, `two` was sent on its own; `gap` is all they differ by. */
  ghost predicate SameButGap(s: Sending, gap: seq<Seg>, one: Sending, two: Sending) {
    && one.segs == s.segs + gap + two.segs
    && !one.atStart && !two.atStart
    && one.pending == two.pending && (one.pending == 3 || one.pending == 7)
  }

  lemma FirstKeyOfSecondSend(s: Sending, k: Key, end: int, dot: int, dash: int)
    requires !s.atStart && (s.pending == 3 || s.pending == 7) && Sound(k)
    ensures SameButGap(s, if k.Blank? then [] else GapSeg(s.pending, dot),
                       SendKey(s, k, dot, dash), SendKey(Start(false, end), k, dot, dash))
  {
    if k.Letter? {
      GapFirst(k.code, |k.code|, s.pending, dot, dash);
    }
  }

  lemma NextKeyOfSecondSend(s: Sending, gap: seq<Seg>, one: Sending, two: Sending, k: Key, dot: int, dash: int)
    requires SameButGap(s, gap, one, two)
    ensures SameButGap(s, gap, SendKey(one, k, dot, dash), SendKey(two, k, dot, dash))
  {}

  lemma {:induction false} SecondSend(s: Sending, ks: seq<Key>, n: nat, end: int, dot: int, dash: int)
    requires !s.atStart && (s.pending == 3 || s.pending == 7)
    requires 1 <= n <= |ks| && forall k :: k in ks ==> Sound(k)
    ensures SameButGap(s, Missing(s.pending, ks, dot),
                       SendKeys(s, ks, n, dot, dash), SendKeys(Start(false, end), ks, n, dot, dash))
  {
    if n == 1 {
      FirstKeyOfSecondSend(s, ks[0], end, dot, dash);
    } else {
      SecondSend(s, ks, n - 1, end, dot, dash);
      NextKeyOfSecondSend(s, Missing(s.pending, ks, dot), SendKeys(s, ks, n - 1, dot, dash),
                          SendKeys(Start(false, end), ks, n - 1, dot, dash), ks[n - 1], dot, dash);
    }
  }

  lemma OwesAGap(a: seq<Key>, dot: int, end: int)
    requires dot > 0 && Spaced(a) != "" && forall k :: k in a ==> Sound(k)
    ensures
      var s := SendKeys(Start(true, end), a, |a|, dot, 3 * dot);
      !s.atStart && (s.pending == 3 || s.pending == 7)
  {
    StaysInStep(a, |a|, dot, end);
  }

  lemma OnlyTheGap(x: seq<Seg>, gap: seq<Seg>, y: seq<Seg>)
    ensures x + gap + y == x + y <==> gap == []
  {
    assert |x + gap + y| == |x + y| + |gap|;
    if gap == [] {
      assert x + gap + y == x + y;
    }
  }

  lemma SendOntoBusy(first: Sending, b: seq<Key>, dot: int, end: int)
    requires dot > 0 && !first.atStart && (first.pending == 3 || first.pending == 7)
    requires forall k :: k in b ==> Sound(k)
    ensures
      SendKeys(first, b, |b|, dot, 3 * dot).segs
        == first.segs + SendKeys(Start(false, end), b, |b|, dot, 3 * dot).segs
      <==> b == [] || b[0].Blank?
  {
    if b == [] {
      assert first.segs + [] == first.segs;
    } else {
      SecondSend(first, b, |b|, end, dot, 3 * dot);
      OnlyTheGap(first.segs, Missing(first.pending, b, dot), SendKeys(Start(false, end), b, |b|, dot, 3 * dot).segs);
    }
  }

  lemma TwoKeySends(a: seq<Key>, b: seq<Key>, dot: int, end: int, end2: int)
    requires dot > 0 && Spaced(a) != "" && forall k :: k in a + b ==> Sound(k)
    ensures
      SendKeys(Start(true, end), a + b, |a + b|, dot, 3 * dot).segs
        == SendKeys(Start(true, end), a, |a|, dot, 3 * dot).segs
         + SendKeys(Start(false, end2), b, |b|, dot, 3 * dot).segs
      <==> b == [] || b[0].Blank?
  {
    SendKeysAppend(Start(true, end), a, b, |b|, dot, 3 * dot);
    OwesAGap(a, dot, end);
    SendOntoBusy(SendKeys(Start(true, end), a, |a|, dot, 3 * dot), b, dot, end2);
  }

  lemma BeginsBlank(text: string)
    ensures (Keys(text) == [] || Keys(text)[0].Blank?) <==> (Signs(text, |text|) == "" || Signs(text, |text|)[0] == ' ')
  {
    var ks := Keys(text);
    PlainIsSigns(text, |text|);
    KeysAreSound(text, |text|);
    if ks != [] {
      assert Sound(ks[0]);
      assert Plain(ks)[0] == if ks[0].Blank? then ' ' else ks[0].sign;
    }
  }

  lemma TwoTextSends(a: string, b: string, dot: int, end: int, end2: int)
    requires dot > 0 && Spaced(Keys(a)) != ""
    ensures
      var first, second := SendText(Start(true, end), a, dot, 3 * dot), SendText(Start(false, end2), b, dot, 3 * dot);
      SendText(Start(true, end), a + b, dot, 3 * dot).segs == first.segs + second.segs
      <==> Keys(b) == [] || Keys(b)[0].Blank?
  {
    KeysAreSound(a, |a|);
    KeysAreSound(b, |b|);
    KeysAppend(a, b, |b|);
    TwoKeySends(Keys(a), Keys(b), dot, end, end2);
  }

  /** Two sends, the second onto a queue the first left busy, key the same schedule as one
      send of both texts exactly when the second text begins with a blank (or keys nothing):
      the gap owed by the first send is forgotten with it. */
  lemma TwoSendsAreOne(a: string, b: string, dot: int, end: int, end2: int)
    requires dot > 0 && AsKeyed(a) != ""
    ensures
      var first, second := SendText(Start(true, end), a, dot, 3 * dot), SendText(Start(false, end2), b, dot, 3 * dot);
      SendText(Start(true, end), a + b, dot, 3 * dot).segs == first.segs + second.segs
      <==> Signs(b, |b|) == "" || Signs(b, |b|)[0] == ' '
  {
    PlainIsSigns(a, |a|);
    BeginsBlank(b);
    TwoTextSends(a, b, dot, end, end2);
  }
}
