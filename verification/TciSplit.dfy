/** Splitting a received frame into commands in place: separators become NULs, the pieces stay
    where they are in the buffer. */
module TciSplit {
  import opened Sequences
  import opened TciText

  // ---- in the buffer -----------------------------------------------------------------------

  /** The buffer `b` still has `s[i..j]` in its place, closed by a NUL. */
  ghost predicate At(b: seq<char>, s: string, i: nat, j: nat) {
    && i <= j <= |s| && j < |b| && b[j] == NUL
    && forall x :: i <= x < j ==> b[x] == s[x] && s[x] != NUL
  }

  lemma CloseAt(b: seq<char>, s: string, i: nat, j: nat, k: nat)
    requires At(b, s, i, j) && i <= k < j
    ensures At(b[k := NUL], s, i, k) && At(b[k := NUL], s, k + 1, j)
  {}

  /** A piece survives whatever happens outside it. */
  lemma Elsewhere(b: seq<char>, b': seq<char>, s: string, i: nat, j: nat)
    requires At(b, s, i, j) && |b'| == |b| && forall x :: i <= x <= j ==> b'[x] == b[x]
    ensures At(b', s, i, j)
  {}

  lemma Later(b: seq<char>, s: string, i: nat, j: nat, k: nat)
    requires At(b, s, i, j) && i <= k <= j
    ensures At(b, s, k, j) && forall x :: k <= x < j ==> s[k..j][x - k] == b[x] != NUL
  {}

  lemma HereIs(b: seq<char>, s: string, i: nat, j: nat, x: nat)
    requires At(b, s, i, j) && i <= x <= j
    ensures x < |b| && (b[x] == NUL <==> x == j) && (x < j ==> b[x] == s[x])
  {}

  /** `strchr` from `i`: where `c` next stands, or -1. */
  method StrChr(buf: array<char>, i: nat, c: char, ghost s: string, ghost j: nat) returns (k: int)
    requires At(buf[..], s, i, j) && c != NUL
    ensures k == if FindIn(s, c, i, j) == j then -1 else FindIn(s, c, i, j)
  {
    k := i;
    HereIs(buf[..], s, i, j, k);
    while buf[k] != NUL && buf[k] != c
      invariant i <= k <= j < buf.Length && FindIn(s, c, i, j) == FindIn(s, c, k, j)
      invariant (buf[k] == NUL <==> k == j) && (k < j ==> buf[k] == s[k])
      decreases j - k
    {
      k := k + 1;
      HereIs(buf[..], s, i, j, k);
    }
    if buf[k] == NUL { k := -1; }
  }

  /** Two buffers agree outside `[i..j)`. */
  ghost predicate SameOutside(b: seq<char>, b': seq<char>, i: nat, j: nat) {
    |b'| == |b| && forall x :: 0 <= x < |b| && (x < i || j <= x) ==> b'[x] == b[x]
  }

  /** The piece `s[i..j]` cut at `k`: closed there, the rest in its place. */
  ghost predicate CutUp(was: seq<char>, now: seq<char>, s: string, i: nat, k: nat, j: nat, next: int) {
    && SameOutside(was, now, i, j) && At(now, s, i, k)
    && if k == j then next == -1 else next == k + 1 && At(now, s, k + 1, j)
  }

  /** Closes the piece at `i` where `c` stands; the start of what follows, or -1. */
  method CutAt(buf: array<char>, i: nat, c: char, ghost s: string, ghost j: nat) returns (next: int)
    requires At(buf[..], s, i, j) && c != NUL
    modifies buf
    ensures CutUp(old(buf[..]), buf[..], s, i, FindIn(s, c, i, j), j, next)
  {
    next := StrChr(buf, i, c, s, j);
    if next >= 0 {
      CloseAt(buf[..], s, i, j, next);
      buf[next] := NUL;
      next := next + 1;
    }
  }

  /** The fields found so far stand closed where they begin, all before `to`. */
  ghost predicate FieldsAt(b: seq<char>, s: string, av: seq<nat>, fs: seq<(nat, nat)>, i: nat, to: nat) {
    && |av| == |fs|
    && forall x :: 0 <= x < |av| ==> FieldAt(b, s, av[x], fs[x], i, to)
  }

  ghost predicate FieldAt(b: seq<char>, s: string, p: nat, f: (nat, nat), i: nat, to: nat) {
    p == f.0 && i <= f.0 <= f.1 < to && At(b, s, f.0, f.1)
  }

  lemma FieldsKept(b: seq<char>, b': seq<char>, s: string, av: seq<nat>, fs: seq<(nat, nat)>, i: nat, to: nat, to': nat)
    requires FieldsAt(b, s, av, fs, i, to) && |b'| == |b| && to <= to'
    requires forall x :: 0 <= x < to && x < |b| ==> b'[x] == b[x]
    ensures FieldsAt(b', s, av, fs, i, to')
  {
    forall x | 0 <= x < |av| ensures FieldAt(b', s, av[x], fs[x], i, to') {
      assert FieldAt(b, s, av[x], fs[x], i, to);
      Elsewhere(b, b', s, fs[x].0, fs[x].1);
    }
  }

  lemma FieldAdded(b: seq<char>, s: string, av: seq<nat>, fs: seq<(nat, nat)>, i: nat, p: nat, k: nat, to: nat)
    requires FieldsAt(b, s, av, fs, i, to) && i <= p <= k < to && At(b, s, p, k)
    ensures FieldsAt(b, s, av + [p], fs + [(p, k)], i, to)
  {
    forall x | 0 <= x < |av| + 1 ensures FieldAt(b, s, (av + [p])[x], (fs + [(p, k)])[x], i, to) {
      if x < |av| {
        assert FieldAt(b, s, av[x], fs[x], i, to);
      }
    }
  }

  // ---- the fields, found from the left ----------------------------------------------------

  /** The fields of which `fs` have been found and those from `args` on (none if negative) are to come. */
  function SplitOn(s: string, args: int, j: nat, fs: seq<(nat, nat)>): seq<(nat, nat)>
    requires args <= j <= |s|
    decreases MAX_ARGS - |fs|
  {
    if args < 0 || |fs| >= MAX_ARGS then fs
    else
      var k := FindIn(s, ',', args, j);
      SplitOn(s, if k == j then -1 else k + 1, j, fs + [(args, k)])
  }

  lemma {:induction false} SplitOnIs(s: string, args: nat, j: nat, fs: seq<(nat, nat)>)
    requires args <= j <= |s| && |fs| <= MAX_ARGS
    ensures SplitOn(s, args, j, fs) == fs + Bounds(s, args, j, MAX_ARGS - |fs|)
    decreases MAX_ARGS - |fs|
  {
    if |fs| < MAX_ARGS {
      var k, m := FindIn(s, ',', args, j), MAX_ARGS - |fs|;
      var rest := if k == j then [] else Bounds(s, k + 1, j, m - 1);
      assert Bounds(s, args, j, m) == [(args, k)] + rest;
      Regroup(fs, [(args, k)], rest);
      if k < j {
        SplitOnIs(s, k + 1, j, fs + [(args, k)]);
      }
    }
  }

  /** The fields `fs` stand closed where `av` says, the rest from `args` on is untouched. */
  ghost predicate Splitting(b: seq<char>, s: string, i: nat, j: nat, av: seq<nat>, fs: seq<(nat, nat)>, args: int) {
    && i <= j <= |s| && args <= j && (args >= 0 ==> i <= args)
    && SplitOn(s, args, j, fs) == Bounds(s, i, j, MAX_ARGS)
    && FieldsAt(b, s, av, fs, i, if args < 0 then j + 1 else args)
    && (args >= 0 ==> At(b, s, args, j))
  }

  lemma FieldsTaken(was: seq<char>, now: seq<char>, s: string, i: nat, j: nat, av: seq<nat>, fs: seq<(nat, nat)>, args: nat, next: int)
    requires i <= args <= j <= |s| && FieldsAt(was, s, av, fs, i, args)
    requires CutUp(was, now, s, args, FindIn(s, ',', args, j), j, next)
    ensures var k := FindIn(s, ',', args, j); FieldsAt(now, s, av + [args], fs + [(args, k)], i, k + 1)
  {
    var k := FindIn(s, ',', args, j);
    FieldsKept(was, now, s, av, fs, i, args, k + 1);
    FieldAdded(now, s, av, fs, i, args, k, k + 1);
  }

  /** What cutting at the next comma does. */
  lemma FieldTaken(was: seq<char>, now: seq<char>, s: string, i: nat, j: nat, av: seq<nat>, fs: seq<(nat, nat)>, args: nat, next: int)
    requires Splitting(was, s, i, j, av, fs, args) && |fs| < MAX_ARGS
    requires CutUp(was, now, s, args, FindIn(s, ',', args, j), j, next)
    ensures Splitting(now, s, i, j, av + [args], fs + [(args, FindIn(s, ',', args, j))], next)
  {
    FieldsTaken(was, now, s, i, j, av, fs, args, next);
  }

  lemma SplitDone(b: seq<char>, s: string, i: nat, j: nat, av: seq<nat>, fs: seq<(nat, nat)>, args: int)
    requires Splitting(b, s, i, j, av, fs, args) && (|fs| == MAX_ARGS || args < 0)
    ensures fs == Bounds(s, i, j, MAX_ARGS) && FieldsAt(b, s, av, fs, i, j + 1)
  {
    if args >= 0 {
      FieldsKept(b, b, s, av, fs, i, args, j + 1);
    }
  }

  /** Commas become NULs; returns where each field starts. What follows the eighth is left behind. */
  method SplitArgs(buf: array<char>, i: nat, ghost s: string, ghost j: nat) returns (av: seq<nat>, ghost fs: seq<(nat, nat)>)
    requires At(buf[..], s, i, j)
    modifies buf
    ensures fs == Bounds(s, i, j, MAX_ARGS) && FieldsAt(buf[..], s, av, fs, i, j + 1)
    ensures SameOutside(old(buf[..]), buf[..], i, j)
  {
    av, fs := [], [];
    var args: int := i;
    ghost var before := buf[..];
    SplitOnIs(s, i, j, []);
    while |av| < MAX_ARGS && args >= 0
      invariant |av| <= MAX_ARGS && Splitting(buf[..], s, i, j, av, fs, args)
      invariant SameOutside(before, buf[..], i, j)
      decreases MAX_ARGS - |av|
    {
      av, args, fs := TakeField(buf, args, av, s, i, j, fs);
    }
    SplitDone(buf[..], s, i, j, av, fs, args);
  }

  /** One field more. */
  method TakeField(buf: array<char>, args: nat, av: seq<nat>, ghost s: string, ghost i: nat, ghost j: nat, ghost fs: seq<(nat, nat)>)
      returns (av': seq<nat>, next: int, ghost fs': seq<(nat, nat)>)
    requires |av| < MAX_ARGS && Splitting(buf[..], s, i, j, av, fs, args)
    modifies buf
    ensures |av'| == |av| + 1 && Splitting(buf[..], s, i, j, av', fs', next)
    ensures SameOutside(old(buf[..]), buf[..], i, j)
  {
    ghost var was := buf[..];
    next := CutAt(buf, args, ',', s, j);
    FieldTaken(was, buf[..], s, i, j, av, fs, args, next);
    av', fs' := av + [args], fs + [(args, FindIn(s, ',', args, j))];
  }

  method ReadCStr(buf: array<char>, i: nat, ghost s: string, ghost j: nat) returns (t: string)
    requires At(buf[..], s, i, j)
    ensures t == s[i..j]
  {
    t := "";
    HereIs(buf[..], s, i, j, i);
    while buf[i + |t|] != NUL
      invariant i + |t| <= j < buf.Length && t == s[i..i + |t|]
      invariant (buf[i + |t|] == NUL <==> i + |t| == j) && (i + |t| < j ==> buf[i + |t|] == s[i + |t|])
      decreases j - i - |t|
    {
      t := t + [buf[i + |t|]];
      HereIs(buf[..], s, i, j, i + |t|);
    }
  }

  method ReadArgs(buf: array<char>, i: nat, ghost s: string, ghost j: nat) returns (texts: seq<string>)
    requires At(buf[..], s, i, j)
    modifies buf
    ensures texts == FieldsIn(s, i, j, MAX_ARGS)
    ensures SameOutside(old(buf[..]), buf[..], i, j)
  {
    var av, fs := SplitArgs(buf, i, s, j);
    ghost var want := Texts(s, fs);
    texts := [];
    while |texts| < |av|
      invariant |texts| <= |av| && texts == want[..|texts|]
      modifies {}
    {
      var n := |texts|;
      assert FieldAt(buf[..], s, av[n], fs[n], i, j + 1);
      var a := ReadCStr(buf, av[n], s, fs[n].1);
      assert want[n] == a;
      texts := texts + [a];
    }
  }

  // ---- the name ---------------------------------------------------------------------------------

  method StrEnd(buf: array<char>, i: nat, ghost s: string, ghost j: nat) returns (e: nat)
    requires At(buf[..], s, i, j)
    ensures e == j
  {
    e := i;
    HereIs(buf[..], s, i, j, e);
    while buf[e] != NUL
      invariant i <= e <= j < buf.Length && (buf[e] == NUL <==> e == j)
      decreases j - e
    {
      e := e + 1;
      HereIs(buf[..], s, i, j, e);
    }
  }

  /** Past the white space at the start. */
  method SkipSpace(buf: array<char>, i: nat, ghost s: string, ghost e: nat) returns (b: nat)
    requires At(buf[..], s, i, e)
    ensures b == StripStart(s, i, e)
  {
    b := i;
    HereIs(buf[..], s, i, e, b);
    while IsSpace(buf[b])
      invariant i <= b <= e < buf.Length && StripStart(s, i, e) == StripStart(s, b, e)
      invariant (buf[b] == NUL <==> b == e) && (b < e ==> buf[b] == s[b])
      decreases e - b
    {
      b := b + 1;
      HereIs(buf[..], s, i, e, b);
    }
  }

  /** `now` is `was` with `was[b..e]` also at `i`. */
  ghost predicate Moved(was: seq<char>, now: seq<char>, i: nat, b: nat, e: nat) {
    i <= b <= e < |was| == |now| && forall x :: i <= x <= i + (e - b) ==> now[x] == was[x + (b - i)]
  }

  /** A name stands at `i`, closed by a NUL. */
  ghost predicate NameAt(b: seq<char>, i: nat, name: string) {
    i + |name| < |b| && b[i + |name|] == NUL && forall x :: 0 <= x < |name| ==> b[i + x] == name[x] && name[x] != NUL
  }

  lemma MovedName(was: seq<char>, now: seq<char>, s: string, i: nat, b: nat, e: nat)
    requires At(was, s, b, e) && Moved(was, now, i, b, e)
    ensures NameAt(now, i, s[b..e])
  {
    var name := s[b..e];
    forall x | 0 <= x < |name| ensures now[i + x] == name[x] && name[x] != NUL {
      assert now[i + x] == was[i + x + (b - i)] == s[b + x];
    }
    assert now[i + |name|] == was[i + |name| + (b - i)];
  }

  /** White space at its start is moved over: the rest of the piece, and its NUL, come down to `i`. */
  method Chug(buf: array<char>, i: nat, ghost s: string, ghost e: nat)
    requires At(buf[..], s, i, e)
    modifies buf
    ensures NameAt(buf[..], i, s[StripStart(s, i, e)..e])
    ensures SameOutside(old(buf[..]), buf[..], i, e + 1)
  {
    ghost var was := buf[..];
    var b := SkipSpace(buf, i, s, e);
    Later(was, s, i, e, b);
    var n := StrEnd(buf, b, s, e);
    MoveDown(buf, i, b, n);
    MovedName(was, buf[..], s, i, b, e);
  }

  /** `memmove` of `buf[b..e]` and the NUL after it down to `i`. */
  method MoveDown(buf: array<char>, i: nat, b: nat, e: nat)
    requires i <= b <= e < buf.Length
    modifies buf
    ensures Moved(old(buf[..]), buf[..], i, b, e)
    ensures SameOutside(old(buf[..]), buf[..], i, e + 1)
  {
    ghost var was := buf[..];
    for x := i to i + (e - b) + 1
      invariant forall y :: i <= y < x ==> buf[y] == was[y + (b - i)]
      invariant forall y :: x <= y < buf.Length ==> buf[y] == was[y]
      invariant forall y :: 0 <= y < i ==> buf[y] == was[y]
    {
      buf[x] := buf[x + (b - i)];
    }
  }

  lemma NameCut(b: seq<char>, i: nat, t: string, e: nat)
    requires e < |t| && NameAt(b, i, t[..e + 1])
    ensures NameAt(b[i + e := NUL], i, t[..e])
  {
    forall x | 0 <= x < e ensures b[i + e := NUL][i + x] == t[..e][x] && t[..e][x] != NUL {
      assert b[i + x] == t[..e + 1][x] != NUL;
    }
  }

  /** White space at the end of the name is closed off. */
  method Chomp(buf: array<char>, i: nat, ghost t: string)
    requires NameAt(buf[..], i, t)
    modifies buf
    ensures NameAt(buf[..], i, t[..StripEnd(t, 0, |t|)])
    ensures SameOutside(old(buf[..]), buf[..], i, i + |t|)
  {
    var e := NameLength(buf, i, t);
    assert t[..e] == t;
    while e > 0 && IsSpace(buf[i + e - 1])
      invariant 0 <= e <= |t| && i + |t| < buf.Length && StripEnd(t, 0, |t|) == StripEnd(t, 0, e)
      invariant NameAt(buf[..], i, t[..e])
      invariant SameOutside(old(buf[..]), buf[..], i, i + |t|)
    {
      NameHere(buf[..], i, t[..e], e - 1);
      NameCut(buf[..], i, t, e - 1);
      buf[i + e - 1] := NUL;
      e := e - 1;
    }
    if e > 0 {
      NameHere(buf[..], i, t[..e], e - 1);
    }
  }

  method NameLength(buf: array<char>, i: nat, ghost t: string) returns (n: nat)
    requires NameAt(buf[..], i, t)
    ensures n == |t|
  {
    n := 0;
    NameHere(buf[..], i, t, 0);
    while buf[i + n] != NUL
      invariant n <= |t| && i + |t| < buf.Length && (buf[i + n] == NUL <==> n == |t|)
      decreases |t| - n
    {
      n := n + 1;
      NameHere(buf[..], i, t, n);
    }
  }

  /** The piece stripped in place, its start first. */
  method ReadName(buf: array<char>, i: nat, ghost s: string, ghost j: nat) returns (name: string)
    requires At(buf[..], s, i, j)
    modifies buf
    ensures name == NameIn(s, i, j)
    ensures SameOutside(old(buf[..]), buf[..], i, j + 1)
  {
    Chug(buf, i, s, j);
    ghost var t := s[StripStart(s, i, j)..j];
    Chomp(buf, i, t);
    name := ReadClosed(buf, i, t[..StripEnd(t, 0, |t|)]);
  }

  method ReadClosed(buf: array<char>, i: nat, ghost want: string) returns (name: string)
    requires NameAt(buf[..], i, want)
    ensures name == want
  {
    name := "";
    NameHere(buf[..], i, want, 0);
    while buf[i + |name|] != NUL
      invariant |name| <= |want| && i + |want| < buf.Length && name == want[..|name|]
      invariant (buf[i + |name|] == NUL <==> |name| == |want|) && (|name| < |want| ==> buf[i + |name|] == want[|name|])
      decreases |want| - |name|
    {
      name := name + [buf[i + |name|]];
      NameHere(buf[..], i, want, |name|);
    }
  }

  lemma NameHere(b: seq<char>, i: nat, name: string, x: nat)
    requires NameAt(b, i, name) && x <= |name|
    ensures i + x < |b| && (b[i + x] == NUL <==> x == |name|) && (x < |name| ==> b[i + x] == name[x])
  {
    assert x < |name| ==> b[i + x] == name[x] && name[x] != NUL;
  }

  // ---- commands ------------------------------------------------------------------------------------

  /** One piece of the text, already closed, as the command it is. */
  method SplitOne(buf: array<char>, i: nat, ghost s: string, ghost j: nat) returns (c: Command)
    requires At(buf[..], s, i, j)
    modifies buf
    ensures c == CommandIn(s, i, j)
    ensures SameOutside(old(buf[..]), buf[..], i, j + 1)
  {
    ghost var k := FindIn(s, ':', i, j);
    var args := CutAt(buf, i, ':', s, j);
    var texts: seq<string> := [];
    if args >= 0 {
      texts := ReadLater(buf, args, s, i, k, j);
    }
    var name := ReadName(buf, i, s, k);
    c := Command(name, texts);
    CommandIs(s, i, k, j, name, texts);
  }

  /** The arguments of a command, its name left alone. */
  method ReadLater(buf: array<char>, args: nat, ghost s: string, ghost i: nat, ghost k: nat, ghost j: nat) returns (texts: seq<string>)
    requires At(buf[..], s, i, k) && k + 1 == args && At(buf[..], s, args, j)
    modifies buf
    ensures texts == FieldsIn(s, args, j, MAX_ARGS) && At(buf[..], s, i, k)
    ensures SameOutside(old(buf[..]), buf[..], args, j)
  {
    ghost var was := buf[..];
    texts := ReadArgs(buf, args, s, j);
    Elsewhere(was, buf[..], s, i, k);
  }

  /** Where the next piece is, `n` pieces into the text. */
  lemma NextPiece(text: string, b: seq<(nat, nat)>, n: nat, s: nat)
    requires s <= |text| && n <= |b| && Pieces(text, s) == b[n..]
    ensures var k := FindIn(text, ';', s, |text|);
      if k == |text| then n == |b| else n < |b| && b[n] == (s, k) && Pieces(text, k + 1) == b[n + 1..]
  {
    var k := FindIn(text, ';', s, |text|);
    if k < |text| {
      assert b[n..][0] == (s, k);
      assert b[n..][1..] == b[n + 1..];
    }
  }

  lemma NextNamed(text: string, b: seq<(nat, nat)>, n: nat, s: nat, k: nat)
    requires n < |b| && (forall x :: 0 <= x < |b| ==> b[x].0 <= b[x].1 <= |text|) && b[n] == (s, k)
    ensures var c := CommandIn(text, s, k);
      Named(ReadAll(text, b), n + 1) == if c.name == "" then Named(ReadAll(text, b), n) else Named(ReadAll(text, b), n) + [c]
  {
    assert ReadAll(text, b)[n] == CommandIn(text, s, k);
  }

  /** The next piece of the text closed and read as a command; `next` is -1 when there is none. */
  method NextCommand(msg: array<char>, s: nat, ghost text: string) returns (next: int, c: Command)
    requires At(msg[..], text, s, |text|)
    modifies msg
    ensures var k := FindIn(text, ';', s, |text|);
      if k == |text| then next == -1 else next == k + 1 && c == CommandIn(text, s, k) && At(msg[..], text, k + 1, |text|)
  {
    ghost var k := FindIn(text, ';', s, |text|);
    c := Command("", []);
    next := CutAt(msg, s, ';', text, |text|);
    if next >= 0 {
      ghost var was := msg[..];
      c := SplitOne(msg, s, text, k);
      Elsewhere(was, msg[..], text, k + 1, |text|);
    }
  }

  /** Splits a received text and carries out each command in turn. */
  method ProcessPayload(msg: array<char>, ghost text: string) returns (executed: seq<Command>)
    requires At(msg[..], text, 0, |text|)
    modifies msg
    ensures executed == Parse(text)
  {
    executed := [];
    var s: int := 0;
    ghost var b, n := Pieces(text, 0), 0;
    while s >= 0
      invariant s >= 0 ==> At(msg[..], text, s, |text|) && Reading(text, b, n, s, executed)
      invariant s < 0 ==> executed == Parse(text)
      decreases if s < 0 then 0 else |text| + 1 - s
    {
      s, executed := TakeCommand(msg, s, executed, text, b, n);
      n := n + 1;
    }
  }

  /** The loop body of ProcessPayload. */
  method TakeCommand(msg: array<char>, s: nat, done: seq<Command>, ghost text: string, ghost b: seq<(nat, nat)>, ghost n: nat)
      returns (next: int, executed: seq<Command>)
    requires At(msg[..], text, s, |text|) && Reading(text, b, n, s, done)
    modifies msg
    ensures next > s || next == -1
    ensures next >= 0 ==> At(msg[..], text, next, |text|) && Reading(text, b, n + 1, next, executed)
    ensures next < 0 ==> executed == Parse(text)
  {
    Turn(text, b, n, s, done);
    var c;
    executed := done;
    next, c := NextCommand(msg, s, text);
    if next >= 0 && c.name != "" {
      executed := executed + [c];
    }
  }

  /** `n` pieces into the text, at `s`. */
  ghost predicate Reading(text: string, b: seq<(nat, nat)>, n: nat, s: nat, executed: seq<Command>) {
    && s <= |text| && n <= |b| && b == Pieces(text, 0) && Pieces(text, s) == b[n..]
    && executed == Named(ReadAll(text, b), n)
  }

  lemma Turn(text: string, b: seq<(nat, nat)>, n: nat, s: nat, executed: seq<Command>)
    requires Reading(text, b, n, s, executed)
    ensures var k := FindIn(text, ';', s, |text|);
      if k == |text| then executed == Parse(text)
      else
        var c := CommandIn(text, s, k);
        Reading(text, b, n + 1, k + 1, if c.name == "" then executed else executed + [c])
  {
    NextPiece(text, b, n, s);
    var k := FindIn(text, ';', s, |text|);
    if k < |text| {
      NextNamed(text, b, n, s, k);
    }
  }

  /** The escapes of a CW text undone, in place. */
  method CwUnescape(buf: array<char>, ghost text: string)
    requires At(buf[..], text, 0, |text|)
    modifies buf
    ensures buf[..] == Unescape(text) + old(buf[..])[|text|..]
  {
    var i := 0;
    ghost var was := buf[..];
    while buf[i] != NUL
      invariant 0 <= i <= |text| < buf.Length == |was|
      invariant forall k :: 0 <= k < i ==> buf[k] == UnescapeChar(text[k])
      invariant forall k :: i <= k < buf.Length ==> buf[k] == was[k]
      decreases |text| - i
    {
      HereIs(was, text, 0, |text|, i);
      if buf[i] == '^' { buf[i] := ':'; }
      else if buf[i] == '~' { buf[i] := ','; }
      else if buf[i] == '*' { buf[i] := ';'; }
      i := i + 1;
    }
    HereIs(was, text, 0, |text|, i);
  }
}
