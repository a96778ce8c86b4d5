/** The TCI text protocol: what the commands of a received text are, and that a printed list of
    commands and an escaped CW text come back. */
module TciText {

  datatype Command = Command(name: string, args: seq<string>)

  const MAX_ARGS := 8
  const MSG_SIZE := 1024
  const NUL := '\0'

  /** The characters GLib strips: blank, tab, newline, form feed, return. */
  predicate IsSpace(c: char) { c == ' ' || c == '\t' || c == '\n' || c == '\U{0C}' || c == '\r' }

  // ---- splitting, in place on one text ------------------------------------------------------

  /** The first position of `c` in `s[i..j]`, `j` if there is none. */
  function FindIn(s: string, c: char, i: nat, j: nat): (k: nat)
    requires i <= j <= |s|
    ensures i <= k <= j
    decreases j - i
  {
    if i == j || s[i] == c then i else FindIn(s, c, i + 1, j)
  }

  lemma {:induction false} FoundIs(s: string, c: char, i: nat, j: nat)
    requires i <= j <= |s|
    ensures var k := FindIn(s, c, i, j);
      (forall x :: i <= x < k ==> s[x] != c) && (k < j ==> s[k] == c)
    decreases j - i
  {
    if i < j && s[i] != c {
      FoundIs(s, c, i + 1, j);
    }
  }

  lemma {:induction false} FoundAt(s: string, c: char, i: nat, k: nat, j: nat)
    requires i <= k <= j <= |s| && (forall x :: i <= x < k ==> s[x] != c) && (k < j ==> s[k] == c)
    ensures FindIn(s, c, i, j) == k
    decreases j - i
  {
    if i < k {
      FoundAt(s, c, i + 1, k, j);
    }
  }

  /** The bounds of the first `most` comma-separated fields of `s[i..j]`. */
  function Bounds(s: string, i: nat, j: nat, most: nat): (b: seq<(nat, nat)>)
    requires i <= j <= |s|
    ensures forall x :: 0 <= x < |b| ==> b[x].0 <= b[x].1 <= |s|
    decreases j - i
  {
    if most == 0 then []
    else
      var k := FindIn(s, ',', i, j);
      [(i, k)] + if k == j then [] else Bounds(s, k + 1, j, most - 1)
  }

  function Texts(s: string, b: seq<(nat, nat)>): (r: seq<string>)
    requires forall x :: 0 <= x < |b| ==> b[x].0 <= b[x].1 <= |s|
    ensures |r| == |b|
  {
    seq(|b|, x requires 0 <= x < |b| => s[b[x].0..b[x].1])
  }

  function FieldsIn(s: string, i: nat, j: nat, most: nat): seq<string>
    requires i <= j <= |s|
  {
    Texts(s, Bounds(s, i, j, most))
  }

  function StripEnd(s: string, i: nat, j: nat): (e: nat)
    requires i <= j <= |s|
    ensures i <= e <= j
    decreases j - i
  {
    if i < j && IsSpace(s[j - 1]) then StripEnd(s, i, j - 1) else j
  }

  function StripStart(s: string, i: nat, j: nat): (b: nat)
    requires i <= j <= |s|
    ensures i <= b <= j
    decreases j - i
  {
    if i < j && IsSpace(s[i]) then StripStart(s, i + 1, j) else i
  }

  /** `s[i..j]` without the white space at its start and then at its end. */
  function NameIn(s: string, i: nat, j: nat): string
    requires i <= j <= |s|
  {
    var t := s[StripStart(s, i, j)..j];
    t[..StripEnd(t, 0, |t|)]
  }

  function CommandIn(s: string, i: nat, j: nat): Command
    requires i <= j <= |s|
  {
    var k := FindIn(s, ':', i, j);
    Command(NameIn(s, i, k), if k == j then [] else FieldsIn(s, k + 1, j, MAX_ARGS))
  }

  /** The bounds of the pieces of a text closed by ';', from `s` on. */
  function Pieces(text: string, s: nat): (b: seq<(nat, nat)>)
    requires s <= |text|
    ensures forall x :: 0 <= x < |b| ==> b[x].0 <= b[x].1 <= |text|
    decreases |text| - s
  {
    var k := FindIn(text, ';', s, |text|);
    if k == |text| then [] else [(s, k)] + Pieces(text, k + 1)
  }

  function ReadAll(text: string, b: seq<(nat, nat)>): (r: seq<Command>)
    requires forall x :: 0 <= x < |b| ==> b[x].0 <= b[x].1 <= |text|
    ensures |r| == |b|
  {
    seq(|b|, x requires 0 <= x < |b| => CommandIn(text, b[x].0, b[x].1))
  }

  /** Of the first `n` commands, those that have a name. */
  function Named(ds: seq<Command>, n: nat): seq<Command>
    requires n <= |ds|
  {
    if n == 0 then [] else Named(ds, n - 1) + if ds[n - 1].name == "" then [] else [ds[n - 1]]
  }

  /** The commands of a text: one for every piece closed by ';' that has a name. */
  function Parse(text: string): seq<Command> {
    var ds := ReadAll(text, Pieces(text, 0));
    Named(ds, |ds|)
  }

  /** What is taken of a received frame: as much as the buffer holds, up to a NUL. */
  function Taken(frame: string): string {
    var n := if |frame| < MSG_SIZE - 1 then |frame| else MSG_SIZE - 1;
    frame[..FindIn(frame, NUL, 0, n)]
  }

  // ---- printing ----------------------------------------------------------------------------------

  function Join(args: seq<string>): string {
    if args == [] then "" else if |args| == 1 then args[0] else args[0] + ([','] + Join(args[1..]))
  }

  function Body(c: Command): string {
    if c.args == [] then c.name else c.name + ([':'] + Join(c.args))
  }

  function Bodies(cs: seq<Command>): (bs: seq<string>)
    ensures |bs| == |cs|
  {
    seq(|cs|, i requires 0 <= i < |cs| => Body(cs[i]))
  }

  /** The bodies from `i` on, each closed by a semicolon. */
  function PrintFrom(bs: seq<string>, i: nat): string
    requires i <= |bs|
    decreases |bs| - i
  {
    if i == |bs| then "" else (bs[i] + ";") + PrintFrom(bs, i + 1)
  }

  function Print(cs: seq<Command>): string { PrintFrom(Bodies(cs), 0) }

  /** How many of the bodies from `i` on print within `n` characters. */
  function FittingFrom(bs: seq<string>, i: nat, n: nat): (m: nat)
    requires i <= |bs|
    ensures m <= |bs| - i
    decreases |bs| - i
  {
    if i == |bs| || |bs[i]| + 1 > n then 0 else 1 + FittingFrom(bs, i + 1, n - |bs[i]| - 1)
  }

  function Fitting(cs: seq<Command>, n: nat): (m: nat)
    ensures m <= |cs|
  {
    FittingFrom(Bodies(cs), 0, n)
  }

  predicate Free(s: string, c: char) { forall x :: 0 <= x < |s| ==> s[x] != c }

  /** A name without separators or white space at its ends. */
  predicate PlainName(name: string) {
    && name != "" && !IsSpace(name[0]) && !IsSpace(name[|name| - 1])
    && Free(name, ':') && Free(name, ';') && Free(name, NUL)
  }

  /** A command the text form can carry: a plain name and up to eight separator-free arguments. */
  predicate Plain(c: Command) {
    && PlainName(c.name) && |c.args| <= MAX_ARGS
    && forall i :: 0 <= i < |c.args| ==> Free(c.args[i], ',') && Free(c.args[i], ';') && Free(c.args[i], NUL)
  }

  predicate AllPlain(cs: seq<Command>) { forall i :: 0 <= i < |cs| ==> Plain(cs[i]) }

  /** Names a position, so that what holds at every position is used only at those named. */
  predicate Position(x: int) { true }

  /** `w` stands at `i` in `s`. */
  ghost predicate Has(s: string, i: nat, w: string) {
    i + |w| <= |s| && forall x {:trigger Position(x)} :: Position(x) && i <= x < i + |w| ==> s[x] == w[x - i]
  }

  lemma HasBoth(s: string, i: nat, a: string, b: string)
    requires Has(s, i, a + b)
    ensures Has(s, i, a) && Has(s, i + |a|, b)
  {}

  lemma HasIs(s: string, i: nat, w: string)
    requires Has(s, i, w)
    ensures s[i..i + |w|] == w
  {
    forall x | 0 <= x < |w| ensures s[i..i + |w|][x] == w[x] {
      assert Position(i + x);
    }
  }

  lemma HasSeparated(s: string, i: nat, a: string, c: char, b: string)
    requires Has(s, i, a + ([c] + b))
    ensures Has(s, i, a) && i + |a| < |s| && s[i + |a|] == c && Has(s, i + |a| + 1, b)
  {
    HasBoth(s, i, a, [c] + b);
    HasBoth(s, i + |a|, [c], b);
    assert Position(i + |a|);
  }

  /** A separator-free word is passed over. */
  lemma FindPast(s: string, c: char, i: nat, w: string, j: nat)
    requires Has(s, i, w) && Free(w, c) && i + |w| <= j <= |s| && (i + |w| < j ==> s[i + |w|] == c)
    ensures FindIn(s, c, i, j) == i + |w|
  {
    forall x | i <= x < i + |w| ensures s[x] != c {
      assert Position(x);
      assert w[x - i] != c;
    }
    FoundAt(s, c, i, i + |w|, j);
  }

  lemma JoinOf(a: string, tail: seq<string>)
    requires tail != []
    ensures Join([a] + tail) == a + ([','] + Join(tail))
  {
    assert ([a] + tail)[1..] == tail;
  }

  lemma FieldsStep(s: string, i: nat, k: nat, j: nat, most: nat, a: string, tail: seq<string>)
    requires i <= k <= j <= |s| && most > 0 && FindIn(s, ',', i, j) == k && s[i..k] == a
    requires if k == j then tail == [] else FieldsIn(s, k + 1, j, most - 1) == tail
    ensures FieldsIn(s, i, j, most) == [a] + tail
  {
    var rest := if k == j then [] else Bounds(s, k + 1, j, most - 1);
    assert Bounds(s, i, j, most) == [(i, k)] + rest;
    TextsStep(s, (i, k), rest);
    if k == j {
      assert Texts(s, rest) == [];
    }
  }

  lemma TextsStep(s: string, x: (nat, nat), b: seq<(nat, nat)>)
    requires x.0 <= x.1 <= |s| && forall y :: 0 <= y < |b| ==> b[y].0 <= b[y].1 <= |s|
    ensures Texts(s, [x] + b) == [s[x.0..x.1]] + Texts(s, b)
  {
    forall y | 0 <= y < |b| + 1 ensures Texts(s, [x] + b)[y] == ([s[x.0..x.1]] + Texts(s, b))[y] {
      assert ([x] + b)[y] == if y == 0 then x else b[y - 1];
    }
  }

  /** A joined list stands as its first argument, a comma, and the rest. */
  lemma JoinPieces(s: string, i: nat, a: string, tail: seq<string>)
    requires tail != [] && Has(s, i, Join([a] + tail))
    ensures |Join([a] + tail)| == |a| + 1 + |Join(tail)|
    ensures Has(s, i, a) && s[i + |a|] == ',' && Has(s, i + |a| + 1, Join(tail))
  {
    JoinOf(a, tail);
    HasSeparated(s, i, a, ',', Join(tail));
  }

  lemma {:induction false} FieldsOfJoin(s: string, i: nat, args: seq<string>, most: nat, j: nat)
    requires 1 <= |args| <= most && (forall x :: 0 <= x < |args| ==> Free(args[x], ','))
    requires j == i + |Join(args)| && Has(s, i, Join(args))
    ensures FieldsIn(s, i, j, most) == args
    decreases most
  {
    var a, tail := args[0], args[1..];
    var k := i + |a|;
    assert args == [a] + tail;
    if tail == [] {
      assert k == j && s[i..k] == a && FindIn(s, ',', i, j) == k by {
        HasIs(s, i, a);
        FindPast(s, ',', i, a, j);
      }
    } else {
      assert k < j && s[i..k] == a && FindIn(s, ',', i, j) == k by {
        JoinPieces(s, i, a, tail);
        HasIs(s, i, a);
        FindPast(s, ',', i, a, j);
      }
      assert FieldsIn(s, k + 1, j, most - 1) == tail by {
        JoinPieces(s, i, a, tail);
        FieldsOfJoin(s, k + 1, tail, most - 1, j);
      }
    }
    FieldsStep(s, i, k, j, most, a, tail);
  }

  lemma PlainNameIs(s: string, i: nat, name: string)
    requires PlainName(name) && Has(s, i, name)
    ensures NameIn(s, i, i + |name|) == name
  {
    HasIs(s, i, name);
    assert Position(i) && Position(i + |name| - 1);
  }

  lemma CommandIs(s: string, i: nat, k: nat, j: nat, name: string, args: seq<string>)
    requires i <= k <= j <= |s| && FindIn(s, ':', i, j) == k && NameIn(s, i, k) == name
    requires if k == j then args == [] else FieldsIn(s, k + 1, j, MAX_ARGS) == args
    ensures CommandIn(s, i, j) == Command(name, args)
  {}

  lemma CommandWithArgs(s: string, i: nat, name: string, args: seq<string>, j: nat)
    requires PlainName(name) && 1 <= |args| <= MAX_ARGS && forall x :: 0 <= x < |args| ==> Free(args[x], ',')
    requires j == i + |name| + 1 + |Join(args)|
    requires Has(s, i, name) && Has(s, i + |name| + 1, Join(args)) && s[i + |name|] == ':'
    ensures CommandIn(s, i, j) == Command(name, args)
  {
    assert FindIn(s, ':', i, j) == i + |name| by {
      FindPast(s, ':', i, name, j);
    }
    assert NameIn(s, i, i + |name|) == name by {
      PlainNameIs(s, i, name);
    }
    assert FieldsIn(s, i + |name| + 1, j, MAX_ARGS) == args by {
      FieldsOfJoin(s, i + |name| + 1, args, MAX_ARGS, j);
    }
    CommandIs(s, i, i + |name|, j, name, args);
  }

  lemma CommandNoArgs(s: string, i: nat, name: string)
    requires PlainName(name) && Has(s, i, name)
    ensures CommandIn(s, i, i + |name|) == Command(name, [])
  {
    FindPast(s, ':', i, name, i + |name|);
    PlainNameIs(s, i, name);
    CommandIs(s, i, i + |name|, i + |name|, name, []);
  }

  lemma CommandOfBody(s: string, i: nat, c: Command, j: nat)
    requires Plain(c) && j == i + |Body(c)| && Has(s, i, Body(c))
    ensures CommandIn(s, i, j) == c
  {
    if c.args == [] {
      CommandNoArgs(s, i, c.name);
    } else {
      BodyParts(s, i, c);
      CommandWithArgs(s, i, c.name, c.args, j);
    }
  }

  lemma BodyParts(s: string, i: nat, c: Command)
    requires c.args != [] && Has(s, i, Body(c))
    ensures |Body(c)| == |c.name| + 1 + |Join(c.args)| && i + |Body(c)| <= |s|
    ensures Has(s, i, c.name) && s[i + |c.name|] == ':' && Has(s, i + |c.name| + 1, Join(c.args))
  {
    HasSeparated(s, i, c.name, ':', Join(c.args));
  }

  lemma {:induction false} JoinIsFree(args: seq<string>, c: char)
    requires c != ',' && forall x :: 0 <= x < |args| ==> Free(args[x], c)
    ensures Free(Join(args), c)
  {
    if |args| > 1 {
      JoinIsFree(args[1..], c);
    }
  }

  lemma BodyIsFree(c: Command)
    requires Plain(c)
    ensures Free(Body(c), ';') && Free(Body(c), NUL)
  {
    JoinIsFree(c.args, ';');
    JoinIsFree(c.args, NUL);
  }

  /** From `p` on the text is a beginning of `w`. */
  ghost predicate Begins(t: string, p: nat, w: string) {
    p <= |t| <= p + |w| && forall x {:trigger Position(x)} :: Position(x) && p <= x < |t| ==> t[x] == w[x - p]
  }

  lemma BeginsBoth(t: string, p: nat, a: string, b: string)
    requires Begins(t, p, a + b)
    ensures |t| - p >= |a| ==> Has(t, p, a) && Begins(t, p + |a|, b)
    ensures |t| - p <= |a| ==> Begins(t, p, a)
  {}

  lemma PiecesStep(t: string, p: nat, k: nat)
    requires p <= k <= |t| && FindIn(t, ';', p, |t|) == k
    ensures Pieces(t, p) == if k == |t| then [] else [(p, k)] + Pieces(t, k + 1)
  {}

  /** A printed command, cut off or whole. */
  lemma FirstPiece(t: string, p: nat, body: string)
    requires Begins(t, p, body) && Free(body, ';')
    ensures Pieces(t, p) == []
  {
    forall x | p <= x < |t| ensures t[x] != ';' {
      assert Position(x);
      assert body[x - p] != ';';
    }
    FoundAt(t, ';', p, |t|, |t|);
    PiecesStep(t, p, |t|);
  }

  /** Where the bodies from `i` on are printed, the first one at `p`. */
  function Places(bs: seq<string>, i: nat, p: nat): (b: seq<(nat, nat)>)
    requires i <= |bs|
    ensures |b| == |bs| - i
    decreases |bs| - i
  {
    if i == |bs| then [] else [(p, p + |bs[i]|)] + Places(bs, i + 1, p + |bs[i]| + 1)
  }

  /** The first of a printed list, cut off or whole. */
  lemma CutShort(t: string, p: nat, body: string, more: string)
    requires Free(body, ';') && Begins(t, p, (body + ";") + more) && |t| - p <= |body|
    ensures Pieces(t, p) == []
  {
    BeginsBoth(t, p, body + ";", more);
    BeginsBoth(t, p, body, ";");
    FirstPiece(t, p, body);
  }

  lemma CutLater(t: string, p: nat, body: string, more: string)
    requires Free(body, ';') && Begins(t, p, (body + ";") + more) && |t| - p > |body|
    ensures Pieces(t, p) == [(p, p + |body|)] + Pieces(t, p + |body| + 1)
  {
    assert FindIn(t, ';', p, |t|) == p + |body| by {
      BeginsBoth(t, p, body + ";", more);
      HasBoth(t, p, body, ";");
      assert Position(p + |body|);
      FindPast(t, ';', p, body, |t|);
    }
    PiecesStep(t, p, p + |body|);
  }

  lemma PrefixOfTail<T>(a: T, tail: seq<T>, m: nat)
    requires m <= |tail|
    ensures ([a] + tail)[..1 + m] == [a] + tail[..m]
  {}

  lemma PlacesStep(bs: seq<string>, i: nat, p: nat, n: nat, pieces: seq<(nat, nat)>, rest: seq<(nat, nat)>)
    requires i < |bs| && n > |bs[i]| && pieces == [(p, p + |bs[i]|)] + rest
    requires rest == Places(bs, i + 1, p + |bs[i]| + 1)[..FittingFrom(bs, i + 1, n - |bs[i]| - 1)]
    ensures pieces == Places(bs, i, p)[..FittingFrom(bs, i, n)]
  {
    PrefixOfTail((p, p + |bs[i]|), Places(bs, i + 1, p + |bs[i]| + 1), FittingFrom(bs, i + 1, n - |bs[i]| - 1));
  }

  lemma NextOfPrint(t: string, p: nat, bs: seq<string>, i: nat)
    requires i < |bs| && Free(bs[i], ';') && Begins(t, p, PrintFrom(bs, i)) && |t| - p > |bs[i]|
    ensures var q := p + |bs[i]| + 1;
      Pieces(t, p) == [(p, p + |bs[i]|)] + Pieces(t, q) && Begins(t, q, PrintFrom(bs, i + 1))
  {
    CutLater(t, p, bs[i], PrintFrom(bs, i + 1));
    BeginsBoth(t, p, bs[i] + ";", PrintFrom(bs, i + 1));
  }

  /** However a printed list is cut off, the pieces are its complete bodies. */
  lemma {:induction false} PiecesOfPrint(t: string, p: nat, bs: seq<string>, i: nat)
    requires i <= |bs| && (forall x :: i <= x < |bs| ==> Free(bs[x], ';')) && Begins(t, p, PrintFrom(bs, i))
    ensures Pieces(t, p) == Places(bs, i, p)[..FittingFrom(bs, i, |t| - p)]
    decreases |bs| - i
  {
    if i == |bs| {
      FirstPiece(t, p, "");
    } else {
      var body, q := bs[i], p + |bs[i]| + 1;
      if |t| - p <= |body| {
        assert Pieces(t, p) == [] by {
          CutShort(t, p, body, PrintFrom(bs, i + 1));
        }
        assert Places(bs, i, p)[..0] == [];
      } else {
        NextOfPrint(t, p, bs, i);
        PiecesOfPrint(t, q, bs, i + 1);
        PlacesStep(bs, i, p, |t| - p, Pieces(t, p), Pieces(t, q));
      }
    }
  }

  /** A body whose place is whole in the text stands there. */
  lemma {:induction false} PlacedBody(t: string, p: nat, bs: seq<string>, i: nat, x: nat)
    requires i <= |bs| && Begins(t, p, PrintFrom(bs, i)) && x < FittingFrom(bs, i, |t| - p)
    ensures var b := Places(bs, i, p)[x];
      b.1 == b.0 + |bs[i + x]| && Has(t, b.0, bs[i + x])
    decreases |bs| - i
  {
    var body := bs[i];
    BeginsBoth(t, p, body + ";", PrintFrom(bs, i + 1));
    if x == 0 {
      HasBoth(t, p, body, ";");
    } else {
      PlacedBody(t, p + |body| + 1, bs, i + 1, x - 1);
    }
  }

  lemma {:induction false} AllNamed(ds: seq<Command>, n: nat)
    requires n <= |ds| && forall x :: 0 <= x < |ds| ==> ds[x].name != ""
    ensures Named(ds, n) == ds[..n]
  {
    if n > 0 {
      AllNamed(ds, n - 1);
      assert ds[..n] == ds[..n - 1] + [ds[n - 1]];
    }
  }

  lemma ReadPlaced(t: string, cs: seq<Command>, x: nat)
    requires AllPlain(cs) && Begins(t, 0, Print(cs)) && x < Fitting(cs, |t|) && x < |Pieces(t, 0)|
    requires Pieces(t, 0)[x] == Places(Bodies(cs), 0, 0)[x]
    ensures ReadAll(t, Pieces(t, 0))[x] == cs[x]
  {
    var b := Pieces(t, 0)[x];
    assert CommandIn(t, b.0, b.1) == cs[x] by {
      PlacedBody(t, 0, Bodies(cs), 0, x);
      assert Plain(cs[x]);
      CommandOfBody(t, b.0, cs[x], b.1);
    }
  }

  lemma BodiesAreFree(cs: seq<Command>)
    requires AllPlain(cs)
    ensures forall x :: 0 <= x < |cs| ==> Free(Bodies(cs)[x], ';') && Free(Bodies(cs)[x], NUL)
  {
    forall x | 0 <= x < |cs| ensures Free(Bodies(cs)[x], ';') && Free(Bodies(cs)[x], NUL) {
      assert Plain(cs[x]);
      BodyIsFree(cs[x]);
    }
  }

  lemma NamesAreSet(cs: seq<Command>, m: nat)
    requires AllPlain(cs) && m <= |cs|
    ensures forall x :: 0 <= x < m ==> cs[..m][x].name != ""
  {
    forall x | 0 <= x < m ensures cs[..m][x].name != "" {
      assert Plain(cs[x]);
    }
  }

  /** However a printed command list is cut off, the commands that are complete come back. */
  lemma ParseCutPrint(t: string, cs: seq<Command>)
    requires AllPlain(cs) && Begins(t, 0, Print(cs))
    ensures Parse(t) == cs[..Fitting(cs, |t|)]
  {
    var m := Fitting(cs, |t|);
    assert Pieces(t, 0) == Places(Bodies(cs), 0, 0)[..m] by {
      BodiesAreFree(cs);
      PiecesOfPrint(t, 0, Bodies(cs), 0);
    }
    assert ReadAll(t, Pieces(t, 0)) == cs[..m] by {
      forall x | 0 <= x < m ensures ReadAll(t, Pieces(t, 0))[x] == cs[..m][x] {
        ReadPlaced(t, cs, x);
      }
    }
    NamesAreSet(cs, m);
    AllNamed(cs[..m], m);
  }

  lemma {:induction false} PrintHasNoNul(bs: seq<string>, i: nat)
    requires i <= |bs| && forall x :: i <= x < |bs| ==> Free(bs[x], NUL)
    ensures Free(PrintFrom(bs, i), NUL)
    decreases |bs| - i
  {
    if i < |bs| {
      PrintHasNoNul(bs, i + 1);
    }
  }

  lemma {:induction false} AllFit(bs: seq<string>, i: nat)
    requires i <= |bs|
    ensures FittingFrom(bs, i, |PrintFrom(bs, i)|) == |bs| - i
    decreases |bs| - i
  {
    if i < |bs| {
      AllFit(bs, i + 1);
    }
  }

  lemma PrefixBegins(w: string, n: nat)
    requires n <= |w|
    ensures Begins(w[..n], 0, w)
  {}

  lemma TakenIs(p: string)
    requires Free(p, NUL)
    ensures Taken(p) == p[..if |p| < MSG_SIZE - 1 then |p| else MSG_SIZE - 1]
  {
    var n := if |p| < MSG_SIZE - 1 then |p| else MSG_SIZE - 1;
    FoundAt(p, NUL, 0, n, n);
  }

  /** A printed list of commands, received as a frame, is split into the same commands, or
      into as many of them as are complete in the first 1023 characters. */
  lemma SplitRoundTrip(cs: seq<Command>)
    requires AllPlain(cs)
    ensures Parse(Taken(Print(cs))) == cs[..Fitting(cs, |Taken(Print(cs))|)]
    ensures |Taken(Print(cs))| == if |Print(cs)| < MSG_SIZE - 1 then |Print(cs)| else MSG_SIZE - 1
    ensures |Print(cs)| < MSG_SIZE ==> Parse(Taken(Print(cs))) == cs
  {
    var p := Print(cs);
    var n := if |p| < MSG_SIZE - 1 then |p| else MSG_SIZE - 1;
    assert Taken(p) == p[..n] by {
      BodiesAreFree(cs);
      PrintHasNoNul(Bodies(cs), 0);
      TakenIs(p);
    }
    assert Parse(p[..n]) == cs[..Fitting(cs, n)] by {
      PrefixBegins(p, n);
      ParseCutPrint(p[..n], cs);
    }
    AllFit(Bodies(cs), 0);
    assert cs[..|cs|] == cs;
  }

  // ---- escaping -------------------------------------------------------------------

  function UnescapeChar(c: char): char {
    if c == '^' then ':' else if c == '~' then ',' else if c == '*' then ';' else c
  }

  function EscapeChar(c: char): char {
    if c == ':' then '^' else if c == ',' then '~' else if c == ';' then '*' else c
  }

  function Escape(s: string): string { seq(|s|, i requires 0 <= i < |s| => EscapeChar(s[i])) }
  function Unescape(s: string): string { seq(|s|, i requires 0 <= i < |s| => UnescapeChar(s[i])) }

  lemma EscapeBack(text: string)
    ensures Unescape(Escape(text)) == text <==> '^' !in text && '~' !in text && '*' !in text
  {
    if '^' in text || '~' in text || '*' in text {
      var i :| 0 <= i < |text| && (text[i] == '^' || text[i] == '~' || text[i] == '*');
      assert Unescape(Escape(text))[i] != text[i];
    } else {
      assert forall i :: 0 <= i < |text| ==> Unescape(Escape(text))[i] == text[i];
    }
  }

  lemma EscapedIsPlain(name: string, text: string)
    requires Free(text, NUL) && PlainName(name)
    ensures Plain(Command(name, ["0", Escape(text)]))
    ensures |Print([Command(name, ["0", Escape(text)])])| == |name| + |text| + 4
  {
    var c := Command(name, ["0", Escape(text)]);
    assert c.args[1..] == [Escape(text)];
    assert |Join(c.args)| == |text| + 2;
    assert Bodies([c])[0] == Body(c);
    assert PrintFrom(Bodies([c]), 1) == "";
  }

  /** A text sent escaped as a macro comes back as it was, exactly when it contains none of
      the characters the escapes are spelled with. */
  lemma MacroTextRoundTrip(name: string, text: string)
    requires Free(text, NUL) && PlainName(name) && |name| + |text| + 4 < MSG_SIZE
    ensures
      var sent := Command(name, ["0", Escape(text)]);
      && Parse(Taken(Print([sent]))) == [sent]
      && (Unescape(sent.args[1]) == text <==> '^' !in text && '~' !in text && '*' !in text)
  {
    EscapedIsPlain(name, text);
    SplitRoundTrip([Command(name, ["0", Escape(text)])]);
    EscapeBack(text);
  }
}
