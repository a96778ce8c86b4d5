/** What any received text means, also one no client would print: where its pieces, names and fields lie. */
module TciTextLaws {
  import opened TciText

  // ---- separators ----------------------------------------------------------------------

  predicate Without(s: string, c: char, i: nat, j: nat)
    requires i <= j <= |s|
  {
    forall x :: i <= x < j ==> s[x] != c
  }

  /** The pieces follow one another from `from` on, each without a semicolon and closed by one; behind the last
      there is no semicolon any more. */
  ghost predicate ArePieces(text: string, from: nat, b: seq<(nat, nat)>)
    requires from <= |text|
  {
    && (forall k :: 0 <= k < |b| ==> b[k].0 <= b[k].1 < |text| && text[b[k].1] == ';' && Without(text, ';', b[k].0, b[k].1))
    && (forall k :: 0 <= k < |b| ==> b[k].0 == if k == 0 then from else b[k - 1].1 + 1)
    && var rest := if b == [] then from else b[|b| - 1].1 + 1; rest <= |text| && Without(text, ';', rest, |text|)
  }

  lemma PieceInFront(text: string, from: nat, k: nat, rest: seq<(nat, nat)>)
    requires from <= k < |text| && Without(text, ';', from, k) && text[k] == ';' && ArePieces(text, k + 1, rest)
    ensures ArePieces(text, from, [(from, k)] + rest)
  {
    var b := [(from, k)] + rest;
    forall x | 0 <= x < |b|
      ensures b[x].0 <= b[x].1 < |text| && text[b[x].1] == ';' && Without(text, ';', b[x].0, b[x].1)
      ensures b[x].0 == if x == 0 then from else b[x - 1].1 + 1
    {
      if x > 0 {
        assert b[x] == rest[x - 1];
      }
    }
  }

  lemma {:induction false} PiecesOfAnyText(text: string, from: nat)
    requires from <= |text|
    ensures ArePieces(text, from, Pieces(text, from))
    decreases |text| - from
  {
    var k := FindIn(text, ';', from, |text|);
    FoundIs(text, ';', from, |text|);
    if k < |text| {
      PiecesOfAnyText(text, k + 1);
      PieceInFront(text, from, k, Pieces(text, k + 1));
    } else {
      assert Pieces(text, from) == [];
    }
  }

  /** The fields of a stretch follow one another, separated by commas and free of them; the last one ends where the
      stretch does unless there are already eight. */
  ghost predicate AreFields(s: string, i: nat, j: nat, most: nat, b: seq<(nat, nat)>)
    requires i <= j <= |s|
  {
    && 1 <= |b| <= most
    && (forall k :: 0 <= k < |b| ==> b[k].0 <= b[k].1 <= j && Without(s, ',', b[k].0, b[k].1))
    && (forall k :: 0 <= k < |b| ==> b[k].0 == if k == 0 then i else b[k - 1].1 + 1)
    && (forall k :: 0 <= k < |b| && b[k].1 < j ==> s[b[k].1] == ',')
    && (forall k :: 0 <= k < |b| - 1 ==> b[k].1 < j)
    && (b[|b| - 1].1 == j || |b| == most)
  }

  lemma FieldInFront(s: string, i: nat, k: nat, j: nat, most: nat, rest: seq<(nat, nat)>)
    requires i <= k < j <= |s| && Without(s, ',', i, k) && s[k] == ',' && most > 1
    requires AreFields(s, k + 1, j, most - 1, rest)
    ensures AreFields(s, i, j, most, [(i, k)] + rest)
  {
    var b := [(i, k)] + rest;
    forall x | 0 <= x < |b|
      ensures b[x].0 <= b[x].1 <= j && Without(s, ',', b[x].0, b[x].1)
      ensures b[x].0 == if x == 0 then i else b[x - 1].1 + 1
      ensures (b[x].1 < j ==> s[b[x].1] == ',') && (x < |b| - 1 ==> b[x].1 < j)
    {
      if x > 0 {
        assert b[x] == rest[x - 1];
      }
    }
  }

  lemma {:induction false} FieldsOfAnyStretch(s: string, i: nat, j: nat, most: nat)
    requires i <= j <= |s| && most >= 1
    ensures AreFields(s, i, j, most, Bounds(s, i, j, most))
    decreases j - i
  {
    var k := FindIn(s, ',', i, j);
    FoundIs(s, ',', i, j);
    if k < j && most > 1 {
      FieldsOfAnyStretch(s, k + 1, j, most - 1);
      FieldInFront(s, i, k, j, most, Bounds(s, k + 1, j, most - 1));
    } else {
      assert Bounds(s, i, j, most) == [(i, k)];
    }
  }

  // ---- names ------------------------------------------------------------------------------

  predicate Blank(c: char) { c in {' ', '\t', '\n', '\r', '\U{0C}'} }

  /** The name of a stretch is what is left of it without the blanks around it. */
  ghost predicate IsName(name: string, s: string, i: nat, j: nat)
    requires i <= j <= |s|
  {
    exists a, b :: i <= a <= b <= j && IsNameAt(name, s, i, j, a, b)
  }

  ghost predicate IsNameAt(name: string, s: string, i: nat, j: nat, a: nat, b: nat)
    requires i <= a <= b <= j <= |s|
  {
    && name == s[a..b] && (forall x :: i <= x < a || b <= x < j ==> Blank(s[x]))
    && (name != "" ==> !Blank(s[a]) && !Blank(s[b - 1]))
  }

  lemma {:induction false} StartIsInk(s: string, i: nat, j: nat)
    requires i <= j <= |s|
    ensures var a := StripStart(s, i, j); (forall x :: i <= x < a ==> Blank(s[x])) && (a < j ==> !Blank(s[a]))
    decreases j - i
  {
    if i < j && IsSpace(s[i]) {
      StartIsInk(s, i + 1, j);
    }
  }

  lemma {:induction false} EndIsInk(s: string, i: nat, j: nat)
    requires i <= j <= |s|
    ensures var b := StripEnd(s, i, j); (forall x :: b <= x < j ==> Blank(s[x])) && (i < b ==> !Blank(s[b - 1]))
    decreases j - i
  {
    if i < j && IsSpace(s[j - 1]) {
      EndIsInk(s, i, j - 1);
    }
  }

  lemma NameOfAnyStretch(s: string, i: nat, j: nat)
    requires i <= j <= |s|
    ensures IsName(NameIn(s, i, j), s, i, j)
  {
    var a := StripStart(s, i, j);
    var t := s[a..j];
    var n := StripEnd(t, 0, |t|);
    StartIsInk(s, i, j);
    EndIsInk(t, 0, |t|);
    assert t[..n] == s[a..a + n];
    forall x | i <= x < a || a + n <= x < j ensures Blank(s[x]) {
      if x >= a + n {
        assert t[x - a] == s[x];
      }
    }
    assert n > 0 ==> s[a] == t[0] && s[a + n - 1] == t[n - 1];
    assert IsNameAt(NameIn(s, i, j), s, i, j, a, a + n);
  }

  // ---- commands -------------------------------------------------------------------------------

  /** A command's name is what stands in front of the first colon; its arguments are the fields behind it, and
      without a colon there are none. */
  lemma CommandOfAnyPiece(s: string, i: nat, j: nat, k: nat)
    requires i <= k <= j <= |s| && Without(s, ':', i, k) && (k < j ==> s[k] == ':')
    ensures IsName(CommandIn(s, i, j).name, s, i, k)
    ensures k == j ==> CommandIn(s, i, j).args == []
    ensures k < j ==> exists b :: AreFields(s, k + 1, j, 8, b) && CommandIn(s, i, j).args == Texts(s, b)
  {
    FoundAt(s, ':', i, k, j);
    NameOfAnyStretch(s, i, k);
    if k < j {
      FieldsOfAnyStretch(s, k + 1, j, 8);
      assert CommandIn(s, i, j).args == Texts(s, Bounds(s, k + 1, j, 8));
    }
  }

  lemma FieldTexts(s: string, b: seq<(nat, nat)>, k: nat)
    requires (forall x :: 0 <= x < |b| ==> b[x].0 <= b[x].1 <= |s|) && k < |b|
    ensures |Texts(s, b)| == |b| && Texts(s, b)[k] == s[b[k].0..b[k].1]
  {}

  /** Of a frame no more than 1023 characters are taken, and nothing from a NUL on. */
  lemma WhatIsTaken(frame: string)
    ensures Taken(frame) <= frame && |Taken(frame)| <= 1023 && Without(Taken(frame), '\0', 0, |Taken(frame)|)
    ensures |Taken(frame)| == |frame| || |Taken(frame)| == 1023 || frame[|Taken(frame)|] == '\0'
  {
    FoundIs(frame, NUL, 0, if |frame| < 1023 then |frame| else 1023);
  }

  /** The three escapes stand for colon, comma and semicolon (section 3.2.1 of the TCI Protocol), every other
      character for itself. */
  lemma EscapesStandFor(s: string, i: nat)
    requires i < |s|
    ensures |Unescape(s)| == |s|
    ensures Unescape(s)[i] == match s[i] case '^' => ':' case '~' => ',' case '*' => ';' case c => c
  {}
}
