/** The per-band table in the settings file: `key=value;key=value`, values with one decimal,
    cut to whole entries when the buffer is short. Values to be printed are counted in tenths. */
module BandTable {
  import opened Arith
  import opened Options

  // ---- numbers ------------------------------------------------------------------------

  predicate IsDigit(c: char) { '0' <= c <= '9' }

  function DigitOf(d: nat): (c: char)
    requires d < 10
    ensures IsDigit(c) && ValueOf(c) == d
  {
    '0' + d as char
  }

  function ValueOf(c: char): (d: nat)
    requires IsDigit(c)
    ensures d < 10
  {
    c as nat - '0' as nat
  }

  function Digits(n: nat): (s: string)
    ensures |s| > 0 && forall i :: 0 <= i < |s| ==> IsDigit(s[i])
  {
    if n < 10 then [DigitOf(n)] else Digits(n / 10) + [DigitOf(n % 10)]
  }

  function PrintUnsigned(m: nat): string { Digits(m / 10) + "." + [DigitOf(m % 10)] }

  /** A value in tenths with its one decimal. */
  function Print(t: int): string {
    if t < 0 then "-" + PrintUnsigned(-t) else PrintUnsigned(t)
  }

  /** How many digits there are from `i` on. */
  function Run(s: string, i: nat): (n: nat)
    requires i <= |s|
    ensures i + n <= |s| && (forall k :: i <= k < i + n ==> IsDigit(s[k]))
    ensures i + n < |s| ==> !IsDigit(s[i + n])
    decreases |s| - i
  {
    if i < |s| && IsDigit(s[i]) then 1 + Run(s, i + 1) else 0
  }

  /** The `n` digits from `i` on as a whole number. */
  function Whole(s: string, i: nat, n: nat): nat
    requires i + n <= |s| && forall k :: i <= k < i + n ==> IsDigit(s[k])
  {
    if n == 0 then 0 else Whole(s, i, n - 1) * 10 + ValueOf(s[i + n - 1])
  }

  /** `v` shifted `n` places behind the point. */
  function Shifted(v: real, n: nat): real
    decreases n
  {
    if n == 0 then v else Shifted(v / 10.0, n - 1)
  }

  predicate IsSpace(c: char) { c == ' ' || '\t' <= c <= '\r' }

  /** The white space in front of a number: blank, tab, line feed, vertical tab, form feed, return. */
  lemma SpacesAre(c: char)
    ensures IsSpace(c) <==> c in {' ', '\t', '\n', '\U{0B}', '\U{0C}', '\r'}
  {}

  function SkipSpace(s: string, i: nat): (j: nat)
    requires i <= |s|
    ensures i <= j <= |s|
    decreases |s| - i
  {
    if i < |s| && IsSpace(s[i]) then SkipSpace(s, i + 1) else i
  }

  /** The unsigned number at `j`: digits, a point and digits, at least one digit in all. */
  function Unsigned(s: string, j: nat): Option<real>
    requires j <= |s|
  {
    var n := Run(s, j);
    var f := if j + n < |s| && s[j + n] == '.' then Run(s, j + n + 1) else 0;
    if n + f == 0 then None
    else if f == 0 then Some(Whole(s, j, n) as real)
    else Some(Whole(s, j, n) as real + Shifted(Whole(s, j + n + 1, f) as real, f))
  }

  /** The number a text begins with: blanks, a sign, then the digits. */
  function Number(s: string): Option<real> {
    var i := SkipSpace(s, 0);
    if i < |s| && s[i] == '-' then
      var v := Unsigned(s, i + 1);
      if v.None? then None else Some(-v.value)
    else Unsigned(s, if i < |s| && s[i] == '+' then i + 1 else i)
  }

  lemma {:induction false} RunOver(s: string, i: nat, n: nat)
    requires i + n <= |s| && (forall k :: i <= k < i + n ==> IsDigit(s[k])) && (i + n < |s| ==> !IsDigit(s[i + n]))
    ensures Run(s, i) == n
    decreases n
  {
    if n > 0 {
      RunOver(s, i + 1, n - 1);
    }
  }

  lemma {:induction false} WholeOfPart(s: string, i: nat, t: string, n: nat)
    requires n <= |t| && i + n <= |s| && (forall k :: 0 <= k < n ==> IsDigit(t[k]))
    requires forall k :: i <= k < i + n ==> s[k] == t[k - i] && IsDigit(s[k])
    ensures Whole(s, i, n) == Whole(t, 0, n)
  {
    if n > 0 {
      WholeOfPart(s, i, t, n - 1);
    }
  }

  lemma {:induction false} DigitsReadBack(n: nat)
    ensures Whole(Digits(n), 0, |Digits(n)|) == n
  {
    if n >= 10 {
      var s, t := Digits(n), Digits(n / 10);
      DigitsReadBack(n / 10);
      assert s[..|t|] == t;
      WholeOfPart(s, 0, t, |t|);
    }
  }

  lemma TenthsAdd(m: nat)
    ensures (m / 10) as real + (m % 10) as real / 10.0 == m as real / 10.0
  {}

  lemma UnsignedIs(s: string, j: nat, n: nat, w: nat, t: nat)
    requires j + n < |s| && n > 0 && Run(s, j) == n && s[j + n] == '.' && Run(s, j + n + 1) == 1
    requires Whole(s, j, n) == w && Whole(s, j + n + 1, 1) == t
    ensures Unsigned(s, j) == Some(w as real + t as real / 10.0)
  {
    assert Shifted(t as real, 1) == Shifted(t as real / 10.0, 0);
  }

  /** The digits of `n` stand at `j`, and no more digits follow. */
  ghost predicate DigitsAt(s: string, j: nat, n: nat) {
    var d := Digits(n);
    && j + |d| <= |s| && (forall k :: j <= k < j + |d| ==> s[k] == d[k - j])
    && (j + |d| < |s| ==> !IsDigit(s[j + |d|]))
  }

  lemma DigitsAtRead(s: string, j: nat, n: nat)
    requires DigitsAt(s, j, n)
    ensures Run(s, j) == |Digits(n)| && Whole(s, j, |Digits(n)|) == n
  {
    var d := Digits(n);
    assert forall k :: j <= k < j + |d| ==> IsDigit(s[k]);
    RunOver(s, j, |d|);
    WholeOfPart(s, j, d, |d|);
    DigitsReadBack(n);
  }

  lemma LastDigit(s: string, i: nat)
    requires i + 1 == |s| && IsDigit(s[i])
    ensures Run(s, i) == 1 && Whole(s, i, 1) == ValueOf(s[i])
  {
    RunOver(s, i, 1);
    assert Whole(s, i, 0) == 0;
  }

  lemma UnsignedReadsBack(s: string, j: nat, m: nat)
    requires DigitsAt(s, j, m / 10) && |s| == j + |Digits(m / 10)| + 2
    requires s[j + |Digits(m / 10)|] == '.' && s[j + |Digits(m / 10)| + 1] == DigitOf(m % 10)
    ensures Unsigned(s, j) == Some(m as real / 10.0)
  {
    var n := |Digits(m / 10)|;
    DigitsAtRead(s, j, m / 10);
    LastDigit(s, j + n + 1);
    UnsignedIs(s, j, n, m / 10, m % 10);
    TenthsAdd(m);
  }

  lemma PositiveReadsBack(m: nat)
    ensures Number(PrintUnsigned(m)) == Some(m as real / 10.0)
  {
    var s := PrintUnsigned(m);
    assert IsDigit(s[0]) && SkipSpace(s, 0) == 0;
    assert DigitsAt(s, 0, m / 10);
    UnsignedReadsBack(s, 0, m);
  }

  lemma NegativeReadsBack(m: nat)
    ensures Number("-" + PrintUnsigned(m)) == Some(-(m as real / 10.0))
  {
    var s := "-" + PrintUnsigned(m);
    assert s[0] == '-' && SkipSpace(s, 0) == 0;
    assert DigitsAt(s, 1, m / 10);
    UnsignedReadsBack(s, 1, m);
  }

  /** A printed value reads back exactly. */
  lemma PrintReadsBack(t: int)
    ensures Number(Print(t)) == Some(t as real / 10.0)
  {
    if t < 0 {
      var m: nat := -t;
      NegativeReadsBack(m);
      assert -(m as real / 10.0) == t as real / 10.0;
      assert Print(t) == "-" + PrintUnsigned(m);
    } else {
      PositiveReadsBack(t);
    }
  }

  // ---- writing ----------------------------------------------------------------------------

  function Token(key: string, t: int): string { key + "=" + Print(t) }

  ghost predicate IsEntries(e: seq<string>, keys: seq<string>, vals: seq<int>) {
    |e| == |keys| == |vals| && forall i :: 0 <= i < |e| ==> e[i] == Token(keys[i], vals[i])
  }

  function Entries(keys: seq<string>, vals: seq<int>): (e: seq<string>)
    requires |keys| == |vals|
    ensures IsEntries(e, keys, vals)
  {
    seq(|keys|, i requires 0 <= i < |keys| => Token(keys[i], vals[i]))
  }

  /** Entry `i` as the loop appends it. */
  function Piece(entries: seq<string>, i: nat): string
    requires i < |entries|
  {
    if i > 0 then ";" + entries[i] else entries[i]
  }

  /** The first `k` entries. */
  function Text(entries: seq<string>, k: nat): string
    requires k <= |entries|
  {
    if k == 0 then "" else Text(entries, k - 1) + Piece(entries, k - 1)
  }

  /** The number of whole entries a buffer of `len` bytes takes, beside the terminator. */
  function Kept(entries: seq<string>, len: nat, k: nat): (n: nat)
    requires k <= |entries|
    ensures k <= n <= |entries|
    decreases |entries| - k
  {
    if k < |entries| && |Text(entries, k)| + |Piece(entries, k)| < len then Kept(entries, len, k + 1) else k
  }

  method Format(keys: seq<string>, vals: seq<int>, len: nat) returns (buf: string)
    requires |keys| == |vals| && len > 0
    ensures var e := Entries(keys, vals); buf == Text(e, Kept(e, len, 0)) && |buf| < len
  {
    ghost var e := Entries(keys, vals);
    buf := "";
    var rem, i := len, 0;
    while i < |keys|
      invariant i <= |keys| && buf == Text(e, i) && rem == len - |buf| && |buf| < len
      invariant Kept(e, len, 0) == Kept(e, len, i)
    {
      var piece := (if i > 0 then ";" else "") + Token(keys[i], vals[i]);
      assert piece == Piece(e, i);
      if |piece| >= rem {
        return;
      }
      buf, rem := buf + piece, rem - |piece|;
      i := i + 1;
    }
  }

  lemma {:induction false} TextGrows(entries: seq<string>, j: nat, k: nat)
    requires j <= k <= |entries|
    ensures |Text(entries, j)| <= |Text(entries, k)|
  {
    if j < k {
      TextGrows(entries, j, k - 1);
      assert Text(entries, k) == Text(entries, k - 1) + Piece(entries, k - 1);
    }
  }

  /** What is written is the longest run of whole entries from the first that fits. */
  lemma {:induction false} LongestPrefix(entries: seq<string>, len: nat, k: nat, more: nat)
    requires k <= more <= |entries| && |Text(entries, k)| < len
    ensures |Text(entries, more)| < len <==> more <= Kept(entries, len, k)
    decreases |entries| - k
  {
    if k < more {
      if |Text(entries, k)| + |Piece(entries, k)| < len {
        assert |Text(entries, k + 1)| < len;
        LongestPrefix(entries, len, k + 1, more);
      } else {
        TextGrows(entries, k + 1, more);
      }
    }
  }

  // ---- reading -------------------------------------------------------------------------------

  /** The first place of `c` from `i` on, |s| if there is none. */
  function IndexOf<T(==)>(s: seq<T>, c: T, i: nat): (j: nat)
    requires i <= |s|
    ensures i <= j <= |s| && (forall k :: i <= k < j ==> s[k] != c) && (j < |s| ==> s[j] == c)
    decreases |s| - i
  {
    if i == |s| || s[i] == c then i else IndexOf(s, c, i + 1)
  }

  /** The non-empty stretches between semicolons, from `i` on. */
  function Tokens(s: string, i: nat): seq<string>
    requires i <= |s|
    decreases |s| - i
  {
    if i == |s| then []
    else if s[i] == ';' then Tokens(s, i + 1)
    else
      var j := IndexOf(s, ';', i);
      [s[i..j]] + Tokens(s, j)
  }

  /** A token's key and value, if it has an equals sign and a number after it. */
  function Decoded(tok: string): Option<(string, real)> {
    var eq := IndexOf(tok, '=', 0);
    if eq == |tok| then None
    else
      var v := Number(tok[eq + 1..]);
      if v.None? then None else Some((tok[..eq], v.value))
  }

  /** A value goes to the first band of its key; an unknown key changes nothing. */
  function Applied(out: seq<real>, d: Option<(string, real)>, keys: seq<string>, lo: real, hi: real): (r: seq<real>)
    requires |out| == |keys|
    ensures |r| == |keys|
  {
    if d.None? then out
    else
      var i := IndexOf(keys, d.value.0, 0);
      if i == |keys| then out else out[i := ClampReal(d.value.1, lo, hi)]
  }

  function AppliedAll(ds: seq<Option<(string, real)>>, n: nat, keys: seq<string>, dflt: real, lo: real, hi: real): (r: seq<real>)
    requires n <= |ds|
    ensures |r| == |keys|
  {
    if n == 0 then seq(|keys|, i => dflt)
    else Applied(AppliedAll(ds, n - 1, keys, dflt, lo, hi), ds[n - 1], keys, lo, hi)
  }

  function DecodedAll(toks: seq<string>): (r: seq<Option<(string, real)>>)
    ensures |r| == |toks|
  {
    seq(|toks|, i requires 0 <= i < |toks| => Decoded(toks[i]))
  }

  function Table(s: string, keys: seq<string>, dflt: real, lo: real, hi: real): (r: seq<real>)
    ensures |r| == |keys|
  {
    var ds := DecodedAll(Tokens(s, 0));
    AppliedAll(ds, |ds|, keys, dflt, lo, hi)
  }

  method Parse(s: string, keys: seq<string>, dflt: real, lo: real, hi: real, out: array<real>)
    requires out.Length == |keys|
    modifies out
    ensures out[..] == Table(s, keys, dflt, lo, hi)
  {
    for i := 0 to out.Length
      invariant forall k :: 0 <= k < i ==> out[k] == dflt
    {
      out[i] := dflt;
    }
    ghost var toks := Tokens(s, 0);
    ghost var ds := DecodedAll(toks);
    ghost var n := 0;
    assert out[..] == AppliedAll(ds, 0, keys, dflt, lo, hi);
    var i := 0;
    while i < |s|
      invariant i <= |s| && n <= |toks| && toks[n..] == Tokens(s, i)
      invariant out[..] == AppliedAll(ds, n, keys, dflt, lo, hi)
    {
      if s[i] == ';' {
        i := i + 1;
      } else {
        var j := IndexOf(s, ';', i);
        assert toks[n..] == [s[i..j]] + Tokens(s, j);
        assert toks[n] == toks[n..][0] == s[i..j];
        assert toks[n + 1..] == toks[n..][1..] == Tokens(s, j);
        Apply(out, s[i..j], keys, lo, hi);
        i, n := j, n + 1;
      }
    }
    assert n == |toks|;
  }

  method Apply(out: array<real>, tok: string, keys: seq<string>, lo: real, hi: real)
    requires out.Length == |keys|
    modifies out
    ensures out[..] == Applied(old(out[..]), Decoded(tok), keys, lo, hi)
  {
    var eq := IndexOf(tok, '=', 0);
    if eq == |tok| {
      return;
    }
    var v := Number(tok[eq + 1..]);
    if v.None? {
      return;
    }
    var w := v.value;
    if w < lo { w := lo; }
    if w > hi { w := hi; }
    var i := 0;
    while i < |keys|
      invariant i <= |keys| && IndexOf(keys, tok[..eq], 0) == IndexOf(keys, tok[..eq], i)
      invariant out[..] == old(out[..])
    {
      if keys[i] == tok[..eq] {
        out[i] := w;
        return;
      }
      i := i + 1;
    }
  }

  // ---- there and back --------------------------------------------------------------------------

  predicate Plain(s: string) { forall i :: 0 <= i < |s| ==> s[i] != ';' && s[i] != '=' }

  lemma PrintIsPlain(t: int)
    ensures Plain(Print(t))
  {}

  lemma IndexIs(s: string, c: char, i: nat, j: nat)
    requires i <= j <= |s| && (forall k :: i <= k < j ==> s[k] != c) && (j < |s| ==> s[j] == c)
    ensures IndexOf(s, c, i) == j
  {}

  lemma SplitAtEquals(key: string, number: string)
    requires Plain(key)
    ensures var tok := key + "=" + number;
      IndexOf(tok, '=', 0) == |key| < |tok| && tok[..|key|] == key && tok[|key| + 1..] == number
  {
    IndexIs(key + "=" + number, '=', 0, |key|);
  }

  lemma DecodedIs(tok: string, eq: nat, key: string, number: string, v: real)
    requires IndexOf(tok, '=', 0) == eq < |tok| && tok[..eq] == key && tok[eq + 1..] == number
    requires Number(number) == Some(v)
    ensures Decoded(tok) == Some((key, v))
  {}

  /** An entry on its own decodes to its key and value, and it is one token. */
  lemma TokenDecodes(tok: string, key: string, t: int, v: real)
    requires tok == Token(key, t) && Plain(key) && v == t as real / 10.0
    ensures Decoded(tok) == Some((key, v))
  {
    SplitAtEquals(key, Print(t));
    PrintReadsBack(t);
    DecodedIs(tok, |key|, key, Print(t), v);
  }

  lemma TokenIsWhole(key: string, t: int)
    requires Plain(key)
    ensures |Token(key, t)| > 0 && forall i :: 0 <= i < |Token(key, t)| ==> Token(key, t)[i] != ';'
  {
    PrintIsPlain(t);
  }

  ghost predicate DistinctKeys(keys: seq<string>) {
    forall i, j :: 0 <= i < j < |keys| ==> keys[i] != keys[j]
  }

  /** Values for the bands in order set each its own band. */
  lemma {:induction false} AllApply(ds: seq<Option<(string, real)>>, n: nat, keys: seq<string>, vals: seq<real>,
                                    dflt: real, lo: real, hi: real)
    requires n <= |ds| && n <= |keys| == |vals| && DistinctKeys(keys)
    requires forall i :: 0 <= i < n ==> ds[i] == Some((keys[i], vals[i]))
    ensures var r := AppliedAll(ds, n, keys, dflt, lo, hi);
      forall i :: 0 <= i < |keys| ==> r[i] == if i < n then ClampReal(vals[i], lo, hi) else dflt
  {
    if n > 0 {
      AllApply(ds, n - 1, keys, vals, dflt, lo, hi);
      assert IndexOf(keys, keys[n - 1], 0) == n - 1;
    }
  }

  /** The tokens of a text and of one more after a semicolon. */
  lemma {:induction false} TokensAppend(s: string, t: string, i: nat)
    requires i <= |s| && |t| > 0 && forall k :: 0 <= k < |t| ==> t[k] != ';'
    ensures Tokens(s + (";" + t), i) == Tokens(s, i) + [t]
    decreases |s| - i
  {
    var u := s + (";" + t);
    if i == |s| {
      assert u[i] == ';' && u[i + 1..|u|] == t;
      IndexIs(u, ';', i + 1, |u|);
      assert Tokens(u, i + 1) == [t] + Tokens(u, |u|);
    } else if s[i] == ';' {
      TokensAppend(s, t, i + 1);
    } else {
      var j := IndexOf(s, ';', i);
      IndexIs(u, ';', i, j);
      assert u[i..j] == s[i..j];
      TokensAppend(s, t, j);
      assert [s[i..j]] + (Tokens(s, j) + [t]) == [s[i..j]] + Tokens(s, j) + [t];
    }
  }

  ghost predicate Splittable(entries: seq<string>) {
    forall i :: 0 <= i < |entries| ==> |entries[i]| > 0 && forall k :: 0 <= k < |entries[i]| ==> entries[i][k] != ';'
  }

  lemma {:induction false} TokensOfText(entries: seq<string>, k: nat)
    requires k <= |entries| && Splittable(entries)
    ensures Tokens(Text(entries, k), 0) == entries[..k]
  {
    if k > 0 {
      var t, s := entries[k - 1], Text(entries, k - 1);
      TokensOfText(entries, k - 1);
      assert entries[..k] == entries[..k - 1] + [t];
      if k == 1 {
        assert Text(entries, 1) == t;
        IndexIs(t, ';', 0, |t|);
        assert t[0..|t|] == t;
        assert Tokens(t, 0) == [t] + Tokens(t, |t|);
      } else {
        TokensAppend(s, t, 0);
      }
    }
  }

  ghost predicate AreTenths(v: seq<real>, vals: seq<int>) {
    |v| == |vals| && forall j :: 0 <= j < |v| ==> v[j] == vals[j] as real / 10.0
  }

  lemma DecodedAt(toks: seq<string>, j: nat)
    requires j < |toks|
    ensures DecodedAll(toks)[j] == Decoded(toks[j])
  {}

  lemma EntryDecodes(e: seq<string>, keys: seq<string>, vals: seq<int>, v: seq<real>, j: nat)
    requires j < |e| == |keys| == |vals| == |v|
    requires e[j] == Token(keys[j], vals[j]) && Plain(keys[j]) && v[j] == vals[j] as real / 10.0
    ensures DecodedAll(e)[j] == Some((keys[j], v[j]))
  {
    TokenDecodes(e[j], keys[j], vals[j], v[j]);
    DecodedAt(e, j);
  }

  ghost predicate DecodesTo(ds: seq<Option<(string, real)>>, keys: seq<string>, v: seq<real>) {
    |ds| == |keys| == |v| && forall j :: 0 <= j < |ds| ==> ds[j] == Some((keys[j], v[j]))
  }

  lemma EntriesDecode(e: seq<string>, keys: seq<string>, vals: seq<int>, v: seq<real>)
    requires IsEntries(e, keys, vals) && AreTenths(v, vals) && forall j :: 0 <= j < |keys| ==> Plain(keys[j])
    ensures DecodesTo(DecodedAll(e), keys, v)
  {
    forall j | 0 <= j < |keys| ensures DecodedAll(e)[j] == Some((keys[j], v[j])) {
      EntryDecodes(e, keys, vals, v, j);
    }
  }

  lemma EntriesAreWhole(e: seq<string>, keys: seq<string>, vals: seq<int>)
    requires IsEntries(e, keys, vals) && forall j :: 0 <= j < |keys| ==> Plain(keys[j])
    ensures Splittable(e)
  {
    forall j | 0 <= j < |keys| ensures |e[j]| > 0 && forall i :: 0 <= i < |e[j]| ==> e[j][i] != ';' {
      TokenIsWhole(keys[j], vals[j]);
    }
  }

  lemma TextReadsBack(entries: seq<string>, n: nat, keys: seq<string>, vals: seq<real>, dflt: real, lo: real, hi: real)
    requires n <= |entries| && Splittable(entries) && DistinctKeys(keys)
    requires DecodesTo(DecodedAll(entries), keys, vals)
    ensures var r := Table(Text(entries, n), keys, dflt, lo, hi);
      forall i :: 0 <= i < |keys| ==> r[i] == if i < n then ClampReal(vals[i], lo, hi) else dflt
  {
    TokensOfText(entries, n);
    var ds := DecodedAll(entries[..n]);
    assert forall j :: 0 <= j < n ==> ds[j] == DecodedAll(entries)[j];
    AllApply(ds, n, keys, vals, dflt, lo, hi);
  }

  /** Reading what was written into any buffer: every kept band comes back with its value to one
      decimal, clamped, and every other band with the default. */
  lemma TableRoundTrip(e: seq<string>, keys: seq<string>, vals: seq<int>, v: seq<real>, len: nat,
                       dflt: real, lo: real, hi: real)
    requires IsEntries(e, keys, vals) && AreTenths(v, vals) && len > 0
    requires DistinctKeys(keys) && forall j :: 0 <= j < |keys| ==> Plain(keys[j])
    ensures var n := Kept(e, len, 0);
      var r := Table(Text(e, n), keys, dflt, lo, hi);
      forall i :: 0 <= i < |keys| ==> r[i] == if i < n then ClampReal(v[i], lo, hi) else dflt
  {
    EntriesAreWhole(e, keys, vals);
    EntriesDecode(e, keys, vals, v);
    TextReadsBack(e, Kept(e, len, 0), keys, v, dflt, lo, hi);
  }
}
