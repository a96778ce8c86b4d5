/** The Morse alphabet: the sender's table and, independently of it, the
    receiver's table as a binary code tree (a dot doubles, a dash doubles plus one). */
module MorseCode {

  function ToUpper(c: char): char {
    if 'a' <= c <= 'z' then (c as int - 32) as char else c
  }

  predicate IsBlank(c: char) {
    c == ' ' || c == '\t' || c == '\n'
  }

  /** The dots and dashes of a character, "" for a character that has none. */
  function MorseOf(c: char): string {
    CodeOf(ToUpper(c))
  }

  function CodeOf(u: char): string {
    match u
    case 'A' => ".-"      case 'B' => "-..."    case 'C' => "-.-."
    case 'D' => "-.."     case 'E' => "."       case 'F' => "..-."
    case 'G' => "--."     case 'H' => "...."    case 'I' => ".."
    case 'J' => ".---"    case 'K' => "-.-"     case 'L' => ".-.."
    case 'M' => "--"      case 'N' => "-."      case 'O' => "---"
    case 'P' => ".--."    case 'Q' => "--.-"    case 'R' => ".-."
    case 'S' => "..."     case 'T' => "-"       case 'U' => "..-"
    case 'V' => "...-"    case 'W' => ".--"     case 'X' => "-..-"
    case 'Y' => "-.--"    case 'Z' => "--.."
    case '0' => "-----"   case '1' => ".----"   case '2' => "..---"
    case '3' => "...--"   case '4' => "....-"   case '5' => "....."
    case '6' => "-...."   case '7' => "--..."   case '8' => "---.."
    case '9' => "----."
    case '.' => ".-.-.-"  case ',' => "--..--"  case '?' => "..--.."
    case '/' => "-..-."   case '=' => "-...-"   case '+' => ".-.-."
    case '-' => "-....-"  case '(' => "-.--."   case ')' => "-.--.-"
    case ':' => "---..."  case '\'' => ".----." case '@' => ".--.-."
    case _ => ""
  }

  /** The code-tree node reached from `node` by the first `i` marks of `code`. */
  function CodeNode(node: nat, code: string, i: nat): nat
    requires i <= |code|
  {
    if i == 0 then node else 2 * CodeNode(node, code, i - 1) + Bit(code[i - 1])
  }

  function Bit(c: char): nat { if c == '-' then 1 else 0 }

  /** The letter at a code-tree node (section 1 of Part I of Annex 1 of ITU-R M.1677-1,
      restricted to the characters the program sends); '\0' where there is none. */
  function LetterAt(node: nat): char {
    match node
    case 2 => 'E'    case 3 => 'T'    case 4 => 'I'    case 5 => 'A'
    case 6 => 'N'    case 7 => 'M'    case 8 => 'S'    case 9 => 'U'
    case 10 => 'R'   case 11 => 'W'   case 12 => 'D'   case 13 => 'K'
    case 14 => 'G'   case 15 => 'O'   case 16 => 'H'   case 17 => 'V'
    case 18 => 'F'   case 20 => 'L'   case 22 => 'P'   case 23 => 'J'
    case 24 => 'B'   case 25 => 'X'   case 26 => 'C'   case 27 => 'Y'
    case 28 => 'Z'   case 29 => 'Q'   case 32 => '5'   case 33 => '4'
    case 35 => '3'   case 39 => '2'   case 42 => '+'   case 47 => '1'
    case 48 => '6'   case 49 => '='   case 50 => '/'   case 54 => '('
    case 56 => '7'   case 60 => '8'   case 62 => '9'   case 63 => '0'
    case 76 => '?'   case 85 => '.'   case 90 => '@'   case 94 => '\''
    case 97 => '-'   case 109 => ')'  case 115 => ','  case 120 => ':'
    case _ => '\0'
  }

  /** A code made of dots and dashes that leads down the code tree to `sign`. */
  predicate Spells(code: string, sign: char) {
    && code != "" && sign != ' '
    && LetterAt(CodeNode(1, code, |code|)) == sign
    && forall i :: 0 <= i < |code| ==> code[i] == '.' || code[i] == '-'
  }

  /** Reading a character's marks down the code tree finds the character, in upper case. */
  lemma MorseReadsBack(c: char)
    requires MorseOf(c) != ""
    ensures Spells(MorseOf(c), ToUpper(c)) && Spells(MorseOf(c), Capital(c)) && ToUpper(c) != '\0'
  {
    CapitalIs(c);
    CapitalReadsBack(ToUpper(c));
  }

  lemma CapitalReadsBack(u: char)
    requires CodeOf(u) != "" && !('a' <= u <= 'z')
    ensures Spells(CodeOf(u), u)
  {
    assert Leads(CodeOf(u), u) by {
      if 'A' <= u <= 'M' {
        FirstLettersReadBack(u);
      } else if 'N' <= u <= 'Z' {
        LastLettersReadBack(u);
      } else if '0' <= u <= '4' {
        LowDigitsReadBack(u);
      } else if '5' <= u <= '9' {
        HighDigitsReadBack(u);
      } else {
        SignsReadBack(u);
      }
    }
    LeadsSpells(CodeOf(u), u);
  }

  /** The same for a code of at most six marks, spelled out mark by mark. */
  predicate Leads(code: string, u: char) {
    && 1 <= |code| <= 6 && u != ' ' && LetterAt(NodeOf(code)) == u
    && forall i :: 0 <= i < |code| ==> code[i] == '.' || code[i] == '-'
  }

  lemma LeadsSpells(code: string, u: char)
    requires Leads(code, u)
    ensures Spells(code, u)
  {
    CodeNodeUnrolled(code);
  }

  lemma FirstLettersReadBack(u: char)
    requires 'A' <= u <= 'M'
    ensures Leads(CodeOf(u), u)
  {}

  lemma LastLettersReadBack(u: char)
    requires 'N' <= u <= 'Z'
    ensures Leads(CodeOf(u), u)
  {}

  lemma LowDigitsReadBack(u: char)
    requires '0' <= u <= '4'
    ensures Leads(CodeOf(u), u)
  {}

  lemma HighDigitsReadBack(u: char)
    requires '5' <= u <= '9'
    ensures Leads(CodeOf(u), u)
  {}

  lemma StopsReadBack(u: char)
    requires u == '.' || u == ',' || u == '?'
    ensures Leads(CodeOf(u), u)
  {}

  lemma StrokesReadBack(u: char)
    requires u == '/' || u == '=' || u == '+'
    ensures Leads(CodeOf(u), u)
  {}

  lemma BracketsReadBack(u: char)
    requires u == '-' || u == '(' || u == ')'
    ensures Leads(CodeOf(u), u)
  {}

  lemma QuotesReadBack(u: char)
    requires u == ':' || u == '\''
    ensures Leads(CodeOf(u), u)
  {}

  lemma AtReadsBack()
    ensures Leads(CodeOf('@'), '@')
  {}

  lemma SignsReadBack(u: char)
    requires CodeOf(u) != "" && !('A' <= u <= 'Z') && !('0' <= u <= '9') && !('a' <= u <= 'z')
    ensures Leads(CodeOf(u), u)
  {
    if u == '.' || u == ',' || u == '?' {
      StopsReadBack(u);
    } else if u == '/' || u == '=' || u == '+' {
      StrokesReadBack(u);
    } else if u == '-' || u == '(' || u == ')' {
      BracketsReadBack(u);
    } else if u == '@' {
      AtReadsBack();
    } else {
      QuotesReadBack(u);
    }
  }

  lemma CodeNodeUnrolled(s: string)
    requires 1 <= |s| <= 6
    ensures CodeNode(1, s, |s|) == NodeOf(s)
  {
    assert CodeNode(1, s, 1) == 2 + Bit(s[0]);
    if |s| > 1 { assert CodeNode(1, s, 2) == 4 + 2 * Bit(s[0]) + Bit(s[1]); }
    if |s| > 2 { assert CodeNode(1, s, 3) == 2 * CodeNode(1, s, 2) + Bit(s[2]); }
    if |s| > 3 { assert CodeNode(1, s, 4) == 2 * CodeNode(1, s, 3) + Bit(s[3]); }
    if |s| > 4 { assert CodeNode(1, s, 5) == 2 * CodeNode(1, s, 4) + Bit(s[4]); }
  }

  function NodeOf(s: string): nat
    requires 1 <= |s| <= 6
  {
    if |s| == 1 then 2 + Bit(s[0])
    else if |s| == 2 then 4 + 2 * Bit(s[0]) + Bit(s[1])
    else if |s| == 3 then 8 + 4 * Bit(s[0]) + 2 * Bit(s[1]) + Bit(s[2])
    else if |s| == 4 then 16 + 8 * Bit(s[0]) + 4 * Bit(s[1]) + 2 * Bit(s[2]) + Bit(s[3])
    else if |s| == 5 then 32 + 16 * Bit(s[0]) + 8 * Bit(s[1]) + 4 * Bit(s[2]) + 2 * Bit(s[3]) + Bit(s[4])
    else 64 + 32 * Bit(s[0]) + 16 * Bit(s[1]) + 8 * Bit(s[2]) + 4 * Bit(s[3]) + 2 * Bit(s[4]) + Bit(s[5])
  }

  // ---- which characters can be keyed -----------------------------------------------------

  /** The capital of a small letter, every other character being itself. */
  function Capital(c: char): char {
    match c
    case 'a' => 'A'   case 'b' => 'B'   case 'c' => 'C'   case 'd' => 'D'   case 'e' => 'E'   case 'f' => 'F'
    case 'g' => 'G'   case 'h' => 'H'   case 'i' => 'I'   case 'j' => 'J'   case 'k' => 'K'   case 'l' => 'L'
    case 'm' => 'M'   case 'n' => 'N'   case 'o' => 'O'   case 'p' => 'P'   case 'q' => 'Q'   case 'r' => 'R'
    case 's' => 'S'   case 't' => 'T'   case 'u' => 'U'   case 'v' => 'V'   case 'w' => 'W'   case 'x' => 'X'
    case 'y' => 'Y'   case 'z' => 'Z'
    case _ => c
  }

  lemma CapitalIs(c: char)
    ensures ToUpper(c) == Capital(c)
  {}

  /** The receiver's tree has this sign. */
  ghost predicate InTree(u: char) { u != '\0' && exists node :: LetterAt(node) == u }

  lemma ShortSigns(node: nat)
    requires node < 32 && LetterAt(node) != '\0'
    ensures CodeOf(LetterAt(node)) != ""
  {}

  lemma LongSigns(node: nat)
    requires node >= 32 && LetterAt(node) != '\0'
    ensures CodeOf(LetterAt(node)) != ""
  {}

  /** A character has a code exactly when its capital is a sign of the receiver's tree. */
  lemma KeyableIsInTree(c: char)
    ensures MorseOf(c) != "" <==> InTree(Capital(c))
  {
    CapitalIs(c);
    if MorseOf(c) != "" {
      MorseReadsBack(c);
      assert LetterAt(CodeNode(1, MorseOf(c), |MorseOf(c)|)) == Capital(c);
    }
    if InTree(Capital(c)) {
      var node :| LetterAt(node) == Capital(c);
      if node < 32 {
        ShortSigns(node);
      } else {
        LongSigns(node);
      }
    }
  }

  /** Small letters are keyed as the capitals, and every letter is keyed. */
  lemma LettersAreKeyed(c: char)
    requires 'a' <= c <= 'z' || 'A' <= c <= 'Z'
    ensures 'A' <= Capital(c) <= 'Z' && MorseOf(c) == MorseOf(Capital(c)) != ""
  {
    CapitalIs(c);
    CapitalIs(Capital(c));
    CapitalsAreKeyed(Capital(c));
  }

  lemma CapitalsAreKeyed(u: char)
    requires 'A' <= u <= 'Z'
    ensures CodeOf(u) != ""
  {}

  /** Two signs spelled by one code are the same sign, so the table is unambiguous. */
  lemma MorseIsUnambiguous(c: char, d: char)
    requires MorseOf(c) != "" && MorseOf(c) == MorseOf(d)
    ensures Capital(c) == Capital(d)
  {
    MorseReadsBack(c);
    MorseReadsBack(d);
    CapitalIs(c);
    CapitalIs(d);
  }
}
