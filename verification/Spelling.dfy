/** How operators are spelled, and what ends the text of an f-string. */
module Spelling {
  import opened Options
  import opened Tokens
  import opened Quoting
  import opened Stream
  import opened Lexemes

  /** How an operator is spelled. */
  function SpellingOf(kind: Kind): Option<string> {
    match kind
    case LPAREN => Some("(")
    case RPAREN => Some(")")
    case LSQB => Some("[")
    case RSQB => Some("]")
    case LBRACE => Some("{")
    case RBRACE => Some("}")
    case COLON => Some(":")
    case COMMA => Some(",")
    case SEMI => Some(";")
    case DOT => Some(".")
    case PLUS => Some("+")
    case MINUS => Some("-")
    case TILDE => Some("~")
    case STAR => Some("*")
    case SLASH => Some("/")
    case DOUBLESLASH => Some("//")
    case PERCENT => Some("%")
    case AT => Some("@")
    case DOUBLESTAR => Some("**")
    case LEFTSHIFT => Some("<<")
    case RIGHTSHIFT => Some(">>")
    case AMPER => Some("&")
    case CIRCUMFLEX => Some("^")
    case VBAR => Some("|")
    case OTHER(code) => SpellingOfCode(code)
    case _ => None
  }

  /** By its place in the list of token types: comparisons, assignments and the rest. */
  function SpellingOfCode(code: nat): Option<string> {
    match code
    case 24 => Some("<")
    case 25 => Some(">")
    case 26 => Some("=")
    case 31 => Some("==")
    case 32 => Some("!=")
    case 33 => Some("<=")
    case 34 => Some(">=")
    case 40 => Some("+=")
    case 41 => Some("-=")
    case 42 => Some("*=")
    case 43 => Some("/=")
    case 44 => Some("%=")
    case 45 => Some("&=")
    case 46 => Some("|=")
    case 47 => Some("^=")
    case 48 => Some("<<=")
    case 49 => Some(">>=")
    case 50 => Some("**=")
    case 52 => Some("//=")
    case 54 => Some("@=")
    case 55 => Some("->")
    case 56 => Some("...")
    case 57 => Some(":=")
    case 58 => Some("!")
    case _ => None
  }

  /** The spelling is the character `a`. */
  predicate One(r: Option<string>, a: char) {
    r.Some? && |r.value| == 1 && r.value[0] == a
  }

  /** The spelling is `ab`. */
  predicate Two(r: Option<string>, a: char, b: char) {
    r.Some? && |r.value| == 2 && r.value[0] == a && r.value[1] == b
  }

  lemma OneIsSpelled(c: char)
    requires Operator1(c).Some?
    ensures One(SpellingOf(Operator1(c).value), c)
  {
  }

  lemma EqualsIsSpelled(a: char)
    requires WithEquals(a).Some?
    ensures Two(SpellingOf(WithEquals(a).value), a, '=')
  {
  }

  lemma PairIsSpelled(a: char, b: char)
    requires Paired(a, b).Some?
    ensures Two(SpellingOf(Paired(a, b).value), a, b)
  {
  }

  lemma ThreeIsSpelled(p: string, i: nat)
    requires Operator3(p, i).Some?
    ensures SpellingOf(Operator3(p, i).value) == Some(p[i..i + 3])
  {
    assert Operator3(p, i).value.OTHER?;
  }

  /** What is read as an operator is its spelling. */
  lemma OperatorIsSpelled(p: string, i: nat)
    requires i < |p| && OperatorAt(p, i).Some?
    ensures
      var (kind, n) := OperatorAt(p, i).value;
      SpellingOf(kind) == Some(p[i..i + n])
  {
    var spelling := SpellingOf(OperatorAt(p, i).value.0);
    if Operator3(p, i).Some? {
      ThreeIsSpelled(p, i);
    } else if Operator2(p, i).None? {
      OneIsSpelled(p[i]);
      assert spelling.value == p[i..i + 1];
    } else {
      if p[i + 1] == '=' {
        EqualsIsSpelled(p[i]);
      } else {
        PairIsSpelled(p[i], p[i + 1]);
      }
      assert spelling.value == p[i..i + 2];
    }
  }

  lemma OneIsRead(c: char, kind: Kind)
    requires One(SpellingOf(kind), c)
    ensures Operator1(c) == Some(kind)
  {
  }

  lemma EqualsIsRead(a: char, kind: Kind)
    requires Two(SpellingOf(kind), a, '=')
    ensures WithEquals(a) == Some(kind)
  {
  }

  lemma PairIsRead(a: char, b: char, kind: Kind)
    requires Two(SpellingOf(kind), a, b) && b != '='
    ensures Paired(a, b) == Some(kind)
  {
    assert kind.OTHER? ==> kind.code == 55;
  }

  lemma ThreeIsRead(p: string, i: nat, kind: Kind)
    requires i + 3 <= |p| && SpellingOf(kind) == Some(p[i..i + 3])
    ensures Operator3(p, i) == Some(kind)
  {
    var s := SpellingOf(kind).value;
    assert |s| == 3 && s[0] == p[i];
    assert kind.OTHER? && kind.code in {48, 49, 50, 52, 56};
  }

  lemma AtMostThree(kind: Kind)
    requires SpellingOf(kind).Some?
    ensures 0 < |SpellingOf(kind).value| <= 3
  {
  }

  /** An operator whose spelling stands there is read, unless a longer one is. */
  lemma LongestSpelling(p: string, i: nat, kind: Kind)
    requires i < |p| && SpellingOf(kind).Some?
    requires
      var n := |SpellingOf(kind).value|;
      i + n <= |p| && p[i..i + n] == SpellingOf(kind).value
    ensures OperatorAt(p, i).Some?
    ensures
      var n := |SpellingOf(kind).value|;
      n < OperatorAt(p, i).value.1 || OperatorAt(p, i).value == (kind, n)
  {
    AtMostThree(kind);
    var n := |SpellingOf(kind).value|;
    if n == 1 {
      OneIsRead(p[i], kind);
    } else if n == 2 {
      if p[i + 1] == '=' {
        EqualsIsRead(p[i], kind);
      } else {
        PairIsRead(p[i], p[i + 1], kind);
      }
    } else {
      ThreeIsRead(p, i, kind);
    }
  }

  /** Without the difference between capital and small letters. */
  function Lowered(s: string): (r: string)
    ensures |r| == |s| && forall k :: 0 <= k < |s| ==> r[k] == Small(s[k])
  {
    if s == [] then [] else [Small(s[0])] + Lowered(s[1..])
  }

  function Small(c: char): char {
    if 'A' <= c <= 'Z' then c - 'A' + 'a' else c
  }

  /** A prefix of string literals: `r`, `u`, `b`, `f`, `r` and `b` or `r` and `f` in either order, or none. */
  predicate IsPrefix(s: string) {
    || |s| == 0
    || (|s| == 1 && (s[0] == 'r' || s[0] == 'u' || s[0] == 'b' || s[0] == 'f'))
    || (|s| == 2 && s[0] == 'r' && (s[1] == 'b' || s[1] == 'f'))
    || (|s| == 2 && s[1] == 'r' && (s[0] == 'b' || s[0] == 'f'))
  }

  /** The prefixes are those, however capital and small letters mix. */
  lemma PrefixesAreAll(s: string)
    ensures s in PREFIXES <==> IsPrefix(Lowered(s))
  {
    if IsPrefix(Lowered(s)) {
      EachIsThere(s);
    } else if s in PREFIXES {
      EachIsPrefix(s);
    }
  }

  lemma EachIsThere(s: string)
    requires IsPrefix(Lowered(s))
    ensures s in PREFIXES
  {
    assert s == [] || s == [s[0]] || s == [s[0], s[1]];
  }

  lemma EachIsPrefix(s: string)
    requires s in PREFIXES
    ensures IsPrefix(Lowered(s))
  {
  }

  /** Those of f-strings. */
  lemma FormattedIs(s: string)
    ensures Formatted(s) <==> 'f' in Lowered(s)
  {
    var t := Lowered(s);
    assert Formatted(s) <==> exists k :: 0 <= k < |s| && t[k] == 'f';
  }

  /** Characters that neither end the text of an f-string nor escape. */
  predicate Ordinary(c: char, quote: Quote) {
    c != '{' && c != '}' && c != '\\' && c != '\n' && c != quote.mark
  }

  /** Ordinary characters are text. */
  lemma {:induction false} OverText(p: string, i: nat, j: nat, first: bool, quote: Quote)
    requires |p| > 0 && p[|p| - 1] == '\n' && i <= j < |p| && forall k :: i <= k < j ==> Ordinary(p[k], quote)
    ensures TextEnd(p, i, first, quote) == TextEnd(p, j, first && i == j, quote)
    decreases j - i
  {
    if i < j {
      OverText(p, i + 1, j, false, quote);
    }
  }

  /** Doubled braces and escapes are text. */
  lemma OverPair(p: string, i: nat, first: bool, quote: Quote)
    requires i + 1 < |p| && p[|p| - 1] == '\n' && (quote.mark == '\'' || quote.mark == '"')
    requires (p[i] == p[i + 1] && (p[i] == '{' || p[i] == '}')) || p[i] == '\\'
    ensures TextEnd(p, i, first, quote) == TextEnd(p, i + 2, false, quote)
  {
  }

  /** A brace that is not doubled ends the text, and so does the closing quote. */
  lemma EndsText(p: string, i: nat, first: bool, quote: Quote)
    requires i + 1 < |p| && p[|p| - 1] == '\n' && (quote.mark == '\'' || quote.mark == '"')
    ensures p[i] == '{' != p[i + 1] ==> TextEnd(p, i, first, quote) == Some(i) && PartAt(p, i, quote) == Ends(1, LBRACE)
    ensures p[i] == '}' != p[i + 1] ==> TextEnd(p, i, first, quote) == Some(i) && PartAt(p, i, quote) == Ends(1, RBRACE)
    ensures p[i] == quote.mark && !quote.triple ==>
      TextEnd(p, i, first, quote) == Some(i) && PartAt(p, i, quote) == Ends(1, FSTRING_END)
    ensures i + 3 < |p| && p[i..i + 3] == [quote.mark, quote.mark, quote.mark] && quote.triple ==>
      TextEnd(p, i, first, quote) == Some(i) && PartAt(p, i, quote) == Ends(3, FSTRING_END)
  {
    if i + 3 < |p| {
      assert p[i..i + 3] == [p[i], p[i + 1], p[i + 2]];
    }
  }

  /** No line end may stand in the text, but for its first character. */
  lemma BrokenText(p: string, i: nat, quote: Quote)
    requires i < |p| && p[|p| - 1] == '\n' && p[i] == '\n'
    ensures TextEnd(p, i, false, quote).None?
  {
  }

  /** The text of an f-string ends at the first brace or quote behind ordinary characters. */
  lemma TextUpTo(p: string, i: nat, j: nat, quote: Quote)
    requires i <= j && j + 1 < |p| && p[|p| - 1] == '\n' && (quote.mark == '\'' || quote.mark == '"')
    requires forall k :: i <= k < j ==> Ordinary(p[k], quote)
    ensures p[j] == '{' != p[j + 1] ==> TextEnd(p, i, true, quote) == Some(j) && PartAt(p, j, quote) == Ends(1, LBRACE)
    ensures p[j] == '}' != p[j + 1] ==> TextEnd(p, i, true, quote) == Some(j) && PartAt(p, j, quote) == Ends(1, RBRACE)
    ensures p[j] == quote.mark && !quote.triple ==>
      TextEnd(p, i, true, quote) == Some(j) && PartAt(p, j, quote) == Ends(1, FSTRING_END)
    ensures i < j && p[j] == '\n' ==> TextEnd(p, i, true, quote).None?
  {
    OverText(p, i, j, true, quote);
    EndsText(p, j, i == j, quote);
  }
}
