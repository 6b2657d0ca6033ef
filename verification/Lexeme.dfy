/** What stands in a program text at an offset: blanks, names, operators, literals, parts of f-strings. */
module Lexemes {
  import opened Options
  import opened Tokens
  import opened Quoting
  import opened Stream

  /** `Abort` is a failed assertion: nothing runs after it. */
  datatype Outcome = Yes | No | Abort

  const PREFIXES: seq<string> := [
    "", "br", "f", "rB", "u", "rF", "U", "fr", "RF", "fR", "BR", "RB", "bR", "rb", "F", "rf", "Fr", "R", "b", "Br",
    "B", "r", "FR", "Rf", "Rb"]

  predicate LettersOnly(s: string) {
    forall k :: 0 <= k < |s| ==> Letter(s[k])
  }

  /** No prefix has a quote in it. */
  ghost predicate Unquoted(prefixes: seq<string>) {
    forall k :: 0 <= k < |prefixes| ==> LettersOnly(prefixes[k])
  }

  lemma PrefixesAreLetters()
    ensures Unquoted(PREFIXES)
  {
  }

  predicate QuoteAt(p: string, i: nat) {
    i < |p| && (p[i] == '\'' || p[i] == '"')
  }

  /** A string prefix stands at `i`, with a quote behind it. */
  predicate PrefixAt(p: string, i: nat, prefix: string) {
    i + |prefix| < |p| && p[i..i + |prefix|] == prefix && QuoteAt(p, i + |prefix|)
  }

  /** A whole name stands from `i` to `j`. */
  predicate IsName(p: string, i: nat, j: nat) {
    i < j < |p| && NameStart(p[i]) && !NameChar(p[j]) && forall k :: i <= k < j ==> NameChar(p[k])
  }

  predicate BackslashAt(p: string, i: nat) {
    i + 1 < |p| && p[i] == '\\'
  }

  predicate Formatted(prefix: string) { 'f' in prefix || 'F' in prefix }

  /** Behind the opening quotes that stand at `i`. */
  function Opening(p: string, i: nat): (k: nat)
    requires i < |p|
    ensures i < k <= |p|
  {
    i + Length(Delimiter(p, i, p[i], true))
  }

  /** The end of the literal whose opening quote stands at `i`, if it is closed. */
  function LiteralEnd(p: string, i: nat): (r: Option<nat>)
    requires i < |p|
    ensures r.Some? ==> Opening(p, i) <= r.value <= |p|
  {
    var triple := Delimiter(p, i, p[i], true);
    match Scan(p, i + Length(triple), p[i], triple)
    case None => None
    case Some(k) => Some(k + Length(triple))
  }

  /** The offset behind an escape or behind a quote that does not close. */
  function Inside(p: string, i: nat, q: char): (r: Option<nat>)
    requires i < |p| && p[|p| - 1] == '\n' && q != '\\' && q != '\n'
    ensures r.Some? ==> i < r.value <= |p| && Scan(p, r.value, q, true) == Scan(p, i, q, true)
    ensures r.Some? ==> Rows(p, r.value, q, true) == Rows(p, i, q, true)
    ensures r.None? ==> p[i] != q || Delimiter(p, i, q, true)
    ensures r.None? ==> p[i] != '\\' || p[i + 1] == '\n'
  {
    if p[i] == '\\' && p[i + 1] != '\n' then Some(i + 2)
    else if p[i] != q then None
    else if p[i + 1] == q && p[i + 2] == q then None
    else Some(i + 1)
  }

  /** What comes next in an f-string: text, or the `n` characters of a token that ends the text. */
  datatype Part = Skip(n: nat) | Ends(n: nat, kind: Kind)

  /** The tokens that end the text of an f-string. */
  predicate EndsPart(kind: Kind) { kind == LBRACE || kind == RBRACE || kind == FSTRING_END }

  function PartAt(p: string, i: nat, quote: Quote): (r: Part)
    requires i < |p| && p[|p| - 1] == '\n'
    ensures 0 < r.n && i + r.n <= |p| && (r.Ends? ==> Plain(r.kind) && EndsPart(r.kind))
  {
    if p[i] == '}' then if p[i + 1] != '}' then Ends(1, RBRACE) else Skip(2)
    else if Delimiter(p, i, quote.mark, quote.triple) then Ends(Length(quote.triple), FSTRING_END)
    else if p[i] == '{' then if p[i + 1] != '{' then Ends(1, LBRACE) else Skip(2)
    else if p[i] == '\\' then Skip(2)
    else Skip(1)
  }

  /** Where the text of an f-string ends, from a step at `i` on. Only the first step may begin at a line end. */
  function TextEnd(p: string, i: nat, first: bool, quote: Quote): (r: Option<nat>)
    requires |p| > 0 && p[|p| - 1] == '\n'
    ensures r.Some? ==> i <= r.value < |p| && PartAt(p, r.value, quote).Ends?
    decreases |p| - i
  {
    if i >= |p| || (!first && p[i] == '\n') then None
    else if PartAt(p, i, quote).Ends? then Some(i)
    else TextEnd(p, i + PartAt(p, i, quote).n, false, quote)
  }

  /** The end of an f-string leaves its mode, an opening brace begins an expression. */
  function Switched(modes: seq<Mode>, kind: Kind): seq<Mode>
    requires |modes| > 0
  {
    if kind == FSTRING_END then modes[..|modes| - 1] else if kind == LBRACE then modes + [NORMAL] else modes
  }

  /** Only the line structure makes these. */
  predicate Structural(kind: Kind) { kind == INDENT || kind == DEDENT || kind == ENDMARKER }

  /** Any token but the end marker may follow. */
  predicate Settled(kind: Kind) { kind != ENDMARKER && kind != FSTRING_MIDDLE }

  /** Tokens of the text proper. */
  predicate Plain(kind: Kind) { !Structural(kind) && Settled(kind) }

  /** Operators that nothing else in the model needs by name have their place in the list of token types as code. */
  function Operator3(p: string, i: nat): (r: Option<Kind>)
    ensures r.Some? ==> i + 3 <= |p| && Plain(r.value) && Neutral(r.value) && Wordy(r.value)
  {
    if i + 3 > |p| then None
    else if p[i..i + 3] == "<<=" then Some(OTHER(48))
    else if p[i..i + 3] == ">>=" then Some(OTHER(49))
    else if p[i..i + 3] == "**=" then Some(OTHER(50))
    else if p[i..i + 3] == "//=" then Some(OTHER(52))
    else if p[i..i + 3] == "..." then Some(OTHER(56))
    else None
  }

  function Operator2(p: string, i: nat): (r: Option<Kind>)
    ensures r.Some? ==> i + 2 <= |p| && Plain(r.value) && Neutral(r.value) && Wordy(r.value)
  {
    if i + 2 > |p| then None
    else if p[i + 1] == '=' then WithEquals(p[i])
    else Paired(p[i], p[i + 1])
  }

  /** The operators `a=`. */
  function WithEquals(a: char): (r: Option<Kind>)
    ensures r.Some? ==> r.value.OTHER?
  {
    match a
    case '=' => Some(OTHER(31))
    case '!' => Some(OTHER(32))
    case '<' => Some(OTHER(33))
    case '>' => Some(OTHER(34))
    case '+' => Some(OTHER(40))
    case '-' => Some(OTHER(41))
    case '*' => Some(OTHER(42))
    case '/' => Some(OTHER(43))
    case '%' => Some(OTHER(44))
    case '&' => Some(OTHER(45))
    case '|' => Some(OTHER(46))
    case '^' => Some(OTHER(47))
    case ':' => Some(OTHER(57))
    case '@' => Some(OTHER(54))
    case _ => None
  }

  /** The other operators `ab`. */
  function Paired(a: char, b: char): (r: Option<Kind>)
    ensures r.Some? ==> Plain(r.value) && Neutral(r.value) && Wordy(r.value)
  {
    if a == '<' && b == '<' then Some(LEFTSHIFT)
    else if a == '>' && b == '>' then Some(RIGHTSHIFT)
    else if a == '*' && b == '*' then Some(DOUBLESTAR)
    else if a == '/' && b == '/' then Some(DOUBLESLASH)
    else if a == '-' && b == '>' then Some(OTHER(55))
    else None
  }

  function Operator1(c: char): (r: Option<Kind>)
    ensures r.Some? ==> Plain(r.value) && Wordy(r.value)
  {
    match c
    case '(' => Some(LPAREN)
    case ')' => Some(RPAREN)
    case '[' => Some(LSQB)
    case ']' => Some(RSQB)
    case '{' => Some(LBRACE)
    case '}' => Some(RBRACE)
    case ':' => Some(COLON)
    case ',' => Some(COMMA)
    case ';' => Some(SEMI)
    case '+' => Some(PLUS)
    case '-' => Some(MINUS)
    case '*' => Some(STAR)
    case '/' => Some(SLASH)
    case '|' => Some(VBAR)
    case '&' => Some(AMPER)
    case '<' => Some(OTHER(24))
    case '>' => Some(OTHER(25))
    case '=' => Some(OTHER(26))
    case '.' => Some(DOT)
    case '%' => Some(PERCENT)
    case '~' => Some(TILDE)
    case '^' => Some(CIRCUMFLEX)
    case '@' => Some(AT)
    case '!' => Some(OTHER(58))
    case _ => None
  }

  /** The longest operator at `i`, and its length. */
  function OperatorAt(p: string, i: nat): (r: Option<(Kind, nat)>)
    requires i < |p|
    ensures r.Some? ==> 0 < r.value.1 && i + r.value.1 <= |p| && Plain(r.value.0) && Wordy(r.value.0)
  {
    if Operator3(p, i).Some? then Some((Operator3(p, i).value, 3))
    else if Operator2(p, i).Some? then Some((Operator2(p, i).value, 2))
    else if Operator1(p[i]).Some? then Some((Operator1(p[i]).value, 1))
    else None
  }

  /** Some string prefix stands at `i` with a quote behind it. */
  ghost predicate HasPrefix(p: string, i: nat, prefixes: seq<string>) {
    exists k :: 0 <= k < |prefixes| && PrefixAt(p, i, prefixes[k])
  }

  /** No string, name or operator begins at `i`. */
  ghost predicate NoWord(p: string, i: nat, prefixes: seq<string>)
    requires i < |p|
  {
    !HasPrefix(p, i, prefixes) && !NameStart(p[i]) && OperatorAt(p, i).None?
  }

  /** The token from `i` to `j`. */
  function Piece(kind: Kind, p: string, i: nat, j: nat): (t: Token)
    requires i <= j <= |p|
    ensures t.kind == kind && t.start == i && End(t) == j && t.text == p[i..j]
  {
    Token(kind, i, p[i..j])
  }
}
