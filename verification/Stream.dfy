/** What a token stream says about the program text: where tokens lie, and which indentations are open. */
module Stream {
  import opened Options
  import opened Tokens

  predicate Blank(c: char) { c == ' ' || c == '\t' }

  predicate Space(c: char) { Blank(c) || '\n' <= c <= '\r' }

  predicate Digit(c: char) { '0' <= c <= '9' }

  predicate Letter(c: char) { 'a' <= c <= 'z' || 'A' <= c <= 'Z' }

  predicate NameStart(c: char) { Letter(c) || c == '_' }

  predicate NameChar(c: char) { NameStart(c) || Digit(c) }

  const TAB_SIZE := 8

  /** The value of an indentation: a tab always counts `TAB_SIZE`. */
  function Width(s: string): nat {
    if s == [] then 0
    else Width(s[..|s| - 1]) + if s[|s| - 1] == '\t' then TAB_SIZE else 1
  }

  /** Nothing but blanks and escaped line ends between `i` and `j`. */
  predicate Gap(p: string, i: nat, j: nat)
    requires j <= |p|
    decreases |p| - i
  {
    || i == j
    || (i < j && Blank(p[i]) && Gap(p, i + 1, j))
    || (i + 1 < j && p[i] == '\\' && p[i + 1] == '\n' && Gap(p, i + 2, j))
  }

  lemma {:induction false} GapJoin(p: string, i: nat, j: nat, k: nat)
    requires j <= k <= |p| && Gap(p, i, j) && Gap(p, j, k)
    ensures Gap(p, i, k)
    decreases |p| - i
  {
    if i < j {
      if Blank(p[i]) {
        GapJoin(p, i + 1, j, k);
      } else {
        GapJoin(p, i + 2, j, k);
      }
    }
  }

  lemma {:induction false} BlanksAreGap(p: string, i: nat, j: nat)
    requires i <= j <= |p| && forall k :: i <= k < j ==> Blank(p[k])
    ensures Gap(p, i, j)
    decreases j - i
  {
    if i < j {
      BlanksAreGap(p, i + 1, j);
    }
  }

  function End(t: Token): nat { t.start + |t.text| }

  function LastEnd(ts: seq<Token>): nat {
    if ts == [] then 0 else End(ts[|ts| - 1])
  }

  /** Token `i` is a piece of the program, right behind the one before it or a gap away from it, or one more DEDENT of the same line. */
  predicate InPlace(p: string, ts: seq<Token>, i: nat)
    requires i < |ts|
  {
    var e := if i == 0 then 0 else End(ts[i - 1]);
    && End(ts[i]) <= |p|
    && ts[i].text == p[ts[i].start..End(ts[i])]
    && ((e <= ts[i].start && Gap(p, e, ts[i].start)) || (i > 0 && ts[i].kind == DEDENT && ts[i] == ts[i - 1]))
  }

  /** The tokens and the gaps between them make up the program up to `at`. */
  ghost predicate Tiles(p: string, ts: seq<Token>, at: nat) {
    && (forall i :: 0 <= i < |ts| ==> InPlace(p, ts, i))
    && LastEnd(ts) <= at <= |p|
    && Gap(p, LastEnd(ts), at)
  }

  lemma TilesPush(p: string, ts: seq<Token>, t: Token)
    requires forall i :: 0 <= i < |ts| ==> InPlace(p, ts, i)
    requires InPlace(p, ts + [t], |ts|)
    ensures Tiles(p, ts + [t], End(t))
  {
    var ts' := ts + [t];
    forall i | 0 <= i < |ts'|
      ensures InPlace(p, ts', i)
    {
      if i < |ts| {
        assert InPlace(p, ts, i);
        assert ts'[i] == ts[i] && (i > 0 ==> ts'[i - 1] == ts[i - 1]);
      }
    }
  }

  /** Offsets never go back along the stream. */
  lemma {:induction false} StartsAscend(p: string, ts: seq<Token>, at: nat, i: nat, j: nat)
    requires Tiles(p, ts, at) && i <= j < |ts|
    ensures ts[i].start <= ts[j].start && End(ts[i]) <= End(ts[j])
    decreases j
  {
    if i < j {
      StartsAscend(p, ts, at, i, j - 1);
      assert InPlace(p, ts, j);
    }
  }

  /** The kinds of token that may be empty. */
  predicate Loose(kind: Kind) { kind == DEDENT || kind == ENDMARKER || kind == FSTRING_MIDDLE }

  /** Nothing follows the end marker, and the text of an f-string is followed by the token that ends it. */
  predicate MayFollow(last: Token, t: Token) {
    last.kind != ENDMARKER && (last.kind == FSTRING_MIDDLE ==> t.text != [] && !Loose(t.kind))
  }

  predicate SolidAt(ts: seq<Token>, i: nat)
    requires i < |ts|
  {
    (ts[i].text == [] ==> Loose(ts[i].kind)) && (i > 0 ==> MayFollow(ts[i - 1], ts[i]))
  }

  ghost predicate Solid(ts: seq<Token>) {
    forall i :: 0 <= i < |ts| ==> SolidAt(ts, i)
  }

  lemma SolidPush(ts: seq<Token>, t: Token)
    requires Solid(ts) && (t.text == [] ==> Loose(t.kind)) && (ts != [] ==> MayFollow(ts[|ts| - 1], t))
    ensures Solid(ts + [t])
  {
    forall i | 0 <= i < |ts + [t]|
      ensures SolidAt(ts + [t], i)
    {
      if i < |ts| {
        assert SolidAt(ts, i);
      }
    }
  }

  /** Two tokens of one kind that start at the same offset are DEDENTs. */
  lemma OnlyDedentsClash(p: string, ts: seq<Token>, at: nat, i: nat, j: nat)
    requires Tiles(p, ts, at) && Solid(ts) && i < j < |ts| && ts[i].start == ts[j].start && ts[i].kind == ts[j].kind
    ensures ts[i].kind == DEDENT
  {
    StartsAscend(p, ts, at, i, i + 1);
    StartsAscend(p, ts, at, i + 1, j);
    assert InPlace(p, ts, i + 1) && SolidAt(ts, i) && SolidAt(ts, i + 1);
    if i + 1 < j {
      StartsAscend(p, ts, at, i + 1, i + 2);
      StartsAscend(p, ts, at, i + 2, j);
      assert InPlace(p, ts, i + 2);
    }
  }

  /** The widths of the INDENT tokens that are still open, or nothing if a DEDENT had none to close. */
  function OpenIndents(ts: seq<Token>): Option<seq<nat>> {
    if ts == [] then Some([])
    else
      var t := ts[|ts| - 1];
      match OpenIndents(ts[..|ts| - 1])
      case None => None
      case Some(open) =>
        if t.kind == INDENT then Some(open + [Width(t.text)])
        else if t.kind != DEDENT then Some(open)
        else if open == [] then None
        else Some(open[..|open| - 1])
  }

  function Count(ts: seq<Token>, kind: Kind): nat {
    if ts == [] then 0 else Count(ts[..|ts| - 1], kind) + if ts[|ts| - 1].kind == kind then 1 else 0
  }

  lemma CountPush(ts: seq<Token>, last: seq<Token>, kind: Kind)
    requires |last| <= 1
    ensures Count(ts + last, kind) == Count(ts, kind) + if |last| == 1 && last[0].kind == kind then 1 else 0
  {
    assert (ts + last)[..|ts|] == ts && (last == [] ==> ts + last == ts);
  }

  /** As many INDENT tokens are open as there are more INDENT than DEDENT tokens. */
  lemma {:induction false} OpenIsDifference(ts: seq<Token>)
    requires OpenIndents(ts).Some?
    ensures |OpenIndents(ts).value| == Count(ts, INDENT) - Count(ts, DEDENT)
    decreases |ts|
  {
    if ts != [] {
      OpenIsDifference(ts[..|ts| - 1]);
    }
  }

  /** In every prefix there are no more DEDENT than INDENT tokens. */
  lemma {:induction false} PrefixesAreOpen(ts: seq<Token>, n: nat)
    requires OpenIndents(ts).Some? && n <= |ts|
    ensures OpenIndents(ts[..n]).Some? && Count(ts[..n], DEDENT) <= Count(ts[..n], INDENT)
    decreases |ts|
  {
    if n == |ts| {
      assert ts[..n] == ts;
      OpenIsDifference(ts);
    } else {
      PrefixesAreOpen(ts[..|ts| - 1], n);
      assert ts[..|ts| - 1][..n] == ts[..n];
    }
  }

  /** The indent stack: strictly increasing from 0. */
  ghost predicate IndentsOk(indents: seq<nat>) {
    && |indents| > 0 && indents[0] == 0
    && forall i, j :: 0 <= i < j < |indents| ==> indents[i] < indents[j]
  }

  datatype Mode = NORMAL | FSTRING

  datatype Quote = Quote(mark: char, triple: bool)

  predicate RightMode(modes: seq<Mode>, i: nat)
    requires i < |modes|
  {
    modes[i] == if i % 2 == 0 then NORMAL else FSTRING
  }

  /** The mode stack alternates from NORMAL, and each FSTRING mode has its quote and its bracket level. */
  ghost predicate ModesOk(modes: seq<Mode>, quotes: seq<Quote>, levels: seq<nat>) {
    && (forall i :: 0 <= i < |modes| ==> RightMode(modes, i))
    && |quotes| == |levels|
    && |modes| > 0 && |modes| == 2 * |quotes| + if modes[|modes| - 1] == NORMAL then 1 else 0
  }

  /** Entering an f-string or an expression in one. */
  lemma ModesPush(modes: seq<Mode>, quotes: seq<Quote>, levels: seq<nat>, quote: Quote, level: nat)
    requires ModesOk(modes, quotes, levels)
    ensures
      if modes[|modes| - 1] == NORMAL then ModesOk(modes + [FSTRING], quotes + [quote], levels + [level])
      else ModesOk(modes + [NORMAL], quotes, levels)
  {
    var m := modes + [if modes[|modes| - 1] == NORMAL then FSTRING else NORMAL];
    forall i | 0 <= i < |m|
      ensures RightMode(m, i)
    {
      if i < |modes| {
        assert RightMode(modes, i);
      }
    }
  }

  /** Leaving the innermost mode: below an f-string there is always an expression, and below an inner expression its f-string. */
  lemma ModesPop(modes: seq<Mode>, quotes: seq<Quote>, levels: seq<nat>)
    requires ModesOk(modes, quotes, levels) && |modes| > 1
    ensures |quotes| > 0
    ensures var m := modes[..|modes| - 1];
      if modes[|modes| - 1] == NORMAL then m[|m| - 1] == FSTRING && ModesOk(m, quotes, levels)
      else m[|m| - 1] == NORMAL && ModesOk(m, quotes[..|quotes| - 1], levels[..|levels| - 1])
  {
    var m := modes[..|modes| - 1];
    assert RightMode(modes, |modes| - 2);
    forall i | 0 <= i < |m|
      ensures RightMode(m, i)
    {
      assert RightMode(modes, i);
    }
  }

  /** What is open: brackets, and the modes with the quotes and bracket levels that go with them. */
  datatype Nest = Nest(parens: nat, modes: seq<Mode>, quotes: seq<Quote>, levels: seq<nat>)

  /** The quote of an f-string, from the token that opens it. */
  function QuoteOf(text: string): Quote
    requires |text| > 0
  {
    Quote(text[|text| - 1], |text| > 2 && text[|text| - 2] == text[|text| - 1])
  }

  /** What a token opens or closes; nothing if it closes what is not open. */
  function Nested(n: Nest, t: Token): Option<Nest> {
    if n.modes == [] || (t.kind == FSTRING_START && t.text == []) then None
    else if n.modes[|n.modes| - 1] == NORMAL then InExpression(n, t)
    else if t.kind == FSTRING_START then None
    else if t.kind == LBRACE then Some(n.(modes := n.modes + [NORMAL]))
    else if t.kind != FSTRING_END then Some(n)
    else if n.quotes == [] || n.levels == [] then None
    else
      Some(n.(modes := n.modes[..|n.modes| - 1], quotes := n.quotes[..|n.quotes| - 1], levels := n.levels[..|n.levels| - 1]))
  }

  /** Outside the text of f-strings. In an expression of one, a closing brace or a colon outside brackets ends it. */
  function InExpression(n: Nest, t: Token): Option<Nest>
    requires n.modes != [] && (t.kind == FSTRING_START ==> t.text != [])
  {
    match t.kind
    case FSTRING_START =>
      Some(n.(modes := n.modes + [FSTRING], quotes := n.quotes + [QuoteOf(t.text)], levels := n.levels + [n.parens]))
    case FSTRING_END => None
    case LPAREN => Some(n.(parens := n.parens + 1))
    case LSQB => Some(n.(parens := n.parens + 1))
    case LBRACE => Some(n.(parens := n.parens + 1))
    case RPAREN => if n.parens == 0 then None else Some(n.(parens := n.parens - 1))
    case RSQB => if n.parens == 0 then None else Some(n.(parens := n.parens - 1))
    case RBRACE =>
      if |n.modes| > 1 then Some(n.(modes := n.modes[..|n.modes| - 1]))
      else if n.parens == 0 then None
      else Some(n.(parens := n.parens - 1))
    case COLON =>
      if |n.modes| > 1 && n.levels != [] && n.parens == n.levels[|n.levels| - 1] then Some(n.(modes := n.modes[..|n.modes| - 1]))
      else Some(n)
    case _ => Some(n)
  }

  /** What the tokens leave open. */
  function Nesting(ts: seq<Token>): Option<Nest> {
    if ts == [] then Some(Nest(0, [NORMAL], [], []))
    else
      match Nesting(ts[..|ts| - 1])
      case None => None
      case Some(n) => Nested(n, ts[|ts| - 1])
  }

  lemma NestingPush(ts: seq<Token>, t: Token)
    ensures Nesting(ts + [t]) == if Nesting(ts).None? then None else Nested(Nesting(ts).value, t)
  {
    assert (ts + [t])[..|ts|] == ts;
  }

  /** The tokens leave `n` open, behind a countdown: methods pass this on as one fact and do not look into it. */
  ghost predicate Tracks(ts: seq<Token>, n: Nest) {
    TracksFrom(|ts|, ts, n)
  }

  ghost predicate TracksFrom(k: nat, ts: seq<Token>, n: Nest) {
    if k == 0 then Nesting(ts) == Some(n) else TracksFrom(k - 1, ts, n)
  }

  lemma {:induction false} TracksFromIs(k: nat, ts: seq<Token>, n: Nest)
    ensures TracksFrom(k, ts, n) <==> Nesting(ts) == Some(n)
  {
    if k > 0 {
      TracksFromIs(k - 1, ts, n);
    }
  }

  lemma TracksIs(ts: seq<Token>, n: Nest)
    ensures Tracks(ts, n) <==> Nesting(ts) == Some(n)
  {
    TracksFromIs(|ts|, ts, n);
  }

  lemma TracksPush(ts: seq<Token>, n: Nest, t: Token, n': Nest)
    requires Tracks(ts, n) && Nested(n, t) == Some(n')
    ensures Tracks(ts + [t], n')
  {
    TracksIs(ts, n);
    NestingPush(ts, t);
    TracksIs(ts + [t], n');
  }

  lemma TracksNeutral(ts: seq<Token>, n: Nest, t: Token)
    requires Tracks(ts, n) && n.modes != [] && Neutral(t.kind)
    ensures Tracks(ts + [t], n)
  {
    NeutralToken(n, t);
    TracksPush(ts, n, t, n);
  }

  /** The kinds that open and close nothing. */
  predicate Neutral(kind: Kind) {
    && kind != FSTRING_START && kind != FSTRING_END && kind != LPAREN && kind != LSQB && kind != LBRACE
    && kind != RPAREN && kind != RSQB && kind != RBRACE && kind != COLON
  }

  lemma NeutralToken(n: Nest, t: Token)
    requires n.modes != [] && Neutral(t.kind)
    ensures Nested(n, t) == Some(n)
  {
  }

  lemma {:induction false} TracksStays(ts: seq<Token>, n: Nest, more: seq<Token>)
    requires Tracks(ts, n) && n.modes != [] && forall i :: 0 <= i < |more| ==> Neutral(more[i].kind)
    ensures Tracks(ts + more, n)
    decreases |more|
  {
    if more == [] {
      assert ts + more == ts;
    } else {
      var k := |more| - 1;
      TracksStays(ts, n, more[..k]);
      TracksNeutral(ts + more[..k], n, more[k]);
      assert ts + more[..k] + [more[k]] == ts + more;
    }
  }

  /** Opening less closing brackets. */
  function Balance(ts: seq<Token>): int {
    if ts == [] then 0
    else
      var k := ts[|ts| - 1].kind;
      Balance(ts[..|ts| - 1]) +
      if k == LPAREN || k == LSQB || k == LBRACE then 1 else if k == RPAREN || k == RSQB || k == RBRACE then -1 else 0
  }

  /** Without f-strings, as many brackets are open as there are more opening than closing ones. */
  lemma {:induction false} BracketsAreCounted(ts: seq<Token>)
    requires Nesting(ts).Some? && Count(ts, FSTRING_START) == 0
    ensures Balance(ts) >= 0 && Nesting(ts).value == Nest(Balance(ts), [NORMAL], [], [])
    decreases |ts|
  {
    if ts != [] {
      BracketsAreCounted(ts[..|ts| - 1]);
    }
  }

  /** As many f-strings are open as there are more tokens that open than tokens that close one. */
  lemma {:induction false} FStringsAreCounted(ts: seq<Token>)
    requires Nesting(ts).Some?
    ensures |Nesting(ts).value.quotes| == Count(ts, FSTRING_START) - Count(ts, FSTRING_END)
    ensures |Nesting(ts).value.levels| == |Nesting(ts).value.quotes|
    decreases |ts|
  {
    if ts != [] {
      var ts', t := ts[..|ts| - 1], ts[|ts| - 1];
      FStringsAreCounted(ts');
      QuotesStep(Nesting(ts').value, t);
    }
  }

  lemma QuotesStep(n: Nest, t: Token)
    requires Nested(n, t).Some? && |n.levels| == |n.quotes|
    ensures
      var n' := Nested(n, t).value;
      && |n'.levels| == |n'.quotes|
      && |n'.quotes| == |n.quotes| + (if t.kind == FSTRING_START then 1 else if t.kind == FSTRING_END then -1 else 0)
  {
  }

  /** The tokens that end a line of the program. */
  predicate EndsLine(kind: Kind) { kind == NEWLINE || kind == NL }

  /** `at` is the first place of a row, as the tokens before it and the gap behind them tell. */
  predicate RowStart(p: string, ts: seq<Token>, at: nat) {
    if LastEnd(ts) < at then at <= |p| && p[at - 1] == '\n'
    else ts == [] || EndsLine(ts[|ts| - 1].kind) || ts[|ts| - 1].text == []
  }

  /** No token stands on the row of `at` before it. */
  predicate RowIsEmpty(p: string, ts: seq<Token>, at: nat) {
    ts == [] || EndsLine(ts[|ts| - 1].kind) || (LastEnd(ts) <= at <= |p| && '\n' in p[LastEnd(ts)..at])
  }

  /** Where the blanks from `i` on end. */
  function Indentation(p: string, i: nat): (j: nat)
    requires i <= |p|
    ensures i <= j <= |p|
    ensures (forall k :: i <= k < j ==> Blank(p[k])) && (j < |p| ==> !Blank(p[j]))
    decreases |p| - i
  {
    if i < |p| && Blank(p[i]) then Indentation(p, i + 1) else i
  }

  /** Tokens of the text proper: not of the line structure, no comments. */
  predicate Wordy(kind: Kind) {
    && kind != NEWLINE && kind != NL && kind != COMMENT && kind != INDENT && kind != DEDENT && kind != ENDMARKER
    && kind != FSTRING_MIDDLE
  }

  /** A word that comes next is the first of its line. */
  predicate AtMargin(ts: seq<Token>) {
    ts == [] || EndsLine(ts[|ts| - 1].kind) || ts[|ts| - 1].kind == INDENT || ts[|ts| - 1].kind == DEDENT
  }

  /** Where the blanks of that line begin. */
  function Margin(ts: seq<Token>): nat {
    if ts == [] then 0 else if EndsLine(ts[|ts| - 1].kind) then End(ts[|ts| - 1]) else ts[|ts| - 1].start
  }

  /** Outside brackets and the text of f-strings. */
  predicate Outside(ts: seq<Token>) {
    match Nesting(ts)
    case None => false
    case Some(n) => n.parens == 0 && n.modes != [] && n.modes[|n.modes| - 1] == NORMAL
  }

  /** The innermost indentation that is open: of the INDENT tokens that no DEDENT has closed, or none. */
  function Level(ts: seq<Token>): Option<nat> {
    match OpenIndents(ts)
    case None => None
    case Some(open) => Some(if open == [] then 0 else open[|open| - 1])
  }

  /** The innermost open indentation is the width of the blanks at the margin. */
  predicate Lined(p: string, ts: seq<Token>) {
    Margin(ts) <= |p| && Level(ts) == Some(Width(p[Margin(ts)..Indentation(p, Margin(ts))]))
  }

  /** If a word that comes next begins a line outside brackets, it stands at the indentation that is open. */
  predicate Begins(p: string, ts: seq<Token>) {
    AtMargin(ts) && Outside(ts) ==> Lined(p, ts)
  }

  /** The same behind a countdown. */
  ghost predicate MayBegin(p: string, ts: seq<Token>) {
    BeginsFrom(|p|, p, ts)
  }

  ghost predicate BeginsFrom(k: nat, p: string, ts: seq<Token>) {
    if k == 0 then Begins(p, ts) else BeginsFrom(k - 1, p, ts)
  }

  lemma {:induction false} BeginsFromIs(k: nat, p: string, ts: seq<Token>)
    ensures BeginsFrom(k, p, ts) <==> Begins(p, ts)
  {
    if k > 0 {
      BeginsFromIs(k - 1, p, ts);
    }
  }

  lemma MayBeginIs(p: string, ts: seq<Token>)
    ensures MayBegin(p, ts) <==> Begins(p, ts)
  {
    BeginsFromIs(|p|, p, ts);
  }

  lemma LinedBegins(p: string, ts: seq<Token>)
    requires Lined(p, ts)
    ensures MayBegin(p, ts)
  {
    MayBeginIs(p, ts);
  }

  lemma BracketsOpen(p: string, ts: seq<Token>, n: Nest)
    requires Tracks(ts, n) && n.parens > 0
    ensures MayBegin(p, ts)
  {
    TracksIs(ts, n);
    MayBeginIs(p, ts);
  }

  lemma InsideLine(p: string, ts: seq<Token>)
    requires !AtMargin(ts)
    ensures MayBegin(p, ts)
  {
    MayBeginIs(p, ts);
  }

  /** If token `i` is the first word of a line outside brackets, the blanks before it are the indentation that is open. */
  ghost predicate Indented(p: string, ts: seq<Token>, i: nat)
    requires i < |ts|
  {
    Wordy(ts[i].kind) ==> MayBegin(p, ts[..i])
  }

  ghost predicate AllIndented(p: string, ts: seq<Token>) {
    forall i :: 0 <= i < |ts| ==> Indented(p, ts, i)
  }

  /** Token `i` is the first word of a line outside brackets. */
  predicate BeginsLine(ts: seq<Token>, i: nat)
    requires i < |ts|
  {
    Wordy(ts[i].kind) && AtMargin(ts[..i]) && Outside(ts[..i])
  }

  lemma LinesAreLined(p: string, ts: seq<Token>)
    requires AllIndented(p, ts)
    ensures forall i :: 0 <= i < |ts| && BeginsLine(ts, i) ==> Lined(p, ts[..i])
  {
    forall i | 0 <= i < |ts| && BeginsLine(ts, i)
      ensures Lined(p, ts[..i])
    {
      assert Indented(p, ts, i);
      MayBeginIs(p, ts[..i]);
    }
  }

  lemma IndentedPush(p: string, ts: seq<Token>, t: Token)
    requires AllIndented(p, ts) && (Wordy(t.kind) ==> MayBegin(p, ts))
    ensures AllIndented(p, ts + [t])
  {
    forall i | 0 <= i < |ts + [t]|
      ensures Indented(p, ts + [t], i)
    {
      if i < |ts| {
        assert Indented(p, ts, i) && (ts + [t])[..i] == ts[..i];
      } else {
        assert (ts + [t])[..i] == ts;
      }
    }
  }

  /** `at` is the first place of a row, and no token stands before it on that row, behind a countdown. */
  ghost predicate Rowed(p: string, ts: seq<Token>, at: nat, first: bool, alone: bool) {
    RowedFrom(|p|, p, ts, at, first, alone)
  }

  ghost predicate RowedFrom(k: nat, p: string, ts: seq<Token>, at: nat, first: bool, alone: bool) {
    if k == 0 then (first <==> RowStart(p, ts, at)) && (alone <==> RowIsEmpty(p, ts, at))
    else RowedFrom(k - 1, p, ts, at, first, alone)
  }

  lemma {:induction false} RowedFromIs(k: nat, p: string, ts: seq<Token>, at: nat, first: bool, alone: bool)
    ensures RowedFrom(k, p, ts, at, first, alone) <==>
            (first <==> RowStart(p, ts, at)) && (alone <==> RowIsEmpty(p, ts, at))
  {
    if k > 0 {
      RowedFromIs(k - 1, p, ts, at, first, alone);
    }
  }

  lemma RowedIs(p: string, ts: seq<Token>, at: nat, first: bool, alone: bool)
    ensures Rowed(p, ts, at, first, alone) <==> (first <==> RowStart(p, ts, at)) && (alone <==> RowIsEmpty(p, ts, at))
  {
    RowedFromIs(|p|, p, ts, at, first, alone);
  }

  /** Behind the token that ends a line a row begins. */
  lemma EndRow(p: string, ts: seq<Token>)
    requires ts != [] && EndsLine(ts[|ts| - 1].kind)
    ensures Rowed(p, ts, LastEnd(ts), true, true) && Margin(ts) == LastEnd(ts)
  {
    RowedIs(p, ts, LastEnd(ts), true, true);
  }

  /** Behind any other token that has a text none does. */
  lemma InRow(p: string, ts: seq<Token>)
    requires ts != [] && !EndsLine(ts[|ts| - 1].kind)
    ensures Rowed(p, ts, LastEnd(ts), ts[|ts| - 1].text == [], false)
  {
    RowedIs(p, ts, LastEnd(ts), ts[|ts| - 1].text == [], false);
  }

  /** Blanks leave the row as it is, but for its first place. */
  lemma RowsOverBlanks(p: string, ts: seq<Token>, i: nat, j: nat, first: bool, alone: bool)
    requires LastEnd(ts) <= i <= j <= |p| && forall k :: i <= k < j ==> Blank(p[k])
    requires Rowed(p, ts, i, first, alone)
    ensures Rowed(p, ts, j, i == j && first, alone)
  {
    RowedIs(p, ts, i, first, alone);
    RowedIs(p, ts, j, i == j && first, alone);
    var e := LastEnd(ts);
    assert p[e..j] == p[e..i] + p[i..j];
    assert '\n' !in p[i..j];
    if i < j {
      assert Blank(p[j - 1]);
    }
  }

  /** An escaped line end begins a row. */
  lemma RowsOverLineEnd(p: string, ts: seq<Token>, j: nat)
    requires LastEnd(ts) < j <= |p| && p[j - 1] == '\n'
    ensures Rowed(p, ts, j, true, true)
  {
    RowedIs(p, ts, j, true, true);
    assert p[LastEnd(ts)..j][j - 1 - LastEnd(ts)] == '\n';
  }
}
