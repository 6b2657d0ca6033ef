/**
 The lexer: a cursor over the program text, an indent stack, a stack of modes for f-strings and a queue of tokens.
 The program ends in a line end. How long the number at an offset is, is a parameter.
 */
module Lexers {
  import opened Options
  import opened Tokens
  import opened Quoting
  import opened Stream
  import opened Lexemes
  import opened Steps

  /** What is handed on: comments and NL tokens can be left out. */
  function Wanted(ts: seq<Token>, noNl: bool, noComments: bool): seq<Token> {
    if ts == [] then []
    else
      var t := ts[|ts| - 1];
      Wanted(ts[..|ts| - 1], noNl, noComments) +
      if (noComments && t.kind == COMMENT) || (noNl && t.kind == NL) then [] else [t]
  }

  /** Leaving tokens out again changes nothing. */
  lemma {:induction false} WantedStays(a: seq<Token>, noNl: bool, noComments: bool)
    ensures Wanted(Wanted(a, noNl, noComments), noNl, noComments) == Wanted(a, noNl, noComments)
    decreases |a|
  {
    if a != [] {
      var w := Wanted(a[..|a| - 1], noNl, noComments);
      WantedStays(a[..|a| - 1], noNl, noComments);
      if Wanted(a, noNl, noComments) != w {
        assert (w + [a[|a| - 1]])[..|w|] == w;
      }
    }
  }

  /** NL tokens or comments are left out, all of them, and no other token is. */
  lemma {:induction false} WantedCounts(ts: seq<Token>, noNl: bool, noComments: bool, kind: Kind)
    ensures Count(Wanted(ts, noNl, noComments), kind) ==
      if (noNl && kind == NL) || (noComments && kind == COMMENT) then 0 else Count(ts, kind)
    decreases |ts|
  {
    if ts != [] {
      var w, t := Wanted(ts[..|ts| - 1], noNl, noComments), ts[|ts| - 1];
      WantedCounts(ts[..|ts| - 1], noNl, noComments, kind);
      CountPush(w, if (noComments && t.kind == COMMENT) || (noNl && t.kind == NL) then [] else [t], kind);
    }
  }

  /** Leaving tokens out of two streams in a row is leaving them out of each. */
  lemma {:induction false} WantedJoin(a: seq<Token>, b: seq<Token>, noNl: bool, noComments: bool)
    ensures Wanted(a + b, noNl, noComments) == Wanted(a, noNl, noComments) + Wanted(b, noNl, noComments)
    decreases |b|
  {
    if b == [] {
      assert a + b == a;
    } else {
      var ab, b', t := a + b, b[..|b| - 1], b[|b| - 1];
      WantedJoin(a, b', noNl, noComments);
      assert ab[..|ab| - 1] == a + b' && ab[|ab| - 1] == t;
      var wa, wb, last := Wanted(a, noNl, noComments), Wanted(b', noNl, noComments), Wanted([t], noNl, noComments);
      assert (wa + wb) + last == wa + (wb + last);
    }
  }

  /** Tokens can be left out in one go or bit by bit. */
  lemma WantedAgain(a: seq<Token>, b: seq<Token>, noNl: bool, noComments: bool)
    ensures Wanted(Wanted(a, noNl, noComments) + b, noNl, noComments) == Wanted(a + b, noNl, noComments)
  {
    WantedJoin(a, b, noNl, noComments);
    WantedJoin(Wanted(a, noNl, noComments), b, noNl, noComments);
    WantedStays(a, noNl, noComments);
  }

  lemma WantedMore(queue: seq<Token>, log: seq<Token>, log1: seq<Token>, log2: seq<Token>, noNl: bool, noComments: bool)
    requires log <= log1 <= log2
    ensures
      Wanted(Wanted(queue + log1[|log|..], noNl, noComments) + log2[|log1|..], noNl, noComments) ==
      Wanted(queue + log2[|log|..], noNl, noComments)
  {
    WantedAgain(queue + log1[|log|..], log2[|log1|..], noNl, noComments);
    Regrouped(queue, log, log1, log2);
  }

  lemma WantedSoFar(log: seq<Token>, log1: seq<Token>, noNl: bool, noComments: bool)
    requires log <= log1
    ensures Wanted(Wanted(log, noNl, noComments) + log1[|log|..], noNl, noComments) == Wanted(log1, noNl, noComments)
  {
    WantedAgain(log, log1[|log|..], noNl, noComments);
    assert log + log1[|log|..] == log1;
  }

  lemma Regrouped(queue: seq<Token>, log: seq<Token>, log1: seq<Token>, log2: seq<Token>)
    requires log <= log1 <= log2
    ensures queue + log1[|log|..] + log2[|log1|..] == queue + log2[|log|..]
  {
    assert log2[|log|..] == log1[|log|..] + log2[|log1|..];
  }

  /** The part of a lexer that tells what it has done: `queue` was `base` when `emitted` was `past`. */
  datatype Story = Story(
    text: string, emitted: seq<Token>, indents: seq<nat>, queue: seq<Token>, past: seq<Token>, base: seq<Token>)

  datatype Clause = Stack | Tiling | Distinct | Queued | Margins | Ready

  ghost predicate Holds(c: Clause, s: Story, at: nat) {
    match c
    case Stack => IndentsOk(s.indents) && OpenIndents(s.emitted) == Some(s.indents[1..])
    case Tiling => Tiles(s.text, s.emitted, at)
    case Distinct => Solid(s.emitted)
    case Queued => s.past <= s.emitted && s.queue == s.base + s.emitted[|s.past|..]
    case Margins => AllIndented(s.text, s.emitted)
    case Ready => s.emitted != [] ==> Settled(s.emitted[|s.emitted| - 1].kind)
  }

  /**
   The indent stack is 0 and the widths of the INDENT tokens that are open, the tokens make up the program up to `at`
   and only DEDENTs repeat, lines begin at the indentation that is open, and what was pushed went to the queue.
   */
  ghost predicate Told(s: Story, at: nat) {
    Folded(|s.text|, s, at, false)
  }

  /** The same when the end marker has been pushed. */
  ghost predicate Over(s: Story, at: nat) {
    Folded(|s.text|, s, at, true)
  }

  /** The clauses, behind a countdown: methods pass them on as one fact and do not look into them. */
  ghost predicate Folded(n: nat, s: Story, at: nat, over: bool) {
    if n == 0 then forall c: Clause :: Holds(c, s, at) || (over && c == Ready) else Folded(n - 1, s, at, over)
  }

  lemma {:induction false} FoldedIs(n: nat, s: Story, at: nat, over: bool)
    ensures Folded(n, s, at, over) <==> forall c: Clause :: Holds(c, s, at) || (over && c == Ready)
  {
    if n > 0 {
      FoldedIs(n - 1, s, at, over);
    }
  }

  lemma ToldIs(s: Story, at: nat)
    ensures Told(s, at) <==> forall c: Clause :: Holds(c, s, at)
    ensures Over(s, at) <==> forall c: Clause :: Holds(c, s, at) || c == Ready
  {
    FoldedIs(|s.text|, s, at, false);
    FoldedIs(|s.text|, s, at, true);
  }

  lemma ToldGap(s: Story, i: nat, j: nat)
    requires Told(s, i) && i <= j <= |s.text| && Gap(s.text, i, j)
    ensures Told(s, j)
  {
    ToldIs(s, i);
    ToldIs(s, j);
    forall c: Clause
      ensures Holds(c, s, j)
    {
      assert Holds(c, s, i);
      if c == Tiling {
        GapJoin(s.text, LastEnd(s.emitted), i, j);
      }
    }
  }

  /** A new count of what is pushed. */
  lemma ToldAfresh(s: Story, at: nat, queue: seq<Token>)
    requires Told(s, at) || Over(s, at)
    ensures Told(s, at) ==> Told(Story(s.text, s.emitted, s.indents, queue, s.emitted, queue), at)
    ensures Over(s, at) ==> Over(Story(s.text, s.emitted, s.indents, queue, s.emitted, queue), at)
  {
    var s' := Story(s.text, s.emitted, s.indents, queue, s.emitted, queue);
    ToldIs(s, at);
    ToldIs(s', at);
    assert s.emitted[|s.emitted|..] == [] && queue + [] == queue;
    forall c: Clause
      ensures Holds(c, s, at) ==> Holds(c, s', at)
    {
    }
  }

  function Pushed(s: Story, t: Token, indents: seq<nat>): Story {
    s.(emitted := s.emitted + [t], queue := s.queue + [t], indents := indents)
  }

  /** Token `t` stands right at `at`, or is one more DEDENT of the same line. */
  ghost predicate Next(s: Story, at: nat, t: Token) {
    && t.start <= End(t) <= |s.text| && t.text == s.text[t.start..End(t)]
    && (t.start == at || (t.kind == DEDENT && s.emitted != [] && s.emitted[|s.emitted| - 1] == t))
    && (t.text == [] ==> Loose(t.kind))
    && (Wordy(t.kind) ==> MayBegin(s.text, s.emitted))
  }

  /** Pushing a token that may follow keeps each clause but for the indent stack. */
  lemma ClausePush(c: Clause, s: Story, at: nat, t: Token, indents: seq<nat>)
    requires c == Tiling || c == Distinct || c == Queued || c == Margins
    requires Holds(c, s, at) && Next(s, at, t) && (s.emitted != [] ==> MayFollow(s.emitted[|s.emitted| - 1], t))
    ensures Holds(c, Pushed(s, t, indents), End(t))
  {
    match c
    case Tiling =>
      TilesNext(s.text, s.emitted, at, t);
    case Distinct =>
      SolidPush(s.emitted, t);
    case Queued =>
      QueuedNext(s.past, s.emitted, t);
    case Margins =>
      IndentedPush(s.text, s.emitted, t);
  }

  lemma TilesNext(p: string, ts: seq<Token>, at: nat, t: Token)
    requires Tiles(p, ts, at) && End(t) <= |p| && t.text == p[t.start..End(t)]
    requires t.start == at || (t.kind == DEDENT && ts != [] && ts[|ts| - 1] == t)
    ensures Tiles(p, ts + [t], End(t))
  {
    assert ts != [] ==> (ts + [t])[|ts| - 1] == ts[|ts| - 1];
    TilesPush(p, ts, t);
  }

  lemma QueuedNext(past: seq<Token>, emitted: seq<Token>, t: Token)
    requires past <= emitted
    ensures past <= emitted + [t] && (emitted + [t])[|past|..] == emitted[|past|..] + [t]
  {
  }

  lemma ToldPush(s: Story, at: nat, t: Token, indents: seq<nat>)
    requires Told(s, at) && Next(s, at, t) && Holds(Stack, Pushed(s, t, indents), at)
    ensures Settled(t.kind) ==> Told(Pushed(s, t, indents), End(t))
    ensures t.kind == ENDMARKER ==> Over(Pushed(s, t, indents), End(t))
  {
    var s' := Pushed(s, t, indents);
    ToldIs(s, at);
    ToldIs(s', End(t));
    assert Holds(Ready, s, at) && Holds(Stack, s', at);
    forall c: Clause | c == Tiling || c == Distinct || c == Queued || c == Margins
      ensures Holds(c, s', End(t))
    {
      assert Holds(c, s, at);
      ClausePush(c, s, at, t, indents);
    }
    forall c: Clause
      ensures Holds(c, s', End(t)) || (c == Ready && !Settled(t.kind))
    {
      assert c == Stack || c == Ready || c == Tiling || c == Distinct || c == Queued || c == Margins;
    }
  }

  lemma StackPlain(s: Story, at: nat, t: Token)
    requires Holds(Stack, s, at) && t.kind != INDENT && t.kind != DEDENT
    ensures Holds(Stack, Pushed(s, t, s.indents), at)
  {
    assert (s.emitted + [t])[..|s.emitted|] == s.emitted;
  }

  lemma ToldPlain(s: Story, at: nat, t: Token)
    requires Told(s, at) && Next(s, at, t) && t.kind != INDENT && t.kind != DEDENT
    ensures Settled(t.kind) ==> Told(Pushed(s, t, s.indents), End(t))
    ensures t.kind == ENDMARKER ==> Over(Pushed(s, t, s.indents), End(t))
  {
    ToldIs(s, at);
    assert Holds(Stack, s, at);
    StackPlain(s, at, t);
    ToldPush(s, at, t, s.indents);
  }

  lemma ToldIndent(s: Story, at: nat, t: Token)
    requires Told(s, at) && Next(s, at, t)
    requires s.indents != [] && t.kind == INDENT && Width(t.text) > s.indents[|s.indents| - 1]
    ensures Told(Pushed(s, t, s.indents + [Width(t.text)]), End(t))
  {
    ToldIs(s, at);
    assert Holds(Stack, s, at);
    IndentOpens(s.emitted, t, s.indents);
    IndentsPush(s.indents, Width(t.text));
    ToldPush(s, at, t, s.indents + [Width(t.text)]);
  }

  lemma IndentOpens(ts: seq<Token>, t: Token, indents: seq<nat>)
    requires indents != [] && OpenIndents(ts) == Some(indents[1..]) && t.kind == INDENT
    ensures OpenIndents(ts + [t]) == Some((indents + [Width(t.text)])[1..])
  {
    assert (ts + [t])[..|ts|] == ts;
    assert (indents + [Width(t.text)])[1..] == indents[1..] + [Width(t.text)];
  }

  lemma IndentsPush(indents: seq<nat>, value: nat)
    requires IndentsOk(indents) && value > indents[|indents| - 1]
    ensures IndentsOk(indents + [value])
  {
  }

  lemma ToldDedent(s: Story, at: nat, t: Token)
    requires Told(s, at) && Next(s, at, t) && |s.indents| > 1 && t.kind == DEDENT
    ensures Told(Pushed(s, t, s.indents[..|s.indents| - 1]), End(t))
  {
    ToldIs(s, at);
    assert Holds(Stack, s, at);
    var n := |s.indents| - 1;
    assert (s.emitted + [t])[..|s.emitted|] == s.emitted;
    assert s.indents[..n][1..] == s.indents[1..][..n - 1];
    ToldPush(s, at, t, s.indents[..n]);
  }

  lemma Pushes(s: Story, at: nat)
    requires Told(s, at) || Over(s, at)
    ensures s.past <= s.emitted && s.queue == s.base + s.emitted[|s.past|..]
  {
    ToldIs(s, at);
    assert Holds(Queued, s, at);
  }

  /** The indent stack is what the tokens tell. */
  lemma StackIsTold(s: Story, at: nat)
    requires Told(s, at)
    ensures |s.indents| > 0 && IndentsOk(s.indents)
    ensures OpenIndents(s.emitted).Some? && s.indents == [0] + OpenIndents(s.emitted).value
    ensures Level(s.emitted) == Some(s.indents[|s.indents| - 1]) && LastEnd(s.emitted) <= at <= |s.text|
  {
    ToldIs(s, at);
    assert Holds(Stack, s, at) && Holds(Tiling, s, at);
    assert s.indents == [0] + s.indents[1..];
  }

  lemma LastLevel(s: Story, at: nat)
    requires Told(s, at) && |s.indents| == 1
    ensures s.indents == [0]
  {
    ToldIs(s, at);
    assert Holds(Stack, s, at);
  }

  /** The text of an f-string and the token that ends it. */
  lemma ToldPart(s: Story, text: Token, end: Token)
    requires Told(s, text.start) && text.kind == FSTRING_MIDDLE && Plain(end.kind) && end.text != []
    requires End(text) == end.start && End(end) <= |s.text|
    requires text.text == s.text[text.start..End(text)] && end.text == s.text[end.start..End(end)]
    ensures Told(Pushed(Pushed(s, text, s.indents), end, s.indents), End(end))
  {
    var s1 := Pushed(s, text, s.indents);
    var s2 := Pushed(s1, end, s.indents);
    ToldIs(s, text.start);
    ToldIs(s2, End(end));
    assert Holds(Ready, s, text.start) && Holds(Stack, s, text.start);
    StackPlain(s, text.start, text);
    StackPlain(s1, text.start, end);
    forall c: Clause | c == Tiling || c == Distinct || c == Queued || c == Margins
      ensures Holds(c, s2, End(end))
    {
      assert Holds(c, s, text.start);
      ClausePush(c, s, text.start, text, s.indents);
      InsideLine(s.text, s1.emitted);
      ClausePush(c, s1, end.start, end, s.indents);
    }
    forall c: Clause
      ensures Holds(c, s2, End(end))
    {
      assert c == Stack || c == Ready || c == Tiling || c == Distinct || c == Queued || c == Margins;
    }
  }

  /** What is open behind a character outside the text of f-strings. */
  function Counted(n: Nest, c: char): Nest {
    if c == '(' || c == '[' || c == '{' then n.(parens := n.parens + 1)
    else if c == ')' || c == ']' || (c == '}' && |n.modes| == 1) then n.(parens := if n.parens == 0 then 0 else n.parens - 1)
    else if |n.modes| > 1 && (c == '}' || (c == ':' && n.levels != [] && n.parens == n.levels[|n.levels| - 1])) then
      n.(modes := n.modes[..|n.modes| - 1])
    else n
  }

  /** That is what its token opens or closes. */
  lemma OperatorNested(n: Nest, c: char, t: Token)
    requires Operator1(c) == Some(t.kind) && n.modes != [] && n.modes[|n.modes| - 1] == NORMAL && !Unmatched(c, n)
    ensures Nested(n, t) == Some(Counted(n, c))
  {
  }

  lemma OperatorTracked(ts: seq<Token>, n: Nest, c: char, t: Token)
    requires Tracks(ts, n)
    requires Operator1(c) == Some(t.kind) && n.modes != [] && n.modes[|n.modes| - 1] == NORMAL && !Unmatched(c, n)
    ensures Tracks(ts + [t], Counted(n, c))
  {
    OperatorNested(n, c, t);
    TracksPush(ts, n, t, Counted(n, c));
  }

  /** The token that opens an f-string shows its quote. */
  lemma OpeningQuote(p: string, i: nat, prefix: string)
    requires PrefixAt(p, i, prefix) && LettersOnly(prefix)
    ensures
      var k := i + |prefix|;
      i < Opening(p, k) <= |p| && QuoteOf(p[i..Opening(p, k)]) == Quote(p[k], Delimiter(p, k, p[k], true))
  {
    var k := i + |prefix|;
    var triple := Delimiter(p, k, p[k], true);
    var text := p[i..k + Length(triple)];
    assert forall m :: 0 <= m < |text| ==> text[m] == p[i + m];
    if !triple && |prefix| > 0 {
      assert p[i..k][|prefix| - 1] == prefix[|prefix| - 1];
    }
  }

  lemma SwitchNested(n: Nest, t: Token)
    requires ModesOk(n.modes, n.quotes, n.levels) && n.modes[|n.modes| - 1] == FSTRING && EndsPart(t.kind)
    ensures t.kind == FSTRING_END ==> n.quotes != [] && n.levels != []
    ensures Nested(n, t) == Some(
      if t.kind == FSTRING_END then
        Nest(n.parens, Switched(n.modes, t.kind), n.quotes[..|n.quotes| - 1], n.levels[..|n.levels| - 1])
      else n.(modes := Switched(n.modes, t.kind)))
  {
  }

  lemma FStringTracked(n: Nest, t: Token, quote: Quote)
    requires n.modes != [] && n.modes[|n.modes| - 1] == NORMAL
    requires t.kind == FSTRING_START && t.text != [] && QuoteOf(t.text) == quote
    ensures Nested(n, t) == Some(Nest(n.parens, n.modes + [FSTRING], n.quotes + [quote], n.levels + [n.parens]))
  {
  }

  class Lexer {
    const program: string
    const prefixes: seq<string>
    const numbers: seq<nat>  // the length of the number at each offset, 0 if there is none
    var queue: seq<Token>
    var cursor: nat
    var row: nat
    var column: nat
    var indents: seq<nat>
    var line: nat  // how many tokens the current line has
    var parens: nat
    var modes: seq<Mode>
    var quotes: seq<Quote>
    var levels: seq<nat>
    var ignoreNl: bool
    var ignoreComments: bool
    ghost var emitted: seq<Token>  // every token ever pushed
    ghost var past: seq<Token>  // the tokens pushed before the current step
    ghost var base: seq<Token>  // the queue before the current step

    constructor (program: string, numbers: seq<nat>)
      requires TextOk(program, numbers)
      ensures Valid() && Served() && this.program == program && this.prefixes == PREFIXES && this.numbers == numbers
      ensures cursor == 0 && emitted == queue == []
    {
      this.program, this.prefixes, this.numbers := program, PREFIXES, numbers;
      queue, cursor, row, column, indents, line, parens := [], 0, 0, 0, [0], 0, 0;
      modes, quotes, levels := [NORMAL], [], [];
      ignoreNl, ignoreComments, emitted, past, base := false, false, [], [], [];
      new;
      PrefixesAreLetters();
      TracksIs([], Nest(0, [NORMAL], [], []));
      RowedIs(program, [], 0, true, true);
      assert RightMode(modes, 0) && LastEnd([]) == 0 && AllIndented(program, []);
      assert [0][1..] == [] && OpenIndents([]) == Some([]);
      ToldIs(Story(program, emitted, indents, queue, past, base), 0);
      assert forall c: Clause :: Holds(c, Story(program, emitted, indents, queue, past, base), 0);
    }

    ghost predicate Text() {
      TextOk(program, numbers) && Unquoted(prefixes)
    }

    ghost predicate Inv(at: nat)
      reads this
    {
      && Text() && at <= |program| && |indents| > 0
      && Told(Story(program, emitted, indents, queue, past, base), at)
    }

    ghost predicate Stacks()
      reads this
    {
      ModesOk(modes, quotes, levels)
    }

    /** Brackets, modes, quotes and bracket levels are what the tokens leave open. */
    ghost predicate Tracked()
      reads this
    {
      Tracks(emitted, Spot().nest)
    }

    /** Column and line count are 0 exactly where the tokens and the text tell of a new row. */
    ghost predicate Aligned()
      reads this
    {
      Rowed(program, emitted, cursor, column == 0, line == 0)
    }

    /** At the start of a line outside brackets: its indentation is still to be looked at, or it is the one that is open. */
    ghost predicate Poised()
      reads this
    {
      MayBegin(program, emitted) || (column == 0 && cursor == Margin(emitted))
    }

    /** The place of the next step. */
    ghost function Spot(): Place
      reads this
    {
      Place(cursor, column == 0, line == 0, Nest(parens, modes, quotes, levels), indents)
    }

    /** The end was reached, and everything was closed. */
    ghost predicate Finished()
      reads this
    {
      && cursor == |program| + 1 && indents == [0] && emitted != [] && emitted[|emitted| - 1].kind == ENDMARKER
      && Over(Story(program, emitted, indents, queue, past, base), |program|)
    }

    ghost predicate Valid()
      reads this
    {
      Stacks() && Tracked() && if cursor <= |program| then Inv(cursor) && Aligned() && Poised() else Text() && Finished()
    }

    method Advance(n: nat)
      modifies this`cursor, this`column
      ensures cursor == old(cursor) + n && column == old(column) + n
    {
      cursor, column := cursor + n, column + n;
    }

    method IncrementRow()
      modifies this`row, this`column, this`line
      ensures row == old(row) + 1 && column == 0 && line == 0
    {
      row, column, line := row + 1, 0, 0;
    }

    method Push(kind: Kind, start: nat, end: nat)
      requires Inv(start) && start < end <= |program| && Plain(kind) && (Wordy(kind) ==> MayBegin(program, emitted))
      modifies this`queue, this`emitted, this`line
      ensures Inv(end) && emitted == old(emitted) + [Piece(kind, program, start, end)] && line == old(line) + 1
    {
      var t := Piece(kind, program, start, end);
      ToldPlain(Story(program, emitted, indents, queue, past, base), start, t);
      queue, line := queue + [t], line + 1;
      emitted := emitted + [t];
    }

    method PushIndent(start: nat, end: nat, value: nat)
      requires Inv(start) && start <= end <= |program|
      requires value == Width(program[start..end]) && value > indents[|indents| - 1]
      modifies this`queue, this`emitted, this`line, this`indents
      ensures Inv(end) && indents == old(indents) + [value] && line == old(line) + 1
      ensures emitted == old(emitted) + [Piece(INDENT, program, start, end)]
    {
      var t := Piece(INDENT, program, start, end);
      ToldIndent(Story(program, emitted, indents, queue, past, base), start, t);
      queue, line := queue + [t], line + 1;
      emitted := emitted + [t];
      indents := indents + [value];
    }

    method PushDedent(start: nat, end: nat, ghost at: nat)
      requires Inv(at) && start <= end <= |program| && |indents| > 1
      requires at == start || (emitted != [] && emitted[|emitted| - 1] == Piece(DEDENT, program, start, end))
      modifies this`queue, this`emitted, this`line, this`indents
      ensures Inv(end) && indents == old(indents)[..|old(indents)| - 1] && line == old(line) + 1
      ensures emitted == old(emitted) + [Piece(DEDENT, program, start, end)]
    {
      var t := Piece(DEDENT, program, start, end);
      ToldDedent(Story(program, emitted, indents, queue, past, base), at, t);
      queue, line := queue + [t], line + 1;
      emitted := emitted + [t];
      indents := indents[..|indents| - 1];
    }

    /** Skip blanks. */
    method SkipBlanks()
      requires Inv(cursor)
      modifies this`cursor, this`column
      ensures Inv(cursor) && cursor == Indentation(program, old(cursor)) && column == old(column) + (cursor - old(cursor))
    {
      var from := cursor;
      while cursor < |program| && Blank(program[cursor])
        invariant from <= cursor <= |program| && column == old(column) + (cursor - from)
        invariant Indentation(program, cursor) == Indentation(program, from)
        invariant forall k :: from <= k < cursor ==> Blank(program[k])
      {
        Advance(1);
      }
      BlanksAreGap(program, from, cursor);
      ToldGap(Story(program, emitted, indents, queue, past, base), from, cursor);
    }

    /** Push the token of a line end, or of another space, that stands at the cursor. */
    method PushLine(kind: Kind)
      requires Inv(cursor) && cursor < |program| && EndsLine(kind)
      modifies this`cursor, this`column, this`row, this`line, this`queue, this`emitted
      ensures Inv(cursor) && cursor == old(cursor) + 1 && column == 0 && line == 0
      ensures emitted == old(emitted) + [Piece(kind, program, old(cursor), cursor)]
    {
      Take(kind, 1);
      IncrementRow();
    }

    method PushNewLine()
      requires Inv(cursor) && cursor < |program|
      modifies this`cursor, this`column, this`row, this`line, this`queue, this`emitted
      ensures Inv(cursor) && cursor == old(cursor) + 1 && column == 0 && line == 0
      ensures emitted == old(emitted) + [Piece(if parens > 0 then NL else NEWLINE, program, old(cursor), cursor)]
    {
      if parens > 0 {
        PushLine(NL);
      } else {
        PushLine(NEWLINE);
      }
    }

    /** How far away the line end is. */
    method RestOfLine() returns (n: nat)
      requires Text() && cursor < |program|
      ensures cursor + n < |program| && program[cursor + n] == '\n'
      ensures forall k :: cursor <= k < cursor + n ==> program[k] != '\n'
    {
      n := 0;
      while program[cursor + n] != '\n'
        invariant cursor + n < |program|
        invariant forall k :: cursor <= k < cursor + n ==> program[k] != '\n'
        decreases |program| - cursor - n
      {
        n := n + 1;
      }
    }

    /** A line of blanks, or a line end at the start of a line, becomes an NL token. */
    method TryEmptyLine() returns (o: Outcome)
      requires Inv(cursor) && cursor < |program|
      modifies this`cursor, this`column, this`row, this`line, this`queue, this`emitted
      ensures Inv(cursor) && o == if BlankLineAt(program, old(Spot())) then Yes else No
      ensures o == Yes ==> cursor == Indentation(program, old(cursor)) + 1 && column == 0 && line == 0
      ensures o == Yes ==> emitted == old(emitted) + [Piece(NL, program, cursor - 1, cursor)]
      ensures o == No ==>
        cursor == old(cursor) && column == old(column) && row == old(row) && line == old(line) && emitted == old(emitted)
    {
      if Space(program[cursor]) && !Blank(program[cursor]) {
        if column == 0 {
          PushLine(NL);
          return Yes;
        }
        return No;
      }
      o := BlankLine();
    }

    /** Blanks up to the end of the line, or nothing. */
    method BlankLine() returns (o: Outcome)
      requires Inv(cursor) && cursor < |program|
      modifies this`cursor, this`column, this`row, this`line, this`queue, this`emitted
      ensures Inv(cursor) && o == if Space(program[Indentation(program, old(cursor))]) then Yes else No
      ensures o == Yes ==> cursor == Indentation(program, old(cursor)) + 1 && column == 0 && line == 0
      ensures o == Yes ==> emitted == old(emitted) + [Piece(NL, program, cursor - 1, cursor)]
      ensures o == No ==>
        cursor == old(cursor) && column == old(column) && row == old(row) && line == old(line) && emitted == old(emitted)
    {
      var start, c := cursor, column;
      SkipBlanks();
      if Space(program[cursor]) {
        PushLine(NL);
        return Yes;
      }
      cursor, column := start, c;
      return No;
    }

    /** How far away the comment is, if only blanks stand before it. */
    method CommentStart() returns (r: Option<nat>)
      requires Text() && cursor < |program|
      ensures r.Some? <==> Indentation(program, cursor) < |program| && program[Indentation(program, cursor)] == '#'
      ensures r.Some? ==> cursor + r.value == Indentation(program, cursor)
    {
      var n := 0;
      if program[cursor] == '#' {
        return Some(0);
      }
      while Blank(program[cursor + n])
        invariant cursor + n < |program| && Indentation(program, cursor + n) == Indentation(program, cursor)
        invariant program[cursor + n] != '#'
        decreases |program| - cursor - n
      {
        if program[cursor + n + 1] == '#' {
          return Some(n + 1);
        }
        n := n + 1;
      }
      return None;
    }

    /** A comment, and the line end behind it: an NL token if the comment stands alone or brackets are open. */
    method TryReadComment() returns (o: Outcome)
      requires Inv(cursor) && cursor < |program|
      modifies this`cursor, this`column, this`row, this`line, this`queue, this`emitted
      ensures Inv(cursor) && o == if CommentAt(program, old(Spot())) then Yes else No
      ensures o == Yes ==> cursor > old(cursor) && Commented(Indentation(program, old(cursor)), old(emitted), old(line) == 0)
      ensures o == No ==>
        cursor == old(cursor) && column == old(column) && row == old(row) && line == old(line) && emitted == old(emitted)
    {
      var n := CommentStart();
      if n.None? {
        return No;
      }
      Blanks(n.value);
      CommentLine();
      return Yes;
    }

    /** A comment from `at` up to the end of its row was pushed, and the line end. */
    ghost predicate Commented(at: nat, before: seq<Token>, alone: bool)
      reads this
    {
      && column == 0 && line == 0 && before <= emitted && cursor == LastEnd(emitted)
      && CommentGives(program, at, alone || parens > 0, emitted[|before|..])
    }

    /** The comment at the cursor and its line end. */
    method CommentLine()
      requires Inv(cursor) && cursor < |program| && program[cursor] == '#'
      modifies this`cursor, this`column, this`row, this`line, this`queue, this`emitted
      ensures Inv(cursor) && cursor > old(cursor) && Commented(old(cursor), old(emitted), old(line) == 0)
    {
      ghost var from, before, alone := cursor, emitted, line == 0;
      ReadComment();
      LineEnd();
      var comment, end := Piece(COMMENT, program, from, cursor - 1), emitted[|emitted| - 1];
      assert emitted == before + [comment, end];
    }

    /** The line end behind a comment: NL if the comment is all there is on the line. */
    method LineEnd()
      requires Inv(cursor) && cursor < |program|
      modifies this`cursor, this`column, this`row, this`line, this`queue, this`emitted
      ensures Inv(cursor) && cursor == old(cursor) + 1 && column == 0 && line == 0
      ensures emitted == old(emitted) +
        [Piece(if old(line) == 1 || parens > 0 then NL else NEWLINE, program, old(cursor), cursor)]
    {
      if line == 1 {
        PushLine(NL);
      } else {
        PushNewLine();
      }
    }

    /** The comment at the cursor, without its line end. */
    method ReadComment()
      requires Inv(cursor) && cursor < |program| && program[cursor] == '#'
      modifies this`cursor, this`column, this`line, this`queue, this`emitted
      ensures Inv(cursor) && old(cursor) < cursor < |program| && program[cursor] == '\n'
      ensures forall k :: old(cursor) <= k < cursor ==> program[k] != '\n'
      ensures emitted == old(emitted) + [Piece(COMMENT, program, old(cursor), cursor)]
      ensures line == old(line) + 1
    {
      var n := RestOfLine();
      Take(COMMENT, n);
    }

    /** Advance over `n` blanks. */
    method Blanks(n: nat)
      requires Inv(cursor) && cursor + n <= |program| && forall k :: cursor <= k < cursor + n ==> Blank(program[k])
      modifies this`cursor, this`column
      ensures Inv(cursor) && cursor == old(cursor) + n && column == old(column) + n
    {
      BlanksAreGap(program, cursor, cursor + n);
      ToldGap(Story(program, emitted, indents, queue, past, base), cursor, cursor + n);
      Advance(n);
    }

    method ComputeIndentLevel() returns (value: nat, n: nat)
      requires Text() && cursor < |program|
      ensures cursor + n == Indentation(program, cursor) && value == Here()
    {
      n, value := 0, 0;
      while Blank(program[cursor + n])
        invariant cursor + n < |program| && Indentation(program, cursor + n) == Indentation(program, cursor)
        invariant value == Width(program[cursor..cursor + n])
        decreases |program| - cursor - n
      {
        ghost var s := program[cursor..cursor + n + 1];
        assert s[..|s| - 1] == program[cursor..cursor + n] && s[|s| - 1] == program[cursor + n];
        value := value + if program[cursor + n] == '\t' then TAB_SIZE else 1;
        assert value == Width(s);
        n := n + 1;
      }
    }

    /** The indentation at the cursor. */
    ghost function Here(): nat
      reads this
      requires cursor <= |program|
    {
      Width(program[cursor..Indentation(program, cursor)])
    }

    /**
     At the start of a line outside brackets: one INDENT, or DEDENTs until the top of the stack is the indentation of
     the line. It goes wrong exactly if the line is indented less than the one before, to a level that is not open.
     */
    method TryReadIndent() returns (o: Outcome)
      requires Inv(cursor) && cursor < |program|
      modifies this`cursor, this`column, this`line, this`queue, this`emitted, this`indents
      ensures old(column) == 0 && parens == 0 ==>
        IndentGives(program, old(Spot()), Indentation(program, old(cursor)), o, Since(old(emitted), emitted))
      ensures old(column) != 0 || parens != 0 ==> o == No
      ensures o == Yes ==> Indented(old(cursor), old(indents), old(Here())) && |emitted| > |old(emitted)|
      ensures o == Yes ==> cursor > old(cursor) || (cursor == old(cursor) && |indents| < |old(indents)|)
      ensures o == No ==> cursor == if old(column) == 0 && parens == 0 then Indentation(program, old(cursor)) else old(cursor)
      ensures o == No ==> column == old(column) + (cursor - old(cursor)) && line == old(line)
      ensures o == No ==> indents == old(indents) && emitted == old(emitted)
      ensures o != Abort ==> Inv(cursor) && cursor < |program| && old(emitted) <= emitted
    {
      if column != 0 || parens != 0 {
        return No;
      }
      o := ReadIndent();
    }

    method ReadIndent() returns (o: Outcome)
      requires Inv(cursor) && cursor < |program| && column == 0
      modifies this`cursor, this`column, this`line, this`queue, this`emitted, this`indents
      ensures IndentGives(program, old(Spot()), Indentation(program, old(cursor)), o, Since(old(emitted), emitted))
      ensures o == Yes ==> Indented(old(cursor), old(indents), old(Here())) && |emitted| > |old(emitted)|
      ensures o == Yes ==> cursor > old(cursor) || (cursor == old(cursor) && |indents| < |old(indents)|)
      ensures o == No ==> cursor == Indentation(program, old(cursor))
      ensures o == No ==> column == cursor - old(cursor) && line == old(line) && indents == old(indents) && emitted == old(emitted)
      ensures o != Abort ==> Inv(cursor) && cursor < |program| && old(emitted) <= emitted
    {
      var value, n := ComputeIndentLevel();
      if value > indents[|indents| - 1] {
        OpenLevel(value, n);
        return Yes;
      }
      if value < indents[|indents| - 1] {
        var ok := CloseLevels(value, n);
        return if ok then Yes else Abort;
      }
      Blanks(n);
      return No;
    }

    /** The blanks from `at` on are behind the cursor, and their width `value` is now the innermost level. */
    ghost predicate Indented(at: nat, was: seq<nat>, value: nat)
      reads this
    {
      && at <= cursor <= |program| && cursor == Indentation(program, at) && column == cursor - at && line > 0
      && emitted != [] && Level(emitted) == Some(value) && value == Width(program[at..cursor])
      && (emitted[|emitted| - 1] == Piece(INDENT, program, at, cursor) || emitted[|emitted| - 1] == Piece(DEDENT, program, at, cursor))
      && |was| > 0 && |indents| > 0 && indents[|indents| - 1] == value
      && if value > was[|was| - 1] then indents == was + [value] else indents <= was && |indents| < |was|
    }

    method OpenLevel(value: nat, n: nat)
      requires Inv(cursor) && cursor + n == Indentation(program, cursor) < |program| && value == Here()
      requires column == 0 && value > indents[|indents| - 1]
      modifies this`cursor, this`column, this`line, this`queue, this`emitted, this`indents
      ensures Inv(cursor) && cursor == old(cursor) + n && Indented(old(cursor), old(indents), value)
      ensures old(emitted) <= emitted && |emitted| > |old(emitted)|
      ensures IndentGives(program, old(Spot()), cursor, Yes, Since(old(emitted), emitted))
    {
      var start := cursor;
      Advance(n);
      PushIndent(start, cursor, value);
      StackIsTold(Story(program, emitted, indents, queue, past, base), cursor);
    }

    method CloseLevels(value: nat, n: nat) returns (ok: bool)
      requires Inv(cursor) && cursor + n == Indentation(program, cursor) < |program| && value == Here()
      requires column == 0 && value < indents[|indents| - 1]
      modifies this`cursor, this`column, this`line, this`queue, this`emitted, this`indents
      ensures ok ==> Inv(cursor) && cursor == old(cursor) + n && Indented(old(cursor), old(indents), value)
      ensures ok ==> |indents| < |old(indents)| && old(emitted) <= emitted && |emitted| > |old(emitted)|
      ensures IndentGives(program, old(Spot()), Indentation(program, old(cursor)), if ok then Yes else Abort, Since(old(emitted), emitted))
    {
      ghost var x, before := Spot(), emitted;
      ok := DedentHere(value, n);
      ClosesLevels(program, x, x.at + n, ok, |x.indents| - |indents|, before, emitted);
    }

    method DedentHere(value: nat, n: nat) returns (ok: bool)
      requires Inv(cursor) && cursor + n == Indentation(program, cursor) < |program| && value == Here()
      requires column == 0 && value < indents[|indents| - 1]
      modifies this`cursor, this`column, this`line, this`queue, this`emitted, this`indents
      ensures ok <==> value in old(indents)
      ensures |indents| <= |old(indents)|
      ensures ok ==> Inv(cursor) && cursor == old(cursor) + n && Indented(old(cursor), old(indents), value)
      ensures ok ==> |indents| < |old(indents)| && old(indents)[|indents| - 1] == value
      ensures ok ==> emitted == old(emitted) + Copies(Piece(DEDENT, program, old(cursor), cursor), |old(indents)| - |indents|)
    {
      var start := cursor;
      Advance(n);
      ok := Dedent(start, value);
      if ok {
        StackIsTold(Story(program, emitted, indents, queue, past, base), cursor);
      }
    }

    /** Close levels until `value` is on top. */
    method Dedent(start: nat, value: nat) returns (ok: bool)
      requires Inv(start) && start <= cursor < |program| && value < indents[|indents| - 1]
      ensures |indents| <= |old(indents)|
      modifies this`line, this`queue, this`emitted, this`indents
      ensures ok <==> value in old(indents)
      ensures ok ==> Inv(cursor) && indents[|indents| - 1] == value && |indents| < |old(indents)| && indents <= old(indents)
      ensures ok ==> |emitted| > |old(emitted)| && line > 0
      ensures ok ==> emitted == old(emitted) + Copies(Piece(DEDENT, program, start, cursor), |old(indents)| - |indents|)
    {
      ghost var at := start;
      ghost var t := Piece(DEDENT, program, start, cursor);
      assert emitted == emitted + Copies(t, 0);
      while value != indents[|indents| - 1]
        invariant 0 < |indents| <= |old(indents)| && indents == old(indents)[..|indents|]
        invariant forall i :: |indents| <= i < |old(indents)| ==> old(indents)[i] != value
        invariant Inv(at) && (at == cursor || |indents| == |old(indents)|)
        invariant at == start || (emitted != [] && emitted[|emitted| - 1] == Piece(DEDENT, program, start, cursor))
        invariant emitted == old(emitted) + Copies(t, |old(indents)| - |indents|)
        invariant |indents| < |old(indents)| ==> line > 0
        decreases |indents|
      {
        if |indents| == 1 {
          return false;
        }
        ghost var n := |old(indents)| - |indents|;
        PushDedent(start, cursor, at);
        assert old(emitted) + Copies(t, n) + [t] == old(emitted) + (Copies(t, n) + [t]);
        at := cursor;
      }
      return true;
    }

    method TryReadNewline() returns (o: Outcome)
      requires Inv(cursor) && cursor < |program|
      modifies this`cursor, this`column, this`row, this`line, this`queue, this`emitted
      ensures Inv(cursor) && o != Abort
      ensures o == Yes <==> program[old(cursor)] == '\n'
      ensures o == Yes ==> cursor == old(cursor) + 1 && column == 0 && line == 0
      ensures o == Yes ==>
        emitted == old(emitted) + [Piece(if parens > 0 then NL else NEWLINE, program, old(cursor), cursor)]
      ensures o == No ==> cursor == old(cursor) && emitted == old(emitted) && column == old(column) && line == old(line)
    {
      if program[cursor] != '\n' {
        return No;
      }
      PushNewLine();
      return Yes;
    }

    /** An escaped line end; a backslash before anything else is an error. */
    method TryReadBackslash() returns (o: Outcome)
      requires Inv(cursor) && cursor < |program|
      modifies this`cursor, this`column, this`row, this`line
      ensures
        var at := Indentation(program, old(cursor));
        if !BackslashAt(program, at) then o == No && cursor == at
        else if program[at + 1] == '\n' then o == No && cursor == at + 2
        else o == Abort
      ensures o != Abort ==> Inv(cursor)
      ensures o != Abort ==>
        if cursor <= Indentation(program, old(cursor)) then column == old(column) + (cursor - old(cursor)) && line == old(line)
        else column == 0 && line == 0 && program[cursor - 1] == '\n'
    {
      SkipBlanks();
      if program[cursor] != '\\' {
        return No;
      }
      if program[cursor + 1] != '\n' {
        return Abort;
      }
      assert Gap(program, cursor + 2, cursor + 2);
      ToldGap(Story(program, emitted, indents, queue, past, base), cursor, cursor + 2);
      Advance(1);
      Advance(1);
      IncrementRow();
      return No;
    }

    method TryReadName() returns (o: Outcome)
      requires Inv(cursor) && Tracked() && modes != [] && MayBegin(program, emitted)
      modifies this`cursor, this`column, this`line, this`queue, this`emitted
      ensures Inv(cursor) && Tracked() && o != Abort
      ensures o == Yes ==> IsName(program, old(cursor), cursor)
      ensures o == Yes ==> emitted == old(emitted) + [Piece(NAME, program, old(cursor), cursor)]
      ensures o == Yes ==> column > 0 && line > 0
      ensures o == No <==> old(cursor) == |program| || !NameStart(program[old(cursor)])
      ensures o == No ==> cursor == old(cursor) && emitted == old(emitted) && column == old(column) && line == old(line)
    {
      if cursor >= |program| || !NameStart(program[cursor]) {
        return No;
      }
      var n := NameLength();
      TakeNeutral(NAME, n);
      return Yes;
    }

    /** How far the name at the cursor goes. */
    method NameLength() returns (n: nat)
      requires Text() && cursor < |program| && NameStart(program[cursor])
      ensures IsName(program, cursor, cursor + n)
    {
      n := 1;
      while NameChar(program[cursor + n])
        invariant 0 < n && cursor + n < |program|
        invariant forall k :: cursor <= k < cursor + n ==> NameChar(program[k])
        decreases |program| - cursor - n
      {
        n := n + 1;
      }
    }

    /** The next `n` characters are a token. */
    method Take(kind: Kind, n: nat)
      requires Inv(cursor) && 0 < n && cursor + n <= |program| && Plain(kind)
      requires Wordy(kind) ==> MayBegin(program, emitted)
      modifies this`cursor, this`column, this`line, this`queue, this`emitted
      ensures Inv(cursor) && cursor == old(cursor) + n && column == old(column) + n && line == old(line) + 1
      ensures emitted == old(emitted) + [Piece(kind, program, old(cursor), cursor)]
    {
      var start := cursor;
      Advance(n);
      Push(kind, start, cursor);
    }

    method TryReadNumber() returns (o: Outcome)
      requires Inv(cursor) && Tracked() && modes != [] && MayBegin(program, emitted)
      modifies this`cursor, this`column, this`line, this`queue, this`emitted
      ensures Inv(cursor) && Tracked() && o != Abort
      ensures o == Yes ==> old(cursor) < |program| && cursor == old(cursor) + numbers[old(cursor)] > old(cursor)
      ensures o == Yes ==> emitted == old(emitted) + [Piece(NUMBER, program, old(cursor), cursor)]
      ensures o == Yes ==> column > 0 && line > 0
      ensures o == No <==> old(cursor) == |program| || numbers[old(cursor)] == 0
      ensures o == No ==> cursor == old(cursor) && emitted == old(emitted) && column == old(column) && line == old(line)
    {
      if cursor >= |program| || numbers[cursor] == 0 {
        return No;
      }
      TakeNeutral(NUMBER, numbers[cursor]);
      return Yes;
    }

    /** The next `n` characters are a token that opens and closes nothing. */
    method TakeNeutral(kind: Kind, n: nat)
      requires Inv(cursor) && Tracked() && modes != [] && MayBegin(program, emitted)
      requires 0 < n && cursor + n <= |program| && Plain(kind) && Neutral(kind)
      modifies this`cursor, this`column, this`line, this`queue, this`emitted
      ensures Inv(cursor) && Tracked() && cursor == old(cursor) + n && column > 0 && line > 0
      ensures emitted == old(emitted) + [Piece(kind, program, old(cursor), cursor)]
    {
      OpensNothing(kind, n);
      TakeTracked(kind, n);
    }

    lemma OpensNothing(kind: Kind, n: nat)
      requires Tracked() && modes != [] && cursor + n <= |program| && Neutral(kind)
      ensures Tracks(emitted + [Piece(kind, program, cursor, cursor + n)], Spot().nest)
    {
      TracksNeutral(emitted, Spot().nest, Piece(kind, program, cursor, cursor + n));
    }

    /** Brackets are counted; in the expression of an f-string, `}` and the `:` outside inner brackets end the expression. */
    method Track(c: char) returns (ok: bool)
      requires Stacks() && modes[|modes| - 1] == NORMAL
      modifies this`parens, this`modes
      ensures Stacks()
      ensures ok ==> Spot().nest == Counted(old(Spot()).nest, c)
      ensures ok <==> !Unmatched(c, old(Spot()).nest)
      ensures !ok ==> Spot() == old(Spot())
    {
      if c == '(' || c == '[' || c == '{' {
        parens := parens + 1;
      } else if c == ')' || c == ']' || (c == '}' && |modes| == 1) {
        if parens == 0 {
          return false;
        }
        parens := parens - 1;
      } else if c == '}' || (c == ':' && |modes| > 1 && parens == levels[|levels| - 1]) {
        ModesPop(modes, quotes, levels);
        modes := modes[..|modes| - 1];
      }
      return true;
    }

    method TryReadOperation(ghost op: Option<(Kind, nat)>) returns (o: Outcome)
      requires op == if cursor < |program| then OperatorAt(program, cursor) else None
      requires Inv(cursor) && Stacks() && modes[|modes| - 1] == NORMAL && Tracked() && MayBegin(program, emitted)
      modifies this`cursor, this`column, this`line, this`queue, this`emitted, this`parens, this`modes
      ensures o != Abort ==> Inv(cursor) && Stacks() && Tracked()
      ensures o == No <==> op.None?
      ensures o == Abort <==> op.Some? && op.value.1 == 1 && Unmatched(program[old(cursor)], old(Spot()).nest)
      ensures o == Yes ==>
        cursor == old(cursor) + op.value.1 && emitted == old(emitted) + [Piece(op.value.0, program, old(cursor), cursor)]
      ensures o == Yes ==> column > 0 && line > 0
      ensures o == No ==> cursor == old(cursor) && emitted == old(emitted) && column == old(column) && line == old(line)
      ensures o == No ==> parens == old(parens) && modes == old(modes)
    {
      if cursor >= |program| {
        return No;
      }
      var three, two, one := Operator3(program, cursor), Operator2(program, cursor), Operator1(program[cursor]);
      if three.Some? {
        TakeNeutral(three.value, 3);
      } else if two.Some? {
        TakeNeutral(two.value, 2);
      } else if one.Some? {
        o := OneCharacter(one.value);
        return;
      } else {
        return No;
      }
      return Yes;
    }

    /** An operator of one character: it may be a bracket. */
    method OneCharacter(kind: Kind) returns (o: Outcome)
      requires Inv(cursor) && Stacks() && modes[|modes| - 1] == NORMAL && Tracked() && MayBegin(program, emitted)
      requires cursor < |program| && Operator1(program[cursor]) == Some(kind)
      modifies this`cursor, this`column, this`line, this`queue, this`emitted, this`parens, this`modes
      ensures o == if Unmatched(program[old(cursor)], old(Spot()).nest) then Abort else Yes
      ensures o == Yes ==> Inv(cursor) && Stacks() && Tracked() && cursor == old(cursor) + 1 && column > 0 && line > 0
      ensures o == Yes ==> emitted == old(emitted) + [Piece(kind, program, old(cursor), cursor)]
    {
      var ok := TrackToken(kind);
      if !ok {
        return Abort;
      }
      TakeTracked(kind, 1);
      return Yes;
    }

    /** Brackets and modes as they will be behind the character at the cursor, which is the operator `kind`. */
    method TrackToken(kind: Kind) returns (ok: bool)
      requires Stacks() && modes[|modes| - 1] == NORMAL && Tracked()
      requires cursor < |program| && Operator1(program[cursor]) == Some(kind)
      modifies this`parens, this`modes
      ensures ok <==> !Unmatched(program[cursor], old(Spot()).nest)
      ensures ok ==> Stacks() && Tracks(emitted + [Piece(kind, program, cursor, cursor + 1)], Spot().nest)
    {
      ghost var n := Spot().nest;
      ok := Track(program[cursor]);
      if ok {
        OperatorTracked(emitted, n, program[cursor], Piece(kind, program, cursor, cursor + 1));
      }
    }

    /** Move over everything but backslashes and the quote; `ok` is false if the text is used up. */
    method SkipPlain(n: nat, q: char, triple: bool) returns (m: nat, ok: bool)
      requires cursor + n <= |program| && q != '\\'
      modifies this`row, this`column, this`line
      ensures n <= m && cursor + m <= |program|
      ensures Scan(program, cursor + m, q, triple) == Scan(program, cursor + n, q, triple)
      ensures row + Rows(program, cursor + m, q, triple) == old(row) + Rows(program, cursor + n, q, triple)
      ensures ok <==> cursor + m < |program|
      ensures ok ==> program[cursor + m] == '\\' || program[cursor + m] == q
    {
      m := n;
      while cursor + m < |program| && program[cursor + m] != '\\' && program[cursor + m] != q
        invariant n <= m && cursor + m <= |program|
        invariant Scan(program, cursor + m, q, triple) == Scan(program, cursor + n, q, triple)
        invariant row + Rows(program, cursor + m, q, triple) == old(row) + Rows(program, cursor + n, q, triple)
      {
        if triple && program[cursor + m] == '\n' {
          IncrementRow();
        }
        m := m + 1;
      }
      ok := cursor + m < |program|;
    }

    /**
     Scan a literal whose contents begin `n` characters on. It succeeds exactly if there is an unescaped closing
     delimiter, right behind the first of which the cursor then stands, however many escaped line ends were crossed;
     without one it runs off the text.
     */
    method QuotedString(n: nat, q: char) returns (o: Outcome)
      requires Text() && cursor + n <= |program| && q != '\\' && q != '\n'
      modifies this`cursor, this`row, this`column, this`line
      ensures o == if Scan(program, old(cursor) + n, q, false).Some? then Yes else Abort
      ensures o == Yes ==> cursor == Scan(program, old(cursor) + n, q, false).value + 1 && column > 0
      ensures o == Yes ==> row == old(row) + Rows(program, old(cursor) + n, q, false)
    {
      ghost var from := cursor + n;
      var m := n;
      while true
        invariant cursor + m <= |program| && Scan(program, cursor + m, q, false) == Scan(program, from, q, false)
        invariant row + Rows(program, cursor + m, q, false) == old(row) + Rows(program, from, q, false)
        decreases |program| - cursor
      {
        var ok: bool;
        m, ok := SkipPlain(m, q, false);
        if !ok {
          return Abort;
        }
        while program[cursor + m] == '\\' && program[cursor + m + 1] != '\n'
          invariant cursor + m < |program| && (program[cursor + m] == '\\' || program[cursor + m] == q)
          invariant Scan(program, cursor + m, q, false) == Scan(program, from, q, false)
          invariant row + Rows(program, cursor + m, q, false) == old(row) + Rows(program, from, q, false)
          decreases |program| - cursor - m
        {
          m, ok := SkipPlain(m + 2, q, false);
          if !ok {
            return Abort;
          }
        }
        if program[cursor + m] == '\\' && program[cursor + m + 1] == '\n' {
          Advance(m + 2);
          m := 0;
          IncrementRow();
          continue;
        }
        if program[cursor + m] != q {
          assert false;  // the branch that would restore the cursor
        }
        Advance(m + 1);
        return Yes;
      }
    }

    /** The same for a literal in three quotes, in which one or two quotes stand for themselves. */
    method TripleQuotedString(n: nat, q: char) returns (o: Outcome)
      requires Text() && cursor + n <= |program| && q != '\\' && q != '\n'
      modifies this`cursor, this`row, this`column, this`line
      ensures o == if Scan(program, old(cursor) + n, q, true).Some? then Yes else Abort
      ensures o == Yes ==> cursor == Scan(program, old(cursor) + n, q, true).value + 3 && column > 0
      ensures o == Yes ==> row == old(row) + Rows(program, old(cursor) + n, q, true)
    {
      ghost var from := cursor + n;
      var m := n;
      while true
        invariant cursor + m <= |program| && Scan(program, cursor + m, q, true) == Scan(program, from, q, true)
        invariant row + Rows(program, cursor + m, q, true) == old(row) + Rows(program, from, q, true)
        decreases |program| - cursor
      {
        var ok: bool;
        m, ok := SkipInside(m, q);
        if !ok {
          return Abort;
        }
        if program[cursor + m] == '\\' && program[cursor + m + 1] == '\n' {
          Advance(m + 2);
          m := 0;
          IncrementRow();
          continue;
        }
        if !Delimiter(program, cursor + m, q, true) {
          assert false;  // the branch that would restore the cursor
        }
        Advance(m + 3);
        return Yes;
      }
    }

    /** Move over text, escapes and quotes that do not close; `ok` is false if the text is used up. */
    method SkipInside(n: nat, q: char) returns (m: nat, ok: bool)
      requires Text() && cursor + n <= |program| && q != '\\' && q != '\n'
      modifies this`row, this`column, this`line
      ensures cursor + m <= |program| && Scan(program, cursor + m, q, true) == Scan(program, cursor + n, q, true)
      ensures row + Rows(program, cursor + m, q, true) == old(row) + Rows(program, cursor + n, q, true)
      ensures !ok ==> cursor + m == |program|
      ensures ok ==> cursor + m < |program| && (program[cursor + m] == '\\' || program[cursor + m] == q)
      ensures ok ==> Inside(program, cursor + m, q).None?
    {
      m, ok := SkipPlain(n, q, true);
      while ok && Inside(program, cursor + m, q).Some?
        invariant cursor + m <= |program| && Scan(program, cursor + m, q, true) == Scan(program, cursor + n, q, true)
        invariant row + Rows(program, cursor + m, q, true) == old(row) + Rows(program, cursor + n, q, true)
        invariant ok <==> cursor + m < |program|
        invariant ok ==> program[cursor + m] == '\\' || program[cursor + m] == q
        decreases |program| - cursor - m
      {
        m, ok := SkipPlain(Inside(program, cursor + m, q).value - cursor, q, true);
      }
    }

    /** Scan the literal at the cursor, behind a prefix of `n` characters. */
    method Literal(n: nat, ghost end: Option<nat>) returns (o: Outcome)
      requires Text() && QuoteAt(program, cursor + n) && end == LiteralEnd(program, cursor + n)
      modifies this`cursor, this`row, this`column, this`line
      ensures o == if end.Some? then Yes else Abort
      ensures o == Yes ==> cursor == end.value && old(cursor) < cursor <= |program| && column > 0
    {
      var q := program[cursor + n];
      if Delimiter(program, cursor + n, q, true) {
        o := TripleQuotedString(n + 3, q);
      } else {
        o := QuotedString(n + 1, q);
      }
    }

    method FindPrefix() returns (r: Option<string>)
      requires cursor <= |program|
      ensures r.Some? ==> r.value in prefixes && PrefixAt(program, cursor, r.value)
      ensures r.None? ==> forall k :: 0 <= k < |prefixes| ==> !PrefixAt(program, cursor, prefixes[k])
    {
      for k := 0 to |prefixes|
        invariant forall j :: 0 <= j < k ==> !PrefixAt(program, cursor, prefixes[j])
      {
        if PrefixAt(program, cursor, prefixes[k]) {
          return Some(prefixes[k]);
        }
      }
      return None;
    }

    /** A string literal is one token; of an f-string only the opening is, once the whole literal was found. */
    method TryReadString() returns (o: Outcome, prefix: Option<string>)
      requires Inv(cursor) && Stacks() && modes[|modes| - 1] == NORMAL && Tracked() && MayBegin(program, emitted)
      modifies this`cursor, this`row, this`column, this`line, this`queue, this`emitted, this`modes, this`quotes, this`levels
      ensures o == No <==> forall k :: 0 <= k < |prefixes| ==> !PrefixAt(program, old(cursor), prefixes[k])
      ensures o == No ==> cursor == old(cursor) && emitted == old(emitted) && column == old(column) && line == old(line)
      ensures o == No ==> Spot().nest == old(Spot()).nest
      ensures o != No ==> prefix.Some? && prefix.value in prefixes && PrefixAt(program, old(cursor), prefix.value)
      ensures o != No ==> LiteralGives(program, old(cursor), prefix.value, o, Since(old(emitted), emitted))
      ensures o == Yes ==> modes == old(modes) + if Formatted(prefix.value) then [FSTRING] else []
      ensures o == Yes ==> Worded(old(cursor), old(emitted))
      ensures o != Abort ==> Inv(cursor) && Stacks() && Tracked()
    {
      prefix := FindPrefix();
      if prefix.None? {
        o := No;
      } else {
        o := StringWith(prefix.value);
      }
    }

    /** One token was pushed, from `at` to the cursor. */
    ghost predicate Worded(at: nat, before: seq<Token>)
      reads this
    {
      && at < cursor <= |program| && column > 0 && line > 0
      && |emitted| == |before| + 1 && before == emitted[..|before|]
      && Wordy(emitted[|before|].kind) && emitted[|before|] == Piece(emitted[|before|].kind, program, at, cursor)
    }

    /** The literal behind a prefix that was found. */
    method StringWith(prefix: string) returns (o: Outcome)
      requires Inv(cursor) && Stacks() && modes[|modes| - 1] == NORMAL && Tracked() && MayBegin(program, emitted)
      requires PrefixAt(program, cursor, prefix) && prefix in prefixes
      modifies this`cursor, this`row, this`column, this`line, this`queue, this`emitted, this`modes, this`quotes, this`levels
      ensures LiteralGives(program, old(cursor), prefix, o, Since(old(emitted), emitted))
      ensures o == Yes ==> modes == old(modes) + if Formatted(prefix) then [FSTRING] else []
      ensures o == Yes ==> Inv(cursor) && Stacks() && Tracked() && Worded(old(cursor), old(emitted))
    {
      ghost var at, before, end := cursor, emitted, LiteralEnd(program, cursor + |prefix|);
      o := ReadLiteral(prefix, end, Opening(program, cursor + |prefix|) - cursor);
      LiteralGiven(program, at, prefix, end, o, before, emitted, cursor);
    }

    method ReadLiteral(prefix: string, ghost end: Option<nat>, ghost n: nat) returns (o: Outcome)
      requires Inv(cursor) && Stacks() && modes[|modes| - 1] == NORMAL && Tracked() && MayBegin(program, emitted)
      requires PrefixAt(program, cursor, prefix) && LettersOnly(prefix)
      requires end == LiteralEnd(program, cursor + |prefix|) && cursor + n == Opening(program, cursor + |prefix|)
      modifies this`cursor, this`row, this`column, this`line, this`queue, this`emitted, this`modes, this`quotes, this`levels
      ensures o == if end.Some? then Yes else Abort
      ensures o == Yes ==> modes == old(modes) + if Formatted(prefix) then [FSTRING] else []
      ensures o == Yes ==> Inv(cursor) && Stacks() && Tracked() && old(cursor) < cursor && column > 0 && line > 0
      ensures o == Yes ==> cursor == if Formatted(prefix) then old(cursor) + n else end.value
      ensures o == Yes ==>
        emitted == old(emitted) + [Piece(if Formatted(prefix) then FSTRING_START else STRING, program, old(cursor), cursor)]
    {
      var start, startRow, startColumn := cursor, row, column;
      o := Literal(|prefix|, end);
      if o == Yes {
        PushString(prefix, start, startRow, startColumn, n);
      }
    }

    /** The token of a literal that ends at the cursor; for an f-string, back to its start. */
    method PushString(prefix: string, start: nat, startRow: nat, startColumn: nat, ghost n: nat)
      requires Inv(start) && start < cursor <= |program| && column > 0 && MayBegin(program, emitted)
      requires Stacks() && modes[|modes| - 1] == NORMAL && Tracked()
      requires PrefixAt(program, start, prefix) && LettersOnly(prefix) && start + n == Opening(program, start + |prefix|)
      modifies this`cursor, this`row, this`column, this`line, this`queue, this`emitted, this`modes, this`quotes, this`levels
      ensures modes == old(modes) + if Formatted(prefix) then [FSTRING] else []
      ensures Inv(cursor) && Stacks() && Tracked() && start < cursor && column > 0 && line > 0
      ensures cursor == if Formatted(prefix) then start + n else old(cursor)
      ensures emitted == old(emitted) + [Piece(if Formatted(prefix) then FSTRING_START else STRING, program, start, cursor)]
    {
      if Formatted(prefix) {
        cursor, row, column := start, startRow, startColumn;
        PushOpening(prefix, n);
      } else {
        PushLiteral(start);
      }
    }

    method PushLiteral(start: nat)
      requires Inv(start) && start < cursor <= |program| && MayBegin(program, emitted) && Tracked() && modes != []
      modifies this`line, this`queue, this`emitted
      ensures Inv(cursor) && Tracked() && line > 0
      ensures emitted == old(emitted) + [Piece(STRING, program, start, cursor)]
    {
      TracksNeutral(emitted, Spot().nest, Piece(STRING, program, start, cursor));
      Push(STRING, start, cursor);
    }

    /** Of an f-string, the prefix and the opening quotes: `n` characters. */
    method PushOpening(prefix: string, ghost n: nat)
      requires Inv(cursor) && Stacks() && modes[|modes| - 1] == NORMAL && Tracked() && MayBegin(program, emitted)
      requires PrefixAt(program, cursor, prefix) && LettersOnly(prefix) && cursor + n == Opening(program, cursor + |prefix|)
      modifies this`cursor, this`column, this`line, this`queue, this`emitted, this`modes, this`quotes, this`levels
      ensures Inv(cursor) && Stacks() && Tracked() && modes == old(modes) + [FSTRING]
      ensures 0 < n && cursor == old(cursor) + n && column > 0 && line > 0
      ensures emitted == old(emitted) + [Piece(FSTRING_START, program, old(cursor), cursor)]
    {
      var m := TrackFString(prefix, n);
      TakeTracked(FSTRING_START, m);
    }

    /** The next `n` characters are a token, of which brackets and modes tell already. */
    method TakeTracked(kind: Kind, n: nat)
      requires Inv(cursor) && MayBegin(program, emitted) && 0 < n && cursor + n <= |program| && Plain(kind)
      requires Tracks(emitted + [Piece(kind, program, cursor, cursor + n)], Spot().nest)
      modifies this`cursor, this`column, this`line, this`queue, this`emitted
      ensures Inv(cursor) && Tracked() && cursor == old(cursor) + n && column > 0 && line > 0
      ensures emitted == old(emitted) + [Piece(kind, program, old(cursor), cursor)]
    {
      Take(kind, n);
    }

    /** The mode, quote and bracket level of the f-string whose prefix stands at the cursor. */
    method TrackFString(prefix: string, ghost n: nat) returns (m: nat)
      requires Stacks() && modes[|modes| - 1] == NORMAL && Tracked()
      requires PrefixAt(program, cursor, prefix) && LettersOnly(prefix) && cursor + n == Opening(program, cursor + |prefix|)
      modifies this`modes, this`quotes, this`levels
      ensures Stacks() && modes == old(modes) + [FSTRING]
      ensures 0 < n && cursor + n <= |program| && m == n
      ensures Tracks(emitted + [Piece(FSTRING_START, program, cursor, cursor + n)], Spot().nest)
    {
      var i := cursor + |prefix|;
      var quote := Quote(program[i], Delimiter(program, i, program[i], true));
      ghost var nest, t := Spot().nest, Piece(FSTRING_START, program, cursor, Opening(program, i));
      m := |prefix| + Length(quote.triple);
      OpeningQuote(program, cursor, prefix);
      FStringTracked(nest, t, quote);
      EnterMode(quote);
      TracksPush(emitted, nest, t, Spot().nest);
    }

    /** The quote of the f-string goes with its mode, and how many brackets are open outside it. */
    method EnterMode(quote: Quote)
      requires Stacks() && modes[|modes| - 1] == NORMAL
      modifies this`modes, this`quotes, this`levels
      ensures Stacks() && modes == old(modes) + [FSTRING] && quotes == old(quotes) + [quote] && levels == old(levels) + [parens]
    {
      ModesPush(modes, quotes, levels, quote, parens);
      modes, quotes, levels := modes + [FSTRING], quotes + [quote], levels + [parens];
    }

    method PushPart(text: Token, end: Token)
      requires Inv(text.start) && text.kind == FSTRING_MIDDLE && Plain(end.kind) && end.text != []
      requires End(text) == end.start && End(end) <= |program|
      requires text.text == program[text.start..End(text)] && end.text == program[end.start..End(end)]
      requires Tracks(emitted + [text] + [end], Spot().nest)
      modifies this`line, this`queue, this`emitted
      ensures Inv(End(end)) && Tracked() && line > 0
      ensures emitted == old(emitted) + [text] + [end]
    {
      ToldPart(Story(program, emitted, indents, queue, past, base), text, end);
      queue, line := queue + [text] + [end], line + 2;
      emitted := emitted + [text] + [end];
    }

    /** Move over the text of an f-string, as far as what ends it; there may be no such end. */
    method SkipText(quote: Quote) returns (ok: bool)
      requires Text() && cursor < |program|
      modifies this`cursor, this`column
      ensures ok <==> TextEnd(program, old(cursor), true, quote).Some?
      ensures ok ==> Some(cursor) == TextEnd(program, old(cursor), true, quote)
    {
      var first := true;
      ghost var end := TextEnd(program, cursor, first, quote);
      while true
        invariant cursor <= |program|
        invariant TextEnd(program, cursor, first, quote) == end
        decreases |program| - cursor
      {
        if cursor >= |program| || (!first && program[cursor] == '\n') {
          return false;
        }
        var part := PartAt(program, cursor, quote);
        if part.Ends? {
          return true;
        }
        Advance(part.n);
        first := false;
      }
    }

    /** The text of an f-string up to the cursor, and the token there that ends it. */
    method EndPart(text: Token, end: Token)
      requires Inv(text.start) && text.kind == FSTRING_MIDDLE && Plain(end.kind) && EndsPart(end.kind) && end.text != []
      requires End(text) == end.start == cursor && End(end) <= |program|
      requires text.text == program[text.start..End(text)] && end.text == program[end.start..End(end)]
      requires Stacks() && modes[|modes| - 1] == FSTRING && Tracked()
      modifies this`cursor, this`column, this`line, this`queue, this`emitted, this`modes, this`quotes, this`levels
      ensures Inv(cursor) && Stacks() && Tracked() && cursor == End(end) && column > 0 && line > 0
      ensures emitted == old(emitted) + [text] + [end] && modes == Switched(old(modes), end.kind)
    {
      TrackPart(text, end);
      PushPart(text, end);
      Advance(|end.text|);
    }

    /** The modes as they will be behind the tokens of a part. */
    method TrackPart(text: Token, end: Token)
      requires Stacks() && modes[|modes| - 1] == FSTRING && Tracked() && text.kind == FSTRING_MIDDLE && EndsPart(end.kind)
      modifies this`modes, this`quotes, this`levels
      ensures Stacks() && modes == Switched(old(modes), end.kind)
      ensures Tracks(emitted + [text] + [end], Spot().nest)
    {
      ghost var n := Spot().nest;
      TracksNeutral(emitted, n, text);
      Switch(end.kind, end);
      TracksPush(emitted + [text], n, end, Spot().nest);
    }

    method Switch(kind: Kind, ghost t: Token)
      requires Stacks() && modes[|modes| - 1] == FSTRING && EndsPart(kind) && t.kind == kind
      modifies this`modes, this`quotes, this`levels
      ensures Stacks() && modes == Switched(old(modes), kind)
      ensures Nested(old(Spot()).nest, t) == Some(Spot().nest)
    {
      SwitchNested(Spot().nest, t);
      if kind == FSTRING_END {
        ModesPop(modes, quotes, levels);
        modes, quotes, levels := modes[..|modes| - 1], quotes[..|quotes| - 1], levels[..|levels| - 1];
      } else if kind == LBRACE {
        ModesPush(modes, quotes, levels, quotes[0], 0);
        modes := modes + [NORMAL];
      }
    }

    /** A part of an f-string; a line end may not begin any step but the first. */
    method TryFString(ghost quote: Quote, ghost end: Option<nat>, ghost part: Part) returns (o: Outcome)
      requires Inv(cursor) && cursor < |program| && Stacks() && modes[|modes| - 1] == FSTRING && Tracked()
      requires quotes != [] && quote == quotes[|quotes| - 1] && end == TextEnd(program, cursor, true, quote)
      requires end.Some? ==> part == PartAt(program, end.value, quote)
      modifies this`cursor, this`column, this`line, this`queue, this`emitted, this`modes, this`quotes, this`levels
      ensures o == if end.Some? then Yes else Abort
      ensures o == Yes ==> Inv(cursor) && Stacks() && Tracked() && column > 0 && line > 0
      ensures o == Yes ==> Parted(old(cursor), end.value, part, old(emitted)) && modes == Switched(old(modes), part.kind)
    {
      var start, q := cursor, quotes[|quotes| - 1];
      var ok := SkipText(q);
      if !ok {
        return Abort;
      }
      var ends := PartAt(program, cursor, q);
      EndPart(Piece(FSTRING_MIDDLE, program, start, cursor), Piece(ends.kind, program, cursor, cursor + ends.n));
      return Yes;
    }

    /** The text from `start` to `at` and the token behind it were pushed. */
    ghost predicate Parted(start: nat, at: nat, part: Part, before: seq<Token>)
      reads this
    {
      && start <= at && part.Ends? && at + part.n == cursor <= |program|
      && emitted == before + [Piece(FSTRING_MIDDLE, program, start, at)] + [Piece(part.kind, program, at, cursor)]
    }

    /** At the end of the text everything that is open is closed. */
    method EndOfInput(ghost x: Place)
      requires Inv(cursor) && cursor == |program| && Tracked() && modes != [] && x == Spot()
      modifies this`cursor, this`row, this`column, this`line, this`queue, this`emitted, this`indents
      ensures Finished() && Tracked() && old(emitted) <= emitted && |emitted| > |old(emitted)|
      ensures EndGives(program, x, Yes, Since(old(emitted), emitted))
    {
      ghost var before := emitted;
      IncrementRow();
      cursor := cursor + 1;
      CloseAll();
      PushEnd();
      EndGiven(program, x, before, emitted);
      TracksStays(before, Spot().nest, Since(before, emitted));
      assert emitted == before + Since(before, emitted);
    }

    method CloseAll()
      requires Inv(|program|)
      modifies this`line, this`queue, this`emitted, this`indents
      ensures Inv(|program|) && |indents| == 1
      ensures |old(indents)| > 0 && emitted == old(emitted) + Copies(Token(DEDENT, |program|, []), |old(indents)| - 1)
    {
      ghost var t := Token(DEDENT, |program|, []);
      assert emitted == emitted + Copies(t, 0);
      while |indents| > 1
        invariant Inv(|program|) && 0 < |indents| <= |old(indents)|
        invariant emitted == old(emitted) + Copies(t, |old(indents)| - |indents|)
        decreases |indents|
      {
        ghost var n := |old(indents)| - |indents|;
        PushDedent(|program|, |program|, |program|);
        assert old(emitted) + Copies(t, n) + [t] == old(emitted) + (Copies(t, n) + [t]);
      }
    }

    method PushEnd()
      requires Inv(|program|) && |indents| == 1 && cursor == |program| + 1
      modifies this`line, this`queue, this`emitted
      ensures Finished() && emitted == old(emitted) + [Token(ENDMARKER, |program|, [])]
    {
      var t := Token(ENDMARKER, |program|, []);
      LastLevel(Story(program, emitted, indents, queue, past, base), |program|);
      ToldPlain(Story(program, emitted, indents, queue, past, base), |program|, t);
      queue, line := queue + [t], line + 1;
      emitted := emitted + [t];
    }

    /**
     `read_more_tokens_loop`. What a step pushes, or that it fails, is settled by the text at the cursor and by the tokens
     pushed before. A step that reads something moves the cursor on, or closes levels where it stands; one that finds
     nothing may still have moved over blanks and escaped line ends.
     */
    method Step() returns (o: Outcome)
      requires Valid()
      modifies this
      ensures o != Abort ==> Valid() && cursor >= old(cursor)
      ensures old(cursor) <= |program| ==>
        StepGives(program, prefixes, numbers, PlaceOf(program, old(emitted), old(cursor)), o, Since(old(emitted), emitted))
      ensures old(cursor) > |program| ==> o == No
      ensures o == Yes ==> cursor > old(cursor) || (cursor == old(cursor) && |indents| < |old(indents)|)
      ensures o == Yes ==> |emitted| > |old(emitted)| && (cursor == LastEnd(emitted) || cursor == |program| + 1)
      ensures o != Abort ==> old(emitted) <= emitted && queue == old(queue) + emitted[|old(emitted)|..]
      ensures o == No ==> emitted == old(emitted) && queue == old(queue) && (cursor > |program| || Stuck())
      ensures ignoreNl == old(ignoreNl) && ignoreComments == old(ignoreComments)
    {
      if cursor > |program| {
        assert emitted[|emitted|..] == [] && queue + [] == queue;
        return No;
      }
      ghost var x := PlaceOf(program, emitted, cursor);
      SpotIsTold();
      Mark();
      o := Dispatch(x);
      if o != Abort {
        Pushes(Story(program, emitted, indents, queue, past, base), if cursor <= |program| then cursor else |program|);
      }
    }

    /** The place of the next step is what the tokens tell. */
    lemma SpotIsTold()
      requires Valid() && cursor <= |program|
      ensures Spot() == PlaceOf(program, emitted, cursor) && OpenIndents(emitted).Some? && Nesting(emitted).Some?
    {
      TracksIs(emitted, Spot().nest);
      RowedIs(program, emitted, cursor, column == 0, line == 0);
      StackIsTold(Story(program, emitted, indents, queue, past, base), cursor);
    }

    method Dispatch(ghost x: Place) returns (o: Outcome)
      requires Inv(cursor) && Stacks() && Tracked() && Aligned() && Poised() && x == Spot()
      modifies this`cursor, this`row, this`column, this`line, this`queue, this`emitted, this`indents, this`parens,
        this`modes, this`quotes, this`levels
      ensures StepGives(program, prefixes, numbers, x, o, Since(old(emitted), emitted))
      ensures o != Abort ==> Valid() && cursor >= old(cursor)
      ensures o == Yes ==> cursor > old(cursor) || (cursor == old(cursor) && |indents| < |old(indents)|)
      ensures o == Yes ==> |emitted| > |old(emitted)| && (cursor == LastEnd(emitted) || cursor == |program| + 1)
      ensures o == No ==> emitted == old(emitted) && Stuck()
    {
      if cursor == |program| {
        EndOfInput(x);
        o := Yes;
      } else if modes[|modes| - 1] == NORMAL {
        o := Normal(x);
      } else {
        o := Part(x);
      }
    }

    /** A step in the text of an f-string. */
    method Part(ghost x: Place) returns (o: Outcome)
      requires Inv(cursor) && cursor < |program| && Stacks() && modes[|modes| - 1] == FSTRING && Tracked() && x == Spot()
      modifies this`cursor, this`column, this`line, this`queue, this`emitted, this`modes, this`quotes, this`levels
      ensures PartGives(program, x, o, Since(old(emitted), emitted))
      ensures o == Yes ==> Inv(cursor) && Stacks() && Tracked() && Aligned() && Poised() && cursor > old(cursor)
      ensures o == Yes ==> |emitted| > |old(emitted)| && cursor == LastEnd(emitted)
      ensures o != No
    {
      ghost var quote := x.nest.quotes[|x.nest.quotes| - 1];
      ghost var end := TextEnd(program, cursor, true, quote);
      o := PartTo(quote, end);
    }

    /** The text of the innermost f-string up to `end`, and what ends it. */
    method PartTo(ghost quote: Quote, ghost end: Option<nat>) returns (o: Outcome)
      requires Inv(cursor) && cursor < |program| && Stacks() && modes[|modes| - 1] == FSTRING && Tracked()
      requires quotes != [] && quote == quotes[|quotes| - 1] && end == TextEnd(program, cursor, true, quote)
      modifies this`cursor, this`column, this`line, this`queue, this`emitted, this`modes, this`quotes, this`levels
      ensures PartOf(program, old(cursor), end, quote, o, Since(old(emitted), emitted))
      ensures o == Yes ==> Inv(cursor) && Stacks() && Tracked() && Aligned() && Poised() && cursor > old(cursor)
      ensures o == Yes ==> |emitted| > |old(emitted)| && cursor == LastEnd(emitted)
      ensures o != No
    {
      ghost var at, before := cursor, emitted;
      o := TryFString(quote, end, if end.Some? then PartAt(program, end.value, quote) else Skip(1));
      if o == Yes {
        PartDone(at, end.value, quote, before);
      }
    }

    lemma PartDone(start: nat, at: nat, quote: Quote, before: seq<Token>)
      requires Text() && at < |program| && column > 0 && line > 0
      requires Parted(start, at, PartAt(program, at, quote), before)
      ensures PartOf(program, start, Some(at), quote, Yes, Since(before, emitted))
      ensures Aligned() && Poised() && |emitted| > |before| && cursor == LastEnd(emitted)
    {
      var part := PartAt(program, at, quote);
      PartGiven(program, start, at, quote, part, before, emitted);
      Within(part.kind, at);
    }

    /** The token that was pushed last stands in its row. */
    lemma Within(kind: Kind, at: nat)
      requires at < cursor <= |program| && column > 0 && line > 0
      requires emitted != [] && emitted[|emitted| - 1] == Piece(kind, program, at, cursor) && Wordy(kind)
      ensures Aligned() && MayBegin(program, emitted) && cursor == LastEnd(emitted)
    {
      InRow(program, emitted);
      InsideLine(program, emitted);
    }

    /** Note what was pushed before the step. */
    ghost method Mark()
      requires Inv(cursor)
      modifies this`past, this`base
      ensures Inv(cursor) && past == emitted && base == queue
    {
      ToldAfresh(Story(program, emitted, indents, queue, past, base), cursor, queue);
      past, base := emitted, queue;
    }

    /** Take out of the queue what is not wanted. */
    method Erase()
      requires Valid()
      modifies this`queue, this`past, this`base
      ensures Valid() && queue == Wanted(old(queue), ignoreNl, ignoreComments)
    {
      var q := Wanted(queue, ignoreNl, ignoreComments);
      ToldAfresh(Story(program, emitted, indents, queue, past, base), if cursor <= |program| then cursor else |program|, q);
      queue := q;
      past, base := emitted, q;
    }

    /** A step outside the text of f-strings. */
    method Normal(ghost x: Place) returns (o: Outcome)
      requires Inv(cursor) && cursor < |program| && Stacks() && modes[|modes| - 1] == NORMAL && x == Spot()
      requires Tracked() && Aligned() && Poised()
      modifies this`cursor, this`row, this`column, this`line, this`queue, this`emitted, this`indents, this`parens,
        this`modes, this`quotes, this`levels
      ensures StepGives(program, prefixes, numbers, x, o, Since(old(emitted), emitted))
      ensures o != Abort ==> Inv(cursor) && Stacks() && Tracked() && Aligned() && Poised() && cursor >= old(cursor)
      ensures o == Yes ==> cursor > old(cursor) || (cursor == old(cursor) && |indents| < |old(indents)|)
      ensures o == Yes ==> |emitted| > |old(emitted)| && cursor == LastEnd(emitted)
      ensures o == No ==> emitted == old(emitted) && Stuck()
    {
      ghost var before := emitted;
      o := Line(x);
      if o != No {
        LineStep(program, prefixes, numbers, x, o, Since(before, emitted));
        return;
      }
      o := Behind(x, WordStart(program, x.at));
      WordStep(program, prefixes, numbers, x, o, Since(before, emitted));
    }

    /** What follows the blanks at `at`, over which the cursor may have moved: a word, perhaps behind an escaped line end. */
    method Behind(ghost x: Place, ghost start: Option<nat>) returns (o: Outcome)
      requires Inv(cursor) && cursor < |program| && Stacks() && modes[|modes| - 1] == NORMAL
      requires Tracked() && Aligned() && MayBegin(program, emitted) && x.nest == Spot().nest
      requires x.at <= cursor && Indentation(program, x.at) == Indentation(program, cursor) && start == WordStart(program, x.at)
      modifies this`cursor, this`row, this`column, this`line, this`queue, this`emitted, this`parens,
        this`modes, this`quotes, this`levels
      ensures BehindGives(program, prefixes, numbers, x.nest, start, o, Since(old(emitted), emitted))
      ensures o != Abort ==> Inv(cursor) && Stacks() && Tracked() && Aligned() && MayBegin(program, emitted) && cursor >= old(cursor)
      ensures o == Yes ==> cursor > old(cursor) && |emitted| > |old(emitted)| && cursor == LastEnd(emitted)
      ensures o == No ==> emitted == old(emitted) && Stuck()
    {
      ghost var before := emitted;
      o := ToWord(x.at, start);
      if o == Abort {
        return;
      }
      o := Word(x.nest);
      if o == Yes {
        ghost var t := emitted[|before|];
        Within(t.kind, t.start);
      } else if o == No {
        NothingThere(program, prefixes, numbers, x.nest, cursor, Since(before, emitted));
      }
    }

    /** Move over blanks and at most one escaped line end. */
    method ToWord(ghost at: nat, ghost start: Option<nat>) returns (o: Outcome)
      requires Inv(cursor) && cursor < |program| && Aligned()
      requires at <= cursor && Indentation(program, at) == Indentation(program, cursor) && start == WordStart(program, at)
      modifies this`cursor, this`row, this`column, this`line
      ensures o == if start.None? then Abort else No
      ensures o == No ==> cursor == start.value && Inv(cursor) && Aligned() && cursor >= old(cursor)
    {
      StackIsTold(Story(program, emitted, indents, queue, past, base), cursor);
      ghost var from, first, alone := cursor, column == 0, line == 0;
      o := TryReadBackslash();
      if o == No {
        if cursor > Indentation(program, from) {
          RowsOverLineEnd(program, emitted, cursor);
        } else {
          RowsOverBlanks(program, emitted, from, cursor, first, alone);
        }
        BlanksAligned();
      }
    }

    method BlanksAligned()
      requires Inv(cursor) && Aligned()
      modifies this`cursor, this`column
      ensures Inv(cursor) && Aligned() && cursor == Indentation(program, old(cursor))
    {
      StackIsTold(Story(program, emitted, indents, queue, past, base), cursor);
      ghost var from, first, alone := cursor, column == 0, line == 0;
      SkipBlanks();
      RowsOverBlanks(program, emitted, from, cursor, first, alone);
    }

    /** What belongs to the structure of lines. */
    method Line(ghost x: Place) returns (o: Outcome)
      requires Inv(cursor) && cursor < |program| && Tracked() && Aligned() && Poised() && modes != [] && x == Spot()
      modifies this`cursor, this`row, this`column, this`line, this`queue, this`emitted, this`indents
      ensures LineGives(program, x, o, Since(old(emitted), emitted))
      ensures o != Abort ==> Inv(cursor) && Tracked() && Aligned() && Poised() && cursor >= old(cursor)
      ensures o == Yes ==> cursor > old(cursor) || (cursor == old(cursor) && |indents| < |old(indents)|)
      ensures o == Yes ==> old(emitted) <= emitted && |emitted| > |old(emitted)| && cursor == LastEnd(emitted)
      ensures o == No ==> cursor < |program| && emitted == old(emitted) && indents == old(indents) && MayBegin(program, emitted)
      ensures o == No ==> Indentation(program, old(cursor)) == Indentation(program, cursor)
    {
      o := EmptyOrComment(x);
      if o == No {
        o := Structure(x);
      }
    }

    /** Blank rows and comments. */
    method EmptyOrComment(ghost x: Place) returns (o: Outcome)
      requires Inv(cursor) && cursor < |program| && Tracked() && modes != [] && x == Spot()
      modifies this`cursor, this`column, this`row, this`line, this`queue, this`emitted
      ensures Inv(cursor) && o == if BlankLineAt(program, x) || CommentAt(program, x) then Yes else No
      ensures o == Yes ==> LineGives(program, x, Yes, Since(old(emitted), emitted)) && old(emitted) <= emitted
      ensures o == Yes ==> |emitted| > |old(emitted)| && Ended() && cursor > old(cursor)
      ensures o == No ==>
        cursor == old(cursor) && column == old(column) && row == old(row) && line == old(line) && emitted == old(emitted)
    {
      ghost var before := emitted;
      o := TryEmptyLine();
      if o == Yes {
        BlankGiven(program, x, before, emitted);
        LineEnds(x, before);
      } else {
        o := Comment(x);
      }
    }

    /** A comment and its line end, where no blank row stands. */
    method Comment(ghost x: Place) returns (o: Outcome)
      requires Inv(cursor) && cursor < |program| && Tracked() && modes != [] && x == Spot() && !BlankLineAt(program, x)
      modifies this`cursor, this`column, this`row, this`line, this`queue, this`emitted
      ensures Inv(cursor) && o == if CommentAt(program, x) then Yes else No
      ensures o == Yes ==> LineGives(program, x, Yes, Since(old(emitted), emitted)) && old(emitted) <= emitted
      ensures o == Yes ==> |emitted| > |old(emitted)| && Ended() && cursor > old(cursor)
      ensures o == No ==>
        cursor == old(cursor) && column == old(column) && row == old(row) && line == old(line) && emitted == old(emitted)
    {
      ghost var before := emitted;
      o := TryReadComment();
      if o == Yes {
        CommentDone(x, before);
      }
    }

    lemma CommentDone(x: Place, before: seq<Token>)
      requires x.at < |program| && |x.indents| > 0 && !BlankLineAt(program, x) && CommentAt(program, x)
      requires Commented(Indentation(program, x.at), before, x.alone)
      requires Tracks(before, x.nest) && x.nest == Spot().nest && modes != []
      ensures LineGives(program, x, Yes, Since(before, emitted)) && |emitted| > |before| && Ended()
    {
      CommentGiven(program, x, before, emitted);
      LineEnds(x, before);
    }

    /** A line has just ended. */
    ghost predicate Ended()
      reads this
    {
      Tracked() && Aligned() && Poised() && cursor == LastEnd(emitted)
    }

    lemma LineEnds(x: Place, before: seq<Token>)
      requires x.at < |program| && |x.indents| > 0 && before <= emitted
      requires LineGives(program, x, Yes, Since(before, emitted)) && Tracks(before, x.nest) && x.nest == Spot().nest && modes != []
      requires emitted != [] && EndsLine(emitted[|emitted| - 1].kind)
      requires column == 0 && line == 0 && cursor == LastEnd(emitted)
      ensures Ended()
    {
      LineTracked(program, x, before, emitted);
      EndRow(program, emitted);
    }

    /** The indentation of a line outside brackets, or a line end. */
    method Structure(ghost x: Place) returns (o: Outcome)
      requires Inv(cursor) && cursor < |program| && Tracked() && Aligned() && Poised() && modes != [] && x == Spot()
      requires !BlankLineAt(program, x) && !CommentAt(program, x)
      modifies this`cursor, this`column, this`row, this`line, this`queue, this`emitted, this`indents
      ensures LineGives(program, x, o, Since(old(emitted), emitted))
      ensures o != Abort ==> Inv(cursor) && Tracked() && Aligned() && Poised() && cursor >= old(cursor)
      ensures o == Yes ==> cursor > old(cursor) || (cursor == old(cursor) && |indents| < |old(indents)|)
      ensures o == Yes ==> old(emitted) <= emitted && |emitted| > |old(emitted)| && cursor == LastEnd(emitted)
      ensures o == No ==> cursor < |program| && emitted == old(emitted) && indents == old(indents) && MayBegin(program, emitted)
      ensures o == No ==> Indentation(program, old(cursor)) == Indentation(program, cursor)
    {
      ghost var before := emitted;
      o := AtLineStart(x);
      if o == No {
        o := TryReadNewline();
        if o == Yes {
          NewlineGiven(program, x, before, emitted);
          LineEnds(x, before);
        }
      } else if o == Yes {
        LineTracked(program, x, before, emitted);
      }
    }

    /** The indentation, if a line outside brackets begins; then the innermost level is that of the line. */
    method AtLineStart(ghost x: Place) returns (o: Outcome)
      requires Inv(cursor) && cursor < |program| && Tracked() && Aligned() && Poised() && x == Spot()
      requires !BlankLineAt(program, x) && !CommentAt(program, x)
      modifies this`cursor, this`column, this`line, this`queue, this`emitted, this`indents
      ensures MarginAt(program, x) ==> LineGives(program, x, o, Since(old(emitted), emitted))
      ensures !MarginAt(program, x) ==> o == No
      ensures o != Abort ==> Inv(cursor) && Aligned() && Poised() && cursor < |program|
      ensures o == Yes ==> cursor > old(cursor) || (cursor == old(cursor) && |indents| < |old(indents)|)
      ensures o == Yes ==> old(emitted) <= emitted && |emitted| > |old(emitted)| && cursor == LastEnd(emitted)
      ensures o == No ==> emitted == old(emitted) && indents == old(indents) && MayBegin(program, emitted)
      ensures o == No ==>
        cursor == if MarginAt(program, x) then Indentation(program, old(cursor)) else old(cursor)
    {
      ghost var before, s := emitted, Story(program, emitted, indents, queue, past, base);
      StackIsTold(s, cursor);
      o := TryReadIndent();
      if MarginAt(program, x) {
        IndentGiven(program, x, o, Since(before, emitted));
      }
      if o == Yes {
        LevelIsLine(x.at, x.indents, Width(program[x.at..Indentation(program, x.at)]));
      } else if o == No {
        RowsOverBlanks(program, emitted, x.at, cursor, x.first, x.alone);
        LineBegins(x, s);
      }
    }

    /** Behind an INDENT or DEDENT the innermost level is that of the line. */
    lemma LevelIsLine(at: nat, was: seq<nat>, value: nat)
      requires Indented(at, was, value)
      ensures Aligned() && MayBegin(program, emitted) && cursor == LastEnd(emitted)
    {
      InRow(program, emitted);
      LinedBegins(program, emitted);
    }

    /** A line that is not indented further or less, or stands in brackets, may begin with a word. */
    lemma LineBegins(x: Place, s: Story)
      requires x.at < |program| && |x.indents| > 0
      requires s.text == program && s.emitted == emitted && s.indents == x.indents && Told(s, x.at)
      requires MayBegin(program, emitted) || (x.first && x.at == Margin(emitted))
      requires Tracks(emitted, x.nest)
      requires x.first && x.nest.parens == 0 ==>
        IndentGives(program, x, Indentation(program, x.at), No, [])
      ensures MayBegin(program, emitted)
    {
      StackIsTold(s, x.at);
      if !MayBegin(program, emitted) {
        if x.nest.parens == 0 {
          LinedBegins(program, emitted);
        } else {
          BracketsOpen(program, emitted, x.nest);
        }
      }
    }

    /** Nothing that the lexer knows begins at the cursor. */
    ghost predicate Stuck()
      reads this
    {
      Text() && (cursor == |program| || (cursor < |program| && NoWord(program, cursor, prefixes) && numbers[cursor] == 0))
    }

    /** A string, name, operator or number. */
    method Word(ghost n: Nest) returns (o: Outcome)
      requires Inv(cursor) && Stacks() && modes[|modes| - 1] == NORMAL && Tracked() && MayBegin(program, emitted)
      requires n == Spot().nest
      modifies this`cursor, this`row, this`column, this`line, this`queue, this`emitted, this`parens,
        this`modes, this`quotes, this`levels
      ensures WordGives(program, prefixes, numbers, n, old(cursor), o, Since(old(emitted), emitted))
      ensures o != Abort ==> Inv(cursor) && Stacks() && Tracked()
      ensures o == Yes ==> Worded(old(cursor), old(emitted))
      ensures o == No ==> cursor == old(cursor) && column == old(column) && line == old(line)
      ensures o == No ==> emitted == old(emitted)
    {
      ghost var at, before := cursor, emitted;
      var prefix;
      o, prefix := TryReadString();
      if o != No {
        LiteralIsWord(program, prefixes, numbers, n, at, prefix.value, o, Since(before, emitted));
        return;
      }
      o := NameOrSign(n);
    }

    /** A name, operator or number, where no literal stands. */
    method NameOrSign(ghost n: Nest) returns (o: Outcome)
      requires Inv(cursor) && Stacks() && modes[|modes| - 1] == NORMAL && Tracked() && MayBegin(program, emitted)
      requires n == Spot().nest
      requires !HasPrefix(program, cursor, prefixes)
      modifies this`cursor, this`column, this`line, this`queue, this`emitted, this`parens, this`modes
      ensures WordGives(program, prefixes, numbers, n, old(cursor), o, Since(old(emitted), emitted))
      ensures o != Abort ==> Inv(cursor) && Stacks() && Tracked()
      ensures o == Yes ==> Worded(old(cursor), old(emitted))
      ensures o == No ==> cursor == old(cursor) && column == old(column) && line == old(line)
      ensures o == No ==> emitted == old(emitted)
    {
      ghost var at, before := cursor, emitted;
      o := TryReadName();
      if o == Yes {
        NameIsWord(program, prefixes, numbers, n, at, cursor, before, emitted);
        return;
      }
      o := Sign(n);
    }

    /** An operator or number, where no name stands either. */
    method Sign(ghost n: Nest) returns (o: Outcome)
      requires Inv(cursor) && Stacks() && modes[|modes| - 1] == NORMAL && Tracked() && MayBegin(program, emitted)
      requires n == Spot().nest
      requires !HasPrefix(program, cursor, prefixes) && (cursor < |program| ==> !NameStart(program[cursor]))
      modifies this`cursor, this`column, this`line, this`queue, this`emitted, this`parens, this`modes
      ensures WordGives(program, prefixes, numbers, n, old(cursor), o, Since(old(emitted), emitted))
      ensures o != Abort ==> Inv(cursor) && Stacks() && Tracked()
      ensures o == Yes ==> Worded(old(cursor), old(emitted))
      ensures o == No ==> cursor == old(cursor) && column == old(column) && line == old(line)
      ensures o == No ==> emitted == old(emitted)
    {
      o := Operation(n, if cursor < |program| then OperatorAt(program, cursor) else None);
      if o == No {
        o := Numeral(n);
      }
    }

    method Operation(ghost n: Nest, ghost op: Option<(Kind, nat)>) returns (o: Outcome)
      requires Inv(cursor) && Stacks() && modes[|modes| - 1] == NORMAL && Tracked() && MayBegin(program, emitted)
      requires n == Spot().nest
      requires !HasPrefix(program, cursor, prefixes) && (cursor < |program| ==> !NameStart(program[cursor]))
      requires op == if cursor < |program| then OperatorAt(program, cursor) else None
      modifies this`cursor, this`column, this`line, this`queue, this`emitted, this`parens, this`modes
      ensures o == No <==> op.None?
      ensures o != No ==> WordGives(program, prefixes, numbers, n, old(cursor), o, Since(old(emitted), emitted))
      ensures o != Abort ==> Inv(cursor) && Stacks() && Tracked()
      ensures o == Yes ==> Worded(old(cursor), old(emitted))
      ensures o == No ==> cursor == old(cursor) && column == old(column) && line == old(line)
      ensures o == No ==> emitted == old(emitted) && parens == old(parens) && modes == old(modes)
    {
      ghost var at, before := cursor, emitted;
      o := TryReadOperation(op);
      if o != No {
        OperatorIsWord(program, prefixes, numbers, n, at, op.value.0, op.value.1, o, before, emitted);
      }
    }

    /** A number, where no operator stands either. */
    method Numeral(ghost n: Nest) returns (o: Outcome)
      requires Inv(cursor) && Stacks() && modes[|modes| - 1] == NORMAL && Tracked() && MayBegin(program, emitted)
      requires n == Spot().nest
      requires !HasPrefix(program, cursor, prefixes) && (cursor < |program| ==> !NameStart(program[cursor]))
      requires cursor < |program| ==> OperatorAt(program, cursor).None?
      modifies this`cursor, this`column, this`line, this`queue, this`emitted
      ensures WordGives(program, prefixes, numbers, n, old(cursor), o, Since(old(emitted), emitted))
      ensures o != Abort ==> Inv(cursor) && Stacks() && Tracked()
      ensures o == Yes ==> Worded(old(cursor), old(emitted))
      ensures o == No ==> cursor == old(cursor) && column == old(column) && line == old(line)
      ensures o == No ==> emitted == old(emitted)
    {
      ghost var at, before := cursor, emitted;
      o := TryReadNumber();
      NumberIsWord(program, prefixes, numbers, n, at, o, before, emitted);
    }

    ghost predicate Later(c: nat, levels: nat)
      reads this
    {
      cursor > c || (cursor == c && |indents| < levels)
    }

    /** What waits in the queue is all that was ever pushed, but for what is not wanted. */
    ghost predicate Served()
      reads this
    {
      queue == Wanted(emitted, ignoreNl, ignoreComments)
    }

    /** Read until the queue has grown, leaving out what is not wanted. */
    method ReadMoreTokens() returns (o: Outcome)
      requires Valid()
      modifies this
      ensures o != Abort ==> Valid() && old(emitted) <= emitted
      ensures o != Abort && old(Served()) ==> Served()
      ensures o == Yes ==> |queue| > |old(queue)| && Later(old(cursor), |old(indents)|)
      ensures o == Yes ==> queue == Wanted(old(queue) + emitted[|old(emitted)|..], ignoreNl, ignoreComments)
      ensures o == No ==> (cursor > |program| || Stuck()) && |queue| <= |old(queue)|
      ensures ignoreNl == old(ignoreNl) && ignoreComments == old(ignoreComments)
    {
      var size := |queue|;
      o := StepAndErase();
      while o == Yes && size >= |queue|
        invariant o != Abort ==> Valid() && old(emitted) <= emitted
        invariant o != Abort && old(Served()) ==> Served()
        invariant ignoreNl == old(ignoreNl) && ignoreComments == old(ignoreComments)
        invariant o == Yes ==> Later(old(cursor), |old(indents)|)
        invariant o == Yes ==> queue == Wanted(old(queue) + emitted[|old(emitted)|..], ignoreNl, ignoreComments)
        invariant o == No ==> (cursor > |program| || Stuck()) && |queue| <= size
        decreases o == Yes, |program| + 1 - cursor, |indents|
      {
        ghost var log := emitted;
        o := StepAndErase();
        if o == Yes {
          WantedMore(old(queue), old(emitted), log, emitted, ignoreNl, ignoreComments);
        }
      }
    }

    method StepAndErase() returns (o: Outcome)
      requires Valid()
      modifies this
      ensures o != Abort ==> Valid() && old(emitted) <= emitted
      ensures o != Abort && old(Served()) ==> Served()
      ensures o == Yes ==> Later(old(cursor), |old(indents)|)
      ensures o == Yes ==> queue == Wanted(old(queue) + emitted[|old(emitted)|..], ignoreNl, ignoreComments)
      ensures o == No ==> (cursor > |program| || Stuck()) && queue == old(queue)
      ensures ignoreNl == old(ignoreNl) && ignoreComments == old(ignoreComments)
    {
      o := Step();
      if o == Yes {
        Erase();
        WantedSoFar(old(emitted), emitted, ignoreNl, ignoreComments);
      }
    }

    /**
     The token that is `k` places ahead, reading as far as needed. There is none only if the lexer has finished or
     nothing that it knows begins at the cursor.
     */
    method PeekToken(k: nat) returns (o: Outcome, t: Option<Token>)
      requires Valid()
      modifies this
      ensures o != Abort ==> Valid() && old(emitted) <= emitted
      ensures o != Abort && old(Served()) ==> Served()
      ensures o == Yes <==> t.Some?
      ensures o == Yes ==> k < |queue| && t == Some(queue[k])
      ensures o == No ==> k >= |queue| && (cursor > |program| || Stuck())
      ensures k < |old(queue)| ==> t == Some(old(queue)[k]) && queue == old(queue) && cursor == old(cursor)
    {
      while k >= |queue|
        invariant Valid() && old(emitted) <= emitted && (old(Served()) ==> Served())
        invariant k < |old(queue)| ==> queue == old(queue) && cursor == old(cursor)
        decreases |program| + 1 - cursor, |indents|
      {
        if cursor > |program| {
          return No, None;
        }
        o := ReadMoreTokens();
        if o != Yes {
          return o, None;
        }
      }
      return Yes, Some(queue[k]);
    }
  }

  /**
   When the lexer has finished, the tokens make up the whole program, every INDENT is closed by a DEDENT, and no DEDENT
   came before its INDENT. Each line outside brackets begins at the innermost indentation open before its first word.
   */
  lemma FinishedStream(lexer: Lexer)
    requires lexer.Valid() && lexer.Finished()
    ensures Tiles(lexer.program, lexer.emitted, |lexer.program|) && Solid(lexer.emitted)
    ensures OpenIndents(lexer.emitted) == Some([]) && Count(lexer.emitted, INDENT) == Count(lexer.emitted, DEDENT)
    ensures forall i :: 0 <= i < |lexer.emitted| && BeginsLine(lexer.emitted, i) ==> Lined(lexer.program, lexer.emitted[..i])
    ensures Nesting(lexer.emitted) == Some(lexer.Spot().nest)
  {
    var s := Story(lexer.program, lexer.emitted, lexer.indents, lexer.queue, lexer.past, lexer.base);
    ToldIs(s, |lexer.program|);
    assert Holds(Stack, s, |lexer.program|) && Holds(Tiling, s, |lexer.program|) && Holds(Distinct, s, |lexer.program|);
    assert Holds(Margins, s, |lexer.program|);
    OpenIsDifference(lexer.emitted);
    LinesAreLined(lexer.program, lexer.emitted);
    TracksIs(lexer.emitted, lexer.Spot().nest);
  }

  /**
   The same while it is still at work: one open level per INDENT that no DEDENT has closed, and the brackets, modes,
   quotes and bracket levels that the tokens leave open.
   */
  lemma WorkingStream(lexer: Lexer)
    requires lexer.Valid() && lexer.cursor <= |lexer.program|
    ensures Tiles(lexer.program, lexer.emitted, lexer.cursor) && Solid(lexer.emitted) && IndentsOk(lexer.indents)
    ensures OpenIndents(lexer.emitted) == Some(lexer.indents[1..])
    ensures |lexer.indents| - 1 == Count(lexer.emitted, INDENT) - Count(lexer.emitted, DEDENT)
    ensures forall i :: 0 <= i < |lexer.emitted| && BeginsLine(lexer.emitted, i) ==> Lined(lexer.program, lexer.emitted[..i])
    ensures ModesOk(lexer.modes, lexer.quotes, lexer.levels)
    ensures Nesting(lexer.emitted) == Some(Nest(lexer.parens, lexer.modes, lexer.quotes, lexer.levels))
  {
    var s := Story(lexer.program, lexer.emitted, lexer.indents, lexer.queue, lexer.past, lexer.base);
    ToldIs(s, lexer.cursor);
    assert Holds(Stack, s, lexer.cursor) && Holds(Tiling, s, lexer.cursor) && Holds(Distinct, s, lexer.cursor);
    assert Holds(Margins, s, lexer.cursor);
    OpenIsDifference(lexer.emitted);
    LinesAreLined(lexer.program, lexer.emitted);
    TracksIs(lexer.emitted, lexer.Spot().nest);
  }
}
