/**
 What one step of the lexer pushes. It goes by what stands in the program text at its place, and by the tokens pushed so
 far: they tell the row, the brackets, the modes and the indentations.
 */
module Steps {
  import opened Options
  import opened Tokens
  import opened Quoting
  import opened Stream
  import opened Lexemes

  /** A program that ends in a line end, and the length of the number at each offset. */
  ghost predicate TextOk(p: string, numbers: seq<nat>) {
    && |p| > 0 && p[|p| - 1] == '\n'
    && |numbers| == |p| && forall i :: 0 <= i < |p| ==> i + numbers[i] <= |p|
  }

  /** Where a step begins: `first` at the first place of a row, `alone` with no token before it on that row. */
  datatype Place = Place(at: nat, first: bool, alone: bool, nest: Nest, indents: seq<nat>)

  /** The tokens pushed so far tell all of that. */
  function PlaceOf(p: string, ts: seq<Token>, at: nat): Place {
    Place(at, RowStart(p, ts, at), RowIsEmpty(p, ts, at),
          if Nesting(ts).Some? then Nesting(ts).value else Nest(0, [NORMAL], [], []),
          [0] + if OpenIndents(ts).Some? then OpenIndents(ts).value else [])
  }

  /** What was pushed after `before`. */
  function Since(before: seq<Token>, after: seq<Token>): seq<Token> {
    if before <= after then after[|before|..] else []
  }

  lemma SinceOne(before: seq<Token>, a: Token)
    ensures Since(before, before + [a]) == [a]
  {
  }

  lemma SinceTwo(before: seq<Token>, a: Token, b: Token)
    ensures Since(before, before + [a] + [b]) == [a, b]
  {
  }

  function Copies(t: Token, n: nat): (ts: seq<Token>)
    ensures |ts| == n && forall i :: 0 <= i < n ==> ts[i] == t
  {
    if n == 0 then [] else Copies(t, n - 1) + [t]
  }

  /** Blanks up to the end of their row, or a line end at the start of a row. */
  predicate BlankLineAt(p: string, x: Place)
    requires x.at <= |p|
  {
    var j := Indentation(p, x.at);
    j < |p| && Space(p[j]) && (x.at < j || x.first)
  }

  predicate CommentAt(p: string, x: Place)
    requires x.at <= |p|
  {
    var j := Indentation(p, x.at);
    j < |p| && p[j] == '#'
  }

  /** A line outside brackets begins. */
  predicate MarginAt(p: string, x: Place)
    requires x.at <= |p|
  {
    x.first && x.nest.parens == 0 && !BlankLineAt(p, x) && !CommentAt(p, x)
  }

  /** A comment from `j` to the end of its row, and the line end. */
  ghost predicate CommentGives(p: string, j: nat, nl: bool, out: seq<Token>) {
    && |out| == 2
    && var e := End(out[0]);
      && j < e < |p| && p[e] == '\n' && (forall k :: j <= k < e ==> p[k] != '\n')
      && out == [Piece(COMMENT, p, j, e), Piece(if nl then NL else NEWLINE, p, e, e + 1)]
  }

  /** The blanks from `x.at` to `j` are wider or narrower than the innermost level, or as wide. */
  ghost predicate IndentGives(p: string, x: Place, j: nat, o: Outcome, out: seq<Token>)
    requires x.at <= j <= |p| && |x.indents| > 0
  {
    var w, top := Width(p[x.at..j]), x.indents[|x.indents| - 1];
    if w > top then o == Yes && out == [Piece(INDENT, p, x.at, j)]
    else if w == top then o == No && out == []
    else if w !in x.indents then o == Abort
    else
      && o == Yes && 0 < |out| < |x.indents| && x.indents[|x.indents| - 1 - |out|] == w
      && out == Copies(Piece(DEDENT, p, x.at, j), |out|)
  }

  lemma ClosesLevels(p: string, x: Place, j: nat, ok: bool, n: nat, before: seq<Token>, after: seq<Token>)
    requires x.at <= j <= |p| && |x.indents| > 0 && Width(p[x.at..j]) < x.indents[|x.indents| - 1]
    requires ok <==> Width(p[x.at..j]) in x.indents
    requires ok ==> 0 < n < |x.indents| && x.indents[|x.indents| - 1 - n] == Width(p[x.at..j])
    requires ok ==> after == before + Copies(Piece(DEDENT, p, x.at, j), n)
    ensures IndentGives(p, x, j, if ok then Yes else Abort, Since(before, after))
  {
    if ok {
      assert Since(before, after) == Copies(Piece(DEDENT, p, x.at, j), n);
    }
  }

  /** The line structure: blank rows, comments, indentation, line ends. With `No` a word may stand here. */
  ghost predicate LineGives(p: string, x: Place, o: Outcome, out: seq<Token>)
    requires x.at < |p| && |x.indents| > 0
  {
    var j := Indentation(p, x.at);
    if BlankLineAt(p, x) then o == Yes && out == [Piece(NL, p, j, j + 1)]
    else if CommentAt(p, x) then o == Yes && CommentGives(p, j, x.alone || x.nest.parens > 0, out)
    else if MarginAt(p, x) then IndentGives(p, x, j, o, out)
    else if p[x.at] == '\n' then o == Yes && out == [Piece(if x.nest.parens > 0 then NL else NEWLINE, p, x.at, x.at + 1)]
    else o == No && out == []
  }

  lemma BlankGiven(p: string, x: Place, before: seq<Token>, after: seq<Token>)
    requires x.at < |p| && |x.indents| > 0 && BlankLineAt(p, x)
    requires var j := Indentation(p, x.at); after == before + [Piece(NL, p, j, j + 1)]
    ensures LineGives(p, x, Yes, Since(before, after))
  {
    var j := Indentation(p, x.at);
    SinceOne(before, Piece(NL, p, j, j + 1));
  }

  lemma CommentGiven(p: string, x: Place, before: seq<Token>, after: seq<Token>)
    requires x.at < |p| && |x.indents| > 0 && !BlankLineAt(p, x) && CommentAt(p, x)
    requires before <= after && CommentGives(p, Indentation(p, x.at), x.alone || x.nest.parens > 0, after[|before|..])
    ensures LineGives(p, x, Yes, Since(before, after))
    ensures after != [] && EndsLine(after[|after| - 1].kind)
  {
    assert after[|after| - 1] == after[|before|..][1];
  }

  lemma IndentGiven(p: string, x: Place, o: Outcome, out: seq<Token>)
    requires x.at < |p| && |x.indents| > 0 && MarginAt(p, x) && IndentGives(p, x, Indentation(p, x.at), o, out)
    ensures LineGives(p, x, o, out)
  {
  }

  lemma NewlineGiven(p: string, x: Place, before: seq<Token>, after: seq<Token>)
    requires x.at < |p| && |x.indents| > 0 && !BlankLineAt(p, x) && !CommentAt(p, x) && !MarginAt(p, x) && p[x.at] == '\n'
    requires after == before + [Piece(if x.nest.parens > 0 then NL else NEWLINE, p, x.at, x.at + 1)]
    ensures LineGives(p, x, Yes, Since(before, after))
  {
    SinceOne(before, Piece(if x.nest.parens > 0 then NL else NEWLINE, p, x.at, x.at + 1));
  }

  /** Where a word may begin: behind blanks and at most one escaped line end. A backslash before anything else is an error. */
  function WordStart(p: string, i: nat): (r: Option<nat>)
    requires i <= |p|
    ensures r.Some? ==> i <= r.value <= |p|
  {
    var j := Indentation(p, i);
    if !BackslashAt(p, j) then Some(j)
    else if p[j + 1] == '\n' then Some(Indentation(p, j + 2))
    else None
  }

  /** A closing bracket that nothing opened. */
  predicate Unmatched(c: char, n: Nest) {
    n.parens == 0 && (c == ')' || c == ']' || (c == '}' && |n.modes| == 1))
  }

  /** A literal that ends at `end`, if it is closed; of an f-string, the prefix and the opening quotes. */
  predicate LiteralOf(p: string, k: nat, prefix: string, end: Option<nat>, o: Outcome, out: seq<Token>)
    requires PrefixAt(p, k, prefix)
  {
    match end
    case None => o == Abort
    case Some(e) =>
      && o == Yes && k <= e <= |p|
      && out == [if Formatted(prefix) then Piece(FSTRING_START, p, k, Opening(p, k + |prefix|)) else Piece(STRING, p, k, e)]
  }

  /** A literal whose quote stands behind a prefix at `k`. */
  predicate LiteralGives(p: string, k: nat, prefix: string, o: Outcome, out: seq<Token>)
    requires PrefixAt(p, k, prefix)
  {
    LiteralOf(p, k, prefix, LiteralEnd(p, k + |prefix|), o, out)
  }

  lemma LiteralGiven(
    p: string, k: nat, prefix: string, end: Option<nat>, o: Outcome, before: seq<Token>, after: seq<Token>, at: nat
  )
    requires PrefixAt(p, k, prefix) && o == if end.Some? then Yes else Abort
    requires end.Some? ==> k <= end.value <= |p|
    requires o == Yes ==> at == if Formatted(prefix) then Opening(p, k + |prefix|) else end.value
    requires o == Yes ==> after == before + [Piece(if Formatted(prefix) then FSTRING_START else STRING, p, k, at)]
    ensures LiteralOf(p, k, prefix, end, o, Since(before, after))
  {
    if o == Yes {
      SinceOne(before, Piece(if Formatted(prefix) then FSTRING_START else STRING, p, k, at));
    }
  }

  /** A string if a prefix and a quote stand there, otherwise a name, the longest operator, a number, or nothing. */
  ghost predicate WordGives(
    p: string, prefixes: seq<string>, numbers: seq<nat>, n: Nest, k: nat, o: Outcome, out: seq<Token>
  )
    requires TextOk(p, numbers) && k <= |p|
  {
    if k == |p| then o == No && out == []
    else if HasPrefix(p, k, prefixes) then
      exists i :: 0 <= i < |prefixes| && PrefixAt(p, k, prefixes[i]) && LiteralGives(p, k, prefixes[i], o, out)
    else if NameStart(p[k]) then
      o == Yes && |out| == 1 && IsName(p, k, End(out[0])) && out == [Piece(NAME, p, k, End(out[0]))]
    else if OperatorAt(p, k).Some? then
      var (kind, m) := OperatorAt(p, k).value;
      if m == 1 && Unmatched(p[k], n) then o == Abort
      else o == Yes && out == [Piece(kind, p, k, k + m)]
    else if numbers[k] > 0 then o == Yes && out == [Piece(NUMBER, p, k, k + numbers[k])]
    else o == No && out == []
  }

  /** A word where it may begin; a backslash out of place is an error. */
  ghost predicate BehindGives(
    p: string, prefixes: seq<string>, numbers: seq<nat>, n: Nest, start: Option<nat>, o: Outcome, out: seq<Token>
  )
    requires TextOk(p, numbers) && (start.Some? ==> start.value <= |p|)
  {
    match start
    case None => o == Abort
    case Some(k) => WordGives(p, prefixes, numbers, n, k, o, out)
  }

  /** The text of an f-string from `i` on, if it has an end, and the token there that ends it. */
  predicate PartOf(p: string, i: nat, end: Option<nat>, quote: Quote, o: Outcome, out: seq<Token>)
    requires |p| > 0 && p[|p| - 1] == '\n' && (end.Some? ==> i <= end.value < |p|)
  {
    match end
    case None => o == Abort
    case Some(at) =>
      var part := PartAt(p, at, quote);
      o == Yes && out == [Piece(FSTRING_MIDDLE, p, i, at), Piece(PartKind(part), p, at, at + part.n)]
  }

  function PartKind(part: Part): Kind {
    match part
    case Skip(_) => FSTRING_MIDDLE
    case Ends(_, kind) => kind
  }

  /** The text of the innermost f-string up to what ends it. */
  predicate PartGives(p: string, x: Place, o: Outcome, out: seq<Token>)
    requires |p| > 0 && p[|p| - 1] == '\n' && x.at < |p|
  {
    && x.nest.quotes != []
    && var quote := x.nest.quotes[|x.nest.quotes| - 1];
      PartOf(p, x.at, TextEnd(p, x.at, true, quote), quote, o, out)
  }

  lemma PartGiven(p: string, i: nat, at: nat, quote: Quote, part: Part, before: seq<Token>, after: seq<Token>)
    requires |p| > 0 && p[|p| - 1] == '\n' && i <= at < |p| && part == PartAt(p, at, quote) && part.Ends?
    requires after == before + [Piece(FSTRING_MIDDLE, p, i, at)] + [Piece(part.kind, p, at, at + part.n)]
    ensures PartOf(p, i, Some(at), quote, Yes, Since(before, after))
  {
    SinceTwo(before, Piece(FSTRING_MIDDLE, p, i, at), Piece(part.kind, p, at, at + part.n));
  }

  /** At the end of the text one DEDENT for each open level, and the end marker. */
  ghost predicate EndGives(p: string, x: Place, o: Outcome, out: seq<Token>)
    requires |x.indents| > 0
  {
    o == Yes && out == Copies(Token(DEDENT, |p|, []), |x.indents| - 1) + [Token(ENDMARKER, |p|, [])]
  }

  lemma EndGiven(p: string, x: Place, before: seq<Token>, after: seq<Token>)
    requires |x.indents| > 0
    requires after == before + Copies(Token(DEDENT, |p|, []), |x.indents| - 1) + [Token(ENDMARKER, |p|, [])]
    ensures EndGives(p, x, Yes, Since(before, after)) && before <= after
    ensures forall i :: 0 <= i < |Since(before, after)| ==> Neutral(Since(before, after)[i].kind)
  {
    var more := Copies(Token(DEDENT, |p|, []), |x.indents| - 1) + [Token(ENDMARKER, |p|, [])];
    assert after == before + more;
    assert Since(before, after) == more;
  }

  lemma NothingThere(p: string, prefixes: seq<string>, numbers: seq<nat>, n: Nest, k: nat, out: seq<Token>)
    requires TextOk(p, numbers) && k <= |p| && WordGives(p, prefixes, numbers, n, k, No, out)
    ensures k == |p| || (NoWord(p, k, prefixes) && numbers[k] == 0)
  {
  }

  lemma NameIsWord(
    p: string, prefixes: seq<string>, numbers: seq<nat>, n: Nest, k: nat, end: nat, before: seq<Token>, after: seq<Token>
  )
    requires TextOk(p, numbers) && IsName(p, k, end) && !HasPrefix(p, k, prefixes)
    requires after == before + [Piece(NAME, p, k, end)]
    ensures WordGives(p, prefixes, numbers, n, k, Yes, Since(before, after))
  {
    SinceOne(before, Piece(NAME, p, k, end));
  }

  lemma OperatorIsWord(
    p: string, prefixes: seq<string>, numbers: seq<nat>, n: Nest, k: nat, kind: Kind, m: nat, o: Outcome,
    before: seq<Token>, after: seq<Token>
  )
    requires TextOk(p, numbers) && k < |p| && !HasPrefix(p, k, prefixes) && !NameStart(p[k])
    requires OperatorAt(p, k) == Some((kind, m))
    requires
      if m == 1 && Unmatched(p[k], n) then o == Abort else o == Yes && after == before + [Piece(kind, p, k, k + m)]
    ensures WordGives(p, prefixes, numbers, n, k, o, Since(before, after))
  {
    if o == Yes {
      SinceOne(before, Piece(kind, p, k, k + m));
    }
  }

  /** A number, or nothing. */
  lemma NumberIsWord(
    p: string, prefixes: seq<string>, numbers: seq<nat>, n: Nest, k: nat, o: Outcome, before: seq<Token>, after: seq<Token>
  )
    requires TextOk(p, numbers) && k <= |p| && !HasPrefix(p, k, prefixes)
    requires k < |p| ==> !NameStart(p[k]) && OperatorAt(p, k).None?
    requires
      if k < |p| && numbers[k] > 0 then o == Yes && after == before + [Piece(NUMBER, p, k, k + numbers[k])]
      else o == No && after == before
    ensures WordGives(p, prefixes, numbers, n, k, o, Since(before, after))
  {
    if o == Yes {
      SinceOne(before, Piece(NUMBER, p, k, k + numbers[k]));
    }
  }

  lemma LiteralIsWord(
    p: string, prefixes: seq<string>, numbers: seq<nat>, n: Nest, k: nat, prefix: string, o: Outcome, out: seq<Token>
  )
    requires TextOk(p, numbers) && k <= |p| && prefix in prefixes && PrefixAt(p, k, prefix) && LiteralGives(p, k, prefix, o, out)
    ensures WordGives(p, prefixes, numbers, n, k, o, out)
  {
    var i :| 0 <= i < |prefixes| && prefixes[i] == prefix;
    assert PrefixAt(p, k, prefixes[i]);
  }

  /** What a step that begins at `x` pushes. */
  ghost predicate StepGives(p: string, prefixes: seq<string>, numbers: seq<nat>, x: Place, o: Outcome, out: seq<Token>)
    requires TextOk(p, numbers) && x.at <= |p| && |x.indents| > 0
  {
    if x.at == |p| then EndGives(p, x, o, out)
    else if x.nest.modes == [] || x.nest.modes[|x.nest.modes| - 1] == FSTRING then PartGives(p, x, o, out)
    else if !LineGives(p, x, No, []) then LineGives(p, x, o, out)
    else BehindGives(p, prefixes, numbers, x.nest, WordStart(p, x.at), o, out)
  }

  lemma LineStep(p: string, prefixes: seq<string>, numbers: seq<nat>, x: Place, o: Outcome, out: seq<Token>)
    requires TextOk(p, numbers) && x.at < |p| && |x.indents| > 0
    requires x.nest.modes != [] && x.nest.modes[|x.nest.modes| - 1] == NORMAL && LineGives(p, x, o, out) && o != No
    ensures StepGives(p, prefixes, numbers, x, o, out)
  {
  }

  lemma WordStep(p: string, prefixes: seq<string>, numbers: seq<nat>, x: Place, o: Outcome, out: seq<Token>)
    requires TextOk(p, numbers) && x.at < |p| && |x.indents| > 0
    requires x.nest.modes != [] && x.nest.modes[|x.nest.modes| - 1] == NORMAL && LineGives(p, x, No, [])
    requires BehindGives(p, prefixes, numbers, x.nest, WordStart(p, x.at), o, out)
    ensures StepGives(p, prefixes, numbers, x, o, out)
  {
  }

  /** The tokens of the line structure open and close no bracket. */
  lemma LineIsNeutral(p: string, x: Place, out: seq<Token>)
    requires x.at < |p| && |x.indents| > 0 && LineGives(p, x, Yes, out)
    ensures forall i :: 0 <= i < |out| ==> Neutral(out[i].kind)
    ensures |out| > 0
  {
  }

  lemma LineTracked(p: string, x: Place, before: seq<Token>, after: seq<Token>)
    requires x.at < |p| && |x.indents| > 0 && before <= after && LineGives(p, x, Yes, Since(before, after))
    requires Tracks(before, x.nest) && x.nest.modes != []
    ensures Tracks(after, x.nest)
  {
    LineIsNeutral(p, x, Since(before, after));
    TracksStays(before, x.nest, Since(before, after));
    assert before + Since(before, after) == after;
  }

  /** Inside brackets lines are joined: no step ends a line or looks at an indentation. */
  lemma BracketsJoinLines(
    p: string, prefixes: seq<string>, numbers: seq<nat>, x: Place, o: Outcome, out: seq<Token>, i: nat
  )
    requires TextOk(p, numbers) && x.at < |p| && |x.indents| > 0 && x.nest.parens > 0
    requires StepGives(p, prefixes, numbers, x, o, out) && o == Yes && i < |out|
    ensures out[i].kind != NEWLINE && out[i].kind != INDENT && out[i].kind != DEDENT
  {
    if x.nest.modes != [] && x.nest.modes[|x.nest.modes| - 1] == NORMAL && LineGives(p, x, No, []) {
      WordIsWordy(p, prefixes, numbers, x.nest, WordStart(p, x.at).value, out);
    }
  }

  lemma WordIsWordy(p: string, prefixes: seq<string>, numbers: seq<nat>, n: Nest, k: nat, out: seq<Token>)
    requires TextOk(p, numbers) && k <= |p| && WordGives(p, prefixes, numbers, n, k, Yes, out)
    ensures |out| == 1 && Wordy(out[0].kind)
  {
  }

  /** A line of the program ends only where something stands before its end: never on a blank row or one with a comment alone. */
  lemma NewlineEndsText(
    p: string, prefixes: seq<string>, numbers: seq<nat>, x: Place, o: Outcome, out: seq<Token>, i: nat
  )
    requires TextOk(p, numbers) && x.at < |p| && |x.indents| > 0
    requires StepGives(p, prefixes, numbers, x, o, out) && o == Yes && i < |out|
    ensures out[i].kind == NEWLINE ==> x.nest.parens == 0 && !(x.first && x.alone) && !BlankLineAt(p, x)
  {
    if x.nest.modes != [] && x.nest.modes[|x.nest.modes| - 1] == NORMAL && LineGives(p, x, No, []) {
      WordIsWordy(p, prefixes, numbers, x.nest, WordStart(p, x.at).value, out);
    }
  }
}
