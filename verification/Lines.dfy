/** The lexer on lines of blanks and a name: the tokens of an indented program, and a dedent to a level that is not open. */
module Lines {
  import opened Options
  import opened Tokens
  import opened Stream
  import opened Lexemes
  import opened Steps
  import opened Lexers

  const NOTHING_OPEN := Nest(0, [NORMAL], [], [])

  lemma LeadingBlanks(p: string, i: nat, n: nat)
    requires i + n < |p| && (forall k :: i <= k < i + n ==> p[k] == ' ') && !Blank(p[i + n])
    ensures Indentation(p, i) == i + n && Width(p[i..i + n]) == n
    decreases n
  {
    if n > 0 {
      LeadingBlanks(p, i + 1, n - 1);
    }
    OnlySpaces(p[i..i + n]);
  }

  lemma {:induction false} OnlySpaces(s: string)
    requires forall k :: 0 <= k < |s| ==> s[k] == ' '
    ensures Width(s) == |s|
  {
    if s != [] {
      OnlySpaces(s[..|s| - 1]);
    }
  }

  /** In an indentation each tab counts as much as eight blanks, wherever it stands. */
  lemma {:induction false} TabsCountEight(s: string)
    ensures Width(s) == |s| + 7 * |set k | 0 <= k < |s| && s[k] == '\t'|
  {
    if s != [] {
      var n := |s| - 1;
      var before := set k | 0 <= k < n && s[..n][k] == '\t';
      TabsCountEight(s[..n]);
      assert (set k | 0 <= k < |s| && s[k] == '\t') == before + if s[n] == '\t' then {n} else {};
    }
  }

  /** A line with `n` blanks and the name `a`, at `i`. */
  ghost predicate LineAt(p: string, i: nat, n: nat) {
    i + n + 1 < |p| && (forall k :: i <= k < i + n ==> p[k] == ' ') && p[i + n] == 'a' && p[i + n + 1] == '\n'
  }

  predicate NotFromA(s: string) { s == "" || s[0] != 'a' }

  lemma PrefixesNotFromA(i: nat)
    requires i < |PREFIXES|
    ensures NotFromA(PREFIXES[i])
  {
  }

  /** No string prefix begins with an `a`, so the name is a name. */
  lemma NoPrefix(p: string, k: nat)
    requires k < |p| && p[k] == 'a'
    ensures !HasPrefix(p, k, PREFIXES)
  {
    forall i | 0 <= i < |PREFIXES|
      ensures !PrefixAt(p, k, PREFIXES[i])
    {
      var prefix := PREFIXES[i];
      PrefixesNotFromA(i);
      assert 0 < |prefix| <= |p| - k ==> p[k..k + |prefix|][0] == 'a';
    }
  }

  lemma TheName(p: string, prefixes: seq<string>, numbers: seq<nat>, n: Nest, k: nat, o: Outcome, out: seq<Token>)
    requires TextOk(p, numbers) && LineAt(p, k, 0) && !HasPrefix(p, k, prefixes) && WordGives(p, prefixes, numbers, n, k, o, out)
    ensures o == Yes && out == [Piece(NAME, p, k, k + 1)]
  {
    assert !NameChar(p[k + 1]);
  }

  /** At the start of the line its indentation comes first. */
  lemma AtLine(p: string, prefixes: seq<string>, numbers: seq<nat>, x: Place, n: nat, o: Outcome, out: seq<Token>)
    requires TextOk(p, numbers) && LineAt(p, x.at, n) && x.first && x.nest == NOTHING_OPEN && |x.indents| > 0
    requires StepGives(p, prefixes, numbers, x, o, out) && n != x.indents[|x.indents| - 1]
    ensures IndentGives(p, x, x.at + n, o, out) && Width(p[x.at..x.at + n]) == n
  {
    LeadingBlanks(p, x.at, n);
  }

  /** Behind it the name. */
  lemma AtName(p: string, prefixes: seq<string>, numbers: seq<nat>, x: Place, o: Outcome, out: seq<Token>)
    requires TextOk(p, numbers) && LineAt(p, x.at, 0) && !x.first && x.nest == NOTHING_OPEN && |x.indents| > 0
    requires !HasPrefix(p, x.at, prefixes) && StepGives(p, prefixes, numbers, x, o, out)
    ensures o == Yes && out == [Piece(NAME, p, x.at, x.at + 1)]
  {
    LeadingBlanks(p, x.at, 0);
    TheName(p, prefixes, numbers, x.nest, x.at, o, out);
  }

  /** Outside the text of f-strings a step begins with the structure of lines. */
  ghost predicate InCode(p: string, numbers: seq<nat>, x: Place) {
    && TextOk(p, numbers) && x.at < |p| && |x.indents| > 0
    && x.nest.modes != [] && x.nest.modes[|x.nest.modes| - 1] == NORMAL
  }

  /** A row of blanks is an NL token, wherever it stands: it has no indentation. */
  lemma BlankRow(p: string, prefixes: seq<string>, numbers: seq<nat>, x: Place, n: nat, o: Outcome, out: seq<Token>)
    requires InCode(p, numbers, x) && x.at + n < |p| && (x.first || n > 0)
    requires (forall k :: x.at <= k < x.at + n ==> p[k] == ' ') && p[x.at + n] == '\n'
    requires StepGives(p, prefixes, numbers, x, o, out)
    ensures o == Yes && out == [Piece(NL, p, x.at + n, x.at + n + 1)]
  {
    LeadingBlanks(p, x.at, n);
  }

  /** A comment has no indentation either; its line end counts only behind other tokens outside brackets. */
  lemma CommentRow(p: string, prefixes: seq<string>, numbers: seq<nat>, x: Place, n: nat, end: nat, o: Outcome, out: seq<Token>)
    requires InCode(p, numbers, x) && x.at + n < end < |p|
    requires (forall k :: x.at <= k < x.at + n ==> p[k] == ' ') && p[x.at + n] == '#'
    requires (forall k :: x.at + n <= k < end ==> p[k] != '\n') && p[end] == '\n'
    requires StepGives(p, prefixes, numbers, x, o, out)
    ensures o == Yes && |out| == 2 && out[0] == Piece(COMMENT, p, x.at + n, end)
    ensures out[1] == Piece(if x.alone || x.nest.parens > 0 then NL else NEWLINE, p, end, end + 1)
  {
    LeadingBlanks(p, x.at, n);
    var e := End(out[0]);
    assert p[e] == '\n' && p[end] == '\n';
  }

  /** A line end behind other tokens of its row. */
  lemma LineEnd(p: string, prefixes: seq<string>, numbers: seq<nat>, x: Place, o: Outcome, out: seq<Token>)
    requires InCode(p, numbers, x) && p[x.at] == '\n' && !x.first
    requires StepGives(p, prefixes, numbers, x, o, out)
    ensures o == Yes && out == [Piece(if x.nest.parens > 0 then NL else NEWLINE, p, x.at, x.at + 1)]
  {
  }

  /** A backslash before anything but a line end is an error. */
  lemma StrayBackslash(p: string, prefixes: seq<string>, numbers: seq<nat>, x: Place, o: Outcome, out: seq<Token>)
    requires InCode(p, numbers, x) && !x.first && x.at + 1 < |p| && p[x.at] == '\\' && p[x.at + 1] != '\n'
    requires StepGives(p, prefixes, numbers, x, o, out)
    ensures o == Abort
  {
    LeadingBlanks(p, x.at, 0);
  }

  /** Before a line end it joins the row to the next one, whose indentation does not count. */
  lemma EscapedLineEnd(p: string, prefixes: seq<string>, numbers: seq<nat>, x: Place, n: nat, o: Outcome, out: seq<Token>)
    requires InCode(p, numbers, x) && !x.first && x.at + 1 < |p| && p[x.at] == '\\' && p[x.at + 1] == '\n'
    requires LineAt(p, x.at + 2, n) && !HasPrefix(p, x.at + 2 + n, prefixes) && StepGives(p, prefixes, numbers, x, o, out)
    ensures o == Yes && out == [Piece(NAME, p, x.at + 2 + n, x.at + 3 + n)]
  {
    EscapedStart(p, x.at, n);
    BehindBackslash(p, prefixes, numbers, x, x.at + 2 + n, o, out);
    TheName(p, prefixes, numbers, x.nest, x.at + 2 + n, o, out);
  }

  /** A step where a backslash stands first skips the structure of lines. */
  lemma BehindBackslash(p: string, prefixes: seq<string>, numbers: seq<nat>, x: Place, k: nat, o: Outcome, out: seq<Token>)
    requires InCode(p, numbers, x) && !x.first && p[x.at] == '\\' && Indentation(p, x.at) == x.at && k <= |p|
    requires StepGives(p, prefixes, numbers, x, o, out) && WordStart(p, x.at) == Some(k)
    ensures WordGives(p, prefixes, numbers, x.nest, k, o, out)
  {
    assert LineGives(p, x, No, []);
  }

  lemma EscapedStart(p: string, i: nat, n: nat)
    requires i + 1 < |p| && p[i] == '\\' && p[i + 1] == '\n' && LineAt(p, i + 2, n)
    ensures WordStart(p, i) == Some(i + 2 + n) && Indentation(p, i) == i
  {
    LeadingBlanks(p, i, 0);
    LeadingBlanks(p, i + 2, n);
  }

  /** The tokens of the first line. */
  function FirstLine(p: string, n: nat): seq<Token>
    requires 0 < n && n + 2 <= |p|
  {
    [Piece(INDENT, p, 0, n), Piece(NAME, p, n, n + 1), Piece(NEWLINE, p, n + 1, n + 2)]
  }

  /** The place behind the first `k` tokens of that line. */
  function Stop(n: nat, k: nat): Place {
    if k == 0 then Place(0, true, true, NOTHING_OPEN, [0])
    else if k == 1 then Place(n, false, false, NOTHING_OPEN, [0, n])
    else if k == 2 then Place(n + 1, false, false, NOTHING_OPEN, [0, n])
    else Place(n + 2, true, true, NOTHING_OPEN, [0, n])
  }

  /** It is what the tokens tell: of the row, the brackets and the indentations. */
  lemma Places(p: string, n: nat, k: nat)
    requires LineAt(p, 0, n) && 0 < n && k <= 3
    ensures var ts := FirstLine(p, n)[..k]; PlaceOf(p, ts, LastEnd(ts)) == Stop(n, k)
  {
    Untouched(p, n, k);
    Opened(p, n, k);
    var ts := FirstLine(p, n);
    assert k > 0 ==> ts[..k][k - 1] == ts[k - 1];
  }

  lemma {:induction false} Untouched(p: string, n: nat, k: nat)
    requires 0 < n && n + 2 <= |p| && k <= 3
    ensures Nesting(FirstLine(p, n)[..k]) == Some(NOTHING_OPEN)
  {
    var ts := FirstLine(p, n);
    if k > 0 {
      Untouched(p, n, k - 1);
      assert ts[..k] == ts[..k - 1] + [ts[k - 1]];
      NestingPush(ts[..k - 1], ts[k - 1]);
      NeutralToken(NOTHING_OPEN, ts[k - 1]);
    }
  }

  lemma {:induction false} Opened(p: string, n: nat, k: nat)
    requires LineAt(p, 0, n) && 0 < n && k <= 3
    ensures OpenIndents(FirstLine(p, n)[..k]) == Some(if k == 0 then [] else [n])
  {
    var ts := FirstLine(p, n);
    if k > 0 {
      Opened(p, n, k - 1);
      LeadingBlanks(p, 0, n);
      assert ts[..k][..k - 1] == ts[..k - 1] && ts[..k][k - 1] == ts[k - 1];
      assert [] + [n] == [n];
    }
  }

  /** The lexer has read the tokens `ts` of the program `p`, up to their end. */
  ghost predicate HasRead(lexer: Lexer, p: string, ts: seq<Token>)
    reads lexer
  {
    && lexer.Valid() && lexer.program == p && lexer.prefixes == PREFIXES && TextOk(p, lexer.numbers)
    && lexer.cursor == LastEnd(ts) <= |p| && lexer.emitted == lexer.queue == ts
  }

  /** One step from `x`, with what it pushed. */
  method Forward(lexer: Lexer, ghost p: string, ghost ts: seq<Token>, ghost x: Place) returns (o: Outcome, ghost out: seq<Token>)
    requires HasRead(lexer, p, ts) && x == PlaceOf(p, ts, LastEnd(ts))
    modifies lexer
    ensures |x.indents| > 0 && StepGives(p, lexer.prefixes, lexer.numbers, x, o, out)
    ensures o == Yes ==> out != [] && lexer.queue == ts + out
    ensures o == Yes && out[|out| - 1].kind != ENDMARKER ==> HasRead(lexer, p, ts + out)
  {
    o := lexer.Step();
    out := Since(ts, lexer.emitted);
    assert o == Yes ==> lexer.emitted == ts + out;
  }

  /** The first `k` tokens of the first line were read; `k + 1` will be. */
  method ReadNext(lexer: Lexer, ghost p: string, ghost n: nat, ghost k: nat)
    requires LineAt(p, 0, n) && 0 < n && k < 3 && HasRead(lexer, p, FirstLine(p, n)[..k])
    modifies lexer
    ensures HasRead(lexer, p, FirstLine(p, n)[..k + 1])
  {
    ghost var ts := FirstLine(p, n);
    var o; ghost var out;
    Places(p, n, k);
    o, out := Forward(lexer, p, ts[..k], Stop(n, k));
    NoPrefix(p, n);
    NextToken(p, lexer.prefixes, lexer.numbers, n, k, Stop(n, k), o, out);
    assert ts[..k] + [ts[k]] == ts[..k + 1];
  }

  lemma NextToken(p: string, prefixes: seq<string>, numbers: seq<nat>, n: nat, k: nat, x: Place, o: Outcome, out: seq<Token>)
    requires TextOk(p, numbers) && LineAt(p, 0, n) && 0 < n && k < 3 && x == Stop(n, k)
    requires !HasPrefix(p, n, prefixes) && StepGives(p, prefixes, numbers, x, o, out)
    ensures o == Yes && out == [FirstLine(p, n)[k]]
  {
    if k == 0 {
      AtLine(p, prefixes, numbers, x, n, o, out);
    } else if k == 1 {
      AtName(p, prefixes, numbers, x, o, out);
    } else {
      LineEnd(p, prefixes, numbers, x, o, out);
    }
  }

  /** A new lexer after the first line of a program that begins with `n` blanks and a name. */
  method ReadFirstLine(p: string, n: nat) returns (lexer: Lexer)
    requires LineAt(p, 0, n) && 0 < n && p[|p| - 1] == '\n'
    ensures fresh(lexer) && HasRead(lexer, p, FirstLine(p, n)[..3])
  {
    lexer := new Lexer(p, seq(|p|, _ => 0));
    ReadNext(lexer, p, n, 0);
    ReadNext(lexer, p, n, 1);
    ReadNext(lexer, p, n, 2);
  }

  /** A program of one indented line is an INDENT, the name, the line end, a DEDENT and the end marker. */
  method LexIndented(p: string, n: nat) returns (ts: seq<Token>)
    requires LineAt(p, 0, n) && 0 < n && |p| == n + 2
    ensures ts == FirstLine(p, n) + [Token(DEDENT, |p|, []), Token(ENDMARKER, |p|, [])]
  {
    var lexer := ReadFirstLine(p, n);
    Places(p, n, 3);
    var o; ghost var out;
    o, out := Forward(lexer, p, FirstLine(p, n)[..3], Stop(n, 3));
    AtEnd(p, lexer.prefixes, lexer.numbers, Stop(n, 3), o, out);
    ts := lexer.queue;
  }

  lemma AtEnd(p: string, prefixes: seq<string>, numbers: seq<nat>, x: Place, o: Outcome, out: seq<Token>)
    requires TextOk(p, numbers) && x.at == |p| && |x.indents| == 2 && StepGives(p, prefixes, numbers, x, o, out)
    ensures o == Yes && out == [Token(DEDENT, |p|, []), Token(ENDMARKER, |p|, [])]
  {
    assert Copies(Token(DEDENT, |p|, []), 1) + [Token(ENDMARKER, |p|, [])] == [Token(DEDENT, |p|, []), Token(ENDMARKER, |p|, [])];
  }

  /** A dedent to a level that was never opened: every program that goes from `wide` blanks to fewer, but not to none. */
  method InconsistentDedent(p: string, wide: nat, narrow: nat) returns (o: Outcome)
    requires 0 < narrow < wide && LineAt(p, 0, wide) && LineAt(p, wide + 2, narrow) && p[|p| - 1] == '\n'
    ensures o == Abort
  {
    var lexer := ReadFirstLine(p, wide);
    Places(p, wide, 3);
    ghost var out;
    o, out := Forward(lexer, p, FirstLine(p, wide)[..3], Stop(wide, 3));
    AtNarrow(p, lexer.prefixes, lexer.numbers, Stop(wide, 3), wide, narrow, o, out);
  }

  lemma AtNarrow(p: string, prefixes: seq<string>, numbers: seq<nat>, x: Place, wide: nat, narrow: nat, o: Outcome, out: seq<Token>)
    requires TextOk(p, numbers) && 0 < narrow < wide && LineAt(p, x.at, narrow)
    requires x.first && x.nest == NOTHING_OPEN && x.indents == [0, wide] && StepGives(p, prefixes, numbers, x, o, out)
    ensures o == Abort
  {
    AtLine(p, prefixes, numbers, x, narrow, o, out);
  }

  /** Such programs. */
  lemma IndentedPrograms()
    ensures LineAt("    a\n", 0, 4)
    ensures LineAt("    a\n  a\n", 0, 4) && LineAt("    a\n  a\n", 6, 2)
  {
  }
}
