/** Printing expressions with the parentheses their precedence needs, and reading them back. */
module Printing {
  import opened Options
  import opened Tokens
  import opened Grammar
  import opened Reference
  import opened LeftRecursion
  import opened Operators
  import opened Engine

  /** A printed token; the spelling of an operator is fixed by its kind. */
  datatype Word = Mark(kind: Kind) | Text(kind: Kind, text: string)

  predicate Says(t: Token, w: Word) {
    t.kind == w.kind && (w.Text? ==> t.text == w.text)
  }

  function Precedence(e: Expr): (level: RuleId)
    ensures 0 <= level <= ATOM
  {
    match e
    case Atom(_, _) => ATOM
    case Unary(_, _) => FACTOR
    case Binary(op, _, _) => LevelOf(op)
  }

  /** Atoms are numbers and names that are not reserved. */
  predicate Writable(reserved: set<string>, e: Expr) {
    match e
    case Atom(kind, text) => kind == NUMBER || (kind == NAME && text !in reserved)
    case Unary(_, x) => Writable(reserved, x)
    case Binary(_, l, r) => Writable(reserved, l) && Writable(reserved, r)
  }

  /** The words of `e` where a rule of level `level` is expected. */
  function Print(e: Expr, level: RuleId): (ws: seq<Word>)
    requires 0 <= level <= ATOM
    ensures |ws| > 0
    decreases e, if Precedence(e) < level then 1 else 0
  {
    if Precedence(e) < level then [Word.Mark(LPAREN)] + Print(e, BITWISE_OR) + [Word.Mark(RPAREN)]
    else match e
      case Atom(kind, text) => [Text(kind, text)]
      case Unary(op, x) => [Word.Mark(UnarySymbol(op))] + Print(x, FACTOR)
      case Binary(op, l, r) =>
        if op == Pow then Print(l, ATOM) + [Word.Mark(DOUBLESTAR)] + Print(r, FACTOR)
        else Print(l, LevelOf(op)) + [Word.Mark(Symbol(op))] + Print(r, LevelOf(op) + 1)
  }

  /** The tokens from `i` on spell `ws`, wherever they lie in the program. */
  ghost predicate Spells(ts: seq<Token>, i: nat, ws: seq<Word>) {
    i + |ws| <= |ts| && forall k :: 0 <= k < |ws| ==> Says(ts[i + k], ws[k])
  }

  lemma Split(ts: seq<Token>, i: nat, a: seq<Word>, b: seq<Word>)
    requires Spells(ts, i, a + b)
    ensures Spells(ts, i, a) && Spells(ts, i + |a|, b)
  {
    forall k | 0 <= k < |a|
      ensures Says(ts[i + k], a[k])
    {
      assert (a + b)[k] == a[k];
    }
    forall k | 0 <= k < |b|
      ensures Says(ts[i + |a| + k], b[k])
    {
      assert (a + b)[|a| + k] == b[k];
    }
  }

  lemma Split3(ts: seq<Token>, i: nat, a: seq<Word>, w: Word, b: seq<Word>)
    requires Spells(ts, i, a + [w] + b)
    ensures Spells(ts, i, a) && Spells(ts, i + |a| + 1, b)
    ensures i + |a| < |ts| && Says(ts[i + |a|], w)
  {
    Split(ts, i, a + [w], b);
    Split(ts, i, a, [w]);
    assert Says(ts[i + |a| + 0], [w][0]);
  }

  ghost predicate Stops(ts: seq<Token>, j: nat, level: RuleId) {
    j < |ts| ==> Binds(ts[j].kind) <= level
  }

  /** Nothing of the level follows, so the chain ends. */
  lemma ChainStops(reserved: set<string>, ts: seq<Token>, level: RuleId, e: Expr, j: nat)
    requires 0 <= level < 6 && j <= |ts| && Stops(ts, j, level - 1)
    ensures Chain(reserved, ts, level, e, j) == Ok(e, j)
  {
  }

  /** What the descent of a level makes of an expression ending at `j`. */
  function Read(reserved: set<string>, ts: seq<Token>, level: RuleId, e: Expr, j: nat): Res<Expr>
    requires 0 <= level <= ATOM && j <= |ts|
  {
    if level < 6 then Chain(reserved, ts, level, e, j) else Ok(e, j)
  }

  /** From an atom up to a looser level. */
  lemma {:induction false} Climb(reserved: set<string>, ts: seq<Token>, level: RuleId, i: nat, e: Expr, j: nat)
    requires 0 <= level <= ATOM && i < |ts| && j <= |ts|
    requires !IsUnary(ts[i].kind) && Descent(reserved, ts, ATOM, i) == Ok(e, j)
    requires Stops(ts, j, level)
    ensures Descent(reserved, ts, level, i) == Read(reserved, ts, level, e, j)
    decreases ATOM - level
  {
    if level < ATOM {
      Climb(reserved, ts, level + 1, i, e, j);
      if level + 1 < 6 {
        ChainStops(reserved, ts, level + 1, e, j);
      }
    }
  }

  /** A printed expression of high precedence does not begin with a unary operator. */
  lemma {:induction false} NoUnaryFirst(reserved: set<string>, e: Expr, level: RuleId)
    requires POWER <= level <= ATOM && Writable(reserved, e)
    ensures !IsUnary(Print(e, level)[0].kind)
    decreases e, ATOM - level
  {
    if Precedence(e) >= level && e.Binary? {
      NoUnaryFirst(reserved, e.lhs, ATOM);
    }
  }

  /** Both sides of a left-associative operator are read, so their chain is. */
  lemma BinaryStep(reserved: set<string>, ts: seq<Token>, op: BinaryOp, level: RuleId, l: Expr, r: Expr, i: nat, k: nat, j: nat)
    requires op != Pow && level == LevelOf(op) && i <= k < j <= |ts| && ts[k].kind == Symbol(op)
    requires Stops(ts, j, level)
    requires Descent(reserved, ts, level, i) == Chain(reserved, ts, level, l, k)
    requires Descent(reserved, ts, level + 1, k + 1) == Read(reserved, ts, level + 1, r, j)
    ensures Descent(reserved, ts, level, i) == Chain(reserved, ts, level, Binary(op, l, r), j)
  {
    SymbolLevel(op);
    if level + 1 < 6 {
      ChainStops(reserved, ts, level + 1, r, j);
    }
  }

  /** An expression that a tighter level reads, and nothing of that level follows. */
  lemma LooserStep(reserved: set<string>, ts: seq<Token>, e: Expr, level: RuleId, i: nat, j: nat)
    requires 0 <= level < ATOM && i < |ts| && j <= |ts| && Stops(ts, j, level)
    requires Descent(reserved, ts, level + 1, i) == Read(reserved, ts, level + 1, e, j)
    requires level == FACTOR ==> !IsUnary(ts[i].kind)
    ensures Descent(reserved, ts, level, i) == Read(reserved, ts, level, e, j)
  {
    if level + 1 < 6 {
      ChainStops(reserved, ts, level + 1, e, j);
    }
  }

  /** A parenthesised expression is an atom, which any level reads. */
  lemma ParenStep(reserved: set<string>, ts: seq<Token>, e: Expr, level: RuleId, i: nat, k: nat)
    requires 0 <= level <= ATOM && i < k < |ts| && ts[i].kind == LPAREN && ts[k].kind == RPAREN
    requires Descent(reserved, ts, BITWISE_OR, i + 1) == Read(reserved, ts, BITWISE_OR, e, k)
    requires Stops(ts, k + 1, level)
    ensures Descent(reserved, ts, level, i) == Read(reserved, ts, level, e, k + 1)
  {
    ChainStops(reserved, ts, BITWISE_OR, e, k);
    assert Descent(reserved, ts, ATOM, i) == Ok(e, k + 1);
    Climb(reserved, ts, level, i, e, k + 1);
  }

  lemma UnaryStep(reserved: set<string>, ts: seq<Token>, op: UnaryOp, x: Expr, i: nat, j: nat)
    requires i < |ts| && ts[i].kind == UnarySymbol(op)
    requires Descent(reserved, ts, FACTOR, i + 1) == Ok(x, j)
    ensures Descent(reserved, ts, FACTOR, i) == Ok(Unary(op, x), j)
  {
  }

  lemma PowerStep(reserved: set<string>, ts: seq<Token>, l: Expr, r: Expr, i: nat, k: nat, j: nat)
    requires i <= k < |ts| && ts[k].kind == DOUBLESTAR
    requires Descent(reserved, ts, ATOM, i) == Ok(l, k)
    requires Descent(reserved, ts, FACTOR, k + 1) == Ok(r, j)
    ensures Descent(reserved, ts, POWER, i) == Ok(Binary(Pow, l, r), j)
  {
  }

  /** The tokens from `i` to `j` spell `e` for a rule of level `level`, and nothing that binds tighter follows. */
  ghost predicate Written(reserved: set<string>, ts: seq<Token>, e: Expr, level: RuleId, i: nat, j: nat)
    requires 0 <= level <= ATOM
  {
    && Writable(reserved, e)
    && Spells(ts, i, Print(e, level))
    && j == i + |Print(e, level)|
    && Stops(ts, j, level)
  }

  lemma WrittenPower(reserved: set<string>, ts: seq<Token>, l: Expr, r: Expr, i: nat, j: nat) returns (k: nat)
    requires Written(reserved, ts, Binary(Pow, l, r), POWER, i, j)
    ensures i < k < j <= |ts| && ts[k].kind == DOUBLESTAR
    ensures Written(reserved, ts, l, ATOM, i, k) && Written(reserved, ts, r, FACTOR, k + 1, j)
  {
    k := i + |Print(l, ATOM)|;
    Split3(ts, i, Print(l, ATOM), Word.Mark(DOUBLESTAR), Print(r, FACTOR));
  }

  lemma PrintBinary(op: BinaryOp, l: Expr, r: Expr)
    requires op != Pow
    ensures
      var level := LevelOf(op);
      Print(Binary(op, l, r), level) == Print(l, level) + [Word.Mark(Symbol(op))] + Print(r, level + 1)
  {
  }

  lemma WrittenBinary(reserved: set<string>, ts: seq<Token>, op: BinaryOp, level: RuleId, l: Expr, r: Expr, i: nat, j: nat) returns (k: nat)
    requires op != Pow && level == LevelOf(op) && Written(reserved, ts, Binary(op, l, r), level, i, j)
    ensures i < k < j <= |ts| && ts[k].kind == Symbol(op)
    ensures Written(reserved, ts, l, level, i, k) && Written(reserved, ts, r, level + 1, k + 1, j)
  {
    PrintBinary(op, l, r);
    k := i + |Print(l, level)|;
    Split3(ts, i, Print(l, level), Word.Mark(Symbol(op)), Print(r, level + 1));
    SymbolLevel(op);
  }

  lemma WrittenUnary(reserved: set<string>, ts: seq<Token>, op: UnaryOp, x: Expr, i: nat, j: nat)
    requires Written(reserved, ts, Unary(op, x), FACTOR, i, j)
    ensures i + 1 < j <= |ts| && ts[i].kind == UnarySymbol(op)
    ensures Written(reserved, ts, x, FACTOR, i + 1, j)
  {
    var w := Word.Mark(UnarySymbol(op));
    assert [] + [w] + Print(x, FACTOR) == Print(Unary(op, x), FACTOR);
    Split3(ts, i, [], w, Print(x, FACTOR));
  }

  lemma WrittenParen(reserved: set<string>, ts: seq<Token>, e: Expr, level: RuleId, i: nat, j: nat)
    requires 0 <= level <= ATOM && Precedence(e) < level && Written(reserved, ts, e, level, i, j)
    ensures i + 1 < j <= |ts| && ts[i].kind == LPAREN && ts[j - 1].kind == RPAREN
    ensures Written(reserved, ts, e, BITWISE_OR, i + 1, j - 1) && Stops(ts, j, level)
  {
    var inner := Print(e, BITWISE_OR);
    var open, close := [Word.Mark(LPAREN)], [Word.Mark(RPAREN)];
    Split(ts, i, open + inner, close);
    Split(ts, i, open, inner);
    assert Says(ts[i + 0], open[0]);
    assert Says(ts[j - 1 + 0], close[0]);
  }

  lemma WrittenLooser(reserved: set<string>, ts: seq<Token>, e: Expr, level: RuleId, i: nat, j: nat)
    requires 0 <= level < Precedence(e) && Written(reserved, ts, e, level, i, j)
    ensures i < j <= |ts| && Written(reserved, ts, e, level + 1, i, j)
    ensures level == FACTOR ==> !IsUnary(ts[i].kind)
  {
    assert Print(e, level) == Print(e, level + 1);
    if level == FACTOR {
      NoUnaryFirst(reserved, e, POWER);
      assert Says(ts[i + 0], Print(e, level)[0]);
    }
  }

  /** The descent reads exactly the written expression, and then goes on with the operators of its own level. */
  lemma {:induction false} ReadsWritten(reserved: set<string>, ts: seq<Token>, e: Expr, level: RuleId, i: nat, j: nat)
    requires 0 <= level <= ATOM && Written(reserved, ts, e, level, i, j)
    ensures j <= |ts| && Descent(reserved, ts, level, i) == Read(reserved, ts, level, e, j)
    decreases e, if Precedence(e) < level then 10 else Precedence(e) - level, 1
  {
    if Precedence(e) < level {
      WrittenParen(reserved, ts, e, level, i, j);
      ReadsParen(reserved, ts, e, level, i, j);
    } else if Precedence(e) > level {
      ReadsLooser(reserved, ts, e, level, i, j);
    } else {
      match e
      case Atom(kind, text) => ReadsAtom(reserved, ts, kind, text, i, j);
      case Unary(op, x) => ReadsUnary(reserved, ts, e, i, j);
      case Binary(op, l, r) =>
        if op == Pow {
          ReadsPower(reserved, ts, e, i, j);
        } else {
          ReadsBinary(reserved, ts, e, i, j);
        }
    }
  }

  lemma {:induction false} ReadsParen(reserved: set<string>, ts: seq<Token>, e: Expr, level: RuleId, i: nat, j: nat)
    requires 0 <= level <= ATOM && i + 1 < j <= |ts| && ts[i].kind == LPAREN && ts[j - 1].kind == RPAREN
    requires Written(reserved, ts, e, BITWISE_OR, i + 1, j - 1) && Stops(ts, j, level)
    ensures Descent(reserved, ts, level, i) == Read(reserved, ts, level, e, j)
    decreases e, 10, 0
  {
    ReadsWritten(reserved, ts, e, BITWISE_OR, i + 1, j - 1);
    ParenStep(reserved, ts, e, level, i, j - 1);
  }

  lemma {:induction false} ReadsLooser(reserved: set<string>, ts: seq<Token>, e: Expr, level: RuleId, i: nat, j: nat)
    requires 0 <= level < Precedence(e) && Written(reserved, ts, e, level, i, j)
    ensures j <= |ts| && Descent(reserved, ts, level, i) == Read(reserved, ts, level, e, j)
    decreases e, Precedence(e) - level, 0
  {
    WrittenLooser(reserved, ts, e, level, i, j);
    ReadsWritten(reserved, ts, e, level + 1, i, j);
    LooserStep(reserved, ts, e, level, i, j);
  }

  lemma ReadsAtom(reserved: set<string>, ts: seq<Token>, kind: Kind, text: string, i: nat, j: nat)
    requires Written(reserved, ts, Atom(kind, text), ATOM, i, j)
    ensures j <= |ts| && Descent(reserved, ts, ATOM, i) == Ok(Atom(kind, text), j)
  {
    assert Says(ts[i + 0], Print(Atom(kind, text), ATOM)[0]);
  }

  lemma {:induction false} ReadsUnary(reserved: set<string>, ts: seq<Token>, e: Expr, i: nat, j: nat)
    requires e.Unary? && Written(reserved, ts, e, FACTOR, i, j)
    ensures j <= |ts| && Descent(reserved, ts, FACTOR, i) == Ok(e, j)
    decreases e, 0, 0
  {
    WrittenUnary(reserved, ts, e.uop, e.operand, i, j);
    ReadsWritten(reserved, ts, e.operand, FACTOR, i + 1, j);
    UnaryStep(reserved, ts, e.uop, e.operand, i, j);
  }

  lemma {:induction false} ReadsPower(reserved: set<string>, ts: seq<Token>, e: Expr, i: nat, j: nat)
    requires e.Binary? && e.op == Pow && Written(reserved, ts, e, POWER, i, j)
    ensures j <= |ts| && Descent(reserved, ts, POWER, i) == Ok(e, j)
    decreases e, 0, 0
  {
    var k := WrittenPower(reserved, ts, e.lhs, e.rhs, i, j);
    ReadsWritten(reserved, ts, e.lhs, ATOM, i, k);
    ReadsWritten(reserved, ts, e.rhs, FACTOR, k + 1, j);
    PowerStep(reserved, ts, e.lhs, e.rhs, i, k, j);
  }

  lemma {:induction false} ReadsBinary(reserved: set<string>, ts: seq<Token>, e: Expr, i: nat, j: nat)
    requires e.Binary? && e.op != Pow && Written(reserved, ts, e, LevelOf(e.op), i, j)
    ensures j <= |ts| && Descent(reserved, ts, LevelOf(e.op), i) == Chain(reserved, ts, LevelOf(e.op), e, j)
    decreases e, 0, 0
  {
    var level := LevelOf(e.op);
    var k := WrittenBinary(reserved, ts, e.op, level, e.lhs, e.rhs, i, j);
    ReadsWritten(reserved, ts, e.lhs, level, i, k);
    ReadsWritten(reserved, ts, e.rhs, level + 1, k + 1, j);
    BinaryStep(reserved, ts, e.op, level, e.lhs, e.rhs, i, k, j);
  }

  /** Parsing inverts printing: followed by anything that is no operator, the grammar reads back the same tree. */
  lemma ParsingInvertsPrinting(reserved: set<string>, ts: seq<Token>, e: Expr)
    requires Writable(reserved, e) && Spells(ts, 0, Print(e, BITWISE_OR))
    requires |Print(e, BITWISE_OR)| < |ts| ==> Binds(ts[|Print(e, BITWISE_OR)|].kind) == -1
    ensures Wf(Tower(reserved))
    ensures Meaning(RuleAt(Tower(reserved), ts, BITWISE_OR, 0)) == Ok(e, |Print(e, BITWISE_OR)|)
  {
    TowerWf(reserved);
    ReadsWritten(reserved, ts, e, BITWISE_OR, 0, |Print(e, BITWISE_OR)|);
    ChainStops(reserved, ts, BITWISE_OR, e, |Print(e, BITWISE_OR)|);
    GrammarIsDescent(Tower(reserved), reserved, ts, BITWISE_OR, 0);
  }

  /** Printing is injective: two expressions with the same words are the same expression. */
  lemma PrintingIsInjective(reserved: set<string>, a: Expr, b: Expr)
    requires Writable(reserved, a) && Writable(reserved, b) && Print(a, BITWISE_OR) == Print(b, BITWISE_OR)
    ensures a == b
  {
    var ws := Print(a, BITWISE_OR);
    var ts := seq(|ws|, i requires 0 <= i < |ws| => Token(ws[i].kind, i, if ws[i].Text? then ws[i].text else ""));
    ParsingInvertsPrinting(reserved, ts, a);
    ParsingInvertsPrinting(reserved, ts, b);
  }

  lemma DistinctStarts(ts: seq<Token>, i: nat)
    requires i < |ts| && forall i, j :: 0 <= i < j < |ts| ==> ts[i].start < ts[j].start
    ensures Unique(ts, i)
  {
    forall j | 0 <= j < |ts| && j != i
      ensures !SameToken(ts, i, j)
    {
      assert if i < j then ts[i].start < ts[j].start else ts[j].start < ts[i].start;
    }
  }

  /** A lone rule at the outermost level. */
  lemma LoneRule(g: Grammar, ts: seq<Token>, r: RuleId)
    requires Wf(g) && r in g.alts
    ensures SeqWf(g, One(Call(r)))
    ensures
      var x := RuleAt(g, ts, r, 0);
      ParseAt(g, ts, One(Call(r)), 0) == if x.Ok? then Ok([x.val], x.pos) else Fail
  {
    TopSeqLeftOk(g, NO_RULE, One(Call(r)));
    NothingAtEnd(g, ts, r);
    assert ElemAt(g, ts, Call(r), 0, Self(NO_RULE, g.top, 0, Fail)).res == RuleAt(g, ts, r, 0);
  }

  /** The memoising engine on printed tokens, no two of which share a cache key. */
  method ParsePrinted(reserved: set<string>, ts: seq<Token>, e: Expr) returns (parsed: Expr)
    requires Writable(reserved, e) && Spells(ts, 0, Print(e, BITWISE_OR))
    requires |Print(e, BITWISE_OR)| < |ts| ==> Binds(ts[|Print(e, BITWISE_OR)|].kind) == -1
    requires forall i, j :: 0 <= i < j < |ts| ==> ts[i].start < ts[j].start
    ensures parsed == e
  {
    var g := Tower(reserved);
    ParsingInvertsPrinting(reserved, ts, e);
    forall i | 0 <= i < |ts|
      ensures Unique(ts, i)
    {
      DistinctStarts(ts, i);
    }
    LoneRule(g, ts, BITWISE_OR);
    var r := Run(g, ts, One(Call(BITWISE_OR)));
    parsed := ToExpr(r.value[0]);
  }

  /** A parser that starts with nothing in its cache. */
  method Run(g: Grammar, ts: seq<Token>, ps: Pats) returns (r: Option<seq<Tree>>)
    requires Wf(g) && Benign(g, ts) && SeqWf(g, ps)
    ensures r == ToOption(ParseAt(g, ts, ps, 0))
  {
    var parser := new Parser(g, ts);
    r := parser.Parse(ps);
  }
}
