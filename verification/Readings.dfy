/**
 What the operator grammar makes of short token sequences: each operator token by its name, and how operators bind, for
 all atoms. The grammar reads the tokens; no table of operators has a part in the statements.
 */
module Readings {
  import opened Tokens
  import opened Grammar
  import opened Reference
  import opened Operators
  import opened Printing

  predicate IsAtom(reserved: set<string>, t: Token) {
    t.kind == NUMBER || (t.kind == NAME && t.text !in reserved)
  }

  function AtomOf(t: Token): Expr { Atom(t.kind, t.text) }

  /** The grammar's reading of all of `ts` is `e`. */
  ghost predicate ReadAs(reserved: set<string>, ts: seq<Token>, e: Expr) {
    && Wf(Tower(reserved)) && BITWISE_OR in Tower(reserved).alts
    && Meaning(RuleAt(Tower(reserved), ts, BITWISE_OR, 0)) == Ok(e, |ts|)
  }

  /** The atoms stand at the places `at`. */
  ghost predicate AtomsAt(reserved: set<string>, ts: seq<Token>, at: seq<nat>) {
    forall k :: 0 <= k < |at| ==> at[k] < |ts| && IsAtom(reserved, ts[at[k]])
  }

  lemma Spelt(reserved: set<string>, ts: seq<Token>, e: Expr)
    requires Writable(reserved, e) && |ts| == |Print(e, BITWISE_OR)|
    requires forall k :: 0 <= k < |ts| ==> Says(ts[k], Print(e, BITWISE_OR)[k])
    ensures ReadAs(reserved, ts, e)
  {
    TowerWf(reserved);
    assert Spells(ts, 0, Print(e, BITWISE_OR));
    ParsingInvertsPrinting(reserved, ts, e);
  }

  lemma OneOperator(reserved: set<string>, ts: seq<Token>, op: BinaryOp)
    requires |ts| == 3 && AtomsAt(reserved, ts, [0, 2]) && ts[1].kind == Symbol(op)
    ensures ReadAs(reserved, ts, Binary(op, AtomOf(ts[0]), AtomOf(ts[2])))
  {
    var a, b := AtomOf(ts[0]), AtomOf(ts[2]);
    assert IsAtom(reserved, ts[[0, 2][0]]) && IsAtom(reserved, ts[[0, 2][1]]);
    assert Print(Binary(op, a, b), BITWISE_OR) ==
           [Word.Text(a.kind, a.text)] + [Word.Mark(Symbol(op))] + [Word.Text(b.kind, b.text)];
    Spelt(reserved, ts, Binary(op, a, b));
  }

  /** The token between two atoms gives the operator of its name: bitwise operators. */
  lemma BitwiseByName(reserved: set<string>, ts: seq<Token>)
    requires |ts| == 3 && AtomsAt(reserved, ts, [0, 2])
    ensures ts[1].kind == VBAR ==> ReadAs(reserved, ts, Binary(BitOr, AtomOf(ts[0]), AtomOf(ts[2])))
    ensures ts[1].kind == CIRCUMFLEX ==> ReadAs(reserved, ts, Binary(BitXor, AtomOf(ts[0]), AtomOf(ts[2])))
    ensures ts[1].kind == AMPER ==> ReadAs(reserved, ts, Binary(BitAnd, AtomOf(ts[0]), AtomOf(ts[2])))
  {
    if ts[1].kind == VBAR {
      OneOperator(reserved, ts, BitOr);
    } else if ts[1].kind == CIRCUMFLEX {
      OneOperator(reserved, ts, BitXor);
    } else if ts[1].kind == AMPER {
      OneOperator(reserved, ts, BitAnd);
    }
  }

  /** Shifts. */
  lemma ShiftsByName(reserved: set<string>, ts: seq<Token>)
    requires |ts| == 3 && AtomsAt(reserved, ts, [0, 2])
    ensures ts[1].kind == LEFTSHIFT ==> ReadAs(reserved, ts, Binary(ShiftLeft, AtomOf(ts[0]), AtomOf(ts[2])))
    ensures ts[1].kind == RIGHTSHIFT ==> ReadAs(reserved, ts, Binary(ShiftRight, AtomOf(ts[0]), AtomOf(ts[2])))
  {
    if ts[1].kind == LEFTSHIFT {
      OneOperator(reserved, ts, ShiftLeft);
    } else if ts[1].kind == RIGHTSHIFT {
      OneOperator(reserved, ts, ShiftRight);
    }
  }

  /** Sums. */
  lemma SumsByName(reserved: set<string>, ts: seq<Token>)
    requires |ts| == 3 && AtomsAt(reserved, ts, [0, 2])
    ensures ts[1].kind == PLUS ==> ReadAs(reserved, ts, Binary(Add, AtomOf(ts[0]), AtomOf(ts[2])))
    ensures ts[1].kind == MINUS ==> ReadAs(reserved, ts, Binary(Sub, AtomOf(ts[0]), AtomOf(ts[2])))
  {
    if ts[1].kind == PLUS {
      OneOperator(reserved, ts, Add);
    } else if ts[1].kind == MINUS {
      OneOperator(reserved, ts, Sub);
    }
  }

  /** Products and quotients. */
  lemma TermsByName(reserved: set<string>, ts: seq<Token>)
    requires |ts| == 3 && AtomsAt(reserved, ts, [0, 2])
    ensures ts[1].kind == STAR ==> ReadAs(reserved, ts, Binary(Mul, AtomOf(ts[0]), AtomOf(ts[2])))
    ensures ts[1].kind == SLASH ==> ReadAs(reserved, ts, Binary(Div, AtomOf(ts[0]), AtomOf(ts[2])))
    ensures ts[1].kind == DOUBLESLASH ==> ReadAs(reserved, ts, Binary(FloorDiv, AtomOf(ts[0]), AtomOf(ts[2])))
    ensures ts[1].kind == PERCENT ==> ReadAs(reserved, ts, Binary(Mod, AtomOf(ts[0]), AtomOf(ts[2])))
    ensures ts[1].kind == AT ==> ReadAs(reserved, ts, Binary(MatMul, AtomOf(ts[0]), AtomOf(ts[2])))
  {
    if ts[1].kind == STAR {
      OneOperator(reserved, ts, Mul);
    } else if ts[1].kind == SLASH {
      OneOperator(reserved, ts, Div);
    } else if ts[1].kind == DOUBLESLASH {
      OneOperator(reserved, ts, FloorDiv);
    } else if ts[1].kind == PERCENT {
      OneOperator(reserved, ts, Mod);
    } else if ts[1].kind == AT {
      OneOperator(reserved, ts, MatMul);
    }
  }

  /** Powers. */
  lemma PowerByName(reserved: set<string>, ts: seq<Token>)
    requires |ts| == 3 && AtomsAt(reserved, ts, [0, 2])
    ensures ts[1].kind == DOUBLESTAR ==> ReadAs(reserved, ts, Binary(Pow, AtomOf(ts[0]), AtomOf(ts[2])))
  {
    if ts[1].kind == DOUBLESTAR {
      OneOperator(reserved, ts, Pow);
    }
  }

  lemma OneSign(reserved: set<string>, ts: seq<Token>, op: UnaryOp)
    requires |ts| == 2 && AtomsAt(reserved, ts, [1]) && ts[0].kind == UnarySymbol(op)
    ensures ReadAs(reserved, ts, Unary(op, AtomOf(ts[1])))
  {
    var a := AtomOf(ts[1]);
    assert IsAtom(reserved, ts[[1][0]]);
    assert Print(Unary(op, a), BITWISE_OR) == [Word.Mark(UnarySymbol(op))] + [Word.Text(a.kind, a.text)];
    Spelt(reserved, ts, Unary(op, a));
  }

  /** Each sign before an atom gives the operator of its name. */
  lemma SignsByName(reserved: set<string>, ts: seq<Token>)
    requires |ts| == 2 && AtomsAt(reserved, ts, [1])
    ensures ts[0].kind == PLUS ==> ReadAs(reserved, ts, Unary(Pos, AtomOf(ts[1])))
    ensures ts[0].kind == MINUS ==> ReadAs(reserved, ts, Unary(Neg, AtomOf(ts[1])))
    ensures ts[0].kind == TILDE ==> ReadAs(reserved, ts, Unary(Invert, AtomOf(ts[1])))
  {
    forall op | UnarySymbol(op) == ts[0].kind
      ensures ReadAs(reserved, ts, Unary(op, AtomOf(ts[1])))
    {
      OneSign(reserved, ts, op);
    }
  }

  /** `a s b t c` where the second operator binds tighter. */
  lemma NestsRight(reserved: set<string>, ts: seq<Token>, s: BinaryOp, t: BinaryOp)
    requires |ts| == 5 && AtomsAt(reserved, ts, [0, 2, 4]) && ts[1].kind == Symbol(s) && ts[3].kind == Symbol(t)
    requires LevelOf(s) < LevelOf(t) || (s == Pow && t == Pow)
    ensures ReadAs(reserved, ts, Binary(s, AtomOf(ts[0]), Binary(t, AtomOf(ts[2]), AtomOf(ts[4]))))
  {
    var a, b, c := AtomOf(ts[0]), AtomOf(ts[2]), AtomOf(ts[4]);
    var at := [0, 2, 4];
    assert IsAtom(reserved, ts[at[0]]) && IsAtom(reserved, ts[at[1]]) && IsAtom(reserved, ts[at[2]]);
    RightPrinted(s, t, a, b, c);
    Spelt(reserved, ts, Binary(s, a, Binary(t, b, c)));
  }

  lemma RightPrinted(s: BinaryOp, t: BinaryOp, a: Expr, b: Expr, c: Expr)
    requires a.Atom? && b.Atom? && c.Atom? && (LevelOf(s) < LevelOf(t) || (s == Pow && t == Pow))
    ensures Print(Binary(s, a, Binary(t, b, c)), BITWISE_OR) ==
      [Word.Text(a.kind, a.text), Word.Mark(Symbol(s)), Word.Text(b.kind, b.text), Word.Mark(Symbol(t)),
       Word.Text(c.kind, c.text)]
  {
    var inner := Binary(t, b, c);
    var ws := [Word.Text(b.kind, b.text)] + [Word.Mark(Symbol(t))] + [Word.Text(c.kind, c.text)];
    assert Print(inner, if s == Pow then FACTOR else LevelOf(s) + 1) == ws;
    var words := [Word.Text(a.kind, a.text)] + [Word.Mark(Symbol(s))] + ws;
    assert Print(Binary(s, a, inner), BITWISE_OR) == words;
  }

  /** `a s b t c` where the second operator binds no tighter. */
  lemma NestsLeft(reserved: set<string>, ts: seq<Token>, s: BinaryOp, t: BinaryOp)
    requires |ts| == 5 && AtomsAt(reserved, ts, [0, 2, 4]) && ts[1].kind == Symbol(s) && ts[3].kind == Symbol(t)
    requires LevelOf(t) <= LevelOf(s) && t != Pow
    ensures ReadAs(reserved, ts, Binary(t, Binary(s, AtomOf(ts[0]), AtomOf(ts[2])), AtomOf(ts[4])))
  {
    var a, b, c := AtomOf(ts[0]), AtomOf(ts[2]), AtomOf(ts[4]);
    var at := [0, 2, 4];
    assert IsAtom(reserved, ts[at[0]]) && IsAtom(reserved, ts[at[1]]) && IsAtom(reserved, ts[at[2]]);
    LeftPrinted(s, t, a, b, c);
    Spelt(reserved, ts, Binary(t, Binary(s, a, b), c));
  }

  lemma LeftPrinted(s: BinaryOp, t: BinaryOp, a: Expr, b: Expr, c: Expr)
    requires a.Atom? && b.Atom? && c.Atom? && LevelOf(t) <= LevelOf(s) && t != Pow
    ensures Print(Binary(t, Binary(s, a, b), c), BITWISE_OR) ==
      [Word.Text(a.kind, a.text), Word.Mark(Symbol(s)), Word.Text(b.kind, b.text), Word.Mark(Symbol(t)),
       Word.Text(c.kind, c.text)]
  {
    var inner := Binary(s, a, b);
    var ws := [Word.Text(a.kind, a.text)] + [Word.Mark(Symbol(s))] + [Word.Text(b.kind, b.text)];
    assert Print(inner, LevelOf(t)) == ws;
    var words := ws + [Word.Mark(Symbol(t))] + [Word.Text(c.kind, c.text)];
    assert Print(Binary(t, inner, c), BITWISE_OR) == words;
  }

  /** Adjacent levels: `t` binds tighter than `s`. */
  predicate Tighter(s: BinaryOp, t: BinaryOp) {
    || (s == BitOr && t == BitXor)
    || (s == BitXor && t == BitAnd)
    || (s == BitAnd && (t == ShiftLeft || t == ShiftRight))
    || ((s == ShiftLeft || s == ShiftRight) && (t == Add || t == Sub))
    || ((s == Add || s == Sub) && t in {Mul, Div, FloorDiv, Mod, MatMul})
    || (s in {Mul, Div, FloorDiv, Mod, MatMul} && t == Pow)
  }

  /** Operators of one level. */
  predicate AsTight(s: BinaryOp, t: BinaryOp) {
    || (s == t && s != Pow)
    || (s in {ShiftLeft, ShiftRight} && t in {ShiftLeft, ShiftRight})
    || (s in {Add, Sub} && t in {Add, Sub})
    || (s in {Mul, Div, FloorDiv, Mod, MatMul} && t in {Mul, Div, FloorDiv, Mod, MatMul})
  }

  /** The tighter of two operators takes the atom between them: on its right. */
  lemma TighterOnTheRight(reserved: set<string>, ts: seq<Token>, s: BinaryOp, t: BinaryOp)
    requires |ts| == 5 && AtomsAt(reserved, ts, [0, 2, 4]) && Tighter(s, t)
    requires ts[1].kind == Symbol(s) && ts[3].kind == Symbol(t)
    ensures ReadAs(reserved, ts, Binary(s, AtomOf(ts[0]), Binary(t, AtomOf(ts[2]), AtomOf(ts[4]))))
  {
    NestsRight(reserved, ts, s, t);
  }

  /** On its left. */
  lemma TighterOnTheLeft(reserved: set<string>, ts: seq<Token>, s: BinaryOp, t: BinaryOp)
    requires |ts| == 5 && AtomsAt(reserved, ts, [0, 2, 4]) && Tighter(s, t)
    requires ts[1].kind == Symbol(t) && ts[3].kind == Symbol(s)
    ensures ReadAs(reserved, ts, Binary(s, Binary(t, AtomOf(ts[0]), AtomOf(ts[2])), AtomOf(ts[4])))
  {
    NestsLeft(reserved, ts, t, s);
  }

  /** Operators of one level group from the left. */
  lemma SameLevelFromLeft(reserved: set<string>, ts: seq<Token>, s: BinaryOp, t: BinaryOp)
    requires |ts| == 5 && AtomsAt(reserved, ts, [0, 2, 4]) && AsTight(s, t)
    requires ts[1].kind == Symbol(s) && ts[3].kind == Symbol(t)
    ensures ReadAs(reserved, ts, Binary(t, Binary(s, AtomOf(ts[0]), AtomOf(ts[2])), AtomOf(ts[4])))
  {
    NestsLeft(reserved, ts, s, t);
  }

  /** Powers group from the right. */
  lemma PowersFromRight(reserved: set<string>, ts: seq<Token>)
    requires |ts| == 5 && AtomsAt(reserved, ts, [0, 2, 4]) && ts[1].kind == DOUBLESTAR && ts[3].kind == DOUBLESTAR
    ensures ReadAs(reserved, ts, Binary(Pow, AtomOf(ts[0]), Binary(Pow, AtomOf(ts[2]), AtomOf(ts[4]))))
  {
    NestsRight(reserved, ts, Pow, Pow);
  }

  /** Some such sentences, token by token: `a | b ^ c`. */
  lemma OrOverXor(reserved: set<string>, ts: seq<Token>)
    requires |ts| == 5 && AtomsAt(reserved, ts, [0, 2, 4]) && ts[1].kind == VBAR && ts[3].kind == CIRCUMFLEX
    ensures ReadAs(reserved, ts, Binary(BitOr, AtomOf(ts[0]), Binary(BitXor, AtomOf(ts[2]), AtomOf(ts[4]))))
  {
    NestsRight(reserved, ts, BitOr, BitXor);
  }

  /** `a ^ b & c`. */
  lemma XorOverAnd(reserved: set<string>, ts: seq<Token>)
    requires |ts| == 5 && AtomsAt(reserved, ts, [0, 2, 4]) && ts[1].kind == CIRCUMFLEX && ts[3].kind == AMPER
    ensures ReadAs(reserved, ts, Binary(BitXor, AtomOf(ts[0]), Binary(BitAnd, AtomOf(ts[2]), AtomOf(ts[4]))))
  {
    NestsRight(reserved, ts, BitXor, BitAnd);
  }

  /** `a & b << c`. */
  lemma AndOverShift(reserved: set<string>, ts: seq<Token>)
    requires |ts| == 5 && AtomsAt(reserved, ts, [0, 2, 4]) && ts[1].kind == AMPER && ts[3].kind == LEFTSHIFT
    ensures ReadAs(reserved, ts, Binary(BitAnd, AtomOf(ts[0]), Binary(ShiftLeft, AtomOf(ts[2]), AtomOf(ts[4]))))
  {
    NestsRight(reserved, ts, BitAnd, ShiftLeft);
  }

  /** `a >> b + c`. */
  lemma ShiftOverSum(reserved: set<string>, ts: seq<Token>)
    requires |ts| == 5 && AtomsAt(reserved, ts, [0, 2, 4]) && ts[1].kind == RIGHTSHIFT && ts[3].kind == PLUS
    ensures ReadAs(reserved, ts, Binary(ShiftRight, AtomOf(ts[0]), Binary(Add, AtomOf(ts[2]), AtomOf(ts[4]))))
  {
    NestsRight(reserved, ts, ShiftRight, Add);
  }

  /** `a - b * c`. */
  lemma SumOverProduct(reserved: set<string>, ts: seq<Token>)
    requires |ts| == 5 && AtomsAt(reserved, ts, [0, 2, 4]) && ts[1].kind == MINUS && ts[3].kind == STAR
    ensures ReadAs(reserved, ts, Binary(Sub, AtomOf(ts[0]), Binary(Mul, AtomOf(ts[2]), AtomOf(ts[4]))))
  {
    NestsRight(reserved, ts, Sub, Mul);
  }

  /** `a / b ** c`. */
  lemma ProductOverPower(reserved: set<string>, ts: seq<Token>)
    requires |ts| == 5 && AtomsAt(reserved, ts, [0, 2, 4]) && ts[1].kind == SLASH && ts[3].kind == DOUBLESTAR
    ensures ReadAs(reserved, ts, Binary(Div, AtomOf(ts[0]), Binary(Pow, AtomOf(ts[2]), AtomOf(ts[4]))))
  {
    NestsRight(reserved, ts, Div, Pow);
  }

  /** `a - b - c`, `a // b % c`. */
  lemma LeftSentences(reserved: set<string>, ts: seq<Token>)
    requires |ts| == 5 && AtomsAt(reserved, ts, [0, 2, 4])
    ensures ts[1].kind == MINUS && ts[3].kind == MINUS ==>
      ReadAs(reserved, ts, Binary(Sub, Binary(Sub, AtomOf(ts[0]), AtomOf(ts[2])), AtomOf(ts[4])))
    ensures ts[1].kind == DOUBLESLASH && ts[3].kind == PERCENT ==>
      ReadAs(reserved, ts, Binary(Mod, Binary(FloorDiv, AtomOf(ts[0]), AtomOf(ts[2])), AtomOf(ts[4])))
  {
    if ts[1].kind == MINUS && ts[3].kind == MINUS {
      SameLevelFromLeft(reserved, ts, Sub, Sub);
    } else if ts[1].kind == DOUBLESLASH && ts[3].kind == PERCENT {
      SameLevelFromLeft(reserved, ts, FloorDiv, Mod);
    }
  }

  /** A sign binds looser than the power behind it. */
  lemma SignOfPower(reserved: set<string>, ts: seq<Token>, op: UnaryOp)
    requires |ts| == 4 && AtomsAt(reserved, ts, [1, 3]) && ts[0].kind == UnarySymbol(op) && ts[2].kind == DOUBLESTAR
    ensures ReadAs(reserved, ts, Unary(op, Binary(Pow, AtomOf(ts[1]), AtomOf(ts[3]))))
  {
    var a, b := AtomOf(ts[1]), AtomOf(ts[3]);
    assert IsAtom(reserved, ts[[1, 3][0]]) && IsAtom(reserved, ts[[1, 3][1]]);
    var power := Binary(Pow, a, b);
    var ws := [Word.Text(a.kind, a.text)] + [Word.Mark(DOUBLESTAR)] + [Word.Text(b.kind, b.text)];
    assert Print(power, FACTOR) == ws;
    assert Print(Unary(op, power), BITWISE_OR) == [Word.Mark(UnarySymbol(op))] + ws;
    Spelt(reserved, ts, Unary(op, power));
  }

  /** But tighter than any other operator behind it. */
  lemma SignOfOperand(reserved: set<string>, ts: seq<Token>, op: UnaryOp, s: BinaryOp)
    requires |ts| == 4 && AtomsAt(reserved, ts, [1, 3]) && ts[0].kind == UnarySymbol(op)
    requires s != Pow && ts[2].kind == Symbol(s)
    ensures ReadAs(reserved, ts, Binary(s, Unary(op, AtomOf(ts[1])), AtomOf(ts[3])))
  {
    var a, b := AtomOf(ts[1]), AtomOf(ts[3]);
    assert IsAtom(reserved, ts[[1, 3][0]]) && IsAtom(reserved, ts[[1, 3][1]]);
    var sign := Unary(op, a);
    var ws := [Word.Mark(UnarySymbol(op))] + [Word.Text(a.kind, a.text)];
    assert Print(sign, LevelOf(s)) == ws;
    assert Print(Binary(s, sign, b), BITWISE_OR) == ws + [Word.Mark(Symbol(s))] + [Word.Text(b.kind, b.text)];
    Spelt(reserved, ts, Binary(s, sign, b));
  }

  /** The right side of any operator, `**` among them, may have a sign. */
  lemma SignOnTheRight(reserved: set<string>, ts: seq<Token>, s: BinaryOp, op: UnaryOp)
    requires |ts| == 4 && AtomsAt(reserved, ts, [0, 3]) && ts[1].kind == Symbol(s) && ts[2].kind == UnarySymbol(op)
    ensures ReadAs(reserved, ts, Binary(s, AtomOf(ts[0]), Unary(op, AtomOf(ts[3]))))
  {
    var a, b := AtomOf(ts[0]), AtomOf(ts[3]);
    assert IsAtom(reserved, ts[[0, 3][0]]) && IsAtom(reserved, ts[[0, 3][1]]);
    SignPrinted(s, op, a, b);
    Spelt(reserved, ts, Binary(s, a, Unary(op, b)));
  }

  lemma SignPrinted(s: BinaryOp, op: UnaryOp, a: Expr, b: Expr)
    requires a.Atom? && b.Atom?
    ensures Print(Binary(s, a, Unary(op, b)), BITWISE_OR) ==
      [Word.Text(a.kind, a.text), Word.Mark(Symbol(s)), Word.Mark(UnarySymbol(op)), Word.Text(b.kind, b.text)]
  {
    var ws := [Word.Mark(UnarySymbol(op))] + [Word.Text(b.kind, b.text)];
    assert Print(Unary(op, b), if s == Pow then FACTOR else LevelOf(s) + 1) == ws;
    var words := [Word.Text(a.kind, a.text)] + [Word.Mark(Symbol(s))] + ws;
    assert Print(Binary(s, a, Unary(op, b)), BITWISE_OR) == words;
  }

  /** Parentheses override: `(a s b) t c`, for `t` tighter than `s`. */
  lemma ParensFirst(reserved: set<string>, ts: seq<Token>, s: BinaryOp, t: BinaryOp)
    requires |ts| == 7 && AtomsAt(reserved, ts, [1, 3, 6]) && Tighter(s, t)
    requires ts[0].kind == LPAREN && ts[2].kind == Symbol(s) && ts[4].kind == RPAREN && ts[5].kind == Symbol(t)
    ensures ReadAs(reserved, ts, Binary(t, Binary(s, AtomOf(ts[1]), AtomOf(ts[3])), AtomOf(ts[6])))
  {
    var a, b, c := AtomOf(ts[1]), AtomOf(ts[3]), AtomOf(ts[6]);
    var at := [1, 3, 6];
    assert IsAtom(reserved, ts[at[0]]) && IsAtom(reserved, ts[at[1]]) && IsAtom(reserved, ts[at[2]]);
    ParensPrinted(s, t, a, b, c);
    Spelt(reserved, ts, Binary(t, Binary(s, a, b), c));
  }

  lemma ParensPrinted(s: BinaryOp, t: BinaryOp, a: Expr, b: Expr, c: Expr)
    requires Tighter(s, t) && a.Atom? && b.Atom? && c.Atom?
    ensures Print(Binary(t, Binary(s, a, b), c), BITWISE_OR) ==
      [Word.Mark(LPAREN), Word.Text(a.kind, a.text), Word.Mark(Symbol(s)), Word.Text(b.kind, b.text), Word.Mark(RPAREN),
       Word.Mark(Symbol(t)), Word.Text(c.kind, c.text)]
  {
    var inner := Binary(s, a, b);
    var ws := [Word.Text(a.kind, a.text)] + [Word.Mark(Symbol(s))] + [Word.Text(b.kind, b.text)];
    assert Print(inner, BITWISE_OR) == ws;
    assert Print(inner, if t == Pow then ATOM else LevelOf(t)) == [Word.Mark(LPAREN)] + ws + [Word.Mark(RPAREN)];
    var words := [Word.Mark(LPAREN)] + ws + [Word.Mark(RPAREN)] + [Word.Mark(Symbol(t))] + [Word.Text(c.kind, c.text)];
    assert Print(Binary(t, inner, c), BITWISE_OR) == words;
  }
}
