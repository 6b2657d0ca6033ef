/**
 The operator rules, from `group` to `bitwise_or`, as a grammar of the engine; the tree each derivation
 stands for; and a recursive descent that reads the same.
 */
module Operators {
  import opened Tokens
  import opened Grammar
  import opened Reference
  import opened LeftRecursion

  datatype UnaryOp = Pos | Neg | Invert

  datatype BinaryOp =
    | BitOr | BitXor | BitAnd | ShiftLeft | ShiftRight | Add | Sub | Mul | Div | FloorDiv | Mod | MatMul | Pow

  datatype Expr =
    | Atom(kind: Kind, text: string)
    | Unary(uop: UnaryOp, operand: Expr)
    | Binary(op: BinaryOp, lhs: Expr, rhs: Expr)

  // Rules 0 to 5 are the left-associative levels, loosest first.
  const BITWISE_OR: RuleId := 0
  const FACTOR: RuleId := 6
  const POWER: RuleId := 7
  const ATOM: RuleId := 8
  const GROUP: RuleId := 9

  function UnarySymbol(op: UnaryOp): Kind {
    match op
    case Pos => PLUS
    case Neg => MINUS
    case Invert => TILDE
  }

  function Symbol(op: BinaryOp): Kind {
    match op
    case BitOr => VBAR
    case BitXor => CIRCUMFLEX
    case BitAnd => AMPER
    case ShiftLeft => LEFTSHIFT
    case ShiftRight => RIGHTSHIFT
    case Add => PLUS
    case Sub => MINUS
    case Mul => STAR
    case Div => SLASH
    case FloorDiv => DOUBLESLASH
    case Mod => PERCENT
    case MatMul => AT
    case Pow => DOUBLESTAR
  }

  /** The operators each left-associative rule tries, in the order it tries them. */
  function OpsOf(level: RuleId): (ops: seq<BinaryOp>) {
    if level == 0 then [BitOr]
    else if level == 1 then [BitXor]
    else if level == 2 then [BitAnd]
    else if level == 3 then [ShiftLeft, ShiftRight]
    else if level == 4 then [Add, Sub]
    else if level == 5 then [Mul, Div, FloorDiv, Mod, MatMul]
    else []
  }

  function Symbols(ops: seq<BinaryOp>): (ks: seq<Kind>)
    ensures |ks| == |ops| && forall i :: 0 <= i < |ops| ==> ks[i] == Symbol(ops[i])
  {
    if ops == [] then [] else [Symbol(ops[0])] + Symbols(ops[1..])
  }

  function FactorAlts(): Alts {
    Alt(More(Tok(PLUS), One(Call(FACTOR))),
    Alt(More(Tok(MINUS), One(Call(FACTOR))),
    Alt(More(Tok(TILDE), One(Call(FACTOR))),
    Alt(One(Call(POWER)), Done))))
  }

  function PowerAlts(): Alts {
    Alt(More(Call(ATOM), More(Tok(DOUBLESTAR), One(Call(FACTOR)))),
    Alt(One(Call(ATOM)), Done))
  }

  function AtomAlts(reserved: set<string>): Alts {
    Alt(One(Lit(NAME, reserved, false)),
    Alt(One(Tok(NUMBER)),
    Alt(One(Call(GROUP)), Done)))
  }

  function GroupAlts(): Alts {
    Alt(More(Tok(LPAREN), More(Call(BITWISE_OR), One(Tok(RPAREN)))), Done)
  }

  function AltsOf(reserved: set<string>, r: RuleId): Alts {
    if 0 <= r < 6 then ChainAlts(r, Symbols(OpsOf(r)), r + 1)
    else if r == FACTOR then FactorAlts()
    else if r == POWER then PowerAlts()
    else if r == ATOM then AtomAlts(reserved)
    else GroupAlts()
  }

  /** `reserved` are the words that are not names. */
  function Tower(reserved: set<string>): Grammar {
    Grammar(map r | 0 <= r < 10 && IsRule(r) :: AltsOf(reserved, r),
            set r | 0 <= r < 10 && IsRule(r),
            {},
            map r | 0 <= r < 10 && IsRule(r) :: RankOf(r),
            10)
  }

  predicate IsRule(r: RuleId) {
    0 <= r < 10
  }

  function RankOf(r: RuleId): nat
    requires IsRule(r)
  {
    9 - r
  }

  /** What the lemmas below use of that grammar. */
  ghost predicate IsTower(g: Grammar, reserved: set<string>) {
    && Wf(g)
    && g.nullable == {}
    && forall r :: 0 <= r < 10 ==> r in g.cached && r in g.alts && g.rank[r] == 9 - r && g.alts[r] == AltsOf(reserved, r)
  }

  lemma {:induction false} ChainAltsOk(g: Grammar, e: RuleId, rank: nat, ops: seq<Kind>, t: RuleId)
    requires g.alts.Keys <= g.rank.Keys && e in g.alts && e in g.cached && t in g.alts
    requires g.rank[t] < rank && g.nullable == {}
    ensures AltsOk(g, e, rank, ChainAlts(e, ops, t))
    decreases |ops|
  {
    LoneOk(g, Call(t));
    if ops != [] {
      ChainAltsOk(g, e, rank, ops[1..], t);
      PairOk(g, Tok(ops[0]), Call(t));
      assert !Nullable(g, Call(e));
    }
  }

  lemma LoneOk(g: Grammar, p: Pat)
    ensures SeqWf(g, One(p)) == PatWf(g, p)
    ensures SeqNullable(g, One(p)) == Nullable(g, p)
  {
  }

  lemma PairOk(g: Grammar, p: Pat, q: Pat)
    ensures SeqWf(g, More(p, One(q))) == (PatWf(g, p) && PatWf(g, q))
    ensures SeqNullable(g, More(p, One(q))) == (Nullable(g, p) && Nullable(g, q))
  {
    LoneOk(g, q);
  }

  lemma OtherAltsOk(g: Grammar, reserved: set<string>, r: RuleId)
    requires g.alts.Keys <= g.rank.Keys && g.nullable == {} && 6 <= r < 10
    requires forall q :: 0 <= q < 10 ==> q in g.alts && g.rank[q] == 9 - q
    ensures AltsOk(g, r, 9 - r, AltsOf(reserved, r))
  {
    assert AltsOk(g, r, 9 - r, Done);
    if r == FACTOR {
      LoneOk(g, Call(POWER));
      PairOk(g, Tok(TILDE), Call(FACTOR));
      PairOk(g, Tok(MINUS), Call(FACTOR));
      PairOk(g, Tok(PLUS), Call(FACTOR));
      var a3 := Alt(One(Call(POWER)), Done);
      assert AltsOk(g, r, 3, a3);
      var a2 := Alt(More(Tok(TILDE), One(Call(FACTOR))), a3);
      assert AltsOk(g, r, 3, a2);
      assert AltsOk(g, r, 3, Alt(More(Tok(MINUS), One(Call(FACTOR))), a2));
    } else if r == POWER {
      LoneOk(g, Call(ATOM));
      PairOk(g, Tok(DOUBLESTAR), Call(FACTOR));
      assert !SeqNullable(g, PowerAlts().ps);
      assert AltsOk(g, r, 2, Alt(One(Call(ATOM)), Done));
    } else if r == ATOM {
      LoneOk(g, Call(GROUP));
      LoneOk(g, Tok(NUMBER));
      LoneOk(g, Lit(NAME, reserved, false));
      var a2 := Alt(One(Call(GROUP)), Done);
      assert AltsOk(g, r, 1, a2);
      assert AltsOk(g, r, 1, Alt(One(Tok(NUMBER)), a2));
    } else {
      PairOk(g, Call(BITWISE_OR), Tok(RPAREN));
      assert !SeqNullable(g, GroupAlts().ps);
    }
  }

  lemma TowerWf(reserved: set<string>)
    ensures IsTower(Tower(reserved), reserved)
  {
    var g := Tower(reserved);
    forall r | r in g.alts
      ensures g.rank[r] < g.top && AltsOk(g, r, g.rank[r], g.alts[r])
    {
      if r < 6 {
        ChainAltsOk(g, r, g.rank[r], Symbols(OpsOf(r)), r + 1);
      } else {
        OtherAltsOk(g, reserved, r);
      }
    }
  }

  /** The rule that reads an operator: its level, or POWER for `**`. */
  function LevelOf(op: BinaryOp): (level: RuleId)
    ensures 0 <= level < 6 || level == POWER
    ensures level == POWER <==> op == Pow
  {
    match op
    case BitOr => 0
    case BitXor => 1
    case BitAnd => 2
    case ShiftLeft => 3
    case ShiftRight => 3
    case Add => 4
    case Sub => 4
    case Mul => 5
    case Div => 5
    case FloorDiv => 5
    case Mod => 5
    case MatMul => 5
    case Pow => POWER
  }

  /** How tightly a token would bind to what stands before it. */
  function Binds(k: Kind): (level: int) {
    if k == VBAR then 0
    else if k == CIRCUMFLEX then 1
    else if k == AMPER then 2
    else if k == LEFTSHIFT || k == RIGHTSHIFT then 3
    else if k == PLUS || k == MINUS then 4
    else if k == STAR || k == SLASH || k == DOUBLESLASH || k == PERCENT || k == AT then 5
    else if k == DOUBLESTAR then 8
    else -1
  }

  /** The left-associative operator a token stands for. */
  function OpOf(k: Kind): (op: BinaryOp)
    requires 0 <= Binds(k) < 6
    ensures op != Pow && Symbol(op) == k && LevelOf(op) == Binds(k)
  {
    if k == VBAR then BitOr
    else if k == CIRCUMFLEX then BitXor
    else if k == AMPER then BitAnd
    else if k == LEFTSHIFT then ShiftLeft
    else if k == RIGHTSHIFT then ShiftRight
    else if k == PLUS then Add
    else if k == MINUS then Sub
    else if k == STAR then Mul
    else if k == SLASH then Div
    else if k == DOUBLESLASH then FloorDiv
    else if k == PERCENT then Mod
    else MatMul
  }

  lemma SymbolLevel(op: BinaryOp)
    requires op != Pow
    ensures Binds(Symbol(op)) == LevelOf(op) && OpOf(Symbol(op)) == op
  {
  }

  lemma LevelOps(op: BinaryOp, level: RuleId)
    requires 0 <= level < 6
    ensures op in OpsOf(level) <==> LevelOf(op) == level
  {
  }

  /** The table of a level, looked up by token. */
  lemma Lookup(k: Kind, level: RuleId)
    requires 0 <= level < 6
    ensures
      var ks := Symbols(OpsOf(level));
      && (k in ks <==> Binds(k) == level)
      && (k in ks ==> OpsOf(level)[IndexOf(ks, k)] == OpOf(k))
  {
    var ops := OpsOf(level);
    var ks := Symbols(ops);
    if Binds(k) == level {
      LevelOps(OpOf(k), level);
      var i :| 0 <= i < |ops| && ops[i] == OpOf(k);
      assert ks[i] == k;
    }
    if k in ks {
      var op := ops[IndexOf(ks, k)];
      LevelOps(op, level);
      SymbolLevel(op);
    }
  }

  /** The expression a derivation stands for: what the node-building tail of each rule makes of its parts. */
  function ToExpr(t: Tree): Expr {
    match t
    case Node(r, alt, kids) =>
      if 0 <= r < 6 && |kids| == 3 && alt < |OpsOf(r)| then Binary(OpsOf(r)[alt], ToExpr(kids[0]), ToExpr(kids[2]))
      else if r == FACTOR && alt == 0 && |kids| == 2 then Unary(Pos, ToExpr(kids[1]))
      else if r == FACTOR && alt == 1 && |kids| == 2 then Unary(Neg, ToExpr(kids[1]))
      else if r == FACTOR && alt == 2 && |kids| == 2 then Unary(Invert, ToExpr(kids[1]))
      else if r == POWER && |kids| == 3 then Binary(Pow, ToExpr(kids[0]), ToExpr(kids[2]))
      else if r == GROUP && |kids| == 3 then ToExpr(kids[1])
      else if |kids| == 1 then ToExpr(kids[0])
      else Atom(ENDMARKER, "")
    case Leaf(token) => Atom(token.kind, token.text)
    case _ => Atom(ENDMARKER, "")
  }

  ghost function Meaning(res: Res<Tree>): Res<Expr> {
    if res.Ok? then Ok(ToExpr(res.val), res.pos) else Fail
  }

  predicate IsUnary(k: Kind) {
    k == PLUS || k == MINUS || k == TILDE
  }

  function UnaryOf(k: Kind): UnaryOp
    requires IsUnary(k)
  {
    if k == PLUS then Pos else if k == MINUS then Neg else Invert
  }

  /** Recursive descent by level, with no grammar: how the rules read. */
  function Descent(reserved: set<string>, ts: seq<Token>, level: RuleId, i: nat): (res: Res<Expr>)
    requires 0 <= level <= ATOM && i <= |ts|
    ensures res.Ok? ==> i < res.pos <= |ts|
    decreases |ts| - i, 9 - level
  {
    if level < 6 then
      var first := Descent(reserved, ts, level + 1, i);
      if first.Fail? then Fail else Chain(reserved, ts, level, first.val, first.pos)
    else if i == |ts| then Fail
    else if level == FACTOR then
      if IsUnary(ts[i].kind) then
        var x := Descent(reserved, ts, FACTOR, i + 1);
        if x.Fail? then Fail else Ok(Unary(UnaryOf(ts[i].kind), x.val), x.pos)
      else Descent(reserved, ts, POWER, i)
    else if level == POWER then
      var base := Descent(reserved, ts, ATOM, i);
      if base.Ok? && base.pos < |ts| && ts[base.pos].kind == DOUBLESTAR then
        var x := Descent(reserved, ts, FACTOR, base.pos + 1);
        if x.Fail? then base else Ok(Binary(Pow, base.val, x.val), x.pos)
      else base
    else if ts[i].kind == LPAREN then
      var x := Descent(reserved, ts, BITWISE_OR, i + 1);
      if x.Ok? && x.pos < |ts| && ts[x.pos].kind == RPAREN then Ok(x.val, x.pos + 1) else Fail
    else if ts[i].kind == NUMBER || (ts[i].kind == NAME && ts[i].text !in reserved) then
      Ok(Atom(ts[i].kind, ts[i].text), i + 1)
    else Fail
  }

  /** Operators of one level, from the left. */
  function Chain(reserved: set<string>, ts: seq<Token>, level: RuleId, acc: Expr, j: nat): (res: Res<Expr>)
    requires 0 <= level < 6 && j <= |ts|
    ensures res.Ok? && j <= res.pos <= |ts|
    decreases |ts| - j, 9 - level
  {
    if j == |ts| || Binds(ts[j].kind) != level then Ok(acc, j)
    else
      var x := Descent(reserved, ts, level + 1, j + 1);
      if x.Fail? then Ok(acc, j)
      else Chain(reserved, ts, level, Binary(OpOf(ts[j].kind), acc, x.val), x.pos)
  }

  /** A call at the start of a sequence. */
  lemma LoneCall(g: Grammar, ts: seq<Token>, q: RuleId, s: Self)
    requires Wf(g) && SelfOk(g, |ts|, s) && s.start < |ts| && q in g.alts && g.rank[q] < s.rank && q != s.rule
    ensures
      var x := RuleAt(g, ts, q, s.start);
      SeqAt(g, ts, One(Call(q)), s.start, s) == Out(if x.Ok? then Ok([x.val], x.pos) else Fail, false)
  {
    assert ElemAt(g, ts, Call(q), s.start, s) == Out(RuleAt(g, ts, q, s.start), false);
  }

  lemma LoneToken(g: Grammar, ts: seq<Token>, p: Pat, j: nat, s: Self)
    requires Within(g, ts, s, j) && (p.Tok? || p.Lit?)
    ensures SeqWf(g, One(p)) && SeqLeftOk(g, s.rule, s.rank, One(p))
    ensures SeqAt(g, ts, One(p), j, s) == Out(if j < |ts| && TokenMatches(p, ts[j]) then Ok([Leaf(ts[j])], j + 1) else Fail, false)
  {
    LoneOk(g, p);
    assert LeftOk(g, s.rule, s.rank, p);
    assert ElemAt(g, ts, p, j, s) == Out(if j < |ts| && TokenMatches(p, ts[j]) then Ok(Leaf(ts[j]), j + 1) else Fail, false);
  }

  lemma FactorRule(g: Grammar, reserved: set<string>, ts: seq<Token>, i: nat)
    requires IsTower(g, reserved) && i < |ts|
    ensures
      var x := RuleAt(g, ts, FACTOR, i + 1);
      var y := RuleAt(g, ts, POWER, i);
      RuleAt(g, ts, FACTOR, i) ==
        if ts[i].kind == PLUS && x.Ok? then Ok(Node(FACTOR, 0, [Leaf(ts[i]), x.val]), x.pos)
        else if ts[i].kind == MINUS && x.Ok? then Ok(Node(FACTOR, 1, [Leaf(ts[i]), x.val]), x.pos)
        else if ts[i].kind == TILDE && x.Ok? then Ok(Node(FACTOR, 2, [Leaf(ts[i]), x.val]), x.pos)
        else if y.Ok? then Ok(Node(FACTOR, 3, [y.val]), y.pos)
        else Fail
  {
    var s := Self(FACTOR, g.rank[FACTOR], i, Fail);
    OpThen(g, ts, PLUS, FACTOR, i, s);
    OpThen(g, ts, MINUS, FACTOR, i, s);
    OpThen(g, ts, TILDE, FACTOR, i, s);
    LoneCall(g, ts, POWER, s);
    assert AltsOk(g, FACTOR, s.rank, FactorAlts());
    var a3 := Alt(One(Call(POWER)), Done);
    var a2 := Alt(More(Tok(TILDE), One(Call(FACTOR))), a3);
    var a1 := Alt(More(Tok(MINUS), One(Call(FACTOR))), a2);
    assert AltsOk(g, FACTOR, s.rank, a1) && AltsOk(g, FACTOR, s.rank, a2) && AltsOk(g, FACTOR, s.rank, a3);
    assert AltsAt(g, ts, Done, 4, s) == Out(Fail, false);
    var o3 := AltsAt(g, ts, a3, 3, s);
    assert !o3.touched;
    var o2 := AltsAt(g, ts, a2, 2, s);
    assert !o2.touched;
    var o1 := AltsAt(g, ts, a1, 1, s);
    assert !o1.touched;
    assert BodyAt(g, ts, FACTOR, i, Fail) == AltsAt(g, ts, FactorAlts(), 0, s);
  }

  /** A power, from its base and what follows the `**` after it. */
  ghost function PowerOf(ts: seq<Token>, base: Res<Tree>, x: Res<Tree>): Res<Tree> {
    if base.Fail? then Fail
    else if base.pos < |ts| && ts[base.pos].kind == DOUBLESTAR && x.Ok? then
      Ok(Node(POWER, 0, [base.val, Leaf(ts[base.pos]), x.val]), x.pos)
    else Ok(Node(POWER, 1, [base.val]), base.pos)
  }

  ghost function ExponentAt(g: Grammar, ts: seq<Token>, base: Res<Tree>): Res<Tree>
    requires Wf(g) && FACTOR in g.alts
  {
    if base.Ok? && base.pos < |ts| then RuleAt(g, ts, FACTOR, base.pos + 1) else Fail
  }

  lemma PowerRule(g: Grammar, reserved: set<string>, ts: seq<Token>, i: nat)
    requires IsTower(g, reserved) && i < |ts|
    ensures
      var base := RuleAt(g, ts, ATOM, i);
      RuleAt(g, ts, POWER, i) == PowerOf(ts, base, ExponentAt(g, ts, base))
  {
    var s := Self(POWER, g.rank[POWER], i, Fail);
    var base := RuleAt(g, ts, ATOM, i);
    LoneCall(g, ts, ATOM, s);
    assert AltsOk(g, POWER, s.rank, PowerAlts());
    var a1 := Alt(One(Call(ATOM)), Done);
    assert AltsOk(g, POWER, s.rank, a1);
    assert AltsAt(g, ts, Done, 2, s) == Out(Fail, false);
    var o1 := AltsAt(g, ts, a1, 1, s);
    assert !o1.touched;
    PowerSeq(g, ts, i, s);
    assert BodyAt(g, ts, POWER, i, Fail) == AltsAt(g, ts, PowerAlts(), 0, s);
  }

  /** `atom '**' factor`. */
  lemma PowerSeq(g: Grammar, ts: seq<Token>, i: nat, s: Self)
    requires Wf(g) && SelfOk(g, |ts|, s) && s.start == i < |ts| && s.rule == POWER
    requires ATOM in g.alts && FACTOR in g.alts && g.rank[ATOM] < s.rank
    requires ATOM !in g.nullable
    ensures
      var ps := More(Call(ATOM), More(Tok(DOUBLESTAR), One(Call(FACTOR))));
      && SeqWf(g, ps)
      && SeqLeftOk(g, POWER, s.rank, ps)
      && var o := SeqAt(g, ts, ps, i, s);
      var base := RuleAt(g, ts, ATOM, i);
      && !o.touched
      && if base.Ok? && base.pos < |ts| && ts[base.pos].kind == DOUBLESTAR && RuleAt(g, ts, FACTOR, base.pos + 1).Ok? then
           var x := RuleAt(g, ts, FACTOR, base.pos + 1);
           o.res == Ok([base.val, Leaf(ts[base.pos]), x.val], x.pos)
         else o.res.Fail?
  {
    var tail := More(Tok(DOUBLESTAR), One(Call(FACTOR)));
    assert SeqWf(g, tail.rest) && SeqWf(g, tail);
    var base := RuleAt(g, ts, ATOM, i);
    assert ElemAt(g, ts, Call(ATOM), i, s) == Out(base, false);
    if base.Ok? {
      OpThen(g, ts, DOUBLESTAR, FACTOR, base.pos, s);
      var o := SeqAt(g, ts, tail, base.pos, s);
      if o.res.Ok? {
        assert [base.val] + o.res.val == [base.val, o.res.val[0], o.res.val[1]];
      }
    }
  }

  /** `bitwise_or ')'` after the opening parenthesis. */
  lemma CloseSeq(g: Grammar, ts: seq<Token>, j: nat, s: Self)
    requires Within(g, ts, s, j) && s.start < j && BITWISE_OR in g.alts
    ensures
      var ps := More(Call(BITWISE_OR), One(Tok(RPAREN)));
      && SeqWf(g, ps)
      && var o := SeqAt(g, ts, ps, j, s);
      var x := RuleAt(g, ts, BITWISE_OR, j);
      && !o.touched
      && if x.Ok? && x.pos < |ts| && ts[x.pos].kind == RPAREN then o.res == Ok([x.val, Leaf(ts[x.pos])], x.pos + 1)
         else o.res.Fail?
  {
    assert SeqWf(g, One(Tok(RPAREN)));
    NothingAtEnd(g, ts, BITWISE_OR);
    var x := RuleAt(g, ts, BITWISE_OR, j);
    assert ElemAt(g, ts, Call(BITWISE_OR), j, s) == Out(x, false);
    if x.Ok? {
      LoneToken(g, ts, Tok(RPAREN), x.pos, s);
      if x.pos < |ts| {
        assert [x.val] + [Leaf(ts[x.pos])] == [x.val, Leaf(ts[x.pos])];
      }
    }
  }

  /** `'(' bitwise_or ')'`. */
  lemma GroupSeq(g: Grammar, ts: seq<Token>, i: nat, s: Self)
    requires Wf(g) && SelfOk(g, |ts|, s) && s.start == i < |ts| && BITWISE_OR in g.alts
    ensures
      var ps := More(Tok(LPAREN), More(Call(BITWISE_OR), One(Tok(RPAREN))));
      && SeqWf(g, ps)
      && SeqLeftOk(g, s.rule, s.rank, ps)
      && var o := SeqAt(g, ts, ps, i, s);
      var x := RuleAt(g, ts, BITWISE_OR, i + 1);
      && !o.touched
      && if ts[i].kind == LPAREN && x.Ok? && x.pos < |ts| && ts[x.pos].kind == RPAREN then
           o.res == Ok([Leaf(ts[i]), x.val, Leaf(ts[x.pos])], x.pos + 1)
         else o.res.Fail?
  {
    var rest := More(Call(BITWISE_OR), One(Tok(RPAREN)));
    CloseSeq(g, ts, i + 1, s);
    assert LeftOk(g, s.rule, s.rank, Tok(LPAREN)) && !Nullable(g, Tok(LPAREN));
    if ts[i].kind == LPAREN {
      assert ElemAt(g, ts, Tok(LPAREN), i, s) == Out(Ok(Leaf(ts[i]), i + 1), false);
      var tail := SeqAt(g, ts, rest, i + 1, s);
      if tail.res.Ok? {
        assert [Leaf(ts[i])] + tail.res.val == [Leaf(ts[i]), tail.res.val[0], tail.res.val[1]];
      }
    }
  }

  lemma GroupRule(g: Grammar, reserved: set<string>, ts: seq<Token>, i: nat)
    requires IsTower(g, reserved) && i < |ts|
    ensures
      var x := RuleAt(g, ts, BITWISE_OR, i + 1);
      RuleAt(g, ts, GROUP, i) ==
        if ts[i].kind == LPAREN && x.Ok? && x.pos < |ts| && ts[x.pos].kind == RPAREN then
          Ok(Node(GROUP, 0, [Leaf(ts[i]), x.val, Leaf(ts[x.pos])]), x.pos + 1)
        else Fail
  {
    var s := Self(GROUP, g.rank[GROUP], i, Fail);
    GroupSeq(g, ts, i, s);
    assert AltsOk(g, GROUP, s.rank, GroupAlts());
    assert AltsAt(g, ts, Done, 1, s) == Out(Fail, false);
    assert BodyAt(g, ts, GROUP, i, Fail) == AltsAt(g, ts, GroupAlts(), 0, s);
  }

  lemma AtomRule(g: Grammar, reserved: set<string>, ts: seq<Token>, i: nat)
    requires IsTower(g, reserved) && i < |ts|
    ensures
      var x := RuleAt(g, ts, GROUP, i);
      RuleAt(g, ts, ATOM, i) ==
        if ts[i].kind == NAME && ts[i].text !in reserved then Ok(Node(ATOM, 0, [Leaf(ts[i])]), i + 1)
        else if ts[i].kind == NUMBER then Ok(Node(ATOM, 1, [Leaf(ts[i])]), i + 1)
        else if x.Ok? then Ok(Node(ATOM, 2, [x.val]), x.pos)
        else Fail
  {
    var s := Self(ATOM, g.rank[ATOM], i, Fail);
    LoneCall(g, ts, GROUP, s);
    LoneToken(g, ts, Tok(NUMBER), i, s);
    LoneToken(g, ts, Lit(NAME, reserved, false), i, s);
    assert AltsOk(g, ATOM, s.rank, AtomAlts(reserved));
    var a2 := Alt(One(Call(GROUP)), Done);
    var a1 := Alt(One(Tok(NUMBER)), a2);
    assert AltsOk(g, ATOM, s.rank, a1) && AltsOk(g, ATOM, s.rank, a2);
    assert AltsAt(g, ts, Done, 3, s) == Out(Fail, false);
    var o2 := AltsAt(g, ts, a2, 2, s);
    assert !o2.touched;
    var o1 := AltsAt(g, ts, a1, 1, s);
    assert !o1.touched;
    assert BodyAt(g, ts, ATOM, i, Fail) == AltsAt(g, ts, AtomAlts(reserved), 0, s);
  }

  /** The grammar reads as the descent does. */
  lemma {:induction false} GrammarIsDescent(g: Grammar, reserved: set<string>, ts: seq<Token>, level: RuleId, i: nat)
    requires IsTower(g, reserved) && 0 <= level <= ATOM && i <= |ts|
    ensures Meaning(RuleAt(g, ts, level, i)) == Descent(reserved, ts, level, i)
    decreases |ts| - i, 9 - level
  {
    if level < 6 {
      LevelIsDescent(g, reserved, ts, level, i);
    } else if i == |ts| {
      NothingAtEnd(g, ts, level);
    } else if level == FACTOR {
      FactorIsDescent(g, reserved, ts, i);
    } else if level == POWER {
      PowerIsDescent(g, reserved, ts, i);
    } else {
      AtomIsDescent(g, reserved, ts, i);
    }
  }

  lemma {:induction false} LevelIsDescent(g: Grammar, reserved: set<string>, ts: seq<Token>, level: RuleId, i: nat)
    requires IsTower(g, reserved) && 0 <= level < 6 && i <= |ts|
    ensures Meaning(RuleAt(g, ts, level, i)) == Descent(reserved, ts, level, i)
    decreases |ts| - i, 9 - level, 0
  {
    var ops := Symbols(OpsOf(level));
    assert g.alts[level] == AltsOf(reserved, level);
    GrowingIsLooping(g, ts, level, ops, level + 1, i);
    GrammarIsDescent(g, reserved, ts, level + 1, i);
    var first := RuleAt(g, ts, level + 1, i);
    if first.Ok? {
      var start := Node(level, |ops|, [first.val]);
      LoopIsChain(g, reserved, ts, level, start, first.pos);
      assert ToExpr(start) == ToExpr(first.val);
    }
  }

  lemma {:induction false} PowerIsDescent(g: Grammar, reserved: set<string>, ts: seq<Token>, i: nat)
    requires IsTower(g, reserved) && i < |ts|
    ensures Meaning(RuleAt(g, ts, POWER, i)) == Descent(reserved, ts, POWER, i)
    decreases |ts| - i, 9 - POWER, 0
  {
    PowerRule(g, reserved, ts, i);
    GrammarIsDescent(g, reserved, ts, ATOM, i);
    var base := RuleAt(g, ts, ATOM, i);
    if base.Ok? && base.pos < |ts| {
      GrammarIsDescent(g, reserved, ts, FACTOR, base.pos + 1);
    }
    PowerMeaning(reserved, ts, i, base, ExponentAt(g, ts, base));
  }

  lemma PowerMeaning(reserved: set<string>, ts: seq<Token>, i: nat, base: Res<Tree>, x: Res<Tree>)
    requires i < |ts| && Meaning(base) == Descent(reserved, ts, ATOM, i)
    requires base.Ok? && base.pos < |ts| ==> Meaning(x) == Descent(reserved, ts, FACTOR, base.pos + 1)
    ensures Meaning(PowerOf(ts, base, x)) == Descent(reserved, ts, POWER, i)
  {
  }

  lemma {:induction false} AtomIsDescent(g: Grammar, reserved: set<string>, ts: seq<Token>, i: nat)
    requires IsTower(g, reserved) && i < |ts|
    ensures Meaning(RuleAt(g, ts, ATOM, i)) == Descent(reserved, ts, ATOM, i)
    decreases |ts| - i, 9 - ATOM, 0
  {
    AtomRule(g, reserved, ts, i);
    GroupRule(g, reserved, ts, i);
    GrammarIsDescent(g, reserved, ts, BITWISE_OR, i + 1);
    AtomMeaning(reserved, ts, i, RuleAt(g, ts, BITWISE_OR, i + 1), RuleAt(g, ts, GROUP, i), RuleAt(g, ts, ATOM, i));
  }

  lemma AtomMeaning(reserved: set<string>, ts: seq<Token>, i: nat, x: Res<Tree>, group: Res<Tree>, whole: Res<Tree>)
    requires i < |ts| && Meaning(x) == Descent(reserved, ts, BITWISE_OR, i + 1)
    requires group ==
      if ts[i].kind == LPAREN && x.Ok? && x.pos < |ts| && ts[x.pos].kind == RPAREN then
        Ok(Node(GROUP, 0, [Leaf(ts[i]), x.val, Leaf(ts[x.pos])]), x.pos + 1)
      else Fail
    requires whole ==
      if ts[i].kind == NAME && ts[i].text !in reserved then Ok(Node(ATOM, 0, [Leaf(ts[i])]), i + 1)
      else if ts[i].kind == NUMBER then Ok(Node(ATOM, 1, [Leaf(ts[i])]), i + 1)
      else if group.Ok? then Ok(Node(ATOM, 2, [group.val]), group.pos)
      else Fail
    ensures Meaning(whole) == Descent(reserved, ts, ATOM, i)
  {
    if group.Ok? {
      assert ToExpr(group.val) == ToExpr(x.val);
    }
    assert ToExpr(Leaf(ts[i])) == Atom(ts[i].kind, ts[i].text);
    if whole.Ok? {
      assert ToExpr(whole.val) == ToExpr(whole.val.kids[0]);
    }
  }

  lemma {:induction false} FactorIsDescent(g: Grammar, reserved: set<string>, ts: seq<Token>, i: nat)
    requires IsTower(g, reserved) && i < |ts|
    ensures Meaning(RuleAt(g, ts, FACTOR, i)) == Descent(reserved, ts, FACTOR, i)
    decreases |ts| - i, 9 - FACTOR, 0
  {
    FactorRule(g, reserved, ts, i);
    GrammarIsDescent(g, reserved, ts, FACTOR, i + 1);
    GrammarIsDescent(g, reserved, ts, POWER, i);
  }

  lemma NodeMeaning(level: RuleId, op: Token, l: Tree, r: Tree)
    requires 0 <= level < 6 && Binds(op.kind) == level
    ensures
      ToExpr(Node(level, IndexOf(Symbols(OpsOf(level)), op.kind), [l, Leaf(op), r])) ==
      Binary(OpOf(op.kind), ToExpr(l), ToExpr(r))
  {
    Lookup(op.kind, level);
  }

  lemma {:induction false} LoopIsChain(g: Grammar, reserved: set<string>, ts: seq<Token>, level: RuleId, acc: Tree, j: nat)
    requires IsTower(g, reserved) && 0 <= level < 6 && j <= |ts|
    ensures
      Meaning(LoopAt(g, ts, level, Symbols(OpsOf(level)), level + 1, acc, j)) ==
      Chain(reserved, ts, level, ToExpr(acc), j)
    decreases |ts| - j, 9 - level
  {
    var ops := Symbols(OpsOf(level));
    if j < |ts| {
      Lookup(ts[j].kind, level);
    }
    if j < |ts| && ts[j].kind in ops {
      GrammarIsDescent(g, reserved, ts, level + 1, j + 1);
      var right := RuleAt(g, ts, level + 1, j + 1);
      if right.Ok? {
        var next := Node(level, IndexOf(ops, ts[j].kind), [acc, Leaf(ts[j]), right.val]);
        NodeMeaning(level, ts[j], acc, right.val);
        LoopIsChain(g, reserved, ts, level, next, right.pos);
      }
    }
  }
}
