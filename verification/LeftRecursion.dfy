/**
 Direct left recursion. For a rule `e := e op1 t | e op2 t | ... | t`, growing a seed is the same as reading
 one `t` and then, in a loop, an operator and another `t`, nesting to the left.
 */
module LeftRecursion {
  import opened Tokens
  import opened Grammar
  import opened Reference

  /** The sequences of `e := e op t | ... | t`. */
  function ChainAlts(e: RuleId, ops: seq<Kind>, t: RuleId): Alts {
    if ops == [] then Alt(One(Call(t)), Done)
    else Alt(More(Call(e), More(Tok(ops[0]), One(Call(t)))), ChainAlts(e, ops[1..], t))
  }

  function IndexOf(ops: seq<Kind>, k: Kind): (i: nat)
    ensures i <= |ops|
    ensures i < |ops| <==> k in ops
    ensures i < |ops| ==> ops[i] == k
  {
    if ops == [] || ops[0] == k then 0 else 1 + IndexOf(ops[1..], k)
  }

  ghost predicate IsChain(g: Grammar, e: RuleId, ops: seq<Kind>, t: RuleId) {
    && Wf(g)
    && e in g.cached && t in g.alts && t !in g.nullable
    && g.rank[t] < g.rank[e]
    && g.alts[e] == ChainAlts(e, ops, t)
  }

  /** The loop: as long as an operator and a `t` follow, they extend the tree to the left. */
  ghost function LoopAt(g: Grammar, ts: seq<Token>, e: RuleId, ops: seq<Kind>, t: RuleId, acc: Tree, j: nat): (res: Res<Tree>)
    requires Wf(g) && t in g.alts && j <= |ts|
    ensures res.Ok? && j <= res.pos <= |ts|
    decreases |ts| - j
  {
    if j < |ts| && ts[j].kind in ops && RuleAt(g, ts, t, j + 1).Ok? then
      var right := RuleAt(g, ts, t, j + 1);
      LoopAt(g, ts, e, ops, t, Node(e, IndexOf(ops, ts[j].kind), [acc, Leaf(ts[j]), right.val]), right.pos)
    else
      Ok(acc, j)
  }

  /** No rule matches at the end of the stream. */
  lemma NothingAtEnd(g: Grammar, ts: seq<Token>, r: RuleId)
    requires Wf(g) && r in g.alts
    ensures RuleAt(g, ts, r, |ts|).Fail?
  {
    NoAltAtEnd(g, ts, g.alts[r], 0, Self(r, g.rank[r], |ts|, Fail));
  }

  lemma {:induction false} NoAltAtEnd(g: Grammar, ts: seq<Token>, alts: Alts, index: nat, s: Self)
    requires Within(g, ts, s, |ts|) && s.start == |ts| && AltsOk(g, s.rule, s.rank, alts)
    ensures AltsAt(g, ts, alts, index, s).res.Fail?
  {
    if alts.Alt? {
      assert SeqAt(g, ts, alts.ps, |ts|, s).res.Fail?;
      NoAltAtEnd(g, ts, alts.rest, index + 1, s);
    }
  }

  /** The sequence `op t`. */
  lemma OpThen(g: Grammar, ts: seq<Token>, op: Kind, t: RuleId, p: nat, s: Self)
    requires Within(g, ts, s, p) && t in g.alts
    ensures
      var ps := More(Tok(op), One(Call(t)));
      && SeqWf(g, ps)
      && SeqLeftOk(g, s.rule, s.rank, ps)
      && var o := SeqAt(g, ts, ps, p, s);
      && !o.touched
      && if p < |ts| && ts[p].kind == op && RuleAt(g, ts, t, p + 1).Ok? then
           var right := RuleAt(g, ts, t, p + 1);
           o.res == Ok([Leaf(ts[p]), right.val], right.pos)
         else
           o.res.Fail?
  {
    assert SeqWf(g, One(Call(t)));
    assert LeftOk(g, s.rule, s.rank, Tok(op)) && !Nullable(g, Tok(op));
    if p < |ts| && ts[p].kind == op {
      NothingAtEnd(g, ts, t);
      assert ElemAt(g, ts, Call(t), p + 1, s) == Out(RuleAt(g, ts, t, p + 1), false);
      assert ElemAt(g, ts, Tok(op), p, s) == Out(Ok(Leaf(ts[p]), p + 1), false);
      var o := SeqAt(g, ts, One(Call(t)), p + 1, s);
      if o.res.Ok? {
        assert [Leaf(ts[p])] + o.res.val == [Leaf(ts[p]), o.res.val[0]];
      }
    }
  }

  /** A sequence that begins with `e` itself, on the seed of `e`. */
  lemma SeedThen(g: Grammar, ts: seq<Token>, e: RuleId, tail: Pats, s: Self)
    requires Wf(g) && e in g.cached && SeqWf(g, tail) && SeqLeftOk(g, e, s.rank, tail)
    requires SelfOk(g, |ts|, s) && s.rule == e && s.start < |ts|
    ensures
      var ps := More(Call(e), tail);
      && SeqWf(g, ps) && SeqLeftOk(g, e, s.rank, ps)
      && var o := SeqAt(g, ts, ps, s.start, s);
      && o.touched
      && if s.seed.Ok? && SeqAt(g, ts, tail, s.seed.pos, s).res.Ok? then
           var rest := SeqAt(g, ts, tail, s.seed.pos, s).res;
           o.res == Ok([s.seed.val] + rest.val, rest.pos)
         else
           o.res.Fail?
  {
    assert LeftOk(g, e, s.rank, Call(e));
    assert ElemAt(g, ts, Call(e), s.start, s) == Out(s.seed, true);
  }

  /** The seed of `e` can be extended by `op t`. */
  ghost predicate Extends(g: Grammar, ts: seq<Token>, op: Kind, t: RuleId, seed: Res<Tree>)
    requires Wf(g) && t in g.alts
  {
    seed.Ok? && seed.pos < |ts| && ts[seed.pos].kind == op && RuleAt(g, ts, t, seed.pos + 1).Ok?
  }

  /** One sequence `e op t`, on a seed that it extends. */
  lemma ChainSeqExtends(g: Grammar, ts: seq<Token>, e: RuleId, op: Kind, t: RuleId, s: Self)
    requires Wf(g) && e in g.cached && t in g.alts
    requires SelfOk(g, |ts|, s) && s.rule == e && s.start < |ts| && Extends(g, ts, op, t, s.seed)
    ensures
      var ps := More(Call(e), More(Tok(op), One(Call(t))));
      && SeqWf(g, ps) && SeqLeftOk(g, e, s.rank, ps)
      && var o, right := SeqAt(g, ts, ps, s.start, s), RuleAt(g, ts, t, s.seed.pos + 1);
      o.touched && o.res == Ok([s.seed.val, Leaf(ts[s.seed.pos]), right.val], right.pos)
  {
    var tail := More(Tok(op), One(Call(t)));
    OpThen(g, ts, op, t, s.seed.pos, s);
    SeedThen(g, ts, e, tail, s);
    Prepended(s.seed, SeqAt(g, ts, tail, s.seed.pos, s).res);
  }

  /** One sequence `e op t`, on a seed that it does not extend. */
  lemma ChainSeqFails(g: Grammar, ts: seq<Token>, e: RuleId, op: Kind, t: RuleId, s: Self)
    requires Wf(g) && e in g.cached && t in g.alts
    requires SelfOk(g, |ts|, s) && s.rule == e && s.start < |ts| && !Extends(g, ts, op, t, s.seed)
    ensures
      var ps := More(Call(e), More(Tok(op), One(Call(t))));
      && SeqWf(g, ps) && SeqLeftOk(g, e, s.rank, ps)
      && SeqAt(g, ts, ps, s.start, s) == Out(Fail, true)
  {
    OpThen(g, ts, op, t, if s.seed.Ok? then s.seed.pos else s.start, s);
    SeedThen(g, ts, e, More(Tok(op), One(Call(t))), s);
  }

  /** Three values in a row. */
  lemma Prepended(seed: Res<Tree>, rest: Res<seq<Tree>>)
    ensures seed.Ok? && rest.Ok? && |rest.val| == 2 ==> [seed.val] + rest.val == [seed.val, rest.val[0], rest.val[1]]
  {
  }

  /** The body of `e` on a seed: extend the seed if an operator and a `t` follow it, else read a lone `t`. */
  lemma {:induction false} ChainBody(g: Grammar, ts: seq<Token>, e: RuleId, ops: seq<Kind>, t: RuleId, index: nat, s: Self)
    requires Wf(g) && e in g.cached && t in g.alts && g.rank[t] < g.rank[e]
    requires SelfOk(g, |ts|, s) && s.rule == e && s.start < |ts|
    requires AltsOk(g, e, s.rank, ChainAlts(e, ops, t))
    ensures
      var o := AltsAt(g, ts, ChainAlts(e, ops, t), index, s);
      && o.touched == (ops != [])
      && if s.seed.Ok? && s.seed.pos < |ts| && ts[s.seed.pos].kind in ops && RuleAt(g, ts, t, s.seed.pos + 1).Ok? then
           var op := ts[s.seed.pos];
           var right := RuleAt(g, ts, t, s.seed.pos + 1);
           o.res == Ok(Node(e, index + IndexOf(ops, op.kind), [s.seed.val, Leaf(op), right.val]), right.pos)
         else
           var lone := RuleAt(g, ts, t, s.start);
           o.res == if lone.Ok? then Ok(Node(e, index + |ops|, [lone.val]), lone.pos) else Fail
    decreases |ops|
  {
    if ops == [] {
      assert ElemAt(g, ts, Call(t), s.start, s) == Out(RuleAt(g, ts, t, s.start), false);
      assert AltsAt(g, ts, Done, index + 1, s) == Out(Fail, false);
    } else {
      if Extends(g, ts, ops[0], t, s.seed) {
        ChainSeqExtends(g, ts, e, ops[0], t, s);
      } else {
        ChainSeqFails(g, ts, e, ops[0], t, s);
      }
      ChainBody(g, ts, e, ops[1..], t, index + 1, s);
    }
  }

  lemma {:induction false} ChainGrow(g: Grammar, ts: seq<Token>, e: RuleId, ops: seq<Kind>, t: RuleId, i: nat, seed: Res<Tree>)
    requires IsChain(g, e, ops, t) && i < |ts|
    requires seed.Ok? && i < seed.pos <= |ts|
    requires RuleAt(g, ts, t, i).Ok? && RuleAt(g, ts, t, i).pos <= seed.pos
    ensures GrowAt(g, ts, e, i, seed) == LoopAt(g, ts, e, ops, t, seed.val, seed.pos)
    decreases |ts| - seed.pos
  {
    ChainBody(g, ts, e, ops, t, 0, Self(e, g.rank[e], i, seed));
    var next := BodyAt(g, ts, e, i, seed).res;
    if next.Ok? && seed.pos < next.pos {
      ChainGrow(g, ts, e, ops, t, i, next);
    }
  }

  /** Seed growing returns the left-nested reading of the longest `t (op t)*`. */
  lemma GrowingIsLooping(g: Grammar, ts: seq<Token>, e: RuleId, ops: seq<Kind>, t: RuleId, i: nat)
    requires IsChain(g, e, ops, t) && i <= |ts|
    ensures
      var first := RuleAt(g, ts, t, i);
      RuleAt(g, ts, e, i) ==
        if first.Fail? then Fail else LoopAt(g, ts, e, ops, t, Node(e, |ops|, [first.val]), first.pos)
  {
    if i == |ts| {
      NothingAtEnd(g, ts, e);
      NothingAtEnd(g, ts, t);
    } else {
      ChainBody(g, ts, e, ops, t, 0, Self(e, g.rank[e], i, Fail));
      var first := RuleAt(g, ts, t, i);
      if first.Ok? {
        var seed: Res<Tree> := Ok(Node(e, |ops|, [first.val]), first.pos);
        if ops == [] {
          assert BodyAt(g, ts, e, i, Fail) == Out(seed, false);
        } else {
          ChainGrow(g, ts, e, ops, t, i, seed);
        }
      }
    }
  }

  /**
   A rule fails although its body matches exactly if it is cached, the body consulted the rule's own entry, and what
   it matched is empty. A rule that cannot match the empty sequence never does.
   */
  lemma EmptySeedFails(g: Grammar, ts: seq<Token>, r: RuleId, i: nat)
    requires Wf(g) && r in g.alts && i <= |ts|
    ensures
      var o := BodyAt(g, ts, r, i, Fail);
      && (RuleAt(g, ts, r, i).Ok? <==> o.res.Ok? && !(r in g.cached && o.touched && o.res.pos == i))
      && (r !in g.nullable ==> (RuleAt(g, ts, r, i).Ok? <==> o.res.Ok?))
  {
  }

  /** The grammar `E := E?`. */
  function OptionalSelf(): Grammar {
    Grammar(map[0 := Alt(One(Opt(One(Call(0)))), Done)], {0}, {0}, map[0 := 0], 1)
  }

  /** Its only rule fails on every token, although its body matches. */
  lemma OptionalSelfFails(ts: seq<Token>, i: nat)
    requires i < |ts|
    ensures
      var g := OptionalSelf();
      Wf(g) && BodyAt(g, ts, 0, i, Fail) == Out(Ok(Node(0, 0, [Absent]), i), true) && RuleAt(g, ts, 0, i).Fail?
  {
    var g, s := OptionalSelf(), Self(0, 0, i, Fail);
    var inner, outer := One(Call(0)), One(Opt(One(Call(0))));
    assert SeqWf(g, inner) && LeftOk(g, 0, 0, Call(0)) && SeqLeftOk(g, 0, 0, inner);
    assert SeqWf(g, outer) && SeqLeftOk(g, 0, 0, outer) && AltsOk(g, 0, 0, Done);
    assert AltsOk(g, 0, 0, g.alts[0]);
    assert ElemAt(g, ts, Call(0), i, s) == Out(Fail, true);
    assert SeqAt(g, ts, inner, i, s) == Out(Fail, true);
    assert ElemAt(g, ts, Opt(inner), i, s) == Out(Ok(Absent, i), true);
    assert SeqAt(g, ts, outer, i, s) == Out(Ok([Absent], i), true);
  }
}
