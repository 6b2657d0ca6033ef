/**
 The meaning of a grammar as inference rules. A judgement says what one piece of a grammar answers at one place; a
 derivation is a tree of judgements, each of which follows from those above it. What can be derived is exactly what the
 cache-free reference computes.
 */
module Derivations {
  import opened Tokens
  import opened Grammar
  import opened Reference

  datatype Judgement =
    | Element(p: Pat, j: nat, s: Self, o: Out<Tree>)
    | Sequence(ps: Pats, j: nat, s: Self, os: Out<seq<Tree>>)
    | Choice(ps: Pats, j: nat, s: Self, o: Out<Tree>)
    | Rounds(ps: Pats, j: nat, s: Self, os: Out<seq<Tree>>)
    | Tail(p: Pat, j: nat, s: Self, os: Out<seq<Tree>>)
    | Alternatives(alts: Alts, index: nat, s: Self, o: Out<Tree>)
    | Growing(r: RuleId, i: nat, seed: Res<Tree>, res: Res<Tree>)
    | Rule(r: RuleId, i: nat, res: Res<Tree>)

  /** The judgement is about a well-formed piece of the grammar, at a place where it may stand. */
  ghost predicate Posed(g: Grammar, ts: seq<Token>, c: Judgement) {
    match c
    case Element(p, j, s, _) => Within(g, ts, s, j) && PatWf(g, p) && (j == s.start ==> LeftOk(g, s.rule, s.rank, p))
    case Sequence(ps, j, s, _) => Within(g, ts, s, j) && SeqWf(g, ps) && (j == s.start ==> SeqLeftOk(g, s.rule, s.rank, ps))
    case Choice(ps, j, s, _) => Within(g, ts, s, j) && SeqWf(g, ps) && (j == s.start ==> OrLeftOk(g, s.rule, s.rank, ps))
    case Rounds(ps, j, s, _) =>
      && Within(g, ts, s, j) && SeqWf(g, ps) && !SeqNullable(g, ps)
      && (j == s.start ==> SeqLeftOk(g, s.rule, s.rank, ps))
    case Tail(p, j, s, _) =>
      && Within(g, ts, s, j) && PatWf(g, p) && p.SepBy?
      && (j == s.start ==> LeftOk(g, s.rule, s.rank, p) && LeftOk(g, s.rule, s.rank, p.sep))
    case Alternatives(alts, _, s, _) => Within(g, ts, s, s.start) && AltsOk(g, s.rule, s.rank, alts)
    case Growing(r, i, seed, _) => Wf(g) && r in g.alts && i <= |ts| && seed.Ok? && i < seed.pos <= |ts|
    case Rule(r, i, _) => Wf(g) && r in g.alts && i <= |ts|
  }

  /** What the reference computes agrees with the judgement. */
  ghost predicate Computed(g: Grammar, ts: seq<Token>, c: Judgement)
    requires Posed(g, ts, c)
  {
    match c
    case Element(p, j, s, o) => ElemAt(g, ts, p, j, s) == o
    case Sequence(ps, j, s, os) => SeqAt(g, ts, ps, j, s) == os
    case Choice(ps, j, s, o) => OrAt(g, ts, ps, j, s) == o
    case Rounds(ps, j, s, os) => ManyAt(g, ts, ps, j, s) == os
    case Tail(p, j, s, os) => SepTailAt(g, ts, p, j, s) == os
    case Alternatives(alts, index, s, o) => AltsAt(g, ts, alts, index, s) == o
    case Growing(r, i, seed, res) => GrowAt(g, ts, r, i, seed) == res
    case Rule(r, i, res) => RuleAt(g, ts, r, i) == res
  }

  // The rules. `ds` are the judgements above the line.

  /** One token that passes a test. */
  predicate TokenFollows(passes: bool, t: Token, j: nat, o: Out<Tree>, ds: seq<Judgement>) {
    ds == [] && !o.touched && if passes then o.res == Ok(Leaf(t), j + 1) else o.res.Fail?
  }

  /** Nothing matches at the end. */
  predicate ElementFollows(g: Grammar, ts: seq<Token>, p: Pat, j: nat, s: Self, o: Out<Tree>, ds: seq<Judgement>)
    requires j <= |ts|
  {
    if j == |ts| then ds == [] && o.res.Fail? && !o.touched
    else match p
      case Tok(kind) => TokenFollows(ts[j].kind == kind, ts[j], j, o, ds)
      case Lit(kind, words, want) => TokenFollows(ts[j].kind == kind && (ts[j].text in words <==> want), ts[j], j, o, ds)
      case Any => TokenFollows(true, ts[j], j, o, ds)
      case Call(q) =>
        if q == s.rule && j == s.start && q in g.cached then ds == [] && o.res == s.seed && o.touched
        else ds == [Rule(q, j, o.res)] && !o.touched
      case Or(ps) => ds == [Choice(ps, j, s, o)]
      case And(x) =>
        // The lookahead succeeds where its operand does, and stays where it is.
        && |ds| == 1 && ds[0].Element? && ds[0] == Element(x, j, s, ds[0].o) && o.touched == ds[0].o.touched
        && (ds[0].o.res.Ok? ==> o.res == Ok(Unit, j)) && (ds[0].o.res.Fail? ==> o.res.Fail?)
      case Not(x) =>
        // And this one where its operand fails.
        && |ds| == 1 && ds[0].Element? && ds[0] == Element(x, j, s, ds[0].o) && o.touched == ds[0].o.touched
        && (ds[0].o.res.Fail? ==> o.res == Ok(Unit, j)) && (ds[0].o.res.Ok? ==> o.res.Fail?)
      case SepBy(item, _) => SeparatedFollows(p, j, s, o, ds)
      case _ => GroupedFollows(p, j, s, o, ds)
  }

  /** Groups, repetitions and options, from what they enclose. */
  predicate GroupedFollows(p: Pat, j: nat, s: Self, o: Out<Tree>, ds: seq<Judgement>)
    requires p.Group? || p.Star? || p.Plus? || p.Opt?
  {
    && |ds| == 1
    && (if p.Star? || p.Plus? then ds[0].Rounds? && ds[0] == Rounds(p.ps, j, s, ds[0].os)
        else ds[0].Sequence? && ds[0] == Sequence(p.ps, j, s, ds[0].os))
    && o.touched == ds[0].os.touched
    && var inner := ds[0].os.res;
      match p
      case Group(_) => if inner.Ok? then o.res == Ok(Tuple(inner.val), inner.pos) else o.res.Fail?
      case Star(_) => inner.Ok? && o.res == Ok(List(inner.val), inner.pos)
      case Plus(_) => inner.Ok? && if inner.val != [] then o.res == Ok(List(inner.val), inner.pos) else o.res.Fail?
      case _ => if inner.Ok? then o.res == Ok(Item(p.ps, inner.val), inner.pos) else o.res == Ok(Absent, j)
  }

  /** A separated list: an item, and what follows it. */
  predicate SeparatedFollows(p: Pat, j: nat, s: Self, o: Out<Tree>, ds: seq<Judgement>)
    requires p.SepBy?
  {
    && 1 <= |ds| <= 2 && ds[0].Element? && ds[0] == Element(p.item, j, s, ds[0].o)
    && if ds[0].o.res.Fail? then |ds| == 1 && o.res.Fail? && o.touched == ds[0].o.touched
       else
         && |ds| == 2 && ds[1].Tail? && ds[1] == Tail(p, ds[0].o.res.pos, s, ds[1].os) && ds[1].os.res.Ok?
         && o.res == Ok(List([ds[0].o.res.val] + ds[1].os.res.val), ds[1].os.res.pos)
         && o.touched == (ds[0].o.touched || ds[1].os.touched)
  }

  /** The elements of a sequence match one after the other. */
  predicate SequenceFollows(ps: Pats, j: nat, s: Self, os: Out<seq<Tree>>, ds: seq<Judgement>) {
    && 1 <= |ds| <= 2 && ds[0].Element? && ds[0] == Element(ps.p, j, s, ds[0].o)
    && if ds[0].o.res.Fail? then |ds| == 1 && os.res.Fail? && os.touched == ds[0].o.touched
       else if ps.One? then |ds| == 1 && os.res == Ok([ds[0].o.res.val], ds[0].o.res.pos) && os.touched == ds[0].o.touched
       else
         && |ds| == 2 && ds[1].Sequence? && ds[1] == Sequence(ps.rest, ds[0].o.res.pos, s, ds[1].os)
         && os.touched == (ds[0].o.touched || ds[1].os.touched)
         && if ds[1].os.res.Fail? then os.res.Fail?
            else os.res == Ok([ds[0].o.res.val] + ds[1].os.res.val, ds[1].os.res.pos)
  }

  /** The first operand that matches; the others are tried only if those before them fail. */
  predicate ChoiceFollows(ps: Pats, j: nat, s: Self, o: Out<Tree>, ds: seq<Judgement>) {
    && 1 <= |ds| <= 2 && ds[0].Element? && ds[0] == Element(ps.p, j, s, ds[0].o)
    && if ds[0].o.res.Ok? || ps.One? then |ds| == 1 && o == ds[0].o
       else
         && |ds| == 2 && ds[1].Choice? && ds[1] == Choice(ps.rest, j, s, ds[1].o)
         && o.res == ds[1].o.res && o.touched == (ds[0].o.touched || ds[1].o.touched)
  }

  /** Rounds until one fails. */
  predicate RoundsFollow(ps: Pats, j: nat, s: Self, os: Out<seq<Tree>>, ds: seq<Judgement>) {
    && 1 <= |ds| <= 2 && ds[0].Sequence? && ds[0] == Sequence(ps, j, s, ds[0].os)
    && if ds[0].os.res.Fail? then |ds| == 1 && os.res == Ok([], j) && os.touched == ds[0].os.touched
       else
         && |ds| == 2 && ds[1].Rounds? && ds[1] == Rounds(ps, ds[0].os.res.pos, s, ds[1].os) && ds[1].os.res.Ok?
         && os.res == Ok([Item(ps, ds[0].os.res.val)] + ds[1].os.res.val, ds[1].os.res.pos)
         && os.touched == (ds[0].os.touched || ds[1].os.touched)
  }

  /** A separator and an item, again and again; a separator without an item is given back. */
  predicate TailFollows(p: Pat, j: nat, s: Self, os: Out<seq<Tree>>, ds: seq<Judgement>)
    requires p.SepBy?
  {
    && 1 <= |ds| <= 3 && ds[0].Element? && ds[0] == Element(p.sep, j, s, ds[0].o)
    && if ds[0].o.res.Fail? then |ds| == 1 && os.res == Ok([], j) && os.touched == ds[0].o.touched
       else
         && 2 <= |ds| && ds[1].Element? && ds[1] == Element(p.item, ds[0].o.res.pos, s, ds[1].o)
         && if ds[1].o.res.Fail? then
              |ds| == 2 && os.res == Ok([], j) && os.touched == (ds[0].o.touched || ds[1].o.touched)
            else
              && |ds| == 3 && ds[2].Tail? && ds[2] == Tail(p, ds[1].o.res.pos, s, ds[2].os) && ds[2].os.res.Ok?
              && os.res == Ok([ds[1].o.res.val] + ds[2].os.res.val, ds[2].os.res.pos)
              && os.touched == (ds[0].o.touched || ds[1].o.touched || ds[2].os.touched)
  }

  /** The first sequence of a rule that matches, by its number. */
  predicate AlternativesFollow(alts: Alts, index: nat, s: Self, o: Out<Tree>, ds: seq<Judgement>) {
    if alts.Done? then ds == [] && o.res.Fail? && !o.touched
    else
      && 1 <= |ds| <= 2 && ds[0].Sequence? && ds[0] == Sequence(alts.ps, s.start, s, ds[0].os)
      && if ds[0].os.res.Ok? then
           |ds| == 1 && o.res == Ok(Node(s.rule, index, ds[0].os.res.val), ds[0].os.res.pos) && o.touched == ds[0].os.touched
         else
           && |ds| == 2 && ds[1].Alternatives? && ds[1] == Alternatives(alts.rest, index + 1, s, ds[1].o)
           && o.res == ds[1].o.res && o.touched == (ds[0].os.touched || ds[1].o.touched)
  }

  /** The body of rule `r` at `i`, with `seed` as the answer to its own call. */
  ghost predicate IsBody(g: Grammar, r: RuleId, i: nat, seed: Res<Tree>, d: Judgement)
    requires r in g.alts && r in g.rank
  {
    d.Alternatives? && d == Alternatives(g.alts[r], 0, Self(r, g.rank[r], i, seed), d.o)
  }

  /** As long as the body gets further with the last result as its seed. */
  ghost predicate GrowingFollows(g: Grammar, r: RuleId, i: nat, seed: Res<Tree>, res: Res<Tree>, ds: seq<Judgement>)
    requires r in g.alts && r in g.rank && seed.Ok?
  {
    && 1 <= |ds| <= 2 && IsBody(g, r, i, seed, ds[0])
    && var next := ds[0].o.res;
      if next.Ok? && seed.pos < next.pos then |ds| == 2 && ds[1] == Growing(r, i, next, res) else |ds| == 1 && res == seed
  }

  /** A rule whose body consulted its own entry grows from what the body matched; from nothing it fails. */
  ghost predicate RuleFollows(g: Grammar, r: RuleId, i: nat, res: Res<Tree>, ds: seq<Judgement>)
    requires r in g.alts && r in g.rank
  {
    && 1 <= |ds| <= 2 && IsBody(g, r, i, Fail, ds[0])
    && var first := ds[0].o;
      if first.res.Ok? && first.touched && r in g.cached then
        if i < first.res.pos then |ds| == 2 && ds[1] == Growing(r, i, first.res, res) else |ds| == 1 && res.Fail?
      else |ds| == 1 && res == first.res
  }

  /** The judgement `c` follows from `ds` by one rule. */
  ghost predicate Follows(g: Grammar, ts: seq<Token>, c: Judgement, ds: seq<Judgement>)
    requires Posed(g, ts, c)
  {
    match c
    case Element(p, j, s, o) => ElementFollows(g, ts, p, j, s, o, ds)
    case Sequence(ps, j, s, os) => SequenceFollows(ps, j, s, os, ds)
    case Choice(ps, j, s, o) => ChoiceFollows(ps, j, s, o, ds)
    case Rounds(ps, j, s, os) => RoundsFollow(ps, j, s, os, ds)
    case Tail(p, j, s, os) => TailFollows(p, j, s, os, ds)
    case Alternatives(alts, index, s, o) => AlternativesFollow(alts, index, s, o, ds)
    case Growing(r, i, seed, res) => GrowingFollows(g, r, i, seed, res, ds)
    case Rule(r, i, res) => RuleFollows(g, r, i, res, ds)
  }

  datatype Derivation =
    | By0(c: Judgement)
    | By1(c: Judgement, d0: Derivation)
    | By2(c: Judgement, d0: Derivation, d1: Derivation)
    | By3(c: Judgement, d0: Derivation, d1: Derivation, d2: Derivation)

  function Above(d: Derivation): seq<Judgement> {
    match d
    case By0(_) => []
    case By1(_, d0) => [d0.c]
    case By2(_, d0, d1) => [d0.c, d1.c]
    case By3(_, d0, d1, d2) => [d0.c, d1.c, d2.c]
  }

  /** Every judgement of the tree follows from those above it. */
  ghost predicate Derives(g: Grammar, ts: seq<Token>, d: Derivation) {
    && Posed(g, ts, d.c)
    && Follows(g, ts, d.c, Above(d))
    && (d.By0? || Derives(g, ts, d.d0))
    && (d.By0? || d.By1? || Derives(g, ts, d.d1))
    && (d.By3? ==> Derives(g, ts, d.d2))
  }

  ghost predicate Agreed(g: Grammar, ts: seq<Token>, ds: seq<Judgement>) {
    forall k :: 0 <= k < |ds| ==> Posed(g, ts, ds[k]) && Computed(g, ts, ds[k])
  }

  lemma GroupedIsSound(g: Grammar, ts: seq<Token>, p: Pat, j: nat, s: Self, o: Out<Tree>, ds: seq<Judgement>)
    requires Posed(g, ts, Element(p, j, s, o)) && j < |ts| && (p.Group? || p.Star? || p.Plus? || p.Opt?)
    requires GroupedFollows(p, j, s, o, ds) && Agreed(g, ts, ds)
    ensures ElemAt(g, ts, p, j, s) == o
  {
    assert Posed(g, ts, ds[0]) && Computed(g, ts, ds[0]);
  }

  lemma SeparatedIsSound(g: Grammar, ts: seq<Token>, p: Pat, j: nat, s: Self, o: Out<Tree>, ds: seq<Judgement>)
    requires Posed(g, ts, Element(p, j, s, o)) && j < |ts| && p.SepBy?
    requires SeparatedFollows(p, j, s, o, ds) && Agreed(g, ts, ds)
    ensures ElemAt(g, ts, p, j, s) == o
  {
    assert Posed(g, ts, ds[0]) && Computed(g, ts, ds[0]);
    if |ds| > 1 {
      assert Posed(g, ts, ds[1]) && Computed(g, ts, ds[1]);
    }
  }

  lemma LookaheadIsSound(g: Grammar, ts: seq<Token>, p: Pat, j: nat, s: Self, o: Out<Tree>, ds: seq<Judgement>)
    requires Posed(g, ts, Element(p, j, s, o)) && j < |ts| && (p.And? || p.Not?)
    requires ElementFollows(g, ts, p, j, s, o, ds) && Agreed(g, ts, ds)
    ensures ElemAt(g, ts, p, j, s) == o
  {
    assert Posed(g, ts, ds[0]) && Computed(g, ts, ds[0]);
  }

  lemma ElementIsSound(g: Grammar, ts: seq<Token>, c: Judgement, ds: seq<Judgement>)
    requires c.Element? && Posed(g, ts, c) && Follows(g, ts, c, ds) && Agreed(g, ts, ds)
    ensures Computed(g, ts, c)
  {
    if |ds| > 0 {
      assert Posed(g, ts, ds[0]) && Computed(g, ts, ds[0]);
    }
    if c.j < |ts| {
      match c.p
      case Group(_) => GroupedIsSound(g, ts, c.p, c.j, c.s, c.o, ds);
      case Star(_) => GroupedIsSound(g, ts, c.p, c.j, c.s, c.o, ds);
      case Plus(_) => GroupedIsSound(g, ts, c.p, c.j, c.s, c.o, ds);
      case Opt(_) => GroupedIsSound(g, ts, c.p, c.j, c.s, c.o, ds);
      case SepBy(_, _) => SeparatedIsSound(g, ts, c.p, c.j, c.s, c.o, ds);
      case And(_) => LookaheadIsSound(g, ts, c.p, c.j, c.s, c.o, ds);
      case Not(_) => LookaheadIsSound(g, ts, c.p, c.j, c.s, c.o, ds);
      case _ =>
    }
  }

  lemma SequenceIsSound(g: Grammar, ts: seq<Token>, c: Judgement, ds: seq<Judgement>)
    requires c.Sequence? && Posed(g, ts, c) && Follows(g, ts, c, ds) && Agreed(g, ts, ds)
    ensures Computed(g, ts, c)
  {
    if |ds| > 0 {
      assert Posed(g, ts, ds[0]) && Computed(g, ts, ds[0]);
    }
    if |ds| > 1 {
      assert Posed(g, ts, ds[1]) && Computed(g, ts, ds[1]);
    }
  }

  lemma ChoiceIsSound(g: Grammar, ts: seq<Token>, c: Judgement, ds: seq<Judgement>)
    requires c.Choice? && Posed(g, ts, c) && Follows(g, ts, c, ds) && Agreed(g, ts, ds)
    ensures Computed(g, ts, c)
  {
    if |ds| > 0 {
      assert Posed(g, ts, ds[0]) && Computed(g, ts, ds[0]);
    }
    if |ds| > 1 {
      assert Posed(g, ts, ds[1]) && Computed(g, ts, ds[1]);
    }
  }

  lemma RoundsAreSound(g: Grammar, ts: seq<Token>, c: Judgement, ds: seq<Judgement>)
    requires c.Rounds? && Posed(g, ts, c) && Follows(g, ts, c, ds) && Agreed(g, ts, ds)
    ensures Computed(g, ts, c)
  {
    if |ds| > 0 {
      assert Posed(g, ts, ds[0]) && Computed(g, ts, ds[0]);
    }
    if |ds| > 1 {
      assert Posed(g, ts, ds[1]) && Computed(g, ts, ds[1]);
    }
  }

  lemma TailIsSound(g: Grammar, ts: seq<Token>, c: Judgement, ds: seq<Judgement>)
    requires c.Tail? && Posed(g, ts, c) && Follows(g, ts, c, ds) && Agreed(g, ts, ds)
    ensures Computed(g, ts, c)
  {
    if |ds| > 2 {
      assert Posed(g, ts, ds[2]) && Computed(g, ts, ds[2]);
    }
    if |ds| > 0 {
      assert Posed(g, ts, ds[0]) && Computed(g, ts, ds[0]);
    }
    if |ds| > 1 {
      assert Posed(g, ts, ds[1]) && Computed(g, ts, ds[1]);
    }
  }

  lemma AlternativesAreSound(g: Grammar, ts: seq<Token>, c: Judgement, ds: seq<Judgement>)
    requires c.Alternatives? && Posed(g, ts, c) && Follows(g, ts, c, ds) && Agreed(g, ts, ds)
    ensures Computed(g, ts, c)
  {
    if |ds| > 0 {
      assert Posed(g, ts, ds[0]) && Computed(g, ts, ds[0]);
    }
    if |ds| > 1 {
      assert Posed(g, ts, ds[1]) && Computed(g, ts, ds[1]);
    }
  }

  lemma GrowingIsSound(g: Grammar, ts: seq<Token>, c: Judgement, ds: seq<Judgement>)
    requires c.Growing? && Posed(g, ts, c) && Follows(g, ts, c, ds) && Agreed(g, ts, ds)
    ensures Computed(g, ts, c)
  {
    if |ds| > 0 {
      assert Posed(g, ts, ds[0]) && Computed(g, ts, ds[0]);
    }
    if |ds| > 1 {
      assert Posed(g, ts, ds[1]) && Computed(g, ts, ds[1]);
    }
  }

  lemma BodyIsSound(g: Grammar, ts: seq<Token>, c: Judgement, ds: seq<Judgement>)
    requires c.Rule? && Posed(g, ts, c) && Follows(g, ts, c, ds) && Agreed(g, ts, ds)
    ensures Computed(g, ts, c)
  {
    if |ds| > 0 {
      assert Posed(g, ts, ds[0]) && Computed(g, ts, ds[0]);
    }
    if |ds| > 1 {
      assert Posed(g, ts, ds[1]) && Computed(g, ts, ds[1]);
    }
  }

  /** One rule leads from what the reference computes to what it computes. */
  lemma RuleIsSound(g: Grammar, ts: seq<Token>, c: Judgement, ds: seq<Judgement>)
    requires Posed(g, ts, c) && Follows(g, ts, c, ds) && Agreed(g, ts, ds)
    ensures Computed(g, ts, c)
  {
    match c
    case Element(_, _, _, _) => ElementIsSound(g, ts, c, ds);
    case Sequence(_, _, _, _) => SequenceIsSound(g, ts, c, ds);
    case Choice(_, _, _, _) => ChoiceIsSound(g, ts, c, ds);
    case Rounds(_, _, _, _) => RoundsAreSound(g, ts, c, ds);
    case Tail(_, _, _, _) => TailIsSound(g, ts, c, ds);
    case Alternatives(_, _, _, _) => AlternativesAreSound(g, ts, c, ds);
    case Growing(_, _, _, _) => GrowingIsSound(g, ts, c, ds);
    case Rule(_, _, _) => BodyIsSound(g, ts, c, ds);
  }

  /** Whatever can be derived is what the reference computes. */
  lemma {:induction false} Sound(g: Grammar, ts: seq<Token>, d: Derivation)
    requires Derives(g, ts, d)
    ensures Posed(g, ts, d.c) && Computed(g, ts, d.c)
    decreases d
  {
    if !d.By0? {
      Sound(g, ts, d.d0);
    }
    if d.By2? || d.By3? {
      Sound(g, ts, d.d1);
    }
    if d.By3? {
      Sound(g, ts, d.d2);
    }
    RuleIsSound(g, ts, d.c, Above(d));
  }

  lemma {:induction false} DeriveElement(g: Grammar, ts: seq<Token>, p: Pat, j: nat, s: Self) returns (d: Derivation)
    requires Within(g, ts, s, j) && PatWf(g, p) && (j == s.start ==> LeftOk(g, s.rule, s.rank, p))
    ensures d.c == Element(p, j, s, ElemAt(g, ts, p, j, s)) && Derives(g, ts, d)
    decreases |ts| - j, RankAt(g, s, j), 0, p, 1
  {
    var c := Element(p, j, s, ElemAt(g, ts, p, j, s));
    if j == |ts| {
      return By0(c);
    }
    match p
    case Tok(_) => d := By0(c);
    case Lit(_, _, _) => d := By0(c);
    case Any => d := By0(c);
    case Call(q) =>
      if q == s.rule && j == s.start && q in g.cached {
        d := By0(c);
      } else {
        var d0 := DeriveRule(g, ts, q, j);
        d := By1(c, d0);
      }
    case Or(ps) =>
      var d0 := DeriveChoice(g, ts, ps, j, s);
      d := By1(c, d0);
    case SepBy(item, _) =>
      var d0 := DeriveElement(g, ts, item, j, s);
      d := By1(c, d0);
      if d0.c.o.res.Ok? {
        var d1 := DeriveTail(g, ts, p, d0.c.o.res.pos, s);
        d := By2(c, d0, d1);
      }
    case And(x) =>
      var d0 := DeriveElement(g, ts, x, j, s);
      d := By1(c, d0);
    case Not(x) =>
      var d0 := DeriveElement(g, ts, x, j, s);
      d := By1(c, d0);
    case _ => d := DeriveGrouped(g, ts, p, j, s);
  }

  lemma {:induction false} DeriveGrouped(g: Grammar, ts: seq<Token>, p: Pat, j: nat, s: Self) returns (d: Derivation)
    requires Within(g, ts, s, j) && PatWf(g, p) && (j == s.start ==> LeftOk(g, s.rule, s.rank, p))
    requires j < |ts| && (p.Group? || p.Star? || p.Plus? || p.Opt?)
    ensures d.c == Element(p, j, s, ElemAt(g, ts, p, j, s)) && Derives(g, ts, d)
    decreases |ts| - j, RankAt(g, s, j), 0, p, 0
  {
    var d0;
    if p.Star? || p.Plus? {
      d0 := DeriveRounds(g, ts, p.ps, j, s);
    } else {
      d0 := DeriveSequence(g, ts, p.ps, j, s);
    }
    d := By1(Element(p, j, s, ElemAt(g, ts, p, j, s)), d0);
  }

  lemma {:induction false} DeriveSequence(g: Grammar, ts: seq<Token>, ps: Pats, j: nat, s: Self) returns (d: Derivation)
    requires Within(g, ts, s, j) && SeqWf(g, ps) && (j == s.start ==> SeqLeftOk(g, s.rule, s.rank, ps))
    ensures d.c == Sequence(ps, j, s, SeqAt(g, ts, ps, j, s)) && Derives(g, ts, d)
    decreases |ts| - j, RankAt(g, s, j), 0, ps, 0
  {
    var c := Sequence(ps, j, s, SeqAt(g, ts, ps, j, s));
    var d0 := DeriveElement(g, ts, ps.p, j, s);
    d := By1(c, d0);
    if ps.More? && d0.c.o.res.Ok? {
      var d1 := DeriveSequence(g, ts, ps.rest, d0.c.o.res.pos, s);
      d := By2(c, d0, d1);
    }
  }

  lemma {:induction false} DeriveChoice(g: Grammar, ts: seq<Token>, ps: Pats, j: nat, s: Self) returns (d: Derivation)
    requires Within(g, ts, s, j) && SeqWf(g, ps) && (j == s.start ==> OrLeftOk(g, s.rule, s.rank, ps))
    ensures d.c == Choice(ps, j, s, OrAt(g, ts, ps, j, s)) && Derives(g, ts, d)
    decreases |ts| - j, RankAt(g, s, j), 0, ps, 0
  {
    var c := Choice(ps, j, s, OrAt(g, ts, ps, j, s));
    var d0 := DeriveElement(g, ts, ps.p, j, s);
    d := By1(c, d0);
    if ps.More? && d0.c.o.res.Fail? {
      var d1 := DeriveChoice(g, ts, ps.rest, j, s);
      d := By2(c, d0, d1);
    }
  }

  lemma {:induction false} DeriveRounds(g: Grammar, ts: seq<Token>, ps: Pats, j: nat, s: Self) returns (d: Derivation)
    requires Within(g, ts, s, j) && SeqWf(g, ps) && !SeqNullable(g, ps)
    requires j == s.start ==> SeqLeftOk(g, s.rule, s.rank, ps)
    ensures d.c == Rounds(ps, j, s, ManyAt(g, ts, ps, j, s)) && Derives(g, ts, d)
    decreases |ts| - j, RankAt(g, s, j), 0, ps, 1
  {
    var c := Rounds(ps, j, s, ManyAt(g, ts, ps, j, s));
    var d0 := DeriveSequence(g, ts, ps, j, s);
    d := By1(c, d0);
    if d0.c.os.res.Ok? {
      var d1 := DeriveRounds(g, ts, ps, d0.c.os.res.pos, s);
      d := By2(c, d0, d1);
    }
  }

  lemma {:induction false} DeriveTail(g: Grammar, ts: seq<Token>, p: Pat, j: nat, s: Self) returns (d: Derivation)
    requires Within(g, ts, s, j) && PatWf(g, p) && p.SepBy?
    requires j == s.start ==> LeftOk(g, s.rule, s.rank, p) && LeftOk(g, s.rule, s.rank, p.sep)
    ensures d.c == Tail(p, j, s, SepTailAt(g, ts, p, j, s)) && Derives(g, ts, d)
    decreases |ts| - j, RankAt(g, s, j), 0, p, 0
  {
    var c := Tail(p, j, s, SepTailAt(g, ts, p, j, s));
    var d0 := DeriveElement(g, ts, p.sep, j, s);
    d := By1(c, d0);
    if d0.c.o.res.Ok? {
      var d1 := DeriveElement(g, ts, p.item, d0.c.o.res.pos, s);
      d := By2(c, d0, d1);
      if d1.c.o.res.Ok? {
        var d2 := DeriveTail(g, ts, p, d1.c.o.res.pos, s);
        TailGoesOn(g, ts, p, j, s, [d0.c, d1.c, d2.c]);
        d := By3(c, d0, d1, d2);
      }
    }
  }

  lemma TailGoesOn(g: Grammar, ts: seq<Token>, p: Pat, j: nat, s: Self, ds: seq<Judgement>)
    requires Within(g, ts, s, j) && PatWf(g, p) && p.SepBy?
    requires j == s.start ==> LeftOk(g, s.rule, s.rank, p) && LeftOk(g, s.rule, s.rank, p.sep)
    requires |ds| == 3 && ds[0].Element? && ds[1].Element? && ds[2].Tail?
    requires ds[0] == Element(p.sep, j, s, ElemAt(g, ts, p.sep, j, s)) && ds[0].o.res.Ok?
    requires ds[1] == Element(p.item, ds[0].o.res.pos, s, ElemAt(g, ts, p.item, ds[0].o.res.pos, s)) && ds[1].o.res.Ok?
    requires ds[2] == Tail(p, ds[1].o.res.pos, s, SepTailAt(g, ts, p, ds[1].o.res.pos, s))
    ensures TailFollows(p, j, s, SepTailAt(g, ts, p, j, s), ds)
  {
  }

  lemma {:induction false} DeriveAlternatives(g: Grammar, ts: seq<Token>, alts: Alts, index: nat, s: Self) returns (d: Derivation)
    requires Within(g, ts, s, s.start) && AltsOk(g, s.rule, s.rank, alts)
    ensures d.c == Alternatives(alts, index, s, AltsAt(g, ts, alts, index, s)) && Derives(g, ts, d)
    decreases |ts| - s.start, s.rank, 0, alts, 0
  {
    var c := Alternatives(alts, index, s, AltsAt(g, ts, alts, index, s));
    if alts.Done? {
      d := By0(c);
    } else {
      var d0 := DeriveSequence(g, ts, alts.ps, s.start, s);
      d := By1(c, d0);
      if d0.c.os.res.Fail? {
        var d1 := DeriveAlternatives(g, ts, alts.rest, index + 1, s);
        d := By2(c, d0, d1);
      }
    }
  }

  lemma {:induction false} DeriveBody(g: Grammar, ts: seq<Token>, r: RuleId, i: nat, seed: Res<Tree>) returns (d: Derivation)
    requires Wf(g) && r in g.alts && i <= |ts| && (seed.Ok? ==> i < seed.pos <= |ts|)
    ensures IsBody(g, r, i, seed, d.c) && d.c.o == BodyAt(g, ts, r, i, seed) && Derives(g, ts, d)
    decreases |ts| - i, g.rank[r], 1
  {
    d := DeriveAlternatives(g, ts, g.alts[r], 0, Self(r, g.rank[r], i, seed));
  }

  lemma {:induction false} DeriveGrowing(g: Grammar, ts: seq<Token>, r: RuleId, i: nat, seed: Res<Tree>) returns (d: Derivation)
    requires Wf(g) && r in g.alts && i <= |ts| && seed.Ok? && i < seed.pos <= |ts|
    ensures d.c == Growing(r, i, seed, GrowAt(g, ts, r, i, seed)) && Derives(g, ts, d)
    decreases |ts| - i, g.rank[r], 2, |ts| - seed.pos
  {
    var c := Growing(r, i, seed, GrowAt(g, ts, r, i, seed));
    var d0 := DeriveBody(g, ts, r, i, seed);
    d := By1(c, d0);
    var next := d0.c.o.res;
    if next.Ok? && seed.pos < next.pos {
      var d1 := DeriveGrowing(g, ts, r, i, next);
      d := By2(c, d0, d1);
    }
  }

  lemma {:induction false} DeriveRule(g: Grammar, ts: seq<Token>, r: RuleId, i: nat) returns (d: Derivation)
    requires Wf(g) && r in g.alts && i <= |ts|
    ensures d.c == Rule(r, i, RuleAt(g, ts, r, i)) && Derives(g, ts, d)
    decreases |ts| - i, g.rank[r], 3
  {
    var c := Rule(r, i, RuleAt(g, ts, r, i));
    var d0 := DeriveBody(g, ts, r, i, Fail);
    d := By1(c, d0);
    var first := d0.c.o;
    if first.res.Ok? && first.touched && r in g.cached && i < first.res.pos {
      var d1 := DeriveGrowing(g, ts, r, i, first.res);
      d := By2(c, d0, d1);
    }
  }

  /** Whatever the reference computes can be derived. */
  lemma Complete(g: Grammar, ts: seq<Token>, c: Judgement) returns (d: Derivation)
    requires Posed(g, ts, c) && Computed(g, ts, c)
    ensures d.c == c && Derives(g, ts, d)
  {
    match c
    case Element(p, j, s, _) => d := DeriveElement(g, ts, p, j, s);
    case Sequence(ps, j, s, _) => d := DeriveSequence(g, ts, ps, j, s);
    case Choice(ps, j, s, _) => d := DeriveChoice(g, ts, ps, j, s);
    case Rounds(ps, j, s, _) => d := DeriveRounds(g, ts, ps, j, s);
    case Tail(p, j, s, _) => d := DeriveTail(g, ts, p, j, s);
    case Alternatives(alts, index, s, _) => d := DeriveAlternatives(g, ts, alts, index, s);
    case Growing(r, i, seed, _) => d := DeriveGrowing(g, ts, r, i, seed);
    case Rule(r, i, _) => d := DeriveRule(g, ts, r, i);
  }

  /** The rules and the reference say the same: a judgement can be derived exactly if it is what the reference computes. */
  lemma DerivableIsComputed(g: Grammar, ts: seq<Token>, c: Judgement)
    requires Posed(g, ts, c)
    ensures (exists d: Derivation :: d.c == c && Derives(g, ts, d)) <==> Computed(g, ts, c)
  {
    if d: Derivation :| d.c == c && Derives(g, ts, d) {
      Sound(g, ts, d);
    }
    if Computed(g, ts, c) {
      var d := Complete(g, ts, c);
    }
  }
}
