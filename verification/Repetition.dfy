/** Where repetitions, separated lists and growing rules stop. */
module Repetition {
  import opened Tokens
  import opened Grammar
  import opened Reference

  /** A repetition stops only where one more round would fail. */
  lemma {:induction false} ManyIsLongest(g: Grammar, ts: seq<Token>, ps: Pats, j: nat, s: Self)
    requires Within(g, ts, s, j) && SeqWf(g, ps) && !SeqNullable(g, ps)
    requires j == s.start ==> SeqLeftOk(g, s.rule, s.rank, ps)
    ensures
      var end := ManyAt(g, ts, ps, j, s).res.pos;
      j <= end <= |ts| && (end == s.start ==> SeqLeftOk(g, s.rule, s.rank, ps)) && SeqAt(g, ts, ps, end, s).res.Fail?
    decreases |ts| - j
  {
    var o := SeqAt(g, ts, ps, j, s);
    if o.res.Ok? {
      ManyIsLongest(g, ts, ps, o.res.pos, s);
    }
  }

  /** The last item of a list ended at `end`. */
  ghost predicate ItemEnds(g: Grammar, ts: seq<Token>, p: Pat, end: nat, s: Self)
    requires Wf(g) && SelfOk(g, |ts|, s) && PatWf(g, p) && p.SepBy?
  {
    exists k :: s.start <= k <= end <= |ts| && EndsFrom(g, ts, p.item, k, end, s)
  }

  ghost predicate EndsFrom(g: Grammar, ts: seq<Token>, item: Pat, k: nat, end: nat, s: Self)
    requires Within(g, ts, s, k) && PatWf(g, item)
  {
    (k == s.start ==> LeftOk(g, s.rule, s.rank, item)) && ElemAt(g, ts, item, k, s).res.Ok? &&
    ElemAt(g, ts, item, k, s).res.pos == end
  }

  /**
   The rest of a separated list ends where it began or right behind an item, and no separator with an item follows: a
   trailing separator is not consumed.
   */
  lemma {:induction false} TailEndsAtItem(g: Grammar, ts: seq<Token>, p: Pat, j: nat, s: Self)
    requires Within(g, ts, s, j) && PatWf(g, p) && p.SepBy?
    requires j == s.start ==> LeftOk(g, s.rule, s.rank, p) && LeftOk(g, s.rule, s.rank, p.sep)
    ensures
      var end := SepTailAt(g, ts, p, j, s).res.pos;
      && j <= end <= |ts|
      && (end == s.start ==> LeftOk(g, s.rule, s.rank, p) && LeftOk(g, s.rule, s.rank, p.sep))
      && NextItemAt(g, ts, p, end, s).res.Fail?
      && (end == j || ItemEnds(g, ts, p, end, s))
    decreases |ts| - j
  {
    var o := ElemAt(g, ts, p.sep, j, s);
    if o.res.Ok? {
      var k := o.res.pos;
      var o' := ElemAt(g, ts, p.item, k, s);
      if o'.res.Ok? {
        assert EndsFrom(g, ts, p.item, k, o'.res.pos, s);
        TailEndsAtItem(g, ts, p, o'.res.pos, s);
      }
    }
  }

  /** A whole separated list ends right behind its last item. */
  lemma SeparatedEndsAtItem(g: Grammar, ts: seq<Token>, p: Pat, j: nat, s: Self)
    requires Within(g, ts, s, j) && PatWf(g, p) && p.SepBy? && (j == s.start ==> LeftOk(g, s.rule, s.rank, p))
    requires ElemAt(g, ts, p, j, s).res.Ok?
    ensures
      var end := ElemAt(g, ts, p, j, s).res.pos;
      && j <= end <= |ts|
      && (end == s.start ==> LeftOk(g, s.rule, s.rank, p) && LeftOk(g, s.rule, s.rank, p.sep))
      && NextItemAt(g, ts, p, end, s).res.Fail?
      && ItemEnds(g, ts, p, end, s)
  {
    var first := ElemAt(g, ts, p.item, j, s).res;
    assert EndsFrom(g, ts, p.item, j, first.pos, s);
    TailEndsAtItem(g, ts, p, first.pos, s);
  }

  /** A grown result is a fixed point: one more round with it as the seed gets no further. */
  lemma {:induction false} GrownIsStable(g: Grammar, ts: seq<Token>, r: RuleId, i: nat, seed: Res<Tree>)
    requires Wf(g) && r in g.alts && i <= |ts| && seed.Ok? && i < seed.pos <= |ts|
    ensures
      var grown := GrowAt(g, ts, r, i, seed);
      var again := BodyAt(g, ts, r, i, grown).res;
      again.Fail? || again.pos <= grown.pos
    decreases |ts| - seed.pos
  {
    var next := BodyAt(g, ts, r, i, seed).res;
    if next.Ok? && next.pos > seed.pos {
      GrownIsStable(g, ts, r, i, next);
    }
  }
}
