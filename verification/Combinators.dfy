/** What each combinator answers, from what its operands answer, and on single tokens from their kinds alone. */
module Combinators {
  import opened Tokens
  import opened Grammar
  import opened Reference

  /** The element may stand at `j`, and a token is left. */
  ghost predicate Fits(g: Grammar, ts: seq<Token>, p: Pat, j: nat, s: Self) {
    Within(g, ts, s, j) && j < |ts| && PatWf(g, p) && (j == s.start ==> LeftOk(g, s.rule, s.rank, p))
  }

  /** `&x` succeeds exactly where `x` does, and `!x` exactly where it does not; both stay where they are. */
  lemma LookaheadAnswers(g: Grammar, ts: seq<Token>, x: Pat, j: nat, s: Self)
    requires Fits(g, ts, And(x), j, s)
    ensures Fits(g, ts, x, j, s) && Fits(g, ts, Not(x), j, s)
    ensures ElemAt(g, ts, And(x), j, s).res.Ok? <==> ElemAt(g, ts, x, j, s).res.Ok?
    ensures ElemAt(g, ts, Not(x), j, s).res.Ok? <==> ElemAt(g, ts, x, j, s).res.Fail?
    ensures ElemAt(g, ts, And(x), j, s).res.Ok? ==> ElemAt(g, ts, And(x), j, s).res == Ok(Unit, j)
    ensures ElemAt(g, ts, Not(x), j, s).res.Ok? ==> ElemAt(g, ts, Not(x), j, s).res == Ok(Unit, j)
  {
  }

  /** `!!x` answers as `&x`. */
  lemma NotNotIsAnd(g: Grammar, ts: seq<Token>, x: Pat, j: nat, s: Self)
    requires Fits(g, ts, And(x), j, s)
    ensures Fits(g, ts, Not(Not(x)), j, s) && ElemAt(g, ts, Not(Not(x)), j, s) == ElemAt(g, ts, And(x), j, s)
  {
    assert ElemAt(g, ts, Not(Not(x)), j, s).res.Ok? <==> ElemAt(g, ts, Not(x), j, s).res.Fail?;
  }

  /** Which token of a kind a lookahead sees. */
  lemma LookaheadAtToken(g: Grammar, ts: seq<Token>, k: Kind, j: nat, s: Self)
    requires Within(g, ts, s, j) && j < |ts|
    ensures Fits(g, ts, And(Tok(k)), j, s) && Fits(g, ts, Not(Tok(k)), j, s)
    ensures ElemAt(g, ts, And(Tok(k)), j, s).res.Ok? <==> ts[j].kind == k
    ensures ElemAt(g, ts, Not(Tok(k)), j, s).res.Ok? <==> ts[j].kind != k
  {
    assert PatWf(g, Tok(k)) && LeftOk(g, s.rule, s.rank, Tok(k));
    LookaheadAnswers(g, ts, Tok(k), j, s);
    assert ElemAt(g, ts, Tok(k), j, s).res.Ok? <==> ts[j].kind == k;
  }

  /** `x !y`, as in `expression !':='`: it matches as `x` does, unless `y` comes next. */
  lemma UnlessFollowed(g: Grammar, ts: seq<Token>, k: Kind, q: Kind, j: nat, s: Self)
    requires Within(g, ts, s, j) && j + 1 < |ts|
    ensures SeqWf(g, More(Tok(k), One(Not(Tok(q))))) && SeqLeftOk(g, s.rule, s.rank, More(Tok(k), One(Not(Tok(q)))))
    ensures SeqAt(g, ts, More(Tok(k), One(Not(Tok(q)))), j, s).res ==
      if ts[j].kind == k && ts[j + 1].kind != q then Ok([Leaf(ts[j]), Unit], j + 1) else Fail
  {
    assert SeqWf(g, One(Not(Tok(q))));
    LookaheadAtToken(g, ts, q, j + 1, s);
    assert ElemAt(g, ts, Tok(k), j, s).res == if ts[j].kind == k then Ok(Leaf(ts[j]), j + 1) else Fail;
    if ts[j].kind == k && ts[j + 1].kind != q {
      assert [Leaf(ts[j])] + [Unit] == [Leaf(ts[j]), Unit];
    }
  }

  function Size(ps: Pats): nat {
    match ps
    case One(_) => 1
    case More(_, rest) => 1 + Size(rest)
  }

  function Nth(ps: Pats, i: nat): Pat
    requires i < Size(ps)
  {
    if i == 0 then ps.p else Nth(ps.rest, i - 1)
  }

  /** Operand `i` of a choice and what it answers. */
  ghost predicate Answers(g: Grammar, ts: seq<Token>, ps: Pats, i: nat, j: nat, s: Self, res: Res<Tree>) {
    i < Size(ps) && Fits(g, ts, Nth(ps, i), j, s) && ElemAt(g, ts, Nth(ps, i), j, s).res == res
  }

  /** A choice answers as its first operand that matches; it fails exactly if none does. */
  lemma {:induction false} ChoiceIsFirst(g: Grammar, ts: seq<Token>, ps: Pats, j: nat, s: Self) returns (i: nat)
    requires Within(g, ts, s, j) && j < |ts| && SeqWf(g, ps) && (j == s.start ==> OrLeftOk(g, s.rule, s.rank, ps))
    ensures forall m :: 0 <= m < i ==> Answers(g, ts, ps, m, j, s, Fail)
    ensures OrAt(g, ts, ps, j, s).res.Ok? ==> Answers(g, ts, ps, i, j, s, OrAt(g, ts, ps, j, s).res)
    ensures OrAt(g, ts, ps, j, s).res.Fail? ==> i == Size(ps)
    decreases ps
  {
    var o := ElemAt(g, ts, ps.p, j, s);
    assert Answers(g, ts, ps, 0, j, s, o.res);
    if o.res.Ok? {
      i := 0;
    } else if ps.One? {
      i := 1;
    } else {
      var n := ChoiceIsFirst(g, ts, ps.rest, j, s);
      i := n + 1;
      forall m | 0 <= m < i
        ensures Answers(g, ts, ps, m, j, s, Fail)
      {
        assert m == 0 || Answers(g, ts, ps.rest, m - 1, j, s, Fail);
      }
    }
  }

  /** The tokens as trees, in their order. */
  function Leaves(ts: seq<Token>): (r: seq<Tree>)
    ensures |r| == |ts| && forall i :: 0 <= i < |ts| ==> r[i] == Leaf(ts[i])
  {
    if ts == [] then [] else [Leaf(ts[0])] + Leaves(ts[1..])
  }

  /** One token as a sequence. */
  lemma OneToken(g: Grammar, ts: seq<Token>, k: Kind, j: nat, s: Self)
    requires Within(g, ts, s, j)
    ensures SeqWf(g, One(Tok(k))) && !SeqNullable(g, One(Tok(k))) && SeqLeftOk(g, s.rule, s.rank, One(Tok(k)))
    ensures SeqAt(g, ts, One(Tok(k)), j, s).res == if j < |ts| && ts[j].kind == k then Ok([Leaf(ts[j])], j + 1) else Fail
  {
    assert PatWf(g, Tok(k)) && LeftOk(g, s.rule, s.rank, Tok(k)) && !Nullable(g, Tok(k));
    var o := ElemAt(g, ts, Tok(k), j, s);
    assert o.res == if j < |ts| && ts[j].kind == k then Ok(Leaf(ts[j]), j + 1) else Fail;
  }

  /** The tokens from `j` to `m` are of kind `k`, and the next one is not. */
  predicate RunOf(ts: seq<Token>, k: Kind, j: nat, m: nat) {
    j <= m <= |ts| && (forall i :: j <= i < m ==> ts[i].kind == k) && (m < |ts| ==> ts[m].kind != k)
  }

  lemma {:induction false} RunCollected(g: Grammar, ts: seq<Token>, k: Kind, j: nat, m: nat, s: Self)
    requires Within(g, ts, s, j) && RunOf(ts, k, j, m)
    ensures SeqWf(g, One(Tok(k))) && !SeqNullable(g, One(Tok(k))) && SeqLeftOk(g, s.rule, s.rank, One(Tok(k)))
    ensures ManyAt(g, ts, One(Tok(k)), j, s).res == Ok(Leaves(ts[j..m]), m)
    decreases m - j
  {
    OneToken(g, ts, k, j, s);
    if j < m {
      RunCollected(g, ts, k, j + 1, m, s);
      assert ts[j..m] == [ts[j]] + ts[j + 1..m];
    }
  }

  /** Tokens of one kind: `*` and `+` collect all of them, in their order. */
  lemma RepetitionAtTokens(g: Grammar, ts: seq<Token>, k: Kind, j: nat, m: nat, s: Self)
    requires Within(g, ts, s, j) && j < |ts| && RunOf(ts, k, j, m)
    ensures Fits(g, ts, Star(One(Tok(k))), j, s) && Fits(g, ts, Plus(One(Tok(k))), j, s)
    ensures ElemAt(g, ts, Star(One(Tok(k))), j, s).res == Ok(List(Leaves(ts[j..m])), m)
    ensures ElemAt(g, ts, Plus(One(Tok(k))), j, s).res == if j < m then Ok(List(Leaves(ts[j..m])), m) else Fail
  {
    RunCollected(g, ts, k, j, m, s);
  }

  /** An optional token is there or not. */
  lemma OptionAtToken(g: Grammar, ts: seq<Token>, k: Kind, j: nat, s: Self)
    requires Within(g, ts, s, j) && j < |ts|
    ensures Fits(g, ts, Opt(One(Tok(k))), j, s)
    ensures ElemAt(g, ts, Opt(One(Tok(k))), j, s).res == if ts[j].kind == k then Ok(Leaf(ts[j]), j + 1) else Ok(Absent, j)
  {
    OneToken(g, ts, k, j, s);
  }

  /** From `j` on stand `n` times a separator and an item, and not once more. */
  predicate PairsOf(ts: seq<Token>, item: Kind, sep: Kind, j: nat, n: nat) {
    && j + 2 * n <= |ts|
    && (forall i :: 0 <= i < n ==> ts[j + 2 * i].kind == sep && ts[j + 2 * i + 1].kind == item)
    && !(j + 2 * n + 1 < |ts| && ts[j + 2 * n].kind == sep && ts[j + 2 * n + 1].kind == item)
  }

  /** Every second of `n` tokens, from `j` on. */
  function Seconds(ts: seq<Token>, j: nat, n: nat): (r: seq<Tree>)
    requires n > 0 ==> j + 2 * (n - 1) < |ts|
    ensures |r| == n && forall i :: 0 <= i < n ==> r[i] == Leaf(ts[j + 2 * i])
    decreases n
  {
    if n == 0 then [] else [Leaf(ts[j])] + Seconds(ts, j + 2, n - 1)
  }

  lemma {:induction false} PairsCollected(g: Grammar, ts: seq<Token>, item: Kind, sep: Kind, j: nat, n: nat, s: Self)
    requires Within(g, ts, s, j) && PairsOf(ts, item, sep, j, n)
    ensures PatWf(g, SepBy(Tok(item), Tok(sep))) && LeftOk(g, s.rule, s.rank, SepBy(Tok(item), Tok(sep)))
    ensures SepTailAt(g, ts, SepBy(Tok(item), Tok(sep)), j, s).res == Ok(Seconds(ts, j + 1, n), j + 2 * n)
    decreases n
  {
    var p := SepBy(Tok(item), Tok(sep));
    assert PatWf(g, Tok(item)) && PatWf(g, Tok(sep)) && !Nullable(g, Tok(item)) && !Nullable(g, Tok(sep));
    assert LeftOk(g, s.rule, s.rank, Tok(item)) && LeftOk(g, s.rule, s.rank, Tok(sep));
    var o := ElemAt(g, ts, Tok(sep), j, s);
    assert o.res == if j < |ts| && ts[j].kind == sep then Ok(Leaf(ts[j]), j + 1) else Fail;
    if o.res.Ok? {
      var o' := ElemAt(g, ts, Tok(item), j + 1, s);
      assert o'.res == if j + 1 < |ts| && ts[j + 1].kind == item then Ok(Leaf(ts[j + 1]), j + 2) else Fail;
    }
    if n > 0 {
      assert ts[j + 2 * 0].kind == sep && ts[j + 2 * 0 + 1].kind == item;
      forall i | 0 <= i < n - 1
        ensures ts[j + 2 + 2 * i].kind == sep && ts[j + 2 + 2 * i + 1].kind == item
      {
        assert ts[j + 2 * (i + 1)].kind == sep && ts[j + 2 * (i + 1) + 1].kind == item;
      }
      PairsCollected(g, ts, item, sep, j + 2, n - 1, s);
    }
  }

  /** Tokens with separators: the list has the items in their order, and ends behind the last. */
  lemma SeparatedAtTokens(g: Grammar, ts: seq<Token>, item: Kind, sep: Kind, j: nat, n: nat, s: Self)
    requires Within(g, ts, s, j) && j < |ts| && ts[j].kind == item && PairsOf(ts, item, sep, j + 1, n)
    ensures Fits(g, ts, SepBy(Tok(item), Tok(sep)), j, s)
    ensures ElemAt(g, ts, SepBy(Tok(item), Tok(sep)), j, s).res == Ok(List(Seconds(ts, j, n + 1)), j + 1 + 2 * n)
  {
    PairsCollected(g, ts, item, sep, j + 1, n, s);
    assert ElemAt(g, ts, Tok(item), j, s).res == Ok(Leaf(ts[j]), j + 1);
  }

  /** A sequence of single tokens. */
  function TokensOf(ks: seq<Kind>): Pats
    requires |ks| > 0
  {
    if |ks| == 1 then One(Tok(ks[0])) else More(Tok(ks[0]), TokensOf(ks[1..]))
  }

  /** The tokens from `j` on have those kinds. */
  predicate Stand(ts: seq<Token>, ks: seq<Kind>, j: nat) {
    j + |ks| <= |ts| && forall i :: 0 <= i < |ks| ==> ts[j + i].kind == ks[i]
  }

  lemma StandNext(ts: seq<Token>, ks: seq<Kind>, j: nat)
    requires |ks| > 0
    ensures Stand(ts, ks, j) <==> j < |ts| && ts[j].kind == ks[0] && Stand(ts, ks[1..], j + 1)
    ensures Stand(ts, ks, j) ==> Leaves(ts[j..j + |ks|]) == [Leaf(ts[j])] + Leaves(ts[j + 1..j + |ks|])
  {
    if Stand(ts, ks, j) {
      assert ts[j + 0].kind == ks[0];
      forall i | 0 <= i < |ks| - 1
        ensures ts[j + 1 + i].kind == ks[1..][i]
      {
        assert ts[j + (i + 1)].kind == ks[i + 1];
      }
    }
    if j < |ts| && ts[j].kind == ks[0] && Stand(ts, ks[1..], j + 1) {
      forall i | 0 <= i < |ks|
        ensures ts[j + i].kind == ks[i]
      {
        assert i == 0 || ts[j + 1 + (i - 1)].kind == ks[1..][i - 1];
      }
    }
  }

  /** A sequence of tokens matches exactly if they stand there, and gives them in their order. */
  lemma {:induction false} SequenceAtTokens(g: Grammar, ts: seq<Token>, ks: seq<Kind>, j: nat, s: Self)
    requires Within(g, ts, s, j) && |ks| > 0
    ensures SeqWf(g, TokensOf(ks)) && SeqLeftOk(g, s.rule, s.rank, TokensOf(ks))
    ensures SeqAt(g, ts, TokensOf(ks), j, s).res ==
      if Stand(ts, ks, j) then Ok(Leaves(ts[j..j + |ks|]), j + |ks|) else Fail
    decreases |ks|
  {
    StandNext(ts, ks, j);
    OneToken(g, ts, ks[0], j, s);
    assert ElemAt(g, ts, Tok(ks[0]), j, s).res == if j < |ts| && ts[j].kind == ks[0] then Ok(Leaf(ts[j]), j + 1) else Fail;
    if |ks| > 1 {
      SequenceAtTokens(g, ts, ks[1..], if j < |ts| then j + 1 else j, s);
    } else if Stand(ts, ks, j) {
      assert Leaves(ts[j..j + |ks|]) == [Leaf(ts[j])];
    }
  }
}
