/**
 The memoising engine: `m_cache`, `m_token_position`, and the mutually recursive `match`/`matches` of the
 pattern templates. Every method is proved to compute what `Reference` defines, whatever the cache holds.
 */
module Engine {
  import opened Options
  import opened Tokens
  import opened Grammar
  import opened Reference

  /** What identifies a token to the cache: two tokens with equal keys share their entries. */
  datatype Key = Key(rule: RuleId, start: nat, kind: Kind)

  /** Mark is the boolean alternative of the cache value: the rule is being evaluated, or was detected to recurse. */
  datatype Entry = Failed | Mark(recursive: bool, at: nat) | Found(tree: Tree, end: nat)

  function KeyAt(ts: seq<Token>, r: RuleId, i: nat): Key
    requires i < |ts|
  {
    Key(r, ts[i].start, ts[i].kind)
  }

  ghost predicate SameToken(ts: seq<Token>, i: nat, j: nat)
    requires i < |ts| && j < |ts|
  {
    ts[i].start == ts[j].start && ts[i].kind == ts[j].kind
  }

  ghost predicate Unique(ts: seq<Token>, i: nat)
    requires i < |ts|
  {
    forall j :: 0 <= j < |ts| && j != i ==> !SameToken(ts, i, j)
  }

  /** Positions that share a key (two DEDENTs of one line) start no cached rule. */
  ghost predicate Benign(g: Grammar, ts: seq<Token>)
    requires Wf(g)
  {
    forall i, r :: 0 <= i < |ts| && !Unique(ts, i) && r in g.cached ==> RuleAt(g, ts, r, i).Fail?
  }

  ghost function EntryRes(e: Entry): Res<Tree> {
    match e
    case Found(t, end) => Ok(t, end)
    case _ => Fail
  }

  /** A settled entry answers what the reference answers, at every position with its key. */
  ghost predicate Agrees(g: Grammar, ts: seq<Token>, k: Key, e: Entry)
    requires Wf(g)
  {
    && k.rule in g.cached
    && !e.Mark?
    && forall i :: 0 <= i < |ts| && KeyAt(ts, k.rule, i) == k ==> RuleAt(g, ts, k.rule, i) == EntryRes(e)
  }

  type Active = map<Key, nat>

  /** The rules under evaluation: they started no later than `s`, and those at its start have a larger rank. */
  ghost predicate ActiveOk(g: Grammar, ts: seq<Token>, s: Self, active: Active)
    requires Wf(g)
  {
    && (s.rule in g.cached ==> s.start < |ts| && KeyAt(ts, s.rule, s.start) in active)
    && forall k :: k in active ==>
      && k.rule in g.cached
      && active[k] <= s.start
      && active[k] < |ts|
      && k == KeyAt(ts, k.rule, active[k])
      && (active[k] == s.start ==> k.rule == s.rule || s.rank < g.rank[k.rule])
  }

  /** Settled entries agree with the reference; entries under evaluation hold a mark or the seed being grown. */
  ghost predicate CacheOk(g: Grammar, ts: seq<Token>, active: Active, cache: map<Key, Entry>)
    requires Wf(g)
    requires forall k :: k in active ==> k.rule in g.cached && active[k] < |ts|
  {
    && active.Keys <= cache.Keys
    && (forall k :: k in cache && k !in active ==> Agrees(g, ts, k, cache[k]))
    && (forall k :: k in active ==>
      && !cache[k].Failed?
      && (cache[k].Mark? ==> cache[k].at == active[k])
      && (cache[k].Found? ==> RuleAt(g, ts, k.rule, active[k]).Ok?))
  }

  /** The entry of the rule under evaluation holds its seed. */
  ghost predicate SelfEntry(g: Grammar, ts: seq<Token>, s: Self, cache: map<Key, Entry>)
  {
    s.rule in g.cached ==>
      && s.start < |ts|
      && KeyAt(ts, s.rule, s.start) in cache
      && EntryRes(cache[KeyAt(ts, s.rule, s.start)]) == s.seed
  }

  /** Entries under evaluation are kept; a mark can only become `recursive`, and only where keys collide. */
  ghost predicate Kept(ts: seq<Token>, active: Active, before: map<Key, Entry>, after: map<Key, Entry>)
    requires forall k :: k in active ==> active[k] < |ts|
    requires active.Keys <= before.Keys && active.Keys <= after.Keys
  {
    forall k :: k in active ==>
      || after[k] == before[k]
      || (!Unique(ts, active[k]) && before[k].Mark? && after[k] == before[k].(recursive := true))
  }

  /** As `Kept`, but the evaluation of `s` marks its own entry when it consults it. */
  ghost predicate KeptBy(g: Grammar, ts: seq<Token>, s: Self, touched: bool, active: Active,
                         before: map<Key, Entry>, after: map<Key, Entry>)
    requires forall k :: k in active ==> active[k] < |ts|
    requires active.Keys <= before.Keys && active.Keys <= after.Keys
    requires s.rule in g.cached ==> s.start < |ts| && KeyAt(ts, s.rule, s.start) in active
  {
    forall k :: k in active ==>
      if s.rule in g.cached && k == KeyAt(ts, s.rule, s.start) && touched then
        after[k] == if before[k].Mark? then before[k].(recursive := true) else before[k]
      else
        || after[k] == before[k]
        || (!Unique(ts, active[k]) && before[k].Mark? && after[k] == before[k].(recursive := true))
  }

  /** How far the enclosing sequence moves after the pattern matched: its `advance_by`. */
  function AdvanceBy(p: Pat): nat {
    if p.Tok? || p.Lit? || p.Any? then 1 else 0
  }

  ghost function ToOption<T>(r: Res<T>): Option<T> {
    if r.Ok? then Some(r.val) else None
  }

  /** Rule `q` may be evaluated at `i` under `active`. */
  ghost predicate Below(g: Grammar, ts: seq<Token>, q: RuleId, i: nat, active: Active)
    requires Wf(g) && q in g.alts
  {
    forall k :: k in active ==>
      && k.rule in g.cached
      && active[k] <= i
      && active[k] < |ts|
      && k == KeyAt(ts, k.rule, active[k])
      && (active[k] == i ==> g.rank[q] < g.rank[k.rule])
  }

  ghost function With(g: Grammar, ts: seq<Token>, q: RuleId, i: nat, active: Active): Active
    requires i < |ts|
  {
    if q in g.cached then active[KeyAt(ts, q, i) := i] else active
  }

  /** Beginning a rule: its mark is the only new entry, and the rule becomes the innermost one. */
  lemma Begin(g: Grammar, ts: seq<Token>, q: RuleId, i: nat, active: Active, cache: map<Key, Entry>)
    requires Wf(g) && q in g.cached && i < |ts|
    requires Below(g, ts, q, i, active) && CacheOk(g, ts, active, cache) && KeyAt(ts, q, i) !in cache
    ensures
      var line := KeyAt(ts, q, i);
      var s := Self(q, g.rank[q], i, Fail);
      && ActiveOk(g, ts, s, active[line := i])
      && CacheOk(g, ts, active[line := i], cache[line := Mark(false, i)])
      && SelfEntry(g, ts, s, cache[line := Mark(false, i)])
  {
  }

  /** A result that is right at one position of its key is right at all of them. */
  lemma Settle(g: Grammar, ts: seq<Token>, q: RuleId, i: nat, e: Entry)
    requires Wf(g) && Benign(g, ts) && q in g.cached && i < |ts|
    requires !e.Mark? && RuleAt(g, ts, q, i) == EntryRes(e)
    ensures Agrees(g, ts, KeyAt(ts, q, i), e)
  {
    forall j | 0 <= j < |ts| && KeyAt(ts, q, j) == KeyAt(ts, q, i)
      ensures RuleAt(g, ts, q, j) == EntryRes(e)
    {
      if j != i {
        assert SameToken(ts, i, j) && SameToken(ts, j, i);
        assert !Unique(ts, i) && !Unique(ts, j);
      }
    }
  }

  /** Meeting an entry under evaluation is a left-recursive call, or a collision at which the rule fails anyway. */
  lemma Meet(g: Grammar, ts: seq<Token>, q: RuleId, j: nat, s: Self, active: Active, cache: map<Key, Entry>)
    requires Wf(g) && SelfOk(g, |ts|, s) && Benign(g, ts) && q in g.cached && s.start <= j < |ts|
    requires ActiveOk(g, ts, s, active) && CacheOk(g, ts, active, cache) && KeyAt(ts, q, j) in active
    requires j == s.start ==> LeftOk(g, s.rule, s.rank, Call(q))
    ensures
      || (q == s.rule && j == s.start && active[KeyAt(ts, q, j)] == j)
      || (&& !(q == s.rule && j == s.start)
          && RuleAt(g, ts, q, j).Fail?
          && cache[KeyAt(ts, q, j)].Mark?
          && !Unique(ts, active[KeyAt(ts, q, j)]))
      || (q == s.rule && j == s.start && !Unique(ts, j))
  {
    var i := active[KeyAt(ts, q, j)];
    if i != j {
      assert SameToken(ts, i, j) && SameToken(ts, j, i);
      assert !Unique(ts, i) && !Unique(ts, j);
    }
  }

  lemma KeptTwice(g: Grammar, ts: seq<Token>, s: Self, t1: bool, t2: bool, active: Active,
                  a: map<Key, Entry>, b: map<Key, Entry>, c: map<Key, Entry>)
    requires forall k :: k in active ==> active[k] < |ts|
    requires active.Keys <= a.Keys && active.Keys <= b.Keys && active.Keys <= c.Keys
    requires s.rule in g.cached ==> s.start < |ts| && KeyAt(ts, s.rule, s.start) in active
    requires KeptBy(g, ts, s, t1, active, a, b) && KeptBy(g, ts, s, t2, active, b, c)
    ensures KeptBy(g, ts, s, t1 || t2, active, a, c)
  {
  }

  /** One more round of a repetition. */
  lemma ManyStep(g: Grammar, ts: seq<Token>, ps: Pats, j: nat, s: Self,
                 items: seq<Tree>, touched: bool, all: Out<seq<Tree>>)
    requires Within(g, ts, s, j) && SeqWf(g, ps) && !SeqNullable(g, ps)
    requires j == s.start ==> SeqLeftOk(g, s.rule, s.rank, ps)
    requires
      var rest := ManyAt(g, ts, ps, j, s);
      all == Out(Ok(items + rest.res.val, rest.res.pos), touched || rest.touched)
    ensures
      var o := SeqAt(g, ts, ps, j, s);
      if o.res.Fail? then all == Out(Ok(items, j), touched || o.touched)
      else
        var rest := ManyAt(g, ts, ps, o.res.pos, s);
        all == Out(Ok(items + [Item(ps, o.res.val)] + rest.res.val, rest.res.pos), touched || o.touched || rest.touched)
  {
    var o := SeqAt(g, ts, ps, j, s);
    if o.res.Fail? {
      assert items + [] == items;
    } else {
      var rest := ManyAt(g, ts, ps, o.res.pos, s).res.val;
      assert items + ([Item(ps, o.res.val)] + rest) == items + [Item(ps, o.res.val)] + rest;
    }
  }

  lemma KeptAgain(ts: seq<Token>, active: Active, a: map<Key, Entry>, b: map<Key, Entry>, c: map<Key, Entry>)
    requires forall k :: k in active ==> active[k] < |ts|
    requires active.Keys <= a.Keys && active.Keys <= b.Keys && active.Keys <= c.Keys
    requires Kept(ts, active, a, b) && Kept(ts, active, b, c)
    ensures Kept(ts, active, a, c)
  {
  }

  /** Recording a longer result of a rule under growth. */
  lemma Record(g: Grammar, ts: seq<Token>, q: RuleId, i: nat, active: Active, cache: map<Key, Entry>,
               t: Tree, end: nat)
    requires Wf(g) && q in g.cached && i < |ts|
    requires forall k :: k in active ==> k.rule in g.cached && active[k] < |ts|
    requires CacheOk(g, ts, active, cache) && KeyAt(ts, q, i) in active && active[KeyAt(ts, q, i)] == i
    requires RuleAt(g, ts, q, i).Ok?
    ensures
      var after := cache[KeyAt(ts, q, i) := Found(t, end)];
      CacheOk(g, ts, active, after) && Kept(ts, active - {KeyAt(ts, q, i)}, cache, after)
  {
  }

  /** How the reference continues from a seed. */
  lemma GrowStep(g: Grammar, ts: seq<Token>, q: RuleId, i: nat, seed: Res<Tree>)
    requires Wf(g) && q in g.cached && i < |ts|
    requires seed.Ok? ==> i < seed.pos <= |ts| && RuleAt(g, ts, q, i) == GrowAt(g, ts, q, i, seed)
    requires BodyAt(g, ts, q, i, Fail).res.Ok? && BodyAt(g, ts, q, i, Fail).touched
    ensures
      var next := BodyAt(g, ts, q, i, seed).res;
      if next.Fail? || next.pos <= (if seed.Ok? then seed.pos else i) then RuleAt(g, ts, q, i) == seed
      else RuleAt(g, ts, q, i) == GrowAt(g, ts, q, i, next)
  {
  }

  /** One more separator and item of a separated list. */
  lemma SepStep(g: Grammar, ts: seq<Token>, p: Pat, j: nat, s: Self,
                items: seq<Tree>, touched: bool, all: Out<Tree>)
    requires Within(g, ts, s, j) && PatWf(g, p) && p.SepBy?
    requires j == s.start ==> LeftOk(g, s.rule, s.rank, p) && LeftOk(g, s.rule, s.rank, p.sep)
    requires
      var rest := SepTailAt(g, ts, p, j, s);
      all == Out(Ok(List(items + rest.res.val), rest.res.pos), touched || rest.touched)
    ensures
      var o := NextItemAt(g, ts, p, j, s);
      if o.res.Fail? then all == Out(Ok(List(items), j), touched || o.touched)
      else
        var rest := SepTailAt(g, ts, p, o.res.pos, s);
        all == Out(Ok(List(items + [o.res.val] + rest.res.val), rest.res.pos),
                   touched || o.touched || rest.touched)
  {
    assert items + [] == items;
    var o := NextItemAt(g, ts, p, j, s);
    if o.res.Ok? {
      var rest := SepTailAt(g, ts, p, o.res.pos, s).res.val;
      assert items + ([o.res.val] + rest) == items + [o.res.val] + rest;
    }
  }

  /** A rule whose mark was not met has the result of its body. */
  lemma NotGrown(g: Grammar, ts: seq<Token>, q: RuleId, i: nat)
    requires Wf(g) && q in g.alts && i <= |ts|
    requires
      var o := BodyAt(g, ts, q, i, Fail);
      o.res.Fail? || q !in g.cached || !o.touched
    ensures RuleAt(g, ts, q, i) == BodyAt(g, ts, q, i, Fail).res
  {
  }

  /** What the first try and the growing both keep. */
  lemma KeptThrough(ts: seq<Token>, active: Active, line: Key, start: nat,
                    before: map<Key, Entry>, first: map<Key, Entry>, after: map<Key, Entry>)
    requires (forall k :: k in active ==> active[k] < |ts|) && start < |ts|
    requires active.Keys <= before.Keys && active.Keys <= first.Keys && active.Keys <= after.Keys && line !in before
    requires Kept(ts, active, before, first) && Kept(ts, active[line := start] - {line}, first, after)
    ensures Kept(ts, active, before, after)
  {
    assert active[line := start] - {line} == active;
    KeptAgain(ts, active, before, first, after);
  }

  class Parser {
    const g: Grammar
    const ts: seq<Token>
    var position: nat
    var cache: map<Key, Entry>

    constructor (g: Grammar, ts: seq<Token>)
      ensures this.g == g && this.ts == ts && position == 0 && cache == map[]
    {
      this.g, this.ts, position, cache := g, ts, 0, map[];
    }

    /** Every entry is settled and agrees with the reference. */
    ghost predicate Sound()
      reads this
    {
      Wf(g) && forall k :: k in cache ==> Agrees(g, ts, k, cache[k])
    }

    /**
     The outermost `match`, from any position and with whatever earlier parses left in the cache: it returns
     what the cache-free reference returns, and moves the position only if it succeeds.
     */
    method Parse(ps: Pats) returns (r: Option<seq<Tree>>)
      requires Sound() && Benign(g, ts) && SeqWf(g, ps) && position <= |ts|
      modifies this
      ensures Sound()
      ensures r == ToOption(ParseAt(g, ts, ps, old(position)))
      ensures position == if r.Some? then ParseAt(g, ts, ps, old(position)).pos else old(position)
    {
      TopSeqLeftOk(g, NO_RULE, ps);
      r := Seq(ps, Self(NO_RULE, g.top, position, Fail), map[]);
    }

    /** `s` is being evaluated, below the rules in `active`. */
    ghost predicate Evaluating(s: Self, active: Active)
      reads this
    {
      && Wf(g)
      && SelfOk(g, |ts|, s)
      && Benign(g, ts)
      && ActiveOk(g, ts, s, active)
      && CacheOk(g, ts, active, cache)
      && SelfEntry(g, ts, s, cache)
    }

    ghost predicate Ready(s: Self, active: Active)
      reads this
    {
      Evaluating(s, active) && s.start <= position <= |ts|
    }

    /** The cache is still sound, and the answer is the reference's. */
    ghost predicate Answered<T>(s: Self, active: Active, o: Out<T>, r: Option<T>, before: map<Key, Entry>)
      requires Wf(g) && ActiveOk(g, ts, s, active) && active.Keys <= before.Keys
      reads this
    {
      && Evaluating(s, active)
      && KeptBy(g, ts, s, o.touched, active, before, cache)
      && (r.Some? <==> o.res.Ok?)
      && (r.Some? ==> r.value == o.res.val)
    }

    /** One element of a sequence, without undoing the position when it fails. */
    method Elem(p: Pat, ghost s: Self, ghost active: Active) returns (r: Option<Tree>)
      requires Ready(s, active) && PatWf(g, p)
      requires position == s.start ==> LeftOk(g, s.rule, s.rank, p)
      modifies this
      ensures Answered(s, active, ElemAt(g, ts, p, old(position), s), r, old(cache))
      ensures r.Some? ==> position == ElemAt(g, ts, p, old(position), s).res.pos
      decreases |ts| - position, RankAt(g, s, position), 0, p, 2
    {
      if position == |ts| {
        return None;
      }
      if p.Call? {
        r := CallElem(p.rule, s, active);
      } else {
        r := Matches(p, s, active);
        if r.Some? {
          position := position + AdvanceBy(p);
        }
      }
    }

    /** A call of a rule: answered by the cache, or evaluated and then recorded there. */
    method CallElem(q: RuleId, ghost s: Self, ghost active: Active) returns (r: Option<Tree>)
      requires Ready(s, active) && PatWf(g, Call(q)) && position < |ts|
      requires position == s.start ==> LeftOk(g, s.rule, s.rank, Call(q))
      modifies this
      ensures Answered(s, active, ElemAt(g, ts, Call(q), old(position), s), r, old(cache))
      ensures r.Some? ==> position == ElemAt(g, ts, Call(q), old(position), s).res.pos
      decreases |ts| - position, RankAt(g, s, position), 0, Call(q), 1
    {
      if q !in g.cached {
        r := Rule(q, active);
      } else if KeyAt(ts, q, position) in cache {
        r := Hit(q, s, active);
      } else {
        r := Miss(q, s, active);
      }
    }

    /** The cache has an entry: a result, a failure, or the mark of a rule that is under evaluation. */
    method Hit(q: RuleId, ghost s: Self, ghost active: Active) returns (r: Option<Tree>)
      requires Ready(s, active) && q in g.cached && position < |ts| && KeyAt(ts, q, position) in cache
      requires position == s.start ==> LeftOk(g, s.rule, s.rank, Call(q))
      modifies this
      ensures Answered(s, active, ElemAt(g, ts, Call(q), old(position), s), r, old(cache))
      ensures r.Some? ==> position == ElemAt(g, ts, Call(q), old(position), s).res.pos
    {
      var line := KeyAt(ts, q, position);
      if line in active {
        Meet(g, ts, q, position, s, active, cache);
      }
      match cache[line]
      case Failed =>
        r := None;
      case Mark(_, at) =>
        position := at;
        cache := cache[line := Mark(true, at)];
        r := None;
      case Found(t, end) =>
        position := end;
        r := Some(t);
    }

    /** The cache has no entry: evaluate the rule and record what it answers. */
    method Miss(q: RuleId, ghost s: Self, ghost active: Active) returns (r: Option<Tree>)
      requires Ready(s, active) && q in g.cached && position < |ts| && KeyAt(ts, q, position) !in cache
      requires position == s.start ==> LeftOk(g, s.rule, s.rank, Call(q))
      modifies this
      ensures Answered(s, active, ElemAt(g, ts, Call(q), old(position), s), r, old(cache))
      ensures r.Some? ==> position == ElemAt(g, ts, Call(q), old(position), s).res.pos
      decreases |ts| - position, RankAt(g, s, position), 0, Call(q), 0
    {
      var line := KeyAt(ts, q, position);
      r := Rule(q, active);
      if r.Some? {
        cache := cache[line := Found(r.value, position)];
      } else {
        cache := cache[line := Failed];
      }
      Settle(g, ts, q, old(position), cache[line]);
    }

    /** `PatternV2::matches` of a rule: mark the entry, try the body, and grow the result if the mark was met. */
    method Rule(q: RuleId, ghost active: Active) returns (r: Option<Tree>)
      requires Wf(g) && Benign(g, ts) && q in g.alts && position < |ts|
      requires Below(g, ts, q, position, active) && CacheOk(g, ts, active, cache)
      requires q in g.cached ==> KeyAt(ts, q, position) !in cache
      modifies this
      ensures CacheOk(g, ts, With(g, ts, q, old(position), active), cache)
      ensures Kept(ts, active, old(cache), cache)
      ensures r == ToOption(RuleAt(g, ts, q, old(position)))
      ensures position == if r.Some? then RuleAt(g, ts, q, old(position)).pos else old(position)
      decreases |ts| - position, g.rank[q], 3
    {
      var start := position;
      r := First(q, active);
      if q in g.cached && r.Some? {
        var value := cache[KeyAt(ts, q, start)];
        if value.Mark? && value.recursive {
          ghost var first := cache;
          r := Grow(q, start, With(g, ts, q, start, active));
          KeptThrough(ts, active, KeyAt(ts, q, start), start, old(cache), first, cache);
          return;
        }
      }
      NotGrown(g, ts, q, start);
    }

    /** Mark the entry and try the body; whether the mark was met tells whether the rule is left-recursive here. */
    method First(q: RuleId, ghost active: Active) returns (r: Option<Tree>)
      requires Wf(g) && Benign(g, ts) && q in g.alts && position < |ts|
      requires Below(g, ts, q, position, active) && CacheOk(g, ts, active, cache)
      requires q in g.cached ==> KeyAt(ts, q, position) !in cache
      modifies this
      ensures CacheOk(g, ts, With(g, ts, q, old(position), active), cache)
      ensures Kept(ts, active, old(cache), cache)
      ensures r == ToOption(BodyAt(g, ts, q, old(position), Fail).res)
      ensures position == if r.Some? then BodyAt(g, ts, q, old(position), Fail).res.pos else old(position)
      ensures q in g.cached ==>
          ActiveOk(g, ts, Self(q, g.rank[q], old(position), Fail), With(g, ts, q, old(position), active))
      ensures q in g.cached && r.Some? ==>
          && KeyAt(ts, q, old(position)) in cache
          && cache[KeyAt(ts, q, old(position))] == Mark(BodyAt(g, ts, q, old(position), Fail).touched, old(position))
      decreases |ts| - position, g.rank[q], 2
    {
      var start := position;
      if q in g.cached {
        Begin(g, ts, q, start, active, cache);
        cache := cache[KeyAt(ts, q, start) := Mark(false, start)];
      }
      r := Body(g.alts[q], 0, q, Self(q, g.rank[q], start, Fail), With(g, ts, q, start, active));
    }

    /** The body of a rule under growth, from its start, with the seed that its entry holds. */
    method Retry(q: RuleId, start: nat, ghost seed: Res<Tree>, ghost active: Active) returns (r: Option<Tree>)
      requires Wf(g) && Benign(g, ts) && q in g.cached && start < |ts|
      requires seed.Ok? ==> start < seed.pos <= |ts|
      requires ActiveOk(g, ts, Self(q, g.rank[q], start, seed), active)
      requires CacheOk(g, ts, active, cache)
      requires cache[KeyAt(ts, q, start)] == if seed.Ok? then Found(seed.val, seed.pos) else Mark(true, start)
      modifies this
      ensures CacheOk(g, ts, active, cache)
      ensures cache[KeyAt(ts, q, start)] == old(cache[KeyAt(ts, q, start)])
      ensures Kept(ts, active - {KeyAt(ts, q, start)}, old(cache), cache)
      ensures r == ToOption(BodyAt(g, ts, q, start, seed).res)
      ensures position == if r.Some? then BodyAt(g, ts, q, start, seed).res.pos else start
      decreases |ts| - start, g.rank[q], 1
    {
      position := start;
      r := Body(g.alts[q], 0, q, Self(q, g.rank[q], start, seed), active);
    }

    /** `grow_lr`: evaluate the body again from the start for as long as it gets further than the entry. */
    method Grow(q: RuleId, start: nat, ghost active: Active) returns (r: Option<Tree>)
      requires Wf(g) && Benign(g, ts) && q in g.cached && start < |ts|
      requires ActiveOk(g, ts, Self(q, g.rank[q], start, Fail), active) && active[KeyAt(ts, q, start)] == start
      requires CacheOk(g, ts, active, cache)
      requires cache[KeyAt(ts, q, start)] == Mark(true, start)
      requires BodyAt(g, ts, q, start, Fail).res.Ok? && BodyAt(g, ts, q, start, Fail).touched
      modifies this
      ensures CacheOk(g, ts, active, cache)
      ensures Kept(ts, active - {KeyAt(ts, q, start)}, old(cache), cache)
      ensures r == ToOption(RuleAt(g, ts, q, start))
      ensures position == if r.Some? then RuleAt(g, ts, q, start).pos else start
      decreases |ts| - start, g.rank[q], 2
    {
      var line := KeyAt(ts, q, start);
      var reached := start;
      ghost var others := active - {line};
      ghost var seed: Res<Tree> := Fail;
      while true
        invariant start <= reached <= |ts|
        invariant CacheOk(g, ts, active, cache) && Kept(ts, others, old(cache), cache)
        invariant cache[line] == if seed.Ok? then Found(seed.val, reached) else Mark(true, start)
        invariant if seed.Ok? then seed.pos == reached > start else reached == start
        invariant seed.Ok? ==> RuleAt(g, ts, q, start) == GrowAt(g, ts, q, start, seed)
        decreases |ts| - reached
      {
        ghost var known := cache;
        var further := Round(q, start, reached, seed, active);
        KeptAgain(ts, others, old(cache), known, cache);
        if !further {
          break;
        }
        reached := position;
        seed := BodyAt(g, ts, q, start, seed).res;
      }
      position := reached;
      match cache[line] {
        case Found(t, _) => r := Some(t);
        case _ => r := None;
      }
    }

    /** One round of growing: what gets further than the seed takes its place. */
    method Round(q: RuleId, start: nat, reached: nat, ghost seed: Res<Tree>, ghost active: Active) returns (further: bool)
      requires Wf(g) && Benign(g, ts) && q in g.cached && start < |ts| && start <= reached <= |ts|
      requires ActiveOk(g, ts, Self(q, g.rank[q], start, Fail), active) && active[KeyAt(ts, q, start)] == start
      requires CacheOk(g, ts, active, cache)
      requires cache[KeyAt(ts, q, start)] == if seed.Ok? then Found(seed.val, reached) else Mark(true, start)
      requires if seed.Ok? then seed.pos == reached > start else reached == start
      requires seed.Ok? ==> RuleAt(g, ts, q, start) == GrowAt(g, ts, q, start, seed)
      requires BodyAt(g, ts, q, start, Fail).res.Ok? && BodyAt(g, ts, q, start, Fail).touched
      modifies this
      ensures CacheOk(g, ts, active, cache) && Kept(ts, active - {KeyAt(ts, q, start)}, old(cache), cache)
      ensures !further ==> RuleAt(g, ts, q, start) == seed
      ensures !further ==> cache[KeyAt(ts, q, start)] == old(cache)[KeyAt(ts, q, start)]
      ensures further ==>
          var next := BodyAt(g, ts, q, start, seed).res;
          && next.Ok? && reached < position == next.pos <= |ts| && RuleAt(g, ts, q, start) == GrowAt(g, ts, q, start, next)
          && cache[KeyAt(ts, q, start)] == Found(next.val, position)
      decreases |ts| - start, g.rank[q], 2, 0
    {
      var line := KeyAt(ts, q, start);
      GrowStep(g, ts, q, start, seed);
      var next := Retry(q, start, seed, active);
      if next.None? || position <= reached {
        return false;
      }
      ghost var known := cache;
      Record(g, ts, q, start, active, cache, next.value, position);
      cache := cache[line := Found(next.value, position)];
      KeptAgain(ts, active - {line}, old(cache), known, cache);
      return true;
    }

    /** `matches_impl` of a rule: the first sequence that matches. */
    method Body(alts: Alts, index: nat, q: RuleId, ghost s: Self, ghost active: Active) returns (r: Option<Tree>)
      requires Ready(s, active) && position == s.start && q == s.rule && AltsOk(g, s.rule, s.rank, alts)
      modifies this
      ensures Answered(s, active, AltsAt(g, ts, alts, index, s), r, old(cache))
      ensures position == if r.Some? then AltsAt(g, ts, alts, index, s).res.pos else s.start
      decreases |ts| - position, s.rank, 0, alts, 0
    {
      if alts.Done? {
        return None;
      }
      var kids := Seq(alts.ps, s, active);
      if kids.Some? {
        r := Some(Node(q, index, kids.value));
      } else {
        r := Body(alts.rest, index + 1, q, s, active);
      }
    }

    /** `PatternMatchV2::match`: all elements in a row, or none and the position restored. */
    method Seq(ps: Pats, ghost s: Self, ghost active: Active) returns (r: Option<seq<Tree>>)
      requires Ready(s, active) && SeqWf(g, ps)
      requires position == s.start ==> SeqLeftOk(g, s.rule, s.rank, ps)
      modifies this
      ensures Answered(s, active, SeqAt(g, ts, ps, old(position), s), r, old(cache))
      ensures position == if r.Some? then SeqAt(g, ts, ps, old(position), s).res.pos else old(position)
      decreases |ts| - position, RankAt(g, s, position), 0, ps, 4
    {
      var start := position;
      r := SeqFrom(ps, s, active);
      if r.None? {
        position := start;
      }
    }

    /** `PatternMatchV2::match` of one pattern. */
    method Single(p: Pat, ghost s: Self, ghost active: Active) returns (r: Option<Tree>)
      requires Ready(s, active) && PatWf(g, p)
      requires position == s.start ==> LeftOk(g, s.rule, s.rank, p)
      modifies this
      ensures Answered(s, active, ElemAt(g, ts, p, old(position), s), r, old(cache))
      ensures position == if r.Some? then ElemAt(g, ts, p, old(position), s).res.pos else old(position)
      decreases |ts| - position, RankAt(g, s, position), 0, p, 3
    {
      var start := position;
      r := Elem(p, s, active);
      if r.None? {
        position := start;
      }
    }

    /** The recursion of `PatternMatchV2_` over the pattern tuple. */
    method SeqFrom(ps: Pats, ghost s: Self, ghost active: Active) returns (r: Option<seq<Tree>>)
      requires Ready(s, active) && SeqWf(g, ps)
      requires position == s.start ==> SeqLeftOk(g, s.rule, s.rank, ps)
      modifies this
      ensures Answered(s, active, SeqAt(g, ts, ps, old(position), s), r, old(cache))
      ensures r.Some? ==> position == SeqAt(g, ts, ps, old(position), s).res.pos
      decreases |ts| - position, RankAt(g, s, position), 0, ps, 3
    {
      var head := Elem(ps.p, s, active);
      if head.None? {
        return None;
      }
      if ps.One? {
        return Some([head.value]);
      }
      var tail := SeqFrom(ps.rest, s, active);
      if tail.None? {
        return None;
      }
      r := Some([head.value] + tail.value);
    }

    /** `PatternV2::matches` of a pattern that has no cacheable result. */
    method Matches(p: Pat, ghost s: Self, ghost active: Active) returns (r: Option<Tree>)
      requires Ready(s, active) && PatWf(g, p) && position < |ts|
      requires p.Call? ==> p.rule !in g.cached
      requires position == s.start ==> LeftOk(g, s.rule, s.rank, p)
      modifies this
      ensures Answered(s, active, ElemAt(g, ts, p, old(position), s), r, old(cache))
      ensures position ==
        if r.Some? then ElemAt(g, ts, p, old(position), s).res.pos - AdvanceBy(p) else old(position)
      decreases |ts| - position, RankAt(g, s, position), 0, p, 1
    {
      match p
      case Tok(_) => r := if TokenMatches(p, ts[position]) then Some(Leaf(ts[position])) else None;
      case Lit(_, _, _) => r := if TokenMatches(p, ts[position]) then Some(Leaf(ts[position])) else None;
      case Any => r := Some(Leaf(ts[position]));
      case Call(q) => r := Rule(q, active);
      case Or(ps) => r := Choice(ps, s, active);
      case SepBy(_, _) => r := Separated(p, s, active);
      case And(_) => r := LookAhead(p, s, active);
      case Not(_) => r := LookAhead(p, s, active);
      case _ => r := Compound(p, s, active);
    }

    /** `LookAheadV2` and `NegativeLookAheadV2`: the position is as before, whatever was found. */
    method LookAhead(p: Pat, ghost s: Self, ghost active: Active) returns (r: Option<Tree>)
      requires Ready(s, active) && PatWf(g, p) && position < |ts| && (p.And? || p.Not?)
      requires position == s.start ==> LeftOk(g, s.rule, s.rank, p)
      modifies this
      ensures Answered(s, active, ElemAt(g, ts, p, old(position), s), r, old(cache)) && position == old(position)
      ensures r.Some? ==> ElemAt(g, ts, p, old(position), s).res.pos == old(position)
      decreases |ts| - position, RankAt(g, s, position), 0, p, 0
    {
      var start := position;
      var found := Matches(p.operand, s, active);
      position := start;
      r := if found.Some? == p.And? then Some(Unit) else None;
    }

    /** Patterns made of a sequence. */
    method Compound(p: Pat, ghost s: Self, ghost active: Active) returns (r: Option<Tree>)
      requires Ready(s, active) && PatWf(g, p) && position < |ts| && (p.Group? || p.Star? || p.Plus? || p.Opt?)
      requires position == s.start ==> LeftOk(g, s.rule, s.rank, p)
      modifies this
      ensures Answered(s, active, ElemAt(g, ts, p, old(position), s), r, old(cache))
      ensures position == if r.Some? then ElemAt(g, ts, p, old(position), s).res.pos else old(position)
      decreases |ts| - position, RankAt(g, s, position), 0, p, 0
    {
      if p.Group? || p.Opt? {
        var kids := Seq(p.ps, s, active);
        if p.Group? {
          r := if kids.Some? then Some(Tuple(kids.value)) else None;
        } else {
          r := Some(if kids.Some? then Item(p.ps, kids.value) else Absent);
        }
      } else {
        var items := Repeat(p.ps, s, active);
        r := if p.Plus? && items == [] then None else Some(List(items));
      }
    }

    /** `OrPatternV2_::match`. */
    method Choice(ps: Pats, ghost s: Self, ghost active: Active) returns (r: Option<Tree>)
      requires Ready(s, active) && SeqWf(g, ps)
      requires position == s.start ==> OrLeftOk(g, s.rule, s.rank, ps)
      modifies this
      ensures Answered(s, active, OrAt(g, ts, ps, old(position), s), r, old(cache))
      ensures position == if r.Some? then OrAt(g, ts, ps, old(position), s).res.pos else old(position)
      decreases |ts| - position, RankAt(g, s, position), 0, ps, 4
    {
      r := Single(ps.p, s, active);
      if r.None? && ps.More? {
        r := Choice(ps.rest, s, active);
      }
    }

    /** The loop of `ZeroOrMorePatternV2` and `OneOrMorePatternV2`. */
    method Repeat(ps: Pats, ghost s: Self, ghost active: Active) returns (items: seq<Tree>)
      requires Ready(s, active) && SeqWf(g, ps) && !SeqNullable(g, ps)
      requires position == s.start ==> SeqLeftOk(g, s.rule, s.rank, ps)
      modifies this
      ensures Answered(s, active, ManyAt(g, ts, ps, old(position), s), Some(items), old(cache))
      ensures position == ManyAt(g, ts, ps, old(position), s).res.pos
      decreases |ts| - position, RankAt(g, s, position), 0, ps, 5
    {
      items := [];
      ghost var all := ManyAt(g, ts, ps, position, s);
      ghost var touched := false;
      assert [] + all.res.val == all.res.val;
      while true
        invariant Ready(s, active) && old(position) <= position
        invariant KeptBy(g, ts, s, touched, active, old(cache), cache)
        invariant position == s.start ==> SeqLeftOk(g, s.rule, s.rank, ps)
        invariant
          var rest := ManyAt(g, ts, ps, position, s);
          all == Out(Ok(items + rest.res.val, rest.res.pos), touched || rest.touched)
        decreases |ts| - position
      {
        ghost var o, known := SeqAt(g, ts, ps, position, s), cache;
        ManyStep(g, ts, ps, position, s, items, touched, all);
        var kids := Seq(ps, s, active);
        KeptTwice(g, ts, s, touched, o.touched, active, old(cache), known, cache);
        touched := touched || o.touched;
        if kids.None? {
          break;
        }
        items := items + [Item(ps, kids.value)];
      }
    }

    /** A separator and another item; a separator that no item follows is given back. */
    method NextItem(p: Pat, ghost s: Self, ghost active: Active) returns (r: Option<Tree>)
      requires Ready(s, active) && PatWf(g, p) && p.SepBy?
      requires position == s.start ==> LeftOk(g, s.rule, s.rank, p) && LeftOk(g, s.rule, s.rank, p.sep)
      modifies this
      ensures Answered(s, active, NextItemAt(g, ts, p, old(position), s), r, old(cache))
      ensures position == if r.Some? then NextItemAt(g, ts, p, old(position), s).res.pos else old(position)
      decreases |ts| - position, RankAt(g, s, position), 0, p, 0, 0
    {
      var last := position;
      var sep := Single(p.sep, s, active);
      if sep.None? {
        return None;
      }
      r := Single(p.item, s, active);
      if r.None? {
        position := last;
      }
    }

    /** `ApplyInBetweenPatternV2::matches_impl`. */
    method Separated(p: Pat, ghost s: Self, ghost active: Active) returns (r: Option<Tree>)
      requires Ready(s, active) && PatWf(g, p) && p.SepBy? && position < |ts|
      requires position == s.start ==> LeftOk(g, s.rule, s.rank, p)
      modifies this
      ensures Answered(s, active, ElemAt(g, ts, p, old(position), s), r, old(cache))
      ensures position == if r.Some? then ElemAt(g, ts, p, old(position), s).res.pos else old(position)
      decreases |ts| - position, RankAt(g, s, position), 0, p, 0, 1
    {
      ghost var all := ElemAt(g, ts, p, position, s);
      ghost var touched := ElemAt(g, ts, p.item, position, s).touched;
      var first := Single(p.item, s, active);
      if first.None? {
        return None;
      }
      var items := [first.value];
      while true
        invariant Ready(s, active) && old(position) <= position
        invariant KeptBy(g, ts, s, touched, active, old(cache), cache)
        invariant position == s.start ==> LeftOk(g, s.rule, s.rank, p) && LeftOk(g, s.rule, s.rank, p.sep)
        invariant
          var rest := SepTailAt(g, ts, p, position, s);
          all == Out(Ok(List(items + rest.res.val), rest.res.pos), touched || rest.touched)
        decreases |ts| - position
      {
        ghost var o, known := NextItemAt(g, ts, p, position, s), cache;
        SepStep(g, ts, p, position, s, items, touched, all);
        var item := NextItem(p, s, active);
        KeptTwice(g, ts, s, touched, o.touched, active, old(cache), known, cache);
        touched := touched || o.touched;
        if item.None? {
          break;
        }
        items := items + [item.value];
      }
      r := Some(List(items));
    }
  }
}
