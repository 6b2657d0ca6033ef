/**
 The meaning of a grammar, with no cache and no state.

 A rule that calls itself before consuming a token is given by seed growing: its body is evaluated with
 that call failing, and then again and again with the call answering the previous result, for as long as
 the result gets longer.
 */
module Reference {
  import opened Tokens
  import opened Grammar

  /** What a successful match builds. */
  datatype Tree =
    | Leaf(token: Token)
    | Node(rule: RuleId, alt: nat, kids: seq<Tree>)
    | Tuple(kids: seq<Tree>)
    | List(items: seq<Tree>)
    | Absent
    | Unit

  datatype Res<+T> = Fail | Ok(val: T, pos: nat)

  /** A result, and whether the enclosing rule's own call at its own start was consulted. */
  datatype Out<+T> = Out(res: Res<T>, touched: bool)

  /** The enclosing rule evaluation: what a call of `rule` at `start` answers. */
  datatype Self = Self(rule: RuleId, rank: nat, start: nat, seed: Res<Tree>)

  ghost predicate SelfOk(g: Grammar, n: nat, s: Self)
    requires Wf(g)
  {
    && s.rank <= g.top
    && s.start <= n
    && (s.rule in g.alts ==> s.rank == g.rank[s.rule])
    && (s.seed.Ok? ==> s.start < s.seed.pos <= n)
  }

  function TokenMatches(p: Pat, t: Token): bool
    requires p.Tok? || p.Lit? || p.Any?
  {
    match p
    case Tok(kind) => t.kind == kind
    case Lit(kind, words, want) => t.kind == kind && (t.text in words) == want
    case Any => true
  }

  /** A repeated sequence of one pattern yields its value, a longer one yields a tuple. */
  function Item(ps: Pats, kids: seq<Tree>): Tree {
    if ps.One? && |kids| == 1 then kids[0] else Tuple(kids)
  }

  ghost predicate Within(g: Grammar, ts: seq<Token>, s: Self, j: nat) {
    Wf(g) && SelfOk(g, |ts|, s) && s.start <= j <= |ts|
  }

  ghost function RankAt(g: Grammar, s: Self, j: nat): nat {
    if j == s.start then s.rank else g.top
  }

  /** One element of a sequence, at `j`. At the end of the stream every element fails. */
  ghost function ElemAt(g: Grammar, ts: seq<Token>, p: Pat, j: nat, s: Self): (o: Out<Tree>)
    requires Within(g, ts, s, j) && PatWf(g, p)
    requires j == s.start ==> LeftOk(g, s.rule, s.rank, p)
    ensures o.res.Ok? ==> j <= o.res.pos <= |ts|
    ensures o.res.Ok? && !Nullable(g, p) ==> j < o.res.pos
    decreases |ts| - j, RankAt(g, s, j), 0, p, 1
  {
    if j == |ts| then Out(Fail, false)
    else match p
      case Tok(_) => Out(if TokenMatches(p, ts[j]) then Ok(Leaf(ts[j]), j + 1) else Fail, false)
      case Lit(_, _, _) => Out(if TokenMatches(p, ts[j]) then Ok(Leaf(ts[j]), j + 1) else Fail, false)
      case Any => Out(Ok(Leaf(ts[j]), j + 1), false)
      case Call(q) =>
        if q == s.rule && j == s.start && q in g.cached then Out(s.seed, true)
        else Out(RuleAt(g, ts, q, j), false)
      case Group(ps) =>
        var o := SeqAt(g, ts, ps, j, s);
        Out(if o.res.Fail? then Fail else Ok(Tuple(o.res.val), o.res.pos), o.touched)
      case Or(ps) => OrAt(g, ts, ps, j, s)
      case Star(ps) =>
        var o := ManyAt(g, ts, ps, j, s);
        Out(Ok(List(o.res.val), o.res.pos), o.touched)
      case Plus(ps) =>
        var o := ManyAt(g, ts, ps, j, s);
        Out(if o.res.val == [] then Fail else Ok(List(o.res.val), o.res.pos), o.touched)
      case Opt(ps) =>
        var o := SeqAt(g, ts, ps, j, s);
        Out(if o.res.Fail? then Ok(Absent, j) else Ok(Item(ps, o.res.val), o.res.pos), o.touched)
      case SepBy(item, _) =>
        var o := ElemAt(g, ts, item, j, s);
        if o.res.Fail? then Out(Fail, o.touched)
        else
          var o' := SepTailAt(g, ts, p, o.res.pos, s);
          Out(Ok(List([o.res.val] + o'.res.val), o'.res.pos), o.touched || o'.touched)
      case And(x) =>
        var o := ElemAt(g, ts, x, j, s);
        Out(if o.res.Ok? then Ok(Unit, j) else Fail, o.touched)
      case Not(x) =>
        var o := ElemAt(g, ts, x, j, s);
        Out(if o.res.Ok? then Fail else Ok(Unit, j), o.touched)
  }

  ghost function SeqAt(g: Grammar, ts: seq<Token>, ps: Pats, j: nat, s: Self): (o: Out<seq<Tree>>)
    requires Within(g, ts, s, j) && SeqWf(g, ps)
    requires j == s.start ==> SeqLeftOk(g, s.rule, s.rank, ps)
    ensures o.res.Ok? ==> j <= o.res.pos <= |ts|
    ensures o.res.Ok? && !SeqNullable(g, ps) ==> j < o.res.pos
    ensures o.res.Ok? && ps.One? ==> |o.res.val| == 1
    decreases |ts| - j, RankAt(g, s, j), 0, ps, 0
  {
    var o := ElemAt(g, ts, ps.p, j, s);
    match ps
    case One(_) => Out(if o.res.Fail? then Fail else Ok([o.res.val], o.res.pos), o.touched)
    case More(_, rest) =>
      if o.res.Fail? then Out(Fail, o.touched)
      else
        var o' := SeqAt(g, ts, rest, o.res.pos, s);
        Out(if o'.res.Fail? then Fail else Ok([o.res.val] + o'.res.val, o'.res.pos), o.touched || o'.touched)
  }

  ghost function OrAt(g: Grammar, ts: seq<Token>, ps: Pats, j: nat, s: Self): (o: Out<Tree>)
    requires Within(g, ts, s, j) && SeqWf(g, ps)
    requires j == s.start ==> OrLeftOk(g, s.rule, s.rank, ps)
    ensures o.res.Ok? ==> j <= o.res.pos <= |ts|
    ensures o.res.Ok? && !OrNullable(g, ps) ==> j < o.res.pos
    decreases |ts| - j, RankAt(g, s, j), 0, ps, 0
  {
    var o := ElemAt(g, ts, ps.p, j, s);
    if o.res.Ok? || ps.One? then o
    else
      var o' := OrAt(g, ts, ps.rest, j, s);
      Out(o'.res, o.touched || o'.touched)
  }

  /** The longest run of `ps`; never fails. */
  ghost function ManyAt(g: Grammar, ts: seq<Token>, ps: Pats, j: nat, s: Self): (o: Out<seq<Tree>>)
    requires Within(g, ts, s, j) && SeqWf(g, ps) && !SeqNullable(g, ps)
    requires j == s.start ==> SeqLeftOk(g, s.rule, s.rank, ps)
    ensures o.res.Ok? && j <= o.res.pos <= |ts|
    ensures o.res.val == [] <==> o.res.pos == j
    decreases |ts| - j, RankAt(g, s, j), 0, ps, 1
  {
    var o := SeqAt(g, ts, ps, j, s);
    if o.res.Fail? then Out(Ok([], j), o.touched)
    else
      var o' := ManyAt(g, ts, ps, o.res.pos, s);
      Out(Ok([Item(ps, o.res.val)] + o'.res.val, o'.res.pos), o.touched || o'.touched)
  }

  /** The items of a separated list that follow one ending at `j`. */
  ghost function SepTailAt(g: Grammar, ts: seq<Token>, p: Pat, j: nat, s: Self): (o: Out<seq<Tree>>)
    requires Within(g, ts, s, j) && PatWf(g, p) && p.SepBy?
    requires j == s.start ==> LeftOk(g, s.rule, s.rank, p) && LeftOk(g, s.rule, s.rank, p.sep)
    ensures o.res.Ok? && j <= o.res.pos <= |ts|
    decreases |ts| - j, RankAt(g, s, j), 0, p, 0
  {
    var o := ElemAt(g, ts, p.sep, j, s);
    if o.res.Fail? then Out(Ok([], j), o.touched)
    else
      var o' := ElemAt(g, ts, p.item, o.res.pos, s);
      if o'.res.Fail? then Out(Ok([], j), o.touched || o'.touched)
      else
        var o'' := SepTailAt(g, ts, p, o'.res.pos, s);
        Out(Ok([o'.res.val] + o''.res.val, o''.res.pos), o.touched || o'.touched || o''.touched)
  }

  /** A separator and the item after it. */
  ghost function NextItemAt(g: Grammar, ts: seq<Token>, p: Pat, j: nat, s: Self): (o: Out<Tree>)
    requires Within(g, ts, s, j) && PatWf(g, p) && p.SepBy?
    requires j == s.start ==> LeftOk(g, s.rule, s.rank, p) && LeftOk(g, s.rule, s.rank, p.sep)
    ensures o.res.Ok? ==> j < o.res.pos <= |ts|
  {
    var o := ElemAt(g, ts, p.sep, j, s);
    if o.res.Fail? then o
    else
      var o' := ElemAt(g, ts, p.item, o.res.pos, s);
      Out(o'.res, o.touched || o'.touched)
  }

  /** The first of the rule's sequences that matches. */
  ghost function AltsAt(g: Grammar, ts: seq<Token>, alts: Alts, index: nat, s: Self): (o: Out<Tree>)
    requires Within(g, ts, s, s.start) && AltsOk(g, s.rule, s.rank, alts)
    ensures o.res.Ok? ==> s.start <= o.res.pos <= |ts|
    ensures o.res.Ok? && s.rule !in g.nullable ==> s.start < o.res.pos
    decreases |ts| - s.start, s.rank, 0, alts, 0
  {
    match alts
    case Done => Out(Fail, false)
    case Alt(ps, rest) =>
      var o := SeqAt(g, ts, ps, s.start, s);
      if o.res.Ok? then Out(Ok(Node(s.rule, index, o.res.val), o.res.pos), o.touched)
      else
        var o' := AltsAt(g, ts, rest, index + 1, s);
        Out(o'.res, o.touched || o'.touched)
  }

  ghost function BodyAt(g: Grammar, ts: seq<Token>, r: RuleId, i: nat, seed: Res<Tree>): (o: Out<Tree>)
    requires Wf(g) && r in g.alts && i <= |ts|
    requires seed.Ok? ==> i < seed.pos <= |ts|
    ensures o.res.Ok? ==> i <= o.res.pos <= |ts|
    ensures o.res.Ok? && r !in g.nullable ==> i < o.res.pos
    decreases |ts| - i, g.rank[r], 1
  {
    AltsAt(g, ts, g.alts[r], 0, Self(r, g.rank[r], i, seed))
  }

  /** Re-evaluate the body on its own previous result until that no longer lengthens it. */
  ghost function GrowAt(g: Grammar, ts: seq<Token>, r: RuleId, i: nat, seed: Res<Tree>): (res: Res<Tree>)
    requires Wf(g) && r in g.alts && i <= |ts|
    requires seed.Ok? && i < seed.pos <= |ts|
    ensures res.Ok? && seed.pos <= res.pos <= |ts|
    decreases |ts| - i, g.rank[r], 2, |ts| - seed.pos
  {
    var next := BodyAt(g, ts, r, i, seed).res;
    if next.Fail? || next.pos <= seed.pos then seed else GrowAt(g, ts, r, i, next)
  }

  /** A rule at position `i`. A left-recursive rule whose body matches no token fails. */
  ghost function RuleAt(g: Grammar, ts: seq<Token>, r: RuleId, i: nat): (res: Res<Tree>)
    requires Wf(g) && r in g.alts && i <= |ts|
    ensures res.Ok? ==> i <= res.pos <= |ts|
    ensures res.Ok? && r !in g.nullable ==> i < res.pos
    decreases |ts| - i, g.rank[r], 3
  {
    var o := BodyAt(g, ts, r, i, Fail);
    if o.res.Fail? || !o.touched || r !in g.cached then o.res
    else if o.res.pos <= i then Fail
    else GrowAt(g, ts, r, i, o.res)
  }

  /** The outermost sequence. */
  ghost function ParseAt(g: Grammar, ts: seq<Token>, ps: Pats, i: nat): (res: Res<seq<Tree>>)
    requires Wf(g) && SeqWf(g, ps) && i <= |ts|
    ensures res.Ok? ==> i <= res.pos <= |ts|
  {
    TopSeqLeftOk(g, NO_RULE, ps);
    SeqAt(g, ts, ps, i, Self(NO_RULE, g.top, i, Fail)).res
  }
}
