/**
 Grammars of the pattern combinators, and the static conditions under which the engine is used.

 A pattern is one C++ pattern type. A rule is a named pattern type (or a combinator type that has a
 cacheable result): its body is the ordered list of sequences that `matches_impl` tries.
 */
module Grammar {
  import opened Tokens

  type RuleId = int

  /** Stands for the caller of the outermost pattern. */
  const NO_RULE: RuleId := -1

  /** One element of a sequence. */
  datatype Pat =
    | Tok(kind: Kind)                                    // SingleTokenPatternV2
    | Lit(kind: Kind, words: set<string>, want: bool)    // AndLiteralV2, AndNotLiteralV2
    | Any                                                // AnyToken
    | Call(rule: RuleId)
    | Group(ps: Pats)                                    // GroupPatternsV2
    | Or(ps: Pats)                                       // OrPatternV2
    | Star(ps: Pats)                                     // ZeroOrMorePatternV2
    | Plus(ps: Pats)                                     // OneOrMorePatternV2
    | Opt(ps: Pats)                                      // ZeroOrOnePatternV2
    | SepBy(item: Pat, sep: Pat)                         // ApplyInBetweenPatternV2
    | And(operand: Pat)                                  // LookAheadV2
    | Not(operand: Pat)                                  // NegativeLookAheadV2

  /** The pattern list of a `PatternMatchV2`; never empty. */
  datatype Pats = One(p: Pat) | More(p: Pat, rest: Pats)

  /** The sequences a rule tries, in order. */
  datatype Alts = Done | Alt(ps: Pats, rest: Alts)

  /**
   `cached` holds the rules whose result type the cache can store. `nullable` and `rank` are a certificate
   that the grammar is well formed: every rule that may succeed on no tokens is in `nullable`, and a rule
   only reaches rules of smaller rank, or itself, before consuming a token.
   */
  datatype Grammar = Grammar(
    alts: map<RuleId, Alts>, cached: set<RuleId>, nullable: set<RuleId>, rank: map<RuleId, nat>, top: nat)

  predicate Nullable(g: Grammar, p: Pat) {
    match p
    case Tok(_) => false
    case Lit(_, _, _) => false
    case Any => false
    case Call(q) => q in g.nullable
    case Group(ps) => SeqNullable(g, ps)
    case Or(ps) => OrNullable(g, ps)
    case Star(_) => true
    case Plus(ps) => SeqNullable(g, ps)
    case Opt(_) => true
    case SepBy(item, _) => Nullable(g, item)
    case And(_) => true
    case Not(_) => true
  }

  predicate SeqNullable(g: Grammar, ps: Pats) {
    match ps
    case One(p) => Nullable(g, p)
    case More(p, rest) => Nullable(g, p) && SeqNullable(g, rest)
  }

  predicate OrNullable(g: Grammar, ps: Pats) {
    match ps
    case One(p) => Nullable(g, p)
    case More(p, rest) => Nullable(g, p) || OrNullable(g, rest)
  }

  /** Called rules exist, repetitions consume, and a lookahead operand is not a cached rule. */
  predicate PatWf(g: Grammar, p: Pat) {
    match p
    case Tok(_) => true
    case Lit(_, _, _) => true
    case Any => true
    case Call(q) => q in g.alts
    case Group(ps) => SeqWf(g, ps)
    case Or(ps) => SeqWf(g, ps)
    case Star(ps) => SeqWf(g, ps) && !SeqNullable(g, ps)
    case Plus(ps) => SeqWf(g, ps) && !SeqNullable(g, ps)
    case Opt(ps) => SeqWf(g, ps)
    case SepBy(item, sep) => PatWf(g, item) && PatWf(g, sep) && !(Nullable(g, item) && Nullable(g, sep))
    case And(x) => PatWf(g, x) && !(x.Call? && x.rule in g.cached)
    case Not(x) => PatWf(g, x) && !(x.Call? && x.rule in g.cached)
  }

  predicate SeqWf(g: Grammar, ps: Pats) {
    match ps
    case One(p) => PatWf(g, p)
    case More(p, rest) => PatWf(g, p) && SeqWf(g, rest)
  }

  /** What `p` may call before a token is consumed, inside rule `r` of rank `rank`. */
  predicate LeftOk(g: Grammar, r: RuleId, rank: nat, p: Pat)
    requires PatWf(g, p) && g.alts.Keys <= g.rank.Keys
  {
    match p
    case Tok(_) => true
    case Lit(_, _, _) => true
    case Any => true
    case Call(q) => g.rank[q] < rank || (q == r && r in g.cached)
    case Group(ps) => SeqLeftOk(g, r, rank, ps)
    case Or(ps) => OrLeftOk(g, r, rank, ps)
    case Star(ps) => SeqLeftOk(g, r, rank, ps)
    case Plus(ps) => SeqLeftOk(g, r, rank, ps)
    case Opt(ps) => SeqLeftOk(g, r, rank, ps)
    case SepBy(item, sep) => LeftOk(g, r, rank, item) && (Nullable(g, item) ==> LeftOk(g, r, rank, sep))
    case And(x) => LeftOk(g, r, rank, x)
    case Not(x) => LeftOk(g, r, rank, x)
  }

  predicate SeqLeftOk(g: Grammar, r: RuleId, rank: nat, ps: Pats)
    requires SeqWf(g, ps) && g.alts.Keys <= g.rank.Keys
  {
    match ps
    case One(p) => LeftOk(g, r, rank, p)
    case More(p, rest) => LeftOk(g, r, rank, p) && (Nullable(g, p) ==> SeqLeftOk(g, r, rank, rest))
  }

  predicate OrLeftOk(g: Grammar, r: RuleId, rank: nat, ps: Pats)
    requires SeqWf(g, ps) && g.alts.Keys <= g.rank.Keys
  {
    match ps
    case One(p) => LeftOk(g, r, rank, p)
    case More(p, rest) => LeftOk(g, r, rank, p) && OrLeftOk(g, r, rank, rest)
  }

  predicate AltsOk(g: Grammar, r: RuleId, rank: nat, alts: Alts)
    requires g.alts.Keys <= g.rank.Keys
  {
    match alts
    case Done => true
    case Alt(ps, rest) =>
      && SeqWf(g, ps)
      && SeqLeftOk(g, r, rank, ps)
      && (SeqNullable(g, ps) ==> r in g.nullable)
      && AltsOk(g, r, rank, rest)
  }

  ghost predicate Wf(g: Grammar) {
    && NO_RULE !in g.alts
    && g.alts.Keys <= g.rank.Keys
    && g.cached <= g.alts.Keys
    && forall r :: r in g.alts ==> g.rank[r] < g.top && AltsOk(g, r, g.rank[r], g.alts[r])
  }

  /** Nothing is below the outermost pattern, so it may call any rule first. */
  lemma {:induction false} TopLeftOk(g: Grammar, r: RuleId, p: Pat)
    requires Wf(g) && PatWf(g, p)
    ensures LeftOk(g, r, g.top, p)
    decreases p
  {
    match p
    case Tok(_) =>
    case Lit(_, _, _) =>
    case Any =>
    case Call(_) =>
    case SepBy(item, sep) => TopLeftOk(g, r, item); TopLeftOk(g, r, sep);
    case And(x) => TopLeftOk(g, r, x);
    case Not(x) => TopLeftOk(g, r, x);
    case _ => TopSeqLeftOk(g, r, p.ps);
  }

  lemma {:induction false} TopSeqLeftOk(g: Grammar, r: RuleId, ps: Pats)
    requires Wf(g) && SeqWf(g, ps)
    ensures SeqLeftOk(g, r, g.top, ps) && OrLeftOk(g, r, g.top, ps)
    decreases ps
  {
    TopLeftOk(g, r, ps.p);
    if ps.More? {
      TopSeqLeftOk(g, r, ps.rest);
    }
  }
}
