/** From program text to parser: what the parser asks of its tokens, the lexer's streams have. */
module Pipeline {
  import opened Tokens
  import opened Grammar
  import opened Reference
  import opened Engine
  import opened Stream
  import opened Lexers

  /** Tokens that are handed on keep their order. */
  lemma {:induction false} WantedKeepsOrder(ts: seq<Token>, noNl: bool, noComments: bool, i: nat, j: nat)
    returns (i': nat, j': nat)
    requires i < j < |Wanted(ts, noNl, noComments)|
    ensures i' < j' < |ts|
    ensures ts[i'] == Wanted(ts, noNl, noComments)[i] && ts[j'] == Wanted(ts, noNl, noComments)[j]
    decreases |ts|
  {
    var before := ts[..|ts| - 1];
    var w := Wanted(before, noNl, noComments);
    if j < |w| {
      i', j' := WantedKeepsOrder(before, noNl, noComments, i, j);
    } else {
      j' := |ts| - 1;
      i' := WantedFrom(before, noNl, noComments, i);
    }
  }

  lemma {:induction false} WantedFrom(ts: seq<Token>, noNl: bool, noComments: bool, i: nat) returns (i': nat)
    requires i < |Wanted(ts, noNl, noComments)|
    ensures i' < |ts| && ts[i'] == Wanted(ts, noNl, noComments)[i]
    decreases |ts|
  {
    var before := ts[..|ts| - 1];
    if i < |Wanted(before, noNl, noComments)| {
      i' := WantedFrom(before, noNl, noComments, i);
    } else {
      i' := |ts| - 1;
    }
  }

  /** In what the lexer hands on, only DEDENTs can share a cache key. */
  lemma ClashIsDedent(p: string, ts: seq<Token>, at: nat, noNl: bool, noComments: bool, i: nat)
    requires Tiles(p, ts, at) && Solid(ts)
    requires i < |Wanted(ts, noNl, noComments)| && !Unique(Wanted(ts, noNl, noComments), i)
    ensures Wanted(ts, noNl, noComments)[i].kind == DEDENT
  {
    var w := Wanted(ts, noNl, noComments);
    var j :| 0 <= j < |w| && j != i && SameToken(w, i, j);
    var first, second := if i < j then i else j, if i < j then j else i;
    var i', j' := WantedKeepsOrder(ts, noNl, noComments, first, second);
    OnlyDedentsClash(p, ts, at, i', j');
  }

  /**
   So the cache of the parser may be trusted on the tokens that the lexer serves, of every program, if no cached rule
   can begin at a DEDENT.
   */
  lemma LexedIsBenign(g: Grammar, lexer: Lexer)
    requires Wf(g) && lexer.Valid() && lexer.Served()
    requires forall i, r :: 0 <= i < |lexer.queue| && lexer.queue[i].kind == DEDENT && r in g.cached ==>
      RuleAt(g, lexer.queue, r, i).Fail?
    ensures Benign(g, lexer.queue)
  {
    var ts := lexer.queue;
    if lexer.cursor <= |lexer.program| {
      WorkingStream(lexer);
    } else {
      FinishedStream(lexer);
    }
    forall i, r | 0 <= i < |ts| && !Unique(ts, i) && r in g.cached
      ensures RuleAt(g, ts, r, i).Fail?
    {
      ClashIsDedent(lexer.program, lexer.emitted, if lexer.cursor <= |lexer.program| then lexer.cursor else |lexer.program|,
                    lexer.ignoreNl, lexer.ignoreComments, i);
    }
  }
}
