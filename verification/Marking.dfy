/** Colours, reachability, and the marking phase of the collector. */
module Marking {
  import opened Slabs

  /** The two-bit state of a header. */
  datatype Bits = Bits(b0: bool, b1: bool)

  const WHITE := Bits(false, false)
  const GREY := Bits(false, true)
  const BLACK := Bits(true, true)

  predicate Black(x: Bits) { x.b0 && x.b1 }

  /** True of grey cells, and of black ones. */
  predicate Grey(x: Bits) { x.b1 }

  predicate White(x: Bits) { !x.b0 && !x.b1 }

  type Refs = map<int, seq<int>>

  /** `is_static_memory` of the object behind the header at `a`. */
  predicate IsStatic(st: Static, a: int) {
    st.low <= a + HEADER < st.high
  }

  /** What the marker is given: the cells, what each refers to, and where static memory lies. */
  datatype Graph = Graph(cells: set<int>, refs: Refs, st: Static)

  /** Every cell refers only to cells and to static memory; no cell is static. */
  ghost predicate Closed(g: Graph) {
    && g.refs.Keys == g.cells
    && (forall a :: a in g.cells ==> !IsStatic(g.st, a))
    && forall a, k :: a in g.cells && 0 <= k < |g.refs[a]| ==> g.refs[a][k] in g.cells || IsStatic(g.st, g.refs[a][k])
  }

  /** A path from a root that never goes through static memory. */
  ghost predicate IsPath(g: Graph, roots: set<int>, path: seq<int>) {
    && |path| > 0
    && path[0] in roots
    && (forall k :: 0 <= k < |path| ==> !IsStatic(g.st, path[k]))
    && forall j, k :: 0 <= j < k < |path| && k == j + 1 ==> RefersTo(g, path[j], path[k])
  }

  ghost predicate RefersTo(g: Graph, a: int, b: int) {
    a in g.refs && b in g.refs[a]
  }

  ghost predicate Reachable(g: Graph, roots: set<int>, a: int) {
    exists path :: IsPath(g, roots, path) && path[|path| - 1] == a
  }

  lemma RootReachable(g: Graph, roots: set<int>, a: int)
    requires a in roots && !IsStatic(g.st, a)
    ensures Reachable(g, roots, a)
  {
    assert IsPath(g, roots, [a]);
  }

  lemma ReachStep(g: Graph, roots: set<int>, a: int, b: int)
    requires Reachable(g, roots, a) && RefersTo(g, a, b) && !IsStatic(g.st, b)
    ensures Reachable(g, roots, b)
  {
    var path :| IsPath(g, roots, path) && path[|path| - 1] == a;
    var longer := path + [b];
    assert IsPath(g, roots, longer) && longer[|longer| - 1] == b;
  }

  /** A set that holds the roots and the non-static references of its members holds all that is reachable. */
  lemma {:induction false} ReachableWithin(g: Graph, roots: set<int>, s: set<int>, path: seq<int>)
    requires IsPath(g, roots, path)
    requires roots <= s
    requires forall a, b :: a in s && RefersTo(g, a, b) && !IsStatic(g.st, b) ==> b in s
    ensures path[|path| - 1] in s
    decreases |path|
  {
    if |path| > 1 {
      var shorter := path[..|path| - 1];
      assert IsPath(g, roots, shorter);
      ReachableWithin(g, roots, s, shorter);
    }
  }

  /** All cells that can be reached. */
  ghost function ReachSet(g: Graph, roots: set<int>): set<int> {
    set a | a in g.cells && Reachable(g, roots, a)
  }

  /** Header states during marking, and the stack of cells still to visit: each grey cell is on it exactly once. */
  ghost predicate Coloured(g: Graph, colour: map<int, Bits>, stack: seq<int>) {
    && (forall a :: a in g.cells ==> a in colour && (colour[a] == WHITE || colour[a] == GREY || colour[a] == BLACK))
    && (forall k :: 0 <= k < |stack| ==> stack[k] in g.cells && colour[stack[k]] == GREY)
    && (forall j, k :: 0 <= j < k < |stack| ==> stack[j] != stack[k])
    && (forall a :: a in g.cells && colour[a] == GREY ==> a in stack)
  }

  /** The cells that are not white. */
  ghost predicate Marked(g: Graph, colour: map<int, Bits>, a: int) {
    a in g.cells && a in colour && colour[a] != WHITE
  }

  ghost predicate RefsMarked(g: Graph, colour: map<int, Bits>, a: int) {
    forall b :: RefersTo(g, a, b) && b in g.cells ==> Marked(g, colour, b)
  }

  /**
   The tri-colour invariant: roots are marked, only members of `reach` are, and black cells, other than the one that is
   being looked at, refer to nothing white.
   */
  ghost predicate TriColour(g: Graph, roots: set<int>, reach: set<int>, colour: map<int, Bits>, stack: seq<int>, open: set<int>) {
    && Coloured(g, colour, stack)
    && (forall a :: Marked(g, colour, a) ==> a in reach)
    && (forall a :: a in roots ==> Marked(g, colour, a))
    && (forall a :: a in g.cells && colour[a] == BLACK && a !in open ==> RefsMarked(g, colour, a))
  }

  /** Just the roots are grey, and everything else is white. */
  ghost predicate OnlyGrey(g: Graph, roots: set<int>, colour: map<int, Bits>) {
    forall a :: a in g.cells ==> a in colour && colour[a] == if a in roots then GREY else WHITE
  }

  ghost function NotBlack(g: Graph, colour: map<int, Bits>): set<int> {
    set a | a in g.cells && a in colour && colour[a] != BLACK
  }

  /** With nothing left to visit, the marked cells are exactly the reachable ones. */
  lemma MarkedIsReachable(g: Graph, roots: set<int>, colour: map<int, Bits>)
    requires Closed(g) && TriColour(g, roots, ReachSet(g, roots), colour, [], {})
    ensures forall a :: a in g.cells ==> (Marked(g, colour, a) <==> Reachable(g, roots, a))
  {
    var marked := set a | a in g.cells && Marked(g, colour, a);
    forall a, b | a in marked && RefersTo(g, a, b) && !IsStatic(g.st, b)
      ensures b in marked
    {
      assert RefsMarked(g, colour, a);
    }
    assert forall a :: a in roots ==> a in marked;
    forall a | a in g.cells && Reachable(g, roots, a)
      ensures Marked(g, colour, a)
    {
      var path :| IsPath(g, roots, path) && path[|path| - 1] == a;
      ReachableWithin(g, roots, marked, path);
    }
  }

  /** Greying a white cell keeps the invariant. */
  lemma GreyStep(g: Graph, roots: set<int>, reach: set<int>, colour: map<int, Bits>, stack: seq<int>, open: set<int>, b: int)
    requires TriColour(g, roots, reach, colour, stack, open)
    requires b in g.cells && colour[b] == WHITE && b in reach
    ensures TriColour(g, roots, reach, colour[b := GREY], stack + [b], open)
    ensures NotBlack(g, colour[b := GREY]) == NotBlack(g, colour)
    ensures Marked(g, colour[b := GREY], b) && forall a :: Marked(g, colour, a) ==> Marked(g, colour[b := GREY], a)
  {
    var colour' := colour[b := GREY];
    assert (stack + [b])[|stack|] == b;
    forall a | a in g.cells && colour'[a] == BLACK && a !in open
      ensures RefsMarked(g, colour', a)
    {
      assert RefsMarked(g, colour, a);
    }
  }

  /** Blackening the top of the stack keeps the invariant, but for the references of that cell. */
  lemma BlackStep(g: Graph, roots: set<int>, reach: set<int>, colour: map<int, Bits>, stack: seq<int>)
    requires TriColour(g, roots, reach, colour, stack, {}) && |stack| > 0
    ensures
      var a, rest := stack[|stack| - 1], stack[..|stack| - 1];
      && TriColour(g, roots, reach, colour[a := BLACK], rest, {a})
      && NotBlack(g, colour[a := BLACK]) == NotBlack(g, colour) - {a}
      && a in NotBlack(g, colour)
  {
    var a, rest := stack[|stack| - 1], stack[..|stack| - 1];
    var colour' := colour[a := BLACK];
    forall x | x in g.cells && colour'[x] == GREY
      ensures x in rest
    {
      var k :| 0 <= k < |stack| && stack[k] == x;
      assert rest[k] == x;
    }
    forall x | x in g.cells && colour'[x] == BLACK && x !in {a}
      ensures RefsMarked(g, colour', x)
    {
      assert RefsMarked(g, colour, x);
    }
  }

  class Marker {
    var colour: map<int, Bits>
    var stack: seq<int>

    constructor ()
      ensures colour == map[] && stack == []
    {
      colour, stack := map[], [];
    }

    /** `add_root`: grey a white cell and push it; a cell that is already grey is on the stack. */
    method AddRoot(ghost g: Graph, ghost roots: set<int>, ghost reach: set<int>, a: int)
      requires a in g.cells && a in reach && TriColour(g, roots, reach, colour, stack, {})
      requires OnlyGrey(g, roots, colour)
      modifies this
      ensures TriColour(g, roots + {a}, reach, colour, stack, {}) && OnlyGrey(g, roots + {a}, colour)
    {
      assert !Black(colour[a]);
      if Grey(colour[a]) {
        return;
      }
      assert White(colour[a]);
      GreyStep(g, roots, reach, colour, stack, {}, a);
      colour := colour[a := GREY];
      stack := stack + [a];
    }

    /** `MarkGCVisitor::visit`: grey the white references of a cell that has just become black. */
    method Visit(ghost g: Graph, ghost roots: set<int>, ghost reach: set<int>, a: int, refs: seq<int>, st: Static)
      requires Closed(g) && a in g.cells && refs == g.refs[a] && st == g.st
      requires TriColour(g, roots, reach, colour, stack, {a})
      requires forall b :: RefersTo(g, a, b) && b in g.cells ==> b in reach
      modifies this
      ensures TriColour(g, roots, reach, colour, stack, {})
      ensures NotBlack(g, colour) == old(NotBlack(g, colour))
      ensures forall x :: x in g.cells ==> colour[x] == if old(colour)[x] == WHITE && x in refs then GREY else old(colour)[x]
    {
      var k := 0;
      while k < |refs|
        invariant k <= |refs|
        invariant TriColour(g, roots, reach, colour, stack, {a})
        invariant forall j :: 0 <= j < k && refs[j] in g.cells ==> Marked(g, colour, refs[j])
        invariant NotBlack(g, colour) == old(NotBlack(g, colour))
        invariant forall x :: x in g.cells ==>
          x in colour && colour[x] == if old(colour)[x] == WHITE && x in refs[..k] then GREY else old(colour)[x]
      {
        var b := refs[k];
        assert refs[..k + 1] == refs[..k] + [b];
        k := k + 1;
        if IsStatic(st, b) {
          continue;
        }
        assert RefersTo(g, a, b);
        if Black(colour[b]) {
          continue;
        }
        if Grey(colour[b]) {
          continue;
        }
        GreyStep(g, roots, reach, colour, stack, {a}, b);
        colour := colour[b := GREY];
        stack := stack + [b];
      }
      assert RefsMarked(g, colour, a) && refs[..k] == refs;
    }

    /** `mark_all_live_objects`: afterwards a cell is white exactly if it cannot be reached. */
    method Mark(ghost g: Graph, ghost roots: set<int>, refs: Refs, st: Static)
      requires refs == g.refs && st == g.st && Closed(g) && TriColour(g, roots, ReachSet(g, roots), colour, stack, {})
      modifies this
      ensures forall a :: a in g.cells ==> a in colour && (White(colour[a]) <==> !Reachable(g, roots, a))
    {
      ghost var reach := ReachSet(g, roots);
      while |stack| > 0
        invariant TriColour(g, roots, reach, colour, stack, {})
        decreases NotBlack(g, colour)
      {
        BlackStep(g, roots, reach, colour, stack);
        var a := stack[|stack| - 1];
        stack := stack[..|stack| - 1];
        if IsStatic(st, a) {
          continue;
        }
        assert Grey(colour[a]);
        ReachOn(g, roots, a);
        colour := colour[a := BLACK];
        Visit(g, roots, reach, a, refs[a], st);
      }
      MarkedIsReachable(g, roots, colour);
      assert forall a :: Marked(g, colour, a) <==> a in g.cells && !White(colour[a]);
    }
  }

  lemma ReachOn(g: Graph, roots: set<int>, a: int)
    requires Closed(g) && a in ReachSet(g, roots)
    ensures forall b :: RefersTo(g, a, b) && b in g.cells ==> b in ReachSet(g, roots)
  {
    forall b | RefersTo(g, a, b) && b in g.cells
      ensures b in ReachSet(g, roots)
    {
      ReachStep(g, roots, a, b);
    }
  }
}
