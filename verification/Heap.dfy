/**
 The garbage-collected heap: what one collection does to it, and what every run of the mutator and the collector keeps.
 */
module Heaps {
  import opened Slabs
  import opened Marking

  /** Block sizes of the slab, and the number of cells each starts with. */
  const SIZES: seq<nat> := [16, 32, 64, 128, 256, 512, 1024, 2048]
  const CAPACITY := 1000
  const FREQUENCY := 10000

  /** The heap as the mutator sees it. A weak reference is filed under the cell it refers to. */
  datatype State = State(
    cells: set<int>, refs: Refs, weak: map<int, seq<int>>, paused: bool, count: nat, frequency: nat)

  ghost function GraphOf(h: State, st: Static): Graph {
    Graph(h.cells, h.refs, st)
  }

  /** No cell refers to a freed one, and no weak reference is filed under a freed one. */
  ghost predicate Sound(h: State, st: Static) {
    && Closed(GraphOf(h, st))
    && forall a :: a in h.weak ==> a in h.cells || IsStatic(st, a)
  }

  /** Objects that the virtual machine or the interpreter holds. */
  ghost predicate Held(h: State, st: Static, held: seq<int>) {
    forall k :: 0 <= k < |held| ==> held[k] in h.cells || IsStatic(st, held[k])
  }

  /** Machine words that point just past a header of an occupied slot, and held objects outside static memory. */
  ghost function RootsOf(h: State, st: Static, words: seq<int>, held: seq<int>): set<int> {
    WordSet(h.cells, words) + HeldSet(st, held)
  }

  ghost predicate WillSweep(h: State) {
    !h.paused && h.count + 1 >= h.frequency
  }

  /** `MarkSweepGC::run`. */
  ghost function Collected(h: State, st: Static, words: seq<int>, held: seq<int>): State {
    if h.paused then h
    else if h.count + 1 < h.frequency then h.(count := h.count + 1)
    else
      var live := ReachSet(GraphOf(h, st), RootsOf(h, st, words, held));
      Kept(h, live).(count := 0)
  }

  /** Only `live` is left. */
  ghost function Kept(h: State, live: set<int>): State {
    h.(cells := live, refs := h.refs - (h.cells - live), weak := h.weak - (h.cells - live))
  }

  lemma SweptIsKept(h: State, after: State, g: Graph, roots: set<int>, freed: set<int>, colour: map<int, Bits>)
    requires g.cells == h.cells && Swept(h, after, freed, colour)
    requires forall a :: a in h.cells ==> a in colour && (White(colour[a]) <==> !Reachable(g, roots, a))
    requires freed == set a | a in h.cells && White(colour[a])
    ensures after == Kept(h, ReachSet(g, roots))
  {
    assert freed == h.cells - ReachSet(g, roots);
    assert h.cells - freed == ReachSet(g, roots);
  }

  /** A collection frees exactly what cannot be reached, so nothing that stays refers to anything freed. */
  lemma CollectedSound(h: State, st: Static, words: seq<int>, held: seq<int>)
    requires Sound(h, st) && Held(h, st, held)
    ensures Sound(Collected(h, st, words, held), st)
  {
    var g, roots := GraphOf(h, st), RootsOf(h, st, words, held);
    var h' := Collected(h, st, words, held);
    if WillSweep(h) {
      forall a, k | a in h'.cells && 0 <= k < |h'.refs[a]|
        ensures h'.refs[a][k] in h'.cells || IsStatic(st, h'.refs[a][k])
      {
        var b := h.refs[a][k];
        if !IsStatic(st, b) {
          assert RefersTo(g, a, b);
          ReachStep(g, roots, a, b);
        }
      }
    }
  }

  /** The smallest block whose cells hold an object of `bytes` bytes and its header. */
  function SizeClass(bytes: nat): (b: nat)
    requires bytes + HEADER <= 2048
    ensures b < |SIZES| && bytes + HEADER <= SIZES[b]
    ensures forall d :: 0 <= d < b ==> SIZES[d] < bytes + HEADER
  {
    var n := bytes + HEADER;
    if n <= 16 then 0
    else if n <= 32 then 1
    else if n <= 64 then 2
    else if n <= 128 then 3
    else if n <= 256 then 4
    else if n <= 512 then 5
    else if n <= 1024 then 6
    else 7
  }

  /** `Heap::reset`. */
  ghost function AfterReset(h: State, st: Static, words: seq<int>, held: seq<int>): State {
    Collected(h, st, words, held).(cells := {}, refs := map[])
  }

  ghost function Allocated(h: State, cell: int): State {
    h.(cells := h.cells + {cell}, refs := h.refs[cell := []])
  }

  ghost function Filed(h: State, target: int, cell: int): State {
    h.(weak := h.weak[target := (if target in h.weak then h.weak[target] else []) + [cell]])
  }

  class Heap {
    const slab: Slab
    const marker: Marker
    var refs: Refs
    var weak: map<int, seq<int>>
    var paused: bool
    var count: nat
    var frequency: nat

    /** Eight fresh blocks, none of which overlaps another or static memory. */
    constructor (st: Static, bases: seq<int>)
      requires |bases| == |SIZES|
      requires forall b, d :: 0 <= b < d < |SIZES| ==>
        var p, q := InitialBlock(SIZES[b], CAPACITY, bases[b]).pieces[0], InitialBlock(SIZES[d], CAPACITY, bases[d]).pieces[0];
        Apart(p.base, p.base + p.length, q.base, q.base + q.length)
      requires forall b :: 0 <= b < |SIZES| ==>
        var p := InitialBlock(SIZES[b], CAPACITY, bases[b]).pieces[0];
        Apart(p.base, p.base + p.length, st.low, st.high)
      ensures Valid() && slab.st == st && fresh(slab) && fresh(marker)
      ensures Abs() == State({}, map[], map[], false, 0, FREQUENCY) && Sound(Abs(), st)
    {
      slab := new Slab(st, SIZES, CAPACITY, bases);
      marker := new Marker();
      refs, weak, paused, count, frequency := map[], map[], false, 0, FREQUENCY;
      new;
      InitialLayout(SIZES, CAPACITY, bases, st);
    }

    ghost predicate Valid()
      reads this, slab
    {
      slab.Valid() && |slab.blocks| == |SIZES| && forall b :: 0 <= b < |SIZES| ==> slab.blocks[b].size == SIZES[b]
    }

    ghost function Abs(): State
      requires Valid()
      reads this, slab
    {
      State(slab.Cells(), refs, weak, paused, count, frequency)
    }

    /** `mark_all_cell_unreachable`: every slot, occupied or not, turns white. */
    method Whiten()
      requires Valid()
      modifies marker
      ensures forall x :: IsPlace(slab.blocks, x) ==> AllWhite(ChunkOf(slab.blocks, x), CHUNK_CELLS, marker.colour)
      ensures forall a :: a in Abs().cells ==> a in marker.colour && marker.colour[a] == WHITE
      ensures marker.stack == old(marker.stack)
    {
      var b := 0;
      while b < |slab.blocks|
        invariant b <= |slab.blocks| && marker.stack == old(marker.stack)
        invariant forall x :: IsPlace(slab.blocks, x) && x.block < b ==> AllWhite(ChunkOf(slab.blocks, x), CHUNK_CELLS, marker.colour)
      {
        var c := 0;
        while c < |slab.blocks[b].chunks|
          invariant c <= |slab.blocks[b].chunks| && marker.stack == old(marker.stack)
          invariant forall x :: IsPlace(slab.blocks, x) && (x.block < b || (x.block == b && x.chunk < c)) ==>
            AllWhite(ChunkOf(slab.blocks, x), CHUNK_CELLS, marker.colour)
        {
          var i := 0;
          while i < CHUNK_CELLS
            invariant 0 <= i <= CHUNK_CELLS && marker.stack == old(marker.stack)
            invariant forall x :: IsPlace(slab.blocks, x) && (x.block < b || (x.block == b && x.chunk < c)) ==>
              AllWhite(ChunkOf(slab.blocks, x), CHUNK_CELLS, marker.colour)
            invariant AllWhite(slab.blocks[b].chunks[c], i, marker.colour)
          {
            marker.colour := marker.colour[CellAt(slab.blocks[b].chunks[c], i) := WHITE];
            i := i + 1;
          }
          c := c + 1;
        }
        b := b + 1;
      }
      forall a | a in Abs().cells
        ensures a in marker.colour && marker.colour[a] == WHITE
      {
        var x :| IsPlace(slab.blocks, x) && HasAt(slab.blocks, slab.st, x, a);
        HasIsOccupied(ChunkOf(slab.blocks, x), a);
      }
    }

    /** The part of `collect_roots` that looks at machine words. */
    method WordRoots(words: seq<int>, ghost g: Graph, ghost reach: set<int>)
      requires Valid() && g.cells == slab.Cells()
      requires TriColour(g, {}, reach, marker.colour, marker.stack, {}) && OnlyGrey(g, {}, marker.colour)
      requires WordSet(g.cells, words) <= reach
      modifies marker
      ensures TriColour(g, WordSet(g.cells, words), reach, marker.colour, marker.stack, {})
      ensures OnlyGrey(g, WordSet(g.cells, words), marker.colour)
    {
      var k := 0;
      while k < |words|
        invariant k <= |words|
        invariant TriColour(g, WordSet(g.cells, words[..k]), reach, marker.colour, marker.stack, {})
        invariant OnlyGrey(g, WordSet(g.cells, words[..k]), marker.colour)
      {
        var address := words[k] - HEADER;
        var valid := slab.HasAddress(address);
        assert words[..k + 1] == words[..k] + [words[k]];
        if valid {
          assert WordSet(g.cells, words[..k + 1]) == WordSet(g.cells, words[..k]) + {address};
          assert address in WordSet(g.cells, words);
          marker.AddRoot(g, WordSet(g.cells, words[..k]), reach, address);
        } else {
          assert WordSet(g.cells, words[..k + 1]) == WordSet(g.cells, words[..k]);
        }
        k := k + 1;
      }
      assert words[..k] == words;
    }

    /** The part of `collect_roots` that looks at the objects of the virtual machine and the interpreter. */
    method HeldRoots(held: seq<int>, ghost g: Graph, ghost roots: set<int>, ghost reach: set<int>)
      requires g.st == slab.st && forall k :: 0 <= k < |held| ==> held[k] in g.cells || IsStatic(g.st, held[k])
      requires TriColour(g, roots, reach, marker.colour, marker.stack, {}) && OnlyGrey(g, roots, marker.colour)
      requires HeldSet(g.st, held) <= reach
      modifies marker
      ensures TriColour(g, roots + HeldSet(g.st, held), reach, marker.colour, marker.stack, {})
      ensures OnlyGrey(g, roots + HeldSet(g.st, held), marker.colour)
    {
      var k := 0;
      assert roots + HeldSet(g.st, held[..0]) == roots;
      while k < |held|
        invariant k <= |held|
        invariant TriColour(g, roots + HeldSet(g.st, held[..k]), reach, marker.colour, marker.stack, {})
        invariant OnlyGrey(g, roots + HeldSet(g.st, held[..k]), marker.colour)
      {
        assert held[..k + 1] == held[..k] + [held[k]];
        if !IsStatic(slab.st, held[k]) {
          assert held[k] in HeldSet(g.st, held);
          assert roots + HeldSet(g.st, held[..k + 1]) == roots + HeldSet(g.st, held[..k]) + {held[k]};
          marker.AddRoot(g, roots + HeldSet(g.st, held[..k]), reach, held[k]);
        } else {
          assert HeldSet(g.st, held[..k + 1]) == HeldSet(g.st, held[..k]);
        }
        k := k + 1;
      }
      assert held[..k] == held;
    }

    /** `collect_roots`: grey the roots and put them on the work stack. */
    method CollectRoots(words: seq<int>, held: seq<int>, ghost h: State)
      requires Valid() && h == Abs() && Sound(h, slab.st) && Held(h, slab.st, held)
      requires marker.stack == [] && forall a :: a in h.cells ==> a in marker.colour && marker.colour[a] == WHITE
      modifies marker
      ensures
        var g, roots := GraphOf(h, slab.st), RootsOf(h, slab.st, words, held);
        TriColour(g, roots, ReachSet(g, roots), marker.colour, marker.stack, {}) && OnlyGrey(g, roots, marker.colour)
    {
      ghost var g, roots := GraphOf(h, slab.st), RootsOf(h, slab.st, words, held);
      ghost var reach := ReachSet(g, roots);
      RootsAreReached(h, slab.st, words, held);
      WhiteStart(g, reach, marker.colour);
      WordRoots(words, g, reach);
      HeldRoots(held, g, WordSet(g.cells, words), reach);
    }

    /** Free the slot if it is occupied by a white cell. */
    method SweepSlot(x: Place, i: nat, ghost h: State) returns (ghost freed: set<int>)
      requires Valid() && h == Abs() && IsPlace(slab.blocks, x) && i < CHUNK_CELLS
      requires forall a :: a in h.cells ==> a in marker.colour
      modifies this, slab
      ensures Valid() && Swept(h, Abs(), freed, marker.colour)
      ensures IsPlace(slab.blocks, x)
      ensures slab.blocks == old(slab.blocks) || slab.blocks == SetSlot(old(slab.blocks), x, i, false)
      ensures var c := ChunkOf(slab.blocks, x); c.occupied[i] ==> CellAt(c, i) in marker.colour && !White(marker.colour[CellAt(c, i)])
    {
      freed := {};
      var c := slab.blocks[x.block].chunks[x.chunk];
      assert BlockOk(slab.blocks[x.block]);
      if c.occupied[i] {
        var a := CellAt(c, i);
        HasCell(c, i);
        assert HasAt(slab.blocks, slab.st, x, a);
        if White(marker.colour[a]) {
          weak := weak - {a};
          refs := refs - {a};
          slab.Free(x, a);
          freed := {a};
        }
      }
    }

    /** The white cells of one chunk are freed. */
    method SweepChunk(x: Place, ghost h: State) returns (ghost freed: set<int>)
      requires Valid() && h == Abs() && IsPlace(slab.blocks, x)
      requires forall a :: a in h.cells ==> a in marker.colour
      modifies this, slab
      ensures Valid() && Swept(h, Abs(), freed, marker.colour)
      ensures OnlyAt(old(slab.blocks), slab.blocks, x)
      ensures NoneWhite(ChunkOf(slab.blocks, x), CHUNK_CELLS, marker.colour)
    {
      freed := {};
      var i := 0;
      while i < CHUNK_CELLS
        invariant 0 <= i <= CHUNK_CELLS && Valid() && Swept(h, Abs(), freed, marker.colour)
        invariant OnlyAt(old(slab.blocks), slab.blocks, x)
        invariant NoneWhite(ChunkOf(slab.blocks, x), i, marker.colour)
      {
        ghost var now := Abs();
        ghost var before := slab.blocks;
        ghost var more := SweepSlot(x, i, now);
        StillOnlyAt(old(slab.blocks), before, slab.blocks, x, i);
        SweptTwice(h, now, Abs(), freed, more, marker.colour);
        freed := freed + more;
        i := i + 1;
      }
    }

    /** The white cells of one block are freed. */
    method SweepBlock(b: nat, ghost h: State) returns (ghost freed: set<int>)
      requires Valid() && h == Abs() && b < |slab.blocks| && forall a :: a in h.cells ==> a in marker.colour
      requires CleanBelow(slab.blocks, b, 0, marker.colour)
      modifies this, slab
      ensures Valid() && Swept(h, Abs(), freed, marker.colour)
      ensures SamePieces(old(slab.blocks), slab.blocks) && CleanBelow(slab.blocks, b + 1, 0, marker.colour)
    {
      freed := {};
      var c := 0;
      while c < |slab.blocks[b].chunks|
        invariant b < |slab.blocks| && c <= |slab.blocks[b].chunks| && Valid() && Swept(h, Abs(), freed, marker.colour)
        invariant SamePieces(old(slab.blocks), slab.blocks) && CleanBelow(slab.blocks, b, c, marker.colour)
        decreases |slab.blocks[b].chunks| - c
      {
        ghost var now := Abs();
        ghost var before := slab.blocks;
        ghost var more := SweepChunk(Place(b, c), now);
        SweptTwice(h, now, Abs(), freed, more, marker.colour);
        CleanNext(before, slab.blocks, Place(b, c), marker.colour);
        freed := freed + more;
        c := c + 1;
      }
    }

    /** `sweep`: free every occupied cell that is white. */
    method Sweep(ghost h: State) returns (ghost freed: set<int>)
      requires Valid() && h == Abs() && forall a :: a in h.cells ==> a in marker.colour
      modifies this, slab
      ensures Valid() && Swept(h, Abs(), freed, marker.colour)
      ensures freed == set a | a in h.cells && White(marker.colour[a])
      ensures SamePieces(old(slab.blocks), slab.blocks)
    {
      freed := {};
      var b := 0;
      while b < |slab.blocks|
        invariant b <= |slab.blocks| && Valid() && Swept(h, Abs(), freed, marker.colour)
        invariant SamePieces(old(slab.blocks), slab.blocks) && CleanBelow(slab.blocks, b, 0, marker.colour)
      {
        ghost var now := Abs();
        ghost var more := SweepBlock(b, now);
        SweptTwice(h, now, Abs(), freed, more, marker.colour);
        freed := freed + more;
        b := b + 1;
      }
      forall a | a in Abs().cells
        ensures !White(marker.colour[a])
      {
        var x :| IsPlace(slab.blocks, x) && HasAt(slab.blocks, slab.st, x, a);
        assert CleanAt(slab.blocks, x, marker.colour);
        HasIsOccupied(ChunkOf(slab.blocks, x), a);
      }
      forall a | a in h.cells
        ensures a in freed <==> White(marker.colour[a])
      {
      }
    }

    /** `MarkSweepGC::run`: unless paused or too early, exactly the reachable cells stay. */
    method Collect(words: seq<int>, held: seq<int>)
      requires Valid() && Sound(Abs(), slab.st) && Held(Abs(), slab.st, held)
      modifies this, slab, marker
      ensures Valid() && Abs() == Collected(old(Abs()), slab.st, words, held)
      ensures Sound(Abs(), slab.st) && SamePieces(old(slab.blocks), slab.blocks)
    {
      ghost var h := Abs();
      CollectedSound(h, slab.st, words, held);
      if paused {
        return;
      }
      count := count + 1;
      if count < frequency {
        return;
      }
      MarkAndSweep(words, held, Abs());
      count := 0;
    }

    /** Whiten, mark from the roots, sweep. */
    method MarkAndSweep(words: seq<int>, held: seq<int>, ghost h: State)
      requires Valid() && h == Abs() && Sound(h, slab.st) && Held(h, slab.st, held)
      modifies this, slab, marker
      ensures Valid() && Abs() == Kept(h, ReachSet(GraphOf(h, slab.st), RootsOf(h, slab.st, words, held)))
      ensures SamePieces(old(slab.blocks), slab.blocks)
    {
      marker.stack := [];
      Whiten();
      CollectRoots(words, held, h);
      ghost var g, roots := GraphOf(h, slab.st), RootsOf(h, slab.st, words, held);
      marker.Mark(g, roots, refs, slab.st);
      ghost var freed := Sweep(h);
      SweptIsKept(h, Abs(), g, roots, freed, marker.colour);
    }

    /** `Heap::allocate`: collect if it is time, then hand out a cell that was free. */
    method Allocate(bytes: nat, words: seq<int>, held: seq<int>, base: int) returns (a: int)
      requires Valid() && Sound(Abs(), slab.st) && Held(Abs(), slab.st, held)
      requires bytes + HEADER <= 2048 && Room(slab.blocks, slab.st, NextPiece(slab.blocks[SizeClass(bytes)], base))
      modifies this, slab, marker
      ensures Valid() && a !in Collected(old(Abs()), slab.st, words, held).cells && !IsStatic(slab.st, a)
      ensures Abs() == Allocated(Collected(old(Abs()), slab.st, words, held), a)
      ensures Sound(Abs(), slab.st)
    {
      Collect(words, held);
      ghost var h := Abs();
      a := slab.Allocate(SizeClass(bytes), base);
      NotStatic(slab.blocks, slab.st, SizeClass(bytes), a);
      refs := refs[a := []];
      AllocatedSound(h, slab.st, a);
    }

    /** `Heap::allocate_weakref`: the new cell is filed under the object it refers to weakly, which the caller holds. */
    method AllocateWeakref(target: int, bytes: nat, words: seq<int>, held: seq<int>, base: int) returns (a: int)
      requires Valid() && Sound(Abs(), slab.st) && Held(Abs(), slab.st, held)
      requires IsStatic(slab.st, target) || target in RootsOf(Abs(), slab.st, words, held)
      requires bytes + HEADER <= 2048 && Room(slab.blocks, slab.st, NextPiece(slab.blocks[SizeClass(bytes)], base))
      modifies this, slab, marker
      ensures Valid() && a !in Collected(old(Abs()), slab.st, words, held).cells && !IsStatic(slab.st, a)
      ensures Abs() == Filed(Allocated(Collected(old(Abs()), slab.st, words, held), a), target, a)
      ensures Sound(Abs(), slab.st)
    {
      if !IsStatic(slab.st, target) {
        RootsSurvive(Abs(), slab.st, words, held, target);
      }
      a := Allocate(bytes, words, held, base);
      weak := weak[target := (if target in weak then weak[target] else []) + [a]];
    }

    /** `Heap::reset`: a collection if it is time, and then every bitmap is cleared; the weak reference table is not. */
    method Reset(words: seq<int>, held: seq<int>)
      requires Valid() && Sound(Abs(), slab.st) && Held(Abs(), slab.st, held)
      modifies this, slab, marker
      ensures Valid() && Abs() == AfterReset(old(Abs()), slab.st, words, held)
    {
      Collect(words, held);
      slab.Reset();
      refs := map[];
    }

    /** The mutator stores references into a cell. */
    method SetRefs(a: int, to: seq<int>)
      requires Valid() && Sound(Abs(), slab.st) && a in Abs().cells && Held(Abs(), slab.st, to)
      modifies this
      ensures Valid() && Abs() == old(Abs()).(refs := old(refs)[a := to]) && Sound(Abs(), slab.st)
    {
      refs := refs[a := to];
    }

    /** `ScopedGCPause`: pause unless the collector is paused already, and remember which it was. */
    method OpenPause() returns (resume: bool)
      requires Valid()
      modifies this
      ensures Valid() && resume == !old(paused) && Abs() == old(Abs()).(paused := true)
    {
      resume := false;
      if !paused {
        resume := true;
        paused := true;
      }
    }

    method ClosePause(resume: bool)
      requires Valid() && (resume ==> paused)
      modifies this
      ensures Valid() && Abs() == if resume then old(Abs()).(paused := false) else old(Abs())
    {
      if resume {
        assert paused;
        paused := false;
      }
    }
  }

  /** A cell of the slab is never in static memory. */
  lemma NotStatic(blocks: seq<Block>, st: Static, b: nat, a: int)
    requires Layout(blocks, st) && b < |blocks| && CellOf(blocks[b], a)
    ensures !IsStatic(st, a)
  {
    var c, i :| 0 <= c < |blocks[b].chunks| && 0 <= i < CHUNK_CELLS && a == CellAt(blocks[b].chunks[c], i);
    assert IsPlace(blocks, Place(b, c)) && ChunkOf(blocks, Place(b, c)) == blocks[b].chunks[c];
    HasCell(blocks[b].chunks[c], i);
  }

  lemma AllocatedSound(h: State, st: Static, a: int)
    requires Sound(h, st) && a !in h.cells && !IsStatic(st, a)
    ensures Sound(Allocated(h, a), st)
  {
  }

  lemma RootsAreReached(h: State, st: Static, words: seq<int>, held: seq<int>)
    requires Sound(h, st) && Held(h, st, held)
    ensures RootsOf(h, st, words, held) <= ReachSet(GraphOf(h, st), RootsOf(h, st, words, held))
  {
    forall a | a in RootsOf(h, st, words, held)
      ensures a in ReachSet(GraphOf(h, st), RootsOf(h, st, words, held))
    {
      RootReachable(GraphOf(h, st), RootsOf(h, st, words, held), a);
    }
  }

  /** Marking begins with white cells and no roots. */
  lemma WhiteStart(g: Graph, reach: set<int>, colour: map<int, Bits>)
    requires forall a :: a in g.cells ==> a in colour && colour[a] == WHITE
    ensures TriColour(g, {}, reach, colour, [], {}) && OnlyGrey(g, {}, colour)
  {
  }

  /** Roots are never freed. */
  lemma RootsSurvive(h: State, st: Static, words: seq<int>, held: seq<int>, a: int)
    requires Sound(h, st) && Held(h, st, held) && a in RootsOf(h, st, words, held)
    ensures a in Collected(h, st, words, held).cells
  {
    RootReachable(GraphOf(h, st), RootsOf(h, st, words, held), a);
  }

  /** A machine word points just behind the header of `a`, or the virtual machine or the interpreter holds `a`. */
  ghost predicate Pinned(words: seq<int>, held: seq<int>, a: int) {
    a in held || exists k :: 0 <= k < |words| && words[k] == a + HEADER
  }

  /** From a pinned cell, each cell refers to the next. */
  ghost predicate Lifeline(h: State, words: seq<int>, held: seq<int>, path: seq<int>) {
    && |path| > 0 && Pinned(words, held, path[0])
    && (forall k :: 0 <= k < |path| ==> path[k] in h.cells && path[k] in h.refs)
    && forall j, k :: 0 <= j < k < |path| && k == j + 1 ==> path[k] in h.refs[path[j]]
  }

  lemma PinnedIsRoot(h: State, st: Static, words: seq<int>, held: seq<int>, a: int)
    requires Sound(h, st) && a in h.cells
    ensures Pinned(words, held, a) <==> a in RootsOf(h, st, words, held)
  {
    assert !IsStatic(st, a);
  }

  lemma RootIsCell(h: State, st: Static, words: seq<int>, held: seq<int>, a: int)
    requires Held(h, st, held) && a in RootsOf(h, st, words, held)
    ensures a in h.cells
  {
  }

  /** The paths that keep a cell are those from the roots. */
  lemma {:induction false} LifelineIsPath(h: State, st: Static, words: seq<int>, held: seq<int>, path: seq<int>)
    requires Sound(h, st) && Held(h, st, held)
    ensures Lifeline(h, words, held, path) <==> IsPath(GraphOf(h, st), RootsOf(h, st, words, held), path)
    decreases |path|
  {
    var g, roots := GraphOf(h, st), RootsOf(h, st, words, held);
    if |path| == 1 {
      if path[0] in roots {
        RootIsCell(h, st, words, held, path[0]);
      }
      if path[0] in h.cells {
        PinnedIsRoot(h, st, words, held, path[0]);
      }
    } else if |path| > 1 {
      var shorter := path[..|path| - 1];
      LifelineIsPath(h, st, words, held, shorter);
      if Lifeline(h, words, held, path) {
        assert Lifeline(h, words, held, shorter);
      }
      if IsPath(g, roots, path) {
        assert IsPath(g, roots, shorter);
      }
      if path[|path| - 2] in h.cells {
        LastLink(h, st, path);
      }
    }
  }

  lemma LastLink(h: State, st: Static, path: seq<int>)
    requires Sound(h, st) && |path| > 1 && path[|path| - 2] in h.cells
    ensures
      var a, b := path[|path| - 2], path[|path| - 1];
      b in h.cells && b in h.refs[a] <==> RefersTo(GraphOf(h, st), a, b) && !IsStatic(st, b)
  {
    var a, b := path[|path| - 2], path[|path| - 1];
    if b in h.refs[a] {
      var k :| 0 <= k < |h.refs[a]| && h.refs[a][k] == b;
      assert a in GraphOf(h, st).cells;
    }
  }

  /** What a sweep leaves, from machine words, held objects and references alone. */
  lemma SweepKeepsPinned(h: State, st: Static, words: seq<int>, held: seq<int>, a: int)
    requires Sound(h, st) && Held(h, st, held) && WillSweep(h)
    ensures a in Collected(h, st, words, held).cells <==>
            exists path :: Lifeline(h, words, held, path) && path[|path| - 1] == a
  {
    var g, roots := GraphOf(h, st), RootsOf(h, st, words, held);
    forall path
      ensures Lifeline(h, words, held, path) <==> IsPath(g, roots, path)
    {
      LifelineIsPath(h, st, words, held, path);
    }
  }

  /** A cell that a machine word points behind, or that is held, stays. */
  lemma PinnedStays(h: State, st: Static, words: seq<int>, held: seq<int>, a: int)
    requires Sound(h, st) && Held(h, st, held) && a in h.cells && Pinned(words, held, a)
    ensures a in Collected(h, st, words, held).cells
  {
    if WillSweep(h) {
      assert Lifeline(h, words, held, [a]) && [a][|[a]| - 1] == a;
      SweepKeepsPinned(h, st, words, held, a);
    }
  }

  /** A cell that is not pinned, and that no other cell refers to, is freed by a sweep. */
  lemma StrayIsFreed(h: State, st: Static, words: seq<int>, held: seq<int>, a: int)
    requires Sound(h, st) && Held(h, st, held) && WillSweep(h) && !Pinned(words, held, a)
    requires forall b :: b in h.refs && b != a ==> a !in h.refs[b]
    ensures a !in Collected(h, st, words, held).cells
  {
    SweepKeepsPinned(h, st, words, held, a);
    if path :| Lifeline(h, words, held, path) && path[|path| - 1] == a {
      OwnLifeline(h, words, held, a, path);
    }
  }

  /** A path that ends at such a cell would have been on it from its start. */
  lemma {:induction false} OwnLifeline(h: State, words: seq<int>, held: seq<int>, a: int, path: seq<int>)
    requires Lifeline(h, words, held, path) && path[|path| - 1] == a
    requires forall b :: b in h.refs && b != a ==> a !in h.refs[b]
    ensures Pinned(words, held, a)
    decreases |path|
  {
    if |path| > 1 {
      var shorter := path[..|path| - 1];
      assert path[|path| - 2] == a;
      OwnLifeline(h, words, held, a, shorter);
    }
  }

  lemma SweptTwice(a: State, b: State, c: State, f1: set<int>, f2: set<int>, colour: map<int, Bits>)
    requires Swept(a, b, f1, colour) && Swept(b, c, f2, colour)
    ensures Swept(a, c, f1 + f2, colour)
  {
    assert a.refs - f1 - f2 == a.refs - (f1 + f2);
    assert a.weak - f1 - f2 == a.weak - (f1 + f2);
    assert a.cells - f1 - f2 == a.cells - (f1 + f2);
  }

  lemma StillOnlyAt(a: seq<Block>, b: seq<Block>, c: seq<Block>, x: Place, i: nat)
    requires OnlyAt(a, b, x) && IsPlace(b, x) && i < |ChunkOf(b, x).occupied|
    requires c == b || c == SetSlot(b, x, i, false)
    ensures OnlyAt(a, c, x) && IsPlace(c, x)
    ensures ChunkOf(c, x) == ChunkOf(b, x).(occupied := ChunkOf(c, x).occupied) && |ChunkOf(c, x).occupied| == |ChunkOf(b, x).occupied|
    ensures forall j :: 0 <= j < i ==> ChunkOf(c, x).occupied[j] == ChunkOf(b, x).occupied[j]
  {
  }

  ghost function WordSet(cells: set<int>, words: seq<int>): set<int> {
    set a | a in cells && (a + HEADER) in words
  }

  ghost function HeldSet(st: Static, held: seq<int>): set<int> {
    set a | a in held && !IsStatic(st, a)
  }

  /** `freed` white cells are gone, with their references and the weak references filed under them. */
  ghost predicate Swept(before: State, after: State, freed: set<int>, colour: map<int, Bits>) {
    && freed <= before.cells
    && (forall a :: a in freed ==> a in colour && White(colour[a]))
    && after == before.(cells := before.cells - freed, refs := before.refs - freed, weak := before.weak - freed)
  }

  ghost predicate CleanAt(blocks: seq<Block>, x: Place, colour: map<int, Bits>)
    requires IsPlace(blocks, x)
  {
    |ChunkOf(blocks, x).occupied| == CHUNK_CELLS && NoneWhite(ChunkOf(blocks, x), CHUNK_CELLS, colour)
  }

  /** No white cell is left in the chunks before chunk `c` of block `b`. */
  ghost predicate CleanBelow(blocks: seq<Block>, b: nat, c: nat, colour: map<int, Bits>) {
    forall y :: IsPlace(blocks, y) && (y.block < b || (y.block == b && y.chunk < c)) ==> CleanAt(blocks, y, colour)
  }

  lemma CleanNext(before: seq<Block>, after: seq<Block>, x: Place, colour: map<int, Bits>)
    requires CleanBelow(before, x.block, x.chunk, colour) && OnlyAt(before, after, x)
    requires IsPlace(after, x) && CleanAt(after, x, colour)
    ensures CleanBelow(after, x.block, x.chunk + 1, colour)
  {
    forall y | IsPlace(after, y) && (y.block < x.block || (y.block == x.block && y.chunk < x.chunk + 1))
      ensures CleanAt(after, y, colour)
    {
      if y != x {
        assert CleanAt(before, y, colour);
      }
    }
  }

  /** Nothing but the chunk at `x` differs. */
  ghost predicate OnlyAt(a: seq<Block>, b: seq<Block>, x: Place) {
    && SamePieces(a, b)
    && forall y :: IsPlace(b, y) && y != x ==> ChunkOf(b, y) == ChunkOf(a, y)
  }

  /** No occupied slot below `n` is white. */
  ghost predicate NoneWhite(c: Chunk, n: nat, colour: map<int, Bits>)
    requires n <= |c.occupied|
  {
    forall i :: 0 <= i < n && c.occupied[i] ==> CellAt(c, i) in colour && !White(colour[CellAt(c, i)])
  }

  ghost predicate AllWhite(c: Chunk, n: nat, colour: map<int, Bits>) {
    forall i :: 0 <= i < n ==> CellAt(c, i) in colour && colour[CellAt(c, i)] == WHITE
  }
}
