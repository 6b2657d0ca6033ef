/**
 A mutator with its own list of held objects, on the real heap. Whatever instructions it is given, what it holds is
 never freed, and its steps are a run of the heap machine.
 */
module Mutators {
  import opened Slabs
  import opened Marking
  import opened Heaps
  import opened Runs

  /** Objects are named by their place in the list. `words` is what a scan of the machine stack would see. */
  datatype Instr =
    | Allocate(bytes: nat, base: int, words: seq<int>)
    | Weaken(i: nat, bytes: nat, base: int, words: seq<int>)
    | Load(i: nat, k: nat)
    | Link(i: nat, to: seq<nat>)
    | Borrow(address: int)
    | Drop
    | Pause
    | Resume
    | Sweep(words: seq<int>)

  lemma {:induction false} RunsAppend(m: Machine, st: Static, a: seq<Op>, b: seq<Op>)
    requires IsRun(m, st, a) && IsRun(After(m, st, a), st, b)
    ensures IsRun(m, st, a + b) && After(m, st, a + b) == After(After(m, st, a), st, b)
    decreases |a|
  {
    if a == [] {
      assert a + b == b;
    } else {
      RunsAppend(Step(m, st, a[0]), st, a[1..], b);
      assert (a + b)[1..] == a[1..] + b;
    }
  }

  lemma OneStep(m: Machine, st: Static, op: Op)
    requires Enabled(m, st, op)
    ensures IsRun(m, st, [op]) && After(m, st, [op]) == Step(m, st, op)
  {
    var m' := Step(m, st, op);
    assert [op][1..] == [] && IsRun(m', st, []) && After(m', st, []) == m';
  }

  /** What is held stays through a collection. */
  lemma HeldStays(h: State, st: Static, words: seq<int>, held: seq<int>)
    requires Sound(h, st) && Held(h, st, held)
    ensures Held(Collected(h, st, words, held), st, held)
  {
    forall k | 0 <= k < |held|
      ensures held[k] in Collected(h, st, words, held).cells || IsStatic(st, held[k])
    {
      if !IsStatic(st, held[k]) {
        RootsSurvive(h, st, words, held, held[k]);
      }
    }
  }

  /** Nothing that a cell refers to is gone. */
  lemma RefIsThere(h: State, st: Static, a: int, k: nat)
    requires Sound(h, st) && a in h.refs && k < |h.refs[a]|
    ensures h.refs[a][k] in h.cells || IsStatic(st, h.refs[a][k])
  {
    assert a in GraphOf(h, st).cells;
  }

  /** The held objects at the places in `to` that exist. */
  function Chosen(held: seq<int>, to: seq<nat>): seq<int> {
    if to == [] then []
    else
      var i := to[|to| - 1];
      Chosen(held, to[..|to| - 1]) + if i < |held| then [held[i]] else []
  }

  /** What an instruction did, `fits` telling whether there was memory: the steps of the heap machine, and what is held. */
  ghost predicate Does(instr: Instr, st: Static, fits: bool, was: Machine, before: seq<int>, ops: seq<Op>, held: seq<int>) {
    match instr
    case Allocate(_, _, words) =>
      if fits then |held| == |before| + 1 && held[..|before|] == before && ops == [New(held[|before|], words, before)]
      else ops == [] && held == before
    case Weaken(i, _, _, words) =>
      if fits && i < |before| then
        && |held| == |before| + 1 && held[..|before|] == before
        && ops == [NewWeak(before[i], held[|before|], words, before)]
      else ops == [] && held == before
    case Load(i, k) =>
      && ops == []
      && held == before +
        if i < |before| && before[i] in was.heap.refs && k < |was.heap.refs[before[i]]| then [was.heap.refs[before[i]][k]] else []
    case Link(i, to) =>
      && held == before
      && ops == if i < |before| && !IsStatic(st, before[i]) then [Store(before[i], Chosen(before, to))] else []
    case Borrow(address) => ops == [] && held == before + if IsStatic(st, address) then [address] else []
    case Drop => ops == [] && held == if before == [] then [] else before[..|before| - 1]
    case Pause => ops == [OpenPause] && held == before
    case Resume => ops == (if was.scopes == [] then [] else [ClosePause]) && held == before
    case Sweep(words) => ops == [Collect(words, before)] && held == before
  }

  class Mutator {
    const heap: Heap
    var held: seq<int>
    var scopes: seq<bool>

    constructor (heap: Heap)
      requires heap.Valid() && Sound(heap.Abs(), heap.slab.st)
      ensures this.heap == heap && Valid() && held == [] && scopes == []
    {
      this.heap := heap;
      held, scopes := [], [];
    }

    ghost predicate Valid()
      reads this, heap, heap.slab
    {
      heap.Valid() && Sound(heap.Abs(), heap.slab.st) && Held(heap.Abs(), heap.slab.st, held) && Scoped(Now())
    }

    ghost function Now(): Machine
      requires heap.Valid()
      reads this, heap, heap.slab
    {
      Machine(heap.Abs(), scopes)
    }

    /** The object is not too large, and memory at `base` is free should its block have to grow. */
    predicate Fits(bytes: nat, base: int)
      requires heap.Valid()
      reads heap, heap.slab
    {
      bytes + HEADER <= 2048 && Room(heap.slab.blocks, heap.slab.st, NextPiece(heap.slab.blocks[SizeClass(bytes)], base))
    }

    /** `Fits`, for an instruction that asks for memory. */
    predicate HasRoom(instr: Instr)
      requires heap.Valid()
      reads heap, heap.slab
    {
      match instr
      case Allocate(bytes, base, _) => Fits(bytes, base)
      case Weaken(_, bytes, base, _) => Fits(bytes, base)
      case _ => false
    }

    /** The steps that were taken lead from `m` to the present state. */
    ghost predicate Taken(m: Machine, ops: seq<Op>)
      reads this, heap, heap.slab
    {
      heap.Valid() && IsRun(m, heap.slab.st, ops) && After(m, heap.slab.st, ops) == Now()
    }

    /** A new object is held from the start. An address that overlaps memory in use is no memory. */
    method Make(bytes: nat, base: int, words: seq<int>) returns (ghost ops: seq<Op>)
      requires Valid()
      modifies this, heap, heap.slab, heap.marker
      ensures Valid() && Taken(old(Now()), ops)
      ensures old(held) <= held && forall k :: |old(held)| <= k < |held| ==> held[k] !in old(held)
      ensures Does(Allocate(bytes, base, words), heap.slab.st, old(Fits(bytes, base)), old(Now()), old(held), ops, held)
    {
      if !Fits(bytes, base) {
        return [];
      }
      ghost var h := heap.Abs();
      ghost var st := heap.slab.st;
      HeldStays(h, st, words, held);
      ghost var m, before := Now(), held;
      var a := heap.Allocate(bytes, words, held, base);
      OneStep(m, st, New(a, words, held));
      StepKeeps(m, st, New(a, words, held));
      held := held + [a];
      ops := [New(a, words, before)];
    }

    /** A weak reference to a held object. */
    method MakeWeak(i: nat, bytes: nat, base: int, words: seq<int>) returns (ghost ops: seq<Op>)
      requires Valid()
      modifies this, heap, heap.slab, heap.marker
      ensures Valid() && Taken(old(Now()), ops)
      ensures Does(Weaken(i, bytes, base, words), heap.slab.st, old(Fits(bytes, base)), old(Now()), old(held), ops, held)
    {
      if i >= |held| || !Fits(bytes, base) {
        return [];
      }
      ghost var h := heap.Abs();
      ghost var st := heap.slab.st;
      HeldStays(h, st, words, held);
      ghost var m, before := Now(), held;
      var a := heap.AllocateWeakref(held[i], bytes, words, held, base);
      OneStep(m, st, NewWeak(held[i], a, words, held));
      StepKeeps(m, st, NewWeak(held[i], a, words, held));
      held := held + [a];
      ops := [NewWeak(before[i], a, words, before)];
    }

    /** What a held object refers to may be held too. */
    method Take(i: nat, k: nat)
      requires Valid()
      modifies this
      ensures Valid() && Now() == old(Now())
      ensures Does(Load(i, k), heap.slab.st, false, old(Now()), old(held), [], held)
    {
      if i < |held| && held[i] in heap.refs && k < |heap.refs[held[i]]| {
        RefIsThere(heap.Abs(), heap.slab.st, held[i], k);
        held := held + [heap.refs[held[i]][k]];
      }
    }

    /** An object outside static memory is made to refer to held objects. */
    method Connect(i: nat, to: seq<nat>) returns (ghost ops: seq<Op>)
      requires Valid()
      modifies this, heap
      ensures Valid() && Taken(old(Now()), ops)
      ensures Does(Link(i, to), heap.slab.st, false, old(Now()), old(held), ops, held)
    {
      if i >= |held| || IsStatic(heap.slab.st, held[i]) {
        return [];
      }
      var refs: seq<int> := [];
      for j := 0 to |to|
        invariant Valid() && Now() == old(Now()) && held == old(held)
        invariant Held(heap.Abs(), heap.slab.st, refs) && refs == Chosen(held, to[..j])
      {
        assert to[..j + 1][..j] == to[..j];
        if to[j] < |held| {
          refs := refs + [held[to[j]]];
        }
      }
      assert to[..|to|] == to;
      ghost var m, st := Now(), heap.slab.st;
      OneStep(m, st, Store(held[i], refs));
      heap.SetRefs(held[i], refs);
      ops := [Store(held[i], refs)];
    }

    method Hold(address: int)
      requires Valid()
      modifies this
      ensures Valid() && Now() == old(Now())
      ensures Does(Borrow(address), heap.slab.st, false, old(Now()), old(held), [], held)
    {
      if IsStatic(heap.slab.st, address) {
        held := held + [address];
      }
    }

    method Release()
      requires Valid()
      modifies this
      ensures Valid() && Now() == old(Now())
      ensures Does(Drop, heap.slab.st, false, old(Now()), old(held), [], held)
    {
      if |held| > 0 {
        held := held[..|held| - 1];
      }
    }

    method Enter() returns (ghost ops: seq<Op>)
      requires Valid()
      modifies this, heap
      ensures Valid() && Taken(old(Now()), ops)
      ensures Does(Pause, heap.slab.st, false, old(Now()), old(held), ops, held)
    {
      OneStep(Now(), heap.slab.st, OpenPause);
      StepKeeps(Now(), heap.slab.st, OpenPause);
      var resume := heap.OpenPause();
      scopes := scopes + [resume];
      ops := [OpenPause];
    }

    method Leave() returns (ghost ops: seq<Op>)
      requires Valid()
      modifies this, heap
      ensures Valid() && Taken(old(Now()), ops)
      ensures Does(Resume, heap.slab.st, false, old(Now()), old(held), ops, held)
    {
      if |scopes| == 0 {
        return [];
      }
      OneStep(Now(), heap.slab.st, ClosePause);
      StepKeeps(Now(), heap.slab.st, ClosePause);
      heap.ClosePause(scopes[|scopes| - 1]);
      scopes := scopes[..|scopes| - 1];
      ops := [ClosePause];
    }

    method Clean(words: seq<int>) returns (ghost ops: seq<Op>)
      requires Valid()
      modifies this, heap, heap.slab, heap.marker
      ensures Valid() && Taken(old(Now()), ops)
      ensures Does(Sweep(words), heap.slab.st, false, old(Now()), old(held), ops, held)
    {
      ghost var m, st := Now(), heap.slab.st;
      HeldStays(heap.Abs(), st, words, held);
      OneStep(m, st, Collect(words, held));
      StepKeeps(m, st, Collect(words, held));
      heap.Collect(words, held);
      ops := [Collect(words, held)];
    }

    method Execute(instr: Instr) returns (ghost ops: seq<Op>)
      requires Valid()
      modifies this, heap, heap.slab, heap.marker
      ensures Valid() && Taken(old(Now()), ops)
      ensures Does(instr, heap.slab.st, old(HasRoom(instr)), old(Now()), old(held), ops, held)
    {
      ops := [];
      match instr
      case Allocate(bytes, base, words) => ops := Make(bytes, base, words);
      case Weaken(i, bytes, base, words) => ops := MakeWeak(i, bytes, base, words);
      case Load(i, k) => Take(i, k);
      case Link(i, to) => ops := Connect(i, to);
      case Borrow(address) => Hold(address);
      case Drop => Release();
      case Pause => ops := Enter();
      case Resume => ops := Leave();
      case Sweep(words) => ops := Clean(words);
    }

    /**
     Any program at all: what is held at the end is there, nothing refers to a freed cell, and the heap went through a
     run of the machine.
     */
    method RunProgram(program: seq<Instr>) returns (ghost ops: seq<Op>)
      requires Valid()
      modifies this, heap, heap.slab, heap.marker
      ensures Valid() && Taken(old(Now()), ops)
    {
      ops := [];
      for k := 0 to |program|
        invariant Valid() && Taken(old(Now()), ops)
      {
        ghost var before := ops;
        ops := Execute(program[k]);
        RunsAppend(old(Now()), heap.slab.st, before, ops);
        ops := before + ops;
      }
    }
  }

  /**
   From the start: for every layout of memory that the system may hand out, every program leaves a sound heap in which
   all that is held is there, at the end of a run that began with the empty heap.
   */
  method RunFromEmpty(st: Static, bases: seq<int>, program: seq<Instr>) returns (mutator: Mutator, ghost ops: seq<Op>)
    requires |bases| == |SIZES|
    requires forall b, d :: 0 <= b < d < |SIZES| ==>
      var p, q := InitialBlock(SIZES[b], CAPACITY, bases[b]).pieces[0], InitialBlock(SIZES[d], CAPACITY, bases[d]).pieces[0];
      Apart(p.base, p.base + p.length, q.base, q.base + q.length)
    requires forall b :: 0 <= b < |SIZES| ==>
      var p := InitialBlock(SIZES[b], CAPACITY, bases[b]).pieces[0];
      Apart(p.base, p.base + p.length, st.low, st.high)
    ensures mutator.heap.Valid() && mutator.heap.slab.st == st
    ensures IsRun(Fresh(FREQUENCY), st, ops) && After(Fresh(FREQUENCY), st, ops) == mutator.Now()
    ensures Sound(mutator.heap.Abs(), st) && Held(mutator.heap.Abs(), st, mutator.held)
  {
    var heap := new Heap(st, bases);
    mutator := new Mutator(heap);
    ops := mutator.RunProgram(program);
  }
}
