/** Runs: any sequence of allocations, reference writes, weak references, pause scopes and collections. */
module Runs {
  import opened Slabs
  import opened Marking
  import opened Heaps

  /** One step of the mutator. Where a collection may happen, `words` and `held` are what the roots are read from. */
  datatype Op =
    | Collect(words: seq<int>, held: seq<int>)
    | New(cell: int, words: seq<int>, held: seq<int>)
    | NewWeak(target: int, cell: int, words: seq<int>, held: seq<int>)
    | Store(cell: int, to: seq<int>)
    | OpenPause
    | ClosePause

  /** The heap, and for each open pause scope whether it is the one that must resume the collector. */
  datatype Machine = Machine(heap: State, scopes: seq<bool>)

  ghost predicate Enabled(m: Machine, st: Static, op: Op) {
    match op
    case Collect(words, held) => Held(m.heap, st, held)
    case New(cell, words, held) =>
      Held(m.heap, st, held) && cell !in Collected(m.heap, st, words, held).cells && !IsStatic(st, cell)
    case NewWeak(target, cell, words, held) =>
      && Held(m.heap, st, held) && cell !in Collected(m.heap, st, words, held).cells && !IsStatic(st, cell)
      && (IsStatic(st, target) || target in RootsOf(m.heap, st, words, held))
    case Store(cell, to) => cell in m.heap.cells && Held(m.heap, st, to)
    case OpenPause => true
    case ClosePause => |m.scopes| > 0
  }

  ghost function Step(m: Machine, st: Static, op: Op): Machine
    requires Enabled(m, st, op)
  {
    match op
    case Collect(words, held) => m.(heap := Collected(m.heap, st, words, held))
    case New(cell, words, held) => m.(heap := Allocated(Collected(m.heap, st, words, held), cell))
    case NewWeak(target, cell, words, held) =>
      m.(heap := Filed(Allocated(Collected(m.heap, st, words, held), cell), target, cell))
    case Store(cell, to) => m.(heap := m.heap.(refs := m.heap.refs[cell := to]))
    case OpenPause => Machine(m.heap.(paused := true), m.scopes + [!m.heap.paused])
    case ClosePause =>
      var last := m.scopes[|m.scopes| - 1];
      Machine(if last then m.heap.(paused := false) else m.heap, m.scopes[..|m.scopes| - 1])
  }

  ghost predicate IsRun(m: Machine, st: Static, ops: seq<Op>)
    decreases |ops|
  {
    ops == [] || (Enabled(m, st, ops[0]) && IsRun(Step(m, st, ops[0]), st, ops[1..]))
  }

  ghost function After(m: Machine, st: Static, ops: seq<Op>): Machine
    requires IsRun(m, st, ops)
    decreases |ops|
  {
    if ops == [] then m else After(Step(m, st, ops[0]), st, ops[1..])
  }

  /** Only the outermost pause scope may resume the collector, and while one is open the collector is paused. */
  ghost predicate Scoped(m: Machine) {
    && (|m.scopes| > 0 ==> m.heap.paused)
    && forall k :: 0 < k < |m.scopes| ==> !m.scopes[k]
  }

  lemma StepKeeps(m: Machine, st: Static, op: Op)
    requires Sound(m.heap, st) && Scoped(m) && Enabled(m, st, op)
    ensures Sound(Step(m, st, op).heap, st) && Scoped(Step(m, st, op))
  {
    match op
    case Collect(words, held) => CollectedSound(m.heap, st, words, held);
    case New(cell, words, held) =>
      CollectedSound(m.heap, st, words, held);
      AllocatedSound(Collected(m.heap, st, words, held), st, cell);
    case NewWeak(target, cell, words, held) =>
      CollectedSound(m.heap, st, words, held);
      AllocatedSound(Collected(m.heap, st, words, held), st, cell);
      if !IsStatic(st, target) {
        RootsSurvive(m.heap, st, words, held, target);
      }
    case Store(_, _) =>
    case OpenPause =>
    case ClosePause =>
  }

  /** No run ever leaves a reference, or a weak reference key, to a freed cell. */
  lemma {:induction false} RunsAreSound(m: Machine, st: Static, ops: seq<Op>)
    requires Sound(m.heap, st) && Scoped(m) && IsRun(m, st, ops)
    ensures Sound(After(m, st, ops).heap, st) && Scoped(After(m, st, ops))
    decreases |ops|
  {
    if ops != [] {
      StepKeeps(m, st, ops[0]);
      RunsAreSound(Step(m, st, ops[0]), st, ops[1..]);
    }
  }

  /** The run never closes the scopes that are open at its start. */
  ghost predicate StaysInside(depth: nat, open: nat, ops: seq<Op>)
    decreases |ops|
  {
    ops == [] || match ops[0]
      case OpenPause => StaysInside(depth, open + 1, ops[1..])
      case ClosePause => depth < open && StaysInside(depth, open - 1, ops[1..])
      case _ => StaysInside(depth, open, ops[1..])
  }

  /** Inside a pause scope, however scopes nest in it, nothing is ever freed and the collector does not even count. */
  lemma {:induction false} NothingFreedInPause(m: Machine, st: Static, ops: seq<Op>, depth: nat)
    requires Sound(m.heap, st) && Scoped(m) && IsRun(m, st, ops)
    requires 0 < depth <= |m.scopes| && StaysInside(depth, |m.scopes|, ops)
    ensures
      var m' := After(m, st, ops);
      m.heap.cells <= m'.heap.cells && m'.heap.count == m.heap.count && |m'.scopes| >= depth
    decreases |ops|
  {
    if ops != [] {
      StepKeeps(m, st, ops[0]);
      NothingFreedInPause(Step(m, st, ops[0]), st, ops[1..], depth);
    }
  }

  /** At every collection on the way a machine word points behind the header of `a`, or `a` is held. */
  ghost predicate AlwaysPinned(a: int, ops: seq<Op>) {
    forall k :: 0 <= k < |ops| ==> PinnedAt(a, ops[k])
  }

  ghost predicate PinnedAt(a: int, op: Op) {
    match op
    case Collect(words, held) => Pinned(words, held, a)
    case New(_, words, held) => Pinned(words, held, a)
    case NewWeak(_, _, words, held) => Pinned(words, held, a)
    case _ => true
  }

  /** Every collection on the way sees the cell among the held objects. */
  ghost predicate AlwaysHeld(a: int, ops: seq<Op>) {
    forall k :: 0 <= k < |ops| ==>
      match ops[k]
      case Collect(_, held) => a in held
      case New(_, _, held) => a in held
      case NewWeak(_, _, _, held) => a in held
      case _ => true
  }

  /** An object that is pinned throughout a run is never freed, and neither is anything it refers to at the end. */
  lemma {:induction false} PinnedSurvives(m: Machine, st: Static, ops: seq<Op>, a: int)
    requires Sound(m.heap, st) && Scoped(m) && IsRun(m, st, ops)
    requires a in m.heap.cells && AlwaysPinned(a, ops)
    ensures
      var h := After(m, st, ops).heap;
      a in h.cells && a in h.refs && forall k :: 0 <= k < |h.refs[a]| ==> h.refs[a][k] in h.cells || IsStatic(st, h.refs[a][k])
    decreases |ops|
  {
    RunsAreSound(m, st, ops);
    if ops != [] {
      StepKeeps(m, st, ops[0]);
      PinnedStep(m, st, ops[0], a);
      assert forall k :: 0 <= k < |ops[1..]| ==> ops[1..][k] == ops[k + 1];
      PinnedSurvives(Step(m, st, ops[0]), st, ops[1..], a);
    }
  }

  lemma PinnedStep(m: Machine, st: Static, op: Op, a: int)
    requires Sound(m.heap, st) && Enabled(m, st, op) && a in m.heap.cells && PinnedAt(a, op)
    ensures a in Step(m, st, op).heap.cells
  {
    match op
    case Collect(words, held) => PinnedStays(m.heap, st, words, held, a);
    case New(_, words, held) => PinnedStays(m.heap, st, words, held, a);
    case NewWeak(_, _, words, held) => PinnedStays(m.heap, st, words, held, a);
    case _ =>
  }

  /** In particular one that is held throughout. */
  lemma HeldSurvives(m: Machine, st: Static, ops: seq<Op>, a: int)
    requires Sound(m.heap, st) && Scoped(m) && IsRun(m, st, ops)
    requires a in m.heap.cells && AlwaysHeld(a, ops)
    ensures
      var h := After(m, st, ops).heap;
      a in h.cells && a in h.refs && forall k :: 0 <= k < |h.refs[a]| ==> h.refs[a][k] in h.cells || IsStatic(st, h.refs[a][k])
  {
    assert AlwaysPinned(a, ops);
    PinnedSurvives(m, st, ops, a);
  }

  /** `n` calls of the collector in a row. */
  ghost function CollectTimes(h: State, st: Static, words: seq<int>, held: seq<int>, n: nat): State {
    if n == 0 then h else Collected(CollectTimes(h, st, words, held, n - 1), st, words, held)
  }

  /**
   An active collector sweeps just when its counter comes round, over any number of calls: after `n` calls the counter
   is what is left of `count + n` when whole rounds are taken off.
   */
  lemma {:induction false} SweepsOnTime(
    h: State, st: Static, words: seq<int>, held: seq<int>, n: nat, rounds: nat, left: nat
  )
    requires !h.paused && h.count < h.frequency && left < h.frequency && h.count + n == rounds * h.frequency + left
    ensures
      var h' := CollectTimes(h, st, words, held, n);
      && !h'.paused && h'.frequency == h.frequency && h'.count == left
      && (WillSweep(h') <==> left + 1 == h.frequency)
    decreases n
  {
    if n == 0 {
      RoundsGrow(rounds, h.frequency);
    } else if left > 0 {
      SweepsOnTime(h, st, words, held, n - 1, rounds, left - 1);
    } else {
      assert rounds > 0;
      assert rounds * h.frequency == (rounds - 1) * h.frequency + h.frequency;
      SweepsOnTime(h, st, words, held, n - 1, rounds - 1, h.frequency - 1);
    }
  }

  lemma RoundsGrow(rounds: nat, frequency: nat)
    ensures rounds == 0 || frequency <= rounds * frequency
  {
    assert rounds == 0 || rounds * frequency == (rounds - 1) * frequency + frequency;
  }

  /** Whatever can be reached from the roots is a cell. */
  lemma ReachableIsCell(h: State, st: Static, words: seq<int>, held: seq<int>, a: int)
    requires Sound(h, st) && Held(h, st, held) && Reachable(GraphOf(h, st), RootsOf(h, st, words, held), a)
    ensures a in h.cells
  {
    var g, roots := GraphOf(h, st), RootsOf(h, st, words, held);
    var path :| IsPath(g, roots, path) && path[|path| - 1] == a;
    ReachableWithin(g, roots, h.cells, path);
  }

  /** Every registered weak reference is itself a cell. */
  ghost predicate NoneDangle(h: State) {
    forall a, k :: a in h.weak && 0 <= k < |h.weak[a]| ==> h.weak[a][k] in h.cells
  }

  /**
   Only the keys of the weak reference table are cleaned: a sweep leaves no dangling weak reference in it exactly if
   every one that is filed under a static or reachable object can itself be reached.
   */
  lemma WeakrefsMayDangle(h: State, st: Static, words: seq<int>, held: seq<int>)
    requires Sound(h, st) && Held(h, st, held) && WillSweep(h)
    ensures
      var g, roots := GraphOf(h, st), RootsOf(h, st, words, held);
      NoneDangle(Collected(h, st, words, held)) <==>
      forall a, k :: a in h.weak && 0 <= k < |h.weak[a]| && (IsStatic(st, a) || Reachable(g, roots, a)) ==>
        Reachable(g, roots, h.weak[a][k])
  {
    var g, roots := GraphOf(h, st), RootsOf(h, st, words, held);
    var h' := Collected(h, st, words, held);
    forall a | Reachable(g, roots, a)
      ensures a in h.cells
    {
      ReachableIsCell(h, st, words, held, a);
    }
    forall a
      ensures a in h'.cells <==> Reachable(g, roots, a)
      ensures a in h'.weak <==> a in h.weak && (IsStatic(st, a) || Reachable(g, roots, a))
      ensures a in h'.weak ==> h'.weak[a] == h.weak[a]
    {
    }
  }

  /** The heap as it is created, sweeping every `frequency` calls. */
  function Fresh(frequency: nat): Machine {
    Machine(State({}, map[], map[], false, 0, frequency), [])
  }

  /** Cells without references reach nothing. */
  lemma LoneCells(g: Graph, roots: set<int>)
    requires roots <= g.cells && forall a :: a in g.cells ==> a in g.refs && g.refs[a] == [] && !IsStatic(g.st, a)
    ensures ReachSet(g, roots) == roots
  {
    forall a
      ensures a in ReachSet(g, roots) <==> a in roots
    {
      if a in roots {
        RootReachable(g, roots, a);
      }
      if Reachable(g, roots, a) {
        var path :| IsPath(g, roots, path) && path[|path| - 1] == a;
        ReachableWithin(g, roots, roots, path);
      }
    }
  }

  /** A collection of a heap whose cells have no references keeps the roots. */
  lemma LoneCollected(h: State, st: Static, held: seq<int>)
    requires Sound(h, st) && Held(h, st, held) && forall a :: a in h.cells ==> h.refs[a] == []
    ensures WillSweep(h) ==> Collected(h, st, [], held) == Kept(h, HeldSet(st, held)).(count := 0)
    ensures !h.paused && !WillSweep(h) ==> Collected(h, st, [], held) == h.(count := h.count + 1)
  {
    assert RootsOf(h, st, [], held) == HeldSet(st, held);
    LoneCells(GraphOf(h, st), HeldSet(st, held));
  }

  /** A cell, held throughout, and a weak reference to it that nobody holds. */
  function WeakRun(): seq<Op> {
    [New(16, [], []), NewWeak(16, 32, [], [16])]
  }

  function OneCell(count: nat, frequency: nat): Machine {
    Machine(State({16}, map[16 := []], map[], false, count, frequency), [])
  }

  function WeakCell(count: nat, frequency: nat): Machine {
    Machine(State({16, 32}, map[16 := [], 32 := []], map[16 := [32]], false, count, frequency), [])
  }

  lemma WeakRunBegins(frequency: nat)
    requires frequency == 1 || frequency > 2
    ensures
      var st, m := Static(0, 0), Fresh(frequency);
      Enabled(m, st, WeakRun()[0]) && Step(m, st, WeakRun()[0]) == OneCell(if frequency == 1 then 0 else 1, frequency)
  {
    var st, h := Static(0, 0), Fresh(frequency).heap;
    LoneCollected(h, st, []);
    assert Collected(h, st, [], []) == h.(count := if frequency == 1 then 0 else 1);
  }

  lemma WeakRunGoesOn(frequency: nat)
    requires frequency == 1 || frequency > 2
    ensures
      var st, m := Static(0, 0), OneCell(if frequency == 1 then 0 else 1, frequency);
      Enabled(m, st, WeakRun()[1]) && Step(m, st, WeakRun()[1]) == WeakCell(if frequency == 1 then 0 else 2, frequency)
  {
    var st, h := Static(0, 0), OneCell(if frequency == 1 then 0 else 1, frequency).heap;
    LoneCollected(h, st, [16]);
    assert HeldSet(st, [16]) == {16};
    var h' := Collected(h, st, [], [16]);
    assert h' == h.(count := if frequency == 1 then 0 else 2);
    assert RootsOf(h, st, [], [16]) == {16};
    var h2 := Filed(Allocated(h', 32), 16, 32);
    assert h2.cells == {16, 32} && h2.weak[16] == [32];
  }

  lemma WeakRunEnds(frequency: nat)
    requires frequency == 1 || frequency > 2
    ensures
      var st, m := Static(0, 0), Fresh(frequency);
      IsRun(m, st, WeakRun()) && After(m, st, WeakRun()) == WeakCell(if frequency == 1 then 0 else 2, frequency)
  {
    WeakRunBegins(frequency);
    WeakRunGoesOn(frequency);
    var st, ops := Static(0, 0), WeakRun();
    var m1 := OneCell(if frequency == 1 then 0 else 1, frequency);
    var m2 := WeakCell(if frequency == 1 then 0 else 2, frequency);
    assert ops[1..] == [ops[1]] && ops[1..][1..] == [];
    assert IsRun(m2, st, []) && After(m2, st, []) == m2;
    assert IsRun(m1, st, ops[1..]) && After(m1, st, ops[1..]) == m2;
  }

  /** Such a dangling entry, reached from the empty heap: the next collection frees the weak reference. */
  lemma DanglingWeakref()
    ensures
      var st := Static(0, 0);
      && IsRun(Fresh(1), st, WeakRun())
      && var h := After(Fresh(1), st, WeakRun()).heap;
        && Enabled(After(Fresh(1), st, WeakRun()), st, Collect([], [16]))
        && NoneDangle(h)
        && !NoneDangle(Collected(h, st, [], [16]))
        && 32 in Collected(h, st, [], [16]).weak[16] && 32 !in Collected(h, st, [], [16]).cells
  {
    WeakRunEnds(1);
    WeakCellIsFreed();
  }

  lemma WeakCellIsFreed()
    ensures
      var st, h := Static(0, 0), WeakCell(0, 1).heap;
      var h' := Collected(h, st, [], [16]);
      h'.cells == {16} && 16 in h'.weak && h'.weak[16] == [32] && h'.weak[16][0] == 32
  {
    var st, h := Static(0, 0), WeakCell(0, 1).heap;
    LoneCollected(h, st, [16]);
    assert HeldSet(st, [16]) == {16};
  }

  /**
   A reset leaves the heap sound exactly if every key of the weak reference table is static, or is cleaned by a
   collection that is due and cannot reach it.
   */
  lemma ResetKeepsWeakrefs(h: State, st: Static, words: seq<int>, held: seq<int>)
    requires Sound(h, st) && Held(h, st, held)
    ensures
      Sound(AfterReset(h, st, words, held), st) <==>
      forall a :: a in h.weak ==>
        IsStatic(st, a) || (WillSweep(h) && !Reachable(GraphOf(h, st), RootsOf(h, st, words, held), a))
  {
    var g, roots := GraphOf(h, st), RootsOf(h, st, words, held);
    var h' := AfterReset(h, st, words, held);
    forall a
      ensures a in h'.weak <==> a in h.weak && (IsStatic(st, a) || !WillSweep(h) || Reachable(g, roots, a))
    {
      if WillSweep(h) && Reachable(g, roots, a) {
        ReachableIsCell(h, st, words, held, a);
      }
    }
  }

  /** Such a heap, reached from the empty one: after a reset its table names a cell that is gone. */
  lemma UnsoundReset()
    ensures
      var st := Static(0, 0);
      && IsRun(Fresh(FREQUENCY), st, WeakRun())
      && var h := After(Fresh(FREQUENCY), st, WeakRun()).heap;
        && Sound(h, st) && !Sound(AfterReset(h, st, [], [16]), st)
        && 16 in AfterReset(h, st, [], [16]).weak && 16 !in AfterReset(h, st, [], [16]).cells
  {
    WeakRunEnds(FREQUENCY);
  }
}
