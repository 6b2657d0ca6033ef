/** Well-nested use of arenas: allocations, save scopes, resets, and regions that make a fresh arena the current one. */
module Regions {
  import opened Arenas

  /** `t_current_arena` of one thread, and the arena that a region replaced. */
  class Thread {
    var current: Arena?

    constructor ()
      ensures current == null
    {
      current := null;
    }

    /** `ScopedRegion::ScopedRegion`. */
    method Enter(standard: nat) returns (region: Arena, previous: Arena?)
      modifies this
      ensures fresh(region) && region.Now() == EMPTY && region.standard == standard && region.destroyed == []
      ensures current == region && previous == old(current)
    {
      region := new Arena(standard);
      previous := current;
      current := region;
    }

    /** `ScopedRegion::~ScopedRegion`: everything in the region is destroyed, newest first, before the arena it replaced is back. */
    method Exit(region: Arena, previous: Arena?)
      requires current == region
      modifies this, region
      ensures current == previous && region.Now() == EMPTY
      ensures region.destroyed == old(region.destroyed) + Reversed(old(region.dtors))
    {
      region.Reset();
      current := previous;
    }
  }

  /**
   A well-nested program on the current arena. `Scope` saves, runs its body and restores; `Region` runs its body in a
   fresh arena; `Make` is an allocation of object `id`, at `base` if a block is needed.
   */
  datatype Program =
    | Skip
    | Make(size: nat, align: Alignment, base: int, id: int, destructor: bool, rest: Program)
    | Scope(body: Program, rest: Program)
    | Region(standard: nat, body: Program, rest: Program)
    | Clear(rest: Program)

  datatype Event = Born(id: int) | Died(id: int)

  function Deaths(ids: seq<int>): seq<Event> {
    if ids == [] then [] else [Died(ids[|ids| - 1])] + Deaths(ids[..|ids| - 1])
  }

  /** A reset is only used where no save point of the same arena is open. */
  predicate Disciplined(p: Program, saved: bool) {
    match p
    case Skip => true
    case Make(_, _, _, _, _, rest) => Disciplined(rest, saved)
    case Scope(body, rest) => Disciplined(body, true) && Disciplined(rest, saved)
    case Region(_, body, rest) => Disciplined(body, false) && Disciplined(rest, saved)
    case Clear(rest) => !saved && Disciplined(rest, saved)
  }

  /** Every block the system hands out is aligned and apart from the others of its arena. */
  ghost predicate Supplied(p: Program, s: Snapshot, standard: nat)
    decreases p
  {
    match p
    case Skip => true
    case Make(size, align, base, id, destructor, rest) =>
      && (Fits(s, size, align) || Room(s, NewBlock(s, standard, size, base)))
      && Supplied(rest, Made(s, standard, size, align, base, id, destructor), standard)
    case Scope(body, rest) => Supplied(body, s, standard) && Supplied(rest, Closed(s, End(body, s, standard)), standard)
    case Region(inner, body, rest) => Supplied(body, EMPTY, inner) && Supplied(rest, s, standard)
    case Clear(rest) => Supplied(rest, EMPTY, standard)
  }

  /** The state after restoring the save point of `s` in state `later`. */
  function Closed(s: Snapshot, later: Snapshot): Snapshot {
    Restored(later, Saved(s)).(allocs := if |s.allocs| <= |later.allocs| then later.allocs[..|s.allocs|] else later.allocs)
  }

  /** The state of the current arena after the program. */
  function End(p: Program, s: Snapshot, standard: nat): Snapshot
    decreases p
  {
    match p
    case Skip => s
    case Make(size, align, base, id, destructor, rest) =>
      End(rest, Made(s, standard, size, align, base, id, destructor), standard)
    case Scope(body, rest) => End(rest, Closed(s, End(body, s, standard)), standard)
    case Region(_, _, rest) => End(rest, s, standard)
    case Clear(rest) => End(rest, EMPTY, standard)
  }

  /** The constructions and destructions of the program, in order. */
  function Trace(p: Program, s: Snapshot, standard: nat): seq<Event>
    decreases p
  {
    match p
    case Skip => []
    case Make(size, align, base, id, destructor, rest) =>
      (if destructor then [Born(id)] else []) + Trace(rest, Made(s, standard, size, align, base, id, destructor), standard)
    case Scope(body, rest) =>
      var later := End(body, s, standard);
      Trace(body, s, standard) + Deaths(Newer(s, later)) + Trace(rest, Closed(s, later), standard)
    case Region(inner, body, rest) =>
      Trace(body, EMPTY, inner) + Deaths(End(body, EMPTY, inner).dtors) + Trace(rest, s, standard)
    case Clear(rest) => Deaths(s.dtors) + Trace(rest, EMPTY, standard)
  }

  /** What was registered after `s`. */
  function Newer(s: Snapshot, later: Snapshot): seq<int> {
    if |s.dtors| <= |later.dtors| then later.dtors[|s.dtors|..] else []
  }

  /** A program inside a save scope only adds to the arena. */
  lemma {:induction false} ScopeExtends(p: Program, base: Snapshot, s: Snapshot, standard: nat)
    requires Disciplined(p, true) && Extends(base, s)
    ensures Extends(base, End(p, s, standard))
    decreases p, 0
  {
    match p
    case Skip =>
    case Make(size, align, at, id, destructor, rest) =>
      MadeExtends(base, s, standard, size, align, at, id, destructor);
      ScopeExtends(rest, base, Made(s, standard, size, align, at, id, destructor), standard);
    case Scope(body, rest) =>
      ScopeRestores(body, s, standard);
      ScopeExtends(rest, base, s, standard);
    case Region(_, _, rest) =>
      ScopeExtends(rest, base, s, standard);
  }

  /** A save scope, whatever happens in it, gives back exactly the state it began with. */
  lemma {:induction false} ScopeRestores(body: Program, s: Snapshot, standard: nat)
    requires Disciplined(body, true)
    ensures Extends(s, End(body, s, standard)) && Closed(s, End(body, s, standard)) == s
    decreases body, 1
  {
    ScopeExtends(body, s, s, standard);
    var later := End(body, s, standard);
    RestoreUndoes(s, later);
    assert later.allocs[..|s.allocs|] == s.allocs;
  }

  /** Every state that an arena passes through, at whatever depth, is valid. */
  ghost predicate Throughout(p: Program, s: Snapshot, standard: nat)
    decreases p
  {
    && Valid(s)
    && match p
    case Skip => true
    case Make(size, align, base, id, destructor, rest) =>
      Throughout(rest, Made(s, standard, size, align, base, id, destructor), standard)
    case Scope(body, rest) =>
      Throughout(body, s, standard) && Throughout(rest, Closed(s, End(body, s, standard)), standard)
    case Region(inner, body, rest) => Throughout(body, EMPTY, inner) && Throughout(rest, s, standard)
    case Clear(rest) => Throughout(rest, EMPTY, standard)
  }

  /** Along every program the allocations of every arena stay aligned, in bounds, disjoint and accounted for. */
  lemma {:induction false} StaysValid(p: Program, s: Snapshot, standard: nat, saved: bool)
    requires Valid(s) && Disciplined(p, saved) && Supplied(p, s, standard)
    ensures Throughout(p, s, standard) && Valid(End(p, s, standard))
    decreases p
  {
    match p
    case Skip =>
    case Make(size, align, base, id, destructor, rest) =>
      MadeValid(s, standard, size, align, base, id, destructor);
      StaysValid(rest, Made(s, standard, size, align, base, id, destructor), standard, saved);
    case Scope(body, rest) =>
      ScopeRestores(body, s, standard);
      StaysValid(body, s, standard, true);
      StaysValid(rest, s, standard, saved);
    case Region(inner, body, rest) =>
      StaysValid(body, EMPTY, inner, false);
      StaysValid(rest, s, standard, saved);
    case Clear(rest) =>
      StaysValid(rest, EMPTY, standard, saved);
  }

  datatype Stack = Broken | Alive(ids: seq<int>)

  /** Follow a trace: a birth pushes, and a death must be of the youngest object alive. */
  function Replay(trace: seq<Event>, st: Stack): Stack {
    if trace == [] || st.Broken? then st
    else match trace[0]
      case Born(id) => Replay(trace[1..], Alive(st.ids + [id]))
      case Died(id) =>
        if |st.ids| > 0 && st.ids[|st.ids| - 1] == id then Replay(trace[1..], Alive(st.ids[..|st.ids| - 1]))
        else Broken
  }

  lemma {:induction false} ReplayAppend(a: seq<Event>, b: seq<Event>, st: Stack)
    ensures Replay(a + b, st) == Replay(b, Replay(a, st))
    decreases |a|
  {
    if a == [] {
      assert a + b == b;
    } else if st.Alive? {
      assert (a + b)[1..] == a[1..] + b;
      match a[0]
      case Born(id) => ReplayAppend(a[1..], b, Alive(st.ids + [id]));
      case Died(id) =>
        if |st.ids| > 0 && st.ids[|st.ids| - 1] == id {
          ReplayAppend(a[1..], b, Alive(st.ids[..|st.ids| - 1]));
        } else {
          assert Replay(b, Broken) == Broken;
        }
    }
  }

  /** The deaths of the youngest objects, newest first. */
  lemma {:induction false} ReplayDeaths(older: seq<int>, ids: seq<int>)
    ensures Replay(Deaths(ids), Alive(older + ids)) == Alive(older)
    decreases |ids|
  {
    if ids == [] {
      assert older + ids == older;
    } else {
      var last := |ids| - 1;
      var all, deaths := older + ids, Deaths(ids);
      assert all[|all| - 1] == ids[last] && all[..|all| - 1] == older + ids[..last];
      assert deaths[0] == Died(ids[last]) && deaths[1..] == Deaths(ids[..last]);
      ReplayDeaths(older, ids[..last]);
      assert Replay(deaths, Alive(all)) == Replay(deaths[1..], Alive(all[..|all| - 1]));
    }
  }

  /**
   However allocations, save scopes, resets and regions nest, each death is that of the youngest registered object
   still alive: inner regions before outer ones, newest first, and none twice. What is alive at the end is what the
   current arena still has registered.
   */
  lemma {:induction false} YoungestDiesFirst(p: Program, s: Snapshot, standard: nat, saved: bool, older: seq<int>)
    requires Disciplined(p, saved)
    ensures Replay(Trace(p, s, standard), Alive(older + s.dtors)) == Alive(older + End(p, s, standard).dtors)
    decreases p
  {
    match p
    case Skip =>
    case Make(size, align, base, id, destructor, rest) =>
      var s' := Made(s, standard, size, align, base, id, destructor);
      YoungestDiesFirst(rest, s', standard, saved, older);
      BornLast(older, s.dtors, id, destructor, Trace(rest, s', standard));
    case Scope(body, rest) =>
      var later := End(body, s, standard);
      ScopeRestores(body, s, standard);
      YoungestDiesFirst(body, s, standard, true, older);
      assert older + later.dtors == older + s.dtors + Newer(s, later);
      Nested(older + s.dtors, Trace(body, s, standard), Newer(s, later), Trace(rest, s, standard));
      YoungestDiesFirst(rest, s, standard, saved, older);
    case Region(inner, body, rest) =>
      var alive := older + s.dtors;
      YoungestDiesFirst(body, EMPTY, inner, false, alive);
      assert alive + EMPTY.dtors == alive;
      Nested(alive, Trace(body, EMPTY, inner), End(body, EMPTY, inner).dtors, Trace(rest, s, standard));
      YoungestDiesFirst(rest, s, standard, saved, older);
    case Clear(rest) =>
      ReplayDeaths(older, s.dtors);
      YoungestDiesFirst(rest, EMPTY, standard, saved, older);
      assert older + EMPTY.dtors == older;
      ReplayAppend(Deaths(s.dtors), Trace(rest, EMPTY, standard), Alive(older + s.dtors));
  }

  lemma BornLast(older: seq<int>, dtors: seq<int>, id: int, destructor: bool, rest: seq<Event>)
    ensures
      Replay((if destructor then [Born(id)] else []) + rest, Alive(older + dtors)) ==
      Replay(rest, Alive(older + if destructor then dtors + [id] else dtors))
  {
    if destructor {
      assert older + dtors + [id] == older + (dtors + [id]);
      assert ([Born(id)] + rest)[1..] == rest;
    } else {
      assert [] + rest == rest;
    }
  }

  /** A scope or region whose own objects die at its end leaves alive what was alive before. */
  lemma Nested(alive: seq<int>, body: seq<Event>, own: seq<int>, rest: seq<Event>)
    requires Replay(body, Alive(alive)) == Alive(alive + own)
    ensures Replay(body + Deaths(own) + rest, Alive(alive)) == Replay(rest, Alive(alive))
  {
    ReplayAppend(body + Deaths(own), rest, Alive(alive));
    ReplayAppend(body, Deaths(own), Alive(alive));
    ReplayDeaths(alive, own);
  }

  /** A whole region: everything that is born in it, at whatever depth, has died when it is left. */
  lemma NothingOutlivesItsRegion(standard: nat, body: Program)
    requires Disciplined(body, false)
    ensures Replay(Trace(Region(standard, body, Skip), EMPTY, 0), Alive([])) == Alive([])
    ensures
      var trace := Trace(Region(standard, body, Skip), EMPTY, 0);
      forall id :: Count(trace, Born(id)) == Count(trace, Died(id))
  {
    var trace := Trace(Region(standard, body, Skip), EMPTY, 0);
    YoungestDiesFirst(Region(standard, body, Skip), EMPTY, 0, false, []);
    assert [] + EMPTY.dtors == [];
    forall id
      ensures Count(trace, Born(id)) == Count(trace, Died(id))
    {
      BirthsMinusDeaths(trace, [], id);
    }
  }

  function Count(trace: seq<Event>, e: Event): nat {
    if trace == [] then 0 else (if trace[0] == e then 1 else 0) + Count(trace[1..], e)
  }

  /** In a trace that replays, births less deaths is what is left alive. */
  lemma {:induction false} BirthsMinusDeaths(trace: seq<Event>, alive: seq<int>, id: int)
    requires Replay(trace, Alive(alive)).Alive?
    ensures
      multiset(Replay(trace, Alive(alive)).ids)[id] ==
      multiset(alive)[id] + Count(trace, Born(id)) - Count(trace, Died(id))
    decreases |trace|
  {
    if trace != [] {
      match trace[0]
      case Born(x) =>
        BirthsMinusDeaths(trace[1..], alive + [x], id);
      case Died(x) =>
        var rest := alive[..|alive| - 1];
        assert alive == rest + [x];
        BirthsMinusDeaths(trace[1..], rest, id);
    }
  }

  function InOrder(ids: seq<int>): (r: seq<Event>)
    ensures |r| == |ids|
  {
    if ids == [] then [] else [Died(ids[0])] + InOrder(ids[1..])
  }

  lemma {:induction false} DeathsAreReversed(ids: seq<int>)
    ensures Deaths(ids) == InOrder(Reversed(ids))
    decreases |ids|
  {
    if ids != [] {
      DeathsAreReversed(ids[..|ids| - 1]);
      assert Reversed(ids)[1..] == Reversed(ids[..|ids| - 1]);
    }
  }

  /** The end of a save scope, and the deaths it brings. */
  method CloseScope(arena: Arena, point: SavePoint, ghost s: Snapshot) returns (ghost deaths: seq<Event>)
    requires point == Saved(s) && Extends(s, arena.Now())
    modifies arena
    ensures arena.Now() == s
    ensures |old(arena.destroyed)| <= |arena.destroyed| && deaths == InOrder(arena.destroyed[|old(arena.destroyed)|..])
    ensures deaths == Deaths(Newer(s, old(arena.Now())))
  {
    DeathsAreReversed(Newer(s, arena.Now()));
    RestoreUndoes(s, arena.Now());
    arena.Restore(point, s.allocs);
    deaths := InOrder(arena.destroyed[|old(arena.destroyed)|..]);
  }

  /** A reset of the whole arena, and the deaths it brings. */
  method Empty(arena: Arena) returns (ghost deaths: seq<Event>)
    modifies arena
    ensures arena.Now() == EMPTY
    ensures |old(arena.destroyed)| <= |arena.destroyed| && deaths == InOrder(arena.destroyed[|old(arena.destroyed)|..])
    ensures deaths == Deaths(old(arena.dtors))
  {
    DeathsAreReversed(arena.dtors);
    arena.Reset();
    deaths := InOrder(arena.destroyed[|old(arena.destroyed)|..]);
  }

  /** Leaving a region, and the deaths it brings. */
  method Leave(t: Thread, region: Arena, previous: Arena?) returns (ghost deaths: seq<Event>)
    requires t.current == region
    modifies t, region
    ensures t.current == previous
    ensures |old(region.destroyed)| <= |region.destroyed| && deaths == InOrder(region.destroyed[|old(region.destroyed)|..])
    ensures deaths == Deaths(old(region.dtors))
  {
    DeathsAreReversed(region.dtors);
    t.Exit(region, previous);
    deaths := InOrder(region.destroyed[|old(region.destroyed)|..]);
  }

  /**
   Run a program on the current arena. The arenas really pass through the states and the destructions that `End` and
   `Trace` describe, and the current arena is back at the end.
   */
  method Execute(t: Thread, arena: Arena, p: Program, ghost saved: bool) returns (ghost trace: seq<Event>)
    requires t.current == arena && Disciplined(p, saved)
    modifies t, arena
    ensures t.current == arena
    ensures arena.Now() == End(p, old(arena.Now()), arena.standard)
    ensures trace == Trace(p, old(arena.Now()), arena.standard)
    decreases p, 0
  {
    match p
    case Skip =>
      trace := [];
    case Make(size, align, base, id, destructor, rest) =>
      var _ := arena.Allocate(size, align, base, id, destructor);
      ghost var later := Execute(t, arena, rest, saved);
      trace := (if destructor then [Born(id)] else []) + later;
    case Scope(body, rest) =>
      ghost var inside := ExecuteScope(t, arena, body);
      ghost var later := Execute(t, arena, rest, saved);
      trace := inside + later;
    case Region(standard, body, rest) =>
      ghost var inside := ExecuteRegion(t, standard, body);
      ghost var later := Execute(t, arena, rest, saved);
      trace := inside + later;
    case Clear(rest) =>
      ghost var deaths := Empty(arena);
      ghost var later := Execute(t, arena, rest, saved);
      trace := deaths + later;
  }

  /** Save, run the body, restore. */
  method ExecuteScope(t: Thread, arena: Arena, body: Program) returns (ghost trace: seq<Event>)
    requires t.current == arena && Disciplined(body, true)
    modifies t, arena
    ensures t.current == arena && arena.Now() == old(arena.Now())
    ensures arena.Now() == Closed(arena.Now(), End(body, arena.Now(), arena.standard))
    ensures
      trace == Trace(body, arena.Now(), arena.standard) + Deaths(Newer(arena.Now(), End(body, arena.Now(), arena.standard)))
    decreases body, 1
  {
    ghost var s := arena.Now();
    ScopeRestores(body, s, arena.standard);
    var point := arena.Save();
    trace := Execute(t, arena, body, true);
    ghost var deaths := CloseScope(arena, point, s);
    trace := trace + deaths;
  }

  /** Run the body in a fresh arena that is the current one meanwhile. */
  method ExecuteRegion(t: Thread, standard: nat, body: Program) returns (ghost trace: seq<Event>)
    requires Disciplined(body, false)
    modifies t
    ensures t.current == old(t.current)
    ensures trace == Trace(body, EMPTY, standard) + Deaths(End(body, EMPTY, standard).dtors)
    decreases body, 1
  {
    var region, previous := t.Enter(standard);
    trace := Execute(t, region, body, false);
    ghost var deaths := Leave(t, region, previous);
    trace := trace + deaths;
  }
}
