/**
 The bump allocator: blocks with an offset, a list of destructors to run, save points, and regions that switch the
 current arena.
 */
module Arenas {

  const MAX_BLOCK := 4 * 1024 * 1024
  const MAX_ALIGN := 16

  /** A block of memory and how much of it is used. */
  datatype Block = Block(base: int, capacity: nat, offset: nat)

  /** An allocation that is still live. */
  datatype Alloc = Alloc(block: nat, offset: nat, size: nat, align: nat)

  /** The whole state of an arena, with the allocations it has to keep. */
  datatype Snapshot = Snapshot(blocks: seq<Block>, dtors: seq<int>, total: nat, allocs: seq<Alloc>)

  const EMPTY := Snapshot([], [], 0, [])

  predicate PowerOfTwo(n: nat) {
    n == 1 || (n > 1 && n % 2 == 0 && PowerOfTwo(n / 2))
  }

  /** The alignments a type may have. */
  predicate IsAlign(n: nat) {
    PowerOfTwo(n) && n <= MAX_ALIGN
  }

  type Alignment = n: nat | IsAlign(n) witness 1

  /** The bits of `x` below the power of two `n` are clear. */
  predicate Aligned(x: int, n: nat)
    decreases n
  {
    n <= 1 || (x % 2 == 0 && Aligned(x / 2, n / 2))
  }

  /** `x & ~(n - 1)` for a power of two `n`. */
  function ClearLowBits(x: nat, n: nat): (r: nat)
    requires PowerOfTwo(n)
    ensures r <= x < r + n && Aligned(r, n)
  {
    if n == 1 then x else 2 * ClearLowBits(x / 2, n / 2)
  }

  /** `align_up`: the first offset from `offset` on that is aligned. */
  function AlignUp(offset: nat, n: nat): (r: nat)
    requires PowerOfTwo(n)
    ensures offset <= r < offset + n && Aligned(r, n)
  {
    ClearLowBits(offset + n - 1, n)
  }

  lemma {:induction false} AlignedAdd(x: int, y: int, n: nat)
    requires Aligned(x, n) && Aligned(y, n)
    ensures Aligned(x + y, n)
    decreases n
  {
    if n > 1 {
      assert (x + y) / 2 == x / 2 + y / 2;
      AlignedAdd(x / 2, y / 2, n / 2);
    }
  }

  lemma {:induction false} AlignedLess(x: int, m: nat, n: nat)
    requires Aligned(x, m) && n <= m
    ensures Aligned(x, n)
    decreases n
  {
    if n > 1 {
      AlignedLess(x / 2, m / 2, n / 2);
    }
  }

  function Sum(allocs: seq<Alloc>): nat {
    if allocs == [] then 0 else Sum(allocs[..|allocs| - 1]) + allocs[|allocs| - 1].size
  }

  function Address(s: Snapshot, k: nat): int
    requires k < |s.allocs| && s.allocs[k].block < |s.blocks|
  {
    s.blocks[s.allocs[k].block].base + s.allocs[k].offset
  }

  ghost predicate Apart(base1: int, len1: nat, base2: int, len2: nat) {
    base1 + len1 <= base2 || base2 + len2 <= base1
  }

  /** Blocks are aligned and disjoint, and used no further than they reach. */
  ghost predicate BlocksOk(blocks: seq<Block>) {
    && (forall b :: 0 <= b < |blocks| ==> blocks[b].offset <= blocks[b].capacity && Aligned(blocks[b].base, MAX_ALIGN))
    && forall b, c :: 0 <= b < c < |blocks| ==> Apart(blocks[b].base, blocks[b].capacity, blocks[c].base, blocks[c].capacity)
  }

  /** An allocation is aligned and lies below the offset of its block. */
  ghost predicate AllocOk(blocks: seq<Block>, a: Alloc) {
    && a.block < |blocks|
    && IsAlign(a.align)
    && Aligned(a.offset, a.align)
    && a.offset + a.size <= blocks[a.block].offset
  }

  ghost predicate Before(a: Alloc, b: Alloc) {
    a.block < b.block || (a.block == b.block && a.offset + a.size <= b.offset)
  }

  /** Allocations are in place and in order. */
  ghost predicate AllocsOk(blocks: seq<Block>, allocs: seq<Alloc>) {
    && (forall k :: 0 <= k < |allocs| ==> AllocOk(blocks, allocs[k]))
    && forall j, k :: 0 <= j < k < |allocs| ==> Before(allocs[j], allocs[k])
  }

  ghost predicate Valid(s: Snapshot) {
    BlocksOk(s.blocks) && AllocsOk(s.blocks, s.allocs) && s.total == Sum(s.allocs)
  }

  /** Every live allocation is aligned and inside its block. */
  lemma AllocationInPlace(s: Snapshot, k: nat)
    requires Valid(s) && k < |s.allocs|
    ensures s.allocs[k].block < |s.blocks| && Aligned(Address(s, k), s.allocs[k].align)
    ensures
      var b := s.blocks[s.allocs[k].block];
      b.base <= Address(s, k) && Address(s, k) + s.allocs[k].size <= b.base + b.capacity
  {
    assert AllocOk(s.blocks, s.allocs[k]);
    var base := s.blocks[s.allocs[k].block].base;
    AlignedLess(base, MAX_ALIGN, s.allocs[k].align);
    AlignedAdd(base, s.allocs[k].offset, s.allocs[k].align);
  }

  /** No two live allocations overlap. */
  lemma AllocationsAreDisjoint(s: Snapshot, j: nat, k: nat)
    requires Valid(s) && j < |s.allocs| && k < |s.allocs| && j != k
    ensures s.allocs[j].block < |s.blocks| && s.allocs[k].block < |s.blocks|
    ensures Apart(Address(s, j), s.allocs[j].size, Address(s, k), s.allocs[k].size)
  {
    assert AllocOk(s.blocks, s.allocs[j]) && AllocOk(s.blocks, s.allocs[k]);
    assert if j < k then Before(s.allocs[j], s.allocs[k]) else Before(s.allocs[k], s.allocs[j]);
  }

  /** The block `add_block` appends for an allocation of `size` bytes, at `base`. */
  function NewBlock(s: Snapshot, standard: nat, size: nat, base: int): (b: Block)
    ensures size <= b.capacity
  {
    var wanted := if s.blocks == [] then standard else Min(s.blocks[|s.blocks| - 1].capacity * 2, MAX_BLOCK);
    Block(base, Max(wanted, size + MAX_ALIGN), 0)
  }

  function Min(a: nat, b: nat): nat { if a < b then a else b }

  function Max(a: nat, b: nat): nat { if a < b then b else a }

  /** Whether the last block has room. */
  predicate Fits(s: Snapshot, size: nat, align: nat)
    requires IsAlign(align)
  {
    |s.blocks| > 0 && var b := s.blocks[|s.blocks| - 1]; AlignUp(b.offset, align) + size <= b.capacity
  }

  /** A block is added if the last one has no room. */
  function Prepared(s: Snapshot, standard: nat, size: nat, align: nat, base: int): (s': Snapshot)
    requires IsAlign(align)
    ensures |s'.blocks| > 0
  {
    if Fits(s, size, align) then s else s.(blocks := s.blocks + [NewBlock(s, standard, size, base)])
  }

  /** The last block gives `size` bytes at offset `at`. */
  function Moved(s: Snapshot, size: nat, align: nat, at: nat): Snapshot
    requires |s.blocks| > 0
  {
    var last := |s.blocks| - 1;
    Snapshot(s.blocks[last := s.blocks[last].(offset := at + size)], s.dtors, s.total + size,
             s.allocs + [Alloc(last, at, size, align)])
  }

  function LastOffset(s: Snapshot): nat
    requires |s.blocks| > 0
  {
    s.blocks[|s.blocks| - 1].offset
  }

  /** `bump_allocate`. */
  function Bumped(s: Snapshot, standard: nat, size: nat, align: nat, base: int): Snapshot
    requires IsAlign(align)
  {
    var p := Prepared(s, standard, size, align, base);
    Moved(p, size, align, AlignUp(LastOffset(p), align))
  }

  /** What the system hands out is aligned and apart from the blocks in use. */
  ghost predicate Room(s: Snapshot, b: Block) {
    && Aligned(b.base, MAX_ALIGN)
    && forall k :: 0 <= k < |s.blocks| ==> Apart(s.blocks[k].base, s.blocks[k].capacity, b.base, b.capacity)
  }

  lemma MovedValid(s: Snapshot, size: nat, align: nat, at: nat)
    requires Valid(s) && |s.blocks| > 0 && IsAlign(align) && Aligned(at, align)
    requires LastOffset(s) <= at && at + size <= s.blocks[|s.blocks| - 1].capacity
    ensures Valid(Moved(s, size, align, at))
  {
    var s', n := Moved(s, size, align, at), |s.allocs|;
    assert s'.allocs[..n] == s.allocs;
    forall k | 0 <= k <= n
      ensures AllocOk(s'.blocks, s'.allocs[k])
      ensures k < n ==> Before(s'.allocs[k], s'.allocs[n])
    {
      MovedInPlace(s, size, align, at, k);
    }
    forall j, k | 0 <= j < k <= n
      ensures Before(s'.allocs[j], s'.allocs[k])
    {
      if k < n {
        assert Before(s.allocs[j], s.allocs[k]);
      }
    }
  }

  lemma MovedInPlace(s: Snapshot, size: nat, align: nat, at: nat, k: nat)
    requires Valid(s) && |s.blocks| > 0 && IsAlign(align) && Aligned(at, align) && k <= |s.allocs|
    requires LastOffset(s) <= at && at + size <= s.blocks[|s.blocks| - 1].capacity
    ensures
      var s', n := Moved(s, size, align, at), |s.allocs|;
      AllocOk(s'.blocks, s'.allocs[k]) && (k < n ==> Before(s'.allocs[k], s'.allocs[n]))
  {
    if k < |s.allocs| {
      assert AllocOk(s.blocks, s.allocs[k]);
    }
  }

  lemma PreparedValid(s: Snapshot, standard: nat, size: nat, align: nat, base: int)
    requires Valid(s) && IsAlign(align) && (Fits(s, size, align) || Room(s, NewBlock(s, standard, size, base)))
    ensures
      var p := Prepared(s, standard, size, align, base);
      Valid(p) && AlignUp(LastOffset(p), align) + size <= p.blocks[|p.blocks| - 1].capacity
  {
    var p := Prepared(s, standard, size, align, base);
    forall k | 0 <= k < |p.allocs|
      ensures AllocOk(p.blocks, p.allocs[k])
    {
      assert AllocOk(s.blocks, s.allocs[k]);
    }
  }

  lemma BumpedValid(s: Snapshot, standard: nat, size: nat, align: nat, base: int)
    requires Valid(s) && IsAlign(align) && (Fits(s, size, align) || Room(s, NewBlock(s, standard, size, base)))
    ensures Valid(Bumped(s, standard, size, align, base))
  {
    PreparedValid(s, standard, size, align, base);
    var p := Prepared(s, standard, size, align, base);
    MovedValid(p, size, align, AlignUp(LastOffset(p), align));
  }

  /** `allocate`: bump, and register the destructor if there is one. */
  function Made(s: Snapshot, standard: nat, size: nat, align: nat, base: int, id: int, destructor: bool): Snapshot
    requires IsAlign(align)
  {
    var s' := Bumped(s, standard, size, align, base);
    if destructor then s'.(dtors := s'.dtors + [id]) else s'
  }

  lemma MadeValid(s: Snapshot, standard: nat, size: nat, align: nat, base: int, id: int, destructor: bool)
    requires Valid(s) && IsAlign(align) && (Fits(s, size, align) || Room(s, NewBlock(s, standard, size, base)))
    ensures Valid(Made(s, standard, size, align, base, id, destructor))
  {
    BumpedValid(s, standard, size, align, base);
  }

  datatype SavePoint = SavePoint(blockCount: nat, blockOffset: nat, dtorCount: nat, total: nat)

  /** `save`. */
  function Saved(s: Snapshot): SavePoint {
    SavePoint(|s.blocks|, if s.blocks == [] then 0 else s.blocks[|s.blocks| - 1].offset, |s.dtors|, s.total)
  }

  /** The blocks of `s` are still there, the last one possibly with another offset, and so are its destructors. */
  ghost predicate Covers(s: Snapshot, later: Snapshot) {
    && |s.blocks| <= |later.blocks|
    && (forall b :: 0 <= b < |s.blocks| - 1 ==> later.blocks[b] == s.blocks[b])
    && (|s.blocks| > 0 ==>
      later.blocks[|s.blocks| - 1] == s.blocks[|s.blocks| - 1].(offset := later.blocks[|s.blocks| - 1].offset))
    && s.dtors <= later.dtors
  }

  /** `later` was reached from `s` by allocating, so that everything of `s` is still there. */
  ghost predicate Extends(s: Snapshot, later: Snapshot) {
    Covers(s, later) && s.allocs <= later.allocs
  }

  lemma MadeExtends(s: Snapshot, later: Snapshot, standard: nat, size: nat, align: nat, base: int, id: int, destructor: bool)
    requires Extends(s, later) && IsAlign(align)
    ensures Extends(s, Made(later, standard, size, align, base, id, destructor))
  {
  }

  function Reversed(ids: seq<int>): (r: seq<int>)
    ensures |r| == |ids|
  {
    if ids == [] then [] else [ids[|ids| - 1]] + Reversed(ids[..|ids| - 1])
  }

  /** What restoring a save point makes of a state. */
  function Restored(s: Snapshot, p: SavePoint): Snapshot {
    var blocks := if p.blockCount < |s.blocks| then s.blocks[..p.blockCount] else s.blocks;
    var dtors := if p.dtorCount < |s.dtors| then s.dtors[..p.dtorCount] else s.dtors;
    var blocks' :=
      if blocks != [] && |blocks| == p.blockCount
      then blocks[|blocks| - 1 := blocks[|blocks| - 1].(offset := p.blockOffset)] else blocks;
    Snapshot(blocks', dtors, p.total, [])
  }

  /**
   Whatever happened since a save point was taken, resets included: restoring it gives back the saved state exactly if
   the saved blocks and destructors are still there.
   */
  lemma RestoreIsRight(s: Snapshot, later: Snapshot)
    ensures Restored(later, Saved(s)).(allocs := s.allocs) == s <==> Covers(s, later)
  {
    var r := Restored(later, Saved(s));
    if Covers(s, later) {
      RestoreUndoes(s, later);
    }
    if r.(allocs := s.allocs) == s {
      RightIsCovered(s, later);
    }
  }

  /** Restoring a save point taken by an earlier state gives back exactly that state. */
  lemma RestoreUndoes(s: Snapshot, later: Snapshot)
    requires Covers(s, later)
    ensures Restored(later, Saved(s)).(allocs := s.allocs) == s
  {
    var r := Restored(later, Saved(s));
    assert r.dtors == s.dtors;
    if s.blocks == [] {
      assert r.blocks == [];
    } else {
      forall b | 0 <= b < |s.blocks|
        ensures r.blocks[b] == s.blocks[b]
      {
      }
      assert r.blocks == s.blocks;
    }
  }

  lemma RightIsCovered(s: Snapshot, later: Snapshot)
    requires Restored(later, Saved(s)).blocks == s.blocks && Restored(later, Saved(s)).dtors == s.dtors
    ensures Covers(s, later)
  {
    var r := Restored(later, Saved(s));
    assert |r.dtors| == Min(|s.dtors|, |later.dtors|) && |r.blocks| == Min(|s.blocks|, |later.blocks|);
    forall b | 0 <= b < |s.blocks| - 1
      ensures later.blocks[b] == s.blocks[b]
    {
      assert r.blocks[b] == later.blocks[b];
    }
    if |s.blocks| > 0 {
      var n := |s.blocks| - 1;
      assert r.blocks[n] == later.blocks[n].(offset := s.blocks[n].offset);
    }
  }

  /**
   Stale save points: object 1 is made and the arena saved, the arena is reset and a larger object 2 made. Restoring
   then leaves object 2 registered but gives the end of its memory away, and the next allocation overlaps it.
   */
  lemma StaleRestoreOverlaps(small: nat, large: nat, more: nat)
    requires small < large <= 48 && 0 < more && small + more <= 64
    ensures
      var s := Made(EMPTY, 64, small, 1, 0, 1, true);
      var later := Made(EMPTY, 64, large, 1, 0, 2, true);
      var restored := Restored(later, Saved(s)).(allocs := later.allocs);
      var next := Made(restored, 64, more, 1, 0, 3, false);
      && Valid(s) && Valid(later) && !Covers(s, later) && restored.dtors == [2]
      && next.blocks == [Block(0, 64, small + more)] && next.allocs == [Alloc(0, 0, large, 1), Alloc(0, small, more, 1)]
      && !Apart(Address(next, 0), large, Address(next, 1), more)
  {
    FirstObject(small, 1);
    FirstObject(large, 2);
    StaleRestored(small, large);
    NextObject(small, large, more);
  }

  lemma StaleRestored(small: nat, large: nat)
    ensures
      var s := Snapshot([Block(0, 64, small)], [1], small, [Alloc(0, 0, small, 1)]);
      var later := Snapshot([Block(0, 64, large)], [2], large, [Alloc(0, 0, large, 1)]);
      && !Covers(s, later)
      && Restored(later, Saved(s)).(allocs := later.allocs) ==
         Snapshot([Block(0, 64, small)], [2], small, [Alloc(0, 0, large, 1)])
  {
    assert [1][0] != [2][0];
  }

  lemma NextObject(small: nat, large: nat, more: nat)
    requires small < large && 0 < more && small + more <= 64
    ensures
      var next := Made(Snapshot([Block(0, 64, small)], [2], small, [Alloc(0, 0, large, 1)]), 64, more, 1, 0, 3, false);
      && next.blocks == [Block(0, 64, small + more)] && next.allocs == [Alloc(0, 0, large, 1), Alloc(0, small, more, 1)]
      && !Apart(Address(next, 0), large, Address(next, 1), more)
  {
    var r := Snapshot([Block(0, 64, small)], [2], small, [Alloc(0, 0, large, 1)]);
    assert Fits(r, more, 1);
  }

  /** The first object of an arena. */
  lemma FirstObject(size: nat, id: int)
    requires size <= 48
    ensures Made(EMPTY, 64, size, 1, 0, id, true) == Snapshot([Block(0, 64, size)], [id], size, [Alloc(0, 0, size, 1)])
    ensures Valid(Made(EMPTY, 64, size, 1, 0, id, true))
  {
    AlignedZero(MAX_ALIGN);
    MadeValid(EMPTY, 64, size, 1, 0, id, true);
  }

  lemma {:induction false} AlignedZero(n: nat)
    ensures Aligned(0, n)
  {
    if n > 1 {
      AlignedZero(n / 2);
    }
  }

  /** One block after the other, at these bases, each for an allocation of `size` bytes. */
  function Extended(s: Snapshot, standard: nat, size: nat, bases: seq<int>): (r: Snapshot)
    ensures |r.blocks| == |s.blocks| + |bases|
  {
    if bases == [] then s
    else
      var before := Extended(s, standard, size, bases[..|bases| - 1]);
      before.(blocks := before.blocks + [NewBlock(before, standard, size, bases[|bases| - 1])])
  }

  function Doubled(n: nat, k: nat): nat {
    if k == 0 then n else 2 * Doubled(n, k - 1)
  }

  /** Blocks for small allocations double up to 4 MiB, where they stay. */
  lemma {:induction false} BlocksDouble(s: Snapshot, standard: nat, size: nat, bases: seq<int>)
    requires s.blocks != [] && size + 16 <= s.blocks[|s.blocks| - 1].capacity <= 4194304
    ensures
      var blocks := Extended(s, standard, size, bases).blocks;
      var doubled := Doubled(s.blocks[|s.blocks| - 1].capacity, |bases|);
      && blocks[|blocks| - 1].capacity == (if doubled <= 4194304 then doubled else 4194304)
      && s.blocks[|s.blocks| - 1].capacity <= doubled
    decreases |bases|
  {
    if bases != [] {
      BlocksDouble(s, standard, size, bases[..|bases| - 1]);
    }
  }

  class Arena {
    const standard: nat
    var blocks: seq<Block>
    var dtors: seq<int>
    var total: nat
    ghost var allocs: seq<Alloc>
    ghost var destroyed: seq<int>  // the objects destroyed so far, in order

    constructor (standard: nat)
      ensures this.standard == standard && Now() == EMPTY && destroyed == []
    {
      this.standard := standard;
      blocks, dtors, total := [], [], 0;
      allocs, destroyed := [], [];
    }

    ghost function Now(): Snapshot
      reads this
    {
      Snapshot(blocks, dtors, total, allocs)
    }

    /** `bump_allocate`: the address of `size` fresh bytes; `base` is where the system would put a new block. */
    method BumpAllocate(size: nat, align: nat, base: int) returns (address: int)
      requires IsAlign(align)
      modifies this
      ensures Now() == Bumped(old(Now()), standard, size, align, base) && destroyed == old(destroyed)
      ensures address == Address(Now(), |allocs| - 1)
    {
      Prepare(size, align, base);
      var at := AlignUp(blocks[|blocks| - 1].offset, align);
      address := Bump(size, align, at);
    }

    /** `allocate`: memory for an object; if its destructor must run, it is registered. */
    method Allocate(size: nat, align: nat, base: int, id: int, destructor: bool) returns (address: int)
      requires IsAlign(align)
      modifies this
      ensures Now() == Made(old(Now()), standard, size, align, base, id, destructor)
      ensures address == Address(Now(), |allocs| - 1) && destroyed == old(destroyed)
    {
      address := BumpAllocate(size, align, base);
      if destructor {
        dtors := dtors + [id];
      }
    }

    /** Make sure the last block has room. */
    method Prepare(size: nat, align: nat, base: int)
      requires IsAlign(align)
      modifies this`blocks
      ensures Now() == Prepared(old(Now()), standard, size, align, base)
    {
      if |blocks| > 0 {
        var last := blocks[|blocks| - 1];
        if AlignUp(last.offset, align) + size <= last.capacity {
          return;
        }
      }
      AddBlock(size, base);
    }

    /** Move the offset of the last block. */
    method Bump(size: nat, align: nat, at: nat) returns (address: int)
      requires |blocks| > 0
      modifies this
      ensures Now() == Moved(old(Now()), size, align, at) && destroyed == old(destroyed)
      ensures address == old(blocks[|blocks| - 1].base) + at
    {
      var last := |blocks| - 1;
      address := blocks[last].base + at;
      blocks := blocks[last := blocks[last].(offset := at + size)];
      total := total + size;
      allocs := allocs + [Alloc(last, at, size, align)];
    }

    /** `add_block`: twice the last block, up to a limit, but never too small. */
    method AddBlock(size: nat, base: int)
      modifies this`blocks
      ensures blocks == old(blocks) + [NewBlock(old(Now()), standard, size, base)]
    {
      var wanted := standard;
      if |blocks| > 0 {
        wanted := Min(blocks[|blocks| - 1].capacity * 2, MAX_BLOCK);
      }
      wanted := Max(wanted, size + MAX_ALIGN);
      blocks := blocks + [Block(base, wanted, 0)];
    }

    method Save() returns (p: SavePoint)
      ensures p == Saved(Now())
    {
      var offset := 0;
      if |blocks| > 0 {
        offset := blocks[|blocks| - 1].offset;
      }
      p := SavePoint(|blocks|, offset, |dtors|, total);
    }

    /** Run the newest destructors while there are more than `n`. */
    method DestroyTo(n: nat)
      modifies this`dtors, this`destroyed
      ensures dtors == if n < |old(dtors)| then old(dtors)[..n] else old(dtors)
      ensures destroyed == old(destroyed) + if n < |old(dtors)| then Reversed(old(dtors)[n..]) else []
    {
      if n >= |dtors| {
        return;
      }
      ghost var gone: seq<int> := [];
      assert old(dtors)[..|dtors|] == dtors;
      while |dtors| > n
        invariant n <= |dtors| <= |old(dtors)| && dtors == old(dtors)[..|dtors|]
        invariant destroyed == old(destroyed) + gone
        invariant gone + Reversed(dtors[n..]) == Reversed(old(dtors)[n..])
      {
        var last := |dtors| - 1;
        ghost var open := dtors[n..];
        assert open[..|open| - 1] == dtors[..last][n..] && open[|open| - 1] == dtors[last];
        assert gone + ([dtors[last]] + Reversed(open[..|open| - 1])) == gone + [dtors[last]] + Reversed(open[..|open| - 1]);
        destroyed := destroyed + [dtors[last]];
        gone := gone + [dtors[last]];
        dtors := dtors[..last];
      }
      assert dtors[n..] == [] && gone + [] == gone;
    }

    /** Give back the newest blocks while there are more than `n`. */
    method ReleaseTo(n: nat)
      modifies this`blocks
      ensures blocks == if n < |old(blocks)| then old(blocks)[..n] else old(blocks)
    {
      while |blocks| > n
        invariant |blocks| <= |old(blocks)| && blocks == old(blocks)[..|blocks|] && (n < |old(blocks)| ==> n <= |blocks|)
        invariant n >= |old(blocks)| ==> blocks == old(blocks)
      {
        blocks := blocks[..|blocks| - 1];
      }
    }

    /**
     `restore`, of any save point in any state; `kept` are the allocations that are to live on. What is registered
     beyond the saved number is destroyed, newest first.
     */
    method Restore(p: SavePoint, ghost kept: seq<Alloc>)
      modifies this
      ensures Now() == Restored(old(Now()), p).(allocs := kept)
      ensures destroyed == old(destroyed) + if p.dtorCount < |old(dtors)| then Reversed(old(dtors)[p.dtorCount..]) else []
    {
      DestroyTo(p.dtorCount);
      ReleaseTo(p.blockCount);
      if |blocks| > 0 && |blocks| == p.blockCount {
        blocks := blocks[|blocks| - 1 := blocks[|blocks| - 1].(offset := p.blockOffset)];
      }
      total := p.total;
      allocs := kept;
    }

    /** `reset`: destroy everything, newest first, and give back all memory. */
    method Reset()
      modifies this
      ensures Now() == EMPTY
      ensures destroyed == old(destroyed) + Reversed(old(dtors))
    {
      ghost var gone: seq<int> := [];
      var i := |dtors|;
      assert dtors[..i] == dtors;
      while i > 0
        invariant 0 <= i <= |dtors| && dtors == old(dtors)
        invariant destroyed == old(destroyed) + gone
        invariant gone + Reversed(dtors[..i]) == Reversed(dtors)
      {
        i := i - 1;
        assert dtors[..i + 1][..i] == dtors[..i];
        assert gone + ([dtors[i]] + Reversed(dtors[..i])) == gone + [dtors[i]] + Reversed(dtors[..i]);
        destroyed := destroyed + [dtors[i]];
        gone := gone + [dtors[i]];
      }
      assert gone + [] == gone;
      blocks, dtors, total, allocs := [], [], 0, [];
    }
  }
}
