/**
 The slab: eight blocks of equal-sized cells, each a vector of chunks of 64 cells with an occupancy bitmap.
 A cell is named by the address of its header, the first byte of its slot.
 */
module Slabs {
  import opened Options

  const HEADER := 8
  const CHUNK_CELLS := 64

  /** 64 slots of `size` bytes from `base` on. */
  datatype Chunk = Chunk(base: int, size: nat, occupied: seq<bool>)

  /** A piece of raw memory. */
  datatype Piece = Piece(base: int, length: nat)

  datatype Block = Block(size: nat, pieces: seq<Piece>, chunks: seq<Chunk>)

  ghost predicate ChunkOk(c: Chunk) {
    HEADER < c.size && |c.occupied| == CHUNK_CELLS
  }

  function CellAt(c: Chunk, i: nat): int {
    c.base + i * c.size
  }

  function End(c: Chunk): int {
    c.base + CHUNK_CELLS * c.size
  }

  /** `Chunk::has_address`. */
  predicate Has(c: Chunk, a: int)
    requires 0 < c.size && |c.occupied| == CHUNK_CELLS
  {
    c.base <= a < End(c) && (a - c.base) % c.size == 0 && (IndexBound(a - c.base, c.size); c.occupied[(a - c.base) / c.size])
  }

  lemma IndexBound(x: int, s: nat)
    requires 0 < s && 0 <= x < CHUNK_CELLS * s
    ensures 0 <= x / s < CHUNK_CELLS
  {
  }

  lemma AtLeast(s: nat, k: int)
    requires 0 < s && 1 <= k
    ensures s * k >= s
  {
  }

  lemma Multiple(i: nat, s: nat)
    requires 0 < s
    ensures (i * s) / s == i && (i * s) % s == 0
  {
    var x := i * s;
    var q, r := x / s, x % s;
    assert x == s * q + r && 0 <= r < s;
    assert s * (i - q) == x - s * q;
    if q < i {
      AtLeast(s, i - q);
      assert false;
    } else if q > i {
      AtLeast(s, q - i);
      assert false;
    }
  }

  /** An address belongs to a chunk exactly if it is the base of one of its occupied slots. */
  lemma HasIsOccupied(c: Chunk, a: int)
    requires ChunkOk(c)
    ensures Has(c, a) <==> exists i :: 0 <= i < CHUNK_CELLS && c.occupied[i] && a == CellAt(c, i)
  {
    if Has(c, a) {
      var i := (a - c.base) / c.size;
      IndexBound(a - c.base, c.size);
      assert c.occupied[i] && a == CellAt(c, i);
    }
    forall i | 0 <= i < CHUNK_CELLS && c.occupied[i] && a == CellAt(c, i)
      ensures Has(c, a)
    {
      HasCell(c, i);
    }
  }

  lemma HasCell(c: Chunk, i: nat)
    requires ChunkOk(c) && i < CHUNK_CELLS
    ensures c.base <= CellAt(c, i) && CellAt(c, i) + c.size <= End(c)
    ensures Has(c, CellAt(c, i)) == c.occupied[i]
    ensures (CellAt(c, i) - c.base) % c.size == 0 && (CellAt(c, i) - c.base) / c.size == i
  {
    Multiple(i, c.size);
    Fits(i, c.size);
  }

  lemma Fits(i: nat, s: nat)
    requires i < CHUNK_CELLS
    ensures i * s + s <= CHUNK_CELLS * s
  {
    assert (i + 1) * s <= CHUNK_CELLS * s;
  }

  /** Setting one bit adds or removes one cell. */
  lemma SetBit(c: Chunk, i: nat, bit: bool, a: int)
    requires ChunkOk(c) && i < CHUNK_CELLS
    ensures Has(c.(occupied := c.occupied[i := bit]), a) == if a == CellAt(c, i) then bit else Has(c, a)
  {
    HasCell(c, i);
    var c' := c.(occupied := c.occupied[i := bit]);
    HasCell(c', i);
    if c.base <= a < End(c) && (a - c.base) % c.size == 0 {
      IndexBound(a - c.base, c.size);
      if (a - c.base) / c.size == i {
        assert a == CellAt(c, i);
      }
    }
  }

  ghost predicate Inside(c: Chunk, p: Piece) {
    p.base <= c.base && End(c) <= p.base + p.length
  }

  predicate Apart(base1: int, end1: int, base2: int, end2: int) {
    end1 <= base2 || end2 <= base1
  }

  /** Some piece of memory contains the chunk. */
  ghost predicate Contained(c: Chunk, pieces: seq<Piece>) {
    exists p :: 0 <= p < |pieces| && Inside(c, pieces[p])
  }

  ghost predicate BlockOk(b: Block) {
    && |b.chunks| > 0
    && forall c :: 0 <= c < |b.chunks| ==>
      ChunkOk(b.chunks[c]) && b.chunks[c].size == b.size && Contained(b.chunks[c], b.pieces)
  }

  /** The chunk at an index of the slab. */
  datatype Place = Place(block: nat, chunk: nat)

  ghost predicate IsPlace(blocks: seq<Block>, x: Place) {
    x.block < |blocks| && x.chunk < |blocks[x.block].chunks|
  }

  ghost function ChunkOf(blocks: seq<Block>, x: Place): Chunk
    requires IsPlace(blocks, x)
  {
    blocks[x.block].chunks[x.chunk]
  }

  /** Static memory, from `low` up to `high`. */
  datatype Static = Static(low: int, high: int)

  /** Chunks never overlap each other or static memory. */
  ghost predicate Layout(blocks: seq<Block>, st: Static) {
    && (forall b :: 0 <= b < |blocks| ==> BlockOk(blocks[b]))
    && (forall x, y :: IsPlace(blocks, x) && IsPlace(blocks, y) && x != y ==>
      Apart(ChunkOf(blocks, x).base, End(ChunkOf(blocks, x)), ChunkOf(blocks, y).base, End(ChunkOf(blocks, y))))
    && (forall x :: IsPlace(blocks, x) ==> Apart(ChunkOf(blocks, x).base, End(ChunkOf(blocks, x)), st.low, st.high))
  }

  /** `a` is an occupied cell of the chunk at `x`. */
  ghost predicate HasAt(blocks: seq<Block>, st: Static, x: Place, a: int)
    requires Layout(blocks, st) && IsPlace(blocks, x)
  {
    Has(ChunkOf(blocks, x), a)
  }

  ghost predicate Live(blocks: seq<Block>, st: Static, a: int)
    requires Layout(blocks, st)
  {
    exists x :: IsPlace(blocks, x) && HasAt(blocks, st, x, a)
  }

  ghost predicate AreLive(blocks: seq<Block>, st: Static, cells: set<int>)
    requires Layout(blocks, st)
  {
    forall a :: a in cells <==> Live(blocks, st, a)
  }

  lemma LiveIsFinite(blocks: seq<Block>, st: Static)
    requires Layout(blocks, st)
    ensures exists cells :: AreLive(blocks, st, cells)
  {
    var cells := set b, c, i | 0 <= b < |blocks| && 0 <= c < |blocks[b].chunks| && 0 <= i < CHUNK_CELLS
                   && Has(blocks[b].chunks[c], CellAt(blocks[b].chunks[c], i)) :: CellAt(blocks[b].chunks[c], i);
    forall a | Live(blocks, st, a)
      ensures a in cells
    {
      var x :| IsPlace(blocks, x) && HasAt(blocks, st, x, a);
      HasIsOccupied(ChunkOf(blocks, x), a);
    }
    forall a | a in cells
      ensures Live(blocks, st, a)
    {
      var b, c, i :| 0 <= b < |blocks| && 0 <= c < |blocks[b].chunks| && 0 <= i < CHUNK_CELLS
                   && Has(blocks[b].chunks[c], CellAt(blocks[b].chunks[c], i)) && a == CellAt(blocks[b].chunks[c], i);
      assert HasAt(blocks, st, Place(b, c), a);
    }
    assert AreLive(blocks, st, cells);
  }

  /** The occupied cells. */
  ghost function LiveSet(blocks: seq<Block>, st: Static): (cells: set<int>)
    requires Layout(blocks, st)
    ensures AreLive(blocks, st, cells)
  {
    LiveIsFinite(blocks, st);
    var cells :| AreLive(blocks, st, cells);
    cells
  }

  function SetSlot(blocks: seq<Block>, x: Place, i: nat, bit: bool): seq<Block>
    requires x.block < |blocks| && x.chunk < |blocks[x.block].chunks|
    requires i < |blocks[x.block].chunks[x.chunk].occupied|
  {
    var b := blocks[x.block];
    var c := b.chunks[x.chunk];
    blocks[x.block := b.(chunks := b.chunks[x.chunk := c.(occupied := c.occupied[i := bit])])]
  }

  lemma SameChunkContained(c: Chunk, c': Chunk, pieces: seq<Piece>)
    requires Contained(c, pieces) && c'.base == c.base && c'.size == c.size
    ensures Contained(c', pieces)
  {
    var p :| 0 <= p < |pieces| && Inside(c, pieces[p]);
    assert Inside(c', pieces[p]);
  }

  /** The same memory, perhaps with other slots occupied. */
  ghost predicate SamePieces(a: seq<Block>, b: seq<Block>) {
    && |a| == |b|
    && forall k :: 0 <= k < |a| ==> a[k].size == b[k].size && a[k].pieces == b[k].pieces && |a[k].chunks| == |b[k].chunks|
  }

  ghost predicate SameShape(c: Chunk, d: Chunk) {
    d.base == c.base && d.size == c.size && |d.occupied| == |c.occupied|
  }

  /** Whatever happens to the bitmaps, the layout stays. */
  lemma SameShapeLayout(blocks: seq<Block>, blocks': seq<Block>, st: Static)
    requires Layout(blocks, st) && SamePieces(blocks, blocks')
    requires forall x :: IsPlace(blocks, x) ==> SameShape(ChunkOf(blocks, x), ChunkOf(blocks', x))
    ensures Layout(blocks', st)
  {
    forall b | 0 <= b < |blocks'|
      ensures BlockOk(blocks'[b])
    {
      assert BlockOk(blocks[b]);
      forall c | 0 <= c < |blocks'[b].chunks|
        ensures
          var chunk := blocks'[b].chunks[c];
          ChunkOk(chunk) && chunk.size == blocks'[b].size && Contained(chunk, blocks'[b].pieces)
      {
        assert SameShape(ChunkOf(blocks, Place(b, c)), ChunkOf(blocks', Place(b, c)));
        SameChunkContained(blocks[b].chunks[c], blocks'[b].chunks[c], blocks[b].pieces);
      }
    }
    forall y | IsPlace(blocks', y)
      ensures IsPlace(blocks, y)
      ensures ChunkOf(blocks', y).base == ChunkOf(blocks, y).base && End(ChunkOf(blocks', y)) == End(ChunkOf(blocks, y))
    {
      assert SameShape(ChunkOf(blocks, y), ChunkOf(blocks', y));
    }
  }

  lemma SetSlotLayout(blocks: seq<Block>, st: Static, x: Place, i: nat, bit: bool)
    requires Layout(blocks, st) && IsPlace(blocks, x) && i < CHUNK_CELLS
    ensures Layout(SetSlot(blocks, x, i, bit), st)
  {
    SameShapeLayout(blocks, SetSlot(blocks, x, i, bit), st);
  }

  /** Where no bit is set, nothing is occupied. */
  lemma NothingLive(blocks: seq<Block>, st: Static)
    requires Layout(blocks, st) && forall x :: IsPlace(blocks, x) ==> ChunkOf(blocks, x).occupied == NoneOccupied(CHUNK_CELLS)
    ensures LiveSet(blocks, st) == {}
  {
    forall a
      ensures a !in LiveSet(blocks, st)
    {
      forall x | IsPlace(blocks, x)
        ensures !HasAt(blocks, st, x, a)
      {
        HasIsOccupied(ChunkOf(blocks, x), a);
      }
    }
  }

  /** A cell belongs to one chunk only. */
  lemma OneOwner(blocks: seq<Block>, st: Static, x: Place, i: nat, y: Place)
    requires Layout(blocks, st) && IsPlace(blocks, x) && IsPlace(blocks, y) && i < CHUNK_CELLS
    requires HasAt(blocks, st, y, CellAt(ChunkOf(blocks, x), i))
    ensures x == y
  {
    HasCell(ChunkOf(blocks, x), i);
  }

  /** What a chunk has after one bit was set, at any place. */
  lemma SetSlotHas(blocks: seq<Block>, st: Static, x: Place, i: nat, bit: bool, a: int, y: Place)
    requires Layout(blocks, st) && IsPlace(blocks, x) && i < CHUNK_CELLS && IsPlace(blocks, y)
    requires Layout(SetSlot(blocks, x, i, bit), st)
    ensures
      HasAt(SetSlot(blocks, x, i, bit), st, y, a) ==
      if a == CellAt(ChunkOf(blocks, x), i) then bit && y == x else HasAt(blocks, st, y, a)
  {
    var blocks' := SetSlot(blocks, x, i, bit);
    SetBit(ChunkOf(blocks, x), i, bit, a);
    if a == CellAt(ChunkOf(blocks, x), i) && HasAt(blocks', st, y, a) {
      OneOwner(blocks', st, x, i, y);
    }
  }

  lemma SetSlotLive(blocks: seq<Block>, st: Static, x: Place, i: nat, bit: bool, a: int)
    requires Layout(blocks, st) && IsPlace(blocks, x) && i < CHUNK_CELLS
    requires Layout(SetSlot(blocks, x, i, bit), st)
    ensures
      Live(SetSlot(blocks, x, i, bit), st, a) ==
      if a == CellAt(ChunkOf(blocks, x), i) then bit else Live(blocks, st, a)
  {
    var blocks' := SetSlot(blocks, x, i, bit);
    forall y | IsPlace(blocks, y)
      ensures
        IsPlace(blocks', y) &&
        HasAt(blocks', st, y, a) == if a == CellAt(ChunkOf(blocks, x), i) then bit && y == x else HasAt(blocks, st, y, a)
    {
      SetSlotHas(blocks, st, x, i, bit, a, y);
    }
    assert forall y :: IsPlace(blocks', y) ==> IsPlace(blocks, y);
  }

  lemma SetSlotCells(blocks: seq<Block>, st: Static, x: Place, i: nat, bit: bool)
    requires Layout(blocks, st) && IsPlace(blocks, x) && i < CHUNK_CELLS
    ensures Layout(SetSlot(blocks, x, i, bit), st)
    ensures
      var before, after := LiveSet(blocks, st), LiveSet(SetSlot(blocks, x, i, bit), st);
      var a := CellAt(ChunkOf(blocks, x), i);
      after == if bit then before + {a} else before - {a}
  {
    SetSlotLayout(blocks, st, x, i, bit);
    var before, after := LiveSet(blocks, st), LiveSet(SetSlot(blocks, x, i, bit), st);
    var a := CellAt(ChunkOf(blocks, x), i);
    forall y
      ensures y in after <==> if y == a then bit else y in before
    {
      SetSlotLive(blocks, st, x, i, bit, y);
    }
  }

  /** `std::round(1.618 n)`. */
  function Grown(n: nat): (m: nat)
    ensures n > 0 ==> n < m
    ensures -500 <= 1000 * m - 1618 * n <= 500
  {
    (1618 * n + 500) / 1000
  }

  function NoneOccupied(n: nat): (bits: seq<bool>)
    ensures |bits| == n && forall i :: 0 <= i < n ==> !bits[i]
  {
    if n == 0 then [] else NoneOccupied(n - 1) + [false]
  }

  function FreshChunk(base: int, size: nat, i: nat): Chunk {
    Chunk(base + i * (size * CHUNK_CELLS), size, NoneOccupied(CHUNK_CELLS))
  }

  function FreshChunks(base: int, size: nat, n: nat): (cs: seq<Chunk>)
    ensures |cs| == n && forall i :: 0 <= i < n ==> cs[i] == FreshChunk(base, size, i)
  {
    seq(n, i requires 0 <= i => FreshChunk(base, size, i))
  }

  /** What the operating system hands out is apart from everything handed out before. */
  predicate Room(blocks: seq<Block>, st: Static, p: Piece) {
    && Apart(p.base, p.base + p.length, st.low, st.high)
    && forall b, k :: 0 <= b < |blocks| && 0 <= k < |blocks[b].pieces| ==>
      Apart(p.base, p.base + p.length, blocks[b].pieces[k].base, blocks[b].pieces[k].base + blocks[b].pieces[k].length)
  }

  function Extend(blocks: seq<Block>, b: nat, p: Piece, n: nat): seq<Block>
    requires b < |blocks|
  {
    var old_ := blocks[b];
    blocks[b := Block(old_.size, old_.pieces + [p], old_.chunks + FreshChunks(p.base, old_.size, n))]
  }

  lemma {:induction false} Steps(i: nat, j: nat, w: nat)
    requires i < j
    ensures i * w + w <= j * w
    decreases j
  {
    assert j * w == (j - 1) * w + w;
    if i < j - 1 {
      Steps(i, j - 1, w);
    }
  }

  /** Fresh chunks lie in their piece, one after the other. */
  lemma FreshInside(p: Piece, size: nat, n: nat, i: nat)
    requires i < n && n * (size * CHUNK_CELLS) <= p.length
    ensures Inside(FreshChunk(p.base, size, i), p)
  {
    Steps(i, n, size * CHUNK_CELLS);
  }

  /** A chunk of a grown block is an old one or a fresh one, and the fresh ones are empty. */
  lemma ExtendPlace(blocks: seq<Block>, st: Static, b: nat, p: Piece, n: nat, y: Place)
    requires Layout(blocks, st) && b < |blocks| && IsPlace(Extend(blocks, b, p, n), y)
    ensures
      var fresh_ := y.block == b && |blocks[b].chunks| <= y.chunk;
      && IsPlace(blocks, y) == !fresh_
      && ChunkOf(Extend(blocks, b, p, n), y) ==
           if fresh_ then FreshChunk(p.base, blocks[b].size, y.chunk - |blocks[b].chunks|) else ChunkOf(blocks, y)
  {
  }

  lemma ExtendApart(blocks: seq<Block>, st: Static, b: nat, p: Piece, n: nat, x: Place, y: Place)
    requires Layout(blocks, st) && b < |blocks| && Room(blocks, st, p)
    requires n * (blocks[b].size * CHUNK_CELLS) <= p.length
    requires IsPlace(Extend(blocks, b, p, n), x) && IsPlace(Extend(blocks, b, p, n), y)
    requires x != y
    ensures
      var c, d := ChunkOf(Extend(blocks, b, p, n), x), ChunkOf(Extend(blocks, b, p, n), y);
      Apart(c.base, End(c), d.base, End(d))
  {
    var known, w := |blocks[b].chunks|, blocks[b].size * CHUNK_CELLS;
    ExtendPlace(blocks, st, b, p, n, x);
    ExtendPlace(blocks, st, b, p, n, y);
    if !IsPlace(blocks, x) && !IsPlace(blocks, y) {
      if x.chunk < y.chunk {
        Steps(x.chunk - known, y.chunk - known, w);
      } else {
        Steps(y.chunk - known, x.chunk - known, w);
      }
    } else if !IsPlace(blocks, x) {
      FreshInside(p, blocks[b].size, n, x.chunk - known);
      ApartFromOld(blocks, st, p, y);
    } else if !IsPlace(blocks, y) {
      FreshInside(p, blocks[b].size, n, y.chunk - known);
      ApartFromOld(blocks, st, p, x);
    }
  }

  lemma ApartFromOld(blocks: seq<Block>, st: Static, p: Piece, y: Place)
    requires Layout(blocks, st) && Room(blocks, st, p) && IsPlace(blocks, y)
    ensures Apart(p.base, p.base + p.length, ChunkOf(blocks, y).base, End(ChunkOf(blocks, y)))
  {
    assert BlockOk(blocks[y.block]) && Contained(ChunkOf(blocks, y), blocks[y.block].pieces);
    var k :| 0 <= k < |blocks[y.block].pieces| && Inside(ChunkOf(blocks, y), blocks[y.block].pieces[k]);
  }

  lemma ExtendLayout(blocks: seq<Block>, st: Static, b: nat, p: Piece, n: nat)
    requires Layout(blocks, st) && b < |blocks| && Room(blocks, st, p)
    requires n * (blocks[b].size * CHUNK_CELLS) <= p.length
    ensures Layout(Extend(blocks, b, p, n), st)
  {
    var blocks' := Extend(blocks, b, p, n);
    forall d | 0 <= d < |blocks'|
      ensures BlockOk(blocks'[d])
    {
      ExtendBlock(blocks, st, b, p, n, d);
    }
    forall x, y | IsPlace(blocks', x) && IsPlace(blocks', y) && x != y
      ensures Apart(ChunkOf(blocks', x).base, End(ChunkOf(blocks', x)), ChunkOf(blocks', y).base, End(ChunkOf(blocks', y)))
    {
      ExtendApart(blocks, st, b, p, n, x, y);
    }
    forall x | IsPlace(blocks', x)
      ensures Apart(ChunkOf(blocks', x).base, End(ChunkOf(blocks', x)), st.low, st.high)
    {
      ExtendPlace(blocks, st, b, p, n, x);
      if !IsPlace(blocks, x) {
        FreshInside(p, blocks[b].size, n, x.chunk - |blocks[b].chunks|);
      }
    }
  }

  lemma ExtendBlock(blocks: seq<Block>, st: Static, b: nat, p: Piece, n: nat, d: nat)
    requires Layout(blocks, st) && b < |blocks| && d < |blocks|
    requires n * (blocks[b].size * CHUNK_CELLS) <= p.length
    ensures BlockOk(Extend(blocks, b, p, n)[d])
  {
    var block, block' := blocks[d], Extend(blocks, b, p, n)[d];
    assert BlockOk(blocks[b]) && BlockOk(block) && ChunkOk(blocks[b].chunks[0]);
    forall c | 0 <= c < |block'.chunks|
      ensures ChunkOk(block'.chunks[c]) && block'.chunks[c].size == block'.size && Contained(block'.chunks[c], block'.pieces)
    {
      if c < |block.chunks| {
        assert Contained(block.chunks[c], block.pieces);
        var k :| 0 <= k < |block.pieces| && Inside(block.chunks[c], block.pieces[k]);
        assert Inside(block'.chunks[c], block'.pieces[k]);
      } else {
        FreshInside(p, block.size, n, c - |block.chunks|);
        assert Inside(block'.chunks[c], block'.pieces[|block.pieces|]);
      }
    }
  }

  /** Growing a block allocates nothing. */
  lemma ExtendLive(blocks: seq<Block>, st: Static, b: nat, p: Piece, n: nat, a: int)
    requires Layout(blocks, st) && b < |blocks| && Layout(Extend(blocks, b, p, n), st)
    ensures Live(Extend(blocks, b, p, n), st, a) == Live(blocks, st, a)
  {
    var blocks' := Extend(blocks, b, p, n);
    if Live(blocks, st, a) {
      var x :| IsPlace(blocks, x) && HasAt(blocks, st, x, a);
      assert IsPlace(blocks', x);
      ExtendPlace(blocks, st, b, p, n, x);
      assert HasAt(blocks', st, x, a);
    }
    if Live(blocks', st, a) {
      var x :| IsPlace(blocks', x) && HasAt(blocks', st, x, a);
      ExtendPlace(blocks, st, b, p, n, x);
      if !IsPlace(blocks, x) {
        HasIsOccupied(ChunkOf(blocks', x), a);
        assert false;
      }
      assert HasAt(blocks, st, x, a);
    }
  }

  lemma ExtendCells(blocks: seq<Block>, st: Static, b: nat, p: Piece, n: nat)
    requires Layout(blocks, st) && b < |blocks| && Layout(Extend(blocks, b, p, n), st)
    ensures LiveSet(Extend(blocks, b, p, n), st) == LiveSet(blocks, st)
  {
    forall a
      ensures a in LiveSet(Extend(blocks, b, p, n), st) <==> a in LiveSet(blocks, st)
    {
      ExtendLive(blocks, st, b, p, n, a);
    }
  }

  /** `ChunkView::next_free_chunk`: the first clear bit. */
  method NextFree(occupied: seq<bool>) returns (r: Option<nat>)
    ensures r.None? <==> forall k :: 0 <= k < |occupied| ==> occupied[k]
    ensures r.Some? ==> r.value < |occupied| && !occupied[r.value] && forall k :: 0 <= k < r.value ==> occupied[k]
  {
    var i := 0;
    while i < |occupied|
      invariant i <= |occupied| && forall k :: 0 <= k < i ==> occupied[k]
    {
      if !occupied[i] {
        return Some(i);
      }
      i := i + 1;
    }
    return None;
  }

  predicate Full(c: Chunk) {
    forall k :: 0 <= k < |c.occupied| ==> c.occupied[k]
  }

  /** `a` is a slot of the block. */
  ghost predicate CellOf(b: Block, a: int) {
    exists c, i :: 0 <= c < |b.chunks| && 0 <= i < CHUNK_CELLS && a == CellAt(b.chunks[c], i)
  }

  /** The memory a block asks for when it grows. */
  function NextPiece(b: Block, base: int): Piece {
    Piece(base, Grown(|b.chunks|) * CHUNK_CELLS * b.size)
  }

  /** `Block::Block`: a block of `capacity / 64` chunks in one piece of memory. */
  function InitialBlock(size: nat, capacity: nat, base: int): Block {
    var n := capacity / CHUNK_CELLS;
    Block(size, [Piece(base, n * (size * CHUNK_CELLS))], FreshChunks(base, size, n))
  }

  function InitialBlocks(sizes: seq<nat>, capacity: nat, bases: seq<int>): (blocks: seq<Block>)
    requires |bases| == |sizes|
    ensures |blocks| == |sizes| && forall b :: 0 <= b < |sizes| ==> blocks[b] == InitialBlock(sizes[b], capacity, bases[b])
  {
    seq(|sizes|, b requires 0 <= b < |sizes| => InitialBlock(sizes[b], capacity, bases[b]))
  }

  lemma InitialLayout(sizes: seq<nat>, capacity: nat, bases: seq<int>, st: Static)
    requires |bases| == |sizes| && capacity >= CHUNK_CELLS && forall b :: 0 <= b < |sizes| ==> sizes[b] > HEADER
    requires forall b, d :: 0 <= b < d < |sizes| ==>
      var p, q := InitialBlock(sizes[b], capacity, bases[b]).pieces[0], InitialBlock(sizes[d], capacity, bases[d]).pieces[0];
      Apart(p.base, p.base + p.length, q.base, q.base + q.length)
    requires forall b :: 0 <= b < |sizes| ==>
      var p := InitialBlock(sizes[b], capacity, bases[b]).pieces[0];
      Apart(p.base, p.base + p.length, st.low, st.high)
    ensures Layout(InitialBlocks(sizes, capacity, bases), st)
    ensures LiveSet(InitialBlocks(sizes, capacity, bases), st) == {}
  {
    var blocks, n := InitialBlocks(sizes, capacity, bases), capacity / CHUNK_CELLS;
    forall b, c | 0 <= b < |blocks| && 0 <= c < |blocks[b].chunks|
      ensures blocks[b].chunks[c] == FreshChunk(bases[b], sizes[b], c)
      ensures ChunkOk(blocks[b].chunks[c]) && Inside(blocks[b].chunks[c], blocks[b].pieces[0])
    {
      FreshInside(blocks[b].pieces[0], sizes[b], n, c);
    }
    forall x, y | IsPlace(blocks, x) && IsPlace(blocks, y) && x != y
      ensures Apart(ChunkOf(blocks, x).base, End(ChunkOf(blocks, x)), ChunkOf(blocks, y).base, End(ChunkOf(blocks, y)))
    {
      if x.block == y.block {
        var w := sizes[x.block] * CHUNK_CELLS;
        if x.chunk < y.chunk {
          Steps(x.chunk, y.chunk, w);
        } else {
          Steps(y.chunk, x.chunk, w);
        }
      } else if x.block < y.block {
        assert Inside(ChunkOf(blocks, x), blocks[x.block].pieces[0]) && Inside(ChunkOf(blocks, y), blocks[y.block].pieces[0]);
      } else {
        assert Inside(ChunkOf(blocks, x), blocks[x.block].pieces[0]) && Inside(ChunkOf(blocks, y), blocks[y.block].pieces[0]);
      }
    }
    forall x | IsPlace(blocks, x)
      ensures Apart(ChunkOf(blocks, x).base, End(ChunkOf(blocks, x)), st.low, st.high)
    {
      assert Inside(ChunkOf(blocks, x), blocks[x.block].pieces[0]);
    }
    assert Layout(blocks, st);
    forall x, a | IsPlace(blocks, x)
      ensures !HasAt(blocks, st, x, a)
    {
      HasIsOccupied(ChunkOf(blocks, x), a);
    }
    forall a
      ensures a !in LiveSet(blocks, st)
    {
      assert AreLive(blocks, st, LiveSet(blocks, st)) && !Live(blocks, st, a);
    }
  }

  ghost function SlotOf(c: Chunk, a: int): nat
    requires 0 < c.size && c.base <= a
  {
    (a - c.base) / c.size
  }

  lemma SlotFacts(c: Chunk, a: int)
    requires ChunkOk(c) && Has(c, a)
    ensures c.base <= a < c.base + (c.size + 1) * CHUNK_CELLS
    ensures SlotOf(c, a) < CHUNK_CELLS && c.occupied[SlotOf(c, a)] && CellAt(c, SlotOf(c, a)) == a
  {
    IndexBound(a - c.base, c.size);
  }

  class Slab {
    const st: Static
    var blocks: seq<Block>

    constructor (st: Static, sizes: seq<nat>, capacity: nat, bases: seq<int>)
      requires |bases| == |sizes|
      ensures this.st == st && blocks == InitialBlocks(sizes, capacity, bases)
    {
      this.st := st;
      blocks := InitialBlocks(sizes, capacity, bases);
    }

    ghost predicate Valid()
      reads this
    {
      Layout(blocks, st)
    }

    /** The occupied cells. */
    ghost function Cells(): set<int>
      requires Valid()
      reads this
    {
      LiveSet(blocks, st)
    }

    /** `Slab::has_address`: the base of an occupied slot, and nothing else. */
    method HasAddress(a: int) returns (r: bool)
      requires Valid()
      ensures r == (a in Cells())
    {
      var b := 0;
      while b < |blocks|
        invariant b <= |blocks|
        invariant forall x :: IsPlace(blocks, x) && x.block < b ==> !HasAt(blocks, st, x, a)
      {
        var c := 0;
        while c < |blocks[b].chunks|
          invariant c <= |blocks[b].chunks|
          invariant forall x :: IsPlace(blocks, x) && (x.block < b || (x.block == b && x.chunk < c)) ==> !HasAt(blocks, st, x, a)
        {
          assert BlockOk(blocks[b]);
          if Has(blocks[b].chunks[c], a) {
            assert HasAt(blocks, st, Place(b, c), a);
            return true;
          }
          c := c + 1;
        }
        b := b + 1;
      }
      return false;
    }

    /** The first free slot of the first chunk that has one. */
    method FirstFree(b: nat) returns (found: bool, c: nat, i: nat)
      requires Valid() && b < |blocks|
      ensures found ==> c < |blocks[b].chunks| && i < CHUNK_CELLS && !blocks[b].chunks[c].occupied[i]
      ensures found ==> forall k :: 0 <= k < i ==> blocks[b].chunks[c].occupied[k]
      ensures forall k :: 0 <= k < (if found then c else |blocks[b].chunks|) ==> Full(blocks[b].chunks[k])
    {
      assert BlockOk(blocks[b]);
      c, i := 0, 0;
      while c < |blocks[b].chunks|
        invariant c <= |blocks[b].chunks|
        invariant forall k :: 0 <= k < c ==> Full(blocks[b].chunks[k])
      {
        var bit := NextFree(blocks[b].chunks[c].occupied);
        if bit.Some? {
          return true, c, bit.value;
        }
        c := c + 1;
      }
      found := false;
    }

    /**
     `Block::allocate`: take the first free slot; when all are taken the block grows first, into memory at `base`,
     and then there is one.
     */
    method Allocate(b: nat, base: int) returns (a: int)
      requires Valid() && b < |blocks|
      requires Room(blocks, st, NextPiece(blocks[b], base))
      modifies this
      ensures Valid()
      ensures a !in old(Cells()) && Cells() == old(Cells()) + {a}
      ensures |blocks| == |old(blocks)| && forall d :: 0 <= d < |blocks| ==> blocks[d].size == old(blocks[d].size)
      ensures CellOf(blocks[b], a)
      ensures |blocks[b].chunks| ==
        if forall c :: 0 <= c < |old(blocks[b].chunks)| ==> Full(old(blocks[b].chunks[c]))
        then Grown(|old(blocks[b].chunks)|) else |old(blocks[b].chunks)|
    {
      var found, c, i := FirstFree(b);
      if found {
        assert !Full(blocks[b].chunks[c]);
        a := Take(Place(b, c), i);
      } else {
        assert BlockOk(blocks[b]);
        var known := |blocks[b].chunks|;
        Grow(b, base);
        a := Take(Place(b, known), 0);
      }
    }

    /** Add chunks to a block: at least one, and none of them occupied. */
    method Grow(b: nat, base: int)
      requires Valid() && b < |blocks|
      requires Room(blocks, st, NextPiece(blocks[b], base))
      modifies this
      ensures Valid()
      ensures Cells() == old(Cells())
      ensures |blocks| == |old(blocks)| && forall d :: 0 <= d < |blocks| ==> blocks[d].size == old(blocks[d].size)
      ensures |blocks[b].chunks| == Grown(|old(blocks[b].chunks)|) > |old(blocks[b].chunks)|
      ensures forall c :: |old(blocks[b].chunks)| <= c < |blocks[b].chunks| ==> blocks[b].chunks[c].occupied == NoneOccupied(CHUNK_CELLS)
    {
      assert BlockOk(blocks[b]);
      var known := |blocks[b].chunks|;
      var size := blocks[b].size;
      var count := Grown(known);
      var piece := NextPiece(blocks[b], base);
      var added := [];
      while |added| < count - known
        invariant |added| <= count - known && added == FreshChunks(base, size, |added|)
      {
        added := added + [FreshChunk(base, size, |added|)];
      }
      assert (count - known) * (size * CHUNK_CELLS) <= piece.length by {
        Steps(count - known, count, size * CHUNK_CELLS);
        assert count * (size * CHUNK_CELLS) == count * CHUNK_CELLS * size;
      }
      ExtendLayout(blocks, st, b, piece, count - known);
      ExtendCells(blocks, st, b, piece, count - known);
      blocks := blocks[b := Block(size, blocks[b].pieces + [piece], blocks[b].chunks + added)];
    }

    /** Mark a free slot as occupied. */
    method Take(x: Place, i: nat) returns (a: int)
      requires Valid() && IsPlace(blocks, x) && i < CHUNK_CELLS && !ChunkOf(blocks, x).occupied[i]
      modifies this
      ensures Valid() && blocks == SetSlot(old(blocks), x, i, true)
      ensures a == CellAt(old(ChunkOf(blocks, x)), i) && CellOf(blocks[x.block], a)
      ensures a !in old(Cells()) && Cells() == old(Cells()) + {a}
    {
      a := CellAt(blocks[x.block].chunks[x.chunk], i);
      HasCell(ChunkOf(blocks, x), i);
      if a in Cells() {
        var y :| IsPlace(blocks, y) && HasAt(blocks, st, y, a);
        OneOwner(blocks, st, x, i, y);
      }
      SetSlotCells(blocks, st, x, i, true);
      blocks := SetSlot(blocks, x, i, true);
      assert a == CellAt(blocks[x.block].chunks[x.chunk], i);
    }

    /** `Chunk::deallocate`: the slot index is recovered from the address, and its bit cleared. */
    method Free(x: Place, a: int)
      requires Valid() && IsPlace(blocks, x) && HasAt(blocks, st, x, a)
      modifies this
      ensures Valid() && a == CellAt(old(ChunkOf(blocks, x)), SlotOf(old(ChunkOf(blocks, x)), a))
      ensures SlotOf(old(ChunkOf(blocks, x)), a) < CHUNK_CELLS
      ensures blocks == SetSlot(old(blocks), x, SlotOf(old(ChunkOf(blocks, x)), a), false)
      ensures Cells() == old(Cells()) - {a}
    {
      var c := blocks[x.block].chunks[x.chunk];
      SlotFacts(c, a);
      assert c.base <= a < c.base + (c.size + 1) * CHUNK_CELLS;
      assert (a - c.base) % c.size == 0;
      var i := (a - c.base) / c.size;
      assert i < CHUNK_CELLS && c.occupied[i];
      SetSlotCells(blocks, st, x, i, false);
      blocks := SetSlot(blocks, x, i, false);
    }

    /** `Slab::reset`: every bitmap is cleared, and the memory is kept. */
    method Reset()
      requires Valid()
      modifies this
      ensures Valid() && Cells() == {} && SamePieces(old(blocks), blocks)
    {
      var b := 0;
      while b < |blocks|
        invariant b <= |blocks| && Wiped(old(blocks), blocks, b, 0)
      {
        ResetBlock(b, old(blocks));
        b := b + 1;
      }
      SameShapeLayout(old(blocks), blocks, st);
      NothingLive(blocks, st);
    }

    /** `Block::reset`. */
    method ResetBlock(b: nat, ghost was: seq<Block>)
      requires b < |blocks| && Wiped(was, blocks, b, 0)
      modifies this
      ensures Wiped(was, blocks, b + 1, 0)
    {
      var c := 0;
      while c < |blocks[b].chunks|
        invariant b < |blocks| && c <= |blocks[b].chunks| && Wiped(was, blocks, b, c)
        decreases |blocks[b].chunks| - c
      {
        ghost var before := blocks;
        var chunk := blocks[b].chunks[c];
        assert Wiped(was, blocks, b, c) && IsPlace(blocks, Place(b, c));
        blocks := blocks[b := blocks[b].(chunks := blocks[b].chunks[c := chunk.(occupied := NoneOccupied(CHUNK_CELLS))])];
        WipedNext(was, before, blocks, b, c);
        c := c + 1;
      }
    }
  }

  /** The chunks before chunk `c` of block `b` have had their bitmaps cleared, and nothing else has changed. */
  ghost predicate Wiped(was: seq<Block>, now: seq<Block>, b: nat, c: nat) {
    && SamePieces(was, now)
    && (forall x :: IsPlace(was, x) ==> |ChunkOf(was, x).occupied| == CHUNK_CELLS && SameShape(ChunkOf(was, x), ChunkOf(now, x)))
    && forall x :: IsPlace(now, x) && (x.block < b || (x.block == b && x.chunk < c)) ==>
      ChunkOf(now, x).occupied == NoneOccupied(CHUNK_CELLS)
  }

  lemma WipedNext(was: seq<Block>, before: seq<Block>, now: seq<Block>, b: nat, c: nat)
    requires Wiped(was, before, b, c) && IsPlace(before, Place(b, c)) && SamePieces(before, now)
    requires ChunkOf(now, Place(b, c)) == ChunkOf(before, Place(b, c)).(occupied := NoneOccupied(CHUNK_CELLS))
    requires forall x :: IsPlace(before, x) && x != Place(b, c) ==> ChunkOf(now, x) == ChunkOf(before, x)
    ensures Wiped(was, now, b, c + 1)
  {
    forall x | IsPlace(was, x)
      ensures SameShape(ChunkOf(was, x), ChunkOf(now, x))
    {
      assert IsPlace(before, x) && SameShape(ChunkOf(was, x), ChunkOf(before, x));
    }
    forall x | IsPlace(now, x) && (x.block < b || (x.block == b && x.chunk < c + 1))
      ensures ChunkOf(now, x).occupied == NoneOccupied(CHUNK_CELLS)
    {
      assert IsPlace(before, x);
      if x != Place(b, c) {
        assert ChunkOf(now, x) == ChunkOf(before, x);
      }
    }
  }
}
