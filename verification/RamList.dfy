/**
 RAM blocks and dirty bitmaps of exec.c: where find_ram_offset places blocks, the sorted list with
 its most recently used entry, and the growth of the dirty-memory arrays.
 */
module RamLists {
  import opened Options

  const SPACE: nat := 0x1_0000_0000_0000_0000       // ram_addr_t has 64 bits
  const RAM_ADDR_MAX: nat := 0xFFFF_FFFF_FFFF_FFFF
  const PAGE: nat := 4096
  const ALIGN: nat := 0x4_0000                      // BITS_PER_LONG << TARGET_PAGE_BITS
  const BLOCK_BITS: nat := 0x20_0000                // DIRTY_MEMORY_BLOCK_SIZE
  const CLIENTS: nat := 4                           // DIRTY_MEMORY_NUM

  datatype RamBlock = RamBlock(offset: nat, used: nat, length: nat)

  function End(b: RamBlock): nat {
    b.offset + b.length
  }

  ghost predicate Holds(b: RamBlock, addr: nat) {
    b.offset <= addr < End(b)
  }

  /** Blocks are whole pages, start on a word of the bitmap, and end within the address space. */
  ghost predicate BlockOk(b: RamBlock) {
    b.offset % ALIGN == 0 && 0 < b.length && b.length % PAGE == 0 && b.used % PAGE == 0 && b.used <= b.length
      && End(b) <= RAM_ADDR_MAX
  }

  ghost predicate Apart(a: RamBlock, b: RamBlock) {
    End(a) <= b.offset || End(b) <= a.offset
  }

  ghost predicate AllOk(bs: seq<RamBlock>) {
    && (forall i | 0 <= i < |bs| :: BlockOk(bs[i]))
    && (forall i, j | 0 <= i < j < |bs| :: Apart(bs[i], bs[j]))
  }

  ghost predicate Descending(bs: seq<RamBlock>) {
    forall i, j | 0 <= i < j < |bs| :: bs[i].length >= bs[j].length
  }

  /** The test `addr - block->offset < block->max_length` in 64-bit arithmetic. */
  predicate Hit(b: RamBlock, addr: nat) {
    (addr - b.offset) % SPACE < b.length
  }

  lemma {:induction false} HitIsHolds(b: RamBlock, addr: nat)
    requires BlockOk(b) && addr < SPACE
    ensures Hit(b, addr) <==> Holds(b, addr)
  {
    if addr < b.offset {
      assert (addr - b.offset) % SPACE == addr - b.offset + SPACE;
    } else {
      assert (addr - b.offset) % SPACE == addr - b.offset;
    }
  }

  // -------------------------------------------------------------------------------------------
  // Gaps
  // -------------------------------------------------------------------------------------------

  /** ROUND_UP(x, BITS_PER_LONG << TARGET_PAGE_BITS) in 64-bit arithmetic */
  function RoundUp(x: nat): nat {
    (x + ALIGN - 1) % SPACE / ALIGN * ALIGN
  }

  /** The first aligned address at or after x, or 0 if that is past the end of the address space. */
  lemma {:induction false} RoundUpIs(x: nat)
    requires x < SPACE
    ensures RoundUp(x) % ALIGN == 0 && RoundUp(x) < SPACE
    ensures RoundUp(x) != 0 ==> x <= RoundUp(x) < x + ALIGN
    ensures forall y: nat | x <= y < SPACE && y % ALIGN == 0 :: RoundUp(x) <= y
  {
    forall y: nat | x <= y < SPACE && y % ALIGN == 0 ensures RoundUp(x) <= y {
      RoundUpLeast(x, y);
    }
  }

  lemma {:induction false} RoundUpLeast(x: nat, y: nat)
    requires x <= y < SPACE && y % ALIGN == 0
    ensures RoundUp(x) <= y
  {
    var q := y / ALIGN;
    assert y == q * ALIGN;
    if x + ALIGN - 1 < SPACE {
      assert (x + ALIGN - 1) / ALIGN <= q;
    }
  }

  function Candidate(b: RamBlock): nat {
    RoundUp(End(b))
  }

  /** The closest start of a block at or after candidate. */
  function NextStart(bs: seq<RamBlock>, candidate: nat): nat {
    if bs == [] then RAM_ADDR_MAX else
    var r, last := NextStart(bs[..|bs| - 1], candidate), bs[|bs| - 1].offset;
    if last >= candidate && last < r then last else r
  }

  lemma {:induction false} NextStartIs(bs: seq<RamBlock>, candidate: nat)
    ensures var next := NextStart(bs, candidate);
      && (forall i | 0 <= i < |bs| && bs[i].offset >= candidate :: next <= bs[i].offset)
      && (next == RAM_ADDR_MAX || exists i :: 0 <= i < |bs| && bs[i].offset == next && next >= candidate)
  {
    if bs != [] {
      NextStartIs(bs[..|bs| - 1], candidate);
      assert bs == bs[..|bs| - 1] + [bs[|bs| - 1]];
    }
  }

  /** The size of the gap after block b. */
  function Gap(bs: seq<RamBlock>, b: RamBlock): int {
    NextStart(bs, Candidate(b)) - Candidate(b)
  }

  /** Nothing lies between the candidate after a block and the next start. */
  lemma {:induction false} GapIsFree(bs: seq<RamBlock>, k: nat, i: nat)
    requires AllOk(bs) && k < |bs| && i < |bs|
    ensures var c := Candidate(bs[k]); End(bs[i]) <= c || NextStart(bs, c) <= bs[i].offset
    ensures Candidate(bs[k]) <= NextStart(bs, Candidate(bs[k]))
  {
    var c := Candidate(bs[k]);
    NextStartIs(bs, c);
    RoundUpIs(End(bs[k]));
    assert BlockOk(bs[i]) && BlockOk(bs[k]);
    if bs[i].offset < c {
      if i != k { assert Apart(bs[i], bs[k]) || Apart(bs[k], bs[i]); }
    }
  }

  /** b takes the smallest gap that is large enough. */
  ghost predicate BestFit(bs: seq<RamBlock>, size: nat, offset: nat) {
    exists k :: 0 <= k < |bs| && offset == Candidate(bs[k]) && Gap(bs, bs[k]) >= size
      && forall j | 0 <= j < |bs| && Gap(bs, bs[j]) >= size :: Gap(bs, bs[k]) <= Gap(bs, bs[j])
  }

  /** A block placed in such a gap overlaps no other. */
  lemma {:induction false} BestFitIsFree(bs: seq<RamBlock>, b: RamBlock)
    requires AllOk(bs) && 0 < b.length && b.length % PAGE == 0 && b.used % PAGE == 0 && b.used <= b.length
    requires BestFit(bs, b.length, b.offset)
    ensures BlockOk(b) && forall i | 0 <= i < |bs| :: Apart(bs[i], b)
  {
    var k :| 0 <= k < |bs| && b.offset == Candidate(bs[k]) && Gap(bs, bs[k]) >= b.length;
    assert BlockOk(bs[k]);
    RoundUpIs(End(bs[k]));
    forall i | 0 <= i < |bs| ensures Apart(bs[i], b) { GapIsFree(bs, k, i); }
    var next := NextStart(bs, b.offset);
    NextStartIs(bs, b.offset);
    if next != RAM_ADDR_MAX {
      var i :| 0 <= i < |bs| && bs[i].offset == next;
      assert BlockOk(bs[i]);
    }
  }

  /** last_ram_page before the shift: the end of the last block */
  function LastEnd(bs: seq<RamBlock>): nat {
    if bs == [] then 0 else
    var r, last := LastEnd(bs[..|bs| - 1]), End(bs[|bs| - 1]);
    if r < last then last else r
  }

  lemma {:induction false} LastEndIs(bs: seq<RamBlock>)
    ensures forall i | 0 <= i < |bs| :: End(bs[i]) <= LastEnd(bs)
    ensures LastEnd(bs) == 0 || exists i :: 0 <= i < |bs| && End(bs[i]) == LastEnd(bs)
  {
    if bs != [] {
      LastEndIs(bs[..|bs| - 1]);
      assert bs == bs[..|bs| - 1] + [bs[|bs| - 1]];
    }
  }

  // -------------------------------------------------------------------------------------------
  // Dirty bitmaps
  // -------------------------------------------------------------------------------------------

  type Bitmap = seq<bool>

  ghost predicate BitmapsOk(d: seq<Bitmap>) {
    forall j | 0 <= j < |d| :: |d[j]| == BLOCK_BITS
  }

  /** The bitmaps have a bit for each of the first n pages. */
  ghost predicate Covers(d: seq<Bitmap>, n: nat) {
    BitmapsOk(d) && n <= |d| * BLOCK_BITS
  }

  /** There is a bit for every page of every block. */
  ghost predicate CoversBlocks(d: seq<Bitmap>, bs: seq<RamBlock>) {
    BitmapsOk(d) && forall k | 0 <= k < |bs| :: End(bs[k]) / PAGE <= |d| * BLOCK_BITS
  }

  ghost predicate DirtyAt(d: seq<Bitmap>, page: nat)
    requires BitmapsOk(d) && page < |d| * BLOCK_BITS
  {
    d[page / BLOCK_BITS][page % BLOCK_BITS]
  }

  function SetBits(b: Bitmap, off: nat, n: nat): Bitmap
    requires off + n <= |b|
  {
    seq(|b|, k requires 0 <= k < |b| => off <= k < off + n || b[k])
  }

  /** d' is d with the bits of the pages from lo up to hi set. */
  ghost predicate RangeSet(d: seq<Bitmap>, d': seq<Bitmap>, lo: nat, hi: nat) {
    BitmapsOk(d) && BitmapsOk(d') && |d'| == |d|
    && forall q: nat {:trigger DirtyAt(d', q)} | q < |d| * BLOCK_BITS ::
      DirtyAt(d', q) <==> (lo <= q < hi || DirtyAt(d, q))
  }

  /** Setting n bits from off in bitmap idx sets the bits of n more pages. */
  lemma {:induction false} SetBitsRange(d: seq<Bitmap>, d1: seq<Bitmap>, lo: nat, idx: nat, off: nat, n: nat)
    requires RangeSet(d, d1, lo, idx * BLOCK_BITS + off) && idx < |d| && off + n <= BLOCK_BITS
    requires lo <= idx * BLOCK_BITS + off
    ensures RangeSet(d, d1[idx := SetBits(d1[idx], off, n)], lo, idx * BLOCK_BITS + off + n)
  {
    var d2 := d1[idx := SetBits(d1[idx], off, n)];
    forall q: nat | q < |d| * BLOCK_BITS
      ensures DirtyAt(d2, q) <==> (lo <= q < idx * BLOCK_BITS + off + n || DirtyAt(d, q))
    {
      assert q == q / BLOCK_BITS * BLOCK_BITS + q % BLOCK_BITS;
      assert DirtyAt(d1, q) <==> (lo <= q < idx * BLOCK_BITS + off || DirtyAt(d, q));
    }
  }

  function BitmapsFor(n: nat): nat {
    (n + BLOCK_BITS - 1) / BLOCK_BITS
  }

  function Clean(): Bitmap {
    seq(BLOCK_BITS, k => false)
  }

  /** dirty_memory_extend on one array: the old bitmaps are kept, new ones start clean. */
  function Extended(d: seq<Bitmap>, oldNum: nat, newNum: nat): seq<Bitmap>
    requires oldNum <= |d| && oldNum <= newNum
  {
    d[..oldNum] + seq(newNum - oldNum, _ => Clean())
  }

  /** The first n pages have bits in both, with the same values. */
  ghost predicate KeptBelow(d: seq<Bitmap>, d': seq<Bitmap>, n: nat) {
    Covers(d, n) && Covers(d', n) && forall q: nat {:trigger DirtyAt(d', q)} | q < n :: DirtyAt(d', q) == DirtyAt(d, q)
  }

  lemma {:induction false} ExtendedKeeps(d: seq<Bitmap>, n: nat, n': nat)
    requires Covers(d, n) && BitmapsFor(n) <= BitmapsFor(n')
    ensures BitmapsFor(n) <= |d| && Covers(Extended(d, BitmapsFor(n), BitmapsFor(n')), n')
    ensures KeptBelow(d, Extended(d, BitmapsFor(n), BitmapsFor(n')), n)
  {
    var d' := Extended(d, BitmapsFor(n), BitmapsFor(n'));
    forall q: nat | q < n ensures DirtyAt(d', q) == DirtyAt(d, q) {
      assert q / BLOCK_BITS < BitmapsFor(n) by { assert q == q / BLOCK_BITS * BLOCK_BITS + q % BLOCK_BITS; }
    }
  }

  datatype AddResult = Added(offset: nat) | NoGap | NoMemory

  class RamList {
    var blocks: seq<RamBlock>
    var mru: Option<RamBlock>
    var version: nat
    var dirty: seq<seq<Bitmap>>    // one array for each dirty-memory client

    ghost predicate Valid()
      reads this
    {
      && AllOk(blocks) && Descending(blocks) && (mru.Some? ==> mru.value in blocks)
      && |dirty| == CLIENTS && (forall i | 0 <= i < CLIENTS :: CoversBlocks(dirty[i], blocks))
    }

    constructor ()
      ensures Valid() && blocks == []
    {
      blocks, mru, version := [], None, 0;
      dirty := seq(CLIENTS, _ => []);
    }

    /** qemu_get_ram_block: whatever the most recently used block is, the block that holds the address. */
    method GetRamBlock(addr: nat) returns (r: Option<RamBlock>)
      requires Valid() && addr < SPACE
      modifies this`mru
      ensures Valid()
      ensures r.Some? ==> r.value in blocks && Holds(r.value, addr)
      ensures r.Some? ==> forall b | b in blocks && Holds(b, addr) :: b == r.value
      ensures r.None? <==> forall b | b in blocks :: !Holds(b, addr)
    {
      forall i | 0 <= i < |blocks| ensures Hit(blocks[i], addr) <==> Holds(blocks[i], addr) {
        HitIsHolds(blocks[i], addr);
      }
      forall i, j | 0 <= i < |blocks| && 0 <= j < |blocks|
        ensures Holds(blocks[i], addr) && Holds(blocks[j], addr) ==> i == j
      {
        assert i < j ==> Apart(blocks[i], blocks[j]);
        assert j < i ==> Apart(blocks[j], blocks[i]);
      }
      if mru.Some? && Hit(mru.value, addr) {
        return mru;
      }
      var i := 0;
      while i < |blocks|
        invariant 0 <= i <= |blocks|
        invariant forall j | 0 <= j < i :: !Hit(blocks[j], addr)
      {
        if Hit(blocks[i], addr) {
          mru := Some(blocks[i]);
          return mru;
        }
        i := i + 1;
      }
      return None;
    }

    /** The inner loop of find_ram_offset. */
    method FindNext(candidate: nat) returns (next: nat)
      ensures next == NextStart(blocks, candidate)
    {
      next := RAM_ADDR_MAX;
      var i := 0;
      while i < |blocks|
        invariant 0 <= i <= |blocks|
        invariant next == NextStart(blocks[..i], candidate)
      {
        assert blocks[..i + 1][..i] == blocks[..i];
        if blocks[i].offset >= candidate {
          next := if next < blocks[i].offset then next else blocks[i].offset;
        }
        i := i + 1;
      }
      assert blocks[..i] == blocks;
    }

    /** The loop of find_ram_offset: the best of the gaps that are large enough, if there is one. */
    method FindGap(size: nat, ghost cands: seq<nat>, ghost gaps: seq<int>) returns (offset: nat, ghost best: nat)
      requires 0 < size < SPACE && |gaps| == |cands| == |blocks|
      requires forall k {:trigger IsGap(blocks, k, cands[k], gaps[k])} | 0 <= k < |blocks| ::
        IsGap(blocks, k, cands[k], gaps[k])
      ensures offset == RAM_ADDR_MAX ==> forall j | 0 <= j < |blocks| :: gaps[j] < size
      ensures offset != RAM_ADDR_MAX ==> best < |blocks| && offset == cands[best] && gaps[best] >= size
      ensures offset != RAM_ADDR_MAX ==> forall j | 0 <= j < |blocks| && gaps[j] >= size :: gaps[best] <= gaps[j]
    {
      var mingap := RAM_ADDR_MAX;
      offset, best := RAM_ADDR_MAX, 0;
      var i := 0;
      while i < |blocks|
        invariant 0 <= i <= |blocks|
        invariant offset == RAM_ADDR_MAX ==> mingap == RAM_ADDR_MAX && forall j | 0 <= j < i :: gaps[j] < size
        invariant offset != RAM_ADDR_MAX ==> best < i && offset == cands[best] && size <= mingap == gaps[best]
        invariant offset != RAM_ADDR_MAX ==> forall j | 0 <= j < i && gaps[j] >= size :: mingap <= gaps[j]
      {
        assert IsGap(blocks, i, cands[i], gaps[i]);
        var candidate := RoundUp(blocks[i].offset + blocks[i].length);
        var next := FindNext(candidate);
        if next - candidate >= size && next - candidate < mingap {
          offset, mingap := candidate, next - candidate;
          best := i;
        }
        i := i + 1;
      }
    }

    /** find_ram_offset; None where it aborts, which is exactly when no gap is large enough. */
    method FindRamOffset(size: nat) returns (r: Option<nat>)
      requires Valid() && 0 < size < SPACE
      ensures blocks == [] ==> r == Some(0)
      ensures blocks != [] ==> (r.None? <==> forall k | 0 <= k < |blocks| :: Gap(blocks, blocks[k]) < size)
      ensures blocks != [] && r.Some? ==> BestFit(blocks, size, r.value)
    {
      if blocks == [] {
        return Some(0);
      }
      ghost var best;
      var offset;
      forall k | 0 <= k < |blocks| ensures IsGap(blocks, k, Candidates(blocks)[k], Gaps(blocks)[k]) {
        GapBounds(blocks, k);
      }
      offset, best := FindGap(size, Candidates(blocks), Gaps(blocks));
      if offset == RAM_ADDR_MAX {
        forall k | 0 <= k < |blocks| ensures Gap(blocks, blocks[k]) < size { assert Gaps(blocks)[k] < size; }
        return None;
      }
      BestFitAt(blocks, size, best);
      return Some(offset);
    }

    /** last_ram_page */
    method LastRamPage() returns (n: nat)
      ensures n == LastEnd(blocks) / PAGE
    {
      var last := 0;
      var i := 0;
      while i < |blocks|
        invariant 0 <= i <= |blocks|
        invariant last == LastEnd(blocks[..i])
      {
        assert blocks[..i + 1][..i] == blocks[..i];
        last := if last < End(blocks[i]) then End(blocks[i]) else last;
        i := i + 1;
      }
      assert blocks[..i] == blocks;
      return last / PAGE;
    }

    /** dirty_memory_extend */
    method DirtyMemoryExtend(oldSize: nat, newSize: nat)
      requires |dirty| == CLIENTS && oldSize <= newSize && forall i | 0 <= i < CLIENTS :: Covers(dirty[i], oldSize)
      modifies this`dirty
      ensures |dirty| == CLIENTS
      ensures forall i | 0 <= i < CLIENTS :: Covers(dirty[i], newSize) && KeptBelow(old(dirty)[i], dirty[i], oldSize)
    {
      var oldNum, newNum := BitmapsFor(oldSize), BitmapsFor(newSize);
      if newNum <= oldNum {
        return;
      }
      var i := 0;
      while i < CLIENTS
        invariant 0 <= i <= CLIENTS && |dirty| == CLIENTS
        invariant forall k | 0 <= k < i :: Covers(dirty[k], newSize) && KeptBelow(old(dirty)[k], dirty[k], oldSize)
        invariant forall k | i <= k < CLIENTS :: dirty[k] == old(dirty)[k]
      {
        ExtendedKeeps(dirty[i], oldSize, newSize);
        dirty := dirty[i := Extended(dirty[i], oldNum, newNum)];
        i := i + 1;
      }
    }

    /** cpu_physical_memory_set_dirty_range for all clients */
    method SetDirtyRange(start: nat, length: nat)
      requires |dirty| == CLIENTS && start + length + PAGE <= SPACE
      requires forall i | 0 <= i < CLIENTS :: Covers(dirty[i], (start + length + PAGE - 1) / PAGE)
      modifies this`dirty
      ensures |dirty| == CLIENTS
      ensures forall i | 0 <= i < CLIENTS ::
        RangeSet(old(dirty)[i], dirty[i], start / PAGE, (start + length + PAGE - 1) / PAGE)
    {
      var end, page := (start + length + PAGE - 1) / PAGE, start / PAGE;
      ghost var first := page;
      var idx, offset := page / BLOCK_BITS, page % BLOCK_BITS;
      var base := page - offset;
      while page < end
        invariant |dirty| == CLIENTS && first <= page && (page <= end || page == first)
        invariant 0 <= offset < BLOCK_BITS && base == idx * BLOCK_BITS && (page < end ==> page == base + offset)
        invariant forall i | 0 <= i < CLIENTS :: RangeSet(old(dirty)[i], dirty[i], first, page)
        decreases end - page
      {
        var next := if end < base + BLOCK_BITS then end else base + BLOCK_BITS;
        SetChunk(idx, offset, next - page, first, old(dirty));
        page, idx, offset, base := next, idx + 1, 0, base + BLOCK_BITS;
      }
    }

    /** The calls of bitmap_set_atomic in one iteration of cpu_physical_memory_set_dirty_range. */
    method SetChunk(idx: nat, off: nat, n: nat, ghost first: nat, ghost was: seq<seq<Bitmap>>)
      requires |dirty| == |was| == CLIENTS && off + n <= BLOCK_BITS && first <= idx * BLOCK_BITS + off
      requires forall i | 0 <= i < CLIENTS ::
        idx < |was[i]| && RangeSet(was[i], dirty[i], first, idx * BLOCK_BITS + off)
      modifies this`dirty
      ensures |dirty| == CLIENTS
      ensures forall i | 0 <= i < CLIENTS :: RangeSet(was[i], dirty[i], first, idx * BLOCK_BITS + off + n)
    {
      var i := 0;
      while i < CLIENTS
        invariant 0 <= i <= CLIENTS && |dirty| == CLIENTS
        invariant forall k | 0 <= k < i :: RangeSet(was[k], dirty[k], first, idx * BLOCK_BITS + off + n)
        invariant forall k | i <= k < CLIENTS :: dirty[k] == old(dirty)[k]
      {
        SetBitsRange(was[i], dirty[i], first, idx, off, n);
        dirty := dirty[i := dirty[i][idx := SetBits(dirty[i][idx], off, n)]];
        i := i + 1;
      }
    }

    /** The end of ram_block_add: b goes before the first smaller block. */
    method InsertSorted(b: RamBlock) returns (ghost k: nat)
      requires Descending(blocks)
      modifies this`blocks
      ensures k <= |old(blocks)| && blocks == old(blocks)[..k] + [b] + old(blocks)[k..] && Descending(blocks)
    {
      var i := 0;
      while i < |blocks| && blocks[i].length >= b.length
        invariant 0 <= i <= |blocks|
        invariant forall j | 0 <= j < i :: blocks[j].length >= b.length
      {
        i := i + 1;
      }
      blocks := blocks[..i] + [b] + blocks[i..];
      k := i;
    }

    /** The bitmaps grow to cover a new block. */
    method GrowDirty(oldSize: nat, b: RamBlock)
      requires |dirty| == CLIENTS && oldSize == LastEnd(blocks) / PAGE
      requires forall i | 0 <= i < CLIENTS :: CoversBlocks(dirty[i], blocks)
      modifies this`dirty
      ensures |dirty| == CLIENTS && forall i | 0 <= i < CLIENTS :: ReadyFor(old(dirty)[i], dirty[i], blocks, b)
    {
      var newSize := if oldSize < End(b) / PAGE then End(b) / PAGE else oldSize;
      forall i | 0 <= i < CLIENTS ensures Covers(dirty[i], oldSize) { LastEndCovered(dirty[i], blocks); }
      if newSize > oldSize {
        DirtyMemoryExtend(oldSize, newSize);
      }
    }

    /** The pages of a new block become dirty. */
    method MarkDirty(b: RamBlock, ghost was: seq<seq<Bitmap>>, ghost bs: seq<RamBlock>)
      requires AllOk(bs) && BlockOk(b) && (forall i | 0 <= i < |bs| :: Apart(bs[i], b))
      requires |dirty| == |was| == CLIENTS && forall i | 0 <= i < CLIENTS :: ReadyFor(was[i], dirty[i], bs, b)
      modifies this`dirty
      ensures |dirty| == CLIENTS && forall i | 0 <= i < CLIENTS :: NewlyDirty(was[i], dirty[i], bs, b)
    {
      ghost var mid := dirty;
      WholePages(b);
      SetDirtyRange(b.offset, b.used);
      forall i | 0 <= i < CLIENTS ensures NewlyDirty(was[i], dirty[i], bs, b) {
        RangeIsNew(was[i], mid[i], dirty[i], bs, b);
      }
    }

    /**
     ram_block_add.  hostOk says whether the host memory could be allocated.  The new block takes the smallest gap
     that is large enough, nothing overlaps, the bitmaps grow to cover it, its used pages become dirty, and the
     dirty bits of all other pages stay.
     */
    method RamBlockAdd(length: nat, used: nat, hostOk: bool) returns (r: AddResult)
      requires Valid() && 0 < length < SPACE && length % PAGE == 0 && used % PAGE == 0 && used <= length
      modifies this
      ensures Valid()
      ensures r.NoGap? <==>
        old(blocks) != [] && forall k | 0 <= k < |old(blocks)| :: Gap(old(blocks), old(blocks)[k]) < length
      ensures r.Added? <==> hostOk && !r.NoGap?
      ensures !r.Added? ==> blocks == old(blocks) && dirty == old(dirty) && mru == old(mru) && version == old(version)
      ensures r.Added? ==> if old(blocks) == [] then r.offset == 0 else BestFit(old(blocks), length, r.offset)
      ensures r.Added? ==> mru == None && version == (old(version) + 1) % 0x1_0000_0000
      ensures r.Added? ==> Inserted(old(blocks), blocks, RamBlock(r.offset, used, length))
      ensures r.Added? ==> forall i | 0 <= i < CLIENTS ::
        NewlyDirty(old(dirty)[i], dirty[i], old(blocks), RamBlock(r.offset, used, length))
    {
      var oldSize := LastRamPage();
      var found := FindRamOffset(length);
      if found.None? {
        return NoGap;
      }
      if !hostOk {
        return NoMemory;
      }
      var b := RamBlock(found.value, used, length);
      if blocks != [] { BestFitIsFree(blocks, b); }
      InsertBlock(b, oldSize);
      return Added(b.offset);
    }

    /** ram_block_add once the offset and the host memory of the block are there */
    method InsertBlock(b: RamBlock, oldSize: nat)
      requires Valid() && BlockOk(b) && oldSize == LastEnd(blocks) / PAGE
      requires forall i | 0 <= i < |blocks| :: Apart(blocks[i], b)
      modifies this
      ensures Valid() && Inserted(old(blocks), blocks, b) && mru == None
      ensures version == (old(version) + 1) % 0x1_0000_0000
      ensures forall i | 0 <= i < CLIENTS :: NewlyDirty(old(dirty)[i], dirty[i], old(blocks), b)
    {
      GrowDirty(oldSize, b);
      ghost var k := InsertSorted(b);
      mru := None;
      version := (version + 1) % 0x1_0000_0000;
      InsertedOk(old(blocks), blocks, b, k);
      MarkDirty(b, old(dirty), old(blocks));
      forall i | 0 <= i < CLIENTS ensures CoversBlocks(dirty[i], blocks) {
        CoversInserted(dirty[i], old(blocks), blocks, b, k);
      }
    }

    /** qemu_ram_free of the k-th block */
    method RamFree(k: nat)
      requires Valid() && k < |blocks|
      modifies this`blocks, this`mru, this`version
      ensures Valid() && blocks == old(blocks)[..k] + old(blocks)[k + 1..] && mru == None
      ensures version == (old(version) + 1) % 0x1_0000_0000
    {
      RemovedOk(blocks, k);
      forall i | 0 <= i < CLIENTS ensures CoversBlocks(dirty[i], blocks[..k] + blocks[k + 1..]) {
        RemovedCovered(dirty[i], blocks, k);
      }
      blocks, mru := blocks[..k] + blocks[k + 1..], None;
      version := (version + 1) % 0x1_0000_0000;
    }
  }

  lemma {:induction false} RemovedOk(bs: seq<RamBlock>, k: nat)
    requires AllOk(bs) && Descending(bs) && k < |bs|
    ensures AllOk(bs[..k] + bs[k + 1..]) && Descending(bs[..k] + bs[k + 1..])
  {
    var r := bs[..k] + bs[k + 1..];
    forall i, j | 0 <= i < j < |r| ensures Apart(r[i], r[j]) && r[i].length >= r[j].length {
      var i0, j0 := if i < k then i else i + 1, if j < k then j else j + 1;
      assert r[i] == bs[i0] && r[j] == bs[j0] && Apart(bs[i0], bs[j0]);
    }
  }

  lemma {:induction false} RemovedCovered(d: seq<Bitmap>, bs: seq<RamBlock>, k: nat)
    requires CoversBlocks(d, bs) && k < |bs|
    ensures CoversBlocks(d, bs[..k] + bs[k + 1..])
  {
    var r := bs[..k] + bs[k + 1..];
    forall i | 0 <= i < |r| ensures End(r[i]) / PAGE <= |d| * BLOCK_BITS {
      assert r[i] == bs[if i < k then i else i + 1];
    }
  }

  /** One more block, somewhere in the list. */
  ghost predicate Inserted(bs: seq<RamBlock>, bs': seq<RamBlock>, b: RamBlock) {
    exists k :: 0 <= k <= |bs| && bs' == bs[..k] + [b] + bs[k..]
  }

  ghost predicate PageOf(b: RamBlock, q: nat) {
    b.offset / PAGE <= q < End(b) / PAGE
  }

  /** The used pages of b are dirty; the pages of the blocks bs have kept their bits. */
  ghost predicate NewlyDirty(d: seq<Bitmap>, d': seq<Bitmap>, bs: seq<RamBlock>, b: RamBlock) {
    && CoversBlocks(d, bs) && Covers(d', End(b) / PAGE) && CoversBlocks(d', bs)
    && (forall q: nat {:trigger DirtyAt(d', q)} | b.offset / PAGE <= q < (b.offset + b.used) / PAGE
      && q < |d'| * BLOCK_BITS :: DirtyAt(d', q))
    && (forall k, q: nat {:trigger PageOf(bs[k], q)} | 0 <= k < |bs| && PageOf(bs[k], q) ::
      DirtyAt(d', q) == DirtyAt(d, q))
  }

  lemma {:induction false} LastEndCovered(d: seq<Bitmap>, bs: seq<RamBlock>)
    requires CoversBlocks(d, bs)
    ensures Covers(d, LastEnd(bs) / PAGE)
  {
    LastEndIs(bs);
  }

  /** The extended bitmaps cover b and have kept the bits of the blocks bs. */
  ghost predicate ReadyFor(d: seq<Bitmap>, d1: seq<Bitmap>, bs: seq<RamBlock>, b: RamBlock) {
    CoversBlocks(d, bs) && KeptBelow(d, d1, LastEnd(bs) / PAGE) && Covers(d1, End(b) / PAGE)
  }

  lemma {:induction false} WholePages(b: RamBlock)
    requires BlockOk(b)
    ensures (b.offset + b.used + PAGE - 1) / PAGE == (b.offset + b.used) / PAGE <= End(b) / PAGE
    ensures b.offset + b.used + PAGE <= SPACE
  {
    assert b.offset == ALIGN * (b.offset / ALIGN);
    WholePage(b.offset, b.used);
    WholePage(b.offset, b.length);
  }

  lemma {:induction false} WholePage(offset: nat, length: nat)
    requires offset % ALIGN == 0 && length % PAGE == 0
    ensures (offset + length) % PAGE == 0 && (offset + length + PAGE - 1) / PAGE == (offset + length) / PAGE
  {
    var i, j := offset / ALIGN, length / PAGE;
    assert offset + length == PAGE * (64 * i + j);
  }

  lemma {:induction false} RangeIsNew(d: seq<Bitmap>, d1: seq<Bitmap>, d2: seq<Bitmap>, bs: seq<RamBlock>, b: RamBlock)
    requires AllOk(bs) && BlockOk(b) && (forall i | 0 <= i < |bs| :: Apart(bs[i], b))
    requires ReadyFor(d, d1, bs, b)
    requires RangeSet(d1, d2, b.offset / PAGE, (b.offset + b.used) / PAGE)
    ensures NewlyDirty(d, d2, bs, b)
  {
    LastEndIs(bs);
    forall k, q: nat | 0 <= k < |bs| && PageOf(bs[k], q) ensures DirtyAt(d2, q) == DirtyAt(d, q) {
      assert BlockOk(bs[k]) && Apart(bs[k], b) && End(bs[k]) <= LastEnd(bs);
      assert DirtyAt(d1, q) == DirtyAt(d, q);
    }
  }

  lemma {:induction false} CoversInserted(d: seq<Bitmap>, bs: seq<RamBlock>, bs': seq<RamBlock>, b: RamBlock, k: nat)
    requires CoversBlocks(d, bs) && Covers(d, End(b) / PAGE) && k <= |bs| && bs' == bs[..k] + [b] + bs[k..]
    ensures CoversBlocks(d, bs')
  {
    forall j | 0 <= j < |bs'| ensures End(bs'[j]) / PAGE <= |d| * BLOCK_BITS {
      if j != k { assert bs'[j] == bs[if j < k then j else j - 1]; }
    }
  }

  lemma {:induction false} InsertedOk(bs: seq<RamBlock>, bs': seq<RamBlock>, b: RamBlock, k: nat)
    requires AllOk(bs) && BlockOk(b) && (forall i | 0 <= i < |bs| :: Apart(bs[i], b))
    requires k <= |bs| && bs' == bs[..k] + [b] + bs[k..]
    ensures AllOk(bs')
  {
    forall i, j | 0 <= i < j < |bs'| ensures Apart(bs'[i], bs'[j]) {
      var i0, j0 := if i < k then i else i - 1, if j < k then j else j - 1;
      if i != k && j != k { assert bs'[i] == bs[i0] && bs'[j] == bs[j0] && Apart(bs[i0], bs[j0]); }
    }
  }

  ghost function Candidates(bs: seq<RamBlock>): (c: seq<nat>)
    ensures |c| == |bs|
  {
    seq(|bs|, k requires 0 <= k < |bs| => Candidate(bs[k]))
  }

  ghost function Gaps(bs: seq<RamBlock>): (g: seq<int>)
    ensures |g| == |bs|
  {
    seq(|bs|, k requires 0 <= k < |bs| => Gap(bs, bs[k]))
  }

  lemma {:induction false} BestFitAt(bs: seq<RamBlock>, size: nat, k: nat)
    requires k < |bs| && Gaps(bs)[k] >= size
    requires forall j | 0 <= j < |bs| && Gaps(bs)[j] >= size :: Gaps(bs)[k] <= Gaps(bs)[j]
    ensures BestFit(bs, size, Candidate(bs[k])) && Gap(bs, bs[k]) >= size
  {
    forall j | 0 <= j < |bs| && Gap(bs, bs[j]) >= size ensures Gap(bs, bs[k]) <= Gap(bs, bs[j]) {
      assert Gaps(bs)[j] >= size;
    }
  }

  /** After block k, the gap g starts at c. */
  ghost predicate IsGap(bs: seq<RamBlock>, k: nat, c: nat, g: int) {
    k < |bs| && c == RoundUp(End(bs[k])) != RAM_ADDR_MAX && 0 <= g == NextStart(bs, c) - c < RAM_ADDR_MAX
  }

  lemma {:induction false} GapBounds(bs: seq<RamBlock>, i: nat)
    requires AllOk(bs) && i < |bs|
    ensures IsGap(bs, i, Candidates(bs)[i], Gaps(bs)[i])
  {
    assert BlockOk(bs[i]);
    RoundUpIs(End(bs[i]));
    GapIsFree(bs, i, i);
    NextStartIs(bs, Candidate(bs[i]));
    assert RAM_ADDR_MAX % ALIGN != 0;
  }
}
