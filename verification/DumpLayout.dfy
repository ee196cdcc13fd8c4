/**
 The ELF form of a guest memory dump of dump.c: the file offsets that get_offset_range puts into
 program headers are where dump_iterate later writes the memory.
 */
module DumpLayout {
  import opened Multiplication

  type Byte = int

  /** A GuestPhysBlock: where it starts in guest memory, and its contents. */
  datatype Block = Block(start: nat, host: seq<Byte>)

  /** has_filter, begin and length of a DumpState */
  datatype Filter = All | Range(begin: nat, length: nat)

  function End(b: Block): nat {
    b.start + |b.host|
  }

  /** The tests that skip a block */
  predicate Outside(f: Filter, b: Block) {
    f.Range? && (b.start >= f.begin + f.length || End(b) <= f.begin)
  }

  /** The part of a block that the dump contains. */
  function Lo(f: Filter, b: Block): nat {
    if f.Range? && f.begin > b.start then f.begin else b.start
  }

  function Hi(f: Filter, b: Block): nat {
    if f.Range? && f.begin + f.length < End(b) then f.begin + f.length else End(b)
  }

  lemma {:induction false} Bounds(f: Filter, b: Block)
    requires !Outside(f, b)
    ensures b.start <= Lo(f, b) <= Hi(f, b) <= End(b)
  {
  }

  /** n bytes of a block's contents */
  function Bytes(host: seq<Byte>, from: nat, n: nat): (r: seq<Byte>)
    requires from + n <= |host|
    ensures |r| == n && forall i | 0 <= i < n :: r[i] == host[from + i]
  {
    seq(n, i requires 0 <= i < n => host[from + i])
  }

  lemma {:induction false} BytesJoin(host: seq<Byte>, from: nat, m: nat, n: nat)
    requires from + m + n <= |host|
    ensures Bytes(host, from, m) + Bytes(host, from + m, n) == Bytes(host, from, m + n)
  {
  }

  function Part(f: Filter, b: Block): seq<Byte> {
    if Outside(f, b) then [] else
    Bounds(f, b);
    Bytes(b.host, Lo(f, b) - b.start, Hi(f, b) - Lo(f, b))
  }

  function Parts(f: Filter, bs: seq<Block>): (ps: seq<seq<Byte>>)
    ensures |ps| == |bs|
  {
    seq(|bs|, k requires 0 <= k < |bs| => Part(f, bs[k]))
  }

  /** The first k parts in a row. */
  function Flat(ps: seq<seq<Byte>>, k: nat): seq<Byte>
    requires k <= |ps|
  {
    if k == 0 then [] else Flat(ps, k - 1) + ps[k - 1]
  }

  /** The memory area of the dump. */
  function Image(f: Filter, bs: seq<Block>): seq<Byte> {
    Flat(Parts(f, bs), |bs|)
  }

  function FlatSize(ps: seq<seq<Byte>>, k: nat): nat
    requires k <= |ps|
  {
    if k == 0 then 0 else FlatSize(ps, k - 1) + |ps[k - 1]|
  }

  lemma {:induction false} FlatSizeIs(ps: seq<seq<Byte>>, k: nat)
    requires k <= |ps|
    ensures |Flat(ps, k)| == FlatSize(ps, k)
  {
    if k > 0 { FlatSizeIs(ps, k - 1); }
  }

  ghost predicate IsPart(f: Filter, b: Block, p: seq<Byte>) {
    p == Part(f, b)
  }

  ghost predicate ArePartsOf(f: Filter, bs: seq<Block>, ps: seq<seq<Byte>>) {
    |ps| == |bs| && forall k {:trigger IsPart(f, bs[k], ps[k])} | 0 <= k < |bs| :: IsPart(f, bs[k], ps[k])
  }

  lemma {:induction false} PartsAre(f: Filter, bs: seq<Block>)
    ensures ArePartsOf(f, bs, Parts(f, bs))
  {
  }

  /** Where the k-th part lies in the whole. */
  lemma {:induction false} FlatAt(ps: seq<seq<Byte>>, n: nat, k: nat, i: nat)
    requires k < n <= |ps| && i < |ps[k]|
    ensures |Flat(ps, k)| + i < |Flat(ps, n)| && Flat(ps, n)[|Flat(ps, k)| + i] == ps[k][i]
  {
    if k < n - 1 { FlatAt(ps, n - 1, k, i); }
  }

  /** Blocks outside of the filter add nothing. */
  lemma {:induction false} OutsideAddsNothing(f: Filter, bs: seq<Block>, ps: seq<seq<Byte>>, i: nat, j: nat)
    requires ArePartsOf(f, bs, ps) && i <= j <= |bs| && forall k | i <= k < j :: Outside(f, bs[k])
    ensures Flat(ps, j) == Flat(ps, i)
  {
    if i < j {
      assert IsPart(f, bs[j - 1], ps[j - 1]) && Outside(f, bs[j - 1]);
      OutsideAddsNothing(f, bs, ps, i, j - 1);
    }
  }

  /** No address is in two blocks. */
  ghost predicate Disjoint(bs: seq<Block>) {
    forall i, j | 0 <= i < j < |bs| :: End(bs[i]) <= bs[j].start || End(bs[j]) <= bs[i].start
  }

  /** The dump contains the byte at this address: it is v. */
  ghost predicate Dumped(f: Filter, bs: seq<Block>, addr: nat, v: Byte) {
    exists k :: 0 <= k < |bs| && InPart(f, bs[k], addr) && bs[k].host[addr - bs[k].start] == v
  }

  predicate InPart(f: Filter, b: Block, addr: nat) {
    !Outside(f, b) && Lo(f, b) <= addr < Hi(f, b) && b.start <= addr < End(b)
  }

  class DumpState {
    const blocks: seq<Block>
    const filter: Filter
    const pageSize: nat
    const memoryOffset: nat
    var nextBlock: nat         // its position in the list
    var start: nat
    var writtenSize: nat
    var file: seq<Byte>

    constructor (blocks: seq<Block>, filter: Filter, pageSize: nat, headers: seq<Byte>)
      requires pageSize > 0
      ensures this.blocks == blocks && this.filter == filter && this.pageSize == pageSize && memoryOffset == |headers|
      ensures file == headers && writtenSize == 0
    {
      this.blocks, this.filter, this.pageSize, this.memoryOffset := blocks, filter, pageSize, |headers|;
      nextBlock, start, writtenSize, file := 0, 0, 0, headers;
    }

    /** One iteration of get_offset_range: the size of the block's part, and where phys is in it. */
    method FindInBlock(b: Block, phys: nat, length: nat, ghost p: seq<Byte>)
      returns (hit: bool, rel: nat, filesz: nat, size: nat)
      requires IsPart(filter, b, p)
      ensures size == |p| && (hit <==> InPart(filter, b, phys))
      ensures hit ==>
        !Outside(filter, b) && rel == phys - Lo(filter, b) && filesz == FileSize(filter, b, phys, length) <= length
    {
      hit, rel, filesz, size := false, 0, 0, 0;
      if Outside(filter, b) {
        return;
      }
      Bounds(filter, b);
      var lo := if filter.Range? && filter.begin > b.start then filter.begin else b.start;
      size := End(b) - lo;
      if filter.Range? && filter.begin + filter.length < End(b) {
        size := size - (End(b) - (filter.begin + filter.length));
      }
      if phys >= lo && phys < lo + size {
        hit, rel := true, phys - lo;
        filesz := if phys + length <= lo + size then length else size - (phys - lo);
      }
    }

    /** get_offset_range; the offset is -1 for an address that the dump does not contain. */
    method GetOffsetRange(phys: nat, length: nat) returns (offset: int, filesz: nat)
      ensures offset == -1 ==> filesz == 0 && forall k | 0 <= k < |blocks| :: !InPart(filter, blocks[k], phys)
      ensures offset != -1 ==> offset >= memoryOffset && filesz <= length
      ensures offset != -1 ==> Placed(filter, blocks, phys, length, offset - memoryOffset, filesz)
    {
      if filter.Range? && (phys < filter.begin || phys >= filter.begin + filter.length) {
        return -1, 0;
      }
      PartsAre(filter, blocks);
      ghost var k;
      offset, filesz, k := FindRange(phys, length, Parts(filter, blocks));
      if offset != -1 {
        assert Located(filter, blocks, k, phys, length, offset - memoryOffset, filesz);
      }
    }

    /** The loop of get_offset_range; k is the block that holds the address. */
    method FindRange(phys: nat, length: nat, ghost ps: seq<seq<Byte>>) returns (offset: int, filesz: nat, ghost k: nat)
      requires ArePartsOf(filter, blocks, ps)
      ensures offset == -1 ==> filesz == 0 && forall j | 0 <= j < |blocks| :: !InPart(filter, blocks[j], phys)
      ensures offset != -1 ==>
        k < |blocks| && InPart(filter, blocks[k], phys)
          && offset == memoryOffset + |Flat(ps, k)| + (phys - Lo(filter, blocks[k]))
      ensures offset != -1 ==> offset >= memoryOffset && filesz == FileSize(filter, blocks[k], phys, length) <= length
    {
      offset, k := memoryOffset, 0;
      var i := 0;
      while i < |blocks|
        invariant 0 <= i <= |blocks| && offset == memoryOffset + |Flat(ps, i)|
        invariant forall j | 0 <= j < i :: !InPart(filter, blocks[j], phys)
      {
        var hit, rel, filesize, size := FindInBlock(blocks[i], phys, length, ps[i]);
        if hit {
          return offset + rel, filesize, i;
        }
        offset := offset + size;
        i := i + 1;
      }
      return -1, 0, 0;
    }

    /** get_start_block; false where it returns -1.  Without a filter it is not called on an empty list. */
    method GetStartBlock() returns (found: bool)
      requires filter.All? ==> blocks != []
      modifies this`nextBlock, this`start
      ensures found <==> exists k :: 0 <= k < |blocks| && !Outside(filter, blocks[k])
      ensures found ==> AtBlock() && forall k | 0 <= k < nextBlock :: Outside(filter, blocks[k])
    {
      if filter.All? {
        nextBlock, start := 0, 0;
        assert !Outside(filter, blocks[0]);
        return true;
      }
      var i := 0;
      while i < |blocks|
        invariant 0 <= i <= |blocks| && forall k | 0 <= k < i :: Outside(filter, blocks[k])
      {
        if !Outside(filter, blocks[i]) {
          nextBlock := i;
          start := if filter.begin > blocks[i].start then filter.begin - blocks[i].start else 0;
          return true;
        }
        i := i + 1;
      }
      return false;
    }

    /** next_block is a block of the dump, and start is where its part begins. */
    ghost predicate AtBlock()
      reads this
    {
      nextBlock < |blocks| && !Outside(filter, blocks[nextBlock])
        && start == Lo(filter, blocks[nextBlock]) - blocks[nextBlock].start
    }

    /** get_next_block */
    method GetNextBlock(block: nat) returns (done: bool)
      requires block < |blocks|
      modifies this`nextBlock, this`start
      ensures done ==> forall k | block < k < |blocks| :: Outside(filter, blocks[k])
      ensures !done ==> block < nextBlock && AtBlock() && forall k | block < k < nextBlock :: Outside(filter, blocks[k])
    {
      var b := block;
      while true
        invariant block <= b < |blocks| && forall k | block < k <= b :: Outside(filter, blocks[k])
        decreases |blocks| - b
      {
        b := b + 1;
        if b == |blocks| {
          return true;
        }
        start, nextBlock := 0, b;
        if filter.Range? {
          if Outside(filter, blocks[b]) {
            continue;
          }
          if filter.begin > blocks[b].start {
            start := filter.begin - blocks[b].start;
          }
        }
        return false;
      }
    }

    /** write_memory: page by page, and then the rest */
    method WriteMemory(b: Block, from: nat, size: nat)
      requires pageSize > 0 && from + size <= |b.host|
      modifies this`file, this`writtenSize
      ensures file == old(file) + Bytes(b.host, from, size) && writtenSize == old(writtenSize) + size
    {
      ghost var done := WholePages(size, pageSize);
      WritePages(b, from, size / pageSize, done);
      if size % pageSize != 0 {
        WritePiece(b, from, size / pageSize, size % pageSize, done);
      }
    }

    /** The loop of write_memory */
    method WritePages(b: Block, from: nat, count: nat, ghost total: nat)
      requires pageSize > 0 && total == count * pageSize && from + total <= |b.host|
      modifies this`file, this`writtenSize
      ensures file == old(file) + Bytes(b.host, from, total) && writtenSize == old(writtenSize) + total
    {
      var i := 0;
      ghost var done := 0;
      while i < count
        invariant 0 <= i <= count && done == i * pageSize <= total
        invariant file == old(file) + Bytes(b.host, from, done) && writtenSize == old(writtenSize) + done
      {
        PageFits(count, pageSize, i);
        WritePiece(b, from, i, pageSize, done);
        i, done := i + 1, done + pageSize;
      }
    }

    /** write_data of n bytes from page i of the range on, of which the first done bytes have been written */
    method WritePiece(b: Block, from: nat, i: nat, n: nat, ghost done: nat)
      requires done == i * pageSize && from + done + n <= |b.host|
      modifies this`file, this`writtenSize
      ensures file == old(file) + Bytes(b.host, from + done, n) && writtenSize == old(writtenSize) + n
      ensures Bytes(b.host, from, done) + Bytes(b.host, from + done, n) == Bytes(b.host, from, done + n)
    {
      WriteData(Bytes(b.host, from + i * pageSize, n));
      BytesJoin(b.host, from, done, n);
    }

    /** write_data */
    method WriteData(data: seq<Byte>)
      modifies this`file, this`writtenSize
      ensures file == old(file) + data && writtenSize == old(writtenSize) + |data|
    {
      file := file + data;
      writtenSize := writtenSize + |data|;
    }

    /**
     The memory part of a dump: the size that is announced, the place of a segment that a program header names, and
     the bytes.  Every byte of the segment is in the file where the header says, and as much is written as announced.
     */
    method DumpMemory(phys: nat, length: nat) returns (ok: bool, total: nat, offset: int, filesz: nat)
      requires pageSize > 0 && |file| == memoryOffset && writtenSize == 0
      modifies this`nextBlock, this`start, this`file, this`writtenSize
      ensures ok <==> exists addr: nat, k :: 0 <= k < |blocks| && InPart(filter, blocks[k], addr)
      ensures !ok ==> file == old(file)
      ensures ok ==> old(file) <= file && writtenSize == total
      ensures offset == -1 <==> forall k | 0 <= k < |blocks| :: !InPart(filter, blocks[k], phys)
      ensures ok && offset != -1 ==> memoryOffset <= offset && filesz <= length
      ensures ok && offset != -1 ==> forall i | 0 <= i < filesz :: InFile(filter, blocks, file, phys, offset, i)
    {
      total := DumpCalculateSize();
      offset, filesz := GetOffsetRange(phys, length);
      if total == 0 {
        NothingToDump(filter, blocks);
        return false, total, offset, filesz;
      }
      ghost var k, addr := SomethingToDump(filter, blocks);
      assert InPart(filter, blocks[k], addr);
      ok := GetStartBlock();
      DumpIterate();
      if offset != -1 {
        forall i | 0 <= i < filesz ensures InFile(filter, blocks, file, phys, offset, i) {
          PlacedIsWritten(filter, blocks, phys, length, offset - memoryOffset, filesz, i);
        }
      }
    }

    /** dump_iterate, after get_start_block has found a block */
    method DumpIterate()
      requires pageSize > 0 && AtBlock() && forall k | 0 <= k < nextBlock :: Outside(filter, blocks[k])
      modifies this`nextBlock, this`start, this`file, this`writtenSize
      ensures file == old(file) + Image(filter, blocks) && writtenSize == old(writtenSize) + |Image(filter, blocks)|
    {
      PartsAre(filter, blocks);
      DumpParts(Parts(filter, blocks));
    }

    /** The loop of dump_iterate */
    method DumpParts(ghost ps: seq<seq<Byte>>)
      requires pageSize > 0 && AtBlock() && (forall k | 0 <= k < nextBlock :: Outside(filter, blocks[k]))
      requires ArePartsOf(filter, blocks, ps)
      modifies this`nextBlock, this`start, this`file, this`writtenSize
      ensures file == old(file) + Flat(ps, |ps|) && writtenSize == old(writtenSize) + |Flat(ps, |ps|)|
    {
      ghost var done := nextBlock;
      OutsideAddsNothing(filter, blocks, ps, 0, nextBlock);
      var more := true;
      while more
        invariant more ==> AtBlock() && done == nextBlock
        invariant done <= |ps| && (!more ==> done == |ps|)
        invariant file == old(file) + Flat(ps, done) && writtenSize == old(writtenSize) + |Flat(ps, done)|
        decreases |ps| - done
      {
        more, done := DumpBlock(ps);
      }
    }

    /** One iteration of dump_iterate; done is how far the dump has got. */
    method DumpBlock(ghost ps: seq<seq<Byte>>) returns (more: bool, ghost done: nat)
      requires pageSize > 0 && AtBlock() && ArePartsOf(filter, blocks, ps)
      modifies this`nextBlock, this`start, this`file, this`writtenSize
      ensures old(nextBlock) < done <= |ps| && if more then AtBlock() && done == nextBlock else done == |ps|
      ensures var p := ps[old(nextBlock)];
        && Flat(ps, done) == Flat(ps, old(nextBlock)) + p
        && file == old(file) + p && writtenSize == old(writtenSize) + |p|
    {
      var block := nextBlock;
      assert IsPart(filter, blocks[block], ps[block]);
      WriteBlock();
      var last := GetNextBlock(block);
      more, done := !last, if last then |ps| else nextBlock;
      OutsideAddsNothing(filter, blocks, ps, block + 1, done);
    }

    /** The size that dump_iterate computes, and the write */
    method WriteBlock()
      requires pageSize > 0 && AtBlock()
      modifies this`file, this`writtenSize
      ensures file == old(file) + Part(filter, blocks[nextBlock])
      ensures writtenSize == old(writtenSize) + |Part(filter, blocks[nextBlock])|
    {
      var b := blocks[nextBlock];
      Bounds(filter, b);
      var size := End(b) - b.start;
      if filter.Range? {
        size := size - start;
        if filter.begin + filter.length < End(b) {
          size := size - (End(b) - (filter.begin + filter.length));
        }
      }
      WriteMemory(b, start, size);
    }

    /** dump_calculate_size */
    method DumpCalculateSize() returns (total: nat)
      ensures total == |Image(filter, blocks)|
    {
      PartsAre(filter, blocks);
      FlatSizeIs(Parts(filter, blocks), |blocks|);
      total := SumSizes(Parts(filter, blocks));
    }

    /** The loop of dump_calculate_size */
    method SumSizes(ghost ps: seq<seq<Byte>>) returns (total: nat)
      requires ArePartsOf(filter, blocks, ps)
      ensures total == FlatSize(ps, |ps|)
    {
      total := 0;
      var i := 0;
      while i < |blocks|
        invariant 0 <= i <= |blocks| && total == FlatSize(ps, i)
      {
        var size := OverlapSize(blocks[i], ps[i]);
        total := total + size;
        i := i + 1;
      }
    }

    /** One iteration of dump_calculate_size */
    method OverlapSize(b: Block, ghost p: seq<Byte>) returns (size: nat)
      requires IsPart(filter, b, p)
      ensures size == |p|
    {
      if filter.Range? {
        var left := if filter.begin > b.start then filter.begin else b.start;
        var right := if filter.begin + filter.length < End(b) then filter.begin + filter.length else End(b);
        size := if right - left > 0 then right - left else 0;
        if !Outside(filter, b) { Bounds(filter, b); }
      } else {
        size := End(b) - b.start;
      }
    }
  }

  /** The size of the whole pages in a range */
  lemma {:induction false} WholePages(size: nat, page: nat) returns (done: nat)
    requires page > 0
    ensures done == size / page * page && done + size % page == size
  {
    done := size / page * page;
  }

  lemma {:induction false} PageFits(count: nat, page: nat, i: nat)
    requires i < count
    ensures i * page + page == (i + 1) * page <= count * page
  {
    MulLe(i + 1, count, page);
  }

  /** How much of a mapping that starts at phys the block's part contains. */
  function FileSize(f: Filter, b: Block, phys: nat, length: nat): int {
    if phys + length <= Hi(f, b) then length else Hi(f, b) - phys
  }

  /** Block k holds phys; its part starts so that phys is at this offset; filesz bytes from there are in the part. */
  ghost predicate Located(f: Filter, bs: seq<Block>, k: nat, phys: nat, length: nat, offset: int, filesz: nat) {
    && k < |bs| && InPart(f, bs[k], phys)
    && offset == |Flat(Parts(f, bs), k)| + (phys - Lo(f, bs[k])) && filesz == FileSize(f, bs[k], phys, length)
  }

  ghost predicate Placed(f: Filter, bs: seq<Block>, phys: nat, length: nat, offset: int, filesz: nat) {
    exists k: nat {:trigger Located(f, bs, k, phys, length, offset, filesz)} ::
      Located(f, bs, k, phys, length, offset, filesz)
  }

  /**
   Every byte of a segment that get_offset_range places in the file is written there: the byte at offset + i is
   the guest's byte at phys + i.
   */
  lemma {:induction false} PlacedIsWritten(f: Filter, bs: seq<Block>, phys: nat, length: nat, offset: nat, filesz: nat,
                                           i: nat)
    requires Placed(f, bs, phys, length, offset, filesz) && i < filesz
    ensures offset + i < |Image(f, bs)| && Dumped(f, bs, phys + i, Image(f, bs)[offset + i])
  {
    var k: nat :| Located(f, bs, k, phys, length, offset, filesz);
    PartsAre(f, bs);
    LocatedAt(f, bs, Parts(f, bs), k, phys, length, i);
  }

  lemma {:induction false} LocatedAt(f: Filter, bs: seq<Block>, ps: seq<seq<Byte>>, k: nat, phys: nat, length: nat,
                                     i: nat)
    requires ArePartsOf(f, bs, ps) && k < |bs| && InPart(f, bs[k], phys) && i < FileSize(f, bs[k], phys, length)
    ensures var at := |Flat(ps, k)| + (phys - Lo(f, bs[k])) + i;
      0 <= at < |Flat(ps, |bs|)| && Dumped(f, bs, phys + i, Flat(ps, |bs|)[at])
  {
    LocatedByte(f, bs[k], phys, length, i);
    assert IsPart(f, bs[k], ps[k]);
    FlatAt(ps, |bs|, k, phys - Lo(f, bs[k]) + i);
  }

  lemma {:induction false} LocatedByte(f: Filter, b: Block, phys: nat, length: nat, i: nat)
    requires InPart(f, b, phys) && i < FileSize(f, b, phys, length)
    ensures InPart(f, b, phys + i) && phys - Lo(f, b) + i < |Part(f, b)|
    ensures Part(f, b)[phys - Lo(f, b) + i] == b.host[phys + i - b.start]
  {
    Bounds(f, b);
  }

  /** With disjoint blocks there is only one such byte. */
  lemma {:induction false} DumpedIsUnique(f: Filter, bs: seq<Block>, addr: nat, v: Byte, v': Byte)
    requires Disjoint(bs) && Dumped(f, bs, addr, v) && Dumped(f, bs, addr, v')
    ensures v == v'
  {
    var k :| 0 <= k < |bs| && InPart(f, bs[k], addr) && bs[k].host[addr - bs[k].start] == v;
    var j :| 0 <= j < |bs| && InPart(f, bs[j], addr) && bs[j].host[addr - bs[j].start] == v';
    OneHolder(f, bs, k, j, addr);
  }

  lemma {:induction false} OneHolder(f: Filter, bs: seq<Block>, k: nat, j: nat, addr: nat)
    requires Disjoint(bs) && k < |bs| && j < |bs|
    ensures InPart(f, bs[k], addr) && InPart(f, bs[j], addr) ==> k == j
  {
    assert k < j ==> End(bs[k]) <= bs[j].start || End(bs[j]) <= bs[k].start;
    assert j < k ==> End(bs[j]) <= bs[k].start || End(bs[k]) <= bs[j].start;
  }

  /** The guest's byte at phys + i is in the file at offset + i. */
  ghost predicate InFile(f: Filter, bs: seq<Block>, file: seq<Byte>, phys: nat, offset: int, i: nat) {
    0 <= offset + i < |file| && Dumped(f, bs, phys + i, file[offset + i])
  }

  /** If the size is 0, no byte is inside the filter. */
  lemma {:induction false} NothingToDump(f: Filter, bs: seq<Block>)
    requires |Image(f, bs)| == 0
    ensures forall addr: nat, k | 0 <= k < |bs| :: !InPart(f, bs[k], addr)
  {
    forall addr: nat, k | 0 <= k < |bs| ensures !InPart(f, bs[k], addr) {
      PartsAre(f, bs);
      if InPart(f, bs[k], addr) { LocatedAt(f, bs, Parts(f, bs), k, addr, 1, 0); }
    }
  }

  lemma {:induction false} SomePart(ps: seq<seq<Byte>>, n: nat) returns (k: nat)
    requires n <= |ps| && Flat(ps, n) != []
    ensures k < n && ps[k] != []
  {
    if ps[n - 1] != [] {
      k := n - 1;
    } else {
      k := SomePart(ps, n - 1);
    }
  }

  /** If the size is not 0, some byte is. */
  lemma {:induction false} SomethingToDump(f: Filter, bs: seq<Block>) returns (k: nat, addr: nat)
    requires |Image(f, bs)| != 0
    ensures k < |bs| && InPart(f, bs[k], addr)
  {
    k := SomePart(Parts(f, bs), |bs|);
    assert Part(f, bs[k]) != [];
    addr := Lo(f, bs[k]);
    Bounds(f, bs[k]);
  }
}
