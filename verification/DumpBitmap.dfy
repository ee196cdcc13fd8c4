/**
 The page bitmap of a compressed guest memory dump of dump.c: set_dump_bitmap keeps one chunk of it in
 a buffer and writes each chunk twice, once for either copy of the bitmap.
 */
module DumpBitmap {
  import opened DumpWalk
  import opened FlatFile
  import opened Multiplication
  import opened Options

  type Bits = seq<bool>

  /** The number with these bits, least significant first */
  function Value(bits: Bits): nat {
    if bits == [] then 0 else (if bits[0] then 1 else 0) + 2 * Value(bits[1..])
  }

  /** Bit k of a byte */
  predicate BitOf(b: Byte, k: nat)
    decreases k
  {
    if k == 0 then b % 2 == 1 else BitOf(b / 2, k - 1)
  }

  lemma {:induction false} Halves(bit: nat, rest: nat)
    requires bit < 2
    ensures (bit + 2 * rest) / 2 == rest && (bit + 2 * rest) % 2 == bit
  {
  }

  lemma {:induction false} BitOfValue(bits: Bits, k: nat)
    requires k < |bits|
    ensures BitOf(Value(bits), k) == bits[k]
  {
    Halves(if bits[0] then 1 else 0, Value(bits[1..]));
    if k > 0 {
      assert BitOf(Value(bits), k) == BitOf(Value(bits[1..]), k - 1);
      BitOfValue(bits[1..], k - 1);
    }
  }

  /** The bytes of a buffer with these bits */
  function Packed(bits: Bits): (r: Bytes)
    ensures |r| == |bits| / 8
  {
    seq(|bits| / 8, i requires 0 <= i < |bits| / 8 => Value(bits[8 * i..8 * i + 8]))
  }

  lemma {:induction false} PackedHolds(bits: Bits, x: nat)
    requires |bits| % 8 == 0 && x < |bits|
    ensures x / 8 < |Packed(bits)| && BitOf(Packed(bits)[x / 8], x % 8) == bits[x]
  {
    var i := x / 8;
    BitOfValue(bits[8 * i..8 * i + 8], x % 8);
  }

  /** Page q exists. */
  ghost predicate InBlocks(bs: seq<Block>, q: nat) {
    exists k :: 0 <= k < |bs| && bs[k].first <= q < bs[k].first + |bs[k].pages|
  }

  /** Where the bitmap goes: its offset, the length of one copy, and the bytes in a chunk. */
  datatype Area = Area(offset: nat, length: nat, size: nat)

  /** The number of bits in a chunk */
  function Width(a: Area): nat {
    a.size * 8
  }

  /** Chunk j in both copies of the bitmap */
  function Twice(a: Area, j: nat, bits: Bits): seq<Record> {
    [Record(a.offset + a.size * j, Packed(bits)), Record(a.offset + a.length + a.size * j, Packed(bits))]
  }

  /** Chunks i up to j, where chunk k holds the bits g(k). */
  function Chunks(a: Area, g: nat -> Bits, i: nat, j: nat): seq<Record>
    decreases j
  {
    if j <= i then [] else Chunks(a, g, i, j - 1) + Twice(a, j - 1, g(j - 1))
  }

  lemma {:induction false} ChunksJoin(a: Area, g: nat -> Bits, i: nat, j: nat, k: nat)
    requires i <= j <= k
    ensures Chunks(a, g, i, j) + Chunks(a, g, j, k) == Chunks(a, g, i, k)
  {
    if j < k { ChunksJoin(a, g, i, j, k - 1); }
  }

  lemma {:induction false} ChunksSame(a: Area, g: nat -> Bits, h: nat -> Bits, i: nat, j: nat)
    requires forall k: nat | i <= k < j :: g(k) == h(k)
    ensures Chunks(a, g, i, j) == Chunks(a, h, i, j)
  {
    if i < j { ChunksSame(a, g, h, i, j - 1); }
  }

  /** The bits of the finished bitmap from page base on */
  ghost function Wanted(bs: seq<Block>, width: nat, base: nat): (r: Bits)
    ensures |r| == width && forall i | 0 <= i < width :: r[i] <==> InBlocks(bs, base + i)
  {
    seq(width, i requires 0 <= i < width => InBlocks(bs, base + i))
  }

  /** Chunk j of the finished bitmap */
  ghost function Bitmap(bs: seq<Block>, width: nat): nat -> Bits {
    (j: nat) => Wanted(bs, width, Base(j, width))
  }

  /** The first page of chunk j */
  function Base(j: nat, width: nat): nat {
    MulLe(0, j, width);
    j * width
  }

  function Blank(width: nat): Bits {
    seq(width, _ => false)
  }

  /** What a flush of a buffer that holds chunk c writes as chunk j */
  function Flushed(buf: Bits, width: nat, c: nat): nat -> Bits {
    j => if j == c then buf else Blank(width)
  }

  // -------------------------------------------------------------------------------------------
  // Arithmetic
  // -------------------------------------------------------------------------------------------

  lemma {:induction false} DivBounds(x: nat, w: nat)
    requires w > 0
    ensures x / w * w <= x < x / w * w + w && x % w == x - x / w * w
  {
  }

  lemma {:induction false} MulStep(a: nat, b: nat, w: nat)
    requires a < b
    ensures a * w + w <= b * w
  {
    assert (b - a - 1) * w >= 0;
    assert b * w == a * w + w + (b - a - 1) * w;
  }

  lemma {:induction false} DivUnique(x: nat, w: nat, q: nat)
    requires w > 0 && q * w <= x < q * w + w
    ensures x / w == q
  {
    var d := x / w;
    DivBounds(x, w);
    if d < q { MulStep(d, q, w); }
    if q < d { MulStep(q, d, w); }
  }

  function DivUp(x: nat, w: nat): nat
    requires w > 0
  {
    (x + w - 1) / w
  }

  // -------------------------------------------------------------------------------------------
  // The buffer
  // -------------------------------------------------------------------------------------------

  /** No page lies between last and p. */
  ghost predicate NoneBetween(bs: seq<Block>, last: nat, p: nat) {
    forall q: nat | last < q < p :: !InBlocks(bs, q)
  }

  /** The buffer holds the chunk from page base on, with the bits of the pages up to last. */
  ghost predicate BufferHolds(bs: seq<Block>, buf: Bits, base: nat, last: nat) {
    base <= last < base + |buf| && forall i | 0 <= i < |buf| :: buf[i] <==> InBlocks(bs, base + i) && base + i <= last
  }

  /** When no more page is in the chunk, the buffer is right. */
  lemma {:induction false} BufferIsRight(bs: seq<Block>, buf: Bits, base: nat, last: nat, p: nat)
    requires BufferHolds(bs, buf, base, last) && NoneBetween(bs, last, p) && base + |buf| <= p
    ensures buf == Wanted(bs, |buf|, base)
  {
    forall i | 0 <= i < |buf| ensures buf[i] == Wanted(bs, |buf|, base)[i] {
      assert base + i > last ==> !InBlocks(bs, base + i);
    }
  }

  /** A chunk between two consecutive pages is empty. */
  lemma {:induction false} BlankIsRight(bs: seq<Block>, width: nat, base: nat, p: nat)
    requires base + width <= p && forall q: nat | base <= q < p :: !InBlocks(bs, q)
    ensures Blank(width) == Wanted(bs, width, base)
  {
    forall i | 0 <= i < width ensures !Wanted(bs, width, base)[i] { assert base <= base + i < p; }
  }

  /** The next page is in the same chunk. */
  lemma {:induction false} SetInBuffer(bs: seq<Block>, buf: Bits, base: nat, last: nat, p: nat)
    requires BufferHolds(bs, buf, base, last) && last < p < base + |buf| && NoneBetween(bs, last, p) && InBlocks(bs, p)
    ensures BufferHolds(bs, buf[p - base := true], base, p)
  {
    var b := buf[p - base := true];
    forall i | 0 <= i < |buf| ensures b[i] <==> InBlocks(bs, base + i) && base + i <= p {
      assert last < base + i < p ==> !InBlocks(bs, base + i);
    }
  }

  /** The next page is the first one in its chunk. */
  lemma {:induction false} SetInBlank(bs: seq<Block>, width: nat, base: nat, p: nat)
    requires base <= p < base + width && InBlocks(bs, p) && forall q: nat | base <= q < p :: !InBlocks(bs, q)
    ensures BufferHolds(bs, Blank(width)[p - base := true], base, p)
  {
    var b := Blank(width)[p - base := true];
    forall i | 0 <= i < width ensures b[i] <==> InBlocks(bs, base + i) && base + i <= p {
      assert base <= base + i < p ==> !InBlocks(bs, base + i);
    }
  }

  /** Page p comes right after page last. */
  ghost predicate Follows(bs: seq<Block>, last: nat, p: nat) {
    last < p && InBlocks(bs, p) && NoneBetween(bs, last, p)
  }

  /** Page x is in chunk c. */
  ghost predicate InChunk(width: nat, c: nat, x: nat) {
    Base(c, width) <= x < Base(c, width) + width
  }

  /** Chunks are in the order of their pages. */
  lemma {:induction false} ChunkOrder(width: nat, c: nat, x: nat, d: nat, y: nat)
    requires InChunk(width, c, x) && InChunk(width, d, y) && x <= y
    ensures c <= d
  {
    if d < c { MulStep(d, c, width); }
  }

  lemma {:induction false} ChunkOf(width: nat, x: nat) returns (c: nat)
    requires width > 0
    ensures InChunk(width, c, x)
  {
    DivBounds(x, width);
    c := x / width;
  }

  /** The space that dump_init reserves is one chunk more than the chunk of the last page. */
  lemma {:induction false} ReservedChunks(last: nat, size: nat, c: nat)
    requires size > 0 && InChunk(size * 8, c, last)
    ensures DivUp(DivUp(last + 1, 8), size) == c + 1
  {
    var u := DivUp(last + 1, 8);
    assert c * (size * 8) == 8 * (c * size);
    assert c * size < u <= c * size + size;
    assert (c + 1) * size == c * size + size;
    DivUnique(u + size - 1, size, c + 1);
  }

  /** The reserved space has a bit for the last page. */
  lemma {:induction false} LastIsReserved(last: nat, size: nat)
    requires size > 0
    ensures last < 8 * (size * DivUp(DivUp(last + 1, 8), size))
  {
    var c := ChunkOf(size * 8, last);
    ReservedChunks(last, size, c);
    EightTimes(size, c + 1);
    MulStep(c, c + 1, size * 8);
  }

  /** What is flushed on the way from page last to page p is right. */
  lemma {:induction false} FlushIsRight(bs: seq<Block>, buf: Bits, last: nat, c: nat, p: nat, d: nat, j: nat)
    requires last < p && NoneBetween(bs, last, p) && BufferHolds(bs, buf, Base(c, |buf|), last) && InChunk(|buf|, d, p)
    requires c <= j < d
    ensures Flushed(buf, |buf|, c)(j) == Bitmap(bs, |buf|)(j)
  {
    var w := |buf|;
    MulStep(j, d, w);
    if j == c {
      BufferIsRight(bs, buf, Base(j, w), last, p);
    } else {
      MulStep(c, j, w);
      BlankIsRight(bs, w, Base(j, w), p);
    }
  }

  /** The buffer after page p, which is in chunk d, has been set */
  function NextBuffer(buf: Bits, width: nat, c: nat, p: nat, d: nat, value: bool): Bits {
    var b := if c < d then Blank(width) else buf;
    if 0 <= p - Base(d, width) < |b| then b[p - Base(d, width) := value] else b
  }

  /** After page p is set, the buffer holds its chunk. */
  lemma {:induction false} SetIsRight(bs: seq<Block>, buf: Bits, last: nat, c: nat, p: nat, d: nat)
    requires Follows(bs, last, p) && BufferHolds(bs, buf, Base(c, |buf|), last) && InChunk(|buf|, d, p) && c <= d
    ensures BufferHolds(bs, NextBuffer(buf, |buf|, c, p, d, true), Base(d, |buf|), p)
  {
    var w := |buf|;
    if c < d {
      MulStep(c, d, w);
      SetInBlank(bs, w, Base(d, w), p);
    } else {
      SetInBuffer(bs, buf, Base(d, w), last, p);
    }
  }

  /** Up to the first page, everything is zero. */
  lemma {:induction false} FirstIsRight(bs: seq<Block>, width: nat, p: nat, d: nat)
    requires InChunk(width, d, p) && InBlocks(bs, p) && forall q: nat | q < p :: !InBlocks(bs, q)
    ensures forall j: nat | j < d :: Flushed(Blank(width), width, 0)(j) == Bitmap(bs, width)(j)
    ensures BufferHolds(bs, NextBuffer(Blank(width), width, 0, p, d, true), Base(d, width), p)
  {
    forall j: nat | j < d ensures Flushed(Blank(width), width, 0)(j) == Bitmap(bs, width)(j) {
      MulStep(j, d, width);
      BlankIsRight(bs, width, Base(j, width), p);
    }
    SetInBlank(bs, width, Base(d, width), p);
  }

  /** In sorted blocks the walk goes from each page to the one that follows it. */
  lemma {:induction false} WalkFollows(bs: seq<Block>, k: nat, last: nat, k': nat, p: nat, n: nat)
    requires BlocksOk(bs) && Sorted(bs) && n > 0 && At(bs, k, last, n - 1) && At(bs, k', p, n)
    ensures Follows(bs, last, p)
  {
    if last + 1 < bs[k].first + |bs[k].pages| {
      AtIsUnique(bs, k, last + 1, k', p, n);
    } else {
      AtIsBelowTotal(bs, k', p, n);
      assert k + 1 == |bs| ==> n == Total(bs);
      AtIsUnique(bs, k + 1, bs[k + 1].first, k', p, n);
    }
  }

  /** It starts with the first page. */
  lemma {:induction false} WalkStarts(bs: seq<Block>, k: nat, p: nat)
    requires BlocksOk(bs) && Sorted(bs) && At(bs, k, p, 0)
    ensures InBlocks(bs, p) && forall q: nat | q < p :: !InBlocks(bs, q)
  {
    AtIsUnique(bs, 0, bs[0].first, k, p, 0);
  }

  /** The last page, which get_max_mapnr takes from the last block */
  function Last(bs: seq<Block>): int
    requires bs != []
  {
    bs[|bs| - 1].first + |bs[|bs| - 1].pages| - 1
  }

  lemma {:induction false} WalkEnds(bs: seq<Block>, k: nat, p: nat)
    requires BlocksOk(bs) && Sorted(bs) && At(bs, k, p, Total(bs) - 1)
    ensures p == Last(bs) && forall q: nat | q > p :: !InBlocks(bs, q)
  {
    AtIsUnique(bs, |bs| - 1, Last(bs), k, p, Total(bs) - 1);
  }

  /** The first m chunks of both copies lie inside the reserved area. */
  lemma {:induction false} ChunksInside(a: Area, g: nat -> Bits, m: nat, r: Record)
    requires a.size * m <= a.length && r in Chunks(a, g, 0, m)
    ensures a.offset <= r.offset && r.offset + a.size <= a.offset + 2 * a.length
  {
    MulStep(m - 1, m, a.size);
    assert a.size * (m - 1) == (m - 1) * a.size && a.size * m == m * a.size;
    if r !in Twice(a, m - 1, g(m - 1)) { ChunksInside(a, g, m - 1, r); } else { MulLe(0, m - 1, a.size); }
  }

  // -------------------------------------------------------------------------------------------
  // Writing in place
  // -------------------------------------------------------------------------------------------

  class BitmapWriter {
    const file: DumpFile
    var numDumpable: nat

    constructor (file: DumpFile)
      ensures this.file == file && numDumpable == 0
    {
      this.file, numDumpable := file, 0;
    }

    /** The body of the flush loop: chunk j goes to both copies, and the buffer is cleared. */
    method WriteChunk(a: Area, offset: nat, buf: array<bool>, ghost j: nat)
      requires offset == a.size * j
      modifies file, buf
      ensures file.records == old(file.records) + Twice(a, j, old(buf[..])) && buf[..] == Blank(buf.Length)
    {
      file.WriteBuffer(a.offset + offset, Packed(buf[..]));
      file.WriteBuffer(a.offset + a.length + offset, Packed(buf[..]));
      Clear(buf);
    }

    /** The flush loop of set_dump_bitmap, from chunk c to chunk d */
    method Flush(a: Area, buf: array<bool>, c: nat, d: nat)
      requires a.size > 0 && buf.Length == Width(a) && c <= d
      modifies file, buf
      ensures file.records == old(file.records) + Chunks(a, Flushed(old(buf[..]), Width(a), c), c, d)
      ensures buf[..] == if c < d then Blank(Width(a)) else old(buf[..])
    {
      ghost var g := Flushed(old(buf[..]), Width(a), c);
      var offset, end := a.size * c, a.size * d;
      ghost var j := c;
      while offset < end
        invariant c <= j <= d && offset == a.size * j
        invariant file.records == old(file.records) + Chunks(a, g, c, j)
        invariant buf[..] == if c < j then Blank(Width(a)) else old(buf[..])
        decreases d - j
      {
        SizeStep(a.size, j, d);
        assert g(j) == buf[..];
        WriteChunk(a, offset, buf, j);
        offset, j := offset + a.size, j + 1;
      }
      SizeStep(a.size, j, d);
    }

    /** memset(buf, 0, bitmap_bufsize) */
    method Clear(buf: array<bool>)
      modifies buf
      ensures buf[..] == Blank(buf.Length)
    {
      var i := 0;
      while i < buf.Length
        invariant 0 <= i <= buf.Length && forall k | 0 <= k < i :: !buf[k]
      {
        buf[i] := false;
        i := i + 1;
      }
    }

    /** set_dump_bitmap; pages last and pfn are in chunks c and d. */
    method SetDumpBitmap(a: Area, last: nat, pfn: nat, value: bool, buf: array<bool>, ghost c: nat, ghost d: nat)
      requires a.size > 0 && buf.Length == Width(a) && last <= pfn && InChunk(Width(a), c, last)
      requires InChunk(Width(a), d, pfn)
      modifies file, buf
      ensures file.records == old(file.records) + Chunks(a, Flushed(old(buf[..]), Width(a), c), c, d)
      ensures buf[..] == NextBuffer(old(buf[..]), Width(a), c, pfn, d, value)
    {
      var w := Width(a);
      DivUnique(last, w, c);
      DivUnique(pfn, w, d);
      DivBounds(pfn, w);
      ChunkOrder(w, c, last, d, pfn);
      Flush(a, buf, last / w, pfn / w);
      buf[pfn % w] := value;
    }

    /** The pages up to last, which is in chunk c, are in the file and in the buffer. */
    ghost predicate Recorded(a: Area, bs: seq<Block>, was: seq<Record>, buf: Bits, last: nat, c: nat)
      reads file
    {
      && |buf| == Width(a) && BufferHolds(bs, buf, Base(c, Width(a)), last)
      && file.records == was + Chunks(a, Bitmap(bs, Width(a)), 0, c)
    }

    /** The first page */
    method SetFirst(a: Area, bs: seq<Block>, p: nat, buf: array<bool>, ghost d: nat)
      requires a.size > 0 && buf.Length == Width(a) && buf[..] == Blank(Width(a)) && InChunk(Width(a), d, p)
      requires InBlocks(bs, p) && forall q: nat | q < p :: !InBlocks(bs, q)
      modifies file, buf
      ensures Recorded(a, bs, old(file.records), buf[..], p, d)
    {
      ghost var w := Width(a);
      FirstIsRight(bs, w, p, d);
      SetDumpBitmap(a, 0, p, true, buf, 0, d);
      ChunksSame(a, Flushed(Blank(w), w, 0), Bitmap(bs, w), 0, d);
    }

    /** A page and the one after it */
    method SetNext(a: Area, bs: seq<Block>, last: nat, p: nat, buf: array<bool>, ghost was: seq<Record>, ghost c: nat,
                   ghost d: nat)
      requires a.size > 0 && buf.Length == Width(a) && Recorded(a, bs, was, buf[..], last, c) && Follows(bs, last, p)
      requires InChunk(Width(a), d, p)
      modifies file, buf
      ensures Recorded(a, bs, was, buf[..], p, d)
    {
      ghost var w, b := Width(a), buf[..];
      ChunkOrder(w, c, last, d, p);
      forall j: nat | c <= j < d ensures Flushed(b, w, c)(j) == Bitmap(bs, w)(j) {
        FlushIsRight(bs, b, last, c, p, d, j);
      }
      SetIsRight(bs, b, last, c, p, d);
      SetDumpBitmap(a, last, p, true, buf, c, d);
      ChunksSame(a, Flushed(b, w, c), Bitmap(bs, w), c, d);
      ChunksJoin(a, Bitmap(bs, w), 0, c, d);
    }

    /** The last call of set_dump_bitmap, which clears a bit one chunk further on */
    method Sync(a: Area, bs: seq<Block>, last: nat, buf: array<bool>, ghost was: seq<Record>, ghost c: nat)
      requires a.size > 0 && buf.Length == Width(a) && Recorded(a, bs, was, buf[..], last, c)
      requires forall q: nat | q > last :: !InBlocks(bs, q)
      modifies file, buf
      ensures file.records == was + Chunks(a, Bitmap(bs, Width(a)), 0, c + 1)
    {
      var w := Width(a);
      ghost var b := buf[..];
      MulStep(c, c + 1, w);
      assert Base(c + 1, w) == Base(c, w) + w;
      FlushIsRight(bs, b, last, c, last + w, c + 1, c);
      SetDumpBitmap(a, last, last + w, false, buf, c, c + 1);
      ChunksSame(a, Flushed(b, w, c), Bitmap(bs, w), c, c + 1);
      ChunksJoin(a, Bitmap(bs, w), 0, c, c + 1);
    }

    /**
     write_dump_bitmap: every chunk of both copies is written once, in order, and bit q is set exactly if page q
     exists; the number of chunks is what dump_init has reserved.
     */
    method WriteDumpBitmap(a: Area, bs: seq<Block>)
      requires BlocksOk(bs) && Sorted(bs) && a.size > 0
      modifies this, file
      ensures numDumpable == Total(bs)
      ensures var m := DivUp(DivUp(Last(bs) + 1, 8), a.size);
        && file.records == old(file.records) + Chunks(a, Bitmap(bs, Width(a)), 0, m)
        && (a.length == a.size * m ==> HoldsBoth(file.records, a, bs, 8 * a.length))
    {
      ghost var was := file.records;
      var buf := new bool[Width(a)](_ => false);
      assert buf[..] == Blank(Width(a));
      var more, block, pfn, page := GetNextPage(bs, a.size, None, 0, 0);
      WalkStarts(bs, block.value, pfn);
      ghost var c: nat := ChunkOf(Width(a), pfn);
      SetFirst(a, bs, pfn, buf, c);
      var last: nat, count: nat := pfn, 1;
      while more
        invariant count > 0
        invariant (more ==> count <= Total(bs) && block.Some? && At(bs, block.value, last, count - 1) && pfn == last)
        invariant !more ==> count == Total(bs) && last == Last(bs) && forall q: nat | q > last :: !InBlocks(bs, q)
        invariant Recorded(a, bs, was, buf[..], last, c)
        decreases Total(bs) - count, more
      {
        ghost var k := block.value;
        more, block, pfn, page := GetNextPage(bs, a.size, block, pfn, count);
        if more {
          WalkFollows(bs, k, last, block.value, pfn, count);
          ghost var d := ChunkOf(Width(a), pfn);
          SetNext(a, bs, last, pfn, buf, was, c, d);
          last, count, c := pfn, count + 1, d;
        } else {
          WalkEnds(bs, k, last);
        }
      }
      Sync(a, bs, last, buf, was, c);
      ReservedChunks(last, a.size, c);
      numDumpable := count;
      if a.length == a.size * (c + 1) { ReservedHolds(was, a, bs, c + 1); }
    }
  }

  // -------------------------------------------------------------------------------------------
  // The file that the records make
  // -------------------------------------------------------------------------------------------

  /** Bit x of the file, if it has byte x / 8 */
  function FileBit(rs: seq<Record>, x: nat): Option<bool> {
    match FileAt(rs, x / 8)
    case Some(b) => Some(BitOf(b, x % 8))
    case None => None
  }

  /** Bit q of a bitmap from byte base on says whether page q exists. */
  ghost predicate BitIsRight(rs: seq<Record>, base: nat, bs: seq<Block>, q: nat) {
    FileBit(rs, 8 * base + q) == Some(InBlocks(bs, q))
  }

  /** The first n bits do. */
  ghost predicate HoldsBitmap(rs: seq<Record>, base: nat, bs: seq<Block>, n: nat) {
    forall q: nat {:trigger BitIsRight(rs, base, bs, q)} | q < n :: BitIsRight(rs, base, bs, q)
  }

  lemma {:induction false} FileBitAfter(rs: seq<Record>, offset: nat, bits: Bits, x: nat)
    requires |bits| % 8 == 0
    ensures FileBit(rs + [Record(offset, Packed(bits))], x) ==
      if 8 * offset <= x < 8 * offset + |bits| then Some(bits[x - 8 * offset]) else FileBit(rs, x)
  {
    FileAfter(rs, Record(offset, Packed(bits)), x / 8);
    if 8 * offset <= x < 8 * offset + |bits| { PackedHolds(bits, x - 8 * offset); }
  }

  /** The next chunk of a copy makes it longer. */
  lemma {:induction false} BitsMore(rs: seq<Record>, base: nat, bs: seq<Block>, at: nat, bits: Bits)
    requires HoldsBitmap(rs, base, bs, 8 * at) && |bits| % 8 == 0 && bits == Wanted(bs, |bits|, 8 * at)
    ensures HoldsBitmap(rs + [Record(base + at, Packed(bits))], base, bs, 8 * at + |bits|)
  {
    var rs' := rs + [Record(base + at, Packed(bits))];
    forall q: nat | q < 8 * at + |bits| ensures BitIsRight(rs', base, bs, q) {
      FileBitAfter(rs, base + at, bits, 8 * base + q);
      assert q < 8 * at ==> BitIsRight(rs, base, bs, q);
    }
  }

  /** A chunk elsewhere does not change it. */
  lemma {:induction false} BitsStill(rs: seq<Record>, base: nat, bs: seq<Block>, n: nat, offset: nat, bits: Bits)
    requires |bits| % 8 == 0
    requires HoldsBitmap(rs, base, bs, n) && (8 * offset + |bits| <= 8 * base || 8 * base + n <= 8 * offset)
    ensures HoldsBitmap(rs + [Record(offset, Packed(bits))], base, bs, n)
  {
    var rs' := rs + [Record(offset, Packed(bits))];
    forall q: nat | q < n ensures BitIsRight(rs', base, bs, q) {
      FileBitAfter(rs, offset, bits, 8 * base + q);
      assert BitIsRight(rs, base, bs, q);
    }
  }

  /** Neither does anything behind it. */
  lemma {:induction false} BitmapStays(rs: seq<Record>, rs': seq<Record>, base: nat, bs: seq<Block>, n: nat, end: nat)
    requires HoldsBitmap(rs, base, bs, n) && 8 * base + n <= 8 * end && SameBelow(rs, rs', end)
    ensures HoldsBitmap(rs', base, bs, n)
  {
    forall q: nat | q < n ensures BitIsRight(rs', base, bs, q) {
      assert BitIsRight(rs, base, bs, q);
      assert FileAt(rs', (8 * base + q) / 8) == FileAt(rs, (8 * base + q) / 8);
    }
  }

  /** The next chunk of both copies, of which the second lies behind the first */
  lemma {:induction false} BothMore(rs: seq<Record>, first: nat, second: nat, bs: seq<Block>, at: nat, bits: Bits)
    requires HoldsBitmap(rs, first, bs, 8 * at) && HoldsBitmap(rs, second, bs, 8 * at)
    requires |bits| % 8 == 0 && bits == Wanted(bs, |bits|, 8 * at) && 8 * first + 8 * at + |bits| <= 8 * second
    ensures var rs' := rs + [Record(first + at, Packed(bits)), Record(second + at, Packed(bits))];
      HoldsBitmap(rs', first, bs, 8 * at + |bits|) && HoldsBitmap(rs', second, bs, 8 * at + |bits|)
  {
    var r, r' := Record(first + at, Packed(bits)), Record(second + at, Packed(bits));
    BitsMore(rs, first, bs, at, bits);
    BitsStill(rs, second, bs, 8 * at, first + at, bits);
    BitsMore(rs + [r], second, bs, at, bits);
    BitsStill(rs + [r], first, bs, 8 * at + |bits|, second + at, bits);
    assert rs + [r] + [r'] == rs + [r, r'];
  }

  lemma {:induction false} EightTimes(size: nat, j: nat)
    ensures 8 * (size * j) == Base(j, size * 8)
  {
  }

  /** Where chunk j begins and ends in bits */
  lemma {:induction false} ChunkPlace(a: Area, j: nat)
    requires a.size > 0 && a.size * (j + 1) <= a.length
    ensures 8 * (a.size * j) == Base(j, Width(a)) && Base(j + 1, Width(a)) == Base(j, Width(a)) + Width(a)
    ensures Base(j, Width(a)) + Width(a) <= 8 * a.length && a.size * j <= a.length
  {
    SizeStep(a.size, j, j + 1);
    EightTimes(a.size, j);
    EightTimes(a.size, j + 1);
  }

  /** The first m chunks give the first m chunks' bits in both copies, whatever was written before. */
  lemma {:induction false} ChunksHold(rs: seq<Record>, a: Area, bs: seq<Block>, m: nat)
    requires a.size > 0 && a.size * m <= a.length
    ensures HoldsBoth(rs + Chunks(a, Bitmap(bs, Width(a)), 0, m), a, bs, Base(m, Width(a)))
  {
    if m == 0 {
      NoBits(rs + Chunks(a, Bitmap(bs, Width(a)), 0, m), a, bs);
    } else {
      var j, g := m - 1, Bitmap(bs, Width(a));
      ChunkPlace(a, j);
      ChunksHold(rs, a, bs, j);
      ChunkHolds(rs + Chunks(a, g, 0, j), a, bs, j);
      NextChunk(rs, a, g, j);
    }
  }

  lemma {:induction false} NoBits(rs: seq<Record>, a: Area, bs: seq<Block>)
    ensures HoldsBoth(rs, a, bs, Base(0, Width(a)))
  {
  }

  lemma {:induction false} NextChunk(rs: seq<Record>, a: Area, g: nat -> Bits, j: nat)
    ensures rs + Chunks(a, g, 0, j) + Twice(a, j, g(j)) == rs + Chunks(a, g, 0, j + 1)
  {
  }

  lemma {:induction false} ReservedHolds(rs: seq<Record>, a: Area, bs: seq<Block>, m: nat)
    requires a.size > 0 && a.length == a.size * m
    ensures HoldsBoth(rs + Chunks(a, Bitmap(bs, Width(a)), 0, m), a, bs, 8 * a.length)
  {
    ChunksHold(rs, a, bs, m);
    EightTimes(a.size, m);
  }

  ghost predicate HoldsBoth(rs: seq<Record>, a: Area, bs: seq<Block>, n: nat) {
    HoldsBitmap(rs, a.offset, bs, n) && HoldsBitmap(rs, a.offset + a.length, bs, n)
  }

  lemma {:induction false} ChunkHolds(rs: seq<Record>, a: Area, bs: seq<Block>, j: nat)
    requires a.size > 0 && a.size * (j + 1) <= a.length && HoldsBoth(rs, a, bs, Base(j, Width(a)))
    ensures HoldsBoth(rs + Twice(a, j, Bitmap(bs, Width(a))(j)), a, bs, Base(j + 1, Width(a)))
  {
    ChunkPlace(a, j);
    ChunkAt(rs, a, bs, Base(j, Width(a)), a.size * j, Bitmap(bs, Width(a))(j));
  }

  lemma {:induction false} ChunkAt(rs: seq<Record>, a: Area, bs: seq<Block>, n: nat, at: nat, bits: Bits)
    requires HoldsBoth(rs, a, bs, n) && n == 8 * at && n + |bits| <= 8 * a.length
    requires |bits| % 8 == 0 && bits == Wanted(bs, |bits|, n)
    ensures var r, r' := Record(a.offset + at, Packed(bits)), Record(a.offset + a.length + at, Packed(bits));
      HoldsBoth(rs + [r, r'], a, bs, n + |bits|)
  {
    BothMore(rs, a.offset, a.offset + a.length, bs, at, bits);
  }

  lemma {:induction false} SizeStep(size: nat, j: nat, d: nat)
    requires size > 0
    ensures size * j < size * d <==> j < d
    ensures size * (j + 1) == size * j + size
  {
    if j < d { MulStep(j, d, size); } else { MulLe(d, j, size); }
  }
}
