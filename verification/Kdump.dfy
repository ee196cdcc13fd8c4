/**
 A compressed guest memory dump of dump.c as a whole: the bitmap says which pages exist, the number of pages counted
 there is the number of descriptors, and the descriptors lead to the pages.
 */
module Kdump {
  import opened DumpWalk
  import opened FlatFile
  import opened Multiplication
  import opened Options
  import B = DumpBitmap
  import L = DumpLayout
  import P = DumpPages

  // -------------------------------------------------------------------------------------------
  // Guest memory as pages
  // -------------------------------------------------------------------------------------------

  /** The blocks are not empty, and begin and end at page boundaries. */
  ghost predicate Aligned(blocks: seq<L.Block>, size: nat) {
    && size > 0 && blocks != []
    && forall k | 0 <= k < |blocks| ::
      blocks[k].start % size == 0 && |blocks[k].host| % size == 0 && blocks[k].host != []
  }

  /** They are sorted by address, and do not overlap. */
  ghost predicate InOrder(blocks: seq<L.Block>) {
    forall i, j | 0 <= i < j < |blocks| :: L.End(blocks[i]) <= blocks[j].start
  }

  lemma {:induction false} PieceFits(i: nat, length: nat, size: nat)
    requires size > 0 && i < length / size
    ensures 0 <= i * size && i * size + size <= length
  {
    B.DivBounds(length, size);
    B.MulStep(i, length / size, size);
    MulLe(0, i, size);
  }

  /** The pages of a block */
  function Paged(b: L.Block, size: nat): Block
    requires size > 0
  {
    Block(b.start / size,
      seq(|b.host| / size, i requires 0 <= i < |b.host| / size =>
        PieceFits(i, |b.host|, size); L.Bytes(b.host, i * size, size)))
  }

  function PagedAll(blocks: seq<L.Block>, size: nat): (bs: seq<Block>)
    requires size > 0
    ensures |bs| == |blocks| && forall k | 0 <= k < |blocks| :: bs[k] == Paged(blocks[k], size)
  {
    seq(|blocks|, k requires 0 <= k < |blocks| => Paged(blocks[k], size))
  }

  lemma {:induction false} PageOfAddress(start: nat, length: nat, size: nat, addr: nat)
    requires size > 0 && start % size == 0 && length % size == 0 && start <= addr < start + length
    ensures var q := addr / size - start / size; 0 <= q < length / size && q * size == addr - start - addr % size
  {
    var s, l, p := start / size, length / size, addr / size;
    B.DivBounds(start, size);
    B.DivBounds(length, size);
    B.DivBounds(addr, size);
    if p < s { B.MulStep(p, s, size); }
    assert (s + l) * size == s * size + l * size;
    if s + l <= p { MulLe(s + l, p, size); }
    assert (p - s) * size == p * size - s * size;
  }

  lemma {:induction false} PagedAt(b: L.Block, size: nat, q: nat)
    requires size > 0 && q < |b.host| / size
    ensures q < |Paged(b, size).pages| && 0 <= q * size && q * size + size <= |b.host|
    ensures Paged(b, size).pages[q] == L.Bytes(b.host, q * size, size)
  {
    PieceFits(q, |b.host|, size);
  }

  /** A byte of a block is in the page with its number. */
  lemma {:induction false} ByteOfPage(b: L.Block, size: nat, addr: nat)
    requires size > 0 && b.start % size == 0 && |b.host| % size == 0 && b.start <= addr < L.End(b)
    ensures var q := addr / size - Paged(b, size).first;
      0 <= q < |Paged(b, size).pages| && |Paged(b, size).pages[q]| == size
      && Paged(b, size).pages[q][addr % size] == b.host[addr - b.start]
  {
    PageOfAddress(b.start, |b.host|, size, addr);
    PagedAt(b, size, addr / size - b.start / size);
  }

  lemma {:induction false} EndOfPages(b: L.Block, size: nat, b': L.Block)
    requires size > 0 && b.start % size == 0 && |b.host| % size == 0 && b'.start % size == 0
    requires L.End(b) <= b'.start
    ensures b.start / size + |b.host| / size <= b'.start / size
  {
    var s, l, s' := b.start / size, |b.host| / size, b'.start / size;
    B.DivBounds(b.start, size);
    B.DivBounds(|b.host|, size);
    B.DivBounds(b'.start, size);
    assert (s + l) * size == s * size + l * size;
    if s' < s + l { B.MulStep(s', s + l, size); }
  }

  /** The blocks as the walk wants them. */
  lemma {:induction false} PagedIsOk(blocks: seq<L.Block>, size: nat)
    requires Aligned(blocks, size) && InOrder(blocks)
    ensures BlocksOk(PagedAll(blocks, size)) && Sorted(PagedAll(blocks, size))
  {
    var bs := PagedAll(blocks, size);
    forall k | 0 <= k < |bs| ensures bs[k].pages != [] { B.DivBounds(|blocks[k].host|, size); }
    forall i, j | 0 <= i < j < |bs| ensures bs[i].first + |bs[i].pages| <= bs[j].first {
      EndOfPages(blocks[i], size, blocks[j]);
    }
  }

  ghost predicate HasSize(b: Block, size: nat) {
    forall p | p in b.pages :: |p| == size
  }

  lemma {:induction false} PagedHasSize(b: L.Block, size: nat)
    requires size > 0
    ensures HasSize(Paged(b, size), size)
  {
  }

  lemma {:induction false} PageSizes(bs: seq<Block>, size: nat, k: nat, p: Page)
    requires k <= |bs| && p in PagesUpTo(bs, k) && forall i | 0 <= i < |bs| :: HasSize(bs[i], size)
    ensures |p| == size
  {
    assert HasSize(bs[k - 1], size);
    if p !in bs[k - 1].pages { PageSizes(bs, size, k - 1, p); }
  }

  // -------------------------------------------------------------------------------------------
  // The dump
  // -------------------------------------------------------------------------------------------

  /**
   The file has a descriptor number n, behind all descriptors it has the page p stored, and the descriptor says where.
   */
  ghost predicate PageIsStored(rs: seq<Record>, f: P.Format, base: nat, num: nat, n: nat, p: Page) {
    exists d: P.Desc {:trigger f.encode(d)} ::
      && Holds(rs, base + P.DESC_SIZE * n, f.encode(d))
      && Holds(rs, d.offset, P.StoredFor(f, p)) && d.size == |P.StoredFor(f, p)|
      && base + P.DESC_SIZE * num <= d.offset && (p == P.Zeros(f.size) ==> d.offset == base + P.DESC_SIZE * num)
  }

  /** Both copies of the bitmap say that page pfn exists. */
  ghost predicate IsMarked(rs: seq<Record>, a: B.Area, pfn: nat) {
    B.FileBit(rs, 8 * a.offset + pfn) == B.FileBit(rs, 8 * (a.offset + a.length) + pfn) == Some(true)
  }

  /** Page pfn of block k, the n-th page of the dump, is in both copies of the bitmap and in the page section. */
  ghost predicate PageIsThere(rs: seq<Record>, a: B.Area, f: P.Format, bs: seq<Block>, base: nat, num: nat,
                              k: nat, pfn: nat, n: nat)
  {
    At(bs, k, pfn, n) ==>
      && IsMarked(rs, a, pfn) && n < num && PageIsStored(rs, f, base, num, n, PageAt(bs, k, pfn))
  }

  /** Every page of every block is there. */
  ghost predicate AllAreThere(rs: seq<Record>, a: B.Area, f: P.Format, bs: seq<Block>, base: nat, num: nat) {
    forall k: nat, pfn: nat, n: nat {:trigger PageIsThere(rs, a, f, bs, base, num, k, pfn, n)} ::
      PageIsThere(rs, a, f, bs, base, num, k, pfn, n)
  }

  /** The length of a copy of the bitmap is what dump_init computes. */
  ghost predicate Reserved(a: B.Area, bs: seq<Block>)
    requires bs != []
  {
    a.size > 0 && a.length == a.size * B.DivUp(B.DivUp(B.Last(bs) + 1, 8), a.size)
  }

  /** The page section, whose offset create_header computes in blocks, is right behind both copies of the bitmap. */
  lemma {:induction false} PagesFollowBitmap(headers: nat, size: nat, m: nat)
    requires size > 0
    ensures 0 <= size * m && B.DivUp(size * m, size) == m
    ensures (headers + m * 2) * size == headers * size + 2 * (size * m)
  {
    MulLe(0, m, size);
    assert size * m == m * size;
    B.DivUnique(size * m + size - 1, size, m);
  }

  /**
   create_header, write_dump_bitmap and write_dump_pages, where headers is the number of blocks in front of the bitmap:
   every page of guest memory is there, and bits are set for these pages only.
   */
  method WriteDump(bitmap: B.BitmapWriter, f: P.Format, blocks: seq<L.Block>, headers: nat)
    returns (a: B.Area, base: nat)
    requires P.FormatOk(f) && Aligned(blocks, f.size) && InOrder(blocks)
    modifies bitmap, bitmap.file
    ensures a.size == f.size && a.offset == headers * f.size && base == a.offset + 2 * a.length
    ensures var bs := PagedAll(blocks, f.size);
      && bitmap.numDumpable == Total(bs) && B.HoldsBoth(bitmap.file.records, a, bs, 8 * a.length)
      && AllAreThere(bitmap.file.records, a, f, bs, base, bitmap.numDumpable)
  {
    var bs := PagedAll(blocks, f.size);
    PagedIsOk(blocks, f.size);
    var length := B.DivUp(B.DivUp(B.Last(bs) + 1, 8), f.size);
    PagesFollowBitmap(headers, f.size, length);
    MulLe(0, headers, f.size);
    a := B.Area(headers * f.size, f.size * length, f.size);
    base := (headers + B.DivUp(a.length, f.size) * 2) * f.size;
    WriteBoth(bitmap, a, f, bs, base) by {
      forall i | 0 <= i < |bs| ensures HasSize(bs[i], f.size) { PagedHasSize(blocks[i], f.size); }
      forall p | p in AllPages(bs) ensures |p| == f.size { PageSizes(bs, f.size, |bs|, p); }
    }
  }

  method WriteBoth(bitmap: B.BitmapWriter, a: B.Area, f: P.Format, bs: seq<Block>, base: nat)
    requires BlocksOk(bs) && Sorted(bs) && P.FormatOk(f) && (forall p | p in AllPages(bs) :: |p| == f.size)
    requires a.size == f.size && Reserved(a, bs) && base == a.offset + 2 * a.length
    modifies bitmap, bitmap.file
    ensures bitmap.numDumpable == Total(bs) && B.HoldsBoth(bitmap.file.records, a, bs, 8 * a.length)
    ensures AllAreThere(bitmap.file.records, a, f, bs, base, bitmap.numDumpable)
  {
    bitmap.WriteDumpBitmap(a, bs);
    ghost var rs := bitmap.file.records;
    P.WriteDumpPages(bitmap.file, f, bs, base, bitmap.numDumpable);
    BitmapsStay(rs, bitmap.file.records, a, bs, base);
    BothAreRight(bitmap.file.records, a, f, bs, base);
  }

  /** The page section does not touch the bitmap. */
  lemma {:induction false} BitmapsStay(rs: seq<Record>, rs': seq<Record>, a: B.Area, bs: seq<Block>, base: nat)
    requires B.HoldsBoth(rs, a, bs, 8 * a.length) && a.offset + 2 * a.length <= base && SameBelow(rs, rs', base)
    ensures B.HoldsBoth(rs', a, bs, 8 * a.length)
  {
    B.BitmapStays(rs, rs', a.offset, bs, 8 * a.length, base);
    B.BitmapStays(rs, rs', a.offset + a.length, bs, 8 * a.length, base);
  }

  /**
   Every byte of guest memory is in the dump: the bit of its page is set in both copies of the bitmap, and
   the descriptor of the page leads to what is stored for it.
   */
  lemma {:induction false} ByteIsDumped(rs: seq<Record>, a: B.Area, f: P.Format, blocks: seq<L.Block>, base: nat,
                                        num: nat, k: nat, addr: nat) returns (pfn: nat, n: nat, p: Page)
    requires Aligned(blocks, f.size) && AllAreThere(rs, a, f, PagedAll(blocks, f.size), base, num)
    requires k < |blocks| && blocks[k].start <= addr < L.End(blocks[k])
    ensures pfn == addr / f.size && IsMarked(rs, a, pfn) && n < num && PageIsStored(rs, f, base, num, n, p)
    ensures |p| == f.size && p[addr % f.size] == blocks[k].host[addr - blocks[k].start]
  {
    var bs := PagedAll(blocks, f.size);
    ByteOfPage(blocks[k], f.size, addr);
    pfn := addr / f.size;
    n := Count(bs, k) + (pfn - bs[k].first);
    p := PageAt(bs, k, pfn);
    assert PageIsThere(rs, a, f, bs, base, num, k, pfn, n);
  }

  lemma {:induction false} BothAreRight(rs: seq<Record>, a: B.Area, f: P.Format, bs: seq<Block>, base: nat)
    requires BlocksOk(bs) && Sorted(bs) && P.FormatOk(f) && Reserved(a, bs) && B.HoldsBoth(rs, a, bs, 8 * a.length)
    requires |AllPages(bs)| == Total(bs)
    requires Holds(rs, base, P.Descs(f, AllPages(bs), base + P.DESC_SIZE * Total(bs), |AllPages(bs)|))
    requires Holds(rs, base + P.DESC_SIZE * Total(bs), P.Data(f, AllPages(bs), |AllPages(bs)|))
    ensures AllAreThere(rs, a, f, bs, base, Total(bs))
  {
    forall k: nat, pfn: nat, n: nat ensures PageIsThere(rs, a, f, bs, base, Total(bs), k, pfn, n) {
      if At(bs, k, pfn, n) { PageIsRight(rs, a, f, bs, base, k, pfn, n); }
    }
  }

  lemma {:induction false} PageIsRight(rs: seq<Record>, a: B.Area, f: P.Format, bs: seq<Block>, base: nat, k: nat,
                                       pfn: nat, n: nat)
    requires BlocksOk(bs) && Sorted(bs) && P.FormatOk(f) && Reserved(a, bs) && B.HoldsBoth(rs, a, bs, 8 * a.length)
    requires |AllPages(bs)| == Total(bs) && At(bs, k, pfn, n)
    requires Holds(rs, base, P.Descs(f, AllPages(bs), base + P.DESC_SIZE * Total(bs), |AllPages(bs)|))
    requires Holds(rs, base + P.DESC_SIZE * Total(bs), P.Data(f, AllPages(bs), |AllPages(bs)|))
    ensures PageIsThere(rs, a, f, bs, base, Total(bs), k, pfn, n)
  {
    BitIsSet(rs, a, bs, k, pfn, n);
    PageInWalk(bs, k, pfn, n);
    PageIsFound(rs, f, AllPages(bs), base, n);
  }

  lemma {:induction false} PageInWalk(bs: seq<Block>, k: nat, pfn: nat, n: nat)
    requires At(bs, k, pfn, n)
    ensures n < |AllPages(bs)| && AllPages(bs)[n] == PageAt(bs, k, pfn)
  {
    PageOfWalk(bs, |bs|, k, pfn, n);
  }

  lemma {:induction false} PageIsFound(rs: seq<Record>, f: P.Format, ps: seq<Page>, base: nat, n: nat)
    requires P.FormatOk(f) && n < |ps| && Holds(rs, base, P.Descs(f, ps, base + P.DESC_SIZE * |ps|, |ps|))
    requires Holds(rs, base + P.DESC_SIZE * |ps|, P.Data(f, ps, |ps|))
    ensures PageIsStored(rs, f, base, |ps|, n, ps[n])
  {
    P.SectionIsRight(rs, f, ps, base, n);
    var d := P.DescOf(f, ps, base + P.DESC_SIZE * |ps|, n);
    assert Holds(rs, base + P.DESC_SIZE * n, f.encode(d));
  }

  lemma {:induction false} BitIsSet(rs: seq<Record>, a: B.Area, bs: seq<Block>, k: nat, pfn: nat, n: nat)
    requires BlocksOk(bs) && Sorted(bs) && Reserved(a, bs) && B.HoldsBoth(rs, a, bs, 8 * a.length)
    requires At(bs, k, pfn, n)
    ensures IsMarked(rs, a, pfn)
  {
    assert B.InBlocks(bs, pfn);
    AtIsBelowTotal(bs, k, pfn, n);
    var k', last := SomePage(bs, |bs|, Total(bs) - 1);
    B.WalkEnds(bs, k', last);
    B.LastIsReserved(last, a.size);
    assert B.BitIsRight(rs, a.offset, bs, pfn) && B.BitIsRight(rs, a.offset + a.length, bs, pfn);
  }
}
