/**
 The page section of a compressed guest memory dump of dump.c: descriptors and page data are written
 through two buffers, as records that say where in the file they belong.
 */
module DumpPages {
  import opened DumpWalk
  import opened FlatFile
  import opened Options

  // -------------------------------------------------------------------------------------------
  // What the section contains
  // -------------------------------------------------------------------------------------------

  /** A PageDescriptor */
  datatype Desc = Desc(offset: nat, size: nat, flags: nat)

  const DESC_SIZE: nat := 24

  /** The page size, the compression with its flag, and how a descriptor is laid out in bytes. */
  datatype Format = Format(size: nat, codec: nat, compress: Page -> Option<Bytes>, encode: Desc -> Bytes)

  ghost predicate FormatOk(f: Format) {
    f.size > 0 && DESC_SIZE <= 4 * f.size && forall d {:trigger f.encode(d)} :: |f.encode(d)| == DESC_SIZE
  }

  function Zeros(n: nat): Bytes {
    seq(n, _ => 0)
  }

  /** Compression is used only if it makes the page smaller. */
  predicate Smaller(f: Format, p: Page) {
    f.compress(p).Some? && |f.compress(p).value| < f.size
  }

  /** The bytes that are stored for a page that is not zero */
  function Stored(f: Format, p: Page): Bytes {
    if Smaller(f, p) then f.compress(p).value else p
  }

  function Flags(f: Format, p: Page): nat {
    if Smaller(f, p) then f.codec else 0
  }

  /** What page p adds to the page data */
  function Added(f: Format, p: Page): Bytes {
    if p == Zeros(f.size) then [] else Stored(f, p)
  }

  /** z, and then what each of the first n pages adds to it */
  function DataWith(add: Page -> Bytes, z: Bytes, ps: seq<Page>, n: nat): Bytes
    requires n <= |ps|
  {
    if n == 0 then z else DataWith(add, z, ps, n - 1) + add(ps[n - 1])
  }

  /** The page data of the first n pages: one zero page, then the other pages */
  function Data(f: Format, ps: seq<Page>, n: nat): Bytes
    requires n <= |ps|
  {
    DataWith(p => Added(f, p), Zeros(f.size), ps, n)
  }

  /** part is in all, from at on. */
  ghost predicate Within(all: Bytes, at: int, part: Bytes) {
    0 <= at && at + |part| <= |all| && forall x {:trigger part[x]} | 0 <= x < |part| :: part[x] == all[at + x]
  }

  /** Page data only grows at its end. */
  lemma {:induction false} StartIsWithin(add: Page -> Bytes, z: Bytes, ps: seq<Page>, n: nat)
    requires n <= |ps|
    ensures Within(DataWith(add, z, ps, n), 0, z)
  {
    if n > 0 { StartIsWithin(add, z, ps, n - 1); }
  }

  lemma {:induction false} PageIsWithin(add: Page -> Bytes, z: Bytes, ps: seq<Page>, i: nat, n: nat)
    requires i < n <= |ps|
    ensures Within(DataWith(add, z, ps, n), |DataWith(add, z, ps, i)|, add(ps[i]))
  {
    if i < n - 1 { PageIsWithin(add, z, ps, i, n - 1); }
  }

  /** The descriptor of page n, if the page data starts at base */
  function DescOf(f: Format, ps: seq<Page>, base: nat, n: nat): Desc
    requires n < |ps|
  {
    if ps[n] == Zeros(f.size) then Desc(base, f.size, 0)
    else Desc(base + |Data(f, ps, n)|, |Stored(f, ps[n])|, Flags(f, ps[n]))
  }

  function Descs(f: Format, ps: seq<Page>, base: nat, n: nat): Bytes
    requires n <= |ps|
  {
    if n == 0 then [] else Descs(f, ps, base, n - 1) + f.encode(DescOf(f, ps, base, n - 1))
  }

  lemma {:induction false} DescsLength(f: Format, ps: seq<Page>, base: nat, n: nat)
    requires FormatOk(f) && n <= |ps|
    ensures |Descs(f, ps, base, n)| == DESC_SIZE * n
  {
    if n > 0 {
      DescsLength(f, ps, base, n - 1);
      assert |f.encode(DescOf(f, ps, base, n - 1))| == DESC_SIZE;
    }
  }

  /** The i-th descriptor is at its place. */
  lemma {:induction false} DescsAt(f: Format, ps: seq<Page>, base: nat, n: nat, i: nat, x: nat)
    requires FormatOk(f) && i < n <= |ps| && x < DESC_SIZE
    ensures DESC_SIZE * i + x < |Descs(f, ps, base, n)| && |f.encode(DescOf(f, ps, base, i))| == DESC_SIZE
    ensures Descs(f, ps, base, n)[DESC_SIZE * i + x] == f.encode(DescOf(f, ps, base, i))[x]
  {
    DescsLength(f, ps, base, n - 1);
    assert |f.encode(DescOf(f, ps, base, n - 1))| == DESC_SIZE;
    if i < n - 1 { DescsAt(f, ps, base, n - 1, i, x); }
  }

  /** What is stored for a page */
  function StoredFor(f: Format, p: Page): Bytes {
    if p == Zeros(f.size) then Zeros(f.size) else Stored(f, p)
  }

  /** The descriptor of page i locates the bytes that are stored for it. */
  lemma {:induction false} DescLocates(f: Format, ps: seq<Page>, base: nat, i: nat)
    requires i < |ps|
    ensures var d := DescOf(f, ps, base, i);
      && Within(Data(f, ps, |ps|), d.offset - base, StoredFor(f, ps[i])) && d.size == |StoredFor(f, ps[i])|
      && (ps[i] == Zeros(f.size) ==> d.offset == base)
  {
    if ps[i] == Zeros(f.size) {
      StartIsWithin(p => Added(f, p), Zeros(f.size), ps, |ps|);
    } else {
      PageIsWithin(p => Added(f, p), Zeros(f.size), ps, i, |ps|);
    }
  }

  // -------------------------------------------------------------------------------------------
  // Writing in place
  // -------------------------------------------------------------------------------------------

  class DataCache {
    var offset: nat
    var buf: Bytes
    var bufSize: nat
    ghost var base: nat
    ghost var emitted: Bytes     // what has left the buffer

    /** prepare_data_cache */
    constructor (size: nat, offset: nat)
      ensures Valid([]) && base == offset && bufSize == 4 * size && Stream() == []
    {
      this.offset, buf, bufSize := offset, [], 4 * size;
      base, emitted := offset, [];
    }

    /** What has left the buffer is in the file, and the buffer goes right behind it. */
    ghost predicate Valid(rs: seq<Record>)
      reads this
    {
      offset == base + |emitted| && |buf| <= bufSize && Holds(rs, base, emitted)
    }

    ghost function Stream(): Bytes
      reads this
    {
      emitted + buf
    }

    /** write_cache */
    method WriteCache(file: DumpFile, data: Bytes, sync: bool)
      requires Valid(file.records) && |data| <= bufSize
      modifies this, file
      ensures Valid(file.records) && base == old(base) && bufSize == old(bufSize)
      ensures if sync then Stream() == old(Stream()) && buf == [] else Stream() == old(Stream()) + data
      ensures file.records == old(file.records) || file.records == old(file.records) + [Record(old(offset), old(buf))]
      ensures old(offset) == base + |old(emitted)| && |old(emitted)| + |old(buf)| <= |Stream()|
      ensures SameBelow(old(file.records), file.records, base)
    {
      if (!sync && |buf| + |data| > bufSize) || (sync && |buf| > 0) {
        HoldsMore(file.records, base, emitted, buf);
        WriteBehind(file.records, base, Record(offset, buf));
        file.WriteBuffer(offset, buf);
        emitted := emitted + buf;
        offset := offset + |buf|;
        buf := [];
        assert emitted + buf == emitted;
      }
      if !sync {
        assert emitted + (buf + data) == emitted + buf + data;
        buf := buf + data;
      }
    }
  }

  /** Both caches are in order, and what the first one has taken ends before the second one starts. */
  ghost predicate Apart(file: DumpFile, desc: DataCache, data: DataCache)
    reads file, desc, data
  {
    && desc != data && desc.Valid(file.records) && data.Valid(file.records)
    && desc.base + |desc.Stream()| <= data.base
  }

  /** write_cache on one of the two caches leaves the other one in order. */
  method WriteDesc(file: DumpFile, desc: DataCache, data: DataCache, bytes: Bytes, sync: bool)
    requires Apart(file, desc, data) && |bytes| <= desc.bufSize && desc.base + |desc.Stream()| + |bytes| <= data.base
    modifies file, desc
    ensures Apart(file, desc, data) && desc.base == old(desc.base) && desc.bufSize == old(desc.bufSize)
    ensures if sync then desc.Stream() == old(desc.Stream()) && desc.buf == []
      else desc.Stream() == old(desc.Stream()) + bytes
    ensures SameBelow(old(file.records), file.records, desc.base)
  {
    ghost var rs, r := file.records, Record(desc.offset, desc.buf);
    desc.WriteCache(file, bytes, sync);
    HoldsStill(rs, data.base, data.emitted, r);
  }

  method WriteData(file: DumpFile, desc: DataCache, data: DataCache, bytes: Bytes, sync: bool)
    requires Apart(file, desc, data) && |bytes| <= data.bufSize
    modifies file, data
    ensures Apart(file, desc, data) && data.base == old(data.base) && data.bufSize == old(data.bufSize)
    ensures if sync then data.Stream() == old(data.Stream()) && data.buf == []
      else data.Stream() == old(data.Stream()) + bytes
    ensures SameBelow(old(file.records), file.records, desc.base)
  {
    ghost var rs, r := file.records, Record(data.offset, data.buf);
    data.WriteCache(file, bytes, sync);
    HoldsStill(rs, desc.base, desc.emitted, r);
  }

  /** The caches hold the section of the first n pages, which starts at base with num descriptors to come. */
  ghost predicate Progress(file: DumpFile, desc: DataCache, data: DataCache, f: Format, ps: seq<Page>, base: nat,
                           num: nat, n: nat)
    reads file, desc, data
  {
    && n <= |ps| && Apart(file, desc, data) && desc.bufSize == data.bufSize == 4 * f.size
    && desc.base == base && data.base == base + DESC_SIZE * num
    && desc.Stream() == Descs(f, ps, data.base, n) && data.Stream() == Data(f, ps, n)
  }

  /** One iteration of write_dump_pages; offset is where the data of the next page goes. */
  method WritePage(file: DumpFile, desc: DataCache, data: DataCache, f: Format, p: Page, zero: Desc, offset: nat,
                   ghost ps: seq<Page>, ghost base: nat, ghost num: nat, ghost n: nat) returns (next: nat)
    requires FormatOk(f) && n < |ps| && n < num && ps[n] == p && |p| == f.size
    requires Progress(file, desc, data, f, ps, base, num, n)
    requires zero == Desc(data.base, f.size, 0) && offset == data.base + |Data(f, ps, n)|
    modifies file, desc, data
    ensures Progress(file, desc, data, f, ps, base, num, n + 1) && next == data.base + |Data(f, ps, n + 1)|
    ensures data.base == old(data.base) && SameBelow(old(file.records), file.records, base)
  {
    DescsLength(f, ps, data.base, n);
    next := offset;
    var d := zero;
    if p != Zeros(f.size) {
      var z := f.compress(p);
      var out := p;
      if z.Some? && |z.value| < f.size {
        out := z.value;
        d := Desc(offset, |out|, f.codec);
      } else {
        d := Desc(offset, |out|, 0);
      }
      WriteData(file, desc, data, out, false);
      next := offset + |out|;
    }
    assert d == DescOf(f, ps, data.base, n) && |f.encode(d)| == DESC_SIZE;
    WriteDesc(file, desc, data, f.encode(d), false);
  }

  /** The caches at the start of write_dump_pages, with the zero page that all zero pages share */
  method StartCaches(file: DumpFile, f: Format, base: nat, num: nat, ghost ps: seq<Page>)
    returns (desc: DataCache, data: DataCache)
    requires FormatOk(f)
    modifies file
    ensures fresh(desc) && fresh(data) && Progress(file, desc, data, f, ps, base, num, 0)
    ensures data.base == base + DESC_SIZE * num && SameBelow(old(file.records), file.records, base)
  {
    desc := new DataCache(f.size, base);
    data := new DataCache(f.size, base + DESC_SIZE * num);
    assert desc.Valid(file.records) && data.Valid(file.records);
    WriteData(file, desc, data, Zeros(f.size), false);
  }

  /** The loop of write_dump_pages */
  method WritePages(file: DumpFile, desc: DataCache, data: DataCache, f: Format, bs: seq<Block>, first: nat,
                    ghost ps: seq<Page>, ghost base: nat, ghost num: nat)
    requires FormatOk(f) && BlocksOk(bs) && IsWalk(bs, ps) && |ps| == num == Total(bs)
    requires (forall p | p in ps :: |p| == f.size)
    requires Progress(file, desc, data, f, ps, base, num, 0) && data.base == first
    modifies file, desc, data
    ensures Progress(file, desc, data, f, ps, base, num, num)
    ensures SameBelow(old(file.records), file.records, base)
  {
    var offset, zero := first + f.size, Desc(first, f.size, 0);
    ghost var n: nat := 0;
    var more, block, pfn, page := GetNextPage(bs, f.size, None, 0, n);
    while more
      invariant Progress(file, desc, data, f, ps, base, num, n) && data.base == first
      invariant offset == first + |Data(f, ps, n)| && SameBelow(old(file.records), file.records, base)
      invariant if more then n < num && block.Some? && At(bs, block.value, pfn, n)
        && page == PageAt(bs, block.value, pfn) else n == num
      decreases num - n, more
    {
      assert IsPage(bs, ps, block.value, pfn, n) && page in ps;
      offset := WritePage(file, desc, data, f, page, zero, offset, ps, base, num, n);
      n := n + 1;
      more, block, pfn, page := GetNextPage(bs, f.size, block, pfn, n);
    }
  }

  /**
   write_dump_pages.  If as many descriptors were counted as there are pages, then replaying the records gives a file
   with all descriptors in order, and behind them the page data; what is in front of them stays as it is.
   */
  method WriteDumpPages(file: DumpFile, f: Format, bs: seq<Block>, base: nat, num: nat)
    requires FormatOk(f) && BlocksOk(bs) && num == Total(bs) && forall p | p in AllPages(bs) :: |p| == f.size
    modifies file
    ensures |AllPages(bs)| == num
    ensures Holds(file.records, base, Descs(f, AllPages(bs), base + DESC_SIZE * num, |AllPages(bs)|))
    ensures Holds(file.records, base + DESC_SIZE * num, Data(f, AllPages(bs), |AllPages(bs)|))
    ensures SameBelow(old(file.records), file.records, base)
  {
    PagesCount(bs, |bs|);
    AllPagesAreWalk(bs);
    WriteSection(file, f, bs, base, num, AllPages(bs));
  }

  method WriteSection(file: DumpFile, f: Format, bs: seq<Block>, base: nat, num: nat, ghost ps: seq<Page>)
    requires FormatOk(f) && BlocksOk(bs) && IsWalk(bs, ps) && |ps| == num == Total(bs)
    requires (forall p | p in ps :: |p| == f.size)
    modifies file
    ensures Holds(file.records, base, Descs(f, ps, base + DESC_SIZE * num, |ps|))
    ensures Holds(file.records, base + DESC_SIZE * num, Data(f, ps, |ps|))
    ensures SameBelow(old(file.records), file.records, base)
  {
    var desc, data := StartCaches(file, f, base, num, ps);
    WritePages(file, desc, data, f, bs, base + DESC_SIZE * num, ps, base, num);
    WriteDesc(file, desc, data, [], true);
    WriteData(file, desc, data, [], true);
    assert desc.emitted + [] == desc.emitted && data.emitted + [] == data.emitted;
  }

  /** ps[n] is the n-th page of the walk. */
  ghost predicate IsPage(bs: seq<Block>, ps: seq<Page>, k: nat, pfn: nat, n: nat) {
    At(bs, k, pfn, n) ==> n < |ps| && ps[n] == PageAt(bs, k, pfn)
  }

  ghost predicate IsWalk(bs: seq<Block>, ps: seq<Page>) {
    forall k: nat, pfn: nat, n: nat {:trigger IsPage(bs, ps, k, pfn, n)} :: IsPage(bs, ps, k, pfn, n)
  }

  lemma {:induction false} AllPagesAreWalk(bs: seq<Block>)
    ensures IsWalk(bs, AllPages(bs))
  {
    forall k: nat, pfn: nat, n: nat ensures IsPage(bs, AllPages(bs), k, pfn, n) {
      if At(bs, k, pfn, n) { PageOfWalk(bs, |bs|, k, pfn, n); }
    }
  }

  /** The file that holds these streams has every page where its descriptor says; all zero pages are in one place. */
  lemma {:induction false} SectionIsRight(rs: seq<Record>, f: Format, ps: seq<Page>, base: nat, i: nat)
    requires FormatOk(f) && i < |ps|
    requires Holds(rs, base, Descs(f, ps, base + DESC_SIZE * |ps|, |ps|))
    requires Holds(rs, base + DESC_SIZE * |ps|, Data(f, ps, |ps|))
    ensures var d := DescOf(f, ps, base + DESC_SIZE * |ps|, i);
      && Holds(rs, base + DESC_SIZE * i, f.encode(d)) && Holds(rs, d.offset, StoredFor(f, ps[i]))
      && d.size == |StoredFor(f, ps[i])|
      && base + DESC_SIZE * |ps| <= d.offset && (ps[i] == Zeros(f.size) ==> d.offset == base + DESC_SIZE * |ps|)
  {
    var first := base + DESC_SIZE * |ps|;
    DescIsHeld(rs, f, ps, base, first, i);
    DescLocates(f, ps, first, i);
    HoldsPart(rs, first, Data(f, ps, |ps|), DescOf(f, ps, first, i).offset - first, StoredFor(f, ps[i]));
  }

  lemma {:induction false} DescIsHeld(rs: seq<Record>, f: Format, ps: seq<Page>, base: nat, first: nat, i: nat)
    requires FormatOk(f) && i < |ps| && Holds(rs, base, Descs(f, ps, first, |ps|))
    ensures Holds(rs, base + DESC_SIZE * i, f.encode(DescOf(f, ps, first, i)))
  {
    var e, all := f.encode(DescOf(f, ps, first, i)), Descs(f, ps, first, |ps|);
    assert |e| == DESC_SIZE;
    forall x | 0 <= x < |e| ensures FileAt(rs, base + DESC_SIZE * i + x) == Some(e[x]) {
      DescsAt(f, ps, first, |ps|, i, x);
      assert FileAt(rs, base + (DESC_SIZE * i + x)) == Some(all[DESC_SIZE * i + x]);
    }
  }

  lemma {:induction false} HoldsPart(rs: seq<Record>, first: nat, all: Bytes, at: int, part: Bytes)
    requires Holds(rs, first, all) && Within(all, at, part)
    ensures Holds(rs, first + at, part)
  {
    forall x | 0 <= x < |part| ensures FileAt(rs, first + at + x) == Some(part[x]) {
      assert FileAt(rs, first + (at + x)) == Some(all[at + x]);
    }
  }
}
