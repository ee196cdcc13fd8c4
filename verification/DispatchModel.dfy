/**
 The address-space dispatch of exec.c as a value: the page map, the section table and the
 subpage tables, with the lookups defined on them and what each registration does to them.
 */
module DispatchModel {
  import opened PhysTree

  /** TARGET_PAGE_SIZE of the i386 target. */
  const PAGE_SIZE: nat := 4096

  /** Addresses are 64 bits wide. */
  const ADDR_SPACE: nat := 0x1_0000_0000_0000_0000

  const PAGES: nat := 0x10_0000_0000_0000

  /** The sections that address_space_dispatch_new creates. */
  const FIXED_SECTIONS: nat := 4

  datatype Region = Unassigned | NotDirty | Rom | Watch | Subpage(id: nat) | Device(dev: nat)

  /** MemoryRegionSection: offset_within_address_space, size and offset_within_region. */
  datatype Section = Section(mr: Region, base: nat, size: nat, offset: nat)

  /** section_covers_addr, with the 64-bit arithmetic of range_covers_byte. */
  predicate Covers(s: Section, addr: nat) {
    s.size >= ADDR_SPACE || (s.base <= addr && addr <= (s.base + s.size - 1) % ADDR_SPACE)
  }

  /** A section as the memory core produces it: not empty and within the address space. */
  predicate WellFormed(s: Section) {
    s.size > 0 && s.base + s.size <= ADDR_SPACE
  }

  /** A section made of whole pages. */
  predicate Whole(s: Section) {
    WellFormed(s) && s.base % PAGE_SIZE == 0 && s.size % PAGE_SIZE == 0
  }

  /** Page i lies completely inside s. */
  predicate PageIn(i: nat, s: Section) {
    s.base <= i * PAGE_SIZE && i * PAGE_SIZE + PAGE_SIZE <= s.base + s.size
  }

  lemma {:induction false} CoversRange(s: Section, addr: nat)
    requires WellFormed(s) && addr < ADDR_SPACE
    ensures Covers(s, addr) <==> s.base <= addr < s.base + s.size
  {
  }

  /** A section of whole pages covers an address exactly if it contains the whole page. */
  lemma {:induction false} CoversPage(s: Section, addr: nat)
    requires Whole(s) && addr < ADDR_SPACE
    ensures Covers(s, addr) <==> PageIn(addr / PAGE_SIZE, s)
  {
    CoversRange(s, addr);
  }

  // -------------------------------------------------------------------------------------------
  // The dispatch and its lookups
  // -------------------------------------------------------------------------------------------

  datatype Dispatch = Dispatch(
    page: seq<nat>,              // the leaf that the walk of phys_page_find reaches
    leaves: set<nat>,            // the sections that have been entered into the page map
    sections: seq<Section>,
    subpages: seq<seq<nat>>      // sub_section of each subpage
  )

  /** phys_page_find: the walk followed by the range check. */
  ghost function Found(d: Dispatch, addr: nat): nat {
    if addr / PAGE_SIZE < |d.page| && d.page[addr / PAGE_SIZE] < |d.sections|
      && Covers(d.sections[d.page[addr / PAGE_SIZE]], addr)
    then d.page[addr / PAGE_SIZE]
    else PHYS_SECTION_UNASSIGNED
  }

  /** The section that a lookup ends at if it found s; resolve_subpage follows the subpage table. */
  function Final(d: Dispatch, s: nat, addr: nat): nat {
    if s < |d.sections| && d.sections[s].mr.Subpage? && d.sections[s].mr.id < |d.subpages|
       && addr % PAGE_SIZE < |d.subpages[d.sections[s].mr.id]|
    then d.subpages[d.sections[s].mr.id][addr % PAGE_SIZE]
    else s
  }

  ghost function Resolved(d: Dispatch, addr: nat): nat {
    Final(d, Found(d, addr), addr)
  }

  // -------------------------------------------------------------------------------------------
  // Invariants
  // -------------------------------------------------------------------------------------------

  predicate FixedOk(d: Dispatch) {
    && FIXED_SECTIONS <= |d.sections| <= PAGE_SIZE
    && d.sections[..4] == [Section(Unassigned, 0, ADDR_SPACE, 0), Section(NotDirty, 0, ADDR_SPACE, 0),
                           Section(Rom, 0, ADDR_SPACE, 0), Section(Watch, 0, ADDR_SPACE, 0)]
  }

  /** Registered sections are either entered into the page map or part of a page. */
  predicate SectionOk(d: Dispatch, s: nat)
    requires s < |d.sections|
  {
    var sec := d.sections[s];
    && WellFormed(sec)
    && (s in d.leaves ==> Whole(sec))
    && (s !in d.leaves ==> sec.size < PAGE_SIZE && sec.mr.Device?)
    && (sec.mr.Device? || (sec.mr.Subpage? && sec.size == PAGE_SIZE && sec.mr.id < |d.subpages|))
  }

  /** Every entry of the subpage table behind s is free or names a section that covers that byte. */
  predicate SubpageOk(d: Dispatch, s: nat)
    requires s < |d.sections|
  {
    var sec := d.sections[s];
    sec.mr.Subpage? && sec.mr.id < |d.subpages| ==>
      && |d.subpages[sec.mr.id]| == PAGE_SIZE
      && forall k | 0 <= k < PAGE_SIZE ::
           var x := d.subpages[sec.mr.id][k];
           x == PHYS_SECTION_UNASSIGNED
           || (FIXED_SECTIONS <= x < |d.sections| && d.sections[x].mr.Device? && Covers(d.sections[x], sec.base + k))
  }

  ghost predicate TableOk(d: Dispatch) {
    && FixedOk(d)
    && |d.page| == PAGES && (forall i | 0 <= i < PAGES :: d.page[i] == PHYS_SECTION_UNASSIGNED || d.page[i] in d.leaves)
    && (forall s | s in d.leaves :: FIXED_SECTIONS <= s < |d.sections|)
    && (forall s | FIXED_SECTIONS <= s < |d.sections| :: SectionOk(d, s) && SubpageOk(d, s))
    && (forall s, u | FIXED_SECTIONS <= s < |d.sections| && FIXED_SECTIONS <= u < |d.sections| ::
          d.sections[s].mr.Subpage? && d.sections[u].mr == d.sections[s].mr ==> s == u)
  }

  /** The pages mapped to a section are exactly the pages in its range. */
  ghost predicate Exact(d: Dispatch) {
    forall i: nat, s | i < |d.page| && s in d.leaves && s < |d.sections| :: d.page[i] == s <==> PageIn(i, d.sections[s])
  }

  /** phys_page_find returns a section exactly for the pages in its range. */
  ghost predicate FindsExactly(d: Dispatch) {
    forall addr: nat, s | addr < ADDR_SPACE && s in d.leaves && s < |d.sections| ::
      Found(d, addr) == s <==> PageIn(addr / PAGE_SIZE, d.sections[s])
  }

  /** The section found for addr stands for range r: same region, same offset in it. */
  predicate Matches(d: Dispatch, x: nat, r: Section) {
    x < |d.sections| && d.sections[x].mr == r.mr && d.sections[x].offset - d.sections[x].base == r.offset - r.base
  }

  ghost predicate Covered(ranges: seq<Section>, addr: nat) {
    exists j :: 0 <= j < |ranges| && Covers(ranges[j], addr)
  }

  /** The dispatch answers like the list of ranges. */
  ghost predicate Represents(d: Dispatch, ranges: seq<Section>) {
    && (forall addr: nat, j | addr < ADDR_SPACE && 0 <= j < |ranges| && Covers(ranges[j], addr) ::
      Matches(d, Resolved(d, addr), ranges[j]))
    && (forall addr: nat | addr < ADDR_SPACE && !Covered(ranges, addr) :: Resolved(d, addr) == PHYS_SECTION_UNASSIGNED)
  }

  ghost predicate HoldsByte(ranges: seq<Section>, i: nat) {
    exists addr: nat :: addr / PAGE_SIZE == i && Covered(ranges, addr)
  }

  /** Every mapped page holds a byte of some range. */
  ghost predicate NoIdlePage(d: Dispatch, ranges: seq<Section>) {
    forall i: nat {:trigger HoldsByte(ranges, i)} | i < PAGES && i < |d.page| && d.page[i] != PHYS_SECTION_UNASSIGNED ::
      HoldsByte(ranges, i)
  }

  ghost predicate Disjoint(r: Section, ranges: seq<Section>) {
    forall j, addr: nat | 0 <= j < |ranges| && addr < ADDR_SPACE && Covers(ranges[j], addr) :: !Covers(r, addr)
  }

  /** Before compaction, the walk alone already gives the right section. */
  lemma {:induction false} ExactFinds(d: Dispatch)
    requires TableOk(d) && Exact(d)
    ensures FindsExactly(d)
    ensures forall addr: nat | addr < ADDR_SPACE :: Found(d, addr) == d.page[addr / PAGE_SIZE]
  {
    forall addr: nat | addr < ADDR_SPACE ensures Found(d, addr) == d.page[addr / PAGE_SIZE] {
      var i := addr / PAGE_SIZE;
      var s := d.page[i];
      if s == PHYS_SECTION_UNASSIGNED {
        assert d.sections[0] == d.sections[..4][0];
      } else {
        assert SectionOk(d, s) && PageIn(i, d.sections[s]);
        CoversPage(d.sections[s], addr);
      }
    }
  }

  /**
   phys_page_compact may send unmapped pages to some section of the page map; the range check of
   phys_page_find undoes the damage, because a section's range is exactly the set of its pages.
   */
  lemma {:induction false} CompactionIsHarmless(d: Dispatch, page': seq<nat>)
    requires TableOk(d) && Exact(d)
    requires |page'| == PAGES
    requires forall i | 0 <= i < PAGES :: page'[i] == PHYS_SECTION_UNASSIGNED || page'[i] in d.leaves
    requires forall i: nat | i < PAGES :: page'[i] == d.page[i] || d.page[i] == PHYS_SECTION_UNASSIGNED
    ensures var d' := d.(page := page');
      TableOk(d') && FindsExactly(d') && forall addr: nat | addr < ADDR_SPACE :: Found(d', addr) == Found(d, addr)
  {
    var d' := d.(page := page');
    ExactFinds(d);
    forall s | FIXED_SECTIONS <= s < |d.sections| ensures SectionOk(d', s) && SubpageOk(d', s) {
      assert SectionOk(d, s) && SubpageOk(d, s);
    }
    forall addr: nat | addr < ADDR_SPACE ensures Found(d', addr) == Found(d, addr) {
      var i := addr / PAGE_SIZE;
      var s := page'[i];
      if s != d.page[i] && s != PHYS_SECTION_UNASSIGNED {
        assert SectionOk(d, s) && !PageIn(i, d.sections[s]);
        CoversPage(d.sections[s], addr);
      }
    }
  }

  /** What a dispatch represents depends on what phys_page_find returns, not on the page map. */
  lemma {:induction false} SameFinds(d: Dispatch, d': Dispatch, ranges: seq<Section>)
    requires Represents(d, ranges) && d'.sections == d.sections && d'.subpages == d.subpages
    requires forall addr: nat | addr < ADDR_SPACE :: Found(d', addr) == Found(d, addr)
    ensures Represents(d', ranges)
  {
    forall addr: nat | addr < ADDR_SPACE ensures Resolved(d', addr) == Resolved(d, addr) {}
  }

  // -------------------------------------------------------------------------------------------
  // Registration
  // -------------------------------------------------------------------------------------------

  /** phys_section_add followed by phys_page_set over the pages of the section. */
  ghost function MapPages(d: Dispatch, sec: Section): Dispatch {
    var n := |d.sections|;
    d.(page := seq(|d.page|, i requires 0 <= i < |d.page| => if PageIn(i, sec) then n else d.page[i]),
       leaves := d.leaves + {n},
       sections := d.sections + [sec])
  }

  lemma {:induction false} MapPagesOk(d: Dispatch, sec: Section)
    requires TableOk(d) && |d.sections| < PAGE_SIZE && Whole(sec)
    requires sec.mr.Device? || (sec.mr.Subpage? && sec.size == PAGE_SIZE && sec.mr.id < |d.subpages|)
    requires sec.mr.Subpage? ==> d.subpages[sec.mr.id] == seq(PAGE_SIZE, _ => PHYS_SECTION_UNASSIGNED)
    requires sec.mr.Subpage? ==> forall s | 0 <= s < |d.sections| :: d.sections[s].mr != sec.mr
    ensures TableOk(MapPages(d, sec))
  {
    var d' := MapPages(d, sec);
    assert d'.sections[..4] == d.sections[..4];
    forall s | FIXED_SECTIONS <= s < |d'.sections| ensures SectionOk(d', s) && SubpageOk(d', s) {
      if s < |d.sections| {
        assert SectionOk(d, s) && SubpageOk(d, s);
        assert d'.sections[s] == d.sections[s];
      }
    }
  }

  lemma {:induction false} MapPagesExact(d: Dispatch, sec: Section)
    requires TableOk(d) && Exact(d) && Whole(sec)
    requires forall i: nat | i < PAGES && PageIn(i, sec) :: d.page[i] == PHYS_SECTION_UNASSIGNED
    ensures Exact(MapPages(d, sec))
  {
    var d', n := MapPages(d, sec), |d.sections|;
    forall i: nat, s | i < PAGES && s in d'.leaves && s < |d'.sections|
      ensures d'.page[i] == s <==> PageIn(i, d'.sections[s])
    {
      if s != n {
        assert d'.sections[s] == d.sections[s];
        assert d.page[i] == s <==> PageIn(i, d.sections[s]);
      }
    }
  }

  /** Lookups change on the new pages only. */
  lemma {:induction false} MapPagesFound(d: Dispatch, sec: Section, addr: nat)
    requires TableOk(d) && Exact(d) && TableOk(MapPages(d, sec)) && Exact(MapPages(d, sec)) && Whole(sec)
    requires addr < ADDR_SPACE
    ensures Found(MapPages(d, sec), addr) == if Covers(sec, addr) then |d.sections| else Found(d, addr)
  {
    ExactFinds(d);
    ExactFinds(MapPages(d, sec));
    CoversPage(sec, addr);
  }

  /** A piece that has been registered answers for exactly its own addresses. */
  lemma {:induction false} PieceRepresented(d: Dispatch, d': Dispatch, ranges: seq<Section>, piece: Section)
    requires Represents(d, ranges) && Disjoint(piece, ranges)
    requires |d.sections| <= |d'.sections| && d'.sections[..|d.sections|] == d.sections && |d.sections| > 0
    requires forall addr: nat | addr < ADDR_SPACE && !Covers(piece, addr) :: Resolved(d', addr) == Resolved(d, addr)
    requires forall addr: nat | addr < ADDR_SPACE && Covers(piece, addr) :: Matches(d', Resolved(d', addr), piece)
    ensures Represents(d', ranges + [piece])
  {
    var ranges' := ranges + [piece];
    forall addr: nat, j | addr < ADDR_SPACE && 0 <= j < |ranges'| && Covers(ranges'[j], addr)
      ensures Matches(d', Resolved(d', addr), ranges'[j])
    {
      if j < |ranges| {
        assert Covers(ranges[j], addr) && Matches(d, Resolved(d, addr), ranges[j]);
        assert d'.sections[..|d.sections|][Resolved(d, addr)] == d'.sections[Resolved(d, addr)];
      }
    }
    forall addr: nat | addr < ADDR_SPACE && !Covered(ranges', addr)
      ensures Resolved(d', addr) == PHYS_SECTION_UNASSIGNED
    {
      assert ranges'[|ranges|] == piece;
      forall j | 0 <= j < |ranges| ensures !Covers(ranges[j], addr) { assert ranges'[j] == ranges[j]; }
    }
  }

  /** The pages of a range that is disjoint from the earlier ones are not mapped yet. */
  lemma {:induction false} PagesFree(d: Dispatch, ranges: seq<Section>, sec: Section)
    requires TableOk(d) && NoIdlePage(d, ranges) && Whole(sec) && Disjoint(sec, ranges)
    ensures forall i: nat | i < PAGES && PageIn(i, sec) :: d.page[i] == PHYS_SECTION_UNASSIGNED
  {
    forall i: nat | i < PAGES && PageIn(i, sec) ensures d.page[i] == PHYS_SECTION_UNASSIGNED {
      if d.page[i] != PHYS_SECTION_UNASSIGNED {
        assert HoldsByte(ranges, i);
        var addr: nat :| addr / PAGE_SIZE == i && Covered(ranges, addr);
        CoversRange(sec, addr);
      }
    }
  }

  /** register_multipage */
  lemma {:induction false} RegisterMultipage(d: Dispatch, ranges: seq<Section>, sec: Section)
    requires TableOk(d) && Exact(d) && Represents(d, ranges) && NoIdlePage(d, ranges)
    requires |d.sections| < PAGE_SIZE && Whole(sec) && sec.mr.Device? && Disjoint(sec, ranges)
    ensures var d' := MapPages(d, sec);
      TableOk(d') && Exact(d') && Represents(d', ranges + [sec]) && NoIdlePage(d', ranges + [sec])
  {
    var d' := MapPages(d, sec);
    PagesFree(d, ranges, sec);
    MapPagesOk(d, sec);
    MapPagesExact(d, sec);
    forall addr: nat | addr < ADDR_SPACE
      ensures Covers(sec, addr) ==> Matches(d', Resolved(d', addr), sec)
      ensures !Covers(sec, addr) ==> Resolved(d', addr) == Resolved(d, addr)
    {
      MapPagesFound(d, sec, addr);
      assert Found(d, addr) < |d.sections|;
      assert d'.sections[Found(d, addr)] == d.sections[Found(d, addr)];
    }
    PieceRepresented(d, d', ranges, sec);
    forall i: nat | i < PAGES && d'.page[i] != PHYS_SECTION_UNASSIGNED
      ensures HoldsByte(ranges + [sec], i)
    {
      if PageIn(i, sec) {
        CoversRange(sec, i * PAGE_SIZE);
        assert Covers((ranges + [sec])[|ranges|], i * PAGE_SIZE);
        assert (i * PAGE_SIZE) / PAGE_SIZE == i;
      } else {
        assert HoldsByte(ranges, i);
        var addr: nat :| addr / PAGE_SIZE == i && Covered(ranges, addr);
        CoveredMore(ranges, sec, addr);
      }
    }
  }

  lemma {:induction false} CoveredMore(ranges: seq<Section>, sec: Section, addr: nat)
    requires Covered(ranges, addr)
    ensures Covered(ranges + [sec], addr)
  {
    var j :| 0 <= j < |ranges| && Covers(ranges[j], addr);
    assert (ranges + [sec])[j] == ranges[j];
  }

  /** A section that lies within one page without filling it. */
  predicate Partial(s: Section) {
    s.size > 0 && s.size < PAGE_SIZE && s.base % PAGE_SIZE + s.size <= PAGE_SIZE && s.base + s.size <= ADDR_SPACE
  }

  /** subpage_init: a new table, all of it unassigned. */
  function WithTable(d: Dispatch): Dispatch {
    d.(subpages := d.subpages + [seq(PAGE_SIZE, _ => PHYS_SECTION_UNASSIGNED)])
  }

  /** A table that no section leads to yet changes no lookup. */
  lemma {:induction false} WithTableOk(d: Dispatch)
    requires TableOk(d) && Exact(d)
    ensures TableOk(WithTable(d)) && Exact(WithTable(d))
    ensures forall addr: nat :: Found(WithTable(d), addr) == Found(d, addr)
    ensures forall s | 0 <= s < |d.sections| :: d.sections[s].mr != Subpage(|d.subpages|)
  {
    var d1 := WithTable(d);
    forall s | FIXED_SECTIONS <= s < |d.sections| ensures SectionOk(d1, s) && SubpageOk(d1, s) {
      assert SectionOk(d, s) && SubpageOk(d, s);
    }
    forall s | 0 <= s < |d.sections| ensures d.sections[s].mr != Subpage(|d.subpages|) {
      if s >= 4 { assert SectionOk(d, s); } else { assert d.sections[s] == d.sections[..4][s]; }
    }
  }

  /** The new table and the page-sized section that leads to it. */
  ghost function NewSubpage(d: Dispatch, i: nat): Dispatch {
    MapPages(WithTable(d), Section(Subpage(|d.subpages|), i * PAGE_SIZE, PAGE_SIZE, 0))
  }

  lemma {:induction false} NewSubpageOk(d: Dispatch, i: nat)
    requires TableOk(d) && Exact(d) && |d.sections| < PAGE_SIZE && i < PAGES && d.page[i] == PHYS_SECTION_UNASSIGNED
    ensures TableOk(NewSubpage(d, i)) && Exact(NewSubpage(d, i))
    ensures forall addr: nat | addr < ADDR_SPACE :: Resolved(NewSubpage(d, i), addr) == Resolved(d, addr)
  {
    var d1 := WithTable(d);
    var sec := Section(Subpage(|d.subpages|), i * PAGE_SIZE, PAGE_SIZE, 0);
    var d' := MapPages(d1, sec);
    WithTableOk(d);
    MapPagesOk(d1, sec);
    MapPagesExact(d1, sec);
    ExactFinds(d);
    forall addr: nat | addr < ADDR_SPACE ensures Resolved(d', addr) == Resolved(d, addr) {
      MapPagesFound(d1, sec, addr);
      CoversPage(sec, addr);
      var f := Found(d, addr);
      assert f < |d.sections| && d'.sections[f] == d.sections[f];
      assert d.sections[0] == d.sections[..4][0];
      if f >= 4 { assert SectionOk(d, f) && SubpageOk(d, f); }
    }
  }

  /** subpage_register on a table that holds whole pages. */
  function FillSub(sub: seq<nat>, start: nat, end: nat, section: nat): (r: seq<nat>)
    ensures |r| == |sub| && forall k | 0 <= k < |sub| :: r[k] == if start <= k <= end then section else sub[k]
  {
    seq(|sub|, k requires 0 <= k < |sub| => if start <= k <= end then section else sub[k])
  }

  /** phys_section_add followed by subpage_register from byte lo of the page on. */
  function SetSub(d: Dispatch, id: nat, lo: nat, sec: Section): Dispatch
    requires id < |d.subpages| && sec.size > 0
  {
    d.(sections := d.sections + [sec],
       subpages := d.subpages[id := FillSub(d.subpages[id], lo, lo + sec.size - 1, |d.sections|)])
  }

  lemma {:induction false} SetSubOk(d: Dispatch, s: nat, sec: Section)
    requires TableOk(d) && Exact(d) && |d.sections| < PAGE_SIZE && FIXED_SECTIONS <= s < |d.sections|
    requires d.sections[s].mr.Subpage? && d.sections[s].mr.id < |d.subpages|
    requires Partial(sec) && sec.mr.Device? && d.sections[s].base == sec.base - sec.base % PAGE_SIZE
    ensures var d' := SetSub(d, d.sections[s].mr.id, sec.base % PAGE_SIZE, sec); TableOk(d') && Exact(d')
  {
    var id, lo := d.sections[s].mr.id, sec.base % PAGE_SIZE;
    var d' := SetSub(d, id, lo, sec);
    assert d'.sections[..4] == d.sections[..4];
    forall u | FIXED_SECTIONS <= u < |d'.sections| ensures SectionOk(d', u) && SubpageOk(d', u) {
      if u < |d.sections| {
        assert SectionOk(d, u) && SubpageOk(d, u) && d'.sections[u] == d.sections[u];
        if d.sections[u].mr == d.sections[s].mr {
          assert u == s;
          forall addr: nat | sec.base <= addr < sec.base + sec.size ensures Covers(sec, addr) {
            CoversRange(sec, addr);
          }
        }
      }
    }
    forall i: nat, u | i < PAGES && u in d'.leaves && u < |d'.sections|
      ensures d'.page[i] == u <==> PageIn(i, d'.sections[u])
    {
      assert u < |d.sections| && d'.sections[u] == d.sections[u];
    }
  }

  /** Lookups change on the bytes of the piece only, provided that its page leads to the subpage. */
  lemma {:induction false} SetSubResolved(d: Dispatch, s: nat, sec: Section, addr: nat)
    requires TableOk(d) && Exact(d) && FIXED_SECTIONS <= s < |d.sections| && s in d.leaves
    requires d.sections[s].mr.Subpage? && d.sections[s].mr.id < |d.subpages|
    requires Partial(sec) && sec.mr.Device? && d.sections[s].base == sec.base - sec.base % PAGE_SIZE
    requires addr < ADDR_SPACE
    ensures var d' := SetSub(d, d.sections[s].mr.id, sec.base % PAGE_SIZE, sec);
      Resolved(d', addr) == if Covers(sec, addr) then |d.sections| else Resolved(d, addr)
  {
    var id, lo := d.sections[s].mr.id, sec.base % PAGE_SIZE;
    var d' := SetSub(d, id, lo, sec);
    var f := Found(d, addr);
    ExactFinds(d);
    assert SectionOk(d, s) && SubpageOk(d, s);
    CoversRange(sec, addr);
    CoversPage(d.sections[s], addr);
    assert f < |d.sections| && d'.sections[f] == d.sections[f] && Found(d', addr) == f;
    assert Covers(sec, addr) ==> f == s;
    if f != s && d.sections[f].mr.Subpage? {
      assert d.sections[0] == d.sections[..4][0];
      assert d.sections[f].mr.id != id;
    }
  }

  /** An existing page entry is free or a subpage, as register_subpage asserts. */
  lemma {:induction false} SubpageExpected(d: Dispatch, ranges: seq<Section>, sec: Section)
    requires TableOk(d) && Exact(d) && Represents(d, ranges) && Disjoint(sec, ranges) && Partial(sec)
    ensures var s := Found(d, sec.base - sec.base % PAGE_SIZE);
      s < |d.sections| && (s == PHYS_SECTION_UNASSIGNED || (s in d.leaves && d.sections[s].mr.Subpage?))
      && (if s == PHYS_SECTION_UNASSIGNED then d.sections[s].mr.Unassigned? else d.sections[s].mr.Subpage?)
  {
    var s := Found(d, sec.base - sec.base % PAGE_SIZE);
    assert d.sections[..4][0] == d.sections[0];
    ExactFinds(d);
    assert (sec.base - sec.base % PAGE_SIZE) / PAGE_SIZE == sec.base / PAGE_SIZE;
    assert s == PHYS_SECTION_UNASSIGNED || SectionOk(d, s);
    CoversRange(sec, sec.base);
    assert !Covered(ranges, sec.base);
    assert Final(d, s, sec.base) == Resolved(d, sec.base) == PHYS_SECTION_UNASSIGNED;
  }

  /** Section s of d leads to the subpage of the piece's page, and lookups are as in d0. */
  ghost predicate Ready(d0: Dispatch, d: Dispatch, ranges: seq<Section>, s: nat, sec: Section) {
    && TableOk(d) && Exact(d) && FIXED_SECTIONS <= s < |d.sections| && s in d.leaves
    && d.sections[s].mr.Subpage? && d.sections[s].mr.id < |d.subpages|
    && Partial(sec) && sec.mr.Device? && Disjoint(sec, ranges) && d.sections[s].base == sec.base - sec.base % PAGE_SIZE
    && Represents(d0, ranges) && NoIdlePage(d0, ranges) && 0 < |d0.sections| <= |d.sections|
    && d.sections[..|d0.sections|] == d0.sections
    && (forall addr: nat | addr < ADDR_SPACE :: Resolved(d, addr) == Resolved(d0, addr))
    && |d0.page| == PAGES && (forall i | 0 <= i < PAGES && i != sec.base / PAGE_SIZE :: d.page[i] == d0.page[i])
  }

  lemma {:induction false} PageFree(d: Dispatch, base: nat)
    requires TableOk(d) && Exact(d) && base < ADDR_SPACE && Found(d, base) == PHYS_SECTION_UNASSIGNED
    ensures d.page[base / PAGE_SIZE] == PHYS_SECTION_UNASSIGNED
  {
    ExactFinds(d);
  }

  /** The first half of register_subpage when the page has no section yet. */
  lemma {:induction false} ReadyNew(d: Dispatch, ranges: seq<Section>, sec: Section)
    requires TableOk(d) && Exact(d) && Represents(d, ranges) && NoIdlePage(d, ranges) && |d.sections| < PAGE_SIZE
    requires Partial(sec) && sec.mr.Device? && Disjoint(sec, ranges)
    requires Found(d, sec.base - sec.base % PAGE_SIZE) == PHYS_SECTION_UNASSIGNED
    ensures Ready(d, NewSubpage(d, sec.base / PAGE_SIZE), ranges, |d.sections|, sec)
  {
    PageFree(d, sec.base - sec.base % PAGE_SIZE);
    NewSubpageOk(d, sec.base / PAGE_SIZE);
  }

  /** The first half of register_subpage when the page already has a subpage. */
  lemma {:induction false} ReadyExisting(d: Dispatch, ranges: seq<Section>, sec: Section)
    requires TableOk(d) && Exact(d) && Represents(d, ranges) && NoIdlePage(d, ranges)
    requires Partial(sec) && sec.mr.Device? && Disjoint(sec, ranges)
    requires Found(d, sec.base - sec.base % PAGE_SIZE) != PHYS_SECTION_UNASSIGNED
    ensures Ready(d, d, ranges, Found(d, sec.base - sec.base % PAGE_SIZE), sec)
  {
    var base := sec.base - sec.base % PAGE_SIZE;
    var s := Found(d, base);
    SubpageExpected(d, ranges, sec);
    ExactFinds(d);
    assert SectionOk(d, s) && PageIn(base / PAGE_SIZE, d.sections[s]);
  }

  /** The second half of register_subpage */
  lemma {:induction false} RegisterInSubpage(d0: Dispatch, d: Dispatch, ranges: seq<Section>, s: nat, sec: Section)
    requires Ready(d0, d, ranges, s, sec) && |d.sections| < PAGE_SIZE
    ensures var d' := SetSub(d, d.sections[s].mr.id, sec.base % PAGE_SIZE, sec);
      TableOk(d') && Exact(d') && Represents(d', ranges + [sec]) && NoIdlePage(d', ranges + [sec])
  {
    var d' := SetSub(d, d.sections[s].mr.id, sec.base % PAGE_SIZE, sec);
    SetSubOk(d, s, sec);
    forall addr: nat | addr < ADDR_SPACE
      ensures Covers(sec, addr) ==> Matches(d', Resolved(d', addr), sec)
      ensures !Covers(sec, addr) ==> Resolved(d', addr) == Resolved(d0, addr)
    {
      SetSubResolved(d, s, sec, addr);
    }
    assert d'.sections[..|d0.sections|] == d.sections[..|d0.sections|];
    PieceRepresented(d0, d', ranges, sec);
    forall i: nat | i < PAGES && d'.page[i] != PHYS_SECTION_UNASSIGNED
      ensures HoldsByte(ranges + [sec], i)
    {
      if i == sec.base / PAGE_SIZE {
        CoversRange(sec, sec.base);
        assert Covers((ranges + [sec])[|ranges|], sec.base);
      } else {
        assert HoldsByte(ranges, i);
        var addr: nat :| addr / PAGE_SIZE == i && Covered(ranges, addr);
        CoveredMore(ranges, sec, addr);
      }
    }
  }

  /** The first n bytes of a range, and the rest of it. */
  function Head(r: Section, n: nat): Section {
    r.(size := n)
  }

  function Rest(r: Section, n: nat): Section
    requires n <= r.size
  {
    r.(base := r.base + n, size := r.size - n, offset := r.offset + n)
  }

  lemma {:induction false} CutCovers(r: Section, n: nat, addr: nat)
    requires WellFormed(r) && 0 < n < r.size && addr < ADDR_SPACE
    ensures Covers(r, addr) <==> Covers(Head(r, n), addr) || Covers(Rest(r, n), addr)
    ensures !(Covers(Head(r, n), addr) && Covers(Rest(r, n), addr))
  {
    CoversRange(r, addr);
    CoversRange(Head(r, n), addr);
    CoversRange(Rest(r, n), addr);
  }

  lemma {:induction false} CutDisjoint(ranges: seq<Section>, r: Section, n: nat)
    requires WellFormed(r) && 0 < n < r.size && Disjoint(r, ranges)
    ensures Disjoint(Head(r, n), ranges) && Disjoint(Rest(r, n), ranges + [Head(r, n)])
  {
    var more := ranges + [Head(r, n)];
    forall j, addr: nat | 0 <= j < |ranges| && addr < ADDR_SPACE && Covers(ranges[j], addr)
      ensures !Covers(Head(r, n), addr)
    {
      CutCovers(r, n, addr);
    }
    forall j, addr: nat | 0 <= j < |more| && addr < ADDR_SPACE && Covers(more[j], addr)
      ensures !Covers(Rest(r, n), addr)
    {
      CutCovers(r, n, addr);
      if j < |ranges| { assert more[j] == ranges[j]; }
    }
  }

  /** Registering the two pieces of a range one after the other registers the range. */
  lemma {:induction false} CutJoined(d: Dispatch, ranges: seq<Section>, r: Section, n: nat)
    requires WellFormed(r) && 0 < n < r.size
    requires var cut := ranges + [Head(r, n)] + [Rest(r, n)]; Represents(d, cut) && NoIdlePage(d, cut)
    ensures Represents(d, ranges + [r]) && NoIdlePage(d, ranges + [r])
  {
    var cut, whole := ranges + [Head(r, n)] + [Rest(r, n)], ranges + [r];
    forall addr: nat, j | addr < ADDR_SPACE && 0 <= j < |whole| && Covers(whole[j], addr)
      ensures Matches(d, Resolved(d, addr), whole[j])
    {
      if j < |ranges| {
        assert cut[j] == ranges[j] == whole[j];
      } else {
        CutCovers(r, n, addr);
        assert Covers(cut[|ranges|], addr) || Covers(cut[|ranges| + 1], addr);
      }
    }
    forall addr: nat | addr < ADDR_SPACE && Covered(cut, addr) ensures Covered(whole, addr) {
      var j :| 0 <= j < |cut| && Covers(cut[j], addr);
      if j < |ranges| {
        assert whole[j] == cut[j];
      } else {
        CutCovers(r, n, addr);
        assert whole[|ranges|] == r;
      }
    }
    forall i: nat | i < PAGES && i < |d.page| && d.page[i] != PHYS_SECTION_UNASSIGNED ensures HoldsByte(whole, i) {
      assert HoldsByte(cut, i);
    }
  }
}
