/**
 AddressSpaceDispatch of exec.c: building a dispatch from flat ranges, compacting it and looking
 addresses up.
 */
module Dispatches {
  import opened PhysTree
  import opened PhysMap
  import opened DispatchCount
  import opened DispatchModel

  /** A failing assertion on the size of the section table; the process aborts. */
  datatype Outcome = Done | TableFull

  /** mru_section */
  datatype Mru = Nothing | Recent(section: nat)

  class AddressSpaceDispatch {
    const pages: PhysPageMap
    var sections: seq<Section>
    var subpages: seq<seq<nat>>
    var mru: Mru

    /** What phys_page_find reaches for each page */
    ghost function Pages(): seq<nat>
      reads pages
      requires pages.Valid()
    {
      seq(PAGES, i requires 0 <= i < PAGES && pages.Valid() reads pages => pages.Page(i))
    }

    ghost function D(): Dispatch
      reads this`sections, this`subpages, pages
      requires pages.Valid()
    {
      Dispatch(Pages(), pages.leaves, sections, subpages)
    }

    ghost predicate Valid()
      reads this, pages
    {
      && pages.Valid() && PAGES <= Span(pages.levels) && pages.levels <= 8 && |pages.nodes| <= 16 * |sections|
      && TableOk(D()) && FindsExactly(D())
      && (mru.Recent? ==> mru.section == PHYS_SECTION_UNASSIGNED || mru.section in pages.leaves)
    }

    /**
     Under construction: the ranges added so far are represented with exactly the sections that they need, and nothing
     has been compacted.
     */
    ghost predicate Building(ranges: seq<Section>)
      reads this, pages
    {
      Valid() && pages.Flat() && Built(D(), ranges)
    }

    /** address_space_dispatch_new */
    constructor ()
      ensures Building([]) && fresh(pages)
    {
      pages := new PhysPageMap(6);
      sections := [Section(Unassigned, 0, ADDR_SPACE, 0), Section(NotDirty, 0, ADDR_SPACE, 0),
                   Section(Rom, 0, ADDR_SPACE, 0), Section(Watch, 0, ADDR_SPACE, 0)];
      subpages, mru := [], Nothing;
      new;
      assert Span(6) == 512 * 512 * 512 * 512 * 512 * 512;
    }

    /** phys_section_add */
    method SectionAdd(sec: Section) returns (res: Outcome, n: nat)
      modifies this`sections
      ensures res == Done <==> old(|sections|) < PAGE_SIZE
      ensures res == Done ==> sections == old(sections) + [sec] && n == old(|sections|)
      ensures res == TableFull ==> sections == old(sections)
    {
      n := |sections|;
      if n >= PAGE_SIZE {
        return TableFull, n;
      }
      sections := sections + [sec];
      res := Done;
    }

    /** phys_page_find */
    method PhysPageFind(addr: nat) returns (s: nat)
      requires Valid() && addr < ADDR_SPACE
      ensures s == Found(D(), addr)
    {
      var ptr := pages.FindPage(addr / PAGE_SIZE);
      assert D().page[addr / PAGE_SIZE] == ptr;
      assert ptr == PHYS_SECTION_UNASSIGNED || ptr in D().leaves;
      if Covers(sections[ptr], addr) {
        s := ptr;
      } else {
        s := 0;
      }
    }

    /** phys_section_add and phys_page_set for a section of whole pages. */
    method AddPages(sec: Section, hint: nat) returns (res: Outcome, n: nat)
      requires Valid() && pages.Flat() && Whole(sec)
      requires forall i: nat | i < PAGES && PageIn(i, sec) :: D().page[i] == PHYS_SECTION_UNASSIGNED
      modifies this`sections, pages
      ensures res == Done <==> old(|sections|) < PAGE_SIZE
      ensures res == Done ==>
        pages.Valid() && pages.Flat() && D() == MapPages(old(D()), sec) && n == old(|sections|)
          && |pages.nodes| <= 16 * |sections|
    {
      res, n := SectionAdd(sec);
      if res == TableFull {
        return;
      }
      var first, count := sec.base / PAGE_SIZE, sec.size / PAGE_SIZE;
      forall i: nat | i < PAGES ensures PageIn(i, sec) <==> first <= i < first + count {}
      forall i: nat | first <= i < first + count ensures pages.Page(i) == PHYS_SECTION_UNASSIGNED {
        assert PageIn(i, sec) && old(D()).page[i] == old(pages.Page(i));
      }
      pages.PhysPageSet(first, count, n, hint);
      assert D().page == MapPages(old(D()), sec).page;
    }

    /** register_multipage */
    method RegisterMultipage(sec: Section, hint: nat, ghost ranges: seq<Section>) returns (res: Outcome)
      requires Building(ranges) && Whole(sec) && sec.mr.Device? && Disjoint(sec, ranges)
      modifies this`sections, pages
      ensures res == Done <==> Needed(ranges + [sec]) <= PAGE_SIZE
      ensures res == Done ==> Building(ranges + [sec])
    {
      WholeNeeds(ranges, sec);
      PagesFree(D(), ranges, sec);
      if |sections| < PAGE_SIZE { WholeBuilt(D(), ranges, sec); }
      var n;
      res, n := AddPages(sec, hint);
    }

    /** subpage_register */
    method SubpageRegister(id: nat, start: nat, end: nat, section: nat) returns (res: int)
      requires id < |subpages| && |subpages[id]| == PAGE_SIZE
      modifies this`subpages
      ensures res == if start >= PAGE_SIZE || end >= PAGE_SIZE then -1 else 0
      ensures subpages == if res < 0 then old(subpages)
        else old(subpages)[id := FillSub(old(subpages)[id], start, end, section)]
    {
      if start >= PAGE_SIZE || end >= PAGE_SIZE {
        return -1;
      }
      var idx := start;
      while idx <= end
        invariant start <= idx && (idx <= end + 1 || idx == start)
        invariant |subpages| == |old(subpages)| && |subpages[id]| == PAGE_SIZE
        invariant forall j | 0 <= j < |subpages| && j != id :: subpages[j] == old(subpages)[j]
        invariant forall k | 0 <= k < PAGE_SIZE ::
          subpages[id][k] == if start <= k < idx then section else old(subpages)[id][k]
      {
        var sub: seq<nat> := subpages[id];
        subpages := subpages[id := sub[idx := section]];
        idx := idx + 1;
      }
      assert subpages[id] == FillSub(old(subpages)[id], start, end, section);
      return 0;
    }

    /** subpage_init, and entering the page-sized section that leads to the new subpage. */
    method CreateSubpage(base: nat, hint: nat) returns (res: Outcome, n: nat, id: nat)
      requires Valid() && pages.Flat() && Exact(D()) && base < ADDR_SPACE && base % PAGE_SIZE == 0
      requires D().page[base / PAGE_SIZE] == PHYS_SECTION_UNASSIGNED
      modifies this`sections, this`subpages, pages
      ensures res == Done <==> old(|sections|) < PAGE_SIZE
      ensures res == Done ==>
        && pages.Valid() && pages.Flat() && D() == NewSubpage(old(D()), base / PAGE_SIZE)
        && |pages.nodes| <= 16 * |sections|
        && n == old(|sections|) && id == old(|subpages|)
    {
      id := AddTable();
      var sec := Section(Subpage(id), base, PAGE_SIZE, 0);
      forall i: nat | i < PAGES && PageIn(i, sec) ensures i == base / PAGE_SIZE {}
      res, n := AddPages(sec, hint);
    }

    /** The table of a new subpage, which no section leads to yet */
    method AddTable() returns (id: nat)
      requires Valid() && Exact(D())
      modifies this`subpages
      ensures Valid() && D() == WithTable(old(D())) && id == old(|subpages|)
    {
      WithTableOk(D());
      id := |subpages|;
      subpages := subpages + [seq(PAGE_SIZE, _ => PHYS_SECTION_UNASSIGNED)];
      assert D() == WithTable(old(D()));
      ExactFinds(D());
    }

    /** The first half of register_subpage: the subpage of the piece's page, created if there is none. */
    method FindSubpage(sec: Section, hint: nat, ghost ranges: seq<Section>)
      returns (res: Outcome, ghost s: nat, id: nat)
      requires Building(ranges) && Partial(sec) && sec.mr.Device? && Disjoint(sec, ranges)
      modifies this`sections, this`subpages, pages
      ensures res == TableFull ==> old(|sections|) >= PAGE_SIZE && sec.base / PAGE_SIZE !in SharedPages(ranges)
      ensures res == Done ==>
        && pages.Valid() && pages.Flat() && |pages.nodes| <= 16 * |sections| && old(pages.leaves) <= pages.leaves
        && Ready(old(D()), D(), ranges, s, sec) && sections[s].mr == Subpage(id)
        && |sections| == old(|sections|) + if sec.base / PAGE_SIZE in SharedPages(ranges) then 0 else 1
    {
      FoundForPiece(D(), ranges, sec);
      var base := sec.base - sec.base % PAGE_SIZE;
      var existing := PhysPageFind(base);
      s := existing;
      // The source asserts this.
      assert sections[existing].mr.Subpage? || sections[existing].mr.Unassigned?;
      if sections[existing].mr.Subpage? {
        ReadyExisting(D(), ranges, sec);
        return Done, existing, sections[existing].mr.id;
      }
      res, s, id := NewSubpageFor(sec, base, hint, ranges);
    }

    /** register_subpage on a page without a section */
    method NewSubpageFor(sec: Section, base: nat, hint: nat, ghost ranges: seq<Section>)
      returns (res: Outcome, ghost s: nat, id: nat)
      requires Building(ranges) && Partial(sec) && sec.mr.Device? && Disjoint(sec, ranges)
      requires base == sec.base - sec.base % PAGE_SIZE && Found(D(), base) == PHYS_SECTION_UNASSIGNED
      modifies this`sections, this`subpages, pages
      ensures res == TableFull ==> old(|sections|) >= PAGE_SIZE
      ensures res == Done ==>
        && pages.Valid() && pages.Flat() && |pages.nodes| <= 16 * |sections| && old(pages.leaves) <= pages.leaves
        && Ready(old(D()), D(), ranges, s, sec) && sections[s].mr == Subpage(id) && |sections| == old(|sections|) + 1
    {
      PageFree(D(), base);
      if |sections| < PAGE_SIZE { ReadyNew(D(), ranges, sec); }
      var n;
      res, n, id := CreateSubpage(base, hint);
      s := n;
    }

    /** register_subpage */
    method RegisterSubpage(sec: Section, hint: nat, ghost ranges: seq<Section>) returns (res: Outcome)
      requires Building(ranges) && Partial(sec) && sec.mr.Device? && Disjoint(sec, ranges)
      modifies this`sections, this`subpages, pages
      ensures res == Done <==> Needed(ranges + [sec]) <= PAGE_SIZE
      ensures res == Done ==> Building(ranges + [sec])
    {
      PartialNeeds(ranges, sec);
      ghost var d0 := D();
      var id;
      ghost var s;
      res, s, id := FindSubpage(sec, hint, ranges);
      if res == Done {
        res := FillSubpage(sec, id, ranges, d0, s);
      }
    }

    /** The second half of register_subpage: the piece goes into the table of its page. */
    method FillSubpage(sec: Section, id: nat, ghost ranges: seq<Section>, ghost d0: Dispatch, ghost s: nat)
      returns (res: Outcome)
      requires pages.Valid() && pages.Flat() && PAGES <= Span(pages.levels) && pages.levels <= 8
      requires |pages.nodes| <= 16 * |sections| && AllDevices(ranges) && |sections| + 1 == Needed(ranges + [sec])
      requires Ready(d0, D(), ranges, s, sec) && sections[s].mr == Subpage(id)
      requires mru.Recent? ==> mru.section == PHYS_SECTION_UNASSIGNED || mru.section in pages.leaves
      modifies this`sections, this`subpages
      ensures res == Done <==> Needed(ranges + [sec]) <= PAGE_SIZE
      ensures res == Done ==> Building(ranges + [sec])
    {
      ghost var d1 := D();
      assert SubpageOk(d1, s);
      var x;
      res, x := SectionAdd(sec);
      if res == TableFull {
        return;
      }
      var start := sec.base % PAGE_SIZE;
      var r := SubpageRegister(id, start, start + sec.size - 1, x);
      assert D() == SetSub(d1, id, start, sec);
      PieceBuilt(d0, d1, ranges, s, sec);
    }

    /** The whole pages of a range, and then the rest of it in its last page */
    method AddWithTail(sec: Section, n: nat, hint: nat, ghost ranges: seq<Section>) returns (res: Outcome)
      requires Building(ranges) && WellFormed(sec) && sec.mr.Device? && Disjoint(sec, ranges)
      requires 0 < n < sec.size && Whole(Head(sec, n)) && Partial(Rest(sec, n))
      modifies this`sections, this`subpages, pages
      ensures res == Done <==> Needed(ranges + [sec]) <= PAGE_SIZE
      ensures res == Done ==> Building(ranges + [sec])
    {
      CutDisjoint(ranges, sec, n);
      CutNeeds(ranges, sec, n);
      var head, rest := Head(sec, n), Rest(sec, n);
      res := RegisterMultipage(head, hint, ranges);
      if res == Done {
        res := RegisterSubpage(rest, hint, ranges + [head]);
        if res == Done { CutBuilt(D(), ranges, sec, n); }
      }
    }

    /** flatview_add_to_dispatch from the whole pages on: sec starts at a page boundary. */
    method AddFromPage(sec: Section, hint: nat, ghost ranges: seq<Section>) returns (res: Outcome)
      requires Building(ranges) && WellFormed(sec) && sec.base % PAGE_SIZE == 0 && sec.mr.Device?
      requires Disjoint(sec, ranges)
      modifies this`sections, this`subpages, pages
      ensures res == Done <==> Needed(ranges + [sec]) <= PAGE_SIZE
      ensures res == Done ==> Building(ranges + [sec])
    {
      if sec.size < PAGE_SIZE {
        res := RegisterSubpage(sec, hint, ranges);
        return;
      }
      var n := sec.size - sec.size % PAGE_SIZE;
      if n == sec.size {
        res := RegisterMultipage(sec, hint, ranges);
      } else {
        res := AddWithTail(sec, n, hint, ranges);
      }
    }

    /** The part of a range in its first page, and then the rest of it */
    method AddWithHead(sec: Section, n: nat, hint: nat, ghost ranges: seq<Section>) returns (res: Outcome)
      requires Building(ranges) && WellFormed(sec) && sec.mr.Device? && Disjoint(sec, ranges)
      requires 0 < n < sec.size && Partial(Head(sec, n)) && (sec.base + n) % PAGE_SIZE == 0
      modifies this`sections, this`subpages, pages
      ensures res == Done <==> Needed(ranges + [sec]) <= PAGE_SIZE
      ensures res == Done ==> Building(ranges + [sec])
    {
      CutDisjoint(ranges, sec, n);
      CutNeeds(ranges, sec, n);
      var head, rest := Head(sec, n), Rest(sec, n);
      res := RegisterSubpage(head, hint, ranges);
      if res == Done {
        res := AddFromPage(rest, hint, ranges + [head]);
        if res == Done { CutBuilt(D(), ranges, sec, n); }
      }
    }

    /** flatview_add_to_dispatch */
    method AddToDispatch(sec: Section, hint: nat, ghost ranges: seq<Section>) returns (res: Outcome)
      requires Building(ranges) && WellFormed(sec) && sec.mr.Device? && Disjoint(sec, ranges)
      modifies this`sections, this`subpages, pages
      ensures res == Done <==> Needed(ranges + [sec]) <= PAGE_SIZE
      ensures res == Done ==> Building(ranges + [sec])
    {
      var over := sec.base % PAGE_SIZE;
      if over == 0 {
        res := AddFromPage(sec, hint, ranges);
        return;
      }
      var left := PAGE_SIZE - over;
      if sec.size <= left {
        res := RegisterSubpage(sec, hint, ranges);
      } else {
        res := AddWithHead(sec, left, hint, ranges);
      }
    }

    /** address_space_dispatch_compact */
    method Compact(ghost ranges: seq<Section>)
      requires Building(ranges)
      modifies pages
      ensures Valid() && Represents(D(), ranges)
    {
      ghost var d := D();
      pages.CompactAll();
      forall i: nat | i < PAGES ensures D().page[i] == PHYS_SECTION_UNASSIGNED || D().page[i] in pages.leaves {
        WalkLeaf(pages.T(), pages.root, pages.Top(), i);
      }
      assert D() == d.(page := D().page);
      CompactionIsHarmless(d, D().page);
      SameFinds(d, D(), ranges);
    }

    /** address_space_lookup_region */
    method LookupRegion(addr: nat, resolveSubpage: bool) returns (s: nat)
      requires Valid() && addr < ADDR_SPACE
      modifies this`mru
      ensures Valid()
      ensures s == if resolveSubpage then Resolved(D(), addr) else Found(D(), addr)
    {
      ghost var d := D();
      if mru == Nothing || mru.section == PHYS_SECTION_UNASSIGNED || !Covers(sections[mru.section], addr) {
        s := PhysPageFind(addr);
        mru := Recent(s);
      } else {
        s := mru.section;
        assert SectionOk(d, s);
        CoversPage(sections[s], addr);
      }
      if resolveSubpage && sections[s].mr.Subpage? {
        assert d.sections[..4][0] == d.sections[0];
        assert SectionOk(d, s) && SubpageOk(d, s);
        s := subpages[sections[s].mr.id][addr % PAGE_SIZE];
      }
    }

    /** One iteration of the loop of generate_memory_topology */
    method AddNext(ranges: seq<Section>, j: nat, hint: nat) returns (res: Outcome)
      requires j < |ranges| && Building(ranges[..j]) && FlatRanges(ranges)
      modifies this`sections, this`subpages, pages
      ensures if res == Done then Building(ranges[..j + 1]) else Needed(ranges) > PAGE_SIZE
    {
      PrefixNeeds(ranges, j);
      res := AddToDispatch(ranges[j], hint, ranges[..j]);
    }

    /** The loop */
    method AddRanges(ranges: seq<Section>, hint: nat) returns (res: Outcome)
      requires Building([]) && FlatRanges(ranges)
      modifies this`sections, this`subpages, pages
      ensures res == Done <==> Needed(ranges) <= PAGE_SIZE
      ensures res == Done ==> Building(ranges)
    {
      res := Done;
      var j := 0;
      assert ranges[..0] == [];
      while j < |ranges|
        invariant 0 <= j <= |ranges| && res == Done && Building(ranges[..j])
      {
        res := AddNext(ranges, j, hint);
        if res == TableFull {
          return;
        }
        j := j + 1;
      }
      assert ranges[..j] == ranges;
    }
  }

  /** What render_memory_region produces: ranges of devices, no two of which share an address. */
  ghost predicate FlatRanges(ranges: seq<Section>) {
    forall j | 0 <= j < |ranges| :: WellFormed(ranges[j]) && ranges[j].mr.Device? && Disjoint(ranges[j], ranges[..j])
  }

  /** The dispatch that generate_memory_topology builds for a list of disjoint ranges. */
  method BuildDispatch(ranges: seq<Section>, hint: nat) returns (res: Outcome, d: AddressSpaceDispatch)
    requires FlatRanges(ranges)
    ensures res == Done <==> Needed(ranges) <= PAGE_SIZE
    ensures res == Done ==> fresh(d) && d.Valid() && Represents(d.D(), ranges)
  {
    d := new AddressSpaceDispatch();
    res := d.AddRanges(ranges, hint);
    if res == Done {
      d.Compact(ranges);
    }
  }

  /** Section sec is the right answer for addr: the region and the offset of the range that holds it, or unassigned. */
  ghost predicate Translates(ranges: seq<Section>, addr: nat, sec: Section) {
    && (forall j | 0 <= j < |ranges| && Covers(ranges[j], addr) ::
          sec.mr == ranges[j].mr && sec.offset + (addr - sec.base) == ranges[j].offset + (addr - ranges[j].base))
    && (!Covered(ranges, addr) ==> sec.mr == Unassigned)
  }

  /** One lookup with resolve_subpage, whatever section was found before */
  method Lookup(d: AddressSpaceDispatch, addr: nat, ghost ranges: seq<Section>) returns (sec: Section)
    requires d.Valid() && Represents(d.D(), ranges) && addr < ADDR_SPACE
    modifies d`mru
    ensures d.Valid() && d.D() == old(d.D()) && Translates(ranges, addr, sec)
  {
    var s := d.LookupRegion(addr, true);
    assert d.D().sections[..4][0] == d.D().sections[0];
    ghost var covered := Covered(ranges, addr);
    assert !covered ==> s == PHYS_SECTION_UNASSIGNED;
    if j :| 0 <= j < |ranges| && Covers(ranges[j], addr) { assert Matches(d.D(), s, ranges[j]); }
    sec := d.sections[s];
  }

  /** From the list of ranges to the answers: any addresses, looked up in any order, get the right sections. */
  method LookupAll(ranges: seq<Section>, hint: nat, addrs: seq<nat>) returns (res: Outcome, found: seq<Section>)
    requires FlatRanges(ranges) && forall k | 0 <= k < |addrs| :: addrs[k] < ADDR_SPACE
    ensures res == Done <==> Needed(ranges) <= PAGE_SIZE
    ensures res == Done ==> |found| == |addrs| && forall k | 0 <= k < |addrs| :: Translates(ranges, addrs[k], found[k])
  {
    var d;
    res, d := BuildDispatch(ranges, hint);
    found := [];
    if res == TableFull {
      return;
    }
    while |found| < |addrs|
      invariant |found| <= |addrs| && d.Valid() && Represents(d.D(), ranges)
      invariant forall k | 0 <= k < |found| :: Translates(ranges, addrs[k], found[k])
    {
      var sec := Lookup(d, addrs[|found|], ranges);
      found := found + [sec];
    }
  }
}
