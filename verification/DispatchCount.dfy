/**
 How many sections the dispatch of exec.c needs for a list of ranges.  A range takes one section for its whole pages and
 one for each page that it shares, and every shared page takes one more for its subpage.
 */
module DispatchCount {
  import opened DispatchModel
  import opened PhysTree

  /** The range has a byte in page i. */
  predicate Touches(i: nat, r: Section) {
    r.base < i * PAGE_SIZE + PAGE_SIZE && i * PAGE_SIZE < r.base + r.size
  }

  ghost predicate HasWholePage(r: Section) {
    exists i: nat :: PageIn(i, r)
  }

  /** The pages that a range has a part of, which can only be its first and its last one */
  function PartPages(r: Section): set<nat> {
    var last := (r.base + r.size) / PAGE_SIZE;
    (if r.base % PAGE_SIZE != 0 then {r.base / PAGE_SIZE} else {}) +
    (if (r.base + r.size) % PAGE_SIZE != 0 && !PageIn(last, r) then {last} else {})
  }

  lemma {:induction false} PartPagesAre(r: Section, i: nat)
    requires WellFormed(r)
    ensures i in PartPages(r) <==> Touches(i, r) && !PageIn(i, r)
  {
  }

  ghost function EntriesOf(r: Section): nat {
    |PartPages(r)| + if HasWholePage(r) then 1 else 0
  }

  ghost function Entries(ranges: seq<Section>): nat {
    if ranges == [] then 0 else Entries(ranges[..|ranges| - 1]) + EntriesOf(ranges[|ranges| - 1])
  }

  /** The pages that get a subpage */
  function SharedPages(ranges: seq<Section>): set<nat> {
    if ranges == [] then {} else SharedPages(ranges[..|ranges| - 1]) + PartPages(ranges[|ranges| - 1])
  }

  ghost function Needed(ranges: seq<Section>): nat {
    FIXED_SECTIONS + Entries(ranges) + |SharedPages(ranges)|
  }

  lemma {:induction false} OneMore(ranges: seq<Section>, r: Section)
    ensures Entries(ranges + [r]) == Entries(ranges) + EntriesOf(r)
    ensures SharedPages(ranges + [r]) == SharedPages(ranges) + PartPages(r)
  {
    assert (ranges + [r])[..|ranges|] == ranges;
  }

  lemma {:induction false} SubsetSize<T>(a: set<T>, b: set<T>)
    requires a <= b
    ensures |a| <= |b|
  {
    assert b == a + (b - a);
  }

  lemma {:induction false} NeededGrows(ranges: seq<Section>, n: nat)
    requires n <= |ranges|
    ensures Needed(ranges[..n]) <= Needed(ranges) && SharedPages(ranges[..n]) <= SharedPages(ranges)
  {
    if n < |ranges| {
      var front := ranges[..|ranges| - 1];
      assert front[..n] == ranges[..n];
      NeededGrows(front, n);
      SubsetSize(SharedPages(front), SharedPages(ranges));
    } else {
      assert ranges[..n] == ranges;
    }
  }

  lemma {:induction false} HeadNeeds(ranges: seq<Section>, h: Section, t: Section)
    ensures Needed(ranges + [h]) <= Needed(ranges + [h] + [t])
  {
    NeededGrows(ranges + [h] + [t], |ranges| + 1);
    assert (ranges + [h] + [t])[..|ranges| + 1] == ranges + [h];
  }

  lemma {:induction false} PrefixNeeds(ranges: seq<Section>, j: nat)
    requires j < |ranges|
    ensures ranges[..j + 1] == ranges[..j] + [ranges[j]] && Needed(ranges[..j + 1]) <= Needed(ranges)
  {
    NeededGrows(ranges, j + 1);
  }

  /** Whole pages need one section. */
  lemma {:induction false} WholeNeeds(ranges: seq<Section>, r: Section)
    requires Whole(r)
    ensures Needed(ranges + [r]) == Needed(ranges) + 1
  {
    assert PageIn(r.base / PAGE_SIZE, r);
    assert PartPages(r) == {};
    OneMore(ranges, r);
  }

  lemma {:induction false} PartialPages(r: Section)
    requires Partial(r)
    ensures PartPages(r) == {r.base / PAGE_SIZE} && !HasWholePage(r)
  {
    forall i: nat ensures i in PartPages(r) <==> i == r.base / PAGE_SIZE { PartPagesAre(r, i); }
  }

  /** A part of a page needs one section, and one more if it is the first part of its page. */
  lemma {:induction false} PartialNeeds(ranges: seq<Section>, r: Section)
    requires Partial(r)
    ensures Needed(ranges + [r]) == Needed(ranges) + if r.base / PAGE_SIZE in SharedPages(ranges) then 1 else 2
  {
    PartialPages(r);
    OneMore(ranges, r);
    if r.base / PAGE_SIZE in SharedPages(ranges) {
      assert SharedPages(ranges) + PartPages(r) == SharedPages(ranges);
    }
  }

  /** A cut at a page boundary makes no difference if one of the pieces is a part of a page. */
  lemma {:induction false} CutNeeds(ranges: seq<Section>, r: Section, n: nat)
    requires WellFormed(r) && 0 < n < r.size && (r.base + n) % PAGE_SIZE == 0
    requires Partial(Head(r, n)) || Partial(Rest(r, n))
    ensures Needed(ranges + [Head(r, n)]) <= Needed(ranges + [Head(r, n)] + [Rest(r, n)]) == Needed(ranges + [r])
  {
    var h, t := Head(r, n), Rest(r, n);
    CutPages(r, n);
    CutWhole(r, n);
    OneMore(ranges, r);
    OneMore(ranges, h);
    OneMore(ranges + [h], t);
    HeadNeeds(ranges, h, t);
    assert SharedPages(ranges) + PartPages(h) + PartPages(t) == SharedPages(ranges) + PartPages(r);
  }

  lemma {:induction false} CutPages(r: Section, n: nat)
    requires WellFormed(r) && 0 < n < r.size && (r.base + n) % PAGE_SIZE == 0
    ensures PartPages(r) == PartPages(Head(r, n)) + PartPages(Rest(r, n))
    ensures PartPages(Head(r, n)) !! PartPages(Rest(r, n))
  {
    forall i: nat
      ensures i in PartPages(r) <==> i in PartPages(Head(r, n)) || i in PartPages(Rest(r, n))
      ensures !(i in PartPages(Head(r, n)) && i in PartPages(Rest(r, n)))
    {
      PartPagesAre(r, i);
      PartPagesAre(Head(r, n), i);
      PartPagesAre(Rest(r, n), i);
    }
  }

  lemma {:induction false} CutWhole(r: Section, n: nat)
    requires WellFormed(r) && 0 < n < r.size && (r.base + n) % PAGE_SIZE == 0
    requires Partial(Head(r, n)) || Partial(Rest(r, n))
    ensures HasWholePage(r) <==> HasWholePage(Head(r, n)) || HasWholePage(Rest(r, n))
    ensures !(HasWholePage(Head(r, n)) && HasWholePage(Rest(r, n)))
  {
    forall i: nat ensures PageIn(i, r) <==> PageIn(i, Head(r, n)) || PageIn(i, Rest(r, n)) {}
    if Partial(Head(r, n)) { PartialPages(Head(r, n)); } else { PartialPages(Rest(r, n)); }
  }

  ghost predicate AllDevices(ranges: seq<Section>) {
    forall j | 0 <= j < |ranges| :: WellFormed(ranges[j]) && ranges[j].mr.Device?
  }

  /** The dispatch represents the ranges, with exactly the sections that they need. */
  ghost predicate Built(d: Dispatch, ranges: seq<Section>) {
    && Exact(d) && Represents(d, ranges) && NoIdlePage(d, ranges)
    && AllDevices(ranges) && |d.sections| == Needed(ranges)
  }

  /** register_multipage */
  lemma {:induction false} WholeBuilt(d: Dispatch, ranges: seq<Section>, sec: Section)
    requires TableOk(d) && Built(d, ranges) && |d.sections| < PAGE_SIZE
    requires Whole(sec) && sec.mr.Device? && Disjoint(sec, ranges)
    ensures var d' := MapPages(d, sec); TableOk(d') && FindsExactly(d') && Built(d', ranges + [sec])
  {
    RegisterMultipage(d, ranges, sec);
    WholeNeeds(ranges, sec);
    ExactFinds(MapPages(d, sec));
  }

  /** The second half of register_subpage */
  lemma {:induction false} PieceBuilt(d0: Dispatch, d: Dispatch, ranges: seq<Section>, s: nat, sec: Section)
    requires Ready(d0, d, ranges, s, sec) && |d.sections| < PAGE_SIZE && AllDevices(ranges)
    requires |d.sections| + 1 == Needed(ranges + [sec])
    ensures var d' := SetSub(d, d.sections[s].mr.id, sec.base % PAGE_SIZE, sec);
      TableOk(d') && FindsExactly(d') && Built(d', ranges + [sec])
  {
    RegisterInSubpage(d0, d, ranges, s, sec);
    ExactFinds(SetSub(d, d.sections[s].mr.id, sec.base % PAGE_SIZE, sec));
  }

  lemma {:induction false} CutBuilt(d: Dispatch, ranges: seq<Section>, r: Section, n: nat)
    requires WellFormed(r) && r.mr.Device? && 0 < n < r.size && (r.base + n) % PAGE_SIZE == 0
    requires Partial(Head(r, n)) || Partial(Rest(r, n))
    requires Built(d, ranges + [Head(r, n)] + [Rest(r, n)])
    ensures Built(d, ranges + [r])
  {
    var cut := ranges + [Head(r, n)] + [Rest(r, n)];
    CutNeeds(ranges, r, n);
    CutJoined(d, ranges, r, n);
    forall j | 0 <= j < |ranges| ensures WellFormed(ranges[j]) && ranges[j].mr.Device? { assert cut[j] == ranges[j]; }
  }

  lemma {:induction false} SharedBy(ranges: seq<Section>, i: nat)
    ensures i in SharedPages(ranges) <==> exists j :: 0 <= j < |ranges| && i in PartPages(ranges[j])
  {
    if ranges != [] {
      var n := |ranges| - 1;
      SharedBy(ranges[..n], i);
      forall j | 0 <= j < n ensures ranges[..n][j] == ranges[j] {}
    }
  }

  /** A page where a new piece goes has a subpage exactly if it is shared already. */
  lemma {:induction false} SubpageIsShared(d: Dispatch, ranges: seq<Section>, sec: Section)
    requires TableOk(d) && Exact(d) && Represents(d, ranges) && NoIdlePage(d, ranges) && AllDevices(ranges)
    requires Partial(sec) && Disjoint(sec, ranges)
    ensures Found(d, sec.base - sec.base % PAGE_SIZE) != PHYS_SECTION_UNASSIGNED <==>
      sec.base / PAGE_SIZE in SharedPages(ranges)
  {
    var i := sec.base / PAGE_SIZE;
    ExactFinds(d);
    assert (sec.base - sec.base % PAGE_SIZE) / PAGE_SIZE == i;
    SharedBy(ranges, i);
    if i in SharedPages(ranges) {
      var j :| 0 <= j < |ranges| && i in PartPages(ranges[j]);
      MappedIfShared(d, ranges, i, j);
    }
    if d.page[i] != PHYS_SECTION_UNASSIGNED { SharedIfMapped(d, ranges, sec); }
  }

  /** What register_subpage finds for the page of a new piece */
  lemma {:induction false} FoundForPiece(d: Dispatch, ranges: seq<Section>, sec: Section)
    requires TableOk(d) && Built(d, ranges) && Partial(sec) && sec.mr.Device? && Disjoint(sec, ranges)
    ensures var s := Found(d, sec.base - sec.base % PAGE_SIZE);
      && s < |d.sections|
      && if sec.base / PAGE_SIZE in SharedPages(ranges) then s != PHYS_SECTION_UNASSIGNED && d.sections[s].mr.Subpage?
         else s == PHYS_SECTION_UNASSIGNED && d.sections[s].mr.Unassigned?
  {
    SubpageExpected(d, ranges, sec);
    SubpageIsShared(d, ranges, sec);
  }

  lemma {:induction false} MappedIfShared(d: Dispatch, ranges: seq<Section>, i: nat, j: nat)
    requires TableOk(d) && Exact(d) && Represents(d, ranges) && AllDevices(ranges)
    requires j < |ranges| && i in PartPages(ranges[j])
    ensures i < PAGES && d.page[i] != PHYS_SECTION_UNASSIGNED
  {
    var r := ranges[j];
    PartPagesAre(r, i);
    var addr := if r.base < i * PAGE_SIZE then i * PAGE_SIZE else r.base;
    assert addr / PAGE_SIZE == i;
    CoversRange(r, addr);
    assert Matches(d, Resolved(d, addr), r);
    ExactFinds(d);
    assert d.sections[0] == d.sections[..4][0];
  }

  lemma {:induction false} SharedIfMapped(d: Dispatch, ranges: seq<Section>, sec: Section)
    requires TableOk(d) && NoIdlePage(d, ranges) && AllDevices(ranges) && Partial(sec) && Disjoint(sec, ranges)
    requires d.page[sec.base / PAGE_SIZE] != PHYS_SECTION_UNASSIGNED
    ensures sec.base / PAGE_SIZE in SharedPages(ranges)
  {
    var i := sec.base / PAGE_SIZE;
    assert HoldsByte(ranges, i);
    var addr: nat :| addr / PAGE_SIZE == i && Covered(ranges, addr);
    var j :| 0 <= j < |ranges| && Covers(ranges[j], addr);
    CoversRange(ranges[j], addr);
    CoversRange(ranges[j], sec.base);
    CoversRange(sec, sec.base);
    PartPagesAre(ranges[j], i);
    SharedBy(ranges, i);
  }
}
