/**
 The walk over guest pages that dump.c makes twice, once for the bitmap and once for the page data.
 */
module DumpWalk {
  import opened FlatFile
  import opened Multiplication
  import opened Options

  type Page = seq<Byte>

  /** The pages of a GuestPhysBlock: the page frame number of the first one, and their contents. */
  datatype Block = Block(first: nat, pages: seq<Page>)

  /** Blocks are not empty. */
  ghost predicate BlocksOk(bs: seq<Block>) {
    bs != [] && forall k | 0 <= k < |bs| :: bs[k].pages != []
  }

  /** Blocks are sorted by address, and do not overlap. */
  ghost predicate Sorted(bs: seq<Block>) {
    forall i, j | 0 <= i < j < |bs| :: bs[i].first + |bs[i].pages| <= bs[j].first
  }

  /** The number of pages in the first k blocks. */
  function Count(bs: seq<Block>, k: nat): nat
    requires k <= |bs|
  {
    if k == 0 then 0 else Count(bs, k - 1) + |bs[k - 1].pages|
  }

  function Total(bs: seq<Block>): nat {
    Count(bs, |bs|)
  }

  /** The n-th page is page pfn of block k. */
  ghost predicate At(bs: seq<Block>, k: nat, pfn: nat, n: nat) {
    k < |bs| && bs[k].first <= pfn < bs[k].first + |bs[k].pages| && n == Count(bs, k) + (pfn - bs[k].first)
  }

  function PageAt(bs: seq<Block>, k: nat, pfn: nat): Page
    requires k < |bs| && bs[k].first <= pfn < bs[k].first + |bs[k].pages|
  {
    bs[k].pages[pfn - bs[k].first]
  }

  lemma {:induction false} CountGrows(bs: seq<Block>, i: nat, j: nat)
    requires i <= j <= |bs|
    ensures Count(bs, i) <= Count(bs, j)
  {
    if i < j { CountGrows(bs, i, j - 1); }
  }

  /** Pages are numbered without gaps up to the total. */
  lemma {:induction false} AtIsBelowTotal(bs: seq<Block>, k: nat, pfn: nat, n: nat)
    requires At(bs, k, pfn, n)
    ensures n < Total(bs)
  {
    CountGrows(bs, k + 1, |bs|);
  }

  /** Every number below the total is the number of a page. */
  lemma {:induction false} SomePage(bs: seq<Block>, j: nat, n: nat) returns (k: nat, pfn: nat)
    requires j <= |bs| && n < Count(bs, j)
    ensures k < j && At(bs, k, pfn, n)
  {
    if n >= Count(bs, j - 1) {
      k, pfn := j - 1, bs[j - 1].first + (n - Count(bs, j - 1));
    } else {
      k, pfn := SomePage(bs, j - 1, n);
    }
  }

  /** A number belongs to one page only. */
  lemma {:induction false} AtIsUnique(bs: seq<Block>, k: nat, pfn: nat, k': nat, pfn': nat, n: nat)
    requires At(bs, k, pfn, n) && At(bs, k', pfn', n)
    ensures k == k' && pfn == pfn'
  {
    if k < k' { CountGrows(bs, k + 1, k'); }
    if k' < k { CountGrows(bs, k' + 1, k); }
  }

  /** The pages of the first k blocks in the order of the walk */
  function PagesUpTo(bs: seq<Block>, k: nat): seq<Page>
    requires k <= |bs|
  {
    if k == 0 then [] else PagesUpTo(bs, k - 1) + bs[k - 1].pages
  }

  function AllPages(bs: seq<Block>): seq<Page> {
    PagesUpTo(bs, |bs|)
  }

  lemma {:induction false} PagesCount(bs: seq<Block>, k: nat)
    requires k <= |bs|
    ensures |PagesUpTo(bs, k)| == Count(bs, k)
  {
    if k > 0 { PagesCount(bs, k - 1); }
  }

  /** The n-th page of the walk */
  lemma {:induction false} PageOfWalk(bs: seq<Block>, j: nat, k: nat, pfn: nat, n: nat)
    requires k < j <= |bs| && At(bs, k, pfn, n)
    ensures n < |PagesUpTo(bs, j)| && PagesUpTo(bs, j)[n] == PageAt(bs, k, pfn)
  {
    PagesCount(bs, j - 1);
    if k < j - 1 { PageOfWalk(bs, j - 1, k, pfn, n); }
  }

  /** The address test of get_next_page is a test on page frame numbers. */
  lemma {:induction false} NextIsInBlock(b: Block, pfn: nat, size: nat)
    requires size > 0 && b.first <= pfn <= b.first + |b.pages|
    ensures pfn * size >= b.first * size
    ensures (pfn * size + size <= (b.first + |b.pages|) * size <==> pfn < b.first + |b.pages|)
  {
    MulLe(b.first, pfn, size);
    MulLe(pfn + 1, b.first + |b.pages|, size);
    assert (pfn + 1) * size == pfn * size + size;
    if pfn == b.first + |b.pages| { assert pfn * size + size > (b.first + |b.pages|) * size; }
  }

  /** get_next_page, from the start if there is no current block; n is the number of the page it gives. */
  method GetNextPage(bs: seq<Block>, size: nat, block: Option<nat>, pfn: nat, ghost n: nat)
    returns (more: bool, block': Option<nat>, pfn': nat, page: Page)
    requires BlocksOk(bs) && size > 0
    requires if block.None? then n == 0 else n > 0 && At(bs, block.value, pfn, n - 1)
    ensures more <==> n < Total(bs)
    ensures more ==> block'.Some? && At(bs, block'.value, pfn', n) && page == PageAt(bs, block'.value, pfn')
  {
    if block.None? {
      assert At(bs, 0, bs[0].first, 0);
      AtIsBelowTotal(bs, 0, bs[0].first, 0);
      return true, Some(0), bs[0].first, bs[0].pages[0];
    }
    var k := block.value;
    pfn' := pfn + 1;
    var addr := pfn' * size;
    NextIsInBlock(bs[k], pfn', size);
    if addr >= bs[k].first * size && addr + size <= (bs[k].first + |bs[k].pages|) * size {
      AtIsBelowTotal(bs, k, pfn', n);
      return true, block, pfn', bs[k].pages[pfn' - bs[k].first];
    }
    k := k + 1;
    if k == |bs| {
      return false, None, pfn', [];
    }
    assert At(bs, k, bs[k].first, n);
    AtIsBelowTotal(bs, k, bs[k].first, n);
    return true, Some(k), bs[k].first, bs[k].pages[0];
  }
}
