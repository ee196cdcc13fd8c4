/**
 The multi-level page map of exec.c: entries, nodes and the walk of phys_page_find.

 A block is a set of pages with a common prefix.  Every node covers a block and every slot of a
 node covers a sub-block.  The ghost sequence `keys` records the block of each node; it is what
 keeps different parts of the map apart, although nodes refer to each other by index.
 */
module PhysTree {

  /** PHYS_MAP_NODE_NIL: all ones in the 26-bit ptr field. */
  const NIL: nat := 0x3FF_FFFF

  const PHYS_SECTION_UNASSIGNED: nat := 0

  /** PhysPageEntry: skip is 0 for a leaf, whose ptr is a section; otherwise ptr is a node or NIL. */
  datatype Entry = Entry(skip: nat, ptr: nat)

  type Node = n: seq<Entry> | |n| == 512 witness seq(512, _ => Entry(1, NIL))

  // -------------------------------------------------------------------------------------------
  // Page numbers
  // -------------------------------------------------------------------------------------------

  /** i >> (l * P_L2_BITS) */
  function Shr(i: nat, l: nat): nat {
    if l == 0 then i else Shr(i / 512, l - 1)
  }

  /** 1 << (l * P_L2_BITS) */
  function Span(l: nat): (r: nat)
    ensures r >= 1
  {
    if l == 0 then 1 else 512 * Span(l - 1)
  }

  /** (i & (Span(l) - 1)) == 0 */
  predicate Aligned(i: nat, l: nat) {
    l == 0 || (i % 512 == 0 && Aligned(i / 512, l - 1))
  }

  lemma {:induction false} ShrSucc(i: nat, l: nat)
    ensures Shr(i, l + 1) == Shr(i, l) / 512
  {
    if l > 0 { ShrSucc(i / 512, l - 1); }
  }

  lemma {:induction false} ShrAdd(i: nat, a: nat, b: nat)
    ensures Shr(i, a + b) == Shr(Shr(i, a), b)
  {
    if a > 0 { ShrAdd(i / 512, a - 1, b); }
  }

  lemma {:induction false} AlignedDown(i: nat, l: nat)
    requires Aligned(i, l + 1)
    ensures Aligned(i, l)
  {
    if l > 0 { AlignedDown(i / 512, l - 1); }
  }

  lemma {:induction false} AlignedUp(i: nat, l: nat)
    requires Aligned(i, l) && Shr(i, l) % 512 == 0
    ensures Aligned(i, l + 1)
  {
    if l > 0 { AlignedUp(i / 512, l - 1); }
  }

  /** The pages that agree with an aligned page down to level l are the next Span(l) pages. */
  lemma {:induction false} AlignedBlock(i: nat, l: nat, j: nat)
    requires Aligned(i, l)
    ensures Shr(j, l) == Shr(i, l) <==> i <= j < i + Span(l)
    ensures Aligned(i + Span(l), l) && Shr(i + Span(l), l) == Shr(i, l) + 1
  {
    if l > 0 {
      AlignedBlock(i / 512, l - 1, j / 512);
      assert (i + Span(l)) / 512 == i / 512 + Span(l - 1);
    }
  }

  lemma {:induction false} RemainderUnique(x: nat, d: nat, q: nat)
    requires d > 0 && q * d <= x < q * d + d
    ensures x / d == q && x % d == x - q * d
  {
    var e, r := x / d, x % d;
    assert x == d * e + r;
    assert e < q ==> (e + 1) * d <= q * d;
    assert e > q ==> (q + 1) * d <= e * d;
  }

  /** The remainder at one level is made of the remainder one level down and the last digit. */
  lemma {:induction false} RemainderSplit(i: nat, s: nat)
    requires s > 0
    ensures i % (512 * s) == 512 * (i / 512 % s) + i % 512
  {
    var q, r := i / 512 / s, i / 512 % s;
    DigitsAre(i, s, q, r);
    RemainderUnique(i, 512 * s, q);
  }

  lemma {:induction false} DigitsAre(i: nat, s: nat, q: nat, r: nat)
    requires s > 0 && i / 512 == s * q + r && r < s
    ensures i == q * (512 * s) + (512 * r + i % 512) && 512 * r + i % 512 < 512 * s
  {
    assert q * (512 * s) == 512 * (s * q);
  }

  /** Aligned means what the mask test of phys_page_set_level says. */
  lemma {:induction false} AlignedIsMask(i: nat, l: nat)
    ensures Aligned(i, l) <==> i % Span(l) == 0
  {
    if l > 0 {
      AlignedIsMask(i / 512, l - 1);
      RemainderSplit(i, Span(l - 1));
    }
  }

  // -------------------------------------------------------------------------------------------
  // Blocks and the shape of the map
  // -------------------------------------------------------------------------------------------

  /** The pages i with Shr(i, height) == prefix. */
  datatype Block = Block(height: nat, prefix: nat)

  predicate InBlock(i: nat, b: Block) {
    Shr(i, b.height) == b.prefix
  }

  /** The block of slot k of a node that covers b. */
  function SlotBlock(b: Block, k: nat): Block
    requires b.height > 0
  {
    Block(b.height - 1, b.prefix * 512 + k)
  }

  predicate Under(k: Block, b: Block) {
    k.height <= b.height && Shr(k.prefix, b.height - k.height) == b.prefix
  }

  lemma {:induction false} UnderTrans(a: Block, b: Block, c: Block)
    requires Under(a, b) && Under(b, c)
    ensures Under(a, c)
  {
    ShrAdd(a.prefix, b.height - a.height, c.height - b.height);
  }

  lemma {:induction false} SlotUnder(b: Block, k: nat)
    requires b.height > 0 && k < 512
    ensures Under(SlotBlock(b, k), b)
  {
    assert Shr(b.prefix * 512 + k, 1) == Shr((b.prefix * 512 + k) / 512, 0) == b.prefix;
  }

  /** A page of a node's block lies in the block of its slot. */
  lemma {:induction false} InSlot(i: nat, b: Block)
    requires b.height > 0
    ensures InBlock(i, b) <==> InBlock(i, SlotBlock(b, Shr(i, b.height - 1) % 512))
  {
    ShrSucc(i, b.height - 1);
  }

  /** Nodes, the blocks they cover, and the sections that leaves may refer to. */
  datatype Tree = Tree(nodes: seq<Node>, keys: seq<Block>, leaves: set<nat>)

  ghost predicate EntryOk(t: Tree, e: Entry, b: Block) {
    if e.skip == 0 then
      e.ptr in t.leaves || (e.ptr == PHYS_SECTION_UNASSIGNED && b.height == 0)
    else
      && e.skip <= b.height
      && (e.ptr == NIL ==> e.skip == 1)
      && (e.ptr != NIL ==>
            && e.ptr < |t.nodes| && e.ptr < |t.keys|
            && t.keys[e.ptr].height == b.height - e.skip + 1
            && Shr(t.keys[e.ptr].prefix, e.skip - 1) == b.prefix)
  }

  ghost predicate NodeOk(t: Tree, n: nat)
    requires n < |t.nodes| == |t.keys|
  {
    t.keys[n].height > 0 && forall k | 0 <= k < 512 :: EntryOk(t, t.nodes[n][k], SlotBlock(t.keys[n], k))
  }

  ghost predicate TreeOk(t: Tree) {
    && |t.nodes| == |t.keys| && |t.nodes| <= NIL
    && (forall s | s in t.leaves :: s != PHYS_SECTION_UNASSIGNED && s < NIL)
    && forall n {:trigger NodeOk(t, n)} | 0 <= n < |t.nodes| :: NodeOk(t, n)
  }

  /** The leaf that phys_page_find reaches for page i from an entry for block b. */
  ghost function Walk(t: Tree, e: Entry, b: Block, i: nat): nat
    requires TreeOk(t) && EntryOk(t, e, b)
    decreases b.height, 1
  {
    if e.skip == 0 then e.ptr
    else if e.ptr == NIL then PHYS_SECTION_UNASSIGNED
    else WalkNode(t, e.ptr, i)
  }

  ghost function WalkNode(t: Tree, n: nat, i: nat): nat
    requires TreeOk(t) && n < |t.nodes|
    decreases t.keys[n].height, 0
  {
    assert NodeOk(t, n);
    var k := Shr(i, t.keys[n].height - 1) % 512;
    Walk(t, t.nodes[n][k], SlotBlock(t.keys[n], k), i)
  }

  /** Everything below b looks the same in both maps. */
  ghost predicate SameUnder(t: Tree, t': Tree, b: Block) {
    && |t.nodes| <= |t'.nodes| && |t.keys| <= |t'.keys|
    && forall n | 0 <= n < |t.nodes| && n < |t.keys| && Under(t.keys[n], b) ::
      t'.nodes[n] == t.nodes[n] && t'.keys[n] == t.keys[n]
  }

  lemma {:induction false} WalkFrame(t: Tree, t': Tree, e: Entry, b: Block, i: nat)
    requires TreeOk(t) && TreeOk(t') && EntryOk(t, e, b) && EntryOk(t', e, b) && SameUnder(t, t', b)
    ensures Walk(t', e, b, i) == Walk(t, e, b, i)
    decreases b.height
  {
    if e.skip != 0 && e.ptr != NIL {
      var c := t.keys[e.ptr];
      var k := Shr(i, c.height - 1) % 512;
      assert Under(c, b);
      SlotUnder(c, k);
      UnderTrans(SlotBlock(c, k), c, b);
      forall n | 0 <= n < |t.nodes| && Under(t.keys[n], SlotBlock(c, k))
        ensures t'.nodes[n] == t.nodes[n] && t'.keys[n] == t.keys[n]
      {
        UnderTrans(t.keys[n], SlotBlock(c, k), b);
      }
      assert NodeOk(t, e.ptr) && NodeOk(t', e.ptr);
      WalkFrame(t, t', t.nodes[e.ptr][k], SlotBlock(c, k), i);
    }
  }

  /** Outside b nothing has changed, and every new node lies below b. */
  ghost predicate OutsideSame(t: Tree, t': Tree, b: Block) {
    && |t.nodes| == |t.keys| <= |t'.nodes| == |t'.keys| && t'.keys[..|t.keys|] == t.keys && t'.leaves == t.leaves
    && (forall n | 0 <= n < |t.nodes| && !Under(t.keys[n], b) :: t'.nodes[n] == t.nodes[n])
    && (forall n | |t.nodes| <= n < |t'.nodes| :: Under(t'.keys[n], b))
  }

  /** The pages from index to index' now lead to leaf; every other page of node n's block leads where it did. */
  ghost predicate Filled(t: Tree, t': Tree, n: nat, index: nat, index': nat, leaf: nat)
    requires TreeOk(t) && TreeOk(t') && n < |t.nodes| && n < |t'.nodes|
  {
    forall i: nat | InBlock(i, t.keys[n]) ::
      WalkNode(t', n, i) == if index <= i < index' then leaf else WalkNode(t, n, i)
  }

  /** Nodes below one slot of a node are not below another. */
  lemma {:induction false} SiblingsApart(b: Block, j: nat, k: nat, c: Block)
    requires b.height > 0 && j < 512 && k < 512 && j != k && Under(c, SlotBlock(b, j))
    ensures !Under(c, SlotBlock(b, k))
  {
  }

  /** Only slot k of node n, and what lies below it, has changed. */
  ghost predicate SlotChanged(t: Tree, t': Tree, n: nat, k: nat)
    requires n < |t.nodes| == |t.keys| && k < 512 && t.keys[n].height > 0
  {
    && |t.nodes| <= |t'.nodes| == |t'.keys| && t'.keys[..|t.keys|] == t.keys && t'.leaves == t.leaves
    && t'.nodes[n] == t.nodes[n][k := t'.nodes[n][k]]
    && (forall m | 0 <= m < |t.nodes| && m != n && !Under(t.keys[m], SlotBlock(t.keys[n], k)) ::
      t'.nodes[m] == t.nodes[m])
    && (forall m | |t.nodes| <= m < |t'.nodes| :: Under(t'.keys[m], SlotBlock(t.keys[n], k)))
  }

  lemma {:induction false} SlotFrame(t: Tree, t': Tree, n: nat, j: nat, i: nat)
    requires TreeOk(t) && TreeOk(t') && n < |t.nodes| && n < |t'.nodes| && t'.keys[n] == t.keys[n]
    requires t.keys[n].height > 0 && j == Shr(i, t.keys[n].height - 1) % 512
    requires t'.nodes[n][j] == t.nodes[n][j] && SameUnder(t, t', SlotBlock(t.keys[n], j))
    ensures WalkNode(t', n, i) == WalkNode(t, n, i)
  {
    assert NodeOk(t, n) && NodeOk(t', n);
    WalkFrame(t, t', t.nodes[n][j], SlotBlock(t.keys[n], j), i);
  }

  lemma {:induction false} SlotSameUnder(t: Tree, t': Tree, n: nat, k: nat, j: nat)
    requires TreeOk(t) && TreeOk(t') && n < |t.nodes| && k < 512 && j < 512 && j != k && t.keys[n].height > 0
    requires SlotChanged(t, t', n, k)
    ensures SameUnder(t, t', SlotBlock(t.keys[n], j))
  {
    var b := t.keys[n];
    forall m | 0 <= m < |t.nodes| && Under(t.keys[m], SlotBlock(b, j))
      ensures t'.nodes[m] == t.nodes[m] && t'.keys[m] == t.keys[m]
    {
      SiblingsApart(b, j, k, t.keys[m]);
      assert t'.keys[..|t.keys|][m] == t.keys[m];
    }
  }

  /** Changes below slot k, and to slot k itself, do not show in the other slots of the node. */
  lemma {:induction false} OtherSlots(t: Tree, t': Tree, n: nat, k: nat, i: nat)
    requires TreeOk(t) && TreeOk(t') && n < |t.nodes| && k < 512 && t.keys[n].height > 0 && SlotChanged(t, t', n, k)
    requires Shr(i, t.keys[n].height - 1) % 512 != k
    ensures WalkNode(t', n, i) == WalkNode(t, n, i)
  {
    var j := Shr(i, t.keys[n].height - 1) % 512;
    assert t'.keys[..|t.keys|][n] == t.keys[n];
    SlotSameUnder(t, t', n, k, j);
    SlotFrame(t, t', n, j, i);
  }

  function WithSlot(t: Tree, n: nat, k: nat, e: Entry): Tree
    requires n < |t.nodes| && k < 512
  {
    t.(nodes := t.nodes[n := t.nodes[n][k := e]])
  }

  lemma {:induction false} WithSlotOk(t: Tree, n: nat, k: nat, e: Entry)
    requires TreeOk(t) && n < |t.nodes| && k < 512 && t.keys[n].height > 0 && EntryOk(t, e, SlotBlock(t.keys[n], k))
    ensures TreeOk(WithSlot(t, n, k, e))
    ensures forall x, b :: EntryOk(t, x, b) ==> EntryOk(WithSlot(t, n, k, e), x, b)
  {
    var t' := WithSlot(t, n, k, e);
    forall m | 0 <= m < |t'.nodes| ensures NodeOk(t', m) { assert NodeOk(t, m); }
  }

  /** Writing a leaf over an aligned slot maps exactly the pages of that slot. */
  lemma {:induction false} LeafFills(t: Tree, n: nat, index: nat, leaf: nat)
    requires TreeOk(t) && n < |t.nodes| && leaf in t.leaves
    requires InBlock(index, t.keys[n]) && t.keys[n].height > 0 && Aligned(index, t.keys[n].height - 1)
    ensures var l := t.keys[n].height - 1;
      var t' := WithSlot(t, n, Shr(index, l) % 512, Entry(0, leaf));
      TreeOk(t') && Filled(t, t', n, index, index + Span(l), leaf)
  {
    var b := t.keys[n];
    var l := b.height - 1;
    var k := Shr(index, l) % 512;
    var t' := WithSlot(t, n, k, Entry(0, leaf));
    assert NodeOk(t, n);
    WithSlotOk(t, n, k, Entry(0, leaf));
    ShrSucc(index, l);
    forall i: nat ensures InBlock(i, SlotBlock(b, k)) <==> index <= i < index + Span(l) { AlignedBlock(index, l, i); }
    SlotFills(t, t', n, k, index, index + Span(l), leaf);
  }

  /** A freshly allocated node: all leaves unassigned at the bottom, all entries empty above. */
  ghost predicate Fresh(p: Node, leaf: bool) {
    forall k | 0 <= k < 512 :: p[k] == if leaf then Entry(0, PHYS_SECTION_UNASSIGNED) else Entry(1, NIL)
  }

  lemma {:induction false} FreshNode(t: Tree, p: Node, b: Block)
    requires TreeOk(t) && |t.nodes| < NIL && b.height > 0 && Fresh(p, b.height == 1)
    ensures var t' := t.(nodes := t.nodes + [p], keys := t.keys + [b]);
      && TreeOk(t') && (forall i: nat :: WalkNode(t', |t.nodes|, i) == PHYS_SECTION_UNASSIGNED)
      && (forall x, c :: EntryOk(t, x, c) ==> EntryOk(t', x, c))
      && OutsideSame(t, t', b)
  {
    var t' := t.(nodes := t.nodes + [p], keys := t.keys + [b]);
    forall m | 0 <= m < |t'.nodes| ensures NodeOk(t', m) { if m < |t.nodes| { assert NodeOk(t, m); } }
    forall i: nat ensures WalkNode(t', |t.nodes|, i) == PHYS_SECTION_UNASSIGNED {
      var k := Shr(i, b.height - 1) % 512;
      assert p[k] == if b.height == 1 then Entry(0, PHYS_SECTION_UNASSIGNED) else Entry(1, NIL);
    }
  }

  /** The pages of slot k reach their leaf through entry k. */
  lemma {:induction false} ThroughSlot(t: Tree, n: nat, k: nat, i: nat)
    requires TreeOk(t) && n < |t.nodes| && k < 512 && t.keys[n].height > 0 && InBlock(i, SlotBlock(t.keys[n], k))
    ensures InBlock(i, t.keys[n]) && EntryOk(t, t.nodes[n][k], SlotBlock(t.keys[n], k))
    ensures WalkNode(t, n, i) == Walk(t, t.nodes[n][k], SlotBlock(t.keys[n], k), i)
  {
    assert NodeOk(t, n);
    InSlot(i, t.keys[n]);
  }

  /** Setting pages below one slot sets exactly those pages of the node. */
  lemma {:induction false} SlotFills(t: Tree, t': Tree, n: nat, k: nat, index: nat, index': nat, leaf: nat)
    requires TreeOk(t) && TreeOk(t') && n < |t.nodes| && k < 512 && t.keys[n].height > 0 && SlotChanged(t, t', n, k)
    requires EntryOk(t, t.nodes[n][k], SlotBlock(t.keys[n], k)) && EntryOk(t', t'.nodes[n][k], SlotBlock(t.keys[n], k))
    requires forall i: nat | index <= i < index' :: InBlock(i, SlotBlock(t.keys[n], k))
    requires forall i: nat | InBlock(i, SlotBlock(t.keys[n], k)) ::
      Walk(t', t'.nodes[n][k], SlotBlock(t.keys[n], k), i)
      == if index <= i < index' then leaf else Walk(t, t.nodes[n][k], SlotBlock(t.keys[n], k), i)
    ensures Filled(t, t', n, index, index', leaf)
  {
    var b := t.keys[n];
    assert t'.keys[..|t.keys|][n] == t'.keys[n] == b;
    forall i: nat | InBlock(i, b)
      ensures WalkNode(t', n, i) == if index <= i < index' then leaf else WalkNode(t, n, i)
    {
      if Shr(i, b.height - 1) % 512 == k {
        InSlot(i, b);
        ThroughSlot(t, n, k, i);
        ThroughSlot(t', n, k, i);
      } else {
        OtherSlots(t, t', n, k, i);
        assert !InBlock(i, SlotBlock(b, k));
      }
    }
  }

  lemma {:induction false} SlotWithin(t0: Tree, t: Tree, t': Tree, n: nat, k: nat)
    requires n < |t0.nodes| == |t0.keys| && OutsideSame(t0, t, t0.keys[n]) && k < 512 && t0.keys[n].height > 0
    requires t.keys[n] == t0.keys[n] && SlotChanged(t, t', n, k)
    ensures OutsideSame(t0, t', t0.keys[n])
  {
    var b := t0.keys[n];
    SlotUnder(b, k);
    assert Under(b, b);
    forall m | 0 <= m < |t0.nodes| && !Under(t0.keys[m], b) ensures t'.nodes[m] == t0.nodes[m] {
      assert t.keys[..|t0.keys|][m] == t.keys[m];
      if Under(t.keys[m], SlotBlock(b, k)) { UnderTrans(t.keys[m], SlotBlock(b, k), b); }
    }
    forall m | |t0.nodes| <= m < |t'.nodes| ensures Under(t'.keys[m], b) {
      if m < |t.nodes| {
        assert t'.keys[..|t.keys|][m] == t'.keys[m];
      } else {
        UnderTrans(t'.keys[m], SlotBlock(b, k), b);
      }
    }
    assert t'.keys[..|t0.keys|] == t'.keys[..|t.keys|][..|t0.keys|];
  }

  lemma {:induction false} FilledOn(t0: Tree, t: Tree, t': Tree, n: nat, index: nat, mid: nat, index': nat, leaf: nat)
    requires TreeOk(t0) && TreeOk(t) && TreeOk(t') && n < |t0.nodes| && n < |t.nodes| && n < |t'.nodes|
    requires t.keys[n] == t0.keys[n]
    requires index <= mid <= index' && Filled(t0, t, n, index, mid, leaf) && Filled(t, t', n, mid, index', leaf)
    ensures Filled(t0, t', n, index, index', leaf)
  {
  }

  /** The pages from index to index' all lie in b. */
  ghost predicate Within(index: nat, index': nat, b: Block) {
    forall i: nat | index <= i < index' :: InBlock(i, b)
  }

  lemma {:induction false} WithinOn(index: nat, mid: nat, index': nat, b: Block, k: nat)
    requires b.height > 0 && k < 512 && Within(index, mid, b) && Within(mid, index', SlotBlock(b, k))
    ensures Within(index, index', b)
  {
    forall i: nat | index <= i < index' ensures InBlock(i, b) {
      if mid <= i { ShrSucc(i, b.height - 1); assert InBlock(i, SlotBlock(b, k)); }
    }
  }

  lemma {:induction false} ShrZero(l: nat)
    ensures Shr(0, l) == 0 && Aligned(0, l)
  {
    if l > 0 { ShrZero(l - 1); }
  }

  /** The top block holds the page numbers that fit into l levels. */
  lemma {:induction false} TopBlock(l: nat, i: nat)
    ensures InBlock(i, Block(l, 0)) <==> i < Span(l)
  {
    ShrZero(l);
    AlignedBlock(0, l, i);
  }

  // -------------------------------------------------------------------------------------------
  // Compaction
  // -------------------------------------------------------------------------------------------

  /** The walk may come to differ only for pages that were not mapped. */
  predicate Approx(after: nat, before: nat) {
    after == before || before == PHYS_SECTION_UNASSIGNED
  }

  lemma {:induction false} SlotApprox(t: Tree, t': Tree, n: nat, k: nat, i: nat)
    requires TreeOk(t) && TreeOk(t') && n < |t.nodes| && k < 512 && t.keys[n].height > 0 && SlotChanged(t, t', n, k)
    requires EntryOk(t, t.nodes[n][k], SlotBlock(t.keys[n], k)) && EntryOk(t', t'.nodes[n][k], SlotBlock(t.keys[n], k))
    requires Approx(Walk(t', t'.nodes[n][k], SlotBlock(t.keys[n], k), i),
      Walk(t, t.nodes[n][k], SlotBlock(t.keys[n], k), i))
    ensures Approx(WalkNode(t', n, i), WalkNode(t, n, i))
  {
    assert t'.keys[..|t.keys|][n] == t'.keys[n] == t.keys[n];
    if Shr(i, t.keys[n].height - 1) % 512 != k {
      OtherSlots(t, t', n, k, i);
    }
  }

  /** All slots of node n except v are empty. */
  ghost predicate OnlySlot(t: Tree, n: nat, v: nat)
    requires n < |t.nodes|
  {
    forall k | 0 <= k < 512 && k != v :: t.nodes[n][k].ptr == NIL
  }

  /** The entry that phys_page_compact stores in place of an entry for a node with a single child. */
  function Collapsed(e: Entry, child: Entry): Entry {
    if child.skip == 0 then Entry(0, child.ptr) else Entry(e.skip + child.skip, child.ptr)
  }

  lemma {:induction false} CollapsedOk(t: Tree, e: Entry, b: Block, v: nat)
    requires TreeOk(t) && EntryOk(t, e, b) && e.skip > 0 && e.ptr != NIL && v < 512
    requires t.nodes[e.ptr][v].ptr != NIL && t.keys[e.ptr].height > 1
    ensures EntryOk(t, Collapsed(e, t.nodes[e.ptr][v]), b)
  {
    var c, child := t.keys[e.ptr], t.nodes[e.ptr][v];
    assert NodeOk(t, e.ptr);
    if child.skip != 0 {
      assert Under(c, b);
      SlotUnder(c, v);
      UnderTrans(SlotBlock(c, v), c, b);
      UnderTrans(t.keys[child.ptr], SlotBlock(c, v), b);
    }
  }

  /** Skipping a node with one child changes the walk of unmapped pages only. */
  lemma {:induction false} CollapsedWalk(t: Tree, e: Entry, b: Block, v: nat)
    requires TreeOk(t) && EntryOk(t, e, b) && e.skip > 0 && e.ptr != NIL && v < 512 && OnlySlot(t, e.ptr, v)
    requires t.nodes[e.ptr][v].ptr != NIL && EntryOk(t, Collapsed(e, t.nodes[e.ptr][v]), b)
    ensures forall i: nat :: Approx(Walk(t, Collapsed(e, t.nodes[e.ptr][v]), b, i), Walk(t, e, b, i))
  {
    var n := e.ptr;
    assert NodeOk(t, n);
    forall i: nat ensures Approx(Walk(t, Collapsed(e, t.nodes[n][v]), b, i), Walk(t, e, b, i)) {
      var k := Shr(i, t.keys[n].height - 1) % 512;
      assert Walk(t, e, b, i) == WalkNode(t, n, i) == Walk(t, t.nodes[n][k], SlotBlock(t.keys[n], k), i);
    }
  }

  lemma {:induction false} OutsideSmaller(t: Tree, t': Tree, c: Block, b: Block)
    requires OutsideSame(t, t', c) && Under(c, b)
    ensures OutsideSame(t, t', b)
  {
    forall m | 0 <= m < |t.nodes| && !Under(t.keys[m], b) ensures !Under(t.keys[m], c) {
      if Under(t.keys[m], c) { UnderTrans(t.keys[m], c, b); }
    }
    forall m | |t.nodes| <= m < |t'.nodes| ensures Under(t'.keys[m], b) { UnderTrans(t'.keys[m], c, b); }
  }

  lemma {:induction false} MoreLeaves(t: Tree, leaf: nat)
    requires TreeOk(t) && leaf != PHYS_SECTION_UNASSIGNED && leaf < NIL
    ensures var t' := t.(leaves := t.leaves + {leaf});
      TreeOk(t') && forall e, b :: EntryOk(t, e, b) ==> EntryOk(t', e, b)
  {
    var t' := t.(leaves := t.leaves + {leaf});
    forall m | 0 <= m < |t'.nodes| ensures NodeOk(t', m) { assert NodeOk(t, m); }
  }

  lemma {:induction false} WalkLeaf(t: Tree, e: Entry, b: Block, i: nat)
    requires TreeOk(t) && EntryOk(t, e, b)
    ensures Walk(t, e, b, i) == PHYS_SECTION_UNASSIGNED || Walk(t, e, b, i) in t.leaves
    decreases b.height
  {
    if e.skip != 0 && e.ptr != NIL {
      assert NodeOk(t, e.ptr);
      var k := Shr(i, t.keys[e.ptr].height - 1) % 512;
      WalkLeaf(t, t.nodes[e.ptr][k], SlotBlock(t.keys[e.ptr], k), i);
    }
  }
}
