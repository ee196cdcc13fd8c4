/**
 phys_map_node_reserve, phys_map_node_alloc, phys_page_set and phys_page_compact of exec.c, in place
 on the node store.
 */
module PhysMap {
  import opened PhysTree

  /** An entry that a PhysPageEntry pointer can point to. */
  datatype Place = Root | Slot(node: nat, k: nat)

  class PhysPageMap {
    const levels: nat            // P_L2_LEVELS
    var root: Entry              // d->phys_map
    var nodes: seq<Node>         // map->nodes[..map->nodes_nb]
    var capacity: nat            // map->nodes_nb_alloc
    ghost var keys: seq<Block>   // the block that each node covers
    ghost var leaves: set<nat>   // the sections that phys_page_set has been called with

    constructor (levels: nat)
      requires levels > 0
      ensures this.levels == levels && Valid() && Flat() && nodes == [] && leaves == {}
      ensures forall i: nat :: Page(i) == PHYS_SECTION_UNASSIGNED
    {
      this.levels := levels;
      root, nodes, capacity, keys, leaves := Entry(1, NIL), [], 0, [], {};
    }

    ghost function T(): Tree
      reads this
    {
      Tree(nodes, keys, leaves)
    }

    /** The whole page number space. */
    ghost function Top(): Block {
      Block(levels, 0)
    }

    ghost predicate Valid()
      reads this
    {
      levels > 0 && TreeOk(T()) && EntryOk(T(), root, Top()) && |nodes| <= capacity
    }

    /** No entry has been through phys_page_compact. */
    ghost predicate Flat()
      reads this
    {
      root.skip == 1 && forall n, k | 0 <= n < |nodes| && 0 <= k < 512 :: nodes[n][k].skip <= 1
    }

    ghost predicate PlaceFor(p: Place, b: Block)
      reads this
    {
      match p
      case Root => b == Top()
      case Slot(n, k) => n < |nodes| == |keys| && k < 512 && keys[n].height > 0 && b == SlotBlock(keys[n], k)
    }

    function Get(p: Place): Entry
      reads this
      requires p.Slot? ==> p.node < |nodes| && p.k < 512
    {
      if p.Root? then root else nodes[p.node][p.k]
    }

    method Put(p: Place, e: Entry)
      requires p.Slot? ==> p.node < |nodes| && p.k < 512
      modifies this`root, this`nodes
      ensures root == if p.Root? then e else old(root)
      ensures nodes == if p.Root? then old(nodes) else old(nodes)[p.node := old(nodes)[p.node][p.k := e]]
    {
      if p.Root? {
        root := e;
      } else {
        nodes := nodes[p.node := nodes[p.node][p.k := e]];
      }
    }

    /** phys_map_node_reserve */
    method NodeReserve(count: nat, hint: nat)
      modifies this`capacity
      ensures capacity >= |nodes| + count
      ensures capacity == old(capacity) || old(capacity) < |nodes| + count
    {
      if |nodes| + count > capacity {
        if capacity < hint { capacity := hint; }
        if capacity < |nodes| + count { capacity := |nodes| + count; }
      }
    }

    /** phys_map_node_alloc; both of its assertions are preconditions here. */
    method NodeAlloc(leaf: bool, ghost b: Block) returns (ret: nat)
      requires |nodes| == |keys| && |nodes| != NIL && |nodes| < capacity
      modifies this`nodes, this`keys
      ensures ret == old(|nodes|) && |nodes| == ret + 1 && nodes[..ret] == old(nodes) && keys == old(keys) + [b]
      ensures Fresh(nodes[ret], leaf)
    {
      ret := |nodes|;
      var e := if leaf then Entry(0, PHYS_SECTION_UNASSIGNED) else Entry(1, NIL);
      var p: Node := seq(512, _ => Entry(1, NIL));
      var i := 0;
      while i < 512
        invariant 0 <= i <= 512
        invariant forall k | 0 <= k < i :: p[k] == e
      {
        p := p[i := e];
        i := i + 1;
      }
      nodes := nodes + [p];
      keys := keys + [b];
    }

    /** Room for count more nodes without moving the store and without reaching PHYS_MAP_NODE_NIL. */
    predicate Room(count: nat)
      reads this
    {
      |nodes| + count <= capacity && |nodes| + count <= NIL
    }

    /** No page of [index, index + nb) below node n is mapped yet. */
    ghost predicate Unmapped(n: nat, index: nat, nb: nat)
      reads this
      requires TreeOk(T()) && n < |nodes|
    {
      forall i: nat | index <= i < index + nb && InBlock(i, keys[n]) :: WalkNode(T(), n, i) == PHYS_SECTION_UNASSIGNED
    }

    /**
     phys_page_set_level up to its loop: make sure that the entry at p has a node.
     The entry is never a leaf, because the pages to set are not mapped.
     */
    method Descend(p: Place, level: nat, ghost b: Block, ghost index: nat) returns (n: nat)
      requires Valid() && Flat() && PlaceFor(p, b) && b.height == level + 1 && Room(1)
      requires EntryOk(T(), Get(p), b) && Walk(T(), Get(p), b, index) == PHYS_SECTION_UNASSIGNED
      modifies this`root, this`nodes, this`keys
      ensures Valid() && Flat() && PlaceFor(p, b)
      ensures EntryOk(T(), Get(p), b) && Get(p) == Entry(1, n) && n < |nodes| && keys[n] == b && n != NIL
      ensures |nodes| <= old(|nodes|) + 1
      ensures forall i: nat :: WalkNode(T(), n, i) == old(Walk(T(), Get(p), b, i))
      ensures |old(nodes)| <= |nodes| == |keys| && keys[..|old(keys)|] == old(keys)
      ensures p.Slot? ==> root == old(root)
      ensures forall m | 0 <= m < |old(nodes)| ::
        nodes[m] == if p.Slot? && p.node == m then old(nodes)[m][p.k := Get(p)] else old(nodes)[m]
      ensures forall m | |old(nodes)| <= m < |nodes| :: keys[m] == b
    {
      var e := Get(p);
      n := e.ptr;
      ghost var t0 := T();
      if e.ptr == NIL {
        n := NodeAlloc(level == 0, b);
        FreshNode(t0, nodes[n], b);
        assert T() == t0.(nodes := t0.nodes + [nodes[n]], keys := t0.keys + [b]);
        if p.Slot? { WithSlotOk(T(), p.node, p.k, Entry(1, n)); }
        Put(p, Entry(1, n));
      }
    }

    /** An entry of a node becomes a leaf for all of its pages. */
    method SetLeaf(n: nat, k: nat, index: nat, leaf: nat, level: nat)
      requires Valid() && Flat() && n < |nodes| && keys[n].height == level + 1 && k < 512
      requires InBlock(index, SlotBlock(keys[n], k)) && Aligned(index, level) && leaf in leaves
      modifies this`nodes
      ensures Valid() && Flat() && SlotChanged(old(T()), T(), n, k) && |nodes| == old(|nodes|)
      ensures Filled(old(T()), T(), n, index, index + Span(level), leaf)
      ensures Within(index, index + Span(level), SlotBlock(keys[n], k))
    {
      ghost var t0 := T();
      assert NodeOk(t0, n);
      SlotUnder(keys[n], k);
      ShrSucc(index, level);
      LeafFills(t0, n, index, leaf);
      nodes := nodes[n := nodes[n][k := Entry(0, leaf)]];
      assert T() == WithSlot(t0, n, k, Entry(0, leaf));
      AlignedBlock(index, level, index);
      forall i: nat | index <= i < index + Span(level) ensures InBlock(i, SlotBlock(keys[n], k)) {
        AlignedBlock(index, level, i);
      }
      WithSlotOk(t0, n, k, Entry(0, leaf));
    }

    /** One iteration of the loop of phys_page_set_level. */
    method FillSlot(n: nat, k: nat, index: nat, nb: nat, leaf: nat, level: nat) returns (index': nat, nb': nat)
      requires Valid() && Flat() && n < |nodes| && keys[n].height == level + 1 && k < 512
      requires nb > 0 && InBlock(index, SlotBlock(keys[n], k)) && Unmapped(n, index, nb)
      requires leaf in leaves
      requires Room(if Aligned(index, level) then level else 2 * level - 1)
      modifies this`root, this`nodes, this`keys
      decreases level, 0
      ensures root == old(root)
      ensures Valid() && Flat() && SlotChanged(old(T()), T(), n, k)
      ensures Filled(old(T()), T(), n, index, index', leaf)
      ensures index' + nb' == index + nb && index < index'
      ensures Within(index, index', SlotBlock(old(keys)[n], k))
      ensures nb' > 0 ==> Aligned(index', level) && Shr(index', level) == Shr(index, level) + 1
      ensures |nodes| <= old(|nodes|) + var past := Shr(index', level) != Shr(index, level);
        if Aligned(index, level) then (if past then 0 else level) else (if past then level else 2 * level - 1)
    {
      ghost var t0 := T();
      ghost var b := keys[n];
      ghost var c := SlotBlock(b, k);
      assert NodeOk(t0, n);
      SlotUnder(b, k);
      ShrSucc(index, level);
      if Aligned(index, level) && nb >= Span(level) {
        SetLeaf(n, k, index, leaf, level);
        AlignedBlock(index, level, index);
        index', nb' := index + Span(level), nb - Span(level);
      } else {
        forall i: nat | index <= i < index + nb && InBlock(i, c)
          ensures Walk(t0, nodes[n][k], c, i) == PHYS_SECTION_UNASSIGNED
        {
          ThroughSlot(t0, n, k, i);
        }
        index', nb' := SetLevel(Slot(n, k), index, nb, leaf, level - 1, c);
        SlotFills(t0, T(), n, k, index, index', leaf);
        if Aligned(index, level) { AlignedBlock(index, level, index'); }
      }
    }

    method SetLevel(p: Place, index: nat, nb: nat, leaf: nat, level: nat, ghost b: Block)
      returns (index': nat, nb': nat)
      requires Valid() && Flat() && PlaceFor(p, b) && b.height == level + 1
      requires EntryOk(T(), Get(p), b)
      requires nb > 0 && InBlock(index, b)
      requires forall i: nat | index <= i < index + nb && InBlock(i, b) ::
        Walk(T(), Get(p), b, i) == PHYS_SECTION_UNASSIGNED
      requires leaf in leaves
      requires Room(1 + if Aligned(index, level + 1) then level else 2 * level)
      modifies this`root, this`nodes, this`keys
      decreases level, 3
      ensures Valid() && Flat() && PlaceFor(p, b) && EntryOk(T(), Get(p), b)
      ensures forall i: nat | InBlock(i, b) ::
        Walk(T(), Get(p), b, i) == if index <= i < index' then leaf else old(Walk(T(), Get(p), b, i))
      ensures index' + nb' == index + nb && index < index'
      ensures Within(index, index', b)
      ensures nb' > 0 ==> Aligned(index', level + 1) && Shr(index', level + 1) == b.prefix + 1
      ensures |old(nodes)| <= |nodes| == |keys| && keys[..|old(keys)|] == old(keys)
      ensures p.Slot? ==> root == old(root)
      ensures forall m | 0 <= m < |old(nodes)| && !Under(old(keys)[m], b) ::
        nodes[m] == if p.Slot? && p.node == m then old(nodes)[m][p.k := Get(p)] else old(nodes)[m]
      ensures forall m | |old(nodes)| <= m < |nodes| :: Under(keys[m], b)
      ensures |nodes| <= old(|nodes|) + 1 +
        if Aligned(index, level + 1) || Shr(index', level + 1) != b.prefix then level else 2 * level
    {
      var n := Descend(p, level, b, index);
      index', nb' := FillNode(n, index, nb, leaf, level);
    }

    /** One more iteration, after those that have filled the pages from first up to index. */
    method FillOn(n: nat, k: nat, index: nat, nb: nat, leaf: nat, level: nat, ghost first: nat, ghost t0: Tree,
                  ghost b: Block)
      returns (index': nat, nb': nat)
      requires Valid() && Flat() && n < |nodes| && keys[n] == b && b.height == level + 1 && k < 512
      requires nb > 0 && InBlock(index, SlotBlock(b, k)) && Unmapped(n, index, nb) && leaf in leaves && first <= index
      requires TreeOk(t0) && n < |t0.nodes| && t0.keys[n] == b && OutsideSame(t0, T(), b)
      requires Filled(t0, T(), n, first, index, leaf) && Within(first, index, b)
      requires Room(if Aligned(index, level) then level else 2 * level - 1)
      modifies this`root, this`nodes, this`keys
      decreases level, 1
      ensures root == old(root) && Valid() && Flat() && n < |keys| && keys[n] == b
      ensures OutsideSame(t0, T(), b) && Filled(t0, T(), n, first, index', leaf) && Within(first, index', b)
      ensures index' + nb' == index + nb && index < index'
      ensures nb' > 0 ==> Aligned(index', level) && Shr(index', level) == Shr(index, level) + 1
      ensures Within(index, index', SlotBlock(b, k))
      ensures |nodes| <= old(|nodes|) + var past := Shr(index', level) != Shr(index, level);
        if Aligned(index, level) then (if past then 0 else level) else (if past then level else 2 * level - 1)
    {
      ghost var t := T();
      index', nb' := FillSlot(n, k, index, nb, leaf, level);
      SlotWithin(t0, t, T(), n, k);
      assert keys[..|t.keys|][n] == b;
      WithinOn(first, index, index', b, k);
      FilledOn(t0, t, T(), n, first, index, index', leaf);
    }

    /** The loop of phys_page_set_level on the node it has descended to. */
    method FillNode(n: nat, index: nat, nb: nat, leaf: nat, level: nat) returns (index': nat, nb': nat)
      requires Valid() && Flat() && n < |nodes| && keys[n].height == level + 1
      requires nb > 0 && InBlock(index, keys[n]) && Unmapped(n, index, nb)
      requires leaf in leaves
      requires Room(if Aligned(index, level + 1) then level else 2 * level)
      modifies this`root, this`nodes, this`keys
      decreases level, 2
      ensures root == old(root)
      ensures Valid() && Flat() && OutsideSame(old(T()), T(), old(keys)[n])
      ensures Filled(old(T()), T(), n, index, index', leaf)
      ensures index' + nb' == index + nb && index < index'
      ensures Within(index, index', old(keys)[n])
      ensures nb' > 0 ==> Aligned(index', level + 1) && Shr(index', level + 1) == old(keys)[n].prefix + 1
      ensures |nodes| <= old(|nodes|) +
        if Aligned(index, level + 1) || Shr(index', level + 1) != old(keys)[n].prefix then level else 2 * level
    {
      ghost var t0 := T();
      ghost var b := keys[n];
      ghost var half := if Aligned(index, level) then 0 else level;
      ShrSucc(index, level);
      if Aligned(index, level + 1) { AlignedDown(index, level); }
      index', nb' := index, nb;
      var k := Shr(index, level) % 512;
      while nb' > 0 && k < 512
        invariant 0 <= k <= 512
        invariant Valid() && Flat() && root == old(root) && OutsideSame(t0, T(), b)
        invariant index <= index' && index' + nb' == index + nb && (k == Shr(index, level) % 512 <==> index == index')
        invariant n < |t0.nodes| && keys[n] == b
        invariant Filled(t0, T(), n, index, index', leaf)
        invariant Within(index, index', b)
        invariant nb' > 0 ==> Shr(index', level) == b.prefix * 512 + k && (index < index' ==> Aligned(index', level))
        invariant nb' > 0 ==> |nodes| <= |t0.nodes| + if index == index' then 0 else half
        invariant nb' == 0 ==> |nodes| <= |t0.nodes| + if half == 0 || Shr(index', level + 1) != b.prefix then level
          else 2 * level
        decreases 512 - k
      {
        index', nb' := FillOn(n, k, index', nb', leaf, level, index, t0, b);
        ShrSucc(index', level);
        k := k + 1;
      }
      if nb' > 0 { AlignedUp(index', level); ShrSucc(index', level); }
    }

    /** The section that phys_page_find reaches for a page, before the range check. */
    ghost function Page(i: nat): nat
      reads this
      requires Valid()
    {
      Walk(T(), root, Top(), i)
    }

    /** phys_page_set; the reservation always suffices, so the store does not move while it is filled. */
    method PhysPageSet(index: nat, nb: nat, leaf: nat, hint: nat)
      requires Valid() && Flat() && nb > 0 && index + nb <= Span(levels)
      requires leaf != PHYS_SECTION_UNASSIGNED && leaf < NIL
      requires forall i: nat | index <= i < index + nb :: Page(i) == PHYS_SECTION_UNASSIGNED
      requires |nodes| + 2 * levels <= NIL
      modifies this`root, this`nodes, this`keys, this`leaves, this`capacity
      ensures Valid() && Flat() && leaves == old(leaves) + {leaf}
      ensures forall i: nat | i < Span(levels) :: Page(i) == if index <= i < index + nb then leaf else old(Page(i))
      ensures |nodes| <= old(|nodes|) + 2 * levels - 1
    {
      NodeReserve(3 * levels, hint);
      ghost var t0 := T();
      leaves := leaves + {leaf};
      MoreLeaves(t0, leaf);
      forall i: nat ensures Walk(T(), root, Top(), i) == old(Page(i)) { WalkFrame(t0, T(), root, Top(), i); }
      TopBlock(levels, index);
      forall i: nat ensures InBlock(i, Top()) <==> i < Span(levels) { TopBlock(levels, i); }
      var index', nb' := SetLevel(Root, index, nb, leaf, levels - 1, Top());
      TopBlock(levels, index');
    }

    /** phys_page_compact */
    method Compact(p: Place, ghost b: Block)
      requires Valid() && PlaceFor(p, b) && EntryOk(T(), Get(p), b) && Get(p).skip > 0
      modifies this`root, this`nodes
      decreases b.height, 2
      ensures Valid() && PlaceFor(p, b) && EntryOk(T(), Get(p), b)
      ensures forall i: nat :: Approx(Walk(T(), Get(p), b, i), old(Walk(T(), Get(p), b, i)))
      ensures Get(p).ptr == NIL <==> old(Get(p)).ptr == NIL
      ensures |nodes| == |old(nodes)| && (p.Slot? ==> root == old(root))
      ensures forall m | 0 <= m < |nodes| && !Under(keys[m], b) ::
        nodes[m] == if p.Slot? && p.node == m then old(nodes)[m][p.k := Get(p)] else old(nodes)[m]
    {
      var e := Get(p);
      if e.ptr == NIL {
        return;
      }
      ghost var t0 := T();
      assert Under(keys[e.ptr], b);
      var valid, validPtr := CompactChildren(e.ptr);
      ghost var t := T();
      OutsideSmaller(t0, t, t0.keys[e.ptr], b);
      // compress only if there is one child, and if the skip fits
      if valid != 1 || e.skip + nodes[e.ptr][validPtr].skip >= 8 {
        return;
      }
      var e' := Collapsed(e, nodes[e.ptr][validPtr]);
      assert NodeOk(t, e.ptr);
      CollapsedOk(t, e, b, validPtr);
      CollapsedWalk(t, e, b, validPtr);
      if p.Slot? { WithSlotOk(t, p.node, p.k, e'); }
      Put(p, e');
      forall i: nat ensures Walk(T(), e', b, i) == Walk(t, e', b, i) { WalkFrame(t, T(), e', b, i); }
    }

    /** The loop of phys_page_compact: compact every child, count them and remember the last one. */
    method CompactChildren(n: nat) returns (valid: nat, validPtr: nat)
      requires Valid() && n < |nodes|
      modifies this`root, this`nodes
      decreases keys[n].height, 1
      ensures Valid() && root == old(root) && OutsideSame(old(T()), T(), keys[n])
      ensures forall x: nat :: Approx(WalkNode(T(), n, x), old(WalkNode(T(), n, x)))
      ensures valid == 1 ==>
        validPtr < 512 && nodes[n][validPtr].ptr != NIL && OnlySlot(T(), n, validPtr) && keys[n].height > 1
    {
      ghost var t0 := T();
      ghost var c := keys[n];
      assert NodeOk(t0, n);
      validPtr, valid := 512, 0;
      var i := 0;
      while i < 512
        invariant 0 <= i <= 512 && 0 <= valid <= i
        invariant Valid() && root == old(root) && OutsideSame(t0, T(), c)
        invariant forall x: nat :: Approx(WalkNode(T(), n, x), WalkNode(t0, n, x))
        invariant c.height == 1 ==> valid == i
        invariant valid == 0 ==> forall j | 0 <= j < i :: nodes[n][j].ptr == NIL
        invariant valid == 1 ==> validPtr < i && nodes[n][validPtr].ptr != NIL && forall j | 0 <= j < i
          && j != validPtr :: nodes[n][j].ptr == NIL
      {
        assert NodeOk(T(), n);
        if nodes[n][i].ptr != NIL {
          validPtr := i;
          valid := valid + 1;
          if nodes[n][i].skip != 0 {
            ghost var t := T();
            CompactChild(n, i);
            SlotWithin(t0, t, T(), n, i);
          }
        }
        i := i + 1;
      }
    }

    method CompactChild(n: nat, k: nat)
      requires Valid() && n < |nodes| && k < 512 && nodes[n][k].skip > 0 && keys[n].height > 0
      modifies this`root, this`nodes
      decreases keys[n].height, 0
      ensures Valid() && root == old(root) && SlotChanged(old(T()), T(), n, k)
      ensures forall x: nat :: Approx(WalkNode(T(), n, x), old(WalkNode(T(), n, x)))
      ensures nodes[n][k].ptr == NIL <==> old(nodes)[n][k].ptr == NIL
    {
      ghost var t0 := T();
      assert NodeOk(t0, n);
      Compact(Slot(n, k), SlotBlock(keys[n], k));
      forall x: nat ensures Approx(WalkNode(T(), n, x), WalkNode(t0, n, x)) { SlotApprox(t0, T(), n, k, x); }
    }

    /** address_space_dispatch_compact */
    method CompactAll()
      requires Valid()
      modifies this`root, this`nodes
      ensures Valid() && |nodes| == old(|nodes|)
      ensures forall i: nat :: Approx(Page(i), old(Page(i)))
    {
      if root.skip != 0 {
        Compact(Root, Top());
      }
    }

    /** The loop of phys_page_find. */
    method FindPage(i: nat) returns (ptr: nat)
      requires Valid()
      ensures ptr == Page(i)
    {
      var lp, level := root, levels;
      ghost var b := Top();
      while lp.skip != 0 && level - lp.skip >= 0
        invariant b.height == level && EntryOk(T(), lp, b) && Walk(T(), lp, b, i) == Page(i)
        decreases level
      {
        level := level - lp.skip;
        if lp.ptr == NIL {
          return PHYS_SECTION_UNASSIGNED;
        }
        assert NodeOk(T(), lp.ptr);
        b := SlotBlock(keys[lp.ptr], Shr(i, level) % 512);
        lp := nodes[lp.ptr][Shr(i, level) % 512];
      }
      return lp.ptr;
    }
  }
}
