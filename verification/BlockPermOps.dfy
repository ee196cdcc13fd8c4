/**
 Attaching, changing and detaching users of block nodes: what every such operation of block.c keeps.
 */
module BlockPermOps {
  import opened BlockPerms
  import opened BlockPermUpdate
  import opened BlockPermCommit

  // -------------------------------------------------------------------------------------------
  // Changing the links
  // -------------------------------------------------------------------------------------------

  /** QLIST_REMOVE on a list of distinct edges */
  function Without(es: seq<Edge>, c: Edge): seq<Edge> {
    if es == [] then [] else if es[0] == c then es[1..] else [es[0]] + Without(es[1..], c)
  }

  lemma {:induction false} WithoutElements(es: seq<Edge>, c: Edge)
    requires Distinct(es)
    ensures Distinct(Without(es, c)) && forall e :: e in Without(es, c) <==> e in es && e != c
  {
    if es != [] {
      assert es == [es[0]] + es[1..];
      forall i, j | 0 <= i < j < |es[1..]| ensures es[1..][i] != es[1..][j] { assert es[i + 1] != es[j + 1]; }
      forall e | e in es[1..] ensures e != es[0] {}
      WithoutElements(es[1..], c);
      var r := Without(es, c);
      forall i, j | 0 <= i < j < |r| ensures r[i] != r[j] {
        if es[0] != c { assert r[j] == Without(es[1..], c)[j - 1] && r[j] in Without(es[1..], c); }
      }
    }
  }

  /** A new edge without an owner, in front of the other parents of n. */
  function AddEdge(t: Topo, e: Edge, n: Node, role: Role): Topo
    requires n in t.node
  {
    Topo(t.node[n := t.node[n].(parents := [e] + t.node[n].parents)], t.edge[e := EdgeRec(n, Root, role)])
  }

  /** Edge e becomes the first child of m. */
  function OwnEdge(t: Topo, e: Edge, m: Node): Topo
    requires m in t.node && e in t.edge
  {
    Topo(t.node[m := t.node[m].(children := [e] + t.node[m].children)], t.edge[e := t.edge[e].(owner := Bds(m))])
  }

  function Unlinked(k: Node, r: NodeRec, c: Edge, d: EdgeRec): NodeRec {
    NodeRec(
      r.info,
      if d.owner == Bds(k) then Without(r.children, c) else r.children,
      if d.target == k then Without(r.parents, c) else r.parents)
  }

  /** Edge c leaves the lists of its owner and of its node. */
  function RemoveEdge(t: Topo, c: Edge): Topo
    requires c in t.edge
  {
    Topo(map k | k in t.node :: Unlinked(k, t.node[k], c, t.edge[c]), t.edge - {c})
  }

  lemma {:induction false} AddEdgeOk(t: Topo, rank: Rank, e: Edge, n: Node, role: Role)
    requires TopoOk(t, rank) && n in t.node && e !in t.edge
    ensures TopoOk(AddEdge(t, e, n, role), rank)
  {
    var t1 := AddEdge(t, e, n, role);
    forall k | k in t1.node ensures NodeOk(t1, k) { assert NodeOk(t, k); }
    forall f | f in t1.edge ensures EdgeOk(t1, rank, f) { if f != e { assert EdgeOk(t, rank, f); } }
  }

  lemma {:induction false} OwnEdgeOk(t: Topo, rank: Rank, e: Edge, m: Node)
    requires TopoOk(t, rank) && m in t.node && e in t.edge && t.edge[e].owner == Root
    requires HasChildPerm(t.node[m].info.driver)
    requires t.edge[e].target in t.node && rank(t.edge[e].target) < rank(m)
    ensures TopoOk(OwnEdge(t, e, m), rank)
  {
    var t1 := OwnEdge(t, e, m);
    forall k | k in t1.node ensures NodeOk(t1, k) { assert NodeOk(t, k); }
    forall f | f in t1.edge ensures EdgeOk(t1, rank, f) { assert EdgeOk(t, rank, f); }
  }

  lemma {:induction false} RemoveEdgeOk(t: Topo, rank: Rank, c: Edge)
    requires TopoOk(t, rank) && c in t.edge
    ensures TopoOk(RemoveEdge(t, c), rank)
  {
    var t1 := RemoveEdge(t, c);
    forall k | k in t1.node ensures NodeOk(t1, k) {
      assert NodeOk(t, k);
      WithoutElements(t.node[k].children, c);
      WithoutElements(t.node[k].parents, c);
    }
    forall f | f in t1.edge ensures EdgeOk(t1, rank, f) { RemovedEdgeOk(t, rank, c, f); }
  }

  lemma {:induction false} RemovedEdgeOk(t: Topo, rank: Rank, c: Edge, f: Edge)
    requires TopoOk(t, rank) && c in t.edge && f in t.edge && f != c
    ensures EdgeOk(RemoveEdge(t, c), rank, f)
  {
    assert EdgeOk(t, rank, f);
    var k := t.edge[f].target;
    assert NodeOk(t, k);
    WithoutElements(t.node[k].parents, c);
    if t.edge[f].owner.Bds? {
      assert NodeOk(t, t.edge[f].owner.node);
      WithoutElements(t.node[t.edge[f].owner.node].children, c);
    }
  }

  // -------------------------------------------------------------------------------------------
  // What a change of links does not show in
  // -------------------------------------------------------------------------------------------

  /** t1 has the nodes of t, with the same properties. */
  ghost predicate SameInfo(t: Topo, t1: Topo) {
    t1.node.Keys == t.node.Keys && forall k | k in t.node :: t1.node[k].info == t.node[k].info
  }

  /** Node m has the same edges in both graphs, and they carry the same permissions. */
  ghost predicate SameAround(t: Topo, t1: Topo, p: Perms, p1: Perms, m: Node) {
    && m in t.node && m in t1.node && t1.node[m] == t.node[m]
    && (forall e | e in t.node[m].parents || e in t.node[m].children :: e in p && e in p1 && p1[e].want == p[e].want)
    && (forall e | e in t.node[m].children :: e in t.edge && e in t1.edge && t1.edge[e] == t.edge[e])
  }

  lemma {:induction false} AroundSettled(t: Topo, t1: Topo, rank: Rank, p: Perms, p1: Perms, m: Node)
    requires TopoOk(t, rank) && TopoOk(t1, rank) && PermsFor(t, p) && PermsFor(t1, p1)
    requires SameInfo(t, t1) && SameAround(t, t1, p, p1, m) && Settled(t, rank, p, m)
    ensures Settled(t1, rank, p1, m)
  {
    CumulativeSame(p, p1, t.node[m].parents, {});
    forall e | e in t1.node[m].children ensures ChildOk(t1, rank, p1, e, Cumulative(t1, p1, m)) {
      assert ChildOk(t, rank, p, e, Cumulative(t, p, m));
    }
  }

  lemma {:induction false} AroundSlack(t: Topo, t1: Topo, p: Perms, p1: Perms, m: Node)
    requires SameInfo(t, t1) && SameAround(t, t1, p, p1, m) && SlackAt(t, p, m)
    ensures SlackAt(t1, p1, m)
  {
    CumulativeSame(p, p1, t.node[m].parents, {});
    forall e | e in t1.node[m].children ensures ChildSlack(t1, p1, e, Cumulative(t1, p1, m)) {
      assert ChildSlack(t, p, e, Cumulative(t, p, m));
    }
  }

  /** What is below a node depends on the children lists only. */
  ghost predicate SameChildren(t: Topo, t1: Topo) {
    && t1.node.Keys == t.node.Keys && (forall k | k in t.node :: t1.node[k].children == t.node[k].children)
    && forall e | e in t.edge && t.edge[e].owner.Bds? :: e in t1.edge && t1.edge[e].target == t.edge[e].target
  }

  lemma {:induction false} SameDown(t: Topo, t1: Topo, rank: Rank, n: Node)
    requires TopoOk(t, rank) && TopoOk(t1, rank) && SameChildren(t, t1) && n in t.node
    ensures Down(t1, rank, n) == Down(t, rank, n)
    decreases rank(n), 1, 0
  {
    SameDownAll(t, t1, rank, n, t.node[n].children);
  }

  lemma {:induction false} SameDownAll(t: Topo, t1: Topo, rank: Rank, n: Node, es: seq<Edge>)
    requires TopoOk(t, rank) && TopoOk(t1, rank) && SameChildren(t, t1) && n in t.node
    requires forall e | e in es :: e in t.node[n].children
    ensures DownAll(t1, rank, n, es) == DownAll(t, rank, n, es)
    decreases rank(n), 0, |es|
  {
    if es != [] {
      assert NodeOk(t, n) && es[0] in t.node[n].children && EdgeOk(t, rank, es[0]);
      assert t1.edge[es[0]].target == t.edge[es[0]].target;
      SameDown(t, t1, rank, t.edge[es[0]].target);
      SameDownAll(t, t1, rank, n, es[1..]);
    }
  }

  // -------------------------------------------------------------------------------------------
  // bdrv_set_perm after a check of the same node
  // -------------------------------------------------------------------------------------------

  /** Node n has been checked for v: everything below it is in order. */
  ghost predicate CheckedAt(t: Topo, rank: Rank, p: Perms, n: Node, v: Want)
    requires TopoOk(t, rank) && PermsFor(t, p) && n in t.node
  {
    Passed(t, rank, p, n, v) && SettledOn(t, rank, p, DownAll(t, rank, n, t.node[n].children))
  }

  lemma {:induction false} SettledFromPassed(t: Topo, rank: Rank, p: Perms, n: Node)
    requires TopoOk(t, rank) && PermsFor(t, p) && n in t.node && CheckedAt(t, rank, p, n, Cumulative(t, p, n))
    ensures SettledOn(t, rank, p, Down(t, rank, n))
  {
    MatchesAll(t, rank, p, n, Cumulative(t, p, n));
  }

  /** The edges that a check of n may change are the children of n and the edges below them. */
  lemma {:induction false} LowerIsBelow(t: Topo, rank: Rank, b: set<Node>, n: Node)
    requires TopoOk(t, rank) && n in t.node
    ensures forall e | Lower(t, rank, {n} + b, n, e) :: e in t.node[n].children || Leaves(t, b, e)
  {
    forall e | Lower(t, rank, {n} + b, n, e) ensures e in t.node[n].children || Leaves(t, b, e) {
      assert EdgeOk(t, rank, e);
    }
  }

  lemma {:induction false} SetNodeClears(t: Topo, rank: Rank, p: Perms, p1: Perms, p2: Perms, n: Node, b: set<Node>)
    requires n in t.node && NoBackups(p) && ChangedAt(t, rank, p, p1, {n} + b, n)
    requires forall e | Lower(t, rank, {n} + b, n, e) :: e in t.node[n].children || Leaves(t, b, e)
    requires SweptAll(t, Final, p1, p2, b, t.node[n].children)
    ensures NoBackups(p2) && SameWants(p1, p2)
  {
  }

  lemma {:induction false} AbortNodeRestores(t: Topo, rank: Rank, p: Perms, p1: Perms, p2: Perms, n: Node, b: set<Node>)
    requires n in t.node && NoBackups(p) && Keeps(t, rank, p, p1, {n} + b, n)
    requires forall e | Lower(t, rank, {n} + b, n, e) :: e in t.node[n].children || Leaves(t, b, e)
    requires SweptAll(t, Undone, p1, p2, b, t.node[n].children)
    ensures p2 == p
  {
    forall e | e in p ensures p2[e] == p[e] { assert Original(p1[e]) == Original(p[e]); }
  }

  /**
   After a successful check for the cumulative permissions of n, bdrv_set_perm leaves the checked permissions and no
   backup.
   */
  lemma {:induction false} SetNode(t: Topo, rank: Rank, p: Perms, p1: Perms, n: Node, v: Want)
    requires TopoOk(t, rank) && PermsFor(t, p) && n in t.node && NoBackups(p)
    requires ChangedAt(t, rank, p, p1, Down(t, rank, n), n)
    requires CheckedAt(t, rank, p1, n, v) && v == Cumulative(t, p1, n)
    ensures var p2 := SetChildren(t, rank, p1, n, v, 0);
      NoBackups(p2) && SameWants(p1, p2) && SettledOn(t, rank, p2, Down(t, rank, n))
  {
    var p2 := SetChildren(t, rank, p1, n, v, 0);
    assert t.node[n].children[0..] == t.node[n].children;
    SetChildrenSweeps(t, rank, p1, n, v, 0);
    LowerIsBelow(t, rank, DownAll(t, rank, n, t.node[n].children), n);
    SetNodeClears(t, rank, p, p1, p2, n, DownAll(t, rank, n, t.node[n].children));
    SettledFromPassed(t, rank, p1, n);
    SameWantsSettled(t, rank, p1, p2, Down(t, rank, n));
  }

  lemma {:induction false} AbortNode(t: Topo, rank: Rank, p: Perms, p1: Perms, n: Node)
    requires TopoOk(t, rank) && PermsFor(t, p) && n in t.node && NoBackups(p)
    requires Keeps(t, rank, p, p1, Down(t, rank, n), n)
    ensures AbortChildren(t, rank, p1, n, 0) == p
  {
    var p2 := AbortChildren(t, rank, p1, n, 0);
    assert t.node[n].children[0..] == t.node[n].children;
    AbortChildrenSweeps(t, rank, p1, n, 0);
    LowerIsBelow(t, rank, DownAll(t, rank, n, t.node[n].children), n);
    AbortNodeRestores(t, rank, p, p1, p2, n, DownAll(t, rank, n, t.node[n].children));
  }

  // -------------------------------------------------------------------------------------------
  // Attaching
  // -------------------------------------------------------------------------------------------

  /** A graph, and whether the operation that led to it succeeded. */
  datatype Outcome = Outcome(ok: bool, t: Topo, p: Perms)

  /** bdrv_root_attach_child */
  ghost function AttachRoot(t: Topo, rank: Rank, p: Perms, e: Edge, n: Node, role: Role, w: Want): (r: Outcome)
    requires TopoOk(t, rank) && PermsFor(t, p) && n in t.node && e !in t.edge
  {
    var r := CheckUpdate(t, rank, p, n, w, {});
    if !r.ok then Outcome(false, t, AbortChildren(t, rank, r.p, n, 0)) else
    AddEdgeOk(t, rank, e, n, role);
    var t1, p1 := AddEdge(t, e, n, role), r.p[e := Held(w, NoBackup)];
    Outcome(true, t1, SetChildren(t1, rank, p1, n, Cumulative(t1, p1, n), 0))
  }

  lemma {:induction false} JoinedGrown(p: Perms, es: seq<Edge>, e: Edge, w: Want)
    requires e !in p && forall f | f in es :: f in p
    ensures Joined(p, es, {}, w) ==
      Want(CumPerm(p[e := Held(w, NoBackup)], [e] + es, {}), CumShared(p[e := Held(w, NoBackup)], [e] + es, {}))
  {
    var p1 := p[e := Held(w, NoBackup)];
    assert e in [e] + es;
    forall x: Flag ensures SomeUses(p1, [e] + es, {}, x) <==> x in w.perm || SomeUses(p, es, {}, x) {
      if SomeUses(p, es, {}, x) {
        var f :| f in es && f !in {} && f in p && x in p[f].want.perm;
        assert f in [e] + es;
      }
    }
    forall x: Flag ensures AllShare(p1, [e] + es, {}, x) <==> x in w.shared && AllShare(p, es, {}, x) {
      if AllShare(p1, [e] + es, {}, x) {
        forall f | f in es && f !in {} && f in p ensures x in p[f].want.shared { assert f in [e] + es; }
      }
    }
  }

  lemma {:induction false} OthersSettled(t: Topo, t1: Topo, rank: Rank, p: Perms, p1: Perms, s: set<Node>)
    requires TopoOk(t, rank) && TopoOk(t1, rank) && PermsFor(t, p) && PermsFor(t1, p1) && SameInfo(t, t1)
    requires SettledOn(t, rank, p, s) && forall m | m in s && m in t.node :: SameAround(t, t1, p, p1, m)
    ensures SettledOn(t1, rank, p1, s)
  {
    forall m | m in s && m in t1.node ensures Settled(t1, rank, p1, m) { AroundSettled(t, t1, rank, p, p1, m); }
  }

  /** The second graph is the first one with more users of n. */
  ghost predicate Extends(t: Topo, t1: Topo, p: Perms, p1: Perms, n: Node) {
    && SameInfo(t, t1) && SameChildren(t, t1)
    && (forall f | f in t.edge && f in p :: f in t1.edge && f in p1 && t1.edge[f] == t.edge[f] && p1[f] == p[f])
    && (forall m | m in t.node && m != n :: t1.node[m].parents == t.node[m].parents)
  }

  lemma {:induction false} AddEdgeExtends(t: Topo, p: Perms, e: Edge, n: Node, role: Role, h: Held)
    requires n in t.node && e !in t.edge && e !in p
    ensures Extends(t, AddEdge(t, e, n, role), p, p[e := h], n)
  {
  }

  lemma {:induction false} ExtendsAround(t: Topo, t1: Topo, rank: Rank, p: Perms, p1: Perms, n: Node, m: Node)
    requires TopoOk(t, rank) && PermsFor(t, p) && Extends(t, t1, p, p1, n) && m in t.node && m != n
    ensures SameAround(t, t1, p, p1, m)
  {
    assert NodeOk(t, m);
  }

  lemma {:induction false} ExtendsSettled(t: Topo, t1: Topo, rank: Rank, p: Perms, p1: Perms, n: Node)
    requires TopoOk(t, rank) && PermsFor(t, p) && TopoOk(t1, rank) && PermsFor(t1, p1) && Extends(t, t1, p, p1, n)
    requires n in t.node
    requires SettledOn(t, rank, p, DownAll(t, rank, n, t.node[n].children))
    ensures SettledOn(t1, rank, p1, DownAll(t1, rank, n, t1.node[n].children))
  {
    var s := DownAll(t, rank, n, t.node[n].children);
    SameDownAll(t, t1, rank, n, t.node[n].children);
    DownAllRanks(t, rank, n);
    forall m | m in s && m in t.node ensures SameAround(t, t1, p, p1, m) { ExtendsAround(t, t1, rank, p, p1, n, m); }
    OthersSettled(t, t1, rank, p, p1, s);
  }

  lemma {:induction false} ExtendsChecksOut(t: Topo, t1: Topo, rank: Rank, p: Perms, p1: Perms, n: Node, v: Want)
    requires TopoOk(t, rank) && PermsFor(t, p) && TopoOk(t1, rank) && PermsFor(t1, p1) && Extends(t, t1, p, p1, n)
    requires n in t.node
    requires ChecksOut(t, rank, p, n, v, |t.node[n].children|)
    ensures ChecksOut(t1, rank, p1, n, v, |t1.node[n].children|)
  {
    forall j | 0 <= j < |t.node[n].children| ensures ChildOk(t1, rank, p1, t1.node[n].children[j], v) {
      assert ChildOk(t, rank, p, t.node[n].children[j], v);
    }
  }

  /** A check of n with one more user is a check of n in the graph that has the user. */
  lemma {:induction false} ExtendsChecked(t: Topo, t1: Topo, rank: Rank, p: Perms, p1: Perms, n: Node, v: Want)
    requires TopoOk(t, rank) && PermsFor(t, p) && TopoOk(t1, rank) && PermsFor(t1, p1) && Extends(t, t1, p, p1, n)
    requires n in t.node
    requires CheckedAt(t, rank, p, n, v)
    ensures CheckedAt(t1, rank, p1, n, v)
  {
    ExtendsChecksOut(t, t1, rank, p, p1, n, v);
    ExtendsSettled(t, t1, rank, p, p1, n);
  }

  lemma {:induction false} GrownCumulative(t: Topo, rank: Rank, p: Perms, e: Edge, n: Node, role: Role, w: Want)
    requires TopoOk(t, rank) && PermsFor(t, p) && n in t.node && e !in t.edge
    ensures Cumulative(AddEdge(t, e, n, role), p[e := Held(w, NoBackup)], n) == Joined(p, t.node[n].parents, {}, w)
  {
    assert NodeOk(t, n);
    JoinedGrown(p, t.node[n].parents, e, w);
  }

  /** What a successful bdrv_check_update_perm of n leaves behind. */
  lemma {:induction false} CheckedNode(t: Topo, rank: Rank, p: Perms, n: Node, w: Want)
    requires TopoOk(t, rank) && PermsFor(t, p) && n in t.node
    ensures var r := CheckUpdate(t, rank, p, n, w, {});
      && Keeps(t, rank, p, r.p, Down(t, rank, n), n)
      && (r.ok ==> CheckedAt(t, rank, r.p, n, Joined(r.p, t.node[n].parents, {}, w)))
  {
    var r := CheckUpdate(t, rank, p, n, w, {});
    var d := DownAll(t, rank, n, t.node[n].children);
    DownClosed(t, rank, n);
    CheckUpdateKeeps(t, rank, p, n, w, {}, Down(t, rank, n));
    CheckUpdateSettled(t, rank, p, n, w, {}, {});
    SettledFewer(t, rank, r, {} + d, d);
    IncomingSame(t, rank, p, r.p, Down(t, rank, n), n, {}, w);
  }

  lemma {:induction false} ExtendsChanged(t: Topo, t1: Topo, rank: Rank, p: Perms, p': Perms, e: Edge, h: Held,
                                          b: set<Node>, n: Node)
    requires ChangedAt(t, rank, p, p', b, n) && PermsFor(t, p)
    requires forall f | f in t.edge :: f in t1.edge && t1.edge[f] == t.edge[f]
    ensures ChangedAt(t1, rank, p[e := h], p'[e := h], b, n)
  {
    forall f | f in p && f != e && !Lower(t1, rank, b, n, f) ensures p'[f] == p[f] { assert !Lower(t, rank, b, n, f); }
  }

  lemma {:induction false} NewUserFits(t: Topo, rank: Rank, p: Perms, p': Perms, n: Node, w: Want)
    requires TopoOk(t, rank) && PermsFor(t, p) && n in t.node && ChangedAt(t, rank, p, p', Down(t, rank, n), n)
    requires Fits(t, p, n, {}, w)
    ensures forall f | f in t.edge && t.edge[f].target == n :: Compatible(w, p'[f].want)
  {
    IncomingSame(t, rank, p, p', Down(t, rank, n), n, {}, w);
    forall f | f in t.edge && t.edge[f].target == n ensures Compatible(w, p'[f].want) { assert EdgeOk(t, rank, f); }
  }

  lemma {:induction false} AddEdgePeace(t: Topo, p: Perms, e: Edge, n: Node, role: Role, w: Want)
    requires PermsFor(t, p) && n in t.node && e !in t.edge && Peace(t, p) && WriteUnchanged in w.shared
    requires forall f | f in t.edge && t.edge[f].target == n :: Compatible(w, p[f].want)
    ensures Peace(AddEdge(t, e, n, role), p[e := Held(w, NoBackup)])
  {
  }

  /** The state right before bdrv_set_perm in bdrv_root_attach_child. */
  ghost predicate AboutToSet(t1: Topo, rank: Rank, p: Perms, p1: Perms, n: Node)
    requires TopoOk(t1, rank) && n in t1.node
  {
    && PermsFor(t1, p) && NoBackups(p) && ChangedAt(t1, rank, p, p1, Down(t1, rank, n), n)
    && CheckedAt(t1, rank, p1, n, Cumulative(t1, p1, n))
  }

  lemma {:induction false} GrownChanged(t: Topo, rank: Rank, p: Perms, p': Perms, e: Edge, n: Node, role: Role, h: Held)
    requires TopoOk(t, rank) && PermsFor(t, p) && n in t.node && e !in t.edge && TopoOk(AddEdge(t, e, n, role), rank)
    requires ChangedAt(t, rank, p, p', Down(t, rank, n), n)
    ensures ChangedAt(AddEdge(t, e, n, role), rank, p[e := h], p'[e := h], Down(AddEdge(t, e, n, role), rank, n), n)
  {
    var t1 := AddEdge(t, e, n, role);
    SameDown(t, t1, rank, n);
    ExtendsChanged(t, t1, rank, p, p', e, h, Down(t, rank, n), n);
  }

  lemma {:induction false} AttachReady(t: Topo, rank: Rank, p: Perms, e: Edge, n: Node, role: Role, w: Want)
    requires TopoOk(t, rank) && PermsFor(t, p) && n in t.node && e !in t.edge && NoBackups(p)
    requires TopoOk(AddEdge(t, e, n, role), rank)
    requires CheckUpdate(t, rank, p, n, w, {}).ok
    ensures var h := Held(w, NoBackup);
      AboutToSet(AddEdge(t, e, n, role), rank, p[e := h], CheckUpdate(t, rank, p, n, w, {}).p[e := h], n)
  {
    var p', t1, h := CheckUpdate(t, rank, p, n, w, {}).p, AddEdge(t, e, n, role), Held(w, NoBackup);
    CheckedNode(t, rank, p, n, w);
    AddEdgeExtends(t, p', e, n, role, h);
    GrownCumulative(t, rank, p', e, n, role, w);
    ExtendsChecked(t, t1, rank, p', p'[e := h], n, Joined(p', t.node[n].parents, {}, w));
    GrownChanged(t, rank, p, p', e, n, role, h);
  }

  /** Edges that do not leave nodes below n carry the same permissions in both states. */
  ghost predicate SameBeside(t: Topo, p: Perms, p': Perms, d: set<Node>) {
    forall f | f in t.edge && f in p && !Leaves(t, d, f) :: f in p' && p'[f].want == p[f].want
  }

  lemma {:induction false} ChangedBeside(t: Topo, rank: Rank, p: Perms, p1: Perms, p2: Perms, d: set<Node>, n: Node)
    requires ChangedAt(t, rank, p, p1, d, n) && SameWants(p1, p2)
    ensures SameBeside(t, p, p2, d)
  {
    forall f | f in t.edge && f in p && !Leaves(t, d, f) ensures f in p2 && p2[f].want == p[f].want {
      assert !Lower(t, rank, d, n, f);
    }
  }

  lemma {:induction false} SameWantsPeace(t: Topo, p: Perms, p': Perms)
    requires SameWants(p, p') && Peace(t, p)
    ensures Peace(t, p')
  {
  }

  lemma {:induction false} AttachPeace(t: Topo, rank: Rank, p: Perms, e: Edge, n: Node, role: Role, w: Want)
    requires Calm(t, rank, p) && n in t.node && e !in t.edge && WriteUnchanged in w.shared
    requires CheckUpdate(t, rank, p, n, w, {}).ok
    ensures Peace(AddEdge(t, e, n, role), CheckUpdate(t, rank, p, n, w, {}).p[e := Held(w, NoBackup)])
  {
    var r := CheckUpdate(t, rank, p, n, w, {});
    CheckedNode(t, rank, p, n, w);
    CheckUpdatePeace(t, rank, p, n, w, {});
    NewUserFits(t, rank, p, r.p, n, w);
    AddEdgePeace(t, r.p, e, n, role, w);
  }

  /**
   bdrv_root_attach_child: if it fails, nothing has changed.  If it succeeds, the graph has the new edge with the
   permissions asked for, all users of all nodes tolerate each other, and no backup is left.
   */
  lemma {:induction false} AttachRootCalm(t: Topo, rank: Rank, p: Perms, e: Edge, n: Node, role: Role, w: Want)
    requires Calm(t, rank, p) && n in t.node && e !in t.edge && WriteUnchanged in w.shared
    ensures var r := AttachRoot(t, rank, p, e, n, role, w);
      if !r.ok then r == Outcome(false, t, p) else
        && r.t == AddEdge(t, e, n, role) && Calm(r.t, rank, r.p) && r.p[e] == Held(w, NoBackup)
        && SettledOn(r.t, rank, r.p, Down(r.t, rank, n))
        && SameBeside(r.t, p[e := Held(w, NoBackup)], r.p, Down(r.t, rank, n))
  {
    var r := CheckUpdate(t, rank, p, n, w, {});
    CheckedNode(t, rank, p, n, w);
    if !r.ok {
      AbortNode(t, rank, p, r.p, n);
    } else {
      var t1, h := AddEdge(t, e, n, role), Held(w, NoBackup);
      var p1 := r.p[e := h];
      AddEdgeOk(t, rank, e, n, role);
      AttachReady(t, rank, p, e, n, role, w);
      SetNode(t1, rank, p[e := h], p1, n, Cumulative(t1, p1, n));
      AttachPeace(t, rank, p, e, n, role, w);
      var p2 := SetChildren(t1, rank, p1, n, Cumulative(t1, p1, n), 0);
      SameWantsPeace(t1, p1, p2);
      ChangedBeside(t1, rank, p[e := h], p1, p2, Down(t1, rank, n), n);
    }
  }

  /** bdrv_attach_child: m asks n for what its own parents make it ask for. */
  ghost function AttachChild(t: Topo, rank: Rank, p: Perms, e: Edge, m: Node, n: Node, role: Role): (r: Outcome)
    requires TopoOk(t, rank) && PermsFor(t, p) && n in t.node && m in t.node && e !in t.edge
  {
    var r := AttachRoot(t, rank, p, e, n, role, FirstWant(t, p, m, n, role));
    if r.ok then Outcome(true, OwnEdge(r.t, e, m), r.p) else r
  }

  ghost function FirstWant(t: Topo, p: Perms, m: Node, n: Node, role: Role): Want
    requires n in t.node && m in t.node
  {
    ChildWant(t.node[m].info, t.node[n].info, NoBackup, role, Cumulative(t, p, m))
  }

  lemma {:induction false} FirstWantTolerates(t: Topo, p: Perms, m: Node, n: Node, role: Role)
    requires n in t.node && m in t.node && Tolerant(p)
    ensures WriteUnchanged in FirstWant(t, p, m, n, role).shared
  {
    assert AllShare(p, t.node[m].parents, {}, WriteUnchanged);
    ChildWantTolerates(t.node[m].info, t.node[n].info, NoBackup, role, Cumulative(t, p, m));
  }

  lemma {:induction false} OwnEdgeCompatible(t: Topo, p: Perms, e: Edge, m: Node)
    requires AllCompatible(t, p) && m in t.node && e in t.edge
    ensures AllCompatible(OwnEdge(t, e, m), p)
  {
    var t1 := OwnEdge(t, e, m);
    forall f, g | f in t1.edge && g in t1.edge && f in p && g in p && f != g && t1.edge[f].target == t1.edge[g].target
      ensures Compatible(p[f].want, p[g].want) { assert t.edge[f].target == t.edge[g].target; }
  }

  /** bdrv_attach_child keeps what bdrv_root_attach_child keeps. */
  lemma {:induction false} AttachChildCalm(t: Topo, rank: Rank, p: Perms, e: Edge, m: Node, n: Node, role: Role)
    requires Calm(t, rank, p) && n in t.node && m in t.node && e !in t.edge
    requires HasChildPerm(t.node[m].info.driver) && rank(n) < rank(m)
    ensures var r := AttachChild(t, rank, p, e, m, n, role);
      if !r.ok then r == Outcome(false, t, p) else
        r.t == OwnEdge(AddEdge(t, e, n, role), e, m) && Calm(r.t, rank, r.p)
          && r.p[e] == Held(FirstWant(t, p, m, n, role), NoBackup)
  {
    FirstWantTolerates(t, p, m, n, role);
    AttachRootCalm(t, rank, p, e, n, role, FirstWant(t, p, m, n, role));
    var r := AttachRoot(t, rank, p, e, n, role, FirstWant(t, p, m, n, role));
    if r.ok {
      OwnEdgeOk(r.t, rank, e, m);
      OwnEdgeCompatible(r.t, r.p, e, m);
    }
  }

  // -------------------------------------------------------------------------------------------
  // Detaching
  // -------------------------------------------------------------------------------------------

  /** bdrv_detach_child; not ok when the check that bdrv_replace_child makes with error_abort fails. */
  ghost function Detach(t: Topo, rank: Rank, p: Perms, c: Edge): (r: Outcome)
    requires TopoOk(t, rank) && PermsFor(t, p) && c in t.edge
  {
    RemoveEdgeOk(t, rank, c);
    assert EdgeOk(t, rank, c);
    var t1, n, p1 := RemoveEdge(t, c), t.edge[c].target, p - {c};
    var v := Cumulative(t1, p1, n);
    var r := CheckPerm(t1, rank, p1, n, v, {});
    Outcome(r.ok, t1, if r.ok then SetChildren(t1, rank, r.p, n, v, 0) else r.p)
  }

  /** What a successful bdrv_check_perm of n for its cumulative permissions leaves behind. */
  lemma {:induction false} RecheckedNode(t: Topo, rank: Rank, p: Perms, n: Node)
    requires TopoOk(t, rank) && PermsFor(t, p) && n in t.node && NoBackups(p)
    ensures var r := CheckPerm(t, rank, p, n, Cumulative(t, p, n), {});
      r.ok ==> AboutToSet(t, rank, p, r.p, n) && Cumulative(t, r.p, n) == Cumulative(t, p, n)
  {
    var v := Cumulative(t, p, n);
    var r := CheckPerm(t, rank, p, n, v, {});
    var d := DownAll(t, rank, n, t.node[n].children);
    DownClosed(t, rank, n);
    CheckPermKeeps(t, rank, p, n, v, {}, Down(t, rank, n));
    CheckPermSettled(t, rank, p, n, v, {}, {});
    SettledFewer(t, rank, r, {} + d, d);
    IncomingSame(t, rank, p, r.p, Down(t, rank, n), n, {}, Want({}, ALL));
    JoinedFromNothing(p, t.node[n].parents);
    JoinedFromNothing(r.p, t.node[n].parents);
  }

  lemma {:induction false} RemoveEdgePeace(t: Topo, p: Perms, c: Edge)
    requires Peace(t, p) && c in t.edge
    ensures Peace(RemoveEdge(t, c), p - {c})
  {
  }

  /** bdrv_detach_child keeps what the other operations keep, and leaves the nodes below consistent. */
  lemma {:induction false} DetachCalm(t: Topo, rank: Rank, p: Perms, c: Edge)
    requires Calm(t, rank, p) && c in t.edge
    ensures var r, n := Detach(t, rank, p, c), t.edge[c].target;
      && r.t == RemoveEdge(t, c) && TopoOk(r.t, rank) && n in r.t.node
      && (r.ok ==>
            && Calm(r.t, rank, r.p) && SettledOn(r.t, rank, r.p, Down(r.t, rank, n))
            && SameBeside(r.t, p - {c}, r.p, Down(r.t, rank, n)))
  {
    RemoveEdgeOk(t, rank, c);
    assert EdgeOk(t, rank, c);
    RemoveEdgePeace(t, p, c);
    RecheckedCalm(RemoveEdge(t, c), rank, p - {c}, t.edge[c].target);
  }

  lemma {:induction false} RecheckedCalm(t: Topo, rank: Rank, p: Perms, n: Node)
    requires Calm(t, rank, p) && n in t.node
    ensures var v := Cumulative(t, p, n);
      var r := CheckPerm(t, rank, p, n, v, {});
      r.ok ==> var p2 := SetChildren(t, rank, r.p, n, v, 0);
        Calm(t, rank, p2) && SettledOn(t, rank, p2, Down(t, rank, n)) && SameBeside(t, p, p2, Down(t, rank, n))
  {
    var v := Cumulative(t, p, n);
    var r := CheckPerm(t, rank, p, n, v, {});
    if r.ok {
      RecheckedNode(t, rank, p, n);
      SetNode(t, rank, p, r.p, n, v);
      assert AllShare(p, t.node[n].parents, {}, WriteUnchanged);
      CheckPermPeace(t, rank, p, n, v, {});
      var p2 := SetChildren(t, rank, r.p, n, v, 0);
      SameWantsPeace(t, r.p, p2);
      ChangedBeside(t, rank, p, r.p, p2, Down(t, rank, n), n);
    }
  }

  // -------------------------------------------------------------------------------------------
  // Changing the permissions of an edge
  // -------------------------------------------------------------------------------------------

  lemma {:induction false} KeepsBeside(t: Topo, rank: Rank, p: Perms, p1: Perms, p2: Perms, d: set<Node>, n: Node,
                                       c: Edge)
    requires Changed(t, rank, p, p1, d, n, c) && SameWants(p1, p2) && c in p
    ensures SameBeside(t, p[c := p2[c]], p2, d)
  {
    forall f | f in t.edge && f in p && f != c && !Leaves(t, d, f) ensures f in p2 && p2[f].want == p[f].want {
      assert !Lower(t, rank, d, n, f);
    }
  }

  /** bdrv_child_try_set_perm, on any edge, keeps all users of all nodes compatible. */
  lemma {:induction false} TrySetCalm(t: Topo, rank: Rank, p: Perms, c: Edge, w: Want)
    requires Calm(t, rank, p) && c in t.edge && t.edge[c].target in t.node && WriteUnchanged in w.shared
    ensures var r, d := TrySet(t, rank, p, c, w), Down(t, rank, t.edge[c].target);
      if !r.ok then r.p == p else
        Calm(t, rank, r.p) && r.p[c] == Held(w, NoBackup) && SettledOn(t, rank, r.p, d)
          && SameBeside(t, p[c := r.p[c]], r.p, d)
  {
    var n, r, p2 := t.edge[c].target, ChildCheck(t, rank, p, c, w, {}), TrySet(t, rank, p, c, w).p;
    TrySetIsAtomic(t, rank, p, c, w);
    if r.ok {
      ChildCheckPeace(t, rank, p, c, w, {});
      SameWantsPeace(t, r.p, p2);
      CheckedBelow(t, rank, p, c, w);
      SameWantsSettled(t, rank, r.p, p2, Down(t, rank, n));
      DownClosed(t, rank, n);
      ChildCheckKeeps(t, rank, p, c, w, {}, Down(t, rank, n));
      KeepsBeside(t, rank, p, r.p, p2, Down(t, rank, n), n, c);
    }
  }

  // -------------------------------------------------------------------------------------------
  // Slack: which operations keep it
  // -------------------------------------------------------------------------------------------

  /** A node whose edges do not change keeps its slack; a consistent node has it. */
  lemma {:induction false} SlackKept(t: Topo, rank: Rank, p: Perms, p': Perms, d: set<Node>, m: Node)
    requires TopoOk(t, rank) && PermsFor(t, p) && PermsFor(t, p') && Closed(t, d) && m in t.node
    requires SettledOn(t, rank, p', d) && SameBeside(t, p, p', d) && (m !in d ==> SlackAt(t, p, m))
    ensures SlackAt(t, p', m)
  {
    if m in d {
      SettledSlack(t, rank, p', m);
    } else {
      BesideAround(t, rank, p, p', d, m);
      AroundSlack(t, t, p, p', m);
    }
  }

  lemma {:induction false} SettledSlack(t: Topo, rank: Rank, p: Perms, m: Node)
    requires TopoOk(t, rank) && PermsFor(t, p) && m in t.node && Settled(t, rank, p, m)
    ensures SlackAt(t, p, m)
  {
    forall e | e in t.node[m].children ensures ChildSlack(t, p, e, Cumulative(t, p, m)) {
      assert ChildOk(t, rank, p, e, Cumulative(t, p, m)) && EdgeOk(t, rank, e);
    }
  }

  lemma {:induction false} BesideAround(t: Topo, rank: Rank, p: Perms, p': Perms, d: set<Node>, m: Node)
    requires TopoOk(t, rank) && PermsFor(t, p) && PermsFor(t, p') && Closed(t, d) && SameBeside(t, p, p', d)
    requires m in t.node && m !in d
    ensures SameAround(t, t, p, p', m)
  {
    assert NodeOk(t, m);
    forall e | e in t.node[m].parents || e in t.node[m].children ensures e in t.edge && p'[e].want == p[e].want {
      assert EdgeOk(t, rank, e) && !Leaves(t, d, e);
    }
  }

  /** Node m gets at least what it asks for on its own edge c, if c holds w. */
  ghost predicate GivesEnough(t: Topo, p: Perms, c: Edge, w: Want, m: Node)
    requires m in t.node && c in p
  {
    ChildSlack(t, p[c := Held(w, NoBackup)], c, Cumulative(t, p, m))
  }

  lemma {:induction false} StoredSlack(t: Topo, rank: Rank, p: Perms, c: Edge, w: Want, m: Node)
    requires TopoOk(t, rank) && PermsFor(t, p) && c in t.edge && m in t.node && m != t.edge[c].target
    requires SlackAt(t, p, m)
    requires t.edge[c].owner == Bds(m) ==> GivesEnough(t, p, c, w, m)
    ensures SlackAt(t, p[c := Held(w, NoBackup)], m)
  {
    var p' := p[c := Held(w, NoBackup)];
    assert NodeOk(t, m);
    CumulativeSame(p, p', t.node[m].parents, {});
    forall e | e in t.node[m].children ensures ChildSlack(t, p', e, Cumulative(t, p', m)) {
      assert ChildSlack(t, p, e, Cumulative(t, p, m));
    }
  }

  /**
   A successful bdrv_child_try_set_perm leaves a node with the slack it had, except for the owner of the edge: that
   node keeps its slack exactly if the edge gets at least what the node asks for.
   */
  lemma {:induction false} TrySetSlack(t: Topo, rank: Rank, p: Perms, c: Edge, w: Want, m: Node)
    requires Calm(t, rank, p) && c in t.edge && WriteUnchanged in w.shared && TrySet(t, rank, p, c, w).ok
    requires m in t.node && SlackAt(t, p, m)
    ensures SlackAt(t, TrySet(t, rank, p, c, w).p, m) <==> (t.edge[c].owner == Bds(m) ==> GivesEnough(t, p, c, w, m))
  {
    assert EdgeOk(t, rank, c);
    var n, p' := t.edge[c].target, TrySet(t, rank, p, c, w).p;
    var d := Down(t, rank, n);
    TrySetCalm(t, rank, p, c, w);
    DownClosed(t, rank, n);
    if t.edge[c].owner == Bds(m) ==> GivesEnough(t, p, c, w, m) {
      if m !in d { StoredSlack(t, rank, p, c, w, m); }
      SlackKept(t, rank, p[c := p'[c]], p', d, m);
    } else if SlackAt(t, p', m) {
      SlackGives(t, rank, p, p', c, w, d, m);
    }
  }

  lemma {:induction false} SlackGives(t: Topo, rank: Rank, p: Perms, p': Perms, c: Edge, w: Want, d: set<Node>, m: Node)
    requires TopoOk(t, rank) && PermsFor(t, p) && PermsFor(t, p') && m in t.node && SlackAt(t, p', m)
    requires c in t.edge && t.edge[c].owner == Bds(m) && t.edge[c].target in t.node
    requires d == Down(t, rank, t.edge[c].target)
    requires p'[c] == Held(w, NoBackup) && SameBeside(t, p[c := p'[c]], p', d) && Closed(t, d)
    ensures GivesEnough(t, p, c, w, m)
  {
    assert EdgeOk(t, rank, c) && NodeOk(t, m);
    if m in d { DownRank(t, rank, t.edge[c].target, m); }
    BesideAround(t, rank, p[c := p'[c]], p', d, m);
    CumulativeSame(p[c := p'[c]], p', t.node[m].parents, {});
    CumulativeSame(p, p[c := p'[c]], t.node[m].parents, {});
    assert ChildSlack(t, p', c, Cumulative(t, p', m));
  }

  lemma {:induction false} AttachRootSlack(t: Topo, rank: Rank, p: Perms, e: Edge, n: Node, role: Role, w: Want,
                                           m: Node)
    requires Calm(t, rank, p) && n in t.node && e !in t.edge && WriteUnchanged in w.shared
    requires AttachRoot(t, rank, p, e, n, role, w).ok && m in t.node && SlackAt(t, p, m)
    ensures var r := AttachRoot(t, rank, p, e, n, role, w); m in r.t.node && SlackAt(r.t, r.p, m)
  {
    var r, h := AttachRoot(t, rank, p, e, n, role, w), Held(w, NoBackup);
    AttachRootCalm(t, rank, p, e, n, role, w);
    AddEdgeExtends(t, p, e, n, role, h);
    var d := Down(r.t, rank, n);
    if m !in d {
      ExtendsAround(t, r.t, rank, p, p[e := h], n, m);
      AroundSlack(t, r.t, p, p[e := h], m);
    }
    DownClosed(r.t, rank, n);
    SlackKept(r.t, rank, p[e := h], r.p, d, m);
  }

  lemma {:induction false} OwnEdgeSlack(t: Topo, rank: Rank, p: Perms, e: Edge, m: Node, k: Node)
    requires TopoOk(t, rank) && PermsFor(t, p) && k in t.node && SlackAt(t, p, k)
    requires m in t.node && e in t.edge && t.edge[e].owner == Root && t.edge[e].target in t.node
    requires k == m ==> ChildSlack(OwnEdge(t, e, m), p, e, Cumulative(t, p, m))
    ensures SlackAt(OwnEdge(t, e, m), p, k)
  {
    var t1 := OwnEdge(t, e, m);
    assert NodeOk(t, k);
    if k == m {
      forall f | f in t1.node[m].children ensures ChildSlack(t1, p, f, Cumulative(t1, p, m)) {
        if f != e { assert ChildSlack(t, p, f, Cumulative(t, p, m)); }
      }
    } else {
      AroundSlack(t, t1, p, p, k);
    }
  }

  /** A new child holds exactly what its owner asks for. */
  lemma {:induction false} FirstWantIsEnough(t: Topo, t1: Topo, p: Perms, p1: Perms, e: Edge, m: Node, n: Node,
                                             role: Role)
    requires n in t.node && m in t.node && SameInfo(t, t1) && Cumulative(t1, p1, m) == Cumulative(t, p, m)
    requires e in t1.edge && t1.edge[e] == EdgeRec(n, Bds(m), role) && e in p1
    requires p1[e].want == FirstWant(t, p, m, n, role)
    ensures ChildSlack(t1, p1, e, Cumulative(t1, p1, m))
  {
    ChildWantIdempotent(t.node[m].info, t.node[n].info, NoBackup, role, Cumulative(t, p, m));
  }

  /** bdrv_attach_child takes no node's slack away. */
  lemma {:induction false} AttachChildSlack(t: Topo, rank: Rank, p: Perms, e: Edge, m: Node, n: Node, role: Role,
                                            k: Node)
    requires Calm(t, rank, p) && n in t.node && m in t.node && e !in t.edge
    requires HasChildPerm(t.node[m].info.driver) && rank(n) < rank(m) && AttachChild(t, rank, p, e, m, n, role).ok
    requires k in t.node && SlackAt(t, p, k)
    ensures var r := AttachChild(t, rank, p, e, m, n, role); k in r.t.node && SlackAt(r.t, r.p, k)
  {
    var w := FirstWant(t, p, m, n, role);
    var r := AttachRoot(t, rank, p, e, n, role, w);
    FirstWantTolerates(t, p, m, n, role);
    AttachRootCalm(t, rank, p, e, n, role, w);
    AttachRootSlack(t, rank, p, e, n, role, w, k);
    AttachedOwner(t, rank, p, r.t, r.p, e, m, n, role, w);
    FirstWantIsEnough(t, OwnEdge(r.t, e, m), p, r.p, e, m, n, role);
    OwnEdgeSlack(r.t, rank, r.p, e, m, k);
  }

  /** What the parents of m ask for does not depend on a new edge to a node below m. */
  lemma {:induction false} AttachedOwner(t: Topo, rank: Rank, p: Perms, t1: Topo, p1: Perms, e: Edge, m: Node, n: Node,
                                         role: Role, w: Want)
    requires Calm(t, rank, p) && n in t.node && m in t.node && e !in t.edge && rank(n) < rank(m)
    requires t1 == AddEdge(t, e, n, role) && TopoOk(t1, rank) && PermsFor(t1, p1)
    requires SameBeside(t1, p[e := Held(w, NoBackup)], p1, Down(t1, rank, n))
    ensures Cumulative(t1, p1, m) == Cumulative(t, p, m)
  {
    if m in Down(t1, rank, n) { DownRank(t1, rank, n, m); }
    DownClosed(t1, rank, n);
    BesideAround(t1, rank, p[e := Held(w, NoBackup)], p1, Down(t1, rank, n), m);
    assert NodeOk(t, m);
    CumulativeSame(p, p1, t.node[m].parents, {});
  }

  lemma {:induction false} CumulativeFewer(p: Perms, p1: Perms, es: seq<Edge>, es1: seq<Edge>)
    requires forall e | e in es1 :: e in es && e in p && e in p1 && p1[e].want == p[e].want
    ensures Looser(Want(CumPerm(p1, es1, {}), CumShared(p1, es1, {})), Want(CumPerm(p, es, {}), CumShared(p, es, {})))
  {
    forall x: Flag | SomeUses(p1, es1, {}, x) ensures SomeUses(p, es, {}, x) {}
    forall x: Flag | AllShare(p, es, {}, x) ensures AllShare(p1, es1, {}, x) {}
  }

  /** Removing an edge keeps the slack of a node: the permission functions are monotone. */
  lemma {:induction false} RemoveEdgeSlack(t: Topo, rank: Rank, p: Perms, c: Edge, m: Node)
    requires TopoOk(t, rank) && PermsFor(t, p) && c in t.edge && m in t.node && SlackAt(t, p, m) && MonotoneAt(t, m)
    ensures m in RemoveEdge(t, c).node && SlackAt(RemoveEdge(t, c), p - {c}, m) && MonotoneAt(RemoveEdge(t, c), m)
  {
    var t1, p1 := RemoveEdge(t, c), p - {c};
    assert NodeOk(t, m);
    WithoutElements(t.node[m].children, c);
    WithoutElements(t.node[m].parents, c);
    CumulativeFewer(p, p1, t.node[m].parents, t1.node[m].parents);
    LooserGrants(t, m, Cumulative(t1, p1, m), Cumulative(t, p, m));
    forall e | e in t1.node[m].children ensures ChildSlack(t1, p1, e, Cumulative(t1, p1, m)) {
      assert ChildSlack(t, p, e, Cumulative(t, p, m));
      LooserAsks(t, e, p[e].want, p[e].want, Cumulative(t, p, m), Cumulative(t1, p1, m), p[e].want);
    }
  }

  /** bdrv_detach_child, if it does not abort, takes no node's slack away. */
  lemma {:induction false} DetachSlack(t: Topo, rank: Rank, p: Perms, c: Edge, m: Node)
    requires Calm(t, rank, p) && c in t.edge && Detach(t, rank, p, c).ok && m in t.node && SlackAt(t, p, m)
    requires MonotoneAt(t, m)
    ensures var r := Detach(t, rank, p, c); m in r.t.node && SlackAt(r.t, r.p, m)
  {
    var t1, n := RemoveEdge(t, c), t.edge[c].target;
    RemoveEdgeSlack(t, rank, p, c, m);
    DetachCalm(t, rank, p, c);
    DownClosed(t1, rank, n);
    SlackKept(t1, rank, p - {c}, Detach(t, rank, p, c).p, Down(t1, rank, n), m);
  }

  // -------------------------------------------------------------------------------------------
  // When detaching does not fail
  // -------------------------------------------------------------------------------------------

  /**
   The check that bdrv_replace_child makes after taking a parent away does not fail if there are permissions q, no
   looser than the present ones, under which all users agree and the nodes below have slack.
   */
  lemma {:induction false} DetachSucceeds(t: Topo, rank: Rank, p: Perms, c: Edge, q: Perms)
    requires Calm(t, rank, p) && c in t.edge && t.edge[c].target in t.node && TopoOk(RemoveEdge(t, c), rank)
    requires AllLooser(p - {c}, q)
    requires SlackOn(RemoveEdge(t, c), q, Down(RemoveEdge(t, c), rank, t.edge[c].target))
    ensures Detach(t, rank, p, c).ok
  {
    var t1, n, p1 := RemoveEdge(t, c), t.edge[c].target, p - {c};
    assert EdgeOk(t, rank, c);
    DownClosed(t1, rank, n);
    LooserCumulative(p1, q, t1.node[n].parents);
    CheckPermRelaxed(t1, rank, p1, n, Cumulative(t1, p1, n), {}, q, Down(t1, rank, n));
  }

  lemma {:induction false} LooserCumulative(p: Perms, q: Perms, es: seq<Edge>)
    requires AllLooser(p, q)
    ensures Looser(Want(CumPerm(p, es, {}), CumShared(p, es, {})), Want(CumPerm(q, es, {}), CumShared(q, es, {})))
  {
    forall x: Flag | SomeUses(p, es, {}, x) ensures SomeUses(q, es, {}, x) {}
    forall x: Flag | AllShare(q, es, {}, x) ensures AllShare(p, es, {}, x) {}
  }

  /** Nothing new is below a node after an edge to it has gone. */
  lemma {:induction false} RemovedDown(t: Topo, rank: Rank, c: Edge)
    requires TopoOk(t, rank) && c in t.edge && t.edge[c].target in t.node && TopoOk(RemoveEdge(t, c), rank)
    ensures Down(RemoveEdge(t, c), rank, t.edge[c].target) <= Down(t, rank, t.edge[c].target)
  {
    var n, t1 := t.edge[c].target, RemoveEdge(t, c);
    DownClosed(t, rank, n);
    forall k, e | k in Down(t, rank, n) && k in t1.node && e in t1.node[k].children && e in t1.edge
      ensures t1.edge[e].target in Down(t, rank, n)
    {
      assert NodeOk(t1, k);
    }
    DownLeast(t1, rank, n, Down(t, rank, n));
  }

  /** The node that c leads to, and all nodes below it, have slack. */
  ghost predicate SlackBelow(t: Topo, rank: Rank, p: Perms, c: Edge)
    requires TopoOk(t, rank) && c in t.edge
  {
    assert EdgeOk(t, rank, c);
    forall m | m in Down(t, rank, t.edge[c].target) && m in t.node :: SlackAt(t, p, m) && MonotoneAt(t, m)
  }

  /** In particular it does not fail if the nodes below have slack, whatever the rest of the graph is like. */
  lemma {:induction false} DetachNeverFails(t: Topo, rank: Rank, p: Perms, c: Edge)
    requires Calm(t, rank, p) && c in t.edge && SlackBelow(t, rank, p, c)
    ensures Detach(t, rank, p, c).ok
  {
    var t1, n, p1 := RemoveEdge(t, c), t.edge[c].target, p - {c};
    RemoveEdgeOk(t, rank, c);
    assert EdgeOk(t, rank, c);
    RemoveEdgePeace(t, p, c);
    RemovedDown(t, rank, c);
    forall m | m in Down(t1, rank, n) && m in t1.node ensures SlackAt(t1, p1, m) && MonotoneAt(t1, m) {
      RemoveEdgeSlack(t, rank, p, c, m);
    }
    DetachSucceeds(t, rank, p, c, p1);
  }
}
