/**
 The permission update of block.c as functions on permission states: what bdrv_check_perm and its
 relatives record, and what a check guarantees.
 */
module BlockPermUpdate {
  import opened BlockPerms

  /** The result of a check: whether it succeeded, and the state it leaves behind. */
  datatype Checked = Checked(ok: bool, p: Perms)

  /** Nobody who uses n, apart from the ignored edges, is in the way of w. */
  ghost predicate Fits(t: Topo, p: Perms, n: Node, ignore: set<Edge>, w: Want)
    requires n in t.node
  {
    forall e | e in t.node[n].parents && e !in ignore && e in p :: Compatible(w, p[e].want)
  }

  /** The end of bdrv_child_check_perm: keep the first backup, store the new want. */
  function Stored(p: Perms, c: Edge, w: Want): Perms
    requires c in p
  {
    p[c := Held(w, if p[c].backup.Saved? then p[c].backup else Saved(p[c].want))]
  }

  /** bdrv_child_check_perm */
  ghost function ChildCheck(t: Topo, rank: Rank, p: Perms, c: Edge, w: Want, ignore: set<Edge>): (r: Checked)
    requires TopoOk(t, rank) && PermsFor(t, p) && c in t.edge
    ensures r.p.Keys == p.Keys
    decreases rank(t.edge[c].target), 3, 0
  {
    assert EdgeOk(t, rank, c);
    var r := CheckUpdate(t, rank, p, t.edge[c].target, w, ignore + {c});
    if r.ok then Checked(true, Stored(r.p, c, w)) else r
  }

  /** bdrv_check_update_perm */
  ghost function CheckUpdate(t: Topo, rank: Rank, p: Perms, n: Node, w: Want, ignore: set<Edge>): (r: Checked)
    requires TopoOk(t, rank) && PermsFor(t, p) && n in t.node
    ensures r.p.Keys == p.Keys
    decreases rank(n), 2, 0
  {
    if Fits(t, p, n, ignore, w) then CheckPerm(t, rank, p, n, Joined(p, t.node[n].parents, ignore, w), ignore)
      else Checked(false, p)
  }

  /** bdrv_check_perm */
  ghost function CheckPerm(t: Topo, rank: Rank, p: Perms, n: Node, v: Want, ignore: set<Edge>): (r: Checked)
    requires TopoOk(t, rank) && PermsFor(t, p) && n in t.node
    ensures r.p.Keys == p.Keys
    decreases rank(n), 1, 0
  {
    if Grants(t.node[n].info, v) then CheckChildren(t, rank, p, n, v, ignore, 0) else Checked(false, p)
  }

  /** The loop of bdrv_check_perm from child i on. */
  ghost function CheckChildren(t: Topo, rank: Rank, p: Perms, n: Node, v: Want, ignore: set<Edge>, i: nat): (r: Checked)
    requires TopoOk(t, rank) && PermsFor(t, p) && n in t.node && i <= |t.node[n].children|
    ensures r.p.Keys == p.Keys
    decreases rank(n), 0, |t.node[n].children| - i
  {
    if i == |t.node[n].children| then Checked(true, p) else
    var c := t.node[n].children[i];
    assert NodeOk(t, n) && c in t.node[n].children && EdgeOk(t, rank, c);
    var r := ChildCheck(t, rank, p, c, Asks(t, c, p[c].want, v), ignore);
    if r.ok then CheckChildren(t, rank, r.p, n, v, ignore, i + 1) else r
  }

  // -------------------------------------------------------------------------------------------
  // A check only touches edges below, and remembers what to go back to
  // -------------------------------------------------------------------------------------------

  /** p' aborts to the same permissions as p, and differs from it only below n. */
  ghost predicate Keeps(t: Topo, rank: Rank, p: Perms, p': Perms, b: set<Node>, n: Node) {
    SameOriginals(p, p') && ChangedAt(t, rank, p, p', b, n)
  }

  /** As Keeps, but c, which leads to n, may have changed as well. */
  ghost predicate KeepsFrom(t: Topo, rank: Rank, p: Perms, p': Perms, b: set<Node>, n: Node, c: Edge) {
    SameOriginals(p, p') && Changed(t, rank, p, p', b, n, c)
  }

  lemma {:induction false} KeepsStored(t: Topo, rank: Rank, p: Perms, p': Perms, b: set<Node>, n: Node, c: Edge,
                                       w: Want)
    requires Keeps(t, rank, p, p', b, n) && c in p
    ensures KeepsFrom(t, rank, p, p', b, n, c) && KeepsFrom(t, rank, p, Stored(p', c, w), b, n, c)
  {
  }

  lemma {:induction false} KeepsRefl(t: Topo, rank: Rank, p: Perms, b: set<Node>, n: Node)
    ensures Keeps(t, rank, p, p, b, n)
  {
  }

  lemma {:induction false} KeepsUp(t: Topo, rank: Rank, p: Perms, p': Perms, b: set<Node>, n: Node, c: Edge)
    requires TopoOk(t, rank) && n in b && c in t.edge && t.edge[c].owner == Bds(n)
    requires KeepsFrom(t, rank, p, p', b, t.edge[c].target, c)
    ensures Keeps(t, rank, p, p', b, n)
  {
    assert EdgeOk(t, rank, c);
  }

  lemma {:induction false} KeepsTrans(t: Topo, rank: Rank, p: Perms, p': Perms, p'': Perms, b: set<Node>, n: Node)
    requires Keeps(t, rank, p, p', b, n) && Keeps(t, rank, p', p'', b, n)
    ensures Keeps(t, rank, p, p'', b, n)
  {
  }

  lemma {:induction false} ChildCheckKeeps(t: Topo, rank: Rank, p: Perms, c: Edge, w: Want, ignore: set<Edge>,
                                           b: set<Node>)
    requires TopoOk(t, rank) && PermsFor(t, p) && c in t.edge && Closed(t, b) && t.edge[c].target in b
    ensures KeepsFrom(t, rank, p, ChildCheck(t, rank, p, c, w, ignore).p, b, t.edge[c].target, c)
    decreases rank(t.edge[c].target), 3, 0
  {
    var n := t.edge[c].target;
    assert EdgeOk(t, rank, c);
    CheckUpdateKeeps(t, rank, p, n, w, ignore + {c}, b);
    KeepsStored(t, rank, p, CheckUpdate(t, rank, p, n, w, ignore + {c}).p, b, n, c, w);
  }

  lemma {:induction false} CheckUpdateKeeps(t: Topo, rank: Rank, p: Perms, n: Node, w: Want, ignore: set<Edge>,
                                            b: set<Node>)
    requires TopoOk(t, rank) && PermsFor(t, p) && n in t.node && Closed(t, b) && n in b
    ensures Keeps(t, rank, p, CheckUpdate(t, rank, p, n, w, ignore).p, b, n)
    decreases rank(n), 2, 0
  {
    CheckPermKeeps(t, rank, p, n, Joined(p, t.node[n].parents, ignore, w), ignore, b);
    KeepsRefl(t, rank, p, b, n);
  }

  lemma {:induction false} CheckPermKeeps(t: Topo, rank: Rank, p: Perms, n: Node, v: Want, ignore: set<Edge>,
                                          b: set<Node>)
    requires TopoOk(t, rank) && PermsFor(t, p) && n in t.node && Closed(t, b) && n in b
    ensures Keeps(t, rank, p, CheckPerm(t, rank, p, n, v, ignore).p, b, n)
    decreases rank(n), 1, 0
  {
    CheckChildrenKeeps(t, rank, p, n, v, ignore, 0, b);
    KeepsRefl(t, rank, p, b, n);
  }

  lemma {:induction false} CheckChildrenKeeps(t: Topo, rank: Rank, p: Perms, n: Node, v: Want, ignore: set<Edge>,
                                              i: nat, b: set<Node>)
    requires TopoOk(t, rank) && PermsFor(t, p) && n in t.node && i <= |t.node[n].children| && Closed(t, b) && n in b
    ensures Keeps(t, rank, p, CheckChildren(t, rank, p, n, v, ignore, i).p, b, n)
    decreases rank(n), 0, |t.node[n].children| - i
  {
    if i == |t.node[n].children| {
      KeepsRefl(t, rank, p, b, n);
    } else {
      var c := t.node[n].children[i];
      assert NodeOk(t, n) && c in t.node[n].children && EdgeOk(t, rank, c);
      var r := ChildCheck(t, rank, p, c, Asks(t, c, p[c].want, v), ignore);
      ChildCheckKeeps(t, rank, p, c, Asks(t, c, p[c].want, v), ignore, b);
      KeepsUp(t, rank, p, r.p, b, n, c);
      if r.ok {
        CheckChildrenKeeps(t, rank, r.p, n, v, ignore, i + 1, b);
        KeepsTrans(t, rank, p, r.p, CheckChildren(t, rank, r.p, n, v, ignore, i + 1).p, b, n);
      }
    }
  }

  // -------------------------------------------------------------------------------------------
  // A check keeps the users of every node compatible
  // -------------------------------------------------------------------------------------------

  ghost predicate Peace(t: Topo, p: Perms) {
    AllCompatible(t, p) && Tolerant(p)
  }

  /** Ignored edges lead to nodes of rank at least r, so that they are no users of lower nodes. */
  ghost predicate IgnoresAbove(t: Topo, rank: Rank, ignore: set<Edge>, r: nat) {
    forall e | e in ignore && e in t.edge :: rank(t.edge[e].target) >= r
  }

  lemma {:induction false} AsksTolerates(t: Topo, e: Edge, cur: Want, v: Want)
    requires e in t.edge && t.edge[e].owner.Bds? && t.edge[e].owner.node in t.node && t.edge[e].target in t.node
    requires WriteUnchanged in v.shared
    ensures WriteUnchanged in Asks(t, e, cur, v).shared
  {
    ChildWantTolerates(t.node[t.edge[e].owner.node].info, t.node[t.edge[e].target].info, Saved(cur), t.edge[e].role, v);
  }

  lemma {:induction false} JoinedTolerates(p: Perms, es: seq<Edge>, ignore: set<Edge>, w: Want)
    requires Tolerant(p) && WriteUnchanged in w.shared
    ensures WriteUnchanged in Joined(p, es, ignore, w).shared
  {
    assert AllShare(p, es, ignore, WriteUnchanged);
  }

  /** Of the users of c's node, at most c itself is ignored. */
  lemma {:induction false} OnlySelfIgnored(t: Topo, rank: Rank, c: Edge, n: Node, ignore: set<Edge>, e: Edge)
    requires TopoOk(t, rank) && c in t.edge && t.edge[c].target == n && n in t.node
    requires IgnoresAbove(t, rank, ignore, rank(n) + 1)
    requires e in t.node[n].parents && e in ignore + {c}
    ensures e == c
  {
    assert NodeOk(t, n);
  }

  lemma {:induction false} PeaceStored(t: Topo, rank: Rank, p: Perms, p': Perms, c: Edge, n: Node, ignore: set<Edge>,
                                       w: Want)
    requires TopoOk(t, rank) && PermsFor(t, p) && c in t.edge && t.edge[c].target == n && n in t.node
    requires IgnoresAbove(t, rank, ignore, rank(n) + 1) && Fits(t, p, n, ignore + {c}, w) && WriteUnchanged in w.shared
    requires ChangedAt(t, rank, p, p', t.node.Keys, n) && Peace(t, p')
    ensures Peace(t, Stored(p', c, w))
  {
    IncomingSame(t, rank, p, p', t.node.Keys, n, ignore, w);
    forall e | e in t.edge && e in p' && e != c && t.edge[e].target == n ensures Compatible(w, p'[e].want) {
      assert EdgeOk(t, rank, e);
      if e in ignore + {c} { OnlySelfIgnored(t, rank, c, n, ignore, e); }
    }
    StoreCompatible(t, p', c, Stored(p', c, w)[c]);
  }

  lemma {:induction false} ChildCheckPeace(t: Topo, rank: Rank, p: Perms, c: Edge, w: Want, ignore: set<Edge>)
    requires TopoOk(t, rank) && PermsFor(t, p) && c in t.edge
    requires IgnoresAbove(t, rank, ignore, rank(t.edge[c].target) + 1)
    requires Peace(t, p) && WriteUnchanged in w.shared
    ensures Peace(t, ChildCheck(t, rank, p, c, w, ignore).p)
    decreases rank(t.edge[c].target), 3, 0
  {
    var n := t.edge[c].target;
    assert EdgeOk(t, rank, c);
    var r := CheckUpdate(t, rank, p, n, w, ignore + {c});
    CheckUpdatePeace(t, rank, p, n, w, ignore + {c});
    if r.ok {
      AllClosed(t, rank);
      CheckUpdateKeeps(t, rank, p, n, w, ignore + {c}, t.node.Keys);
      PeaceStored(t, rank, p, r.p, c, n, ignore, w);
    }
  }

  lemma {:induction false} CheckUpdatePeace(t: Topo, rank: Rank, p: Perms, n: Node, w: Want, ignore: set<Edge>)
    requires TopoOk(t, rank) && PermsFor(t, p) && n in t.node && IgnoresAbove(t, rank, ignore, rank(n))
    requires Peace(t, p) && WriteUnchanged in w.shared
    ensures Peace(t, CheckUpdate(t, rank, p, n, w, ignore).p)
    decreases rank(n), 2, 0
  {
    JoinedTolerates(p, t.node[n].parents, ignore, w);
    CheckPermPeace(t, rank, p, n, Joined(p, t.node[n].parents, ignore, w), ignore);
  }

  lemma {:induction false} CheckPermPeace(t: Topo, rank: Rank, p: Perms, n: Node, v: Want, ignore: set<Edge>)
    requires TopoOk(t, rank) && PermsFor(t, p) && n in t.node && IgnoresAbove(t, rank, ignore, rank(n))
    requires Peace(t, p) && WriteUnchanged in v.shared
    ensures Peace(t, CheckPerm(t, rank, p, n, v, ignore).p)
    decreases rank(n), 1, 0
  {
    CheckChildrenPeace(t, rank, p, n, v, ignore, 0);
  }

  lemma {:induction false} CheckChildrenStep(t: Topo, rank: Rank, p: Perms, n: Node, v: Want, ignore: set<Edge>, i: nat,
                                             c: Edge)
    requires TopoOk(t, rank) && PermsFor(t, p) && n in t.node && i < |t.node[n].children| && c == t.node[n].children[i]
    ensures c in t.edge && t.edge[c].owner == Bds(n) && EdgeOk(t, rank, c)
    ensures var r := ChildCheck(t, rank, p, c, Asks(t, c, p[c].want, v), ignore);
      CheckChildren(t, rank, p, n, v, ignore, i) == if r.ok then CheckChildren(t, rank, r.p, n, v, ignore, i + 1) else r
  {
    ChildEdge(t, rank, n, c);
  }

  lemma {:induction false} CheckChildrenPeace(t: Topo, rank: Rank, p: Perms, n: Node, v: Want, ignore: set<Edge>,
                                              i: nat)
    requires TopoOk(t, rank) && PermsFor(t, p) && n in t.node && i <= |t.node[n].children|
    requires IgnoresAbove(t, rank, ignore, rank(n))
    requires Peace(t, p) && WriteUnchanged in v.shared
    ensures Peace(t, CheckChildren(t, rank, p, n, v, ignore, i).p)
    decreases rank(n), 0, |t.node[n].children| - i
  {
    if i < |t.node[n].children| {
      var c := t.node[n].children[i];
      assert NodeOk(t, n) && c in t.node[n].children && EdgeOk(t, rank, c);
      var w := Asks(t, c, p[c].want, v);
      AsksTolerates(t, c, p[c].want, v);
      var r := ChildCheck(t, rank, p, c, w, ignore);
      ChildCheckPeace(t, rank, p, c, w, ignore);
      CheckChildrenStep(t, rank, p, n, v, ignore, i, c);
      if r.ok { CheckChildrenPeace(t, rank, r.p, n, v, ignore, i + 1); }
    }
  }

  // -------------------------------------------------------------------------------------------
  // A successful check leaves every node below consistent
  // -------------------------------------------------------------------------------------------

  /** All children of n hold what v asks for, and n itself agrees. */
  ghost predicate Passed(t: Topo, rank: Rank, p: Perms, n: Node, v: Want)
    requires TopoOk(t, rank) && PermsFor(t, p) && n in t.node
  {
    ChecksOut(t, rank, p, n, v, |t.node[n].children|) && Grants(t.node[n].info, v)
  }

  lemma {:induction false} AsksAgain(t: Topo, e: Edge, cur: Want, v: Want)
    requires e in t.edge && t.edge[e].owner.Bds? && t.edge[e].owner.node in t.node && t.edge[e].target in t.node
    ensures Asks(t, e, Asks(t, e, cur, v), v) == Asks(t, e, cur, v)
  {
    ChildWantIdempotent(t.node[t.edge[e].owner.node].info, t.node[t.edge[e].target].info, Saved(cur), t.edge[e].role,
      v);
  }

  lemma {:induction false} ChildCheckStores(t: Topo, rank: Rank, p: Perms, c: Edge, w: Want, ignore: set<Edge>)
    requires TopoOk(t, rank) && PermsFor(t, p) && c in t.edge
    ensures var r := ChildCheck(t, rank, p, c, w, ignore); r.ok ==> r.p[c].want == w
  {
  }

  /** The node of c is consistent once the new want of c is in place. */
  lemma {:induction false} SettledStored(t: Topo, rank: Rank, p: Perms, p': Perms, c: Edge, n: Node, ignore: set<Edge>,
                                         w: Want, s: set<Node>, d: set<Node>)
    requires TopoOk(t, rank) && PermsFor(t, p) && p'.Keys == p.Keys && c in t.edge && t.edge[c].target == n
    requires n in t.node
    requires IgnoresAbove(t, rank, ignore, rank(n) + 1) && ChangedAt(t, rank, p, p', t.node.Keys, n)
    requires RanksBelow(rank, s, rank(n) + 1) && SettledOn(t, rank, p, s) && RanksBelow(rank, d, rank(n))
    requires Passed(t, rank, p', n, Joined(p, t.node[n].parents, ignore + {c}, w))
    requires SettledOn(t, rank, p', BelowRank(rank, s, rank(n)) + d)
    ensures SettledOn(t, rank, Stored(p', c, w), s + ({n} + d))
  {
    IncomingSame(t, rank, p, p', t.node.Keys, n, ignore + {c}, w);
    forall e | e in t.node[n].parents && e in ignore + {c} ensures e == c { OnlySelfIgnored(t, rank, c, n, ignore, e); }
    forall m | m in s + d - {n} && m in t.node ensures Settled(t, rank, p', m) {
      if m !in BelowRank(rank, s, rank(n)) + d { SettledAside(t, rank, p, p', n, m); }
    }
    StoreSettled(t, rank, p', c, n, ignore + {c}, Stored(p', c, w)[c], Joined(p', t.node[n].parents, ignore + {c}, w),
      s + d - {n});
    assert s + d - {n} + {n} == s + ({n} + d);
  }

  /** Other nodes of the same rank as n are untouched by changes below n. */
  lemma {:induction false} SettledAside(t: Topo, rank: Rank, p: Perms, p': Perms, n: Node, m: Node)
    requires TopoOk(t, rank) && PermsFor(t, p) && n in t.node && m in t.node && m != n && rank(m) == rank(n)
    requires ChangedAt(t, rank, p, p', t.node.Keys, n) && Settled(t, rank, p, m)
    ensures Settled(t, rank, p', m)
  {
    forall e | e in t.node[m].parents || e in t.node[m].children ensures e in p && p'[e].want == p[e].want {
      EdgeAside(t, rank, p, p', n, m, e);
    }
    SettledSame(t, rank, p, p', m);
  }

  lemma {:induction false} EdgeAside(t: Topo, rank: Rank, p: Perms, p': Perms, n: Node, m: Node, e: Edge)
    requires TopoOk(t, rank) && PermsFor(t, p) && n in t.node && m in t.node && m != n && rank(m) == rank(n)
    requires ChangedAt(t, rank, p, p', t.node.Keys, n) && (e in t.node[m].parents || e in t.node[m].children)
    ensures e in p && p'[e] == p[e]
  {
    assert NodeOk(t, m) && EdgeOk(t, rank, e);
  }

  ghost predicate SettledIfOk(t: Topo, rank: Rank, r: Checked, s: set<Node>)
    requires TopoOk(t, rank) && PermsFor(t, r.p)
  {
    r.ok ==> SettledOn(t, rank, r.p, s)
  }

  /** However inconsistent the nodes below c were, a check of c makes them consistent; nodes aside stay as they were. */
  lemma {:induction false} ChildCheckSettled(t: Topo, rank: Rank, p: Perms, c: Edge, w: Want, ignore: set<Edge>,
                                             s: set<Node>)
    requires TopoOk(t, rank) && PermsFor(t, p) && c in t.edge && t.edge[c].target in t.node
    requires IgnoresAbove(t, rank, ignore, rank(t.edge[c].target) + 1)
    requires RanksBelow(rank, s, rank(t.edge[c].target) + 1) && SettledOn(t, rank, p, s)
    ensures SettledIfOk(t, rank, ChildCheck(t, rank, p, c, w, ignore), s + Down(t, rank, t.edge[c].target))
    decreases rank(t.edge[c].target), 3, 0
  {
    var n := t.edge[c].target;
    var r := CheckUpdate(t, rank, p, n, w, ignore + {c});
    if r.ok {
      var d := DownAll(t, rank, n, t.node[n].children);
      DownAllRanks(t, rank, n);
      CheckUpdateSettled(t, rank, p, n, w, ignore + {c}, BelowRank(rank, s, rank(n)));
      AllClosed(t, rank);
      CheckUpdateKeeps(t, rank, p, n, w, ignore + {c}, t.node.Keys);
      SettledStored(t, rank, p, r.p, c, n, ignore, w, s, d);
      assert ChildCheck(t, rank, p, c, w, ignore).p == Stored(r.p, c, w);
    }
  }

  lemma {:induction false} CheckUpdateSettled(t: Topo, rank: Rank, p: Perms, n: Node, w: Want, ignore: set<Edge>,
                                              s: set<Node>)
    requires TopoOk(t, rank) && PermsFor(t, p) && n in t.node && IgnoresAbove(t, rank, ignore, rank(n))
    requires RanksBelow(rank, s, rank(n)) && SettledOn(t, rank, p, s)
    ensures var r := CheckUpdate(t, rank, p, n, w, ignore); r.ok ==>
      Passed(t, rank, r.p, n, Joined(p, t.node[n].parents, ignore, w))
    ensures SettledIfOk(t, rank, CheckUpdate(t, rank, p, n, w, ignore), s + DownAll(t, rank, n, t.node[n].children))
    decreases rank(n), 2, 0
  {
    CheckPermSettled(t, rank, p, n, Joined(p, t.node[n].parents, ignore, w), ignore, s);
  }

  lemma {:induction false} CheckPermSettled(t: Topo, rank: Rank, p: Perms, n: Node, v: Want, ignore: set<Edge>,
                                            s: set<Node>)
    requires TopoOk(t, rank) && PermsFor(t, p) && n in t.node && IgnoresAbove(t, rank, ignore, rank(n))
    requires RanksBelow(rank, s, rank(n)) && SettledOn(t, rank, p, s)
    ensures var r := CheckPerm(t, rank, p, n, v, ignore); r.ok ==> Passed(t, rank, r.p, n, v)
    ensures SettledIfOk(t, rank, CheckPerm(t, rank, p, n, v, ignore), s + DownAll(t, rank, n, t.node[n].children))
    decreases rank(n), 1, 0
  {
    CheckChildrenSettled(t, rank, p, n, v, ignore, 0, s);
    assert t.node[n].children[0..] == t.node[n].children;
  }

  ghost predicate GoodIfOk(t: Topo, rank: Rank, r: Checked, n: Node, v: Want, s: set<Node>)
    requires TopoOk(t, rank) && PermsFor(t, r.p) && n in t.node
  {
    r.ok ==> ChecksOut(t, rank, r.p, n, v, |t.node[n].children|) && SettledOn(t, rank, r.p, s)
  }

  lemma {:induction false} CheckChildrenSettled(t: Topo, rank: Rank, p: Perms, n: Node, v: Want, ignore: set<Edge>,
                                                i: nat, s: set<Node>)
    requires TopoOk(t, rank) && PermsFor(t, p) && n in t.node && i <= |t.node[n].children|
    requires IgnoresAbove(t, rank, ignore, rank(n))
    requires RanksBelow(rank, s, rank(n)) && SettledOn(t, rank, p, s) && ChecksOut(t, rank, p, n, v, i)
    ensures GoodIfOk(t, rank, CheckChildren(t, rank, p, n, v, ignore, i), n, v,
      s + DownAll(t, rank, n, t.node[n].children[i..]))
    decreases rank(n), 0, |t.node[n].children| - i, 0
  {
    if i == |t.node[n].children| {
      assert CheckChildren(t, rank, p, n, v, ignore, i) == Checked(true, p);
    } else {
      var c := t.node[n].children[i];
      assert NodeOk(t, n) && c in t.node[n].children && EdgeOk(t, rank, c);
      var w := Asks(t, c, p[c].want, v);
      var r := ChildCheck(t, rank, p, c, w, ignore);
      if r.ok {
        ChildCheckStores(t, rank, p, c, w, ignore);
        AllClosed(t, rank);
        ChildCheckKeeps(t, rank, p, c, w, ignore, t.node.Keys);
        StoresChecksOut(t, rank, p, r.p, n, v, i, c);
        ChildSettledNext(t, rank, p, n, ignore, c, w, s);
        CheckRestSettled(t, rank, r.p, n, v, ignore, i, c, s);
        assert CheckChildren(t, rank, p, n, v, ignore, i) == CheckChildren(t, rank, r.p, n, v, ignore, i + 1);
      } else {
        assert CheckChildren(t, rank, p, n, v, ignore, i) == r;
      }
    }
  }

  /** The rest of the loop, from the state p' that the check of child i leaves. */
  lemma {:induction false} CheckRestSettled(t: Topo, rank: Rank, p': Perms, n: Node, v: Want, ignore: set<Edge>, i: nat,
                                            c: Edge, s: set<Node>)
    requires TopoOk(t, rank) && PermsFor(t, p') && n in t.node && i < |t.node[n].children|
    requires IgnoresAbove(t, rank, ignore, rank(n))
    requires c == t.node[n].children[i] && c in t.edge && t.edge[c].target in t.node && RanksBelow(rank, s, rank(n))
    requires SettledOn(t, rank, p', s + Down(t, rank, t.edge[c].target)) && ChecksOut(t, rank, p', n, v, i + 1)
    ensures GoodIfOk(t, rank, CheckChildren(t, rank, p', n, v, ignore, i + 1), n, v,
      s + DownAll(t, rank, n, t.node[n].children[i..]))
    decreases rank(n), 0, |t.node[n].children| - i - 1, 1
  {
    var d := Down(t, rank, t.edge[c].target);
    var es := t.node[n].children[i..];
    DownBelow(t, rank, n, c);
    CheckChildrenSettled(t, rank, p', n, v, ignore, i + 1, s + d);
    assert es[0] == c && es[1..] == t.node[n].children[i + 1..];
    assert s + d + DownAll(t, rank, n, es[1..]) == s + DownAll(t, rank, n, es);
  }

  lemma {:induction false} StoresChecksOut(t: Topo, rank: Rank, p: Perms, p': Perms, n: Node, v: Want, i: nat, c: Edge)
    requires TopoOk(t, rank) && PermsFor(t, p) && n in t.node && i < |t.node[n].children|
    requires ChecksOut(t, rank, p, n, v, i)
    requires c == t.node[n].children[i] && c in t.edge && t.edge[c].owner == Bds(n) && EdgeOk(t, rank, c)
    requires Changed(t, rank, p, p', t.node.Keys, t.edge[c].target, c) && p'[c].want == Asks(t, c, p[c].want, v)
    ensures ChecksOut(t, rank, p', n, v, i + 1)
  {
    AsksAgain(t, c, p[c].want, v);
    ChecksOutNext(t, rank, p, p', t.node.Keys, n, v, i);
  }

  lemma {:induction false} ChildSettledNext(t: Topo, rank: Rank, p: Perms, n: Node, ignore: set<Edge>, c: Edge, w: Want,
                                            s: set<Node>)
    requires TopoOk(t, rank) && PermsFor(t, p) && n in t.node && IgnoresAbove(t, rank, ignore, rank(n))
    requires RanksBelow(rank, s, rank(n)) && SettledOn(t, rank, p, s)
    requires c in t.edge && t.edge[c].owner == Bds(n) && EdgeOk(t, rank, c) && ChildCheck(t, rank, p, c, w, ignore).ok
    ensures SettledOn(t, rank, ChildCheck(t, rank, p, c, w, ignore).p, s + Down(t, rank, t.edge[c].target))
    decreases rank(n), 0, 0, 0
  {
    var p' := ChildCheck(t, rank, p, c, w, ignore).p;
    var m := t.edge[c].target;
    AllClosed(t, rank);
    ChildCheckKeeps(t, rank, p, c, w, ignore, t.node.Keys);
    ChildCheckSettled(t, rank, p, c, w, ignore, BelowRank(rank, s, rank(m) + 1));
    SettledNext(t, rank, p, p', t.node.Keys, n, c, s, Down(t, rank, m));
  }

  lemma {:induction false} DownAllRanks(t: Topo, rank: Rank, n: Node)
    requires TopoOk(t, rank) && n in t.node
    ensures RanksBelow(rank, DownAll(t, rank, n, t.node[n].children), rank(n))
  {
    forall m | m in DownAll(t, rank, n, t.node[n].children) ensures rank(m) < rank(n) {
      var c := DownAllFrom(t, rank, n, t.node[n].children, m);
      DownBelow(t, rank, n, c);
    }
  }

  lemma {:induction false} DownBelow(t: Topo, rank: Rank, n: Node, c: Edge)
    requires TopoOk(t, rank) && n in t.node && c in t.node[n].children
    ensures c in t.edge && t.edge[c].target in t.node && RanksBelow(rank, Down(t, rank, t.edge[c].target), rank(n))
  {
    assert NodeOk(t, n) && EdgeOk(t, rank, c);
    forall m | m in Down(t, rank, t.edge[c].target) ensures rank(m) < rank(n) {
      DownRank(t, rank, t.edge[c].target, m);
    }
  }

  // -------------------------------------------------------------------------------------------
  // A check that only loosens permissions never fails
  // -------------------------------------------------------------------------------------------

  lemma {:induction false} ChildCheckRelaxed(t: Topo, rank: Rank, p: Perms, c: Edge, w: Want, ignore: set<Edge>,
                                             q: Perms, d: set<Node>)
    requires TopoOk(t, rank) && PermsFor(t, p) && c in t.edge
    requires IgnoresAbove(t, rank, ignore, rank(t.edge[c].target) + 1)
    requires SlackOn(t, q, d) && Closed(t, d) && t.edge[c].target in d && AllLooser(p, q) && Looser(w, q[c].want)
    ensures StaysLooser(ChildCheck(t, rank, p, c, w, ignore), q)
    decreases rank(t.edge[c].target), 3, 0
  {
    var n := t.edge[c].target;
    assert EdgeOk(t, rank, c);
    RelaxedFits(t, rank, p, q, c, n, ignore, w);
    CheckUpdateRelaxed(t, rank, p, n, w, ignore + {c}, q, d);
    LooserStored(CheckUpdate(t, rank, p, n, w, ignore + {c}).p, q, c, w);
    assert ChildCheck(t, rank, p, c, w, ignore) ==
      Checked(true, Stored(CheckUpdate(t, rank, p, n, w, ignore + {c}).p, c, w));
  }

  lemma {:induction false} RelaxedFits(t: Topo, rank: Rank, p: Perms, q: Perms, c: Edge, n: Node, ignore: set<Edge>,
                                       w: Want)
    requires TopoOk(t, rank) && PermsFor(t, p) && c in t.edge && t.edge[c].target == n && n in t.node
    requires IgnoresAbove(t, rank, ignore, rank(n) + 1)
    requires PermsFor(t, q) && AllCompatible(t, q) && AllLooser(p, q) && Looser(w, q[c].want)
    ensures Fits(t, p, n, ignore + {c}, w) && Looser(Joined(p, t.node[n].parents, ignore + {c}, w), Cumulative(t, q, n))
  {
    forall e | e in t.node[n].parents && e in ignore + {c} ensures e == c { OnlySelfIgnored(t, rank, c, n, ignore, e); }
    LooserFits(t, rank, p, q, c, n, ignore + {c}, w);
  }

  ghost predicate StaysLooser(r: Checked, q: Perms) {
    r.ok && AllLooser(r.p, q)
  }

  lemma {:induction false} LooserStored(p: Perms, q: Perms, c: Edge, w: Want)
    requires AllLooser(p, q) && c in p && Looser(w, q[c].want)
    ensures AllLooser(Stored(p, c, w), q)
  {
  }

  lemma {:induction false} CheckUpdateRelaxed(t: Topo, rank: Rank, p: Perms, n: Node, w: Want, ignore: set<Edge>,
                                              q: Perms, d: set<Node>)
    requires TopoOk(t, rank) && PermsFor(t, p) && n in t.node && IgnoresAbove(t, rank, ignore, rank(n))
    requires SlackOn(t, q, d) && Closed(t, d) && n in d && AllLooser(p, q) && Fits(t, p, n, ignore, w)
    requires Looser(Joined(p, t.node[n].parents, ignore, w), Cumulative(t, q, n))
    ensures StaysLooser(CheckUpdate(t, rank, p, n, w, ignore), q)
    decreases rank(n), 2, 0
  {
    var v := Joined(p, t.node[n].parents, ignore, w);
    CheckPermRelaxed(t, rank, p, n, v, ignore, q, d);
    assert CheckUpdate(t, rank, p, n, w, ignore) == CheckPerm(t, rank, p, n, v, ignore);
  }

  lemma {:induction false} CheckPermRelaxed(t: Topo, rank: Rank, p: Perms, n: Node, v: Want, ignore: set<Edge>,
                                            q: Perms, d: set<Node>)
    requires TopoOk(t, rank) && PermsFor(t, p) && n in t.node && IgnoresAbove(t, rank, ignore, rank(n))
    requires SlackOn(t, q, d) && Closed(t, d) && n in d && AllLooser(p, q) && Looser(v, Cumulative(t, q, n))
    ensures StaysLooser(CheckPerm(t, rank, p, n, v, ignore), q)
    decreases rank(n), 1, 0
  {
    assert SlackAt(t, q, n);
    LooserGrants(t, n, v, Cumulative(t, q, n));
    CheckChildrenRelaxed(t, rank, p, n, v, ignore, 0, q, d);
    assert CheckPerm(t, rank, p, n, v, ignore) == CheckChildren(t, rank, p, n, v, ignore, 0);
  }

  lemma {:induction false} CheckChildrenRelaxed(t: Topo, rank: Rank, p: Perms, n: Node, v: Want, ignore: set<Edge>,
                                                i: nat, q: Perms, d: set<Node>)
    requires TopoOk(t, rank) && PermsFor(t, p) && n in t.node && i <= |t.node[n].children|
    requires IgnoresAbove(t, rank, ignore, rank(n))
    requires SlackOn(t, q, d) && Closed(t, d) && n in d && AllLooser(p, q) && Looser(v, Cumulative(t, q, n))
    ensures StaysLooser(CheckChildren(t, rank, p, n, v, ignore, i), q)
    decreases rank(n), 0, |t.node[n].children| - i
  {
    if i == |t.node[n].children| {
      assert CheckChildren(t, rank, p, n, v, ignore, i) == Checked(true, p);
    } else {
      var c := t.node[n].children[i];
      assert NodeOk(t, n) && c in t.node[n].children && EdgeOk(t, rank, c);
      var w := Asks(t, c, p[c].want, v);
      RelaxedAsks(t, p, q, n, c, v);
      var r := ChildCheck(t, rank, p, c, w, ignore);
      ChildCheckRelaxed(t, rank, p, c, w, ignore, q, d);
      CheckChildrenRelaxed(t, rank, r.p, n, v, ignore, i + 1, q, d);
      assert CheckChildren(t, rank, p, n, v, ignore, i) == CheckChildren(t, rank, r.p, n, v, ignore, i + 1);
    }
  }

  lemma {:induction false} RelaxedAsks(t: Topo, p: Perms, q: Perms, n: Node, c: Edge, v: Want)
    requires n in t.node && SlackAt(t, q, n) && AllLooser(p, q) && c in t.node[n].children
    requires Looser(v, Cumulative(t, q, n)) && c in t.edge && t.edge[c].owner == Bds(n) && t.edge[c].target in t.node
    ensures Looser(Asks(t, c, p[c].want, v), q[c].want)
  {
    assert ChildSlack(t, q, c, Cumulative(t, q, n));
    LooserAsks(t, c, q[c].want, p[c].want, Cumulative(t, q, n), v, q[c].want);
  }
}
