/**
 What bdrv_replace_node of block.c does to permissions.  The check before the move is as good as one after it; then
 bdrv_set_perm is given an OR of shared masks, which can only loosen what was checked.
 */
module BlockReplace {
  import opened BlockPerms
  import opened BlockPermUpdate
  import opened BlockPermCommit
  import opened BlockLinks
  import R = BlockPermRuns

  // -------------------------------------------------------------------------------------------
  // The check ignores the edges that will move
  // -------------------------------------------------------------------------------------------

  /** On the nodes d, the graphs differ in nothing but the edges es into them, which do not leave d. */
  ghost predicate AlikeOn(t: Topo, t': Topo, d: set<Node>, es: set<Edge>) {
    && t'.node.Keys == t.node.Keys && t'.edge.Keys == t.edge.Keys
    && (forall n | n in t.node ::
          t'.node[n].info == t.node[n].info && t'.node[n].children == t.node[n].children)
    && (forall n, e | n in d && n in t.node && e !in es :: e in t'.node[n].parents <==> e in t.node[n].parents)
    && (forall e | Leaves(t, d, e) :: e !in es && t'.edge[e] == t.edge[e] && t.edge[e].target in d)
  }

  lemma {:induction false} MovedAlike(t: Topo, rank: Rank, t': Topo, rank': Rank, d: set<Node>, es: set<Edge>, to: Node)
    requires TopoOk(t, rank) && TopoOk(t', rank') && Moved(t, t', es, to) && Closed(t, d)
    requires forall e | e in es :: !Leaves(t, d, e)
    ensures AlikeOn(t, t', d, es)
  {
    forall n, e | n in d && n in t.node && e !in es ensures e in t'.node[n].parents <==> e in t.node[n].parents {
      assert NodeOk(t, n) && NodeOk(t', n);
      if e in t.edge { assert EdgeOk(t, rank, e) && EdgeOk(t', rank', e); }
    }
  }

  lemma {:induction false} UsersAlike(t: Topo, t': Topo, d: set<Node>, es: set<Edge>, p: Perms, n: Node,
                                      ignore: set<Edge>, w: Want)
    requires AlikeOn(t, t', d, es) && n in d && n in t.node && es <= ignore
    ensures Fits(t', p, n, ignore, w) <==> Fits(t, p, n, ignore, w)
    ensures Joined(p, t'.node[n].parents, ignore, w) == Joined(p, t.node[n].parents, ignore, w)
  {
    var ps, ps' := t.node[n].parents, t'.node[n].parents;
    forall x: Flag ensures SomeUses(p, ps', ignore, x) <==> SomeUses(p, ps, ignore, x) {}
    forall x: Flag ensures AllShare(p, ps', ignore, x) <==> AllShare(p, ps, ignore, x) {}
  }

  lemma {:induction false} ChildCheckAlike(t: Topo, rank: Rank, t': Topo, rank': Rank, d: set<Node>, es: set<Edge>,
                                           p: Perms, c: Edge, w: Want, ignore: set<Edge>)
    requires TopoOk(t, rank) && TopoOk(t', rank') && PermsFor(t, p) && AlikeOn(t, t', d, es)
    requires Leaves(t, d, c) && t.edge[c].target in t.node && es <= ignore
    ensures ChildCheck(t', rank', p, c, w, ignore) == ChildCheck(t, rank, p, c, w, ignore)
    decreases rank(t.edge[c].target), 2, 0
  {
    CheckUpdateAlike(t, rank, t', rank', d, es, p, t.edge[c].target, w, ignore + {c});
  }

  lemma {:induction false} CheckUpdateAlike(t: Topo, rank: Rank, t': Topo, rank': Rank, d: set<Node>, es: set<Edge>,
                                            p: Perms, n: Node, w: Want, ignore: set<Edge>)
    requires TopoOk(t, rank) && TopoOk(t', rank') && PermsFor(t, p) && AlikeOn(t, t', d, es)
    requires n in d && n in t.node && es <= ignore
    ensures CheckUpdate(t', rank', p, n, w, ignore) == CheckUpdate(t, rank, p, n, w, ignore)
    decreases rank(n), 1, 0
  {
    UsersAlike(t, t', d, es, p, n, ignore, w);
    CheckChildrenAlike(t, rank, t', rank', d, es, p, n, Joined(p, t.node[n].parents, ignore, w), ignore, 0);
  }

  lemma {:induction false} CheckChildrenAlike(t: Topo, rank: Rank, t': Topo, rank': Rank, d: set<Node>, es: set<Edge>,
                                              p: Perms, n: Node, v: Want, ignore: set<Edge>, i: nat)
    requires TopoOk(t, rank) && TopoOk(t', rank') && PermsFor(t, p) && AlikeOn(t, t', d, es)
    requires n in d && n in t.node && es <= ignore && i <= |t.node[n].children|
    ensures CheckChildren(t', rank', p, n, v, ignore, i) == CheckChildren(t, rank, p, n, v, ignore, i)
    decreases rank(n), 0, |t.node[n].children| - i
  {
    if i < |t.node[n].children| {
      var c := t.node[n].children[i];
      assert c in t.node[n].children;
      ChildEdge(t, rank, n, c);
      assert Leaves(t, d, c);
      var w := Asks(t, c, p[c].want, v);
      assert Asks(t', c, p[c].want, v) == w;
      ChildCheckAlike(t, rank, t', rank', d, es, p, c, w, ignore);
      var r := ChildCheck(t, rank, p, c, w, ignore);
      if r.ok { CheckChildrenAlike(t, rank, t', rank', d, es, r.p, n, v, ignore, i + 1); }
    }
  }

  // -------------------------------------------------------------------------------------------
  // Loosening what was checked
  // -------------------------------------------------------------------------------------------

  /** w uses what v uses, and shares at least as much. */
  predicate Eases(w: Want, v: Want) {
    w.perm == v.perm && v.shared <= w.shared
  }

  /** Every edge of q eases what it has in p. */
  ghost predicate Eased(p: Perms, q: Perms) {
    q.Keys == p.Keys && forall e {:trigger q[e]} | e in p :: Eases(q[e].want, p[e].want)
  }

  lemma {:induction false} AsksEased(t: Topo, e: Edge, cur: Want, cur': Want, w: Want, w': Want)
    requires e in t.edge && t.edge[e].owner.Bds? && t.edge[e].owner.node in t.node && t.edge[e].target in t.node
    requires Eases(cur', cur) && Eases(w', w)
    ensures Eases(Asks(t, e, cur', w'), Asks(t, e, cur, w))
  {
  }

  lemma {:induction false} CumulativeEased(t: Topo, p: Perms, q: Perms, n: Node)
    requires n in t.node && Eased(p, q)
    ensures Eases(Cumulative(t, q, n), Cumulative(t, p, n))
  {
    var es := t.node[n].parents;
    forall x: Flag ensures SomeUses(q, es, {}, x) <==> SomeUses(p, es, {}, x) {}
    forall x: Flag ensures AllShare(p, es, {}, x) ==> AllShare(q, es, {}, x) {}
  }

  /** The nodes below hold in p what they ask for; then bdrv_set_perm with a looser want only eases them. */
  lemma {:induction false} SetChildrenEases(t: Topo, rank: Rank, p: Perms, q: Perms, n: Node, v: Want, w: Want, i: nat)
    requires TopoOk(t, rank) && PermsFor(t, p) && n in t.node && i <= |t.node[n].children| && Eased(p, q)
    requires ChecksOut(t, rank, p, n, v, |t.node[n].children|) && Eases(w, v)
    requires SettledOn(t, rank, p, DownAll(t, rank, n, t.node[n].children))
    ensures Eased(p, SetChildren(t, rank, q, n, w, i))
    decreases rank(n), 0, |t.node[n].children| - i
  {
    if i < |t.node[n].children| {
      var c := t.node[n].children[i];
      assert c in t.node[n].children;
      ChildEdge(t, rank, n, c);
      assert ChildOk(t, rank, p, c, v);
      AsksEased(t, c, p[c].want, q[c].want, v, w);
      DownAllHas(t, rank, n, t.node[n].children, c);
      ChildSetEases(t, rank, p, q, c, Asks(t, c, q[c].want, w));
      SetChildrenEases(t, rank, p, ChildSet(t, rank, q, c, Asks(t, c, q[c].want, w)), n, v, w, i + 1);
    }
  }

  lemma {:induction false} ChildSetEases(t: Topo, rank: Rank, p: Perms, q: Perms, c: Edge, w: Want)
    requires TopoOk(t, rank) && PermsFor(t, p) && c in t.edge && t.edge[c].target in t.node && Eased(p, q)
    requires Eases(w, p[c].want) && SettledOn(t, rank, p, Down(t, rank, t.edge[c].target))
    ensures Eased(p, ChildSet(t, rank, q, c, w))
    decreases rank(t.edge[c].target), 1, 0
  {
    var n, q' := t.edge[c].target, q[c := Held(w, NoBackup)];
    assert Eased(p, q');
    CumulativeEased(t, p, q', n);
    SettledChecksOut(t, rank, p, n);
    SetChildrenEases(t, rank, p, q', n, Cumulative(t, p, n), Cumulative(t, q', n), 0);
  }

  lemma {:induction false} EasedPeace(t: Topo, p: Perms, q: Perms)
    requires Peace(t, p) && Eased(p, q)
    ensures Peace(t, q)
  {
    forall e, f | e in t.edge && f in t.edge && e in q && f in q && e != f && t.edge[e].target == t.edge[f].target
      ensures Compatible(q[e].want, q[f].want)
    {
      assert Compatible(p[e].want, p[f].want) && Eases(q[e].want, p[e].want) && Eases(q[f].want, p[f].want);
    }
    forall e | e in q ensures WriteUnchanged in q[e].want.shared { assert Eases(q[e].want, p[e].want); }
  }

  // -------------------------------------------------------------------------------------------
  // Replacing a node
  // -------------------------------------------------------------------------------------------

  /** What the edges es ask for together suits the other users of to, so they may all use it. */
  lemma {:induction false} MovedPeace(t: Topo, rank: Rank, t': Topo, es: set<Edge>, to: Node, p: Perms)
    requires TopoOk(t, rank) && to in t.node && Peace(t, p) && Moved(t, t', es, to)
    requires (forall e, f | e in es && f in es && e in t.edge && f in t.edge :: t.edge[e].target == t.edge[f].target)
    requires Fits(t, p, to, es, Together(p, es))
    ensures Peace(t', p)
  {
    forall e, f | e in t'.edge && f in t'.edge && e in p && f in p && e != f && t'.edge[e].target == t'.edge[f].target
      ensures Compatible(p[e].want, p[f].want)
    {
      if e in es && f !in es { MovedBeside(t, rank, es, to, p, e, f); }
      if f in es && e !in es { MovedBeside(t, rank, es, to, p, f, e); }
    }
  }

  lemma {:induction false} MovedBeside(t: Topo, rank: Rank, es: set<Edge>, to: Node, p: Perms, e: Edge, f: Edge)
    requires TopoOk(t, rank) && to in t.node && e in es && e in p && f in t.edge && f !in es && f in p
    requires t.edge[f].target == to && Fits(t, p, to, es, Together(p, es))
    ensures Compatible(p[e].want, p[f].want)
  {
    assert EdgeOk(t, rank, f);
    var w := Together(p, es);
    assert Compatible(w, p[f].want);
    forall x | x in p[e].want.perm ensures x in w.perm { assert UsedBy(p, es, x); }
    forall x | x in w.shared ensures x in p[e].want.shared { assert SharedBy(p, es, x); }
  }

  /** The permissions after bdrv_replace_node has moved the edges es, if the check succeeds */
  ghost function Replaced(t: Topo, rank: Rank, p: Perms, to: Node, es: set<Edge>): (r: Perms)
    requires TopoOk(t, rank) && PermsFor(t, p) && to in t.node
    ensures r.Keys == p.Keys
  {
    var w := Together(p, es);
    var q := CheckUpdate(t, rank, p, to, w, es).p;
    var v := Cumulative(t, q, to);
    SetChildren(t, rank, q, to, Want(v.perm + w.perm, v.shared + w.shared), 0)
  }

  /** With the edges es among the users of to, what was checked is what all of them ask for. */
  lemma {:induction false} JoinedWithMoved(t: Topo, rank: Rank, p: Perms, q: Perms, to: Node, es: set<Edge>)
    requires TopoOk(t, rank) && PermsFor(t, p) && to in t.node && q.Keys == p.Keys
    requires forall e | e in es :: e in t.edge && t.edge[e].target == to
    requires forall e | e in t.node[to].parents :: e in p && q[e].want == p[e].want
    ensures Joined(p, t.node[to].parents, es, Together(p, es)) == Cumulative(t, q, to)
  {
    var ps, w := t.node[to].parents, Together(p, es);
    forall e | e in es ensures e in ps { assert EdgeOk(t, rank, e); }
    CumulativeSame(p, q, ps, {});
    forall x: Flag ensures SomeUses(p, ps, {}, x) <==> SomeUses(p, ps, es, x) || UsedBy(p, es, x) {}
    forall x: Flag ensures AllShare(p, ps, {}, x) <==> AllShare(p, ps, es, x) && SharedBy(p, es, x) {}
  }

  /** A check below a node leaves the edges into it as they are. */
  lemma {:induction false} UsersKept(t: Topo, rank: Rank, p: Perms, q: Perms, n: Node)
    requires TopoOk(t, rank) && PermsFor(t, p) && n in t.node && ChangedAt(t, rank, p, q, t.node.Keys, n)
    ensures forall e | e in t.node[n].parents :: e in p && q[e].want == p[e].want
  {
    forall e | e in t.node[n].parents ensures e in p && q[e].want == p[e].want {
      assert NodeOk(t, n) && EdgeOk(t, rank, e);
    }
  }

  /** After a successful check, all nodes below to hold what its users, with es among them, ask for. */
  lemma {:induction false} CheckedWithMoved(t: Topo, rank: Rank, p: Perms, q: Perms, to: Node, es: set<Edge>)
    requires TopoOk(t, rank) && PermsFor(t, p) && to in t.node
    requires forall e | e in es :: e in t.edge && t.edge[e].target == to
    requires CheckUpdate(t, rank, p, to, Together(p, es), es) == Checked(true, q)
    ensures ChecksOut(t, rank, q, to, Cumulative(t, q, to), |t.node[to].children|)
    ensures SettledOn(t, rank, q, DownAll(t, rank, to, t.node[to].children))
    ensures Joined(p, t.node[to].parents, es, Together(p, es)) == Cumulative(t, q, to)
  {
    var w, d := Together(p, es), DownAll(t, rank, to, t.node[to].children);
    CheckUpdateSettled(t, rank, p, to, w, es, {});
    SettledFewer(t, rank, Checked(true, q), {} + d, d);
    AllClosed(t, rank);
    CheckUpdateKeeps(t, rank, p, to, w, es, t.node.Keys);
    UsersKept(t, rank, p, q, to);
    JoinedWithMoved(t, rank, p, q, to, es);
  }

  /** t is the graph after the move; its users of every node still tolerate each other once permissions are set. */
  lemma {:induction false} ReplacedPeace(t: Topo, rank: Rank, p: Perms, to: Node, es: set<Edge>)
    requires TopoOk(t, rank) && PermsFor(t, p) && to in t.node && Peace(t, p)
    requires forall e | e in es :: e in t.edge && t.edge[e].target == to
    requires CheckUpdate(t, rank, p, to, Together(p, es), es).ok
    ensures Peace(t, Replaced(t, rank, p, to, es))
    ensures Eased(CheckUpdate(t, rank, p, to, Together(p, es), es).p, Replaced(t, rank, p, to, es))
  {
    var w := Together(p, es);
    var q := CheckUpdate(t, rank, p, to, w, es).p;
    assert SharedBy(p, es, WriteUnchanged);
    CheckUpdatePeace(t, rank, p, to, w, es);
    CheckedWithMoved(t, rank, p, q, to, es);
    var v := Cumulative(t, q, to);
    assert Eases(Want(v.perm + w.perm, v.shared + w.shared), v);
    SetChildrenEases(t, rank, q, q, to, v, Want(v.perm + w.perm, v.shared + w.shared), 0);
    EasedPeace(t, q, Replaced(t, rank, p, to, es));
  }

  /** t' is t after the edges es have moved to to. */
  ghost predicate Redirection(t: Topo, rank: Rank, t': Topo, rank': Rank, es: set<Edge>, to: Node)
    requires TopoOk(t, rank) && to in t.node
  {
    && TopoOk(t', rank') && Moved(t, t', es, to)
    && (forall e | e in es :: e in t.edge && !Leaves(t, Down(t, rank, to), e))
    && forall e, f | e in es && f in es && e in t.edge && f in t.edge :: t.edge[e].target == t.edge[f].target
  }

  /** The check before the move gives what the same check after it would give. */
  lemma {:induction false} CheckBeforeMove(t: Topo, rank: Rank, t': Topo, rank': Rank, p: Perms, es: set<Edge>,
                                           to: Node)
    requires TopoOk(t, rank) && PermsFor(t, p) && to in t.node && Redirection(t, rank, t', rank', es, to)
    ensures CheckUpdate(t', rank', p, to, Together(p, es), es) == CheckUpdate(t, rank, p, to, Together(p, es), es)
  {
    var d := Down(t, rank, to);
    DownClosed(t, rank, to);
    MovedAlike(t, rank, t', rank', d, es, to);
    CheckUpdateAlike(t, rank, t', rank', d, es, p, to, Together(p, es), es);
  }

  /** Only edges below the checked node have backups. */
  lemma {:induction false} ChangedBelow(t: Topo, rank: Rank, p: Perms, p': Perms, n: Node)
    requires TopoOk(t, rank) && n in t.node && NoBackups(p) && ChangedAt(t, rank, p, p', Down(t, rank, n), n)
    ensures forall e | e in p' && p'[e].backup != NoBackup :: EdgeBelow(t, rank, n, e)
    ensures forall e | e in p' && !EdgeBelow(t, rank, n, e) :: e in p && p'[e] == p[e]
  {
  }

  /**
   bdrv_replace_node leaves no backup and changes permissions only below the new node; and if the users of every node
   tolerated each other, then they still do.
   */
  lemma {:induction false} ReplaceKeeps(t: Topo, rank: Rank, t': Topo, rank': Rank, p: Perms, es: set<Edge>, to: Node)
    requires TopoOk(t, rank) && PermsFor(t, p) && NoBackups(p) && to in t.node
    requires Redirection(t, rank, t', rank', es, to) && CheckUpdate(t, rank, p, to, Together(p, es), es).ok
    ensures CheckUpdate(t', rank', p, to, Together(p, es), es) == CheckUpdate(t, rank, p, to, Together(p, es), es)
    ensures NoBackups(Replaced(t', rank', p, to, es))
    ensures forall e | e in p && !EdgeBelow(t', rank', to, e) :: Replaced(t', rank', p, to, es)[e] == p[e]
    ensures Peace(t, p) ==> Peace(t', Replaced(t', rank', p, to, es))
  {
    CheckBeforeMove(t, rank, t', rank', p, es, to);
    ReplacedFrame(t', rank', p, es, to);
    if Peace(t, p) { ReplaceKeepsPeace(t, rank, t', rank', p, es, to); }
  }

  lemma {:induction false} ReplacedFrame(t: Topo, rank: Rank, p: Perms, es: set<Edge>, to: Node)
    requires TopoOk(t, rank) && PermsFor(t, p) && NoBackups(p) && to in t.node
    ensures NoBackups(Replaced(t, rank, p, to, es))
    ensures forall e | e in p && !EdgeBelow(t, rank, to, e) :: Replaced(t, rank, p, to, es)[e] == p[e]
  {
    var w := Together(p, es);
    var q := CheckUpdate(t, rank, p, to, w, es).p;
    var v := Cumulative(t, q, to);
    var both := Want(v.perm + w.perm, v.shared + w.shared);
    DownClosed(t, rank, to);
    CheckUpdateKeeps(t, rank, p, to, w, es, Down(t, rank, to));
    ChangedBelow(t, rank, p, q, to);
    SetClears(t, rank, q, to, both);
    forall e | e in p && !EdgeBelow(t, rank, to, e) ensures Replaced(t, rank, p, to, es)[e] == p[e] {
      SetChildrenFrame(t, rank, q, to, both, 0, e);
    }
  }

  /** If the users of every node tolerate each other before bdrv_replace_node, then they do so afterwards. */
  lemma {:induction false} ReplaceKeepsPeace(t: Topo, rank: Rank, t': Topo, rank': Rank, p: Perms, es: set<Edge>,
                                             to: Node)
    requires TopoOk(t, rank) && PermsFor(t, p) && to in t.node && Redirection(t, rank, t', rank', es, to)
    requires CheckUpdate(t, rank, p, to, Together(p, es), es).ok && Peace(t, p)
    ensures Peace(t', Replaced(t', rank', p, to, es))
  {
    CheckBeforeMove(t, rank, t', rank', p, es, to);
    MovedPeace(t, rank, t', es, to, p);
    ReplacedPeace(t', rank', p, to, es);
  }

  // -------------------------------------------------------------------------------------------
  // What the OR forgets
  // -------------------------------------------------------------------------------------------

  /** bdrv_set_perm gives every child what is asked for, whatever happens further down. */
  lemma {:induction false} ChildGiven(t: Topo, rank: Rank, p: Perms, n: Node, v: Want, i: nat, e: Edge)
    requires TopoOk(t, rank) && PermsFor(t, p) && n in t.node && i <= |t.node[n].children| && e in t.node[n].children
    requires e in t.edge && t.edge[e].owner == Bds(n) && t.edge[e].target in t.node
    ensures SetChildren(t, rank, p, n, v, i)[e] ==
      if e in t.node[n].children[i..] then Held(Asks(t, e, p[e].want, v), NoBackup) else p[e]
    decreases |t.node[n].children| - i
  {
    var es := t.node[n].children;
    if i < |es| {
      var c := es[i];
      ChildEdge(t, rank, n, c);
      assert NodeOk(t, n) && es[i..] == [c] + es[i + 1..];
      var p1 := ChildSet(t, rank, p, c, Asks(t, c, p[c].want, v));
      assert c !in es[i + 1..];
      if e == c {
        OwnEdgeSet(t, rank, p, c, Asks(t, c, p[c].want, v));
      } else {
        NotBelowChild(t, rank, n, c, e);
        ChildSetFrame(t, rank, p, c, Asks(t, c, p[c].want, v), e);
      }
      ChildGiven(t, rank, p1, n, v, i + 1, e);
    }
  }

  lemma {:induction false} NotBelowChild(t: Topo, rank: Rank, n: Node, c: Edge, e: Edge)
    requires TopoOk(t, rank) && n in t.node && c in t.node[n].children && c in t.edge && t.edge[c].target in t.node
    requires e in t.edge && t.edge[e].owner == Bds(n)
    ensures !EdgeBelow(t, rank, t.edge[c].target, e)
  {
    ChildEdge(t, rank, n, c);
    if n in Down(t, rank, t.edge[c].target) { DownRank(t, rank, t.edge[c].target, n); }
  }

  lemma {:induction false} OwnEdgeSet(t: Topo, rank: Rank, p: Perms, c: Edge, w: Want)
    requires TopoOk(t, rank) && PermsFor(t, p) && c in t.edge && t.edge[c].owner.Bds? && t.edge[c].target in t.node
    ensures ChildSet(t, rank, p, c, w)[c] == Held(w, NoBackup)
  {
    var n, p' := t.edge[c].target, p[c := Held(w, NoBackup)];
    assert EdgeOk(t, rank, c);
    NotBelowChild(t, rank, t.edge[c].owner.node, c, c);
    SetChildrenFrame(t, rank, p', n, Cumulative(t, p', n), 0, c);
  }

  /**
   After bdrv_replace_node, the new node holds on each child what it asks for if only the moved edges restrict what is
   shared: what its earlier users do not share is forgotten.
   */
  lemma {:induction false} ReplacedGives(t: Topo, rank: Rank, p: Perms, to: Node, es: set<Edge>, c: Edge)
    requires TopoOk(t, rank) && PermsFor(t, p) && to in t.node && c in t.node[to].children
    requires forall e | e in es :: e in t.edge && t.edge[e].target == to
    ensures c in t.edge && t.edge[c].owner == Bds(to) && t.edge[c].target in t.node
    ensures var q := CheckUpdate(t, rank, p, to, Together(p, es), es).p;
      Replaced(t, rank, p, to, es)[c].want ==
        Asks(t, c, q[c].want, Want(Cumulative(t, q, to).perm, Together(p, es).shared))
  {
    var w := Together(p, es);
    var q := CheckUpdate(t, rank, p, to, w, es).p;
    ChildEdge(t, rank, to, c);
    AllClosed(t, rank);
    CheckUpdateKeeps(t, rank, p, to, w, es, t.node.Keys);
    UsersKept(t, rank, p, q, to);
    JoinedWithMoved(t, rank, p, q, to, es);
    var v := Cumulative(t, q, to);
    assert v.perm + w.perm == v.perm && v.shared + w.shared == w.shared;
    assert t.node[to].children[0..] == t.node[to].children;
    ChildGiven(t, rank, q, to, Want(v.perm + w.perm, v.shared + w.shared), 0, c);
  }

  /** If the earlier users share whatever the moved edges share, then nothing is forgotten. */
  lemma {:induction false} NothingForgotten(t: Topo, rank: Rank, p: Perms, to: Node, es: set<Edge>)
    requires TopoOk(t, rank) && PermsFor(t, p) && to in t.node
    requires forall e | e in es :: e in t.edge && t.edge[e].target == to
    requires CheckUpdate(t, rank, p, to, Together(p, es), es).ok
    requires Together(p, es).shared <= CumShared(p, t.node[to].parents, es)
    ensures SameWants(CheckUpdate(t, rank, p, to, Together(p, es), es).p, Replaced(t, rank, p, to, es))
  {
    var w, children := Together(p, es), t.node[to].children;
    var q := CheckUpdate(t, rank, p, to, w, es).p;
    CheckedWithMoved(t, rank, p, q, to, es);
    var v := Cumulative(t, q, to);
    assert Want(v.perm + w.perm, v.shared + w.shared) == v;
    assert children[0..] == children;
    SetChildrenSweeps(t, rank, q, to, v, 0);
  }

  /** Otherwise a writer can get in below a filter, although an earlier user of the filter may not share writing. */
  lemma {:induction false} WriterGetsIn(t: Topo, rank: Rank, p: Perms, to: Node, es: set<Edge>, c: Edge, n: Node)
    requires TopoOk(t, rank) && PermsFor(t, p) && to in t.node && c in t.node[to].children
    requires t.node[to].info.driver.FilterDriver?
    requires forall e | e in es :: e in t.edge && t.edge[e].target == to && e in p && Write in p[e].want.shared
    requires c in t.edge && t.edge[c].target == n && n in t.node && t.node[n].children == [] && t.node[n].parents == [c]
    requires t.node[n].info.writable && !t.node[n].info.driver.Checking?
    ensures CheckUpdate(t, rank, Replaced(t, rank, p, to, es), n, R.Writes(), {}).ok
  {
    ReplacedGives(t, rank, p, to, es, c);
    assert SharedBy(p, es, Write);
    var p' := Replaced(t, rank, p, to, es);
    assert Write in p'[c].want.shared;
    forall x: Flag ensures x in ALL {
      match x case ConsistentRead => case Write => case WriteUnchanged => case Resize => case GraphMod =>
    }
    assert Compatible(R.Writes(), p'[c].want);
    R.LeafCheck(t, rank, p', n, R.Writes(), {});
  }

  /** A node with one child that leads to a leaf accepts what both accept. */
  lemma {:induction false} OneChildAccepts(t: Topo, rank: Rank, p: Perms, n: Node, w: Want, ignore: set<Edge>, c: Edge)
    requires TopoOk(t, rank) && PermsFor(t, p) && n in t.node && t.node[n].children == [c] && c in t.edge
    requires t.edge[c].owner == Bds(n) && t.edge[c].target in t.node && t.node[t.edge[c].target].children == []
    requires Fits(t, p, n, ignore, w) && Grants(t.node[n].info, Joined(p, t.node[n].parents, ignore, w))
    requires var v := Asks(t, c, p[c].want, Joined(p, t.node[n].parents, ignore, w)); var m := t.edge[c].target;
      Fits(t, p, m, ignore + {c}, v) && Grants(t.node[m].info, Joined(p, t.node[m].parents, ignore + {c}, v))
    ensures CheckUpdate(t, rank, p, n, w, ignore).ok
  {
    var u := Joined(p, t.node[n].parents, ignore, w);
    var v := Asks(t, c, p[c].want, u);
    R.LeafCheck(t, rank, p, t.edge[c].target, v, ignore + {c});
    var r := ChildCheck(t, rank, p, c, v, ignore);
    assert r.ok && CheckChildren(t, rank, r.p, n, u, ignore, 1) == Checked(true, r.p);
    assert t.node[n].children[0] == c;
    assert CheckChildren(t, rank, p, n, u, ignore, 0) == Checked(true, r.p);
    assert CheckPerm(t, rank, p, n, u, ignore) == Checked(true, r.p);
  }

  const PLAIN := NodeInfo(NoDriver, true, false, false, false)
  const FILTER := NodeInfo(FilterDriver, true, false, false, false)

  /** Node 1, a filter, has node 0 as its backing node (edge 0) and a user (edge 1); node 2 has a user, too (edge 2). */
  function TwoUsers(): Topo {
    Topo(map[0 := NodeRec(PLAIN, [], [0]), 1 := NodeRec(FILTER, [0], [1]), 2 := NodeRec(PLAIN, [], [2])],
      map[0 := EdgeRec(0, Bds(1), Backing), 1 := EdgeRec(1, Root, File), 2 := EdgeRec(2, Root, File)])
  }

  /** The filter has replaced node 2. */
  function OneNode(): Topo {
    Topo(map[0 := NodeRec(PLAIN, [], [0]), 1 := NodeRec(FILTER, [0], [2, 1]), 2 := NodeRec(PLAIN, [], [])],
      map[0 := EdgeRec(0, Bds(1), Backing), 1 := EdgeRec(1, Root, File), 2 := EdgeRec(1, Root, File)])
  }

  /** The user of the filter does not share writing, and so neither does the filter. */
  function OneIsStrict(): Perms {
    map[0 := Held(R.NoWriters(), NoBackup), 1 := Held(R.NoWriters(), NoBackup), 2 := Held(R.Nothing(), NoBackup)]
  }

  lemma {:induction false} TwoUsersOk(t: Topo)
    requires t == TwoUsers()
    ensures TopoOk(t, R.ById)
  {
    assert NodeOk(t, 0) && NodeOk(t, 1) && NodeOk(t, 2);
    assert EdgeOk(t, R.ById, 0) && EdgeOk(t, R.ById, 1) && EdgeOk(t, R.ById, 2);
  }

  lemma {:induction false} OneNodeOk(t: Topo)
    requires t == OneNode()
    ensures TopoOk(t, R.ById)
  {
    assert NodeOk(t, 0) && NodeOk(t, 1) && NodeOk(t, 2);
    assert EdgeOk(t, R.ById, 0) && EdgeOk(t, R.ById, 1) && EdgeOk(t, R.ById, 2);
  }

  lemma {:induction false} StrictCalm(t: Topo, p: Perms)
    requires t == TwoUsers() && p == OneIsStrict()
    ensures Calm(t, R.ById, p)
  {
    TwoUsersOk(t);
  }

  lemma {:induction false} StrictRefuses(t: Topo, p: Perms)
    requires t == TwoUsers() && p == OneIsStrict() && TopoOk(t, R.ById)
    ensures !CheckUpdate(t, R.ById, p, 0, R.Writes(), {}).ok
  {
    assert 0 in t.node[0].parents && !Compatible(R.Writes(), p[0].want);
    assert !Fits(t, p, 0, {}, R.Writes());
  }

  lemma {:induction false} StrictAccepts(t: Topo, p: Perms)
    requires t == TwoUsers() && p == OneIsStrict() && TopoOk(t, R.ById)
    ensures CheckUpdate(t, R.ById, p, 1, Together(p, {2}), {2}).ok
  {
    var w := Together(p, {2});
    assert !UsedBy(p, {2}, Write) && !UsedBy(p, {2}, WriteUnchanged);
    assert w.perm == {} by { forall x: Flag ensures !UsedBy(p, {2}, x) {} }
    OneChildAccepts(t, R.ById, p, 1, w, {2}, 0);
  }

  lemma {:induction false} TwoIsMoved(t: Topo, t': Topo)
    requires t == TwoUsers() && t' == OneNode() && TopoOk(t, R.ById) && TopoOk(t', R.ById)
    ensures Redirection(t, R.ById, t', R.ById, {2}, 1)
  {
  }

  lemma {:induction false} StrictIsKept(t: Topo, p: Perms)
    requires t == OneNode() && p == OneIsStrict() && TopoOk(t, R.ById)
    ensures Replaced(t, R.ById, p, 1, {2})[1] == p[1] && Write !in p[1].want.shared
  {
    ReplacedFrame(t, R.ById, p, {2}, 1);
    assert !EdgeBelow(t, R.ById, 1, 1);
  }

  lemma {:induction false} StrictIsUseless(t: Topo, p: Perms)
    requires t == OneNode() && p == OneIsStrict() && TopoOk(t, R.ById)
    ensures CheckUpdate(t, R.ById, Replaced(t, R.ById, p, 1, {2}), 0, R.Writes(), {}).ok
  {
    WriterGetsIn(t, R.ById, p, 1, {2}, 0, 0);
  }

  /** Replacing node 2 by the filter lets a writer in below the user of the filter that does not share writing. */
  lemma {:induction false} ReplaceForgetsSharing(t: Topo, t': Topo, p: Perms)
    requires t == TwoUsers() && t' == OneNode() && p == OneIsStrict()
    ensures Calm(t, R.ById, p) && Redirection(t, R.ById, t', R.ById, {2}, 1)
    ensures CheckUpdate(t, R.ById, p, 1, Together(p, {2}), {2}).ok && !CheckUpdate(t, R.ById, p, 0, R.Writes(), {}).ok
    ensures Write !in p[1].want.shared && Replaced(t', R.ById, p, 1, {2})[1] == p[1]
    ensures CheckUpdate(t', R.ById, Replaced(t', R.ById, p, 1, {2}), 0, R.Writes(), {}).ok
  {
    StrictCalm(t, p);
    OneNodeOk(t');
    TwoIsMoved(t, t');
    StrictRefuses(t, p);
    StrictAccepts(t, p);
    StrictIsKept(t', p);
    StrictIsUseless(t', p);
  }
}
