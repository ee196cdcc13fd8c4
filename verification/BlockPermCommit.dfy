/**
 How a permission check of block.c ends: bdrv_abort_perm_update goes back to the backups,
 bdrv_set_perm makes the new permissions final.
 */
module BlockPermCommit {
  import opened BlockPerms
  import opened BlockPermUpdate

  /** bdrv_child_abort_perm_update on one edge */
  function Undone(h: Held): Held {
    Held(Original(h), NoBackup)
  }

  /** bdrv_child_set_perm on an edge that already holds the new permissions */
  function Final(h: Held): Held {
    Held(h.want, NoBackup)
  }

  /** bdrv_child_abort_perm_update */
  ghost function ChildAbort(t: Topo, rank: Rank, p: Perms, c: Edge): (r: Perms)
    requires TopoOk(t, rank) && PermsFor(t, p) && c in t.edge
    ensures r.Keys == p.Keys
    decreases rank(t.edge[c].target), 1, 0
  {
    assert EdgeOk(t, rank, c);
    AbortChildren(t, rank, p[c := Undone(p[c])], t.edge[c].target, 0)
  }

  /** The loop of bdrv_abort_perm_update from child i on. */
  ghost function AbortChildren(t: Topo, rank: Rank, p: Perms, n: Node, i: nat): (r: Perms)
    requires TopoOk(t, rank) && PermsFor(t, p) && n in t.node && i <= |t.node[n].children|
    ensures r.Keys == p.Keys
    decreases rank(n), 0, |t.node[n].children| - i
  {
    if i == |t.node[n].children| then p else
    var c := t.node[n].children[i];
    assert NodeOk(t, n) && c in t.node[n].children && EdgeOk(t, rank, c);
    AbortChildren(t, rank, ChildAbort(t, rank, p, c), n, i + 1)
  }

  /** bdrv_child_set_perm */
  ghost function ChildSet(t: Topo, rank: Rank, p: Perms, c: Edge, w: Want): (r: Perms)
    requires TopoOk(t, rank) && PermsFor(t, p) && c in t.edge
    ensures r.Keys == p.Keys
    decreases rank(t.edge[c].target), 1, 0
  {
    assert EdgeOk(t, rank, c);
    var n, p' := t.edge[c].target, p[c := Held(w, NoBackup)];
    SetChildren(t, rank, p', n, Cumulative(t, p', n), 0)
  }

  /** The loop of bdrv_set_perm from child i on. */
  ghost function SetChildren(t: Topo, rank: Rank, p: Perms, n: Node, v: Want, i: nat): (r: Perms)
    requires TopoOk(t, rank) && PermsFor(t, p) && n in t.node && i <= |t.node[n].children|
    ensures r.Keys == p.Keys
    decreases rank(n), 0, |t.node[n].children| - i
  {
    if i == |t.node[n].children| then p else
    var c := t.node[n].children[i];
    assert NodeOk(t, n) && c in t.node[n].children && EdgeOk(t, rank, c);
    SetChildren(t, rank, ChildSet(t, rank, p, c, Asks(t, c, p[c].want, v)), n, v, i + 1)
  }

  // -------------------------------------------------------------------------------------------
  // Which edges they reach
  // -------------------------------------------------------------------------------------------

  /** The edges that leave nodes of b. */
  ghost predicate Leaves(t: Topo, b: set<Node>, e: Edge) {
    e in t.edge && t.edge[e].owner.Bds? && t.edge[e].owner.node in b
  }

  /** p' is p with f applied to c and to the edges that leave b. */
  ghost predicate Swept(t: Topo, f: Held -> Held, p: Perms, p': Perms, b: set<Node>, c: Edge) {
    p'.Keys == p.Keys && forall e | e in p :: p'[e] == if e == c || Leaves(t, b, e) then f(p[e]) else p[e]
  }

  /** p' is p with f applied to the edges es and to the edges that leave b. */
  ghost predicate SweptAll(t: Topo, f: Held -> Held, p: Perms, p': Perms, b: set<Node>, es: seq<Edge>) {
    p'.Keys == p.Keys && forall e | e in p :: p'[e] == if e in es || Leaves(t, b, e) then f(p[e]) else p[e]
  }

  ghost predicate Idempotent(f: Held -> Held) {
    forall h :: f(f(h)) == f(h)
  }

  /** Sweeping one child and then the rest sweeps them all. */
  lemma {:induction false} SweptNext(t: Topo, f: Held -> Held, p: Perms, p1: Perms, p2: Perms, b1: set<Node>,
                                     b2: set<Node>, es: seq<Edge>)
    requires es != [] && Idempotent(f) && Swept(t, f, p, p1, b1, es[0]) && SweptAll(t, f, p1, p2, b2, es[1..])
    ensures SweptAll(t, f, p, p2, b1 + b2, es)
  {
    assert es == [es[0]] + es[1..];
    forall e | e in p ensures p2[e] == if e in es || Leaves(t, b1 + b2, e) then f(p[e]) else p[e] {
      assert Leaves(t, b1 + b2, e) <==> Leaves(t, b1, e) || Leaves(t, b2, e);
    }
  }

  /** Sweeping an edge and then its node's children sweeps everything below it. */
  lemma {:induction false} SweptDown(t: Topo, rank: Rank, f: Held -> Held, p: Perms, p2: Perms, c: Edge, n: Node,
                                     b: set<Node>)
    requires TopoOk(t, rank) && PermsFor(t, p) && c in t.edge && t.edge[c].target == n && n in t.node && Idempotent(f)
    requires SweptAll(t, f, p[c := f(p[c])], p2, b, t.node[n].children)
    ensures Swept(t, f, p, p2, {n} + b, c)
  {
    forall e | e in p ensures p2[e] == if e == c || Leaves(t, {n} + b, e) then f(p[e]) else p[e] {
      assert EdgeOk(t, rank, e) && NodeOk(t, n);
      assert Leaves(t, {n} + b, e) <==> e in t.node[n].children || Leaves(t, b, e);
    }
  }

  /** Sweeping child i of n and then the later ones sweeps the children from i on. */
  lemma {:induction false} SweptFrom(t: Topo, rank: Rank, f: Held -> Held, p: Perms, p1: Perms, p2: Perms, n: Node,
                                     i: nat, c: Edge)
    requires TopoOk(t, rank) && n in t.node && i < |t.node[n].children| && c == t.node[n].children[i] && c in t.edge
    requires t.edge[c].target in t.node
    requires Idempotent(f) && Swept(t, f, p, p1, Down(t, rank, t.edge[c].target), c)
    requires SweptAll(t, f, p1, p2, DownAll(t, rank, n, t.node[n].children[i + 1..]), t.node[n].children[i + 1..])
    ensures SweptAll(t, f, p, p2, DownAll(t, rank, n, t.node[n].children[i..]), t.node[n].children[i..])
  {
    var es := t.node[n].children[i..];
    assert es[0] == c && es[1..] == t.node[n].children[i + 1..];
    SweptNext(t, f, p, p1, p2, Down(t, rank, t.edge[c].target), DownAll(t, rank, n, es[1..]), es);
  }

  lemma {:induction false} ChildAbortSweeps(t: Topo, rank: Rank, p: Perms, c: Edge)
    requires TopoOk(t, rank) && PermsFor(t, p) && c in t.edge && t.edge[c].target in t.node
    ensures Swept(t, Undone, p, ChildAbort(t, rank, p, c), Down(t, rank, t.edge[c].target), c)
    decreases rank(t.edge[c].target), 1, 0
  {
    var n := t.edge[c].target;
    var p1 := p[c := Undone(p[c])];
    AbortChildrenSweeps(t, rank, p1, n, 0);
    assert t.node[n].children[0..] == t.node[n].children;
    SweptDown(t, rank, Undone, p, AbortChildren(t, rank, p1, n, 0), c, n, DownAll(t, rank, n, t.node[n].children));
  }

  lemma {:induction false} AbortChildrenSweeps(t: Topo, rank: Rank, p: Perms, n: Node, i: nat)
    requires TopoOk(t, rank) && PermsFor(t, p) && n in t.node && i <= |t.node[n].children|
    ensures SweptAll(t, Undone, p, AbortChildren(t, rank, p, n, i), DownAll(t, rank, n, t.node[n].children[i..]),
      t.node[n].children[i..])
    decreases rank(n), 0, |t.node[n].children| - i
  {
    if i < |t.node[n].children| {
      var c := t.node[n].children[i];
      assert NodeOk(t, n) && c in t.node[n].children && EdgeOk(t, rank, c);
      var p1 := ChildAbort(t, rank, p, c);
      ChildAbortSweeps(t, rank, p, c);
      AbortChildrenSweeps(t, rank, p1, n, i + 1);
      SweptFrom(t, rank, Undone, p, p1, AbortChildren(t, rank, p1, n, i + 1), n, i, c);
    }
  }

  // -------------------------------------------------------------------------------------------
  // Setting permissions clears all backups below, whatever they are set to
  // -------------------------------------------------------------------------------------------

  /** Edge e is child i of n or a later one, or it is below one of them. */
  ghost predicate Reached(t: Topo, rank: Rank, n: Node, i: nat, e: Edge)
    requires TopoOk(t, rank) && n in t.node
  {
    exists c :: ReachedBy(t, rank, n, i, c, e)
  }

  ghost predicate ReachedBy(t: Topo, rank: Rank, n: Node, i: nat, c: Edge, e: Edge)
    requires TopoOk(t, rank) && n in t.node
  {
    i <= |t.node[n].children| && c in t.node[n].children[i..] && c in t.edge && t.edge[c].target in t.node
    && (e == c || EdgeBelow(t, rank, t.edge[c].target, e))
  }

  lemma {:induction false} BelowIsReached(t: Topo, rank: Rank, n: Node, e: Edge)
    requires TopoOk(t, rank) && n in t.node && EdgeBelow(t, rank, n, e)
    ensures Reached(t, rank, n, 0, e)
  {
    assert t.node[n].children[0..] == t.node[n].children && NodeOk(t, n) && EdgeOk(t, rank, e);
    var m := t.edge[e].owner.node;
    if m == n {
      assert ReachedBy(t, rank, n, 0, e, e);
    } else {
      var c := DownAllFrom(t, rank, n, t.node[n].children, m);
      assert ReachedBy(t, rank, n, 0, c, e);
    }
  }

  lemma {:induction false} ChildSetClears(t: Topo, rank: Rank, p: Perms, c: Edge, w: Want, e: Edge)
    requires TopoOk(t, rank) && PermsFor(t, p) && c in t.edge && t.edge[c].target in t.node && e in p
    requires p[e].backup == NoBackup || e == c || EdgeBelow(t, rank, t.edge[c].target, e)
    ensures ChildSet(t, rank, p, c, w)[e].backup == NoBackup
    decreases rank(t.edge[c].target), 1, 0
  {
    var n, p' := t.edge[c].target, p[c := Held(w, NoBackup)];
    if p'[e].backup != NoBackup { BelowIsReached(t, rank, n, e); }
    SetChildrenClears(t, rank, p', n, Cumulative(t, p', n), 0, e);
  }

  lemma {:induction false} SetChildrenClears(t: Topo, rank: Rank, p: Perms, n: Node, v: Want, i: nat, e: Edge)
    requires TopoOk(t, rank) && PermsFor(t, p) && n in t.node && i <= |t.node[n].children| && e in p
    requires p[e].backup == NoBackup || Reached(t, rank, n, i, e)
    ensures SetChildren(t, rank, p, n, v, i)[e].backup == NoBackup
    decreases rank(n), 0, |t.node[n].children| - i
  {
    if i < |t.node[n].children| {
      var c := t.node[n].children[i];
      ChildEdge(t, rank, n, c);
      var p1 := ChildSet(t, rank, p, c, Asks(t, c, p[c].want, v));
      if p[e].backup == NoBackup || ReachedBy(t, rank, n, i, c, e) {
        ChildSetClears(t, rank, p, c, Asks(t, c, p[c].want, v), e);
      } else {
        var f :| ReachedBy(t, rank, n, i, f, e);
        assert t.node[n].children[i..] == [c] + t.node[n].children[i + 1..];
        assert ReachedBy(t, rank, n, i + 1, f, e);
      }
      SetChildrenClears(t, rank, p1, n, v, i + 1, e);
    }
  }

  lemma {:induction false} ChildSetFrame(t: Topo, rank: Rank, p: Perms, c: Edge, w: Want, e: Edge)
    requires TopoOk(t, rank) && PermsFor(t, p) && c in t.edge && t.edge[c].target in t.node
    requires e in p && e != c && !EdgeBelow(t, rank, t.edge[c].target, e)
    ensures ChildSet(t, rank, p, c, w)[e] == p[e]
    decreases rank(t.edge[c].target), 1, 0
  {
    var n, p' := t.edge[c].target, p[c := Held(w, NoBackup)];
    SetChildrenFrame(t, rank, p', n, Cumulative(t, p', n), 0, e);
  }

  /** bdrv_set_perm on n only changes edges below n. */
  lemma {:induction false} SetChildrenFrame(t: Topo, rank: Rank, p: Perms, n: Node, v: Want, i: nat, e: Edge)
    requires TopoOk(t, rank) && PermsFor(t, p) && n in t.node && i <= |t.node[n].children| && e in p
    requires !EdgeBelow(t, rank, n, e)
    ensures SetChildren(t, rank, p, n, v, i)[e] == p[e]
    decreases rank(n), 0, |t.node[n].children| - i
  {
    if i < |t.node[n].children| {
      var c := t.node[n].children[i];
      ChildEdge(t, rank, n, c);
      DownAllHas(t, rank, n, t.node[n].children, c);
      var w := Asks(t, c, p[c].want, v);
      ChildSetFrame(t, rank, p, c, w, e);
      SetChildrenFrame(t, rank, ChildSet(t, rank, p, c, w), n, v, i + 1, e);
    }
  }

  /** If only edges below n have a backup, bdrv_set_perm on n leaves none. */
  lemma {:induction false} SetClears(t: Topo, rank: Rank, p: Perms, n: Node, v: Want)
    requires TopoOk(t, rank) && PermsFor(t, p) && n in t.node
    requires forall e | e in p && p[e].backup != NoBackup :: EdgeBelow(t, rank, n, e)
    ensures NoBackups(SetChildren(t, rank, p, n, v, 0))
  {
    forall e | e in p ensures SetChildren(t, rank, p, n, v, 0)[e].backup == NoBackup {
      if p[e].backup != NoBackup { BelowIsReached(t, rank, n, e); }
      SetChildrenClears(t, rank, p, n, v, 0, e);
    }
  }

  // -------------------------------------------------------------------------------------------
  // On consistent nodes, setting permissions only clears backups
  // -------------------------------------------------------------------------------------------

  ghost predicate SameWants(p: Perms, p': Perms) {
    p'.Keys == p.Keys && forall e | e in p :: p'[e].want == p[e].want
  }

  lemma {:induction false} SameWantsSettled(t: Topo, rank: Rank, p: Perms, p': Perms, s: set<Node>)
    requires TopoOk(t, rank) && PermsFor(t, p) && SameWants(p, p') && SettledOn(t, rank, p, s)
    ensures SettledOn(t, rank, p', s)
  {
    forall m | m in s && m in t.node ensures Settled(t, rank, p', m) {
      assert NodeOk(t, m);
      SettledSame(t, rank, p, p', m);
    }
  }

  lemma {:induction false} SameWantsChecksOut(t: Topo, rank: Rank, p: Perms, p': Perms, n: Node, v: Want)
    requires TopoOk(t, rank) && PermsFor(t, p) && SameWants(p, p') && n in t.node
    requires ChecksOut(t, rank, p, n, v, |t.node[n].children|)
    ensures ChecksOut(t, rank, p', n, v, |t.node[n].children|)
  {
    forall j | 0 <= j < |t.node[n].children| ensures ChildOk(t, rank, p', t.node[n].children[j], v) {
      assert ChildOk(t, rank, p, t.node[n].children[j], v);
    }
  }

  lemma {:induction false} SettledChecksOut(t: Topo, rank: Rank, p: Perms, n: Node)
    requires TopoOk(t, rank) && PermsFor(t, p) && n in t.node && Settled(t, rank, p, n)
    ensures ChecksOut(t, rank, p, n, Cumulative(t, p, n), |t.node[n].children|)
  {
    var es := t.node[n].children;
    forall j | 0 <= j < |es| ensures ChildOk(t, rank, p, es[j], Cumulative(t, p, n)) {
      assert NodeOk(t, n) && es[j] in es && EdgeOk(t, rank, es[j]);
    }
  }

  lemma {:induction false} ChildSetSweeps(t: Topo, rank: Rank, p: Perms, c: Edge)
    requires TopoOk(t, rank) && PermsFor(t, p) && c in t.edge && t.edge[c].target in t.node
    requires SettledOn(t, rank, p, Down(t, rank, t.edge[c].target))
    ensures Swept(t, Final, p, ChildSet(t, rank, p, c, p[c].want), Down(t, rank, t.edge[c].target), c)
    decreases rank(t.edge[c].target), 1, 0, 0
  {
    var n := t.edge[c].target;
    var p1 := p[c := Final(p[c])];
    SameWantsSettled(t, rank, p, p1, Down(t, rank, n));
    SettledChecksOut(t, rank, p1, n);
    var v := Cumulative(t, p1, n);
    assert t.node[n].children[0..] == t.node[n].children;
    SetChildrenSweeps(t, rank, p1, n, v, 0);
    SweptDown(t, rank, Final, p, SetChildren(t, rank, p1, n, v, 0), c, n, DownAll(t, rank, n, t.node[n].children));
  }

  /** Child i of a node whose children are in order already holds what it is given. */
  lemma {:induction false} ChildFirm(t: Topo, rank: Rank, p: Perms, n: Node, v: Want, i: nat, c: Edge)
    requires TopoOk(t, rank) && PermsFor(t, p) && n in t.node && i < |t.node[n].children| && c == t.node[n].children[i]
    requires ChecksOut(t, rank, p, n, v, |t.node[n].children|)
    requires SettledOn(t, rank, p, DownAll(t, rank, n, t.node[n].children[i..]))
    ensures ChildOk(t, rank, p, c, v) && t.edge[c].owner == Bds(n)
    ensures SettledOn(t, rank, p, Down(t, rank, t.edge[c].target))
    ensures SettledOn(t, rank, p, DownAll(t, rank, n, t.node[n].children[i + 1..]))
  {
    assert NodeOk(t, n) && c in t.node[n].children;
    assert ChildOk(t, rank, p, t.node[n].children[i], v);
    assert t.node[n].children[i..][1..] == t.node[n].children[i + 1..];
  }

  lemma {:induction false} SetRestSweeps(t: Topo, rank: Rank, p: Perms, p1: Perms, b: set<Node>, c: Edge, n: Node,
                                         v: Want, i: nat)
    requires TopoOk(t, rank) && PermsFor(t, p) && n in t.node && i <= |t.node[n].children|
    requires Swept(t, Final, p, p1, b, c)
    requires ChecksOut(t, rank, p, n, v, |t.node[n].children|)
    requires SettledOn(t, rank, p, DownAll(t, rank, n, t.node[n].children[i..]))
    ensures SweptAll(t, Final, p1, SetChildren(t, rank, p1, n, v, i), DownAll(t, rank, n, t.node[n].children[i..]),
      t.node[n].children[i..])
    decreases rank(n), 0, |t.node[n].children| - i, 1
  {
    SameWantsSettled(t, rank, p, p1, DownAll(t, rank, n, t.node[n].children[i..]));
    SameWantsChecksOut(t, rank, p, p1, n, v);
    SetChildrenSweeps(t, rank, p1, n, v, i);
  }

  lemma {:induction false} SetChildrenSweeps(t: Topo, rank: Rank, p: Perms, n: Node, v: Want, i: nat)
    requires TopoOk(t, rank) && PermsFor(t, p) && n in t.node && i <= |t.node[n].children|
    requires ChecksOut(t, rank, p, n, v, |t.node[n].children|)
    requires SettledOn(t, rank, p, DownAll(t, rank, n, t.node[n].children[i..]))
    ensures SweptAll(t, Final, p, SetChildren(t, rank, p, n, v, i), DownAll(t, rank, n, t.node[n].children[i..]),
      t.node[n].children[i..])
    decreases rank(n), 0, |t.node[n].children| - i, 0
  {
    if i < |t.node[n].children| {
      var c := t.node[n].children[i];
      ChildFirm(t, rank, p, n, v, i, c);
      var p1 := ChildSet(t, rank, p, c, p[c].want);
      ChildSetSweeps(t, rank, p, c);
      SetRestSweeps(t, rank, p, p1, Down(t, rank, t.edge[c].target), c, n, v, i + 1);
      SweptFrom(t, rank, Final, p, p1, SetChildren(t, rank, p1, n, v, i + 1), n, i, c);
    }
  }

  // -------------------------------------------------------------------------------------------
  // Whole updates
  // -------------------------------------------------------------------------------------------

  /** bdrv_child_try_set_perm */
  ghost function TrySet(t: Topo, rank: Rank, p: Perms, c: Edge, w: Want): (r: Checked)
    requires TopoOk(t, rank) && PermsFor(t, p) && c in t.edge
    ensures r.p.Keys == p.Keys
  {
    var r := ChildCheck(t, rank, p, c, w, {});
    Checked(r.ok, if r.ok then ChildSet(t, rank, r.p, c, w) else ChildAbort(t, rank, r.p, c))
  }

  lemma {:induction false} DownClosed(t: Topo, rank: Rank, n: Node)
    requires TopoOk(t, rank) && n in t.node
    ensures Closed(t, Down(t, rank, n))
  {
    forall e | e in t.edge && t.edge[e].owner.Bds? && t.edge[e].owner.node in Down(t, rank, n)
      ensures t.edge[e].target in Down(t, rank, n)
    {
      DownHead(t, rank, n, e);
    }
  }

  /** Undoing what a check may have done gives the state before the check. */
  lemma {:induction false} UndoneIsOriginal(t: Topo, rank: Rank, p: Perms, p1: Perms, p2: Perms, b: set<Node>, n: Node,
                                            c: Edge)
    requires NoBackups(p) && KeepsFrom(t, rank, p, p1, b, n, c) && Swept(t, Undone, p1, p2, b, c)
    ensures p2 == p
  {
    forall e | e in p ensures p2[e] == p[e] {
      assert Original(p1[e]) == Original(p[e]);
    }
  }

  lemma {:induction false} FinalIsClean(t: Topo, rank: Rank, p: Perms, p1: Perms, p2: Perms, b: set<Node>, n: Node,
                                        c: Edge)
    requires NoBackups(p) && KeepsFrom(t, rank, p, p1, b, n, c) && Swept(t, Final, p1, p2, b, c)
    ensures NoBackups(p2) && SameWants(p1, p2)
  {
  }

  /**
   On every graph without cycles, whatever the permissions of its edges: a failed bdrv_child_try_set_perm
   changes nothing, and a successful one leaves exactly the permissions that were checked, with no backup left.
   */
  lemma {:induction false} TrySetIsAtomic(t: Topo, rank: Rank, p: Perms, c: Edge, w: Want)
    requires TopoOk(t, rank) && PermsFor(t, p) && c in t.edge && NoBackups(p)
    ensures var r := TrySet(t, rank, p, c, w);
      && NoBackups(r.p) && (!r.ok ==> r.p == p)
      && (r.ok ==> r.p[c].want == w && SameWants(ChildCheck(t, rank, p, c, w, {}).p, r.p))
  {
    assert EdgeOk(t, rank, c);
    if TrySet(t, rank, p, c, w).ok {
      TrySetSucceeds(t, rank, p, c, w);
    } else {
      TrySetFails(t, rank, p, c, w);
    }
  }

  lemma {:induction false} TrySetFails(t: Topo, rank: Rank, p: Perms, c: Edge, w: Want)
    requires TopoOk(t, rank) && PermsFor(t, p) && c in t.edge && t.edge[c].target in t.node && NoBackups(p)
    ensures var r := ChildCheck(t, rank, p, c, w, {}); ChildAbort(t, rank, r.p, c) == p
  {
    var n, r := t.edge[c].target, ChildCheck(t, rank, p, c, w, {});
    DownClosed(t, rank, n);
    ChildCheckKeeps(t, rank, p, c, w, {}, Down(t, rank, n));
    ChildAbortSweeps(t, rank, r.p, c);
    UndoneIsOriginal(t, rank, p, r.p, ChildAbort(t, rank, r.p, c), Down(t, rank, n), n, c);
  }

  lemma {:induction false} SetAfterCheck(t: Topo, rank: Rank, p: Perms, p1: Perms, c: Edge, n: Node)
    requires TopoOk(t, rank) && PermsFor(t, p) && c in t.edge && t.edge[c].target == n && n in t.node && NoBackups(p)
    requires KeepsFrom(t, rank, p, p1, Down(t, rank, n), n, c) && SettledOn(t, rank, p1, Down(t, rank, n))
    ensures var p2 := ChildSet(t, rank, p1, c, p1[c].want); NoBackups(p2) && SameWants(p1, p2)
  {
    ChildSetSweeps(t, rank, p1, c);
    FinalIsClean(t, rank, p, p1, ChildSet(t, rank, p1, c, p1[c].want), Down(t, rank, n), n, c);
  }

  /** A successful check of c makes everything below c consistent. */
  lemma {:induction false} CheckedBelow(t: Topo, rank: Rank, p: Perms, c: Edge, w: Want)
    requires TopoOk(t, rank) && PermsFor(t, p) && c in t.edge && t.edge[c].target in t.node
    ensures SettledIfOk(t, rank, ChildCheck(t, rank, p, c, w, {}), Down(t, rank, t.edge[c].target))
  {
    var d := Down(t, rank, t.edge[c].target);
    ChildCheckSettled(t, rank, p, c, w, {}, {});
    SettledFewer(t, rank, ChildCheck(t, rank, p, c, w, {}), {} + d, d);
  }

  lemma {:induction false} SettledFewer(t: Topo, rank: Rank, r: Checked, s: set<Node>, s': set<Node>)
    requires TopoOk(t, rank) && PermsFor(t, r.p) && SettledIfOk(t, rank, r, s) && s' <= s
    ensures SettledIfOk(t, rank, r, s')
  {
  }

  lemma {:induction false} TrySetSucceeds(t: Topo, rank: Rank, p: Perms, c: Edge, w: Want)
    requires TopoOk(t, rank) && PermsFor(t, p) && c in t.edge && t.edge[c].target in t.node && NoBackups(p)
    requires ChildCheck(t, rank, p, c, w, {}).ok
    ensures var r := ChildCheck(t, rank, p, c, w, {});
      var p' := ChildSet(t, rank, r.p, c, w);
      NoBackups(p') && p'[c].want == w && SameWants(r.p, p')
  {
    var n, r := t.edge[c].target, ChildCheck(t, rank, p, c, w, {});
    DownClosed(t, rank, n);
    ChildCheckKeeps(t, rank, p, c, w, {}, Down(t, rank, n));
    ChildCheckStores(t, rank, p, c, w, {});
    CheckedBelow(t, rank, p, c, w);
    SetAfterCheck(t, rank, p, r.p, c, n);
  }
}
