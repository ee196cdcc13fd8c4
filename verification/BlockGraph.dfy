/**
 The graph of block nodes of block.c, updated in place.  The methods compute what the functions of
 BlockPermUpdate, BlockPermCommit and BlockPermOps say, and so have the properties proved there.
 */
module BlockGraphs {
  import opened BlockPerms
  import opened BlockPermUpdate
  import opened BlockPermCommit
  import opened BlockPermOps
  import opened BlockLinks
  import opened BlockReplace

  class BlockGraph {
    var topo: Topo
    var perms: Perms
    var stays: set<Edge>    // edges whose role has stay_at_node set
    var frozen: set<Edge>
    ghost var rank: Rank    // a witness that the graph has no cycle

    constructor (nodes: map<Node, NodeInfo>)
      ensures topo == Topo(map n | n in nodes :: NodeRec(nodes[n], [], []), map[]) && perms == map[]
      ensures Calm(topo, rank, perms)
    {
      topo := Topo(map n | n in nodes :: NodeRec(nodes[n], [], []), map[]);
      perms := map[];
      stays, frozen := {}, {};
      rank := n => 0;
    }

    /** Links and permissions fit together, and the graph has no cycle. */
    ghost predicate Valid()
      reads this
    {
      TopoOk(topo, rank) && PermsFor(topo, perms)
    }

    // -----------------------------------------------------------------------------------------
    // Permission updates
    // -----------------------------------------------------------------------------------------

    /** bdrv_get_cumulative_perm */
    method GetCumulativePerm(n: Node) returns (w: Want)
      requires Valid() && n in topo.node
      ensures w == Cumulative(topo, perms, n)
    {
      var es := topo.node[n].parents;
      w := Want({}, ALL);
      assert NodeOk(topo, n);
      var i := 0;
      while i < |es|
        invariant 0 <= i <= |es|
        invariant w == Joined(perms, es[..i], {}, Want({}, ALL))
      {
        assert es[i] in es;
        JoinedNext(perms, es, i, {}, Want({}, ALL));
        w := Want(w.perm + perms[es[i]].want.perm, w.shared * perms[es[i]].want.shared);
        i := i + 1;
      }
      assert es[..i] == es;
      JoinedFromNothing(perms, es);
    }

    /** bdrv_check_perm */
    method CheckPerm(n: Node, v: Want, ignore: set<Edge>) returns (ok: bool)
      requires Valid() && n in topo.node
      modifies this`perms
      decreases rank(n), 1, 0
      ensures Checked(ok, perms) == BlockPermUpdate.CheckPerm(topo, rank, old(perms), n, v, ignore)
    {
      var info := topo.node[n].info;
      if (Write in v.perm || WriteUnchanged in v.perm) && !info.writable {
        return false;
      }
      if !HasChildPerm(info.driver) {
        NoChildren(topo, rank, n);
        return !info.driver.Checking? || info.driver.accept(v.perm, v.shared);
      }
      var i := 0;
      while i < |topo.node[n].children|
        invariant 0 <= i <= |topo.node[n].children| && PermsFor(topo, perms)
        invariant CheckChildren(topo, rank, perms, n, v, ignore, i) ==
          CheckChildren(topo, rank, old(perms), n, v, ignore, 0)
      {
        var c := topo.node[n].children[i];
        ChildEdge(topo, rank, n, c);
        ok := ChildCheckPerm(c, Asks(topo, c, perms[c].want, v), ignore);
        if !ok {
          return;
        }
        i := i + 1;
      }
      return true;
    }

    /** bdrv_check_update_perm */
    method CheckUpdatePerm(n: Node, w: Want, ignore: set<Edge>) returns (ok: bool)
      requires Valid() && n in topo.node
      modifies this`perms
      decreases rank(n), 2, 0
      ensures Checked(ok, perms) == CheckUpdate(topo, rank, old(perms), n, w, ignore)
    {
      var v;
      ok, v := JoinUsers(n, w, ignore);
      if ok {
        ok := CheckPerm(n, v, ignore);
      }
    }

    /** The loop of bdrv_check_update_perm: nobody is in the way of w; v is what all users ask for together. */
    method JoinUsers(n: Node, w: Want, ignore: set<Edge>) returns (ok: bool, v: Want)
      requires Valid() && n in topo.node
      ensures ok == Fits(topo, perms, n, ignore, w)
      ensures ok ==> v == Joined(perms, topo.node[n].parents, ignore, w)
    {
      var es := topo.node[n].parents;
      v := w;
      assert NodeOk(topo, n);
      assert v == Joined(perms, es[..0], ignore, w) by { JoinedWithNobody(perms, ignore, w); }
      var i := 0;
      while i < |es|
        invariant 0 <= i <= |es|
        invariant v == Joined(perms, es[..i], ignore, w)
        invariant forall j | 0 <= j < i && es[j] !in ignore && es[j] in perms :: Compatible(w, perms[es[j]].want)
      {
        assert es[i] in es;
        JoinedNext(perms, es, i, ignore, w);
        if es[i] !in ignore {
          var u := perms[es[i]].want;
          if w.perm * u.shared != w.perm {
            return false, v;
          }
          if u.perm * w.shared != u.perm {
            return false, v;
          }
          v := Want(v.perm + u.perm, v.shared * u.shared);
        }
        i := i + 1;
      }
      assert es[..i] == es;
      return true, v;
    }

    /** bdrv_child_check_perm */
    method ChildCheckPerm(c: Edge, w: Want, ignore: set<Edge>) returns (ok: bool)
      requires Valid() && c in topo.edge
      modifies this`perms
      decreases rank(topo.edge[c].target), 3, 0
      ensures Checked(ok, perms) == ChildCheck(topo, rank, old(perms), c, w, ignore)
    {
      assert EdgeOk(topo, rank, c);
      ok := CheckUpdatePerm(topo.edge[c].target, w, ignore + {c});
      if ok {
        var backup := if perms[c].backup.Saved? then perms[c].backup else Saved(perms[c].want);
        perms := perms[c := Held(w, backup)];
      }
    }

    /** bdrv_abort_perm_update */
    method AbortPermUpdate(n: Node)
      requires Valid() && n in topo.node
      modifies this`perms
      decreases rank(n), 0, 0
      ensures perms == AbortChildren(topo, rank, old(perms), n, 0)
    {
      ghost var all := AbortChildren(topo, rank, perms, n, 0);
      var i := 0;
      while i < |topo.node[n].children|
        invariant 0 <= i <= |topo.node[n].children| && PermsFor(topo, perms)
        invariant AbortChildren(topo, rank, perms, n, i) == all
      {
        ChildEdge(topo, rank, n, topo.node[n].children[i]);
        ChildAbortPermUpdate(topo.node[n].children[i]);
        i := i + 1;
      }
    }

    /** bdrv_child_abort_perm_update */
    method ChildAbortPermUpdate(c: Edge)
      requires Valid() && c in topo.edge
      modifies this`perms
      decreases rank(topo.edge[c].target), 1, 0
      ensures perms == ChildAbort(topo, rank, old(perms), c)
    {
      assert EdgeOk(topo, rank, c);
      if perms[c].backup.Saved? {
        perms := perms[c := Held(perms[c].backup.want, NoBackup)];
      }
      assert perms == old(perms)[c := Undone(old(perms)[c])];
      AbortPermUpdate(topo.edge[c].target);
    }

    /** bdrv_set_perm */
    method SetPerm(n: Node, v: Want)
      requires Valid() && n in topo.node
      modifies this`perms
      decreases rank(n), 0, 0
      ensures perms == SetChildren(topo, rank, old(perms), n, v, 0)
    {
      ghost var all := SetChildren(topo, rank, perms, n, v, 0);
      var i := 0;
      while i < |topo.node[n].children|
        invariant 0 <= i <= |topo.node[n].children| && PermsFor(topo, perms)
        invariant SetChildren(topo, rank, perms, n, v, i) == all
      {
        var c := topo.node[n].children[i];
        SetChildrenStep(topo, rank, perms, n, v, i, c);
        ChildSetPerm(c, Asks(topo, c, perms[c].want, v));
        i := i + 1;
      }
    }

    /** bdrv_child_set_perm */
    method ChildSetPerm(c: Edge, w: Want)
      requires Valid() && c in topo.edge
      modifies this`perms
      decreases rank(topo.edge[c].target), 1, 0
      ensures perms == ChildSet(topo, rank, old(perms), c, w)
    {
      assert EdgeOk(topo, rank, c);
      perms := perms[c := Held(w, NoBackup)];
      var v := GetCumulativePerm(topo.edge[c].target);
      SetPerm(topo.edge[c].target, v);
    }

    // -----------------------------------------------------------------------------------------
    // Operations
    // -----------------------------------------------------------------------------------------

    /** bdrv_child_try_set_perm */
    method TrySetPerm(c: Edge, w: Want) returns (ok: bool)
      requires Calm(topo, rank, perms) && c in topo.edge && WriteUnchanged in w.shared
      modifies this`perms
      ensures Calm(topo, rank, perms) && Checked(ok, perms) == TrySet(topo, rank, old(perms), c, w)
      ensures if ok then perms[c].want == w else perms == old(perms)
    {
      assert EdgeOk(topo, rank, c);
      TrySetCalm(topo, rank, perms, c, w);
      ok := ChildCheckPerm(c, w, {});
      if !ok {
        ChildAbortPermUpdate(c);
        return;
      }
      ChildSetPerm(c, w);
    }

    /** bdrv_root_attach_child */
    method RootAttachChild(e: Edge, n: Node, role: Role, w: Want) returns (ok: bool)
      requires Calm(topo, rank, perms) && n in topo.node && e !in topo.edge && WriteUnchanged in w.shared
      modifies this`topo, this`perms
      ensures Calm(topo, rank, perms)
      ensures Outcome(ok, topo, perms) == AttachRoot(old(topo), rank, old(perms), e, n, role, w)
      ensures if ok then topo == AddEdge(old(topo), e, n, role) && perms[e].want == w
        else topo == old(topo) && perms == old(perms)
    {
      AttachRootCalm(topo, rank, perms, e, n, role, w);
      ok := CheckUpdatePerm(n, w, {});
      if !ok {
        AbortPermUpdate(n);
        return;
      }
      AddEdgeOk(topo, rank, e, n, role);
      topo, perms := AddEdge(topo, e, n, role), perms[e := Held(w, NoBackup)];
      var v := GetCumulativePerm(n);
      SetPerm(n, v);
    }

    /** bdrv_attach_child; higher is a witness that the new edge closes no cycle. */
    method AttachChild(e: Edge, m: Node, n: Node, role: Role, ghost higher: Rank) returns (ok: bool)
      requires Calm(topo, rank, perms) && n in topo.node && m in topo.node && e !in topo.edge
      requires HasChildPerm(topo.node[m].info.driver) && TopoOk(topo, higher) && higher(n) < higher(m)
      modifies this`topo, this`perms, this`rank
      ensures Calm(topo, rank, perms)
      ensures Outcome(ok, topo, perms) == BlockPermOps.AttachChild(old(topo), higher, old(perms), e, m, n, role)
      ensures if ok then topo == OwnEdge(AddEdge(old(topo), e, n, role), e, m)
        else topo == old(topo) && perms == old(perms)
    {
      rank := higher;
      AttachChildCalm(topo, rank, perms, e, m, n, role);
      FirstWantTolerates(topo, perms, m, n, role);
      var v := GetCumulativePerm(m);
      ok := RootAttachChild(e, n, role, ChildWant(topo.node[m].info, topo.node[n].info, NoBackup, role, v));
      if ok {
        topo := OwnEdge(topo, e, m);
      }
    }

    /** bdrv_detach_child; not ok where the process ends because the check of bdrv_replace_child fails. */
    method DetachChild(c: Edge) returns (ok: bool)
      requires Calm(topo, rank, perms) && c in topo.edge
      modifies this`topo, this`perms
      ensures Outcome(ok, topo, perms) == Detach(old(topo), rank, old(perms), c) && topo == RemoveEdge(old(topo), c)
      ensures ok ==> Calm(topo, rank, perms)
      ensures old(SlackBelow(topo, rank, perms, c)) ==> ok
    {
      var n := topo.edge[c].target;
      DetachCalm(topo, rank, perms, c);
      if SlackBelow(topo, rank, perms, c) { DetachNeverFails(topo, rank, perms, c); }
      RemoveEdgeOk(topo, rank, c);
      topo, perms := RemoveEdge(topo, c), perms - {c};
      var v := GetCumulativePerm(n);
      ok := CheckPerm(n, v, {});
      if ok {
        SetPerm(n, v);
      }
    }

    // -----------------------------------------------------------------------------------------
    // Replacing a node
    // -----------------------------------------------------------------------------------------

    /** should_update_child: true exactly if c may be redirected to a node without closing a cycle. */
    method ShouldUpdateChild(c: Edge, to: Node) returns (r: bool)
      requires Valid() && c in topo.edge && to in topo.node
      ensures r == (c !in stays && !Leaves(topo, Down(topo, rank, to), c))
    {
      if c in stays {
        return false;
      }
      ghost var reach := Down(topo, rank, to);
      r := true;
      var found, queue := {to}, [to];
      while queue != []
        invariant found <= reach && to in found && forall k | k in queue :: k in found
        invariant found <= topo.node.Keys
        invariant r ==> Searched(topo, c, found, queue)
        invariant !r ==> Leaves(topo, reach, c)
        decreases |topo.node.Keys - found| + |queue|
      {
        var v := queue[0];
        assert v in queue;
        if r { SearchedPop(topo, c, found, queue); }
        queue := queue[1..];
        r, found, queue := SearchChildren(c, to, v, r, found, queue);
      }
      if r { SearchedAll(topo, rank, c, to, found); }
    }

    /** The inner loop of should_update_child. */
    method SearchChildren(c: Edge, to: Node, v: Node, r0: bool, found0: set<Node>, queue0: seq<Node>)
      returns (r: bool, found: set<Node>, queue: seq<Node>)
      requires Valid() && c in topo.edge && to in topo.node && v in topo.node && v in Down(topo, rank, to)
      requires found0 <= Down(topo, rank, to) && found0 <= topo.node.Keys && v in found0
      requires forall k | k in queue0 :: k in found0
      requires r0 ==> SearchedBut(topo, c, found0, queue0, v)
      requires !r0 ==> Leaves(topo, Down(topo, rank, to), c)
      ensures found0 <= found <= Down(topo, rank, to) && found <= topo.node.Keys && forall k | k in queue :: k in found
      ensures r ==> Searched(topo, c, found, queue)
      ensures !r ==> Leaves(topo, Down(topo, rank, to), c)
      ensures |topo.node.Keys - found| + |queue| == |topo.node.Keys - found0| + |queue0|
    {
      r, found, queue := r0, found0, queue0;
      var i := 0;
      while i < |topo.node[v].children|
        invariant 0 <= i <= |topo.node[v].children|
        invariant found0 <= found <= Down(topo, rank, to) && found <= topo.node.Keys
        invariant forall k | k in queue :: k in found
        invariant r == r0
        invariant r ==> SearchedBut(topo, c, found, queue, v) && SearchedAt(topo, c, found, v, i)
        invariant |topo.node.Keys - found| + |queue| == |topo.node.Keys - found0| + |queue0|
      {
        var e := topo.node[v].children[i];
        ChildEdge(topo, rank, v, e);
        if e == c {
          return false, found, queue;
        }
        var m := topo.edge[e].target;
        if m !in found {
          DownHead(topo, rank, to, e);
          if r { SearchedMore(topo, c, found, queue, v, i, m); }
          assert topo.node.Keys - found == (topo.node.Keys - (found + {m})) + {m};
          found, queue := found + {m}, queue + [m];
        }
        if r { SearchedNext(topo, c, found, v, i); }
        i := i + 1;
      }
    }

    /** The edges that bdrv_replace_node moves. */
    ghost function Redirected(src: Node, to: Node): set<Edge>
      reads this
      requires Valid() && to in topo.node
    {
      set e | e in topo.edge && Redirects(topo, rank, stays, src, to, e)
    }

    /** The first loop of bdrv_replace_node: the parents to move and what they ask for together. */
    method CollectParents(src: Node, to: Node) returns (ok: bool, list: seq<Edge>, w: Want)
      requires Valid() && src in topo.node && to in topo.node
      ensures ok <==> Redirected(src, to) !! frozen
      ensures ok ==> Distinct(list) && Elements(list) == Redirected(src, to)
      ensures ok ==> w == Together(perms, Redirected(src, to))
    {
      var es := topo.node[src].parents;
      list, w := [], Want({}, ALL);
      JoinedWithNobody(perms, {}, Want({}, ALL));
      assert NodeOk(topo, src);
      var i := 0;
      while i < |es|
        invariant 0 <= i <= |es| && Distinct(list)
        invariant forall e | e in list :: e in es[..i] && Redirects(topo, rank, stays, src, to, e) && e !in frozen
        invariant forall e | e in es[..i] && Redirects(topo, rank, stays, src, to, e) :: e in list
        invariant w == Joined(perms, list, {}, Want({}, ALL))
      {
        var c := es[i];
        assert c in es && es[..i + 1] == es[..i] + [c];
        var update := ShouldUpdateChild(c, to);
        if update {
          if c in frozen {
            assert c in Redirected(src, to);
            return false, list, w;
          }
          NotAmongEarlier(es, i);
          DistinctCons(c, list);
          JoinedCons(perms, list, c, Want({}, ALL));
          list := [c] + list;
          w := Want(w.perm + perms[c].want.perm, w.shared * perms[c].want.shared);
        }
        i := i + 1;
      }
      assert es[..i] == es;
      forall e | e in Redirected(src, to) ensures e in list { assert EdgeOk(topo, rank, e); }
      JoinedTogether(perms, list);
      assert Elements(list) == Redirected(src, to);
      return true, list, w;
    }

    /** The second loop of bdrv_replace_node. */
    method MoveParents(list: seq<Edge>, to: Node)
      requires Valid() && to in topo.node && Distinct(list) && forall e | e in list :: MayMove(topo, rank, e, to)
      modifies this`topo
      ensures Valid() && topo.node.Keys == old(topo.node.Keys) && Moved(old(topo), topo, Elements(list), to)
    {
      var i := 0;
      while i < |list|
        invariant 0 <= i <= |list| && TopoOk(topo, rank) && topo.node.Keys == old(topo.node.Keys)
        invariant Moved(old(topo), topo, Elements(list[..i]), to)
      {
        var c := list[i];
        assert c in list && MayMove(old(topo), rank, c, to);
        NotYetMoved(old(topo), topo, list, i, to);
        MovedNext(old(topo), topo, list, i, to);
        MoveEdgeOk(topo, rank, c, to);
        topo := MoveEdge(topo, c, to);
        i := i + 1;
      }
      assert list[..i] == list;
    }

    /**
     bdrv_replace_node: moves exactly the edges to src that neither stay at their node nor belong to a node that
     to reaches, and keeps the graph without cycles.  If the users of every node tolerated each other, then
     they still do.  A frozen edge among them, or a refused permission, changes nothing.
     */
    method ReplaceNode(src: Node, to: Node) returns (ok: bool)
      requires Valid() && NoBackups(perms) && src in topo.node && to in topo.node
      modifies this`topo, this`perms, this`rank
      ensures Valid() && NoBackups(perms) && topo.node.Keys == old(topo.node.Keys)
      ensures ok <==> old(Redirected(src, to) !! frozen
                          && CheckUpdate(topo, rank, perms, to, Together(perms, Redirected(src, to)),
                            Redirected(src, to)).ok)
      ensures ok ==> Moved(old(topo), topo, old(Redirected(src, to)), to)
      ensures ok ==> perms == Replaced(topo, rank, old(perms), to, old(Redirected(src, to)))
      ensures old(Peace(topo, perms)) ==> Peace(topo, perms)
      ensures forall e | e in perms && !EdgeBelow(topo, rank, to, e) :: e in old(perms) && perms[e] == old(perms[e])
      ensures !ok ==> topo == old(topo) && perms == old(perms)
    {
      var list, w;
      ok, list, w := CollectParents(src, to);
      if !ok {
        return;
      }
      var ignore := Elements(list);
      forall e | e in list ensures Redirects(topo, rank, stays, src, to, e) {
        assert e in ignore && e in Redirected(src, to);
      }
      ok := CheckUpdatePerm(to, w, ignore);
      if ok {
        MoveAndSet(list, src, to, w, old(perms));
      } else {
        DownClosed(topo, rank, to);
        CheckUpdateKeeps(topo, rank, old(perms), to, w, ignore, Down(topo, rank, to));
        AbortNode(topo, rank, old(perms), perms, to);
        AbortPermUpdate(to);
      }
    }

    /** The end of bdrv_replace_node: the edges move, and the permissions that were checked before are set. */
    method MoveAndSet(list: seq<Edge>, ghost src: Node, to: Node, w: Want, ghost was: Perms)
      requires Valid() && PermsFor(topo, was) && NoBackups(was) && src in topo.node && to in topo.node && Distinct(list)
      requires forall e | e in list :: Redirects(topo, rank, stays, src, to, e)
      requires w == Together(was, Elements(list))
      requires Checked(true, perms) == CheckUpdate(topo, rank, was, to, w, Elements(list))
      modifies this`topo, this`perms, this`rank
      ensures Valid() && NoBackups(perms) && topo.node.Keys == old(topo.node.Keys)
      ensures Moved(old(topo), topo, Elements(list), to) && perms == Replaced(topo, rank, was, to, Elements(list))
      ensures forall e | e in perms && !EdgeBelow(topo, rank, to, e) :: e in was && perms[e] == was[e]
      ensures Peace(old(topo), was) ==> Peace(topo, perms)
    {
      RedirectedMayMove(topo, rank, stays, src, to, list);
      rank := Raised(topo, rank, to);
      MoveParents(list, to);
      ReplaceKeeps(old(topo), old(rank), topo, rank, was, Elements(list), to);
      var v := GetCumulativePerm(to);
      SetPerm(to, Want(v.perm + w.perm, v.shared + w.shared));
    }
  }

  lemma {:induction false} NotAmongEarlier(es: seq<Edge>, i: nat)
    requires Distinct(es) && i < |es|
    ensures es[i] !in es[..i]
  {
    forall j | 0 <= j < i ensures es[..i][j] != es[i] {}
  }

  lemma {:induction false} SetChildrenStep(t: Topo, rank: Rank, p: Perms, n: Node, v: Want, i: nat, c: Edge)
    requires TopoOk(t, rank) && PermsFor(t, p) && n in t.node && i < |t.node[n].children| && c == t.node[n].children[i]
    ensures c in t.edge && t.edge[c].owner == Bds(n) && EdgeOk(t, rank, c)
    ensures SetChildren(t, rank, p, n, v, i) ==
      SetChildren(t, rank, ChildSet(t, rank, p, c, Asks(t, c, p[c].want, v)), n, v, i + 1)
  {
    ChildEdge(t, rank, n, c);
  }

  lemma {:induction false} JoinedWithNobody(p: Perms, ignore: set<Edge>, w: Want)
    ensures Joined(p, [], ignore, w) == w
  {
    forall x: Flag ensures !SomeUses(p, [], ignore, x) && AllShare(p, [], ignore, x) {}
    assert w.shared * CumShared(p, [], ignore) == w.shared;
  }
}
