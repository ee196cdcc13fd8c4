/**
 When exactly the check that bdrv_replace_child makes after taking a parent away succeeds.
 */
module BlockPermExact {
  import opened BlockPerms
  import opened BlockPermUpdate
  import opened BlockPermCommit
  import opened BlockPermOps

  /** Edge e belongs to a node. */
  ghost predicate Owned(t: Topo, e: Edge) {
    e in t.edge && t.edge[e].owner.Bds? && t.edge[e].owner.node in t.node && t.edge[e].target in t.node
  }

  /**
   Permissions q that answer all the nodes of d: each of their edges holds exactly what its owner asks for, given what
   the users of the owner hold; each node grants its users what they hold; the other edges are as in p; and all users
   of all nodes tolerate each other.
   */
  ghost predicate Answers(t: Topo, p: Perms, q: Perms, d: set<Node>) {
    && PermsFor(t, p) && PermsFor(t, q) && AllCompatible(t, q)
    && (forall e | e in t.edge && !Leaves(t, d, e) :: q[e].want == p[e].want)
    && (forall m | m in d && m in t.node :: Grants(t.node[m].info, Cumulative(t, q, m)))
    && (forall e {:trigger Answered(t, p, q, e)} | e in t.edge && Leaves(t, d, e) :: Answered(t, p, q, e))
  }

  ghost predicate Answered(t: Topo, p: Perms, q: Perms, e: Edge)
    requires e in t.edge && e in p && e in q
  {
    Owned(t, e) && q[e].want == Asks(t, e, p[e].want, Cumulative(t, q, t.edge[e].owner.node))
  }

  // -------------------------------------------------------------------------------------------
  // What a successful check leaves is an answer
  // -------------------------------------------------------------------------------------------

  /** The owner of e cannot tell from e whether it holds cur or cur'. */
  ghost predicate AsksSame(t: Topo, e: Edge, cur: Want, cur': Want)
    requires Owned(t, e)
  {
    forall v :: Asks(t, e, cur', v) == Asks(t, e, cur, v)
  }

  lemma {:induction false} AskedIsSame(t: Topo, e: Edge, cur: Want, v: Want)
    requires Owned(t, e)
    ensures AsksSame(t, e, cur, Asks(t, e, cur, v))
  {
  }

  ghost predicate Alike(t: Topo, p: Perms, p': Perms) {
    && p'.Keys == p.Keys
    && forall e {:trigger Owned(t, e)} | e in p && Owned(t, e) :: AsksSame(t, e, p[e].want, p'[e].want)
  }

  lemma {:induction false} ChildCheckAlike(t: Topo, rank: Rank, p: Perms, c: Edge, w: Want, ignore: set<Edge>)
    requires TopoOk(t, rank) && PermsFor(t, p) && Owned(t, c) && AsksSame(t, c, p[c].want, w)
    ensures Alike(t, p, ChildCheck(t, rank, p, c, w, ignore).p)
    decreases rank(t.edge[c].target), 2, 0
  {
    var n := t.edge[c].target;
    if Fits(t, p, n, ignore + {c}, w) {
      CheckPermAlike(t, rank, p, n, Joined(p, t.node[n].parents, ignore + {c}, w), ignore + {c});
    }
  }

  lemma {:induction false} CheckPermAlike(t: Topo, rank: Rank, p: Perms, n: Node, v: Want, ignore: set<Edge>)
    requires TopoOk(t, rank) && PermsFor(t, p) && n in t.node
    ensures Alike(t, p, CheckPerm(t, rank, p, n, v, ignore).p)
    decreases rank(n), 1, 0
  {
    if Grants(t.node[n].info, v) { CheckChildrenAlike(t, rank, p, n, v, ignore, 0); }
  }

  lemma {:induction false} CheckChildrenAlike(t: Topo, rank: Rank, p: Perms, n: Node, v: Want, ignore: set<Edge>,
                                              i: nat)
    requires TopoOk(t, rank) && PermsFor(t, p) && n in t.node && i <= |t.node[n].children|
    ensures Alike(t, p, CheckChildren(t, rank, p, n, v, ignore, i).p)
    decreases rank(n), 0, |t.node[n].children| - i
  {
    if i < |t.node[n].children| {
      var c := t.node[n].children[i];
      ChildEdge(t, rank, n, c);
      var w := Asks(t, c, p[c].want, v);
      AskedIsSame(t, c, p[c].want, v);
      ChildCheckAlike(t, rank, p, c, w, ignore);
      var r := ChildCheck(t, rank, p, c, w, ignore);
      if r.ok { CheckChildrenAlike(t, rank, r.p, n, v, ignore, i + 1); }
    }
  }

  // -------------------------------------------------------------------------------------------
  // If there is an answer, the check finds it
  // -------------------------------------------------------------------------------------------

  /** No two edges that leave nodes of d lead to the same node. */
  ghost predicate Forest(t: Topo, d: set<Node>) {
    forall e, f | e in t.edge && f in t.edge && Leaves(t, d, e) && Leaves(t, d, f) && e != f ::
      t.edge[e].target != t.edge[f].target
  }

  /** What the check works with: the nodes d below, the permissions p at the start and an answer q to them. */
  ghost predicate Solvable(t: Topo, rank: Rank, p: Perms, q: Perms, d: set<Node>) {
    TopoOk(t, rank) && Closed(t, d) && Forest(t, d) && Answers(t, p, q, d)
  }

  /** Every edge holds what it held at the start, or its answer. */
  ghost predicate Between(p: Perms, q: Perms, p': Perms) {
    p'.Keys == p.Keys == q.Keys && forall e | e in p :: p'[e].want == p[e].want || p'[e].want == q[e].want
  }

  ghost predicate Found(r: Checked, p: Perms, q: Perms) {
    r.ok && Between(p, q, r.p)
  }

  lemma {:induction false} ChildCheckFinds(t: Topo, rank: Rank, p': Perms, c: Edge, ignore: set<Edge>, p: Perms,
                                           q: Perms, d: set<Node>)
    requires Solvable(t, rank, p, q, d) && Between(p, q, p') && c in t.edge && Leaves(t, d, c)
    requires IgnoresAbove(t, rank, ignore, rank(t.edge[c].target) + 1)
    ensures Found(ChildCheck(t, rank, p', c, q[c].want, ignore), p, q)
    decreases rank(t.edge[c].target), 2, 0
  {
    var n := t.edge[c].target;
    assert EdgeOk(t, rank, c);
    AnswerFits(t, rank, p', c, ignore, p, q, d);
    CheckPermFinds(t, rank, p', n, ignore + {c}, p, q, d);
    var r := CheckPerm(t, rank, p', n, Cumulative(t, q, n), ignore + {c});
    assert CheckUpdate(t, rank, p', n, q[c].want, ignore + {c}) == r;
    AnswerStored(p, q, r.p, c);
    assert ChildCheck(t, rank, p', c, q[c].want, ignore) == Checked(true, Stored(r.p, c, q[c].want));
  }

  lemma {:induction false} AnswerStored(p: Perms, q: Perms, p': Perms, c: Edge)
    requires Between(p, q, p') && c in p
    ensures Between(p, q, Stored(p', c, q[c].want))
  {
  }

  /** The other users of c's node are as in q, because none of them belongs to a node of d. */
  lemma {:induction false} AnswerFits(t: Topo, rank: Rank, p': Perms, c: Edge, ignore: set<Edge>, p: Perms, q: Perms,
                                      d: set<Node>)
    requires Solvable(t, rank, p, q, d) && Between(p, q, p') && c in t.edge && Leaves(t, d, c)
    requires t.edge[c].target in t.node
    requires IgnoresAbove(t, rank, ignore, rank(t.edge[c].target) + 1)
    ensures var n := t.edge[c].target;
      Fits(t, p', n, ignore + {c}, q[c].want)
        && Joined(p', t.node[n].parents, ignore + {c}, q[c].want) == Cumulative(t, q, n)
  {
    var n, h := t.edge[c].target, Held(q[c].want, NoBackup);
    assert NodeOk(t, n) && EdgeOk(t, rank, c);
    forall e | e in t.node[n].parents && e != c ensures p'[e].want == q[e].want && Compatible(q[c].want, q[e].want) {
      assert !Leaves(t, d, e);
    }
    forall e | e in t.node[n].parents && e in ignore + {c} ensures e == c { OnlySelfIgnored(t, rank, c, n, ignore, e); }
    JoinedIsCumulative(p', t.node[n].parents, c, ignore + {c}, h);
    CumulativeSame(q, p'[c := h], t.node[n].parents, {});
  }

  lemma {:induction false} CheckPermFinds(t: Topo, rank: Rank, p': Perms, n: Node, ignore: set<Edge>, p: Perms,
                                          q: Perms, d: set<Node>)
    requires Solvable(t, rank, p, q, d) && Between(p, q, p') && n in t.node && n in d
    requires IgnoresAbove(t, rank, ignore, rank(n))
    ensures Found(CheckPerm(t, rank, p', n, Cumulative(t, q, n), ignore), p, q)
    decreases rank(n), 1, 0
  {
    CheckChildrenFinds(t, rank, p', n, ignore, 0, p, q, d);
  }

  lemma {:induction false} CheckChildrenFinds(t: Topo, rank: Rank, p': Perms, n: Node, ignore: set<Edge>, i: nat,
                                              p: Perms, q: Perms, d: set<Node>)
    requires Solvable(t, rank, p, q, d) && Between(p, q, p') && n in t.node && n in d
    requires IgnoresAbove(t, rank, ignore, rank(n))
    requires i <= |t.node[n].children|
    ensures Found(CheckChildren(t, rank, p', n, Cumulative(t, q, n), ignore, i), p, q)
    decreases rank(n), 0, |t.node[n].children| - i
  {
    if i < |t.node[n].children| {
      var c, v := t.node[n].children[i], Cumulative(t, q, n);
      ChildEdge(t, rank, n, c);
      assert Leaves(t, d, c) && Answered(t, p, q, c);
      AsksAgain(t, c, p[c].want, v);
      assert Asks(t, c, p'[c].want, v) == q[c].want;
      ChildCheckFinds(t, rank, p', c, ignore, p, q, d);
      CheckChildrenFinds(t, rank, ChildCheck(t, rank, p', c, q[c].want, ignore).p, n, ignore, i + 1, p, q, d);
    }
  }

  // -------------------------------------------------------------------------------------------
  // Detaching
  // -------------------------------------------------------------------------------------------

  /** There are permissions that answer the nodes at and below the node that c leads to, once c is gone. */
  ghost predicate Answerable(t: Topo, rank: Rank, p: Perms, c: Edge)
    requires TopoOk(t, rank) && c in t.edge
  {
    RemoveEdgeOk(t, rank, c);
    assert EdgeOk(t, rank, c);
    exists q :: Answers(RemoveEdge(t, c), p - {c}, q, Down(RemoveEdge(t, c), rank, t.edge[c].target))
  }

  ghost predicate ForestBelow(t: Topo, rank: Rank, c: Edge)
    requires TopoOk(t, rank) && c in t.edge
  {
    RemoveEdgeOk(t, rank, c);
    assert EdgeOk(t, rank, c);
    Forest(RemoveEdge(t, c), Down(RemoveEdge(t, c), rank, t.edge[c].target))
  }

  /** In every graph, a detach can only succeed if there is an answer: the one it leaves. */
  lemma {:induction false} DetachNeedsAnswer(t: Topo, rank: Rank, p: Perms, c: Edge)
    requires Calm(t, rank, p) && c in t.edge && Detach(t, rank, p, c).ok
    ensures Answerable(t, rank, p, c)
  {
    RemoveEdgeOk(t, rank, c);
    assert EdgeOk(t, rank, c);
    var t1, n, p1 := RemoveEdge(t, c), t.edge[c].target, p - {c};
    var d, r := Down(t1, rank, n), Detach(t, rank, p, c);
    DetachCalm(t, rank, p, c);
    RecheckedAlike(t1, rank, p1, n);
    LeftIsAnswer(t1, rank, p1, r.p, d);
  }

  lemma {:induction false} RecheckedAlike(t: Topo, rank: Rank, p: Perms, n: Node)
    requires Calm(t, rank, p) && n in t.node && CheckPerm(t, rank, p, n, Cumulative(t, p, n), {}).ok
    ensures Alike(t, p, SetChildren(t, rank, CheckPerm(t, rank, p, n, Cumulative(t, p, n), {}).p, n,
      Cumulative(t, p, n), 0))
  {
    var v := Cumulative(t, p, n);
    var r := CheckPerm(t, rank, p, n, v, {});
    CheckPermAlike(t, rank, p, n, v, {});
    RecheckedNode(t, rank, p, n);
    SetNode(t, rank, p, r.p, n, v);
  }

  lemma {:induction false} LeftIsAnswer(t: Topo, rank: Rank, p: Perms, q: Perms, d: set<Node>)
    requires PermsFor(t, p) && Calm(t, rank, q) && SettledOn(t, rank, q, d) && SameBeside(t, p, q, d) && Alike(t, p, q)
    ensures Answers(t, p, q, d)
  {
    forall e | e in t.edge && Leaves(t, d, e) ensures Answered(t, p, q, e) {
      assert EdgeOk(t, rank, e);
      var m := t.edge[e].owner.node;
      assert Owned(t, e) && Settled(t, rank, q, m) && ChildOk(t, rank, q, e, Cumulative(t, q, m));
    }
    forall m | m in d && m in t.node ensures Grants(t.node[m].info, Cumulative(t, q, m)) {
      assert Settled(t, rank, q, m);
    }
  }

  /**
   If the edges below form a forest, the detach succeeds exactly if there are permissions that answer every node at
   and below the one that loses its user.
   */
  lemma {:induction false} DetachExact(t: Topo, rank: Rank, p: Perms, c: Edge)
    requires Calm(t, rank, p) && c in t.edge && ForestBelow(t, rank, c)
    ensures Detach(t, rank, p, c).ok <==> Answerable(t, rank, p, c)
  {
    RemoveEdgeOk(t, rank, c);
    assert EdgeOk(t, rank, c);
    var t1, n, p1 := RemoveEdge(t, c), t.edge[c].target, p - {c};
    var d := Down(t1, rank, n);
    if Detach(t, rank, p, c).ok { DetachNeedsAnswer(t, rank, p, c); }
    if Answerable(t, rank, p, c) {
      var q :| Answers(t1, p1, q, d);
      DownClosed(t1, rank, n);
      UsersAreAnswered(t1, rank, p1, q, n);
      CheckPermFinds(t1, rank, p1, n, {}, p1, q, d);
    }
  }

  /** The users of n itself are not below n, so they hold the same in every answer. */
  lemma {:induction false} UsersAreAnswered(t: Topo, rank: Rank, p: Perms, q: Perms, n: Node)
    requires TopoOk(t, rank) && n in t.node && Answers(t, p, q, Down(t, rank, n))
    ensures Cumulative(t, q, n) == Cumulative(t, p, n)
  {
    assert NodeOk(t, n);
    forall e | e in t.node[n].parents ensures e in p && e in q && q[e].want == p[e].want {
      assert EdgeOk(t, rank, e);
      if Leaves(t, Down(t, rank, n), e) { DownRank(t, rank, n, t.edge[e].owner.node); }
    }
    CumulativeSame(p, q, t.node[n].parents, {});
  }

  // -------------------------------------------------------------------------------------------
  // Without a forest, an answer is not enough
  // -------------------------------------------------------------------------------------------

  /** Filter 1 has two edges (0 and 1) to node 0, and two users (2 and 3). */
  function Twins(): Topo {
    Topo(map[0 := NodeRec(NodeInfo(NoDriver, true, false, false, false), [], [0, 1]),
             1 := NodeRec(NodeInfo(FilterDriver, true, false, false, false), [0, 1], [2, 3])],
         map[0 := EdgeRec(0, Bds(1), File), 1 := EdgeRec(0, Bds(1), File), 2 := EdgeRec(1, Root, File),
           3 := EdgeRec(1, Root, File)])
  }

  function Writing(): Want { Want({Write}, ALL) }

  /** Both users write; edge 0 has been set to use nothing, and edge 1 to share no writing. */
  function TwinPerms(): Perms {
    map[0 := Held(Want({}, ALL), NoBackup), 1 := Held(Want({}, ALL - {Write}), NoBackup),
      2 := Held(Writing(), NoBackup), 3 := Held(Writing(), NoBackup)]
  }

  /** Without user 3, both edges may write and share again. */
  function TwinAnswer(): Perms {
    map[0 := Held(Writing(), NoBackup), 1 := Held(Writing(), NoBackup), 2 := Held(Writing(), NoBackup)]
  }

  function Level(n: Node): nat { n }

  lemma {:induction false} TwinsOk()
    ensures TopoOk(Twins(), Level)
  {
    var t := Twins();
    assert NodeOk(t, 0) && NodeOk(t, 1);
    assert EdgeOk(t, Level, 0) && EdgeOk(t, Level, 1) && EdgeOk(t, Level, 2) && EdgeOk(t, Level, 3);
  }

  lemma {:induction false} UsersAgree(t: Topo, p: Perms, e: Edge, f: Edge)
    requires t == Twins() && p == TwinPerms() && e in t.edge && f in t.edge && t.edge[e].target == t.edge[f].target
    ensures Compatible(p[e].want, p[f].want)
  {
  }

  lemma {:induction false} TwinsCalm()
    ensures Calm(Twins(), Level, TwinPerms())
  {
    TwinsOk();
    TwinsPeace(Twins(), TwinPerms());
    TwinsIdle();
  }

  lemma {:induction false} TwinsIdle()
    ensures PermsFor(Twins(), TwinPerms()) && NoBackups(TwinPerms()) && Tolerant(TwinPerms())
  {
  }

  lemma {:induction false} TwinsPeace(t: Topo, p: Perms)
    requires t == Twins() && p == TwinPerms()
    ensures AllCompatible(t, p)
  {
    forall e, f | e in t.edge && f in t.edge && e in p && f in p && e != f && t.edge[e].target == t.edge[f].target
      ensures Compatible(p[e].want, p[f].want) { UsersAgree(t, p, e, f); }
  }

  /** What the check works on */
  ghost predicate TwinsLess(t: Topo) {
    && TopoOk(t, Level) && t.node.Keys == {0, 1} && t.edge.Keys == {0, 1, 2}
    && t.node[0] == Twins().node[0] && t.node[1] == Twins().node[1].(parents := [2])
    && t.edge[0] == t.edge[1] == EdgeRec(0, Bds(1), File) && t.edge[2] == EdgeRec(1, Root, File)
  }

  lemma {:induction false} TwinsWithoutUser()
    ensures TwinsLess(RemoveEdge(Twins(), 3))
  {
    TwinsOk();
    RemoveEdgeOk(Twins(), Level, 3);
    var t := RemoveEdge(Twins(), 3);
    assert t.node[1].parents == [2] && t.node[0].parents == [0, 1];
  }

  lemma {:induction false} OneUser(p: Perms, e: Edge)
    requires e in p && p[e].want == Writing()
    ensures CumPerm(p, [e], {}) == {Write} && CumShared(p, [e], {}) == ALL
  {
    assert e in [e];
    forall x: Flag ensures SomeUses(p, [e], {}, x) <==> x in p[e].want.perm {}
    forall x: Flag ensures AllShare(p, [e], {}, x) <==> x in p[e].want.shared {}
  }

  lemma {:induction false} TwinsAreAnswered(t: Topo, p: Perms)
    requires TwinsLess(t) && p == TwinPerms() - {3}
    ensures Answers(t, p, TwinAnswer(), Down(t, Level, 1))
  {
    TwinIsAnswered(t, p, 0);
    TwinIsAnswered(t, p, 1);
    AllWriting(t, TwinAnswer());
    TwinsGrant(t, TwinAnswer());
    assert 1 in Down(t, Level, 1);
    AllAnswered(t, p, TwinAnswer(), Down(t, Level, 1));
  }

  lemma {:induction false} AllAnswered(t: Topo, p: Perms, q: Perms, d: set<Node>)
    requires PermsFor(t, p) && PermsFor(t, q) && AllCompatible(t, q)
    requires forall m | m in t.node :: Grants(t.node[m].info, Cumulative(t, q, m))
    requires forall e | e in t.edge ::
      if t.edge[e].owner.Bds? then t.edge[e].owner.node in d && Answered(t, p, q, e) else q[e].want == p[e].want
    ensures Answers(t, p, q, d)
  {
  }

  lemma {:induction false} TwinsGrant(t: Topo, q: Perms)
    requires TwinsLess(t)
    ensures forall m | m in t.node :: Grants(t.node[m].info, Cumulative(t, q, m))
  {
  }

  lemma {:induction false} TwinIsAnswered(t: Topo, p: Perms, e: Edge)
    requires TwinsLess(t) && p == TwinPerms() - {3} && (e == 0 || e == 1)
    ensures Answered(t, p, TwinAnswer(), e)
  {
    OneUser(TwinAnswer(), 2);
  }

  lemma {:induction false} AllWriting(t: Topo, q: Perms)
    requires forall e | e in q :: q[e].want == Writing()
    ensures AllCompatible(t, q)
  {
    assert Compatible(Writing(), Writing());
  }

  /** Node 1 asks for writing on edge 0 while edge 1, which comes later, still does not share it. */
  lemma {:induction false} TwinsAreRefused(t: Topo, p: Perms)
    requires TwinsLess(t) && p == TwinPerms() - {3}
    ensures !CheckPerm(t, Level, p, 1, Cumulative(t, p, 1), {}).ok
  {
    OneUser(p, 2);
    var w := Asks(t, 0, p[0].want, Cumulative(t, p, 1));
    assert Write in w.perm && 1 in t.node[0].parents && !Compatible(w, p[1].want);
    assert !Fits(t, p, 0, {} + {0}, w);
    assert !ChildCheck(t, Level, p, 0, w, {}).ok;
  }

  /** Here there is an answer, but the detach fails: the order of the visits matters where nodes are shared. */
  lemma {:induction false} SharedNodeMatters()
    ensures Calm(Twins(), Level, TwinPerms()) && Answerable(Twins(), Level, TwinPerms(), 3)
    ensures !Detach(Twins(), Level, TwinPerms(), 3).ok
  {
    TwinsCalm();
    TwinsWithoutUser();
    TwinsAreAnswered(RemoveEdge(Twins(), 3), TwinPerms() - {3});
    TwinsAreRefused(RemoveEdge(Twins(), 3), TwinPerms() - {3});
  }
}
