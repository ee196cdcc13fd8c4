/**
 Runs of attach, bdrv_child_try_set_perm and detach on a graph of block nodes.
 */
module BlockPermRuns {
  import opened BlockPerms
  import opened BlockPermUpdate
  import opened BlockPermCommit
  import opened BlockPermOps

  datatype Graph = Graph(t: Topo, p: Perms)

  datatype Op =
    | TrySetPerm(c: Edge, w: Want)
    | AttachRootChild(e: Edge, n: Node, role: Role, w: Want)
    | AttachNodeChild(e: Edge, owner: Node, n: Node, role: Role)
    | DetachChild(c: Edge)

  /** What callers guarantee: the edge exists or is new, and a new edge closes no cycle. */
  ghost predicate Allowed(g: Graph, rank: Rank, op: Op) {
    && TopoOk(g.t, rank) && PermsFor(g.t, g.p)
    && match op
       case TrySetPerm(c, w) => c in g.t.edge && WriteUnchanged in w.shared
       case AttachRootChild(e, n, _, w) => e !in g.t.edge && n in g.t.node && WriteUnchanged in w.shared
       case AttachNodeChild(e, m, n, _) =>
         e !in g.t.edge && n in g.t.node && m in g.t.node && HasChildPerm(g.t.node[m].info.driver) && rank(n) < rank(m)
       case DetachChild(c) => c in g.t.edge
  }

  ghost function Perform(g: Graph, rank: Rank, op: Op): Outcome
    requires Allowed(g, rank, op)
  {
    match op
    case TrySetPerm(c, w) => var r := TrySet(g.t, rank, g.p, c, w); Outcome(r.ok, g.t, r.p)
    case AttachRootChild(e, n, role, w) => AttachRoot(g.t, rank, g.p, e, n, role, w)
    case AttachNodeChild(e, m, n, role) => AttachChild(g.t, rank, g.p, e, m, n, role)
    case DetachChild(c) => Detach(g.t, rank, g.p, c)
  }

  /** One operation that does not end in error_abort. */
  ghost predicate Step(g: Graph, rank: Rank, op: Op, g': Graph) {
    && Allowed(g, rank, op)
    && var r := Perform(g, rank, op); g' == Graph(r.t, r.p) && (op.DetachChild? ==> r.ok)
  }

  /** ranks[i] witnesses that the graph is acyclic, with the edge that step i may add. */
  ghost predicate Run(gs: seq<Graph>, ops: seq<Op>, ranks: seq<Rank>) {
    |gs| == |ops| + 1 && |ranks| == |ops|
      && forall i {:trigger Step(gs[i], ranks[i], ops[i], gs[i + 1])} | 0 <= i < |ops| ::
        Step(gs[i], ranks[i], ops[i], gs[i + 1])
  }

  ghost predicate CalmGraph(g: Graph) {
    exists rank: Rank :: Calm(g.t, rank, g.p)
  }

  lemma {:induction false} StepKeepsCalm(g: Graph, rank: Rank, op: Op, g': Graph)
    requires Step(g, rank, op, g') && CalmGraph(g)
    ensures Calm(g'.t, rank, g'.p)
  {
    assert Calm(g.t, rank, g.p);
    match op
    case TrySetPerm(c, w) =>
      assert EdgeOk(g.t, rank, c);
      TrySetCalm(g.t, rank, g.p, c, w);
    case AttachRootChild(e, n, role, w) => AttachRootCalm(g.t, rank, g.p, e, n, role, w);
    case AttachNodeChild(e, m, n, role) => AttachChildCalm(g.t, rank, g.p, e, m, n, role);
    case DetachChild(c) => DetachCalm(g.t, rank, g.p, c);
  }

  /**
   Over every run, any two distinct parents of a node allow each other's permissions, the graph has no cycle,
   and no edge holds a backup between operations.
   */
  lemma {:induction false} RunKeepsCalm(gs: seq<Graph>, ops: seq<Op>, ranks: seq<Rank>, i: nat)
    requires Run(gs, ops, ranks) && CalmGraph(gs[0]) && i < |gs|
    ensures CalmGraph(gs[i])
    ensures forall e, f | e in gs[i].t.edge && f in gs[i].t.edge && e in gs[i].p && f in gs[i].p && e != f
                        && gs[i].t.edge[e].target == gs[i].t.edge[f].target ::
                          gs[i].p[e].want.perm <= gs[i].p[f].want.shared
  {
    if i > 0 {
      var k := i - 1;
      RunKeepsCalm(gs, ops, ranks, k);
      assert Step(gs[k], ranks[k], ops[k], gs[k + 1]);
      StepKeepsCalm(gs[k], ranks[k], ops[k], gs[k + 1]);
    }
  }

  // -------------------------------------------------------------------------------------------
  // How a node loses its slack
  // -------------------------------------------------------------------------------------------

  lemma {:induction false} FailureKeeps(g: Graph, rank: Rank, op: Op)
    requires Allowed(g, rank, op) && Calm(g.t, rank, g.p) && !op.DetachChild? && !Perform(g, rank, op).ok
    ensures Perform(g, rank, op) == Outcome(false, g.t, g.p)
  {
    match op
    case TrySetPerm(c, w) => TrySetIsAtomic(g.t, rank, g.p, c, w);
    case AttachRootChild(e, n, role, w) => AttachRootCalm(g.t, rank, g.p, e, n, role, w);
    case AttachNodeChild(e, m, n, role) => AttachChildCalm(g.t, rank, g.p, e, m, n, role);
  }

  /** A successful bdrv_child_try_set_perm on an edge of m gives m less than it asks for there. */
  ghost predicate Starves(g: Graph, rank: Rank, op: Op, m: Node) {
    && Allowed(g, rank, op) && m in g.t.node && op.TrySetPerm?
    && g.t.edge[op.c].owner == Bds(m) && Perform(g, rank, op).ok && !GivesEnough(g.t, g.p, op.c, op.w, m)
  }

  /** A node that has slack loses it in a step if and only if the step starves this very node. */
  lemma {:induction false} StepKeepsSlack(g: Graph, rank: Rank, op: Op, g': Graph, m: Node)
    requires Step(g, rank, op, g') && CalmGraph(g) && m in g.t.node && SlackAt(g.t, g.p, m) && MonotoneAt(g.t, m)
    ensures m in g'.t.node && g'.t.node[m].info == g.t.node[m].info
    ensures (SlackAt(g'.t, g'.p, m) <==> !Starves(g, rank, op, m))
  {
    assert Calm(g.t, rank, g.p);
    if Perform(g, rank, op).ok {
      match op
      case TrySetPerm(c, w) => TrySetSlack(g.t, rank, g.p, c, w, m);
      case AttachRootChild(e, n, role, w) =>
        AttachRootCalm(g.t, rank, g.p, e, n, role, w);
        AttachRootSlack(g.t, rank, g.p, e, n, role, w, m);
      case AttachNodeChild(e, k, n, role) =>
        AttachChildCalm(g.t, rank, g.p, e, k, n, role);
        AttachChildSlack(g.t, rank, g.p, e, k, n, role, m);
      case DetachChild(c) => DetachSlack(g.t, rank, g.p, c, m);
    } else {
      FailureKeeps(g, rank, op);
    }
  }

  /** Node m had slack in state j of the run, and no step from there to state i has starved it. */
  ghost predicate Fed(gs: seq<Graph>, ops: seq<Op>, ranks: seq<Rank>, j: nat, i: nat, m: Node)
    requires Run(gs, ops, ranks)
  {
    && j <= i < |gs| && m in gs[j].t.node && SlackAt(gs[j].t, gs[j].p, m) && MonotoneAt(gs[j].t, m)
    && forall k {:trigger Starves(gs[k], ranks[k], ops[k], m)} | j <= k < i :: !Starves(gs[k], ranks[k], ops[k], m)
  }

  /** Once it has slack, a node keeps it until it is starved. */
  lemma {:induction false} RunKeepsSlack(gs: seq<Graph>, ops: seq<Op>, ranks: seq<Rank>, j: nat, i: nat, m: Node)
    requires Run(gs, ops, ranks) && CalmGraph(gs[0]) && Fed(gs, ops, ranks, j, i, m)
    ensures m in gs[i].t.node && SlackAt(gs[i].t, gs[i].p, m) && MonotoneAt(gs[i].t, m)
  {
    if i > j {
      var k := i - 1;
      RunKeepsSlack(gs, ops, ranks, j, k, m);
      RunKeepsCalm(gs, ops, ranks, k);
      assert Step(gs[k], ranks[k], ops[k], gs[k + 1]) && !Starves(gs[k], ranks[k], ops[k], m);
      StepKeepsSlack(gs[k], ranks[k], ops[k], gs[k + 1], m);
    }
  }

  /** At some point up to state i, m had slack, and it has not been starved since. */
  ghost predicate WellFed(gs: seq<Graph>, ops: seq<Op>, ranks: seq<Rank>, i: nat, m: Node)
    requires Run(gs, ops, ranks)
  {
    exists j: nat :: Fed(gs, ops, ranks, j, i, m)
  }

  lemma {:induction false} WellFedSlack(gs: seq<Graph>, ops: seq<Op>, ranks: seq<Rank>, i: nat, m: Node)
    requires Run(gs, ops, ranks) && CalmGraph(gs[0]) && i < |gs| && WellFed(gs, ops, ranks, i, m)
    ensures m in gs[i].t.node && SlackAt(gs[i].t, gs[i].p, m) && MonotoneAt(gs[i].t, m)
  {
    var j: nat :| Fed(gs, ops, ranks, j, i, m);
    RunKeepsSlack(gs, ops, ranks, j, i, m);
  }

  /** The node that c leads to in state i, and all nodes below it, are well fed. */
  ghost predicate FedBelow(gs: seq<Graph>, ops: seq<Op>, ranks: seq<Rank>, i: nat, rank: Rank, c: Edge)
    requires Run(gs, ops, ranks) && i < |gs| && TopoOk(gs[i].t, rank) && c in gs[i].t.edge
  {
    assert EdgeOk(gs[i].t, rank, c);
    forall m | m in Down(gs[i].t, rank, gs[i].t.edge[c].target) && m in gs[i].t.node :: WellFed(gs, ops, ranks, i, m)
  }

  /**
   Over every run, detaching an edge succeeds if none of the nodes at and below its target has been starved, as the
   code relies on.  What has happened to other nodes does not matter.
   */
  lemma {:induction false} RunNeverAborts(gs: seq<Graph>, ops: seq<Op>, ranks: seq<Rank>, i: nat, rank: Rank, c: Edge)
    requires Run(gs, ops, ranks) && CalmGraph(gs[0]) && i < |gs| && Allowed(gs[i], rank, DetachChild(c))
    requires FedBelow(gs, ops, ranks, i, rank, c)
    ensures Perform(gs[i], rank, DetachChild(c)).ok
  {
    RunKeepsCalm(gs, ops, ranks, i);
    var t := gs[i].t;
    assert EdgeOk(t, rank, c);
    forall m | m in Down(t, rank, t.edge[c].target) && m in t.node ensures SlackAt(t, gs[i].p, m) && MonotoneAt(t, m) {
      WellFedSlack(gs, ops, ranks, i, m);
    }
    DetachNeverFails(t, rank, gs[i].p, c);
  }

  // -------------------------------------------------------------------------------------------
  // What a user of a node may rely on
  // -------------------------------------------------------------------------------------------

  /** Edges that follow each other down the graph. */
  predicate Chain(t: Topo, es: seq<Edge>) {
    && (forall k | 0 <= k < |es| :: es[k] in t.edge)
    && forall k | 0 < k < |es| :: t.edge[es[k]].owner == Bds(t.edge[es[k - 1]].target)
  }

  /** Edge e belongs to an active node and leads to one whose users are not forced to share. */
  predicate Strict(t: Topo, e: Edge) {
    && e in t.edge && t.edge[e].owner.Bds? && t.edge[e].owner.node in t.node && t.edge[e].target in t.node
    && !t.node[t.edge[e].owner.node].info.inactive && !t.node[t.edge[e].target].info.forceShare
  }

  /**
   Edge e of the node that u uses: the node reads for u what u reads, and keeps away the writers that u keeps away.
   */
  lemma {:induction false} PassedDown(t: Topo, rank: Rank, p: Perms, u: Edge, e: Edge)
    requires Calm(t, rank, p) && u in t.edge && e in t.edge && t.edge[e].owner == Bds(t.edge[u].target)
    requires t.edge[u].target in t.node && SlackAt(t, p, t.edge[u].target)
    ensures ConsistentRead in p[u].want.perm ==> ConsistentRead in p[e].want.perm
    ensures Write !in p[u].want.shared && Strict(t, e) ==> Write !in p[e].want.shared
  {
    var n := t.edge[u].target;
    assert EdgeOk(t, rank, u) && EdgeOk(t, rank, e);
    assert ChildSlack(t, p, e, Cumulative(t, p, n));
    assert ConsistentRead in p[u].want.perm ==> SomeUses(p, t.node[n].parents, {}, ConsistentRead);
    assert Write !in p[u].want.shared ==> !AllShare(p, t.node[n].parents, {}, Write);
  }

  lemma {:induction false} ChainKeeps(t: Topo, rank: Rank, p: Perms, es: seq<Edge>, k: nat)
    requires Calm(t, rank, p) && Chain(t, es) && k < |es|
    requires forall j | 0 <= j < k :: t.edge[es[j]].target in t.node && SlackAt(t, p, t.edge[es[j]].target)
    ensures ConsistentRead in p[es[0]].want.perm ==> ConsistentRead in p[es[k]].want.perm
    ensures Write !in p[es[0]].want.shared && (forall j | 0 < j <= k :: Strict(t, es[j])) ==>
      Write !in p[es[k]].want.shared
  {
    if k > 0 {
      ChainKeeps(t, rank, p, es, k - 1);
      PassedDown(t, rank, p, es[k - 1], es[k]);
    }
  }

  /**
   What the permission system is for.  Over every run, along a chain of edges whose owners have not been starved: if
   the user at its top does not share writing, then no matter how far down, nobody else can write to the nodes that its
   data comes from, and if it reads, they are read for it.
   */
  lemma {:induction false} RunGuardsData(gs: seq<Graph>, ops: seq<Op>, ranks: seq<Rank>, i: nat, es: seq<Edge>, k: nat)
    requires Run(gs, ops, ranks) && CalmGraph(gs[0]) && i < |gs| && Chain(gs[i].t, es) && k < |es|
    requires forall j | 0 <= j < k :: WellFed(gs, ops, ranks, i, gs[i].t.edge[es[j]].target)
    requires forall e | e in es :: e in gs[i].p
    ensures ConsistentRead in gs[i].p[es[0]].want.perm ==> ConsistentRead in gs[i].p[es[k]].want.perm
    ensures Write !in gs[i].p[es[0]].want.shared && (forall j | 0 < j <= k :: Strict(gs[i].t, es[j])) ==>
      forall f | f in gs[i].t.edge && f in gs[i].p && f != es[k]
        && gs[i].t.edge[f].target == gs[i].t.edge[es[k]].target ::
        Write !in gs[i].p[f].want.perm
  {
    RunKeepsCalm(gs, ops, ranks, i);
    var t, p := gs[i].t, gs[i].p;
    var rank: Rank :| Calm(t, rank, p);
    forall j | 0 <= j < k ensures t.edge[es[j]].target in t.node && SlackAt(t, p, t.edge[es[j]].target) {
      WellFedSlack(gs, ops, ranks, i, t.edge[es[j]].target);
    }
    ChainKeeps(t, rank, p, es, k);
    forall f | f in t.edge && f in p && f != es[k] && t.edge[f].target == t.edge[es[k]].target
      ensures p[f].want.perm <= p[es[k]].want.shared { assert Compatible(p[f].want, p[es[k]].want); }
  }

  /**
   Over every run, a format node that has not been starved keeps its metadata: it holds what it needs on its file, and
   nobody else writes or resizes it.
   */
  lemma {:induction false} RunGuardsMetadata(gs: seq<Graph>, ops: seq<Op>, ranks: seq<Rank>, i: nat, e: Edge)
    requires Run(gs, ops, ranks) && CalmGraph(gs[0]) && i < |gs|
    requires e in gs[i].p && Strict(gs[i].t, e) && gs[i].t.edge[e].role == File
    requires gs[i].t.node[gs[i].t.edge[e].owner.node].info.driver.FormatDriver?
    requires WellFed(gs, ops, ranks, i, gs[i].t.edge[e].owner.node)
    ensures var info := gs[i].t.node[gs[i].t.edge[e].owner.node].info;
      (info.writable ==> {Write, Resize} <= gs[i].p[e].want.perm)
        && (!info.noIo ==> ConsistentRead in gs[i].p[e].want.perm)
    ensures forall f | f in gs[i].t.edge && f in gs[i].p && f != e
      && gs[i].t.edge[f].target == gs[i].t.edge[e].target ::
      gs[i].p[f].want.perm !! {Write, Resize}
  {
    RunKeepsCalm(gs, ops, ranks, i);
    var t, p := gs[i].t, gs[i].p;
    var rank: Rank :| Calm(t, rank, p);
    var n := t.edge[e].owner.node;
    assert EdgeOk(t, rank, e);
    WellFedSlack(gs, ops, ranks, i, n);
    assert ChildSlack(t, p, e, Cumulative(t, p, n));
    forall f | f in t.edge && f in p && f != e && t.edge[f].target == t.edge[e].target
      ensures p[f].want.perm <= p[e].want.shared { assert Compatible(p[f].want, p[e].want); }
  }

  // -------------------------------------------------------------------------------------------
  // Without that restriction a detach can end in error_abort
  // -------------------------------------------------------------------------------------------

  /** Node 1, a filter, has node 0 as its backing node (edge 0) and two users (edges 1 and 2). */
  function FilterOnNode(): Topo {
    Topo(map[0 := NodeRec(NodeInfo(NoDriver, true, false, false, false), [], [0]),
             1 := NodeRec(NodeInfo(FilterDriver, true, false, false, false), [0], [1, 2])],
         map[0 := EdgeRec(0, Bds(1), Backing), 1 := EdgeRec(1, Root, File), 2 := EdgeRec(1, Root, File)])
  }

  /** What bdrv_child_try_set_perm gives the edge below the mirror filter at the end of a mirror job */
  function Nothing(): Want { Want({}, ALL) }

  function Writes(): Want { Want({Write}, ALL) }

  function NoWriters(): Want { Want({}, ALL - {Write}) }

  /** Both users write, and so does the filter. */
  function BothWrite(): Perms {
    map[0 := Held(Writes(), NoBackup), 1 := Held(Writes(), NoBackup), 2 := Held(Writes(), NoBackup)]
  }

  function ById(n: Node): nat { n }

  lemma {:induction false} FilterOnNodeOk()
    ensures TopoOk(FilterOnNode(), ById)
  {
    var t := FilterOnNode();
    assert NodeOk(t, 0) && NodeOk(t, 1) && EdgeOk(t, ById, 0) && EdgeOk(t, ById, 1) && EdgeOk(t, ById, 2);
  }

  lemma {:induction false} BothWriteCalm()
    ensures Calm(FilterOnNode(), ById, BothWrite())
  {
    FilterOnNodeOk();
  }

  lemma {:induction false} UsersOf(p: Perms, es: seq<Edge>, w: Want)
    requires es != [] && forall e | e in es :: e in p && p[e].want == w
    ensures CumPerm(p, es, {}) == w.perm && CumShared(p, es, {}) == w.shared
  {
    assert es[0] in es;
    forall x: Flag ensures SomeUses(p, es, {}, x) <==> x in w.perm {}
    forall x: Flag ensures AllShare(p, es, {}, x) <==> x in w.shared {}
  }

  /** All nodes of the graph have slack. */
  ghost predicate SlackGraph(g: Graph) {
    forall m | m in g.t.node :: SlackAt(g.t, g.p, m)
  }

  lemma {:induction false} BothWriteSlack()
    ensures SlackGraph(Graph(FilterOnNode(), BothWrite()))
  {
    var t, p := FilterOnNode(), BothWrite();
    UsersOf(p, [0], Writes());
    UsersOf(p, [1, 2], Writes());
    assert SlackAt(t, p, 0);
    assert ChildSlack(t, p, 0, Cumulative(t, p, 1));
    assert SlackAt(t, p, 1);
  }

  /** On a node without children and without its own check, only the other users and the read-only test decide. */
  lemma {:induction false} LeafCheck(t: Topo, rank: Rank, p: Perms, n: Node, w: Want, ignore: set<Edge>)
    requires TopoOk(t, rank) && PermsFor(t, p) && n in t.node && t.node[n].children == []
    requires Fits(t, p, n, ignore, w) && Grants(t.node[n].info, Joined(p, t.node[n].parents, ignore, w))
    ensures CheckUpdate(t, rank, p, n, w, ignore).ok
  {
    var v := Joined(p, t.node[n].parents, ignore, w);
    assert CheckChildren(t, rank, p, n, v, ignore, 0) == Checked(true, p);
    assert CheckPerm(t, rank, p, n, v, ignore) == Checked(true, p);
  }

  /** If another user of its first child's node does not share what n needs there, n cannot get it. */
  lemma {:induction false} ChildRefuses(t: Topo, rank: Rank, p: Perms, n: Node, v: Want, c: Edge, e: Edge)
    requires TopoOk(t, rank) && PermsFor(t, p) && n in t.node && t.node[n].children != [] && c == t.node[n].children[0]
    requires c in t.edge && t.edge[c].owner == Bds(n) && t.edge[c].target in t.node
    requires e in t.node[t.edge[c].target].parents && e != c && e in p
    requires !(Asks(t, c, p[c].want, v).perm <= p[e].want.shared)
    ensures !CheckPerm(t, rank, p, n, v, {}).ok
  {
    var w := Asks(t, c, p[c].want, v);
    assert !Compatible(w, p[e].want) && !Fits(t, p, t.edge[c].target, {} + {c}, w);
    assert !ChildCheck(t, rank, p, c, w, {}).ok;
  }

  /**
   From that graph: the edge below the filter is set to use nothing while both users of the filter write, a user of the
   node below comes that does not share writing, and one user of the filter leaves.  Now the filter asks for writing
   again on behalf of the other user, and cannot have it.
   */
  lemma {:induction false} DetachCanAbort() returns (g: Graph, g1: Graph, g2: Graph)
    ensures Calm(g.t, ById, g.p) && SlackGraph(g)
    ensures Step(g, ById, TrySetPerm(0, Nothing()), g1)
    ensures Step(g1, ById, AttachRootChild(3, 0, File, NoWriters()), g2)
    ensures Allowed(g2, ById, DetachChild(2)) && !Perform(g2, ById, DetachChild(2)).ok
  {
    g := Graph(FilterOnNode(), BothWrite());
    BothWriteCalm();
    BothWriteSlack();
    g1 := NodeReleased();
    g2 := NodeTaken(g1);
    FilterStarved(g2);
  }

  lemma {:induction false} ReleaseFits(t: Topo, p: Perms)
    requires t == FilterOnNode() && p == BothWrite() && TopoOk(t, ById)
    ensures CheckUpdate(t, ById, p, 0, Nothing(), {} + {0}).ok
  {
    LeafCheck(t, ById, p, 0, Nothing(), {} + {0});
  }

  /** A user of a node is not affected by an edge below the node. */
  lemma {:induction false} SetStep(g: Graph, rank: Rank, c: Edge, w: Want, f: Edge) returns (g1: Graph)
    requires Calm(g.t, rank, g.p) && c in g.t.edge && g.t.edge[c].target in g.t.node && WriteUnchanged in w.shared
    requires CheckUpdate(g.t, rank, g.p, g.t.edge[c].target, w, {} + {c}).ok && f in g.t.edge && f != c
    requires g.t.edge[f].owner == Root
    ensures Step(g, rank, TrySetPerm(c, w), g1) && g1.t == g.t && Calm(g1.t, rank, g1.p)
    ensures g1.p[c] == Held(w, NoBackup) && g1.p[f].want == g.p[f].want
  {
    TrySetCalm(g.t, rank, g.p, c, w);
    g1 := Graph(g.t, TrySet(g.t, rank, g.p, c, w).p);
    assert Allowed(g, rank, TrySetPerm(c, w));
    assert !Leaves(g.t, Down(g.t, rank, g.t.edge[c].target), f);
  }

  lemma {:induction false} NodeReleased() returns (g1: Graph)
    ensures Step(Graph(FilterOnNode(), BothWrite()), ById, TrySetPerm(0, Nothing()), g1)
    ensures g1.t == FilterOnNode() && Calm(g1.t, ById, g1.p) && g1.p[0] == Held(Nothing(), NoBackup)
    ensures g1.p[1].want == Writes()
  {
    BothWriteCalm();
    ReleaseFits(FilterOnNode(), BothWrite());
    g1 := SetStep(Graph(FilterOnNode(), BothWrite()), ById, 0, Nothing(), 1);
  }

  lemma {:induction false} NodeTaken(g1: Graph) returns (g2: Graph)
    requires g1.t == FilterOnNode() && Calm(g1.t, ById, g1.p) && g1.p[0] == Held(Nothing(), NoBackup)
    requires g1.p[1].want == Writes()
    ensures Step(g1, ById, AttachRootChild(3, 0, File, NoWriters()), g2)
    ensures g2.t == AddEdge(g1.t, 3, 0, File) && Calm(g2.t, ById, g2.p) && g2.p[3].want == NoWriters()
    ensures g2.p[1].want == Writes()
  {
    LeafCheck(g1.t, ById, g1.p, 0, NoWriters(), {});
    AttachRootCalm(g1.t, ById, g1.p, 3, 0, File, NoWriters());
    var r := AttachRoot(g1.t, ById, g1.p, 3, 0, File, NoWriters());
    g2 := Graph(r.t, r.p);
    assert Allowed(g1, ById, AttachRootChild(3, 0, File, NoWriters()));
    assert !Leaves(r.t, Down(r.t, ById, 0), 1);
  }

  lemma {:induction false} FilterStarved(g: Graph)
    requires g.t == AddEdge(FilterOnNode(), 3, 0, File) && Calm(g.t, ById, g.p)
    requires g.p[3].want == NoWriters() && g.p[1].want == Writes()
    ensures Allowed(g, ById, DetachChild(2)) && !Perform(g, ById, DetachChild(2)).ok
  {
    RemoveEdgeOk(g.t, ById, 2);
    var t1, p1 := RemoveEdge(g.t, 2), g.p - {2};
    assert t1.node[1].children == [0] && t1.node[1].parents == [1] && t1.node[0].parents == [3, 0];
    assert 3 in t1.node[0].parents && 1 in t1.node[1].parents;
    assert SomeUses(p1, t1.node[1].parents, {}, Write);
    ChildRefuses(t1, ById, p1, 1, Cumulative(t1, p1, 1), 0, 3);
  }
}
