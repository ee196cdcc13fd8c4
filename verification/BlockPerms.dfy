/**
 Block-node permissions of block.c: nodes, the edges between them and the permission functions.

 A graph has a fixed part (Topo) and the permission state of its edges (Perms).  Permissions are
 sets of flags; DEFAULT_PERM_PASSTHROUGH and DEFAULT_PERM_UNCHANGED are complementary masks.
 */
module BlockPerms {

  type Node = nat
  type Edge = nat

  datatype Flag = ConsistentRead | Write | WriteUnchanged | Resize | GraphMod

  type Flags = set<Flag>

  const ALL: Flags := {ConsistentRead, Write, WriteUnchanged, Resize, GraphMod}
  const PASSTHROUGH: Flags := {ConsistentRead, Write, WriteUnchanged, Resize}
  const UNCHANGED: Flags := {GraphMod}

  /** child_file or child_backing */
  datatype Role = File | Backing

  /**
   How a node's driver treats permissions.  A driver with its own check has no children; whether it
   accepts cumulative permissions is up to it.
   */
  datatype Driver =
    | NoDriver
    | Checking(accept: (Flags, Flags) -> bool)
    | FilterDriver
    | FormatDriver

  datatype NodeInfo = NodeInfo(
    driver: Driver,
    writable: bool,     // BDRV_O_RDWR without BDRV_O_INACTIVE
    inactive: bool,     // BDRV_O_INACTIVE
    noIo: bool,         // BDRV_O_NO_IO
    forceShare: bool
  )

  /** perm and shared_perm of an edge, or the pair that an edge asks for. */
  datatype Want = Want(perm: Flags, shared: Flags)

  datatype Backup = NoBackup | Saved(want: Want)

  /** A BdrvChild's current permissions and its backup_perm/backup_shared_perm. */
  datatype Held = Held(want: Want, backup: Backup)

  type Perms = map<Edge, Held>

  datatype Owner = Root | Bds(node: Node)

  /** The fixed part of a BlockDriverState: its driver and its two lists of edges. */
  datatype NodeRec = NodeRec(info: NodeInfo, children: seq<Edge>, parents: seq<Edge>)

  /** The fixed part of a BdrvChild: the node it points to, and the node that owns it, if any. */
  datatype EdgeRec = EdgeRec(target: Node, owner: Owner, role: Role)

  datatype Topo = Topo(node: map<Node, NodeRec>, edge: map<Edge, EdgeRec>)

  // -------------------------------------------------------------------------------------------
  // Permission functions
  // -------------------------------------------------------------------------------------------

  /** bdrv_filter_default_perms; cur is NoBackup when there is no edge yet. */
  function FilterPerms(cur: Backup, w: Want): Want {
    match cur
    case NoBackup => Want(w.perm * PASSTHROUGH, (w.shared * PASSTHROUGH) + UNCHANGED)
    case Saved(c) => Want((w.perm * PASSTHROUGH) + (c.perm * UNCHANGED),
      (w.shared * PASSTHROUGH) + (c.shared * UNCHANGED))
  }

  /** bdrv_format_default_perms */
  function FormatPerms(n: NodeInfo, cur: Backup, role: Role, w: Want): Want {
    var Want(perm, shared) :=
      match role
      case File =>
        var Want(perm, shared) := FilterPerms(cur, w);
        Want(perm + (if n.writable then {Write, Resize} else {}) + (if n.noIo then {} else {ConsistentRead}),
             shared - {Write, Resize})
      case Backing =>
        Want(w.perm * {ConsistentRead},
             (if Write in w.shared then {Write, Resize} else {}) + {ConsistentRead, GraphMod, WriteUnchanged});
    Want(perm, if n.inactive then shared + {Write, Resize} else shared)
  }

  /** bdrv_child_perm: what node n asks for on an edge to a child, given what n's parents ask of n. */
  function ChildWant(n: NodeInfo, child: NodeInfo, cur: Backup, role: Role, w: Want): Want {
    var Want(perm, shared) := if n.driver.FilterDriver? then FilterPerms(cur, w) else FormatPerms(n, cur, role, w);
    Want(perm, if child.forceShare then ALL else shared)
  }

  /** w asks for no more and shares no less than v. */
  predicate Looser(w: Want, v: Want) {
    w.perm <= v.perm && v.shared <= w.shared
  }

  /** Two users of the same node tolerate each other. */
  predicate Compatible(a: Want, b: Want) {
    a.perm <= b.shared && b.perm <= a.shared
  }

  /** The permission functions are monotone. */
  lemma {:induction false} ChildWantMonotone(n: NodeInfo, child: NodeInfo, c: Want, c': Want, role: Role, w: Want,
                                             w': Want)
    requires Looser(w', w) && Looser(c', c)
    ensures Looser(ChildWant(n, child, Saved(c'), role, w'), ChildWant(n, child, Saved(c), role, w))
  {
  }

  /** Asking again on an edge that has just been updated, or just been created, gives the same answer. */
  lemma {:induction false} ChildWantIdempotent(n: NodeInfo, child: NodeInfo, cur: Backup, role: Role, w: Want)
    ensures var v := ChildWant(n, child, cur, role, w); ChildWant(n, child, Saved(v), role, w) == v
  {
  }

  /** Every edge tolerates write-unchanged if its node's parents do. */
  lemma {:induction false} ChildWantTolerates(n: NodeInfo, child: NodeInfo, cur: Backup, role: Role, w: Want)
    requires WriteUnchanged in w.shared
    ensures WriteUnchanged in ChildWant(n, child, cur, role, w).shared
  {
  }

  // -------------------------------------------------------------------------------------------
  // Topology
  // -------------------------------------------------------------------------------------------

  predicate HasChildPerm(d: Driver) {
    d.FilterDriver? || d.FormatDriver?
  }

  predicate Distinct(es: seq<Edge>) {
    forall i, j | 0 <= i < j < |es| :: es[i] != es[j]
  }

  type Rank = Node -> nat

  /** Links are consistent, and rank witnesses that the graph has no cycle. */
  ghost predicate TopoOk(t: Topo, rank: Rank) {
    && (forall n {:trigger NodeOk(t, n)} | n in t.node :: NodeOk(t, n))
    && (forall e {:trigger EdgeOk(t, rank, e)} | e in t.edge :: EdgeOk(t, rank, e))
  }

  ghost predicate NodeOk(t: Topo, n: Node)
    requires n in t.node
  {
    && Distinct(t.node[n].children) && Distinct(t.node[n].parents)
    && (forall e | e in t.node[n].children :: e in t.edge && t.edge[e].owner == Bds(n))
    && (forall e | e in t.node[n].parents :: e in t.edge && t.edge[e].target == n)
  }

  ghost predicate EdgeOk(t: Topo, rank: Rank, e: Edge)
    requires e in t.edge
  {
    var EdgeRec(m, owner, _) := t.edge[e];
    && m in t.node && e in t.node[m].parents
    && (owner.Bds? ==>
          owner.node in t.node && e in t.node[owner.node].children && HasChildPerm(t.node[owner.node].info.driver)
          && rank(m) < rank(owner.node))
  }

  /** A child edge of n leads to a node of lower rank. */
  lemma {:induction false} ChildEdge(t: Topo, rank: Rank, n: Node, c: Edge)
    requires TopoOk(t, rank) && n in t.node && c in t.node[n].children
    ensures c in t.edge && t.edge[c].owner == Bds(n) && EdgeOk(t, rank, c)
  {
    assert NodeOk(t, n);
  }

  /** n and all nodes below it. */
  ghost function Down(t: Topo, rank: Rank, n: Node): set<Node>
    requires TopoOk(t, rank) && n in t.node
    decreases rank(n), 1, 0
  {
    {n} + DownAll(t, rank, n, t.node[n].children)
  }

  ghost function DownAll(t: Topo, rank: Rank, n: Node, es: seq<Edge>): set<Node>
    requires TopoOk(t, rank) && n in t.node && forall e | e in es :: e in t.node[n].children
    decreases rank(n), 0, |es|
  {
    if es == [] then {} else
    ChildEdge(t, rank, n, es[0]);
    Down(t, rank, t.edge[es[0]].target) + DownAll(t, rank, n, es[1..])
  }

  /** e leaves a node at or below n. */
  ghost predicate EdgeBelow(t: Topo, rank: Rank, n: Node, e: Edge)
    requires TopoOk(t, rank) && n in t.node
  {
    e in t.edge && t.edge[e].owner.Bds? && t.edge[e].owner.node in Down(t, rank, n)
  }

  lemma {:induction false} DownAllHas(t: Topo, rank: Rank, n: Node, es: seq<Edge>, c: Edge)
    requires TopoOk(t, rank) && n in t.node && (forall e | e in es :: e in t.node[n].children) && c in es
    ensures c in t.edge && t.edge[c].target in t.node && Down(t, rank, t.edge[c].target) <= DownAll(t, rank, n, es)
  {
    ChildEdge(t, rank, n, c);
    if es[0] != c { DownAllHas(t, rank, n, es[1..], c); }
  }

  lemma {:induction false} DownAllFrom(t: Topo, rank: Rank, n: Node, es: seq<Edge>, m: Node) returns (c: Edge)
    requires TopoOk(t, rank) && n in t.node && (forall e | e in es :: e in t.node[n].children)
    requires m in DownAll(t, rank, n, es)
    ensures c in es && c in t.node[n].children && c in t.edge && t.edge[c].target in t.node
    ensures rank(t.edge[c].target) < rank(n)
    ensures m in Down(t, rank, t.edge[c].target)
  {
    ChildEdge(t, rank, n, es[0]);
    if m in Down(t, rank, t.edge[es[0]].target) {
      c := es[0];
    } else {
      c := DownAllFrom(t, rank, n, es[1..], m);
    }
  }

  lemma {:induction false} DownRank(t: Topo, rank: Rank, n: Node, m: Node)
    requires TopoOk(t, rank) && n in t.node && m in Down(t, rank, n)
    ensures m in t.node && rank(m) <= rank(n) && (n != m ==> rank(m) < rank(n))
    decreases rank(n)
  {
    if n != m {
      var c := DownAllFrom(t, rank, n, t.node[n].children, m);
      DownRank(t, rank, t.edge[c].target, m);
    }
  }

  /** The head of an edge below n is below n. */
  lemma {:induction false} DownHead(t: Topo, rank: Rank, n: Node, e: Edge)
    requires TopoOk(t, rank) && n in t.node && EdgeBelow(t, rank, n, e)
    ensures t.edge[e].target in Down(t, rank, n)
    decreases rank(n)
  {
    var m := t.edge[e].owner.node;
    assert EdgeOk(t, rank, e);
    if n == m {
      DownAllHas(t, rank, n, t.node[n].children, e);
    } else {
      var c := DownAllFrom(t, rank, n, t.node[n].children, m);
      DownHead(t, rank, t.edge[c].target, e);
      DownAllHas(t, rank, n, t.node[n].children, c);
    }
  }

  /** A set that contains n and the children of its members contains everything below n. */
  lemma {:induction false} DownLeast(t: Topo, rank: Rank, n: Node, b: set<Node>)
    requires TopoOk(t, rank) && n in t.node && n in b
    requires forall k, e | k in b && k in t.node && e in t.node[k].children && e in t.edge :: t.edge[e].target in b
    ensures Down(t, rank, n) <= b
    decreases rank(n)
  {
    forall m | m in Down(t, rank, n) ensures m in b {
      if m != n {
        var c := DownAllFrom(t, rank, n, t.node[n].children, m);
        DownLeast(t, rank, t.edge[c].target, b);
      }
    }
  }

  // -------------------------------------------------------------------------------------------
  // Permission states
  // -------------------------------------------------------------------------------------------

  ghost predicate PermsFor(t: Topo, p: Perms) {
    p.Keys == t.edge.Keys
  }

  ghost predicate SomeUses(p: Perms, es: seq<Edge>, ignore: set<Edge>, x: Flag) {
    exists e :: e in es && e !in ignore && e in p && x in p[e].want.perm
  }

  ghost predicate AllShare(p: Perms, es: seq<Edge>, ignore: set<Edge>, x: Flag) {
    forall e | e in es && e !in ignore && e in p :: x in p[e].want.shared
  }

  ghost function CumPerm(p: Perms, es: seq<Edge>, ignore: set<Edge>): Flags {
    set x: Flag | SomeUses(p, es, ignore, x)
  }

  ghost function CumShared(p: Perms, es: seq<Edge>, ignore: set<Edge>): Flags {
    set x: Flag | AllShare(p, es, ignore, x)
  }

  /** bdrv_get_cumulative_perm */
  ghost function Cumulative(t: Topo, p: Perms, n: Node): Want
    requires n in t.node
  {
    Want(CumPerm(p, t.node[n].parents, {}), CumShared(p, t.node[n].parents, {}))
  }

  /** What the parents of n ask for together if one more user, or a changed one, asks for w. */
  ghost function Joined(p: Perms, es: seq<Edge>, ignore: set<Edge>, w: Want): Want {
    Want(w.perm + CumPerm(p, es, ignore), w.shared * CumShared(p, es, ignore))
  }

  lemma {:induction false} JoinedNext(p: Perms, es: seq<Edge>, i: nat, ignore: set<Edge>, w: Want)
    requires i < |es| && es[i] in p
    ensures Joined(p, es[..i + 1], ignore, w) ==
      var v := Joined(p, es[..i], ignore, w);
      if es[i] in ignore then v else Want(v.perm + p[es[i]].want.perm, v.shared * p[es[i]].want.shared)
  {
    var a, b := es[..i], es[..i + 1];
    assert b == a + [es[i]];
    forall x: Flag
      ensures SomeUses(p, b, ignore, x) <==> SomeUses(p, a, ignore, x) || (es[i] !in ignore && x in p[es[i]].want.perm)
    {
      if SomeUses(p, a, ignore, x) {
        var e :| e in a && e !in ignore && e in p && x in p[e].want.perm;
        assert e in b;
      }
      if es[i] !in ignore && x in p[es[i]].want.perm { assert es[i] in b; }
    }
    forall x: Flag
      ensures AllShare(p, b, ignore, x) <==>
        AllShare(p, a, ignore, x) && (es[i] !in ignore ==> x in p[es[i]].want.shared)
    {
      if AllShare(p, b, ignore, x) {
        forall e | e in a && e !in ignore && e in p ensures x in p[e].want.shared { assert e in b; }
        assert es[i] in b;
      }
    }
  }

  /** With the new want stored, the joint want is the cumulative one. */
  lemma {:induction false} JoinedIsCumulative(p: Perms, es: seq<Edge>, c: Edge, ignore: set<Edge>, h: Held)
    requires c in es && c in p && c in ignore && forall e | e in es && e in ignore :: e == c
    ensures Joined(p, es, ignore, h.want) == Want(CumPerm(p[c := h], es, {}), CumShared(p[c := h], es, {}))
  {
    var p' := p[c := h];
    forall x: Flag ensures SomeUses(p', es, {}, x) <==> x in h.want.perm || SomeUses(p, es, ignore, x) {}
    forall x: Flag ensures AllShare(p', es, {}, x) <==> x in h.want.shared && AllShare(p, es, ignore, x) {}
  }

  /** Starting from no permissions and everything shared gives the cumulative permissions. */
  lemma {:induction false} JoinedFromNothing(p: Perms, es: seq<Edge>)
    ensures Joined(p, es, {}, Want({}, ALL)) == Want(CumPerm(p, es, {}), CumShared(p, es, {}))
  {
    forall x: Flag ensures x in ALL {
      match x case ConsistentRead => case Write => case WriteUnchanged => case Resize => case GraphMod =>
    }
  }

  /** Any two distinct users of a node tolerate each other. */
  ghost predicate AllCompatible(t: Topo, p: Perms) {
    forall e, f | e in t.edge && f in t.edge && e in p && f in p && e != f && t.edge[e].target == t.edge[f].target ::
      Compatible(p[e].want, p[f].want)
  }

  /** bdrv_check_perm's own tests on a node. */
  predicate Grants(n: NodeInfo, w: Want) {
    && (Write in w.perm || WriteUnchanged in w.perm ==> n.writable)
    && (n.driver.Checking? ==> n.driver.accept(w.perm, w.shared))
  }

  /** What the owner of e asks for on e if its own parents ask for w and e holds cur. */
  function Asks(t: Topo, e: Edge, cur: Want, w: Want): Want
    requires e in t.edge && t.edge[e].owner.Bds? && t.edge[e].owner.node in t.node && t.edge[e].target in t.node
  {
    ChildWant(t.node[t.edge[e].owner.node].info, t.node[t.edge[e].target].info, Saved(cur), t.edge[e].role, w)
  }

  /** Edge e, which belongs to a node, holds what its owner asks for, given that the owner's parents ask for w. */
  ghost predicate ChildOk(t: Topo, rank: Rank, p: Perms, e: Edge, w: Want) {
    && e in t.edge && e in p && t.edge[e].owner.Bds? && EdgeOk(t, rank, e)
    && p[e].want == Asks(t, e, p[e].want, w)
  }

  /** Every child of n holds what the cumulative permissions w of n ask for. */
  ghost predicate ChildrenMatch(t: Topo, rank: Rank, p: Perms, n: Node, w: Want)
    requires n in t.node
  {
    forall e | e in t.node[n].children :: ChildOk(t, rank, p, e, w)
  }

  /** Node n is consistent: its children match its parents, and its own checks pass. */
  ghost predicate Settled(t: Topo, rank: Rank, p: Perms, n: Node)
    requires TopoOk(t, rank) && PermsFor(t, p) && n in t.node
  {
    ChildrenMatch(t, rank, p, n, Cumulative(t, p, n)) && Grants(t.node[n].info, Cumulative(t, p, n))
  }

  /** Every node of s is consistent. */
  ghost predicate SettledOn(t: Topo, rank: Rank, p: Perms, s: set<Node>)
    requires TopoOk(t, rank) && PermsFor(t, p)
  {
    forall m | m in s && m in t.node :: Settled(t, rank, p, m)
  }

  ghost predicate RanksBelow(rank: Rank, s: set<Node>, r: nat) {
    forall m | m in s :: rank(m) < r
  }

  ghost function BelowRank(rank: Rank, s: set<Node>, r: nat): set<Node> {
    set m | m in s && rank(m) < r
  }

  ghost predicate Tolerant(p: Perms) {
    forall e | e in p :: WriteUnchanged in p[e].want.shared
  }

  ghost predicate NoBackups(p: Perms) {
    forall e | e in p :: p[e].backup == NoBackup
  }

  /** The state of a graph between operations. */
  ghost predicate Calm(t: Topo, rank: Rank, p: Perms) {
    TopoOk(t, rank) && PermsFor(t, p) && NoBackups(p) && Tolerant(p) && AllCompatible(t, p)
  }

  /** The value an edge returns to when an update is aborted. */
  function Original(h: Held): Want {
    if h.backup.Saved? then h.backup.want else h.want
  }

  /** Both states abort to the same permissions. */
  ghost predicate SameOriginals(p: Perms, p': Perms) {
    p'.Keys == p.Keys && forall e | e in p :: Original(p'[e]) == Original(p[e])
  }

  /** e leaves n, or a node of b below the rank of n. */
  ghost predicate Lower(t: Topo, rank: Rank, b: set<Node>, n: Node, e: Edge) {
    && e in t.edge && t.edge[e].owner.Bds? && t.edge[e].owner.node in b
    && (t.edge[e].owner.node == n || rank(t.edge[e].owner.node) < rank(n))
  }

  /** Apart from c, only edges that leave n, or nodes of b below the rank of n, have changed. */
  ghost predicate Changed(t: Topo, rank: Rank, p: Perms, p': Perms, b: set<Node>, n: Node, c: Edge) {
    p'.Keys == p.Keys && forall e | e in p && e != c && !Lower(t, rank, b, n, e) :: p'[e] == p[e]
  }

  ghost predicate ChangedAt(t: Topo, rank: Rank, p: Perms, p': Perms, b: set<Node>, n: Node) {
    p'.Keys == p.Keys && forall e | e in p && !Lower(t, rank, b, n, e) :: p'[e] == p[e]
  }

  /** b contains the children of its members. */
  ghost predicate Closed(t: Topo, b: set<Node>) {
    forall e | e in t.edge && t.edge[e].owner.Bds? && t.edge[e].owner.node in b :: t.edge[e].target in b
  }

  lemma {:induction false} AllClosed(t: Topo, rank: Rank)
    requires TopoOk(t, rank)
    ensures Closed(t, t.node.Keys)
  {
    forall e | e in t.edge && t.edge[e].owner.Bds? && t.edge[e].owner.node in t.node.Keys
      ensures t.edge[e].target in t.node.Keys
    {
      assert EdgeOk(t, rank, e);
    }
  }

  lemma {:induction false} CumulativeSame(p: Perms, p': Perms, es: seq<Edge>, ignore: set<Edge>)
    requires forall e | e in es && e !in ignore :: e in p && e in p' && p'[e].want == p[e].want
    ensures CumPerm(p', es, ignore) == CumPerm(p, es, ignore) && CumShared(p', es, ignore) == CumShared(p, es, ignore)
  {
    forall x: Flag ensures SomeUses(p', es, ignore, x) <==> SomeUses(p, es, ignore, x) {}
    forall x: Flag ensures AllShare(p', es, ignore, x) <==> AllShare(p, es, ignore, x) {}
  }

  lemma {:induction false} SettledSame(t: Topo, rank: Rank, p: Perms, p': Perms, m: Node)
    requires TopoOk(t, rank) && PermsFor(t, p) && m in t.node && p'.Keys == p.Keys && Settled(t, rank, p, m)
    requires forall e | e in t.node[m].parents || e in t.node[m].children :: e in p && p'[e].want == p[e].want
    ensures Settled(t, rank, p', m)
  {
    CumulativeSame(p, p', t.node[m].parents, {});
    forall e | e in t.node[m].children ensures ChildOk(t, rank, p', e, Cumulative(t, p', m)) {
      assert ChildOk(t, rank, p, e, Cumulative(t, p, m));
    }
  }

  /** Edges into and out of a node that is neither n nor below it, nor the owner of c, stay as they are. */
  lemma {:induction false} EdgeFrame(t: Topo, rank: Rank, p: Perms, p': Perms, b: set<Node>, n: Node, c: Edge, m: Node,
                                     e: Edge)
    requires TopoOk(t, rank) && PermsFor(t, p) && n in t.node && m in t.node && m != n && rank(m) >= rank(n)
    requires Changed(t, rank, p, p', b, n, c) && (c in t.edge ==> t.edge[c].owner != Bds(m) && t.edge[c].target == n)
    requires e in t.node[m].parents || e in t.node[m].children
    ensures e in p && p'[e] == p[e]
  {
    assert NodeOk(t, m) && EdgeOk(t, rank, e);
  }

  lemma {:induction false} SettledFrame(t: Topo, rank: Rank, p: Perms, p': Perms, b: set<Node>, n: Node, c: Edge,
                                        m: Node)
    requires TopoOk(t, rank) && PermsFor(t, p) && n in t.node && m in t.node && m != n && rank(m) >= rank(n)
    requires Changed(t, rank, p, p', b, n, c) && (c in t.edge ==> t.edge[c].owner != Bds(m) && t.edge[c].target == n)
    requires Settled(t, rank, p, m)
    ensures Settled(t, rank, p', m)
  {
    forall e | e in t.node[m].parents || e in t.node[m].children ensures e in p && p'[e].want == p[e].want {
      EdgeFrame(t, rank, p, p', b, n, c, m, e);
    }
    SettledSame(t, rank, p, p', m);
  }

  // -------------------------------------------------------------------------------------------
  // Loosening
  // -------------------------------------------------------------------------------------------

  /** Every edge of p asks for no more and shares no less than in q. */
  ghost predicate AllLooser(p: Perms, q: Perms) {
    p.Keys == q.Keys && forall e | e in p :: Looser(p[e].want, q[e].want)
  }

  /** A driver that accepts permissions also accepts looser ones. */
  ghost predicate Monotone(d: Driver)
    requires d.Checking?
  {
    forall w, v | Looser(w, v) && d.accept(v.perm, v.shared) :: d.accept(w.perm, w.shared)
  }

  ghost predicate MonotoneAt(t: Topo, n: Node)
    requires n in t.node
  {
    t.node[n].info.driver.Checking? ==> Monotone(t.node[n].info.driver)
  }

  /** Node n grants its users what they hold, and each of its edges holds at least what n asks for: n has slack. */
  ghost predicate SlackAt(t: Topo, q: Perms, n: Node)
    requires n in t.node
  {
    && Grants(t.node[n].info, Cumulative(t, q, n))
    && forall e | e in t.node[n].children :: ChildSlack(t, q, e, Cumulative(t, q, n))
  }

  /** Edge e holds at least what its owner asks for. */
  ghost predicate ChildSlack(t: Topo, q: Perms, e: Edge, w: Want) {
    && e in t.edge && e in q && t.edge[e].owner.Bds? && t.edge[e].owner.node in t.node && t.edge[e].target in t.node
    && Looser(Asks(t, e, q[e].want, w), q[e].want)
  }

  /** All nodes of d have slack. */
  ghost predicate SlackOn(t: Topo, q: Perms, d: set<Node>) {
    && PermsFor(t, q) && AllCompatible(t, q)
    && forall n | n in d && n in t.node :: SlackAt(t, q, n) && MonotoneAt(t, n)
  }

  lemma {:induction false} JoinedLooser(p: Perms, q: Perms, es: seq<Edge>, ignore: set<Edge>, c: Edge, w: Want)
    requires AllLooser(p, q) && c in es && c in q && Looser(w, q[c].want)
    requires forall e | e in es :: e in q
    requires c in ignore && forall e | e in es && e in ignore :: e == c
    ensures Looser(Joined(p, es, ignore, w), Want(CumPerm(q, es, {}), CumShared(q, es, {})))
  {
    forall x: Flag | x in w.perm || SomeUses(p, es, ignore, x) ensures SomeUses(q, es, {}, x) {}
    forall x: Flag | AllShare(q, es, {}, x) ensures x in w.shared && AllShare(p, es, ignore, x) {}
  }

  // -------------------------------------------------------------------------------------------
  // The recursion over children
  // -------------------------------------------------------------------------------------------

  /** The first i children of n hold what w asks for. */
  ghost predicate ChecksOut(t: Topo, rank: Rank, p: Perms, n: Node, w: Want, i: nat)
    requires TopoOk(t, rank) && PermsFor(t, p) && n in t.node && i <= |t.node[n].children|
  {
    forall j | 0 <= j < i :: ChildOk(t, rank, p, t.node[n].children[j], w)
  }

  /** A change below one child of n does not show in n's other edges. */
  lemma {:induction false} SiblingSame(t: Topo, rank: Rank, p: Perms, p': Perms, b: set<Node>, n: Node, c: Edge,
                                       e: Edge)
    requires TopoOk(t, rank) && PermsFor(t, p) && n in t.node && c in t.edge && t.edge[c].owner == Bds(n)
    requires Changed(t, rank, p, p', b, t.edge[c].target, c) && e in t.edge && t.edge[e].owner == Bds(n) && e != c
    ensures p'[e] == p[e]
  {
    assert EdgeOk(t, rank, c);
  }

  /** Checking one more child leaves the children already checked as they are. */
  lemma {:induction false} ChecksOutNext(t: Topo, rank: Rank, p: Perms, p': Perms, b: set<Node>, n: Node, w: Want,
                                         i: nat)
    requires TopoOk(t, rank) && PermsFor(t, p) && n in t.node && i < |t.node[n].children|
    requires ChecksOut(t, rank, p, n, w, i)
    requires var c := t.node[n].children[i];
      c in t.edge && t.edge[c].target in t.node && Changed(t, rank, p, p', b, t.edge[c].target, c)
        && ChildOk(t, rank, p', c, w)
    ensures ChecksOut(t, rank, p', n, w, i + 1)
  {
    var es := t.node[n].children;
    assert NodeOk(t, n) && es[i] in es;
    forall j | 0 <= j < i ensures ChildOk(t, rank, p', es[j], w) {
      assert es[j] in es && es[j] != es[i] && ChildOk(t, rank, p, es[j], w);
      SiblingSame(t, rank, p, p', b, n, es[i], es[j]);
    }
  }

  /** Nodes below n stay consistent when a child of n is checked. */
  lemma {:induction false} SettledNext(t: Topo, rank: Rank, p: Perms, p': Perms, b: set<Node>, n: Node, c: Edge,
                                       s: set<Node>, d: set<Node>)
    requires TopoOk(t, rank) && PermsFor(t, p) && n in t.node && c in t.edge && t.edge[c].owner == Bds(n)
    requires t.edge[c].target in t.node
    requires Changed(t, rank, p, p', b, t.edge[c].target, c) && RanksBelow(rank, s, rank(n)) && SettledOn(t, rank, p, s)
    requires SettledOn(t, rank, p', BelowRank(rank, s, rank(t.edge[c].target) + 1) + d)
    ensures SettledOn(t, rank, p', s + d)
  {
    forall m | m in s + d && m in t.node ensures Settled(t, rank, p', m) {
      if m !in d && rank(m) > rank(t.edge[c].target) { SettledFrame(t, rank, p, p', b, t.edge[c].target, c, m); }
    }
  }

  lemma {:induction false} MatchesAll(t: Topo, rank: Rank, p: Perms, n: Node, v: Want)
    requires TopoOk(t, rank) && PermsFor(t, p) && n in t.node && ChecksOut(t, rank, p, n, v, |t.node[n].children|)
    ensures ChildrenMatch(t, rank, p, n, v)
  {
    var es := t.node[n].children;
    forall e | e in es ensures ChildOk(t, rank, p, e, v) {
      var j :| 0 <= j < |es| && es[j] == e;
      assert ChildOk(t, rank, p, es[j], v);
    }
  }

  /** Whoever uses the node of c together with c tolerates w, and w tolerates them. */
  ghost predicate FitsBeside(t: Topo, p: Perms, c: Edge, w: Want)
    requires c in t.edge
  {
    forall e | e in t.edge && e in p && e != c && t.edge[e].target == t.edge[c].target :: Compatible(w, p[e].want)
  }

  lemma {:induction false} StoreCompatible(t: Topo, p: Perms, c: Edge, h: Held)
    requires PermsFor(t, p) && c in t.edge && AllCompatible(t, p) && FitsBeside(t, p, c, h.want)
    ensures AllCompatible(t, p[c := h])
  {
  }

  /** A change below n does not show in the edges into n. */
  lemma {:induction false} IncomingSame(t: Topo, rank: Rank, p0: Perms, p: Perms, b: set<Node>, n: Node,
                                        ignore: set<Edge>, w: Want)
    requires TopoOk(t, rank) && PermsFor(t, p0) && n in t.node && ChangedAt(t, rank, p0, p, b, n)
    ensures forall e | e in t.edge && t.edge[e].target == n :: p[e] == p0[e]
    ensures Joined(p, t.node[n].parents, ignore, w) == Joined(p0, t.node[n].parents, ignore, w)
  {
    forall e | e in t.edge && t.edge[e].target == n ensures p[e] == p0[e] { assert EdgeOk(t, rank, e); }
    assert NodeOk(t, n);
    CumulativeSame(p0, p, t.node[n].parents, ignore);
  }

  /** With the want of c stored, its node has become consistent, and the nodes below it have stayed so. */
  lemma {:induction false} StoreSettled(t: Topo, rank: Rank, p: Perms, c: Edge, n: Node, ignore: set<Edge>, h: Held,
                                        v: Want, s: set<Node>)
    requires TopoOk(t, rank) && PermsFor(t, p) && c in t.edge && t.edge[c].target == n && n in t.node
    requires c in ignore && forall e | e in t.node[n].parents && e in ignore :: e == c
    requires v == Joined(p, t.node[n].parents, ignore, h.want)
    requires ChecksOut(t, rank, p, n, v, |t.node[n].children|) && Grants(t.node[n].info, v)
    requires SettledOn(t, rank, p, s) && RanksBelow(rank, s, rank(n) + 1) && n !in s
    ensures SettledOn(t, rank, p[c := h], s + {n})
  {
    var p' := p[c := h];
    assert EdgeOk(t, rank, c);
    JoinedIsCumulative(p, t.node[n].parents, c, ignore, h);
    MatchesAll(t, rank, p, n, v);
    forall m | m in s + {n} && m in t.node ensures Settled(t, rank, p', m) {
      assert NodeOk(t, m);
      if m == n {
        forall e | e in t.node[n].children ensures ChildOk(t, rank, p', e, v) { assert ChildOk(t, rank, p, e, v); }
      } else {
        SettledSame(t, rank, p, p', m);
      }
    }
  }

  /** An edge that asks for no more than it holds in q finds its place, if everybody is looser than in q. */
  lemma {:induction false} LooserFits(t: Topo, rank: Rank, p: Perms, q: Perms, c: Edge, n: Node, ignore: set<Edge>,
                                      w: Want)
    requires TopoOk(t, rank) && PermsFor(t, p) && PermsFor(t, q) && AllCompatible(t, q) && AllLooser(p, q)
    requires c in t.edge && t.edge[c].target == n && n in t.node && Looser(w, q[c].want)
    requires c in ignore && forall e | e in t.node[n].parents && e in ignore :: e == c
    ensures Looser(Joined(p, t.node[n].parents, ignore, w), Cumulative(t, q, n))
    ensures forall e | e in t.node[n].parents && e !in ignore :: e in p && Compatible(w, p[e].want)
  {
    assert EdgeOk(t, rank, c) && NodeOk(t, n);
    JoinedLooser(p, q, t.node[n].parents, ignore, c, w);
    forall e | e in t.node[n].parents && e !in ignore ensures e in p && Compatible(w, p[e].want) {
      assert Compatible(q[c].want, q[e].want) && Looser(p[e].want, q[e].want);
    }
  }

  /** Grants and wants are monotone along a looser state. */
  lemma {:induction false} LooserGrants(t: Topo, n: Node, w: Want, v: Want)
    requires n in t.node && MonotoneAt(t, n)
    requires Looser(w, v) && Grants(t.node[n].info, v)
    ensures Grants(t.node[n].info, w)
  {
  }

  lemma {:induction false} LooserAsks(t: Topo, e: Edge, c: Want, c': Want, w: Want, w': Want, v: Want)
    requires e in t.edge && t.edge[e].owner.Bds? && t.edge[e].owner.node in t.node && t.edge[e].target in t.node
    requires Looser(c', c) && Looser(w', w) && Looser(Asks(t, e, c, w), v)
    ensures Looser(Asks(t, e, c', w'), v)
  {
    ChildWantMonotone(t.node[t.edge[e].owner.node].info, t.node[t.edge[e].target].info, c, c', t.edge[e].role, w, w');
  }

  /** Only drivers with permission functions for their children have children. */
  lemma {:induction false} NoChildren(t: Topo, rank: Rank, n: Node)
    requires TopoOk(t, rank) && n in t.node && !HasChildPerm(t.node[n].info.driver)
    ensures t.node[n].children == []
  {
    var es := t.node[n].children;
    assert NodeOk(t, n) && (es != [] ==> es[0] in es && EdgeOk(t, rank, es[0]));
  }
}
