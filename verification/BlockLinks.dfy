/**
 The link structure that bdrv_replace_node of block.c works on: which nodes a node reaches, which
 edges may be redirected to it, and why redirecting them closes no cycle.
 */
module BlockLinks {
  import opened BlockPerms
  import opened BlockPermCommit
  import opened BlockPermOps

  // -------------------------------------------------------------------------------------------
  // Paths
  // -------------------------------------------------------------------------------------------

  ghost predicate Link(t: Topo, n: Node, m: Node) {
    exists e :: e in t.edge && t.edge[e].owner == Bds(n) && t.edge[e].target == m
  }

  ghost predicate Path(t: Topo, ns: seq<Node>) {
    ns != [] && forall i | 0 <= i < |ns| - 1 :: Link(t, ns[i], ns[i + 1])
  }

  lemma {:induction false} PathDescends(t: Topo, rank: Rank, ns: seq<Node>)
    requires TopoOk(t, rank) && Path(t, ns) && |ns| > 1
    ensures rank(ns[|ns| - 1]) < rank(ns[0])
  {
    assert Link(t, ns[0], ns[0 + 1]);
    var e :| e in t.edge && t.edge[e].owner == Bds(ns[0]) && t.edge[e].target == ns[1];
    assert EdgeOk(t, rank, e);
    if |ns| > 2 {
      PathTail(t, ns);
      PathDescends(t, rank, ns[1..]);
    }
  }

  lemma {:induction false} PathTail(t: Topo, ns: seq<Node>)
    requires Path(t, ns) && |ns| > 1
    ensures Path(t, ns[1..])
  {
    forall i | 0 <= i < |ns[1..]| - 1 ensures Link(t, ns[1..][i], ns[1..][i + 1]) {
      assert Link(t, ns[i + 1], ns[i + 1 + 1]);
    }
  }

  /** No path leads back to where it starts. */
  lemma {:induction false} NoCycles(t: Topo, rank: Rank, ns: seq<Node>)
    requires TopoOk(t, rank) && Path(t, ns) && |ns| > 1
    ensures ns[0] != ns[|ns| - 1]
  {
    PathDescends(t, rank, ns);
  }

  /** Down holds exactly the nodes that a path reaches. */
  lemma {:induction false} PathEndsBelow(t: Topo, rank: Rank, ns: seq<Node>)
    requires TopoOk(t, rank) && Path(t, ns) && ns[0] in t.node
    ensures ns[|ns| - 1] in Down(t, rank, ns[0])
  {
    if |ns| > 1 {
      assert Link(t, ns[0], ns[0 + 1]);
      var e :| e in t.edge && t.edge[e].owner == Bds(ns[0]) && t.edge[e].target == ns[1];
      assert EdgeOk(t, rank, e);
      PathTail(t, ns);
      PathEndsBelow(t, rank, ns[1..]);
      DownAllHas(t, rank, ns[0], t.node[ns[0]].children, e);
    }
  }

  lemma {:induction false} BelowHasPath(t: Topo, rank: Rank, n: Node, m: Node) returns (ns: seq<Node>)
    requires TopoOk(t, rank) && n in t.node && m in Down(t, rank, n)
    ensures Path(t, ns) && ns[0] == n && ns[|ns| - 1] == m
    decreases rank(n)
  {
    if n == m {
      ns := [n];
    } else {
      var c := DownAllFrom(t, rank, n, t.node[n].children, m);
      ChildEdge(t, rank, n, c);
      var rest := BelowHasPath(t, rank, t.edge[c].target, m);
      ns := [n] + rest;
      forall i | 0 <= i < |ns| - 1 ensures Link(t, ns[i], ns[i + 1]) {
        if i > 0 { assert Link(t, rest[i - 1], rest[i - 1 + 1]); }
      }
    }
  }

  // -------------------------------------------------------------------------------------------
  // The breadth-first search of should_update_child
  // -------------------------------------------------------------------------------------------

  /** The first i children of k are not c, and their nodes have been found. */
  ghost predicate SearchedAt(t: Topo, c: Edge, found: set<Node>, k: Node, i: nat) {
    && k in t.node && i <= |t.node[k].children|
    && forall e | e in t.node[k].children[..i] :: e != c && e in t.edge && t.edge[e].target in found
  }

  ghost predicate SearchedFully(t: Topo, c: Edge, found: set<Node>, k: Node) {
    k in t.node && SearchedAt(t, c, found, k, |t.node[k].children|)
  }

  /** All nodes found so far have been searched, except those still in the queue and perhaps v. */
  ghost predicate SearchedBut(t: Topo, c: Edge, found: set<Node>, queue: seq<Node>, v: Node) {
    forall k | k in found && k !in queue && k != v :: SearchedFully(t, c, found, k)
  }

  ghost predicate Searched(t: Topo, c: Edge, found: set<Node>, queue: seq<Node>) {
    forall k | k in found && k !in queue :: SearchedFully(t, c, found, k)
  }

  lemma {:induction false} SearchedPop(t: Topo, c: Edge, found: set<Node>, queue: seq<Node>)
    requires queue != [] && Searched(t, c, found, queue)
    ensures SearchedBut(t, c, found, queue[1..], queue[0])
  {
    assert queue == [queue[0]] + queue[1..];
  }

  lemma {:induction false} SearchedMore(t: Topo, c: Edge, found: set<Node>, queue: seq<Node>, v: Node, i: nat, m: Node)
    requires SearchedBut(t, c, found, queue, v) && SearchedAt(t, c, found, v, i)
    ensures SearchedBut(t, c, found + {m}, queue + [m], v) && SearchedAt(t, c, found + {m}, v, i)
  {
    assert m in queue + [m];
    forall k | k in found && k !in queue + [m] && k != v ensures SearchedFully(t, c, found + {m}, k) {
      assert k !in queue && SearchedFully(t, c, found, k);
    }
  }

  lemma {:induction false} SearchedNext(t: Topo, c: Edge, found: set<Node>, v: Node, i: nat)
    requires SearchedAt(t, c, found, v, i) && i < |t.node[v].children|
    requires var e := t.node[v].children[i]; e != c && e in t.edge && t.edge[e].target in found
    ensures SearchedAt(t, c, found, v, i + 1)
  {
    assert t.node[v].children[..i + 1] == t.node[v].children[..i] + [t.node[v].children[i]];
  }

  /** A search that runs out of nodes without meeting c has found all that to reaches, and c does not start there. */
  lemma {:induction false} SearchedAll(t: Topo, rank: Rank, c: Edge, to: Node, found: set<Node>)
    requires TopoOk(t, rank) && c in t.edge && to in t.node && to in found && Searched(t, c, found, [])
    ensures !Leaves(t, Down(t, rank, to), c)
  {
    forall k, e | k in found && k in t.node && e in t.node[k].children && e in t.edge
      ensures e != c && t.edge[e].target in found
    {
      assert SearchedFully(t, c, found, k) && t.node[k].children[..|t.node[k].children|] == t.node[k].children;
    }
    DownLeast(t, rank, to, found);
    assert EdgeOk(t, rank, c);
  }

  // -------------------------------------------------------------------------------------------
  // Redirecting edges
  // -------------------------------------------------------------------------------------------

  /** bdrv_replace_child_noperm: c leaves the parents of its node and becomes the first parent of to. */
  function MoveEdge(t: Topo, c: Edge, to: Node): Topo
    requires c in t.edge && t.edge[c].target in t.node && to in t.node
  {
    var n := t.edge[c].target;
    var node := t.node[n := t.node[n].(parents := Without(t.node[n].parents, c))];
    Topo(node[to := node[to].(parents := [c] + node[to].parents)], t.edge[c := t.edge[c].(target := to)])
  }

  lemma {:induction false} MoveEdgeOk(t: Topo, rank: Rank, c: Edge, to: Node)
    requires TopoOk(t, rank) && c in t.edge && t.edge[c].target in t.node && to in t.node
    requires t.edge[c].owner.Bds? ==> rank(to) < rank(t.edge[c].owner.node)
    ensures TopoOk(MoveEdge(t, c, to), rank)
  {
    var t1, n := MoveEdge(t, c, to), t.edge[c].target;
    forall k | k in t1.node ensures NodeOk(t1, k) { MovedNodeOk(t, rank, c, to, k); }
    forall e | e in t1.edge ensures EdgeOk(t1, rank, e) {
      assert EdgeOk(t, rank, e) && NodeOk(t, n);
      WithoutElements(t.node[n].parents, c);
    }
  }

  lemma {:induction false} MovedNodeOk(t: Topo, rank: Rank, c: Edge, to: Node, k: Node)
    requires TopoOk(t, rank) && c in t.edge && t.edge[c].target in t.node && to in t.node && k in t.node
    ensures NodeOk(MoveEdge(t, c, to), k)
  {
    var n := t.edge[c].target;
    assert NodeOk(t, k) && NodeOk(t, n) && NodeOk(t, to);
    WithoutElements(t.node[n].parents, c);
    if k == to {
      WithoutElements(t.node[to].parents, c);
      DistinctCons(c, if to == n then Without(t.node[to].parents, c) else t.node[to].parents);
    }
  }

  lemma {:induction false} DistinctCons(c: Edge, es: seq<Edge>)
    requires Distinct(es) && c !in es
    ensures Distinct([c] + es)
  {
    var r := [c] + es;
    forall i, j | 0 <= i < j < |r| ensures r[i] != r[j] { assert r[j] == es[j - 1]; }
  }

  /** Edges with an owner below to stay; the others may point to to. */
  ghost predicate Redirects(t: Topo, rank: Rank, stays: set<Edge>, src: Node, to: Node, e: Edge)
    requires TopoOk(t, rank) && to in t.node
  {
    e in t.edge && t.edge[e].target == src && e !in stays && !Leaves(t, Down(t, rank, to), e)
  }

  /** A rank that puts every node outside of what to reaches above it. */
  ghost function Raised(t: Topo, rank: Rank, to: Node): Rank
    requires TopoOk(t, rank) && to in t.node
  {
    var d := Down(t, rank, to);
    n => if n in d then rank(n) else rank(n) + rank(to) + 1
  }

  lemma {:induction false} RaisedOk(t: Topo, rank: Rank, to: Node)
    requires TopoOk(t, rank) && to in t.node
    ensures TopoOk(t, Raised(t, rank, to))
    ensures forall e | e in t.edge && t.edge[e].owner.Bds? && !Leaves(t, Down(t, rank, to), e) ::
      Raised(t, rank, to)(to) < Raised(t, rank, to)(t.edge[e].owner.node)
  {
    var r := Raised(t, rank, to);
    DownClosed(t, rank, to);
    forall k | k in t.node ensures NodeOk(t, k) {}
    forall e | e in t.edge ensures EdgeOk(t, r, e) { assert EdgeOk(t, rank, e); }
  }

  /** Moving e to to closes no cycle. */
  ghost predicate MayMove(t: Topo, rank: Rank, e: Edge, to: Node) {
    e in t.edge && t.edge[e].target in t.node && (t.edge[e].owner.Bds? ==> rank(to) < rank(t.edge[e].owner.node))
  }

  lemma {:induction false} RedirectedMayMove(t: Topo, rank: Rank, stays: set<Edge>, src: Node, to: Node, es: seq<Edge>)
    requires TopoOk(t, rank) && src in t.node && to in t.node
    requires forall e | e in es :: Redirects(t, rank, stays, src, to, e)
    ensures TopoOk(t, Raised(t, rank, to)) && forall e | e in es :: MayMove(t, Raised(t, rank, to), e, to)
  {
    RaisedOk(t, rank, to);
  }

  function Elements(es: seq<Edge>): set<Edge> { set e | e in es }

  /** All edges of es now lead to to; apart from that and the lists of users, nothing has changed. */
  ghost predicate Moved(t: Topo, t': Topo, es: set<Edge>, to: Node) {
    && t'.node.Keys == t.node.Keys && t'.edge.Keys == t.edge.Keys
    && (forall n | n in t.node :: t'.node[n].info == t.node[n].info && t'.node[n].children == t.node[n].children)
    && forall e | e in t.edge :: t'.edge[e] == if e in es then t.edge[e].(target := to) else t.edge[e]
  }

  lemma {:induction false} MovedNext(t: Topo, t1: Topo, es: seq<Edge>, i: nat, to: Node)
    requires i < |es| && Distinct(es) && Moved(t, t1, Elements(es[..i]), to)
    requires es[i] in t.edge && t1.edge[es[i]].target in t1.node && to in t1.node
    ensures Moved(t, MoveEdge(t1, es[i], to), Elements(es[..i + 1]), to)
  {
    assert es[..i + 1] == es[..i] + [es[i]];
  }

  /** An edge that is still to be moved is where it was. */
  lemma {:induction false} NotYetMoved(t: Topo, t1: Topo, es: seq<Edge>, i: nat, to: Node)
    requires i < |es| && Distinct(es) && Moved(t, t1, Elements(es[..i]), to) && es[i] in t.edge
    ensures t1.edge[es[i]] == t.edge[es[i]]
  {
    forall j | 0 <= j < i ensures es[..i][j] != es[i] {}
  }

  lemma {:induction false} JoinedCons(p: Perms, es: seq<Edge>, c: Edge, w: Want)
    requires c in p
    ensures Joined(p, [c] + es, {}, w) ==
      var v := Joined(p, es, {}, w); Want(v.perm + p[c].want.perm, v.shared * p[c].want.shared)
  {
    var r := [c] + es;
    assert c in r;
    forall x: Flag ensures SomeUses(p, r, {}, x) <==> SomeUses(p, es, {}, x) || x in p[c].want.perm {
      if SomeUses(p, es, {}, x) {
        var e :| e in es && e !in {} && e in p && x in p[e].want.perm;
        assert e in r;
      }
    }
    forall x: Flag ensures AllShare(p, r, {}, x) <==> AllShare(p, es, {}, x) && x in p[c].want.shared {
      if AllShare(p, r, {}, x) {
        forall e | e in es && e !in {} && e in p ensures x in p[e].want.shared { assert e in r; }
      }
    }
  }

  ghost predicate UsedBy(p: Perms, es: set<Edge>, x: Flag) {
    exists e :: e in es && e in p && x in p[e].want.perm
  }

  ghost predicate SharedBy(p: Perms, es: set<Edge>, x: Flag) {
    forall e | e in es && e in p :: x in p[e].want.shared
  }

  /** What the edges es ask for together. */
  ghost function Together(p: Perms, es: set<Edge>): Want {
    Want(set x: Flag | UsedBy(p, es, x), set x: Flag | SharedBy(p, es, x))
  }

  lemma {:induction false} JoinedTogether(p: Perms, es: seq<Edge>)
    ensures Joined(p, es, {}, Want({}, ALL)) == Together(p, Elements(es))
  {
    JoinedFromNothing(p, es);
    forall x: Flag ensures SomeUses(p, es, {}, x) <==> UsedBy(p, Elements(es), x) {}
    forall x: Flag ensures AllShare(p, es, {}, x) <==> SharedBy(p, Elements(es), x) {}
  }
}
