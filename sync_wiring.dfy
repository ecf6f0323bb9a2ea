/**
 * The wiring phase of `SynchronizationGraphTemplate::build_and_submit`
 * (src/concurrency/synchronization_graph.rs, lines 32-72): every node, in
 * registration order, must have children; each child name is looked up among
 * the other nodes, first match winning, and each resolved pair gets one edge
 * of capacity 1 whose sender goes on the parent's runtime node and whose
 * receiver goes on the child's. An edge into a node whose name is an
 * entrypoint is sent one token when it is created.
 *
 * `WireFrom` is the scan as a recursive function, `Wire` the nested loops of
 * the source proved equal to it, and the lemmas say what the scan computes:
 * where it stops with which error, which edges exist and how many each
 * runtime node has.
 */
module SyncWiring {
  import opened Wrappers
  import opened SyncNodes

  /** Why the scan stopped: a node without children, or a child name no other node has. */
  datatype WireError = NoChildren(node: string) | NoMatch(child: string, parent: string)

  /** The error string `build_and_submit` returns for each kind of failure. */
  function Message(e: WireError): string
  {
    match e
    case NoChildren(node) => "Synchronization node " + node + " has no children!"
    case NoMatch(child, parent) =>
      "Bad synchronization graph configuration! Match could not be found for " + child + ", child of " + parent + "."
  }

  /** One channel, from the parent's runtime node to the child's; `precharged` when it was sent a token at creation. */
  datatype Edge = Edge(producer: nat, consumer: nat, precharged: bool)

  /** The runtime nodes, indexed like the template nodes, and the edges created so far, indexed by edge id. */
  datatype Wiring = Wiring(nodes: seq<SynchronizationNode>, edges: seq<Edge>)

  /** Where the scan stopped: the wiring reached, and the error if it failed. */
  datatype WireResult = WireResult(wiring: Wiring, error: Option<WireError>)

  function EmptyWiring(n: nat): Wiring
  {
    Wiring(seq(n, _ => SynchronizationNode([], [])), [])
  }

  /** The token each new channel holds: one when it was pre-charged. */
  function InitialTokens(edges: seq<Edge>): (r: seq<nat>)
    ensures |r| == |edges| && Bounded(r)
    ensures forall e :: 0 <= e < |edges| ==> (r[e] == 1 <==> edges[e].precharged)
  {
    seq(|edges|, e requires 0 <= e < |edges| => if edges[e].precharged then 1 else 0)
  }

  /** The search of `node_j` from `j` on, skipping the parent `i`. */
  function FindFrom(decls: seq<NodeDecl>, i: nat, child: string, j: nat): (r: Option<nat>)
    requires j <= |decls|
    ensures r.Some? ==> j <= r.value < |decls| && r.value != i && decls[r.value].name == child
    decreases |decls| - j
  {
    if j == |decls| then None
    else if j != i && decls[j].name == child then Some(j)
    else FindFrom(decls, i, child, j + 1)
  }

  /** The search from `j` on skips only nodes other than `i` with another name, and fails only when there is no such node. */
  lemma {:induction false} FindFromFirst(decls: seq<NodeDecl>, i: nat, child: string, j: nat)
    requires j <= |decls|
    ensures var r := FindFrom(decls, i, child, j);
      && (r.Some? ==> forall k :: j <= k < r.value && k != i ==> decls[k].name != child)
      && (r.None? ==> forall k :: j <= k < |decls| && k != i ==> decls[k].name != child)
    decreases |decls| - j
  {
    if j < |decls| && !(j != i && decls[j].name == child) {
      FindFromFirst(decls, i, child, j + 1);
    }
  }

  /** The first node other than the parent `i` whose name is `child`. */
  function FirstMatch(decls: seq<NodeDecl>, i: nat, child: string): (r: Option<nat>)
    ensures r.Some? ==> r.value < |decls| && r.value != i && decls[r.value].name == child
  {
    FindFrom(decls, i, child, 0)
  }

  /** No node before the match other than `i` is named `child`, and when there is no match no node other than `i` is. */
  lemma FirstMatchFirst(decls: seq<NodeDecl>, i: nat, child: string)
    ensures var r := FirstMatch(decls, i, child);
      && (r.Some? ==> forall k :: 0 <= k < r.value && k != i ==> decls[k].name != child)
      && (r.None? ==> forall k :: 0 <= k < |decls| && k != i ==> decls[k].name != child)
  {
    FindFromFirst(decls, i, child, 0);
  }

  /** A new channel from node i to node j: the sender on i's children, the receiver on j's parents. */
  function Connect(w: Wiring, i: nat, j: nat, precharged: bool): Wiring
    requires i < |w.nodes| && j < |w.nodes|
  {
    var e := |w.edges|;
    var nodes := w.nodes[i := w.nodes[i].(children := w.nodes[i].children + [e])];
    Wiring(nodes[j := nodes[j].(parents := nodes[j].parents + [e])], w.edges + [Edge(i, j, precharged)])
  }

  /** The scan from child `c` of node `i` on, with wiring `w` built so far. */
  function WireFrom(decls: seq<NodeDecl>, entrypoints: seq<string>, i: nat, c: nat, w: Wiring): WireResult
    requires i <= |decls| && (i < |decls| ==> c <= |decls[i].children|) && |w.nodes| == |decls|
    decreases |decls| - i, if i < |decls| then |decls[i].children| - c else 0
  {
    if i == |decls| then WireResult(w, None)
    else if |decls[i].children| == 0 then WireResult(w, Some(NoChildren(decls[i].name)))
    else if c == |decls[i].children| then WireFrom(decls, entrypoints, i + 1, 0, w)
    else
      match FirstMatch(decls, i, decls[i].children[c])
      case None => WireResult(w, Some(NoMatch(decls[i].children[c], decls[i].name)))
      case Some(j) => WireFrom(decls, entrypoints, i, c + 1, Connect(w, i, j, decls[j].name in entrypoints))
  }

  /** The whole wiring scan over the template nodes. */
  ghost function WireAll(decls: seq<NodeDecl>, entrypoints: seq<string>): WireResult
  {
    WireFrom(decls, entrypoints, 0, 0, EmptyWiring(|decls|))
  }

  /** The innermost loop of `build_and_submit`: the first node other than `i` named `child`. */
  method FindChild(decls: seq<NodeDecl>, i: nat, child: string) returns (found: Option<nat>)
    ensures found == FirstMatch(decls, i, child)
  {
    var j := 0;
    while j < |decls|
      invariant 0 <= j <= |decls|
      invariant FirstMatch(decls, i, child) == FindFrom(decls, i, child, j)
    {
      if j != i && child == decls[j].name {
        return Some(j);
      }
      j := j + 1;
    }
    return None;
  }

  /** The nested loops of `build_and_submit` that validate and wire the graph. */
  method Wire(decls: seq<NodeDecl>, entrypoints: seq<string>) returns (result: WireResult)
    ensures result == WireAll(decls, entrypoints)
  {
    var w := EmptyWiring(|decls|);
    var i := 0;
    while i < |decls|
      invariant 0 <= i <= |decls| && |w.nodes| == |decls|
      invariant WireAll(decls, entrypoints) == WireFrom(decls, entrypoints, i, 0, w)
    {
      var node := decls[i];
      if |node.children| == 0 {
        return WireResult(w, Some(NoChildren(node.name)));
      }
      var c := 0;
      while c < |node.children|
        invariant 0 <= c <= |node.children| && |w.nodes| == |decls|
        invariant WireAll(decls, entrypoints) == WireFrom(decls, entrypoints, i, c, w)
      {
        var found := FindChild(decls, i, node.children[c]);
        if found.None? {
          return WireResult(w, Some(NoMatch(node.children[c], node.name)));
        }
        var j := found.value;
        var precharged := decls[j].name in entrypoints;
        ghost var before := w;
        var e := |w.edges|;
        w := w.(edges := w.edges + [Edge(i, j, precharged)]);
        w := w.(nodes := w.nodes[i := w.nodes[i].(children := w.nodes[i].children + [e])]);
        w := w.(nodes := w.nodes[j := w.nodes[j].(parents := w.nodes[j].parents + [e])]);
        assert w == Connect(before, i, j, precharged);
        c := c + 1;
      }
      i := i + 1;
    }
    return WireResult(w, None);
  }

  // What the scan computes

  /** The indices below n of the edges received by node j, in creation order. */
  function IntoBelow(edges: seq<Edge>, j: nat, n: nat): seq<nat>
    requires n <= |edges|
  {
    if n == 0 then [] else IntoBelow(edges, j, n - 1) + if edges[n - 1].consumer == j then [n - 1] else []
  }

  /** The indices below n of the edges sent by node i, in creation order. */
  function OutOfBelow(edges: seq<Edge>, i: nat, n: nat): seq<nat>
    requires n <= |edges|
  {
    if n == 0 then [] else OutOfBelow(edges, i, n - 1) + if edges[n - 1].producer == i then [n - 1] else []
  }

  /** The indices of the edges received by node j, in creation order. */
  function EdgesInto(edges: seq<Edge>, j: nat): seq<nat>
  {
    IntoBelow(edges, j, |edges|)
  }

  /** The indices of the edges sent by node i, in creation order. */
  function EdgesOutOf(edges: seq<Edge>, i: nat): seq<nat>
  {
    OutOfBelow(edges, i, |edges|)
  }

  /** The edge lists below n hold distinct indices below n, of edges that node j consumes or produces. */
  lemma {:induction false} BelowFacts(edges: seq<Edge>, j: nat, n: nat)
    requires n <= |edges|
    ensures var r := IntoBelow(edges, j, n);
      (forall k :: 0 <= k < |r| ==> r[k] < n && edges[r[k]].consumer == j) && Distinct(r)
    ensures var r := OutOfBelow(edges, j, n);
      (forall k :: 0 <= k < |r| ==> r[k] < n && edges[r[k]].producer == j) && Distinct(r)
  {
    if n > 0 {
      BelowFacts(edges, j, n - 1);
    }
  }

  /** Node j receives from distinct existing edges, each of which it consumes. */
  lemma EdgesIntoFacts(edges: seq<Edge>, j: nat)
    ensures var r := EdgesInto(edges, j);
      && (forall k :: 0 <= k < |r| ==> r[k] < |edges| && edges[r[k]].consumer == j)
      && Distinct(r)
  {
    BelowFacts(edges, j, |edges|);
  }

  /** Node i sends on distinct existing edges, each of which it produces. */
  lemma EdgesOutOfFacts(edges: seq<Edge>, i: nat)
    ensures var r := EdgesOutOf(edges, i);
      && (forall k :: 0 <= k < |r| ==> r[k] < |edges| && edges[r[k]].producer == i)
      && Distinct(r)
  {
    BelowFacts(edges, i, |edges|);
  }

  /** The edge lists of every node are distinct existing edges. */
  lemma EdgeListsWellFormed(edges: seq<Edge>, n: nat)
    ensures forall j :: 0 <= j < n ==>
      && InRange(EdgesInto(edges, j), |edges|) && Distinct(EdgesInto(edges, j))
      && InRange(EdgesOutOf(edges, j), |edges|) && Distinct(EdgesOutOf(edges, j))
  {
    forall j | 0 <= j < n
      ensures InRange(EdgesInto(edges, j), |edges|) && Distinct(EdgesInto(edges, j))
      ensures InRange(EdgesOutOf(edges, j), |edges|) && Distinct(EdgesOutOf(edges, j))
    {
      EdgesIntoFacts(edges, j);
      EdgesOutOfFacts(edges, j);
    }
  }

  /** The runtime nodes an edge list determines. */
  function NodesOf(n: nat, edges: seq<Edge>): (r: seq<SynchronizationNode>)
    ensures |r| == n && NodesInRange(r, |edges|)
    ensures forall j :: 0 <= j < n ==> Distinct(r[j].parents) && Distinct(r[j].children)
  {
    EdgeListsWellFormed(edges, n);
    seq(n, j requires 0 <= j < n => SynchronizationNode(EdgesInto(edges, j), EdgesOutOf(edges, j)))
  }

  ghost predicate Resolves(decls: seq<NodeDecl>, i: nat, c: nat)
    requires i < |decls| && c < |decls[i].children|
  {
    FirstMatch(decls, i, decls[i].children[c]).Some?
  }

  /** Node i passes the scan: it has children and each of them names another node. */
  ghost predicate NodeGood(decls: seq<NodeDecl>, i: nat)
    requires i < |decls|
  {
    |decls[i].children| > 0 && forall c :: 0 <= c < |decls[i].children| ==> Resolves(decls, i, c)
  }

  ghost predicate AllGood(decls: seq<NodeDecl>)
  {
    forall k :: 0 <= k < |decls| ==> NodeGood(decls, k)
  }

  /**
   * Node i fails at child c with error err: it has no children (c is 0), or
   * its children before c resolve and child c does not.
   */
  ghost predicate FaultAt(decls: seq<NodeDecl>, i: nat, c: nat, err: WireError)
  {
    && i < |decls|
    && (forall k :: 0 <= k < i ==> NodeGood(decls, k))
    && c <= |decls[i].children|
    && (forall d :: 0 <= d < c ==> Resolves(decls, i, d))
    && ((|decls[i].children| == 0 && err == NoChildren(decls[i].name))
        || (c < |decls[i].children| && !Resolves(decls, i, c) && err == NoMatch(decls[i].children[c], decls[i].name)))
  }

  /** The edge created for child d of node i. */
  ghost function EdgeFor(decls: seq<NodeDecl>, entrypoints: seq<string>, i: nat, d: nat): (r: Edge)
    requires i < |decls| && d < |decls[i].children| && Resolves(decls, i, d)
    ensures r.producer == i && r.consumer < |decls| && r.consumer != i
    ensures decls[r.consumer].name == decls[i].children[d]
    ensures r.precharged <==> decls[r.consumer].name in entrypoints
  {
    var j := FirstMatch(decls, i, decls[i].children[d]).value;
    Edge(i, j, decls[j].name in entrypoints)
  }

  /** The edges created for the first c children of node i. */
  ghost function ScanEdges(decls: seq<NodeDecl>, entrypoints: seq<string>, i: nat, c: nat): (r: seq<Edge>)
    requires i < |decls| && c <= |decls[i].children| && forall d :: 0 <= d < c ==> Resolves(decls, i, d)
    ensures |r| == c
  {
    if c == 0 then [] else ScanEdges(decls, entrypoints, i, c - 1) + [EdgeFor(decls, entrypoints, i, c - 1)]
  }

  /** Edge d of the scan of node i is the edge for its child d. */
  lemma {:induction false} ScanEdgesAt(decls: seq<NodeDecl>, entrypoints: seq<string>, i: nat, c: nat)
    requires i < |decls| && c <= |decls[i].children| && forall d :: 0 <= d < c ==> Resolves(decls, i, d)
    ensures forall d :: 0 <= d < c ==> ScanEdges(decls, entrypoints, i, c)[d] == EdgeFor(decls, entrypoints, i, d)
  {
    if c > 0 {
      ScanEdgesAt(decls, entrypoints, i, c - 1);
    }
  }

  /** The edges created for all children of the first i nodes, in scan order. */
  ghost function Planned(decls: seq<NodeDecl>, entrypoints: seq<string>, i: nat): seq<Edge>
    requires i <= |decls| && forall k :: 0 <= k < i ==> NodeGood(decls, k)
  {
    if i == 0 then []
    else
      assert NodeGood(decls, i - 1);
      Planned(decls, entrypoints, i - 1) + ScanEdges(decls, entrypoints, i - 1, |decls[i - 1].children|)
  }

  /** Edges and runtime nodes after the scan reached child c of node i, every earlier pair resolved. */
  ghost predicate WiredUpTo(decls: seq<NodeDecl>, entrypoints: seq<string>, i: nat, c: nat, w: Wiring)
    requires i <= |decls| && (i < |decls| ==> c <= |decls[i].children|)
    requires forall k :: 0 <= k < i ==> NodeGood(decls, k)
    requires i < |decls| ==> forall d :: 0 <= d < c ==> Resolves(decls, i, d)
  {
    && w.edges == Planned(decls, entrypoints, i) + (if i < |decls| then ScanEdges(decls, entrypoints, i, c) else [])
    && w.nodes == NodesOf(|decls|, w.edges)
  }

  /** The edge lists below n depend only on the first n edges. */
  lemma {:induction false} BelowPrefix(a: seq<Edge>, b: seq<Edge>, j: nat, n: nat)
    requires n <= |a| && n <= |b| && forall k :: 0 <= k < n ==> a[k] == b[k]
    ensures IntoBelow(a, j, n) == IntoBelow(b, j, n) && OutOfBelow(a, j, n) == OutOfBelow(b, j, n)
  {
    if n > 0 {
      BelowPrefix(a, b, j, n - 1);
    }
  }

  /** A new edge extends only the edge lists of its two ends, by its own index. */
  lemma EdgesAppendOne(edges: seq<Edge>, x: Edge, j: nat)
    ensures EdgesInto(edges + [x], j) == EdgesInto(edges, j) + if x.consumer == j then [|edges|] else []
    ensures EdgesOutOf(edges + [x], j) == EdgesOutOf(edges, j) + if x.producer == j then [|edges|] else []
  {
    BelowPrefix(edges + [x], edges, j, |edges|);
  }

  /** Connecting i to j is adding one edge to the edge list the runtime nodes are derived from. */
  lemma ConnectKeepsNodesOf(w: Wiring, i: nat, j: nat, precharged: bool)
    requires i < |w.nodes| && j < |w.nodes| && w.nodes == NodesOf(|w.nodes|, w.edges)
    ensures Connect(w, i, j, precharged).nodes == NodesOf(|w.nodes|, w.edges + [Edge(i, j, precharged)])
  {
    var x := Edge(i, j, precharged);
    forall k | 0 <= k < |w.nodes|
      ensures EdgesInto(w.edges + [x], k) == EdgesInto(w.edges, k) + (if j == k then [|w.edges|] else [])
      ensures EdgesOutOf(w.edges + [x], k) == EdgesOutOf(w.edges, k) + (if i == k then [|w.edges|] else [])
    {
      EdgesAppendOne(w.edges, x, k);
    }
    var after := Connect(w, i, j, precharged);
    var target := NodesOf(|w.nodes|, w.edges + [x]);
    forall k | 0 <= k < |w.nodes|
      ensures after.nodes[k] == target[k]
    {
    }
  }

  /**
   * The scan from a point every earlier pair of which resolved succeeds
   * exactly when every node passes, and otherwise stops at a fault with its
   * error.
   */
  lemma {:induction false} WireVerdictFrom(decls: seq<NodeDecl>, entrypoints: seq<string>, i: nat, c: nat, w: Wiring)
    requires i <= |decls| && (i < |decls| ==> c <= |decls[i].children|) && |w.nodes| == |decls|
    requires forall k :: 0 <= k < i ==> NodeGood(decls, k)
    requires i < |decls| ==> forall d :: 0 <= d < c ==> Resolves(decls, i, d)
    ensures var res := WireFrom(decls, entrypoints, i, c, w);
      && (res.error.None? <==> AllGood(decls))
      && (res.error.Some? ==> exists k, d :: FaultAt(decls, k, d, res.error.value))
    decreases |decls| - i, if i < |decls| then |decls[i].children| - c else 0
  {
    if i == |decls| {
    } else if |decls[i].children| == 0 {
      assert FaultAt(decls, i, 0, NoChildren(decls[i].name));
      assert !NodeGood(decls, i);
    } else if c == |decls[i].children| {
      assert NodeGood(decls, i);
      WireVerdictFrom(decls, entrypoints, i + 1, 0, w);
    } else {
      var child := decls[i].children[c];
      match FirstMatch(decls, i, child)
      case None =>
        assert FaultAt(decls, i, c, NoMatch(child, decls[i].name));
        assert !NodeGood(decls, i);
      case Some(j) =>
        WireVerdictFrom(decls, entrypoints, i, c + 1, Connect(w, i, j, decls[j].name in entrypoints));
    }
  }

  /** Wiring child c of node i extends the planned edges by that child's edge. */
  lemma ConnectStepWired(decls: seq<NodeDecl>, entrypoints: seq<string>, i: nat, c: nat, w: Wiring)
    requires i < |decls| && c < |decls[i].children| && |w.nodes| == |decls|
    requires forall k :: 0 <= k < i ==> NodeGood(decls, k)
    requires forall d :: 0 <= d < c ==> Resolves(decls, i, d)
    requires Resolves(decls, i, c) && WiredUpTo(decls, entrypoints, i, c, w)
    ensures var j := FirstMatch(decls, i, decls[i].children[c]).value;
      var next := Connect(w, i, j, decls[j].name in entrypoints);
      && WiredUpTo(decls, entrypoints, i, c + 1, next)
      && WireFrom(decls, entrypoints, i, c, w) == WireFrom(decls, entrypoints, i, c + 1, next)
  {
    var j := FirstMatch(decls, i, decls[i].children[c]).value;
    var precharged := decls[j].name in entrypoints;
    var x := Edge(i, j, precharged);
    var next := Connect(w, i, j, precharged);
    ConnectKeepsNodesOf(w, i, j, precharged);
    var planned, scan := Planned(decls, entrypoints, i), ScanEdges(decls, entrypoints, i, c);
    assert w.edges == planned + scan;
    assert EdgeFor(decls, entrypoints, i, c) == x;
    assert ScanEdges(decls, entrypoints, i, c + 1) == scan + [x];
    assert next.edges == (planned + scan) + [x] == planned + (scan + [x]);
  }

  /** Once every child of node i is wired, the planned edges of the first i + 1 nodes are. */
  lemma NextNodeWired(decls: seq<NodeDecl>, entrypoints: seq<string>, i: nat, w: Wiring)
    requires i < |decls| && forall k :: 0 <= k <= i ==> NodeGood(decls, k)
    requires forall d :: 0 <= d < |decls[i].children| ==> Resolves(decls, i, d)
    requires WiredUpTo(decls, entrypoints, i, |decls[i].children|, w) && |w.nodes| == |decls|
    ensures WiredUpTo(decls, entrypoints, i + 1, 0, w)
    ensures WireFrom(decls, entrypoints, i, |decls[i].children|, w) == WireFrom(decls, entrypoints, i + 1, 0, w)
  {
    assert NodeGood(decls, i);
    assert Planned(decls, entrypoints, i + 1) == Planned(decls, entrypoints, i) + ScanEdges(decls, entrypoints, i, |decls[i].children|);
    if i + 1 < |decls| {
      assert ScanEdges(decls, entrypoints, i + 1, 0) == [];
    }
  }

  /** One step of a scan that goes on: the next position, still wired, from which the scan has the same outcome. */
  lemma WireStep(decls: seq<NodeDecl>, entrypoints: seq<string>, i: nat, c: nat, w: Wiring) returns (i': nat, c': nat, w': Wiring)
    requires i < |decls| && c <= |decls[i].children| && |w.nodes| == |decls|
    requires (forall k :: 0 <= k < i ==> NodeGood(decls, k)) && (forall d :: 0 <= d < c ==> Resolves(decls, i, d))
    requires WiredUpTo(decls, entrypoints, i, c, w)
    requires c < |decls[i].children| ==> Resolves(decls, i, c)
    requires c == |decls[i].children| ==> NodeGood(decls, i)
    ensures if c < |decls[i].children| then i' == i && c' == c + 1 else i' == i + 1 && c' == 0
    ensures i' <= |decls| && (i' < |decls| ==> c' <= |decls[i'].children|) && |w'.nodes| == |decls|
    ensures forall k :: 0 <= k < i' ==> NodeGood(decls, k)
    ensures i' < |decls| ==> forall d :: 0 <= d < c' ==> Resolves(decls, i', d)
    ensures WiredUpTo(decls, entrypoints, i', c', w')
    ensures WireFrom(decls, entrypoints, i, c, w) == WireFrom(decls, entrypoints, i', c', w')
  {
    if c == |decls[i].children| {
      NextNodeWired(decls, entrypoints, i, w);
      i', c', w' := i + 1, 0, w;
    } else {
      var j := FirstMatch(decls, i, decls[i].children[c]).value;
      ConnectStepWired(decls, entrypoints, i, c, w);
      i', c', w' := i, c + 1, Connect(w, i, j, decls[j].name in entrypoints);
    }
  }

  /**
   * A scan from a point every earlier pair of which resolved that succeeds
   * ends with the planned edges, and every runtime node equal to the edges
   * into and out of it.
   */
  lemma {:induction false} WireEdgesFrom(decls: seq<NodeDecl>, entrypoints: seq<string>, i: nat, c: nat, w: Wiring)
    requires i <= |decls| && (i < |decls| ==> c <= |decls[i].children|) && |w.nodes| == |decls|
    requires AllGood(decls)
    requires i < |decls| ==> forall d :: 0 <= d < c ==> Resolves(decls, i, d)
    requires WiredUpTo(decls, entrypoints, i, c, w)
    ensures WiredUpTo(decls, entrypoints, |decls|, 0, WireFrom(decls, entrypoints, i, c, w).wiring)
    decreases |decls| - i, if i < |decls| then |decls[i].children| - c else 0
  {
    if i < |decls| {
      assert NodeGood(decls, i);
      var i', c', w' := WireStep(decls, entrypoints, i, c, w);
      WireEdgesFrom(decls, entrypoints, i', c', w');
    }
  }

  /**
   * `build_and_submit`'s wiring succeeds exactly when every node, in
   * registration order, has children that all name other nodes. On success
   * the edges are one per (node, child) pair in scan order and every runtime
   * node holds exactly the edges into and out of it; on failure the error is
   * the error of a node whose predecessors all pass, for its first child
   * that does not resolve or for having no children.
   */
  lemma WireOutcome(decls: seq<NodeDecl>, entrypoints: seq<string>)
    ensures var res := WireAll(decls, entrypoints);
      && (res.error.None? <==> AllGood(decls))
      && (res.error.None? ==>
           res.wiring.edges == Planned(decls, entrypoints, |decls|)
           && res.wiring.nodes == NodesOf(|decls|, res.wiring.edges))
      && (res.error.Some? ==> exists k, d :: FaultAt(decls, k, d, res.error.value))
  {
    var w := EmptyWiring(|decls|);
    assert w.nodes == NodesOf(|decls|, []);
    WireVerdictFrom(decls, entrypoints, 0, 0, w);
    if AllGood(decls) {
      WireEdgesFrom(decls, entrypoints, 0, 0, w);
    }
  }

  ghost predicate PlannedEdgeOk(decls: seq<NodeDecl>, entrypoints: seq<string>, i: nat, edge: Edge)
  {
    && edge.producer < i && edge.producer != edge.consumer && edge.consumer < |decls|
    && (edge.precharged <==> decls[edge.consumer].name in entrypoints)
  }

  /** A scan that has not passed the fault at child d of node k stops there, with that fault's error. */
  lemma {:induction false} WireStopsAtFault(decls: seq<NodeDecl>, entrypoints: seq<string>, i: nat, c: nat, w: Wiring, k: nat, d: nat, err: WireError)
    requires FaultAt(decls, k, d, err) && (i < k || (i == k && c <= d))
    requires i < |decls| && c <= |decls[i].children| && |w.nodes| == |decls|
    ensures WireFrom(decls, entrypoints, i, c, w).error == Some(err)
    decreases |decls| - i, |decls[i].children| - c
  {
    if i == k && c == d {
    } else if i < k && c == |decls[i].children| {
      assert NodeGood(decls, i);
      WireStopsAtFault(decls, entrypoints, i + 1, 0, w, k, d, err);
    } else {
      assert Resolves(decls, i, c) by {
        if i < k {
          assert NodeGood(decls, i);
        }
      }
      var j := FirstMatch(decls, i, decls[i].children[c]).value;
      WireStopsAtFault(decls, entrypoints, i, c + 1, Connect(w, i, j, decls[j].name in entrypoints), k, d, err);
    }
  }

  /** A scan from a wired point that has not passed the fault at child d of node k stops with every edge planned before it wired. */
  lemma {:induction false} WiredAtFault(decls: seq<NodeDecl>, entrypoints: seq<string>, i: nat, c: nat, w: Wiring, k: nat, d: nat, err: WireError)
    requires FaultAt(decls, k, d, err) && (i < k || (i == k && c <= d))
    requires i < |decls| && c <= |decls[i].children| && |w.nodes| == |decls|
    requires forall d' :: 0 <= d' < c ==> Resolves(decls, i, d')
    requires WiredUpTo(decls, entrypoints, i, c, w)
    ensures WiredUpTo(decls, entrypoints, k, d, WireFrom(decls, entrypoints, i, c, w).wiring)
    decreases |decls| - i, |decls[i].children| - c
  {
    if i == k && c == d {
      assert WireFrom(decls, entrypoints, i, c, w).wiring == w;
    } else {
      if i < k {
        assert NodeGood(decls, i);
      } else {
        assert Resolves(decls, i, c);
      }
      var i', c', w' := WireStep(decls, entrypoints, i, c, w);
      WiredAtFault(decls, entrypoints, i', c', w', k, d, err);
    }
  }

  /**
   * When the first fault is at child d of node k (node k has no children, or
   * its child d names no other node), `build_and_submit` fails with exactly
   * that fault's error, the edges of every earlier (node, child) pair
   * already wired.
   */
  lemma WireFailsAtFirstFault(decls: seq<NodeDecl>, entrypoints: seq<string>, k: nat, d: nat, err: WireError)
    requires FaultAt(decls, k, d, err)
    ensures var res := WireAll(decls, entrypoints);
      res.error == Some(err) && WiredUpTo(decls, entrypoints, k, d, res.wiring)
  {
    var w := EmptyWiring(|decls|);
    assert w.nodes == NodesOf(|decls|, []);
    WireStopsAtFault(decls, entrypoints, 0, 0, w, k, d, err);
    WiredAtFault(decls, entrypoints, 0, 0, w, k, d, err);
  }

  /** Every planned edge leaves an earlier node for another node, pre-charged exactly when that node is an entrypoint. */
  lemma {:induction false} PlannedEdgeFacts(decls: seq<NodeDecl>, entrypoints: seq<string>, i: nat)
    requires i <= |decls| && forall k :: 0 <= k < i ==> NodeGood(decls, k)
    ensures forall e :: 0 <= e < |Planned(decls, entrypoints, i)| ==> PlannedEdgeOk(decls, entrypoints, i, Planned(decls, entrypoints, i)[e])
  {
    if i > 0 {
      PlannedEdgeFacts(decls, entrypoints, i - 1);
      assert NodeGood(decls, i - 1);
      var before := Planned(decls, entrypoints, i - 1);
      var scan := ScanEdges(decls, entrypoints, i - 1, |decls[i - 1].children|);
      var edges := Planned(decls, entrypoints, i);
      ScanEdgesAt(decls, entrypoints, i - 1, |decls[i - 1].children|);
      forall e | 0 <= e < |edges|
        ensures PlannedEdgeOk(decls, entrypoints, i, edges[e])
      {
        if e < |before| {
          assert edges[e] == before[e] && PlannedEdgeOk(decls, entrypoints, i - 1, before[e]);
        } else {
          assert edges[e] == scan[e - |before|] == EdgeFor(decls, entrypoints, i - 1, e - |before|);
        }
      }
    }
  }

  /** Every edge of a successful wiring has capacity 1 and starts with a token exactly when its consumer is an entrypoint. */
  lemma WiredEdgesPrecharged(decls: seq<NodeDecl>, entrypoints: seq<string>)
    requires WireAll(decls, entrypoints).error.None?
    ensures var edges := WireAll(decls, entrypoints).wiring.edges;
      && Bounded(InitialTokens(edges))
      && forall e :: 0 <= e < |edges| ==>
           && edges[e].consumer < |decls| && edges[e].producer != edges[e].consumer
           && (InitialTokens(edges)[e] == 1 <==> decls[edges[e].consumer].name in entrypoints)
  {
    WireOutcome(decls, entrypoints);
    PlannedEdgeFacts(decls, entrypoints, |decls|);
  }

  // Edge counts

  /** How often `name` occurs among the first n of `names`. */
  function CountBelow(names: seq<string>, name: string, n: nat): nat
    requires n <= |names|
  {
    if n == 0 then 0 else CountBelow(names, name, n - 1) + if names[n - 1] == name then 1 else 0
  }

  /** How often `name` occurs in `names`. */
  function CountName(names: seq<string>, name: string): nat
  {
    CountBelow(names, name, |names|)
  }

  /** How often node j's name occurs in the child lists of the first i nodes other than j. */
  function References(decls: seq<NodeDecl>, j: nat, i: nat): nat
    requires j < |decls| && i <= |decls|
  {
    if i == 0 then 0
    else References(decls, j, i - 1) + if i - 1 == j then 0 else CountName(decls[i - 1].children, decls[j].name)
  }

  /** `push_node` keeps names unique. */
  ghost predicate UniqueNames(decls: seq<NodeDecl>)
  {
    forall a, b :: 0 <= a < b < |decls| ==> decls[a].name != decls[b].name
  }

  lemma {:induction false} ConcatBelowCount(a: seq<Edge>, b: seq<Edge>, j: nat, n: nat)
    requires n <= |b|
    ensures |IntoBelow(a + b, j, |a| + n)| == |EdgesInto(a, j)| + |IntoBelow(b, j, n)|
    ensures |OutOfBelow(a + b, j, |a| + n)| == |EdgesOutOf(a, j)| + |OutOfBelow(b, j, n)|
  {
    if n == 0 {
      BelowPrefix(a + b, a, j, |a|);
    } else {
      ConcatBelowCount(a, b, j, n - 1);
      assert (a + b)[|a| + n - 1] == b[n - 1];
    }
  }

  lemma EdgesConcatCount(a: seq<Edge>, b: seq<Edge>, j: nat)
    ensures |EdgesInto(a + b, j)| == |EdgesInto(a, j)| + |EdgesInto(b, j)|
    ensures |EdgesOutOf(a + b, j)| == |EdgesOutOf(a, j)| + |EdgesOutOf(b, j)|
  {
    ConcatBelowCount(a, b, j, |b|);
  }

  /** With unique names, the edge for child d of node i goes to node j exactly when that child is j's name and j is not i. */
  lemma EdgeForConsumer(decls: seq<NodeDecl>, entrypoints: seq<string>, i: nat, d: nat, j: nat)
    requires i < |decls| && d < |decls[i].children| && Resolves(decls, i, d)
    requires j < |decls| && UniqueNames(decls)
    ensures EdgeFor(decls, entrypoints, i, d).consumer == j <==> i != j && decls[i].children[d] == decls[j].name
  {
  }

  lemma {:induction false} ScanOutCount(decls: seq<NodeDecl>, entrypoints: seq<string>, i: nat, c: nat, j: nat)
    requires i < |decls| && c <= |decls[i].children| && forall d :: 0 <= d < c ==> Resolves(decls, i, d)
    ensures |EdgesOutOf(ScanEdges(decls, entrypoints, i, c), j)| == if i == j then c else 0
  {
    if c > 0 {
      ScanOutCount(decls, entrypoints, i, c - 1, j);
      EdgesAppendOne(ScanEdges(decls, entrypoints, i, c - 1), EdgeFor(decls, entrypoints, i, c - 1), j);
    }
  }

  lemma {:induction false} ScanIntoCount(decls: seq<NodeDecl>, entrypoints: seq<string>, i: nat, c: nat, j: nat)
    requires i < |decls| && c <= |decls[i].children| && forall d :: 0 <= d < c ==> Resolves(decls, i, d)
    requires j < |decls| && UniqueNames(decls)
    ensures |EdgesInto(ScanEdges(decls, entrypoints, i, c), j)| ==
      if i == j then 0 else CountBelow(decls[i].children, decls[j].name, c)
  {
    if c > 0 {
      ScanIntoCount(decls, entrypoints, i, c - 1, j);
      EdgesAppendOne(ScanEdges(decls, entrypoints, i, c - 1), EdgeFor(decls, entrypoints, i, c - 1), j);
      EdgeForConsumer(decls, entrypoints, i, c - 1, j);
    }
  }

  lemma ScanOutCountAll(decls: seq<NodeDecl>, entrypoints: seq<string>, i: nat, j: nat)
    requires i < |decls| && NodeGood(decls, i)
    ensures |EdgesOutOf(ScanEdges(decls, entrypoints, i, |decls[i].children|), j)| ==
      if i == j then |decls[i].children| else 0
  {
    ScanOutCount(decls, entrypoints, i, |decls[i].children|, j);
  }

  lemma ScanIntoCountAll(decls: seq<NodeDecl>, entrypoints: seq<string>, i: nat, j: nat)
    requires i < |decls| && NodeGood(decls, i) && j < |decls| && UniqueNames(decls)
    ensures |EdgesInto(ScanEdges(decls, entrypoints, i, |decls[i].children|), j)| ==
      if i == j then 0 else CountName(decls[i].children, decls[j].name)
  {
    ScanIntoCount(decls, entrypoints, i, |decls[i].children|, j);
  }

  /**
   * Planning node i - 1 adds one edge out of it per child and, with unique
   * names, one edge into node j per occurrence of j's name among its children.
   */
  lemma PlannedStepCounts(decls: seq<NodeDecl>, entrypoints: seq<string>, i: nat, j: nat)
    requires 0 < i <= |decls| && (forall k :: 0 <= k < i ==> NodeGood(decls, k)) && j < |decls|
    ensures |EdgesOutOf(Planned(decls, entrypoints, i), j)| ==
      |EdgesOutOf(Planned(decls, entrypoints, i - 1), j)| + if i - 1 == j then |decls[i - 1].children| else 0
    ensures UniqueNames(decls) ==>
      |EdgesInto(Planned(decls, entrypoints, i), j)| ==
      |EdgesInto(Planned(decls, entrypoints, i - 1), j)| + (if i - 1 == j then 0 else CountName(decls[i - 1].children, decls[j].name))
  {
    assert NodeGood(decls, i - 1);
    var scan := ScanEdges(decls, entrypoints, i - 1, |decls[i - 1].children|);
    assert Planned(decls, entrypoints, i) == Planned(decls, entrypoints, i - 1) + scan;
    EdgesConcatCount(Planned(decls, entrypoints, i - 1), scan, j);
    ScanOutCountAll(decls, entrypoints, i - 1, j);
    if UniqueNames(decls) {
      ScanIntoCountAll(decls, entrypoints, i - 1, j);
    }
  }

  /** After the first i nodes are scanned, each of them sends on one edge per child and no later node sends. */
  lemma {:induction false} PlannedOutCount(decls: seq<NodeDecl>, entrypoints: seq<string>, i: nat, j: nat)
    requires i <= |decls| && forall k :: 0 <= k < i ==> NodeGood(decls, k)
    requires j < |decls|
    ensures |EdgesOutOf(Planned(decls, entrypoints, i), j)| == if j < i then |decls[j].children| else 0
  {
    if i > 0 {
      PlannedOutCount(decls, entrypoints, i - 1, j);
      PlannedStepCounts(decls, entrypoints, i, j);
    }
  }

  /** With unique names, node j receives one edge per mention of its name by the other scanned nodes. */
  lemma {:induction false} PlannedIntoCount(decls: seq<NodeDecl>, entrypoints: seq<string>, i: nat, j: nat)
    requires i <= |decls| && forall k :: 0 <= k < i ==> NodeGood(decls, k)
    requires j < |decls| && UniqueNames(decls)
    ensures |EdgesInto(Planned(decls, entrypoints, i), j)| == References(decls, j, i)
  {
    if i > 0 {
      PlannedIntoCount(decls, entrypoints, i - 1, j);
      PlannedStepCounts(decls, entrypoints, i, j);
    }
  }

  /**
   * With unique node names, a successful wiring gives node i one child edge
   * per template child, and node j one parent edge per occurrence of its name
   * in the other nodes' child lists.
   */
  lemma WiredNodeCounts(decls: seq<NodeDecl>, entrypoints: seq<string>)
    requires UniqueNames(decls) && WireAll(decls, entrypoints).error.None?
    ensures var nodes := WireAll(decls, entrypoints).wiring.nodes;
      && |nodes| == |decls|
      && forall j :: 0 <= j < |decls| ==>
           && |nodes[j].children| == |decls[j].children|
           && |nodes[j].parents| == References(decls, j, |decls|)
  {
    WireOutcome(decls, entrypoints);
    forall j | 0 <= j < |decls|
      ensures |EdgesOutOf(Planned(decls, entrypoints, |decls|), j)| == |decls[j].children|
      ensures |EdgesInto(Planned(decls, entrypoints, |decls|), j)| == References(decls, j, |decls|)
    {
      PlannedOutCount(decls, entrypoints, |decls|, j);
      PlannedIntoCount(decls, entrypoints, |decls|, j);
    }
  }
}
