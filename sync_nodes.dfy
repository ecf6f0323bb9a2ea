/**
 * The nodes of the synchronization graph (src/concurrency/synchronization_graph.rs).
 *
 * A `TemplateSynchronizationNode` is built by name and children before it is
 * moved into the graph; the graph keeps it as a `NodeDecl` value. The runtime
 * `SynchronizationNode` behind each template holds the edge ids of its parents
 * (receivers) and children (senders). Every edge is a crossbeam channel of
 * capacity 1 carrying `()`, so its state is a token count of 0 or 1; all edges
 * live in one `Channels` object, indexed by edge id. A receive on an empty edge
 * and a send on a full edge would block the thread: the model stops there and
 * reports at which position of the edge list it stopped.
 */
module SyncNodes {
  import opened Wrappers

  /** A template node as the graph holds it once `push_node` has taken it. */
  datatype NodeDecl = NodeDecl(name: string, children: seq<string>)

  /** `TemplateSynchronizationNode` while its owner still adds children to it. */
  class TemplateSynchronizationNode {
    var children: seq<string>
    const name: string

    /** `TemplateSynchronizationNode::new(name)`: no children yet. */
    constructor (name: string)
      ensures this.name == name && children == []
    {
      this.name := name;
      children := [];
    }

    /** `push_child(identifier)`: appends one child name. */
    method PushChild(identifier: string)
      modifies this
      ensures children == old(children) + [identifier]
    {
      children := children + [identifier];
    }

    /** The value the graph keeps when the node is moved into it. */
    function Decl(): (d: NodeDecl)
      reads this
      ensures d.name == name && d.children == children
    {
      NodeDecl(name, children)
    }
  }

  /** `SubmissionResult`: whether a claimant took the node offered to it. */
  datatype SubmissionResult = Success | NotFound

  /** The runtime node: the ids of the edges it receives from and sends on. */
  datatype SynchronizationNode = SynchronizationNode(parents: seq<nat>, children: seq<nat>)

  ghost predicate InRange(edges: seq<nat>, n: nat)
  {
    forall k :: 0 <= k < |edges| ==> edges[k] < n
  }

  ghost predicate Distinct(edges: seq<nat>)
  {
    forall a, b :: 0 <= a < b < |edges| ==> edges[a] != edges[b]
  }

  /** Every runtime node names only existing edges. */
  ghost predicate NodesInRange(nodes: seq<SynchronizationNode>, n: nat)
  {
    forall i :: 0 <= i < |nodes| ==> InRange(nodes[i].parents, n) && InRange(nodes[i].children, n)
  }

  /** Every edge holds at most one token (capacity 1). */
  ghost predicate Bounded(tokens: seq<nat>)
  {
    forall e :: 0 <= e < |tokens| ==> tokens[e] <= 1
  }

  /**
   * Receiving on `edges[k..]` in order: one token is taken from each edge
   * until an empty edge is met, whose position is reported.
   */
  function ReceiveFrom(tokens: seq<nat>, edges: seq<nat>, k: nat): (r: (seq<nat>, Option<nat>))
    requires k <= |edges| && InRange(edges, |tokens|)
    ensures |r.0| == |tokens|
    ensures r.1.Some? ==> k <= r.1.value < |edges|
    decreases |edges| - k
  {
    if k == |edges| then (tokens, None)
    else if tokens[edges[k]] == 0 then (tokens, Some(k))
    else ReceiveFrom(tokens[edges[k] := tokens[edges[k]] - 1], edges, k + 1)
  }

  /**
   * Sending on `edges[k..]` in order: one token is put on each edge until a
   * full edge is met, whose position is reported.
   */
  function SendFrom(tokens: seq<nat>, edges: seq<nat>, k: nat): (r: (seq<nat>, Option<nat>))
    requires k <= |edges| && InRange(edges, |tokens|)
    ensures |r.0| == |tokens|
    ensures r.1.Some? ==> k <= r.1.value < |edges|
    decreases |edges| - k
  {
    if k == |edges| then (tokens, None)
    else if tokens[edges[k]] >= 1 then (tokens, Some(k))
    else SendFrom(tokens[edges[k] := tokens[edges[k]] + 1], edges, k + 1)
  }

  /** All token slots of the graph's edges. */
  class Channels {
    var tokens: seq<nat>

    ghost predicate Valid()
      reads this
    {
      Bounded(tokens)
    }

    constructor (tokens: seq<nat>)
      requires Bounded(tokens)
      ensures this.tokens == tokens && Valid()
    {
      this.tokens := tokens;
    }

    /**
     * `wait_for_parents`: `recv` on every parent edge in order. Returns the
     * position of the first parent edge that is empty, where the thread would
     * block, with the earlier edges already drained.
     */
    method WaitForParents(node: SynchronizationNode) returns (blocked: Option<nat>)
      requires Valid() && InRange(node.parents, |tokens|)
      modifies this
      ensures Valid()
      ensures (tokens, blocked) == ReceiveFrom(old(tokens), node.parents, 0)
    {
      var k := 0;
      blocked := None;
      while k < |node.parents|
        invariant 0 <= k <= |node.parents| && |tokens| == |old(tokens)|
        invariant Bounded(tokens)
        invariant ReceiveFrom(old(tokens), node.parents, 0) == ReceiveFrom(tokens, node.parents, k)
      {
        var e := node.parents[k];
        if tokens[e] == 0 {
          blocked := Some(k);
          return;
        }
        tokens := tokens[e := tokens[e] - 1];
        k := k + 1;
      }
    }

    /**
     * `release_children`: `send` on every child edge in order. Returns the
     * position of the first child edge that is full, where the thread would
     * block, with the earlier edges already filled.
     */
    method ReleaseChildren(node: SynchronizationNode) returns (blocked: Option<nat>)
      requires Valid() && InRange(node.children, |tokens|)
      modifies this
      ensures Valid()
      ensures (tokens, blocked) == SendFrom(old(tokens), node.children, 0)
    {
      var k := 0;
      blocked := None;
      while k < |node.children|
        invariant 0 <= k <= |node.children| && |tokens| == |old(tokens)|
        invariant Bounded(tokens)
        invariant SendFrom(old(tokens), node.children, 0) == SendFrom(tokens, node.children, k)
      {
        var e := node.children[k];
        if tokens[e] >= 1 {
          blocked := Some(k);
          return;
        }
        tokens := tokens[e := tokens[e] + 1];
        k := k + 1;
      }
    }
  }

  /**
   * What receiving on distinct edges does: it stops at the first empty edge
   * (the position p, or the end), every edge before it held a token, and
   * exactly those edges lost one token.
   */
  lemma {:induction false} ReceiveOutcome(start: seq<nat>, tokens: seq<nat>, edges: seq<nat>, k: nat)
    requires k <= |edges| && InRange(edges, |tokens|) && Distinct(edges) && |start| == |tokens|
    requires forall j :: 0 <= j < k ==> start[edges[j]] > 0
    requires forall x :: 0 <= x < |tokens| ==> tokens[x] == if x in edges[..k] then start[x] - 1 else start[x]
    ensures var (t, b) := ReceiveFrom(tokens, edges, k);
      var p := if b.Some? then b.value else |edges|;
      && (forall j :: 0 <= j < p ==> start[edges[j]] > 0)
      && (b.Some? ==> start[edges[p]] == 0)
      && (forall x :: 0 <= x < |tokens| ==> t[x] == if x in edges[..p] then start[x] - 1 else start[x])
    decreases |edges| - k
  {
    if k < |edges| {
      var e := edges[k];
      assert e !in edges[..k];
      if tokens[e] != 0 {
        var next := tokens[e := tokens[e] - 1];
        forall x | 0 <= x < |tokens|
          ensures next[x] == if x in edges[..k + 1] then start[x] - 1 else start[x]
        {
          assert edges[..k + 1] == edges[..k] + [e];
        }
        ReceiveOutcome(start, next, edges, k + 1);
      }
    }
  }

  /**
   * What sending on distinct edges does: it stops at the first full edge,
   * every edge before it was empty, and exactly those edges gained one token.
   */
  lemma {:induction false} SendOutcome(start: seq<nat>, tokens: seq<nat>, edges: seq<nat>, k: nat)
    requires k <= |edges| && InRange(edges, |tokens|) && Distinct(edges) && |start| == |tokens|
    requires forall j :: 0 <= j < k ==> start[edges[j]] == 0
    requires forall x :: 0 <= x < |tokens| ==> tokens[x] == if x in edges[..k] then start[x] + 1 else start[x]
    ensures var (t, b) := SendFrom(tokens, edges, k);
      var p := if b.Some? then b.value else |edges|;
      && (forall j :: 0 <= j < p ==> start[edges[j]] == 0)
      && (b.Some? ==> start[edges[p]] >= 1)
      && (forall x :: 0 <= x < |tokens| ==> t[x] == if x in edges[..p] then start[x] + 1 else start[x])
    decreases |edges| - k
  {
    if k < |edges| {
      var e := edges[k];
      assert e !in edges[..k];
      if tokens[e] < 1 {
        var next := tokens[e := tokens[e] + 1];
        forall x | 0 <= x < |tokens|
          ensures next[x] == if x in edges[..k + 1] then start[x] + 1 else start[x]
        {
          assert edges[..k + 1] == edges[..k] + [e];
        }
        SendOutcome(start, next, edges, k + 1);
      }
    }
  }

  /**
   * Waiting on distinct parent edges never blocks exactly when every one of
   * them holds a token; it then empties them and leaves every other edge alone.
   */
  lemma WaitNeedsEveryParentFull(tokens: seq<nat>, edges: seq<nat>)
    requires InRange(edges, |tokens|) && Distinct(edges) && Bounded(tokens)
    ensures var (t, b) := ReceiveFrom(tokens, edges, 0);
      && (b.None? <==> forall k :: 0 <= k < |edges| ==> tokens[edges[k]] == 1)
      && (b.None? ==> forall x :: 0 <= x < |tokens| ==> t[x] == if x in edges then 0 else tokens[x])
      && Bounded(t)
  {
    assert edges[..0] == [];
    ReceiveOutcome(tokens, tokens, edges, 0);
    assert edges[..|edges|] == edges;
  }

  /**
   * Releasing distinct child edges never blocks exactly when every one of
   * them is empty; it then fills them and leaves every other edge alone.
   */
  lemma ReleaseNeedsEveryChildEmpty(tokens: seq<nat>, edges: seq<nat>)
    requires InRange(edges, |tokens|) && Distinct(edges) && Bounded(tokens)
    ensures var (t, b) := SendFrom(tokens, edges, 0);
      && (b.None? <==> forall k :: 0 <= k < |edges| ==> tokens[edges[k]] == 0)
      && (b.None? ==> forall x :: 0 <= x < |tokens| ==> t[x] == if x in edges then 1 else tokens[x])
      && Bounded(t)
  {
    assert edges[..0] == [];
    SendOutcome(tokens, tokens, edges, 0);
    assert edges[..|edges|] == edges;
  }

  /** A release on distinct edges that does not block is undone by a wait on the same edges. */
  lemma ReleaseThenWaitRestores(tokens: seq<nat>, edges: seq<nat>)
    requires InRange(edges, |tokens|) && Distinct(edges) && Bounded(tokens)
    requires SendFrom(tokens, edges, 0).1.None?
    ensures ReceiveFrom(SendFrom(tokens, edges, 0).0, edges, 0) == (tokens, None)
  {
    ReleaseNeedsEveryChildEmpty(tokens, edges);
    var filled := SendFrom(tokens, edges, 0).0;
    WaitNeedsEveryParentFull(filled, edges);
    var t := ReceiveFrom(filled, edges, 0).0;
    assert t == tokens;
  }
}
