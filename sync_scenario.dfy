/**
 * `sync_test` of examples/concurrency/synchronization_graph_tasks_basics.rs:
 * the flipper and the flopper are registered, the three nodes are pushed
 * (`flip_prepare` and `flip_break_neck` each with the child
 * `flop_read_nietzsche`, which has both of them as children), and the graph
 * is built with the two flip nodes as entrypoints. The build wires four
 * edges, of which the two into the flip nodes start with a token, and gives
 * the flipper nodes 0 and 1 and the flopper node 2.
 *
 * The executor then runs each task's ticks on its own thread; `FirstRound`
 * is the one schedule the edges allow for the first round (the flipper,
 * then the flopper), and `FlipperMovesFirst` and `FlopperMovesNext` show
 * that any other move blocks.
 */
module SyncScenario {
  import opened Wrappers
  import opened Machine
  import opened SyncNodes
  import opened SyncWiring
  import opened SyncTasksBasics
  import opened SyncGraph

  /** The template nodes of the example, in push order. */
  const DECLS: seq<NodeDecl> := [
    NodeDecl(FLIP_PREPARE, [FLOP_READ_NIETZSCHE]),
    NodeDecl(FLIP_BREAK_NECK, [FLOP_READ_NIETZSCHE]),
    NodeDecl(FLOP_READ_NIETZSCHE, [FLIP_PREPARE, FLIP_BREAK_NECK])
  ]

  const ENTRYPOINTS: seq<string> := [FLIP_PREPARE, FLIP_BREAK_NECK]

  /** The edges the build creates, by id. */
  const EDGES: seq<Edge> := [Edge(0, 2, false), Edge(1, 2, false), Edge(2, 0, true), Edge(2, 1, true)]

  /** The runtime nodes: each flip node receives from the flop node and sends to it. */
  const NODES: seq<SynchronizationNode> := [
    SynchronizationNode([2], [0]),
    SynchronizationNode([3], [1]),
    SynchronizationNode([0, 1], [2, 3])
  ]

  /** The edge tokens in which the build leaves the graph. */
  const START: seq<nat> := [0, 0, 1, 1]

  /** After the flipper's tick: the edges into the flop node are full, those into the flip nodes empty. */
  const FLIPPED: seq<nat> := [1, 1, 0, 0]

  /** Every child name of the example resolves to the one other node of that name. */
  lemma ScenarioMatches()
    ensures FirstMatch(DECLS, 0, FLOP_READ_NIETZSCHE) == Some(2) && FirstMatch(DECLS, 1, FLOP_READ_NIETZSCHE) == Some(2)
    ensures FirstMatch(DECLS, 2, FLIP_PREPARE) == Some(0) && FirstMatch(DECLS, 2, FLIP_BREAK_NECK) == Some(1)
  {
    assert FindFrom(DECLS, 0, FLOP_READ_NIETZSCHE, 0) == FindFrom(DECLS, 0, FLOP_READ_NIETZSCHE, 1)
      == FindFrom(DECLS, 0, FLOP_READ_NIETZSCHE, 2) == Some(2);
    assert FindFrom(DECLS, 1, FLOP_READ_NIETZSCHE, 0) == FindFrom(DECLS, 1, FLOP_READ_NIETZSCHE, 1)
      == FindFrom(DECLS, 1, FLOP_READ_NIETZSCHE, 2) == Some(2);
    assert FindFrom(DECLS, 2, FLIP_PREPARE, 0) == Some(0);
    assert FindFrom(DECLS, 2, FLIP_BREAK_NECK, 0) == FindFrom(DECLS, 2, FLIP_BREAK_NECK, 1) == Some(1);
  }

  /** The runtime nodes after the two edges out of the flip nodes. */
  const HALFWAY: seq<SynchronizationNode> := [
    SynchronizationNode([], [0]),
    SynchronizationNode([], [1]),
    SynchronizationNode([0, 1], [])
  ]

  /** The two edges out of the flip nodes, uncharged. */
  lemma FirstTwoConnects()
    ensures Connect(Connect(EmptyWiring(3), 0, 2, false), 1, 2, false) == Wiring(HALFWAY, EDGES[..2])
  {
    var none := SynchronizationNode([], []);
    assert [] + [0] == [0] && [] + [1] == [1] && [0] + [1] == [0, 1];
    assert [] + [EDGES[0]] == EDGES[..1] && EDGES[..1] + [EDGES[1]] == EDGES[..2];
    var w0 := EmptyWiring(3);
    assert w0.nodes == [none, none, none] && w0.edges == [];
    var w1 := Connect(w0, 0, 2, false);
    assert w0.nodes[0 := SynchronizationNode([], [0])] == [SynchronizationNode([], [0]), none, none];
    assert w1.nodes == [SynchronizationNode([], [0]), none, SynchronizationNode([0], [])] && w1.edges == EDGES[..1];
    var w2 := Connect(w1, 1, 2, false);
    assert w1.nodes[1 := SynchronizationNode([], [1])] == [SynchronizationNode([], [0]), SynchronizationNode([], [1]), SynchronizationNode([0], [])];
  }

  /** The two edges out of the flop node, charged because the flip nodes are entrypoints. */
  lemma LastTwoConnects()
    ensures Connect(Connect(Wiring(HALFWAY, EDGES[..2]), 2, 0, true), 2, 1, true) == Wiring(NODES, EDGES)
  {
    assert [] + [2] == [2] && [] + [3] == [3] && [2] + [3] == [2, 3];
    assert EDGES[..2] + [EDGES[2]] == EDGES[..3] && EDGES[..3] + [EDGES[3]] == EDGES;
    var w2 := Wiring(HALFWAY, EDGES[..2]);
    var w3 := Connect(w2, 2, 0, true);
    assert w2.nodes[2 := SynchronizationNode([0, 1], [2])] == [SynchronizationNode([], [0]), SynchronizationNode([], [1]), SynchronizationNode([0, 1], [2])];
    assert w3.nodes == [SynchronizationNode([2], [0]), SynchronizationNode([], [1]), SynchronizationNode([0, 1], [2])] && w3.edges == EDGES[..3];
    var w4 := Connect(w3, 2, 1, true);
    assert w3.nodes[2 := SynchronizationNode([0, 1], [2, 3])] == [SynchronizationNode([2], [0]), SynchronizationNode([], [1]), SynchronizationNode([0, 1], [2, 3])];
  }

  /** The example's wiring succeeds with the four edges above, and only the edges into the entrypoints are charged. */
  lemma ScenarioWiring()
    ensures WireAll(DECLS, ENTRYPOINTS) == WireResult(Wiring(NODES, EDGES), None)
    ensures InitialTokens(EDGES) == START
  {
    ScenarioMatches();
    FirstTwoConnects();
    LastTwoConnects();
    assert FLOP_READ_NIETZSCHE !in ENTRYPOINTS && FLIP_PREPARE in ENTRYPOINTS && FLIP_BREAK_NECK in ENTRYPOINTS;
    var w0 := EmptyWiring(3);
    var w1 := Connect(w0, 0, 2, false);
    var w2 := Wiring(HALFWAY, EDGES[..2]);
    var w3 := Connect(w2, 2, 0, true);
    var w4 := Wiring(NODES, EDGES);
    assert WireFrom(DECLS, ENTRYPOINTS, 2, 0, w2) == WireFrom(DECLS, ENTRYPOINTS, 2, 1, w3)
      == WireFrom(DECLS, ENTRYPOINTS, 2, 2, w4) == WireFrom(DECLS, ENTRYPOINTS, 3, 0, w4);
    assert WireFrom(DECLS, ENTRYPOINTS, 0, 0, w0) == WireFrom(DECLS, ENTRYPOINTS, 0, 1, w1)
      == WireFrom(DECLS, ENTRYPOINTS, 1, 0, w1) == WireFrom(DECLS, ENTRYPOINTS, 1, 1, w2)
      == WireFrom(DECLS, ENTRYPOINTS, 2, 0, w2);
  }

  /** The lowest node of each wanted name. */
  lemma ScenarioLowest()
    ensures LowestNamed(DECLS, FLIP_PREPARE, 0) == Some(0) && LowestNamed(DECLS, FLIP_BREAK_NECK, 0) == Some(1)
    ensures LowestNamed(DECLS, FLOP_READ_NIETZSCHE, 0) == Some(2)
  {
    assert LowestNamed(DECLS, FLIP_BREAK_NECK, 0) == LowestNamed(DECLS, FLIP_BREAK_NECK, 1) == Some(1);
    assert LowestNamed(DECLS, FLOP_READ_NIETZSCHE, 0) == LowestNamed(DECLS, FLOP_READ_NIETZSCHE, 1)
      == LowestNamed(DECLS, FLOP_READ_NIETZSCHE, 2) == Some(2);
  }

  /** Offered the example's nodes, the flipper takes nodes 0 and 1, accepting them last one first, and is filled. */
  lemma FlipperClaims(flipper: DoAFlip, h: Holding)
    requires h.claims == [None, None]
    ensures AfterOffer(DECLS, Flip(flipper), h) == Holding([Some(0), Some(1)], h.submitted + [FLIP_BREAK_NECK, FLIP_PREPARE], h.objekt)
    ensures FilledWith(DECLS, Flip(flipper), h)
  {
    ScenarioLowest();
    var wanted := Wanted(Flip(flipper));
    assert OfferedAbove(DECLS, wanted, 2) == [];
    assert OfferedAbove(DECLS, wanted, 1) == [FLIP_BREAK_NECK];
    assert OfferedAbove(DECLS, wanted, 0) == [FLIP_BREAK_NECK, FLIP_PREPARE];
    assert ClaimsAfter(DECLS, wanted, h.claims, 0) == [Some(0), Some(1)];
  }

  /** Offered the example's nodes, the flopper takes node 2 and is filled. */
  lemma FlopperClaims(flopper: DoAFlop, g: Holding)
    requires g.claims == [None]
    ensures AfterOffer(DECLS, Flop(flopper), g) == Holding([Some(2)], g.submitted + [FLOP_READ_NIETZSCHE], g.objekt)
    ensures FilledWith(DECLS, Flop(flopper), g)
  {
    ScenarioLowest();
    var wanted := Wanted(Flop(flopper));
    assert OfferedAbove(DECLS, wanted, 2) == [FLOP_READ_NIETZSCHE];
    assert OfferedAbove(DECLS, wanted, 0) == OfferedAbove(DECLS, wanted, 1) == OfferedAbove(DECLS, wanted, 2);
    assert ClaimsAfter(DECLS, wanted, g.claims, 0) == [Some(2)];
  }

  /**
   * The claim loop of the example: both tasks are filled, so the build hands
   * both to the executor with the example's runtime nodes, the flipper holding
   * nodes 0 and 1 and the flopper node 2.
   */
  lemma ScenarioClaims(flipper: DoAFlip, flopper: DoAFlop, decls: seq<NodeDecl>, deps: seq<Dependent>, wiring: Wiring,
                        before: seq<Holding>, after: seq<Holding>, r: Result<Executor>)
    requires decls == DECLS && deps == [Flip(flipper), Flop(flopper)] && wiring == Wiring(NODES, EDGES)
    requires before == [Holding([None, None], [], None), Holding([None], [], None)]
    requires Fits(deps, before) && ClaimOutcome(decls, deps, wiring, before, after, r)
    ensures r.Ok? && r.value.nodes == NODES && r.value.tasks == [Flip(flipper), Flop(flopper)]
    ensures after == [Holding([Some(0), Some(1)], [FLIP_BREAK_NECK, FLIP_PREPARE], None), Holding([Some(2)], [FLOP_READ_NIETZSCHE], None)]
  {
    FlipperClaims(flipper, before[0]);
    FlopperClaims(flopper, before[1]);
    FirstUnfilledIs(DECLS, deps, before, 0, 2);
    assert after == Claimed(DECLS, deps, before, 2);
    assert after[0] == AfterOffer(DECLS, Flip(flipper), before[0]);
    assert after[1] == AfterOffer(DECLS, Flop(flopper), before[1]);
    assert |after| == 2 && before[0].submitted == [] && before[1].submitted == [];
    assert after[0] == Holding([Some(0), Some(1)], [FLIP_BREAK_NECK, FLIP_PREPARE], None);
    assert after[1] == Holding([Some(2)], [FLOP_READ_NIETZSCHE], None);
  }

  /** Registers the two tasks: both pushes succeed, since "flipper" and "flopper" differ. */
  method RegisterTasks(graph: SynchronizationGraphTemplate, flipper: DoAFlip, flopper: DoAFlop)
    requires graph.Valid() && graph.nodes == [] && graph.requiredBy == []
    requires flipper.name == "flipper" && flopper.name == "flopper"
    modifies graph
    ensures graph.Valid() && graph.nodes == [] && graph.requiredBy == [Flip(flipper), Flop(flopper)]
  {
    var pushed := graph.PushDependency(Flip(flipper));
    assert pushed.Ok?;
    assert "flipper"[2] != "flopper"[2];
    pushed := graph.PushDependency(Flop(flopper));
    assert pushed.Ok?;
  }

  /** `TemplateSynchronizationNode::new` followed by one `push_child` per child. */
  method Template(decl: NodeDecl) returns (tsn: TemplateSynchronizationNode)
    ensures fresh(tsn) && tsn.Decl() == decl
  {
    tsn := new TemplateSynchronizationNode(decl.name);
    var c := 0;
    while c < |decl.children|
      invariant 0 <= c <= |decl.children| && tsn.name == decl.name && tsn.children == decl.children[..c]
    {
      tsn.PushChild(decl.children[c]);
      assert decl.children[..c + 1] == decl.children[..c] + [decl.children[c]];
      c := c + 1;
    }
    assert decl.children[..|decl.children|] == decl.children;
  }

  /** Builds one template node and pushes it; the push succeeds because the name is new. */
  method PushNamed(graph: SynchronizationGraphTemplate, decl: NodeDecl)
    requires graph.Valid() && forall k :: 0 <= k < |graph.nodes| ==> graph.nodes[k].name != decl.name
    modifies graph
    ensures graph.Valid() && graph.nodes == old(graph.nodes) + [decl] && graph.requiredBy == old(graph.requiredBy)
  {
    var tsn := Template(decl);
    var pushed := graph.PushNode(tsn);
    assert pushed.Ok?;
  }

  /** Pushes the three nodes of the example. */
  method PushNodes(graph: SynchronizationGraphTemplate)
    requires graph.Valid() && graph.nodes == []
    modifies graph
    ensures graph.Valid() && graph.nodes == DECLS && graph.requiredBy == old(graph.requiredBy)
  {
    PushNamed(graph, DECLS[0]);
    PushNamed(graph, DECLS[1]);
    PushNamed(graph, DECLS[2]);
  }

  /**
   * `sync_test` up to the executor: every push and the build succeed, the
   * runtime nodes and tokens are as wired above, and the two tasks hold
   * their nodes and the names they accepted, last registered first.
   */
  method SyncTest() returns (flipper: DoAFlip, flopper: DoAFlop, executor: Executor)
    ensures executor.nodes == NODES && executor.channels.tokens == START
    ensures executor.tasks == [Flip(flipper), Flop(flopper)]
    ensures flipper.nodeA == Some(0) && flipper.nodeB == Some(1) && flipper.u32Ob == None
    ensures flipper.submittedNodeList == [FLIP_BREAK_NECK, FLIP_PREPARE]
    ensures flopper.nodeA == Some(2) && flopper.u32Ob == None
    ensures flopper.submittedNodeList == [FLOP_READ_NIETZSCHE]
  {
    var graph := new SynchronizationGraphTemplate();
    flipper := new DoAFlip("flipper");
    flopper := new DoAFlop("flopper");
    RegisterTasks(graph, flipper, flopper);
    PushNodes(graph);
    ghost var deps := graph.requiredBy;
    ghost var before := States(deps);
    assert before == [Holding([None, None], [], None), Holding([None], [], None)];
    ScenarioWiring();
    NotATarget(deps, graph);
    var built := graph.BuildAndSubmit(ENTRYPOINTS);
    assert graph.nodes == DECLS && graph.requiredBy == deps;
    ScenarioClaims(flipper, flopper, graph.nodes, graph.requiredBy, WireAll(graph.nodes, ENTRYPOINTS).wiring,
                   before, States(graph.requiredBy), built);
    assert States(deps)[0] == State(Flip(flipper)) && States(deps)[1] == State(Flop(flopper));
    executor := built.value;
  }

  /**
   * `init` of both tasks over a registry holding one `U32Objekt` named
   * "ernie" with the value 11: both find it and share its cell.
   */
  method LookUpErnie(flipper: DoAFlip, flopper: DoAFlop) returns (cell: U32Cell)
    modifies flipper, flopper
    ensures fresh(cell) && cell.value == 11
    ensures flipper.u32Ob == Some(U32Objekt(ERNIE, cell)) && flopper.u32Ob == Some(U32Objekt(ERNIE, cell))
    ensures flipper.nodeA == old(flipper.nodeA) && flipper.nodeB == old(flipper.nodeB) && flopper.nodeA == old(flopper.nodeA)
  {
    cell := new U32Cell(11);
    var registry := [U32Objekt(ERNIE, cell)];
    flipper.Init(registry, (o: U32Objekt) => o.name, (o: U32Objekt) => Some(o));
    flopper.Init(registry, (o: U32Objekt) => o.name, (o: U32Objekt) => Some(o));
    assert flipper.u32Ob == Some(registry[0]) && flopper.u32Ob == Some(registry[0]);
  }

  /**
   * The first round of the task loops once both tasks have looked up
   * "ernie" (the registry holds one `U32Objekt` of that name with the value
   * 11): the flipper's tick halves it to 5 and hands the tokens to the flop
   * node, the flopper's tick adds 1 and hands them back, so the edges are as
   * the build left them and the value is that of one `Round`.
   */
  method FirstRound(flipper: DoAFlip, flopper: DoAFlop, executor: Executor)
    returns (flipOutcome: TickOutcome, flopOutcome: TickOutcome, value: u32)
    requires executor.nodes == NODES && executor.channels.tokens == START
    requires flipper.nodeA == Some(0) && flipper.nodeB == Some(1) && flopper.nodeA == Some(2)
    modifies flipper, flopper, executor.channels
    ensures flipOutcome == Continue && flopOutcome == Continue
    ensures executor.channels.tokens == START
    ensures value == 6 == Round(11)
  {
    var cell := LookUpErnie(flipper, flopper);
    ScenarioInRange();
    FlipperMovesFirst();
    FlopperMovesNext();
    flipOutcome := flipper.Tick(executor.nodes, executor.channels);
    assert executor.channels.tokens == FLIPPED;
    assert cell.value == 5;
    flopOutcome := flopper.Tick(executor.nodes, executor.channels);
    value := cell.value;
  }

  /** The runtime nodes name only the four edges, and both token states respect capacity 1. */
  lemma ScenarioInRange()
    ensures NodesInRange(NODES, 4) && Bounded(START) && Bounded(FLIPPED)
  {
    assert forall i :: 0 <= i < 3 ==> InRange(NODES[i].parents, 4) && InRange(NODES[i].children, 4);
  }

  /** From the built graph only the flipper can move: the flopper's first tick blocks on its first parent edge. */
  lemma FlipperMovesFirst()
    ensures TickEffect(START, NODES, [0, 1], false) == (FLIPPED, Continue)
    ensures TickEffect(START, NODES, [2], false) == (START, BlockedWaiting(2, 0))
  {
    assert START[2 := 0] == [0, 0, 0, 1] && [0, 0, 0, 1][3 := 0] == [0, 0, 0, 0];
    assert [0, 0, 0, 0][0 := 1] == [1, 0, 0, 0] && [1, 0, 0, 0][1 := 1] == FLIPPED;
    assert ReceiveFrom(START, [2], 0) == ReceiveFrom([0, 0, 0, 1], [2], 1) == ([0, 0, 0, 1], None);
    assert ReceiveFrom([0, 0, 0, 1], [3], 0) == ReceiveFrom([0, 0, 0, 0], [3], 1) == ([0, 0, 0, 0], None);
    assert SendFrom([0, 0, 0, 0], [0], 0) == SendFrom([1, 0, 0, 0], [0], 1) == ([1, 0, 0, 0], None);
    assert SendFrom([1, 0, 0, 0], [1], 0) == SendFrom(FLIPPED, [1], 1) == (FLIPPED, None);
    assert ReceiveFrom(START, [0, 1], 0) == (START, Some(0));
  }

  /**
   * After the flipper's tick only the flopper can move: a second flip tick
   * blocks on node A's parent edge, and the flop tick brings the edges back
   * to where the build left them.
   */
  lemma FlopperMovesNext()
    ensures TickEffect(FLIPPED, NODES, [2], false) == (START, Continue)
    ensures TickEffect(FLIPPED, NODES, [0, 1], false) == (FLIPPED, BlockedWaiting(0, 0))
  {
    assert FLIPPED[0 := 0] == [0, 1, 0, 0] && [0, 1, 0, 0][1 := 0] == [0, 0, 0, 0];
    assert [0, 0, 0, 0][2 := 1] == [0, 0, 1, 0] && [0, 0, 1, 0][3 := 1] == START;
    assert ReceiveFrom(FLIPPED, [0, 1], 0) == ReceiveFrom([0, 1, 0, 0], [0, 1], 1)
      == ReceiveFrom([0, 0, 0, 0], [0, 1], 2) == ([0, 0, 0, 0], None);
    assert SendFrom([0, 0, 0, 0], [2, 3], 0) == SendFrom([0, 0, 1, 0], [2, 3], 1)
      == SendFrom(START, [2, 3], 2) == (START, None);
    assert ReceiveFrom(FLIPPED, [2], 0) == (FLIPPED, Some(0));
  }
}
