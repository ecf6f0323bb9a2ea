/**
 * The two example tasks of examples/concurrency/synchronization_graph_tasks_basics.rs.
 *
 * `DoAFlip` claims the nodes `flip_prepare` and `flip_break_neck`, `DoAFlop`
 * the node `flop_read_nietzsche`; a claimed node is kept as the index of its
 * runtime node. Both look up the registry object "ernie", a `U32Objekt`
 * whose `Arc<RwLock<u32>>` is a `U32Cell` shared by every clone. A tick
 * waits on the parents of its nodes, updates the shared value and releases
 * the children of its nodes; the model stops where the thread would block on
 * an edge or panic on overflow.
 */
module SyncTasksBasics {
  import opened Wrappers
  import opened Machine
  import opened SyncNodes
  import MoleculeObjekt

  const FLIP_BREAK_NECK: string := "flip_break_neck"
  const FLIP_PREPARE: string := "flip_prepare"
  const FLOP_READ_NIETZSCHE: string := "flop_read_nietzsche"

  /** The registry name both tasks look up in `init`. */
  const ERNIE: string := "ernie"

  /** The `Arc<RwLock<u32>>` of a `U32Objekt`: clones share it. */
  class U32Cell {
    var value: u32

    constructor (value: u32)
      ensures this.value == value
    {
      this.value := value;
    }
  }

  /** `U32Objekt`: cloning it copies the name and shares the cell. */
  datatype U32Objekt = U32Objekt(name: string, someVal: U32Cell) {
    /** `MoleculeObjekt::name`. */
    function Name(): (r: string)
      ensures r == name
    {
      name
    }
  }

  /** How a tick ended: it ran through, or it stopped where the thread would block on an edge or panic. */
  datatype TickOutcome =
    | Continue
    | BlockedWaiting(node: nat, position: nat)
    | BlockedReleasing(node: nat, position: nat)
    | Overflowed

  ghost predicate OrderInRange(order: seq<nat>, nodes: seq<SynchronizationNode>)
  {
    forall m :: 0 <= m < |order| ==> order[m] < |nodes|
  }

  /** `wait_for_parents` on `order[k..]` in turn, stopping at the first empty edge as (node, position). */
  function WaitAll(tokens: seq<nat>, nodes: seq<SynchronizationNode>, order: seq<nat>, k: nat): (r: (seq<nat>, Option<(nat, nat)>))
    requires k <= |order| && OrderInRange(order, nodes) && NodesInRange(nodes, |tokens|)
    ensures |r.0| == |tokens|
    decreases |order| - k
  {
    if k == |order| then (tokens, None)
    else
      var (t, b) := ReceiveFrom(tokens, nodes[order[k]].parents, 0);
      if b.Some? then (t, Some((order[k], b.value))) else WaitAll(t, nodes, order, k + 1)
  }

  /** `release_children` on `order[k..]` in turn, stopping at the first full edge as (node, position). */
  function ReleaseAll(tokens: seq<nat>, nodes: seq<SynchronizationNode>, order: seq<nat>, k: nat): (r: (seq<nat>, Option<(nat, nat)>))
    requires k <= |order| && OrderInRange(order, nodes) && NodesInRange(nodes, |tokens|)
    ensures |r.0| == |tokens|
    decreases |order| - k
  {
    if k == |order| then (tokens, None)
    else
      var (t, b) := SendFrom(tokens, nodes[order[k]].children, 0);
      if b.Some? then (t, Some((order[k], b.value))) else ReleaseAll(t, nodes, order, k + 1)
  }

  /**
   * The edge effect of one tick over the task's nodes `order`: wait on all of
   * them, then (unless the update panics) release all of them.
   */
  function TickEffect(tokens: seq<nat>, nodes: seq<SynchronizationNode>, order: seq<nat>, overflows: bool): (r: (seq<nat>, TickOutcome))
    requires OrderInRange(order, nodes) && NodesInRange(nodes, |tokens|)
  {
    var (t, w) := WaitAll(tokens, nodes, order, 0);
    if w.Some? then (t, BlockedWaiting(w.value.0, w.value.1))
    else if overflows then (t, Overflowed)
    else
      var (t', rel) := ReleaseAll(t, nodes, order, 0);
      (t', if rel.Some? then BlockedReleasing(rel.value.0, rel.value.1) else Continue)
  }

  /** Whether a tick over `order` gets past its waits to the value update. */
  function ReachesUpdate(tokens: seq<nat>, nodes: seq<SynchronizationNode>, order: seq<nat>): bool
    requires OrderInRange(order, nodes) && NodesInRange(nodes, |tokens|)
  {
    WaitAll(tokens, nodes, order, 0).1.None?
  }

  /** The flip update: halve the value unless it is 1. */
  function FlipStep(v: u32): u32
  {
    if v != 1 then v / 2 else v
  }

  /** The flop update: add 1 unless the value is 1; None where the addition overflows and panics. */
  function FlopStep(v: u32): Option<u32>
  {
    if v == 1 then Some(v)
    else if v + 1 < U32_BOUND then Some(v + 1)
    else None
  }

  /** `DoAFlip`. */
  class DoAFlip {
    const name: string
    var nodeA: Option<nat>
    var nodeB: Option<nat>
    var submittedNodeList: seq<string>
    var u32Ob: Option<U32Objekt>

    /** The literal of `sync_test`: nothing claimed, nothing submitted, no objekt. */
    constructor (name: string)
      ensures this.name == name && nodeA == None && nodeB == None
      ensures submittedNodeList == [] && u32Ob == None
    {
      this.name := name;
      nodeA := None;
      nodeB := None;
      submittedNodeList := [];
      u32Ob := None;
    }

    function Name(): (r: string)
      ensures r == name
    {
      name
    }

    method PushSubmittedNodeList(name: string)
      modifies this
      ensures submittedNodeList == old(submittedNodeList) + [name]
      ensures nodeA == old(nodeA) && nodeB == old(nodeB) && u32Ob == old(u32Ob)
    {
      submittedNodeList := submittedNodeList + [name];
    }

    /** `submit_node`: takes `flip_prepare` as node A and `flip_break_neck` as node B, nothing else. */
    method SubmitNode(node: NodeDecl, runtime: nat) returns (r: SubmissionResult)
      modifies this
      ensures node.name == FLIP_PREPARE ==> r == Success && nodeA == Some(runtime) && nodeB == old(nodeB)
      ensures node.name == FLIP_BREAK_NECK ==> r == Success && nodeB == Some(runtime) && nodeA == old(nodeA)
      ensures node.name != FLIP_PREPARE && node.name != FLIP_BREAK_NECK ==>
        r == NotFound && nodeA == old(nodeA) && nodeB == old(nodeB)
      ensures submittedNodeList == old(submittedNodeList) && u32Ob == old(u32Ob)
    {
      if node.name == FLIP_PREPARE {
        nodeA := Some(runtime);
      } else if node.name == FLIP_BREAK_NECK {
        nodeB := Some(runtime);
      } else {
        return NotFound;
      }
      return Success;
    }

    /** `values_filled`: both nodes claimed. */
    function ValuesFilled(): (r: bool)
      reads this
      ensures r <==> nodeA.Some? && nodeB.Some?
    {
      match (nodeA, nodeB)
      case (Some(_), Some(_)) => true
      case _ => false
    }

    /** `init`: keeps the registry's answer for "ernie". */
    method Init<O>(list: seq<O>, nameOf: O -> string, downcast: O -> Option<U32Objekt>)
      modifies this
      ensures u32Ob == MoleculeObjekt.CloneObjektInList(list, ERNIE, nameOf, downcast)
      ensures nodeA == old(nodeA) && nodeB == old(nodeB) && submittedNodeList == old(submittedNodeList)
    {
      u32Ob := MoleculeObjekt.CloneObjektInList(list, ERNIE, nameOf, downcast);
    }

    function Shared(): set<object>
      reads this
    {
      if u32Ob.Some? then {u32Ob.value.someVal} else {}
    }

    /** `tick`: wait on A, wait on B, halve the shared value unless it is 1, release A, release B. */
    method Tick(nodes: seq<SynchronizationNode>, channels: Channels) returns (outcome: TickOutcome)
      requires nodeA.Some? && nodeB.Some? && nodeA.value < |nodes| && nodeB.value < |nodes|
      requires channels.Valid() && NodesInRange(nodes, |channels.tokens|)
      modifies channels, Shared()
      ensures channels.Valid()
      ensures (channels.tokens, outcome) == TickEffect(old(channels.tokens), nodes, [nodeA.value, nodeB.value], false)
      ensures u32Ob.Some? ==>
        u32Ob.value.someVal.value ==
          if ReachesUpdate(old(channels.tokens), nodes, [nodeA.value, nodeB.value])
          then FlipStep(old(u32Ob.value.someVal.value)) else old(u32Ob.value.someVal.value)
    {
      var a, b := nodeA.value, nodeB.value;
      ghost var order := [a, b];
      ghost var start := channels.tokens;
      var blocked := channels.WaitForParents(nodes[a]);
      if blocked.Some? {
        return BlockedWaiting(a, blocked.value);
      }
      ghost var halfway := channels.tokens;
      assert WaitAll(start, nodes, order, 0) == WaitAll(halfway, nodes, order, 1);
      blocked := channels.WaitForParents(nodes[b]);
      if blocked.Some? {
        return BlockedWaiting(b, blocked.value);
      }
      ghost var waited := channels.tokens;
      assert WaitAll(halfway, nodes, order, 1) == WaitAll(waited, nodes, order, 2) == (waited, None);
      if u32Ob.Some? {
        var cell := u32Ob.value.someVal;
        if cell.value != 1 {
          cell.value := cell.value / 2;
        }
      }
      blocked := channels.ReleaseChildren(nodes[a]);
      if blocked.Some? {
        return BlockedReleasing(a, blocked.value);
      }
      ghost var released := channels.tokens;
      assert ReleaseAll(waited, nodes, order, 0) == ReleaseAll(released, nodes, order, 1);
      blocked := channels.ReleaseChildren(nodes[b]);
      if blocked.Some? {
        return BlockedReleasing(b, blocked.value);
      }
      assert ReleaseAll(released, nodes, order, 1) == ReleaseAll(channels.tokens, nodes, order, 2) == (channels.tokens, None);
      return Continue;
    }
  }

  /** `DoAFlop`. */
  class DoAFlop {
    const name: string
    var nodeA: Option<nat>
    var submittedNodeList: seq<string>
    var u32Ob: Option<U32Objekt>

    /** The literal of `sync_test`: nothing claimed, nothing submitted, no objekt. */
    constructor (name: string)
      ensures this.name == name && nodeA == None && submittedNodeList == [] && u32Ob == None
    {
      this.name := name;
      nodeA := None;
      submittedNodeList := [];
      u32Ob := None;
    }

    function Name(): (r: string)
      ensures r == name
    {
      name
    }

    method PushSubmittedNodeList(name: string)
      modifies this
      ensures submittedNodeList == old(submittedNodeList) + [name]
      ensures nodeA == old(nodeA) && u32Ob == old(u32Ob)
    {
      submittedNodeList := submittedNodeList + [name];
    }

    /** `submit_node`: takes `flop_read_nietzsche` as node A, nothing else. */
    method SubmitNode(node: NodeDecl, runtime: nat) returns (r: SubmissionResult)
      modifies this
      ensures node.name == FLOP_READ_NIETZSCHE ==> r == Success && nodeA == Some(runtime)
      ensures node.name != FLOP_READ_NIETZSCHE ==> r == NotFound && nodeA == old(nodeA)
      ensures submittedNodeList == old(submittedNodeList) && u32Ob == old(u32Ob)
    {
      if node.name == FLOP_READ_NIETZSCHE {
        nodeA := Some(runtime);
      } else {
        return NotFound;
      }
      return Success;
    }

    /** `values_filled`: node A claimed. */
    function ValuesFilled(): (r: bool)
      reads this
      ensures r <==> nodeA.Some?
    {
      match nodeA
      case Some(_) => true
      case _ => false
    }

    /** `init`: keeps the registry's answer for "ernie". */
    method Init<O>(list: seq<O>, nameOf: O -> string, downcast: O -> Option<U32Objekt>)
      modifies this
      ensures u32Ob == MoleculeObjekt.CloneObjektInList(list, ERNIE, nameOf, downcast)
      ensures nodeA == old(nodeA) && submittedNodeList == old(submittedNodeList)
    {
      u32Ob := MoleculeObjekt.CloneObjektInList(list, ERNIE, nameOf, downcast);
    }

    function Shared(): set<object>
      reads this
    {
      if u32Ob.Some? then {u32Ob.value.someVal} else {}
    }

    /** Whether this tick's update would overflow. */
    function Overflows(): bool
      reads this, Shared()
    {
      u32Ob.Some? && FlopStep(u32Ob.value.someVal.value).None?
    }

    /** `tick`: wait on A, add 1 to the shared value unless it is 1, release A. */
    method Tick(nodes: seq<SynchronizationNode>, channels: Channels) returns (outcome: TickOutcome)
      requires nodeA.Some? && nodeA.value < |nodes|
      requires channels.Valid() && NodesInRange(nodes, |channels.tokens|)
      modifies channels, Shared()
      ensures channels.Valid()
      ensures (channels.tokens, outcome) == TickEffect(old(channels.tokens), nodes, [nodeA.value], old(Overflows()))
      ensures u32Ob.Some? ==>
        u32Ob.value.someVal.value ==
          if ReachesUpdate(old(channels.tokens), nodes, [nodeA.value]) && !old(Overflows())
          then FlopStep(old(u32Ob.value.someVal.value)).value else old(u32Ob.value.someVal.value)
    {
      var a := nodeA.value;
      ghost var order := [a];
      ghost var start := channels.tokens;
      var blocked := channels.WaitForParents(nodes[a]);
      if blocked.Some? {
        return BlockedWaiting(a, blocked.value);
      }
      ghost var waited := channels.tokens;
      assert WaitAll(start, nodes, order, 0) == WaitAll(waited, nodes, order, 1) == (waited, None);
      if u32Ob.Some? {
        var cell := u32Ob.value.someVal;
        if cell.value != 1 {
          if cell.value + 1 >= U32_BOUND {
            return Overflowed;
          }
          cell.value := cell.value + 1;
        }
      }
      blocked := channels.ReleaseChildren(nodes[a]);
      if blocked.Some? {
        return BlockedReleasing(a, blocked.value);
      }
      assert ReleaseAll(waited, nodes, order, 0) == ReleaseAll(channels.tokens, nodes, order, 1) == (channels.tokens, None);
      return Continue;
    }
  }

  // The shared value under alternating ticks

  /** One flip tick followed by one flop tick: never overflows, and brings every value above 1 down. */
  function Round(v: u32): (r: u32)
    ensures 2 <= v ==> r < v
    ensures r == 1 <==> v <= 3
    ensures 1 <= r
  {
    FlopStep(FlipStep(v)).value
  }

  /** The shared value after n rounds. */
  function Rounds(v: u32, n: nat): u32
    decreases n
  {
    if n == 0 then v else Rounds(Round(v), n - 1)
  }

  /** 1 is a fixpoint of both updates, and 0 of the flip update. */
  lemma UpdateFixpoints()
    ensures FlipStep(1) == 1 && FlopStep(1) == Some(1) && FlipStep(0) == 0
  {
  }

  /** The flip update shrinks every value other than 0 and 1. */
  lemma FlipShrinks(v: u32)
    ensures 2 <= v ==> FlipStep(v) < v
    ensures FlipStep(v) <= v
  {
  }

  lemma {:induction false} OneStays(n: nat)
    ensures Rounds(1, n) == 1
  {
    if n > 0 {
      OneStays(n - 1);
    }
  }

  /** Alternating ticks bring any shared value to 1 within max(v, 1) rounds, and keep it there. */
  lemma {:induction false} RoundsReachOne(v: u32, n: nat)
    requires 1 <= n && v <= n
    ensures Rounds(v, n) == 1
  {
    if v <= 3 {
      OneStays(n - 1);
    } else {
      RoundsReachOne(Round(v), n - 1);
    }
  }

  /** From the example's start value 11: 11, 6, 4, 3, 1 after rounds 0 to 4. */
  lemma ErnieTrace()
    ensures Rounds(11, 1) == 6 && Rounds(11, 2) == 4 && Rounds(11, 3) == 3 && Rounds(11, 4) == 1
  {
  }
}
