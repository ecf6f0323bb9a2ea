/**
 * `SynchronizationGraphTemplate` and the `SynchronizationDependent` protocol
 * (src/concurrency/synchronization_graph.rs).
 *
 * The template holds the registered nodes (as `NodeDecl` values, in
 * registration order) and the registered dependents. A dependent is one of
 * the claimants the engine and its examples define; `Dependent` dispatches to
 * it. Seen through the trait, a dependent has claim slots, one per node name
 * it wants (`Wanted`, `Claims`): `submit_node` fills every slot whose name is
 * the offered node's, and `values_filled` holds when every slot is filled.
 */
module SyncGraph {
  import opened Wrappers
  import opened SyncNodes
  import opened SyncWiring
  import opened SyncTasksBasics
  import opened TaskControlling

  /** A registered dependent. */
  datatype Dependent = Flip(flip: DoAFlip) | Flop(flop: DoAFlop) | Control(control: Controlling)

  /** The object behind a dependent. */
  function Target(d: Dependent): object
  {
    match d
    case Flip(f) => f
    case Flop(f) => f
    case Control(c) => c
  }

  function Targets(deps: seq<Dependent>): set<object>
  {
    set d | d in deps :: Target(d)
  }

  /** `SynchronizationDependent::name`. */
  function Name(d: Dependent): string
  {
    match d
    case Flip(f) => f.Name()
    case Flop(f) => f.Name()
    case Control(c) => c.Name()
  }

  /** The node names a dependent's `submit_node` accepts, one per claim slot. */
  function Wanted(d: Dependent): seq<string>
  {
    match d
    case Flip(_) => [FLIP_PREPARE, FLIP_BREAK_NECK]
    case Flop(_) => [FLOP_READ_NIETZSCHE]
    case Control(_) => []
  }

  /**
   * What a dependent holds, seen through the trait: its claim slots (the
   * runtime node each wanted name was given, if any), its
   * `submitted_node_list` and the registry objekt it holds, if any.
   */
  datatype Holding = Holding(claims: seq<Option<nat>>, submitted: seq<string>, objekt: Option<U32Objekt>)

  function State(d: Dependent): (r: Holding)
    reads Target(d)
    ensures |r.claims| == |Wanted(d)|
  {
    match d
    case Flip(f) => Holding([f.nodeA, f.nodeB], f.submittedNodeList, f.u32Ob)
    case Flop(f) => Holding([f.nodeA], f.submittedNodeList, f.u32Ob)
    case Control(c) => Holding([], c.submittedNodeList, None)
  }

  function Claims(d: Dependent): (r: seq<Option<nat>>)
    reads Target(d)
    ensures |r| == |Wanted(d)|
  {
    State(d).claims
  }

  function Submitted(d: Dependent): seq<string>
    reads Target(d)
  {
    State(d).submitted
  }

  function Objekt(d: Dependent): Option<U32Objekt>
    reads Target(d)
  {
    State(d).objekt
  }

  /** `values_filled` holds exactly when every claim slot is filled. */
  function ValuesFilled(d: Dependent): (r: bool)
    reads Target(d)
    ensures r <==> forall s :: 0 <= s < |Claims(d)| ==> Claims(d)[s].Some?
  {
    match d
    case Flip(f) =>
      assert Claims(d)[0] == f.nodeA && Claims(d)[1] == f.nodeB;
      f.ValuesFilled()
    case Flop(f) =>
      assert Claims(d)[0] == f.nodeA;
      f.ValuesFilled()
    case Control(c) => c.ValuesFilled()
  }

  /** The slots after `node` is offered under `name`: every slot wanting that name takes it. */
  ghost function Claim(claims: seq<Option<nat>>, wanted: seq<string>, name: string, node: nat): (r: seq<Option<nat>>)
    requires |claims| == |wanted|
    ensures |r| == |claims|
  {
    seq(|claims|, s requires 0 <= s < |claims| => if wanted[s] == name then Some(node) else claims[s])
  }

  /**
   * `submit_node`, through the trait: it succeeds exactly when the node's name
   * is wanted, fills the slots wanting it and changes nothing else.
   */
  method SubmitNode(d: Dependent, node: NodeDecl, runtime: nat) returns (r: SubmissionResult)
    modifies Target(d)
    ensures r == if node.name in Wanted(d) then Success else NotFound
    ensures Claims(d) == Claim(old(Claims(d)), Wanted(d), node.name, runtime)
    ensures Submitted(d) == old(Submitted(d)) && Objekt(d) == old(Objekt(d))
  {
    match d
    case Flip(f) =>
      assert FLIP_PREPARE[5] != FLIP_BREAK_NECK[5];
      r := f.SubmitNode(node, runtime);
    case Flop(f) =>
      r := f.SubmitNode(node, runtime);
    case Control(c) =>
      r := c.SubmitNode(node);
  }

  /** `push_submitted_node_list`, through the trait. */
  method PushSubmitted(d: Dependent, name: string)
    modifies Target(d)
    ensures Submitted(d) == old(Submitted(d)) + [name]
    ensures Claims(d) == old(Claims(d)) && Objekt(d) == old(Objekt(d))
  {
    match d
    case Flip(f) => f.PushSubmittedNodeList(name);
    case Flop(f) => f.PushSubmittedNodeList(name);
    case Control(c) => c.PushSubmittedNodeList(name);
  }

  /** The names `submit_nodes` pushes after offering every node from the last one down to node k. */
  function OfferedAbove(decls: seq<NodeDecl>, wanted: seq<string>, k: nat): seq<string>
    requires k <= |decls|
    decreases |decls| - k
  {
    if k == |decls| then []
    else OfferedAbove(decls, wanted, k + 1) + if decls[k].name in wanted then [decls[k].name] else []
  }

  /** The first node from k on named `name`. */
  function LowestNamed(decls: seq<NodeDecl>, name: string, k: nat): (r: Option<nat>)
    requires k <= |decls|
    ensures r.Some? ==> k <= r.value < |decls| && decls[r.value].name == name
    ensures r.Some? ==> forall m :: k <= m < r.value ==> decls[m].name != name
    ensures r.None? ==> forall m :: k <= m < |decls| ==> decls[m].name != name
    decreases |decls| - k
  {
    if k == |decls| then None
    else if decls[k].name == name then Some(k)
    else LowestNamed(decls, name, k + 1)
  }

  /** The slots after every node from the last one down to node k was offered: the lowest such node wins. */
  ghost function ClaimsAfter(decls: seq<NodeDecl>, wanted: seq<string>, claims: seq<Option<nat>>, k: nat): (r: seq<Option<nat>>)
    requires |claims| == |wanted| && k <= |decls|
    ensures |r| == |claims|
  {
    seq(|claims|, s requires 0 <= s < |claims| =>
      if LowestNamed(decls, wanted[s], k).Some? then LowestNamed(decls, wanted[s], k) else claims[s])
  }

  lemma ClaimsAfterStep(decls: seq<NodeDecl>, wanted: seq<string>, claims: seq<Option<nat>>, k: nat)
    requires |claims| == |wanted| && 0 < k <= |decls|
    ensures ClaimsAfter(decls, wanted, claims, k - 1) ==
      Claim(ClaimsAfter(decls, wanted, claims, k), wanted, decls[k - 1].name, k - 1)
  {
  }

  /**
   * `submit_nodes`: offers every node, last registered first, and pushes the
   * name of each node the dependent accepts. Each slot ends with the lowest
   * node of its name, or keeps its claim when there is none.
   */
  method SubmitNodes(d: Dependent, decls: seq<NodeDecl>)
    modifies Target(d)
    ensures Submitted(d) == old(Submitted(d)) + OfferedAbove(decls, Wanted(d), 0)
    ensures Claims(d) == ClaimsAfter(decls, Wanted(d), old(Claims(d)), 0)
    ensures Objekt(d) == old(Objekt(d))
  {
    ghost var claims0 := Claims(d);
    ghost var submitted0 := Submitted(d);
    ghost var wanted := Wanted(d);
    var k := |decls|;
    assert Claims(d) == ClaimsAfter(decls, wanted, claims0, k);
    while k > 0
      invariant 0 <= k <= |decls|
      invariant Submitted(d) == submitted0 + OfferedAbove(decls, wanted, k)
      invariant Claims(d) == ClaimsAfter(decls, wanted, claims0, k)
      invariant Objekt(d) == old(Objekt(d))
    {
      k := k - 1;
      ClaimsAfterStep(decls, wanted, claims0, k + 1);
      ghost var offered := OfferedAbove(decls, wanted, k + 1);
      var result := SubmitNode(d, decls[k], k);
      assert Claims(d) == ClaimsAfter(decls, wanted, claims0, k);
      if result == Success {
        PushSubmitted(d, decls[k].name);
        assert OfferedAbove(decls, wanted, k) == offered + [decls[k].name];
      } else {
        assert OfferedAbove(decls, wanted, k) == offered;
      }
    }
  }

  /** The names of the nodes a dependent accepts, in registration order. */
  function Accepted(decls: seq<NodeDecl>, wanted: seq<string>): seq<string>
  {
    if |decls| == 0 then []
    else (if decls[0].name in wanted then [decls[0].name] else []) + Accepted(decls[1..], wanted)
  }

  function Reverse<T>(s: seq<T>): seq<T>
  {
    if |s| == 0 then [] else Reverse(s[1..]) + [s[0]]
  }

  lemma {:induction false} ReverseAppend<T>(a: seq<T>, b: seq<T>)
    ensures Reverse(a + b) == Reverse(b) + Reverse(a)
    decreases |a|
  {
    if |a| == 0 {
      assert a + b == b;
    } else {
      assert (a + b)[1..] == a[1..] + b;
      ReverseAppend(a[1..], b);
    }
  }

  lemma {:induction false} OfferedAboveReversed(decls: seq<NodeDecl>, wanted: seq<string>, k: nat)
    requires k <= |decls|
    ensures OfferedAbove(decls, wanted, k) == Reverse(Accepted(decls[k..], wanted))
    decreases |decls| - k
  {
    if k < |decls| {
      OfferedAboveReversed(decls, wanted, k + 1);
      var head := if decls[k].name in wanted then [decls[k].name] else [];
      assert decls[k..][1..] == decls[k + 1..];
      ReverseAppend(head, Accepted(decls[k + 1..], wanted));
      assert Reverse(head) == head;
    }
  }

  /** The submitted list grows by the accepted names in reverse registration order. */
  lemma SubmittedInReverseOrder(decls: seq<NodeDecl>, wanted: seq<string>)
    ensures OfferedAbove(decls, wanted, 0) == Reverse(Accepted(decls, wanted))
  {
    OfferedAboveReversed(decls, wanted, 0);
    assert decls[0..] == decls;
  }

  /** A dependent that wants no name, such as `Controlling`, gets nothing pushed. */
  lemma {:induction false} NothingWantedNothingOffered(decls: seq<NodeDecl>, k: nat)
    requires k <= |decls|
    ensures OfferedAbove(decls, [], k) == []
    decreases |decls| - k
  {
    if k < |decls| {
      NothingWantedNothingOffered(decls, k + 1);
    }
  }

  /** After `submit_nodes` every slot is filled exactly when it was, or some node carries its name. */
  lemma FilledAfterSubmit(decls: seq<NodeDecl>, wanted: seq<string>, claims: seq<Option<nat>>)
    requires |claims| == |wanted|
    ensures (forall s :: 0 <= s < |claims| ==> ClaimsAfter(decls, wanted, claims, 0)[s].Some?) <==>
      forall s :: 0 <= s < |claims| ==> claims[s].Some? || exists m :: 0 <= m < |decls| && decls[m].name == wanted[s]
  {
    forall s | 0 <= s < |claims|
      ensures ClaimsAfter(decls, wanted, claims, 0)[s].Some? <==>
        claims[s].Some? || exists m :: 0 <= m < |decls| && decls[m].name == wanted[s]
    {
      var lowest := LowestNamed(decls, wanted[s], 0);
      if lowest.Some? {
        assert decls[lowest.value].name == wanted[s];
      }
    }
  }

  /** What `submit_nodes` leaves in the slots' place: a runtime node of the wanted name. */
  lemma ClaimsAfterNames(decls: seq<NodeDecl>, wanted: seq<string>, claims: seq<Option<nat>>, s: nat)
    requires |claims| == |wanted| && s < |claims|
    ensures var c := ClaimsAfter(decls, wanted, claims, 0)[s];
      c != claims[s] ==> c.Some? && c.value < |decls| && decls[c.value].name == wanted[s]
  {
  }

  // Build errors

  function DuplicateMessage(name: string): string
  {
    "Dependency name " + name + " is used more than once."
  }

  /** The submitted names, concatenated without a separator. */
  function Concat(names: seq<string>): string
  {
    if |names| == 0 then "" else Concat(names[..|names| - 1]) + names[|names| - 1]
  }

  /** One more name at the end adds exactly that name. */
  lemma ConcatSnoc(names: seq<string>, x: string)
    ensures Concat(names + [x]) == Concat(names) + x
  {
    assert (names + [x])[..|names|] == names;
  }

  lemma {:induction false} ConcatAppend(a: seq<string>, b: seq<string>)
    ensures Concat(a + b) == Concat(a) + Concat(b)
    decreases |b|
  {
    if |b| == 0 {
      assert a + b == a;
    } else {
      var init, x := b[..|b| - 1], b[|b| - 1];
      assert b == init + [x];
      assert a + b == (a + init) + [x];
      ConcatSnoc(a + init, x);
      ConcatSnoc(init, x);
      ConcatAppend(a, init);
    }
  }

  /** The loop that builds `list_str`. */
  method JoinNames(names: seq<string>) returns (s: string)
    ensures s == Concat(names)
  {
    s := "";
    var k := 0;
    while k < |names|
      invariant 0 <= k <= |names| && s == Concat(names[..k])
    {
      assert names[..k + 1][..k] == names[..k];
      s := s + names[k];
      k := k + 1;
    }
    assert names[..|names|] == names;
  }

  function UnfilledMessage(name: string, submitted: seq<string>): string
  {
    "Dependency " + name + " could not find all necessary nodes. Submitted nodes were: " + Concat(submitted)
  }

  /** What a successful build hands to the executor: the runtime nodes, their edges and the tasks. */
  datatype Executor = Executor(nodes: seq<SynchronizationNode>, channels: Channels, tasks: seq<Dependent>)

  ghost predicate DistinctNames(deps: seq<Dependent>)
  {
    forall a, b :: 0 <= a < b < |deps| ==> Name(deps[a]) != Name(deps[b])
  }

  /** Two dependents on the same object carry the same name. */
  lemma SameTargetSameName(d: Dependent, e: Dependent)
    requires Target(d) == Target(e)
    ensures Name(d) == Name(e)
  {
  }

  /** Distinct names mean distinct objects, so claiming for one dependent leaves the others alone. */
  lemma DistinctNamesDistinctTargets(deps: seq<Dependent>, a: nat, b: nat)
    requires DistinctNames(deps) && a < |deps| && b < |deps| && a != b
    ensures Target(deps[a]) != Target(deps[b])
  {
    if Target(deps[a]) == Target(deps[b]) {
      SameTargetSameName(deps[a], deps[b]);
    }
  }

  /** What offering every node of `decls` leaves with a dependent, as `SubmitNodes` describes. */
  ghost function AfterOffer(decls: seq<NodeDecl>, d: Dependent, h: Holding): Holding
    requires |h.claims| == |Wanted(d)|
  {
    Holding(ClaimsAfter(decls, Wanted(d), h.claims, 0), h.submitted + OfferedAbove(decls, Wanted(d), 0), h.objekt)
  }

  /** Would a dependent holding `h` be filled once offered every node of `decls`? */
  ghost predicate FilledWith(decls: seq<NodeDecl>, d: Dependent, h: Holding)
    requires |h.claims| == |Wanted(d)|
  {
    forall s :: 0 <= s < |h.claims| ==> ClaimsAfter(decls, Wanted(d), h.claims, 0)[s].Some?
  }

  /** Holdings that fit their dependents' claim slots. */
  ghost predicate Fits(deps: seq<Dependent>, hs: seq<Holding>)
  {
    |hs| == |deps| && forall m :: 0 <= m < |deps| ==> |hs[m].claims| == |Wanted(deps[m])|
  }

  /** What every dependent holds now. */
  ghost function States(deps: seq<Dependent>): (r: seq<Holding>)
    reads Targets(deps)
    ensures Fits(deps, r) && forall m :: 0 <= m < |deps| ==> r[m] == State(deps[m])
  {
    seq(|deps|, m requires 0 <= m < |deps| reads Targets(deps) => State(deps[m]))
  }

  /**
   * The position of the first dependent, from k on, that would be left
   * unfilled once offered every node, or the number of dependents.
   */
  ghost function FirstUnfilled(decls: seq<NodeDecl>, deps: seq<Dependent>, hs: seq<Holding>, k: nat): nat
    requires Fits(deps, hs) && k <= |deps|
    decreases |deps| - k
  {
    if k == |deps| then k
    else if !FilledWith(decls, deps[k], hs[k]) then k
    else FirstUnfilled(decls, deps, hs, k + 1)
  }

  /** The holdings after the claim loop ran up to and including dependent `stop`; later ones keep theirs. */
  ghost function Claimed(decls: seq<NodeDecl>, deps: seq<Dependent>, hs: seq<Holding>, stop: nat): (r: seq<Holding>)
    requires Fits(deps, hs)
    ensures Fits(deps, r)
  {
    seq(|deps|, m requires 0 <= m < |deps| => if m <= stop then AfterOffer(decls, deps[m], hs[m]) else hs[m])
  }

  /** The claim loop stops at the first unfilled dependent: all before it are filled, it is not. */
  lemma {:induction false} FirstUnfilledStops(decls: seq<NodeDecl>, deps: seq<Dependent>, hs: seq<Holding>, k: nat)
    requires Fits(deps, hs) && k <= |deps|
    ensures var stop := FirstUnfilled(decls, deps, hs, k);
      && k <= stop <= |deps|
      && (forall m :: k <= m < stop ==> FilledWith(decls, deps[m], hs[m]))
      && (stop < |deps| ==> !FilledWith(decls, deps[stop], hs[stop]))
    decreases |deps| - k
  {
    if k < |deps| && FilledWith(decls, deps[k], hs[k]) {
      FirstUnfilledStops(decls, deps, hs, k + 1);
    }
  }

  /** The build goes through exactly when every dependent would be filled. */
  lemma AllFilledIff(decls: seq<NodeDecl>, deps: seq<Dependent>, hs: seq<Holding>)
    requires Fits(deps, hs)
    ensures FirstUnfilled(decls, deps, hs, 0) == |deps| <==>
      forall m :: 0 <= m < |deps| ==> FilledWith(decls, deps[m], hs[m])
  {
    FirstUnfilledStops(decls, deps, hs, 0);
  }

  /** Conversely, a position with every dependent before it filled and itself unfilled (or the end) is the stop. */
  lemma {:induction false} FirstUnfilledIs(decls: seq<NodeDecl>, deps: seq<Dependent>, hs: seq<Holding>, k: nat, stop: nat)
    requires Fits(deps, hs) && k <= stop <= |deps|
    requires forall m :: k <= m < stop ==> FilledWith(decls, deps[m], hs[m])
    requires stop < |deps| ==> !FilledWith(decls, deps[stop], hs[stop])
    ensures FirstUnfilled(decls, deps, hs, k) == stop
    decreases stop - k
  {
    if k < stop {
      FirstUnfilledIs(decls, deps, hs, k + 1, stop);
    }
  }

  /** A dependent offered every node is filled exactly as `FilledWith` predicts. */
  lemma FilledOnceOffered(decls: seq<NodeDecl>, d: Dependent, h: Holding)
    requires |h.claims| == |Wanted(d)|
    ensures (forall s :: 0 <= s < |h.claims| ==> AfterOffer(decls, d, h).claims[s].Some?) <==> FilledWith(decls, d, h)
  {
    assert AfterOffer(decls, d, h).claims == ClaimsAfter(decls, Wanted(d), h.claims, 0);
  }

  /** One turn of the claim loop: dependent k is offered every node and asked whether it is filled. */
  method OfferOne(deps: seq<Dependent>, decls: seq<NodeDecl>, k: nat) returns (filled: bool)
    requires DistinctNames(deps) && k < |deps|
    modifies Target(deps[k])
    ensures State(deps[k]) == AfterOffer(decls, deps[k], old(State(deps[k])))
    ensures forall m :: 0 <= m < |deps| && m != k ==> State(deps[m]) == old(State(deps[m]))
    ensures filled <==> FilledWith(decls, deps[k], old(State(deps[k])))
  {
    var dependent := deps[k];
    SubmitNodes(dependent, decls);
    forall m | 0 <= m < |deps| && m != k
      ensures Target(deps[m]) != Target(dependent)
    {
      DistinctNamesDistinctTargets(deps, m, k);
    }
    FilledOnceOffered(decls, dependent, old(State(dependent)));
    filled := ValuesFilled(dependent);
  }

  /**
   * The claim loop of `build_and_submit`: each dependent in turn is offered
   * every node, until one is left unfilled; returns its position, or the
   * number of dependents when all were filled.
   */
  method ClaimInOrder(deps: seq<Dependent>, decls: seq<NodeDecl>) returns (stop: nat)
    requires DistinctNames(deps)
    modifies Targets(deps)
    ensures stop == FirstUnfilled(decls, deps, old(States(deps)), 0)
    ensures States(deps) == Claimed(decls, deps, old(States(deps)), stop)
  {
    ghost var start := States(deps);
    stop := 0;
    while stop < |deps|
      invariant 0 <= stop <= |deps|
      invariant forall m :: 0 <= m < stop ==> FilledWith(decls, deps[m], start[m])
      invariant forall m :: 0 <= m < stop ==> State(deps[m]) == AfterOffer(decls, deps[m], start[m])
      invariant forall m :: stop <= m < |deps| ==> State(deps[m]) == start[m]
    {
      var filled := OfferOne(deps, decls, stop);
      if !filled {
        FirstUnfilledIs(decls, deps, start, 0, stop);
        assert States(deps) == Claimed(decls, deps, start, stop);
        return;
      }
      stop := stop + 1;
    }
    FirstUnfilledIs(decls, deps, start, 0, stop);
    assert States(deps) == Claimed(decls, deps, start, stop);
  }

  /**
   * The outcome of the claim loop of `build_and_submit` on holdings `before`:
   * the dependents up to the first unfilled one were offered every node, the
   * later ones were not; the build fails naming that dependent and the nodes
   * it accepted, or, when every dependent is filled, hands the runtime nodes
   * and the dependents to the executor.
   */
  ghost predicate ClaimOutcome(decls: seq<NodeDecl>, deps: seq<Dependent>, wiring: Wiring,
                              before: seq<Holding>, after: seq<Holding>, r: Result<Executor>)
    requires Fits(deps, before)
  {
    var stop := FirstUnfilled(decls, deps, before, 0);
    && after == Claimed(decls, deps, before, stop)
    && (stop < |deps| ==> r == Err(UnfilledMessage(Name(deps[stop]), after[stop].submitted)))
    && (stop == |deps| ==> r.Ok? && r.value.nodes == wiring.nodes && r.value.tasks == deps)
  }

  /** The error `build_and_submit` returns for an unfilled dependent; it changes no dependent. */
  method Report(deps: seq<Dependent>, stop: nat) returns (r: Result<Executor>)
    requires stop < |deps|
    ensures r == Err(UnfilledMessage(Name(deps[stop]), Submitted(deps[stop])))
    ensures States(deps) == old(States(deps))
  {
    var dependent := deps[stop];
    var listStr := JoinNames(Submitted(dependent));
    assert forall m :: 0 <= m < |deps| ==> State(deps[m]) == old(State(deps[m]));
    return Err("Dependency " + Name(dependent) + " could not find all necessary nodes. Submitted nodes were: " + listStr);
  }

  /** The executor `build_and_submit` returns once every dependent is filled; it changes no dependent. */
  method Launch(deps: seq<Dependent>, wiring: Wiring) returns (r: Result<Executor>)
    ensures r.Ok? && r.value.nodes == wiring.nodes && r.value.tasks == deps
    ensures fresh(r.value.channels) && r.value.channels.tokens == InitialTokens(wiring.edges)
    ensures States(deps) == old(States(deps))
  {
    var channels := new Channels(InitialTokens(wiring.edges));
    assert forall m :: 0 <= m < |deps| ==> State(deps[m]) == old(State(deps[m]));
    return Ok(Executor(wiring.nodes, channels, deps));
  }

  /** The claim loop of `build_and_submit`, run once the graph is wired. */
  method SubmitAll(deps: seq<Dependent>, decls: seq<NodeDecl>, wiring: Wiring) returns (r: Result<Executor>)
    requires DistinctNames(deps)
    modifies Targets(deps)
    ensures ClaimOutcome(decls, deps, wiring, old(States(deps)), States(deps), r)
    ensures r.Ok? ==> fresh(r.value.channels) && r.value.channels.tokens == InitialTokens(wiring.edges)
  {
    var stop := ClaimInOrder(deps, decls);
    if stop < |deps| {
      r := Report(deps, stop);
    } else {
      r := Launch(deps, wiring);
    }
  }

  /** A graph template is never one of its own dependents. */
  lemma NotATarget(deps: seq<Dependent>, graph: SynchronizationGraphTemplate)
    ensures graph !in Targets(deps)
  {
  }

  /** `SynchronizationGraphTemplate`. */
  class SynchronizationGraphTemplate {
    var nodes: seq<NodeDecl>
    var requiredBy: seq<Dependent>

    /** Node names and dependent names are unique, as `push_node` and `push_dependency` ensure. */
    ghost predicate Valid()
      reads this
    {
      UniqueNames(nodes) && DistinctNames(requiredBy)
    }

    /** `SynchronizationGraphTemplate::default()`. */
    constructor ()
      ensures nodes == [] && requiredBy == [] && Valid()
    {
      nodes := [];
      requiredBy := [];
    }

    /** `push_node`: rejects a node whose name is taken, else appends it. */
    method PushNode(node: TemplateSynchronizationNode) returns (r: Result<()>)
      requires Valid()
      modifies this
      ensures Valid() && requiredBy == old(requiredBy)
      ensures (exists k :: 0 <= k < |old(nodes)| && old(nodes)[k].name == node.name) ==>
        r == Err(DuplicateMessage(node.name)) && nodes == old(nodes)
      ensures (forall k :: 0 <= k < |old(nodes)| ==> old(nodes)[k].name != node.name) ==>
        r == Ok(()) && nodes == old(nodes) + [node.Decl()]
    {
      var k := 0;
      while k < |nodes|
        invariant 0 <= k <= |nodes|
        invariant forall m :: 0 <= m < k ==> nodes[m].name != node.name
      {
        if nodes[k].name == node.name {
          return Err(DuplicateMessage(node.name));
        }
        k := k + 1;
      }
      nodes := nodes + [node.Decl()];
      return Ok(());
    }

    /** `push_dependency`: rejects a dependent whose name is taken, else appends it. */
    method PushDependency(requirement: Dependent) returns (r: Result<()>)
      requires Valid()
      modifies this
      ensures Valid() && nodes == old(nodes)
      ensures (exists k :: 0 <= k < |old(requiredBy)| && Name(old(requiredBy)[k]) == Name(requirement)) ==>
        r == Err(DuplicateMessage(Name(requirement))) && requiredBy == old(requiredBy)
      ensures (forall k :: 0 <= k < |old(requiredBy)| ==> Name(old(requiredBy)[k]) != Name(requirement)) ==>
        r == Ok(()) && requiredBy == old(requiredBy) + [requirement]
    {
      var k := 0;
      while k < |requiredBy|
        invariant 0 <= k <= |requiredBy|
        invariant forall m :: 0 <= m < k ==> Name(requiredBy[m]) != Name(requirement)
      {
        if Name(requiredBy[k]) == Name(requirement) {
          return Err(DuplicateMessage(Name(requirement)));
        }
        k := k + 1;
      }
      requiredBy := requiredBy + [requirement];
      return Ok(());
    }

    /**
     * `build_and_submit`: wires the graph, then lets each dependent, in
     * registration order, claim nodes, stopping at the first one left
     * unfilled; on success the edges start with their initial tokens.
     */
    method BuildAndSubmit(entrypoints: seq<string>) returns (r: Result<Executor>)
      requires Valid()
      modifies Targets(requiredBy)
      ensures WireAll(nodes, entrypoints).error.Some? ==>
        r == Err(Message(WireAll(nodes, entrypoints).error.value)) && unchanged(Targets(requiredBy))
      ensures WireAll(nodes, entrypoints).error.None? ==>
        ClaimOutcome(nodes, requiredBy, WireAll(nodes, entrypoints).wiring, old(States(requiredBy)), States(requiredBy), r)
      ensures r.Ok? ==>
        fresh(r.value.channels) && r.value.channels.tokens == InitialTokens(WireAll(nodes, entrypoints).wiring.edges)
    {
      var decls, deps := nodes, requiredBy;
      var wired := Wire(decls, entrypoints);
      if wired.error.Some? {
        return Err(Message(wired.error.value));
      }
      assert forall m :: 0 <= m < |deps| ==> State(deps[m]) == old(State(deps[m]));
      assert States(deps) == old(States(deps));
      NotATarget(deps, this);
      r := SubmitAll(deps, decls, wired.wiring);
    }
  }
}
