/**
 * The intersection hook of src/hooks/use-intersection.tsx. `setRef` is memoised
 * with an empty dependency list, so the closure keeps the `observer` variable of
 * the first render for the hook's whole life; together with `ref.current` and the
 * `entry` state it forms the state that each call and each observer callback updates.
 * DOM elements and observers are identified by number; `IntersectionObserver`
 * availability is a property of the runtime, fixed when the hook is created.
 */
module Intersection {
  import opened Wrappers

  /** A DOM element, by identity. */
  type NodeId = nat

  /** An `IntersectionObserver` instance, by identity. */
  type ObserverId = nat

  /**
   * An `IntersectionObserverEntry`: every delivery creates a new object, so `serial`
   * stands for its identity; its geometry is reduced to `isIntersecting`.
   */
  datatype Entry = Entry(serial: nat, target: NodeId, isIntersecting: bool)

  /** The hook's state as a value. */
  datatype HookState = HookState(
    current: Option<NodeId>,          // ref.current
    observer: Option<ObserverId>,     // the `observer` variable captured by setRef
    entry: Option<Entry>,             // the `entry` state; None is `null`
    nextObserver: ObserverId,         // identity the next `new IntersectionObserver` receives
    live: set<ObserverId>,            // observers created and not yet disconnected
    targets: map<ObserverId, NodeId>) // the element each created observer observes

  /** Every observer the state mentions has been allocated, and every live one observes something. */
  predicate WellFormed(s: HookState) {
    && (forall o :: o in s.live ==> o < s.nextObserver)
    && (s.observer.Some? ==> s.observer.value < s.nextObserver)
    && s.live <= s.targets.Keys
  }

  /** The state of a freshly mounted hook: no element, no observer, `entry` null. */
  const Initial := HookState(None, None, None, 0, {}, map[])

  /** Lines 11-13: the captured observer is disconnected when a previous element exists, the new one differs from it and an observer exists. */
  predicate Disconnects(s: HookState, node: Option<NodeId>) {
    s.current.Some? && node != s.current && s.observer.Some?
  }

  /** Line 16: an observer is created for a non-null element when `IntersectionObserver` is available. */
  predicate Creates(node: Option<NodeId>, available: bool) {
    node.Some? && available
  }

  /** Lines 10-24: one call of `setRef(node)`. */
  function SetRefStep(s: HookState, node: Option<NodeId>, available: bool): (t: HookState)
    ensures WellFormed(s) ==> WellFormed(t)
  {
    var live := if Disconnects(s, node) then s.live - {s.observer.value} else s.live;
    if Creates(node, available) then
      HookState(node, Some(s.nextObserver), s.entry, s.nextObserver + 1,
                live + {s.nextObserver}, s.targets[s.nextObserver := node.value])
    else
      HookState(node, s.observer, s.entry, s.nextObserver, live, s.targets)
  }

  /** Lines 17-19: one delivery of the handler of a live observer, `setEntry(entries[0])`. */
  function ObserveStep(s: HookState, o: ObserverId, entries: seq<Entry>): (t: HookState)
    requires o in s.live && |entries| > 0
  {
    s.(entry := Some(entries[0]))
  }

  /** A sequence of `setRef` calls, in order. */
  function SetRefAll(s: HookState, nodes: seq<Option<NodeId>>, available: bool): HookState
    decreases |nodes|
  {
    if nodes == [] then s else SetRefAll(SetRefStep(s, nodes[0], available), nodes[1..], available)
  }

  /** At most one observer is live, it is the captured one, and it observes `ref.current`. */
  predicate SingleObserver(s: HookState) {
    && (s.live == {} || (s.observer.Some? && s.live == {s.observer.value}))
    && (s.live != {} ==> s.current.Some? && s.observer.value in s.targets
                         && s.targets[s.observer.value] == s.current.value)
  }

  /** No call passes the element that is already `ref.current` (null may repeat). */
  predicate NoRepeatedNode(current: Option<NodeId>, nodes: seq<Option<NodeId>>) {
    && (|nodes| > 0 ==> nodes[0].None? || nodes[0] != current)
    && (forall i :: 0 < i < |nodes| ==> nodes[i].None? || nodes[i] != nodes[i - 1])
  }

  // ---------------------------------------------------------------- lemmas

  /** `ref.current` becomes the given node on every call, null included, and `entry` is never touched by `setRef`. */
  lemma SetRefAssignsCurrent(s: HookState, node: Option<NodeId>, available: bool)
    ensures SetRefStep(s, node, available).current == node
    ensures SetRefStep(s, node, available).entry == s.entry
  {
  }

  /** A new observer is created, observes the node and becomes the captured one iff the node is non-null and the API is available. */
  lemma SetRefCreatesIff(s: HookState, node: Option<NodeId>, available: bool)
    requires WellFormed(s)
    ensures var t := SetRefStep(s, node, available);
      (t.nextObserver == s.nextObserver + 1 <==> node.Some? && available)
      && (t.nextObserver == s.nextObserver <==> !(node.Some? && available))
      && (node.Some? && available ==>
            t.observer == Some(s.nextObserver) && s.nextObserver in t.live
            && t.targets[s.nextObserver] == node.value && s.nextObserver !in s.live)
      && (!(node.Some? && available) ==> t.observer == s.observer && t.live <= s.live)
  {
  }

  /** A live captured observer is disconnected iff a previous element exists and the new node differs from it; no other observer is touched. */
  lemma SetRefDisconnectsIff(s: HookState, node: Option<NodeId>, available: bool)
    requires WellFormed(s) && s.observer.Some? && s.observer.value in s.live
    ensures var t := SetRefStep(s, node, available);
      (s.observer.value !in t.live <==> s.current.Some? && node != s.current)
      && (forall o :: o in s.live && o != s.observer.value ==> o in t.live)
  {
  }

  /** Detaching (`setRef(null)`) after an element: the old observer is disconnected and nothing is created. */
  lemma DetachDisconnects(s: HookState, available: bool)
    requires WellFormed(s) && s.current.Some? && s.observer.Some?
    ensures var t := SetRefStep(s, None, available);
      t.live == s.live - {s.observer.value} && t.observer == s.observer
      && t.nextObserver == s.nextObserver && t.current == None
  {
  }

  /** Calling again with the same element keeps the old observer live and adds another: the live count grows by one. */
  lemma SameNodeLeaksObserver(s: HookState, available: bool)
    requires WellFormed(s) && s.current.Some? && available
    ensures var t := SetRefStep(s, s.current, available);
      s.live < t.live && |t.live| == |s.live| + 1
  {
    var t := SetRefStep(s, s.current, available);
    assert s.nextObserver !in s.live;
    assert t.live == s.live + {s.nextObserver};
  }

  /** From a single-observer state, a call with a different element (or null) keeps at most one observer live. */
  lemma SingleObserverPreserved(s: HookState, node: Option<NodeId>, available: bool)
    requires WellFormed(s) && SingleObserver(s)
    requires node.None? || node != s.current
    ensures SingleObserver(SetRefStep(s, node, available))
  {
  }

  /** Repeating the same element twice in a row breaks the single-observer property that holds otherwise. */
  lemma SameNodeTwiceHasTwoObservers(n: NodeId)
    ensures var t := SetRefAll(Initial, [Some(n), Some(n)], true);
      t.live == {0, 1} && !SingleObserver(t)
  {
    var t1 := SetRefStep(Initial, Some(n), true);
    assert t1.live == {0};
    assert [Some(n), Some(n)][1..] == [Some(n)];
    var t2 := SetRefStep(t1, Some(n), true);
    assert t2.live == {0, 1};
    assert SetRefAll(Initial, [Some(n), Some(n)], true) == SetRefAll(t1, [Some(n)], true);
    assert SetRefAll(t1, [Some(n)], true) == SetRefAll(t2, [], true);
  }

  /** Any sequence of calls that never repeats the current element keeps at most one observer live. */
  lemma {:induction false} SingleObserverAlong(s: HookState, nodes: seq<Option<NodeId>>, available: bool)
    requires WellFormed(s) && SingleObserver(s)
    requires NoRepeatedNode(s.current, nodes)
    decreases |nodes|
    ensures WellFormed(SetRefAll(s, nodes, available)) && SingleObserver(SetRefAll(s, nodes, available))
    ensures |SetRefAll(s, nodes, available).live| <= 1
  {
    if nodes == [] {
      if s.live != {} { assert s.live == {s.observer.value}; }
    } else {
      assert nodes[0].None? || nodes[0] != s.current;
      SingleObserverPreserved(s, nodes[0], available);
      var t := SetRefStep(s, nodes[0], available);
      assert NoRepeatedNode(t.current, nodes[1..]) by {
        if |nodes| > 1 { assert nodes[1] != nodes[0] || nodes[1].None?; }
        forall i | 0 < i < |nodes[1..]|
          ensures nodes[1..][i].None? || nodes[1..][i] != nodes[1..][i - 1]
        {
          assert nodes[1..][i] == nodes[i + 1] && nodes[1..][i - 1] == nodes[i];
        }
      }
      SingleObserverAlong(t, nodes[1..], available);
    }
  }

  /** Without `IntersectionObserver` no call creates an observer and `entry` stays null. */
  lemma {:induction false} UnavailableNeverObserves(s: HookState, nodes: seq<Option<NodeId>>)
    requires s.live == {} && s.entry == None
    decreases |nodes|
    ensures SetRefAll(s, nodes, false).live == {}
    ensures SetRefAll(s, nodes, false).nextObserver == s.nextObserver
    ensures SetRefAll(s, nodes, false).entry == None
  {
    if nodes != [] {
      UnavailableNeverObserves(SetRefStep(s, nodes[0], false), nodes[1..]);
    }
  }

  /** A callback replaces the entry with the first delivered one and changes nothing else. */
  lemma ObserveReplacesEntry(s: HookState, o: ObserverId, entries: seq<Entry>)
    requires o in s.live && |entries| > 0
    ensures var t := ObserveStep(s, o, entries);
      t.entry == Some(entries[0]) && t.(entry := s.entry) == s
  {
  }

  // ---------------------------------------------------------------- the hook as an object

  class IntersectionHook {
    /** `typeof IntersectionObserver === "function"` in this runtime. */
    const available: bool
    var current: Option<NodeId>
    var observer: Option<ObserverId>
    var entry: Option<Entry>
    var nextObserver: ObserverId
    ghost var live: set<ObserverId>
    ghost var targets: map<ObserverId, NodeId>

    ghost function State(): HookState
      reads this
    {
      HookState(current, observer, entry, nextObserver, live, targets)
    }

    ghost predicate Valid()
      reads this
    {
      WellFormed(State())
    }

    /** `useIntersection(options)` on mount: `ref.current` null, no observer, `entry` null. */
    constructor (available: bool)
      ensures Valid() && State() == Initial && this.available == available
    {
      this.available := available;
      current, observer, entry, nextObserver := None, None, None, 0;
      live, targets := {}, map[];
    }

    /** `setRef(node)`. */
    method SetRef(node: Option<NodeId>)
      requires Valid()
      modifies this
      ensures Valid()
      ensures State() == SetRefStep(old(State()), node, available)
    {
      if current.Some? && node != current && observer.Some? {
        live := live - {observer.value};                  // observer.disconnect()
      }
      current := node;
      if node.Some? && available {
        observer := Some(nextObserver);                   // new IntersectionObserver(handler, options)
        live := live + {nextObserver};
        targets := targets[nextObserver := node.value];   // observer.observe(ref.current)
        nextObserver := nextObserver + 1;
      }
    }

    /** The handler of live observer `o` receives `entries` (the browser delivers at least one). */
    method OnIntersection(o: ObserverId, entries: seq<Entry>)
      requires Valid() && o in live && |entries| > 0
      modifies this
      ensures Valid()
      ensures State() == ObserveStep(old(State()), o, entries)
    {
      entry := Some(entries[0]);
    }
  }
}
