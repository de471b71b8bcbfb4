/** Class-hierarchy-analysis call-graph construction
    (A4/.../graph/callgraph/CHABuilder.java): method dispatch up the
    superclass chain, call-site resolution over all subtypes of the
    declared receiver type, and the worklist that builds the reachable
    methods and call edges from the entry method. */
module Cha {
  import opened IR

  /** The kind of a call site, as `CallGraphs.getCallKind` reports it;
      `Dynamic` stands for every kind the resolver does not handle. */
  datatype CallKind = Static | Special | Virtual | Interface | Dynamic

  /** A call site: its kind and the method reference it names (declaring
      class and subsignature). */
  datatype CallSite = CallSite(kind: CallKind, declClass: nat, subsig: nat)

  datatype JMethod = JMethod(isAbstract: bool, callSites: seq<CallSite>)

  /** A class or interface: its superclass, the methods it declares by
      subsignature, and its direct subtypes as the class hierarchy lists
      them.  `depth` orders the hierarchy: a superclass lies strictly
      above, every direct subtype strictly below. */
  datatype JClass = JClass(
    isInterface: bool,
    superClass: Option<nat>,
    declared: map<nat, nat>,
    subinterfaces: seq<nat>,
    implementors: seq<nat>,
    subclasses: seq<nat>,
    depth: nat)

  /** The program: classes and methods, both numbered. */
  datatype Hierarchy = Hierarchy(classes: seq<JClass>, methods: seq<JMethod>, maxDepth: nat)

  /** The direct subtypes the resolver queues: sub-interfaces and
      implementors of an interface, subclasses of a class. */
  function DirectSubs(h: Hierarchy, c: nat): seq<nat>
    requires c < |h.classes|
  {
    var k := h.classes[c];
    if k.isInterface then k.subinterfaces + k.implementors else k.subclasses
  }

  ghost predicate Wf(h: Hierarchy) {
    && (forall c :: 0 <= c < |h.classes| ==>
          && h.classes[c].depth <= h.maxDepth
          && (h.classes[c].superClass.Some? ==>
                h.classes[c].superClass.value < |h.classes|
                && h.classes[h.classes[c].superClass.value].depth < h.classes[c].depth)
          && (forall k :: 0 <= k < |DirectSubs(h, c)| ==>
                DirectSubs(h, c)[k] < |h.classes|
                && h.classes[DirectSubs(h, c)[k]].depth > h.classes[c].depth)
          && (forall s :: s in h.classes[c].declared ==> h.classes[c].declared[s] < |h.methods|))
    && (forall m, i :: 0 <= m < |h.methods| && 0 <= i < |h.methods[m].callSites| ==>
          h.methods[m].callSites[i].declClass < |h.classes|)
  }

  /** `getDeclaredMethod`: the method the class itself declares for the
      subsignature, if any. */
  function DeclaredMethod(h: Hierarchy, c: nat, subsig: nat): Option<nat>
    requires c < |h.classes|
  {
    if subsig in h.classes[c].declared then Some(h.classes[c].declared[subsig]) else None
  }

  /** The class declares a non-abstract method for the subsignature. */
  predicate DeclaresConcrete(h: Hierarchy, c: nat, subsig: nat)
    requires Wf(h) && c < |h.classes|
  {
    var m := DeclaredMethod(h, c, subsig);
    m.Some? && !h.methods[m.value].isAbstract
  }

  /** `a` is `c` or one of its superclasses. */
  ghost predicate AncestorOrSelf(h: Hierarchy, a: nat, c: nat)
    requires Wf(h) && c < |h.classes|
    decreases h.classes[c].depth
  {
    a == c || (h.classes[c].superClass.Some? && AncestorOrSelf(h, a, h.classes[c].superClass.value))
  }

  /** `dispatch`: the first non-abstract method for the subsignature on
      the superclass chain from `c` upward; `None` when there is none. */
  function Dispatch(h: Hierarchy, c: nat, subsig: nat): (r: Option<nat>)
    requires Wf(h) && c < |h.classes|
    decreases h.classes[c].depth
    ensures r.Some? ==> r.value < |h.methods| && !h.methods[r.value].isAbstract
    ensures r.Some? ==> exists a: nat :: a < |h.classes| && AncestorOrSelf(h, a, c) && DeclaredMethod(h, a, subsig) == r
    ensures r.None? <==> forall a: nat :: a < |h.classes| && AncestorOrSelf(h, a, c) ==> !DeclaresConcrete(h, a, subsig)
    ensures DeclaresConcrete(h, c, subsig) ==> r == DeclaredMethod(h, c, subsig)
  {
    if DeclaresConcrete(h, c, subsig) then DeclaredMethod(h, c, subsig)
    else if h.classes[c].superClass.Some? then Dispatch(h, h.classes[c].superClass.value, subsig)
    else None
  }

  /** A class on the chain lies no deeper than the class it starts from,
      and strictly higher when it is another class. */
  lemma {:induction false} AncestorDepth(h: Hierarchy, a: nat, c: nat)
    requires Wf(h) && c < |h.classes| && AncestorOrSelf(h, a, c)
    decreases h.classes[c].depth
    ensures a < |h.classes| && h.classes[a].depth <= h.classes[c].depth
    ensures a != c ==> h.classes[a].depth < h.classes[c].depth
  {
    if a != c {
      AncestorDepth(h, a, h.classes[c].superClass.value);
    }
  }

  /** No class on the chain strictly between `c` and its ancestor `a`
      declares a non-abstract method for the subsignature. */
  ghost predicate NoConcreteBetween(h: Hierarchy, c: nat, a: nat, subsig: nat)
    requires Wf(h) && c < |h.classes|
  {
    forall b: nat :: b < |h.classes| && b != a && AncestorOrSelf(h, b, c) && AncestorOrSelf(h, a, b)
      ==> !DeclaresConcrete(h, b, subsig)
  }

  /** A class is the nearest to itself. */
  lemma NoConcreteBetweenSelf(h: Hierarchy, c: nat, subsig: nat)
    requires Wf(h) && c < |h.classes|
    ensures NoConcreteBetween(h, c, c, subsig)
  {
    forall b: nat | b < |h.classes| && AncestorOrSelf(h, b, c) && AncestorOrSelf(h, c, b)
      ensures b == c
    {
      AncestorDepth(h, b, c);
      AncestorDepth(h, c, b);
    }
  }

  /** One step up the chain from a class without a concrete declaration. */
  lemma NoConcreteBetweenStep(h: Hierarchy, c: nat, a: nat, subsig: nat)
    requires Wf(h) && c < |h.classes| && h.classes[c].superClass.Some? && !DeclaresConcrete(h, c, subsig)
    requires AncestorOrSelf(h, a, h.classes[c].superClass.value)
    requires NoConcreteBetween(h, h.classes[c].superClass.value, a, subsig)
    ensures AncestorOrSelf(h, a, c) && NoConcreteBetween(h, c, a, subsig)
  {
  }

  /** `dispatch` finds the nearest concrete declaration: the result is
      declared, non-abstract, by a class `a` on the chain from `c`, and no
      class strictly between `c` and `a` declares a non-abstract method for
      the subsignature. */
  lemma {:induction false} DispatchIsNearest(h: Hierarchy, c: nat, subsig: nat)
    requires Wf(h) && c < |h.classes|
    decreases h.classes[c].depth
    ensures Dispatch(h, c, subsig).Some? ==>
      exists a: nat :: a < |h.classes| && AncestorOrSelf(h, a, c) && DeclaresConcrete(h, a, subsig)
        && DeclaredMethod(h, a, subsig) == Dispatch(h, c, subsig) && NoConcreteBetween(h, c, a, subsig)
  {
    if DeclaresConcrete(h, c, subsig) {
      NoConcreteBetweenSelf(h, c, subsig);
      assert AncestorOrSelf(h, c, c);
    } else if h.classes[c].superClass.Some? {
      var s := h.classes[c].superClass.value;
      DispatchIsNearest(h, s, subsig);
      if Dispatch(h, c, subsig).Some? {
        var a: nat :| a < |h.classes| && AncestorOrSelf(h, a, s) && DeclaresConcrete(h, a, subsig)
          && DeclaredMethod(h, a, subsig) == Dispatch(h, s, subsig) && NoConcreteBetween(h, s, a, subsig);
        NoConcreteBetweenStep(h, c, a, subsig);
      }
    }
  }

  // ---------------------------------------------------------------------
  // Subtypes and the resolver's termination measure

  /** `c` and all its transitive subtypes. */
  function Subtypes(h: Hierarchy, c: nat): (r: set<nat>)
    requires Wf(h) && c < |h.classes|
    decreases h.maxDepth - h.classes[c].depth, 1, 0
    ensures c in r && forall s :: s in r ==> s < |h.classes|
  {
    {c} + SubtypesOfList(h, DirectSubs(h, c), h.classes[c].depth)
  }

  function SubtypesOfList(h: Hierarchy, cs: seq<nat>, d: nat): (r: set<nat>)
    requires Wf(h) && d <= h.maxDepth
    requires forall k :: 0 <= k < |cs| ==> cs[k] < |h.classes| && h.classes[cs[k]].depth > d
    decreases h.maxDepth - d, 0, |cs|
    ensures forall s :: s in r ==> s < |h.classes|
  {
    if cs == [] then {} else Subtypes(h, cs[0]) + SubtypesOfList(h, cs[1..], d)
  }

  /** The subtypes of everything in a queue. */
  function QueueSubtypes(h: Hierarchy, q: seq<nat>): (r: set<nat>)
    requires Wf(h) && forall k :: 0 <= k < |q| ==> q[k] < |h.classes|
    ensures forall s :: s in r ==> s < |h.classes|
  {
    if q == [] then {} else Subtypes(h, q[0]) + QueueSubtypes(h, q[1..])
  }

  lemma {:induction false} SubtypesOfListIsQueue(h: Hierarchy, cs: seq<nat>, d: nat)
    requires Wf(h) && d <= h.maxDepth
    requires forall k :: 0 <= k < |cs| ==> cs[k] < |h.classes| && h.classes[cs[k]].depth > d
    ensures SubtypesOfList(h, cs, d) == QueueSubtypes(h, cs)
    decreases |cs|
  {
    if cs != [] {
      SubtypesOfListIsQueue(h, cs[1..], d);
    }
  }

  lemma {:induction false} QueueSubtypesConcat(h: Hierarchy, a: seq<nat>, b: seq<nat>)
    requires Wf(h)
    requires forall k :: 0 <= k < |a| ==> a[k] < |h.classes|
    requires forall k :: 0 <= k < |b| ==> b[k] < |h.classes|
    ensures QueueSubtypes(h, a + b) == QueueSubtypes(h, a) + QueueSubtypes(h, b)
    decreases |a|
  {
    if a != [] {
      assert (a + b)[0] == a[0] && (a + b)[1..] == a[1..] + b;
      QueueSubtypesConcat(h, a[1..], b);
      assert QueueSubtypes(h, a + b) == Subtypes(h, a[0]) + QueueSubtypes(h, a[1..] + b);
    } else {
      assert a + b == b;
    }
  }

  /** Each class counts once, plus everything the resolver queues below it
      (a subtype reachable along two paths counts twice). */
  function Weight(h: Hierarchy, c: nat): (r: nat)
    requires Wf(h) && c < |h.classes|
    decreases h.maxDepth - h.classes[c].depth, 1, 0
    ensures r >= 1
  {
    1 + WeightOfList(h, DirectSubs(h, c), h.classes[c].depth)
  }

  function WeightOfList(h: Hierarchy, cs: seq<nat>, d: nat): nat
    requires Wf(h) && d <= h.maxDepth
    requires forall k :: 0 <= k < |cs| ==> cs[k] < |h.classes| && h.classes[cs[k]].depth > d
    decreases h.maxDepth - d, 0, |cs|
  {
    if cs == [] then 0 else Weight(h, cs[0]) + WeightOfList(h, cs[1..], d)
  }

  function QueueWeight(h: Hierarchy, q: seq<nat>): nat
    requires Wf(h) && forall k :: 0 <= k < |q| ==> q[k] < |h.classes|
  {
    if q == [] then 0 else Weight(h, q[0]) + QueueWeight(h, q[1..])
  }

  lemma {:induction false} WeightOfListIsQueue(h: Hierarchy, cs: seq<nat>, d: nat)
    requires Wf(h) && d <= h.maxDepth
    requires forall k :: 0 <= k < |cs| ==> cs[k] < |h.classes| && h.classes[cs[k]].depth > d
    ensures WeightOfList(h, cs, d) == QueueWeight(h, cs)
    decreases |cs|
  {
    if cs != [] {
      WeightOfListIsQueue(h, cs[1..], d);
    }
  }

  lemma {:induction false} QueueWeightConcat(h: Hierarchy, a: seq<nat>, b: seq<nat>)
    requires Wf(h)
    requires forall k :: 0 <= k < |a| ==> a[k] < |h.classes|
    requires forall k :: 0 <= k < |b| ==> b[k] < |h.classes|
    ensures QueueWeight(h, a + b) == QueueWeight(h, a) + QueueWeight(h, b)
    decreases |a|
  {
    if a != [] {
      assert (a + b)[0] == a[0] && (a + b)[1..] == a[1..] + b;
      QueueWeightConcat(h, a[1..], b);
      assert QueueWeight(h, a + b) == Weight(h, a[0]) + QueueWeight(h, a[1..] + b);
    } else {
      assert a + b == b;
    }
  }

  /** Dequeuing `c` and queueing its direct subtypes: the subtypes still
      to visit lose exactly `c`, and the weight drops by one. */
  lemma QueueStep(h: Hierarchy, queue: seq<nat>)
    requires Wf(h) && queue != [] && forall k :: 0 <= k < |queue| ==> queue[k] < |h.classes|
    ensures var next := queue[1..] + DirectSubs(h, queue[0]);
            && (forall k :: 0 <= k < |next| ==> next[k] < |h.classes|)
            && QueueSubtypes(h, queue) == {queue[0]} + QueueSubtypes(h, next)
            && QueueWeight(h, queue) == 1 + QueueWeight(h, next)
  {
    var c, rest := queue[0], queue[1..];
    var subs := DirectSubs(h, c);
    SubtypesOfListIsQueue(h, subs, h.classes[c].depth);
    WeightOfListIsQueue(h, subs, h.classes[c].depth);
    QueueSubtypesConcat(h, rest, subs);
    QueueWeightConcat(h, rest, subs);
  }

  /** The dispatch targets of a set of classes. */
  ghost function DispatchAll(h: Hierarchy, S: set<nat>, subsig: nat): set<Option<nat>>
    requires Wf(h)
  {
    set c | c in S && c < |h.classes| :: Dispatch(h, c, subsig)
  }

  lemma DispatchAllUnion(h: Hierarchy, A: set<nat>, B: set<nat>, subsig: nat)
    requires Wf(h)
    ensures DispatchAll(h, A + B, subsig) == DispatchAll(h, A, subsig) + DispatchAll(h, B, subsig)
  {
  }

  /** What `resolve` returns for a call site: the declared method of a
      static call, the dispatch from the declaring class of a special call,
      the dispatch from every subtype of the declaring type of a virtual or
      interface call, and nothing for any other kind.  `None` is a null
      target. */
  ghost function ResolveSpec(h: Hierarchy, cs: CallSite): set<Option<nat>>
    requires Wf(h) && cs.declClass < |h.classes|
  {
    match cs.kind
    case Static => {DeclaredMethod(h, cs.declClass, cs.subsig)}
    case Special => {Dispatch(h, cs.declClass, cs.subsig)}
    case Virtual => DispatchAll(h, Subtypes(h, cs.declClass), cs.subsig)
    case Interface => DispatchAll(h, Subtypes(h, cs.declClass), cs.subsig)
    case Dynamic => {}
  }

  /** Every non-null target a virtual or interface call resolves to is a
      non-abstract method with the call's subsignature, declared by a
      superclass of (or by) some subtype of the declaring type; and the
      target is null only when some subtype inherits no concrete method. */
  lemma VirtualTargetsAreConcrete(h: Hierarchy, cs: CallSite, t: Option<nat>)
    requires Wf(h) && cs.declClass < |h.classes| && (cs.kind.Virtual? || cs.kind.Interface?)
    requires t in ResolveSpec(h, cs)
    ensures t.Some? ==> !h.methods[t.value].isAbstract
    ensures t.Some? ==> exists c, a: nat :: c in Subtypes(h, cs.declClass) && a < |h.classes|
                         && AncestorOrSelf(h, a, c) && DeclaredMethod(h, a, cs.subsig) == t
    ensures t.None? ==> exists c :: c in Subtypes(h, cs.declClass)
                         && forall a: nat :: a < |h.classes| && AncestorOrSelf(h, a, c) ==> !DeclaresConcrete(h, a, cs.subsig)
  {
    var c :| c in Subtypes(h, cs.declClass) && c < |h.classes| && Dispatch(h, c, cs.subsig) == t;
  }

  /** Every target is a method of the program. */
  lemma ResolveSpecInRange(h: Hierarchy, cs: CallSite)
    requires Wf(h) && cs.declClass < |h.classes|
    ensures forall t :: t in ResolveSpec(h, cs) && t.Some? ==> t.value < |h.methods|
  {
    forall t | t in ResolveSpec(h, cs) && t.Some? ensures t.value < |h.methods| {
      if cs.kind.Virtual? || cs.kind.Interface? {
        var c :| c in Subtypes(h, cs.declClass) && c < |h.classes| && Dispatch(h, c, cs.subsig) == t;
      }
    }
  }

  /** `resolve`: collects the targets of a call site, walking the subtypes
      of a virtual or interface call's declaring type with a worklist. */
  method Resolve(h: Hierarchy, cs: CallSite) returns (T: set<Option<nat>>)
    requires Wf(h) && cs.declClass < |h.classes|
    ensures T == ResolveSpec(h, cs)
  {
    T := {};
    if cs.kind.Static? {
      T := {DeclaredMethod(h, cs.declClass, cs.subsig)};
    } else if cs.kind.Special? {
      T := {Dispatch(h, cs.declClass, cs.subsig)};
    } else if cs.kind.Virtual? || cs.kind.Interface? {
      var queue: seq<nat> := [cs.declClass];
      assert QueueSubtypes(h, queue) == Subtypes(h, cs.declClass);
      while queue != []
        invariant forall k :: 0 <= k < |queue| ==> queue[k] < |h.classes|
        invariant T + DispatchAll(h, QueueSubtypes(h, queue), cs.subsig)
                  == DispatchAll(h, Subtypes(h, cs.declClass), cs.subsig)
        decreases QueueWeight(h, queue)
      {
        var c := queue[0];
        var next := queue[1..] + DirectSubs(h, c);
        QueueStep(h, queue);
        DispatchAllUnion(h, {c}, QueueSubtypes(h, next), cs.subsig);
        assert DispatchAll(h, {c}, cs.subsig) == {Dispatch(h, c, cs.subsig)};
        T := T + {Dispatch(h, c, cs.subsig)};
        queue := next;
      }
    }
  }

  // ---------------------------------------------------------------------
  // Call graph

  /** A call edge: the call site `site` of method `caller` may call
      `callee` (its kind is the call site's). */
  datatype CallEdge = CallEdge(caller: nat, site: nat, callee: nat)

  /** The edges the resolver gives a method's call sites. */
  ghost predicate IsCallEdge(h: Hierarchy, e: CallEdge)
    requires Wf(h)
  {
    && e.caller < |h.methods| && e.site < |h.methods[e.caller].callSites|
    && Some(e.callee) in ResolveSpec(h, h.methods[e.caller].callSites[e.site])
  }

  /** A set of methods that holds the callees of its members. */
  ghost predicate ClosedUnderCalls(h: Hierarchy, S: set<nat>)
    requires Wf(h)
  {
    forall e :: IsCallEdge(h, e) && e.caller in S ==> e.callee in S
  }

  ghost predicate Witnessed(es: set<CallEdge>, t: nat) {
    exists e :: e in es && e.callee == t
  }

  /** The call edges of one method, and their callees in the order the
      source queues them. */
  method CallEdgesOf(h: Hierarchy, m: nat) returns (es: set<CallEdge>, callees: seq<nat>)
    requires Wf(h) && m < |h.methods|
    ensures forall e :: e in es <==> e.caller == m && IsCallEdge(h, e)
    ensures forall e :: e in es ==> e.callee in callees
    ensures forall k :: 0 <= k < |callees| ==> Witnessed(es, callees[k]) && callees[k] < |h.methods|
  {
    var sites := h.methods[m].callSites;
    es := {};
    callees := [];
    for i := 0 to |sites|
      invariant forall e :: e in es <==> e.caller == m && e.site < i && IsCallEdge(h, e)
      invariant forall e :: e in es ==> e.callee in callees
      invariant forall k :: 0 <= k < |callees| ==> Witnessed(es, callees[k]) && callees[k] < |h.methods|
    {
      var T := Resolve(h, sites[i]);
      ResolveSpecInRange(h, sites[i]);
      var rest := T;
      while rest != {}
        invariant rest <= T
        invariant forall e :: e in es <==>
                    e.caller == m && IsCallEdge(h, e) && (e.site < i || (e.site == i && Some(e.callee) in T - rest))
        invariant forall e :: e in es ==> e.callee in callees
        invariant forall k :: 0 <= k < |callees| ==> Witnessed(es, callees[k]) && callees[k] < |h.methods|
        decreases |rest|
      {
        var t :| t in rest;
        if t.Some? {
          es := es + {CallEdge(m, i, t.value)};
          callees := callees + [t.value];
        }
        rest := rest - {t};
      }
    }
  }

  function AllMethods(h: Hierarchy): (r: set<nat>)
    ensures forall m: nat :: m in r <==> m < |h.methods|
  {
    NatsBelow(|h.methods|)
  }

  /** A call graph: its entry, reachable methods and edges. */
  datatype CallGraph = CallGraph(entry: nat, reachable: set<nat>, edges: set<CallEdge>)

  /** What the construction keeps between two dequeues. */
  ghost predicate Built(h: Hierarchy, S: set<nat>, entry: nat, visited: set<nat>, worklist: seq<nat>,
                        edges: set<CallEdge>)
    requires Wf(h)
  {
    && visited <= AllMethods(h)
    && (forall k :: 0 <= k < |worklist| ==> worklist[k] < |h.methods|)
    && (entry in visited || entry in worklist)
    && (forall e :: e in edges <==> e.caller in visited && IsCallEdge(h, e))
    && (forall e :: e in edges ==> e.callee in visited || e.callee in worklist)
    && (entry in S && ClosedUnderCalls(h, S) ==> visited + Elems(worklist) <= S)
  }

  /** With nothing left to process, what was built is the call graph the
      builder promises. */
  lemma BuiltDone(h: Hierarchy, S: set<nat>, entry: nat, visited: set<nat>, edges: set<CallEdge>)
    requires Wf(h) && Built(h, S, entry, visited, [], edges)
    ensures entry in visited && visited <= AllMethods(h)
    ensures forall e :: e in edges ==> e.callee in visited
    ensures ClosedUnderCalls(h, visited)
    ensures entry in S && ClosedUnderCalls(h, S) ==> visited <= S
  {
    assert Elems([]) == {};
  }

  lemma BuiltPop(h: Hierarchy, S: set<nat>, entry: nat, visited: set<nat>, m: nat, worklist: seq<nat>,
                 edges: set<CallEdge>)
    requires Wf(h) && m in visited && Built(h, S, entry, visited, [m] + worklist, edges)
    ensures Built(h, S, entry, visited, worklist, edges)
  {
    assert forall t :: t in worklist ==> t in [m] + worklist;
    assert forall k :: 0 <= k < |worklist| ==> worklist[k] == ([m] + worklist)[k + 1];
  }

  lemma BuiltReach(h: Hierarchy, S: set<nat>, entry: nat, visited: set<nat>, m: nat, worklist: seq<nat>,
                   edges: set<CallEdge>, es: set<CallEdge>, callees: seq<nat>)
    requires Wf(h) && m < |h.methods| && Built(h, S, entry, visited, [m] + worklist, edges)
    requires forall e :: e in es <==> e.caller == m && IsCallEdge(h, e)
    requires forall e :: e in es ==> e.callee in callees
    requires forall k :: 0 <= k < |callees| ==> Witnessed(es, callees[k]) && callees[k] < |h.methods|
    ensures Built(h, S, entry, visited + {m}, worklist + callees, edges + es)
  {
    assert forall t :: t in worklist ==> t in [m] + worklist;
    assert forall k :: 0 <= k < |worklist| ==> worklist[k] == ([m] + worklist)[k + 1];
    assert forall t :: t in worklist + callees ==> t in worklist || t in callees;
    if entry in S && ClosedUnderCalls(h, S) {
      assert m in S;
      forall k | 0 <= k < |callees| ensures callees[k] in S {
        assert Witnessed(es, callees[k]);
        var e :| e in es && e.callee == callees[k];
        assert IsCallEdge(h, e) && e.caller in S;
      }
    }
  }

  /** One round of the builder's loop: the first method of the work list
      is taken off and, when it is new, it is visited, its call edges are
      added and its callees queued. */
  method BuildStep(h: Hierarchy, entry: nat, ghost S: set<nat>, visited: set<nat>, worklist: seq<nat>,
                   edges: set<CallEdge>) returns (visited': set<nat>, worklist': seq<nat>, edges': set<CallEdge>)
    requires Wf(h) && worklist != [] && Built(h, S, entry, visited, worklist, edges)
    ensures Built(h, S, entry, visited', worklist', edges')
    ensures visited' == visited + {worklist[0]}
    ensures worklist[0] in visited ==> worklist' == worklist[1..] && edges' == edges
    ensures |AllMethods(h) - visited'| < |AllMethods(h) - visited|
            || (visited' == visited && |worklist'| < |worklist|)
  {
    var m := worklist[0];
    assert worklist == [m] + worklist[1..];
    if m !in visited {
      Shrinks(AllMethods(h), visited, m);
      var es, callees := CallEdgesOf(h, m);
      BuiltReach(h, S, entry, visited, m, worklist[1..], edges, es, callees);
      visited' := visited + {m};
      edges' := edges + es;
      worklist' := worklist[1..] + callees;
    } else {
      BuiltPop(h, S, entry, visited, m, worklist[1..], edges);
      visited', worklist', edges' := visited, worklist[1..], edges;
    }
  }

  /** `buildCallGraph`: from the entry method, dequeues methods; each one
      dequeued for the first time becomes reachable, and every non-null
      target of each of its call sites gets an edge and is queued.  The
      reachable methods are the least set that holds the entry and the
      callees of its members (it lies inside every such set `S`), and the
      edges are exactly the resolved calls out of reachable methods. */
  method BuildCallGraph(h: Hierarchy, entry: nat, ghost S: set<nat>) returns (cg: CallGraph)
    requires Wf(h) && entry < |h.methods|
    ensures cg.entry == entry && entry in cg.reachable && cg.reachable <= AllMethods(h)
    ensures forall e :: e in cg.edges <==> e.caller in cg.reachable && IsCallEdge(h, e)
    ensures forall e :: e in cg.edges ==> e.callee in cg.reachable
    ensures ClosedUnderCalls(h, cg.reachable)
    ensures entry in S && ClosedUnderCalls(h, S) ==> cg.reachable <= S
  {
    var visited: set<nat> := {};
    var worklist: seq<nat> := [entry];
    var edges: set<CallEdge> := {};
    assert Elems(worklist) == {entry};
    while worklist != []
      invariant Built(h, S, entry, visited, worklist, edges)
      decreases |AllMethods(h) - visited|, |worklist|
    {
      visited, worklist, edges := BuildStep(h, entry, S, visited, worklist, edges);
    }
    BuiltDone(h, S, entry, visited, edges);
    cg := CallGraph(entry, visited, edges);
  }
}
