# Tai-e analyses, modelled in Dafny

This project models the analyses written into the Tai-e static-analysis
framework in the course assignments A2 to A8, and proves properties of them.

- **Constant propagation** (A2 and the A7 variant). The three-value lattice is
  UNDEF above constants above NAC. `meetValue` is proved to be the greatest
  lower bound. `evaluate` works on Java's 32-bit `int` arithmetic: wrap-around,
  division that truncates toward zero, shift distances masked to five bits. It
  is proved monotone (apart from one exception, exhibited as its own lemma) and
  sound for a concrete state. `transferNode`, `meetInto` and `newBoundaryFact`
  work on a `CPFact` object.
- **Interprocedural constant propagation** (A7). The four ICFG edge transfers are
  modelled, as is the identity transfer at call nodes. The alias-aware field and
  array loads take the meet over the stores that alias them. The field and array
  stores put the loads they may affect back on the work list.
- **Dead-code detection** (A3). Reachability follows only the branches that a
  constant condition or a constant switch leaves open. The rest of the output
  is the unreached statements plus the side-effect-free assignments to dead
  variables, in index order.
- **Class-hierarchy call graph** (A4). Covers `dispatch`, `resolve` (static,
  special, virtual and interface calls) and the work-list construction of the
  call graph. The call graph is proved to be the least set that is closed under
  the resolved calls.
- **Pointer analysis** (A6 context-sensitive solver; A5 is the same solver with
  one context). It is a `Solver` class over the points-to relation, the pointer
  flow graph (PFG), the call graph, the reachable methods and the work list.
  `addReachable`, the statement visitor, `addPFGEdge`, `propagate`, `analyze`
  and `processCall` are methods. Each one keeps an invariant: along each PFG
  edge, the facts of the source are known for the target. At the end of
  `solve`, every inference rule of the analysis holds. Lemma `SolvedRules`
  restates those rules in terms of the points-to sets.
- **Taint analysis** (A8). Covers sources, the three kinds of transfer
  (base to result, argument to base, argument to result) and the collection of
  taint flows. Each transfer is proved to add exactly the facts of its rule. A
  transfer keeps each taint object's source call. The reported flows are exactly
  the taint objects that reach a sink argument of a call edge.

Files:

- `ir.dfy`: the shared statements and expressions.
- `constprop.dfy` and `constprop_ext.dfy`: the two constant propagations.
- `inter_constprop.dfy`: interprocedural constant propagation.
- `deadcode.dfy`: dead-code detection.
- `cha.dfy`: the class-hierarchy call graph.
- `pta.dfy` and `pta_ci.dfy`: the two pointer analyses.
- `taint.dfy`: the taint analysis.

What the model takes as given:

- Results of other analyses are parameters: live variables and constants for A3,
  points-to sets and ICFG order for A7.
- So are the class hierarchy, the callee resolution of a call site
  (`CallGraphs.resolveCallee`), context selection, and variable types.

## Model

| member | source | states |
|---|---|---|
| ConstProp.Wrap | A2/tai-e/src/main/java/pascal/taie/analysis/dataflow/analysis/constprop/ConstantPropagation.java:166-176 | the int32 result of an addition, subtraction or multiplication is the exact result modulo 2^32, and equals it when it is in range |
| ConstProp.JavaBinary | A2/tai-e/src/main/java/pascal/taie/analysis/dataflow/analysis/constprop/ConstantPropagation.java:160-230 | the concrete Java value of a binary operation is undefined exactly for a division or remainder by zero; a comparison (`lcmp`, `fcmp`, `dcmp`) gives the sign of the difference |
| ConstProp.MeetValue | A2/tai-e/src/main/java/pascal/taie/analysis/dataflow/analysis/constprop/ConstantPropagation.java:77-92 | meetValue is a lower bound of both values, and every common lower bound is below it |
| ConstProp.MeetValueCases | A2/tai-e/src/main/java/pascal/taie/analysis/dataflow/analysis/constprop/ConstantPropagation.java:79-91 | NAC absorbs, UNDEF is neutral, two constants meet to the constant when equal and to NAC otherwise |
| ConstProp.MeetValueCommutative | A2/tai-e/src/main/java/pascal/taie/analysis/dataflow/analysis/constprop/ConstantPropagation.java:77-92 | meetValue is commutative |
| ConstProp.MeetValueAssociative | A2/tai-e/src/main/java/pascal/taie/analysis/dataflow/analysis/constprop/ConstantPropagation.java:77-92 | meetValue is associative |
| ConstProp.MeetValueIdempotent | A2/tai-e/src/main/java/pascal/taie/analysis/dataflow/analysis/constprop/ConstantPropagation.java:77-92 | meetValue of a value with itself is that value |
| ConstProp.Updated | A2/tai-e/src/main/java/pascal/taie/analysis/dataflow/analysis/constprop/ConstantPropagation.java:102 | updating a fact sets that variable's value (UNDEF removes the key), leaves every other variable unchanged, and keeps the fact free of UNDEF entries |
| ConstProp.NormalExtensional | A2/tai-e/src/main/java/pascal/taie/analysis/dataflow/analysis/constprop/ConstantPropagation.java:103 | two facts without UNDEF entries that give the same values are equal, so `copyFrom` reports a change exactly when the value changes |
| ConstProp.Fact.Update | A2/tai-e/src/main/java/pascal/taie/analysis/dataflow/analysis/constprop/ConstantPropagation.java:102 | the object's map becomes the updated map |
| ConstProp.Fact.CopyFrom | A2/tai-e/src/main/java/pascal/taie/analysis/dataflow/analysis/constprop/ConstantPropagation.java:103-107 | the object takes the other fact's contents; the result is true iff they differed |
| ConstProp.Fact.Copy | A2/tai-e/src/main/java/pascal/taie/analysis/dataflow/analysis/constprop/ConstantPropagation.java:101 | a new object with the same contents |
| ConstProp.CanHoldInt | A2/tai-e/src/main/java/pascal/taie/analysis/dataflow/analysis/constprop/ConstantPropagation.java:113-126 | true exactly for the byte, short, int, char and boolean types |
| ConstProp.NewBoundaryFact | A2/tai-e/src/main/java/pascal/taie/analysis/dataflow/analysis/constprop/ConstantPropagation.java:49-58 | every int-holding parameter is NAC and every other variable is UNDEF |
| ConstProp.MeetInto | A2/tai-e/src/main/java/pascal/taie/analysis/dataflow/analysis/constprop/ConstantPropagation.java:67-72 | every variable of the target becomes the meet of its value in the two facts |
| ConstProp.MeetFactIsGreatestLowerBound | A2/tai-e/src/main/java/pascal/taie/analysis/dataflow/analysis/constprop/ConstantPropagation.java:67-72 | the result of meetInto is below both facts, and every common lower bound is below it |
| ConstProp.EvaluateCases | A2/tai-e/src/main/java/pascal/taie/analysis/dataflow/analysis/constprop/ConstantPropagation.java:135-235 | a literal is its constant; division or remainder by constant 0 is UNDEF even with a NAC dividend; a condition on constants is 1 or 0; a comparison (`lcmp`, `fcmp`, `dcmp`) of constants falls through to UNDEF; an expression of any other kind is NAC |
| ConstProp.EvalBinaryMonotone | A2/tai-e/src/main/java/pascal/taie/analysis/dataflow/analysis/constprop/ConstantPropagation.java:143-233 | lowering the operands lowers the result, except when the divisor goes from UNDEF to constant 0 |
| ConstProp.EvalBinaryNotMonotone | A2/tai-e/src/main/java/pascal/taie/analysis/dataflow/analysis/constprop/ConstantPropagation.java:147-155 | the exception: NAC / 0 is UNDEF and NAC / UNDEF is NAC, so lowering the divisor raises the result |
| ConstProp.EvaluateMonotone | A2/tai-e/src/main/java/pascal/taie/analysis/dataflow/analysis/constprop/ConstantPropagation.java:135-235 | evaluate is monotone in its fact, outside that exception |
| ConstProp.EvaluateSound | A2/tai-e/src/main/java/pascal/taie/analysis/dataflow/analysis/constprop/ConstantPropagation.java:135-235 | a constant that evaluate reports is the expression's Java value in every state that agrees with the fact |
| ConstProp.TransferFact | A2/tai-e/src/main/java/pascal/taie/analysis/dataflow/analysis/constprop/ConstantPropagation.java:95-108 | OUT is IN, except that an int-holding variable defined by the statement takes the value of its right-hand side |
| ConstProp.TransferFactMonotone | A2/tai-e/src/main/java/pascal/taie/analysis/dataflow/analysis/constprop/ConstantPropagation.java:95-108 | the transfer function is monotone outside the division exception |
| ConstProp.TransferNode | A2/tai-e/src/main/java/pascal/taie/analysis/dataflow/analysis/constprop/ConstantPropagation.java:95-108 | OUT becomes the transfer of IN; the result is true iff OUT changed |
| ConstPropExt.EvaluateExtCases | A7/tai-e/src/main/java/pascal/taie/analysis/dataflow/analysis/constprop/ConstantPropagation.java:144-265 | a variable is its value; negation keeps NAC and UNDEF and negates a constant with int32 wrap-around; `new` is UNDEF; division by 0 is UNDEF |
| ConstPropExt.EvaluateExtExtendsEvaluate | A7/tai-e/src/main/java/pascal/taie/analysis/dataflow/analysis/constprop/ConstantPropagation.java:144-249 | on the expressions the A2 version handles, the two versions agree |
| ConstPropExt.EvaluateExtSound | A7/tai-e/src/main/java/pascal/taie/analysis/dataflow/analysis/constprop/ConstantPropagation.java:144-265 | a reported constant is the concrete value, negation included |
| ConstPropExt.TransferFactExt | A7/tai-e/src/main/java/pascal/taie/analysis/dataflow/analysis/constprop/ConstantPropagation.java:96-117 | only the variable on the left of a definition changes, and it takes the value of the right-hand side |
| ConstPropExt.TransferFactExtCopies | A7/tai-e/src/main/java/pascal/taie/analysis/dataflow/analysis/constprop/ConstantPropagation.java:98-113 | a non-definition, a non-variable lhs, or an operand of the wrong type leaves OUT equal to IN |
| ConstPropExt.TransferNodeExt | A7/tai-e/src/main/java/pascal/taie/analysis/dataflow/analysis/constprop/ConstantPropagation.java:96-117 | OUT becomes that transfer of IN; the result is true iff OUT changed |
| InterConstProp.TransferNormalEdge | A7/tai-e/src/main/java/pascal/taie/analysis/dataflow/inter/InterConstantPropagation.java:249-252 | every variable keeps its value |
| InterConstProp.TransferCallToReturnEdge | A7/tai-e/src/main/java/pascal/taie/analysis/dataflow/inter/InterConstantPropagation.java:255-263 | the call's result variable is removed (UNDEF) and every other variable is kept |
| InterConstProp.TransferCallEdge | A7/tai-e/src/main/java/pascal/taie/analysis/dataflow/inter/InterConstantPropagation.java:266-274 | callee parameter i is bound to the value of argument i; every other variable is UNDEF |
| InterConstProp.MeetOfVars | A7/tai-e/src/main/java/pascal/taie/analysis/dataflow/inter/InterConstantPropagation.java:282-285 | the meet of the return variables' values is their greatest lower bound |
| InterConstProp.TransferReturnEdge | A7/tai-e/src/main/java/pascal/taie/analysis/dataflow/inter/InterConstantPropagation.java:277-291 | the caller's lhs gets the meet of the return variables; every other variable is UNDEF |
| InterConstProp.TransferCallNode | A7/tai-e/src/main/java/pascal/taie/analysis/dataflow/inter/InterConstantPropagation.java:96-99 | OUT becomes IN; the result is true iff OUT changed |
| InterConstProp.LoadValue | A7/tai-e/src/main/java/pascal/taie/analysis/dataflow/inter/InterConstantPropagation.java:104-130 | the value of a load is the greatest lower bound of the values of the stores that alias it |
| InterConstProp.InstanceLoadKeepsOnlyLastStore | A7/tai-e/src/main/java/pascal/taie/analysis/dataflow/inter/InterConstantPropagation.java:151 | with two aliasing instance stores of 1 and 2, the load as written gives only the last one, while the greatest lower bound is NAC |
| InterConstProp.ComputeLoadValue | A7/tai-e/src/main/java/pascal/taie/analysis/dataflow/inter/InterConstantPropagation.java:104-155 | the loop over the ICFG computes the greatest lower bound of the aliasing stores (field and array loads) |
| InterConstProp.EnqueueAliasingLoads | A7/tai-e/src/main/java/pascal/taie/analysis/dataflow/inter/InterConstantPropagation.java:160-186 | the old work list is kept as a prefix; the new work list holds exactly the old entries and the aliasing loads; nothing already queued is added again |
| InterConstProp.TransferNonCallNode | A7/tai-e/src/main/java/pascal/taie/analysis/dataflow/inter/InterConstantPropagation.java:102-246 | OUT becomes the transfer of IN (the corrected load value for loads); the result is true iff OUT changed; a store adds exactly its aliasing loads to the work list |
| DeadCode.HasNoSideEffect | A3/tai-e/src/main/java/pascal/taie/analysis/dataflow/analysis/DeadCodeDetection.java:128-146 | an expression has a side effect exactly when it is an allocation, a cast, a field or array access, or a division or remainder |
| DeadCode.TargetsOfKind | A3/tai-e/src/main/java/pascal/taie/analysis/dataflow/analysis/DeadCodeDetection.java:87-90 | the targets listed are exactly those of the out-edges of the given kind |
| DeadCode.FirstCaseTarget | A3/tai-e/src/main/java/pascal/taie/analysis/dataflow/analysis/DeadCodeDetection.java:99-104 | there is no target exactly when no SWITCH_CASE edge matches the value |
| DeadCode.AllTargets | A3/tai-e/src/main/java/pascal/taie/analysis/dataflow/analysis/DeadCodeDetection.java:114-116 | the targets listed are exactly the successors |
| DeadCode.CollectDead | A3/tai-e/src/main/java/pascal/taie/analysis/dataflow/analysis/DeadCodeDetection.java:63-120 | in increasing index order: exactly the unreached statements and the reached dead assignments |
| DeadCode.Successors | A3/tai-e/src/main/java/pascal/taie/analysis/dataflow/analysis/DeadCodeDetection.java:82-116 | only followed successors are queued, and each followed successor is reached or queued |
| DeadCode.ExploreStep | A3/tai-e/src/main/java/pascal/taie/analysis/dataflow/analysis/DeadCodeDetection.java:71-117 | one dequeue keeps the exploration invariant and grows the reached set or shrinks the queue |
| DeadCode.Analyze | A3/tai-e/src/main/java/pascal/taie/analysis/dataflow/analysis/DeadCodeDetection.java:53-123 | the reached set holds the entry, is closed under the followed successors, and is inside every such set; dead code is as in CollectDead, in index order |
| DeadCode.Unreached | A3/tai-e/src/main/java/pascal/taie/analysis/dataflow/analysis/DeadCodeDetection.java:114-116 | the listed successors are exactly those not reached yet |
| Cha.Dispatch | A4/tai-e/src/main/java/pascal/taie/analysis/graph/callgraph/CHABuilder.java:116-126 | the result is a non-abstract method declared by the class or a superclass; it is null exactly when no such class declares one; a class that declares one returns its own |
| Cha.DispatchIsNearest | A4/tai-e/src/main/java/pascal/taie/analysis/graph/callgraph/CHABuilder.java:116-126 | a non-null result is the nearest concrete declaration: it is declared, non-abstract, by a class on the superclass chain, and no class strictly between the receiver class and that class declares a non-abstract method for the subsignature |
| Cha.Subtypes | A4/tai-e/src/main/java/pascal/taie/analysis/graph/callgraph/CHABuilder.java:93-104 | the subtypes of a class include the class itself and are all classes of the program |
| Cha.QueueStep | A4/tai-e/src/main/java/pascal/taie/analysis/graph/callgraph/CHABuilder.java:96-103 | dequeuing a class and queueing its direct subtypes keeps the subtypes still to visit |
| Cha.VirtualTargetsAreConcrete | A4/tai-e/src/main/java/pascal/taie/analysis/graph/callgraph/CHABuilder.java:92-105 | each non-null target of a virtual call is a concrete method declared by a supertype of a subtype of the declaring class |
| Cha.Resolve | A4/tai-e/src/main/java/pascal/taie/analysis/graph/callgraph/CHABuilder.java:80-108 | the targets are the declared method for a static call, the dispatch for a special call, and the dispatch at every subtype for a virtual or interface call |
| Cha.CallEdgesOf | A4/tai-e/src/main/java/pascal/taie/analysis/graph/callgraph/CHABuilder.java:64-71 | the edges of a method are exactly its call sites paired with their non-null resolved targets |
| Cha.BuildStep | A4/tai-e/src/main/java/pascal/taie/analysis/graph/callgraph/CHABuilder.java:61-72 | one round dequeues a method and marks it visited; a method seen before changes nothing else; the builder's invariant is kept and the visited set or the queue shrinks |
| Cha.BuildCallGraph | A4/tai-e/src/main/java/pascal/taie/analysis/graph/callgraph/CHABuilder.java:53-75 | the entry is reachable; the edges are exactly the resolved calls of reachable methods; callees are reachable; the reachable set is the least set that holds the entry and is closed under calls |
| Pta.ClosedAtFixpoint | A6/tai-e/src/main/java/pascal/taie/analysis/pta/cs/Solver.java:223-273 | with nothing pending, every points-to set includes those of its PFG predecessors |
| Pta.SolvedRules | A6/tai-e/src/main/java/pascal/taie/analysis/pta/cs/Solver.java:107-321 | at the fixpoint: allocations, copies, field loads and stores, receiver-to-this, call edges and argument-to-parameter flows all hold in the points-to sets |
| Pta.Solver.AddEntry | A6/tai-e/src/main/java/pascal/taie/analysis/pta/cs/Solver.java:215 | the entry is appended to the work list and nothing else changes |
| Pta.Solver.AddPFGEdge | A6/tai-e/src/main/java/pascal/taie/analysis/pta/cs/Solver.java:210-218 | an existing edge changes nothing; a new edge is added and, when the source's set is non-empty, that set is queued for the target |
| Pta.Solver.AddPFGEdges | A6/tai-e/src/main/java/pascal/taie/analysis/pta/cs/Solver.java:233-244 | every edge of the sequence is in the PFG afterwards; the facts known only grow and the call graph is untouched |
| Pta.Solver.ProcessLoadFields | A6/tai-e/src/main/java/pascal/taie/analysis/pta/cs/Solver.java:233-235 | for each field load `x = v.f` of the variable, the PFG has the edge from field `f` of the new object to `x`, in the variable's context |
| Pta.Solver.ProcessStoreFields | A6/tai-e/src/main/java/pascal/taie/analysis/pta/cs/Solver.java:236-238 | for each field store `v.f = y`, the PFG has the edge from `y` to field `f` of the new object |
| Pta.Solver.ProcessLoadArrays | A6/tai-e/src/main/java/pascal/taie/analysis/pta/cs/Solver.java:239-241 | for each array load `x = v[*]`, the PFG has the edge from the new object's array index to `x` |
| Pta.Solver.ProcessStoreArrays | A6/tai-e/src/main/java/pascal/taie/analysis/pta/cs/Solver.java:242-244 | for each array store `v[*] = y`, the PFG has the edge from `y` to the new object's array index |
| Pta.Solver.AddReachable | A6/tai-e/src/main/java/pascal/taie/analysis/pta/cs/Solver.java:107-114 | the method is reachable afterwards; a method already reachable changes nothing; every method and call edge made reachable has its rules |
| Pta.Solver.Visit | A6/tai-e/src/main/java/pascal/taie/analysis/pta/cs/Solver.java:134-204 | the statement's rule holds afterwards; New queues exactly its object, Copy and static loads and stores add exactly their PFG edge, an instance call changes nothing |
| Pta.Solver.ProcessCallEdge | A6/tai-e/src/main/java/pascal/taie/analysis/pta/cs/Solver.java:158-177 | the edge is in the call graph afterwards; an old edge changes nothing; a new edge has its callee reachable and its argument and return edges |
| Pta.Solver.ConnectArgs | A6/tai-e/src/main/java/pascal/taie/analysis/pta/cs/Solver.java:160-168 | each argument has its edge to the matching callee parameter |
| Pta.Solver.ConnectReturns | A6/tai-e/src/main/java/pascal/taie/analysis/pta/cs/Solver.java:169-176 | when the call has a result, each return variable has its edge to it |
| Pta.Solver.ProcessInvoke | A6/tai-e/src/main/java/pascal/taie/analysis/pta/cs/Solver.java:286-319 | the receiver object is known for the callee's `this`, and the call edge exists |
| Pta.Solver.ProcessCall | A6/tai-e/src/main/java/pascal/taie/analysis/pta/cs/Solver.java:281-321 | the invoke rule holds for every call site on the variable |
| Pta.Solver.ProcessObj | A6/tai-e/src/main/java/pascal/taie/analysis/pta/cs/Solver.java:232-246 | the field, array and call rules of the new object hold |
| Pta.Solver.Propagate | A6/tai-e/src/main/java/pascal/taie/analysis/pta/cs/Solver.java:255-273 | the result is exactly the objects new to the pointer; they join its set; an empty result queues nothing; otherwise an entry carrying the new objects is queued for each PFG successor and nothing else, one per successor: the work list grows by the number of successors |
| Pta.EntriesTo | A6/tai-e/src/main/java/pascal/taie/analysis/pta/cs/Solver.java:267-271 | the entries for a set of targets are exactly the pairs of a target with the new objects, one per target |
| Pta.Solver.SendToSuccs | A6/tai-e/src/main/java/pascal/taie/analysis/pta/cs/Solver.java:267-271 | an entry carrying the new objects is appended for each PFG successor and nothing else, one per successor (the work list grows by the number of successors); each successor then knows the new objects |
| Pta.Solver.ProcessNewObjs | A6/tai-e/src/main/java/pascal/taie/analysis/pta/cs/Solver.java:229-247 | after the new objects of a variable are processed, every rule holds again |
| Pta.Solver.AnalyzeStep | A6/tai-e/src/main/java/pascal/taie/analysis/pta/cs/Solver.java:226-247 | one round keeps every rule; the points-to relation grows strictly, or the work list gets shorter |
| Pta.Solver.Analyze | A6/tai-e/src/main/java/pascal/taie/analysis/pta/cs/Solver.java:223-249 | at the end the work list is empty and every rule holds |
| Pta.Solver.Initialize | A6/tai-e/src/main/java/pascal/taie/analysis/pta/cs/Solver.java:91-102 | main, in the empty context, is reachable and every rule holds |
| Pta.Solver.Solve | A6/tai-e/src/main/java/pascal/taie/analysis/pta/cs/Solver.java:86-89 | the result is a fixpoint of every rule, with main reachable and nothing pending |
| Pta.Analysis | A6/tai-e/src/main/java/pascal/taie/analysis/pta/cs/Solver.java:86-102 | a fresh solver, solved: a fixpoint of every rule, with main reachable |
| PtaCi.CISelector | A5/tai-e/src/main/java/pascal/taie/analysis/pta/ci/Solver.java:104-182 | the context-insensitive analysis uses a single context for every variable, object and method |
| PtaCi.OnlyEmptyContext | A5/tai-e/src/main/java/pascal/taie/analysis/pta/ci/Solver.java:77-99 | every pointer, object, method and call edge the solver holds is in the empty context |
| PtaCi.ReachableOncePerMethod | A5/tai-e/src/main/java/pascal/taie/analysis/pta/ci/Solver.java:92-99 | two reachable methods are equal exactly when they are the same method |
| PtaCi.SolveCI | A5/tai-e/src/main/java/pascal/taie/analysis/pta/ci/Solver.java:69-297 | a fixpoint of every rule of the context-insensitive analysis, with main reachable and nothing pending |
| Taint.CaptureTaintObj | A8/tai-e/src/main/java/pascal/taie/analysis/pta/plugin/taint/TaintAnalysiss.java:69-77 | a taint object exists exactly when some source rule names the method and its return type; it carries the call site and that type, in the empty context |
| Taint.TaintFactsKeepSourceCall | A8/tai-e/src/main/java/pascal/taie/analysis/pta/plugin/taint/TaintAnalysiss.java:110-114 | each transferred fact is a taint object of the rule's type on the target, with the source call of a taint object of the origin, and each taint object of the origin gives one |
| Taint.UntaintedAddsNothing | A8/tai-e/src/main/java/pascal/taie/analysis/pta/plugin/taint/TaintAnalysiss.java:103-107 | an origin without taint objects transfers nothing |
| Taint.ArgFactsFrom | A8/tai-e/src/main/java/pascal/taie/analysis/pta/plugin/taint/TaintAnalysiss.java:121-140 | each argument-driven fact comes from an argument whose rule is configured, and each such argument contributes all its transferred facts |
| Taint.TransferTaint | A8/tai-e/src/main/java/pascal/taie/analysis/pta/plugin/taint/TaintAnalysiss.java:110-114 | the entries queued carry exactly the transferred facts of the origin |
| Taint.SendAllTaint | A8/tai-e/src/main/java/pascal/taie/analysis/pta/plugin/taint/TaintAnalysiss.java:110-114 | over a set of objects, the entries queued carry exactly the taint objects (of the rule's type, with their source calls) made from its taint objects |
| Taint.SendIfTaint | A8/tai-e/src/main/java/pascal/taie/analysis/pta/plugin/taint/TaintAnalysiss.java:111-113 | a taint object queues one entry for the target, with its source call and the rule's type; any other object queues nothing |
| Taint.SendTaint | A8/tai-e/src/main/java/pascal/taie/analysis/pta/plugin/taint/TaintAnalysiss.java:112 | one entry carrying the taint object is appended for the target |
| Taint.AnyTaint | A8/tai-e/src/main/java/pascal/taie/analysis/pta/plugin/taint/TaintAnalysiss.java:103-106 | true exactly when the pointer holds a taint object |
| Taint.CaptureBaseToResult | A8/tai-e/src/main/java/pascal/taie/analysis/pta/plugin/taint/TaintAnalysiss.java:96-118 | without a base or a result nothing is queued; otherwise the base's taint goes to the result exactly when the base is tainted and the rule for the return type exists |
| Taint.CaptureArg | A8/tai-e/src/main/java/pascal/taie/analysis/pta/plugin/taint/TaintAnalysiss.java:122-139 | one argument transfers its taint exactly when it is tainted and its rule exists |
| Taint.CaptureArgs | A8/tai-e/src/main/java/pascal/taie/analysis/pta/plugin/taint/TaintAnalysiss.java:121-140 | over all parameters, the entries queued carry exactly the facts of the argument rules |
| Taint.CaptureArgToBase | A8/tai-e/src/main/java/pascal/taie/analysis/pta/plugin/taint/TaintAnalysiss.java:119-141 | without a base nothing is queued; otherwise the argument rules move taint to the base, with the base variable's type |
| Taint.CaptureArgToResult | A8/tai-e/src/main/java/pascal/taie/analysis/pta/plugin/taint/TaintAnalysiss.java:142-165 | without a result nothing is queued; otherwise the argument rules move taint to the result, with the return type |
| Taint.DoTaintTransfer | A8/tai-e/src/main/java/pascal/taie/analysis/pta/plugin/taint/TaintAnalysiss.java:82-95 | the queued facts are exactly the union of the three transfers, with the result pointer in the caller's context |
| Taint.SinkFlows | A8/tai-e/src/main/java/pascal/taie/analysis/pta/plugin/taint/TaintAnalysiss.java:192-196 | exactly one flow per taint object of the sink argument, with its source call |
| Taint.EdgeFlows | A8/tai-e/src/main/java/pascal/taie/analysis/pta/plugin/taint/TaintAnalysiss.java:190-197 | exactly the flows of the sinks whose method is the edge's callee |
| Taint.CollectTaintFlows | A8/tai-e/src/main/java/pascal/taie/analysis/pta/plugin/taint/TaintAnalysiss.java:184-201 | a flow is reported iff some call edge has a callee with a sink whose argument, in the caller's context, holds a taint object with that flow's source call |

## Left out

- Live-variable analysis, the results of constant propagation (A3) and those of
  pointer analysis (A7) are inputs. The generic dataflow and ICFG solvers that
  call the transfer functions are not part of this model.
- The A7 `newBoundaryFact`, `newInitialFact` and `meetInto` delegate to the
  constant propagation. They are the A2 members and are not modelled twice.
- DeadCode.Analyze checks whether a node was visited when it is dequeued. The
  A3 loop queues the targets of a constant branch without checking them, so it
  can run forever when a constant branch leads back to itself. Both reach the
  same set whenever the A3 loop ends.
- A null callee in the pointer analyses is not modelled: `CallGraphs.resolveCallee`
  is a total function into the program's methods. In the CHA builder a missing
  target is `None`. `DeclaredMethod` gives `None` when the class of a static call
  does not declare the method, `Dispatch` gives `None` when no class on the
  chain declares a concrete one, and `BuildCallGraph` skips every `None`
  target, as the null check of the A4 `buildCallGraph` does.
- Contexts are numbers below a bound that the selector respects. Unbounded
  call-string contexts are not modelled; without the bound, termination
  cannot be proved.
- Pta.Solver.Solve, PtaCi.SolveCI: prove that the result satisfies every rule
  (soundness), not that it is the least such state.
- Pta.Solver.SendToSuccs: appends the successors' entries in an unspecified
  order. The Java loop follows the iteration order of the successor set.
- Pta.Solver.AddPFGEdge: queues a copy of the source's current points-to set.
  The Java code queues the live set object, which later propagation may grow;
  both reach the same fixpoint.
- Call edges carry no call kind. The kind depends only on the call site.
- Statements are reduced to the roles the solver reads: allocations, copies,
  static field accesses and calls. The per-variable lists of instance-field and
  array accesses and of call sites are inputs.
- The A6 `visit(LoadArray)`/`visit(StoreArray)` and the A5 array visits do
  nothing, so those statements are `OtherStmt`.
- The text after the class's closing brace in the A6 solver (lines 342-360) is
  not part of any method and is not modelled.
- The A8 solver, which calls `captureTaintObj` and `doTaintTransfer`, is not part
  of this model. The transfers are modelled against the A6 solver class, as the
  entries they queue.
- Taint.CollectTaintFlows: returns a set. The A8 code uses an ordered `TreeSet`,
  whose order is not modelled.
- `onFinish`/`storeResult` hand the flows to the result store, and logging
  writes messages. Neither is modelled: both are output only.
- The A8 `gettransfer` is never called and is not modelled.
- The A7 work lists are modelled as sequences of statement indices; the ICFG
  iteration order is a parameter.

## Findings

| source | as written | input that shows it | evidently intended | confidence | as-written member | corrected member |
|---|---|---|---|---|---|---|
| A7/tai-e/src/main/java/pascal/taie/analysis/dataflow/inter/InterConstantPropagation.java:151 | each aliasing instance-field store replaces the load's value, because the meet starts from UNDEF every time | two stores `o.f = a` (a = 1) and `o.f = b` (b = 2) that alias the load `x = o.f` | the meet of all aliasing stores (NAC here), as the static-field loop at line 126 computes | not executed | InterConstProp.InstanceLoadKeepsOnlyLastStore | InterConstProp.LoadValue |
