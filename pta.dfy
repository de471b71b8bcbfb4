/** Context-sensitive pointer analysis (A6/.../pta/cs/Solver.java): the
    solver keeps points-to sets of context-sensitive pointers, a pointer
    flow graph (PFG), a call graph over context-sensitive methods and a
    work list of pending points-to facts; it processes new reachable
    methods statement by statement and propagates facts until the work
    list is empty. */
module Pta {
  import opened IR

  // ---------------------------------------------------------------------
  // Program, as the pointer analysis sees it

  /** Contexts are numbered; the selector says which number each
      context-sensitive element gets. */
  type Context = nat

  /** Abstract objects: allocation sites, and the taint objects of the
      taint plugin (made at a source call, with a type). */
  datatype Obj = AllocObj(site: nat) | TaintObj(sourceCall: nat, ty: nat)

  datatype CSObj = CSObj(ctx: Context, obj: Obj)

  datatype Pointer =
    | CSVar(ctx: Context, v: nat)
    | StaticField(field: nat)
    | InstanceField(base: CSObj, field: nat)
    | ArrayIndex(array: CSObj)

  datatype CSMethod = CSMethod(ctx: Context, m: nat)

  datatype CSCallSite = CSCallSite(ctx: Context, cs: nat)

  /** A call-graph edge; its kind is its call site's. */
  datatype CallEdge = CallEdge(site: CSCallSite, callee: CSMethod)

  /** The statements `StmtProcessor` visits; fields are resolved, and
      `StaticLoad`/`StaticStore` are the field accesses whose field is
      static.  Every other statement (instance field and array accesses,
      returns, ...) is `OtherStmt` here: the solver reaches those through
      the variables' use lists instead. */
  datatype PStmt =
    | New(lhs: nat, site: nat)
    | Copy(lhs: nat, rhs: nat)
    | StaticLoad(lhs: nat, field: nat)
    | StaticStore(field: nat, rhs: nat)
    | Call(cs: nat)
    | OtherStmt

  datatype MethodIR = MethodIR(
    params: seq<nat>, thisVar: nat, returnVars: seq<nat>, stmts: seq<PStmt>, returnType: nat)

  datatype CallSiteIR = CallSiteIR(isStatic: bool, args: seq<nat>, result: Option<nat>)

  /** The statements that use a variable as a base or receiver
      (`getLoadFields`, `getStoreFields`, `getLoadArrays`, `getStoreArrays`,
      `getInvokes`): (field, lhs) of each load, (field, rhs) of each store,
      the lhs of each array load, the rhs of each array store, and the call
      sites with the variable as receiver. */
  datatype VarUses = VarUses(
    loadFields: seq<(nat, nat)>,
    storeFields: seq<(nat, nat)>,
    loadArrays: seq<nat>,
    storeArrays: seq<nat>,
    invokes: seq<nat>)

  /** A whole program.  Variables, fields and types are numbered;
      `resolveCallee` is `CallGraphs.resolveCallee`: the method a call site
      invokes given the receiver object's type (`None` for a static call). */
  datatype Program = Program(
    methods: seq<MethodIR>,
    callSites: seq<CallSiteIR>,
    uses: map<nat, VarUses>,
    allocType: seq<nat>,
    resolveCallee: (Option<nat>, nat) -> nat,
    main: nat,
    numVars: nat,
    numFields: nat,
    numTypes: nat)

  /** The context selector: the empty context, the callee context of a
      static call and of an instance call, and the heap context of a new
      object.  Every context it makes is below `bound`. */
  datatype Selector = Selector(
    empty: Context,
    staticCtx: (CSCallSite, nat) -> Context,
    instanceCtx: (CSCallSite, CSObj, nat) -> Context,
    heapCtx: (CSMethod, Obj) -> Context,
    bound: nat)

  function UsesOf(prog: Program, v: nat): VarUses {
    if v in prog.uses then prog.uses[v] else VarUses([], [], [], [], [])
  }

  function TypeOf(prog: Program, o: Obj): nat
    requires o.AllocObj? ==> o.site < |prog.allocType|
  {
    match o
    case AllocObj(s) => prog.allocType[s]
    case TaintObj(_, t) => t
  }

  ghost predicate VarOk(prog: Program, v: nat) { v < prog.numVars }

  ghost predicate StmtOk(prog: Program, s: PStmt) {
    match s
    case New(x, site) => VarOk(prog, x) && site < |prog.allocType|
    case Copy(x, y) => VarOk(prog, x) && VarOk(prog, y)
    case StaticLoad(x, f) => VarOk(prog, x) && f < prog.numFields
    case StaticStore(f, y) => VarOk(prog, y) && f < prog.numFields
    case Call(cs) => cs < |prog.callSites|
    case OtherStmt => true
  }

  ghost predicate MethodOk(prog: Program, m: MethodIR) {
    && (forall i :: 0 <= i < |m.params| ==> VarOk(prog, m.params[i]))
    && VarOk(prog, m.thisVar)
    && (forall i :: 0 <= i < |m.returnVars| ==> VarOk(prog, m.returnVars[i]))
    && (forall i :: 0 <= i < |m.stmts| ==> StmtOk(prog, m.stmts[i]))
    && m.returnType < prog.numTypes
  }

  ghost predicate UsesOk(prog: Program, u: VarUses) {
    && (forall i :: 0 <= i < |u.loadFields| ==> u.loadFields[i].0 < prog.numFields && VarOk(prog, u.loadFields[i].1))
    && (forall i :: 0 <= i < |u.storeFields| ==> u.storeFields[i].0 < prog.numFields && VarOk(prog, u.storeFields[i].1))
    && (forall i :: 0 <= i < |u.loadArrays| ==> VarOk(prog, u.loadArrays[i]))
    && (forall i :: 0 <= i < |u.storeArrays| ==> VarOk(prog, u.storeArrays[i]))
    && (forall i :: 0 <= i < |u.invokes| ==> u.invokes[i] < |prog.callSites|)
  }

  /** Everything the program refers to exists, and every call site passes
      no more arguments than the method it resolves to has parameters. */
  ghost predicate WfProgram(prog: Program) {
    && prog.main < |prog.methods|
    && (forall m :: 0 <= m < |prog.methods| ==> MethodOk(prog, prog.methods[m]))
    && (forall cs :: 0 <= cs < |prog.callSites| ==>
          && (forall i :: 0 <= i < |prog.callSites[cs].args| ==> VarOk(prog, prog.callSites[cs].args[i]))
          && (prog.callSites[cs].result.Some? ==> VarOk(prog, prog.callSites[cs].result.value)))
    && (forall v :: v in prog.uses ==> UsesOk(prog, prog.uses[v]))
    && (forall k :: 0 <= k < |prog.allocType| ==> prog.allocType[k] < prog.numTypes)
    && (forall t, cs :: 0 <= cs < |prog.callSites| ==>
          prog.resolveCallee(t, cs) < |prog.methods|
          && |prog.callSites[cs].args| <= |prog.methods[prog.resolveCallee(t, cs)].params|)
  }

  ghost predicate WfSelector(sel: Selector) {
    && sel.empty < sel.bound
    && (forall site, m :: sel.staticCtx(site, m) < sel.bound)
    && (forall site, o, m :: sel.instanceCtx(site, o, m) < sel.bound)
    && (forall n, o :: sel.heapCtx(n, o) < sel.bound)
  }

  lemma UsesOfOk(prog: Program, v: nat)
    requires WfProgram(prog)
    ensures UsesOk(prog, UsesOf(prog, v))
  {
  }

  // ---------------------------------------------------------------------
  // The finite universe of pointers and objects

  ghost predicate ObjOk(prog: Program, o: Obj) {
    match o
    case AllocObj(s) => s < |prog.allocType|
    case TaintObj(c, t) => c < |prog.callSites| && t < prog.numTypes
  }

  ghost predicate CSObjOk(prog: Program, sel: Selector, o: CSObj) {
    o.ctx < sel.bound && ObjOk(prog, o.obj)
  }

  ghost predicate PointerOk(prog: Program, sel: Selector, p: Pointer) {
    match p
    case CSVar(c, v) => c < sel.bound && VarOk(prog, v)
    case StaticField(f) => f < prog.numFields
    case InstanceField(o, f) => CSObjOk(prog, sel, o) && f < prog.numFields
    case ArrayIndex(o) => CSObjOk(prog, sel, o)
  }

  ghost predicate CSMethodOk(prog: Program, sel: Selector, n: CSMethod) {
    n.ctx < sel.bound && n.m < |prog.methods|
  }

  ghost function ObjUniverse(prog: Program): set<Obj> {
    (set s | s in NatsBelow(|prog.allocType|) :: AllocObj(s))
    + (set c, t | c in NatsBelow(|prog.callSites|) && t in NatsBelow(prog.numTypes) :: TaintObj(c, t))
  }

  ghost function CSObjUniverse(prog: Program, sel: Selector): set<CSObj> {
    set c, o | c in NatsBelow(sel.bound) && o in ObjUniverse(prog) :: CSObj(c, o)
  }

  ghost function PointerUniverse(prog: Program, sel: Selector): set<Pointer> {
    (set c, v | c in NatsBelow(sel.bound) && v in NatsBelow(prog.numVars) :: CSVar(c, v))
    + (set f | f in NatsBelow(prog.numFields) :: StaticField(f))
    + (set o, f | o in CSObjUniverse(prog, sel) && f in NatsBelow(prog.numFields) :: InstanceField(o, f))
    + (set o | o in CSObjUniverse(prog, sel) :: ArrayIndex(o))
  }

  ghost function PairUniverse(prog: Program, sel: Selector): set<(Pointer, CSObj)> {
    set p, o | p in PointerUniverse(prog, sel) && o in CSObjUniverse(prog, sel) :: (p, o)
  }

  ghost function MethodUniverse(prog: Program, sel: Selector): set<CSMethod> {
    set c, m | c in NatsBelow(sel.bound) && m in NatsBelow(|prog.methods|) :: CSMethod(c, m)
  }

  lemma CSObjInUniverse(prog: Program, sel: Selector, o: CSObj)
    requires CSObjOk(prog, sel, o)
    ensures o in CSObjUniverse(prog, sel)
  {
    assert o.ctx in NatsBelow(sel.bound);
    match o.obj
    case AllocObj(s) =>
      assert s in NatsBelow(|prog.allocType|);
      assert o.obj in ObjUniverse(prog);
    case TaintObj(c, t) =>
      assert c in NatsBelow(|prog.callSites|) && t in NatsBelow(prog.numTypes);
      assert o.obj in ObjUniverse(prog);
  }

  lemma PairInUniverse(prog: Program, sel: Selector, p: Pointer, o: CSObj)
    requires PointerOk(prog, sel, p) && CSObjOk(prog, sel, o)
    ensures (p, o) in PairUniverse(prog, sel)
  {
    CSObjInUniverse(prog, sel, o);
    match p
    case CSVar(c, v) =>
      assert c in NatsBelow(sel.bound) && v in NatsBelow(prog.numVars);
    case StaticField(f) =>
      assert f in NatsBelow(prog.numFields);
    case InstanceField(b, f) =>
      CSObjInUniverse(prog, sel, b);
      assert f in NatsBelow(prog.numFields);
    case ArrayIndex(b) =>
      CSObjInUniverse(prog, sel, b);
    assert p in PointerUniverse(prog, sel);
  }

  lemma MethodInUniverse(prog: Program, sel: Selector, n: CSMethod)
    requires CSMethodOk(prog, sel, n)
    ensures n in MethodUniverse(prog, sel)
  {
    assert n.ctx in NatsBelow(sel.bound) && n.m in NatsBelow(|prog.methods|);
  }

  lemma {:induction false} SubsetCard<T>(A: set<T>, B: set<T>)
    requires A <= B
    ensures |A| <= |B|
    decreases |A|
  {
    if A != {} {
      var x :| x in A;
      SubsetCard(A - {x}, B - {x});
    }
  }

  /** Growing `A` strictly inside `U` shrinks what remains of `U`. */
  lemma StrictGrowth<T>(U: set<T>, A: set<T>, B: set<T>)
    requires A < B && B <= U
    ensures |U - B| < |U - A|
  {
    var x :| x in B && x !in A;
    assert x in U - A;
    SubsetCard(U - B, (U - A) - {x});
  }

  /** Growing `A` never enlarges what remains of `U`. */
  lemma Growth<T>(U: set<T>, A: set<T>, B: set<T>)
    requires A <= B
    ensures |U - B| <= |U - A|
  {
    SubsetCard(U - B, U - A);
  }

  // ---------------------------------------------------------------------
  // Solver state and the facts it keeps

  type Entry = (Pointer, set<CSObj>)

  datatype State = State(
    ptRel: set<(Pointer, CSObj)>,      // (p, o): o is in the points-to set of p
    pfg: set<(Pointer, Pointer)>,      // PFG edges source -> target
    callEdges: set<CallEdge>,
    reachable: set<CSMethod>,
    worklist: seq<Entry>)

  /** The points-to set of a pointer. */
  function PointsTo(ptRel: set<(Pointer, CSObj)>, p: Pointer): (r: set<CSObj>)
    ensures forall o :: o in r <==> (p, o) in ptRel
  {
    set pr | pr in ptRel && pr.0 == p :: pr.1
  }

  /** The PFG successors of a pointer. */
  function SuccsOf(pfg: set<(Pointer, Pointer)>, p: Pointer): (r: set<Pointer>)
    ensures forall t :: t in r <==> (p, t) in pfg
  {
    set e | e in pfg && e.0 == p :: e.1
  }

  /** The facts a work-list entry carries. */
  function EntryPairs(e: Entry): set<(Pointer, CSObj)> {
    set o | o in e.1 :: (e.0, o)
  }

  /** The facts all entries of a work list carry. */
  ghost function Pending(wl: seq<Entry>): set<(Pointer, CSObj)> {
    if wl == [] then {} else EntryPairs(wl[0]) + Pending(wl[1..])
  }

  lemma {:induction false} PendingAppend(wl: seq<Entry>, e: Entry)
    ensures Pending(wl + [e]) == Pending(wl) + EntryPairs(e)
    decreases |wl|
  {
    if wl == [] {
      assert wl + [e] == [e];
    } else {
      assert (wl + [e])[1..] == wl[1..] + [e];
      PendingAppend(wl[1..], e);
    }
  }

  lemma {:induction false} PendingConcat(a: seq<Entry>, b: seq<Entry>)
    ensures Pending(a + b) == Pending(a) + Pending(b)
    decreases |a|
  {
    if a == [] {
      assert a + b == b;
    } else {
      assert (a + b)[1..] == a[1..] + b;
      PendingConcat(a[1..], b);
    }
  }

  /** Each entry of a work list carries its facts into the list's. */
  lemma {:induction false} PendingHolds(wl: seq<Entry>, e: Entry)
    requires e in wl
    ensures EntryPairs(e) <= Pending(wl)
    decreases |wl|
  {
    if wl[0] != e {
      PendingHolds(wl[1..], e);
    }
  }

  /** The entries `(t, dta)`, one for each target `t`, in some order:
      the entries `propagate` queues for the successors of a pointer. */
  method EntriesTo(targets: set<Pointer>, dta: set<CSObj>) returns (es: seq<Entry>)
    ensures forall e :: e in es <==> e.1 == dta && e.0 in targets
    ensures |es| == |targets|
  {
    var todo := targets;
    es := [];
    while todo != {}
      invariant todo <= targets
      invariant forall e :: e in es <==> e.1 == dta && e.0 in targets - todo
      invariant |es| == |targets - todo|
      decreases |todo|
    {
      var t :| t in todo;
      assert targets - (todo - {t}) == (targets - todo) + {t};
      es := es + [(t, dta)];
      todo := todo - {t};
    }
  }

  /** Appending, for one pointer `p`, entries of `dta` for successors of `p`
      keeps the state valid. */
  lemma SendStepValid(prog: Program, sel: Selector, st: State, p: Pointer, dta: set<CSObj>, added: seq<Entry>)
    requires StValid(prog, sel, st) && forall o :: o in dta ==> CSObjOk(prog, sel, o)
    requires forall e :: e in added ==> e.1 == dta && (p, e.0) in st.pfg
    ensures StValid(prog, sel, st.(worklist := st.worklist + added))
  {
    var wl := st.worklist + added;
    forall i | 0 <= i < |wl| ensures EntryOk(prog, sel, wl[i]) {
      if i < |st.worklist| {
        assert wl[i] == st.worklist[i];
      } else {
        assert wl[i] == added[i - |st.worklist|];
      }
    }
  }

  /** Appending entries delivers each entry's facts, on top of the facts
      known before. */
  lemma SendStepKnown(st: State, added: seq<Entry>)
    ensures Known(st.(worklist := st.worklist + added)) == Known(st) + Pending(added)
    ensures forall e :: e in added ==> EntryPairs(e) <= Known(st.(worklist := st.worklist + added))
  {
    PendingConcat(st.worklist, added);
    forall e | e in added ensures EntryPairs(e) <= Pending(added) {
      PendingHolds(added, e);
    }
  }

  lemma EntryPairsRemove(p: Pointer, objs: set<CSObj>, o: CSObj)
    ensures EntryPairs((p, objs)) - {(p, o)} == EntryPairs((p, objs - {o}))
  {
    assert forall pr :: pr in EntryPairs((p, objs)) - {(p, o)} ==> pr in EntryPairs((p, objs - {o}));
  }

  /** Facts that are in a points-to set or on their way there. */
  ghost function Known(st: State): set<(Pointer, CSObj)> {
    st.ptRel + Pending(st.worklist)
  }

  lemma KnownWhenEmpty(st: State)
    requires st.worklist == []
    ensures Known(st) == st.ptRel
  {
  }

  /** Everything in the state lies in the universe. */
  ghost predicate StValid(prog: Program, sel: Selector, st: State) {
    && (forall pr :: pr in st.ptRel ==> PointerOk(prog, sel, pr.0) && CSObjOk(prog, sel, pr.1))
    && (forall e :: e in st.pfg ==> PointerOk(prog, sel, e.0) && PointerOk(prog, sel, e.1))
    && (forall i :: 0 <= i < |st.worklist| ==> EntryOk(prog, sel, st.worklist[i]))
    && (forall n :: n in st.reachable ==> CSMethodOk(prog, sel, n))
    && (forall e :: e in st.callEdges ==> CallEdgeOk(prog, sel, e))
  }

  ghost predicate EntryOk(prog: Program, sel: Selector, e: Entry) {
    PointerOk(prog, sel, e.0) && forall o :: o in e.1 ==> CSObjOk(prog, sel, o)
  }

  ghost predicate CallEdgeOk(prog: Program, sel: Selector, e: CallEdge) {
    e.site.ctx < sel.bound && e.site.cs < |prog.callSites| && CSMethodOk(prog, sel, e.callee)
  }

  /** The solver's central invariant: along every PFG edge, each object of
      the source is known for the target, counting the facts in `extra`. */
  ghost predicate ClosedWith(st: State, extra: set<(Pointer, CSObj)>) {
    forall s, t, o :: (s, t) in st.pfg && (s, o) in st.ptRel ==> (t, o) in Known(st) + extra
  }

  ghost predicate Closed(st: State) {
    ClosedWith(st, {})
  }

  /** Nothing known is lost, and the graphs only grow. */
  ghost predicate Grows(s1: State, s2: State) {
    && s1.ptRel <= s2.ptRel
    && Known(s1) <= Known(s2)
    && s1.pfg <= s2.pfg
    && s1.callEdges <= s2.callEdges
    && s1.reachable <= s2.reachable
  }

  // ---------------------------------------------------------------------
  // The rules a finished solver satisfies

  /** The rule of one statement of a reachable method. */
  ghost predicate StmtRule(prog: Program, sel: Selector, st: State, n: CSMethod, s: PStmt)
    requires WfProgram(prog) && StmtOk(prog, s)
  {
    match s
    case New(x, site) =>
      (CSVar(n.ctx, x), CSObj(sel.heapCtx(n, AllocObj(site)), AllocObj(site))) in Known(st)
    case Copy(x, y) => (CSVar(n.ctx, y), CSVar(n.ctx, x)) in st.pfg
    case StaticLoad(x, f) => (StaticField(f), CSVar(n.ctx, x)) in st.pfg
    case StaticStore(f, y) => (CSVar(n.ctx, y), StaticField(f)) in st.pfg
    case Call(cs) =>
      prog.callSites[cs].isStatic ==>
        var site := CSCallSite(n.ctx, cs);
        var callee := prog.resolveCallee(None, cs);
        CallEdge(site, CSMethod(sel.staticCtx(site, callee), callee)) in st.callEdges
    case OtherStmt => true
  }

  /** The first `k` statements of a method obey their rules. */
  ghost predicate PrefixDone(prog: Program, sel: Selector, st: State, n: CSMethod, k: nat)
    requires WfProgram(prog) && n.m < |prog.methods| && k <= |prog.methods[n.m].stmts|
  {
    forall i :: 0 <= i < k ==> StmtRule(prog, sel, st, n, prog.methods[n.m].stmts[i])
  }

  /** The PFG edge a copy or static field access adds. */
  function VisitEdge(n: CSMethod, s: PStmt): (Pointer, Pointer)
    requires s.Copy? || s.StaticLoad? || s.StaticStore?
  {
    match s
    case Copy(x, y) => (CSVar(n.ctx, y), CSVar(n.ctx, x))
    case StaticLoad(x, f) => (StaticField(f), CSVar(n.ctx, x))
    case StaticStore(f, y) => (CSVar(n.ctx, y), StaticField(f))
  }

  /** Every statement of a method obeys its rule. */
  ghost predicate MethodDone(prog: Program, sel: Selector, st: State, n: CSMethod)
    requires WfProgram(prog) && n.m < |prog.methods|
  {
    PrefixDone(prog, sel, st, n, |prog.methods[n.m].stmts|)
  }

  lemma PrefixDoneStep(prog: Program, sel: Selector, s1: State, s2: State, n: CSMethod, k: nat)
    requires WfProgram(prog) && n.m < |prog.methods| && k < |prog.methods[n.m].stmts|
    requires Grows(s1, s2) && PrefixDone(prog, sel, s1, n, k)
    requires StmtRule(prog, sel, s2, n, prog.methods[n.m].stmts[k])
    ensures PrefixDone(prog, sel, s2, n, k + 1)
  {
    forall i | 0 <= i < k
      ensures StmtRule(prog, sel, s2, n, prog.methods[n.m].stmts[i])
    {
      StmtRuleGrows(prog, sel, s1, s2, n, prog.methods[n.m].stmts[i]);
    }
  }

  /** The rule of a call edge: the callee is reachable, each argument flows
      to its parameter, and each return variable flows to the result. */
  ghost predicate CallEdgeRule(prog: Program, sel: Selector, st: State, e: CallEdge)
    requires WfProgram(prog) && CallEdgeOk(prog, sel, e)
  {
    var site, callee := prog.callSites[e.site.cs], prog.methods[e.callee.m];
    && e.callee in st.reachable
    && |site.args| <= |callee.params|
    && (forall i :: 0 <= i < |site.args| ==>
          (CSVar(e.site.ctx, site.args[i]), CSVar(e.callee.ctx, callee.params[i])) in st.pfg)
    && (site.result.Some? ==> forall i :: 0 <= i < |callee.returnVars| ==>
          (CSVar(e.callee.ctx, callee.returnVars[i]), CSVar(e.site.ctx, site.result.value)) in st.pfg)
  }

  /** The callee context of an instance call on receiver object `o`. */
  function InstanceCallee(prog: Program, sel: Selector, site: CSCallSite, o: CSObj): CSMethod
    requires o.obj.AllocObj? ==> o.obj.site < |prog.allocType|
  {
    var callee := prog.resolveCallee(Some(TypeOf(prog, o.obj)), site.cs);
    CSMethod(sel.instanceCtx(site, o, callee), callee)
  }

  /** The field and array rules for an object `o` of variable `v` in
      context `c`. */
  ghost predicate AccessRules(prog: Program, st: State, c: Context, v: nat, o: CSObj) {
    var u := UsesOf(prog, v);
    && (forall i :: 0 <= i < |u.loadFields| ==>
          (InstanceField(o, u.loadFields[i].0), CSVar(c, u.loadFields[i].1)) in st.pfg)
    && (forall i :: 0 <= i < |u.storeFields| ==>
          (CSVar(c, u.storeFields[i].1), InstanceField(o, u.storeFields[i].0)) in st.pfg)
    && (forall i :: 0 <= i < |u.loadArrays| ==> (ArrayIndex(o), CSVar(c, u.loadArrays[i])) in st.pfg)
    && (forall i :: 0 <= i < |u.storeArrays| ==> (CSVar(c, u.storeArrays[i]), ArrayIndex(o)) in st.pfg)
  }

  /** The rule of one instance call site `cs` on a receiver object `o` of
      a variable in context `c`: `o` is known for the callee's `this`, and
      the call edge exists. */
  ghost predicate InvokeRule(prog: Program, sel: Selector, st: State, c: Context, cs: nat, o: CSObj)
    requires WfProgram(prog) && cs < |prog.callSites| && CSObjOk(prog, sel, o)
  {
    var site := CSCallSite(c, cs);
    var callee := InstanceCallee(prog, sel, site, o);
    && (CSVar(callee.ctx, prog.methods[callee.m].thisVar), o) in Known(st)
    && CallEdge(site, callee) in st.callEdges
  }

  /** The rules of the first `k` call sites on `v`. */
  ghost predicate InvokesDone(prog: Program, sel: Selector, st: State, c: Context, v: nat, o: CSObj, k: nat)
    requires WfProgram(prog) && CSObjOk(prog, sel, o)
  {
    var u := UsesOf(prog, v);
    UsesOk(prog, u) && k <= |u.invokes| &&
    forall i :: 0 <= i < k ==> InvokeRule(prog, sel, st, c, u.invokes[i], o)
  }

  /** The instance-call rules for a receiver object `o` of `v` in context
      `c`, one per call site on `v`. */
  ghost predicate CallRules(prog: Program, sel: Selector, st: State, c: Context, v: nat, o: CSObj)
    requires WfProgram(prog) && CSObjOk(prog, sel, o)
  {
    InvokesDone(prog, sel, st, c, v, o, |UsesOf(prog, v).invokes|)
  }

  lemma InvokesDoneStep(prog: Program, sel: Selector, s1: State, s2: State, c: Context, v: nat, o: CSObj, k: nat)
    requires WfProgram(prog) && CSObjOk(prog, sel, o) && Grows(s1, s2)
    requires InvokesDone(prog, sel, s1, c, v, o, k) && k < |UsesOf(prog, v).invokes|
    requires InvokeRule(prog, sel, s2, c, UsesOf(prog, v).invokes[k], o)
    ensures InvokesDone(prog, sel, s2, c, v, o, k + 1)
  {
    var u := UsesOf(prog, v);
    forall i | 0 <= i < k
      ensures InvokeRule(prog, sel, s2, c, u.invokes[i], o)
    {
      InvokeRuleGrows(prog, sel, s1, s2, c, u.invokes[i], o);
    }
  }

  ghost predicate ObjRules(prog: Program, sel: Selector, st: State, c: Context, v: nat, o: CSObj)
    requires WfProgram(prog) && CSObjOk(prog, sel, o)
  {
    AccessRules(prog, st, c, v, o) && CallRules(prog, sel, st, c, v, o)
  }

  /** Every rule holds for all reachable methods, all call edges and all
      objects of all variables, except for the (variable, object) facts in
      `todo`, whose objects are still to be processed. */
  ghost predicate RulesExcept(prog: Program, sel: Selector, st: State, todo: set<(Pointer, CSObj)>)
    requires WfProgram(prog) && StValid(prog, sel, st)
  {
    && (forall n :: n in st.reachable ==> MethodDone(prog, sel, st, n))
    && (forall e :: e in st.callEdges ==> CallEdgeRule(prog, sel, st, e))
    && (forall c, v, o :: (CSVar(c, v), o) in st.ptRel && (CSVar(c, v), o) !in todo ==>
          ObjRules(prog, sel, st, c, v, o))
  }

  ghost predicate AllRules(prog: Program, sel: Selector, st: State)
    requires WfProgram(prog) && StValid(prog, sel, st)
  {
    RulesExcept(prog, sel, st, {})
  }

  // ---------------------------------------------------------------------
  // The rules survive growth

  lemma StmtRuleGrows(prog: Program, sel: Selector, s1: State, s2: State, n: CSMethod, s: PStmt)
    requires WfProgram(prog) && StmtOk(prog, s) && Grows(s1, s2)
    requires StmtRule(prog, sel, s1, n, s)
    ensures StmtRule(prog, sel, s2, n, s)
  {
  }

  lemma MethodDoneGrows(prog: Program, sel: Selector, s1: State, s2: State, n: CSMethod)
    requires WfProgram(prog) && n.m < |prog.methods| && Grows(s1, s2)
    requires MethodDone(prog, sel, s1, n)
    ensures MethodDone(prog, sel, s2, n)
  {
    forall i | 0 <= i < |prog.methods[n.m].stmts|
      ensures StmtRule(prog, sel, s2, n, prog.methods[n.m].stmts[i])
    {
      assert MethodOk(prog, prog.methods[n.m]);
      StmtRuleGrows(prog, sel, s1, s2, n, prog.methods[n.m].stmts[i]);
    }
  }

  lemma CallEdgeRuleGrows(prog: Program, sel: Selector, s1: State, s2: State, e: CallEdge)
    requires WfProgram(prog) && CallEdgeOk(prog, sel, e) && Grows(s1, s2)
    requires CallEdgeRule(prog, sel, s1, e)
    ensures CallEdgeRule(prog, sel, s2, e)
  {
  }

  lemma ObjRulesGrow(prog: Program, sel: Selector, s1: State, s2: State, c: Context, v: nat, o: CSObj)
    requires WfProgram(prog) && CSObjOk(prog, sel, o) && Grows(s1, s2)
    requires ObjRules(prog, sel, s1, c, v, o)
    ensures ObjRules(prog, sel, s2, c, v, o)
  {
  }

  lemma InvokeRuleGrows(prog: Program, sel: Selector, s1: State, s2: State, c: Context, cs: nat, o: CSObj)
    requires WfProgram(prog) && cs < |prog.callSites| && CSObjOk(prog, sel, o) && Grows(s1, s2)
    requires InvokeRule(prog, sel, s1, c, cs, o)
    ensures InvokeRule(prog, sel, s2, c, cs, o)
  {
  }

  /** The rules of everything that is new in `s2` compared with `s0`. */
  ghost predicate NewDone(prog: Program, sel: Selector, s0: State, s2: State)
    requires WfProgram(prog) && StValid(prog, sel, s2)
  {
    && (forall n :: n in s2.reachable && n !in s0.reachable ==> MethodDone(prog, sel, s2, n))
    && (forall e :: e in s2.callEdges && e !in s0.callEdges ==> CallEdgeRule(prog, sel, s2, e))
  }

  /** `NewDone` composes: what a first step made new and finished, and what
      a second step made new and finished, are both finished at the end. */
  lemma NewDoneCompose(prog: Program, sel: Selector, s0: State, s1: State, s2: State)
    requires WfProgram(prog) && StValid(prog, sel, s1) && StValid(prog, sel, s2)
    requires Grows(s1, s2) && NewDone(prog, sel, s0, s1) && NewDone(prog, sel, s1, s2)
    ensures NewDone(prog, sel, s0, s2)
  {
    forall n | n in s2.reachable && n !in s0.reachable
      ensures MethodDone(prog, sel, s2, n)
    {
      if n in s1.reachable {
        MethodDoneGrows(prog, sel, s1, s2, n);
      }
    }
    forall e | e in s2.callEdges && e !in s0.callEdges
      ensures CallEdgeRule(prog, sel, s2, e)
    {
      if e in s1.callEdges {
        CallEdgeRuleGrows(prog, sel, s1, s2, e);
      }
    }
  }

  /** One step of the solver that leaves the points-to sets alone: all
      else only grows, and the methods and call edges it adds have their
      rules. */
  ghost predicate Advances(prog: Program, sel: Selector, s0: State, s1: State)
    requires WfProgram(prog) && StValid(prog, sel, s1)
  {
    Grows(s0, s1) && s1.ptRel == s0.ptRel && NewDone(prog, sel, s0, s1)
  }

  lemma AdvancesCompose(prog: Program, sel: Selector, s0: State, s1: State, s2: State)
    requires WfProgram(prog) && StValid(prog, sel, s1) && StValid(prog, sel, s2)
    requires Advances(prog, sel, s0, s1) && Advances(prog, sel, s1, s2)
    ensures Advances(prog, sel, s0, s2)
  {
    NewDoneCompose(prog, sel, s0, s1, s2);
  }

  /** After a propagation that added the objects `dta` to `p`, all rules
      hold except for the new facts of `p`. */
  lemma RulesAfterPropagate(prog: Program, sel: Selector, s0: State, s1: State, p: Pointer, dta: set<CSObj>)
    requires WfProgram(prog) && StValid(prog, sel, s0) && StValid(prog, sel, s1)
    requires AllRules(prog, sel, s0) && Grows(s0, s1)
    requires s1.ptRel == s0.ptRel + EntryPairs((p, dta))
    requires s1.reachable == s0.reachable && s1.callEdges == s0.callEdges
    ensures RulesExcept(prog, sel, s1, EntryPairs((p, dta)))
  {
    forall n | n in s1.reachable ensures MethodDone(prog, sel, s1, n) {
      MethodDoneGrows(prog, sel, s0, s1, n);
    }
    forall e | e in s1.callEdges ensures CallEdgeRule(prog, sel, s1, e) {
      CallEdgeRuleGrows(prog, sel, s0, s1, e);
    }
    forall c, v, o | (CSVar(c, v), o) in s1.ptRel && (CSVar(c, v), o) !in EntryPairs((p, dta))
      ensures ObjRules(prog, sel, s1, c, v, o)
    {
      ObjRulesGrow(prog, sel, s0, s1, c, v, o);
    }
  }

  /** Processing one pending object of a variable keeps the other rules
      and settles that object. */
  lemma RulesExceptStep(prog: Program, sel: Selector, s1: State, s2: State,
                        todo: set<(Pointer, CSObj)>, c: Context, v: nat, o: CSObj)
    requires WfProgram(prog) && StValid(prog, sel, s1) && StValid(prog, sel, s2)
    requires RulesExcept(prog, sel, s1, todo) && Advances(prog, sel, s1, s2)
    requires CSObjOk(prog, sel, o) && ObjRules(prog, sel, s2, c, v, o)
    ensures RulesExcept(prog, sel, s2, todo - {(CSVar(c, v), o)})
  {
    forall n | n in s2.reachable ensures MethodDone(prog, sel, s2, n) {
      if n in s1.reachable {
        MethodDoneGrows(prog, sel, s1, s2, n);
      }
    }
    forall e | e in s2.callEdges ensures CallEdgeRule(prog, sel, s2, e) {
      if e in s1.callEdges {
        CallEdgeRuleGrows(prog, sel, s1, s2, e);
      }
    }
    forall c', v', o' | (CSVar(c', v'), o') in s2.ptRel && (CSVar(c', v'), o') !in todo - {(CSVar(c, v), o)}
      ensures ObjRules(prog, sel, s2, c', v', o')
    {
      if (CSVar(c', v'), o') != (CSVar(c, v), o) {
        ObjRulesGrow(prog, sel, s1, s2, c', v', o');
      }
    }
  }

  lemma PtInUniverse(prog: Program, sel: Selector, st: State)
    requires StValid(prog, sel, st)
    ensures st.ptRel <= PairUniverse(prog, sel)
  {
    forall pr | pr in st.ptRel ensures pr in PairUniverse(prog, sel) {
      PairInUniverse(prog, sel, pr.0, pr.1);
    }
  }

  lemma ReachableInUniverse(prog: Program, sel: Selector, st: State)
    requires StValid(prog, sel, st)
    ensures st.reachable <= MethodUniverse(prog, sel)
  {
    forall n | n in st.reachable ensures n in MethodUniverse(prog, sel) {
      MethodInUniverse(prog, sel, n);
    }
  }

  /** At an empty work list, closure means that points-to sets include
      those of their PFG predecessors. */
  lemma ClosedAtFixpoint(st: State)
    requires Closed(st) && st.worklist == []
    ensures forall s, t, o :: (s, t) in st.pfg && (s, o) in st.ptRel ==> (t, o) in st.ptRel
  {
    KnownWhenEmpty(st);
  }

  /** What a solved state means, rule by rule, in terms of points-to sets:
      a reachable method's allocations are in their variables' sets, copies
      and field loads and stores include their sources' sets, receiver
      objects reach the callee's `this`, and arguments reach parameters. */
  lemma SolvedRules(prog: Program, sel: Selector, st: State)
    requires WfProgram(prog) && StValid(prog, sel, st) && Closed(st) && AllRules(prog, sel, st)
    requires st.worklist == []
    ensures forall n, i :: n in st.reachable && 0 <= i < |prog.methods[n.m].stmts| && prog.methods[n.m].stmts[i].New? ==>
              var s := prog.methods[n.m].stmts[i];
              (CSVar(n.ctx, s.lhs), CSObj(sel.heapCtx(n, AllocObj(s.site)), AllocObj(s.site))) in st.ptRel
    ensures forall n, i, o ::
              (&& n in st.reachable && 0 <= i < |prog.methods[n.m].stmts| && prog.methods[n.m].stmts[i].Copy?
               && (CSVar(n.ctx, prog.methods[n.m].stmts[i].rhs), o) in st.ptRel) ==>
              (CSVar(n.ctx, prog.methods[n.m].stmts[i].lhs), o) in st.ptRel
    ensures forall c, v, o, i, o2 ::
              (&& (CSVar(c, v), o) in st.ptRel && 0 <= i < |UsesOf(prog, v).loadFields|
               && (InstanceField(o, UsesOf(prog, v).loadFields[i].0), o2) in st.ptRel) ==>
              (CSVar(c, UsesOf(prog, v).loadFields[i].1), o2) in st.ptRel
    ensures forall c, v, o, i, o2 ::
              (&& (CSVar(c, v), o) in st.ptRel && 0 <= i < |UsesOf(prog, v).storeFields|
               && (CSVar(c, UsesOf(prog, v).storeFields[i].1), o2) in st.ptRel) ==>
              (InstanceField(o, UsesOf(prog, v).storeFields[i].0), o2) in st.ptRel
    ensures forall c, v, o, i :: (CSVar(c, v), o) in st.ptRel && 0 <= i < |UsesOf(prog, v).invokes| ==>
              var callee := InstanceCallee(prog, sel, CSCallSite(c, UsesOf(prog, v).invokes[i]), o);
              && (CSVar(callee.ctx, prog.methods[callee.m].thisVar), o) in st.ptRel
              && CallEdge(CSCallSite(c, UsesOf(prog, v).invokes[i]), callee) in st.callEdges
    ensures forall e, i, o ::
              (&& e in st.callEdges && 0 <= i < |prog.callSites[e.site.cs].args|
               && (CSVar(e.site.ctx, prog.callSites[e.site.cs].args[i]), o) in st.ptRel) ==>
              e.callee in st.reachable &&
              (CSVar(e.callee.ctx, prog.methods[e.callee.m].params[i]), o) in st.ptRel
  {
    KnownWhenEmpty(st);
    forall n, i | n in st.reachable && 0 <= i < |prog.methods[n.m].stmts|
      ensures StmtRule(prog, sel, st, n, prog.methods[n.m].stmts[i])
    {
      assert MethodDone(prog, sel, st, n);
    }
    forall c, v, o | (CSVar(c, v), o) in st.ptRel
      ensures AccessRules(prog, st, c, v, o) && CallRules(prog, sel, st, c, v, o)
    {
      assert ObjRules(prog, sel, st, c, v, o);
    }
    forall e | e in st.callEdges
      ensures CallEdgeRule(prog, sel, st, e)
    {
    }
  }

  /** The state after `addPFGEdge` adds a new edge (s, t): valid, closed,
      and an advance of the state before. */
  lemma NewEdgeStep(prog: Program, sel: Selector, st: State, s: Pointer, t: Pointer)
    requires WfProgram(prog) && StValid(prog, sel, st) && Closed(st)
    requires PointerOk(prog, sel, s) && PointerOk(prog, sel, t)
    ensures var pts := PointsTo(st.ptRel, s);
            var st' := st.(pfg := st.pfg + {(s, t)},
                           worklist := st.worklist + if pts == {} then [] else [(t, pts)]);
            StValid(prog, sel, st') && Closed(st') && Advances(prog, sel, st, st')
  {
    var pts := PointsTo(st.ptRel, s);
    var st' := st.(pfg := st.pfg + {(s, t)},
                   worklist := st.worklist + if pts == {} then [] else [(t, pts)]);
    if pts != {} {
      PendingAppend(st.worklist, (t, pts));
      assert forall o :: (s, o) in st.ptRel ==> (t, o) in EntryPairs((t, pts));
    } else {
      assert st'.worklist == st.worklist;
    }
    assert Known(st) <= Known(st');
  }

  // ---------------------------------------------------------------------
  // The solver

  class Solver {
    const prog: Program
    const sel: Selector
    var ptRel: set<(Pointer, CSObj)>
    var pfg: set<(Pointer, Pointer)>
    var callEdges: set<CallEdge>
    var reachable: set<CSMethod>
    var worklist: seq<Entry>

    ghost function St(): State
      reads this
    {
      State(ptRel, pfg, callEdges, reachable, worklist)
    }

    ghost predicate Inv()
      reads this
    {
      WfProgram(prog) && WfSelector(sel) && StValid(prog, sel, St()) && Closed(St())
    }

    /** A solver with empty points-to sets, graphs and work list. */
    constructor (prog: Program, sel: Selector)
      requires WfProgram(prog) && WfSelector(sel)
      ensures this.prog == prog && this.sel == sel
      ensures St() == State({}, {}, {}, {}, [])
      ensures Inv()
    {
      this.prog := prog;
      this.sel := sel;
      ptRel, pfg, callEdges, reachable, worklist := {}, {}, {}, {}, [];
    }

    /** Appends an entry to the work list. */
    method Push(e: Entry)
      requires WfProgram(prog) && WfSelector(sel) && StValid(prog, sel, St()) && EntryOk(prog, sel, e)
      modifies this
      ensures StValid(prog, sel, St())
      ensures St() == old(St()).(worklist := old(worklist) + [e])
      ensures Known(St()) == Known(old(St())) + EntryPairs(e)
    {
      PendingAppend(worklist, e);
      worklist := worklist + [e];
    }

    /** `WorkList.addEntry`. */
    method AddEntry(p: Pointer, objs: set<CSObj>)
      requires Inv() && EntryOk(prog, sel, (p, objs))
      modifies this
      ensures Inv() && Advances(prog, sel, old(St()), St())
      ensures St() == old(St()).(worklist := old(worklist) + [(p, objs)])
      ensures Known(St()) == Known(old(St())) + EntryPairs((p, objs))
    {
      Push((p, objs));
    }

    /** `addPFGEdge`: a new edge forwards the source's current points-to
        set to the target. */
    method AddPFGEdge(s: Pointer, t: Pointer)
      requires Inv() && PointerOk(prog, sel, s) && PointerOk(prog, sel, t)
      modifies this
      ensures Inv() && Advances(prog, sel, old(St()), St())
      ensures (s, t) in old(pfg) ==> St() == old(St())
      ensures (s, t) !in old(pfg) ==>
                St() == old(St()).(pfg := old(pfg) + {(s, t)},
                                   worklist := old(worklist) + if PointsTo(old(ptRel), s) == {} then []
                                                               else [(t, PointsTo(old(ptRel), s))])
    {
      if (s, t) !in pfg {
        ghost var s0 := St();
        var pts := PointsTo(ptRel, s);
        NewEdgeStep(prog, sel, s0, s, t);
        pfg := pfg + {(s, t)};
        if pts != {} {
          worklist := worklist + [(t, pts)];
        }
      }
    }
  
    /** `addReachable`: a method that becomes reachable has each of its
        statements processed; afterwards every method and call edge the
        call added obeys its rule. */
    method AddReachable(n: CSMethod)
      requires Inv() && CSMethodOk(prog, sel, n)
      modifies this
      ensures Inv() && Advances(prog, sel, old(St()), St())
      ensures n in reachable
      ensures n in old(reachable) ==> St() == old(St())
      decreases |MethodUniverse(prog, sel) - reachable|, 0
    {
      if n in reachable {
        return;
      }
      ghost var s0 := St();
      MethodInUniverse(prog, sel, n);
      ReachableInUniverse(prog, sel, s0);
      reachable := reachable + {n};
      StrictGrowth(MethodUniverse(prog, sel), s0.reachable, reachable);
      ghost var s1 := St();
      var stmts := prog.methods[n.m].stmts;
      assert MethodOk(prog, prog.methods[n.m]);
      var i := 0;
      while i < |stmts|
        invariant 0 <= i <= |stmts|
        invariant Inv() && n in reachable
        invariant Grows(s1, St()) && ptRel == s0.ptRel && NewDone(prog, sel, s1, St())
        invariant |MethodUniverse(prog, sel) - reachable| < |MethodUniverse(prog, sel) - s0.reachable|
        invariant PrefixDone(prog, sel, St(), n, i)
      {
        ghost var sb := St();
        Visit(n, stmts[i]);
        PrefixDoneStep(prog, sel, sb, St(), n, i);
        NewDoneCompose(prog, sel, s1, sb, St());
        Growth(MethodUniverse(prog, sel), sb.reachable, reachable);
        i := i + 1;
      }
    }

    /** `StmtProcessor.visit`: the rule of the statement holds afterwards. */
    method Visit(n: CSMethod, s: PStmt)
      requires Inv() && CSMethodOk(prog, sel, n) && StmtOk(prog, s)
      modifies this
      ensures Inv() && Advances(prog, sel, old(St()), St())
      ensures StmtRule(prog, sel, St(), n, s)
      ensures s.New? ==>
                St() == old(St()).(worklist := old(worklist) +
                  [(CSVar(n.ctx, s.lhs), {CSObj(sel.heapCtx(n, AllocObj(s.site)), AllocObj(s.site))})])
      ensures s.Copy? || s.StaticLoad? || s.StaticStore? ==>
                ptRel == old(ptRel) && callEdges == old(callEdges) && reachable == old(reachable)
                && pfg == old(pfg) + {VisitEdge(n, s)}
      ensures s.OtherStmt? || (s.Call? && !prog.callSites[s.cs].isStatic) ==> St() == old(St())
      decreases |MethodUniverse(prog, sel) - reachable|, 2
    {
      match s
      case New(x, site) =>
        var o := CSObj(sel.heapCtx(n, AllocObj(site)), AllocObj(site));
        AddEntry(CSVar(n.ctx, x), {o});
        assert (CSVar(n.ctx, x), o) in EntryPairs((CSVar(n.ctx, x), {o}));
      case Copy(x, y) =>
        AddPFGEdge(CSVar(n.ctx, y), CSVar(n.ctx, x));
      case StaticLoad(x, f) =>
        AddPFGEdge(StaticField(f), CSVar(n.ctx, x));
      case StaticStore(f, y) =>
        AddPFGEdge(CSVar(n.ctx, y), StaticField(f));
      case Call(cs) =>
        if prog.callSites[cs].isStatic {
          var site := CSCallSite(n.ctx, cs);
          var callee := prog.resolveCallee(None, cs);
          ProcessCallEdge(site, CSMethod(sel.staticCtx(site, callee), callee));
        }
      case OtherStmt =>
    }

    /** The part `visit(Invoke)` and `processCall` share: a new call edge
        makes its callee reachable and connects arguments to parameters and
        return variables to the result. */
    method ProcessCallEdge(site: CSCallSite, callee: CSMethod)
      requires Inv() && CallEdgeOk(prog, sel, CallEdge(site, callee))
      requires |prog.callSites[site.cs].args| <= |prog.methods[callee.m].params|
      modifies this
      ensures Inv() && Advances(prog, sel, old(St()), St())
      ensures CallEdge(site, callee) in callEdges
      ensures CallEdge(site, callee) in old(callEdges) ==> St() == old(St())
      decreases |MethodUniverse(prog, sel) - reachable|, 1
    {
      var e := CallEdge(site, callee);
      if e in callEdges {
        return;
      }
      ghost var s0 := St();
      callEdges := callEdges + {e};
      ghost var s1 := St();
      AddReachable(callee);
      ghost var s2 := St();
      ConnectArgs(site, callee);
      NewDoneCompose(prog, sel, s1, s2, St());
      ghost var s3 := St();
      ConnectReturns(site, callee);
      NewDoneCompose(prog, sel, s1, s3, St());
      assert CallEdgeRule(prog, sel, St(), e);
    }
  
    /** Argument-to-parameter edges of a call edge. */
    method ConnectArgs(site: CSCallSite, callee: CSMethod)
      requires Inv() && CallEdgeOk(prog, sel, CallEdge(site, callee))
      requires |prog.callSites[site.cs].args| <= |prog.methods[callee.m].params|
      modifies this
      ensures Inv() && Advances(prog, sel, old(St()), St())
      ensures callEdges == old(callEdges) && reachable == old(reachable)
      ensures forall j :: 0 <= j < |prog.callSites[site.cs].args| ==>
                (CSVar(site.ctx, prog.callSites[site.cs].args[j]),
                 CSVar(callee.ctx, prog.methods[callee.m].params[j])) in pfg
    {
      var cs, m := prog.callSites[site.cs], prog.methods[callee.m];
      assert MethodOk(prog, m);
      ghost var s0 := St();
      var i := 0;
      while i < |cs.args|
        invariant 0 <= i <= |cs.args|
        invariant Inv() && Advances(prog, sel, s0, St())
        invariant callEdges == s0.callEdges && reachable == s0.reachable
        invariant forall j :: 0 <= j < i ==> (CSVar(site.ctx, cs.args[j]), CSVar(callee.ctx, m.params[j])) in pfg
      {
        AddPFGEdge(CSVar(site.ctx, cs.args[i]), CSVar(callee.ctx, m.params[i]));
        i := i + 1;
      }
    }

    /** Return-variable-to-result edges of a call edge. */
    method ConnectReturns(site: CSCallSite, callee: CSMethod)
      requires Inv() && CallEdgeOk(prog, sel, CallEdge(site, callee))
      modifies this
      ensures Inv() && Advances(prog, sel, old(St()), St())
      ensures callEdges == old(callEdges) && reachable == old(reachable)
      ensures prog.callSites[site.cs].result.Some? ==>
                forall j :: 0 <= j < |prog.methods[callee.m].returnVars| ==>
                  (CSVar(callee.ctx, prog.methods[callee.m].returnVars[j]),
                   CSVar(site.ctx, prog.callSites[site.cs].result.value)) in pfg
    {
      var cs, m := prog.callSites[site.cs], prog.methods[callee.m];
      if cs.result.None? {
        return;
      }
      assert MethodOk(prog, m);
      var r := cs.result.value;
      ghost var s0 := St();
      var i := 0;
      while i < |m.returnVars|
        invariant 0 <= i <= |m.returnVars|
        invariant Inv() && Advances(prog, sel, s0, St())
        invariant callEdges == s0.callEdges && reachable == s0.reachable
        invariant forall j :: 0 <= j < i ==> (CSVar(callee.ctx, m.returnVars[j]), CSVar(site.ctx, r)) in pfg
      {
        AddPFGEdge(CSVar(callee.ctx, m.returnVars[i]), CSVar(site.ctx, r));
        i := i + 1;
      }
    }
  
    /** One call site of `processCall`: the receiver object `o` flows to
        the callee's `this` (whether or not the edge is new), and the call
        edge is processed. */
    method ProcessInvoke(c: Context, cs: nat, o: CSObj)
      requires Inv() && c < sel.bound && cs < |prog.callSites| && CSObjOk(prog, sel, o)
      modifies this
      ensures Inv() && Advances(prog, sel, old(St()), St())
      ensures InvokeRule(prog, sel, St(), c, cs, o)
    {
      var site := CSCallSite(c, cs);
      var callee := InstanceCallee(prog, sel, site, o);
      var thisVar := prog.methods[callee.m].thisVar;
      assert MethodOk(prog, prog.methods[callee.m]);
      ghost var s0 := St();
      AddEntry(CSVar(callee.ctx, thisVar), {o});
      assert (CSVar(callee.ctx, thisVar), o) in EntryPairs((CSVar(callee.ctx, thisVar), {o}));
      ghost var s1 := St();
      ProcessCallEdge(site, callee);
      AdvancesCompose(prog, sel, s0, s1, St());
    }

    /** `processCall`: the call rules of a new receiver object `o` of `v`. */
    method ProcessCall(c: Context, v: nat, o: CSObj)
      requires Inv() && c < sel.bound && CSObjOk(prog, sel, o)
      modifies this
      ensures Inv() && Advances(prog, sel, old(St()), St())
      ensures CallRules(prog, sel, St(), c, v, o)
    {
      var invokes := UsesOf(prog, v).invokes;
      UsesOfOk(prog, v);
      ghost var s0 := St();
      var i := 0;
      while i < |invokes|
        invariant 0 <= i <= |invokes|
        invariant Inv() && Advances(prog, sel, s0, St())
        invariant InvokesDone(prog, sel, St(), c, v, o, i)
      {
        ghost var sb := St();
        ProcessInvoke(c, invokes[i], o);
        InvokesDoneStep(prog, sel, sb, St(), c, v, o, i);
        AdvancesCompose(prog, sel, s0, sb, St());
        i := i + 1;
      }
    }

    /** Adds the PFG edges `es` one after the other (`addPFGEdge` in a
        loop). */
    method AddPFGEdges(es: seq<(Pointer, Pointer)>)
      requires Inv() && forall j :: 0 <= j < |es| ==> PointerOk(prog, sel, es[j].0) && PointerOk(prog, sel, es[j].1)
      modifies this
      ensures Inv() && Advances(prog, sel, old(St()), St())
      ensures callEdges == old(callEdges) && reachable == old(reachable)
      ensures forall j :: 0 <= j < |es| ==> es[j] in pfg
    {
      ghost var s0 := St();
      var i := 0;
      while i < |es|
        invariant 0 <= i <= |es|
        invariant Inv() && Advances(prog, sel, s0, St())
        invariant callEdges == s0.callEdges && reachable == s0.reachable
        invariant forall j :: 0 <= j < i ==> es[j] in pfg
      {
        ghost var s1 := St();
        AddPFGEdge(es[i].0, es[i].1);
        AdvancesCompose(prog, sel, s0, s1, St());
        i := i + 1;
      }
    }

    /** The instance-field loads on `v`, for a new object `o`. */
    method ProcessLoadFields(c: Context, v: nat, o: CSObj)
      requires Inv() && c < sel.bound && CSObjOk(prog, sel, o)
      modifies this
      ensures Inv() && Advances(prog, sel, old(St()), St())
      ensures callEdges == old(callEdges) && reachable == old(reachable)
      ensures var u := UsesOf(prog, v);
              forall i :: 0 <= i < |u.loadFields| ==> (InstanceField(o, u.loadFields[i].0), CSVar(c, u.loadFields[i].1)) in pfg
    {
      var u := UsesOf(prog, v);
      UsesOfOk(prog, v);
      var es := seq(|u.loadFields|, j requires 0 <= j < |u.loadFields| =>
                      (InstanceField(o, u.loadFields[j].0), CSVar(c, u.loadFields[j].1)));
      AddPFGEdges(es);
      forall i | 0 <= i < |u.loadFields| ensures (InstanceField(o, u.loadFields[i].0), CSVar(c, u.loadFields[i].1)) in pfg {
        assert es[i] in pfg;
      }
    }

    /** The instance-field stores on `v`, for a new object `o`. */
    method ProcessStoreFields(c: Context, v: nat, o: CSObj)
      requires Inv() && c < sel.bound && CSObjOk(prog, sel, o)
      modifies this
      ensures Inv() && Advances(prog, sel, old(St()), St())
      ensures callEdges == old(callEdges) && reachable == old(reachable)
      ensures var u := UsesOf(prog, v);
              forall i :: 0 <= i < |u.storeFields| ==> (CSVar(c, u.storeFields[i].1), InstanceField(o, u.storeFields[i].0)) in pfg
    {
      var u := UsesOf(prog, v);
      UsesOfOk(prog, v);
      var es := seq(|u.storeFields|, j requires 0 <= j < |u.storeFields| =>
                      (CSVar(c, u.storeFields[j].1), InstanceField(o, u.storeFields[j].0)));
      AddPFGEdges(es);
      forall i | 0 <= i < |u.storeFields| ensures (CSVar(c, u.storeFields[i].1), InstanceField(o, u.storeFields[i].0)) in pfg {
        assert es[i] in pfg;
      }
    }

    /** The array loads on `v`, for a new object `o`. */
    method ProcessLoadArrays(c: Context, v: nat, o: CSObj)
      requires Inv() && c < sel.bound && CSObjOk(prog, sel, o)
      modifies this
      ensures Inv() && Advances(prog, sel, old(St()), St())
      ensures callEdges == old(callEdges) && reachable == old(reachable)
      ensures var u := UsesOf(prog, v);
              forall i :: 0 <= i < |u.loadArrays| ==> (ArrayIndex(o), CSVar(c, u.loadArrays[i])) in pfg
    {
      var u := UsesOf(prog, v);
      UsesOfOk(prog, v);
      var es := seq(|u.loadArrays|, j requires 0 <= j < |u.loadArrays| => (ArrayIndex(o), CSVar(c, u.loadArrays[j])));
      AddPFGEdges(es);
      forall i | 0 <= i < |u.loadArrays| ensures (ArrayIndex(o), CSVar(c, u.loadArrays[i])) in pfg {
        assert es[i] in pfg;
      }
    }

    /** The array stores on `v`, for a new object `o`. */
    method ProcessStoreArrays(c: Context, v: nat, o: CSObj)
      requires Inv() && c < sel.bound && CSObjOk(prog, sel, o)
      modifies this
      ensures Inv() && Advances(prog, sel, old(St()), St())
      ensures callEdges == old(callEdges) && reachable == old(reachable)
      ensures var u := UsesOf(prog, v);
              forall i :: 0 <= i < |u.storeArrays| ==> (CSVar(c, u.storeArrays[i]), ArrayIndex(o)) in pfg
    {
      var u := UsesOf(prog, v);
      UsesOfOk(prog, v);
      var es := seq(|u.storeArrays|, j requires 0 <= j < |u.storeArrays| => (CSVar(c, u.storeArrays[j]), ArrayIndex(o)));
      AddPFGEdges(es);
      forall i | 0 <= i < |u.storeArrays| ensures (CSVar(c, u.storeArrays[i]), ArrayIndex(o)) in pfg {
        assert es[i] in pfg;
      }
    }

    /** The body `analyze` runs for each new object `o` of a variable `v`
        in context `c`: all its field, array and call rules hold after. */
    method ProcessObj(c: Context, v: nat, o: CSObj)
      requires Inv() && c < sel.bound && CSObjOk(prog, sel, o)
      modifies this
      ensures Inv() && Advances(prog, sel, old(St()), St())
      ensures ObjRules(prog, sel, St(), c, v, o)
    {
      ghost var s0 := St();
      ProcessLoadFields(c, v, o);
      ghost var s1 := St();
      ProcessStoreFields(c, v, o);
      ghost var s2 := St();
      ProcessLoadArrays(c, v, o);
      ghost var s3 := St();
      ProcessStoreArrays(c, v, o);
      ghost var s4 := St();
      assert AccessRules(prog, St(), c, v, o);
      ProcessCall(c, v, o);
      AdvancesCompose(prog, sel, s3, s4, St());
      AdvancesCompose(prog, sel, s2, s3, St());
      AdvancesCompose(prog, sel, s1, s2, St());
      AdvancesCompose(prog, sel, s0, s1, St());
    }
  
    /** `propagate`: the objects of `objs` new to `p` (the result) join its
        points-to set and are sent to each PFG successor of `p`.  It runs
        right after an entry (p, objs) has been polled, so closure may count
        that entry's facts on entry. */
    method Propagate(p: Pointer, objs: set<CSObj>) returns (dta: set<CSObj>)
      requires WfProgram(prog) && WfSelector(sel) && StValid(prog, sel, St())
      requires EntryOk(prog, sel, (p, objs)) && ClosedWith(St(), EntryPairs((p, objs)))
      modifies this
      ensures Inv()
      ensures forall o :: o in dta <==> o in objs && (p, o) !in old(ptRel)
      ensures ptRel == old(ptRel) + EntryPairs((p, dta))
      ensures pfg == old(pfg) && callEdges == old(callEdges) && reachable == old(reachable)
      ensures Known(old(St())) + EntryPairs((p, objs)) <= Known(St())
      ensures PointsTo(ptRel, p) == PointsTo(old(ptRel), p) + objs
      ensures dta == {} ==> worklist == old(worklist)
      ensures |old(worklist)| <= |worklist| && worklist[..|old(worklist)|] == old(worklist)
      ensures forall e :: e in worklist[|old(worklist)|..] <==> dta != {} && e.1 == dta && (p, e.0) in pfg
      ensures dta != {} ==> |worklist| == |old(worklist)| + |SuccsOf(pfg, p)|
    {
      ghost var s0 := St();
      dta := set o | o in objs && (p, o) !in ptRel;
      ptRel := ptRel + EntryPairs((p, dta));
      assert PointsTo(ptRel, p) == PointsTo(s0.ptRel, p) + objs;
      if dta != {} {
        SendToSuccs(p, dta);
      }
      forall s, t, o | (s, t) in pfg && (s, o) in ptRel
        ensures (t, o) in Known(St())
      {
        if (s, o) !in s0.ptRel {
          assert s == p && (t, o) in EntryPairs((t, dta));
        }
      }
    }

    /** The second half of `propagate`: the entry (t, dta) for each PFG
        successor t of `p`. */
    method SendToSuccs(p: Pointer, dta: set<CSObj>)
      requires WfProgram(prog) && WfSelector(sel) && StValid(prog, sel, St())
      requires forall o :: o in dta ==> CSObjOk(prog, sel, o)
      modifies this
      ensures StValid(prog, sel, St())
      ensures ptRel == old(ptRel) && pfg == old(pfg) && callEdges == old(callEdges) && reachable == old(reachable)
      ensures |old(worklist)| <= |worklist| && worklist[..|old(worklist)|] == old(worklist)
      ensures forall e :: e in worklist[|old(worklist)|..] <==> e.1 == dta && (p, e.0) in pfg
      ensures |worklist| == |old(worklist)| + |SuccsOf(pfg, p)|
      ensures Known(old(St())) <= Known(St())
      ensures forall t :: (p, t) in pfg ==> EntryPairs((t, dta)) <= Known(St())
    {
      ghost var s0 := St();
      var added := EntriesTo(SuccsOf(pfg, p), dta);
      SendStepValid(prog, sel, s0, p, dta, added);
      SendStepKnown(s0, added);
      worklist := worklist + added;
      assert worklist[|s0.worklist|..] == added;
    }

    /** The body `analyze` runs for the new objects `dta` of a variable
        `v` in context `c`: the rules of their facts are settled. */
    method ProcessNewObjs(c: Context, v: nat, dta: set<CSObj>)
      requires Inv() && c < sel.bound
      requires forall o :: o in dta ==> CSObjOk(prog, sel, o)
      requires RulesExcept(prog, sel, St(), EntryPairs((CSVar(c, v), dta)))
      modifies this
      ensures Inv() && Advances(prog, sel, old(St()), St())
      ensures AllRules(prog, sel, St())
      ensures dta == {} ==> St() == old(St())
    {
      ghost var s0 := St();
      var todo := dta;
      while todo != {}
        invariant todo <= dta
        invariant Inv() && Advances(prog, sel, s0, St())
        invariant RulesExcept(prog, sel, St(), EntryPairs((CSVar(c, v), todo)))
        invariant dta == {} ==> St() == s0
        decreases |todo|
      {
        var o :| o in todo;
        ghost var sb := St();
        ProcessObj(c, v, o);
        RulesExceptStep(prog, sel, sb, St(), EntryPairs((CSVar(c, v), todo)), c, v, o);
        EntryPairsRemove(CSVar(c, v), todo, o);
        AdvancesCompose(prog, sel, s0, sb, St());
        todo := todo - {o};
      }
      assert EntryPairs((CSVar(c, v), {})) == {};
    }

    /** One round of `analyze`: poll an entry, propagate it, and process
        the objects new to a variable.  Either some points-to set grows or
        the work list gets shorter. */
    method AnalyzeStep()
      requires Inv() && AllRules(prog, sel, St()) && worklist != []
      modifies this
      ensures Inv() && AllRules(prog, sel, St()) && Grows(old(St()), St())
      ensures old(ptRel) < ptRel || (ptRel == old(ptRel) && |worklist| < |old(worklist)|)
    {
      ghost var s0 := St();
      var entry := worklist[0];
      worklist := worklist[1..];
      assert Known(s0) == Known(St()) + EntryPairs(entry);
      var dta := Propagate(entry.0, entry.1);
      ghost var s1 := St();
      RulesAfterPropagate(prog, sel, s0, s1, entry.0, dta);
      if entry.0.CSVar? {
        assert forall o :: o in dta ==> (entry.0, o) in s1.ptRel;
        ProcessNewObjs(entry.0.ctx, entry.0.v, dta);
      } else {
        assert forall c, v, o :: (CSVar(c, v), o) !in EntryPairs((entry.0, dta));
      }
      if dta != {} {
        var o :| o in dta;
        assert (entry.0, o) in ptRel - s0.ptRel;
      } else {
        assert EntryPairs((entry.0, dta)) == {};
      }
    }

    /** `analyze`: rounds until the work list is empty.  At the end every
        rule holds. */
    method Analyze()
      requires Inv() && AllRules(prog, sel, St())
      modifies this
      ensures Inv() && AllRules(prog, sel, St()) && worklist == []
      ensures Grows(old(St()), St())
    {
      ghost var start := St();
      while worklist != []
        invariant Inv() && AllRules(prog, sel, St()) && Grows(start, St())
        decreases |PairUniverse(prog, sel) - ptRel|, |worklist|
      {
        ghost var s0 := St();
        AnalyzeStep();
        PtInUniverse(prog, sel, St());
        if s0.ptRel < ptRel {
          StrictGrowth(PairUniverse(prog, sel), s0.ptRel, ptRel);
        }
      }
    }

    /** `initialize`: the main method, in the empty context, is made
        reachable. */
    method Initialize()
      requires Inv() && St() == State({}, {}, {}, {}, [])
      modifies this
      ensures Inv() && AllRules(prog, sel, St())
      ensures CSMethod(sel.empty, prog.main) in reachable
    {
      AddReachable(CSMethod(sel.empty, prog.main));
    }

    /** `solve`. */
    method Solve()
      requires Inv() && St() == State({}, {}, {}, {}, [])
      modifies this
      ensures Inv() && AllRules(prog, sel, St()) && worklist == []
      ensures CSMethod(sel.empty, prog.main) in reachable
    {
      Initialize();
      Analyze();
    }
  }

  /** The whole analysis: a new solver, solved.  Its result is a fixpoint
      of every rule, with main reachable and the work list empty. */
  method Analysis(prog: Program, sel: Selector) returns (solver: Solver)
    requires WfProgram(prog) && WfSelector(sel)
    ensures solver.prog == prog && solver.sel == sel
    ensures solver.Inv() && AllRules(prog, sel, solver.St()) && solver.worklist == []
    ensures CSMethod(sel.empty, prog.main) in solver.reachable
  {
    solver := new Solver(prog, sel);
    solver.Solve();
  }
}
