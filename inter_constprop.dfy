/** Interprocedural constant propagation
    (A7/.../dataflow/inter/InterConstantPropagation.java): the transfer
    functions of the four ICFG edge kinds, the identity call-node transfer,
    and the non-call-node transfer that makes field and array loads see the
    values of the stores that may alias them, using a points-to result. */
module InterConstProp {
  import opened IR
  import opened ConstProp
  import opened ConstPropExt

  // ---------------------------------------------------------------------
  // Edge transfers (each builds a fresh fact)

  /** `transferNormalEdge`: a copy of the OUT fact. */
  function TransferNormalEdge(out: FactMap): (r: FactMap)
    ensures forall v :: Get(r, v) == Get(out, v)
  {
    out
  }

  /** `transferCallToReturnEdge`: the caller's fact flows around the call,
      except for the call's result variable, which the return edge defines. */
  function TransferCallToReturnEdge(result: Option<Var>, out: FactMap): (r: FactMap)
    ensures Normal(out) ==> Normal(r)
    ensures result.Some? ==> Get(r, result.value) == Undef
    ensures forall v :: Some(v) != result ==> Get(r, v) == Get(out, v)
  {
    if result.Some? then out - {result.value} else out
  }

  predicate Distinct(vs: seq<Var>) {
    forall i, j :: 0 <= i < j < |vs| ==> vs[i] != vs[j]
  }

  /** The fact that binds the first `n` parameters to the values of the
      corresponding arguments in `callSiteOut`; nothing else has a value. */
  function BindParams(args: seq<Var>, params: seq<Var>, callSiteOut: FactMap, n: nat): (r: FactMap)
    requires n <= |args| <= |params| && Distinct(params)
    ensures Normal(r)
    ensures forall i :: 0 <= i < n ==> Get(r, params[i]) == Get(callSiteOut, args[i])
    ensures forall v :: v !in params[..n] ==> Get(r, v) == Undef
  {
    if n == 0 then map[]
    else
      var prev := BindParams(args, params, callSiteOut, n - 1);
      assert forall v :: v in params[..n - 1] ==> v in params[..n];
      Updated(prev, params[n - 1], Get(callSiteOut, args[n - 1]))
  }

  /** `transferCallEdge`: a fresh fact binding callee parameter i to the
      caller's value of argument i, and nothing else. */
  function TransferCallEdge(args: seq<Var>, params: seq<Var>, callSiteOut: FactMap): (r: FactMap)
    requires |args| <= |params| && Distinct(params)
    ensures Normal(r)
    ensures forall i :: 0 <= i < |args| ==> Get(r, params[i]) == Get(callSiteOut, args[i])
    ensures forall v :: v !in params[..|args|] ==> Get(r, v) == Undef
  {
    BindParams(args, params, callSiteOut, |args|)
  }

  /** The meet, starting from UNDEF, of the values of `vs` in `f`: the
      greatest lower bound of those values. */
  function MeetOfVars(vs: seq<Var>, f: FactMap): (r: Value)
    ensures forall i :: 0 <= i < |vs| ==> Below(r, Get(f, vs[i]))
    ensures forall w :: (forall i :: 0 <= i < |vs| ==> Below(w, Get(f, vs[i]))) ==> Below(w, r)
  {
    if vs == [] then Undef
    else
      var prev := MeetOfVars(vs[..|vs| - 1], f);
      assert forall i :: 0 <= i < |vs| - 1 ==> vs[..|vs| - 1][i] == vs[i];
      MeetValue(prev, Get(f, vs[|vs| - 1]))
  }

  /** `transferReturnEdge`: a fresh fact that binds the call's lhs to the
      meet of the callee's return variables; empty when there is no lhs. */
  function TransferReturnEdge(result: Option<Var>, returnVars: seq<Var>, returnOut: FactMap): (r: FactMap)
    ensures Normal(r)
    ensures result.Some? ==> Get(r, result.value) == MeetOfVars(returnVars, returnOut)
    ensures forall v :: Some(v) != result ==> Get(r, v) == Undef
  {
    if result.Some? then Updated(map[], result.value, MeetOfVars(returnVars, returnOut)) else map[]
  }

  /** `transferCallNode`: OUT := IN. */
  method TransferCallNode(inFact: Fact, out: Fact) returns (changed: bool)
    modifies out
    ensures out.m == old(inFact.m)
    ensures changed <==> old(out.m) != old(inFact.m)
  {
    changed := out.CopyFrom(inFact);
  }

  // ---------------------------------------------------------------------
  // What the non-call transfer reads: the ICFG, the running solver's IN and
  // OUT facts, and the points-to result.

  datatype InterContext = InterContext(
    stmts: seq<Stmt>,                 // the ICFG's statements; a statement is its index
    inFacts: seq<FactMap>,            // the solver's current IN fact of each statement
    outFacts: seq<FactMap>,           // and its current OUT fact
    pts: map<Var, set<nat>>,          // points-to sets of the pointer analysis
    vars: seq<Var>,                   // the variables the pointer analysis knows
    loadFieldsOf: map<Var, seq<nat>>, // `getLoadFields`: instance field loads whose base is the variable
    loadArraysOf: map<Var, seq<nat>>, // `getLoadArrays`: array loads whose base is the variable
    resolve: Resolution)

  predicate IsLoadField(s: Stmt) { s.Assign? && s.lhs.LVar? && s.rhs.FieldE? }
  predicate IsStoreField(s: Stmt) { s.Assign? && s.lhs.LField? && s.rhs.VarE? }
  predicate IsLoadArray(s: Stmt) { s.Assign? && s.lhs.LVar? && s.rhs.ArrayE? }
  predicate IsStoreArray(s: Stmt) { s.Assign? && s.lhs.LArray? && s.rhs.VarE? }

  function Candidates(m: map<Var, seq<nat>>, v: Var): seq<nat> {
    if v in m then m[v] else []
  }

  ghost predicate Wf(ctx: InterContext) {
    && |ctx.inFacts| == |ctx.stmts| && |ctx.outFacts| == |ctx.stmts|
    && (forall v, k :: v in ctx.loadFieldsOf && 0 <= k < |ctx.loadFieldsOf[v]| ==>
          ctx.loadFieldsOf[v][k] < |ctx.stmts| && IsLoadField(ctx.stmts[ctx.loadFieldsOf[v][k]])
          && ctx.stmts[ctx.loadFieldsOf[v][k]].rhs.access.InstanceAccess?
          && ctx.stmts[ctx.loadFieldsOf[v][k]].rhs.access.base == v)
    && (forall v, k :: v in ctx.loadArraysOf && 0 <= k < |ctx.loadArraysOf[v]| ==>
          ctx.loadArraysOf[v][k] < |ctx.stmts| && IsLoadArray(ctx.stmts[ctx.loadArraysOf[v][k]])
          && ctx.stmts[ctx.loadArraysOf[v][k]].rhs.arrayBase == v)
  }

  function PointsTo(ctx: InterContext, v: Var): set<nat> {
    if v in ctx.pts then ctx.pts[v] else {}
  }

  /** Two field accesses alias: they resolve to the same field and either
      both are instance accesses whose bases may point to a common object,
      or both are static and name the same class.  (A static and an
      instance access never resolve to the same field.) */
  predicate FieldAlias(ctx: InterContext, load: FieldAccess, store: FieldAccess) {
    if ctx.resolve(load.ref) != ctx.resolve(store.ref) then false
    else if load.InstanceAccess? then
      store.InstanceAccess? && PointsTo(ctx, load.base) * PointsTo(ctx, store.base) != {}
    else store.StaticAccess? && load.ref.declClass == store.ref.declClass
  }

  /** Two index values may denote the same element. */
  predicate IndexMayAlias(i1: Value, i2: Value) {
    || (i1.NAC? && !i2.Undef?)
    || (i2.NAC? && !i1.Undef?)
    || (i1.Const? && i2.Const? && i1.c == i2.c)
  }

  /** An array load and an array store alias: their bases may point to a
      common object and their indexes (in each statement's IN fact) may be
      equal. */
  predicate ArrayAlias(ctx: InterContext, l: nat, st: nat)
    requires Wf(ctx) && l < |ctx.stmts| && st < |ctx.stmts|
    requires IsLoadArray(ctx.stmts[l]) && IsStoreArray(ctx.stmts[st])
  {
    var load, store := ctx.stmts[l].rhs, ctx.stmts[st].lhs;
    && PointsTo(ctx, load.arrayBase) * PointsTo(ctx, store.arrayBase) != {}
    && IndexMayAlias(Get(ctx.inFacts[l], load.index), Get(ctx.inFacts[st], store.index))
  }

  /** Statement `j` is a store whose value load `l` may read: a field store
      of the same staticness aliasing a field load, or an aliasing array
      store for an array load. */
  predicate StoreAliases(ctx: InterContext, l: nat, j: nat)
    requires Wf(ctx) && l < |ctx.stmts|
  {
    j < |ctx.stmts| &&
    var load, s := ctx.stmts[l], ctx.stmts[j];
    if IsLoadField(load) then
      && IsStoreField(s)
      && s.lhs.access.StaticAccess? == load.rhs.access.StaticAccess?
      && FieldAlias(ctx, load.rhs.access, s.lhs.access)
    else if IsLoadArray(load) then
      IsStoreArray(s) && ArrayAlias(ctx, l, j)
    else false
  }

  /** The value a store writes: its rhs variable in its OUT fact. */
  function StoredValue(ctx: InterContext, j: nat): Value
    requires Wf(ctx) && j < |ctx.stmts| && ctx.stmts[j].Assign? && ctx.stmts[j].rhs.VarE?
  {
    Get(ctx.outFacts[j], ctx.stmts[j].rhs.v)
  }

  /** The intended value of load `l`: the meet, from UNDEF, of the values of
      all aliasing stores among the first `n` statements; it is their
      greatest lower bound. */
  function LoadValue(ctx: InterContext, l: nat, n: nat): (r: Value)
    requires Wf(ctx) && l < |ctx.stmts| && n <= |ctx.stmts|
    ensures forall j :: 0 <= j < n && StoreAliases(ctx, l, j) ==> Below(r, StoredValue(ctx, j))
    ensures forall w :: (forall j :: 0 <= j < n && StoreAliases(ctx, l, j) ==> Below(w, StoredValue(ctx, j)))
                        ==> Below(w, r)
  {
    if n == 0 then Undef
    else
      var prev := LoadValue(ctx, l, n - 1);
      if StoreAliases(ctx, l, n - 1) then MeetValue(prev, StoredValue(ctx, n - 1)) else prev
  }

  /** The instance-field load as written: each aliasing store replaces the
      value (`meetValue(UNDEF, v)` is `v`), so the last one wins. */
  function LastStoreValue(ctx: InterContext, l: nat, n: nat): Value
    requires Wf(ctx) && l < |ctx.stmts| && n <= |ctx.stmts|
  {
    if n == 0 then Undef
    else if StoreAliases(ctx, l, n - 1) then MeetValue(Undef, StoredValue(ctx, n - 1))
    else LastStoreValue(ctx, l, n - 1)
  }

  /** The value the source assigns to the lhs of load `l`. */
  function LoadValueAsWritten(ctx: InterContext, l: nat): Value
    requires Wf(ctx) && l < |ctx.stmts|
  {
    var s := ctx.stmts[l];
    if IsLoadField(s) && s.rhs.access.InstanceAccess? then LastStoreValue(ctx, l, |ctx.stmts|)
    else LoadValue(ctx, l, |ctx.stmts|)
  }

  /** A program whose load `x = o.f` may read 1 or 2: two stores `o.f = a`
      (a is 1) and `o.f = b` (b is 2) precede it, all on the same object.
      The source gives x the constant 2; the meet of both stores is NAC. */
  lemma InstanceLoadKeepsOnlyLastStore()
    ensures var ctx := TwoStoresExample();
            && Wf(ctx)
            && LoadValueAsWritten(ctx, 2) == Const(2)
            && LoadValue(ctx, 2, 3) == NAC
            && StoreAliases(ctx, 2, 0) && StoredValue(ctx, 0) == Const(1)
            && !Below(LoadValueAsWritten(ctx, 2), StoredValue(ctx, 0))
  {
    var ctx := TwoStoresExample();
    var o := Var(0, Ref(0));
    assert 0 in PointsTo(ctx, o) * PointsTo(ctx, o);
    assert StoreAliases(ctx, 2, 0) && StoreAliases(ctx, 2, 1) && !StoreAliases(ctx, 2, 2);
    assert LoadValue(ctx, 2, 1) == Const(1);
    assert LoadValue(ctx, 2, 2) == NAC;
  }

  function TwoStoresExample(): InterContext {
    var o, a, b, x := Var(0, Ref(0)), Var(1, Prim(Int)), Var(2, Prim(Int)), Var(3, Prim(Int));
    var f := FieldRef(0, 0);
    var acc := InstanceAccess(o, f);
    InterContext(
      [Assign(LField(acc), VarE(a)), Assign(LField(acc), VarE(b)), Assign(LVar(x), FieldE(acc))],
      [map[], map[], map[]],
      [map[a := Const(1)], map[b := Const(2)], map[]],
      map[o := {0}],
      [o, a, b, x],
      map[o := [2]],
      map[],
      (r: FieldRef) => r.name)
  }

  /** The OUT fact of a non-call node (with the corrected load value). */
  function NonCallOut(ctx: InterContext, node: nat, fin: FactMap): FactMap
    requires Wf(ctx) && node < |ctx.stmts|
  {
    var s := ctx.stmts[node];
    if IsLoadField(s) || IsLoadArray(s) then Updated(fin, s.lhs.v, LoadValue(ctx, node, |ctx.stmts|))
    else TransferFactExt(s, fin)
  }

  /** The load lists a store consults: field loads for a field store,
      array loads for an array store. */
  function LoadsOf(ctx: InterContext, s: Stmt): map<Var, seq<nat>> {
    if IsStoreField(s) then ctx.loadFieldsOf else ctx.loadArraysOf
  }

  /** A listed load `l` aliases the store at `node`. */
  predicate LoadAliasesStore(ctx: InterContext, node: nat, l: nat)
    requires Wf(ctx) && node < |ctx.stmts| && l < |ctx.stmts|
  {
    var s := ctx.stmts[node];
    || (IsStoreField(s) && IsLoadField(ctx.stmts[l]) && FieldAlias(ctx, ctx.stmts[l].rhs.access, s.lhs.access))
    || (IsStoreArray(s) && IsLoadArray(ctx.stmts[l]) && ArrayAlias(ctx, l, node))
  }

  /** The loads that a store at `node` wakes up: the loads listed for the
      variables of the pointer analysis that alias it. */
  predicate WakesUp(ctx: InterContext, node: nat, l: nat)
    requires Wf(ctx) && node < |ctx.stmts|
  {
    var loads := LoadsOf(ctx, ctx.stmts[node]);
    exists v, k :: v in ctx.vars && 0 <= k < |Candidates(loads, v)| && l == Candidates(loads, v)[k]
      && l < |ctx.stmts| && LoadAliasesStore(ctx, node, l)
  }

  /** Folds the aliasing stores' values for load `node` over the ICFG. */
  method ComputeLoadValue(ctx: InterContext, node: nat) returns (value: Value)
    requires Wf(ctx) && node < |ctx.stmts|
    ensures value == LoadValue(ctx, node, |ctx.stmts|)
  {
    value := Undef;
    for j := 0 to |ctx.stmts|
      invariant value == LoadValue(ctx, node, j)
    {
      if StoreAliases(ctx, node, j) {
        value := MeetValue(value, StoredValue(ctx, j));
      }
    }
  }

  /** Appends to `worklist` every aliasing load of the candidates listed for
      the pointer analysis's variables, unless it is already there. */
  method EnqueueAliasingLoads(ctx: InterContext, node: nat, worklist: seq<nat>) returns (wl: seq<nat>)
    requires Wf(ctx) && node < |ctx.stmts|
    requires IsStoreField(ctx.stmts[node]) || IsStoreArray(ctx.stmts[node])
    ensures |wl| >= |worklist| && wl[..|worklist|] == worklist
    ensures forall l :: l in wl <==> l in worklist || WakesUp(ctx, node, l)
    ensures forall i :: |worklist| <= i < |wl| ==> wl[i] !in wl[..i]
  {
    var loads := LoadsOf(ctx, ctx.stmts[node]);
    wl := worklist;
    for i := 0 to |ctx.vars|
      invariant |wl| >= |worklist| && wl[..|worklist|] == worklist
      invariant forall i' :: |worklist| <= i' < |wl| ==> wl[i'] !in wl[..i']
      invariant forall l :: l in wl ==> l in worklist || WakesUp(ctx, node, l)
      invariant forall v, k :: v in ctx.vars[..i] && 0 <= k < |Candidates(loads, v)| &&
                  Candidates(loads, v)[k] < |ctx.stmts| && LoadAliasesStore(ctx, node, Candidates(loads, v)[k])
                  ==> Candidates(loads, v)[k] in wl
    {
      var v := ctx.vars[i];
      var cands := Candidates(loads, v);
      for k := 0 to |cands|
        invariant |wl| >= |worklist| && wl[..|worklist|] == worklist
        invariant forall i' :: |worklist| <= i' < |wl| ==> wl[i'] !in wl[..i']
        invariant forall l :: l in wl ==> l in worklist || WakesUp(ctx, node, l)
        invariant forall v', k' :: v' in ctx.vars[..i] && 0 <= k' < |Candidates(loads, v')| &&
                    Candidates(loads, v')[k'] < |ctx.stmts| && LoadAliasesStore(ctx, node, Candidates(loads, v')[k'])
                    ==> Candidates(loads, v')[k'] in wl
        invariant forall k' :: 0 <= k' < k && cands[k'] < |ctx.stmts| && LoadAliasesStore(ctx, node, cands[k'])
                    ==> cands[k'] in wl
      {
        var l := cands[k];
        assert l < |ctx.stmts| by {
          assert v in loads;
        }
        if LoadAliasesStore(ctx, node, l) && l !in wl {
          assert WakesUp(ctx, node, l);
          wl := wl + [l];
        }
      }
      assert ctx.vars[..i + 1] == ctx.vars[..i] + [v];
    }
    assert ctx.vars[..|ctx.vars|] == ctx.vars;
  }

  /** `transferNonCallNode` (with the corrected instance-field load): a
      load's lhs gets the meet of the aliasing stores' values; a store
      wakes up the aliasing loads; every other node, and a store after
      that, uses the intraprocedural `transferNode`. */
  method TransferNonCallNode(ctx: InterContext, node: nat, inFact: Fact, out: Fact, worklist: seq<nat>)
    returns (changed: bool, wl: seq<nat>)
    requires Wf(ctx) && node < |ctx.stmts| && inFact.Valid()
    modifies out
    ensures out.Valid()
    ensures out.m == NonCallOut(ctx, node, old(inFact.m))
    ensures changed <==> old(out.m) != out.m
    ensures |wl| >= |worklist| && wl[..|worklist|] == worklist
    ensures forall l :: l in wl <==>
              l in worklist || ((IsStoreField(ctx.stmts[node]) || IsStoreArray(ctx.stmts[node])) && WakesUp(ctx, node, l))
  {
    var s := ctx.stmts[node];
    wl := worklist;
    if IsLoadField(s) || IsLoadArray(s) {
      var value := ComputeLoadValue(ctx, node);
      var temp := inFact.Copy();
      temp.Update(s.lhs.v, value);
      changed := out.CopyFrom(temp);
      return;
    }
    if IsStoreField(s) || IsStoreArray(s) {
      wl := EnqueueAliasingLoads(ctx, node, worklist);
    }
    changed := TransferNodeExt(s, inFact, out);
  }
}
