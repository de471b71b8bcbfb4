/** The taint plugin of the context-sensitive pointer analysis
    (A8/.../pta/plugin/taint/TaintAnalysiss.java).  Sources make taint
    objects at their call sites; transfers move taint from a call's base or
    arguments to its base or result, keeping each object's source call;
    at the end, taint objects that reach a sink argument are reported as
    taint flows. */
module Taint {
  import opened IR
  import opened Pta

  // ---------------------------------------------------------------------
  // Configuration

  /** A source: calls of method `m` return taint of type `ty`. */
  datatype Source = Source(m: nat, ty: nat)

  /** A sink: argument `index` of calls of method `m`. */
  datatype Sink = Sink(m: nat, index: nat)

  /** The ends of a transfer: a call's base, its result, or an argument. */
  datatype TransferPoint = Base | Result | Arg(i: nat)

  /** A transfer: at calls of method `m`, taint moves from `from` to `to`
      and is given type `ty`. */
  datatype TaintTransfer = TaintTransfer(m: nat, from: TransferPoint, to: TransferPoint, ty: nat)

  /** The rules of the configuration file, and the declared type of each
      variable (`Var.getType`). */
  datatype TaintConfig = TaintConfig(
    sources: seq<Source>, sinks: seq<Sink>, transfers: set<TaintTransfer>, varType: nat -> nat)

  /** The types the configuration gives variables exist. */
  ghost predicate WfConfig(prog: Program, cfg: TaintConfig) {
    forall v :: cfg.varType(v) < prog.numTypes
  }

  /** A taint flow: a source call whose taint reaches argument `index` of
      the call site `sinkCall`. */
  datatype TaintFlow = TaintFlow(sourceCall: nat, sinkCall: nat, index: nat)

  /** `isTaint`. */
  predicate IsTaint(o: CSObj) {
    o.obj.TaintObj?
  }

  // ---------------------------------------------------------------------
  // Sources

  /** Some source rule is about method `m` with its return type. */
  ghost predicate IsSource(prog: Program, cfg: TaintConfig, m: nat)
    requires m < |prog.methods|
  {
    exists k :: 0 <= k < |cfg.sources| && cfg.sources[k] == Source(m, prog.methods[m].returnType)
  }

  /** `captureTaintObj`: the taint object of a call of method `m` at
      `callSite`, when some source rule matches the method and its return
      type; `None` (null) otherwise. */
  method CaptureTaintObj(prog: Program, sel: Selector, cfg: TaintConfig, m: nat, callSite: nat)
    returns (r: Option<CSObj>)
    requires m < |prog.methods|
    ensures r.Some? <==> IsSource(prog, cfg, m)
    ensures r.Some? ==> r.value == CSObj(sel.empty, TaintObj(callSite, prog.methods[m].returnType))
  {
    var retType := prog.methods[m].returnType;
    var k := 0;
    while k < |cfg.sources|
      invariant 0 <= k <= |cfg.sources|
      invariant forall j :: 0 <= j < k ==> cfg.sources[j] != Source(m, retType)
    {
      if cfg.sources[k].m == m && cfg.sources[k].ty == retType {
        return Some(CSObj(sel.empty, TaintObj(callSite, cfg.sources[k].ty)));
      }
      k := k + 1;
    }
    return None;
  }

  // ---------------------------------------------------------------------
  // Transfers, as the facts they add

  /** Some object of `p` is a taint object. */
  ghost predicate Tainted(ptRel: set<(Pointer, CSObj)>, p: Pointer) {
    exists o :: (p, o) in ptRel && IsTaint(o)
  }

  /** The facts moving the taint of `from` to `to` with type `ty` add:
      one taint object per taint object of `from`, with its source call. */
  function TaintFacts(ptRel: set<(Pointer, CSObj)>, from: Pointer, to: Pointer, ty: nat, empty: Context)
    : set<(Pointer, CSObj)>
  {
    set pr | pr in ptRel && pr.0 == from && IsTaint(pr.1) :: (to, CSObj(empty, TaintObj(pr.1.obj.sourceCall, ty)))
  }

  /** The pointer of a call's result, if it has one. */
  function ResultPtr(prog: Program, site: CSCallSite): Option<Pointer>
    requires site.cs < |prog.callSites|
  {
    var r := prog.callSites[site.cs].result;
    if r.Some? then Some(CSVar(site.ctx, r.value)) else None
  }

  /** What `captureBaseToResult` adds. */
  ghost function BaseToResultFacts(prog: Program, cfg: TaintConfig, empty: Context, ptRel: set<(Pointer, CSObj)>,
                                   m: nat, base: Option<Pointer>, result: Option<Pointer>)
    : set<(Pointer, CSObj)>
    requires m < |prog.methods|
  {
    var retType := prog.methods[m].returnType;
    if base.Some? && result.Some? && Tainted(ptRel, base.value)
       && TaintTransfer(m, Base, Result, retType) in cfg.transfers
    then TaintFacts(ptRel, base.value, result.value, retType, empty)
    else {}
  }

  /** What the arguments `0 .. k-1` of a call add when taint moves from
      argument `i` to `to` by rule (m, i, toPoint, ty). */
  ghost function ArgFacts(prog: Program, cfg: TaintConfig, empty: Context, ptRel: set<(Pointer, CSObj)>,
                          m: nat, site: CSCallSite, toPoint: TransferPoint, to: Pointer, ty: nat, k: nat)
    : set<(Pointer, CSObj)>
    requires site.cs < |prog.callSites| && k <= |prog.callSites[site.cs].args|
  {
    if k == 0 then {}
    else
      ArgFacts(prog, cfg, empty, ptRel, m, site, toPoint, to, ty, k - 1)
      + ArgFact(prog, cfg, empty, ptRel, m, site, toPoint, to, ty, k - 1)
  }

  /** What `captureArgToBase` adds. */
  ghost function ArgToBaseFacts(prog: Program, cfg: TaintConfig, empty: Context, ptRel: set<(Pointer, CSObj)>,
                                m: nat, base: Option<Pointer>, site: CSCallSite)
    : set<(Pointer, CSObj)>
    requires m < |prog.methods| && site.cs < |prog.callSites|
    requires |prog.methods[m].params| <= |prog.callSites[site.cs].args|
    requires base.Some? ==> base.value.CSVar?
  {
    if base.None? then {}
    else ArgFacts(prog, cfg, empty, ptRel, m, site, Base, base.value, cfg.varType(base.value.v),
                  |prog.methods[m].params|)
  }

  /** What `captureArgToResult` adds. */
  ghost function ArgToResultFacts(prog: Program, cfg: TaintConfig, empty: Context, ptRel: set<(Pointer, CSObj)>,
                                  m: nat, site: CSCallSite, result: Option<Pointer>)
    : set<(Pointer, CSObj)>
    requires m < |prog.methods| && site.cs < |prog.callSites|
    requires |prog.methods[m].params| <= |prog.callSites[site.cs].args|
  {
    if result.None? then {}
    else ArgFacts(prog, cfg, empty, ptRel, m, site, Result, result.value, prog.methods[m].returnType,
                  |prog.methods[m].params|)
  }

  // ---------------------------------------------------------------------
  // What the transfers promise

  /** Taint keeps its provenance: every fact a transfer adds is a taint
      object of the transfer's type in the empty context, on the target,
      whose source call is that of a taint object of the origin; and each
      taint object of the origin gives one. */
  lemma TaintFactsKeepSourceCall(ptRel: set<(Pointer, CSObj)>, from: Pointer, to: Pointer, ty: nat, empty: Context)
    ensures forall pr :: pr in TaintFacts(ptRel, from, to, ty, empty) ==>
              pr.0 == to && pr.1.ctx == empty && pr.1.obj.TaintObj? && pr.1.obj.ty == ty
              && exists o :: (from, o) in ptRel && IsTaint(o) && o.obj.sourceCall == pr.1.obj.sourceCall
    ensures forall o :: (from, o) in ptRel && IsTaint(o) ==>
              (to, CSObj(empty, TaintObj(o.obj.sourceCall, ty))) in TaintFacts(ptRel, from, to, ty, empty)
  {
    forall pr | pr in TaintFacts(ptRel, from, to, ty, empty)
      ensures exists o :: (from, o) in ptRel && IsTaint(o) && o.obj.sourceCall == pr.1.obj.sourceCall
    {
      var q :| q in ptRel && q.0 == from && IsTaint(q.1) && pr == (to, CSObj(empty, TaintObj(q.1.obj.sourceCall, ty)));
      assert (from, q.1) in ptRel;
    }
    forall o | (from, o) in ptRel && IsTaint(o)
      ensures (to, CSObj(empty, TaintObj(o.obj.sourceCall, ty))) in TaintFacts(ptRel, from, to, ty, empty)
    {
      var q := (from, o);
      assert q in ptRel && q.0 == from && IsTaint(q.1);
    }
  }

  /** An untainted origin adds nothing. */
  lemma UntaintedAddsNothing(ptRel: set<(Pointer, CSObj)>, from: Pointer, to: Pointer, ty: nat, empty: Context)
    requires !Tainted(ptRel, from)
    ensures TaintFacts(ptRel, from, to, ty, empty) == {}
  {
    TaintFactsKeepSourceCall(ptRel, from, to, ty, empty);
  }

  /** Argument-driven transfers add facts only on their target, each of
      them from some argument of the call whose rule is configured. */
  lemma {:induction false} ArgFactsFrom(prog: Program, cfg: TaintConfig, empty: Context, ptRel: set<(Pointer, CSObj)>,
                                        m: nat, site: CSCallSite, toPoint: TransferPoint, to: Pointer, ty: nat, k: nat)
    requires site.cs < |prog.callSites| && k <= |prog.callSites[site.cs].args|
    ensures forall pr :: pr in ArgFacts(prog, cfg, empty, ptRel, m, site, toPoint, to, ty, k) ==>
              exists i :: 0 <= i < k && TaintTransfer(m, Arg(i), toPoint, ty) in cfg.transfers
                && pr in TaintFacts(ptRel, CSVar(site.ctx, prog.callSites[site.cs].args[i]), to, ty, empty)
    ensures forall i :: 0 <= i < k && TaintTransfer(m, Arg(i), toPoint, ty) in cfg.transfers ==>
              TaintFacts(ptRel, CSVar(site.ctx, prog.callSites[site.cs].args[i]), to, ty, empty)
                <= ArgFacts(prog, cfg, empty, ptRel, m, site, toPoint, to, ty, k)
    decreases k
  {
    if k > 0 {
      ArgFactsFrom(prog, cfg, empty, ptRel, m, site, toPoint, to, ty, k - 1);
      var args := prog.callSites[site.cs].args;
      var arg := CSVar(site.ctx, args[k - 1]);
      var rule := TaintTransfer(m, Arg(k - 1), toPoint, ty);
      var before := ArgFacts(prog, cfg, empty, ptRel, m, site, toPoint, to, ty, k - 1);
      var last := ArgFact(prog, cfg, empty, ptRel, m, site, toPoint, to, ty, k - 1);
      assert ArgFacts(prog, cfg, empty, ptRel, m, site, toPoint, to, ty, k) == before + last;
      if !Tainted(ptRel, arg) {
        UntaintedAddsNothing(ptRel, arg, to, ty, empty);
      }
      assert rule in cfg.transfers ==> TaintFacts(ptRel, arg, to, ty, empty) == last;
      assert rule !in cfg.transfers ==> last == {};
    }
  }

  // ---------------------------------------------------------------------
  // The transfers, as the solver runs them

  /** The facts carried by the entries a call appended to the work list. */
  ghost function Added(before: seq<Entry>, after: seq<Entry>): set<(Pointer, CSObj)>
    requires |before| <= |after|
  {
    Pending(after[|before|..])
  }

  ghost predicate Extends(before: seq<Entry>, after: seq<Entry>) {
    |before| <= |after| && after[..|before|] == before
  }

  /** What two appending steps add is what each adds. */
  lemma AddedCompose(w0: seq<Entry>, w1: seq<Entry>, w2: seq<Entry>)
    requires Extends(w0, w1) && Extends(w1, w2)
    ensures Extends(w0, w2)
    ensures Added(w0, w2) == Added(w0, w1) + Added(w1, w2)
  {
    assert w2[|w0|..] == w1[|w0|..] + w2[|w1|..];
    PendingConcat(w1[|w0|..], w2[|w1|..]);
  }

  /** The facts sending the taint objects among `objs` to `to`. */
  function TaintFactsOf(objs: set<CSObj>, to: Pointer, ty: nat, empty: Context): set<(Pointer, CSObj)> {
    set o | o in objs && IsTaint(o) :: (to, CSObj(empty, TaintObj(o.obj.sourceCall, ty)))
  }

  lemma TaintFactsOfAdd(objs: set<CSObj>, o: CSObj, to: Pointer, ty: nat, empty: Context)
    ensures TaintFactsOf(objs + {o}, to, ty, empty) ==
            TaintFactsOf(objs, to, ty, empty) + if IsTaint(o) then {(to, CSObj(empty, TaintObj(o.obj.sourceCall, ty)))} else {}
  {
  }

  lemma TaintFactsOfPointsTo(ptRel: set<(Pointer, CSObj)>, from: Pointer, to: Pointer, ty: nat, empty: Context)
    ensures TaintFacts(ptRel, from, to, ty, empty) == TaintFactsOf(PointsTo(ptRel, from), to, ty, empty)
  {
    TaintFactsKeepSourceCall(ptRel, from, to, ty, empty);
  }

  /** The loops over a points-to set in the `capture*` methods: for each
      taint object of `from`, the taint object with its source call and
      type `ty` is sent to `to`. */
  method TransferTaint(solver: Solver, from: Pointer, to: Pointer, ty: nat)
    requires solver.Inv() && PointerOk(solver.prog, solver.sel, to) && ty < solver.prog.numTypes
    modifies solver
    ensures solver.Inv() && Advances(solver.prog, solver.sel, old(solver.St()), solver.St())
    ensures solver.reachable == old(solver.reachable) && solver.callEdges == old(solver.callEdges)
    ensures Extends(old(solver.worklist), solver.worklist)
    ensures Added(old(solver.worklist), solver.worklist) == TaintFacts(solver.ptRel, from, to, ty, solver.sel.empty)
  {
    ghost var s0 := solver.St();
    var objs := PointsTo(solver.ptRel, from);
    assert forall o :: o in objs ==> CSObjOk(solver.prog, solver.sel, o) by {
      forall o | o in objs ensures CSObjOk(solver.prog, solver.sel, o) {
        assert (from, o) in s0.ptRel;
      }
    }
    SendAllTaint(solver, objs, to, ty);
    TaintFactsOfPointsTo(s0.ptRel, from, to, ty, solver.sel.empty);
  }

  /** The loop of `TransferTaint` over the objects `objs`. */
  method SendAllTaint(solver: Solver, objs: set<CSObj>, to: Pointer, ty: nat)
    requires solver.Inv() && PointerOk(solver.prog, solver.sel, to) && ty < solver.prog.numTypes
    requires forall o :: o in objs ==> CSObjOk(solver.prog, solver.sel, o)
    modifies solver
    ensures solver.Inv() && Advances(solver.prog, solver.sel, old(solver.St()), solver.St())
    ensures solver.reachable == old(solver.reachable) && solver.callEdges == old(solver.callEdges)
    ensures Extends(old(solver.worklist), solver.worklist)
    ensures Added(old(solver.worklist), solver.worklist) == TaintFactsOf(objs, to, ty, solver.sel.empty)
  {
    ghost var s0 := solver.St();
    var todo := objs;
    assert Unchanged(solver.worklist);
    while todo != {}
      invariant todo <= objs
      invariant solver.Inv() && Advances(solver.prog, solver.sel, s0, solver.St())
      invariant solver.reachable == s0.reachable && solver.callEdges == s0.callEdges
      invariant Extends(s0.worklist, solver.worklist)
      invariant Added(s0.worklist, solver.worklist) == TaintFactsOf(objs - todo, to, ty, solver.sel.empty)
      decreases |todo|
    {
      var o :| o in todo;
      ghost var s1 := solver.St();
      TaintFactsOfAdd(objs - todo, o, to, ty, solver.sel.empty);
      assert objs - (todo - {o}) == (objs - todo) + {o};
      SendIfTaint(solver, o, to, ty);
      AdvancesCompose(solver.prog, solver.sel, s0, s1, solver.St());
      AddedCompose(s0.worklist, s1.worklist, solver.worklist);
      todo := todo - {o};
    }
  }

  /** One object of `SendAllTaint`: a taint object is sent to `to` with
      its source call and type `ty`; any other object is skipped. */
  method SendIfTaint(solver: Solver, o: CSObj, to: Pointer, ty: nat)
    requires solver.Inv() && PointerOk(solver.prog, solver.sel, to) && ty < solver.prog.numTypes
    requires CSObjOk(solver.prog, solver.sel, o)
    modifies solver
    ensures solver.Inv() && Advances(solver.prog, solver.sel, old(solver.St()), solver.St())
    ensures solver.reachable == old(solver.reachable) && solver.callEdges == old(solver.callEdges)
    ensures Extends(old(solver.worklist), solver.worklist)
    ensures Added(old(solver.worklist), solver.worklist)
            == if IsTaint(o) then {(to, CSObj(solver.sel.empty, TaintObj(o.obj.sourceCall, ty)))} else {}
  {
    assert Unchanged(solver.worklist);
    if IsTaint(o) {
      SendTaint(solver, to, CSObj(solver.sel.empty, TaintObj(o.obj.sourceCall, ty)));
    }
  }

  /** `addTaintEntryToWorkList`: one taint object for `to`. */
  method SendTaint(solver: Solver, to: Pointer, t: CSObj)
    requires solver.Inv() && PointerOk(solver.prog, solver.sel, to) && CSObjOk(solver.prog, solver.sel, t)
    modifies solver
    ensures solver.Inv() && Advances(solver.prog, solver.sel, old(solver.St()), solver.St())
    ensures solver.St() == old(solver.St()).(worklist := old(solver.worklist) + [(to, {t})])
    ensures Extends(old(solver.worklist), solver.worklist)
    ensures Added(old(solver.worklist), solver.worklist) == {(to, t)}
  {
    solver.AddEntry(to, {t});
    assert solver.worklist[|old(solver.worklist)|..] == [(to, {t})];
    assert Pending([(to, {t})]) == EntryPairs((to, {t})) + Pending([]);
    assert EntryPairs((to, {t})) == {(to, t)};
  }

  /** The loops of the `capture*` methods that decide whether a pointer
      holds some taint object. */
  method AnyTaint(solver: Solver, p: Pointer) returns (b: bool)
    ensures b <==> Tainted(solver.ptRel, p)
  {
    var objs := PointsTo(solver.ptRel, p);
    var todo := objs;
    b := false;
    while todo != {}
      invariant todo <= objs
      invariant b <==> exists o :: o in objs - todo && IsTaint(o)
      decreases |todo|
    {
      var o :| o in todo;
      b := b || IsTaint(o);
      todo := todo - {o};
    }
  }

  function Unchanged(w: seq<Entry>): (r: bool)
    ensures r && Extends(w, w) && Added(w, w) == {}
  {
    assert w[|w|..] == [];
    true
  }

  /** `captureBaseToResult`: with both a base and a result, when the base
      holds taint and the rule (m, BASE, RESULT, return type) exists, each
      taint object of the base reaches the result. */
  method CaptureBaseToResult(solver: Solver, cfg: TaintConfig, m: nat, base: Option<Pointer>, result: Option<Pointer>)
    requires solver.Inv() && m < |solver.prog.methods|
    requires base.Some? ==> PointerOk(solver.prog, solver.sel, base.value)
    requires result.Some? ==> PointerOk(solver.prog, solver.sel, result.value)
    modifies solver
    ensures solver.Inv() && Advances(solver.prog, solver.sel, old(solver.St()), solver.St())
    ensures solver.reachable == old(solver.reachable) && solver.callEdges == old(solver.callEdges)
    ensures Extends(old(solver.worklist), solver.worklist)
    ensures Added(old(solver.worklist), solver.worklist)
            == BaseToResultFacts(solver.prog, cfg, solver.sel.empty, solver.ptRel, m, base, result)
  {
    assert Unchanged(solver.worklist);
    if base.None? || result.None? {
      return;
    }
    var retType := solver.prog.methods[m].returnType;
    assert MethodOk(solver.prog, solver.prog.methods[m]);
    var tainted := AnyTaint(solver, base.value);
    if tainted && TaintTransfer(m, Base, Result, retType) in cfg.transfers {
      TransferTaint(solver, base.value, result.value, retType);
    }
  }

  /** What argument `i` of a call adds by rule (m, i, toPoint, ty). */
  ghost function ArgFact(prog: Program, cfg: TaintConfig, empty: Context, ptRel: set<(Pointer, CSObj)>,
                         m: nat, site: CSCallSite, toPoint: TransferPoint, to: Pointer, ty: nat, i: nat)
    : set<(Pointer, CSObj)>
    requires site.cs < |prog.callSites| && i < |prog.callSites[site.cs].args|
  {
    var arg := CSVar(site.ctx, prog.callSites[site.cs].args[i]);
    if Tainted(ptRel, arg) && TaintTransfer(m, Arg(i), toPoint, ty) in cfg.transfers
    then TaintFacts(ptRel, arg, to, ty, empty) else {}
  }

  /** One step of the loop over the parameters: argument `i`. */
  method CaptureArg(solver: Solver, cfg: TaintConfig, m: nat, site: CSCallSite,
                    toPoint: TransferPoint, to: Pointer, ty: nat, i: nat)
    requires solver.Inv() && site.cs < |solver.prog.callSites| && i < |solver.prog.callSites[site.cs].args|
    requires PointerOk(solver.prog, solver.sel, to) && ty < solver.prog.numTypes
    modifies solver
    ensures solver.Inv() && Advances(solver.prog, solver.sel, old(solver.St()), solver.St())
    ensures solver.reachable == old(solver.reachable) && solver.callEdges == old(solver.callEdges)
    ensures Extends(old(solver.worklist), solver.worklist)
    ensures Added(old(solver.worklist), solver.worklist)
            == ArgFact(solver.prog, cfg, solver.sel.empty, solver.ptRel, m, site, toPoint, to, ty, i)
  {
    assert Unchanged(solver.worklist);
    var arg := CSVar(site.ctx, solver.prog.callSites[site.cs].args[i]);
    var tainted := AnyTaint(solver, arg);
    if tainted && TaintTransfer(m, Arg(i), toPoint, ty) in cfg.transfers {
      TransferTaint(solver, arg, to, ty);
    }
  }

  /** The loop over the parameters of `captureArgToBase` and
      `captureArgToResult`: for each argument i holding taint whose rule
      (m, i, toPoint, ty) exists, its taint objects reach `to`. */
  method CaptureArgs(solver: Solver, cfg: TaintConfig, m: nat, site: CSCallSite,
                     toPoint: TransferPoint, to: Pointer, ty: nat)
    requires solver.Inv() && m < |solver.prog.methods| && site.cs < |solver.prog.callSites|
    requires |solver.prog.methods[m].params| <= |solver.prog.callSites[site.cs].args|
    requires PointerOk(solver.prog, solver.sel, to) && ty < solver.prog.numTypes
    modifies solver
    ensures solver.Inv() && Advances(solver.prog, solver.sel, old(solver.St()), solver.St())
    ensures solver.reachable == old(solver.reachable) && solver.callEdges == old(solver.callEdges)
    ensures Extends(old(solver.worklist), solver.worklist)
    ensures Added(old(solver.worklist), solver.worklist)
            == ArgFacts(solver.prog, cfg, solver.sel.empty, solver.ptRel, m, site, toPoint, to, ty,
                        |solver.prog.methods[m].params|)
  {
    ghost var s0 := solver.St();
    var n := |solver.prog.methods[m].params|;
    assert Unchanged(solver.worklist);
    assert Advances(solver.prog, solver.sel, s0, s0);
    var i := 0;
    while i < n
      invariant 0 <= i <= n
      invariant solver.Inv() && Advances(solver.prog, solver.sel, s0, solver.St())
      invariant solver.reachable == s0.reachable && solver.callEdges == s0.callEdges
      invariant Extends(s0.worklist, solver.worklist)
      invariant Added(s0.worklist, solver.worklist)
                == ArgFacts(solver.prog, cfg, solver.sel.empty, s0.ptRel, m, site, toPoint, to, ty, i)
    {
      ghost var s1 := solver.St();
      CaptureArg(solver, cfg, m, site, toPoint, to, ty, i);
      ghost var s2 := solver.St();
      AdvancesCompose(solver.prog, solver.sel, s0, s1, s2);
      AddedCompose(s0.worklist, s1.worklist, s2.worklist);
      assert ArgFacts(solver.prog, cfg, solver.sel.empty, s0.ptRel, m, site, toPoint, to, ty, i + 1)
          == ArgFacts(solver.prog, cfg, solver.sel.empty, s0.ptRel, m, site, toPoint, to, ty, i)
           + ArgFact(solver.prog, cfg, solver.sel.empty, s0.ptRel, m, site, toPoint, to, ty, i);
      i := i + 1;
    }
  }

  /** `captureArgToBase`. */
  method CaptureArgToBase(solver: Solver, cfg: TaintConfig, m: nat, base: Option<Pointer>, site: CSCallSite)
    requires solver.Inv() && WfConfig(solver.prog, cfg) && m < |solver.prog.methods|
    requires site.ctx < solver.sel.bound && site.cs < |solver.prog.callSites|
    requires |solver.prog.methods[m].params| <= |solver.prog.callSites[site.cs].args|
    requires base.Some? ==> base.value.CSVar? && PointerOk(solver.prog, solver.sel, base.value)
    modifies solver
    ensures solver.Inv() && Advances(solver.prog, solver.sel, old(solver.St()), solver.St())
    ensures solver.reachable == old(solver.reachable) && solver.callEdges == old(solver.callEdges)
    ensures Extends(old(solver.worklist), solver.worklist)
    ensures Added(old(solver.worklist), solver.worklist)
            == ArgToBaseFacts(solver.prog, cfg, solver.sel.empty, solver.ptRel, m, base, site)
  {
    assert Unchanged(solver.worklist);
    if base.None? {
      return;
    }
    CaptureArgs(solver, cfg, m, site, Base, base.value, cfg.varType(base.value.v));
  }

  /** `captureArgToResult`. */
  method CaptureArgToResult(solver: Solver, cfg: TaintConfig, m: nat, site: CSCallSite, result: Option<Pointer>)
    requires solver.Inv() && m < |solver.prog.methods|
    requires site.ctx < solver.sel.bound && site.cs < |solver.prog.callSites|
    requires |solver.prog.methods[m].params| <= |solver.prog.callSites[site.cs].args|
    requires result.Some? ==> PointerOk(solver.prog, solver.sel, result.value)
    modifies solver
    ensures solver.Inv() && Advances(solver.prog, solver.sel, old(solver.St()), solver.St())
    ensures solver.reachable == old(solver.reachable) && solver.callEdges == old(solver.callEdges)
    ensures Extends(old(solver.worklist), solver.worklist)
    ensures Added(old(solver.worklist), solver.worklist)
            == ArgToResultFacts(solver.prog, cfg, solver.sel.empty, solver.ptRel, m, site, result)
  {
    assert Unchanged(solver.worklist);
    if result.None? {
      return;
    }
    assert MethodOk(solver.prog, solver.prog.methods[m]);
    CaptureArgs(solver, cfg, m, site, Result, result.value, solver.prog.methods[m].returnType);
  }

  /** `doTaintTransfer`: the three transfers of a call of `m` at `site`
      with receiver `base` (None for a static call). */
  method DoTaintTransfer(solver: Solver, cfg: TaintConfig, m: nat, base: Option<Pointer>, site: CSCallSite)
    requires solver.Inv() && WfConfig(solver.prog, cfg) && m < |solver.prog.methods|
    requires site.ctx < solver.sel.bound && site.cs < |solver.prog.callSites|
    requires |solver.prog.methods[m].params| <= |solver.prog.callSites[site.cs].args|
    requires base.Some? ==> base.value.CSVar? && PointerOk(solver.prog, solver.sel, base.value)
    modifies solver
    ensures solver.Inv() && Advances(solver.prog, solver.sel, old(solver.St()), solver.St())
    ensures solver.reachable == old(solver.reachable) && solver.callEdges == old(solver.callEdges)
    ensures Extends(old(solver.worklist), solver.worklist)
    ensures var result := ResultPtr(solver.prog, site);
            Added(old(solver.worklist), solver.worklist)
            == BaseToResultFacts(solver.prog, cfg, solver.sel.empty, solver.ptRel, m, base, result)
             + ArgToBaseFacts(solver.prog, cfg, solver.sel.empty, solver.ptRel, m, base, site)
             + ArgToResultFacts(solver.prog, cfg, solver.sel.empty, solver.ptRel, m, site, result)
  {
    var result := ResultPtr(solver.prog, site);
    ghost var s0 := solver.St();
    ghost var w0 := solver.worklist;
    CaptureBaseToResult(solver, cfg, m, base, result);
    ghost var w1 := solver.worklist;
    CaptureArgToBase(solver, cfg, m, base, site);
    ghost var w2 := solver.worklist;
    AddedCompose(w0, w1, w2);
    CaptureArgToResult(solver, cfg, m, site, result);
    AddedCompose(w0, w2, solver.worklist);
    assert solver.ptRel == s0.ptRel;
  }

  // ---------------------------------------------------------------------
  // Taint flows

  /** `tf` is a flow at the sink `sink` of call edge `e`: some taint object
      of the sink argument, in the caller's context, has `tf`'s source
      call. */
  ghost predicate FlowAt(prog: Program, ptRel: set<(Pointer, CSObj)>, e: CallEdge, sink: Sink, tf: TaintFlow) {
    && e.site.cs < |prog.callSites|
    && sink.index < |prog.callSites[e.site.cs].args|
    && tf.sinkCall == e.site.cs && tf.index == sink.index
    && exists o :: (CSVar(e.site.ctx, prog.callSites[e.site.cs].args[sink.index]), o) in ptRel
                   && IsTaint(o) && o.obj.sourceCall == tf.sourceCall
  }

  /** `tf` is a taint flow of the finished analysis: at some call edge
      whose callee is the method of some sink. */
  ghost predicate IsFlow(prog: Program, cfg: TaintConfig, st: State, tf: TaintFlow) {
    exists e, k :: e in st.callEdges && 0 <= k < |cfg.sinks| && cfg.sinks[k].m == e.callee.m
                   && FlowAt(prog, st.ptRel, e, cfg.sinks[k], tf)
  }

  /** The sink arguments the callees of the call graph name exist. */
  ghost predicate SinksInRange(prog: Program, cfg: TaintConfig, st: State) {
    forall e, k :: e in st.callEdges && 0 <= k < |cfg.sinks| && cfg.sinks[k].m == e.callee.m ==>
      e.site.cs < |prog.callSites| && cfg.sinks[k].index < |prog.callSites[e.site.cs].args|
  }

  /** The innermost loop of `collectTaintFlows`: the flows of one sink of
      one call edge. */
  method SinkFlows(solver: Solver, e: CallEdge, sink: Sink) returns (r: set<TaintFlow>)
    requires e.site.cs < |solver.prog.callSites| && sink.index < |solver.prog.callSites[e.site.cs].args|
    ensures forall tf :: tf in r <==> FlowAt(solver.prog, solver.ptRel, e, sink, tf)
  {
    var arg := CSVar(e.site.ctx, solver.prog.callSites[e.site.cs].args[sink.index]);
    var objs := PointsTo(solver.ptRel, arg);
    var todo := objs;
    r := {};
    while todo != {}
      invariant todo <= objs
      invariant forall tf :: tf in r <==>
                  tf.sinkCall == e.site.cs && tf.index == sink.index
                  && exists o :: o in objs - todo && IsTaint(o) && o.obj.sourceCall == tf.sourceCall
      decreases |todo|
    {
      var o :| o in todo;
      if IsTaint(o) {
        r := r + {TaintFlow(o.obj.sourceCall, e.site.cs, sink.index)};
      }
      todo := todo - {o};
    }
  }

  /** The loop over the sinks for one call edge. */
  method EdgeFlows(solver: Solver, cfg: TaintConfig, e: CallEdge) returns (r: set<TaintFlow>)
    requires forall k :: 0 <= k < |cfg.sinks| && cfg.sinks[k].m == e.callee.m ==>
               e.site.cs < |solver.prog.callSites| && cfg.sinks[k].index < |solver.prog.callSites[e.site.cs].args|
    ensures forall tf :: tf in r <==>
              exists k :: 0 <= k < |cfg.sinks| && cfg.sinks[k].m == e.callee.m
                          && FlowAt(solver.prog, solver.ptRel, e, cfg.sinks[k], tf)
  {
    r := {};
    var k := 0;
    while k < |cfg.sinks|
      invariant 0 <= k <= |cfg.sinks|
      invariant forall tf :: tf in r <==>
                  exists j :: 0 <= j < k && cfg.sinks[j].m == e.callee.m
                              && FlowAt(solver.prog, solver.ptRel, e, cfg.sinks[j], tf)
    {
      if cfg.sinks[k].m == e.callee.m {
        var flows := SinkFlows(solver, e, cfg.sinks[k]);
        r := r + flows;
      }
      k := k + 1;
    }
  }

  /** `collectTaintFlows`: exactly the taint flows of the finished
      analysis are reported. */
  method CollectTaintFlows(solver: Solver, cfg: TaintConfig) returns (flows: set<TaintFlow>)
    requires SinksInRange(solver.prog, cfg, solver.St())
    ensures forall tf :: tf in flows <==> IsFlow(solver.prog, cfg, solver.St(), tf)
  {
    var edges := solver.callEdges;
    var todo := edges;
    flows := {};
    while todo != {}
      invariant todo <= edges
      invariant forall tf :: tf in flows <==>
                  exists e, k :: e in edges - todo && 0 <= k < |cfg.sinks| && cfg.sinks[k].m == e.callee.m
                                 && FlowAt(solver.prog, solver.ptRel, e, cfg.sinks[k], tf)
      decreases |todo|
    {
      var e :| e in todo;
      var r := EdgeFlows(solver, cfg, e);
      flows := flows + r;
      todo := todo - {e};
    }
  }
}
