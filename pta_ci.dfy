/** Context-insensitive pointer analysis (A5/.../pta/ci/Solver.java).  Its
    solver is the context-sensitive one of module Pta run with a selector
    that has a single context: variables, fields and objects are not
    distinguished by context, and each method is reachable at most once. */
module PtaCi {
  import opened IR
  import opened Pta

  /** The one context. */
  const Empty: Context := 0

  /** The selector of the context-insensitive analysis: every context it
      makes is the empty one. */
  function CISelector(): (sel: Selector)
    ensures WfSelector(sel) && sel.empty == Empty && sel.bound == 1
  {
    Selector(Empty, (site, m) => Empty, (site, o, m) => Empty, (n, o) => Empty, 1)
  }

  /** A variable's pointer (`PointerFlowGraph.getVarPtr`). */
  function VarPtr(v: nat): Pointer {
    CSVar(Empty, v)
  }

  /** The single context every element of a pointer carries. */
  predicate PointerInEmpty(p: Pointer) {
    match p
    case CSVar(c, _) => c == Empty
    case StaticField(_) => true
    case InstanceField(o, _) => o.ctx == Empty
    case ArrayIndex(o) => o.ctx == Empty
  }

  /** Everything a context-insensitive solver holds is in the empty
      context: variable pointers are `VarPtr`s, objects are plain objects,
      and reachable methods are plain methods. */
  lemma OnlyEmptyContext(prog: Program, st: State)
    requires StValid(prog, CISelector(), st)
    ensures forall pr :: pr in st.ptRel ==> PointerInEmpty(pr.0) && pr.1.ctx == Empty
    ensures forall pr :: pr in st.ptRel && pr.0.CSVar? ==> pr.0 == VarPtr(pr.0.v)
    ensures forall e :: e in st.pfg ==> PointerInEmpty(e.0) && PointerInEmpty(e.1)
    ensures forall n :: n in st.reachable ==> n == CSMethod(Empty, n.m)
    ensures forall e :: e in st.callEdges ==> e.site.ctx == Empty && e.callee == CSMethod(Empty, e.callee.m)
  {
  }

  /** With one context, two reachable methods are the same exactly when
      they are the same method: `addReachable` processes each method once. */
  lemma ReachableOncePerMethod(prog: Program, st: State, n1: CSMethod, n2: CSMethod)
    requires StValid(prog, CISelector(), st)
    requires n1 in st.reachable && n2 in st.reachable
    ensures n1 == n2 <==> n1.m == n2.m
  {
    OnlyEmptyContext(prog, st);
  }

  /** `solve` of the context-insensitive solver: the result satisfies
      every rule, main is reachable, and nothing is pending. */
  method SolveCI(prog: Program) returns (solver: Solver)
    requires WfProgram(prog)
    ensures solver.prog == prog && solver.sel == CISelector()
    ensures solver.Inv() && AllRules(prog, CISelector(), solver.St()) && solver.worklist == []
    ensures CSMethod(Empty, prog.main) in solver.reachable
  {
    solver := Analysis(prog, CISelector());
  }
}
