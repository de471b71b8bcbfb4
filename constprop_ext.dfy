/** The constant propagation used by the interprocedural analysis
    (A7/.../constprop/ConstantPropagation.java).  Its lattice, meet, facts,
    boundary fact and `meetInto` are those of module ConstProp; it differs in
    `evaluate` (it also handles negation and allocation) and in the guard of
    `transferNode` (operand types instead of the lhs type). */
module ConstPropExt {
  import opened IR
  import opened ConstProp

  /** `evaluate` of this variant. */
  function EvaluateExt(e: Exp, fin: FactMap): Value
  {
    match e
    case IntLit(k) => Const(k)
    case VarE(v) =>
      var val := Get(fin, v);
      if val.Const? then Const(val.c) else if val.Undef? then Undef else NAC
    case Binary(op, a, b) => EvalBinary(op, Get(fin, a), Get(fin, b))
    case Neg(a) =>
      var val := Get(fin, a);
      if val.NAC? then NAC else if val.Const? then Const(Wrap(-(val.c as int))) else Undef
    case NewE(_) => Undef
    case _ => NAC
  }

  /** What the source states about the new cases: a variable evaluates to
      its value unchanged; negation is NAC-strict, UNDEF-preserving and
      negates a constant with Java wrap-around; an allocation is UNDEF. */
  lemma EvaluateExtCases(e: Exp, fin: FactMap)
    ensures e.VarE? ==> EvaluateExt(e, fin) == Get(fin, e.v)
    ensures e.Neg? && Get(fin, e.operand).NAC? ==> EvaluateExt(e, fin) == NAC
    ensures e.Neg? && Get(fin, e.operand).Undef? ==> EvaluateExt(e, fin) == Undef
    ensures e.Neg? && Get(fin, e.operand).Const? && Get(fin, e.operand).c != -0x8000_0000
      ==> EvaluateExt(e, fin) == Const(-Get(fin, e.operand).c)
    ensures e.Neg? && Get(fin, e.operand) == Const(-0x8000_0000) ==> EvaluateExt(e, fin) == Const(-0x8000_0000)
    ensures e.NewE? ==> EvaluateExt(e, fin) == Undef
    ensures e.Binary? && IsDivOrRem(e.op) && Get(fin, e.right) == Const(0) ==> EvaluateExt(e, fin) == Undef
  {
  }

  /** On every expression the first variant handles, both variants agree. */
  lemma EvaluateExtExtendsEvaluate(e: Exp, fin: FactMap)
    requires !e.Neg? && !e.NewE?
    ensures EvaluateExt(e, fin) == Evaluate(e, fin)
  {
  }

  /** The concrete value of an int expression, now with negation. */
  function ConcreteEvalExt(e: Exp, env: Var -> int32): Option<int32>
  {
    match e
    case Neg(a) => Some(Wrap(-(env(a) as int)))
    case _ => ConcreteEval(e, env)
  }

  /** Soundness of this `evaluate`: a constant it reports is the value of
      the expression in every state that agrees with the fact. */
  lemma EvaluateExtSound(e: Exp, f: FactMap, env: Var -> int32)
    requires Abstracts(f, env)
    requires EvaluateExt(e, f).Const?
    ensures ConcreteEvalExt(e, env) == Some(EvaluateExt(e, f).c)
  {
    match e
    case Neg(a) => assert Get(f, a).Const?;
    case VarE(v) => assert Get(f, v).Const?;
    case NewE(_) =>
    case _ =>
      EvaluateExtExtendsEvaluate(e, f);
      EvaluateSound(e, f, env);
  }

  /** Whether the operands of the rhs pass the type guard of
      `transferNode`: a Var rhs, both binary operands and a negated operand
      must be int-holding; other right-hand sides always pass. */
  predicate OperandsHoldInt(rhs: Exp) {
    match rhs
    case VarE(v) => CanHoldInt(v)
    case Binary(_, a, b) => CanHoldInt(a) && CanHoldInt(b)
    case Neg(a) => CanHoldInt(a)
    case _ => true
  }

  /** The variable this variant's `transferNode` updates: the Var lhs of a
      definition whose operands pass the guard (whatever the lhs type), or
      the result of a call. */
  function UpdatedVar(s: Stmt): Option<Var> {
    match s
    case Assign(LVar(v), rhs) => if OperandsHoldInt(rhs) then Some(v) else None
    case Invoke(Some(v), _) => Some(v)
    case _ => None
  }

  /** The OUT fact of this variant's `transferNode`. */
  function TransferFactExt(s: Stmt, fin: FactMap): (out: FactMap)
    ensures Normal(fin) ==> Normal(out)
    ensures forall w ::
              Get(out, w) == if UpdatedVar(s) == Some(w) then EvaluateExt(RhsOf(s), fin) else Get(fin, w)
  {
    match UpdatedVar(s)
    case Some(v) => Updated(fin, v, EvaluateExt(RhsOf(s), fin))
    case None => fin
  }

  /** The guard cases: no definition, a non-Var lhs, or a rhs operand that
      does not hold an int leave OUT equal to IN. */
  lemma TransferFactExtCopies(s: Stmt, fin: FactMap)
    requires || s.Nop? || s.If? || s.Switch?
             || (s.Invoke? && s.result.None?)
             || (s.Assign? && !s.lhs.LVar?)
             || (s.Assign? && !OperandsHoldInt(s.rhs))
    ensures TransferFactExt(s, fin) == fin
  {
  }

  /** `transferNode` of this variant. */
  method TransferNodeExt(s: Stmt, inFact: Fact, out: Fact) returns (changed: bool)
    requires inFact.Valid()
    modifies out
    ensures out.Valid()
    ensures out.m == TransferFactExt(s, old(inFact.m))
    ensures changed <==> old(out.m) != out.m
  {
    var key := UpdatedVar(s);
    if key.None? {
      changed := out.CopyFrom(inFact);
      return;
    }
    var temp := inFact.Copy();
    temp.Update(key.value, EvaluateExt(RhsOf(s), inFact.m));
    changed := out.CopyFrom(temp);
  }
}
