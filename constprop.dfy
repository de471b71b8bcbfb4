/** Intraprocedural constant propagation over `int`-like variables
    (A2/.../constprop/ConstantPropagation.java): the three-level lattice
    UNDEF (no value seen yet) above the constants above NAC (not a
    constant), its meet, facts mapping variables to lattice values, the
    expression evaluator with Java's 32-bit arithmetic, and the node
    transfer function. */
module ConstProp {
  import opened IR

  // ---------------------------------------------------------------------
  // Java `int` arithmetic

  const TWO32: int := 0x1_0000_0000

  /** Two's-complement wrap-around of an unbounded integer into `int32`. */
  function Wrap(x: int): (r: int32)
    ensures (r as int - x) % TWO32 == 0
    ensures -0x8000_0000 <= x < 0x8000_0000 ==> r as int == x
  {
    ((x + 0x8000_0000) % TWO32 - 0x8000_0000) as int32
  }

  /** The unsigned reading of the 32 bits of `a`. */
  function Unsigned(a: int32): (u: nat)
    ensures u < TWO32 && (u - a as int) % TWO32 == 0
  {
    if a < 0 then a as int + TWO32 else a as int
  }

  function ToBits(a: int32): bv32 { Unsigned(a) as bv32 }

  function FromBits(b: bv32): int32 { Wrap(b as int) }

  function Abs(x: int): nat { if x < 0 then -x else x }

  /** Java's `/`, which truncates toward zero (Dafny's `/` is Euclidean). */
  function TruncDiv(a: int, b: int): int
    requires b != 0
  {
    var q := Abs(a) / Abs(b);
    if (a < 0) == (b < 0) then q else -q
  }

  function Pow2(k: nat): (p: nat)
    ensures p > 0
  {
    if k == 0 then 1 else 2 * Pow2(k - 1)
  }

  /** Java masks a 32-bit shift distance to its low five bits. */
  function ShiftDistance(b: int32): nat { Unsigned(b) % 32 }

  /** The concrete value of `a op b` on Java `int`s; `None` when Java
      throws (division or remainder by zero).  A comparison gives -1, 0 or
      1, the sign of `a - b` (the `cmpl`/`cmpg` variants differ only on
      NaN, which no `int` is). */
  function JavaBinary(op: BinOp, a: int32, b: int32): (r: Option<int32>)
    ensures r.None? <==> op.Arith? && (op.a == Div || op.a == Rem) && b == 0
  {
    match op
    case Arith(Add) => Some(Wrap(a as int + b as int))
    case Arith(Sub) => Some(Wrap(a as int - b as int))
    case Arith(Mul) => Some(Wrap(a as int * b as int))
    case Arith(Div) => if b == 0 then None else Some(Wrap(TruncDiv(a as int, b as int)))
    case Arith(Rem) =>
      if b == 0 then None else Some(Wrap(a as int - b as int * TruncDiv(a as int, b as int)))
    case Bitwise(And) => Some(FromBits(ToBits(a) & ToBits(b)))
    case Bitwise(Or) => Some(FromBits(ToBits(a) | ToBits(b)))
    case Bitwise(Xor) => Some(FromBits(ToBits(a) ^ ToBits(b)))
    case Shift(Shl) => Some(Wrap(a as int * Pow2(ShiftDistance(b))))
    case Shift(Shr) => Some(Wrap(a as int / Pow2(ShiftDistance(b))))
    case Shift(Ushr) => Some(Wrap(Unsigned(a) / Pow2(ShiftDistance(b))))
    case Cond(Eq) => Some(if a == b then 1 else 0)
    case Cond(Ne) => Some(if a != b then 1 else 0)
    case Cond(Lt) => Some(if a < b then 1 else 0)
    case Cond(Le) => Some(if a <= b then 1 else 0)
    case Cond(Gt) => Some(if a > b then 1 else 0)
    case Cond(Ge) => Some(if a >= b then 1 else 0)
    case Compare(_) => Some(if a < b then -1 else if a == b then 0 else 1)
  }

  // ---------------------------------------------------------------------
  // The lattice

  datatype Value = Undef | NAC | Const(c: int32)

  /** `a` is below (at most as precise as) `b`: NAC is the bottom, UNDEF
      the top, and distinct constants are incomparable. */
  predicate Below(a: Value, b: Value) {
    a.NAC? || b.Undef? || a == b
  }

  /** `meetValue`: the greatest lower bound of two values. */
  function MeetValue(v1: Value, v2: Value): (r: Value)
    ensures Below(r, v1) && Below(r, v2)
    ensures forall w :: Below(w, v1) && Below(w, v2) ==> Below(w, r)
  {
    if v1.NAC? || v2.NAC? then NAC
    else if v1.Undef? then v2
    else if v2.Undef? then v1
    else if v1.c == v2.c then Const(v1.c)
    else NAC
  }

  /** The case table of `meetValue`. */
  lemma MeetValueCases(v1: Value, v2: Value)
    ensures MeetValue(NAC, v2) == NAC && MeetValue(v1, NAC) == NAC
    ensures MeetValue(Undef, v2) == v2 && MeetValue(v1, Undef) == v1
    ensures v1.Const? && v2.Const? ==> MeetValue(v1, v2) == (if v1.c == v2.c then v1 else NAC)
  {
  }

  lemma MeetValueCommutative(v1: Value, v2: Value)
    ensures MeetValue(v1, v2) == MeetValue(v2, v1)
  {
  }

  lemma MeetValueAssociative(v1: Value, v2: Value, v3: Value)
    ensures MeetValue(MeetValue(v1, v2), v3) == MeetValue(v1, MeetValue(v2, v3))
  {
  }

  lemma MeetValueIdempotent(v: Value)
    ensures MeetValue(v, v) == v
  {
  }

  // ---------------------------------------------------------------------
  // Facts.  Tai-e's CPFact answers UNDEF for a variable it has no entry
  // for, and `update(x, UNDEF)` removes the entry of x.

  type FactMap = map<Var, Value>

  function Get(f: FactMap, v: Var): Value {
    if v in f then f[v] else Undef
  }

  /** No entry holds UNDEF: the form every CPFact is kept in. */
  predicate Normal(f: FactMap) {
    forall v :: v in f ==> f[v] != Undef
  }

  /** `CPFact.update` on a map value. */
  function Updated(f: FactMap, v: Var, val: Value): (r: FactMap)
    ensures Normal(f) ==> Normal(r)
    ensures Get(r, v) == val
    ensures forall w :: w != v ==> Get(r, w) == Get(f, w)
  {
    if val.Undef? then f - {v} else f[v := val]
  }

  /** Two normal facts with the same lattice value everywhere are equal. */
  lemma {:induction false} NormalExtensional(f: FactMap, g: FactMap)
    requires Normal(f) && Normal(g)
    requires forall v :: Get(f, v) == Get(g, v)
    ensures f == g
  {
    forall v | v in f ensures v in g && g[v] == f[v] {
      assert Get(f, v) == Get(g, v);
    }
    forall v | v in g ensures v in f {
      assert Get(f, v) == Get(g, v);
    }
  }

  /** Pointwise order on facts. */
  ghost predicate FactBelow(f: FactMap, g: FactMap) {
    forall v :: Below(Get(f, v), Get(g, v))
  }

  /** A CPFact object: a mutable map from variables to values. */
  class Fact {
    var m: FactMap

    ghost predicate Valid()
      reads this
    {
      Normal(m)
    }

    /** `new CPFact()` (also `newInitialFact`): every variable UNDEF. */
    constructor ()
      ensures Valid() && m == map[]
    {
      m := map[];
    }

    method Update(v: Var, val: Value)
      requires Valid()
      modifies this
      ensures Valid() && m == Updated(old(m), v, val)
    {
      m := Updated(m, v, val);
    }

    /** `copyFrom`: overwrite this fact; true iff it changed. */
    method CopyFrom(other: Fact) returns (changed: bool)
      modifies this
      ensures m == old(other.m)
      ensures changed <==> old(m) != old(other.m)
    {
      changed := m != other.m;
      m := other.m;
    }

    method Copy() returns (f: Fact)
      ensures fresh(f) && f.m == m
    {
      f := new Fact();
      f.m := m;
    }
  }

  // ---------------------------------------------------------------------
  // The analysis

  function CanHoldInt(v: Var): (r: bool)
    ensures r <==> v.ty in {Prim(Byte), Prim(Short), Prim(Int), Prim(Char), Prim(Boolean)}
  {
    match v.ty
    case Prim(p) =>
      (match p
       case Byte => true
       case Short => true
       case Int => true
       case Char => true
       case Boolean => true
       case _ => false)
    case Ref(_) => false
  }

  /** `newBoundaryFact`: every int-holding parameter is NAC, nothing else
      has a value. */
  method NewBoundaryFact(params: seq<Var>) returns (fact: Fact)
    ensures fresh(fact) && fact.Valid()
    ensures forall v :: Get(fact.m, v) == if v in params && CanHoldInt(v) then NAC else Undef
  {
    fact := new Fact();
    for i := 0 to |params|
      invariant fact.Valid()
      invariant forall v :: Get(fact.m, v) == if v in params[..i] && CanHoldInt(v) then NAC else Undef
    {
      if CanHoldInt(params[i]) {
        fact.Update(params[i], NAC);
      }
    }
    assert params[..|params|] == params;
  }

  /** `meetInto(fact, target)`: every variable of `target` becomes the meet
      of its value in both facts.  The loop runs over the keys of `fact`
      only; the others are unaffected since UNDEF is the identity. */
  method MeetInto(fact: Fact, target: Fact)
    requires fact.Valid() && target.Valid() && fact != target
    modifies target
    ensures target.Valid()
    ensures forall v :: Get(target.m, v) == MeetValue(Get(fact.m, v), Get(old(target.m), v))
  {
    var keys := fact.m.Keys;
    while keys != {}
      invariant keys <= fact.m.Keys
      invariant target.Valid()
      invariant forall v ::
                  Get(target.m, v) ==
                  if v in fact.m && v !in keys then MeetValue(Get(fact.m, v), Get(old(target.m), v))
                  else Get(old(target.m), v)
      decreases keys
    {
      var k :| k in keys;
      target.Update(k, MeetValue(Get(fact.m, k), Get(target.m, k)));
      keys := keys - {k};
    }
  }

  /** `meetInto` produces a lower bound of both facts, the greatest one. */
  lemma MeetFactIsGreatestLowerBound(f: FactMap, t: FactMap, r: FactMap, w: FactMap)
    requires forall v :: Get(r, v) == MeetValue(Get(f, v), Get(t, v))
    ensures FactBelow(r, f) && FactBelow(r, t)
    ensures FactBelow(w, f) && FactBelow(w, t) ==> FactBelow(w, r)
  {
  }

  /** The value of a binary expression whose operands have values v1, v2:
      a division or remainder by the constant 0 is UNDEF even when the
      other operand is NAC; otherwise a NAC operand gives NAC and then an
      UNDEF operand gives UNDEF; two constants are computed in Java,
      except that `evaluate` has no case for a comparison (`lcmp`, `fcmp`,
      `dcmp`), which falls through to UNDEF. */
  function EvalBinary(op: BinOp, v1: Value, v2: Value): Value
  {
    if v1.NAC? || v2.NAC? then
      if op.Arith? && (op.a == Div || op.a == Rem) && v2 == Const(0) then Undef else NAC
    else if v1.Undef? || v2.Undef? then Undef
    else if op.Compare? then Undef
    else
      match JavaBinary(op, v1.c, v2.c)
      case None => Undef
      case Some(k) => Const(k)
  }

  /** `evaluate`: the lattice value of an expression under fact `in`. */
  function Evaluate(e: Exp, fin: FactMap): Value
  {
    match e
    case IntLit(k) => Const(k)
    case VarE(v) => Get(fin, v)
    case Binary(op, a, b) => EvalBinary(op, Get(fin, a), Get(fin, b))
    case _ => NAC
  }

  /** The statement-level facts that the source states about `evaluate`. */
  lemma EvaluateCases(e: Exp, fin: FactMap)
    ensures e.IntLit? ==> Evaluate(e, fin) == Const(e.value)
    ensures e.Binary? && e.op.Arith? && (e.op.a == Div || e.op.a == Rem) && Get(fin, e.right) == Const(0)
      ==> Evaluate(e, fin) == Undef
    ensures e.Binary? && e.op.Cond? && Get(fin, e.left).Const? && Get(fin, e.right).Const?
      ==> Evaluate(e, fin) == Const(if JavaBinary(e.op, Get(fin, e.left).c, Get(fin, e.right).c) == Some(1) then 1 else 0)
    ensures e.Binary? && e.op.Compare? && Get(fin, e.left).Const? && Get(fin, e.right).Const?
      ==> Evaluate(e, fin) == Undef
    ensures !(e.IntLit? || e.VarE? || e.Binary?) ==> Evaluate(e, fin) == NAC
  {
    if e.Binary? && e.op.Cond? && Get(fin, e.left).Const? && Get(fin, e.right).Const? {
      var c1, c2 := Get(fin, e.left).c, Get(fin, e.right).c;
      assert JavaBinary(e.op, c1, c2) == Some(0) || JavaBinary(e.op, c1, c2) == Some(1);
    }
  }

  predicate IsDivOrRem(op: BinOp) {
    op.Arith? && (op.a == Div || op.a == Rem)
  }

  /** `evaluate` of a binary expression is monotone in its operands, except
      for one pair of inputs: see `EvalBinaryNotMonotone`. */
  lemma EvalBinaryMonotone(op: BinOp, a1: Value, b1: Value, a2: Value, b2: Value)
    requires Below(a1, a2) && Below(b1, b2)
    requires !(IsDivOrRem(op) && b1 == Const(0) && b2.Undef?)
    ensures Below(EvalBinary(op, a1, b1), EvalBinary(op, a2, b2))
  {
  }

  /** Lowering the divisor from UNDEF to the constant 0 raises `NAC / b`
      from NAC to UNDEF, so `evaluate` is not monotone there. */
  lemma EvalBinaryNotMonotone(op: BinOp)
    requires IsDivOrRem(op)
    ensures Below(Const(0), Undef)
    ensures EvalBinary(op, NAC, Const(0)) == Undef && EvalBinary(op, NAC, Undef) == NAC
    ensures !Below(EvalBinary(op, NAC, Const(0)), EvalBinary(op, NAC, Undef))
  {
  }

  /** The exception above, for an expression and two facts. */
  predicate DivisorDropsFromUndefToZero(e: Exp, f: FactMap, g: FactMap) {
    e.Binary? && IsDivOrRem(e.op) && Get(f, e.right) == Const(0) && Get(g, e.right).Undef?
  }

  /** `evaluate` is monotone in its fact (outside that exception); the
      transfer functions built on it inherit this. */
  lemma EvaluateMonotone(e: Exp, f: FactMap, g: FactMap)
    requires FactBelow(f, g)
    requires !DivisorDropsFromUndefToZero(e, f, g)
    ensures Below(Evaluate(e, f), Evaluate(e, g))
  {
    match e
    case VarE(v) => assert Below(Get(f, v), Get(g, v));
    case Binary(op, a, b) =>
      assert Below(Get(f, a), Get(g, a)) && Below(Get(f, b), Get(g, b));
      EvalBinaryMonotone(op, Get(f, a), Get(f, b), Get(g, a), Get(g, b));
    case _ =>
  }

  // Concrete semantics, for soundness

  /** The concrete value of an int expression in state `env`, `None` when
      the expression is not one of int type or Java throws. */
  function ConcreteEval(e: Exp, env: Var -> int32): Option<int32>
  {
    match e
    case IntLit(k) => Some(k)
    case VarE(v) => Some(env(v))
    case Binary(op, a, b) => JavaBinary(op, env(a), env(b))
    case _ => None
  }

  /** `env` agrees with every constant that fact `f` claims. */
  ghost predicate Abstracts(f: FactMap, env: Var -> int32) {
    forall v :: Get(f, v).Const? ==> env(v) == Get(f, v).c
  }

  /** Soundness of `evaluate`: a constant it reports is the value the
      expression has in every state that agrees with the fact. */
  lemma EvaluateSound(e: Exp, f: FactMap, env: Var -> int32)
    requires Abstracts(f, env)
    requires Evaluate(e, f).Const?
    ensures ConcreteEval(e, env) == Some(Evaluate(e, f).c)
  {
    match e
    case VarE(v) =>
    case Binary(op, a, b) =>
      assert Get(f, a).Const? && Get(f, b).Const?;
      assert env(a) == Get(f, a).c && env(b) == Get(f, b).c;
    case _ =>
  }

  /** The int-holding variable a statement defines, if any: the Var lhs of
      an assignment or the result of a call. */
  function DefinedIntVar(s: Stmt): Option<Var> {
    match s
    case Assign(LVar(v), _) => if CanHoldInt(v) then Some(v) else None
    case Invoke(Some(v), _) => if CanHoldInt(v) then Some(v) else None
    case _ => None
  }

  /** The right-hand side of a definition (`InvokeE` for a call). */
  function RhsOf(s: Stmt): Exp {
    match s
    case Assign(_, rhs) => rhs
    case _ => InvokeE
  }

  /** The OUT fact `transferNode` computes from IN: only an int-holding Var
      lhs changes, to the value of the rhs; everything else is copied. */
  function TransferFact(s: Stmt, fin: FactMap): (out: FactMap)
    ensures Normal(fin) ==> Normal(out)
    ensures forall w ::
              Get(out, w) == if DefinedIntVar(s) == Some(w) then Evaluate(RhsOf(s), fin) else Get(fin, w)
  {
    match DefinedIntVar(s)
    case Some(v) => Updated(fin, v, Evaluate(RhsOf(s), fin))
    case None => fin
  }

  /** The transfer function is monotone. */
  lemma TransferFactMonotone(s: Stmt, f: FactMap, g: FactMap)
    requires FactBelow(f, g)
    requires !DivisorDropsFromUndefToZero(RhsOf(s), f, g)
    ensures FactBelow(TransferFact(s, f), TransferFact(s, g))
  {
    EvaluateMonotone(RhsOf(s), f, g);
  }

  /** `transferNode`: OUT := transfer(IN); the result says whether OUT changed. */
  method TransferNode(s: Stmt, inFact: Fact, out: Fact) returns (changed: bool)
    requires inFact.Valid()
    modifies out
    ensures out.Valid()
    ensures out.m == TransferFact(s, old(inFact.m))
    ensures changed <==> old(out.m) != out.m
  {
    var def := DefinedIntVar(s);
    if def.Some? {
      var newIn := inFact.Copy();
      newIn.Update(def.value, Evaluate(RhsOf(s), inFact.m));
      changed := out.CopyFrom(newIn);
    } else {
      changed := out.CopyFrom(inFact);
    }
  }
}
