/** The slice of Tai-e's intermediate representation that the dataflow
    analyses (constant propagation, dead-code detection, interprocedural
    constant propagation) look at: typed variables, three-address
    expressions and a closed set of statement kinds. */
module IR {

  newtype int32 = x: int | -0x8000_0000 <= x < 0x8000_0000

  datatype PrimType = Byte | Short | Int | Char | Boolean | Long | Float | Double

  datatype Type = Prim(p: PrimType) | Ref(name: nat)

  /** A local variable of a method; `id` identifies it, `ty` is its declared type. */
  datatype Var = Var(id: nat, ty: Type)

  datatype ArithOp = Add | Sub | Mul | Div | Rem
  datatype BitwiseOp = And | Or | Xor
  datatype ShiftOp = Shl | Shr | Ushr
  datatype CondOp = Eq | Ne | Lt | Le | Gt | Ge
  /** `ComparisonExp`: `lcmp`, `fcmpl`/`dcmpl` and `fcmpg`/`dcmpg`. */
  datatype CompareOp = Cmp | Cmpl | Cmpg

  /** The five families of `BinaryExp`. */
  datatype BinOp =
    | Arith(a: ArithOp)
    | Bitwise(b: BitwiseOp)
    | Shift(s: ShiftOp)
    | Cond(c: CondOp)
    | Compare(cmp: CompareOp)

  /** A field reference as written at the access: the class named in the
      reference and the field name.  `resolve()` of Tai-e maps it to the
      declared field, see `Resolution`. */
  datatype FieldRef = FieldRef(declClass: nat, name: nat)

  datatype FieldAccess =
    | StaticAccess(ref: FieldRef)
    | InstanceAccess(base: Var, ref: FieldRef)

  /** Right-hand sides (Tai-e's `RValue`/`Exp`).  Operands of binary and
      unary expressions are variables, as in three-address code. */
  datatype Exp =
    | IntLit(value: int32)
    | VarE(v: Var)
    | Binary(op: BinOp, left: Var, right: Var)
    | Neg(operand: Var)
    | NewE(ty: Type)
    | Cast(castee: Var, ty: Type)
    | FieldE(access: FieldAccess)
    | ArrayE(arrayBase: Var, index: Var)
    | InvokeE
    | OtherE

  datatype LValue =
    | LVar(v: Var)
    | LField(access: FieldAccess)
    | LArray(arrayBase: Var, index: Var)

  /** Statements.  `Assign` covers every `AssignStmt` (copy, new, binary,
      field and array loads and stores, casts); `Invoke` is a call whose
      result variable may be absent; `Nop` stands for the statements without
      a definition that the analyses do not inspect (return, goto, ...). */
  datatype Stmt =
    | Assign(lhs: LValue, rhs: Exp)
    | Invoke(result: Option<Var>, args: seq<Var>)
    | If(cond: Exp)
    | Switch(switchVar: Var)
    | Nop

  datatype Option<T> = None | Some(value: T)

  /** The declared field a reference resolves to (`FieldRef.resolve()`),
      supplied by the class hierarchy. */
  type Resolution = FieldRef -> nat

  /** The numbers below `k`. */
  function NatsBelow(k: nat): (r: set<nat>)
    ensures forall n: nat :: n in r <==> n < k
  {
    if k == 0 then {} else NatsBelow(k - 1) + {k - 1}
  }

  /** The elements of a sequence. */
  function Elems(q: seq<nat>): (r: set<nat>)
    ensures forall t :: t in r <==> t in q
  {
    set t | t in q
  }

  /** Adding a new element of `A` to `R` shrinks what remains of `A`. */
  lemma Shrinks(A: set<nat>, R: set<nat>, n: nat)
    requires n in A && n !in R
    ensures |A - (R + {n})| < |A - R|
  {
    assert A - R == (A - (R + {n})) + {n};
  }
}
