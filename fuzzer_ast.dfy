/**
 * The fuzzer's own abstract syntax tree: cv-qualifiers, scalar types, the
 * closed sum types of C++ types and of expressions, and the precedence every
 * expression node reports.
 */
module FuzzerAst {

  // ---------------------------------------------------------------------------
  // cv-qualifiers: a bit set stored in one unsigned byte
  // ---------------------------------------------------------------------------

  /** The underlying byte of a `CvQualifiers` value; any byte can be cast to it. */
  type CvQualifiers = bv8

  const CvNone: CvQualifiers := 0
  const CvConst: CvQualifiers := 1
  const CvVolatile: CvQualifiers := 2

  /** `BitMasks[i]` is the byte with only bit `i` set. */
  const BitMasks: seq<bv8> := [1, 2, 4, 8, 16, 32, 64, 128]

  /** Bit `i` of the underlying byte is set. */
  predicate HasBit(q: CvQualifiers, i: nat)
    requires i < 8
  {
    q & BitMasks[i] != 0
  }

  /** `operator|`: bitwise or of the underlying bytes. */
  function CvOr(lhs: CvQualifiers, rhs: CvQualifiers): (r: CvQualifiers)
    ensures forall i :: 0 <= i < 8 ==> (HasBit(r, i) <==> HasBit(lhs, i) || HasBit(rhs, i))
  {
    lhs | rhs
  }

  /** `operator&`: bitwise and of the underlying bytes. */
  function CvAnd(lhs: CvQualifiers, rhs: CvQualifiers): (r: CvQualifiers)
    ensures forall i :: 0 <= i < 8 ==> (HasBit(r, i) <==> HasBit(lhs, i) && HasBit(rhs, i))
  {
    lhs & rhs
  }

  /** Two bytes are equal exactly when they agree on every bit. */
  lemma BitsDetermineValue(a: CvQualifiers, b: CvQualifiers)
    requires forall i :: 0 <= i < 8 ==> (HasBit(a, i) <==> HasBit(b, i))
    ensures a == b
  {
    assert HasBit(a, 0) == HasBit(b, 0) && HasBit(a, 1) == HasBit(b, 1);
    assert HasBit(a, 2) == HasBit(b, 2) && HasBit(a, 3) == HasBit(b, 3);
    assert HasBit(a, 4) == HasBit(b, 4) && HasBit(a, 5) == HasBit(b, 5);
    assert HasBit(a, 6) == HasBit(b, 6) && HasBit(a, 7) == HasBit(b, 7);
  }

  /** `None` is the identity of `|` and the zero of `&`. */
  lemma CvNoneIdentityAndZero(q: CvQualifiers)
    ensures CvOr(q, CvNone) == q && CvOr(CvNone, q) == q
    ensures CvAnd(q, CvNone) == CvNone && CvAnd(CvNone, q) == CvNone
  {
    forall i | 0 <= i < 8 ensures !HasBit(CvNone, i) {
    }
    BitsDetermineValue(CvOr(q, CvNone), q);
    BitsDetermineValue(CvOr(CvNone, q), q);
    BitsDetermineValue(CvAnd(q, CvNone), CvNone);
    BitsDetermineValue(CvAnd(CvNone, q), CvNone);
  }

  /** `Const` and `Volatile` are two distinct single bits. */
  lemma ConstVolatileDistinctBits()
    ensures HasBit(CvConst, 0) && !HasBit(CvConst, 1)
    ensures HasBit(CvVolatile, 1) && !HasBit(CvVolatile, 0)
    ensures forall i :: 2 <= i < 8 ==> !HasBit(CvConst, i) && !HasBit(CvVolatile, i)
    ensures CvAnd(CvOr(CvConst, CvVolatile), CvConst) == CvConst
    ensures CvAnd(CvOr(CvConst, CvVolatile), CvVolatile) == CvVolatile
    ensures CvAnd(CvConst, CvVolatile) == CvNone
  {
  }

  /**
   * A `CvQualifiers` lvalue: the left operand of `|=` and `&=`, which the
   * operators overwrite in place and then return.
   */
  class CvCell {
    var value: CvQualifiers

    constructor (v: CvQualifiers)
      ensures value == v
    {
      value := v;
    }

    /** `lhs |= rhs`: stores `lhs | rhs` into the cell and returns it. */
    method OrAssign(rhs: CvQualifiers) returns (r: CvQualifiers)
      modifies this
      ensures value == CvOr(old(value), rhs) && r == value
    {
      value := CvOr(value, rhs);
      r := value;
    }

    /** `lhs &= rhs`: stores `lhs & rhs` into the cell and returns it. */
    method AndAssign(rhs: CvQualifiers) returns (r: CvQualifiers)
      modifies this
      ensures value == CvAnd(old(value), rhs) && r == value
    {
      value := CvAnd(value, rhs);
      r := value;
    }
  }

  // ---------------------------------------------------------------------------
  // Scalar types and operators (enums with consecutive underlying values)
  // ---------------------------------------------------------------------------

  datatype ScalarType =
    | Void | Bool | Char | SignedChar | UnsignedChar
    | SignedShort | UnsignedShort | SignedInt | UnsignedInt
    | SignedLong | UnsignedLong | SignedLongLong | UnsignedLongLong

  /** The enumerators in declaration order, from `EnumMin` to `EnumMax`. */
  const AllScalarTypes: seq<ScalarType> :=
    [Void, Bool, Char, SignedChar, UnsignedChar, SignedShort, UnsignedShort,
     SignedInt, UnsignedInt, SignedLong, UnsignedLong, SignedLongLong, UnsignedLongLong]

  const NUM_SCALAR_TYPES: nat := 13

  /** The underlying value of a scalar type. */
  function ScalarTypeValue(s: ScalarType): (n: nat)
    ensures n < NUM_SCALAR_TYPES && n < |AllScalarTypes| && AllScalarTypes[n] == s
  {
    match s
    case Void => 0
    case Bool => 1
    case Char => 2
    case SignedChar => 3
    case UnsignedChar => 4
    case SignedShort => 5
    case UnsignedShort => 6
    case SignedInt => 7
    case UnsignedInt => 8
    case SignedLong => 9
    case UnsignedLong => 10
    case SignedLongLong => 11
    case UnsignedLongLong => 12
  }

  datatype UnOp = UPlus | Neg | LogicalNot | BitNot

  const AllUnOps: seq<UnOp> := [UPlus, Neg, LogicalNot, BitNot]

  const NUM_UN_OPS: nat := 4

  function UnOpValue(op: UnOp): (n: nat)
    ensures n < NUM_UN_OPS && n < |AllUnOps| && AllUnOps[n] == op
  {
    match op
    case UPlus => 0
    case Neg => 1
    case LogicalNot => 2
    case BitNot => 3
  }

  datatype BinOp =
    | Plus | Minus | Mult | Div | Mod
    | LogicalAnd | LogicalOr
    | BitAnd | BitOr | BitXor | Shl | Shr
    | Eq | Ne | Lt | Le | Gt | Ge

  const AllBinOps: seq<BinOp> :=
    [Plus, Minus, Mult, Div, Mod, LogicalAnd, LogicalOr, BitAnd, BitOr, BitXor,
     Shl, Shr, Eq, Ne, Lt, Le, Gt, Ge]

  const NUM_BIN_OPS: nat := 18

  function BinOpValue(op: BinOp): (n: nat)
    ensures n < NUM_BIN_OPS && n < |AllBinOps| && AllBinOps[n] == op
  {
    match op
    case Plus => 0
    case Minus => 1
    case Mult => 2
    case Div => 3
    case Mod => 4
    case LogicalAnd => 5
    case LogicalOr => 6
    case BitAnd => 7
    case BitOr => 8
    case BitXor => 9
    case Shl => 10
    case Shr => 11
    case Eq => 12
    case Ne => 13
    case Lt => 14
    case Le => 15
    case Gt => 16
    case Ge => 17
  }

  /** Every enumerator has exactly one underlying value, and the counts are exact. */
  lemma EnumValuesAreExact()
    ensures |AllScalarTypes| == NUM_SCALAR_TYPES && |AllUnOps| == NUM_UN_OPS && |AllBinOps| == NUM_BIN_OPS
    ensures forall n :: 0 <= n < NUM_SCALAR_TYPES ==> ScalarTypeValue(AllScalarTypes[n]) == n
    ensures forall n :: 0 <= n < NUM_UN_OPS ==> UnOpValue(AllUnOps[n]) == n
    ensures forall n :: 0 <= n < NUM_BIN_OPS ==> BinOpValue(AllBinOps[n]) == n
  {
  }

  // ---------------------------------------------------------------------------
  // Types
  // ---------------------------------------------------------------------------

  /**
   * `QualifiableType = variant<ScalarType, TaggedType, PointerType>`. A pointer
   * always wraps a `QualifiedType`, never a reference.
   */
  datatype QualifiableType =
    | Scalar(scalar: ScalarType)
    | Tagged(name: string)
    | Pointer(pointee: QualifiedType)

  datatype QualifiedType = QualifiedType(ty: QualifiableType, cv: CvQualifiers)

  /** `Type = variant<QualifiedType, ReferenceType>`: a reference is only ever outermost. */
  datatype Type =
    | Qualified(qualified: QualifiedType)
    | Reference(referee: QualifiedType)

  /** `QualifiedType(type)` with the defaulted qualifier argument. */
  function Unqualified(t: QualifiableType): (q: QualifiedType)
    ensures q.ty == t && q.cv == CvNone
    ensures forall i :: 0 <= i < 8 ==> !HasBit(q.cv, i)
  {
    QualifiedType(t, CvNone)
  }

  /** Number of pointer declarators between a qualified type and its base type. */
  function PointerDepth(q: QualifiedType): nat
  {
    match q.ty
    case Pointer(p) => 1 + PointerDepth(p)
    case _ => 0
  }

  /** The scalar or tagged type at the bottom of a pointer chain. */
  function BaseType(q: QualifiedType): (b: QualifiableType)
    ensures !b.Pointer?
  {
    match q.ty
    case Pointer(p) => BaseType(p)
    case _ => q.ty
  }

  // ---------------------------------------------------------------------------
  // Expressions
  // ---------------------------------------------------------------------------

  const U64_LIMIT: int := 0x1_0000_0000_0000_0000

  type U64 = x: int | 0 <= x < U64_LIMIT

  /** A `double`, kept as its IEEE 754 binary64 bit pattern. */
  datatype Double = Double(bits: bv64)

  predicate IsNaN(d: Double)
  {
    (d.bits >> 52) & 0x7FF == 0x7FF && d.bits & 0xF_FFFF_FFFF_FFFF != 0
  }

  predicate IsZero(d: Double)
  {
    d.bits & 0x7FFF_FFFF_FFFF_FFFF == 0
  }

  /** IEEE equality of doubles, the `==` that `double` values compare with. */
  predicate DoubleEq(a: Double, b: Double)
  {
    !IsNaN(a) && !IsNaN(b) && (a.bits == b.bits || (IsZero(a) && IsZero(b)))
  }

  /** IEEE equality is symmetric, and reflexive on everything but NaN. */
  lemma DoubleEqProperties(a: Double, b: Double)
    ensures DoubleEq(a, b) <==> DoubleEq(b, a)
    ensures DoubleEq(a, a) <==> !IsNaN(a)
  {
  }

  /** The eleven alternatives of `Expr`, each owning its children. */
  datatype Expr =
    | IntegerConstant(value: U64)
    | DoubleConstant(dvalue: Double)
    | VariableExpr(name: string)
    | UnaryExpr(unOp: UnOp, operand: Expr)
    | BinaryExpr(lhs: Expr, binOp: BinOp, rhs: Expr)
    | AddressOf(operand: Expr)
    | MemberOf(operand: Expr, field: string)
    | MemberOfPtr(operand: Expr, field: string)
    | ArrayIndex(operand: Expr, idx: Expr)
    | TernaryExpr(cond: Expr, lhs: Expr, rhs: Expr)
    | ParenthesizedExpr(operand: Expr)

  const NUM_EXPR_KINDS: nat := 11

  /** The index of the alternative in the `Expr` variant, in declaration order. */
  function ExprVariantIndex(e: Expr): (n: nat)
    ensures n < NUM_EXPR_KINDS
    ensures n == NUM_EXPR_KINDS - 1 <==> e.ParenthesizedExpr?
  {
    match e
    case IntegerConstant(_) => 0
    case DoubleConstant(_) => 1
    case VariableExpr(_) => 2
    case UnaryExpr(_, _) => 3
    case BinaryExpr(_, _, _) => 4
    case AddressOf(_) => 5
    case MemberOf(_, _) => 6
    case MemberOfPtr(_, _) => 7
    case ArrayIndex(_, _) => 8
    case TernaryExpr(_, _, _) => 9
    case ParenthesizedExpr(_) => 10
  }

  /** Two expressions are of the same alternative. */
  predicate SameAlternative(a: Expr, b: Expr)
  {
    ExprVariantIndex(a) == ExprVariantIndex(b)
  }

  /** Number of nodes of the tree; every expression is a finite tree. */
  function Size(e: Expr): (n: nat)
    ensures n >= 1
  {
    match e
    case IntegerConstant(_) => 1
    case DoubleConstant(_) => 1
    case VariableExpr(_) => 1
    case UnaryExpr(_, x) => 1 + Size(x)
    case BinaryExpr(l, _, r) => 1 + Size(l) + Size(r)
    case AddressOf(x) => 1 + Size(x)
    case MemberOf(x, _) => 1 + Size(x)
    case MemberOfPtr(x, _) => 1 + Size(x)
    case ArrayIndex(x, i) => 1 + Size(x) + Size(i)
    case TernaryExpr(c, l, r) => 1 + Size(c) + Size(l) + Size(r)
    case ParenthesizedExpr(x) => 1 + Size(x)
  }

  /** Number of `ParenthesizedExpr` nodes in the tree; the innermost node is never one. */
  function ParenCount(e: Expr): (n: nat)
    ensures n < Size(e)
  {
    match e
    case IntegerConstant(_) => 0
    case DoubleConstant(_) => 0
    case VariableExpr(_) => 0
    case UnaryExpr(_, x) => ParenCount(x)
    case BinaryExpr(l, _, r) => ParenCount(l) + ParenCount(r)
    case AddressOf(x) => ParenCount(x)
    case MemberOf(x, _) => ParenCount(x)
    case MemberOfPtr(x, _) => ParenCount(x)
    case ArrayIndex(x, i) => ParenCount(x) + ParenCount(i)
    case TernaryExpr(c, l, r) => ParenCount(c) + ParenCount(l) + ParenCount(r)
    case ParenthesizedExpr(x) => 1 + ParenCount(x)
  }

  /** The doubles held by the tree, in pre-order. */
  function DoublesIn(e: Expr): seq<Double>
  {
    match e
    case IntegerConstant(_) => []
    case DoubleConstant(d) => [d]
    case VariableExpr(_) => []
    case UnaryExpr(_, x) => DoublesIn(x)
    case BinaryExpr(l, _, r) => DoublesIn(l) + DoublesIn(r)
    case AddressOf(x) => DoublesIn(x)
    case MemberOf(x, _) => DoublesIn(x)
    case MemberOfPtr(x, _) => DoublesIn(x)
    case ArrayIndex(x, i) => DoublesIn(x) + DoublesIn(i)
    case TernaryExpr(c, l, r) => DoublesIn(c) + DoublesIn(l) + DoublesIn(r)
    case ParenthesizedExpr(x) => DoublesIn(x)
  }

  predicate HasNaN(e: Expr)
  {
    exists d :: d in DoublesIn(e) && IsNaN(d)
  }

  // ---------------------------------------------------------------------------
  // Precedence (C++ operator-precedence numbering: smaller binds tighter)
  // ---------------------------------------------------------------------------

  const PRIMARY_PRECEDENCE: int := 0
  const POSTFIX_PRECEDENCE: int := 2
  const UNARY_PRECEDENCE: int := 3
  const TERNARY_PRECEDENCE: int := 16

  /** `bin_op_precedence`: the C++ precedence level of each binary operator. */
  function BinOpPrecedence(op: BinOp): (p: int)
    ensures UNARY_PRECEDENCE < p < TERNARY_PRECEDENCE
  {
    match op
    case Mult => 5
    case Div => 5
    case Mod => 5
    case Plus => 6
    case Minus => 6
    case Shl => 7
    case Shr => 7
    case Lt => 9
    case Le => 9
    case Gt => 9
    case Ge => 9
    case Eq => 10
    case Ne => 10
    case BitAnd => 11
    case BitXor => 12
    case BitOr => 13
    case LogicalAnd => 14
    case LogicalOr => 15
  }

  /** `precedence()` of each node class. */
  function Precedence(e: Expr): (p: int)
    ensures PRIMARY_PRECEDENCE <= p <= TERNARY_PRECEDENCE
    ensures p == PRIMARY_PRECEDENCE <==> e.IntegerConstant? || e.DoubleConstant? || e.VariableExpr? || e.ParenthesizedExpr?
    ensures p == POSTFIX_PRECEDENCE <==> e.MemberOf? || e.MemberOfPtr? || e.ArrayIndex?
    ensures p == UNARY_PRECEDENCE <==> e.UnaryExpr? || e.AddressOf?
    ensures p == TERNARY_PRECEDENCE <==> e.TernaryExpr?
  {
    match e
    case IntegerConstant(_) => PRIMARY_PRECEDENCE
    case DoubleConstant(_) => PRIMARY_PRECEDENCE
    case VariableExpr(_) => PRIMARY_PRECEDENCE
    case ParenthesizedExpr(_) => PRIMARY_PRECEDENCE
    case MemberOf(_, _) => POSTFIX_PRECEDENCE
    case MemberOfPtr(_, _) => POSTFIX_PRECEDENCE
    case ArrayIndex(_, _) => POSTFIX_PRECEDENCE
    case UnaryExpr(_, _) => UNARY_PRECEDENCE
    case AddressOf(_) => UNARY_PRECEDENCE
    case BinaryExpr(_, op, _) => BinOpPrecedence(op)
    case TernaryExpr(_, _, _) => TERNARY_PRECEDENCE
  }

  /** Multiplicative operators bind tighter than additive ones, which bind tighter than comparisons. */
  lemma PrecedenceLadder(m: BinOp, a: BinOp, c: BinOp)
    requires m in {Mult, Div, Mod} && a in {Plus, Minus} && c in {Eq, Ne, Lt, Le, Gt, Ge}
    ensures BinOpPrecedence(m) < BinOpPrecedence(a) < BinOpPrecedence(c)
  {
  }
}
