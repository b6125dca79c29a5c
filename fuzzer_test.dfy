/**
 * The fuzzer test's replay generator and structural comparator.
 *
 * `FakeGeneratorRng` records the choices a generator would have to make to
 * rebuild a given expression, reverses the buffers so that each `Gen*` call
 * can serve the next choice from the back, and then answers the generator's
 * requests one `pop_back` at a time. `AstComparator` walks two trees side by
 * side and appends one mismatch per disagreement it meets.
 */
module FuzzerTest {
  import opened FuzzerAst
  import opened ExprGen

  // ---------------------------------------------------------------------------
  // Sequences served from the back
  // ---------------------------------------------------------------------------

  /** `std::reverse`. */
  function Reverse<T>(s: seq<T>): seq<T>
  {
    if s == [] then [] else Reverse(s[1..]) + [s[0]]
  }

  lemma {:induction false} ReverseLength<T>(s: seq<T>)
    ensures |Reverse(s)| == |s|
  {
    if s != [] {
      ReverseLength(s[1..]);
    }
  }

  lemma ConcatAssoc<T>(a: seq<T>, b: seq<T>, c: seq<T>, d: seq<T>)
    ensures a + b + c + d == a + (b + c + d)
  {
  }

  /**
   * The back of a reversed sequence is its first element, and popping it
   * leaves the reversal of the rest: a reversed buffer served by `pop_back`
   * yields the original order.
   */
  lemma PopReversed<T>(s: seq<T>)
    requires s != []
    ensures |Reverse(s)| == |s|
    ensures Reverse(s)[|s| - 1] == s[0]
    ensures Reverse(s)[..|s| - 1] == Reverse(s[1..])
  {
    ReverseLength(s);
    ReverseLength(s[1..]);
  }

  // ---------------------------------------------------------------------------
  // What a pre-order walk records
  // ---------------------------------------------------------------------------

  /** Expression kinds in pre-order; a parenthesized expression records none of its own. */
  function ExprKindsOf(e: Expr): seq<ExprKind>
  {
    match e
    case IntegerConstant(_) => [IntegerConstantKind]
    case DoubleConstant(_) => [DoubleConstantKind]
    case VariableExpr(_) => [VariableExprKind]
    case UnaryExpr(_, x) => [UnaryExprKind] + ExprKindsOf(x)
    case BinaryExpr(l, _, r) => [BinaryExprKind] + ExprKindsOf(l) + ExprKindsOf(r)
    case AddressOf(x) => [AddressOfKind] + ExprKindsOf(x)
    case MemberOf(x, _) => [MemberOfKind] + ExprKindsOf(x)
    case MemberOfPtr(x, _) => [MemberOfPtrKind] + ExprKindsOf(x)
    case ArrayIndex(x, i) => [ArrayIndexKind] + ExprKindsOf(x) + ExprKindsOf(i)
    case TernaryExpr(c, l, r) => [TernaryExprKind] + ExprKindsOf(c) + ExprKindsOf(l) + ExprKindsOf(r)
    case ParenthesizedExpr(x) => ExprKindsOf(x)
  }

  function UnOpsOf(e: Expr): seq<UnOp>
  {
    match e
    case IntegerConstant(_) => []
    case DoubleConstant(_) => []
    case VariableExpr(_) => []
    case UnaryExpr(op, x) => [op] + UnOpsOf(x)
    case BinaryExpr(l, _, r) => UnOpsOf(l) + UnOpsOf(r)
    case AddressOf(x) => UnOpsOf(x)
    case MemberOf(x, _) => UnOpsOf(x)
    case MemberOfPtr(x, _) => UnOpsOf(x)
    case ArrayIndex(x, i) => UnOpsOf(x) + UnOpsOf(i)
    case TernaryExpr(c, l, r) => UnOpsOf(c) + UnOpsOf(l) + UnOpsOf(r)
    case ParenthesizedExpr(x) => UnOpsOf(x)
  }

  function BinOpsOf(e: Expr): seq<BinOp>
  {
    match e
    case IntegerConstant(_) => []
    case DoubleConstant(_) => []
    case VariableExpr(_) => []
    case UnaryExpr(_, x) => BinOpsOf(x)
    case BinaryExpr(l, op, r) => [op] + BinOpsOf(l) + BinOpsOf(r)
    case AddressOf(x) => BinOpsOf(x)
    case MemberOf(x, _) => BinOpsOf(x)
    case MemberOfPtr(x, _) => BinOpsOf(x)
    case ArrayIndex(x, i) => BinOpsOf(x) + BinOpsOf(i)
    case TernaryExpr(c, l, r) => BinOpsOf(c) + BinOpsOf(l) + BinOpsOf(r)
    case ParenthesizedExpr(x) => BinOpsOf(x)
  }

  function U64sOf(e: Expr): seq<U64>
  {
    match e
    case IntegerConstant(v) => [v]
    case DoubleConstant(_) => []
    case VariableExpr(_) => []
    case UnaryExpr(_, x) => U64sOf(x)
    case BinaryExpr(l, _, r) => U64sOf(l) + U64sOf(r)
    case AddressOf(x) => U64sOf(x)
    case MemberOf(x, _) => U64sOf(x)
    case MemberOfPtr(x, _) => U64sOf(x)
    case ArrayIndex(x, i) => U64sOf(x) + U64sOf(i)
    case TernaryExpr(c, l, r) => U64sOf(c) + U64sOf(l) + U64sOf(r)
    case ParenthesizedExpr(x) => U64sOf(x)
  }

  /** One kind per node that is not parenthesized, the node's own kind first. */
  lemma {:induction false} ExprKindsArePreOrder(e: Expr)
    ensures |ExprKindsOf(e)| == Size(e) - ParenCount(e)
    ensures !e.ParenthesizedExpr? ==> ExprKindsOf(e)[0] == KindOf(e)
  {
    match e
    case IntegerConstant(_) =>
    case DoubleConstant(_) =>
    case VariableExpr(_) =>
    case UnaryExpr(_, x) => ExprKindsArePreOrder(x);
    case BinaryExpr(l, _, r) => ExprKindsArePreOrder(l); ExprKindsArePreOrder(r);
    case AddressOf(x) => ExprKindsArePreOrder(x);
    case MemberOf(x, _) => ExprKindsArePreOrder(x);
    case MemberOfPtr(x, _) => ExprKindsArePreOrder(x);
    case ArrayIndex(x, i) => ExprKindsArePreOrder(x); ExprKindsArePreOrder(i);
    case TernaryExpr(c, l, r) => ExprKindsArePreOrder(c); ExprKindsArePreOrder(l); ExprKindsArePreOrder(r);
    case ParenthesizedExpr(x) => ExprKindsArePreOrder(x);
  }

  /** Type kinds from the outermost declarator to the base type. */
  function QualifiedKindsOf(q: QualifiedType): seq<TypeKind>
  {
    match q.ty
    case Scalar(_) => [ScalarTypeKind]
    case Tagged(_) => [TaggedTypeKind]
    case Pointer(p) => [PointerTypeKind] + QualifiedKindsOf(p)
  }

  /** Qualifiers from the outermost declarator to the base type. */
  function QualifiedCvsOf(q: QualifiedType): seq<CvQualifiers>
  {
    match q.ty
    case Pointer(p) => [q.cv] + QualifiedCvsOf(p)
    case _ => [q.cv]
  }

  function TypeKindsOf(t: Type): seq<TypeKind>
  {
    match t
    case Qualified(q) => QualifiedKindsOf(q)
    case Reference(q) => [ReferenceTypeKind] + QualifiedKindsOf(q)
  }

  /** The qualified type a `Type` names, behind its reference if it has one. */
  function Outermost(t: Type): QualifiedType
  {
    match t
    case Qualified(q) => q
    case Reference(q) => q
  }

  function TypeCvsOf(t: Type): seq<CvQualifiers>
  {
    match t
    case Qualified(q) => QualifiedCvsOf(q)
    case Reference(q) => QualifiedCvsOf(q)
  }

  /** The base type's scalar or tag name, the only one a walk of the type records. */
  function BaseScalarsOf(q: QualifiedType): seq<ScalarType>
  {
    match BaseType(q)
    case Scalar(s) => [s]
    case _ => []
  }

  function BaseTagsOf(q: QualifiedType): seq<string>
  {
    match BaseType(q)
    case Tagged(n) => [n]
    case _ => []
  }

  /** The recorded kinds of a qualified type: pointers, then exactly one base kind. */
  lemma {:induction false} QualifiedKindsShape(q: QualifiedType)
    ensures |QualifiedKindsOf(q)| == PointerDepth(q) + 1 == |QualifiedCvsOf(q)|
    ensures forall i :: 0 <= i < PointerDepth(q) ==> QualifiedKindsOf(q)[i] == PointerTypeKind
    ensures QualifiedKindsOf(q)[PointerDepth(q)] == (if BaseType(q).Scalar? then ScalarTypeKind else TaggedTypeKind)
    ensures QualifiedCvsOf(q)[0] == q.cv
  {
    match q.ty
    case Scalar(_) =>
    case Tagged(_) =>
    case Pointer(p) =>
      QualifiedKindsShape(p);
  }

  /**
   * Types are well formed by construction: a reference can only be the
   * outermost declarator, so there is no pointer to a reference and no
   * reference to a reference.
   */
  lemma ReferenceOnlyOutermost(t: Type)
    ensures forall i :: 0 <= i < |TypeKindsOf(t)| && TypeKindsOf(t)[i] == ReferenceTypeKind ==> i == 0 && t.Reference?
    ensures forall i :: 0 < i < |TypeKindsOf(t)| - 1 ==> TypeKindsOf(t)[i] == PointerTypeKind
    ensures TypeKindsOf(t)[|TypeKindsOf(t)| - 1] in {ScalarTypeKind, TaggedTypeKind}
  {
    match t
    case Qualified(q) => QualifiedKindsShape(q);
    case Reference(q) => QualifiedKindsShape(q);
  }

  // ---------------------------------------------------------------------------
  // The replay generator
  // ---------------------------------------------------------------------------

  /** The nine buffers of a `FakeGeneratorRng`. */
  datatype Buffers = Buffers(
    unOps: seq<UnOp>,
    binOps: seq<BinOp>,
    u64Constants: seq<U64>,
    doubleConstants: seq<Double>,
    exprKinds: seq<ExprKind>,
    typeKinds: seq<TypeKind>,
    cvQualifiers: seq<CvQualifiers>,
    scalarTypes: seq<ScalarType>,
    taggedTypes: seq<string>)

  const EmptyBuffers := Buffers([], [], [], [], [], [], [], [], [])

  class FakeGeneratorRng {
    var unOps: seq<UnOp>
    var binOps: seq<BinOp>
    var u64Constants: seq<U64>
    var doubleConstants: seq<Double>
    var exprKinds: seq<ExprKind>
    var typeKinds: seq<TypeKind>
    var cvQualifiers: seq<CvQualifiers>
    var scalarTypes: seq<ScalarType>
    var taggedTypes: seq<string>

    function State(): Buffers
      reads this
    {
      Buffers(unOps, binOps, u64Constants, doubleConstants, exprKinds, typeKinds, cvQualifiers, scalarTypes, taggedTypes)
    }

    constructor ()
      ensures State() == EmptyBuffers
    {
      unOps, binOps, u64Constants, doubleConstants, exprKinds := [], [], [], [], [];
      typeKinds, cvQualifiers, scalarTypes, taggedTypes := [], [], [], [];
    }

    method GenBinOp() returns (op: BinOp)
      requires binOps != []
      modifies this
      ensures op == old(binOps[|binOps| - 1])
      ensures State() == old(State().(binOps := binOps[..|binOps| - 1]))
    {
      op := binOps[|binOps| - 1];
      binOps := binOps[..|binOps| - 1];
    }

    method GenUnOp() returns (op: UnOp)
      requires unOps != []
      modifies this
      ensures op == old(unOps[|unOps| - 1])
      ensures State() == old(State().(unOps := unOps[..|unOps| - 1]))
    {
      op := unOps[|unOps| - 1];
      unOps := unOps[..|unOps| - 1];
    }

    /** The weights are ignored: the next recorded kind is served. */
    method GenExprKind(weights: Weights) returns (kind: ExprKind)
      requires exprKinds != []
      modifies this
      ensures kind == old(exprKinds[|exprKinds| - 1])
      ensures State() == old(State().(exprKinds := exprKinds[..|exprKinds| - 1]))
    {
      kind := exprKinds[|exprKinds| - 1];
      exprKinds := exprKinds[..|exprKinds| - 1];
    }

    method GenTypeKind(weights: Weights) returns (kind: TypeKind)
      requires typeKinds != []
      modifies this
      ensures kind == old(typeKinds[|typeKinds| - 1])
      ensures State() == old(State().(typeKinds := typeKinds[..|typeKinds| - 1]))
    {
      kind := typeKinds[|typeKinds| - 1];
      typeKinds := typeKinds[..|typeKinds| - 1];
    }

    /** The bounds are ignored: the next recorded constant is served. */
    method GenU64(min: U64, max: U64) returns (constant: U64)
      requires u64Constants != []
      modifies this
      ensures constant == old(u64Constants[|u64Constants| - 1])
      ensures State() == old(State().(u64Constants := u64Constants[..|u64Constants| - 1]))
    {
      constant := u64Constants[|u64Constants| - 1];
      u64Constants := u64Constants[..|u64Constants| - 1];
    }

    method GenDouble(min: Double, max: Double) returns (constant: Double)
      requires doubleConstants != []
      modifies this
      ensures constant == old(doubleConstants[|doubleConstants| - 1])
      ensures State() == old(State().(doubleConstants := doubleConstants[..|doubleConstants| - 1]))
    {
      constant := doubleConstants[|doubleConstants| - 1];
      doubleConstants := doubleConstants[..|doubleConstants| - 1];
    }

    /** The probabilities are ignored: the next recorded qualifier set is served. */
    method GenCvQualifiers(constProb: real, volatileProb: real) returns (cv: CvQualifiers)
      requires cvQualifiers != []
      modifies this
      ensures cv == old(cvQualifiers[|cvQualifiers| - 1])
      ensures State() == old(State().(cvQualifiers := cvQualifiers[..|cvQualifiers| - 1]))
    {
      cv := cvQualifiers[|cvQualifiers| - 1];
      cvQualifiers := cvQualifiers[..|cvQualifiers| - 1];
    }

    /** Never asks for parentheses: the recorded tree already holds them. */
    method GenParenthesize(probability: real) returns (b: bool)
      ensures !b
    {
      b := false;
    }

    /** What a walk of `e` appends: its pre-order records, and nothing to the type buffers. */
    twostate predicate Recorded(e: Expr)
      reads this
    {
      && unOps == old(unOps) + UnOpsOf(e)
      && binOps == old(binOps) + BinOpsOf(e)
      && u64Constants == old(u64Constants) + U64sOf(e)
      && doubleConstants == old(doubleConstants) + DoublesIn(e)
      && exprKinds == old(exprKinds) + ExprKindsOf(e)
      && typeKinds == old(typeKinds) && cvQualifiers == old(cvQualifiers)
      && scalarTypes == old(scalarTypes) && taggedTypes == old(taggedTypes)
    }

    /** The visitor over expressions: records the node's kind, then its op or constant, then its children left to right. */
    method VisitExpr(e: Expr)
      modifies this
      ensures Recorded(e)
      decreases e, 1
    {
      match e
      case UnaryExpr(op, x) =>
        exprKinds := exprKinds + [UnaryExprKind];
        unOps := unOps + [op];
        VisitExpr(x);
      case BinaryExpr(_, _, _) =>
        VisitBinaryExpr(e);
      case VariableExpr(_) =>
        exprKinds := exprKinds + [VariableExprKind];
      case IntegerConstant(v) =>
        exprKinds := exprKinds + [IntegerConstantKind];
        u64Constants := u64Constants + [v];
      case DoubleConstant(d) =>
        exprKinds := exprKinds + [DoubleConstantKind];
        doubleConstants := doubleConstants + [d];
      case ParenthesizedExpr(x) =>
        VisitExpr(x);
      case AddressOf(x) =>
        exprKinds := exprKinds + [AddressOfKind];
        VisitExpr(x);
      case MemberOf(x, _) =>
        exprKinds := exprKinds + [MemberOfKind];
        VisitExpr(x);
      case MemberOfPtr(x, _) =>
        exprKinds := exprKinds + [MemberOfPtrKind];
        VisitExpr(x);
      case ArrayIndex(_, _) =>
        VisitArrayIndex(e);
      case TernaryExpr(_, _, _) =>
        VisitTernaryExpr(e);
    }

    method VisitBinaryExpr(e: Expr)
      requires e.BinaryExpr?
      modifies this
      ensures Recorded(e)
      decreases e, 0
    {
      exprKinds := exprKinds + [BinaryExprKind];
      binOps := binOps + [e.binOp];
      VisitExpr(e.lhs);
      VisitExpr(e.rhs);
    }

    method VisitArrayIndex(e: Expr)
      requires e.ArrayIndex?
      modifies this
      ensures Recorded(e)
      decreases e, 0
    {
      exprKinds := exprKinds + [ArrayIndexKind];
      VisitExpr(e.operand);
      VisitExpr(e.idx);
    }

    method VisitTernaryExpr(e: Expr)
      requires e.TernaryExpr?
      modifies this
      ensures Recorded(e)
      decreases e, 0
    {
      exprKinds := exprKinds + [TernaryExprKind];
      VisitExpr(e.cond);
      VisitExpr(e.lhs);
      VisitExpr(e.rhs);
      ConcatAssoc(old(unOps), UnOpsOf(e.cond), UnOpsOf(e.lhs), UnOpsOf(e.rhs));
      ConcatAssoc(old(binOps), BinOpsOf(e.cond), BinOpsOf(e.lhs), BinOpsOf(e.rhs));
      ConcatAssoc(old(u64Constants), U64sOf(e.cond), U64sOf(e.lhs), U64sOf(e.rhs));
      ConcatAssoc(old(doubleConstants), DoublesIn(e.cond), DoublesIn(e.lhs), DoublesIn(e.rhs));
      ConcatAssoc(old(exprKinds) + [TernaryExprKind], ExprKindsOf(e.cond), ExprKindsOf(e.lhs), ExprKindsOf(e.rhs));
    }

    /** The visitor over qualified types: the qualifiers first, then the declarator or base type. */
    method VisitQualifiedType(q: QualifiedType)
      modifies this
      ensures typeKinds == old(typeKinds) + QualifiedKindsOf(q)
      ensures cvQualifiers == old(cvQualifiers) + QualifiedCvsOf(q)
      ensures scalarTypes == old(scalarTypes) + BaseScalarsOf(q)
      ensures taggedTypes == old(taggedTypes) + BaseTagsOf(q)
      ensures unOps == old(unOps) && binOps == old(binOps) && u64Constants == old(u64Constants)
      ensures doubleConstants == old(doubleConstants) && exprKinds == old(exprKinds)
      decreases q
    {
      cvQualifiers := cvQualifiers + [q.cv];
      match q.ty
      case Pointer(p) =>
        typeKinds := typeKinds + [PointerTypeKind];
        VisitQualifiedType(p);
      case Tagged(n) =>
        typeKinds := typeKinds + [TaggedTypeKind];
        taggedTypes := taggedTypes + [n];
      case Scalar(s) =>
        typeKinds := typeKinds + [ScalarTypeKind];
        scalarTypes := scalarTypes + [s];
    }

    /** The visitor over `Type`: a reference records its kind before its referee. */
    method VisitType(t: Type)
      modifies this
      ensures typeKinds == old(typeKinds) + TypeKindsOf(t)
      ensures cvQualifiers == old(cvQualifiers) + TypeCvsOf(t)
      ensures scalarTypes == old(scalarTypes) + BaseScalarsOf(Outermost(t))
      ensures taggedTypes == old(taggedTypes) + BaseTagsOf(Outermost(t))
      ensures unOps == old(unOps) && binOps == old(binOps) && u64Constants == old(u64Constants)
      ensures doubleConstants == old(doubleConstants) && exprKinds == old(exprKinds)
    {
      match t
      case Qualified(q) =>
        VisitQualifiedType(q);
      case Reference(q) =>
        typeKinds := typeKinds + [ReferenceTypeKind];
        VisitQualifiedType(q);
    }

    /**
     * `from_expr`: walk the expression, then reverse the operator, constant,
     * expression-kind and qualifier buffers so that `pop_back` serves them in
     * walk order. The type-kind, scalar and tag buffers are not reversed; a
     * walk of an expression leaves them empty.
     */
    static method FromExpr(e: Expr) returns (rng: FakeGeneratorRng)
      ensures fresh(rng)
      ensures rng.unOps == Reverse(UnOpsOf(e)) && rng.binOps == Reverse(BinOpsOf(e))
      ensures rng.u64Constants == Reverse(U64sOf(e)) && rng.doubleConstants == Reverse(DoublesIn(e))
      ensures rng.exprKinds == Reverse(ExprKindsOf(e))
      ensures rng.typeKinds == [] && rng.cvQualifiers == [] && rng.scalarTypes == [] && rng.taggedTypes == []
    {
      rng := new FakeGeneratorRng();
      rng.VisitExpr(e);
      assert rng.unOps == UnOpsOf(e) && rng.binOps == BinOpsOf(e) && rng.u64Constants == U64sOf(e);
      assert rng.doubleConstants == DoublesIn(e) && rng.exprKinds == ExprKindsOf(e) && rng.cvQualifiers == [];
      rng.ReverseRecorded();
    }

    /**
     * The reversal step of `from_expr`: six buffers are reversed in place;
     * the type-kind, scalar and tag buffers are left in recording order.
     */
    method ReverseRecorded()
      modifies this
      ensures unOps == Reverse(old(unOps)) && binOps == Reverse(old(binOps))
      ensures u64Constants == Reverse(old(u64Constants)) && doubleConstants == Reverse(old(doubleConstants))
      ensures exprKinds == Reverse(old(exprKinds)) && cvQualifiers == Reverse(old(cvQualifiers))
      ensures typeKinds == old(typeKinds) && scalarTypes == old(scalarTypes) && taggedTypes == old(taggedTypes)
    {
      unOps := Reverse(unOps);
      binOps := Reverse(binOps);
      u64Constants := Reverse(u64Constants);
      doubleConstants := Reverse(doubleConstants);
      exprKinds := Reverse(exprKinds);
      cvQualifiers := Reverse(cvQualifiers);
    }
  }

  /** Asks for expression kinds until the buffer is exhausted; a reversed buffer yields its sequence in order. */
  method DrainExprKinds(rng: FakeGeneratorRng, weights: Weights, ghost all: seq<ExprKind>) returns (kinds: seq<ExprKind>)
    requires rng.exprKinds == Reverse(all)
    modifies rng
    ensures kinds == all
    ensures rng.State() == old(rng.State().(exprKinds := []))
  {
    ghost var before := rng.State();
    ReverseLength(all);
    kinds := [];
    while rng.exprKinds != []
      invariant |kinds| <= |all| && kinds == all[..|kinds|]
      invariant rng.exprKinds == Reverse(all[|kinds|..])
      invariant rng.State() == before.(exprKinds := rng.exprKinds)
      decreases |all| - |kinds|
    {
      ReverseLength(all[|kinds|..]);
      PopReversed(all[|kinds|..]);
      var k := rng.GenExprKind(weights);
      assert all[|kinds|..][1..] == all[|kinds| + 1..];
      kinds := kinds + [k];
    }
    ReverseLength(all[|kinds|..]);
  }

  method DrainBinOps(rng: FakeGeneratorRng, ghost all: seq<BinOp>) returns (ops: seq<BinOp>)
    requires rng.binOps == Reverse(all)
    modifies rng
    ensures ops == all
    ensures rng.State() == old(rng.State().(binOps := []))
  {
    ghost var before := rng.State();
    ReverseLength(all);
    ops := [];
    while rng.binOps != []
      invariant |ops| <= |all| && ops == all[..|ops|]
      invariant rng.binOps == Reverse(all[|ops|..])
      invariant rng.State() == before.(binOps := rng.binOps)
      decreases |all| - |ops|
    {
      ReverseLength(all[|ops|..]);
      PopReversed(all[|ops|..]);
      var op := rng.GenBinOp();
      assert all[|ops|..][1..] == all[|ops| + 1..];
      ops := ops + [op];
    }
    ReverseLength(all[|ops|..]);
  }

  method DrainU64s(rng: FakeGeneratorRng, ghost all: seq<U64>) returns (constants: seq<U64>)
    requires rng.u64Constants == Reverse(all)
    modifies rng
    ensures constants == all
    ensures rng.State() == old(rng.State().(u64Constants := []))
  {
    ghost var before := rng.State();
    ReverseLength(all);
    constants := [];
    while rng.u64Constants != []
      invariant |constants| <= |all| && constants == all[..|constants|]
      invariant rng.u64Constants == Reverse(all[|constants|..])
      invariant rng.State() == before.(u64Constants := rng.u64Constants)
      decreases |all| - |constants|
    {
      ReverseLength(all[|constants|..]);
      PopReversed(all[|constants|..]);
      var c := rng.GenU64(0, U64_LIMIT - 1);
      assert all[|constants|..][1..] == all[|constants| + 1..];
      constants := constants + [c];
    }
    ReverseLength(all[|constants|..]);
  }

  /**
   * A generator replaying `FromExpr(e)` receives the expression kinds, the
   * binary operators and the integer constants of `e` in pre-order, one per
   * `Gen*` call, until each buffer is exhausted.
   */
  method ReplayFromExpr(e: Expr) returns (kinds: seq<ExprKind>, ops: seq<BinOp>, constants: seq<U64>)
    ensures kinds == ExprKindsOf(e)
    ensures ops == BinOpsOf(e)
    ensures constants == U64sOf(e)
  {
    var rng := FakeGeneratorRng.FromExpr(e);
    var weights := new Weights([0.0, 0.0, 0.0, 0.0, 0.0, 0.0, 0.0, 0.0, 0.0, 0.0], [0.0, 0.0, 0.0, 0.0]);
    kinds := DrainExprKinds(rng, weights, ExprKindsOf(e));
    ops := DrainBinOps(rng, BinOpsOf(e));
    constants := DrainU64s(rng, U64sOf(e));
  }

  // ---------------------------------------------------------------------------
  // Structural comparison
  // ---------------------------------------------------------------------------

  /** The value a mismatch shows on one side. */
  datatype Shown =
    | ShownExpr(expr: Expr)
    | ShownQualifiable(qualifiable: QualifiableType)
    | ShownType(ty: Type)
    | ShownCv(cv: CvQualifiers)
    | ShownName(name: string)
    | ShownScalar(scalar: ScalarType)

  datatype Mismatch = Mismatch(lhs: Shown, rhs: Shown)

  function NodeMismatch(l: Expr, r: Expr): seq<Mismatch>
  {
    [Mismatch(ShownExpr(l), ShownExpr(r))]
  }

  /** The mismatches the comparator appends for a pair of expressions, in visiting order. */
  function ExprMismatches(l: Expr, r: Expr): seq<Mismatch>
    decreases l
  {
    match l
    case UnaryExpr(op, x) =>
      if !r.UnaryExpr? || r.unOp != op then NodeMismatch(l, r) else ExprMismatches(x, r.operand)
    case BinaryExpr(a, op, b) =>
      if !r.BinaryExpr? || r.binOp != op then NodeMismatch(l, r)
      else ExprMismatches(a, r.lhs) + ExprMismatches(b, r.rhs)
    case VariableExpr(n) =>
      if !r.VariableExpr? || r.name != n then NodeMismatch(l, r) else []
    case IntegerConstant(v) =>
      if !r.IntegerConstant? || r.value != v then NodeMismatch(l, r) else []
    case DoubleConstant(d) =>
      if !r.DoubleConstant? || !DoubleEq(d, r.dvalue) then NodeMismatch(l, r) else []
    case ParenthesizedExpr(x) =>
      if !r.ParenthesizedExpr? then NodeMismatch(l, r) else ExprMismatches(x, r.operand)
    case AddressOf(x) =>
      if !r.AddressOf? then NodeMismatch(l, r) else ExprMismatches(x, r.operand)
    case MemberOf(x, f) =>
      if !r.MemberOf? || r.field != f then NodeMismatch(l, r) else ExprMismatches(x, r.operand)
    case MemberOfPtr(x, f) =>
      if !r.MemberOfPtr? || r.field != f then NodeMismatch(l, r) else ExprMismatches(x, r.operand)
    case ArrayIndex(x, i) =>
      if !r.ArrayIndex? then NodeMismatch(l, r)
      else ExprMismatches(x, r.operand) + ExprMismatches(i, r.idx)
    case TernaryExpr(c, a, b) =>
      if !r.TernaryExpr? then NodeMismatch(l, r)
      else ExprMismatches(c, r.cond) + ExprMismatches(a, r.lhs) + ExprMismatches(b, r.rhs)
  }

  /**
   * Structural equivalence: same alternatives, operators, names, fields and
   * constants everywhere, with doubles compared by IEEE equality.
   */
  predicate Equivalent(a: Expr, b: Expr)
    decreases a
  {
    match a
    case IntegerConstant(v) => b.IntegerConstant? && b.value == v
    case DoubleConstant(d) => b.DoubleConstant? && DoubleEq(d, b.dvalue)
    case VariableExpr(n) => b.VariableExpr? && b.name == n
    case UnaryExpr(op, x) => b.UnaryExpr? && b.unOp == op && Equivalent(x, b.operand)
    case BinaryExpr(l, op, r) => b.BinaryExpr? && b.binOp == op && Equivalent(l, b.lhs) && Equivalent(r, b.rhs)
    case AddressOf(x) => b.AddressOf? && Equivalent(x, b.operand)
    case MemberOf(x, f) => b.MemberOf? && b.field == f && Equivalent(x, b.operand)
    case MemberOfPtr(x, f) => b.MemberOfPtr? && b.field == f && Equivalent(x, b.operand)
    case ArrayIndex(x, i) => b.ArrayIndex? && Equivalent(x, b.operand) && Equivalent(i, b.idx)
    case TernaryExpr(c, l, r) =>
      b.TernaryExpr? && Equivalent(c, b.cond) && Equivalent(l, b.lhs) && Equivalent(r, b.rhs)
    case ParenthesizedExpr(x) => b.ParenthesizedExpr? && Equivalent(x, b.operand)
  }

  /** The comparator finds no mismatch exactly when the trees are equivalent. */
  lemma {:induction false} NoMismatchesIffEquivalent(l: Expr, r: Expr)
    ensures ExprMismatches(l, r) == [] <==> Equivalent(l, r)
    decreases l
  {
    match l
    case IntegerConstant(_) =>
    case DoubleConstant(_) =>
    case VariableExpr(_) =>
    case UnaryExpr(_, x) =>
      if r.UnaryExpr? { NoMismatchesIffEquivalent(x, r.operand); }
    case BinaryExpr(a, _, b) =>
      if r.BinaryExpr? { NoMismatchesIffEquivalent(a, r.lhs); NoMismatchesIffEquivalent(b, r.rhs); }
    case AddressOf(x) =>
      if r.AddressOf? { NoMismatchesIffEquivalent(x, r.operand); }
    case MemberOf(x, _) =>
      if r.MemberOf? { NoMismatchesIffEquivalent(x, r.operand); }
    case MemberOfPtr(x, _) =>
      if r.MemberOfPtr? { NoMismatchesIffEquivalent(x, r.operand); }
    case ArrayIndex(x, i) =>
      if r.ArrayIndex? { NoMismatchesIffEquivalent(x, r.operand); NoMismatchesIffEquivalent(i, r.idx); }
    case TernaryExpr(c, a, b) =>
      if r.TernaryExpr? {
        NoMismatchesIffEquivalent(c, r.cond);
        NoMismatchesIffEquivalent(a, r.lhs);
        NoMismatchesIffEquivalent(b, r.rhs);
      }
    case ParenthesizedExpr(x) =>
      if r.ParenthesizedExpr? { NoMismatchesIffEquivalent(x, r.operand); }
  }

  /** A tree is equivalent to itself exactly when it holds no NaN constant. */
  lemma {:induction false} SelfEquivalentIffNoNaN(e: Expr)
    ensures Equivalent(e, e) <==> !HasNaN(e)
  {
    match e
    case IntegerConstant(_) =>
    case DoubleConstant(d) =>
      DoubleEqProperties(d, d);
    case VariableExpr(_) =>
    case UnaryExpr(_, x) =>
      SelfEquivalentIffNoNaN(x);
    case BinaryExpr(a, _, b) =>
      SelfEquivalentIffNoNaN(a); SelfEquivalentIffNoNaN(b);
    case AddressOf(x) =>
      SelfEquivalentIffNoNaN(x);
    case MemberOf(x, _) =>
      SelfEquivalentIffNoNaN(x);
    case MemberOfPtr(x, _) =>
      SelfEquivalentIffNoNaN(x);
    case ArrayIndex(x, i) =>
      SelfEquivalentIffNoNaN(x); SelfEquivalentIffNoNaN(i);
    case TernaryExpr(c, a, b) =>
      SelfEquivalentIffNoNaN(c); SelfEquivalentIffNoNaN(a); SelfEquivalentIffNoNaN(b);
    case ParenthesizedExpr(x) =>
      SelfEquivalentIffNoNaN(x);
  }

  /** Comparing a tree with itself reports nothing unless it holds a NaN constant. */
  lemma SelfComparisonIsClean(e: Expr)
    ensures ExprMismatches(e, e) == [] <==> !HasNaN(e)
  {
    NoMismatchesIffEquivalent(e, e);
    SelfEquivalentIffNoNaN(e);
  }

  /** Nodes of different alternatives give exactly one mismatch, and their children are not visited. */
  lemma DifferentAlternativesOneMismatch(l: Expr, r: Expr)
    requires !SameAlternative(l, r)
    ensures ExprMismatches(l, r) == [Mismatch(ShownExpr(l), ShownExpr(r))]
  {
  }

  /** An operator or field disagreement gives exactly one mismatch, and the children are not visited. */
  lemma LabelMismatchSkipsChildren(l: Expr, r: Expr)
    requires SameAlternative(l, r)
    requires (l.UnaryExpr? && l.unOp != r.unOp) || (l.BinaryExpr? && l.binOp != r.binOp)
          || ((l.MemberOf? || l.MemberOfPtr?) && l.field != r.field)
    ensures ExprMismatches(l, r) == [Mismatch(ShownExpr(l), ShownExpr(r))]
  {
  }

  /** The mismatches a pair of types adds: the inner type first, then the qualifiers. */
  function QualifiedMismatches(l: QualifiedType, r: QualifiedType): seq<Mismatch>
    decreases l, 1
  {
    QualifiableMismatches(l.ty, r.ty)
      + (if l.cv != r.cv then [Mismatch(ShownCv(l.cv), ShownCv(r.cv))] else [])
  }

  function QualifiableMismatches(l: QualifiableType, r: QualifiableType): seq<Mismatch>
    decreases l, 0
  {
    match l
    case Scalar(a) =>
      if !r.Scalar? then [Mismatch(ShownQualifiable(l), ShownQualifiable(r))]
      else if a != r.scalar then [Mismatch(ShownScalar(a), ShownScalar(r.scalar))] else []
    case Tagged(a) =>
      if !r.Tagged? then [Mismatch(ShownQualifiable(l), ShownQualifiable(r))]
      else if a != r.name then [Mismatch(ShownName(a), ShownName(r.name))] else []
    case Pointer(p) =>
      if !r.Pointer? then [Mismatch(ShownQualifiable(l), ShownQualifiable(r))]
      else QualifiedMismatches(p, r.pointee)
  }

  function TypeMismatches(l: Type, r: Type): seq<Mismatch>
  {
    match l
    case Qualified(a) =>
      if r.Qualified? then QualifiedMismatches(a, r.qualified) else [Mismatch(ShownType(l), ShownType(r))]
    case Reference(a) =>
      if r.Reference? then QualifiedMismatches(a, r.referee) else [Mismatch(ShownType(l), ShownType(r))]
  }

  /** Types hold no doubles, so the comparator finds no mismatch exactly when they are equal. */
  lemma {:induction false} QualifiedNoMismatchesIffEqual(l: QualifiedType, r: QualifiedType)
    ensures QualifiedMismatches(l, r) == [] <==> l == r
    decreases l
  {
    match l.ty
    case Scalar(_) =>
    case Tagged(_) =>
    case Pointer(p) =>
      if r.ty.Pointer? {
        QualifiedNoMismatchesIffEqual(p, r.ty.pointee);
      }
  }

  lemma TypeNoMismatchesIffEqual(l: Type, r: Type)
    ensures TypeMismatches(l, r) == [] <==> l == r
  {
    match l
    case Qualified(a) =>
      if r.Qualified? { QualifiedNoMismatchesIffEqual(a, r.qualified); }
    case Reference(a) =>
      if r.Reference? { QualifiedNoMismatchesIffEqual(a, r.referee); }
  }

  /** `AstComparator`: a visitor over pairs of nodes that appends to `mismatches`. */
  class AstComparator {
    var mismatches: seq<Mismatch>

    constructor ()
      ensures mismatches == []
    {
      mismatches := [];
    }

    method AddMismatch(lhs: Shown, rhs: Shown)
      modifies this
      ensures mismatches == old(mismatches) + [Mismatch(lhs, rhs)]
    {
      mismatches := mismatches + [Mismatch(lhs, rhs)];
    }

    method CompareExprs(l: Expr, r: Expr)
      modifies this
      ensures mismatches == old(mismatches) + ExprMismatches(l, r)
      decreases l
    {
      if !SameAlternative(l, r) {
        AddMismatch(ShownExpr(l), ShownExpr(r));
        return;
      }
      match l
      case UnaryExpr(op, x) =>
        if op != r.unOp {
          AddMismatch(ShownExpr(l), ShownExpr(r));
          return;
        }
        CompareExprs(x, r.operand);
      case BinaryExpr(a, op, b) =>
        if op != r.binOp {
          AddMismatch(ShownExpr(l), ShownExpr(r));
          return;
        }
        CompareExprs(a, r.lhs);
        CompareExprs(b, r.rhs);
      case VariableExpr(n) =>
        if n != r.name {
          AddMismatch(ShownExpr(l), ShownExpr(r));
        }
      case IntegerConstant(v) =>
        if v != r.value {
          AddMismatch(ShownExpr(l), ShownExpr(r));
        }
      case DoubleConstant(d) =>
        if !DoubleEq(d, r.dvalue) {
          AddMismatch(ShownExpr(l), ShownExpr(r));
        }
      case ParenthesizedExpr(x) =>
        CompareExprs(x, r.operand);
      case AddressOf(x) =>
        CompareExprs(x, r.operand);
      case MemberOf(x, f) =>
        if f != r.field {
          AddMismatch(ShownExpr(l), ShownExpr(r));
          return;
        }
        CompareExprs(x, r.operand);
      case MemberOfPtr(x, f) =>
        if f != r.field {
          AddMismatch(ShownExpr(l), ShownExpr(r));
          return;
        }
        CompareExprs(x, r.operand);
      case ArrayIndex(x, i) =>
        CompareExprs(x, r.operand);
        CompareExprs(i, r.idx);
      case TernaryExpr(c, a, b) =>
        CompareExprs(c, r.cond);
        CompareExprs(a, r.lhs);
        CompareExprs(b, r.rhs);
    }

    /** Compares the inner types before the qualifiers. */
    method CompareQualifiedTypes(l: QualifiedType, r: QualifiedType)
      modifies this
      ensures mismatches == old(mismatches) + QualifiedMismatches(l, r)
      decreases l, 1
    {
      CompareQualifiableTypes(l.ty, r.ty);
      if l.cv != r.cv {
        AddMismatch(ShownCv(l.cv), ShownCv(r.cv));
      }
    }

    method CompareQualifiableTypes(l: QualifiableType, r: QualifiableType)
      modifies this
      ensures mismatches == old(mismatches) + QualifiableMismatches(l, r)
      decreases l, 0
    {
      match l
      case Scalar(a) =>
        if !r.Scalar? {
          AddMismatch(ShownQualifiable(l), ShownQualifiable(r));
        } else if a != r.scalar {
          AddMismatch(ShownScalar(a), ShownScalar(r.scalar));
        }
      case Tagged(a) =>
        if !r.Tagged? {
          AddMismatch(ShownQualifiable(l), ShownQualifiable(r));
        } else if a != r.name {
          AddMismatch(ShownName(a), ShownName(r.name));
        }
      case Pointer(p) =>
        if !r.Pointer? {
          AddMismatch(ShownQualifiable(l), ShownQualifiable(r));
        } else {
          CompareQualifiedTypes(p, r.pointee);
        }
    }

    method CompareTypes(l: Type, r: Type)
      modifies this
      ensures mismatches == old(mismatches) + TypeMismatches(l, r)
    {
      if l.Qualified? && r.Qualified? {
        CompareQualifiedTypes(l.qualified, r.qualified);
      } else if l.Reference? && r.Reference? {
        CompareQualifiedTypes(l.referee, r.referee);
      } else {
        AddMismatch(ShownType(l), ShownType(r));
      }
    }
  }

  /** The `MatchesAst` matcher: a fresh comparator over the pair, matching when it found nothing. */
  method MatchesAst(expected: Expr, actual: Expr) returns (matches: bool)
    ensures matches <==> Equivalent(expected, actual)
    ensures !HasNaN(expected) ==> (matches <== expected == actual)
  {
    var cmp := new AstComparator();
    cmp.CompareExprs(expected, actual);
    matches := cmp.mismatches == [];
    NoMismatchesIffEquivalent(expected, actual);
    SelfComparisonIsClean(expected);
  }
}
