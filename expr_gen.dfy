/**
 * The expression generator's kinds and its weight table: one fixed-size
 * array of weights per kind enum, indexed by the enumerator's value.
 */
module ExprGen {
  import opened FuzzerAst

  /** The alternatives of `Expr` the generator picks from: all but `ParenthesizedExpr`. */
  datatype ExprKind =
    | IntegerConstantKind | DoubleConstantKind | VariableExprKind | UnaryExprKind
    | BinaryExprKind | AddressOfKind | MemberOfKind | MemberOfPtrKind
    | ArrayIndexKind | TernaryExprKind

  const AllExprKinds: seq<ExprKind> :=
    [IntegerConstantKind, DoubleConstantKind, VariableExprKind, UnaryExprKind,
     BinaryExprKind, AddressOfKind, MemberOfKind, MemberOfPtrKind,
     ArrayIndexKind, TernaryExprKind]

  const NUM_GEN_EXPR_KINDS: nat := 10

  /** `(size_t)kind`: the slot of `expr_weights_` the kind selects. */
  function ExprKindIndex(k: ExprKind): (n: nat)
    ensures n < NUM_GEN_EXPR_KINDS && n < |AllExprKinds| && AllExprKinds[n] == k
  {
    match k
    case IntegerConstantKind => 0
    case DoubleConstantKind => 1
    case VariableExprKind => 2
    case UnaryExprKind => 3
    case BinaryExprKind => 4
    case AddressOfKind => 5
    case MemberOfKind => 6
    case MemberOfPtrKind => 7
    case ArrayIndexKind => 8
    case TernaryExprKind => 9
  }

  datatype TypeKind = ScalarTypeKind | TaggedTypeKind | PointerTypeKind | ReferenceTypeKind

  const AllTypeKinds: seq<TypeKind> := [ScalarTypeKind, TaggedTypeKind, PointerTypeKind, ReferenceTypeKind]

  const NUM_GEN_TYPE_KINDS: nat := 4

  /** `(size_t)kind`: the slot of `type_weights_` the kind selects. */
  function TypeKindIndex(k: TypeKind): (n: nat)
    ensures n < NUM_GEN_TYPE_KINDS && n < |AllTypeKinds| && AllTypeKinds[n] == k
  {
    match k
    case ScalarTypeKind => 0
    case TaggedTypeKind => 1
    case PointerTypeKind => 2
    case ReferenceTypeKind => 3
  }

  /** The generator kind of an expression node; a parenthesized expression has none. */
  function KindOf(e: Expr): (k: ExprKind)
    requires !e.ParenthesizedExpr?
    ensures ExprKindIndex(k) == ExprVariantIndex(e)
  {
    match e
    case IntegerConstant(_) => IntegerConstantKind
    case DoubleConstant(_) => DoubleConstantKind
    case VariableExpr(_) => VariableExprKind
    case UnaryExpr(_, _) => UnaryExprKind
    case BinaryExpr(_, _, _) => BinaryExprKind
    case AddressOf(_) => AddressOfKind
    case MemberOf(_, _) => MemberOfKind
    case MemberOfPtr(_, _) => MemberOfPtrKind
    case ArrayIndex(_, _) => ArrayIndexKind
    case TernaryExpr(_, _, _) => TernaryExprKind
  }

  /**
   * `ExprKind` is the `Expr` variant without `ParenthesizedExpr`: every kind
   * is the kind of some expression, the kinds are distinct, and there is one
   * fewer kind than there are alternatives of `Expr`.
   */
  lemma ExprKindsAreExprAlternatives(k: ExprKind)
    ensures NUM_GEN_EXPR_KINDS + 1 == NUM_EXPR_KINDS
    ensures |AllExprKinds| == NUM_GEN_EXPR_KINDS && |AllTypeKinds| == NUM_GEN_TYPE_KINDS
    ensures exists e: Expr :: !e.ParenthesizedExpr? && KindOf(e) == k
    ensures forall n :: 0 <= n < NUM_GEN_EXPR_KINDS ==> ExprKindIndex(AllExprKinds[n]) == n
    ensures forall n :: 0 <= n < NUM_GEN_TYPE_KINDS ==> TypeKindIndex(AllTypeKinds[n]) == n
  {
    var leaf := VariableExpr("x");
    var e := match k
      case IntegerConstantKind => IntegerConstant(0)
      case DoubleConstantKind => DoubleConstant(Double(0))
      case VariableExprKind => leaf
      case UnaryExprKind => UnaryExpr(UPlus, leaf)
      case BinaryExprKind => BinaryExpr(leaf, Plus, leaf)
      case AddressOfKind => AddressOf(leaf)
      case MemberOfKind => MemberOf(leaf, "f")
      case MemberOfPtrKind => MemberOfPtr(leaf, "f")
      case ArrayIndexKind => ArrayIndex(leaf, leaf)
      case TernaryExprKind => TernaryExpr(leaf, leaf, leaf);
    assert KindOf(e) == k;
  }

  /**
   * `Weights`: a weight per expression kind and per type kind. The mutable
   * `operator[]` returns a reference to a slot; writing through it is `SetExprWeight`
   * or `SetTypeWeight`, reading through the const one is `ExprWeight` or `TypeWeight`.
   */
  class Weights {
    const exprWeights: array<real>
    const typeWeights: array<real>

    ghost predicate Valid()
      reads this
    {
      exprWeights.Length == NUM_GEN_EXPR_KINDS && typeWeights.Length == NUM_GEN_TYPE_KINDS
      && exprWeights != typeWeights
    }

    /** Aggregate initialisation of both arrays. */
    constructor (exprs: seq<real>, types: seq<real>)
      requires |exprs| == NUM_GEN_EXPR_KINDS && |types| == NUM_GEN_TYPE_KINDS
      ensures Valid() && fresh(exprWeights) && fresh(typeWeights)
      ensures exprWeights[..] == exprs && typeWeights[..] == types
    {
      exprWeights := new real[NUM_GEN_EXPR_KINDS](i requires 0 <= i < |exprs| => exprs[i]);
      typeWeights := new real[NUM_GEN_TYPE_KINDS](i requires 0 <= i < |types| => types[i]);
    }

    /** `weights[k]` through the const `operator[]`: the kind's slot. */
    function ExprWeight(k: ExprKind): (w: real)
      requires Valid()
      reads this, exprWeights
    {
      exprWeights[ExprKindIndex(k)]
    }

    /** `weights[k]` through the const `operator[]` for a type kind. */
    function TypeWeight(k: TypeKind): (w: real)
      requires Valid()
      reads this, typeWeights
    {
      typeWeights[TypeKindIndex(k)]
    }

    /** `weights[k] = w` for an expression kind. */
    method SetExprWeight(k: ExprKind, w: real)
      requires Valid()
      modifies exprWeights
      ensures Valid()
      ensures ExprWeight(k) == w
      ensures forall j :: j != k ==> ExprWeight(j) == old(ExprWeight(j))
      ensures typeWeights[..] == old(typeWeights[..])
    {
      exprWeights[ExprKindIndex(k)] := w;
      forall j | j != k ensures ExprWeight(j) == old(ExprWeight(j)) {
        ExprKindIndexInjective(j, k);
      }
    }

    /** `weights[k] = w` for a type kind. */
    method SetTypeWeight(k: TypeKind, w: real)
      requires Valid()
      modifies typeWeights
      ensures Valid()
      ensures TypeWeight(k) == w
      ensures forall j :: j != k ==> TypeWeight(j) == old(TypeWeight(j))
      ensures exprWeights[..] == old(exprWeights[..])
    {
      typeWeights[TypeKindIndex(k)] := w;
      forall j | j != k ensures TypeWeight(j) == old(TypeWeight(j)) {
        TypeKindIndexInjective(j, k);
      }
    }
  }

  /** Distinct kinds select distinct slots. */
  lemma ExprKindIndexInjective(a: ExprKind, b: ExprKind)
    ensures ExprKindIndex(a) == ExprKindIndex(b) ==> a == b
  {
  }

  lemma TypeKindIndexInjective(a: TypeKind, b: TypeKind)
    ensures TypeKindIndex(a) == TypeKindIndex(b) ==> a == b
  {
  }
}
