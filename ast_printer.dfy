/**
 * Text of types and expressions, as `operator<<` prints them. Double values
 * are rendered by a caller-supplied function: their decimal formatting
 * belongs to the output stream, not to the tree.
 */
module AstPrinter {
  import opened FuzzerAst

  /** Number of occurrences of `c` in `s`. */
  function Occurrences(c: char, s: string): nat
  {
    if s == [] then 0 else (if s[0] == c then 1 else 0) + Occurrences(c, s[1..])
  }

  lemma {:induction false} OccurrencesConcat(c: char, a: string, b: string)
    ensures Occurrences(c, a + b) == Occurrences(c, a) + Occurrences(c, b)
  {
    if a == [] {
      assert a + b == b;
    } else {
      assert (a + b)[1..] == a[1..] + b;
      OccurrencesConcat(c, a[1..], b);
    }
  }

  /** A string none of whose characters is in `cs`. */
  predicate Avoids(s: string, cs: set<char>)
  {
    forall i :: 0 <= i < |s| ==> s[i] !in cs
  }

  lemma {:induction false} AvoidsHasNoOccurrence(s: string, cs: set<char>, c: char)
    requires Avoids(s, cs) && c in cs
    ensures Occurrences(c, s) == 0
  {
    if s != [] {
      AvoidsHasNoOccurrence(s[1..], cs, c);
    }
  }

  // ---------------------------------------------------------------------------
  // Integers
  // ---------------------------------------------------------------------------

  function Digit(d: nat): char
    requires d < 10
  {
    ('0' as int + d) as char
  }

  function DigitValue(c: char): nat
  {
    if '0' <= c <= '9' then (c as int - '0' as int) as nat else 0
  }

  /** Decimal text of an unsigned integer, as a stream prints `uint64_t`. */
  function DecimalText(n: nat): (s: string)
    ensures |s| >= 1
    ensures Avoids(s, {'(', ')', '[', ']', '*', '&'})
    ensures forall i :: 0 <= i < |s| ==> '0' <= s[i] <= '9'
    ensures s[0] == '0' ==> n == 0
  {
    if n < 10 then [Digit(n)] else DecimalText(n / 10) + [Digit(n % 10)]
  }

  /** The number a string of decimal digits denotes. */
  function DecimalValue(s: string): nat
  {
    if s == [] then 0 else 10 * DecimalValue(s[..|s| - 1]) + DigitValue(s[|s| - 1])
  }

  /** Reading the printed digits back gives the number that was printed. */
  lemma {:induction false} DecimalRoundTrip(n: nat)
    ensures DecimalValue(DecimalText(n)) == n
  {
    var s := DecimalText(n);
    if n < 10 {
      assert s[..|s| - 1] == [];
    } else {
      DecimalRoundTrip(n / 10);
      assert s[..|s| - 1] == DecimalText(n / 10);
      assert DigitValue(s[|s| - 1]) == n % 10;
    }
  }

  // ---------------------------------------------------------------------------
  // Types
  // ---------------------------------------------------------------------------

  /** Spelling of a scalar type: a non-empty name with no declarator character. */
  function ScalarTypeName(s: ScalarType): (name: string)
    ensures name != [] && Avoids(name, {'*', '&'})
  {
    match s
    case Void => "void"
    case Bool => "bool"
    case Char => "char"
    case SignedChar => "signed char"
    case UnsignedChar => "unsigned char"
    case SignedShort => "short"
    case UnsignedShort => "unsigned short"
    case SignedInt => "int"
    case UnsignedInt => "unsigned int"
    case SignedLong => "long"
    case UnsignedLong => "unsigned long"
    case SignedLongLong => "long long"
    case UnsignedLongLong => "unsigned long long"
  }

  /** Text of a cv-qualifier set: the flags that are set, `const` first. */
  function CvText(cv: CvQualifiers): (text: string)
    ensures text == [] <==> !HasBit(cv, 0) && !HasBit(cv, 1)
    ensures Avoids(text, {'*', '&'})
  {
    if HasBit(cv, 0) && HasBit(cv, 1) then "const volatile"
    else if HasBit(cv, 0) then "const"
    else if HasBit(cv, 1) then "volatile"
    else ""
  }

  /** Base types carry their qualifier in front: `const int`. */
  function CvPrefix(cv: CvQualifiers): string
  {
    if CvText(cv) == "" then "" else CvText(cv) + " "
  }

  /** Pointers carry their qualifier after the star: `int* const`. */
  function CvSuffix(cv: CvQualifiers): string
  {
    if CvText(cv) == "" then "" else " " + CvText(cv)
  }

  /**
   * Text of a qualified type: the qualifier goes in front of a scalar or
   * tagged type and after the star of a pointer.
   */
  function QualifiedText(q: QualifiedType): (text: string)
    ensures |text| >= PointerDepth(q)
    decreases q, 1
  {
    match q.ty
    case Pointer(_) => QualifiableText(q.ty) + CvSuffix(q.cv)
    case _ => CvPrefix(q.cv) + QualifiableText(q.ty)
  }

  /** Text of a `QualifiableType` on its own: a pointer is its pointee's text and a star. */
  function QualifiableText(t: QualifiableType): (text: string)
    ensures t.Pointer? ==> |text| > PointerDepth(t.pointee) && text[|text| - 1] == '*'
    decreases t, 0
  {
    match t
    case Scalar(s) => ScalarTypeName(s)
    case Tagged(n) => n
    case Pointer(p) => QualifiedText(p) + "*"
  }

  /** Text of a type: a reference is its referee's text and an ampersand. */
  function TypeText(t: Type): (text: string)
    ensures t.Reference? ==> |text| > 0 && text[|text| - 1] == '&'
  {
    match t
    case Qualified(q) => QualifiedText(q)
    case Reference(q) => QualifiedText(q) + "&"
  }

  /** Distinct scalar types print distinctly. */
  lemma ScalarTypeNameInjective(a: ScalarType, b: ScalarType)
    ensures ScalarTypeName(a) == ScalarTypeName(b) ==> a == b
  {
  }

  /** The text of a cv set determines its `const` and `volatile` flags. */
  lemma CvTextDeterminesFlags(a: CvQualifiers, b: CvQualifiers)
    ensures CvText(a) == CvText(b) ==> HasBit(a, 0) == HasBit(b, 0) && HasBit(a, 1) == HasBit(b, 1)
  {
  }

  /** The tagged name at the bottom of the type, if any, is free of declarator characters. */
  predicate PlainBase(q: QualifiedType)
  {
    match BaseType(q)
    case Tagged(n) => Avoids(n, {'*', '&'})
    case _ => true
  }

  lemma FixedTextsArePlain(s: ScalarType, cv: CvQualifiers)
    ensures Avoids(ScalarTypeName(s), {'*', '&'})
    ensures Avoids(CvPrefix(cv), {'*', '&'}) && Avoids(CvSuffix(cv), {'*', '&'})
  {
  }

  /**
   * Each pointer declarator prints exactly one `*`, and nothing in a
   * qualified type prints `&`.
   */
  lemma {:induction false} QualifiedTextDeclarators(q: QualifiedType)
    requires PlainBase(q)
    ensures Occurrences('*', QualifiedText(q)) == PointerDepth(q)
    ensures Occurrences('&', QualifiedText(q)) == 0
  {
    match q.ty
    case Scalar(s) =>
      FixedTextsArePlain(s, q.cv);
      AvoidsHasNoOccurrence(CvPrefix(q.cv), {'*', '&'}, '*');
      AvoidsHasNoOccurrence(CvPrefix(q.cv), {'*', '&'}, '&');
      AvoidsHasNoOccurrence(ScalarTypeName(s), {'*', '&'}, '*');
      AvoidsHasNoOccurrence(ScalarTypeName(s), {'*', '&'}, '&');
      OccurrencesConcat('*', CvPrefix(q.cv), ScalarTypeName(s));
      OccurrencesConcat('&', CvPrefix(q.cv), ScalarTypeName(s));
    case Tagged(n) =>
      FixedTextsArePlain(Void, q.cv);
      AvoidsHasNoOccurrence(CvPrefix(q.cv), {'*', '&'}, '*');
      AvoidsHasNoOccurrence(CvPrefix(q.cv), {'*', '&'}, '&');
      AvoidsHasNoOccurrence(n, {'*', '&'}, '*');
      AvoidsHasNoOccurrence(n, {'*', '&'}, '&');
      OccurrencesConcat('*', CvPrefix(q.cv), n);
      OccurrencesConcat('&', CvPrefix(q.cv), n);
    case Pointer(p) =>
      QualifiedTextDeclarators(p);
      FixedTextsArePlain(Void, q.cv);
      AvoidsHasNoOccurrence(CvSuffix(q.cv), {'*', '&'}, '*');
      AvoidsHasNoOccurrence(CvSuffix(q.cv), {'*', '&'}, '&');
      OccurrencesConcat('*', QualifiedText(p), "*");
      OccurrencesConcat('&', QualifiedText(p), "*");
      OccurrencesConcat('*', QualifiedText(p) + "*", CvSuffix(q.cv));
      OccurrencesConcat('&', QualifiedText(p) + "*", CvSuffix(q.cv));
  }

  /** A printed type has one `*` per pointer and an `&` exactly when it is a reference. */
  lemma TypeTextDeclarators(t: Type)
    requires PlainBase(if t.Qualified? then t.qualified else t.referee)
    ensures t.Qualified? ==> Occurrences('*', TypeText(t)) == PointerDepth(t.qualified)
    ensures t.Reference? ==> Occurrences('*', TypeText(t)) == PointerDepth(t.referee)
    ensures Occurrences('&', TypeText(t)) == if t.Reference? then 1 else 0
  {
    match t
    case Qualified(q) =>
      QualifiedTextDeclarators(q);
    case Reference(q) =>
      QualifiedTextDeclarators(q);
      OccurrencesConcat('*', QualifiedText(q), "&");
      OccurrencesConcat('&', QualifiedText(q), "&");
  }

  lemma CvTexts()
    ensures CvPrefix(CvNone) == "" && CvSuffix(CvNone) == ""
    ensures CvPrefix(CvConst) == "const " && CvSuffix(CvConst) == " const"
    ensures CvPrefix(CvVolatile) == "volatile " && CvSuffix(CvVolatile) == " volatile"
  {
    assert CvText(CvNone) == "";
    assert CvText(CvConst) == "const";
    assert CvText(CvVolatile) == "volatile";
  }

  /** The type-printing cases the fuzzer's tests assert: base qualifiers in front, pointer qualifiers after `*`. */
  lemma TypePrintingExamples()
    ensures TypeText(Qualified(Unqualified(Scalar(SignedInt)))) == "int"
    ensures TypeText(Qualified(Unqualified(Pointer(Unqualified(Pointer(QualifiedType(Scalar(Char), CvConst)))))))
            == "const char**"
    ensures TypeText(Reference(QualifiedType(Pointer(QualifiedType(Scalar(SignedInt), CvConst)), CvVolatile)))
            == "const int* volatile&"
    ensures TypeText(Qualified(Unqualified(Pointer(QualifiedType(Tagged("TestStruct"), CvConst)))))
            == "const TestStruct*"
    ensures TypeText(Qualified(Unqualified(Pointer(QualifiedType(Scalar(Void), CvConst))))) == "const void*"
    ensures TypeText(Qualified(QualifiedType(Pointer(Unqualified(Scalar(Void))), CvConst))) == "void* const"
  {
    CvTexts();
    PointerExamples();
    QualifiedPointerExamples();
  }

  lemma PointerExamples()
    ensures TypeText(Qualified(Unqualified(Pointer(Unqualified(Pointer(QualifiedType(Scalar(Char), CvConst)))))))
            == "const char**"
    ensures TypeText(Qualified(Unqualified(Pointer(QualifiedType(Tagged("TestStruct"), CvConst)))))
            == "const TestStruct*"
    ensures TypeText(Qualified(Unqualified(Pointer(QualifiedType(Scalar(Void), CvConst))))) == "const void*"
  {
    CvTexts();
    var constChar := QualifiedType(Scalar(Char), CvConst);
    assert QualifiedText(constChar) == "const char";
    assert QualifiedText(Unqualified(Pointer(constChar))) == "const char*";
    assert QualifiedText(QualifiedType(Tagged("TestStruct"), CvConst)) == "const TestStruct";
    assert QualifiedText(QualifiedType(Scalar(Void), CvConst)) == "const void";
  }

  lemma QualifiedPointerExamples()
    ensures TypeText(Reference(QualifiedType(Pointer(QualifiedType(Scalar(SignedInt), CvConst)), CvVolatile)))
            == "const int* volatile&"
    ensures TypeText(Qualified(QualifiedType(Pointer(Unqualified(Scalar(Void))), CvConst))) == "void* const"
  {
    VolatilePointerExample();
    ConstPointerExample();
  }

  lemma VolatilePointerExample()
    ensures TypeText(Reference(QualifiedType(Pointer(QualifiedType(Scalar(SignedInt), CvConst)), CvVolatile)))
            == "const int* volatile&"
  {
    CvTexts();
    var constInt := QualifiedType(Scalar(SignedInt), CvConst);
    assert QualifiedText(constInt) == "const int";
    assert QualifiableText(Pointer(constInt)) == "const int*";
    assert QualifiedText(QualifiedType(Pointer(constInt), CvVolatile)) == "const int* volatile";
  }

  lemma ConstPointerExample()
    ensures TypeText(Qualified(QualifiedType(Pointer(Unqualified(Scalar(Void))), CvConst))) == "void* const"
  {
    CvTexts();
    VoidPointerText();
  }

  lemma VoidPointerText()
    ensures QualifiableText(Pointer(Unqualified(Scalar(Void)))) == "void*"
  {
    CvTexts();
    assert QualifiedText(Unqualified(Scalar(Void))) == CvPrefix(CvNone) + ScalarTypeName(Void);
  }

  // ---------------------------------------------------------------------------
  // Expressions
  // ---------------------------------------------------------------------------

  function UnOpText(op: UnOp): string
  {
    match op
    case UPlus => "+"
    case Neg => "-"
    case LogicalNot => "!"
    case BitNot => "~"
  }

  function BinOpText(op: BinOp): string
  {
    match op
    case Plus => "+"
    case Minus => "-"
    case Mult => "*"
    case Div => "/"
    case Mod => "%"
    case LogicalAnd => "&&"
    case LogicalOr => "||"
    case BitAnd => "&"
    case BitOr => "|"
    case BitXor => "^"
    case Shl => "<<"
    case Shr => ">>"
    case Eq => "=="
    case Ne => "!="
    case Lt => "<"
    case Le => "<="
    case Gt => ">"
    case Ge => ">="
  }

  /**
   * Text of an expression. The printer adds no parentheses of its own: a
   * grouping shows only where the tree holds a `ParenthesizedExpr`.
   */
  function ExprText(e: Expr, doubleText: Double -> string): (text: string)
    ensures |text| >= 2 * ParenCount(e)
  {
    match e
    case IntegerConstant(v) => DecimalText(v)
    case DoubleConstant(d) => doubleText(d)
    case VariableExpr(n) => n
    case UnaryExpr(op, x) => UnOpText(op) + ExprText(x, doubleText)
    case BinaryExpr(l, op, r) => ExprText(l, doubleText) + " " + BinOpText(op) + " " + ExprText(r, doubleText)
    case AddressOf(x) => "&" + ExprText(x, doubleText)
    case MemberOf(x, f) => ExprText(x, doubleText) + "." + f
    case MemberOfPtr(x, f) => ExprText(x, doubleText) + "->" + f
    case ArrayIndex(x, i) => ExprText(x, doubleText) + "[" + ExprText(i, doubleText) + "]"
    case TernaryExpr(c, l, r) =>
      ExprText(c, doubleText) + " ? " + ExprText(l, doubleText) + " : " + ExprText(r, doubleText)
    case ParenthesizedExpr(x) => "(" + ExprText(x, doubleText) + ")"
  }

  const Brackets: set<char> := {'(', ')', '[', ']'}

  /** Every name and field in the tree is free of brackets. */
  predicate PlainNames(e: Expr)
  {
    match e
    case IntegerConstant(_) => true
    case DoubleConstant(_) => true
    case VariableExpr(n) => Avoids(n, Brackets)
    case UnaryExpr(_, x) => PlainNames(x)
    case BinaryExpr(l, _, r) => PlainNames(l) && PlainNames(r)
    case AddressOf(x) => PlainNames(x)
    case MemberOf(x, f) => PlainNames(x) && Avoids(f, Brackets)
    case MemberOfPtr(x, f) => PlainNames(x) && Avoids(f, Brackets)
    case ArrayIndex(x, i) => PlainNames(x) && PlainNames(i)
    case TernaryExpr(c, l, r) => PlainNames(c) && PlainNames(l) && PlainNames(r)
    case ParenthesizedExpr(x) => PlainNames(x)
  }

  /** Number of `ArrayIndex` nodes in the tree. */
  function IndexCount(e: Expr): (n: nat)
    ensures n < Size(e)
  {
    match e
    case IntegerConstant(_) => 0
    case DoubleConstant(_) => 0
    case VariableExpr(_) => 0
    case UnaryExpr(_, x) => IndexCount(x)
    case BinaryExpr(l, _, r) => IndexCount(l) + IndexCount(r)
    case AddressOf(x) => IndexCount(x)
    case MemberOf(x, _) => IndexCount(x)
    case MemberOfPtr(x, _) => IndexCount(x)
    case ArrayIndex(x, i) => 1 + IndexCount(x) + IndexCount(i)
    case TernaryExpr(c, l, r) => IndexCount(c) + IndexCount(l) + IndexCount(r)
    case ParenthesizedExpr(x) => IndexCount(x)
  }

  lemma FixedExprTextsArePlain(u: UnOp, b: BinOp)
    ensures Avoids(UnOpText(u), Brackets) && Avoids(BinOpText(b), Brackets)
    ensures Avoids(" ", Brackets) && Avoids("&", Brackets) && Avoids(".", Brackets) && Avoids("->", Brackets)
    ensures Avoids(" ? ", Brackets) && Avoids(" : ", Brackets)
  {
  }

  /** Occurrences of the four bracket characters. */
  function BracketCounts(s: string): (int, int, int, int)
  {
    (Occurrences('(', s), Occurrences(')', s), Occurrences('[', s), Occurrences(']', s))
  }

  lemma BracketCountsConcat(a: string, b: string)
    ensures BracketCounts(a + b).0 == BracketCounts(a).0 + BracketCounts(b).0
    ensures BracketCounts(a + b).1 == BracketCounts(a).1 + BracketCounts(b).1
    ensures BracketCounts(a + b).2 == BracketCounts(a).2 + BracketCounts(b).2
    ensures BracketCounts(a + b).3 == BracketCounts(a).3 + BracketCounts(b).3
  {
    OccurrencesConcat('(', a, b);
    OccurrencesConcat(')', a, b);
    OccurrencesConcat('[', a, b);
    OccurrencesConcat(']', a, b);
  }

  lemma PlainHasNoBrackets(s: string)
    requires Avoids(s, Brackets)
    ensures BracketCounts(s) == (0, 0, 0, 0)
  {
    AvoidsHasNoOccurrence(s, Brackets, '(');
    AvoidsHasNoOccurrence(s, Brackets, ')');
    AvoidsHasNoOccurrence(s, Brackets, '[');
    AvoidsHasNoOccurrence(s, Brackets, ']');
  }

  /**
   * The printed text holds one `(` and one `)` per `ParenthesizedExpr` and
   * one `[` and one `]` per `ArrayIndex`: the printer never adds a grouping itself.
   */
  lemma {:induction false} ExprTextBrackets(e: Expr, doubleText: Double -> string)
    requires PlainNames(e)
    requires forall d :: Avoids(doubleText(d), Brackets)
    ensures Occurrences('(', ExprText(e, doubleText)) == ParenCount(e)
    ensures Occurrences(')', ExprText(e, doubleText)) == ParenCount(e)
    ensures Occurrences('[', ExprText(e, doubleText)) == IndexCount(e)
    ensures Occurrences(']', ExprText(e, doubleText)) == IndexCount(e)
    decreases e, 1
  {
    FixedExprTextsArePlain(UPlus, Plus);
    match e
    case IntegerConstant(v) =>
      PlainHasNoBrackets(DecimalText(v));
    case DoubleConstant(d) =>
      PlainHasNoBrackets(doubleText(d));
    case VariableExpr(n) =>
      PlainHasNoBrackets(n);
    case UnaryExpr(op, x) =>
      ExprTextBrackets(x, doubleText);
      FixedExprTextsArePlain(op, Plus);
      PlainHasNoBrackets(UnOpText(op));
      BracketCountsConcat(UnOpText(op), ExprText(x, doubleText));
    case BinaryExpr(_, _, _) =>
      BinaryTextBrackets(e, doubleText);
    case AddressOf(x) =>
      ExprTextBrackets(x, doubleText);
      PlainHasNoBrackets("&");
      BracketCountsConcat("&", ExprText(x, doubleText));
    case MemberOf(x, f) =>
      ExprTextBrackets(x, doubleText);
      PlainHasNoBrackets(".");
      PlainHasNoBrackets(f);
      BracketCountsConcat(ExprText(x, doubleText), ".");
      BracketCountsConcat(ExprText(x, doubleText) + ".", f);
    case MemberOfPtr(x, f) =>
      ExprTextBrackets(x, doubleText);
      PlainHasNoBrackets("->");
      PlainHasNoBrackets(f);
      BracketCountsConcat(ExprText(x, doubleText), "->");
      BracketCountsConcat(ExprText(x, doubleText) + "->", f);
    case ArrayIndex(_, _) =>
      IndexTextBrackets(e, doubleText);
    case TernaryExpr(_, _, _) =>
      TernaryTextBrackets(e, doubleText);
    case ParenthesizedExpr(x) =>
      ExprTextBrackets(x, doubleText);
      var tx := ExprText(x, doubleText);
      BracketCountsConcat("(", tx);
      BracketCountsConcat("(" + tx, ")");
  }

  lemma {:induction false} BinaryTextBrackets(e: Expr, doubleText: Double -> string)
    requires e.BinaryExpr? && PlainNames(e)
    requires forall d :: Avoids(doubleText(d), Brackets)
    ensures Occurrences('(', ExprText(e, doubleText)) == ParenCount(e)
    ensures Occurrences(')', ExprText(e, doubleText)) == ParenCount(e)
    ensures Occurrences('[', ExprText(e, doubleText)) == IndexCount(e)
    ensures Occurrences(']', ExprText(e, doubleText)) == IndexCount(e)
    decreases e, 0
  {
    ExprTextBrackets(e.lhs, doubleText);
    ExprTextBrackets(e.rhs, doubleText);
    FixedExprTextsArePlain(UPlus, e.binOp);
    var tl, to, tr := ExprText(e.lhs, doubleText), BinOpText(e.binOp), ExprText(e.rhs, doubleText);
    PlainHasNoBrackets(" ");
    PlainHasNoBrackets(to);
    BracketCountsConcat(tl, " ");
    BracketCountsConcat(tl + " ", to);
    BracketCountsConcat(tl + " " + to, " ");
    BracketCountsConcat(tl + " " + to + " ", tr);
  }

  lemma {:induction false} IndexTextBrackets(e: Expr, doubleText: Double -> string)
    requires e.ArrayIndex? && PlainNames(e)
    requires forall d :: Avoids(doubleText(d), Brackets)
    ensures Occurrences('(', ExprText(e, doubleText)) == ParenCount(e)
    ensures Occurrences(')', ExprText(e, doubleText)) == ParenCount(e)
    ensures Occurrences('[', ExprText(e, doubleText)) == IndexCount(e)
    ensures Occurrences(']', ExprText(e, doubleText)) == IndexCount(e)
    decreases e, 0
  {
    ExprTextBrackets(e.operand, doubleText);
    ExprTextBrackets(e.idx, doubleText);
    var tx, ti := ExprText(e.operand, doubleText), ExprText(e.idx, doubleText);
    BracketCountsConcat(tx, "[");
    BracketCountsConcat(tx + "[", ti);
    BracketCountsConcat(tx + "[" + ti, "]");
  }

  lemma {:induction false} TernaryTextBrackets(e: Expr, doubleText: Double -> string)
    requires e.TernaryExpr? && PlainNames(e)
    requires forall d :: Avoids(doubleText(d), Brackets)
    ensures Occurrences('(', ExprText(e, doubleText)) == ParenCount(e)
    ensures Occurrences(')', ExprText(e, doubleText)) == ParenCount(e)
    ensures Occurrences('[', ExprText(e, doubleText)) == IndexCount(e)
    ensures Occurrences(']', ExprText(e, doubleText)) == IndexCount(e)
    decreases e, 0
  {
    ExprTextBrackets(e.cond, doubleText);
    ExprTextBrackets(e.lhs, doubleText);
    ExprTextBrackets(e.rhs, doubleText);
    FixedExprTextsArePlain(UPlus, Plus);
    var tc, tl, tr := ExprText(e.cond, doubleText), ExprText(e.lhs, doubleText), ExprText(e.rhs, doubleText);
    PlainHasNoBrackets(" ? ");
    PlainHasNoBrackets(" : ");
    BracketCountsConcat(tc, " ? ");
    BracketCountsConcat(tc + " ? ", tl);
    BracketCountsConcat(tc + " ? " + tl, " : ");
    BracketCountsConcat(tc + " ? " + tl + " : ", tr);
  }

  lemma LeafTexts(doubleText: Double -> string)
    ensures ExprText(IntegerConstant(3), doubleText) == "3"
    ensures ExprText(IntegerConstant(4), doubleText) == "4"
    ensures ExprText(IntegerConstant(5), doubleText) == "5"
    ensures ExprText(ParenthesizedExpr(BinaryExpr(IntegerConstant(4), Plus, IntegerConstant(5))), doubleText)
            == "(4 + 5)"
  {
    assert DecimalText(3) == "3" && DecimalText(4) == "4" && DecimalText(5) == "5";
    assert ExprText(BinaryExpr(IntegerConstant(4), Plus, IntegerConstant(5)), doubleText) == "4 + 5";
  }

  /*
   * The operator-precedence cases the fuzzer's tests assert: operators are
   * separated by single spaces and a `ParenthesizedExpr` operand shows its
   * parentheses.
   */

  lemma PrecedenceExampleMultParen(doubleText: Double -> string)
    ensures ExprText(BinaryExpr(IntegerConstant(3), Mult,
                                ParenthesizedExpr(BinaryExpr(IntegerConstant(4), Plus, IntegerConstant(5)))),
                     doubleText) == "3 * (4 + 5)"
  {
    LeafTexts(doubleText);
  }

  lemma PrecedenceExampleMultFirst(doubleText: Double -> string)
    ensures ExprText(BinaryExpr(BinaryExpr(IntegerConstant(3), Mult, IntegerConstant(4)), Plus, IntegerConstant(5)),
                     doubleText) == "3 * 4 + 5"
  {
    LeafTexts(doubleText);
    assert ExprText(BinaryExpr(IntegerConstant(3), Mult, IntegerConstant(4)), doubleText) == "3 * 4";
  }

  lemma PrecedenceExampleLeftToRight(doubleText: Double -> string)
    ensures ExprText(BinaryExpr(BinaryExpr(IntegerConstant(3), Minus, IntegerConstant(4)), Plus, IntegerConstant(5)),
                     doubleText) == "3 - 4 + 5"
  {
    LeafTexts(doubleText);
    assert ExprText(BinaryExpr(IntegerConstant(3), Minus, IntegerConstant(4)), doubleText) == "3 - 4";
  }

  lemma PrecedenceExampleMinusParen(doubleText: Double -> string)
    ensures ExprText(BinaryExpr(IntegerConstant(3), Minus,
                                ParenthesizedExpr(BinaryExpr(IntegerConstant(4), Plus, IntegerConstant(5)))),
                     doubleText) == "3 - (4 + 5)"
  {
    LeafTexts(doubleText);
  }
}
