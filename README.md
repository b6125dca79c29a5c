# lldb-eval fuzzer AST, replay generator and tentative parsing, in Dafny

This project models two parts of lldb-eval.

The first is the fuzzer's own expression language (`tools/fuzzer/`):
- cv-qualifier bit sets;
- the scalar, unary-operator and binary-operator enums;
- the closed sum types of C++ types and expressions, and the precedence each expression node reports;
- the text the printer must produce, as the fuzzer's tests assert it;
- the generator's kind enums and its weight table;
- the test's replay generator `FakeGeneratorRng`. It records a pre-order walk of an expression and hands the choices back one `pop_back` at a time;
- the structural comparator `AstComparator` and the `MatchesAst` matcher.

The second is the visible part of the evaluator's parser (`lldb-eval/parser.h`):
- the error-message helpers `TokenKindsJoin` and `TokenDescription`;
- `Expect` and `ExpectOneOf`;
- the `TentativeParsingAction` checkpoint, which saves the current token, marks the token source, and then either commits or rolls back.

Modules:
- `FuzzerAst` (`fuzzer_ast.dfy`) models `tools/fuzzer/ast.h`.
- `AstPrinter` (`ast_printer.dfy`) models the printing contract of the type and expression trees.
- `ExprGen` (`expr_gen.dfy`) models `tools/fuzzer/expr_gen.h`.
- `FuzzerTest` (`fuzzer_test.dfy`) models `tools/fuzzer/fuzzer_test.cc`.
- `LldbParser` (`parser.dfy`) models `lldb-eval/parser.h`.

Representation choices:
- `CvQualifiers` is its underlying byte (`bv8`).
- A `double` is its IEEE 754 binary64 bit pattern, compared by IEEE equality: a NaN is unequal to everything and the two zeros are equal.
- `Weights` keeps its two fixed arrays as Dafny arrays.
- `FakeGeneratorRng` and `AstComparator` are classes whose `seq` fields their methods reassign.
- clang's preprocessor is a `TokenSource`: a fixed token sequence, a read position, and a stack of backtrack marks.

## Model

| member | source | states |
|---|---|---|
| FuzzerAst.CvOr | tools/fuzzer/ast.h:47-49 | bit i of `a \| b` is set iff it is set in `a` or in `b` |
| FuzzerAst.CvAnd | tools/fuzzer/ast.h:51-53 | bit i of `a & b` is set iff it is set in both `a` and `b` |
| FuzzerAst.BitsDetermineValue | tools/fuzzer/ast.h:39-45 | two qualifier bytes that agree on all eight bits are equal |
| FuzzerAst.CvNoneIdentityAndZero | tools/fuzzer/ast.h:39-53 | `None` is the identity of `\|` and the zero of `&`, on both sides |
| FuzzerAst.ConstVolatileDistinctBits | tools/fuzzer/ast.h:39-45 | `Const` is bit 0 only and `Volatile` is bit 1 only; `(Const\|Volatile)&Const == Const`, the same for `Volatile`, and `Const&Volatile == None` |
| FuzzerAst.CvCell.OrAssign | tools/fuzzer/ast.h:60-63 | `lhs \|= rhs` overwrites `lhs` with `lhs \| rhs` and returns the new value |
| FuzzerAst.CvCell.AndAssign | tools/fuzzer/ast.h:55-58 | `lhs &= rhs` overwrites `lhs` with `lhs & rhs` and returns the new value |
| FuzzerAst.ScalarTypeValue | tools/fuzzer/ast.h:66-85 | a scalar type's underlying value is below 13 and is its position in declaration order |
| FuzzerAst.UnOpValue | tools/fuzzer/ast.h:154-164 | a unary operator's underlying value is below 4 and is its position in declaration order |
| FuzzerAst.BinOpValue | tools/fuzzer/ast.h:166-194 | a binary operator's underlying value is below 18 and is its position in declaration order |
| FuzzerAst.EnumValuesAreExact | tools/fuzzer/ast.h:66-194 | there are exactly 13 scalar types, 4 unary and 18 binary operators, and value n belongs to the n-th enumerator |
| FuzzerAst.Unqualified | tools/fuzzer/ast.h:102-103 | a `QualifiedType` built without qualifiers wraps the given type and has no qualifier bit set |
| FuzzerAst.BaseType | tools/fuzzer/ast.h:115-139 | a chain of pointers always ends in a scalar or tagged type, never in a pointer |
| FuzzerAst.ExprVariantIndex | tools/fuzzer/ast.h:196-200 | an expression's alternative index is below `NUM_EXPR_KINDS` (11); it is the last index iff the node is parenthesized |
| FuzzerAst.Size | tools/fuzzer/ast.h:204-219 | the number of nodes of an expression tree, at least one; `ExprKindsArePreOrder` ties it to the number of recorded kinds |
| FuzzerAst.DoubleEqProperties | tools/fuzzer/fuzzer_test.cc:237-241 | double `==` is symmetric and holds between a value and itself iff it is not NaN |
| FuzzerAst.BinOpPrecedence | tools/fuzzer/ast.h:387 | a binary operator's precedence lies strictly between the unary (3) and the ternary (16) level |
| FuzzerAst.Precedence | tools/fuzzer/ast.h:221-368 | constants, variables and parenthesized expressions are 0, member access and indexing are 2, unary and address-of are 3, the ternary is 16, each iff the node is of that class |
| FuzzerAst.PrecedenceLadder | tools/fuzzer/ast.h:387 | multiplicative operators bind tighter than additive ones, which bind tighter than comparisons |
| AstPrinter.DecimalText | tools/fuzzer/ast.h:253-267 | an integer constant prints as a non-empty run of decimal digits with no leading zero and no bracket, `*` or `&` |
| AstPrinter.DecimalRoundTrip | tools/fuzzer/ast.h:253-267 | reading a printed integer constant back gives the printed value |
| AstPrinter.ScalarTypeName | tools/fuzzer/ast.h:86 | a scalar type prints as a non-empty name with no `*` or `&` |
| AstPrinter.ScalarTypeNameInjective | tools/fuzzer/ast.h:86 | distinct scalar types print distinctly |
| AstPrinter.CvText | tools/fuzzer/ast.h:64 | a cv set prints as empty text iff neither `const` nor `volatile` is set; the text has no `*` or `&` |
| AstPrinter.CvTextDeterminesFlags | tools/fuzzer/ast.h:64 | two cv sets with the same text agree on `const` and on `volatile` |
| AstPrinter.QualifiableText | tools/fuzzer/ast.h:34 | a pointer's text ends in `*` and is longer than its pointer depth; the `*`/`&` counts are carried by `QualifiedTextDeclarators`, the exact strings by `TypePrintingExamples` |
| AstPrinter.QualifiedText | tools/fuzzer/ast.h:108 | a qualified type's text is at least as long as its pointer depth; its `*`/`&` counts are carried by `QualifiedTextDeclarators`, its exact strings by `TypePrintingExamples` |
| AstPrinter.TypeText | tools/fuzzer/ast.h:140 | a reference prints ending in `&`; the declarator counts are carried by `TypeTextDeclarators`, the exact strings by `TypePrintingExamples` |
| AstPrinter.QualifiedTextDeclarators | tools/fuzzer/fuzzer_test.cc:462-514 | a printed qualified type has one `*` per pointer declarator and no `&` |
| AstPrinter.TypeTextDeclarators | tools/fuzzer/fuzzer_test.cc:462-514 | a printed type has one `*` per pointer declarator, and one `&` iff it is a reference |
| AstPrinter.TypePrintingExamples | tools/fuzzer/fuzzer_test.cc:462-514 | the six asserted type strings: `int`, `const char**`, `const int* volatile&`, `const TestStruct*`, `const void*` and `void* const` |
| AstPrinter.ExprText | tools/fuzzer/ast.h:202 | the text has at least two characters per parenthesized node; the bracket counts are carried by `ExprTextBrackets`, the asserted strings by the `PrecedenceExample` lemmas |
| AstPrinter.ExprTextBrackets | tools/fuzzer/fuzzer_test.cc:385-435 | for trees whose names hold no brackets, the printed expression has exactly one `(` and one `)` per parenthesized node and exactly one `[` and one `]` per `ArrayIndex` node |
| AstPrinter.PrecedenceExampleMultParen | tools/fuzzer/fuzzer_test.cc:387-398 | `3 * (4 + 5)` is printed for the tree with an explicit parenthesized right operand |
| AstPrinter.PrecedenceExampleMultFirst | tools/fuzzer/fuzzer_test.cc:399-409 | `3 * 4 + 5` is printed for `(3 * 4) + 5` without parentheses |
| AstPrinter.PrecedenceExampleLeftToRight | tools/fuzzer/fuzzer_test.cc:410-420 | `3 - 4 + 5` is printed for `(3 - 4) + 5` without parentheses |
| AstPrinter.PrecedenceExampleMinusParen | tools/fuzzer/fuzzer_test.cc:421-432 | `3 - (4 + 5)` is printed for the tree with an explicit parenthesized right operand |
| ExprGen.ExprKindIndex | tools/fuzzer/expr_gen.h:32-45 | every expression kind indexes `expr_weights_` in bounds (below 10), at its position in declaration order |
| ExprGen.TypeKindIndex | tools/fuzzer/expr_gen.h:47-54 | every type kind indexes `type_weights_` in bounds (below 4), at its position in declaration order |
| ExprGen.KindOf | tools/fuzzer/expr_gen.h:32-44 | the generator kind of a non-parenthesized node has the same index as the node's `Expr` alternative |
| ExprGen.ExprKindsAreExprAlternatives | tools/fuzzer/expr_gen.h:32-45 | there is one fewer generator kind than `NUM_EXPR_KINDS`, every kind is the kind of some expression, and the index of the n-th kind is n |
| ExprGen.ExprKindIndexInjective | tools/fuzzer/expr_gen.h:80 | distinct expression kinds select distinct weight slots |
| ExprGen.TypeKindIndexInjective | tools/fuzzer/expr_gen.h:81 | distinct type kinds select distinct weight slots |
| ExprGen.Weights.constructor | tools/fuzzer/expr_gen.h:56-59 | the table holds 10 expression weights and 4 type weights in two distinct arrays |
| ExprGen.Weights.SetExprWeight | tools/fuzzer/expr_gen.h:80-85 | writing `weights[k]` for an expression kind changes only that slot; the const `operator[]` then reads the new value; the type weights are untouched |
| ExprGen.Weights.SetTypeWeight | tools/fuzzer/expr_gen.h:81-88 | writing `weights[k]` for a type kind changes only that slot; the const `operator[]` then reads the new value; the expression weights are untouched |
| ExprGen.Weights.ExprWeight | tools/fuzzer/expr_gen.h:83-85 | the const `operator[]` for an expression kind: it reads the kind's own slot, so by `ExprKindIndexInjective` and `SetExprWeight` a write to another kind leaves it unchanged |
| ExprGen.Weights.TypeWeight | tools/fuzzer/expr_gen.h:86-88 | the const `operator[]` for a type kind: it reads the kind's own slot, so by `TypeKindIndexInjective` and `SetTypeWeight` a write to another kind leaves it unchanged |
| FuzzerTest.ReverseLength | tools/fuzzer/fuzzer_test.cc:88-93 | `std::reverse` keeps the length |
| FuzzerTest.PopReversed | tools/fuzzer/fuzzer_test.cc:88-93 | the back of a reversed buffer is the first recorded element, and popping it leaves the reversal of the rest |
| FuzzerTest.ExprKindsArePreOrder | tools/fuzzer/fuzzer_test.cc:98-153 | the walk records one kind per node that is not parenthesized, and the node's own kind comes before its children's |
| FuzzerTest.QualifiedKindsShape | tools/fuzzer/fuzzer_test.cc:160-183 | a qualified type records one qualifier set per level, one pointer kind per pointer declarator, then exactly one scalar or tagged kind |
| FuzzerTest.ReferenceOnlyOutermost | tools/fuzzer/ast.h:115-139 | the kinds of any type hold a reference kind only first and only for a reference; everything between is a pointer, and the last is scalar or tagged |
| FuzzerTest.FakeGeneratorRng.constructor | tools/fuzzer/fuzzer_test.cc:24 | a new fake has all nine buffers empty |
| FuzzerTest.FakeGeneratorRng.GenBinOp | tools/fuzzer/fuzzer_test.cc:26-32 | needs a non-empty buffer; returns its last element, removes exactly it, and leaves the other buffers alone |
| FuzzerTest.FakeGeneratorRng.GenUnOp | tools/fuzzer/fuzzer_test.cc:34-40 | the same, for unary operators |
| FuzzerTest.FakeGeneratorRng.GenExprKind | tools/fuzzer/fuzzer_test.cc:42-48 | the same, for expression kinds; the weights are ignored |
| FuzzerTest.FakeGeneratorRng.GenTypeKind | tools/fuzzer/fuzzer_test.cc:50-56 | the same, for type kinds; the weights are ignored |
| FuzzerTest.FakeGeneratorRng.GenU64 | tools/fuzzer/fuzzer_test.cc:58-64 | the same, for integer constants; the bounds are ignored |
| FuzzerTest.FakeGeneratorRng.GenDouble | tools/fuzzer/fuzzer_test.cc:66-72 | the same, for double constants; the bounds are ignored |
| FuzzerTest.FakeGeneratorRng.GenCvQualifiers | tools/fuzzer/fuzzer_test.cc:74-80 | the same, for qualifier sets; the probabilities are ignored |
| FuzzerTest.FakeGeneratorRng.GenParenthesize | tools/fuzzer/fuzzer_test.cc:82 | always answers false |
| FuzzerTest.FakeGeneratorRng.VisitExpr | tools/fuzzer/fuzzer_test.cc:98-153 | the walk appends the node's kind, then its operator or constant, then its children's records left to right; a parenthesized node adds nothing of its own; names and fields are not recorded; type buffers are untouched |
| FuzzerTest.FakeGeneratorRng.VisitBinaryExpr | tools/fuzzer/fuzzer_test.cc:104-109 | a binary node appends its kind and operator, then the records of its left and right operands |
| FuzzerTest.FakeGeneratorRng.VisitArrayIndex | tools/fuzzer/fuzzer_test.cc:142-146 | an index node appends its kind, then the records of its base and index |
| FuzzerTest.FakeGeneratorRng.VisitTernaryExpr | tools/fuzzer/fuzzer_test.cc:148-153 | a ternary node appends its kind, then the records of condition, then-branch and else-branch |
| FuzzerTest.FakeGeneratorRng.VisitQualifiedType | tools/fuzzer/fuzzer_test.cc:160-183 | a qualified type appends its qualifiers first, then its declarator kind, and recurses through pointers to the scalar or tag |
| FuzzerTest.FakeGeneratorRng.VisitType | tools/fuzzer/fuzzer_test.cc:170-173 | a reference appends its kind before its referee's records |
| FuzzerTest.FakeGeneratorRng.FromExpr | tools/fuzzer/fuzzer_test.cc:84-96 | the six recorded buffers hold the reversed pre-order records; the type-kind, scalar and tag buffers are not reversed and stay empty |
| FuzzerTest.FakeGeneratorRng.ReverseRecorded | tools/fuzzer/fuzzer_test.cc:88-93 | the unary, binary, integer, double, expression-kind and cv buffers are each reversed in place; the type-kind, scalar and tag buffers keep their order |
| FuzzerTest.DrainExprKinds | tools/fuzzer/fuzzer_test.cc:42-48 | popping a reversed kind buffer until it is empty yields the recorded kinds in order |
| FuzzerTest.DrainBinOps | tools/fuzzer/fuzzer_test.cc:26-32 | popping a reversed operator buffer until it is empty yields the recorded operators in order |
| FuzzerTest.DrainU64s | tools/fuzzer/fuzzer_test.cc:58-64 | popping a reversed constant buffer until it is empty yields the recorded constants in order |
| FuzzerTest.ReplayFromExpr | tools/fuzzer/fuzzer_test.cc:84-109 | after `from_expr(e)`, successive `gen_expr_kind`, `gen_bin_op` and `gen_u64` calls yield `e`'s kinds, operators and constants in pre-order |
| FuzzerTest.NoMismatchesIffEquivalent | tools/fuzzer/fuzzer_test.cc:204-316 | the comparator reports nothing iff the trees are structurally equivalent, with doubles compared by IEEE equality |
| FuzzerTest.SelfEquivalentIffNoNaN | tools/fuzzer/fuzzer_test.cc:237-241 | a tree is equivalent to itself iff it holds no NaN constant |
| FuzzerTest.SelfComparisonIsClean | tools/fuzzer/fuzzer_test.cc:204-316 | comparing a tree with itself reports no mismatch iff it holds no NaN constant |
| FuzzerTest.DifferentAlternativesOneMismatch | tools/fuzzer/fuzzer_test.cc:312-316 | nodes of different alternatives give exactly one mismatch showing both nodes, and their children are not visited |
| FuzzerTest.LabelMismatchSkipsChildren | tools/fuzzer/fuzzer_test.cc:206-267 | an operator or field disagreement gives exactly one mismatch, and the children are not visited |
| FuzzerTest.QualifiedNoMismatchesIffEqual | tools/fuzzer/fuzzer_test.cc:285-310 | two qualified types give no mismatch iff they are equal |
| FuzzerTest.TypeNoMismatchesIffEqual | tools/fuzzer/fuzzer_test.cc:285-316 | two types give no mismatch iff they are equal |
| FuzzerTest.AstComparator.constructor | tools/fuzzer/fuzzer_test.cc:332-333 | a new comparator has no mismatches |
| FuzzerTest.AstComparator.AddMismatch | tools/fuzzer/fuzzer_test.cc:321-330 | appends one mismatch holding both sides |
| FuzzerTest.AstComparator.CompareExprs | tools/fuzzer/fuzzer_test.cc:206-278 | appends exactly the expression mismatches in visiting order, keeping the earlier ones |
| FuzzerTest.AstComparator.CompareQualifiedTypes | tools/fuzzer/fuzzer_test.cc:285-290 | appends the inner type's mismatches before the qualifier mismatch |
| FuzzerTest.AstComparator.CompareQualifiableTypes | tools/fuzzer/fuzzer_test.cc:296-310 | pointers recurse, tags and scalars compare by value, and different alternatives give one mismatch |
| FuzzerTest.AstComparator.CompareTypes | tools/fuzzer/fuzzer_test.cc:292-295 | references compare their referees; a reference against a non-reference gives one mismatch |
| FuzzerTest.MatchesAst | tools/fuzzer/fuzzer_test.cc:336-354 | matches iff the trees are equivalent; a NaN-free tree always matches itself |
| LldbParser.TokenKindsJoin | lldb-eval/parser.h:36-44 | the joined text starts with the first kind's quoted name, starts and ends with a quote, and has length sum of names + 4n - 2 |
| LldbParser.TokenKindsJoinSplit | lldb-eval/parser.h:41-44 | splitting the argument list anywhere gives the same text, joined by `", "` |
| LldbParser.TokenKindsJoinDelimiters | lldb-eval/parser.h:36-44 | with names free of quotes and commas, the text has two quotes per kind and n - 1 commas |
| LldbParser.TokenDescription | lldb-eval/parser.h:133-137 | the description has the form `<'spelling' (kind)>`, and both parts can be cut back out of it |
| LldbParser.ExpectMessagesShape | lldb-eval/parser.h:116-131 | `Expect`'s message starts with `expected 'k'`, `ExpectOneOf`'s with `expected any of ('`, and both end with the token's description |
| LldbParser.TokenSource.constructor | lldb-eval/parser.h:156 | a new token source is at position 0 with no marks |
| LldbParser.TokenSource.Lex | lldb-eval/parser.h:113 | returns the token at the read position and advances; past the end it keeps returning `eof` |
| LldbParser.TokenSource.EnableBacktrackAtThisPos | lldb-eval/parser.h:166 | pushes the current position as the innermost mark |
| LldbParser.TokenSource.CommitBacktrackedTokens | lldb-eval/parser.h:177 | drops the innermost mark and keeps the position |
| LldbParser.TokenSource.Backtrack | lldb-eval/parser.h:181 | returns to the innermost mark and drops it; marks stay ordered and behind the position |
| LldbParser.Parser.constructor | lldb-eval/parser.h:147-150 | a new parser has its first token, no error and no open tentative action |
| LldbParser.Parser.HasError | lldb-eval/parser.h:62 | the parser has an error iff the error text is not empty; used in the contracts of `Expect`, `ExpectOneOf`, `Rollback` and `TryExpectSequence` |
| LldbParser.Parser.BailOut | lldb-eval/parser.h:114 | records the message unless an error is already recorded; the token is unchanged |
| LldbParser.Parser.ConsumeToken | lldb-eval/parser.h:113 | moves to the next token of the source; the error is unchanged |
| LldbParser.Parser.Expect | lldb-eval/parser.h:116-122 | never consumes a token; the parser has an error afterwards iff it had one or the token's kind differs; the first such error is `expected 'k', got: <description>` |
| LldbParser.Parser.ExpectOneOf | lldb-eval/parser.h:124-131 | never consumes a token; the parser has an error afterwards iff it had one or the token's kind is none of the kinds; the first such error is `expected any of (...), got: <description>` |
| LldbParser.TentativeParsingAction.constructor | lldb-eval/parser.h:164-168 | saves the parser's token, marks the current source position, is enabled, and counts one more open action on the parser; the parser's token and error are unchanged |
| LldbParser.TentativeParsingAction.Commit | lldb-eval/parser.h:176-179 | drops the action's mark, disables it and counts one fewer open action; the token, position and error are unchanged |
| LldbParser.TentativeParsingAction.Rollback | lldb-eval/parser.h:180-185 | returns the source to the mark, restores the saved token, clears the error (even one from before the checkpoint), disables the action and counts one fewer open action |
| LldbParser.TentativeParsingAction.Destroy | lldb-eval/parser.h:170-174 | the destructor's assertion as a precondition: the action must be committed or rolled back |
| LldbParser.TryExpectSequence | lldb-eval/parser.h:159-191 | a checkpointed attempt commits iff there was no prior error and each expected kind was met; after a commit the parser is past the matched tokens; after a rollback it is back where it started, with no error; either way the marks and the number of open actions are as before |

The destructor of `TentativeParsingAction` (lldb-eval/parser.h:170-174) is `TentativeParsingAction.Destroy`, which requires the action to be finalised. Dafny has no destructors, so this is checked only where a caller calls `Destroy`; `TryExpectSequence` does so on both paths. To make the scope-exit check stateable for any client, `Parser` carries a ghost count `openActions` of enabled actions: the action's constructor adds one, and `Commit` and `Rollback` each remove one; no other member changes it. A client that ensures `p.openActions == old(p.openActions)`, as `TryExpectSequence` does, and closes only actions it opened has closed every action it opened. The token source's marks alone do not give this, since `CommitBacktrackedTokens` and `Backtrack` can pop an action's mark directly.

Termination of the recursive functions and lemmas over `Expr`, `QualifiedType` and `Type` comes from Dafny's well-founded order on inductive datatypes; `Size` is used only to count nodes.

## Left out

- `CastExpr`: it is visited and compared in `tools/fuzzer/fuzzer_test.cc:155-158` and `280-283`, but it is not an alternative of `Expr` (`tools/fuzzer/ast.h:196-199`), so those overloads are unreachable and are not modelled. As a result no expression walk records type kinds, scalars or tags. The model still shows `from_expr` leaving those three buffers unreversed.
- The `GeneratorRng` interface (`tools/fuzzer/expr_gen.h:91-104`) has no abstract counterpart. Its contract is the one `FakeGeneratorRng`'s `Gen*` methods implement. `DefaultGeneratorRng`, its Mersenne-twister state and the `PROB_*` constants are randomness.
- The `ExprGenerator` bodies are not part of this model, so the round trip `generate(from_expr(e))` back to `e` is not stated. The model proves the half that depends on visible code: replaying `from_expr(e)` hands back `e`'s expression kinds, binary operators and integer constants in pre-order (`ReplayFromExpr`). The replay of unary operators, doubles and cv qualifiers is not stated; `FromExpr` only fixes those buffers' contents.
- `Weights` iterators (`expr_begin`/`type_end`) are not modelled; they only expose the two arrays. Weights are `real`, not 32-bit `float`.
- `DoubleConstant` values are bit patterns compared by IEEE equality. Their decimal printing is a parameter of `ExprText` (stream formatting).
- `AstPrinter.ExprText`: `ast.cc` is not part of this model. The expression and type printers are written to agree with the strings the tests assert (`tools/fuzzer/fuzzer_test.cc:385-435` and `462-514`); everything beyond those strings is an assumption. That includes the printed form of unary expressions, `VariableExpr`, `AddressOf`, `MemberOf`, `MemberOfPtr`, `ArrayIndex` and `TernaryExpr`; the spelling of every binary operator other than `*`, `+` and `-`; the text `const volatile`; the scalar type names other than `int`, `char` and `void`; and the rule that the printer never inserts parentheses itself, so `ExprTextBrackets` holds of this printer, not provably of `ast.cc`'s.
- `FuzzerAst.BinOpPrecedence`: `bin_op_precedence` is only declared (`tools/fuzzer/ast.h:387`). Its values are taken from C++'s operator-precedence table, consistent with the visible levels 2, 3 and 16.
- `FuzzerTest.Mismatch` holds the two values shown rather than their `operator<<` text. The gmock listener output of `MatchesAst` and `PrintToString` are test plumbing and are not modelled.
- `LldbParser.Parser.BailOut` is only declared. It is modelled as "record the message if no error is recorded yet", and the source location is dropped.
- `LldbParser.Parser.ConsumeToken` is only declared. It is modelled as "read the next token from the source".
- `LldbParser.Parser.constructor`: `Parser(ExpressionContext&)` is only declared. The model takes the token source and first token as parameters.
- `LldbParser.TentativeParsingAction.Destroy`: the C++ destructor runs at every scope exit, but Dafny has no destructors, so a caller that never calls `Destroy` is not checked. The guarantee is recovered per client by an ensures that the parser's ghost `openActions` count is unchanged.
- `FuzzerAst.CvCell.OrAssign` and `AndAssign` return the new value rather than a reference to the cell, so chained compound assignments such as `(q |= a) &= b` are not expressible.
- `LldbParser.TentativeParsingAction.Commit` and `Rollback` require the action's mark to be the innermost one, as clang's backtracking stack demands. The header itself does not check this.
- The `Parse*` functions, type-id and numeric-literal parsing, and `Run` are only declared and depend on clang; they are not modelled. `lldb-eval/eval.h`, `lldb-eval/pointer.h` and `lldb-eval/defines.h` are not part of this model either: their bodies and the LLDB values they use are not visible.
