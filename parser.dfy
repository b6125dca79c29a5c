/**
 * The visible part of lldb-eval's expression parser: the error helpers
 * (`TokenKindsJoin`, `TokenDescription`, `Expect`, `ExpectOneOf`) and the
 * tentative-parsing checkpoint that saves the current token, marks the token
 * source, and later either commits or rolls back.
 *
 * clang's preprocessor is replaced by `TokenSource`: a fixed token sequence
 * with a read position and a stack of backtrack marks.
 */
module LldbParser {
  import opened AstPrinter

  /** A token kind; `name` is what `clang::tok::getTokenName` returns for it. */
  datatype TokenKind = TokenKind(name: string)

  /** A lexed token: its kind, its spelling in the source and its location. */
  datatype Token = Token(kind: TokenKind, spelling: string, location: nat)

  // ---------------------------------------------------------------------------
  // Message helpers
  // ---------------------------------------------------------------------------

  function Quoted(k: TokenKind): string
  {
    "'" + k.name + "'"
  }

  function NamesLength(ks: seq<TokenKind>): nat
  {
    if ks == [] then 0 else |ks[0].name| + NamesLength(ks[1..])
  }

  /**
   * `TokenKindsJoin(k, ks...)`: each kind's name in single quotes, joined by
   * `", "`. The variadic template peels off the first kind and recurses.
   */
  function TokenKindsJoin(ks: seq<TokenKind>): (s: string)
    requires |ks| >= 1
    ensures |s| == NamesLength(ks) + 4 * |ks| - 2
    ensures s[0] == '\'' && s[|s| - 1] == '\''
    ensures s[..|ks[0].name| + 2] == Quoted(ks[0])
    decreases |ks|
  {
    if |ks| == 1 then Quoted(ks[0]) else Quoted(ks[0]) + ", " + TokenKindsJoin(ks[1..])
  }

  /** Splitting the argument list anywhere gives the same text: the join is associative. */
  lemma {:induction false} TokenKindsJoinSplit(a: seq<TokenKind>, b: seq<TokenKind>)
    requires |a| >= 1 && |b| >= 1
    ensures TokenKindsJoin(a + b) == TokenKindsJoin(a) + ", " + TokenKindsJoin(b)
    decreases |a|
  {
    var q := Quoted(a[0]);
    assert (a + b)[0] == a[0];
    if |a| == 1 {
      assert (a + b)[1..] == b;
    } else {
      var rest := a[1..];
      assert (a + b)[1..] == rest + b;
      TokenKindsJoinSplit(rest, b);
      assert TokenKindsJoin(a + b) == q + ", " + TokenKindsJoin(rest + b);
      SeparatedAssoc(q, TokenKindsJoin(rest), TokenKindsJoin(b));
      assert TokenKindsJoin(a) == q + ", " + TokenKindsJoin(rest);
    }
  }

  lemma SeparatedAssoc(x: string, y: string, z: string)
    ensures x + ", " + (y + ", " + z) == (x + ", " + y) + ", " + z
  {
  }

  predicate NamesAvoid(ks: seq<TokenKind>, cs: set<char>)
  {
    forall i :: 0 <= i < |ks| ==> Avoids(ks[i].name, cs)
  }

  /**
   * When no name holds a quote or a comma, the joined text has exactly two
   * quotes per kind and one comma between neighbours, so the list can be read
   * back from it.
   */
  lemma {:induction false} TokenKindsJoinDelimiters(ks: seq<TokenKind>)
    requires |ks| >= 1 && NamesAvoid(ks, {'\'', ','})
    ensures Occurrences('\'', TokenKindsJoin(ks)) == 2 * |ks|
    ensures Occurrences(',', TokenKindsJoin(ks)) == |ks| - 1
    decreases |ks|
  {
    var n := ks[0].name;
    AvoidsHasNoOccurrence(n, {'\'', ','}, '\'');
    AvoidsHasNoOccurrence(n, {'\'', ','}, ',');
    OccurrencesConcat('\'', "'", n);
    OccurrencesConcat('\'', "'" + n, "'");
    OccurrencesConcat(',', "'", n);
    OccurrencesConcat(',', "'" + n, "'");
    if |ks| > 1 {
      TokenKindsJoinDelimiters(ks[1..]);
      OccurrencesConcat('\'', Quoted(ks[0]), ", ");
      OccurrencesConcat('\'', Quoted(ks[0]) + ", ", TokenKindsJoin(ks[1..]));
      OccurrencesConcat(',', Quoted(ks[0]), ", ");
      OccurrencesConcat(',', Quoted(ks[0]) + ", ", TokenKindsJoin(ks[1..]));
    }
  }

  /** `TokenDescription`: `<'spelling' (kind)>`, from which both parts can be cut back out. */
  function TokenDescription(t: Token): (s: string)
    ensures |s| == |t.spelling| + |t.kind.name| + 7
    ensures s[..2] == "<'" && s[|s| - 2..] == ")>"
    ensures s[2..2 + |t.spelling|] == t.spelling
    ensures s[2 + |t.spelling|..5 + |t.spelling|] == "' ("
    ensures s[5 + |t.spelling|..|s| - 2] == t.kind.name
  {
    "<'" + t.spelling + "' (" + t.kind.name + ")>"
  }

  function ExpectMessage(k: TokenKind, t: Token): string
  {
    "expected " + TokenKindsJoin([k]) + ", got: " + TokenDescription(t)
  }

  function ExpectOneOfMessage(ks: seq<TokenKind>, t: Token): string
    requires |ks| >= 1
  {
    "expected any of (" + TokenKindsJoin(ks) + "), got: " + TokenDescription(t)
  }

  /** Both messages name what was expected and end with the offending token's description. */
  lemma ExpectMessagesShape(k: TokenKind, ks: seq<TokenKind>, t: Token)
    requires |ks| >= 1
    ensures var m := ExpectMessage(k, t);
      m[..11 + |k.name|] == "expected '" + k.name + "'" && m[|m| - |TokenDescription(t)|..] == TokenDescription(t)
    ensures var m := ExpectOneOfMessage(ks, t);
      m[..18] == "expected any of ('" && m[|m| - |TokenDescription(t)|..] == TokenDescription(t)
  {
  }

  // ---------------------------------------------------------------------------
  // The token source
  // ---------------------------------------------------------------------------

  /** The token `Lex` returns at position `i`: past the end it keeps returning `eof`. */
  function TokenAt(tokens: seq<Token>, eof: Token, i: nat): Token
  {
    if i < |tokens| then tokens[i] else eof
  }

  /**
   * The preprocessor as the parser uses it: it lexes tokens in order, and
   * `EnableBacktrackAtThisPos` / `CommitBacktrackedTokens` / `Backtrack`
   * push, drop and return to marks in last-in, first-out order.
   */
  class TokenSource {
    const tokens: seq<Token>
    const eof: Token
    var pos: nat
    var marks: seq<nat>

    /** Marks are never ahead of the read position and are stacked in order. */
    ghost predicate Valid()
      reads this
    {
      (forall i :: 0 <= i < |marks| ==> marks[i] <= pos)
      && (forall i, j :: 0 <= i < j < |marks| ==> marks[i] <= marks[j])
    }

    constructor (tokens: seq<Token>, eof: Token)
      ensures Valid()
      ensures this.tokens == tokens && this.eof == eof && pos == 0 && marks == []
    {
      this.tokens := tokens;
      this.eof := eof;
      pos := 0;
      marks := [];
    }

    method Lex() returns (t: Token)
      requires Valid()
      modifies this
      ensures Valid()
      ensures t == TokenAt(tokens, eof, old(pos))
      ensures pos == old(pos) + 1 && marks == old(marks)
    {
      t := TokenAt(tokens, eof, pos);
      pos := pos + 1;
    }

    method EnableBacktrackAtThisPos()
      requires Valid()
      modifies this
      ensures Valid()
      ensures marks == old(marks) + [pos] && pos == old(pos)
    {
      marks := marks + [pos];
    }

    /** Drops the innermost mark and keeps the tokens read since. */
    method CommitBacktrackedTokens()
      requires Valid() && marks != []
      modifies this
      ensures Valid()
      ensures marks == old(marks[..|marks| - 1]) && pos == old(pos)
    {
      marks := marks[..|marks| - 1];
    }

    /** Returns to the innermost mark and drops it. */
    method Backtrack()
      requires Valid() && marks != []
      modifies this
      ensures Valid()
      ensures pos == old(marks[|marks| - 1]) && marks == old(marks[..|marks| - 1])
    {
      pos := marks[|marks| - 1];
      marks := marks[..|marks| - 1];
    }
  }

  // ---------------------------------------------------------------------------
  // The parser's error state
  // ---------------------------------------------------------------------------

  class Parser {
    /** The token the lexer is stopped at. */
    var token: Token
    var error: string
    const pp: TokenSource
    /**
     * The number of tentative actions over this parser that are still
     * enabled: each one's destructor would fail if it went out of scope now.
     */
    ghost var openActions: nat

    /** A parser over `pp` whose current token is `first`, with no error yet. */
    constructor (pp: TokenSource, first: Token)
      ensures this.pp == pp && token == first && error == "" && openActions == 0
    {
      this.pp := pp;
      token := first;
      error := "";
      openActions := 0;
    }

    predicate HasError()
      reads this
    {
      error != ""
    }

    /** Records `message` unless an earlier error is already recorded; the location is not kept. */
    method BailOut(message: string, location: nat)
      modifies this
      ensures error == if old(error) == "" then message else old(error)
      ensures token == old(token) && openActions == old(openActions)
    {
      if error == "" {
        error := message;
      }
    }

    /** Moves to the next token. */
    method ConsumeToken()
      requires pp.Valid()
      modifies this, pp
      ensures pp.Valid()
      ensures token == TokenAt(pp.tokens, pp.eof, old(pp.pos))
      ensures pp.pos == old(pp.pos) + 1 && pp.marks == old(pp.marks) && error == old(error)
      ensures openActions == old(openActions)
    {
      token := pp.Lex();
    }

    /** Fails unless the current token has kind `k`; never consumes a token. */
    method Expect(k: TokenKind)
      modifies this
      ensures token == old(token) && openActions == old(openActions)
      ensures HasError() <==> old(HasError()) || token.kind != k
      ensures error == if old(HasError()) || token.kind == k then old(error) else ExpectMessage(k, token)
    {
      if token.kind != k {
        BailOut(ExpectMessage(k, token), token.location);
      }
    }

    /** Fails unless the current token has one of the kinds `ks`; never consumes a token. */
    method ExpectOneOf(ks: seq<TokenKind>)
      requires |ks| >= 1
      modifies this
      ensures token == old(token) && openActions == old(openActions)
      ensures HasError() <==> old(HasError()) || token.kind !in ks
      ensures error == if old(HasError()) || token.kind in ks then old(error) else ExpectOneOfMessage(ks, token)
    {
      if token.kind !in ks {
        BailOut(ExpectOneOfMessage(ks, token), token.location);
      }
    }
  }

  // ---------------------------------------------------------------------------
  // Tentative parsing
  // ---------------------------------------------------------------------------

  /**
   * `TentativeParsingAction`: saves the parser's token and marks the token
   * source; `Commit` keeps what was read since, `Rollback` returns to the
   * checkpoint. `depth` and `mark` record which mark on the stack is this
   * action's and where it points.
   */
  class TentativeParsingAction {
    const parser: Parser
    const backtrackToken: Token
    var enabled: bool
    ghost const mark: nat
    ghost const depth: nat

    /** The action is still open and its mark is the innermost one. */
    ghost predicate Innermost()
      reads this, parser, parser.pp
    {
      enabled && parser.openActions >= 1 && parser.pp.Valid() && depth >= 1 && |parser.pp.marks| == depth
      && parser.pp.marks[depth - 1] == mark
    }

    constructor (parser: Parser)
      requires parser.pp.Valid()
      modifies parser, parser.pp
      ensures this.parser == parser && enabled
      ensures backtrackToken == parser.token
      ensures parser.token == old(parser.token) && parser.error == old(parser.error)
      ensures parser.openActions == old(parser.openActions) + 1
      ensures parser.pp.marks == old(parser.pp.marks) + [parser.pp.pos] && parser.pp.pos == old(parser.pp.pos)
      ensures mark == parser.pp.pos && depth == |parser.pp.marks|
      ensures Innermost()
    {
      this.parser := parser;
      backtrackToken := parser.token;
      mark := parser.pp.pos;
      depth := |parser.pp.marks| + 1;
      enabled := true;
      new;
      parser.pp.EnableBacktrackAtThisPos();
      parser.openActions := parser.openActions + 1;
    }

    /** Keeps the tokens read since the checkpoint; the parser's token and error are left as they are. */
    method Commit()
      requires Innermost()
      modifies this, parser, parser.pp
      ensures !enabled && parser.pp.Valid()
      ensures parser.pp.marks == old(parser.pp.marks[..depth - 1]) && parser.pp.pos == old(parser.pp.pos)
      ensures parser.token == old(parser.token) && parser.error == old(parser.error)
      ensures parser.openActions == old(parser.openActions) - 1
    {
      parser.pp.CommitBacktrackedTokens();
      parser.openActions := parser.openActions - 1;
      enabled := false;
    }

    /**
     * Returns to the checkpoint: the token source to the mark, the parser to
     * the saved token, and the error cleared, including one recorded before
     * the checkpoint.
     */
    method Rollback()
      requires Innermost()
      modifies this, parser, parser.pp
      ensures !enabled && parser.pp.Valid()
      ensures parser.pp.pos == mark && parser.pp.marks == old(parser.pp.marks[..depth - 1])
      ensures parser.token == backtrackToken && !parser.HasError()
      ensures parser.openActions == old(parser.openActions) - 1
    {
      parser.pp.Backtrack();
      parser.openActions := parser.openActions - 1;
      parser.error := "";
      parser.token := backtrackToken;
      enabled := false;
    }

    /** The destructor: an action must be committed or rolled back before it goes. */
    method Destroy()
      requires !enabled
    {
    }
  }

  /**
   * The token the parser sees `i` steps after a checkpoint taken at token `t`
   * and source position `pos`.
   */
  function Ahead(src: TokenSource, t: Token, pos: nat, i: nat): Token
    reads src
  {
    if i == 0 then t else TokenAt(src.tokens, src.eof, pos + i - 1)
  }

  /**
   * A client of the checkpoint: tentatively expects and consumes the kinds
   * `ks` in order, commits if all were there and rolls back otherwise.
   * After a rollback the parser is where it started and has no error, even
   * one it had before; after a commit it has moved past the `|ks|` tokens.
   */
  method TryExpectSequence(p: Parser, ks: seq<TokenKind>) returns (matched: bool)
    requires p.pp.Valid()
    modifies p, p.pp
    ensures p.pp.Valid() && p.pp.marks == old(p.pp.marks) && p.openActions == old(p.openActions)
    ensures matched <==> !old(p.HasError()) && forall i :: 0 <= i < |ks| ==> Ahead(p.pp, old(p.token), old(p.pp.pos), i).kind == ks[i]
    ensures matched ==> p.error == old(p.error) && p.pp.pos == old(p.pp.pos) + |ks|
                        && p.token == Ahead(p.pp, old(p.token), old(p.pp.pos), |ks|)
    ensures !matched ==> p.token == old(p.token) && p.pp.pos == old(p.pp.pos) && !p.HasError()
  {
    var action := new TentativeParsingAction(p);
    ghost var start, pos0, marks0 := p.token, old(p.pp.pos), old(p.pp.marks);
    var i := 0;
    while i < |ks| && !p.HasError()
      invariant 0 <= i <= |ks|
      invariant action.Innermost() && action.parser == p && action.mark == pos0 && action.depth == |marks0| + 1
      invariant p.pp.marks == marks0 + [pos0] && p.pp.pos == pos0 + i
      invariant p.openActions == old(p.openActions) + 1
      invariant p.token == Ahead(p.pp, start, pos0, i)
      invariant p.error == old(p.error) || p.HasError()
      invariant !p.HasError() ==> p.error == old(p.error) && !old(p.HasError())
      invariant !p.HasError() ==> forall j :: 0 <= j < i ==> Ahead(p.pp, start, pos0, j).kind == ks[j]
      invariant p.HasError() ==> old(p.HasError()) || (i < |ks| && p.token.kind != ks[i])
      decreases |ks| - i, if p.HasError() then 0 else 1
    {
      p.Expect(ks[i]);
      if !p.HasError() {
        p.ConsumeToken();
        i := i + 1;
      }
    }
    if p.HasError() {
      action.Rollback();
      matched := false;
    } else {
      action.Commit();
      matched := true;
    }
    action.Destroy();
  }
}
