// What the recursive-descent parser makes of a stream of lexemes, as functions
// of the stream `ts` and of the index `k` of the current lexeme (`k == |ts|`
// when the current lexeme is null). One function per grammar function; each
// returns what the grammar function returns or throws, where it leaves the
// cursor, and the errors reported (and recovered from) on the way.
module ParseSpec {
  import opened Wrappers
  import opened Strings
  import opened LexSpec
  import opened Ast

  /** The ParserException messages. */
  datatype ParseErrorKind =
    | ExpectedType(t: TokenType)
    | ExpectedToken(s: string, t: TokenType)
    | OperandExpected
    | NoStatementsInForLoop
    | StatementExpected

  /** A ParserException: its message and the current lexeme when it was thrown. */
  datatype ParseError = ParseError(kind: ParseErrorKind, lexeme: Option<Lexeme>)
  {
    function Message(): string {
      match kind
      case ExpectedType(t) => "expected token of type " + TokenTypeName(t)
      case ExpectedToken(s, t) => "expected token {" + TokenTypeName(t) + ", \"" + s + "\"}"
      case OperandExpected => "operand expected"
      case NoStatementsInForLoop => "no statements in for loop"
      case StatementExpected => "statement expected"
    }
  }

  /** The text `Error` writes for a caught exception, before its line break. */
  function ParseMessage(e: ParseError): string {
    match e.lexeme
    case None => "Parser error at <end of file>: " + e.Message() + ", got no token"
    case Some(l) => "Parser error at " + l.position.ToString() + ": " + e.Message() + ", got token: " + l.ToString()
  }

  /** The line `Error` writes for a caught exception. */
  function ParseLine(e: ParseError): string {
    ParseMessage(e) + "\n"
  }

  function ParseDiagnostics(errors: seq<ParseError>): string {
    if errors == [] then "" else ParseLine(errors[0]) + ParseDiagnostics(errors[1..])
  }

  lemma {:induction false} ParseDiagnosticsAppend(a: seq<ParseError>, b: seq<ParseError>)
    ensures ParseDiagnostics(a + b) == ParseDiagnostics(a) + ParseDiagnostics(b)
  {
    if a == [] {
      assert a + b == b;
    } else {
      assert (a + b)[0] == a[0] && (a + b)[1..] == a[1..] + b;
      ParseDiagnosticsAppend(a[1..], b);
    }
  }

  /** A routine that reports nothing leaves the errors as they were. */
  lemma NothingReported(log: seq<ParseError>)
    ensures log + [] == log
  {
  }

  /** The errors of two routines run one after the other. */
  lemma Sequenced(log: seq<ParseError>, a: seq<ParseError>, b: seq<ParseError>)
    ensures log + (a + b) == log + a + b
  {
  }

  /** The errors of a routine, the one reported after it, and those of the routine after that. */
  lemma Recovered(log: seq<ParseError>, a: seq<ParseError>, e: ParseError, b: seq<ParseError>)
    ensures log + (a + [e] + b) == log + a + [e] + b
  {
  }

  /** Reporting one more error appends its line to the diagnostics written so far. */
  lemma Logging(base: string, log: seq<ParseError>, e: ParseError)
    ensures base + ParseDiagnostics(log + [e]) == (base + ParseDiagnostics(log)) + ParseLine(e)
  {
    ParseDiagnosticsAppend(log, [e]);
    assert [e][1..] == [];
    assert ParseDiagnostics([e]) == ParseLine(e) + ParseDiagnostics([]);
    assert ParseDiagnostics([e]) == ParseLine(e);
    Associate(base, ParseDiagnostics(log), ParseLine(e));
  }

  /** The lexemes the lexer hands out: no comments, and numbers within int32. */
  predicate Lexed(ts: seq<Lexeme>) {
    forall i {:trigger Queueable(ts[i])} :: 0 <= i < |ts| ==> Queueable(ts[i])
  }

  /** Handing out the first of the lexemes from k on leaves those from k + 1 on. */
  lemma Advance(ts: seq<Lexeme>, k: nat)
    requires k < |ts|
    ensures ts[k..] != [] && ts[k..][0] == ts[k] && ts[k..][1..] == ts[k + 1..]
  {
  }

  /** currentLexeme when the cursor is at k. */
  function Current(ts: seq<Lexeme>, k: nat): Option<Lexeme> {
    if k < |ts| then Some(ts[k]) else None
  }

  /** LexemeContains(t) */
  predicate Contains(ts: seq<Lexeme>, k: nat, t: TokenType) {
    k < |ts| && ts[k].kind == t
  }

  /** LexemeContains(s, t) */
  predicate ContainsToken(ts: seq<Lexeme>, k: nat, s: string, t: TokenType) {
    k < |ts| && ts[k].token == s && ts[k].kind == t
  }

  /** The result of a grammar function: its value or the exception it throws,
    * the cursor afterwards, and the errors reported and recovered from meanwhile. */
  datatype ParseResult<T> = ParseResult(result: Result<T, ParseError>, next: nat, reported: seq<ParseError>)

  /** A ParserException thrown at k. */
  function Throw<T>(kind: ParseErrorKind, ts: seq<Lexeme>, k: nat): ParseResult<T> {
    ParseResult(Err(ParseError(kind, Current(ts, k))), k, [])
  }

  /** The same exception, after some errors were reported. */
  function Rethrow<T, U>(r: ParseResult<U>, before: seq<ParseError>): ParseResult<T>
    requires r.result.Err?
  {
    ParseResult(Err(r.result.error), r.next, before + r.reported)
  }

  /** The invariants every grammar function keeps: it never moves back, a
    * thrown exception carries the lexeme current when it was thrown. */
  predicate Sane<T>(ts: seq<Lexeme>, k: nat, r: ParseResult<T>) {
    k <= r.next <= |ts| && (r.result.Err? ==> r.result.error.lexeme == Current(ts, r.next))
  }

  // ----------------------------------------------------------- Consume

  /** Consume(t): the current lexeme when it has type t, and one step on;
    * otherwise an exception and no step. */
  function ConsumeType(ts: seq<Lexeme>, k: nat, t: TokenType): (r: ParseResult<Lexeme>)
    requires k <= |ts|
    ensures Sane(ts, k, r) && r.reported == []
    ensures r.result.Ok? <==> Contains(ts, k, t)
    ensures r.result.Ok? ==> r.result.value == ts[k] && r.next == k + 1
    ensures r.result.Err? ==> r.next == k && r.result.error.kind == ExpectedType(t)
  {
    if Contains(ts, k, t) then ParseResult(Ok(ts[k]), k + 1, []) else Throw(ExpectedType(t), ts, k)
  }

  /** Consume(s, t): as Consume(t), and the text must be s too. */
  function ConsumeToken(ts: seq<Lexeme>, k: nat, s: string, t: TokenType): (r: ParseResult<Lexeme>)
    requires k <= |ts|
    ensures Sane(ts, k, r) && r.reported == []
    ensures r.result.Ok? <==> ContainsToken(ts, k, s, t)
    ensures r.result.Ok? ==> r.result.value == ts[k] && r.next == k + 1
    ensures r.result.Err? ==> r.next == k && r.result.error.kind == ExpectedToken(s, t)
  {
    if ContainsToken(ts, k, s, t) then ParseResult(Ok(ts[k]), k + 1, []) else Throw(ExpectedToken(s, t), ts, k)
  }

  // ------------------------------------------------------------ leaves

  /** NUM: a NumberNode holding the decimal value of the NUMBER lexeme's text. */
  function Num(ts: seq<Lexeme>, k: nat): (r: ParseResult<Node>)
    requires k <= |ts| && Lexed(ts)
    ensures Sane(ts, k, r) && r.reported == []
    ensures r.result.Ok? <==> Contains(ts, k, TokenType.NUMBER)
    ensures r.result.Ok? ==> r.next == k + 1 && r.result.value.NumberNode?
                             && r.result.value.lexeme == Some(ts[k])
                             && ParseOutcome.Parsed(r.result.value.number) == ParseInt32(ts[k].token)
  {
    var c := ConsumeType(ts, k, TokenType.NUMBER);
    if c.result.Err? then Rethrow(c, [])
    else
      var l := c.result.value;
      assert Queueable(ts[k]);
      ParseResult(Ok(NumberFromText(l.token, Some(l))), c.next, [])
  }

  /** STR */
  function Str(ts: seq<Lexeme>, k: nat): (r: ParseResult<Node>)
    requires k <= |ts|
    ensures Sane(ts, k, r) && r.reported == []
    ensures r.result.Ok? <==> Contains(ts, k, TokenType.STRING)
    ensures r.result.Ok? ==> r.next == k + 1 && r.result.value == StringNode(ts[k].token, Some(ts[k]))
  {
    var c := ConsumeType(ts, k, TokenType.STRING);
    if c.result.Err? then Rethrow(c, [])
    else ParseResult(Ok(StringNode(c.result.value.token, Some(c.result.value))), c.next, [])
  }

  /** IDENT */
  function Ident(ts: seq<Lexeme>, k: nat): (r: ParseResult<Node>)
    requires k <= |ts|
    ensures Sane(ts, k, r) && r.reported == []
    ensures r.result.Ok? <==> Contains(ts, k, TokenType.IDENTIFIER)
    ensures r.result.Ok? ==> r.next == k + 1 && r.result.value == IdentifierNode(ts[k].token, Some(ts[k]))
  {
    var c := ConsumeType(ts, k, TokenType.IDENTIFIER);
    if c.result.Err? then Rethrow(c, [])
    else ParseResult(Ok(IdentifierNode(c.result.value.token, Some(c.result.value))), c.next, [])
  }

  /** TYPE: any keyword is accepted as a type name here. */
  function TypeName(ts: seq<Lexeme>, k: nat): (r: ParseResult<Node>)
    requires k <= |ts|
    ensures Sane(ts, k, r) && r.reported == []
    ensures r.result.Ok? <==> Contains(ts, k, KEYWORD)
    ensures r.result.Ok? ==> r.next == k + 1 && r.result.value == TypeNameNode(ts[k].token, Some(ts[k]))
  {
    var c := ConsumeType(ts, k, KEYWORD);
    if c.result.Err? then Rethrow(c, [])
    else ParseResult(Ok(TypeNameNode(c.result.value.token, Some(c.result.value))), c.next, [])
  }

  // ------------------------------------------------------- expressions

  /** UNARY: an operator lexeme and one operand. */
  function Unary(ts: seq<Lexeme>, k: nat): (r: ParseResult<Node>)
    requires k <= |ts| && Lexed(ts)
    ensures Sane(ts, k, r) && r.reported == []
    ensures r.result.Ok? ==> k < r.next && IsExpression(r.result.value) && r.result.value.UnaryOperatorNode?
    decreases |ts| - k, 0
  {
    var c := ConsumeType(ts, k, OPERATOR);
    if c.result.Err? then Rethrow(c, [])
    else
      var o := Opnd(ts, c.next);
      if o.result.Err? then o
      else ParseResult(Ok(UnaryOperatorNode(c.result.value.token, o.result.value, Some(c.result.value))), o.next, [])
  }

  /** BINOP: an operator lexeme and the right operand. */
  function Binop(ts: seq<Lexeme>, k: nat): (r: ParseResult<Node>)
    requires k <= |ts| && Lexed(ts)
    ensures Sane(ts, k, r) && r.reported == []
    ensures r.result.Ok? ==> k < r.next && r.result.value.BinaryOperatorNode?
                             && IsOperand(r.result.value.rightOperand)
    decreases |ts| - k, 0
  {
    var c := ConsumeType(ts, k, OPERATOR);
    if c.result.Err? then Rethrow(c, [])
    else
      var o := Opnd(ts, c.next);
      if o.result.Err? then o
      else ParseResult(Ok(BinaryOperatorNode(c.result.value.token, o.result.value, Some(c.result.value))), o.next, [])
  }

  /** OPND: "(" EXPR ")", a number, a string or an identifier; anything else,
    * the end of input included, is "operand expected". */
  function Opnd(ts: seq<Lexeme>, k: nat): (r: ParseResult<Node>)
    requires k <= |ts| && Lexed(ts)
    ensures Sane(ts, k, r) && r.reported == []
    ensures r.result.Ok? ==> k < r.next && IsOperand(r.result.value)
    decreases |ts| - k, 0
  {
    if k == |ts| then Throw(OperandExpected, ts, k)
    else match ts[k].kind
      case SEPARATOR =>
        var open := ConsumeToken(ts, k, "(", SEPARATOR);
        if open.result.Err? then Rethrow(open, [])
        else
          var e := Expr(ts, open.next);
          if e.result.Err? then e
          else
            var close := ConsumeToken(ts, e.next, ")", SEPARATOR);
            if close.result.Err? then Rethrow(close, [])
            else ParseResult(e.result, close.next, [])
      case NUMBER => Num(ts, k)
      case STRING => Str(ts, k)
      case IDENTIFIER => Ident(ts, k)
      case _ => Throw(OperandExpected, ts, k)
  }

  /** EXPRTAIL: a binary operator when the current lexeme is an operator, else nothing. */
  function ExprTail(ts: seq<Lexeme>, k: nat): (r: ParseResult<Option<Node>>)
    requires k <= |ts| && Lexed(ts)
    ensures Sane(ts, k, r) && r.reported == []
    ensures r.result.Ok? && r.result.value.None? <==> !Contains(ts, k, OPERATOR)
    ensures r.result.Ok? && r.result.value.None? ==> r.next == k
    ensures r.result.Ok? && r.result.value.Some? ==>
              r.result.value.value.BinaryOperatorNode? && IsOperand(r.result.value.value.rightOperand)
    decreases |ts| - k, 1
  {
    if Contains(ts, k, OPERATOR) then
      var b := Binop(ts, k);
      if b.result.Err? then Rethrow(b, []) else ParseResult(Ok(Some(b.result.value)), b.next, [])
    else ParseResult(Ok(None), k, [])
  }

  /** EXPR: a unary operation when the current lexeme is an operator; otherwise
    * an operand and an optional binary operator, the node carrying the lexeme
    * the expression starts at. */
  function Expr(ts: seq<Lexeme>, k: nat): (r: ParseResult<Node>)
    requires k <= |ts| && Lexed(ts)
    ensures Sane(ts, k, r) && r.reported == []
    ensures r.result.Ok? ==> k < r.next && IsExpression(r.result.value)
    decreases |ts| - k, 2
  {
    if Contains(ts, k, OPERATOR) then Unary(ts, k)
    else
      var left := Opnd(ts, k);
      if left.result.Err? then left
      else
        var tail := ExprTail(ts, left.next);
        if tail.result.Err? then Rethrow(tail, [])
        else ParseResult(Ok(ExpressionNode(left.result.value, tail.result.value, Current(ts, k))), tail.next, [])
  }

  // -------------------------------------------------------- statements

  /** PRINT */
  function PrintStmt(ts: seq<Lexeme>, k: nat): (r: ParseResult<Node>)
    requires k <= |ts| && Lexed(ts)
    ensures Sane(ts, k, r) && r.reported == []
    ensures r.result.Ok? ==> k < r.next && IsStatement(r.result.value) && r.result.value.PrintNode?
  {
    var c := ConsumeToken(ts, k, "print", KEYWORD);
    if c.result.Err? then Rethrow(c, [])
    else
      var e := Expr(ts, c.next);
      if e.result.Err? then e
      else ParseResult(Ok(PrintNode(e.result.value, Some(c.result.value))), e.next, [])
  }

  /** ASSERT: "assert" "(" EXPR ")". */
  function AssertStmt(ts: seq<Lexeme>, k: nat): (r: ParseResult<Node>)
    requires k <= |ts| && Lexed(ts)
    ensures Sane(ts, k, r) && r.reported == []
    ensures r.result.Ok? ==> k < r.next && IsStatement(r.result.value) && r.result.value.AssertNode?
  {
    var c := ConsumeToken(ts, k, "assert", KEYWORD);
    if c.result.Err? then Rethrow(c, [])
    else
      var open := ConsumeToken(ts, c.next, "(", SEPARATOR);
      if open.result.Err? then Rethrow(open, [])
      else
        var e := Expr(ts, open.next);
        if e.result.Err? then e
        else
          var close := ConsumeToken(ts, e.next, ")", SEPARATOR);
          if close.result.Err? then Rethrow(close, [])
          else ParseResult(Ok(AssertNode(e.result.value, Some(c.result.value))), close.next, [])
  }

  /** VARTAIL: an initializer exactly when ":=" follows. */
  function VarTail(ts: seq<Lexeme>, k: nat): (r: ParseResult<Option<Node>>)
    requires k <= |ts| && Lexed(ts)
    ensures Sane(ts, k, r) && r.reported == []
    ensures r.result.Ok? && r.result.value.None? <==> !ContainsToken(ts, k, ":=", SEPARATOR)
    ensures r.result.Ok? && r.result.value.None? ==> r.next == k
    ensures r.result.Ok? && r.result.value.Some? ==> IsExpression(r.result.value.value)
  {
    if ContainsToken(ts, k, ":=", SEPARATOR) then
      var c := ConsumeToken(ts, k, ":=", SEPARATOR);
      var e := Expr(ts, c.next);
      if e.result.Err? then Rethrow(e, []) else ParseResult(Ok(Some(e.result.value)), e.next, [])
    else ParseResult(Ok(None), k, [])
  }

  /** VAR: "var" IDENT ":" TYPE VARTAIL. */
  function VarStmt(ts: seq<Lexeme>, k: nat): (r: ParseResult<Node>)
    requires k <= |ts| && Lexed(ts)
    ensures Sane(ts, k, r) && r.reported == []
    ensures r.result.Ok? ==> k < r.next && IsStatement(r.result.value) && r.result.value.DeclarationNode?
  {
    var c := ConsumeToken(ts, k, "var", KEYWORD);
    if c.result.Err? then Rethrow(c, [])
    else
      var id := Ident(ts, c.next);
      if id.result.Err? then id
      else
        var colon := ConsumeToken(ts, id.next, ":", SEPARATOR);
        if colon.result.Err? then Rethrow(colon, [])
        else
          var ty := TypeName(ts, colon.next);
          if ty.result.Err? then ty
          else
            var init := VarTail(ts, ty.next);
            if init.result.Err? then Rethrow(init, [])
            else ParseResult(Ok(DeclarationNode(id.result.value, ty.result.value, init.result.value, Some(c.result.value))),
                        init.next, [])
  }

  /** ASSIGN: IDENT ":=" EXPR, the node carrying the ":=" lexeme. */
  function AssignStmt(ts: seq<Lexeme>, k: nat): (r: ParseResult<Node>)
    requires k <= |ts| && Lexed(ts)
    ensures Sane(ts, k, r) && r.reported == []
    ensures r.result.Ok? ==> k < r.next && IsStatement(r.result.value) && r.result.value.AssignmentNode?
  {
    var id := Ident(ts, k);
    if id.result.Err? then id
    else
      var c := ConsumeToken(ts, id.next, ":=", SEPARATOR);
      if c.result.Err? then Rethrow(c, [])
      else
        var e := Expr(ts, c.next);
        if e.result.Err? then e
        else ParseResult(Ok(AssignmentNode(id.result.value, e.result.value, Some(c.result.value))), e.next, [])
  }

  /** READ: "read" IDENT. */
  function ReadStmt(ts: seq<Lexeme>, k: nat): (r: ParseResult<Node>)
    requires k <= |ts| && Lexed(ts)
    ensures Sane(ts, k, r) && r.reported == []
    ensures r.result.Ok? ==> k < r.next && IsStatement(r.result.value) && r.result.value.ReadNode?
  {
    var c := ConsumeToken(ts, k, "read", KEYWORD);
    if c.result.Err? then Rethrow(c, [])
    else
      var id := Ident(ts, c.next);
      if id.result.Err? then id
      else ParseResult(Ok(ReadNode(id.result.value, Some(c.result.value))), id.next, [])
  }

  /** The statements a STMT may start with. */
  predicate StartsStatement(ts: seq<Lexeme>, k: nat) {
    (Contains(ts, k, KEYWORD) && ts[k].token in {"read", "assert", "print", "var", "for"})
    || Contains(ts, k, TokenType.IDENTIFIER)
  }

  /** The cursor after SkipToNextStatement: just past the first ";" separator
    * at or after j, or the end of input when there is none. */
  function SkipPast(ts: seq<Lexeme>, j: nat): (e: nat)
    requires j <= |ts|
    ensures j <= e <= |ts|
    ensures j < |ts| ==> j < e
    ensures forall i :: j <= i < e - 1 ==> !ContainsToken(ts, i, ";", SEPARATOR)
    ensures j < e ==> e == |ts| || ContainsToken(ts, e - 1, ";", SEPARATOR)
    decreases |ts| - j
  {
    if j == |ts| then j
    else if ContainsToken(ts, j, ";", SEPARATOR) then j + 1
    else SkipPast(ts, j + 1)
  }

  /** The range of a for loop: EXPR ".." EXPR "do", giving the two bounds. */
  function LoopRange(ts: seq<Lexeme>, k: nat): (r: ParseResult<(Node, Node)>)
    requires k <= |ts| && Lexed(ts)
    ensures Sane(ts, k, r) && r.reported == []
    ensures r.result.Ok? ==> k < r.next && IsExpression(r.result.value.0) && IsExpression(r.result.value.1)
  {
    var begin := Expr(ts, k);
    if begin.result.Err? then Rethrow(begin, [])
    else
      var dots := ConsumeToken(ts, begin.next, "..", SEPARATOR);
      if dots.result.Err? then Rethrow(dots, [])
      else
        var end := Expr(ts, dots.next);
        if end.result.Err? then Rethrow(end, [])
        else
          var doK := ConsumeToken(ts, end.next, "do", KEYWORD);
          if doK.result.Err? then Rethrow(doK, [])
          else ParseResult(Ok((begin.result.value, end.result.value)), doK.next, [])
  }

  /** The body of a for loop: STMTS "end" "for"; an empty body throws
    * "no statements in for loop" at the lexeme after it. */
  function LoopBody(ts: seq<Lexeme>, k: nat): (r: ParseResult<Node>)
    requires k <= |ts| && Lexed(ts)
    ensures Sane(ts, k, r)
    ensures r.result.Ok? ==> IsStatementList(r.result.value)
    ensures Stmts(ts, k).result.value.None? ==> r.result.Err? && r.result.error.kind == NoStatementsInForLoop
    decreases |ts| - k, 4
  {
    var body := Stmts(ts, k);
    if body.result.value.None? then
      ParseResult(Err(ParseError(NoStatementsInForLoop, Current(ts, body.next))), body.next, body.reported)
    else
      var endK := ConsumeToken(ts, body.next, "end", KEYWORD);
      if endK.result.Err? then Rethrow(endK, body.reported)
      else
        var forK := ConsumeToken(ts, endK.next, "for", KEYWORD);
        if forK.result.Err? then Rethrow(forK, body.reported)
        else ParseResult(Ok(body.result.value.value), forK.next, body.reported)
  }

  /** The head of a for loop: "for" IDENT "in", giving the "for" lexeme and the loop variable. */
  function LoopHead(ts: seq<Lexeme>, k: nat): (r: ParseResult<(Lexeme, Node)>)
    requires k <= |ts|
    ensures Sane(ts, k, r) && r.reported == []
    ensures r.result.Ok? ==> k < r.next && r.result.value.1.IdentifierNode?
  {
    var c := ConsumeToken(ts, k, "for", KEYWORD);
    if c.result.Err? then Rethrow(c, [])
    else
      var id := Ident(ts, c.next);
      if id.result.Err? then Rethrow(id, [])
      else
        var inK := ConsumeToken(ts, id.next, "in", KEYWORD);
        if inK.result.Err? then Rethrow(inK, [])
        else ParseResult(Ok((c.result.value, id.result.value)), inK.next, [])
  }

  /** FORLOOP: the head, the range, then the body. */
  function ForLoop(ts: seq<Lexeme>, k: nat): (r: ParseResult<Node>)
    requires k <= |ts| && Lexed(ts)
    ensures Sane(ts, k, r)
    ensures r.result.Ok? ==> k < r.next && IsStatement(r.result.value) && r.result.value.ForLoopNode?
    decreases |ts| - k, 0
  {
    var head := LoopHead(ts, k);
    if head.result.Err? then Rethrow(head, [])
    else
      var range := LoopRange(ts, head.next);
      if range.result.Err? then Rethrow(range, [])
      else
        var body := LoopBody(ts, range.next);
        if body.result.Err? then body
        else
          ParseResult(Ok(ForLoopNode(head.result.value.1, range.result.value.0, range.result.value.1,
                                body.result.value, Some(head.result.value.0))),
                      body.next, body.reported)
  }

  /** The statements other than FORLOOP, by the lexeme they start with. */
  function SimpleStmt(ts: seq<Lexeme>, k: nat): (r: ParseResult<Node>)
    requires k <= |ts| && Lexed(ts)
    ensures Sane(ts, k, r) && r.reported == []
    ensures r.result.Ok? ==> k < r.next && IsStatement(r.result.value)
  {
    if Contains(ts, k, KEYWORD) && ts[k].token == "read" then ReadStmt(ts, k)
    else if Contains(ts, k, KEYWORD) && ts[k].token == "assert" then AssertStmt(ts, k)
    else if Contains(ts, k, KEYWORD) && ts[k].token == "print" then PrintStmt(ts, k)
    else if Contains(ts, k, KEYWORD) && ts[k].token == "var" then VarStmt(ts, k)
    else AssignStmt(ts, k)
  }

  /** STMT: the statement the current lexeme starts; nothing, with nothing
    * consumed, when it starts none. */
  function Stmt(ts: seq<Lexeme>, k: nat): (r: ParseResult<Option<Node>>)
    requires k <= |ts| && Lexed(ts)
    ensures Sane(ts, k, r)
    ensures r.result.Ok? && r.result.value.None? <==> !StartsStatement(ts, k)
    ensures !StartsStatement(ts, k) ==> r.next == k && r.reported == []
    ensures r.result.Ok? && r.result.value.Some? ==> k < r.next && IsStatement(r.result.value.value)
    decreases |ts| - k, 1
  {
    if !StartsStatement(ts, k) then ParseResult(Ok(None), k, [])
    else
      var s := if Contains(ts, k, KEYWORD) && ts[k].token == "for" then ForLoop(ts, k) else SimpleStmt(ts, k);
      if s.result.Err? then Rethrow(s, []) else ParseResult(Ok(Some(s.result.value)), s.next, s.reported)
  }

  /** STMT is FORLOOP on "for", and SIMPLESTMT on the other statement
    * keywords and on an identifier, with the node wrapped as present. */
  lemma {:induction false} StmtCases(ts: seq<Lexeme>, k: nat)
    requires k <= |ts| && Lexed(ts)
    ensures Contains(ts, k, KEYWORD) && ts[k].token == "for" ==>
              var f := ForLoop(ts, k);
              Stmt(ts, k).result == (if f.result.Err? then Err(f.result.error) else Ok(Some(f.result.value)))
              && Stmt(ts, k).next == f.next && Stmt(ts, k).reported == f.reported
    ensures StartsStatement(ts, k) && !(Contains(ts, k, KEYWORD) && ts[k].token == "for") ==>
              var f := SimpleStmt(ts, k);
              Stmt(ts, k).result == (if f.result.Err? then Err(f.result.error) else Ok(Some(f.result.value)))
              && Stmt(ts, k).next == f.next && Stmt(ts, k).reported == []
  {
    if StartsStatement(ts, k) {
      var f := if Contains(ts, k, KEYWORD) && ts[k].token == "for" then ForLoop(ts, k) else SimpleStmt(ts, k);
      assert [] + f.reported == f.reported;
    }
  }

  /** STMTSTAIL: statements, each followed by ";", as a right-nested list in
    * source order; nothing when no statement starts here. */
  function StmtsTail(ts: seq<Lexeme>, k: nat): (r: ParseResult<Option<Node>>)
    requires k <= |ts| && Lexed(ts)
    ensures Sane(ts, k, r)
    ensures k == |ts| ==> r == ParseResult(Ok(None), k, [])
    ensures r.result.Ok? && r.result.value.None? <==> !StartsStatement(ts, k)
    ensures r.result.Ok? && r.result.value.Some? ==>
              k < r.next && IsStatementList(r.result.value.value) && ContainsToken(ts, r.next - 1, ";", SEPARATOR)
    decreases |ts| - k, 2
  {
    var s := Stmt(ts, k);
    if s.result.Err? then s
    else if s.result.value.None? then s
    else
      var semi := ConsumeToken(ts, s.next, ";", SEPARATOR);
      if semi.result.Err? then Rethrow(semi, s.reported)
      else
        var tail := StmtsTail(ts, semi.next);
        if tail.result.Err? then Rethrow(tail, s.reported)
        else
          ParseResult(Ok(Some(StatementsNode(s.result.value.value, tail.result.value, None))), tail.next,
                 s.reported + tail.reported)
  }

  /** STMTS, and ERRORTAIL, whose body is the same: STMTSTAIL, and on an
    * exception, report it, skip past the next ";" and start again. Never throws. */
  function Stmts(ts: seq<Lexeme>, k: nat): (r: ParseResult<Option<Node>>)
    requires k <= |ts| && Lexed(ts)
    ensures Sane(ts, k, r) && r.result.Ok?
    ensures k == |ts| ==> r == ParseResult(Ok(None), k, [])
    ensures r.result.value.Some? ==> IsStatementList(r.result.value.value)
    ensures r.result.value.None? ==> !StartsStatement(ts, r.next)
    decreases |ts| - k, 3
  {
    var t := StmtsTail(ts, k);
    if t.result.Ok? then t
    else
      var rest := Stmts(ts, SkipPast(ts, t.next));
      ParseResult(rest.result, rest.next, t.reported + [t.result.error] + rest.reported)
  }

  /** PROG: the statement list, which must be non-empty and reach the end of
    * input, or "statement expected" is thrown at the current lexeme. */
  function Prog(ts: seq<Lexeme>): (r: ParseResult<Node>)
    requires Lexed(ts)
    ensures Sane(ts, 0, r)
    ensures r.result.Ok? <==> Stmts(ts, 0).result.value.Some? && Stmts(ts, 0).next == |ts|
    ensures r.result.Ok? ==> IsStatementList(r.result.value)
    ensures r.result.Err? ==> r.result.error.kind == StatementExpected
  {
    var s := Stmts(ts, 0);
    if s.result.value.Some? && s.next == |ts| then ParseResult(Ok(s.result.value.value), s.next, s.reported)
    else ParseResult(Err(ParseError(StatementExpected, Current(ts, s.next))), s.next, s.reported)
  }

  /** Parse: PROG, and on an exception, report it, skip past the next ";" and
    * go on as ERRORTAIL. The result is the tree Parse returns. */
  function Program(ts: seq<Lexeme>): (r: ParseResult<Option<Node>>)
    requires Lexed(ts)
    ensures r.next <= |ts| && r.result.Ok?
    ensures r.result.value.Some? ==> IsStatementList(r.result.value.value)
    ensures r.reported == [] ==> r.result.value.Some? && r.next == |ts|
  {
    var p := Prog(ts);
    if p.result.Ok? then ParseResult(Ok(Some(p.result.value)), p.next, p.reported)
    else
      var rest := Stmts(ts, SkipPast(ts, p.next));
      ParseResult(rest.result, rest.next, p.reported + [p.result.error] + rest.reported)
  }

  /** An empty program is reported as "statement expected" at the end of the file. */
  lemma EmptyProgram()
    ensures Program([]) == ParseResult(Ok(None), 0, [ParseError(StatementExpected, None)])
  {
    assert Stmts([], 0) == ParseResult(Ok(None), 0, []);
  }
}
