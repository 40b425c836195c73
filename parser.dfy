// The recursive-descent parser. It pulls lexemes from the lexer one at a time
// into `current`, builds the tree, and reports the errors it recovers from.
// Every grammar routine is proved to return (or throw, as an `Err`) what the
// function of the same name in ParseSpec says, to leave the cursor where that
// function says, and to write exactly the diagnostics of the errors it reports.
module Parsing {
  import opened Wrappers
  import opened LexSpec
  import opened Ast
  import opened ParseSpec
  import opened Lexing
  import opened StringIOs

  class Parser {
    const lexer: Lexer
    const io: StringIO
    /** currentLexeme: None is null. */
    var current: Option<Lexeme>
    var errored: bool
    /** The lexemes the lexer hands out, from the first to the last. */
    ghost const stream: seq<Lexeme>
    /** The index of `current` in `stream`. */
    ghost var pos: nat
    /** Whether the first lexeme has been fetched. */
    ghost var started: bool
    /** The output before parsing began. */
    ghost const base: string
    /** The errors reported so far, in order. */
    ghost var log: seq<ParseError>
    /** Whether the lexer had reported an error before parsing began. */
    ghost const lexerErrored: bool

    ghost predicate Valid()
      reads this, lexer, lexer.input, lexer.input.buffer
    {
      lexer.Valid() && lexer.Unreported() == [] && lexer.errored == lexerErrored && Lexed(stream) && pos <= |stream|
      && (started ==> current == Current(stream, pos)
                      && lexer.Upcoming() == (if pos < |stream| then stream[pos + 1..] else []))
      && (!started ==> pos == 0 && current == None && lexer.Upcoming() == stream)
    }

    /** A routine's result and cursor are those of the spec result p. */
    ghost predicate Yields<T>(r: Result<T, ParseError>, p: ParseResult<T>)
      reads this
    {
      r == p.result && pos == p.next
    }

    /** The output holds the diagnostics of the errors reported so far, and
      * errored says whether there were any. */
    ghost predicate Logged()
      reads this, io
    {
      io.output == base + ParseDiagnostics(log) && errored == (log != [])
    }

    /** A routine's result and cursor are those of the spec result p, and it
      * reported the errors p reports. */
    ghost predicate Agrees<T>(r: Result<T, ParseError>, p: ParseResult<T>, log0: seq<ParseError>)
      reads this
    {
      r == p.result && pos == p.next && log == log0 + p.reported
    }

    /** A parser over a lexer that has nothing left to report. */
    constructor (lexer: Lexer, io: StringIO)
      requires lexer.Valid() && lexer.Unreported() == [] && Lexed(lexer.Upcoming())
      ensures Valid() && Logged() && !started && log == []
      ensures this.lexer == lexer && this.io == io && stream == lexer.Upcoming() && base == io.output
      ensures lexerErrored == lexer.errored
    {
      this.lexer := lexer;
      this.io := io;
      current := None;
      errored := false;
      stream := lexer.Upcoming();
      pos := 0;
      started := false;
      base := io.output;
      log := [];
      lexerErrored := lexer.errored;
    }

    /** Makes the lexer's next lexeme current. */
    method NextLexeme()
      requires Valid()
      modifies this, lexer, lexer.input, lexer.input.buffer, lexer.io`output
      ensures Valid() && started
      ensures pos == (if old(started) && old(pos) < |stream| then old(pos) + 1 else old(pos))
      ensures errored == old(errored) && log == old(log) && io.output == old(io.output)
    {
      // next is the index of the lexeme the lexer hands out now.
      ghost var next := if started && pos < |stream| then pos + 1 else pos;
      ghost var upcoming := lexer.Upcoming();
      assert upcoming == stream[next..] by {
        if !started {
          assert stream[0..] == stream;
        }
      }
      current := lexer.NextLexeme();
      assert lexer.Valid() && lexer.Unreported() == [] && lexer.errored == lexerErrored;
      pos := next;
      if next < |stream| {
        Advance(stream, next);
        assert current == Some(stream[next]) && lexer.Upcoming() == stream[next + 1..];
      } else {
        assert current == None && lexer.Upcoming() == [];
      }
      started := true;
    }

    /** Consume(t) */
    method ConsumeType(t: TokenType) returns (r: Result<Lexeme, ParseError>)
      requires Valid() && started
      modifies this, lexer, lexer.input, lexer.input.buffer, lexer.io`output
      ensures Valid() && started && Yields(r, ParseSpec.ConsumeType(stream, old(pos), t)) && errored == old(errored) && log == old(log)
        && io.output == old(io.output)
    {
      var lexeme := current;
      if lexeme.None? || lexeme.value.kind != t {
        return Err(ParseError(ExpectedType(t), lexeme));
      }
      NextLexeme();
      r := Ok(lexeme.value);
    }

    /** Consume(s, t) */
    method ConsumeToken(s: string, t: TokenType) returns (r: Result<Lexeme, ParseError>)
      requires Valid() && started
      modifies this, lexer, lexer.input, lexer.input.buffer, lexer.io`output
      ensures Valid() && started && Yields(r, ParseSpec.ConsumeToken(stream, old(pos), s, t)) && errored == old(errored) && log == old(log)
        && io.output == old(io.output)
    {
      var lexeme := current;
      if lexeme.None? || lexeme.value.token != s || lexeme.value.kind != t {
        return Err(ParseError(ExpectedToken(s, t), lexeme));
      }
      NextLexeme();
      r := Ok(lexeme.value);
    }

    /** LexemeContains(t) */
    function LexemeContains(t: TokenType): (b: bool)
      reads this, lexer, lexer.input, lexer.input.buffer
      ensures Valid() && started ==> (b <==> Contains(stream, pos, t))
    {
      current.Some? && current.value.kind == t
    }

    /** LexemeHasToken(s) */
    function LexemeHasToken(s: string): (b: bool)
      reads this, lexer, lexer.input, lexer.input.buffer
      ensures Valid() && started ==> (b <==> pos < |stream| && stream[pos].token == s)
    {
      current.Some? && current.value.token == s
    }

    /** LexemeContains(s, t) */
    function LexemeContainsToken(s: string, t: TokenType): (b: bool)
      reads this, lexer, lexer.input, lexer.input.buffer
      ensures Valid() && started ==> (b <==> ParseSpec.ContainsToken(stream, pos, s, t))
    {
      LexemeHasToken(s) && LexemeContains(t)
    }

    // ------------------------------------------------------------ leaves

    method NUM() returns (r: Result<Node, ParseError>)
      requires Valid() && started
      modifies this, lexer, lexer.input, lexer.input.buffer, lexer.io`output
      ensures Valid() && started && Yields(r, ParseSpec.Num(stream, old(pos))) && errored == old(errored) && log == old(log)
        && io.output == old(io.output)
    {
      var lexeme := ConsumeType(TokenType.NUMBER);
      if lexeme.Err? {
        return Err(lexeme.error);
      }
      assert Queueable(stream[old(pos)]);
      r := Ok(NumberFromText(lexeme.value.token, Some(lexeme.value)));
    }

    method STR() returns (r: Result<Node, ParseError>)
      requires Valid() && started
      modifies this, lexer, lexer.input, lexer.input.buffer, lexer.io`output
      ensures Valid() && started && Yields(r, ParseSpec.Str(stream, old(pos))) && errored == old(errored) && log == old(log)
        && io.output == old(io.output)
    {
      var lexeme := ConsumeType(TokenType.STRING);
      if lexeme.Err? {
        return Err(lexeme.error);
      }
      r := Ok(StringNode(lexeme.value.token, Some(lexeme.value)));
    }

    method IDENT() returns (r: Result<Node, ParseError>)
      requires Valid() && started
      modifies this, lexer, lexer.input, lexer.input.buffer, lexer.io`output
      ensures Valid() && started && Yields(r, Ident(stream, old(pos))) && errored == old(errored) && log == old(log)
        && io.output == old(io.output)
    {
      var lexeme := ConsumeType(TokenType.IDENTIFIER);
      if lexeme.Err? {
        return Err(lexeme.error);
      }
      r := Ok(IdentifierNode(lexeme.value.token, Some(lexeme.value)));
    }

    method TYPE() returns (r: Result<Node, ParseError>)
      requires Valid() && started
      modifies this, lexer, lexer.input, lexer.input.buffer, lexer.io`output
      ensures Valid() && started && Yields(r, TypeName(stream, old(pos))) && errored == old(errored) && log == old(log)
        && io.output == old(io.output)
    {
      var lexeme := ConsumeType(KEYWORD);
      if lexeme.Err? {
        return Err(lexeme.error);
      }
      r := Ok(TypeNameNode(lexeme.value.token, Some(lexeme.value)));
    }

    // ------------------------------------------------------- expressions

    method UNARY() returns (r: Result<Node, ParseError>)
      requires Valid() && started
      modifies this, lexer, lexer.input, lexer.input.buffer, lexer.io`output
      ensures Valid() && started && Yields(r, Unary(stream, old(pos))) && errored == old(errored) && log == old(log)
        && io.output == old(io.output)
      decreases |stream| - pos, 0
    {
      var lexeme := ConsumeType(OPERATOR);
      if lexeme.Err? {
        return Err(lexeme.error);
      }
      var operand := OPND();
      if operand.Err? {
        return operand;
      }
      r := Ok(UnaryOperatorNode(lexeme.value.token, operand.value, Some(lexeme.value)));
    }

    method BINOP() returns (r: Result<Node, ParseError>)
      requires Valid() && started
      modifies this, lexer, lexer.input, lexer.input.buffer, lexer.io`output
      ensures Valid() && started && Yields(r, Binop(stream, old(pos))) && errored == old(errored) && log == old(log)
        && io.output == old(io.output)
      decreases |stream| - pos, 0
    {
      var lexeme := ConsumeType(OPERATOR);
      if lexeme.Err? {
        return Err(lexeme.error);
      }
      var operand := OPND();
      if operand.Err? {
        return operand;
      }
      r := Ok(BinaryOperatorNode(lexeme.value.token, operand.value, Some(lexeme.value)));
    }

    method OPND() returns (r: Result<Node, ParseError>)
      requires Valid() && started
      modifies this, lexer, lexer.input, lexer.input.buffer, lexer.io`output
      ensures Valid() && started && Yields(r, Opnd(stream, old(pos))) && errored == old(errored) && log == old(log)
        && io.output == old(io.output)
      decreases |stream| - pos, 0
    {
      if current.None? {
        return Err(ParseError(OperandExpected, current));
      }
      match current.value.kind {
        case SEPARATOR =>
          var open := ConsumeToken("(", SEPARATOR);
          if open.Err? {
            return Err(open.error);
          }
          r := EXPR();
          if r.Err? {
            return;
          }
          var close := ConsumeToken(")", SEPARATOR);
          if close.Err? {
            return Err(close.error);
          }
        case NUMBER => r := NUM();
        case STRING => r := STR();
        case IDENTIFIER => r := IDENT();
        case _ => r := Err(ParseError(OperandExpected, current));
      }
    }

    method EXPRTAIL() returns (r: Result<Option<Node>, ParseError>)
      requires Valid() && started
      modifies this, lexer, lexer.input, lexer.input.buffer, lexer.io`output
      ensures Valid() && started && Yields(r, ExprTail(stream, old(pos))) && errored == old(errored) && log == old(log)
        && io.output == old(io.output)
      decreases |stream| - pos, 1
    {
      if LexemeContains(OPERATOR) {
        var b := BINOP();
        if b.Err? {
          return Err(b.error);
        }
        return Ok(Some(b.value));
      }
      r := Ok(None);
    }

    method EXPR() returns (r: Result<Node, ParseError>)
      requires Valid() && started
      modifies this, lexer, lexer.input, lexer.input.buffer, lexer.io`output
      ensures Valid() && started && Yields(r, Expr(stream, old(pos))) && errored == old(errored) && log == old(log)
        && io.output == old(io.output)
      decreases |stream| - pos, 2
    {
      if LexemeContains(OPERATOR) {
        r := UNARY();
        return;
      }
      var lexeme := current;
      var left := OPND();
      if left.Err? {
        return left;
      }
      var tail := EXPRTAIL();
      if tail.Err? {
        return Err(tail.error);
      }
      r := Ok(ExpressionNode(left.value, tail.value, lexeme));
    }

    // -------------------------------------------------------- statements

    method PRINT() returns (r: Result<Node, ParseError>)
      requires Valid() && started
      modifies this, lexer, lexer.input, lexer.input.buffer, lexer.io`output
      ensures Valid() && started && Yields(r, PrintStmt(stream, old(pos))) && errored == old(errored) && log == old(log)
        && io.output == old(io.output)
    {
      var lexeme := ConsumeToken("print", KEYWORD);
      if lexeme.Err? {
        return Err(lexeme.error);
      }
      var printed := EXPR();
      if printed.Err? {
        return printed;
      }
      r := Ok(PrintNode(printed.value, Some(lexeme.value)));
    }

    method ASSERT() returns (r: Result<Node, ParseError>)
      requires Valid() && started
      modifies this, lexer, lexer.input, lexer.input.buffer, lexer.io`output
      ensures Valid() && started && Yields(r, AssertStmt(stream, old(pos))) && errored == old(errored) && log == old(log)
        && io.output == old(io.output)
    {
      var lexeme := ConsumeToken("assert", KEYWORD);
      if lexeme.Err? {
        return Err(lexeme.error);
      }
      var open := ConsumeToken("(", SEPARATOR);
      if open.Err? {
        return Err(open.error);
      }
      var condition := EXPR();
      if condition.Err? {
        return condition;
      }
      var close := ConsumeToken(")", SEPARATOR);
      if close.Err? {
        return Err(close.error);
      }
      r := Ok(AssertNode(condition.value, Some(lexeme.value)));
    }

    method VARTAIL() returns (r: Result<Option<Node>, ParseError>)
      requires Valid() && started
      modifies this, lexer, lexer.input, lexer.input.buffer, lexer.io`output
      ensures Valid() && started && Yields(r, VarTail(stream, old(pos))) && errored == old(errored) && log == old(log)
        && io.output == old(io.output)
    {
      if LexemeContainsToken(":=", SEPARATOR) {
        var _ := ConsumeToken(":=", SEPARATOR);
        var value := EXPR();
        if value.Err? {
          return Err(value.error);
        }
        return Ok(Some(value.value));
      }
      r := Ok(None);
    }

    method VAR() returns (r: Result<Node, ParseError>)
      requires Valid() && started
      modifies this, lexer, lexer.input, lexer.input.buffer, lexer.io`output
      ensures Valid() && started && Yields(r, VarStmt(stream, old(pos))) && errored == old(errored) && log == old(log)
        && io.output == old(io.output)
    {
      var lexeme := ConsumeToken("var", KEYWORD);
      if lexeme.Err? {
        r := Err(lexeme.error);
      } else {
        var identifier := IDENT();
        if identifier.Err? {
          r := identifier;
        } else {
          var colon := ConsumeToken(":", SEPARATOR);
          if colon.Err? {
            r := Err(colon.error);
          } else {
            var identifierType := TYPE();
            if identifierType.Err? {
              r := identifierType;
            } else {
              var identifierValue := VARTAIL();
              if identifierValue.Err? {
                r := Err(identifierValue.error);
              } else {
                r := Ok(DeclarationNode(identifier.value, identifierType.value, identifierValue.value, Some(lexeme.value)));
              }
            }
          }
        }
      }
    }

    method ASSIGN() returns (r: Result<Node, ParseError>)
      requires Valid() && started
      modifies this, lexer, lexer.input, lexer.input.buffer, lexer.io`output
      ensures Valid() && started && Yields(r, AssignStmt(stream, old(pos))) && errored == old(errored) && log == old(log)
        && io.output == old(io.output)
    {
      var identifier := IDENT();
      if identifier.Err? {
        return identifier;
      }
      var lexeme := ConsumeToken(":=", SEPARATOR);
      if lexeme.Err? {
        return Err(lexeme.error);
      }
      var value := EXPR();
      if value.Err? {
        return value;
      }
      r := Ok(AssignmentNode(identifier.value, value.value, Some(lexeme.value)));
    }

    method READ() returns (r: Result<Node, ParseError>)
      requires Valid() && started
      modifies this, lexer, lexer.input, lexer.input.buffer, lexer.io`output
      ensures Valid() && started && Yields(r, ReadStmt(stream, old(pos))) && errored == old(errored) && log == old(log)
        && io.output == old(io.output)
    {
      var lexeme := ConsumeToken("read", KEYWORD);
      if lexeme.Err? {
        return Err(lexeme.error);
      }
      var identifier := IDENT();
      if identifier.Err? {
        return identifier;
      }
      r := Ok(ReadNode(identifier.value, Some(lexeme.value)));
    }

    /** The part of FORLOOP from the lower bound to "do". */
    method ParseLoopRange() returns (r: Result<(Node, Node), ParseError>)
      requires Valid() && started
      modifies this, lexer, lexer.input, lexer.input.buffer, lexer.io`output
      ensures Valid() && started && Yields(r, LoopRange(stream, old(pos))) && errored == old(errored) && log == old(log)
        && io.output == old(io.output)
    {
      var begin := EXPR();
      if begin.Err? {
        r := Err(begin.error);
      } else {
        var dots := ConsumeToken("..", SEPARATOR);
        if dots.Err? {
          r := Err(dots.error);
        } else {
          var end := EXPR();
          if end.Err? {
            r := Err(end.error);
          } else {
            var doKeyword := ConsumeToken("do", KEYWORD);
            if doKeyword.Err? {
              r := Err(doKeyword.error);
            } else {
              r := Ok((begin.value, end.value));
            }
          }
        }
      }
    }

    /** The part of FORLOOP from the body to "end" "for". */
    method ParseLoopBody() returns (r: Result<Node, ParseError>)
      requires Valid() && started && Logged()
      modifies this, lexer, lexer.input, lexer.input.buffer, lexer.io`output, io`output
      ensures Valid() && started && Logged() && Agrees(r, LoopBody(stream, old(pos)), old(log))
      decreases |stream| - pos, 4
    {
      ghost var body := Stmts(stream, pos);
      var statements := STMTS();
      NothingReported(body.reported);
      if statements.None? {
        r := Err(ParseError(NoStatementsInForLoop, current));
      } else {
        var endKeyword := ConsumeToken("end", KEYWORD);
        if endKeyword.Err? {
          r := Err(endKeyword.error);
        } else {
          var forKeyword := ConsumeToken("for", KEYWORD);
          if forKeyword.Err? {
            r := Err(forKeyword.error);
          } else {
            r := Ok(statements.value);
          }
        }
      }
    }

    /** The part of FORLOOP up to "in". */
    method ParseLoopHead() returns (r: Result<(Lexeme, Node), ParseError>)
      requires Valid() && started
      modifies this, lexer, lexer.input, lexer.input.buffer, lexer.io`output
      ensures Valid() && started && Yields(r, LoopHead(stream, old(pos))) && errored == old(errored) && log == old(log)
        && io.output == old(io.output)
    {
      var lexeme := ConsumeToken("for", KEYWORD);
      if lexeme.Err? {
        r := Err(lexeme.error);
      } else {
        var identifier := IDENT();
        if identifier.Err? {
          r := Err(identifier.error);
        } else {
          var inKeyword := ConsumeToken("in", KEYWORD);
          if inKeyword.Err? {
            r := Err(inKeyword.error);
          } else {
            r := Ok((lexeme.value, identifier.value));
          }
        }
      }
    }

    method FORLOOP() returns (r: Result<Node, ParseError>)
      requires Valid() && started && Logged()
      modifies this, lexer, lexer.input, lexer.input.buffer, lexer.io`output, io`output
      ensures Valid() && started && Logged() && Agrees(r, ForLoop(stream, old(pos)), old(log))
      decreases |stream| - pos, 0
    {
      NothingReported(log);
      var head := ParseLoopHead();
      if head.Err? {
        r := Err(head.error);
      } else {
        var range := ParseLoopRange();
        if range.Err? {
          r := Err(range.error);
        } else {
          var statements := ParseLoopBody();
          if statements.Err? {
            r := statements;
          } else {
            r := Ok(ForLoopNode(head.value.1, range.value.0, range.value.1, statements.value, Some(head.value.0)));
          }
        }
      }
    }

    /** The statements other than FORLOOP, as STMT's switch picks them. */
    method ParseSimpleStatement() returns (r: Result<Node, ParseError>)
      requires Valid() && started
      modifies this, lexer, lexer.input, lexer.input.buffer, lexer.io`output
      ensures Valid() && started && Yields(r, SimpleStmt(stream, old(pos))) && errored == old(errored) && log == old(log)
        && io.output == old(io.output)
    {
      if LexemeContains(KEYWORD) && current.value.token == "read" {
        r := READ();
      } else if LexemeContains(KEYWORD) && current.value.token == "assert" {
        r := ASSERT();
      } else if LexemeContains(KEYWORD) && current.value.token == "print" {
        r := PRINT();
      } else if LexemeContains(KEYWORD) && current.value.token == "var" {
        r := VAR();
      } else {
        r := ASSIGN();
      }
    }

    method STMT() returns (r: Result<Option<Node>, ParseError>)
      requires Valid() && started && Logged()
      modifies this, lexer, lexer.input, lexer.input.buffer, lexer.io`output, io`output
      ensures Valid() && started && Logged() && Agrees(r, Stmt(stream, old(pos)), old(log))
      decreases |stream| - pos, 1
    {
      StmtCases(stream, pos);
      NothingReported(log);
      var keyword := LexemeContains(KEYWORD);
      if keyword && current.value.token == "for" {
        var s := FORLOOP();
        r := if s.Err? then Err(s.error) else Ok(Some(s.value));
      } else if (keyword && current.value.token in {"read", "assert", "print", "var"})
                || LexemeContains(TokenType.IDENTIFIER) {
        var s := ParseSimpleStatement();
        r := if s.Err? then Err(s.error) else Ok(Some(s.value));
      } else {
        r := Ok(None);
      }
    }

    method STMTSTAIL() returns (r: Result<Option<Node>, ParseError>)
      requires Valid() && started && Logged()
      modifies this, lexer, lexer.input, lexer.input.buffer, lexer.io`output, io`output
      ensures Valid() && started && Logged() && Agrees(r, StmtsTail(stream, old(pos)), old(log))
      decreases |stream| - pos, 2
    {
      ghost var first := Stmt(stream, pos);
      var statement := STMT();
      if statement.Err? || statement.value.None? {
        r := statement;
      } else {
        var semicolon := ConsumeToken(";", SEPARATOR);
        if semicolon.Err? {
          NothingReported(first.reported);
          r := Err(semicolon.error);
        } else {
          ghost var rest := StmtsTail(stream, pos);
          var statementtail := STMTSTAIL();
          Sequenced(old(log), first.reported, rest.reported);
          if statementtail.Err? {
            r := Err(statementtail.error);
          } else {
            r := Ok(Some(StatementsNode(statement.value.value, statementtail.value, None)));
          }
        }
      }
    }

    /** STMTS: STMTSTAIL, and on an exception, report it and go on as ERRORTAIL. */
    method STMTS() returns (r: Option<Node>)
      requires Valid() && started && Logged()
      modifies this, lexer, lexer.input, lexer.input.buffer, lexer.io`output, io`output
      ensures Valid() && started && Logged() && Agrees(Ok(r), Stmts(stream, old(pos)), old(log))
      decreases |stream| - pos, 3
    {
      ghost var t := StmtsTail(stream, pos);
      var statements := STMTSTAIL();
      if statements.Ok? {
        r := statements.value;
      } else {
        Error(statements.error);
        ghost var rest := Stmts(stream, pos);
        r := ERRORTAIL();
        Recovered(old(log), t.reported, t.result.error, rest.reported);
      }
    }

    /** ERRORTAIL: STMTSTAIL, and on an exception, report it and start again. */
    method ERRORTAIL() returns (r: Option<Node>)
      requires Valid() && started && Logged()
      modifies this, lexer, lexer.input, lexer.input.buffer, lexer.io`output, io`output
      ensures Valid() && started && Logged() && Agrees(Ok(r), Stmts(stream, old(pos)), old(log))
      decreases |stream| - pos, 3
    {
      ghost var t := StmtsTail(stream, pos);
      var statements := STMTSTAIL();
      if statements.Ok? {
        return statements.value;
      }
      Error(statements.error);
      ghost var rest := Stmts(stream, pos);
      r := ERRORTAIL();
      Recovered(old(log), t.reported, t.result.error, rest.reported);
    }

    /** PROG: fetches the first lexeme and parses the whole program. */
    method PROG() returns (r: Result<Node, ParseError>)
      requires Valid() && !started && Logged()
      modifies this, lexer, lexer.input, lexer.input.buffer, lexer.io`output, io`output
      ensures Valid() && started && Logged() && Agrees(r, Prog(stream), old(log))
    {
      NextLexeme();
      var ast := STMTS();
      if ast.None? || current.Some? {
        r := Err(ParseError(StatementExpected, current));
      } else {
        r := Ok(ast.value);
      }
    }

    /** Parse: the tree, after reporting every error met on the way. */
    method Parse() returns (ast: Option<Node>)
      requires Valid() && !started && Logged()
      modifies this, lexer, lexer.input, lexer.input.buffer, lexer.io`output, io`output
      ensures Valid() && started && Logged() && Agrees(Ok(ast), Program(stream), old(log))
    {
      ghost var t := Prog(stream);
      var p := PROG();
      if p.Ok? {
        ast := Some(p.value);
      } else {
        Error(p.error);
        ghost var rest := Stmts(stream, pos);
        ast := ERRORTAIL();
        Recovered(old(log), t.reported, t.result.error, rest.reported);
      }
    }

    /** Error: sets errored, writes the diagnostic and skips past the next ";". */
    method Error(e: ParseError)
      requires Valid() && started && Logged()
      modifies this, lexer, lexer.input, lexer.input.buffer, lexer.io`output, io`output
      ensures Valid() && started && Logged() && errored && log == old(log) + [e]
      ensures pos == SkipPast(stream, old(pos))
    {
      errored := true;
      log := log + [e];
      io.WriteLine(ParseMessage(e));
      Logging(base, old(log), e);
      Associate(old(io.output), ParseMessage(e), "\n");
      SkipToNextStatement();
    }

    /** Skips lexemes up to and including the next ";" separator. */
    method SkipToNextStatement()
      requires Valid() && started
      modifies this, lexer, lexer.input, lexer.input.buffer, lexer.io`output
      ensures Valid() && started && pos == SkipPast(stream, old(pos))
      ensures errored == old(errored) && log == old(log) && io.output == old(io.output)
    {
      while current.Some? && !LexemeContainsToken(";", SEPARATOR)
        invariant Valid() && started && SkipPast(stream, pos) == SkipPast(stream, old(pos))
        invariant errored == old(errored) && log == old(log) && io.output == old(io.output)
        decreases |stream| - pos
      {
        NextLexeme();
      }
      NextLexeme();
    }
  }
}
