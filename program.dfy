// MainClass.Run: lex the whole source, parse it, and stop there if either
// reported an error; otherwise optionally check the tree, stop if the check
// reported an error, and run it. Every stage writes to the same StringIO.
module Programs {
  import opened Wrappers
  import opened Input
  import opened StringIOs
  import opened LexSpec
  import opened Lexing
  import opened Ast
  import opened ParseSpec
  import opened Parsing
  import opened Visiting
  import opened AnalysisSpec
  import opened Analyses
  import opened InterpreterSpec
  import opened Interpreters

  /** What a run leaves behind: the output, how much of the program's input
    * was read, and the host exception that escaped Run, if one did. */
  datatype Session = Session(output: string, cursor: nat, crash: Option<Fault>)

  /** The line Run adds after an interpreter error. */
  const Terminated := "Interpreter terminated with errors\n"

  /** Running a checked tree: the interpreter's own output, then the
    * termination line when it reported an error. */
  function Execute(tree: Node, input: string, cursor: nat, out: string): (s: Session)
    requires cursor <= |input|
    ensures cursor <= s.cursor <= |input| && out <= s.output
  {
    var ran := Interpret(tree, input, cursor, out);
    Session(ran.env.out + (if ran.result.Thrown? then Terminated else ""), ran.env.cursor,
            if ran.result.Crashed? then Some(ran.result.fault) else None)
  }

  /** What lexing and parsing leave: the tree, when neither reported an
    * error, and the output with their diagnostics. */
  datatype Front = Front(tree: Option<Node>, out: string)

  /** The lexer's diagnostics, then the parser's; a tree only when there
    * were none. */
  function Frontend(source: seq<byte>, at: nat, out: string): (f: Front)
    requires at <= |source|
    ensures out <= f.out
    ensures f.tree.Some? ==> IsStatementList(f.tree.value)
  {
    var (lexemes, lexErrors) := LexAllRun(source, at);
    LexedAreQueueable(source, at);
    var parsed := Program(lexemes);
    var diagnosed := out + Diagnostics(lexErrors) + ParseDiagnostics(parsed.reported);
    if lexErrors != [] || parsed.reported != [] then Front(None, diagnosed)
    else Front(parsed.result.value, diagnosed)
  }

  /** Frontend in terms of the lexer's and the parser's own results. */
  lemma FrontendOf(source: seq<byte>, at: nat, out: string)
    requires at <= |source|
    ensures var (lexemes, lexErrors) := LexAllRun(source, at);
            Lexed(lexemes)
            && var parsed := Program(lexemes);
               Frontend(source, at, out)
               == Front(if lexErrors != [] || parsed.reported != [] then None else parsed.result.value,
                        out + Diagnostics(lexErrors) + ParseDiagnostics(parsed.reported))
  {
    LexedAreQueueable(source, at);
  }

  /** A parsed tree: the check when it is on, and the run when the check is
    * off or reported nothing. */
  function Backend(tree: Node, semanticAnalysis: bool, input: string, cursor: nat, out: string): (s: Session)
    requires cursor <= |input|
    ensures cursor <= s.cursor <= |input| && out <= s.output
  {
    if !semanticAnalysis then Execute(tree, input, cursor, out)
    else
      var checked := Analyse(tree);
      var reported := out + Reports("Semantic analysis", checked.state.log);
      if checked.result.Crashed? then Session(reported, cursor, Some(checked.result.fault))
      else if checked.state.log != [] then Session(reported, cursor, None)
      else Execute(tree, input, cursor, reported)
  }

  /** Run on a source read from `at`, with the program's input read from
    * `cursor` and `out` already written. */
  function Pipeline(source: seq<byte>, at: nat, semanticAnalysis: bool, input: string, cursor: nat, out: string): (s: Session)
    requires at <= |source| && cursor <= |input|
    ensures cursor <= s.cursor <= |input| && out <= s.output
  {
    var front := Frontend(source, at, out);
    if front.tree.None? then Session(front.out, cursor, None)
    else Backend(front.tree.value, semanticAnalysis, input, cursor, front.out)
  }

  /** The program reads its input only when the source lexed and parsed
    * without a diagnostic and, when the check is on, checked without one. */
  lemma {:induction false} OnlyCleanProgramsRun(source: seq<byte>, at: nat, semanticAnalysis: bool, input: string, cursor: nat, out: string)
    requires at <= |source| && cursor <= |input|
    requires Pipeline(source, at, semanticAnalysis, input, cursor, out).cursor != cursor
    ensures var (lexemes, lexErrors) := LexAllRun(source, at);
            lexErrors == [] && Lexed(lexemes) && Program(lexemes).reported == []
            && (semanticAnalysis ==> Analyse(Program(lexemes).result.value.value).state.log == [])
  {
    LexedAreQueueable(source, at);
  }

  /** The check never ends a run by a host exception, and when it reports
    * nothing the run is the one without the check. */
  lemma {:induction false} CheckIsTransparent(source: seq<byte>, at: nat, input: string, cursor: nat, out: string)
    requires at <= |source| && cursor <= |input|
    ensures var s := Pipeline(source, at, true, input, cursor, out);
            s.crash.Some? ==> s.cursor != cursor || s == Pipeline(source, at, false, input, cursor, out)
    ensures var (lexemes, lexErrors) := LexAllRun(source, at);
            Lexed(lexemes) && lexErrors == [] && Program(lexemes).reported == []
            && Analyse(Program(lexemes).result.value.value).state.log == []
            ==> Pipeline(source, at, true, input, cursor, out) == Pipeline(source, at, false, input, cursor, out)
  {
    var (lexemes, lexErrors) := LexAllRun(source, at);
    LexedAreQueueable(source, at);
    var parsed := Program(lexemes);
    if lexErrors == [] && parsed.reported == [] {
      var tree := parsed.result.value.value;
      ParsedProgramsComplete(tree);
      assert Reports("Semantic analysis", []) == "";
      var diagnosed := out + Diagnostics(lexErrors) + ParseDiagnostics(parsed.reported);
      assert diagnosed + "" == diagnosed;
    }
  }

  /** Run(io, input, semanticAnalysis): the lexing and parsing half, then,
    * when neither reported an error, the checking and running half. */
  method Run(io: StringIO, input: InputBuffer, semanticAnalysis: bool) returns (crash: Option<Fault>)
    requires io.Valid() && input.Ready() && input.buffer.Length >= 2 && input.Offset() <= |input.source|
    modifies io`output, io`cursor, input, input.buffer
    ensures io.Valid()
    ensures Session(io.output, io.cursor, crash)
            == Pipeline(input.source, old(input.Offset()), semanticAnalysis, io.input, old(io.cursor), old(io.output))
  {
    var ast := LexAndParse(io, input);
    if ast.None? {
      return None;
    }
    crash := CheckAndRun(io, ast.value, semanticAnalysis);
  }

  /** The lexer reads the whole source before the parser starts; the tree
    * is returned only when neither of them reported an error. */
  method LexAndParse(io: StringIO, input: InputBuffer) returns (tree: Option<Node>)
    requires input.Ready() && input.buffer.Length >= 2 && input.Offset() <= |input.source|
    modifies io`output, input, input.buffer
    ensures Front(tree, io.output) == Frontend(input.source, old(input.Offset()), old(io.output))
  {
    ghost var run := LexAllRun(input.source, input.Offset());
    ghost var out := io.output;
    var lexer := new Lexer(input, io);
    lexer.LexAll();
    assert lexer.lexemes == run.0 && io.output == out + Diagnostics(run.1) && lexer.errored == (run.1 != []);
    assert LexAllRun(input.source, lexer.At()) == ([], []);
    assert lexer.Upcoming() == run.0 && lexer.Unreported() == [];
    LexedAreQueueable(input.source, old(input.Offset()));
    ghost var parsed := Program(run.0);
    var parser := new Parser(lexer, io);
    var ast := parser.Parse();
    assert parser.log == parsed.reported && ast == parsed.result.value;
    assert io.output == out + Diagnostics(run.1) + ParseDiagnostics(parsed.reported);
    FrontendOf(input.source, old(input.Offset()), out);
    if lexer.errored || parser.errored {
      return None;
    }
    return ast;
  }

  /** The check, when it is on, stops the run on a reported error or a host
    * exception; the interpreter then runs, and its errors add a last line. */
  method CheckAndRun(io: StringIO, tree: Node, semanticAnalysis: bool) returns (crash: Option<Fault>)
    requires io.Valid()
    modifies io`output, io`cursor
    ensures io.Valid()
    ensures Session(io.output, io.cursor, crash) == Backend(tree, semanticAnalysis, io.input, old(io.cursor), old(io.output))
  {
    ghost var back := Backend(tree, semanticAnalysis, io.input, io.cursor, io.output);
    ghost var out := io.output;
    if semanticAnalysis {
      ghost var checked := Analyse(tree);
      var analysis := new Analysis(tree, io);
      var failure := analysis.Visit();
      assert io.output == out + Reports("Semantic analysis", checked.state.log);
      if failure.Some? {
        assert back == Session(io.output, io.cursor, failure);
        return failure;
      }
      if analysis.errored {
        assert back == Session(io.output, io.cursor, None);
        return None;
      }
      assert back == Execute(tree, io.input, io.cursor, io.output);
    } else {
      assert back == Execute(tree, io.input, io.cursor, io.output);
    }
    crash := Execution(io, tree);
  }

  /** The interpreter runs the tree, and an error it reported adds a last line. */
  method Execution(io: StringIO, tree: Node) returns (crash: Option<Fault>)
    requires io.Valid()
    modifies io`output, io`cursor
    ensures io.Valid()
    ensures Session(io.output, io.cursor, crash) == Execute(tree, io.input, old(io.cursor), old(io.output))
  {
    ghost var ran := Interpret(tree, io.input, io.cursor, io.output);
    var interpreter := new Interpreter(tree, io);
    crash := interpreter.Visit();
    if crash.None? && interpreter.errored {
      io.WriteLine("Interpreter terminated with errors");
    }
    assert io.output == ran.env.out + (if ran.result.Thrown? then Terminated else "");
  }
}
