// The interpreter: a visitor whose handlers rebind `variables` in place, read
// the program's input through the StringIO and write to its output. Any
// exception ends the run; Visit() reports the one that reaches the root.
// Every handler is proved to do what the matching InterpreterSpec function
// says.
module Interpreters {
  import opened Wrappers
  import opened Int32
  import opened Strings
  import opened Ast
  import opened Visiting
  import opened StringIOs
  import opened Printing
  import opened InterpreterSpec

  class Interpreter {
    const name: string := "Interpreter"
    const ast: Node
    const io: StringIO
    var errored: bool
    var variables: Table

    /** The table, the input cursor and the output, as the spec threads them. */
    ghost function State(): Env
      reads this, io
    {
      Env(variables, io.cursor, io.output)
    }

    /** A handler's outcome and the state it leaves are those the spec gives. */
    ghost predicate Agrees(r: Outcome<Option<Node>>, ran: Ran)
      reads this, io
    {
      r == ran.result && State() == ran.env
    }

    constructor (ast: Node, io: StringIO)
      ensures this.ast == ast && this.io == io
      ensures variables == map[] && !errored
    {
      this.ast := ast;
      this.io := io;
      errored := false;
      variables := map[];
    }

    /** ReadInput: reads characters until white space or the end of the
      * input; the white space is consumed and every character read is echoed. */
    method ReadInput() returns (token: string)
      requires io.Valid()
      modifies io`output, io`cursor
      ensures io.Valid()
      ensures (token, io.cursor) == ReadToken(io.input, old(io.cursor))
      ensures io.output == old(io.output) + Echo(io.input, old(io.cursor), io.cursor)
    {
      ghost var start := io.cursor;
      var c := io.Read();
      token := "";
      // p is where the character in hand was read from; |input| once none was.
      ghost var p := if c < 0 then |io.input| else io.cursor - 1;
      assert token + ReadToken(io.input, p).0 == ReadToken(io.input, p).0;
      while c >= 0 && !IsWhiteSpace(c as char)
        invariant io.Valid() && start <= p <= io.cursor <= |io.input|
        invariant c < 0 ==> p == io.cursor == |io.input|
        invariant c >= 0 ==> p == io.cursor - 1 && c == io.input[p] as int
        invariant io.output == old(io.output) + io.input[start..io.cursor]
        invariant ReadToken(io.input, start) == (token + ReadToken(io.input, p).0, ReadToken(io.input, p).1)
        decreases |io.input| - p
      {
        LexSpec.Associate(token, [c as char], ReadToken(io.input, p + 1).0);
        token := token + [c as char];
        ghost var at := io.cursor;
        c := io.Read();
        p := p + 1;
        if at < |io.input| {
          assert io.input[start..at + 1] == io.input[start..at] + [io.input[at]];
          LexSpec.Associate(old(io.output), io.input[start..at], [io.input[at]]);
        }
      }
      assert ReadToken(io.input, p) == ("", io.cursor);
      assert token + "" == token;
    }

    /** The retry loop of Read on a number: a token that does not parse is
      * skipped, one outside int32 escapes, and a loop that cannot move the
      * cursor any more would never end. */
    method ReadNumberInput() returns (v: Outcome<int32>)
      requires io.Valid()
      modifies io`output, io`cursor
      ensures io.Valid()
      ensures Reading(v, io.cursor) == ReadNumber(io.input, old(io.cursor))
      ensures io.output == old(io.output) + Echo(io.input, old(io.cursor), io.cursor)
    {
      ghost var first := io.cursor;
      ghost var goal := ReadNumber(io.input, first);
      ghost var echoed := old(io.output);
      var round := ReadRound();
      while round.None?
        invariant io.Valid() && first <= io.cursor
        invariant round.None? ==> ReadNumber(io.input, io.cursor) == goal
        invariant round.Some? ==> Reading(round.value, io.cursor) == goal
        invariant io.output == echoed + Echo(io.input, first, io.cursor)
        decreases |io.input| - io.cursor + (if round.None? then 1 else 0)
      {
        ghost var start := io.cursor;
        round := ReadRound();
        EchoSplit(io.input, first, start, io.cursor);
        LexSpec.Associate(echoed, Echo(io.input, first, start), Echo(io.input, start, io.cursor));
      }
      v := round.value;
    }

    /** One pass of the retry loop: the token read either decides the reading
      * (None when it was malformed and the loop goes on). */
    method ReadRound() returns (v: Option<Outcome<int32>>)
      requires io.Valid()
      modifies io`output, io`cursor
      ensures io.Valid() && old(io.cursor) <= io.cursor
      ensures io.output == old(io.output) + Echo(io.input, old(io.cursor), io.cursor)
      ensures v.Some? ==> Reading(v.value, io.cursor) == ReadNumber(io.input, old(io.cursor))
      ensures v.None? ==> old(io.cursor) < io.cursor && ReadNumber(io.input, old(io.cursor)) == ReadNumber(io.input, io.cursor)
    {
      var start := io.cursor;
      var token := ReadInput();
      ReadNumberRound(io.input, start, token, io.cursor);
      var parsed := ParseInt32(token);
      if parsed.Parsed? {
        v := Some(Done(parsed.value));
      } else if parsed.OverflowFailure? {
        v := Some(Crashed(InputOverflow));
      } else if io.cursor == start {
        v := Some(Crashed(Diverges));
      } else {
        v := None;
      }
    }

    /** Visit(node): the handler registered for the node's tag. */
    method VisitNode(n: Node) returns (r: Outcome<Option<Node>>)
      requires io.Valid()
      modifies this`variables, io`output, io`cursor
      decreases n, 2
      ensures io.Valid() && Agrees(r, Exec(n, old(State()), io.input))
    {
      Dispatch(n, State(), io.input);
      match n {
        case NumberNode(_, _) => r := Done(Some(n));
        case StringNode(_, _) => r := Done(Some(n));
        case BooleanNode(_, _) => r := Done(Some(n));
        case TypeNameNode(_, _) => r := Done(Some(n));
        case IdentifierNode(_, _) => r := VisitIdentifier(n);
        case UnaryOperatorNode(_, _, _) => r := VisitUnary(n);
        case ExpressionNode(_, _, _) => r := VisitExpression(n);
        case PrintNode(_, _) => r := VisitPrint(n);
        case StatementsNode(_, _, _) => r := VisitStatements(n);
        case AssertNode(_, _) => r := VisitAssert(n);
        case ReadNode(_, _) => r := VisitRead(n);
        case DeclarationNode(_, _, _, _) => r := VisitDeclaration(n);
        case ForLoopNode(_, _, _, _, _) => r := VisitForLoop(n);
        case AssignmentNode(_, _, _) => r := VisitAssignment(n);
        case BinaryOperatorNode(_, _, _) => r := Crashed(MissingHandler(BINARYOPERATOR));
      }
    }

    /** An identifier evaluates to its binding's value. */
    method VisitIdentifier(n: Node) returns (r: Outcome<Option<Node>>)
      requires n.IdentifierNode? && io.Valid()
      ensures Agrees(r, Exec(n, State(), io.input))
    {
      var v := GetVariable(variables, n, None);
      r := if v.Done? then Done(Some(v.value.value)) else v.PropagateFailure();
    }

    method VisitUnary(n: Node) returns (r: Outcome<Option<Node>>)
      requires n.UnaryOperatorNode? && io.Valid()
      modifies this`variables, io`output, io`cursor
      decreases n, 1
      ensures io.Valid() && Agrees(r, ExecUnary(n, old(State()), io.input))
    {
      var visited := VisitNode(n.operand);
      var operand := VisitedNotNull(visited, n.operand);
      if !operand.Done? {
        r := operand.PropagateFailure();
      } else if operand.value.BooleanNode? && n.unaryOperator == "!" {
        r := Done(Some(BooleanNode(!operand.value.truth, None)));
      } else {
        r := Thrown(UnaryError(n, operand.value));
      }
    }

    method VisitExpression(n: Node) returns (r: Outcome<Option<Node>>)
      requires n.ExpressionNode? && io.Valid()
      modifies this`variables, io`output, io`cursor
      decreases n, 1
      ensures io.Valid() && Agrees(r, ExecExpression(n, old(State()), io.input))
    {
      if n.binaryOperation.None? {
        var visited := VisitNode(n.leftOperand);
        var left := VisitedNotNull(visited, n.leftOperand);
        r := if left.Done? then Done(Some(left.value)) else left.PropagateFailure();
        return;
      }
      var checked := As(n.binaryOperation, Concrete(BINARYOPERATOR), BINARYOPERATOR, None);
      if !checked.Done? {
        r := checked.PropagateFailure();
        return;
      }
      var b := checked.value;
      var visitedLeft := VisitNode(n.leftOperand);
      var left := VisitedNotNull(visitedLeft, n.leftOperand);
      if !left.Done? {
        r := left.PropagateFailure();
        return;
      }
      var visitedRight := VisitNode(b.rightOperand);
      var right := VisitedNotNull(visitedRight, b.rightOperand);
      if !right.Done? {
        r := right.PropagateFailure();
        return;
      }
      r := Apply(b, left.value, right.value);
    }

    method VisitPrint(n: Node) returns (r: Outcome<Option<Node>>)
      requires n.PrintNode? && io.Valid()
      modifies this`variables, io`output, io`cursor
      decreases n, 1
      ensures io.Valid() && Agrees(r, ExecPrint(n, old(State()), io.input))
    {
      var visited := VisitNode(n.printedValue);
      var printed := VisitedAs(visited, ValueClass, VARIABLE, n.printedValue);
      if !printed.Done? {
        r := printed.PropagateFailure();
        return;
      }
      io.Write(Text(printed.value));
      r := Done(None);
    }

    method VisitStatements(n: Node) returns (r: Outcome<Option<Node>>)
      requires n.StatementsNode? && io.Valid()
      modifies this`variables, io`output, io`cursor
      decreases n, 1
      ensures io.Valid() && Agrees(r, ExecStatements(n, old(State()), io.input))
    {
      var visited := VisitNode(n.statement);
      var first := VisitedNull(visited, Some(n.statement));
      if !first.Done? {
        r := first.PropagateFailure();
        return;
      }
      if n.statementtail.Some? {
        var visitedTail := VisitNode(n.statementtail.value);
        var rest := VisitedNull(visitedTail, n.statementtail);
        if !rest.Done? {
          r := rest.PropagateFailure();
          return;
        }
      }
      r := Done(None);
    }

    /** A false condition is rendered by an ExpressionPrinter writing to a
      * fresh StringIO, and the run ends with the rendering in the message. */
    method VisitAssert(n: Node) returns (r: Outcome<Option<Node>>)
      requires n.AssertNode? && io.Valid()
      modifies this`variables, io`output, io`cursor
      decreases n, 1
      ensures io.Valid() && Agrees(r, ExecAssert(n, old(State()), io.input))
    {
      var visited := VisitNode(n.condition);
      var condition := VisitedAs(visited, Concrete(BOOLEAN), BOOLEAN, n.condition);
      if !condition.Done? {
        r := condition.PropagateFailure();
        return;
      }
      if condition.value.truth {
        r := Done(None);
        return;
      }
      var stringIO := new StringIO("");
      var printer := new ExpressionPrinter(n.condition, stringIO);
      var crash := printer.Visit();
      if crash.Some? {
        r := Crashed(crash.value);
      } else if printer.errored {
        r := Thrown(VisitorException("assertion failed", n));
      } else {
        assert stringIO.output == Render(n.condition).text;
        r := Thrown(VisitorException("assertion failed with condition " + stringIO.output, n));
      }
    }

    method VisitRead(n: Node) returns (r: Outcome<Option<Node>>)
      requires n.ReadNode? && io.Valid()
      modifies this`variables, io`output, io`cursor
      decreases n, 1
      ensures io.Valid() && Agrees(r, ExecRead(n, old(State()), io.input))
    {
      var id := As(Some(n.identifierToRead), Concrete(IDENTIFIER), IDENTIFIER, None);
      if !id.Done? {
        r := id.PropagateFailure();
        return;
      }
      var identifier := id.value;
      var variable := ExpectMutable(variables, identifier, Some(n.identifierToRead));
      if !variable.Done? {
        r := variable.PropagateFailure();
        return;
      }
      var variableType := Kind(variable.value.value);
      if variableType == NUMBER {
        var number := ReadNumberInput();
        if !number.Done? {
          r := number.PropagateFailure();
          return;
        }
        variables := variables[identifier.name := Variable(NumberNode(number.value, None), false)];
      } else if variableType == STRING {
        var token := ReadInput();
        variables := variables[identifier.name := Variable(StringNode(token, None), false)];
      } else {
        r := Thrown(VisitorException("variable " + identifier.name + " has unsupported type " + NodeTypeName(variableType)
                                     + " to read from input", n.identifierToRead));
        return;
      }
      r := Done(None);
    }

    method VisitDeclaration(n: Node) returns (r: Outcome<Option<Node>>)
      requires n.DeclarationNode? && io.Valid()
      modifies this`variables, io`output, io`cursor
      decreases n, 1
      ensures io.Valid() && Agrees(r, ExecDeclaration(n, old(State()), io.input))
    {
      var typeName := As(Some(n.identifierType), Concrete(TYPENAME), TYPENAME, None);
      if !typeName.Done? {
        r := typeName.PropagateFailure();
        return;
      }
      var id := As(Some(n.identifier), Concrete(IDENTIFIER), IDENTIFIER, None);
      if !id.Done? {
        r := id.PropagateFailure();
        return;
      }
      var identifier := id.value;
      var variableType := TypeOfName(typeName.value.typeName);
      if variableType.None? {
        r := Thrown(VisitorException("unknown identifier type name " + typeName.value.typeName, n.identifierType));
        return;
      }
      if identifier.name in variables {
        r := Thrown(VisitorException("variable " + identifier.name + " already defined", n.identifier));
        return;
      }
      if n.identifierValue.None? {
        variables := variables[identifier.name := Variable(Zero(variableType.value), false)];
      } else {
        var visited := VisitNode(n.identifierValue.value);
        if !visited.Done? {
          r := visited;
          return;
        }
        var value := Assignable(visited.value, variableType.value, identifier.name, n.identifier);
        if !value.Done? {
          r := value.PropagateFailure();
          return;
        }
        variables := variables[identifier.name := Variable(value.value, false)];
      }
      r := Done(None);
    }

    /** The control is rebound to an immutable Number(i) for each pass of
      * `for (; i <= end; ++i)`, and to a mutable one past the last pass. */
    method VisitForLoop(n: Node) returns (r: Outcome<Option<Node>>)
      requires n.ForLoopNode? && io.Valid()
      modifies this`variables, io`output, io`cursor
      decreases n, 1
      ensures io.Valid() && Agrees(r, ExecForLoop(n, old(State()), io.input))
    {
      var id := As(Some(n.loopVariableIdentifier), Concrete(IDENTIFIER), IDENTIFIER, None);
      if !id.Done? {
        r := id.PropagateFailure();
        return;
      }
      var identifier := id.value;
      var control := ExpectMutable(variables, identifier, Some(n.loopVariableIdentifier));
      if !control.Done? {
        r := control.PropagateFailure();
        return;
      }
      var number := Expect(Some(control.value.value), Concrete(NUMBER), NUMBER, Some(n.loopVariableIdentifier));
      if !number.Done? {
        r := number.PropagateFailure();
        return;
      }
      var visitedBegin := VisitNode(n.beginValue);
      var begin := VisitedAs(visitedBegin, Concrete(NUMBER), NUMBER, n.beginValue);
      if !begin.Done? {
        r := begin.PropagateFailure();
        return;
      }
      var visitedEnd := VisitNode(n.endValue);
      var end := VisitedAs(visitedEnd, Concrete(NUMBER), NUMBER, n.endValue);
      if !end.Done? {
        r := end.PropagateFailure();
        return;
      }
      r := Loop(n, identifier, begin.value.number as int, end.value.number);
    }

    /** The counting loop `for (int i = begin; i <= end; ++i)`, with the
      * control bound to an immutable Number(i) during each pass. */
    method Loop(n: Node, identifier: Node, begin: int, end: int32) returns (r: Outcome<Option<Node>>)
      requires n.ForLoopNode? && identifier.IdentifierNode? && Min <= begin <= Max && io.Valid()
      modifies this`variables, io`output, io`cursor
      decreases n, 0
      ensures io.Valid() && Agrees(r, Iterate(n, identifier, begin, end, WrapLaps, old(State()), io.input))
    {
      ghost var loop := Iterate(n, identifier, begin, end, WrapLaps, State(), io.input);
      var i := begin;
      var laps := WrapLaps;
      while i <= end as int
        invariant io.Valid() && Min <= i <= Max
        invariant Iterate(n, identifier, i, end, laps, State(), io.input) == loop
        decreases laps, end as int - i + 1
      {
        variables := variables[identifier.name := Variable(NumberNode(i as int32, identifier.lexeme), true)];
        var visitedBody := VisitNode(n.statements);
        var pass := VisitedNull(visitedBody, Some(n.statements));
        if !pass.Done? {
          r := pass.PropagateFailure();
          return;
        }
        if i < Max {
          i := i + 1;
        } else if laps == 0 {
          r := Crashed(CounterWraps);
          return;
        } else {
          // `++i` wraps int.MaxValue round to int.MinValue
          i := Min;
          laps := laps - 1;
        }
      }
      variables := variables[identifier.name := Variable(NumberNode(i as int32, identifier.lexeme), false)];
      r := Done(None);
    }

    method VisitAssignment(n: Node) returns (r: Outcome<Option<Node>>)
      requires n.AssignmentNode? && io.Valid()
      modifies this`variables, io`output, io`cursor
      decreases n, 1
      ensures io.Valid() && Agrees(r, ExecAssignment(n, old(State()), io.input))
    {
      var id := As(Some(n.identifier), Concrete(IDENTIFIER), IDENTIFIER, None);
      if !id.Done? {
        r := id.PropagateFailure();
        return;
      }
      var identifier := id.value;
      var variable := ExpectMutable(variables, identifier, Some(n.identifier));
      if !variable.Done? {
        r := variable.PropagateFailure();
        return;
      }
      var visited := VisitNode(n.value);
      if !visited.Done? {
        r := visited;
        return;
      }
      var value := Assignable(visited.value, Kind(variable.value.value), identifier.name, n);
      if !value.Done? {
        r := value.PropagateFailure();
        return;
      }
      variables := variables[identifier.name := Variable(value.value, false)];
      r := Done(None);
    }

    /** Visit(): runs the tree; an exception that escapes the root is
      * reported and sets `errored`, and a host exception is returned. */
    method Visit() returns (crash: Option<Fault>)
      requires io.Valid() && variables == map[] && !errored
      modifies this`errored, this`variables, io`output, io`cursor
      ensures var ran := Interpret(ast, io.input, old(io.cursor), old(io.output));
              io.Valid() && State() == ran.env && errored == ran.result.Thrown?
              && crash == (if ran.result.Crashed? then Some(ran.result.fault) else None)
    {
      ghost var spec := Interpret(ast, io.input, io.cursor, io.output);
      ghost var ran := Exec(ast, State(), io.input);
      var visited := VisitNode(ast);
      var result := VisitedNull(visited, None);
      assert ran.result == visited && ran.env == State();
      crash := None;
      if result.Crashed? {
        assert spec == Ran(Crashed(result.fault), ran.env);
        crash := Some(result.fault);
      } else if result.Thrown? {
        assert spec == Ran(Thrown(result.e), ran.env.(out := ran.env.out + ErrorReport(name, result.e)));
        errored := true;
        WriteReport(io, name, result.e);
      } else {
        assert spec == Ran(Done(None), ran.env);
      }
    }
  }
}
