// The semantic analysis pass: a visitor whose handlers rebind `variables` in
// place, lock a for loop's control while its body is checked, and catch and
// report each statement's exception so that checking goes on. Every handler
// is proved to do what the matching AnalysisSpec function says.
module Analyses {
  import opened Wrappers
  import opened Ast
  import opened Visiting
  import opened StringIOs
  import opened AnalysisSpec

  class Analysis {
    const name: string
    const ast: Node
    const io: StringIO
    var errored: bool
    var variables: Table
    /** The exceptions PrintError has reported, in order. */
    ghost var log: seq<VisitorException>
    /** What io held before the pass wrote anything. */
    ghost const base: string

    ghost function State(): AState
      reads this
    {
      AState(variables, log)
    }

    /** The output holds exactly the reports, and `errored` says whether there
      * are any. */
    ghost predicate Logged()
      reads this, io
    {
      io.output == base + Reports(name, log) && errored == (log != [])
    }

    /** A handler's outcome and the state it leaves are those the spec gives. */
    ghost predicate Agrees(r: Outcome<Option<Node>>, c: Checked)
      reads this
    {
      r == c.result && State() == c.state
    }

    constructor (ast: Node, io: StringIO)
      ensures this.ast == ast && this.io == io && name == "Semantic analysis"
      ensures State() == AState(map[], []) && base == io.output && Logged()
    {
      name := "Semantic analysis";
      this.ast := ast;
      this.io := io;
      errored := false;
      variables := map[];
      log := [];
      base := io.output;
    }

    /** PrintError: sets `errored` and writes the two report lines. */
    method PrintError(e: VisitorException)
      requires Logged()
      modifies this`errored, this`log, io`output
      ensures Logged() && log == old(log) + [e]
    {
      errored := true;
      WriteReport(io, name, e);
      Reporting(base, name, log, e);
      log := log + [e];
    }

    /** Visit(node): the handler registered for the node's tag. */
    method VisitNode(n: Node) returns (r: Outcome<Option<Node>>)
      requires Logged()
      modifies this`errored, this`variables, this`log, io`output
      decreases n, 1
      ensures Logged() && Agrees(r, Check(n, old(State())))
    {
      match n {
        case NumberNode(_, _) => r := Done(Some(n));
        case StringNode(_, _) => r := Done(Some(n));
        case BooleanNode(_, _) => r := Done(Some(n));
        case TypeNameNode(_, _) => r := Done(Some(n));
        case IdentifierNode(_, _) => r := VisitIdentifier(n);
        case UnaryOperatorNode(_, _, _) => r := VisitUnary(n);
        case ExpressionNode(_, _, _) => r := VisitExpression(n);
        case PrintNode(_, _) => r := VisitPrint(n);
        case StatementsNode(_, _, _) => r := VisitStatements(n);
        case AssertNode(_, _) => r := VisitAssert(n);
        case ReadNode(_, _) => r := VisitRead(n);
        case DeclarationNode(_, _, _, _) => r := VisitDeclaration(n);
        case ForLoopNode(_, _, _, _, _) => r := VisitForLoop(n);
        case AssignmentNode(_, _, _) => r := VisitAssignment(n);
        case BinaryOperatorNode(_, _, _) => r := Crashed(MissingHandler(BINARYOPERATOR));
      }
    }

    method VisitIdentifier(n: Node) returns (r: Outcome<Option<Node>>)
      requires n.IdentifierNode? && Logged()
      modifies this`errored, this`variables, this`log, io`output
      decreases n, 0
      ensures Logged() && Agrees(r, Check(n, old(State())))
    {
      var v := GetVariable(variables, n, None);
      if !v.Done? {
        r := v.PropagateFailure();
      } else {
        r := Done(Some(v.value.value));
      }
    }

    method VisitUnary(n: Node) returns (r: Outcome<Option<Node>>)
      requires n.UnaryOperatorNode? && Logged()
      modifies this`errored, this`variables, this`log, io`output
      decreases n, 0
      ensures Logged() && Agrees(r, Check(n, old(State())))
    {
      var visited := VisitNode(n.operand);
      var operand := VisitedNotNull(visited, n.operand);
      if !operand.Done? {
        r := operand.PropagateFailure();
      } else if operand.value.BooleanNode? && n.unaryOperator == "!" {
        r := Done(Some(BooleanNode(false, None)));
      } else {
        r := Thrown(UnaryError(n, operand.value));
      }
    }

    method VisitExpression(n: Node) returns (r: Outcome<Option<Node>>)
      requires n.ExpressionNode? && Logged()
      modifies this`errored, this`variables, this`log, io`output
      decreases n, 0
      ensures Logged() && Agrees(r, Check(n, old(State())))
    {
      if n.binaryOperation.None? {
        var visited := VisitNode(n.leftOperand);
        var left := VisitedNotNull(visited, n.leftOperand);
        r := if left.Done? then Done(Some(left.value)) else left.PropagateFailure();
        return;
      }
      var checked := As(n.binaryOperation, Concrete(BINARYOPERATOR), BINARYOPERATOR, None);
      if !checked.Done? {
        r := checked.PropagateFailure();
        return;
      }
      var b := checked.value;
      var visitedLeft := VisitNode(n.leftOperand);
      var left := VisitedNotNull(visitedLeft, n.leftOperand);
      if !left.Done? {
        r := left.PropagateFailure();
        return;
      }
      var visitedRight := VisitNode(b.rightOperand);
      var right := VisitedNotNull(visitedRight, b.rightOperand);
      if !right.Done? {
        r := right.PropagateFailure();
        return;
      }
      r := BinaryPlaceholder(b, left.value, right.value);
    }

    method VisitPrint(n: Node) returns (r: Outcome<Option<Node>>)
      requires n.PrintNode? && Logged()
      modifies this`errored, this`variables, this`log, io`output
      decreases n, 0
      ensures Logged() && Agrees(r, Check(n, old(State())))
    {
      var visited := VisitNode(n.printedValue);
      var printed := VisitedAs(visited, ValueClass, VARIABLE, n.printedValue);
      r := if printed.Done? then Done(None) else printed.PropagateFailure();
    }

    /** Each of the statement and the rest of the list in its own try: an
      * exception is reported and checking goes on. */
    method VisitStatements(n: Node) returns (r: Outcome<Option<Node>>)
      requires n.StatementsNode? && Logged()
      modifies this`errored, this`variables, this`log, io`output
      decreases n, 0
      ensures Logged() && Agrees(r, Check(n, old(State())))
    {
      var visited := VisitNode(n.statement);
      var first := VisitedNull(visited, Some(n.statement));
      if first.Crashed? {
        r := Crashed(first.fault);
        return;
      }
      if first.Thrown? {
        PrintError(first.e);
      }
      if n.statementtail.Some? {
        var visitedTail := VisitNode(n.statementtail.value);
        var rest := VisitedNull(visitedTail, n.statementtail);
        if rest.Crashed? {
          r := Crashed(rest.fault);
          return;
        }
        if rest.Thrown? {
          PrintError(rest.e);
        }
      }
      r := Done(None);
    }

    method VisitAssert(n: Node) returns (r: Outcome<Option<Node>>)
      requires n.AssertNode? && Logged()
      modifies this`errored, this`variables, this`log, io`output
      decreases n, 0
      ensures Logged() && Agrees(r, Check(n, old(State())))
    {
      var visited := VisitNode(n.condition);
      var condition := VisitedAs(visited, Concrete(BOOLEAN), BOOLEAN, n.condition);
      r := if condition.Done? then Done(None) else condition.PropagateFailure();
    }

    method VisitRead(n: Node) returns (r: Outcome<Option<Node>>)
      requires n.ReadNode? && Logged()
      modifies this`errored, this`variables, this`log, io`output
      decreases n, 0
      ensures Logged() && Agrees(r, Check(n, old(State())))
    {
      var id := As(Some(n.identifierToRead), Concrete(IDENTIFIER), IDENTIFIER, None);
      if !id.Done? {
        r := id.PropagateFailure();
        return;
      }
      var identifier := id.value;
      var variable := ExpectMutable(variables, identifier, Some(n.identifierToRead));
      if !variable.Done? {
        r := variable.PropagateFailure();
        return;
      }
      var variableType := Kind(variable.value.value);
      if variableType == NUMBER {
        variables := variables[identifier.name := Variable(NumberNode(0, None), false)];
      } else if variableType == STRING {
        variables := variables[identifier.name := Variable(StringNode("", None), false)];
      } else {
        r := Thrown(VisitorException("variable " + identifier.name + " has unsupported type " + NodeTypeName(variableType)
                                     + " to read from input", n.identifierToRead));
        return;
      }
      r := Done(None);
    }

    method VisitDeclaration(n: Node) returns (r: Outcome<Option<Node>>)
      requires n.DeclarationNode? && Logged()
      modifies this`errored, this`variables, this`log, io`output
      decreases n, 0
      ensures Logged() && Agrees(r, Check(n, old(State())))
    {
      var typeName := As(Some(n.identifierType), Concrete(TYPENAME), TYPENAME, None);
      if !typeName.Done? {
        r := typeName.PropagateFailure();
        return;
      }
      var id := As(Some(n.identifier), Concrete(IDENTIFIER), IDENTIFIER, None);
      if !id.Done? {
        r := id.PropagateFailure();
        return;
      }
      var identifier := id.value;
      var variableType := TypeOfName(typeName.value.typeName);
      if variableType.None? {
        r := Thrown(VisitorException("unknown identifier type name " + typeName.value.typeName, n.identifierType));
        return;
      }
      if identifier.name in variables {
        r := Thrown(VisitorException("variable " + identifier.name + " already defined", n.identifier));
        return;
      }
      if n.identifierValue.None? {
        variables := variables[identifier.name := Variable(Zero(variableType.value), false)];
      } else {
        var visited := VisitNode(n.identifierValue.value);
        if !visited.Done? {
          r := visited;
          return;
        }
        var value := Assignable(visited.value, variableType.value, identifier.name, n.identifier);
        if !value.Done? {
          r := value.PropagateFailure();
          return;
        }
        variables := variables[identifier.name := Variable(value.value, false)];
      }
      r := Done(None);
    }

    /** The control is locked while the body is checked once, then unlocked. */
    method VisitForLoop(n: Node) returns (r: Outcome<Option<Node>>)
      requires n.ForLoopNode? && Logged()
      modifies this`errored, this`variables, this`log, io`output
      decreases n, 0
      ensures Logged() && Agrees(r, Check(n, old(State())))
    {
      var id := As(Some(n.loopVariableIdentifier), Concrete(IDENTIFIER), IDENTIFIER, None);
      if !id.Done? {
        r := id.PropagateFailure();
        return;
      }
      var identifier := id.value;
      var control := ExpectMutable(variables, identifier, Some(n.loopVariableIdentifier));
      if !control.Done? {
        r := control.PropagateFailure();
        return;
      }
      var number := Expect(Some(control.value.value), Concrete(NUMBER), NUMBER, Some(n.loopVariableIdentifier));
      if !number.Done? {
        r := number.PropagateFailure();
        return;
      }
      var visitedBegin := VisitNode(n.beginValue);
      var begin := VisitedAs(visitedBegin, Concrete(NUMBER), NUMBER, n.beginValue);
      if !begin.Done? {
        r := begin.PropagateFailure();
        return;
      }
      var visitedEnd := VisitNode(n.endValue);
      var end := VisitedAs(visitedEnd, Concrete(NUMBER), NUMBER, n.endValue);
      if !end.Done? {
        r := end.PropagateFailure();
        return;
      }
      variables := variables[identifier.name := control.value.(immutable := true)];
      var visitedBody := VisitNode(n.statements);
      var body := VisitedNull(visitedBody, Some(n.statements));
      if !body.Done? {
        r := body.PropagateFailure();
        return;
      }
      variables := variables[identifier.name := control.value.(immutable := false)];
      r := Done(None);
    }

    method VisitAssignment(n: Node) returns (r: Outcome<Option<Node>>)
      requires n.AssignmentNode? && Logged()
      modifies this`errored, this`variables, this`log, io`output
      decreases n, 0
      ensures Logged() && Agrees(r, Check(n, old(State())))
    {
      var id := As(Some(n.identifier), Concrete(IDENTIFIER), IDENTIFIER, None);
      if !id.Done? {
        r := id.PropagateFailure();
        return;
      }
      var identifier := id.value;
      var variable := ExpectMutable(variables, identifier, Some(n.identifier));
      if !variable.Done? {
        r := variable.PropagateFailure();
        return;
      }
      var visited := VisitNode(n.value);
      if !visited.Done? {
        r := visited;
        return;
      }
      var value := Assignable(visited.value, Kind(variable.value.value), identifier.name, n);
      if !value.Done? {
        r := value.PropagateFailure();
        return;
      }
      variables := variables[identifier.name := Variable(value.value, false)];
      r := Done(None);
    }

    /** Visit(): checks the whole tree; an exception that escapes the root is
      * reported, and a host exception is returned. */
    method Visit() returns (crash: Option<Fault>)
      requires Logged() && State() == AState(map[], [])
      modifies this`errored, this`variables, this`log, io`output
      ensures Logged() && State() == Analyse(ast).state
      ensures crash == (if Analyse(ast).result.Crashed? then Some(Analyse(ast).result.fault) else None)
    {
      var visited := VisitNode(ast);
      var result := VisitedNull(visited, None);
      crash := None;
      if result.Crashed? {
        crash := Some(result.fault);
      } else if result.Thrown? {
        PrintError(result.e);
      }
    }
  }
}
