// What the semantic analysis computes, as functions: one per handler the
// Analysis constructor registers. Each takes the binding table and the
// exceptions reported so far, and gives the handler's outcome and the new
// table and reports. Results are placeholder values of the right kind.
module AnalysisSpec {
  import opened Wrappers
  import opened Ast
  import opened Visiting

  /** What the analysis carries from node to node: the binding table and the
    * exceptions the Statements handler (or the top-level Visit) reported. */
  datatype AState = AState(vars: Table, log: seq<VisitorException>)

  datatype Checked = Checked(result: Outcome<Option<Node>>, state: AState)

  /** Visit(node): the handler registered for the node's tag. */
  function Check(n: Node, s: AState): Checked
    decreases n, 1
  {
    match n
    case NumberNode(_, _) => Checked(Done(Some(n)), s)
    case StringNode(_, _) => Checked(Done(Some(n)), s)
    case BooleanNode(_, _) => Checked(Done(Some(n)), s)
    case TypeNameNode(_, _) => Checked(Done(Some(n)), s)
    case IdentifierNode(_, _) => CheckIdentifier(n, s)
    case UnaryOperatorNode(_, _, _) => CheckUnary(n, s)
    case ExpressionNode(_, _, _) => CheckExpression(n, s)
    case PrintNode(_, _) => CheckPrint(n, s)
    case StatementsNode(_, _, _) => CheckStatements(n, s)
    case AssertNode(_, _) => CheckAssert(n, s)
    case ReadNode(_, _) => CheckRead(n, s)
    case DeclarationNode(_, _, _, _) => CheckDeclaration(n, s)
    case ForLoopNode(_, _, _, _, _) => CheckForLoop(n, s)
    case AssignmentNode(_, _, _) => CheckAssignment(n, s)
    case BinaryOperatorNode(_, _, _) => Checked(Crashed(MissingHandler(BINARYOPERATOR)), s)
  }

  /** An identifier checks to the value it is bound to. */
  function CheckIdentifier(n: Node, s: AState): (c: Checked)
    requires n.IdentifierNode?
    decreases n, 0
    ensures c.state == s
    ensures c.result.Done? <==> n.name in s.vars
    ensures c.result.Done? ==> c.result.value == Some(s.vars[n.name].value)
  {
    var v := GetVariable(s.vars, n, None);
    Checked(if v.Done? then Done(Some(v.value.value)) else v.PropagateFailure(), s)
  }

  /** Only `!` on a boolean passes, and gives the placeholder false. */
  function CheckUnary(n: Node, s: AState): (c: Checked)
    requires n.UnaryOperatorNode?
    decreases n, 0
    ensures c.result.Done? ==> c.result.value.Some? && Placeholder(c.result.value.value)
                               && c.result.value.value.BooleanNode?
    ensures c.result.Done? <==> n.unaryOperator == "!" && Check(n.operand, s).result.Done?
                                && Check(n.operand, s).result.value.Some?
                                && Check(n.operand, s).result.value.value.BooleanNode?
  {
    var c := Check(n.operand, s);
    var operand := VisitedNotNull(c.result, n.operand);
    Checked(if !operand.Done? then operand.PropagateFailure()
            else if operand.value.BooleanNode? && n.unaryOperator == "!" then Done(Some(BooleanNode(false, None)))
            else Thrown(UnaryError(n, operand.value)), c.state)
  }

  /** The values the analysis computes with: 0, "" and false, with no lexeme. */
  predicate Placeholder(n: Node) {
    n == NumberNode(0, None) || n == StringNode("", None) || n == BooleanNode(false, None)
  }

  /** The placeholder a binary operation gives: 0, "" or false of the kind
    * BinaryResultKind admits. */
  function BinaryPlaceholder(b: Node, left: Node, right: Node): (r: Outcome<Option<Node>>)
    requires b.BinaryOperatorNode?
    ensures r.Done? <==> BinaryResultKind(b.binaryOperator, Kind(left), Kind(right)).Some?
    ensures r.Done? ==> r.value == Some(Zero(BinaryResultKind(b.binaryOperator, Kind(left), Kind(right)).value))
    ensures !r.Done? ==> r == Thrown(BinaryError(b, Kind(left), Kind(right)))
  {
    match BinaryResultKind(b.binaryOperator, Kind(left), Kind(right))
    case Some(t) => Done(Some(Zero(t)))
    case None => Thrown(BinaryError(b, Kind(left), Kind(right)))
  }

  /** An expression without an operator checks as its left operand; with one,
    * both operands are checked, left first, and the operator is typed. */
  function CheckExpression(n: Node, s: AState): (c: Checked)
    requires n.ExpressionNode?
    decreases n, 0
    ensures n.binaryOperation.Some? && c.result.Done? ==> c.result.value.Some? && Placeholder(c.result.value.value)
  {
    match n.binaryOperation
    case None =>
      var c := Check(n.leftOperand, s);
      var left := VisitedNotNull(c.result, n.leftOperand);
      Checked(if left.Done? then Done(Some(left.value)) else left.PropagateFailure(), c.state)
    case Some(b) =>
      var checked := As(Some(b), Concrete(BINARYOPERATOR), BINARYOPERATOR, None);
      if !checked.Done? then Checked(checked.PropagateFailure(), s)
      else
        var cl := Check(n.leftOperand, s);
        var left := VisitedNotNull(cl.result, n.leftOperand);
        if !left.Done? then Checked(left.PropagateFailure(), cl.state)
        else
          var cr := Check(b.rightOperand, cl.state);
          var right := VisitedNotNull(cr.result, b.rightOperand);
          if !right.Done? then Checked(right.PropagateFailure(), cr.state)
          else Checked(BinaryPlaceholder(b, left.value, right.value), cr.state)
  }

  /** The printed expression must check to a value. */
  function CheckPrint(n: Node, s: AState): (c: Checked)
    requires n.PrintNode?
    decreases n, 0
    ensures c.state == Check(n.printedValue, s).state
    ensures c.result.Done? <==> Check(n.printedValue, s).result.Done? && Check(n.printedValue, s).result.value.Some?
                                && IsValueNode(Check(n.printedValue, s).result.value.value)
    ensures c.result.Done? ==> c.result.value.None?
  {
    var c := Check(n.printedValue, s);
    var printed := VisitedAs(c.result, ValueClass, VARIABLE, n.printedValue);
    Checked(if printed.Done? then Done(None) else printed.PropagateFailure(), c.state)
  }

  /** catch (VisitorException e) { PrintError(e); } */
  function Caught(s: AState, r: Outcome<()>): (t: AState)
    ensures t.vars == s.vars
    ensures t.log == if r.Thrown? then s.log + [r.e] else s.log
  {
    if r.Thrown? then s.(log := s.log + [r.e]) else s
  }

  /** The statement, then the rest of the list, each in its own try: an
    * exception from either is reported and checking goes on. */
  function CheckStatements(n: Node, s: AState): (c: Checked)
    requires n.StatementsNode?
    decreases n, 0
    ensures !c.result.Thrown?
    ensures c.result.Done? ==> c.result.value.None?
  {
    var c1 := Check(n.statement, s);
    var r1 := VisitedNull(c1.result, Some(n.statement));
    if r1.Crashed? then Checked(Crashed(r1.fault), c1.state)
    else
      var s1 := Caught(c1.state, r1);
      match n.statementtail
      case None => Checked(Done(None), s1)
      case Some(t) =>
        var c2 := Check(t, s1);
        var r2 := VisitedNull(c2.result, Some(t));
        if r2.Crashed? then Checked(Crashed(r2.fault), c2.state)
        else Checked(Done(None), Caught(c2.state, r2))
  }

  /** The condition must check to a boolean. */
  function CheckAssert(n: Node, s: AState): (c: Checked)
    requires n.AssertNode?
    decreases n, 0
    ensures c.state == Check(n.condition, s).state
    ensures c.result.Done? <==> Check(n.condition, s).result.Done? && Check(n.condition, s).result.value.Some?
                                && Check(n.condition, s).result.value.value.BooleanNode?
    ensures c.result.Done? ==> c.result.value.None?
  {
    var c := Check(n.condition, s);
    var condition := VisitedAs(c.result, Concrete(BOOLEAN), BOOLEAN, n.condition);
    Checked(if condition.Done? then Done(None) else condition.PropagateFailure(), c.state)
  }

  /** The target must be bound and mutable, and a number or a string; it is
    * rebound to the placeholder of its kind. */
  function CheckRead(n: Node, s: AState): (c: Checked)
    requires n.ReadNode?
    decreases n, 0
    ensures c.state.log == s.log
    ensures c.result.Done? <==> n.identifierToRead.IdentifierNode? && n.identifierToRead.name in s.vars
                                && !s.vars[n.identifierToRead.name].immutable
                                && Kind(s.vars[n.identifierToRead.name].value) in {NUMBER, STRING}
    ensures c.result.Done? ==>
              c.state.vars == s.vars[n.identifierToRead.name := Variable(Zero(Kind(s.vars[n.identifierToRead.name].value)), false)]
    ensures !c.result.Done? ==> c.state == s
  {
    var id := As(Some(n.identifierToRead), Concrete(IDENTIFIER), IDENTIFIER, None);
    if !id.Done? then Checked(id.PropagateFailure(), s)
    else
      var v := ExpectMutable(s.vars, id.value, Some(n.identifierToRead));
      if !v.Done? then Checked(v.PropagateFailure(), s)
      else
        var t := Kind(v.value.value);
        if t in {NUMBER, STRING} then
          Checked(Done(None), s.(vars := s.vars[id.value.name := Variable(Zero(t), false)]))
        else
          Checked(Thrown(VisitorException("variable " + id.value.name + " has unsupported type " + NodeTypeName(t)
                                          + " to read from input", n.identifierToRead)), s)
  }

  /** The type name must be int, string or bool and the name unbound; the name
    * is bound to the initializer's value, which must be of the declared kind,
    * or to the zero value. */
  function CheckDeclaration(n: Node, s: AState): (c: Checked)
    requires n.DeclarationNode?
    decreases n, 0
    ensures c.result.Done? ==> n.identifier.IdentifierNode? && n.identifier.name !in s.vars
                               && n.identifierType.TypeNameNode? && TypeOfName(n.identifierType.typeName).Some?
    ensures c.result.Done? ==> n.identifier.name in c.state.vars
                               && Kind(c.state.vars[n.identifier.name].value) == TypeOfName(n.identifierType.typeName).value
                               && !c.state.vars[n.identifier.name].immutable
    ensures c.result.Done? && n.identifierValue.None? ==>
              c.state == s.(vars := s.vars[n.identifier.name := Variable(Zero(TypeOfName(n.identifierType.typeName).value), false)])
  {
    var tn := As(Some(n.identifierType), Concrete(TYPENAME), TYPENAME, None);
    if !tn.Done? then Checked(tn.PropagateFailure(), s)
    else
      var id := As(Some(n.identifier), Concrete(IDENTIFIER), IDENTIFIER, None);
      if !id.Done? then Checked(id.PropagateFailure(), s)
      else
        var t := TypeOfName(tn.value.typeName);
        if t.None? then
          Checked(Thrown(VisitorException("unknown identifier type name " + tn.value.typeName, n.identifierType)), s)
        else if id.value.name in s.vars then
          Checked(Thrown(VisitorException("variable " + id.value.name + " already defined", n.identifier)), s)
        else
          match n.identifierValue
          case None => Checked(Done(None), s.(vars := s.vars[id.value.name := Variable(Zero(t.value), false)]))
          case Some(init) =>
            var c := Check(init, s);
            if !c.result.Done? then c
            else
              var value := Assignable(c.result.value, t.value, id.value.name, n.identifier);
              if !value.Done? then Checked(value.PropagateFailure(), c.state)
              else Checked(Done(None), c.state.(vars := c.state.vars[id.value.name := Variable(value.value, false)]))
  }

  /** The control must be a bound, mutable number and both bounds numbers; the
    * body is checked once with the control immutable, and then the control
    * is mutable again. */
  function CheckForLoop(n: Node, s: AState): (c: Checked)
    requires n.ForLoopNode?
    decreases n, 0
  {
    var id := As(Some(n.loopVariableIdentifier), Concrete(IDENTIFIER), IDENTIFIER, None);
    if !id.Done? then Checked(id.PropagateFailure(), s)
    else
      var control := ExpectMutable(s.vars, id.value, Some(n.loopVariableIdentifier));
      if !control.Done? then Checked(control.PropagateFailure(), s)
      else
        var number := Expect(Some(control.value.value), Concrete(NUMBER), NUMBER, Some(n.loopVariableIdentifier));
        if !number.Done? then Checked(number.PropagateFailure(), s)
        else
          var cb := Check(n.beginValue, s);
          var begin := VisitedAs(cb.result, Concrete(NUMBER), NUMBER, n.beginValue);
          if !begin.Done? then Checked(begin.PropagateFailure(), cb.state)
          else
            var ce := Check(n.endValue, cb.state);
            var end := VisitedAs(ce.result, Concrete(NUMBER), NUMBER, n.endValue);
            if !end.Done? then Checked(end.PropagateFailure(), ce.state)
            else
              var name := id.value.name;
              var locked := ce.state.(vars := ce.state.vars[name := control.value.(immutable := true)]);
              var cbody := Check(n.statements, locked);
              var body := VisitedNull(cbody.result, Some(n.statements));
              if !body.Done? then Checked(body.PropagateFailure(), cbody.state)
              else Checked(Done(None), cbody.state.(vars := cbody.state.vars[name := control.value]))
  }

  /** The target must be bound and mutable, and the value of its kind. */
  function CheckAssignment(n: Node, s: AState): (c: Checked)
    requires n.AssignmentNode?
    decreases n, 0
    ensures c.result.Done? ==> n.identifier.IdentifierNode? && n.identifier.name in s.vars
                               && !s.vars[n.identifier.name].immutable
    ensures c.result.Done? ==> n.identifier.name in c.state.vars
                               && Kind(c.state.vars[n.identifier.name].value) == Kind(s.vars[n.identifier.name].value)
                               && !c.state.vars[n.identifier.name].immutable
  {
    var id := As(Some(n.identifier), Concrete(IDENTIFIER), IDENTIFIER, None);
    if !id.Done? then Checked(id.PropagateFailure(), s)
    else
      var v := ExpectMutable(s.vars, id.value, Some(n.identifier));
      if !v.Done? then Checked(v.PropagateFailure(), s)
      else
        var c := Check(n.value, s);
        if !c.result.Done? then c
        else
          var value := Assignable(c.result.value, Kind(v.value.value), id.value.name, n);
          if !value.Done? then Checked(value.PropagateFailure(), c.state)
          else Checked(Done(None), c.state.(vars := c.state.vars[id.value.name := Variable(value.value, false)]))
  }

  /** Visit(): the tree is checked from an empty table; an exception that
    * escapes the root is reported, and a host exception ends the run. */
  function Analyse(ast: Node): (c: Checked)
    ensures c.result.Done? ==> c.result.value.None?
  {
    var c := Check(ast, AState(map[], []));
    var r := VisitedNull(c.result, None);
    Checked(if r.Crashed? then Crashed(r.fault) else Done(None), Caught(c.state, r))
  }

  /** Checking what EXPR or OPND builds changes neither the table nor the
    * reports, never ends the run, and gives a value when it succeeds. */
  lemma {:induction false} ExpressionsArePure(n: Node, s: AState)
    requires IsOperand(n) || IsExpression(n)
    requires ValueTable(s.vars)
    decreases n
    ensures Check(n, s).state == s
    ensures !Check(n, s).result.Crashed?
    ensures Check(n, s).result.Done? ==> Check(n, s).result.value.Some? && IsValueNode(Check(n, s).result.value.value)
  {
    match n
    case UnaryOperatorNode(_, operand, _) =>
      ExpressionsArePure(operand, s);
    case ExpressionNode(left, None, _) =>
      ExpressionsArePure(left, s);
    case ExpressionNode(left, Some(b), _) =>
      ExpressionsArePure(left, s);
      ExpressionsArePure(b.rightOperand, s);
    case _ =>
  }

  /** What checking a statement keeps: it returns nothing and never ends the
    * run, every binding stays a value, no name is unbound, no kind changes, no
    * immutable binding is touched, and reports are only added. */
  ghost predicate Keeps(s: AState, c: Checked) {
    (c.result.Done? ==> c.result.value.None?) && !c.result.Crashed?
    && ValueTable(c.state.vars) && Evolves(s.vars, c.state.vars) && s.log <= c.state.log
  }

  /** A check that succeeded with a number. */
  predicate NumberChecked(c: Checked) {
    c.result.Done? && c.result.value.Some? && c.result.value.value.NumberNode?
  }

  /** Every statement and statement list STMTS builds keeps the table
    * invariant, and a list never throws: its handler catches and reports. */
  lemma {:induction false} StatementsKeep(n: Node, s: AState)
    requires IsStatement(n) || IsStatementList(n)
    requires ValueTable(s.vars)
    decreases n, 1
    ensures Keeps(s, Check(n, s))
    ensures IsStatementList(n) ==> Check(n, s).result == Done(None)
  {
    match n
    case StatementsNode(_, _, _) => ListKeeps(n, s);
    case PrintNode(v, _) => ExpressionsArePure(v, s);
    case AssertNode(v, _) => ExpressionsArePure(v, s);
    case ReadNode(_, _) => ReadKeeps(n, s);
    case DeclarationNode(_, _, _, _) => DeclarationKeeps(n, s);
    case AssignmentNode(_, _, _) => AssignmentKeeps(n, s);
    case ForLoopNode(_, _, _, _, _) => ForLoopRestores(n, s);
  }

  lemma {:induction false} ListKeeps(n: Node, s: AState)
    requires IsStatementList(n) && ValueTable(s.vars)
    decreases n, 0
    ensures Keeps(s, CheckStatements(n, s)) && CheckStatements(n, s).result == Done(None)
  {
    StatementsKeep(n.statement, s);
    var c1 := Check(n.statement, s);
    var s1 := Caught(c1.state, VisitedNull(c1.result, Some(n.statement)));
    if n.statementtail.Some? {
      StatementsKeep(n.statementtail.value, s1);
    }
  }

  lemma {:induction false} ReadKeeps(n: Node, s: AState)
    requires n.ReadNode? && ValueTable(s.vars)
    ensures Keeps(s, CheckRead(n, s))
  {
  }

  lemma {:induction false} DeclarationKeeps(n: Node, s: AState)
    requires n.DeclarationNode? && IsStatement(n) && ValueTable(s.vars)
    decreases n, 0
    ensures Keeps(s, CheckDeclaration(n, s))
  {
    if n.identifierValue.Some? {
      ExpressionsArePure(n.identifierValue.value, s);
    }
  }

  lemma {:induction false} AssignmentKeeps(n: Node, s: AState)
    requires n.AssignmentNode? && IsStatement(n) && ValueTable(s.vars)
    decreases n, 0
    ensures Keeps(s, CheckAssignment(n, s))
  {
    ExpressionsArePure(n.value, s);
    var c := CheckAssignment(n, s);
    var name := n.identifier.name;
    if c.result.Done? {
      var v := Check(n.value, s).result.value.value;
      assert c.state.vars == s.vars[name := Variable(v, false)];
      RebindEvolves(s.vars, name, v);
    } else {
      assert c.state.vars == s.vars;
    }
  }

  /** A for loop STMT builds passes exactly when its control is a bound,
    * mutable number and both bounds are numbers. The body cannot throw past
    * its Statements handler, so the control is always mutable again
    * afterwards, bound as before; a failed loop changes no binding. */
  lemma {:induction false} ForLoopRestores(n: Node, s: AState)
    requires n.ForLoopNode? && IsStatement(n)
    requires ValueTable(s.vars)
    decreases n, 0
    ensures Keeps(s, CheckForLoop(n, s))
    ensures var name := n.loopVariableIdentifier.name;
            CheckForLoop(n, s).result.Done? <==>
              name in s.vars && !s.vars[name].immutable && s.vars[name].value.NumberNode?
              && NumberChecked(Check(n.beginValue, s)) && NumberChecked(Check(n.endValue, s))
    ensures var name := n.loopVariableIdentifier.name;
            CheckForLoop(n, s).result.Done? ==> name in CheckForLoop(n, s).state.vars
                                                && CheckForLoop(n, s).state.vars[name] == s.vars[name]
    ensures !CheckForLoop(n, s).result.Done? ==> CheckForLoop(n, s).state.vars == s.vars
  {
    ExpressionsArePure(n.beginValue, s);
    ExpressionsArePure(n.endValue, s);
    var name := n.loopVariableIdentifier.name;
    if name in s.vars && !s.vars[name].immutable {
      var control := s.vars[name];
      var locked := s.(vars := s.vars[name := control.(immutable := true)]);
      StatementsKeep(n.statements, locked);
      var body := Check(n.statements, locked).state.vars;
      assert Evolves(s.vars, body[name := control]) by {
        forall x | x in s.vars
          ensures x in body[name := control] && Kind(body[name := control][x].value) == Kind(s.vars[x].value)
        {
          assert x in locked.vars;
        }
        forall x | x in s.vars && s.vars[x].immutable
          ensures body[name := control][x] == s.vars[x]
        {
          assert x in locked.vars;
        }
      }
    }
  }

  /** A statement's exception is reported before the rest of the list is
    * checked, and checking goes on from the state the statement left. */
  lemma {:induction false} StatementErrorReported(n: Node, s: AState)
    requires IsStatementList(n) && ValueTable(s.vars)
    requires Check(n.statement, s).result.Thrown?
    ensures Check(n.statement, s).state.log + [Check(n.statement, s).result.e] <= Check(n, s).state.log
    ensures n.statementtail.Some? ==>
              var c1 := Check(n.statement, s);
              Check(n, s).state.vars == Check(n.statementtail.value, c1.state.(log := c1.state.log + [c1.result.e])).state.vars
  {
    var c1 := Check(n.statement, s);
    StatementsKeep(n.statement, s);
    if n.statementtail.Some? {
      StatementsKeep(n.statementtail.value, c1.state.(log := c1.state.log + [c1.result.e]));
    }
  }

  /** A program the parser accepts is analysed to the end without a host
    * exception, and its reports are those of its statements. */
  lemma {:induction false} ParsedProgramsComplete(ast: Node)
    requires IsStatementList(ast)
    ensures Analyse(ast).result == Done(None)
    ensures Analyse(ast).state == Check(ast, AState(map[], [])).state
  {
    StatementsKeep(ast, AState(map[], []));
  }
}
