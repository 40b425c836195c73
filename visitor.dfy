// What the abstract Visitor base class gives every pass: the binding table,
// the exception a handler throws, the kind checks As / Expect / Is, the null
// checks, variable lookup, and the two lines PrintError writes.
//
// A handler's outcome is a value it returns (`Done`), a VisitorException it
// throws (`Thrown`), or a host exception that no handler catches and that
// ends the whole run (`Crashed`).
module Visiting {
  import opened Wrappers
  import opened Ast
  import opened StringIOs
  import LexSpec

  /** Variable: the value node a name is bound to, and whether it may be changed. */
  datatype Variable = Variable(value: Node, immutable: bool)

  /** The `variables` dictionary. A Variable object is never shared by two
    * names, and no change to one that is no longer bound can be observed,
    * so value semantics is exact. */
  type Table = map<string, Variable>

  /** VisitorException: the message and the node the error is attached to. */
  datatype VisitorException = VisitorException(message: string, node: Node)

  /** Host exceptions that escape every `catch (VisitorException)`, and the two
    * ways a run never ends. */
  datatype Fault =
    | NullReference          // a member read through a null node
    | MissingHandler(tag: NodeType)  // no visitor function for the node's tag
    | DivideByZero           // `/` by zero
    | ArithmeticOverflow     // int.MinValue / -1
    | InputOverflow          // int.Parse on an input token outside int32
    | Diverges               // a number read at the end of the input retries forever
    | CounterWraps           // a for loop to int.MaxValue still running after its counter wrapped InterpreterSpec.WrapLaps times

  datatype Outcome<T> = Done(value: T) | Thrown(e: VisitorException) | Crashed(fault: Fault)
  {
    predicate IsFailure() {
      !Done?
    }

    function PropagateFailure<U>(): (r: Outcome<U>)
      requires !Done?
      ensures r.Thrown? <==> Thrown?
      ensures Thrown? ==> r.e == e
      ensures Crashed? ==> r == Crashed(fault)
    {
      if Thrown? then Thrown(e) else Crashed(fault)
    }
  }

  /** The classes `As<T>`, `Expect<T>` and `Is<T>` test against: one concrete
    * node class, or ASTVariableNode, the base of the three value classes. */
  datatype NodeClass = Concrete(tag: NodeType) | ValueClass

  /** Is<T>: whether the node is a T. */
  predicate Is(n: Node, c: NodeClass) {
    match c
    case Concrete(t) => Kind(n) == t
    case ValueClass => IsValueNode(n)
  }

  /** `errorNode ?? node`: the node an exception is attached to. */
  function Blame(errorNode: Option<Node>, node: Node): (b: Node)
    ensures errorNode.Some? ==> b == errorNode.value
    ensures errorNode.None? ==> b == node
  {
    if errorNode.Some? then errorNode.value else node
  }

  /** As<T>: the node itself if it is a T, else "expected type X, got Y".
    * A null node has no type to name, so building that message dereferences null. */
  function As(converted: Option<Node>, c: NodeClass, expected: NodeType, errorNode: Option<Node>): (r: Outcome<Node>)
    ensures r.Done? <==> converted.Some? && Is(converted.value, c)
    ensures r.Done? ==> r.value == converted.value
    ensures r.Crashed? <==> converted.None?
    ensures r.Crashed? ==> r.fault == NullReference
    ensures r.Thrown? ==> r.e.node == Blame(errorNode, converted.value)
                          && r.e.message == "expected type " + NodeTypeName(expected) + ", got " + NodeTypeName(Kind(converted.value))
  {
    match converted
    case None => Crashed(NullReference)
    case Some(n) =>
      if Is(n, c) then Done(n)
      else Thrown(VisitorException("expected type " + NodeTypeName(expected) + ", got " + NodeTypeName(Kind(n)), Blame(errorNode, n)))
  }

  /** Expect<T>: As<T> with the converted node dropped. */
  function Expect(node: Option<Node>, c: NodeClass, expected: NodeType, errorNode: Option<Node>): (r: Outcome<()>)
    ensures r.Done? <==> As(node, c, expected, errorNode).Done?
    ensures !r.Done? ==> r == As(node, c, expected, errorNode).PropagateFailure()
  {
    match As(node, c, expected, errorNode)
    case Done(_) => Done(())
    case Thrown(e) => Thrown(e)
    case Crashed(f) => Crashed(f)
  }

  /** ExpectNull: a visit that returned a node where none was expected fails. */
  function ExpectNull(node: Option<Node>, errorNode: Option<Node>): (r: Outcome<()>)
    ensures r.Done? <==> node.None?
    ensures !r.Crashed?
    ensures r.Thrown? ==> r.e == VisitorException("return value expected to be null, got " + NodeTypeName(Kind(node.value)),
                                                  Blame(errorNode, node.value))
  {
    match node
    case None => Done(())
    case Some(n) => Thrown(VisitorException("return value expected to be null, got " + NodeTypeName(Kind(n)), Blame(errorNode, n)))
  }

  /** ExpectNotNull: a visit that returned no node fails. Without an errorNode
    * the exception is attached to null, and PrintError, which every catch
    * clause calls first, dereferences it; nothing runs between the throw and
    * that catch, so the model crashes at once. */
  function ExpectNotNull(node: Option<Node>, errorNode: Option<Node>): (r: Outcome<Node>)
    ensures r.Done? <==> node.Some?
    ensures r.Done? ==> r.value == node.value
    ensures r.Crashed? <==> node.None? && errorNode.None?
    ensures r.Thrown? ==> r.e == VisitorException("return value expected not to be null", errorNode.value)
  {
    match node
    case Some(n) => Done(n)
    case None =>
      if errorNode.Some? then Thrown(VisitorException("return value expected not to be null", errorNode.value))
      else Crashed(NullReference)
  }

  /** `ExpectNull(Visit(node), errorNode)`: a failed visit propagates. */
  function VisitedNull(visited: Outcome<Option<Node>>, errorNode: Option<Node>): (r: Outcome<()>)
    ensures r.Done? <==> visited == Done(None)
  {
    match visited
    case Done(v) => ExpectNull(v, errorNode)
    case Thrown(e) => Thrown(e)
    case Crashed(f) => Crashed(f)
  }

  /** `As<T>(Visit(node), expected, node)` and `Expect<T>(Visit(node), expected, node)`:
    * a failed visit propagates. */
  function VisitedAs(visited: Outcome<Option<Node>>, c: NodeClass, expected: NodeType, node: Node): (r: Outcome<Node>)
    ensures r.Done? <==> visited.Done? && visited.value.Some? && Is(visited.value.value, c)
    ensures r.Done? ==> r.value == visited.value.value
    ensures visited.Thrown? ==> r == Thrown(visited.e)
    ensures r.Crashed? <==> visited.Crashed? || visited == Done(None)
  {
    match visited
    case Done(v) => As(v, c, expected, Some(node))
    case Thrown(e) => Thrown(e)
    case Crashed(f) => Crashed(f)
  }

  /** `ExpectNotNull(Visit(node), node)`: a failed visit propagates. */
  function VisitedNotNull(visited: Outcome<Option<Node>>, node: Node): (r: Outcome<Node>)
    ensures r.Done? <==> visited.Done? && visited.value.Some?
    ensures r.Done? ==> r.value == visited.value.value
    ensures !r.Crashed? || visited.Crashed?
  {
    match visited
    case Done(v) => ExpectNotNull(v, Some(node))
    case Thrown(e) => Thrown(e)
    case Crashed(f) => Crashed(f)
  }

  /** GetVariable: the binding of an identifier, or "using undefined identifier". */
  function GetVariable(vars: Table, identifier: Node, errorNode: Option<Node>): (r: Outcome<Variable>)
    requires identifier.IdentifierNode?
    ensures r.Done? <==> identifier.name in vars
    ensures r.Done? ==> r.value == vars[identifier.name]
    ensures !r.Crashed?
    ensures r.Thrown? ==> r.e == VisitorException("using undefined identifier " + identifier.name, Blame(errorNode, identifier))
  {
    if identifier.name !in vars then
      Thrown(VisitorException("using undefined identifier " + identifier.name, Blame(errorNode, identifier)))
    else
      Done(vars[identifier.name])
  }

  /** ExpectMutable: GetVariable, then "trying to change immutable variable". */
  function ExpectMutable(vars: Table, identifier: Node, errorNode: Option<Node>): (r: Outcome<Variable>)
    requires identifier.IdentifierNode?
    ensures r.Done? <==> identifier.name in vars && !vars[identifier.name].immutable
    ensures r.Done? ==> r.value == vars[identifier.name]
    ensures !r.Crashed?
    ensures r.Thrown? && identifier.name in vars ==>
              r.e == VisitorException("trying to change immutable variable " + identifier.name, Blame(errorNode, identifier))
    ensures identifier.name !in vars ==> r == GetVariable(vars, identifier, errorNode)
  {
    match GetVariable(vars, identifier, errorNode)
    case Done(v) =>
      if !v.immutable then Done(v)
      else Thrown(VisitorException("trying to change immutable variable " + identifier.name, Blame(errorNode, identifier)))
    case Thrown(e) => Thrown(e)
    case Crashed(f) => Crashed(f)
  }

  /** The variable type a type name declares: int, string or bool. */
  function TypeOfName(typeName: string): (t: Option<NodeType>)
    ensures t.Some? <==> typeName in {"int", "string", "bool"}
    ensures t.Some? ==> t.value in {NUMBER, STRING, BOOLEAN}
  {
    if typeName == "int" then Some(NUMBER)
    else if typeName == "string" then Some(STRING)
    else if typeName == "bool" then Some(BOOLEAN)
    else None
  }

  /** The value an uninitialised declaration binds: 0, "" or false. */
  function Zero(t: NodeType): (n: Node)
    requires t in {NUMBER, STRING, BOOLEAN}
    ensures IsValueNode(n) && Kind(n) == t && n.lexeme.None?
  {
    if t == NUMBER then NumberNode(0, None)
    else if t == STRING then StringNode("", None)
    else BooleanNode(false, None)
  }

  /** The check a declaration's initializer or an assignment's value passes
    * before it is bound: a value of the variable's kind. */
  function Assignable(value: Option<Node>, t: NodeType, name: string, errorNode: Node): (r: Outcome<Node>)
    ensures r.Done? <==> value.Some? && Kind(value.value) == t && IsValueNode(value.value)
    ensures r.Done? ==> r.value == value.value
    ensures !r.Crashed?
    ensures value.None? ==> r == Thrown(VisitorException("variable " + name + " type " + NodeTypeName(t) + " does not match value type null", errorNode))
  {
    if value.None? || Kind(value.value) != t then
      Thrown(VisitorException("variable " + name + " type " + NodeTypeName(t) + " does not match value type "
                              + (if value.None? then "null" else NodeTypeName(Kind(value.value))), errorNode))
    else
      As(value, ValueClass, VARIABLE, None)
  }

  /** The operators a binary expression admits for its operand kinds, and the
    * kind of the result: `+ - * /` on numbers give a number, `+` on strings a
    * string, `&` on booleans a boolean, and `= <` on two operands of one kind
    * a boolean. */
  function BinaryResultKind(op: string, left: NodeType, right: NodeType): (t: Option<NodeType>)
    ensures t.Some? ==> left == right && left in {NUMBER, STRING, BOOLEAN} && t.value in {NUMBER, STRING, BOOLEAN}
    ensures t.Some? && op in {"=", "<"} ==> t.value == BOOLEAN
    ensures t.Some? && t.value != BOOLEAN ==> t.value == left
  {
    if left == NUMBER && right == NUMBER then
      if op in {"+", "-", "*", "/"} then Some(NUMBER) else if op in {"=", "<"} then Some(BOOLEAN) else None
    else if left == STRING && right == STRING then
      if op == "+" then Some(STRING) else if op in {"=", "<"} then Some(BOOLEAN) else None
    else if left == BOOLEAN && right == BOOLEAN then
      if op in {"&", "=", "<"} then Some(BOOLEAN) else None
    else None
  }

  /** The exception a binary expression throws when BinaryResultKind admits
    * nothing. Each operand is visited once more for its type; operands are
    * values, which visit to themselves. */
  function BinaryError(b: Node, left: NodeType, right: NodeType): VisitorException
    requires b.BinaryOperatorNode?
  {
    var op := b.binaryOperator;
    if left == NUMBER && right == NUMBER then VisitorException("unknown integer binary operator " + op, b)
    else if left == STRING && right == STRING then VisitorException("unknown string binary operator " + op, b)
    else if left == BOOLEAN && right == BOOLEAN then VisitorException("unknown boolean binary operator " + op, b)
    else VisitorException("unknown binary operator " + op + " for operand types left: " + NodeTypeName(left)
                          + ", right: " + NodeTypeName(right), b)
  }

  /** The exception a unary operator throws on anything but `!` applied to a boolean. */
  function UnaryError(n: Node, operand: Node): VisitorException
    requires n.UnaryOperatorNode?
  {
    if operand.BooleanNode? then VisitorException("unrecognized boolean unary operator " + n.unaryOperator, n)
    else VisitorException("unrecognized unary operator " + n.unaryOperator + " for operand type " + NodeTypeName(Kind(operand)), n)
  }

  /** The first line PrintError writes: the pass, where the node came from,
    * and the node's kind. */
  function ErrorHeader(name: string, e: VisitorException): string {
    name + " error at "
    + (match e.node.lexeme
       case Some(l) => l.position.ToString() + " token " + l.ToString()
       case None => "<runtime generated code>")
    + " in node " + NodeTypeName(Kind(e.node)) + ":"
  }

  /** The two lines PrintError writes for one exception. */
  function ErrorReport(name: string, e: VisitorException): string {
    ErrorHeader(name, e) + "\n" + e.message + "\n"
  }

  /** What PrintError writes for each exception, in order. */
  function Reports(name: string, es: seq<VisitorException>): (out: string)
    ensures es == [] ==> out == ""
  {
    if es == [] then "" else ErrorReport(name, es[0]) + Reports(name, es[1..])
  }

  /** Reporting one more exception appends its two lines. */
  lemma {:induction false} ReportsAppend(name: string, es: seq<VisitorException>, e: VisitorException)
    ensures Reports(name, es + [e]) == Reports(name, es) + ErrorReport(name, e)
  {
    if es == [] {
      assert es + [e] == [e];
      assert [e][1..] == [];
    } else {
      assert (es + [e])[1..] == es[1..] + [e];
      ReportsAppend(name, es[1..], e);
    }
  }

  /** Output that holds the reports so far, followed by one more report. */
  lemma Reporting(base: string, name: string, es: seq<VisitorException>, e: VisitorException)
    ensures base + Reports(name, es + [e]) == (base + Reports(name, es)) + ErrorReport(name, e)
  {
    ReportsAppend(name, es, e);
    LexSpec.Associate(base, Reports(name, es), ErrorReport(name, e));
  }

  /** Every binding holds a value node: what ASTVariableNode guarantees. */
  ghost predicate ValueTable(vars: Table) {
    forall x :: x in vars ==> IsValueNode(vars[x].value)
  }

  /** How a pass may change the table: names stay bound to values of the same
    * kind, and an immutable binding is left alone. */
  ghost predicate Evolves(t0: Table, t1: Table) {
    (forall x :: x in t0 ==> x in t1 && Kind(t1[x].value) == Kind(t0[x].value))
    && (forall x :: x in t0 && t0[x].immutable ==> t1[x] == t0[x])
  }

  /** Rebinding a mutable name to a value of the same kind is an evolution
    * of a table of values. */
  lemma {:induction false} RebindEvolves(t: Table, x: string, v: Node)
    requires ValueTable(t) && x in t && !t[x].immutable
    requires IsValueNode(v) && Kind(v) == Kind(t[x].value)
    ensures ValueTable(t[x := Variable(v, false)]) && Evolves(t, t[x := Variable(v, false)])
  {
  }

  /** Binding a new name to a value is an evolution of a table of values. */
  lemma {:induction false} DeclareEvolves(t: Table, x: string, v: Node)
    requires ValueTable(t) && x !in t && IsValueNode(v)
    ensures ValueTable(t[x := Variable(v, false)]) && Evolves(t, t[x := Variable(v, false)])
  {
  }

  lemma EvolvesTransitive(t0: Table, t1: Table, t2: Table)
    requires Evolves(t0, t1) && Evolves(t1, t2)
    ensures Evolves(t0, t2)
  {
  }

  /** PrintError without the flag: the two lines for e, written to io. */
  method WriteReport(io: StringIO, name: string, e: VisitorException)
    modifies io`output
    ensures io.output == old(io.output) + ErrorReport(name, e)
  {
    io.WriteLine(ErrorHeader(name, e));
    io.WriteLine(e.message);
  }
}
