// The abstract syntax tree the parser builds and the visitors walk. Nodes are
// never changed once built, so each node class is a constructor of one
// datatype. A child the parser always fills is a plain `Node`; the three
// children it may leave null (an expression's binary operator, a statement
// list's tail and a declaration's initializer) are `Option<Node>`.
module Ast {
  import opened Wrappers
  import opened Int32
  import opened Strings
  import LexSpec

  /** The type tags of ASTNodeType, in declaration order. */
  datatype NodeType =
    | NUMBER | STRING | BOOLEAN | IDENTIFIER | TYPENAME | PRINT | VARIABLE | ASSERT
    | READ | DECLARATION | ASSIGNMENT | FORLOOP | EXPRESSION | BINARYOPERATOR
    | UNARYOPERATOR | STATEMENT

  /** The tag's name, as `ToString` of the enum renders it in messages. */
  function NodeTypeName(t: NodeType): string {
    match t
    case NUMBER => "NUMBER"
    case STRING => "STRING"
    case BOOLEAN => "BOOLEAN"
    case IDENTIFIER => "IDENTIFIER"
    case TYPENAME => "TYPENAME"
    case PRINT => "PRINT"
    case VARIABLE => "VARIABLE"
    case ASSERT => "ASSERT"
    case READ => "READ"
    case DECLARATION => "DECLARATION"
    case ASSIGNMENT => "ASSIGNMENT"
    case FORLOOP => "FORLOOP"
    case EXPRESSION => "EXPRESSION"
    case BINARYOPERATOR => "BINARYOPERATOR"
    case UNARYOPERATOR => "UNARYOPERATOR"
    case STATEMENT => "STATEMENT"
  }

  /** One constructor per node class; `lexeme` is the lexeme attached to the node, if any. */
  datatype Node =
    | NumberNode(number: int32, lexeme: Option<LexSpec.Lexeme>)
    | StringNode(text: string, lexeme: Option<LexSpec.Lexeme>)
    | BooleanNode(truth: bool, lexeme: Option<LexSpec.Lexeme>)
    | IdentifierNode(name: string, lexeme: Option<LexSpec.Lexeme>)
    | TypeNameNode(typeName: string, lexeme: Option<LexSpec.Lexeme>)
    | PrintNode(printedValue: Node, lexeme: Option<LexSpec.Lexeme>)
    | ReadNode(identifierToRead: Node, lexeme: Option<LexSpec.Lexeme>)
    | AssertNode(condition: Node, lexeme: Option<LexSpec.Lexeme>)
    | UnaryOperatorNode(unaryOperator: string, operand: Node, lexeme: Option<LexSpec.Lexeme>)
    | BinaryOperatorNode(binaryOperator: string, rightOperand: Node, lexeme: Option<LexSpec.Lexeme>)
    | ExpressionNode(leftOperand: Node, binaryOperation: Option<Node>, lexeme: Option<LexSpec.Lexeme>)
    | StatementsNode(statement: Node, statementtail: Option<Node>, lexeme: Option<LexSpec.Lexeme>)
    | DeclarationNode(identifier: Node, identifierType: Node, identifierValue: Option<Node>, lexeme: Option<LexSpec.Lexeme>)
    | AssignmentNode(identifier: Node, value: Node, lexeme: Option<LexSpec.Lexeme>)
    | ForLoopNode(loopVariableIdentifier: Node, beginValue: Node, endValue: Node, statements: Node,
                  lexeme: Option<LexSpec.Lexeme>)

  /** The readonly tag each node class passes to the base constructor. */
  function Kind(n: Node): (t: NodeType)
    ensures t != VARIABLE
    ensures t == NUMBER <==> n.NumberNode?
    ensures t == STRING <==> n.StringNode?
    ensures t == BOOLEAN <==> n.BooleanNode?
    ensures t == IDENTIFIER <==> n.IdentifierNode?
    ensures t == STATEMENT <==> n.StatementsNode?
    ensures t == EXPRESSION <==> n.ExpressionNode?
    ensures t == BINARYOPERATOR <==> n.BinaryOperatorNode?
    ensures t == TYPENAME <==> n.TypeNameNode?
    ensures t == PRINT <==> n.PrintNode?
    ensures t == READ <==> n.ReadNode?
    ensures t == ASSERT <==> n.AssertNode?
    ensures t == UNARYOPERATOR <==> n.UnaryOperatorNode?
    ensures t == DECLARATION <==> n.DeclarationNode?
    ensures t == ASSIGNMENT <==> n.AssignmentNode?
    ensures t == FORLOOP <==> n.ForLoopNode?
  {
    match n
    case NumberNode(_, _) => NUMBER
    case StringNode(_, _) => STRING
    case BooleanNode(_, _) => BOOLEAN
    case IdentifierNode(_, _) => IDENTIFIER
    case TypeNameNode(_, _) => TYPENAME
    case PrintNode(_, _) => PRINT
    case ReadNode(_, _) => READ
    case AssertNode(_, _) => ASSERT
    case UnaryOperatorNode(_, _, _) => UNARYOPERATOR
    case BinaryOperatorNode(_, _, _) => BINARYOPERATOR
    case ExpressionNode(_, _, _) => EXPRESSION
    case StatementsNode(_, _, _) => STATEMENT
    case DeclarationNode(_, _, _, _) => DECLARATION
    case AssignmentNode(_, _, _) => ASSIGNMENT
    case ForLoopNode(_, _, _, _, _) => FORLOOP
  }

  /** The ASTVariableNode subclasses: the nodes that carry a value. */
  predicate IsValueNode(n: Node) {
    n.NumberNode? || n.StringNode? || n.BooleanNode?
  }

  /** A node's value, as `Value()` boxes it. */
  datatype Value = Num(n: int32) | Str(s: string) | Bool(b: bool)

  function ValueOf(n: Node): (v: Value)
    requires IsValueNode(n)
    ensures n.NumberNode? <==> v.Num?
    ensures n.StringNode? <==> v.Str?
    ensures v.Num? ==> v.n == n.number
    ensures v.Str? ==> v.s == n.text
    ensures v.Bool? ==> v.b == n.truth
  {
    match n
    case NumberNode(x, _) => Num(x)
    case StringNode(x, _) => Str(x)
    case BooleanNode(x, _) => Bool(x)
  }

  /** Exactly the value classes carry the tags NUMBER, STRING and BOOLEAN, and
    * no node carries VARIABLE, which only names the value classes in messages. */
  lemma {:induction false} ValueNodeTags(n: Node)
    ensures IsValueNode(n) <==> Kind(n) in {NUMBER, STRING, BOOLEAN}
    ensures Kind(n) != VARIABLE
  {
    match n
    case NumberNode(_, _) =>
    case StringNode(_, _) =>
    case BooleanNode(_, _) =>
    case _ => assert Kind(n) !in {NUMBER, STRING, BOOLEAN};
  }

  /** `NumberNode(string)`: the node holds `int.Parse` of the text. */
  function NumberFromText(token: string, lexeme: Option<LexSpec.Lexeme>): (n: Node)
    requires ParseInt32(token).Parsed?
    ensures n.NumberNode? && n.lexeme == lexeme
    ensures AllDigits(token) ==> n.number as int == DigitsValue(token)
  {
    NumberNode(ParseInt32(token).value, lexeme)
  }
  // The shapes of the trees the parser builds.

  /** What OPND builds: a number, string or identifier, or a parenthesised expression. */
  predicate IsOperand(n: Node)
    decreases n, 1
  {
    n.NumberNode? || n.StringNode? || n.IdentifierNode? || IsExpression(n)
  }

  /** What EXPR builds: a unary operator applied to one operand, or an operand
    * followed by at most one binary operator and its right operand. */
  predicate IsExpression(n: Node)
    decreases n, 0
  {
    match n
    case UnaryOperatorNode(_, operand, _) => IsOperand(operand)
    case ExpressionNode(left, None, _) => IsOperand(left)
    case ExpressionNode(left, Some(b), _) => IsOperand(left) && b.BinaryOperatorNode? && IsOperand(b.rightOperand)
    case _ => false
  }

  /** What STMT builds. */
  predicate IsStatement(n: Node)
    decreases n, 0
  {
    match n
    case PrintNode(v, _) => IsExpression(v)
    case AssertNode(c, _) => IsExpression(c)
    case ReadNode(i, _) => i.IdentifierNode?
    case DeclarationNode(i, t, v, _) =>
      i.IdentifierNode? && t.TypeNameNode? && (v.Some? ==> IsExpression(v.value))
    case AssignmentNode(i, v, _) => i.IdentifierNode? && IsExpression(v)
    case ForLoopNode(i, b, e, body, _) =>
      i.IdentifierNode? && IsExpression(b) && IsExpression(e) && IsStatementList(body)
    case _ => false
  }

  /** What STMTS and STMTSTAIL build: a right-nested list of statements. */
  predicate IsStatementList(n: Node)
    decreases n, 1
  {
    n.StatementsNode? && n.lexeme.None? && IsStatement(n.statement)
    && (n.statementtail.Some? ==> IsStatementList(n.statementtail.value))
  }
}
