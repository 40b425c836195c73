// The expression printer the interpreter runs on a failed assert's condition.
// Every handler appends to the printer's own output as it goes, in the order
// of the expression's structure, so the whole visit is one pure rendering
// followed by one append.
module Printing {
  import opened Wrappers
  import opened Ast
  import opened Visiting
  import opened StringIOs

  /** The text the handlers append, and how the visit of the root ended. A
    * visit that throws leaves the text appended before the throw. */
  datatype Rendering = Rendering(text: string, outcome: Outcome<()>)

  /** PrintToken: the token of the node's lexeme, or nothing without one. */
  function TokenText(n: Node): (s: string)
    ensures n.lexeme.None? ==> s == ""
    ensures n.lexeme.Some? ==> s == n.lexeme.value.token
  {
    if n.lexeme.Some? then n.lexeme.value.token else ""
  }

  /** What visiting n appends. Literals and identifiers print their token; a
    * unary operator prints its token and its operand's own token; a binary
    * expression prints "(", the left operand, the operator's token, the right
    * operand and ")". Other tags have no handler. */
  function Render(n: Node): Rendering {
    match n
    case NumberNode(_, _) => Rendering(TokenText(n), Done(()))
    case StringNode(_, _) => Rendering(TokenText(n), Done(()))
    case BooleanNode(_, _) => Rendering(TokenText(n), Done(()))
    case IdentifierNode(_, _) => Rendering(TokenText(n), Done(()))
    case UnaryOperatorNode(_, operand, _) => Rendering(TokenText(n) + TokenText(operand), Done(()))
    case ExpressionNode(left, None, _) => Render(left)
    case ExpressionNode(left, Some(b), _) =>
      var checked := As(Some(b), Concrete(BINARYOPERATOR), BINARYOPERATOR, None);
      if !checked.Done? then Rendering("", checked.PropagateFailure())
      else
        var l := Render(left);
        if !l.outcome.Done? then Rendering("(" + l.text, l.outcome)
        else
          var r := Render(b.rightOperand);
          if !r.outcome.Done? then Rendering("(" + l.text + TokenText(b) + r.text, r.outcome)
          else Rendering("(" + l.text + TokenText(b) + r.text + ")", Done(()))
    case _ => Rendering("", Crashed(MissingHandler(Kind(n))))
  }

  /** Every tree EXPR or OPND builds renders without an error. */
  lemma {:induction false} ParsedRenders(n: Node)
    requires IsOperand(n) || IsExpression(n)
    ensures Render(n).outcome == Done(())
  {
    match n
    case ExpressionNode(left, None, _) =>
      ParsedRenders(left);
    case ExpressionNode(left, Some(b), _) =>
      ParsedRenders(left);
      ParsedRenders(b.rightOperand);
    case _ =>
  }

  /** A unary operator's rendering depends on its operand's lexeme only: the
    * operand subtree itself is never visited. */
  lemma {:induction false} UnaryOperandUnvisited(op: string, a: Node, b: Node, l: Option<LexSpec.Lexeme>)
    requires a.lexeme == b.lexeme
    ensures Render(UnaryOperatorNode(op, a, l)) == Render(UnaryOperatorNode(op, b, l))
  {
    assert TokenText(a) == TokenText(b);
  }

  /** A binary expression's rendering opens with "(" and, when it succeeds, is
    * its operands' renderings around the operator's token, closed by ")". */
  lemma {:induction false} BinaryParenthesised(left: Node, b: Node, l: Option<LexSpec.Lexeme>)
    requires b.BinaryOperatorNode?
    requires Render(ExpressionNode(left, Some(b), l)).outcome.Done?
    ensures Render(left).outcome.Done? && Render(b.rightOperand).outcome.Done?
    ensures Render(ExpressionNode(left, Some(b), l)).text
            == "(" + Render(left).text + TokenText(b) + Render(b.rightOperand).text + ")"
  {
  }

  class ExpressionPrinter {
    const ast: Node
    const io: StringIO
    var errored: bool

    constructor (ast: Node, io: StringIO)
      ensures this.ast == ast && this.io == io && !errored
    {
      this.ast := ast;
      this.io := io;
      errored := false;
    }

    /** Visit(): appends the rendering of the tree; an exception is reported
      * with PrintError and sets `errored`; a host exception escapes. */
    method Visit() returns (crash: Option<Fault>)
      modifies this`errored, io`output
      ensures var r := Render(ast);
              io.output == old(io.output) + r.text + (if r.outcome.Thrown? then ErrorReport("Printer", r.outcome.e) else "")
              && errored == (old(errored) || r.outcome.Thrown?)
              && crash == (if r.outcome.Crashed? then Some(r.outcome.fault) else None)
    {
      var r := Render(ast);
      io.Write(r.text);
      crash := None;
      match r.outcome {
        case Done(_) =>
          assert io.output == old(io.output) + r.text + "";
        case Thrown(e) =>
          errored := true;
          WriteReport(io, "Printer", e);
        case Crashed(f) =>
          crash := Some(f);
          assert io.output == old(io.output) + r.text + "";
      }
    }
  }
}
