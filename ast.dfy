/**
 * The syntax tree of the expression compiler (src/ast.h).
 *
 * ast.h declares only integer literals, identifiers, binary expressions,
 * expression statements and assignments; the parser and the analyzer also
 * build boolean, string and character literals and print statements, and
 * read and write a `resolvedType` field on every expression. The datatypes
 * below cover the union. `ty` is `resolvedType`.
 */
module Ast {
  import opened Tokens

  datatype Expr =
    | IntegerLiteral(intValue: int, ty: Kind)
    | BooleanLiteral(boolValue: bool, ty: Kind)
    | StringLiteral(text: string, ty: Kind)
    | CharLiteral(charValue: char, ty: Kind)
    | IdentifierExpr(name: string, ty: Kind)
    | BinaryExpression(left: Expr, op: Kind, right: Expr, ty: Kind)

  /** An assignment's target is an `IdentifierExpr`: its name and its own `resolvedType`. */
  datatype Stmt =
    | ExpressionStatement(expression: Expr)
    | AssignmentStatement(name: string, targetTy: Kind, value: Expr)
    | PrintStatement(expression: Expr)

  datatype Program = Program(statements: seq<Stmt>)

  /** What `parseTopLevelNode` yields: a statement, or a comment node that is dropped. */
  datatype TopLevelNode = StatementNode(stmt: Stmt) | CommentNode(token: Token)

  /**
   * The `resolvedType` of a node nobody has annotated yet. The field's
   * declaration is not in ast.h; its enum's zero value, ILLEGAL, is assumed.
   */
  const Unannotated: Kind := Illegal
}
