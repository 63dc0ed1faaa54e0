/** The syntax tree of ast/ast.ts, as the parser builds it.

    ast.ts declares `IfStatement` with a single `body`; the parser builds it
    with `ifbody` and an optional `elsebody`, and that shape is kept here.
    `ImportStatement` and `Semicolon` are built by the parser but not declared
    in ast.ts; they get constructors of their own. */
module Ast {
  import opened Wrappers
  import opened VTypes

  datatype Node =
    // statements
    | Program(body: seq<Node>)
    | VarDecl(name: string, value: Node, vtype: VType)
    | FunDecl(name: string, params: seq<(string, VType)>, body: seq<Node>)
    | ReturnStatement(value: Node)
    | DelStatement(name: string)
    | ASMLine(line: string)
    | ForStatement(condition: Node, action: Node, body: seq<Node>)
    | WhileStatement(condition: Node, body: seq<Node>)
    | IfStatement(condition: Node, ifbody: seq<Node>, elsebody: Option<seq<Node>>)
    | ElseStatement(body: seq<Node>)
    | ImportStatement(path: string, builtin: bool)
    | SemicolonNode
    // expressions
    | BinaryExpr(left: Node, right: Node, op: string)
    | MemberExpr(obj: Node, property: Node, computed: bool)
    | CallExpr(caller: Node, args: seq<Node>)
    | AssignExpr(left: Node, right: Node)
    | BinOpAssignExpr(left: Node, right: Node, op: string)
    | NotExpr(value: Node)
    | ComparisonExpr(left: Node, right: Node, op: string)
    | LogicalExpr(left: Node, right: Node, op: string)
    | BitwiseExpr(left: Node, right: Node, op: string)
    // literals
    | NumericLiteral(num: nat)
    | IdentLiteral(name: string)
    | StringLiteral(text: string)
    | CharLiteral(ch: char)
    | ArrayLiteral(elements: seq<Node>)
    | NullLiteral
}
