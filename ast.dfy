/** The syntax tree the parser builds and the compiler, interpreter and printer walk. */
module Ast {
  import opened Wrappers
  import opened Values
  import opened Tokens

  datatype Expr =
    | Assign(name: Token, newValue: Expr)
    | Binary(left: Expr, operator: Token, right: Expr)
    | Call(callee: Expr, paren: Token, arguments: seq<Expr>)
    | Grouping(expression: Expr)
    | Literal(literal: Value)
    | Unary(operator: Token, right: Expr)
    | Variable(name: Token)
    | Incremento(name: Token, operator: Token, prefix: bool)
    | Decremento(name: Token, operator: Token, prefix: bool)

  /** Optional parts that Java leaves `null` are `Option`s. */
  datatype Stmt =
    | Print(expression: Expr)
    | Var(typeToken: Option<Token>, name: Token, initializer: Option<Expr>)
    | Function(name: Token, parameters: seq<Token>, body: seq<Stmt>)
    | Return(keyword: Token, value: Option<Expr>)
    | If(condition: Expr, thenBranch: Stmt, elseBranch: Option<Stmt>)
    | Block(statements: seq<Stmt>)
    | Expression(expr: Expr)
    | While(condition: Expr, loopBody: Stmt)
    | Switch(expr: Expr, cases: seq<Case>, defaultCase: Option<Case>)
    | Input(name: Token)
    | Break

  /** One arm of a switch; the default arm has no value. */
  datatype Case = Case(value: Option<Expr>, stmt: Stmt)
}
