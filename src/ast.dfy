/** The syntax tree of the mini-Python language (Scripts/ProgramExec/PythonAST.cs).
    Each C# node class becomes one constructor; every node carries its source
    `line`; a C# reference that may be null becomes an `Option`. */
module Ast {
  import opened Wrappers
  import Tokens

  /** The eleven expression forms. `BinaryExpr.op` and `UnaryExpr.op` keep
      the token kind of their operator, as the source does. */
  datatype Expr =
    | NumberExpr(number: real, line: int)
    | StringExpr(text: string, line: int)
    | BooleanExpr(truth: bool, line: int)
    | NameExpr(name: string, line: int)
    | ListExpr(elements: seq<Expr>, line: int)
    | BinaryExpr(left: Expr, op: Tokens.TokenKind, right: Expr, line: int)
    | UnaryExpr(op: Tokens.TokenKind, operand: Expr, line: int)
    | CallExpr(callee: Expr, arguments: seq<Expr>, line: int)
    | AttributeExpr(target: Expr, name: string, line: int)
    | IndexExpr(target: Expr, index: Expr, line: int)
    | SliceExpr(target: Expr, start: Option<Expr>, end: Option<Expr>, line: int)

  /** The nine statement forms; `IfStmt.elseBranch` and `ReturnStmt.returnValue`
      are the optional children (null in the source). */
  datatype Stmt =
    | ExpressionStmt(expression: Expr, line: int)
    | AssignStmt(target: string, value: Expr, line: int)
    | IfStmt(condition: Expr, thenBranch: seq<Stmt>, elseBranch: ElseBranch, line: int)
    | WhileStmt(condition: Expr, body: seq<Stmt>, line: int)
    | ForStmt(variable: string, iterable: Expr, body: seq<Stmt>, line: int)
    | FunctionDefStmt(name: string, parameters: seq<string>, body: seq<Stmt>, line: int)
    | ReturnStmt(returnValue: Option<Expr>, line: int)
    | PassStmt(line: int)
    | GlobalStmt(names: seq<string>, line: int)

  /** The else list of an if statement, null (`NoElse`) when there is none. */
  datatype ElseBranch = NoElse | ElseBlock(statements: seq<Stmt>)

  /** Node counts, the measures for recursion over trees. */
  function SizeE(e: Expr): nat
    ensures SizeE(e) >= 1
  {
    match e
    case NumberExpr(_, _) => 1
    case StringExpr(_, _) => 1
    case BooleanExpr(_, _) => 1
    case NameExpr(_, _) => 1
    case ListExpr(es, _) => 1 + SizeEs(es)
    case BinaryExpr(l, _, r, _) => 1 + SizeE(l) + SizeE(r)
    case UnaryExpr(_, x, _) => 1 + SizeE(x)
    case CallExpr(c, args, _) => 1 + SizeE(c) + SizeEs(args)
    case AttributeExpr(t, _, _) => 1 + SizeE(t)
    case IndexExpr(t, i, _) => 1 + SizeE(t) + SizeE(i)
    case SliceExpr(t, s, en, _) => 1 + SizeE(t) + SizeOpt(s) + SizeOpt(en)
  }

  function SizeOpt(o: Option<Expr>): nat {
    match o
    case None => 0
    case Some(e) => SizeE(e)
  }

  function SizeEs(es: seq<Expr>): nat {
    if es == [] then 0 else SizeE(es[0]) + SizeEs(es[1..])
  }

  function SizeS(s: Stmt): nat
    ensures SizeS(s) >= 1
  {
    match s
    case ExpressionStmt(e, _) => 1 + SizeE(e)
    case AssignStmt(_, e, _) => 1 + SizeE(e)
    case IfStmt(c, t, el, _) => 1 + SizeE(c) + SizeSs(t) + SizeElse(el)
    case WhileStmt(c, b, _) => 1 + SizeE(c) + SizeSs(b)
    case ForStmt(_, it, b, _) => 1 + SizeE(it) + SizeSs(b)
    case FunctionDefStmt(_, _, b, _) => 1 + SizeSs(b)
    case ReturnStmt(v, _) => 1 + SizeOpt(v)
    case PassStmt(_) => 1
    case GlobalStmt(_, _) => 1
  }

  function SizeElse(el: ElseBranch): nat {
    match el
    case NoElse => 0
    case ElseBlock(ss) => SizeSs(ss)
  }

  function SizeSs(ss: seq<Stmt>): nat {
    if ss == [] then 0 else SizeS(ss[0]) + SizeSs(ss[1..])
  }

  /** Every element of a list is smaller than the list. */
  lemma {:induction false} SizeEsElement(es: seq<Expr>, i: nat)
    requires i < |es|
    ensures SizeE(es[i]) <= SizeEs(es)
  {
    if i > 0 {
      SizeEsElement(es[1..], i - 1);
    }
  }

  lemma {:induction false} SizeSsElement(ss: seq<Stmt>, i: nat)
    requires i < |ss|
    ensures SizeS(ss[i]) <= SizeSs(ss)
  {
    if i > 0 {
      SizeSsElement(ss[1..], i - 1);
    }
  }

  lemma {:induction false} SizeSsAppend(a: seq<Stmt>, b: seq<Stmt>)
    ensures SizeSs(a + b) == SizeSs(a) + SizeSs(b)
  {
    if a != [] {
      assert (a + b)[1..] == a[1..] + b;
      SizeSsAppend(a[1..], b);
    } else {
      assert a + b == b;
    }
  }
}
