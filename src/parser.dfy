/** The recursive-descent parser (Scripts/ProgramExec/PythonParser.cs), as
    functions over the tokens that remain: the source's `_pos` cursor is the
    number of tokens already consumed. Each C# method is one function; its
    `while`/`do` loops are recursive functions; an exception is an `Err`. */
module Parser {
  import opened Wrappers
  import opened Tokens
  import opened Ast
  import Text

  /** A parsed node and the tokens after it. */
  datatype Parsed<T> = Parsed(node: T, rest: seq<Token>)

  /** Reading `Current.Type` when the cursor is past the last token. */
  const NullReference: string := "Object reference not set to an instance of an object."

  /** `Substring(1, Length - 2)` on a one-character quoted string. */
  const NegativeLength: string := "Length cannot be less than zero."

  /** The parser only ever drops tokens from the front: what is left after
      a function returns is never longer than what it was given ... */
  predicate Suffix(ts: seq<Token>, rest: seq<Token>) {
    |rest| <= |ts|
  }

  /** ... and a function that builds a node has consumed at least one token. */
  predicate Advanced(ts: seq<Token>, rest: seq<Token>) {
    |rest| < |ts|
  }

  function KindOf(ts: seq<Token>): Result<TokenKind> {
    if |ts| > 0 then Ok(ts[0].kind) else Err(NullReference)
  }

  /** `Current != null && Current.Type == k`, the test of Match and Expect. */
  predicate IsAt(ts: seq<Token>, k: TokenKind) {
    |ts| > 0 && ts[0].kind == k
  }

  /** The line printed in an "Expected" message: empty past the end. */
  function LineText(ts: seq<Token>): string {
    if |ts| > 0 then Text.IntToString(ts[0].line) else ""
  }

  function ExpectedMessage(what: string, ts: seq<Token>): string {
    "Expected " + what + " at line " + LineText(ts)
  }

  /** `Expect`: consume a token of kind `k` or fail with "Expected <what> at line N". */
  function Expect(ts: seq<Token>, k: TokenKind, what: string): (r: Result<Parsed<Token>>)
    ensures r.Ok? <==> IsAt(ts, k)
    ensures r.Ok? ==> r.value.node == ts[0] && r.value.rest == ts[1..]
    ensures r.Err? ==> r.message == ExpectedMessage(what, ts)
  {
    if IsAt(ts, k) then Ok(Parsed(ts[0], ts[1..])) else Err(ExpectedMessage(what, ts))
  }

  /** `PeekNextType`: the kind after the current one, EOF if there is none. */
  function PeekNextType(ts: seq<Token>): TokenKind {
    if 1 < |ts| then ts[1].kind else Eof
  }

  // ---------------------------------------------------------------------
  // Programs and statements
  // ---------------------------------------------------------------------

  /** `Parse`: statements up to EOF (or the end of the tokens), skipping
      NEWLINE and stray DEDENT tokens between them. */
  function Parse(ts: seq<Token>): (r: Result<seq<Stmt>>)
    ensures r.Ok? ==> |r.value| <= |ts|
    decreases |ts|
  {
    if |ts| == 0 || ts[0].kind.Eof? then Ok([])
    else if ts[0].kind.Newline? || ts[0].kind.Dedent? then Parse(ts[1..])
    else
      var s :- ParseStatement(ts);
      var more :- Parse(s.rest);
      Ok([s.node] + more)
  }

  /** `ParseStatement`: dispatch on the first token. A NAME followed by '='
      starts an assignment; anything else that is not a keyword statement is
      an expression statement ending in NEWLINE. Simple statements end with
      their NEWLINE and block statements with their DEDENT. */
  function ParseStatement(ts: seq<Token>): (r: Result<Parsed<Stmt>>)
    ensures r.Ok? ==> Advanced(ts, r.value.rest)
    ensures r.Ok? ==> r.value.node.line == ts[0].line
    ensures r.Ok? && IsAt(ts, Name) && PeekNextType(ts) == Assign ==> r.value.node.AssignStmt?
    decreases |ts|, 24
  {
    var k :- KindOf(ts);
    if k.If? then ParseIf(ts)
    else if k.While? then ParseWhile(ts)
    else if k.For? then ParseFor(ts)
    else if k.Def? then ParseFunctionDef(ts)
    else if k.Return? then ParseReturn(ts)
    else if k.Pass? then ParsePass(ts)
    else if k.Global? then ParseGlobal(ts)
    else if k.Name? && PeekNextType(ts) == Assign then ParseAssignment(ts)
    else ParseExpressionStatement(ts)
  }

  /** The fallback of `ParseStatement`: an expression and its NEWLINE. */
  function ParseExpressionStatement(ts: seq<Token>): (r: Result<Parsed<Stmt>>)
    requires |ts| > 0
    ensures r.Ok? ==> Advanced(ts, r.value.rest)
    ensures r.Ok? ==> r.value.node.ExpressionStmt? && r.value.node.line == ts[0].line
    decreases |ts|, 23
  {
    var e :- ParseExpression(ts);
    var nl :- Expect(e.rest, Newline, "newline");
    Ok(Parsed(ExpressionStmt(e.node, ts[0].line), nl.rest))
  }

  /** `ParseGlobal`: `global` one or more comma-separated names, NEWLINE. */
  function ParseGlobal(ts: seq<Token>): (r: Result<Parsed<Stmt>>)
    requires IsAt(ts, Global)
    ensures r.Ok? ==> Advanced(ts, r.value.rest)
    ensures r.Ok? ==> r.value.node.GlobalStmt? && |r.value.node.names| >= 1 && r.value.node.line == ts[0].line
    decreases |ts|, 23
  {
    var g := Expect(ts, Global, "global").value;
    var names :- ParseNameList(g.rest, "variable name");
    var nl :- Expect(names.rest, Newline, "newline");
    Ok(Parsed(GlobalStmt(names.node, g.node.line), nl.rest))
  }

  /** The `do { Expect(NAME) } while (Match(COMMA))` loop of `global` and of
      parameter lists. */
  function ParseNameList(ts: seq<Token>, what: string): (r: Result<Parsed<seq<string>>>)
    ensures r.Ok? ==> Advanced(ts, r.value.rest) && |r.value.node| >= 1
    decreases |ts|
  {
    var n :- Expect(ts, Name, what);
    if IsAt(n.rest, Comma) then
      var more :- ParseNameList(n.rest[1..], what);
      Ok(Parsed([n.node.text] + more.node, more.rest))
    else
      Ok(Parsed([n.node.text], n.rest))
  }

  /** `ParseAssignment`: NAME '=' expression NEWLINE. */
  function ParseAssignment(ts: seq<Token>): (r: Result<Parsed<Stmt>>)
    requires IsAt(ts, Name)
    ensures r.Ok? ==> Advanced(ts, r.value.rest)
    ensures r.Ok? ==> r.value.node.AssignStmt? && r.value.node.target == ts[0].text && r.value.node.line == ts[0].line
    decreases |ts|, 23
  {
    var n := Expect(ts, Name, "identifier").value;
    var a :- Expect(n.rest, Assign, "'='");
    var e :- ParseExpression(a.rest);
    var nl :- Expect(e.rest, Newline, "newline");
    Ok(Parsed(AssignStmt(n.node.text, e.node, n.node.line), nl.rest))
  }

  /** The `':' NEWLINE INDENT statements DEDENT` tail shared by every block statement. */
  function ParseSuite(ts: seq<Token>): (r: Result<Parsed<seq<Stmt>>>)
    ensures r.Ok? ==> Advanced(ts, r.value.rest)
    decreases |ts|, 22
  {
    var c :- Expect(ts, Colon, "':'");
    var nl :- Expect(c.rest, Newline, "newline");
    var ind :- Expect(nl.rest, Indent, "indent");
    var body :- ParseBlock(ind.rest);
    var d :- Expect(body.rest, Dedent, "dedent");
    Ok(Parsed(body.node, d.rest))
  }

  /** The statement loop of a block: statements until DEDENT or EOF. */
  function ParseBlock(ts: seq<Token>): (r: Result<Parsed<seq<Stmt>>>)
    ensures r.Ok? ==> Suffix(ts, r.value.rest)
    ensures r.Ok? ==> IsAt(r.value.rest, Dedent) || IsAt(r.value.rest, Eof)
    decreases |ts|, 25
  {
    var k :- KindOf(ts);
    if k.Dedent? || k.Eof? then Ok(Parsed([], ts))
    else
      var s :- ParseStatement(ts);
      var more :- ParseBlock(s.rest);
      Ok(Parsed([s.node] + more.node, more.rest))
  }

  /** `ParseIf`: `if` condition suite, then an optional `else` suite. */
  function ParseIf(ts: seq<Token>): (r: Result<Parsed<Stmt>>)
    requires IsAt(ts, If)
    ensures r.Ok? ==> Advanced(ts, r.value.rest)
    ensures r.Ok? ==> r.value.node.IfStmt? && r.value.node.line == ts[0].line
    decreases |ts|, 23
  {
    var i := Expect(ts, If, "if").value;
    var cond :- ParseExpression(i.rest);
    var thenPart :- ParseSuite(cond.rest);
    var k :- KindOf(thenPart.rest);
    if k.Else? then
      var e := Expect(thenPart.rest, Else, "else").value;
      var elsePart :- ParseSuite(e.rest);
      Ok(Parsed(IfStmt(cond.node, thenPart.node, ElseBlock(elsePart.node), i.node.line), elsePart.rest))
    else
      Ok(Parsed(IfStmt(cond.node, thenPart.node, NoElse, i.node.line), thenPart.rest))
  }

  /** `ParseWhile`: `while` condition suite. */
  function ParseWhile(ts: seq<Token>): (r: Result<Parsed<Stmt>>)
    requires IsAt(ts, While)
    ensures r.Ok? ==> Advanced(ts, r.value.rest)
    ensures r.Ok? ==> r.value.node.WhileStmt? && r.value.node.line == ts[0].line
    decreases |ts|, 23
  {
    var w := Expect(ts, While, "while").value;
    var cond :- ParseExpression(w.rest);
    var body :- ParseSuite(cond.rest);
    Ok(Parsed(WhileStmt(cond.node, body.node, w.node.line), body.rest))
  }

  /** `ParseFor`: `for` NAME `in` expression suite. */
  function ParseFor(ts: seq<Token>): (r: Result<Parsed<Stmt>>)
    requires IsAt(ts, For)
    ensures r.Ok? ==> Advanced(ts, r.value.rest)
    ensures r.Ok? ==> r.value.node.ForStmt? && r.value.node.line == ts[0].line
    decreases |ts|, 23
  {
    var f := Expect(ts, For, "for").value;
    var v :- Expect(f.rest, Name, "variable name");
    var i :- Expect(v.rest, In, "in");
    var iterable :- ParseExpression(i.rest);
    var body :- ParseSuite(iterable.rest);
    Ok(Parsed(ForStmt(v.node.text, iterable.node, body.node, f.node.line), body.rest))
  }

  /** `ParseFunctionDef`: `def` NAME '(' parameters ')' suite. */
  function ParseFunctionDef(ts: seq<Token>): (r: Result<Parsed<Stmt>>)
    requires IsAt(ts, Def)
    ensures r.Ok? ==> Advanced(ts, r.value.rest)
    ensures r.Ok? ==> r.value.node.FunctionDefStmt? && r.value.node.line == ts[0].line
    decreases |ts|, 23
  {
    var d := Expect(ts, Def, "def").value;
    var n :- Expect(d.rest, Name, "function name");
    var lp :- Expect(n.rest, LParen, "'('");
    var params :- ParseParameters(lp.rest);
    var body :- ParseSuite(params.rest);
    Ok(Parsed(FunctionDefStmt(n.node.text, params.node, body.node, d.node.line), body.rest))
  }

  /** The parameter names after `def f(`, and the closing ')'. */
  function ParseParameters(ts: seq<Token>): (r: Result<Parsed<seq<string>>>)
    ensures r.Ok? ==> Advanced(ts, r.value.rest)
  {
    var k :- KindOf(ts);
    var params :- if !k.RParen? then ParseNameList(ts, "parameter name") else Ok(Parsed([], ts));
    var rp :- Expect(params.rest, RParen, "')'");
    Ok(Parsed(params.node, rp.rest))
  }

  /** `ParseReturn`: `return`, an expression unless NEWLINE comes next, NEWLINE. */
  function ParseReturn(ts: seq<Token>): (r: Result<Parsed<Stmt>>)
    requires IsAt(ts, Return)
    ensures r.Ok? ==> Advanced(ts, r.value.rest)
    ensures r.Ok? ==> r.value.node.ReturnStmt? && r.value.node.line == ts[0].line
    ensures r.Ok? ==> (r.value.node.returnValue.None? <==> IsAt(ts[1..], Newline))
    decreases |ts|, 23
  {
    var ret := Expect(ts, Return, "return").value;
    var value :- ParseOptional(ret.rest, Newline);
    var nl :- Expect(value.rest, Newline, "newline");
    Ok(Parsed(ReturnStmt(value.node, ret.node.line), nl.rest))
  }

  /** `ParsePass`: `pass` NEWLINE. */
  function ParsePass(ts: seq<Token>): (r: Result<Parsed<Stmt>>)
    requires IsAt(ts, Pass)
    ensures r.Ok? ==> Advanced(ts, r.value.rest)
    ensures r.Ok? ==> r.value.node == PassStmt(ts[0].line)
    decreases |ts|, 23
  {
    var p := Expect(ts, Pass, "pass").value;
    var nl :- Expect(p.rest, Newline, "newline");
    Ok(Parsed(PassStmt(p.node.line), nl.rest))
  }

  // ---------------------------------------------------------------------
  // Expressions, loosest level first
  // ---------------------------------------------------------------------

  function ParseExpression(ts: seq<Token>): (r: Result<Parsed<Expr>>)
    ensures r.Ok? ==> Advanced(ts, r.value.rest)
    decreases |ts|, 12
  {
    ParseOr(ts)
  }

  /** `ParseOr`: and-expressions joined by `or`, grouped to the left. */
  function ParseOr(ts: seq<Token>): (r: Result<Parsed<Expr>>)
    ensures r.Ok? ==> Advanced(ts, r.value.rest)
    decreases |ts|, 11
  {
    var left :- ParseAnd(ts);
    var r :- ParseOrRest(left.node, left.rest);
    Ok(r)
  }

  function ParseOrRest(left: Expr, ts: seq<Token>): (r: Result<Parsed<Expr>>)
    ensures r.Ok? ==> Suffix(ts, r.value.rest)
    decreases |ts|, 10
  {
    var k :- KindOf(ts);
    if k.Or? then
      var right :- ParseAnd(ts[1..]);
      var r :- ParseOrRest(BinaryExpr(left, Or, right.node, ts[0].line), right.rest);
      Ok(r)
    else Ok(Parsed(left, ts))
  }

  /** `ParseAnd`: not-expressions joined by `and`, grouped to the left. */
  function ParseAnd(ts: seq<Token>): (r: Result<Parsed<Expr>>)
    ensures r.Ok? ==> Advanced(ts, r.value.rest)
    decreases |ts|, 9
  {
    var left :- ParseNot(ts);
    var r :- ParseAndRest(left.node, left.rest);
    Ok(r)
  }

  function ParseAndRest(left: Expr, ts: seq<Token>): (r: Result<Parsed<Expr>>)
    ensures r.Ok? ==> Suffix(ts, r.value.rest)
    decreases |ts|, 9
  {
    var k :- KindOf(ts);
    if k.And? then
      var right :- ParseNot(ts[1..]);
      var r :- ParseAndRest(BinaryExpr(left, And, right.node, ts[0].line), right.rest);
      Ok(r)
    else Ok(Parsed(left, ts))
  }

  /** `ParseNot`: any number of prefix `not`s over a comparison. */
  function ParseNot(ts: seq<Token>): (r: Result<Parsed<Expr>>)
    ensures r.Ok? ==> Advanced(ts, r.value.rest)
    decreases |ts|, 8
  {
    var k :- KindOf(ts);
    if k.Not? then
      var operand :- ParseNot(ts[1..]);
      Ok(Parsed(UnaryExpr(Not, operand.node, ts[0].line), operand.rest))
    else ParseCompare(ts)
  }

  /** `ParseCompare`: a sum, optionally one comparison operator and another
      sum; comparisons do not chain. */
  function ParseCompare(ts: seq<Token>): (r: Result<Parsed<Expr>>)
    ensures r.Ok? ==> Advanced(ts, r.value.rest)
    decreases |ts|, 7
  {
    var left :- ParseAddSubtract(ts);
    var k :- KindOf(left.rest);
    if IsComparison(k) then
      var right :- ParseAddSubtract(left.rest[1..]);
      Ok(Parsed(BinaryExpr(left.node, k, right.node, left.rest[0].line), right.rest))
    else Ok(left)
  }

  /** `ParseAddSubtract`: terms joined by `+`/`-`, grouped to the left. */
  function ParseAddSubtract(ts: seq<Token>): (r: Result<Parsed<Expr>>)
    ensures r.Ok? ==> Advanced(ts, r.value.rest)
    decreases |ts|, 6
  {
    var left :- ParseTerm(ts);
    var r :- ParseAddSubtractRest(left.node, left.rest);
    Ok(r)
  }

  function ParseAddSubtractRest(left: Expr, ts: seq<Token>): (r: Result<Parsed<Expr>>)
    ensures r.Ok? ==> Suffix(ts, r.value.rest)
    decreases |ts|, 6
  {
    var k :- KindOf(ts);
    if k.Plus? || k.Minus? then
      var right :- ParseTerm(ts[1..]);
      var r :- ParseAddSubtractRest(BinaryExpr(left, k, right.node, ts[0].line), right.rest);
      Ok(r)
    else Ok(Parsed(left, ts))
  }

  /** `ParseTerm`: factors joined by `*`, `/`, `%`, grouped to the left. */
  function ParseTerm(ts: seq<Token>): (r: Result<Parsed<Expr>>)
    ensures r.Ok? ==> Advanced(ts, r.value.rest)
    decreases |ts|, 5
  {
    var left :- ParseFactor(ts);
    var r :- ParseTermRest(left.node, left.rest);
    Ok(r)
  }

  function ParseTermRest(left: Expr, ts: seq<Token>): (r: Result<Parsed<Expr>>)
    ensures r.Ok? ==> Suffix(ts, r.value.rest)
    decreases |ts|, 5
  {
    var k :- KindOf(ts);
    if k.Star? || k.Slash? || k.Percent? then
      var right :- ParseFactor(ts[1..]);
      var r :- ParseTermRest(BinaryExpr(left, k, right.node, ts[0].line), right.rest);
      Ok(r)
    else Ok(Parsed(left, ts))
  }

  /** String-literal text: one pair of matching outer quotes removed, nothing
      else unescaped. */
  function StripQuotes(s: string): Result<string> {
    if |s| > 0 && ((s[0] == '"' && s[|s| - 1] == '"') || (s[0] == '\'' && s[|s| - 1] == '\'')) then
      if |s| < 2 then Err(NegativeLength) else Ok(s[1..|s| - 1])
    else Ok(s)
  }

  function InvalidNumber(t: Token): string {
    "Invalid number '" + t.text + "' at line " + Text.IntToString(t.line)
  }

  function UnexpectedToken(t: Token): string {
    "Unexpected token '" + t.text + "' at line " + Text.IntToString(t.line)
  }

  /** `ParseFactor`: unary minus, literals, a name or a parenthesised
      expression with its postfix chain, or a list literal. */
  function ParseFactor(ts: seq<Token>): (r: Result<Parsed<Expr>>)
    ensures r.Ok? ==> Advanced(ts, r.value.rest)
    decreases |ts|, 4
  {
    var t :- if |ts| > 0 then Ok(ts[0]) else Err(NullReference);
    var after := ts[1..];
    if t.kind.Minus? then
      var operand :- ParseFactor(after);
      Ok(Parsed(UnaryExpr(Minus, operand.node, t.line), operand.rest))
    else if t.kind.Number? then
      match Text.ParseDecimal(t.text)
      case None => Err(InvalidNumber(t))
      case Some(v) => Ok(Parsed(NumberExpr(v, t.line), after))
    else if t.kind.String? then
      var s :- StripQuotes(t.text);
      Ok(Parsed(StringExpr(s, t.line), after))
    else if t.kind.Boolean? then
      Ok(Parsed(BooleanExpr(t.text == "True", t.line), after))
    else if t.kind.Name? then
      var r :- ParseCallIndexAttribute(NameExpr(t.text, t.line), after);
      Ok(r)
    else if t.kind.LParen? then
      var e :- ParseExpression(after);
      var close :- Expect(e.rest, RParen, "')'");
      var r :- ParseCallIndexAttribute(e.node, close.rest);
      Ok(r)
    else if t.kind.LBracket? then
      var elements :- ParseDelimited(after, RBracket, "']'");
      Ok(Parsed(ListExpr(elements.node, t.line), elements.rest))
    else Err(UnexpectedToken(t))
  }

  /** Comma-separated expressions up to a closing token, which may come at
      once: the elements of `[...]` and the arguments of `f(...)`. */
  function ParseDelimited(ts: seq<Token>, close: TokenKind, what: string): (r: Result<Parsed<seq<Expr>>>)
    requires !close.Eof?
    ensures r.Ok? ==> Advanced(ts, r.value.rest)
    decreases |ts|, 14
  {
    var k :- KindOf(ts);
    var items :- if k != close then ParseExprList(ts) else Ok(Parsed([], ts));
    var c :- Expect(items.rest, close, what);
    Ok(Parsed(items.node, c.rest))
  }

  /** The `do { ParseExpression() } while (Match(COMMA))` loop of argument
      lists and list literals. */
  function ParseExprList(ts: seq<Token>): (r: Result<Parsed<seq<Expr>>>)
    ensures r.Ok? ==> Advanced(ts, r.value.rest) && |r.value.node| >= 1
    decreases |ts|, 13
  {
    var e :- ParseExpression(ts);
    if IsAt(e.rest, Comma) then
      var more :- ParseExprList(e.rest[1..]);
      Ok(Parsed([e.node] + more.node, more.rest))
    else Ok(Parsed([e.node], e.rest))
  }

  /** `ParseCallIndexAttribute`: calls, attribute accesses, indexing and
      slicing applied left to right; every node takes the line of its
      target. */
  function ParseCallIndexAttribute(node: Expr, ts: seq<Token>): (r: Result<Parsed<Expr>>)
    ensures r.Ok? ==> Suffix(ts, r.value.rest)
    ensures r.Ok? ==> r.value.node.line == node.line
    decreases |ts|, 3
  {
    var k :- KindOf(ts);
    if k.LParen? then
      var args :- ParseDelimited(ts[1..], RParen, "')'");
      var r :- ParseCallIndexAttribute(CallExpr(node, args.node, node.line), args.rest);
      Ok(r)
    else if k.Dot? then
      var name :- Expect(ts[1..], Name, "attribute name");
      var r :- ParseCallIndexAttribute(AttributeExpr(node, name.node.text, node.line), name.rest);
      Ok(r)
    else if k.LBracket? then
      var sub :- ParseSubscript(node, ts[1..]);
      var r :- ParseCallIndexAttribute(sub.node, sub.rest);
      Ok(r)
    else Ok(Parsed(node, ts))
  }

  /** After a '[': a ':' makes a slice whose bounds are both optional;
      otherwise the brackets hold one index. */
  function ParseSubscript(node: Expr, ts: seq<Token>): (r: Result<Parsed<Expr>>)
    ensures r.Ok? ==> Advanced(ts, r.value.rest)
    ensures r.Ok? ==> r.value.node.line == node.line
    ensures r.Ok? ==> (r.value.node.IndexExpr? || r.value.node.SliceExpr?) && r.value.node.target == node
    decreases |ts|, 15
  {
    var start :- ParseOptional(ts, Colon);
    var k2 :- KindOf(start.rest);
    if k2.Colon? then
      var afterColon := start.rest[1..];
      var end :- ParseOptional(afterColon, RBracket);
      var close :- Expect(end.rest, RBracket, "']'");
      Ok(Parsed(SliceExpr(node, start.node, end.node, node.line), close.rest))
    else
      var close :- Expect(start.rest, RBracket, "']'");
      Ok(Parsed(IndexExpr(node, start.node.value, node.line), close.rest))
  }

  /** An expression unless the current token is `stop`: the optional value
      of `return` and the optional bounds of a slice. */
  function ParseOptional(ts: seq<Token>, stop: TokenKind): (r: Result<Parsed<Option<Expr>>>)
    ensures r.Ok? ==> Suffix(ts, r.value.rest)
    ensures r.Ok? ==> (r.value.node.None? <==> IsAt(ts, stop))
    ensures r.Ok? && r.value.node.None? ==> r.value.rest == ts
    decreases |ts|, 13
  {
    var k :- KindOf(ts);
    if k != stop then
      var e :- ParseExpression(ts);
      Ok(Parsed(Some(e.node), e.rest))
    else Ok(Parsed(None, ts))
  }
}
