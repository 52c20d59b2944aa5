/** The statement half of the reference printer: statements, suites and
    whole programs back to tokens, and the round trips that pin down what the
    statement functions of Scripts/ProgramExec/PythonParser.cs build.
    Parsing a printed statement gives the same statement back and leaves
    exactly what followed it; parsing a printed program followed by EOF gives
    the program back. Together with the expression round trip this states the
    parser's dispatch on the first token, the NAME '=' test for assignments,
    the ':' NEWLINE INDENT ... DEDENT suites, the optional `else`, the
    parameter and `global` name lists, the optional `return` value, and the
    line every statement takes from its first token. */
module ProgramPrinter {
  import opened Wrappers
  import opened Tokens
  import opened Ast
  import opened Parser
  import opened Printer

  function NewlineAt(line: int): Token {
    Token(Newline, "\\n", line)
  }

  /** The kinds a statement can start with. */
  predicate StartsStatement(k: TokenKind) {
    StartsExpression(k) || k.If? || k.While? || k.For? || k.Def? ||
    k.Return? || k.Pass? || k.Global?
  }

  /** What may follow a statement: anything but nothing or an `else`, which
      would be read as the else part of an `if` before it. */
  predicate Closed(rest: seq<Token>) {
    |rest| > 0 && !rest[0].kind.Else?
  }

  // ---------------------------------------------------------------------
  // Statements the parser can produce
  // ---------------------------------------------------------------------

  /** Well-formed expressions throughout; an expression statement on the
      line of its first token; at least one name after `global`. */
  predicate WellFormedStmt(s: Stmt)
    decreases SizeS(s), 0
  {
    match s
    case ExpressionStmt(e, line) => WellFormed(e) && Lead(e) == line
    case AssignStmt(_, e, _) => WellFormed(e)
    case IfStmt(c, t, el, _) =>
      WellFormed(c) && WellFormedBlock(t) &&
      (match el
       case NoElse => true
       case ElseBlock(ss) => assert SizeElse(el) == SizeSs(ss); WellFormedBlock(ss))
    case WhileStmt(c, b, _) => WellFormed(c) && WellFormedBlock(b)
    case ForStmt(_, it, b, _) => WellFormed(it) && WellFormedBlock(b)
    case FunctionDefStmt(_, _, b, _) => WellFormedBlock(b)
    case ReturnStmt(v, _) => (match v case None => true case Some(e) => WellFormed(e))
    case PassStmt(_) => true
    case GlobalStmt(names, _) => |names| >= 1
  }

  predicate WellFormedBlock(ss: seq<Stmt>)
    decreases SizeSs(ss), 1
  {
    ss == [] || (WellFormedStmt(ss[0]) && WellFormedBlock(ss[1..]))
  }

  // ---------------------------------------------------------------------
  // Printing
  // ---------------------------------------------------------------------

  /** The tokens of `s` followed by `rest`. Simple statements end with their
      NEWLINE, block statements with the DEDENT of their last suite. */
  function EmitStmt(s: Stmt, rest: seq<Token>): (r: seq<Token>)
    ensures |r| > 0 && StartsStatement(r[0].kind)
    decreases SizeS(s), 0
  {
    match s
    case ExpressionStmt(e, line) => Emit(e, 1, [NewlineAt(line)] + rest)
    case AssignStmt(t, e, line) =>
      [Token(Name, t, line)] + ([Token(Assign, "=", line)] + Emit(e, 1, [NewlineAt(line)] + rest))
    case IfStmt(c, t, el, line) =>
      [Token(If, "if", line)] + Emit(c, 1, EmitSuite(t, line, EmitElse(el, line, rest)))
    case WhileStmt(c, b, line) =>
      [Token(While, "while", line)] + Emit(c, 1, EmitSuite(b, line, rest))
    case ForStmt(v, it, b, line) =>
      [Token(For, "for", line)] + ([Token(Name, v, line)] + ([Token(In, "in", line)] +
        Emit(it, 1, EmitSuite(b, line, rest))))
    case FunctionDefStmt(n, ps, b, line) =>
      [Token(Def, "def", line)] + ([Token(Name, n, line)] + ([Token(LParen, "(", line)] +
        EmitNames(ps, line, [Token(RParen, ")", line)] + EmitSuite(b, line, rest))))
    case ReturnStmt(v, line) =>
      [Token(Return, "return", line)] +
        (match v
         case None => [NewlineAt(line)] + rest
         case Some(e) => Emit(e, 1, [NewlineAt(line)] + rest))
    case PassStmt(line) => [Token(Pass, "pass", line)] + ([NewlineAt(line)] + rest)
    case GlobalStmt(names, line) =>
      [Token(Global, "global", line)] + EmitNames(names, line, [NewlineAt(line)] + rest)
  }

  /** The `else` part of an `if`, if there is one. */
  function EmitElse(el: ElseBranch, line: int, rest: seq<Token>): seq<Token>
    decreases SizeElse(el), 3
  {
    match el
    case NoElse => rest
    case ElseBlock(ss) => [Token(Else, "else", line)] + EmitSuite(ss, line, rest)
  }

  /** ':' NEWLINE INDENT, the statements, DEDENT. */
  function EmitSuite(ss: seq<Stmt>, line: int, rest: seq<Token>): seq<Token>
    decreases SizeSs(ss), 2
  {
    [Token(Colon, ":", line)] + ([NewlineAt(line)] + ([Token(Indent, "", line)] +
      EmitBlock(ss, [Token(Dedent, "", line)] + rest)))
  }

  /** Statements one after another. */
  function EmitBlock(ss: seq<Stmt>, rest: seq<Token>): (r: seq<Token>)
    ensures ss != [] ==> |r| > 0 && StartsStatement(r[0].kind)
    ensures ss == [] ==> r == rest
    decreases SizeSs(ss), 1
  {
    if ss == [] then rest else EmitStmt(ss[0], EmitBlock(ss[1..], rest))
  }

  /** Comma-separated names. */
  function EmitNames(names: seq<string>, line: int, rest: seq<Token>): (r: seq<Token>)
    ensures names != [] ==> |r| > 0 && r[0].kind.Name?
    ensures names == [] ==> r == rest
  {
    if names == [] then rest
    else if |names| == 1 then [Token(Name, names[0], line)] + rest
    else [Token(Name, names[0], line)] + ([Token(Comma, ",", line)] + EmitNames(names[1..], line, rest))
  }

  /** A whole program: its statements, then EOF on line `last`. */
  function EmitProgram(ss: seq<Stmt>, last: int): seq<Token> {
    EmitBlock(ss, [Token(Eof, "", last)])
  }

  // ---------------------------------------------------------------------
  // Round trips
  // ---------------------------------------------------------------------

  /** A name list: every name, up to the first token that is not a comma. */
  lemma {:induction false} NamesRound(names: seq<string>, line: int, rest: seq<Token>, what: string)
    requires |names| >= 1 && !IsAt(rest, Comma)
    ensures ParseNameList(EmitNames(names, line, rest), what) == Ok(Parsed(names, rest))
  {
    var t := Token(Name, names[0], line);
    if |names| == 1 {
      DropFirst(t, rest);
      assert names == [names[0]];
    } else {
      var more := EmitNames(names[1..], line, rest);
      DropFirst(t, [Token(Comma, ",", line)] + more);
      DropFirst(Token(Comma, ",", line), more);
      NamesRound(names[1..], line, rest, what);
      assert [names[0]] + names[1..] == names;
    }
  }

  /** A printed program, then EOF: `Parse` gives the statements back. */
  lemma {:induction false} ProgramRoundTrip(ss: seq<Stmt>, last: int)
    requires WellFormedBlock(ss)
    ensures Parse(EmitProgram(ss, last)) == Ok(ss)
    decreases |ss|
  {
    var eof := Token(Eof, "", last);
    if ss == [] {
      assert EmitProgram(ss, last) == [eof];
    } else {
      var after := EmitProgram(ss[1..], last);
      ProgramCons(ss, last);
      StmtRoundTrip(ss[0], after);
      ProgramRoundTrip(ss[1..], last);
      ProgramStep(EmitStmt(ss[0], after), ss[0], after, ss[1..]);
      assert [ss[0]] + ss[1..] == ss;
    }
  }

  /** A non-empty program is its first statement printed before the rest. */
  lemma ProgramCons(ss: seq<Stmt>, last: int)
    requires ss != []
    ensures EmitProgram(ss, last) == EmitStmt(ss[0], EmitProgram(ss[1..], last))
    ensures Closed(EmitProgram(ss[1..], last))
  {
  }

  /** The top-level loop skips a NEWLINE or a stray DEDENT, and stops at EOF
      or at the end of the tokens. */
  lemma {:induction false} ParseSkipsLayout(t: Token, ts: seq<Token>)
    ensures t.kind.Newline? || t.kind.Dedent? ==> Parse([t] + ts) == Parse(ts)
    ensures t.kind.Eof? ==> Parse([t] + ts) == Ok([])
    ensures Parse([]) == Ok([])
  {
    DropFirst(t, ts);
  }

  /** A printed statement: `ParseStatement` gives it back and leaves exactly
      what followed it. */
  lemma {:induction false} StmtRoundTrip(s: Stmt, rest: seq<Token>)
    requires WellFormedStmt(s) && Closed(rest)
    ensures ParseStatement(EmitStmt(s, rest)) == Ok(Parsed(s, rest))
    decreases SizeS(s), 1
  {
    match s
    case ExpressionStmt(_, _) => ExpressionStmtRound(s, rest);
    case AssignStmt(_, _, _) => AssignRound(s, rest);
    case IfStmt(_, _, _, _) => IfRound(s, rest);
    case WhileStmt(_, _, _) => WhileRound(s, rest);
    case ForStmt(_, _, _, _) => ForRound(s, rest);
    case FunctionDefStmt(_, _, _, _) => FunctionDefRound(s, rest);
    case ReturnStmt(_, _) => ReturnRound(s, rest);
    case PassStmt(line) =>
      DropFirst(Token(Pass, "pass", line), [NewlineAt(line)] + rest);
      DropFirst(NewlineAt(line), rest);
    case GlobalStmt(_, _) => GlobalRound(s, rest);
  }

  /** An expression and its NEWLINE: neither a keyword nor NAME '=' comes
      first, so the fallback of the dispatch reads it. */
  lemma {:induction false} ExpressionStmtRound(s: Stmt, rest: seq<Token>)
    requires s.ExpressionStmt? && WellFormedStmt(s)
    ensures ParseStatement(EmitStmt(s, rest)) == Ok(Parsed(s, rest))
  {
    var nl := NewlineAt(s.line);
    var ts := EmitStmt(s, rest);
    assert ts == Emit(s.expression, 1, [nl] + rest);
    DropFirst(nl, rest);
    ExpressionRoundTrip(s.expression, [nl] + rest);
    EmitNoAssign(s.expression, 1, [nl] + rest);
    assert !(IsAt(ts, Name) && PeekNextType(ts) == Assign);
  }

  lemma {:induction false} AssignRound(s: Stmt, rest: seq<Token>)
    requires s.AssignStmt? && WellFormedStmt(s)
    ensures ParseStatement(EmitStmt(s, rest)) == Ok(Parsed(s, rest))
  {
    var line := s.line;
    var nl := NewlineAt(line);
    var value := Emit(s.value, 1, [nl] + rest);
    var ts := EmitStmt(s, rest);
    assert ts == [Token(Name, s.target, line)] + ([Token(Assign, "=", line)] + value);
    DropFirst(Token(Name, s.target, line), [Token(Assign, "=", line)] + value);
    DropFirst(Token(Assign, "=", line), value);
    DropFirst(nl, rest);
    ExpressionRoundTrip(s.value, [nl] + rest);
    assert ParseStatement(ts) == ParseAssignment(ts);
  }

  lemma {:induction false} IfRound(s: Stmt, rest: seq<Token>)
    requires s.IfStmt? && WellFormedStmt(s) && Closed(rest)
    ensures ParseStatement(EmitStmt(s, rest)) == Ok(Parsed(s, rest))
    decreases SizeS(s), 0
  {
    var line := s.line;
    var elsePart := EmitElse(s.elseBranch, line, rest);
    var thenPart := EmitSuite(s.thenBranch, line, elsePart);
    DropFirst(Token(If, "if", line), Emit(s.condition, 1, thenPart));
    Closes(Token(Colon, ":", line), thenPart[1..], 1);
    ExpressionRoundTrip(s.condition, thenPart);
    SuiteRound(s.thenBranch, line, elsePart);
    match s.elseBranch
    case NoElse =>
    case ElseBlock(ss) =>
      assert SizeElse(s.elseBranch) == SizeSs(ss);
      DropFirst(Token(Else, "else", line), EmitSuite(ss, line, rest));
      SuiteRound(ss, line, rest);
  }

  lemma {:induction false} WhileRound(s: Stmt, rest: seq<Token>)
    requires s.WhileStmt? && WellFormedStmt(s)
    ensures ParseStatement(EmitStmt(s, rest)) == Ok(Parsed(s, rest))
    decreases SizeS(s), 0
  {
    var line := s.line;
    var body := EmitSuite(s.body, line, rest);
    DropFirst(Token(While, "while", line), Emit(s.condition, 1, body));
    Closes(Token(Colon, ":", line), body[1..], 1);
    ExpressionRoundTrip(s.condition, body);
    SuiteRound(s.body, line, rest);
  }

  lemma {:induction false} ForRound(s: Stmt, rest: seq<Token>)
    requires s.ForStmt? && WellFormedStmt(s)
    ensures ParseStatement(EmitStmt(s, rest)) == Ok(Parsed(s, rest))
    decreases SizeS(s), 0
  {
    var line := s.line;
    var body := EmitSuite(s.body, line, rest);
    Closes(Token(Colon, ":", line), body[1..], 1);
    ExpressionRoundTrip(s.iterable, body);
    SuiteRound(s.body, line, rest);
    ForStep(s.variable, line, Emit(s.iterable, 1, body), s.iterable, body, s.body, rest);
  }

  /** `for NAME in` and what the iterable and the suite parse to. */
  lemma {:induction false} ForStep(variable: string, line: int, iterable: seq<Token>, e: Expr,
                                   body: seq<Token>, ss: seq<Stmt>, rest: seq<Token>)
    requires ParseExpression(iterable) == Ok(Parsed(e, body))
    requires ParseSuite(body) == Ok(Parsed(ss, rest))
    ensures ParseStatement([Token(For, "for", line)] + ([Token(Name, variable, line)] + ([Token(In, "in", line)] + iterable)))
         == Ok(Parsed(ForStmt(variable, e, ss, line), rest))
  {
    var afterName := [Token(In, "in", line)] + iterable;
    var afterFor := [Token(Name, variable, line)] + afterName;
    var ts := [Token(For, "for", line)] + afterFor;
    DropFirst(Token(For, "for", line), afterFor);
    DropFirst(Token(Name, variable, line), afterName);
    DropFirst(Token(In, "in", line), iterable);
    assert Expect(ts, For, "for") == Ok(Parsed(Token(For, "for", line), afterFor));
    assert Expect(afterFor, Name, "variable name") == Ok(Parsed(Token(Name, variable, line), afterName));
    assert Expect(afterName, In, "in") == Ok(Parsed(Token(In, "in", line), iterable));
    DispatchFor(ts);
  }

  lemma {:induction false} DispatchFor(ts: seq<Token>)
    requires IsAt(ts, For)
    ensures ParseStatement(ts) == ParseFor(ts)
  {
    assert KindOf(ts) == Ok(For);
  }

  lemma {:induction false} FunctionDefRound(s: Stmt, rest: seq<Token>)
    requires s.FunctionDefStmt? && WellFormedStmt(s)
    ensures ParseStatement(EmitStmt(s, rest)) == Ok(Parsed(s, rest))
    decreases SizeS(s), 0
  {
    var line := s.line;
    var body := EmitSuite(s.body, line, rest);
    ParametersRound(s.parameters, line, body);
    SuiteRound(s.body, line, rest);
    FunctionDefStep(s.name, line, EmitNames(s.parameters, line, [Token(RParen, ")", line)] + body),
      s.parameters, body, s.body, rest);
  }

  /** `def f (` and what the parameter list and the suite parse to. */
  lemma {:induction false} FunctionDefStep(name: string, line: int, params: seq<Token>, ps: seq<string>,
                                           body: seq<Token>, ss: seq<Stmt>, rest: seq<Token>)
    requires ParseParameters(params) == Ok(Parsed(ps, body))
    requires ParseSuite(body) == Ok(Parsed(ss, rest))
    ensures ParseStatement([Token(Def, "def", line)] + ([Token(Name, name, line)] + ([Token(LParen, "(", line)] + params)))
         == Ok(Parsed(FunctionDefStmt(name, ps, ss, line), rest))
  {
    var afterName := [Token(LParen, "(", line)] + params;
    var afterDef := [Token(Name, name, line)] + afterName;
    var ts := [Token(Def, "def", line)] + afterDef;
    DropFirst(Token(Def, "def", line), afterDef);
    DropFirst(Token(Name, name, line), afterName);
    DropFirst(Token(LParen, "(", line), params);
    assert Expect(ts, Def, "def") == Ok(Parsed(Token(Def, "def", line), afterDef));
    assert Expect(afterDef, Name, "function name") == Ok(Parsed(Token(Name, name, line), afterName));
    assert Expect(afterName, LParen, "'('") == Ok(Parsed(Token(LParen, "(", line), params));
    DispatchDef(ts);
  }

  lemma {:induction false} DispatchDef(ts: seq<Token>)
    requires IsAt(ts, Def)
    ensures ParseStatement(ts) == ParseFunctionDef(ts)
  {
    assert KindOf(ts) == Ok(Def);
  }

  /** The parameter list, possibly empty, and its ')'. */
  lemma {:induction false} ParametersRound(ps: seq<string>, line: int, body: seq<Token>)
    ensures ParseParameters(EmitNames(ps, line, [Token(RParen, ")", line)] + body)) == Ok(Parsed(ps, body))
  {
    var close := [Token(RParen, ")", line)] + body;
    DropFirst(Token(RParen, ")", line), body);
    if ps != [] {
      NamesRound(ps, line, close, "parameter name");
    }
  }

  lemma {:induction false} ReturnRound(s: Stmt, rest: seq<Token>)
    requires s.ReturnStmt? && WellFormedStmt(s)
    ensures ParseStatement(EmitStmt(s, rest)) == Ok(Parsed(s, rest))
  {
    var line := s.line;
    var nl := NewlineAt(line);
    DropFirst(nl, rest);
    match s.returnValue
    case None =>
      DropFirst(Token(Return, "return", line), [nl] + rest);
    case Some(e) =>
      DropFirst(Token(Return, "return", line), Emit(e, 1, [nl] + rest));
      ExpressionRoundTrip(e, [nl] + rest);
  }

  lemma {:induction false} GlobalRound(s: Stmt, rest: seq<Token>)
    requires s.GlobalStmt? && WellFormedStmt(s)
    ensures ParseStatement(EmitStmt(s, rest)) == Ok(Parsed(s, rest))
  {
    var line := s.line;
    var nl := NewlineAt(line);
    NamesRound(s.names, line, [nl] + rest, "variable name");
    GlobalStep(line, EmitNames(s.names, line, [nl] + rest), s.names, rest);
  }

  /** `global` and what the name list parses to, up to its NEWLINE. */
  lemma {:induction false} GlobalStep(line: int, names: seq<Token>, ns: seq<string>, rest: seq<Token>)
    requires ParseNameList(names, "variable name") == Ok(Parsed(ns, [NewlineAt(line)] + rest))
    ensures ParseStatement([Token(Global, "global", line)] + names) == Ok(Parsed(GlobalStmt(ns, line), rest))
  {
    var ts := [Token(Global, "global", line)] + names;
    DropFirst(Token(Global, "global", line), names);
    DropFirst(NewlineAt(line), rest);
    assert Expect(ts, Global, "global") == Ok(Parsed(Token(Global, "global", line), names));
    DispatchGlobal(ts);
  }

  lemma {:induction false} DispatchGlobal(ts: seq<Token>)
    requires IsAt(ts, Global)
    ensures ParseStatement(ts) == ParseGlobal(ts)
  {
    assert KindOf(ts) == Ok(Global);
  }

  /** A printed suite: ':' NEWLINE INDENT, the block, its DEDENT. */
  lemma {:induction false} SuiteRound(ss: seq<Stmt>, line: int, rest: seq<Token>)
    requires WellFormedBlock(ss)
    ensures ParseSuite(EmitSuite(ss, line, rest)) == Ok(Parsed(ss, rest))
    decreases SizeSs(ss), 3
  {
    var dedent := Token(Dedent, "", line);
    var block := EmitBlock(ss, [dedent] + rest);
    DropFirst(Token(Colon, ":", line), [NewlineAt(line)] + ([Token(Indent, "", line)] + block));
    DropFirst(NewlineAt(line), [Token(Indent, "", line)] + block);
    DropFirst(Token(Indent, "", line), block);
    DropFirst(dedent, rest);
    BlockRound(ss, [dedent] + rest);
  }

  /** A printed block up to a DEDENT or EOF: `ParseBlock` reads every
      statement and stops there. */
  lemma {:induction false} BlockRound(ss: seq<Stmt>, rest: seq<Token>)
    requires WellFormedBlock(ss) && (IsAt(rest, Dedent) || IsAt(rest, Eof))
    ensures ParseBlock(EmitBlock(ss, rest)) == Ok(Parsed(ss, rest))
    decreases SizeSs(ss), 2
  {
    if ss != [] {
      var after := EmitBlock(ss[1..], rest);
      var ts := EmitBlock(ss, rest);
      assert ts == EmitStmt(ss[0], after);
      assert Closed(after);
      StmtRoundTrip(ss[0], after);
      BlockRound(ss[1..], rest);
      BlockStep(ts, ss[0], after, ss[1..], rest);
      assert [ss[0]] + ss[1..] == ss;
    }
  }

  /** One statement of a block, then the rest of the block. */
  lemma {:induction false} BlockStep(ts: seq<Token>, first: Stmt, after: seq<Token>, more: seq<Stmt>, rest: seq<Token>)
    requires |ts| > 0 && !ts[0].kind.Dedent? && !ts[0].kind.Eof?
    requires ParseStatement(ts) == Ok(Parsed(first, after))
    requires ParseBlock(after) == Ok(Parsed(more, rest))
    ensures ParseBlock(ts) == Ok(Parsed([first] + more, rest))
  {
    assert KindOf(ts) == Ok(ts[0].kind);
  }

  /** One statement of a program, then the rest of the program. */
  lemma {:induction false} ProgramStep(ts: seq<Token>, first: Stmt, after: seq<Token>, more: seq<Stmt>)
    requires |ts| > 0 && StartsStatement(ts[0].kind)
    requires ParseStatement(ts) == Ok(Parsed(first, after))
    requires Parse(after) == Ok(more)
    ensures Parse(ts) == Ok([first] + more)
  {
    assert !(ts[0].kind.Eof? || ts[0].kind.Newline? || ts[0].kind.Dedent?);
  }
}
