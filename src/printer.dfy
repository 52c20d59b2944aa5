/** A reference printer from syntax trees back to tokens, and the round trip
    that pins down what the recursive-descent parser of
    Scripts/ProgramExec/PythonParser.cs builds: parsing the printed tokens of
    a tree gives the same tree back. The printer puts parentheses exactly
    where the precedence ladder of the parser needs them, so the round trip
    states the parser's precedence levels, its left grouping of `or`, `and`,
    `+ -` and `* / %`, its non-chaining comparisons, its postfix chains and
    the lines it gives every node. */
module Printer {
  import opened Wrappers
  import opened Tokens
  import opened Ast
  import opened Parser
  import Text

  // ---------------------------------------------------------------------
  // Precedence
  // ---------------------------------------------------------------------

  /** Binding strength, loosest first: 1 `or`, 2 `and`, 3 `not`,
      4 comparisons, 5 `+ -`, 6 `* / %`, 7 unary minus, 8 literals, names,
      list displays and postfix forms. */
  function Prec(e: Expr): (p: nat)
    ensures 1 <= p <= 8
  {
    match e
    case BinaryExpr(_, op, _, _) =>
      if op.Or? then 1
      else if op.And? then 2
      else if IsComparison(op) then 4
      else if op.Plus? || op.Minus? then 5
      else 6
    case UnaryExpr(op, _, _) => if op.Not? then 3 else 7
    case _ => 8
  }

  /** The forms that `ParseCallIndexAttribute` builds on without parentheses:
      a name and the postfix forms themselves. */
  predicate IsChain(e: Expr) {
    e.NameExpr? || e.CallExpr? || e.AttributeExpr? || e.IndexExpr? || e.SliceExpr?
  }

  predicate IsBinaryOperator(k: TokenKind) {
    k.Or? || k.And? || IsComparison(k) || k.Plus? || k.Minus? ||
    k.Star? || k.Slash? || k.Percent?
  }

  /** A tree the parser can produce: operators it knows, number literals
      that are whole and non-negative (a '-' is a separate unary node), and
      postfix nodes on the line of their target. */
  predicate WellFormed(e: Expr) {
    match e
    case NumberExpr(v, _) => v >= 0.0 && v == v.Floor as real
    case StringExpr(_, _) => true
    case BooleanExpr(_, _) => true
    case NameExpr(_, _) => true
    case ListExpr(es, _) => forall i :: 0 <= i < |es| ==> WellFormed(es[i])
    case BinaryExpr(l, op, r, _) => IsBinaryOperator(op) && WellFormed(l) && WellFormed(r)
    case UnaryExpr(op, x, _) => (op.Not? || op.Minus?) && WellFormed(x)
    case CallExpr(c, args, line) =>
      line == c.line && WellFormed(c) && forall i :: 0 <= i < |args| ==> WellFormed(args[i])
    case AttributeExpr(t, _, line) => line == t.line && WellFormed(t)
    case IndexExpr(t, i, line) => line == t.line && WellFormed(t) && WellFormed(i)
    case SliceExpr(t, s, en, line) =>
      line == t.line && WellFormed(t) &&
      (match s case None => true case Some(x) => WellFormed(x)) &&
      (match en case None => true case Some(x) => WellFormed(x))
  }

  predicate AllWellFormed(es: seq<Expr>) {
    forall i :: 0 <= i < |es| ==> WellFormed(es[i])
  }

  // ---------------------------------------------------------------------
  // Printing
  // ---------------------------------------------------------------------

  /** The kinds an expression can start with. */
  predicate StartsExpression(k: TokenKind) {
    k.LParen? || k.Number? || k.String? || k.Boolean? || k.Name? ||
    k.LBracket? || k.Minus? || k.Not?
  }

  function Lexeme(k: TokenKind): string {
    match OperatorLexeme(k)
    case Some(s) => s
    case None => if k.Or? then "or" else if k.And? then "and" else "not"
  }

  /** The levels at which the two operands of a binary operator are printed:
      the left one may be of the same level (left grouping), the right one
      must bind tighter; both sides of a comparison bind tighter. */
  function LeftLevel(op: TokenKind): nat {
    if op.Or? then 1 else if op.And? then 2 else if IsComparison(op) then 5
    else if op.Plus? || op.Minus? then 5 else 6
  }

  function RightLevel(op: TokenKind): nat {
    if op.Or? then 2 else if op.And? then 3 else if IsComparison(op) then 5
    else if op.Plus? || op.Minus? then 6 else 7
  }

  /** The line of the first token printed for `e` at its own level. */
  function Lead(e: Expr): int
    decreases SizeE(e), 0
  {
    match e
    case BinaryExpr(l, op, _, _) => if Prec(l) < LeftLevel(op) then l.line else Lead(l)
    case CallExpr(c, _, _) => LeadTarget(c)
    case AttributeExpr(t, _, _) => LeadTarget(t)
    case IndexExpr(t, _, _) => LeadTarget(t)
    case SliceExpr(t, _, _, _) => LeadTarget(t)
    case _ => e.line
  }

  /** The line of the first token printed for the target of a postfix form. */
  function LeadTarget(t: Expr): int
    decreases SizeE(t), 1
  {
    if t.NameExpr? then t.line else if IsChain(t) then Lead(t) else t.line
  }

  /** The second token of a printed tree is never '=' unless it is the
      first token of what follows: a tree holds no assignment token. */
  predicate NoAssignAfterFirst(e: Expr, r: seq<Token>, rest: seq<Token>) {
    WellFormed(e) && |r| > 1 && r[1].kind.Assign? ==> |rest| > 0 && r[1] == rest[0]
  }

  function NumberText(v: real): string {
    var n := v.Floor;
    Text.NatToString(if n >= 0 then n else 0)
  }

  /** The tokens of `e`, printed at its own level, followed by `rest`.
      Printing in front of what follows keeps every sequence a chain of
      `[token] + ...`, the shape the parser consumes. */
  function EmitExpr(e: Expr, rest: seq<Token>): (r: seq<Token>)
    ensures |r| > 0 && StartsExpression(r[0].kind)
    ensures r[0].kind.Not? ==> Prec(e) <= 3
    ensures r[0].line == Lead(e)
    decreases SizeE(e), 1
  {
    match e
    case NumberExpr(v, line) => [Token(Number, NumberText(v), line)] + rest
    case StringExpr(s, line) => [Token(String, "\"" + s + "\"", line)] + rest
    case BooleanExpr(b, line) => [Token(Boolean, if b then "True" else "False", line)] + rest
    case NameExpr(n, line) => [Token(Name, n, line)] + rest
    case ListExpr(es, line) =>
      [Token(LBracket, "[", line)] + EmitList(es, line, [Token(RBracket, "]", line)] + rest)
    case BinaryExpr(l, op, r, line) =>
      Emit(l, LeftLevel(op), [Token(op, Lexeme(op), line)] + Emit(r, RightLevel(op), rest))
    case UnaryExpr(op, x, line) =>
      if op.Not? then [Token(Not, Lexeme(Not), line)] + Emit(x, 3, rest)
      else [Token(Minus, Lexeme(Minus), line)] + Emit(x, 7, rest)
    case _ => EmitPostfix(e, rest)
  }

  /** The postfix forms: the target, then the call, attribute, index or
      slice suffix. */
  function EmitPostfix(e: Expr, rest: seq<Token>): (r: seq<Token>)
    requires e.CallExpr? || e.AttributeExpr? || e.IndexExpr? || e.SliceExpr?
    ensures |r| > 0 && (r[0].kind.Name? || r[0].kind.LParen?)
    ensures r[0].line == Lead(e)
    decreases SizeE(e), 0
  {
    match e
    case CallExpr(c, args, line) =>
      EmitTarget(c, [Token(LParen, "(", line)] + EmitList(args, line, [Token(RParen, ")", line)] + rest))
    case AttributeExpr(t, n, line) =>
      EmitTarget(t, [Token(Dot, ".", line)] + ([Token(Name, n, line)] + rest))
    case IndexExpr(t, i, line) =>
      EmitTarget(t, [Token(LBracket, "[", line)] + Emit(i, 1, [Token(RBracket, "]", line)] + rest))
    case SliceExpr(t, s, en, line) =>
      EmitTarget(t, [Token(LBracket, "[", line)] + EmitBound(s, [Token(Colon, ":", line)] +
        EmitBound(en, [Token(RBracket, "]", line)] + rest)))
  }

  /** `e` printed where level `level` is expected, in parentheses when it
      binds more loosely, followed by `rest`. */
  function Emit(e: Expr, level: nat, rest: seq<Token>): (r: seq<Token>)
    ensures |r| > 0 && StartsExpression(r[0].kind)
    ensures r[0].kind.Not? ==> level <= 3
    ensures r[0].line == (if Prec(e) < level then e.line else Lead(e))
    decreases SizeE(e), 2
  {
    if Prec(e) < level then [Token(LParen, "(", e.line)] + EmitExpr(e, [Token(RParen, ")", e.line)] + rest)
    else EmitExpr(e, rest)
  }

  /** The target of a postfix form: parenthesised unless it is a chain. */
  function EmitTarget(e: Expr, rest: seq<Token>): (r: seq<Token>)
    ensures |r| > 0 && (r[0].kind.Name? || r[0].kind.LParen?)
    ensures r[0].line == LeadTarget(e)
    decreases SizeE(e), 2
  {
    if e.NameExpr? then [Token(Name, e.name, e.line)] + rest
    else if IsChain(e) then EmitPostfix(e, rest)
    else [Token(LParen, "(", e.line)] + EmitExpr(e, [Token(RParen, ")", e.line)] + rest)
  }

  function EmitBound(o: Option<Expr>, rest: seq<Token>): seq<Token>
    decreases SizeOpt(o), 3
  {
    match o
    case None => rest
    case Some(x) => Emit(x, 1, rest)
  }

  /** Comma-separated expressions. */
  function EmitList(es: seq<Expr>, line: int, rest: seq<Token>): (r: seq<Token>)
    ensures es != [] ==> |r| > 0 && StartsExpression(r[0].kind)
    decreases SizeEs(es), 3
  {
    if es == [] then rest
    else if |es| == 1 then Emit(es[0], 1, rest)
    else Emit(es[0], 1, [Token(Comma, ",", line)] + EmitList(es[1..], line, rest))
  }

  /** A printed tree holds no '=' token: its second token, when it is one,
      is the first of what follows. */
  lemma {:induction false} EmitNoAssign(e: Expr, level: nat, rest: seq<Token>)
    requires WellFormed(e)
    ensures NoAssignAfterFirst(e, Emit(e, level, rest), rest)
    decreases SizeE(e), 2
  {
    if Prec(e) >= level {
      EmitExprNoAssign(e, rest);
    }
  }

  lemma {:induction false} EmitExprNoAssign(e: Expr, rest: seq<Token>)
    requires WellFormed(e)
    ensures NoAssignAfterFirst(e, EmitExpr(e, rest), rest)
    decreases SizeE(e), 1
  {
    match e
    case BinaryExpr(l, op, r, line) =>
      EmitNoAssign(l, LeftLevel(op), [Token(op, Lexeme(op), line)] + Emit(r, RightLevel(op), rest));
    case CallExpr(_, _, _) => EmitPostfixNoAssign(e, rest);
    case AttributeExpr(_, _, _) => EmitPostfixNoAssign(e, rest);
    case IndexExpr(_, _, _) => EmitPostfixNoAssign(e, rest);
    case SliceExpr(_, _, _, _) => EmitPostfixNoAssign(e, rest);
    case _ =>
  }

  lemma {:induction false} EmitPostfixNoAssign(e: Expr, rest: seq<Token>)
    requires WellFormed(e) && (e.CallExpr? || e.AttributeExpr? || e.IndexExpr? || e.SliceExpr?)
    ensures NoAssignAfterFirst(e, EmitPostfix(e, rest), rest)
    decreases SizeE(e), 0
  {
    match e
    case CallExpr(c, args, line) =>
      EmitTargetNoAssign(c, [Token(LParen, "(", line)] + EmitList(args, line, [Token(RParen, ")", line)] + rest));
    case AttributeExpr(t, n, line) =>
      EmitTargetNoAssign(t, [Token(Dot, ".", line)] + ([Token(Name, n, line)] + rest));
    case IndexExpr(t, i, line) =>
      EmitTargetNoAssign(t, [Token(LBracket, "[", line)] + Emit(i, 1, [Token(RBracket, "]", line)] + rest));
    case SliceExpr(t, st, en, line) =>
      EmitTargetNoAssign(t, [Token(LBracket, "[", line)] + EmitBound(st, [Token(Colon, ":", line)] +
        EmitBound(en, [Token(RBracket, "]", line)] + rest)));
  }

  lemma {:induction false} EmitTargetNoAssign(t: Expr, rest: seq<Token>)
    requires WellFormed(t)
    ensures NoAssignAfterFirst(t, EmitTarget(t, rest), rest)
    decreases SizeE(t), 1
  {
    if !t.NameExpr? && IsChain(t) {
      EmitPostfixNoAssign(t, rest);
    }
  }

  // ---------------------------------------------------------------------
  // The expression round trip, one lemma per level of the parser
  // ---------------------------------------------------------------------

  /** Kind `k` would be taken up by a parser level at or above `level`. */
  predicate Continues(level: nat, k: TokenKind) {
    (level <= 1 && k.Or?) || (level <= 2 && k.And?) ||
    (level <= 4 && IsComparison(k)) || (level <= 5 && (k.Plus? || k.Minus?)) ||
    (level <= 6 && (k.Star? || k.Slash? || k.Percent?)) ||
    k.LParen? || k.Dot? || k.LBracket?
  }

  /** What comes after an expression printed at `level` does not extend it. */
  predicate Follows(level: nat, rest: seq<Token>) {
    |rest| > 0 && !Continues(level, rest[0].kind)
  }

  function ParenFlag(e: Expr, level: nat): nat {
    if Prec(e) < level then 1 else 0
  }

  /** A binary node at its own level: its left operand, its operator, its
      right operand. */
  lemma {:induction false} EmitBinary(e: Expr, rest: seq<Token>)
    requires e.BinaryExpr?
    ensures Emit(e, Prec(e), rest)
         == Emit(e.left, LeftLevel(e.op), [Token(e.op, Lexeme(e.op), e.line)] + Emit(e.right, RightLevel(e.op), rest))
  {
  }

  /** After an operator token, no tighter level continues. */
  lemma {:induction false} OperatorEnds(t: Token, ts: seq<Token>, level: nat)
    requires (t.kind.Or? && level == 2) || (t.kind.And? && level == 3) ||
             (IsComparison(t.kind) && level == 5) ||
             ((t.kind.Plus? || t.kind.Minus?) && level == 6) ||
             ((t.kind.Star? || t.kind.Slash? || t.kind.Percent?) && level == 7)
    ensures Follows(level, [t] + ts)
  {
    assert ([t] + ts)[0] == t;
  }

  /** A token that ends an expression at one level ends it at every tighter one. */
  lemma {:induction false} FollowsLater(level: nat, tighter: nat, rest: seq<Token>)
    requires Follows(level, rest) && level <= tighter
    ensures Follows(tighter, rest)
  {
  }

  /** A closing token or separator put in front ends an expression at any level. */
  lemma {:induction false} Closes(t: Token, ts: seq<Token>, level: nat)
    requires t.kind.RParen? || t.kind.RBracket? || t.kind.Colon? || t.kind.Comma?
    ensures ([t] + ts)[0] == t && ([t] + ts)[1..] == ts
    ensures Follows(level, [t] + ts)
  {
    assert ([t] + ts)[0] == t;
  }

  /** Dropping the token put in front. */
  lemma {:induction false} DropFirst(t: Token, ts: seq<Token>)
    ensures ([t] + ts)[0] == t && ([t] + ts)[1..] == ts
  {
  }

  // One unfolding of a parser function each, on tokens that start with a
  // known token.

  lemma {:induction false} OrStep(left: Expr, ts: seq<Token>, right: Expr, rest: seq<Token>)
    requires IsAt(ts, Or) && ParseAnd(ts[1..]) == Ok(Parsed(right, rest))
    ensures ParseOrRest(left, ts) == ParseOrRest(BinaryExpr(left, Or, right, ts[0].line), rest)
  {
  }

  lemma {:induction false} OrFirst(ts: seq<Token>, e: Expr, rest: seq<Token>)
    requires ParseAnd(ts) == Ok(Parsed(e, rest))
    ensures ParseOr(ts) == ParseOrRest(e, rest)
  {
  }

  lemma {:induction false} AndStep(left: Expr, ts: seq<Token>, right: Expr, rest: seq<Token>)
    requires IsAt(ts, And) && ParseNot(ts[1..]) == Ok(Parsed(right, rest))
    ensures ParseAndRest(left, ts) == ParseAndRest(BinaryExpr(left, And, right, ts[0].line), rest)
  {
  }

  lemma {:induction false} AndFirst(ts: seq<Token>, e: Expr, rest: seq<Token>)
    requires ParseNot(ts) == Ok(Parsed(e, rest))
    ensures ParseAnd(ts) == ParseAndRest(e, rest)
  {
  }

  lemma {:induction false} AndStops(e: Expr, rest: seq<Token>)
    requires Follows(2, rest)
    ensures ParseAndRest(e, rest) == Ok(Parsed(e, rest))
  {
  }

  lemma {:induction false} NotStep(ts: seq<Token>, x: Expr, rest: seq<Token>)
    requires IsAt(ts, Not) && ParseNot(ts[1..]) == Ok(Parsed(x, rest))
    ensures ParseNot(ts) == Ok(Parsed(UnaryExpr(Not, x, ts[0].line), rest))
  {
  }

  lemma {:induction false} NotPasses(ts: seq<Token>)
    requires |ts| > 0 && !ts[0].kind.Not?
    ensures ParseNot(ts) == ParseCompare(ts)
  {
  }

  lemma {:induction false} CompareStep(ts: seq<Token>, l: Expr, mid: seq<Token>, r: Expr, rest: seq<Token>)
    requires ParseAddSubtract(ts) == Ok(Parsed(l, mid))
    requires |mid| > 0 && IsComparison(mid[0].kind)
    requires ParseAddSubtract(mid[1..]) == Ok(Parsed(r, rest))
    ensures ParseCompare(ts) == Ok(Parsed(BinaryExpr(l, mid[0].kind, r, mid[0].line), rest))
  {
  }

  lemma {:induction false} CompareNone(ts: seq<Token>, e: Expr, rest: seq<Token>)
    requires ParseAddSubtract(ts) == Ok(Parsed(e, rest))
    requires |rest| > 0 && !IsComparison(rest[0].kind)
    ensures ParseCompare(ts) == Ok(Parsed(e, rest))
  {
  }

  lemma {:induction false} AddStep(left: Expr, ts: seq<Token>, right: Expr, rest: seq<Token>)
    requires |ts| > 0 && (ts[0].kind.Plus? || ts[0].kind.Minus?)
    requires ParseTerm(ts[1..]) == Ok(Parsed(right, rest))
    ensures ParseAddSubtractRest(left, ts)
         == ParseAddSubtractRest(BinaryExpr(left, ts[0].kind, right, ts[0].line), rest)
  {
  }

  lemma {:induction false} AddFirst(ts: seq<Token>, e: Expr, rest: seq<Token>)
    requires ParseTerm(ts) == Ok(Parsed(e, rest))
    ensures ParseAddSubtract(ts) == ParseAddSubtractRest(e, rest)
  {
  }

  lemma {:induction false} AddStops(e: Expr, rest: seq<Token>)
    requires |rest| > 0 && !rest[0].kind.Plus? && !rest[0].kind.Minus?
    ensures ParseAddSubtractRest(e, rest) == Ok(Parsed(e, rest))
  {
  }

  lemma {:induction false} TermStep(left: Expr, ts: seq<Token>, right: Expr, rest: seq<Token>)
    requires |ts| > 0 && (ts[0].kind.Star? || ts[0].kind.Slash? || ts[0].kind.Percent?)
    requires ParseFactor(ts[1..]) == Ok(Parsed(right, rest))
    ensures ParseTermRest(left, ts) == ParseTermRest(BinaryExpr(left, ts[0].kind, right, ts[0].line), rest)
  {
  }

  lemma {:induction false} TermFirst(ts: seq<Token>, e: Expr, rest: seq<Token>)
    requires ParseFactor(ts) == Ok(Parsed(e, rest))
    ensures ParseTerm(ts) == ParseTermRest(e, rest)
  {
  }

  lemma {:induction false} TermStops(e: Expr, rest: seq<Token>)
    requires Follows(6, rest)
    ensures ParseTermRest(e, rest) == Ok(Parsed(e, rest))
  {
  }

  lemma {:induction false} NegStep(ts: seq<Token>, x: Expr, rest: seq<Token>)
    requires IsAt(ts, Minus) && ParseFactor(ts[1..]) == Ok(Parsed(x, rest))
    ensures ParseFactor(ts) == Ok(Parsed(UnaryExpr(Minus, x, ts[0].line), rest))
  {
  }

  lemma {:induction false} ParenStep(ts: seq<Token>, e: Expr, closing: seq<Token>)
    requires |ts| > 0 && ts[0].kind.LParen?
    requires ParseExpression(ts[1..]) == Ok(Parsed(e, closing))
    requires IsAt(closing, RParen)
    ensures ParseFactor(ts) == ParseCallIndexAttribute(e, closing[1..])
  {
  }

  lemma {:induction false} ListStep(ts: seq<Token>, es: seq<Expr>, rest: seq<Token>)
    requires IsAt(ts, LBracket) && ParseDelimited(ts[1..], RBracket, "']'") == Ok(Parsed(es, rest))
    ensures ParseFactor(ts) == Ok(Parsed(ListExpr(es, ts[0].line), rest))
  {
  }

  lemma {:induction false} CallStep(node: Expr, ts: seq<Token>, args: seq<Expr>, rest: seq<Token>)
    requires IsAt(ts, LParen) && ParseDelimited(ts[1..], RParen, "')'") == Ok(Parsed(args, rest))
    ensures ParseCallIndexAttribute(node, ts)
         == ParseCallIndexAttribute(CallExpr(node, args, node.line), rest)
  {
  }

  lemma {:induction false} AttributeStep(node: Expr, ts: seq<Token>)
    requires IsAt(ts, Dot) && IsAt(ts[1..], Name)
    ensures ParseCallIndexAttribute(node, ts)
         == ParseCallIndexAttribute(AttributeExpr(node, ts[1..][0].text, node.line), ts[1..][1..])
  {
  }

  lemma {:induction false} SubscriptStep(node: Expr, ts: seq<Token>, e: Expr, rest: seq<Token>)
    requires IsAt(ts, LBracket) && ParseSubscript(node, ts[1..]) == Ok(Parsed(e, rest))
    ensures ParseCallIndexAttribute(node, ts) == ParseCallIndexAttribute(e, rest)
  {
  }

  lemma {:induction false} IndexStep(node: Expr, ts: seq<Token>, i: Expr, closing: seq<Token>)
    requires ParseOptional(ts, Colon) == Ok(Parsed(Some(i), closing))
    requires IsAt(closing, RBracket)
    ensures ParseSubscript(node, ts) == Ok(Parsed(IndexExpr(node, i, node.line), closing[1..]))
  {
  }

  lemma {:induction false} SliceStep(node: Expr, ts: seq<Token>, s: Option<Expr>, colonOn: seq<Token>,
                  en: Option<Expr>, closing: seq<Token>)
    requires ParseOptional(ts, Colon) == Ok(Parsed(s, colonOn)) && IsAt(colonOn, Colon)
    requires ParseOptional(colonOn[1..], RBracket) == Ok(Parsed(en, closing)) && IsAt(closing, RBracket)
    ensures ParseSubscript(node, ts) == Ok(Parsed(SliceExpr(node, s, en, node.line), closing[1..]))
  {
  }

  lemma {:induction false} OptionalSome(ts: seq<Token>, stop: TokenKind, x: Expr, rest: seq<Token>)
    requires |ts| > 0 && StartsExpression(ts[0].kind)
    requires stop.Colon? || stop.RBracket? || stop.Newline?
    requires ParseExpression(ts) == Ok(Parsed(x, rest))
    ensures ParseOptional(ts, stop) == Ok(Parsed(Some(x), rest))
  {
  }

  lemma {:induction false} OptionalNone(ts: seq<Token>, stop: TokenKind)
    requires IsAt(ts, stop)
    ensures ParseOptional(ts, stop) == Ok(Parsed(None, ts))
  {
  }

  lemma {:induction false} DelimitedEmpty(ts: seq<Token>, close: TokenKind, what: string)
    requires !close.Eof? && IsAt(ts, close)
    ensures ParseDelimited(ts, close, what) == Ok(Parsed([], ts[1..]))
  {
  }

  lemma {:induction false} DelimitedItems(ts: seq<Token>, close: TokenKind, what: string, es: seq<Expr>, after: seq<Token>)
    requires close.RParen? || close.RBracket?
    requires |ts| > 0 && StartsExpression(ts[0].kind)
    requires ParseExprList(ts) == Ok(Parsed(es, after)) && IsAt(after, close)
    ensures ParseDelimited(ts, close, what) == Ok(Parsed(es, after[1..]))
  {
  }

  lemma {:induction false} ChainStops(e: Expr, rest: seq<Token>)
    requires Follows(7, rest)
    ensures ParseCallIndexAttribute(e, rest) == Ok(Parsed(e, rest))
  {
  }

  lemma {:induction false} OrStops(e: Expr, rest: seq<Token>)
    requires Follows(1, rest)
    ensures ParseOrRest(e, rest) == Ok(Parsed(e, rest))
  {
  }

  // ---------------------------------------------------------------------
  // The expression round trip, one lemma per level of the parser; the
  // measure is the tree's size, then whether it is parenthesised at this
  // level, then how tight the level is
  // ---------------------------------------------------------------------

  /** The whole expression: `ParseExpression` on a printed tree followed by
      a token that cannot extend it gives the tree back and leaves exactly
      that token and what follows it. */
  lemma {:induction false} ExpressionRoundTrip(e: Expr, rest: seq<Token>)
    requires WellFormed(e) && Follows(1, rest)
    ensures ParseExpression(Emit(e, 1, rest)) == Ok(Parsed(e, rest))
    decreases SizeE(e), 0, 95
  {
    FollowsLater(1, 2, rest);
    OrRound(e, rest);
    OrStops(e, rest);
  }

  /** `ParseOr` on a printed tree stops where the `or` loop takes over. */
  lemma {:induction false} OrRound(e: Expr, rest: seq<Token>)
    requires WellFormed(e) && Follows(2, rest)
    ensures ParseOr(Emit(e, 1, rest)) == ParseOrRest(e, rest)
    decreases SizeE(e), 0, 90
  {
    if Prec(e) == 1 {
      OrOperands(e, rest);
    } else {
      assert Emit(e, 1, rest) == Emit(e, 2, rest);
      AndComplete(e, rest);
      OrFirst(Emit(e, 1, rest), e, rest);
    }
  }

  lemma {:induction false} OrOperands(e: Expr, rest: seq<Token>)
    requires WellFormed(e) && Follows(2, rest) && Prec(e) == 1
    ensures ParseOr(Emit(e, 1, rest)) == ParseOrRest(e, rest)
    decreases SizeE(e), 0, 88
  {
    var BinaryExpr(l, op, r, line) := e;
    var t := Token(Or, Lexeme(Or), line);
    var tail := [t] + Emit(r, 2, rest);
    assert Emit(e, 1, rest) == Emit(l, 1, tail);
    DropFirst(t, Emit(r, 2, rest));
    OperatorEnds(t, Emit(r, 2, rest), 2);
    OrRound(l, tail);
    AndComplete(r, rest);
    OrStep(l, tail, r, rest);
  }

  /** An and-level tree followed by a token no and-level loop takes. */
  lemma {:induction false} AndComplete(e: Expr, rest: seq<Token>)
    requires WellFormed(e) && Follows(2, rest)
    ensures ParseAnd(Emit(e, 2, rest)) == Ok(Parsed(e, rest))
    decreases SizeE(e), ParenFlag(e, 2), 82
  {
    FollowsLater(2, 3, rest);
    AndRound(e, rest);
    AndStops(e, rest);
  }

  lemma {:induction false} AndRound(e: Expr, rest: seq<Token>)
    requires WellFormed(e) && Follows(3, rest)
    ensures ParseAnd(Emit(e, 2, rest)) == ParseAndRest(e, rest)
    decreases SizeE(e), ParenFlag(e, 2), 80
  {
    if Prec(e) == 2 {
      AndOperands(e, rest);
    } else {
      assert Emit(e, 2, rest) == Emit(e, 3, rest);
      FollowsLater(3, 4, rest);
      NotRound(e, rest);
      AndFirst(Emit(e, 2, rest), e, rest);
    }
  }

  lemma {:induction false} AndOperands(e: Expr, rest: seq<Token>)
    requires WellFormed(e) && Follows(3, rest) && Prec(e) == 2
    ensures ParseAnd(Emit(e, 2, rest)) == ParseAndRest(e, rest)
    decreases SizeE(e), 0, 78
  {
    var BinaryExpr(l, op, r, line) := e;
    var t := Token(And, Lexeme(And), line);
    var tail := [t] + Emit(r, 3, rest);
    assert Emit(e, 2, rest) == Emit(l, 2, tail);
    DropFirst(t, Emit(r, 3, rest));
    OperatorEnds(t, Emit(r, 3, rest), 3);
    AndRound(l, tail);
    FollowsLater(3, 4, rest);
    NotRound(r, rest);
    AndStep(l, tail, r, rest);
  }

  lemma {:induction false} NotRound(e: Expr, rest: seq<Token>)
    requires WellFormed(e) && Follows(4, rest)
    ensures ParseNot(Emit(e, 3, rest)) == Ok(Parsed(e, rest))
    decreases SizeE(e), ParenFlag(e, 3), 70
  {
    if Prec(e) == 3 {
      var UnaryExpr(op, x, line) := e;
      var t := Token(Not, Lexeme(Not), line);
      assert Emit(e, 3, rest) == [t] + Emit(x, 3, rest);
      DropFirst(t, Emit(x, 3, rest));
      NotRound(x, rest);
      NotStep(Emit(e, 3, rest), x, rest);
    } else {
      assert Emit(e, 3, rest) == Emit(e, 4, rest);
      CompareRound(e, rest);
      NotPasses(Emit(e, 3, rest));
    }
  }

  lemma {:induction false} CompareRound(e: Expr, rest: seq<Token>)
    requires WellFormed(e) && Follows(4, rest)
    ensures ParseCompare(Emit(e, 4, rest)) == Ok(Parsed(e, rest))
    decreases SizeE(e), ParenFlag(e, 4), 60
  {
    if Prec(e) == 4 {
      CompareOperands(e, rest);
    } else {
      assert Emit(e, 4, rest) == Emit(e, 5, rest);
      FollowsLater(4, 5, rest);
      AddComplete(e, rest);
      CompareNone(Emit(e, 4, rest), e, rest);
    }
  }

  lemma {:induction false} CompareOperands(e: Expr, rest: seq<Token>)
    requires WellFormed(e) && Follows(4, rest) && Prec(e) == 4
    ensures ParseCompare(Emit(e, 4, rest)) == Ok(Parsed(e, rest))
    decreases SizeE(e), 0, 58
  {
    var BinaryExpr(l, op, r, line) := e;
    var t := Token(op, Lexeme(op), line);
    var tail := [t] + Emit(r, 5, rest);
    EmitBinary(e, rest);
    DropFirst(t, Emit(r, 5, rest));
    OperatorEnds(t, Emit(r, 5, rest), 5);
    AddComplete(l, tail);
    FollowsLater(4, 5, rest);
    AddComplete(r, rest);
    CompareStep(Emit(e, 4, rest), l, tail, r, rest);
  }

  /** An additive-level tree followed by a token no additive loop takes. */
  lemma {:induction false} AddComplete(e: Expr, rest: seq<Token>)
    requires WellFormed(e) && Follows(5, rest)
    ensures ParseAddSubtract(Emit(e, 5, rest)) == Ok(Parsed(e, rest))
    decreases SizeE(e), ParenFlag(e, 5), 55
  {
    FollowsLater(5, 6, rest);
    AddRound(e, rest);
    AddStops(e, rest);
  }

  lemma {:induction false} AddRound(e: Expr, rest: seq<Token>)
    requires WellFormed(e) && Follows(6, rest)
    ensures ParseAddSubtract(Emit(e, 5, rest)) == ParseAddSubtractRest(e, rest)
    decreases SizeE(e), ParenFlag(e, 5), 50
  {
    if Prec(e) == 5 {
      AddOperands(e, rest);
    } else {
      assert Emit(e, 5, rest) == Emit(e, 6, rest);
      TermComplete(e, rest);
      AddFirst(Emit(e, 5, rest), e, rest);
    }
  }

  lemma {:induction false} AddOperands(e: Expr, rest: seq<Token>)
    requires WellFormed(e) && Follows(6, rest) && Prec(e) == 5
    ensures ParseAddSubtract(Emit(e, 5, rest)) == ParseAddSubtractRest(e, rest)
    decreases SizeE(e), 0, 48
  {
    var BinaryExpr(l, op, r, line) := e;
    var t := Token(op, Lexeme(op), line);
    var tail := [t] + Emit(r, 6, rest);
    assert Emit(e, 5, rest) == Emit(l, 5, tail);
    DropFirst(t, Emit(r, 6, rest));
    OperatorEnds(t, Emit(r, 6, rest), 6);
    AddRound(l, tail);
    TermComplete(r, rest);
    AddStep(l, tail, r, rest);
  }

  /** A multiplicative-level tree followed by a token no term loop takes. */
  lemma {:induction false} TermComplete(e: Expr, rest: seq<Token>)
    requires WellFormed(e) && Follows(6, rest)
    ensures ParseTerm(Emit(e, 6, rest)) == Ok(Parsed(e, rest))
    decreases SizeE(e), ParenFlag(e, 6), 45
  {
    FollowsLater(6, 7, rest);
    TermRound(e, rest);
    TermStops(e, rest);
  }

  lemma {:induction false} TermRound(e: Expr, rest: seq<Token>)
    requires WellFormed(e) && Follows(7, rest)
    ensures ParseTerm(Emit(e, 6, rest)) == ParseTermRest(e, rest)
    decreases SizeE(e), ParenFlag(e, 6), 40
  {
    if Prec(e) == 6 {
      TermOperands(e, rest);
    } else {
      assert Emit(e, 6, rest) == Emit(e, 7, rest);
      FactorRound(e, rest);
      TermFirst(Emit(e, 6, rest), e, rest);
    }
  }

  lemma {:induction false} TermOperands(e: Expr, rest: seq<Token>)
    requires WellFormed(e) && Follows(7, rest) && Prec(e) == 6
    ensures ParseTerm(Emit(e, 6, rest)) == ParseTermRest(e, rest)
    decreases SizeE(e), 0, 38
  {
    var BinaryExpr(l, op, r, line) := e;
    var t := Token(op, Lexeme(op), line);
    var tail := [t] + Emit(r, 7, rest);
    assert Emit(e, 6, rest) == Emit(l, 6, tail);
    DropFirst(t, Emit(r, 7, rest));
    OperatorEnds(t, Emit(r, 7, rest), 7);
    TermRound(l, tail);
    FactorRound(r, rest);
    TermStep(l, tail, r, rest);
  }

  lemma {:induction false} FactorRound(e: Expr, rest: seq<Token>)
    requires WellFormed(e) && Follows(7, rest)
    ensures ParseFactor(Emit(e, 7, rest)) == Ok(Parsed(e, rest))
    decreases SizeE(e), ParenFlag(e, 7), 30
  {
    if Prec(e) < 7 {
      ParenRound(e, rest);
      ChainStops(e, rest);
    } else if Prec(e) == 7 {
      var UnaryExpr(op, x, line) := e;
      var t := Token(Minus, Lexeme(Minus), line);
      assert Emit(e, 7, rest) == [t] + Emit(x, 7, rest);
      DropFirst(t, Emit(x, 7, rest));
      FactorRound(x, rest);
      NegStep(Emit(e, 7, rest), x, rest);
    } else if IsChain(e) {
      assert Emit(e, 7, rest) == EmitTarget(e, rest);
      ChainRound(e, rest);
      ChainStops(e, rest);
    } else if e.NumberExpr? {
      NumberRound(e, rest);
    } else if e.ListExpr? {
      ListDisplayRound(e, rest);
    } else {
      TextRound(e, rest);
    }
  }

  /** A tree in parentheses is read by `ParseFactor` up to where the postfix
      loop continues with it. */
  lemma {:induction false} ParenRound(e: Expr, rest: seq<Token>)
    requires WellFormed(e)
    ensures ParseFactor([Token(LParen, "(", e.line)] + EmitExpr(e, [Token(RParen, ")", e.line)] + rest))
         == ParseCallIndexAttribute(e, rest)
    decreases SizeE(e), 1, 0
  {
    var closing := [Token(RParen, ")", e.line)] + rest;
    var open := Token(LParen, "(", e.line);
    assert EmitExpr(e, closing) == Emit(e, 1, closing);
    DropFirst(open, EmitExpr(e, closing));
    Closes(Token(RParen, ")", e.line), rest, 1);
    ExpressionRoundTrip(e, closing);
    ParenStep([open] + EmitExpr(e, closing), e, closing);
  }

  lemma {:induction false} NumberRound(e: Expr, rest: seq<Token>)
    requires WellFormed(e) && e.NumberExpr?
    ensures ParseFactor(Emit(e, 7, rest)) == Ok(Parsed(e, rest))
    decreases SizeE(e), 0, 10
  {
    var NumberExpr(v, line) := e;
    var t := Token(Number, NumberText(v), line);
    assert Emit(e, 7, rest) == [t] + rest;
    DropFirst(t, rest);
    Text.ParseNatString(v.Floor);
  }

  /** String and boolean literals. */
  lemma {:induction false} TextRound(e: Expr, rest: seq<Token>)
    requires e.StringExpr? || e.BooleanExpr?
    ensures ParseFactor(Emit(e, 7, rest)) == Ok(Parsed(e, rest))
    decreases SizeE(e), 0, 10
  {
    match e
    case StringExpr(s, line) =>
      var q := "\"" + s + "\"";
      var t := Token(String, q, line);
      assert Emit(e, 7, rest) == [t] + rest;
      DropFirst(t, rest);
      assert q[1..|q| - 1] == s;
    case BooleanExpr(b, line) =>
      var t := Token(Boolean, if b then "True" else "False", line);
      assert Emit(e, 7, rest) == [t] + rest;
      DropFirst(t, rest);
  }

  lemma {:induction false} ListDisplayRound(e: Expr, rest: seq<Token>)
    requires WellFormed(e) && e.ListExpr?
    ensures ParseFactor(Emit(e, 7, rest)) == Ok(Parsed(e, rest))
    decreases SizeE(e), 0, 10
  {
    var ListExpr(es, line) := e;
    var open := Token(LBracket, "[", line);
    var close := Token(RBracket, "]", line);
    var inner := EmitList(es, line, [close] + rest);
    assert Emit(e, 7, rest) == [open] + inner;
    DropFirst(open, inner);
    DelimitedRound(es, line, close, rest);
    ListStep(Emit(e, 7, rest), es, rest);
  }

  /** A chain's tokens are read by `ParseFactor` up to where the postfix
      loop continues with the rebuilt node. */
  lemma {:induction false} ChainRound(e: Expr, rest: seq<Token>)
    requires WellFormed(e) && IsChain(e)
    ensures ParseFactor(EmitTarget(e, rest)) == ParseCallIndexAttribute(e, rest)
    decreases SizeE(e), 0, 20
  {
    if e.NameExpr? {
      DropFirst(Token(Name, e.name, e.line), rest);
    } else {
      assert EmitTarget(e, rest) == EmitPostfix(e, rest);
      if e.CallExpr? {
        CallRound(e, rest);
      } else if e.AttributeExpr? {
        AttributeRound(e, rest);
      } else if e.IndexExpr? {
        IndexRound(e, rest);
      } else {
        SliceRound(e, rest);
      }
    }
  }

  lemma {:induction false} CallRound(e: Expr, rest: seq<Token>)
    requires WellFormed(e) && e.CallExpr?
    ensures ParseFactor(EmitPostfix(e, rest)) == ParseCallIndexAttribute(e, rest)
    decreases SizeE(e), 0, 10
  {
    var CallExpr(c, args, line) := e;
    var open := Token(LParen, "(", line);
    var close := Token(RParen, ")", line);
    var inner := EmitList(args, line, [close] + rest);
    var tail := [open] + inner;
    assert EmitPostfix(e, rest) == EmitTarget(c, tail);
    TargetRound(c, tail);
    DropFirst(open, inner);
    DelimitedRound(args, line, close, rest);
    CallStep(c, tail, args, rest);
  }

  lemma {:induction false} AttributeRound(e: Expr, rest: seq<Token>)
    requires WellFormed(e) && e.AttributeExpr?
    ensures ParseFactor(EmitPostfix(e, rest)) == ParseCallIndexAttribute(e, rest)
    decreases SizeE(e), 0, 10
  {
    var AttributeExpr(t, n, line) := e;
    var dot := Token(Dot, ".", line);
    var name := Token(Name, n, line);
    var tail := [dot] + ([name] + rest);
    assert EmitPostfix(e, rest) == EmitTarget(t, tail);
    TargetRound(t, tail);
    DropFirst(dot, [name] + rest);
    DropFirst(name, rest);
    AttributeStep(t, tail);
  }

  lemma {:induction false} IndexRound(e: Expr, rest: seq<Token>)
    requires WellFormed(e) && e.IndexExpr?
    ensures ParseFactor(EmitPostfix(e, rest)) == ParseCallIndexAttribute(e, rest)
    decreases SizeE(e), 0, 10
  {
    var IndexExpr(t, i, line) := e;
    var open := Token(LBracket, "[", line);
    var inner := Emit(i, 1, [Token(RBracket, "]", line)] + rest);
    var tail := [open] + inner;
    assert EmitPostfix(e, rest) == EmitTarget(t, tail);
    TargetRound(t, tail);
    DropFirst(open, inner);
    IndexInner(e, rest);
    SubscriptStep(t, tail, e, rest);
  }

  /** Inside the brackets of an index. */
  lemma {:induction false} IndexInner(e: Expr, rest: seq<Token>)
    requires WellFormed(e) && e.IndexExpr?
    ensures ParseSubscript(e.target, Emit(e.index, 1, [Token(RBracket, "]", e.line)] + rest))
         == Ok(Parsed(e, rest))
    decreases SizeE(e), 0, 5
  {
    var IndexExpr(t, i, line) := e;
    var close := Token(RBracket, "]", line);
    var closing := [close] + rest;
    assert EmitBound(Some(i), closing) == Emit(i, 1, closing);
    Closes(close, rest, 1);
    BoundRound(Some(i), Colon, closing);
    IndexStep(t, Emit(i, 1, closing), i, closing);
  }

  lemma {:induction false} SliceRound(e: Expr, rest: seq<Token>)
    requires WellFormed(e) && e.SliceExpr?
    ensures ParseFactor(EmitPostfix(e, rest)) == ParseCallIndexAttribute(e, rest)
    decreases SizeE(e), 0, 10
  {
    var SliceExpr(t, s, en, line) := e;
    var open := Token(LBracket, "[", line);
    var inner := EmitBound(s, [Token(Colon, ":", line)] + EmitBound(en, [Token(RBracket, "]", line)] + rest));
    var tail := [open] + inner;
    assert EmitPostfix(e, rest) == EmitTarget(t, tail);
    TargetRound(t, tail);
    DropFirst(open, inner);
    SliceInner(e, rest);
    SubscriptStep(t, tail, e, rest);
  }

  /** Inside the brackets of a slice. */
  lemma {:induction false} SliceInner(e: Expr, rest: seq<Token>)
    requires WellFormed(e) && e.SliceExpr?
    ensures ParseSubscript(e.target, EmitBound(e.start, [Token(Colon, ":", e.line)] +
              EmitBound(e.end, [Token(RBracket, "]", e.line)] + rest)))
         == Ok(Parsed(e, rest))
    decreases SizeE(e), 0, 5
  {
    var SliceExpr(t, s, en, line) := e;
    var colon := Token(Colon, ":", line);
    var close := Token(RBracket, "]", line);
    var closing := [close] + rest;
    var colonOn := [colon] + EmitBound(en, closing);
    Closes(colon, EmitBound(en, closing), 1);
    Closes(close, rest, 1);
    BoundRound(s, Colon, colonOn);
    BoundRound(en, RBracket, closing);
    SliceStep(t, EmitBound(s, colonOn), s, colonOn, en, closing);
  }

  /** An optional expression reads back up to the token after it; with no
      expression that token must be the one that ends it. */
  lemma {:induction false} BoundRound(o: Option<Expr>, stop: TokenKind, rest: seq<Token>)
    requires (match o case None => true case Some(x) => WellFormed(x))
    requires stop.Colon? || stop.RBracket? || stop.Newline?
    requires Follows(1, rest) && (o.None? ==> rest[0].kind == stop)
    ensures ParseOptional(EmitBound(o, rest), stop) == Ok(Parsed(o, rest))
    decreases SizeOpt(o), 1, 0
  {
    if o.Some? {
      ExpressionRoundTrip(o.value, rest);
      OptionalSome(Emit(o.value, 1, rest), stop, o.value, rest);
    } else {
      OptionalNone(rest, stop);
    }
  }

  /** A postfix target, parenthesised or not, hands itself to the postfix loop. */
  lemma {:induction false} TargetRound(t: Expr, rest: seq<Token>)
    requires WellFormed(t)
    ensures ParseFactor(EmitTarget(t, rest)) == ParseCallIndexAttribute(t, rest)
    decreases SizeE(t), 1, 1
  {
    if IsChain(t) {
      ChainRound(t, rest);
    } else {
      ParenRound(t, rest);
    }
  }

  /** A comma-separated list reads back with the closing token after it. */
  lemma {:induction false} DelimitedRound(es: seq<Expr>, line: int, close: Token, rest: seq<Token>)
    requires AllWellFormed(es)
    requires close.kind.RParen? || close.kind.RBracket?
    ensures ParseDelimited(EmitList(es, line, [close] + rest), close.kind,
                           if close.kind.RParen? then "')'" else "']'")
         == Ok(Parsed(es, rest))
    decreases SizeEs(es), 3, 0
  {
    var what := if close.kind.RParen? then "')'" else "']'";
    var ts := EmitList(es, line, [close] + rest);
    Closes(close, rest, 1);
    if es != [] {
      ListRound(es, line, [close] + rest);
      DelimitedItems(ts, close.kind, what, es, [close] + rest);
    } else {
      DelimitedEmpty(ts, close.kind, what);
    }
  }

  lemma {:induction false} ListRound(es: seq<Expr>, line: int, rest: seq<Token>)
    requires es != [] && AllWellFormed(es)
    requires Follows(1, rest) && !rest[0].kind.Comma?
    ensures ParseExprList(EmitList(es, line, rest)) == Ok(Parsed(es, rest))
    decreases SizeEs(es), 2, 0
  {
    WellFormedTail(es);
    if |es| == 1 {
      ExpressionRoundTrip(es[0], rest);
      assert es == [es[0]];
    } else {
      ListMore(es, line, rest);
    }
  }

  lemma {:induction false} ListMore(es: seq<Expr>, line: int, rest: seq<Token>)
    requires |es| > 1 && WellFormed(es[0]) && AllWellFormed(es[1..])
    requires Follows(1, rest) && !rest[0].kind.Comma?
    ensures ParseExprList(EmitList(es, line, rest)) == Ok(Parsed(es, rest))
    decreases SizeEs(es), 1, 0
  {
    var comma := Token(Comma, ",", line);
    var more := EmitList(es[1..], line, rest);
    Closes(comma, more, 1);
    ExpressionRoundTrip(es[0], [comma] + more);
    ListRound(es[1..], line, rest);
    assert [es[0]] + es[1..] == es;
  }

  lemma {:induction false} WellFormedTail(es: seq<Expr>)
    requires es != [] && AllWellFormed(es)
    ensures WellFormed(es[0]) && AllWellFormed(es[1..])
  {
    forall i | 0 <= i < |es| - 1 ensures WellFormed(es[1..][i]) {
      assert es[1..][i] == es[i + 1];
    }
  }
}
