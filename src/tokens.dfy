/** The token kinds and the token record of the mini-Python front end
    (Scripts/ProgramExec/PythonToken.cs). */
module Tokens {
  import opened Wrappers
  import Text

  /** The closed set of token kinds: layout, literals, NAME, the nineteen
      operators and punctuation marks, and the twelve keywords. */
  datatype TokenKind =
    | Eof | Indent | Dedent | Newline
    | Number | String | Boolean
    | Name
    | Plus | Minus | Star | Slash | Percent
    | Eq | Neq | Lt | Gt | Lte | Gte | Assign
    | LParen | RParen | LBracket | RBracket | Colon | Comma | Dot
    | If | Else | While | For | In | Def | Return | Pass | Not | And | Or | Global

  /** A token stores the kind, text and line it was built with. */
  datatype Token = Token(kind: TokenKind, text: string, line: int)

  predicate IsLayout(k: TokenKind) {
    k.Eof? || k.Indent? || k.Dedent? || k.Newline?
  }

  predicate IsLiteral(k: TokenKind) {
    k.Number? || k.String? || k.Boolean?
  }

  predicate IsOperator(k: TokenKind) {
    k.Plus? || k.Minus? || k.Star? || k.Slash? || k.Percent? ||
    k.Eq? || k.Neq? || k.Lt? || k.Gt? || k.Lte? || k.Gte? || k.Assign? ||
    k.LParen? || k.RParen? || k.LBracket? || k.RBracket? || k.Colon? || k.Comma? || k.Dot?
  }

  predicate IsKeyword(k: TokenKind) {
    k.If? || k.Else? || k.While? || k.For? || k.In? || k.Def? ||
    k.Return? || k.Pass? || k.Not? || k.And? || k.Or? || k.Global?
  }

  /** The six comparison operators. */
  predicate IsComparison(k: TokenKind) {
    k.Eq? || k.Neq? || k.Lt? || k.Gt? || k.Lte? || k.Gte?
  }

  /** Every kind is layout, a literal, NAME, an operator or a keyword. */
  lemma {:induction false} KindsCovered(k: TokenKind)
    ensures IsLayout(k) || IsLiteral(k) || k.Name? || IsOperator(k) || IsKeyword(k)
  {
  }

  /** No kind is in two of the five groups. */
  lemma {:induction false} LayoutApart(k: TokenKind)
    requires IsLayout(k)
    ensures !IsLiteral(k) && !k.Name? && !IsOperator(k) && !IsKeyword(k)
  {
  }

  lemma {:induction false} LiteralApart(k: TokenKind)
    requires IsLiteral(k)
    ensures !k.Name? && !IsOperator(k) && !IsKeyword(k)
  {
  }

  lemma {:induction false} OperatorApart(k: TokenKind)
    requires IsOperator(k)
    ensures !k.Name? && !IsKeyword(k)
  {
  }

  /** The lexeme of each operator or punctuation kind, spelled back by
      LexemeKind. */
  function OperatorLexeme(k: TokenKind): (r: Option<string>)
    ensures r.Some? ==> LexemeKind(r.value) == Some(k)
  {
    match k
    case Plus => Some("+")
    case Minus => Some("-")
    case Star => Some("*")
    case Slash => Some("/")
    case Percent => Some("%")
    case Eq => Some("==")
    case Neq => Some("!=")
    case Lt => Some("<")
    case Gt => Some(">")
    case Lte => Some("<=")
    case Gte => Some(">=")
    case Assign => Some("=")
    case LParen => Some("(")
    case RParen => Some(")")
    case LBracket => Some("[")
    case RBracket => Some("]")
    case Colon => Some(":")
    case Comma => Some(",")
    case Dot => Some(".")
    case Eof | Indent | Dedent | Newline | Number | String | Boolean | Name => None
    case If | Else | While | For | In | Def | Return | Pass | Not | And | Or | Global => None
  }

  /** Exactly the operator kinds have a lexeme. */
  lemma {:induction false} OperatorsHaveLexemes(k: TokenKind)
    ensures OperatorLexeme(k).Some? <==> IsOperator(k)
  {
  }

  /** The operator kind a lexeme spells, the inverse of OperatorLexeme. */
  function LexemeKind(s: string): Option<TokenKind> {
    match s
    case "+" => Some(Plus)
    case "-" => Some(Minus)
    case "*" => Some(Star)
    case "/" => Some(Slash)
    case "%" => Some(Percent)
    case "==" => Some(Eq)
    case "!=" => Some(Neq)
    case "<" => Some(Lt)
    case ">" => Some(Gt)
    case "<=" => Some(Lte)
    case ">=" => Some(Gte)
    case "=" => Some(Assign)
    case "(" => Some(LParen)
    case ")" => Some(RParen)
    case "[" => Some(LBracket)
    case "]" => Some(RBracket)
    case ":" => Some(Colon)
    case "," => Some(Comma)
    case "." => Some(Dot)
    case _ => None
  }

  /** No two operator kinds share a lexeme. */
  lemma {:induction false} OperatorLexemeInjective(a: TokenKind, b: TokenKind)
    requires OperatorLexeme(a).Some? && OperatorLexeme(a) == OperatorLexeme(b)
    ensures a == b
  {
  }

  /** The C# enum name of a kind, which `ToString` prints; no name holds a
      parenthesis. */
  function KindName(k: TokenKind): (n: string)
    ensures '(' !in n
  {
    match k
    case Eof => "EOF"
    case Indent => "INDENT"
    case Dedent => "DEDENT"
    case Newline => "NEWLINE"
    case Number => "NUMBER"
    case String => "STRING"
    case Boolean => "BOOLEAN"
    case Name => "NAME"
    case Plus => "PLUS"
    case Minus => "MINUS"
    case Star => "STAR"
    case Slash => "SLASH"
    case Percent => "PERCENT"
    case Eq => "EQ"
    case Neq => "NEQ"
    case Lt => "LT"
    case Gt => "GT"
    case Lte => "LTE"
    case Gte => "GTE"
    case Assign => "ASSIGN"
    case LParen => "LPAREN"
    case RParen => "RPAREN"
    case LBracket => "LBRACKET"
    case RBracket => "RBRACKET"
    case Colon => "COLON"
    case Comma => "COMMA"
    case Dot => "DOT"
    case If => "IF"
    case Else => "ELSE"
    case While => "WHILE"
    case For => "FOR"
    case In => "IN"
    case Def => "DEF"
    case Return => "RETURN"
    case Pass => "PASS"
    case Not => "NOT"
    case And => "AND"
    case Or => "OR"
    case Global => "GLOBAL"
  }

  /** `Token.ToString`: `Kind(text) on line N`. */
  function TokenToString(t: Token): string {
    KindName(t.kind) + "(" + t.text + ")" + LineSuffix(t.line)
  }

  function LineSuffix(n: int): string {
    " on line " + Text.IntToString(n)
  }

  /** The rendering loses nothing: two tokens that print alike have the same
      kind name, text and line. The kind name is the text before the first
      '(' and the line is the part after the last ')', since neither a kind
      name nor a line number holds one. */
  lemma {:induction false} TokenToStringInjective(t: Token, u: Token)
    requires TokenToString(t) == TokenToString(u)
    ensures KindName(t.kind) == KindName(u.kind) && t.text == u.text && t.line == u.line
  {
    KindNameNoParen(t.kind);
    KindNameNoParen(u.kind);
    LineSuffixNoParen(t.line);
    LineSuffixNoParen(u.line);
    SplitAround(KindName(t.kind), t.text, LineSuffix(t.line), KindName(u.kind), u.text, LineSuffix(u.line), '(', ')');
    LineSuffixInjective(t.line, u.line);
  }

  lemma {:induction false} LineSuffixNoParen(n: int)
    ensures forall i :: 0 <= i < |LineSuffix(n)| ==> LineSuffix(n)[i] != ')'
  {
    var d := Text.IntToString(n);
    assert forall i :: 9 <= i < |LineSuffix(n)| ==> LineSuffix(n)[i] == d[i - 9];
  }

  lemma {:induction false} LineSuffixInjective(m: int, n: int)
    requires LineSuffix(m) == LineSuffix(n)
    ensures m == n
  {
    assert Text.IntToString(m) == LineSuffix(m)[9..];
    Text.ParseIntegerRoundTrip(m);
    Text.ParseIntegerRoundTrip(n);
  }

  /** A string `a c m d r` with no `c` in `a` and no `d` in `r` splits one way only. */
  lemma {:induction false} SplitAround(a1: string, m1: string, r1: string, a2: string, m2: string, r2: string, c: char, d: char)
    requires forall i :: 0 <= i < |a1| ==> a1[i] != c
    requires forall i :: 0 <= i < |a2| ==> a2[i] != c
    requires forall i :: 0 <= i < |r1| ==> r1[i] != d
    requires forall i :: 0 <= i < |r2| ==> r2[i] != d
    requires a1 + [c] + m1 + [d] + r1 == a2 + [c] + m2 + [d] + r2
    ensures a1 == a2 && m1 == m2 && r1 == r2
  {
    assert a1 + [c] + m1 + [d] + r1 == a1 + ([c] + m1 + [d] + r1);
    assert a2 + [c] + m2 + [d] + r2 == a2 + ([c] + m2 + [d] + r2);
    SplitAtFirst(a1, [c] + m1 + [d] + r1, a2, [c] + m2 + [d] + r2, c);
    assert [c] + m1 + [d] + r1 == ([c] + m1) + [d] + r1;
    assert [c] + m2 + [d] + r2 == ([c] + m2) + [d] + r2;
    SplitAtLast([c] + m1, r1, [c] + m2, r2, d);
    assert m1 == ([c] + m1)[1..];
    assert m2 == ([c] + m2)[1..];
  }

  lemma {:induction false} SplitAtFirst(a1: string, x1: string, a2: string, x2: string, c: char)
    requires forall i :: 0 <= i < |a1| ==> a1[i] != c
    requires forall i :: 0 <= i < |a2| ==> a2[i] != c
    requires |x1| > 0 && x1[0] == c && |x2| > 0 && x2[0] == c
    requires a1 + x1 == a2 + x2
    ensures a1 == a2 && x1 == x2
  {
    FirstIndexAfterPrefix(a1, c, x1);
    FirstIndexAfterPrefix(a2, c, x2);
    var s := a1 + x1;
    assert a1 == s[..|a1|];
    assert a2 == s[..|a2|];
    assert x1 == s[|a1|..];
    assert x2 == s[|a2|..];
  }

  lemma {:induction false} SplitAtLast(p1: string, r1: string, p2: string, r2: string, d: char)
    requires forall i :: 0 <= i < |r1| ==> r1[i] != d
    requires forall i :: 0 <= i < |r2| ==> r2[i] != d
    requires p1 + [d] + r1 == p2 + [d] + r2
    ensures p1 == p2 && r1 == r2
  {
    LastIndexBeforeSuffix(p1, d, r1);
    LastIndexBeforeSuffix(p2, d, r2);
    var s := p1 + [d] + r1;
    assert p1 == s[..|p1|];
    assert p2 == s[..|p2|];
    assert r1 == s[|p1| + 1..];
    assert r2 == s[|p2| + 1..];
  }

  /** Position of the first `c` in `s`, or |s|. */
  function FirstIndex(s: string, c: char): nat {
    if s == [] then 0 else if s[0] == c then 0 else 1 + FirstIndex(s[1..], c)
  }

  /** Position of the last `c` in `s`, or -1. */
  function LastIndex(s: string, c: char): int {
    if s == [] then -1 else if s[|s| - 1] == c then |s| - 1 else LastIndex(s[..|s| - 1], c)
  }

  lemma {:induction false} FirstIndexAfterPrefix(a: string, c: char, rest: string)
    requires forall i :: 0 <= i < |a| ==> a[i] != c
    requires |rest| > 0 && rest[0] == c
    ensures FirstIndex(a + rest, c) == |a|
  {
    if a != [] {
      assert (a + rest)[1..] == a[1..] + rest;
      FirstIndexAfterPrefix(a[1..], c, rest);
    }
  }

  lemma {:induction false} LastIndexBeforeSuffix(a: string, c: char, rest: string)
    requires forall i :: 0 <= i < |rest| ==> rest[i] != c
    ensures LastIndex(a + [c] + rest, c) == |a|
  {
    if rest != [] {
      var r := rest[..|rest| - 1];
      assert (a + [c] + rest)[..|a + [c] + rest| - 1] == a + [c] + r;
      LastIndexBeforeSuffix(a, c, r);
    } else {
      assert a + [c] + rest == a + [c];
    }
  }

  lemma {:induction false} KindNameNoParen(k: TokenKind)
    ensures forall i :: 0 <= i < |KindName(k)| ==> KindName(k)[i] != '('
  {
  }
}
