/** The line-oriented lexer of the mini-Python front end
    (Scripts/ProgramExec/PythonLexer.cs). The lexer object is built, used
    once and read back, so its fields (`_tokens`, `_pos`, `_line` and the
    indent stack) are the local variables of `Tokenize`. */
module Lexer {
  import opened Wrappers
  import opened Tokens
  import Text

  // ---------------------------------------------------------------------
  // Line splitting
  // ---------------------------------------------------------------------

  /** `string.Replace("\r\n", "\n")`: one left-to-right pass that replaces
      non-overlapping occurrences. */
  function ReplaceCrLf(s: string): (r: string)
    ensures |r| <= |s|
  {
    if |s| >= 2 && s[0] == '\r' && s[1] == '\n' then "\n" + ReplaceCrLf(s[2..])
    else if s == [] then []
    else [s[0]] + ReplaceCrLf(s[1..])
  }

  /** Text without carriage returns passes through unchanged. */
  lemma {:induction false} ReplaceCrLfNoCarriageReturn(s: string)
    requires forall i :: 0 <= i < |s| ==> s[i] != '\r'
    ensures ReplaceCrLf(s) == s
  {
    if s != [] {
      ReplaceCrLfNoCarriageReturn(s[1..]);
    }
  }

  /** One pass can leave a CR LF pair behind, which is why the lexer's
      constructor and `Tokenize` each apply the replacement. */
  lemma {:induction false} ReplaceCrLfOnePassLeavesPair()
    ensures ReplaceCrLf("\r\r\n") == "\r\n"
    ensures ReplaceCrLf(ReplaceCrLf("\r\r\n")) == "\n"
  {
    assert "\r\r\n"[1..] == "\r\n";
    assert "\r\r\n"[1..][2..] == "";
    assert "\r\n"[2..] == "";
  }

  /** `string.Split('\n')`: the pieces between newlines, empty ones kept. */
  function SplitLines(s: string): (lines: seq<string>)
    ensures |lines| >= 1
    ensures forall i, j :: 0 <= i < |lines| && 0 <= j < |lines[i]| ==> lines[i][j] != '\n'
  {
    if s == [] then [""]
    else if s[0] == '\n' then [""] + SplitLines(s[1..])
    else
      var rest := SplitLines(s[1..]);
      [[s[0]] + rest[0]] + rest[1..]
  }

  function JoinLines(lines: seq<string>): string
    requires |lines| >= 1
  {
    if |lines| == 1 then lines[0] else lines[0] + "\n" + JoinLines(lines[1..])
  }

  /** Splitting loses nothing: joining the pieces with newlines gives the text back. */
  lemma {:induction false} SplitLinesJoin(s: string)
    ensures JoinLines(SplitLines(s)) == s
  {
    if s != [] {
      SplitLinesJoin(s[1..]);
      var rest := SplitLines(s[1..]);
      if s[0] == '\n' {
        assert SplitLines(s)[1..] == rest;
      } else if |rest| == 1 {
        assert JoinLines(SplitLines(s)) == [s[0]] + rest[0];
      } else {
        assert SplitLines(s)[1..] == rest[1..];
        assert JoinLines(rest) == rest[0] + "\n" + JoinLines(rest[1..]);
      }
    }
  }

  /** The lines `Tokenize` walks over: the constructor's replacement, then its own. */
  function Lines(code: string): seq<string> {
    SplitLines(ReplaceCrLf(ReplaceCrLf(code)))
  }

  // ---------------------------------------------------------------------
  // Indentation
  // ---------------------------------------------------------------------

  predicate IsIndentChar(c: char) {
    c == ' ' || c == '\t'
  }

  /** Indent width of a run of spaces and tabs, a tab counting as four. */
  function Width(prefix: string): nat {
    if prefix == [] then 0
    else Width(prefix[..|prefix| - 1]) + (if prefix[|prefix| - 1] == ' ' then 1 else 4)
  }

  function CountChar(s: string, c: char): nat {
    if s == [] then 0 else CountChar(s[..|s| - 1], c) + (if s[|s| - 1] == c then 1 else 0)
  }

  /** The width of an indentation prefix is its spaces plus four per tab. */
  lemma {:induction false} WidthCounts(prefix: string)
    requires forall i :: 0 <= i < |prefix| ==> IsIndentChar(prefix[i])
    ensures Width(prefix) == CountChar(prefix, ' ') + 4 * CountChar(prefix, '\t')
  {
    if prefix != [] {
      WidthCounts(prefix[..|prefix| - 1]);
    }
  }

  /** Where the run of spaces and tabs that starts at `p` ends. */
  function IndentEnd(line: string, p: nat): (q: nat)
    requires p <= |line|
    ensures p <= q <= |line|
    decreases |line| - p
  {
    if p < |line| && IsIndentChar(line[p]) then IndentEnd(line, p + 1) else p
  }

  /** The indentation-counting loop: the longest space/tab prefix and its width. */
  method MeasureIndent(line: string) returns (level: nat, pos: nat)
    ensures pos <= |line| && pos == IndentEnd(line, 0)
    ensures forall i :: 0 <= i < pos ==> IsIndentChar(line[i])
    ensures pos == |line| || !IsIndentChar(line[pos])
    ensures level == Width(line[..pos])
  {
    level, pos := 0, 0;
    while pos < |line| && IsIndentChar(line[pos])
      invariant pos <= |line| && IndentEnd(line, pos) == IndentEnd(line, 0)
      invariant forall i :: 0 <= i < pos ==> IsIndentChar(line[i])
      invariant level == Width(line[..pos])
    {
      assert line[..pos + 1][..pos] == line[..pos];
      level := level + (if line[pos] == ' ' then 1 else 4);
      pos := pos + 1;
    }
  }

  /** `string.TrimStart()`: drops leading white space. */
  function TrimStart(s: string): (r: string)
    ensures |r| <= |s| && r == s[|s| - |r|..]
    ensures forall i :: 0 <= i < |s| - |r| ==> Text.IsWhiteSpace(s[i])
    ensures r == [] || !Text.IsWhiteSpace(r[0])
  {
    if s != [] && Text.IsWhiteSpace(s[0]) then TrimStart(s[1..]) else s
  }

  /** `string.TrimEnd()`: drops trailing white space. */
  function TrimEnd(s: string): (r: string)
    ensures |r| <= |s| && r == s[..|r|]
    ensures forall i :: |r| <= i < |s| ==> Text.IsWhiteSpace(s[i])
    ensures r == [] || !Text.IsWhiteSpace(r[|r| - 1])
  {
    if s != [] && Text.IsWhiteSpace(s[|s| - 1]) then TrimEnd(s[..|s| - 1]) else s
  }

  function Trim(s: string): string {
    TrimEnd(TrimStart(s))
  }

  /** A line that `Tokenize` skips: nothing but white space, or a comment. */
  predicate IsSkipped(line: string) {
    var t := Trim(line);
    |t| == 0 || t[0] == '#'
  }

  /** A line is skipped exactly when its first non-white character is '#' or
      it has none. */
  lemma {:induction false} SkippedIffCommentOrBlank(line: string)
    ensures IsSkipped(line) <==>
      (forall i :: 0 <= i < |line| ==> Text.IsWhiteSpace(line[i])) ||
      (exists k :: 0 <= k < |line| && line[k] == '#' &&
         forall i :: 0 <= i < k ==> Text.IsWhiteSpace(line[i]))
  {
    var s := TrimStart(line);
    var k := |line| - |s|;
    if s == [] {
      assert forall i :: 0 <= i < |line| ==> Text.IsWhiteSpace(line[i]);
    } else {
      assert line[k] == s[0] && !Text.IsWhiteSpace(line[k]);
      assert TrimEnd(s) != [] by {
        assert !Text.IsWhiteSpace(s[0]);
      }
      assert Trim(line)[0] == s[0];
      if IsSkipped(line) {
        assert line[k] == '#';
      } else {
        assert !Text.IsWhiteSpace(line[k]);
        forall j | 0 <= j < |line| && line[j] == '#'
          ensures !forall i :: 0 <= i < j ==> Text.IsWhiteSpace(line[i])
        {
          assert j != k;
          if j > k {
            assert !Text.IsWhiteSpace(line[k]);
          }
        }
      }
    }
  }

  /** The indent stack holds strictly increasing widths over a bottom 0. */
  predicate IndentStack(stack: seq<nat>) {
    |stack| >= 1 && stack[0] == 0 &&
    forall i, j :: 0 <= i < j < |stack| ==> stack[i] < stack[j]
  }

  function Top(stack: seq<nat>): nat
    requires |stack| >= 1
  {
    stack[|stack| - 1]
  }

  function Dedents(n: nat, line: int): (ts: seq<Token>)
    ensures |ts| == n
    ensures forall i :: 0 <= i < n ==> ts[i] == Token(Dedent, "", line)
  {
    if n == 0 then [] else Dedents(n - 1, line) + [Token(Dedent, "", line)]
  }

  /** The indent stack after a line and the layout tokens the line emits first. */
  datatype Indentation = Indentation(stack: seq<nat>, emitted: seq<Token>)

  function IndentationError(line: int): string {
    "Indentation error at line " + Text.IntToString(line)
  }

  /** The stack with every level deeper than `level` taken off. */
  function PopTo(stack: seq<nat>, level: nat): (st: seq<nat>)
    requires |stack| >= 1
    ensures 1 <= |st| <= |stack| && st == stack[..|st|]
    decreases |stack|
  {
    if |stack| > 1 && level < Top(stack) then PopTo(stack[..|stack| - 1], level) else stack
  }

  /** The INDENT/DEDENT step for one non-blank line, as a function of the
      stack and the line's width: a deeper level is pushed with one INDENT;
      otherwise the deeper levels are popped with one DEDENT each, and a
      level that then differs from the top is an indentation error. */
  function IndentStep(stack: seq<nat>, level: nat, line: int): (r: Result<Indentation>)
    requires IndentStack(stack)
    ensures r.Ok? ==> IndentStack(r.value.stack)
  {
    if level > Top(stack) then
      PushLevel(stack, level);
      Ok(Indentation(stack + [level], [Token(Indent, "", line)]))
    else
      var st := PopTo(stack, level);
      PrefixStack(stack, |st|);
      if Top(st) == level then Ok(Indentation(st, Dedents(|stack| - |st|, line)))
      else Err(IndentationError(line))
  }

  /** The INDENT/DEDENT step for one non-blank line: push a deeper level and
      emit one INDENT, or pop shallower levels with one DEDENT each; a level
      that then differs from the top is an indentation error. */
  method Reindent(stack: seq<nat>, level: nat, line: int) returns (r: Result<Indentation>)
    requires IndentStack(stack)
    ensures r == IndentStep(stack, level, line)
    ensures r.Ok? <==> level > Top(stack) || level in stack
    ensures r.Err? ==> r.message == IndentationError(line)
    ensures r.Ok? ==> IndentStack(r.value.stack) && Top(r.value.stack) == level
    ensures r.Ok? && level > Top(stack) ==>
      r.value.stack == stack + [level] && r.value.emitted == [Token(Indent, "", line)]
    ensures r.Ok? && level <= Top(stack) ==>
      |r.value.stack| <= |stack| && r.value.stack == stack[..|r.value.stack|] &&
      r.value.emitted == Dedents(|stack| - |r.value.stack|, line)
  {
    var st := stack;
    var emitted: seq<Token> := [];
    if level > Top(st) {
      PushLevel(stack, level);
      st := st + [level];
      emitted := emitted + [Token(Indent, "", line)];
    }
    var popped;
    st, popped := PopDeeper(st, level, line);
    assert emitted + popped == if level > Top(stack) then [Token(Indent, "", line)] else popped;
    emitted := emitted + popped;
    if level <= Top(stack) {
      LevelFound(stack, st, level);
    }
    if level != Top(st) {
      return Err(IndentationError(line));
    }
    return Ok(Indentation(st, emitted));
  }

  /** The pop loop: drop every level deeper than `level`, one DEDENT each. */
  method PopDeeper(stack: seq<nat>, level: nat, line: int) returns (st: seq<nat>, popped: seq<Token>)
    requires IndentStack(stack)
    ensures 1 <= |st| <= |stack| && st == stack[..|st|] && IndentStack(st)
    ensures popped == Dedents(|stack| - |st|, line)
    ensures Top(st) <= level
    ensures forall j :: |st| <= j < |stack| ==> level < stack[j]
    ensures Top(stack) <= level ==> st == stack && popped == []
    ensures st == PopTo(stack, level)
  {
    st, popped := stack, [];
    while level < Top(st)
      invariant 1 <= |st| <= |stack| && st == stack[..|st|]
      invariant PopTo(st, level) == PopTo(stack, level)
      invariant popped == Dedents(|stack| - |st|, line)
      invariant forall j :: |st| <= j < |stack| ==> level < stack[j]
      decreases |st|
    {
      st := st[..|st| - 1];
      popped := popped + [Token(Dedent, "", line)];
    }
    PrefixStack(stack, |st|);
  }

  /** A deeper level on top keeps the stack strictly increasing. */
  lemma {:induction false} PushLevel(stack: seq<nat>, level: nat)
    requires IndentStack(stack) && level > Top(stack)
    ensures IndentStack(stack + [level])
  {
  }

  /** A nonempty prefix of an indent stack is one. */
  lemma {:induction false} PrefixStack(stack: seq<nat>, n: nat)
    requires IndentStack(stack) && 1 <= n <= |stack|
    ensures IndentStack(stack[..n])
  {
  }

  /** After popping the deeper levels, `level` was on the stack exactly when
      it is the new top. */
  lemma {:induction false} LevelFound(stack: seq<nat>, st: seq<nat>, level: nat)
    requires IndentStack(stack) && 1 <= |st| <= |stack| && st == stack[..|st|]
    requires Top(st) <= level && forall j :: |st| <= j < |stack| ==> level < stack[j]
    ensures level in stack <==> level == Top(st)
  {
    if level in stack {
      var k :| 0 <= k < |stack| && stack[k] == level;
      assert stack[|st| - 1] <= stack[k];
    }
    assert stack[|st| - 1] == Top(st);
  }

  // ---------------------------------------------------------------------
  // Scanning one line
  // ---------------------------------------------------------------------

  predicate IsNumberChar(c: char) {
    Text.IsDigit(c) || c == '.'
  }

  predicate IsWordStart(c: char) {
    Text.IsLetter(c) || c == '_'
  }

  predicate IsWordChar(c: char) {
    Text.IsLetterOrDigit(c) || c == '_'
  }

  /** End of the maximal run of digits and dots starting at `p`. */
  function NumberEnd(s: string, p: nat): (q: nat)
    requires p <= |s|
    ensures p <= q <= |s|
    ensures forall i :: p <= i < q ==> IsNumberChar(s[i])
    ensures q == |s| || !IsNumberChar(s[q])
    decreases |s| - p
  {
    if p < |s| && IsNumberChar(s[p]) then NumberEnd(s, p + 1) else p
  }

  /** End of the maximal run of letters, digits and underscores starting at `p`. */
  function WordEnd(s: string, p: nat): (q: nat)
    requires p <= |s|
    ensures p <= q <= |s|
    ensures forall i :: p <= i < q ==> IsWordChar(s[i])
    ensures q == |s| || !IsWordChar(s[q])
    decreases |s| - p
  {
    if p < |s| && IsWordChar(s[p]) then WordEnd(s, p + 1) else p
  }

  /** Where the string-literal scan stops: at the first unescaped `quote`, or
      at the end of the line; a backslash with a character after it skips
      that character. */
  function StringEnd(s: string, p: nat, quote: char): (q: nat)
    requires p <= |s|
    ensures p <= q <= |s|
    ensures q < |s| ==> s[q] == quote
    decreases |s| - p
  {
    if p < |s| && s[p] != quote then
      if s[p] == '\\' && p + 1 < |s| then StringEnd(s, p + 2, quote) else StringEnd(s, p + 1, quote)
    else p
  }

  const Keywords: set<string> :=
    {"if", "else", "while", "for", "in", "def", "return", "pass", "not", "and", "or", "global"}

  /** `GetKeywordType`: the kind of a keyword, NAME for anything else. */
  function GetKeywordType(name: string): (k: TokenKind)
    ensures k.Name? || IsKeyword(k)
  {
    match name
    case "if" => If
    case "else" => Else
    case "while" => While
    case "for" => For
    case "in" => In
    case "def" => Def
    case "return" => Return
    case "pass" => Pass
    case "not" => Not
    case "and" => And
    case "or" => Or
    case "global" => Global
    case _ => Name
  }

  /** The kind of a scanned word: BOOLEAN for True/False, a keyword kind for
      one of the twelve keywords, NAME otherwise. */
  function WordKind(w: string): (k: TokenKind)
    ensures k.Boolean? || k.Name? || IsKeyword(k)
  {
    if w == "True" || w == "False" then Boolean
    else if w in Keywords then GetKeywordType(w)
    else Name
  }

  /** The spelling of each keyword kind. */
  function KeywordLexeme(k: TokenKind): string
    requires IsKeyword(k)
  {
    match k
    case If => "if"
    case Else => "else"
    case While => "while"
    case For => "for"
    case In => "in"
    case Def => "def"
    case Return => "return"
    case Pass => "pass"
    case Not => "not"
    case And => "and"
    case Or => "or"
    case Global => "global"
  }

  /** Word classification: exactly True/False are BOOLEAN, exactly the twelve
      keywords get keyword kinds (spelled back by KeywordLexeme), and every
      other word is a NAME. */
  lemma {:induction false} WordKindClassifies(w: string)
    ensures WordKind(w) == Boolean <==> w == "True" || w == "False"
    ensures IsKeyword(WordKind(w)) <==> w in Keywords
    ensures IsKeyword(WordKind(w)) ==> KeywordLexeme(WordKind(w)) == w
    ensures WordKind(w) == Boolean || WordKind(w) == Name || IsKeyword(WordKind(w))
  {
  }

  /** Every keyword kind is produced by its own spelling. */
  lemma {:induction false} KeywordRoundTrip(k: TokenKind)
    requires IsKeyword(k)
    ensures KeywordLexeme(k) in Keywords && WordKind(KeywordLexeme(k)) == k
  {
  }

  /** The four two-character operators. */
  function TwoCharKind(two: string): (r: Option<TokenKind>)
    ensures r.Some? ==> IsOperator(r.value) && OperatorLexeme(r.value) == Some(two)
    ensures r.Some? ==> !r.value.Lt? && !r.value.Gt? && !r.value.Assign?
    ensures |two| == 2 && two[1] == '=' && (two[0] == '<' || two[0] == '>' || two[0] == '=' || two[0] == '!') ==> r.Some?
  {
    if two == "==" then Some(Eq)
    else if two == "!=" then Some(Neq)
    else if two == "<=" then Some(Lte)
    else if two == ">=" then Some(Gte)
    else None
  }

  /** The fifteen one-character operators and delimiters. */
  function SingleCharKind(c: char): (r: Option<TokenKind>)
    ensures r.Some? ==> OperatorLexeme(r.value) == Some([c])
    ensures r == Some(Lt) || r == Some(Gt) || r == Some(Assign) ==> c == '<' || c == '>' || c == '='
  {
    match c
    case '+' => Some(Plus)
    case '-' => Some(Minus)
    case '*' => Some(Star)
    case '/' => Some(Slash)
    case '%' => Some(Percent)
    case '<' => Some(Lt)
    case '>' => Some(Gt)
    case '=' => Some(Assign)
    case '(' => Some(LParen)
    case ')' => Some(RParen)
    case '[' => Some(LBracket)
    case ']' => Some(RBracket)
    case ':' => Some(Colon)
    case ',' => Some(Comma)
    case '.' => Some(Dot)
    case _ => None
  }

  /** The exception `Substring` raises when a string literal runs to the end
      of the line without its closing quote. */
  const UnterminatedString: string := "Index and length must refer to a location within the string."

  function UnknownToken(c: char, line: int): string {
    "Unknown token '" + [c] + "' at line " + Text.IntToString(line)
  }

  /** What the scan loop does at one position of a line's content. */
  datatype Step = Skip | Comment | Emit(kind: TokenKind, text: string, next: nat) | Fail(message: string)

  predicate IsOperatorChar(s: string, p: nat)
    requires p < |s|
  {
    SingleCharKind(s[p]).Some? || (p + 1 < |s| && TwoCharKind(s[p..p + 2]).Some?)
  }

  /** One iteration of the scan loop, in the source's order of tests. */
  function ScanStep(s: string, p: nat, line: int): (r: Step)
    requires p < |s|
    ensures r.Emit? ==> p < r.next <= |s| && r.text == s[p..r.next]
    ensures r.Emit? ==> !IsLayout(r.kind)
    ensures r.Emit? && IsOperator(r.kind) ==> OperatorLexeme(r.kind) == Some(r.text)
    ensures r.Emit? && (r.kind.Lt? || r.kind.Gt? || r.kind.Assign?) ==>
      !(p + 1 < |s| && s[p + 1] == '=')
  {
    var c := s[p];
    if IsIndentChar(c) then Skip
    else if c == '#' then Comment
    else if Text.IsDigit(c) then NumberStep(s, p)
    else if c == '"' || c == '\'' then StringStep(s, p)
    else if IsWordStart(c) then WordStep(s, p)
    else ScanOperator(s, p, line)
  }

  /** A number token: the maximal run of digits and dots from `p`. */
  function NumberStep(s: string, p: nat): (r: Step)
    requires p < |s| && Text.IsDigit(s[p])
    ensures r.Emit? && r.kind.Number? && p < r.next <= |s| && r.text == s[p..r.next]
    ensures r.next == |s| || !IsNumberChar(s[r.next])
    ensures forall i :: p <= i < r.next ==> IsNumberChar(s[i])
  {
    var q := NumberEnd(s, p);
    Emit(Number, s[p..q], q)
  }

  /** A string token, quotes included, or the error of a missing closing
      quote. */
  function StringStep(s: string, p: nat): (r: Step)
    requires p < |s| && (s[p] == '"' || s[p] == '\'')
    ensures r.Fail? <==> StringEnd(s, p + 1, s[p]) == |s|
    ensures r.Emit? ==> r.kind.String? && p < r.next <= |s| && r.text == s[p..r.next]
    ensures r.Emit? ==> |r.text| >= 2 && r.text[0] == r.text[|r.text| - 1] == s[p]
    ensures r.Fail? || r.Emit?
  {
    var q := StringEnd(s, p + 1, s[p]);
    if q + 1 > |s| then Fail(UnterminatedString) else Emit(String, s[p..q + 1], q + 1)
  }

  /** A word: BOOLEAN, a keyword or a NAME. */
  function WordStep(s: string, p: nat): (r: Step)
    requires p < |s| && IsWordStart(s[p])
    ensures r.Emit? && p < r.next <= |s| && r.text == s[p..r.next]
    ensures r.kind.Boolean? || r.kind.Name? || IsKeyword(r.kind)
  {
    var q := WordEnd(s, p);
    Emit(WordKind(s[p..q]), s[p..q], q)
  }

  /** Operators and delimiters: a two-character operator when one matches,
      else a single character, else the unknown-character error. */
  function ScanOperator(s: string, p: nat, line: int): (r: Step)
    requires p < |s|
    ensures r.Emit? ==> p < r.next <= |s| && r.text == s[p..r.next]
    ensures r.Emit? ==> !IsLayout(r.kind) && IsOperator(r.kind)
    ensures r.Emit? ==> OperatorLexeme(r.kind) == Some(r.text)
    ensures r.Emit? && (r.kind.Lt? || r.kind.Gt? || r.kind.Assign?) ==>
      !(p + 1 < |s| && s[p + 1] == '=')
    ensures r.Fail? <==> !IsOperatorChar(s, p)
  {
    if p + 1 < |s| && TwoCharKind(s[p..p + 2]).Some? then
      Emit(TwoCharKind(s[p..p + 2]).value, s[p..p + 2], p + 2)
    else
      match SingleCharKind(s[p])
      case Some(k) => Emit(k, [s[p]], p + 1)
      case None => Fail(UnknownToken(s[p], line))
  }

  /** Number tokens are maximal runs of digits and dots that start with a
      digit. */
  lemma {:induction false} ScanStepNumber(s: string, p: nat, line: int)
    requires p < |s|
    ensures var r := ScanStep(s, p, line);
      r.Emit? && r.kind.Number? ==>
        Text.IsDigit(s[p]) && (r.next == |s| || !IsNumberChar(s[r.next])) &&
        forall i :: p <= i < r.next ==> IsNumberChar(s[i])
  {
    var c := s[p];
    if !IsIndentChar(c) && c != '#' && !Text.IsDigit(c) {
      StepNotLiteral(s, p, line);
    }
  }

  /** String tokens keep both quotes. */
  lemma {:induction false} ScanStepString(s: string, p: nat, line: int)
    requires p < |s|
    ensures var r := ScanStep(s, p, line);
      r.Emit? && r.kind.String? ==>
        |r.text| >= 2 && r.text[0] == r.text[|r.text| - 1] && (r.text[0] == '"' || r.text[0] == '\'')
  {
    var c := s[p];
    if !IsIndentChar(c) && c != '#' && !Text.IsDigit(c) && c != '"' && c != '\'' {
      StepNotLiteral(s, p, line);
    }
  }

  /** Past the digit and quote tests, no literal number or string comes out. */
  lemma {:induction false} StepNotLiteral(s: string, p: nat, line: int)
    requires p < |s| && !IsIndentChar(s[p]) && s[p] != '#' && !Text.IsDigit(s[p])
    ensures var r := ScanStep(s, p, line);
      r.Emit? ==> !r.kind.Number? && (r.kind.String? ==> s[p] == '"' || s[p] == '\'')
  {
    var c := s[p];
    if c == '"' || c == '\'' {
    } else if IsWordStart(c) {
      var r := WordStep(s, p);
      assert !r.kind.Number? && !r.kind.String?;
    } else {
      var r := ScanOperator(s, p, line);
      assert r.Emit? ==> IsOperator(r.kind);
    }
  }

  /** A scan step fails exactly on a string literal with no closing quote, or
      on a character that starts no token. */
  lemma {:induction false} ScanStepFails(s: string, p: nat, line: int)
    requires p < |s|
    ensures ScanStep(s, p, line).Fail? <==>
      ((s[p] == '"' || s[p] == '\'') && StringEnd(s, p + 1, s[p]) == |s|) ||
      (!IsIndentChar(s[p]) && s[p] != '#' && !Text.IsDigit(s[p]) && s[p] != '"' && s[p] != '\'' &&
       !IsWordStart(s[p]) && !IsOperatorChar(s, p))
  {
  }

  /** The tokens the scan loop produces from position `p` of a line's content. */
  function ScanFrom(s: string, p: nat, line: int): (r: Result<seq<Token>>)
    requires p <= |s|
    ensures r.Ok? ==> forall i :: 0 <= i < |r.value| ==>
      r.value[i].line == line && !IsLayout(r.value[i].kind) && |r.value[i].text| > 0
    decreases |s| - p
  {
    if p == |s| then Ok([])
    else
      match ScanStep(s, p, line)
      case Skip => ScanFrom(s, p + 1, line)
      case Comment => Ok([])
      case Emit(k, text, q) =>
        var rest :- ScanFrom(s, q, line);
        OnLine([Token(k, text, line)], rest, line);
        Ok([Token(k, text, line)] + rest)
      case Fail(m) => Err(m)
  }

  /** Two runs of non-layout tokens with text, both on `line`, make one. */
  lemma {:induction false} OnLine(a: seq<Token>, b: seq<Token>, line: int)
    requires forall i :: 0 <= i < |a| ==> a[i].line == line && !IsLayout(a[i].kind) && |a[i].text| > 0
    requires forall i :: 0 <= i < |b| ==> b[i].line == line && !IsLayout(b[i].kind) && |b[i].text| > 0
    ensures forall i :: 0 <= i < |a + b| ==> (a + b)[i].line == line && !IsLayout((a + b)[i].kind) && |(a + b)[i].text| > 0
  {
  }

  /** The scan loop over one line's content (everything after the indentation). */
  method ScanLine(content: string, line: int) returns (r: Result<seq<Token>>)
    ensures r == ScanFrom(content, 0, line)
  {
    var toks: seq<Token> := [];
    var pos: nat := 0;
    if ScanFrom(content, 0, line).Ok? {
      assert toks + ScanFrom(content, 0, line).value == ScanFrom(content, 0, line).value;
    }
    while pos < |content|
      invariant pos <= |content|
      invariant ScanFrom(content, 0, line) == Prepend(toks, ScanFrom(content, pos, line))
      decreases |content| - pos
    {
      var c := content[pos];
      if c == ' ' || c == '\t' {
        pos := pos + 1;
        continue;
      }
      if c == '#' {
        assert ScanStep(content, pos, line) == Comment;
        assert toks + [] == toks;
        return Ok(toks);
      }
      var step := ScanToken(content, pos, line);
      if step.Fail? {
        return Err(step.message);
      }
      AppendToken(content, pos, line, toks, Token(step.kind, step.text, line), step.next);
      toks := toks + [Token(step.kind, step.text, line)];
      pos := step.next;
    }
    assert toks + [] == toks;
    return Ok(toks);
  }

  /** One token of the scan loop: the number, string, word and operator
      branches, with their inner loops. */
  method ScanToken(s: string, p: nat, line: int) returns (r: Step)
    requires p < |s| && !IsIndentChar(s[p]) && s[p] != '#'
    ensures r == ScanStep(s, p, line)
  {
    var c := s[p];
    if Text.IsDigit(c) {
      var pos := ScanNumber(s, p);
      return Emit(Number, s[p..pos], pos);
    }
    if c == '"' || c == '\'' {
      var pos := ScanQuoted(s, p + 1, c);
      pos := pos + 1;
      if pos > |s| {
        return Fail(UnterminatedString);
      }
      return Emit(String, s[p..pos], pos);
    }
    if IsWordStart(c) {
      var pos := ScanWord(s, p);
      var name := s[p..pos];
      var kind;
      if name == "True" || name == "False" {
        kind := Boolean;
      } else if name in Keywords {
        kind := GetKeywordType(name);
      } else {
        kind := Name;
      }
      return Emit(kind, name, pos);
    }
    if p + 1 < |s| {
      var two := s[p..p + 2];
      if two == "==" || two == "!=" || two == "<=" || two == ">=" {
        return Emit(TwoCharKind(two).value, two, p + 2);
      }
    }
    match SingleCharKind(c)
    case None =>
      return Fail(UnknownToken(c, line));
    case Some(kind) =>
      return Emit(kind, [c], p + 1);
  }

  /** The digit-and-dot loop of a number literal. */
  method ScanNumber(s: string, p: nat) returns (pos: nat)
    requires p <= |s|
    ensures pos == NumberEnd(s, p)
  {
    pos := p;
    while pos < |s| && IsNumberChar(s[pos])
      invariant p <= pos <= |s|
      invariant NumberEnd(s, p) == NumberEnd(s, pos)
    {
      pos := pos + 1;
    }
  }

  /** The loop of a string literal up to its closing quote, skipping the
      character after each backslash. */
  method ScanQuoted(s: string, p: nat, quote: char) returns (pos: nat)
    requires p <= |s|
    ensures pos == StringEnd(s, p, quote)
  {
    pos := p;
    while pos < |s| && s[pos] != quote
      invariant p <= pos <= |s|
      invariant StringEnd(s, p, quote) == StringEnd(s, pos, quote)
    {
      if s[pos] == '\\' && pos + 1 < |s| {
        pos := pos + 2;
      } else {
        pos := pos + 1;
      }
    }
  }

  /** The letter, digit and underscore loop of a word. */
  method ScanWord(s: string, p: nat) returns (pos: nat)
    requires p <= |s|
    ensures pos == WordEnd(s, p)
  {
    pos := p;
    while pos < |s| && IsWordChar(s[pos])
      invariant p <= pos <= |s|
      invariant WordEnd(s, p) == WordEnd(s, pos)
    {
      pos := pos + 1;
    }
  }

  /** Emitting the token of one scan step keeps the loop invariant of ScanLine. */
  lemma {:induction false} AppendToken(s: string, p: nat, line: int, acc: seq<Token>, t: Token, q: nat)
    requires p < |s| && ScanStep(s, p, line) == Emit(t.kind, t.text, q) && t.line == line
    ensures Prepend(acc, ScanFrom(s, p, line)) == Prepend(acc + [t], ScanFrom(s, q, line))
  {
    assert ScanFrom(s, p, line) == Prepend([Token(t.kind, t.text, line)], ScanFrom(s, q, line));
    if ScanFrom(s, q, line).Ok? {
      var rest := ScanFrom(s, q, line).value;
      assert acc + ([t] + rest) == (acc + [t]) + rest;
    }
  }

  // ---------------------------------------------------------------------
  // The token stream
  // ---------------------------------------------------------------------

  /** Open blocks after a token sequence: INDENTs minus DEDENTs. */
  function Depth(ts: seq<Token>): int {
    if ts == [] then 0
    else
      var k := ts[|ts| - 1].kind;
      Depth(ts[..|ts| - 1]) + (if k.Indent? then 1 else if k.Dedent? then -1 else 0)
  }

  /** The depth after the first `k` tokens. */
  function PrefixDepth(ts: seq<Token>, k: nat): int
    requires k <= |ts|
  {
    Depth(ts[..k])
  }

  /** No prefix closes more blocks than it opened. */
  predicate NeverBelowZero(ts: seq<Token>) {
    forall k :: 0 <= k <= |ts| ==> PrefixDepth(ts, k) >= 0
  }

  /** Every DEDENT matches an earlier INDENT and every INDENT is closed. */
  predicate Balanced(ts: seq<Token>) {
    NeverBelowZero(ts) && Depth(ts) == 0
  }

  function Count(k: TokenKind, ts: seq<Token>): nat {
    if ts == [] then 0 else Count(k, ts[..|ts| - 1]) + (if ts[|ts| - 1].kind == k then 1 else 0)
  }

  predicate LinesNondecreasing(ts: seq<Token>) {
    forall i, j :: 0 <= i < j < |ts| ==> ts[i].line <= ts[j].line
  }

  /** Exactly one EOF, and it is the last token. */
  predicate EndsWithSingleEof(ts: seq<Token>) {
    |ts| > 0 && ts[|ts| - 1].kind.Eof? &&
    forall i :: 0 <= i < |ts| - 1 ==> !ts[i].kind.Eof?
  }

  function NonBlankCount(lines: seq<string>): nat {
    if lines == [] then 0
    else NonBlankCount(lines[..|lines| - 1]) + (if IsSkipped(lines[|lines| - 1]) then 0 else 1)
  }

  lemma {:induction false} CountAppend(k: TokenKind, a: seq<Token>, b: seq<Token>)
    ensures Count(k, a + b) == Count(k, a) + Count(k, b)
    decreases |b|
  {
    if b != [] {
      assert (a + b)[..|a + b| - 1] == a + b[..|b| - 1];
      CountAppend(k, a, b[..|b| - 1]);
    } else {
      assert a + b == a;
    }
  }

  lemma {:induction false} DepthAppend(a: seq<Token>, b: seq<Token>)
    ensures Depth(a + b) == Depth(a) + Depth(b)
    decreases |b|
  {
    if b != [] {
      assert (a + b)[..|a + b| - 1] == a + b[..|b| - 1];
      DepthAppend(a, b[..|b| - 1]);
    } else {
      assert a + b == a;
    }
  }

  /** Tokens that are neither INDENT nor DEDENT leave the depth alone. */
  lemma {:induction false} FlatDepth(b: seq<Token>)
    requires forall i :: 0 <= i < |b| ==> !b[i].kind.Indent? && !b[i].kind.Dedent?
    ensures Depth(b) == 0
  {
    if b != [] {
      FlatDepth(b[..|b| - 1]);
    }
  }

  lemma {:induction false} AppendFlat(a: seq<Token>, b: seq<Token>)
    requires NeverBelowZero(a) && Depth(a) >= 0
    requires forall i :: 0 <= i < |b| ==> !b[i].kind.Indent? && !b[i].kind.Dedent?
    ensures NeverBelowZero(a + b) && Depth(a + b) == Depth(a)
  {
    DepthAppend(a, b);
    FlatDepth(b);
    forall k | 0 <= k <= |a + b|
      ensures PrefixDepth(a + b, k) >= 0
    {
      if k <= |a| {
        assert (a + b)[..k] == a[..k];
        assert PrefixDepth(a, k) >= 0;
      } else {
        assert (a + b)[..k] == a + b[..k - |a|];
        DepthAppend(a, b[..k - |a|]);
        FlatDepth(b[..k - |a|]);
      }
    }
  }

  lemma {:induction false} AppendOne(a: seq<Token>, t: Token)
    requires NeverBelowZero(a) && Depth(a + [t]) >= 0
    ensures NeverBelowZero(a + [t])
  {
    forall k | 0 <= k <= |a + [t]|
      ensures PrefixDepth(a + [t], k) >= 0
    {
      if k <= |a| {
        assert (a + [t])[..k] == a[..k];
        assert PrefixDepth(a, k) >= 0;
      } else {
        assert (a + [t])[..k] == a + [t];
      }
    }
  }

  /** Closing blocks that are open keeps every prefix at depth zero or more. */
  lemma {:induction false} AppendDedents(a: seq<Token>, b: seq<Token>)
    requires forall i :: 0 <= i < |b| ==> b[i].kind.Dedent?
    requires NeverBelowZero(a) && Depth(a) >= |b|
    ensures NeverBelowZero(a + b) && Depth(a + b) == Depth(a) - |b|
    decreases |b|
  {
    if b != [] {
      var c := b[..|b| - 1];
      var d := b[|b| - 1];
      AppendDedents(a, c);
      assert a + b == (a + c) + [d];
      LastToken(a + c, d);
      AppendOne(a + c, d);
    } else {
      assert a + b == a;
    }
  }

  /** Line numbers are at most `n`, and there is no EOF yet. */
  predicate BeforeEof(ts: seq<Token>, n: int) {
    forall i :: 0 <= i < |ts| ==> !ts[i].kind.Eof? && ts[i].line <= n
  }

  /** What holds of the tokens emitted before line `lineNo` is scanned. */
  predicate StreamSoFar(toks: seq<Token>, stack: seq<nat>, lineNo: int) {
    IndentStack(stack) && BeforeEof(toks, lineNo) &&
    NeverBelowZero(toks) && Depth(toks) == |stack| - 1 &&
    LinesNondecreasing(toks)
  }

  /** Tokens all on line `n` may follow tokens on lines up to `n`. */
  lemma {:induction false} AppendAtLine(a: seq<Token>, b: seq<Token>, n: int)
    requires BeforeEof(a, n) && LinesNondecreasing(a)
    requires forall i :: 0 <= i < |b| ==> !b[i].kind.Eof? && b[i].line == n
    ensures BeforeEof(a + b, n) && LinesNondecreasing(a + b)
  {
  }

  /** The INDENT or DEDENTs of a line move the depth to the new stack's. */
  lemma {:induction false} AppendIndentation(toks: seq<Token>, stack: seq<nat>, ind: Indentation, lineNo: int)
    requires StreamSoFar(toks, stack, lineNo)
    requires IndentStack(ind.stack)
    requires (ind.stack == stack + [Top(ind.stack)] && ind.emitted == [Token(Indent, "", lineNo)]) ||
             (|ind.stack| <= |stack| && ind.stack == stack[..|ind.stack|] &&
              ind.emitted == Dedents(|stack| - |ind.stack|, lineNo))
    ensures StreamSoFar(toks + ind.emitted, ind.stack, lineNo)
    ensures Count(Newline, toks + ind.emitted) == Count(Newline, toks)
  {
    if |ind.stack| > |stack| {
      AppendIndent(toks, stack, ind.stack, lineNo);
    } else {
      AppendDedentsAt(toks, stack, ind.stack, lineNo);
    }
  }

  lemma {:induction false} AppendIndent(toks: seq<Token>, stack: seq<nat>, newStack: seq<nat>, lineNo: int)
    requires StreamSoFar(toks, stack, lineNo)
    requires IndentStack(newStack) && newStack == stack + [Top(newStack)]
    ensures StreamSoFar(toks + [Token(Indent, "", lineNo)], newStack, lineNo)
    ensures Count(Newline, toks + [Token(Indent, "", lineNo)]) == Count(Newline, toks)
  {
    var t := Token(Indent, "", lineNo);
    LastToken(toks, t);
    AppendOne(toks, t);
    AppendAtLine(toks, [t], lineNo);
  }

  /** One token more: the depth and the NEWLINE count move by that token alone. */
  lemma {:induction false} LastToken(a: seq<Token>, t: Token)
    ensures (a + [t])[..|a|] == a
    ensures Depth(a + [t]) == Depth(a) + (if t.kind.Indent? then 1 else if t.kind.Dedent? then -1 else 0)
    ensures Count(Newline, a + [t]) == Count(Newline, a) + (if t.kind.Newline? then 1 else 0)
  {
    assert (a + [t])[..|a|] == a;
  }

  lemma {:induction false} AppendDedentsAt(toks: seq<Token>, stack: seq<nat>, newStack: seq<nat>, lineNo: int)
    requires StreamSoFar(toks, stack, lineNo)
    requires IndentStack(newStack) && |newStack| <= |stack|
    ensures StreamSoFar(toks + Dedents(|stack| - |newStack|, lineNo), newStack, lineNo)
    ensures Count(Newline, toks + Dedents(|stack| - |newStack|, lineNo)) == Count(Newline, toks)
  {
    var n := |stack| - |newStack|;
    assert Depth(toks) >= n by {
      assert |newStack| >= 1;
    }
    var d := toks + Dedents(n, lineNo);
    AppendDedents(toks, Dedents(n, lineNo));
    DedentsAtLine(toks, n, lineNo);
    assert NeverBelowZero(d) && Depth(d) == |newStack| - 1;
    assert BeforeEof(d, lineNo) && LinesNondecreasing(d);
  }

  /** DEDENTs on the current line keep the line order and add no NEWLINE. */
  lemma {:induction false} DedentsAtLine(toks: seq<Token>, n: nat, lineNo: int)
    requires BeforeEof(toks, lineNo) && LinesNondecreasing(toks)
    ensures BeforeEof(toks + Dedents(n, lineNo), lineNo) && LinesNondecreasing(toks + Dedents(n, lineNo))
    ensures Count(Newline, toks + Dedents(n, lineNo)) == Count(Newline, toks)
  {
    var d := Dedents(n, lineNo);
    assert forall i :: 0 <= i < |d| ==> d[i] == Token(Dedent, "", lineNo);
    AppendAtLine(toks, d, lineNo);
    CountAppend(Newline, toks, d);
    FlatCount(d);
  }

  /** Appending one non-blank line's tokens, all on `lineNo`, keeps StreamSoFar. */
  lemma {:induction false} AppendLine(toks: seq<Token>, stack: seq<nat>, ind: Indentation, body: seq<Token>, lineNo: int)
    requires StreamSoFar(toks, stack, lineNo)
    requires IndentStack(ind.stack)
    requires (ind.stack == stack + [Top(ind.stack)] && ind.emitted == [Token(Indent, "", lineNo)]) ||
             (|ind.stack| <= |stack| && ind.stack == stack[..|ind.stack|] &&
              ind.emitted == Dedents(|stack| - |ind.stack|, lineNo))
    requires forall i :: 0 <= i < |body| ==> body[i].line == lineNo && !IsLayout(body[i].kind)
    ensures StreamSoFar(toks + ind.emitted + body + [Token(Newline, "\\n", lineNo)], ind.stack, lineNo + 1)
    ensures Count(Newline, toks + ind.emitted + body + [Token(Newline, "\\n", lineNo)]) == Count(Newline, toks) + 1
  {
    AppendIndentation(toks, stack, ind, lineNo);
    var a := toks + ind.emitted;
    var nl := Token(Newline, "\\n", lineNo);
    AppendBody(a, ind.stack, body, lineNo);
    assert toks + ind.emitted + body + [nl] == a + (body + [nl]);
  }

  /** A line's own tokens and its NEWLINE, after its INDENT or DEDENTs. */
  lemma {:induction false} AppendBody(a: seq<Token>, stack: seq<nat>, body: seq<Token>, lineNo: int)
    requires StreamSoFar(a, stack, lineNo)
    requires forall i :: 0 <= i < |body| ==> body[i].line == lineNo && !IsLayout(body[i].kind)
    ensures StreamSoFar(a + (body + [Token(Newline, "\\n", lineNo)]), stack, lineNo + 1)
    ensures Count(Newline, a + (body + [Token(Newline, "\\n", lineNo)])) == Count(Newline, a) + 1
  {
    var nl := Token(Newline, "\\n", lineNo);
    var b := body + [nl];
    AppendFlat(a, b);
    AppendAtLine(a, b, lineNo);
    StreamLater(a + b, stack, lineNo);
    CountAppend(Newline, a, b);
    CountAppend(Newline, body, [nl]);
    assert [nl][..0] == [];
    NonLayoutCount(body);
  }

  /** Nothing scanned so far is on a later line than the one being scanned. */
  lemma {:induction false} StreamLater(toks: seq<Token>, stack: seq<nat>, lineNo: int)
    requires IndentStack(stack) && BeforeEof(toks, lineNo)
    requires NeverBelowZero(toks) && Depth(toks) == |stack| - 1 && LinesNondecreasing(toks)
    ensures StreamSoFar(toks, stack, lineNo + 1)
  {
  }

  /** Counting one more line. */
  lemma {:induction false} NonBlankStep(lines: seq<string>, i: nat)
    requires i < |lines|
    ensures NonBlankCount(lines[..i + 1]) == NonBlankCount(lines[..i]) + (if IsSkipped(lines[i]) then 0 else 1)
  {
    assert lines[..i + 1][..i] == lines[..i];
  }

  lemma {:induction false} FlatCount(e: seq<Token>)
    requires forall i :: 0 <= i < |e| ==> e[i].kind.Indent? || e[i].kind.Dedent?
    ensures Count(Newline, e) == 0
  {
    if e != [] {
      FlatCount(e[..|e| - 1]);
    }
  }

  lemma {:induction false} NonLayoutCount(e: seq<Token>)
    requires forall i :: 0 <= i < |e| ==> !IsLayout(e[i].kind)
    ensures Count(Newline, e) == 0
  {
    if e != [] {
      NonLayoutCount(e[..|e| - 1]);
    }
  }

  /** The tokens of one non-blank line: its INDENT or DEDENTs, the tokens of
      what follows the indentation, and a NEWLINE; with the stack after it. */
  function LineTokens(stack: seq<nat>, line: string, lineNo: int): (r: Result<(seq<Token>, seq<nat>)>)
    requires IndentStack(stack)
    ensures r.Ok? ==> IndentStack(r.value.1)
  {
    var pos := IndentEnd(line, 0);
    var ind :- IndentStep(stack, Width(line[..pos]), lineNo);
    var body :- ScanFrom(line[pos..], 0, lineNo);
    Ok((ind.emitted + body + [Token(Newline, "\\n", lineNo)], ind.stack))
  }

  /** The token stream of lines `i` onwards, line `i` having number `i + 1`:
      blank and comment lines give nothing, every other line its
      `LineTokens`, and the end one DEDENT per open block and EOF, on the
      line past the last. The first failing line's error wins. */
  function TokenizeFrom(lines: seq<string>, i: nat, stack: seq<nat>): Result<seq<Token>>
    requires i <= |lines| && IndentStack(stack)
    decreases |lines| - i
  {
    if i == |lines| then Ok(Dedents(|stack| - 1, i + 1) + [Token(Eof, "", i + 1)])
    else if IsSkipped(lines[i]) then TokenizeFrom(lines, i + 1, stack)
    else
      var next :- LineTokens(stack, lines[i], i + 1);
      Prepend(next.0, TokenizeFrom(lines, i + 1, next.1))
  }

  /** One line of `TokenizeFrom`. */
  lemma {:induction false} TokenizeStep(lines: seq<string>, i: nat, stack: seq<nat>)
    requires i < |lines| && IndentStack(stack)
    ensures TokenizeFrom(lines, i, stack) ==
      (if IsSkipped(lines[i]) then TokenizeFrom(lines, i + 1, stack)
       else match LineTokens(stack, lines[i], i + 1)
         case Ok(next) => Prepend(next.0, TokenizeFrom(lines, i + 1, next.1))
         case Err(m) => Err(m))
  {
  }

  /** A non-blank line lexed after `toks`: its error ends the stream, or its
      tokens join `toks`. */
  lemma {:induction false} TokenizeNext(lines: seq<string>, i: nat, stack: seq<nat>, toks: seq<Token>,
                                        r: Result<(seq<Token>, seq<nat>)>)
    requires i < |lines| && IndentStack(stack) && !IsSkipped(lines[i])
    requires r == (match LineTokens(stack, lines[i], i + 1)
      case Ok(next) => Ok((toks + next.0, next.1))
      case Err(m) => Err(m))
    ensures r.Err? ==> Prepend(toks, TokenizeFrom(lines, i, stack)) == Err(r.message)
    ensures r.Ok? ==>
      IndentStack(r.value.1) &&
      Prepend(toks, TokenizeFrom(lines, i, stack)) == Prepend(r.value.0, TokenizeFrom(lines, i + 1, r.value.1))
  {
    TokenizeStep(lines, i, stack);
    if r.Ok? {
      var next := LineTokens(stack, lines[i], i + 1).value;
      PrependTwice(toks, next.0, TokenizeFrom(lines, i + 1, next.1));
    }
  }

  /** Past the last line, what remains is the closing DEDENTs and EOF. */
  lemma {:induction false} TokenizeEnd(lines: seq<string>, stack: seq<nat>, toks: seq<Token>)
    requires IndentStack(stack)
    ensures Prepend(toks, TokenizeFrom(lines, |lines|, stack)) ==
      Ok(toks + Dedents(|stack| - 1, |lines| + 1) + [Token(Eof, "", |lines| + 1)])
  {
    var closing := Dedents(|stack| - 1, |lines| + 1) + [Token(Eof, "", |lines| + 1)];
    assert toks + Dedents(|stack| - 1, |lines| + 1) + [Token(Eof, "", |lines| + 1)] == toks + closing;
  }

  /** `Tokenize`: the whole token stream, or the first lexing error. The
      stream ends in exactly one EOF, its INDENTs and DEDENTs balance, its
      line numbers never decrease, it has one NEWLINE per non-blank line, and
      its closing tokens carry the line number past the last line. */
  method Tokenize(code: string) returns (r: Result<seq<Token>>)
    ensures r == TokenizeFrom(SplitLines(ReplaceCrLf(code)), 0, [0])
    ensures r.Ok? ==> EndsWithSingleEof(r.value)
    ensures r.Ok? ==> Balanced(r.value)
    ensures r.Ok? ==> LinesNondecreasing(r.value)
    ensures r.Ok? ==> Count(Newline, r.value) == NonBlankCount(SplitLines(ReplaceCrLf(code)))
    ensures r.Ok? ==> r.value[|r.value| - 1].line == |SplitLines(ReplaceCrLf(code))| + 1
  {
    var stack: seq<nat> := [0];
    var lines := SplitLines(ReplaceCrLf(code));
    var toks: seq<Token> := [];
    var lineNo := 1;
    PrependOnto([], TokenizeFrom(lines, 0, [0]));
    for i := 0 to |lines|
      invariant lineNo == i + 1
      invariant StreamSoFar(toks, stack, lineNo)
      invariant Count(Newline, toks) == NonBlankCount(lines[..i])
      invariant TokenizeFrom(lines, 0, [0]) == Prepend(toks, TokenizeFrom(lines, i, stack))
    {
      NonBlankStep(lines, i);
      var line := lines[i];
      if !IsSkipped(line) {
        var next := LexLine(toks, stack, line, lineNo);
        TokenizeNext(lines, i, stack, toks, next);
        if next.Err? {
          return Err(next.message);
        }
        toks, stack := next.value.0, next.value.1;
      } else {
        TokenizeStep(lines, i, stack);
        StreamLater(toks, stack, lineNo);
      }
      lineNo := lineNo + 1;
    }
    assert lines[..|lines|] == lines;
    TokenizeEnd(lines, stack, toks);
    toks := CloseBlocks(toks, stack, lineNo);
    return Ok(toks);
  }

  /** The lexer's constructor: normalise line ends, then `Tokenize`, which
      normalises once more. */
  method Lex(code: string) returns (r: Result<seq<Token>>)
    ensures r == TokenizeFrom(Lines(code), 0, [0])
    ensures r.Ok? ==> EndsWithSingleEof(r.value) && Balanced(r.value) && LinesNondecreasing(r.value)
    ensures r.Ok? ==> Count(Newline, r.value) == NonBlankCount(Lines(code))
    ensures r.Ok? ==> r.value[|r.value| - 1].line == |Lines(code)| + 1
  {
    r := Tokenize(ReplaceCrLf(code));
  }

  /** One non-blank line: its INDENT or DEDENTs, its own tokens and a NEWLINE. */
  method LexLine(toks: seq<Token>, stack: seq<nat>, line: string, lineNo: int)
    returns (r: Result<(seq<Token>, seq<nat>)>)
    requires StreamSoFar(toks, stack, lineNo)
    ensures LineTokens(stack, line, lineNo).Err? ==> r == Err(LineTokens(stack, line, lineNo).message)
    ensures LineTokens(stack, line, lineNo).Ok? ==>
      r == Ok((toks + LineTokens(stack, line, lineNo).value.0, LineTokens(stack, line, lineNo).value.1))
    ensures r.Ok? ==> StreamSoFar(r.value.0, r.value.1, lineNo + 1)
    ensures r.Ok? ==> Count(Newline, r.value.0) == Count(Newline, toks) + 1
  {
    var level, indentPos := MeasureIndent(line);
    var ind := Reindent(stack, level, lineNo);
    if ind.Err? {
      return Err(ind.message);
    }
    var body := ScanLine(line[indentPos..], lineNo);
    if body.Err? {
      return Err(body.message);
    }
    var next := ind.value.emitted + body.value + [Token(Newline, "\\n", lineNo)];
    assert LineTokens(stack, line, lineNo) == Ok((next, ind.value.stack));
    LineTokensKeep(toks, stack, line, lineNo);
    return Ok((toks + next, ind.value.stack));
  }

  /** A line's tokens keep the stream well formed and add one NEWLINE. */
  lemma {:induction false} LineTokensKeep(toks: seq<Token>, stack: seq<nat>, line: string, lineNo: int)
    requires StreamSoFar(toks, stack, lineNo)
    ensures LineTokens(stack, line, lineNo).Ok? ==>
      (var next := LineTokens(stack, line, lineNo).value;
       StreamSoFar(toks + next.0, next.1, lineNo + 1) &&
       Count(Newline, toks + next.0) == Count(Newline, toks) + 1)
  {
    var r := LineTokens(stack, line, lineNo);
    if r.Ok? {
      var pos := IndentEnd(line, 0);
      var level := Width(line[..pos]);
      var ind := IndentStep(stack, level, lineNo).value;
      var body := ScanFrom(line[pos..], 0, lineNo).value;
      var nl := Token(Newline, "\\n", lineNo);
      assert r.value == (ind.emitted + body + [nl], ind.stack);
      if level > Top(stack) {
        assert ind == Indentation(stack + [level], [Token(Indent, "", lineNo)]);
      } else {
        var st := PopTo(stack, level);
        assert ind == Indentation(st, Dedents(|stack| - |st|, lineNo));
      }
      AppendLine(toks, stack, ind, body, lineNo);
      assert toks + ind.emitted + body + [nl] == toks + r.value.0;
    }
  }

  /** End of input: one DEDENT per open block, then EOF. */
  method CloseBlocks(toks: seq<Token>, stack: seq<nat>, lineNo: int) returns (result: seq<Token>)
    requires StreamSoFar(toks, stack, lineNo)
    ensures EndsWithSingleEof(result) && Balanced(result) && LinesNondecreasing(result)
    ensures Count(Newline, result) == Count(Newline, toks)
    ensures result[|result| - 1].line == lineNo
    ensures result == toks + Dedents(|stack| - 1, lineNo) + [Token(Eof, "", lineNo)]
  {
    result := toks;
    var st := stack;
    while |st| > 1
      invariant StreamSoFar(result, st, lineNo)
      invariant |st| <= |stack| && result == toks + Dedents(|stack| - |st|, lineNo)
      invariant Count(Newline, result) == Count(Newline, toks)
      decreases |st|
    {
      var t := Token(Dedent, "", lineNo);
      CloseOne(result, st, t);
      st := st[..|st| - 1];
      result := result + [t];
    }
    var eof := Token(Eof, "", lineNo);
    CloseOne(result, st, eof);
    result := result + [eof];
  }

  /** Appending one closing token (a DEDENT for an open block, or EOF) on the
      current line keeps the stream's invariants. */
  lemma {:induction false} CloseOne(toks: seq<Token>, stack: seq<nat>, t: Token)
    requires |stack| >= 1
    requires StreamSoFar(toks, stack, t.line)
    requires t.kind.Eof? || (t.kind.Dedent? && |stack| > 1)
    ensures t.kind.Dedent? ==> StreamSoFar(toks + [t], stack[..|stack| - 1], t.line)
    ensures Count(Newline, toks + [t]) == Count(Newline, toks)
    ensures Depth(toks + [t]) == Depth(toks) - (if t.kind.Dedent? then 1 else 0)
    ensures NeverBelowZero(toks + [t]) && LinesNondecreasing(toks + [t])
  {
    assert (toks + [t])[..|toks|] == toks;
    AppendOne(toks, t);
  }
}
