# Mini-Python scripting core, modelled in Dafny

The game lets the player write small Python-like scripts that drive the
scene: move a character, ask whether a path is clear, print text, sleep.
This project models the toolchain that runs those scripts and proves
properties of the model:

- **tokens** (`src/tokens.dfy`) are the token kinds and tokens, with their
  operator lexemes and the `Kind(text) on line N` rendering;
- **lexer** (`src/lexer.dfy`) is line-based tokenisation with an indentation
  stack that emits INDENT, DEDENT, NEWLINE and a closing EOF;
- **syntax tree** (`src/ast.dfy`) holds the expression and statement nodes;
- **parser** (`src/parser.dfy`) is the recursive-descent parser, written as
  functions from a token sequence to a node plus the tokens left over;
- **printer** (`src/printer.dfy`) is a reference inverse of the expression
  parser, used to prove that parsing gives back every expression tree;
- **program printer** (`src/program_printer.dfy`) extends it to statements,
  suites and whole programs, so that parsing gives back every statement
  list;
- **values and operators** (`src/values.dfy`, `src/operators.dfy`) cover the
  runtime values, truthiness, comparison, the text of a value, the
  double/Int32 conversions, and the binary, unary, list and `range`
  operations;
- **routines** (`src/routines.dfy`) describe what a Unity coroutine yields, as
  a list of items and an ending;
- **interpreter** (`src/interpreter.dfy`) is the tree-walking interpreter
  class, with its variables, functions, local scopes, `global` declarations
  and a heap of lists;
- **host bridge** (`src/host.dfy`) is the scene's command tables and the
  built-in function bridge that dispatches calls to them;
- **driver** (`src/driver.dfy`) is the coroutine runner `SafeExecute`, which
  flattens nested routines and reports errors;
- **manager** (`src/manager.dfy`) is the global registry of script runners,
  which keeps at most one runner running, together with the runner's
  handlers that call into it (start, stop, error, completion, the Run and
  Reset buttons).

Clocks, frames and real-time waits become effects in a trace. The
scene's commands become opaque handler names. The player's program text
is a parameter.

## Model

| member | source | states |
|---|---|---|
| Tokens.KindsCovered | Scripts/ProgramExec/PythonToken.cs:7-54 | every token kind is layout, a literal, NAME, an operator or a keyword |
| Tokens.LayoutApart | Scripts/ProgramExec/PythonToken.cs:7-54 | a layout kind is in no other group |
| Tokens.LiteralApart | Scripts/ProgramExec/PythonToken.cs:7-54 | a literal kind is in no other group |
| Tokens.OperatorApart | Scripts/ProgramExec/PythonToken.cs:7-54 | an operator kind is neither NAME nor a keyword |
| Tokens.OperatorLexeme | Scripts/ProgramExec/PythonToken.cs:20-38 | the lexeme of an operator kind is spelled back to that kind |
| Tokens.OperatorsHaveLexemes | Scripts/ProgramExec/PythonToken.cs:20-38 | exactly the operator kinds have a lexeme |
| Tokens.OperatorLexemeInjective | Scripts/ProgramExec/PythonToken.cs:20-38 | no two operator kinds share a lexeme |
| Tokens.KindName | Scripts/ProgramExec/PythonToken.cs:69 | the enum name that `ToString` prints holds no parenthesis |
| Tokens.TokenToStringInjective | Scripts/ProgramExec/PythonToken.cs:69 | two tokens that print alike have the same kind name, text and line |
| Text.NatToStringRoundTrip | Scripts/ProgramExec/PythonToken.cs:69 | the decimal text of a line number parses back to that number |
| Text.ParseIntegerRoundTrip | Scripts/ProgramExec/PythonInterpreter.cs:498 | the decimal text of any integer, which `Convert.ToInt32` reads when a string is converted, gives back that integer |
| Text.StripPadded | Scripts/ProgramExec/PythonInterpreter.cs:498 | the white space `Convert.ToInt32` and `Convert.ToDouble` skip is removed at both ends and nothing else: padded text strips back to the bare number text |
| Text.ParseDecimalIntString | Scripts/ProgramExec/PythonInterpreter.cs:308-323 | the decimal text of any integer, as `Convert.ToDouble` reads text, gives back that number |
| Text.ToLower | Scripts/ProgramExec/GameBuiltinMethods.cs:43 | lower-casing keeps the length and maps exactly the capitals A-Z |
| Lexer.ReplaceCrLf | Scripts/ProgramExec/PythonLexer.cs:24 | replacing CR LF by LF never lengthens the text |
| Lexer.ReplaceCrLfNoCarriageReturn | Scripts/ProgramExec/PythonLexer.cs:24 | text without a carriage return is left alone |
| Lexer.ReplaceCrLfOnePassLeavesPair | Scripts/ProgramExec/PythonLexer.cs:24-32 | one pass turns CR CR LF into CR LF; the second replacement in `Tokenize` turns that into LF |
| Lexer.SplitLines | Scripts/ProgramExec/PythonLexer.cs:32 | splitting gives at least one line, and no line holds a LF |
| Lexer.SplitLinesJoin | Scripts/ProgramExec/PythonLexer.cs:32 | joining the lines with LF gives back the text |
| Lexer.WidthCounts | Scripts/ProgramExec/PythonLexer.cs:41-46 | the indentation width counts a space as 1 and a tab as 4 |
| Lexer.MeasureIndent | Scripts/ProgramExec/PythonLexer.cs:41-46 | the loop stops at the first non-space, non-tab character (IndentEnd), and its level is the width of the prefix |
| Lexer.TrimStart | Scripts/ProgramExec/PythonLexer.cs:48 | the result is a suffix, only white space is removed, and it starts with no white space |
| Lexer.TrimEnd | Scripts/ProgramExec/PythonLexer.cs:48 | the result is a prefix, only white space is removed, and it ends with no white space |
| Lexer.SkippedIffCommentOrBlank | Scripts/ProgramExec/PythonLexer.cs:48-54 | a line is skipped iff it is blank or its first visible character is `#` |
| Lexer.Dedents | Scripts/ProgramExec/PythonLexer.cs:62-66 | n DEDENT tokens on the given line |
| Lexer.Reindent | Scripts/ProgramExec/PythonLexer.cs:57-70 | agrees with IndentStep, the step the reference TokenizeFrom takes; a line succeeds iff it is deeper than the top of the stack or its level is on the stack; a deeper line pushes and gives one INDENT; otherwise it pops to the level and gives one DEDENT per level popped; a failure carries the indentation error |
| Lexer.PopDeeper | Scripts/ProgramExec/PythonLexer.cs:62-66 | the pop loop removes exactly the levels deeper than the line (PopTo) and emits that many DEDENTs |
| Lexer.LevelFound | Scripts/ProgramExec/PythonLexer.cs:67-70 | after popping, the level equals the top iff it was on the stack |
| Lexer.NumberEnd | Scripts/ProgramExec/PythonLexer.cs:94-104 | a number runs over the longest stretch of digits and dots |
| Lexer.WordEnd | Scripts/ProgramExec/PythonLexer.cs:131-150 | a word runs over the longest stretch of letters, digits and underscores |
| Lexer.StringEnd | Scripts/ProgramExec/PythonLexer.cs:107-124 | the string scan stops at the closing quote or at the end of the line, skipping escaped characters |
| Lexer.GetKeywordType | Scripts/ProgramExec/PythonLexer.cs:242-262 | a word is a keyword kind or NAME |
| Lexer.WordKind | Scripts/ProgramExec/PythonLexer.cs:131-150 | a word is BOOLEAN, NAME or a keyword |
| Lexer.WordKindClassifies | Scripts/ProgramExec/PythonLexer.cs:131-150 | BOOLEAN iff `True`/`False`; a keyword iff the word is in the keyword list, and then it is that keyword's spelling |
| Lexer.KeywordRoundTrip | Scripts/ProgramExec/PythonLexer.cs:242-262 | every keyword's spelling lexes back to that keyword |
| Lexer.TwoCharKind | Scripts/ProgramExec/PythonLexer.cs:153-171 | a two-character match is an operator spelled by those two characters; `==`, `!=`, `<=` and `>=` always match |
| Lexer.SingleCharKind | Scripts/ProgramExec/PythonLexer.cs:174-223 | a one-character operator is spelled by that character |
| Lexer.ScanStep | Scripts/ProgramExec/PythonLexer.cs:78-226 | one scanning step emits the text it consumed, never a layout kind, and an operator token's text is its lexeme |
| Lexer.NumberStep | Scripts/ProgramExec/PythonLexer.cs:94-104 | a NUMBER token is the maximal run of digits and dots |
| Lexer.StringStep | Scripts/ProgramExec/PythonLexer.cs:107-128 | an unterminated string fails; otherwise the STRING token starts and ends with the same quote |
| Lexer.WordStep | Scripts/ProgramExec/PythonLexer.cs:131-150 | a word token is BOOLEAN, NAME or a keyword and is the text it consumed |
| Lexer.ScanOperator | Scripts/ProgramExec/PythonLexer.cs:153-223 | an operator token's text is its lexeme; it fails iff no operator starts there |
| Lexer.ScanStepNumber | Scripts/ProgramExec/PythonLexer.cs:94-104 | a digit starts a NUMBER token |
| Lexer.ScanStepString | Scripts/ProgramExec/PythonLexer.cs:107-128 | a quote starts a STRING token or an error |
| Lexer.StepNotLiteral | Scripts/ProgramExec/PythonLexer.cs:131-223 | other characters give a word, an operator, or the unexpected-character error |
| Lexer.ScanStepFails | Scripts/ProgramExec/PythonLexer.cs:107-223 | a step fails iff the string is unterminated or the character starts no token |
| Lexer.ScanFrom | Scripts/ProgramExec/PythonLexer.cs:78-226 | the tokens of a line are on that line, are not layout, and have non-empty text |
| Lexer.ScanLine | Scripts/ProgramExec/PythonLexer.cs:78-226 | the scanning loop computes ScanFrom |
| Lexer.ScanToken | Scripts/ProgramExec/PythonLexer.cs:80-223 | one pass of the loop body computes ScanStep |
| Lexer.ScanNumber | Scripts/ProgramExec/PythonLexer.cs:97-100 | the digit loop stops at NumberEnd |
| Lexer.ScanQuoted | Scripts/ProgramExec/PythonLexer.cs:112-122 | the quote loop stops at StringEnd |
| Lexer.ScanWord | Scripts/ProgramExec/PythonLexer.cs:134-137 | the word loop stops at WordEnd |
| Lexer.Tokenize | Scripts/ProgramExec/PythonLexer.cs:28-240 | the token stream is exactly TokenizeFrom over the lines: blank and comment lines give nothing, every other line its LineTokens, the first failing line's error wins, and the end closes the open blocks and adds EOF; on success it ends in one EOF, INDENT/DEDENT balance and never go negative, lines never decrease, there is one NEWLINE per non-blank line, and EOF is on the line after the last |
| Lexer.Lex | Scripts/ProgramExec/PythonLexer.cs:22-26 | the constructor's CR LF replacement followed by Tokenize gives exactly TokenizeFrom over the lines of the text, with Tokenize's guarantees |
| Lexer.LexLine | Scripts/ProgramExec/PythonLexer.cs:36-230 | one non-blank line appends exactly LineTokens (its INDENT or DEDENTs, the tokens after the indentation, a NEWLINE) or fails with its error; the stream stays well formed and gains exactly one NEWLINE |
| Lexer.LineTokensKeep | Scripts/ProgramExec/PythonLexer.cs:56-230 | the tokens of any non-blank line keep the stream well formed and add exactly one NEWLINE |
| Lexer.CloseBlocks | Scripts/ProgramExec/PythonLexer.cs:234-239 | the stream gains one DEDENT per open block and then the EOF, on the line after the last, which balances it without adding a NEWLINE |
| Parser.Expect | Scripts/ProgramExec/PythonParser.cs:32-41 | succeeds iff the next token has the kind, consuming exactly it; otherwise gives the expected-token message |
| Parser.Parse | Scripts/ProgramExec/PythonParser.cs:43-62 | each statement read consumes at least one token; the statements given back are stated by ProgramPrinter.ProgramRoundTrip and ParseSkipsLayout |
| Parser.ParseStatement | Scripts/ProgramExec/PythonParser.cs:64-97 | consumes tokens, the statement is on its first token's line, and NAME followed by `=` is an assignment |
| Parser.ParseExpressionStatement | Scripts/ProgramExec/PythonParser.cs:90-96 | an expression statement on its first token's line |
| Parser.ParseGlobal | Scripts/ProgramExec/PythonParser.cs:100-111 | a global statement names at least one variable |
| Parser.ParseNameList | Scripts/ProgramExec/PythonParser.cs:103-109 | at least one name, and tokens are consumed |
| Parser.ParseAssignment | Scripts/ProgramExec/PythonParser.cs:120-128 | an assignment whose target is the first token's text |
| Parser.ParseSuite | Scripts/ProgramExec/PythonParser.cs:133-140 | a block header and body consume tokens |
| Parser.ParseBlock | Scripts/ProgramExec/PythonParser.cs:137-140 | the statement loop stops at DEDENT or EOF |
| Parser.ParseIf | Scripts/ProgramExec/PythonParser.cs:130-158 | an if statement on the `if` token's line |
| Parser.ParseWhile | Scripts/ProgramExec/PythonParser.cs:160-174 | a while statement on the `while` token's line |
| Parser.ParseFor | Scripts/ProgramExec/PythonParser.cs:176-196 | a for statement on the `for` token's line |
| Parser.ParseFunctionDef | Scripts/ProgramExec/PythonParser.cs:198-224 | a function definition on the `def` token's line |
| Parser.ParseParameters | Scripts/ProgramExec/PythonParser.cs:203-214 | the parameter list consumes tokens |
| Parser.ParseReturn | Scripts/ProgramExec/PythonParser.cs:226-236 | a return statement has no value iff a NEWLINE follows `return` |
| Parser.ParsePass | Scripts/ProgramExec/PythonParser.cs:238-243 | a pass statement on its line |
| Parser.ParseExpression | Scripts/ProgramExec/PythonParser.cs:245-248 | an expression consumes tokens |
| Parser.ParseOr | Scripts/ProgramExec/PythonParser.cs:250-260 | an `or` chain consumes tokens |
| Parser.ParseAnd | Scripts/ProgramExec/PythonParser.cs:262-272 | an `and` chain consumes tokens |
| Parser.ParseNot | Scripts/ProgramExec/PythonParser.cs:274-283 | a `not` expression consumes tokens |
| Parser.ParseCompare | Scripts/ProgramExec/PythonParser.cs:285-297 | a comparison consumes tokens |
| Parser.ParseAddSubtract | Scripts/ProgramExec/PythonParser.cs:299-309 | a sum consumes tokens |
| Parser.ParseTerm | Scripts/ProgramExec/PythonParser.cs:311-321 | a product consumes tokens |
| Parser.ParseFactor | Scripts/ProgramExec/PythonParser.cs:323-388 | a factor consumes tokens |
| Parser.ParseExprList | Scripts/ProgramExec/PythonParser.cs:371-386 | a comma-separated list has at least one element |
| Parser.ParseCallIndexAttribute | Scripts/ProgramExec/PythonParser.cs:390-447 | the postfix chain keeps the line of the node it extends |
| Parser.ParseSubscript | Scripts/ProgramExec/PythonParser.cs:415-440 | a subscript is an index or a slice of the node it follows |
| Parser.ParseOptional | Scripts/ProgramExec/PythonParser.cs:420-432 | a slice bound is absent iff the stop token comes next, and then nothing is consumed |
| Printer.Prec | Scripts/ProgramExec/PythonParser.cs:245-388 | each node has one of the parser's eight precedence levels |
| Printer.EmitExpr | Scripts/ProgramExec/PythonParser.cs:245-447 | a printed expression starts with a token that can start an expression |
| Printer.Emit | Scripts/ProgramExec/PythonParser.cs:245-447 | a printed expression at a level starts with a token that can start an expression |
| Printer.ExpressionRoundTrip | Scripts/ProgramExec/PythonParser.cs:245-447 | parsing the printed tokens of any well-formed expression tree gives that tree back and leaves the following tokens |
| Printer.FactorRound | Scripts/ProgramExec/PythonParser.cs:323-388 | the factor level gives back every printed factor |
| Printer.NumberRound | Scripts/ProgramExec/PythonParser.cs:333-338 | a printed number literal parses back to its value |
| Printer.TextRound | Scripts/ProgramExec/PythonParser.cs:343-351 | a printed string literal parses back, quotes stripped |
| Printer.ListRound | Scripts/ProgramExec/PythonParser.cs:371-386 | a printed element list parses back to the elements |
| Printer.CallRound | Scripts/ProgramExec/PythonParser.cs:398-413 | a printed call parses back |
| Printer.AttributeRound | Scripts/ProgramExec/PythonParser.cs:441-446 | a printed attribute access parses back |
| Printer.IndexRound | Scripts/ProgramExec/PythonParser.cs:415-440 | a printed index parses back |
| Printer.SliceRound | Scripts/ProgramExec/PythonParser.cs:415-440 | a printed slice parses back |
| Printer.EmitNoAssign | Scripts/ProgramExec/PythonParser.cs:86 | the second token of a printed expression is never `=` of its own, so the NAME `=` test never takes an expression statement for an assignment |
| ProgramPrinter.ProgramRoundTrip | Scripts/ProgramExec/PythonParser.cs:43-62 | parsing a printed program followed by EOF gives back every statement, in order |
| ProgramPrinter.ParseSkipsLayout | Scripts/ProgramExec/PythonParser.cs:43-62 | the top-level loop skips NEWLINE and a stray DEDENT, and stops at EOF or at the end of the tokens |
| ProgramPrinter.StmtRoundTrip | Scripts/ProgramExec/PythonParser.cs:64-97 | parsing a printed statement gives it back and leaves exactly the tokens after it, through the dispatch on the first token |
| ProgramPrinter.ExpressionStmtRound | Scripts/ProgramExec/PythonParser.cs:90-96 | an expression and its NEWLINE parse back to that expression statement, on the line of its first token |
| ProgramPrinter.AssignRound | Scripts/ProgramExec/PythonParser.cs:120-128 | NAME `=` expression NEWLINE parses back to the assignment of that expression to that name |
| ProgramPrinter.IfRound | Scripts/ProgramExec/PythonParser.cs:130-158 | `if`, the condition, the suite and an optional `else` suite parse back to that if statement |
| ProgramPrinter.WhileRound | Scripts/ProgramExec/PythonParser.cs:160-174 | `while`, the condition and the suite parse back to that loop |
| ProgramPrinter.ForRound | Scripts/ProgramExec/PythonParser.cs:176-196 | `for` NAME `in`, the iterable and the suite parse back to that loop |
| ProgramPrinter.FunctionDefRound | Scripts/ProgramExec/PythonParser.cs:198-224 | `def` NAME, the parameter list and the suite parse back to that definition |
| ProgramPrinter.ParametersRound | Scripts/ProgramExec/PythonParser.cs:203-214 | an empty or non-empty parameter list and its `)` parse back to exactly those names |
| ProgramPrinter.ReturnRound | Scripts/ProgramExec/PythonParser.cs:226-236 | `return` with or without a value, then NEWLINE, parses back to that return statement |
| ProgramPrinter.GlobalRound | Scripts/ProgramExec/PythonParser.cs:100-111 | `global`, its names and NEWLINE parse back to exactly those names |
| ProgramPrinter.NamesRound | Scripts/ProgramExec/PythonParser.cs:103-109 | a comma-separated name list gives back every name and stops at the first token that is not a comma |
| ProgramPrinter.SuiteRound | Scripts/ProgramExec/PythonParser.cs:133-142 | `:` NEWLINE INDENT, the statements and their DEDENT parse back to the statements |
| ProgramPrinter.BlockRound | Scripts/ProgramExec/PythonParser.cs:137-141 | the statement loop gives back every printed statement and stops at the DEDENT or EOF after them |
| Values.TruthIsNotFalsy | Scripts/ProgramExec/PythonInterpreter.cs:837-846 | a value is true iff it is not null, false, zero, empty text or an empty list |
| Values.IntIsTrue | Scripts/ProgramExec/PythonInterpreter.cs:837-846 | a boxed C# int is always true |
| Values.EqualsIsIdentity | Scripts/ProgramExec/PythonInterpreter.cs:326-329 | `Equals` on values is equality of the modelled values |
| Values.CompareText | Scripts/ProgramExec/PythonInterpreter.cs:848-859 | comparing text gives -1, 0 or 1, and 0 iff equal |
| Values.CompareTextAntisymmetric | Scripts/ProgramExec/PythonInterpreter.cs:848-859 | swapping the operands negates the result |
| Values.CompareTextTransitive | Scripts/ProgramExec/PythonInterpreter.cs:848-859 | the text order is transitive |
| Values.CompareValues | Scripts/ProgramExec/PythonInterpreter.cs:848-859 | defined iff both are numbers or both text; 0 iff equal; for numbers negative iff less |
| Values.CompareValuesAntisymmetric | Scripts/ProgramExec/PythonInterpreter.cs:848-859 | swapping the operands negates the result |
| Values.CompareValuesTransitive | Scripts/ProgramExec/PythonInterpreter.cs:848-859 | the value order is transitive |
| Values.ToText | Scripts/ProgramExec/PythonInterpreter.cs:302-305 | null has no text (`ToString` on null throws); text is itself |
| Values.Display | Scripts/ProgramExec/PythonInterpreter.cs:623 | `print` shows null as `None` and any other value as its text |
| Values.WholeNumberText | Scripts/ProgramExec/PythonInterpreter.cs:623 | a whole double prints like the int of the same value |
| Values.ToDouble | Scripts/ProgramExec/PythonInterpreter.cs:308-323 | fails iff the value is a list, or text that is not a decimal once the white space around it is removed; numbers and ints convert exactly |
| Values.RoundHalfEven | Scripts/ProgramExec/PythonInterpreter.cs:498 | the rounding is within one half, and ties go to the even integer |
| Values.ToInt32 | Scripts/ProgramExec/PythonInterpreter.cs:498 | a double converts iff its rounding fits Int32; text is read as an integer once the white space around it is removed; a list never converts |
| Values.ToInt32Whole | Scripts/ProgramExec/PythonInterpreter.cs:498 | a whole double in range converts to itself |
| Values.ToInt32PaddedText | Scripts/ProgramExec/PythonInterpreter.cs:498 | the text of an Int32 with white space around it converts to that integer (`xs[" 1"]` is `xs[1]`) |
| Values.ToDoublePaddedText | Scripts/ProgramExec/PythonInterpreter.cs:308-323 | the text of an integer with white space around it converts to that number (`1 - " 2"` is -1) |
| Operators.Truncate | Scripts/ProgramExec/PythonInterpreter.cs:323 | truncation toward zero is within one of the value |
| Operators.Arith | Scripts/ProgramExec/PythonInterpreter.cs:308-323 | arithmetic fails only on division or remainder by zero |
| Operators.EvalBinary | Scripts/ProgramExec/PythonInterpreter.cs:298-352 | a binary result is never a list or an int; comparisons and logic give bools |
| Operators.PlusCases | Scripts/ProgramExec/PythonInterpreter.cs:300-312 | `+` concatenates when either side is text, fails on text with null, and adds numbers |
| Operators.EqualityOperators | Scripts/ProgramExec/PythonInterpreter.cs:325-330 | `==` and `!=` are value equality and its negation |
| Operators.OrderingOperators | Scripts/ProgramExec/PythonInterpreter.cs:331-342 | ordering is defined iff both are numbers or both text, and agrees with CompareValues |
| Operators.LogicalOperators | Scripts/ProgramExec/PythonInterpreter.cs:343-348 | `and`/`or` are the conjunction/disjunction of truthiness, without short-circuit |
| Operators.EvalUnary | Scripts/ProgramExec/PythonInterpreter.cs:354-376 | `-` gives a number, `not` always succeeds with a bool |
| Operators.UnaryTwice | Scripts/ProgramExec/PythonInterpreter.cs:354-376 | `not not v` is v's truthiness and `- - n` is n |
| Operators.ListIndex | Scripts/ProgramExec/PythonInterpreter.cs:498-506 | an index is valid iff -count <= i < count, and negative ones count from the end |
| Operators.SliceBound | Scripts/ProgramExec/PythonInterpreter.cs:529-545 | a slice bound is clamped to the list, negative bounds counting from the end |
| Operators.CopySlice | Scripts/ProgramExec/PythonInterpreter.cs:547-551 | the copy is the elements between the bounds, empty when start >= end |
| Operators.IndexOf | Scripts/ProgramExec/PythonInterpreter.cs:424-437 | the first index of a value, or -1 iff absent |
| Operators.RemoveFirst | Scripts/ProgramExec/PythonInterpreter.cs:424-437 | fails iff the value is absent; otherwise the list loses exactly its first copy: the elements before IndexOf, then those after it |
| Operators.PopAt | Scripts/ProgramExec/PythonInterpreter.cs:438-465 | pop succeeds iff the index is valid, giving the element and the rest |
| Operators.AppendThenPop | Scripts/ProgramExec/PythonInterpreter.cs:420-465 | popping after an append gives the appended value and the old list |
| Operators.PopEnds | Scripts/ProgramExec/PythonInterpreter.cs:438-465 | pop(0) takes the head; pop(-1) is pop of the last index |
| Operators.Len | Scripts/ProgramExec/PythonInterpreter.cs:630-641 | `len` of one list or string gives its length, and fails otherwise |
| Operators.RangeElements | Scripts/ProgramExec/PythonInterpreter.cs:643-689 | the k-th element of a range is start + k*step |
| Operators.RangeHalfOpen | Scripts/ProgramExec/PythonInterpreter.cs:643-689 | a range stops before `stop`, in the direction of the step |
| Operators.RangeArguments | Scripts/ProgramExec/PythonInterpreter.cs:643-689 | succeeds iff there are one to three arguments, each converts to Int32, and a third is not 0; the bounds are those conversions, start 0 with one argument and step 1 below three; too many or too few arguments and a zero step fail with the source's messages |
| Operators.BuildRange | Scripts/ProgramExec/PythonInterpreter.cs:672-682 | the range loop builds RangeFrom |
| Operators.SleepSeconds | Scripts/ProgramExec/PythonInterpreter.cs:691-697 | `sleep()` waits 0 seconds, otherwise its argument as a double |
| Operators.JoinDisplayAppend | Scripts/ProgramExec/PythonInterpreter.cs:619-628 | printed arguments are joined by single spaces |
| Operators.PrintLine | Scripts/ProgramExec/PythonInterpreter.cs:619-628 | the output loop builds the space-joined display |
| Host.Put | Scripts/GameControllerBase.cs:119-130 | registering keeps one entry per name and the key order |
| Host.KeyCount | Scripts/GameControllerBase.cs:119-130 | every name of a table occurs once |
| Host.PutKeepsOthers | Scripts/GameControllerBase.cs:119-130 | registering a command changes only the entry of that name |
| Host.Controller.GetAllCommandNames | Scripts/GameControllerBase.cs:58-64 | action names then predicate names, each in registration order |
| Host.Controller.HasCommandIffListed | Scripts/GameControllerBase.cs:111-114 | HasCommand holds iff the name is registered as an action or a predicate, iff GetAllCommandNames lists it |
| Host.Controller.RegisterAction | Scripts/GameControllerBase.cs:119-122 | the action table gains or replaces that entry |
| Host.Controller.RegisterPredicate | Scripts/GameControllerBase.cs:127-130 | the predicate table gains or replaces that entry |
| Host.Controller.SetPredicateResult | Scripts/GameControllerBase.cs:135-138 | the stored result of that predicate is set |
| Host.Controller.ActionRoutine | Scripts/GameControllerBase.cs:69-79 | a registered action runs its handler; an unknown name throws |
| Host.Controller.ExecutePredicateCommand | Scripts/GameControllerBase.cs:84-106 | the result is reset to false, the command runs, and what it reported (or false) is handed on; unknown names throw first |
| Host.Builtins.RegisterGameController | Scripts/ProgramExec/GameBuiltinMethods.cs:24-27 | the scene controller is replaced |
| Host.Builtins.UnregisterGameController | Scripts/ProgramExec/GameBuiltinMethods.cs:30-33 | the scene controller is cleared |
| Host.Builtins.Dispatch | Scripts/ProgramExec/GameBuiltinMethods.cs:44-75 | the legacy names go to the scene only when one is registered; other names go to the scene's tables |
| Host.Builtins.BuiltinIffNamed | Scripts/ProgramExec/GameBuiltinMethods.cs:120-136 | IsBuiltinFunction holds iff the lower-cased name is a legacy name or the scene lists the name among its commands |
| Host.Builtins.SceneDispatch | Scripts/ProgramExec/GameBuiltinMethods.cs:87-117 | the scene looks the name up exactly as written, actions first |
| Host.Builtins.LegacyNameMissing | Scripts/ProgramExec/GameBuiltinMethods.cs:44-117 | a name reaches the scene unfound iff it is a legacy name not registered in that spelling |
| Host.Builtins.HandleSceneCommand | Scripts/ProgramExec/GameBuiltinMethods.cs:79-118 | without a scene the call throws; an action runs the scene's ActionRoutine nested and gives null; a predicate runs its registered handler with the arguments nested and gives the result it reported (false when none); a name the scene lacks throws "not found in scene controller"; the command tables are unchanged |
| Host.Builtins.ExecuteBuiltinFunction | Scripts/ProgramExec/GameBuiltinMethods.cs:41-76 | an unknown name throws "Unknown built-in function", a legacy name without a scene throws "No scene controller registered"; a name handed to the scene nests exactly what HandleSceneCommand gives: the action routine with null, the predicate handler with its reported bool, or the "not found" error with no value; the command tables are unchanged |
| Host.Builtins.GetAllAvailableCommands | Scripts/ProgramExec/GameBuiltinMethods.cs:139-153 | the five legacy names, then the scene's names, duplicates kept |
| Host.Builtins.AvailableAreBuiltins | Scripts/ProgramExec/GameBuiltinMethods.cs:120-153 | the names offered are exactly those the bridge accepts, up to the case of legacy names |
| Host.Builtins.ResetScene | Scripts/ProgramExec/GameBuiltinMethods.cs:156-162 | the scene's reset, or nothing without a scene |
| Host.LegacyNamesAreLower | Scripts/ProgramExec/GameBuiltinMethods.cs:44-75 | the legacy names are already lower case, so lower-casing a call name matches them |
| Interpreter.Subscript | Scripts/ProgramExec/PythonInterpreter.cs:494-506 | indexing succeeds iff the target is a list and the index converts and is in range, and gives that element |
| Interpreter.Interpreter.constructor | Scripts/ProgramExec/PythonInterpreter.cs:21-28 | empty globals, functions, scopes and heap |
| Interpreter.Interpreter.Lookup | Scripts/ProgramExec/PythonInterpreter.cs:793-811 | the innermost local scope first, then the globals |
| Interpreter.Interpreter.Evaluate | Scripts/ProgramExec/PythonInterpreter.cs:242-376 | the reference value of a call-free expression refers only to existing lists |
| Interpreter.Interpreter.SetVariable | Scripts/ProgramExec/PythonInterpreter.cs:814-834 | a name declared global, or any name outside a function, goes to the globals; otherwise to the innermost scope |
| Interpreter.Interpreter.DeclareGlobals | Scripts/ProgramExec/PythonInterpreter.cs:81-88 | the names are added to the innermost global declaration set |
| Interpreter.Interpreter.Resolve | Scripts/ProgramExec/PythonInterpreter.cs:569-720 | `print`, `len`, `range` and `sleep` are intrinsics; then the host's names; then user functions |
| Interpreter.Interpreter.HandleBuiltinFunction | Scripts/ProgramExec/PythonInterpreter.cs:569-723 | the call follows Resolve: an intrinsic does exactly what Intrinsic says; a host name leaves the lists alone and gives null or a bool; a user function gives a value iff its routine ends normally, and nothing without fuel; an unknown name throws and changes nothing |
| Interpreter.Interpreter.CallIntrinsic | Scripts/ProgramExec/PythonInterpreter.cs:619-697 | `print` logs the joined display, `len` is Len, `range` allocates RangeFrom, `sleep` waits SleepSeconds; together, exactly the reference Intrinsic |
| Interpreter.Interpreter.CallUserFunction | Scripts/ProgramExec/PythonInterpreter.cs:707-715 | the call gives a value iff its routine ends normally |
| Interpreter.Interpreter.ExecFunction | Scripts/ProgramExec/PythonInterpreter.cs:729-779 | a wrong argument count throws; the call ends by returning, throwing or halting |
| Interpreter.Interpreter.ExecExpr | Scripts/ProgramExec/PythonInterpreter.cs:242-563 | on a call-free expression: no yields, no state change, and the result agrees with Evaluate |
| Interpreter.Interpreter.EvalBinaryExpr | Scripts/ProgramExec/PythonInterpreter.cs:284-352 | left then right then the operator, agreeing with Evaluate |
| Interpreter.Interpreter.EvalArgs | Scripts/ProgramExec/PythonInterpreter.cs:384-394 | arguments are evaluated left to right; on call-free arguments nothing changes and the values are EvaluateAll's, or its first error is thrown |
| Interpreter.Interpreter.EvalList | Scripts/ProgramExec/PythonInterpreter.cs:269-283 | a list display allocates one new list; on call-free elements it holds exactly their values in order, or the first error is thrown with the heap unchanged |
| Interpreter.Interpreter.EvalUnaryExpr | Scripts/ProgramExec/PythonInterpreter.cs:354-376 | the operand then the operator, agreeing with Evaluate |
| Interpreter.Interpreter.EvalNameCall | Scripts/ProgramExec/PythonInterpreter.cs:380-396 | on call-free arguments, an argument error is thrown with nothing changed; otherwise the call is one nested routine, and for an intrinsic exactly Intrinsic's routine, value and new heap |
| Interpreter.Interpreter.EvalMethodCall | Scripts/ProgramExec/PythonInterpreter.cs:398-476 | a method call gives a value that refers to existing lists |
| Interpreter.Interpreter.ApplyAppendOrRemove | Scripts/ProgramExec/PythonInterpreter.cs:420-437 | append adds at the end; remove drops the first copy or throws when absent; each change bumps the list's version |
| Interpreter.Interpreter.EvalPop | Scripts/ProgramExec/PythonInterpreter.cs:438-465 | pop() and pop(i) with a call-free index: the element PopAt picks is removed and given back and the list's version bumped, or the evaluation, conversion or out-of-range error is thrown with the heap unchanged |
| Interpreter.Interpreter.EvalIndex | Scripts/ProgramExec/PythonInterpreter.cs:482-508 | indexing agrees with Evaluate and Subscript |
| Interpreter.Interpreter.EvalSlice | Scripts/ProgramExec/PythonInterpreter.cs:509-557 | a slice gives a value that refers to existing lists |
| Interpreter.Interpreter.EvalSliceBound | Scripts/ProgramExec/PythonInterpreter.cs:521-545 | an absent bound takes its default; a call-free present bound is SliceBound of its Int32 value, or its evaluation or conversion error is thrown |
| Interpreter.Interpreter.SliceCopy | Scripts/ProgramExec/PythonInterpreter.cs:547-551 | the copy throws iff the end passes the list, and otherwise is a new list of the elements |
| Interpreter.Interpreter.ExecStmt | Scripts/ProgramExec/PythonInterpreter.cs:48-240 | every statement first reports its line |
| Interpreter.Interpreter.ExecAssign | Scripts/ProgramExec/PythonInterpreter.cs:63-74 | a call-free value is evaluated as Evaluate says and stored where Lookup finds it, or its error is thrown with nothing changed |
| Interpreter.Interpreter.ExecIf | Scripts/ProgramExec/PythonInterpreter.cs:91-124 | reports its line; on a call-free condition an error is thrown after the line, and otherwise the branch IsTrue picks runs next, nothing more when it is empty |
| Interpreter.Interpreter.ExecWhile | Scripts/ProgramExec/PythonInterpreter.cs:128-147 | reports its line; without fuel it halts; on a call-free condition an error is thrown, a false condition ends the loop at once, and a true one runs the body next |
| Interpreter.Interpreter.ExecBlock | Scripts/ProgramExec/PythonInterpreter.cs:106-113 | an empty block does nothing; otherwise the first statement's line comes first |
| Interpreter.Interpreter.ExecFor | Scripts/ProgramExec/PythonInterpreter.cs:149-202 | a for statement reports its line first |
| Interpreter.Interpreter.ForList | Scripts/ProgramExec/PythonInterpreter.cs:162-180 | a loop over a list that ends normally leaves the list's version as it was |
| Interpreter.Interpreter.ForString | Scripts/ProgramExec/PythonInterpreter.cs:181-197 | an empty string runs nothing; a loop that ends normally ends with a step |
| Interpreter.Interpreter.Execute | Scripts/ProgramExec/PythonInterpreter.cs:33-45 | an empty program finishes at once; otherwise the first item is the first statement's line, and a run that completes ends with a step |
| Interpreter.EvaluateReadsItsNames | Scripts/ProgramExec/PythonInterpreter.cs:242-376 | two interpreters that agree on the heap and on the names an expression mentions evaluate it alike |
| Driver.SafeExecute | Scripts/ProgramExec/CoroutineRunner.cs:10-48 | the runner's loop produces exactly the trace Flatten specifies |
| Driver.NestingIsTransparent | Scripts/ProgramExec/CoroutineRunner.cs:22-27 | a nested routine that ends normally is spliced in place |
| Driver.FlattenAppend | Scripts/ProgramExec/CoroutineRunner.cs:10-48 | running two item lists one after the other concatenates their traces |
| Driver.NestedErrorIsContained | Scripts/ProgramExec/CoroutineRunner.cs:29-33 | an error in a nested routine is reported and the outer routine goes on |
| Driver.NeverCompletes | Scripts/ProgramExec/CoroutineRunner.cs:10-48 | no trace ever contains the completion callback |
| Driver.ErrorThenMore | Scripts/ProgramExec/CoroutineRunner.cs:29-33 | a reported error is followed by more of the script's effects |
| Driver.AbortQuiet | Scripts/ProgramExec/CoroutineRunner.cs:10-48 | the corrected run's body contains no terminal effect |
| Driver.OneTerminal | Scripts/ProgramExec/CoroutineRunner.cs:10-48 | the corrected run ends with exactly one terminal effect, and it is completion iff nothing failed |
| Driver.FixedStopsAtError | Scripts/ProgramExec/CoroutineRunner.cs:29-33 | in the corrected run, a nested error ends the script |
| Driver.FixedAgreesWithoutErrors | Scripts/ProgramExec/CoroutineRunner.cs:10-48 | without errors, the corrected run is the original trace plus completion |
| Driver.SafeExecuteFixed | Scripts/ProgramExec/CoroutineRunner.cs:10-48 | the corrected runner produces RunFixed |
| Driver.Drive | Scripts/ProgramExec/CoroutineRunner.cs:10-48 | the corrected loop produces Abort's effects and ending |
| Manager.Runner.constructor | Scripts/ProgramExec/ScriptRunner.cs:50-53 | a new runner shows Reset and is not executing |
| Manager.ScriptManager.constructor | Scripts/GlobalScriptManager.cs:14-23 | empty registry and no current runner |
| Manager.ScriptManager.RegisterRunner | Scripts/GlobalScriptManager.cs:28-31 | the runner is added, and exclusivity is kept |
| Manager.ScriptManager.UnregisterRunner | Scripts/GlobalScriptManager.cs:36-43 | the runner is removed, and the current one is cleared only if it is that runner |
| Manager.ScriptManager.StopAllRunners | Scripts/GlobalScriptManager.cs:130-133 | raises the stop event once: every subscribed runner stops executing, and the current runner, if it was executing and subscribed, reports the stop and is cleared and Reset; no other state changes, and exclusivity is kept |
| Manager.ScriptManager.StartRunner | Scripts/GlobalScriptManager.cs:50-73 | the runner becomes current and Running, every other registered runner Reset, and no subscribed runner is executing |
| Manager.ScriptManager.ResetAllRunners | Scripts/GlobalScriptManager.cs:79-92 | no current runner, every registered runner Reset, and no subscribed runner executing |
| Manager.ScriptManager.OnScriptError | Scripts/GlobalScriptManager.cs:98-105 | the current runner is cleared and Reset; any other runner is ignored |
| Manager.ScriptManager.OnScriptComplete | Scripts/GlobalScriptManager.cs:110-117 | the same as OnScriptError |
| Manager.ScriptManager.Cleanup | Scripts/GlobalScriptManager.cs:158-162 | the registry is emptied and no runner is current; the stop event keeps its subscribers |
| Manager.Runner.Start | Scripts/ProgramExec/ScriptRunner.cs:58-88 | the runner is registered and subscribed to the stop event, and shows Reset |
| Manager.Runner.OnDestroy | Scripts/ProgramExec/ScriptRunner.cs:92-103 | the runner is unregistered and unsubscribed; it stops being current |
| Manager.Runner.ReportError | Scripts/ProgramExec/ScriptRunner.cs:258-275 | execution is over, and the runner is cleared and Reset iff it was the current one |
| Manager.Runner.OnExecutionComplete | Scripts/ProgramExec/ScriptRunner.cs:242-255 | execution is over, and the runner is cleared and Reset iff it was the current one |
| Manager.Runner.StopExecution | Scripts/ProgramExec/ScriptRunner.cs:278-292 | only an executing runner reacts: it stops, and if it is current it is cleared and Reset through OnScriptError |
| Manager.Runner.RunScript | Scripts/ProgramExec/ScriptRunner.cs:162-198 | an executing runner ignores the call; a script that parses starts executing; one that does not is reported, clearing and resetting the runner if it is current |
| Manager.Runner.OnRunButtonPressed | Scripts/ProgramExec/ScriptRunner.cs:126-133 | a subscribed runner ends current, Running and executing when its script parses, and Reset with nothing current when it does not; every other registered runner is Reset and no other subscriber executes |
| Manager.Runner.OnResetButtonPressed | Scripts/ProgramExec/ScriptRunner.cs:136-159 | nothing is current, every registered runner is Reset, and no subscribed runner executes |
| Manager.ScriptManager.AddStopListener | Scripts/ProgramExec/ScriptRunner.cs:67 | the runner's handler joins the stop event's subscribers |
| Manager.ScriptManager.RemoveStopListener | Scripts/ProgramExec/ScriptRunner.cs:96 | the runner's handler leaves the stop event's subscribers |
| Manager.IdleMeansAllReset | Scripts/GlobalScriptManager.cs:150-153 | IsAnyScriptRunning is whether a runner is current; while it is false, every registered runner shows Reset |

## Left out

- Numbers are exact reals, not IEEE doubles: rounding, infinities, NaN and the formatting of fractional doubles are not modelled; whole numbers print as integers.
- Text to number conversion (`double.Parse` and `Convert.ToDouble` on text) accepts fixed-point decimals only, without exponents, signs inside, or culture-specific separators; `Convert.ToInt32` on text accepts an optional sign and digits. Both skip the white space U+0009 to U+000D and U+0020 around the number, as `NumberStyles.Float` and `NumberStyles.Integer` do.
- `char.IsDigit` and `char.IsLetter` are restricted to ASCII; the .NET ones accept every Unicode digit and letter. `char.IsWhiteSpace` is the full Unicode set.
- A character is a Unicode scalar value, where a C# string holds UTF-16 code units: text outside the Basic Multilingual Plane has a different length, and indexing, slicing and `for` over a string step over it differently.
- Text.ToLower: maps only A-Z; the culture-dependent lower-casing of other letters is not modelled (the legacy command names it is compared with are ASCII).
- Operators.Arith: division and remainder by zero report an error, where C# goes on with an infinity or NaN. At top level that error ends the run; inside a called function the call gives no value, the caller reads null and goes on (Driver.NestedErrorIsContained).
- Printer.ExpressionRoundTrip: covers trees whose number literals are whole and non-negative, since the printer writes a literal as an integer; fractional literals such as `0.5`, which the parser reads, are not covered.
- Printer.NumberRound: a whole, non-negative literal only, for the same reason.
- String ordering is ordinal code-unit order; the source's `string.Compare` is culture-sensitive.
- `range` computes its elements as unbounded integers; the Int32 arithmetic of the loop counter and its overflow are not modelled.
- The bodies of the scene's commands are opaque: a host call is an item naming its handler. Whether a predicate reported a result is a parameter of the run.
- ExampleSceneController and the concrete commands it registers are not part of this model.
- `while` iterations and user function calls consume a fuel parameter. A run that exhausts it ends `OutOfFuel`, so programs that do not terminate are cut off rather than modelled.
- Exception texts the .NET runtime writes itself (index out of range, null reference, invalid cast) are modelled as the error path with a fixed message, not their exact wording.
- GetCurrentController and GetCurrentRunningScript are trivial field reads.
- ClearConsole is a no-op and OnClearConsole is never raised, so neither is modelled.
- CoroutineRunner.Wait is never called by the core.
- The "Unknown statement" log branch of ExecStmt cannot be reached with the modelled syntax tree.
- ScriptRunner (buttons, highlighting, the text editor) and ConsoleManager are presentation. They appear only as the callbacks the driver and the manager invoke.
- ExecutionTracker's line highlighting is modelled as the `Line` item each statement yields.
- Frames and real-time waits are effects in a trace (`Frame`, `Realtime`, `Slept`); no clock is modelled. The step delay is compared as an exact real.
- A runner's coroutines, its error log and console lines, its highlighting and the scene reset before a run are not modelled; `StopExecution` is modelled by its effect on the runner's flags and on the manager. Whether the script lexes and parses is a parameter of `RunScript`.
- The lexer's unterminated-string case follows the code, not the documented behaviour: the closing `Substring` goes past the line and throws, which the model gives as a lexing error with .NET's message.
- The wait loop around a predicate's result cannot run more than once, because the result is stored before the loop is reached. The model treats it as the single read it performs.
- Interpreter.Interpreter.ExecExpr: the value is stated only for call-free expressions (through Evaluate); for calls only the frame and the fact that the result refers to existing lists are stated.
- Interpreter.Interpreter.EvalMethodCall: states the frame and that the result refers to existing lists; the individual list methods are stated by ApplyAppendOrRemove, EvalPop and the Operators lemmas.
- Interpreter.Interpreter.EvalSlice: states the frame and that the result refers to existing lists; the slice arithmetic is stated by SliceBound, CopySlice and SliceCopy.
- Interpreter.Interpreter.ExecFunction: states the argument-count error, the frame and the kind of ending, not the returned value.
- Interpreter.Interpreter.ExecWhile: the first test of a call-free condition is stated; the iterations after the first body are stated only by the frame.
- Interpreter.Interpreter.ExecFor: states the frame and that the line is reported first; ForList adds that a loop ending normally leaves the list unmodified.
- Interpreter.Interpreter.ForString: states the frame, that an empty string runs nothing and that a normal end comes after a step; that the body runs once per character with the variable bound to it is not stated.
- Interpreter.Interpreter.ExecIf: which branch runs is stated for call-free conditions; with a call in the condition only the frame and the line are stated.
- Interpreter.Interpreter.HandleBuiltinFunction: for a host name it states that the lists are unchanged and the value is null or a bool; that the call is exactly the bridge's ExecuteBuiltinFunction is stated on Host.Builtins.ExecuteBuiltinFunction, not repeated here.
- Interpreter.Interpreter.EvalNameCall: the result is stated for call-free arguments; with a call inside, only the frame and the kinds of ending are stated.
- Interpreter.Interpreter.EvalList: the result is stated for call-free elements; with a call inside, only the frame and the kinds of ending are stated.
- Interpreter.Interpreter.EvalPop: the result is stated for call-free indices; with a call inside, only the frame and the kinds of ending are stated.
- Interpreter.Interpreter.EvalSliceBound: the result is stated for call-free bounds; with a call inside, only the frame and the kinds of ending are stated.
- Parser.Parse: its own contract states only that each statement consumes at least one token; that it skips layout tokens and stops at EOF is stated by ProgramPrinter.ParseSkipsLayout, and that it gives back every printed program by ProgramPrinter.ProgramRoundTrip.
- Parser.ParseStatement: its own contract states what it consumes and the kind and line of its result; the tree it builds from printed tokens is stated by ProgramPrinter.StmtRoundTrip.
- Parser.ParseExpressionStatement: its own contract states what it consumes and the kind and line of its result; the tree it builds from printed tokens is stated by ProgramPrinter.ExpressionStmtRound.
- Parser.ParseGlobal: its own contract states what it consumes and the kind and line of its result; the tree it builds from printed tokens is stated by ProgramPrinter.GlobalRound.
- Parser.ParseNameList: its own contract states what it consumes and that at least one name is read; the tree it builds from printed tokens is stated by ProgramPrinter.NamesRound.
- Parser.ParseAssignment: its own contract states what it consumes and the kind and line of its result; the tree it builds from printed tokens is stated by ProgramPrinter.AssignRound.
- Parser.ParseSuite: its own contract states only what it consumes; the tree it builds from printed tokens is stated by ProgramPrinter.SuiteRound.
- Parser.ParseBlock: its own contract states what it consumes and that it stops at a DEDENT or EOF; the tree it builds from printed tokens is stated by ProgramPrinter.BlockRound.
- Parser.ParseIf: its own contract states what it consumes and the kind and line of its result; the tree it builds from printed tokens is stated by ProgramPrinter.IfRound.
- Parser.ParseWhile: its own contract states what it consumes and the kind and line of its result; the tree it builds from printed tokens is stated by ProgramPrinter.WhileRound.
- Parser.ParseFor: its own contract states what it consumes and the kind and line of its result; the tree it builds from printed tokens is stated by ProgramPrinter.ForRound.
- Parser.ParseFunctionDef: its own contract states what it consumes and the kind and line of its result; the tree it builds from printed tokens is stated by ProgramPrinter.FunctionDefRound.
- Parser.ParseParameters: its own contract states only what it consumes; the tree it builds from printed tokens is stated by ProgramPrinter.ParametersRound.
- ProgramPrinter.StmtRoundTrip: a printed statement is followed by a token other than `else`, as in every printed program; an `if` directly followed by a stray `else` would take it as its else branch.

## Findings

| source | as written | input that shows it | evidently intended | confidence | as-written member | corrected member |
|---|---|---|---|---|---|---|
| Scripts/ProgramExec/CoroutineRunner.cs:10-48 | `SafeExecute` never calls `onComplete`, so after a successful run the runner stays current and Running, and the manager never hears that the script ended | any routine, e.g. `Routine([Log("hi")], Exhausted)` | exactly one terminal callback per run: completion when nothing failed, otherwise the error | not executed | Driver.NeverCompletes | Driver.OneTerminal |
| Scripts/ProgramExec/CoroutineRunner.cs:29-33 | an error inside a nested routine (a called function) is reported through `onError` and the outer script carries on, so one run can report errors several times | `Routine([Nested(Routine([], Threw("x"))), Log("after")], Exhausted)`, e.g. a function that reads an undefined name, called before a `print` | the first error ends the whole script | not executed | Driver.ErrorThenMore | Driver.FixedStopsAtError |
