# gfxl compiler core, modelled in Dafny

gfxl is a small compiler written in C++. Its source holds two independent
pipelines, and both are modelled here.

- **The main pipeline** lexes a source text into tokens (`Lexer.cpp`) and
  builds a program tree with a Pratt parser (`Parser.cpp`). It checks
  variables and operand types against a chain of scoped symbol tables
  (`symbol_table.h`, `semantic_analyzer.h`). It then emits Intel-syntax
  x86-64 assembly for a stack machine (`Codegen.cpp`).
- **The tiny pipeline** handles a language whose only program is
  `print "text";`. It has its own lexer (`lexer.cpp`) and a
  recursive-descent parser (`parser.cpp`).

Each stateful C++ class is a Dafny `class` whose fields hold the state the
source keeps; where a field is of a type outside the core (the parser's
`lexer_`, the generator's output stream) it is replaced by plain data, as
listed under "Left out". Its methods are proved equal to pure functions on
an abstract state. The
properties the code promises are proved as lemmas about those functions.
The model follows the code as written, quirks included:

- ASSIGN is an infix operator that binds tighter than `*`.
- The integer-literal rule moves one token too far. As a result `x = 1 + 2;`
  parses as `x = 1`, and `parseProgram` then never reaches the end of the
  file.
- A boolean operand makes a binary expression ILLEGAL without any error.
- The tiny lexer drops every word other than `print`.

Modules:

| file | module | models |
|---|---|---|
| `wrappers.dfy` | `Wrappers` | `Option`, for null pointers |
| `tokens.dfy` | `Tokens` | `TokenType` and `Token` of the main pipeline |
| `ast.dfy` | `Ast` | the expression and statement nodes and `Program` |
| `lexer.dfy` | `Lexing` | `Lexer.cpp`: `Scan` says what one `nextToken` call does; class `Lexer` |
| `parser.dfy` | `Parsing` | `Parser.cpp`: parsing functions on a parser state `PState` |
| `parser_class.dfy` | `PrattParser` | `Parser.cpp`: class `Parser`, proved against `Parsing` |
| `symbol_table.dfy` | `Symbols` | `symbol_table.h`: `Lookup`, `DefineInScopes`, class `SymbolTable` |
| `semantic_analyzer.dfy` | `Semantics` | `semantic_analyzer.h`: `AnalyzeExpr`, `AnalyzeStmt(s)`, class `SemanticAnalyzer` |
| `codegen.dfy` | `CodeGen` | `Codegen.cpp`: `GenExpr`, `GenStmt(s)`, the stack discipline, class `CodeGenerator` |
| `tiny_lexer.dfy` | `TinyLexing` | `lexer.cpp`: `ScanOne`, `ScanRest`, `Scanned`, class `Lexer` |
| `tiny_parser.dfy` | `TinyParsing` | `parser.cpp`: class `Parser` and acceptance |

## Model

| member | source | states |
|---|---|---|
| Lexing.IsLetter | src/Lexer.cpp:125-127 | definition of `isLetter`: an ASCII letter or `_` |
| Lexing.IsDigit | src/Lexer.cpp:129-131 | definition of `isDigit`: a character from `0` to `9` |
| Lexing.IsSpace | src/Lexer.cpp:119-123 | definition of the `std::isspace` test of `skipWhitespace`: space, tab, newline, vertical tab, form feed or carriage return |
| Lexing.Punctuation | src/Lexer.cpp:33-57 | definition of the one-character cases of the `switch` in `nextToken`: the kind for each of `= + - * / ; ( )`, none for any other character |
| Lexing.SkipSpace | src/Lexer.cpp:119-123 | the position reached is the first at or after the start that is not whitespace, and everything skipped is whitespace |
| Lexing.IdentEnd | src/Lexer.cpp:82-89 | the identifier run ends at the first character that is not a letter, digit or `_`, and contains only such characters |
| Lexing.NumberEnd | src/Lexer.cpp:111-117 | the number run ends at the first non-digit and contains only digits |
| Lexing.Scan | src/Lexer.cpp:28-80 | one `nextToken` always consumes input and yields a kind the lexer can produce; the literal holds no whitespace; the result is END_OF_FILE exactly when the first character after the skipped whitespace is NUL (reading past the end gives NUL), and then the literal is empty |
| Lexing.PunctuationIsOneCharacter | src/Lexer.cpp:33-57 | each of `= + - * / ; ( )` is a one-character token of its own kind |
| Lexing.EndOfFileIsSticky | src/Lexer.cpp:58-60 | at the end of input the result is EOF with an empty literal, and so is the next result |
| Lexing.ExhaustedScansAreAllEof | src/Lexer.cpp:58-60 | any number of further calls at the end of input all yield EOF |
| Lexing.IdentifierIsMaximalRun | src/Lexer.cpp:62-66 | an identifier literal is the maximal run of letters, digits and `_` starting with a letter or `_` |
| Lexing.NumberIsMaximalRun | src/Lexer.cpp:67-71 | an integer literal is the maximal non-empty run of digits |
| Lexing.OtherCharacterIsIllegal | src/Lexer.cpp:72-78 | any other character yields ILLEGAL with that character as its literal, and is consumed |
| Lexing.KeywordsAreIdentifiers | src/Lexer.cpp:61-66 | `print` and `true` lex as identifiers, because the lexer has no keyword table |
| Lexing.PrintIsIdentifier | src/Lexer.cpp:61-66 | `print` scans as one IDENTIFIER token `print`, ending at index 5 |
| Lexing.TrueIsIdentifier | src/Lexer.cpp:61-66 | ` true;` scans, after the blank, as the IDENTIFIER `true` ending before `;` |
| Lexing.Lexer.constructor | src/Lexer.cpp:23-26 | the lexer starts at position 0 with `ch` loaded |
| Lexing.Lexer.ReadChar | src/Lexer.cpp:91-100 | `ch` becomes the character at the read position, NUL past the end, and both positions advance by one |
| Lexing.Lexer.SkipWhitespace | src/Lexer.cpp:119-123 | the position becomes `SkipSpace` of the old position |
| Lexing.Lexer.ReadIdentifier | src/Lexer.cpp:82-89 | returns the input slice up to `IdentEnd` and stops there |
| Lexing.Lexer.ReadNumber | src/Lexer.cpp:111-117 | returns the input slice up to `NumberEnd` and stops there |
| Lexing.Lexer.NextToken | src/Lexer.cpp:28-80 | the token and the new position are exactly `Scan` of the old position |
| Tokens.IsComment | src/Parser.cpp:53-55 | definition of `isCommentToken`: exactly the two comment kinds |
| Parsing.PrecedenceOf | src/Parser.cpp:10-16 | definition of a lookup in the `precedences` map with LOWEST for a kind it lacks, as `peekPrecedence` and `currentPrecedence` do (src/Parser.cpp:199-213); the values are stated by Parsing.PrecedenceTable |
| Parsing.HasPrefixRule | src/Parser.cpp:347-353 | definition: the kinds `setupParseFunctions` registers with `registerPrefix` |
| Parsing.HasInfixRule | src/Parser.cpp:355-359 | definition: the kinds `setupParseFunctions` registers with `registerInfix` |
| Parsing.Pull | src/Parser.cpp:66 | definition of one `lexer_.nextToken()` call: the first remaining token and the rest, END_OF_FILE once none is left |
| Parsing.ExpectPeek | src/Parser.cpp:81-90 | definition of `expectPeek`: advance when peek has the kind, else add one mismatch error; both outcomes are stated by Parsing.ExpectPeekEffect |
| Parsing.DecimalValue | src/Parser.cpp:279-280 | definition of `strtol` in base 10 on the literal's leading decimal digits: their value, read most significant first into the accumulator |
| Parsing.ParseIntegerLiteral | src/Parser.cpp:273-286 | definition of `parseIntegerLiteral`: the literal's decimal value, typed with the token's kind, then one `nextToken` |
| Parsing.ParseIdentifier | src/Parser.cpp:303-305 | definition of `parseIdentifier`: an identifier node with the token's name, untyped, moving no token |
| Parsing.ParseBooleanLiteral | src/Parser.cpp:155-161 | definition of `parseBooleanLiteral`: true exactly for TRUE, typed BOOL, then one `nextToken` |
| Parsing.ParseStringLiteral | src/Parser.cpp:288-293 | definition of `parseStringLiteral`: the token's literal, typed STRING, then one `nextToken` |
| Parsing.ParseCharLiteral | src/Parser.cpp:295-301 | definition of `parseCharLiteral`: the literal's first character, NUL when it is empty, typed CHAR, then one `nextToken` |
| Parsing.ParseExpressionStatement | src/Parser.cpp:186-197 | definition of `parseExpressionStatement`: an expression at LOWEST, then an optional `;`; nothing when the expression fails |
| Parsing.ParsePrintStatement | src/Parser.cpp:256-271 | definition of `parsePrintStatement`: one `nextToken` past PRINT, an expression at LOWEST, an optional `;`; nothing when the expression fails |
| Parsing.ParseAssignmentStatement | src/Parser.cpp:163-184 | definition of `parseAssignmentStatement`: the current identifier's name, an expected `=`, one `nextToken`, an expression at LOWEST and an optional `;`; nothing when `=` is missing or the expression fails |
| Parsing.ParseStatement | src/Parser.cpp:139-153 | definition of `parseStatement`; the dispatch it makes is stated by Parsing.StatementDispatch |
| Parsing.ParseTopLevelNode | src/Parser.cpp:124-136 | definition of `parseTopLevelNode`: a comment token becomes a comment node without moving, anything else is parsed as a statement |
| Parsing.PrecedenceTable | src/Parser.cpp:10-16 | ASSIGN 4, `*` and `/` 3, `+` and `-` 2, everything else LOWEST; a kind binds above LOWEST exactly when it has an infix rule (from the table at src/Parser.cpp:346-360) |
| Parsing.PullNonComment | src/Parser.cpp:63-71 | the token pulled to refill peek is never a comment; every pull consumes a token; an exhausted lexer yields EOF |
| Parsing.NextToken | src/Parser.cpp:63-71 | the old peek becomes current, the new peek is no comment, errors are unchanged, and the remaining input shrinks unless current was EOF |
| Parsing.PullSkipsOnlyComments | src/Parser.cpp:63-71 | the refill of peek skips some number `k` of tokens, every one a comment, and delivers the token after them, which is no comment, with the rest of the input after it; when only comments were left it delivers END_OF_FILE and the input is used up |
| Parsing.NextTokenSkipsOnlyComments | src/Parser.cpp:63-71 | `nextToken` in full: the old peek becomes current, errors are unchanged, and the new peek is the first token after `k` skipped comments (the input after it is what remains), or END_OF_FILE when only comments were left |
| Parsing.ExpectPeekEffect | src/Parser.cpp:81-90 | proof step, one unfolding of `expectPeek`: on a match, exactly one token is advanced; otherwise exactly one mismatch error is added and nothing moves |
| Parsing.Init | src/Parser.cpp:18-25 | after construction there are no errors, and neither lookahead token is a comment |
| Parsing.ParseExpression | src/Parser.cpp:215-253 | errors only grow and input is never un-consumed; a parsed expression stops before `;` or before an operator that does not bind tighter than `prec` |
| Parsing.InfixLoop | src/Parser.cpp:233-252 | the same guarantees for the infix loop alone |
| Parsing.ParsePrefix | src/Parser.cpp:216-228 | errors only grow and input is never un-consumed |
| Parsing.ParseGroupedExpression | src/Parser.cpp:307-321 | errors only grow and input is never un-consumed |
| Parsing.ParseInfixExpression | src/Parser.cpp:323-336 | errors only grow and at least one token is consumed |
| Parsing.SkipOptionalSemicolon | src/Parser.cpp:179-181 | a `;` peek is consumed with errors unchanged; otherwise nothing changes |
| Parsing.ProgramLoop | src/Parser.cpp:93-119 | statements are only appended, and the loop reports finished exactly when current is EOF |
| Parsing.ProgramLoopStep | src/Parser.cpp:97-117 | proof step, one unfolding of the `parseProgram` loop: parse a top-level node, keep it only when it is a statement, continue from the new state |
| Parsing.ProgramLoopDone | src/Parser.cpp:97 | proof step, one unfolding of the `parseProgram` loop at its exit: at END_OF_FILE the statements collected so far come back, and finishing is reported exactly then |
| Parsing.NextTokenShifts | src/Parser.cpp:63-71 | proof step, one unfolding of `nextToken`: with a non-comment token next, peek moves to current and that token to peek, errors unchanged |
| Parsing.InitShifts | src/Parser.cpp:18-25 | the constructor on a list starting with two non-comments: current and peek are those two, no errors |
| Parsing.IntegerOperand | src/Parser.cpp:273-286 | proof step, one unfolding of `parseExpression` on an integer: the literal is parsed to its decimal value, typed INT, and the infix loop starts one token later |
| Parsing.LoopStops | src/Parser.cpp:233 | proof step, one unfolding of the infix loop: at `;` or an operator that binds no tighter than the precedence, the loop returns its operand without moving |
| Parsing.LoopFolds | src/Parser.cpp:233-251 | proof step, one unfolding of the infix loop: an operator that binds tighter is consumed and its right side, parsed at its own precedence, is folded into a binary node |
| Parsing.NoPrefixRuleIsOneError | src/Parser.cpp:222-226 | a kind with no prefix rule adds exactly one error, yields nothing and moves no token |
| Parsing.StatementDispatch | src/Parser.cpp:139-153 | proof step, one unfolding of `parseStatement`: PRINT gives a print statement; IDENTIFIER before ASSIGN gives an assignment to that name; anything else gives an expression statement |
| Parsing.GroupedExpressionCases | src/Parser.cpp:307-321 | `parseGroupedExpression` in all three cases: with no inner expression nothing more is added; an inner expression followed by `)` is the result, with `)` current; otherwise exactly one "expected `)`" error naming the peek token is added and nothing is returned |
| Parsing.OperandThenLoop | src/Parser.cpp:215-233 | proof step, one unfolding of `parseExpression`: after a prefix rule yields an operand, the infix loop runs from where that rule stopped |
| Parsing.OperandAtEnd | src/Parser.cpp:215-253 | an operand followed by `;` or a token with no infix rule is the whole expression, at every precedence |
| Parsing.IdentifierIsOperand | src/Parser.cpp:303-305 | proof step, one unfolding of `parseIdentifier`: an identifier is an operand that moves no token |
| Parsing.GroupIsOperand | src/Parser.cpp:307-321 | a parenthesised expression closed by `)` is an operand whose value is the inner expression, with `)` current afterwards |
| Parsing.OneOperator | src/Parser.cpp:233-252 | an operand, one operator binding tighter than the precedence, and a right side that ends the expression give the single node `x op y` |
| Parsing.TighterOperatorGroupsRight | src/Parser.cpp:233-252 | for any three operands, when the second operator binds tighter than the first, `x op1 y op2 z` groups as `x op1 (y op2 z)` |
| Parsing.NoTighterOperatorGroupsLeft | src/Parser.cpp:233-252 | for any three operands, when the second operator binds no tighter than the first, `x op1 y op2 z` groups as `(x op1 y) op2 z` |
| Parsing.TwoOperatorsGroup | src/Parser.cpp:233-252 | for any three operands, the grouping is to the right exactly when the second operator binds tighter, to the left otherwise |
| Parsing.ShiftAt | src/Parser.cpp:63-71 | proof step, `nextToken` with a non-comment next: peek moves to current and the next token to peek |
| Parsing.TwoShiftsAt | src/Parser.cpp:63-71 | two `nextToken` calls past two non-comments, from an operand over an operator to the next operand |
| Parsing.ChainStates | src/Parser.cpp:18-25 | on `x op1 y op2 z ;` the constructor leaves `x` current, and each two tokens on is the next identifier |
| Parsing.ChainGroups | src/Parser.cpp:233-252 | `x op1 y op2 z ;` for any identifiers and infix operators parses to the right-grouped tree exactly when `op2` binds tighter, else to the left-grouped one |
| Parsing.GroupedFirstStates | src/Parser.cpp:307-321 | on `( x ) op1 y op2 z ;`, the group is an operand with `)` current and `op1` as peek |
| Parsing.GroupedFirstOperand | src/Parser.cpp:233-252 | `( x ) op1 y op2 z ;` groups exactly as `x op1 y op2 z ;` does |
| Parsing.GroupedMiddleStates | src/Parser.cpp:18-25 | on `x op1 ( y ) op2 z ;` the constructor leaves `x` current, and two tokens on `(` is current |
| Parsing.GroupedMiddleInner | src/Parser.cpp:307-321 | the `( y )` of `x op1 ( y ) op2 z ;` is an operand with `)` current and `op2` as peek |
| Parsing.GroupedMiddleOperand | src/Parser.cpp:233-252 | `x op1 ( y ) op2 z ;` groups exactly as `x op1 y op2 z ;` does |
| Parsing.GroupedPairInner | src/Parser.cpp:307-313 | inside `( x op1 y ) op2 z ;` the expression is the node `x op1 y`, stopped by `)` |
| Parsing.GroupedPairStates | src/Parser.cpp:307-321 | on `( x op1 y ) op2 z ;`, from the `(`, the group is an operand whose value is `x op1 y`, with `)` current and `op2` as peek |
| Parsing.GroupOverridesPrecedence | src/Parser.cpp:307-321 | `( x op1 y ) op2 z ;` groups as `(x op1 y) op2 z` for every pair of infix operators, whatever their precedences |
| Parsing.ProductBindsTighterThanSum | src/Parser.cpp:233-252 | `a + b * c;`, for any identifiers, groups as `a + (b * c)` |
| Parsing.AssignBindsTighterThanProduct | src/Parser.cpp:10-16 | `a * b = c;` groups as `a * (b = c)`: ASSIGN is an infix operator that binds tightest |
| Parsing.SumAssociatesLeft | src/Parser.cpp:233-252 | `a - b - c;` groups as `(a - b) - c` |
| Parsing.GroupedOperandBeforeSum | src/Parser.cpp:307-321 | `(a) + b * c;` groups as `a + (b * c)` |
| Parsing.GroupedOperandInDifference | src/Parser.cpp:307-321 | `a - (b) - c;` groups as `(a - b) - c` |
| Parsing.ParenthesisedSumTimes | src/Parser.cpp:307-321 | `(a + b) * c;` groups as `(a + b) * c`, against the precedence of `*` over `+` |
| Parsing.UnclosedGroupIsOneError | src/Parser.cpp:307-321 | `( a ;` yields no expression and exactly one mismatch error |
| Parsing.UnclosedGroupFails | src/Parser.cpp:307-321 | on `( a ;` the grouped rule parses `a`, then records that `)` was expected where `;` came, and yields nothing |
| Parsing.StuckWithoutPrefixRule | src/Parser.cpp:93-119 | a non-EOF token with no prefix rule stops `parseProgram` for good: each round adds one error and moves nothing |
| Parsing.CommentNodesAreDropped | src/Parser.cpp:124-136 | a comment token as current becomes a comment node that is dropped, and the round moves no token (a state the constructor and `nextToken` never produce) |
| Parsing.IntegerOperandStopsExpression | src/Parser.cpp:273-286 | `x = 1 + 2;` gives the statement `x = 1` and the loop never finishes, because the integer rule moves past its own token |
| PrattParser.Parser.constructor | src/Parser.cpp:18-25 | the state is `Init` of the token sequence |
| PrattParser.Parser.NextToken | src/Parser.cpp:63-71 | the new state is `Parsing.NextToken` of the old one |
| PrattParser.Parser.Lex | src/Parser.cpp:66 | one call of the lexer: the token and the tokens left are `Parsing.Pull` of the tokens left before; the lookahead tokens and errors are unchanged |
| PrattParser.Parser.SkipOptionalSemicolon | src/Parser.cpp:179-181 | the new state is `Parsing.SkipOptionalSemicolon` of the old one |
| PrattParser.Parser.ExpectPeek | src/Parser.cpp:81-90 | the result and new state are those of `Parsing.ExpectPeek` |
| PrattParser.Parser.ParseExpression | src/Parser.cpp:215-253 | the result and new state are those of `Parsing.ParseExpression` |
| PrattParser.Parser.ParsePrefix | src/Parser.cpp:216-228 | the lookup in `prefixParseFns` and the call of the rule found: the result and new state are those of `Parsing.ParsePrefix` |
| PrattParser.Parser.ParseIntegerLiteral | src/Parser.cpp:273-286 | the result and new state are those of `Parsing.ParseIntegerLiteral` |
| PrattParser.Parser.ParseIdentifier | src/Parser.cpp:303-305 | the result and new state are those of `Parsing.ParseIdentifier` |
| PrattParser.Parser.ParseBooleanLiteral | src/Parser.cpp:155-161 | the result and new state are those of `Parsing.ParseBooleanLiteral` |
| PrattParser.Parser.ParseStringLiteral | src/Parser.cpp:288-293 | the result and new state are those of `Parsing.ParseStringLiteral` |
| PrattParser.Parser.ParseCharLiteral | src/Parser.cpp:295-301 | the result and new state are those of `Parsing.ParseCharLiteral` |
| PrattParser.Parser.ParseGroupedExpression | src/Parser.cpp:307-321 | the result and new state are those of `Parsing.ParseGroupedExpression` |
| PrattParser.Parser.ParseInfixExpression | src/Parser.cpp:323-336 | the result and new state are those of `Parsing.ParseInfixExpression` |
| PrattParser.Parser.ParseExpressionStatement | src/Parser.cpp:186-197 | the result and new state are those of `Parsing.ParseExpressionStatement` |
| PrattParser.Parser.ParsePrintStatement | src/Parser.cpp:256-271 | the result and new state are those of `Parsing.ParsePrintStatement` |
| PrattParser.Parser.ParseAssignmentStatement | src/Parser.cpp:163-184 | the result and new state are those of `Parsing.ParseAssignmentStatement` |
| PrattParser.Parser.ParseStatement | src/Parser.cpp:139-153 | the result and new state are those of `Parsing.ParseStatement` |
| PrattParser.Parser.ParseTopLevelNode | src/Parser.cpp:124-136 | the result and new state are those of `Parsing.ParseTopLevelNode` |
| PrattParser.Parser.ParseProgram | src/Parser.cpp:93-119 | the statements, new state and finished flag are those of `Parsing.ProgramLoop` |
| PrattParser.Parser.ProgramRound | src/Parser.cpp:97-117 | one loop round keeps the class state and the collected statements in step with `ProgramLoop` |
| Symbols.Lookup | src/symbol_table.h:35-45 | definition of `resolve` over the chain of stores, innermost first: the entry of the first store holding the name, none when no store does |
| Symbols.LookupFindsAnyHolder | src/symbol_table.h:35-45 | a name resolves exactly when some scope of the chain holds it |
| Symbols.InnermostBindingWins | src/symbol_table.h:35-45 | the innermost scope holding a name decides its entry |
| Symbols.DefineInScopes | src/symbol_table.h:26-33 | defining succeeds exactly when the name is not in the innermost store; a failure changes nothing; success adds that one entry to the innermost store only; the name then resolves to it; every other name resolves as before |
| Symbols.SymbolTable.constructor | src/symbol_table.h:23-24 | an empty store in front of the chain it takes over |
| Symbols.SymbolTable.Define | src/symbol_table.h:26-33 | the result and new chain are `DefineInScopes`; on success the name resolves to the new entry |
| Symbols.SymbolTable.Resolve | src/symbol_table.h:35-45 | the result is `Lookup` over the whole chain |
| Symbols.SymbolTable.GetOuterPtr | src/symbol_table.h:47-49 | null exactly for a root table; otherwise a valid table for the rest of the chain |
| Symbols.SymbolTable.PopOuterScope | src/symbol_table.h:51-53 | hands back the enclosing chain unchanged and leaves this table a root with its own store |
| Semantics.OperandType | src/semantic_analyzer.h:94-114 | definition of the `dynamic_cast` chain that reads an operand's type: an identifier's or binary node's annotation, INT for an integer literal, ILLEGAL for any other node |
| Semantics.BinaryType | src/semantic_analyzer.h:116-125 | definition of the operator check: ILLEGAL without an error when an operand is ILLEGAL, ILLEGAL with one error when an operand is not INT, else INT; the whole table is stated by Semantics.BinaryTyping |
| Semantics.IsZeroLiteral | src/semantic_analyzer.h:127-133 | definition of the division check's test on the right operand: an integer literal of value 0 |
| Semantics.AnalyzeExpr | src/semantic_analyzer.h:73-135 | analysis changes only type annotations; a binary node becomes INT or ILLEGAL; no define error arises |
| Semantics.BinaryCheck | src/semantic_analyzer.h:116-134 | the type and errors a binary node adds after its operands: the operator check, then division by the literal 0; never an undefined-variable error |
| Semantics.BinaryAnalysis | src/semantic_analyzer.h:90-135 | a binary node is analysed as its left operand, then its right, then `BinaryCheck` on the two results |
| Semantics.IntTypeIffWellTyped | src/semantic_analyzer.h:84-135 | an operand is typed INT exactly when it is well typed, and then no error is raised |
| Semantics.UndefinedErrorsMatchUnboundUses | src/semantic_analyzer.h:73-82 | each unbound identifier occurrence is reported exactly once, in walk order, and no other error names a variable |
| Semantics.UndefinedReportedAppend | src/semantic_analyzer.h:140-142 | the reported names of appended error lists are the appended names |
| Semantics.BinaryTyping | src/semantic_analyzer.h:90-135 | operands are visited left then right and their errors come first; an ILLEGAL operand passes silently; other non-INT operands give one operator error; `/` by a literal 0 gives a division error and ILLEGAL; the node is INT exactly when both operands are INT and there is no zero divisor |
| Semantics.AnalysisIsIdempotent | src/semantic_analyzer.h:69-135 | analysing an annotated tree again changes nothing and reports the same errors |
| Semantics.BooleanOperandIsSilentlyIllegal | src/semantic_analyzer.h:69-71 | `true + 1` comes out ILLEGAL with no error |
| Semantics.AnalyzeStmt | src/semantic_analyzer.h:45-67 | only the innermost scope changes; a new name assigned to is bound to an INT variable; every other binding stays as it was |
| Semantics.AssignmentTargetType | src/semantic_analyzer.h:45-59 | the target type becomes ILLEGAL exactly when the value resolved to ILLEGAL; the errors are the value's |
| Semantics.AnalyzeStmts | src/semantic_analyzer.h:38-43 | every statement is kept; only the innermost scope changes; no define error arises |
| Semantics.AnalysisComposes | src/semantic_analyzer.h:38-43 | analysing `a + b` is analysing `a`, then `b` in the scopes `a` left, with the errors concatenated |
| Semantics.OneStatement | src/semantic_analyzer.h:40-42 | the statement loop over one statement is that statement's visit |
| Semantics.BindingsAfterAnalysis | src/semantic_analyzer.h:45-59 | after a program, earlier bindings are kept; a name first bound by an assignment is an INT variable; all other names stay unbound |
| Semantics.SemanticAnalyzer.constructor | src/semantic_analyzer.h:25 | one empty global scope and no errors |
| Semantics.SemanticAnalyzer.Analyze | src/semantic_analyzer.h:31-36 | the annotated program, scopes and errors are those of `AnalyzeStmts` |
| Semantics.SemanticAnalyzer.VisitProgram | src/semantic_analyzer.h:38-43 | the same, statement by statement |
| Semantics.SemanticAnalyzer.VisitNext | src/semantic_analyzer.h:40-42 | one loop round extends the annotated prefix, the scopes and the errors by the next statement's visit |
| Semantics.SemanticAnalyzer.VisitStatement | src/semantic_analyzer.h:45-67 | the statement, scopes and errors are those of `AnalyzeStmt` |
| Semantics.SemanticAnalyzer.VisitAssignment | src/semantic_analyzer.h:45-59 | the same, for an assignment |
| Semantics.SemanticAnalyzer.VisitExpressionStatement | src/semantic_analyzer.h:61-63 | the same, for an expression statement |
| Semantics.SemanticAnalyzer.VisitPrintStatement | src/semantic_analyzer.h:65-67 | the same, for a print statement |
| Semantics.SemanticAnalyzer.VisitExpr | src/semantic_analyzer.h:69-135 | the annotated expression and the errors appended are those of `AnalyzeExpr` |
| Semantics.SemanticAnalyzer.VisitBooleanLiteral | src/semantic_analyzer.h:69-71 | the node is annotated as `AnalyzeExpr` says and no error is raised |
| Semantics.SemanticAnalyzer.VisitIdentifier | src/semantic_analyzer.h:73-82 | the node and errors are those of `AnalyzeExpr` |
| Semantics.SemanticAnalyzer.VisitIntegerLiteral | src/semantic_analyzer.h:84-88 | the node is unchanged in meaning and no error is raised |
| Semantics.SemanticAnalyzer.VisitBinary | src/semantic_analyzer.h:90-135 | the node and errors are those of `AnalyzeExpr` |
| Semantics.SemanticAnalyzer.VisitOperands | src/semantic_analyzer.h:91-92 | left operand visited, then right; errors appended in that order, scopes unchanged |
| Semantics.SemanticAnalyzer.CheckOperands | src/semantic_analyzer.h:94-134 | computes the node type and appends the errors of `BinaryCheck` on the annotated operands |
| Semantics.SemanticAnalyzer.EnterScope | src/semantic_analyzer.h:144-146 | a fresh empty scope goes in front of the chain |
| Semantics.SemanticAnalyzer.ExitScope | src/semantic_analyzer.h:148-153 | the innermost scope is dropped unless it is the only one |
| CodeGen.Render | src/Codegen.cpp:43-45 | definition of the text `emit` appends: each instruction's line followed by a newline; that it distributes over appending is stated by CodeGen.RenderAppend |
| CodeGen.IntToString | src/Codegen.cpp:116-120 | definition of `operator<<` on an `int`: its decimal digits, with a leading `-` when negative |
| CodeGen.SlotOperand | src/Codegen.cpp:128 | definition of the memory operand of a slot: `QWORD PTR [rbp - N]` |
| CodeGen.KindName | src/Lexer.cpp:4-17 | definition of `tokenTypeStrings`: the name of each of the twelve kinds in the table; the other kinds are spelled as in the enum (see Left out) |
| CodeGen.Message | src/Codegen.cpp:16-178 | definition of the message passed to `error` for each error the generator raises, word for word |
| CodeGen.SupportedOperator | src/Codegen.cpp:145-170 | definition: the operators the `switch` has a case for, `+ - * /` |
| CodeGen.BinaryTail | src/Codegen.cpp:143-173 | definition of what `visit(BinaryExpression)` emits after the operands: `pop rax`, `pop rbx`, the operator's code, `push rax` |
| CodeGen.GenExpr | src/Codegen.cpp:101-174 | definition of `visit(const Expression*)`: the code and errors for an expression; its stack effect is stated by CodeGen.ExpressionPushesOne and its errors by CodeGen.NoErrorsIffClean |
| CodeGen.DefineSlot | src/Codegen.cpp:176-183 | definition of `defineVariable`; a new name gets the next 8-byte slot and a known one one error, as stated by CodeGen.DefineSlotExtends |
| CodeGen.GenStmts | src/Codegen.cpp:51-55 | definition of `visit(const Program*)`: the statements' code and errors in order, each statement seeing the slots the earlier ones allocated; stated by CodeGen.SlotsFollowFirstAssignment and CodeGen.NoErrorsIffCompilesCleanly |
| CodeGen.Compile | src/Codegen.cpp:14-37 | definition of `generate` on a fresh generator: for a null program the empty string and one error, otherwise the rendered header, prologue, statements and epilogue; the text is stated by CodeGen.CompiledTextLayout |
| CodeGen.ErrorText | src/Codegen.cpp:47-49 | every stored error text is the prefix `Code Generation Error: ` followed by the message |
| CodeGen.OperatorCode | src/Codegen.cpp:146-170 | an operator has code exactly when it is `+`, `-`, `*` or `/` |
| CodeGen.RenderAppend | src/Codegen.cpp:43-45 | rendering appended code gives the appended texts |
| CodeGen.GenStmt | src/Codegen.cpp:57-94 | a statement never reports an already-declared or allocation error |
| CodeGen.CompiledTextLayout | src/Codegen.cpp:8-37 | the output is the three directives, `main`'s prologue, the statements' code, then the exit system call and the `_start` stub |
| CodeGen.HeaderText | src/Codegen.cpp:8-12 | the constructor's header renders as the three lines `.intel_syntax noprefix`, `.global _start`, `.text` |
| CodeGen.PrologueText | src/Codegen.cpp:20-22 | the function entry renders as `main:`, ` push rbp`, ` mov rbp, rsp` |
| CodeGen.EpilogueText | src/Codegen.cpp:26-34 | the exit sequence renders as the eight lines of the exit call, `_start` and its call to `main` |
| CodeGen.SlotsAreDistinct | src/Codegen.cpp:176-183 | distinct variables get distinct slots, and a later one lies deeper in the frame |
| CodeGen.SlotKeys | src/Codegen.cpp:176-183 | the names with a slot are exactly the names allocated |
| CodeGen.DefineSlotExtends | src/Codegen.cpp:176-183 | defining a new name appends it with the next 8-byte slot; a known name changes nothing |
| CodeGen.SlotsFollowFirstAssignment | src/Codegen.cpp:69-94 | after a program the slot table holds exactly the assigned variables, in order of first assignment, at offsets 8, 16, 24, ...; reassignment reuses a slot |
| CodeGen.AssignmentStoresIntoItsSlot | src/Codegen.cpp:69-94 | an assignment evaluates its value, pops it into `rax` and stores it with one `mov` into its target's slot |
| CodeGen.DepthAppend | src/Codegen.cpp:43-45 | the stack depth and low-water mark of appended code compose |
| CodeGen.ExpressionPushesOne | src/Codegen.cpp:101-174 | supported expression code leaves exactly one word on the stack and never dips below its start; unknown nodes emit nothing |
| CodeGen.OperatorCodeIsStackNeutral | src/Codegen.cpp:146-170 | the operator instructions do not touch the stack |
| CodeGen.BinaryTailEffect | src/Codegen.cpp:143-173 | the two pops go two below the operands, and the push brings the stack back by one |
| CodeGen.StatementIsStackNeutral | src/Codegen.cpp:69-99 | assignment and expression statements over supported expressions leave the stack as they found it |
| CodeGen.NoErrorsIffClean | src/Codegen.cpp:101-174 | an expression compiles without error exactly when its variables have slots, its operators are supported, and it has no unknown node |
| CodeGen.NoErrorsIffCompilesCleanly | src/Codegen.cpp:51-99 | a program compiles without error exactly when it has no print statement and each expression is clean given the variables assigned before it |
| CodeGen.GenStmtsStep | src/Codegen.cpp:51-55 | one statement more is done: its code and errors move from what remains to what was produced |
| CodeGen.CodeGenerator.constructor | src/Codegen.cpp:8-12 | counter 0, empty slot table, no errors, the three header lines emitted |
| CodeGen.CodeGenerator.GetErrors | src/Codegen.cpp:47-49 | each returned text is the prefix followed by its error's message |
| CodeGen.CodeGenerator.Emit | src/Codegen.cpp:43-45 | one instruction appended, nothing else changed |
| CodeGen.CodeGenerator.Error | src/Codegen.cpp:47-49 | one error appended, nothing else changed |
| CodeGen.CodeGenerator.Generate | src/Codegen.cpp:14-37 | a null program gives `""` and one error; otherwise the prologue, `GenStmts` code and epilogue are appended and the whole text is returned |
| CodeGen.CodeGenerator.EmitPrologue | src/Codegen.cpp:20-22 | appends exactly `Prologue`, nothing else changes |
| CodeGen.CodeGenerator.EmitEpilogue | src/Codegen.cpp:26-34 | appends exactly `Epilogue`, nothing else changes |
| CodeGen.CodeGenerator.VisitProgram | src/Codegen.cpp:51-55 | code, slots, counter and errors follow `GenStmts` |
| CodeGen.CodeGenerator.VisitStatement | src/Codegen.cpp:57-67 | code, slots, counter and errors follow `GenStmt` |
| CodeGen.CodeGenerator.VisitAssignment | src/Codegen.cpp:69-94 | the same, for an assignment |
| CodeGen.CodeGenerator.VisitExpressionStatement | src/Codegen.cpp:96-99 | the same, for an expression statement |
| CodeGen.CodeGenerator.VisitExpr | src/Codegen.cpp:101-114 | code and errors follow `GenExpr`, and the slots are unchanged |
| CodeGen.CodeGenerator.VisitIntegerLiteral | src/Codegen.cpp:116-120 | the same, for an integer literal |
| CodeGen.CodeGenerator.VisitIdentifier | src/Codegen.cpp:122-135 | the same, for an identifier (a missing slot gives an error and `push 0`) |
| CodeGen.CodeGenerator.VisitBinary | src/Codegen.cpp:137-174 | the same, for a binary expression |
| CodeGen.CodeGenerator.EmitOperator | src/Codegen.cpp:146-170 | appends the operator's instructions, and one error exactly for an unsupported operator |
| CodeGen.CodeGenerator.DefineVariable | src/Codegen.cpp:176-183 | slots, counter and errors follow `DefineSlot`, and no code is emitted |
| CodeGen.CodeGenerator.GetSymbol | src/Codegen.cpp:185-191 | a name's slot exactly when it has one |
| CodeGen.CodeGenerator.PopIntoRax | src/Codegen.cpp:193-195 | appends `pop rax` |
| CodeGen.CodeGenerator.PushFromRax | src/Codegen.cpp:197-199 | appends `push rax` |
| TinyLexing.IsAlpha | src/lexer.cpp:68 | definition of `isalpha` in the "C" locale: an ASCII letter |
| TinyLexing.IsDigit | src/lexer.cpp:70 | definition of `isdigit` in the "C" locale: `0` to `9` |
| TinyLexing.IsAlnum | src/lexer.cpp:105 | definition of `isalnum` in the "C" locale: an ASCII letter or digit |
| TinyLexing.WordEnd | src/lexer.cpp:103-119 | the word run is alphanumeric and ends at the first non-alphanumeric character |
| TinyLexing.StringBody | src/lexer.cpp:81-101 | the string scan stops at the first closing quote, or at the end of the source |
| TinyLexing.MakeToken | src/lexer.cpp:37-45 | the token carries the consumed lexeme, the literal and the line |
| TinyLexing.ScanOne | src/lexer.cpp:47-79 | one `scanToken` consumes at least one character, adds at most one token (never EOF) and at most one error, keeping the earlier ones |
| TinyLexing.ScanRest | src/lexer.cpp:7-16 | the scan loop consumes the whole source |
| TinyLexing.Scanned | src/lexer.cpp:7-16 | definition of `scanTokens` from a state: the tokens the loop scans, then one EOF token carrying the line and the index reached; that it ends with exactly one EOF is stated by TinyLexing.ScannedEndsWithOneEof |
| TinyLexing.ScannedEndsWithOneEof | src/lexer.cpp:7-16 | the token list ends with exactly one EOF token |
| TinyLexing.ScanRestAddsNoEof | src/lexer.cpp:7-16 | the loop itself never adds an EOF token |
| TinyLexing.SemicolonToken | src/lexer.cpp:51-53 | `;` is one semicolon token |
| TinyLexing.BlanksAreSkipped | src/lexer.cpp:57-66 | blanks add nothing; a newline moves to column 1 of the next line |
| TinyLexing.NewlinesSnoc | src/lexer.cpp:83-89 | newline counting over appended text |
| TinyLexing.StringBodyCountsNewlines | src/lexer.cpp:83-89 | the string loop counts every newline it passes |
| TinyLexing.StringToken | src/lexer.cpp:81-101 | a closed string gives one string token whose literal is the text between the quotes, moving the line by the newlines inside |
| TinyLexing.UnterminatedStringIsDropped | src/lexer.cpp:91-94 | an unclosed string adds no token and one error, and consumes the rest |
| TinyLexing.WordToken | src/lexer.cpp:103-119 | a word becomes a print token exactly when it spells `print`; otherwise it is reported and dropped |
| TinyLexing.OtherCharactersAreDropped | src/lexer.cpp:67-77 | digits and other characters add no token and one error, and consume one character |
| TinyLexing.Lexer.constructor | src/lexer.cpp:5 | line 1, column 1, nothing scanned |
| TinyLexing.Lexer.ScanTokens | src/lexer.cpp:7-16 | the tokens are `ScanRest`'s followed by one EOF token |
| TinyLexing.Lexer.IsAtEnd | src/lexer.cpp:18-20 | true exactly when the index has reached the end |
| TinyLexing.Lexer.Advance | src/lexer.cpp:22-25 | returns the current character, and the index and column move on by one |
| TinyLexing.Lexer.Peek | src/lexer.cpp:27-30 | the current character, NUL at the end |
| TinyLexing.Lexer.AddToken | src/lexer.cpp:37-45 | appends `MakeToken` for the lexeme consumed |
| TinyLexing.Lexer.Error | src/lexer.cpp:121-126 | appends one report |
| TinyLexing.Lexer.ScanToken | src/lexer.cpp:47-79 | the new state is `ScanOne` of the old one |
| TinyLexing.Lexer.String | src/lexer.cpp:81-101 | the index, line and column follow `StringBody`; a token or an error is added |
| TinyLexing.Lexer.Identifier | src/lexer.cpp:103-119 | the index moves to `WordEnd`; only `print` is kept |
| TinyParsing.Parser.constructor | src/parser.cpp:4 | at the first token, no errors |
| TinyParsing.Parser.Parse | src/parser.cpp:6-19 | a statement comes back exactly when the tokens are `print`, a string, `;`, EOF; its value is the string's literal; otherwise at least one error is added, and an empty program gives exactly the empty-program error |
| TinyParsing.Parser.Statement | src/parser.cpp:22-29 | a statement exactly when a print statement starts here; otherwise exactly one error |
| TinyParsing.Parser.PrintStatement | src/parser.cpp:33-49 | after `print`, a statement exactly when a string and `;` follow; otherwise exactly one error |
| TinyParsing.Parser.Advance | src/parser.cpp:54-57 | steps past the current token unless it is EOF, and returns the token passed |
| TinyParsing.Parser.Peek | src/parser.cpp:60-62 | the current token |
| TinyParsing.Parser.Previous | src/parser.cpp:65-67 | the token before the current one |
| TinyParsing.Parser.IsAtEnd | src/parser.cpp:70-72 | true exactly when the current token is EOF |
| TinyParsing.Parser.Check | src/parser.cpp:75-78 | true exactly when the current token has the kind and is not EOF |
| TinyParsing.Parser.Match | src/parser.cpp:81-85 | consumes one token exactly when `check` holds |
| TinyParsing.Parser.Error | src/parser.cpp:88-96 | appends one report |
| TinyParsing.PrintProgramIsAccepted | src/parser.cpp:6-49 | `print "text";` (with no quote in the text) scans to four tokens that the parser accepts, and the string token carries the text |
| TinyParsing.PrintWordScans | src/lexer.cpp:47-66 | `print ` scans to one PRINT keyword token and stops at the opening quote |
| TinyParsing.StringAndSemicolonScan | src/lexer.cpp:51-101 | from the quote, the string token carrying the text, then `;`, then the end of the input |

## Left out

- `Main.cpp`, `main.cpp`, `interpreter.cpp` and `ast.cpp` are not part of this model. They do file and console I/O, run the pipelines, and dispatch `accept` calls. In the model the visitor's double dispatch is a `match` on the node.
- Messages sent to `std::cerr` and to the error lists are modelled as lists of error kinds with their data. Exact wording is modelled only for the code generator's errors (prefix and message). Lexer errors carry no line or column.
- `std::isspace`, `isalpha`, `isdigit` and `isalnum` are the ASCII "C"-locale classes. Characters outside ASCII are "other characters".
- Lexing.Scan: the input is a sequence of characters, while the source reads its `std::string` one byte at a time (src/Lexer.cpp:96). A character that takes n > 1 bytes in UTF-8 gives n ILLEGAL tokens with one-byte literals in the source, and one ILLEGAL token in the model. When every character is below 256, each stands for one byte and the two agree.
- Lexing.OtherCharacterIsIllegal: holds per model character; for a multi-byte character the source gives one ILLEGAL token per byte (see Lexing.Scan).
- TinyLexing.ScanOne: the same reading of characters for bytes (src/lexer.cpp:24). A character of n UTF-8 bytes gives n "Unexpected character" errors in the source and one in the model; inside a string literal it moves the column by n in the source and by one in the model, so the columns of later tokens on that line differ.
- TinyLexing.OtherCharactersAreDropped: one error per model character; the source reports one per byte (see TinyLexing.ScanOne).
- Parsing.DecimalValue: models `strtol` only on a literal that begins with decimal digits. It ignores signs, leading whitespace, overflow and narrowing to `int`. HEX and OCTAL literals are not produced by this lexer and are not modelled.
- Semantic annotations: `resolvedType` is written in place in the source. The model returns an annotated copy of the tree instead. The model also starts every annotation at ILLEGAL.
- PrattParser.Parser: the lexer the parser pulls tokens from (the reference `lexer_`) is a sequence of tokens with a count of those delivered. Once the sequence is used up it yields EOF, as the lexer does once the input is exhausted.
- PrattParser.Parser: the `prefixParseFns` and `infixParseFns` maps of member-function pointers are not fields. The kinds they hold are `Parsing.HasPrefixRule` and `Parsing.HasInfixRule`, and the call through the map is a `match` on the kind (`Parsing.ParsePrefix`, `Parsing.ParseInfixExpression`).
- Parsing.ParseExpression: for a current token of kind PRINT, HEX, OCTAL or BOOL, which has no prefix rule and is missing from `tokenTypeStrings`, the source's `tokenTypeStrings.at` throws `std::out_of_range` while building the error message, and the program aborts. The model records one NoPrefixParseFn error and goes on. The expression lexer produces none of these four kinds (it reads `print` as an identifier), so only a token list built by other means reaches this case.
- Parsing.NoPrefixRuleIsOneError: states the one recorded error also for PRINT, HEX, OCTAL and BOOL, where the source aborts instead (see Parsing.ParseExpression).
- Parsing.StuckWithoutPrefixRule: excludes PRINT, but for HEX, OCTAL and BOOL the source aborts on the first round instead of looping (see Parsing.ParseExpression).
- PrattParser.Parser.ParseProgram: takes a `fuel` bound on the number of loop rounds. The source loop need not terminate (see Parsing.StuckWithoutPrefixRule), so it has no termination proof.
- CodeGen.CodeGenerator: the `assembly_code_` string is the field `assembly`, a list of instructions; `CodeGen.Render` turns it into the text the source appends, one instruction per line.
- CodeGen: the semantics of the emitted x86 instructions are not modelled. Only the emitted text and the stack depth are tracked.
- CodeGen.CodeGenerator: the 32-bit `int` of `stackOffsetCounter` and of the emitted integer values is modelled as an unbounded integer.
- CodeGen.KindName: `tokenTypeStrings.at` throws for a kind missing from the table. The model spells such kinds as they are named in the enum instead.
- CodeGen.CodeGenerator.VisitAssignment: the allocation-failure error after `defineVariable` is proved unreachable, so the model does not raise it.
- Semantics.SemanticAnalyzer.VisitAssignment: a failed `define` is likewise proved unreachable, because the name is defined only when no scope holds it.
- TinyLexing.MakeToken: the column is `column - lexeme length`, computed on unbounded integers. The source computes it in an unsigned type and may wrap around.
- TinyLexing.Scanned: the EOF token's column is the index `current`, as written in the source. No column arithmetic is applied to it.
- The unused helpers `peekChar`, `peekNext`, `number` and `tokenTypeToString` are left out.
- TinyParsing.Parser.constructor: requires a token list that ends with EOF, which `scanTokens` always produces.
