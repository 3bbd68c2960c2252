/**
 * The Pratt parser of the expression compiler (src/Parser.cpp, src/Parser.h).
 *
 * The functions on `PState` specify the parser one method at a time: a
 * state holds the tokens the lexer has not delivered yet, the two lookahead
 * tokens `cur` and `peek`, and the error list. The class `Parser` of module
 * `PrattParser` keeps the source's fields and loops, and each of its methods
 * is proved to compute the function of the same name.
 *
 * The token source is a sequence; once it is used up it yields END_OF_FILE
 * forever, as the expression lexer does.
 */
module Parsing {
  import opened Wrappers
  import opened Tokens
  import opened Ast

  // ---------------------------------------------------------------------
  // Precedences and dispatch tables

  /** The `Precedence` enum of Parser.h: LOWEST = 1, SUM = 2, PRODUCT = 3, ASSIGN_PRECEDENCE = 4. */
  type Precedence = p: nat | 1 <= p <= 4 witness 1

  const Lowest: Precedence := 1
  const Sum: Precedence := 2
  const Product: Precedence := 3
  const AssignPrecedence: Precedence := 4

  /** The `precedences` map, with LOWEST for kinds it lacks (`peekPrecedence`, `currentPrecedence`). */
  function PrecedenceOf(k: Kind): Precedence {
    match k
    case Assign => AssignPrecedence
    case Plus => Sum
    case Minus => Sum
    case Asterisk => Product
    case Slash => Product
    case _ => Lowest
  }

  /** The kinds `setupParseFunctions` registers in `prefixParseFns`. */
  predicate HasPrefixRule(k: Kind) {
    k in {Int, Identifier, LParen, True, False, String, Char}
  }

  /** The kinds `setupParseFunctions` registers in `infixParseFns`. */
  predicate HasInfixRule(k: Kind) {
    k in {Plus, Minus, Asterisk, Slash, Assign}
  }

  /** Binding powers: ASSIGN binds tightest, then `*` and `/`, then `+` and `-`; everything else is LOWEST. */
  lemma PrecedenceTable(k: Kind)
    ensures PrecedenceOf(Assign) == 4 && PrecedenceOf(Asterisk) == PrecedenceOf(Slash) == 3
    ensures PrecedenceOf(Plus) == PrecedenceOf(Minus) == 2
    ensures k !in {Assign, Asterisk, Slash, Plus, Minus} ==> PrecedenceOf(k) == 1
    ensures PrecedenceOf(k) > Lowest <==> HasInfixRule(k)
  {
  }

  // ---------------------------------------------------------------------
  // Parser state and token movement

  datatype ParseError =
    | PeekMismatch(expected: Kind, got: Kind, literal: string)  // peekError
    | NoPrefixParseFn(kind: Kind, literal: string)

  datatype PState = PState(rest: seq<Token>, cur: Token, peek: Token, errors: seq<ParseError>)

  /** One call of the lexer: the next token, END_OF_FILE once the tokens are used up. */
  function Pull(rest: seq<Token>): (r: (Token, seq<Token>))
  {
    if rest == [] then (EofToken, []) else (rest[0], rest[1..])
  }

  /** The lexer calls in `nextToken` that refill `peek`: the first token that is not a comment. */
  function PullNonComment(rest: seq<Token>): (r: (Token, seq<Token>))
    ensures !IsComment(r.0.kind)
    ensures |r.1| <= |rest| && (rest != [] ==> |r.1| < |rest|)
    ensures rest == [] ==> r == (EofToken, [])
    decreases |rest|
  {
    var (t, rest') := Pull(rest);
    if IsComment(t.kind) then PullNonComment(rest') else (t, rest')
  }

  /**
   * A measure of the input still ahead: two for each undelivered token and one
   * for each lookahead token that is not END_OF_FILE. Every recursive descent
   * of the parser is preceded by a `nextToken` that lowers it.
   */
  function Weight(st: PState): nat {
    2 * |st.rest| + (if st.peek.kind == EndOfFile then 0 else 1) + (if st.cur.kind == EndOfFile then 0 else 1)
  }

  /** `nextToken`: the old peek becomes current and peek is refilled, skipping comments. */
  function NextToken(st: PState): (st': PState)
    ensures st'.cur == st.peek
    ensures !IsComment(st'.peek.kind)
    ensures st'.errors == st.errors
    ensures Weight(st') <= Weight(st)
    ensures st.cur.kind != EndOfFile ==> Weight(st') < Weight(st)
  {
    var (p, rest') := PullNonComment(st.rest);
    st.(cur := st.peek, peek := p, rest := rest')
  }

  /** `expectPeek`: advance if peek has the expected kind, else record a mismatch. */
  function ExpectPeek(st: PState, k: Kind): (r: (bool, PState))
  {
    if st.peek.kind == k then (true, NextToken(st))
    else (false, st.(errors := st.errors + [PeekMismatch(k, st.peek.kind, st.peek.literal)]))
  }

  /** On a match `expectPeek` advances exactly one token; otherwise it adds one error and moves nothing. */
  lemma ExpectPeekEffect(st: PState, k: Kind)
    ensures var (ok, st') := ExpectPeek(st, k);
      && (ok <==> st.peek.kind == k)
      && (ok ==> st' == NextToken(st) && st'.cur == st.peek)
      && (!ok ==> st'.cur == st.cur && st'.peek == st.peek && st'.rest == st.rest
                  && st'.errors == st.errors + [PeekMismatch(k, st.peek.kind, st.peek.literal)])
  {
  }

  /** The parser's state right after its constructor's two `nextToken` calls. */
  function Init(tokens: seq<Token>): (st: PState)
    ensures st.errors == [] && !IsComment(st.cur.kind) && !IsComment(st.peek.kind)
  {
    NextToken(NextToken(PState(tokens, Token(Illegal, ""), Token(Illegal, ""), [])))
  }

  // ---------------------------------------------------------------------
  // Expressions

  /** `strtol(lit, nullptr, 10)` on a literal that starts with decimal digits: the value of those digits. */
  function DecimalValue(lit: string, acc: nat): nat
    decreases |lit|
  {
    if lit == [] || !('0' <= lit[0] <= '9') then acc
    else DecimalValue(lit[1..], acc * 10 + (lit[0] as int - '0' as int))
  }

  /** `parseExpression(prec)`. */
  function ParseExpression(st: PState, prec: Precedence): (r: (Option<Expr>, PState))
    ensures Weight(r.1) <= Weight(st)
    ensures st.errors <= r.1.errors
    ensures r.0.Some? ==> r.1.peek.kind == Semicolon || PrecedenceOf(r.1.peek.kind) <= prec
    decreases Weight(st), 3
  {
    if !HasPrefixRule(st.cur.kind) then
      (None, st.(errors := st.errors + [NoPrefixParseFn(st.cur.kind, st.cur.literal)]))
    else
      var (left, st1) := ParsePrefix(st);
      if left.None? then (None, st1)
      else InfixLoop(st1, prec, left.value)
  }

  /** The `while` loop of `parseExpression`: fold infix operators that bind tighter than `prec` into `left`. */
  function InfixLoop(st: PState, prec: Precedence, left: Expr): (r: (Option<Expr>, PState))
    ensures Weight(r.1) <= Weight(st)
    ensures st.errors <= r.1.errors
    ensures r.0.Some? ==> r.1.peek.kind == Semicolon || PrecedenceOf(r.1.peek.kind) <= prec
    decreases Weight(st), 2
  {
    if st.peek.kind != Semicolon && prec < PrecedenceOf(st.peek.kind) then
      if !HasInfixRule(st.peek.kind) then
        assert false;
        (Some(left), st)
      else
        var st1 := NextToken(st);
        var (e, st2) := ParseInfixExpression(st1, left);
        if e.None? then (None, st2)
        else InfixLoop(st2, prec, e.value)
    else
      (Some(left), st)
  }

  /** The prefix rule registered for the current token's kind. */
  function ParsePrefix(st: PState): (r: (Option<Expr>, PState))
    requires HasPrefixRule(st.cur.kind)
    ensures Weight(r.1) <= Weight(st)
    ensures st.errors <= r.1.errors
    decreases Weight(st), 2
  {
    match st.cur.kind
    case Int => ParseIntegerLiteral(st)
    case Identifier => ParseIdentifier(st)
    case LParen => ParseGroupedExpression(st)
    case True => ParseBooleanLiteral(st)
    case False => ParseBooleanLiteral(st)
    case String => ParseStringLiteral(st)
    case Char => ParseCharLiteral(st)
  }

  /** `parseIntegerLiteral`: the literal's value, annotated with the token's kind; moves past the literal. */
  function ParseIntegerLiteral(st: PState): (r: (Option<Expr>, PState))
  {
    (Some(IntegerLiteral(DecimalValue(st.cur.literal, 0), st.cur.kind)), NextToken(st))
  }

  /** `parseIdentifier`: leaves the identifier as the current token. */
  function ParseIdentifier(st: PState): (r: (Option<Expr>, PState))
  {
    (Some(IdentifierExpr(st.cur.literal, Unannotated)), st)
  }

  /** `parseBooleanLiteral`: true exactly for a TRUE token, annotated BOOL; moves past the literal. */
  function ParseBooleanLiteral(st: PState): (r: (Option<Expr>, PState))
  {
    (Some(BooleanLiteral(st.cur.kind == True, Bool)), NextToken(st))
  }

  /** `parseStringLiteral`: annotated STRING; moves past the literal. */
  function ParseStringLiteral(st: PState): (r: (Option<Expr>, PState))
  {
    (Some(StringLiteral(st.cur.literal, String)), NextToken(st))
  }

  /** `parseCharLiteral`: the literal's first character, NUL if it is empty, annotated CHAR; moves past it. */
  function ParseCharLiteral(st: PState): (r: (Option<Expr>, PState))
  {
    var c := if st.cur.literal == [] then 0 as char else st.cur.literal[0];
    (Some(CharLiteral(c, Char)), NextToken(st))
  }

  /** `parseGroupedExpression`: `( expr )`, leaving `)` as the current token. */
  function ParseGroupedExpression(st: PState): (r: (Option<Expr>, PState))
    requires st.cur.kind == LParen
    ensures Weight(r.1) <= Weight(st)
    ensures st.errors <= r.1.errors
    decreases Weight(st), 1
  {
    var st1 := NextToken(st);
    var (e, st2) := ParseExpression(st1, Lowest);
    if e.None? then (None, st2)
    else
      var (ok, st3) := ExpectPeek(st2, RParen);
      if !ok then (None, st3) else (e, st3)
  }

  /** `parseInfixExpression`: the right operand is parsed at the operator's own precedence. */
  function ParseInfixExpression(st: PState, left: Expr): (r: (Option<Expr>, PState))
    requires HasInfixRule(st.cur.kind)
    ensures Weight(r.1) < Weight(st)
    ensures st.errors <= r.1.errors
    decreases Weight(st), 1
  {
    var op := st.cur.kind;
    var prec := PrecedenceOf(op);
    var st1 := NextToken(st);
    var (right, st2) := ParseExpression(st1, prec);
    if right.None? then (None, st2)
    else (Some(BinaryExpression(left, op, right.value, Unannotated)), st2)
  }

  // ---------------------------------------------------------------------
  // Statements and the program

  /** Consume a trailing `;` only when it is the peek token. */
  function SkipOptionalSemicolon(st: PState): (st': PState)
    ensures st.peek.kind == Semicolon ==> st'.cur == st.peek && st'.errors == st.errors
    ensures st.peek.kind != Semicolon ==> st' == st
  {
    if st.peek.kind == Semicolon then NextToken(st) else st
  }

  /** `parseExpressionStatement`. */
  function ParseExpressionStatement(st: PState): (r: (Option<Stmt>, PState))
  {
    var (e, st1) := ParseExpression(st, Lowest);
    if e.None? then (None, st1)
    else (Some(ExpressionStatement(e.value)), SkipOptionalSemicolon(st1))
  }

  /** `parsePrintStatement`: skip `print`, then one expression and an optional `;`. */
  function ParsePrintStatement(st: PState): (r: (Option<Stmt>, PState))
  {
    var st1 := NextToken(st);
    var (e, st2) := ParseExpression(st1, Lowest);
    if e.None? then (None, st2)
    else (Some(PrintStatement(e.value)), SkipOptionalSemicolon(st2))
  }

  /** `parseAssignmentStatement`: identifier, `=`, one expression and an optional `;`. */
  function ParseAssignmentStatement(st: PState): (r: (Option<Stmt>, PState))
  {
    var name := st.cur.literal;
    var (ok, st1) := ExpectPeek(st, Assign);
    if !ok then (None, st1)
    else
      var st2 := NextToken(st1);
      var (v, st3) := ParseExpression(st2, Lowest);
      if v.None? then (None, st3)
      else (Some(AssignmentStatement(name, Unannotated, v.value)), SkipOptionalSemicolon(st3))
  }

  /** `parseStatement`: PRINT starts a print statement, IDENTIFIER followed by ASSIGN an assignment, anything else an expression statement. */
  function ParseStatement(st: PState): (r: (Option<Stmt>, PState))
  {
    if st.cur.kind == Print then ParsePrintStatement(st)
    else if st.cur.kind == Identifier && st.peek.kind == Assign then ParseAssignmentStatement(st)
    else ParseExpressionStatement(st)
  }

  /** `parseTopLevelNode`: a comment token becomes a comment node (without advancing), anything else a statement. */
  function ParseTopLevelNode(st: PState): (r: (Option<TopLevelNode>, PState))
  {
    if IsComment(st.cur.kind) then (Some(CommentNode(st.cur)), st)
    else
      var (s, st1) := ParseStatement(st);
      (if s.Some? then Some(StatementNode(s.value)) else None, st1)
  }

  /**
   * The loop of `parseProgram`, cut off after `fuel` iterations because the
   * source loop need not end: statements are collected in order, comment
   * nodes and failed statements are dropped. `finished` tells whether the
   * loop reached END_OF_FILE within the fuel.
   */
  function ProgramLoop(st: PState, fuel: nat, acc: seq<Stmt>): (r: (seq<Stmt>, PState, bool))
    ensures acc <= r.0
    ensures r.2 <==> r.1.cur.kind == EndOfFile
    decreases fuel
  {
    if st.cur.kind == EndOfFile then (acc, st, true)
    else if fuel == 0 then (acc, st, false)
    else
      var (node, st1) := ParseTopLevelNode(st);
      var acc' := if node.Some? && node.value.StatementNode? then acc + [node.value.stmt] else acc;
      ProgramLoop(st1, fuel - 1, acc')
  }

  /** One round of the `parseProgram` loop, when it runs. */
  lemma ProgramLoopStep(st: PState, fuel: nat, acc: seq<Stmt>, node: Option<TopLevelNode>, st1: PState)
    requires st.cur.kind != EndOfFile && fuel > 0
    requires (node, st1) == ParseTopLevelNode(st)
    ensures ProgramLoop(st, fuel, acc)
         == ProgramLoop(st1, fuel - 1, if node.Some? && node.value.StatementNode? then acc + [node.value.stmt] else acc)
  {
  }

  /** The `parseProgram` loop has ended: at END_OF_FILE, or out of fuel. */
  lemma ProgramLoopDone(st: PState, fuel: nat, acc: seq<Stmt>)
    requires st.cur.kind == EndOfFile || fuel == 0
    ensures ProgramLoop(st, fuel, acc) == (acc, st, st.cur.kind == EndOfFile)
  {
  }

  // ---------------------------------------------------------------------
  // Properties of the parser

  /** A token kind with no prefix rule adds exactly one "no prefix parse function" error, yields nothing and moves no token. */
  lemma NoPrefixRuleIsOneError(st: PState, prec: Precedence)
    requires !HasPrefixRule(st.cur.kind)
    ensures var (e, st') := ParseExpression(st, prec);
      && e.None?
      && st'.errors == st.errors + [NoPrefixParseFn(st.cur.kind, st.cur.literal)]
      && st'.cur == st.cur && st'.peek == st.peek && st'.rest == st.rest
  {
  }

  /** Statement dispatch: PRINT gives a print statement, IDENTIFIER before ASSIGN an assignment to that identifier, anything else an expression statement. */
  lemma StatementDispatch(st: PState)
    ensures var (s, _) := ParseStatement(st);
      s.Some? ==>
        && (st.cur.kind == Print ==> s.value.PrintStatement?)
        && (st.cur.kind == Identifier && st.peek.kind == Assign ==>
              s.value.AssignmentStatement? && s.value.name == st.cur.literal)
        && (st.cur.kind != Print && !(st.cur.kind == Identifier && st.peek.kind == Assign) ==>
              s.value.ExpressionStatement?)
  {
  }

  // ---------------------------------------------------------------------
  // Single steps of the expression parser

  /** `nextToken` when the lexer's next token is not a comment: a plain shift by one. */
  lemma NextTokenShifts(st: PState)
    requires st.rest != [] && !IsComment(st.rest[0].kind)
    ensures NextToken(st) == PState(st.rest[1..], st.peek, st.rest[0], st.errors)
  {
  }

  /**
   * The refill of `peek` skips the first `k` tokens, all comments, and
   * delivers the token after them, or END_OF_FILE when only comments were left.
   */
  lemma {:induction false} PullSkipsOnlyComments(rest: seq<Token>) returns (k: nat)
    ensures k <= |rest|
    ensures forall i :: 0 <= i < k ==> IsComment(rest[i].kind)
    ensures k < |rest| ==> !IsComment(rest[k].kind) && PullNonComment(rest) == (rest[k], rest[k + 1..])
    ensures k == |rest| ==> PullNonComment(rest) == (EofToken, [])
    decreases |rest|
  {
    if rest == [] {
      k := 0;
    } else if IsComment(rest[0].kind) {
      var k' := PullSkipsOnlyComments(rest[1..]);
      k := k' + 1;
      assert forall i :: 1 <= i < k ==> rest[i] == rest[1..][i - 1];
      if k < |rest| {
        assert rest[1..][k'] == rest[k] && rest[1..][k' + 1..] == rest[k + 1..];
      }
    } else {
      k := 0;
    }
  }

  /**
   * `nextToken` in full: the old peek becomes current, and the new peek is
   * the first token after `k` skipped comments, or END_OF_FILE.
   */
  lemma NextTokenSkipsOnlyComments(st: PState) returns (k: nat)
    ensures k <= |st.rest|
    ensures forall i :: 0 <= i < k ==> IsComment(st.rest[i].kind)
    ensures NextToken(st).cur == st.peek && NextToken(st).errors == st.errors
    ensures k < |st.rest| ==>
      !IsComment(st.rest[k].kind) && NextToken(st).peek == st.rest[k] && NextToken(st).rest == st.rest[k + 1..]
    ensures k == |st.rest| ==> NextToken(st).peek == EofToken && NextToken(st).rest == []
  {
    k := PullSkipsOnlyComments(st.rest);
  }

  /** The constructor's two `nextToken` calls on tokens that start with two non-comments. */
  lemma InitShifts(tokens: seq<Token>)
    requires |tokens| >= 2 && !IsComment(tokens[0].kind) && !IsComment(tokens[1].kind)
    ensures Init(tokens) == PState(tokens[2..], tokens[0], tokens[1], [])
  {
    var st := PState(tokens, Token(Illegal, ""), Token(Illegal, ""), []);
    NextTokenShifts(st);
    NextTokenShifts(NextToken(st));
    assert tokens[1..][1..] == tokens[2..];
  }

  /** An integer operand: the prefix rule moves past the literal before the infix loop starts. */
  lemma IntegerOperand(st: PState, prec: Precedence)
    requires st.cur.kind == Int
    ensures ParseExpression(st, prec) == InfixLoop(NextToken(st), prec, IntegerLiteral(DecimalValue(st.cur.literal, 0), Int))
  {
  }

  /** The infix loop stops, keeping its operand, at `;` or at an operator that binds no tighter than `prec`. */
  lemma LoopStops(st: PState, prec: Precedence, left: Expr)
    requires st.peek.kind == Semicolon || PrecedenceOf(st.peek.kind) <= prec
    ensures InfixLoop(st, prec, left) == (Some(left), st)
  {
  }

  /**
   * The infix loop folds an operator that binds tighter than `prec`: the
   * right operand is parsed at the operator's own precedence, and the loop
   * goes on with the combined node.
   */
  lemma LoopFolds(st: PState, prec: Precedence, left: Expr, right: Expr, st': PState)
    requires st.peek.kind != Semicolon && prec < PrecedenceOf(st.peek.kind)
    requires ParseExpression(NextToken(NextToken(st)), PrecedenceOf(st.peek.kind)) == (Some(right), st')
    ensures InfixLoop(st, prec, left) == InfixLoop(st', prec, BinaryExpression(left, st.peek.kind, right, Unannotated))
  {
    PrecedenceTable(st.peek.kind);
  }

  // ---------------------------------------------------------------------
  // Grouping

  /**
   * `parseGroupedExpression` in full: when the inner expression is followed
   * by `)`, it is the result and `)` becomes current; without an inner
   * expression nothing is added; a missing `)` adds one mismatch error.
   */
  lemma GroupedExpressionCases(st: PState)
    requires st.cur.kind == LParen
    ensures var (e, st2) := ParseExpression(NextToken(st), Lowest);
      && (e.None? ==> ParseGroupedExpression(st) == (None, st2))
      && (e.Some? && st2.peek.kind == RParen ==>
            ParseGroupedExpression(st) == (e, NextToken(st2)) && NextToken(st2).cur.kind == RParen)
      && (e.Some? && st2.peek.kind != RParen ==>
            ParseGroupedExpression(st) == (None, st2.(errors := st2.errors + [PeekMismatch(RParen, st2.peek.kind, st2.peek.literal)])))
  {
  }

  function Id(name: string): Token { Token(Identifier, name) }
  function Var(name: string): Expr { IdentifierExpr(name, Unannotated) }
  function Bin(l: Expr, op: Kind, r: Expr): Expr { BinaryExpression(l, op, r, Unannotated) }
  const PlusTok: Token := Token(Plus, "+")
  const MinusTok: Token := Token(Minus, "-")
  const TimesTok: Token := Token(Asterisk, "*")
  const SemiTok: Token := Token(Semicolon, ";")
  const AssignTok: Token := Token(Assign, "=")
  const LParenTok: Token := Token(LParen, "(")
  const RParenTok: Token := Token(RParen, ")")

  /** The prefix rule of the current token yields the operand `x` and leaves the parser at `st'`. */
  predicate Operand(st: PState, x: Expr, st': PState) {
    HasPrefixRule(st.cur.kind) && ParsePrefix(st) == (Some(x), st')
  }

  /** The infix loop cannot go on from `st`: peek is `;` or a kind with no infix rule. */
  predicate AtEnd(st: PState) {
    st.peek.kind == Semicolon || !HasInfixRule(st.peek.kind)
  }

  /** The tree `x op1 y op2 z` gets from precedence climbing: to the right exactly when `op2` binds tighter than `op1`. */
  function PrecedenceTree(x: Expr, op1: Kind, y: Expr, op2: Kind, z: Expr): Expr {
    if PrecedenceOf(op1) < PrecedenceOf(op2) then Bin(x, op1, Bin(y, op2, z)) else Bin(Bin(x, op1, y), op2, z)
  }

  /** After an operand, `parseExpression` is the infix loop from where the prefix rule stopped. */
  lemma OperandThenLoop(st: PState, prec: Precedence, x: Expr, st': PState)
    requires Operand(st, x, st')
    ensures ParseExpression(st, prec) == InfixLoop(st', prec, x)
  {
  }

  /** An operand followed by the end of the expression is the whole expression, at any precedence. */
  lemma OperandAtEnd(st: PState, prec: Precedence, x: Expr, st': PState)
    requires Operand(st, x, st') && AtEnd(st')
    ensures ParseExpression(st, prec) == (Some(x), st')
  {
    OperandThenLoop(st, prec, x, st');
    PrecedenceTable(st'.peek.kind);
    LoopStops(st', prec, x);
  }

  /** An identifier is an operand that moves no token. */
  lemma IdentifierIsOperand(st: PState)
    requires st.cur.kind == Identifier
    ensures Operand(st, Var(st.cur.literal), st)
  {
  }

  /** A parenthesised expression is an operand: the inner expression, with the `)` current afterwards. */
  lemma GroupIsOperand(st: PState, x: Expr, st2: PState)
    requires st.cur.kind == LParen
    requires ParseExpression(NextToken(st), Lowest) == (Some(x), st2) && st2.peek.kind == RParen
    ensures Operand(st, x, NextToken(st2)) && NextToken(st2).cur.kind == RParen
  {
    GroupedExpressionCases(st);
  }

  /**
   * An operand, one operator that binds tighter than `prec`, and a right
   * side that ends the expression: the single node `x op y`.
   */
  lemma OneOperator(s0: PState, prec: Precedence, x: Expr, s1: PState, y: Expr, s2: PState)
    requires Operand(s0, x, s1) && HasInfixRule(s1.peek.kind) && prec < PrecedenceOf(s1.peek.kind)
    requires ParseExpression(NextToken(NextToken(s1)), PrecedenceOf(s1.peek.kind)) == (Some(y), s2)
    requires AtEnd(s2)
    ensures ParseExpression(s0, prec) == (Some(Bin(x, s1.peek.kind, y)), s2)
  {
    OperandThenLoop(s0, prec, x, s1);
    LoopFolds(s1, prec, x, y, s2);
    PrecedenceTable(s2.peek.kind);
    LoopStops(s2, prec, Bin(x, s1.peek.kind, y));
  }

  /**
   * Three operands with two operators between them, each operator reached
   * by two `nextToken` calls from the operand before it.
   */
  predicate TwoOperators(s0: PState, x: Expr, s1: PState, y: Expr, s2: PState, z: Expr, s3: PState) {
    && Operand(s0, x, s1) && HasInfixRule(s1.peek.kind)
    && Operand(NextToken(NextToken(s1)), y, s2) && HasInfixRule(s2.peek.kind)
    && Operand(NextToken(NextToken(s2)), z, s3) && AtEnd(s3)
  }

  /** When the second operator binds tighter, the right operand of the first is `y op2 z`. */
  lemma TighterOperatorGroupsRight(s0: PState, x: Expr, s1: PState, y: Expr, s2: PState, z: Expr, s3: PState)
    requires TwoOperators(s0, x, s1, y, s2, z, s3)
    requires PrecedenceOf(s1.peek.kind) < PrecedenceOf(s2.peek.kind)
    ensures ParseExpression(s0, Lowest) == (Some(Bin(x, s1.peek.kind, Bin(y, s2.peek.kind, z))), s3)
  {
    var p1, p2 := PrecedenceOf(s1.peek.kind), PrecedenceOf(s2.peek.kind);
    OperandAtEnd(NextToken(NextToken(s2)), p2, z, s3);
    OneOperator(NextToken(NextToken(s1)), p1, y, s2, z, s3);
    PrecedenceTable(s1.peek.kind);
    OneOperator(s0, Lowest, x, s1, Bin(y, s2.peek.kind, z), s3);
  }

  /** When the second operator binds no tighter, the first node `x op1 y` becomes its left operand. */
  lemma NoTighterOperatorGroupsLeft(s0: PState, x: Expr, s1: PState, y: Expr, s2: PState, z: Expr, s3: PState)
    requires TwoOperators(s0, x, s1, y, s2, z, s3)
    requires PrecedenceOf(s2.peek.kind) <= PrecedenceOf(s1.peek.kind)
    ensures ParseExpression(s0, Lowest) == (Some(Bin(Bin(x, s1.peek.kind, y), s2.peek.kind, z)), s3)
  {
    var p1, p2 := PrecedenceOf(s1.peek.kind), PrecedenceOf(s2.peek.kind);
    var left := Bin(x, s1.peek.kind, y);
    PrecedenceTable(s1.peek.kind);
    PrecedenceTable(s2.peek.kind);
    OperandThenLoop(NextToken(NextToken(s1)), p1, y, s2);
    LoopStops(s2, p1, y);
    OperandThenLoop(s0, Lowest, x, s1);
    LoopFolds(s1, Lowest, x, y, s2);
    OperandAtEnd(NextToken(NextToken(s2)), p2, z, s3);
    LoopFolds(s2, Lowest, left, z, s3);
    PrecedenceTable(s3.peek.kind);
    LoopStops(s3, Lowest, Bin(left, s2.peek.kind, z));
  }

  /** Two operators between three operands group as `PrecedenceTree` says, whatever the operands are. */
  lemma TwoOperatorsGroup(s0: PState, x: Expr, s1: PState, y: Expr, s2: PState, z: Expr, s3: PState)
    requires TwoOperators(s0, x, s1, y, s2, z, s3)
    ensures ParseExpression(s0, Lowest) == (Some(PrecedenceTree(x, s1.peek.kind, y, s2.peek.kind, z)), s3)
  {
    if PrecedenceOf(s1.peek.kind) < PrecedenceOf(s2.peek.kind) {
      TighterOperatorGroupsRight(s0, x, s1, y, s2, z, s3);
    } else {
      NoTighterOperatorGroupsLeft(s0, x, s1, y, s2, z, s3);
    }
  }

  /** `nextToken` on a state whose lexer has `ts[k..]` left, when `ts[k]` is not a comment. */
  lemma ShiftAt(ts: seq<Token>, k: nat, cur: Token, peek: Token)
    requires k < |ts| && !IsComment(ts[k].kind)
    ensures NextToken(PState(ts[k..], cur, peek, [])) == PState(ts[k + 1..], peek, ts[k], [])
  {
    NextTokenShifts(PState(ts[k..], cur, peek, []));
    assert ts[k..][1..] == ts[k + 1..];
  }

  /** Two `nextToken` calls past the non-comments `ts[k]` and `ts[k + 1]`: from an operand over an operator to the next operand. */
  lemma TwoShiftsAt(ts: seq<Token>, k: nat, cur: Token, peek: Token)
    requires k + 1 < |ts| && !IsComment(ts[k].kind) && !IsComment(ts[k + 1].kind)
    ensures NextToken(NextToken(PState(ts[k..], cur, peek, []))) == PState(ts[k + 2..], ts[k], ts[k + 1], [])
  {
    ShiftAt(ts, k, cur, peek);
    ShiftAt(ts, k + 1, peek, ts[k]);
  }

  /** The tokens `x op1 y op2 z ;`. */
  predicate ChainTokens(ts: seq<Token>, x: string, op1: Token, y: string, op2: Token, z: string) {
    && |ts| == 6 && ts[0] == Id(x) && ts[1] == op1 && ts[2] == Id(y)
    && ts[3] == op2 && ts[4] == Id(z) && ts[5] == SemiTok
  }

  /** On `x op1 y op2 z ;`: the constructor leaves `x` current, and each two tokens on is the next identifier. */
  lemma ChainStates(ts: seq<Token>, x: string, op1: Token, y: string, op2: Token, z: string)
    requires ChainTokens(ts, x, op1, y, op2, z) && HasInfixRule(op1.kind) && HasInfixRule(op2.kind)
    ensures Init(ts) == PState(ts[2..], Id(x), op1, [])
    ensures NextToken(NextToken(PState(ts[2..], Id(x), op1, []))) == PState(ts[4..], Id(y), op2, [])
    ensures NextToken(NextToken(PState(ts[4..], Id(y), op2, []))) == PState(ts[6..], Id(z), SemiTok, [])
  {
    InitShifts(ts);
    TwoShiftsAt(ts, 2, Id(x), op1);
    TwoShiftsAt(ts, 4, Id(y), op2);
  }

  /** `x op1 y op2 z ;` parses to the precedence-climbing tree, for any identifiers and infix operators. */
  lemma ChainGroups(ts: seq<Token>, x: string, op1: Token, y: string, op2: Token, z: string)
    requires ChainTokens(ts, x, op1, y, op2, z) && HasInfixRule(op1.kind) && HasInfixRule(op2.kind)
    ensures ParseExpression(Init(ts), Lowest).0 == Some(PrecedenceTree(Var(x), op1.kind, Var(y), op2.kind, Var(z)))
  {
    ChainStates(ts, x, op1, y, op2, z);
    var s1, s2, s3 := PState(ts[2..], Id(x), op1, []), PState(ts[4..], Id(y), op2, []), PState(ts[6..], Id(z), SemiTok, []);
    IdentifierIsOperand(s1);
    IdentifierIsOperand(s2);
    IdentifierIsOperand(s3);
    TwoOperatorsGroup(s1, Var(x), s1, Var(y), s2, Var(z), s3);
  }

  /** The tokens `( x ) op1 y op2 z ;`. */
  predicate GroupedFirstTokens(ts: seq<Token>, x: string, op1: Token, y: string, op2: Token, z: string) {
    && |ts| == 8 && ts[0] == LParenTok && ts[1] == Id(x) && ts[2] == RParenTok
    && ts[3] == op1 && ts[4] == Id(y) && ts[5] == op2 && ts[6] == Id(z) && ts[7] == SemiTok
  }

  /** On `( x ) op1 y op2 z ;`: `( x )` is an operand that leaves `)` current and `op1` as peek. */
  lemma GroupedFirstStates(ts: seq<Token>, x: string, op1: Token, y: string, op2: Token, z: string)
    requires GroupedFirstTokens(ts, x, op1, y, op2, z) && HasInfixRule(op1.kind)
    ensures Init(ts) == PState(ts[2..], LParenTok, Id(x), [])
    ensures Operand(PState(ts[2..], LParenTok, Id(x), []), Var(x), PState(ts[4..], RParenTok, op1, []))
  {
    InitShifts(ts);
    ShiftAt(ts, 2, LParenTok, Id(x));
    var g := PState(ts[3..], Id(x), RParenTok, []);
    IdentifierIsOperand(g);
    OperandAtEnd(g, Lowest, Var(x), g);
    GroupIsOperand(PState(ts[2..], LParenTok, Id(x), []), Var(x), g);
    ShiftAt(ts, 3, Id(x), RParenTok);
  }

  /** `( x ) op1 y op2 z ;` groups as `x op1 y op2 z ;` does: parentheses around one operand change nothing. */
  lemma GroupedFirstOperand(ts: seq<Token>, x: string, op1: Token, y: string, op2: Token, z: string)
    requires GroupedFirstTokens(ts, x, op1, y, op2, z) && HasInfixRule(op1.kind) && HasInfixRule(op2.kind)
    ensures ParseExpression(Init(ts), Lowest).0 == Some(PrecedenceTree(Var(x), op1.kind, Var(y), op2.kind, Var(z)))
  {
    GroupedFirstStates(ts, x, op1, y, op2, z);
    TwoShiftsAt(ts, 4, RParenTok, op1);
    TwoShiftsAt(ts, 6, Id(y), op2);
    var s2, s3 := PState(ts[6..], Id(y), op2, []), PState(ts[8..], Id(z), SemiTok, []);
    IdentifierIsOperand(s2);
    IdentifierIsOperand(s3);
    TwoOperatorsGroup(PState(ts[2..], LParenTok, Id(x), []), Var(x), PState(ts[4..], RParenTok, op1, []), Var(y), s2, Var(z), s3);
  }

  /** The tokens `x op1 ( y ) op2 z ;`. */
  predicate GroupedMiddleTokens(ts: seq<Token>, x: string, op1: Token, y: string, op2: Token, z: string) {
    && |ts| == 8 && ts[0] == Id(x) && ts[1] == op1 && ts[2] == LParenTok
    && ts[3] == Id(y) && ts[4] == RParenTok && ts[5] == op2 && ts[6] == Id(z) && ts[7] == SemiTok
  }

  /** On `x op1 ( y ) op2 z ;`: the constructor leaves `x` current, and two tokens on `(` is current. */
  lemma GroupedMiddleStates(ts: seq<Token>, x: string, op1: Token, y: string, op2: Token, z: string)
    requires GroupedMiddleTokens(ts, x, op1, y, op2, z) && HasInfixRule(op1.kind)
    ensures Init(ts) == PState(ts[2..], Id(x), op1, [])
    ensures NextToken(NextToken(PState(ts[2..], Id(x), op1, []))) == PState(ts[4..], LParenTok, Id(y), [])
  {
    InitShifts(ts);
    TwoShiftsAt(ts, 2, Id(x), op1);
  }

  /** The `( y )` of `x op1 ( y ) op2 z ;` is an operand that leaves `)` current and `op2` as peek. */
  lemma GroupedMiddleInner(ts: seq<Token>, x: string, op1: Token, y: string, op2: Token, z: string)
    requires GroupedMiddleTokens(ts, x, op1, y, op2, z) && HasInfixRule(op2.kind)
    ensures Operand(PState(ts[4..], LParenTok, Id(y), []), Var(y), PState(ts[6..], RParenTok, op2, []))
  {
    ShiftAt(ts, 4, LParenTok, Id(y));
    var g := PState(ts[5..], Id(y), RParenTok, []);
    IdentifierIsOperand(g);
    OperandAtEnd(g, Lowest, Var(y), g);
    GroupIsOperand(PState(ts[4..], LParenTok, Id(y), []), Var(y), g);
    ShiftAt(ts, 5, Id(y), RParenTok);
  }

  /** `x op1 ( y ) op2 z ;` groups as `x op1 y op2 z ;` does: the `)` is consumed before the second operator is seen. */
  lemma GroupedMiddleOperand(ts: seq<Token>, x: string, op1: Token, y: string, op2: Token, z: string)
    requires GroupedMiddleTokens(ts, x, op1, y, op2, z) && HasInfixRule(op1.kind) && HasInfixRule(op2.kind)
    ensures ParseExpression(Init(ts), Lowest).0 == Some(PrecedenceTree(Var(x), op1.kind, Var(y), op2.kind, Var(z)))
  {
    GroupedMiddleStates(ts, x, op1, y, op2, z);
    GroupedMiddleInner(ts, x, op1, y, op2, z);
    TwoShiftsAt(ts, 6, RParenTok, op2);
    var s1, s3 := PState(ts[2..], Id(x), op1, []), PState(ts[8..], Id(z), SemiTok, []);
    IdentifierIsOperand(s1);
    IdentifierIsOperand(s3);
    TwoOperatorsGroup(s1, Var(x), s1, Var(y), PState(ts[6..], RParenTok, op2, []), Var(z), s3);
  }

  /** The tokens `( x op1 y ) op2 z ;`. */
  predicate GroupedPairTokens(ts: seq<Token>, x: string, op1: Token, y: string, op2: Token, z: string) {
    && |ts| == 8 && ts[0] == LParenTok && ts[1] == Id(x) && ts[2] == op1
    && ts[3] == Id(y) && ts[4] == RParenTok && ts[5] == op2 && ts[6] == Id(z) && ts[7] == SemiTok
  }

  /** The inner `x op1 y )` of `( x op1 y ) op2 z ;`: one node, stopped by `)`. */
  lemma GroupedPairInner(ts: seq<Token>, x: string, op1: Token, y: string, op2: Token, z: string)
    requires GroupedPairTokens(ts, x, op1, y, op2, z) && HasInfixRule(op1.kind)
    ensures ParseExpression(PState(ts[3..], Id(x), op1, []), Lowest) == (Some(Bin(Var(x), op1.kind, Var(y))), PState(ts[5..], Id(y), RParenTok, []))
  {
    var u := PState(ts[3..], Id(x), op1, []);
    TwoShiftsAt(ts, 3, Id(x), op1);
    var v := PState(ts[5..], Id(y), RParenTok, []);
    IdentifierIsOperand(u);
    IdentifierIsOperand(v);
    OperandAtEnd(v, PrecedenceOf(op1.kind), Var(y), v);
    PrecedenceTable(op1.kind);
    OneOperator(u, Lowest, Var(x), u, Var(y), v);
  }

  /** On `( x op1 y ) op2 z ;`: the group is an operand that leaves `)` current and `op2` as peek. */
  lemma GroupedPairStates(ts: seq<Token>, x: string, op1: Token, y: string, op2: Token, z: string)
    requires GroupedPairTokens(ts, x, op1, y, op2, z) && HasInfixRule(op1.kind) && HasInfixRule(op2.kind)
    ensures Operand(PState(ts[2..], LParenTok, Id(x), []), Bin(Var(x), op1.kind, Var(y)), PState(ts[6..], RParenTok, op2, []))
  {
    ShiftAt(ts, 2, LParenTok, Id(x));
    GroupedPairInner(ts, x, op1, y, op2, z);
    GroupIsOperand(PState(ts[2..], LParenTok, Id(x), []), Bin(Var(x), op1.kind, Var(y)), PState(ts[5..], Id(y), RParenTok, []));
    ShiftAt(ts, 5, Id(y), RParenTok);
  }

  /** `( x op1 y ) op2 z ;` groups as `(x op1 y) op2 z` whatever the precedences: parentheses override them. */
  lemma GroupOverridesPrecedence(ts: seq<Token>, x: string, op1: Token, y: string, op2: Token, z: string)
    requires GroupedPairTokens(ts, x, op1, y, op2, z) && HasInfixRule(op1.kind) && HasInfixRule(op2.kind)
    ensures ParseExpression(Init(ts), Lowest).0 == Some(Bin(Bin(Var(x), op1.kind, Var(y)), op2.kind, Var(z)))
  {
    InitShifts(ts);
    GroupedPairStates(ts, x, op1, y, op2, z);
    TwoShiftsAt(ts, 6, RParenTok, op2);
    var s0, s1, s2 := PState(ts[2..], LParenTok, Id(x), []), PState(ts[6..], RParenTok, op2, []), PState(ts[8..], Id(z), SemiTok, []);
    IdentifierIsOperand(s2);
    OperandAtEnd(s2, PrecedenceOf(op2.kind), Var(z), s2);
    PrecedenceTable(op2.kind);
    OneOperator(s0, Lowest, Bin(Var(x), op1.kind, Var(y)), s1, Var(z), s2);
  }

  /** `a + b * c;` groups as `a + (b * c)`: the right side of `+` is parsed at SUM and takes in the tighter `*`. */
  lemma ProductBindsTighterThanSum(ts: seq<Token>, a: string, b: string, c: string)
    requires ChainTokens(ts, a, PlusTok, b, TimesTok, c)
    ensures ParseExpression(Init(ts), Lowest).0 == Some(Bin(Var(a), Plus, Bin(Var(b), Asterisk, Var(c))))
  {
    ChainGroups(ts, a, PlusTok, b, TimesTok, c);
  }

  /** ASSIGN is an infix operator that binds tightest: `a * b = c;` groups as `a * (b = c)`. */
  lemma AssignBindsTighterThanProduct(ts: seq<Token>, a: string, b: string, c: string)
    requires ChainTokens(ts, a, TimesTok, b, AssignTok, c)
    ensures ParseExpression(Init(ts), Lowest).0 == Some(Bin(Var(a), Asterisk, Bin(Var(b), Assign, Var(c))))
  {
    ChainGroups(ts, a, TimesTok, b, AssignTok, c);
  }

  /** `a - b - c;` groups as `(a - b) - c`: an operator of equal precedence does not bind tighter, so the loop folds left. */
  lemma SumAssociatesLeft(ts: seq<Token>, a: string, b: string, c: string)
    requires ChainTokens(ts, a, MinusTok, b, MinusTok, c)
    ensures ParseExpression(Init(ts), Lowest).0 == Some(Bin(Bin(Var(a), Minus, Var(b)), Minus, Var(c)))
  {
    ChainGroups(ts, a, MinusTok, b, MinusTok, c);
  }

  /** `(a) + b * c;` still groups as `a + (b * c)`. */
  lemma GroupedOperandBeforeSum(ts: seq<Token>, a: string, b: string, c: string)
    requires GroupedFirstTokens(ts, a, PlusTok, b, TimesTok, c)
    ensures ParseExpression(Init(ts), Lowest).0 == Some(Bin(Var(a), Plus, Bin(Var(b), Asterisk, Var(c))))
  {
    GroupedFirstOperand(ts, a, PlusTok, b, TimesTok, c);
  }

  /** `a - (b) - c;` still groups as `(a - b) - c`. */
  lemma GroupedOperandInDifference(ts: seq<Token>, a: string, b: string, c: string)
    requires GroupedMiddleTokens(ts, a, MinusTok, b, MinusTok, c)
    ensures ParseExpression(Init(ts), Lowest).0 == Some(Bin(Bin(Var(a), Minus, Var(b)), Minus, Var(c)))
  {
    GroupedMiddleOperand(ts, a, MinusTok, b, MinusTok, c);
  }

  /** `(a + b) * c;` groups as `(a + b) * c`, against the precedence of `*` over `+`. */
  lemma ParenthesisedSumTimes(ts: seq<Token>, a: string, b: string, c: string)
    requires GroupedPairTokens(ts, a, PlusTok, b, TimesTok, c)
    ensures ParseExpression(Init(ts), Lowest).0 == Some(Bin(Bin(Var(a), Plus, Var(b)), Asterisk, Var(c)))
  {
    GroupOverridesPrecedence(ts, a, PlusTok, b, TimesTok, c);
  }

  /** `( a ;` records one mismatch error (a `)` was expected, `;` came) and yields no expression. */
  lemma UnclosedGroupIsOneError()
    ensures var (e, st') := ParseExpression(Init([LParenTok, Id("a"), SemiTok]), Lowest);
      e.None? && st'.errors == [PeekMismatch(RParen, Semicolon, ";")]
  {
    var ts := [LParenTok, Id("a"), SemiTok];
    var st0 := PState([SemiTok], LParenTok, Id("a"), []);
    assert Init(ts) == st0 by {
      InitShifts(ts);
      assert ts[2..] == [SemiTok];
    }
    var st2 := PState([], Id("a"), SemiTok, [PeekMismatch(RParen, Semicolon, ";")]);
    UnclosedGroupFails();
    assert ParsePrefix(st0) == (None, st2);
  }

  /** The grouped-expression rule on `( a ;`: `a` is parsed, then `)` is expected where `;` is. */
  lemma UnclosedGroupFails()
    ensures ParseGroupedExpression(PState([SemiTok], LParenTok, Id("a"), []))
         == (None, PState([], Id("a"), SemiTok, [PeekMismatch(RParen, Semicolon, ";")]))
  {
    var st0 := PState([SemiTok], LParenTok, Id("a"), []);
    var st1 := PState([], Id("a"), SemiTok, []);
    NextTokenShifts(st0);
    IdentifierIsOperand(st1);
    OperandAtEnd(st1, Lowest, Var("a"), st1);
    assert ParseExpression(NextToken(st0), Lowest) == (Some(Var("a")), st1);
    GroupedExpressionCases(st0);
    assert st1.errors + [PeekMismatch(RParen, st1.peek.kind, st1.peek.literal)] == [PeekMismatch(RParen, Semicolon, ";")];
  }

  /**
   * A current token that no prefix rule accepts and that is not END_OF_FILE
   * stops `parseProgram` for good: each iteration adds one error and moves
   * no token, so the loop never ends.
   */
  lemma {:induction false} StuckWithoutPrefixRule(st: PState, fuel: nat, acc: seq<Stmt>)
    requires !HasPrefixRule(st.cur.kind) && st.cur.kind != EndOfFile
    requires !IsComment(st.cur.kind) && st.cur.kind != Print
    ensures var (stmts, st', finished) := ProgramLoop(st, fuel, acc);
      && !finished && stmts == acc
      && st'.cur == st.cur && st'.peek == st.peek && st'.rest == st.rest
      && |st'.errors| == |st.errors| + fuel
    decreases fuel
  {
    if fuel > 0 {
      var (node, st1) := ParseTopLevelNode(st);
      assert node.None? && st1 == st.(errors := st.errors + [NoPrefixParseFn(st.cur.kind, st.cur.literal)]);
      StuckWithoutPrefixRule(st1, fuel - 1, acc);
    }
  }

  /**
   * A comment as current token becomes a comment node that is dropped, and
   * the loop goes round without moving. No state built by `Init` and
   * `NextToken` reaches this case, since both keep comments out of `peek`,
   * and `cur` is always an earlier `peek`.
   */
  lemma CommentNodesAreDropped(st: PState, fuel: nat, acc: seq<Stmt>)
    requires IsComment(st.cur.kind) && fuel > 0
    ensures ProgramLoop(st, fuel, acc) == ProgramLoop(st, fuel - 1, acc)
  {
    assert st.cur.kind != EndOfFile;
  }

  /**
   * An integer literal moves past itself, so the infix loop then looks one
   * token too far: in `x = 1 + 2;` the value is just `1`, the current token
   * is left at `+`, and `parseProgram` never reaches END_OF_FILE.
   */
  lemma IntegerOperandStopsExpression(fuel: nat)
    ensures var (stmts, st', finished) := ProgramLoop(Init([Id("x"), AssignTok, Token(Int, "1"), PlusTok, Token(Int, "2"), SemiTok]), fuel + 1, []);
      && !finished
      && stmts == [AssignmentStatement("x", Unannotated, IntegerLiteral(1, Int))]
      && |st'.errors| == fuel
  {
    var two := Token(Int, "2");
    var ts := [Id("x"), AssignTok, Token(Int, "1"), PlusTok, two, SemiTok];
    InitShifts(ts);
    var st0 := PState([Token(Int, "1"), PlusTok, two, SemiTok], Id("x"), AssignTok, []);
    assert Init(ts) == st0 by { assert ts[2..] == st0.rest; }
    // `=` is expected and consumed: `1` becomes current, `+` peek
    var st1 := NextToken(st0);
    NextTokenShifts(st0);
    NextTokenShifts(st1);
    var st2 := PState([two, SemiTok], Token(Int, "1"), PlusTok, []);
    assert NextToken(st1) == st2;
    // the integer rule moves on, so the loop sees `2`, which binds no tighter than LOWEST
    var st3 := PState([SemiTok], PlusTok, two, []);
    NextTokenShifts(st2);
    assert NextToken(st2) == st3;
    var one := IntegerLiteral(1, Int);
    assert DecimalValue("1", 0) == 1;
    IntegerOperand(st2, Lowest);
    LoopStops(st3, Lowest, one);
    assert ParseExpression(st2, Lowest) == (Some(one), st3);
    var assign := AssignmentStatement("x", Unannotated, one);
    assert ParseTopLevelNode(st0) == (Some(StatementNode(assign)), st3) by {
      assert ExpectPeek(st0, Assign) == (true, st1);
      assert SkipOptionalSemicolon(st3) == st3;
      assert ParseAssignmentStatement(st0) == (Some(assign), st3);
    }
    assert ProgramLoop(st0, fuel + 1, []) == ProgramLoop(st3, fuel, [assign]) by {
      assert [] + [assign] == [assign];
    }
    StuckWithoutPrefixRule(st3, fuel, [assign]);
  }
}
