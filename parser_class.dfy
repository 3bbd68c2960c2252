/**
 * The `Parser` class of src/Parser.cpp: the two lookahead tokens and the
 * error list are fields updated in place, the lexer is a token sequence
 * read through a cursor, and the infix loop of `parseExpression` and the
 * loop of `parseProgram` are `while` loops. Every method is proved to
 * compute the function of the same name in module `Parsing`.
 */
module PrattParser {
  import opened Wrappers
  import opened Tokens
  import opened Ast
  import opened Parsing

  class Parser {
    /** What the lexer will deliver, in order. */
    const tokens: seq<Token>
    /** How many of `tokens` the lexer has delivered. */
    var next: nat
    var currentToken: Token
    var peekToken: Token
    var errors: seq<ParseError>

    ghost predicate Valid()
      reads this
    {
      next <= |tokens|
    }

    /** The abstract state the functions of `Parsing` work on. */
    ghost function State(): PState
      reads this
      requires Valid()
    {
      PState(tokens[next..], currentToken, peekToken, errors)
    }

    /** `Parser(Lexer&)`: both lookahead tokens start empty and two `nextToken` calls fill them. */
    constructor (tokens: seq<Token>)
      ensures Valid() && State() == Init(tokens)
    {
      this.tokens := tokens;
      next := 0;
      currentToken := Token(Illegal, "");
      peekToken := Token(Illegal, "");
      errors := [];
      new;
      NextToken();
      NextToken();
    }

    /** One `lexer_.nextToken()` call. */
    method Lex() returns (t: Token)
      modifies this
      requires Valid()
      ensures Valid()
      ensures (t, tokens[next..]) == Pull(old(tokens[next..]))
      ensures currentToken == old(currentToken) && peekToken == old(peekToken) && errors == old(errors)
    {
      if next == |tokens| {
        t := EofToken;
      } else {
        t := tokens[next];
        next := next + 1;
      }
    }

    /** `nextToken`: shift peek into current and refill peek, skipping comment tokens. */
    method NextToken()
      modifies this
      requires Valid()
      ensures Valid() && State() == Parsing.NextToken(old(State()))
    {
      currentToken := peekToken;
      peekToken := Lex();
      while IsComment(peekToken.kind)
        invariant Valid()
        invariant currentToken == old(peekToken) && errors == old(errors)
        invariant PullNonComment(old(tokens[next..]))
               == if IsComment(peekToken.kind) then PullNonComment(tokens[next..]) else (peekToken, tokens[next..])
        decreases |tokens| - next + (if IsComment(peekToken.kind) then 1 else 0)
      {
        peekToken := Lex();
      }
    }

    /** `expectPeek`. */
    method ExpectPeek(k: Kind) returns (ok: bool)
      modifies this
      requires Valid()
      ensures Valid() && (ok, State()) == Parsing.ExpectPeek(old(State()), k)
    {
      if peekToken.kind == k {
        NextToken();
        return true;
      } else {
        errors := errors + [PeekMismatch(k, peekToken.kind, peekToken.literal)];
        return false;
      }
    }

    /** `parseExpression`. */
    method ParseExpression(prec: Precedence) returns (e: Option<Expr>)
      modifies this
      requires Valid()
      ensures Valid() && (e, State()) == Parsing.ParseExpression(old(State()), prec)
      decreases Weight(State()), 3
    {
      if !HasPrefixRule(currentToken.kind) {
        errors := errors + [NoPrefixParseFn(currentToken.kind, currentToken.literal)];
        return None;
      }
      var prefix := ParsePrefix();
      if prefix.None? {
        return None;
      }
      var left := prefix.value;
      while peekToken.kind != Semicolon && prec < PrecedenceOf(peekToken.kind)
        invariant Valid()
        invariant Weight(State()) <= Weight(old(State()))
        invariant Parsing.ParseExpression(old(State()), prec) == InfixLoop(State(), prec, left)
        decreases Weight(State())
      {
        if !HasInfixRule(peekToken.kind) {
          assert false;
          return Some(left);
        }
        NextToken();
        var combined := ParseInfixExpression(left);
        if combined.None? {
          return None;
        }
        left := combined.value;
      }
      return Some(left);
    }

    /** The lookup in `prefixParseFns` and the call of the rule found. */
    method ParsePrefix() returns (e: Option<Expr>)
      modifies this
      requires Valid() && HasPrefixRule(currentToken.kind)
      ensures Valid() && (e, State()) == Parsing.ParsePrefix(old(State()))
      decreases Weight(State()), 2
    {
      match currentToken.kind {
        case Int => e := ParseIntegerLiteral();
        case Identifier => e := ParseIdentifier();
        case LParen => e := ParseGroupedExpression();
        case True => e := ParseBooleanLiteral();
        case False => e := ParseBooleanLiteral();
        case String => e := ParseStringLiteral();
        case Char => e := ParseCharLiteral();
      }
    }

    /** `parseIntegerLiteral`. */
    method ParseIntegerLiteral() returns (e: Option<Expr>)
      modifies this
      requires Valid()
      ensures Valid() && (e, State()) == Parsing.ParseIntegerLiteral(old(State()))
    {
      e := Some(IntegerLiteral(DecimalValue(currentToken.literal, 0), currentToken.kind));
      NextToken();
    }

    /** `parseIdentifier`. */
    method ParseIdentifier() returns (e: Option<Expr>)
      requires Valid()
      ensures (e, State()) == Parsing.ParseIdentifier(State())
    {
      e := Some(IdentifierExpr(currentToken.literal, Unannotated));
    }

    /** `parseBooleanLiteral`. */
    method ParseBooleanLiteral() returns (e: Option<Expr>)
      modifies this
      requires Valid()
      ensures Valid() && (e, State()) == Parsing.ParseBooleanLiteral(old(State()))
    {
      e := Some(BooleanLiteral(currentToken.kind == True, Bool));
      NextToken();
    }

    /** `parseStringLiteral`. */
    method ParseStringLiteral() returns (e: Option<Expr>)
      modifies this
      requires Valid()
      ensures Valid() && (e, State()) == Parsing.ParseStringLiteral(old(State()))
    {
      e := Some(StringLiteral(currentToken.literal, String));
      NextToken();
    }

    /** `parseCharLiteral`. */
    method ParseCharLiteral() returns (e: Option<Expr>)
      modifies this
      requires Valid()
      ensures Valid() && (e, State()) == Parsing.ParseCharLiteral(old(State()))
    {
      var c := if currentToken.literal == [] then 0 as char else currentToken.literal[0];
      e := Some(CharLiteral(c, Char));
      NextToken();
    }

    /** `parseGroupedExpression`. */
    method ParseGroupedExpression() returns (e: Option<Expr>)
      modifies this
      requires Valid() && currentToken.kind == LParen
      ensures Valid() && (e, State()) == Parsing.ParseGroupedExpression(old(State()))
      decreases Weight(State()), 1
    {
      NextToken();
      e := ParseExpression(Lowest);
      if e.None? {
        return None;
      }
      var ok := ExpectPeek(RParen);
      if !ok {
        return None;
      }
    }

    /** `parseInfixExpression`: the operator is the current token. */
    method ParseInfixExpression(left: Expr) returns (e: Option<Expr>)
      modifies this
      requires Valid() && HasInfixRule(currentToken.kind)
      ensures Valid() && (e, State()) == Parsing.ParseInfixExpression(old(State()), left)
      decreases Weight(State()), 1
    {
      var op := currentToken.kind;
      var prec := PrecedenceOf(op);
      NextToken();
      var right := ParseExpression(prec);
      if right.None? {
        return None;
      }
      e := Some(BinaryExpression(left, op, right.value, Unannotated));
    }

    /** The `if (peekTokenIs(SEMICOLON)) nextToken();` that ends each statement. */
    method SkipOptionalSemicolon()
      modifies this
      requires Valid()
      ensures Valid() && State() == Parsing.SkipOptionalSemicolon(old(State()))
    {
      if peekToken.kind == Semicolon {
        NextToken();
      }
    }

    /** `parseExpressionStatement`. */
    method ParseExpressionStatement() returns (s: Option<Stmt>)
      modifies this
      requires Valid()
      ensures Valid() && (s, State()) == Parsing.ParseExpressionStatement(old(State()))
    {
      var e := ParseExpression(Lowest);
      if e.None? {
        return None;
      }
      SkipOptionalSemicolon();
      s := Some(ExpressionStatement(e.value));
    }

    /** `parsePrintStatement`. */
    method ParsePrintStatement() returns (s: Option<Stmt>)
      modifies this
      requires Valid()
      ensures Valid() && (s, State()) == Parsing.ParsePrintStatement(old(State()))
    {
      NextToken();
      var e := ParseExpression(Lowest);
      if e.None? {
        return None;
      }
      SkipOptionalSemicolon();
      s := Some(PrintStatement(e.value));
    }

    /** `parseAssignmentStatement`. */
    method ParseAssignmentStatement() returns (s: Option<Stmt>)
      modifies this
      requires Valid()
      ensures Valid() && (s, State()) == Parsing.ParseAssignmentStatement(old(State()))
    {
      var name := currentToken.literal;
      var ok := ExpectPeek(Assign);
      if !ok {
        return None;
      }
      NextToken();
      var v := ParseExpression(Lowest);
      if v.None? {
        return None;
      }
      SkipOptionalSemicolon();
      s := Some(AssignmentStatement(name, Unannotated, v.value));
    }

    /** `parseStatement`. */
    method ParseStatement() returns (s: Option<Stmt>)
      modifies this
      requires Valid()
      ensures Valid() && (s, State()) == Parsing.ParseStatement(old(State()))
    {
      if currentToken.kind == Print {
        s := ParsePrintStatement();
      } else if currentToken.kind == Identifier && peekToken.kind == Assign {
        s := ParseAssignmentStatement();
      } else {
        s := ParseExpressionStatement();
      }
    }

    /** `parseTopLevelNode`. */
    method ParseTopLevelNode() returns (node: Option<TopLevelNode>)
      modifies this
      requires Valid()
      ensures Valid() && (node, State()) == Parsing.ParseTopLevelNode(old(State()))
    {
      if IsComment(currentToken.kind) {
        return Some(CommentNode(currentToken));
      }
      var s := ParseStatement();
      node := if s.Some? then Some(StatementNode(s.value)) else None;
    }

    /** One round of the `parseProgram` loop: a top-level node, kept when it is a statement. */
    method ProgramRound(remaining: nat, statements: seq<Stmt>) returns (statements': seq<Stmt>)
      modifies this
      requires Valid() && currentToken.kind != EndOfFile && remaining > 0
      ensures Valid() && ProgramLoop(old(State()), remaining, statements) == ProgramLoop(State(), remaining - 1, statements')
    {
      ghost var st := State();
      var node := ParseTopLevelNode();
      ProgramLoopStep(st, remaining, statements, node, State());
      statements' := if node.Some? && node.value.StatementNode? then statements + [node.value.stmt] else statements;
    }

    /**
     * `parseProgram`, run for at most `fuel` iterations of its loop;
     * `finished` tells whether the loop reached END_OF_FILE.
     */
    method ParseProgram(fuel: nat) returns (program: Program, finished: bool)
      modifies this
      requires Valid()
      ensures Valid() && (program.statements, State(), finished) == ProgramLoop(old(State()), fuel, [])
    {
      var statements: seq<Stmt> := [];
      var remaining: nat := fuel;
      ghost var outcome := ProgramLoop(State(), fuel, []);
      while currentToken.kind != EndOfFile && remaining > 0
        invariant Valid()
        invariant remaining <= fuel
        invariant outcome == ProgramLoop(State(), remaining, statements)
      {
        statements := ProgramRound(remaining, statements);
        remaining := remaining - 1;
      }
      ProgramLoopDone(State(), remaining, statements);
      program := Program(statements);
      finished := currentToken.kind == EndOfFile;
    }
  }
}
