/**
 * The parser of the tiny print-only language (src/parser.cpp, src/ast.hpp).
 *
 * A program is exactly one `print "...";` statement followed by the
 * end-of-file token; anything else yields no statement. The class keeps
 * the index of the current token, as the source does, and never moves past
 * the end-of-file token.
 */
module TinyParsing {
  import opened Wrappers
  import opened TinyLexing

  /** `PrintStmt`: the text to print. */
  datatype PrintStmt = PrintStmt(value: string)

  /** The reports `error` prints, with the token they are about. */
  datatype ParseError =
    | EmptyProgram
    | ExpectedPrint(at: Token)
    | ExpectedString(at: Token)
    | ExpectedSemicolon(at: Token)
    | ExpectedEndOfFile(at: Token)

  /** What the parser relies on: the list ends with an end-of-file token, as `scanTokens` guarantees. */
  predicate Terminated(tokens: seq<Token>) {
    |tokens| > 0 && tokens[|tokens| - 1].tokenType == TokenEof
  }

  /** The statement the grammar admits at index `i`: `print`, a string literal, `;`. */
  predicate PrintStatementAt(tokens: seq<Token>, i: nat) {
    && i + 2 < |tokens|
    && tokens[i].tokenType == TokenKeywordPrint
    && tokens[i + 1].tokenType == TokenStringLiteral
    && tokens[i + 2].tokenType == TokenSemicolon
  }

  /** The only programs accepted: that statement, then the end of the file. */
  predicate Accepted(tokens: seq<Token>) {
    PrintStatementAt(tokens, 0) && 3 < |tokens| && tokens[3].tokenType == TokenEof
  }

  class Parser {
    const tokens: seq<Token>
    var current: nat
    var errors: seq<ParseError>

    /** The index stays on or before the first end-of-file token. */
    ghost predicate Valid()
      reads this
    {
      && Terminated(tokens)
      && current < |tokens|
      && (forall j :: 0 <= j < current ==> tokens[j].tokenType != TokenEof)
    }

    /** `Parser(tokens)`: at the first token. */
    constructor (tokens: seq<Token>)
      requires Terminated(tokens)
      ensures Valid() && this.tokens == tokens && current == 0 && errors == []
    {
      this.tokens := tokens;
      current := 0;
      errors := [];
    }

    /**
     * `parse`: one print statement and then the end of the file, or nothing.
     * A rejected program always leaves at least one report.
     */
    method Parse() returns (stmt: Option<PrintStmt>)
      modifies this
      requires Valid()
      ensures Valid()
      ensures stmt.Some? <==> Accepted(tokens[old(current)..])
      ensures stmt.Some? ==> stmt.value == PrintStmt(tokens[old(current) + 1].literal) && errors == old(errors)
      ensures stmt.None? ==> |errors| > |old(errors)| && errors[..|old(errors)|] == old(errors)
      ensures tokens[old(current)].tokenType == TokenEof ==> stmt.None? && errors == old(errors) + [EmptyProgram]
    {
      if IsAtEnd() || Peek().tokenType == TokenEof {
        Error(EmptyProgram);
        return None;
      }
      ghost var c0 := current;
      var s := Statement();
      if Peek().tokenType != TokenEof {
        Error(ExpectedEndOfFile(Peek()));
        return None;
      }
      stmt := s;
      if s.Some? {
        assert tokens[c0..][3] == tokens[c0 + 3];
      }
    }

    /** `statement`: only a print statement is recognised. */
    method Statement() returns (stmt: Option<PrintStmt>)
      modifies this
      requires Valid()
      ensures Valid() && current >= old(current)
      ensures stmt.Some? <==> PrintStatementAt(tokens, old(current))
      ensures stmt.Some? ==> stmt.value == PrintStmt(tokens[old(current) + 1].literal) && current == old(current) + 3 && errors == old(errors)
      ensures stmt.None? ==> |errors| == |old(errors)| + 1 && errors[..|old(errors)|] == old(errors)
    {
      var isPrint := Match(TokenKeywordPrint);
      if isPrint {
        stmt := PrintStatement();
        return;
      }
      Error(ExpectedPrint(Peek()));
      return None;
    }

    /** `printStatement`: after `print`, a string literal and `;`. */
    method PrintStatement() returns (stmt: Option<PrintStmt>)
      modifies this
      requires Valid() && current > 0 && tokens[current - 1].tokenType == TokenKeywordPrint
      ensures Valid() && current >= old(current)
      ensures stmt.Some? <==>
        (old(current) + 1 < |tokens| && tokens[old(current)].tokenType == TokenStringLiteral && tokens[old(current) + 1].tokenType == TokenSemicolon)
      ensures stmt.Some? ==> stmt.value == PrintStmt(tokens[old(current)].literal) && current == old(current) + 2 && errors == old(errors)
      ensures stmt.None? ==> |errors| == |old(errors)| + 1 && errors[..|old(errors)|] == old(errors)
    {
      if !Check(TokenStringLiteral) {
        Error(ExpectedString(Peek()));
        return None;
      }
      var stringToken := Advance();
      var isSemicolon := Match(TokenSemicolon);
      if !isSemicolon {
        Error(ExpectedSemicolon(Peek()));
        return None;
      }
      return Some(PrintStmt(stringToken.literal));
    }

    /** `advance`: step over the current token unless it is the end of the file, and return the token just passed. */
    method Advance() returns (t: Token)
      modifies this
      requires Valid() && (current > 0 || !IsAtEnd())
      ensures Valid() && errors == old(errors)
      ensures old(IsAtEnd()) ==> current == old(current)
      ensures !old(IsAtEnd()) ==> current == old(current) + 1
      ensures current > 0 && t == tokens[current - 1]
    {
      if !IsAtEnd() {
        current := current + 1;
      }
      return Previous();
    }

    /** `peek`. */
    function Peek(): (t: Token)
      reads this
      requires Valid()
      ensures t == tokens[current]
    {
      tokens[current]
    }

    /** `previous`. */
    function Previous(): (t: Token)
      reads this
      requires Valid() && current > 0
      ensures t == tokens[current - 1]
    {
      tokens[current - 1]
    }

    /** `isAtEnd`: the current token is the end of the file, which is never followed by more parsing. */
    function IsAtEnd(): (b: bool)
      reads this
      requires Valid()
      ensures b <==> tokens[current].tokenType == TokenEof
      ensures !b ==> current + 1 < |tokens|
    {
      Peek().tokenType == TokenEof
    }

    /** `check`: the current token has the kind, and it is not the end of the file. */
    function Check(tokenType: TokenType): (b: bool)
      reads this
      requires Valid()
      ensures b <==> tokens[current].tokenType == tokenType && tokenType != TokenEof
    {
      if IsAtEnd() then false else Peek().tokenType == tokenType
    }

    /** `match`: consume one token exactly when `check` holds. */
    method Match(tokenType: TokenType) returns (b: bool)
      modifies this
      requires Valid()
      ensures Valid() && errors == old(errors)
      ensures b <==> old(tokens[current].tokenType) == tokenType && tokenType != TokenEof
      ensures b ==> current == old(current) + 1
      ensures !b ==> current == old(current)
    {
      if !Check(tokenType) {
        return false;
      }
      var _ := Advance();
      return true;
    }

    /** `error`: the report, kept in order. */
    method Error(err: ParseError)
      modifies this
      ensures errors == old(errors) + [err] && current == old(current)
    {
      errors := errors + [err];
    }
  }

  // ---------------------------------------------------------------------
  // From text to statement

  /**
   * `print "<text>";` for a text without quotes scans to exactly the token
   * list the parser accepts, and the string token carries the text.
   */
  lemma PrintProgramIsAccepted(text: string)
    requires forall k :: 0 <= k < |text| ==> text[k] != '"'
    ensures var tokens := Scanned("print \"" + text + "\";", Initial);
      Accepted(tokens) && tokens[1].literal == text && |tokens| == 4
  {
    var source := "print \"" + text + "\";";
    assert source[..7] == "print \"";
    var s2 := PrintWordScans(source);
    StringAndSemicolonScan(source, text, s2);
    var r := ScanRest(source, s2);
    var tokens := Scanned(source, Initial);
    assert tokens == r.tokens + [Token(TokenEof, "", "", r.line, r.current)];
  }

  /** `print` and the blank after it: one keyword token, and the index at 6. */
  lemma PrintWordScans(source: string) returns (s2: Scan)
    requires |source| > 7 && source[..7] == "print \""
    ensures && s2.current == 6 && |s2.tokens| == 1 && s2.tokens[0].tokenType == TokenKeywordPrint
      && ScanRest(source, Initial) == ScanRest(source, s2)
  {
    assert source[0..5] == "print" && source[5] == ' ' && source[6] == '"';
    assert WordEnd(source, 1) == 5 by {
      assert source[1] == 'r' && source[2] == 'i' && source[3] == 'n' && source[4] == 't';
    }
    WordToken(source, Initial);
    var s1 := ScanOne(source, Initial);
    assert s1.current == 5 && |s1.tokens| == 1 && s1.tokens[0].tokenType == TokenKeywordPrint;
    BlanksAreSkipped(source, s1);
    s2 := ScanOne(source, s1);
  }

  /** From index 6 of `print "text";`: the string token carrying `text`, then `;`, then the end. */
  lemma StringAndSemicolonScan(source: string, text: string, s2: Scan)
    requires source == "print \"" + text + "\";"
    requires forall k :: 0 <= k < |text| ==> text[k] != '"'
    requires s2.current == 6
    ensures var r := ScanRest(source, s2);
      && |r.tokens| == |s2.tokens| + 2 && r.tokens[..|s2.tokens|] == s2.tokens
      && r.tokens[|s2.tokens|].tokenType == TokenStringLiteral && r.tokens[|s2.tokens|].literal == text
      && r.tokens[|s2.tokens| + 1].tokenType == TokenSemicolon
  {
    var q := 7 + |text|;
    assert |source| == q + 2;
    assert source[6] == '"' && source[7..q] == text && source[q] == '"' && source[q + 1] == ';';
    forall k | 6 < k < q
      ensures source[k] != '"'
    {
      assert source[k] == text[k - 7];
    }
    StringToken(source, s2, q);
    var s3 := ScanOne(source, s2);
    assert s3.tokens[|s2.tokens|].literal == text;
    SemicolonToken(source, s3);
    var s4 := ScanOne(source, s3);
    assert ScanRest(source, s4) == s4;
    assert s4.tokens == s3.tokens + [s4.tokens[|s3.tokens|]];
  }

}
