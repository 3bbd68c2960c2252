/**
 * The scanner of the tiny print-only language (src/lexer.cpp, src/token.hpp).
 *
 * It recognises `;`, double-quoted strings and the word `print`; blanks are
 * skipped, and anything else is reported and dropped. `ScanOne` says what
 * one `scanToken` does to the scanner's state, `Scanned` what `scanTokens`
 * returns, and the class `Lexer` is proved to follow them.
 */
module TinyLexing {

  datatype TokenType = TokenKeywordPrint | TokenStringLiteral | TokenSemicolon | TokenEof | TokenError

  datatype Token = Token(tokenType: TokenType, lexeme: string, literal: string, line: int, column: int)

  /** The reports `error` prints; the scanner goes on after each. */
  datatype LexError =
    | UnexpectedCharacter(c: char)
    | NumbersUnsupported
    | UnterminatedString
    | UnknownWord(text: string)

  /** `isalpha`, `isdigit` and `isalnum` in the "C" locale. */
  predicate IsAlpha(c: char) {
    ('a' <= c <= 'z') || ('A' <= c <= 'Z')
  }

  predicate IsDigit(c: char) {
    '0' <= c <= '9'
  }

  predicate IsAlnum(c: char) {
    IsAlpha(c) || IsDigit(c)
  }

  /** The scanner's state between two `scanToken` calls. */
  datatype Scan = Scan(current: nat, line: nat, column: nat, tokens: seq<Token>, errors: seq<LexError>)

  const Initial := Scan(0, 1, 1, [], [])

  /** Where the alphanumeric run starting at `i` ends. */
  function WordEnd(source: string, i: nat): (j: nat)
    requires i <= |source|
    ensures i <= j <= |source|
    ensures forall k :: i <= k < j ==> IsAlnum(source[k])
    ensures j == |source| || !IsAlnum(source[j])
    decreases |source| - i
  {
    if i == |source| || !IsAlnum(source[i]) then i else WordEnd(source, i + 1)
  }

  /**
   * The loop of `string`: the index of the closing quote (or the end of the
   * source) together with the line and column reached. A newline sets the
   * line forward and the column to 1 before the character is consumed.
   */
  function StringBody(source: string, i: nat, line: nat, column: nat): (r: (nat, nat, nat))
    requires i <= |source|
    ensures i <= r.0 <= |source|
    ensures r.0 < |source| ==> source[r.0] == '"'
    ensures forall k :: i <= k < r.0 ==> source[k] != '"'
    decreases |source| - i
  {
    if i == |source| || source[i] == '"' then (i, line, column)
    else if source[i] == '\n' then StringBody(source, i + 1, line + 1, 2)
    else StringBody(source, i + 1, line, column + 1)
  }

  /** The token `addToken` builds once the lexeme `source[start..end]` is consumed. */
  function MakeToken(source: string, start: nat, end: nat, tokenType: TokenType, literal: string, line: nat, column: nat): (t: Token)
    requires start <= end <= |source|
    ensures t.tokenType == tokenType && t.lexeme == source[start..end] && t.literal == literal && t.line == line
  {
    Token(tokenType, source[start..end], literal, line, column - (end - start))
  }

  /**
   * `scanToken`: consume one character and whatever it starts. At most one
   * token is added, never an end-of-file token, and at least one character
   * is consumed.
   */
  function ScanOne(source: string, s: Scan): (r: Scan)
    requires s.current < |source|
    ensures s.current < r.current <= |source|
    ensures r.tokens == s.tokens || (|r.tokens| == |s.tokens| + 1 && r.tokens[..|s.tokens|] == s.tokens && r.tokens[|s.tokens|].tokenType != TokenEof)
    ensures |s.errors| <= |r.errors| <= |s.errors| + 1 && r.errors[..|s.errors|] == s.errors
  {
    var start := s.current;
    var c := source[start];
    var cur := start + 1;
    var col := s.column + 1;
    if c == ';' then
      s.(current := cur, column := col, tokens := s.tokens + [MakeToken(source, start, cur, TokenSemicolon, "", s.line, col)])
    else if c == '"' then
      var (j, line', col') := StringBody(source, cur, s.line, col);
      if j == |source| then
        s.(current := j, line := line', column := col', errors := s.errors + [UnterminatedString])
      else
        var end := j + 1;
        s.(current := end, line := line', column := col' + 1,
           tokens := s.tokens + [MakeToken(source, start, end, TokenStringLiteral, source[start + 1..end - 1], line', col' + 1)])
    else if c == ' ' || c == '\r' || c == '\t' then
      s.(current := cur, column := col)
    else if c == '\n' then
      s.(current := cur, line := s.line + 1, column := 1)
    else if IsAlpha(c) then
      var end := WordEnd(source, cur);
      var col' := col + (end - cur);
      var text := source[start..end];
      if text == "print" then
        s.(current := end, column := col', tokens := s.tokens + [MakeToken(source, start, end, TokenKeywordPrint, "", s.line, col')])
      else
        s.(current := end, column := col', errors := s.errors + [UnknownWord(text)])
    else if IsDigit(c) then
      s.(current := cur, column := col, errors := s.errors + [NumbersUnsupported])
    else
      s.(current := cur, column := col, errors := s.errors + [UnexpectedCharacter(c)])
  }

  /** The loop of `scanTokens`: `scanToken` until the source is used up. */
  function ScanRest(source: string, s: Scan): (r: Scan)
    requires s.current <= |source|
    ensures r.current == |source|
    decreases |source| - s.current
  {
    if s.current == |source| then s else ScanRest(source, ScanOne(source, s))
  }

  /** `scanTokens` from a given state: the tokens scanned, then one end-of-file token carrying the line and the index reached. */
  function Scanned(source: string, s: Scan): seq<Token>
    requires s.current <= |source|
  {
    var r := ScanRest(source, s);
    r.tokens + [Token(TokenEof, "", "", r.line, r.current)]
  }

  // ---------------------------------------------------------------------
  // Properties

  predicate NoEof(tokens: seq<Token>) {
    forall i :: 0 <= i < |tokens| ==> tokens[i].tokenType != TokenEof
  }

  /** A fresh scanner returns the tokens it found followed by exactly one end-of-file token, which is last. */
  lemma ScannedEndsWithOneEof(source: string)
    ensures var ts := Scanned(source, Initial);
      |ts| >= 1 && ts[|ts| - 1].tokenType == TokenEof && NoEof(ts[..|ts| - 1])
  {
    ScanRestAddsNoEof(source, Initial);
    var r := ScanRest(source, Initial);
    assert Scanned(source, Initial)[..|r.tokens|] == r.tokens;
  }

  lemma {:induction false} ScanRestAddsNoEof(source: string, s: Scan)
    requires s.current <= |source| && NoEof(s.tokens)
    ensures NoEof(ScanRest(source, s).tokens)
    decreases |source| - s.current
  {
    if s.current < |source| {
      var s' := ScanOne(source, s);
      if s'.tokens != s.tokens {
        assert forall i :: 0 <= i < |s.tokens| ==> s'.tokens[i] == s.tokens[i];
      }
      ScanRestAddsNoEof(source, s');
    }
  }

  /** `;` is one semicolon token whose lexeme is `;`, placed at the column it starts in. */
  lemma SemicolonToken(source: string, s: Scan)
    requires s.current < |source| && source[s.current] == ';'
    ensures ScanOne(source, s) == s.(current := s.current + 1, column := s.column + 1,
      tokens := s.tokens + [Token(TokenSemicolon, ";", "", s.line, s.column)])
  {
    assert source[s.current..s.current + 1] == ";";
  }

  /** Blanks add no token and no error; a newline moves to column 1 of the next line. */
  lemma BlanksAreSkipped(source: string, s: Scan)
    requires s.current < |source|
    requires source[s.current] in {' ', '\r', '\t', '\n'}
    ensures var r := ScanOne(source, s);
      && r.tokens == s.tokens && r.errors == s.errors && r.current == s.current + 1
      && (source[s.current] == '\n' ==> r.line == s.line + 1 && r.column == 1)
      && (source[s.current] != '\n' ==> r.line == s.line && r.column == s.column + 1)
  {
  }

  /** The number of newlines in a piece of text. */
  function Newlines(text: string): nat {
    if text == [] then 0 else (if text[0] == '\n' then 1 else 0) + Newlines(text[1..])
  }

  lemma {:induction false} NewlinesSnoc(text: string, c: char)
    ensures Newlines(text + [c]) == Newlines(text) + (if c == '\n' then 1 else 0)
    decreases |text|
  {
    if text == [] {
      assert text + [c] == [c];
    } else {
      assert (text + [c])[1..] == text[1..] + [c];
      NewlinesSnoc(text[1..], c);
    }
  }

  /** The loop of `string` counts every newline it passes. */
  lemma {:induction false} StringBodyCountsNewlines(source: string, i: nat, line: nat, column: nat)
    requires i <= |source|
    ensures var r := StringBody(source, i, line, column);
      r.1 == line + Newlines(source[i..r.0])
    decreases |source| - i
  {
    var r := StringBody(source, i, line, column);
    if i == |source| || source[i] == '"' {
      assert source[i..r.0] == [];
    } else {
      var line' := if source[i] == '\n' then line + 1 else line;
      var column' := if source[i] == '\n' then 2 else column + 1;
      StringBodyCountsNewlines(source, i + 1, line', column');
      assert source[i..r.0][1..] == source[i + 1..r.0];
    }
  }

  /**
   * A string closed by the quote at `q`: one string token whose lexeme is
   * the quoted text with its quotes and whose literal is the text between
   * them, and the line is moved on by the newlines inside.
   */
  lemma StringToken(source: string, s: Scan, q: nat)
    requires s.current < q < |source| && source[s.current] == '"' && source[q] == '"'
    requires forall k :: s.current < k < q ==> source[k] != '"'
    ensures var r := ScanOne(source, s);
      && r.current == q + 1
      && r.line == s.line + Newlines(source[s.current + 1..q])
      && r.errors == s.errors
      && |r.tokens| == |s.tokens| + 1 && r.tokens[..|s.tokens|] == s.tokens
      && var t := r.tokens[|s.tokens|];
        && t.tokenType == TokenStringLiteral
        && t.lexeme == source[s.current..q + 1]
        && t.literal == source[s.current + 1..q]
        && t.line == r.line
  {
    var cur := s.current + 1;
    var (j, line', col') := StringBody(source, cur, s.line, s.column + 1);
    assert j == q;
    StringBodyCountsNewlines(source, cur, s.line, s.column + 1);
  }

  /** A string with no closing quote adds no token, one error, and consumes the rest of the source. */
  lemma UnterminatedStringIsDropped(source: string, s: Scan)
    requires s.current < |source| && source[s.current] == '"'
    requires forall k :: s.current < k < |source| ==> source[k] != '"'
    ensures var r := ScanOne(source, s);
      r.tokens == s.tokens && r.errors == s.errors + [UnterminatedString] && r.current == |source|
  {
  }

  /**
   * A word is the whole alphanumeric run; it becomes a print token exactly
   * when it spells `print`, and is otherwise reported and dropped.
   */
  lemma WordToken(source: string, s: Scan)
    requires s.current < |source| && IsAlpha(source[s.current])
    ensures var end := WordEnd(source, s.current + 1);
      var r := ScanOne(source, s);
      && r.current == end
      && (source[s.current..end] == "print" ==>
            r.tokens == s.tokens + [Token(TokenKeywordPrint, "print", "", s.line, s.column)] && r.errors == s.errors)
      && (source[s.current..end] != "print" ==>
            r.tokens == s.tokens && r.errors == s.errors + [UnknownWord(source[s.current..end])])
  {
    var c := source[s.current];
    assert c != ';' && c != '"' && c != ' ' && c != '\r' && c != '\t' && c != '\n';
    var end := WordEnd(source, s.current + 1);
    var col' := s.column + 1 + (end - (s.current + 1));
    if source[s.current..end] == "print" {
      var t := MakeToken(source, s.current, end, TokenKeywordPrint, "", s.line, col');
      assert t == Token(TokenKeywordPrint, "print", "", s.line, s.column);
      assert ScanOne(source, s) == s.(current := end, column := col', tokens := s.tokens + [t]);
    }
  }

  /** Digits and any other unexpected character add no token and one error, and consume one character. */
  lemma OtherCharactersAreDropped(source: string, s: Scan)
    requires s.current < |source|
    requires var c := source[s.current]; c != ';' && c != '"' && c !in {' ', '\r', '\t', '\n'} && !IsAlpha(c)
    ensures var r := ScanOne(source, s);
      && r.tokens == s.tokens && r.current == s.current + 1 && r.line == s.line && r.column == s.column + 1
      && r.errors == s.errors + [if IsDigit(source[s.current]) then NumbersUnsupported else UnexpectedCharacter(source[s.current])]
  {
  }

  // ---------------------------------------------------------------------
  // The scanner

  class Lexer {
    const source: string
    var tokens: seq<Token>
    var start: nat
    var current: nat
    var line: nat
    var column: nat
    var errors: seq<LexError>

    ghost predicate Valid()
      reads this
    {
      start <= current <= |source|
    }

    function State(): Scan
      reads this
    {
      Scan(current, line, column, tokens, errors)
    }

    /** `Lexer(source)`: at the first character of line 1, column 1, nothing scanned. */
    constructor (source: string)
      ensures Valid() && this.source == source && State() == Initial && start == 0
    {
      this.source := source;
      tokens := [];
      start := 0;
      current := 0;
      line := 1;
      column := 1;
      errors := [];
    }

    /** `scanTokens`: scan to the end, append the end-of-file token, and return all tokens. */
    method ScanTokens() returns (r: seq<Token>)
      modifies this
      requires Valid()
      ensures Valid()
      ensures var s := ScanRest(source, old(State()));
        && r == tokens && tokens == Scanned(source, old(State()))
        && current == s.current && line == s.line && column == s.column && errors == s.errors
    {
      while !IsAtEnd()
        invariant Valid()
        invariant ScanRest(source, State()) == ScanRest(source, old(State()))
        decreases |source| - current
      {
        start := current;
        ScanToken();
      }
      tokens := tokens + [Token(TokenEof, "", "", line, current)];
      r := tokens;
    }

    /** `isAtEnd`. */
    function IsAtEnd(): (b: bool)
      reads this
      ensures b <==> current >= |source|
    {
      current >= |source|
    }

    /** `advance`: the character at the index; the index and the column move on by one. */
    method Advance() returns (c: char)
      modifies this
      requires current < |source|
      ensures c == source[old(current)] && current == old(current) + 1 && column == old(column) + 1
      ensures tokens == old(tokens) && start == old(start) && line == old(line) && errors == old(errors)
    {
      column := column + 1;
      c := source[current];
      current := current + 1;
    }

    /** `peek`: the character at the index, `'\0'` at the end. */
    function Peek(): (c: char)
      reads this
      requires current <= |source|
      ensures current < |source| ==> c == source[current]
      ensures current == |source| ==> c == '\0'
    {
      if current >= |source| then '\0' else source[current]
    }

    /** `addToken`: a token for the lexeme from `start` to the index. */
    method AddToken(tokenType: TokenType, literal: string)
      modifies this
      requires Valid()
      ensures start == old(start) && current == old(current) && line == old(line) && column == old(column) && errors == old(errors)
      ensures tokens == old(tokens) + [MakeToken(source, start, current, tokenType, literal, line, column)]
    {
      var text := source[start..current];
      tokens := tokens + [Token(tokenType, text, literal, line, column - (current - start))];
    }

    /** `error`: the report, kept in order. */
    method Error(err: LexError)
      modifies this
      ensures errors == old(errors) + [err]
      ensures tokens == old(tokens) && start == old(start) && current == old(current) && line == old(line) && column == old(column)
    {
      errors := errors + [err];
    }

    /** `scanToken`. */
    method ScanToken()
      modifies this
      requires Valid() && start == current < |source|
      ensures Valid() && State() == ScanOne(source, old(State()))
    {
      var c := Advance();
      if c == ';' {
        AddToken(TokenSemicolon, "");
      } else if c == '"' {
        String();
      } else if c == ' ' || c == '\r' || c == '\t' {
      } else if c == '\n' {
        line := line + 1;
        column := 1;
      } else if IsAlpha(c) {
        Identifier();
      } else if IsDigit(c) {
        Error(NumbersUnsupported);
      } else {
        Error(UnexpectedCharacter(c));
      }
    }

    /** `string`: after the opening quote. */
    method String()
      modifies this
      requires Valid() && current == start + 1 && source[start] == '"'
      ensures Valid() && start == old(start)
      ensures var (j, line', column') := StringBody(source, old(current), old(line), old(column));
        && line == line'
        && (j == |source| ==> current == j && column == column' && tokens == old(tokens) && errors == old(errors) + [UnterminatedString])
        && (j < |source| ==>
              (&& current == j + 1 && column == column' + 1 && errors == old(errors)
               && tokens == old(tokens) + [MakeToken(source, start, j + 1, TokenStringLiteral, source[start + 1..j], line', column' + 1)]))
    {
      while Peek() != '"' && !IsAtEnd()
        invariant Valid() && start == old(start) && tokens == old(tokens) && errors == old(errors)
        invariant StringBody(source, current, line, column) == StringBody(source, old(current), old(line), old(column))
        decreases |source| - current
      {
        if Peek() == '\n' {
          line := line + 1;
          column := 1;
        }
        var _ := Advance();
      }
      if IsAtEnd() {
        Error(UnterminatedString);
        return;
      }
      var _ := Advance();
      var value := source[start + 1..current - 1];
      AddToken(TokenStringLiteral, value);
    }

    /** `identifier`: the rest of the word; only `print` is kept. */
    method Identifier()
      modifies this
      requires Valid() && current == start + 1 && IsAlpha(source[start])
      ensures Valid() && start == old(start) && line == old(line)
      ensures var end := WordEnd(source, old(current));
        && current == end && column == old(column) + (end - old(current))
        && (source[start..end] == "print" ==>
              tokens == old(tokens) + [MakeToken(source, start, end, TokenKeywordPrint, "", line, column)] && errors == old(errors))
        && (source[start..end] != "print" ==> tokens == old(tokens) && errors == old(errors) + [UnknownWord(source[start..end])])
    {
      while IsAlnum(Peek())
        invariant Valid() && start == old(start) && line == old(line) && tokens == old(tokens) && errors == old(errors)
        invariant old(current) <= current && column == old(column) + (current - old(current))
        invariant WordEnd(source, current) == WordEnd(source, old(current))
        decreases |source| - current
      {
        var _ := Advance();
      }
      var text := source[start..current];
      if text == "print" {
        AddToken(TokenKeywordPrint, "");
      } else {
        Error(UnknownWord(text));
      }
    }
  }
}
