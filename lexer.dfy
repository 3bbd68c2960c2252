/**
 * The character scanner of the expression compiler (src/Lexer.cpp).
 *
 * `Scan` is the specification of one call of `nextToken`: from the current
 * position it skips whitespace and classifies what follows. The class
 * `Lexer` keeps the source's `position_`/`readPosition_`/`ch_` state and
 * its loops, and each of its methods is proved against these functions.
 */
module Lexing {
  import opened Tokens
  import opened Wrappers

  const NUL: char := 0 as char

  /** What `readChar` loads into `ch_` for a read position: the character there, or NUL past the end. */
  function CharAt(input: string, p: nat): char {
    if p < |input| then input[p] else NUL
  }

  predicate IsLetter(c: char) {
    ('a' <= c <= 'z') || ('A' <= c <= 'Z') || c == '_'
  }

  predicate IsDigit(c: char) {
    '0' <= c <= '9'
  }

  /** `std::isspace` in the "C" locale: space, \t, \n, \v, \f, \r. */
  predicate IsSpace(c: char) {
    c == ' ' || ('\t' <= c <= '\r')
  }

  predicate IsIdentChar(c: char) {
    IsLetter(c) || IsDigit(c)
  }

  /** The single-character tokens of the `switch` in `nextToken`. */
  function Punctuation(c: char): Option<Kind> {
    match c
    case '=' => Some(Assign)
    case '+' => Some(Plus)
    case '-' => Some(Minus)
    case '*' => Some(Asterisk)
    case '/' => Some(Slash)
    case ';' => Some(Semicolon)
    case '(' => Some(LParen)
    case ')' => Some(RParen)
    case _ => None
  }

  /** Where `skipWhitespace` stops: the first position at or after `p` that does not hold whitespace. */
  function SkipSpace(input: string, p: nat): (q: nat)
    ensures p <= q
    ensures !IsSpace(CharAt(input, q))
    ensures forall i :: p <= i < q ==> IsSpace(CharAt(input, i))
    decreases |input| - p
  {
    if IsSpace(CharAt(input, p)) then SkipSpace(input, p + 1) else p
  }

  /** Where `readIdentifier` stops: the end of the run of letters, digits and `_` that starts at `p`. */
  function IdentEnd(input: string, p: nat): (q: nat)
    ensures p <= q
    ensures q == p || q <= |input|
    ensures !IsIdentChar(CharAt(input, q))
    ensures forall i :: p <= i < q ==> IsIdentChar(CharAt(input, i))
    decreases |input| - p
  {
    if IsIdentChar(CharAt(input, p)) then IdentEnd(input, p + 1) else p
  }

  /** Where `readNumber` stops: the end of the run of decimal digits that starts at `p`. */
  function NumberEnd(input: string, p: nat): (q: nat)
    ensures p <= q
    ensures q == p || q <= |input|
    ensures !IsDigit(CharAt(input, q))
    ensures forall i :: p <= i < q ==> IsDigit(CharAt(input, i))
    decreases |input| - p
  {
    if IsDigit(CharAt(input, p)) then NumberEnd(input, p + 1) else p
  }

  /** The kinds `nextToken` can produce; it has no keyword and no comment tokens. */
  predicate IsLexedKind(k: Kind) {
    k in {Illegal, EndOfFile, Identifier, Int, Assign, Plus, Minus, Asterisk, Slash, Semicolon, LParen, RParen}
  }

  /**
   * One call of `nextToken` from position `pos`: the token, and the position
   * of the character that is current afterwards.
   */
  function Scan(input: string, pos: nat): (r: (Token, nat))
    ensures r.1 > pos
    ensures IsLexedKind(r.0.kind)
    ensures forall i :: 0 <= i < |r.0.literal| ==> !IsSpace(r.0.literal[i])
    ensures r.0.kind == EndOfFile <==> CharAt(input, SkipSpace(input, pos)) == NUL
    ensures r.0.kind == EndOfFile ==> r.0.literal == ""
  {
    var p := SkipSpace(input, pos);
    var c := CharAt(input, p);
    if Punctuation(c).Some? then
      (Token(Punctuation(c).value, [c]), p + 1)
    else if c == NUL then
      (EofToken, p + 1)
    else if IsLetter(c) then
      var e := IdentEnd(input, p);
      assert forall i :: p <= i < e ==> input[i] == CharAt(input, i);
      (Token(Identifier, input[p..e]), e)
    else if IsDigit(c) then
      var e := NumberEnd(input, p);
      assert forall i :: p <= i < e ==> input[i] == CharAt(input, i);
      (Token(Int, input[p..e]), e)
    else
      (Token(Illegal, [c]), p + 1)
  }

  // ---------------------------------------------------------------------
  // Properties of one scanning step

  /** Each of `= + - * / ; ( )` yields its own kind with that one character as literal, and consumes one character. */
  lemma PunctuationIsOneCharacter(input: string, pos: nat)
    requires SkipSpace(input, pos) < |input|
    requires input[SkipSpace(input, pos)] in "=+-*/;()"
    ensures var p := SkipSpace(input, pos);
      && Scan(input, pos).0.literal == [input[p]]
      && Scan(input, pos).1 == p + 1
      && Scan(input, pos).0.kind == Punctuation(input[p]).value
  {
  }

  /** Once the input is exhausted, the result is EOF with an empty literal, and so is every later result. */
  lemma EndOfFileIsSticky(input: string, pos: nat)
    requires SkipSpace(input, pos) >= |input|
    ensures Scan(input, pos).0 == EofToken
    ensures SkipSpace(input, Scan(input, pos).1) >= |input|
    ensures Scan(input, Scan(input, pos).1).0 == EofToken
  {
  }

  /** EOF is returned again and again: k further calls from an exhausted position all yield EOF. */
  function ScanTimes(input: string, pos: nat, k: nat): (r: (seq<Token>, nat))
    ensures |r.0| == k
    decreases k
  {
    if k == 0 then ([], pos)
    else
      var (t, p) := Scan(input, pos);
      var (rest, q) := ScanTimes(input, p, k - 1);
      ([t] + rest, q)
  }

  lemma {:induction false} ExhaustedScansAreAllEof(input: string, pos: nat, k: nat)
    requires pos >= |input|
    ensures forall i :: 0 <= i < k ==> ScanTimes(input, pos, k).0[i] == EofToken
    decreases k
  {
    if k > 0 {
      var (t, p) := Scan(input, pos);
      ExhaustedScansAreAllEof(input, p, k - 1);
    }
  }

  /** An identifier's literal is the maximal run of letters, digits and `_` that starts with a letter or `_`. */
  lemma IdentifierIsMaximalRun(input: string, pos: nat)
    requires Scan(input, pos).0.kind == Identifier
    ensures var p := SkipSpace(input, pos); var lit := Scan(input, pos).0.literal;
      && p < Scan(input, pos).1 <= |input|
      && lit == input[p..Scan(input, pos).1]
      && IsLetter(lit[0])
      && (forall i :: 0 <= i < |lit| ==> IsIdentChar(lit[i]))
      && !IsIdentChar(CharAt(input, Scan(input, pos).1))
  {
    var p := SkipSpace(input, pos);
    var e := IdentEnd(input, p);
    assert forall i :: p <= i < e ==> input[i] == CharAt(input, i);
  }

  /** An integer's literal is the maximal non-empty run of decimal digits. */
  lemma NumberIsMaximalRun(input: string, pos: nat)
    requires Scan(input, pos).0.kind == Int
    ensures var p := SkipSpace(input, pos); var lit := Scan(input, pos).0.literal;
      && p < Scan(input, pos).1 <= |input|
      && lit == input[p..Scan(input, pos).1]
      && (forall i :: 0 <= i < |lit| ==> IsDigit(lit[i]))
      && !IsDigit(CharAt(input, Scan(input, pos).1))
  {
    var p := SkipSpace(input, pos);
    var e := NumberEnd(input, p);
    assert forall i :: p <= i < e ==> input[i] == CharAt(input, i);
  }

  /** Any other character yields ILLEGAL with that character as literal, and is consumed. */
  lemma OtherCharacterIsIllegal(input: string, pos: nat)
    requires var c := CharAt(input, SkipSpace(input, pos));
      c != NUL && Punctuation(c).None? && !IsLetter(c) && !IsDigit(c)
    ensures Scan(input, pos) == (Token(Illegal, [input[SkipSpace(input, pos)]]), SkipSpace(input, pos) + 1)
  {
  }

  /** Words such as `print` and `true` lex as identifiers: there are no keyword tokens. */
  lemma KeywordsAreIdentifiers()
    ensures Scan("print", 0) == (Token(Identifier, "print"), 5)
    ensures Scan(" true;", 0) == (Token(Identifier, "true"), 5)
  {
    PrintIsIdentifier();
    TrueIsIdentifier();
  }

  lemma PrintIsIdentifier()
    ensures Scan("print", 0) == (Token(Identifier, "print"), 5)
  {
    assert SkipSpace("print", 0) == 0;
    assert IdentEnd("print", 5) == 5;
    assert IdentEnd("print", 4) == 5;
    assert IdentEnd("print", 3) == 5;
    assert IdentEnd("print", 2) == 5;
    assert IdentEnd("print", 1) == 5;
    assert IdentEnd("print", 0) == 5;
    assert "print"[0..5] == "print";
  }

  lemma TrueIsIdentifier()
    ensures Scan(" true;", 0) == (Token(Identifier, "true"), 5)
  {
    assert SkipSpace(" true;", 1) == 1;
    assert SkipSpace(" true;", 0) == 1;
    assert IdentEnd(" true;", 5) == 5;
    assert IdentEnd(" true;", 4) == 5;
    assert IdentEnd(" true;", 3) == 5;
    assert IdentEnd(" true;", 2) == 5;
    assert IdentEnd(" true;", 1) == 5;
    assert " true;"[1..5] == "true";
  }

  // ---------------------------------------------------------------------
  // The scanner object

  class Lexer {
    const input: string
    var position: nat
    var readPosition: nat
    var ch: char

    /** `ch_` is the character at `position_`, and `readPosition_` is one past it. */
    ghost predicate Valid()
      reads this
    {
      readPosition == position + 1 && ch == CharAt(input, position)
    }

    constructor (input: string)
      ensures Valid() && this.input == input && position == 0
    {
      this.input := input;
      position, readPosition, ch := 0, 0, NUL;
      new;
      ReadChar();
    }

    method ReadChar()
      modifies this
      ensures ch == CharAt(input, old(readPosition))
      ensures position == old(readPosition) && readPosition == old(readPosition) + 1
    {
      if readPosition >= |input| {
        ch := NUL;
      } else {
        ch := input[readPosition];
      }
      position := readPosition;
      readPosition := readPosition + 1;
    }

    method SkipWhitespace()
      requires Valid()
      modifies this
      ensures Valid() && position == SkipSpace(input, old(position))
    {
      while IsSpace(ch)
        invariant Valid()
        invariant SkipSpace(input, position) == SkipSpace(input, old(position))
        decreases |input| - position
      {
        ReadChar();
      }
    }

    method ReadIdentifier() returns (lit: string)
      requires Valid() && IsLetter(ch)
      modifies this
      ensures Valid()
      ensures position == IdentEnd(input, old(position))
      ensures lit == input[old(position)..position]
    {
      var startPosition := position;
      while IsLetter(ch) || IsDigit(ch)
        invariant Valid()
        invariant startPosition <= position <= |input|
        invariant IdentEnd(input, position) == IdentEnd(input, startPosition)
        decreases |input| - position
      {
        ReadChar();
      }
      lit := input[startPosition..position];
    }

    method ReadNumber() returns (lit: string)
      requires Valid() && IsDigit(ch)
      modifies this
      ensures Valid()
      ensures position == NumberEnd(input, old(position))
      ensures lit == input[old(position)..position]
    {
      var startPosition := position;
      while IsDigit(ch)
        invariant Valid()
        invariant startPosition <= position <= |input|
        invariant NumberEnd(input, position) == NumberEnd(input, startPosition)
        decreases |input| - position
      {
        ReadChar();
      }
      lit := input[startPosition..position];
    }

    method NextToken() returns (tok: Token)
      requires Valid()
      modifies this
      ensures Valid()
      ensures (tok, position) == Scan(input, old(position))
    {
      SkipWhitespace();
      match ch {
        case '=' => tok := Token(Assign, "=");
        case '+' => tok := Token(Plus, "+");
        case '-' => tok := Token(Minus, "-");
        case '*' => tok := Token(Asterisk, "*");
        case '/' => tok := Token(Slash, "/");
        case ';' => tok := Token(Semicolon, ";");
        case '(' => tok := Token(LParen, "(");
        case ')' => tok := Token(RParen, ")");
        case _ =>
          if ch == NUL {
            tok := EofToken;
          } else if IsLetter(ch) {
            var lit := ReadIdentifier();
            return Token(Identifier, lit);
          } else if IsDigit(ch) {
            var lit := ReadNumber();
            return Token(Int, lit);
          } else {
            tok := Token(Illegal, [ch]);
          }
      }
      ReadChar();
    }
  }
}
