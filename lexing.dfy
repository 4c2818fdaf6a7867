/** The scanner (`Lexer`, CalculatorInterpreter.py:23-90).

    `NextToken` is the specification of one call of `get_next_token` on the
    text from a cursor position; `TokenStream` is every token the lexer will
    hand out from a position on, ending either at EOF or at the character
    that makes it raise. The class `Lexer` is the scanner itself, with the
    cursor fields `pos` and `currentChar` that its methods advance. */
module Lexing {
  import opened Basics
  import opened Tokens

  /** `str.isspace` on ASCII: the space, \t \n \v \f \r and the separators \x1c-\x1f. */
  predicate IsSpace(c: char) {
    c == ' ' || 9 <= c as int <= 13 || 28 <= c as int <= 31
  }

  /** `str.isdigit` on ASCII. */
  predicate IsDigit(c: char) {
    '0' <= c <= '9'
  }

  predicate AllDigits(s: string) {
    forall i | 0 <= i < |s| :: IsDigit(s[i])
  }

  /** What `current_char` holds for cursor `pos`: the character there, or None past the end. */
  function CharAt(text: string, pos: nat): Option<char> {
    if pos < |text| then Some(text[pos]) else None
  }

  /** Where the run of whitespace starting at `pos` ends. */
  function SkipWs(text: string, pos: nat): (q: nat)
    ensures pos <= q
    ensures q > pos ==> q <= |text|
    ensures q < |text| ==> !IsSpace(text[q])
    decreases |text| - pos
  {
    if pos < |text| && IsSpace(text[pos]) then SkipWs(text, pos + 1) else pos
  }

  /** Everything `SkipWs` passes over is whitespace. */
  lemma {:induction false} SkipWsOverSpaces(text: string, pos: nat)
    ensures forall i | pos <= i < SkipWs(text, pos) :: IsSpace(text[i])
    decreases |text| - pos
  {
    if pos < |text| && IsSpace(text[pos]) {
      SkipWsOverSpaces(text, pos + 1);
    }
  }

  /** Where the run of decimal digits starting at `pos` ends. */
  function DigitRunEnd(text: string, pos: nat): (e: nat)
    ensures pos <= e
    ensures e > pos ==> e <= |text|
    ensures e < |text| ==> !IsDigit(text[e])
    decreases |text| - pos
  {
    if pos < |text| && IsDigit(text[pos]) then DigitRunEnd(text, pos + 1) else pos
  }

  /** Everything `DigitRunEnd` passes over is a digit. */
  lemma {:induction false} DigitRunOverDigits(text: string, pos: nat)
    ensures forall i | pos <= i < DigitRunEnd(text, pos) :: IsDigit(text[i])
    decreases |text| - pos
  {
    if pos < |text| && IsDigit(text[pos]) {
      DigitRunOverDigits(text, pos + 1);
    }
  }

  function DigitValue(c: char): nat
    requires IsDigit(c)
  {
    c as int - '0' as int
  }

  /** `int(s)` for a string of decimal digits: most significant digit first. */
  function DecimalValue(s: string): nat
    requires AllDigits(s)
  {
    if s == [] then 0 else DecimalValue(s[..|s| - 1]) * 10 + DigitValue(s[|s| - 1])
  }

  /** One call of `get_next_token` with the cursor at `pos`: the token and
      the cursor afterwards, or the error it raises. */
  function NextToken(text: string, pos: nat): (r: Result<(Token, nat)>)
    ensures r.Err? ==> r.error == InvalidCharacter
    ensures r.Ok? && r.value.0.kind != Eof ==> pos < r.value.1 <= |text|
    ensures r.Ok? && r.value.0.kind == Eof ==> r.value.0 == EofToken
  {
    var q := SkipWs(text, pos);
    if q >= |text| then
      Ok((EofToken, q))
    else if IsDigit(text[q]) then
      var e := DigitRunEnd(text, q);
      DigitRunOverDigits(text, q);
      Ok((Token(Integer, DecimalValue(text[q..e])), e))
    else
      match SymbolKind(text[q])
      case Some(k) => Ok((Token(k, 0), q + 1))
      case None => Err(InvalidCharacter)
  }

  /** Where the lazily produced token sequence stops: at EOF, or at a
      character that makes the lexer raise `Invalid character`. */
  datatype End = AtEof | Bad

  datatype Stream = Stream(tokens: seq<Token>, end: End)

  /** Every token that successive calls of `get_next_token` hand out, starting from `pos`. */
  function TokenStream(text: string, pos: nat): Stream
    decreases |text| - pos
  {
    match NextToken(text, pos)
    case Err(_) => Stream([], Bad)
    case Ok((token, next)) =>
      if token.kind == Eof then Stream([], AtEof)
      else
        var rest := TokenStream(text, next);
        Stream([token] + rest.tokens, rest.end)
  }

  /** `get_next_token` returns EOF exactly when nothing but whitespace is left from the cursor on. */
  lemma EofIffBlank(text: string, pos: nat)
    ensures (NextToken(text, pos).Ok? && NextToken(text, pos).value.0.kind == Eof)
      <==> forall i | pos <= i < |text| :: IsSpace(text[i])
  {
    SkipWsOverSpaces(text, pos);
  }

  /** Once the input is exhausted, every further call returns EOF again and the cursor stays put. */
  lemma EofIsStable(text: string, pos: nat)
    requires NextToken(text, pos).Ok? && NextToken(text, pos).value.0.kind == Eof
    ensures NextToken(text, NextToken(text, pos).value.1) == NextToken(text, pos)
    ensures TokenStream(text, NextToken(text, pos).value.1) == Stream([], AtEof)
  {
  }

  lemma {:induction false} SkipWsAcrossSpaces(text: string, p: nat, p': nat)
    requires p <= p' <= |text|
    requires forall i | p <= i < p' :: IsSpace(text[i])
    ensures SkipWs(text, p) == SkipWs(text, p')
    decreases p' - p
  {
    if p < p' {
      SkipWsAcrossSpaces(text, p + 1, p');
    }
  }

  /** Whitespace between the cursor and the next token does not change the token. */
  lemma WhitespaceInsensitive(text: string, p: nat, p': nat)
    requires p <= p' <= |text|
    requires forall i | p <= i < p' :: IsSpace(text[i])
    ensures NextToken(text, p) == NextToken(text, p')
    ensures TokenStream(text, p) == TokenStream(text, p')
  {
    SkipWsAcrossSpaces(text, p, p');
  }

  /** A digit under the cursor yields one Integer token for the longest run of
      digits there, with its decimal value, and the cursor stops on the first
      non-digit or at the end. */
  lemma MaximalMunch(text: string, p: nat)
    requires p < |text| && IsDigit(text[p])
    ensures var r := NextToken(text, p);
      && r.Ok? && r.value.0.kind == Integer
      && var e := r.value.1;
      && p < e <= |text|
      && (forall i | p <= i < e :: IsDigit(text[i]))
      && (e == |text| || !IsDigit(text[e]))
      && r.value.0.value == DecimalValue(text[p..e])
  {
    DigitRunOverDigits(text, p);
  }

  /** Each of `+ - * / ( )` under the cursor is a token of its kind and advances the cursor by one. */
  lemma SingleCharacterTokens(text: string, p: nat)
    requires p < |text| && SymbolKind(text[p]).Some?
    ensures NextToken(text, p) == Ok((Token(SymbolKind(text[p]).value, 0), p + 1))
  {
  }

  /** Any other character that is not whitespace makes the lexer raise. */
  lemma InvalidCharacterFails(text: string, p: nat)
    requires p < |text| && !IsSpace(text[p]) && !IsDigit(text[p]) && SymbolKind(text[p]).None?
    ensures NextToken(text, p) == Err(InvalidCharacter)
  {
  }

  /** The scanner: the text, the cursor, and the character under it. */
  class Lexer {
    const text: string
    var pos: nat
    var currentChar: Option<char>

    /** `current_char` is the character at `pos`, or None once `pos` is past the end. */
    ghost predicate Valid()
      reads this
    {
      currentChar == CharAt(text, pos)
    }

    /** The source indexes `text[0]`, so it never builds a lexer on empty text. */
    constructor (text: string)
      requires |text| > 0
      ensures this.text == text && pos == 0 && Valid()
    {
      this.text := text;
      pos := 0;
      currentChar := Some(text[0]);
    }

    method Advance()
      requires Valid()
      modifies this
      ensures Valid() && pos == old(pos) + 1
    {
      pos := pos + 1;
      if pos < |text| {
        currentChar := Some(text[pos]);
      } else {
        currentChar := None;
      }
    }

    method SkipWhitespace()
      requires Valid()
      modifies this
      ensures Valid() && pos == SkipWs(text, old(pos))
    {
      while currentChar.Some? && IsSpace(currentChar.value)
        invariant Valid() && old(pos) <= pos
        invariant SkipWs(text, pos) == SkipWs(text, old(pos))
        decreases |text| - pos
      {
        Advance();
      }
    }

    /** Reads the digits under the cursor; the source calls it only on a digit. */
    method Integer() returns (n: nat)
      requires Valid() && currentChar.Some? && IsDigit(currentChar.value)
      modifies this
      ensures Valid() && pos == DigitRunEnd(text, old(pos))
      ensures AllDigits(text[old(pos)..pos]) && n == DecimalValue(text[old(pos)..pos])
    {
      var result := "";
      while currentChar.Some? && IsDigit(currentChar.value)
        invariant Valid() && old(pos) <= pos <= |text|
        invariant result == text[old(pos)..pos] && AllDigits(result)
        invariant DigitRunEnd(text, pos) == DigitRunEnd(text, old(pos))
        decreases |text| - pos
      {
        result := result + [currentChar.value];
        Advance();
      }
      n := DecimalValue(result);
    }

    method GetNextToken() returns (r: Result<Token>)
      requires Valid()
      modifies this
      ensures Valid()
      ensures NextToken(text, old(pos)) == if r.Ok? then Ok((r.value, pos)) else Err(r.error)
    {
      while currentChar.Some?
        invariant Valid()
        invariant NextToken(text, pos) == NextToken(text, old(pos))
        decreases |text| - pos
      {
        var c := currentChar.value;
        if IsSpace(c) {
          SkipWhitespace();
          continue;
        }
        if IsDigit(c) {
          var n := Integer();
          return Ok(Token(Kind.Integer, n));
        }
        if c == '+' {
          Advance();
          return Ok(Token(Plus, 0));
        }
        if c == '-' {
          Advance();
          return Ok(Token(Minus, 0));
        }
        if c == '*' {
          Advance();
          return Ok(Token(Multiply, 0));
        }
        if c == '/' {
          Advance();
          return Ok(Token(Divide, 0));
        }
        if c == '(' {
          Advance();
          return Ok(Token(LParen, 0));
        }
        if c == ')' {
          Advance();
          return Ok(Token(RParen, 0));
        }
        return Err(InvalidCharacter);
      }
      return Ok(EofToken);
    }
  }
}
