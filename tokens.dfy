/** The token model of src/token.rs: token kinds, the literal a token
    carries and the token record itself, with the text rendering of
    literals (`Display for TokenLiteral`). */
module Tokens {

  /** `TokenType`: one constructor per kind of the source's enum. */
  datatype TokenType =
    // single-character tokens
    | LeftParen | RightParen | LeftBrace | RightBrace
    | Comma | Dot | Minus | Plus | Semicolon | Slash | Star
    // one- or two-character tokens
    | Bang | BangEqual | Equal | EqualEqual
    | Greater | GreaterEqual | Less | LessEqual
    // literals
    | Identifier | StringToken | NumberToken
    // keywords
    | And | Class | Else | False | Fun | For | If | Nil | Or
    | Print | Return | Super | This | True | Var | While
    | Eof

  /** `TokenLiteral`, as the union of every variant any snapshot of the
      program uses (the interpreter also reads a `Boolean` variant). */
  datatype TokenLiteral =
    | StringLit(text: string)
    | NumberLit(number: real)
    | IdentifierLit(name: string)
    | BooleanLit(truth: bool)
    | NullLit

  /** `Token`: the datatype constructor is `Token::new`, which stores its
      four arguments unchanged. */
  datatype Token = Token(tokenType: TokenType, lexeme: string, literal: TokenLiteral, line: nat)

  /** The decimal digit for `d`. */
  function DigitChar(d: nat): (c: char)
    requires d < 10
    ensures '0' <= c <= '9'
  {
    "0123456789"[d]
  }

  /** Decimal text of a natural number, most significant digit first,
      without leading zeros. */
  function NatText(n: nat): (s: string)
    ensures 1 <= |s|
    ensures forall i :: 0 <= i < |s| ==> '0' <= s[i] <= '9'
    ensures 1 < |s| ==> s[0] != '0'
    decreases n
  {
    if n < 10 then [DigitChar(n)] else NatText(n / 10) + [DigitChar(n % 10)]
  }

  /** Up to `k` decimal digits of a fraction `0 <= f < 1`, truncated. */
  function FractionDigits(f: real, k: nat): (s: string)
    requires 0.0 <= f < 1.0
    ensures |s| <= k
    decreases k
  {
    if k == 0 || f == 0.0 then ""
    else
      var d := (f * 10.0).Floor;
      [DigitChar(d as nat)] + FractionDigits(f * 10.0 - d as real, k - 1)
  }

  /** `s` without its trailing '0' characters. */
  function TrimZeros(s: string): (r: string)
    ensures |r| <= |s| && r == s[..|r|]
    ensures r == [] || r[|r| - 1] != '0'
  {
    if s == [] || s[|s| - 1] != '0' then s else TrimZeros(s[..|s| - 1])
  }

  /** Text of a non-negative number: integer digits, then at most sixteen
      fraction digits when the number is not integral. */
  function UnsignedText(x: real): (s: string)
    requires 0.0 <= x
  {
    var whole := x.Floor;
    var fraction := TrimZeros(FractionDigits(x - whole as real, 16));
    NatText(whole as nat) + (if fraction == [] then "" else "." + fraction)
  }

  /** Number-to-text (`f64::to_string`): exact, as Rust writes it, for
      integral values ("7", "-3"); other values get a sixteen-digit
      truncated fraction. */
  function NumberText(n: real): (s: string)
    ensures n < 0.0 <==> (0 < |s| && s[0] == '-')
  {
    if n < 0.0 then "-" + UnsignedText(-n) else UnsignedText(n)
  }

  /** Text of an integer, the decimal rendering of integral numbers. */
  function IntText(i: int): string
  {
    if i < 0 then "-" + NatText(-i) else NatText(i)
  }

  lemma IntegralNumberText(i: int)
    ensures NumberText(i as real) == IntText(i)
  {
    if i < 0 {
      NegativeIntegralText(-i);
    } else {
      UnsignedIntegral(i);
    }
  }

  /** A negative integer prints as "-" and the digits of its magnitude. */
  lemma NegativeIntegralText(u: nat)
    requires 0 < u
    ensures NumberText(-(u as real)) == "-" + NatText(u)
  {
    assert -(-(u as real)) == u as real;
    UnsignedIntegral(u);
  }

  /** A natural number has no fraction digits. */
  lemma UnsignedIntegral(n: nat)
    ensures UnsignedText(n as real) == NatText(n)
  {
    assert (n as real).Floor == n;
    assert FractionDigits(0.0, 16) == "";
    assert TrimZeros("") == "";
  }

  /** `Display for TokenLiteral`: strings and identifiers verbatim, numbers
      through `NumberText`, and "null" for the null literal. An integral
      number prints as its integer, with neither fraction nor exponent. */
  function LiteralText(lit: TokenLiteral): (s: string)
    ensures lit.StringLit? ==> s == lit.text
    ensures lit.IdentifierLit? ==> s == lit.name
    ensures lit.NumberLit? ==> (lit.number < 0.0 <==> 0 < |s| && s[0] == '-')
    ensures lit.NumberLit? && lit.number == lit.number.Floor as real ==> s == IntText(lit.number.Floor)
    ensures lit.BooleanLit? ==> (s == "true" <==> lit.truth) && (s == "false" <==> !lit.truth)
    ensures lit.NullLit? ==> s == "null"
  {
    match lit
    case StringLit(text) => text
    case NumberLit(number) =>
      IntegralNumberText(number.Floor);
      NumberText(number)
    case IdentifierLit(name) => name
    case BooleanLit(truth) => if truth then "true" else "false"
    case NullLit => "null"
  }
}
