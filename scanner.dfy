/** The scanner of src/token.rs (`Tokensizer`): a cursor over the source
    text that recognises the ten single-character punctuators, skips every
    other character and always ends with one end-of-input token. */
module Scanner {
  import opened Wrappers
  import opened Tokens

  /** The characters this scanner turns into tokens. */
  const Punctuators: string := "(){},.-+;*"

  /** The token kind `scan_token` emits for `c`, if any. */
  function Punctuator(c: char): (t: Option<TokenType>)
    ensures t.Some? <==> c in Punctuators
    ensures t.Some? ==> t.value != Eof
  {
    match c
    case '(' => Some(LeftParen)
    case ')' => Some(RightParen)
    case '{' => Some(LeftBrace)
    case '}' => Some(RightBrace)
    case ',' => Some(Comma)
    case '.' => Some(Dot)
    case '-' => Some(Minus)
    case '+' => Some(Plus)
    case ';' => Some(Semicolon)
    case '*' => Some(Star)
    case _ => None
  }

  /** The tokens `scan_token` adds for character `c` scanned as `lexeme`:
      one punctuator token with the null literal, or none. */
  function Emitted(c: char, lexeme: string, line: nat): seq<Token>
  {
    match Punctuator(c)
    case Some(t) => [Token(t, lexeme, NullLit, line)]
    case None => []
  }

  /** The tokens one character yields when it is its own lexeme. */
  function TokensFor(c: char, line: nat): seq<Token>
  {
    Emitted(c, [c], line)
  }

  /** One more character of the source adds exactly its own tokens. */
  lemma ScanStep(src: string, from: nat, cur: nat, line: nat)
    requires from <= cur < |src|
    ensures ScanAll(src[from..cur + 1], line) == ScanAll(src[from..cur], line) + TokensFor(src[cur], line)
  {
    assert src[from..cur + 1][..cur - from] == src[from..cur];
  }

  /** The loop step of `tokenize`: scanning the character at `cur` as its
      own lexeme extends the tokens of `src[from..cur]` by its tokens. */
  lemma ScanAppendsOne(src: string, from: nat, cur: nat, line: nat, before: seq<Token>, scanned: seq<Token>, after: seq<Token>)
    requires from <= cur < |src|
    requires scanned == before + ScanAll(src[from..cur], line)
    requires after == scanned + Emitted(src[cur], src[cur..cur + 1], line)
    ensures after == before + ScanAll(src[from..cur + 1], line)
  {
    assert src[cur..cur + 1] == [src[cur]];
    ScanStep(src, from, cur, line);
  }

  /** Specification of the scanning loop: the tokens of `src`, in order,
      without the end-of-input token. */
  function ScanAll(src: string, line: nat): seq<Token>
  {
    if src == [] then [] else ScanAll(src[..|src| - 1], line) + TokensFor(src[|src| - 1], line)
  }

  /** The end-of-input token `tokenize` appends. */
  function EofToken(line: nat): Token
  {
    Token(Eof, "", NullLit, line)
  }

  /** The recognised characters of `src`, in order: an independent
      description of which characters produce tokens. */
  function Recognised(src: string): (r: string)
    ensures forall i :: 0 <= i < |r| ==> r[i] in Punctuators
  {
    if src == [] then []
    else Recognised(src[..|src| - 1]) + (if src[|src| - 1] in Punctuators then [src[|src| - 1]] else [])
  }

  /** Token `k` of the scan is the `k`-th recognised character, as its own
      lexeme, with the null literal and the scanner's line: one token per
      recognised character, in source order. */
  lemma {:induction false} ScanAllIsRecognised(src: string, line: nat)
    ensures |ScanAll(src, line)| == |Recognised(src)|
    ensures forall k :: 0 <= k < |ScanAll(src, line)| ==>
      var c := Recognised(src)[k];
      ScanAll(src, line)[k] == Token(Punctuator(c).value, [c], NullLit, line)
  {
    if src != [] {
      ScanAllIsRecognised(src[..|src| - 1], line);
    }
  }

  /** Scanning distributes over concatenation: a character's tokens depend
      only on that character. */
  lemma {:induction false} ScanAllAppend(a: string, b: string, line: nat)
    ensures ScanAll(a + b, line) == ScanAll(a, line) + ScanAll(b, line)
    decreases |b|
  {
    if b == [] {
      assert a + b == a;
    } else {
      var b' := b[..|b| - 1];
      assert (a + b)[..|a + b| - 1] == a + b';
      ScanAllAppend(a, b', line);
    }
  }

  /** What `tokenize` returns for a fresh scanner: exactly one end-of-input
      token (empty lexeme, null literal) and it is last; one token per
      recognised character before it; every token on line 1. */
  lemma TokenizedShape(src: string)
    ensures var ts := ScanAll(src, 1) + [EofToken(1)];
      && |ts| == |Recognised(src)| + 1
      && ts[|ts| - 1].tokenType == Eof && ts[|ts| - 1].lexeme == "" && ts[|ts| - 1].literal == NullLit
      && (forall k :: 0 <= k < |ts| - 1 ==> ts[k].tokenType != Eof && |ts[k].lexeme| == 1)
      && (forall k :: 0 <= k < |ts| ==> ts[k].line == 1)
  {
    ScanAllIsRecognised(src, 1);
  }

  /** `Tokensizer`: the source, the tokens found so far, the start and the
      current position of the lexeme being scanned, and the line. */
  class Tokensizer {
    var src: string
    var tokens: seq<Token>
    var start: nat
    var current: nat
    var line: nat

    ghost predicate Valid()
      reads this
    {
      start <= current <= |src|
    }

    /** `Tokensizer::new`: no tokens yet, both cursors at 0, line 1. */
    constructor (src: string)
      ensures Valid()
      ensures this.src == src && tokens == [] && start == 0 && current == 0 && line == 1
    {
      this.src := src;
      tokens := [];
      start := 0;
      current := 0;
      line := 1;
    }

    /** `is_at_end`: no character is left to scan, which in a valid
        scanner means the cursor sits exactly at the end of the source. */
    predicate IsAtEnd()
      reads this
      ensures Valid() ==> (IsAtEnd() <==> current == |src|)
    {
      current >= |src|
    }

    /** Appends a token whose lexeme is the text from `start` to `current`. */
    method AddToken(tokenType: TokenType, literal: TokenLiteral)
      requires Valid()
      modifies this`tokens
      ensures tokens == old(tokens) + [Token(tokenType, src[start..current], literal, line)]
    {
      var text := src[start..current];
      tokens := tokens + [Token(tokenType, text, literal, line)];
    }

    /** Consumes and returns the current character. */
    method Advance() returns (c: char)
      requires Valid() && !IsAtEnd()
      modifies this`current
      ensures Valid()
      ensures current == old(current) + 1 && c == src[old(current)]
    {
      current := current + 1;
      c := src[current - 1];
    }

    /** Consumes one character and emits the token of a punctuator; any
        other character is skipped. */
    method ScanToken()
      requires Valid() && !IsAtEnd()
      modifies this`current, this`tokens
      ensures Valid() && current == old(current) + 1
      ensures tokens == old(tokens) + Emitted(src[old(current)], src[start..current], line)
    {
      var c := Advance();
      match c
      case '(' => AddToken(LeftParen, NullLit);
      case ')' => AddToken(RightParen, NullLit);
      case '{' => AddToken(LeftBrace, NullLit);
      case '}' => AddToken(RightBrace, NullLit);
      case ',' => AddToken(Comma, NullLit);
      case '.' => AddToken(Dot, NullLit);
      case '-' => AddToken(Minus, NullLit);
      case '+' => AddToken(Plus, NullLit);
      case ';' => AddToken(Semicolon, NullLit);
      case '*' => AddToken(Star, NullLit);
      case _ =>
    }

    /** Scans the rest of the source, appends the end-of-input token and
        returns all tokens; the cursor ends at the end of the source. */
    method Tokenize() returns (r: seq<Token>)
      requires Valid()
      modifies this`start, this`current, this`tokens
      ensures Valid() && current == |src|
      ensures old(current) < |src| ==> start == |src| - 1
      ensures old(current) == |src| ==> start == old(start)
      ensures tokens == old(tokens) + ScanAll(src[old(current)..], line) + [EofToken(line)]
      ensures r == tokens
    {
      ghost var from, before := current, tokens;
      while !IsAtEnd()
        invariant Valid() && from <= current
        invariant from < current ==> start == current - 1
        invariant from == current ==> start == old(start)
        invariant tokens == before + ScanAll(src[from..current], line)
        decreases |src| - current
      {
        start := current;
        ghost var scanned, at := tokens, current;
        ScanToken();
        ScanAppendsOne(src, from, at, line, before, scanned, tokens);
      }
      assert current == |src|;
      assert src[from..current] == src[from..];
      tokens := tokens + [EofToken(line)];
      r := tokens;
    }
  }

  /** `Tokensizer::new(src).tokenize()`: the whole pipeline stage. */
  method Tokenize(src: string) returns (r: seq<Token>)
    ensures r == ScanAll(src, 1) + [EofToken(1)]
  {
    var scanner := new Tokensizer(src);
    r := scanner.Tokenize();
    assert src[0..] == src;
  }
}
