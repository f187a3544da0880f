/** Tokens: the closed set of token kinds and the token object built by the lexer. */
module Tokens {

  /** Every kind of token the lexer knows about. */
  datatype TokenType =
    | Keyword | Identifier | Text
    | Plus | Minus | Asterisk | Slash | BackSlash | Comma | Dot | Question | Underscore
    | Equal | Ampersand | Caret | Percent | Dollar | Hash | At | Exclamation | Tilde
    | BracketRoundOpen | BracketRoundClose | BracketCurlyOpen | BracketCurlyClose
    | BracketCornerOpen | BracketCornerClose | BracketSquareOpen | BracketSquareClose
    | QuoteDouble | QuoteSingle | QuoteAcute
    | Semicolon | Colon | EOL | EOF

  /** The observable state of a token: kind, inclusive span and text. */
  datatype TokenData = TokenData(kind: TokenType, startPosition: int, endPosition: int, value: string)

  /**
   * What the token constructor computes from its arguments. The end offset
   * defaults to the start offset when the argument is negative; the text is
   * the slice of `endPosition - startPosition + 1` characters from the start
   * (computed from the raw argument), or empty when the start lies at or past
   * the end of the stream. The requires clause is what `Substring` demands.
   */
  function MakeToken(kind: TokenType, stream: string, startPosition: int, endPosition: int): (t: TokenData)
    requires 0 <= startPosition
    requires startPosition < |stream| ==> startPosition <= endPosition + 1 <= |stream|
    ensures t.kind == kind && t.startPosition == startPosition
    ensures t.endPosition == if endPosition >= 0 then endPosition else startPosition
    ensures startPosition < |stream| ==>
      |t.value| == endPosition - startPosition + 1 &&
      forall i :: 0 <= i < |t.value| ==> t.value[i] == stream[startPosition + i]
    ensures startPosition >= |stream| ==> t.value == ""
  {
    TokenData(kind,
              startPosition,
              if endPosition >= 0 then endPosition else startPosition,
              if startPosition < |stream| then stream[startPosition..endPosition + 1] else "")
  }

  /**
   * A token object. Its text is fixed at construction; its kind and span are
   * public mutable fields (the lexer only ever changes the kind, from
   * Identifier to Keyword).
   */
  class Token {
    var kind: TokenType
    var startPosition: int
    var endPosition: int
    const value: string

    /** The token's current observable state. */
    function Data(): TokenData
      reads this
    {
      TokenData(kind, startPosition, endPosition, value)
    }

    constructor (kind: TokenType, stream: string, startPosition: int, endPosition: int := -1)
      requires 0 <= startPosition
      requires startPosition < |stream| ==> startPosition <= endPosition + 1 <= |stream|
      ensures Data() == MakeToken(kind, stream, startPosition, endPosition)
    {
      this.kind := kind;
      this.startPosition := startPosition;
      this.endPosition := if endPosition >= 0 then endPosition else startPosition;
      this.value := if startPosition < |stream| then stream[startPosition..endPosition + 1] else "";
    }
  }

  /** The observable states of a list of token objects, in order. */
  function DataOf(ts: seq<Token>): (r: seq<TokenData>)
    reads ts
    ensures |r| == |ts|
  {
    if ts == [] then [] else [ts[0].Data()] + DataOf(ts[1..])
  }

  /** Appending a token object appends its state. */
  lemma {:induction false} DataOfAppend(ts: seq<Token>, t: Token)
    ensures DataOf(ts + [t]) == DataOf(ts) + [t.Data()]
  {
    if ts != [] {
      assert (ts + [t])[1..] == ts[1..] + [t];
      DataOfAppend(ts[1..], t);
    }
  }
}
