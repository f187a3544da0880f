/**
 * What a run guarantees, proved from the relational description RunFrom:
 * it halts once, its spans are ordered, its errors carry the line counter the
 * scanner kept, and the description determines the run, so Lex is the only
 * output RunFrom admits.
 */
module LexerProperties {
  import opened Tokens
  import opened ParsingErrors
  import opened LexerSpec

  // ---------------------------------------------------------------------
  // Halting

  /**
   * A result records at most one error; it records none exactly when its last
   * token is EOF, and EOF appears nowhere but last.
   */
  predicate HaltsOnce(r: LexResult)
  {
    |r.errors| <= 1 &&
    (r.errors == [] <==> (r.tokens != [] && r.tokens[|r.tokens| - 1].kind == EOF)) &&
    (forall i :: 0 <= i < |r.tokens| && r.tokens[i].kind == EOF ==> i == |r.tokens| - 1)
  }

  lemma {:induction false} RunHaltsOnce(table: map<char, TokenType>, s: string, keywords: set<string>, pos: int, line: int,
                                        ts: seq<TokenData>, errs: seq<ParsingError>)
    requires RunFrom(table, s, keywords, pos, line, ts, errs)
    ensures HaltsOnce(LexResult(ts, errs))
    decreases |ts|
  {
    if ts != [] && ts[0].kind != EOF {
      var t := ts[0];
      RunHaltsOnce(table, s, keywords, LexemeEnd(t), line + Newlines(s, pos, LexemeStart(t)), ts[1..], errs);
      forall i | 0 <= i < |ts| && ts[i].kind == EOF
        ensures i == |ts| - 1
      {
        assert i > 0 && ts[i] == ts[1..][i - 1];
      }
    }
  }

  // ---------------------------------------------------------------------
  // Token spans

  /** Spans strictly increase and never overlap. */
  predicate Ordered(ts: seq<TokenData>)
  {
    forall i, j :: 0 <= i < j < |ts| ==>
      ts[i].endPosition < ts[j].startPosition && ts[i].startPosition < ts[j].startPosition
  }

  /** A token's span lies inside its lexeme. */
  lemma LexemeBounds(table: map<char, TokenType>, s: string, keywords: set<string>, t: TokenData)
    requires OutputToken(table, s, keywords, t)
    ensures LexemeStart(t) <= t.startPosition
    ensures t.kind != EOF ==> t.startPosition < LexemeEnd(t) && t.endPosition < LexemeEnd(t)
  {
  }

  /** Every token of a run starts at or after `pos`, has the shape its kind demands, and the spans are ordered. */
  lemma {:induction false} RunTokens(table: map<char, TokenType>, s: string, keywords: set<string>, pos: int, line: int,
                                     ts: seq<TokenData>, errs: seq<ParsingError>)
    requires RunFrom(table, s, keywords, pos, line, ts, errs)
    ensures forall i :: 0 <= i < |ts| ==> pos <= ts[i].startPosition && OutputToken(table, s, keywords, ts[i])
    ensures Ordered(ts)
    decreases |ts|
  {
    if ts != [] {
      var t := ts[0];
      LexemeBounds(table, s, keywords, t);
      if t.kind != EOF {
        var rest := ts[1..];
        RunTokens(table, s, keywords, LexemeEnd(t), line + Newlines(s, pos, LexemeStart(t)), rest, errs);
        forall i | 0 < i < |ts|
          ensures ts[i] == rest[i - 1]
        {
        }
      }
    }
  }

  // ---------------------------------------------------------------------
  // Line counting

  /** The newlines inside the Text tokens of `ts`. */
  function TextNewlines(ts: seq<TokenData>): nat
  {
    if ts == [] then 0 else (if ts[0].kind == Text then Newlines(ts[0].value, 0, |ts[0].value|) else 0) + TextNewlines(ts[1..])
  }

  /** The only newlines a lexeme holds are those inside a Text token's value. */
  lemma LexemeNewlines(table: map<char, TokenType>, s: string, keywords: set<string>, t: TokenData)
    requires OutputToken(table, s, keywords, t) && t.kind != EOF
    ensures 0 <= LexemeStart(t) <= LexemeEnd(t) <= |s|
    ensures Newlines(s, LexemeStart(t), LexemeEnd(t)) == if t.kind == Text then Newlines(t.value, 0, |t.value|) else 0
  {
    var a, b := LexemeStart(t), LexemeEnd(t);
    if t.kind == Text {
      NewlinesSplit(s, a, a + 1, b);
      NewlinesSplit(s, a + 1, b - 1, b);
      NewlinesAbsent(s, b - 1, b);
      NewlinesCopy(s, a + 1, b - 1, t.value, 0);
    } else {
      NewlinesAbsent(s, a, b);
    }
  }

  /**
   * The line counter of a run's error is the line it started on plus the
   * newlines between `pos` and the error, less those inside string literals:
   * newlines skipped as whitespace count, newlines in literals do not.
   */
  lemma {:induction false} RunErrorLines(table: map<char, TokenType>, s: string, keywords: set<string>, pos: int, line: int,
                                         ts: seq<TokenData>, errs: seq<ParsingError>)
    requires RunFrom(table, s, keywords, pos, line, ts, errs)
    ensures forall e :: e in errs ==>
      0 <= pos <= e.positionInLine <= |s| &&
      e.line + TextNewlines(ts) == line + Newlines(s, pos, e.positionInLine)
    decreases |ts|
  {
    if ts == [] {
      var e := errs[0];
      if !L002Shape(table, s, e) {
        NewlinesSplit(s, pos, e.positionInLine - 1, e.positionInLine);
      }
    } else if ts[0].kind != EOF {
      var t := ts[0];
      var p, l := LexemeEnd(t), line + Newlines(s, pos, LexemeStart(t));
      RunErrorLines(table, s, keywords, p, l, ts[1..], errs);
      LexemeNewlines(table, s, keywords, t);
      forall e | e in errs
        ensures e.line + TextNewlines(ts) == line + Newlines(s, pos, e.positionInLine)
      {
        NewlinesSplit(s, pos, LexemeStart(t), e.positionInLine);
        NewlinesSplit(s, LexemeStart(t), p, e.positionInLine);
      }
    }
  }

  // ---------------------------------------------------------------------
  // The description determines the run

  /** Two offsets reached from `pos` over whitespace only, both at a non-whitespace character or the end, coincide. */
  lemma FirstSolid(s: string, pos: int, a: int, b: int)
    requires Blank(s, pos, a) && (a == |s| || !IsWhitespace(s[a]))
    requires Blank(s, pos, b) && (b == |s| || !IsWhitespace(s[b]))
    ensures a == b
  {
  }

  /** A lexeme starts at a non-whitespace character, or at the end for EOF. */
  lemma TokenSolid(table: map<char, TokenType>, s: string, keywords: set<string>, t: TokenData)
    requires OutputToken(table, s, keywords, t)
    ensures t.kind == EOF <==> LexemeStart(t) == |s|
    ensures LexemeStart(t) < |s| ==> !IsWhitespace(s[LexemeStart(t)])
  {
  }

  /** At most one offset closes a literal first. */
  lemma FirstCloseUnique(s: string, from: nat, e1: nat, e2: nat, escapeSymbols: bool, endSymbol: char)
    requires FirstClose(s, from, e1, escapeSymbols, endSymbol) && FirstClose(s, from, e2, escapeSymbols, endSymbol)
    ensures e1 == e2
  {
  }

  /** At most one maximal identifier run starts at a given offset. */
  lemma IdentRunUnique(table: map<char, TokenType>, s: string, t1: TokenData, t2: TokenData)
    requires IdentShape(table, s, t1) && IdentShape(table, s, t2) && t1.startPosition == t2.startPosition
    ensures t1.endPosition == t2.endPosition && t1.value == t2.value
  {
  }

  /** Two tokens whose lexemes start at the same offset are the same token. */
  lemma SameToken(table: map<char, TokenType>, s: string, keywords: set<string>, t1: TokenData, t2: TokenData)
    requires HasQuotes(table)
    requires OutputToken(table, s, keywords, t1) && OutputToken(table, s, keywords, t2)
    requires LexemeStart(t1) == LexemeStart(t2)
    ensures t1 == t2
  {
    var q := LexemeStart(t1);
    if t1.kind == Text || t2.kind == Text {
      assert t1.kind == Text && t2.kind == Text;
      FirstCloseUnique(s, q + 1, t1.endPosition + 1, t2.endPosition + 1, EscapesIn(s[q]), s[q]);
    } else if t1.kind == Identifier || t1.kind == Keyword {
      IdentRunUnique(table, s, t1, t2);
    }
  }

  /** A token and an error cannot both be the first thing found after the same whitespace. */
  lemma TokenNotError(table: map<char, TokenType>, s: string, keywords: set<string>, pos: int, line: int, t: TokenData, e: ParsingError)
    requires HasQuotes(table)
    requires Blank(s, pos, LexemeStart(t)) && OutputToken(table, s, keywords, t)
    ensures !ErrorFrom(table, s, pos, line, e)
  {
    TokenSolid(table, s, keywords, t);
    if L002Shape(table, s, e) && Blank(s, pos, e.position) {
      FirstSolid(s, pos, LexemeStart(t), e.position);
    } else if L001Shape(s, e) && Blank(s, pos, e.positionInLine - 1) {
      FirstSolid(s, pos, LexemeStart(t), e.positionInLine - 1);
    }
  }

  /** At most one error ends a run found from the same offset and line. */
  lemma SameError(table: map<char, TokenType>, s: string, pos: int, line: int, e1: ParsingError, e2: ParsingError)
    requires HasQuotes(table)
    requires ErrorFrom(table, s, pos, line, e1) && ErrorFrom(table, s, pos, line, e2)
    ensures e1 == e2
  {
    var a1 := if L002Shape(table, s, e1) then e1.position else e1.positionInLine - 1;
    var a2 := if L002Shape(table, s, e2) then e2.position else e2.positionInLine - 1;
    FirstSolid(s, pos, a1, a2);
  }

  /** RunFrom admits at most one run from a given offset and line. */
  lemma {:induction false} RunDeterministic(table: map<char, TokenType>, s: string, keywords: set<string>, pos: int, line: int,
                                            ts1: seq<TokenData>, errs1: seq<ParsingError>,
                                            ts2: seq<TokenData>, errs2: seq<ParsingError>)
    requires HasQuotes(table)
    requires RunFrom(table, s, keywords, pos, line, ts1, errs1)
    requires RunFrom(table, s, keywords, pos, line, ts2, errs2)
    ensures ts1 == ts2 && errs1 == errs2
    decreases |ts1|
  {
    if ts1 == [] && ts2 == [] {
      SameError(table, s, pos, line, errs1[0], errs2[0]);
    } else if ts1 == [] {
      TokenNotError(table, s, keywords, pos, line, ts2[0], errs1[0]);
    } else if ts2 == [] {
      TokenNotError(table, s, keywords, pos, line, ts1[0], errs2[0]);
    } else {
      var t1, t2 := ts1[0], ts2[0];
      TokenSolid(table, s, keywords, t1);
      TokenSolid(table, s, keywords, t2);
      FirstSolid(s, pos, LexemeStart(t1), LexemeStart(t2));
      SameToken(table, s, keywords, t1, t2);
      if t1.kind != EOF {
        RunDeterministic(table, s, keywords, LexemeEnd(t1), line + Newlines(s, pos, LexemeStart(t1)),
                         ts1[1..], errs1, ts2[1..], errs2);
        assert ts1 == [t1] + ts1[1..] && ts2 == [t2] + ts2[1..];
      }
    }
  }

  // ---------------------------------------------------------------------
  // The lexer's run

  /** Lex is the one output the relational description admits. */
  lemma LexUnique(s: string, keywords: set<string>, ts: seq<TokenData>, errs: seq<ParsingError>)
    requires RunFrom(SymbolTokens, s, keywords, 0, 0, ts, errs)
    ensures Lex(s, keywords) == LexResult(ts, errs)
  {
    SymbolTokensValid();
    var r := Lex(s, keywords);
    RunDeterministic(SymbolTokens, s, keywords, 0, 0, ts, errs, r.tokens, r.errors);
  }

  /** A run of the lexer halts once; a run with no error ends with the EOF token at offset |s|. */
  lemma LexHalts(s: string, keywords: set<string>)
    ensures HaltsOnce(Lex(s, keywords))
    ensures var r := Lex(s, keywords);
      r.errors == [] ==> r.tokens[|r.tokens| - 1] == TokenData(EOF, |s|, |s|, "")
  {
    var r := Lex(s, keywords);
    RunHaltsOnce(SymbolTokens, s, keywords, 0, 0, r.tokens, r.errors);
    RunTokens(SymbolTokens, s, keywords, 0, 0, r.tokens, r.errors);
  }

  /**
   * Over a table that meets ValidTable, no token of a run is EOL (a newline is
   * whitespace), and a token other than Text that starts at a table character
   * is that character's one-character symbol.
   */
  lemma RunTokenKinds(table: map<char, TokenType>, s: string, keywords: set<string>, pos: int, line: int,
                      ts: seq<TokenData>, errs: seq<ParsingError>)
    requires ValidTable(table)
    requires RunFrom(table, s, keywords, pos, line, ts, errs)
    ensures Ordered(ts)
    ensures forall i :: 0 <= i < |ts| ==>
      OutputToken(table, s, keywords, ts[i]) && ts[i].kind != EOL &&
      (ts[i].kind != Text && 0 <= ts[i].startPosition < |s| && s[ts[i].startPosition] in table ==>
         ts[i].kind == table[s[ts[i].startPosition]] && ts[i].endPosition == ts[i].startPosition)
  {
    RunTokens(table, s, keywords, pos, line, ts, errs);
  }

  /**
   * The tokens of a run of the lexer are ordered and each has the shape its
   * kind demands; none is EOL, and a token other than Text that starts at a
   * table character is that character's one-character symbol, which is why an
   * identifier never starts with '_'.
   */
  lemma LexTokens(s: string, keywords: set<string>)
    ensures var r := Lex(s, keywords);
      Ordered(r.tokens) &&
      forall i :: 0 <= i < |r.tokens| ==>
        OutputToken(SymbolTokens, s, keywords, r.tokens[i]) && r.tokens[i].kind != EOL &&
        (r.tokens[i].kind != Text && 0 <= r.tokens[i].startPosition < |s| && s[r.tokens[i].startPosition] in SymbolTokens ==>
           r.tokens[i].kind == SymbolTokens[s[r.tokens[i].startPosition]] &&
           r.tokens[i].endPosition == r.tokens[i].startPosition)
  {
    SymbolTokensValid();
    var r := Lex(s, keywords);
    RunTokenKinds(SymbolTokens, s, keywords, 0, 0, r.tokens, r.errors);
  }

  /** The line counter of an error of a run of the lexer counts the newlines before it outside string literals. */
  lemma LexErrorLines(s: string, keywords: set<string>)
    ensures var r := Lex(s, keywords);
      forall e :: e in r.errors ==>
        0 <= e.positionInLine <= |s| && e.line + TextNewlines(r.tokens) == Newlines(s, 0, e.positionInLine)
  {
    var r := Lex(s, keywords);
    RunErrorLines(SymbolTokens, s, keywords, 0, 0, r.tokens, r.errors);
  }
}
