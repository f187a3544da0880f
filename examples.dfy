/**
 * The lexer on concrete inputs: the repository's test vectors and a few edge
 * cases (empty input, an unterminated literal, an unexpected character after
 * a newline, the underscore as a symbol), each stated as the run Lex
 * computes, token by token.
 */
module LexerExamples {
  import opened Wrappers
  import opened Tokens
  import opened ParsingErrors
  import opened Environment
  import opened LexerSpec
  import opened Lexing

  /** The kinds of a list of tokens, in order. */
  function Kinds(ts: seq<TokenData>): (r: seq<TokenType>)
    ensures |r| == |ts|
    ensures forall i :: 0 <= i < |ts| ==> r[i] == ts[i].kind
  {
    if ts == [] then [] else [ts[0].kind] + Kinds(ts[1..])
  }

  /**
   * The test harness: a fresh environment gets the keywords, a fresh lexer
   * reads the code, and the kinds of its tokens and its errors are those of
   * the run over the code with exactly those keywords.
   */
  method KindsOfRead(code: string, keywords: seq<string>) returns (kinds: seq<TokenType>, errors: seq<ParsingError>)
    ensures kinds == Kinds(Lex(code, set w | w in keywords).tokens)
    ensures errors == Lex(code, set w | w in keywords).errors
  {
    var environment := new ParserEnvironment();
    environment.AddKeywords(keywords);
    var lexer := new Lexer(code, environment);
    assert environment.keywords == set w | w in keywords;
    assert DataOf(lexer.tokens) == [];
    lexer.Read();
    assert DataOf(lexer.tokens) == Lex(code, environment.keywords).tokens;
    kinds := Kinds(DataOf(lexer.tokens));
    errors := lexer.errors;
  }

  // Unfolding the main loop one pass at a time.

  lemma GoFrom(table: map<char, TokenType>, s: string, k: set<string>, pos: nat, line: nat, t: TokenData, p: nat, l: nat)
    requires pos <= |s| && ValidTable(table)
    requires NextPass(table, s, k, pos, line) == Go(t, p, l)
    ensures p <= |s|
    ensures LexFrom(table, s, k, pos, line) ==
      LexResult([t] + LexFrom(table, s, k, p, l).tokens, LexFrom(table, s, k, p, l).errors)
  {
  }

  lemma PlainPass(table: map<char, TokenType>, s: string, k: set<string>, pos: nat, line: nat, t: TokenData, p: nat, l: nat)
    requires pos <= |s| && ValidTable(table)
    requires NextToken(table, s, pos, line) == Emit(t, p, l)
    requires !IsQuoteKind(t.kind) && t.kind != EOF
    ensures NextPass(table, s, k, pos, line) == Go(Kept(t, k), p, l)
  {
  }

  lemma EofPass(table: map<char, TokenType>, s: string, k: set<string>, pos: nat, line: nat)
    requires pos <= |s| && ValidTable(table)
    requires Blank(s, pos, |s|)
    ensures LexFrom(table, s, k, pos, line).tokens == [TokenData(EOF, |s|, |s|, "")]
    ensures LexFrom(table, s, k, pos, line).errors == []
  {
    NextTokenShape(table, s, pos, line);
  }

  lemma QuotePass(table: map<char, TokenType>, s: string, k: set<string>, pos: nat, line: nat, t: TokenData, p: nat, l: nat, e: nat)
    requires pos <= |s| && ValidTable(table)
    requires NextToken(table, s, pos, line) == Emit(t, p, l)
    requires IsQuoteKind(t.kind) && |t.value| == 1
    requires StringEnd(s, p, t.kind != QuoteSingle, t.value[0], false) == Some(e)
    ensures NextPass(table, s, k, pos, line) == Go(MakeToken(Text, s, p, e - 1), e + 1, l)
  {
  }

  /** The string-literal loop passes over a stretch with no closing character and no backslash. */
  lemma {:induction false} StringEndSkip(s: string, i: nat, j: nat, escapeSymbols: bool, endSymbol: char)
    requires i <= j <= |s|
    requires forall m :: i <= m < j ==> s[m] != endSymbol && s[m] != '\\'
    ensures StringEnd(s, i, escapeSymbols, endSymbol, false) == StringEnd(s, j, escapeSymbols, endSymbol, false)
    decreases j - i
  {
    if i < j {
      StringEndSkip(s, i + 1, j, escapeSymbols, endSymbol);
    }
  }

  /** A quote character is a one-character token of its quote kind, which is QuoteSingle exactly for the apostrophe. */
  lemma QuoteToken(table: map<char, TokenType>, s: string, pos: nat, line: nat)
    requires ValidTable(table) && pos < |s| && IsQuote(s[pos])
    ensures IsQuoteKind(table[s[pos]]) && (table[s[pos]] == QuoteSingle <==> s[pos] == '\'')
    ensures NextToken(table, s, pos, line) == Emit(TokenData(table[s[pos]], pos, pos, [s[pos]]), pos + 1, line)
  {
    assert MakeToken(table[s[pos]], s, pos, pos) == TokenData(table[s[pos]], pos, pos, [s[pos]]);
  }

  /**
   * A literal opened at `pos` and closed by the last character of the input,
   * with no backslash and no other closing character in between: the run
   * from `pos` is its Text token and EOF, with no error.
   */
  lemma LiteralFrom(table: map<char, TokenType>, s: string, k: set<string>, pos: nat, line: nat)
    requires ValidTable(table) && pos + 1 < |s|
    requires IsQuote(s[pos]) && s[|s| - 1] == s[pos]
    requires forall m :: pos < m < |s| - 1 ==> s[m] != s[pos] && s[m] != '\\'
    ensures LexFrom(table, s, k, pos, line) ==
      LexResult([MakeToken(Text, s, pos + 1, |s| - 2), TokenData(EOF, |s|, |s|, "")], [])
  {
    LiteralPass(table, s, k, pos, line);
    var t := MakeToken(Text, s, pos + 1, |s| - 2);
    GoFrom(table, s, k, pos, line, t, |s|, line);
    EofPass(table, s, k, |s|, line);
  }

  /** The pass over such a literal goes on at the end of the input with its Text token. */
  lemma LiteralPass(table: map<char, TokenType>, s: string, k: set<string>, pos: nat, line: nat)
    requires ValidTable(table) && pos + 1 < |s|
    requires IsQuote(s[pos]) && s[|s| - 1] == s[pos]
    requires forall m :: pos < m < |s| - 1 ==> s[m] != s[pos] && s[m] != '\\'
    ensures NextPass(table, s, k, pos, line) == Go(MakeToken(Text, s, pos + 1, |s| - 2), |s|, line)
  {
    QuoteToken(table, s, pos, line);
    var q := table[s[pos]];
    var r := NextToken(table, s, pos, line);
    StringEndSkip(s, pos + 1, |s| - 1, q != QuoteSingle, s[pos]);
    QuotePass(table, s, k, pos, line, r.token, pos + 1, line, |s| - 1);
  }

  /** Whitespace is skipped: the run from it is the run from the next character, a newline moving to the next line. */
  lemma SpaceFrom(table: map<char, TokenType>, s: string, k: set<string>, pos: nat, line: nat)
    requires ValidTable(table) && pos < |s| && IsWhitespace(s[pos])
    ensures LexFrom(table, s, k, pos, line) == LexFrom(table, s, k, pos + 1, line + if s[pos] == '\n' then 1 else 0)
  {
    var l := line + if s[pos] == '\n' then 1 else 0;
    assert NextToken(table, s, pos, line) == NextToken(table, s, pos + 1, l);
    assert NextPass(table, s, k, pos, line) == NextPass(table, s, k, pos + 1, l);
  }

  /** A symbol other than a quote is a one-character token of the kind the table gives it. */
  lemma SymbolFrom(table: map<char, TokenType>, s: string, k: set<string>, pos: nat, line: nat)
    requires ValidTable(table) && pos < |s| && !IsWhitespace(s[pos]) && !IsQuote(s[pos]) && s[pos] in table
    ensures LexFrom(table, s, k, pos, line) ==
      LexResult([TokenData(table[s[pos]], pos, pos, [s[pos]])] + LexFrom(table, s, k, pos + 1, line).tokens,
                LexFrom(table, s, k, pos + 1, line).errors)
  {
    var t := MakeToken(table[s[pos]], s, pos, pos);
    assert t == TokenData(table[s[pos]], pos, pos, [s[pos]]);
    PlainPass(table, s, k, pos, line, t, pos + 1, line);
    GoFrom(table, s, k, pos, line, t, pos + 1, line);
  }

  /**
   * A run of identifier characters `s[pos..e]`, started outside the table and
   * ended by the end of the input or another character: one token, a Keyword
   * when the word is a keyword and an Identifier otherwise.
   */
  lemma IdentFrom(table: map<char, TokenType>, s: string, k: set<string>, pos: nat, line: nat, e: nat)
    requires ValidTable(table) && pos < e <= |s| && s[pos] !in table
    requires forall m :: pos <= m < e ==> IsIdentChar(s[m])
    requires e == |s| || !IsIdentChar(s[e])
    ensures LexFrom(table, s, k, pos, line) ==
      LexResult([TokenData(if s[pos..e] in k then Keyword else Identifier, pos, e - 1, s[pos..e])] + LexFrom(table, s, k, e, line).tokens,
                LexFrom(table, s, k, e, line).errors)
  {
    IdentEndAt(s, pos, e);
    var t := MakeToken(Identifier, s, pos, e - 1);
    assert t == TokenData(Identifier, pos, e - 1, s[pos..e]);
    PlainPass(table, s, k, pos, line, t, e, line);
    GoFrom(table, s, k, pos, line, Kept(t, k), e, line);
  }

  /** The identifier loop stops at the first character outside the alphabet. */
  lemma {:induction false} IdentEndAt(s: string, pos: nat, e: nat)
    requires pos <= e <= |s|
    requires forall m :: pos <= m < e ==> IsIdentChar(s[m])
    requires e == |s| || !IsIdentChar(s[e])
    ensures IdentEnd(s, pos) == e
    decreases e - pos
  {
    if pos < e {
      IdentEndAt(s, pos + 1, e);
    }
  }

  /** A character that starts no token ends the run with L002 at its own offset. */
  lemma UnexpectedFrom(table: map<char, TokenType>, s: string, k: set<string>, pos: nat, line: nat)
    requires ValidTable(table) && pos < |s| && IsUnexpected(table, s[pos])
    ensures LexFrom(table, s, k, pos, line) == LexResult([], [ParsingError(pos, line, pos, UnexpectedSymbol(s[pos]))])
  {
  }

  /**
   * A quote that nothing closes, with no backslash after it: no token, and
   * L001 at the end of the input with the position in line just after the quote.
   */
  lemma UnclosedFrom(table: map<char, TokenType>, s: string, k: set<string>, pos: nat, line: nat)
    requires ValidTable(table) && pos < |s| && IsQuote(s[pos])
    requires forall m :: pos < m < |s| ==> s[m] != s[pos] && s[m] != '\\'
    ensures LexFrom(table, s, k, pos, line) == LexResult([], [ParsingError(|s|, line, pos + 1, UnterminatedString)])
  {
    QuoteToken(table, s, pos, line);
    var q := table[s[pos]];
    var r := NextToken(table, s, pos, line);
    StringEndSkip(s, pos + 1, |s|, q != QuoteSingle, s[pos]);
  }

  /** The only identifier character a table holds is the underscore. */
  predicate OnlyUnderscore(table: map<char, TokenType>)
  {
    forall c :: c in table && IsIdentChar(c) ==> c == '_'
  }

  /** The lexer's table holds no letter or digit. */
  lemma SymbolTokensLetters()
    ensures OnlyUnderscore(SymbolTokens)
  {
  }

  /** A slice whose characters are those of `v`, one by one, is `v`. */
  lemma SliceIs(s: string, a: nat, v: string)
    requires a + |v| <= |s|
    requires forall i :: 0 <= i < |v| ==> s[a + i] == v[i]
    ensures s[a..a + |v|] == v
  {
  }

  /** Empty input: just EOF. */
  lemma EmptyInput()
    ensures Lex("", {}) == LexResult([TokenData(EOF, 0, 0, "")], [])
  {
    SymbolTokensValid();
    EofPass(SymbolTokens, "", {}, 0, 0);
  }

  /**
   * An input that is one literal with content `v`, holding neither the
   * closing quote nor a backslash: one Text token with text `v`, then EOF.
   */
  lemma QuotedRun(table: map<char, TokenType>, s: string, v: string)
    requires ValidTable(table) && |s| == |v| + 2
    requires IsQuote(s[0]) && s[|s| - 1] == s[0]
    requires forall i :: 0 <= i < |v| ==> s[i + 1] == v[i] && v[i] != s[0] && v[i] != '\\'
    ensures LexFrom(table, s, {}, 0, 0) == LexResult([TokenData(Text, 1, |v|, v), TokenData(EOF, |s|, |s|, "")], [])
  {
    assert forall m :: 0 < m < |s| - 1 ==> s[m] == v[m - 1];
    LiteralFrom(table, s, {}, 0, 0);
    SliceIs(s, 1, v);
  }

  /** A double-quoted literal: one Text token with what lies between the quotes. */
  lemma DoubleQuoted()
    ensures Lex("\"string\"", {}) ==
      LexResult([TokenData(Text, 1, 6, "string"), TokenData(EOF, 8, 8, "")], [])
  {
    SymbolTokensValid();
    QuotedRun(SymbolTokens, "\"string\"", "string");
  }

  /** A single-quoted literal. */
  lemma SingleQuoted()
    ensures Lex("'string'", {}) ==
      LexResult([TokenData(Text, 1, 6, "string"), TokenData(EOF, 8, 8, "")], [])
  {
    SymbolTokensValid();
    QuotedRun(SymbolTokens, "'string'", "string");
  }

  /** A double quote inside a single-quoted literal is content. */
  lemma OtherQuoteInside()
    ensures Lex("'st\"ring'", {}) ==
      LexResult([TokenData(Text, 1, 7, "st\"ring"), TokenData(EOF, 9, 9, "")], [])
  {
    SymbolTokensValid();
    QuotedRun(SymbolTokens, "'st\"ring'", "st\"ring");
  }

  /** Apostrophes inside a double-quoted literal are content. */
  lemma ApostrophesInside()
    ensures Lex("\"'string''''''\"", {}) ==
      LexResult([TokenData(Text, 1, 13, "'string''''''"), TokenData(EOF, 15, 15, "")], [])
  {
    var s := "\"'string''''''\"";
    SymbolTokensValid();
    QuotedRun(SymbolTokens, s, "'string''''''");
  }

  /** The run over a double-quoted literal whose inner quote is escaped by a backslash. */
  lemma EscapedCloseRun(table: map<char, TokenType>, s: string)
    requires ValidTable(table) && |s| == 6
    requires s[0] == '"' && s[1] == 'a' && s[2] == '\\' && s[3] == '"' && s[4] == 'b' && s[5] == '"'
    ensures LexFrom(table, s, {}, 0, 0) ==
      LexResult([TokenData(Text, 1, 4, "a\\\"b"), TokenData(EOF, 6, 6, "")], [])
  {
    QuoteToken(table, s, 0, 0);
    var q := TokenData(table[s[0]], 0, 0, [s[0]]);
    // the loop skips `a`, the backslash sets the flag, the escaped quote clears it, `b` is skipped
    assert StringEnd(s, 5, true, '"', false) == Some(5);
    assert StringEnd(s, 4, true, '"', false) == Some(5);
    assert StringEnd(s, 3, true, '"', true) == Some(5);
    assert StringEnd(s, 2, true, '"', false) == Some(5);
    assert StringEnd(s, 1, true, '"', false) == Some(5);
    QuotePass(table, s, {}, 0, 0, q, 1, 0, 5);
    GoFrom(table, s, {}, 0, 0, MakeToken(Text, s, 1, 4), 6, 0);
    EofPass(table, s, {}, 6, 0);
    SliceIs(s, 1, "a\\\"b");
  }

  /** A backslash escapes the quote after it: `"a\"b"` is one literal with content `a\"b`. */
  lemma EscapedClose()
    ensures Lex("\"a\\\"b\"", {}) ==
      LexResult([TokenData(Text, 1, 4, "a\\\"b"), TokenData(EOF, 6, 6, "")], [])
  {
    SymbolTokensValid();
    EscapedCloseRun(SymbolTokens, "\"a\\\"b\"");
  }

  /** The keyword test vector, character by character. */
  predicate KeywordVector(s: string)
  {
    |s| == 22 &&
    s[0] == 'i' && s[1] == 'f' && s[2] == '(' && s[3] == 't' && s[4] == 'r' && s[5] == 'u' &&
    s[6] == 'e' && s[7] == ')' && s[8] == ' ' && s[9] == '{' && s[10] == ' ' && s[11] == 'd' &&
    s[12] == 'o' && s[13] == '_' && s[14] == 's' && s[15] == 't' && s[16] == 'u' && s[17] == 'f' &&
    s[18] == 'f' && s[19] == ';' && s[20] == ' ' && s[21] == '}'
  }

  /** The predicate pins down the test vector's text. */
  lemma KeywordVectorText(s: string)
    ensures KeywordVector(s) <==> s == "if(true) { do_stuff; }"
  {
    if KeywordVector(s) {
      assert s == "if(true) { do_stuff; }";
    }
  }

  /** What the run over the keyword test vector needs of the symbol table. */
  ghost predicate VectorTable(table: map<char, TokenType>)
  {
    ValidTable(table) && OnlyUnderscore(table) &&
    '(' in table && table['('] == BracketRoundOpen && ')' in table && table[')'] == BracketRoundClose &&
    '{' in table && table['{'] == BracketCurlyOpen && '}' in table && table['}'] == BracketCurlyClose &&
    ';' in table && table[';'] == Semicolon
  }

  /** The lexer's own table has the entries the keyword test vector uses. */
  lemma SymbolTokensVector()
    ensures VectorTable(SymbolTokens)
  {
    SymbolTokensValid();
    SymbolTokensLetters();
  }

  /** The keyword vector from offset 19: the semicolon, the closing brace and EOF. */
  lemma VectorTail(table: map<char, TokenType>, s: string, k: set<string>)
    requires VectorTable(table) && KeywordVector(s)
    ensures LexFrom(table, s, k, 19, 0) == LexResult(
        [TokenData(Semicolon, 19, 19, ";")] +
        ([TokenData(BracketCurlyClose, 21, 21, "}")] +
        ([TokenData(EOF, 22, 22, "")])), [])
  {
    EofPass(table, s, k, 22, 0);
    SymbolFrom(table, s, k, 21, 0);
    SpaceFrom(table, s, k, 20, 0);
    SymbolFrom(table, s, k, 19, 0);
  }

  /** The keyword vector from offset 8: the block. */
  lemma VectorBlock(table: map<char, TokenType>, s: string, k: set<string>)
    requires VectorTable(table) && KeywordVector(s) && "do_stuff" !in k
    ensures LexFrom(table, s, k, 8, 0) == LexResult(
        [TokenData(BracketCurlyOpen, 9, 9, "{")] +
        ([TokenData(Identifier, 11, 18, "do_stuff")] +
        ([TokenData(Semicolon, 19, 19, ";")] +
        ([TokenData(BracketCurlyClose, 21, 21, "}")] +
        ([TokenData(EOF, 22, 22, "")])))), [])
  {
    VectorTail(table, s, k);
    assert s[11..19] == "do_stuff";
    IdentFrom(table, s, k, 11, 0, 19);
    SpaceFrom(table, s, k, 10, 0);
    SymbolFrom(table, s, k, 9, 0);
    SpaceFrom(table, s, k, 8, 0);
  }

  /** The keyword vector from offset 7: the closing parenthesis and the block. */
  lemma VectorClose(table: map<char, TokenType>, s: string, k: set<string>)
    requires VectorTable(table) && KeywordVector(s) && "do_stuff" !in k
    ensures LexFrom(table, s, k, 7, 0) == LexResult(
        [TokenData(BracketRoundClose, 7, 7, ")")] +
        ([TokenData(BracketCurlyOpen, 9, 9, "{")] +
        ([TokenData(Identifier, 11, 18, "do_stuff")] +
        ([TokenData(Semicolon, 19, 19, ";")] +
        ([TokenData(BracketCurlyClose, 21, 21, "}")] +
        ([TokenData(EOF, 22, 22, "")]))))), [])
  {
    VectorBlock(table, s, k);
    SymbolFrom(table, s, k, 7, 0);
  }

  /** The keyword vector from offset 3: the keyword inside the parentheses onwards. */
  lemma VectorTrue(table: map<char, TokenType>, s: string, k: set<string>)
    requires VectorTable(table) && KeywordVector(s) && "true" in k && "do_stuff" !in k
    ensures LexFrom(table, s, k, 3, 0) == LexResult(
        [TokenData(Keyword, 3, 6, "true")] +
        ([TokenData(BracketRoundClose, 7, 7, ")")] +
        ([TokenData(BracketCurlyOpen, 9, 9, "{")] +
        ([TokenData(Identifier, 11, 18, "do_stuff")] +
        ([TokenData(Semicolon, 19, 19, ";")] +
        ([TokenData(BracketCurlyClose, 21, 21, "}")] +
        ([TokenData(EOF, 22, 22, "")])))))), [])
  {
    VectorClose(table, s, k);
    assert s[3..7] == "true";
    IdentFrom(table, s, k, 3, 0, 7);
  }

  /** The keyword vector from offset 2: the parenthesised condition and the block. */
  lemma VectorCondition(table: map<char, TokenType>, s: string, k: set<string>)
    requires VectorTable(table) && KeywordVector(s) && "true" in k && "do_stuff" !in k
    ensures LexFrom(table, s, k, 2, 0) == LexResult(
        [TokenData(BracketRoundOpen, 2, 2, "(")] +
        ([TokenData(Keyword, 3, 6, "true")] +
        ([TokenData(BracketRoundClose, 7, 7, ")")] +
        ([TokenData(BracketCurlyOpen, 9, 9, "{")] +
        ([TokenData(Identifier, 11, 18, "do_stuff")] +
        ([TokenData(Semicolon, 19, 19, ";")] +
        ([TokenData(BracketCurlyClose, 21, 21, "}")] +
        ([TokenData(EOF, 22, 22, "")]))))))), [])
  {
    VectorTrue(table, s, k);
    SymbolFrom(table, s, k, 2, 0);
  }

  /** The keyword vector from offset 0. */
  lemma VectorRun(table: map<char, TokenType>, s: string, k: set<string>)
    requires VectorTable(table) && KeywordVector(s) && "if" in k && "true" in k && "do_stuff" !in k
    ensures LexFrom(table, s, k, 0, 0) == LexResult(
        [TokenData(Keyword, 0, 1, "if")] +
        ([TokenData(BracketRoundOpen, 2, 2, "(")] +
        ([TokenData(Keyword, 3, 6, "true")] +
        ([TokenData(BracketRoundClose, 7, 7, ")")] +
        ([TokenData(BracketCurlyOpen, 9, 9, "{")] +
        ([TokenData(Identifier, 11, 18, "do_stuff")] +
        ([TokenData(Semicolon, 19, 19, ";")] +
        ([TokenData(BracketCurlyClose, 21, 21, "}")] +
        ([TokenData(EOF, 22, 22, "")])))))))), [])
  {
    VectorCondition(table, s, k);
    assert s[0..2] == "if";
    IdentFrom(table, s, k, 0, 0, 2);
  }

  /** The tokens of the keyword vector, one after another. */
  lemma VectorTokens(ts: seq<TokenData>)
    requires ts ==
      [TokenData(Keyword, 0, 1, "if")] +
      ([TokenData(BracketRoundOpen, 2, 2, "(")] +
      ([TokenData(Keyword, 3, 6, "true")] +
      ([TokenData(BracketRoundClose, 7, 7, ")")] +
      ([TokenData(BracketCurlyOpen, 9, 9, "{")] +
      ([TokenData(Identifier, 11, 18, "do_stuff")] +
      ([TokenData(Semicolon, 19, 19, ";")] +
      ([TokenData(BracketCurlyClose, 21, 21, "}")] +
      ([TokenData(EOF, 22, 22, "")]))))))))
    ensures ts == [TokenData(Keyword, 0, 1, "if"), TokenData(BracketRoundOpen, 2, 2, "("), TokenData(Keyword, 3, 6, "true"),
                   TokenData(BracketRoundClose, 7, 7, ")"), TokenData(BracketCurlyOpen, 9, 9, "{"), TokenData(Identifier, 11, 18, "do_stuff"),
                   TokenData(Semicolon, 19, 19, ";"), TokenData(BracketCurlyClose, 21, 21, "}"), TokenData(EOF, 22, 22, "")]
  {
    assert |ts| == 9;
    assert ts[0] == TokenData(Keyword, 0, 1, "if");
    assert ts[1] == TokenData(BracketRoundOpen, 2, 2, "(");
    assert ts[2] == TokenData(Keyword, 3, 6, "true");
    assert ts[3] == TokenData(BracketRoundClose, 7, 7, ")");
    assert ts[4] == TokenData(BracketCurlyOpen, 9, 9, "{");
    assert ts[5] == TokenData(Identifier, 11, 18, "do_stuff");
    assert ts[6] == TokenData(Semicolon, 19, 19, ";");
    assert ts[7] == TokenData(BracketCurlyClose, 21, 21, "}");
    assert ts[8] == TokenData(EOF, 22, 22, "");
  }

  /**
   * Keywords, brackets and an identifier with an inner underscore: the test
   * vector `if(true) { do_stuff; }` with the keywords `if` and `true`.
   */
  lemma KeywordsAndSymbols(s: string, k: set<string>)
    requires KeywordVector(s) && k == {"if", "true"}
    ensures Lex(s, k) ==
      LexResult([TokenData(Keyword, 0, 1, "if"), TokenData(BracketRoundOpen, 2, 2, "("), TokenData(Keyword, 3, 6, "true"),
                 TokenData(BracketRoundClose, 7, 7, ")"), TokenData(BracketCurlyOpen, 9, 9, "{"), TokenData(Identifier, 11, 18, "do_stuff"),
                 TokenData(Semicolon, 19, 19, ";"), TokenData(BracketCurlyClose, 21, 21, "}"), TokenData(EOF, 22, 22, "")], [])
  {
    SymbolTokensVector();
    VectorRun(SymbolTokens, s, k);
    VectorTokens(Lex(s, k).tokens);
  }

  /** A literal that nothing closes: no token, one L001 error just after the quote. */
  lemma Unterminated()
    ensures Lex("\"abc", {}) == LexResult([], [ParsingError(4, 0, 1, UnterminatedString)])
  {
    SymbolTokensValid();
    UnclosedFrom(SymbolTokens, "\"abc", {}, 0, 0);
  }

  /** The run over an input with an unexpected character after a newline. */
  lemma UnexpectedAfterNewlineRun(table: map<char, TokenType>, s: string)
    requires ValidTable(table) && OnlyUnderscore(table) && '|' !in table
    requires |s| == 5
    requires s[0] == 'x' && s[1] == '\n' && s[2] == ' ' && s[3] == ' ' && s[4] == '|'
    ensures LexFrom(table, s, {}, 0, 0) ==
      LexResult([TokenData(Identifier, 0, 0, "x")], [ParsingError(4, 1, 4, UnexpectedSymbol('|'))])
  {
    UnexpectedFrom(table, s, {}, 4, 1);
    SpaceFrom(table, s, {}, 3, 1);
    SpaceFrom(table, s, {}, 2, 1);
    SpaceFrom(table, s, {}, 1, 0);
    assert s[0..1] == "x";
    IdentFrom(table, s, {}, 0, 0, 1);
  }

  /**
   * An unexpected character after a newline: the line counter has moved on,
   * but the position in line is still the offset from the start of the input.
   */
  lemma UnexpectedAfterNewline()
    ensures Lex("x\n  |", {}) == LexResult([TokenData(Identifier, 0, 0, "x")], [ParsingError(4, 1, 4, UnexpectedSymbol('|'))])
  {
    SymbolTokensValid();
    SymbolTokensLetters();
    UnexpectedAfterNewlineRun(SymbolTokens, "x\n  |");
  }

  /** The run over an input that starts with an underscore. */
  lemma LeadingUnderscoreRun(table: map<char, TokenType>, s: string)
    requires ValidTable(table) && OnlyUnderscore(table)
    requires '_' in table && table['_'] == Underscore
    requires |s| == 4
    requires s[0] == '_' && s[1] == 'a' && s[2] == '_' && s[3] == 'b'
    ensures LexFrom(table, s, {}, 0, 0) ==
      LexResult([TokenData(Underscore, 0, 0, "_"), TokenData(Identifier, 1, 3, "a_b"), TokenData(EOF, 4, 4, "")], [])
  {
    EofPass(table, s, {}, 4, 0);
    SliceIs(s, 1, "a_b");
    IdentFrom(table, s, {}, 1, 0, 4);
    SymbolFrom(table, s, {}, 0, 0);
  }

  /** A leading underscore is a symbol of its own; after it, underscores belong to the identifier. */
  lemma LeadingUnderscore()
    ensures Lex("_a_b", {}) ==
      LexResult([TokenData(Underscore, 0, 0, "_"), TokenData(Identifier, 1, 3, "a_b"), TokenData(EOF, 4, 4, "")], [])
  {
    SymbolTokensValid();
    SymbolTokensLetters();
    LeadingUnderscoreRun(SymbolTokens, "_a_b");
  }
}
