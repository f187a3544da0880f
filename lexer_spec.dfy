/**
 * The lexer's behaviour as pure functions: the symbol table, the character
 * classes, the three scanning loops (whitespace, identifier, string literal)
 * as recursive functions, one step of the scanner (NextToken) and the whole
 * run (Lex), with the properties the scanner guarantees proved as lemmas.
 */
module LexerSpec {
  import opened Wrappers
  import opened Tokens
  import opened ParsingErrors

  /** The fixed one-character symbol table (looked up before the identifier alphabet). */
  const SymbolTokens: map<char, TokenType> := map[
    '`' := QuoteAcute, '\'' := QuoteSingle, '"' := QuoteDouble,
    '~' := Tilde, '!' := Exclamation, '@' := At, '#' := Hash, '$' := Dollar,
    '%' := Percent, '^' := Caret, '&' := Ampersand, '*' := Asterisk,
    '(' := BracketRoundOpen, ')' := BracketRoundClose, '_' := Underscore,
    '=' := Equal, ';' := Semicolon, ':' := Colon,
    '<' := BracketCornerOpen, '>' := BracketCornerClose,
    '{' := BracketCurlyOpen, '}' := BracketCurlyClose,
    '[' := BracketSquareOpen, ']' := BracketSquareClose,
    '.' := Dot, ',' := Comma, '?' := Question, '+' := Plus, '-' := Minus,
    '\\' := BackSlash, '/' := Slash, '\n' := EOL]

  /** The message of an L001 error. */
  const UnterminatedString: string := "L001: End of file in a string literal"

  /** The message of an L002 error for the offending character `c`. */
  function UnexpectedSymbol(c: char): string
  {
    "L002: unexpected symbol '" + [c] + "'"
  }

  predicate IsWhitespace(c: char)
  {
    c == ' ' || c == '\t' || c == '\r' || c == '\n'
  }

  /** The identifier alphabet: ASCII letters, digits and the underscore. */
  predicate IsIdentChar(c: char)
  {
    ('a' <= c <= 'z') || ('A' <= c <= 'Z') || ('0' <= c <= '9') || c == '_'
  }

  predicate IsQuote(c: char)
  {
    c == '"' || c == '\'' || c == '`'
  }

  predicate IsQuoteKind(k: TokenType)
  {
    k == QuoteDouble || k == QuoteSingle || k == QuoteAcute
  }

  /** A character the scanner cannot start any token with. */
  predicate IsUnexpected(table: map<char, TokenType>, c: char)
  {
    !IsWhitespace(c) && c !in table && !IsIdentChar(c)
  }

  /** Whether a literal opened by the quote `q` honours backslash escapes. */
  predicate EscapesIn(q: char)
  {
    q != '\''
  }

  /**
   * What the scanner relies on about a symbol table: it never yields a word
   * kind or EOF, it yields EOL only for a newline, and it yields a quote kind
   * exactly for the three quote characters (QuoteSingle for the apostrophe),
   * and it holds all three quote characters.
   */
  ghost predicate ValidTable(table: map<char, TokenType>)
  {
    (forall c :: c in table ==>
      table[c] != Keyword && table[c] != Identifier && table[c] != Text && table[c] != EOF &&
      (table[c] == EOL <==> c == '\n') &&
      (IsQuoteKind(table[c]) <==> IsQuote(c)) &&
      (table[c] == QuoteSingle <==> c == '\'')) &&
    HasQuotes(table)
  }

  /** The table holds the three quote characters, so none of them is an unexpected symbol. */
  predicate HasQuotes(table: map<char, TokenType>)
  {
    '"' in table && '\'' in table && '`' in table
  }

  /** The lexer's own table has those properties. */
  lemma SymbolTokensValid()
    ensures ValidTable(SymbolTokens)
  {
    assert '"' in SymbolTokens && '\'' in SymbolTokens && '`' in SymbolTokens;
    SymbolTokensKinds();
    SymbolTokensEol();
    SymbolTokensQuotes();
  }

  /** The table never yields a word kind or EOF. */
  lemma SymbolTokensKinds()
    ensures forall c :: c in SymbolTokens ==>
      SymbolTokens[c] != Keyword && SymbolTokens[c] != Identifier && SymbolTokens[c] != Text && SymbolTokens[c] != EOF
  {
  }

  /** The table yields EOL exactly for a newline. */
  lemma SymbolTokensEol()
    ensures forall c :: c in SymbolTokens ==> (SymbolTokens[c] == EOL <==> c == '\n')
  {
  }

  /** The table yields a quote kind exactly for a quote character, and QuoteSingle exactly for the apostrophe. */
  lemma SymbolTokensQuotes()
    ensures forall c :: c in SymbolTokens ==> (IsQuoteKind(SymbolTokens[c]) <==> IsQuote(c))
    ensures forall c :: c in SymbolTokens ==> (SymbolTokens[c] == QuoteSingle <==> c == '\'')
  {
  }

  // ---------------------------------------------------------------------
  // Newline counting

  /** The number of newlines among `s[a]`, ..., `s[b - 1]`. */
  function Newlines(s: string, a: int, b: int): nat
    requires 0 <= a <= b <= |s|
    decreases b - a
  {
    if a == b then 0 else (if s[a] == '\n' then 1 else 0) + Newlines(s, a + 1, b)
  }

  /** Counting over two adjacent ranges adds up. */
  lemma {:induction false} NewlinesSplit(s: string, a: int, b: int, d: int)
    requires 0 <= a <= b <= d <= |s|
    ensures Newlines(s, a, d) == Newlines(s, a, b) + Newlines(s, b, d)
    decreases b - a
  {
    if a < b {
      NewlinesSplit(s, a + 1, b, d);
    }
  }

  /** A range without a newline counts none. */
  lemma {:induction false} NewlinesAbsent(s: string, a: int, b: int)
    requires 0 <= a <= b <= |s|
    requires forall i :: a <= i < b ==> s[i] != '\n'
    ensures Newlines(s, a, b) == 0
    decreases b - a
  {
    if a < b {
      NewlinesAbsent(s, a + 1, b);
    }
  }

  /** A copy `v` of the range `s[a..b]` holds as many newlines from `k` on as the range does from `a + k` on. */
  lemma {:induction false} NewlinesCopy(s: string, a: int, b: int, v: string, k: int)
    requires 0 <= a <= b <= |s| && |v| == b - a && 0 <= k <= |v|
    requires forall i :: 0 <= i < |v| ==> v[i] == s[a + i]
    ensures Newlines(v, k, |v|) == Newlines(s, a + k, b)
    decreases |v| - k
  {
    if k < |v| {
      NewlinesCopy(s, a, b, v, k + 1);
    }
  }

  // ---------------------------------------------------------------------
  // The scanning loops

  /**
   * The identifier loop: the end (exclusive) of the run of identifier
   * characters from `pos`. The run stops at the end of input or at a
   * character outside the identifier alphabet; IdentEndRun shows that every
   * character it covers is in the alphabet, so the run is maximal.
   */
  function IdentEnd(s: string, pos: nat): (e: nat)
    requires pos <= |s|
    ensures pos <= e <= |s|
    ensures e == |s| || !IsIdentChar(s[e])
    decreases |s| - pos
  {
    if pos < |s| && IsIdentChar(s[pos]) then IdentEnd(s, pos + 1) else pos
  }

  /** Every character the identifier loop covers is an identifier character. */
  lemma {:induction false} IdentEndRun(s: string, pos: nat)
    requires pos <= |s|
    ensures forall i :: pos <= i < IdentEnd(s, pos) ==> IsIdentChar(s[i])
    decreases |s| - pos
  {
    if pos < |s| && IsIdentChar(s[pos]) {
      IdentEndRun(s, pos + 1);
    }
  }

  /**
   * The string-literal loop from offset `i` with the escape flag `escapeMode`:
   * the offset of the terminating `endSymbol`, or None at end of input.
   */
  function StringEnd(s: string, i: nat, escapeSymbols: bool, endSymbol: char, escapeMode: bool): (r: Option<nat>)
    requires i <= |s|
    ensures r.Some? ==> i <= r.value < |s| && s[r.value] == endSymbol
    decreases |s| - i
  {
    if i == |s| then None
    else if s[i] == endSymbol && !escapeMode then Some(i)
    else if escapeSymbols && s[i] == '\\' then StringEnd(s, i + 1, escapeSymbols, endSymbol, !escapeMode)
    else StringEnd(s, i + 1, escapeSymbols, endSymbol, false)
  }

  // ---------------------------------------------------------------------
  // Escapes, stated without the toggle

  /** The number of consecutive backslashes just before offset `i`, not looking before `from`. */
  function BackslashRun(s: string, from: nat, i: nat): nat
    requires from <= i <= |s|
    decreases i
  {
    if i == from || s[i - 1] != '\\' then 0 else 1 + BackslashRun(s, from, i - 1)
  }

  /** A character is escaped when escapes are on and an odd run of backslashes precedes it. */
  predicate EscapedAt(s: string, from: nat, i: nat, escapeSymbols: bool)
    requires from <= i <= |s|
  {
    escapeSymbols && BackslashRun(s, from, i) % 2 == 1
  }

  /** Offset `i` holds an unescaped `endSymbol` of a literal whose content starts at `from`. */
  predicate ClosesAt(s: string, from: nat, i: nat, escapeSymbols: bool, endSymbol: char)
    requires from <= i < |s|
  {
    s[i] == endSymbol && !EscapedAt(s, from, i, escapeSymbols)
  }

  /** `e` is the first offset at or after `from` that closes the literal. */
  predicate FirstClose(s: string, from: nat, e: nat, escapeSymbols: bool, endSymbol: char)
  {
    from <= e < |s| && ClosesAt(s, from, e, escapeSymbols, endSymbol) &&
    forall j :: from <= j < e ==> !ClosesAt(s, from, j, escapeSymbols, endSymbol)
  }

  /** Nothing at or after `from` closes the literal. */
  predicate NeverCloses(s: string, from: nat, escapeSymbols: bool, endSymbol: char)
    requires from <= |s|
  {
    forall j :: from <= j < |s| ==> !ClosesAt(s, from, j, escapeSymbols, endSymbol)
  }

  lemma {:induction false} StringEndFrom(s: string, from: nat, i: nat, escapeSymbols: bool, endSymbol: char, escapeMode: bool)
    requires from <= i <= |s| && endSymbol != '\\'
    requires escapeMode == EscapedAt(s, from, i, escapeSymbols)
    requires forall j :: from <= j < i ==> !ClosesAt(s, from, j, escapeSymbols, endSymbol)
    ensures match StringEnd(s, i, escapeSymbols, endSymbol, escapeMode)
      case Some(e) => FirstClose(s, from, e, escapeSymbols, endSymbol)
      case None => NeverCloses(s, from, escapeSymbols, endSymbol)
    decreases |s| - i
  {
    if i == |s| {
    } else if s[i] == endSymbol && !escapeMode {
    } else if escapeSymbols && s[i] == '\\' {
      assert BackslashRun(s, from, i + 1) == 1 + BackslashRun(s, from, i);
      StringEndFrom(s, from, i + 1, escapeSymbols, endSymbol, !escapeMode);
    } else {
      assert BackslashRun(s, from, i + 1) == 0 || !escapeSymbols;
      StringEndFrom(s, from, i + 1, escapeSymbols, endSymbol, false);
    }
  }

  /**
   * The toggle loop finds exactly the first unescaped closing quote, where
   * "escaped" means preceded by an odd run of backslashes inside the literal;
   * it reports end of input exactly when there is none.
   */
  lemma StringEndCharacterized(s: string, from: nat, escapeSymbols: bool, endSymbol: char)
    requires from <= |s| && endSymbol != '\\'
    ensures forall e: nat :: StringEnd(s, from, escapeSymbols, endSymbol, false) == Some(e) <==> FirstClose(s, from, e, escapeSymbols, endSymbol)
    ensures StringEnd(s, from, escapeSymbols, endSymbol, false) == None <==> NeverCloses(s, from, escapeSymbols, endSymbol)
  {
    StringEndFrom(s, from, from, escapeSymbols, endSymbol, false);
    forall e: nat | FirstClose(s, from, e, escapeSymbols, endSymbol)
      ensures StringEnd(s, from, escapeSymbols, endSymbol, false) == Some(e)
    {
      if StringEnd(s, from, escapeSymbols, endSymbol, false).Some? {
        var e' := StringEnd(s, from, escapeSymbols, endSymbol, false).value;
        assert !(e' < e) && !(e < e');
      }
    }
  }

  // ---------------------------------------------------------------------
  // One scanner step

  /** The result of asking for the next token. */
  datatype Step = Emit(token: TokenData, position: nat, line: nat) | Fail(error: ParsingError)

  /** `s[a..b]` is in range and holds only whitespace. */
  predicate Blank(s: string, a: int, b: int)
  {
    0 <= a <= b <= |s| && forall i :: a <= i < b ==> IsWhitespace(s[i])
  }

  /** The end-of-input token. */
  predicate EofShape(s: string, t: TokenData)
  {
    t.kind == EOF && t.startPosition == t.endPosition == |s| && t.value == ""
  }

  /** A one-character symbol token, of the kind the table gives its character. */
  predicate SymbolShape(table: map<char, TokenType>, s: string, t: TokenData)
  {
    0 <= t.startPosition == t.endPosition < |s| &&
    s[t.startPosition] in table && t.kind == table[s[t.startPosition]] &&
    t.value == [s[t.startPosition]]
  }

  /**
   * An identifier span: it starts at a character outside the symbol table and
   * covers a maximal run (to the right) of identifier characters.
   */
  predicate IdentShape(table: map<char, TokenType>, s: string, t: TokenData)
  {
    0 <= t.startPosition <= t.endPosition < |s| &&
    s[t.startPosition] !in table &&
    (forall i :: t.startPosition <= i <= t.endPosition ==> IsIdentChar(s[i])) &&
    (t.endPosition + 1 == |s| || !IsIdentChar(s[t.endPosition + 1])) &&
    t.value == s[t.startPosition..t.endPosition + 1]
  }

  /**
   * One step of the scanner from offset `pos` on line `line`: EOF at the end of
   * input; whitespace is skipped, a newline adding one to the line counter;
   * then a symbol token of the table, an identifier run, or an L002 error.
   * Every step that yields a token other than EOF moves past `pos`.
   */
  function NextToken(table: map<char, TokenType>, s: string, pos: nat, line: nat): (r: Step)
    requires pos <= |s|
    ensures r.Emit? ==> r.position <= |s| && (r.token.kind != EOF ==> pos < r.position)
    decreases |s| - pos
  {
    if pos == |s| then
      Emit(MakeToken(EOF, s, pos, -1), pos, line)
    else if IsWhitespace(s[pos]) then
      NextToken(table, s, pos + 1, line + if s[pos] == '\n' then 1 else 0)
    else if s[pos] in table then
      Emit(MakeToken(table[s[pos]], s, pos, pos), pos + 1, line)
    else if IsIdentChar(s[pos]) then
      Emit(MakeToken(Identifier, s, pos, IdentEnd(s, pos) - 1), IdentEnd(s, pos), line)
    else
      Fail(ParsingError(pos, line, pos, UnexpectedSymbol(s[pos])))
  }

  /**
   * What a step from offset `pos` on line `line` does: it skips only whitespace
   * (counting its newlines) and then yields EOF exactly at the end of input, a
   * one-character symbol token, a maximal identifier run, or an L002 error for
   * the character it stopped at.
   */
  predicate StepShape(table: map<char, TokenType>, s: string, pos: nat, line: nat, r: Step)
  {
    match r
    case Emit(t, p, l) =>
      Blank(s, pos, t.startPosition) &&
      l == line + Newlines(s, pos, t.startPosition) &&
      (if t.kind == EOF then EofShape(s, t)
       else if t.kind == Identifier then IdentShape(table, s, t)
       else SymbolShape(table, s, t) && !IsWhitespace(s[t.startPosition])) &&
      p == (if t.kind == EOF then |s| else t.endPosition + 1)
    case Fail(e) =>
      Blank(s, pos, e.position) && e.position < |s| &&
      e.line == line + Newlines(s, pos, e.position) &&
      e.positionInLine == e.position &&
      IsUnexpected(table, s[e.position]) &&
      e.text == UnexpectedSymbol(s[e.position])
  }

  /** Over a table that meets ValidTable, every step has the shape StepShape describes. */
  lemma {:induction false} NextTokenShape(table: map<char, TokenType>, s: string, pos: nat, line: nat)
    requires pos <= |s|
    requires ValidTable(table)
    ensures StepShape(table, s, pos, line, NextToken(table, s, pos, line))
    decreases |s| - pos
  {
    if pos == |s| {
    } else if IsWhitespace(s[pos]) {
      var l := line + if s[pos] == '\n' then 1 else 0;
      NextTokenShape(table, s, pos + 1, l);
      SkipStep(table, s, pos, line, NextToken(table, s, pos + 1, l));
    } else if s[pos] in table {
      SymbolToken(table, s, pos);
    } else if IsIdentChar(s[pos]) {
      IdentToken(table, s, pos);
    }
  }

  /** Skipping one whitespace character keeps the shape of the step found after it. */
  lemma SkipStep(table: map<char, TokenType>, s: string, pos: nat, line: nat, r: Step)
    requires pos < |s| && IsWhitespace(s[pos])
    requires StepShape(table, s, pos + 1, line + if s[pos] == '\n' then 1 else 0, r)
    ensures StepShape(table, s, pos, line, r)
  {
  }

  /** Whitespace at `pos` is skipped, and a newline advances the line counter. */
  lemma NextAfterSpace(table: map<char, TokenType>, s: string, pos: nat, line: nat)
    requires pos < |s| && IsWhitespace(s[pos])
    ensures NextToken(table, s, pos, line) == NextToken(table, s, pos + 1, line + if s[pos] == '\n' then 1 else 0)
  {
  }

  /** At the end of the input the step yields EOF there. */
  lemma NextAtEnd(table: map<char, TokenType>, s: string, line: nat)
    ensures NextToken(table, s, |s|, line) == Emit(MakeToken(EOF, s, |s|, -1), |s|, line)
  {
  }

  /** At a table character the step yields its one-character symbol token. */
  lemma NextAtSymbol(table: map<char, TokenType>, s: string, pos: nat, line: nat)
    requires pos < |s| && !IsWhitespace(s[pos]) && s[pos] in table
    ensures NextToken(table, s, pos, line) == Emit(MakeToken(table[s[pos]], s, pos, pos), pos + 1, line)
  {
  }

  /** At an identifier character outside the table the step yields the maximal run from it. */
  lemma NextAtIdent(table: map<char, TokenType>, s: string, pos: nat, line: nat)
    requires pos < |s| && !IsWhitespace(s[pos]) && s[pos] !in table && IsIdentChar(s[pos])
    ensures NextToken(table, s, pos, line) == Emit(MakeToken(Identifier, s, pos, IdentEnd(s, pos) - 1), IdentEnd(s, pos), line)
  {
  }

  /** At any other character the step fails with L002 there. */
  lemma NextAtUnexpected(table: map<char, TokenType>, s: string, pos: nat, line: nat)
    requires pos < |s| && IsUnexpected(table, s[pos])
    ensures NextToken(table, s, pos, line) == Fail(ParsingError(pos, line, pos, UnexpectedSymbol(s[pos])))
  {
  }

  /** The token built for a table character at `c`. */
  lemma SymbolToken(table: map<char, TokenType>, s: string, c: nat)
    requires c < |s| && s[c] in table
    ensures var t := MakeToken(table[s[c]], s, c, c); SymbolShape(table, s, t) && t.endPosition == c
  {
    assert s[c..c + 1] == [s[c]];
  }

  /** The token built for an identifier run starting at `c`. */
  lemma IdentToken(table: map<char, TokenType>, s: string, c: nat)
    requires c < |s| && s[c] !in table && IsIdentChar(s[c])
    ensures var t := MakeToken(Identifier, s, c, IdentEnd(s, c) - 1);
      IdentShape(table, s, t) && t.endPosition == IdentEnd(s, c) - 1
  {
    IdentEndRun(s, c);
  }

  // ---------------------------------------------------------------------
  // The shape of a run

  /** A Text token: the content strictly between a quote and the first unescaped matching quote. */
  predicate TextShape(s: string, t: TokenData)
  {
    1 <= t.startPosition <= t.endPosition + 1 < |s| &&
    IsQuote(s[t.startPosition - 1]) &&
    FirstClose(s, t.startPosition, t.endPosition + 1, EscapesIn(s[t.startPosition - 1]), s[t.startPosition - 1]) &&
    t.value == s[t.startPosition..t.endPosition + 1]
  }

  /** What every token a run appends looks like, kind by kind. */
  predicate OutputToken(table: map<char, TokenType>, s: string, keywords: set<string>, t: TokenData)
  {
    if t.kind == EOF then EofShape(s, t)
    else if t.kind == Text then TextShape(s, t)
    else if t.kind == Identifier then IdentShape(table, s, t) && t.value !in keywords
    else if t.kind == Keyword then IdentShape(table, s, t) && t.value in keywords
    else SymbolShape(table, s, t) && !IsWhitespace(s[t.startPosition]) && !IsQuote(s[t.startPosition])
  }

  /** Where the characters a token was read from begin: a Text token's opening quote precedes it. */
  function LexemeStart(t: TokenData): int
  {
    if t.kind == Text then t.startPosition - 1 else t.startPosition
  }

  /** Where scanning resumes after a token: past a Text token's closing quote, at the end after EOF. */
  function LexemeEnd(t: TokenData): int
  {
    if t.kind == Text then t.endPosition + 2
    else if t.kind == EOF then t.startPosition
    else t.endPosition + 1
  }

  /** An L002 error: an unexpected character, reported at its own offset. */
  predicate L002Shape(table: map<char, TokenType>, s: string, e: ParsingError)
  {
    0 <= e.position < |s| && e.positionInLine == e.position &&
    IsUnexpected(table, s[e.position]) && e.text == UnexpectedSymbol(s[e.position])
  }

  /**
   * An L001 error: reported at the end of input, with the position-in-line
   * counter just after an opening quote that nothing closes.
   */
  predicate L001Shape(s: string, e: ParsingError)
  {
    e.position == |s| && 1 <= e.positionInLine <= |s| &&
    IsQuote(s[e.positionInLine - 1]) &&
    NeverCloses(s, e.positionInLine, EscapesIn(s[e.positionInLine - 1]), s[e.positionInLine - 1]) &&
    e.text == UnterminatedString
  }

  /** The error that ends a run looked for from `pos` on line `line`, after whitespace only. */
  predicate ErrorFrom(table: map<char, TokenType>, s: string, pos: int, line: int, e: ParsingError)
  {
    (L002Shape(table, s, e) && Blank(s, pos, e.position) &&
     e.line == line + Newlines(s, pos, e.position)) ||
    (L001Shape(s, e) && Blank(s, pos, e.positionInLine - 1) &&
     e.line == line + Newlines(s, pos, e.positionInLine - 1))
  }

  /**
   * The run from offset `pos` on line `line`, described without the scanner:
   * each token is preceded by whitespace only and has the shape its kind
   * demands; the next one is looked for where its lexeme ends, on the line
   * advanced by the newlines of that whitespace. The run ends with EOF and no
   * error, or with exactly one error where the next token would have started.
   */
  predicate RunFrom(table: map<char, TokenType>, s: string, keywords: set<string>, pos: int, line: int,
                    ts: seq<TokenData>, errs: seq<ParsingError>)
    decreases |ts|
  {
    if ts == [] then
      |errs| == 1 && ErrorFrom(table, s, pos, line, errs[0])
    else
      var t := ts[0];
      Blank(s, pos, LexemeStart(t)) && OutputToken(table, s, keywords, t) &&
      if t.kind == EOF then ts == [t] && errs == []
      else RunFrom(table, s, keywords, LexemeEnd(t), line + Newlines(s, pos, LexemeStart(t)), ts[1..], errs)
  }

  // ---------------------------------------------------------------------
  // How each kind of step extends a run

  /**
   * What one pass that goes on establishes: its token is not EOF, is preceded
   * by whitespace only from `pos`, has the shape its kind demands, and the run
   * resumes where its lexeme ends (`next`), on the line advanced by the
   * newlines of that whitespace (`l`).
   */
  predicate Leads(table: map<char, TokenType>, s: string, keywords: set<string>, pos: int, line: int,
                  t: TokenData, next: int, l: int)
  {
    Blank(s, pos, LexemeStart(t)) && OutputToken(table, s, keywords, t) && t.kind != EOF &&
    next == LexemeEnd(t) && l == line + Newlines(s, pos, LexemeStart(t))
  }

  /** A token that leads to `next` on line `l`, in front of the run from there. */
  lemma RunPrepend(table: map<char, TokenType>, s: string, keywords: set<string>, pos: int, line: int,
                   t: TokenData, next: int, l: int, rest: LexResult)
    requires Leads(table, s, keywords, pos, line, t, next, l)
    requires RunFrom(table, s, keywords, next, l, rest.tokens, rest.errors)
    ensures RunFrom(table, s, keywords, pos, line, [t] + rest.tokens, rest.errors)
  {
    assert ([t] + rest.tokens)[1..] == rest.tokens;
  }

  /** A step that fails is a whole run: it records its L002 error. */
  lemma FailStep(table: map<char, TokenType>, s: string, keywords: set<string>, pos: nat, line: nat, r: Step)
    requires pos <= |s| && ValidTable(table) && r == NextToken(table, s, pos, line) && r.Fail?
    ensures RunFrom(table, s, keywords, pos, line, [], [r.error])
  {
    NextTokenShape(table, s, pos, line);
  }

  /** A step that yields EOF is a whole run: it records that token and no error. */
  lemma EofStep(table: map<char, TokenType>, s: string, keywords: set<string>, pos: nat, line: nat, r: Step)
    requires pos <= |s| && ValidTable(table) && r == NextToken(table, s, pos, line) && r.Emit? && r.token.kind == EOF
    ensures RunFrom(table, s, keywords, pos, line, [r.token], [])
  {
    NextTokenShape(table, s, pos, line);
  }

  /** A step that yields a quote: what the literal loop is started with. */
  lemma QuoteStep(table: map<char, TokenType>, s: string, pos: nat, line: nat, r: Step)
    requires pos <= |s| && ValidTable(table) && r == NextToken(table, s, pos, line) && r.Emit? && IsQuoteKind(r.token.kind)
    ensures var p := r.position;
      1 <= p <= |s| && Blank(s, pos, p - 1) && IsQuote(s[p - 1]) && r.line == line + Newlines(s, pos, p - 1) &&
      |r.token.value| == 1 && r.token.value[0] == s[p - 1] && (r.token.kind != QuoteSingle) == EscapesIn(s[p - 1])
  {
    var t := r.token;
    NextTokenShape(table, s, pos, line);
    assert SymbolShape(table, s, t);
    var c := s[t.startPosition];
    assert t.kind == table[c];
    assert IsQuoteKind(table[c]) <==> IsQuote(c);
    assert table[c] == QuoteSingle <==> c == '\'';
  }

  /** The literal opened just before `p` and closed at `e` gives a Text token of that shape. */
  lemma TextToken(s: string, p: nat, e: nat)
    requires 1 <= p <= |s| && IsQuote(s[p - 1])
    requires StringEnd(s, p, EscapesIn(s[p - 1]), s[p - 1], false) == Some(e)
    ensures var t := MakeToken(Text, s, p, e - 1);
      TextShape(s, t) && LexemeStart(t) == p - 1 && LexemeEnd(t) == e + 1
  {
    StringEndCharacterized(s, p, EscapesIn(s[p - 1]), s[p - 1]);
  }

  /** An opening quote just before `p` that nothing closes ends the run with an L001 error. */
  lemma UnclosedStep(table: map<char, TokenType>, s: string, keywords: set<string>, pos: nat, line: nat, p: nat, l: nat,
                      escapeSymbols: bool, endSymbol: char)
    requires 1 <= p <= |s| && Blank(s, pos, p - 1) && IsQuote(s[p - 1]) && l == line + Newlines(s, pos, p - 1)
    requires escapeSymbols == EscapesIn(s[p - 1]) && endSymbol == s[p - 1]
    requires StringEnd(s, p, escapeSymbols, endSymbol, false).None?
    ensures RunFrom(table, s, keywords, pos, line, [], [ParsingError(|s|, l, p, UnterminatedString)])
  {
    StringEndCharacterized(s, p, EscapesIn(s[p - 1]), s[p - 1]);
  }

  /** A literal opened just before `p` and closed at `e` gives a Text token that leads past `e`. */
  lemma TextLeads(table: map<char, TokenType>, s: string, keywords: set<string>, pos: nat, line: nat, p: nat, l: nat,
                  escapeSymbols: bool, endSymbol: char, e: nat)
    requires 1 <= p <= |s| && Blank(s, pos, p - 1) && IsQuote(s[p - 1]) && l == line + Newlines(s, pos, p - 1)
    requires escapeSymbols == EscapesIn(s[p - 1]) && endSymbol == s[p - 1]
    requires StringEnd(s, p, escapeSymbols, endSymbol, false) == Some(e)
    ensures Leads(table, s, keywords, pos, line, MakeToken(Text, s, p, e - 1), e + 1, l)
  {
    TextToken(s, p, e);
    assert OutputToken(table, s, keywords, MakeToken(Text, s, p, e - 1));
  }

  /** Any other token that is not EOF is kept (an identifier possibly as a keyword) and leads to where the step stopped. */
  lemma PlainLeads(table: map<char, TokenType>, s: string, keywords: set<string>, pos: nat, line: nat, r: Step)
    requires pos <= |s| && ValidTable(table) && r == NextToken(table, s, pos, line)
    requires r.Emit? && !IsQuoteKind(r.token.kind) && r.token.kind != EOF
    ensures Leads(table, s, keywords, pos, line, Kept(r.token, keywords), r.position, r.line)
  {
    NextTokenShape(table, s, pos, line);
    var t := Kept(r.token, keywords);
    assert LexemeStart(t) == r.token.startPosition;
    assert LexemeEnd(t) == r.position;
    if r.token.kind == Identifier {
      assert OutputToken(table, s, keywords, t);
    } else {
      assert SymbolShape(table, s, t) && !IsWhitespace(s[t.startPosition]);
      assert !IsQuote(s[t.startPosition]);
      assert OutputToken(table, s, keywords, t);
    }
  }

  // ---------------------------------------------------------------------
  // The whole run

  /** The kept token for a plain (non-quote) step: identifiers that are keywords become Keyword. */
  function Kept(t: TokenData, keywords: set<string>): TokenData
  {
    if t.kind == Identifier && t.value in keywords then t.(kind := Keyword) else t
  }

  /** Keeping a token changes at most its kind, and only an identifier that is a keyword becomes Keyword. */
  lemma KeptSpec(t: TokenData, keywords: set<string>)
    ensures Kept(t, keywords).(kind := t.kind) == t
    ensures Kept(t, keywords).kind == Keyword <==> t.kind == Keyword || (t.kind == Identifier && t.value in keywords)
    ensures Kept(t, keywords).kind != Keyword ==> Kept(t, keywords).kind == t.kind
  {
  }

  /** What a run appends: its tokens and its errors. */
  datatype LexResult = LexResult(tokens: seq<TokenData>, errors: seq<ParsingError>)

  /** What one pass of the main loop yields: a kept token and where the next pass starts, or the end of the run. */
  datatype Pass =
    | Go(token: TokenData, position: nat, line: nat)
    | Stop(tokens: seq<TokenData>, errors: seq<ParsingError>)

  /**
   * One pass of the main loop from offset `pos` on line `line`. A step that
   * fails stops with its L002 error, and EOF stops with that token. A quote
   * is not kept: the literal after it is scanned with the quote's escape flag
   * and closing character, and the pass goes on after the closing quote with
   * the Text token, or stops with the L001 error. Any other token goes on, an
   * identifier that is a keyword as a Keyword. A pass that goes on moves
   * forward, and its token leads to where the next pass starts.
   */
  function NextPass(table: map<char, TokenType>, s: string, keywords: set<string>, pos: nat, line: nat): (r: Pass)
    requires pos <= |s|
    requires ValidTable(table)
    ensures r.Go? ==> pos < r.position <= |s| && Leads(table, s, keywords, pos, line, r.token, r.position, r.line)
  {
    var r := NextToken(table, s, pos, line);
    match r
    case Fail(e) => Stop([], [e])
    case Emit(t, p, l) =>
      if IsQuoteKind(t.kind) then
        QuoteStep(table, s, pos, line, r);
        match StringEnd(s, p, t.kind != QuoteSingle, t.value[0], false)
        case None => Stop([], [ParsingError(|s|, l, p, UnterminatedString)])
        case Some(e) =>
          TextLeads(table, s, keywords, pos, line, p, l, t.kind != QuoteSingle, t.value[0], e);
          Go(MakeToken(Text, s, p, e - 1), e + 1, l)
      else if t.kind == EOF then Stop([t], [])
      else
        PlainLeads(table, s, keywords, pos, line, r);
        Go(Kept(t, keywords), p, l)
  }

  /** A pass that stops is a whole run. */
  lemma StopRun(table: map<char, TokenType>, s: string, keywords: set<string>, pos: nat, line: nat)
    requires pos <= |s| && ValidTable(table)
    requires NextPass(table, s, keywords, pos, line).Stop?
    ensures var r := NextPass(table, s, keywords, pos, line); RunFrom(table, s, keywords, pos, line, r.tokens, r.errors)
  {
    var r := NextToken(table, s, pos, line);
    if r.Fail? {
      FailStep(table, s, keywords, pos, line, r);
    } else if IsQuoteKind(r.token.kind) {
      QuoteStep(table, s, pos, line, r);
      UnclosedStep(table, s, keywords, pos, line, r.position, r.line, r.token.kind != QuoteSingle, r.token.value[0]);
    } else {
      EofStep(table, s, keywords, pos, line, r);
    }
  }

  /**
   * The main loop from offset `pos`: passes one after another until one
   * stops. Its result is the run RunFrom describes.
   */
  function LexFrom(table: map<char, TokenType>, s: string, keywords: set<string>, pos: nat, line: nat): (r: LexResult)
    requires pos <= |s|
    requires ValidTable(table)
    ensures RunFrom(table, s, keywords, pos, line, r.tokens, r.errors)
    decreases |s| - pos
  {
    match NextPass(table, s, keywords, pos, line)
    case Stop(ts, es) =>
      StopRun(table, s, keywords, pos, line);
      LexResult(ts, es)
    case Go(t, p, l) =>
      var rest := LexFrom(table, s, keywords, p, l);
      RunPrepend(table, s, keywords, pos, line, t, p, l, rest);
      LexResult([t] + rest.tokens, rest.errors)
  }

  /** A full run over `s` from offset 0 and line 0. */
  function Lex(s: string, keywords: set<string>): (r: LexResult)
    ensures RunFrom(SymbolTokens, s, keywords, 0, 0, r.tokens, r.errors)
  {
    SymbolTokensValid();
    LexFrom(SymbolTokens, s, keywords, 0, 0)
  }
}
