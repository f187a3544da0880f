# TomScript lexer in Dafny

This project models the lexer of TomScript, a small scripting language. The
lexer turns a source string into tokens:
- one-character symbols from a fixed table,
- identifiers, reclassified as keywords when the parser environment's
  keyword registry holds their text,
- the contents of string literals (three quote characters, with backslash
  escapes in two of them),
- and a final EOF token.

Scanning stops at the first character it cannot handle (error L002) or at an
unterminated literal (error L001). Each error records the absolute offset, a
line counter and a position-in-line counter.

The project has three layers:

- **Pure specification.** Module `LexerSpec`, in `lexer_spec.dfy`, contains:
  - the symbol table;
  - the identifier and string-literal loops, as recursive functions;
  - one step of the scanner (`NextToken`);
  - one pass of the main loop (`NextPass`);
  - the whole run (`LexFrom`, `Lex`).

  It also gives `RunFrom`, a relational description of a run that does not
  mention the scanner. `Lex` is proved to produce a run of that description.
- **Imperative model.** The source's objects become classes with the
  source's fields and loops:
  - `Tokens.Token` in `token.dfy`;
  - `Environment.ParserEnvironment` in `parser_environment.dfy`;
  - `Lexing.Lexer` in `lexer.dfy`.

  Every method is proved against the specification. `Lexer.Read` appends
  exactly `Lex(stream, keywords)` to the object's token and error lists.
- **Properties.** Module `LexerProperties`, in `lexer_properties.dfy`, proves
  what every run guarantees:
  - it halts exactly once;
  - its spans are ordered;
  - each token has the shape its kind demands;
  - no token is EOL;
  - error line counters count the newlines outside literals;
  - `RunFrom` admits only one run, so `Lex` is the unique output it
    describes.

  Module `LexerExamples`, in `examples.dfy`, states the repository's lexer
  test vectors and a few edge cases, token by token.

`ParsingErrors.ParsingError`, in `parsing_error.dfy`, is the error record.
`Wrappers.Option`, in `wrappers.dfy`, is the usual option type.

These definitions are taken from the source as they are. They are not
functions, so they have no row in the table below:

- `Tokens.TokenType` (`TomScript/Lexer/Token.cs:5-43`): the token kinds, one
  constructor per member of the enum.
- `LexerSpec.SymbolTokens` (`TomScript/Lexer/Lexer.cs:29-63`): the symbol
  table, one entry per entry of the dictionary.
- `LexerSpec.UnterminatedString` (`TomScript/Lexer/Lexer.cs:194`): the L001
  message.

### Behaviour of the code that the model keeps

- **Position in line.** The cursor's setter adds every change of the cursor
  to the position-in-line counter, and nothing resets the counter on a
  newline. So the counter always equals the absolute offset. This is part of
  `Lexer.Valid()`. `LexerExamples.UnexpectedAfterNewline` shows it: line 1,
  but position in line 4.
- **Underscore.** `_` is in the symbol table, and the table is consulted
  before the identifier alphabet. So a `_` that *starts* a lexeme is an
  Underscore token.
  - One could conclude from this precedence that `_` never appears inside an
    identifier. The code does otherwise: the identifier loop
    (`TomScript/Lexer/Lexer.cs:133`) tests only the alphabet, which holds
    `_`. So `do_stuff` is one identifier, as the keyword test vector
    expects.
  - The model follows the code. `LexerExamples.LeadingUnderscore` shows both
    halves on `_a_b`.
- **No EOL tokens.** The table maps a newline to EOL, but a newline is
  whitespace and whitespace is skipped before the table is consulted. So EOL
  is never emitted (`LexerProperties.LexTokens`).
- **Escapes.** In a literal, a backslash toggles the escape flag and any
  other character clears it. So a closing quote is escaped exactly when an
  odd run of backslashes precedes it inside the literal
  (`LexerSpec.StringEndCharacterized`). The apostrophe literal has no
  escapes.
- **A quote token is never kept.** After a quote, only the Text token of the
  literal's content is appended. An unterminated literal appends nothing and
  records L001, which carries the offset `|stream|` and the position in line
  just after the opening quote.

## Model

| member | source | states |
|---|---|---|
| Tokens.MakeToken | TomScript/Lexer/Token.cs:47-55 | kind and start are the arguments; a negative end becomes the start; the text is the `end - start + 1` characters from the start, or empty when the start is at or past the end of the stream |
| Tokens.Token.constructor | TomScript/Lexer/Token.cs:47-55 | the new token's kind, span and text are what MakeToken computes from the arguments |
| Environment.ParserEnvironment.constructor | TomScript/Environment/ParserEnvironment.cs:5 | a new registry holds no keyword |
| Environment.ParserEnvironment.Keywords | TomScript/Environment/ParserEnvironment.cs:6 | the enumerated words are exactly those CheckKeyword accepts |
| Environment.ParserEnvironment.AddKeywords | TomScript/Environment/ParserEnvironment.cs:7-14 | the registry becomes the old keywords plus every given word; afterwards each given word is accepted; nothing changes when every word was already present |
| Environment.ParserEnvironment.CheckKeyword | TomScript/Environment/ParserEnvironment.cs:16-19 | true exactly when the word is registered (exact, case-sensitive match) |
| LexerSpec.IsWhitespace | TomScript/Lexer/Lexer.cs:109 | definition, no contract of its own: the four characters the scanner skips are space, tab, carriage return and newline |
| LexerSpec.EscapesIn | TomScript/Lexer/Lexer.cs:82 | definition, no contract of its own: a literal honours backslash escapes unless its opening quote is the apostrophe |
| LexerSpec.UnexpectedSymbol | TomScript/Lexer/Lexer.cs:144 | definition, no contract of its own: the L002 message, `L002: unexpected symbol` followed by the offending character between apostrophes |
| LexerSpec.SymbolTokensValid | TomScript/Lexer/Lexer.cs:29-63 | the table never yields Keyword, Identifier, Text or EOF; it yields EOL only for a newline; it yields a quote kind exactly for the three quote characters, QuoteSingle exactly for the apostrophe; it holds all three quotes |
| LexerSpec.SymbolTokensKinds | TomScript/Lexer/Lexer.cs:29-63 | no table entry is a word kind or EOF |
| LexerSpec.SymbolTokensEol | TomScript/Lexer/Lexer.cs:29-63 | the only character mapped to EOL is the newline |
| LexerSpec.SymbolTokensQuotes | TomScript/Lexer/Lexer.cs:29-63 | quote kinds are given exactly to quote characters, QuoteSingle exactly to the apostrophe |
| LexerSpec.IdentEnd | TomScript/Lexer/Lexer.cs:130-141 | the identifier loop ends inside the stream, at the end of input or at a character outside the identifier alphabet |
| LexerSpec.IdentEndRun | TomScript/Lexer/Lexer.cs:133-140 | every character the identifier loop covers is in the alphabet, so the run is maximal |
| LexerSpec.StringEnd | TomScript/Lexer/Lexer.cs:170-196 | a closing offset the literal loop finds lies at or after its start and holds the closing character |
| LexerSpec.StringEndFrom | TomScript/Lexer/Lexer.cs:174-193 | from any offset whose escape flag equals "an odd run of backslashes precedes it", the loop finds the first unescaped closer, or reports that none exists |
| LexerSpec.StringEndCharacterized | TomScript/Lexer/Lexer.cs:174-193 | the loop returns `e` exactly when `e` is the first closing character not preceded by an odd run of backslashes (when escapes are on); it returns nothing exactly when no such character exists |
| LexerSpec.NextToken | TomScript/Lexer/Lexer.cs:103-146 | a step that yields a token stays inside the stream, and every token but EOF moves past the starting offset |
| LexerSpec.NextTokenShape | TomScript/Lexer/Lexer.cs:103-146 | a step skips only whitespace, adding its newlines to the line counter; then it yields EOF exactly at the end of input, a one-character table symbol, a maximal identifier run, or an L002 error at the unexpected character with the position in line equal to its offset |
| LexerSpec.SkipStep | TomScript/Lexer/Lexer.cs:109-120 | skipping one whitespace character keeps the shape of the step found after it |
| LexerSpec.NextAfterSpace | TomScript/Lexer/Lexer.cs:109-120 | helper for GetNextToken's proof, unfolding one branch of NextToken: whitespace is skipped, and a newline advances the line counter by one |
| LexerSpec.NextAtEnd | TomScript/Lexer/Lexer.cs:105-106 | helper unfolding one branch of NextToken: at the end of input the step yields an empty EOF token at the offset equal to the input length |
| LexerSpec.NextAtSymbol | TomScript/Lexer/Lexer.cs:122-125 | helper unfolding one branch of NextToken: at a table character the step yields that character's one-character token and moves one past it |
| LexerSpec.NextAtIdent | TomScript/Lexer/Lexer.cs:130-141 | helper unfolding one branch of NextToken: at an identifier character outside the table the step yields an Identifier for the whole run |
| LexerSpec.NextAtUnexpected | TomScript/Lexer/Lexer.cs:144-145 | helper unfolding one branch of NextToken: at any other character the step fails with L002 at that offset and line |
| LexerSpec.SymbolToken | TomScript/Lexer/Lexer.cs:148-155 | the token built for a table character spans exactly that character |
| LexerSpec.IdentToken | TomScript/Lexer/Lexer.cs:141 | the token built for an identifier run has the identifier shape |
| LexerSpec.QuoteStep | TomScript/Lexer/Lexer.cs:78-82 | a quote token is a single quote character after whitespace only; the literal that follows uses escapes unless the quote is the apostrophe |
| LexerSpec.TextToken | TomScript/Lexer/Lexer.cs:176-180 | the Text token holds what lies strictly between the quote and the first unescaped closer; scanning resumes after the closer |
| LexerSpec.UnclosedStep | TomScript/Lexer/Lexer.cs:194 | an opening quote that nothing closes ends the run with L001 at the offset equal to the input length, with the position in line just after the quote |
| LexerSpec.TextLeads | TomScript/Lexer/Lexer.cs:82-86 | a closed literal contributes its Text token, and the run goes on after the closing quote |
| LexerSpec.Kept | TomScript/Lexer/Lexer.cs:92-93 | definition, no contract of its own: an Identifier whose text is a registered keyword is kept as a Keyword, and any other token as it is; its properties are LexerSpec.KeptSpec |
| LexerSpec.KeptSpec | TomScript/Lexer/Lexer.cs:92-98 | keeping a token changes at most its kind; the kept token is a Keyword exactly when the token was one or was an Identifier whose text is a keyword; otherwise its kind is unchanged |
| LexerSpec.PlainLeads | TomScript/Lexer/Lexer.cs:92-98 | any other token except EOF is appended, an identifier that is a keyword as Keyword, and the run goes on where the step stopped |
| LexerSpec.FailStep | TomScript/Lexer/Lexer.cs:73-75 | a step that fails ends the run with its L002 error and no token |
| LexerSpec.EofStep | TomScript/Lexer/Lexer.cs:100 | a step that yields EOF ends the run with that token and no error |
| LexerSpec.RunPrepend | TomScript/Lexer/Lexer.cs:71-100 | a pass that goes on, followed by the run from where it stopped, is a run |
| LexerSpec.NextPass | TomScript/Lexer/Lexer.cs:71-100 | a pass of the main loop that goes on moves forward, and its token is preceded by whitespace only and resumes the run where its lexeme ends |
| LexerSpec.StopRun | TomScript/Lexer/Lexer.cs:71-100 | a pass that stops (L002, L001 or EOF) is a whole run |
| LexerSpec.LexFrom | TomScript/Lexer/Lexer.cs:71-100 | the main loop's output is a run as RunFrom describes it |
| LexerSpec.Lex | TomScript/Lexer/Lexer.cs:65-101 | a full scan from offset 0 on line 0 is a run as RunFrom describes it |
| LexerProperties.RunHaltsOnce | TomScript/Lexer/Lexer.cs:71-100 | a run records at most one error; it records none exactly when its last token is EOF; EOF appears only last |
| LexerProperties.LexHalts | TomScript/Lexer/Lexer.cs:65-101 | the lexer stops once; a run with no error ends with the empty EOF token at the offset equal to the input length |
| LexerProperties.LexemeBounds | TomScript/Lexer/Lexer.cs:176-180 | a token's span lies inside the characters it was read from |
| LexerProperties.RunTokens | TomScript/Lexer/Lexer.cs:71-100 | every token of a run starts at or after the starting offset and has the shape its kind demands; spans strictly increase and never overlap |
| LexerProperties.LexemeNewlines | TomScript/Lexer/Lexer.cs:109-116 | the only newlines inside a lexeme are those inside a Text token's value |
| LexerProperties.RunErrorLines | TomScript/Lexer/Lexer.cs:109-116 | an error's line counter is the starting line plus the newlines before the error, less those inside string literals |
| LexerProperties.LexErrorLines | TomScript/Lexer/Lexer.cs:144 | the line of an L001 or L002 error counts the newlines before it that were skipped as whitespace, not those inside literals |
| LexerProperties.FirstSolid | TomScript/Lexer/Lexer.cs:109-120 | the whitespace loop stops at exactly one offset |
| LexerProperties.TokenSolid | TomScript/Lexer/Lexer.cs:103-146 | a lexeme starts at a non-whitespace character, or at the end of input exactly for EOF |
| LexerProperties.FirstCloseUnique | TomScript/Lexer/Lexer.cs:174-181 | at most one offset closes a literal first |
| LexerProperties.IdentRunUnique | TomScript/Lexer/Lexer.cs:130-141 | only one maximal identifier run starts at a given offset |
| LexerProperties.SameToken | TomScript/Lexer/Lexer.cs:103-146 | two well-shaped tokens whose lexemes start at the same offset are equal |
| LexerProperties.TokenNotError | TomScript/Lexer/Lexer.cs:103-146 | a token and an error cannot both be what follows the same whitespace |
| LexerProperties.SameError | TomScript/Lexer/Lexer.cs:144 | at most one error can end a run from a given offset and line |
| LexerProperties.RunDeterministic | TomScript/Lexer/Lexer.cs:71-100 | the relational description admits at most one run from a given offset and line |
| LexerProperties.LexUnique | TomScript/Lexer/Lexer.cs:65-101 | any run RunFrom admits over the symbol table from offset 0 is the lexer's output |
| LexerProperties.RunTokenKinds | TomScript/Lexer/Lexer.cs:109-125 | over a valid table, no token of a run is EOL, and a non-Text token starting at a table character is that character's one-character symbol |
| LexerProperties.LexTokens | TomScript/Lexer/Lexer.cs:65-101 | the lexer's tokens are ordered and well-shaped; none is EOL; no identifier starts with a table character such as `_` |
| Lexing.Lexer.constructor | TomScript/Lexer/Lexer.cs:8-12 | a new lexer keeps the stream and environment, uses the symbol table, starts at offset 0 on line 0 with no tokens and no errors |
| Lexing.Lexer.SetPosition | TomScript/Lexer/Lexer.cs:18-22 | the cursor takes the new value and the position-in-line counter moves by the same amount; nothing else changes |
| Lexing.Lexer.Peek | TomScript/Lexer/Lexer.cs:157-160 | the character under the cursor, or `'\0'` past the end |
| Lexing.Lexer.GetToken | TomScript/Lexer/Lexer.cs:148-155 | a fresh token of `length` characters from `at`, or from the cursor when `at` is negative; the cursor moves just past the token's end |
| Lexing.Lexer.GetNextToken | TomScript/Lexer/Lexer.cs:103-146 | the cursor, the line counter and the token or appended L002 error are those of NextToken from the old cursor and line; the token list is unchanged |
| Lexing.Lexer.ReadIdentifier | TomScript/Lexer/Lexer.cs:130-141 | the cursor moves to the end of the identifier run, and the token is the Identifier over that run |
| Lexing.Lexer.GetStringToken | TomScript/Lexer/Lexer.cs:170-196 | at a closer StringEnd finds, returns the Text token up to it and moves past it; otherwise appends L001 at the offset equal to the stream length and leaves the cursor where it was |
| Lexing.Lexer.ReadStep | TomScript/Lexer/Lexer.cs:73-99 | one pass appends exactly what NextPass yields and moves the cursor and line counter to where it says; it reports whether the loop goes on; the token objects already held stay in place, and the pass only appends objects after them |
| Lexing.Lexer.ReadLiteral | TomScript/Lexer/Lexer.cs:78-91 | the quote case appends the literal's Text token and goes on, or appends L001 and stops; the token objects already held stay in place |
| Lexing.Lexer.ReadPlain | TomScript/Lexer/Lexer.cs:92-98 | the other cases append the token (an identifier that is a keyword as Keyword); the loop goes on unless it is EOF |
| Lexing.Lexer.QuoteStepAt | TomScript/Lexer/Lexer.cs:82 | a quote token's value has exactly one character, so reading its first character is defined, and the cursor after it lies inside the stream |
| Lexing.Lexer.AddToken | TomScript/Lexer/Lexer.cs:97 | the token is appended to the token list; nothing else changes |
| Lexing.Lexer.Read | TomScript/Lexer/Lexer.cs:65-101 | the lexer appends exactly Lex's tokens and errors for its stream and the environment's keywords after what it already held; the token objects it already held stay the first ones, in order and unchanged |
| LexerExamples.Kinds | TestProject/LexerTests.cs:71-74 | one kind per token: the kind at each index is the kind of the token at that index |
| LexerExamples.KindsOfRead | TestProject/LexerTests.cs:62-75 | the test harness: a fresh environment with the keywords and a fresh lexer read the code; the token kinds and errors are those of Lex over the code with exactly those keywords |
| LexerExamples.EmptyInput | TestProject/LexerTests.cs:29-32 | empty input gives only EOF |
| LexerExamples.DoubleQuoted | TestProject/LexerTests.cs:33-36 | `"string"` gives Text `string` over offsets 1 to 6, then EOF at 8 |
| LexerExamples.SingleQuoted | TestProject/LexerTests.cs:37-40 | `'string'` gives Text `string` over offsets 1 to 6, then EOF at 8 |
| LexerExamples.OtherQuoteInside | TestProject/LexerTests.cs:41-44 | a double quote inside an apostrophe literal is content: Text `st"ring` over offsets 1 to 7, then EOF at 9 |
| LexerExamples.ApostrophesInside | TestProject/LexerTests.cs:45-48 | apostrophes inside a double-quoted literal are content: Text `'string''''''` over offsets 1 to 13, then EOF at 15 |
| LexerExamples.EscapedClose | TomScript/Lexer/Lexer.cs:176-192 | in `"a\"b"` the backslash escapes the inner double quote: one Text token `a\"b` over offsets 1 to 4, then EOF at 6 |
| LexerExamples.QuotedRun | TomScript/Lexer/Lexer.cs:78-91 | a stream that is one literal, whose content has neither its closing quote nor a backslash, gives that content as one Text token from offset 1, then EOF at the stream's end, and no error |
| LexerExamples.KeywordVectorText | TestProject/LexerTests.cs:50 | the character description of the keyword vector holds exactly for its text |
| LexerExamples.KeywordsAndSymbols | TestProject/LexerTests.cs:49-57 | `if(true) { do_stuff; }` with keywords `if`, `true` gives Keyword, `(`, Keyword, `)`, `{`, Identifier `do_stuff`, `;`, `}`, EOF, with their spans and texts |
| LexerExamples.SymbolTokensLetters | TomScript/Lexer/Lexer.cs:29-63 | the only identifier character in the table is `_` |
| LexerExamples.SpaceFrom | TomScript/Lexer/Lexer.cs:109-120 | whitespace contributes nothing to the run except a newline's line increment |
| LexerExamples.SymbolFrom | TomScript/Lexer/Lexer.cs:122-125 | a non-quote table character contributes its one-character token |
| LexerExamples.IdentFrom | TomScript/Lexer/Lexer.cs:130-141 | a maximal identifier run contributes one Keyword or Identifier token over the whole run |
| LexerExamples.LiteralFrom | TomScript/Lexer/Lexer.cs:78-91 | a literal opened at `pos` and closed by the last character, with no backslash and no other closing quote in between, contributes its Text token and then EOF |
| LexerExamples.UnexpectedFrom | TomScript/Lexer/Lexer.cs:144-145 | an unexpected character ends the run with L002 and no token |
| LexerExamples.UnclosedFrom | TomScript/Lexer/Lexer.cs:194 | a literal whose opening quote is followed by neither its closing quote nor a backslash ends the run with L001 and no token (the general case is LexerSpec.UnclosedStep) |
| LexerExamples.Unterminated | TomScript/Lexer/Lexer.cs:194 | `"abc` gives no token and one L001 error at offset 4, line 0, position in line 1 |
| LexerExamples.UnexpectedAfterNewline | TomScript/Lexer/Lexer.cs:144 | `x`, newline, two spaces, a vertical bar gives Identifier `x` and L002 at offset 4 on line 1 with position in line 4 |
| LexerExamples.LeadingUnderscore | TomScript/Lexer/Lexer.cs:122-141 | `_a_b` gives Underscore, Identifier `a_b`, EOF |

## Left out

- `Peek(int count, int skip)` (`TomScript/Lexer/Lexer.cs:162-167`) is never called, so it is not modelled.
- Lexing.Lexer.Read: requires that the lexer's table is the fixed symbol table. Every lexer the constructor builds satisfies this, because the table is a read-only field the constructor sets.
- Lexing.Lexer.Peek: returns `'\0'` for a negative cursor, where the source would throw. `Valid()` keeps the cursor non-negative, so this never matters.
- Tokens.MakeToken: the .NET `Substring` range exception is modelled as a precondition: the caller must keep the slice within the stream. Every call the lexer makes meets it.
- ReadStep, ReadLiteral, ReadPlain and ReadIdentifier are the inline bodies of `Read`'s loop and of `GetNextToken`'s identifier branch, moved into methods of their own. Their statements and order are those of the source.
- The unused local `ident` string of `GetNextToken` is kept in ReadIdentifier, but it is not observable.
- The public collection views are not separate members. `Tokens`, `Errors` and `Environment` are the class's fields.
- The token's public position setters are not modelled as methods. They are plain mutable fields, which the lexer never changes after construction.
- A .NET `char` is a UTF-16 code unit; a Dafny `char` is a Unicode scalar value. Surrogate pairs are not modelled; the lexer treats every character individually in both.
- The source's two `HashSet`s and its `Dictionary` are modelled as Dafny values: the identifier alphabet `ident_symbols` as the predicate `LexerSpec.IsIdentChar`, the keyword registry `_keywords` as the field `ParserEnvironment.keywords: set<string>`, and the symbol table as the `map` `LexerSpec.SymbolTokens`. Their hashing and enumeration order are not modelled.
- LexerExamples.KeywordsAndSymbols: stated for any string meeting the character-by-character description of the test vector. KeywordVectorText proves that exactly one string, the vector's text, meets it.
- All other lemmas and predicates of LexerExamples are helpers that unfold the main loop on those inputs: GoFrom, PlainPass, EofPass, QuotePass, QuoteToken, LiteralPass, StringEndSkip, IdentEndAt, OnlyUnderscore, SliceIs, KeywordVector, VectorTable, SymbolTokensVector, the Vector* segments and the *Run lemmas.
- Concurrency and I/O are not part of this model.
