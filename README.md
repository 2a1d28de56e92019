# Lynx line lexer and token stream, in Dafny

This project models the lexer of the Lynx language (`LineLexer` in
`src/lexer.rs`) and a token buffer with `peek`, `next` and `expect` meant for
a parser (`TokenStream` in `src/token_stream.rs`; `src/parser.rs` does not
use it yet and reads a slice iterator instead). It also proves properties of
both.

`LineLexer` lexes one line of source. It has a cursor into the line's
characters and a column counter. Each `next()` call does three things:

1. It skips whitespace.
2. It classifies the lookahead in a fixed priority order:
   - punctuation `( ) [ ] { } , ;`
   - `-`, which is a line comment `--` or else a symbolic name
   - `\`, which is a raw string `\\` or else a symbolic name
   - a character literal
   - a string literal
   - an ASCII digit
   - a letter or `_`
   - a symbolic character
3. It returns one token or one error. It returns `None` at the end of the
   line or after a comment.

A character the lexer cannot classify is stepped over and reported as
`UnexpectedChar`.

The model has three layers:

- **`LexSpec`** (`lex_spec.dfy`) states, as pure functions of the line and
  a cursor index, what each routine consumes and returns. This includes the
  character classes, the two keyword tables, the symbol set, the escape
  table and the scans. `DispatchSpec` gives the priority order and
  `NextSpec` gives one `next()` call.
- **`Lexer.LineLexer`** (`lexer.dfy`) is the lexer as the stateful object it
  is. It has a cursor `idx` and a column `colNo`, advanced by `Advance`, and
  every routine is a method with the source's loop.
  - Each method is proved to leave the cursor, and to return, exactly what
    the matching `LexSpec` function says.
  - The class invariant `Valid()` says that the column counter equals the
    number of consumed characters. A token's start and end are therefore
    the 1-based columns of its first and last character.
- **`LexProps`** (`lex_props.dfy`) proves what the routines promise.
  - Decoding a literal inverts escaping.
  - Character literals are classified by their decoded length.
  - Every error case is covered, including the unterminated and
    unknown-escape spans.
  - Integer literals invert decimal printing, up to the `i64` bound.
  - Names are scanned by maximal munch, and every keyword lexes back from
    its table spelling.
  - `next()` yields `None` exactly on a blank or commented rest of line.
  - The items of a line come out in column order, at most one per
    character.

`TokenStreams.TokenStream` (`token_stream.dfy`) is a class with `buffer`
and `pos` fields. Its `peek`, `next` and `expect` are stated over the
sequence of unconsumed tokens, `Rest()`.

`tokens.dfy` defines positions, token kinds, tokens and errors with the
constructors that `src/lexer.rs` builds. `src/lexer.rs:7-13` imports
`Error` from `src/error.rs` and `Pos`, `Token` and `TokenKind` from
`src/token.rs`, but those files declare neither `Pos` nor `TokenKind`, and
their `Error` and `Token` enums lack the variants the lexer constructs
(`EmptyCharLit`, `CharLit`, `IntLit` and the rest). The types here are
therefore read off the lexer's own uses. `wrappers.dfy` holds `Option` and
`Result`.

Facts about `src/lexer.rs` that the model keeps as they are:

- No `\u{...}` escape exists; the TODOs at `src/lexer.rs:158` and `:232`
  leave it for later.
- Number literals are decimal only, with no base prefixes and no `_`
  separators (TODO at `src/lexer.rs:274`).
- `(` always yields `Lp` on its own; there is no unit-literal token.
- No token marks the end of a line or joins lines.
- There are two unterminated errors, `UnterminatedCharLit` and
  `UnterminatedStrLit`, each carrying only the opening quote's position.
- `,` is punctuation and not a symbol character.
- Punctuation is tried first in the dispatch order.
- Keywords are recognised by the lexer itself through its two tables, which
  yield `Ctor`, `Import`, `Underscore` and twelve symbolic keyword kinds.

## Model

| member | source | states |
|---|---|---|
| LexSpec.RunEnd | src/lexer.rs:82-89 | the scan from `i` stops at the end of the maximal run of characters satisfying the class: all characters before it qualify, the one at it does not (or the line ended) |
| LexSpec.IsAsciiDigit | src/lexer.rs:464 | the digits that start a number literal and continue it, `0` to `9` |
| LexSpec.IsAlphabetic | src/lexer.rs:465 | the letters that start an alphabetic name, on ASCII |
| LexSpec.IsWhitespace | src/lexer.rs:84 | the whitespace class `skip_ws` skips, on ASCII |
| LexSpec.IsNameChar | src/lexer.rs:328 | the characters that continue an alphabetic name: letters, digits, `_`, `'` and `!` |
| LexSpec.IsSymChar | src/lexer.rs:62-65 | membership in the symbol character set |
| LexSpec.Classify | src/lexer.rs:335-338 | a scanned name is the table's keyword kind when the table lists it, and `Id(name)` otherwise |
| LexSpec.PunctKind | src/lexer.rs:452-459 | the eight punctuation characters and the token kind each yields |
| LexSpec.Unescape | src/lexer.rs:129-157 | the seven-entry escape table; `EscapeOfInverse` proves it one-to-one |
| LexSpec.DecimalValue | src/lexer.rs:311 | the value `parse::<i64>` reads from a string of ASCII digits before its range check; `DecimalRoundTrip` proves it inverts decimal printing |
| LexSpec.NumEnd | src/lexer.rs:285-302 | the numeric scan takes only digits and `.`, at most one `.` overall (none if one was already taken), never stops before a digit, and stops before a `.` only when a dot was already taken |
| LexSpec.EscapeOf | src/lexer.rs:129-156 | the escape letter chosen for a character decodes back to that character through the seven-entry escape table |
| LexSpec.ScanLit | src/lexer.rs:106-180 | decoding a literal body ends at a closing quote at or after `i`, or at a backslash followed by a letter the table lacks |
| LexSpec.ScanLitPlain | src/lexer.rs:170-174 | a plain character inside a literal decodes to itself and the scan continues after it |
| LexSpec.ScanLitEscape | src/lexer.rs:123-166 | a known escape decodes to its table entry and the scan continues two characters later |
| LexSpec.CharLitOf | src/lexer.rs:111-120 | a closed character literal is `Ok` exactly when its body decoded to one character |
| LexSpec.CharLitSpec | src/lexer.rs:101-181 | what `lex_char_lit` returns and where it leaves the cursor, by outcome of decoding the body; its properties are `CharLitShape` and the `CharLit` lemmas |
| LexSpec.CharLitShape | src/lexer.rs:101-181 | a character literal consumes at least the quote and stays within the line; a token or count error spans opening to closing quote; `UnterminatedCharLit` carries the opening quote's column and the cursor is at the end of the line |
| LexSpec.StrLitSpec | src/lexer.rs:185-255 | what `lex_str_lit` returns and where it leaves the cursor, by outcome of decoding the body; its properties are `StrLitShape` and the `StrLit` lemmas |
| LexSpec.StrLitShape | src/lexer.rs:185-255 | a string literal consumes at least the quote, a `StrLit` spans opening to closing quote, and `UnterminatedStrLit` carries the opening column with the whole line consumed |
| LexSpec.NumLitSpec | src/lexer.rs:277-317 | a number literal spans its lexeme; it is `FloatLit` (carrying the lexeme) exactly when the lexeme holds a `.`; `IntLit` carries the decimal value of the lexeme; the only error is `InvalidNumLitFormat`, for a dot-free lexeme whose value exceeds `i64::MAX` |
| LexSpec.NameSpec | src/lexer.rs:321-339 | a name is the first character plus the maximal run of continuation characters after it; its kind is the table's keyword for that exact spelling, otherwise `Id(name)`; it spans its first to last character |
| LexSpec.SymSpec | src/lexer.rs:346-364 | a symbolic name lies on the line, within the consumed characters, start column not after end column |
| LexSpec.DispatchSpec | src/lexer.rs:451-472 | every dispatch consumes at least one character and stays within the line; it yields `None` exactly for `--`, which consumes the rest of the line; every item lies within the consumed columns |
| LexSpec.NextSpec | src/lexer.rs:448-474 | `next()` consumes at least one character whenever it yields an item, the item lies within the consumed columns, and `None` leaves the cursor at the end of the line |
| LexSpec.LineItems | src/lexer.rs:448-474 | every item produced by calling `next()` until `None` lies on the lexer's line within the unread columns |
| Lexer.LineLexer.constructor | src/lexer.rs:41-67 | a new lexer holds the line and line number, has consumed nothing, and its column is 0 |
| Lexer.LineLexer.Valid | src/lexer.rs:23-24 | the column counter equals the number of characters consumed, so `pos()` is the column of the last consumed character |
| Lexer.LineLexer.Advance | src/lexer.rs:71-74 | the column rises by exactly one and exactly one character is consumed when one is left |
| Lexer.LineLexer.CurrentPos | src/lexer.rs:77-79 | the position is on the lexer's line at the column of the last consumed character |
| Lexer.LineLexer.SkipWs | src/lexer.rs:82-89 | the cursor moves to the end of the whitespace run |
| Lexer.LineLexer.SkipLineComment | src/lexer.rs:93-97 | the cursor moves to the end of the line |
| Lexer.LineLexer.DecodeBody | src/lexer.rs:106-180 | the decoding loop returns exactly `ScanLit` from the cursor and stops after the closing quote, after the unknown escape letter, or at the end of the line |
| Lexer.LineLexer.LexCharLit | src/lexer.rs:101-181 | result and new cursor equal `CharLitSpec` at the old cursor |
| Lexer.LineLexer.LexStrLit | src/lexer.rs:185-255 | result and new cursor equal `StrLitSpec` at the old cursor |
| Lexer.LineLexer.LexRawStringLit | src/lexer.rs:259-272 | the token is `StrLit` of the rest of the line after `\\`, from the first backslash's column to the last column, and the cursor is at the end of the line |
| Lexer.LineLexer.LexNumLit | src/lexer.rs:277-317 | result and new cursor equal `NumLitSpec` at the old cursor |
| Lexer.LineLexer.LexAlpha | src/lexer.rs:321-339 | token and new cursor equal the alphabetic `NameSpec` at the old cursor |
| Lexer.LineLexer.LexSym | src/lexer.rs:346-364 | token and new cursor equal `SymSpec` at the old cursor |
| Lexer.LineLexer.LexPunct | src/lexer.rs:366-412 | one character is consumed and the token of the given kind starts and ends at its column |
| Lexer.LineLexer.LexHyphen | src/lexer.rs:415-428 | `--` yields no token and consumes the line; any other `-` yields the symbolic name `SymSpec` gives |
| Lexer.LineLexer.LexBackslash | src/lexer.rs:431-441 | `\\` yields the raw string of the rest of the line; any other `\` yields the symbolic name `SymSpec` gives |
| Lexer.LineLexer.Next | src/lexer.rs:448-474 | result and new cursor equal `NextSpec` at the old cursor |
| LexProps.EscapeOfInverse | src/lexer.rs:129-156 | the escape table is one-to-one and `EscapeOf` is exactly its inverse, in both directions |
| LexProps.EncodeSpells | src/lexer.rs:129-157 | the escaped text of any `s` is a spelling of `s` inside either kind of quotes |
| LexProps.ScanSpelled | src/lexer.rs:190-254 | decoding any spelling of `s`, where each character is verbatim (if not the quote or a backslash) or escaped, yields exactly `s` and hands over to what follows |
| LexProps.ScanSpellsPrefix | src/lexer.rs:106-180 | conversely, every body is a spelling up to where decoding stops: of exactly the decoded characters up to the closing quote, or up to the unknown escape's backslash, or up to the end of the line (possibly before one lone backslash) |
| LexProps.ScanSpelledClosed | src/lexer.rs:106-110 | a spelling of `s` followed by the closing quote decodes to exactly `s`, closed at that quote |
| LexProps.StrLitSpelled | src/lexer.rs:185-197 | a string literal whose body is any spelling of `s`, such as `"it's"`, lexes to `StrLit(s)` spanning quote to quote |
| LexProps.StrLitRoundTrip | src/lexer.rs:185-255 | quoting the escaped text of any string `s` gives a literal that lexes back to `StrLit(s)`, spanning quote to quote |
| LexProps.CharLitByCount | src/lexer.rs:106-121 | a closed character literal whose body is any spelling of `s` (verbatim, escaped, or mixed) is classified by the length of `s`: none is `EmptyCharLit`, one is `CharLit(s[0])`, more is `MultipleCharsInCharLit`, each spanning quote to quote |
| LexProps.StrLitUnterminated | src/lexer.rs:237-239 | a string literal whose body, however spelled, runs to the end of the line, even right after a backslash, yields `UnterminatedStrLit` at the opening quote's column and consumes the line |
| LexProps.CharLitUnterminated | src/lexer.rs:163-165 | a character literal whose body, however spelled, runs to the end of the line, even right after a backslash, yields `UnterminatedCharLit` at the opening quote's column and consumes the line |
| LexProps.StrLitUnknownEscape | src/lexer.rs:233-236 | in a string literal, a backslash followed by a letter the table lacks, after any spelled prefix, yields `UnknownEscapeSeq` from the backslash's column to that letter's column, and lexing resumes after the letter |
| LexProps.CharLitUnknownEscape | src/lexer.rs:159-162 | the same for character literals |
| LexProps.ScanUnclosed | src/lexer.rs:163-178 | a spelled body that reaches the end of the line, possibly ending in a lone backslash, decodes to `Unterminated` |
| LexProps.ScanUnknownEscape | src/lexer.rs:159-162 | after any spelled prefix, a backslash followed by a letter the table lacks stops decoding at that backslash |
| LexProps.DecimalRoundTrip | src/lexer.rs:311 | reading the decimal spelling of `v` gives back `v` |
| LexProps.NumLitOfDigits | src/lexer.rs:310-316 | a maximal dot-free run of digits is `IntLit` of its decimal value when that fits in `i64`, otherwise `InvalidNumLitFormat` over the same span |
| LexProps.IntLitRoundTrip | src/lexer.rs:310-316 | lexing the decimal spelling of `v` yields `IntLit(v)` when `v <= i64::MAX` and `InvalidNumLitFormat` otherwise |
| LexProps.NumLitFloat | src/lexer.rs:284-306 | digits, one `.` and optional digits, followed by anything but a digit, lex to `FloatLit` of exactly that lexeme over its span, never to an error |
| LexProps.FloatStopsAtSecondDot | src/lexer.rs:291-293 | a second `.` ends a float literal, whose lexeme keeps the first dot, and is left unconsumed |
| LexProps.NextAlphaName | src/lexer.rs:321-339 | an alphabetic name lexes to one token spanning exactly its characters: its keyword if `ctor`, `import` or `_`, otherwise `Id(name)` |
| LexProps.NextSymName | src/lexer.rs:346-364 | a symbolic name lexes to one token spanning exactly its characters: its keyword if the table lists it, otherwise `Id(name)` |
| LexProps.SingleBackslashIsName | src/lexer.rs:431-441 | a single `\` starts a symbolic identifier, never a keyword, made only of symbol characters |
| LexProps.NextPunct | src/lexer.rs:366-412 | each punctuation character is one token of its own whatever follows, so `()` is `Lp` then `Rp` |
| LexProps.AlphaKeywordsLex | src/lexer.rs:47 | every spelling in the alphabetic keyword table lexes back, as one token, to its keyword kind |
| LexProps.SymKeywordsLex | src/lexer.rs:48-61 | every spelling in the symbolic keyword table lexes back, as one token, to its keyword kind |
| LexProps.SymCharClasses | src/lexer.rs:62-65 | the symbol set is disjoint from whitespace, punctuation, `"`, letters, digits and `_`, and holds `-`, `\` and `'` |
| LexProps.NextNoneIff | src/lexer.rs:448-474 | `next()` yields `None` if and only if the rest of the line is whitespace, or whitespace followed by `--` |
| LexProps.NextUnexpectedChar | src/lexer.rs:469-472 | a character in no class yields `UnexpectedChar` at its own column and is stepped over |
| LexProps.LineItemsOrdered | src/lexer.rs:448-474 | the items of a line come out in source order: each ends in a column before the next one starts |
| LexProps.LineItemsBound | src/lexer.rs:448-474 | a line yields at most one item per character before `None`, so repeated `next()` calls terminate |
| TokenStreams.TokenStream.constructor | src/token_stream.rs:13-18 | the buffer is the given tokens unchanged, `pos` is 0, and all of them are unconsumed |
| TokenStreams.TokenStream.Valid | src/token_stream.rs:6-9 | the cursor never passes the end of the buffer: the constructor establishes it and `next` and `expect` preserve it |
| TokenStreams.TokenStream.Rest | src/token_stream.rs:6-9 | the unconsumed tokens are the buffer from `pos` on, and none once `pos` is past the end |
| TokenStreams.TokenStream.Peek | src/token_stream.rs:21-23 | `peek(n)` is the `n`th unconsumed token when there are more than `n`, and `None` otherwise; it reads and changes nothing |
| TokenStreams.TokenStream.Next | src/token_stream.rs:26-34 | `next` returns the first unconsumed token and removes exactly it, raising `pos` by one; at the end it returns `None` and changes nothing; afterwards every `peek(n)` is the former `peek(n + 1)`; the buffer never changes |
| TokenStreams.TokenStream.Expect | src/token_stream.rs:38-46 | `expect` is `Ok(tok)` if and only if a token remained and `pred` accepts it, otherwise the given error; the token is consumed either way; the buffer never changes |

## Left out

- The `Lexer` type and its `Iterator` impl (`src/lexer.rs:477-496`): their bodies are `todo!()`, so there is no behaviour to model.
- Unicode character classes: `is_whitespace`, `is_alphabetic` and `is_alphanumeric` are modelled on ASCII. Whitespace is space and `\t` through `\r`, letters are `a-z` and `A-Z`, and digits are `0-9`.
- Float values: `FloatLit` carries its lexeme instead of the `f64` from `str::parse`. Every lexeme the scan produces (digits, one dot, optional digits) parses as an `f64`, so the float branch's `InvalidNumLitFormat` cannot occur and is not modelled.
- The `Peekable<Chars>` iterator and its clone for two-character lookahead are modelled as an index into the line, and lookahead as a read at the next index.
- The keyword tables and the symbol set are module constants rather than per-lexer fields. The lexer never changes them.
- `lex_lp`, `lex_rp`, `lex_lb`, `lex_rb`, `lex_lc`, `lex_rc`, `lex_comma` and `lex_semicolon` are one method, `LexPunct`, parameterised by the token kind. The kind for each character is given by `PunctKind`.
- `lex_char_lit` and `lex_str_lit` share their decoding loop in `DecodeBody`.
  - In the source, the two loops differ only in the closing quote and in which error is returned.
  - `DecodeBody` returns where it stopped, and each routine builds its token or error from that.
  - The escape's start position is rebuilt from the backslash index. It is the same column the source reads with `pos()`.
- Lexer.LineLexer.Advance: when called at the end of the line, the source's `chars.next()` returns `None`. The model states the same result, with the column raised and the cursor unchanged, but no caller does this.
- TokenStreams.TokenStream.Peek and Next return copies of tokens rather than references into the buffer. Dafny values have no aliasing, so nothing observable is lost.
- `src/parser.rs`, `src/ast.rs`, `src/expr.rs`, `src/sym_table.rs` and `src/main.rs` are not part of this model. The parser is unfinished and refers to token kinds that do not exist. The AST files are data and printing. The symbol table is a set wrapper. `main.rs` is a driver over an external lexer crate.
- Reading files and splitting input into lines happen outside the line lexer and are not modelled. The line and its number are parameters of the constructor.
- TokenStreams.TokenStream.Peek: `self.pos + n` is a `usize` sum that overflows, and panics in debug builds, when `n` is close to `usize::MAX`; the model's unbounded integers read that case as past the end and return `None`.
- TokenStreams.TokenStream: `src/token_stream.rs:1-2` buffers the `Token` enum of `src/token.rs` and takes an `Error` from `src/error.rs` in `expect`. The model buffers the lexer's `Token` from `tokens.dfy` and makes `Expect` generic in the error type. `peek`, `next` and `expect` only move the cursor, return buffer elements, and hand them to `pred`, so the choice of element and error type changes nothing they do.
