/**
 * The behaviour of the single-line lexer as pure functions of the line and
 * a cursor index: character classes, keyword tables, the escape table, the
 * scans each lexing routine performs, and what one `next()` call yields.
 *
 * Throughout, `i` is the index of the lookahead in `line`, which is also the
 * number of characters consumed so far; the character at index `i` sits in
 * 1-based column `i + 1`.
 */
module LexSpec {
  import opened Wrappers
  import opened Tokens

  /** What one `next()` call yields when it yields something. */
  type Item = Result<Token, Error>

  // ---------------------------------------------------------------------
  // Character classes (ASCII renderings of Rust's char predicates)

  predicate IsWhitespace(c: char) { c == ' ' || '\t' <= c <= '\r' }

  predicate IsAsciiDigit(c: char) { '0' <= c <= '9' }

  predicate IsAlphabetic(c: char) { 'a' <= c <= 'z' || 'A' <= c <= 'Z' }

  predicate IsAlphanumeric(c: char) { IsAlphabetic(c) || IsAsciiDigit(c) }

  /** Characters that may continue an alphabetic name. */
  predicate IsNameChar(c: char) { IsAlphanumeric(c) || c == '_' || c == '\'' || c == '!' }

  /** The characters allowed in symbolic names. */
  const SymCharSet: set<char> :=
    {'~', '`', '!', '@', '#', '$', '%', '^', '&', '*', '-', '+', '=', '|', '\\', ':',
     '\'', '<', '>', '.', '?', '/'}

  predicate IsSymChar(c: char) { c in SymCharSet }

  // ---------------------------------------------------------------------
  // Keyword tables

  const AlphaKwTable: map<string, TokenKind> :=
    map["ctor" := Ctor, "import" := Import, "_" := Underscore]

  const SymKwTable: map<string, TokenKind> :=
    map[":" := Colon, "::" := DoubleColon, "." := Dot, "->" := Arrow, "=>" := FatArrow,
        "=" := Bind, "@" := At, "|" := Pipe, "#" := Hash, "%" := Percent, "~" := Tilde,
        "%~" := PercentTilde]

  /** The kind of a scanned name: its keyword kind if the table lists it, else an identifier. */
  function Classify(table: map<string, TokenKind>, name: string): TokenKind
  {
    if name in table then table[name] else Id(name)
  }

  /** The single-character punctuation the dispatcher hands to a handler of its own. */
  function PunctKind(c: char): Option<TokenKind>
  {
    match c
    case '(' => Some(Lp)
    case ')' => Some(Rp)
    case '[' => Some(Lb)
    case ']' => Some(Rb)
    case '{' => Some(Lc)
    case '}' => Some(Rc)
    case ',' => Some(Comma)
    case ';' => Some(ExprEnd)
    case _ => None
  }

  // ---------------------------------------------------------------------
  // Escape sequences

  /** The character that `\e` stands for inside a character or string literal. */
  function Unescape(e: char): Option<char>
  {
    match e
    case 'n' => Some('\n')
    case 'r' => Some('\r')
    case 't' => Some('\t')
    case '\\' => Some('\\')
    case '0' => Some('\0')
    case '\'' => Some('\'')
    case '"' => Some('"')
    case _ => None
  }

  /** The escape letter that stands for `d`, if any: the inverse of the table. */
  function EscapeOf(d: char): (r: Option<char>)
    ensures r.Some? ==> Unescape(r.value) == Some(d)
  {
    match d
    case '\n' => Some('n')
    case '\r' => Some('r')
    case '\t' => Some('t')
    case '\\' => Some('\\')
    case '\0' => Some('0')
    case '\'' => Some('\'')
    case '"' => Some('"')
    case _ => None
  }

  /** How `d` is written inside a quoted literal: escaped when the table has it, verbatim otherwise. */
  function Escaped(d: char): string
  {
    if EscapeOf(d).Some? then ['\\', EscapeOf(d).value] else [d]
  }

  /** The text of a quoted literal's body that denotes `s`. */
  function Encode(s: string): string
  {
    if s == [] then [] else Escaped(s[0]) + Encode(s[1..])
  }

  // ---------------------------------------------------------------------
  // Scans

  /** The end of the maximal run of characters satisfying `p` that starts at `i`. */
  function RunEnd(line: string, i: nat, p: char -> bool): (j: nat)
    requires i <= |line|
    ensures i <= j <= |line|
    ensures forall k :: i <= k < j ==> p(line[k])
    ensures j == |line| || !p(line[j])
    decreases |line| - i
  {
    if i < |line| && p(line[i]) then RunEnd(line, i + 1, p) else i
  }

  /**
   * The end of the numeric lexeme scanned from `i`, given whether a `.` was
   * already taken: a maximal run of digits holding at most one `.` overall.
   */
  function NumEnd(line: string, i: nat, dot: bool): (j: nat)
    requires i <= |line|
    ensures i <= j <= |line|
    ensures forall k :: i <= k < j ==> IsAsciiDigit(line[k]) || line[k] == '.'
    ensures dot ==> forall k :: i <= k < j ==> line[k] != '.'
    ensures forall a, b :: i <= a < b < j && line[a] == '.' ==> line[b] != '.'
    ensures j < |line| ==> !IsAsciiDigit(line[j])
    ensures j < |line| && line[j] == '.' ==> dot || exists k :: i <= k < j && line[k] == '.'
    decreases |line| - i
  {
    if i == |line| then i
    else if IsAsciiDigit(line[i]) then NumEnd(line, i + 1, dot)
    else if line[i] == '.' && !dot then NumEnd(line, i + 1, true)
    else i
  }

  /** The outcome of decoding a quoted literal's body. */
  datatype LitScan =
    | Closed(chars: string, close: nat)  // decoded characters; index of the closing quote
    | BadEscape(backslash: nat)          // index of a backslash followed by an unknown escape
    | Unterminated                       // the line ended first

  /** `r` with `s` decoded in front of its characters. */
  function Prepend(s: string, r: LitScan): LitScan
  {
    if r.Closed? then Closed(s + r.chars, r.close) else r
  }

  /** Decodes the body of a literal quoted by `q`, from index `i` up to the closing quote. */
  function ScanLit(line: string, q: char, i: nat): (r: LitScan)
    requires i <= |line|
    requires q != '\\'
    ensures r.Closed? ==> i <= r.close < |line| && line[r.close] == q
    ensures r.BadEscape? ==>
              i <= r.backslash && r.backslash + 1 < |line| &&
              line[r.backslash] == '\\' && Unescape(line[r.backslash + 1]).None?
    decreases |line| - i
  {
    if i == |line| then Unterminated
    else if line[i] == q then Closed([], i)
    else if line[i] == '\\' then
      if i + 1 == |line| then Unterminated
      else match Unescape(line[i + 1])
        case None => BadEscape(i)
        case Some(d) => Prepend([d], ScanLit(line, q, i + 2))
    else Prepend([line[i]], ScanLit(line, q, i + 1))
  }

  lemma PrependPrepend(s: string, t: string, r: LitScan)
    ensures Prepend(s, Prepend(t, r)) == Prepend(s + t, r)
  {
    if r.Closed? {
      assert s + (t + r.chars) == (s + t) + r.chars;
    }
  }

  lemma PrependEmpty(r: LitScan)
    ensures Prepend([], r) == r
  {
    if r.Closed? {
      assert [] + r.chars == r.chars;
    }
  }

  /** One decoding step: a plain character stands for itself. */
  lemma ScanLitPlain(line: string, q: char, i: nat, acc: string)
    requires i < |line| && q != '\\' && line[i] != q && line[i] != '\\'
    ensures Prepend(acc, ScanLit(line, q, i)) == Prepend(acc + [line[i]], ScanLit(line, q, i + 1))
  {
    PrependPrepend(acc, [line[i]], ScanLit(line, q, i + 1));
  }

  /** One decoding step: a known escape stands for its character. */
  lemma ScanLitEscape(line: string, q: char, i: nat, acc: string)
    requires i + 1 < |line| && q != '\\' && line[i] == '\\' && Unescape(line[i + 1]).Some?
    ensures Prepend(acc, ScanLit(line, q, i)) ==
            Prepend(acc + [Unescape(line[i + 1]).value], ScanLit(line, q, i + 2))
  {
    PrependPrepend(acc, [Unescape(line[i + 1]).value], ScanLit(line, q, i + 2));
  }

  /** Numeric value of a single decimal digit. */
  function DigitValue(c: char): nat
  {
    if IsAsciiDigit(c) then (c as int - '0' as int) else 0
  }

  /** Numeric value of a string of decimal digits, most significant first. */
  function DecimalValue(s: string): nat
  {
    if s == [] then 0 else DecimalValue(s[..|s| - 1]) * 10 + DigitValue(s[|s| - 1])
  }

  // ---------------------------------------------------------------------
  // Spans

  /** The first and last position an item reports (single-position errors report one). */
  function Span(item: Item): (Pos, Pos)
  {
    match item
    case Ok(t) => (t.start, t.end)
    case Err(e) =>
      match e
      case UnterminatedCharLit(p) => (p, p)
      case UnterminatedStrLit(p) => (p, p)
      case UnexpectedChar(p) => (p, p)
      case EmptyCharLit(s, t) => (s, t)
      case MultipleCharsInCharLit(s, t) => (s, t)
      case UnknownEscapeSeq(s, t) => (s, t)
      case InvalidNumLitFormat(s, t) => (s, t)
  }

  /** The item lies on line `n` within columns `lo + 1 .. hi`, start not after end. */
  predicate SpanWithin(item: Item, n: nat, lo: nat, hi: nat)
  {
    var span := Span(item);
    span.0.line == n && span.1.line == n && lo < span.0.col <= span.1.col <= hi
  }

  // ---------------------------------------------------------------------
  // The lexing routines, from the index `i` of the character that triggers them

  /** What a closed character literal from `start` to `end` whose body decodes to `cs` yields. */
  function CharLitOf(cs: string, start: Pos, end: Pos): (r: Item)
    ensures r.Ok? <==> |cs| == 1
  {
    if |cs| == 0 then Err(EmptyCharLit(start, end))
    else if |cs| == 1 then Ok(Token(CharLit(cs[0]), start, end))
    else Err(MultipleCharsInCharLit(start, end))
  }

  /** A character literal: `line[i]` is the opening quote. */
  function CharLitSpec(line: string, n: nat, i: nat): (Item, nat)
    requires i < |line| && line[i] == '\''
  {
    var start := Pos(n, i + 1);
    match ScanLit(line, '\'', i + 1)
    case Closed(cs, k) => (CharLitOf(cs, start, Pos(n, k + 1)), k + 1)
    case BadEscape(b) => (Err(UnknownEscapeSeq(Pos(n, b + 1), Pos(n, b + 2))), b + 2)
    case Unterminated => (Err(UnterminatedCharLit(start)), |line|)
  }

  /**
   * A character literal ends after its opening quote, within the line, and
   * lies between the two: quote to quote when it is closed, at the opening
   * quote when the line ends first.
   */
  lemma CharLitShape(line: string, n: nat, i: nat)
    requires i < |line| && line[i] == '\''
    ensures var out := CharLitSpec(line, n, i);
            i < out.1 <= |line| && SpanWithin(out.0, n, i, out.1) &&
            (out.0.Ok? ==> out.0.value.kind.CharLit?) &&
            (out.0.Ok? || out.0.error.EmptyCharLit? || out.0.error.MultipleCharsInCharLit? ==>
               Span(out.0) == (Pos(n, i + 1), Pos(n, out.1)) && line[out.1 - 1] == '\'') &&
            (out.0.Err? && out.0.error.UnterminatedCharLit? ==>
               out.0.error.start == Pos(n, i + 1) && out.1 == |line|)
  {
  }

  /** A string literal: `line[i]` is the opening quote. */
  function StrLitSpec(line: string, n: nat, i: nat): (Item, nat)
    requires i < |line| && line[i] == '"'
  {
    match ScanLit(line, '"', i + 1)
    case Closed(cs, k) => (Ok(Token(StrLit(cs), Pos(n, i + 1), Pos(n, k + 1))), k + 1)
    case BadEscape(b) => (Err(UnknownEscapeSeq(Pos(n, b + 1), Pos(n, b + 2))), b + 2)
    case Unterminated => (Err(UnterminatedStrLit(Pos(n, i + 1))), |line|)
  }

  /** The string-literal counterpart of `CharLitShape`. */
  lemma StrLitShape(line: string, n: nat, i: nat)
    requires i < |line| && line[i] == '"'
    ensures var out := StrLitSpec(line, n, i);
            i < out.1 <= |line| && SpanWithin(out.0, n, i, out.1) &&
            (out.0.Ok? ==>
               out.0.value.kind.StrLit? &&
               Span(out.0) == (Pos(n, i + 1), Pos(n, out.1)) && line[out.1 - 1] == '"') &&
            (out.0.Err? && out.0.error.UnterminatedStrLit? ==>
               out.0.error.start == Pos(n, i + 1) && out.1 == |line|)
  {
  }

  /** A number literal: `line[i]` is a digit. */
  function NumLitSpec(line: string, n: nat, i: nat): (out: (Item, nat))
    requires i < |line| && IsAsciiDigit(line[i])
    ensures i < out.1 <= |line| && SpanWithin(out.0, n, i, out.1)
    ensures Span(out.0) == (Pos(n, i + 1), Pos(n, out.1))
    ensures out.0.Ok? && out.0.value.kind.IntLit? ==>
              out.0.value.kind.val as int == DecimalValue(line[i..out.1])
    ensures out.0.Ok? && out.0.value.kind.FloatLit? ==> out.0.value.kind.lexeme == line[i..out.1]
    ensures out.0.Ok? ==> out.0.value.kind.IntLit? || out.0.value.kind.FloatLit?
    ensures out.0.Ok? && out.0.value.kind.FloatLit? <==> '.' in line[i..out.1]
    ensures out.0.Err? ==>
              out.0.error.InvalidNumLitFormat? && '.' !in line[i..out.1] &&
              DecimalValue(line[i..out.1]) > Int64Max
  {
    var j := NumEnd(line, i + 1, false);
    var lexeme := line[i..j];
    var start := Pos(n, i + 1);
    var end := Pos(n, j);
    if '.' in lexeme then (Ok(Token(FloatLit(lexeme), start, end)), j)
    else if DecimalValue(lexeme) <= Int64Max then
      (Ok(Token(IntLit(DecimalValue(lexeme) as int64), start, end)), j)
    else (Err(InvalidNumLitFormat(start, end)), j)
  }

  /**
   * A name: the character at `i` followed by the maximal run of characters
   * satisfying `cont`, classified by `table`.
   */
  function NameSpec(line: string, n: nat, i: nat, cont: char -> bool, table: map<string, TokenKind>)
    : (out: (Token, nat))
    requires i < |line|
    ensures i < out.1 <= |line|
    ensures forall k :: i < k < out.1 ==> cont(line[k])
    ensures out.1 == |line| || !cont(line[out.1])
    ensures out.0.kind == Classify(table, line[i..out.1])
    ensures out.0.start == Pos(n, i + 1) && out.0.end == Pos(n, out.1)
  {
    var j := RunEnd(line, i + 1, cont);
    (Token(Classify(table, line[i..j]), Pos(n, i + 1), Pos(n, j)), j)
  }

  /** A symbolic name starting at `i`. */
  function SymSpec(line: string, n: nat, i: nat): (out: (Token, nat))
    requires i < |line|
    ensures SpanWithin(Ok(out.0), n, i, out.1) && i < out.1 <= |line|
  {
    NameSpec(line, n, i, IsSymChar, SymKwTable)
  }

  /**
   * What the dispatcher does with the non-whitespace lookahead at `i`, in its
   * priority order. `None` is the line comment, which consumes the rest of the line.
   */
  function DispatchSpec(line: string, n: nat, i: nat): (out: (Option<Item>, nat))
    requires i < |line|
    ensures i < out.1 <= |line|
    ensures out.0.Some? ==> SpanWithin(out.0.value, n, i, out.1)
    ensures out.0.None? <==> line[i] == '-' && i + 1 < |line| && line[i + 1] == '-'
    ensures out.0.None? ==> out.1 == |line|
  {
    var c := line[i];
    if PunctKind(c).Some? then
      (Some(Ok(Token(PunctKind(c).value, Pos(n, i + 1), Pos(n, i + 1)))), i + 1)
    else if c == '-' then
      if i + 1 < |line| && line[i + 1] == '-' then (None, |line|)
      else var sym := SymSpec(line, n, i); (Some(Ok(sym.0)), sym.1)
    else if c == '\\' then
      if i + 1 < |line| && line[i + 1] == '\\' then
        (Some(Ok(Token(StrLit(line[i + 2..]), Pos(n, i + 1), Pos(n, |line|)))), |line|)
      else var sym := SymSpec(line, n, i); (Some(Ok(sym.0)), sym.1)
    else if c == '\'' then
      CharLitShape(line, n, i); var lit := CharLitSpec(line, n, i); (Some(lit.0), lit.1)
    else if c == '"' then
      StrLitShape(line, n, i); var lit := StrLitSpec(line, n, i); (Some(lit.0), lit.1)
    else if IsAsciiDigit(c) then var lit := NumLitSpec(line, n, i); (Some(lit.0), lit.1)
    else if IsAlphabetic(c) || c == '_' then
      var name := NameSpec(line, n, i, IsNameChar, AlphaKwTable); (Some(Ok(name.0)), name.1)
    else if IsSymChar(c) then var sym := SymSpec(line, n, i); (Some(Ok(sym.0)), sym.1)
    else (Some(Err(UnexpectedChar(Pos(n, i + 1)))), i + 1)
  }

  /** One `next()` call from cursor `i0`: skip whitespace, then dispatch. */
  function NextSpec(line: string, n: nat, i0: nat): (out: (Option<Item>, nat))
    requires i0 <= |line|
    ensures i0 <= out.1 <= |line|
    ensures out.0.Some? ==> i0 < out.1 && SpanWithin(out.0.value, n, i0, out.1)
    ensures out.0.None? ==> out.1 == |line|
  {
    var i := RunEnd(line, i0, IsWhitespace);
    if i == |line| then (None, i) else DispatchSpec(line, n, i)
  }

  /** Everything a consumer collects by calling `next()` from cursor `i` until it yields `None`. */
  function LineItems(line: string, n: nat, i: nat): (items: seq<Item>)
    requires i <= |line|
    ensures forall k :: 0 <= k < |items| ==> SpanWithin(items[k], n, i, |line|)
    decreases |line| - i
  {
    var next := NextSpec(line, n, i);
    if next.0.None? then [] else [next.0.value] + LineItems(line, n, next.1)
  }
}
