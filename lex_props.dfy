/**
 * Properties of the line lexer, stated over the functions of LexSpec (which
 * LineLexer's methods are proved to follow): literal decoding inverts escaping,
 * literal classification and error cases, integer literals invert decimal
 * printing, names are scanned by maximal munch, every keyword and punctuation
 * token lexes back from its spelling, `next()` yields `None` exactly on a blank
 * or commented rest of line, and the items of a line come out in order.
 */
module LexProps {
  import opened Wrappers
  import opened Tokens
  import opened LexSpec

  // ---------------------------------------------------------------------
  // Escapes and quoted literals

  /** `w` occurs in `line` starting at index `i`. */
  predicate OccursAt(line: string, i: nat, w: string)
  {
    i + |w| <= |line| && forall k :: 0 <= k < |w| ==> line[i + k] == w[k]
  }

  lemma OccursAtDrop(line: string, i: nat, w: string, d: nat)
    requires OccursAt(line, i, w) && d <= |w|
    ensures OccursAt(line, i + d, w[d..])
  {
    forall k | 0 <= k < |w| - d
      ensures line[i + d + k] == w[d..][k]
    {
      assert line[i + (d + k)] == w[d + k];
    }
  }

  /** `EscapeOf` is exactly the inverse of the escape table, which is one-to-one. */
  lemma EscapeOfInverse(d: char, e: char)
    ensures EscapeOf(d) == Some(e) <==> Unescape(e) == Some(d)
  {
  }

  /**
   * `w` is a way of writing `s` inside a literal quoted by `q`: each character
   * of `s` appears either verbatim (unless it is the quote or a backslash) or
   * as a backslash and a letter of the escape table that stands for it.
   */
  predicate Spells(q: char, w: string, s: string)
    decreases s
  {
    if s == [] then w == []
    else
      (s[0] != q && s[0] != '\\' && |w| >= 1 && w[0] == s[0] && Spells(q, w[1..], s[1..])) ||
      (|w| >= 2 && w[0] == '\\' && Unescape(w[1]) == Some(s[0]) && Spells(q, w[2..], s[1..]))
  }

  /** The escaped text of `s` is one way of writing it, inside either kind of quotes. */
  lemma {:induction false} EncodeSpells(q: char, s: string)
    requires q == '\'' || q == '"'
    ensures Spells(q, Encode(s), s)
    decreases s
  {
    if s != [] {
      var head := Escaped(s[0]);
      var w := Encode(s);
      assert w == head + Encode(s[1..]);
      assert w[|head|..] == Encode(s[1..]);
      EncodeSpells(q, s[1..]);
      EscapeOfInverse(s[0], w[|head| - 1]);
    }
  }

  /** Decoding any spelling of `s` yields `s`, whatever follows it. */
  lemma {:induction false} ScanSpelled(line: string, q: char, i: nat, w: string, s: string)
    requires q == '\'' || q == '"'
    requires OccursAt(line, i, w) && Spells(q, w, s)
    ensures ScanLit(line, q, i) == Prepend(s, ScanLit(line, q, i + |w|))
    decreases s
  {
    if s == [] {
      PrependEmpty(ScanLit(line, q, i));
    } else {
      var c := if w[0] == '\\' then 2 else 1;
      assert line[i + 0] == w[0];
      if c == 2 {
        assert line[i + 1] == w[1];
      }
      OccursAtDrop(line, i, w, c);
      var after := ScanLit(line, q, i + c + |w[c..]|);
      assert i + c + |w[c..]| == i + |w|;
      calc {
        ScanLit(line, q, i);
        Prepend([s[0]], ScanLit(line, q, i + c));
        { ScanSpelled(line, q, i + c, w[c..], s[1..]); }
        Prepend([s[0]], Prepend(s[1..], after));
        { PrependPrepend([s[0]], s[1..], after); }
        Prepend([s[0]] + s[1..], after);
        { assert [s[0]] + s[1..] == s; }
        Prepend(s, after);
      }
    }
  }

  /**
   * Conversely, every body is a spelling of something up to where decoding
   * stops: the closing quote (and then of exactly the decoded characters),
   * the backslash of an unknown escape, or the end of the line, possibly
   * after one lone backslash.
   */
  lemma {:induction false} ScanSpellsPrefix(line: string, q: char, i: nat) returns (w: string, s: string)
    requires i <= |line| && (q == '\'' || q == '"')
    ensures OccursAt(line, i, w) && Spells(q, w, s)
    ensures var r := ScanLit(line, q, i); var m := i + |w|;
            (r.Closed? ==> m == r.close && s == r.chars) &&
            (r.BadEscape? ==> m == r.backslash) &&
            (r.Unterminated? ==> m == |line| || (m + 1 == |line| && line[m] == '\\'))
    decreases |line| - i
  {
    if i == |line| || line[i] == q || (line[i] == '\\' && (i + 1 == |line| || Unescape(line[i + 1]).None?)) {
      w, s := [], [];
    } else {
      var c := if line[i] == '\\' then 2 else 1;
      var d := if c == 2 then Unescape(line[i + 1]).value else line[i];
      var w', s' := ScanSpellsPrefix(line, q, i + c);
      w, s := line[i..i + c] + w', [d] + s';
      assert w[c..] == w' && s[1..] == s';
      forall k | 0 <= k < |w|
        ensures line[i + k] == w[k]
      {
        if k >= c {
          assert line[(i + c) + (k - c)] == w'[k - c];
        }
      }
    }
  }

  /** A spelling of `s` followed by the closing quote decodes to `s`. */
  lemma ScanSpelledClosed(line: string, q: char, i: nat, w: string, s: string)
    requires q == '\'' || q == '"'
    requires OccursAt(line, i, w) && Spells(q, w, s) && i + |w| < |line| && line[i + |w|] == q
    ensures ScanLit(line, q, i) == Closed(s, i + |w|)
  {
    var m := i + |w|;
    ScanSpelled(line, q, i, w, s);
    assert ScanLit(line, q, m) == Closed([], m);
    assert s + [] == s;
  }

  /** A string literal whose body spells `s` lexes to `StrLit(s)`, quote to quote. */
  lemma StrLitSpelled(line: string, n: nat, i: nat, w: string, s: string)
    requires i < |line| && line[i] == '"' && OccursAt(line, i + 1, w) && Spells('"', w, s)
    requires i + 1 + |w| < |line| && line[i + 1 + |w|] == '"'
    ensures var m := i + 1 + |w|;
            StrLitSpec(line, n, i) == (Ok(Token(StrLit(s), Pos(n, i + 1), Pos(n, m + 1))), m + 1)
  {
    ScanSpelledClosed(line, '"', i + 1, w, s);
  }

  /** In particular, the escaped text of any `s`, quoted, lexes back to `StrLit(s)`. */
  lemma StrLitRoundTrip(line: string, n: nat, i: nat, s: string)
    requires i < |line| && line[i] == '"' && OccursAt(line, i + 1, Encode(s))
    requires i + 1 + |Encode(s)| < |line| && line[i + 1 + |Encode(s)|] == '"'
    ensures var m := i + 1 + |Encode(s)|;
            StrLitSpec(line, n, i) == (Ok(Token(StrLit(s), Pos(n, i + 1), Pos(n, m + 1))), m + 1)
  {
    EncodeSpells('"', s);
    StrLitSpelled(line, n, i, Encode(s), s);
  }

  /**
   * A character literal is classified by the number of characters its body
   * decodes to: none, one, or more than one.
   */
  lemma CharLitByCount(line: string, n: nat, i: nat, w: string, s: string)
    requires i < |line| && line[i] == '\'' && OccursAt(line, i + 1, w) && Spells('\'', w, s)
    requires i + 1 + |w| < |line| && line[i + 1 + |w|] == '\''
    ensures var m := i + 1 + |w|;
            CharLitSpec(line, n, i) == (CharLitOf(s, Pos(n, i + 1), Pos(n, m + 1)), m + 1)
  {
    ScanSpelledClosed(line, '\'', i + 1, w, s);
  }

  /**
   * The line after `i` is a spelling `w` of `s` and then ends, possibly after
   * one lone backslash.
   */
  predicate UnclosedBody(line: string, q: char, i: nat, w: string, s: string)
  {
    var m := i + |w|;
    OccursAt(line, i, w) && Spells(q, w, s) &&
    (m == |line| || (m + 1 == |line| && line[m] == '\\'))
  }

  lemma ScanUnclosed(line: string, q: char, i: nat, w: string, s: string)
    requires q == '\'' || q == '"'
    requires UnclosedBody(line, q, i, w, s)
    ensures ScanLit(line, q, i) == Unterminated
  {
    ScanSpelled(line, q, i, w, s);
  }

  /**
   * The line ending inside a string literal, even right after a backslash,
   * reports the literal's opening column.
   */
  lemma StrLitUnterminated(line: string, n: nat, i: nat, w: string, s: string)
    requires i < |line| && line[i] == '"' && UnclosedBody(line, '"', i + 1, w, s)
    ensures StrLitSpec(line, n, i) == (Err(UnterminatedStrLit(Pos(n, i + 1))), |line|)
  {
    ScanUnclosed(line, '"', i + 1, w, s);
  }

  lemma CharLitUnterminated(line: string, n: nat, i: nat, w: string, s: string)
    requires i < |line| && line[i] == '\'' && UnclosedBody(line, '\'', i + 1, w, s)
    ensures CharLitSpec(line, n, i) == (Err(UnterminatedCharLit(Pos(n, i + 1))), |line|)
  {
    ScanUnclosed(line, '\'', i + 1, w, s);
  }

  /** After a spelling of `s`, a backslash followed by a letter the table lacks. */
  lemma ScanUnknownEscape(line: string, q: char, i: nat, w: string, s: string)
    requires q == '\'' || q == '"'
    requires OccursAt(line, i, w) && Spells(q, w, s) && i + |w| + 1 < |line|
    requires line[i + |w|] == '\\' && Unescape(line[i + |w| + 1]).None?
    ensures ScanLit(line, q, i) == BadEscape(i + |w|)
  {
    ScanSpelled(line, q, i, w, s);
  }

  /** An unknown escape spans from its backslash to the character after it. */
  lemma StrLitUnknownEscape(line: string, n: nat, i: nat, w: string, s: string)
    requires i < |line| && line[i] == '"' && OccursAt(line, i + 1, w) && Spells('"', w, s)
    requires i + 2 + |w| < |line|
    requires line[i + 1 + |w|] == '\\' && Unescape(line[i + 2 + |w|]).None?
    ensures var b := i + 1 + |w|;
            StrLitSpec(line, n, i) == (Err(UnknownEscapeSeq(Pos(n, b + 1), Pos(n, b + 2))), b + 2)
  {
    ScanUnknownEscape(line, '"', i + 1, w, s);
  }

  lemma CharLitUnknownEscape(line: string, n: nat, i: nat, w: string, s: string)
    requires i < |line| && line[i] == '\'' && OccursAt(line, i + 1, w) && Spells('\'', w, s)
    requires i + 2 + |w| < |line|
    requires line[i + 1 + |w|] == '\\' && Unescape(line[i + 2 + |w|]).None?
    ensures var b := i + 1 + |w|;
            CharLitSpec(line, n, i) == (Err(UnknownEscapeSeq(Pos(n, b + 1), Pos(n, b + 2))), b + 2)
  {
    ScanUnknownEscape(line, '\'', i + 1, w, s);
  }

  // ---------------------------------------------------------------------
  // Integer literals

  function DigitChar(d: nat): (c: char)
    requires d < 10
    ensures IsAsciiDigit(c) && DigitValue(c) == d
  {
    ('0' as int + d) as char
  }

  /** The decimal spelling of `v`, without sign or leading zeros. */
  function ShowNat(v: nat): (s: string)
    ensures |s| > 0 && forall k :: 0 <= k < |s| ==> IsAsciiDigit(s[k])
  {
    if v < 10 then [DigitChar(v)] else ShowNat(v / 10) + [DigitChar(v % 10)]
  }

  lemma {:induction false} DecimalRoundTrip(v: nat)
    ensures DecimalValue(ShowNat(v)) == v
  {
    var s := ShowNat(v);
    if v < 10 {
      assert s[..|s| - 1] == [];
    } else {
      DecimalRoundTrip(v / 10);
      assert s[..|s| - 1] == ShowNat(v / 10);
    }
  }

  /** A run of digits does not change where the numeric scan ends. */
  lemma {:induction false} NumEndSkip(line: string, i: nat, j: nat, dot: bool)
    requires i <= j <= |line|
    requires forall k :: i <= k < j ==> IsAsciiDigit(line[k])
    ensures NumEnd(line, i, dot) == NumEnd(line, j, dot)
    decreases j - i
  {
    if i < j {
      NumEndSkip(line, i + 1, j, dot);
    }
  }

  /** A maximal run of digits with no `.` after it is an integer literal, if it fits in an `i64`. */
  lemma NumLitOfDigits(line: string, n: nat, i: nat, j: nat)
    requires i < j <= |line| && forall k :: i <= k < j ==> IsAsciiDigit(line[k])
    requires j == |line| || (!IsAsciiDigit(line[j]) && line[j] != '.')
    ensures var v := DecimalValue(line[i..j]);
            var start := Pos(n, i + 1);
            var end := Pos(n, j);
            NumLitSpec(line, n, i) ==
              (if v <= Int64Max then Ok(Token(IntLit(v as int64), start, end))
               else Err(InvalidNumLitFormat(start, end)),
               j)
  {
    NumEndSkip(line, i + 1, j, false);
    assert '.' !in line[i..j] by {
      forall k | 0 <= k < j - i ensures line[i..j][k] != '.' {
        assert IsAsciiDigit(line[i + k]);
      }
    }
  }

  /**
   * Lexing the decimal spelling of `v` gives `IntLit(v)` when `v` fits in an
   * `i64`, and `InvalidNumLitFormat` over the same span otherwise.
   */
  lemma IntLitRoundTrip(line: string, n: nat, i: nat, v: nat)
    requires OccursAt(line, i, ShowNat(v))
    requires var j := i + |ShowNat(v)|; j == |line| || (!IsAsciiDigit(line[j]) && line[j] != '.')
    ensures var j := i + |ShowNat(v)|;
            var start := Pos(n, i + 1);
            var end := Pos(n, j);
            IsAsciiDigit(line[i]) &&
            NumLitSpec(line, n, i) ==
              (if v <= Int64Max then Ok(Token(IntLit(v as int64), start, end))
               else Err(InvalidNumLitFormat(start, end)),
               j)
  {
    var s := ShowNat(v);
    var j := i + |s|;
    assert line[i + 0] == s[0];
    assert line[i..j] == s;
    DecimalRoundTrip(v);
    NumLitOfDigits(line, n, i, j);
  }

  /**
   * Digits, one `.` and optional digits, up to anything that is not a digit
   * (the end of the line, a second `.` or any other character), are a float
   * literal whose lexeme is exactly those characters: parsing it as an `f64`
   * cannot fail.
   */
  lemma NumLitFloat(line: string, n: nat, i: nat, a: nat, j: nat)
    requires i < a < j <= |line| && line[a] == '.'
    requires forall k :: i <= k < j && k != a ==> IsAsciiDigit(line[k])
    requires j == |line| || !IsAsciiDigit(line[j])
    ensures NumLitSpec(line, n, i) == (Ok(Token(FloatLit(line[i..j]), Pos(n, i + 1), Pos(n, j))), j)
  {
    NumEndSkip(line, i + 1, a, false);
    NumEndSkip(line, a + 1, j, true);
    assert NumEnd(line, i + 1, false) == j;
    assert line[i..j][a - i] == '.';
  }

  /** In particular, a second `.` ends a float literal and is left for the next call. */
  lemma FloatStopsAtSecondDot(line: string, n: nat, i: nat, a: nat, b: nat)
    requires i < a < b < |line| && line[a] == '.' && line[b] == '.'
    requires forall k :: i <= k < b && k != a ==> IsAsciiDigit(line[k])
    ensures NumLitSpec(line, n, i) == (Ok(Token(FloatLit(line[i..b]), Pos(n, i + 1), Pos(n, b))), b)
  {
    NumLitFloat(line, n, i, a, b);
  }

  // ---------------------------------------------------------------------
  // Names, keywords and punctuation

  /** Every character from `i0` up to `k` is whitespace. */
  predicate BlankUpTo(line: string, i0: nat, k: nat)
    requires k <= |line|
  {
    forall m :: i0 <= m < k ==> IsWhitespace(line[m])
  }

  /** A run of `p` characters from `i` that stops at `j` ends there. */
  lemma {:induction false} RunEndAt(line: string, i: nat, j: nat, p: char -> bool)
    requires i <= j <= |line|
    requires forall k :: i <= k < j ==> p(line[k])
    requires j == |line| || !p(line[j])
    ensures RunEnd(line, i, p) == j
    decreases j - i
  {
    if i < j {
      RunEndAt(line, i + 1, j, p);
    }
  }

  /** After whitespace from `i0` up to `i`, `next()` dispatches on the character at `i`. */
  lemma SkipTo(line: string, n: nat, i0: nat, i: nat)
    requires i0 <= i < |line| && BlankUpTo(line, i0, i) && !IsWhitespace(line[i])
    ensures NextSpec(line, n, i0) == DispatchSpec(line, n, i)
  {
    RunEndAt(line, i0, i, IsWhitespace);
  }

  /** The name scan at `i` takes exactly `name` when the character after it cannot continue it. */
  lemma NameScan(line: string, n: nat, i: nat, name: string, cont: char -> bool, table: map<string, TokenKind>)
    requires |name| > 0 && OccursAt(line, i, name)
    requires forall k :: 0 < k < |name| ==> cont(name[k])
    requires i + |name| == |line| || !cont(line[i + |name|])
    ensures NameSpec(line, n, i, cont, table) ==
              (Token(Classify(table, name), Pos(n, i + 1), Pos(n, i + |name|)), i + |name|)
  {
    var j := i + |name|;
    assert line[i..j] == name;
    RunEndAt(line, i + 1, j, cont);
  }

  /** A letter or `_` starts an alphabetic name. */
  lemma DispatchAlpha(line: string, n: nat, i: nat)
    requires i < |line| && (IsAlphabetic(line[i]) || line[i] == '_')
    ensures var name := NameSpec(line, n, i, IsNameChar, AlphaKwTable);
            DispatchSpec(line, n, i) == (Some(Ok(name.0)), name.1)
  {
  }

  /** A symbolic character that opens no comment, raw string or character literal starts a symbolic name. */
  lemma DispatchSym(line: string, n: nat, i: nat)
    requires i < |line| && IsSymChar(line[i]) && line[i] != '\''
    requires !(i + 1 < |line| && line[i + 1] == line[i] && (line[i] == '-' || line[i] == '\\'))
    ensures var sym := SymSpec(line, n, i);
            DispatchSpec(line, n, i) == (Some(Ok(sym.0)), sym.1)
  {
    var c := line[i];
    assert PunctKind(c).None? && c != '"' && !IsAsciiDigit(c) && !IsAlphabetic(c) && c != '_';
  }

  /**
   * An alphabetic name after whitespace lexes to one token spanning exactly
   * its characters: its keyword kind if it is `ctor`, `import` or `_`, else `Id(name)`.
   */
  lemma NextAlphaName(line: string, n: nat, i0: nat, i: nat, name: string)
    requires |name| > 0 && OccursAt(line, i, name) && i0 <= i && BlankUpTo(line, i0, i)
    requires IsAlphabetic(name[0]) || name[0] == '_'
    requires forall k :: 0 < k < |name| ==> IsNameChar(name[k])
    requires i + |name| == |line| || !IsNameChar(line[i + |name|])
    ensures NextSpec(line, n, i0) ==
              (Some(Ok(Token(if name in AlphaKwTable then AlphaKwTable[name] else Id(name),
                             Pos(n, i + 1), Pos(n, i + |name|)))),
               i + |name|)
  {
    assert line[i + 0] == name[0];
    SkipTo(line, n, i0, i);
    DispatchAlpha(line, n, i);
    NameScan(line, n, i, name, IsNameChar, AlphaKwTable);
  }

  /**
   * A symbolic name after whitespace lexes to one token spanning exactly its
   * characters, unless it opens a comment (`--`), a raw string (`\\`) or a
   * character literal (`'`): its keyword kind if the table lists it, else `Id(name)`.
   */
  lemma NextSymName(line: string, n: nat, i0: nat, i: nat, name: string)
    requires |name| > 0 && OccursAt(line, i, name) && i0 <= i && BlankUpTo(line, i0, i)
    requires forall k :: 0 <= k < |name| ==> IsSymChar(name[k])
    requires name[0] != '\''
    requires |name| > 1 ==> !(name[0] == name[1] && (name[0] == '-' || name[0] == '\\'))
    requires i + |name| == |line| || !IsSymChar(line[i + |name|])
    ensures NextSpec(line, n, i0) ==
              (Some(Ok(Token(if name in SymKwTable then SymKwTable[name] else Id(name),
                             Pos(n, i + 1), Pos(n, i + |name|)))),
               i + |name|)
  {
    assert line[i + 0] == name[0];
    if |name| > 1 {
      assert line[i + 1] == name[1];
    }
    SkipTo(line, n, i0, i);
    DispatchSym(line, n, i);
    NameScan(line, n, i, name, IsSymChar, SymKwTable);
  }

  /** A single `\` not followed by another starts a symbolic identifier, never a keyword. */
  lemma SingleBackslashIsName(line: string, n: nat, i: nat)
    requires i < |line| && line[i] == '\\' && !(i + 1 < |line| && line[i + 1] == '\\')
    ensures var out := DispatchSpec(line, n, i);
            out.0 == Some(Ok(Token(Id(line[i..out.1]), Pos(n, i + 1), Pos(n, out.1)))) &&
            forall k :: i <= k < out.1 ==> IsSymChar(line[k])
  {
    var j := SymSpec(line, n, i).1;
    var name := line[i..j];
    assert name[0] == '\\';
    assert name !in SymKwTable;
  }

  /**
   * Each punctuation character is a token of its own, whatever follows it:
   * `()` is two tokens.
   */
  lemma NextPunct(line: string, n: nat, i0: nat, i: nat)
    requires i0 <= i < |line| && BlankUpTo(line, i0, i) && PunctKind(line[i]).Some?
    ensures NextSpec(line, n, i0) ==
              (Some(Ok(Token(PunctKind(line[i]).value, Pos(n, i + 1), Pos(n, i + 1)))), i + 1)
  {
    SkipTo(line, n, i0, i);
  }

  /** Every spelling in the alphabetic keyword table lexes back to its keyword, as one token. */
  lemma AlphaKeywordsLex(name: string, n: nat)
    requires name in AlphaKwTable
    ensures NextSpec(name, n, 0) ==
              (Some(Ok(Token(AlphaKwTable[name], Pos(n, 1), Pos(n, |name|)))), |name|)
  {
    NextAlphaName(name, n, 0, 0, name);
  }

  /** Every spelling in the symbolic keyword table lexes back to its keyword, as one token. */
  lemma SymKeywordsLex(name: string, n: nat)
    requires name in SymKwTable
    ensures NextSpec(name, n, 0) ==
              (Some(Ok(Token(SymKwTable[name], Pos(n, 1), Pos(n, |name|)))), |name|)
  {
    assert forall k :: 0 <= k < |name| ==> IsSymChar(name[k]);
    NextSymName(name, n, 0, 0, name);
  }

  /**
   * The symbol set is disjoint from the classes the dispatcher tries before
   * it (whitespace, punctuation, quotes, digits, letters and `_`), and holds
   * `-`, `\` and `'`, so a symbolic name may start with the first two and
   * continue with all three.
   */
  lemma SymCharClasses(c: char)
    ensures IsSymChar(c) ==>
              !IsWhitespace(c) && PunctKind(c).None? && c != '"' && !IsAlphanumeric(c) && c != '_'
    ensures IsSymChar('-') && IsSymChar('\\') && IsSymChar('\'')
  {
  }

  // ---------------------------------------------------------------------
  // The iterator

  /** A line comment starts at `k`. */
  predicate CommentAt(line: string, k: nat)
  {
    k + 1 < |line| && line[k] == '-' && line[k + 1] == '-'
  }

  /**
   * `next()` yields `None` exactly when the rest of the line is whitespace, or
   * whitespace followed by `--`.
   */
  lemma NextNoneIff(line: string, n: nat, i0: nat)
    requires i0 <= |line|
    ensures NextSpec(line, n, i0).0.None? <==>
              BlankUpTo(line, i0, |line|) ||
              exists k :: i0 <= k && CommentAt(line, k) && BlankUpTo(line, i0, k)
  {
    var i := RunEnd(line, i0, IsWhitespace);
    if NextSpec(line, n, i0).0.None? {
      if i < |line| {
        assert CommentAt(line, i) && BlankUpTo(line, i0, i);
      }
    } else {
      assert i < |line| && !IsWhitespace(line[i]);
      assert !BlankUpTo(line, i0, |line|);
      if k :| i0 <= k && CommentAt(line, k) && BlankUpTo(line, i0, k) {
        SkipTo(line, n, i0, k);
      }
    }
  }

  /** An unclassifiable character yields `UnexpectedChar` at its column and is stepped over. */
  lemma NextUnexpectedChar(line: string, n: nat, i0: nat, i: nat)
    requires i0 <= i < |line| && BlankUpTo(line, i0, i)
    requires var c := line[i];
             !IsWhitespace(c) && PunctKind(c).None? && c != '"' && !IsAsciiDigit(c) &&
             !IsAlphabetic(c) && c != '_' && !IsSymChar(c)
    ensures NextSpec(line, n, i0) == (Some(Err(UnexpectedChar(Pos(n, i + 1)))), i + 1)
  {
    SkipTo(line, n, i0, i);
  }

  /** Each item ends in a column before the next one starts. */
  predicate InOrder(items: seq<Item>)
  {
    forall k :: 0 <= k < |items| - 1 ==> Span(items[k]).1.col < Span(items[k + 1]).0.col
  }

  lemma InOrderCons(x: Item, rest: seq<Item>)
    requires InOrder(rest)
    requires |rest| > 0 ==> Span(x).1.col < Span(rest[0]).0.col
    ensures InOrder([x] + rest)
  {
    var items := [x] + rest;
    forall k | 0 <= k < |items| - 1
      ensures Span(items[k]).1.col < Span(items[k + 1]).0.col
    {
      if k > 0 {
        assert items[k] == rest[k - 1] && items[k + 1] == rest[k];
      }
    }
  }

  /** The items of a line come out in source order. */
  lemma {:induction false} LineItemsOrdered(line: string, n: nat, i: nat)
    requires i <= |line|
    ensures InOrder(LineItems(line, n, i))
    decreases |line| - i
  {
    var out := NextSpec(line, n, i);
    if out.0.Some? {
      var j := out.1;
      LineItemsOrdered(line, n, j);
      var rest := LineItems(line, n, j);
      assert LineItems(line, n, i) == [out.0.value] + rest;
      if |rest| > 0 {
        assert SpanWithin(rest[0], n, j, |line|);
      }
      InOrderCons(out.0.value, rest);
    }
  }

  /**
   * Every `next()` that yields an item consumes at least one character, so
   * a line yields at most one item per character before `None`.
   */
  lemma {:induction false} LineItemsBound(line: string, n: nat, i: nat)
    requires i <= |line|
    ensures |LineItems(line, n, i)| <= |line| - i
    decreases |line| - i
  {
    var out := NextSpec(line, n, i);
    if out.0.Some? {
      LineItemsBound(line, n, out.1);
    }
  }
}
