/**
 * The single-line lexer as the stateful object it is: a cursor into the line
 * and a column counter, advanced step by step by routines with loops. Every
 * routine is proved to leave the cursor, and to return, exactly what the
 * matching function of LexSpec describes.
 */
module Lexer {
  import opened Wrappers
  import opened Tokens
  import opened LexSpec

  class LineLexer {
    /** The line being lexed; the iterator over it is `line[idx..]`. */
    const line: string

    /** The line number reported in every position. */
    const lineNo: nat

    /** Number of characters the iterator has handed out: the lookahead is `line[idx]`. */
    var idx: nat

    /** Current column: the 1-based column of the last consumed character. */
    var colNo: nat

    /** The column counter agrees with the number of consumed characters. */
    ghost predicate Valid()
      reads this
    {
      idx <= |line| && colNo == idx
    }

    constructor (src: string, n: nat)
      ensures Valid()
      ensures line == src && lineNo == n && idx == 0 && colNo == 0
    {
      line := src;
      lineNo := n;
      idx := 0;
      colNo := 0;
    }

    /** Raises the column by one and takes one character from the iterator, if any is left. */
    method Advance()
      modifies this
      ensures colNo == old(colNo) + 1
      ensures idx == if old(idx) < |line| then old(idx) + 1 else old(idx)
    {
      colNo := colNo + 1;
      if idx < |line| {
        idx := idx + 1;
      }
    }

    /** The current position: on this line, at the column of the last consumed character. */
    function CurrentPos(): (p: Pos)
      reads this
      requires Valid()
      ensures p.line == lineNo && p.col == idx
    {
      Pos(lineNo, colNo)
    }

    method SkipWs()
      requires Valid()
      modifies this
      ensures Valid()
      ensures idx == RunEnd(line, old(idx), IsWhitespace)
    {
      while idx < |line| && IsWhitespace(line[idx])
        invariant Valid() && old(idx) <= idx
        invariant RunEnd(line, idx, IsWhitespace) == RunEnd(line, old(idx), IsWhitespace)
        decreases |line| - idx
      {
        Advance();
      }
    }

    /** Consumes the rest of the line. */
    method SkipLineComment()
      requires Valid()
      modifies this
      ensures Valid() && idx == |line|
    {
      while idx < |line|
        invariant Valid()
        decreases |line| - idx
      {
        Advance();
      }
    }

    /**
     * The loop shared by the character- and string-literal routines: decodes
     * the body after the opening quote `q`, consuming up to and including the
     * closing quote, or up to and including an unknown escape, or to the end
     * of the line.
     */
    method DecodeBody(q: char) returns (res: LitScan)
      requires Valid() && (q == '\'' || q == '"')
      modifies this
      ensures Valid()
      ensures res == ScanLit(line, q, old(idx))
      ensures res.Closed? ==> idx == res.close + 1
      ensures res.BadEscape? ==> idx == res.backslash + 2
      ensures res.Unterminated? ==> idx == |line|
    {
      var chars: string := [];
      while true
        invariant Valid() && old(idx) <= idx
        invariant Prepend(chars, ScanLit(line, q, idx)) == ScanLit(line, q, old(idx))
        decreases |line| - idx
      {
        if idx == |line| {
          return Unterminated;
        }
        var c := line[idx];
        if c == q {
          Advance(); // the closing quote
          assert chars + [] == chars;
          return Closed(chars, idx - 1);
        } else if c == '\\' {
          Advance();
          if idx == |line| {
            return Unterminated;
          }
          var escaped := Unescape(line[idx]);
          Advance();
          if escaped.None? {
            return BadEscape(idx - 2);
          }
          ScanLitEscape(line, q, idx - 2, chars);
          chars := chars + [escaped.value];
        } else {
          ScanLitPlain(line, q, idx, chars);
          Advance();
          chars := chars + [c];
        }
      }
    }

    method LexCharLit() returns (r: Item)
      requires Valid() && idx < |line| && line[idx] == '\''
      modifies this
      ensures Valid()
      ensures (r, idx) == CharLitSpec(line, lineNo, old(idx))
    {
      Advance(); // the opening quote
      var startPos := CurrentPos();
      var body := DecodeBody('\'');
      match body
      case Closed(chVec, _) =>
        if |chVec| == 0 {
          r := Err(EmptyCharLit(startPos, CurrentPos()));
        } else if |chVec| == 1 {
          r := Ok(Token(CharLit(chVec[0]), startPos, CurrentPos()));
        } else {
          r := Err(MultipleCharsInCharLit(startPos, CurrentPos()));
        }
      case BadEscape(b) =>
        r := Err(UnknownEscapeSeq(Pos(lineNo, b + 1), CurrentPos()));
      case Unterminated =>
        r := Err(UnterminatedCharLit(startPos));
    }

    method LexStrLit() returns (r: Item)
      requires Valid() && idx < |line| && line[idx] == '"'
      modifies this
      ensures Valid()
      ensures (r, idx) == StrLitSpec(line, lineNo, old(idx))
    {
      Advance(); // the opening quote
      var startPos := CurrentPos();
      var body := DecodeBody('"');
      match body
      case Closed(s, _) =>
        r := Ok(Token(StrLit(s), startPos, CurrentPos()));
      case BadEscape(b) =>
        r := Err(UnknownEscapeSeq(Pos(lineNo, b + 1), CurrentPos()));
      case Unterminated =>
        r := Err(UnterminatedStrLit(startPos));
    }

    /** The rest of the line after `\\`, verbatim. */
    method LexRawStringLit() returns (t: Token)
      requires Valid() && idx + 1 < |line| && line[idx] == '\\' && line[idx + 1] == '\\'
      modifies this
      ensures Valid() && idx == |line|
      ensures t == Token(StrLit(line[old(idx) + 2..]), Pos(lineNo, old(idx) + 1), Pos(lineNo, |line|))
    {
      Advance();
      var startPos := CurrentPos();
      Advance();
      var s: string := [];
      while idx < |line|
        invariant Valid() && old(idx) + 2 <= idx
        invariant s == line[old(idx) + 2..idx]
        decreases |line| - idx
      {
        s := s + [line[idx]];
        Advance();
      }
      assert line[old(idx) + 2..idx] == line[old(idx) + 2..];
      t := Token(StrLit(s), startPos, CurrentPos());
    }

    method LexNumLit(lookahead: char) returns (r: Item)
      requires Valid() && idx < |line| && line[idx] == lookahead && IsAsciiDigit(lookahead)
      modifies this
      ensures Valid()
      ensures (r, idx) == NumLitSpec(line, lineNo, old(idx))
    {
      Advance();
      var startPos := CurrentPos();
      var numStr := [lookahead];
      var isFloat := false;
      while idx < |line|
        invariant Valid() && old(idx) < idx
        invariant numStr == line[old(idx)..idx]
        invariant isFloat <==> '.' in numStr
        invariant NumEnd(line, idx, isFloat) == NumEnd(line, old(idx) + 1, false)
        decreases |line| - idx
      {
        var c := line[idx];
        if IsAsciiDigit(c) {
          numStr := numStr + [c];
          Advance();
        } else if c == '.' {
          if isFloat {
            break;
          }
          isFloat := true;
          numStr := numStr + [c];
          Advance();
        } else {
          break;
        }
      }
      if isFloat {
        r := Ok(Token(FloatLit(numStr), startPos, CurrentPos()));
      } else {
        var value := DecimalValue(numStr);
        if value <= Int64Max {
          r := Ok(Token(IntLit(value as int64), startPos, CurrentPos()));
        } else {
          r := Err(InvalidNumLitFormat(startPos, CurrentPos()));
        }
      }
    }

    method LexAlpha(lookahead: char) returns (t: Token)
      requires Valid() && idx < |line| && line[idx] == lookahead
      modifies this
      ensures Valid()
      ensures (t, idx) == NameSpec(line, lineNo, old(idx), IsNameChar, AlphaKwTable)
    {
      Advance();
      var startPos := CurrentPos();
      var name := [lookahead];
      while idx < |line| && IsNameChar(line[idx])
        invariant Valid() && old(idx) < idx
        invariant name == line[old(idx)..idx]
        invariant RunEnd(line, idx, IsNameChar) == RunEnd(line, old(idx) + 1, IsNameChar)
        decreases |line| - idx
      {
        name := name + [line[idx]];
        Advance();
      }
      t := Token(Classify(AlphaKwTable, name), startPos, CurrentPos());
    }

    method LexSym(lookahead: char) returns (t: Token)
      requires Valid() && idx < |line| && line[idx] == lookahead
      modifies this
      ensures Valid()
      ensures (t, idx) == SymSpec(line, lineNo, old(idx))
    {
      Advance();
      var startPos := CurrentPos();
      var name := [lookahead];
      while idx < |line| && IsSymChar(line[idx])
        invariant Valid() && old(idx) < idx
        invariant name == line[old(idx)..idx]
        invariant RunEnd(line, idx, IsSymChar) == RunEnd(line, old(idx) + 1, IsSymChar)
        decreases |line| - idx
      {
        name := name + [line[idx]];
        Advance();
      }
      t := Token(Classify(SymKwTable, name), startPos, CurrentPos());
    }

    /** The handlers of `(`, `)`, `[`, `]`, `{`, `}`, `,` and `;`: one character, one token. */
    method LexPunct(kind: TokenKind) returns (t: Token)
      requires Valid() && idx < |line|
      modifies this
      ensures Valid() && idx == old(idx) + 1
      ensures t == Token(kind, Pos(lineNo, idx), Pos(lineNo, idx))
    {
      Advance();
      t := Token(kind, CurrentPos(), CurrentPos());
    }

    /** `--` starts a line comment (no token); any other `-` starts a symbolic name. */
    method LexHyphen() returns (t: Option<Token>)
      requires Valid() && idx < |line| && line[idx] == '-'
      modifies this
      ensures Valid()
      ensures old(idx) + 1 < |line| && line[old(idx) + 1] == '-' ==> t.None? && idx == |line|
      ensures !(old(idx) + 1 < |line| && line[old(idx) + 1] == '-') ==>
                t.Some? && (t.value, idx) == SymSpec(line, lineNo, old(idx))
    {
      if idx + 1 < |line| && line[idx + 1] == '-' {
        SkipLineComment();
        t := None;
      } else {
        var sym := LexSym('-');
        t := Some(sym);
      }
    }

    /** `\\` starts a raw string literal; any other `\` starts a symbolic name. */
    method LexBackslash() returns (t: Token)
      requires Valid() && idx < |line| && line[idx] == '\\'
      modifies this
      ensures Valid()
      ensures old(idx) + 1 < |line| && line[old(idx) + 1] == '\\' ==>
                t == Token(StrLit(line[old(idx) + 2..]), Pos(lineNo, old(idx) + 1), Pos(lineNo, |line|)) &&
                idx == |line|
      ensures !(old(idx) + 1 < |line| && line[old(idx) + 1] == '\\') ==>
                (t, idx) == SymSpec(line, lineNo, old(idx))
    {
      if idx + 1 < |line| && line[idx + 1] == '\\' {
        t := LexRawStringLit();
      } else {
        t := LexSym('\\');
      }
    }

    /** The iterator's `next()`: skips whitespace, then lexes one token or error, or yields `None`. */
    method Next() returns (r: Option<Item>)
      requires Valid()
      modifies this
      ensures Valid()
      ensures (r, idx) == NextSpec(line, lineNo, old(idx))
    {
      SkipWs();
      if idx == |line| {
        return None;
      }
      var c := line[idx];
      if PunctKind(c).Some? {
        var t := LexPunct(PunctKind(c).value);
        r := Some(Ok(t));
      } else if c == '-' {
        var t := LexHyphen();
        r := if t.Some? then Some(Ok(t.value)) else None;
      } else if c == '\\' {
        var t := LexBackslash();
        r := Some(Ok(t));
      } else if c == '\'' {
        var item := LexCharLit();
        r := Some(item);
      } else if c == '"' {
        var item := LexStrLit();
        r := Some(item);
      } else if IsAsciiDigit(c) {
        var item := LexNumLit(c);
        r := Some(item);
      } else if IsAlphabetic(c) || c == '_' {
        var t := LexAlpha(c);
        r := Some(Ok(t));
      } else if IsSymChar(c) {
        var t := LexSym(c);
        r := Some(Ok(t));
      } else {
        // The lookahead cannot be lexed: step over it and report it
        Advance();
        r := Some(Err(UnexpectedChar(CurrentPos())));
      }
    }
  }
}
