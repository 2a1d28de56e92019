/**
 * The values the line lexer produces: positions, token kinds, tokens and
 * lexical errors, with the constructors and payloads that src/lexer.rs uses.
 */
module Tokens {

  /** Rust's `i64`, the payload of an integer literal. */
  newtype int64 = x: int | -0x8000_0000_0000_0000 <= x < 0x8000_0000_0000_0000

  const Int64Max: int := 0x7FFF_FFFF_FFFF_FFFF

  /** A source position: the line number and a 1-based column. */
  datatype Pos = Pos(line: nat, col: nat)

  datatype TokenKind =
    // Literals; a float literal keeps its lexeme instead of an `f64`
    | CharLit(ch: char)
    | StrLit(str: string)
    | IntLit(val: int64)
    | FloatLit(lexeme: string)
    // Identifiers, alphabetic and symbolic alike
    | Id(name: string)
    // Single-character punctuation
    | Lp | Rp | Lb | Rb | Lc | Rc | Comma | ExprEnd
    // Alphabetic keywords
    | Ctor | Import | Underscore
    // Symbolic keywords
    | Colon | DoubleColon | Dot | Arrow | FatArrow | Bind
    | At | Pipe | Hash | Percent | Tilde | PercentTilde

  /** A token: its kind and the positions of its first and last character. */
  datatype Token = Token(kind: TokenKind, start: Pos, end: Pos)

  datatype Error =
    | EmptyCharLit(start: Pos, end: Pos)
    | MultipleCharsInCharLit(start: Pos, end: Pos)
    | UnterminatedCharLit(start: Pos)
    | UnterminatedStrLit(start: Pos)
    | UnknownEscapeSeq(start: Pos, end: Pos)
    | InvalidNumLitFormat(start: Pos, end: Pos)
    | UnexpectedChar(start: Pos)
}
