/** Tokens produced by the finlang scanner: their kinds, their decoded
    literal values and the fixed table of reserved words. */
module Tokens {

  /** 32-bit and 64-bit signed integers, the Java `Integer` and `Long`
      values that a hexadecimal or binary literal decodes to. */
  newtype int32 = x: int | -0x8000_0000 <= x < 0x8000_0000
  newtype int64 = x: int | -0x8000_0000_0000_0000 <= x < 0x8000_0000_0000_0000

  const Int32Max: nat := 0x7FFF_FFFF
  const Int64Max: nat := 0x7FFF_FFFF_FFFF_FFFF

  /** The categories a token can have. */
  datatype TokenKind =
    // single-character punctuation and operators
    | ParenLeft | ParenRight | BraceLeft | BraceRight
    | Comma | Dot | Colon | Minus | Plus | Semicolon | Slash | Star
    // one- or two-character operators
    | Not | NotEqual | Equal | EqualEqual
    | Greater | GreaterEqual | Less | LessEqual
    // literals
    | Identifier | String | Number
    // reserved words
    | And | Class | Struct | Else | False | Fun | For | If | Null | Or
    | Print | Return | Super | This | True | Var | While
    // preprocessor directives
    | PpIfndef | PpDef | PpIf | PpElse | PpEndif
    // native integer types
    | NativeU8 | NativeU16 | NativeU32 | NativeU64
    | NativeS8 | NativeS16 | NativeS32 | NativeS64
    // end of input
    | Eof
  {
    predicate IsDirective() {
      PpIfndef? || PpDef? || PpIf? || PpElse? || PpEndif?
    }
  }

  /** The decoded value of a literal token. A decimal number keeps its
      digit strings (the part before the dot and the part after it)
      instead of an IEEE double. */
  datatype Literal =
    | Absent
    | Decimal(whole: string, fraction: string)
    | Int32(i32: int32)
    | Int64(i64: int64)
    | Str(text: string)
  {
    /** The integer carried by a 32-bit or 64-bit literal. */
    function IntValue(): int
      requires Int32? || Int64?
    {
      if Int32? then i32 as int else i64 as int
    }
  }

  datatype Token = Token(kind: TokenKind, lexeme: string, literal: Literal, line: int)

  /** The end-of-input token that closes every token sequence. */
  function EofToken(line: int): Token {
    Token(Eof, "", Absent, line)
  }

  /** The reserved-word table: exact, case-sensitive spellings. */
  const Keywords: map<string, TokenKind> := map[
    "and"     := And,
    "class"   := Class,
    "struct"  := Struct,
    "else"    := Else,
    "false"   := False,
    "for"     := For,
    "fun"     := Fun,
    "if"      := If,
    "null"    := Null,
    "or"      := Or,
    "print"   := Print,
    "return"  := Return,
    "super"   := Super,
    "this"    := This,
    "true"    := True,
    "var"     := Var,
    "#ifndef" := PpIfndef,
    "#define" := PpDef,
    "#if"     := PpIf,
    "#else"   := PpElse,
    "#endif"  := PpEndif,
    "u8"      := NativeU8,
    "u16"     := NativeU16,
    "u32"     := NativeU32,
    "u64"     := NativeU64,
    "s8"      := NativeS8,
    "s16"     := NativeS16,
    "s32"     := NativeS32,
    "s64"     := NativeS64,
    "while"   := While
  ]

  /** The kind of an identifier-shaped lexeme: its keyword entry when the
      table has one for exactly this text, IDENTIFIER otherwise. */
  function KeywordOrIdentifier(text: string): (k: TokenKind)
    ensures text in Keywords ==> k == Keywords[text]
    ensures text !in Keywords ==> k == Identifier
    ensures k == Identifier <==> text !in Keywords
    ensures k != Eof && k != String && k != Number
    ensures k.IsDirective() ==> |text| > 0 && text[0] == '#'
  {
    if text in Keywords then Keywords[text] else Identifier
  }
}
