/** The vocabulary of the stand-alone lexer (`_lexer/include/Token.h`):
    token kinds, numeric bases, literal kinds, raw-string errors and guarded
    strings, with the factories that build them. */
module Tokens {
  import opened Basic

  /** `GuardedStr`: `#"abc"#`, possibly with fewer closing hashes than
      opening ones, or unterminated. */
  datatype GuardedStr = GuardedStr(nHashes: U32, terminated: bool, tokenLen: U32)

  datatype RawStrError = InvalidStarter | NoTerminator | TooManyDelimiters

  datatype RawStrErrorDetails =
    RawStrErrorDetails(error: RawStrError, badChar: CChar, expected: U32, found: U32,
                       possibleTerminatorOffset: Option<U32>)

  /** The `RawStrErrorDetails` constructor with its default arguments: no bad
      char ('\0'), nothing expected or found, no terminator offset. */
  function NewRawStrErrorDetails(err: RawStrError, bad: CChar := '\0', exp: U32 := 0, fnd: U32 := 0,
                                 offset: Option<U32> := None): (d: RawStrErrorDetails)
    ensures d.error == err && d.badChar == bad && d.expected == exp && d.found == fnd
    ensures d.possibleTerminatorOffset == offset
  {
    RawStrErrorDetails(err, bad, exp, fnd, offset)
  }

  /** The base of a numeric literal, by its prefix. */
  datatype Base = Binary | Octal | Decimal | Hexadecimal

  /** The discriminant of each `Base` enumerator: the radix it stands for. */
  function BaseValue(b: Base): (v: nat)
    ensures v in {2, 8, 10, 16}
  {
    match b
    case Binary => 2
    case Octal => 8
    case Decimal => 10
    case Hexadecimal => 16
  }

  /** Different bases have different discriminants, and each discriminant
      names exactly one base. */
  lemma BaseValueInjective(a: Base, b: Base)
    ensures BaseValue(a) == BaseValue(b) <==> a == b
    ensures BaseValue(a) == 2 <==> a == Binary
    ensures BaseValue(a) == 16 <==> a == Hexadecimal
  {
  }

  datatype DocStyle = Outer | Inner

  datatype TokenKind =
    | LineComment | BlockComment | Whitespace | Ident | InvalidIdent | RawIdent
    | UnknownPrefix | UnknownPrefixLifetime | RawLifetime | GuardedStrPrefix | Literal | Lifetime
    | Semi | Comma | Dot | OpenParen | CloseParen | OpenBrace | CloseBrace | OpenBracket
    | CloseBracket | At | Pound | Tilde | Question | Colon | Dollar | Eq | Bang | Lt | Gt
    | Minus | And | Or | Plus | Star | Slash | Caret | Percent | Unknown | Eof

  datatype LiteralType = Int | Float | Char | Byte | Str | ByteStr | CStr | RawStr | RawByteStr | RawCStr

  /** `LiteralKind`; the members without an initialiser in an aggregate
      initialisation take their defaults (false, false, none, false). */
  datatype LiteralKind = LiteralKind(kind: LiteralType, base: Base, emptyInt: bool, emptyExponent: bool,
                                     nHashes: Option<int>, terminated: bool)

  /** `LiteralKind::IntLiteral`: only kind, base and empty_int are given. */
  function IntLiteral(base: Base, emptyInt: bool): (k: LiteralKind)
    ensures k.kind == Int && k.base == base && k.emptyInt == emptyInt
    ensures !k.emptyExponent && k.nHashes.None? && !k.terminated
  {
    LiteralKind(Int, base, emptyInt, false, None, false)
  }

  /** `LiteralKind::FloatLiteral`: empty_int is false, empty_exponent given. */
  function FloatLiteral(base: Base, emptyExponent: bool): (k: LiteralKind)
    ensures k.kind == Float && k.base == base && !k.emptyInt && k.emptyExponent == emptyExponent
    ensures k.nHashes.None? && !k.terminated
  {
    LiteralKind(Float, base, false, emptyExponent, None, false)
  }

  datatype Token = Token(kind: TokenKind, len: U32)

  /** `Token::newToken`. */
  function NewToken(kind: TokenKind, len: U32): (t: Token)
    ensures t.kind == kind && t.len == len
  {
    Token(kind, len)
  }
}
