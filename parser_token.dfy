/** The tokens the parser consumes (`lexer::Token` of the parser's own token
    stream), reduced to what the modelled parser fragments inspect: the
    kind, the keyword kind of a keyword token, the identifier text and the
    token's storage. */
module ParserTokens {

  /** The keyword kinds the modelled fragments distinguish; every other
      keyword is `OtherKeyWord`. */
  datatype KeyWordKind =
    | KwRef | KwMut | KwTrue | KwFalse | KwSuper | KwSelfValue | KwSelfType | KwCrate
    | OtherKeyWord

  /** The token kinds the modelled fragments test for; every other kind is
      `OtherKind`. */
  datatype TokenKind =
    | Identifier | KeyWord
    | CharLit | ByteLit | StrLit | RawStrLit
    | ByteStrLit | RawByteStrLit | IntLit | FloatLit
    | Minus | At | DoubleColon
    | OtherKind

  /** `keyWord` is meaningful for a `KeyWord` token only. */
  datatype ParserToken = ParserToken(kind: TokenKind, keyWord: KeyWordKind, identifier: string, storage: string)

  predicate IsIdentifier(t: ParserToken) {
    t.kind == Identifier
  }

  predicate IsKeyWord(t: ParserToken) {
    t.kind == KeyWord
  }

  /** `check(kind, k)`: the token k places ahead of i exists and has that
      kind. */
  predicate Check(ts: seq<ParserToken>, i: nat, kind: TokenKind) {
    i < |ts| && ts[i].kind == kind
  }

  /** `checkKeyWord(kw)`: the token at i is the keyword kw. */
  predicate CheckKeyWord(ts: seq<ParserToken>, i: nat, kw: KeyWordKind) {
    i < |ts| && ts[i].kind == KeyWord && ts[i].keyWord == kw
  }
}
