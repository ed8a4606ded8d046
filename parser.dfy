/** The parser's state as the modelled fragments use it: a token stream with
    a current offset, and the stack of names of the parse functions in
    progress (`parser/FunctionStack.cpp`). Two pattern parsers of
    `parser/Pattern.cpp` consume the stream: `parseLiteralPattern` and
    `parseIdentifierPattern`.

    Each parse is specified by a function of the token sequence and the
    start offset, giving the outcome and the offset afterwards; the
    lemmas state what those functions decide. */
module Parsing {
  import opened Basic
  import opened ParserTokens

  datatype LiteralPatternKind =
    | True | False | CharLiteral | ByteLiteral | StringLiteral | RawStringLiteral
    | ByteStringLiteral | RawByteStringLiteral | IntegerLiteral | FloatLiteral

  /** A literal pattern: its kind, the storage of the token it was read
      from, and whether a minus sign led it. */
  datatype LiteralPattern = LiteralPattern(kind: LiteralPatternKind, storage: string, leadingMinus: bool)

  /** The patterns an identifier pattern's `@` subpattern can be; patterns
      other than the two modelled here are opaque. */
  datatype PatternNoTopAlt =
    | LiteralPat(literal: LiteralPattern)
    | IdentifierPat(identifierPattern: IdentifierPattern)
    | OtherPattern(tag: nat)

  datatype IdentifierPattern =
    IdentifierPattern(isRef: bool, isMut: bool, identifier: string, subPattern: Option<PatternNoTopAlt>)

  /** How a parse ends: a value, the error string of a `StringResult`, a
      failed `assert` (process abort), or `exit(EXIT_FAILURE)`. */
  datatype Outcome<T> = Parsed(value: T) | Failed(message: string) | Aborted | Exited

  /** An outcome and the offset of the token stream after it. */
  datatype Step<T> = Step(outcome: Outcome<T>, next: nat)

  /** What `parsePatternNoTopAlt`, which is not part of this model, gives
      for a start offset: a pattern and the offset after it, or an error. */
  datatype SubParse = SubParsed(pattern: PatternNoTopAlt, next: nat) | SubFailed(message: string)

  const LiteralPatternError := "failed to parse literal pattern"

  /** The eight literal token kinds and the literal-pattern kinds they
      give. */
  function LiteralTokenKind(k: TokenKind): (r: Option<LiteralPatternKind>)
    ensures r.Some? <==> k in {CharLit, ByteLit, StrLit, RawStrLit, ByteStrLit, RawByteStrLit, IntLit, FloatLit}
    ensures r.Some? ==> r.value !in {True, False}
  {
    match k
    case CharLit => Some(CharLiteral)
    case ByteLit => Some(ByteLiteral)
    case StrLit => Some(StringLiteral)
    case RawStrLit => Some(RawStringLiteral)
    case ByteStrLit => Some(ByteStringLiteral)
    case RawByteStrLit => Some(RawByteStringLiteral)
    case IntLit => Some(IntegerLiteral)
    case FloatLit => Some(FloatLiteral)
    case _ => None
  }

  /** Different literal token kinds give different pattern kinds. */
  lemma LiteralTokenKindInjective(a: TokenKind, b: TokenKind)
    requires LiteralTokenKind(a).Some? && LiteralTokenKind(a) == LiteralTokenKind(b)
    ensures a == b
  {
  }

  /** `parseLiteralPattern` as a decision on the next one or two tokens. */
  function LiteralPatternParse(ts: seq<ParserToken>, pos: nat): Step<LiteralPattern>
    requires pos <= |ts|
  {
    if CheckKeyWord(ts, pos, KwTrue) then
      Step(Parsed(LiteralPattern(True, ts[pos].storage, false)), pos + 1)
    else if CheckKeyWord(ts, pos, KwFalse) then
      Step(Parsed(LiteralPattern(False, ts[pos].storage, false)), pos + 1)
    else if pos < |ts| && LiteralTokenKind(ts[pos].kind).Some? then
      Step(Parsed(LiteralPattern(LiteralTokenKind(ts[pos].kind).value, ts[pos].storage, false)), pos + 1)
    else if Check(ts, pos, Minus) && Check(ts, pos + 1, IntLit) then
      Step(Parsed(LiteralPattern(IntegerLiteral, ts[pos].storage, true)), pos + 2)
    else if Check(ts, pos, Minus) && Check(ts, pos + 1, FloatLit) then
      Step(Parsed(LiteralPattern(FloatLiteral, ts[pos].storage, true)), pos + 2)
    else
      Step(Failed(LiteralPatternError), pos)
  }

  /** A literal pattern is parsed exactly when the stream starts with
      `true`, `false`, one of the eight literal tokens, or a minus followed
      by an integer or float literal; otherwise the error is reported and
      nothing is consumed. The storage always comes from the first token,
      so a negative literal keeps the minus token's storage. */
  lemma LiteralPatternDecision(ts: seq<ParserToken>, pos: nat)
    requires pos <= |ts|
    ensures var s := LiteralPatternParse(ts, pos);
            s.outcome.Parsed? || s.outcome == Failed(LiteralPatternError)
    ensures var s := LiteralPatternParse(ts, pos);
            s.outcome.Parsed? <==>
              CheckKeyWord(ts, pos, KwTrue) || CheckKeyWord(ts, pos, KwFalse) ||
              (pos < |ts| && LiteralTokenKind(ts[pos].kind).Some?) ||
              (Check(ts, pos, Minus) && (Check(ts, pos + 1, IntLit) || Check(ts, pos + 1, FloatLit)))
    ensures var s := LiteralPatternParse(ts, pos);
            s.outcome.Failed? ==> s.next == pos
    ensures var s := LiteralPatternParse(ts, pos);
            s.outcome.Parsed? ==>
              s.outcome.value.storage == ts[pos].storage &&
              (s.outcome.value.leadingMinus <==> ts[pos].kind == Minus) &&
              s.next == pos + (if ts[pos].kind == Minus then 2 else 1) &&
              s.next <= |ts|
  {
  }

  /** The kind of a parsed literal pattern: `true`/`false` for the two
      keywords, the literal token's own kind otherwise (the kind of the
      token after the minus for a negative literal). */
  lemma LiteralPatternKindOf(ts: seq<ParserToken>, pos: nat)
    requires pos <= |ts|
    requires LiteralPatternParse(ts, pos).outcome.Parsed?
    ensures var k := LiteralPatternParse(ts, pos).outcome.value.kind;
            (k == True <==> CheckKeyWord(ts, pos, KwTrue)) &&
            (k == False <==> CheckKeyWord(ts, pos, KwFalse)) &&
            (ts[pos].kind == Minus ==> Some(k) == LiteralTokenKind(ts[pos + 1].kind)) &&
            (ts[pos].kind != KeyWord && ts[pos].kind != Minus ==> Some(k) == LiteralTokenKind(ts[pos].kind))
  {
  }

  /** A minus that is not followed by a numeric literal is no literal
      pattern, even when a literal token of another kind follows. */
  lemma LoneMinusFails(ts: seq<ParserToken>, pos: nat)
    requires pos < |ts| && ts[pos].kind == Minus
    requires !Check(ts, pos + 1, IntLit) && !Check(ts, pos + 1, FloatLit)
    ensures LiteralPatternParse(ts, pos) == Step(Failed(LiteralPatternError), pos)
  {
  }

  /** `parseIdentifierPattern`: an optional `ref`, then an optional `mut`,
      then the identifier that must follow (its absence fails the asserted
      `eat`), then an optional `@` and its subpattern; a subpattern that
      fails ends the process. */
  function IdentifierPatternParse(ts: seq<ParserToken>, pos: nat, sub: (seq<ParserToken>, nat) -> SubParse): Step<IdentifierPattern>
    requires pos <= |ts|
  {
    var isRef := CheckKeyWord(ts, pos, KwRef);
    var afterRef := if isRef then pos + 1 else pos;
    var isMut := CheckKeyWord(ts, afterRef, KwMut);
    var atName := if isMut then afterRef + 1 else afterRef;
    if !Check(ts, atName, Identifier) then
      Step(Aborted, atName)
    else if Check(ts, atName + 1, At) then
      match sub(ts, atName + 2)
      case SubParsed(p, next) => Step(Parsed(IdentifierPattern(isRef, isMut, ts[atName].identifier, Some(p))), next)
      case SubFailed(_) => Step(Exited, atName + 2)
    else
      Step(Parsed(IdentifierPattern(isRef, isMut, ts[atName].identifier, None)), atName + 1)
  }

  /** The offset of the token that has to be the identifier: after a
      leading `ref`, then after a `mut`. */
  function NamePosition(ts: seq<ParserToken>, pos: nat): (i: nat)
    ensures pos <= i <= pos + 2
  {
    var afterRef := if CheckKeyWord(ts, pos, KwRef) then pos + 1 else pos;
    if CheckKeyWord(ts, afterRef, KwMut) then afterRef + 1 else afterRef
  }

  /** The flags of a parsed identifier pattern are set exactly by a leading
      `ref` and a `mut` after it; the name is the identifier at the name
      position; without `@` exactly the tokens up to the name are consumed
      and there is no subpattern. The parse aborts exactly when no
      identifier stands at the name position. */
  lemma IdentifierPatternShape(ts: seq<ParserToken>, pos: nat, sub: (seq<ParserToken>, nat) -> SubParse)
    requires pos <= |ts|
    ensures var s := IdentifierPatternParse(ts, pos, sub);
            s.outcome.Aborted? <==> !Check(ts, NamePosition(ts, pos), Identifier)
    ensures var s := IdentifierPatternParse(ts, pos, sub);
            var i := NamePosition(ts, pos);
            s.outcome.Parsed? ==>
              i < |ts| && ts[i].kind == Identifier &&
              s.outcome.value.identifier == ts[i].identifier &&
              (s.outcome.value.isRef <==> CheckKeyWord(ts, pos, KwRef)) &&
              (s.outcome.value.isMut <==> i > pos && ts[i - 1].kind == KeyWord && ts[i - 1].keyWord == KwMut)
    ensures var s := IdentifierPatternParse(ts, pos, sub);
            var i := NamePosition(ts, pos);
            Check(ts, i, Identifier) && !Check(ts, i + 1, At) ==>
              s.outcome.Parsed? && s.outcome.value.subPattern.None? && s.next == i + 1
    ensures var s := IdentifierPatternParse(ts, pos, sub);
            var i := NamePosition(ts, pos);
            Check(ts, i, Identifier) && Check(ts, i + 1, At) ==>
              match sub(ts, i + 2)
              case SubParsed(p, next) => s.outcome.Parsed? && s.outcome.value.subPattern == Some(p) && s.next == next
              case SubFailed(_) => s.outcome.Exited?
  {
  }

  /** `ref` and `mut` are accepted only in that order: `mut ref x` aborts,
      because the identifier is expected right after `mut`. */
  lemma MutBeforeRefAborts(ts: seq<ParserToken>, pos: nat, sub: (seq<ParserToken>, nat) -> SubParse)
    requires pos + 1 < |ts|
    requires CheckKeyWord(ts, pos, KwMut) && CheckKeyWord(ts, pos + 1, KwRef)
    ensures IdentifierPatternParse(ts, pos, sub).outcome == Aborted
  {
  }

  /** The lines `printFunctionStack` writes after its header for a stack
      whose top is the last element: one per entry, from the top down. */
  function StackEntries(stack: seq<string>): (lines: seq<string>)
    ensures |lines| == |stack|
    ensures forall i :: 0 <= i < |stack| ==> lines[i] == "    : " + stack[|stack| - 1 - i]
  {
    if stack == [] then []
    else ["    : " + stack[|stack| - 1]] + StackEntries(stack[..|stack| - 1])
  }

  /** Everything `printFunctionStack` writes: the header line, then the
      entries from the top of the stack to its bottom. */
  function StackReport(stack: seq<string>): (lines: seq<string>)
    ensures |lines| == |stack| + 1 && lines[0] == "parsing failed"
    ensures forall i :: 1 <= i <= |stack| ==> lines[i] == "    : " + stack[|stack| - i]
  {
    ["parsing failed"] + StackEntries(stack)
  }

  class Parser {
    const tokens: seq<ParserToken>
    var offset: nat
    /** The function-name stack; its top is the last element. */
    var functionStack: seq<string>

    ghost predicate Valid()
      reads this
    {
      offset <= |tokens|
    }

    constructor (tokens: seq<ParserToken>)
      ensures Valid() && this.tokens == tokens && offset == 0 && functionStack == []
    {
      this.tokens := tokens;
      offset := 0;
      functionStack := [];
    }

    /** `check(kind, k)`. */
    predicate CheckAt(kind: TokenKind, k: nat)
      reads this
    {
      Check(tokens, offset + k, kind)
    }

    /** `eat(kind)`: consumes the next token if it has that kind. */
    method Eat(kind: TokenKind) returns (ok: bool)
      requires Valid()
      modifies this`offset
      ensures Valid()
      ensures ok == Check(tokens, old(offset), kind)
      ensures offset == if ok then old(offset) + 1 else old(offset)
    {
      ok := CheckAt(kind, 0);
      if ok {
        offset := offset + 1;
      }
    }

    /** `eatKeyWord(kw)`: consumes the next token if it is keyword kw. */
    method EatKeyWord(kw: KeyWordKind) returns (ok: bool)
      requires Valid()
      modifies this`offset
      ensures Valid()
      ensures ok == CheckKeyWord(tokens, old(offset), kw)
      ensures offset == if ok then old(offset) + 1 else old(offset)
    {
      ok := CheckKeyWord(tokens, offset, kw);
      if ok {
        offset := offset + 1;
      }
    }

    /** `pushFunction(f)`: f becomes the top. */
    method PushFunction(f: string)
      modifies this`functionStack
      ensures functionStack == old(functionStack) + [f]
    {
      functionStack := functionStack + [f];
    }

    /** `popFunction(f)`: f must be the top, and is removed; after
        `PushFunction(f)` this restores the stack. */
    method PopFunction(f: string)
      requires |functionStack| > 0 && functionStack[|functionStack| - 1] == f
      modifies this`functionStack
      ensures functionStack + [f] == old(functionStack)
    {
      functionStack := functionStack[..|functionStack| - 1];
    }

    /** `printFunctionStack`: writes the report and drains the stack. */
    method PrintFunctionStack() returns (lines: seq<string>)
      modifies this`functionStack
      ensures lines == StackReport(old(functionStack))
      ensures functionStack == []
    {
      lines := ["parsing failed"];
      while functionStack != []
        invariant lines + StackEntries(functionStack) == StackReport(old(functionStack))
        decreases |functionStack|
      {
        var top := functionStack[|functionStack| - 1];
        assert StackEntries(functionStack) == ["    : " + top] + StackEntries(functionStack[..|functionStack| - 1]);
        lines := lines + ["    : " + top];
        functionStack := functionStack[..|functionStack| - 1];
      }
    }

    method ParseLiteralPattern() returns (o: Outcome<LiteralPattern>)
      requires Valid()
      modifies this`offset
      ensures Valid()
      ensures Step(o, offset) == LiteralPatternParse(tokens, old(offset))
    {
      var ok: bool;
      if CheckKeyWord(tokens, offset, KwTrue) {
        o := Parsed(LiteralPattern(True, tokens[offset].storage, false));
        ok := EatKeyWord(KwTrue);
        assert ok;
      } else if CheckKeyWord(tokens, offset, KwFalse) {
        o := Parsed(LiteralPattern(False, tokens[offset].storage, false));
        ok := EatKeyWord(KwFalse);
        assert ok;
      } else if offset < |tokens| && LiteralTokenKind(tokens[offset].kind).Some? {
        var kind := tokens[offset].kind;
        o := Parsed(LiteralPattern(LiteralTokenKind(kind).value, tokens[offset].storage, false));
        ok := Eat(kind);
        assert ok;
      } else if CheckAt(Minus, 0) && CheckAt(IntLit, 1) {
        o := Parsed(LiteralPattern(IntegerLiteral, tokens[offset].storage, true));
        ok := Eat(Minus);
        assert ok;
        ok := Eat(IntLit);
        assert ok;
      } else if CheckAt(Minus, 0) && CheckAt(FloatLit, 1) {
        o := Parsed(LiteralPattern(FloatLiteral, tokens[offset].storage, true));
        ok := Eat(Minus);
        assert ok;
        ok := Eat(FloatLit);
        assert ok;
      } else {
        o := Failed(LiteralPatternError);
      }
    }

    /** The subpattern parser must leave the offset inside the stream and
        never move it back. On a failed subpattern the function stack is
        printed, and so drained, before the exit. */
    method ParseIdentifierPattern(sub: (seq<ParserToken>, nat) -> SubParse) returns (o: Outcome<IdentifierPattern>)
      requires Valid()
      requires forall p: nat :: p <= |tokens| ==> SubParseInside(sub(tokens, p), p, |tokens|)
      modifies this`offset, this`functionStack
      ensures Valid()
      ensures Step(o, offset) == IdentifierPatternParse(tokens, old(offset), sub)
      ensures functionStack == if o.Exited? then [] else old(functionStack)
    {
      var isRef := false;
      var isMut := false;
      var ok: bool;
      if CheckKeyWord(tokens, offset, KwRef) {
        ok := EatKeyWord(KwRef);
        assert ok;
        isRef := true;
      }
      if CheckKeyWord(tokens, offset, KwMut) {
        ok := EatKeyWord(KwMut);
        assert ok;
        isMut := true;
      }
      ok := Eat(Identifier);
      if !ok {
        o := Aborted;
        return;
      }
      var name := tokens[offset - 1].identifier;
      if CheckAt(At, 0) {
        ok := Eat(At);
        assert ok;
        var r := sub(tokens, offset);
        assert SubParseInside(r, offset, |tokens|);
        match r
        case SubParsed(p, next) =>
          offset := next;
          o := Parsed(IdentifierPattern(isRef, isMut, name, Some(p)));
        case SubFailed(_) =>
          var lines := PrintFunctionStack();
          o := Exited;
      } else {
        o := Parsed(IdentifierPattern(isRef, isMut, name, None));
      }
    }
  }

  /** A subpattern parse started at p ends between p and the stream's end. */
  predicate SubParseInside(r: SubParse, p: nat, n: nat) {
    r.SubParsed? ==> p <= r.next <= n
  }
}
