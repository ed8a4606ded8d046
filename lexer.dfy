/** The stand-alone lexer (`_lexer/src/Lexer.cpp`): `strip_shebang`,
    `validate_raw_str` and the `Lexer` class. Each cursor-driven operation is
    proved against a value function (`LexStep`, `CommentStep`,
    `BlockCommentEnd`, `RawStrValidity`, `TokenKinds`), and the properties of
    the lexer are lemmas about those functions. */
module Lexing {
  import opened Basic
  import opened Ascii
  import opened Tokens
  import opened Cursors

  const U32Modulus: nat := 0x1_0000_0000

  /** `strip_shebang`: none unless the input starts with "#!"; otherwise the
      index just after the first newline, or the length of the input when
      there is none. */
  function StripShebang(s: seq<CChar>): (r: Option<nat>)
    ensures r.Some? <==> |s| >= 2 && s[0] == '#' && s[1] == '!'
    ensures r.Some? ==> r.value <= |s|
    ensures r.Some? && r.value == |s| ==> forall k :: 0 <= k < |s| - 1 ==> s[k] != '\n'
    ensures r.Some? && r.value == |s| ==> s[|s| - 1] == '\n' || forall k :: 0 <= k < |s| ==> s[k] != '\n'
    ensures r.Some? && r.value < |s| ==> 0 < r.value && s[r.value - 1] == '\n' &&
                                         forall k :: 0 <= k < r.value - 1 ==> s[k] != '\n'
  {
    if |s| >= 2 && s[0] == '#' && s[1] == '!' then
      RunEndMaximal(s, 0, IsNot('\n'));
      var n := RunEnd(s, 0, IsNot('\n'));
      Some(if n < |s| then n + 1 else |s|)
    else
      None
  }

  // ---------------------------------------------------------------------
  // validate_raw_str

  /** The result of `validate_raw_str`: `std::monostate` or the details of
      the error. */
  datatype RawStrValidation = RawStrOk | RawStrFailed(details: RawStrErrorDetails)

  predicate IsHash(c: CChar) {
    c == '#'
  }

  /** What `validate_raw_str(input, prefixLen)` returns: skip at most
      prefixLen chars, count the `#`s, demand a `"`, then look for a later
      `"`. */
  function RawStrValidity(input: seq<CChar>, prefixLen: U32): RawStrValidation {
    if |input| == 0 then RawStrFailed(NewRawStrErrorDetails(InvalidStarter, '\0'))
    else RawStrFrom(input, if prefixLen < |input| then prefixLen else |input|)
  }

  /** The scan from the end of the prefix: the `#`s are counted modulo 2^32,
      as the `uint32_t` counter wraps. */
  function RawStrFrom(input: seq<CChar>, start: nat): RawStrValidation
    requires start <= |input|
  {
    var h := RunEnd(input, start, IsHash);
    if CharAt(input, h) != '"' then RawStrFailed(NewRawStrErrorDetails(InvalidStarter, CharAt(input, h)))
    else RawStrBody(input, h + 1, (h - start) % U32Modulus)
  }

  /** The scan after the opening quote. */
  function RawStrBody(input: seq<CChar>, bodyStart: nat, nHashes: U32): RawStrValidation
    requires bodyStart <= |input|
  {
    if RunEnd(input, bodyStart, IsNot('"')) == |input| then
      RawStrFailed(NewRawStrErrorDetails(NoTerminator, '\0', nHashes, 0))
    else RawStrOk
  }

  /** `++` on a `uint32_t` counter. */
  function Increment32(n: U32): (r: U32)
    ensures forall a: nat {:trigger a % U32Modulus} :: n == a % U32Modulus ==> r == (a + 1) % U32Modulus
  {
    if n == U32Modulus - 1 then 0 else n + 1
  }

  /** `validate_raw_str`, driving a local `Cursor`; the scans after the
      prefix and after the opening quote are `ScanRawStr` and
      `ScanRawStrBody`. */
  method ValidateRawStr(input: seq<CChar>, prefixLen: U32) returns (r: RawStrValidation)
    ensures r == RawStrValidity(input, prefixLen)
  {
    if |input| == 0 {
      return RawStrFailed(NewRawStrErrorDetails(InvalidStarter, '\0'));
    }
    var cursor := new Cursor(input);
    for i := 0 to prefixLen
      invariant cursor.Valid() && cursor.input == input
      invariant cursor.position == if i < |input| then i else |input|
    {
      if !cursor.IsEof() {
        cursor.Bump();
      }
    }
    r := ScanRawStr(cursor);
  }

  /** The hash count and the opening quote of `validate_raw_str`. */
  method ScanRawStr(cursor: Cursor) returns (r: RawStrValidation)
    requires cursor.Valid()
    modifies cursor`position
    ensures r == RawStrFrom(cursor.input, old(cursor.position))
  {
    ghost var start := cursor.position;
    var nHashes: U32 := 0;
    while !cursor.IsEof() && cursor.First() == '#'
      invariant cursor.Valid() && start <= cursor.position
      invariant RunEnd(cursor.input, cursor.position, IsHash) == RunEnd(cursor.input, start, IsHash)
      invariant nHashes == (cursor.position - start) % U32Modulus
      decreases |cursor.input| - cursor.position
    {
      nHashes := Increment32(nHashes);
      cursor.Bump();
    }
    if cursor.First() != '"' {
      return RawStrFailed(NewRawStrErrorDetails(InvalidStarter, cursor.First()));
    }
    cursor.Bump();
    r := ScanRawStrBody(cursor, nHashes);
  }

  /** The search for the closing quote of `validate_raw_str`. */
  method ScanRawStrBody(cursor: Cursor, nHashes: U32) returns (r: RawStrValidation)
    requires cursor.Valid()
    modifies cursor`position
    ensures r == RawStrBody(cursor.input, old(cursor.position), nHashes)
  {
    ghost var bodyStart := cursor.position;
    while !cursor.IsEof() && cursor.First() != '"'
      invariant cursor.Valid() && bodyStart <= cursor.position
      invariant RunEnd(cursor.input, cursor.position, IsNot('"')) == RunEnd(cursor.input, bodyStart, IsNot('"'))
      decreases |cursor.input| - cursor.position
    {
      cursor.Bump();
    }
    if cursor.IsEof() {
      return RawStrFailed(NewRawStrErrorDetails(NoTerminator, '\0', nHashes, 0));
    }
    cursor.Bump();
    return RawStrOk;
  }

  /** n hash signs. */
  function Hashes(n: nat): (h: seq<CChar>)
    ensures |h| == n && forall k :: 0 <= k < n ==> h[k] == '#'
  {
    seq(n, _ => '#')
  }

  /** A prefix, n hashes, a quote, a body without quotes, a quote and anything
      after it is accepted, whatever follows the closing quote: the closing
      hashes are never compared with the opening ones. */
  lemma RawStrAccepted(p: seq<CChar>, n: nat, body: seq<CChar>, rest: seq<CChar>)
    requires |p| < U32Modulus
    requires forall k :: 0 <= k < |body| ==> body[k] != '"'
    ensures RawStrValidity(p + Hashes(n) + ['"'] + body + ['"'] + rest, |p|) == RawStrOk
  {
    var s := p + Hashes(n) + ['"'] + body + ['"'] + rest;
    var h := |p| + n;
    assert forall k :: |p| <= k < h ==> s[k] == Hashes(n)[k - |p|];
    RunEndUnique(s, |p|, IsHash, h);
    assert s[h] == '"';
    assert forall k :: h + 1 <= k < h + 1 + |body| ==> s[k] == body[k - h - 1];
    assert s[h + 1 + |body|] == '"';
    RunEndUnique(s, h + 1, IsNot('"'), h + 1 + |body|);
  }

  /** With no second quote the error is NoTerminator, expecting as many
      closing hashes as were counted. */
  lemma RawStrUnterminated(p: seq<CChar>, n: nat, body: seq<CChar>)
    requires |p| < U32Modulus
    requires forall k :: 0 <= k < |body| ==> body[k] != '"'
    ensures RawStrValidity(p + Hashes(n) + ['"'] + body, |p|)
         == RawStrFailed(NewRawStrErrorDetails(NoTerminator, '\0', n % U32Modulus, 0))
  {
    var s := p + Hashes(n) + ['"'] + body;
    var h := |p| + n;
    assert forall k :: |p| <= k < h ==> s[k] == Hashes(n)[k - |p|];
    RunEndUnique(s, |p|, IsHash, h);
    assert s[h] == '"';
    assert forall k :: h + 1 <= k < |s| ==> s[k] == body[k - h - 1];
    RunEndUnique(s, h + 1, IsNot('"'), |s|);
  }

  /** When the hashes are followed by neither a hash nor a quote, the error is
      InvalidStarter carrying the offending char, or '\0' at the end. */
  lemma RawStrBadStarter(p: seq<CChar>, n: nat, rest: seq<CChar>)
    requires |p| < U32Modulus && |p| + n + |rest| > 0
    requires rest != [] ==> rest[0] != '#' && rest[0] != '"'
    ensures RawStrValidity(p + Hashes(n) + rest, |p|)
         == RawStrFailed(NewRawStrErrorDetails(InvalidStarter, if rest == [] then '\0' else rest[0]))
  {
    var s := p + Hashes(n) + rest;
    var h := |p| + n;
    assert forall k :: |p| <= k < h ==> s[k] == Hashes(n)[k - |p|];
    if rest != [] {
      assert s[h] == rest[0];
    }
    RunEndUnique(s, |p|, IsHash, h);
  }

  // ---------------------------------------------------------------------
  // The token-level lexer

  predicate IsIdentStart(c: CChar) {
    IsAlpha(c) || c == '_'
  }

  predicate IsIdentContinue(c: CChar) {
    IsAlnum(c) || c == '_'
  }

  /** The 27 chars `lex_punctuation` recognises. */
  const PunctuationChars: set<CChar> :=
    {';', ',', '.', '(', ')', '{', '}', '[', ']', '@', '#', '~', '?', ':',
     '$', '=', '!', '<', '>', '-', '&', '|', '+', '*', '/', '^', '%'}

  /** The switch of `lex_punctuation`: a char of the table gets its own kind,
      every other char is Unknown. */
  function PunctuationKind(c: CChar): (k: TokenKind)
    ensures k != Unknown <==> c in PunctuationChars
  {
    match c
    case ';' => Semi
    case ',' => Comma
    case '.' => Dot
    case '(' => OpenParen
    case ')' => CloseParen
    case '{' => OpenBrace
    case '}' => CloseBrace
    case '[' => OpenBracket
    case ']' => CloseBracket
    case '@' => At
    case '#' => Pound
    case '~' => Tilde
    case '?' => Question
    case ':' => Colon
    case '$' => Dollar
    case '=' => Eq
    case '!' => Bang
    case '<' => Lt
    case '>' => Gt
    case '-' => Minus
    case '&' => And
    case '|' => Or
    case '+' => Plus
    case '*' => Star
    case '/' => Slash
    case '^' => Caret
    case '%' => Percent
    case _ => Unknown
  }

  /** The char each punctuation kind is lexed from. */
  function PunctuationChar(k: TokenKind): (r: Option<CChar>)
    ensures r.Some? ==> r.value in PunctuationChars
  {
    match k
    case Semi => Some(';')
    case Comma => Some(',')
    case Dot => Some('.')
    case OpenParen => Some('(')
    case CloseParen => Some(')')
    case OpenBrace => Some('{')
    case CloseBrace => Some('}')
    case OpenBracket => Some('[')
    case CloseBracket => Some(']')
    case At => Some('@')
    case Pound => Some('#')
    case Tilde => Some('~')
    case Question => Some('?')
    case Colon => Some(':')
    case Dollar => Some('$')
    case Eq => Some('=')
    case Bang => Some('!')
    case Lt => Some('<')
    case Gt => Some('>')
    case Minus => Some('-')
    case And => Some('&')
    case Or => Some('|')
    case Plus => Some('+')
    case Star => Some('*')
    case Slash => Some('/')
    case Caret => Some('^')
    case Percent => Some('%')
    case _ => None
  }

  /** Only punctuation kinds are read back as a char, and each is lexed from
      the char it is read back as. */
  lemma PunctuationCharRoundTrip(k: TokenKind)
    ensures PunctuationChar(k).Some? ==> PunctuationKind(PunctuationChar(k).value) == k
  {
  }

  /** Every char that is not Unknown is read back from its kind, so exactly
      the 27 chars of the table are punctuation and no two share a kind. */
  lemma PunctuationKindRoundTrip(c: CChar)
    ensures PunctuationKind(c) != Unknown ==> PunctuationChar(PunctuationKind(c)) == Some(c)
  {
    match c
    case ';' =>
    case ',' =>
    case '.' =>
    case '(' =>
    case ')' =>
    case '{' =>
    case '}' =>
    case '[' =>
    case ']' =>
    case '@' =>
    case '#' =>
    case '~' =>
    case '?' =>
    case ':' =>
    case '$' =>
    case '=' =>
    case '!' =>
    case '<' =>
    case '>' =>
    case '-' =>
    case '&' =>
    case '|' =>
    case '+' =>
    case '*' =>
    case '/' =>
    case '^' =>
    case '%' =>
    case _ =>
  }

  /** Where the block-comment loop of `line_comment` leaves the cursor when
      it starts at i: just after the first "*" "/" pair, or at the end. */
  function BlockCommentEnd(s: seq<CChar>, i: nat): (r: nat)
    requires i <= |s|
    ensures i <= r <= |s|
    decreases |s| - i
  {
    if i == |s| then i
    else if s[i] == '*' && CharAt(s, i + 1) == '/' then i + 2
    else BlockCommentEnd(s, i + 1)
  }

  /** Whether "*" "/" starts at q. */
  predicate ClosesAt(s: seq<CChar>, q: nat) {
    q + 1 < |s| && s[q] == '*' && s[q + 1] == '/'
  }

  /** The block comment ends right after the first closing pair at or after
      i, or, when there is none, at the end of the input. */
  lemma {:induction false} BlockCommentEndFirstClose(s: seq<CChar>, i: nat)
    requires i <= |s|
    ensures var r := BlockCommentEnd(s, i);
            forall q :: i <= q && q + 2 < r ==> !ClosesAt(s, q)
    ensures var r := BlockCommentEnd(s, i);
            (i + 2 <= r && ClosesAt(s, r - 2)) || (r == |s| && forall q :: i <= q ==> !ClosesAt(s, q))
    decreases |s| - i
  {
    if i < |s| && !(s[i] == '*' && CharAt(s, i + 1) == '/') {
      BlockCommentEndFirstClose(s, i + 1);
    }
  }

  /** `line_comment`, entered on a '/' at pos. */
  function CommentStep(s: seq<CChar>, pos: nat): (r: (TokenKind, nat))
    requires pos < |s| && s[pos] == '/'
    ensures pos < r.1 <= |s|
  {
    var p := pos + 1;
    if CharAt(s, p) == '/' then (TokenKind.LineComment, RunEnd(s, p, IsNot('\n')))
    else if CharAt(s, p) == '*' then (BlockComment, BlockCommentEnd(s, p + 1))
    else (Slash, p)
  }

  /** `advance_token` at pos: the kind of the token and where it ends. */
  function LexStep(s: seq<CChar>, pos: nat): (r: (TokenKind, nat))
    requires pos <= |s|
    ensures pos <= r.1 <= |s|
    ensures CharAt(s, pos) != '\0' ==> pos < r.1
  {
    var c := CharAt(s, pos);
    if c == '\0' then (Eof, pos)
    else if IsSpace(c) then (Whitespace, RunEnd(s, pos, IsSpace))
    else if c == '/' then CommentStep(s, pos)
    else if IsIdentStart(c) then (Ident, RunEnd(s, pos, IsIdentContinue))
    else if IsDigit(c) then (Literal, RunEnd(s, pos, IsDigit))
    else (PunctuationKind(c), pos + 1)
  }

  /** No NUL char from pos on: the condition under which `tokenize` ends. */
  ghost predicate NoNulFrom(s: seq<CChar>, pos: nat) {
    forall k :: pos <= k < |s| ==> s[k] != '\0'
  }

  /** The kinds of the tokens `tokenize` reads from pos to the end. */
  function TokenKinds(s: seq<CChar>, pos: nat): seq<TokenKind>
    requires pos <= |s| && NoNulFrom(s, pos)
    decreases |s| - pos
  {
    if pos == |s| then []
    else
      var (k, next) := LexStep(s, pos);
      [k] + TokenKinds(s, next)
  }

  /** The tokens `tokenize` builds from kinds: each with the placeholder
      length 1. */
  function Placeholders(ks: seq<TokenKind>): (ts: seq<Token>)
    ensures |ts| == |ks|
    ensures forall i :: 0 <= i < |ks| ==> ts[i].kind == ks[i] && ts[i].len == 1
  {
    seq(|ks|, i requires 0 <= i < |ks| => NewToken(ks[i], 1))
  }

  lemma PlaceholdersAppend(a: seq<TokenKind>, b: seq<TokenKind>)
    ensures Placeholders(a + b) == Placeholders(a) + Placeholders(b)
  {
    assert forall i :: 0 <= i < |a + b| ==> Placeholders(a + b)[i] == (Placeholders(a) + Placeholders(b))[i];
  }

  /** One step of `tokenize`: the tokens still to come are the next one
      followed by those after it. */
  lemma TokenKindsStep(done: seq<Token>, s: seq<CChar>, pos: nat)
    requires pos < |s| && NoNulFrom(s, pos)
    ensures var (k, next) := LexStep(s, pos);
            done + Placeholders(TokenKinds(s, pos)) == done + [NewToken(k, 1)] + Placeholders(TokenKinds(s, next))
  {
    var (k, next) := LexStep(s, pos);
    PlaceholdersAppend([k], TokenKinds(s, next));
  }

  /** `advance_token` makes no progress on a NUL char: it returns Eof and
      leaves the cursor where it is, so `tokenize` would repeat it forever. */
  lemma LexStepStallsOnNul(s: seq<CChar>, pos: nat)
    requires pos < |s| && s[pos] == '\0'
    ensures LexStep(s, pos) == (Eof, pos)
  {
  }

  /** Whitespace, identifiers and digit runs are maximal runs, of at least
      one char. */
  lemma LexStepRuns(s: seq<CChar>, pos: nat)
    requires pos < |s|
    ensures var (k, e) := LexStep(s, pos);
            IsSpace(s[pos]) ==>
              k == Whitespace && pos < e && (forall j :: pos <= j < e ==> IsSpace(s[j])) &&
              (e == |s| || !IsSpace(s[e]))
    ensures var (k, e) := LexStep(s, pos);
            IsIdentStart(s[pos]) ==>
              k == Ident && pos < e && (forall j :: pos <= j < e ==> IsIdentContinue(s[j])) &&
              (e == |s| || !IsIdentContinue(s[e]))
    ensures var (k, e) := LexStep(s, pos);
            IsDigit(s[pos]) ==>
              k == Literal && pos < e && (forall j :: pos <= j < e ==> IsDigit(s[j])) &&
              (e == |s| || !IsDigit(s[e]))
  {
    RunEndMaximal(s, pos, IsSpace);
    RunEndMaximal(s, pos, IsIdentContinue);
    RunEndMaximal(s, pos, IsDigit);
  }

  /** "//" starts a line comment that stops before the next newline (or at
      the end); the newline is not part of it. */
  lemma LexStepLineComment(s: seq<CChar>, pos: nat)
    requires pos + 1 < |s| && s[pos] == '/' && s[pos + 1] == '/'
    ensures var (k, e) := LexStep(s, pos);
            k == TokenKind.LineComment && pos + 2 <= e &&
            (forall j :: pos <= j < e ==> s[j] != '\n') && (e == |s| || s[e] == '\n')
  {
    RunEndMaximal(s, pos + 1, IsNot('\n'));
  }

  /** A slash and a star start a block comment that runs through the first closing pair
      after it, or to the end when there is none; comments do not nest. */
  lemma LexStepBlockComment(s: seq<CChar>, pos: nat)
    requires pos + 1 < |s| && s[pos] == '/' && s[pos + 1] == '*'
    ensures var (k, e) := LexStep(s, pos);
            k == BlockComment &&
            (forall q :: pos + 2 <= q && q + 2 < e ==> !ClosesAt(s, q)) &&
            ((pos + 4 <= e && ClosesAt(s, e - 2)) ||
             (e == |s| && forall q :: pos + 2 <= q ==> !ClosesAt(s, q)))
  {
    BlockCommentEndFirstClose(s, pos + 2);
  }

  /** A '/' followed by neither '/' nor '*' is a Slash of one char; any char
      that starts no other token is one char of punctuation, Unknown when it
      is not one of the 27. */
  lemma LexStepSingleChar(s: seq<CChar>, pos: nat)
    requires pos < |s| && s[pos] != '\0'
    requires !IsSpace(s[pos]) && !IsIdentStart(s[pos]) && !IsDigit(s[pos])
    requires s[pos] == '/' ==> CharAt(s, pos + 1) != '/' && CharAt(s, pos + 1) != '*'
    ensures LexStep(s, pos) == (PunctuationKind(s[pos]), pos + 1)
  {
  }

  /** "#!" lexes as Pound and Bang: the shebang is not recognised by
      `tokenize`, and its first token is not Unknown. */
  lemma ShebangTokens()
    ensures TokenKinds(['#', '!'], 0) == [Pound, Bang]
  {
    var s: seq<CChar> := ['#', '!'];
    assert LexStep(s, 0) == (Pound, 1);
    assert LexStep(s, 1) == (Bang, 2);
  }

  /** `Lexer`: a cursor over the input and the tokens read so far. */
  class Lexer {
    const cursor: Cursor
    var tokens: seq<Token>

    ghost predicate Valid()
      reads this, cursor
    {
      cursor.Valid()
    }

    constructor (input: seq<CChar>)
      ensures Valid() && fresh(cursor)
      ensures cursor.input == input && cursor.position == 0 && tokens == []
    {
      cursor := new Cursor(input);
      tokens := [];
    }

    /** `tokenize`: one placeholder token per `advance_token` call until the
        end, then Eof of length 0, all appended to the member vector (so a
        second call only appends another Eof); returns a copy of it. */
    method Tokenize() returns (r: seq<Token>)
      requires Valid() && NoNulFrom(cursor.input, cursor.position)
      modifies this`tokens, cursor`position
      ensures Valid() && cursor.IsEof()
      ensures tokens == old(tokens) + Placeholders(TokenKinds(cursor.input, old(cursor.position)))
                        + [NewToken(Eof, 0)]
      ensures r == tokens
    {
      ghost var s, p0 := cursor.input, cursor.position;
      while !cursor.IsEof()
        invariant Valid() && p0 <= cursor.position
        invariant NoNulFrom(s, cursor.position)
        invariant old(tokens) + Placeholders(TokenKinds(s, p0))
               == tokens + Placeholders(TokenKinds(s, cursor.position))
        decreases |s| - cursor.position
      {
        TokenKindsStep(tokens, s, cursor.position);
        var kind := AdvanceToken();
        tokens := tokens + [NewToken(kind, 1)];
      }
      tokens := tokens + [NewToken(Eof, 0)];
      r := tokens;
    }

    /** `advance_token`: dispatch on the current char. */
    method AdvanceToken() returns (k: TokenKind)
      requires Valid()
      modifies cursor`position
      ensures Valid()
      ensures (k, cursor.position) == LexStep(cursor.input, old(cursor.position))
    {
      var firstChar := cursor.First();
      if firstChar == '\0' {
        return Eof;
      }
      if IsSpace(firstChar) {
        k := LexWhitespace();
        return;
      }
      if firstChar == '/' {
        k := LineComment();
        return;
      }
      if IsIdentStart(firstChar) {
        k := IdentOrUnknownPrefix();
        return;
      }
      if IsDigit(firstChar) {
        k := LexNumber();
        return;
      }
      k := LexPunctuation();
    }

    /** `lex_whitespace`. */
    method LexWhitespace() returns (k: TokenKind)
      requires Valid()
      modifies cursor`position
      ensures Valid()
      ensures k == Whitespace && cursor.position == RunEnd(cursor.input, old(cursor.position), IsSpace)
    {
      cursor.EatWhile(IsSpace);
      return Whitespace;
    }

    /** `line_comment`, entered on a '/'. */
    method LineComment() returns (k: TokenKind)
      requires Valid() && cursor.position < |cursor.input| && cursor.First() == '/'
      modifies cursor`position
      ensures Valid()
      ensures (k, cursor.position) == CommentStep(cursor.input, old(cursor.position))
    {
      cursor.Bump();
      if cursor.First() == '/' {
        cursor.EatUntil('\n');
        return TokenKind.LineComment;
      } else if cursor.First() == '*' {
        cursor.Bump();
        ghost var start := cursor.position;
        while !cursor.IsEof()
          invariant Valid() && start <= cursor.position
          invariant BlockCommentEnd(cursor.input, cursor.position) == BlockCommentEnd(cursor.input, start)
          decreases |cursor.input| - cursor.position
        {
          if cursor.First() == '*' && cursor.Second() == '/' {
            cursor.Bump();
            cursor.Bump();
            return BlockComment;
          }
          cursor.Bump();
        }
        return BlockComment;
      }
      return Slash;
    }

    /** `ident_or_unknown_prefix`. */
    method IdentOrUnknownPrefix() returns (k: TokenKind)
      requires Valid()
      modifies cursor`position
      ensures Valid()
      ensures k == Ident && cursor.position == RunEnd(cursor.input, old(cursor.position), IsIdentContinue)
    {
      cursor.EatWhile(IsIdentContinue);
      return Ident;
    }

    /** `lex_number`. */
    method LexNumber() returns (k: TokenKind)
      requires Valid()
      modifies cursor`position
      ensures Valid()
      ensures k == Literal && cursor.position == RunEnd(cursor.input, old(cursor.position), IsDigit)
    {
      cursor.EatWhile(IsDigit);
      return Literal;
    }

    /** `lex_punctuation`: consume one char and classify it. */
    method LexPunctuation() returns (k: TokenKind)
      requires Valid()
      modifies cursor`position
      ensures Valid()
      ensures k == PunctuationKind(old(cursor.First()))
      ensures cursor.position == if old(cursor.position) < |cursor.input| then old(cursor.position) + 1
                                 else old(cursor.position)
    {
      var c := cursor.First();
      cursor.Bump();
      return PunctuationKind(c);
    }
  }
}
