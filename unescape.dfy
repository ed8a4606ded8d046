/** Escape decoding of the stand-alone lexer (`_lexer/src/Unescape.cpp`,
    `_lexer/include/Unescape.h`). `scan_escape` and the `unescape_*`
    functions read an `std::istringstream`, modelled as `CharStream`: the
    string, a position and the eof and fail bits, with `>>`, `peek` and `get`
    as libstdc++ defines them. Each operation is proved against a value
    function of the stream state. */
module Unescaping {
  import opened Basic
  import opened Ascii
  import opened Cursors

  datatype EscapeError =
    | ZeroChars | MoreThanOneChar | LoneSlash | InvalidEscape | BareCarriageReturn
    | BareCarriageReturnInRawString | EscapeOnlyChar | TooShortHexEscape | InvalidCharInHexEscape
    | OutOfRangeHexEscape | NoBraceInUnicodeEscape | InvalidCharInUnicodeEscape | EmptyUnicodeEscape
    | UnclosedUnicodeEscape | LeadingUnderscoreUnicodeEscape | OverlongUnicodeEscape
    | LoneSurrogateUnicodeEscape | OutOfRangeUnicodeEscape | UnicodeEscapeInByte | NonAsciiCharInByte
    | NulInCStr | UnskippedWhitespaceWarning | MultipleSkippedLinesWarning

  datatype Mode = Char | Byte | Str | RawStr | ByteStr | RawByteStr | CStr | RawCStr

  type U8 = x: nat | x < 256

  /** `MixedUnit`: a char or a high byte. */
  datatype MixedUnit = MixedChar(c: CChar) | HighByte(b: U8)

  /** A `std::variant<T, EscapeError>`, or the `std::out_of_range` that
      `std::stoul` throws out of the whole call. */
  datatype Outcome<T> = Value(value: T) | Error(error: EscapeError) | Thrown

  // ---------------------------------------------------------------------
  // The stream

  /** The position and the eof and fail bits of an `std::istringstream`
      (the bad bit is never set here). */
  datatype StreamState = StreamState(pos: nat, eof: bool, fail: bool)

  const Start := StreamState(0, false, false)

  /** `good()`. */
  predicate Good(st: StreamState) {
    !st.eof && !st.fail
  }

  /** `traits::eof()`, which `peek` and `get` return for "no char". */
  const EndOfFile: int := -1

  /** `operator>>(istream&, char&)` with `skipws`: on a stream that is not
      good it only sets fail; otherwise it skips whitespace, and then either
      sets eof and fail at the end or reads one char, which never sets eof. */
  function ExtractChar(s: seq<CChar>, st: StreamState): (r: (StreamState, Option<CChar>))
    requires st.pos <= |s|
    ensures st.pos <= r.0.pos <= |s|
    ensures r.1.Some? <==> Good(r.0)
    ensures r.1.Some? ==> st.pos < r.0.pos && r.1.value == s[r.0.pos - 1] && !IsSpace(r.1.value)
  {
    if !Good(st) then (st.(fail := true), None)
    else
      var p := RunEnd(s, st.pos, IsSpace);
      RunEndMaximal(s, st.pos, IsSpace);
      if p == |s| then (StreamState(p, true, true), None)
      else (StreamState(p + 1, false, false), Some(s[p]))
  }

  /** `peek()`: fail on a stream that is not good, eof at the end; neither
      moves the position. */
  function PeekChar(s: seq<CChar>, st: StreamState): (r: (StreamState, int))
    requires st.pos <= |s|
    ensures r.0.pos == st.pos
    ensures Good(r.0) <==> Good(st) && st.pos < |s|
    ensures Good(r.0) ==> r.0 == st && r.1 == s[st.pos] as int
    ensures !Good(r.0) ==> r.1 == EndOfFile
  {
    if !Good(st) then (st.(fail := true), EndOfFile)
    else if st.pos == |s| then (st.(eof := true), EndOfFile)
    else (st, s[st.pos] as int)
  }

  /** `get()`: fail on a stream that is not good, eof and fail at the end,
      otherwise one char. */
  function GetChar(s: seq<CChar>, st: StreamState): (r: (StreamState, int))
    requires st.pos <= |s|
    ensures st.pos <= r.0.pos <= |s|
    ensures Good(st) && st.pos < |s| ==> r == (st.(pos := st.pos + 1), s[st.pos] as int)
    ensures !(Good(st) && st.pos < |s|) ==> r.1 == EndOfFile && !Good(r.0)
  {
    if !Good(st) then (st.(fail := true), EndOfFile)
    else if st.pos == |s| then (st.(eof := true, fail := true), EndOfFile)
    else (st.(pos := st.pos + 1), s[st.pos] as int)
  }

  /** `char next = stream.get()`: the int is narrowed to a char, so
      `traits::eof()` becomes the byte 0xFF. */
  function ToChar(i: int): CChar {
    if 0 <= i < 256 then i as char else 255 as char
  }

  /** `std::istringstream` over a string. */
  class CharStream {
    const s: seq<CChar>
    var pos: nat
    var eof: bool
    var fail: bool

    ghost predicate Valid()
      reads this
    {
      pos <= |s|
    }

    function State(): StreamState
      reads this
    {
      StreamState(pos, eof, fail)
    }

    constructor (s: seq<CChar>)
      ensures Valid() && this.s == s && State() == Start
    {
      this.s := s;
      pos, eof, fail := 0, false, false;
    }

    predicate IsGood()
      reads this
    {
      !eof && !fail
    }

    /** `stream >> c`; ok is false when the stream has failed. */
    method Extract() returns (ok: bool, c: CChar)
      requires Valid()
      modifies this
      ensures Valid()
      ensures (State(), if ok then Some(c) else None) == ExtractChar(s, old(State()))
    {
      c := '\0';
      if !IsGood() {
        fail := true;
        return false, c;
      }
      while pos < |s| && IsSpace(s[pos])
        invariant old(pos) <= pos <= |s| && !eof && !fail
        invariant RunEnd(s, pos, IsSpace) == RunEnd(s, old(pos), IsSpace)
        decreases |s| - pos
      {
        pos := pos + 1;
      }
      if pos == |s| {
        eof, fail := true, true;
        return false, c;
      }
      c := s[pos];
      pos := pos + 1;
      ok := true;
    }

    /** `stream.peek()`. */
    method Peek() returns (r: int)
      requires Valid()
      modifies this
      ensures Valid()
      ensures (State(), r) == PeekChar(s, old(State()))
    {
      if !IsGood() {
        fail := true;
        return EndOfFile;
      }
      if pos == |s| {
        eof := true;
        return EndOfFile;
      }
      r := s[pos] as int;
    }

    /** `stream.get()`. */
    method Get() returns (r: int)
      requires Valid()
      modifies this
      ensures Valid()
      ensures (State(), r) == GetChar(s, old(State()))
    {
      if !IsGood() {
        fail := true;
        return EndOfFile;
      }
      if pos == |s| {
        eof, fail := true, true;
        return EndOfFile;
      }
      r := s[pos] as int;
      pos := pos + 1;
    }
  }

  // ---------------------------------------------------------------------
  // scan_escape

  /** The value of a string of hex digits, most significant first, as
      `std::stoul(hex, nullptr, 16)` reads it. */
  function HexNumber(hex: seq<CChar>): nat
    requires forall k :: 0 <= k < |hex| ==> IsXDigit(hex[k])
  {
    if hex == [] then 0 else 16 * HexNumber(hex[..|hex| - 1]) + HexValue(hex[|hex| - 1])
  }

  const ULongModulus: nat := 0x1_0000_0000_0000_0000
  const U32Modulus: nat := 0x1_0000_0000

  /** The end of a `\u{...}` escape: `std::stoul` throws when the digits
      exceed an `unsigned long`, the result is narrowed to `uint32_t`, checked
      against 0x10FFFF and then narrowed to a char. */
  function UnicodeValue(hex: seq<CChar>): (r: Outcome<CChar>)
    requires forall k :: 0 <= k < |hex| ==> IsXDigit(hex[k])
    ensures r.Thrown? <==> HexNumber(hex) >= ULongModulus
    ensures r.Error? <==> HexNumber(hex) < ULongModulus && HexNumber(hex) % U32Modulus > 0x10FFFF
    ensures r.Error? ==> r.error == OutOfRangeUnicodeEscape
    ensures r.Value? ==> r.value as int == HexNumber(hex) % U32Modulus % 256
  {
    var v := HexNumber(hex);
    if v >= ULongModulus then Thrown
    else
      var v32 := v % U32Modulus;
      if v32 > 0x10FFFF then Error(OutOfRangeUnicodeEscape)
      else Value((v32 % 256) as char)
  }

  /** A `\x` escape: two chars (each read with `>>`, so whitespace before
      either is skipped), both hex digits; in Char mode at most 127. */
  function HexEscape(s: seq<CChar>, st: StreamState, mode: Mode): (r: (Outcome<CChar>, StreamState))
    requires st.pos <= |s|
    ensures st.pos <= r.1.pos <= |s|
    ensures r.0.Value? ==> Good(r.1)
    ensures !r.0.Thrown?
  {
    var (st1, hi) := ExtractChar(s, st);
    if hi.None? then (Error(TooShortHexEscape), st1)
    else
      var (st2, lo) := ExtractChar(s, st1);
      if lo.None? then (Error(TooShortHexEscape), st2)
      else if !IsXDigit(hi.value) || !IsXDigit(lo.value) then (Error(InvalidCharInHexEscape), st2)
      else
        var v := 16 * HexValue(hi.value) + HexValue(lo.value);
        if mode == Mode.Char && v > 127 then (Error(OutOfRangeHexEscape), st2)
        else (Value(v as char), st2)
  }

  /** The loop of a `\u{...}` escape from st, with the digits hex read so
      far: peek; while that is not '}' and the stream is good, get a char,
      skip it if it is '_', fail unless it is a hex digit; then the closing
      get must yield '}' and at least one digit must have been read. */
  function UnicodeDigits(s: seq<CChar>, st: StreamState, hex: seq<CChar>): (r: (Outcome<CChar>, StreamState))
    requires st.pos <= |s|
    requires forall k :: 0 <= k < |hex| ==> IsXDigit(hex[k])
    ensures st.pos <= r.1.pos <= |s|
    ensures r.0.Value? ==> Good(r.1)
    decreases |s| - st.pos
  {
    var (st1, p) := PeekChar(s, st);
    if p != '}' as int && Good(st1) then
      var (st2, n) := GetChar(s, st1);
      var next := ToChar(n);
      if next == '_' then UnicodeDigits(s, st2, hex)
      else if !IsXDigit(next) then (Error(InvalidCharInUnicodeEscape), st2)
      else UnicodeDigits(s, st2, hex + [next])
    else
      var (st2, g) := GetChar(s, st1);
      if g != '}' as int then (Error(UnclosedUnicodeEscape), st2)
      else if hex == [] then (Error(EmptyUnicodeEscape), st2)
      else (UnicodeValue(hex), st2)
  }

  /** A `\u` escape: a '{' must come next (peeked, then consumed). */
  function UnicodeEscape(s: seq<CChar>, st: StreamState): (r: (Outcome<CChar>, StreamState))
    requires st.pos <= |s|
    ensures st.pos <= r.1.pos <= |s|
    ensures r.0.Value? ==> Good(r.1)
  {
    var (st1, p) := PeekChar(s, st);
    if p != '{' as int then (Error(NoBraceInUnicodeEscape), st1)
    else
      var (st2, _) := GetChar(s, st1);
      UnicodeDigits(s, st2, [])
  }

  /** The char a simple escape letter stands for. */
  function SimpleEscape(c: CChar): Option<CChar> {
    match c
    case '"' => Some('"')
    case 'n' => Some('\n')
    case 'r' => Some('\r')
    case 't' => Some('\t')
    case '\\' => Some('\\')
    case '\'' => Some('\'')
    case '0' => Some('\0')
    case _ => None
  }

  /** `scan_escape(stream, mode)`, entered after a backslash. */
  function ScanEscapeSpec(s: seq<CChar>, st: StreamState, mode: Mode): (r: (Outcome<CChar>, StreamState))
    requires st.pos <= |s|
    ensures st.pos <= r.1.pos <= |s|
    ensures r.0.Value? ==> Good(r.1)
  {
    var (st1, c) := ExtractChar(s, st);
    if c.None? then (Error(LoneSlash), st1)
    else if SimpleEscape(c.value).Some? then (Value(SimpleEscape(c.value).value), st1)
    else if c.value == 'x' then HexEscape(s, st1, mode)
    else if c.value == 'u' then UnicodeEscape(s, st1)
    else (Error(InvalidEscape), st1)
  }

  /** `scan_escape`: the letter after the backslash selects the escape. */
  method ScanEscape(stream: CharStream, mode: Mode) returns (res: Outcome<CChar>)
    requires stream.Valid()
    modifies stream
    ensures stream.Valid()
    ensures (res, stream.State()) == ScanEscapeSpec(stream.s, old(stream.State()), mode)
  {
    var ok, c := stream.Extract();
    if !ok {
      return Error(LoneSlash);
    }
    match c
    case '"' => return Value('"');
    case 'n' => return Value('\n');
    case 'r' => return Value('\r');
    case 't' => return Value('\t');
    case '\\' => return Value('\\');
    case '\'' => return Value('\'');
    case '0' => return Value('\0');
    case 'x' => res := ScanHexEscape(stream, mode);
    case 'u' => res := ScanUnicodeEscape(stream);
    case _ => return Error(InvalidEscape);
  }

  /** The `\x` case of `scan_escape`. */
  method ScanHexEscape(stream: CharStream, mode: Mode) returns (res: Outcome<CChar>)
    requires stream.Valid()
    modifies stream
    ensures stream.Valid()
    ensures (res, stream.State()) == HexEscape(stream.s, old(stream.State()), mode)
  {
    var okHi, hi := stream.Extract();
    if !okHi {
      return Error(TooShortHexEscape);
    }
    var okLo, lo := stream.Extract();
    if !okLo {
      return Error(TooShortHexEscape);
    }
    if !IsXDigit(hi) || !IsXDigit(lo) {
      return Error(InvalidCharInHexEscape);
    }
    var value := 16 * HexValue(hi) + HexValue(lo);
    if mode == Mode.Char && value > 127 {
      return Error(OutOfRangeHexEscape);
    }
    return Value(value as char);
  }

  /** The `\u` case of `scan_escape`, with its loop over the digits. */
  method ScanUnicodeEscape(stream: CharStream) returns (res: Outcome<CChar>)
    requires stream.Valid()
    modifies stream
    ensures stream.Valid()
    ensures (res, stream.State()) == UnicodeEscape(stream.s, old(stream.State()))
  {
    var brace := stream.Peek();
    if brace != '{' as int {
      return Error(NoBraceInUnicodeEscape);
    }
    var _ := stream.Get();
    ghost var before := stream.State();
    var hex: seq<CChar> := [];
    var p := stream.Peek();
    while p != '}' as int && stream.IsGood()
      invariant stream.Valid() && before.pos <= |stream.s|
      invariant forall k :: 0 <= k < |hex| ==> IsXDigit(hex[k])
      invariant (stream.State(), p) == PeekChar(stream.s, before)
      invariant UnicodeDigits(stream.s, before, hex) == UnicodeEscape(stream.s, old(stream.State()))
      decreases |stream.s| - stream.pos
    {
      var n := stream.Get();
      var next := ToChar(n);
      if next != '_' {
        if !IsXDigit(next) {
          return Error(InvalidCharInUnicodeEscape);
        }
        hex := hex + [next];
      }
      before := stream.State();
      p := stream.Peek();
    }
    var close := stream.Get();
    if close != '}' as int {
      return Error(UnclosedUnicodeEscape);
    }
    if hex == [] {
      return Error(EmptyUnicodeEscape);
    }
    return UnicodeValue(hex);
  }

  /** The digits and the end of a `\u` escape fail only with their own four
      errors. */
  lemma {:induction false} UnicodeDigitsErrors(s: seq<CChar>, st: StreamState, hex: seq<CChar>)
    requires st.pos <= |s|
    requires forall k :: 0 <= k < |hex| ==> IsXDigit(hex[k])
    ensures var r := UnicodeDigits(s, st, hex).0;
            r.Error? ==> r.error in {InvalidCharInUnicodeEscape, UnclosedUnicodeEscape, EmptyUnicodeEscape,
                                     OutOfRangeUnicodeEscape}
    decreases |s| - st.pos
  {
    var (st1, p) := PeekChar(s, st);
    if p != '}' as int && Good(st1) {
      var (st2, n) := GetChar(s, st1);
      var next := ToChar(n);
      if next == '_' {
        UnicodeDigitsErrors(s, st2, hex);
      } else if IsXDigit(next) {
        UnicodeDigitsErrors(s, st2, hex + [next]);
      }
    }
  }

  /** The errors `scan_escape` can report: none of them is ZeroChars or
      MoreThanOneChar, which only `unescape_char` reports. */
  lemma ScanEscapeErrors(s: seq<CChar>, st: StreamState, mode: Mode)
    requires st.pos <= |s|
    ensures var r := ScanEscapeSpec(s, st, mode).0;
            r.Error? ==> r.error in {LoneSlash, InvalidEscape, TooShortHexEscape, InvalidCharInHexEscape,
                                     OutOfRangeHexEscape, NoBraceInUnicodeEscape, InvalidCharInUnicodeEscape,
                                     UnclosedUnicodeEscape, EmptyUnicodeEscape, OutOfRangeUnicodeEscape}
  {
    var (st1, c) := ExtractChar(s, st);
    if c.Some? && SimpleEscape(c.value).None? && c.value == 'u' {
      var (st2, p) := PeekChar(s, st1);
      if p == '{' as int {
        var (st3, _) := GetChar(s, st2);
        UnicodeDigitsErrors(s, st3, []);
      }
    }
  }

  /** A letter right after the backslash: a simple escape yields its char,
      a letter that starts no escape yields InvalidEscape, and nothing but
      whitespace yields LoneSlash. */
  lemma ScanEscapeLetter(s: seq<CChar>, pos: nat, mode: Mode)
    requires pos <= |s|
    ensures var r := ScanEscapeSpec(s, StreamState(pos, false, false), mode).0;
            (pos < |s| && SimpleEscape(s[pos]).Some? ==> r == Value(SimpleEscape(s[pos]).value)) &&
            ((pos < |s| && !IsSpace(s[pos]) && SimpleEscape(s[pos]).None? && s[pos] != 'x' && s[pos] != 'u')
               ==> r == Error(InvalidEscape)) &&
            ((forall k :: pos <= k < |s| ==> IsSpace(s[k])) ==> r == Error(LoneSlash))
  {
    RunEndMaximal(s, pos, IsSpace);
    if pos < |s| && !IsSpace(s[pos]) {
      RunEndUnique(s, pos, IsSpace, pos);
    }
    if forall k :: pos <= k < |s| ==> IsSpace(s[k]) {
      RunEndUnique(s, pos, IsSpace, |s|);
    }
  }

  /** `\x` followed by two hex digits is 16 times the first plus the second,
      rejected in Char mode above 127. */
  lemma HexEscapeDigits(s: seq<CChar>, pos: nat, mode: Mode)
    requires pos + 1 < |s| && IsXDigit(s[pos]) && IsXDigit(s[pos + 1])
    ensures var v := 16 * HexValue(s[pos]) + HexValue(s[pos + 1]);
            HexEscape(s, StreamState(pos, false, false), mode).0
              == if mode == Mode.Char && v > 127 then Error(OutOfRangeHexEscape) else Outcome<CChar>.Value(v as char)
  {
    RunEndUnique(s, pos, IsSpace, pos);
    RunEndUnique(s, pos + 1, IsSpace, pos + 1);
  }

  /** Hex digits up to a '}' are collected and converted: the digits loop
      yields UnicodeValue of all of them (EmptyUnicodeEscape when there are
      none) and leaves the stream good, just after the brace. */
  lemma {:induction false} UnicodeDigitsRun(s: seq<CChar>, pos: nat, q: nat, hex: seq<CChar>)
    requires pos <= q < |s| && s[q] == '}'
    requires forall k :: pos <= k < q ==> IsXDigit(s[k])
    requires forall k :: 0 <= k < |hex| ==> IsXDigit(hex[k])
    ensures var all := hex + s[pos..q];
            (forall k :: 0 <= k < |all| ==> IsXDigit(all[k])) &&
            UnicodeDigits(s, StreamState(pos, false, false), hex)
              == (if all == [] then Error(EmptyUnicodeEscape) else UnicodeValue(all), StreamState(q + 1, false, false))
    decreases q - pos
  {
    if pos < q {
      assert ToChar(s[pos] as int) == s[pos];
      UnicodeDigitsRun(s, pos + 1, q, hex + [s[pos]]);
      assert hex + [s[pos]] + s[pos + 1..q] == hex + s[pos..q];
    } else {
      assert hex + s[pos..q] == hex;
    }
  }

  lemma HexNumberSnoc(hex: seq<CChar>, d: CChar)
    requires forall k :: 0 <= k < |hex| ==> IsXDigit(hex[k])
    requires IsXDigit(d)
    ensures HexNumber(hex + [d]) == 16 * HexNumber(hex) + HexValue(d)
  {
    assert (hex + [d])[..|hex|] == hex;
  }

  /** `\u{` followed by hex digits and `}` right after the backslash: the
      escape is UnicodeValue of the digits, EmptyUnicodeEscape when there are
      none, and the stream is left good just after the brace. */
  lemma UnicodeEscapeDigits(s: seq<CChar>, pos: nat, q: nat, mode: Mode)
    requires pos + 2 <= q < |s| && s[pos] == 'u' && s[pos + 1] == '{' && s[q] == '}'
    requires forall k :: pos + 2 <= k < q ==> IsXDigit(s[k])
    ensures ScanEscapeSpec(s, StreamState(pos, false, false), mode)
              == (if q == pos + 2 then Error(EmptyUnicodeEscape) else UnicodeValue(s[pos + 2..q]), StreamState(q + 1, false, false))
  {
    var st := StreamState(pos, false, false);
    RunEndUnique(s, pos, IsSpace, pos);
    assert ExtractChar(s, st) == (StreamState(pos + 1, false, false), Some('u'));
    assert SimpleEscape('u').None?;
    assert ScanEscapeSpec(s, st, mode) == UnicodeEscape(s, StreamState(pos + 1, false, false));
    assert UnicodeEscape(s, StreamState(pos + 1, false, false))
             == UnicodeDigits(s, StreamState(pos + 2, false, false), []);
    UnicodeDigitsRun(s, pos + 2, q, []);
    assert [] + s[pos + 2..q] == s[pos + 2..q];
  }

  /** `\x` with nothing but whitespace left: the first `>>` fails. */
  lemma HexEscapeTooShortNone(s: seq<CChar>, pos: nat, mode: Mode)
    requires pos <= |s|
    requires forall k :: pos <= k < |s| ==> IsSpace(s[k])
    ensures HexEscape(s, StreamState(pos, false, false), mode).0 == Error(TooShortHexEscape)
  {
    RunEndUnique(s, pos, IsSpace, |s|);
  }

  /** `\x` with one char left after skipping whitespace: the second `>>` fails. */
  lemma HexEscapeTooShortOne(s: seq<CChar>, pos: nat, q: nat, mode: Mode)
    requires pos <= q < |s| && !IsSpace(s[q])
    requires forall k :: pos <= k < |s| && k != q ==> IsSpace(s[k])
    ensures HexEscape(s, StreamState(pos, false, false), mode).0 == Error(TooShortHexEscape)
  {
    RunEndUnique(s, pos, IsSpace, q);
    RunEndUnique(s, q + 1, IsSpace, |s|);
  }

  /** `\x` followed by two chars of which one is not a hex digit. */
  lemma HexEscapeInvalid(s: seq<CChar>, pos: nat, mode: Mode)
    requires pos + 1 < |s| && !IsSpace(s[pos]) && !IsSpace(s[pos + 1])
    requires !IsXDigit(s[pos]) || !IsXDigit(s[pos + 1])
    ensures HexEscape(s, StreamState(pos, false, false), mode).0 == Error(InvalidCharInHexEscape)
  {
    RunEndUnique(s, pos, IsSpace, pos);
    RunEndUnique(s, pos + 1, IsSpace, pos + 1);
  }

  /** `\u` not followed by '{', including at the end of the input. */
  lemma UnicodeNoBrace(s: seq<CChar>, pos: nat)
    requires pos <= |s|
    requires pos == |s| || s[pos] != '{'
    ensures UnicodeEscape(s, StreamState(pos, false, false)).0 == Error(NoBraceInUnicodeEscape)
  {
  }

  /** An '_' among the digits is skipped: the loop goes on as if it were absent. */
  lemma UnicodeUnderscoreSkipped(s: seq<CChar>, pos: nat, hex: seq<CChar>)
    requires pos < |s| && s[pos] == '_'
    requires forall k :: 0 <= k < |hex| ==> IsXDigit(hex[k])
    ensures UnicodeDigits(s, StreamState(pos, false, false), hex)
              == UnicodeDigits(s, StreamState(pos + 1, false, false), hex)
  {
    assert ToChar(s[pos] as int) == '_';
  }

  /** A char among the digits that is neither '}', '_' nor a hex digit. */
  lemma UnicodeInvalidChar(s: seq<CChar>, pos: nat, hex: seq<CChar>)
    requires pos < |s| && s[pos] != '}' && s[pos] != '_' && !IsXDigit(s[pos])
    requires forall k :: 0 <= k < |hex| ==> IsXDigit(hex[k])
    ensures UnicodeDigits(s, StreamState(pos, false, false), hex).0 == Error(InvalidCharInUnicodeEscape)
  {
    assert ToChar(s[pos] as int) == s[pos];
  }

  /** Digits and '_' up to the end of the input, with no '}': the closing
      `get` finds the end. */
  lemma {:induction false} UnicodeUnclosed(s: seq<CChar>, pos: nat, hex: seq<CChar>)
    requires pos <= |s|
    requires forall k :: pos <= k < |s| ==> IsXDigit(s[k]) || s[k] == '_'
    requires forall k :: 0 <= k < |hex| ==> IsXDigit(hex[k])
    ensures UnicodeDigits(s, StreamState(pos, false, false), hex).0 == Error(UnclosedUnicodeEscape)
    decreases |s| - pos
  {
    if pos < |s| {
      assert ToChar(s[pos] as int) == s[pos];
      if s[pos] == '_' {
        UnicodeUnclosed(s, pos + 1, hex);
      } else {
        UnicodeUnclosed(s, pos + 1, hex + [s[pos]]);
      }
    }
  }

  lemma HexNumberOf10000()
    ensures HexNumber("10000") == 0x10000
  {
    HexNumberSnoc([], '1');
    assert [] + ['1'] == "1";
    HexNumberSnoc("1", '0');
    assert "1" + ['0'] == "10";
    HexNumberSnoc("10", '0');
    assert "10" + ['0'] == "100";
    HexNumberSnoc("100", '0');
    assert "100" + ['0'] == "1000";
    HexNumberSnoc("1000", '0');
    assert "1000" + ['0'] == "10000";
  }

  lemma HexNumberOf100000041()
    ensures HexNumber("100000041") == 0x100000041
  {
    HexNumberOf10000();
    HexNumberSnoc("10000", '0');
    assert "10000" + ['0'] == "100000";
    HexNumberSnoc("100000", '0');
    assert "100000" + ['0'] == "1000000";
    HexNumberSnoc("1000000", '4');
    assert "1000000" + ['4'] == "10000004";
    HexNumberSnoc("10000004", '1');
    assert "10000004" + ['1'] == "100000041";
  }

  /** The digits 100000041 pass the range check once narrowed to `uint32_t`,
      and yield 'A'. */
  lemma UnicodeValueNarrowed()
    ensures UnicodeValue("100000041") == Outcome<CChar>.Value('A')
  {
    HexNumberOf100000041();
  }

  // ---------------------------------------------------------------------
  // unescape_char and unescape_byte

  /** `unescape_char(src)`: the first char read with `>>`, through
      `scan_escape` in Char mode when it is a backslash; an exception from
      `scan_escape` propagates, and the result is kept only if the stream has
      reached eof. */
  function UnescapeCharSpec(src: seq<CChar>): Outcome<CChar> {
    if |src| == 0 then Error(ZeroChars)
    else
      var (st1, first) := ExtractChar(src, Start);
      if first.None? then Error(ZeroChars)
      else
        var (res, st2) := if first.value == '\\' then ScanEscapeSpec(src, st1, Mode.Char)
                          else (Value(first.value), st1);
        if res.Thrown? then Thrown
        else if !st2.eof then Error(MoreThanOneChar)
        else res
  }

  method UnescapeChar(src: seq<CChar>) returns (res: Outcome<CChar>)
    ensures res == UnescapeCharSpec(src)
  {
    if |src| == 0 {
      return Error(ZeroChars);
    }
    var stream := new CharStream(src);
    var ok, first := stream.Extract();
    if !ok {
      return Error(ZeroChars);
    }
    if first == '\\' {
      res := ScanEscape(stream, Mode.Char);
      if res.Thrown? {
        return;
      }
    } else {
      res := Value(first);
    }
    if !stream.eof {
      return Error(MoreThanOneChar);
    }
  }

  /** `unescape_char` never yields a char: a unit that was read successfully
      leaves the stream good, so its eof bit is clear and the result is
      MoreThanOneChar (even for "a"). */
  lemma UnescapeCharNeverChar(src: seq<CChar>)
    ensures !UnescapeCharSpec(src).Value?
  {
    if |src| > 0 {
      var (st1, first) := ExtractChar(src, Start);
      if first.Some? && first.value == '\\' {
        var (res, st2) := ScanEscapeSpec(src, st1, Mode.Char);
        assert res.Value? ==> Good(st2);
      }
    }
  }

  /** "a" gives MoreThanOneChar, not 'a'. */
  lemma UnescapeCharPlainLetter()
    ensures UnescapeCharSpec("a") == Error(MoreThanOneChar)
  {
    var s: seq<CChar> := "a";
    RunEndUnique(s, 0, IsSpace, 0);
  }

  /** ZeroChars exactly for the empty and the all-whitespace inputs, because
      `>>` skips whitespace. */
  lemma UnescapeCharZeroChars(src: seq<CChar>)
    ensures UnescapeCharSpec(src) == Error(ZeroChars) <==> forall k :: 0 <= k < |src| ==> IsSpace(src[k])
  {
    RunEndMaximal(src, 0, IsSpace);
    if |src| > 0 {
      var (st1, first) := ExtractChar(src, Start);
      if first.Some? && first.value == '\\' {
        ScanEscapeErrors(src, st1, Mode.Char);
      }
    }
    if forall k :: 0 <= k < |src| ==> IsSpace(src[k]) {
      RunEndUnique(src, 0, IsSpace, |src|);
    }
  }

  /** `unescape_byte`: a char that is not negative as a signed char becomes
      that byte, a negative one NonAsciiCharInByte; errors pass through. */
  function ByteOf(r: Outcome<CChar>): (b: Outcome<U8>)
    ensures r.Error? ==> b == Error(r.error)
    ensures r.Thrown? <==> b.Thrown?
    ensures r.Value? ==> (b.Value? <==> SignedValue(r.value) >= 0)
    ensures r.Value? && b.Value? ==> b.value == r.value as int
    ensures r.Value? && !b.Value? ==> b == Error(NonAsciiCharInByte)
  {
    match r
    case Value(c) => if SignedValue(c) >= 0 then Value(c as int) else Error(NonAsciiCharInByte)
    case Error(e) => Error(e)
    case Thrown => Thrown
  }

  method UnescapeByte(src: seq<CChar>) returns (res: Outcome<U8>)
    ensures res == ByteOf(UnescapeCharSpec(src))
    ensures !res.Value?
  {
    var c := UnescapeChar(src);
    UnescapeCharNeverChar(src);
    res := ByteOf(c);
  }

  // ---------------------------------------------------------------------
  // unescape_unicode and unescape_mixed


  /** One unit after its first char c was read: `scan_escape` when c is a
      backslash, otherwise c itself. */
  function ReadUnit(s: seq<CChar>, st: StreamState, c: CChar, mode: Mode): (r: (Outcome<CChar>, StreamState))
    requires st.pos <= |s|
    ensures st.pos <= r.1.pos <= |s|
  {
    if c == '\\' then ScanEscapeSpec(s, st, mode) else (Value(c), st)
  }

  /** The (index, result) pairs `unescape_unicode` appends while reading
      from st, numbered from index, and whether `scan_escape` threw. */
  function UnicodeUnits(s: seq<CChar>, st: StreamState, index: nat, mode: Mode)
    : (r: (seq<(nat, Outcome<CChar>)>, bool))
    requires st.pos <= |s|
    decreases |s| - st.pos
  {
    if !Good(st) then ([], false)
    else
      var (st1, c) := ExtractChar(s, st);
      if c.None? then ([], false)
      else
        var (res, st2) := ReadUnit(s, st1, c.value, mode);
        if res.Thrown? then ([], true)
        else
          var (rest, thrown) := UnicodeUnits(s, st2, index + 1, mode);
          ([(index, res)] + rest, thrown)
  }

  /** One iteration of `unescape_unicode` from a good stream st: `>>` read
      c, and the unit is res and leaves st2. A throw ends the list, otherwise
      the pair (index, res) comes first. */
  lemma UnicodeUnitsStep(s: seq<CChar>, st: StreamState, index: nat, mode: Mode,
                         c: CChar, res: Outcome<CChar>, st2: StreamState)
    requires st.pos <= |s| && Good(st) && ExtractChar(s, st).1 == Some(c)
    requires ReadUnit(s, ExtractChar(s, st).0, c, mode) == (res, st2)
    ensures st2.pos <= |s|
    ensures res.Thrown? ==> UnicodeUnits(s, st, index, mode) == ([], true)
    ensures !res.Thrown? ==>
              UnicodeUnits(s, st, index, mode).0 == [(index, res)] + UnicodeUnits(s, st2, index + 1, mode).0 &&
              UnicodeUnits(s, st, index, mode).1 == UnicodeUnits(s, st2, index + 1, mode).1
  {
  }

  /** One unit of `unescape_unicode` and `unescape_mixed`: `>>` reads c (ok
      is false when it fails), and after a backslash `scan_escape` yields
      res; otherwise res is c. */
  method NextUnit(stream: CharStream, mode: Mode) returns (ok: bool, c: CChar, res: Outcome<CChar>)
    requires stream.Valid()
    modifies stream
    ensures stream.Valid()
    ensures ok <==> ExtractChar(stream.s, old(stream.State())).1.Some?
    ensures ok ==> Some(c) == ExtractChar(stream.s, old(stream.State())).1 &&
                   (res, stream.State()) == ReadUnit(stream.s, ExtractChar(stream.s, old(stream.State())).0, c, mode)
  {
    ok, c := stream.Extract();
    res := Value(c);
    if ok && c == '\\' {
      res := ScanEscape(stream, mode);
    }
  }

  /** Appending the head of what remains keeps the invariant's shape. */
  lemma AppendHead<T>(results: seq<T>, total: seq<T>, out: seq<T>, rest: seq<T>, head: T, rest2: seq<T>)
    requires results + total == out + rest && rest == [head] + rest2
    ensures results + total == (out + [head]) + rest2
  {
    assert out + ([head] + rest2) == (out + [head]) + rest2;
  }

  /** The loop invariant of `unescape_unicode`: out followed by what is
      still to be read from st is results followed by all the units, and
      the throw is the one still to come. */
  ghost predicate UnicodeTracks(src: seq<CChar>, mode: Mode, results: seq<(nat, Outcome<CChar>)>,
                                out: seq<(nat, Outcome<CChar>)>, st: StreamState, index: nat)
    requires st.pos <= |src|
  {
    results + UnicodeUnits(src, Start, 0, mode).0 == out + UnicodeUnits(src, st, index, mode).0 &&
    UnicodeUnits(src, Start, 0, mode).1 == UnicodeUnits(src, st, index, mode).1
  }

  /** One iteration keeps the invariant, or ends everything with a throw. */
  lemma UnicodeTracksStep(src: seq<CChar>, mode: Mode, results: seq<(nat, Outcome<CChar>)>,
                          out: seq<(nat, Outcome<CChar>)>, st: StreamState, index: nat,
                          c: CChar, res: Outcome<CChar>, st2: StreamState)
    requires st.pos <= |src| && Good(st) && ExtractChar(src, st).1 == Some(c)
    requires ReadUnit(src, ExtractChar(src, st).0, c, mode) == (res, st2)
    requires UnicodeTracks(src, mode, results, out, st, index)
    ensures st2.pos <= |src|
    ensures res.Thrown? ==> out == results + UnicodeUnits(src, Start, 0, mode).0 && UnicodeUnits(src, Start, 0, mode).1
    ensures !res.Thrown? ==> UnicodeTracks(src, mode, results, out + [(index, res)], st2, index + 1)
  {
    UnicodeUnitsStep(src, st, index, mode, c, res, st2);
    if !res.Thrown? {
      AppendHead(results, UnicodeUnits(src, Start, 0, mode).0, out, UnicodeUnits(src, st, index, mode).0,
                 (index, res), UnicodeUnits(src, st2, index + 1, mode).0);
    }
  }

  /** `unescape_unicode(src, mode, results)`: the pairs are appended after
      what results already holds. */
  method UnescapeUnicode(src: seq<CChar>, mode: Mode, results: seq<(nat, Outcome<CChar>)>)
    returns (out: seq<(nat, Outcome<CChar>)>, thrown: bool)
    ensures out == results + UnicodeUnits(src, Start, 0, mode).0
    ensures thrown == UnicodeUnits(src, Start, 0, mode).1
  {
    var stream := new CharStream(src);
    var index: nat := 0;
    out := results;
    while stream.IsGood()
      invariant stream.Valid() && stream.s == src
      invariant UnicodeTracks(src, mode, results, out, stream.State(), index)
      decreases |src| - stream.pos
    {
      ghost var st := stream.State();
      var ok, c, res := NextUnit(stream, mode);
      if !ok {
        break;
      }
      UnicodeTracksStep(src, mode, results, out, st, index, c, res, stream.State());
      if res.Thrown? {
        return out, true;
      }
      out := out + [(index, res)];
      index := index + 1;
    }
    thrown := false;
  }

  /** The indices `unescape_unicode` gives run from index consecutively. */
  lemma {:induction false} UnicodeUnitsIndices(s: seq<CChar>, st: StreamState, index: nat, mode: Mode)
    requires st.pos <= |s|
    ensures var units := UnicodeUnits(s, st, index, mode).0;
            forall i :: 0 <= i < |units| ==> units[i].0 == index + i
    decreases |s| - st.pos
  {
    if Good(st) && ExtractChar(s, st).1.Some? {
      var (st1, c) := ExtractChar(s, st);
      var (res, st2) := ReadUnit(s, st1, c.value, mode);
      if !res.Thrown? {
        UnicodeUnitsStep(s, st, index, mode, c.value, res, st2);
        UnicodeUnitsIndices(s, st2, index + 1, mode);
      }
    }
  }

  /** The chars of s from i on that are not whitespace, in order. */
  function NonSpace(s: seq<CChar>, i: nat): seq<CChar>
    requires i <= |s|
    decreases |s| - i
  {
    if i == |s| then [] else if IsSpace(s[i]) then NonSpace(s, i + 1) else [s[i]] + NonSpace(s, i + 1)
  }

  /** NonSpace skips the leading whitespace run. */
  lemma {:induction false} NonSpaceSkip(s: seq<CChar>, pos: nat)
    requires pos <= |s|
    ensures var p := RunEnd(s, pos, IsSpace);
            NonSpace(s, pos) == if p == |s| then [] else [s[p]] + NonSpace(s, p + 1)
    decreases |s| - pos
  {
    if pos < |s| && IsSpace(s[pos]) {
      NonSpaceSkip(s, pos + 1);
    }
  }

  /** Without backslashes, `unescape_unicode` yields each char that is not
      whitespace as itself, and nothing throws. */
  lemma {:induction false} UnicodeUnitsPlain(s: seq<CChar>, pos: nat, index: nat, mode: Mode)
    requires pos <= |s|
    requires forall k :: pos <= k < |s| ==> s[k] != '\\'
    ensures var (units, thrown) := UnicodeUnits(s, StreamState(pos, false, false), index, mode);
            !thrown && |units| == |NonSpace(s, pos)| &&
            forall i :: 0 <= i < |units| ==> units[i].1 == Value(NonSpace(s, pos)[i])
    decreases |s| - pos
  {
    var st := StreamState(pos, false, false);
    var (st1, c) := ExtractChar(s, st);
    NonSpaceSkip(s, pos);
    if c.Some? {
      UnicodeUnitsStep(s, st, index, mode, c.value, Value(c.value), st1);
      UnicodeUnitsPlain(s, st1.pos, index + 1, mode);
    }
  }

  /** `MixedUnit(c)`: the char constructor, of type Char. */
  function Mixed(r: Outcome<CChar>): (m: Outcome<MixedUnit>)
    ensures r.Value? <==> m.Value?
    ensures r.Value? ==> m.value == MixedChar(r.value)
    ensures r.Error? ==> m == Error(r.error)
    ensures r.Thrown? <==> m.Thrown?
  {
    match r
    case Value(c) => Value(MixedChar(c))
    case Error(e) => Error(e)
    case Thrown => Thrown
  }

  /** The pairs `unescape_mixed` appends. */
  function MixedUnits(s: seq<CChar>, st: StreamState, index: nat, mode: Mode)
    : (r: (seq<(nat, Outcome<MixedUnit>)>, bool))
    requires st.pos <= |s|
    decreases |s| - st.pos
  {
    if !Good(st) then ([], false)
    else
      var (st1, c) := ExtractChar(s, st);
      if c.None? then ([], false)
      else
        var (esc, st2) := ReadUnit(s, st1, c.value, mode);
        if esc.Thrown? then ([], true)
        else
          var (rest, thrown) := MixedUnits(s, st2, index + 1, mode);
          ([(index, Mixed(esc))] + rest, thrown)
  }

  /** One iteration of `unescape_mixed`, as in UnicodeUnitsStep. */
  lemma MixedUnitsStep(s: seq<CChar>, st: StreamState, index: nat, mode: Mode,
                       c: CChar, esc: Outcome<CChar>, st2: StreamState)
    requires st.pos <= |s| && Good(st) && ExtractChar(s, st).1 == Some(c)
    requires ReadUnit(s, ExtractChar(s, st).0, c, mode) == (esc, st2)
    ensures st2.pos <= |s|
    ensures esc.Thrown? ==> MixedUnits(s, st, index, mode) == ([], true)
    ensures !esc.Thrown? ==>
              MixedUnits(s, st, index, mode).0 == [(index, Mixed(esc))] + MixedUnits(s, st2, index + 1, mode).0 &&
              MixedUnits(s, st, index, mode).1 == MixedUnits(s, st2, index + 1, mode).1
  {
  }

  /** The loop invariant of `unescape_mixed`, as UnicodeTracks. */
  ghost predicate MixedTracks(src: seq<CChar>, mode: Mode, results: seq<(nat, Outcome<MixedUnit>)>,
                              out: seq<(nat, Outcome<MixedUnit>)>, st: StreamState, index: nat)
    requires st.pos <= |src|
  {
    results + MixedUnits(src, Start, 0, mode).0 == out + MixedUnits(src, st, index, mode).0 &&
    MixedUnits(src, Start, 0, mode).1 == MixedUnits(src, st, index, mode).1
  }

  /** One iteration keeps the invariant, or ends everything with a throw. */
  lemma MixedTracksStep(src: seq<CChar>, mode: Mode, results: seq<(nat, Outcome<MixedUnit>)>,
                        out: seq<(nat, Outcome<MixedUnit>)>, st: StreamState, index: nat,
                        c: CChar, esc: Outcome<CChar>, st2: StreamState)
    requires st.pos <= |src| && Good(st) && ExtractChar(src, st).1 == Some(c)
    requires ReadUnit(src, ExtractChar(src, st).0, c, mode) == (esc, st2)
    requires MixedTracks(src, mode, results, out, st, index)
    ensures st2.pos <= |src|
    ensures esc.Thrown? ==> out == results + MixedUnits(src, Start, 0, mode).0 && MixedUnits(src, Start, 0, mode).1
    ensures !esc.Thrown? ==> MixedTracks(src, mode, results, out + [(index, Mixed(esc))], st2, index + 1)
  {
    MixedUnitsStep(src, st, index, mode, c, esc, st2);
    if !esc.Thrown? {
      AppendHead(results, MixedUnits(src, Start, 0, mode).0, out, MixedUnits(src, st, index, mode).0,
                 (index, Mixed(esc)), MixedUnits(src, st2, index + 1, mode).0);
    }
  }

  /** `unescape_mixed(src, mode, results)`: as `unescape_unicode`, with each
      char wrapped as a `MixedUnit`. */
  method UnescapeMixed(src: seq<CChar>, mode: Mode, results: seq<(nat, Outcome<MixedUnit>)>)
    returns (out: seq<(nat, Outcome<MixedUnit>)>, thrown: bool)
    ensures out == results + MixedUnits(src, Start, 0, mode).0
    ensures thrown == MixedUnits(src, Start, 0, mode).1
  {
    var stream := new CharStream(src);
    var index: nat := 0;
    out := results;
    while stream.IsGood()
      invariant stream.Valid() && stream.s == src
      invariant MixedTracks(src, mode, results, out, stream.State(), index)
      decreases |src| - stream.pos
    {
      ghost var st := stream.State();
      var ok, c, escapeResult := NextUnit(stream, mode);
      if !ok {
        break;
      }
      MixedTracksStep(src, mode, results, out, st, index, c, escapeResult, stream.State());
      var res: Outcome<MixedUnit> := Error(InvalidEscape);
      if c == '\\' {
        if escapeResult.Thrown? {
          return out, true;
        }
        if escapeResult.Value? {
          res := Value(MixedChar(escapeResult.value));
        } else {
          res := Error(escapeResult.error);
        }
      } else {
        res := Value(MixedChar(c));
      }
      assert res == Mixed(escapeResult);
      out := out + [(index, res)];
      index := index + 1;
    }
    thrown := false;
  }

  /** `unescape_mixed` is `unescape_unicode` with every char wrapped as a
      `MixedUnit` of type Char: same indices, same errors, same throw. */
  lemma {:induction false} MixedIsWrappedUnicode(s: seq<CChar>, st: StreamState, index: nat, mode: Mode)
    requires st.pos <= |s|
    ensures var (u, t) := UnicodeUnits(s, st, index, mode);
            var (m, t') := MixedUnits(s, st, index, mode);
            t == t' && |m| == |u| && forall i :: 0 <= i < |u| ==> m[i] == (u[i].0, Mixed(u[i].1))
    decreases |s| - st.pos
  {
    if Good(st) && ExtractChar(s, st).1.Some? {
      var (st1, c) := ExtractChar(s, st);
      var (res, st2) := ReadUnit(s, st1, c.value, mode);
      if !res.Thrown? {
        UnicodeUnitsStep(s, st, index, mode, c.value, res, st2);
        MixedUnitsStep(s, st, index, mode, c.value, res, st2);
        MixedIsWrappedUnicode(s, st2, index + 1, mode);
      }
    }
  }

  /** No high byte is ever produced by `unescape_mixed`. */
  lemma MixedNeverHighByte(s: seq<CChar>, mode: Mode)
    ensures var m := MixedUnits(s, Start, 0, mode).0;
            forall i :: 0 <= i < |m| && m[i].1.Value? ==> m[i].1.value.MixedChar?
  {
    MixedIsWrappedUnicode(s, Start, 0, mode);
  }
}
