# mlir-rustc core, modelled in Dafny

This project models three parts of the `mlir-rustc` Rust compiler front end
and proves properties of the models.

* **The type model and the type context.** `TyCtx/TyTy.cpp` holds the
  semantic type objects (`BaseType` and its subclasses). They cover
  classification, `toString`, scalar type hints, trait-bound lists,
  `destructure` through parameters, placeholders and projections, and
  `clone`.
  - `TyCtx` (`TyCtx/TyCtx.cpp`, `include/TyCtx/TyCtx.h`) is the table that
    maps node ids to types, canonical paths, crates, module children, closure
    captures, enum items and resolved names. It also generates the builtin
    types.
  - `adt::CanonicalPath` (`include/ADT/CanonicalPath.h`) is the
    path-of-names value.
  - The struct checks of `sema/TypeChecking/Item.cpp` build ADT types into
    the context.
* **The stand-alone lexer.** `_lexer/` consists of the `Cursor` over the
  input, the `Lexer` (shebang stripping, raw-string validation,
  `tokenize`/`advance_token` and the sub-lexers), the `Token` vocabulary and
  the escape decoders of `Unescape.cpp`.
* **Parser fragments.** These are `parseLiteralPattern` and
  `parseIdentifierPattern` (`parser/Pattern.cpp`), the path-segment
  functions of `parser/PathInExpression.cpp`, and the parser's
  function-name stack (`parser/FunctionStack.cpp`).

## How the model is built

* **Type objects live in an arena.**
  - `TyCtx.types: map<Handle, BaseType>` holds the objects.
  - A `Handle` stands for a `BaseType*`, so pointer equality is handle
    equality.
  - `TyCtx.resolved: map<NodeId, Handle>` is the source's `resolved` table.
  - Operations that change an object in place (`applyScalarTypeHint`,
    `addBound`, `inheritBounds`) overwrite the object behind its handle.
  - `Closed` states that every pointer and every `TypeVariable` of a live
    object leads to a live object.
* **Recursion over type graphs.** `toString` and `clone` recurse through
  type graphs. A ghost `rank` proves that the part of the graph reached
  below an object is acyclic.
* **Loops that may not end.** The source has loops that can run forever:
  the const `destructure`, the loop of `ParamType::resolve`, and `tokenize`
  on a NUL char. These get a ghost fuel bound or a precondition that
  excludes the endless case. Each such loop is listed below.
* **Fatal `assert`s.**
  - Where the assert guards an obligation of the caller, it becomes a
    `requires`. Examples are `insertAutoderefMapping`, `insertEnumItem`,
    `insertCanonicalPath`, `popFunction` and `append`.
  - In the parser fragments, an assert that input can fail becomes an
    `Aborted` outcome.
* **C++ `char`.** It is the byte it holds (`CChar`). A char is "negative"
  when its code is 128 or more, and `SignedValue` gives its signed value.
* **`std::stoul` overflow.** The `std::out_of_range` exception on a `\u{...}`
  escape whose digits exceed 64 bits is an explicit `Thrown` outcome.
* **Every operation has a specification.** Each state-changing method is
  proved against a specification function of the old state. The lemmas
  state the properties of those functions.

## Where the code decides

The model follows the code in these places. The behaviour may look
unintended, but it is what the code does.

* **`IntType::toString` renders `I128` as `"i28"`**
  (`code/TyCtx/TyTy.cpp:148-161`).
  - Right after construction, `lookupBuiltin("i128")` finds nothing.
  - Every other surface name finds its builtin.
  - See `TypeContext.TyCtx.LookupBuiltinAfterSetup` and
    `TypeContext.I128IsNoBuiltinRendering`.
* **The builtins list has 19 entries:** the 18 named builtins followed by
  the unit tuple.
* **`unescape_char` never returns a char.**
  - After a unit has been read successfully, the stream's eof bit is never
    set, so the `MoreThanOneChar` check always fires.
  - As a consequence, `unescape_byte` never returns a byte either. See
    `Unescaping.UnescapeCharNeverChar`.
* **The lexer does not recognise a shebang.** `strip_shebang` is never
  called by `tokenize`, so "#!" lexes as `Pound` followed by `Bang`
  (`Lexing.ShebangTokens`).
* **`tokenize` never ends on a NUL char.** On `'\0'`, `advance_token`
  returns `Eof` without consuming anything, so a NUL char inside the input
  makes `tokenize` loop forever (`Lexing.LexStepStallsOnNul`).
  `Lexer.Tokenize` requires an input without NUL chars from the cursor on.
* **`insertCanonicalPath` keeps the old path.** It uses `emplace`, so a
  path already stored for an id is kept even when the new one passes the
  size assertion (`TypeContext.CanonicalPathFirstWins`).
* **`CanonicalPath::operator<` is not a strict order.** For two
  equal-length paths it answers true as soon as any one segment is
  smaller, so `a < b` and `b < a` can both hold
  (`CanonicalPaths.LessNotAsymmetric`).

## Model

| member | source | states |
|---|---|---|
| Basic.SignedValue | code/_lexer/src/Unescape.cpp:73 | the signed value of a char is in [-128, 128), non-negative exactly for codes below 128, and congruent to the code modulo 256 |
| Basic.NatToStringValue | code/sema/TypeChecking/Item.cpp:144 | the decimal string `std::to_string` gives for a field index denotes that index |
| Basic.NatToStringInjective | code/sema/TypeChecking/Item.cpp:144 | different tuple-field indices get different names |
| Ascii.HexValue | code/_lexer/src/Unescape.cpp:22-23 | the value `std::stoi(.., 16)` gives a hex digit is below 16 |
| Tokens.NewRawStrErrorDetails | code/_lexer/include/Token.h:43-45 | the constructor's fields are the arguments, with the defaults '\0', 0, 0 and no offset |
| Tokens.BaseValue | code/_lexer/include/Token.h:49-61 | each base's value is one of the radixes 2, 8, 10 and 16 |
| Tokens.BaseValueInjective | code/_lexer/include/Token.h:49-61 | two bases are equal exactly when their discriminants are, and 2 and 16 identify Binary and Hexadecimal |
| Tokens.IntLiteral | code/_lexer/include/Token.h:119-121 | an Int literal kind with the given base and empty_int, and every other member at its default |
| Tokens.FloatLiteral | code/_lexer/include/Token.h:123-125 | a Float literal kind with the given base and empty_exponent, empty_int false, and the rest at its defaults |
| Tokens.NewToken | code/_lexer/include/Token.h:135-137 | the token has the given kind and length |
| Cursors.RunEnd | code/_lexer/include/Cursor.h:35-39 | the end of the run that starts at i lies between i and the end of the input |
| Cursors.RunEndMaximal | code/_lexer/include/Cursor.h:35-39 | every char of the run satisfies the predicate, and the run stops at the end or at a char that fails it |
| Cursors.RunEndUnique | code/_lexer/include/Cursor.h:35-39 | any position with these two properties is the run's end |
| Cursors.Cursor.constructor | code/_lexer/include/Cursor.h:13 | a cursor at position 0 over the input |
| Cursors.Cursor.First | code/_lexer/include/Cursor.h:15-17 | the char at the position, or '\0' at the end |
| Cursors.Cursor.Second | code/_lexer/include/Cursor.h:19-21 | the char after the position, or '\0' past the end |
| Cursors.Cursor.Third | code/_lexer/include/Cursor.h:23-25 | the char two after the position, or '\0' past the end |
| Cursors.Cursor.IsEof | code/_lexer/include/Cursor.h:27-29 | at the end all three lookaheads are '\0'; otherwise `first` is the char at the position |
| Cursors.Cursor.Bump | code/_lexer/include/Cursor.h:31-33 | advances one char unless at the end, and the lookahead shifts by one |
| Cursors.Cursor.EatWhile | code/_lexer/include/Cursor.h:35-39 | moves to the end of the maximal run of chars satisfying the predicate, and the first char left fails it or the input is exhausted |
| Cursors.Cursor.EatUntil | code/_lexer/include/Cursor.h:41-45 | moves past every char other than the target and stops on the target or at the end |
| Lexing.StripShebang | code/_lexer/src/Lexer.cpp:6-15 | an offset exactly when the input starts with "#!"; the offset is just past the first newline, or the input length when there is no newline |
| Lexing.Increment32 | code/_lexer/src/Lexer.cpp:31 | `++` on a `uint32_t` counter wraps around modulo 2^32 |
| Lexing.ValidateRawStr | code/_lexer/src/Lexer.cpp:19-50 | the result is the raw-string validity of the input after the prefix |
| Lexing.ScanRawStr | code/_lexer/src/Lexer.cpp:29-38 | the hash count and the opening-quote check agree with the validity function |
| Lexing.ScanRawStrBody | code/_lexer/src/Lexer.cpp:40-49 | the search for the closing quote agrees with the validity function |
| Lexing.RawStrAccepted | code/_lexer/src/Lexer.cpp:19-50 | a prefix, n hashes, a quote, a body without quotes and a closing quote are accepted |
| Lexing.RawStrUnterminated | code/_lexer/src/Lexer.cpp:44-46 | without a closing quote the error is NoTerminator and reports the number of hashes read |
| Lexing.RawStrBadStarter | code/_lexer/src/Lexer.cpp:35-37 | when the hashes are followed by neither a hash nor a quote, the error is InvalidStarter with that char |
| Lexing.PunctuationKind | code/_lexer/src/Lexer.cpp:107-140 | a char gets a kind other than Unknown exactly when it is one of the 27 punctuation chars |
| Lexing.PunctuationChar | code/_lexer/src/Lexer.cpp:111-137 | the char a kind is read back as is always one of the 27 punctuation chars |
| Lexing.PunctuationCharRoundTrip | code/_lexer/src/Lexer.cpp:111-140 | every punctuation kind that has a char is lexed from that char |
| Lexing.PunctuationKindRoundTrip | code/_lexer/src/Lexer.cpp:111-140 | every char that is not Unknown is the char of its kind, so the switch maps distinct chars to distinct kinds |
| Lexing.BlockCommentEnd | code/_lexer/src/Lexer.cpp:84-92 | the block-comment loop ends between its start and the end of the input |
| Lexing.BlockCommentEndFirstClose | code/_lexer/src/Lexer.cpp:84-92 | the comment ends right after the first closing star-slash pair, or at the end of the input when there is none |
| Lexing.CommentStep | code/_lexer/src/Lexer.cpp:77-95 | `line_comment` always consumes at least the slash and stays within the input |
| Lexing.LexStep | code/_lexer/src/Lexer.cpp:61-70 | `advance_token` stays within the input and consumes at least one char unless the char is NUL |
| Lexing.Placeholders | code/_lexer/src/Lexer.cpp:55 | one token per kind, each of placeholder length 1 |
| Lexing.PlaceholdersAppend | code/_lexer/src/Lexer.cpp:53-56 | the placeholders of two kind sequences are the concatenation of their placeholders |
| Lexing.TokenKindsStep | code/_lexer/src/Lexer.cpp:53-56 | one iteration of `tokenize` moves the next token from the tokens still to come to the tokens done |
| Lexing.LexStepStallsOnNul | code/_lexer/src/Lexer.cpp:62-63 | on a NUL char `advance_token` gives Eof and consumes nothing |
| Lexing.LexStepRuns | code/_lexer/src/Lexer.cpp:65-68 | whitespace, identifiers and numbers are maximal runs of their char classes |
| Lexing.LexStepLineComment | code/_lexer/src/Lexer.cpp:79-81 | "//" gives a LineComment that stops before the next newline or at the end |
| Lexing.LexStepBlockComment | code/_lexer/src/Lexer.cpp:82-92 | a slash and a star give a BlockComment that runs through the first closing pair |
| Lexing.LexStepSingleChar | code/_lexer/src/Lexer.cpp:94 | a lone slash is a one-char Slash, and every other char goes to the punctuation switch and consumes one char |
| Lexing.ShebangTokens | code/_lexer/src/Lexer.cpp:52-59 | "#!" is lexed as Pound then Bang |
| Lexing.Lexer.constructor | code/_lexer/include/Lexer.h:24 | a lexer with a cursor at position 0 and no tokens |
| Lexing.Lexer.Tokenize | code/_lexer/src/Lexer.cpp:52-59 | appends one placeholder token per token kind from the cursor to the end, then Eof of length 0, and returns the member vector |
| Lexing.Lexer.AdvanceToken | code/_lexer/src/Lexer.cpp:61-70 | the kind and the new position are those of the step function |
| Lexing.Lexer.LexWhitespace | code/_lexer/src/Lexer.cpp:72-75 | Whitespace, after the maximal whitespace run |
| Lexing.Lexer.LineComment | code/_lexer/src/Lexer.cpp:77-95 | the kind and the position are those of the comment step function |
| Lexing.Lexer.IdentOrUnknownPrefix | code/_lexer/src/Lexer.cpp:97-100 | Ident, after the maximal run of alphanumerics and underscores |
| Lexing.Lexer.LexNumber | code/_lexer/src/Lexer.cpp:102-105 | Literal, after the maximal digit run |
| Lexing.Lexer.LexPunctuation | code/_lexer/src/Lexer.cpp:107-141 | the kind of the current char from the switch, having consumed it |
| Unescaping.ExtractChar | code/_lexer/src/Unescape.cpp:8 | `>>` skips whitespace and succeeds exactly when it leaves a good stream; the char read is the last one consumed and is not whitespace |
| Unescaping.PeekChar | code/_lexer/src/Unescape.cpp:28 | `peek` moves nothing; it gives the next char on a good stream that is not at its end, and eof otherwise |
| Unescaping.GetChar | code/_lexer/src/Unescape.cpp:29 | `get` consumes and gives the next char on a good stream that is not at its end, and eof with a failed stream otherwise |
| Unescaping.CharStream.constructor | code/_lexer/src/Unescape.cpp:53 | a stream at the start of the string in the good state |
| Unescaping.CharStream.Extract | code/_lexer/src/Unescape.cpp:8 | the stream state and the char agree with the extraction function |
| Unescaping.CharStream.Peek | code/_lexer/src/Unescape.cpp:28 | the stream state and the result agree with the peek function |
| Unescaping.CharStream.Get | code/_lexer/src/Unescape.cpp:29 | the stream state and the result agree with the get function |
| Unescaping.UnicodeValue | code/_lexer/src/Unescape.cpp:42-44 | throws exactly when the digits exceed 64 bits; otherwise the value is narrowed to 32 bits, is out of range above 0x10FFFF, and becomes the char of its low byte |
| Unescaping.HexEscape | code/_lexer/src/Unescape.cpp:18-26 | a `\x` escape stays within the input, leaves a good stream on success and never throws |
| Unescaping.UnicodeDigits | code/_lexer/src/Unescape.cpp:32-44 | the digit loop stays within the input and leaves a good stream on success |
| Unescaping.UnicodeEscape | code/_lexer/src/Unescape.cpp:27-45 | a `\u` escape stays within the input and leaves a good stream on success |
| Unescaping.ScanEscapeSpec | code/_lexer/src/Unescape.cpp:6-49 | `scan_escape` stays within the input and leaves a good stream on success |
| Unescaping.ScanEscape | code/_lexer/src/Unescape.cpp:6-49 | the result and the stream state are those of the escape function |
| Unescaping.ScanHexEscape | code/_lexer/src/Unescape.cpp:18-26 | the result and the stream state are those of the hex-escape function |
| Unescaping.ScanUnicodeEscape | code/_lexer/src/Unescape.cpp:27-45 | the result and the stream state are those of the unicode-escape function |
| Unescaping.UnicodeDigitsErrors | code/_lexer/src/Unescape.cpp:32-43 | the digit loop fails only with InvalidCharInUnicodeEscape, UnclosedUnicodeEscape, EmptyUnicodeEscape or OutOfRangeUnicodeEscape |
| Unescaping.ScanEscapeErrors | code/_lexer/src/Unescape.cpp:6-49 | `scan_escape` never reports ZeroChars, MoreThanOneChar or NonAsciiCharInByte |
| Unescaping.ScanEscapeLetter | code/_lexer/src/Unescape.cpp:10-17 | a simple escape letter gives its char, and a letter that starts no escape gives InvalidEscape |
| Unescaping.HexEscapeDigits | code/_lexer/src/Unescape.cpp:18-26 | two hex digits give 16 times the first plus the second, rejected above 127 in Char mode |
| Unescaping.UnicodeDigitsRun | code/_lexer/src/Unescape.cpp:32-37 | hex digits up to a closing brace are all collected |
| Unescaping.HexNumberSnoc | code/_lexer/src/Unescape.cpp:42 | one more digit multiplies the value by 16 and adds the digit |
| Unescaping.UnicodeEscapeDigits | code/_lexer/src/Unescape.cpp:27-45 | `\u{` followed by hex digits and `}` gives the value of the digits |
| Unescaping.HexEscapeTooShortNone | code/_lexer/src/Unescape.cpp:18-20 | `\x` followed only by whitespace gives TooShortHexEscape |
| Unescaping.HexEscapeTooShortOne | code/_lexer/src/Unescape.cpp:18-20 | `\x` followed by one char and otherwise whitespace gives TooShortHexEscape |
| Unescaping.HexEscapeInvalid | code/_lexer/src/Unescape.cpp:18-21 | two chars after `\x` of which one is not a hex digit give InvalidCharInHexEscape |
| Unescaping.UnicodeNoBrace | code/_lexer/src/Unescape.cpp:27-28 | `\u` not followed by '{', or at the end, gives NoBraceInUnicodeEscape |
| Unescaping.UnicodeUnderscoreSkipped | code/_lexer/src/Unescape.cpp:32-34 | an '_' among the digits is skipped: the loop continues as from the next char with the same digits |
| Unescaping.UnicodeInvalidChar | code/_lexer/src/Unescape.cpp:32-35 | a char among the digits that is not '}', '_' or a hex digit gives InvalidCharInUnicodeEscape |
| Unescaping.UnicodeUnclosed | code/_lexer/src/Unescape.cpp:32-39 | hex digits and '_' running to the end of the input, with no '}', give UnclosedUnicodeEscape |
| Unescaping.HexNumberOf10000 | code/_lexer/src/Unescape.cpp:42 | one instance: the digits 10000 have the value 0x10000; the general fact is `HexNumberSnoc`, and `UnicodeEscapeDigits` for the whole escape |
| Unescaping.HexNumberOf100000041 | code/_lexer/src/Unescape.cpp:42 | one instance: the digits 100000041 have the value 0x100000041, used by `UnicodeValueNarrowed`; the general fact is `HexNumberSnoc`, and `UnicodeEscapeDigits` for the whole escape |
| Unescaping.UnicodeValueNarrowed | code/_lexer/src/Unescape.cpp:42-44 | 100000041 passes the range check once narrowed to 32 bits and yields 'A' |
| Unescaping.UnescapeChar | code/_lexer/src/Unescape.cpp:51-67 | the result is that of the `unescape_char` specification |
| Unescaping.UnescapeCharNeverChar | code/_lexer/src/Unescape.cpp:51-67 | `unescape_char` never yields a char |
| Unescaping.UnescapeCharPlainLetter | code/_lexer/src/Unescape.cpp:65 | "a" gives MoreThanOneChar |
| Unescaping.UnescapeCharZeroChars | code/_lexer/src/Unescape.cpp:52-56 | ZeroChars exactly for the inputs that are empty or all whitespace |
| Unescaping.ByteOf | code/_lexer/src/Unescape.cpp:69-77 | errors pass through; a char becomes a byte exactly when it is not negative as a signed char, and NonAsciiCharInByte otherwise |
| Unescaping.UnescapeByte | code/_lexer/src/Unescape.cpp:69-77 | the result is the byte of the `unescape_char` result, and never a byte |
| Unescaping.ReadUnit | code/_lexer/src/Unescape.cpp:88-93 | one unit stays within the input |
| Unescaping.UnicodeUnitsStep | code/_lexer/src/Unescape.cpp:84-97 | one iteration of `unescape_unicode` appends the unit read, or ends everything with the exception |
| Unescaping.NextUnit | code/_lexer/src/Unescape.cpp:85-93 | reads one unit as the unit-reading function does |
| Unescaping.UnicodeTracksStep | code/_lexer/src/Unescape.cpp:84-97 | one iteration keeps the loop invariant of `unescape_unicode` |
| Unescaping.UnescapeUnicode | code/_lexer/src/Unescape.cpp:79-98 | appends exactly the units of the input, with their indices, after the existing results, or reports the exception |
| Unescaping.UnicodeUnitsIndices | code/_lexer/src/Unescape.cpp:95-96 | the indices run consecutively from the start index |
| Unescaping.NonSpaceSkip | code/_lexer/src/Unescape.cpp:86 | the non-whitespace chars start after the leading whitespace run |
| Unescaping.UnicodeUnitsPlain | code/_lexer/src/Unescape.cpp:84-97 | without backslashes the units are the non-whitespace chars in order, and nothing throws |
| Unescaping.Mixed | code/_lexer/src/Unescape.cpp:109-119 | a char becomes the char unit, and errors and exceptions pass through |
| Unescaping.MixedUnitsStep | code/_lexer/src/Unescape.cpp:105-123 | one iteration of `unescape_mixed` appends the unit read, or ends everything with the exception |
| Unescaping.MixedTracksStep | code/_lexer/src/Unescape.cpp:105-123 | one iteration keeps the loop invariant of `unescape_mixed` |
| Unescaping.UnescapeMixed | code/_lexer/src/Unescape.cpp:100-124 | appends exactly the mixed units of the input after the existing results, or reports the exception |
| Unescaping.MixedIsWrappedUnicode | code/_lexer/src/Unescape.cpp:100-124 | `unescape_mixed` is `unescape_unicode` with every char wrapped as a char unit |
| Unescaping.MixedNeverHighByte | code/_lexer/src/Unescape.cpp:113-118 | `unescape_mixed` never produces a high byte |
| CanonicalPaths.Names | code/include/ADT/CanonicalPath.h:20 | the names of the segments, in order |
| CanonicalPaths.NewSegment | code/include/ADT/CanonicalPath.h:24-29 | a one-segment path with that id and name and an unknown crate |
| CanonicalPaths.CreateEmpty | code/include/ADT/CanonicalPath.h:31-33 | the empty path with an unknown crate |
| CanonicalPaths.GetBigSelf | code/include/ADT/CanonicalPath.h:35-37 | the path "Self" with that id |
| CanonicalPaths.GetSmallSelf | code/include/ADT/CanonicalPath.h:39-41 | the path "self" with that id |
| CanonicalPaths.WithCrateNum | code/include/ADT/CanonicalPath.h:70 | the same segments with the new crate number |
| CanonicalPaths.Append | code/include/ADT/CanonicalPath.h:53-63 | the segments of both paths in order, the first path's crate, and the node id of the appended path |
| CanonicalPaths.IsEmpty | code/include/ADT/CanonicalPath.h:71 | empty exactly when the path has no names |
| CanonicalPaths.GetSize | code/include/ADT/CanonicalPath.h:73 | the number of names; 0 exactly for the empty path |
| CanonicalPaths.GetNodeId | code/include/ADT/CanonicalPath.h:65-68 | requires a non-empty path, which the source asserts; the id that, with the last name, makes up the last segment |
| CanonicalPaths.JoinPath | code/include/ADT/CanonicalPath.h:43-51 | no names join to "", one name joins to itself |
| CanonicalPaths.JoinPathEnds | code/include/ADT/CanonicalPath.h:43-51 | a join of names starts with the first name and ends with the last |
| CanonicalPaths.AsString | code/include/ADT/CanonicalPath.h:43-51 | the empty path prints as "" and a one-segment path as its name |
| CanonicalPaths.AsStringEnds | code/include/ADT/CanonicalPath.h:43-51 | a non-empty path's string starts with its first name and ends with its last |
| CanonicalPaths.BuildAsString | code/include/ADT/CanonicalPath.h:43-51 | the loop that appends each name, followed by "::" while more follow, builds the names joined by "::" |
| CanonicalPaths.NamesEqualFrom | code/include/ADT/CanonicalPath.h:79-81 | the loop finds no differing name from index i on |
| CanonicalPaths.IsEqual | code/include/ADT/CanonicalPath.h:76-83 | true exactly when the name sequences are equal, so node ids are ignored |
| CanonicalPaths.Equals | code/include/ADT/CanonicalPath.h:97-106 | `operator==` is true exactly when the name sequences are equal |
| CanonicalPaths.IsEqualByName | code/include/ADT/CanonicalPath.h:93-94 | true exactly when the name sequences are equal |
| CanonicalPaths.IsEqualIsEquivalence | code/include/ADT/CanonicalPath.h:76-83 | `isEqual` is reflexive, symmetric and transitive |
| CanonicalPaths.IsEqualIgnoresIds | code/include/ADT/CanonicalPath.h:75-83 | paths that differ only in node ids are equal under `isEqual` and `==` |
| CanonicalPaths.StringLessIrreflexive | code/include/ADT/CanonicalPath.h:116 | no name is less than itself |
| CanonicalPaths.AnyNameLessFrom | code/include/ADT/CanonicalPath.h:115-117 | some segment from index i on has a smaller name |
| CanonicalPaths.Less | code/include/ADT/CanonicalPath.h:109-119 | shorter paths are less and longer ones are not; for equal sizes, less exactly when some segment name is smaller |
| CanonicalPaths.LessIrreflexive | code/include/ADT/CanonicalPath.h:109-119 | no path is less than itself |
| CanonicalPaths.LessNotAsymmetric | code/include/ADT/CanonicalPath.h:115-118 | b::a and a::b are each less than the other |
| CanonicalPaths.TraitImplProjectionSegment | code/include/ADT/CanonicalPath.h:85-91 | a one-segment path with that id whose string is "<impl as trait>" |
| CanonicalPaths.EmptyAsString | code/include/ADT/CanonicalPath.h:43-51 | the empty path prints as "" |
| CanonicalPaths.NewSegmentAsString | code/include/ADT/CanonicalPath.h:43-51 | a one-segment path prints as its name |
| CanonicalPaths.JoinPathAppend | code/include/ADT/CanonicalPath.h:43-51 | joining two non-empty name lists puts "::" between their joins |
| CanonicalPaths.AppendAsString | code/include/ADT/CanonicalPath.h:53-63 | the string of an appended path is the two strings joined by "::", or the appended one when the first is empty |
| TyTy.ScalarBuiltinRefersToNothing | code/TyCtx/TyTy.cpp:106-223 | the scalar types hold no pointers and no type variables |
| TyTy.IsSignedIntegerLike | code/TyCtx/TyTy.cpp:343-372 | true exactly for Int and ISize |
| TyTy.IsIntegerLike | code/TyCtx/TyTy.cpp:374-403 | true exactly for Int, Uint, USize and ISize |
| TyTy.IsFloatLike | code/TyCtx/TyTy.cpp:405-434 | true exactly for Float |
| TyTy.ClassificationConsistent | code/TyCtx/TyTy.cpp:343-434 | signed integer-like implies integer-like, and no kind is both integer-like and float-like |
| TyTy.NeedsGenericSubstitutions | code/TyCtx/TyTy.cpp:23-62 | true exactly for Function, ADT and Closure types whose generic parameters need substitution |
| TyTy.VariantSeparatorsCount | code/TyCtx/TyTy.cpp:485-490 | the variant loop writes one ", " between consecutive variants |
| TyTy.ADTStringShape | code/TyCtx/TyTy.cpp:482-492 | an ADT with n variants prints as its substitution string and braces around n-1 ", " separators; the substitution string is "empty" without generics and "" with them, as its buffer is never filled |
| TyTy.ClosedAt | code/TyCtx/TyTy.cpp:70-75 | in a closed arena every object's type variables are registered and its pointers are live |
| TyTy.ClosedStore | code/TyCtx/TyTy.cpp:825-961 | storing an object whose references are live keeps the arena closed |
| TyTy.ClosedRegister | code/TyCtx/TyTy.cpp:943-961 | registering a live object under a node id keeps the arena closed |
| TyTy.NoChildren | code/TyCtx/TyTy.cpp:106-223 | leaf types have no children to print |
| TyTy.LeavesRanked | code/TyCtx/TyTy.cpp:106-223 | objects without children are ranked by rank 0 |
| TyTy.IntKindName | code/TyCtx/TyTy.cpp:148-161 | "i" and the width for i8 to i64; i128 is spelled "i28", which is not "i" and its width |
| TyTy.UintKindName | code/TyCtx/TyTy.cpp:191-204 | "u" and the width |
| TyTy.FloatKindName | code/TyCtx/TyTy.cpp:128-135 | "f" and the width |
| TyTy.LeafName | code/TyCtx/TyTy.cpp:106-223 | a fixed, non-empty name exactly for bool, char, the integer, float and size kinds, never, str, error and inference variables |
| TyTy.SubstToString | code/TyCtx/TyTy.cpp:679-695 | "" exactly when there are generic parameters, because the buffer is never filled; "empty" otherwise |
| TyTy.ADTString | code/TyCtx/TyTy.cpp:482-492 | starts with the substitution string and "{", ends with "}" |
| TyTy.ToString | code/TyCtx/TyTy.cpp:106-498 | a leaf gives its fixed name (i128 gives "i28"); Function and Parameter give nothing, as their `toString` aborts; the unit tuple gives "()"; a tuple gives a parenthesised string exactly when each field renders; an ADT with n variants gives its substitution string and braces around n-1 ", " separators |
| TyTy.RenderFieldsDefined | code/TyCtx/TyTy.cpp:246-254 | the field loop yields a string exactly when every field renders |
| TyTy.RenderFieldsSomeEach | code/TyCtx/TyTy.cpp:246-254 | when the field loop yields a string, every field renders |
| TyTy.RenderFieldsEachSome | code/TyCtx/TyTy.cpp:246-254 | when every field renders, the field loop yields a string |
| TyTy.RenderFieldsStep | code/TyCtx/TyTy.cpp:246-254 | a non-empty field list renders exactly when its first field and the rest render |
| TyTy.RenderLeaf | code/TyCtx/TyTy.cpp:106-223 | a leaf type renders as its fixed name |
| TyTy.RenderUnit | code/TyCtx/TyTy.cpp:242-257 | the unit tuple renders as "()" |
| TyTy.RenderTuple | code/TyCtx/TyTy.cpp:242-257 | a tuple renders as its fields' renderings, comma-separated, inside parentheses |
| TyTy.RenderArray | code/TyCtx/TyTy.cpp:496-498 | an array renders as "[", its element's rendering and ":CAPACITY]", and only when the element renders |
| TyTy.RenderClosure | code/TyCtx/TyTy.cpp:436-442 | a closure renders as its parameter tuple between bars, then its result type in braces, and only when both render |
| TyTy.RenderFieldsTwo | code/TyCtx/TyTy.cpp:246-254 | two fields render as the first, ", ", and the second |
| TyTy.AppliedScalarHint | code/TyCtx/TyTy.cpp:600-673 | an integer, unsigned, float or size hint sets the inference kind and the hint's sign and size; a hint of any other kind changes nothing |
| TyTy.ApplyScalarTypeHintLastWins | code/TyCtx/TyTy.cpp:600-673 | applying the same hint twice is applying it once, and an integer, unsigned or float hint overrides any hint applied before it |
| TyTy.SizeHintKeepsSignAndSize | code/TyCtx/TyTy.cpp:650-668 | a usize hint after an integer hint keeps that hint's sign and size and takes the usize kind |
| TyTy.AddedBound | code/TyCtx/TyTy.cpp:811-817 | the old bounds are a prefix of at most one more, and the bound's id is now present |
| TyTy.InheritedBounds | code/TyCtx/TyTy.cpp:819-823 | at most one bound more per inherited bound, and the last inherited bound's id is present |
| TyTy.AddedBoundProperties | code/TyCtx/TyTy.cpp:811-817 | a bound is appended only when its id is new; unique ids stay unique, and adding the same bound twice is adding it once |
| TyTy.InheritedBoundsProperties | code/TyCtx/TyTy.cpp:819-823 | the old bounds are a prefix, the ids are the union of the ids, and unique ids stay unique |
| Destructure.ParamChain | code/TyCtx/TyTy.cpp:792-802 | a resolved type is live |
| Destructure.ParamResolution | code/TyCtx/TyTy.cpp:785-809 | a resolved type is live |
| Destructure.ParamChainStops | code/TyCtx/TyTy.cpp:792-802 | the loop stops on a type that is not a parameter, cannot resolve, or leads to itself |
| Destructure.ParamChainOfNonParameter | code/TyCtx/TyTy.cpp:792-795 | a type that is not a parameter resolves to itself |
| Destructure.ResolveParam | code/TyCtx/TyTy.cpp:785-809 | the result is the resolution of the parameter |
| Destructure.PlaceholderResolution | code/TyCtx/TyTy.cpp:776-783 | resolved exactly when the associated type's id is registered, to the type registered under it |
| Destructure.CanResolvePlaceholder | code/TyCtx/TyTy.cpp:771-774 | true exactly when the context has an associated-type mapping for the placeholder |
| Destructure.ResolvePlaceholder | code/TyCtx/TyTy.cpp:776-783 | the result is the placeholder's resolution |
| Destructure.Follow | code/TyCtx/TyTy.cpp:741-766 | a turn of the loop reaches a live type |
| Destructure.FollowShape | code/TyCtx/TyTy.cpp:741-766 | other kinds stop at once, a projection goes to its projected type, and a placeholder that cannot resolve stops |
| Destructure.FollowStopsSettled | code/TyCtx/TyTy.cpp:741-766 | a stop leaves the current type, and it is settled |
| Destructure.DestructureFrom | code/TyCtx/TyTy.cpp:734-769 | a found type is live |
| Destructure.DestructureConstFrom | code/TyCtx/TyTy.cpp:697-732 | a found type is live, and the step limit never fires |
| Destructure.DestructureSettles | code/TyCtx/TyTy.cpp:734-769 | `destructure` returns a settled type: no parameter, placeholder or projection that could be followed further |
| Destructure.DestructureConstSettles | code/TyCtx/TyTy.cpp:697-732 | the const `destructure` returns a settled type |
| Destructure.MutableAgreesWithConst | code/TyCtx/TyTy.cpp:697-769 | when the mutable loop finds a type within its step limit, the const loop finds the same one |
| Destructure.Turn | code/TyCtx/TyTy.cpp:741-766 | one turn of the loop stops or goes on as the turn function says |
| Destructure.DestructureLoop | code/TyCtx/TyTy.cpp:737-768 | the loop reports the step limit, or returns the type the specification finds |
| Destructure.Destructure | code/TyCtx/TyTy.cpp:734-769 | the type found, with the arena unchanged, or at the step limit a fresh ErrorType carrying the original reference |
| Destructure.DestructureConst | code/TyCtx/TyTy.cpp:697-732 | the result is the type the const specification finds |
| TypeUpdates.ApplyScalarTypeHint | code/TyCtx/TyTy.cpp:600-673 | only the inference object's kind and default hint change, as the hint function gives them |
| TypeUpdates.HintSwitch | code/TyCtx/TyTy.cpp:600-673 | the switch on the hint computes the hint function |
| TypeUpdates.AddBound | code/TyCtx/TyTy.cpp:811-817 | only the object's bounds change, to those with the bound added |
| TypeUpdates.InheritBounds | code/TyCtx/TyTy.cpp:819-823 | only the object's bounds change, to those with every bound added in order |
| TypeContext.BuiltinTablesInOrder | code/TyCtx/TyCtx.cpp:228-289 | the builtin names and types are listed in the order `generateBuiltins` registers them |
| TypeContext.WithCapture | code/TyCtx/TyCtx.cpp:209-219 | the closure gains an entry if it had none, its set gains the item, and every other entry is kept |
| TypeContext.CapturesOf | code/TyCtx/TyCtx.cpp:221-226 | an item is a capture exactly when it is recorded for that closure; a closure without an entry has none |
| TypeContext.WithCaptureCollects | code/TyCtx/TyCtx.cpp:209-226 | recording a capture adds exactly that item to that closure's set and leaves the other closures alone |
| TypeContext.WithCaptureIdempotentAndCommutative | code/TyCtx/TyCtx.cpp:209-219 | repeating a capture changes nothing, and captures commute |
| TypeContext.CanonicalPathFirstWins | code/include/TyCtx/TyCtx.h:57-64 | the first path stored for an id survives any sequence of later insertions |
| TypeContext.BuiltinsRanked | code/TyCtx/TyCtx.cpp:228-298 | the builtin objects are acyclic |
| TypeContext.BuiltinDataShape | code/TyCtx/TyTy.cpp:106-223 | every named builtin is a leaf with its fixed rendering |
| TypeContext.BuiltinsRender | code/TyCtx/TyCtx.cpp:128-136 | the builtins list renders as the fixed list of builtin strings |
| TypeContext.BuiltinRendersAt | code/TyCtx/TyCtx.cpp:128-136 | each builtin renders as its entry of that list |
| TypeContext.I128IsNoBuiltinRendering | code/TyCtx/TyTy.cpp:148-161 | no builtin renders as "i128"; every other surface name is its builtin's rendering, unit renders as "()", and the renderings are pairwise distinct |
| TypeContext.FirstBuiltinRendering | code/TyCtx/TyCtx.cpp:128-136 | where the scan stops for a rendered name is the index of that surface name, or the unit's |
| TypeContext.NoBuiltinRendering | code/TyCtx/TyCtx.cpp:128-136 | a name no builtin renders as is neither "()" nor a surface name other than "i128" |
| TypeContext.Renderings | code/TyCtx/TyCtx.cpp:129-130 | the rendering of every object in the list, in order |
| TypeContext.FirstRendering | code/TyCtx/TyCtx.cpp:128-136 | the index the scan stops at lies within the list |
| TypeContext.FirstRenderingMeaning | code/TyCtx/TyCtx.cpp:128-136 | the scan finds the first rendering equal to the name, and finds none exactly when no rendering is the name |
| TypeContext.LookupInBuiltinList | code/TyCtx/TyCtx.cpp:128-136 | "i128" finds nothing, every other surface name finds its own builtin, and "()" finds the unit |
| TypeContext.BuiltinsNamedExtend | code/TyCtx/TyCtx.cpp:300-316 | registering one more named builtin, whose AST node id is above every id with a canonical path, extends the named-builtins invariant |
| TypeContext.BuiltinsRegisteredExtend | code/TyCtx/TyCtx.cpp:118-122 | registering a builtin under fresh ids keeps every earlier `insertBuiltin` registration and adds its own |
| TypeContext.BuiltinsRegisteredFresh | code/TyCtx/TyCtx.cpp:118-122 | storing an object under a handle not in use keeps every `insertBuiltin` registration |
| TypeContext.BuiltinsNamedKeep | code/TyCtx/TyCtx.cpp:291-297 | appending the unit type keeps the named-builtins invariant |
| TypeContext.TyCtx.constructor | code/TyCtx/TyCtx.cpp:24 | the context holds the 18 named builtins in order with their canonical paths, then the unit type; each builtin's object is registered under its reference id and its AST node id maps to that reference; the name, enum-item, autoderef, capture, module-child, parent-module, crate and associated-type tables are empty, and the current crate is unknown |
| TypeContext.TyCtx.NewType | code/sema/TypeChecking/Item.cpp:119-121 | `new` of a type object: a handle not in use before now holds the object, nothing else changes, and the arena stays closed |
| TypeContext.TyCtx.SetObject | code/TyCtx/TyTy.cpp:811-817 | writing an object's fields in place: only that handle's object changes, and the arena stays closed |
| TypeContext.TyCtx.NextNodeId | code/include/TyCtx/TyCtx.h:41 | hands out the counter value and advances the counter |
| TypeContext.TyCtx.LookupType | code/TyCtx/TyCtx.cpp:138-143 | a type exactly when one is registered for the id, and it is that one |
| TypeContext.TyCtx.InsertType | code/TyCtx/TyCtx.cpp:124-126 | the id now looks up that type, and every other id looks up what it did |
| TypeContext.TyCtx.InsertImplicitType | code/include/TyCtx/TyCtx.h:105-107 | the id now looks up that type, and every other id looks up what it did |
| TypeContext.TyCtx.InsertBuiltin | code/TyCtx/TyCtx.cpp:118-122 | ref maps to id, id looks up the type, and the type is appended to the owned builtins |
| TypeContext.TyCtx.LookupBuiltin | code/TyCtx/TyCtx.cpp:128-136 | the first owned builtin whose rendering is the name, or none |
| TypeContext.TyCtx.LookupBuiltinAfterSetup | code/TyCtx/TyCtx.cpp:128-136 | after construction "i128" finds nothing, every other surface name finds its builtin, and "()" finds the unit |
| TypeContext.TyCtx.SetupBuiltin | code/TyCtx/TyCtx.cpp:300-316 | a fresh node id for the builtin's path, its entry in the builtins, its registration and its one-segment canonical path |
| TypeContext.TyCtx.AllocBuiltin | code/TyCtx/TyCtx.cpp:230 | `make_unique<XType>(getNextNodeId(), ...)`: the object gets the next node id as its reference and type reference, under a handle not in use before; every builtin registered so far stays registered, and no registration key reaches the new id |
| TypeContext.TyCtx.RegisterBuiltin | code/TyCtx/TyCtx.cpp:230-231 | one builtin of the given data is created and set up under the given name |
| TypeContext.TyCtx.GenerateBuiltins | code/TyCtx/TyCtx.cpp:228-298 | the 18 named builtins in order, with their paths, then the unit type without a path, whose node id is recorded; every builtin is registered in `resolved` under its reference id and in `nodeIdRefs` under its AST node id; the name, enum-item, autoderef, capture, module-child, parent-module, crate and associated-type tables keep their contents |
| TypeContext.TyCtx.RegisterUnsignedIntegers | code/TyCtx/TyCtx.cpp:229-244 | u8, u16, u32, u64 and u128 are registered in order |
| TypeContext.TyCtx.RegisterSignedIntegers | code/TyCtx/TyCtx.cpp:246-260 | i8, i16, i32, i64 and i128 are registered in order |
| TypeContext.TyCtx.RegisterFloatsAndBool | code/TyCtx/TyCtx.cpp:262-273 | f32, f64 and bool are registered in order |
| TypeContext.TyCtx.RegisterSizesAndText | code/TyCtx/TyCtx.cpp:275-289 | usize, isize, char, str and "!" are registered in order |
| TypeContext.TyCtx.RegisterUnitType | code/TyCtx/TyCtx.cpp:291-297 | the unit tuple is appended under "()" without a canonical path, and its node id is recorded |
| TypeContext.TyCtx.SetupUnitBuiltin | code/TyCtx/TyCtx.cpp:293-297 | the AST node of the unit type gets a fresh id, its builtins entry and its registration |
| TypeContext.TyCtx.InsertClosureCapture | code/TyCtx/TyCtx.cpp:209-219 | the capture table gains the item in that closure's set |
| TypeContext.TyCtx.GetCaptures | code/TyCtx/TyCtx.cpp:221-226 | the empty set for a closure without captures |
| TypeContext.TyCtx.InsertAutoderefMapping | code/TyCtx/TyCtx.cpp:203-207 | the id is new and now maps to the adjustments |
| TypeContext.TyCtx.LookupEnumItem | code/TyCtx/TyCtx.cpp:172-179 | none exactly when the id is not mapped |
| TypeContext.TyCtx.InsertEnumItem | code/TyCtx/TyCtx.cpp:181-187 | the item's id is new and now looks up the pair; every other id looks up what it did |
| TypeContext.TyCtx.IsCrate | code/TyCtx/TyCtx.cpp:105-112 | true exactly when some registered crate has that node id |
| TypeContext.TyCtx.InsertASTCrate | code/TyCtx/TyCtx.cpp:114-116 | `insert` keeps a crate already recorded for the number and adds a new one otherwise |
| TypeContext.TyCtx.GetCrateName | code/TyCtx/TyCtx.cpp:26-32 | none exactly for an unknown crate number, otherwise that crate's name |
| TypeContext.TyCtx.SetCurrentCrate | code/TyCtx/TyCtx.cpp:72-76 | `getCurrentCrate` afterwards returns the crate set |
| TypeContext.TyCtx.LookupModuleChildrenItems | code/TyCtx/TyCtx.cpp:78-103 | a list exactly when `isModule` holds for the id |
| TypeContext.TyCtx.LookupModuleChild | code/TyCtx/TyCtx.cpp:82-94 | the first child equal by name, or none when no child is equal by name or the id is not a module |
| TypeContext.TyCtx.InsertModuleChildItem | code/include/TyCtx/TyCtx.h:78-84 | the child is appended to the module's list, which is created when absent; other modules are unchanged |
| TypeContext.TyCtx.InsertChildItemToParentModuleMapping | code/include/TyCtx/TyCtx.h:66-69 | the first parent recorded for a child is kept |
| TypeContext.TyCtx.LookupCanonicalPath | code/include/TyCtx/TyCtx.h:71-76 | none exactly when no path is stored, otherwise the stored path |
| TypeContext.TyCtx.InsertCanonicalPath | code/include/TyCtx/TyCtx.h:57-64 | a different stored path must be at least as long; afterwards the id looks up the old path if there was one, else the new one |
| TypeContext.TyCtx.InsertResolvedName | code/TyCtx/TyCtx.cpp:48-50 | ref now looks up def, and every other name looks up what it did |
| TypeContext.TyCtx.LookupName | code/TyCtx/TyCtx.cpp:52-57 | none exactly when the name is not resolved |
| TypeContext.TyCtx.LookupAssociatedTypeMapping | code/TyCtx/TyTy.cpp:773 | none exactly when the id has no associated-type mapping |
| Cloning.GrownByNew | code/TyCtx/TyTy.cpp:825-828 | adding a fresh object only grows the context |
| Cloning.GrownByRegister | code/TyCtx/TyTy.cpp:943-961 | registering a fresh id only grows the context |
| Cloning.GrownTrans | code/TyCtx/TyTy.cpp:870-909 | growth is transitive |
| Cloning.CloneableGrown | code/TyCtx/TyTy.cpp:870-909 | what can be cloned stays cloneable as the context grows |
| Cloning.FieldTypesContain | code/TyCtx/TyTy.cpp:931-941 | every field type of every variant is among the ADT's field types |
| Cloning.PointerClonedGrown | code/TyCtx/TyTy.cpp:870-909 | a clone stays a clone as the context grows |
| Cloning.VariableClonedGrown | code/TyCtx/TyTy.cpp:926-929 | a cloned variable stays cloned as the context grows |
| Cloning.VariableClonedRebase | code/TyCtx/TyTy.cpp:926-929 | a variable cloned in a grown context is cloned relative to the original one |
| Cloning.PointerClonedRebase | code/TyCtx/TyTy.cpp:870-909 | a pointer cloned in a grown context is cloned relative to the original one |
| Cloning.Clone | code/TyCtx/TyTy.cpp:825-961 | a fresh object that is a clone of the original; the context only grows, and an inference clone is registered under its new id |
| Cloning.CloneCopy | code/TyCtx/TyTy.cpp:825-868 | a fresh object with the original's references, combined set and payload |
| Cloning.CopyCloneDone | code/TyCtx/TyTy.cpp:825-868 | the copied object is a clone, and the context only grew |
| Cloning.CloneInfer | code/TyCtx/TyTy.cpp:943-961 | a fresh object under a new node id, registered there, whose combined set adds the original reference |
| Cloning.InferCloneDone | code/TyCtx/TyTy.cpp:943-961 | the new inference object is a clone and every registered id was issued |
| Cloning.CloneTypeVariable | code/TyCtx/TyTy.cpp:926-929 | a variable for the clone of the type the variable stands for |
| Cloning.CloneTuple | code/TyCtx/TyTy.cpp:870-878 | a fresh tuple whose fields are clones of the original fields, in order |
| Cloning.TupleFieldReady | code/TyCtx/TyTy.cpp:873-875 | the next field can be cloned in the grown context |
| Cloning.TupleFieldDone | code/TyCtx/TyTy.cpp:873-875 | one more cloned field extends the cloned prefix |
| Cloning.TupleCloneRefs | code/TyCtx/TyTy.cpp:876-877 | the new tuple refers only to live objects |
| Cloning.TupleCloneDone | code/TyCtx/TyTy.cpp:870-878 | the new tuple is a clone of the original |
| Cloning.CloneFunction | code/TyCtx/TyTy.cpp:880-892 | a fresh function whose parameters and return type are clones |
| Cloning.CloneParams | code/TyCtx/TyTy.cpp:882-886 | each parameter keeps its pattern and gets a clone of its type |
| Cloning.FunctionPartReady | code/TyCtx/TyTy.cpp:880-892 | the next parameter or the return type can be cloned in the grown context |
| Cloning.ParamDone | code/TyCtx/TyTy.cpp:882-886 | one more cloned parameter extends the cloned prefix |
| Cloning.FunctionCloneRefs | code/TyCtx/TyTy.cpp:887-891 | the new function refers only to live objects |
| Cloning.FunctionCloneDone | code/TyCtx/TyTy.cpp:880-892 | the new function is a clone of the original |
| Cloning.CloneClosure | code/TyCtx/TyTy.cpp:894-899 | a fresh closure whose parameter tuple is a clone, keeping the bounds |
| Cloning.ClosureCloneRefs | code/TyCtx/TyTy.cpp:894-899 | the new closure refers only to live objects |
| Cloning.ClosureCloneDone | code/TyCtx/TyTy.cpp:894-899 | the new closure is a clone of the original |
| Cloning.CloneADT | code/TyCtx/TyTy.cpp:901-909 | a fresh ADT object that is a clone of the original |
| Cloning.CloneVariants | code/TyCtx/TyTy.cpp:903-906 | the variants of the copy are the original variants |
| Cloning.VariantReady | code/TyCtx/TyTy.cpp:903-906 | the next variant's field types can be cloned in the grown context |
| Cloning.ADTCloneRefs | code/TyCtx/TyTy.cpp:907-908 | the new ADT refers only to live objects |
| Cloning.ADTCloneDone | code/TyCtx/TyTy.cpp:901-909 | the new ADT is a clone of the original |
| Cloning.CloneVariant | code/TyCtx/TyTy.cpp:931-937 | the field types are cloned for their effect on the context, and the copy equals the original variant |
| Cloning.CloneStructField | code/TyCtx/TyTy.cpp:939-941 | the same ref, name and location, and a clone of the field type |
| ItemChecking.StructStructShape | code/sema/TypeChecking/Item.cpp:84-125 | a StructStruct ADT with one Struct variant holding one field per declared field, in order, typed by `checkType` |
| ItemChecking.TupleStructShape | code/sema/TypeChecking/Item.cpp:127-167 | a TupleStruct ADT with one Tuple variant whose field i is named by the digits of i, so the names are distinct |
| ItemChecking.StructTypeNeedsSubstitution | code/sema/TypeChecking/Item.cpp:84-167 | the struct's type needs generic substitution exactly when it has generic parameters |
| ItemChecking.StructTypeRefs | code/sema/TypeChecking/Item.cpp:84-167 | the struct's type holds no type variables and points only to checked types |
| ItemChecking.RegistrationsUnnamed | code/sema/TypeChecking/Item.cpp:99-103 | an id no field registers keeps its lookup |
| ItemChecking.RegistrationsLast | code/sema/TypeChecking/Item.cpp:99-103 | an id maps to the type of the last field registered under it |
| ItemChecking.RegistrationsSnoc | code/sema/TypeChecking/Item.cpp:99-103 | registering one more field extends the registrations |
| ItemChecking.CheckVisItem | code/sema/TypeChecking/Item.cpp:21-65 | structs are checked, functions are handed to the unmodelled `checkFunction`, and every other item kind aborts without changing the context |
| ItemChecking.CheckStruct | code/sema/TypeChecking/Item.cpp:71-82 | a fresh struct type is stored, the fields are registered, and the struct's id maps to the type |
| ItemChecking.CheckStructStruct | code/sema/TypeChecking/Item.cpp:84-125 | a fresh StructStruct type is stored, each field's id maps to its type, and the struct's id maps to the new type |
| ItemChecking.CheckTupleStruct | code/sema/TypeChecking/Item.cpp:127-167 | a fresh TupleStruct type is stored, each field's id maps to its type, and the struct's id maps to the new type |
| PathInExpressions.TryPathIdentSegment | code/parser/PathInExpression.cpp:9-29 | an identifier gives its text, and any other segment is one of the four keyword names |
| PathInExpressions.PathIdentSegmentCases | code/parser/PathInExpression.cpp:9-29 | a segment exactly for identifiers and the keywords super, self, Self and crate, each with its own name; only the first token matters |
| PathInExpressions.TryPathExprSegment | code/parser/PathInExpression.cpp:31-47 | the segment of the first token, so a following `::` does not change the result |
| PathInExpressions.TryParsePathInExpression | code/parser/PathInExpression.cpp:49-55 | never an expression |
| Parsing.LiteralTokenKind | code/parser/Pattern.cpp:91-134 | exactly the eight literal token kinds give a pattern kind, never True or False |
| Parsing.LiteralTokenKindInjective | code/parser/Pattern.cpp:91-134 | different literal token kinds give different pattern kinds |
| Parsing.LiteralPatternDecision | code/parser/Pattern.cpp:75-153 | parsed exactly on true, false, a literal token, or a minus before an integer or float literal; a failure reports the fixed message and consumes nothing; the storage is the first token's |
| Parsing.LiteralPatternKindOf | code/parser/Pattern.cpp:81-150 | the pattern kind is True or False for the keywords, and otherwise the kind of the literal token, after the minus when there is one |
| Parsing.LoneMinusFails | code/parser/Pattern.cpp:135-152 | a minus not followed by an integer or float literal is no literal pattern |
| Parsing.NamePosition | code/parser/Pattern.cpp:36-46 | the identifier is expected at most two tokens after the start |
| Parsing.IdentifierPatternShape | code/parser/Pattern.cpp:30-73 | aborts exactly without an identifier at the name position; ref and mut flags follow the leading keywords; the subpattern follows an `@`, and a failed subpattern exits |
| Parsing.MutBeforeRefAborts | code/parser/Pattern.cpp:36-52 | `mut ref x` aborts |
| Parsing.StackEntries | code/parser/FunctionStack.cpp:8-11 | one line per stack entry, from the top down |
| Parsing.StackReport | code/parser/FunctionStack.cpp:5-12 | the header "parsing failed", then one line per entry from the top down |
| Parsing.Parser.constructor | code/include/Parser/Parser.h:18-19 | a parser at the start of the stream; the function stack is the member that code/parser/FunctionStack.cpp:8-18 uses, which this header version does not declare, and it starts default-constructed, so empty |
| Parsing.Parser.Eat | code/parser/Pattern.cpp:52 | consumes the next token exactly when it has the kind |
| Parsing.Parser.EatKeyWord | code/parser/Pattern.cpp:37 | consumes the next token exactly when it is the keyword |
| Parsing.Parser.PushFunction | code/parser/FunctionStack.cpp:14 | the name becomes the top of the stack |
| Parsing.Parser.PopFunction | code/parser/FunctionStack.cpp:16-19 | the top must be the name, and popping it restores the stack as before the push |
| Parsing.Parser.PrintFunctionStack | code/parser/FunctionStack.cpp:5-12 | writes the stack report and leaves the stack empty |
| Parsing.Parser.ParseLiteralPattern | code/parser/Pattern.cpp:75-153 | the outcome and the new offset are those of the literal-pattern function |
| Parsing.Parser.ParseIdentifierPattern | code/parser/Pattern.cpp:30-73 | the outcome and the new offset are those of the identifier-pattern function; the stack is drained exactly on exit |

## Left out

- `BaseType::isConcrete` (`TyTy.cpp:514-598`) is not modelled: its first statement is `assert(false)` (`TyTy.cpp:515`), so the switch after it is never reached.
- `FunctionType::toString` and `ParamType::toString` abort (`assert(false)`). `Render` and `ToString` return none for a Function or Parameter object, and for every tuple, array or closure that contains one; the abort itself is not an outcome of `ToString`.
- `toString` of Slice, Reference, RawPointer, Dynamic, Placeholder, Projection and FunctionPointer objects is not part of this model. `Render` returns none for them, and for every tuple, array or closure that contains one.
- `ArrayType::toString` and `ClosureType::toString` are rendered as the code writes them. The array capacity is the fixed text "CAPACITY".
- `clone` of Dynamic, Slice, Reference, RawPointer, Placeholder, Projection and FunctionPointer objects: their subclasses are not part of this model, and `Cloneable` excludes them.
- `InferType::clone` also copies the location entry of the original. Locations are not part of this model.
- Memory ownership is not modelled. This covers `unique_ptr` in the builtins list, leaked clones and raw pointers. Every object lives in the arena for ever.
- The global context (`TyCtx::get`) and the session pointer are not modelled. Every operation takes its context as a parameter.
- `getNextNodeId` is modelled as a counter starting at 7. Its body is not part of the code base, where it is commented out.
- `lookupPredicate`, `insertModule` and `lookupAssociatedItem` consist only of `assert(false)`, so they are not modelled.
- `lookupModule`, `insertItem`/`lookupItem`, `lookupExternalItem` and `lookupImplementation` are plain map lookups outside the modelled core.
- `ParamType::canResolve` and `checkType` are outside the modelled core. Each is a function parameter.
- `checkGenericParams`, `checkWhereClause` and `checkFunction` are not part of this model. A function item is reported as deferred.
- ItemChecking.CheckVisItem: the function branch is a stub for `checkFunction` (`Item.cpp:32-34`), so nothing is promised about what checking a function does to the context.
- ItemChecking.CheckStruct, ItemChecking.CheckStructStruct, ItemChecking.CheckTupleStruct: their exact new states hold only because `checkType`, `checkGenericParams` and `checkWhereClause` (`Item.cpp:86-92`, `Item.cpp:128-134` and the field loops) are taken to create and register nothing. `checkType` is a function whose results already exist in the context; a real `checkType` that stores new objects would add to the arena.
- `parsePatternNoTopAlt` is not part of this model. It is the parameter `sub`, with the only property the callers rely on: it stays within the stream.
- Locations (`getLocation`) in patterns and types are not modelled. Types keep the location value they are given.
- Diagnostics written to `llvm::errs()`/`llvm::outs()` are not modelled, except the lines of `printFunctionStack`, which are returned as a sequence.
- `exit(EXIT_FAILURE)` and aborting asserts end the process. They are the `Exited` and `Aborted` outcomes.
- The model assumes a build in which `assert` is active, so the `eat` calls inside `assert(...)` always run.
- Destructure.ResolveParam: the loop of `ParamType::resolve` can cycle without end. The method requires the ghost fuel to suffice, so a cycle longer than the fuel is not covered.
- Destructure.DestructureConst: the const `destructure` never advances its step counter. The method requires a ghost chain bound, so an endless chain is not covered.
- Lexing.Lexer.Tokenize: requires that no NUL char occur from the cursor on. With a NUL char the source loops forever; `LexStepStallsOnNul` states that.
- Unescaping: `std::istringstream` is reduced to its position and its eof and fail bits. Locale and other stream flags are not modelled.
- The parser files other than `Pattern.cpp`, `PathInExpression.cpp` and `FunctionStack.cpp` are not part of this model. The token fields the fragments do not read are not modelled either.
- The MLIR dialects, the optimizer passes and code generation are not part of this model.
