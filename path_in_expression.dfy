/** Path segments of a path-in-expression (`parser/PathInExpression.cpp`).
    The functions inspect the front of a token span and return an optional
    segment name; `front()` of an empty span is undefined behaviour, so a
    non-empty span is the caller's obligation. */
module PathInExpressions {
  import opened Basic
  import opened ParserTokens

  /** The expression node a full path-in-expression would produce; the
      parser never builds one. */
  datatype Expression = PathExpression(segments: seq<string>)

  /** `tryPathIdentSegment`: the identifier's text, or the surface name of
      one of the four path keywords, or nothing. */
  function TryPathIdentSegment(tokens: seq<ParserToken>): (r: Option<string>)
    requires |tokens| >= 1
    ensures IsIdentifier(tokens[0]) ==> r == Some(tokens[0].identifier)
    ensures r.Some? && !IsIdentifier(tokens[0]) ==> IsKeyWord(tokens[0]) && r.value in {"super", "self", "Self", "crate"}
  {
    var front := tokens[0];
    if IsIdentifier(front) then Some(front.identifier)
    else if IsKeyWord(front) && front.keyWord == KwSuper then Some("super")
    else if IsKeyWord(front) && front.keyWord == KwSelfValue then Some("self")
    else if IsKeyWord(front) && front.keyWord == KwSelfType then Some("Self")
    else if IsKeyWord(front) && front.keyWord == KwCrate then Some("crate")
    else None
  }

  /** Exactly identifiers and the keywords `super`, `self`, `Self` and
      `crate` start a path segment; each keyword gets its own name. */
  lemma PathIdentSegmentCases(t: ParserToken, rest: seq<ParserToken>)
    ensures TryPathIdentSegment([t] + rest).Some? <==>
              IsIdentifier(t) || (IsKeyWord(t) && t.keyWord in {KwSuper, KwSelfValue, KwSelfType, KwCrate})
    ensures !IsIdentifier(t) && IsKeyWord(t) ==>
              (t.keyWord == KwSuper <==> TryPathIdentSegment([t] + rest) == Some("super")) &&
              (t.keyWord == KwSelfValue <==> TryPathIdentSegment([t] + rest) == Some("self")) &&
              (t.keyWord == KwSelfType <==> TryPathIdentSegment([t] + rest) == Some("Self")) &&
              (t.keyWord == KwCrate <==> TryPathIdentSegment([t] + rest) == Some("crate"))
    ensures TryPathIdentSegment([t] + rest) == TryPathIdentSegment([t])
  {
    assert ([t] + rest)[0] == t;
  }

  /** `tryPathExprSegment`: the segment of the first token. A following
      `::` only moves a local view, so the result is the identifier segment
      alone; reading the token after a found segment needs a second one. */
  function TryPathExprSegment(tokens: seq<ParserToken>): (r: Option<string>)
    requires |tokens| >= 1
    requires TryPathIdentSegment(tokens).Some? ==> |tokens| >= 2
    ensures r == TryPathIdentSegment(tokens)
    ensures r.Some? <==> IsIdentifier(tokens[0]) ||
                         (IsKeyWord(tokens[0]) && tokens[0].keyWord in {KwSuper, KwSelfValue, KwSelfType, KwCrate})
  {
    TryPathIdentSegment(tokens)
  }

  /** `tryParsePathInExpression`: not yet implemented, it parses nothing. */
  function TryParsePathInExpression(tokens: seq<ParserToken>): (r: Option<Expression>)
    ensures r.None?
  {
    None
  }
}
