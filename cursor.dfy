/** `Cursor` (`_lexer/include/Cursor.h`): a position over an immutable input
    string that only moves forward. */
module Cursors {
  import opened Basic

  /** The char at i, or '\0' past the end (the lookahead of `first`,
      `second` and `third`). */
  function CharAt(s: seq<CChar>, i: nat): CChar {
    if i < |s| then s[i] else '\0'
  }

  /** The predicate "differs from t", as `eat_until(t)` tests it. */
  function IsNot(t: CChar): CChar -> bool {
    c => c != t
  }

  /** Where a run of chars satisfying p that starts at i ends. */
  function RunEnd(s: seq<CChar>, i: nat, p: CChar -> bool): (r: nat)
    requires i <= |s|
    ensures i <= r <= |s|
    decreases |s| - i
  {
    if i == |s| || !p(s[i]) then i else RunEnd(s, i + 1, p)
  }

  /** RunEnd is the end of the maximal run: every char skipped satisfies p,
      and the run stops at the end of the input or at a char that does not. */
  lemma {:induction false} RunEndMaximal(s: seq<CChar>, i: nat, p: CChar -> bool)
    requires i <= |s|
    ensures forall k :: i <= k < RunEnd(s, i, p) ==> p(s[k])
    ensures RunEnd(s, i, p) == |s| || !p(s[RunEnd(s, i, p)])
    decreases |s| - i
  {
    if i < |s| && p(s[i]) {
      RunEndMaximal(s, i + 1, p);
    }
  }

  /** Any position such that everything before it satisfies p and the char
      at it does not (or it is the end) is where the run ends. */
  lemma {:induction false} RunEndUnique(s: seq<CChar>, i: nat, p: CChar -> bool, j: nat)
    requires i <= j <= |s|
    requires forall k :: i <= k < j ==> p(s[k])
    requires j == |s| || !p(s[j])
    ensures RunEnd(s, i, p) == j
    decreases j - i
  {
    if i < j {
      RunEndUnique(s, i + 1, p, j);
    }
  }

  class Cursor {
    const input: seq<CChar>
    var position: nat

    ghost predicate Valid()
      reads this
    {
      position <= |input|
    }

    constructor (input: seq<CChar>)
      ensures Valid() && this.input == input && position == 0
    {
      this.input := input;
      position := 0;
    }

    /** `first`: the char at the position, or '\0' at the end. */
    function First(): (c: CChar)
      reads this
      ensures position < |input| ==> c == input[position]
      ensures position >= |input| ==> c == '\0'
    {
      CharAt(input, position)
    }

    /** `second`: the char after it, or '\0' past the end. */
    function Second(): (c: CChar)
      reads this
      ensures position + 1 < |input| ==> c == input[position + 1]
      ensures position + 1 >= |input| ==> c == '\0'
    {
      CharAt(input, position + 1)
    }

    /** `third`: the char two on, or '\0' past the end. */
    function Third(): (c: CChar)
      reads this
      ensures position + 2 < |input| ==> c == input[position + 2]
      ensures position + 2 >= |input| ==> c == '\0'
    {
      CharAt(input, position + 2)
    }

    /** `is_eof`: no char is left, so all three lookaheads are '\0'. */
    predicate IsEof()
      reads this
      ensures IsEof() ==> First() == '\0' && Second() == '\0' && Third() == '\0'
      ensures !IsEof() ==> First() == input[position]
    {
      position >= |input|
    }

    /** `bump`: one char forward unless at the end; the lookahead shifts. */
    method Bump()
      requires Valid()
      modifies this`position
      ensures Valid()
      ensures position == if old(position) < |input| then old(position) + 1 else old(position)
      ensures old(position) < |input| ==> First() == old(Second()) && Second() == old(Third())
      ensures old(position) >= |input| ==> First() == '\0'
    {
      if position < |input| {
        position := position + 1;
      }
    }

    /** `eat_while(predicate)`: skips the maximal run of chars satisfying it. */
    method EatWhile(predicate_: CChar -> bool)
      requires Valid()
      modifies this`position
      ensures Valid() && old(position) <= position
      ensures position == RunEnd(input, old(position), predicate_)
      ensures forall k :: old(position) <= k < position ==> predicate_(input[k])
      ensures IsEof() || !predicate_(First())
    {
      RunEndMaximal(input, position, predicate_);
      while !IsEof() && predicate_(First())
        invariant Valid() && old(position) <= position
        invariant RunEnd(input, position, predicate_) == RunEnd(input, old(position), predicate_)
        decreases |input| - position
      {
        Bump();
      }
    }

    /** `eat_until(target)`: skips chars other than target and stops on the
        first target without consuming it, or at the end. */
    method EatUntil(target: CChar)
      requires Valid()
      modifies this`position
      ensures Valid() && old(position) <= position
      ensures position == RunEnd(input, old(position), IsNot(target))
      ensures forall k :: old(position) <= k < position ==> input[k] != target
      ensures IsEof() || First() == target
    {
      RunEndMaximal(input, position, IsNot(target));
      while !IsEof() && First() != target
        invariant Valid() && old(position) <= position
        invariant RunEnd(input, position, IsNot(target)) == RunEnd(input, old(position), IsNot(target))
        decreases |input| - position
      {
        Bump();
      }
    }
  }
}
