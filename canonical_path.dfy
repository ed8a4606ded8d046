/** `adt::CanonicalPath`: an ordered list of (NodeId, name) segments plus a
    crate number. It is a value type: every operation builds a new path. */
module CanonicalPaths {
  import opened Basic

  datatype Segment = Segment(id: NodeId, name: string)

  datatype CanonicalPath = CanonicalPath(segments: seq<Segment>, crateNum: CrateNum)

  /** The segment names in order; equality and ordering only look at these. */
  function Names(p: CanonicalPath): (ns: seq<string>)
    ensures |ns| == |p.segments|
    ensures forall i :: 0 <= i < |ns| ==> ns[i] == p.segments[i].name
  {
    seq(|p.segments|, i requires 0 <= i < |p.segments| => p.segments[i].name)
  }

  predicate IsEmpty(p: CanonicalPath)
    ensures IsEmpty(p) <==> Names(p) == []
  {
    |p.segments| == 0
  }

  /** The number of segments: one name per segment. */
  function GetSize(p: CanonicalPath): (n: nat)
    ensures n == |Names(p)|
    ensures n == 0 <==> IsEmpty(p)
  {
    |p.segments|
  }

  /** `getNodeId`: the id of the last segment; asserts the path is non-empty.
      Together with the last name it makes up the last segment. */
  function GetNodeId(p: CanonicalPath): (id: NodeId)
    requires !IsEmpty(p)
    ensures Segment(id, Names(p)[GetSize(p) - 1]) == p.segments[GetSize(p) - 1]
  {
    p.segments[|p.segments| - 1].id
  }

  /** `newSegment(id, name)`: a one-segment path with an unknown crate. */
  function NewSegment(id: NodeId, name: string): (p: CanonicalPath)
    ensures GetSize(p) == 1 && GetNodeId(p) == id && Names(p) == [name]
    ensures p.crateNum == UnknownCrate
  {
    CanonicalPath([Segment(id, name)], UnknownCrate)
  }

  function CreateEmpty(): (p: CanonicalPath)
    ensures IsEmpty(p) && GetSize(p) == 0 && p.crateNum == UnknownCrate
  {
    CanonicalPath([], UnknownCrate)
  }

  function GetBigSelf(id: NodeId): (p: CanonicalPath)
    ensures Names(p) == ["Self"] && GetNodeId(p) == id
  {
    NewSegment(id, "Self")
  }

  function GetSmallSelf(id: NodeId): (p: CanonicalPath)
    ensures Names(p) == ["self"] && GetNodeId(p) == id
  {
    NewSegment(id, "self")
  }

  /** `setCrateNum`, on a value: the same segments with another crate number. */
  function WithCrateNum(p: CanonicalPath, n: CrateNum): (q: CanonicalPath)
    ensures q.segments == p.segments && q.crateNum == n
  {
    p.(crateNum := n)
  }

  /** The names joined by "::". */
  function JoinPath(names: seq<string>): (r: string)
    ensures |names| == 0 ==> r == ""
    ensures |names| == 1 ==> r == names[0]
  {
    if |names| == 0 then ""
    else if |names| == 1 then names[0]
    else names[0] + "::" + JoinPath(names[1..])
  }

  /** A non-empty join starts with the first name and ends with the last. */
  lemma {:induction false} JoinPathEnds(names: seq<string>)
    requires |names| > 0
    ensures names[0] <= JoinPath(names)
    ensures var r, last := JoinPath(names), names[|names| - 1];
            |last| <= |r| && r[|r| - |last|..] == last
    decreases |names|
  {
    if |names| > 1 {
      var rest := JoinPath(names[1..]);
      JoinPathEnds(names[1..]);
      assert names[1..][|names[1..]| - 1] == names[|names| - 1];
      var r := names[0] + "::" + rest;
      assert r[|r| - |rest|..] == rest;
    }
  }

  /** `asString`, as a value: the segment names joined by "::". */
  function AsString(p: CanonicalPath): (r: string)
    ensures IsEmpty(p) ==> r == ""
    ensures GetSize(p) == 1 ==> r == p.segments[0].name
  {
    JoinPath(Names(p))
  }

  /** A non-empty path's string starts with its first name and ends with its last. */
  lemma AsStringEnds(p: CanonicalPath)
    requires !IsEmpty(p)
    ensures p.segments[0].name <= AsString(p)
    ensures var r, last := AsString(p), p.segments[GetSize(p) - 1].name;
            |last| <= |r| && r[|r| - |last|..] == last
  {
    JoinPathEnds(Names(p));
  }

  /** The loop of `asString`: each segment's name is appended, followed by
      "::" while more segments follow. */
  method BuildAsString(p: CanonicalPath) returns (buf: string)
    ensures buf == AsString(p)
  {
    var names := Names(p);
    buf := "";
    var i := 0;
    while i < |p.segments|
      invariant 0 <= i <= |p.segments|
      invariant buf == if i == 0 then "" else JoinPath(names[..i]) + (if i < |p.segments| then "::" else "")
    {
      var haveMore := i + 1 < |p.segments|;
      var seg := p.segments[i].name;
      if i > 0 {
        JoinPathAppend(names[..i], [seg]);
        assert names[..i] + [seg] == names[..i + 1];
      } else {
        assert names[..1] == [seg];
      }
      buf := buf + seg + (if haveMore then "::" else "");
      i := i + 1;
    }
    assert names[..i] == names;
  }

  /** `append`: asserts `other` is non-empty; keeps this path's crate number
      also when this path is empty. */
  function Append(p: CanonicalPath, other: CanonicalPath): (r: CanonicalPath)
    requires !IsEmpty(other)
    ensures r.segments == p.segments + other.segments
    ensures GetSize(r) == GetSize(p) + GetSize(other)
    ensures r.crateNum == p.crateNum
    ensures !IsEmpty(r) && GetNodeId(r) == GetNodeId(other)
  {
    if IsEmpty(p) then CanonicalPath(other.segments, p.crateNum)
    else CanonicalPath(p.segments + other.segments, p.crateNum)
  }

  /** The index loop shared by `isEqual` and `operator==`: names agree from i on. */
  function NamesEqualFrom(a: seq<Segment>, b: seq<Segment>, i: nat): (r: bool)
    requires |a| == |b| && i <= |a|
    ensures r <==> forall j :: i <= j < |a| ==> a[j].name == b[j].name
    decreases |a| - i
  {
    if i == |a| then true
    else if a[i].name != b[i].name then false
    else NamesEqualFrom(a, b, i + 1)
  }

  /** `isEqual`: same length and the same names; node ids and crates are ignored. */
  function IsEqual(a: CanonicalPath, b: CanonicalPath): (r: bool)
    ensures r <==> Names(a) == Names(b)
  {
    if GetSize(b) != GetSize(a) then false
    else
      var r := NamesEqualFrom(a.segments, b.segments, 0);
      assert r ==> Names(a) == Names(b);
      assert Names(a) == Names(b) ==> forall j :: 0 <= j < |a.segments| ==> Names(a)[j] == Names(b)[j];
      r
  }

  /** `operator==`: its loop is the same as that of `isEqual`. */
  function Equals(a: CanonicalPath, b: CanonicalPath): (r: bool)
    ensures r <==> Names(a) == Names(b)
  {
    IsEqual(a, b)
  }

  /** `isEqualByName` is declared but not defined in the source; it is taken to
      compare names only, like `isEqual`. */
  function IsEqualByName(a: CanonicalPath, b: CanonicalPath): (r: bool)
    ensures r <==> Names(a) == Names(b)
  {
    IsEqual(a, b)
  }

  lemma IsEqualIsEquivalence(a: CanonicalPath, b: CanonicalPath, c: CanonicalPath)
    ensures IsEqual(a, a)
    ensures IsEqual(a, b) ==> IsEqual(b, a)
    ensures IsEqual(a, b) && IsEqual(b, c) ==> IsEqual(a, c)
  {
  }

  /** Node ids and crate numbers never affect equality. */
  lemma IsEqualIgnoresIds(a: CanonicalPath, b: CanonicalPath)
    requires |a.segments| == |b.segments|
    requires forall i :: 0 <= i < |a.segments| ==> a.segments[i].name == b.segments[i].name
    ensures IsEqual(a, b) && Equals(a, b)
  {
  }

  /** `std::string` ordering: lexicographic on characters, a proper prefix first. */
  function StringLess(x: string, y: string): bool {
    if |y| == 0 then false
    else if |x| == 0 then true
    else if x[0] < y[0] then true
    else if y[0] < x[0] then false
    else StringLess(x[1..], y[1..])
  }

  lemma {:induction false} StringLessIrreflexive(x: string)
    ensures !StringLess(x, x)
  {
    if |x| > 0 {
      StringLessIrreflexive(x[1..]);
    }
  }

  /** The loop of `operator<` for equal sizes: some position from i on has a
      smaller name; it never stops on a greater one. */
  function AnyNameLessFrom(a: seq<Segment>, b: seq<Segment>, i: nat): (r: bool)
    requires |a| == |b| && i <= |a|
    ensures r <==> exists j :: i <= j < |a| && StringLess(a[j].name, b[j].name)
    decreases |a| - i
  {
    if i == |a| then false
    else if StringLess(a[i].name, b[i].name) then true
    else AnyNameLessFrom(a, b, i + 1)
  }

  /** `operator<`: shorter paths first; for equal sizes, true iff some position
      has a smaller name (node ids ignored). */
  function Less(a: CanonicalPath, b: CanonicalPath): (r: bool)
    ensures GetSize(a) < GetSize(b) ==> r
    ensures GetSize(a) > GetSize(b) ==> !r
    ensures GetSize(a) == GetSize(b) ==>
              (r <==> exists j :: 0 <= j < GetSize(a) && StringLess(Names(a)[j], Names(b)[j]))
  {
    if |a.segments| < |b.segments| then true
    else if |a.segments| > |b.segments| then false
    else
      var r := AnyNameLessFrom(a.segments, b.segments, 0);
      assert r ==> exists j :: 0 <= j < GetSize(a) && StringLess(Names(a)[j], Names(b)[j]) by {
        if r {
          var j :| 0 <= j < |a.segments| && StringLess(a.segments[j].name, b.segments[j].name);
          assert StringLess(Names(a)[j], Names(b)[j]);
        }
      }
      r
  }

  lemma LessIrreflexive(a: CanonicalPath)
    ensures !Less(a, a)
  {
    forall j | 0 <= j < GetSize(a) ensures !StringLess(Names(a)[j], Names(a)[j]) {
      StringLessIrreflexive(Names(a)[j]);
    }
  }

  /** `<` is not lexicographic and not asymmetric: [b, a] < [a, b] and
      [a, b] < [b, a] both hold. */
  lemma LessNotAsymmetric(x: NodeId, y: NodeId)
    ensures var ba := CanonicalPath([Segment(x, "b"), Segment(y, "a")], UnknownCrate);
            var ab := CanonicalPath([Segment(x, "a"), Segment(y, "b")], UnknownCrate);
            Less(ba, ab) && Less(ab, ba)
  {
    var ba := CanonicalPath([Segment(x, "b"), Segment(y, "a")], UnknownCrate);
    var ab := CanonicalPath([Segment(x, "a"), Segment(y, "b")], UnknownCrate);
    assert StringLess(Names(ba)[1], Names(ab)[1]);
    assert StringLess(Names(ab)[0], Names(ba)[0]);
  }

  /** `traitImplProjectionSegment`: one segment "<impl as trait>". */
  function TraitImplProjectionSegment(id: NodeId, traitSegment: CanonicalPath,
                                      implTypeSegment: CanonicalPath): (p: CanonicalPath)
    ensures GetSize(p) == 1 && GetNodeId(p) == id
    ensures AsString(p) == "<" + AsString(implTypeSegment) + " as " + AsString(traitSegment) + ">"
  {
    NewSegment(id, "<" + AsString(implTypeSegment) + " as " + AsString(traitSegment) + ">")
  }

  lemma EmptyAsString()
    ensures AsString(CreateEmpty()) == ""
  {
  }

  lemma NewSegmentAsString(id: NodeId, name: string)
    ensures AsString(NewSegment(id, name)) == name
  {
  }

  lemma {:induction false} JoinPathAppend(xs: seq<string>, ys: seq<string>)
    requires |xs| > 0 && |ys| > 0
    ensures JoinPath(xs + ys) == JoinPath(xs) + "::" + JoinPath(ys)
    decreases |xs|
  {
    if |xs| == 1 {
      assert (xs + ys)[1..] == ys;
    } else {
      assert (xs + ys)[1..] == xs[1..] + ys;
      JoinPathAppend(xs[1..], ys);
    }
  }

  /** Appending to a non-empty path joins the two renderings with "::";
      appending to an empty path renders as the appended path alone. */
  lemma AppendAsString(a: CanonicalPath, b: CanonicalPath)
    requires !IsEmpty(b)
    ensures !IsEmpty(a) ==> AsString(Append(a, b)) == AsString(a) + "::" + AsString(b)
    ensures IsEmpty(a) ==> AsString(Append(a, b)) == AsString(b)
  {
    var r := Append(a, b);
    assert Names(r) == Names(a) + Names(b);
    if !IsEmpty(a) {
      JoinPathAppend(Names(a), Names(b));
    } else {
      assert Names(r) == Names(b);
    }
  }
}
