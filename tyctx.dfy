/** `tyctx::TyCtx` (`TyCtx/TyCtx.cpp`, `include/TyCtx/TyCtx.h`): the store of
    finite maps keyed by NodeId that the type checker and the name resolver
    share, together with the arena of type objects those maps point into. */
module TypeContext {
  import opened Basic
  import opened CanonicalPaths
  import opened TyTy

  datatype NodeIdentity = NodeIdentity(nodeId: NodeId, crateNum: CrateNum, loc: Location)

  /** An `ast::Crate*`: only its name and node id are used here. */
  datatype CrateInfo = CrateInfo(crateName: string, nodeId: NodeId)

  /** An `ast::Enumeration*` (opaque) and an `ast::EnumItem*` (its node id and
      an opaque identity). */
  type EnumerationRef = nat
  datatype EnumItemRef = EnumItemRef(nodeId: NodeId, object: nat)

  /** A `sema::Adjustment`; its structure is not part of this model. */
  type Adjustment = nat

  /** The first NodeId the counter hands out (`nodeIdIter = 7`). */
  const FirstNodeId: NodeId := 7

  /** The surface names of the 18 named builtins `generateBuiltins`
      registers, in order (the unit type follows them as "()"). */
  const BuiltinSurfaceNames: seq<string> :=
    ["u8", "u16", "u32", "u64", "u128", "i8", "i16", "i32", "i64", "i128",
     "f32", "f64", "bool", "usize", "isize", "char", "str", "!"]

  /** The type objects of the named builtins, in the same order. */
  const BuiltinData: seq<TypeData> :=
    [UintType(U8), UintType(U16), UintType(U32), UintType(U64), UintType(U128),
     IntType(I8), IntType(I16), IntType(I32), IntType(I64), IntType(I128),
     FloatType(F32), FloatType(F64), BoolType, USizeType, ISizeType, CharType,
     StrType, NeverType]

  /** What `toString` gives for each named builtin; note "i28" at index 9. */
  const BuiltinRenderings: seq<string> :=
    ["u8", "u16", "u32", "u64", "u128", "i8", "i16", "i32", "i64", "i28",
     "f32", "f64", "bool", "usize", "isize", "char", "str", "!"]

  /** The tables list the builtins in the order generateBuiltins registers them. */
  lemma BuiltinTablesInOrder()
    ensures [] + ["u8"] + ["u16"] + ["u32"] + ["u64"] + ["u128"] + ["i8"] + ["i16"] + ["i32"] + ["i64"] + ["i128"] + ["f32"] + ["f64"] + ["bool"] + ["usize"] + ["isize"] + ["char"] + ["str"] + ["!"] == BuiltinSurfaceNames
    ensures [] + [UintType(U8)] + [UintType(U16)] + [UintType(U32)] + [UintType(U64)] + [UintType(U128)] + [IntType(I8)] + [IntType(I16)] + [IntType(I32)] + [IntType(I64)] + [IntType(I128)] + [FloatType(F32)] + [FloatType(F64)] + [BoolType] + [USizeType] + [ISizeType] + [CharType] + [StrType] + [NeverType] == BuiltinData
  {
  }

  /** The renderings of the whole builtins list: the named builtins, then unit. */
  const BuiltinListRenderings: seq<string> := BuiltinRenderings + ["()"]

  /** The capture table after `insertClosureCapture(c, x)`: c gains an entry
      if it had none, its set gains x, and every other entry is kept. */
  function WithCapture(m: map<NodeId, set<NodeId>>, c: NodeId, x: NodeId): (r: map<NodeId, set<NodeId>>)
    ensures r.Keys == m.Keys + {c}
    ensures r[c] == CapturesOf(m, c) + {x}
    ensures forall d :: d in m && d != c ==> r[d] == m[d]
  {
    if c in m then m[c := m[c] + {x}] else m[c := {x}]
  }

  /** `getCaptures` on a table: what is recorded for c, and nothing for a
      closure without an entry. */
  function CapturesOf(m: map<NodeId, set<NodeId>>, c: NodeId): (r: set<NodeId>)
    ensures forall y :: y in r <==> c in m && y in m[c]
  {
    if c in m then m[c] else {}
  }

  /** Recording a capture adds exactly that item to that closure's set. */
  lemma WithCaptureCollects(m: map<NodeId, set<NodeId>>, c: NodeId, x: NodeId, d: NodeId)
    ensures CapturesOf(WithCapture(m, c, x), c) == CapturesOf(m, c) + {x}
    ensures d != c ==> CapturesOf(WithCapture(m, c, x), d) == CapturesOf(m, d)
  {
  }

  /** Capture recording is a set union: repeating one changes nothing and the
      order of two recordings does not matter. */
  lemma WithCaptureIdempotentAndCommutative(m: map<NodeId, set<NodeId>>, c: NodeId, x: NodeId,
                                            d: NodeId, y: NodeId)
    ensures WithCapture(WithCapture(m, c, x), c, x) == WithCapture(m, c, x)
    ensures WithCapture(WithCapture(m, c, x), d, y) == WithCapture(WithCapture(m, d, y), c, x)
  {
    assert CapturesOf(m, c) + {x} + {x} == CapturesOf(m, c) + {x};
    if c in m {
      assert WithCapture(WithCapture(m, c, x), c, x) == m[c := m[c] + {x} + {x}];
    } else {
      assert {x} + {x} == {x};
      assert WithCapture(WithCapture(m, c, x), c, x) == m[c := {x} + {x}];
    }
    var l := WithCapture(WithCapture(m, c, x), d, y);
    var r := WithCapture(WithCapture(m, d, y), c, x);
    assert l.Keys == r.Keys;
    forall k | k in l.Keys ensures l[k] == r[k] {
      if k == c && k == d {
        assert l[k] == CapturesOf(m, k) + {x} + {y};
        assert r[k] == CapturesOf(m, k) + {y} + {x};
      }
    }
  }

  /** The module-children table after `insertModuleChildItem(module, child)`. */
  function WithModuleChild(m: map<NodeId, seq<CanonicalPath>>, moduleId: NodeId, child: CanonicalPath)
    : map<NodeId, seq<CanonicalPath>>
  {
    if moduleId in m then m[moduleId := m[moduleId] + [child]] else m[moduleId := [child]]
  }

  /** The path table after `insertCanonicalPath(id, path)`: `emplace` never
      replaces an existing entry. */
  function WithCanonicalPath(m: map<NodeId, CanonicalPath>, id: NodeId, path: CanonicalPath)
    : map<NodeId, CanonicalPath>
  {
    if id in m then m else m[id := path]
  }

  /** The first path stored for an id stays: no later insertion replaces it. */
  lemma {:induction false} CanonicalPathFirstWins(m: map<NodeId, CanonicalPath>, id: NodeId,
                                                  inserts: seq<(NodeId, CanonicalPath)>)
    requires id in m
    ensures id in InsertAll(m, inserts) && InsertAll(m, inserts)[id] == m[id]
    decreases |inserts|
  {
    if inserts != [] {
      var m1 := WithCanonicalPath(m, inserts[0].0, inserts[0].1);
      assert id in m1 && m1[id] == m[id];
      CanonicalPathFirstWins(m1, id, inserts[1..]);
    }
  }

  function InsertAll(m: map<NodeId, CanonicalPath>, inserts: seq<(NodeId, CanonicalPath)>)
    : map<NodeId, CanonicalPath>
    decreases |inserts|
  {
    if inserts == [] then m
    else InsertAll(WithCanonicalPath(m, inserts[0].0, inserts[0].1), inserts[1..])
  }

  /** The builtins are leaves, so any ranking of them is acyclic. */
  lemma BuiltinsRanked(types: map<Handle, BaseType>, resolved: map<NodeId, Handle>, hs: seq<Handle>)
    requires |hs| == |BuiltinData| + 1
    requires forall i :: 0 <= i < |BuiltinData| ==> hs[i] in types && types[hs[i]].data == BuiltinData[i]
    requires hs[|BuiltinData|] in types && types[hs[|BuiltinData|]].data == TupleType([])
    ensures Ranked(types, resolved, map h | h in hs :: 0)
  {
    forall i | 0 <= i < |hs| ensures hs[i] in types && Children(types[hs[i]], resolved) == {} {
      if i < |BuiltinData| {
        BuiltinDataShape(i);
      }
      NoChildren(types[hs[i]], resolved);
    }
    LeavesRanked(types, resolved, hs);
  }

  lemma BuiltinDataShape(i: nat)
    requires i < |BuiltinData|
    ensures TypeVars(BuiltinData[i]) == {} && Pointers(BuiltinData[i]) == {}
    ensures LeafName(BuiltinData[i]) == Some(BuiltinRenderings[i])
  {
    assert i == 0 || i == 1 || i == 2 || i == 3 || i == 4 || i == 5 || i == 6 || i == 7 ||
           i == 8 || i == 9 || i == 10 || i == 11 || i == 12 || i == 13 || i == 14 ||
           i == 15 || i == 16 || i == 17;
  }

  /** Each builtin renders as its entry of BuiltinListRenderings. */
  lemma BuiltinsRender(types: map<Handle, BaseType>, resolved: map<NodeId, Handle>, hs: seq<Handle>,
                       rank: map<Handle, nat>)
    requires Closed(types, resolved) && Ranked(types, resolved, rank)
    requires |hs| == |BuiltinData| + 1 && forall i :: 0 <= i < |hs| ==> hs[i] in rank
    requires forall i :: 0 <= i < |BuiltinData| ==> types[hs[i]].data == BuiltinData[i]
    requires types[hs[|BuiltinData|]].data == TupleType([])
    ensures var rs := Renderings(types, resolved, hs, rank);
            None !in rs && forall i :: 0 <= i < |rs| ==> rs[i] == Some(BuiltinListRenderings[i])
  {
    forall i | 0 <= i < |hs| ensures Render(types, resolved, hs[i], rank) == Some(BuiltinListRenderings[i]) {
      BuiltinRendersAt(types, resolved, hs, rank, i);
    }
  }

  lemma BuiltinRendersAt(types: map<Handle, BaseType>, resolved: map<NodeId, Handle>, hs: seq<Handle>,
                         rank: map<Handle, nat>, i: nat)
    requires Closed(types, resolved) && Ranked(types, resolved, rank)
    requires |hs| == |BuiltinData| + 1 && i < |hs| && hs[i] in rank
    requires i < |BuiltinData| ==> types[hs[i]].data == BuiltinData[i]
    requires i == |BuiltinData| ==> types[hs[i]].data == TupleType([])
    ensures Render(types, resolved, hs[i], rank) == Some(BuiltinListRenderings[i])
  {
    if i < |BuiltinData| {
      BuiltinDataShape(i);
      RenderLeaf(types, resolved, hs[i], rank);
    } else {
      RenderUnit(types, resolved, hs[i], rank);
    }
  }

  /** Because I128 renders as "i28", no builtin renders as "i128"; every other
      surface name is the rendering at its own index, and the renderings are
      pairwise distinct. */
  lemma I128IsNoBuiltinRendering()
    ensures "i128" !in BuiltinListRenderings
    ensures forall k :: 0 <= k < |BuiltinSurfaceNames| && k != 9 ==> BuiltinListRenderings[k] == BuiltinSurfaceNames[k]
    ensures |BuiltinListRenderings| == |BuiltinData| + 1 && BuiltinListRenderings[|BuiltinData|] == "()"
    ensures forall i, j :: 0 <= i < j < |BuiltinListRenderings| ==> BuiltinListRenderings[i] != BuiltinListRenderings[j]
  {
  }

  /** Where `lookupBuiltin(name)` stops on the builtins list right after
      construction, when it stops at index i. */
  lemma FirstBuiltinRendering(name: string, i: nat)
    requires i < |BuiltinListRenderings| && BuiltinListRenderings[i] == name
    requires forall j :: 0 <= j < i ==> BuiltinListRenderings[j] != name
    ensures name != "i128"
    ensures forall k :: 0 <= k < |BuiltinSurfaceNames| && k != 9 && name == BuiltinSurfaceNames[k] ==> i == k
    ensures name == "()" ==> i == |BuiltinData|
  {
    I128IsNoBuiltinRendering();
  }

  /** A name that no builtin renders as is neither a surface name other than
      "i128" nor "()". */
  lemma NoBuiltinRendering(name: string)
    requires forall j :: 0 <= j < |BuiltinListRenderings| ==> BuiltinListRenderings[j] != name
    ensures forall k :: 0 <= k < |BuiltinSurfaceNames| && k != 9 ==> name != BuiltinSurfaceNames[k]
    ensures name != "()"
  {
    I128IsNoBuiltinRendering();
  }

  /** The `toString()` of every object in hs, in order. */
  function Renderings(types: map<Handle, BaseType>, resolved: map<NodeId, Handle>, hs: seq<Handle>,
                      ghost rank: map<Handle, nat>): (rs: seq<Option<string>>)
    requires Closed(types, resolved) && Ranked(types, resolved, rank)
    requires forall i :: 0 <= i < |hs| ==> hs[i] in rank
    ensures |rs| == |hs|
    ensures forall i :: 0 <= i < |hs| ==> rs[i] == Render(types, resolved, hs[i], rank)
  {
    seq(|hs|, i requires 0 <= i < |hs| => Render(types, resolved, hs[i], rank))
  }

  /** The index `lookupBuiltin(name)` stops at, scanning the renderings rs
      from `from`: the first one that is name. */
  function FirstRendering(rs: seq<Option<string>>, name: string, from: nat): (k: Option<nat>)
    requires from <= |rs|
    ensures k.Some? ==> from <= k.value < |rs|
    decreases |rs| - from
  {
    if from == |rs| then None
    else if rs[from] == Some(name) then Some(from)
    else FirstRendering(rs, name, from + 1)
  }

  /** FirstRendering finds a rendering that is name with none before it,
      or reports that none from `from` on is name. */
  lemma {:induction false} FirstRenderingMeaning(rs: seq<Option<string>>, name: string, from: nat)
    requires from <= |rs|
    ensures var k := FirstRendering(rs, name, from);
            k.Some? ==> from <= k.value < |rs| && rs[k.value] == Some(name) &&
                        forall j :: from <= j < k.value ==> rs[j] != Some(name)
    ensures FirstRendering(rs, name, from).None? <==> forall j :: from <= j < |rs| ==> rs[j] != Some(name)
    decreases |rs| - from
  {
    if from < |rs| && rs[from] != Some(name) {
      FirstRenderingMeaning(rs, name, from + 1);
    }
  }

  /** What `lookupBuiltin(name)` finds in renderings that are
      BuiltinListRenderings. */
  lemma LookupInBuiltinList(rs: seq<Option<string>>, name: string)
    requires |rs| == |BuiltinListRenderings|
    requires forall i :: 0 <= i < |rs| ==> rs[i] == Some(BuiltinListRenderings[i])
    ensures var k := FirstRendering(rs, name, 0);
            (name == "i128" ==> k.None?) &&
            (forall i :: 0 <= i < |BuiltinSurfaceNames| && i != 9 && name == BuiltinSurfaceNames[i] ==> k == Some(i)) &&
            (name == "()" ==> k == Some(|BuiltinData|))
  {
    FirstRenderingMeaning(rs, name, 0);
    var k := FirstRendering(rs, name, 0);
    if k.Some? {
      FirstBuiltinRendering(name, k.value);
    } else {
      NoBuiltinRendering(name);
    }
  }

  /** list and bs start with builtins of the
      given names and data, each with its one-segment canonical path. */
  ghost predicate BuiltinsNamed(types: map<Handle, BaseType>, list: seq<Handle>, bs: seq<(string, NodeId)>,
                                paths: map<NodeId, CanonicalPath>,
                                names: seq<string>, datas: seq<TypeData>)
  {
    |datas| == |names| && |names| <= |list| && |names| <= |bs| &&
    forall i :: 0 <= i < |names| ==>
      list[i] in types && types[list[i]].data == datas[i] &&
      bs[i].0 == names[i] && bs[i].1 in paths &&
      paths[bs[i].1] == NewSegment(bs[i].1, names[i])
  }

  /** Registering one more named builtin, with a fresh object and a fresh
      AST node id, extends the named builtins by it. */
  lemma {:induction false} BuiltinsNamedExtend(types: map<Handle, BaseType>, list: seq<Handle>, bs: seq<(string, NodeId)>,
                             paths: map<NodeId, CanonicalPath>,
                             names: seq<string>, datas: seq<TypeData>,
                             h: Handle, t: BaseType, name: string, id: NodeId, bound: NodeId)
    requires BuiltinsNamed(types, list, bs, paths, names, datas)
    requires |list| == |names| && |bs| == |names|
    requires h !in types && (forall k :: k in paths ==> k < bound) && bound <= id
    ensures BuiltinsNamed(types[h := t], list + [h], bs + [(name, id)], paths[id := NewSegment(id, name)],
                          names + [name], datas + [t.data])
  {
    var types', list', bs', paths' := types[h := t], list + [h], bs + [(name, id)], paths[id := NewSegment(id, name)];
    var names', datas' := names + [name], datas + [t.data];
    assert |names'| == |names| + 1 && |datas'| == |names'|;
    forall i | 0 <= i < |names'|
      ensures list'[i] in types' && types'[list'[i]].data == datas'[i]
      ensures bs'[i].0 == names'[i] && bs'[i].1 in paths'
      ensures paths'[bs'[i].1] == NewSegment(bs'[i].1, names'[i])
    {
      if i < |names| {
        assert list'[i] == list[i] && bs'[i] == bs[i];
        assert datas[i] == datas'[i] && names[i] == names'[i];
        assert bs[i].1 in paths;
      } else {
        assert list'[i] == h && bs'[i] == (name, id);
      }
    }
    assert |names'| <= |list'| && |names'| <= |bs'|;
  }

  /** Appending an object without a canonical path keeps the named builtins. */
  lemma BuiltinsNamedKeep(types: map<Handle, BaseType>, list: seq<Handle>, bs: seq<(string, NodeId)>,
                          paths: map<NodeId, CanonicalPath>,
                          names: seq<string>, datas: seq<TypeData>,
                          h: Handle, t: BaseType, entry: (string, NodeId))
    requires BuiltinsNamed(types, list, bs, paths, names, datas) && h !in types
    ensures BuiltinsNamed(types[h := t], list + [h], bs + [entry], paths, names, datas)
  {
    var types', list', bs' := types[h := t], list + [h], bs + [entry];
    forall i | 0 <= i < |names|
      ensures list'[i] in types' && types'[list'[i]].data == datas[i]
      ensures bs'[i].0 == names[i] && bs'[i].1 in paths
      ensures paths[bs'[i].1] == NewSegment(bs'[i].1, names[i])
    {
      assert list'[i] == list[i] && bs'[i] == bs[i];
    }
    assert |names| <= |list'| && |names| <= |bs'|;
  }

  /** Each builtin in list is registered as `insertBuiltin` leaves it: the
      object under its reference id in resolved, and the AST node id of its
      entry in bs mapped to that reference in refs. */
  ghost predicate BuiltinsRegistered(types: map<Handle, BaseType>, list: seq<Handle>, bs: seq<(string, NodeId)>,
                                     resolved: map<NodeId, Handle>, refs: map<NodeId, NodeId>)
  {
    |bs| == |list| &&
    forall i :: 0 <= i < |list| ==>
      list[i] in types && types[list[i]].reference in resolved &&
      resolved[types[list[i]].reference] == list[i] &&
      bs[i].1 in refs && refs[bs[i].1] == types[list[i]].reference
  }

  /** Every id registered in resolved or refs is below next. */
  ghost predicate KeysBelow(resolved: map<NodeId, Handle>, refs: map<NodeId, NodeId>, next: NodeId)
  {
    (forall k :: k in resolved ==> k < next) && (forall k :: k in refs ==> k < next)
  }

  /** A fresh object in the arena leaves every registration as it was. */
  lemma BuiltinsRegisteredFresh(types: map<Handle, BaseType>, list: seq<Handle>, bs: seq<(string, NodeId)>,
                                resolved: map<NodeId, Handle>, refs: map<NodeId, NodeId>,
                                h: Handle, t: BaseType)
    requires BuiltinsRegistered(types, list, bs, resolved, refs) && h !in types
    ensures BuiltinsRegistered(types[h := t], list, bs, resolved, refs)
  {
    forall i | 0 <= i < |list| ensures types[h := t][list[i]] == types[list[i]] {
      assert list[i] in types;
    }
  }

  /** `insertBuiltin(ref, id, h)` for a live object h whose reference ref is
      above every registered id, and an AST node id above ref, keeps every
      earlier registration and adds its own. */
  lemma BuiltinsRegisteredExtend(types: map<Handle, BaseType>, list: seq<Handle>, bs: seq<(string, NodeId)>,
                                 resolved: map<NodeId, Handle>, refs: map<NodeId, NodeId>,
                                 h: Handle, entry: (string, NodeId))
    requires BuiltinsRegistered(types, list, bs, resolved, refs) && h in types
    requires KeysBelow(resolved, refs, types[h].reference) && types[h].reference < entry.1
    ensures BuiltinsRegistered(types, list + [h], bs + [entry],
                               resolved[types[h].reference := h], refs[entry.1 := types[h].reference])
    ensures KeysBelow(resolved[types[h].reference := h], refs[entry.1 := types[h].reference], entry.1 + 1)
  {
    var ref := types[h].reference;
    var list', bs' := list + [h], bs + [entry];
    var resolved', refs' := resolved[ref := h], refs[entry.1 := ref];
    forall i | 0 <= i < |list'|
      ensures list'[i] in types && types[list'[i]].reference in resolved'
      ensures resolved'[types[list'[i]].reference] == list'[i]
      ensures bs'[i].1 in refs' && refs'[bs'[i].1] == types[list'[i]].reference
    {
      if i < |list| {
        assert list'[i] == list[i] && bs'[i] == bs[i];
        assert types[list[i]].reference < ref && bs[i].1 < ref;
      } else {
        assert list'[i] == h && bs'[i] == entry;
      }
    }
  }

  class TyCtx {
    /** The arena of type objects; a Handle is a `BaseType*`. */
    var types: map<Handle, BaseType>
    var nextHandle: Handle
    /** The NodeId counter behind `getNextNodeId`. */
    var nextNodeId: NodeId

    var resolved: map<NodeId, Handle>
    var nodeIdRefs: map<NodeId, NodeId>
    var builtinsList: seq<Handle>
    /** (surface name, AST type node id) of every builtin. */
    var builtins: seq<(string, NodeId)>
    var unitTypeNodeId: Option<NodeId>
    var paths: map<NodeId, CanonicalPath>
    var moduleChildItems: map<NodeId, seq<CanonicalPath>>
    var childToParentModuleMap: map<NodeId, NodeId>
    var astCrateMappings: map<CrateNum, CrateInfo>
    var currentCrateNum: CrateNum
    var resolvedNames: map<NodeId, NodeId>
    var enumItemsMappings: map<NodeId, (EnumerationRef, EnumItemRef)>
    var autoderefMappings: map<NodeId, seq<Adjustment>>
    var closureCaptureMappings: map<NodeId, set<NodeId>>
    /** The table behind `lookupAssociatedTypeMapping` (its definition is not
        part of this model). */
    var associatedTypeMappings: map<NodeId, NodeId>

    /** The arena is closed under the pointers and TypeVariables it holds, and
        every handle issued is below the handle counter. */
    ghost predicate Valid()
      reads this
    {
      Closed(types, resolved) &&
      (forall g :: g in types ==> g < nextHandle) &&
      (forall i :: 0 <= i < |builtinsList| ==> builtinsList[i] in types)
    }

    /** Every canonical path is stored under an id the counter already issued. */
    ghost predicate PathsIssued()
      reads this
    {
      forall k :: k in paths ==> k < nextNodeId
    }

    /** The builtins with the given names and type objects sit, in order,
        at the start of builtinsList and builtins, each with its one-segment
        canonical path. */
    ghost predicate NamedBuiltins(names: seq<string>, datas: seq<TypeData>)
      reads this
    {
      BuiltinsNamed(types, builtinsList, builtins, paths, names, datas)
    }

    /** The builtins are registered under their reference ids, their AST
        node ids map to those references, and no other id is issued yet. */
    ghost predicate Registered()
      reads this
    {
      BuiltinsRegistered(types, builtinsList, builtins, resolved, nodeIdRefs) &&
      KeysBelow(resolved, nodeIdRefs, nextNodeId)
    }

    /** The tables other than the type arena, the registrations and the
        paths, as they were before: the builtin setup leaves them alone. */
    twostate predicate TablesKept()
      reads this
    {
      old(resolvedNames) == resolvedNames && old(enumItemsMappings) == enumItemsMappings &&
      old(autoderefMappings) == autoderefMappings && old(closureCaptureMappings) == closureCaptureMappings &&
      old(moduleChildItems) == moduleChildItems && old(childToParentModuleMap) == childToParentModuleMap &&
      old(astCrateMappings) == astCrateMappings && old(associatedTypeMappings) == associatedTypeMappings
    }

    /** The name, enum-item, autoderef, capture, module-child, parent-module,
        crate and associated-type tables hold no entry. */
    ghost predicate TablesEmpty()
      reads this`resolvedNames, this`enumItemsMappings, this`autoderefMappings, this`closureCaptureMappings,
            this`moduleChildItems, this`childToParentModuleMap, this`astCrateMappings, this`associatedTypeMappings
    {
      resolvedNames == map[] && enumItemsMappings == map[] && autoderefMappings == map[] &&
      closureCaptureMappings == map[] && moduleChildItems == map[] && childToParentModuleMap == map[] &&
      astCrateMappings == map[] && associatedTypeMappings == map[]
    }

    /** `TyCtx()`: an empty store, then `generateBuiltins`. Every builtin is
        then registered and every other table is empty. */
    constructor()
      ensures Valid() && PathsIssued()
      ensures TablesEmpty()
      ensures |builtinsList| == |BuiltinData| + 1 && |builtins| == |BuiltinData| + 1
      ensures forall i :: 0 <= i < |builtinsList| ==>
                types[builtinsList[i]].reference in resolved &&
                resolved[types[builtinsList[i]].reference] == builtinsList[i] &&
                builtins[i].1 in nodeIdRefs && nodeIdRefs[builtins[i].1] == types[builtinsList[i]].reference
      ensures NamedBuiltins(BuiltinSurfaceNames, BuiltinData)
      ensures types[builtinsList[|BuiltinData|]].data == TupleType([])
      ensures builtins[|BuiltinData|].0 == "()" && builtins[|BuiltinData|].1 !in paths
      ensures unitTypeNodeId == Some(builtins[|BuiltinData|].1)
      ensures currentCrateNum == UnknownCrate
    {
      types := map[];
      nextHandle := 0;
      nextNodeId := FirstNodeId;
      resolved := map[];
      nodeIdRefs := map[];
      builtinsList := [];
      builtins := [];
      unitTypeNodeId := None;
      paths := map[];
      moduleChildItems := map[];
      childToParentModuleMap := map[];
      astCrateMappings := map[];
      currentCrateNum := UnknownCrate;
      resolvedNames := map[];
      enumItemsMappings := map[];
      autoderefMappings := map[];
      closureCaptureMappings := map[];
      associatedTypeMappings := map[];
      new;
      assert TablesEmpty();
      GenerateBuiltins();
    }

    /** `getNextNodeId`: hands out the counter value and advances it. */
    method NextNodeId() returns (id: NodeId)
      modifies this`nextNodeId
      ensures TablesKept()
      ensures id == old(nextNodeId) && nextNodeId == id + 1
    {
      id := nextNodeId;
      nextNodeId := nextNodeId + 1;
    }

    /** `new XType(...)`: a fresh object in the arena; the objects and
        TypeVariables it refers to must already exist. */
    method NewType(t: BaseType) returns (h: Handle)
      requires Valid()
      requires TypeVars(t.data) <= resolved.Keys && Pointers(t.data) <= types.Keys
      modifies this`types, this`nextHandle
      ensures Valid()
      ensures h !in old(types) && types == old(types)[h := t]
      ensures nextHandle > old(nextHandle)
    {
      h := nextHandle;
      ClosedStore(types, resolved, h, t);
      types := types[h := t];
      nextHandle := nextHandle + 1;
    }

    /** Writing the fields of the live object at h in place; the objects
        and TypeVariables it then refers to must exist. */
    method SetObject(h: Handle, t: BaseType)
      requires Valid() && h in types
      requires TypeVars(t.data) <= resolved.Keys && Pointers(t.data) <= types.Keys
      modifies this`types
      ensures Valid()
      ensures types == old(types)[h := t]
    {
      ClosedStore(types, resolved, h, t);
      types := types[h := t];
    }

    /** `lookupType`: the registered object, or none. */
    function LookupType(id: NodeId): (r: Option<Handle>)
      reads this
      ensures r.Some? <==> id in resolved
      ensures r.Some? && Valid() ==> r.value in types && r.value == resolved[id]
    {
      if id in resolved then Some(resolved[id]) else None
    }

    /** `insertType`: the last write for an id wins. */
    method InsertType(id: NodeIdentity, h: Handle)
      requires Valid() && h in types
      modifies this`resolved
      ensures Valid()
      ensures resolved == old(resolved)[id.nodeId := h]
      ensures LookupType(id.nodeId) == Some(h)
      ensures forall k :: k != id.nodeId ==> LookupType(k) == old(LookupType(k))
    {
      ClosedRegister(types, resolved, id.nodeId, h);
      resolved := resolved[id.nodeId := h];
    }

    /** `insertImplicitType`: overwrites `resolved[id]`. */
    method InsertImplicitType(id: NodeId, h: Handle)
      requires Valid() && h in types
      modifies this`resolved
      ensures Valid()
      ensures LookupType(id) == Some(h)
      ensures forall k :: k != id ==> LookupType(k) == old(LookupType(k))
    {
      ClosedRegister(types, resolved, id, h);
      resolved := resolved[id := h];
    }

    /** `insertBuiltin`: records ref -> id, registers the type under id and
        appends it to the owned builtins list. */
    method InsertBuiltin(id: NodeId, ref: NodeId, h: Handle)
      requires Valid() && h in types
      modifies this`resolved, this`nodeIdRefs, this`builtinsList
      ensures TablesKept()
      ensures Valid()
      ensures nodeIdRefs == old(nodeIdRefs)[ref := id]
      ensures resolved == old(resolved)[id := h]
      ensures LookupType(id) == Some(h)
      ensures forall k :: k != id ==> LookupType(k) == old(LookupType(k))
      ensures builtinsList == old(builtinsList) + [h]
    {
      nodeIdRefs := nodeIdRefs[ref := id];
      ClosedRegister(types, resolved, id, h);
      resolved := resolved[id := h];
      builtinsList := builtinsList + [h];
    }

    /** `lookupBuiltin`: the first owned builtin whose `toString()` is name,
        or null. Every `toString` it reaches must be one that does not abort. */
    method LookupBuiltin(name: string, ghost rank: map<Handle, nat>) returns (r: Option<Handle>)
      requires Valid() && Ranked(types, resolved, rank)
      requires forall i :: 0 <= i < |builtinsList| ==> builtinsList[i] in rank
      requires None !in Renderings(types, resolved, builtinsList, rank)
      ensures var k := FirstRendering(Renderings(types, resolved, builtinsList, rank), name, 0);
              r == if k.Some? then Some(builtinsList[k.value]) else None
    {
      ghost var rs := Renderings(types, resolved, builtinsList, rank);
      var i := 0;
      while i < |builtinsList|
        invariant 0 <= i <= |builtinsList|
        invariant FirstRendering(rs, name, 0) == FirstRendering(rs, name, i)
      {
        var s := ToString(types, resolved, builtinsList[i], rank);
        if s == Some(name) {
          return Some(builtinsList[i]);
        }
        i := i + 1;
      }
      return None;
    }

    /** The consequence of "i28": right after construction,
        `lookupBuiltin("i128")` finds nothing, while every other surface name
        finds the builtin registered under it. */
    method LookupBuiltinAfterSetup(name: string) returns (r: Option<Handle>)
      requires Valid() && |builtinsList| == |BuiltinData| + 1
      requires NamedBuiltins(BuiltinSurfaceNames, BuiltinData)
      requires types[builtinsList[|BuiltinData|]].data == TupleType([])
      ensures name == "i128" ==> r.None?
      ensures forall i :: 0 <= i < |BuiltinSurfaceNames| && i != 9 && name == BuiltinSurfaceNames[i] ==>
                r == Some(builtinsList[i])
      ensures name == "()" ==> r == Some(builtinsList[|BuiltinData|])
    {
      ghost var rank := map h | h in builtinsList :: 0;
      BuiltinsRanked(types, resolved, builtinsList);
      BuiltinsRender(types, resolved, builtinsList, rank);
      ghost var rs := Renderings(types, resolved, builtinsList, rank);
      r := LookupBuiltin(name, rank);
      LookupInBuiltinList(rs, name);
    }

    /** `setupBuiltin`: a builtin type path with a fresh node id, its entry in
        `builtins`, its registration, and its one-segment canonical path. */
    method SetupBuiltin(name: string, h: Handle)
      requires Valid() && PathsIssued() && h in types
      modifies this`nextNodeId, this`builtins, this`resolved, this`nodeIdRefs, this`builtinsList, this`paths
      ensures TablesKept()
      ensures Valid() && PathsIssued()
      ensures nextNodeId == old(nextNodeId) + 1
      ensures builtins == old(builtins) + [(name, old(nextNodeId))]
      ensures builtinsList == old(builtinsList) + [h]
      ensures resolved == old(resolved)[types[h].reference := h]
      ensures nodeIdRefs == old(nodeIdRefs)[old(nextNodeId) := types[h].reference]
      ensures paths == old(paths)[old(nextNodeId) := NewSegment(old(nextNodeId), name)]
      ensures old(BuiltinsRegistered(types, builtinsList, builtins, resolved, nodeIdRefs) &&
                  KeysBelow(resolved, nodeIdRefs, types[h].reference) && types[h].reference < nextNodeId) ==>
              Registered()
    {
      ghost var list0, bs0, resolved0, refs0 := builtinsList, builtins, resolved, nodeIdRefs;
      var typePathId := NextNodeId();
      builtins := builtins + [(name, typePathId)];
      InsertBuiltin(types[h].reference, typePathId, h);
      InsertCanonicalPath(typePathId, NewSegment(typePathId, name));
      if BuiltinsRegistered(types, list0, bs0, resolved0, refs0) &&
         KeysBelow(resolved0, refs0, types[h].reference) && types[h].reference < typePathId {
        BuiltinsRegisteredExtend(types, list0, bs0, resolved0, refs0, h, (name, typePathId));
      }
    }

    /** One `make_unique<XType>(getNextNodeId(), ...)` followed by
        `setupBuiltin(name, ...)`, for the k-th named builtin. */
    method RegisterBuiltin(name: string, d: TypeData, ghost names: seq<string>, ghost datas: seq<TypeData>)
      returns (ghost names': seq<string>, ghost datas': seq<TypeData>)
      requires Valid() && PathsIssued() && IsScalarBuiltin(d)
      requires |builtinsList| == |names| && |builtins| == |names|
      requires NamedBuiltins(names, datas) && Registered()
      modifies this`nextNodeId, this`types, this`nextHandle, this`builtins, this`resolved,
               this`nodeIdRefs, this`builtinsList, this`paths
      ensures TablesKept()
      ensures names' == names + [name] && datas' == datas + [d]
      ensures Valid() && PathsIssued()
      ensures |builtinsList| == |names'| && |builtins| == |names'|
      ensures NamedBuiltins(names', datas') && Registered()
    {
      ScalarBuiltinRefersToNothing(d);
      ghost var id, types0, list0, bs0, paths0 := nextNodeId, types, builtinsList, builtins, paths;
      var h := AllocBuiltin(d, EmptyIdentity);
      SetupBuiltin(name, h);
      names', datas' := names + [name], datas + [d];
      BuiltinsNamedExtend(types0, list0, bs0, paths0, names, datas, h, types[h], name, id + 1, id);
    }

    /** The first half of every builtin in `generateBuiltins`: a fresh node id
        and an object `XType(id, id, ...)` with that id, which refers to no
        other type; every builtin already registered stays registered. */
    method AllocBuiltin(d: TypeData, ident: TypeIdentity) returns (h: Handle)
      requires Valid() && PathsIssued() && Registered()
      requires TypeVars(d) == {} && Pointers(d) == {}
      modifies this`nextNodeId, this`types, this`nextHandle
      ensures TablesKept()
      ensures Valid() && PathsIssued()
      ensures nextNodeId == old(nextNodeId) + 1
      ensures h !in old(types) && types == old(types)[h := BaseType(old(nextNodeId), old(nextNodeId), ident, [], {}, d)]
      ensures BuiltinsRegistered(types, builtinsList, builtins, resolved, nodeIdRefs)
      ensures KeysBelow(resolved, nodeIdRefs, types[h].reference) && types[h].reference < nextNodeId
    {
      var id := NextNodeId();
      ghost var types0 := types;
      h := NewType(BaseType(id, id, ident, [], {}, d));
      BuiltinsRegisteredFresh(types0, builtinsList, builtins, resolved, nodeIdRefs, h, BaseType(id, id, ident, [], {}, d));
    }

    /** `generateBuiltins`, called once from the constructor: the 18 named
        builtins in source order, then the unit type, which gets no
        canonical path. */
    method GenerateBuiltins()
      requires Valid() && PathsIssued() && builtinsList == [] && builtins == []
      requires KeysBelow(resolved, nodeIdRefs, nextNodeId)
      modifies this`nextNodeId, this`types, this`nextHandle, this`builtins, this`resolved,
               this`nodeIdRefs, this`builtinsList, this`paths, this`unitTypeNodeId
      ensures TablesKept()
      ensures Valid() && PathsIssued()
      ensures |builtinsList| == |BuiltinData| + 1 && |builtins| == |BuiltinData| + 1
      ensures forall i :: 0 <= i < |builtinsList| ==>
                types[builtinsList[i]].reference in resolved &&
                resolved[types[builtinsList[i]].reference] == builtinsList[i] &&
                builtins[i].1 in nodeIdRefs && nodeIdRefs[builtins[i].1] == types[builtinsList[i]].reference
      ensures NamedBuiltins(BuiltinSurfaceNames, BuiltinData)
      ensures types[builtinsList[|BuiltinData|]].data == TupleType([])
      ensures builtins[|BuiltinData|].0 == "()" && builtins[|BuiltinData|].1 !in paths
      ensures unitTypeNodeId == Some(builtins[|BuiltinData|].1)
    {
      ghost var ns: seq<string> := [];
      ghost var ds: seq<TypeData> := [];
      ns, ds := RegisterUnsignedIntegers(ns, ds);
      ns, ds := RegisterSignedIntegers(ns, ds);
      ns, ds := RegisterFloatsAndBool(ns, ds);
      ns, ds := RegisterSizesAndText(ns, ds);
      BuiltinTablesInOrder();
      RegisterUnitType(ns, ds);
    }

    /** The unsigned integer builtins of `generateBuiltins`, in source order. */
    method RegisterUnsignedIntegers(ghost names: seq<string>, ghost datas: seq<TypeData>)
      returns (ghost names': seq<string>, ghost datas': seq<TypeData>)
      requires Valid() && PathsIssued()
      requires |builtinsList| == |names| && |builtins| == |names|
      requires NamedBuiltins(names, datas) && Registered()
      modifies this`nextNodeId, this`types, this`nextHandle, this`builtins, this`resolved,
               this`nodeIdRefs, this`builtinsList, this`paths
      ensures TablesKept()
      ensures names' == names + ["u8"] + ["u16"] + ["u32"] + ["u64"] + ["u128"]
      ensures datas' == datas + [UintType(U8)] + [UintType(U16)] + [UintType(U32)] + [UintType(U64)] + [UintType(U128)]
      ensures Valid() && PathsIssued()
      ensures |builtinsList| == |names'| && |builtins| == |names'|
      ensures NamedBuiltins(names', datas') && Registered()
    {
      names', datas' := names, datas;
      names', datas' := RegisterBuiltin("u8", UintType(U8), names', datas');
      names', datas' := RegisterBuiltin("u16", UintType(U16), names', datas');
      names', datas' := RegisterBuiltin("u32", UintType(U32), names', datas');
      names', datas' := RegisterBuiltin("u64", UintType(U64), names', datas');
      names', datas' := RegisterBuiltin("u128", UintType(U128), names', datas');
    }

    /** The signed integer builtins of `generateBuiltins`, in source order. */
    method RegisterSignedIntegers(ghost names: seq<string>, ghost datas: seq<TypeData>)
      returns (ghost names': seq<string>, ghost datas': seq<TypeData>)
      requires Valid() && PathsIssued()
      requires |builtinsList| == |names| && |builtins| == |names|
      requires NamedBuiltins(names, datas) && Registered()
      modifies this`nextNodeId, this`types, this`nextHandle, this`builtins, this`resolved,
               this`nodeIdRefs, this`builtinsList, this`paths
      ensures TablesKept()
      ensures names' == names + ["i8"] + ["i16"] + ["i32"] + ["i64"] + ["i128"]
      ensures datas' == datas + [IntType(I8)] + [IntType(I16)] + [IntType(I32)] + [IntType(I64)] + [IntType(I128)]
      ensures Valid() && PathsIssued()
      ensures |builtinsList| == |names'| && |builtins| == |names'|
      ensures NamedBuiltins(names', datas') && Registered()
    {
      names', datas' := names, datas;
      names', datas' := RegisterBuiltin("i8", IntType(I8), names', datas');
      names', datas' := RegisterBuiltin("i16", IntType(I16), names', datas');
      names', datas' := RegisterBuiltin("i32", IntType(I32), names', datas');
      names', datas' := RegisterBuiltin("i64", IntType(I64), names', datas');
      names', datas' := RegisterBuiltin("i128", IntType(I128), names', datas');
    }

    /** The float and bool builtins of `generateBuiltins`, in source order. */
    method RegisterFloatsAndBool(ghost names: seq<string>, ghost datas: seq<TypeData>)
      returns (ghost names': seq<string>, ghost datas': seq<TypeData>)
      requires Valid() && PathsIssued()
      requires |builtinsList| == |names| && |builtins| == |names|
      requires NamedBuiltins(names, datas) && Registered()
      modifies this`nextNodeId, this`types, this`nextHandle, this`builtins, this`resolved,
               this`nodeIdRefs, this`builtinsList, this`paths
      ensures TablesKept()
      ensures names' == names + ["f32"] + ["f64"] + ["bool"]
      ensures datas' == datas + [FloatType(F32)] + [FloatType(F64)] + [BoolType]
      ensures Valid() && PathsIssued()
      ensures |builtinsList| == |names'| && |builtins| == |names'|
      ensures NamedBuiltins(names', datas') && Registered()
    {
      names', datas' := names, datas;
      names', datas' := RegisterBuiltin("f32", FloatType(F32), names', datas');
      names', datas' := RegisterBuiltin("f64", FloatType(F64), names', datas');
      names', datas' := RegisterBuiltin("bool", BoolType, names', datas');
    }

    /** The usize, isize, char, str and never builtins of `generateBuiltins`, in source order. */
    method RegisterSizesAndText(ghost names: seq<string>, ghost datas: seq<TypeData>)
      returns (ghost names': seq<string>, ghost datas': seq<TypeData>)
      requires Valid() && PathsIssued()
      requires |builtinsList| == |names| && |builtins| == |names|
      requires NamedBuiltins(names, datas) && Registered()
      modifies this`nextNodeId, this`types, this`nextHandle, this`builtins, this`resolved,
               this`nodeIdRefs, this`builtinsList, this`paths
      ensures TablesKept()
      ensures names' == names + ["usize"] + ["isize"] + ["char"] + ["str"] + ["!"]
      ensures datas' == datas + [USizeType] + [ISizeType] + [CharType] + [StrType] + [NeverType]
      ensures Valid() && PathsIssued()
      ensures |builtinsList| == |names'| && |builtins| == |names'|
      ensures NamedBuiltins(names', datas') && Registered()
    {
      names', datas' := names, datas;
      names', datas' := RegisterBuiltin("usize", USizeType, names', datas');
      names', datas' := RegisterBuiltin("isize", ISizeType, names', datas');
      names', datas' := RegisterBuiltin("char", CharType, names', datas');
      names', datas' := RegisterBuiltin("str", StrType, names', datas');
      names', datas' := RegisterBuiltin("!", NeverType, names', datas');
    }

    /** The tail of `generateBuiltins`: the unit type under a fresh id, its
        AST node in `builtins` as "()", and its registration. */
    method RegisterUnitType(ghost names: seq<string>, ghost datas: seq<TypeData>)
      requires Valid() && PathsIssued()
      requires |builtinsList| == |names| && |builtins| == |names|
      requires NamedBuiltins(names, datas) && Registered()
      modifies this`nextNodeId, this`types, this`nextHandle, this`builtins, this`resolved,
               this`nodeIdRefs, this`builtinsList, this`unitTypeNodeId
      ensures TablesKept()
      ensures Valid() && PathsIssued() && Registered()
      ensures |builtinsList| == |names| + 1
      ensures |builtins| == |names| + 1
      ensures NamedBuiltins(names, datas)
      ensures types[builtinsList[|builtinsList| - 1]].data == TupleType([])
      ensures builtins[|builtins| - 1].0 == "()" && builtins[|builtins| - 1].1 !in paths
      ensures unitTypeNodeId == Some(builtins[|builtins| - 1].1)
    {
      ghost var types0, list0, bs0 := types, builtinsList, builtins;
      var unitType := AllocBuiltin(TupleType([]), IdentityFrom(BuiltinLocation));
      var emptyTupleType := SetupUnitBuiltin(unitType);
      BuiltinsNamedKeep(types0, list0, bs0, paths, names, datas, unitType, types[unitType], ("()", emptyTupleType));
      unitTypeNodeId := Some(emptyTupleType);
    }

    /** The AST node of the unit type (`new ast::types::TupleType`), its entry
        "()" in `builtins`, and `insertBuiltin`. */
    method SetupUnitBuiltin(h: Handle) returns (emptyTupleType: NodeId)
      requires Valid() && PathsIssued() && h in types
      modifies this`nextNodeId, this`builtins, this`resolved, this`nodeIdRefs, this`builtinsList
      ensures TablesKept()
      ensures Valid() && PathsIssued()
      ensures emptyTupleType == old(nextNodeId) && nextNodeId == old(nextNodeId) + 1
      ensures builtins == old(builtins) + [("()", emptyTupleType)]
      ensures builtinsList == old(builtinsList) + [h]
      ensures resolved == old(resolved)[types[h].reference := h]
      ensures nodeIdRefs == old(nodeIdRefs)[emptyTupleType := types[h].reference]
      ensures old(BuiltinsRegistered(types, builtinsList, builtins, resolved, nodeIdRefs) &&
                  KeysBelow(resolved, nodeIdRefs, types[h].reference) && types[h].reference < nextNodeId) ==>
              Registered()
    {
      ghost var list0, bs0, resolved0, refs0 := builtinsList, builtins, resolved, nodeIdRefs;
      emptyTupleType := NextNodeId();
      builtins := builtins + [("()", emptyTupleType)];
      InsertBuiltin(types[h].reference, emptyTupleType, h);
      if BuiltinsRegistered(types, list0, bs0, resolved0, refs0) &&
         KeysBelow(resolved0, refs0, types[h].reference) && types[h].reference < emptyTupleType {
        BuiltinsRegisteredExtend(types, list0, bs0, resolved0, refs0, h, ("()", emptyTupleType));
      }
    }

    /** `insertClosureCapture`: a set union into the closure's set. */
    method InsertClosureCapture(closureExpr: NodeId, capturedItem: NodeId)
      modifies this`closureCaptureMappings
      ensures closureCaptureMappings == WithCapture(old(closureCaptureMappings), closureExpr, capturedItem)
    {
      if closureExpr !in closureCaptureMappings {
        closureCaptureMappings := closureCaptureMappings[closureExpr := {capturedItem}];
      } else {
        closureCaptureMappings := closureCaptureMappings[closureExpr := closureCaptureMappings[closureExpr] + {capturedItem}];
      }
    }

    /** `getCaptures`: the accumulated set, empty for an unknown closure. */
    function GetCaptures(closureExpr: NodeId): (r: set<NodeId>)
      reads this
      ensures closureExpr !in closureCaptureMappings ==> r == {}
    {
      CapturesOf(closureCaptureMappings, closureExpr)
    }

    /** `insertAutoderefMapping`: asserts the id is not mapped yet. */
    method InsertAutoderefMapping(id: NodeId, ad: seq<Adjustment>)
      requires id !in autoderefMappings
      modifies this`autoderefMappings
      ensures autoderefMappings == old(autoderefMappings)[id := ad]
    {
      autoderefMappings := autoderefMappings[id := ad];
    }

    function LookupEnumItem(id: NodeId): (r: Option<(EnumerationRef, EnumItemRef)>)
      reads this
      ensures r.None? <==> id !in enumItemsMappings
    {
      if id in enumItemsMappings then Some(enumItemsMappings[id]) else None
    }

    /** `insertEnumItem`: asserts the item's id is absent; afterwards the
        lookup gives (parent, item). */
    method InsertEnumItem(parent: EnumerationRef, item: EnumItemRef)
      requires LookupEnumItem(item.nodeId).None?
      modifies this`enumItemsMappings
      ensures LookupEnumItem(item.nodeId) == Some((parent, item))
      ensures forall k :: k != item.nodeId ==> LookupEnumItem(k) == old(LookupEnumItem(k))
    {
      var id := item.nodeId;
      enumItemsMappings := enumItemsMappings[id := (parent, item)];
    }

    /** `isCrate`: some registered crate has this node id. */
    method IsCrate(nod: NodeId) returns (r: bool)
      ensures r <==> exists c :: c in astCrateMappings && astCrateMappings[c].nodeId == nod
    {
      var remaining := astCrateMappings.Keys;
      while remaining != {}
        invariant remaining <= astCrateMappings.Keys
        invariant forall c :: c in astCrateMappings && c !in remaining ==> astCrateMappings[c].nodeId != nod
        decreases remaining
      {
        var c :| c in remaining;
        if astCrateMappings[c].nodeId == nod {
          return true;
        }
        remaining := remaining - {c};
      }
      return false;
    }

    /** `insertASTCrate`: `insert` keeps the crate already recorded for a number. */
    method InsertASTCrate(crate: CrateInfo, crateNum: CrateNum)
      modifies this`astCrateMappings
      ensures crateNum in old(astCrateMappings) ==> astCrateMappings == old(astCrateMappings)
      ensures crateNum !in old(astCrateMappings) ==> astCrateMappings == old(astCrateMappings)[crateNum := crate]
    {
      if crateNum !in astCrateMappings {
        astCrateMappings := astCrateMappings[crateNum := crate];
      }
    }

    function GetCrateName(cnum: CrateNum): (r: Option<string>)
      reads this
      ensures r.None? <==> cnum !in astCrateMappings
      ensures r.Some? ==> r.value == astCrateMappings[cnum].crateName
    {
      if cnum !in astCrateMappings then None else Some(astCrateMappings[cnum].crateName)
    }

    function GetCurrentCrate(): CrateNum
      reads this
    {
      currentCrateNum
    }

    method SetCurrentCrate(crateNum: CrateNum)
      modifies this`currentCrateNum
      ensures GetCurrentCrate() == crateNum
    {
      currentCrateNum := crateNum;
    }

    predicate IsModule(id: NodeId)
      reads this
    {
      id in moduleChildItems
    }

    function LookupModuleChildrenItems(moduleId: NodeId): (r: Option<seq<CanonicalPath>>)
      reads this
      ensures r.Some? <==> IsModule(moduleId)
    {
      if moduleId in moduleChildItems then Some(moduleChildItems[moduleId]) else None
    }

    /** `lookupModuleChild`: the first child that is equal by name, or none
        (also when the module has no children entry). */
    method LookupModuleChild(moduleId: NodeId, item: CanonicalPath) returns (r: Option<CanonicalPath>)
      ensures !IsModule(moduleId) ==> r.None?
      ensures r.Some? ==> IsModule(moduleId)
      ensures r.Some? ==>
                exists i :: 0 <= i < |moduleChildItems[moduleId]| && r.value == moduleChildItems[moduleId][i] &&
                  IsEqualByName(r.value, item) &&
                  forall j :: 0 <= j < i ==> !IsEqualByName(moduleChildItems[moduleId][j], item)
      ensures IsModule(moduleId) && r.None? ==>
                forall i :: 0 <= i < |moduleChildItems[moduleId]| ==> !IsEqualByName(moduleChildItems[moduleId][i], item)
    {
      var children := LookupModuleChildrenItems(moduleId);
      if children.None? {
        return None;
      }
      var cs := children.value;
      var i := 0;
      while i < |cs|
        invariant 0 <= i <= |cs|
        invariant forall j :: 0 <= j < i ==> !IsEqualByName(cs[j], item)
      {
        if IsEqualByName(cs[i], item) {
          return Some(cs[i]);
        }
        i := i + 1;
      }
      return None;
    }

    /** `insertModuleChildItem`: appends to the module's list or creates [child]. */
    method InsertModuleChildItem(moduleId: NodeId, child: CanonicalPath)
      modifies this`moduleChildItems
      ensures moduleChildItems == WithModuleChild(old(moduleChildItems), moduleId, child)
      ensures LookupModuleChildrenItems(moduleId) ==
                Some(if old(IsModule(moduleId)) then old(moduleChildItems[moduleId]) + [child] else [child])
      ensures forall m :: m != moduleId ==> LookupModuleChildrenItems(m) == old(LookupModuleChildrenItems(m))
    {
      if moduleId !in moduleChildItems {
        moduleChildItems := moduleChildItems[moduleId := [child]];
      } else {
        moduleChildItems := moduleChildItems[moduleId := moduleChildItems[moduleId] + [child]];
      }
    }

    /** `insertChildItemToParentModuleMapping`: keeps the first parent. */
    method InsertChildItemToParentModuleMapping(child: NodeId, parentModule: NodeId)
      modifies this`childToParentModuleMap
      ensures child in old(childToParentModuleMap) ==> childToParentModuleMap == old(childToParentModuleMap)
      ensures child !in old(childToParentModuleMap) ==>
                childToParentModuleMap == old(childToParentModuleMap)[child := parentModule]
    {
      if child !in childToParentModuleMap {
        childToParentModuleMap := childToParentModuleMap[child := parentModule];
      }
    }

    function LookupCanonicalPath(id: NodeId): (r: Option<CanonicalPath>)
      reads this
      ensures r.None? <==> id !in paths
      ensures r.Some? ==> r.value == paths[id]
    {
      if id in paths then Some(paths[id]) else None
    }

    /** `insertCanonicalPath`: a no-op when a name-equal path is stored; a
        different stored path must be at least as long (asserted), and even
        then `emplace` keeps it. */
    method InsertCanonicalPath(id: NodeId, path: CanonicalPath)
      requires LookupCanonicalPath(id).Some? && !IsEqual(paths[id], path) ==>
                 GetSize(paths[id]) >= GetSize(path)
      modifies this`paths
      ensures TablesKept()
      ensures paths == WithCanonicalPath(old(paths), id, path)
      ensures LookupCanonicalPath(id) == Some(if old(id in paths) then old(paths[id]) else path)
    {
      var canPath := LookupCanonicalPath(id);
      if canPath.Some? {
        if IsEqual(canPath.value, path) {
          return;
        }
        assert GetSize(canPath.value) >= GetSize(path);
      }
      if id !in paths {
        paths := paths[id := path];
      }
    }

    method InsertResolvedName(ref: NodeId, def: NodeId)
      modifies this`resolvedNames
      ensures LookupName(ref) == Some(def)
      ensures forall k :: k != ref ==> LookupName(k) == old(LookupName(k))
    {
      resolvedNames := resolvedNames[ref := def];
    }

    function LookupName(ref: NodeId): (r: Option<NodeId>)
      reads this
      ensures r.None? <==> ref !in resolvedNames
    {
      if ref in resolvedNames then Some(resolvedNames[ref]) else None
    }

    /** `lookupAssociatedTypeMapping`. */
    function LookupAssociatedTypeMapping(id: NodeId): (r: Option<NodeId>)
      reads this
      ensures r.None? <==> id !in associatedTypeMappings
    {
      if id in associatedTypeMappings then Some(associatedTypeMappings[id]) else None
    }
  }
}
