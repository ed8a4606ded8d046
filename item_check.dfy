/** The item checks of `sema/TypeChecking/Item.cpp` that build struct types:
    `checkVisItem`, `checkStruct`, `checkStructStruct` and `checkTupleStruct`.
    `checkType` is abstracted as a function from the AST type of a field to
    the type object it yields. `checkGenericParams`, `checkWhereClause` and
    `checkFunction` are not part of this model. */
module ItemChecking {
  import opened Basic
  import opened CanonicalPaths
  import opened TyTy
  import opened TypeContext

  /** An `ast::Type` of a field, as `checkType` receives it (opaque). */
  type AstType = nat

  datatype StructField =
    StructField(nodeId: NodeId, identity: NodeIdentity, identifier: string, fieldType: AstType,
                loc: Location)

  datatype TupleField = TupleField(nodeId: NodeId, identity: NodeIdentity, fieldType: AstType, loc: Location)

  /** An `ast::Struct`: a struct with named fields or a tuple struct. A struct
      without fields has the empty sequence. */
  datatype Struct =
    | StructStruct(nodeId: NodeId, identity: NodeIdentity, identifier: string, loc: Location,
                   generics: Option<GenericParams>, fields: seq<StructField>)
    | TupleStruct(nodeId: NodeId, identity: NodeIdentity, name: string, loc: Location,
                  generics: Option<GenericParams>, tupleFields: seq<TupleField>)

  datatype VisItemKind =
    | Module | ExternCrate | UseDeclaration | Function | TypeAlias | Struct | Enumeration
    | Union | ConstantItem | StaticItem | Trait | Implementation | ExternBlock

  /** An `ast::VisItem`; decl is the struct a Struct item is. */
  datatype VisItem = VisItem(kind: VisItemKind, decl: Option<Struct>)

  /** What a call of `checkVisItem` does: a struct is checked and its type
      object is h, a function goes to `checkFunction`, and every other kind
      fails its `assert(false)`. */
  datatype ItemOutcome = StructChecked(h: Handle) | FunctionDeferred | Aborted

  // ---------------------------------------------------------------------
  // The values the checks build

  /** The `StructFieldType`s `checkStructStruct` pushes, one per field. */
  function StructFieldTypes(fs: seq<StructField>, checkType: AstType -> Handle): seq<StructFieldType> {
    seq(|fs|, i requires 0 <= i < |fs| =>
      StructFieldType(fs[i].nodeId, fs[i].identifier, checkType(fs[i].fieldType), fs[i].loc))
  }

  /** The `StructFieldType`s `checkTupleStruct` pushes: field i is named by
      the decimal digits of i (`std::to_string(idx)`). */
  function TupleFieldTypes(fs: seq<TupleField>, checkType: AstType -> Handle): seq<StructFieldType> {
    seq(|fs|, i requires 0 <= i < |fs| =>
      StructFieldType(fs[i].nodeId, NatToString(i), checkType(fs[i].fieldType), fs[i].loc))
  }

  /** The (node id, type) pairs `insertType` records for the fields, in order. */
  function StructFieldEntries(fs: seq<StructField>, checkType: AstType -> Handle): seq<(NodeId, Handle)> {
    seq(|fs|, i requires 0 <= i < |fs| => (fs[i].identity.nodeId, checkType(fs[i].fieldType)))
  }

  function TupleFieldEntries(fs: seq<TupleField>, checkType: AstType -> Handle): seq<(NodeId, Handle)> {
    seq(|fs|, i requires 0 <= i < |fs| => (fs[i].identity.nodeId, checkType(fs[i].fieldType)))
  }

  /** resolved after `insertType` of each entry in order. */
  function Registrations(resolved: map<NodeId, Handle>, es: seq<(NodeId, Handle)>): map<NodeId, Handle>
    decreases |es|
  {
    if es == [] then resolved
    else Registrations(resolved, es[..|es| - 1])[es[|es| - 1].0 := es[|es| - 1].1]
  }

  /** The type object a struct check builds: an ADT under the struct's node id
      and name, with the struct's canonical path and location as identity,
      one variant holding the fields, and the struct's generics. */
  function StructType(s: Struct, path: CanonicalPath, checkType: AstType -> Handle): BaseType {
    var ident := TypeIdentity(Some(path), s.loc);
    match s
    case StructStruct(id, _, name, _, g, fs) =>
      BaseType(id, id, ident, [], {},
               ADTType(name, ADTKind.StructStruct,
                       [VariantDef(id, name, ident, VariantKind.Struct, None, StructFieldTypes(fs, checkType))], g))
    case TupleStruct(id, _, name, _, g, fs) =>
      BaseType(id, id, ident, [], {},
               ADTType(name, ADTKind.TupleStruct,
                       [VariantDef(id, name, ident, VariantKind.Tuple, None, TupleFieldTypes(fs, checkType))], g))
  }

  /** The pairs `insertType` records for the fields of s. */
  function FieldEntries(s: Struct, checkType: AstType -> Handle): seq<(NodeId, Handle)> {
    match s
    case StructStruct(_, _, _, _, _, fs) => StructFieldEntries(fs, checkType)
    case TupleStruct(_, _, _, _, _, fs) => TupleFieldEntries(fs, checkType)
  }

  /** checkType yields a live type object for every field of s. */
  ghost predicate FieldsChecked(types: map<Handle, BaseType>, s: Struct, checkType: AstType -> Handle) {
    match s
    case StructStruct(_, _, _, _, _, fs) => forall i :: 0 <= i < |fs| ==> checkType(fs[i].fieldType) in types
    case TupleStruct(_, _, _, _, _, fs) => forall i :: 0 <= i < |fs| ==> checkType(fs[i].fieldType) in types
  }

  // ---------------------------------------------------------------------
  // Properties of the values

  /** `checkStructStruct` builds a StructStruct ADT with exactly one Struct
      variant, which has one field per declared field, in declaration order,
      typed by checkType. */
  lemma StructStructShape(s: Struct, path: CanonicalPath, checkType: AstType -> Handle)
    requires s.StructStruct?
    ensures var t := StructType(s, path, checkType);
            t.Kind() == TypeKind.ADT && t.reference == s.nodeId &&
            t.data.adtKind == ADTKind.StructStruct && |t.data.variants| == 1 &&
            t.data.variants[0].kind == VariantKind.Struct &&
            t.data.variants[0].identifier == s.identifier &&
            t.identity == TypeIdentity(Some(path), s.loc) &&
            |t.data.variants[0].fields| == |s.fields| &&
            forall i :: 0 <= i < |s.fields| ==>
              t.data.variants[0].fields[i].ref == s.fields[i].nodeId &&
              t.data.variants[0].fields[i].identifier == s.fields[i].identifier &&
              t.data.variants[0].fields[i].fieldType == checkType(s.fields[i].fieldType)
  {
  }

  /** `checkTupleStruct` builds a TupleStruct ADT with one Tuple variant whose
      field i is named by the decimal string of i; so the names are pairwise
      distinct. */
  lemma TupleStructShape(s: Struct, path: CanonicalPath, checkType: AstType -> Handle)
    requires s.TupleStruct?
    ensures var t := StructType(s, path, checkType);
            t.Kind() == TypeKind.ADT && t.reference == s.nodeId &&
            t.data.adtKind == ADTKind.TupleStruct && |t.data.variants| == 1 &&
            t.data.variants[0].kind == VariantKind.Tuple &&
            |t.data.variants[0].fields| == |s.tupleFields| &&
            (forall i :: 0 <= i < |s.tupleFields| ==>
               t.data.variants[0].fields[i].identifier == NatToString(i) &&
               t.data.variants[0].fields[i].ref == s.tupleFields[i].nodeId &&
               t.data.variants[0].fields[i].fieldType == checkType(s.tupleFields[i].fieldType)) &&
            (forall i, j :: 0 <= i < j < |s.tupleFields| ==>
               t.data.variants[0].fields[i].identifier != t.data.variants[0].fields[j].identifier)
  {
    var fs := StructType(s, path, checkType).data.variants[0].fields;
    forall i, j | 0 <= i < j < |s.tupleFields| ensures fs[i].identifier != fs[j].identifier {
      NatToStringInjective(i, j);
    }
  }

  /** The generics of the struct are passed through only when it has them,
      so the type needs generic substitution exactly when the struct is generic. */
  lemma StructTypeNeedsSubstitution(s: Struct, path: CanonicalPath, checkType: AstType -> Handle)
    ensures NeedsGenericSubstitutions(StructType(s, path, checkType)) <==> s.generics.Some?
  {
  }

  /** The struct type refers only to the fields' checked types. */
  lemma StructTypeRefs(types: map<Handle, BaseType>, s: Struct, path: CanonicalPath,
                       checkType: AstType -> Handle)
    requires FieldsChecked(types, s, checkType)
    ensures TypeVars(StructType(s, path, checkType).data) == {}
    ensures Pointers(StructType(s, path, checkType).data) <= types.Keys
  {
    var v := StructType(s, path, checkType).data.variants[0];
    assert FieldTypes([v]) == (set f | f in v.fields :: f.fieldType) + FieldTypes([]) by {
      assert [v][1..] == [];
    }
    forall f | f in v.fields ensures f.fieldType in types {
      var i :| 0 <= i < |v.fields| && v.fields[i] == f;
    }
  }

  /** After the registrations, an id no entry names is unchanged. */
  lemma {:induction false} RegistrationsUnnamed(resolved: map<NodeId, Handle>, es: seq<(NodeId, Handle)>,
                                               k: NodeId)
    requires forall j :: 0 <= j < |es| ==> es[j].0 != k
    ensures k in Registrations(resolved, es) <==> k in resolved
    ensures k in resolved ==> Registrations(resolved, es)[k] == resolved[k]
    decreases |es|
  {
    if es != [] {
      RegistrationsUnnamed(resolved, es[..|es| - 1], k);
    }
  }

  /** After the registrations, an id is bound to the type of the last entry
      naming it: the last write wins. */
  lemma {:induction false} RegistrationsLast(resolved: map<NodeId, Handle>, es: seq<(NodeId, Handle)>,
                                            j: nat)
    requires j < |es| && forall l :: j < l < |es| ==> es[l].0 != es[j].0
    ensures es[j].0 in Registrations(resolved, es) && Registrations(resolved, es)[es[j].0] == es[j].1
    decreases |es|
  {
    var n := |es| - 1;
    if j < n {
      var front := es[..n];
      assert front[j] == es[j];
      RegistrationsLast(resolved, front, j);
    }
  }

  lemma RegistrationsSnoc(resolved: map<NodeId, Handle>, es: seq<(NodeId, Handle)>, i: nat)
    requires i < |es|
    ensures Registrations(resolved, es[..i + 1]) == Registrations(resolved, es[..i])[es[i].0 := es[i].1]
  {
    assert es[..i + 1][..i] == es[..i];
  }

  // ---------------------------------------------------------------------
  // The checks

  /** `checkVisItem`: only Function and Struct items proceed. A function item
      is handed to `checkFunction`, which is not part of this model, so
      nothing is promised about what it does to the context. */
  method CheckVisItem(ctx: TyCtx, v: VisItem, checkType: AstType -> Handle) returns (r: ItemOutcome)
    requires v.kind.Struct? ==>
               v.decl.Some? && ctx.Valid() && FieldsChecked(ctx.types, v.decl.value, checkType) &&
               v.decl.value.nodeId in ctx.paths
    modifies ctx`types, ctx`nextHandle, ctx`resolved
    ensures v.kind.Struct? <==> r.StructChecked?
    ensures v.kind.Function? <==> r.FunctionDeferred?
    ensures r.Aborted? ==> unchanged(ctx)
    ensures r.StructChecked? ==>
              ctx.Valid() && r.h !in old(ctx.types) &&
              ctx.types == old(ctx.types)[r.h := StructType(v.decl.value, ctx.paths[v.decl.value.nodeId], checkType)] &&
              ctx.resolved ==
                Registrations(old(ctx.resolved), FieldEntries(v.decl.value, checkType))[v.decl.value.identity.nodeId := r.h]
  {
    match v.kind {
      case Function =>
        r := FunctionDeferred;
      case Struct =>
        var h := CheckStruct(ctx, v.decl.value, checkType);
        r := StructChecked(h);
      case Module => r := Aborted;
      case ExternCrate => r := Aborted;
      case UseDeclaration => r := Aborted;
      case TypeAlias => r := Aborted;
      case Enumeration => r := Aborted;
      case Union => r := Aborted;
      case ConstantItem => r := Aborted;
      case StaticItem => r := Aborted;
      case Trait => r := Aborted;
      case Implementation => r := Aborted;
      case ExternBlock => r := Aborted;
    }
  }

  /** `checkStruct`: dispatch on the struct kind. The checked struct's type
      object h is fresh; the fields' types are registered under the fields'
      identities first, then h under the struct's identity. */
  method CheckStruct(ctx: TyCtx, s: Struct, checkType: AstType -> Handle) returns (h: Handle)
    requires ctx.Valid() && FieldsChecked(ctx.types, s, checkType) && s.nodeId in ctx.paths
    modifies ctx`types, ctx`nextHandle, ctx`resolved
    ensures ctx.Valid() && h !in old(ctx.types)
    ensures ctx.types == old(ctx.types)[h := StructType(s, ctx.paths[s.nodeId], checkType)]
    ensures ctx.resolved == Registrations(old(ctx.resolved), FieldEntries(s, checkType))[s.identity.nodeId := h]
  {
    match s {
      case StructStruct(_, _, _, _, _, _) => h := CheckStructStruct(ctx, s, checkType);
      case TupleStruct(_, _, _, _, _, _) => h := CheckTupleStruct(ctx, s, checkType);
    }
  }

  method CheckStructStruct(ctx: TyCtx, s: Struct, checkType: AstType -> Handle) returns (h: Handle)
    requires s.StructStruct?
    requires ctx.Valid() && FieldsChecked(ctx.types, s, checkType) && s.nodeId in ctx.paths
    modifies ctx`types, ctx`nextHandle, ctx`resolved
    ensures ctx.Valid() && h !in old(ctx.types)
    ensures ctx.types == old(ctx.types)[h := StructType(s, ctx.paths[s.nodeId], checkType)]
    ensures ctx.resolved ==
              Registrations(old(ctx.resolved), StructFieldEntries(s.fields, checkType))[s.identity.nodeId := h]
  {
    var es := StructFieldEntries(s.fields, checkType);
    var fields: seq<StructFieldType> := [];
    for i := 0 to |s.fields|
      invariant ctx.Valid() && ctx.types == old(ctx.types)
      invariant fields == StructFieldTypes(s.fields, checkType)[..i]
      invariant ctx.resolved == Registrations(old(ctx.resolved), es[..i])
    {
      var field := s.fields[i];
      var fieldType := checkType(field.fieldType);
      fields := fields + [StructFieldType(field.nodeId, field.identifier, fieldType, field.loc)];
      RegistrationsSnoc(old(ctx.resolved), es, i);
      ctx.InsertType(field.identity, fieldType);
    }
    assert es[..|s.fields|] == es;
    assert fields == StructFieldTypes(s.fields, checkType);
    var path := ctx.LookupCanonicalPath(s.nodeId);
    var ident := TypeIdentity(Some(path.value), s.loc);
    var variants := [VariantDef(s.nodeId, s.identifier, ident, VariantKind.Struct, None, fields)];
    var t := BaseType(s.nodeId, s.nodeId, ident, [], {},
                      ADTType(s.identifier, ADTKind.StructStruct, variants, s.generics));
    assert t == StructType(s, ctx.paths[s.nodeId], checkType);
    StructTypeRefs(ctx.types, s, ctx.paths[s.nodeId], checkType);
    h := ctx.NewType(t);
    ctx.InsertType(s.identity, h);
  }

  method CheckTupleStruct(ctx: TyCtx, s: Struct, checkType: AstType -> Handle) returns (h: Handle)
    requires s.TupleStruct?
    requires ctx.Valid() && FieldsChecked(ctx.types, s, checkType) && s.nodeId in ctx.paths
    modifies ctx`types, ctx`nextHandle, ctx`resolved
    ensures ctx.Valid() && h !in old(ctx.types)
    ensures ctx.types == old(ctx.types)[h := StructType(s, ctx.paths[s.nodeId], checkType)]
    ensures ctx.resolved ==
              Registrations(old(ctx.resolved), TupleFieldEntries(s.tupleFields, checkType))[s.identity.nodeId := h]
  {
    var es := TupleFieldEntries(s.tupleFields, checkType);
    var fields: seq<StructFieldType> := [];
    var idx: nat := 0;
    for i := 0 to |s.tupleFields|
      invariant ctx.Valid() && ctx.types == old(ctx.types)
      invariant idx == i
      invariant fields == TupleFieldTypes(s.tupleFields, checkType)[..i]
      invariant ctx.resolved == Registrations(old(ctx.resolved), es[..i])
    {
      var field := s.tupleFields[i];
      var fieldType := checkType(field.fieldType);
      fields := fields + [StructFieldType(field.nodeId, NatToString(idx), fieldType, field.loc)];
      RegistrationsSnoc(old(ctx.resolved), es, i);
      ctx.InsertType(field.identity, fieldType);
      idx := idx + 1;
    }
    assert es[..|s.tupleFields|] == es;
    assert fields == TupleFieldTypes(s.tupleFields, checkType);
    var path := ctx.LookupCanonicalPath(s.nodeId);
    var ident := TypeIdentity(Some(path.value), s.loc);
    var variants := [VariantDef(s.nodeId, s.name, ident, VariantKind.Tuple, None, fields)];
    var t := BaseType(s.nodeId, s.nodeId, ident, [], {},
                      ADTType(s.name, ADTKind.TupleStruct, variants, s.generics));
    assert t == StructType(s, ctx.paths[s.nodeId], checkType);
    StructTypeRefs(ctx.types, s, ctx.paths[s.nodeId], checkType);
    h := ctx.NewType(t);
    ctx.InsertType(s.identity, h);
  }
}
