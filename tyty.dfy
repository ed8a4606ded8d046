/** The type representation of `TyCtx/TyTy.cpp`: one datatype constructor per
    BaseType subclass, the kind predicates, generic-substitution detection,
    rendering (`toString`), the inference-hint transition and bound
    de-duplication.

    A `BaseType*` is a `Handle`: the index of a type object in the context's
    arena (`TypeContext.TyCtx.types`). A `TypeVariable` is the NodeId it holds;
    it is looked up through the context's `resolved` map on every access. */
module TyTy {
  import opened Basic
  import opened CanonicalPaths

  /** A `BaseType*`: the identity of one type object. */
  type Handle = nat

  /** An opaque pointer to an AST expression (array capacity, enum discriminant). */
  type ExprRef = nat

  /** An opaque pointer to a function parameter's pattern. */
  type PatternRef = nat

  datatype TypeKind =
    | Bool | Char | Int | Uint | USize | ISize | Float | Closure | Function
    | Inferred | Never | Str | Tuple | Parameter | ADT | Error | Array
    | Projection | Dynamic | FunctionPointer | PlaceHolder | Slice | RawPointer
    | Reference

  datatype IntKind = I8 | I16 | I32 | I64 | I128
  datatype UintKind = U8 | U16 | U32 | U64 | U128
  datatype FloatKind = F32 | F64

  datatype InferKind = Integral | Float | General

  /** The enumerators of the sign and size hints that the source sets; the
      remaining (default) value of each enum is not part of this model and is
      written `UnknownSign` / `UnknownSize`. */
  datatype SignedHint = Signed | Unsigned | UnknownSign
  datatype SizeHint = S8 | S16 | S32 | S64 | S128 | UnknownSize

  datatype TypeHint = TypeHint(kind: TypeKind, signHint: SignedHint, sizeHint: SizeHint)

  datatype Location = BuiltinLocation | EmptyLocation | SourceLocation(offset: nat)

  /** `TypeIdentity`: an optional canonical path and a location;
      `TypeIdentity::empty()` has neither. */
  datatype TypeIdentity = TypeIdentity(path: Option<CanonicalPath>, loc: Location)

  const EmptyIdentity := TypeIdentity(None, EmptyLocation)

  /** `TypeIdentity::from(loc)`. */
  function IdentityFrom(loc: Location): TypeIdentity {
    TypeIdentity(None, loc)
  }

  datatype TypeBoundPredicate = TypeBoundPredicate(id: NodeId, traitName: string)

  datatype GenericParam = GenericParam(name: string)
  datatype GenericParams = GenericParams(params: seq<GenericParam>)

  datatype ADTKind = StructStruct | TupleStruct | Union | Enum
  datatype VariantKind = Struct | Tuple | Enum

  datatype StructFieldType =
    StructFieldType(ref: NodeId, identifier: string, fieldType: Handle, loc: Location)

  datatype VariantDef = VariantDef(id: NodeId, identifier: string, ident: TypeIdentity,
                                   kind: VariantKind, discriminant: Option<ExprRef>,
                                   fields: seq<StructFieldType>)

  datatype FnParam = FnParam(pattern: PatternRef, paramType: Handle)

  /** The payload of each BaseType subclass. Tuple fields, closure results and
      element types are TypeVariables (NodeIds); function parameters, return
      types, closure parameter tuples, field types and projections are pointers
      (Handles). */
  datatype TypeData =
    | BoolType
    | CharType
    | IntType(intKind: IntKind)
    | UintType(uintKind: UintKind)
    | FloatType(floatKind: FloatKind)
    | USizeType
    | ISizeType
    | NeverType
    | StrType
    | ErrorType
    | DynamicType
    | TupleType(fields: seq<NodeId>)
    | FunctionType(name: string, params: seq<FnParam>, returnType: Handle,
                   generics: Option<GenericParams>)
    | ClosureType(parameters: Handle, resultType: NodeId, generics: Option<GenericParams>,
                  captures: set<NodeId>)
    | ADTType(identifier: string, adtKind: ADTKind, variants: seq<VariantDef>,
              generics: Option<GenericParams>)
    | ArrayType(element: NodeId, capacity: ExprRef)
    | SliceType(element: NodeId)
    | ReferenceType(base: NodeId, mutable: bool)
    | RawPointerType(base: NodeId, mutable: bool)
    | ParamType(paramName: string, paramBounds: seq<TypeBoundPredicate>)
    | PlaceholderType(placeholderName: string)
    | ProjectionType(projected: Handle)
    | InferType(inferKind: InferKind, defaultHint: TypeHint, inferLoc: Location)
    | FunctionPointerType(fnParams: seq<NodeId>, fnReturn: NodeId)

  function KindOf(d: TypeData): TypeKind {
    match d
    case BoolType => TypeKind.Bool
    case CharType => TypeKind.Char
    case IntType(_) => TypeKind.Int
    case UintType(_) => TypeKind.Uint
    case FloatType(_) => TypeKind.Float
    case USizeType => TypeKind.USize
    case ISizeType => TypeKind.ISize
    case NeverType => TypeKind.Never
    case StrType => TypeKind.Str
    case ErrorType => TypeKind.Error
    case DynamicType => TypeKind.Dynamic
    case TupleType(_) => TypeKind.Tuple
    case FunctionType(_, _, _, _) => TypeKind.Function
    case ClosureType(_, _, _, _) => TypeKind.Closure
    case ADTType(_, _, _, _) => TypeKind.ADT
    case ArrayType(_, _) => TypeKind.Array
    case SliceType(_) => TypeKind.Slice
    case ReferenceType(_, _) => TypeKind.Reference
    case RawPointerType(_, _) => TypeKind.RawPointer
    case ParamType(_, _) => TypeKind.Parameter
    case PlaceholderType(_) => TypeKind.PlaceHolder
    case ProjectionType(_) => TypeKind.Projection
    case InferType(_, _, _) => TypeKind.Inferred
    case FunctionPointerType(_, _) => TypeKind.FunctionPointer
  }

  /** One type object: the fields every BaseType has, plus its payload. */
  datatype BaseType = BaseType(reference: NodeId, typeReference: NodeId, identity: TypeIdentity,
                               specifiedBounds: seq<TypeBoundPredicate>, combined: set<NodeId>,
                               data: TypeData)
  {
    function Kind(): TypeKind {
      KindOf(data)
    }
  }

  /** What the single-id constructors of the leaf and error types build:
      reference and typeReference both `id`, empty identity, no bounds and an
      empty combined set. */
  function LeafRecord(id: NodeId, d: TypeData): BaseType {
    BaseType(id, id, EmptyIdentity, [], {}, d)
  }

  /** The builtin scalar types: they refer to no other type. */
  predicate IsScalarBuiltin(d: TypeData) {
    d.BoolType? || d.CharType? || d.IntType? || d.UintType? || d.FloatType? ||
    d.USizeType? || d.ISizeType? || d.NeverType? || d.StrType?
  }

  lemma ScalarBuiltinRefersToNothing(d: TypeData)
    requires IsScalarBuiltin(d)
    ensures TypeVars(d) == {} && Pointers(d) == {}
  {
  }

  // ---------------------------------------------------------------------
  // Kind classification

  function IsSignedIntegerLike(k: TypeKind): (r: bool)
    ensures r <==> k == TypeKind.Int || k == TypeKind.ISize
  {
    match k
    case Int | ISize => true
    case _ => false
  }

  function IsIntegerLike(k: TypeKind): (r: bool)
    ensures r <==> k in {TypeKind.Int, TypeKind.Uint, TypeKind.USize, TypeKind.ISize}
  {
    match k
    case Int | Uint | USize | ISize => true
    case _ => false
  }

  function IsFloatLike(k: TypeKind): (r: bool)
    ensures r <==> k == TypeKind.Float
  {
    match k
    case Float => true
    case _ => false
  }

  /** Signed-integer-like kinds are integer-like, and no kind is both
      integer-like and float-like. */
  lemma ClassificationConsistent(k: TypeKind)
    ensures IsSignedIntegerLike(k) ==> IsIntegerLike(k)
    ensures !(IsIntegerLike(k) && IsFloatLike(k))
  {
  }

  /** `GenericParameters::needsSubstitution`. */
  predicate NeedsSubstitution(g: Option<GenericParams>) {
    g.Some?
  }

  /** `BaseType::needsGenericSubstitutions`; it aborts on a Projection. */
  function NeedsGenericSubstitutions(t: BaseType): (r: bool)
    requires t.Kind() != TypeKind.Projection
    ensures r <==> t.Kind() in {TypeKind.Function, TypeKind.ADT, TypeKind.Closure} &&
                   t.data.generics.Some?
  {
    match t.data
    case FunctionType(_, _, _, g) => NeedsSubstitution(g)
    case ADTType(_, _, _, g) => NeedsSubstitution(g)
    case ClosureType(_, _, g, _) => NeedsSubstitution(g)
    case _ => false
  }

  // ---------------------------------------------------------------------
  // Rendering (`toString`)

  /** "i" and the width, except that I128 is spelled "i28" in the source. */
  function IntKindName(k: IntKind): (r: string)
    ensures k != I128 ==> r == "i" + NatToString(IntBits(k))
    ensures k == I128 ==> r == "i28" && r != "i" + NatToString(IntBits(k))
  {
    match k
    case I8 => "i8"
    case I16 => "i16"
    case I32 => "i32"
    case I64 => "i64"
    case I128 => "i28"  // as written in the source
  }

  /** "u" and the width. */
  function UintKindName(k: UintKind): (r: string)
    ensures r == "u" + NatToString(UintBits(k))
  {
    match k
    case U8 => "u8"
    case U16 => "u16"
    case U32 => "u32"
    case U64 => "u64"
    case U128 =>
      assert NatToString(128) == NatToString(12) + [DigitChar(8)];
      "u128"
  }

  /** "f" and the width. */
  function FloatKindName(k: FloatKind): (r: string)
    ensures r == "f" + NatToString(FloatBits(k))
  {
    match k
    case F32 => "f32"
    case F64 => "f64"
  }

  /** The fixed rendering of the kinds whose `toString` needs no context;
      None for every other kind. */
  function LeafName(d: TypeData): (r: Option<string>)
    ensures r.Some? <==> d.BoolType? || d.CharType? || d.IntType? || d.UintType? || d.FloatType? ||
                         d.USizeType? || d.ISizeType? || d.NeverType? || d.StrType? ||
                         d.ErrorType? || d.InferType?
    ensures r.Some? ==> |r.value| > 0
  {
    match d
    case BoolType => Some("bool")
    case CharType => Some("char")
    case IntType(k) => Some(IntKindName(k))
    case UintType(k) => Some(UintKindName(k))
    case FloatType(k) => Some(FloatKindName(k))
    case USizeType => Some("usize")
    case ISizeType => Some("isize")
    case NeverType => Some("!")
    case StrType => Some("str")
    case ErrorType => Some("error")
    case InferType(k, _, _) =>
      Some(match k
           case Float => "<float>"
           case Integral => "<integer>"
           case General => "T?")
    case _ => None
  }

  /** `GenericParameters::substToString`: its loop body is commented out, so
      the buffer stays empty. */
  function SubstToString(g: Option<GenericParams>): (r: string)
    ensures r == "" <==> g.Some?
    ensures g.None? ==> r == "empty"
  {
    if g.Some? then
      var buffer := "";
      if buffer == [] then "" else "<" + buffer + ">"
    else "empty"
  }

  /** The `variantsBuffer` loop of `ADTType::toString` from index i on: only
      the separators are appended (the variant text is a FIXME). */
  function VariantSeparators(n: nat, i: nat): string
    requires i <= n
    decreases n - i
  {
    if i == n then "" else (if i + 1 < n then ", " else "") + VariantSeparators(n, i + 1)
  }

  function Repeat(s: string, k: nat): string {
    if k == 0 then "" else s + Repeat(s, k - 1)
  }

  lemma {:induction false} VariantSeparatorsCount(n: nat, i: nat)
    requires i < n
    ensures VariantSeparators(n, i) == Repeat(", ", n - 1 - i)
    decreases n - i
  {
    if i + 1 < n {
      VariantSeparatorsCount(n, i + 1);
    }
  }

  /** Starts with substToString() and an opening brace, ends with a closing one. */
  function ADTString(g: Option<GenericParams>, variantCount: nat): (r: string)
    ensures |r| >= |SubstToString(g)| + 2
    ensures r[..|SubstToString(g)| + 1] == SubstToString(g) + "{" && r[|r| - 1] == '}'
  {
    SubstToString(g) + "{" + VariantSeparators(variantCount, 0) + "}"
  }

  /** An ADT with n variants renders as substToString() + "{" + (n-1) times ", " + "}";
      substToString() is "empty" without generics and "" with them. */
  lemma ADTStringShape(g: Option<GenericParams>, n: nat)
    ensures n > 0 ==> ADTString(g, n) == SubstToString(g) + "{" + Repeat(", ", n - 1) + "}"
    ensures n == 0 ==> ADTString(g, n) == SubstToString(g) + "{}"
    ensures SubstToString(g) == if g.Some? then "" else "empty"
  {
    if n > 0 {
      VariantSeparatorsCount(n, 0);
    }
  }

  /** The NodeIds a type object holds as TypeVariables. */
  function TypeVars(d: TypeData): set<NodeId> {
    match d
    case TupleType(fs) => set f | f in fs
    case ClosureType(_, r, _, _) => {r}
    case ArrayType(e, _) => {e}
    case SliceType(e) => {e}
    case ReferenceType(b, _) => {b}
    case RawPointerType(b, _) => {b}
    case FunctionPointerType(ps, r) => (set p | p in ps) + {r}
    case _ => {}
  }

  function FieldTypes(vs: seq<VariantDef>): set<Handle> {
    if vs == [] then {} else (set f | f in vs[0].fields :: f.fieldType) + FieldTypes(vs[1..])
  }

  /** The Handles a type object holds as pointers. */
  function Pointers(d: TypeData): set<Handle> {
    match d
    case FunctionType(_, ps, r, _) => (set p | p in ps :: p.paramType) + {r}
    case ClosureType(p, _, _, _) => {p}
    case ADTType(_, _, vs, _) => FieldTypes(vs)
    case ProjectionType(p) => {p}
    case _ => {}
  }

  /** The type objects one object reaches directly, through its pointers and
      through its TypeVariables. */
  function Children(t: BaseType, resolved: map<NodeId, Handle>): set<Handle> {
    Pointers(t.data) + (set v | v in TypeVars(t.data) && v in resolved :: resolved[v])
  }

  /** A rank function proving the type graph below its domain acyclic:
      every child of a ranked object is ranked lower. */
  ghost predicate Ranked(types: map<Handle, BaseType>, resolved: map<NodeId, Handle>,
                         rank: map<Handle, nat>)
  {
    forall g :: g in rank ==>
      g in types &&
      forall c :: c in Children(types[g], resolved) ==> c in rank && rank[c] < rank[g]
  }

  /** Every TypeVariable of every object is registered (the `TypeVariable`
      constructor asserts this) and every pointer is to a live object. */
  ghost predicate Closed(types: map<Handle, BaseType>, resolved: map<NodeId, Handle>) {
    (forall v :: v in resolved ==> resolved[v] in types) &&
    (forall g {:trigger ObjectClosed(types, resolved, g)} :: g in types ==> ObjectClosed(types, resolved, g))
  }

  /** The object at g refers only to registered TypeVariables and live objects. */
  ghost predicate ObjectClosed(types: map<Handle, BaseType>, resolved: map<NodeId, Handle>, g: Handle)
    requires g in types
  {
    TypeVars(types[g].data) <= resolved.Keys && Pointers(types[g].data) <= types.Keys
  }

  lemma ClosedAt(types: map<Handle, BaseType>, resolved: map<NodeId, Handle>, g: Handle)
    requires Closed(types, resolved) && g in types
    ensures TypeVars(types[g].data) <= resolved.Keys && Pointers(types[g].data) <= types.Keys
  {
    assert ObjectClosed(types, resolved, g);
  }

  /** Storing an object that refers only to registered TypeVariables and live
      objects keeps the arena closed. */
  lemma ClosedStore(types: map<Handle, BaseType>, resolved: map<NodeId, Handle>, h: Handle, t: BaseType)
    requires Closed(types, resolved)
    requires TypeVars(t.data) <= resolved.Keys && Pointers(t.data) <= types.Keys
    ensures Closed(types[h := t], resolved)
  {
    var types' := types[h := t];
    forall g | g in types' ensures ObjectClosed(types', resolved, g) {
      if g != h {
        ClosedAt(types, resolved, g);
      }
    }
  }

  /** Registering a TypeVariable to a live object keeps the arena closed. */
  lemma ClosedRegister(types: map<Handle, BaseType>, resolved: map<NodeId, Handle>, v: NodeId, h: Handle)
    requires Closed(types, resolved) && h in types
    ensures Closed(types, resolved[v := h])
  {
    forall g | g in types ensures ObjectClosed(types, resolved[v := h], g) {
      ClosedAt(types, resolved, g);
    }
  }

  /** An object that refers to no type has no children. */
  lemma NoChildren(t: BaseType, resolved: map<NodeId, Handle>)
    requires TypeVars(t.data) == {} && Pointers(t.data) == {}
    ensures Children(t, resolved) == {}
  {
  }

  /** Objects without children are ranked by the constant rank 0. */
  lemma LeavesRanked(types: map<Handle, BaseType>, resolved: map<NodeId, Handle>, hs: seq<Handle>)
    requires forall i :: 0 <= i < |hs| ==> hs[i] in types && Children(types[hs[i]], resolved) == {}
    ensures Ranked(types, resolved, map h | h in hs :: 0)
  {
    var rank := map h | h in hs :: 0;
    forall g | g in rank ensures g in types && Children(types[g], resolved) == {} {
      var i :| 0 <= i < |hs| && hs[i] == g;
    }
  }

  /** `toString` of the object at h. None where the source aborts (Function,
      Parameter) and for the kinds whose `toString` is not part of this model. */
  function Render(types: map<Handle, BaseType>, resolved: map<NodeId, Handle>, h: Handle,
                  ghost rank: map<Handle, nat>): Option<string>
    requires Closed(types, resolved) && Ranked(types, resolved, rank) && h in rank
    decreases rank[h], 1, 0
  {
    var t := types[h];
    assert ObjectClosed(types, resolved, h);
    match t.data
    case TupleType(fs) =>
      assert forall f :: f in fs ==> resolved[f] in Children(t, resolved);
      var inner := RenderFields(types, resolved, fs, rank, rank[h]);
      if inner.None? then None else Some("(" + inner.value + ")")
    case ADTType(_, _, vs, g) => Some(ADTString(g, |vs|))
    case ArrayType(e, _) =>
      assert resolved[e] in Children(t, resolved);
      var el := Render(types, resolved, resolved[e], rank);
      if el.None? then None else Some("[" + el.value + ":" + "CAPACITY" + "]")
    case ClosureType(p, r, _, _) =>
      assert p in Children(t, resolved) && resolved[r] in Children(t, resolved);
      var ps := Render(types, resolved, p, rank);
      var rs := Render(types, resolved, resolved[r], rank);
      if ps.None? || rs.None? then None else Some("|" + ps.value + "| {" + rs.value + "}")
    case _ => LeafName(t.data)
  }

  /** A call of the `toString` method of the object at h: a leaf gives its
      fixed literal (I128 gives "i28"), Function and Parameter give nothing
      (the source aborts), a tuple gives its fields' renderings between
      parentheses when every field renders, and an ADT with n variants
      gives substToString() and braces around n-1 separators. */
  method ToString(types: map<Handle, BaseType>, resolved: map<NodeId, Handle>, h: Handle,
                  ghost rank: map<Handle, nat>) returns (s: Option<string>)
    requires Closed(types, resolved) && Ranked(types, resolved, rank) && h in rank
    ensures s == Render(types, resolved, h, rank)
    ensures LeafName(types[h].data).Some? ==> s == LeafName(types[h].data)
    ensures types[h].data == IntType(I128) ==> s == Some("i28")
    ensures types[h].data.FunctionType? || types[h].data.ParamType? ==> s.None?
    ensures types[h].data == TupleType([]) ==> s == Some("()")
    ensures types[h].data.TupleType? ==>
              var fs := types[h].data.fields;
              (forall i :: 0 <= i < |fs| ==> fs[i] in resolved && resolved[fs[i]] in rank) &&
              (s.Some? <==> forall i :: 0 <= i < |fs| ==> Render(types, resolved, resolved[fs[i]], rank).Some?) &&
              (s.Some? ==> |s.value| >= 2 && s.value[0] == '(' && s.value[|s.value| - 1] == ')')
    ensures types[h].data.ADTType? ==>
              var n := |types[h].data.variants|;
              var subst := if types[h].data.generics.Some? then "" else "empty";
              s == Some(if n == 0 then subst + "{}" else subst + "{" + Repeat(", ", n - 1) + "}")
  {
    s := Render(types, resolved, h, rank);
    var d := types[h].data;
    if LeafName(d).Some? {
      RenderLeaf(types, resolved, h, rank);
    } else if d.TupleType? {
      RenderTupleDefined(types, resolved, h, rank);
      if d.fields == [] {
        RenderUnit(types, resolved, h, rank);
      }
    } else if d.ADTType? {
      ADTStringShape(d.generics, |d.variants|);
    }
  }

  /** A tuple's fields are all resolved and ranked, and it renders exactly
      when each field does, as a string in parentheses. */
  lemma RenderTupleDefined(types: map<Handle, BaseType>, resolved: map<NodeId, Handle>, h: Handle,
                           rank: map<Handle, nat>)
    requires Closed(types, resolved) && Ranked(types, resolved, rank) && h in rank
    requires types[h].data.TupleType?
    ensures var fs, s := types[h].data.fields, Render(types, resolved, h, rank);
            (forall i :: 0 <= i < |fs| ==> fs[i] in resolved && resolved[fs[i]] in rank) &&
            (s.Some? <==> forall i :: 0 <= i < |fs| ==> Render(types, resolved, resolved[fs[i]], rank).Some?) &&
            (s.Some? ==> |s.value| >= 2 && s.value[0] == '(' && s.value[|s.value| - 1] == ')')
  {
    var fs := types[h].data.fields;
    RenderTuple(types, resolved, h, rank);
    assert forall i :: 0 <= i < |fs| ==> fs[i] in fs;
    RenderFieldsDefined(types, resolved, fs, rank, rank[h]);
  }

  /** The field loop of `TupleType::toString`: renderings separated by ", ". */
  function RenderFields(types: map<Handle, BaseType>, resolved: map<NodeId, Handle>,
                        fs: seq<NodeId>, ghost rank: map<Handle, nat>, ghost bound: nat)
    : Option<string>
    requires Closed(types, resolved) && Ranked(types, resolved, rank)
    requires forall f :: f in fs ==> f in resolved && resolved[f] in rank && rank[resolved[f]] < bound
    decreases bound, 0, |fs|
  {
    if fs == [] then Some("")
    else
      var first := Render(types, resolved, resolved[fs[0]], rank);
      if first.None? then None
      else if |fs| == 1 then first
      else
        var rest := RenderFields(types, resolved, fs[1..], rank, bound);
        if rest.None? then None else Some(first.value + ", " + rest.value)
  }

  /** The field loop yields a string exactly when every field renders. */
  lemma RenderFieldsDefined(types: map<Handle, BaseType>, resolved: map<NodeId, Handle>,
                            fs: seq<NodeId>, rank: map<Handle, nat>, bound: nat)
    requires Closed(types, resolved) && Ranked(types, resolved, rank)
    requires forall f :: f in fs ==> f in resolved && resolved[f] in rank && rank[resolved[f]] < bound
    ensures RenderFields(types, resolved, fs, rank, bound).Some? <==>
              forall i :: 0 <= i < |fs| ==> Render(types, resolved, resolved[fs[i]], rank).Some?
  {
    if RenderFields(types, resolved, fs, rank, bound).Some? {
      RenderFieldsSomeEach(types, resolved, fs, rank, bound);
    } else if forall i :: 0 <= i < |fs| ==> Render(types, resolved, resolved[fs[i]], rank).Some? {
      RenderFieldsEachSome(types, resolved, fs, rank, bound);
    }
  }

  /** When the field loop yields a string, every field renders. */
  lemma {:induction false} RenderFieldsSomeEach(types: map<Handle, BaseType>, resolved: map<NodeId, Handle>,
                                                fs: seq<NodeId>, rank: map<Handle, nat>, bound: nat)
    requires Closed(types, resolved) && Ranked(types, resolved, rank)
    requires forall f :: f in fs ==> f in resolved && resolved[f] in rank && rank[resolved[f]] < bound
    requires RenderFields(types, resolved, fs, rank, bound).Some?
    ensures forall i :: 0 <= i < |fs| ==> Render(types, resolved, resolved[fs[i]], rank).Some?
    decreases |fs|
  {
    if fs != [] {
      var tail := fs[1..];
      RenderFieldsStep(types, resolved, fs, rank, bound);
      RenderFieldsSomeEach(types, resolved, tail, rank, bound);
      forall i | 0 <= i < |fs| ensures Render(types, resolved, resolved[fs[i]], rank).Some? {
        if i > 0 {
          assert fs[i] == tail[i - 1];
        }
      }
    }
  }

  /** When every field renders, the field loop yields a string. */
  lemma {:induction false} RenderFieldsEachSome(types: map<Handle, BaseType>, resolved: map<NodeId, Handle>,
                                                fs: seq<NodeId>, rank: map<Handle, nat>, bound: nat)
    requires Closed(types, resolved) && Ranked(types, resolved, rank)
    requires forall f :: f in fs ==> f in resolved && resolved[f] in rank && rank[resolved[f]] < bound
    requires forall i :: 0 <= i < |fs| ==> Render(types, resolved, resolved[fs[i]], rank).Some?
    ensures RenderFields(types, resolved, fs, rank, bound).Some?
    decreases |fs|
  {
    if fs != [] {
      var tail := fs[1..];
      RenderFieldsStep(types, resolved, fs, rank, bound);
      forall j | 0 <= j < |tail| ensures Render(types, resolved, resolved[tail[j]], rank).Some? {
        assert tail[j] == fs[j + 1];
      }
      RenderFieldsEachSome(types, resolved, tail, rank, bound);
    }
  }

  /** One step of the field loop: a non-empty list renders when its head
      does and the rest does. */
  lemma RenderFieldsStep(types: map<Handle, BaseType>, resolved: map<NodeId, Handle>,
                         fs: seq<NodeId>, rank: map<Handle, nat>, bound: nat)
    requires Closed(types, resolved) && Ranked(types, resolved, rank) && fs != []
    requires forall f :: f in fs ==> f in resolved && resolved[f] in rank && rank[resolved[f]] < bound
    ensures forall f :: f in fs[1..] ==> f in fs
    ensures RenderFields(types, resolved, fs, rank, bound).Some? <==>
              Render(types, resolved, resolved[fs[0]], rank).Some? &&
              RenderFields(types, resolved, fs[1..], rank, bound).Some?
  {
    assert forall f :: f in fs[1..] ==> f in fs;
    if |fs| == 1 {
      assert fs[1..] == [];
    }
  }

  /** Leaf kinds render as their fixed literal whatever the context. */
  lemma RenderLeaf(types: map<Handle, BaseType>, resolved: map<NodeId, Handle>, h: Handle,
                   rank: map<Handle, nat>)
    requires Closed(types, resolved) && Ranked(types, resolved, rank) && h in rank
    requires LeafName(types[h].data).Some?
    ensures Render(types, resolved, h, rank) == LeafName(types[h].data)
  {
  }

  /** The unit tuple renders as "()". */
  lemma RenderUnit(types: map<Handle, BaseType>, resolved: map<NodeId, Handle>, h: Handle,
                   rank: map<Handle, nat>)
    requires Closed(types, resolved) && Ranked(types, resolved, rank) && h in rank
    requires types[h].data == TupleType([])
    ensures Render(types, resolved, h, rank) == Some("()")
  {
    assert RenderFields(types, resolved, [], rank, rank[h]) == Some("");
    assert "(" + "" + ")" == "()";
  }

  /** A tuple renders as its fields' renderings between parentheses. */
  lemma RenderTuple(types: map<Handle, BaseType>, resolved: map<NodeId, Handle>, h: Handle,
                    rank: map<Handle, nat>)
    requires Closed(types, resolved) && Ranked(types, resolved, rank) && h in rank
    requires types[h].data.TupleType?
    ensures forall f :: f in types[h].data.fields ==>
              f in resolved && resolved[f] in rank && rank[resolved[f]] < rank[h]
    ensures var inner := RenderFields(types, resolved, types[h].data.fields, rank, rank[h]);
            Render(types, resolved, h, rank) == if inner.None? then None else Some("(" + inner.value + ")")
  {
    var t := types[h];
    ClosedAt(types, resolved, h);
    assert forall f :: f in t.data.fields ==> resolved[f] in Children(t, resolved);
  }

  /** An array renders as "[", its element, ":" and the literal "CAPACITY"
      and "]": the capacity expression is never printed. */
  lemma RenderArray(types: map<Handle, BaseType>, resolved: map<NodeId, Handle>, h: Handle,
                    rank: map<Handle, nat>)
    requires Closed(types, resolved) && Ranked(types, resolved, rank) && h in rank
    requires types[h].data.ArrayType?
    ensures var e := types[h].data.element;
            e in resolved && resolved[e] in rank && rank[resolved[e]] < rank[h] &&
            var el := Render(types, resolved, resolved[e], rank);
            Render(types, resolved, h, rank) == if el.None? then None else Some("[" + el.value + ":" + "CAPACITY" + "]")
  {
    var t := types[h];
    ClosedAt(types, resolved, h);
    assert resolved[t.data.element] in Children(t, resolved);
  }

  /** A closure renders as its parameter tuple between bars, then its result
      type in braces; it renders only when both parts do. */
  lemma RenderClosure(types: map<Handle, BaseType>, resolved: map<NodeId, Handle>, h: Handle,
                      rank: map<Handle, nat>)
    requires Closed(types, resolved) && Ranked(types, resolved, rank) && h in rank
    requires types[h].data.ClosureType?
    ensures var p, r := types[h].data.parameters, types[h].data.resultType;
            p in rank && rank[p] < rank[h] &&
            r in resolved && resolved[r] in rank && rank[resolved[r]] < rank[h] &&
            var ps, rs := Render(types, resolved, p, rank), Render(types, resolved, resolved[r], rank);
            Render(types, resolved, h, rank) ==
              if ps.None? || rs.None? then None else Some("|" + ps.value + "| {" + rs.value + "}")
  {
    var t := types[h];
    ClosedAt(types, resolved, h);
    assert t.data.parameters in Children(t, resolved) && resolved[t.data.resultType] in Children(t, resolved);
  }

  lemma RenderFieldsTwo(types: map<Handle, BaseType>, resolved: map<NodeId, Handle>,
                         a: NodeId, b: NodeId, rank: map<Handle, nat>, bound: nat)
    requires Closed(types, resolved) && Ranked(types, resolved, rank)
    requires a in resolved && resolved[a] in rank && rank[resolved[a]] < bound
    requires b in resolved && resolved[b] in rank && rank[resolved[b]] < bound
    requires Render(types, resolved, resolved[a], rank).Some? && Render(types, resolved, resolved[b], rank).Some?
    ensures RenderFields(types, resolved, [a, b], rank, bound) ==
            Some(Render(types, resolved, resolved[a], rank).value + ", " + Render(types, resolved, resolved[b], rank).value)
  {
    assert [a, b][1..] == [b];
  }

  // ---------------------------------------------------------------------
  // InferType::applyScalarTypeHint, as a transition on (inferKind, defaultHint)

  function IntBits(k: IntKind): nat {
    match k case I8 => 8 case I16 => 16 case I32 => 32 case I64 => 64 case I128 => 128
  }

  function UintBits(k: UintKind): nat {
    match k case U8 => 8 case U16 => 16 case U32 => 32 case U64 => 64 case U128 => 128
  }

  function FloatBits(k: FloatKind): nat {
    match k case F32 => 32 case F64 => 64
  }

  /** The width a size hint stands for (0 for the unknown hint). */
  function SizeHintBits(s: SizeHint): nat {
    match s case S8 => 8 case S16 => 16 case S32 => 32 case S64 => 64 case S128 => 128
    case UnknownSize => 0
  }

  function SizeHintOfIntKind(k: IntKind): SizeHint {
    match k case I8 => S8 case I16 => S16 case I32 => S32 case I64 => S64 case I128 => S128
  }

  function SizeHintOfUintKind(k: UintKind): SizeHint {
    match k case U8 => S8 case U16 => S16 case U32 => S32 case U64 => S64 case U128 => S128
  }

  function SizeHintOfFloatKind(k: FloatKind): SizeHint {
    match k case F32 => S32 case F64 => S64
  }

  /** The (inferKind, defaultHint) that `applyScalarTypeHint(hint)` leaves. */
  function AppliedScalarHint(kind: InferKind, d: TypeHint, hint: BaseType)
    : (r: (InferKind, TypeHint))
    ensures hint.data.IntType? ==>
              r.0 == Integral && r.1.kind == TypeKind.Int && r.1.signHint == Signed &&
              SizeHintBits(r.1.sizeHint) == IntBits(hint.data.intKind)
    ensures hint.data.UintType? ==>
              r.0 == Integral && r.1.kind == TypeKind.Uint && r.1.signHint == Unsigned &&
              SizeHintBits(r.1.sizeHint) == UintBits(hint.data.uintKind)
    ensures hint.data.FloatType? ==>
              r.0 == InferKind.Float && r.1.kind == TypeKind.Float && r.1.signHint == Signed &&
              SizeHintBits(r.1.sizeHint) == FloatBits(hint.data.floatKind)
    ensures hint.data.USizeType? || hint.data.ISizeType? ==>
              r.0 == Integral && r.1.kind == hint.Kind() &&
              r.1.signHint == d.signHint && r.1.sizeHint == d.sizeHint
    ensures !IsIntegerLike(hint.Kind()) && !IsFloatLike(hint.Kind()) ==> r == (kind, d)
  {
    match hint.data
    case USizeType => (Integral, d.(kind := hint.Kind()))
    case ISizeType => (Integral, d.(kind := hint.Kind()))
    case IntType(k) => (Integral, TypeHint(hint.Kind(), Signed, SizeHintOfIntKind(k)))
    case UintType(k) => (Integral, TypeHint(hint.Kind(), Unsigned, SizeHintOfUintKind(k)))
    case FloatType(k) => (InferKind.Float, TypeHint(hint.Kind(), Signed, SizeHintOfFloatKind(k)))
    case _ => (kind, d)
  }

  /** The last Int, Uint or Float hint wins: it overwrites whatever an earlier
      hint recorded; and applying the same hint twice changes nothing more. */
  lemma ApplyScalarTypeHintLastWins(kind: InferKind, d: TypeHint, first: BaseType, second: BaseType)
    ensures var s1 := AppliedScalarHint(kind, d, first);
            AppliedScalarHint(s1.0, s1.1, first) == s1
    ensures second.data.IntType? || second.data.UintType? || second.data.FloatType? ==>
              var s1 := AppliedScalarHint(kind, d, first);
              AppliedScalarHint(s1.0, s1.1, second) == AppliedScalarHint(kind, d, second)
  {
  }

  /** A USize/ISize hint after an Int hint keeps the Int hint's sign and size:
      only the kind is recorded. */
  lemma SizeHintKeepsSignAndSize(kind: InferKind, d: TypeHint, intHint: BaseType, sizeHint: BaseType)
    requires intHint.data.IntType? && sizeHint.data.USizeType?
    ensures var s1 := AppliedScalarHint(kind, d, intHint);
            var s2 := AppliedScalarHint(s1.0, s1.1, sizeHint);
            s2.0 == Integral && s2.1 == TypeHint(TypeKind.USize, Signed, SizeHintOfIntKind(intHint.data.intKind))
  {
  }

  // ---------------------------------------------------------------------
  // TypeBoundsMappings::addBound / BaseType::inheritBounds

  predicate HasBoundId(bounds: seq<TypeBoundPredicate>, id: NodeId) {
    exists i :: 0 <= i < |bounds| && bounds[i].id == id
  }

  /** The bound list after `addBound(p)`. */
  function AddedBound(bounds: seq<TypeBoundPredicate>, p: TypeBoundPredicate)
    : (r: seq<TypeBoundPredicate>)
    ensures bounds <= r && |r| <= |bounds| + 1
    ensures HasBoundId(r, p.id)
  {
    if HasBoundId(bounds, p.id) then bounds
    else
      assert (bounds + [p])[|bounds|] == p;
      bounds + [p]
  }

  /** The bound list after `inheritBounds(ps)`: `addBound` folded left over ps. */
  function InheritedBounds(bounds: seq<TypeBoundPredicate>, ps: seq<TypeBoundPredicate>)
    : (r: seq<TypeBoundPredicate>)
    ensures |r| <= |bounds| + |ps|
    ensures ps != [] ==> HasBoundId(r, ps[|ps| - 1].id)
  {
    if ps == [] then bounds
    else AddedBound(InheritedBounds(bounds, ps[..|ps| - 1]), ps[|ps| - 1])
  }

  predicate UniqueBoundIds(bounds: seq<TypeBoundPredicate>) {
    forall i, j :: 0 <= i < j < |bounds| ==> bounds[i].id != bounds[j].id
  }

  function BoundIds(bounds: seq<TypeBoundPredicate>): set<NodeId> {
    set b | b in bounds :: b.id
  }

  /** `addBound` keeps the old list as a prefix, adds p's id, keeps ids unique,
      and a repeated call changes nothing. */
  lemma AddedBoundProperties(bounds: seq<TypeBoundPredicate>, p: TypeBoundPredicate)
    ensures var r := AddedBound(bounds, p);
            bounds <= r && |r| <= |bounds| + 1 && BoundIds(r) == BoundIds(bounds) + {p.id}
    ensures UniqueBoundIds(bounds) ==> UniqueBoundIds(AddedBound(bounds, p))
    ensures AddedBound(AddedBound(bounds, p), p) == AddedBound(bounds, p)
  {
    var r := AddedBound(bounds, p);
    if HasBoundId(bounds, p.id) {
      var i :| 0 <= i < |bounds| && bounds[i].id == p.id;
      assert bounds[i] in bounds;
    } else {
      assert r[|bounds|] == p;
      assert forall b :: b in r <==> b in bounds || b == p;
    }
    assert HasBoundId(r, p.id) by {
      if !HasBoundId(bounds, p.id) { assert r[|bounds|].id == p.id; }
    }
  }

  /** `inheritBounds` keeps the old list as a prefix, collects exactly the old
      ids and the inherited ones, and never introduces a duplicate id. */
  lemma {:induction false} InheritedBoundsProperties(bounds: seq<TypeBoundPredicate>,
                                                      ps: seq<TypeBoundPredicate>)
    ensures bounds <= InheritedBounds(bounds, ps)
    ensures BoundIds(InheritedBounds(bounds, ps)) == BoundIds(bounds) + BoundIds(ps)
    ensures UniqueBoundIds(bounds) ==> UniqueBoundIds(InheritedBounds(bounds, ps))
    decreases |ps|
  {
    if ps != [] {
      var init, p := ps[..|ps| - 1], ps[|ps| - 1];
      var before := InheritedBounds(bounds, init);
      assert InheritedBounds(bounds, ps) == AddedBound(before, p);
      InheritedBoundsProperties(bounds, init);
      AddedBoundProperties(before, p);
      assert BoundIds(ps) == BoundIds(init) + {p.id} by {
        assert ps == init + [p];
        BoundIdsSnoc(init, p);
      }
    }
  }

  lemma BoundIdsSnoc(init: seq<TypeBoundPredicate>, b: TypeBoundPredicate)
    ensures BoundIds(init + [b]) == BoundIds(init) + {b.id}
  {
    var ps := init + [b];
    forall x | x in BoundIds(ps) ensures x in BoundIds(init) + {b.id} {
      var c :| c in ps && c.id == x;
      var i :| 0 <= i < |ps| && ps[i] == c;
      if i < |ps| - 1 { assert init[i] == c; }
    }
    forall x | x in BoundIds(init) ensures x in BoundIds(ps) {
      var c :| c in init && c.id == x;
      assert c in ps;
    }
    assert b in ps;
  }
}
