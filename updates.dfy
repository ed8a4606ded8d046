/** The in-place updates of one type object in `TyCtx/TyTy.cpp`:
    `InferType::applyScalarTypeHint`, `TypeBoundsMappings::addBound` and
    `BaseType::inheritBounds`. Each is proved against the value function of
    `TyTy` that states its outcome (`AppliedScalarHint`, `AddedBound`,
    `InheritedBounds`), whose properties are lemmas there. */
module TypeUpdates {
  import opened Basic
  import opened TyTy
  import opened TypeContext

  /** `applyScalarTypeHint(hint)` on the inference variable at h. */
  method ApplyScalarTypeHint(ctx: TyCtx, h: Handle, hint: BaseType)
    requires ctx.Valid() && h in ctx.types && ctx.types[h].data.InferType?
    modifies ctx`types
    ensures ctx.Valid()
    ensures var t := old(ctx.types[h]);
            var s := AppliedScalarHint(t.data.inferKind, t.data.defaultHint, hint);
            ctx.types == old(ctx.types)[h := t.(data := InferType(s.0, s.1, t.data.inferLoc))]
  {
    var t := ctx.types[h];
    var inferKind, defaultHint := HintSwitch(t.data.inferKind, t.data.defaultHint, hint);
    ctx.SetObject(h, t.(data := t.data.(inferKind := inferKind, defaultHint := defaultHint)));
  }

  /** The switch of `applyScalarTypeHint` on the hint's kind, which sets
      `inferKind` and the fields of `defaultHint` one at a time. */
  method HintSwitch(kind: InferKind, d: TypeHint, hint: BaseType)
    returns (inferKind: InferKind, defaultHint: TypeHint)
    ensures (inferKind, defaultHint) == AppliedScalarHint(kind, d, hint)
  {
    inferKind, defaultHint := kind, d;
    match hint.data {
      case USizeType =>
        inferKind := Integral;
        defaultHint := defaultHint.(kind := hint.Kind());
      case ISizeType =>
        inferKind := Integral;
        defaultHint := defaultHint.(kind := hint.Kind());
      case IntType(k) =>
        inferKind := Integral;
        defaultHint := defaultHint.(kind := hint.Kind());
        defaultHint := defaultHint.(signHint := Signed);
        match k {
          case I8 => defaultHint := defaultHint.(sizeHint := S8);
          case I16 => defaultHint := defaultHint.(sizeHint := S16);
          case I32 => defaultHint := defaultHint.(sizeHint := S32);
          case I64 => defaultHint := defaultHint.(sizeHint := S64);
          case I128 => defaultHint := defaultHint.(sizeHint := S128);
        }
      case UintType(k) =>
        inferKind := Integral;
        defaultHint := defaultHint.(kind := hint.Kind());
        defaultHint := defaultHint.(signHint := Unsigned);
        match k {
          case U8 => defaultHint := defaultHint.(sizeHint := S8);
          case U16 => defaultHint := defaultHint.(sizeHint := S16);
          case U32 => defaultHint := defaultHint.(sizeHint := S32);
          case U64 => defaultHint := defaultHint.(sizeHint := S64);
          case U128 => defaultHint := defaultHint.(sizeHint := S128);
        }
      case FloatType(k) =>
        inferKind := InferKind.Float;
        defaultHint := defaultHint.(signHint := Signed);
        defaultHint := defaultHint.(kind := hint.Kind());
        match k {
          case F32 => defaultHint := defaultHint.(sizeHint := S32);
          case F64 => defaultHint := defaultHint.(sizeHint := S64);
        }
      case _ =>
    }
  }

  /** `addBound(p)` on the object at h: the scan stops at the first bound with
      p's id; only when there is none is p appended. */
  method AddBound(ctx: TyCtx, h: Handle, p: TypeBoundPredicate)
    requires ctx.Valid() && h in ctx.types
    modifies ctx`types
    ensures ctx.Valid()
    ensures var t := old(ctx.types[h]);
            ctx.types == old(ctx.types)[h := t.(specifiedBounds := AddedBound(t.specifiedBounds, p))]
  {
    var t := ctx.types[h];
    var bounds := t.specifiedBounds;
    for i := 0 to |bounds|
      invariant forall j :: 0 <= j < i ==> bounds[j].id != p.id
    {
      if bounds[i].id == p.id {
        assert HasBoundId(bounds, p.id);
        assert ctx.types[h := t] == ctx.types;
        return;
      }
    }
    ClosedAt(ctx.types, ctx.resolved, h);
    ctx.SetObject(h, t.(specifiedBounds := bounds + [p]));
  }

  /** `inheritBounds(ps)` on the object at h: `addBound` for each element of
      ps in order. */
  method InheritBounds(ctx: TyCtx, h: Handle, ps: seq<TypeBoundPredicate>)
    requires ctx.Valid() && h in ctx.types
    modifies ctx`types
    ensures ctx.Valid()
    ensures var t := old(ctx.types[h]);
            ctx.types == old(ctx.types)[h := t.(specifiedBounds := InheritedBounds(t.specifiedBounds, ps))]
  {
    ghost var t := ctx.types[h];
    for i := 0 to |ps|
      invariant ctx.Valid() && h in ctx.types
      invariant ctx.types == old(ctx.types)[h := t.(specifiedBounds := InheritedBounds(t.specifiedBounds, ps[..i]))]
    {
      assert ps[..i + 1][..i] == ps[..i];
      AddBound(ctx, h, ps[i]);
    }
    assert ps[..|ps|] == ps;
  }
}
