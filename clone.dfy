/** The `clone` family of `TyCtx/TyTy.cpp`: one method per BaseType subclass,
    `TypeVariable::clone`, `VariantDef::clone` and `StructFieldType::clone`.

    A clone is a fresh object in the arena. Non-inference clones keep the
    reference, type reference, kind and combined references of the original;
    `InferType::clone` draws a new NodeId, registers the clone under it and
    adds the original reference to the clone's combined set. Tuples,
    functions and closures clone the types they hold; `VariantDef::clone`
    clones its field types for their effect on the context but builds the
    copy from the original fields.

    The `clone` of Dynamic, Slice, Reference, RawPointer, PlaceHolder,
    Projection and FunctionPointer objects is not part of this model:
    `Cloneable` excludes them from everything a clone reaches. */
module Cloning {
  import opened Basic
  import opened TyTy
  import opened TypeContext

  /** Every registered NodeId was issued by the counter, so the next one is new. */
  ghost predicate IdsIssued(resolved: map<NodeId, Handle>, next: NodeId) {
    forall k :: k in resolved ==> k < next
  }

  /** What every clone call keeps of the context. */
  ghost predicate CloneInvariant(ctx: TyCtx)
    reads ctx
  {
    ctx.Valid() && IdsIssued(ctx.resolved, ctx.nextNodeId)
  }

  /** The second state only adds objects and registrations to the first. */
  ghost predicate Grown(t0: map<Handle, BaseType>, r0: map<NodeId, Handle>,
                        t1: map<Handle, BaseType>, r1: map<NodeId, Handle>)
  {
    (forall g :: g in t0 ==> g in t1 && t1[g] == t0[g]) &&
    (forall v :: v in r0 ==> v in r1 && r1[v] == r0[v])
  }

  /** The kinds whose `clone` is modelled. */
  predicate CloneShown(d: TypeData) {
    !(d.DynamicType? || d.SliceType? || d.ReferenceType? || d.RawPointerType? ||
      d.PlaceholderType? || d.ProjectionType? || d.FunctionPointerType?)
  }

  /** The kinds whose `clone` copies the payload as it is. */
  predicate CopiedOnClone(d: TypeData) {
    CloneShown(d) &&
    !(d.TupleType? || d.FunctionType? || d.ClosureType? || d.ADTType? || d.InferType?)
  }

  /** The objects whose `clone` the clone of t calls. */
  function ClonedChildren(t: BaseType, resolved: map<NodeId, Handle>): set<Handle> {
    match t.data
    case TupleType(fs) => set f | f in fs && f in resolved :: resolved[f]
    case FunctionType(_, ps, r, _) => (set p | p in ps :: p.paramType) + {r}
    case ClosureType(p, _, _, _) => {p}
    case ADTType(_, _, vs, _) => FieldTypes(vs)
    case _ => {}
  }

  /** The variables of a tuple whose clone keeps their reference stand for
      objects whose reference is registered: `TypeVariable::clone` asserts
      this of the clone. */
  ghost predicate FieldRefsRegistered(types: map<Handle, BaseType>, resolved: map<NodeId, Handle>,
                                      t: BaseType)
  {
    t.data.TupleType? ==>
      forall f :: f in t.data.fields && f in resolved && resolved[f] in types ==>
        types[resolved[f]].data.InferType? || types[resolved[f]].reference in resolved
  }

  /** The clone of h only reaches objects whose `clone` is modelled, and it
      terminates: every object it clones is ranked below its parent. */
  ghost predicate Cloneable(types: map<Handle, BaseType>, resolved: map<NodeId, Handle>,
                            h: Handle, rank: map<Handle, nat>)
    requires h in types && h in rank
    decreases rank[h]
  {
    CloneShown(types[h].data) && FieldRefsRegistered(types, resolved, types[h]) &&
    forall c :: c in ClonedChildren(types[h], resolved) ==>
      c in types && c in rank && rank[c] < rank[h] && Cloneable(types, resolved, c, rank)
  }

  ghost predicate CloneableBelow(types: map<Handle, BaseType>, resolved: map<NodeId, Handle>,
                                 h: Handle, rank: map<Handle, nat>, bound: nat)
  {
    h in types && h in rank && rank[h] < bound && Cloneable(types, resolved, h, rank)
  }

  /** Adding a new object is growth. */
  lemma GrownByNew(t0: map<Handle, BaseType>, r0: map<NodeId, Handle>, c: Handle, x: BaseType)
    requires c !in t0
    ensures Grown(t0, r0, t0[c := x], r0)
  {
  }

  /** Registering a new NodeId is growth. */
  lemma GrownByRegister(t0: map<Handle, BaseType>, r0: map<NodeId, Handle>, v: NodeId, c: Handle)
    requires v !in r0
    ensures Grown(t0, r0, t0, r0[v := c])
  {
  }

  lemma GrownTrans(t0: map<Handle, BaseType>, r0: map<NodeId, Handle>,
                   t1: map<Handle, BaseType>, r1: map<NodeId, Handle>,
                   t2: map<Handle, BaseType>, r2: map<NodeId, Handle>)
    requires Grown(t0, r0, t1, r1) && Grown(t1, r1, t2, r2)
    ensures Grown(t0, r0, t2, r2)
  {
  }

  /** Cloneability only depends on the objects below h, which growth keeps. */
  lemma {:induction false} CloneableGrown(t0: map<Handle, BaseType>, r0: map<NodeId, Handle>,
                                          t1: map<Handle, BaseType>, r1: map<NodeId, Handle>,
                                          h: Handle, rank: map<Handle, nat>)
    requires Closed(t0, r0) && Grown(t0, r0, t1, r1)
    requires h in t0 && h in rank && Cloneable(t0, r0, h, rank)
    ensures h in t1 && Cloneable(t1, r1, h, rank)
    decreases rank[h]
  {
    assert ClonedChildren(t1[h], r1) == ClonedChildren(t0[h], r0) by {
      if t0[h].data.TupleType? {
        ClosedAt(t0, r0, h);
      }
    }
    forall c | c in ClonedChildren(t1[h], r1) ensures Cloneable(t1, r1, c, rank) {
      CloneableGrown(t0, r0, t1, r1, c, rank);
    }
  }

  /** Each field type of each variant is among the variants' field types. */
  lemma {:induction false} FieldTypesContain(vs: seq<VariantDef>, i: nat, j: nat)
    requires i < |vs| && j < |vs[i].fields|
    ensures vs[i].fields[j].fieldType in FieldTypes(vs)
    decreases i
  {
    if i == 0 {
      assert vs[0].fields[j] in vs[0].fields;
    } else {
      FieldTypesContain(vs[1..], i - 1, j);
    }
  }

  /** The identity a clone's constructor receives: kept where the clone
      passes the identity, derived from the location where it passes one,
      empty otherwise. */
  function CloneIdentity(o: BaseType): TypeIdentity {
    match o.data
    case FunctionType(_, _, _, _) => o.identity
    case ClosureType(_, _, _, _) => o.identity
    case ADTType(_, _, _, _) => o.identity
    case ArrayType(_, _) => IdentityFrom(o.identity.loc)
    case ParamType(_, _) => IdentityFrom(o.identity.loc)
    case InferType(_, _, loc) => IdentityFrom(loc)
    case TupleType(_) => IdentityFrom(EmptyLocation)
    case _ => EmptyIdentity
  }

  /** Only the closure clone passes the specified bounds on. */
  function CloneBounds(o: BaseType): seq<TypeBoundPredicate> {
    if o.data.ClosureType? then o.specifiedBounds else []
  }

  /** x is a clone of o, in the fields every clone sets. A non-inference
      clone keeps the reference, type reference, kind and combined set, and
      for the kinds that hold no cloned type also the payload. An inference
      clone has a reference the context had not registered (r0), used as its
      type reference too, the same payload, and o's reference added to the
      combined set. */
  ghost predicate IsCloneOf(o: BaseType, x: BaseType, r0: map<NodeId, Handle>) {
    x.identity == CloneIdentity(o) && x.specifiedBounds == CloneBounds(o) &&
    if o.data.InferType? then
      x.reference !in r0 && x.typeReference == x.reference &&
      x.combined == o.combined + {o.reference} && x.data == o.data
    else
      x.reference == o.reference && x.typeReference == o.typeReference &&
      x.combined == o.combined && x.Kind() == o.Kind() &&
      (!(o.data.TupleType? || o.data.FunctionType? || o.data.ClosureType?) ==> x.data == o.data)
  }

  /** pc is a new object cloned from the object at p. */
  ghost predicate PointerCloned(t0: map<Handle, BaseType>, r0: map<NodeId, Handle>,
                                t1: map<Handle, BaseType>, p: Handle, pc: Handle)
  {
    p in t0 && pc in t1 && pc !in t0 && IsCloneOf(t0[p], t1[pc], r0)
  }

  /** cf is the TypeVariable `TypeVariable::clone` gives for the variable f:
      for an inference variable, a new registration of a clone; otherwise
      the reference of the original, which the clone shares. */
  ghost predicate VariableCloned(t0: map<Handle, BaseType>, r0: map<NodeId, Handle>,
                                 t1: map<Handle, BaseType>, r1: map<NodeId, Handle>,
                                 f: NodeId, cf: NodeId)
  {
    f in r0 && r0[f] in t0 && cf in r1 &&
    var o := t0[r0[f]];
    if o.data.InferType? then PointerCloned(t0, r0, t1, r0[f], r1[cf]) && t1[r1[cf]].reference == cf
    else cf == o.reference
  }

  lemma PointerClonedGrown(t0: map<Handle, BaseType>, r0: map<NodeId, Handle>,
                           t1: map<Handle, BaseType>, r1: map<NodeId, Handle>,
                           t2: map<Handle, BaseType>, r2: map<NodeId, Handle>,
                           p: Handle, pc: Handle)
    requires PointerCloned(t0, r0, t1, p, pc) && Grown(t1, r1, t2, r2)
    ensures PointerCloned(t0, r0, t2, p, pc)
  {
  }

  lemma VariableClonedGrown(t0: map<Handle, BaseType>, r0: map<NodeId, Handle>,
                            t1: map<Handle, BaseType>, r1: map<NodeId, Handle>,
                            t2: map<Handle, BaseType>, r2: map<NodeId, Handle>,
                            f: NodeId, cf: NodeId)
    requires VariableCloned(t0, r0, t1, r1, f, cf) && Grown(t1, r1, t2, r2)
    ensures VariableCloned(t0, r0, t2, r2, f, cf)
  {
    if t0[r0[f]].data.InferType? {
      PointerClonedGrown(t0, r0, t1, r1, t2, r2, r0[f], r1[cf]);
    }
  }

  /** A variable cloned relative to a later starting state is also cloned
      relative to an earlier one. */
  lemma VariableClonedRebase(t0: map<Handle, BaseType>, r0: map<NodeId, Handle>,
                             t1: map<Handle, BaseType>, r1: map<NodeId, Handle>,
                             t2: map<Handle, BaseType>, r2: map<NodeId, Handle>,
                             f: NodeId, cf: NodeId)
    requires Grown(t0, r0, t1, r1) && f in r0 && r0[f] in t0
    requires VariableCloned(t1, r1, t2, r2, f, cf)
    ensures VariableCloned(t0, r0, t2, r2, f, cf)
  {
  }

  lemma PointerClonedRebase(t0: map<Handle, BaseType>, r0: map<NodeId, Handle>,
                            t1: map<Handle, BaseType>, r1: map<NodeId, Handle>,
                            t2: map<Handle, BaseType>, p: Handle, pc: Handle)
    requires Grown(t0, r0, t1, r1) && p in t0
    requires PointerCloned(t1, r1, t2, p, pc)
    ensures PointerCloned(t0, r0, t2, p, pc)
  {
  }

  /** `BaseType::clone`, dispatched on the kind of the object at h. */
  method Clone(ctx: TyCtx, h: Handle, ghost rank: map<Handle, nat>) returns (c: Handle)
    requires CloneInvariant(ctx) && h in ctx.types && h in rank
    requires Cloneable(ctx.types, ctx.resolved, h, rank)
    modifies ctx`types, ctx`nextHandle, ctx`resolved, ctx`nextNodeId
    ensures CloneInvariant(ctx) && old(ctx.nextNodeId) <= ctx.nextNodeId
    ensures Grown(old(ctx.types), old(ctx.resolved), ctx.types, ctx.resolved)
    ensures PointerCloned(old(ctx.types), old(ctx.resolved), ctx.types, h, c)
    ensures old(ctx.types[h]).data.InferType? ==>
              ctx.types[c].reference == old(ctx.nextNodeId) && ctx.types[c].reference in ctx.resolved &&
              ctx.resolved[ctx.types[c].reference] == c
    decreases rank[h], 4
  {
    match ctx.types[h].data {
      case TupleType(_) => c := CloneTuple(ctx, h, rank);
      case FunctionType(_, _, _, _) => c := CloneFunction(ctx, h, rank);
      case ClosureType(_, _, _, _) => c := CloneClosure(ctx, h, rank);
      case ADTType(_, _, _, _) => c := CloneADT(ctx, h, rank);
      case InferType(_, _, _) => c := CloneInfer(ctx, h);
      case BoolType | CharType | IntType(_) | UintType(_) | FloatType(_) | USizeType | ISizeType
         | NeverType | StrType | ErrorType | ArrayType(_, _) | ParamType(_, _) =>
        c := CloneCopy(ctx, h);
      case DynamicType | SliceType(_) | ReferenceType(_, _) | RawPointerType(_, _) | PlaceholderType(_)
         | ProjectionType(_) | FunctionPointerType(_, _) =>
        assert false;
    }
  }

  /** The `clone` of Bool, Char, Int, Uint, Float, USize, ISize, Str, Never,
      Error, Array and Param objects: a new object with the same payload. */
  method CloneCopy(ctx: TyCtx, h: Handle) returns (c: Handle)
    requires CloneInvariant(ctx) && h in ctx.types && CopiedOnClone(ctx.types[h].data)
    modifies ctx`types, ctx`nextHandle
    ensures CloneInvariant(ctx)
    ensures Grown(old(ctx.types), ctx.resolved, ctx.types, ctx.resolved)
    ensures PointerCloned(old(ctx.types), ctx.resolved, ctx.types, h, c)
  {
    var t := ctx.types[h];
    ghost var t0 := ctx.types;
    var x := BaseType(t.reference, t.typeReference, CloneIdentity(t), [], t.combined, t.data);
    assert TypeVars(x.data) <= ctx.resolved.Keys && Pointers(x.data) <= ctx.types.Keys by {
      ClosedAt(t0, ctx.resolved, h);
    }
    c := ctx.NewType(x);
    CopyCloneDone(t0, ctx.resolved, h, c, x);
  }

  lemma CopyCloneDone(t0: map<Handle, BaseType>, r0: map<NodeId, Handle>, h: Handle, c: Handle, x: BaseType)
    requires h in t0 && CopiedOnClone(t0[h].data) && c !in t0
    requires var t := t0[h]; x == BaseType(t.reference, t.typeReference, CloneIdentity(t), [], t.combined, t.data)
    ensures Grown(t0, r0, t0[c := x], r0)
    ensures PointerCloned(t0, r0, t0[c := x], h, c)
  {
  }

  /** `InferType::clone`: a new NodeId becomes the clone's reference and the
      clone is registered under it; the clone's combined set holds the
      original's references and the original reference, which is what
      `appendReference` leaves. Copying the location entry is not part of
      this model. */
  method CloneInfer(ctx: TyCtx, h: Handle) returns (c: Handle)
    requires CloneInvariant(ctx) && h in ctx.types && ctx.types[h].data.InferType?
    modifies ctx`types, ctx`nextHandle, ctx`resolved, ctx`nextNodeId
    ensures CloneInvariant(ctx) && ctx.nextNodeId == old(ctx.nextNodeId) + 1
    ensures Grown(old(ctx.types), old(ctx.resolved), ctx.types, ctx.resolved)
    ensures PointerCloned(old(ctx.types), old(ctx.resolved), ctx.types, h, c)
    ensures ctx.types[c].reference == old(ctx.nextNodeId)
    ensures ctx.resolved == old(ctx.resolved)[old(ctx.nextNodeId) := c]
  {
    var t := ctx.types[h];
    ghost var t0, r0 := ctx.types, ctx.resolved;
    var id := ctx.NextNodeId();
    var x := BaseType(id, id, IdentityFrom(t.data.inferLoc), [], t.combined + {t.reference}, t.data);
    c := ctx.NewType(x);
    ghost var t1 := ctx.types;
    ctx.InsertType(NodeIdentity(id, ctx.currentCrateNum, t.data.inferLoc), c);
    InferCloneDone(t0, r0, ctx.nextNodeId, h, id, c, x);
  }

  lemma InferCloneDone(t0: map<Handle, BaseType>, r0: map<NodeId, Handle>, next: NodeId,
                       h: Handle, id: NodeId, c: Handle, x: BaseType)
    requires h in t0 && t0[h].data.InferType? && c !in t0
    requires IdsIssued(r0, id) && next == id + 1
    requires var t := t0[h];
             x == BaseType(id, id, IdentityFrom(t.data.inferLoc), [], t.combined + {t.reference}, t.data)
    ensures Grown(t0, r0, t0[c := x], r0[id := c])
    ensures PointerCloned(t0, r0, t0[c := x], h, c)
    ensures IdsIssued(r0[id := c], next)
  {
  }

  /** `TypeVariable::clone`: clones the type the variable stands for and
      returns a variable for the clone's reference. */
  method CloneTypeVariable(ctx: TyCtx, f: NodeId, ghost rank: map<Handle, nat>, ghost bound: nat)
    returns (cf: NodeId)
    requires CloneInvariant(ctx) && f in ctx.resolved
    requires CloneableBelow(ctx.types, ctx.resolved, ctx.resolved[f], rank, bound)
    requires var o := ctx.types[ctx.resolved[f]]; o.data.InferType? || o.reference in ctx.resolved
    modifies ctx`types, ctx`nextHandle, ctx`resolved, ctx`nextNodeId
    ensures CloneInvariant(ctx) && old(ctx.nextNodeId) <= ctx.nextNodeId
    ensures Grown(old(ctx.types), old(ctx.resolved), ctx.types, ctx.resolved)
    ensures VariableCloned(old(ctx.types), old(ctx.resolved), ctx.types, ctx.resolved, f, cf)
    decreases bound, 0
  {
    var c := Clone(ctx, ctx.resolved[f], rank);
    cf := ctx.types[c].reference;
  }

  /** Each pair of variables was cloned, in order. */
  ghost predicate FieldsCloned(t0: map<Handle, BaseType>, r0: map<NodeId, Handle>,
                               t1: map<Handle, BaseType>, r1: map<NodeId, Handle>,
                               fs: seq<NodeId>, cfs: seq<NodeId>)
  {
    |cfs| == |fs| && forall j :: 0 <= j < |fs| ==> VariableCloned(t0, r0, t1, r1, fs[j], cfs[j])
  }

  /** The copy `TupleType::clone` builds: a clone of the tuple at h whose
      field variables are the clones of the original's, in order. */
  ghost predicate TupleCloned(t0: map<Handle, BaseType>, r0: map<NodeId, Handle>,
                              t1: map<Handle, BaseType>, r1: map<NodeId, Handle>, h: Handle, c: Handle)
  {
    PointerCloned(t0, r0, t1, h, c) && t0[h].data.TupleType? && t1[c].data.TupleType? &&
    FieldsCloned(t0, r0, t1, r1, t0[h].data.fields, t1[c].data.fields)
  }

  /** `TupleType::clone`: every field variable cloned, in order. */
  method CloneTuple(ctx: TyCtx, h: Handle, ghost rank: map<Handle, nat>) returns (c: Handle)
    requires CloneInvariant(ctx) && h in ctx.types && h in rank && ctx.types[h].data.TupleType?
    requires Cloneable(ctx.types, ctx.resolved, h, rank)
    modifies ctx`types, ctx`nextHandle, ctx`resolved, ctx`nextNodeId
    ensures CloneInvariant(ctx) && old(ctx.nextNodeId) <= ctx.nextNodeId
    ensures Grown(old(ctx.types), old(ctx.resolved), ctx.types, ctx.resolved)
    ensures TupleCloned(old(ctx.types), old(ctx.resolved), ctx.types, ctx.resolved, h, c)
    decreases rank[h], 3
  {
    var t := ctx.types[h];
    var fs := t.data.fields;
    ghost var t0, r0 := ctx.types, ctx.resolved;
    var cloned: seq<NodeId> := [];
    for i := 0 to |fs|
      invariant CloneInvariant(ctx) && old(ctx.nextNodeId) <= ctx.nextNodeId
      invariant Grown(t0, r0, ctx.types, ctx.resolved)
      invariant FieldsCloned(t0, r0, ctx.types, ctx.resolved, fs[..i], cloned)
    {
      ghost var t1, r1 := ctx.types, ctx.resolved;
      TupleFieldReady(t0, r0, t1, r1, h, i, rank);
      var cf := CloneTypeVariable(ctx, fs[i], rank, rank[h]);
      TupleFieldDone(t0, r0, t1, r1, ctx.types, ctx.resolved, fs, i, cloned, cf);
      cloned := cloned + [cf];
    }
    var x := BaseType(t.reference, t.typeReference, IdentityFrom(EmptyLocation), [], t.combined,
                      TupleType(cloned));
    ghost var t2, r2 := ctx.types, ctx.resolved;
    TupleCloneRefs(t0, r0, t2, r2, fs[..|fs|], cloned, x);
    c := ctx.NewType(x);
    TupleCloneDone(t0, r0, t2, r2, h, c, x);
  }

  /** Before cloning field i of the tuple at h: the variable is registered,
      its object can be cloned, and a clone keeping its reference wraps a
      registered one. */
  lemma TupleFieldReady(t0: map<Handle, BaseType>, r0: map<NodeId, Handle>,
                        t1: map<Handle, BaseType>, r1: map<NodeId, Handle>,
                        h: Handle, i: nat, rank: map<Handle, nat>)
    requires Closed(t0, r0) && Grown(t0, r0, t1, r1)
    requires h in t0 && h in rank && t0[h].data.TupleType? && Cloneable(t0, r0, h, rank)
    requires i < |t0[h].data.fields|
    ensures var f := t0[h].data.fields[i];
            f in r0 && f in r1 && r1[f] == r0[f] && CloneableBelow(t1, r1, r1[f], rank, rank[h]) &&
            (t1[r1[f]].data.InferType? || t1[r1[f]].reference in r1)
  {
    var f := t0[h].data.fields[i];
    ClosedAt(t0, r0, h);
    assert f in TypeVars(t0[h].data);
    var child := r0[f];
    assert child in ClonedChildren(t0[h], r0);
    CloneableGrown(t0, r0, t1, r1, child, rank);
  }

  lemma TupleFieldDone(t0: map<Handle, BaseType>, r0: map<NodeId, Handle>,
                       t1: map<Handle, BaseType>, r1: map<NodeId, Handle>,
                       t2: map<Handle, BaseType>, r2: map<NodeId, Handle>,
                       fs: seq<NodeId>, i: nat, cfs: seq<NodeId>, cf: NodeId)
    requires i < |fs| && Grown(t0, r0, t1, r1) && FieldsCloned(t0, r0, t1, r1, fs[..i], cfs)
    requires fs[i] in r0 && r0[fs[i]] in t0
    requires Grown(t1, r1, t2, r2) && VariableCloned(t1, r1, t2, r2, fs[i], cf)
    ensures Grown(t0, r0, t2, r2)
    ensures FieldsCloned(t0, r0, t2, r2, fs[..i + 1], cfs + [cf])
  {
    forall j | 0 <= j < i ensures VariableCloned(t0, r0, t2, r2, fs[j], cfs[j]) {
      assert fs[..i][j] == fs[j];
      VariableClonedGrown(t0, r0, t1, r1, t2, r2, fs[j], cfs[j]);
    }
    VariableClonedRebase(t0, r0, t1, r1, t2, r2, fs[i], cf);
  }

  lemma TupleCloneRefs(t0: map<Handle, BaseType>, r0: map<NodeId, Handle>,
                       t1: map<Handle, BaseType>, r1: map<NodeId, Handle>,
                       fs: seq<NodeId>, cfs: seq<NodeId>, x: BaseType)
    requires FieldsCloned(t0, r0, t1, r1, fs, cfs) && x.data == TupleType(cfs)
    ensures TypeVars(x.data) <= r1.Keys && Pointers(x.data) <= t1.Keys
  {
    forall v | v in TypeVars(x.data) ensures v in r1 {
      var j :| 0 <= j < |cfs| && cfs[j] == v;
    }
  }

  lemma TupleCloneDone(t0: map<Handle, BaseType>, r0: map<NodeId, Handle>,
                       t1: map<Handle, BaseType>, r1: map<NodeId, Handle>, h: Handle, c: Handle, x: BaseType)
    requires Grown(t0, r0, t1, r1) && h in t0 && t0[h].data.TupleType? && c !in t1
    requires x.data.TupleType?
    requires var t := t0[h];
             FieldsCloned(t0, r0, t1, r1, t.data.fields[..|t.data.fields|], x.data.fields) &&
             x == BaseType(t.reference, t.typeReference, IdentityFrom(EmptyLocation), [], t.combined,
                           TupleType(x.data.fields))
    ensures Grown(t0, r0, t1[c := x], r1)
    ensures TupleCloned(t0, r0, t1[c := x], r1, h, c)
  {
    var fs := t0[h].data.fields;
    assert fs[..|fs|] == fs;
    forall j | 0 <= j < |fs| ensures VariableCloned(t0, r0, t1[c := x], r1, fs[j], x.data.fields[j]) {
      VariableClonedGrown(t0, r0, t1, r1, t1[c := x], r1, fs[j], x.data.fields[j]);
    }
  }

  /** Each parameter's type was cloned and its pattern kept, in order. */
  ghost predicate ParamsCloned(t0: map<Handle, BaseType>, r0: map<NodeId, Handle>,
                               t1: map<Handle, BaseType>, ps: seq<FnParam>, cps: seq<FnParam>)
  {
    |cps| == |ps| &&
    forall j :: 0 <= j < |ps| ==>
      cps[j].pattern == ps[j].pattern && PointerCloned(t0, r0, t1, ps[j].paramType, cps[j].paramType)
  }

  /** The copy `FunctionType::clone` builds: a clone of the function at h
      with cloned parameter and return types, and the same name, patterns
      and generics. */
  ghost predicate FunctionCloned(t0: map<Handle, BaseType>, r0: map<NodeId, Handle>,
                                 t1: map<Handle, BaseType>, h: Handle, c: Handle)
  {
    PointerCloned(t0, r0, t1, h, c) && t0[h].data.FunctionType? && t1[c].data.FunctionType? &&
    var d := t0[h].data;
    var cd := t1[c].data;
    cd.name == d.name && cd.generics == d.generics &&
    ParamsCloned(t0, r0, t1, d.params, cd.params) &&
    PointerCloned(t0, r0, t1, d.returnType, cd.returnType)
  }

  /** `FunctionType::clone`: the parameter types and the return type cloned. */
  method CloneFunction(ctx: TyCtx, h: Handle, ghost rank: map<Handle, nat>) returns (c: Handle)
    requires CloneInvariant(ctx) && h in ctx.types && h in rank && ctx.types[h].data.FunctionType?
    requires Cloneable(ctx.types, ctx.resolved, h, rank)
    modifies ctx`types, ctx`nextHandle, ctx`resolved, ctx`nextNodeId
    ensures CloneInvariant(ctx) && old(ctx.nextNodeId) <= ctx.nextNodeId
    ensures Grown(old(ctx.types), old(ctx.resolved), ctx.types, ctx.resolved)
    ensures FunctionCloned(old(ctx.types), old(ctx.resolved), ctx.types, h, c)
    decreases rank[h], 3
  {
    var t := ctx.types[h];
    ghost var t0, r0 := ctx.types, ctx.resolved;
    var clonedParams := CloneParams(ctx, h, rank);
    ghost var t1, r1 := ctx.types, ctx.resolved;
    FunctionPartReady(t0, r0, t1, r1, h, t.data.returnType, rank);
    var ret := Clone(ctx, t.data.returnType, rank);
    var x := BaseType(t.reference, t.typeReference, t.identity, [], t.combined,
                      FunctionType(t.data.name, clonedParams, ret, t.data.generics));
    ghost var t2, r2 := ctx.types, ctx.resolved;
    FunctionCloneRefs(t0, r0, t1, r1, t2, r2, h, clonedParams, ret, x);
    c := ctx.NewType(x);
    FunctionCloneDone(t0, r0, t1, r1, t2, r2, h, ret, c, x);
  }

  /** The parameter loop of `FunctionType::clone`. */
  method CloneParams(ctx: TyCtx, h: Handle, ghost rank: map<Handle, nat>) returns (cps: seq<FnParam>)
    requires CloneInvariant(ctx) && h in ctx.types && h in rank && ctx.types[h].data.FunctionType?
    requires Cloneable(ctx.types, ctx.resolved, h, rank)
    modifies ctx`types, ctx`nextHandle, ctx`resolved, ctx`nextNodeId
    ensures CloneInvariant(ctx) && old(ctx.nextNodeId) <= ctx.nextNodeId
    ensures Grown(old(ctx.types), old(ctx.resolved), ctx.types, ctx.resolved)
    ensures var ps := old(ctx.types[h]).data.params;
            ParamsCloned(old(ctx.types), old(ctx.resolved), ctx.types, ps[..|ps|], cps)
    decreases rank[h], 2
  {
    var ps := ctx.types[h].data.params;
    ghost var t0, r0 := ctx.types, ctx.resolved;
    cps := [];
    for i := 0 to |ps|
      invariant CloneInvariant(ctx) && old(ctx.nextNodeId) <= ctx.nextNodeId
      invariant Grown(t0, r0, ctx.types, ctx.resolved)
      invariant ParamsCloned(t0, r0, ctx.types, ps[..i], cps)
    {
      ghost var t1, r1 := ctx.types, ctx.resolved;
      FunctionPartReady(t0, r0, t1, r1, h, ps[i].paramType, rank) by {
        assert ps[i] in ps;
      }
      var pc := Clone(ctx, ps[i].paramType, rank);
      ParamDone(t0, r0, t1, r1, ctx.types, ctx.resolved, ps, i, cps, pc);
      cps := cps + [FnParam(ps[i].pattern, pc)];
    }
  }

  /** A parameter or the return type of the function at h can be cloned. */
  lemma FunctionPartReady(t0: map<Handle, BaseType>, r0: map<NodeId, Handle>,
                          t1: map<Handle, BaseType>, r1: map<NodeId, Handle>,
                          h: Handle, p: Handle, rank: map<Handle, nat>)
    requires Closed(t0, r0) && Grown(t0, r0, t1, r1)
    requires h in t0 && h in rank && t0[h].data.FunctionType? && Cloneable(t0, r0, h, rank)
    requires p in ClonedChildren(t0[h], r0)
    ensures p in t0 && CloneableBelow(t1, r1, p, rank, rank[h])
  {
    CloneableGrown(t0, r0, t1, r1, p, rank);
  }

  lemma ParamDone(t0: map<Handle, BaseType>, r0: map<NodeId, Handle>,
                  t1: map<Handle, BaseType>, r1: map<NodeId, Handle>,
                  t2: map<Handle, BaseType>, r2: map<NodeId, Handle>,
                  ps: seq<FnParam>, i: nat, cps: seq<FnParam>, pc: Handle)
    requires i < |ps| && Grown(t0, r0, t1, r1) && ParamsCloned(t0, r0, t1, ps[..i], cps)
    requires ps[i].paramType in t0
    requires Grown(t1, r1, t2, r2) && PointerCloned(t1, r1, t2, ps[i].paramType, pc)
    ensures Grown(t0, r0, t2, r2)
    ensures ParamsCloned(t0, r0, t2, ps[..i + 1], cps + [FnParam(ps[i].pattern, pc)])
  {
    forall j | 0 <= j < i ensures PointerCloned(t0, r0, t2, ps[j].paramType, cps[j].paramType) {
      assert ps[..i][j] == ps[j];
      PointerClonedGrown(t0, r0, t1, r1, t2, r2, ps[j].paramType, cps[j].paramType);
    }
    PointerClonedRebase(t0, r0, t1, r1, t2, ps[i].paramType, pc);
  }

  lemma FunctionCloneRefs(t0: map<Handle, BaseType>, r0: map<NodeId, Handle>,
                          t1: map<Handle, BaseType>, r1: map<NodeId, Handle>,
                          t2: map<Handle, BaseType>, r2: map<NodeId, Handle>,
                          h: Handle, cps: seq<FnParam>, ret: Handle, x: BaseType)
    requires h in t0 && t0[h].data.FunctionType?
    requires ParamsCloned(t0, r0, t1, t0[h].data.params[..|t0[h].data.params|], cps) && Grown(t1, r1, t2, r2)
    requires ret in t2 && x.data == FunctionType(t0[h].data.name, cps, ret, t0[h].data.generics)
    ensures TypeVars(x.data) <= r2.Keys && Pointers(x.data) <= t2.Keys
  {
    assert t0[h].data.params[..|t0[h].data.params|] == t0[h].data.params;
    forall q | q in Pointers(x.data) ensures q in t2 {
      if q != ret {
        var p :| p in cps && p.paramType == q;
        var j :| 0 <= j < |cps| && cps[j] == p;
      }
    }
  }

  lemma FunctionCloneDone(t0: map<Handle, BaseType>, r0: map<NodeId, Handle>,
                          t1: map<Handle, BaseType>, r1: map<NodeId, Handle>,
                          t2: map<Handle, BaseType>, r2: map<NodeId, Handle>,
                          h: Handle, ret: Handle, c: Handle, x: BaseType)
    requires h in t0 && t0[h].data.FunctionType? && x.data.FunctionType?
    requires Grown(t0, r0, t1, r1)
    requires ParamsCloned(t0, r0, t1, t0[h].data.params[..|t0[h].data.params|], x.data.params)
    requires t0[h].data.returnType in t0
    requires Grown(t1, r1, t2, r2) && PointerCloned(t1, r1, t2, t0[h].data.returnType, ret)
    requires c !in t2
    requires var t := t0[h];
             x == BaseType(t.reference, t.typeReference, t.identity, [], t.combined,
                           FunctionType(t.data.name, x.data.params, ret, t.data.generics))
    ensures Grown(t0, r0, t2[c := x], r2)
    ensures FunctionCloned(t0, r0, t2[c := x], h, c)
  {
    var ps := t0[h].data.params;
    var cps := x.data.params;
    assert ps[..|ps|] == ps;
    forall j | 0 <= j < |ps| ensures PointerCloned(t0, r0, t2[c := x], ps[j].paramType, cps[j].paramType) {
      PointerClonedGrown(t0, r0, t1, r1, t2, r2, ps[j].paramType, cps[j].paramType);
      PointerClonedGrown(t0, r0, t2, r2, t2[c := x], r2, ps[j].paramType, cps[j].paramType);
    }
    PointerClonedRebase(t0, r0, t1, r1, t2, t0[h].data.returnType, ret);
    PointerClonedGrown(t0, r0, t2, r2, t2[c := x], r2, t0[h].data.returnType, ret);
  }

  /** The copy `ClosureType::clone` builds: a clone of the closure at h whose
      parameter tuple is a clone of the original's, with the same result
      variable, generics and captures. */
  ghost predicate ClosureCloned(t0: map<Handle, BaseType>, r0: map<NodeId, Handle>,
                                t1: map<Handle, BaseType>, h: Handle, c: Handle)
  {
    PointerCloned(t0, r0, t1, h, c) && t0[h].data.ClosureType? && t1[c].data.ClosureType? &&
    var d := t0[h].data;
    var cd := t1[c].data;
    cd.resultType == d.resultType && cd.generics == d.generics && cd.captures == d.captures &&
    PointerCloned(t0, r0, t1, d.parameters, cd.parameters)
  }

  /** `ClosureType::clone`: the parameter tuple cloned; result variable,
      identity, generics, captures and specified bounds kept. */
  method CloneClosure(ctx: TyCtx, h: Handle, ghost rank: map<Handle, nat>) returns (c: Handle)
    requires CloneInvariant(ctx) && h in ctx.types && h in rank && ctx.types[h].data.ClosureType?
    requires Cloneable(ctx.types, ctx.resolved, h, rank)
    modifies ctx`types, ctx`nextHandle, ctx`resolved, ctx`nextNodeId
    ensures CloneInvariant(ctx) && old(ctx.nextNodeId) <= ctx.nextNodeId
    ensures Grown(old(ctx.types), old(ctx.resolved), ctx.types, ctx.resolved)
    ensures ClosureCloned(old(ctx.types), old(ctx.resolved), ctx.types, h, c)
    decreases rank[h], 3
  {
    var t := ctx.types[h];
    ghost var t0, r0 := ctx.types, ctx.resolved;
    var ps := Clone(ctx, t.data.parameters, rank);
    ghost var t1, r1 := ctx.types, ctx.resolved;
    var x := BaseType(t.reference, t.typeReference, t.identity, t.specifiedBounds, t.combined,
                      ClosureType(ps, t.data.resultType, t.data.generics, t.data.captures));
    ClosureCloneRefs(t0, r0, t1, r1, h, ps, x);
    c := ctx.NewType(x);
    ClosureCloneDone(t0, r0, t1, r1, h, ps, c, x);
  }

  lemma ClosureCloneRefs(t0: map<Handle, BaseType>, r0: map<NodeId, Handle>,
                         t1: map<Handle, BaseType>, r1: map<NodeId, Handle>,
                         h: Handle, ps: Handle, x: BaseType)
    requires Closed(t0, r0) && Grown(t0, r0, t1, r1) && h in t0 && t0[h].data.ClosureType?
    requires ps in t1
    requires x.data == ClosureType(ps, t0[h].data.resultType, t0[h].data.generics, t0[h].data.captures)
    ensures TypeVars(x.data) <= r1.Keys && Pointers(x.data) <= t1.Keys
  {
    ClosedAt(t0, r0, h);
  }

  lemma ClosureCloneDone(t0: map<Handle, BaseType>, r0: map<NodeId, Handle>,
                         t1: map<Handle, BaseType>, r1: map<NodeId, Handle>,
                         h: Handle, ps: Handle, c: Handle, x: BaseType)
    requires Grown(t0, r0, t1, r1) && h in t0 && t0[h].data.ClosureType?
    requires PointerCloned(t0, r0, t1, t0[h].data.parameters, ps) && c !in t1
    requires var t := t0[h];
             x == BaseType(t.reference, t.typeReference, t.identity, t.specifiedBounds, t.combined,
                           ClosureType(ps, t.data.resultType, t.data.generics, t.data.captures))
    ensures Grown(t0, r0, t1[c := x], r1)
    ensures ClosureCloned(t0, r0, t1[c := x], h, c)
  {
  }

  /** `ADTType::clone`: every variant cloned; the copy holds the variants
      `VariantDef::clone` returns, which equal the originals, so the copy
      has the payload of the original. */
  method CloneADT(ctx: TyCtx, h: Handle, ghost rank: map<Handle, nat>) returns (c: Handle)
    requires CloneInvariant(ctx) && h in ctx.types && h in rank && ctx.types[h].data.ADTType?
    requires Cloneable(ctx.types, ctx.resolved, h, rank)
    modifies ctx`types, ctx`nextHandle, ctx`resolved, ctx`nextNodeId
    ensures CloneInvariant(ctx) && old(ctx.nextNodeId) <= ctx.nextNodeId
    ensures Grown(old(ctx.types), old(ctx.resolved), ctx.types, ctx.resolved)
    ensures PointerCloned(old(ctx.types), old(ctx.resolved), ctx.types, h, c)
    decreases rank[h], 3
  {
    var t := ctx.types[h];
    ghost var t0, r0 := ctx.types, ctx.resolved;
    var clonedVariants := CloneVariants(ctx, h, rank);
    var x := BaseType(t.reference, t.typeReference, t.identity, [], t.combined,
                      ADTType(t.data.identifier, t.data.adtKind, clonedVariants, t.data.generics));
    ghost var t1, r1 := ctx.types, ctx.resolved;
    ADTCloneRefs(t0, r0, t1, r1, h, x);
    c := ctx.NewType(x);
    ADTCloneDone(t0, r0, t1, r1, h, c, x);
  }

  /** The variant loop of `ADTType::clone`. */
  method CloneVariants(ctx: TyCtx, h: Handle, ghost rank: map<Handle, nat>) returns (cvs: seq<VariantDef>)
    requires CloneInvariant(ctx) && h in ctx.types && h in rank && ctx.types[h].data.ADTType?
    requires Cloneable(ctx.types, ctx.resolved, h, rank)
    modifies ctx`types, ctx`nextHandle, ctx`resolved, ctx`nextNodeId
    ensures CloneInvariant(ctx) && old(ctx.nextNodeId) <= ctx.nextNodeId
    ensures Grown(old(ctx.types), old(ctx.resolved), ctx.types, ctx.resolved)
    ensures cvs == old(ctx.types[h]).data.variants
    decreases rank[h], 2
  {
    var vs := ctx.types[h].data.variants;
    ghost var t0, r0 := ctx.types, ctx.resolved;
    cvs := [];
    for i := 0 to |vs|
      invariant CloneInvariant(ctx) && old(ctx.nextNodeId) <= ctx.nextNodeId
      invariant Grown(t0, r0, ctx.types, ctx.resolved)
      invariant cvs == vs[..i]
    {
      ghost var t1, r1 := ctx.types, ctx.resolved;
      VariantReady(t0, r0, t1, r1, h, i, rank);
      var v := CloneVariant(ctx, vs[i], rank, rank[h]);
      GrownTrans(t0, r0, t1, r1, ctx.types, ctx.resolved);
      cvs := cvs + [v];
    }
  }

  /** Before cloning variant i of the ADT at h: all its field types can be cloned. */
  lemma VariantReady(t0: map<Handle, BaseType>, r0: map<NodeId, Handle>,
                     t1: map<Handle, BaseType>, r1: map<NodeId, Handle>,
                     h: Handle, i: nat, rank: map<Handle, nat>)
    requires Closed(t0, r0) && Grown(t0, r0, t1, r1)
    requires h in t0 && h in rank && t0[h].data.ADTType? && Cloneable(t0, r0, h, rank)
    requires i < |t0[h].data.variants|
    ensures var v := t0[h].data.variants[i];
            forall j :: 0 <= j < |v.fields| ==> CloneableBelow(t1, r1, v.fields[j].fieldType, rank, rank[h])
  {
    var vs := t0[h].data.variants;
    forall j | 0 <= j < |vs[i].fields|
      ensures CloneableBelow(t1, r1, vs[i].fields[j].fieldType, rank, rank[h])
    {
      FieldTypesContain(vs, i, j);
      CloneableGrown(t0, r0, t1, r1, vs[i].fields[j].fieldType, rank);
    }
  }

  lemma ADTCloneRefs(t0: map<Handle, BaseType>, r0: map<NodeId, Handle>,
                     t1: map<Handle, BaseType>, r1: map<NodeId, Handle>, h: Handle, x: BaseType)
    requires Closed(t0, r0) && Grown(t0, r0, t1, r1) && h in t0
    requires x.data == t0[h].data
    ensures TypeVars(x.data) <= r1.Keys && Pointers(x.data) <= t1.Keys
  {
    ClosedAt(t0, r0, h);
  }

  lemma ADTCloneDone(t0: map<Handle, BaseType>, r0: map<NodeId, Handle>,
                     t1: map<Handle, BaseType>, r1: map<NodeId, Handle>, h: Handle, c: Handle, x: BaseType)
    requires Grown(t0, r0, t1, r1) && h in t0 && t0[h].data.ADTType? && c !in t1
    requires var t := t0[h]; x == BaseType(t.reference, t.typeReference, t.identity, [], t.combined, t.data)
    ensures Grown(t0, r0, t1[c := x], r1)
    ensures PointerCloned(t0, r0, t1[c := x], h, c)
  {
  }

  /** `VariantDef::clone`: clones every field, then builds the copy from the
      original fields, so the clones only affect the context. */
  method CloneVariant(ctx: TyCtx, v: VariantDef, ghost rank: map<Handle, nat>, ghost bound: nat)
    returns (r: VariantDef)
    requires CloneInvariant(ctx)
    requires forall j :: 0 <= j < |v.fields| ==>
               CloneableBelow(ctx.types, ctx.resolved, v.fields[j].fieldType, rank, bound)
    modifies ctx`types, ctx`nextHandle, ctx`resolved, ctx`nextNodeId
    ensures CloneInvariant(ctx) && old(ctx.nextNodeId) <= ctx.nextNodeId
    ensures Grown(old(ctx.types), old(ctx.resolved), ctx.types, ctx.resolved)
    ensures r == v
    decreases bound, 1
  {
    ghost var t0, r0 := ctx.types, ctx.resolved;
    var clonedFields: seq<StructFieldType> := [];
    for j := 0 to |v.fields|
      invariant CloneInvariant(ctx) && old(ctx.nextNodeId) <= ctx.nextNodeId
      invariant Grown(t0, r0, ctx.types, ctx.resolved)
    {
      ghost var t1, r1 := ctx.types, ctx.resolved;
      CloneableGrown(t0, r0, t1, r1, v.fields[j].fieldType, rank);
      var f := CloneStructField(ctx, v.fields[j], rank, bound);
      GrownTrans(t0, r0, t1, r1, ctx.types, ctx.resolved);
      clonedFields := clonedFields + [f];
    }
    r := VariantDef(v.id, v.identifier, v.ident, v.kind, v.discriminant, v.fields);
  }

  /** `StructFieldType::clone`: the field's type cloned, the rest kept. */
  method CloneStructField(ctx: TyCtx, f: StructFieldType, ghost rank: map<Handle, nat>, ghost bound: nat)
    returns (r: StructFieldType)
    requires CloneInvariant(ctx)
    requires CloneableBelow(ctx.types, ctx.resolved, f.fieldType, rank, bound)
    modifies ctx`types, ctx`nextHandle, ctx`resolved, ctx`nextNodeId
    ensures CloneInvariant(ctx) && old(ctx.nextNodeId) <= ctx.nextNodeId
    ensures Grown(old(ctx.types), old(ctx.resolved), ctx.types, ctx.resolved)
    ensures r.ref == f.ref && r.identifier == f.identifier && r.loc == f.loc
    ensures PointerCloned(old(ctx.types), old(ctx.resolved), ctx.types, f.fieldType, r.fieldType)
    decreases bound, 0
  {
    var c := Clone(ctx, f.fieldType, rank);
    r := StructFieldType(f.ref, f.identifier, c, f.loc);
  }
}
