/** `BaseType::destructure` (both overloads), `ParamType::resolve` and
    `PlaceholderType::canResolve`/`resolve` of `TyCtx/TyTy.cpp`: following
    Parameter, Placeholder and Projection indirection through the context.

    `ParamType::canResolve` is not part of this model: it is the parameter
    `canResolve`. Loops that the source may run forever get a ghost `fuel`;
    a run that needs more is `OutOfFuel`, which the methods exclude in their
    preconditions. A failed `TypeVariable` lookup (the source asserts) is
    `Aborts`. */
module Destructure {
  import opened Basic
  import opened TyTy
  import opened TypeContext

  /** `MAX_RECURSION_DEPTH`. */
  const MaxRecursionDepth: nat := 1024 * 16

  datatype Resolution = Resolved(h: Handle) | Aborts | OutOfFuel

  /** The `while` loop of `ParamType::resolve`, from r: follow a Parameter
      that can resolve to the type of its type reference, until the kind is
      not Parameter, canResolve fails, or the step leads back to r. */
  function ParamChain(types: map<Handle, BaseType>, resolved: map<NodeId, Handle>,
                      canResolve: Handle -> bool, r: Handle, fuel: nat): (res: Resolution)
    requires Closed(types, resolved) && r in types
    ensures res.Resolved? ==> res.h in types
    decreases fuel
  {
    if types[r].Kind() != TypeKind.Parameter || !canResolve(r) then Resolved(r)
    else if types[r].typeReference !in resolved then Aborts
    else
      var n := resolved[types[r].typeReference];
      if r == n then Resolved(r)
      else if fuel == 0 then OutOfFuel
      else ParamChain(types, resolved, canResolve, n, fuel - 1)
  }

  /** `ParamType::resolve` of the Parameter object p. */
  function ParamResolution(types: map<Handle, BaseType>, resolved: map<NodeId, Handle>,
                           canResolve: Handle -> bool, p: Handle, fuel: nat): (res: Resolution)
    requires Closed(types, resolved) && p in types
    ensures res.Resolved? ==> res.h in types
  {
    var tr := types[p].typeReference;
    if tr !in resolved then Aborts
    else
      match ParamChain(types, resolved, canResolve, resolved[tr], fuel)
      case Resolved(r) =>
        if types[r].Kind() == TypeKind.Parameter && types[r].reference == types[r].typeReference then
          (if types[r].typeReference in resolved then Resolved(resolved[types[r].typeReference]) else Aborts)
        else Resolved(r)
      case Aborts => Aborts
      case OutOfFuel => OutOfFuel
  }

  /** Where the loop of `ParamType::resolve` stops: not a Parameter, one
      that cannot resolve, or one whose type reference leads to itself. */
  lemma {:induction false} ParamChainStops(types: map<Handle, BaseType>, resolved: map<NodeId, Handle>,
                                          canResolve: Handle -> bool, r: Handle, fuel: nat)
    requires Closed(types, resolved) && r in types
    ensures var res := ParamChain(types, resolved, canResolve, r, fuel);
            res.Resolved? ==>
              types[res.h].Kind() != TypeKind.Parameter || !canResolve(res.h) ||
              (types[res.h].typeReference in resolved && resolved[types[res.h].typeReference] == res.h)
    decreases fuel
  {
    if types[r].Kind() == TypeKind.Parameter && canResolve(r) && types[r].typeReference in resolved {
      var n := resolved[types[r].typeReference];
      if r != n && fuel > 0 {
        ParamChainStops(types, resolved, canResolve, n, fuel - 1);
      }
    }
  }

  /** A non-Parameter type is its own chain end, at no cost in fuel. */
  lemma ParamChainOfNonParameter(types: map<Handle, BaseType>, resolved: map<NodeId, Handle>,
                                 canResolve: Handle -> bool, r: Handle, fuel: nat)
    requires Closed(types, resolved) && r in types && types[r].Kind() != TypeKind.Parameter
    ensures ParamChain(types, resolved, canResolve, r, fuel) == Resolved(r)
  {
  }

  /** `ParamType::resolve` as the source runs it. */
  method ResolveParam(ctx: TyCtx, p: Handle, canResolve: Handle -> bool, ghost fuel: nat) returns (r: Handle)
    requires ctx.Valid() && p in ctx.types && ctx.types[p].Kind() == TypeKind.Parameter
    requires ParamResolution(ctx.types, ctx.resolved, canResolve, p, fuel).Resolved?
    ensures ParamResolution(ctx.types, ctx.resolved, canResolve, p, fuel) == Resolved(r)
  {
    var tr := ctx.types[p].typeReference;
    r := ctx.resolved[tr];
    ghost var start := r;
    ghost var f := fuel;
    while ctx.types[r].Kind() == TypeKind.Parameter
      invariant r in ctx.types
      invariant ParamChain(ctx.types, ctx.resolved, canResolve, start, fuel) ==
                ParamChain(ctx.types, ctx.resolved, canResolve, r, f)
      decreases f
    {
      if !canResolve(r) {
        break;
      }
      var n := ctx.resolved[ctx.types[r].typeReference];
      if r == n {
        break;
      }
      r := n;
      f := f - 1;
    }
    if ctx.types[r].Kind() == TypeKind.Parameter && ctx.types[r].reference == ctx.types[r].typeReference {
      r := ctx.resolved[ctx.types[r].typeReference];
    }
  }

  /** `PlaceholderType::canResolve`: an associated-type mapping exists for
      the placeholder's type reference. */
  predicate PlaceholderCanResolve(types: map<Handle, BaseType>, assoc: map<NodeId, NodeId>, h: Handle)
    requires h in types
  {
    types[h].typeReference in assoc
  }

  /** `PlaceholderType::resolve`: the type registered under the mapped id;
      the source asserts that the mapping exists. */
  function PlaceholderResolution(types: map<Handle, BaseType>, resolved: map<NodeId, Handle>,
                                 assoc: map<NodeId, NodeId>, h: Handle): (res: Resolution)
    requires Closed(types, resolved) && h in types && PlaceholderCanResolve(types, assoc, h)
    ensures res.Resolved? <==> assoc[types[h].typeReference] in resolved
    ensures res.Resolved? ==> res.h == resolved[assoc[types[h].typeReference]] && res.h in types
    ensures !res.OutOfFuel?
  {
    var id := assoc[types[h].typeReference];
    if id in resolved then Resolved(resolved[id]) else Aborts
  }

  method CanResolvePlaceholder(ctx: TyCtx, h: Handle) returns (b: bool)
    requires h in ctx.types
    ensures b <==> ctx.LookupAssociatedTypeMapping(ctx.types[h].typeReference).Some?
    ensures b == PlaceholderCanResolve(ctx.types, ctx.associatedTypeMappings, h)
  {
    var m := ctx.LookupAssociatedTypeMapping(ctx.types[h].typeReference);
    b := m.Some?;
  }

  method ResolvePlaceholder(ctx: TyCtx, h: Handle) returns (r: Handle)
    requires ctx.Valid() && h in ctx.types && PlaceholderCanResolve(ctx.types, ctx.associatedTypeMappings, h)
    requires PlaceholderResolution(ctx.types, ctx.resolved, ctx.associatedTypeMappings, h).Resolved?
    ensures PlaceholderResolution(ctx.types, ctx.resolved, ctx.associatedTypeMappings, h) == Resolved(r)
  {
    var m := ctx.LookupAssociatedTypeMapping(ctx.types[h].typeReference);
    r := ctx.resolved[m.value];
  }

  /** One turn of the `destructure` loop at x. */
  datatype Step = Stop(h: Handle) | Next(h: Handle) | StepAborts | StepOutOfFuel

  function Follow(types: map<Handle, BaseType>, resolved: map<NodeId, Handle>, assoc: map<NodeId, NodeId>,
                  canResolve: Handle -> bool, x: Handle, fuel: nat): (s: Step)
    requires Closed(types, resolved) && x in types
    ensures (s.Stop? || s.Next?) ==> s.h in types
  {
    ClosedAt(types, resolved, x);
    match types[x].data
    case ParamType(_, _) =>
      (match ParamResolution(types, resolved, canResolve, x, fuel)
       case Resolved(pr) => if pr == x then Stop(pr) else Next(pr)
       case Aborts => StepAborts
       case OutOfFuel => StepOutOfFuel)
    case PlaceholderType(_) =>
      if !PlaceholderCanResolve(types, assoc, x) then Stop(x)
      else
        (match PlaceholderResolution(types, resolved, assoc, x)
         case Resolved(y) => Next(y)
         case _ => StepAborts)
    case ProjectionType(p) => Next(p)
    case _ => Stop(x)
  }

  /** The loop returns a type of any other kind at once, follows a
      Projection to its projected type, and returns a Placeholder that cannot
      resolve. */
  lemma FollowShape(types: map<Handle, BaseType>, resolved: map<NodeId, Handle>, assoc: map<NodeId, NodeId>,
                    canResolve: Handle -> bool, x: Handle, fuel: nat)
    requires Closed(types, resolved) && x in types
    ensures var s := Follow(types, resolved, assoc, canResolve, x, fuel);
            (!(types[x].Kind() in {TypeKind.Parameter, TypeKind.PlaceHolder, TypeKind.Projection}) ==> s == Stop(x)) &&
            (types[x].Kind() == TypeKind.Projection ==> s == Next(types[x].data.projected)) &&
            (types[x].Kind() == TypeKind.PlaceHolder && !PlaceholderCanResolve(types, assoc, x) ==> s == Stop(x))
  {
  }

  /** What a Stop of the loop leaves: a kind other than Parameter, Placeholder
      and Projection, a Parameter whose `resolve()` is itself, or a
      Placeholder that cannot resolve. */
  ghost predicate Settled(types: map<Handle, BaseType>, resolved: map<NodeId, Handle>, assoc: map<NodeId, NodeId>,
                          canResolve: Handle -> bool, r: Handle, fuel: nat)
    requires Closed(types, resolved) && r in types
  {
    !(types[r].Kind() in {TypeKind.Parameter, TypeKind.PlaceHolder, TypeKind.Projection}) ||
    (types[r].Kind() == TypeKind.Parameter && ParamResolution(types, resolved, canResolve, r, fuel) == Resolved(r)) ||
    (types[r].Kind() == TypeKind.PlaceHolder && !PlaceholderCanResolve(types, assoc, r))
  }

  lemma FollowStopsSettled(types: map<Handle, BaseType>, resolved: map<NodeId, Handle>, assoc: map<NodeId, NodeId>,
                           canResolve: Handle -> bool, x: Handle, fuel: nat)
    requires Closed(types, resolved) && x in types
    requires Follow(types, resolved, assoc, canResolve, x, fuel).Stop?
    ensures var r := Follow(types, resolved, assoc, canResolve, x, fuel).h;
            r == x && Settled(types, resolved, assoc, canResolve, r, fuel)
  {
  }

  datatype Destructured = Found(h: Handle) | StepLimit | DestructureAborts | DestructureOutOfFuel

  /** The mutable `destructure` from x after `steps` turns: each turn counts,
      and at MaxRecursionDepth turns the loop gives up. */
  function DestructureFrom(types: map<Handle, BaseType>, resolved: map<NodeId, Handle>,
                           assoc: map<NodeId, NodeId>, canResolve: Handle -> bool,
                           x: Handle, steps: nat, fuel: nat): (d: Destructured)
    requires Closed(types, resolved) && x in types
    ensures d.Found? ==> d.h in types
    decreases MaxRecursionDepth - steps
  {
    if steps >= MaxRecursionDepth then StepLimit
    else
      match Follow(types, resolved, assoc, canResolve, x, fuel)
      case Stop(y) => Found(y)
      case Next(y) => DestructureFrom(types, resolved, assoc, canResolve, y, steps + 1, fuel)
      case StepAborts => DestructureAborts
      case StepOutOfFuel => DestructureOutOfFuel
  }

  /** The const `destructure` from x: it never counts, so only `chain` (the
      ghost bound on its turns) stops a cycle. */
  function DestructureConstFrom(types: map<Handle, BaseType>, resolved: map<NodeId, Handle>,
                                assoc: map<NodeId, NodeId>, canResolve: Handle -> bool,
                                x: Handle, fuel: nat, chain: nat): (d: Destructured)
    requires Closed(types, resolved) && x in types
    ensures d.Found? ==> d.h in types
    ensures !d.StepLimit?
    decreases chain
  {
    if chain == 0 then DestructureOutOfFuel
    else
      match Follow(types, resolved, assoc, canResolve, x, fuel)
      case Stop(y) => Found(y)
      case Next(y) => DestructureConstFrom(types, resolved, assoc, canResolve, y, fuel, chain - 1)
      case StepAborts => DestructureAborts
      case StepOutOfFuel => DestructureOutOfFuel
  }

  /** The mutable `destructure` returns a settled type. */
  lemma {:induction false} DestructureSettles(types: map<Handle, BaseType>, resolved: map<NodeId, Handle>,
                                             assoc: map<NodeId, NodeId>, canResolve: Handle -> bool,
                                             x: Handle, steps: nat, fuel: nat)
    requires Closed(types, resolved) && x in types
    ensures var d := DestructureFrom(types, resolved, assoc, canResolve, x, steps, fuel);
            d.Found? ==> Settled(types, resolved, assoc, canResolve, d.h, fuel)
    decreases MaxRecursionDepth - steps
  {
    if steps < MaxRecursionDepth {
      var s := Follow(types, resolved, assoc, canResolve, x, fuel);
      if s.Stop? {
        FollowStopsSettled(types, resolved, assoc, canResolve, x, fuel);
      } else if s.Next? {
        DestructureSettles(types, resolved, assoc, canResolve, s.h, steps + 1, fuel);
      }
    }
  }

  /** The const `destructure` returns a settled type. */
  lemma {:induction false} DestructureConstSettles(types: map<Handle, BaseType>, resolved: map<NodeId, Handle>,
                                                  assoc: map<NodeId, NodeId>, canResolve: Handle -> bool,
                                                  x: Handle, fuel: nat, chain: nat)
    requires Closed(types, resolved) && x in types
    ensures var d := DestructureConstFrom(types, resolved, assoc, canResolve, x, fuel, chain);
            d.Found? ==> Settled(types, resolved, assoc, canResolve, d.h, fuel)
    decreases chain
  {
    if chain > 0 {
      var s := Follow(types, resolved, assoc, canResolve, x, fuel);
      if s.Stop? {
        FollowStopsSettled(types, resolved, assoc, canResolve, x, fuel);
      } else if s.Next? {
        DestructureConstSettles(types, resolved, assoc, canResolve, s.h, fuel, chain - 1);
      }
    }
  }

  /** The two overloads differ only in the step limit: whatever the mutable
      one finds, the const one finds too, given as many turns. */
  lemma {:induction false} MutableAgreesWithConst(types: map<Handle, BaseType>, resolved: map<NodeId, Handle>,
                                                 assoc: map<NodeId, NodeId>, canResolve: Handle -> bool,
                                                 x: Handle, steps: nat, fuel: nat, chain: nat)
    requires Closed(types, resolved) && x in types
    requires DestructureFrom(types, resolved, assoc, canResolve, x, steps, fuel).Found?
    requires chain + steps >= MaxRecursionDepth
    ensures DestructureConstFrom(types, resolved, assoc, canResolve, x, fuel, chain) ==
            DestructureFrom(types, resolved, assoc, canResolve, x, steps, fuel)
    decreases MaxRecursionDepth - steps
  {
    var s := Follow(types, resolved, assoc, canResolve, x, fuel);
    if s.Next? {
      MutableAgreesWithConst(types, resolved, assoc, canResolve, s.h, steps + 1, fuel, chain - 1);
    }
  }

  /** The body of the `destructure` loop at x (the same in both overloads):
      stop with a result, or go on with the next type. */
  method Turn(ctx: TyCtx, x: Handle, canResolve: Handle -> bool, ghost fuel: nat) returns (stop: bool, y: Handle)
    requires ctx.Valid() && x in ctx.types
    requires var s := Follow(ctx.types, ctx.resolved, ctx.associatedTypeMappings, canResolve, x, fuel);
             s.Stop? || s.Next?
    ensures Follow(ctx.types, ctx.resolved, ctx.associatedTypeMappings, canResolve, x, fuel) ==
            if stop then Stop(y) else Next(y)
  {
    match ctx.types[x].data
    case ParamType(_, _) =>
      var pr := ResolveParam(ctx, x, canResolve, fuel);
      return pr == x, pr;
    case PlaceholderType(_) =>
      var can := CanResolvePlaceholder(ctx, x);
      if !can {
        return true, x;
      }
      y := ResolvePlaceholder(ctx, x);
      return false, y;
    case ProjectionType(p) =>
      return false, p;
    case _ =>
      return true, x;
  }

  /** The loop of the mutable `BaseType::destructure`: it counts every turn
      and reports `limit` when the count reaches MaxRecursionDepth. */
  method DestructureLoop(ctx: TyCtx, h: Handle, canResolve: Handle -> bool, ghost fuel: nat)
    returns (limit: bool, r: Handle)
    requires ctx.Valid() && h in ctx.types
    requires var d := DestructureFrom(ctx.types, ctx.resolved, ctx.associatedTypeMappings, canResolve, h, 0, fuel);
             d.Found? || d.StepLimit?
    ensures var d := DestructureFrom(ctx.types, ctx.resolved, ctx.associatedTypeMappings, canResolve, h, 0, fuel);
            if limit then d.StepLimit? else d == Found(r)
  {
    var steps := 0;
    var x := h;
    ghost var target := DestructureFrom(ctx.types, ctx.resolved, ctx.associatedTypeMappings, canResolve, h, 0, fuel);
    while true
      invariant x in ctx.types && steps <= MaxRecursionDepth
      invariant DestructureFrom(ctx.types, ctx.resolved, ctx.associatedTypeMappings, canResolve, x, steps, fuel) == target
      decreases MaxRecursionDepth - steps
    {
      if steps >= MaxRecursionDepth {
        return true, h;
      }
      steps := steps + 1;
      var stop, y := Turn(ctx, x, canResolve, fuel);
      if stop {
        return false, y;
      }
      x := y;
    }
  }

  /** The mutable `BaseType::destructure` of the object at h: the type it
      reaches, or, once the step limit is hit, a fresh ErrorType carrying h's
      reference (`new ErrorType(getReference())`). */
  method Destructure(ctx: TyCtx, h: Handle, canResolve: Handle -> bool, ghost fuel: nat) returns (r: Handle)
    requires ctx.Valid() && h in ctx.types
    requires var d := DestructureFrom(ctx.types, ctx.resolved, ctx.associatedTypeMappings, canResolve, h, 0, fuel);
             d.Found? || d.StepLimit?
    modifies ctx`types, ctx`nextHandle
    ensures ctx.Valid()
    ensures var d := DestructureFrom(old(ctx.types), ctx.resolved, ctx.associatedTypeMappings, canResolve, h, 0, fuel);
            (d.Found? ==> r == d.h && ctx.types == old(ctx.types)) &&
            (d.StepLimit? ==> r !in old(ctx.types) &&
                              ctx.types == old(ctx.types)[r := LeafRecord(old(ctx.types[h].reference), ErrorType)])
  {
    var limit;
    limit, r := DestructureLoop(ctx, h, canResolve, fuel);
    if limit {
      r := ctx.NewType(LeafRecord(ctx.types[h].reference, ErrorType));
    }
  }

  /** The const `BaseType::destructure`. Its counter is never incremented, so
      the step-limit branch cannot fire and is left out. */
  method DestructureConst(ctx: TyCtx, h: Handle, canResolve: Handle -> bool, ghost fuel: nat, ghost chain: nat)
    returns (r: Handle)
    requires ctx.Valid() && h in ctx.types
    requires DestructureConstFrom(ctx.types, ctx.resolved, ctx.associatedTypeMappings, canResolve, h, fuel, chain).Found?
    ensures DestructureConstFrom(ctx.types, ctx.resolved, ctx.associatedTypeMappings, canResolve, h, fuel, chain) == Found(r)
  {
    var x := h;
    ghost var c := chain;
    while true
      invariant x in ctx.types
      invariant DestructureConstFrom(ctx.types, ctx.resolved, ctx.associatedTypeMappings, canResolve, x, fuel, c) ==
                DestructureConstFrom(ctx.types, ctx.resolved, ctx.associatedTypeMappings, canResolve, h, fuel, chain)
      decreases c
    {
      c := c - 1;
      var stop, y := Turn(ctx, x, canResolve, fuel);
      if stop {
        return y;
      }
      x := y;
    }
  }
}
