/** Context and resolver. A context holds a snapshot of the registry and a
    memo pool; `get` and `getAll` walk the dependency graph through a resolver
    that carries the in-flight stack of identifiers being built.

    One resolution step for `id` with in-flight stack `stack`:
      1. no recipe for `id`                -> EntityNotFound(id)
      2. `id` already in the pool          -> the pooled value, unchanged pool
      3. one more level would pass 100     -> RecursionLimit
      4. `id` already on the stack         -> CircularDependency(stack + [id])
      5. otherwise run the recipe with `id` pushed; an EntityNotFound raised
         inside it becomes MissingDependency(missing, id); a value produced is
         pooled under `id`.

    Values are compared by value: an instance is named by its pool key, so
    "the same instance" means the value stored in the pool under that key.
    The pool is returned on every path: entries created before an error stay,
    as they do in the source's mutable pool. */
module Resolver {
  import opened Wrappers
  import opened Identifier
  import opened Errors
  import opened Factory
  import opened Registry

  /** The recursion ceiling of the resolver. */
  const MaxDepth: nat := 100

  datatype Value<P> =
    | Const(payload: P)
      /** An object built by a synthesized factory, under pool key `key`. */
    | Instance(key: Id, call: Call<Value<P>>)
      /** What a `Collect` recipe returns: the values of a `getAll`. */
    | Aggregate(items: seq<Value<P>>)

  /** One entry of the map `getAll` returns: variant -> value. */
  datatype Entry<P> = Entry(variant: string, value: Value<P>)

  type Pool<P> = map<Id, Value<P>>

  /** A result together with the pool after the attempt. */
  datatype Outcome<P, T> = Outcome(result: Result<T, Error>, pool: Pool<P>)

  datatype Context<P> = Context(registry: Registry<P>, pool: Pool<P>)

  /** The pool only grows: nothing pooled is ever replaced or dropped. */
  ghost predicate Extends<P>(small: Pool<P>, big: Pool<P>)
  {
    forall k :: k in small ==> k in big && big[k] == small[k]
  }

  /** Each entry is the pooled value of its variant, in the order of `vs`. */
  ghost predicate PooledEntries<P>(pool: Pool<P>, kind: string, vs: seq<string>, entries: seq<Entry<P>>)
  {
    && |entries| == |vs|
    && forall i :: 0 <= i < |vs| ==>
         entries[i].variant == vs[i] && Id(kind, vs[i]) in pool && pool[Id(kind, vs[i])] == entries[i].value
  }

  function ValuesOf<P>(entries: seq<Entry<P>>): (vs: seq<Value<P>>)
    ensures |vs| == |entries|
    ensures forall i :: 0 <= i < |entries| ==> vs[i] == entries[i].value
  {
    seq(|entries|, i requires 0 <= i < |entries| => entries[i].value)
  }

  /** The variants of a table that are not excluded, in registration order. */
  function Selected<P>(t: Table<P>, exclude: set<string>): (vs: seq<string>)
    ensures forall v :: v in vs <==> v in Variants(t) && v !in exclude
    ensures (forall i :: 0 <= i < |t| ==> t[i].variant !in exclude) ==> vs == Variants(t)
    decreases |t|
  {
    if |t| == 0 then []
    else
      assert Variants(t) == [t[0].variant] + Variants(t[1..]);
      (if t[0].variant in exclude then [] else [t[0].variant]) + Selected(t[1..], exclude)
  }

  function Prepend<P, T>(x: T, o: Outcome<P, seq<T>>): (r: Outcome<P, seq<T>>)
    ensures r.pool == o.pool
    ensures r.result.Success? <==> o.result.Success?
    ensures r.result.Success? ==> r.result.value == [x] + o.result.value
    ensures r.result.Failure? ==> r.result.error == o.result.error
  {
    match o.result
    case Success(xs) => Outcome(Success([x] + xs), o.pool)
    case Failure(e) => Outcome(Failure(e), o.pool)
  }

  /** Resolve `id` with in-flight stack `stack`. A success is always pooled
      under `id`; the only EntityNotFound that escapes names `id` itself,
      which then has no recipe. Like the four functions below, it never pools
      an identifier that is still being built (one on the stack). */
  function Resolve<P>(reg: Registry<P>, pool: Pool<P>, stack: seq<Id>, id: Id): (o: Outcome<P, Value<P>>)
    requires |stack| <= MaxDepth
    ensures Extends(pool, o.pool)
    ensures forall s :: s in stack && s !in pool ==> s !in o.pool
    ensures o.result.Success? ==> Lookup(reg, id).Some? && id in o.pool && o.pool[id] == o.result.value
    ensures o.result.Failure? && o.result.error.EntityNotFound? ==>
      o.result.error.id == id && Lookup(reg, id).None? && o.pool == pool
    ensures Lookup(reg, id).Some? && id in pool ==> o == Outcome(Success(pool[id]), pool)
    ensures Lookup(reg, id).Some? && id !in pool && |stack| == MaxDepth ==>
      o == Outcome(Failure(RecursionLimit(stack + [id])), pool)
    ensures Lookup(reg, id).Some? && id !in pool && |stack| < MaxDepth && id in stack ==>
      o == Outcome(Failure(CircularDependency(stack + [id])), pool)
    ensures Lookup(reg, id).Some? && id !in pool && |stack| < MaxDepth && id !in stack ==>
      var inner := Invoke(reg, pool, stack + [id], id, Lookup(reg, id).value).result;
      inner.Failure? && inner.error.EntityNotFound? ==>
        o.result == Failure(MissingDependency(inner.error.id, id))
    decreases MaxDepth - |stack|, 0, 0
  {
    match Lookup(reg, id)
    case None => Outcome(Failure(EntityNotFound(id)), pool)
    case Some(recipe) =>
      if id in pool then Outcome(Success(pool[id]), pool)
      else if |stack| + 1 > MaxDepth then Outcome(Failure(RecursionLimit(stack + [id])), pool)
      else if id in stack then Outcome(Failure(CircularDependency(stack + [id])), pool)
      else
        var o := Invoke(reg, pool, stack + [id], id, recipe);
        match o.result
        case Success(v) => Outcome(Success(v), o.pool[id := v])
        case Failure(EntityNotFound(missing)) => Outcome(Failure(MissingDependency(missing, id)), o.pool)
        case Failure(e) => Outcome(Failure(e), o.pool)
  }

  /** Run the recipe of `self`; `stack` already ends with `self`. */
  function Invoke<P>(reg: Registry<P>, pool: Pool<P>, stack: seq<Id>, self: Id, recipe: Recipe<P>)
    : (o: Outcome<P, Value<P>>)
    requires |stack| <= MaxDepth
    ensures Extends(pool, o.pool)
    ensures forall s :: s in stack && s !in pool ==> s !in o.pool
    decreases MaxDepth - |stack|, 4, 0
  {
    match recipe
    case Constant(p) => Outcome(Success(Const(p)), pool)
    case Alias(other) => Resolve(reg, pool, stack, other)
    case Construct(target, deps) =>
      var o := ResolveDeps(reg, pool, stack, deps);
      (match o.result
       case Success(args) => Outcome(Success(Instance(self, Call(target, args + [ContextArg]))), o.pool)
       case Failure(e) => Outcome(Failure(e), o.pool))
    case Collect(kind, exclude) =>
      var o := ResolveAll(reg, pool, stack, kind, exclude);
      (match o.result
       case Success(entries) => Outcome(Success(Aggregate(ValuesOf(entries))), o.pool)
       case Failure(e) => Outcome(Failure(e), o.pool))
  }

  /** The argument loop of a synthesized factory, run by the resolver: each
      dependency is resolved in order and the pool is threaded through. */
  function ResolveDeps<P>(reg: Registry<P>, pool: Pool<P>, stack: seq<Id>, deps: seq<Dep>)
    : (o: Outcome<P, seq<Arg<Value<P>>>>)
    requires |stack| <= MaxDepth
    ensures Extends(pool, o.pool)
    ensures forall s :: s in stack && s !in pool ==> s !in o.pool
    ensures o.result.Success? ==> |o.result.value| == |deps|
    ensures o.result.Success? ==> forall i :: 0 <= i < |deps| && deps[i].Single? ==> Lookup(reg, deps[i].id).Some?
    decreases MaxDepth - |stack|, 3, |deps|
  {
    if |deps| == 0 then Outcome(Success([]), pool)
    else
      match Interpret(deps[0])
      case Failure(e) => Outcome(Failure(e), pool)
      case Success(GetOne(id)) =>
        var o := Resolve(reg, pool, stack, id);
        (match o.result
         case Failure(e) => Outcome(Failure(e), o.pool)
         case Success(v) =>
           assert forall i :: 1 <= i < |deps| ==> deps[i] == deps[1..][i - 1];
           Prepend(One(v), ResolveDeps(reg, o.pool, stack, deps[1..])))
      case Success(GetEvery(id)) =>
        var o := ResolveAll(reg, pool, stack, id, {});
        (match o.result
         case Failure(e) => Outcome(Failure(e), o.pool)
         case Success(entries) =>
           assert forall i :: 1 <= i < |deps| ==> deps[i] == deps[1..][i - 1];
           Prepend(Many(ValuesOf(entries)), ResolveDeps(reg, o.pool, stack, deps[1..])))
  }

  /** `getAll(id, { exclude })`: every non-excluded variant of `id`'s kind,
      each resolved (and pooled) under its own key, in registration order. An
      unregistered kind gives an empty result. */
  function ResolveAll<P>(reg: Registry<P>, pool: Pool<P>, stack: seq<Id>, id: Id, exclude: set<string>)
    : (o: Outcome<P, seq<Entry<P>>>)
    requires |stack| <= MaxDepth
    ensures Extends(pool, o.pool)
    ensures forall s :: s in stack && s !in pool ==> s !in o.pool
    ensures o.result.Success? ==>
      PooledEntries(o.pool, id.name, Selected(TableOf(reg, id.name), exclude), o.result.value)
    decreases MaxDepth - |stack|, 2, 0
  {
    ResolveVariants(reg, pool, stack, id.name, Selected(TableOf(reg, id.name), exclude))
  }

  function ResolveVariants<P>(reg: Registry<P>, pool: Pool<P>, stack: seq<Id>, kind: string, vs: seq<string>)
    : (o: Outcome<P, seq<Entry<P>>>)
    requires |stack| <= MaxDepth
    ensures Extends(pool, o.pool)
    ensures forall s :: s in stack && s !in pool ==> s !in o.pool
    ensures o.result.Success? ==> PooledEntries(o.pool, kind, vs, o.result.value)
    decreases MaxDepth - |stack|, 1, |vs|
  {
    if |vs| == 0 then Outcome(Success([]), pool)
    else
      var o := Resolve(reg, pool, stack, Id(kind, vs[0]));
      match o.result
      case Failure(e) => Outcome(Failure(e), o.pool)
      case Success(v) =>
        var rest := ResolveVariants(reg, o.pool, stack, kind, vs[1..]);
        assert forall i :: 1 <= i < |vs| ==> vs[i] == vs[1..][i - 1];
        Prepend(Entry(vs[0], v), rest)
  }

  /** `store.context()`: a snapshot of the registry and an empty pool. */
  function NewContext<P>(reg: Registry<P>): Context<P>
  {
    Context(reg, map[])
  }

  /** `cx.get(id)`. The context keeps its registry; its pool only grows, and
      a success leaves the value pooled under `id`. */
  function Get<P>(cx: Context<P>, id: Id): (r: (Result<Value<P>, Error>, Context<P>))
    ensures r.1.registry == cx.registry
    ensures Extends(cx.pool, r.1.pool)
    ensures r.0.Success? ==> id in r.1.pool && r.1.pool[id] == r.0.value
    ensures r.0.Failure? && r.0.error.EntityNotFound? ==> r.0.error.id == id && Lookup(cx.registry, id).None?
  {
    var o := Resolve(cx.registry, cx.pool, [], id);
    (o.result, Context(cx.registry, o.pool))
  }

  /** `cx.getAll(id, { exclude })`. */
  function GetAll<P>(cx: Context<P>, id: Id, exclude: set<string>): (r: (Result<seq<Entry<P>>, Error>, Context<P>))
    ensures r.1.registry == cx.registry
    ensures Extends(cx.pool, r.1.pool)
    ensures r.0.Success? ==> PooledEntries(r.1.pool, id.name, Selected(TableOf(cx.registry, id.name), exclude), r.0.value)
  {
    var o := ResolveAll(cx.registry, cx.pool, [], id, exclude);
    (o.result, Context(cx.registry, o.pool))
  }

  /** `cx.getOptional(id)`: a missing binding gives None; every other error,
      including a missing dependency of a binding that exists, still
      propagates. */
  function GetOptional<P>(cx: Context<P>, id: Id): (r: (Result<Option<Value<P>>, Error>, Context<P>))
    ensures Lookup(cx.registry, id).None? <==> r.0 == Success(None)
    ensures r.0.Failure? ==> !r.0.error.EntityNotFound? && Get(cx, id).0 == Failure(r.0.error)
    ensures r.0.Success? && r.0.value.Some? ==> Get(cx, id) == (Success(r.0.value.value), r.1)
  {
    if Lookup(cx.registry, id).None? then (Success(None), cx)
    else
      var (res, cx') := Get(cx, id);
      match res
      case Success(v) => (Success(Some(v)), cx')
      case Failure(e) => (Failure(e), cx')
  }
}
