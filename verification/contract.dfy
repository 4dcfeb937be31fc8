/** The container contract the unit tests assert (tests/xtent.unit.spec.ts),
    proved of the resolver for every registry rather than for the tests'
    particular classes. */
module ContainerContract {
  import opened Wrappers
  import opened Identifier
  import opened Errors
  import opened Factory
  import opened Registry
  import opened Resolver

  /** A context seen as the two lookups a synthesized factory makes, answered
      from a pool: `get` returns the pooled value, `getAll` the pooled values
      of every variant of the kind in registration order. */
  function PoolGet<P>(pool: Pool<P>): Id -> Result<Value<P>, Error>
  {
    (id: Id) => if id in pool then Success(pool[id]) else Failure(EntityNotFound(id))
  }

  function PoolGetAll<P>(reg: Registry<P>, pool: Pool<P>): Id -> Result<seq<Value<P>>, Error>
  {
    (id: Id) =>
      var vs := Variants(TableOf(reg, id.name));
      if forall i :: 0 <= i < |vs| ==> Id(id.name, vs[i]) in pool
      then Success(PooledValues(pool, id.name, vs))
      else Failure(EntityNotFound(id))
  }

  /** The pooled values of the given variants of `kind`, in order. */
  function PooledValues<P>(pool: Pool<P>, kind: string, vs: seq<string>): (r: seq<Value<P>>)
    requires forall i :: 0 <= i < |vs| ==> Id(kind, vs[i]) in pool
    ensures |r| == |vs|
    ensures forall i :: 0 <= i < |vs| ==> r[i] == pool[Id(kind, vs[i])]
  {
    seq(|vs|, i requires 0 <= i < |vs| => pool[Id(kind, vs[i])])
  }

  /** "should throw if not available": no recipe, EntityNotFound. */
  lemma UnregisteredIsNotFound<P>(cx: Context<P>, id: Id)
    requires Lookup(cx.registry, id).None?
    ensures Get(cx, id).0 == Failure(EntityNotFound(id))
    ensures GetOptional(cx, id).0 == Success(None)
  {
  }

  /** The argument loop over `deps` is the loop over its first `k`
      dependencies followed by the loop over the rest, started from the pool
      the first part left; the arguments of the two parts are concatenated. */
  lemma {:induction false} ResolveDepsSplit<P>(reg: Registry<P>, pool: Pool<P>, stack: seq<Id>, deps: seq<Dep>, k: nat)
    requires |stack| <= MaxDepth && k <= |deps|
    requires ResolveDeps(reg, pool, stack, deps[..k]).result.Success?
    ensures var pre := ResolveDeps(reg, pool, stack, deps[..k]);
      var rest := ResolveDeps(reg, pre.pool, stack, deps[k..]);
      var whole := ResolveDeps(reg, pool, stack, deps);
      && whole.pool == rest.pool
      && whole.result == (if rest.result.Success? then Success(pre.result.value + rest.result.value) else rest.result)
    decreases k, 1
  {
    if k == 0 {
      assert deps[..0] == [];
      assert deps[0..] == deps;
      var whole := ResolveDeps(reg, pool, stack, deps);
      assert ResolveDeps(reg, pool, stack, deps[..0]) == Outcome(Success([]), pool);
      if whole.result.Success? {
        assert [] + whole.result.value == whole.result.value;
      }
    } else {
      ResolveDepsSplitStep(reg, pool, stack, deps, k);
    }
  }

  /** The step of ResolveDepsSplit: the first dependency is resolved by both
      loops in the same way, and the rest is split at `k - 1`. */
  lemma {:induction false} ResolveDepsSplitStep<P>(reg: Registry<P>, pool: Pool<P>, stack: seq<Id>, deps: seq<Dep>, k: nat)
    requires |stack| <= MaxDepth && 0 < k <= |deps|
    requires ResolveDeps(reg, pool, stack, deps[..k]).result.Success?
    ensures var pre := ResolveDeps(reg, pool, stack, deps[..k]);
      var rest := ResolveDeps(reg, pre.pool, stack, deps[k..]);
      var whole := ResolveDeps(reg, pool, stack, deps);
      && whole.pool == rest.pool
      && whole.result == (if rest.result.Success? then Success(pre.result.value + rest.result.value) else rest.result)
    decreases k, 0
  {
    var pre := deps[..k];
    assert pre[0] == deps[0];
    assert pre[1..] == deps[1..][..k - 1];
    assert deps[1..][k - 1..] == deps[k..];
    var req := Interpret(deps[0]).value;
    var p1: Pool<P>, front: Arg<Value<P>>;
    if req.GetOne? {
      var o := Resolve(reg, pool, stack, req.id);
      p1, front := o.pool, One(o.result.value);
    } else {
      var o := ResolveAll(reg, pool, stack, req.id, {});
      p1, front := o.pool, Many(ValuesOf(o.result.value));
    }
    ResolveDepsSplit(reg, p1, stack, deps[1..], k - 1);
    var pre1 := ResolveDeps(reg, p1, stack, deps[1..][..k - 1]);
    var rest := ResolveDeps(reg, pre1.pool, stack, deps[k..]);
    assert ResolveDeps(reg, pool, stack, pre) == Prepend(front, pre1);
    assert ResolveDeps(reg, pool, stack, deps) == Prepend(front, ResolveDeps(reg, p1, stack, deps[1..]));
    if rest.result.Success? {
      AppendAssociates([front], pre1.result.value, rest.result.value);
    }
  }

  /** "should throw if dependency not available": a binding whose dependency
      `k` is unregistered, the dependencies before it having resolved, fails
      with MissingDependency naming both the dependency and the binding, not
      with EntityNotFound. */
  lemma MissingDependencyIsReported<P>(cx: Context<P>, id: Id, t: Target, deps: seq<Dep>, k: nat, d: Id)
    requires Lookup(cx.registry, id) == Some(Construct(t, deps))
    requires k < |deps| && deps[k] == Single(d)
    requires Lookup(cx.registry, d).None?
    requires id !in cx.pool
    requires ResolveDeps(cx.registry, cx.pool, [id], deps[..k]).result.Success?
    ensures Get(cx, id).0 == Failure(MissingDependency(d, id))
  {
    var reg, pool := cx.registry, cx.pool;
    var root: seq<Id> := [];
    assert root + [id] == [id];
    ResolveDepsSplit(reg, pool, [id], deps, k);
    var p := ResolveDeps(reg, pool, [id], deps[..k]).pool;
    assert deps[k..][0] == Single(d);
    assert Interpret(deps[k..][0]) == Success(GetOne(d));
    assert Resolve(reg, p, [id], d).result == Failure(EntityNotFound(d));
    assert ResolveDeps(reg, p, [id], deps[k..]).result == Failure(EntityNotFound(d));
    assert Invoke(reg, pool, [id], id, Construct(t, deps)).result == Failure(EntityNotFound(d));
  }

  /** The tested shape: the binding's first dependency is unregistered. */
  lemma FirstDependencyMissing<P>(cx: Context<P>, id: Id, t: Target, deps: seq<Dep>, d: Id)
    requires Lookup(cx.registry, id) == Some(Construct(t, deps))
    requires |deps| > 0 && deps[0] == Single(d)
    requires Lookup(cx.registry, d).None?
    requires id !in cx.pool
    ensures Get(cx, id).0 == Failure(MissingDependency(d, id))
  {
    assert deps[..0] == [];
    MissingDependencyIsReported(cx, id, t, deps, 0, d);
  }

  /** "should throw if cycle found": two bindings that each need the other
      first fail with CircularDependency carrying the path a -> b -> a. */
  lemma CycleIsDetected<P>(cx: Context<P>, a: Id, b: Id, ta: Target, da: seq<Dep>, tb: Target, db: seq<Dep>)
    requires a != b
    requires Lookup(cx.registry, a) == Some(Construct(ta, da)) && |da| > 0 && da[0] == Single(b)
    requires Lookup(cx.registry, b) == Some(Construct(tb, db)) && |db| > 0 && db[0] == Single(a)
    requires a !in cx.pool && b !in cx.pool
    ensures Get(cx, a).0 == Failure(CircularDependency([a, b, a]))
  {
    var reg, pool := cx.registry, cx.pool;
    var cycle := CircularDependency([a, b, a]);
    var root: seq<Id> := [];
    assert root + [a] == [a];
    assert [a] + [b] == [a, b];
    assert [a, b] + [a] == [a, b, a];
    assert a in [a, b];
    assert Interpret(da[0]) == Success(GetOne(b));
    assert Interpret(db[0]) == Success(GetOne(a));
    assert Resolve(reg, pool, [a, b], a).result == Failure(cycle);
    assert ResolveDeps(reg, pool, [a, b], db).result == Failure(cycle);
    assert Invoke(reg, pool, [a, b], b, Construct(tb, db)).result == Failure(cycle);
    assert Resolve(reg, pool, [a], b).result == Failure(cycle);
    assert ResolveDeps(reg, pool, [a], da).result == Failure(cycle);
    assert Invoke(reg, pool, [a], a, Construct(ta, da)).result == Failure(cycle);
  }

  /** "should pool objects": once `get` succeeded, asking again on the
      resulting context returns the same value and changes nothing. */
  lemma RepeatedGetIsPooled<P>(cx: Context<P>, id: Id)
    requires Get(cx, id).0.Success?
    ensures Get(Get(cx, id).1, id) == Get(cx, id)
  {
  }

  /** The resolver's argument loop agrees with `buildFactoryFunction`'s: the
      arguments it produced are exactly those the factory computes against
      the final pool. So every injected value is the pooled one. */
  lemma {:induction false} ResolvedArgsArePooled<P>(reg: Registry<P>, pool: Pool<P>, stack: seq<Id>, deps: seq<Dep>)
    requires |stack| <= MaxDepth
    requires ResolveDeps(reg, pool, stack, deps).result.Success?
    ensures var o := ResolveDeps(reg, pool, stack, deps);
      BuildArgs(deps, PoolGet(o.pool), PoolGetAll(reg, o.pool)) == o.result
    decreases |deps|
  {
    var o := ResolveDeps(reg, pool, stack, deps);
    var get, getAll := PoolGet(o.pool), PoolGetAll(reg, o.pool);
    if |deps| > 0 {
      match deps[0]
      case Single(id) =>
        var o1 := Resolve(reg, pool, stack, id);
        var rest := ResolveDeps(reg, o1.pool, stack, deps[1..]);
        assert rest.pool == o.pool;
        ResolvedArgsArePooled(reg, o1.pool, stack, deps[1..]);
        assert get(id) == Success(o1.result.value);
      case Pattern(ids) =>
        var id := ids[0];
        var o1 := ResolveAll(reg, pool, stack, id, {});
        var rest := ResolveDeps(reg, o1.pool, stack, deps[1..]);
        assert rest.pool == o.pool;
        ResolvedArgsArePooled(reg, o1.pool, stack, deps[1..]);
        assert Selected(TableOf(reg, id.name), {}) == Variants(TableOf(reg, id.name));
        PooledEntriesStayPooled(reg, o1.pool, o.pool, id, o1.result.value);
    }
  }

  /** Entries pooled under every variant of a kind are still what the pool
      gives back for the kind after the pool grows. */
  lemma PooledEntriesStayPooled<P>(reg: Registry<P>, pool: Pool<P>, later: Pool<P>, id: Id, entries: seq<Entry<P>>)
    requires PooledEntries(pool, id.name, Variants(TableOf(reg, id.name)), entries)
    requires Extends(pool, later)
    ensures PoolGetAll(reg, later)(id) == Success(ValuesOf(entries))
  {
    var vs := Variants(TableOf(reg, id.name));
    forall i | 0 <= i < |vs|
      ensures Id(id.name, vs[i]) in later && later[Id(id.name, vs[i])] == entries[i].value
    {
    }
    assert PooledValues(later, id.name, vs) == ValuesOf(entries);
  }

  /** "with basic dependency": the value injected for a plain dependency is
      the one a direct `get` of that dependency returns on the same context
      afterwards, and that `get` changes nothing. */
  lemma InjectedDependencyIsPooled<P>(cx: Context<P>, id: Id, t: Target, deps: seq<Dep>, k: nat)
    requires Lookup(cx.registry, id) == Some(Construct(t, deps))
    requires id !in cx.pool
    requires k < |deps| && deps[k].Single?
    requires Get(cx, id).0.Success?
    ensures var (r, cx') := Get(cx, id);
      && r.value.Instance?
      && Get(cx', deps[k].id).0.Success?
      && r.value.call.args[k] == One(Get(cx', deps[k].id).0.value)
      && Get(cx', deps[k].id).1 == cx'
  {
    var reg, pool := cx.registry, cx.pool;
    var o := ResolveDeps(reg, pool, [id], deps);
    var root: seq<Id> := [];
    assert root + [id] == [id];
    assert Invoke(reg, pool, [id], id, Construct(t, deps)).result.Success?;
    ResolvedArgsArePooled(reg, pool, [id], deps);
    var get := PoolGet(o.pool);
    var d := deps[k].id;
    assert Resolves(deps[k], get, PoolGetAll(reg, o.pool));
    assert d in o.pool;
    var (r, cx') := Get(cx, id);
    assert r.value == Instance(id, Call(t, o.result.value + [ContextArg]));
    assert r.value.call.args[k] == One(o.pool[d]);
    assert Lookup(reg, d).Some?;
    assert d != id by {
      assert id !in o.pool;
    }
  }

  /** "return empty map if no entities are found". */
  lemma GetAllOfUnregisteredKindIsEmpty<P>(cx: Context<P>, id: Id, exclude: set<string>)
    requires id.name !in cx.registry
    ensures GetAll(cx, id, exclude) == (Success([]), cx)
  {
  }

  /** Two variants registered one after the other under a new kind make up
      its table, in that order. */
  lemma TwoRegistrations<P>(reg: Registry<P>, kind: string, v1: string, v2: string, f1: Recipe<P>, f2: Recipe<P>)
    requires kind !in reg
    requires v1 != v2
    ensures Use(reg, Id(kind, v1), f1).Success?
    ensures var reg1 := Use(reg, Id(kind, v1), f1).value;
      && Use(reg1, Id(kind, v2), f2).Success?
      && TableOf(Use(reg1, Id(kind, v2), f2).value, kind) == [Binding(v1, f1), Binding(v2, f2)]
  {
    FreshRegistrationAppends(reg, Id(kind, v1), f1, false);
    var reg1 := Use(reg, Id(kind, v1), f1).value;
    FreshRegistrationAppends(reg1, Id(kind, v2), f2, false);
  }

  /** "should return all the objects": two variants registered one after the
      other come back from `getAll` in that order, each pooled. */
  lemma GetAllKeepsRegistrationOrder<P>(reg: Registry<P>, kind: string, v1: string, v2: string, f1: Recipe<P>, f2: Recipe<P>)
    requires kind !in reg
    requires v1 != v2
    ensures Use(reg, Id(kind, v1), f1).Success?
    ensures var reg1 := Use(reg, Id(kind, v1), f1).value;
      && Use(reg1, Id(kind, v2), f2).Success?
      && var reg2 := Use(reg1, Id(kind, v2), f2).value;
         && Variants(TableOf(reg2, kind)) == [v1, v2]
         && (GetAll(NewContext(reg2), Id(kind, DefaultVariant), {}).0.Success? ==>
               var es := GetAll(NewContext(reg2), Id(kind, DefaultVariant), {}).0.value;
               |es| == 2 && es[0].variant == v1 && es[1].variant == v2)
  {
    TwoRegistrations(reg, kind, v1, v2, f1, f2);
    var reg2 := Use(Use(reg, Id(kind, v1), f1).value, Id(kind, v2), f2).value;
    var t := TableOf(reg2, kind);
    assert Variants(t) == [v1, v2];
    assert Selected(t, {}) == [v1, v2];
  }

  /** Every listed variant of `kind` is bound to a constant, and whatever the
      pool already holds for it is that constant. */
  ghost predicate ConstantSlots<P>(reg: Registry<P>, pool: Pool<P>, kind: string, vs: seq<string>)
  {
    forall i :: 0 <= i < |vs| ==>
      && Lookup(reg, Id(kind, vs[i])).Some?
      && Lookup(reg, Id(kind, vs[i])).value.Constant?
      && (Id(kind, vs[i]) in pool ==> pool[Id(kind, vs[i])] == Const(Lookup(reg, Id(kind, vs[i])).value.payload))
  }

  /** The entries a `getAll` over constant bindings should give: each variant
      with its constant, in order. */
  function ConstantEntries<P>(reg: Registry<P>, kind: string, vs: seq<string>): (es: seq<Entry<P>>)
    requires forall i :: 0 <= i < |vs| ==>
      Lookup(reg, Id(kind, vs[i])).Some? && Lookup(reg, Id(kind, vs[i])).value.Constant?
    ensures |es| == |vs|
    ensures forall i :: 0 <= i < |vs| ==>
      es[i] == Entry(vs[i], Const(Lookup(reg, Id(kind, vs[i])).value.payload))
  {
    seq(|vs|, i requires 0 <= i < |vs| => Entry(vs[i], Const(Lookup(reg, Id(kind, vs[i])).value.payload)))
  }

  /** Resolving variants bound to constants yields those constants, in the
      order asked, whatever the pool holds for them already. */
  lemma {:induction false} ConstantsResolveInOrder<P>(reg: Registry<P>, pool: Pool<P>, stack: seq<Id>, kind: string, vs: seq<string>)
    requires |stack| < MaxDepth
    requires ConstantSlots(reg, pool, kind, vs)
    requires forall i :: 0 <= i < |vs| ==> Id(kind, vs[i]) !in stack
    ensures ResolveVariants(reg, pool, stack, kind, vs).result == Success(ConstantEntries(reg, kind, vs))
    ensures forall k :: k in ResolveVariants(reg, pool, stack, kind, vs).pool ==>
      k in pool || (k.name == kind && k.variant in vs)
    decreases |vs|
  {
    if |vs| > 0 {
      var id := Id(kind, vs[0]);
      var p := Lookup(reg, id).value.payload;
      var pool' := pool[id := Const(p)];
      ResolveConstant(reg, pool, stack, id);
      ConstantSlotsAfterPooling(reg, pool, kind, vs);
      ConstantsResolveInOrder(reg, pool', stack, kind, vs[1..]);
      ResolveVariantsStep(reg, pool, stack, kind, vs);
      assert [Entry(vs[0], Const(p))] + ConstantEntries(reg, kind, vs[1..]) == ConstantEntries(reg, kind, vs);
      assert forall w :: w in vs[1..] ==> w in vs;
    }
  }

  lemma ResolveVariantsStep<P>(reg: Registry<P>, pool: Pool<P>, stack: seq<Id>, kind: string, vs: seq<string>)
    requires |stack| <= MaxDepth && |vs| > 0
    requires Resolve(reg, pool, stack, Id(kind, vs[0])).result.Success?
    ensures var o := Resolve(reg, pool, stack, Id(kind, vs[0]));
      ResolveVariants(reg, pool, stack, kind, vs)
        == Prepend(Entry(vs[0], o.result.value), ResolveVariants(reg, o.pool, stack, kind, vs[1..]))
  {
  }

  lemma ConstantSlotsAfterPooling<P>(reg: Registry<P>, pool: Pool<P>, kind: string, vs: seq<string>)
    requires |vs| > 0 && ConstantSlots(reg, pool, kind, vs)
    ensures ConstantSlots(reg, pool[Id(kind, vs[0]) := Const(Lookup(reg, Id(kind, vs[0])).value.payload)], kind, vs[1..])
  {
    assert forall i :: 0 <= i < |vs| - 1 ==> vs[1..][i] == vs[i + 1];
  }

  /** One constant binding resolves to its constant, pooled under its key. */
  lemma ResolveConstant<P>(reg: Registry<P>, pool: Pool<P>, stack: seq<Id>, id: Id)
    requires |stack| < MaxDepth
    requires Lookup(reg, id).Some? && Lookup(reg, id).value.Constant?
    requires id in pool ==> pool[id] == Const(Lookup(reg, id).value.payload)
    requires id !in stack
    ensures var p := Lookup(reg, id).value.payload;
      Resolve(reg, pool, stack, id) == Outcome(Success(Const(p)), pool[id := Const(p)])
  {
    var p := Lookup(reg, id).value.payload;
    if id in pool {
      assert pool[id := Const(p)] == pool;
    } else {
      assert Invoke(reg, pool, stack + [id], id, Constant(p)) == Outcome(Success(Const(p)), pool);
    }
  }

  /** "should return all the objects", for bindings that are constants: a
      fresh context's `getAll` gives every non-excluded variant with its
      constant, in registration order. */
  lemma GetAllOfConstants<P>(reg: Registry<P>, id: Id, exclude: set<string>)
    requires ConstantSlots(reg, map[], id.name, Selected(TableOf(reg, id.name), exclude))
    ensures GetAll(NewContext(reg), id, exclude).0
      == Success(ConstantEntries(reg, id.name, Selected(TableOf(reg, id.name), exclude)))
    ensures forall k :: k in GetAll(NewContext(reg), id, exclude).1.pool ==> k.name == id.name
  {
    ConstantsResolveInOrder(reg, map[], [], id.name, Selected(TableOf(reg, id.name), exclude));
  }

  /** The entries of a table of constant bindings, in table order. */
  function TableEntries<P>(t: Table<P>): (es: seq<Entry<P>>)
    requires forall i :: 0 <= i < |t| ==> t[i].recipe.Constant?
    ensures |es| == |t|
    ensures forall i :: 0 <= i < |t| ==> es[i] == Entry(t[i].variant, Const(t[i].recipe.payload))
  {
    seq(|t|, i requires 0 <= i < |t| => Entry(t[i].variant, Const(t[i].recipe.payload)))
  }

  /** A fresh context's `getAll` of a kind whose bindings are all constants
      and none excluded returns the whole table, in registration order. */
  lemma GetAllOfTable<P>(reg: Registry<P>, kind: string, exclude: set<string>)
    requires UniqueVariants(TableOf(reg, kind))
    requires forall i :: 0 <= i < |TableOf(reg, kind)| ==>
      TableOf(reg, kind)[i].recipe.Constant? && TableOf(reg, kind)[i].variant !in exclude
    ensures GetAll(NewContext(reg), Entity(kind), exclude).0 == Success(TableEntries(TableOf(reg, kind)))
    ensures forall k :: k in GetAll(NewContext(reg), Entity(kind), exclude).1.pool ==> k.name == kind
  {
    var t := TableOf(reg, kind);
    var vs := Selected(t, exclude);
    assert vs == Variants(t);
    forall i | 0 <= i < |vs|
      ensures Lookup(reg, Id(kind, vs[i])) == Some(t[i].recipe)
    {
      FindUnique(t, i);
    }
    assert ConstantSlots(reg, map[], kind, vs);
    GetAllOfConstants(reg, Entity(kind), exclude);
    assert ConstantEntries(reg, kind, vs) == TableEntries(t);
  }

  /** An alias binding (`cx => cx.get(x)`) to a class without dependencies
      resolves to that class's instance. */
  lemma AliasResolvesToTarget<P>(reg: Registry<P>, id: Id, x: Id, t: Target)
    requires id != x
    requires Lookup(reg, id) == Some(Alias(x))
    requires Lookup(reg, x) == Some(Construct(t, []))
    ensures Get(NewContext(reg), id).0 == Success(Instance(x, Call(t, [ContextArg])))
  {
    var empty: Pool<P> := map[];
    var root: seq<Id> := [];
    var none: seq<Arg<Value<P>>> := [];
    var v := Instance(x, Call(t, [ContextArg]));
    assert none + [ContextArg] == [ContextArg];
    assert root + [id] == [id];
    assert [id] + [x] == [id, x];
    assert ResolveDeps(reg, empty, [id, x], []).result == Success(none);
    assert Invoke(reg, empty, [id, x], x, Construct(t, [])).result == Success(v);
    assert Resolve(reg, empty, [id], x).result == Success(v);
    assert Invoke(reg, empty, [id], id, Alias(x)).result == Success(v);
  }

  /** A class without dependencies that is not pooled yet resolves to a new
      instance built with the context as its only argument, and is pooled. */
  lemma ConstructWithoutDepsResolves<P>(cx: Context<P>, id: Id, t: Target)
    requires id !in cx.pool
    requires Lookup(cx.registry, id) == Some(Construct(t, []))
    ensures Get(cx, id).0 == Success(Instance(id, Call(t, [ContextArg])))
    ensures Get(cx, id).1.pool == cx.pool[id := Instance(id, Call(t, [ContextArg]))]
  {
    var root: seq<Id> := [];
    var none: seq<Arg<Value<P>>> := [];
    assert none + [ContextArg] == [ContextArg];
    assert root + [id] == [id];
    assert ResolveDeps(cx.registry, cx.pool, [id], []).result == Success(none);
  }

  /** "override should override the service in the store": a context created
      after `override(id, cx => cx.get(x))` resolves `id` through `x`. */
  lemma OverrideTakesEffect<P>(reg: Registry<P>, id: Id, x: Id, t: Target)
    requires id != x
    requires Lookup(reg, x) == Some(Construct(t, []))
    ensures Get(NewContext(Override(reg, id, Alias(x))), id).0 == Success(Instance(x, Call(t, [ContextArg])))
  {
    AliasResolvesToTarget(Override(reg, id, Alias(x)), id, x, t);
  }

  /** The database plugin of the tests: `store.add(this)` followed by
      `store.override(AnyDatabase, cx => cx.get(this))`. */
  function RegisterDatabasePlugin<P>(reg: Registry<P>, anyDatabase: Id, className: string): Result<Registry<P>, Error>
  {
    match Add(reg, className, [])
    case Failure(e) => Failure(e)
    case Success(reg1) => Success(Override(reg1, anyDatabase, Alias(ClassId(className))))
  }

  /** `new App(plugins)`: each plugin registers in turn. */
  function RegisterAll<P>(reg: Registry<P>, anyDatabase: Id, classNames: seq<string>): Result<Registry<P>, Error>
    decreases |classNames|
  {
    if |classNames| == 0 then Success(reg)
    else
      match RegisterDatabasePlugin(reg, anyDatabase, classNames[0])
      case Failure(e) => Failure(e)
      case Success(reg1) => RegisterAll(reg1, anyDatabase, classNames[1..])
  }

  /** One plugin registers its class, points `AnyDatabase` at it, and
      leaves every other class binding alone. */
  lemma DatabasePluginStep<P>(reg: Registry<P>, anyDatabase: Id, className: string) returns (reg2: Registry<P>)
    requires ClassId(className) != anyDatabase
    requires Lookup(reg, ClassId(className)).None?
    ensures RegisterDatabasePlugin(reg, anyDatabase, className) == Success(reg2)
    ensures Lookup(reg2, anyDatabase) == Some(Alias(ClassId(className)))
    ensures Lookup(reg2, ClassId(className)) == Some(Construct(Ctor(className), []))
    ensures forall id :: id != anyDatabase && id != ClassId(className) ==> Lookup(reg2, id) == Lookup(reg, id)
  {
    var reg1 := Add(reg, className, []).value;
    reg2 := Override(reg1, anyDatabase, Alias(ClassId(className)));
  }

  /** `new App(plugins)` after its first plugin: the first plugin's step,
      then the rest of the list, which still meets the list's conditions, on
      the registry the step left. */
  lemma RegisterAllStep<P>(reg: Registry<P>, anyDatabase: Id, classNames: seq<string>) returns (reg2: Registry<P>)
    requires |classNames| > 0
    requires PluginsFree(reg, anyDatabase, classNames)
    ensures RegisterAll(reg, anyDatabase, classNames) == RegisterAll(reg2, anyDatabase, classNames[1..])
    ensures Lookup(reg2, anyDatabase) == Some(Alias(ClassId(classNames[0])))
    ensures Lookup(reg2, ClassId(classNames[0])) == Some(Construct(Ctor(classNames[0]), []))
    ensures PluginsFree(reg2, anyDatabase, classNames[1..])
  {
    reg2 := DatabasePluginStep(reg, anyDatabase, classNames[0]);
    RestPluginsCompatible(reg, reg2, anyDatabase, classNames);
  }

  /** A list of database plugins that can all register: distinct classes,
      none of them `AnyDatabase` itself, and none bound yet. */
  ghost predicate PluginsFree<P>(reg: Registry<P>, anyDatabase: Id, classNames: seq<string>)
  {
    && (forall i :: 0 <= i < |classNames| ==> ClassId(classNames[i]) != anyDatabase)
    && (forall i, j :: 0 <= i < j < |classNames| ==> classNames[i] != classNames[j])
    && (forall i :: 0 <= i < |classNames| ==> Lookup(reg, ClassId(classNames[i])).None?)
  }

  /** The plugins after the first meet the same conditions as the whole list
      once the first plugin has registered. */
  lemma RestPluginsCompatible<P>(reg: Registry<P>, reg2: Registry<P>, anyDatabase: Id, classNames: seq<string>)
    requires |classNames| > 0
    requires PluginsFree(reg, anyDatabase, classNames)
    requires forall id :: id != anyDatabase && id != ClassId(classNames[0]) ==> Lookup(reg2, id) == Lookup(reg, id)
    ensures PluginsFree(reg2, anyDatabase, classNames[1..])
  {
    var rest := classNames[1..];
    forall i | 0 <= i < |rest|
      ensures Lookup(reg2, ClassId(rest[i])).None?
    {
      assert rest[i] == classNames[i + 1];
      assert ClassId(rest[i]) != ClassId(classNames[0]);
    }
  }

  /** "use another database": with distinct plugin classes, registration
      succeeds and the plugin registered last is the one `AnyDatabase`
      resolves to. */
  lemma {:induction false} LastPluginWins<P>(reg: Registry<P>, anyDatabase: Id, classNames: seq<string>)
    returns (final: Registry<P>)
    requires |classNames| > 0
    requires PluginsFree(reg, anyDatabase, classNames)
    ensures RegisterAll(reg, anyDatabase, classNames) == Success(final)
    ensures Lookup(final, anyDatabase) == Some(Alias(ClassId(classNames[|classNames| - 1])))
    ensures Lookup(final, ClassId(classNames[|classNames| - 1])) == Some(Construct(Ctor(classNames[|classNames| - 1]), []))
    decreases |classNames|
  {
    var reg2 := RegisterAllStep(reg, anyDatabase, classNames);
    var rest := classNames[1..];
    if |rest| > 0 {
      final := LastPluginWins(reg2, anyDatabase, rest);
      assert rest[|rest| - 1] == classNames[|classNames| - 1];
    } else {
      final := reg2;
      assert RegisterAll(reg2, anyDatabase, rest) == Success(reg2);
    }
  }

  /** `AnyDatabase` then resolves to an instance of the plugin class
      registered last, built with the context only. */
  lemma LastPluginResolves<P>(reg: Registry<P>, anyDatabase: Id, classNames: seq<string>)
    requires |classNames| > 0
    requires PluginsFree(reg, anyDatabase, classNames)
    ensures RegisterAll(reg, anyDatabase, classNames).Success?
    ensures var last := classNames[|classNames| - 1];
      Get(NewContext(RegisterAll(reg, anyDatabase, classNames).value), anyDatabase).0
        == Success(Instance(ClassId(last), Call(Ctor(last), [ContextArg])))
  {
    var last := classNames[|classNames| - 1];
    var final := LastPluginWins(reg, anyDatabase, classNames);
    AliasResolvesToTarget(final, anyDatabase, ClassId(last), Ctor(last));
  }

  /** The tests' concrete scenario, first case: with only the mock plugin the
      database is the mock. */
  lemma MockOnlyScenario()
    ensures var any := Entity("AnyDatabase");
      var empty: Registry<int> := map[];
      && RegisterAll(empty, any, ["MockDatabase"]).Success?
      && Get(NewContext(RegisterAll(empty, any, ["MockDatabase"]).value), any).0
           == Success(Instance(ClassId("MockDatabase"), Call(Ctor("MockDatabase"), [ContextArg])))
  {
    var names := ["MockDatabase"];
    assert ClassId(names[0]) != Entity("AnyDatabase") by {
      assert names[0][0] != "AnyDatabase"[0];
    }
    LastPluginResolves<int>(map[], Entity("AnyDatabase"), names);
  }

  /** Second case: adding NoSQL after the mock gives NoSQL. */
  lemma NoSqlScenario()
    ensures var any := Entity("AnyDatabase");
      var empty: Registry<int> := map[];
      var two := ["MockDatabase", "NoSqlDatabase"];
      && RegisterAll(empty, any, two).Success?
      && Get(NewContext(RegisterAll(empty, any, two).value), any).0
           == Success(Instance(ClassId("NoSqlDatabase"), Call(Ctor("NoSqlDatabase"), [ContextArg])))
  {
    var names := ["MockDatabase", "NoSqlDatabase"];
    forall i | 0 <= i < |names|
      ensures ClassId(names[i]) != Entity("AnyDatabase")
    {
      assert names[i][0] != "AnyDatabase"[0];
    }
    assert names[0][0] != names[1][0];
    LastPluginResolves<int>(map[], Entity("AnyDatabase"), names);
  }

  /** Last case: adding NoSQL then SQL after the mock gives SQL. */
  lemma SqlLastScenario()
    ensures var any := Entity("AnyDatabase");
      var empty: Registry<int> := map[];
      var three := ["MockDatabase", "NoSqlDatabase", "SqlDatabase"];
      && RegisterAll(empty, any, three).Success?
      && Get(NewContext(RegisterAll(empty, any, three).value), any).0
           == Success(Instance(ClassId("SqlDatabase"), Call(Ctor("SqlDatabase"), [ContextArg])))
  {
    var names := ["MockDatabase", "NoSqlDatabase", "SqlDatabase"];
    forall i | 0 <= i < |names|
      ensures ClassId(names[i]) != Entity("AnyDatabase")
    {
      assert names[i][0] != "AnyDatabase"[0];
    }
    assert names[0][0] != names[1][0] && names[0][0] != names[2][0] && names[1][0] != names[2][0];
    LastPluginResolves<int>(map[], Entity("AnyDatabase"), names);
  }
}
