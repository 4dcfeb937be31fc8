/** The registry a Store owns: kind -> variant -> recipe. The variants of a
    kind keep the order in which they were first registered (a JavaScript
    `Map` keeps insertion order, and overwriting an entry keeps its place), so
    each kind's variants are an ordered table.

    src/store.ts only logs; the behaviour here is the one the unit tests rely
    on: `add`, `use`, `insert` register without override and `override`
    always replaces. A registration without override on an occupied slot is a
    conflict. */
module Registry {
  import opened Wrappers
  import opened Identifier
  import opened Errors
  import opened Factory

  /** How a binding produces its value. `P` is the type of constant values. */
  datatype Recipe<P> =
      /** `insert(id, value)` or `use(id, value)`. */
    | Constant(payload: P)
      /** `add(ctor, deps)` or `use(id, ctor, deps)`: a factory built by
          `buildFactoryFunction`. */
    | Construct(target: Target, deps: seq<Dep>)
      /** A hand-written factory `cx => cx.get(of)`. */
    | Alias(of: Id)
      /** A hand-written factory `cx => cx.getAll(kind, { exclude })`. */
    | Collect(kind: Id, exclude: set<string>)

  datatype Binding<P> = Binding(variant: string, recipe: Recipe<P>)

  type Table<P> = seq<Binding<P>>

  type Registry<P> = map<string, Table<P>>

  /** The variants of a table, in registration order. */
  function Variants<P>(t: Table<P>): (vs: seq<string>)
    ensures |vs| == |t|
    ensures forall i :: 0 <= i < |t| ==> vs[i] == t[i].variant
  {
    seq(|t|, i requires 0 <= i < |t| => t[i].variant)
  }

  ghost predicate UniqueVariants<P>(t: Table<P>)
  {
    forall i, j :: 0 <= i < j < |t| ==> t[i].variant != t[j].variant
  }

  ghost predicate Valid<P>(reg: Registry<P>)
  {
    forall k :: k in reg ==> UniqueVariants(reg[k])
  }

  /** The table of a kind; an unregistered kind has an empty one. */
  function TableOf<P>(reg: Registry<P>, kind: string): Table<P>
  {
    if kind in reg then reg[kind] else []
  }

  /** The position of `variant` in the table, or `|t|` when absent. */
  function IndexOf<P>(t: Table<P>, variant: string): (i: nat)
    ensures i <= |t|
    ensures i < |t| ==> t[i].variant == variant
    ensures forall j :: 0 <= j < i ==> t[j].variant != variant
    decreases |t|
  {
    if |t| == 0 then 0
    else if t[0].variant == variant then 0
    else 1 + IndexOf(t[1..], variant)
  }

  /** The recipe stored under `variant`, if any. */
  function Find<P>(t: Table<P>, variant: string): (r: Option<Recipe<P>>)
    ensures r.Some? <==> variant in Variants(t)
    ensures r.Some? ==> exists i :: 0 <= i < |t| && t[i] == Binding(variant, r.value)
  {
    var i := IndexOf(t, variant);
    if i < |t| then Some(t[i].recipe) else None
  }

  function Lookup<P>(reg: Registry<P>, id: Id): Option<Recipe<P>>
  {
    Find(TableOf(reg, id.name), id.variant)
  }

  /** The position of a variant depends on the variant order alone. */
  lemma IndexOfFollowsVariants<P>(t: Table<P>, u: Table<P>, w: string)
    requires Variants(t) == Variants(u)
    ensures IndexOf(t, w) == IndexOf(u, w)
  {
  }

  /** Overwriting the entry at the first position of its variant. */
  lemma FindAfterReplace<P>(t: Table<P>, variant: string, recipe: Recipe<P>)
    requires IndexOf(t, variant) < |t|
    ensures var r := t[IndexOf(t, variant) := Binding(variant, recipe)];
      && Variants(r) == Variants(t)
      && Find(r, variant) == Some(recipe)
      && forall w :: w != variant ==> Find(r, w) == Find(t, w)
  {
    var i := IndexOf(t, variant);
    var r := t[i := Binding(variant, recipe)];
    assert Variants(r) == Variants(t);
    forall w
      ensures IndexOf(r, w) == IndexOf(t, w)
    {
      IndexOfFollowsVariants(r, t, w);
    }
  }

  /** Appending an entry leaves the positions of earlier variants alone. */
  lemma IndexAfterAppend<P>(t: Table<P>, b: Binding<P>, w: string)
    ensures IndexOf(t, w) < |t| ==> IndexOf(t + [b], w) == IndexOf(t, w)
    ensures IndexOf(t, w) == |t| ==> IndexOf(t + [b], w) == if b.variant == w then |t| else |t| + 1
  {
    var r := t + [b];
    var i, k := IndexOf(t, w), IndexOf(r, w);
    if k < |t| {
      assert r[k] == t[k];
    }
    if i < |t| {
      assert r[i] == t[i];
    }
    assert r[|t|] == b;
  }

  /** Appending an entry for a variant not yet present. */
  lemma FindAfterAppend<P>(t: Table<P>, variant: string, recipe: Recipe<P>)
    requires IndexOf(t, variant) == |t|
    ensures var r := t + [Binding(variant, recipe)];
      && Variants(r) == Variants(t) + [variant]
      && Find(r, variant) == Some(recipe)
      && forall w :: w != variant ==> Find(r, w) == Find(t, w)
  {
    var b := Binding(variant, recipe);
    var r := t + [b];
    assert Variants(r) == Variants(t) + [variant];
    IndexAfterAppend(t, b, variant);
    forall w | w != variant
      ensures Find(r, w) == Find(t, w)
    {
      IndexAfterAppend(t, b, w);
      if IndexOf(t, w) < |t| {
        assert r[IndexOf(t, w)] == t[IndexOf(t, w)];
      }
    }
  }

  /** `Map.set(variant, recipe)` on one kind's table: an existing entry is
      replaced in place, a new one goes to the end. */
  function Put<P>(t: Table<P>, variant: string, recipe: Recipe<P>): (r: Table<P>)
    ensures Find(r, variant) == Some(recipe)
    ensures forall v :: v != variant ==> Find(r, v) == Find(t, v)
    ensures variant in Variants(t) ==> Variants(r) == Variants(t)
    ensures variant !in Variants(t) ==> Variants(r) == Variants(t) + [variant]
    ensures UniqueVariants(t) ==> UniqueVariants(r)
  {
    var i := IndexOf(t, variant);
    if i < |t| then
      FindAfterReplace(t, variant, recipe);
      t[i := Binding(variant, recipe)]
    else
      FindAfterAppend(t, variant, recipe);
      assert variant !in Variants(t);
      t + [Binding(variant, recipe)]
  }

  /** Registration into one slot. Without `override` an occupied slot is a
      conflict and nothing changes; otherwise the slot holds `recipe`
      afterwards and every other slot is untouched. */
  function Register<P>(reg: Registry<P>, id: Id, recipe: Recipe<P>, override: bool): (r: Result<Registry<P>, Error>)
    ensures r.Failure? <==> !override && Lookup(reg, id).Some?
    ensures r.Failure? ==> r.error == RegistrationConflict(id)
    ensures r.Success? ==> Lookup(r.value, id) == Some(recipe)
    ensures r.Success? ==> forall other :: other != id ==> Lookup(r.value, other) == Lookup(reg, other)
    ensures r.Success? ==> forall kind :: kind != id.name ==> TableOf(r.value, kind) == TableOf(reg, kind)
    ensures r.Success? && Valid(reg) ==> Valid(r.value)
  {
    if !override && Lookup(reg, id).Some? then Failure(RegistrationConflict(id))
    else Success(reg[id.name := Put(TableOf(reg, id.name), id.variant, recipe)])
  }

  /** The identifier a class registers under. The source derives a unique kind
      per constructor value; here the class name is that kind. */
  function ClassId(className: string): (id: Id)
    ensures id.variant == DefaultVariant
  {
    Entity(className)
  }

  /** `store.add(Class, deps)`. */
  function Add<P>(reg: Registry<P>, className: string, deps: seq<Dep>): Result<Registry<P>, Error>
  {
    Register(reg, ClassId(className), Construct(Ctor(className), deps), false)
  }

  /** `store.use(id, valueOrFactoryOrClass)`. */
  function Use<P>(reg: Registry<P>, id: Id, recipe: Recipe<P>): Result<Registry<P>, Error>
  {
    Register(reg, id, recipe, false)
  }

  /** `store.insert(id, value, { override })`. */
  function Insert<P>(reg: Registry<P>, id: Id, value: P, override: bool): Result<Registry<P>, Error>
  {
    Register(reg, id, Constant(value), override)
  }

  /** `store.override(id, factory)`: always replaces. */
  function Override<P>(reg: Registry<P>, id: Id, recipe: Recipe<P>): (r: Registry<P>)
    ensures Lookup(r, id) == Some(recipe)
    ensures forall other :: other != id ==> Lookup(r, other) == Lookup(reg, other)
    ensures Valid(reg) ==> Valid(r)
  {
    Register(reg, id, recipe, true).value
  }

  /** A second registration of the same slot without override fails;
      overriding it instead makes the new recipe the one stored. */
  lemma DuplicateRegistrationConflicts<P>(reg: Registry<P>, id: Id, f: Recipe<P>, g: Recipe<P>)
    requires Use(reg, id, f).Success?
    ensures Use(Use(reg, id, f).value, id, g) == Failure(RegistrationConflict(id))
    ensures Lookup(Override(Use(reg, id, f).value, id, g), id) == Some(g)
  {
  }

  /** The last of several overrides of one identifier wins. */
  lemma {:induction false} LastOverrideWins<P>(reg: Registry<P>, id: Id, fs: seq<Recipe<P>>)
    requires |fs| > 0
    ensures Lookup(OverrideAll(reg, id, fs), id) == Some(fs[|fs| - 1])
    decreases |fs|
  {
    if |fs| > 1 {
      LastOverrideWins(Override(reg, id, fs[0]), id, fs[1..]);
    }
  }

  function OverrideAll<P>(reg: Registry<P>, id: Id, fs: seq<Recipe<P>>): Registry<P>
    decreases |fs|
  {
    if |fs| == 0 then reg else OverrideAll(Override(reg, id, fs[0]), id, fs[1..])
  }

  /** Registering a new variant appends it to its kind's variant order;
      re-registering an existing one keeps the order. */
  lemma RegistrationOrder<P>(reg: Registry<P>, id: Id, f: Recipe<P>, override: bool)
    requires Register(reg, id, f, override).Success?
    ensures var t := TableOf(Register(reg, id, f, override).value, id.name);
      if id.variant in Variants(TableOf(reg, id.name))
      then Variants(t) == Variants(TableOf(reg, id.name))
      else Variants(t) == Variants(TableOf(reg, id.name)) + [id.variant]
  {
  }

  /** Registering a slot that is still free succeeds, with or without
      override, and appends one binding to the end of its kind's table. */
  lemma FreshRegistrationAppends<P>(reg: Registry<P>, id: Id, recipe: Recipe<P>, override: bool)
    requires Lookup(reg, id).None?
    ensures Register(reg, id, recipe, override).Success?
    ensures TableOf(Register(reg, id, recipe, override).value, id.name)
      == TableOf(reg, id.name) + [Binding(id.variant, recipe)]
  {
  }

  /** In a table without repeated variants, the recipe found for a variant is
      the one bound at its position. */
  lemma FindUnique<P>(t: Table<P>, i: nat)
    requires UniqueVariants(t) && i < |t|
    ensures Find(t, t[i].variant) == Some(t[i].recipe)
  {
  }

  /** Register the bindings one after another under `kind`, without
      override, stopping at the first conflict. */
  function RegisterEach<P>(reg: Registry<P>, kind: string, bs: seq<Binding<P>>): Result<Registry<P>, Error>
    decreases |bs|
  {
    if |bs| == 0 then Success(reg)
    else
      match Register(reg, Id(kind, bs[0].variant), bs[0].recipe, false)
      case Failure(e) => Failure(e)
      case Success(reg1) => RegisterEach(reg1, kind, bs[1..])
  }

  /** Registering fresh, distinct variants appends them to the kind's table
      in registration order and leaves every other kind alone. */
  lemma {:induction false} FreshRegistrationsAppend<P>(reg: Registry<P>, kind: string, bs: seq<Binding<P>>)
    requires UniqueVariants(bs)
    requires forall i :: 0 <= i < |bs| ==> bs[i].variant !in Variants(TableOf(reg, kind))
    ensures RegisterEach(reg, kind, bs).Success?
    ensures TableOf(RegisterEach(reg, kind, bs).value, kind) == TableOf(reg, kind) + bs
    ensures forall other :: other != kind ==> TableOf(RegisterEach(reg, kind, bs).value, other) == TableOf(reg, other)
    decreases |bs|
  {
    if |bs| == 0 {
      assert TableOf(reg, kind) + bs == TableOf(reg, kind);
    } else {
      var t := TableOf(reg, kind);
      var reg1 := RegisterFirst(reg, kind, bs);
      RestStaysFresh(t, bs);
      FreshRegistrationsAppend(reg1, kind, bs[1..]);
      assert [bs[0]] + bs[1..] == bs;
      AppendAssociates(t, [bs[0]], bs[1..]);
    }
  }

  /** The first step of `RegisterEach` on a fresh variant. */
  lemma RegisterFirst<P>(reg: Registry<P>, kind: string, bs: seq<Binding<P>>) returns (reg1: Registry<P>)
    requires |bs| > 0 && bs[0].variant !in Variants(TableOf(reg, kind))
    ensures RegisterEach(reg, kind, bs) == RegisterEach(reg1, kind, bs[1..])
    ensures TableOf(reg1, kind) == TableOf(reg, kind) + [bs[0]]
    ensures forall other :: other != kind ==> TableOf(reg1, other) == TableOf(reg, other)
  {
    var id := Id(kind, bs[0].variant);
    FreshRegistrationAppends(reg, id, bs[0].recipe, false);
    reg1 := Register(reg, id, bs[0].recipe, false).value;
  }

  lemma RestStaysFresh<P>(t: Table<P>, bs: seq<Binding<P>>)
    requires |bs| > 0 && UniqueVariants(bs)
    requires forall i :: 0 <= i < |bs| ==> bs[i].variant !in Variants(t)
    ensures UniqueVariants(bs[1..])
    ensures forall i :: 0 <= i < |bs| - 1 ==> bs[1..][i].variant !in Variants(t + [bs[0]])
  {
    assert Variants(t + [bs[0]]) == Variants(t) + [bs[0].variant];
    assert forall i :: 0 <= i < |bs| - 1 ==> bs[1..][i] == bs[i + 1];
  }
}
