/** The plugin mechanism the two plugin-system variants share
    (lib/plugins.ts with lib/transformer.ts, and lib.ts). A plugin is either
    `ConfigPlugin(config)`, which inserts its config object under the next
    value of a counter, or `TransformPlugin(name, transformer)`, which inserts
    its transformer under its own name. The variants differ in the kind names,
    the spelling of the counter variant and the default config name; `Host`
    collects those.

    The counter is a module-level `let key = 1` in the source; here it is
    threaded through the registrations explicitly. */
module PluginHost {
  import opened Wrappers
  import opened Identifier
  import opened Errors
  import opened Registry
  import opened Resolver
  import opened JsonMerge
  import opened PluginConfig
  import opened ContainerContract

  /** What a plugin stores in the registry. */
  datatype Payload<T> = ConfigValue(fields: Fields) | TransformerValue(transformer: T)

  datatype Plugin<T> = ConfigPlugin(config: Fields) | TransformPlugin(name: string, transformer: T)

  /** The names one variant of the example uses. */
  datatype Host = Host(configKind: string, transformerKind: string, defaultName: string, configVariant: nat -> string)

  /** The counter variants are all distinct and never "default" (the variant
      holding the config builder), and the two kinds differ. */
  ghost predicate WellFormed(h: Host)
  {
    && h.configKind != h.transformerKind
    && (forall a: nat, b: nat :: h.configVariant(a) == h.configVariant(b) ==> a == b)
    && (forall a: nat :: h.configVariant(a) != DefaultVariant)
  }

  function AsConfig<T>(p: Payload<T>): Option<Fields>
  {
    if p.ConfigValue? then Some(p.fields) else None
  }

  function AsTransformer<T>(p: Payload<T>): Option<T>
  {
    if p.TransformerValue? then Some(p.transformer) else None
  }

  /** Where a plugin registers, given the counter's current value. */
  function Slot<T>(h: Host, p: Plugin<T>, key: nat): Id
  {
    match p
    case ConfigPlugin(_) => Entity(h.configKind, h.configVariant(key))
    case TransformPlugin(name, _) => Entity(h.transformerKind, name)
  }

  function Stored<T>(p: Plugin<T>): Payload<T>
  {
    match p
    case ConfigPlugin(c) => ConfigValue(c)
    case TransformPlugin(_, t) => TransformerValue(t)
  }

  /** `plugin.register(store)`: `store.insert(slot, value)` without override.
      A config plugin reads and advances the counter before inserting, so the
      counter moves on even when the insert throws. */
  function RegisterPlugin<T>(h: Host, reg: Registry<Payload<T>>, key: nat, p: Plugin<T>)
    : (r: (Result<Registry<Payload<T>>, Error>, nat))
    ensures r.1 == if p.ConfigPlugin? then key + 1 else key
    ensures r.0.Success? <==> Lookup(reg, Slot(h, p, key)).None?
    ensures r.0.Success? ==> Lookup(r.0.value, Slot(h, p, key)) == Some(Constant(Stored(p)))
    ensures r.0.Success? ==> forall other :: other != Slot(h, p, key) ==> Lookup(r.0.value, other) == Lookup(reg, other)
  {
    (Insert(reg, Slot(h, p, key), Stored(p), false), if p.ConfigPlugin? then key + 1 else key)
  }

  /** `for (const plugin of plugins) plugin.register(store)`; a throw ends
      the loop. */
  function RegisterPlugins<T>(h: Host, reg: Registry<Payload<T>>, key: nat, ps: seq<Plugin<T>>)
    : (Result<Registry<Payload<T>>, Error>, nat)
    decreases |ps|
  {
    if |ps| == 0 then (Success(reg), key)
    else
      match RegisterPlugin(h, reg, key, ps[0])
      case (Failure(e), key1) => (Failure(e), key1)
      case (Success(reg1), key1) => RegisterPlugins(h, reg1, key1, ps[1..])
  }

  /** The configuration a context's config builder returns. */
  function ConfigOf<T>(h: Host, cx: Context<Payload<T>>): (Result<Fields, Error>, Context<Payload<T>>)
  {
    ConfigFrom(cx, h.configKind, h.defaultName, AsConfig)
  }

  /** `cx.getAll(transformerKind).values()`: the registered transformers in
      registration order. */
  function TransformersOf<T>(h: Host, cx: Context<Payload<T>>): (r: (Result<seq<T>, Error>, Context<Payload<T>>))
    ensures r.1.registry == cx.registry
    ensures Extends(cx.pool, r.1.pool)
  {
    var (res, cx') := GetAll(cx, Entity(h.transformerKind), {});
    match res
    case Failure(e) => (Failure(e), cx')
    case Success(entries) => (Success(Picked(entries, AsTransformer)), cx')
  }

  /** Successive config plugins register under distinct variants, because the
      counter only moves forward. */
  lemma ConfigSlotsDistinct<T>(h: Host, a: Fields, b: Fields, k1: nat, k2: nat)
    requires WellFormed(h) && k1 < k2
    ensures Slot(h, Plugin<T>.ConfigPlugin(a), k1) != Slot(h, Plugin<T>.ConfigPlugin(b), k2)
  {
  }

  /** A transform plugin registers under a variant equal to its name. */
  lemma TransformSlotIsName<T>(h: Host, name: string, t: T, key: nat)
    ensures Slot(h, TransformPlugin(name, t), key) == Id(h.transformerKind, name)
  {
  }

  /** The bindings `n` config plugins leave, from counter value `key` on. */
  function ConfigBindings<T>(h: Host, key: nat, cs: seq<Fields>): (bs: Table<Payload<T>>)
    ensures |bs| == |cs|
    ensures forall i :: 0 <= i < |cs| ==> bs[i] == Binding(h.configVariant(key + i), Constant(ConfigValue(cs[i])))
  {
    seq(|cs|, i requires 0 <= i < |cs| => Binding(h.configVariant(key + i), Constant(ConfigValue(cs[i]))))
  }

  function ConfigPlugins<T>(cs: seq<Fields>): (ps: seq<Plugin<T>>)
    ensures |ps| == |cs|
    ensures forall i :: 0 <= i < |cs| ==> ps[i] == ConfigPlugin(cs[i])
  {
    seq(|cs|, i requires 0 <= i < |cs| => ConfigPlugin(cs[i]))
  }

  /** The bindings a list of transform plugins leaves, in order. */
  function TransformBindings<T>(ps: seq<Plugin<T>>): (bs: Table<Payload<T>>)
    requires forall i :: 0 <= i < |ps| ==> ps[i].TransformPlugin?
    ensures |bs| == |ps|
    ensures forall i :: 0 <= i < |ps| ==> bs[i] == Binding(ps[i].name, Constant(TransformerValue(ps[i].transformer)))
  {
    seq(|ps|, i requires 0 <= i < |ps| => Binding(ps[i].name, Constant(TransformerValue(ps[i].transformer))))
  }

  /** Registering config plugins is registering their bindings in order. */
  lemma {:induction false} ConfigPluginsRegisterEach<T>(h: Host, reg: Registry<Payload<T>>, key: nat, cs: seq<Fields>)
    ensures RegisterPlugins(h, reg, key, ConfigPlugins<T>(cs)).0 == RegisterEach(reg, h.configKind, ConfigBindings(h, key, cs))
    decreases |cs|
  {
    if |cs| > 0 {
      var ps := ConfigPlugins<T>(cs);
      var bs := ConfigBindings<T>(h, key, cs);
      ConfigListsShift<T>(h, key, cs);
      PluginStep(h, reg, key, ps);
      EachStep(reg, h.configKind, bs);
      var r := Register(reg, Id(h.configKind, bs[0].variant), bs[0].recipe, false);
      assert RegisterPlugin(h, reg, key, ps[0]) == (r, key + 1);
      if r.Success? {
        ConfigPluginsRegisterEach(h, r.value, key + 1, cs[1..]);
      }
    }
  }

  lemma ConfigListsShift<T>(h: Host, key: nat, cs: seq<Fields>)
    requires |cs| > 0
    ensures ConfigPlugins<T>(cs)[1..] == ConfigPlugins<T>(cs[1..])
    ensures ConfigBindings<T>(h, key, cs)[1..] == ConfigBindings<T>(h, key + 1, cs[1..])
  {
  }

  /** One step of the plugin loop. */
  lemma PluginStep<T>(h: Host, reg: Registry<Payload<T>>, key: nat, ps: seq<Plugin<T>>)
    requires |ps| > 0
    ensures var (r, key1) := RegisterPlugin(h, reg, key, ps[0]);
      RegisterPlugins(h, reg, key, ps) == if r.Failure? then (Failure(r.error), key1) else RegisterPlugins(h, r.value, key1, ps[1..])
  {
  }

  /** One step of `RegisterEach`. */
  lemma EachStep<P>(reg: Registry<P>, kind: string, bs: seq<Binding<P>>)
    requires |bs| > 0
    ensures var r := Register(reg, Id(kind, bs[0].variant), bs[0].recipe, false);
      RegisterEach(reg, kind, bs) == if r.Failure? then Failure(r.error) else RegisterEach(r.value, kind, bs[1..])
  {
  }

  /** Registering transform plugins is registering their bindings in order. */
  lemma {:induction false} TransformPluginsRegisterEach<T>(h: Host, reg: Registry<Payload<T>>, key: nat, ps: seq<Plugin<T>>)
    requires forall i :: 0 <= i < |ps| ==> ps[i].TransformPlugin?
    ensures RegisterPlugins(h, reg, key, ps).0 == RegisterEach(reg, h.transformerKind, TransformBindings(ps))
    decreases |ps|
  {
    if |ps| > 0 {
      var bs := TransformBindings(ps);
      assert bs[1..] == TransformBindings(ps[1..]);
      PluginStep(h, reg, key, ps);
      EachStep(reg, h.transformerKind, bs);
      assert RegisterPlugin(h, reg, key, ps[0]).0 == Register(reg, Id(h.transformerKind, bs[0].variant), bs[0].recipe, false);
      if RegisterPlugin(h, reg, key, ps[0]).0.Success? {
        TransformPluginsRegisterEach(h, RegisterPlugin(h, reg, key, ps[0]).0.value, key, ps[1..]);
      }
    }
  }

  /** A fresh context over bindings registered from scratch: `getAll`
      returns them all, in registration order. */
  lemma GetAllOfFreshBindings<P>(kind: string, bs: seq<Binding<P>>, exclude: set<string>)
    requires UniqueVariants(bs)
    requires forall i :: 0 <= i < |bs| ==> bs[i].recipe.Constant? && bs[i].variant !in exclude
    ensures RegisterEach(map[], kind, bs).Success?
    ensures GetAll(NewContext(RegisterEach(map[], kind, bs).value), Entity(kind), exclude).0 == Success(TableEntries(bs))
  {
    var empty: Registry<P> := map[];
    FreshRegistrationsAppend(empty, kind, bs);
    var reg := RegisterEach(empty, kind, bs).value;
    assert TableOf(empty, kind) + bs == bs;
    assert TableOf(reg, kind) == bs;
    GetAllOfTable(reg, kind, exclude);
  }

  lemma ConfigBindingsFresh<T>(h: Host, key: nat, cs: seq<Fields>)
    requires WellFormed(h)
    ensures UniqueVariants(ConfigBindings<T>(h, key, cs))
    ensures forall i :: 0 <= i < |cs| ==> ConfigBindings<T>(h, key, cs)[i].variant != DefaultVariant
  {
    var bs := ConfigBindings<T>(h, key, cs);
    forall i, j | 0 <= i < j < |bs|
      ensures bs[i].variant != bs[j].variant
    {
      assert h.configVariant(key + i) != h.configVariant(key + j);
    }
  }

  /** The config builder of a transformer set up with config plugins only:
      registration succeeds and the built config merges the plugins' objects
      into the defaults in registration order. */
  lemma ConfigFromConfigPlugins<T>(h: Host, key: nat, cs: seq<Fields>)
    requires WellFormed(h)
    ensures RegisterPlugins(h, map[], key, ConfigPlugins<T>(cs)).0.Success?
    ensures var reg := RegisterPlugins(h, map[], key, ConfigPlugins<T>(cs)).0.value;
      ConfigOf(h, NewContext(reg)).0 == Success(BuildConfig(h.defaultName, cs))
  {
    var empty: Registry<Payload<T>> := map[];
    var bs := ConfigBindings<T>(h, key, cs);
    ConfigBindingsFresh<T>(h, key, cs);
    ConfigPluginsRegisterEach(h, empty, key, cs);
    GetAllOfFreshBindings(h.configKind, bs, {DefaultVariant});
    PickedConfigs<T>(h, key, cs);
  }

  lemma PickedConfigs<T>(h: Host, key: nat, cs: seq<Fields>)
    ensures Picked(TableEntries(ConfigBindings<T>(h, key, cs)), AsConfig) == cs
  {
    var entries := TableEntries(ConfigBindings<T>(h, key, cs));
    assert forall i :: 0 <= i < |entries| ==> entries[i].value == Const(ConfigValue(cs[i]));
  }

  /** The transformers of a transformer set up with transform plugins of
      distinct names: registration succeeds and `getAll` gives the
      transformers in registration order. */
  lemma TransformersFromTransformPlugins<T>(h: Host, key: nat, ps: seq<Plugin<T>>)
    requires forall i :: 0 <= i < |ps| ==> ps[i].TransformPlugin?
    requires forall i, j :: 0 <= i < j < |ps| ==> ps[i].name != ps[j].name
    ensures RegisterPlugins(h, map[], key, ps).0.Success?
    ensures var reg := RegisterPlugins(h, map[], key, ps).0.value;
      && TransformersOf(h, NewContext(reg)).0.Success?
      && |TransformersOf(h, NewContext(reg)).0.value| == |ps|
      && forall i :: 0 <= i < |ps| ==> TransformersOf(h, NewContext(reg)).0.value[i] == ps[i].transformer
  {
    var empty: Registry<Payload<T>> := map[];
    var bs := TransformBindings(ps);
    TransformPluginsRegisterEach(h, empty, key, ps);
    assert UniqueVariants(bs);
    GetAllOfFreshBindings(h.transformerKind, bs, {});
    PickedTransformers(ps);
  }

  lemma PickedTransformers<T>(ps: seq<Plugin<T>>)
    requires forall i :: 0 <= i < |ps| ==> ps[i].TransformPlugin?
    ensures var ts := Picked(TableEntries(TransformBindings(ps)), AsTransformer);
      |ts| == |ps| && forall i :: 0 <= i < |ps| ==> ts[i] == ps[i].transformer
  {
    var entries := TableEntries(TransformBindings(ps));
    assert forall i :: 0 <= i < |entries| ==> entries[i].value == Const(TransformerValue(ps[i].transformer));
  }

  /** The same, stated as a whole list: the transformers come back exactly
      as the plugins carried them. */
  lemma TransformersAre<T>(h: Host, key: nat, ps: seq<Plugin<T>>, ts: seq<T>)
    requires |ps| == |ts|
    requires forall i :: 0 <= i < |ps| ==> ps[i].TransformPlugin? && ps[i].transformer == ts[i]
    requires forall i, j :: 0 <= i < j < |ps| ==> ps[i].name != ps[j].name
    ensures RegisterPlugins(h, map[], key, ps).0.Success?
    ensures TransformersOf(h, NewContext(RegisterPlugins(h, map[], key, ps).0.value)).0 == Success(ts)
  {
    TransformersFromTransformPlugins(h, key, ps);
    var reg := RegisterPlugins(h, map[], key, ps).0.value;
    assert TransformersOf(h, NewContext(reg)).0.value == ts;
  }
}
