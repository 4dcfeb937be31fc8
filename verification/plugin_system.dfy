/** The code transformer of examples/plugin-system/lib (transformer.ts and
    plugins.ts). Config objects live under kind "Config" with variants
    `${key}`; transformers live under kind "TransformerPlugin" and see the
    whole loaded module. `processModule` runs the transformers in `getAll`
    order, each on the module as the previous one left it. */
module PluginSystem {
  import opened Wrappers
  import opened Strings
  import opened Identifier
  import opened Errors
  import opened Registry
  import opened Resolver
  import opened JsonMerge
  import opened PluginConfig
  import opened TextTransforms
  import opened PluginHost

  datatype LoadedModule = LoadedModule(code: string, outFilePath: string, inputFilename: string, inputFilePath: string)

  /** The transformers lib/plugins.ts defines. */
  datatype ModuleTransformer = Shebang(included: set<string>) | Licence(licence: string)

  /** `entity('Config')`, `entity('TransformerPlugin')`, the counter
      rendered as `${key}`, and the default name "xtent". */
  const Xtent: Host := Host("Config", "TransformerPlugin", "xtent", (k: nat) => NatToString(k))

  lemma XtentWellFormed()
    ensures WellFormed(Xtent)
  {
    NatToStringIsInjective();
    forall a: nat
      ensures NatToString(a) != DefaultVariant
    {
      assert DefaultVariant[0] == 'd';
    }
  }

  /** `ShebangPlugin({ include })`. */
  function ShebangPlugin(included: set<string>): Plugin<ModuleTransformer>
  {
    TransformPlugin("shebang", Shebang(included))
  }

  /** `ShebangPlugin()`: the include list defaults to empty. */
  function DefaultShebangPlugin(): Plugin<ModuleTransformer>
  {
    ShebangPlugin({})
  }

  /** `LicensePlugin(license)`. */
  function LicensePlugin(license: string): Plugin<ModuleTransformer>
  {
    TransformPlugin("licence", Licence(license))
  }

  /** `transformer.transform(mod)`: the new code. */
  function Transform(t: ModuleTransformer, m: LoadedModule): string
  {
    match t
    case Shebang(included) => if m.inputFilename in included then WithShebang(m.code) else m.code
    case Licence(l) => WithLicence(l, m.code)
  }

  /** The shebang transformer leaves a module whose file name is not in the
      include set untouched, and prefixes the others with the shebang line. */
  lemma ShebangOnlyForIncluded(included: set<string>, m: LoadedModule)
    ensures m.inputFilename !in included ==> Transform(Shebang(included), m) == m.code
    ensures m.inputFilename in included ==>
      StartsWith(Transform(Shebang(included), m), ShebangLine)
      && Transform(Shebang(included), m)[|ShebangLine|..] == m.code
  {
  }

  /** With the default options the shebang plugin never changes the code. */
  lemma DefaultShebangChangesNothing(m: LoadedModule)
    ensures Transform(DefaultShebangPlugin().transformer, m) == m.code
  {
  }

  /** The licence output ends with the code and is 8 characters longer than
      licence and code together. */
  lemma LicenceWraps(l: string, m: LoadedModule)
    ensures |Transform(Licence(l), m)| == |m.code| + |l| + 8
    ensures Transform(Licence(l), m)[|l| + 8..] == m.code
  {
  }

  /** The transformer loop of `processModule`: `mod.code =
      transformer.transform(mod)` for each transformer in turn. Only the code
      changes. */
  function ProcessModule(ts: seq<ModuleTransformer>, m: LoadedModule): (r: LoadedModule)
    ensures r.outFilePath == m.outFilePath
    ensures r.inputFilename == m.inputFilename
    ensures r.inputFilePath == m.inputFilePath
    decreases |ts|
  {
    if |ts| == 0 then m else ProcessModule(ts[1..], m.(code := Transform(ts[0], m)))
  }

  /** Each transformer sees the module as the transformers before it left
      it: adding one at the end applies it to the previous result. */
  lemma {:induction false} ProcessModuleSequential(ts: seq<ModuleTransformer>, t: ModuleTransformer, m: LoadedModule)
    ensures ProcessModule(ts + [t], m) == ProcessModule(ts, m).(code := Transform(t, ProcessModule(ts, m)))
    decreases |ts|
  {
    if |ts| == 0 {
      assert ([] + [t])[1..] == [];
    } else {
      assert (ts + [t])[1..] == ts[1..] + [t];
      ProcessModuleSequential(ts[1..], t, m.(code := Transform(ts[0], m)));
    }
  }

  /** Running two transformer lists one after the other is running their
      concatenation. */
  lemma {:induction false} ProcessModuleCompose(ts1: seq<ModuleTransformer>, ts2: seq<ModuleTransformer>, m: LoadedModule)
    ensures ProcessModule(ts1 + ts2, m) == ProcessModule(ts2, ProcessModule(ts1, m))
    decreases |ts1|
  {
    if |ts1| > 0 {
      assert (ts1 + ts2)[1..] == ts1[1..] + ts2;
      ProcessModuleCompose(ts1[1..], ts2, m.(code := Transform(ts1[0], m)));
    } else {
      assert ts1 + ts2 == ts2;
    }
  }

  /** `processModule(mod, cx)`. */
  function ProcessModuleIn(cx: Context<Payload<ModuleTransformer>>, m: LoadedModule)
    : (r: (Result<LoadedModule, Error>, Context<Payload<ModuleTransformer>>))
    ensures r.0.Success? ==>
      r.0.value.outFilePath == m.outFilePath && r.0.value.inputFilename == m.inputFilename
      && r.0.value.inputFilePath == m.inputFilePath
  {
    var (res, cx') := TransformersOf(Xtent, cx);
    match res
    case Failure(e) => (Failure(e), cx')
    case Success(ts) => (Success(ProcessModule(ts, m)), cx')
  }

  /** `CodeTransformer(plugins)` up to building the context: every plugin
      registers in turn; `key` is the counter's value before. */
  function CodeTransformer(plugins: seq<Plugin<ModuleTransformer>>, key: nat)
    : (Result<Registry<Payload<ModuleTransformer>>, Error>, nat)
  {
    RegisterPlugins(Xtent, map[], key, plugins)
  }

  /** With config plugins only, the built config is the defaults ("xtent",
      "dist", no inputs) merged with the plugins' objects in order. */
  lemma XtentConfig(cs: seq<Fields>, key: nat)
    ensures CodeTransformer(ConfigPlugins(cs), key).0.Success?
    ensures ConfigOf(Xtent, NewContext(CodeTransformer(ConfigPlugins(cs), key).0.value)).0
      == Success(BuildConfig("xtent", cs))
  {
    XtentWellFormed();
    ConfigFromConfigPlugins<ModuleTransformer>(Xtent, key, cs);
  }

  /** The transformers of `CodeTransformer([ShebangPlugin({ include }),
      LicensePlugin(l)])`, in plugin order. */
  lemma ShebangLicenceTransformers(included: set<string>, l: string, key: nat)
    ensures CodeTransformer([ShebangPlugin(included), LicensePlugin(l)], key).0.Success?
    ensures var reg := CodeTransformer([ShebangPlugin(included), LicensePlugin(l)], key).0.value;
      TransformersOf(Xtent, NewContext(reg)).0 == Success([Shebang(included), Licence(l)])
  {
    TransformersAre(Xtent, key, [ShebangPlugin(included), LicensePlugin(l)], [Shebang(included), Licence(l)]);
  }

  /** The shebang transform runs first, the licence transform on its output. */
  lemma ShebangLicenceChain(included: set<string>, l: string, m: LoadedModule)
    ensures ProcessModule([Shebang(included), Licence(l)], m)
      == m.(code := WithLicence(l, Transform(Shebang(included), m)))
  {
    assert [Shebang(included), Licence(l)] == [Shebang(included)] + [Licence(l)];
    ProcessModuleSequential([Shebang(included)], Licence(l), m);
  }

  /** `CodeTransformer([ShebangPlugin({ include }), LicensePlugin(l)])`
      processes a module by the shebang transform and then the licence
      transform. */
  lemma ShebangThenLicence(included: set<string>, l: string, key: nat, m: LoadedModule)
    ensures CodeTransformer([ShebangPlugin(included), LicensePlugin(l)], key).0.Success?
    ensures var reg := CodeTransformer([ShebangPlugin(included), LicensePlugin(l)], key).0.value;
      ProcessModuleIn(NewContext(reg), m).0
        == Success(m.(code := WithLicence(l, Transform(Shebang(included), m))))
  {
    ShebangLicenceTransformers(included, l, key);
    ShebangLicenceChain(included, l, m);
  }
}
