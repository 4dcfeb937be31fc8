/** The code transformer of examples/plugin-system/lib.ts. It differs from
    the lib/ variant in its names (kinds "TransformerConfig" and
    "InputTransformer", counter variants `c-${key}`, default name "bundle"),
    in its transformers, which see only the code, and in
    `processFile`, which threads the code through the transformers and copies
    the file record with the final code. */
module Bundler {
  import opened Wrappers
  import opened Strings
  import opened Identifier
  import opened Errors
  import opened Registry
  import opened Resolver
  import opened JsonMerge
  import opened PluginConfig
  import opened TextTransforms
  import opened PluginHost

  datatype LoadedFile = LoadedFile(code: string, outFilePath: string)

  /** The transformers lib.ts defines. */
  datatype CodeTransformer = RemoveIndent | AddShebang | AddLicence(licence: string)

  /** The counter variant: `c-${key}`. */
  function ConfigVariant(k: nat): string
  {
    "c-" + NatToString(k)
  }

  const Bundle: Host := Host("TransformerConfig", "InputTransformer", "bundle", ConfigVariant)

  lemma BundleWellFormed()
    ensures WellFormed(Bundle)
  {
    forall a: nat, b: nat | ConfigVariant(a) == ConfigVariant(b)
      ensures a == b
    {
      assert ConfigVariant(a)[2..] == NatToString(a);
      assert ConfigVariant(b)[2..] == NatToString(b);
      NatToStringInjective(a, b);
    }
    forall a: nat
      ensures ConfigVariant(a) != DefaultVariant
    {
      assert ConfigVariant(a)[0] == 'c';
    }
  }

  function IndentationRemovePlugin(): Plugin<CodeTransformer>
  {
    TransformPlugin("indentation removeer", RemoveIndent)
  }

  function ShebangPlugin(): Plugin<CodeTransformer>
  {
    TransformPlugin("shebang", AddShebang)
  }

  function LicensePlugin(licence: string): Plugin<CodeTransformer>
  {
    TransformPlugin("licence", AddLicence(licence))
  }

  /** `transformer.transform(code)`. */
  function Transform(t: CodeTransformer, code: string): string
  {
    match t
    case RemoveIndent => RemoveIndentation(code)
    case AddShebang => WithShebang(code)
    case AddLicence(l) => WithLicence(l, code)
  }

  /** The transformer loop of `processFile`. */
  function RunAll(ts: seq<CodeTransformer>, code: string): string
    decreases |ts|
  {
    if |ts| == 0 then code else RunAll(ts[1..], Transform(ts[0], code))
  }

  /** `processFile(file, cx)` once the transformers are known: a copy of the
      file whose code went through every transformer; nothing else changes. */
  function ProcessFile(ts: seq<CodeTransformer>, f: LoadedFile): (r: LoadedFile)
    ensures r.outFilePath == f.outFilePath
    ensures |ts| == 0 ==> r == f
  {
    f.(code := RunAll(ts, f.code))
  }

  /** Each transformer receives the previous one's output. */
  lemma {:induction false} RunAllSequential(ts: seq<CodeTransformer>, t: CodeTransformer, code: string)
    ensures RunAll(ts + [t], code) == Transform(t, RunAll(ts, code))
    decreases |ts|
  {
    if |ts| == 0 {
      assert ([] + [t])[1..] == [];
    } else {
      assert (ts + [t])[1..] == ts[1..] + [t];
      RunAllSequential(ts[1..], t, Transform(ts[0], code));
    }
  }

  /** `processFile(file, cx)`. */
  function ProcessFileIn(cx: Context<Payload<CodeTransformer>>, f: LoadedFile)
    : (r: (Result<LoadedFile, Error>, Context<Payload<CodeTransformer>>))
    ensures r.0.Success? ==> r.0.value.outFilePath == f.outFilePath
  {
    var (res, cx') := TransformersOf(Bundle, cx);
    match res
    case Failure(e) => (Failure(e), cx')
    case Success(ts) => (Success(ProcessFile(ts, f)), cx')
  }

  /** `CodeTransformer(plugins)` up to building the context. */
  function Setup(plugins: seq<Plugin<CodeTransformer>>, key: nat)
    : (Result<Registry<Payload<CodeTransformer>>, Error>, nat)
  {
    RegisterPlugins(Bundle, map[], key, plugins)
  }

  /** With config plugins only, the built config is the defaults ("bundle",
      "dist", no inputs) merged with the plugins' objects in order. */
  lemma BundleConfig(cs: seq<Fields>, key: nat)
    ensures Setup(ConfigPlugins(cs), key).0.Success?
    ensures ConfigOf(Bundle, NewContext(Setup(ConfigPlugins(cs), key).0.value)).0
      == Success(BuildConfig("bundle", cs))
  {
    BundleWellFormed();
    ConfigFromConfigPlugins<CodeTransformer>(Bundle, key, cs);
  }

  /** The three plugins of the demo. */
  function DemoPlugins(l: string): seq<Plugin<CodeTransformer>>
  {
    [IndentationRemovePlugin(), ShebangPlugin(), LicensePlugin(l)]
  }

  /** The demo's plugins register, and `getAll` returns their transformers
      in registration order. */
  lemma DemoTransformers(l: string, key: nat)
    ensures Setup(DemoPlugins(l), key).0.Success?
    ensures TransformersOf(Bundle, NewContext(Setup(DemoPlugins(l), key).0.value)).0
      == Success([RemoveIndent, AddShebang, AddLicence(l)])
  {
    TransformersAre(Bundle, key, DemoPlugins(l), [RemoveIndent, AddShebang, AddLicence(l)]);
  }

  /** The demo chain strips the indentation, then prefixes the shebang line,
      then wraps the result in the licence banner. */
  lemma DemoChain(l: string, code: string)
    ensures RunAll([RemoveIndent, AddShebang, AddLicence(l)], code)
      == WithLicence(l, WithShebang(RemoveIndentation(code)))
  {
    assert [RemoveIndent, AddShebang, AddLicence(l)] == [RemoveIndent, AddShebang] + [AddLicence(l)];
    assert [RemoveIndent, AddShebang] == [RemoveIndent] + [AddShebang];
    RunAllSequential([RemoveIndent, AddShebang], AddLicence(l), code);
    RunAllSequential([RemoveIndent], AddShebang, code);
  }

  /** Processing a file with the demo's plugins gives the licence-wrapped,
      shebang-prefixed, de-indented code at the same output path. */
  lemma DemoPipeline(l: string, key: nat, f: LoadedFile)
    ensures Setup(DemoPlugins(l), key).0.Success?
    ensures ProcessFileIn(NewContext(Setup(DemoPlugins(l), key).0.value), f).0
      == Success(f.(code := WithLicence(l, WithShebang(RemoveIndentation(f.code)))))
  {
    DemoTransformers(l, key);
    DemoChain(l, f.code);
  }
}
