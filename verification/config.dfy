/** `buildConfigFromPlugins`, shared by the two plugin-system variants
    (lib/transformer.ts and lib.ts differ only in the default name). The
    default configuration is merged with every config variant except
    "default", in `getAll` order; each merge is `mergeDeep` of the object
    built so far with the variant's object. */
module PluginConfig {
  import opened Wrappers
  import opened Identifier
  import opened Errors
  import opened Registry
  import opened Resolver
  import opened JsonMerge

  type Fields = map<string, Json>

  /** `{ name, outDir: 'dist', inputs: Object.create(null) }`. */
  function DefaultConfig(name: string): (c: Fields)
    ensures c.Keys == {"name", "outDir", "inputs"}
    ensures c["name"] == Str(name) && c["outDir"] == Str("dist") && c["inputs"] == Obj(map[])
  {
    map["name" := Str(name), "outDir" := Str("dist"), "inputs" := Obj(map[])]
  }

  /** The loop `mergedConfig = mergeDeep(mergedConfig, c)`. */
  function MergeAll(acc: Fields, configs: seq<Fields>): Fields
    decreases |configs|
  {
    if |configs| == 0 then acc else MergeAll(MergeDeep(Obj(acc), Obj(configs[0])).fields, configs[1..])
  }

  function BuildConfig(name: string, configs: seq<Fields>): Fields
  {
    MergeAll(DefaultConfig(name), configs)
  }

  /** Every key mentioned by some config. */
  ghost function KeysOf(configs: seq<Fields>): set<string>
    decreases |configs|
  {
    if |configs| == 0 then {} else configs[0].Keys + KeysOf(configs[1..])
  }

  /** The configs are folded in order: the last one is merged last. */
  lemma {:induction false} MergeAllAppend(acc: Fields, configs: seq<Fields>, c: Fields)
    ensures MergeAll(acc, configs + [c]) == MergeDeep(Obj(MergeAll(acc, configs)), Obj(c)).fields
    decreases |configs|
  {
    if |configs| > 0 {
      assert (configs + [c])[1..] == configs[1..] + [c];
      MergeAllAppend(MergeDeep(Obj(acc), Obj(configs[0])).fields, configs[1..], c);
    }
  }

  /** The merged configuration has the keys of the start and of every config. */
  lemma {:induction false} MergeAllKeys(acc: Fields, configs: seq<Fields>)
    ensures MergeAll(acc, configs).Keys == acc.Keys + KeysOf(configs)
    decreases |configs|
  {
    if |configs| > 0 {
      MergeAllKeys(MergeDeep(Obj(acc), Obj(configs[0])).fields, configs[1..]);
    }
  }

  /** A key no config mentions keeps its starting value: `outDir` stays
      "dist" unless some plugin sets it. */
  lemma {:induction false} UnmentionedKeyKept(acc: Fields, configs: seq<Fields>, k: string)
    requires k in acc
    requires forall j :: 0 <= j < |configs| ==> k !in configs[j]
    ensures k in MergeAll(acc, configs) && MergeAll(acc, configs)[k] == acc[k]
    decreases |configs|
  {
    if |configs| > 0 {
      var acc' := MergeDeep(Obj(acc), Obj(configs[0])).fields;
      assert acc'[k] == acc[k];
      forall j | 0 <= j < |configs| - 1
        ensures k !in configs[1..][j]
      {
        assert configs[1..][j] == configs[j + 1];
      }
      UnmentionedKeyKept(acc', configs[1..], k);
    }
  }

  /** Later scalar fields override earlier ones: the value of a key is the
      non-object value given by the last config that mentions it. */
  lemma {:induction false} LastScalarWins(acc: Fields, configs: seq<Fields>, j: nat, k: string)
    requires j < |configs| && k in configs[j] && !IsObject(configs[j][k])
    requires forall i :: j < i < |configs| ==> k !in configs[i]
    ensures k in MergeAll(acc, configs) && MergeAll(acc, configs)[k] == configs[j][k]
    decreases |configs|
  {
    var acc' := MergeDeep(Obj(acc), Obj(configs[0])).fields;
    if j == 0 {
      assert acc'[k] == configs[0][k];
      UnmentionedKeyKept(acc', configs[1..], k);
    } else {
      forall i | j - 1 < i < |configs| - 1
        ensures k !in configs[1..][i]
      {
        assert configs[1..][i] == configs[i + 1];
      }
      LastScalarWins(acc', configs[1..], j - 1, k);
    }
  }

  /** The payloads of a given sort among the values `getAll` returned, in
      order; `pick` recognises the sort (config objects, transformers). */
  function Picked<P, T>(entries: seq<Entry<P>>, pick: P -> Option<T>): (xs: seq<T>)
    ensures |xs| <= |entries|
    ensures (forall i :: 0 <= i < |entries| ==> entries[i].value.Const? && pick(entries[i].value.payload).Some?)
      ==> |xs| == |entries| && forall i :: 0 <= i < |entries| ==> xs[i] == pick(entries[i].value.payload).value
    decreases |entries|
  {
    if |entries| == 0 then []
    else
      var v := entries[0].value;
      var rest := Picked(entries[1..], pick);
      assert forall i :: 1 <= i < |entries| ==> entries[i] == entries[1..][i - 1];
      if v.Const? && pick(v.payload).Some? then [pick(v.payload).value] + rest else rest
  }

  /** `buildConfigFromPlugins(cx)` for the config kind `kind`: the variant
      "default" (the one this factory is registered under) is excluded. */
  function ConfigFrom<P>(cx: Context<P>, kind: string, name: string, asConfig: P -> Option<Fields>)
    : (r: (Result<Fields, Error>, Context<P>))
    ensures r.1.registry == cx.registry
    ensures Extends(cx.pool, r.1.pool)
    ensures r.0.Success? ==> DefaultConfig(name).Keys <= r.0.value.Keys
  {
    var (res, cx') := GetAll(cx, Entity(kind), {DefaultVariant});
    match res
    case Failure(e) => (Failure(e), cx')
    case Success(entries) =>
      var configs := Picked(entries, asConfig);
      MergeAllKeys(DefaultConfig(name), configs);
      (Success(BuildConfig(name, configs)), cx')
  }
}
