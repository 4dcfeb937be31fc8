/** `mergeDeep` of the plugin-system example (the same function appears in
    lib/transformer.ts and in lib.ts) on JSON-like values.

    JavaScript's `isObject` test is "not null and `typeof` is 'object'", so
    arrays count as objects. An array seen as an object (by `Object.keys` or by
    `Object.assign({}, arr)`) has the decimal indices as its keys. The merge
    copies before it recurses, so value semantics are faithful here. */
module JsonMerge {
  import opened Wrappers
  import opened Strings

  datatype Json =
    | Null
    | Bool(b: bool)
      /** Numbers are kept as integers: the merge only moves them around. */
    | Num(n: int)
    | Str(s: string)
    | Arr(items: seq<Json>)
    | Obj(fields: map<string, Json>)

  /** `isObject`: not null and `typeof` is 'object'. */
  predicate IsObject(j: Json)
  {
    j.Arr? || j.Obj?
  }

  /** An array as a plain object: one key per index, written in decimal. */
  function IndexFields(items: seq<Json>): (m: map<string, Json>)
    ensures forall i :: 0 <= i < |items| ==> NatToString(i) in m && m[NatToString(i)] == items[i]
    ensures forall k :: k in m ==> exists i :: 0 <= i < |items| && k == NatToString(i)
  {
    NatToStringIsInjective();
    map i | 0 <= i < |items| :: NatToString(i) := items[i]
  }

  /** The own enumerable properties of an object or array. */
  function Fields(j: Json): map<string, Json>
    requires IsObject(j)
  {
    if j.Obj? then j.fields else IndexFields(j.items)
  }

  /** Reading a property: an absent one is `undefined`. */
  function Get(m: map<string, Json>, k: string): Option<Json>
  {
    if k in m then Some(m[k]) else None
  }

  /** The new value of one key, from the target's old value (`None` for
      `undefined`) and the source's value. */
  function MergeValue(tv: Option<Json>, sv: Json): (r: Json)
    decreases sv, 2
  {
    if tv.Some? && tv.value.Arr? && sv.Arr? then Arr(tv.value.items + sv.items)
    else if tv.Some? && IsObject(tv.value) && IsObject(sv) then Obj(MergeInto(Fields(tv.value), sv))
    else sv
  }

  /** The `Object.keys(source).forEach` loop run on a plain-object target with
      fields `tf`. Keys of the source are distinct, so every step reads the
      target's original value of its key. */
  function MergeInto(tf: map<string, Json>, src: Json): (r: map<string, Json>)
    requires IsObject(src)
    ensures r.Keys == tf.Keys + Fields(src).Keys
    ensures forall k :: k in tf && k !in Fields(src) ==> r[k] == tf[k]
    ensures forall k :: k in Fields(src) ==> r[k] == MergeValue(Get(tf, k), Fields(src)[k])
    decreases src, 1
  {
    match src
    case Obj(m) =>
      map k | k in tf.Keys + m.Keys :: if k in m then MergeValue(Get(tf, k), m[k]) else tf[k]
    case Arr(items) =>
      tf + MergedIndices(tf, items)
  }

  /** The merged values of an array source's index keys. */
  function MergedIndices(tf: map<string, Json>, items: seq<Json>): (r: map<string, Json>)
    ensures r.Keys == IndexFields(items).Keys
    ensures forall k :: k in r ==> r[k] == MergeValue(Get(tf, k), IndexFields(items)[k])
    decreases Arr(items), 0
  {
    NatToStringIsInjective();
    var fs := IndexFields(items);
    var merged := map i | 0 <= i < |items| :: NatToString(i) := MergeValue(Get(tf, NatToString(i)), items[i]);
    forall k | k in fs
      ensures k in merged && merged[k] == MergeValue(Get(tf, k), fs[k])
    {
      var i :| 0 <= i < |items| && k == NatToString(i);
      assert fs[k] == items[i];
    }
    merged
  }

  /** `mergeDeep(target, source)` on the top-level values. A top-level array
      target is merged in place, index by index. */
  function MergeDeep(target: Json, source: Json): (r: Json)
    requires !(target.Arr? && source.Obj?)
    ensures !IsObject(target) || !IsObject(source) ==> r == source
    ensures target.Obj? && IsObject(source) ==>
      && r.Obj?
      && r.fields.Keys == target.fields.Keys + Fields(source).Keys
      && (forall k :: k in target.fields && k !in Fields(source) ==> r.fields[k] == target.fields[k])
      && (forall k :: k in Fields(source) ==> r.fields[k] == MergeValue(Get(target.fields, k), Fields(source)[k]))
    ensures target.Arr? && source.Arr? ==>
      && r.Arr?
      && |r.items| == Max(|target.items|, |source.items|)
      && (forall i :: 0 <= i < |source.items| ==>
            r.items[i] == MergeValue(if i < |target.items| then Some(target.items[i]) else None, source.items[i]))
      && (forall i :: |source.items| <= i < |target.items| ==> r.items[i] == target.items[i])
  {
    if !IsObject(target) || !IsObject(source) then source
    else if target.Obj? then Obj(MergeInto(target.fields, source))
    else
      var t, s := target.items, source.items;
      var n := Max(|t|, |s|);
      Arr(seq(n, i requires 0 <= i < n =>
        if i < |s| then MergeValue(if i < |t| then Some(t[i]) else None, s[i]) else t[i]))
  }

  function Max(a: nat, b: nat): nat
  {
    if a < b then b else a
  }

  /** If either argument is not an object the source is returned. */
  lemma NonObjectGivesSource(target: Json, source: Json)
    requires !IsObject(target) || !IsObject(source)
    ensures MergeDeep(target, source) == source
  {
  }

  /** Keys of the target that the source lacks keep their values, and the
      merged object has exactly the keys of both. */
  lemma TargetOnlyKeysKept(target: map<string, Json>, source: map<string, Json>, k: string)
    requires k in target && k !in source
    ensures MergeDeep(Obj(target), Obj(source)).fields.Keys == target.Keys + source.Keys
    ensures MergeDeep(Obj(target), Obj(source)).fields[k] == target[k]
  {
  }

  /** Two array values are concatenated, target first. */
  lemma ArraysConcatenate(target: map<string, Json>, source: map<string, Json>, k: string)
    requires k in target && k in source && target[k].Arr? && source[k].Arr?
    ensures MergeDeep(Obj(target), Obj(source)).fields[k] == Arr(target[k].items + source[k].items)
  {
  }

  /** Two object values that are not both arrays are merged recursively, into
      a plain-object copy of the target's value. */
  lemma ObjectsMergeRecursively(target: map<string, Json>, source: map<string, Json>, k: string)
    requires k in target && k in source && IsObject(target[k]) && IsObject(source[k])
    requires !(target[k].Arr? && source[k].Arr?)
    ensures MergeDeep(Obj(target), Obj(source)).fields[k] == Obj(MergeInto(Fields(target[k]), source[k]))
  {
  }

  /** In every other case the source's value replaces the target's. */
  lemma SourceWinsOtherwise(target: map<string, Json>, source: map<string, Json>, k: string)
    requires k in source
    requires k !in target || !IsObject(target[k]) || !IsObject(source[k])
    ensures MergeDeep(Obj(target), Obj(source)).fields[k] == source[k]
  {
  }

  /** Merging an empty object changes nothing. */
  lemma EmptySourceIsIdentity(target: map<string, Json>)
    ensures MergeDeep(Obj(target), Obj(map[])) == Obj(target)
  {
    var r := MergeDeep(Obj(target), Obj(map[])).fields;
    assert r.Keys == target.Keys;
  }

  /** A value merged into `undefined` comes back unchanged. */
  lemma MergeIntoUndefined(sv: Json)
    ensures MergeValue(None, sv) == sv
  {
  }

  /** Merging into an empty object copies the source's properties: the
      merge adds nothing of its own. */
  lemma MergeIntoEmptyCopies(sv: Json)
    requires IsObject(sv)
    ensures MergeInto(map[], sv) == Fields(sv)
  {
    var r := MergeInto(map[], sv);
    var f := Fields(sv);
    assert r.Keys == f.Keys;
    forall k | k in f
      ensures r[k] == f[k]
    {
      assert Get(map[], k) == None;
      MergeIntoUndefined(f[k]);
    }
  }

  /** A decimal index is a key of an array's object view exactly when it is
      in range. */
  lemma IndexKey(items: seq<Json>, i: nat)
    ensures NatToString(i) in IndexFields(items) <==> i < |items|
  {
    NatToStringIsInjective();
  }

  /** Index `i` of the in-place array merge, read through the object view. */
  lemma ArrayMergeAtIndex(t: seq<Json>, s: seq<Json>, i: nat)
    requires i < Max(|t|, |s|)
    ensures var rhs := MergeInto(IndexFields(t), Arr(s));
      NatToString(i) in rhs && rhs[NatToString(i)] == MergeDeep(Arr(t), Arr(s)).items[i]
  {
    var k := NatToString(i);
    var tf, sf := IndexFields(t), IndexFields(s);
    var r := MergeDeep(Arr(t), Arr(s)).items;
    var rhs := MergeInto(tf, Arr(s));
    assert Fields(Arr(s)) == sf;
    IndexKey(t, i);
    IndexKey(s, i);
    if i < |s| {
      var tv := if i < |t| then Some(t[i]) else None;
      assert Get(tf, k) == tv;
      assert rhs[k] == MergeValue(tv, s[i]);
      assert r[i] == MergeValue(tv, s[i]);
    } else {
      assert rhs[k] == t[i];
      assert r[i] == t[i];
    }
  }

  /** A key of the merged object views is an index of the merged array. */
  lemma MergedKeyIsIndex(t: seq<Json>, s: seq<Json>, k: string)
    requires k in MergeInto(IndexFields(t), Arr(s))
    ensures k in IndexFields(MergeDeep(Arr(t), Arr(s)).items)
  {
    var tf, sf := IndexFields(t), IndexFields(s);
    assert Fields(Arr(s)) == sf;
    assert k in tf || k in sf;
    var i: nat;
    if k in tf {
      i :| 0 <= i < |t| && k == NatToString(i);
    } else {
      i :| 0 <= i < |s| && k == NatToString(i);
    }
    var r := MergeDeep(Arr(t), Arr(s)).items;
    assert |r| == Max(|t|, |s|);
    IndexKey(r, i);
  }

  /** An index of the merged array is a key of the merged object views, with
      the same value. */
  lemma IndexIsMergedKey(t: seq<Json>, s: seq<Json>, k: string)
    requires k in IndexFields(MergeDeep(Arr(t), Arr(s)).items)
    ensures var rhs := MergeInto(IndexFields(t), Arr(s));
      k in rhs && rhs[k] == IndexFields(MergeDeep(Arr(t), Arr(s)).items)[k]
  {
    var r := MergeDeep(Arr(t), Arr(s)).items;
    var i :| 0 <= i < |r| && k == NatToString(i);
    ArrayMergeAtIndex(t, s, i);
  }

  /** The in-place merge of two arrays agrees with the object view of the
      same merge: read by decimal index, the merged array holds exactly what
      merging the source's index keys into the target's index keys gives. */
  lemma {:induction false} ArrayMergeMatchesObjectView(t: seq<Json>, s: seq<Json>)
    ensures IndexFields(MergeDeep(Arr(t), Arr(s)).items) == MergeInto(IndexFields(t), Arr(s))
  {
    var lhs := IndexFields(MergeDeep(Arr(t), Arr(s)).items);
    var rhs := MergeInto(IndexFields(t), Arr(s));
    forall k | k in rhs
      ensures k in lhs
    {
      MergedKeyIsIndex(t, s, k);
    }
    forall k | k in lhs
      ensures k in rhs && lhs[k] == rhs[k]
    {
      IndexIsMergedKey(t, s, k);
    }
    SameMap(lhs, rhs);
  }

  /** Two maps with the same keys and the same value at every key are equal. */
  lemma SameMap<K, V>(a: map<K, V>, b: map<K, V>)
    requires forall k :: k in b ==> k in a
    requires forall k :: k in a ==> k in b && a[k] == b[k]
    ensures a == b
  {
    assert a.Keys == b.Keys;
  }

  /** The value reached by following the keys of `path` down through
      objects; `None` once a key is missing or a non-object is met. */
  function At(j: Json, path: seq<string>): (r: Option<Json>)
    ensures |path| == 0 ==> r == Some(j)
    ensures |path| > 0 && !j.Obj? ==> r == None
    decreases |path|
  {
    if |path| == 0 then Some(j)
    else if j.Obj? && path[0] in j.fields then At(j.fields[path[0]], path[1..])
    else None
  }

  /** The value at `path` when it is not an object: a leaf of the tree. */
  function LeafAt(j: Json, path: seq<string>): Option<Json>
  {
    var v := At(j, path);
    if v.Some? && !v.value.Obj? then v else None
  }

  /** A value with no array anywhere inside it: a tree of objects. */
  predicate NoArrays(j: Json)
    decreases j
  {
    match j
    case Arr(_) => false
    case Obj(m) => forall k :: k in m ==> NoArrays(m[k])
    case _ => true
  }

  /** `path` walks out of `s` through a key that is missing: every value met
      on the way is an object, and one of them lacks the next key. */
  predicate SourceMisses(s: Json, path: seq<string>)
    decreases |path|
  {
    |path| > 0 && s.Obj? && (path[0] !in s.fields || SourceMisses(s.fields[path[0]], path[1..]))
  }

  /** A path that walks out of a value reaches nothing in it. */
  lemma {:induction false} MissedPathIsAbsent(s: Json, path: seq<string>)
    requires SourceMisses(s, path)
    ensures At(s, path) == None
    decreases |path|
  {
    if path[0] in s.fields {
      MissedPathIsAbsent(s.fields[path[0]], path[1..]);
    }
  }

  /** Deep merge of two object trees, seen leaf by leaf: the leaf at any path
      of the result is the source's leaf there, unless the path walks out of
      the source through a missing key, in which case it is the target's. */
  lemma {:induction false} MergeDeepLeaves(target: Json, source: Json, path: seq<string>)
    requires target.Obj? && source.Obj? && NoArrays(target) && NoArrays(source)
    ensures LeafAt(MergeDeep(target, source), path) ==
      if SourceMisses(source, path) then LeafAt(target, path) else LeafAt(source, path)
    decreases |path|
  {
    var r := MergeDeep(target, source);
    if |path| > 0 {
      var k, rest := path[0], path[1..];
      if k in source.fields {
        var sv := source.fields[k];
        assert NoArrays(sv);
        if k in target.fields && target.fields[k].Obj? && sv.Obj? {
          var tk := target.fields[k];
          assert NoArrays(tk);
          assert r.fields[k] == MergeDeep(tk, sv);
          MergeDeepLeaves(tk, sv, rest);
        } else {
          assert k in target.fields ==> !target.fields[k].Arr?;
          assert r.fields[k] == sv;
          if SourceMisses(sv, rest) {
            MissedPathIsAbsent(sv, rest);
          }
        }
      }
    }
  }
}
