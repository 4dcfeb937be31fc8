/** `buildFactoryFunction` (src/utils.ts): turns a target and a list of
    declared dependencies into a factory. When the factory runs it walks the
    dependencies in order: a plain identifier is resolved with `get`, a
    one-element array `[id]` with `getAll` (passing the list of values), and an
    array of any other length throws. The resolved arguments are followed by the
    context itself, and the target is called as a constructor or as a plain
    function accordingly.

    The factory here receives the context as two lookup functions; the
    resolver (resolver.dfy) threads its memo pool through the same walk. */
module Factory {
  import opened Wrappers
  import opened Identifier
  import opened Errors

  /** The registered target. The source probes with `Reflect.construct` to
      tell the two apart; here the registration says which it is. */
  datatype Target = Ctor(name: string) | Fn(name: string)

  /** One element of the dependency list: an identifier, or a JavaScript array
      of identifiers (only the one-element form is valid). */
  datatype Dep = Single(id: Id) | Pattern(ids: seq<Id>)

  /** What a dependency asks of the context. */
  datatype Request = GetOne(id: Id) | GetEvery(id: Id)

  /** One argument passed to the target: a `get` value, the list of `getAll`
      values, or the context, which always comes last. */
  datatype Arg<V> = One(value: V) | Many(values: seq<V>) | ContextArg

  /** `new cstr(...args)` when the target is a constructor, `cstr(...args)`
      otherwise. */
  datatype Call<V> = Call(target: Target, args: seq<Arg<V>>)

  /** Lines 29-40 of the loop body: decide between the array pattern and a
      plain identifier, rejecting arrays whose length is not 1. */
  function Interpret(dep: Dep): Result<Request, Error>
  {
    match dep
    case Single(id) => Success(GetOne(id))
    case Pattern(ids) =>
      if |ids| != 1 then Failure(BadDependencyPattern(|ids|)) else Success(GetEvery(ids[0]))
  }

  /** Per-dependency description used to state what `BuildArgs` computes. */
  predicate Resolves<V>(d: Dep, get: Id -> Result<V, Error>, getAll: Id -> Result<seq<V>, Error>)
  {
    match d
    case Single(id) => get(id).Success?
    case Pattern(ids) => |ids| == 1 && getAll(ids[0]).Success?
  }

  function ArgOf<V>(d: Dep, get: Id -> Result<V, Error>, getAll: Id -> Result<seq<V>, Error>): Arg<V>
    requires Resolves(d, get, getAll)
  {
    match d
    case Single(id) => One(get(id).value)
    case Pattern(ids) => Many(getAll(ids[0]).value)
  }

  function ErrorOf<V>(d: Dep, get: Id -> Result<V, Error>, getAll: Id -> Result<seq<V>, Error>): Error
    requires !Resolves(d, get, getAll)
  {
    match d
    case Single(id) => get(id).error
    case Pattern(ids) => if |ids| != 1 then BadDependencyPattern(|ids|) else getAll(ids[0]).error
  }

  /** The argument-assembly loop. It succeeds exactly when every dependency is
      well-formed and resolves; then there is one argument per dependency, in
      order. Otherwise the error is the one raised by the first dependency
      that does not resolve. */
  function BuildArgs<V>(deps: seq<Dep>, get: Id -> Result<V, Error>, getAll: Id -> Result<seq<V>, Error>)
    : (r: Result<seq<Arg<V>>, Error>)
    ensures r.Success? <==> forall i :: 0 <= i < |deps| ==> Resolves(deps[i], get, getAll)
    ensures r.Success? ==> |r.value| == |deps|
    ensures r.Success? ==> forall i :: 0 <= i < |deps| ==> r.value[i] == ArgOf(deps[i], get, getAll)
    ensures r.Failure? ==>
      exists i :: 0 <= i < |deps| && !Resolves(deps[i], get, getAll)
        && (forall j :: 0 <= j < i ==> Resolves(deps[j], get, getAll))
        && r.error == ErrorOf(deps[i], get, getAll)
    decreases |deps|
  {
    if |deps| == 0 then Success([])
    else
      var arg :=
        match Interpret(deps[0])
        case Failure(e) => Failure(e)
        case Success(GetOne(id)) =>
          (match get(id)
           case Failure(e) => Failure(e)
           case Success(v) => Success(One(v)))
        case Success(GetEvery(id)) =>
          (match getAll(id)
           case Failure(e) => Failure(e)
           case Success(vs) => Success(Many(vs)));
      match arg
      case Failure(e) => Failure(e)
      case Success(a) =>
        match BuildArgs(deps[1..], get, getAll)
        case Failure(e) =>
          assert forall j :: 1 <= j < |deps| ==> deps[j] == deps[1..][j - 1];
          Failure(e)
        case Success(rest) =>
          assert forall j :: 1 <= j < |deps| ==> deps[j] == deps[1..][j - 1];
          Success([a] + rest)
  }

  /** The factory built by `buildFactoryFunction(target, deps)`, run against a
      context. The target is called only when every dependency resolved, with
      one argument per dependency in order and the context last, on both the
      constructor and the plain-function path. */
  function Build<V>(target: Target, deps: seq<Dep>, get: Id -> Result<V, Error>, getAll: Id -> Result<seq<V>, Error>)
    : (r: Result<Call<V>, Error>)
    ensures r.Success? <==> forall i :: 0 <= i < |deps| ==> Resolves(deps[i], get, getAll)
    ensures r.Success? ==>
      && r.value.target == target
      && |r.value.args| == |deps| + 1
      && r.value.args[|deps|] == ContextArg
      && forall i :: 0 <= i < |deps| ==> r.value.args[i] == ArgOf(deps[i], get, getAll)
    ensures r.Failure? ==> r.error == BuildArgs(deps, get, getAll).error
  {
    match BuildArgs(deps, get, getAll)
    case Failure(e) => Failure(e)
    case Success(args) => Success(Call(target, args + [ContextArg]))
  }

  /** With the default empty dependency list the target receives only the
      context. */
  lemma NoDependenciesOnlyContext<V>(target: Target, get: Id -> Result<V, Error>, getAll: Id -> Result<seq<V>, Error>)
    ensures Build(target, [], get, getAll) == Success(Call(target, [ContextArg]))
  {
    var none: seq<Arg<V>> := [];
    assert none + [ContextArg] == [ContextArg];
  }

  /** An array dependency of any length but 1 makes the factory throw that
      error when every dependency before it resolved, and the target is not
      called. */
  lemma BadPatternThrows<V>(target: Target, deps: seq<Dep>, k: nat,
                            get: Id -> Result<V, Error>, getAll: Id -> Result<seq<V>, Error>)
    requires k < |deps| && deps[k].Pattern? && |deps[k].ids| != 1
    requires forall j :: 0 <= j < k ==> Resolves(deps[j], get, getAll)
    ensures Build(target, deps, get, getAll) == Failure(BadDependencyPattern(|deps[k].ids|))
  {
    var r := BuildArgs(deps, get, getAll);
    assert !Resolves(deps[k], get, getAll);
    var i :| 0 <= i < |deps| && !Resolves(deps[i], get, getAll)
        && (forall j :: 0 <= j < i ==> Resolves(deps[j], get, getAll))
        && r.error == ErrorOf(deps[i], get, getAll);
    assert i == k;
  }
}
