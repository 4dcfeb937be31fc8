/** The plugin-priority example (examples/plugin-priority/index.ts). Each
    database plugin class registers itself with `store.add` and publishes its
    metadata (type, implementation, priority) under kind "DatabasePlugins",
    variant = its type. The database factory sorts the metadata by descending
    priority with a stable sort, takes the first, and resolves that class. */
module Priority {
  import opened Wrappers
  import opened Identifier
  import opened Errors
  import opened Factory
  import opened Registry
  import opened Resolver
  import opened PluginConfig
  import opened ContainerContract

  /** `entity('DatabasePlugins')`. */
  const PluginKind: string := "DatabasePlugins"

  /** `DatabasePluginMetadata`; the implementation is named by its class. */
  datatype Meta = Meta(dbType: string, impl: string, priority: int)

  /** A plugin class: its name, its static `type` (absent on the base class)
      and its static `priority` (absent means the inherited 0). */
  datatype DatabasePlugin = DatabasePlugin(className: string, dbType: Option<string>, priority: Option<int>)

  /** What the example can throw: a container error, "A type is required",
      or "no database implementation found". */
  datatype AppError = ContainerError(error: Error) | TypeRequired | NoDatabaseFound

  /** `!this.type` is false. */
  predicate HasType(p: DatabasePlugin)
  {
    p.dbType.Some? && p.dbType.value != ""
  }

  /** `DatabasePluginEntity(this.type)`. */
  function MetaId(p: DatabasePlugin): (id: Id)
    requires HasType(p)
    ensures id.name == PluginKind && id.variant == p.dbType.value
  {
    Entity(PluginKind, p.dbType.value)
  }

  /** `{ type: this.type, impl: this, priority: this.priority }`. */
  function MetaOf(p: DatabasePlugin): (m: Meta)
    requires HasType(p)
    ensures m.dbType == p.dbType.value && m.impl == p.className
    ensures m.priority == if p.priority.Some? then p.priority.value else 0
  {
    Meta(p.dbType.value, p.className, p.priority.GetOr(0))
  }

  /** `DatabasePlugin.register(store)`: a plugin without a type throws before
      touching the store; otherwise the class is added (no dependencies) and
      its metadata is published under its type. */
  function RegisterPlugin(reg: Registry<Meta>, p: DatabasePlugin): (r: Result<Registry<Meta>, AppError>)
    ensures !HasType(p) ==> r == Failure(TypeRequired)
    ensures HasType(p) && ClassId(p.className) != MetaId(p) ==>
      (r.Success? <==> Lookup(reg, ClassId(p.className)).None? && Lookup(reg, MetaId(p)).None?)
    ensures r.Success? ==>
      && HasType(p)
      && Lookup(r.value, ClassId(p.className)) == Some(Construct(Ctor(p.className), []))
      && Lookup(r.value, MetaId(p)) == Some(Constant(MetaOf(p)))
    ensures r.Success? ==> forall other :: other != ClassId(p.className) && other != MetaId(p) ==>
      Lookup(r.value, other) == Lookup(reg, other)
  {
    if !HasType(p) then Failure(TypeRequired)
    else
      match Add(reg, p.className, [])
      case Failure(e) => Failure(ContainerError(e))
      case Success(reg1) =>
        match Use(reg1, MetaId(p), Constant(MetaOf(p)))
        case Failure(e) => Failure(ContainerError(e))
        case Success(reg2) => Success(reg2)
  }

  /** `for (const plugin of allPlugins) plugin.register(store)`. */
  function RegisterPlugins(reg: Registry<Meta>, ps: seq<DatabasePlugin>): Result<Registry<Meta>, AppError>
    decreases |ps|
  {
    if |ps| == 0 then Success(reg)
    else
      match RegisterPlugin(reg, ps[0])
      case Failure(e) => Failure(e)
      case Success(reg1) => RegisterPlugins(reg1, ps[1..])
  }

  const MockDatabase: DatabasePlugin := DatabasePlugin("MockDatabase", Some("MOCK"), Some(0))
  const SQLDatabase: DatabasePlugin := DatabasePlugin("SQLDatabase", Some("SQL"), Some(1000))
  const NOSQLDatabase: DatabasePlugin := DatabasePlugin("NOSQLDatabase", Some("NOSQL"), Some(100))

  /** `App.defaultPlugins`. */
  const DefaultPlugins: seq<DatabasePlugin> := [MockDatabase]

  /** The store `new App(plugins)` builds: the default plugins first, then
      the given ones. */
  function AppRegistry(plugins: seq<DatabasePlugin>): Result<Registry<Meta>, AppError>
  {
    RegisterPlugins(map[], DefaultPlugins + plugins)
  }

  /** Priorities in non-increasing order. */
  predicate Descending(ms: seq<Meta>)
  {
    forall i, j :: 0 <= i < j < |ms| ==> ms[i].priority >= ms[j].priority
  }

  /** One step of a stable descending sort: `m` goes before the first
      element whose priority is not higher than its own. */
  function InsertByPriority(m: Meta, s: seq<Meta>): (r: seq<Meta>)
    ensures multiset(r) == multiset(s) + multiset{m}
    ensures |r| == |s| + 1
    ensures r[0] == (if |s| == 0 || m.priority >= s[0].priority then m else s[0])
    decreases |s|
  {
    if |s| == 0 || m.priority >= s[0].priority then [m] + s
    else
      assert s == [s[0]] + s[1..];
      [s[0]] + InsertByPriority(m, s[1..])
  }

  /** Every element of the result is `m` or an element of `s`. */
  lemma InsertMembers(m: Meta, s: seq<Meta>)
    ensures forall x :: x in InsertByPriority(m, s) ==> x == m || x in s
  {
    var r := InsertByPriority(m, s);
    forall x | x in r
      ensures x == m || x in s
    {
      assert x in multiset(r);
    }
  }

  /** Putting an element in front of a descending sequence whose elements
      it does not outrank keeps it descending. */
  lemma ConsDescending(m: Meta, s: seq<Meta>)
    requires Descending(s)
    requires forall k :: 0 <= k < |s| ==> m.priority >= s[k].priority
    ensures Descending([m] + s)
  {
    var r := [m] + s;
    forall i, j | 0 <= i < j < |r|
      ensures r[i].priority >= r[j].priority
    {
      assert r[j] == s[j - 1];
      if i > 0 {
        assert r[i] == s[i - 1];
      }
    }
  }

  /** Inserting into a descending sequence keeps it descending. */
  lemma {:induction false} InsertKeepsDescending(m: Meta, s: seq<Meta>)
    requires Descending(s)
    ensures Descending(InsertByPriority(m, s))
    decreases |s|
  {
    if |s| == 0 || m.priority >= s[0].priority {
      ConsDescending(m, s);
    } else {
      var tail := s[1..];
      var rest := InsertByPriority(m, tail);
      assert Descending(tail);
      InsertKeepsDescending(m, tail);
      InsertMembers(m, tail);
      forall k | 0 <= k < |rest|
        ensures s[0].priority >= rest[k].priority
      {
        assert rest[k] in rest;
        if rest[k] != m {
          var n :| 0 <= n < |tail| && tail[n] == rest[k];
          assert tail[n] == s[n + 1];
        }
      }
      ConsDescending(s[0], rest);
    }
  }

  /** `Array.from(...).sort((a, b) => b.priority - a.priority)`: a stable
      sort by descending priority, as section 23.1.3.30 of ECMAScript 2019
      requires. */
  function SortByPriority(ms: seq<Meta>): (r: seq<Meta>)
    ensures multiset(r) == multiset(ms)
    ensures |r| == |ms|
    ensures Descending(r)
    decreases |ms|
  {
    if |ms| == 0 then []
    else
      assert ms == [ms[0]] + ms[1..];
      assert multiset(ms) == multiset(ms[1..]) + multiset{ms[0]};
      InsertKeepsDescending(ms[0], SortByPriority(ms[1..]));
      InsertByPriority(ms[0], SortByPriority(ms[1..]))
  }

  /** The position of the first entry of highest priority. */
  function FirstMax(ms: seq<Meta>): (i: nat)
    requires |ms| > 0
    ensures i < |ms|
    ensures forall j :: 0 <= j < |ms| ==> ms[j].priority <= ms[i].priority
    ensures forall j :: 0 <= j < i ==> ms[j].priority < ms[i].priority
    decreases |ms|
  {
    if |ms| == 1 then 0
    else
      var k := 1 + FirstMax(ms[1..]);
      assert forall j :: 1 <= j < |ms| ==> ms[j] == ms[1..][j - 1];
      if ms[0].priority >= ms[k].priority then 0 else k
  }

  /** Only one position is at least as high as every entry and strictly
      higher than every earlier one. */
  lemma FirstMaxUnique(ms: seq<Meta>, i: nat)
    requires i < |ms|
    requires forall j :: 0 <= j < |ms| ==> ms[j].priority <= ms[i].priority
    requires forall j :: 0 <= j < i ==> ms[j].priority < ms[i].priority
    ensures i == FirstMax(ms)
  {
    var k := FirstMax(ms);
    assert ms[k].priority <= ms[i].priority && ms[i].priority <= ms[k].priority;
  }

  /** `sorted.shift()` after the stable sort is the first entry of highest
      priority: ties go to the one registered first. */
  lemma {:induction false} SortedHeadIsFirstMax(ms: seq<Meta>)
    requires |ms| > 0
    ensures SortByPriority(ms)[0] == ms[FirstMax(ms)]
    decreases |ms|
  {
    if |ms| == 1 {
      assert SortByPriority(ms[1..]) == [];
    } else {
      SortedHeadIsFirstMax(ms[1..]);
      assert ms[1..][FirstMax(ms[1..])] == ms[1 + FirstMax(ms[1..])];
    }
  }

  function AsMeta(m: Meta): Option<Meta>
  {
    Some(m)
  }

  /** `resolvePreferedDatabase(cx)`: no metadata gives "no database
      implementation found"; otherwise the class of the head of the sorted
      metadata is resolved. */
  function ResolvePreferred(cx: Context<Meta>): (r: (Result<Value<Meta>, AppError>, Context<Meta>))
    ensures r.1.registry == cx.registry
    ensures Extends(cx.pool, r.1.pool)
    ensures TableOf(cx.registry, PluginKind) == [] ==> r.0 == Failure(NoDatabaseFound)
  {
    var (res, cx1) := GetAll(cx, Entity(PluginKind), {});
    match res
    case Failure(e) => (Failure(ContainerError(e)), cx1)
    case Success(entries) =>
      var sorted := SortByPriority(Picked(entries, AsMeta));
      if |sorted| == 0 then (Failure(NoDatabaseFound), cx1)
      else
        var (v, cx2) := Get(cx1, ClassId(sorted[0].impl));
        match v
        case Failure(e) => (Failure(ContainerError(e)), cx2)
        case Success(db) => (Success(db), cx2)
  }

  /** Plugins that can all register side by side: each has a type, no class
      is named like the metadata kind, and classes and types are distinct. */
  predicate Compatible(ps: seq<DatabasePlugin>)
  {
    && (forall i :: 0 <= i < |ps| ==> HasType(ps[i]) && ps[i].className != PluginKind)
    && (forall i, j :: 0 <= i < j < |ps| ==> ps[i].className != ps[j].className && ps[i].dbType != ps[j].dbType)
  }

  /** The metadata bindings the plugins publish, in registration order. */
  function MetaBindings(ps: seq<DatabasePlugin>): (bs: Table<Meta>)
    requires forall i :: 0 <= i < |ps| ==> HasType(ps[i])
    ensures |bs| == |ps|
    ensures forall i :: 0 <= i < |ps| ==> bs[i] == Binding(MetaOf(ps[i]).dbType, Constant(MetaOf(ps[i])))
  {
    seq(|ps|, i requires 0 <= i < |ps| => Binding(MetaOf(ps[i]).dbType, Constant(MetaOf(ps[i]))))
  }

  function Metas(ps: seq<DatabasePlugin>): (ms: seq<Meta>)
    requires forall i :: 0 <= i < |ps| ==> HasType(ps[i])
    ensures |ms| == |ps|
    ensures forall i :: 0 <= i < |ps| ==> ms[i] == MetaOf(ps[i])
  {
    seq(|ps|, i requires 0 <= i < |ps| => MetaOf(ps[i]))
  }

  /** Registering one plugin on free slots appends its metadata to the
      metadata table. */
  lemma RegisterPluginAppends(reg: Registry<Meta>, p: DatabasePlugin)
    requires HasType(p) && p.className != PluginKind
    requires Lookup(reg, ClassId(p.className)).None? && Lookup(reg, MetaId(p)).None?
    ensures RegisterPlugin(reg, p).Success?
    ensures TableOf(RegisterPlugin(reg, p).value, PluginKind)
      == TableOf(reg, PluginKind) + [Binding(p.dbType.value, Constant(MetaOf(p)))]
  {
    var reg1 := Add(reg, p.className, []).value;
    assert TableOf(reg1, PluginKind) == TableOf(reg, PluginKind);
    FreshRegistrationAppends(reg1, MetaId(p), Constant(MetaOf(p)), false);
  }

  /** Registration goes on with the store the first plugin left. */
  lemma RegisterPluginsStep(reg: Registry<Meta>, ps: seq<DatabasePlugin>)
    requires |ps| > 0 && RegisterPlugin(reg, ps[0]).Success?
    ensures RegisterPlugins(reg, ps) == RegisterPlugins(RegisterPlugin(reg, ps[0]).value, ps[1..])
  {
  }

  /** When registration succeeds, so did the first plugin's. */
  lemma FirstPluginRegistered(reg: Registry<Meta>, ps: seq<DatabasePlugin>)
    requires |ps| > 0 && RegisterPlugins(reg, ps).Success?
    ensures RegisterPlugin(reg, ps[0]).Success?
    ensures RegisterPlugins(reg, ps) == RegisterPlugins(RegisterPlugin(reg, ps[0]).value, ps[1..])
  {
  }

  /** The slots the plugins need are all free. */
  ghost predicate SlotsFree(reg: Registry<Meta>, ps: seq<DatabasePlugin>)
    requires forall i :: 0 <= i < |ps| ==> HasType(ps[i])
  {
    forall i :: 0 <= i < |ps| ==> Lookup(reg, ClassId(ps[i].className)).None? && Lookup(reg, MetaId(ps[i])).None?
  }

  /** Dropping the first plugin keeps the rest compatible. */
  lemma RestCompatible(ps: seq<DatabasePlugin>)
    requires |ps| > 0 && Compatible(ps)
    ensures Compatible(ps[1..])
  {
    var rest := ps[1..];
    forall i | 0 <= i < |rest|
      ensures HasType(rest[i]) && rest[i].className != PluginKind
    {
      assert rest[i] == ps[i + 1];
    }
    forall i, j | 0 <= i < j < |rest|
      ensures rest[i].className != rest[j].className && rest[i].dbType != rest[j].dbType
    {
      assert rest[i] == ps[i + 1] && rest[j] == ps[j + 1];
    }
  }

  /** After the first plugin registers, the others' slots are still free. */
  lemma RestStaysFree(reg: Registry<Meta>, ps: seq<DatabasePlugin>)
    requires |ps| > 0 && Compatible(ps) && SlotsFree(reg, ps)
    requires RegisterPlugin(reg, ps[0]).Success?
    ensures Compatible(ps[1..])
    ensures SlotsFree(RegisterPlugin(reg, ps[0]).value, ps[1..])
  {
    RestCompatible(ps);
    var reg1 := RegisterPlugin(reg, ps[0]).value;
    var rest := ps[1..];
    forall i | 0 <= i < |rest|
      ensures Lookup(reg1, ClassId(rest[i].className)).None? && Lookup(reg1, MetaId(rest[i])).None?
    {
      var q := ps[i + 1];
      assert rest[i] == q;
      assert Lookup(reg, ClassId(q.className)).None? && Lookup(reg, MetaId(q)).None?;
      assert ClassId(q.className) != ClassId(ps[0].className) && ClassId(q.className) != MetaId(ps[0]);
      assert MetaId(q) != MetaId(ps[0]) && MetaId(q) != ClassId(ps[0].className);
    }
  }

  lemma MetaBindingsCons(ps: seq<DatabasePlugin>)
    requires |ps| > 0 && forall i :: 0 <= i < |ps| ==> HasType(ps[i])
    ensures MetaBindings(ps) == [Binding(MetaOf(ps[0]).dbType, Constant(MetaOf(ps[0])))] + MetaBindings(ps[1..])
  {
    assert forall i :: 1 <= i < |ps| ==> ps[1..][i - 1] == ps[i];
  }

  /** Compatible plugins on a store where none of their slots is taken all
      register, and their metadata lands in the table in plugin order. */
  lemma {:induction false} RegisterPluginsTable(reg: Registry<Meta>, ps: seq<DatabasePlugin>)
    requires Compatible(ps) && SlotsFree(reg, ps)
    ensures RegisterPlugins(reg, ps).Success?
    ensures TableOf(RegisterPlugins(reg, ps).value, PluginKind) == TableOf(reg, PluginKind) + MetaBindings(ps)
    decreases |ps|
  {
    if |ps| == 0 {
      assert MetaBindings(ps) == [];
      assert TableOf(reg, PluginKind) + [] == TableOf(reg, PluginKind);
    } else {
      var reg1 := FirstPluginAppends(reg, ps);
      RegisterPluginsTable(reg1, ps[1..]);
      var t := TableOf(reg, PluginKind);
      var b := Binding(MetaOf(ps[0]).dbType, Constant(MetaOf(ps[0])));
      var mbs := MetaBindings(ps[1..]);
      MetaBindingsCons(ps);
      AppendAssociates(t, [b], mbs);
    }
  }

  /** The first of compatible plugins on free slots registers, appends its
      metadata, and leaves the rest compatible and their slots free. */
  lemma FirstPluginAppends(reg: Registry<Meta>, ps: seq<DatabasePlugin>) returns (reg1: Registry<Meta>)
    requires |ps| > 0 && Compatible(ps) && SlotsFree(reg, ps)
    ensures RegisterPlugin(reg, ps[0]) == Success(reg1)
    ensures RegisterPlugins(reg, ps) == RegisterPlugins(reg1, ps[1..])
    ensures TableOf(reg1, PluginKind) == TableOf(reg, PluginKind) + [Binding(MetaOf(ps[0]).dbType, Constant(MetaOf(ps[0])))]
    ensures Compatible(ps[1..]) && SlotsFree(reg1, ps[1..])
  {
    RegisterPluginAppends(reg, ps[0]);
    reg1 := RegisterPlugin(reg, ps[0]).value;
    RestStaysFree(reg, ps);
    RegisterPluginsStep(reg, ps);
  }

  /** Registering plugins leaves every slot they do not use as it was. */
  lemma {:induction false} RegisterPluginsKeeps(reg: Registry<Meta>, ps: seq<DatabasePlugin>, id: Id)
    requires forall i :: 0 <= i < |ps| ==> HasType(ps[i]) && id != ClassId(ps[i].className) && id != MetaId(ps[i])
    requires RegisterPlugins(reg, ps).Success?
    ensures Lookup(RegisterPlugins(reg, ps).value, id) == Lookup(reg, id)
    decreases |ps|
  {
    if |ps| > 0 {
      FirstPluginRegistered(reg, ps);
      var reg1 := RegisterPlugin(reg, ps[0]).value;
      assert Lookup(reg1, id) == Lookup(reg, id);
      forall i | 0 <= i < |ps| - 1
        ensures HasType(ps[1..][i]) && id != ClassId(ps[1..][i].className) && id != MetaId(ps[1..][i])
      {
        assert ps[1..][i] == ps[i + 1];
      }
      RegisterPluginsKeeps(reg1, ps[1..], id);
    }
  }

  /** The plugins after the first use neither its class nor a metadata
      slot that could clash with it. */
  lemma RestAvoidsFirstClass(ps: seq<DatabasePlugin>)
    requires Compatible(ps) && |ps| > 0
    ensures forall j :: 0 <= j < |ps| - 1 ==>
      && HasType(ps[1..][j])
      && ClassId(ps[0].className) != ClassId(ps[1..][j].className)
      && ClassId(ps[0].className) != MetaId(ps[1..][j])
  {
    forall j | 0 <= j < |ps| - 1
      ensures HasType(ps[1..][j]) && ClassId(ps[0].className) != ClassId(ps[1..][j].className)
        && ClassId(ps[0].className) != MetaId(ps[1..][j])
    {
      assert ps[1..][j] == ps[j + 1];
    }
  }

  /** Once compatible plugins have registered, each plugin's class is bound
      to its constructor without dependencies. */
  lemma {:induction false} RegisterPluginsClass(reg: Registry<Meta>, ps: seq<DatabasePlugin>, i: nat)
    requires Compatible(ps) && i < |ps|
    requires RegisterPlugins(reg, ps).Success?
    ensures Lookup(RegisterPlugins(reg, ps).value, ClassId(ps[i].className))
      == Some(Construct(Ctor(ps[i].className), []))
    decreases |ps|
  {
    FirstPluginRegistered(reg, ps);
    var reg1 := RegisterPlugin(reg, ps[0]).value;
    if i == 0 {
      RestAvoidsFirstClass(ps);
      RegisterPluginsKeeps(reg1, ps[1..], ClassId(ps[0].className));
    } else {
      RestCompatible(ps);
      assert ps[1..][i - 1] == ps[i];
      RegisterPluginsClass(reg1, ps[1..], i - 1);
    }
  }

  /** The metadata of compatible plugins has one binding per type. */
  lemma MetaBindingsUnique(ps: seq<DatabasePlugin>)
    requires Compatible(ps)
    ensures UniqueVariants(MetaBindings(ps))
  {
    var bs := MetaBindings(ps);
    forall i, j | 0 <= i < j < |bs|
      ensures bs[i].variant != bs[j].variant
    {
      assert ps[i].dbType != ps[j].dbType;
    }
  }

  /** An app whose plugins are compatible builds its store, and the
      metadata table lists every plugin's metadata in registration order. */
  lemma AppTable(plugins: seq<DatabasePlugin>)
    requires Compatible(DefaultPlugins + plugins)
    ensures AppRegistry(plugins).Success?
    ensures TableOf(AppRegistry(plugins).value, PluginKind) == MetaBindings(DefaultPlugins + plugins)
  {
    var all := DefaultPlugins + plugins;
    var empty: Registry<Meta> := map[];
    RegisterPluginsTable(empty, all);
    assert TableOf(empty, PluginKind) + MetaBindings(all) == MetaBindings(all);
  }

  /** `getAll(DatabasePluginEntity)` on a store whose metadata table holds
      compatible plugins' metadata gives that metadata in order, and pools
      nothing outside the metadata kind. */
  lemma MetadataOf(reg: Registry<Meta>, ps: seq<DatabasePlugin>)
    requires Compatible(ps)
    requires TableOf(reg, PluginKind) == MetaBindings(ps)
    ensures var r := GetAll(NewContext(reg), Entity(PluginKind), {});
      && r.0.Success?
      && Picked(r.0.value, AsMeta) == Metas(ps)
      && forall k :: k in r.1.pool ==> k.name == PluginKind
  {
    MetaBindingsUnique(ps);
    GetAllOfTable(reg, PluginKind, {});
    PickedMetas(ps);
  }

  /** `getAll(DatabasePluginEntity)` on the app's store gives the plugins'
      metadata in registration order, and pools nothing outside the
      metadata kind. */
  lemma AppMetadata(plugins: seq<DatabasePlugin>)
    requires Compatible(DefaultPlugins + plugins)
    ensures AppRegistry(plugins).Success?
    ensures var r := GetAll(NewContext(AppRegistry(plugins).value), Entity(PluginKind), {});
      && r.0.Success?
      && Picked(r.0.value, AsMeta) == Metas(DefaultPlugins + plugins)
      && forall k :: k in r.1.pool ==> k.name == PluginKind
  {
    AppTable(plugins);
    MetadataOf(AppRegistry(plugins).value, DefaultPlugins + plugins);
  }

  /** The metadata entries, read back as metadata, are the plugins'
      metadata. */
  lemma PickedMetas(ps: seq<DatabasePlugin>)
    requires forall i :: 0 <= i < |ps| ==> HasType(ps[i])
    ensures Picked(TableEntries(MetaBindings(ps)), AsMeta) == Metas(ps)
  {
    var entries := TableEntries(MetaBindings(ps));
    var ms := Metas(ps);
    assert forall i :: 0 <= i < |entries| ==> entries[i].value == Const(ms[i]);
  }

  /** An app whose plugins are compatible builds its store, and its database
      is an instance of the class whose metadata is the first of highest
      priority, in registration order. */
  lemma PreferredIsFirstHighest(plugins: seq<DatabasePlugin>)
    requires Compatible(DefaultPlugins + plugins)
    ensures AppRegistry(plugins).Success?
    ensures var all := DefaultPlugins + plugins;
      var best := all[FirstMax(Metas(all))];
      ResolvePreferred(NewContext(AppRegistry(plugins).value)).0
        == Success(Instance(ClassId(best.className), Call(Ctor(best.className), [ContextArg])))
  {
    var all := DefaultPlugins + plugins;
    AppMetadata(plugins);
    var reg := AppRegistry(plugins).value;
    var ms := Metas(all);
    SortedHeadIsFirstMax(ms);
    var best := all[FirstMax(ms)];
    var cx1 := GetAll(NewContext(reg), Entity(PluginKind), {}).1;
    assert Lookup(reg, ClassId(best.className)) == Some(Construct(Ctor(best.className), [])) by {
      var empty: Registry<Meta> := map[];
      RegisterPluginsClass(empty, all, FirstMax(ms));
    }
    ConstructWithoutDepsResolves(cx1, ClassId(best.className), Ctor(best.className));
  }

  /** `new App().database` is the mock database. */
  lemma DefaultAppUsesMock()
    ensures AppRegistry([]).Success?
    ensures ResolvePreferred(NewContext(AppRegistry([]).value)).0
      == Success(Instance(ClassId("MockDatabase"), Call(Ctor("MockDatabase"), [ContextArg])))
  {
    var none: seq<DatabasePlugin> := [];
    assert DefaultPlugins + none == [MockDatabase];
    PreferredIsFirstHighest(none);
  }

  /** `new App([SQLDatabase, NOSQLDatabase]).database` is the SQL database:
      priority 1000 beats 100 and the mock's 0. */
  lemma SqlOutranksOthers()
    ensures AppRegistry([SQLDatabase, NOSQLDatabase]).Success?
    ensures ResolvePreferred(NewContext(AppRegistry([SQLDatabase, NOSQLDatabase]).value)).0
      == Success(Instance(ClassId("SQLDatabase"), Call(Ctor("SQLDatabase"), [ContextArg])))
  {
    var two := [SQLDatabase, NOSQLDatabase];
    var all := DefaultPlugins + two;
    assert all == [MockDatabase, SQLDatabase, NOSQLDatabase];
    assert Compatible(all) by {
      assert forall i :: 0 <= i < 3 ==> HasType(all[i]) && all[i].className != PluginKind;
    }
    var ms := Metas(all);
    assert ms[0].priority == 0 && ms[1].priority == 1000 && ms[2].priority == 100;
    FirstMaxUnique(ms, 1);
    PreferredIsFirstHighest(two);
  }

  /** A plugin without a type stops the app's registration with "A type is
      required", whatever comes after it. */
  lemma UntypedPluginStopsApp(reg: Registry<Meta>, p: DatabasePlugin, rest: seq<DatabasePlugin>)
    requires !HasType(p)
    ensures RegisterPlugins(reg, [p] + rest) == Failure(TypeRequired)
  {
    assert ([p] + rest)[0] == p;
  }
}
