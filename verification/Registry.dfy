/**
 The plugin registry: registering plugins one at a time or in a batch, the description sent to
 osquery, and the lookup that a request makes by the names it carries.
 */
module Registry {
  import opened Bytes

  datatype RegistryName = Table | Logger | Config | Distributed

  const TABLE: Text := [116, 97, 98, 108, 101]
  const LOGGER: Text := [108, 111, 103, 103, 101, 114]
  const CONFIG: Text := [99, 111, 110, 102, 105, 103]
  const DISTRIBUTED: Text := [100, 105, 115, 116, 114, 105, 98, 117, 116, 101, 100]

  function Print(n: RegistryName): Text {
    match n
    case Table => TABLE
    case Logger => LOGGER
    case Config => CONFIG
    case Distributed => DISTRIBUTED
  }

  function Parse(t: Text): Option<RegistryName> {
    if t == TABLE then Some(Table)
    else if t == LOGGER then Some(Logger)
    else if t == CONFIG then Some(Config)
    else if t == DISTRIBUTED then Some(Distributed)
    else None
  }

  function Ascii(s: string): Text
    requires forall i | 0 <= i < |s| :: s[i] as int < 128
  {
    seq(|s|, i requires 0 <= i < |s| => s[i] as byte)
  }

  /** The names as osquery spells them. */
  lemma NamesPrinted()
    ensures Print(Table) == Ascii("table") && Print(Logger) == Ascii("logger")
    ensures Print(Config) == Ascii("config") && Print(Distributed) == Ascii("distributed")
  {
  }

  /** Printing and parsing are inverse, so no two registries print alike. */
  lemma PrintParse(n: RegistryName, t: Text)
    ensures Parse(t) == Some(n) <==> t == Print(n)
  {
    assert |TABLE| == 5 && |LOGGER| == 6 && |CONFIG| == 6 && |DISTRIBUTED| == 11;
    assert LOGGER[0] != CONFIG[0];
  }

  type Routes = seq<map<Text, Text>>

  /** A plugin, as far as registration sees it; `id` tells apart plugins that look alike. */
  datatype Plugin = Plugin(registry: RegistryName, name: Text, routes: Routes, id: nat)

  type Entries = map<RegistryName, map<Text, Plugin>>

  function Holder(e: Entries, n: RegistryName, name: Text): Option<Plugin> {
    if n in e && name in e[n] then Some(e[n][name]) else None
  }

  function SubRegistry(e: Entries, n: RegistryName): map<Text, Plugin> {
    if n in e then e[n] else map[]
  }

  // ----- registering

  function Add(e: Entries, p: Plugin): (Entries, bool) {
    var plugins := SubRegistry(e, p.registry);
    if p.name in plugins then (e[p.registry := plugins], false)
    else (e[p.registry := plugins[p.name := p]], true)
  }

  function AddMany(e: Entries, ps: seq<Plugin>): (Entries, bool)
    decreases |ps|
  {
    if ps == [] then (e, true) else
      var (e', ok) := Add(e, ps[0]);
      if !ok then (e', false) else AddMany(e', ps[1..])
  }

  datatype Call = One(plugin: Plugin) | Many(plugins: seq<Plugin>)

  function After(calls: seq<Call>): Entries
    decreases |calls|
  {
    if calls == [] then map[] else
      var e := After(calls[..|calls| - 1]);
      match calls[|calls| - 1]
      case One(p) => Add(e, p).0
      case Many(ps) => AddMany(e, ps).0
  }

  lemma AddHolder(e: Entries, p: Plugin, n: RegistryName, name: Text)
    ensures Add(e, p).1 <==> Holder(e, p.registry, p.name).None?
    ensures Holder(Add(e, p).0, n, name)
            == if Holder(e, n, name).None? && p.registry == n && p.name == name then Some(p) else Holder(e, n, name)
  {
  }

  predicate Clash(p: Plugin, q: Plugin) {
    p.registry == q.registry && p.name == q.name
  }

  /** Everything in the batch up to here is new, to the registry and to the batch. */
  predicate AllNew(e: Entries, ps: seq<Plugin>) {
    && (forall i :: 0 <= i < |ps| ==> Holder(e, ps[i].registry, ps[i].name).None?)
    && (forall i, j :: 0 <= i < j < |ps| ==> !Clash(ps[i], ps[j]))
  }

  /** The registry after the first `n` of the batch went in: theirs where they are, as before elsewhere. */
  ghost predicate Holds(e: Entries, ps: seq<Plugin>, e': Entries) {
    && (forall i :: 0 <= i < |ps| ==> Holder(e', ps[i].registry, ps[i].name) == Some(ps[i]))
    && (forall r, name ::
          (forall i :: 0 <= i < |ps| ==> !(ps[i].registry == r && ps[i].name == name)) ==>
            Holder(e', r, name) == Holder(e, r, name))
  }

  /** How far a batch gets before the first plugin that is not new. */
  function Fresh(e: Entries, ps: seq<Plugin>): (n: nat)
    ensures n <= |ps|
    decreases |ps|
  {
    if ps == [] || Holder(e, ps[0].registry, ps[0].name).Some? then 0 else 1 + Fresh(Add(e, ps[0]).0, ps[1..])
  }

  lemma {:induction false} FreshIsNew(e: Entries, ps: seq<Plugin>)
    ensures var n := Fresh(e, ps); AllNew(e, ps[..n]) && (n < |ps| ==> !AllNew(e, ps[..n + 1]))
    decreases |ps|
  {
    if ps == [] {
    } else if Holder(e, ps[0].registry, ps[0].name).Some? {
      assert ps[..1][0] == ps[0];
    } else {
      var e1, n := Add(e, ps[0]).0, Fresh(Add(e, ps[0]).0, ps[1..]);
      hide Add, Holder, AllNew;
      FreshIsNew(e1, ps[1..]);
      hide Fresh;
      NewPrefix(e, ps, n);
      if n + 1 < |ps| {
        NewPrefix(e, ps, n + 1);
      }
    }
  }

  lemma NewPrefix(e: Entries, ps: seq<Plugin>, n: nat)
    requires n < |ps| && Holder(e, ps[0].registry, ps[0].name).None?
    ensures AllNew(Add(e, ps[0]).0, ps[1..][..n]) <==> AllNew(e, ps[..n + 1])
  {
    hide Add, Holder, AllNew;
    NewAfter(e, ps[0], ps[1..][..n]);
    assert ps[..n + 1] == [ps[0]] + ps[1..][..n];
  }

  lemma NewAfter(e: Entries, p: Plugin, rest: seq<Plugin>)
    requires Holder(e, p.registry, p.name).None?
    ensures AllNew(Add(e, p).0, rest) <==> AllNew(e, [p] + rest)
  {
    var e1 := Add(e, p).0;
    forall q | q in rest
      ensures Holder(e1, q.registry, q.name).None? <==> Holder(e, q.registry, q.name).None? && !Clash(p, q)
    {
      AddHolder(e, p, q.registry, q.name);
    }
    hide Add, Holder;
    AllNewCons(e, p, rest);
  }

  lemma AllNewCons(e: Entries, p: Plugin, rest: seq<Plugin>)
    ensures AllNew(e, [p] + rest) <==>
              Holder(e, p.registry, p.name).None? && AllNew(e, rest) && forall q | q in rest :: !Clash(p, q)
  {
    hide Holder, Clash, AllNew;
    if AllNew(e, [p] + rest) {
      AllNewTail(e, p, rest);
    }
    if Holder(e, p.registry, p.name).None? && AllNew(e, rest) && forall q | q in rest :: !Clash(p, q) {
      AllNewWith(e, p, rest);
    }
  }

  lemma AllNewTail(e: Entries, p: Plugin, rest: seq<Plugin>)
    requires AllNew(e, [p] + rest)
    ensures Holder(e, p.registry, p.name).None? && AllNew(e, rest) && forall q | q in rest :: !Clash(p, q)
  {
    hide Holder, Clash;
    var all := [p] + rest;
    assert all[0] == p;
    forall i | 0 <= i < |rest| ensures Holder(e, rest[i].registry, rest[i].name).None? && !Clash(p, rest[i]) {
      assert all[i + 1] == rest[i];
      assert !Clash(all[0], all[i + 1]);
    }
    forall i, j | 0 <= i < j < |rest| ensures !Clash(rest[i], rest[j]) {
      assert !Clash(all[i + 1], all[j + 1]);
    }
  }

  lemma AllNewWith(e: Entries, p: Plugin, rest: seq<Plugin>)
    requires Holder(e, p.registry, p.name).None? && AllNew(e, rest) && forall q | q in rest :: !Clash(p, q)
    ensures AllNew(e, [p] + rest)
  {
    hide Holder, Clash;
    var all := [p] + rest;
    forall i | 0 <= i < |all| ensures Holder(e, all[i].registry, all[i].name).None? {
      assert i > 0 ==> all[i] == rest[i - 1];
    }
    forall i, j | 0 <= i < j < |all| ensures !Clash(all[i], all[j]) {
      assert all[j] == rest[j - 1];
      if i == 0 {
        assert all[j] in rest;
      } else {
        assert all[i] == rest[i - 1];
      }
    }
  }

  lemma HoldsAfter(e: Entries, p: Plugin, rest: seq<Plugin>, e': Entries)
    requires Holder(e, p.registry, p.name).None? && Holds(Add(e, p).0, rest, e') && AllNew(Add(e, p).0, rest)
    ensures Holds(e, [p] + rest, e')
  {
    var all := [p] + rest;
    var e1 := Add(e, p).0;
    AddHolder(e, p, p.registry, p.name);
    forall i | 0 <= i < |rest| ensures !Clash(rest[i], p) {
      assert Holder(e1, rest[i].registry, rest[i].name).None?;
    }
    forall r, name | forall i :: 0 <= i < |all| ==> !(all[i].registry == r && all[i].name == name)
      ensures Holder(e', r, name) == Holder(e, r, name)
    {
      AddHolder(e, p, r, name);
      assert all[0] == p;
      forall i | 0 <= i < |rest| ensures !(rest[i].registry == r && rest[i].name == name) {
        assert all[i + 1] == rest[i];
      }
    }
    hide Add, Holder, AllNew;
    forall i | 0 <= i < |all| ensures Holder(e', all[i].registry, all[i].name) == Some(all[i]) {
      if i > 0 {
        assert all[i] == rest[i - 1];
      }
    }
  }

  /**
   A batch succeeds exactly when all its plugins are new; otherwise those before the first that is not
   are registered all the same, and nothing after it is.
   */
  lemma {:induction false} BatchRegisters(e: Entries, ps: seq<Plugin>)
    ensures var n := Fresh(e, ps);
            && (AddMany(e, ps).1 <==> n == |ps|)
            && (AddMany(e, ps).1 <==> AllNew(e, ps))
            && Holds(e, ps[..n], AddMany(e, ps).0)
    decreases |ps|
  {
    FreshIsNew(e, ps);
    var n := Fresh(e, ps);
    assert ps[..|ps|] == ps;
    if n < |ps| && AllNew(e, ps) {
      PrefixNew(e, ps, n + 1);
    }
    if ps != [] {
      AddHolder(e, ps[0], ps[0].registry, ps[0].name);
      if n == 0 {
        FailedAddKeeps(e, ps[0]);
      } else {
        var e1 := Add(e, ps[0]).0;
        BatchRegisters(e1, ps[1..]);
        FreshIsNew(e1, ps[1..]);
        HoldsAfter(e, ps[0], ps[1..][..n - 1], AddMany(e, ps).0);
        assert ps[..n] == [ps[0]] + ps[1..][..n - 1];
      }
    }
  }

  lemma PrefixNew(e: Entries, ps: seq<Plugin>, n: nat)
    requires n <= |ps| && AllNew(e, ps)
    ensures AllNew(e, ps[..n])
  {
  }

  lemma FailedAddKeeps(e: Entries, p: Plugin)
    requires Holder(e, p.registry, p.name).Some?
    ensures Add(e, p) == (e, false)
  {
    assert e[p.registry := e[p.registry]] == e;
  }

  // ----- describing and looking up

  /** Every plugin stands under its own registry and its own name. */
  ghost predicate Keyed(e: Entries) {
    forall r, name :: Holder(e, r, name).Some? ==>
      Holder(e, r, name).value.registry == r && Holder(e, r, name).value.name == name
  }

  function Described(plugins: map<Text, Plugin>): map<Text, Routes> {
    map name | name in plugins :: plugins[name].routes
  }

  datatype Found = UnknownRegistry | UnknownItem | Found(plugin: Plugin)

  /** What a request's registry and item name lead to. */
  function Find(e: Entries, registry: Text, item: Text): Found {
    match Parse(registry)
    case None => UnknownRegistry
    case Some(n) =>
      if n !in e then UnknownRegistry
      else if item !in e[n] then UnknownItem
      else Found(e[n][item])
  }

  /** What registration tells osquery: for each registry that exists, by its printed name, every plugin's routes. */
  ghost predicate Describes(e: Entries, ads: map<Text, map<Text, Routes>>) {
    && (forall n :: n in e ==> Print(n) in ads && ads[Print(n)] == Described(e[n]))
    && (forall t :: t in ads ==> exists n :: n in e && t == Print(n))
  }

  /** The registry osquery is told of names exactly what a request can reach, with that plugin's routes. */
  lemma AdvertisedIsReachable(e: Entries, ads: map<Text, map<Text, Routes>>, registry: Text, item: Text)
    requires Describes(e, ads)
    ensures registry in ads && item in ads[registry] <==> Find(e, registry, item).Found?
    ensures Find(e, registry, item).Found? ==> ads[registry][item] == Find(e, registry, item).plugin.routes
    ensures registry in ads <==> Find(e, registry, item) != UnknownRegistry
  {
    hide Print, Parse;
    if registry in ads {
      var n :| n in e && registry == Print(n);
      PrintParse(n, registry);
    }
    if Parse(registry).Some? {
      PrintParse(Parse(registry).value, registry);
    }
  }

  lemma AddKeepsKeyed(e: Entries, p: Plugin)
    requires Keyed(e)
    ensures Keyed(Add(e, p).0)
  {
    forall r, name | Holder(Add(e, p).0, r, name).Some?
      ensures var q := Holder(Add(e, p).0, r, name).value; q.registry == r && q.name == name
    {
      AddHolder(e, p, r, name);
    }
  }

  lemma {:induction false} AddManyKeepsKeyed(e: Entries, ps: seq<Plugin>)
    requires Keyed(e)
    ensures Keyed(AddMany(e, ps).0)
    decreases |ps|
  {
    hide Keyed, Add;
    if ps != [] {
      AddKeepsKeyed(e, ps[0]);
      if Add(e, ps[0]).1 {
        AddManyKeepsKeyed(Add(e, ps[0]).0, ps[1..]);
      }
    }
  }

  lemma {:induction false} CallsKeepKeyed(calls: seq<Call>)
    ensures Keyed(After(calls))
    decreases |calls|
  {
    if calls != [] {
      var e := After(calls[..|calls| - 1]);
      CallsKeepKeyed(calls[..|calls| - 1]);
      hide Keyed;
      match calls[|calls| - 1] {
        case One(p) => AddKeepsKeyed(e, p);
        case Many(ps) => AddManyKeepsKeyed(e, ps);
      }
    }
  }

  /**
   After any registrations, failed ones included: what osquery is told under a registry and a name is
   what a plugin of that very registry and name declared, and a request by those names reaches it.
   */
  lemma AdvertisedAfterAnyCalls(calls: seq<Call>, ads: map<Text, map<Text, Routes>>, registry: Text, item: Text)
    requires Describes(After(calls), ads)
    ensures registry in ads && item in ads[registry] <==> Find(After(calls), registry, item).Found?
    ensures Find(After(calls), registry, item).Found? ==>
              var p := Find(After(calls), registry, item).plugin;
              ads[registry][item] == p.routes && p.name == item && Print(p.registry) == registry
  {
    var e := After(calls);
    hide After, Print, Parse;
    AdvertisedIsReachable(e, ads, registry, item);
    CallsKeepKeyed(calls);
    if Find(e, registry, item).Found? {
      PrintParse(Parse(registry).value, registry);
      assert Holder(e, Parse(registry).value, item).Some?;
    }
  }
}
