/** The server's registry field, updated in place, and the methods that read and change it. */
module RegistryObject {
  import opened Bytes
  import opened Registry

  class ExtensionRegistry {
    var entries: Entries

    constructor ()
      ensures entries == After([])
    {
      entries := map[];
    }

    /** `register_plugin` */
    method RegisterPlugin(plugin: Plugin) returns (ok: bool)
      modifies this
      ensures (entries, ok) == Add(old(entries), plugin)
    {
      var plugins := if plugin.registry in entries then entries[plugin.registry] else map[];
      entries := entries[plugin.registry := plugins];
      if plugin.name in plugins {
        return false;
      }
      entries := entries[plugin.registry := plugins[plugin.name := plugin]];
      assert entries == old(entries)[plugin.registry := plugins[plugin.name := plugin]];
      return true;
    }

    /** `register_plugins`: stops at the first plugin that is already there. */
    method RegisterPlugins(plugins: seq<Plugin>) returns (ok: bool)
      modifies this
      ensures (entries, ok) == AddMany(old(entries), plugins)
    {
      var i := 0;
      while i < |plugins|
        invariant 0 <= i <= |plugins|
        invariant AddMany(old(entries), plugins) == AddMany(entries, plugins[i..])
      {
        ok := RegisterPlugin(plugins[i]);
        assert plugins[i..][0] == plugins[i] && plugins[i..][1..] == plugins[i + 1..];
        if !ok {
          return false;
        }
        i := i + 1;
      }
      assert plugins[i..] == [];
      return true;
    }

    /** `gen_registry`: the entries in whatever order the hash maps yield them. */
    method GenRegistry() returns (ads: map<Text, map<Text, Routes>>)
      ensures Describes(entries, ads)
    {
      ads := map[];
      var rest := entries.Keys;
      while rest != {}
        invariant rest <= entries.Keys
        invariant forall n :: n in entries && n !in rest ==> Print(n) in ads && ads[Print(n)] == Described(entries[n])
        invariant forall t :: t in ads ==> exists n :: n in entries && n !in rest && t == Print(n)
        decreases |rest|
      {
        var n: RegistryName :| n in rest;
        rest := rest - {n};
        var routes := DescribePlugins(entries[n]);
        forall m | m in entries && m !in rest && m != n ensures Print(m) != Print(n) {
          PrintParse(m, Print(m));
          PrintParse(n, Print(n));
        }
        hide Print;
        ads := ads[Print(n) := routes];
      }
    }

    method DescribePlugins(plugins: map<Text, Plugin>) returns (routes: map<Text, Routes>)
      ensures routes == Described(plugins)
    {
      routes := map[];
      var rest := plugins.Keys;
      while rest != {}
        invariant rest <= plugins.Keys
        invariant routes.Keys == plugins.Keys - rest
        invariant forall name :: name in routes ==> routes[name] == plugins[name].routes
        decreases |rest|
      {
        var name: Text :| name in rest;
        rest := rest - {name};
        routes := routes[name := plugins[name].routes];
      }
    }

    /** The first phase of `handle_call`. */
    method LookUp(registry: Text, item: Text) returns (found: Found)
      ensures found == Find(entries, registry, item)
    {
      var parsed := Parse(registry);
      if parsed.None? || parsed.value !in entries {
        return UnknownRegistry;
      }
      var plugins := entries[parsed.value];
      if item !in plugins {
        return UnknownItem;
      }
      return Found.Found(plugins[item]);
    }
  }
}
