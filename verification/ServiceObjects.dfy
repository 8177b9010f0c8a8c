/** The service registry and the container as objects. */
module ServiceObjects {
  import opened Common
  import opened ServiceContainer

  datatype Resolved = Found(service: Service) | Failed(error: Error)

  class RuntimeServiceRegistry {
    var services: map<string, Service>

    constructor ()
      ensures services == map[]
    {
      services := map[];
    }

    ghost function RunningSet(): set<Service>
      reads this, services.Values
    {
      set s | s in services.Values && s.status == Running
    }

    method Register(service: Service)
      modifies this, service
      ensures services == old(services)[Lower(service.name) := service]
      ensures service.status == Registered
    {
      services := services[Lower(service.name) := service];
      service.status := Registered;
    }

    method Lookup(name: string) returns (r: seq<Service>)
      ensures r == if Lower(name) in services then [services[Lower(name)]] else []
    {
      var n := Lower(name);
      r := if n in services then [services[n]] else [];
    }

    method Replace(name: string, newService: Service)
      modifies this, services.Values, newService
      ensures services == old(services)[Lower(name) := newService]
      ensures newService.status == Registered
      ensures forall s :: s in old(services.Values) && s != newService ==>
                s.status == if Lower(name) in old(services) && s == old(services)[Lower(name)]
                            then Stopped else old(s.status)
    {
      var n := Lower(name);
      if n in services {
        services[n].StopService();
      }
      services := services[n := newService];
      newService.status := Registered;
    }

    method Unregister(name: string) returns (found: bool)
      modifies this, services.Values
      ensures found <==> Lower(name) in old(services)
      ensures services == old(services) - {Lower(name)}
      ensures found ==> old(services)[Lower(name)].status == Stopped
      ensures forall s :: s in old(services.Values) && !(found && s == old(services)[Lower(name)]) ==>
                s.status == old(s.status)
    {
      var n := Lower(name);
      found := n in services;
      if found {
        services[n].StopService();
        services := services - {n};
      }
    }
  }

  class Container {
    const registry: RuntimeServiceRegistry
    /** The starts so far. */
    var starts: seq<Service>

    constructor (registry: RuntimeServiceRegistry)
      ensures this.registry == registry && starts == []
    {
      this.registry := registry;
      starts := [];
    }

    /** Resolve a service and everything it depends on; `resolving` are the names under resolution. */
    method ResolveWithDependencies(name: string, resolving: set<string>) returns (r: Resolved)
      modifies this, registry.services.Values
      ensures registry.services == old(registry.services)
      ensures var o := Resolve(registry.services, name, resolving, old(registry.RunningSet()), old(starts));
              && registry.RunningSet() == o.running && starts == o.log
              && (r.Failed? <==> o.errors != [])
              && (r.Failed? ==> o.errors == [r.error])
              && (r.Found? ==> Lower(name) in registry.services && r.service == registry.services[Lower(name)])
      decreases registry.services.Keys - resolving, 0
    {
      var n := Lower(name);
      if n in resolving {
        return Failed(Circular(n));
      }
      LowerTwice(name);
      var found := registry.Lookup(n);
      if found == [] {
        return Failed(Missing(n));
      }
      var svc := found[0];
      assert n in registry.services.Keys - resolving;
      var failed := ResolveDependencies(svc.dependencies, resolving + {n});
      if failed != [] {
        return Failed(failed[0]);
      }
      if svc.status != Running {
        svc.StartService();
        starts := starts + [svc];
      }
      r := Found(svc);
    }

    /** The loop over the declared dependencies; the first failure ends it. */
    method ResolveDependencies(deps: seq<string>, resolving: set<string>) returns (failed: seq<Error>)
      modifies this, registry.services.Values
      ensures registry.services == old(registry.services)
      ensures var o := ResolveAll(registry.services, deps, resolving, old(registry.RunningSet()), old(starts));
              registry.RunningSet() == o.running && starts == o.log && failed == o.errors && |failed| <= 1
      decreases registry.services.Keys - resolving, 1
    {
      ghost var reg := registry.services;
      ghost var whole := ResolveAll(reg, deps, resolving, registry.RunningSet(), starts);
      assert deps[0..] == deps;
      for i := 0 to |deps|
        invariant registry.services == reg
        invariant ResolveAll(reg, deps[i..], resolving, registry.RunningSet(), starts) == whole
      {
        assert deps[i..][0] == deps[i] && deps[i..][1..] == deps[i + 1..];
        var r := ResolveWithDependencies(deps[i], resolving);
        if r.Failed? {
          return [r.error];
        }
      }
      failed := [];
    }
  }
}
