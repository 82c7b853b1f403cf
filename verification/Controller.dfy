/** The service controller as the source writes it: one object whose maps are updated in place, with
    the loops visiting maps in an arbitrary order. Each method is proved against the site steps of
    ServiceSync and the reconciler of Reconcile. */
module Controller {
  import opened Types
  import opened Json
  import opened Codec
  import opened ProxyConfig
  import opened Bindings
  import opened Reconcile
  import opened ServiceSync
  import Router

  class ServiceBindings {
    const address: string
    var origin: string
    var protocol: string
    var publicPort: int
    var ingressPort: int
    var aggregation: string
    var eventChannel: bool
    var headless: Option<Headless>
    var targets: map<string, EgressBinding>

    ghost function Value(): Binding
      reads this
    {
      Binding(origin, protocol, address, publicPort, ingressPort, aggregation, eventChannel, headless, targets)
    }

    constructor (required: ServiceInterface)
      ensures Value() == Fresh(required)
    {
      origin, protocol, address := required.origin, required.protocol, required.address;
      publicPort, ingressPort := required.port, required.port;
      aggregation, eventChannel, headless := required.aggregate, required.eventChannel, required.headless;
      targets := map[];
      new;
      for i := 0 to |required.targets|
        invariant Value() == Fresh(required).(targets := FreshTargets(address, required.targets[..i]))
      {
        var t := required.targets[i];
        assert required.targets[..i + 1][..i] == required.targets[..i];
        targets := targets[TargetKey(address, t.name) := EgressBinding(t.name, t.selector, t.service, t.targetPort)];
      }
      assert required.targets[..|required.targets|] == required.targets;
    }

    method AddTarget(name: string, selector: string, port: int)
      modifies this`targets
      ensures targets == old(targets)[TargetKey(address, name) := EgressBinding(name, selector, "", port)]
    {
      targets := targets[TargetKey(address, name) := EgressBinding(name, selector, "", port)];
    }

    method PatchTargets(required: ServiceInterface)
      requires required.address == address
      modifies this`targets
      ensures targets == PatchedTargets(old(targets), required, required.targets)
    {
      ghost var before := targets;
      for i := 0 to |required.targets|
        invariant targets == PatchedTargets(before, required, required.targets[..i])
      {
        var t := required.targets[i];
        assert required.targets[..i + 1][..i] == required.targets[..i];
        var k, targetPort := TargetKey(address, t.name), EffectivePort(required.port, t.targetPort);
        if k !in targets {
          AddTarget(t.name, t.selector, targetPort);
        } else if targets[k].egressPort != targetPort {
          targets := targets[k := targets[k].(egressPort := targetPort)];
        }
      }
      assert required.targets[..|required.targets|] == required.targets;
    }

    method DropTargets(required: ServiceInterface)
      modifies this`targets
      ensures targets == map k | k in old(targets) && HasTargetForName(required, k) :: old(targets)[k]
    {
      ghost var before := targets;
      var todo := targets.Keys;
      while todo != {}
        invariant todo <= before.Keys
        invariant targets == map k | k in before && (k in todo || HasTargetForName(required, k)) :: before[k]
        decreases todo
      {
        var k :| k in todo;
        var wanted := HasTarget(required, k);
        if !wanted {
          targets := targets - {k};
        }
        todo := todo - {k};
      }
    }

    /** The else branch of updateServiceBindings. */
    method Patch(required: ServiceInterface)
      requires required.address == address
      modifies this
      ensures Value() == Patched(old(Value()), required)
    {
      if protocol != required.protocol { protocol := required.protocol; }
      if publicPort != required.port { publicPort := required.port; }
      if aggregation != required.aggregate { aggregation := required.aggregate; }
      if eventChannel != required.eventChannel { eventChannel := required.eventChannel; }
      if origin != required.origin { origin := required.origin; }
      PatchTargets(required);
      DropTargets(required);
    }

    method AsServiceInterface() returns (si: ServiceInterface)
      ensures Describes(si, Value())
    {
      var listed: seq<Target> := [];
      var todo := targets.Keys;
      while todo != {}
        invariant todo <= targets.Keys
        invariant |listed| + |todo| == |targets.Keys|
        invariant forall k :: k in targets && k !in todo ==> AsTarget(targets[k]) in listed
        invariant forall t :: t in listed ==> exists k :: k in targets && t == AsTarget(targets[k])
        decreases todo
      {
        var k :| k in todo;
        var e := targets[k];
        assert AsTarget(e) == Target(e.name, e.selector, e.egressPort, e.service);
        listed := listed + [Target(e.name, e.selector, e.egressPort, e.service)];
        todo := todo - {k};
      }
      si := ServiceInterface(address, protocol, publicPort, eventChannel, aggregation, headless, listed, origin, "");
    }
  }

  method HasTarget(si: ServiceInterface, name: string) returns (found: bool)
    ensures found <==> HasTargetForName(si, name)
  {
    for i := 0 to |si.targets|
      invariant forall j :: 0 <= j < i ==> TargetKey(si.address, si.targets[j].name) != name
    {
      if TargetKey(si.address, si.targets[i].name) == name {
        return true;
      }
    }
    return false;
  }

  class Controller {
    const origin: string
    /** The service-definition file; other processes write it too. */
    var services: Services
    var byOrigin: Index
    var localServices: Services
    var byName: Services
    var heardFrom: map<string, Time>
    var bindings: map<string, ServiceBindings>
    /** What the Docker daemon runs. */
    var containers: map<string, Container>
    /** How many containers were created so far. */
    var created: nat

    ghost function Sync(): Site
      reads this`services, this`byOrigin, this`localServices, this`byName, this`heardFrom
    {
      Site(origin, services, byOrigin, localServices, byName, heardFrom)
    }

    ghost predicate Valid()
      reads this`services, this`bindings, bindings.Values
    {
      KeyedByAddress(services) && forall k :: k in bindings ==> bindings[k].address == k
    }

    ghost function View(): (view: map<string, Binding>)
      reads this`bindings, bindings.Values
    {
      map k | k in bindings :: bindings[k].Value()
    }

    ghost function Deployed(): Deployment
      reads this`containers, this`bindings, bindings.Values
    {
      Deployment(View(), containers)
    }

    /** Every container was created by now, so a new one is a different one. */
    ghost predicate Numbered()
      reads this`containers, this`created
    {
      forall k :: k in containers ==> containers[k].serial < created
    }

    constructor (id: string, services: Services, containers: map<string, Container>, created: nat)
      requires KeyedByAddress(services) && forall k :: k in containers ==> containers[k].serial < created
      ensures Valid() && Numbered() && View() == map[] && this.containers == containers
      ensures Sync() == Site(id, services, map[], map[], map[], map[])
    {
      origin := id;
      this.services, this.containers, this.created := services, containers, created;
      byOrigin, localServices, byName, heardFrom, bindings := map[], map[], map[], map[], map[];
    }

    // -------------------------------------------------------------- service_sync.go

    method PareByOrigin(service: string)
      modifies this`byOrigin
      ensures ParedOnce(old(byOrigin), byOrigin, service)
      ensures byOrigin.Keys == old(byOrigin).Keys
      ensures forall o, n :: n != service ==> (Holds(byOrigin, o, n) <==> Holds(old(byOrigin), o, n))
    {
      var todo := byOrigin.Keys;
      while todo != {}
        invariant todo <= byOrigin.Keys && byOrigin == old(byOrigin)
        invariant forall o :: Holds(byOrigin, o, service) ==> o in todo
        decreases todo
      {
        var o :| o in todo;
        if service in byOrigin[o] {
          byOrigin := byOrigin[o := byOrigin[o] - {service}];
          assert Holds(old(byOrigin), o, service) && !Holds(byOrigin, o, service);
          return;
        }
        todo := todo - {o};
      }
    }

    /** The body of the loop over the definitions, as far as byOrigin goes. */
    method IndexEntry(name: string, service: ServiceInterface, ghost seen: Services, ghost before: Index)
      requires service.address == name && name !in seen && Reindexed(seen, before, byOrigin)
      modifies this`byOrigin
      ensures Reindexed(seen[name := service], before, byOrigin)
    {
      ghost var index := byOrigin;
      if service.origin != "" && service.origin != "annotation" {
        if service.origin !in byOrigin {
          byOrigin := byOrigin[service.origin := {}];
        }
        byOrigin := byOrigin[service.origin := byOrigin[service.origin] + {name}];
        RemoteSeen(seen, before, index, byOrigin, name, service);
      } else {
        PareByOrigin(service.address);
        LocalSeen(seen, before, index, byOrigin, name, service);
      }
    }

    method ServiceSyncDefinitionsUpdated(definitions: Services)
      requires KeyedByAddress(definitions)
      modifies this`byOrigin, this`localServices, this`byName
      ensures Reindexed(definitions, old(byOrigin), byOrigin)
      ensures localServices == LocalPart(definitions) && byName == ProjectAll(definitions)
    {
      ghost var before := byOrigin;
      var latest: Services := map[];
      var names: Services := map[];
      var todo := definitions.Keys;
      ghost var seen: Services := map[];
      NothingSeen(before);
      while todo != {}
        invariant todo <= definitions.Keys
        invariant seen == ProjectAll(definitions - todo)
        invariant Reindexed(seen, before, byOrigin)
        invariant latest == LocalPart(definitions - todo) && names == seen
        decreases todo
      {
        var name :| name in todo;
        var original := definitions[name];
        var service := Project(original);
        IndexEntry(name, service, seen, before);
        if service.IsLocal() {
          latest := latest[service.address := service];
        }
        names := names[service.address := service];
        SeenProjects(definitions, todo, name);
        todo := todo - {name};
        seen := seen[name := service];
      }
      assert definitions - {} == definitions;
      ProjectionReindexes(definitions, before, byOrigin);
      localServices := latest;
      byName := names;
    }

    method UpdateSkupperServices(changed: Services, deleted: set<string>)
      requires KeyedByAddress(services) && KeyedByAddress(changed)
      modifies this`services
      ensures services == (old(services) + changed) - deleted
      ensures KeyedByAddress(services)
    {
      var current := services;
      var todo := changed.Keys;
      while todo != {}
        invariant todo <= changed.Keys
        invariant current == services + (changed - todo)
        decreases todo
      {
        var n :| n in todo;
        var def := changed[n];
        current := current[def.address := def];
        todo := todo - {n};
      }
      assert changed - {} == changed;
      todo := deleted;
      while todo != {}
        invariant todo <= deleted
        invariant current == (services + changed) - (deleted - todo)
        decreases todo
      {
        var n :| n in todo;
        current := current - {n};
        todo := todo - {n};
      }
      assert deleted - {} == deleted;
      services := current;
    }

    /** The definitions to write: absent ones, and those of the origin that differ. */
    method ChangedDefinitions(origin: string, defs: Services) returns (changed: Services)
      requires KeyedByAddress(defs)
      ensures changed == Changed(Sync(), origin, defs)
    {
      changed := map[];
      var todo := defs.Keys;
      while todo != {}
        invariant todo <= defs.Keys
        invariant changed == Changed(Sync(), origin, defs - todo)
        decreases todo
      {
        var n :| n in todo;
        var def := defs[n];
        if def.address !in byName || (byName[def.address].origin == origin && !Equivalent(def, byName[def.address])) {
          changed := changed[def.address := def];
        }
        todo := todo - {n};
      }
      assert defs - {} == defs;
    }

    method EnsureServiceInterfaceDefinitions(origin: string, defs: Services, now: Time)
      requires Valid() && KeyedByAddress(defs)
      modifies this`heardFrom, this`byOrigin, this`services
      ensures Valid() && Sync() == Received(old(Sync()), origin, defs, now)
    {
      heardFrom := heardFrom[origin := now];
      var changed := ChangedDefinitions(origin, defs);
      var deleted: set<string> := {};
      if origin !in byOrigin {
        byOrigin := byOrigin[origin := {}];
      } else {
        deleted := byOrigin[origin] - defs.Keys;
      }
      assert changed == Changed(old(Sync()), origin, defs) && deleted == Deleted(old(Sync()), origin, defs);
      ghost var kept := if origin in old(byOrigin) then old(byOrigin)[origin] * defs.Keys else {};
      assert byOrigin[origin] - deleted == kept;
      if changed == map[] && deleted == {} {
        assert byOrigin[origin] == byOrigin[origin] - deleted;
        assert byOrigin == old(byOrigin)[origin := kept];
        assert (services + changed) - deleted == services;
        return;
      }
      UpdateSkupperServices(changed, deleted);
      byOrigin := byOrigin[origin := byOrigin[origin] - deleted];
    }

    /** The send arm: the local services in the map's order. */
    method SendLocal() returns (message: Message)
      requires forall n :: n in localServices ==> localServices[n].address == n
      ensures message.origin == origin && Enumerates(message.defs, localServices)
    {
      var local: seq<ServiceInterface> := [];
      var todo := localServices.Keys;
      while todo != {}
        invariant todo <= localServices.Keys
        invariant |local| + |todo| == |localServices.Keys|
        invariant forall d :: d in local <==>
          d.address in localServices && d.address !in todo && localServices[d.address] == d
        decreases todo
      {
        var n :| n in todo;
        local := local + [localServices[n]];
        todo := todo - {n};
      }
      message := Message(origin, local);
    }

    /** The decode arm: a site ignores its own broadcasts. */
    method OnSyncUpdate(message: Message, now: Time)
      requires Valid()
      modifies this`heardFrom, this`byOrigin, this`services
      ensures Valid()
      ensures Sync() == if message.origin == origin then old(Sync())
                        else Received(old(Sync()), message.origin, Indexed(message.defs, message.origin), now)
    {
      if message.origin != origin {
        var indexed: Services := map[];
        for i := 0 to |message.defs|
          invariant indexed == Indexed(message.defs[..i], message.origin)
        {
          var def := message.defs[i].(origin := message.origin);
          assert message.defs[..i + 1][..i] == message.defs[..i];
          indexed := indexed[def.address := def];
        }
        assert message.defs[..|message.defs|] == message.defs;
        EnsureServiceInterfaceDefinitions(message.origin, indexed, now);
      }
    }

    /** Everything indexed under an aged origin goes. */
    method DropOrigin(o: string)
      requires Valid() && o in byOrigin
      modifies this`services
      ensures Valid() && services == old(services) - byOrigin[o]
    {
      var deleted := byOrigin[o];
      if deleted != {} {
        assert services + map[] == services;
        UpdateSkupperServices(map[], deleted);
      }
    }

    /** The first loop of the age arm: the overdue origins, whose definitions it deletes. */
    method DropAgedOrigins(now: Time) returns (agedOrigins: set<string>)
      requires Valid()
      modifies this`services
      ensures Valid() && agedOrigins == AgedOrigins(old(Sync()), now)
      ensures services == old(services) - NamesOf(byOrigin, agedOrigins)
    {
      ghost var aged := AgedOrigins(Sync(), now);
      agedOrigins := {};
      var todo := byOrigin.Keys;
      while todo != {}
        invariant todo <= byOrigin.Keys && Valid()
        invariant agedOrigins == aged - todo
        invariant services == old(services) - NamesOf(byOrigin, agedOrigins)
        decreases todo
      {
        var o :| o in todo;
        if o in heardFrom && now - heardFrom[o] >= AGE_LIMIT {
          OneMoreAged(services, byOrigin, agedOrigins, o, old(services));
          agedOrigins := agedOrigins + {o};
          DropOrigin(o);
        }
        todo := todo - {o};
      }
    }

    /** The age arm. */
    method AgeOrigins(now: Time)
      requires Valid()
      modifies this`heardFrom, this`byOrigin, this`services
      ensures Valid() && Sync() == Aged(old(Sync()), now)
    {
      var agedOrigins := DropAgedOrigins(now);
      heardFrom := heardFrom - agedOrigins;
      byOrigin := byOrigin - agedOrigins;
    }

    // -------------------------------------------------------------- bridges.go and controller.go

    method UpdateServiceBindings(required: ServiceInterface)
      requires Valid()
      modifies this`bindings, bindings.Values
      ensures Valid() && services == old(services)
      ensures forall k :: k in bindings ==> bindings[k] in old(bindings.Values) || fresh(bindings[k])
      ensures View() == old(View())[required.address :=
        if required.address in old(bindings) then Patched(old(View())[required.address], required) else Fresh(required)]
    {
      if required.address !in bindings {
        var sb := new ServiceBindings(required);
        bindings := bindings[required.address := sb];
      } else {
        var sb := bindings[required.address];
        sb.Patch(required);
      }
    }

    method PatchBindings(svcDefs: Services)
      requires Valid() && svcDefs == services
      modifies this`bindings, bindings.Values
      ensures Valid() && View() == old(View()) + Reconciled(old(View()), svcDefs)
      ensures forall k :: k in bindings ==> bindings[k] in old(bindings.Values) || fresh(bindings[k])
    {
      ghost var before := View();
      var todo := svcDefs.Keys;
      while todo != {}
        invariant todo <= svcDefs.Keys && Valid() && services == old(services)
        invariant forall k :: k in bindings ==> bindings[k] in old(bindings.Values) || fresh(bindings[k])
        invariant View() == before + Reconciled(before, svcDefs - todo)
        decreases todo
      {
        var k :| k in todo;
        OneMoreReconciled(before, svcDefs, todo, k);
        UpdateServiceBindings(svcDefs[k]);
        todo := todo - {k};
      }
      assert svcDefs - {} == svcDefs;
    }

    method DropBindings(wanted: set<string>)
      requires Valid()
      modifies this`bindings
      ensures Valid() && View() == map k | k in old(View()) && k in wanted :: old(View())[k]
      ensures forall k :: k in bindings ==> k in old(bindings) && bindings[k] == old(bindings)[k]
    {
      var todo := bindings.Keys;
      while todo != {}
        invariant todo <= old(bindings).Keys
        invariant bindings == map k | k in old(bindings) && (k in todo || k in wanted) :: old(bindings)[k]
        decreases todo
      {
        var k :| k in todo;
        if k !in wanted {
          bindings := bindings - {k};
        }
        todo := todo - {k};
      }
    }

    method ReconcileBindings(svcDefs: Services)
      requires Valid() && svcDefs == services
      modifies this`bindings, bindings.Values
      ensures Valid() && View() == Reconciled(old(View()), svcDefs)
    {
      PatchBindings(svcDefs);
      DropBindings(svcDefs.Keys);
    }

    /** Creating and starting a container fails when the name is in use. */
    method NewProxyContainer(name: string, conf: Json)
      requires Numbered()
      modifies this`containers, this`created
      ensures Numbered()
      ensures containers == if name in old(containers) then old(containers)
                            else old(containers)[name := Container(true, Some(conf), old(created))]
    {
      if name !in containers {
        containers := containers[name := Container(true, Some(conf), created)];
        created := created + 1;
      }
    }

    method DeleteProxy(name: string)
      requires Numbered()
      modifies this`containers
      ensures Numbered()
      ensures containers == old(containers) - {name}
    {
      containers := containers - {name};
    }

    /** The configuration of a binding's proxy. */
    method ProxyConfigFor(sb: ServiceBindings) returns (config: Json)
      ensures Configures(config, sb.Value(), origin)
    {
      var si := sb.AsServiceInterface();
      config := Router.GetRouterConfigForProxy(si, origin);
    }

    method EnsureProxyFor(sb: ServiceBindings)
      requires Numbered()
      modifies this`containers, this`created
      ensures Numbered()
      ensures OneEnsured(old(containers), containers, sb.address, sb.Value(), origin)
    {
      var config := ProxyConfigFor(sb);
      OneEnsuredBy(containers, sb.address, sb.Value(), config, created, origin);
      var exists' := sb.address in containers && containers[sb.address].proxy;
      if !exists' {
        NewProxyContainer(sb.address, config);
      } else if containers[sb.address].conf != Some(config) {
        DeleteProxy(sb.address);
        NewProxyContainer(sb.address, config);
      }
      assert containers == AfterEnsuring(old(containers), sb.address, config, old(created));
    }

    method EnsureProxies()
      requires Valid() && Numbered()
      modifies this`containers, this`created
      ensures Numbered()
      ensures AllEnsured(old(containers), containers, View(), View().Keys, origin)
    {
      ghost var view := View();
      var todo := bindings.Keys;
      while todo != {}
        invariant todo <= bindings.Keys && View() == view && Numbered()
        invariant AllEnsured(old(containers), containers, view, view.Keys - todo, origin)
        decreases todo
      {
        var k :| k in todo;
        ghost var before := containers;
        EnsureProxyFor(bindings[k]);
        OneMoreEnsured(old(containers), before, containers, view, view.Keys - todo, k, origin);
        assert view.Keys - (todo - {k}) == (view.Keys - todo) + {k};
        todo := todo - {k};
      }
      assert view.Keys - {} == view.Keys;
    }

    method RemoveStaleProxies()
      requires Numbered()
      modifies this`containers
      ensures Numbered()
      ensures containers == WithoutStale(old(containers), bindings.Keys)
    {
      var proxies := set k | k in containers && containers[k].proxy;
      var todo := proxies;
      while todo != {}
        invariant todo <= proxies && Numbered()
        invariant containers ==
          map k | k in old(containers) && (k in todo || k in bindings || k !in proxies) :: old(containers)[k]
        decreases todo
      {
        var k :| k in todo;
        if k !in bindings {
          DeleteProxy(k);
        }
        todo := todo - {k};
      }
    }

    method UpdateProxies()
      requires Valid() && Numbered()
      modifies this`containers, this`created
      ensures Numbered()
      ensures Proxied(old(containers), View(), origin, containers)
    {
      EnsureProxies();
      ghost var ensured := containers;
      RemoveStaleProxies();
      assert View().Keys == bindings.Keys;
      StaleProxiesGone(old(containers), ensured, View(), origin);
    }

    /** The bindings and then the proxies. */
    method Reconcile()
      requires Valid() && Numbered()
      modifies this`bindings, this`containers, this`created, bindings.Values
      ensures Valid() && Numbered() && Processed(old(Deployed()), services, origin, Deployed())
    {
      ReconcileBindings(services);
      UpdateProxies();
    }

    /** A watcher pass: the indexes, then the bindings, then the proxies. */
    method ProcessServiceDefs()
      requires Valid() && Numbered()
      modifies this`byOrigin, this`localServices, this`byName
      modifies this`bindings, this`containers, this`created, bindings.Values
      ensures Valid() && Numbered()
      ensures Watched(old(Sync()), Sync())
      ensures Processed(old(Deployed()), services, origin, Deployed())
    {
      ServiceSyncDefinitionsUpdated(services);
      ghost var synced := Sync();
      assert Watched(old(Sync()), synced) && Deployed() == old(Deployed());
      Reconcile();
      assert Sync() == synced;
    }

    /** Every other origin found at start-up counts as heard now. */
    method SeedHeardFrom(now: Time)
      modifies this`heardFrom
      ensures Sync() == Seeded(old(Sync()), now)
    {
      var todo := byOrigin.Keys;
      while todo != {}
        invariant todo <= byOrigin.Keys
        invariant heardFrom == map o | o in old(heardFrom).Keys + (byOrigin.Keys - todo - {origin}) ::
          if o in byOrigin && o !in todo && o != origin then now else old(heardFrom)[o]
        decreases todo
      {
        var o :| o in todo;
        if o != origin {
          heardFrom := heardFrom[o := now];
        }
        todo := todo - {o};
      }
    }

    /** The start of runServiceDefsWatcher, on a new controller. */
    method StartWatching(now: Time)
      requires Valid() && Numbered() && Sync() == Site(origin, services, map[], map[], map[], map[])
      modifies this`byOrigin, this`localServices, this`byName, this`heardFrom
      modifies this`bindings, this`containers, this`created, bindings.Values
      ensures Valid() && Numbered() && Restarted(old(Sync()), now, Sync())
      ensures Processed(old(Deployed()), services, origin, Deployed())
    {
      ProcessServiceDefs();
      ghost var deployed := Deployed();
      SeedHeardFrom(now);
      assert Deployed() == deployed;
    }
  }

  // ---------------------------------------------------------------- one definition of the pass

  lemma NothingSeen(index: Index)
    ensures Reindexed(map[], index, index)
  {
    assert RemoteOrigins(map[]) == {};
  }

  /** The pass looks at a definition's name and origin only, which the projection keeps. */
  lemma ProjectionReindexes(file: Services, before: Index, after: Index)
    requires Reindexed(ProjectAll(file), before, after)
    ensures Reindexed(file, before, after)
  {
    var projected := ProjectAll(file);
    assert forall o, n :: RemoteEntry(file, n, o) <==> RemoteEntry(projected, n, o);
    assert forall n :: LocalEntry(file, n) <==> LocalEntry(projected, n);
    OriginsOfProjection(file);
  }

  lemma OriginsOfProjection(file: Services)
    ensures RemoteOrigins(ProjectAll(file)) == RemoteOrigins(file)
  {
    forall o ensures o in RemoteOrigins(ProjectAll(file)) <==> o in RemoteOrigins(file) {
      if n :| n in file && !file[n].IsLocal() && file[n].origin == o {
        assert ProjectAll(file)[n].origin == o;
      }
    }
  }

  lemma OneMoreOrigin(seen: Services, name: string, si: ServiceInterface)
    requires name !in seen
    ensures RemoteOrigins(seen[name := si]) == RemoteOrigins(seen) + if si.IsLocal() then {} else {si.origin}
  {
    var more := seen[name := si];
    assert forall n :: n in seen ==> more[n] == seen[n];
    assert !si.IsLocal() ==> more[name].origin in RemoteOrigins(more);
    forall o | o in RemoteOrigins(seen) ensures o in RemoteOrigins(more) {
      var n :| n in seen && !seen[n].IsLocal() && seen[n].origin == o;
      assert more[n].origin in RemoteOrigins(more);
    }
  }

  lemma ParedCarries(before: Index, index: Index, after: Index, n: string)
    requires ParedOnce(before, index, n)
    requires forall o :: Holds(after, o, n) <==> Holds(index, o, n)
    ensures ParedOnce(before, after, n)
  {
  }

  lemma RemoteSeen(seen: Services, before: Index, index: Index, after: Index, name: string, si: ServiceInterface)
    requires Reindexed(seen, before, index) && name !in seen && !si.IsLocal()
    requires after == index[si.origin := (if si.origin in index then index[si.origin] else {}) + {name}]
    ensures Reindexed(seen[name := si], before, after)
  {
    OneMoreOrigin(seen, name, si);
    forall o, n | !LocalEntry(seen[name := si], n)
      ensures Holds(after, o, n) <==> Holds(before, o, n) || RemoteEntry(seen[name := si], n, o)
    {
      HeldWithOneMore(seen, before, index, after, name, si, o, n);
    }
    forall n | LocalEntry(seen[name := si], n) ensures ParedOnce(before, after, n) {
      assert LocalEntry(seen, n);
      ParedCarries(before, index, after, n);
    }
  }

  lemma HeldWithOneMore(seen: Services, before: Index, index: Index, after: Index, name: string,
                        si: ServiceInterface, o: string, n: string)
    requires Reindexed(seen, before, index) && name !in seen && !si.IsLocal()
    requires after == index[si.origin := (if si.origin in index then index[si.origin] else {}) + {name}]
    requires !LocalEntry(seen[name := si], n)
    ensures Holds(after, o, n) <==> Holds(before, o, n) || RemoteEntry(seen[name := si], n, o)
  {
    assert !LocalEntry(seen, n);
    assert RemoteEntry(seen[name := si], n, o) <==> RemoteEntry(seen, n, o) || (n == name && o == si.origin);
  }

  lemma LocalSeen(seen: Services, before: Index, index: Index, after: Index, name: string, si: ServiceInterface)
    requires Reindexed(seen, before, index) && name !in seen && si.IsLocal()
    requires ParedOnce(index, after, name) && after.Keys == index.Keys
    requires forall o, n :: n != name ==> (Holds(after, o, n) <==> Holds(index, o, n))
    ensures Reindexed(seen[name := si], before, after)
  {
    OneMoreOrigin(seen, name, si);
    forall n | LocalEntry(seen[name := si], n) ensures ParedOnce(before, after, n) {
      if n == name {
        assert forall o :: Holds(index, o, n) <==> Holds(before, o, n);
      } else {
        assert LocalEntry(seen, n);
        ParedCarries(before, index, after, n);
      }
    }
  }

  lemma OneMoreAged(services: Services, index: Index, aged: set<string>, o: string, file: Services)
    requires o in index && services == file - NamesOf(index, aged)
    ensures services - index[o] == file - NamesOf(index, aged + {o})
  {
    assert NamesOf(index, aged + {o}) == NamesOf(index, aged) + index[o];
  }

  /** The containers after ensuring one proxy: only one with another configuration is replaced. */
  function AfterEnsuring(before: map<string, Container>, name: string, config: Json,
                         serial: nat): map<string, Container>
  {
    if name in before && (!before[name].proxy || before[name].conf == Some(config)) then before
    else before[name := Container(true, Some(config), serial)]
  }

  lemma OneEnsuredBy(before: map<string, Container>, name: string, b: Binding, config: Json, serial: nat,
                     siteId: string)
    requires Configures(config, b, siteId)
    requires name in before ==> before[name].serial < serial
    ensures OneEnsured(before, AfterEnsuring(before, name, config, serial), name, b, siteId)
  {
  }

  lemma OneMoreEnsured(first: map<string, Container>, before: map<string, Container>, after: map<string, Container>,
                       view: map<string, Binding>, done: set<string>, k: string, siteId: string)
    requires AllEnsured(first, before, view, done, siteId) && k in view && k !in done
    requires OneEnsured(before, after, k, view[k], siteId)
    ensures AllEnsured(first, after, view, done + {k}, siteId)
  {
    forall j ensures EnsuredAt(first, after, view, done + {k}, siteId, j) {
      assert EnsuredAt(first, before, view, done, siteId, j);
      SameThere(first, before, after, j);
    }
  }

  lemma SameThere(first: map<string, Container>, before: map<string, Container>, after: map<string, Container>,
                  k: string)
    ensures At(before, k) == At(first, k) ==> (Taken(before, k) <==> Taken(first, k))
    ensures At(after, k) == At(before, k) ==> (k in after <==> k in before) && (k in before ==> after[k] == before[k])
  {
  }

  function WithoutStale(containers: map<string, Container>, names: set<string>): map<string, Container> {
    map k | k in containers && (k in names || !containers[k].proxy) :: containers[k]
  }

  lemma StaleProxiesGone(before: map<string, Container>, ensured: map<string, Container>,
                         view: map<string, Binding>, siteId: string)
    requires AllEnsured(before, ensured, view, view.Keys, siteId)
    ensures Proxied(before, view, siteId, WithoutStale(ensured, view.Keys))
  {
    var after := WithoutStale(ensured, view.Keys);
    forall k ensures ProxiedAt(before, view, siteId, after, k) {
      assert EnsuredAt(before, ensured, view, view.Keys, siteId, k);
    }
  }

  lemma SeenProjects(definitions: Services, todo: set<string>, name: string)
    requires name in todo && todo <= definitions.Keys
    ensures var seen, more, si := definitions - todo, definitions - (todo - {name}), Project(definitions[name]);
      && ProjectAll(more) == ProjectAll(seen)[name := si]
      && LocalPart(more) == if si.IsLocal() then LocalPart(seen)[name := si] else LocalPart(seen)
  {
  }

  lemma OneMoreReconciled(before: map<string, Binding>, svcDefs: Services, todo: set<string>, k: string)
    requires k in todo && todo <= svcDefs.Keys
    ensures var view := before + Reconciled(before, svcDefs - todo);
      before + Reconciled(before, svcDefs - (todo - {k})) ==
      view[k := if k in view then Patched(view[k], svcDefs[k]) else Fresh(svcDefs[k])]
  {
  }
}
