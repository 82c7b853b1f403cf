/** The command line client as the source writes it: an object over the service-definition file, the
    router configuration file and the connection directories. */
module VanClient {
  import opened Types
  import opened Json
  import opened ServiceEdits
  import opened UserEdits
  import opened Qdr
  import opened Codec
  import opened Connectors
  import Router

  class VanClient {
    var services: Services
    var host: Host
    /** The UID of the site's own configuration. */
    var siteUID: string
    var routerConfig: Json
    var connections: map<string, map<string, string>>

    ghost function Files(): Store
      reads this
    {
      Store(routerConfig, connections)
    }

    constructor (services: Services, host: Host, siteUID: string, routerConfig: Json)
      ensures this.services == services && this.host == host && this.siteUID == siteUID
      ensures Files() == Store(routerConfig, map[])
    {
      this.services, this.host, this.siteUID, this.routerConfig := services, host, siteUID, routerConfig;
      connections := map[];
    }

    // -------------------------------------------------------------- services

    method UpdateServiceInterface(service: ServiceInterface, overwriteIfExists: bool)
      modifies this`services
      ensures services == Stored(old(services), service, overwriteIfExists)
      ensures services == if overwriteIfExists || service.address !in old(services)
                          then old(services)[service.address := service.(origin := "")] else old(services)
    {
      if overwriteIfExists || service.address !in services {
        var stored := service.(origin := "");
        services := services[service.address := stored];
      }
    }

    method ServiceInterfaceCreate(service: ServiceInterface) returns (r: Result<()>)
      modifies this`services
      ensures r.Ok? <==> RouterUp(host) && Valid(service)
      ensures services == Edited(Create(service), host, old(services))
      ensures services == if r.Ok? && service.address !in old(services)
                          then old(services)[service.address := service.(origin := "")] else old(services)
    {
      if !RouterUp(host) { return Err("Failed to retrieve transport container (need init?)"); }
      r := ValidateServiceInterface(service);
      if r.Err? { return; }
      UpdateServiceInterface(service, false);
    }

    /** A service that is not on file is created: looking it up reports no error for it. */
    method ServiceInterfaceUpdate(service: ServiceInterface) returns (r: Result<()>)
      modifies this`services
      ensures r.Ok? <==> RouterUp(host) && Valid(service)
      ensures services == Edited(Update(service), host, old(services))
      ensures services == if r.Ok? then old(services)[service.address := service.(origin := "")] else old(services)
    {
      if !RouterUp(host) { return Err("Failed to retrieve transport container"); }
      r := ValidateServiceInterface(service);
      if r.Err? { return; }
      UpdateServiceInterface(service, true);
    }

    method ServiceInterfaceBind(si: ServiceInterface, targetType: string, targetName: string, protocol: string,
                                targetPort: int)
      returns (r: Result<()>)
      modifies this`services
      ensures r.Ok? <==> Bound(host, si, targetType, targetName, protocol, targetPort).Ok?
      ensures services == Edited(Bind(si, targetType, targetName, protocol, targetPort), host, old(services))
      ensures r.Ok? <==> CanBind(host, si, targetType, targetName, protocol, targetPort)
      ensures r.Ok? ==>
                && si.address in services && services == old(services)[si.address := services[si.address]]
                && BoundAs(host, si, targetType, targetName, targetPort, services[si.address])
      ensures r.Err? ==> services == old(services)
    {
      BindSays(host, services, si, targetType, targetName, protocol, targetPort);
      var service := si;
      if !RouterUp(host) { return Err("Failed to retrieve transport container (need init?)"); }
      r := ValidateServiceInterface(service);
      if r.Err? { return; }
      if protocol != "" && service.protocol != protocol { return Err("Invalid protocol"); }
      var found := ServiceInterfaceTarget(host, targetType, targetName, service.port == 0 && targetPort == 0);
      if found.Err? { return Err(found.error); }
      var target := found.value;
      if target.targetPort != 0 {
        service := service.(port := target.targetPort);
        target := target.(targetPort := 0);
      } else if targetPort != 0 {
        if service.port == 0 {
          service := service.(port := targetPort);
        } else {
          target := target.(targetPort := targetPort);
        }
      }
      if service.port == 0 {
        if protocol == "http" {
          service := service.(port := 80);
        } else {
          return Err("Service port required and cannot be deduced.");
        }
      }
      var targets := AddTarget(service.targets, target);
      service := service.(targets := targets);
      UpdateServiceInterface(service, true);
    }

    method AnswersTo(t: Target, address: string, targetName: string) returns (answers: bool)
      ensures answers <==> Unbinds(host, address, targetName, t)
    {
      var name := targetName;
      if t.selector == HOST_SELECTOR {
        name := Canonical(host, name);
      }
      answers := t.name == name || (t.name == "" && targetName == address);
    }

    method KeepTargets(address: string, targetName: string, targets: seq<Target>)
      returns (kept: seq<Target>, modified: bool)
      ensures kept == Kept(host, address, targetName, targets)
      ensures modified <==> |kept| != |targets|
    {
      kept, modified := [], false;
      for i := 0 to |targets|
        invariant kept == Kept(host, address, targetName, targets[..i])
        invariant modified <==> |kept| != i
      {
        var t := targets[i];
        KeptOneMore(host, address, targetName, targets, i);
        KeptNoLonger(host, address, targetName, targets[..i]);
        var answers := AnswersTo(t, address, targetName);
        if answers {
          modified := true;
        } else {
          kept := kept + [t];
        }
      }
      assert targets[..|targets|] == targets;
    }

    method ServiceInterfaceUnbind(targetType: string, targetName: string, address: string, deleteIfNoTargets: bool)
      returns (r: Result<()>)
      modifies this`services
      ensures r.Ok? <==> Unbound(host, old(services), targetType, targetName, address, deleteIfNoTargets).Ok?
      ensures services == Edited(Unbind(targetType, targetName, address, deleteIfNoTargets), host, old(services))
      ensures r.Ok? <==> CanUnbind(host, old(services), targetType, targetName, address)
      ensures r.Err? ==> services == old(services)
    {
      UnbindSays(host, services, targetType, targetName, address, deleteIfNoTargets);
      if !RouterUp(host) { return Err("Failed to retrieve transport container (need init?)"); }
      if targetType != "container" && targetType != "host-service" { return Err("Unsupported target type"); }
      if address !in services { return Err("Could not find entry for service interface"); }
      var service := services[address];
      var kept, modified := KeepTargets(address, targetName, service.targets);
      if !modified { return Err("Could not find target for service interface"); }
      if |kept| == 0 && deleteIfNoTargets {
        services := services - {address};
      } else {
        services := services[address := service.(targets := kept)];
      }
      return Ok(());
    }

    method ServiceInterfaceRemove(address: string) returns (r: Result<()>)
      modifies this`services
      ensures r.Ok? <==> RouterUp(host) && address in old(services)
      ensures services == Edited(Remove(address), host, old(services))
      ensures services == if r.Ok? then old(services) - {address} else old(services)
    {
      if !RouterUp(host) { return Err("Failed to retrieve transport container (need init?)"); }
      if address !in services { return Err("Unexpose service interface definition not found"); }
      services := services - {address};
      return Ok(());
    }

    // -------------------------------------------------------------- connectors

    method WriteToken(secret: map<string, string>) returns (files: map<string, string>)
      ensures WritesToken(files, secret)
      ensures "skupper.io/generated-by" in secret ==> "generated-by" in files
      ensures forall k :: k in secret && k != "skupper.io/generated-by" && k != "generated-by" ==>
                k in files && files[k] == secret[k]
    {
      files := map[];
      var todo := secret.Keys;
      while todo != {}
        invariant todo <= secret.Keys
        invariant forall k :: k in secret && k !in todo ==> FileName(k) in files
        invariant forall f :: f in files ==> exists k :: k in secret && FileName(k) == f && secret[k] == files[f]
        decreases todo
      {
        var k :| k in todo;
        files := files[FileName(k) := secret[k]];
        todo := todo - {k};
      }
    }

    method ConfigWithConnector(config: Config, name: string, cost: int32, files: map<string, string>)
      returns (written: Json)
      ensures Marshals(written, Connected(config, name, cost, files))
    {
      var current := new Router.RouterConfig(config);
      var profileName := name + PROFILE_SUFFIX;
      current.AddConnSslProfile(SslProfile.SslProfile(profileName, "", "", ""));
      var role := if current.IsEdge() then ROLE_EDGE else ROLE_INTER_ROUTER;
      var connector := Connector(name, role, FileContent(files, role + "-host"), FileContent(files, role + "-port"),
                                 false, cost, false, profileName, 0);
      current.AddConnector(connector);
      written := Router.MarshalRouterConfig(current);
    }

    method ConnectorCreate(secret: map<string, string>, name: string, cost: int32) returns (r: Result<string>)
      modifies this`connections, this`routerConfig
      ensures r.Ok? ==>
                && r.value == name && Created(old(Files()), name, cost, Files())
                && WritesToken(connections[name], secret)
      ensures r.Err? ==> CreateFailed(old(Files()), name, Files())
      ensures r.Ok? <==>
        && "skupper-router" in host.containers
        && "skupper.io/generated-by" in secret && secret["skupper.io/generated-by"] != siteUID
        && name !in old(connections) && Unmarshalled(old(routerConfig)).Ok?
    {
      if !RouterUp(host) { return Err("Failed to retrieve transport container (need init?)"); }
      if TOKEN_GENERATED_BY !in secret { return Err("Cannot find secret origin for token"); }
      if siteUID == secret[TOKEN_GENERATED_BY] { return Err("Cannot create connection to self with token"); }
      if name in connections { return Err("Failed to create skupper connector directory"); }
      var files := WriteToken(secret);
      connections := connections[name := files];
      var read := UnmarshalRouterConfig(routerConfig);
      if read.Err? { return Err("Failed to retrieve router config"); }
      routerConfig := ConfigWithConnector(read.value, name, cost, files);
      return Ok(name);
    }

    method ConnectorRemove(name: string) returns (r: Result<()>)
      modifies this`connections, this`routerConfig
      ensures r.Ok? <==> "skupper-router" in host.containers && Unmarshalled(old(routerConfig)).Ok?
      ensures r.Ok? ==> Removed(old(Files()), name, Files())
      ensures r.Err? ==> Files() == old(Files())
    {
      if !RouterUp(host) { return Err("Failed to retrieve transport container"); }
      var read := UnmarshalRouterConfig(routerConfig);
      if read.Err? { return Err("Failed to retrieve router config"); }
      var current := new Router.RouterConfig(read.value);
      var found := current.RemoveConnector(name);
      if found {
        var profiled := current.RemoveConnSslProfile(name);
        connections := connections - {name};
        routerConfig := Router.MarshalRouterConfig(current);
      }
      return Ok(());
    }
  }
}
