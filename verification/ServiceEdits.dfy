/** The user's edits of the service-definition file (client/serviceinterface_*.go), as functions on
    the file: what a create, update, bind, unbind or remove stores, and what edits keep. */
module ServiceEdits {
  import opened Types

  /** The part of the Docker host the edits look at: the number of exposed ports of each container
      and the address of the docker0 bridge ("" when it has none). */
  datatype Host = Host(containers: map<string, nat>, bridgeIP: string)

  predicate RouterUp(host: Host) { "skupper-router" in host.containers }

  // ---------------------------------------------------------------- validation

  predicate InPortRange(port: int) { 0 <= port <= 65535 }

  /** What the validator promises about a definition it accepts. */
  ghost predicate Valid(si: ServiceInterface) {
    && (forall t :: t in si.targets ==> InPortRange(t.targetPort))
    && InPortRange(si.port)
    && si.protocol in {"", "tcp", "http", "http2"}
    && (si.aggregate == "" || (si.aggregate in {"json", "multipart"} && si.protocol == "http" && !si.eventChannel))
    && (si.eventChannel ==> si.protocol == "http")
  }

  ghost predicate AllValid(file: Services) {
    forall n :: n in file ==> Valid(file[n])
  }

  method ValidateServiceInterface(si: ServiceInterface) returns (r: Result<()>)
    ensures r.Ok? <==> Valid(si)
  {
    for i := 0 to |si.targets|
      invariant forall j :: 0 <= j < i ==> InPortRange(si.targets[j].targetPort)
    {
      var target := si.targets[i];
      if target.targetPort < 0 || 65535 < target.targetPort {
        return Err("Bad target port number");
      }
    }
    if si.port < 0 || 65535 < si.port {
      return Err("Port is outside valid range.");
    } else if si.aggregate != "" && si.eventChannel {
      return Err("Only one of aggregate and event-channel can be specified for a given service.");
    } else if si.aggregate != "" && si.aggregate != "json" && si.aggregate != "multipart" {
      return Err("not a valid aggregation strategy");
    } else if si.protocol != "" && si.protocol != "tcp" && si.protocol != "http" && si.protocol != "http2" {
      return Err("not a valid mapping");
    } else if si.aggregate != "" && si.protocol != "http" {
      return Err("The aggregate option is currently only valid for http");
    } else if si.eventChannel && si.protocol != "http" {
      return Err("The event-channel option is currently only valid for http");
    }
    return Ok(());
  }

  // ---------------------------------------------------------------- targets

  /** A host service is named host:ip; without an ip the bridge's is used. */
  function Canonical(host: Host, name: string): string {
    if ':' in name then name
    else name + ":" + if host.bridgeIP == "" then "172.17.0.1" else host.bridgeIP
  }

  function ServiceInterfaceTarget(host: Host, targetType: string, targetName: string,
                                  deducePort: bool): Result<Target>
  {
    if targetType == "container" then
      if targetName !in host.containers then Err("Could not read container")
      else
        var port := if deducePort && host.containers[targetName] > 0 then 9090 else 0;
        Ok(Target(targetName, CONTAINER_SELECTOR, port, ""))
    else if targetType == "host-service" then
      Ok(Target(Canonical(host, targetName), HOST_SELECTOR, 0, ""))
    else Err("VAN service interface unsupported target type")
  }

  ghost predicate Names(targets: seq<Target>, name: string) {
    exists i :: 0 <= i < |targets| && targets[i].name == name
  }

  /** The list with the target in place of every one of the same name, or at the end. */
  ghost function WithTarget(targets: seq<Target>, target: Target): seq<Target> {
    if Names(targets, target.name)
    then seq(|targets|, i requires 0 <= i < |targets| => if targets[i].name == target.name then target else targets[i])
    else targets + [target]
  }

  method AddTarget(targets: seq<Target>, target: Target) returns (added: seq<Target>)
    ensures added == WithTarget(targets, target)
  {
    var modified := false;
    added := [];
    for i := 0 to |targets|
      invariant |added| == i
      invariant modified <==> Names(targets[..i], target.name)
      invariant forall j :: 0 <= j < i ==>
        added[j] == if targets[j].name == target.name then target else targets[j]
    {
      var t := targets[i];
      assert forall j :: 0 <= j <= i ==> targets[..i + 1][j] == targets[j];
      if t.name == target.name {
        assert targets[..i + 1][i].name == target.name;
        modified := true;
        added := added + [target];
      } else {
        if Names(targets[..i], target.name) {
          var j :| 0 <= j < i && targets[..i][j].name == target.name;
          assert targets[..i + 1][j].name == target.name;
        }
        added := added + [t];
      }
    }
    assert targets[..|targets|] == targets;
    if !modified {
      added := added + [target];
    }
  }

  /** The targets of a service that an unbind of the given argument takes away. */
  predicate Unbinds(host: Host, address: string, targetName: string, t: Target) {
    || t.name == (if t.selector == HOST_SELECTOR then Canonical(host, targetName) else targetName)
    || (t.name == "" && targetName == address)
  }

  function Kept(host: Host, address: string, targetName: string, targets: seq<Target>): seq<Target> {
    if targets == [] then []
    else
      var rest, t := targets[..|targets| - 1], targets[|targets| - 1];
      Kept(host, address, targetName, rest) + if Unbinds(host, address, targetName, t) then [] else [t]
  }

  /** Exactly the targets that do not answer to the argument are kept; an unbind that takes nothing
      away is recognised by the length alone. */
  lemma {:induction false} KeptMembers(host: Host, address: string, targetName: string, targets: seq<Target>)
    ensures var kept := Kept(host, address, targetName, targets);
      && |kept| <= |targets|
      && (forall t :: t in kept <==> t in targets && !Unbinds(host, address, targetName, t))
      && (|kept| == |targets| <==> forall t :: t in targets ==> !Unbinds(host, address, targetName, t))
  {
    if targets != [] {
      var rest, t := targets[..|targets| - 1], targets[|targets| - 1];
      KeptMembers(host, address, targetName, rest);
      assert forall u :: u in targets <==> u in rest || u == t;
    }
  }

  // ---------------------------------------------------------------- the edits

  datatype Edit =
    | Create(service: ServiceInterface)
    | Update(service: ServiceInterface)
    | Bind(service: ServiceInterface, targetType: string, targetName: string, protocol: string, targetPort: int)
    | Unbind(targetType: string, targetName: string, address: string, deleteIfNoTargets: bool)
    | Remove(address: string)
  {
    /** The only address an edit can change. */
    function Where(): string {
      match this
      case Create(service) => service.address
      case Update(service) => service.address
      case Bind(service, _, _, _, _) => service.address
      case Unbind(_, _, address, _) => address
      case Remove(address) => address
    }

    /** The ports the command line passes on. */
    ghost predicate PortInRange() { Bind? ==> InPortRange(targetPort) }
  }

  /** updateServiceInterface: what is stored always becomes the user's own. */
  function Stored(file: Services, service: ServiceInterface, overwrite: bool): Services {
    if overwrite || service.address !in file then file[service.address := service.(origin := "")] else file
  }

  /** The port a bind leaves the service with, and the one it gives the target. */
  function BoundPorts(service: ServiceInterface, deduced: int, protocol: string, targetPort: int): (int, int) {
    var ports :=
      if deduced != 0 then (deduced, 0)
      else if targetPort == 0 then (service.port, 0)
      else if service.port == 0 then (targetPort, 0)
      else (service.port, targetPort);
    if ports.0 == 0 && protocol == "http" then (80, ports.1) else ports
  }

  /** The definition a successful bind stores. */
  ghost function Bound(host: Host, service: ServiceInterface, targetType: string, targetName: string,
                       protocol: string, targetPort: int): Result<ServiceInterface>
  {
    if !RouterUp(host) || !Valid(service) || (protocol != "" && service.protocol != protocol)
    then Err("refused")
    else
      var target := ServiceInterfaceTarget(host, targetType, targetName, service.port == 0 && targetPort == 0);
      if target.Err? then Err(target.error)
      else
        var ports := BoundPorts(service, target.value.targetPort, protocol, targetPort);
        if ports.0 == 0 then Err("Service port required and cannot be deduced.")
        else
          Ok(service.(port := ports.0,
                      targets := WithTarget(service.targets, target.value.(targetPort := ports.1)),
                      origin := ""))
  }

  function Unbound(host: Host, file: Services, targetType: string, targetName: string, address: string,
                   deleteIfNoTargets: bool): Result<Services>
  {
    if !RouterUp(host) then Err("Failed to retrieve transport container (need init?)")
    else if targetType != "container" && targetType != "host-service" then Err("Unsupported target type")
    else if address !in file then Err("Could not find entry for service interface")
    else
      var kept := Kept(host, address, targetName, file[address].targets);
      if |kept| == |file[address].targets| then Err("Could not find target for service interface")
      else if kept == [] && deleteIfNoTargets then Ok(file - {address})
      else Ok(file[address := file[address].(targets := kept)])
  }

  /** The file after an edit; a refused edit leaves it as it was. */
  ghost function Edited(edit: Edit, host: Host, file: Services): Services {
    match edit
    case Create(service) => if RouterUp(host) && Valid(service) then Stored(file, service, false) else file
    case Update(service) => if RouterUp(host) && Valid(service) then Stored(file, service, true) else file
    case Bind(service, targetType, targetName, protocol, targetPort) =>
      var bound := Bound(host, service, targetType, targetName, protocol, targetPort);
      if bound.Ok? then Stored(file, bound.value, true) else file
    case Unbind(targetType, targetName, address, deleteIfNoTargets) =>
      var unbound := Unbound(host, file, targetType, targetName, address, deleteIfNoTargets);
      if unbound.Ok? then unbound.value else file
    case Remove(address) => if RouterUp(host) && address in file then file - {address} else file
  }

  // ---------------------------------------------------------------- what edits keep

  /** An edit touches one address, and leaves there nothing, a definition of the user's own, or the
      old definition with fewer targets; a create never replaces an entry. */
  lemma EditTouchesOneEntry(edit: Edit, host: Host, file: Services)
    requires KeyedByAddress(file)
    ensures var file', a := Edited(edit, host, file), edit.Where();
      && KeyedByAddress(file')
      && (forall n :: n != a ==> (n in file <==> n in file') && (n in file ==> file'[n] == file[n]))
      && (a in file' && file'[a].origin != "" ==>
            && a in file && file'[a] == file[a].(targets := file'[a].targets)
            && forall t :: t in file'[a].targets ==> t in file[a].targets)
      && (edit.Create? && a in file ==> file' == file)
  {
    if edit.Unbind? && edit.address in file {
      KeptMembers(host, edit.address, edit.targetName, file[edit.address].targets);
    }
  }

  /** Every edit keeps the whole file acceptable to the validator. */
  lemma EditKeepsValid(edit: Edit, host: Host, file: Services)
    requires AllValid(file) && edit.PortInRange()
    ensures AllValid(Edited(edit, host, file))
  {
    match edit {
      case Bind(service, targetType, targetName, protocol, targetPort) =>
        var bound := Bound(host, service, targetType, targetName, protocol, targetPort);
        if bound.Ok? {
          BoundIsValidIff(host, service, targetType, targetName, protocol, targetPort);
        }
      case Unbind(_, targetName, address, _) =>
        if address in file {
          KeptMembers(host, address, targetName, file[address].targets);
        }
      case _ =>
    }
  }

  /** A successful bind stores a definition the validator accepts exactly when the port it was given
      is in range, and then the service has a proper port. */
  lemma BoundIsValidIff(host: Host, service: ServiceInterface, targetType: string, targetName: string,
                        protocol: string, targetPort: int)
    requires Bound(host, service, targetType, targetName, protocol, targetPort).Ok?
    ensures var stored := Bound(host, service, targetType, targetName, protocol, targetPort).value;
      && (Valid(stored) <==> InPortRange(targetPort))
      && (InPortRange(targetPort) ==> 1 <= stored.port <= 65535)
  {
    var stored := Bound(host, service, targetType, targetName, protocol, targetPort).value;
    var target := ServiceInterfaceTarget(host, targetType, targetName, service.port == 0 && targetPort == 0).value;
    var ports := BoundPorts(service, target.targetPort, protocol, targetPort);
    var bound := target.(targetPort := ports.1);
    WithTargetContents(service.targets, bound);
    assert stored.targets == WithTarget(service.targets, bound) && bound in stored.targets;
  }

  /** The target that a bind adds is reached at the port asked for, and a service that has a port
      keeps it. */
  lemma BoundTargetIsReachedAt(host: Host, service: ServiceInterface, targetType: string, targetName: string,
                               protocol: string, targetPort: int)
    requires Bound(host, service, targetType, targetName, protocol, targetPort).Ok?
    ensures var stored := Bound(host, service, targetType, targetName, protocol, targetPort).value;
      && (service.port != 0 ==> stored.port == service.port)
      && exists t :: && t in stored.targets
                     && t.name == (if targetType == "container" then targetName else Canonical(host, targetName))
                     && t.selector == (if targetType == "container" then CONTAINER_SELECTOR else HOST_SELECTOR)
                     && (targetPort != 0 ==> (if t.targetPort != 0 then t.targetPort else stored.port) == targetPort)
                     && (targetPort == 0 ==> t.targetPort == 0)
  {
    var target := ServiceInterfaceTarget(host, targetType, targetName, service.port == 0 && targetPort == 0).value;
    var ports := BoundPorts(service, target.targetPort, protocol, targetPort);
    WithTargetContents(service.targets, target.(targetPort := ports.1));
  }

  lemma WithTargetContents(targets: seq<Target>, target: Target)
    ensures target in WithTarget(targets, target)
    ensures forall t :: t in WithTarget(targets, target) ==> t == target || t in targets
  {
    var added := WithTarget(targets, target);
    if Names(targets, target.name) {
      var i :| 0 <= i < |targets| && targets[i].name == target.name;
      assert added[i] == target;
    } else {
      assert added[|targets|] == target;
    }
  }

  ghost predicate UniqueNames(targets: seq<Target>) {
    forall i, j :: 0 <= i < j < |targets| ==> targets[i].name != targets[j].name
  }

  ghost predicate AllUnique(file: Services) {
    forall n :: n in file ==> UniqueNames(file[n].targets)
  }

  /** Target names stay unique, given that the definition handed to the edit has unique ones. */
  lemma EditKeepsUniqueNames(edit: Edit, host: Host, file: Services)
    requires AllUnique(file)
    requires edit.Create? || edit.Update? || edit.Bind? ==> UniqueNames(edit.service.targets)
    ensures AllUnique(Edited(edit, host, file))
  {
    if edit.Unbind? && edit.address in file {
      KeptKeepsUnique(host, edit.address, edit.targetName, file[edit.address].targets);
    }
  }

  lemma {:induction false} KeptKeepsUnique(host: Host, address: string, targetName: string, targets: seq<Target>)
    requires UniqueNames(targets)
    ensures UniqueNames(Kept(host, address, targetName, targets))
  {
    if targets != [] {
      var rest, t := targets[..|targets| - 1], targets[|targets| - 1];
      KeptKeepsUnique(host, address, targetName, rest);
      KeptMembers(host, address, targetName, rest);
      forall u | u in Kept(host, address, targetName, rest) ensures u.name != t.name {
        assert u in rest;
      }
    }
  }

  lemma {:induction false} KeptAll(host: Host, address: string, targetName: string, targets: seq<Target>)
    requires forall t :: t in targets ==> !Unbinds(host, address, targetName, t)
    ensures Kept(host, address, targetName, targets) == targets
  {
    if targets != [] {
      var rest, t := targets[..|targets| - 1], targets[|targets| - 1];
      assert targets == rest + [t];
      KeptAll(host, address, targetName, rest);
    }
  }

  lemma {:induction false} KeptOfAppend(host: Host, address: string, targetName: string, targets: seq<Target>,
                                        t: Target)
    ensures Kept(host, address, targetName, targets + [t]) ==
            Kept(host, address, targetName, targets) + if Unbinds(host, address, targetName, t) then [] else [t]
  {
    assert (targets + [t])[..|targets|] == targets;
  }

  lemma {:induction false} KeptNoLonger(host: Host, address: string, targetName: string, targets: seq<Target>)
    ensures |Kept(host, address, targetName, targets)| <= |targets|
  {
    if targets != [] {
      KeptNoLonger(host, address, targetName, targets[..|targets| - 1]);
    }
  }

  lemma KeptOneMore(host: Host, address: string, targetName: string, targets: seq<Target>, i: nat)
    requires i < |targets|
    ensures Kept(host, address, targetName, targets[..i + 1]) ==
            Kept(host, address, targetName, targets[..i]) +
            if Unbinds(host, address, targetName, targets[i]) then [] else [targets[i]]
  {
    assert targets[..i + 1][..i] == targets[..i];
  }

  /** Binding a target and unbinding it with the same argument gives the earlier target list back,
      in order, exactly when no earlier target has the new one's name or answers to the argument. */
  lemma BindThenUnbindIff(host: Host, targets: seq<Target>, address: string, targetType: string, targetName: string,
                          deduce: bool, port: int)
    requires ServiceInterfaceTarget(host, targetType, targetName, deduce).Ok?
    ensures var target := ServiceInterfaceTarget(host, targetType, targetName, deduce).value.(targetPort := port);
      Kept(host, address, targetName, WithTarget(targets, target)) == targets <==>
      forall t :: t in targets ==> t.name != target.name && !Unbinds(host, address, targetName, t)
  {
    var target := ServiceInterfaceTarget(host, targetType, targetName, deduce).value.(targetPort := port);
    var bound := WithTarget(targets, target);
    var kept := Kept(host, address, targetName, bound);
    WithTargetContents(targets, target);
    assert Unbinds(host, address, targetName, target);
    KeptMembers(host, address, targetName, bound);
    if Names(targets, target.name) {
      assert |kept| < |bound| == |targets|;
      var i :| 0 <= i < |targets| && targets[i].name == target.name;
      assert targets[i] in targets;
    } else {
      assert forall t :: t in targets ==> t.name != target.name;
      KeptOfAppend(host, address, targetName, targets, target);
      if forall t :: t in targets ==> !Unbinds(host, address, targetName, t) {
        KeptAll(host, address, targetName, targets);
      }
    }
  }

  /** No earlier target of the service can be mistaken for the one that a bind adds. */
  ghost predicate FreshName(host: Host, service: ServiceInterface, targetName: string) {
    forall t :: t in service.targets ==>
      && t.name != targetName && t.name != Canonical(host, targetName)
      && !(t.name == "" && targetName == service.address)
  }

  /** On the file: after a successful bind of a fresh target, unbinding it restores the entry that
      the bind stored, less its new target, and nothing else in the file changed; if it was the only
      target and deletion was asked for, the entry goes. */
  lemma UnbindUndoesBind(host: Host, file: Services, service: ServiceInterface, targetType: string,
                         targetName: string, protocol: string, targetPort: int, deleteIfNoTargets: bool)
    requires Bound(host, service, targetType, targetName, protocol, targetPort).Ok?
    requires FreshName(host, service, targetName)
    ensures var a, stored := service.address, Bound(host, service, targetType, targetName, protocol, targetPort).value;
      && |stored.targets| == |service.targets| + 1
      && Edited(Unbind(targetType, targetName, a, deleteIfNoTargets), host,
                Edited(Bind(service, targetType, targetName, protocol, targetPort), host, file))
         == if deleteIfNoTargets && service.targets == [] then file - {a}
            else file[a := stored.(targets := service.targets)]
  {
    var a, stored := service.address, Bound(host, service, targetType, targetName, protocol, targetPort).value;
    BoundAddsFreshTarget(host, service, targetType, targetName, protocol, targetPort);
    BindStores(host, file, service, targetType, targetName, protocol, targetPort);
    UnbindsTheOne(host, file, targetType, targetName, a, stored, service.targets, deleteIfNoTargets);
  }

  lemma BindStores(host: Host, file: Services, service: ServiceInterface, targetType: string,
                   targetName: string, protocol: string, targetPort: int)
    requires Bound(host, service, targetType, targetName, protocol, targetPort).Ok?
    ensures RouterUp(host) && (targetType == "container" || targetType == "host-service")
    ensures Edited(Bind(service, targetType, targetName, protocol, targetPort), host, file) ==
            file[service.address := Bound(host, service, targetType, targetName, protocol, targetPort).value]
  {
  }

  lemma UnbindsTheOne(host: Host, file: Services, targetType: string, targetName: string, a: string,
                      stored: ServiceInterface, kept: seq<Target>, deleteIfNoTargets: bool)
    requires RouterUp(host) && (targetType == "container" || targetType == "host-service")
    requires |kept| < |stored.targets| && Kept(host, a, targetName, stored.targets) == kept
    ensures Edited(Unbind(targetType, targetName, a, deleteIfNoTargets), host, file[a := stored]) ==
            if deleteIfNoTargets && kept == [] then file - {a} else file[a := stored.(targets := kept)]
  {
    assert file[a := stored] - {a} == file - {a};
    assert file[a := stored][a := stored.(targets := kept)] == file[a := stored.(targets := kept)];
  }

  lemma BoundAddsFreshTarget(host: Host, service: ServiceInterface, targetType: string, targetName: string,
                             protocol: string, targetPort: int)
    requires Bound(host, service, targetType, targetName, protocol, targetPort).Ok?
    requires FreshName(host, service, targetName)
    ensures var stored := Bound(host, service, targetType, targetName, protocol, targetPort).value;
      && |stored.targets| == |service.targets| + 1
      && Kept(host, service.address, targetName, stored.targets) == service.targets
  {
    var deduce := service.port == 0 && targetPort == 0;
    var target := ServiceInterfaceTarget(host, targetType, targetName, deduce).value;
    var port := BoundPorts(service, target.targetPort, protocol, targetPort).1;
    FreshTargetComesAndGoes(host, service.targets, service.address, targetType, targetName, deduce, port);
  }

  lemma FreshTargetComesAndGoes(host: Host, targets: seq<Target>, address: string, targetType: string,
                                targetName: string, deduce: bool, port: int)
    requires ServiceInterfaceTarget(host, targetType, targetName, deduce).Ok?
    requires forall t :: t in targets ==>
      && t.name != targetName && t.name != Canonical(host, targetName)
      && !(t.name == "" && targetName == address)
    ensures var target := ServiceInterfaceTarget(host, targetType, targetName, deduce).value.(targetPort := port);
      && |WithTarget(targets, target)| == |targets| + 1
      && Kept(host, address, targetName, WithTarget(targets, target)) == targets
  {
    var target := ServiceInterfaceTarget(host, targetType, targetName, deduce).value.(targetPort := port);
    assert !Names(targets, target.name) by {
      assert forall i :: 0 <= i < |targets| ==> targets[i] in targets;
    }
    BindThenUnbindIff(host, targets, address, targetType, targetName, deduce, port);
  }
}
