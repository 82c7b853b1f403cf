/** What each edit of the service-definition file does, told to the user: when it is refused, what is
    stored otherwise, field by field, and that nothing else changes. */
module UserEdits {
  import opened Types
  import opened ServiceEdits

  ghost predicate RouterRuns(host: Host) { "skupper-router" in host.containers }

  /** What the validator refuses, reason by reason. */
  ghost predicate Refused(si: ServiceInterface) {
    || (exists t :: t in si.targets && (t.targetPort < 0 || t.targetPort > 65535))
    || si.port < 0 || si.port > 65535
    || (si.aggregate != "" && si.eventChannel)
    || (si.aggregate != "" && si.aggregate != "json" && si.aggregate != "multipart")
    || (si.protocol != "" && si.protocol != "tcp" && si.protocol != "http" && si.protocol != "http2")
    || (si.aggregate != "" && si.protocol != "http")
    || (si.eventChannel && si.protocol != "http")
  }

  lemma ValidUnlessRefused(si: ServiceInterface)
    ensures Valid(si) <==> !Refused(si)
  {
  }

  // ---------------------------------------------------------------- create, update, remove

  /** A create stores the definition as the user's own where there is none yet, and nothing else. */
  lemma CreateSays(host: Host, file: Services, service: ServiceInterface)
    ensures var file' := Edited(Create(service), host, file);
      if RouterRuns(host) && !Refused(service) && service.address !in file
      then file' == file[service.address := service.(origin := "")]
      else file' == file
  {
    ValidUnlessRefused(service);
  }

  /** An update stores it whether or not there is one. */
  lemma UpdateSays(host: Host, file: Services, service: ServiceInterface)
    ensures var file' := Edited(Update(service), host, file);
      if RouterRuns(host) && !Refused(service) then file' == file[service.address := service.(origin := "")]
      else file' == file
  {
    ValidUnlessRefused(service);
  }

  /** A remove takes the entry out, local or learned. */
  lemma RemoveSays(host: Host, file: Services, address: string)
    ensures var file' := Edited(Remove(address), host, file);
      && (RouterRuns(host) ==> address !in file')
      && (!RouterRuns(host) ==> file' == file)
      && (forall n :: n != address ==> (n in file' <==> n in file) && (n in file ==> file'[n] == file[n]))
  {
  }

  // ---------------------------------------------------------------- bind

  /** The target meant by an argument: a container by its name; a host service by name and address,
      with that of docker0, or else Docker's usual one, if none is given. */
  ghost predicate Means(host: Host, selector: string, argument: string, name: string) {
    if selector == "internal.skupper.io/host-service" && !(':' in argument)
    then name == argument + ":" + if host.bridgeIP != "" then host.bridgeIP else "172.17.0.1"
    else name == argument
  }

  /** The container is there and exposes ports. */
  ghost predicate Exposes(host: Host, targetType: string, targetName: string) {
    targetType == "container" && targetName in host.containers && host.containers[targetName] > 0
  }

  ghost predicate CanBind(host: Host, service: ServiceInterface, targetType: string, targetName: string,
                          protocol: string, targetPort: int)
  {
    && RouterRuns(host) && !Refused(service)
    && (protocol == "" || protocol == service.protocol)
    && ((targetType == "container" && targetName in host.containers) || targetType == "host-service")
    && (service.port != 0 || targetPort != 0 || Exposes(host, targetType, targetName) || protocol == "http")
  }

  /** The service keeps its port; without one it gets the one asked for, or 9090 for a container that
      exposes ports, or 80 for http. */
  ghost predicate ServedAt(host: Host, service: ServiceInterface, targetType: string, targetName: string,
                           targetPort: int, port: int)
  {
    && (service.port != 0 ==> port == service.port)
    && (service.port == 0 && targetPort != 0 ==> port == targetPort)
    && (service.port == 0 && targetPort == 0 && Exposes(host, targetType, targetName) ==> port == 9090)
    && (service.port == 0 && targetPort == 0 && !Exposes(host, targetType, targetName) ==> port == 80)
  }

  /** The target that a bind adds. */
  ghost predicate Added(host: Host, service: ServiceInterface, targetType: string, targetName: string,
                        targetPort: int, t: Target)
  {
    && (targetType == "container" ==> t.selector == "internal.skupper.io/container")
    && (targetType == "host-service" ==> t.selector == "internal.skupper.io/host-service")
    && Means(host, t.selector, targetName, t.name)
    && (service.port != 0 ==> t.targetPort == targetPort)
    && (service.port == 0 ==> t.targetPort == 0)
    && t.service == ""
  }

  /** It takes the place of each target of its name, or comes last. */
  ghost predicate PutIn(targets: seq<Target>, t: Target, targets': seq<Target>) {
    if exists u :: u in targets && u.name == t.name
    then
      && |targets'| == |targets|
      && forall i :: 0 <= i < |targets| ==> targets'[i] == if targets[i].name == t.name then t else targets[i]
    else targets' == targets + [t]
  }

  /** What a successful bind leaves at the service's address. */
  ghost predicate BoundAs(host: Host, service: ServiceInterface, targetType: string, targetName: string,
                          targetPort: int, stored: ServiceInterface)
  {
    && stored == service.(port := stored.port, targets := stored.targets, origin := "")
    && ServedAt(host, service, targetType, targetName, targetPort, stored.port)
    && exists t ::
         Added(host, service, targetType, targetName, targetPort, t) && PutIn(service.targets, t, stored.targets)
  }

  lemma BindSays(host: Host, file: Services, service: ServiceInterface, targetType: string, targetName: string,
                 protocol: string, targetPort: int)
    ensures Bound(host, service, targetType, targetName, protocol, targetPort).Ok? <==>
            CanBind(host, service, targetType, targetName, protocol, targetPort)
    ensures var file' := Edited(Bind(service, targetType, targetName, protocol, targetPort), host, file);
      if CanBind(host, service, targetType, targetName, protocol, targetPort)
      then
        && service.address in file' && file' == file[service.address := file'[service.address]]
        && BoundAs(host, service, targetType, targetName, targetPort, file'[service.address])
      else file' == file
  {
    BindsWhenItCan(host, service, targetType, targetName, protocol, targetPort);
    var bound := Bound(host, service, targetType, targetName, protocol, targetPort);
    if bound.Ok? {
      BoundSays(host, service, targetType, targetName, protocol, targetPort);
    }
  }

  lemma BindsWhenItCan(host: Host, service: ServiceInterface, targetType: string, targetName: string,
                       protocol: string, targetPort: int)
    ensures Bound(host, service, targetType, targetName, protocol, targetPort).Ok? <==>
            CanBind(host, service, targetType, targetName, protocol, targetPort)
  {
    ValidUnlessRefused(service);
  }

  lemma BoundSays(host: Host, service: ServiceInterface, targetType: string, targetName: string,
                  protocol: string, targetPort: int)
    requires Bound(host, service, targetType, targetName, protocol, targetPort).Ok?
    ensures var stored := Bound(host, service, targetType, targetName, protocol, targetPort).value;
      stored.origin == "" && BoundAs(host, service, targetType, targetName, targetPort, stored)
  {
    var stored := Bound(host, service, targetType, targetName, protocol, targetPort).value;
    var target := ServiceInterfaceTarget(host, targetType, targetName, service.port == 0 && targetPort == 0).value;
    var ports := BoundPorts(service, target.targetPort, protocol, targetPort);
    var t := target.(targetPort := ports.1);
    assert Added(host, service, targetType, targetName, targetPort, t);
    PutInWith(service.targets, t);
    assert stored.targets == WithTarget(service.targets, t);
  }

  lemma PutInWith(targets: seq<Target>, t: Target)
    ensures PutIn(targets, t, WithTarget(targets, t))
  {
    if u :| u in targets && u.name == t.name {
      var i :| 0 <= i < |targets| && targets[i] == u;
      assert Names(targets, t.name);
    }
  }

  // ---------------------------------------------------------------- unbind

  /** The target answers to the argument of an unbind at the address. */
  ghost predicate Answers(host: Host, address: string, argument: string, t: Target) {
    Means(host, t.selector, argument, t.name) || (t.name == "" && argument == address)
  }

  /** The targets that do not answer, in order: what is left of a list is left of its parts, and of a
      single target it is nothing or the target. */
  lemma {:induction false} KeptInOrder(host: Host, address: string, argument: string,
                                       left: seq<Target>, right: seq<Target>)
    ensures Kept(host, address, argument, left + right) ==
            Kept(host, address, argument, left) + Kept(host, address, argument, right)
  {
    if right == [] {
      assert left + right == left;
    } else {
      var n := |right| - 1;
      KeptInOrder(host, address, argument, left, right[..n]);
      assert (left + right)[..|left| + n] == left + right[..n];
    }
  }

  lemma KeptOfOne(host: Host, address: string, argument: string, t: Target)
    ensures Kept(host, address, argument, [t]) == if Answers(host, address, argument, t) then [] else [t]
  {
    assert [t][..0] == [];
  }

  ghost predicate CanUnbind(host: Host, file: Services, targetType: string, argument: string, address: string) {
    && RouterRuns(host) && (targetType == "container" || targetType == "host-service")
    && address in file && exists t :: t in file[address].targets && Answers(host, address, argument, t)
  }

  lemma UnbindSays(host: Host, file: Services, targetType: string, argument: string, address: string,
                   deleteIfNoTargets: bool)
    ensures Unbound(host, file, targetType, argument, address, deleteIfNoTargets).Ok? <==>
            CanUnbind(host, file, targetType, argument, address)
    ensures var file' := Edited(Unbind(targetType, argument, address, deleteIfNoTargets), host, file);
      if !CanUnbind(host, file, targetType, argument, address) then file' == file
      else if deleteIfNoTargets && forall t :: t in file[address].targets ==> Answers(host, address, argument, t)
      then file' == file - {address}
      else
        && address in file' && file' == file[address := file[address].(targets := file'[address].targets)]
        && file'[address].targets == Kept(host, address, argument, file[address].targets)
        && forall t :: t in file'[address].targets <==>
             t in file[address].targets && !Answers(host, address, argument, t)
  {
    if address in file {
      var targets := file[address].targets;
      var kept := Kept(host, address, argument, targets);
      KeptMembers(host, address, argument, targets);
      AnswersAsUnbinds(host, address, argument);
      assert kept == [] <==> forall t :: t in targets ==> Answers(host, address, argument, t) by {
        assert kept != [] ==> kept[0] in kept;
      }
    }
  }

  lemma AnswersAsUnbinds(host: Host, address: string, argument: string)
    ensures forall t :: Unbinds(host, address, argument, t) <==> Answers(host, address, argument, t)
  {
  }
}
