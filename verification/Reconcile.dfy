/** The reconciler of the service controller: bindings patched to follow the file, and one proxy
    container per binding whose configuration is replaced when it differs. */
module Reconcile {
  import opened Types
  import opened Json
  import opened Qdr
  import opened Codec
  import opened ProxyConfig
  import opened Bindings
  import opened ServiceEdits

  /** A container: whether it carries the proxy label, the QDROUTERD_CONF it was created with, and
      which of the created containers it is. */
  datatype Container = Container(proxy: bool, conf: Option<Json>, serial: nat)

  datatype Deployment = Deployment(bindings: map<string, Binding>, containers: map<string, Container>)

  function Reconciled(bindings: map<string, Binding>, file: Services): map<string, Binding> {
    map k | k in file :: if k in bindings then Patched(bindings[k], file[k]) else Fresh(file[k])
  }

  /** A document of the binding's configuration, for some listing of its targets. */
  ghost predicate Configures(conf: Json, b: Binding, siteId: string) {
    exists si :: Describes(si, b) && Marshals(conf, ProxyConfigOf(si, siteId))
  }

  ghost predicate Serves(c: Container, b: Binding, siteId: string) {
    c.proxy && c.conf.Some? && Configures(c.conf.value, b, siteId)
  }

  /** A name the controller cannot use: some other container has it. */
  predicate Taken(containers: map<string, Container>, name: string) {
    name in containers && !containers[name].proxy
  }

  function At<V>(m: map<string, V>, k: string): Option<V> {
    if k in m then Some(m[k]) else None
  }

  /** A binding's name afterwards: a container that is not a proxy is left alone; otherwise a proxy
      serves the binding, and it is the old one exactly if its document did not change. */
  ghost predicate Ensured(before: map<string, Container>, after: map<string, Container>, k: string,
                          b: Binding, siteId: string)
  {
    if Taken(before, k) then At(after, k) == At(before, k)
    else
      && k in after && Serves(after[k], b, siteId)
      && (k in before ==> if after[k].conf == before[k].conf then after[k] == before[k]
                          else after[k].serial != before[k].serial)
  }

  ghost predicate OneEnsured(before: map<string, Container>, after: map<string, Container>, name: string,
                             b: Binding, siteId: string)
  {
    Ensured(before, after, name, b, siteId) && forall k :: k != name ==> At(after, k) == At(before, k)
  }

  ghost predicate EnsuredAt(before: map<string, Container>, after: map<string, Container>,
                            bindings: map<string, Binding>, names: set<string>, siteId: string, k: string)
  {
    if k in names && k in bindings then Ensured(before, after, k, bindings[k], siteId)
    else At(after, k) == At(before, k)
  }

  /** The names of a set are ensured so far. */
  ghost predicate AllEnsured(before: map<string, Container>, after: map<string, Container>,
                             bindings: map<string, Binding>, names: set<string>, siteId: string)
  {
    forall k :: EnsuredAt(before, after, bindings, names, siteId, k)
  }

  /** After updateProxies: every binding is ensured, and of all other containers exactly the proxies
      are gone. */
  ghost predicate Proxied(before: map<string, Container>, bindings: map<string, Binding>, siteId: string,
                          after: map<string, Container>)
  {
    forall k :: ProxiedAt(before, bindings, siteId, after, k)
  }

  ghost predicate ProxiedAt(before: map<string, Container>, bindings: map<string, Binding>, siteId: string,
                            after: map<string, Container>, k: string)
  {
    if k in bindings then Ensured(before, after, k, bindings[k], siteId)
    else At(after, k) == if Taken(before, k) then At(before, k) else None
  }

  /** One pass of processServiceDefs over the bindings and containers. */
  ghost predicate Processed(d: Deployment, file: Services, siteId: string, d': Deployment) {
    && d'.bindings == Reconciled(d.bindings, file)
    && Proxied(d.containers, d'.bindings, siteId, d'.containers)
  }

  ghost predicate ProcessedAll(files: seq<Services>, deployments: seq<Deployment>, siteId: string) {
    && |deployments| == |files| + 1
    && deployments[0].bindings == map[]
    && forall i :: 0 <= i < |files| ==> ProcessedAt(files, deployments, siteId, i)
  }

  ghost predicate ProcessedAt(files: seq<Services>, deployments: seq<Deployment>, siteId: string, i: nat)
    requires i < |files| == |deployments| - 1
  {
    Processed(deployments[i], files[i], siteId, deployments[i + 1])
  }

  // ---------------------------------------------------------------- every binding is a history

  /** The definitions an address had since it last appeared, up to and including file i - 1. */
  ghost function HistoryOf(files: seq<Services>, k: string, i: nat): (history: seq<ServiceInterface>)
    requires i <= |files|
    ensures i > 0 && k in files[i - 1] ==> history != [] && history[|history| - 1] == files[i - 1][k]
    ensures i > 0 && k !in files[i - 1] ==> history == []
  {
    if i == 0 || k !in files[i - 1] then [] else HistoryOf(files, k, i - 1) + [files[i - 1][k]]
  }

  /** The binding that a history leaves, if any. */
  ghost function BindingAfter(history: seq<ServiceInterface>): Option<Binding> {
    if history == [] then None else Some(AfterHistory(history))
  }

  lemma {:induction false} BindingsAreHistories(files: seq<Services>, deployments: seq<Deployment>, siteId: string,
                                               k: string, i: nat)
    requires ProcessedAll(files, deployments, siteId) && i <= |files|
    ensures At(deployments[i].bindings, k) == BindingAfter(HistoryOf(files, k, i))
  {
    if i > 0 {
      BindingsAreHistories(files, deployments, siteId, k, i - 1);
      assert ProcessedAt(files, deployments, siteId, i - 1);
      OneMoreFile(deployments[i - 1].bindings, files[i - 1], k, HistoryOf(files, k, i - 1));
    }
  }

  lemma OneMoreFile(bindings: map<string, Binding>, file: Services, k: string, history: seq<ServiceInterface>)
    requires At(bindings, k) == BindingAfter(history)
    ensures At(Reconciled(bindings, file), k) ==
            BindingAfter(if k in file then history + [file[k]] else [])
  {
    if k in file && history != [] {
      assert (history + [file[k]])[..|history|] == history;
    }
  }

  lemma {:induction false} ForeignContainersStay(files: seq<Services>, deployments: seq<Deployment>, siteId: string,
                                                k: string, i: nat)
    requires ProcessedAll(files, deployments, siteId) && i <= |files|
    ensures Taken(deployments[0].containers, k) <==> Taken(deployments[i].containers, k)
    ensures Taken(deployments[0].containers, k) ==> At(deployments[i].containers, k) == At(deployments[0].containers, k)
  {
    if i > 0 {
      ForeignContainersStay(files, deployments, siteId, k, i - 1);
      var d, d' := deployments[i - 1], deployments[i];
      assert ProcessedAt(files, deployments, siteId, i - 1);
      assert ProxiedAt(d.containers, d'.bindings, siteId, d'.containers, k);
    }
  }

  // ---------------------------------------------------------------- one address

  /** Since it last appeared, the address's definitions were stored under it. */
  ghost predicate KeyedSince(files: seq<Services>, k: string) {
    forall d :: d in HistoryOf(files, k, |files|) ==> d.address == k
  }

  /** If the service is connected to its targets, these leave by different egress names, and each came
      in, since the address last appeared, under a selector that reaches the host it is to reach now. */
  ghost predicate ReachesSince(files: seq<Services>, k: string)
    requires files != [] && k in files[|files| - 1]
  {
    var def := files[|files| - 1][k];
    Bridged(def) ==> EgressByName(def.targets) && EnteredAsDefined(HistoryOf(files, k, |files|))
  }

  lemma BindingFollowsTheLastFile(files: seq<Services>, deployments: seq<Deployment>, siteId: string, k: string)
    requires files != [] && ProcessedAll(files, deployments, siteId)
    requires k in files[|files| - 1] && KeyedSince(files, k)
    ensures k in deployments[|files|].bindings
    ensures deployments[|files|].bindings[k] == AfterHistory(HistoryOf(files, k, |files|))
    ensures Reflects(deployments[|files|].bindings[k], files[|files| - 1][k])
    ensures NamedTargets(deployments[|files|].bindings[k])
  {
    var history := HistoryOf(files, k, |files|);
    BindingsAreHistories(files, deployments, siteId, k, |files|);
    assert forall h :: 0 <= h < |history| ==> history[h] in history;
    BindingsReflectTheLastDefinition(history);
  }

  lemma BindingReaches(files: seq<Services>, deployments: seq<Deployment>, siteId: string, k: string)
    requires files != [] && ProcessedAll(files, deployments, siteId)
    requires k in files[|files| - 1] && KeyedSince(files, k)
    requires EnteredAsDefined(HistoryOf(files, k, |files|))
    ensures k in deployments[|files|].bindings
    ensures ReachesAsDefined(deployments[|files|].bindings[k], files[|files| - 1][k])
  {
    var history := HistoryOf(files, k, |files|);
    BindingsAreHistories(files, deployments, siteId, k, |files|);
    assert forall h :: 0 <= h < |history| ==> history[h] in history;
    ReachesIffEntered(history);
  }

  /** The address has a proxy, configured from some listing of its binding. */
  lemma ProxyRuns(files: seq<Services>, deployments: seq<Deployment>, siteId: string, k: string)
    returns (si: ServiceInterface)
    requires files != [] && ProcessedAll(files, deployments, siteId)
    requires k in files[|files| - 1] && KeyedSince(files, k) && !Taken(deployments[0].containers, k)
    ensures var d := deployments[|files|];
      && k in d.bindings && Describes(si, d.bindings[k])
      && k in d.containers && d.containers[k].proxy && d.containers[k].conf.Some?
      && Unmarshalled(d.containers[k].conf.value) == Ok(ProxyConfigOf(si, siteId))
  {
    var n, d := |files| - 1, deployments[|files|];
    BindingFollowsTheLastFile(files, deployments, siteId, k);
    ForeignContainersStay(files, deployments, siteId, k, n);
    assert ProcessedAt(files, deployments, siteId, n);
    assert ProxiedAt(deployments[n].containers, d.bindings, siteId, d.containers, k);
    assert Serves(d.containers[k], d.bindings[k], siteId);
    si :| Describes(si, d.bindings[k]) && Marshals(d.containers[k].conf.value, ProxyConfigOf(si, siteId));
    ProxyConfigIsWellKeyed(si, siteId);
    RoundTrip(d.containers[k].conf.value, ProxyConfigOf(si, siteId));
  }

  /** What the address's proxy runs with. */
  ghost predicate RunsWith(containers: map<string, Container>, k: string, config: Config) {
    && k in containers && containers[k].proxy && containers[k].conf.Some?
    && Unmarshalled(containers[k].conf.value) == Ok(config)
  }

  /** After any sequence of files an address of the last one has a proxy whose configuration decodes to
      what that file alone defines. */
  lemma ProxyFollowsTheLastFile(files: seq<Services>, deployments: seq<Deployment>, siteId: string, k: string)
    requires files != [] && ProcessedAll(files, deployments, siteId)
    requires k in files[|files| - 1] && KeyedSince(files, k) && !Taken(deployments[0].containers, k)
    requires ReachesSince(files, k)
    ensures RunsWith(deployments[|files|].containers, k, ProxyConfigOf(files[|files| - 1][k], siteId))
  {
    var def := files[|files| - 1][k];
    var si := ProxyRuns(files, deployments, siteId, k);
    BindingFollowsTheLastFile(files, deployments, siteId, k);
    if Bridged(def) {
      BindingReaches(files, deployments, siteId, k);
    }
    ReflectionHasTheSameProxy(deployments[|files|].bindings[k], def, si, siteId);
  }

  // ---------------------------------------------------------------- the whole deployment

  /** Each address of the last file satisfies the hypotheses above. */
  ghost predicate WellBehaved(files: seq<Services>, containers: map<string, Container>)
    requires files != []
  {
    forall k :: k in files[|files| - 1] ==> BehavesAt(files, containers, k)
  }

  ghost predicate BehavesAt(files: seq<Services>, containers: map<string, Container>, k: string)
    requires files != [] && k in files[|files| - 1]
  {
    KeyedSince(files, k) && !Taken(containers, k) && ReachesSince(files, k)
  }

  /** End to end: after any sequence of file contents the running proxies are exactly the addresses
      of the last file, every stored configuration decodes to the one that the last file alone
      defines, and no other container was touched. */
  lemma DeploymentFollowsTheLastFile(files: seq<Services>, deployments: seq<Deployment>, siteId: string)
    requires files != [] && ProcessedAll(files, deployments, siteId)
    requires WellBehaved(files, deployments[0].containers)
    ensures var file, containers := files[|files| - 1], deployments[|files|].containers;
      && (forall k :: k in containers && containers[k].proxy <==> k in file)
      && (forall k :: k in file ==> RunsWith(containers, k, ProxyConfigOf(file[k], siteId)))
      && (forall k :: Taken(deployments[0].containers, k) ==>
            k in containers && containers[k] == deployments[0].containers[k])
  {
    var n := |files| - 1;
    var file, containers := files[n], deployments[n + 1].containers;
    assert ProcessedAt(files, deployments, siteId, n);
    forall k | k !in file && k in containers ensures !containers[k].proxy {
      assert ProxiedAt(deployments[n].containers, deployments[n + 1].bindings, siteId, containers, k);
    }
    forall k | k in file ensures RunsWith(containers, k, ProxyConfigOf(file[k], siteId)) {
      assert BehavesAt(files, deployments[0].containers, k);
      ProxyFollowsTheLastFile(files, deployments, siteId, k);
    }
    forall k | Taken(deployments[0].containers, k)
      ensures k in containers && containers[k] == deployments[0].containers[k]
    {
      ForeignContainersStay(files, deployments, siteId, k, n + 1);
    }
  }

  // ---------------------------------------------------------------- what the proxies do

  /** The ingress of a proxy: one listener in the section of the service's protocol. */
  ghost predicate Listens(c: Config, def: ServiceInterface, siteId: string) {
    && c.bridges.tcpListeners == (if def.protocol == "tcp" then map["ingress" := TcpIngress(def, siteId)] else map[])
    && c.bridges.httpListeners == (if def.protocol == "http" || def.protocol == "http2"
                                   then map["ingress" := HttpIngress(def, siteId, HttpVersion(def.protocol))]
                                   else map[])
  }

  ghost predicate ConnectsNowhere(c: Config) {
    c.bridges.tcpConnectors == map[] && c.bridges.httpConnectors == map[]
  }

  /** One connector for each supported target, at its effective port, and no other. */
  ghost predicate ConnectsToTargets(c: Config, def: ServiceInterface, siteId: string) {
    && (forall t :: t in def.targets && EgressHost(t).Some? ==>
          Connects(c, def, siteId, EgressName(EgressHost(t).value), EgressOf(def.port, t)))
    && (forall name :: name in c.bridges.tcpConnectors.Keys + c.bridges.httpConnectors.Keys ==>
          exists t :: t in def.targets && EgressHost(t).Some? && name == EgressName(EgressHost(t).value))
  }

  /** In every run, whatever the targets and their selectors: an address of the last file has a proxy
      that listens as that file says, and connects nowhere if the service has an origin. If it has
      none, its targets came in as they are defined now, and they have distinct egress names, the proxy
      connects exactly to them. */
  lemma ProxiesConnectOnlyWhereDefined(files: seq<Services>, deployments: seq<Deployment>, siteId: string, k: string)
    returns (c: Config)
    requires files != [] && ProcessedAll(files, deployments, siteId)
    requires k in files[|files| - 1] && KeyedSince(files, k) && !Taken(deployments[0].containers, k)
    ensures var def := files[|files| - 1][k];
      && RunsWith(deployments[|files|].containers, k, c) && Listens(c, def, siteId)
      && (def.origin != "" ==> ConnectsNowhere(c))
    ensures var def := files[|files| - 1][k];
      def.origin == "" && EnteredAsDefined(HistoryOf(files, k, |files|)) && DistinctEgress(def.targets) ==>
        ConnectsToTargets(c, def, siteId)
  {
    var def := files[|files| - 1][k];
    var si := ProxyRuns(files, deployments, siteId, k);
    c := ProxyConfigOf(si, siteId);
    BindingFollowsTheLastFile(files, deployments, siteId, k);
    ProxyListens(si, def, siteId);
    if EnteredAsDefined(HistoryOf(files, k, |files|)) && DistinctEgress(def.targets) {
      DistinctEgressGoesByName(def.targets);
      ProxyFollowsTheLastFile(files, deployments, siteId, k);
      EgressOnlyWhereDefined(def, siteId);
    }
  }

  /** Ingress, and the lack of connectors, depend on the patched fields only. */
  lemma ProxyListens(si: ServiceInterface, def: ServiceInterface, siteId: string)
    requires si.address == def.address && si.protocol == def.protocol
    requires si.port == def.port && si.origin == def.origin
    ensures Listens(ProxyConfigOf(si, siteId), def, siteId)
    ensures def.origin != "" ==> ConnectsNowhere(ProxyConfigOf(si, siteId))
  {
    EgressOnlyWhereDefined(si, siteId);
  }

  lemma DistinctEgressGoesByName(targets: seq<Target>)
    requires DistinctEgress(targets)
    ensures EgressByName(targets)
  {
  }

  lemma {:induction false} CanonicalKeepsTheHost(host: Host, name: string)
    ensures BeforeColon(Canonical(host, name)) == BeforeColon(name)
    decreases |name|
  {
    if name != "" && name[0] != ':' {
      CanonicalKeepsTheHost(host, name[1..]);
      assert Canonical(host, name)[1..] == Canonical(host, name[1..]);
    }
  }

  /** From the command line to the router: a successful bind leaves a definition whose proxy connects
      to the named container or host, at the port asked for or else the service's. */
  lemma BoundTargetIsConnected(host: Host, service: ServiceInterface, targetType: string, targetName: string,
                               protocol: string, targetPort: int, siteId: string)
    requires Bound(host, service, targetType, targetName, protocol, targetPort).Ok?
    requires DistinctEgress(Bound(host, service, targetType, targetName, protocol, targetPort).value.targets)
    ensures var stored := Bound(host, service, targetType, targetName, protocol, targetPort).value;
      var reached := if targetType == "container" then targetName else BeforeColon(targetName);
      Connects(ProxyConfigOf(stored, siteId), stored, siteId, "egress-" + reached,
               Egress(reached, if targetPort != 0 then targetPort else stored.port))
  {
    var stored := Bound(host, service, targetType, targetName, protocol, targetPort).value;
    var t := BoundTarget(host, service, targetType, targetName, protocol, targetPort);
    TargetIsConnected(stored, t, siteId);
    CanonicalKeepsTheHost(host, targetName);
  }

  lemma BoundTarget(host: Host, service: ServiceInterface, targetType: string, targetName: string,
                    protocol: string, targetPort: int)
    returns (t: Target)
    requires Bound(host, service, targetType, targetName, protocol, targetPort).Ok?
    ensures var stored := Bound(host, service, targetType, targetName, protocol, targetPort).value;
      && stored.origin == "" && t in stored.targets
      && EffectivePort(stored.port, t.targetPort) == (if targetPort != 0 then targetPort else stored.port)
    ensures t.selector == (if targetType == "container" then CONTAINER_SELECTOR else HOST_SELECTOR)
    ensures t.name == (if targetType == "container" then targetName else Canonical(host, targetName))
  {
    BoundTargetIsReachedAt(host, service, targetType, targetName, protocol, targetPort);
    var stored := Bound(host, service, targetType, targetName, protocol, targetPort).value;
    t :| && t in stored.targets
         && t.name == (if targetType == "container" then targetName else Canonical(host, targetName))
         && t.selector == (if targetType == "container" then CONTAINER_SELECTOR else HOST_SELECTOR)
         && (targetPort != 0 ==> (if t.targetPort != 0 then t.targetPort else stored.port) == targetPort)
         && (targetPort == 0 ==> t.targetPort == 0);
  }

  lemma TargetIsConnected(def: ServiceInterface, t: Target, siteId: string)
    requires def.origin == "" && DistinctEgress(def.targets) && t in def.targets && EgressHost(t).Some?
    ensures Connects(ProxyConfigOf(def, siteId), def, siteId, EgressName(EgressHost(t).value), EgressOf(def.port, t))
  {
    EgressOnlyWhereDefined(def, siteId);
  }
}
