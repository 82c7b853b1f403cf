/** The router configuration of a service's proxy container, as a function of the service
    definition: GetRouterConfigForProxy of pkg/qdr/qdr.go without the order of its steps. */
module ProxyConfig {
  import opened Types
  import opened Qdr
  import opened Codec

  // ---------------------------------------------------------------- egress

  /** strings.Split(name, ":")[0] */
  function BeforeColon(name: string): string {
    if name == "" || name[0] == ':' then "" else [name[0]] + BeforeColon(name[1..])
  }

  /** The host that a target is reached at under a selector of a supported kind. */
  function HostOf(name: string, selector: string): Option<string> {
    if selector == CONTAINER_SELECTOR then Some(name)
    else if selector == HOST_SELECTOR then Some(BeforeColon(name))
    else None
  }

  function EgressHost(t: Target): Option<string> { HostOf(t.name, t.selector) }

  function EgressName(host: string): string { "egress-" + host }

  function EffectivePort(servicePort: int, targetPort: int): int {
    if targetPort != 0 then targetPort else servicePort
  }

  datatype Egress = Egress(host: string, port: int)

  /** The egress bindings of a target list by name; a later target takes the name over. */
  function Egresses(servicePort: int, targets: seq<Target>): map<string, Egress> {
    if targets == [] then map[]
    else
      var rest, t := Egresses(servicePort, targets[..|targets| - 1]), targets[|targets| - 1];
      var host := EgressHost(t);
      if host.None? then rest
      else rest[EgressName(host.value) := Egress(host.value, EffectivePort(servicePort, t.targetPort))]
  }

  // ---------------------------------------------------------------- the whole configuration

  function ProxyBase(siteId: string): Config {
    Config(
      RouterMetadata("$HOSTNAME", MODE_EDGE, siteId),
      map[INTER_ROUTER_PROFILE := RouterProfile(SslProfile(INTER_ROUTER_PROFILE, "", "", ""))],
      map["amqp" := AmqpListener()],
      map["uplink" := UplinkConnector()],
      map[],
      EMPTY_BRIDGES)
  }

  function AmqpListener(): Listener {
    Listener("amqp", "", "localhost", 5672, false, false, 0, "", "", false, 0, "", false, false, false)
  }

  function UplinkConnector(): Connector {
    Connector("uplink", ROLE_EDGE, "skupper-router", Itoa(EDGE_LISTENER_PORT), false, 0, false, INTER_ROUTER_PROFILE, 0)
  }

  function TcpIngress(def: ServiceInterface, siteId: string): TcpEndpoint {
    TcpEndpoint("ingress", "0.0.0.0", Itoa(def.port), def.address, siteId)
  }

  function TcpEgress(def: ServiceInterface, siteId: string, name: string, e: Egress): TcpEndpoint {
    TcpEndpoint(name, e.host, Itoa(e.port), def.address, siteId)
  }

  function HttpIngress(def: ServiceInterface, siteId: string, version: string): HttpEndpoint {
    HttpEndpoint("ingress", if def.origin == "" then def.address else "0.0.0.0", Itoa(def.port), def.address,
                 siteId, version, "", false, "")
  }

  function HttpEgress(def: ServiceInterface, siteId: string, version: string, name: string, e: Egress): HttpEndpoint {
    HttpEndpoint(name, e.host, Itoa(e.port), def.address, siteId, version, "", false, "")
  }

  function HttpVersion(protocol: string): string { if protocol == "http2" then "HTTP/2.0" else "" }

  function TcpConnectors(def: ServiceInterface, siteId: string,
                         egresses: map<string, Egress>): map<string, TcpEndpoint>
  {
    map k | k in egresses :: TcpEgress(def, siteId, k, egresses[k])
  }

  function HttpConnectors(def: ServiceInterface, siteId: string, version: string,
                          egresses: map<string, Egress>): map<string, HttpEndpoint>
  {
    map k | k in egresses :: HttpEgress(def, siteId, version, k, egresses[k])
  }

  lemma OneMoreConnector(def: ServiceInterface, siteId: string, version: string, egresses: map<string, Egress>,
                         k: string, e: Egress)
    ensures TcpConnectors(def, siteId, egresses[k := e]) ==
            TcpConnectors(def, siteId, egresses)[k := TcpEgress(def, siteId, k, e)]
    ensures HttpConnectors(def, siteId, version, egresses[k := e]) ==
            HttpConnectors(def, siteId, version, egresses)[k := HttpEgress(def, siteId, version, k, e)]
  {
  }

  function ProxyBridges(def: ServiceInterface, siteId: string, egresses: map<string, Egress>): BridgeConfig {
    if def.protocol == "tcp" then
      EMPTY_BRIDGES.(tcpListeners := map["ingress" := TcpIngress(def, siteId)],
                     tcpConnectors := TcpConnectors(def, siteId, egresses))
    else if def.protocol == "http" || def.protocol == "http2" then
      var v := HttpVersion(def.protocol);
      EMPTY_BRIDGES.(httpListeners := map["ingress" := HttpIngress(def, siteId, v)],
                     httpConnectors := HttpConnectors(def, siteId, v, egresses))
    else EMPTY_BRIDGES
  }

  /** Only such a service's targets are connected to. */
  predicate Bridged(def: ServiceInterface) {
    def.origin == "" && def.protocol in {"tcp", "http", "http2"}
  }

  function ProxyConfigOf(def: ServiceInterface, siteId: string): Config {
    ProxyBase(siteId).(bridges :=
      ProxyBridges(def, siteId, if def.origin == "" then Egresses(def.port, def.targets) else map[]))
  }

  lemma ProxyConfigIsWellKeyed(def: ServiceInterface, siteId: string)
    ensures WellKeyed(ProxyConfigOf(def, siteId))
  {
    BaseIsNamed(siteId);
    BridgesAreNamed(def, siteId, if def.origin == "" then Egresses(def.port, def.targets) else map[]);
    WellKeyedBySections(ProxyConfigOf(def, siteId));
  }

  lemma BaseIsNamed(siteId: string)
    ensures var c := ProxyBase(siteId);
      && (forall k :: k in c.sslProfiles ==> c.sslProfiles[k].name == k)
      && (forall k :: k in c.connectors ==> c.connectors[k].name == k)
      && (forall k :: k in c.listeners ==> c.listeners[k].name == k)
      && c.addresses == map[]
  {
  }

  lemma BridgesAreNamed(def: ServiceInterface, siteId: string, egresses: map<string, Egress>)
    ensures var b := ProxyBridges(def, siteId, egresses);
      && (forall k :: k in b.tcpListeners ==> b.tcpListeners[k].name == k)
      && (forall k :: k in b.tcpConnectors ==> b.tcpConnectors[k].name == k)
      && (forall k :: k in b.httpListeners ==> b.httpListeners[k].name == k)
      && (forall k :: k in b.httpConnectors ==> b.httpConnectors[k].name == k)
  {
  }

  // ---------------------------------------------------------------- what it says

  /** Target i is the last of its egress name. */
  ghost predicate Decides(targets: seq<Target>, i: int, key: string) {
    && 0 <= i < |targets| && EgressHost(targets[i]).Some? && EgressName(EgressHost(targets[i]).value) == key
    && forall j :: i < j < |targets| && EgressHost(targets[j]).Some? ==>
         EgressName(EgressHost(targets[j]).value) != key
  }

  function EgressOf(servicePort: int, t: Target): Egress
    requires EgressHost(t).Some?
  {
    Egress(EgressHost(t).value, EffectivePort(servicePort, t.targetPort))
  }

  lemma {:induction false} EgressDecided(servicePort: int, targets: seq<Target>, key: string)
    ensures key in Egresses(servicePort, targets) <==> exists i :: Decides(targets, i, key)
    ensures forall i :: Decides(targets, i, key) ==>
              && key in Egresses(servicePort, targets)
              && Egresses(servicePort, targets)[key] == EgressOf(servicePort, targets[i])
  {
    if targets != [] {
      var k := |targets| - 1;
      var rest, t := targets[..k], targets[k];
      EgressDecided(servicePort, rest, key);
      if EgressHost(t).Some? && EgressName(EgressHost(t).value) == key {
        assert Decides(targets, k, key);
      } else {
        forall i ensures Decides(targets, i, key) <==> Decides(rest, i, key) {
          assert forall j :: 0 <= j < k ==> rest[j] == targets[j];
        }
      }
    }
  }

  /** Distinct supported targets leave by distinct egress names. */
  ghost predicate DistinctEgress(targets: seq<Target>) {
    forall i, j :: 0 <= i < j < |targets| && EgressHost(targets[i]).Some? && EgressHost(targets[j]).Some? ==>
      EgressName(EgressHost(targets[i]).value) != EgressName(EgressHost(targets[j]).value)
  }

  /** The connector by which a proxy reaches a target, in the section of its protocol. */
  ghost predicate Connects(c: Config, def: ServiceInterface, siteId: string, name: string, e: Egress) {
    && (def.protocol == "tcp" ==>
          name in c.bridges.tcpConnectors && c.bridges.tcpConnectors[name] == TcpEgress(def, siteId, name, e))
    && (def.protocol == "http" || def.protocol == "http2" ==>
          name in c.bridges.httpConnectors
          && c.bridges.httpConnectors[name] == HttpEgress(def, siteId, HttpVersion(def.protocol), name, e))
  }

  /** A proxy has one ingress listener, of the service's protocol (none for an unknown protocol). If
      the service is remote it has no connectors; if it is local and egress names are distinct, it
      has exactly one connector per supported target, with the effective port. */
  lemma EgressOnlyWhereDefined(def: ServiceInterface, siteId: string)
    ensures var b := ProxyConfigOf(def, siteId).bridges;
      && b.tcpListeners == (if def.protocol == "tcp" then map["ingress" := TcpIngress(def, siteId)] else map[])
      && b.httpListeners == (if def.protocol == "http" || def.protocol == "http2"
                             then map["ingress" := HttpIngress(def, siteId, HttpVersion(def.protocol))] else map[])
      && (def.protocol != "tcp" ==> b.tcpConnectors == map[])
      && (def.protocol != "http" && def.protocol != "http2" ==> b.httpConnectors == map[])
    ensures var b := ProxyConfigOf(def, siteId).bridges;
      def.origin != "" ==> b.tcpConnectors == map[] && b.httpConnectors == map[]
    ensures var c := ProxyConfigOf(def, siteId);
      def.origin == "" && DistinctEgress(def.targets) ==>
        && (forall t :: t in def.targets && EgressHost(t).Some? ==>
              Connects(c, def, siteId, EgressName(EgressHost(t).value), EgressOf(def.port, t)))
        && (forall name :: name in c.bridges.tcpConnectors.Keys + c.bridges.httpConnectors.Keys ==>
              exists t :: t in def.targets && EgressHost(t).Some? && name == EgressName(EgressHost(t).value))
  {
    var c := ProxyConfigOf(def, siteId);
    if def.origin == "" && DistinctEgress(def.targets) {
      forall t | t in def.targets && EgressHost(t).Some?
        ensures Connects(c, def, siteId, EgressName(EgressHost(t).value), EgressOf(def.port, t))
      {
        var i :| 0 <= i < |def.targets| && def.targets[i] == t;
        var key := EgressName(EgressHost(t).value);
        assert Decides(def.targets, i, key);
        EgressDecided(def.port, def.targets, key);
      }
      forall name | name in Egresses(def.port, def.targets)
        ensures exists t :: t in def.targets && EgressHost(t).Some? && name == EgressName(EgressHost(t).value)
      {
        EgressDecided(def.port, def.targets, name);
        var i :| Decides(def.targets, i, name);
        assert def.targets[i] in def.targets;
      }
    }
  }

  // ---------------------------------------------------------------- when two definitions agree

  /** Targets of different names leave by different egress names. */
  ghost predicate EgressByName(targets: seq<Target>) {
    forall t, u :: t in targets && u in targets && t.name != u.name && EgressHost(t).Some? && EgressHost(u).Some? ==>
      EgressName(EgressHost(t).value) != EgressName(EgressHost(u).value)
  }

  /** No later target of the list has the same name. */
  ghost predicate LastOfName(targets: seq<Target>, i: int) {
    0 <= i < |targets| && forall j :: i < j < |targets| ==> targets[j].name != targets[i].name
  }

  /** Two target lists describe the same targets: the same names, and for each name the deciding
      targets agree on host and effective port. */
  ghost predicate SameTargets(servicePort: int, ts: seq<Target>, us: seq<Target>) {
    && (forall i :: LastOfName(ts, i) ==> exists j :: LastOfName(us, j) && Agree(servicePort, ts[i], us[j]))
    && (forall j :: LastOfName(us, j) ==> exists i :: LastOfName(ts, i) && Agree(servicePort, ts[i], us[j]))
  }

  predicate Agree(servicePort: int, t: Target, u: Target) {
    && t.name == u.name && EgressHost(t) == EgressHost(u)
    && EffectivePort(servicePort, t.targetPort) == EffectivePort(servicePort, u.targetPort)
  }

  /** A name is reached at one host throughout the list. */
  ghost predicate HostByName(targets: seq<Target>) {
    forall t, u :: t in targets && u in targets && t.name == u.name ==> EgressHost(t) == EgressHost(u)
  }

  /** Under both hypotheses the target that decides an egress name is the last of its own name. */
  lemma DecidersAreLast(targets: seq<Target>, i: int, key: string)
    requires EgressByName(targets) && HostByName(targets) && 0 <= i < |targets|
    requires EgressHost(targets[i]).Some? && EgressName(EgressHost(targets[i]).value) == key
    ensures Decides(targets, i, key) <==> LastOfName(targets, i)
  {
    forall j | i < j < |targets|
      ensures targets[j].name == targets[i].name <==>
              EgressHost(targets[j]).Some? && EgressName(EgressHost(targets[j]).value) == key
    {
      assert targets[i] in targets && targets[j] in targets;
    }
  }

  lemma SameTargetsSameEgress(servicePort: int, ts: seq<Target>, us: seq<Target>)
    requires EgressByName(ts) && HostByName(ts) && EgressByName(us) && HostByName(us)
    requires SameTargets(servicePort, ts, us)
    ensures Egresses(servicePort, ts) == Egresses(servicePort, us)
  {
    forall key ensures key in Egresses(servicePort, ts) ==>
        key in Egresses(servicePort, us) && Egresses(servicePort, us)[key] == Egresses(servicePort, ts)[key]
    {
      EgressCarriesOver(servicePort, ts, us, key);
    }
    forall key ensures key in Egresses(servicePort, us) ==> key in Egresses(servicePort, ts) {
      EgressCarriesOver(servicePort, us, ts, key);
    }
  }

  lemma EgressCarriesOver(servicePort: int, ts: seq<Target>, us: seq<Target>, key: string)
    requires EgressByName(ts) && HostByName(ts) && EgressByName(us) && HostByName(us)
    requires forall i :: LastOfName(ts, i) ==>
      exists j :: LastOfName(us, j) && (Agree(servicePort, ts[i], us[j]) || Agree(servicePort, us[j], ts[i]))
    ensures key in Egresses(servicePort, ts) ==>
        key in Egresses(servicePort, us) && Egresses(servicePort, us)[key] == Egresses(servicePort, ts)[key]
  {
    EgressDecided(servicePort, ts, key);
    EgressDecided(servicePort, us, key);
    if key in Egresses(servicePort, ts) {
      var i :| Decides(ts, i, key);
      DecidersAreLast(ts, i, key);
      var j :| LastOfName(us, j) && (Agree(servicePort, ts[i], us[j]) || Agree(servicePort, us[j], ts[i]));
      DecidersAreLast(us, j, key);
    }
  }
}
