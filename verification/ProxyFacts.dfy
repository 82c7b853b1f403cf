/** What a proxy's configuration says, field by field, in the definition's own terms. */
module ProxyFacts {
  import opened Types
  import opened Qdr
  import opened ProxyConfig

  // ---------------------------------------------------------------- decimal notation

  predicate Digits(text: string) {
    forall i :: 0 <= i < |text| ==> '0' <= text[i] <= '9'
  }

  /** The number that a string of digits stands for, the most significant digit first. */
  function NumberOf(digits: string): int
    requires Digits(digits)
  {
    if digits == "" then 0
    else 10 * NumberOf(digits[..|digits| - 1]) + (digits[|digits| - 1] as int - '0' as int)
  }

  /** Plain decimal notation without a leading zero. */
  predicate Decimal(text: string, n: int) {
    if n < 0 then text != "" && text[0] == '-' && Notation(text[1..], -n) else Notation(text, n)
  }

  predicate Notation(text: string, n: int) {
    text != "" && Digits(text) && NumberOf(text) == n && (text[0] == '0' ==> text == "0")
  }

  lemma {:induction false} ItoaIsNotation(n: nat)
    ensures Notation(Itoa(n), n)
  {
    DigitsInOrder(n % 10);
    if n >= 10 {
      ItoaIsNotation(n / 10);
      OneMoreDigit(Itoa(n / 10), n / 10, "0123456789"[n % 10], n % 10);
    } else {
      OneDigit("0123456789"[n], n);
    }
  }

  lemma DigitsInOrder(d: int)
    requires 0 <= d < 10
    ensures '0' <= "0123456789"[d] <= '9' && "0123456789"[d] as int - '0' as int == d
  {
  }

  lemma OneDigit(digit: char, d: int)
    requires '0' <= digit <= '9' && digit as int - '0' as int == d
    ensures Notation([digit], d)
  {
    assert [digit][..0] == "";
  }

  lemma OneMoreDigit(front: string, m: nat, digit: char, d: int)
    requires Notation(front, m) && m > 0
    requires '0' <= digit <= '9' && digit as int - '0' as int == d
    ensures Notation(front + [digit], 10 * m + d)
  {
    var text := front + [digit];
    assert text[..|text| - 1] == front && text[0] == front[0];
    assert "0"[..0] == "" && NumberOf("0") == 0;
  }

  lemma {:induction false} ItoaIsDecimal(n: int)
    ensures Decimal(Itoa(n), n)
  {
    if n < 0 {
      ItoaIsNotation(-n);
      ItoaOfNegative(n);
      SignedNotation(Itoa(-n), -n);
    } else {
      ItoaIsNotation(n);
    }
  }

  lemma {:induction false} ItoaOfNegative(n: int)
    requires n < 0
    ensures Itoa(n) == "-" + Itoa(-n)
  {
  }

  lemma SignedNotation(text: string, n: int)
    requires n > 0 && Notation(text, n)
    ensures Decimal("-" + text, -n)
  {
    assert ("-" + text)[1..] == text;
  }

  /** A number has one notation, so a port's text is determined by its value. */
  lemma {:induction false} OneNotation(text: string, text': string, n: nat)
    requires Notation(text, n) && Notation(text', n)
    ensures text == text'
    decreases n
  {
    NotationSteps(text, n);
    NotationSteps(text', n);
    if n >= 10 {
      OneNotation(text[..|text| - 1], text'[..|text'| - 1], n / 10);
      assert text == text[..|text| - 1] + [text[|text| - 1]];
      assert text' == text'[..|text'| - 1] + [text'[|text'| - 1]];
    }
  }

  lemma NotationSteps(text: string, n: nat)
    requires Notation(text, n)
    ensures text[|text| - 1] as int - '0' as int == n % 10
    ensures if n >= 10 then |text| > 1 && Notation(text[..|text| - 1], n / 10) else |text| == 1
  {
    var front, d := text[..|text| - 1], text[|text| - 1] as int - '0' as int;
    FrontNotation(text, n);
    TensAndOnes(n, NumberOf(front), d);
  }

  lemma TensAndOnes(n: int, tens: int, ones: int)
    requires n == 10 * tens + ones && 0 <= ones < 10
    ensures n / 10 == tens && n % 10 == ones
  {
  }

  lemma FrontNotation(text: string, n: nat)
    requires Notation(text, n)
    ensures var front := text[..|text| - 1];
      && n == 10 * NumberOf(front) + (text[|text| - 1] as int - '0' as int)
      && (if |text| > 1 then NumberOf(front) >= 1 && Notation(front, NumberOf(front)) else NumberOf(front) == 0)
  {
    var front := text[..|text| - 1];
    if |text| > 1 {
      assert front[0] == text[0] && text != "0";
      LeadingDigit(front);
    } else {
      assert front == "";
    }
  }

  lemma {:induction false} LeadingDigit(digits: string)
    requires Digits(digits) && digits != "" && digits[0] != '0'
    ensures NumberOf(digits) >= 1
  {
    if |digits| > 1 {
      LeadingDigit(digits[..|digits| - 1]);
    } else {
      assert digits[..0] == "";
    }
  }

  // ---------------------------------------------------------------- hosts

  /** The part of a host service's name before its address. */
  predicate HostPart(name: string, host: string) {
    && host <= name && !(':' in host)
    && (|host| == |name| || name[|host|] == ':')
  }

  lemma {:induction false} BeforeColonIsHostPart(name: string)
    ensures HostPart(name, BeforeColon(name))
  {
    if name != "" && name[0] != ':' {
      BeforeColonIsHostPart(name[1..]);
      assert name == [name[0]] + name[1..];
    }
  }

  /** The target is of a kind that a proxy can connect to, and this is where. */
  ghost predicate ReachedAt(t: Target, host: string) {
    || (t.selector == "internal.skupper.io/container" && host == t.name)
    || (t.selector == "internal.skupper.io/host-service" && HostPart(t.name, host))
  }

  lemma HostIsWhereReached(t: Target, host: string)
    ensures EgressHost(t) == Some(host) <==> ReachedAt(t, host)
  {
    BeforeColonIsHostPart(t.name);
    if HostPart(t.name, host) {
      OneHostPart(t.name, host);
    }
  }

  lemma {:induction false} OneHostPart(name: string, host: string)
    requires HostPart(name, host)
    ensures host == BeforeColon(name)
  {
    if name != "" && name[0] != ':' {
      assert host != "" && host == [name[0]] + host[1..];
      assert forall i :: 0 <= i < |host[1..]| ==> host[1..][i] in host;
      OneHostPart(name[1..], host[1..]);
    }
  }

  // ---------------------------------------------------------------- what every proxy has

  /** An edge router of the site, linked to the site's router, with a local listener. */
  lemma EveryProxySays(def: ServiceInterface, siteId: string)
    ensures var c := ProxyConfigOf(def, siteId);
      && c.metadata.id == "$HOSTNAME" && c.metadata.mode == "edge" && c.metadata.metadata == siteId
      && c.addresses == map[]
      && c.sslProfiles.Keys == {"skupper-internal"} && ProfileSays(c.sslProfiles["skupper-internal"])
      && c.connectors.Keys == {"uplink"} && UplinkSays(c.connectors["uplink"])
      && c.listeners.Keys == {"amqp"} && AmqpSays(c.listeners["amqp"])
  {
    InternalProfile();
    UplinkIsTheRouter();
  }

  lemma InternalProfile()
    ensures ProfileSays(RouterProfile(SslProfile.SslProfile("skupper-internal", "", "", "")))
  {
  }

  lemma UplinkIsTheRouter()
    ensures UplinkSays(UplinkConnector())
  {
    ItoaIsDecimal(45671);
  }

  predicate ProfileSays(p: SslProfile) {
    && p.name == "skupper-internal"
    && p.certFile == "/etc/qpid-dispatch-certs/" + p.name + "/tls.crt"
    && p.privateKeyFile == "/etc/qpid-dispatch-certs/" + p.name + "/tls.key"
    && p.caCertFile == "/etc/qpid-dispatch-certs/" + p.name + "/ca.crt"
  }

  predicate UplinkSays(c: Connector) {
    && c.name == "uplink" && c.role == "edge" && c.host == "skupper-router" && Decimal(c.port, 45671)
    && c.sslProfile == "skupper-internal"
    && !c.routeContainer && c.cost == 0 && !c.verifyHostname && c.linkCapacity == 0
  }

  predicate AmqpSays(l: Listener) {
    && l.name == "amqp" && l.host == "localhost" && l.port == 5672
    && l.role == "" && l.sslProfile == "" && l.saslMechanisms == "" && l.httpRootDir == ""
    && !l.routeContainer && !l.http && l.cost == 0 && !l.authenticatePeer && l.linkCapacity == 0
    && !l.websockets && !l.healthz && !l.metrics
  }

  // ---------------------------------------------------------------- endpoints

  predicate TcpSays(e: TcpEndpoint, name: string, host: string, port: int, def: ServiceInterface, siteId: string) {
    && e.name == name && e.host == host && Decimal(e.port, port)
    && e.address == def.address && e.siteId == siteId
  }

  predicate HttpSays(e: HttpEndpoint, name: string, host: string, port: int, def: ServiceInterface, siteId: string) {
    && e.name == name && e.host == host && Decimal(e.port, port)
    && e.address == def.address && e.siteId == siteId
    && e.protocolVersion == (if def.protocol == "http2" then "HTTP/2.0" else "")
    && e.aggregation == "" && !e.eventChannel && e.hostOverride == ""
  }

  /** The one way in. */
  ghost predicate IngressSays(b: BridgeConfig, def: ServiceInterface, siteId: string) {
    && b.tcpListeners.Keys == (if def.protocol == "tcp" then {"ingress"} else {})
    && b.httpListeners.Keys == (if def.protocol == "http" || def.protocol == "http2" then {"ingress"} else {})
    && (def.protocol == "tcp" ==> TcpSays(b.tcpListeners["ingress"], "ingress", "0.0.0.0", def.port, def, siteId))
    && (def.protocol == "http" || def.protocol == "http2" ==>
          HttpSays(b.httpListeners["ingress"], "ingress", if def.origin == "" then def.address else "0.0.0.0",
                   def.port, def, siteId))
  }

  lemma ProxyListensAt(def: ServiceInterface, siteId: string)
    ensures IngressSays(ProxyConfigOf(def, siteId).bridges, def, siteId)
  {
    ItoaIsDecimal(def.port);
    EgressOnlyWhereDefined(def, siteId);
  }

  /** The connector to a host and port, in the section of the service's protocol. */
  ghost predicate ConnectorSays(b: BridgeConfig, def: ServiceInterface, siteId: string, host: string, port: int) {
    var name := "egress-" + host;
    && (def.protocol == "tcp" ==>
          name in b.tcpConnectors && TcpSays(b.tcpConnectors[name], name, host, port, def, siteId))
    && (def.protocol == "http" || def.protocol == "http2" ==>
          name in b.httpConnectors && HttpSays(b.httpConnectors[name], name, host, port, def, siteId))
  }

  /** The last target that is reached at the host. */
  ghost predicate LastReachedAt(targets: seq<Target>, i: int, host: string) {
    && 0 <= i < |targets| && ReachedAt(targets[i], host)
    && forall j :: i < j < |targets| ==> !ReachedAt(targets[j], host)
  }

  function PortOf(def: ServiceInterface, t: Target): int {
    if t.targetPort != 0 then t.targetPort else def.port
  }

  /** A learned service's proxy connects nowhere. The proxy of a service without an origin has, for each
      host that a target is reached at, the connector to it, at the port of the last such target or
      else the service's, and no other. */
  lemma ProxyConnectsTo(def: ServiceInterface, siteId: string)
    ensures var b := ProxyConfigOf(def, siteId).bridges;
      && (def.protocol != "tcp" ==> b.tcpConnectors == map[])
      && (def.protocol != "http" && def.protocol != "http2" ==> b.httpConnectors == map[])
      && (def.origin != "" ==> b.tcpConnectors == map[] && b.httpConnectors == map[])
    ensures var b := ProxyConfigOf(def, siteId).bridges;
      def.origin == "" ==>
        && (forall i, host :: LastReachedAt(def.targets, i, host) ==>
              ConnectorSays(b, def, siteId, host, PortOf(def, def.targets[i])))
        && (forall name :: name in b.tcpConnectors.Keys + b.httpConnectors.Keys ==>
              exists i, host :: LastReachedAt(def.targets, i, host) && name == "egress-" + host)
  {
    EgressOnlyWhereDefined(def, siteId);
    if def.origin == "" {
      var b := ProxyConfigOf(def, siteId).bridges;
      forall i, host | LastReachedAt(def.targets, i, host)
        ensures ConnectorSays(b, def, siteId, host, PortOf(def, def.targets[i]))
      {
        ConnectorIsThere(def, siteId, i, host);
      }
      forall name | name in b.tcpConnectors.Keys + b.httpConnectors.Keys
        ensures exists i, host :: LastReachedAt(def.targets, i, host) && name == "egress-" + host
      {
        ConnectorIsForTarget(def, name);
      }
    }
  }

  lemma ConnectorIsThere(def: ServiceInterface, siteId: string, i: int, host: string)
    requires def.origin == "" && LastReachedAt(def.targets, i, host)
    ensures ConnectorSays(ProxyConfigOf(def, siteId).bridges, def, siteId, host, PortOf(def, def.targets[i]))
  {
    LastDecides(def.targets, i, host);
    EgressDecided(def.port, def.targets, "egress-" + host);
    HostIsWhereReached(def.targets[i], host);
    ItoaIsDecimal(PortOf(def, def.targets[i]));
    assert Egresses(def.port, def.targets)["egress-" + host] == Egress(host, PortOf(def, def.targets[i]));
  }

  lemma ConnectorIsForTarget(def: ServiceInterface, name: string)
    requires name in Egresses(def.port, def.targets)
    ensures exists i, host :: LastReachedAt(def.targets, i, host) && name == "egress-" + host
  {
    EgressDecided(def.port, def.targets, name);
    var i :| Decides(def.targets, i, name);
    LastDecides(def.targets, i, EgressHost(def.targets[i]).value);
  }

  lemma LastDecides(targets: seq<Target>, i: int, host: string)
    ensures Decides(targets, i, "egress-" + host) <==> LastReachedAt(targets, i, host)
  {
    forall j | 0 <= j < |targets|
      ensures EgressHost(targets[j]).Some? && EgressName(EgressHost(targets[j]).value) == "egress-" + host <==>
              ReachedAt(targets[j], host)
    {
      HostIsWhereReached(targets[j], host);
      if EgressHost(targets[j]).Some? {
        SameEgressName(EgressHost(targets[j]).value, host);
      }
    }
  }

  lemma SameEgressName(host: string, host': string)
    ensures EgressName(host) == EgressName(host') <==> host == host'
  {
    assert EgressName(host)[7..] == host;
    assert EgressName(host')[7..] == host';
  }
}
