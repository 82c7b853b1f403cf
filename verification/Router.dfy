/** The mutable router configuration of pkg/qdr/qdr.go: its editors, marshalling, and the proxy
    configuration built by successive mutation. */
module Router {
  import opened Types
  import opened Json
  import opened Qdr
  import opened Codec
  import opened ProxyConfig

  class RouterConfig {
    var metadata: RouterMetadata
    var sslProfiles: map<string, SslProfile>
    var listeners: map<string, Listener>
    var connectors: map<string, Connector>
    var addresses: map<string, Address>
    var bridges: BridgeConfig

    ghost function Value(): Config
      reads this
    {
      Config(metadata, sslProfiles, listeners, connectors, addresses, bridges)
    }

    constructor (config: Config)
      ensures Value() == config
    {
      metadata := config.metadata;
      sslProfiles := config.sslProfiles;
      listeners := config.listeners;
      connectors := config.connectors;
      addresses := config.addresses;
      bridges := config.bridges;
    }

    predicate IsEdge()
      reads this
    {
      metadata.mode == MODE_EDGE
    }

    method AddListener(l: Listener)
      modifies this`listeners
      ensures Value() == Filed(old(Value()), Listen(NamedListener(l)))
    {
      var named := l;
      if named.name == "" {
        named := named.(name := l.host + "@" + Itoa(l.port));
      }
      listeners := listeners[named.name := named];
    }

    method AddConnector(c: Connector)
      modifies this`connectors
      ensures Value() == Filed(old(Value()), Conn(c))
    {
      connectors := connectors[c.name := c];
    }

    method RemoveConnector(name: string) returns (found: bool)
      modifies this`connectors
      ensures found <==> name in old(connectors)
      ensures Value() == old(Value()).(connectors := old(connectors) - {name})
    {
      found := name in connectors;
      if found {
        connectors := connectors - {name};
      }
    }

    method AddSslProfile(s: SslProfile)
      modifies this`sslProfiles
      ensures Value() == Filed(old(Value()), Ssl(RouterProfile(s)))
    {
      var profile := s;
      if s.certFile == "" && s.caCertFile == "" && s.privateKeyFile == "" {
        var directory := "/etc/qpid-dispatch-certs/" + s.name;
        profile := SslProfile.SslProfile(s.name, directory + "/tls.crt", directory + "/tls.key", directory + "/ca.crt");
      }
      sslProfiles := sslProfiles[profile.name := profile];
    }

    method AddConnSslProfile(s: SslProfile)
      modifies this`sslProfiles
      ensures Value() == Filed(old(Value()), Ssl(ConnectionProfile(s)))
    {
      var profile := s;
      if s.certFile == "" && s.caCertFile == "" && s.privateKeyFile == "" {
        var directory := "/etc/qpid-dispatch/connections/" + TrimSuffix(s.name, PROFILE_SUFFIX);
        profile := SslProfile.SslProfile(s.name, directory + "/tls.crt", directory + "/tls.key", directory + "/ca.crt");
      }
      sslProfiles := sslProfiles[profile.name := profile];
    }

    method RemoveConnSslProfile(name: string) returns (found: bool)
      modifies this`sslProfiles
      ensures found <==> name + PROFILE_SUFFIX in old(sslProfiles)
      ensures Value() == old(Value()).(sslProfiles := old(sslProfiles) - {name + PROFILE_SUFFIX})
    {
      var profileName := name + PROFILE_SUFFIX;
      found := profileName in sslProfiles;
      if found {
        sslProfiles := sslProfiles - {profileName};
      }
    }

    method AddAddress(a: Address)
      modifies this`addresses
      ensures Value() == Filed(old(Value()), Addr(a))
    {
      addresses := addresses[a.prefix := a];
    }

    method AddTcpConnector(e: TcpEndpoint)
      modifies this`bridges
      ensures Value() == Filed(old(Value()), TcpConn(e))
    {
      bridges := bridges.(tcpConnectors := bridges.tcpConnectors[e.name := e]);
    }

    method AddTcpListener(e: TcpEndpoint)
      modifies this`bridges
      ensures Value() == Filed(old(Value()), TcpListen(e))
    {
      bridges := bridges.(tcpListeners := bridges.tcpListeners[e.name := e]);
    }

    method AddHttpConnector(e: HttpEndpoint)
      modifies this`bridges
      ensures Value() == Filed(old(Value()), HttpConn(e))
    {
      bridges := bridges.(httpConnectors := bridges.httpConnectors[e.name := e]);
    }

    method AddHttpListener(e: HttpEndpoint)
      modifies this`bridges
      ensures Value() == Filed(old(Value()), HttpListen(e))
    {
      bridges := bridges.(httpListeners := bridges.httpListeners[e.name := e]);
    }
  }

  // ---------------------------------------------------------------- marshalling

  /** One of the loops over a section's map, in whatever order. */
  method EncodeSection(section: Section) returns (r: seq<Json>, ghost es: seq<Entity>)
    ensures r == Encoded(es) && ListsSection(es, section)
  {
    r, es := [], [];
    var todo := section.Keys;
    while todo != {}
      invariant todo <= section.Keys
      invariant r == Encoded(es)
      invariant |es| + |todo| == |section.Keys|
      invariant forall e :: e in es ==> InSection(section, e)
      invariant forall k :: k in section && k !in todo ==> section[k] in es
      decreases todo
    {
      var k :| k in todo;
      var e := section[k];
      assert InSection(section, e);
      r, es := r + [Encode(e)], es + [e];
      todo := todo - {k};
    }
    assert |section| == |section.Keys|;
  }

  lemma EncodedConcat(es: seq<Entity>, more: seq<Entity>)
    ensures Encoded(es + more) == Encoded(es) + Encoded(more)
  {
    var left, right := Encoded(es + more), Encoded(es) + Encoded(more);
    assert |left| == |right|;
    forall i | 0 <= i < |left| ensures left[i] == right[i] {
      assert left[i] == Encode((es + more)[i]);
    }
  }

  method AppendSection(elements: seq<Json>, ghost parts: seq<seq<Entity>>, ghost c: Config, section: Section)
    returns (r: seq<Json>, ghost parts': seq<seq<Entity>>)
    requires elements == Encoded(Flat(parts)) && ListsSections(parts, c)
    requires |parts| < SECTIONS && section == SectionAt(c, |parts|)
    ensures r == Encoded(Flat(parts')) && ListsSections(parts', c) && |parts'| == |parts| + 1
  {
    ghost var es;
    r, es := EncodeSection(section);
    ListsOneMore(parts, c, es);
    EncodedConcat(Flat(parts), es);
    r, parts' := elements + r, parts + [es];
  }

  method MarshalBridges(elements: seq<Json>, ghost parts: seq<seq<Entity>>, ghost c: Config, b: BridgeConfig)
    returns (r: seq<Json>, ghost parts': seq<seq<Entity>>)
    requires elements == Encoded(Flat(parts)) && ListsSections(parts, c) && |parts| == 5 && b == c.bridges
    ensures r == Encoded(Flat(parts')) && ListsSections(parts', c) && |parts'| == SECTIONS
  {
    r, parts' := AppendSection(elements, parts, c, TcpConnSection(b));
    r, parts' := AppendSection(r, parts', c, TcpListenSection(b));
    r, parts' := AppendSection(r, parts', c, HttpConnSection(b));
    r, parts' := AppendSection(r, parts', c, HttpListenSection(b));
  }

  method MarshalSections(elements: seq<Json>, ghost parts: seq<seq<Entity>>, config: RouterConfig)
    returns (r: seq<Json>, ghost parts': seq<seq<Entity>>)
    requires elements == Encoded(Flat(parts)) && ListsSections(parts, config.Value()) && |parts| == 1
    ensures r == Encoded(Flat(parts')) && ListsSections(parts', config.Value()) && |parts'| == 5
  {
    ghost var c := config.Value();
    var ssl := map k | k in config.sslProfiles :: Ssl(config.sslProfiles[k]);
    var conn := map k | k in config.connectors :: Conn(config.connectors[k]);
    var listen := map k | k in config.listeners :: Listen(config.listeners[k]);
    var addr := map k | k in config.addresses :: Addr(config.addresses[k]);
    r, parts' := AppendSection(elements, parts, c, ssl);
    r, parts' := AppendSection(r, parts', c, conn);
    r, parts' := AppendSection(r, parts', c, listen);
    r, parts' := AppendSection(r, parts', c, addr);
  }

  method MarshalRouterConfig(config: RouterConfig) returns (json: Json)
    ensures Marshals(json, config.Value())
  {
    ghost var c := config.Value();
    ghost var parts := [[Entity.Router(config.metadata)]];
    var elements := [Encode(Entity.Router(config.metadata))];
    FirstSectionListed(c);
    elements, parts := MarshalSections(elements, parts, config);
    elements, parts := MarshalBridges(elements, parts, c, config.bridges);
    json := Array(elements);
    assert MarshalsAs(elements, parts, c);
  }

  lemma FirstSectionListed(c: Config)
    ensures ListsSections([[Entity.Router(c.metadata)]], c)
    ensures Flat([[Entity.Router(c.metadata)]]) == [Entity.Router(c.metadata)]
  {
    var parts := [[Entity.Router(c.metadata)]];
    assert SectionAt(c, 0)[""] == parts[0][0] && InSection(SectionAt(c, 0), parts[0][0]);
    assert ListsAt(parts, c, 0) && parts[..0] == [];
  }

  // ---------------------------------------------------------------- proxies

  method AddTcpTargets(config: RouterConfig, definition: ServiceInterface, siteId: string)
    requires config.bridges.tcpConnectors == map[]
    modifies config`bridges
    ensures var b, egresses := old(config.bridges), Egresses(definition.port, definition.targets);
      config.bridges == b.(tcpConnectors := TcpConnectors(definition, siteId, egresses))
  {
    ghost var b := config.bridges;
    for i := 0 to |definition.targets|
      invariant var egresses := Egresses(definition.port, definition.targets[..i]);
        config.bridges == b.(tcpConnectors := TcpConnectors(definition, siteId, egresses))
    {
      var t := definition.targets[i];
      ghost var egresses := Egresses(definition.port, definition.targets[..i]);
      assert definition.targets[..i + 1][..i] == definition.targets[..i];
      var tport := definition.port;
      if t.targetPort != 0 {
        tport := t.targetPort;
      }
      if t.selector == CONTAINER_SELECTOR {
        OneMoreConnector(definition, siteId, "", egresses, EgressName(t.name), Egress(t.name, tport));
        config.AddTcpConnector(TcpEndpoint("egress-" + t.name, t.name, Itoa(tport), definition.address, siteId));
      } else if t.selector == HOST_SELECTOR {
        var host := BeforeColon(t.name);
        OneMoreConnector(definition, siteId, "", egresses, EgressName(host), Egress(host, tport));
        config.AddTcpConnector(TcpEndpoint("egress-" + host, host, Itoa(tport), definition.address, siteId));
      }
    }
    assert definition.targets[..|definition.targets|] == definition.targets;
  }

  method AddHttpTargets(config: RouterConfig, definition: ServiceInterface, siteId: string, version: string)
    requires config.bridges.httpConnectors == map[]
    modifies config`bridges
    ensures var b, egresses := old(config.bridges), Egresses(definition.port, definition.targets);
      config.bridges == b.(httpConnectors := HttpConnectors(definition, siteId, version, egresses))
  {
    ghost var b := config.bridges;
    for i := 0 to |definition.targets|
      invariant var egresses := Egresses(definition.port, definition.targets[..i]);
        config.bridges == b.(httpConnectors := HttpConnectors(definition, siteId, version, egresses))
    {
      var t := definition.targets[i];
      ghost var egresses := Egresses(definition.port, definition.targets[..i]);
      assert definition.targets[..i + 1][..i] == definition.targets[..i];
      var tport := definition.port;
      if t.targetPort != 0 {
        tport := t.targetPort;
      }
      if t.selector == CONTAINER_SELECTOR {
        OneMoreConnector(definition, siteId, version, egresses, EgressName(t.name), Egress(t.name, tport));
        config.AddHttpConnector(HttpEndpoint("egress-" + t.name, t.name, Itoa(tport), definition.address, siteId,
                                             version, "", false, ""));
      } else if t.selector == HOST_SELECTOR {
        var host := BeforeColon(t.name);
        OneMoreConnector(definition, siteId, version, egresses, EgressName(host), Egress(host, tport));
        config.AddHttpConnector(HttpEndpoint("egress-" + host, host, Itoa(tport), definition.address, siteId,
                                             version, "", false, ""));
      }
    }
    assert definition.targets[..|definition.targets|] == definition.targets;
  }

  method NewProxyConfig(siteId: string) returns (config: RouterConfig)
    ensures fresh(config) && config.Value() == ProxyBase(siteId)
  {
    config := new RouterConfig(InitialConfig("$HOSTNAME", siteId, true));
    config.AddSslProfile(SslProfile.SslProfile(INTER_ROUTER_PROFILE, "", "", ""));
    config.AddConnector(Connector("uplink", ROLE_EDGE, "skupper-router", Itoa(EDGE_LISTENER_PORT), false, 0, false,
                                  INTER_ROUTER_PROFILE, 0));
    config.AddListener(Listener("amqp", "", "localhost", 5672, false, false, 0, "", "", false, 0, "",
                                false, false, false));
  }

  method BuildProxyConfig(definition: ServiceInterface, siteId: string) returns (config: RouterConfig)
    ensures fresh(config) && config.Value() == ProxyConfigOf(definition, siteId)
  {
    config := NewProxyConfig(siteId);
    var port := Itoa(definition.port);
    if definition.protocol == "tcp" {
      config.AddTcpListener(TcpEndpoint("ingress", "0.0.0.0", port, definition.address, siteId));
      if definition.origin == "" {
        AddTcpTargets(config, definition, siteId);
      }
    } else if definition.protocol == "http" || definition.protocol == "http2" {
      var version := if definition.protocol == "http2" then "HTTP/2.0" else "";
      var host := if definition.origin == "" then definition.address else "0.0.0.0";
      config.AddHttpListener(HttpEndpoint("ingress", host, port, definition.address, siteId, version, "", false, ""));
      if definition.origin == "" {
        AddHttpTargets(config, definition, siteId, version);
      }
    }
  }

  method GetRouterConfigForProxy(definition: ServiceInterface, siteId: string) returns (json: Json)
    ensures Marshals(json, ProxyConfigOf(definition, siteId))
  {
    var config := BuildProxyConfig(definition, siteId);
    json := MarshalRouterConfig(config);
  }
}
