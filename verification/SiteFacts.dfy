/** What a site's own router configuration says, field by field: as first written, after a connector
    was created, and after one was removed. */
module SiteFacts {
  import opened Types
  import opened Json
  import opened Qdr
  import opened Codec
  import opened Connectors
  import opened ProxyFacts

  // ---------------------------------------------------------------- connectors

  function TokenValue(secret: map<string, string>, key: string): string {
    if key in secret then secret[key] else ""
  }

  /** A connection to the site of the token, as a router of the mode makes it. */
  predicate LinkSays(c: Connector, name: string, cost: int32, mode: string, secret: map<string, string>) {
    && c.name == name && c.cost == cost && c.role == mode
    && c.host == TokenValue(secret, mode + "-host") && c.port == TokenValue(secret, mode + "-port")
    && c.sslProfile == name + "-profile"
    && !c.routeContainer && !c.verifyHostname && c.linkCapacity == 0
  }

  predicate LinkProfileSays(p: SslProfile, name: string) {
    && p.name == name + "-profile"
    && p.certFile == "/etc/qpid-dispatch/connections/" + name + "/tls.crt"
    && p.privateKeyFile == "/etc/qpid-dispatch/connections/" + name + "/tls.key"
    && p.caCertFile == "/etc/qpid-dispatch/connections/" + name + "/ca.crt"
  }

  /** Two configurations agree but for one connector and its profile. */
  predicate AgreeBut(c: Config, d: Config, name: string) {
    && d.metadata == c.metadata && d.listeners == c.listeners && d.addresses == c.addresses && d.bridges == c.bridges
    && d.connectors - {name} == c.connectors - {name}
    && d.sslProfiles - {name + "-profile"} == c.sslProfiles - {name + "-profile"}
  }

  /** A successful create adds to the file one connector, to the token's site, and its profile. */
  lemma CreateSays(s: Store, name: string, cost: int32, secret: map<string, string>, s': Store)
    requires Created(s, name, cost, s') && WritesToken(s'.connections[name], secret)
    ensures name !in s.connections && s'.connections - {name} == s.connections
    ensures Unmarshalled(s.config).Ok? && Unmarshalled(s'.config).Ok?
    ensures var c, d := Unmarshalled(s.config).value, Unmarshalled(s'.config).value;
      && AgreeBut(c, d, name) && name in d.connectors && name + "-profile" in d.sslProfiles
      && LinkSays(d.connectors[name], name, cost, if c.metadata.mode == "edge" then "edge" else "inter-router", secret)
      && LinkProfileSays(d.sslProfiles[name + "-profile"], name)
  {
    var c, files := Unmarshalled(s.config).value, s'.connections[name];
    CreatedReadsBack(s, name, cost, s');
    ConnectedSays(c, name, cost, files, secret);
    RemoveAdded(s.connections, name, files);
  }

  lemma ConnectedSays(c: Config, name: string, cost: int32, files: map<string, string>, secret: map<string, string>)
    requires WritesToken(files, secret)
    ensures var d := Connected(c, name, cost, files);
      && AgreeBut(c, d, name) && name in d.connectors && name + "-profile" in d.sslProfiles
      && LinkSays(d.connectors[name], name, cost, if c.metadata.mode == "edge" then "edge" else "inter-router", secret)
      && LinkProfileSays(d.sslProfiles[name + "-profile"], name)
  {
    var mode := if c.metadata.mode == "edge" then "edge" else "inter-router";
    ConnectedAddsOnlyTheConnector(c, name, cost, files);
    TokenIsOnFile(files, secret, mode + "-host");
    TokenIsOnFile(files, secret, mode + "-port");
    assert FileContent(files, mode + "-host") == TokenValue(secret, mode + "-host");
    assert FileContent(files, mode + "-port") == TokenValue(secret, mode + "-port");
  }

  lemma TokenIsOnFile(files: map<string, string>, secret: map<string, string>, key: string)
    requires WritesToken(files, secret) && key != "" && key[|key| - 1] == 't'
    ensures FileContent(files, key) == TokenValue(secret, key)
  {
    assert TOKEN_GENERATED_BY[|TOKEN_GENERATED_BY| - 1] == 'y' && "generated-by"[11] == 'y';
    if key in secret {
      TokenFile(files, secret, key);
    }
  }

  /** A remove takes the connector, its profile and its directory away, or changes nothing. */
  lemma RemoveSays(s: Store, name: string, s': Store)
    requires Removed(s, name, s')
    ensures Unmarshalled(s.config).Ok? && Unmarshalled(s'.config).Ok?
    ensures var c, d := Unmarshalled(s.config).value, Unmarshalled(s'.config).value;
      if name in c.connectors
      then
        && AgreeBut(c, d, name) && name !in d.connectors && name + "-profile" !in d.sslProfiles
        && s'.connections == s.connections - {name}
      else s' == s
  {
    if name in Unmarshalled(s.config).value.connectors {
      RemovedReadsBack(s, name, s');
    }
  }

  // ---------------------------------------------------------------- defaults

  /** A profile that names any file is filed as it is, and one without files with those of a directory:
      the router's by the profile's name, a connection's by the connection's. */
  lemma DefaultFiles(p: SslProfile, name: string)
    ensures p.certFile != "" || p.caCertFile != "" || p.privateKeyFile != "" ==>
              RouterProfile(p) == p && ConnectionProfile(p) == p
    ensures p == SslProfile.SslProfile(name, "", "", "") ==> RouterProfileSays(RouterProfile(p), name)
    ensures p == SslProfile.SslProfile(name + "-profile", "", "", "") ==> LinkProfileSays(ConnectionProfile(p), name)
  {
    TrimmedProfileName(name);
  }

  /** A listener keeps its name; without one it is called by its host and port. */
  lemma ListenerName(l: Listener)
    ensures NamedListener(l) == l.(name := NamedListener(l).name)
    ensures l.name != "" ==> NamedListener(l).name == l.name
    ensures l.name == "" ==>
              exists port :: Decimal(port, l.port) && NamedListener(l).name == l.host + "@" + port
  {
    ItoaIsDecimal(l.port);
  }

  // ---------------------------------------------------------------- the first configuration

  predicate RouterProfileSays(p: SslProfile, name: string) {
    && p.name == name
    && p.certFile == "/etc/qpid-dispatch-certs/" + name + "/tls.crt"
    && p.privateKeyFile == "/etc/qpid-dispatch-certs/" + name + "/tls.key"
    && p.caCertFile == "/etc/qpid-dispatch-certs/" + name + "/ca.crt"
  }

  /** Fields that no listener of a site sets. */
  predicate PlainFields(l: Listener) {
    !l.routeContainer && l.cost == 0 && l.linkCapacity == 0 && !l.websockets
  }

  predicate HealthSays(l: Listener) {
    && l.role == "normal" && l.host == "0.0.0.0" && l.port == 9090 && l.http && l.httpRootDir == "disabled"
    && l.healthz && l.metrics && l.sslProfile == "" && l.saslMechanisms == "" && !l.authenticatePeer && PlainFields(l)
  }

  predicate OpenSays(l: Listener, host: string, port: int, http: bool, authenticated: bool) {
    && l.role == "" && l.host == host && l.port == port && l.http == http && l.authenticatePeer == authenticated
    && l.sslProfile == "" && l.saslMechanisms == "" && l.httpRootDir == "" && !l.healthz && !l.metrics && PlainFields(l)
  }

  predicate SecureSays(l: Listener, role: string, port: int, profile: string) {
    && l.role == role && l.host == "0.0.0.0" && l.port == port
    && l.sslProfile == profile && l.saslMechanisms == "EXTERNAL" && l.authenticatePeer
    && !l.http && l.httpRootDir == "" && !l.healthz && !l.metrics && PlainFields(l)
  }

  predicate ConsoleSays(listeners: map<string, Listener>, console: Console) {
    match console
    case NoConsole => "console" !in listeners
    case InternalConsole => "console" in listeners && OpenSays(listeners["console"], "0.0.0.0", 8080, true, true)
    case UnsecuredConsole => "console" in listeners && OpenSays(listeners["console"], "0.0.0.0", 8080, true, false)
  }

  /** What a site of either mode has. */
  predicate CommonSays(c: Config, name: string, siteId: string, edge: bool) {
    && c.metadata.id == name + "-${HOSTNAME}" && c.metadata.metadata == siteId
    && c.metadata.mode == (if edge then "edge" else "interior")
    && c.addresses == map["mc" := Address.Address("mc", "multicast")]
    && c.connectors == map[] && c.bridges == EMPTY_BRIDGES
    && "skupper-amqps" in c.sslProfiles && RouterProfileSays(c.sslProfiles["skupper-amqps"], "skupper-amqps")
    && "amqp" in c.listeners && OpenSays(c.listeners["amqp"], "localhost", 5672, false, false)
    && "amqps" in c.listeners && SecureSays(c.listeners["amqps"], "", 5671, "skupper-amqps")
    && (exists health :: HealthName(health) && health in c.listeners && HealthSays(c.listeners[health]))
  }

  /** The unnamed listener is called by its host and port. */
  predicate HealthName(name: string) {
    |name| > 8 && name[..8] == "0.0.0.0@" && Decimal(name[8..], 9090)
  }

  /** What only an interior site has. */
  predicate InteriorSays(c: Config) {
    && "skupper-internal" in c.sslProfiles && RouterProfileSays(c.sslProfiles["skupper-internal"], "skupper-internal")
    && "interior-listener" in c.listeners
    && SecureSays(c.listeners["interior-listener"], "inter-router", 55671, "skupper-internal")
    && "edge-listener" in c.listeners
    && SecureSays(c.listeners["edge-listener"], "edge", 45671, "skupper-internal")
  }

  predicate NoInterior(c: Config) {
    && "skupper-internal" !in c.sslProfiles
    && "interior-listener" !in c.listeners && "edge-listener" !in c.listeners
  }

  lemma FirstConfigSays(name: string, siteId: string, edge: bool, console: Console)
    ensures var c := FirstConfig(name, siteId, edge, console);
      && CommonSays(c, name, siteId, edge) && ConsoleSays(c.listeners, console)
      && (if edge then NoInterior(c) else InteriorSays(c))
      && |c.listeners| == 3 + (if console.NoConsole? then 0 else 1) + (if edge then 0 else 2)
      && |c.sslProfiles| == if edge then 1 else 2
  {
    var c := CommonConfig(name, siteId, edge);
    CommonConfigSays(name, siteId, edge);
    ConsoleAdds(c, console, name, siteId, edge);
    if !edge {
      InteriorAdds(WithConsole(c, console), console, name, siteId);
    }
  }

  predicate Bare(c: Config) {
    NoInterior(c) && "console" !in c.listeners && |c.listeners| == 3 && |c.sslProfiles| == 1
  }

  lemma CommonConfigSays(name: string, siteId: string, edge: bool)
    ensures var c := CommonConfig(name, siteId, edge);
      CommonSays(c, name, siteId, edge) && Bare(c)
  {
    HealthIsNamed();
    CommonListeners(name, siteId, edge);
    CommonProfile(name, siteId, edge);
    CommonRest(name, siteId, edge);
    CommonAltogether(CommonConfig(name, siteId, edge), name, siteId, edge, HEALTH);
  }

  const HEALTH := "0.0.0.0" + "@" + Itoa(9090)

  predicate RestSays(c: Config, name: string, siteId: string, edge: bool) {
    && c.metadata.id == name + "-${HOSTNAME}" && c.metadata.metadata == siteId
    && c.metadata.mode == (if edge then "edge" else "interior")
    && c.addresses == map["mc" := Address.Address("mc", "multicast")]
    && c.connectors == map[] && c.bridges == EMPTY_BRIDGES
  }

  predicate ListenersSay(listeners: map<string, Listener>, health: string) {
    && listeners.Keys == {health, "amqp", "amqps"}
    && HealthSays(listeners[health])
    && OpenSays(listeners["amqp"], "localhost", 5672, false, false)
    && SecureSays(listeners["amqps"], "", 5671, "skupper-amqps")
  }

  predicate ProfilesSay(profiles: map<string, SslProfile>) {
    profiles.Keys == {"skupper-amqps"} && RouterProfileSays(profiles["skupper-amqps"], "skupper-amqps")
  }

  lemma CommonAltogether(c: Config, name: string, siteId: string, edge: bool, health: string)
    requires RestSays(c, name, siteId, edge) && ListenersSay(c.listeners, health) && ProfilesSay(c.sslProfiles)
    requires HealthName(health)
    requires health !in {"amqp", "amqps", "console", "interior-listener", "edge-listener"}
    ensures CommonSays(c, name, siteId, edge) && Bare(c)
  {
    assert |c.listeners| == |c.listeners.Keys| && |c.sslProfiles| == |c.sslProfiles.Keys|;
  }

  lemma CommonRest(name: string, siteId: string, edge: bool)
    ensures RestSays(CommonConfig(name, siteId, edge), name, siteId, edge)
  {
  }

  lemma CommonProfile(name: string, siteId: string, edge: bool)
    ensures ProfilesSay(CommonConfig(name, siteId, edge).sslProfiles)
  {
  }

  lemma HealthIsNamed()
    ensures HealthName(HEALTH)
    ensures HEALTH !in {"amqp", "amqps", "console", "interior-listener", "edge-listener"}
  {
    ItoaIsDecimal(9090);
    assert HEALTH[8..] == Itoa(9090) && HEALTH[0] == '0';
  }

  lemma CommonListeners(name: string, siteId: string, edge: bool)
    ensures ListenersSay(CommonConfig(name, siteId, edge).listeners, HEALTH)
  {
    HealthIsNamed();
  }

  lemma ConsoleAdds(c: Config, console: Console, name: string, siteId: string, edge: bool)
    requires CommonSays(c, name, siteId, edge) && Bare(c)
    ensures var d := WithConsole(c, console);
      && CommonSays(d, name, siteId, edge) && ConsoleSays(d.listeners, console) && NoInterior(d)
      && |d.listeners| == 3 + (if console.NoConsole? then 0 else 1) && |d.sslProfiles| == 1
  {
    var health :| HealthName(health) && health in c.listeners && HealthSays(c.listeners[health]);
    var d := WithConsole(c, console);
    assert health[0] == '0';
    assert health in d.listeners && HealthSays(d.listeners[health]);
  }

  lemma InteriorAdds(c: Config, console: Console, name: string, siteId: string)
    requires CommonSays(c, name, siteId, false) && ConsoleSays(c.listeners, console) && NoInterior(c)
    ensures var d := WithInterior(c);
      && CommonSays(d, name, siteId, false) && ConsoleSays(d.listeners, console) && InteriorSays(d)
      && |d.listeners| == |c.listeners| + 2 && |d.sslProfiles| == |c.sslProfiles| + 1
  {
    var health :| HealthName(health) && health in c.listeners && HealthSays(c.listeners[health]);
    var d := WithInterior(c);
    assert health[0] == '0';
    assert health in d.listeners && HealthSays(d.listeners[health]);
  }
}
