/** The entities of the router configuration (pkg/qdr/qdr.go): their fields and defaults, and the
    typed element that each is written as and read back from. */
module Qdr {
  import opened Types
  import opened Json

  datatype RouterMetadata = RouterMetadata(id: string, mode: string, metadata: string)

  datatype SslProfile = SslProfile(name: string, certFile: string, privateKeyFile: string, caCertFile: string)

  datatype Listener = Listener(
    name: string, role: string, host: string, port: int32, routeContainer: bool, http: bool, cost: int32,
    sslProfile: string, saslMechanisms: string, authenticatePeer: bool, linkCapacity: int32,
    httpRootDir: string, websockets: bool, healthz: bool, metrics: bool)

  datatype Connector = Connector(
    name: string, role: string, host: string, port: string, routeContainer: bool, cost: int32,
    verifyHostname: bool, sslProfile: string, linkCapacity: int32)

  datatype Address = Address(prefix: string, distribution: string)

  datatype TcpEndpoint = TcpEndpoint(name: string, host: string, port: string, address: string, siteId: string)

  datatype HttpEndpoint = HttpEndpoint(
    name: string, host: string, port: string, address: string, siteId: string, protocolVersion: string,
    aggregation: string, eventChannel: bool, hostOverride: string)

  datatype BridgeConfig = BridgeConfig(
    tcpListeners: map<string, TcpEndpoint>,
    tcpConnectors: map<string, TcpEndpoint>,
    httpListeners: map<string, HttpEndpoint>,
    httpConnectors: map<string, HttpEndpoint>)

  datatype Config = Config(
    metadata: RouterMetadata,
    sslProfiles: map<string, SslProfile>,
    listeners: map<string, Listener>,
    connectors: map<string, Connector>,
    addresses: map<string, Address>,
    bridges: BridgeConfig)

  const MODE_INTERIOR := "interior"
  const MODE_EDGE := "edge"
  const ROLE_INTER_ROUTER := "inter-router"
  const ROLE_EDGE := "edge"

  const EMPTY_BRIDGES := BridgeConfig(map[], map[], map[], map[])
  const EMPTY_CONFIG := Config(RouterMetadata("", "", ""), map[], map[], map[], map[], EMPTY_BRIDGES)

  const INTER_ROUTER_PROFILE := "skupper-internal"
  const EDGE_LISTENER_PORT := 45671

  /** Decimal notation, as strconv.Itoa. */
  function Itoa(n: int): string
    decreases n < 0, if n < 0 then -n else n
  {
    if n < 0 then "-" + Itoa(-n)
    else if n < 10 then ["0123456789"[n]]
    else Itoa(n / 10) + ["0123456789"[n % 10]]
  }

  /** What InitialConfig starts from. */
  function InitialConfig(id: string, metadata: string, edge: bool): Config {
    EMPTY_CONFIG.(metadata := RouterMetadata(id, if edge then MODE_EDGE else MODE_INTERIOR, metadata))
  }

  /** A profile without files gets the default ones in a directory. */
  function WithDefaultFiles(s: SslProfile, directory: string): SslProfile {
    if s.certFile == "" && s.caCertFile == "" && s.privateKeyFile == ""
    then s.(certFile := directory + "/tls.crt", privateKeyFile := directory + "/tls.key",
            caCertFile := directory + "/ca.crt")
    else s
  }

  const PROFILE_SUFFIX := "-profile"

  function TrimSuffix(s: string, suffix: string): string {
    if |suffix| <= |s| && s[|s| - |suffix|..] == suffix then s[..|s| - |suffix|] else s
  }

  function RouterProfile(s: SslProfile): SslProfile {
    WithDefaultFiles(s, "/etc/qpid-dispatch-certs/" + s.name)
  }

  function ConnectionProfile(s: SslProfile): SslProfile {
    WithDefaultFiles(s, "/etc/qpid-dispatch/connections/" + TrimSuffix(s.name, PROFILE_SUFFIX))
  }

  function NamedListener(l: Listener): Listener {
    if l.name == "" then l.(name := l.host + "@" + Itoa(l.port)) else l
  }

  // ---------------------------------------------------------------- elements

  /** One element of the flattened list: the entity type is the constructor. */
  datatype Entity =
    | Router(metadata: RouterMetadata)
    | Ssl(profile: SslProfile)
    | Conn(connector: Connector)
    | Listen(listener: Listener)
    | Addr(address: Address)
    | TcpConn(tcp: TcpEndpoint)
    | TcpListen(tcp: TcpEndpoint)
    | HttpConn(http: HttpEndpoint)
    | HttpListen(http: HttpEndpoint)
  {
    function Kind(): string {
      match this
      case Router(_) => "router"
      case Ssl(_) => "sslProfile"
      case Conn(_) => "connector"
      case Listen(_) => "listener"
      case Addr(_) => "address"
      case TcpConn(_) => "tcpConnector"
      case TcpListen(_) => "tcpListener"
      case HttpConn(_) => "httpConnector"
      case HttpListen(_) => "httpListener"
    }
  }

  function MetadataFields(m: RouterMetadata): Fields {
    map[Key.Id := String(m.id), Key.Mode := String(m.mode), Key.Metadata := String(m.metadata)]
  }

  function EncodeMetadata(m: RouterMetadata): Json {
    Object(Written(MetadataFields(m), {}))
  }

  function DecodeMetadata(json: Json): Result<RouterMetadata> {
    var fields :- FieldsOf(json);
    var id :- GetString(fields, Key.Id);
    var mode :- GetString(fields, Key.Mode);
    var metadata :- GetString(fields, Key.Metadata);
    Ok(RouterMetadata(id, mode, metadata))
  }

  function SslProfileFields(p: SslProfile): Fields {
    map[Key.Name := String(p.name), Key.CertFile := String(p.certFile),
        Key.PrivateKeyFile := String(p.privateKeyFile), Key.CaCertFile := String(p.caCertFile)]
  }

  function EncodeSslProfile(p: SslProfile): Json {
    Object(Written(SslProfileFields(p), {}))
  }

  function DecodeSslProfile(json: Json): Result<SslProfile> {
    var fields :- FieldsOf(json);
    var name :- GetString(fields, Key.Name);
    var certFile :- GetString(fields, Key.CertFile);
    var privateKeyFile :- GetString(fields, Key.PrivateKeyFile);
    var caCertFile :- GetString(fields, Key.CaCertFile);
    Ok(SslProfile.SslProfile(name, certFile, privateKeyFile, caCertFile))
  }

  function ListenerFields(l: Listener): Fields {
    map[Key.Name := String(l.name), Key.Role := String(l.role), Key.Host := String(l.host),
        Key.Port := Number(l.port as real), Key.RouteContainer := Bool(l.routeContainer), Key.Http := Bool(l.http),
        Key.Cost := Number(l.cost as real), Key.SslProfile := String(l.sslProfile),
        Key.SaslMechanisms := String(l.saslMechanisms), Key.AuthenticatePeer := Bool(l.authenticatePeer),
        Key.LinkCapacity := Number(l.linkCapacity as real), Key.HttpRootDir := String(l.httpRootDir),
        Key.Websockets := Bool(l.websockets), Key.Healthz := Bool(l.healthz), Key.Metrics := Bool(l.metrics)]
  }

  function EncodeListener(l: Listener): Json {
    Object(Written(ListenerFields(l), {Key.Port}))
  }

  function DecodeListener(json: Json): Result<Listener> {
    var fields :- FieldsOf(json);
    var name :- GetString(fields, Key.Name);
    var role :- GetString(fields, Key.Role);
    var host :- GetString(fields, Key.Host);
    var port :- GetInt32(fields, Key.Port);
    var routeContainer :- GetBool(fields, Key.RouteContainer);
    var http :- GetBool(fields, Key.Http);
    var cost :- GetInt32(fields, Key.Cost);
    var sslProfile :- GetString(fields, Key.SslProfile);
    var saslMechanisms :- GetString(fields, Key.SaslMechanisms);
    var authenticatePeer :- GetBool(fields, Key.AuthenticatePeer);
    var linkCapacity :- GetInt32(fields, Key.LinkCapacity);
    var httpRootDir :- GetString(fields, Key.HttpRootDir);
    var websockets :- GetBool(fields, Key.Websockets);
    var healthz :- GetBool(fields, Key.Healthz);
    var metrics :- GetBool(fields, Key.Metrics);
    Ok(Listener(name, role, host, port, routeContainer, http, cost, sslProfile, saslMechanisms,
                authenticatePeer, linkCapacity, httpRootDir, websockets, healthz, metrics))
  }

  function ConnectorFields(c: Connector): Fields {
    map[Key.Name := String(c.name), Key.Role := String(c.role), Key.Host := String(c.host), Key.Port := String(c.port),
        Key.RouteContainer := Bool(c.routeContainer), Key.Cost := Number(c.cost as real),
        Key.VerifyHostname := Bool(c.verifyHostname), Key.SslProfile := String(c.sslProfile),
        Key.LinkCapacity := Number(c.linkCapacity as real)]
  }

  function EncodeConnector(c: Connector): Json {
    Object(Written(ConnectorFields(c), {Key.Host, Key.Port}))
  }

  function DecodeConnector(json: Json): Result<Connector> {
    var fields :- FieldsOf(json);
    var name :- GetString(fields, Key.Name);
    var role :- GetString(fields, Key.Role);
    var host :- GetString(fields, Key.Host);
    var port :- GetString(fields, Key.Port);
    var routeContainer :- GetBool(fields, Key.RouteContainer);
    var cost :- GetInt32(fields, Key.Cost);
    var verifyHostname :- GetBool(fields, Key.VerifyHostname);
    var sslProfile :- GetString(fields, Key.SslProfile);
    var linkCapacity :- GetInt32(fields, Key.LinkCapacity);
    Ok(Connector(name, role, host, port, routeContainer, cost, verifyHostname, sslProfile, linkCapacity))
  }

  function AddressFields(a: Address): Fields {
    map[Key.Prefix := String(a.prefix), Key.Distribution := String(a.distribution)]
  }

  function EncodeAddress(a: Address): Json {
    Object(Written(AddressFields(a), {}))
  }

  function DecodeAddress(json: Json): Result<Address> {
    var fields :- FieldsOf(json);
    var prefix :- GetString(fields, Key.Prefix);
    var distribution :- GetString(fields, Key.Distribution);
    Ok(Address.Address(prefix, distribution))
  }

  function TcpFields(e: TcpEndpoint): Fields {
    map[Key.Name := String(e.name), Key.Host := String(e.host), Key.Port := String(e.port),
        Key.Address := String(e.address), Key.SiteId := String(e.siteId)]
  }

  function EncodeTcp(e: TcpEndpoint): Json {
    Object(Written(TcpFields(e), {}))
  }

  function DecodeTcp(json: Json): Result<TcpEndpoint> {
    var fields :- FieldsOf(json);
    var name :- GetString(fields, Key.Name);
    var host :- GetString(fields, Key.Host);
    var port :- GetString(fields, Key.Port);
    var address :- GetString(fields, Key.Address);
    var siteId :- GetString(fields, Key.SiteId);
    Ok(TcpEndpoint(name, host, port, address, siteId))
  }

  function HttpFields(e: HttpEndpoint): Fields {
    map[Key.Name := String(e.name), Key.Host := String(e.host), Key.Port := String(e.port),
        Key.Address := String(e.address), Key.SiteId := String(e.siteId),
        Key.ProtocolVersion := String(e.protocolVersion), Key.Aggregation := String(e.aggregation),
        Key.EventChannel := Bool(e.eventChannel), Key.HostOverride := String(e.hostOverride)]
  }

  function EncodeHttp(e: HttpEndpoint): Json {
    Object(Written(HttpFields(e), {}))
  }

  function DecodeHttp(json: Json): Result<HttpEndpoint> {
    var fields :- FieldsOf(json);
    var name :- GetString(fields, Key.Name);
    var host :- GetString(fields, Key.Host);
    var port :- GetString(fields, Key.Port);
    var address :- GetString(fields, Key.Address);
    var siteId :- GetString(fields, Key.SiteId);
    var protocolVersion :- GetString(fields, Key.ProtocolVersion);
    var aggregation :- GetString(fields, Key.Aggregation);
    var eventChannel :- GetBool(fields, Key.EventChannel);
    var hostOverride :- GetString(fields, Key.HostOverride);
    Ok(HttpEndpoint(name, host, port, address, siteId, protocolVersion, aggregation, eventChannel, hostOverride))
  }

  function EncodeValue(e: Entity): Json {
    match e
    case Router(metadata) => EncodeMetadata(metadata)
    case Ssl(profile) => EncodeSslProfile(profile)
    case Conn(connector) => EncodeConnector(connector)
    case Listen(listener) => EncodeListener(listener)
    case Addr(address) => EncodeAddress(address)
    case TcpConn(tcp) => EncodeTcp(tcp)
    case TcpListen(tcp) => EncodeTcp(tcp)
    case HttpConn(http) => EncodeHttp(http)
    case HttpListen(http) => EncodeHttp(http)
  }

  /** The pair of entity type and value. */
  function Encode(e: Entity): Json {
    Array([String(e.Kind()), EncodeValue(e)])
  }

  /** The entity of a typed value; a type the decoder does not know yields nothing. */
  function DecodeValue(kind: string, value: Json): Result<Option<Entity>> {
    if kind == "router" then var x :- DecodeMetadata(value); Ok(Some(Router(x)))
    else if kind == "address" then var x :- DecodeAddress(value); Ok(Some(Addr(x)))
    else if kind == "connector" then var x :- DecodeConnector(value); Ok(Some(Conn(x)))
    else if kind == "listener" then var x :- DecodeListener(value); Ok(Some(Listen(x)))
    else if kind == "sslProfile" then var x :- DecodeSslProfile(value); Ok(Some(Ssl(x)))
    else if kind == "tcpConnector" then var x :- DecodeTcp(value); Ok(Some(TcpConn(x)))
    else if kind == "tcpListener" then var x :- DecodeTcp(value); Ok(Some(TcpListen(x)))
    else if kind == "httpConnector" then var x :- DecodeHttp(value); Ok(Some(HttpConn(x)))
    else if kind == "httpListener" then var x :- DecodeHttp(value); Ok(Some(HttpListen(x)))
    else Ok(None)
  }

  function Decode(element: Json): Result<Option<Entity>> {
    if !element.Array? || |element.elements| != 2 then Err("expected array with type and value")
    else if !element.elements[0].String? then Err("expected entity type as string")
    else DecodeValue(element.elements[0].s, element.elements[1])
  }

  // ---------------------------------------------------------------- round trips of the entities

  lemma MetadataRoundTrip(m: RouterMetadata)
    ensures DecodeMetadata(EncodeMetadata(m)) == Ok(m)
  {
    var full, always: set<Key> := MetadataFields(m), {};
    ReadsString(full, always, Key.Id);
    ReadsString(full, always, Key.Mode);
    ReadsString(full, always, Key.Metadata);
  }

  lemma SslProfileRoundTrip(p: SslProfile)
    ensures DecodeSslProfile(EncodeSslProfile(p)) == Ok(p)
  {
    var full, always: set<Key> := SslProfileFields(p), {};
    ReadsString(full, always, Key.Name);
    ReadsString(full, always, Key.CertFile);
    ReadsString(full, always, Key.PrivateKeyFile);
    ReadsString(full, always, Key.CaCertFile);
  }

  lemma ListenerTexts(l: Listener)
    ensures var fields := Written(ListenerFields(l), {Key.Port});
      && GetString(fields, Key.Name) == Ok(l.name)
      && GetString(fields, Key.Role) == Ok(l.role)
      && GetString(fields, Key.Host) == Ok(l.host)
      && GetString(fields, Key.SslProfile) == Ok(l.sslProfile)
      && GetString(fields, Key.SaslMechanisms) == Ok(l.saslMechanisms)
      && GetString(fields, Key.HttpRootDir) == Ok(l.httpRootDir)
  {
    var full, always: set<Key> := ListenerFields(l), {Key.Port};
    ReadsString(full, always, Key.Name);
    ReadsString(full, always, Key.Role);
    ReadsString(full, always, Key.Host);
    ReadsString(full, always, Key.SslProfile);
    ReadsString(full, always, Key.SaslMechanisms);
    ReadsString(full, always, Key.HttpRootDir);
  }

  lemma ListenerNumbers(l: Listener)
    ensures var fields := Written(ListenerFields(l), {Key.Port});
      && GetInt32(fields, Key.Port) == Ok(l.port)
      && GetInt32(fields, Key.Cost) == Ok(l.cost)
      && GetInt32(fields, Key.LinkCapacity) == Ok(l.linkCapacity)
  {
    var full, always: set<Key> := ListenerFields(l), {Key.Port};
    ReadsInt32(full, always, Key.Port, l.port);
    ReadsInt32(full, always, Key.Cost, l.cost);
    ReadsInt32(full, always, Key.LinkCapacity, l.linkCapacity);
  }

  lemma ListenerFlags(l: Listener)
    ensures var fields := Written(ListenerFields(l), {Key.Port});
      && GetBool(fields, Key.RouteContainer) == Ok(l.routeContainer)
      && GetBool(fields, Key.Http) == Ok(l.http)
      && GetBool(fields, Key.AuthenticatePeer) == Ok(l.authenticatePeer)
      && GetBool(fields, Key.Websockets) == Ok(l.websockets)
      && GetBool(fields, Key.Healthz) == Ok(l.healthz)
      && GetBool(fields, Key.Metrics) == Ok(l.metrics)
  {
    var full, always: set<Key> := ListenerFields(l), {Key.Port};
    ReadsBool(full, always, Key.RouteContainer);
    ReadsBool(full, always, Key.Http);
    ReadsBool(full, always, Key.AuthenticatePeer);
    ReadsBool(full, always, Key.Websockets);
    ReadsBool(full, always, Key.Healthz);
    ReadsBool(full, always, Key.Metrics);
  }

  lemma ListenerRoundTrip(l: Listener)
    ensures DecodeListener(EncodeListener(l)) == Ok(l)
  {
    ListenerTexts(l);
    ListenerNumbers(l);
    ListenerFlags(l);
  }

  lemma ConnectorRoundTrip(c: Connector)
    ensures DecodeConnector(EncodeConnector(c)) == Ok(c)
  {
    var full, always: set<Key> := ConnectorFields(c), {Key.Host, Key.Port};
    ReadsString(full, always, Key.Name);
    ReadsString(full, always, Key.Role);
    ReadsString(full, always, Key.Host);
    ReadsString(full, always, Key.Port);
    ReadsBool(full, always, Key.RouteContainer);
    ReadsInt32(full, always, Key.Cost, c.cost);
    ReadsBool(full, always, Key.VerifyHostname);
    ReadsString(full, always, Key.SslProfile);
    ReadsInt32(full, always, Key.LinkCapacity, c.linkCapacity);
  }

  lemma AddressRoundTrip(a: Address)
    ensures DecodeAddress(EncodeAddress(a)) == Ok(a)
  {
    var full, always: set<Key> := AddressFields(a), {};
    ReadsString(full, always, Key.Prefix);
    ReadsString(full, always, Key.Distribution);
  }

  lemma TcpRoundTrip(e: TcpEndpoint)
    ensures DecodeTcp(EncodeTcp(e)) == Ok(e)
  {
    var full, always: set<Key> := TcpFields(e), {};
    ReadsString(full, always, Key.Name);
    ReadsString(full, always, Key.Host);
    ReadsString(full, always, Key.Port);
    ReadsString(full, always, Key.Address);
    ReadsString(full, always, Key.SiteId);
  }

  lemma HttpRoundTrip(e: HttpEndpoint)
    ensures DecodeHttp(EncodeHttp(e)) == Ok(e)
  {
    var full, always: set<Key> := HttpFields(e), {};
    ReadsString(full, always, Key.Name);
    ReadsString(full, always, Key.Host);
    ReadsString(full, always, Key.Port);
    ReadsString(full, always, Key.Address);
    ReadsString(full, always, Key.SiteId);
    ReadsString(full, always, Key.ProtocolVersion);
    ReadsString(full, always, Key.Aggregation);
    ReadsBool(full, always, Key.EventChannel);
    ReadsString(full, always, Key.HostOverride);
  }

  lemma EntityRoundTrip(e: Entity)
    ensures Decode(Encode(e)) == Ok(Some(e))
  {
    match e {
      case TcpConn(t) => TcpConnRoundTrip(t);
      case TcpListen(t) => TcpListenRoundTrip(t);
      case HttpConn(h) => HttpConnRoundTrip(h);
      case HttpListen(h) => HttpListenRoundTrip(h);
      case _ => RouterRoundTrip(e);
    }
  }

  lemma RouterRoundTrip(e: Entity)
    requires e.Router? || e.Ssl? || e.Conn? || e.Listen? || e.Addr?
    ensures DecodeValue(e.Kind(), EncodeValue(e)) == Ok(Some(e))
  {
    match e {
      case Router(m) => MetadataRoundTrip(m);
      case Ssl(p) => SslProfileRoundTrip(p);
      case Conn(c) => ConnectorRoundTrip(c);
      case Listen(l) => ListenerRoundTrip(l);
      case Addr(a) => AddressRoundTrip(a);
    }
  }

  lemma TcpConnRoundTrip(t: TcpEndpoint)
    ensures DecodeValue("tcpConnector", EncodeTcp(t)) == Ok(Some(TcpConn(t)))
  {
    TcpRoundTrip(t);
  }

  lemma TcpListenRoundTrip(t: TcpEndpoint)
    ensures DecodeValue("tcpListener", EncodeTcp(t)) == Ok(Some(TcpListen(t)))
  {
    TcpRoundTrip(t);
  }

  lemma HttpConnRoundTrip(h: HttpEndpoint)
    ensures DecodeValue("httpConnector", EncodeHttp(h)) == Ok(Some(HttpConn(h)))
  {
    HttpRoundTrip(h);
  }

  lemma HttpListenRoundTrip(h: HttpEndpoint)
    ensures DecodeValue("httpListener", EncodeHttp(h)) == Ok(Some(HttpListen(h)))
  {
    HttpRoundTrip(h);
  }
}
