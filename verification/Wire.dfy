/** The router configuration's elements as JSON: for each entity type the literal word, and for each
    key the field it carries, in the writing and in the reading direction. */
module Wire {
  import opened Types
  import opened Json
  import opened Qdr

  // ---------------------------------------------------------------- fields as written

  /** A field whose zero value is omitted. */
  ghost predicate HasText(f: Fields, k: Key, s: string) {
    if s == "" then k !in f else k in f && f[k] == String(s)
  }

  ghost predicate HasFlag(f: Fields, k: Key, b: bool) {
    if b then k in f && f[k] == Bool(true) else k !in f
  }

  ghost predicate HasNumber(f: Fields, k: Key, n: int32) {
    if n == 0 then k !in f else k in f && f[k] == Number(n as real)
  }

  /** A field that is always there. */
  ghost predicate AlwaysText(f: Fields, k: Key, s: string) {
    k in f && f[k] == String(s)
  }

  ghost predicate AlwaysNumber(f: Fields, k: Key, n: int32) {
    k in f && f[k] == Number(n as real)
  }

  // ---------------------------------------------------------------- fields as read

  /** A missing or null field is zero; one of another kind cannot be read. */
  ghost predicate ReadsText(f: Fields, k: Key) {
    k in f ==> f[k].Null? || f[k].String?
  }

  ghost predicate ReadsFlag(f: Fields, k: Key) {
    k in f ==> f[k].Null? || f[k].Bool?
  }

  ghost predicate ReadsNumber(f: Fields, k: Key) {
    k in f ==> f[k].Null? || (f[k].Number? && Whole(f[k].n))
  }

  /** A number of the 32-bit range without a fraction. */
  predicate Whole(n: real) {
    n == n.Floor as real && -2147483648 <= n.Floor <= 2147483647
  }

  function TextAt(f: Fields, k: Key): string {
    if k in f && f[k].String? then f[k].s else ""
  }

  function FlagAt(f: Fields, k: Key): bool {
    k in f && f[k].Bool? && f[k].b
  }

  ghost predicate NumberAt(f: Fields, k: Key, n: int32) {
    if k in f && f[k].Number? then f[k].n == n as real else n == 0
  }

  function Element(word: string, value: Json): Json {
    Array([String(word), value])
  }

  // ---------------------------------------------------------------- the keys of each entity type

  ghost predicate MetadataWritten(f: Fields, m: RouterMetadata) {
    && HasText(f, Key.Id, m.id) && HasText(f, Key.Mode, m.mode) && HasText(f, Key.Metadata, m.metadata)
    && f.Keys <= {Key.Id, Key.Mode, Key.Metadata}
  }

  ghost predicate MetadataReadable(f: Fields) {
    && ReadsText(f, Key.Id) && ReadsText(f, Key.Mode) && ReadsText(f, Key.Metadata)
  }

  ghost predicate MetadataRead(f: Fields, m: RouterMetadata) {
    && m.id == TextAt(f, Key.Id) && m.mode == TextAt(f, Key.Mode) && m.metadata == TextAt(f, Key.Metadata)
  }

  ghost predicate SslProfileWritten(f: Fields, p: SslProfile) {
    && HasText(f, Key.Name, p.name) && HasText(f, Key.CertFile, p.certFile)
    && HasText(f, Key.PrivateKeyFile, p.privateKeyFile) && HasText(f, Key.CaCertFile, p.caCertFile)
    && f.Keys <= {Key.Name, Key.CertFile, Key.PrivateKeyFile, Key.CaCertFile}
  }

  ghost predicate SslProfileReadable(f: Fields) {
    && ReadsText(f, Key.Name) && ReadsText(f, Key.CertFile) && ReadsText(f, Key.PrivateKeyFile)
    && ReadsText(f, Key.CaCertFile)
  }

  ghost predicate SslProfileRead(f: Fields, p: SslProfile) {
    && p.name == TextAt(f, Key.Name) && p.certFile == TextAt(f, Key.CertFile)
    && p.privateKeyFile == TextAt(f, Key.PrivateKeyFile) && p.caCertFile == TextAt(f, Key.CaCertFile)
  }

  ghost predicate ConnectorWritten(f: Fields, c: Connector) {
    && HasText(f, Key.Name, c.name) && HasText(f, Key.Role, c.role) && AlwaysText(f, Key.Host, c.host)
    && AlwaysText(f, Key.Port, c.port) && HasFlag(f, Key.RouteContainer, c.routeContainer)
    && HasNumber(f, Key.Cost, c.cost) && HasFlag(f, Key.VerifyHostname, c.verifyHostname)
    && HasText(f, Key.SslProfile, c.sslProfile) && HasNumber(f, Key.LinkCapacity, c.linkCapacity)
    && f.Keys <= {Key.Name, Key.Role, Key.Host, Key.Port, Key.RouteContainer, Key.Cost, Key.VerifyHostname,
                  Key.SslProfile, Key.LinkCapacity}
  }

  ghost predicate ConnectorReadable(f: Fields) {
    && ReadsText(f, Key.Name) && ReadsText(f, Key.Role) && ReadsText(f, Key.Host) && ReadsText(f, Key.Port)
    && ReadsFlag(f, Key.RouteContainer) && ReadsNumber(f, Key.Cost) && ReadsFlag(f, Key.VerifyHostname)
    && ReadsText(f, Key.SslProfile) && ReadsNumber(f, Key.LinkCapacity)
  }

  ghost predicate ConnectorRead(f: Fields, c: Connector) {
    && c.name == TextAt(f, Key.Name) && c.role == TextAt(f, Key.Role) && c.host == TextAt(f, Key.Host)
    && c.port == TextAt(f, Key.Port) && c.routeContainer == FlagAt(f, Key.RouteContainer)
    && NumberAt(f, Key.Cost, c.cost) && c.verifyHostname == FlagAt(f, Key.VerifyHostname)
    && c.sslProfile == TextAt(f, Key.SslProfile) && NumberAt(f, Key.LinkCapacity, c.linkCapacity)
  }

  ghost predicate ListenerTextsWritten(f: Fields, l: Listener) {
    && HasText(f, Key.Name, l.name) && HasText(f, Key.Role, l.role) && HasText(f, Key.Host, l.host)
    && HasText(f, Key.SslProfile, l.sslProfile) && HasText(f, Key.SaslMechanisms, l.saslMechanisms)
    && HasText(f, Key.HttpRootDir, l.httpRootDir)
  }

  ghost predicate ListenerFlagsWritten(f: Fields, l: Listener) {
    && HasFlag(f, Key.RouteContainer, l.routeContainer) && HasFlag(f, Key.Http, l.http)
    && HasFlag(f, Key.AuthenticatePeer, l.authenticatePeer) && HasFlag(f, Key.Websockets, l.websockets)
    && HasFlag(f, Key.Healthz, l.healthz) && HasFlag(f, Key.Metrics, l.metrics)
  }

  ghost predicate ListenerNumbersWritten(f: Fields, l: Listener) {
    && AlwaysNumber(f, Key.Port, l.port) && HasNumber(f, Key.Cost, l.cost)
    && HasNumber(f, Key.LinkCapacity, l.linkCapacity)
  }

  ghost predicate ListenerWritten(f: Fields, l: Listener) {
    && ListenerTextsWritten(f, l) && ListenerFlagsWritten(f, l) && ListenerNumbersWritten(f, l)
    && f.Keys <= {Key.Name, Key.Role, Key.Host, Key.Port, Key.RouteContainer, Key.Http, Key.Cost, Key.SslProfile,
                  Key.SaslMechanisms, Key.AuthenticatePeer, Key.LinkCapacity, Key.HttpRootDir, Key.Websockets,
                  Key.Healthz, Key.Metrics}
  }

  ghost predicate ListenerReadable(f: Fields) {
    && ReadsText(f, Key.Name) && ReadsText(f, Key.Role) && ReadsText(f, Key.Host) && ReadsNumber(f, Key.Port)
    && ReadsFlag(f, Key.RouteContainer) && ReadsFlag(f, Key.Http) && ReadsNumber(f, Key.Cost)
    && ReadsText(f, Key.SslProfile) && ReadsText(f, Key.SaslMechanisms) && ReadsFlag(f, Key.AuthenticatePeer)
    && ReadsNumber(f, Key.LinkCapacity) && ReadsText(f, Key.HttpRootDir) && ReadsFlag(f, Key.Websockets)
    && ReadsFlag(f, Key.Healthz) && ReadsFlag(f, Key.Metrics)
  }

  ghost predicate ListenerRead(f: Fields, l: Listener) {
    && l.name == TextAt(f, Key.Name) && l.role == TextAt(f, Key.Role) && l.host == TextAt(f, Key.Host)
    && NumberAt(f, Key.Port, l.port) && l.routeContainer == FlagAt(f, Key.RouteContainer)
    && l.http == FlagAt(f, Key.Http) && NumberAt(f, Key.Cost, l.cost)
    && l.sslProfile == TextAt(f, Key.SslProfile) && l.saslMechanisms == TextAt(f, Key.SaslMechanisms)
    && l.authenticatePeer == FlagAt(f, Key.AuthenticatePeer) && NumberAt(f, Key.LinkCapacity, l.linkCapacity)
    && l.httpRootDir == TextAt(f, Key.HttpRootDir) && l.websockets == FlagAt(f, Key.Websockets)
    && l.healthz == FlagAt(f, Key.Healthz) && l.metrics == FlagAt(f, Key.Metrics)
  }

  ghost predicate AddressWritten(f: Fields, a: Address) {
    && HasText(f, Key.Prefix, a.prefix) && HasText(f, Key.Distribution, a.distribution)
    && f.Keys <= {Key.Prefix, Key.Distribution}
  }

  ghost predicate AddressReadable(f: Fields) {
    && ReadsText(f, Key.Prefix) && ReadsText(f, Key.Distribution)
  }

  ghost predicate AddressRead(f: Fields, a: Address) {
    && a.prefix == TextAt(f, Key.Prefix) && a.distribution == TextAt(f, Key.Distribution)
  }

  ghost predicate TcpWritten(f: Fields, e: TcpEndpoint) {
    && HasText(f, Key.Name, e.name) && HasText(f, Key.Host, e.host) && HasText(f, Key.Port, e.port)
    && HasText(f, Key.Address, e.address) && HasText(f, Key.SiteId, e.siteId)
    && f.Keys <= {Key.Name, Key.Host, Key.Port, Key.Address, Key.SiteId}
  }

  ghost predicate TcpReadable(f: Fields) {
    && ReadsText(f, Key.Name) && ReadsText(f, Key.Host) && ReadsText(f, Key.Port) && ReadsText(f, Key.Address)
    && ReadsText(f, Key.SiteId)
  }

  ghost predicate TcpRead(f: Fields, e: TcpEndpoint) {
    && e.name == TextAt(f, Key.Name) && e.host == TextAt(f, Key.Host) && e.port == TextAt(f, Key.Port)
    && e.address == TextAt(f, Key.Address) && e.siteId == TextAt(f, Key.SiteId)
  }

  ghost predicate HttpWritten(f: Fields, e: HttpEndpoint) {
    && HasText(f, Key.Name, e.name) && HasText(f, Key.Host, e.host) && HasText(f, Key.Port, e.port)
    && HasText(f, Key.Address, e.address) && HasText(f, Key.SiteId, e.siteId)
    && HasText(f, Key.ProtocolVersion, e.protocolVersion) && HasText(f, Key.Aggregation, e.aggregation)
    && HasFlag(f, Key.EventChannel, e.eventChannel) && HasText(f, Key.HostOverride, e.hostOverride)
    && f.Keys <= {Key.Name, Key.Host, Key.Port, Key.Address, Key.SiteId, Key.ProtocolVersion, Key.Aggregation,
                  Key.EventChannel, Key.HostOverride}
  }

  ghost predicate HttpReadable(f: Fields) {
    && ReadsText(f, Key.Name) && ReadsText(f, Key.Host) && ReadsText(f, Key.Port) && ReadsText(f, Key.Address)
    && ReadsText(f, Key.SiteId) && ReadsText(f, Key.ProtocolVersion) && ReadsText(f, Key.Aggregation)
    && ReadsFlag(f, Key.EventChannel) && ReadsText(f, Key.HostOverride)
  }

  ghost predicate HttpRead(f: Fields, e: HttpEndpoint) {
    && e.name == TextAt(f, Key.Name) && e.host == TextAt(f, Key.Host) && e.port == TextAt(f, Key.Port)
    && e.address == TextAt(f, Key.Address) && e.siteId == TextAt(f, Key.SiteId)
    && e.protocolVersion == TextAt(f, Key.ProtocolVersion) && e.aggregation == TextAt(f, Key.Aggregation)
    && e.eventChannel == FlagAt(f, Key.EventChannel) && e.hostOverride == TextAt(f, Key.HostOverride)
  }

  // ---------------------------------------------------------------- proofs by field

  lemma TextIsWritten(full: Fields, always: set<Key>, k: Key)
    requires k in full && full[k].String?
    ensures if k in always then AlwaysText(Written(full, always), k, full[k].s)
            else HasText(Written(full, always), k, full[k].s)
  {
  }

  lemma FlagIsWritten(full: Fields, always: set<Key>, k: Key)
    requires k in full && full[k].Bool? && k !in always
    ensures HasFlag(Written(full, always), k, full[k].b)
  {
  }

  lemma NumberIsWritten(full: Fields, always: set<Key>, k: Key, n: int32)
    requires k in full && full[k] == Number(n as real)
    ensures if k in always then AlwaysNumber(Written(full, always), k, n)
            else HasNumber(Written(full, always), k, n)
  {
  }

  lemma TextIsRead(f: Fields, k: Key)
    ensures GetString(f, k).Ok? <==> ReadsText(f, k)
    ensures GetString(f, k).Ok? ==> GetString(f, k).value == TextAt(f, k)
  {
  }

  lemma FlagIsRead(f: Fields, k: Key)
    ensures GetBool(f, k).Ok? <==> ReadsFlag(f, k)
    ensures GetBool(f, k).Ok? ==> GetBool(f, k).value == FlagAt(f, k)
  {
  }

  lemma NumberIsRead(f: Fields, k: Key)
    ensures GetInt32(f, k).Ok? <==> ReadsNumber(f, k)
    ensures GetInt32(f, k).Ok? ==> NumberAt(f, k, GetInt32(f, k).value)
  {
  }

  lemma MetadataFieldsAsWritten(m: RouterMetadata)
    ensures MetadataWritten(Written(MetadataFields(m), {}), m)
  {
    var full, always: set<Key> := MetadataFields(m), {};
    TextIsWritten(full, always, Key.Id);
    TextIsWritten(full, always, Key.Mode);
    TextIsWritten(full, always, Key.Metadata);
  }

  lemma MetadataFieldsAsRead(f: Fields)
    ensures DecodeMetadata(Object(f)).Ok? <==> MetadataReadable(f)
    ensures DecodeMetadata(Object(f)).Ok? ==> MetadataRead(f, DecodeMetadata(Object(f)).value)
  {
    TextIsRead(f, Key.Id);
    TextIsRead(f, Key.Mode);
    TextIsRead(f, Key.Metadata);
  }

  lemma SslProfileFieldsAsWritten(p: SslProfile)
    ensures SslProfileWritten(Written(SslProfileFields(p), {}), p)
  {
    var full, always: set<Key> := SslProfileFields(p), {};
    TextIsWritten(full, always, Key.Name);
    TextIsWritten(full, always, Key.CertFile);
    TextIsWritten(full, always, Key.PrivateKeyFile);
    TextIsWritten(full, always, Key.CaCertFile);
  }

  lemma SslProfileFieldsAsRead(f: Fields)
    ensures DecodeSslProfile(Object(f)).Ok? <==> SslProfileReadable(f)
    ensures DecodeSslProfile(Object(f)).Ok? ==> SslProfileRead(f, DecodeSslProfile(Object(f)).value)
  {
    TextIsRead(f, Key.Name);
    TextIsRead(f, Key.CertFile);
    TextIsRead(f, Key.PrivateKeyFile);
    TextIsRead(f, Key.CaCertFile);
  }

  lemma ConnectorFieldsAsWritten(c: Connector)
    ensures ConnectorWritten(Written(ConnectorFields(c), {Key.Host, Key.Port}), c)
  {
    var full, always: set<Key> := ConnectorFields(c), {Key.Host, Key.Port};
    TextIsWritten(full, always, Key.Name);
    TextIsWritten(full, always, Key.Role);
    TextIsWritten(full, always, Key.Host);
    TextIsWritten(full, always, Key.Port);
    FlagIsWritten(full, always, Key.RouteContainer);
    NumberIsWritten(full, always, Key.Cost, c.cost);
    FlagIsWritten(full, always, Key.VerifyHostname);
    TextIsWritten(full, always, Key.SslProfile);
    NumberIsWritten(full, always, Key.LinkCapacity, c.linkCapacity);
  }

  lemma ConnectorFieldsAsRead(f: Fields)
    ensures DecodeConnector(Object(f)).Ok? <==> ConnectorReadable(f)
    ensures DecodeConnector(Object(f)).Ok? ==> ConnectorRead(f, DecodeConnector(Object(f)).value)
  {
    TextIsRead(f, Key.Name);
    TextIsRead(f, Key.Role);
    TextIsRead(f, Key.Host);
    TextIsRead(f, Key.Port);
    FlagIsRead(f, Key.RouteContainer);
    NumberIsRead(f, Key.Cost);
    FlagIsRead(f, Key.VerifyHostname);
    TextIsRead(f, Key.SslProfile);
    NumberIsRead(f, Key.LinkCapacity);
  }

  lemma ListenerTextsAsWritten(l: Listener)
    ensures ListenerTextsWritten(Written(ListenerFields(l), {Key.Port}), l)
  {
    var full, always: set<Key> := ListenerFields(l), {Key.Port};
    TextIsWritten(full, always, Key.Name);
    TextIsWritten(full, always, Key.Role);
    TextIsWritten(full, always, Key.Host);
    TextIsWritten(full, always, Key.SslProfile);
    TextIsWritten(full, always, Key.SaslMechanisms);
    TextIsWritten(full, always, Key.HttpRootDir);
  }

  lemma ListenerFlagsAsWritten(l: Listener)
    ensures ListenerFlagsWritten(Written(ListenerFields(l), {Key.Port}), l)
  {
    var full, always: set<Key> := ListenerFields(l), {Key.Port};
    FlagIsWritten(full, always, Key.RouteContainer);
    FlagIsWritten(full, always, Key.Http);
    FlagIsWritten(full, always, Key.AuthenticatePeer);
    FlagIsWritten(full, always, Key.Websockets);
    FlagIsWritten(full, always, Key.Healthz);
    FlagIsWritten(full, always, Key.Metrics);
  }

  lemma ListenerNumbersAsWritten(l: Listener)
    ensures ListenerNumbersWritten(Written(ListenerFields(l), {Key.Port}), l)
  {
    var full, always: set<Key> := ListenerFields(l), {Key.Port};
    NumberIsWritten(full, always, Key.Port, l.port);
    NumberIsWritten(full, always, Key.Cost, l.cost);
    NumberIsWritten(full, always, Key.LinkCapacity, l.linkCapacity);
  }

  lemma ListenerFieldsAsWritten(l: Listener)
    ensures ListenerWritten(Written(ListenerFields(l), {Key.Port}), l)
  {
    ListenerTextsAsWritten(l);
    ListenerFlagsAsWritten(l);
    ListenerNumbersAsWritten(l);
  }

  lemma ListenerFieldsAsRead(f: Fields)
    ensures DecodeListener(Object(f)).Ok? <==> ListenerReadable(f)
    ensures DecodeListener(Object(f)).Ok? ==> ListenerRead(f, DecodeListener(Object(f)).value)
  {
    TextIsRead(f, Key.Name);
    TextIsRead(f, Key.Role);
    TextIsRead(f, Key.Host);
    NumberIsRead(f, Key.Port);
    FlagIsRead(f, Key.RouteContainer);
    FlagIsRead(f, Key.Http);
    NumberIsRead(f, Key.Cost);
    TextIsRead(f, Key.SslProfile);
    TextIsRead(f, Key.SaslMechanisms);
    FlagIsRead(f, Key.AuthenticatePeer);
    NumberIsRead(f, Key.LinkCapacity);
    TextIsRead(f, Key.HttpRootDir);
    FlagIsRead(f, Key.Websockets);
    FlagIsRead(f, Key.Healthz);
    FlagIsRead(f, Key.Metrics);
  }

  lemma AddressFieldsAsWritten(a: Address)
    ensures AddressWritten(Written(AddressFields(a), {}), a)
  {
    var full, always: set<Key> := AddressFields(a), {};
    TextIsWritten(full, always, Key.Prefix);
    TextIsWritten(full, always, Key.Distribution);
  }

  lemma AddressFieldsAsRead(f: Fields)
    ensures DecodeAddress(Object(f)).Ok? <==> AddressReadable(f)
    ensures DecodeAddress(Object(f)).Ok? ==> AddressRead(f, DecodeAddress(Object(f)).value)
  {
    TextIsRead(f, Key.Prefix);
    TextIsRead(f, Key.Distribution);
  }

  lemma TcpFieldsAsWritten(e: TcpEndpoint)
    ensures TcpWritten(Written(TcpFields(e), {}), e)
  {
    var full, always: set<Key> := TcpFields(e), {};
    TextIsWritten(full, always, Key.Name);
    TextIsWritten(full, always, Key.Host);
    TextIsWritten(full, always, Key.Port);
    TextIsWritten(full, always, Key.Address);
    TextIsWritten(full, always, Key.SiteId);
  }

  lemma TcpFieldsAsRead(f: Fields)
    ensures DecodeTcp(Object(f)).Ok? <==> TcpReadable(f)
    ensures DecodeTcp(Object(f)).Ok? ==> TcpRead(f, DecodeTcp(Object(f)).value)
  {
    TextIsRead(f, Key.Name);
    TextIsRead(f, Key.Host);
    TextIsRead(f, Key.Port);
    TextIsRead(f, Key.Address);
    TextIsRead(f, Key.SiteId);
  }

  lemma HttpFieldsAsWritten(e: HttpEndpoint)
    ensures HttpWritten(Written(HttpFields(e), {}), e)
  {
    var full, always: set<Key> := HttpFields(e), {};
    TextIsWritten(full, always, Key.Name);
    TextIsWritten(full, always, Key.Host);
    TextIsWritten(full, always, Key.Port);
    TextIsWritten(full, always, Key.Address);
    TextIsWritten(full, always, Key.SiteId);
    TextIsWritten(full, always, Key.ProtocolVersion);
    TextIsWritten(full, always, Key.Aggregation);
    FlagIsWritten(full, always, Key.EventChannel);
    TextIsWritten(full, always, Key.HostOverride);
  }

  lemma HttpFieldsAsRead(f: Fields)
    ensures DecodeHttp(Object(f)).Ok? <==> HttpReadable(f)
    ensures DecodeHttp(Object(f)).Ok? ==> HttpRead(f, DecodeHttp(Object(f)).value)
  {
    TextIsRead(f, Key.Name);
    TextIsRead(f, Key.Host);
    TextIsRead(f, Key.Port);
    TextIsRead(f, Key.Address);
    TextIsRead(f, Key.SiteId);
    TextIsRead(f, Key.ProtocolVersion);
    TextIsRead(f, Key.Aggregation);
    FlagIsRead(f, Key.EventChannel);
    TextIsRead(f, Key.HostOverride);
  }

  // ---------------------------------------------------------------- each entity type

  lemma RouterIsWritten(m: RouterMetadata) returns (f: Fields)
    ensures Encode(Router(m)) == Element("router", Object(f)) && MetadataWritten(f, m)
  {
    f := Written(MetadataFields(m), {});
    MetadataFieldsAsWritten(m);
  }

  lemma RouterIsRead(f: Fields)
    ensures var r := Decode(Element("router", Object(f)));
      && (r.Ok? <==> MetadataReadable(f))
      && (r.Ok? ==> r.value.Some? && r.value.value.Router? && MetadataRead(f, r.value.value.metadata))
  {
    MetadataFieldsAsRead(f);
  }

  lemma SslProfileIsWritten(p: SslProfile) returns (f: Fields)
    ensures Encode(Ssl(p)) == Element("sslProfile", Object(f)) && SslProfileWritten(f, p)
  {
    f := Written(SslProfileFields(p), {});
    SslProfileFieldsAsWritten(p);
  }

  lemma SslProfileIsRead(f: Fields)
    ensures var r := Decode(Element("sslProfile", Object(f)));
      && (r.Ok? <==> SslProfileReadable(f))
      && (r.Ok? ==> r.value.Some? && r.value.value.Ssl? && SslProfileRead(f, r.value.value.profile))
  {
    SslProfileFieldsAsRead(f);
  }

  lemma ConnectorIsWritten(c: Connector) returns (f: Fields)
    ensures Encode(Conn(c)) == Element("connector", Object(f)) && ConnectorWritten(f, c)
  {
    f := Written(ConnectorFields(c), {Key.Host, Key.Port});
    ConnectorFieldsAsWritten(c);
  }

  lemma ConnectorIsRead(f: Fields)
    ensures var r := Decode(Element("connector", Object(f)));
      && (r.Ok? <==> ConnectorReadable(f))
      && (r.Ok? ==> r.value.Some? && r.value.value.Conn? && ConnectorRead(f, r.value.value.connector))
  {
    ConnectorFieldsAsRead(f);
  }

  lemma ListenerIsWritten(l: Listener) returns (f: Fields)
    ensures Encode(Listen(l)) == Element("listener", Object(f)) && ListenerWritten(f, l)
  {
    f := Written(ListenerFields(l), {Key.Port});
    ListenerFieldsAsWritten(l);
  }

  lemma ListenerIsRead(f: Fields)
    ensures var r := Decode(Element("listener", Object(f)));
      && (r.Ok? <==> ListenerReadable(f))
      && (r.Ok? ==> r.value.Some? && r.value.value.Listen? && ListenerRead(f, r.value.value.listener))
  {
    ListenerFieldsAsRead(f);
  }

  lemma AddressIsWritten(a: Address) returns (f: Fields)
    ensures Encode(Addr(a)) == Element("address", Object(f)) && AddressWritten(f, a)
  {
    f := Written(AddressFields(a), {});
    AddressFieldsAsWritten(a);
  }

  lemma AddressIsRead(f: Fields)
    ensures var r := Decode(Element("address", Object(f)));
      && (r.Ok? <==> AddressReadable(f))
      && (r.Ok? ==> r.value.Some? && r.value.value.Addr? && AddressRead(f, r.value.value.address))
  {
    AddressFieldsAsRead(f);
  }

  lemma TcpConnectorIsWritten(e: TcpEndpoint) returns (f: Fields)
    ensures Encode(TcpConn(e)) == Element("tcpConnector", Object(f)) && TcpWritten(f, e)
  {
    f := Written(TcpFields(e), {});
    TcpFieldsAsWritten(e);
  }

  lemma TcpConnectorIsRead(f: Fields)
    ensures var r := Decode(Element("tcpConnector", Object(f)));
      && (r.Ok? <==> TcpReadable(f))
      && (r.Ok? ==> r.value.Some? && r.value.value.TcpConn? && TcpRead(f, r.value.value.tcp))
  {
    TcpFieldsAsRead(f);
  }

  lemma TcpListenerIsWritten(e: TcpEndpoint) returns (f: Fields)
    ensures Encode(TcpListen(e)) == Element("tcpListener", Object(f)) && TcpWritten(f, e)
  {
    f := Written(TcpFields(e), {});
    TcpFieldsAsWritten(e);
  }

  lemma TcpListenerIsRead(f: Fields)
    ensures var r := Decode(Element("tcpListener", Object(f)));
      && (r.Ok? <==> TcpReadable(f))
      && (r.Ok? ==> r.value.Some? && r.value.value.TcpListen? && TcpRead(f, r.value.value.tcp))
  {
    TcpFieldsAsRead(f);
  }

  lemma HttpConnectorIsWritten(e: HttpEndpoint) returns (f: Fields)
    ensures Encode(HttpConn(e)) == Element("httpConnector", Object(f)) && HttpWritten(f, e)
  {
    f := Written(HttpFields(e), {});
    HttpFieldsAsWritten(e);
  }

  lemma HttpConnectorIsRead(f: Fields)
    ensures var r := Decode(Element("httpConnector", Object(f)));
      && (r.Ok? <==> HttpReadable(f))
      && (r.Ok? ==> r.value.Some? && r.value.value.HttpConn? && HttpRead(f, r.value.value.http))
  {
    HttpFieldsAsRead(f);
  }

  lemma HttpListenerIsWritten(e: HttpEndpoint) returns (f: Fields)
    ensures Encode(HttpListen(e)) == Element("httpListener", Object(f)) && HttpWritten(f, e)
  {
    f := Written(HttpFields(e), {});
    HttpFieldsAsWritten(e);
  }

  lemma HttpListenerIsRead(f: Fields)
    ensures var r := Decode(Element("httpListener", Object(f)));
      && (r.Ok? <==> HttpReadable(f))
      && (r.Ok? ==> r.value.Some? && r.value.value.HttpListen? && HttpRead(f, r.value.value.http))
  {
    HttpFieldsAsRead(f);
  }

  // ---------------------------------------------------------------- what is not an element

  ghost predicate EntityWord(word: string) {
    word in {"router", "sslProfile", "connector", "listener", "address",
             "tcpConnector", "tcpListener", "httpConnector", "httpListener"}
  }

  /** Only pairs of a word and a value are read. */
  lemma OnlyPairsAreRead(element: Json)
    requires Decode(element).Ok?
    ensures element.Array? && |element.elements| == 2 && element.elements[0].String?
  {
  }

  /** The value of an entity is an object, or null for one without fields; other words are skipped. */
  lemma OnlyObjectsAreRead(word: string, value: Json)
    ensures EntityWord(word) && Decode(Element(word, value)).Ok? ==> value.Object? || value.Null?
    ensures !EntityWord(word) ==> Decode(Element(word, value)) == Ok(None)
  {
  }

  lemma NullIsReadAsEmpty(word: string)
    ensures DecodeValue(word, Null) == DecodeValue(word, Object(map[]))
  {
    assert FieldsOf(Null) == FieldsOf(Object(map[]));
  }
}
