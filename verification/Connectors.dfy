/** The life cycle of connectors (client/connector_create.go, client/connector_remove.go): the
    written router configuration and the connection directories, kept in step. */
module Connectors {
  import opened Types
  import opened Json
  import opened Qdr
  import opened Codec

  /** qdrouterd.json and the directories under connections, each with its files. */
  datatype Store = Store(config: Json, connections: map<string, map<string, string>>)

  const TOKEN_GENERATED_BY := "skupper.io/generated-by"

  /** The file a key of the token is written to. */
  function FileName(key: string): string {
    if key == TOKEN_GENERATED_BY then "generated-by" else key
  }

  /** Every key is written; should two share a file, either may come last. */
  ghost predicate WritesToken(files: map<string, string>, secret: map<string, string>) {
    && (forall k :: k in secret ==> FileName(k) in files)
    && (forall f :: f in files ==> exists k :: k in secret && FileName(k) == f && secret[k] == files[f])
  }

  function FileContent(files: map<string, string>, name: string): string {
    if name in files then files[name] else ""
  }

  function ProfileName(name: string): string { name + PROFILE_SUFFIX }

  function NewConnector(edge: bool, name: string, cost: int32, files: map<string, string>): Connector {
    var role := if edge then ROLE_EDGE else ROLE_INTER_ROUTER;
    Connector(name, role, FileContent(files, role + "-host"), FileContent(files, role + "-port"), false, cost, false,
              ProfileName(name), 0)
  }

  /** The configuration with a connector and its profile. */
  function Connected(c: Config, name: string, cost: int32, files: map<string, string>): Config {
    Filed(Filed(c, Ssl(ConnectionProfile(SslProfile.SslProfile(ProfileName(name), "", "", "")))),
          Conn(NewConnector(c.metadata.mode == MODE_EDGE, name, cost, files)))
  }

  function Disconnected(c: Config, name: string): Config {
    c.(connectors := c.connectors - {name}, sslProfiles := c.sslProfiles - {ProfileName(name)})
  }

  /** A successful create: a fresh directory, and a rewritten configuration. */
  ghost predicate Created(s: Store, name: string, cost: int32, s': Store) {
    && name !in s.connections
    && Unmarshalled(s.config).Ok?
    && name in s'.connections
    && s'.connections == s.connections[name := s'.connections[name]]
    && Marshals(s'.config, Connected(Unmarshalled(s.config).value, name, cost, s'.connections[name]))
  }

  /** A create that did not succeed leaves the configuration as it was; if the configuration cannot
      be read, the new directory stays behind. */
  ghost predicate CreateFailed(s: Store, name: string, s': Store) {
    && s'.config == s.config
    && (s'.connections == s.connections ||
        (Unmarshalled(s.config).Err? && name !in s.connections && s'.connections.Keys == s.connections.Keys + {name}))
  }

  ghost predicate Removed(s: Store, name: string, s': Store) {
    && Unmarshalled(s.config).Ok?
    && var c := Unmarshalled(s.config).value;
       if name in c.connectors
       then s'.connections == s.connections - {name} && Marshals(s'.config, Disconnected(c, name))
       else s' == s
  }

  // ---------------------------------------------------------------- the invariant

  ghost predicate IsConnectionProfile(profile: string) {
    exists name :: profile == ProfileName(name)
  }

  /** Directories and connectors correspond; connection profiles are exactly those of the connectors;
      every profile that a connector or a listener names exists. */
  ghost predicate Linked(c: Config, connections: map<string, map<string, string>>) {
    && c.connectors.Keys == connections.Keys
    && (forall k :: k in c.connectors ==> c.connectors[k].sslProfile == ProfileName(k))
    && (forall k :: k in c.connectors <==> ProfileName(k) in c.sslProfiles)
    && (forall k :: k in c.listeners && c.listeners[k].sslProfile != "" ==>
          c.listeners[k].sslProfile in c.sslProfiles && !IsConnectionProfile(c.listeners[k].sslProfile))
  }

  ghost predicate Sound(s: Store) {
    Unmarshalled(s.config).Ok? && Linked(Unmarshalled(s.config).value, s.connections)
  }

  lemma ProfileNamesAreInjective(name: string, other: string)
    requires ProfileName(name) == ProfileName(other)
    ensures name == other
  {
    assert ProfileName(name)[..|ProfileName(name)| - |PROFILE_SUFFIX|] == name;
    assert ProfileName(other)[..|ProfileName(other)| - |PROFILE_SUFFIX|] == other;
  }

  lemma FiledIsWellKeyed(c: Config, e: Entity)
    requires WellKeyed(c)
    ensures WellKeyed(Filed(c, e))
  {
    forall slot | Lookup(Filed(c, e), slot).Some? ensures SlotOf(Lookup(Filed(c, e), slot).value) == slot {
      FiledAt(c, e, slot);
    }
  }

  lemma DisconnectedIsWellKeyed(c: Config, name: string)
    requires WellKeyed(c)
    ensures WellKeyed(Disconnected(c, name))
  {
    var d := Disconnected(c, name);
    forall slot | Lookup(d, slot).Some? ensures SlotOf(Lookup(d, slot).value) == slot {
      assert Lookup(c, slot) == Lookup(d, slot);
    }
  }

  lemma ConnectedKeepsLinked(c: Config, connections: map<string, map<string, string>>, name: string, cost: int32,
                             files: map<string, string>)
    requires Linked(c, connections)
    ensures Linked(Connected(c, name, cost, files), connections[name := files])
  {
    var d := Connected(c, name, cost, files);
    forall k ensures k in d.connectors <==> ProfileName(k) in d.sslProfiles {
      SameProfileSameName(k, name);
    }
  }

  lemma SameProfileSameName(name: string, other: string)
    ensures ProfileName(name) == ProfileName(other) <==> name == other
  {
    if ProfileName(name) == ProfileName(other) {
      ProfileNamesAreInjective(name, other);
    }
  }

  lemma DisconnectedKeepsLinked(c: Config, connections: map<string, map<string, string>>, name: string)
    requires Linked(c, connections)
    ensures Linked(Disconnected(c, name), connections - {name})
  {
    var d := Disconnected(c, name);
    forall k ensures k in d.connectors <==> ProfileName(k) in d.sslProfiles {
      SameProfileSameName(k, name);
    }
    forall k | k in d.listeners && d.listeners[k].sslProfile != ""
      ensures d.listeners[k].sslProfile in d.sslProfiles
    {
      assert !IsConnectionProfile(c.listeners[k].sslProfile);
      assert IsConnectionProfile(ProfileName(name));
    }
  }

  /** What a successful create stored can be read back. */
  lemma CreatedReadsBack(s: Store, name: string, cost: int32, s': Store)
    requires Created(s, name, cost, s')
    ensures Unmarshalled(s'.config) == Ok(Connected(Unmarshalled(s.config).value, name, cost, s'.connections[name]))
  {
    var c := Unmarshalled(s.config).value;
    UnmarshalledIsWellKeyed(s.config);
    var profile := Ssl(ConnectionProfile(SslProfile.SslProfile(ProfileName(name), "", "", "")));
    FiledIsWellKeyed(c, profile);
    var connector := NewConnector(c.metadata.mode == MODE_EDGE, name, cost, s'.connections[name]);
    FiledIsWellKeyed(Filed(c, profile), Conn(connector));
    RoundTrip(s'.config, Connected(c, name, cost, s'.connections[name]));
  }

  /** The configuration gains the connector, with its profile's files in the connection's own
      directory; no other entry changes. */
  lemma ConnectedAddsOnlyTheConnector(c: Config, name: string, cost: int32, files: map<string, string>)
    ensures var d, p := Connected(c, name, cost, files), ProfileName(name);
      && name in d.connectors && p in d.sslProfiles
      && d.connectors[name].sslProfile == d.sslProfiles[p].name == p
      && d.sslProfiles[p].certFile == "/etc/qpid-dispatch/connections/" + name + "/tls.crt"
      && d.sslProfiles[p].privateKeyFile == "/etc/qpid-dispatch/connections/" + name + "/tls.key"
      && d.sslProfiles[p].caCertFile == "/etc/qpid-dispatch/connections/" + name + "/ca.crt"
      && d.connectors - {name} == c.connectors - {name} && d.sslProfiles - {p} == c.sslProfiles - {p}
      && d == c.(connectors := d.connectors, sslProfiles := d.sslProfiles)
  {
    TrimmedProfileName(name);
  }

  /** A new connector leads to the host and port that the token gives for the router's mode. */
  lemma CreatedFollowsTheToken(s: Store, name: string, cost: int32, secret: map<string, string>, s': Store)
    requires Created(s, name, cost, s') && WritesToken(s'.connections[name], secret)
    ensures var c, read := Unmarshalled(s.config).value, Unmarshalled(s'.config);
      && read.Ok? && name in read.value.connectors
      && read.value.connectors[name].cost == cost
      && (c.metadata.mode == MODE_EDGE ==> LeadsTo(read.value.connectors[name], "edge", secret))
      && (c.metadata.mode != MODE_EDGE ==> LeadsTo(read.value.connectors[name], "inter-router", secret))
  {
    CreatedReadsBack(s, name, cost, s');
    var files := s'.connections[name];
    TokenEndpoint(NewConnector(true, name, cost, files), "edge", files, secret);
    TokenEndpoint(NewConnector(false, name, cost, files), "inter-router", files, secret);
  }

  ghost predicate LeadsTo(c: Connector, mode: string, secret: map<string, string>) {
    && c.role == mode
    && (mode + "-host" in secret ==> c.host == secret[mode + "-host"])
    && (mode + "-port" in secret ==> c.port == secret[mode + "-port"])
  }

  lemma TokenEndpoint(c: Connector, mode: string, files: map<string, string>, secret: map<string, string>)
    requires mode == "edge" || mode == "inter-router"
    requires c.role == mode
    requires c.host == FileContent(files, mode + "-host") && c.port == FileContent(files, mode + "-port")
    requires WritesToken(files, secret)
    ensures LeadsTo(c, mode, secret)
  {
    assert (mode + "-host")[|mode + "-host"| - 1] == 't' && (mode + "-port")[|mode + "-port"| - 1] == 't';
    assert TOKEN_GENERATED_BY[|TOKEN_GENERATED_BY| - 1] == 'y' && "generated-by"[11] == 'y';
    if mode + "-host" in secret {
      TokenFile(files, secret, mode + "-host");
    }
    if mode + "-port" in secret {
      TokenFile(files, secret, mode + "-port");
    }
  }

  lemma TrimmedProfileName(name: string)
    ensures TrimSuffix(ProfileName(name), PROFILE_SUFFIX) == name
  {
  }

  lemma TokenFile(files: map<string, string>, secret: map<string, string>, key: string)
    requires WritesToken(files, secret) && key in secret && key != TOKEN_GENERATED_BY && key != "generated-by"
    ensures FileContent(files, key) == secret[key]
  {
    assert FileName(key) in files;
  }

  lemma RemovedReadsBack(s: Store, name: string, s': Store)
    requires Removed(s, name, s') && name in Unmarshalled(s.config).value.connectors
    ensures Unmarshalled(s'.config) == Ok(Disconnected(Unmarshalled(s.config).value, name))
  {
    UnmarshalledIsWellKeyed(s.config);
    DisconnectedIsWellKeyed(Unmarshalled(s.config).value, name);
    RoundTrip(s'.config, Disconnected(Unmarshalled(s.config).value, name));
  }

  ghost predicate ConnectorStep(s: Store, s': Store) {
    || (exists name, cost: int32 :: Created(s, name, cost, s'))
    || (exists name :: CreateFailed(s, name, s'))
    || (exists name :: Removed(s, name, s'))
  }

  lemma StepKeepsSound(s: Store, s': Store)
    requires Sound(s) && ConnectorStep(s, s')
    ensures Sound(s')
  {
    var c := Unmarshalled(s.config).value;
    if exists name, cost: int32 :: Created(s, name, cost, s') {
      var name, cost: int32 :| Created(s, name, cost, s');
      CreatedReadsBack(s, name, cost, s');
      ConnectedKeepsLinked(c, s.connections, name, cost, s'.connections[name]);
    } else if exists name :: Removed(s, name, s') {
      var name :| Removed(s, name, s');
      if name in c.connectors {
        RemovedReadsBack(s, name, s');
        DisconnectedKeepsLinked(c, s.connections, name);
      }
    }
  }

  /** Over any run of creates and removes, failed ones included: the configuration on file can be
      read, the directories are the connectors, and every profile in use exists. */
  lemma {:induction false} RunsStaySound(run: seq<Store>, i: nat)
    requires i < |run| && Sound(run[0])
    requires forall j :: 0 < j < |run| ==> ConnectorStep(run[j - 1], run[j])
    ensures Sound(run[i])
    ensures var c := Unmarshalled(run[i].config).value;
      && c.connectors.Keys == run[i].connections.Keys
      && (forall k :: k in c.connectors ==> c.connectors[k].sslProfile in c.sslProfiles)
      && (forall k :: k in c.listeners && c.listeners[k].sslProfile != "" ==>
            c.listeners[k].sslProfile in c.sslProfiles)
  {
    if i > 0 {
      RunsStaySound(run, i - 1);
      StepKeepsSound(run[i - 1], run[i]);
    }
  }

  /** Removing a just-created connector gives the earlier configuration and directories back. */
  lemma RemoveUndoesCreate(s: Store, name: string, cost: int32, s': Store, s'': Store)
    requires Sound(s) && Created(s, name, cost, s') && Removed(s', name, s'')
    ensures Unmarshalled(s''.config) == Unmarshalled(s.config)
    ensures s''.connections == s.connections
  {
    var c, files := Unmarshalled(s.config).value, s'.connections[name];
    CreatedReadsBack(s, name, cost, s');
    var d := Unmarshalled(s'.config).value;
    assert d == Connected(c, name, cost, files) && name in d.connectors;
    RemovedReadsBack(s', name, s'');
    DisconnectUndoesConnect(c, s.connections, name, cost, files);
    assert Unmarshalled(s''.config) == Ok(Disconnected(d, name));
  }

  lemma DisconnectUndoesConnect(c: Config, connections: map<string, map<string, string>>, name: string, cost: int32,
                                files: map<string, string>)
    requires Linked(c, connections) && name !in connections
    ensures Disconnected(Connected(c, name, cost, files), name) == c
    ensures connections[name := files] - {name} == connections
  {
    var d := Connected(c, name, cost, files);
    assert name !in c.connectors && ProfileName(name) !in c.sslProfiles;
    RemoveAdded(c.connectors, name, d.connectors[name]);
    RemoveAdded(c.sslProfiles, ProfileName(name), d.sslProfiles[ProfileName(name)]);
    RemoveAdded(connections, name, files);
  }

  lemma RemoveAdded<V>(m: map<string, V>, k: string, v: V)
    requires k !in m
    ensures m[k := v] - {k} == m
  {
  }

  // ---------------------------------------------------------------- the first configuration

  datatype Console = NoConsole | InternalConsole | UnsecuredConsole

  function PlainListener(name: string, host: string, port: int32): Listener {
    Listener(name, "", host, port, false, false, 0, "", "", false, 0, "", false, false, false)
  }

  function SecureListener(name: string, role: string, port: int32, profile: string): Listener {
    Listener(name, role, "0.0.0.0", port, false, false, 0, profile, "EXTERNAL", true, 0, "", false, false, false)
  }

  /** The part that every site's router has. */
  function CommonConfig(name: string, siteId: string, edge: bool): Config {
    var c0 := InitialConfig(name + "-${HOSTNAME}", siteId, edge);
    var c1 := Filed(c0, Addr(Address.Address("mc", "multicast")));
    var c2 := Filed(c1, Listen(NamedListener(
      Listener("", "normal", "0.0.0.0", 9090, false, true, 0, "", "", false, 0, "disabled", false, true, true))));
    var c3 := Filed(c2, Listen(PlainListener("amqp", "localhost", 5672)));
    var c4 := Filed(c3, Ssl(RouterProfile(SslProfile.SslProfile("skupper-amqps", "", "", ""))));
    Filed(c4, Listen(SecureListener("amqps", "", 5671, "skupper-amqps")))
  }

  function WithConsole(c: Config, console: Console): Config {
    match console
    case NoConsole => c
    case InternalConsole =>
      Filed(c, Listen(PlainListener("console", "0.0.0.0", 8080).(http := true, authenticatePeer := true)))
    case UnsecuredConsole => Filed(c, Listen(PlainListener("console", "0.0.0.0", 8080).(http := true)))
  }

  function WithInterior(c: Config): Config {
    var c1 := Filed(c, Ssl(RouterProfile(SslProfile.SslProfile(INTER_ROUTER_PROFILE, "", "", ""))));
    var c2 := Filed(c1, Listen(SecureListener("interior-listener", ROLE_INTER_ROUTER, 55671, INTER_ROUTER_PROFILE)));
    Filed(c2, Listen(SecureListener("edge-listener", ROLE_EDGE, EDGE_LISTENER_PORT, INTER_ROUTER_PROFILE)))
  }

  /** GetRouterSpecFromOpts: the configuration a new site's router starts with. */
  function FirstConfig(name: string, siteId: string, edge: bool, console: Console): Config {
    var c := WithConsole(CommonConfig(name, siteId, edge), console);
    if edge then c else WithInterior(c)
  }

  /** Profiles of a router's own listeners cannot be mistaken for a connection's. */
  lemma OwnProfilesAreNotConnections(profile: string)
    requires profile == "skupper-amqps" || profile == INTER_ROUTER_PROFILE
    ensures !IsConnectionProfile(profile)
  {
    forall name ensures profile != ProfileName(name) {
      assert ProfileName(name)[|ProfileName(name)| - 1] == 'e';
      assert profile[|profile| - 1] != 'e';
    }
  }

  ghost predicate Unconnected(c: Config) {
    && c.connectors == map[]
    && (forall p :: p in c.sslProfiles ==> !IsConnectionProfile(p))
    && (forall k :: k in c.listeners && c.listeners[k].sslProfile != "" ==> c.listeners[k].sslProfile in c.sslProfiles)
  }

  lemma ListenerKeepsUnconnected(c: Config, l: Listener)
    requires Unconnected(c) && WellKeyed(c) && (l.sslProfile == "" || l.sslProfile in c.sslProfiles)
    ensures Unconnected(Filed(c, Listen(l))) && WellKeyed(Filed(c, Listen(l)))
  {
    FiledIsWellKeyed(c, Listen(l));
  }

  lemma ProfileKeepsUnconnected(c: Config, p: SslProfile)
    requires Unconnected(c) && WellKeyed(c) && (p.name == "skupper-amqps" || p.name == INTER_ROUTER_PROFILE)
    ensures Unconnected(Filed(c, Ssl(p))) && WellKeyed(Filed(c, Ssl(p)))
    ensures p.name in Filed(c, Ssl(p)).sslProfiles
  {
    FiledIsWellKeyed(c, Ssl(p));
    OwnProfilesAreNotConnections(p.name);
  }

  lemma CommonIsUnconnected(name: string, siteId: string, edge: bool)
    ensures Unconnected(CommonConfig(name, siteId, edge)) && WellKeyed(CommonConfig(name, siteId, edge))
  {
    var c0 := InitialConfig(name + "-${HOSTNAME}", siteId, edge);
    var c1 := Filed(c0, Addr(Address.Address("mc", "multicast")));
    var health := NamedListener(
      Listener("", "normal", "0.0.0.0", 9090, false, true, 0, "", "", false, 0, "disabled", false, true, true));
    var c2 := Filed(c1, Listen(health));
    var amqp := PlainListener("amqp", "localhost", 5672);
    var c3 := Filed(c2, Listen(amqp));
    var profile := RouterProfile(SslProfile.SslProfile("skupper-amqps", "", "", ""));
    assert WellKeyed(c0);
    FiledIsWellKeyed(c0, Addr(Address.Address("mc", "multicast")));
    ListenerKeepsUnconnected(c1, health);
    ListenerKeepsUnconnected(c2, amqp);
    ProfileKeepsUnconnected(c3, profile);
    ListenerKeepsUnconnected(Filed(c3, Ssl(profile)), SecureListener("amqps", "", 5671, "skupper-amqps"));
  }

  lemma InteriorIsUnconnected(c: Config)
    requires Unconnected(c) && WellKeyed(c)
    ensures Unconnected(WithInterior(c)) && WellKeyed(WithInterior(c))
  {
    var profile := RouterProfile(SslProfile.SslProfile(INTER_ROUTER_PROFILE, "", "", ""));
    var c1 := Filed(c, Ssl(profile));
    ProfileKeepsUnconnected(c, profile);
    var interior := SecureListener("interior-listener", ROLE_INTER_ROUTER, 55671, INTER_ROUTER_PROFILE);
    ListenerKeepsUnconnected(c1, interior);
    ListenerKeepsUnconnected(Filed(c1, Listen(interior)),
                             SecureListener("edge-listener", ROLE_EDGE, EDGE_LISTENER_PORT, INTER_ROUTER_PROFILE));
  }

  /** A new site starts sound: whatever order its first configuration was written in. */
  lemma NewSiteIsSound(name: string, siteId: string, edge: bool, console: Console, config: Json)
    requires Marshals(config, FirstConfig(name, siteId, edge, console))
    ensures Sound(Store(config, map[]))
  {
    var c := WithConsole(CommonConfig(name, siteId, edge), console);
    CommonIsUnconnected(name, siteId, edge);
    if console.InternalConsole? {
      ListenerKeepsUnconnected(CommonConfig(name, siteId, edge),
                               PlainListener("console", "0.0.0.0", 8080).(http := true, authenticatePeer := true));
    } else if console.UnsecuredConsole? {
      ListenerKeepsUnconnected(CommonConfig(name, siteId, edge),
                               PlainListener("console", "0.0.0.0", 8080).(http := true));
    }
    if !edge {
      InteriorIsUnconnected(c);
    }
    UnconnectedIsSound(config, FirstConfig(name, siteId, edge, console));
  }

  lemma UnconnectedIsSound(config: Json, c: Config)
    requires Unconnected(c) && WellKeyed(c) && Marshals(config, c)
    ensures Sound(Store(config, map[]))
  {
    RoundTrip(config, c);
    forall k ensures ProfileName(k) !in c.sslProfiles {
      assert IsConnectionProfile(ProfileName(k));
    }
  }
}
