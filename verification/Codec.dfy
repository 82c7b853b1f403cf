/** The codec of the router configuration: what a marshalled list is, what unmarshalling folds it
    to, and the laws between the two. */
module Codec {
  import opened Types
  import opened Json
  import opened Qdr

  // ---------------------------------------------------------------- a configuration, slot by slot

  /** Where an entity lives in a configuration: its section and its key there. */
  datatype Slot =
    | RouterSlot
    | SslSlot(key: string)
    | ConnSlot(key: string)
    | ListenSlot(key: string)
    | AddrSlot(key: string)
    | TcpConnSlot(key: string)
    | TcpListenSlot(key: string)
    | HttpConnSlot(key: string)
    | HttpListenSlot(key: string)

  /** The slot the decoder files an entity under: its own name, or an address's prefix. */
  function SlotOf(e: Entity): Slot {
    match e
    case Router(_) => RouterSlot
    case Ssl(profile) => SslSlot(profile.name)
    case Conn(connector) => ConnSlot(connector.name)
    case Listen(listener) => ListenSlot(listener.name)
    case Addr(address) => AddrSlot(address.prefix)
    case TcpConn(tcp) => TcpConnSlot(tcp.name)
    case TcpListen(tcp) => TcpListenSlot(tcp.name)
    case HttpConn(http) => HttpConnSlot(http.name)
    case HttpListen(http) => HttpListenSlot(http.name)
  }

  function Lookup(c: Config, slot: Slot): Option<Entity> {
    var b := c.bridges;
    match slot
    case RouterSlot => Some(Router(c.metadata))
    case SslSlot(k) => if k in c.sslProfiles then Some(Ssl(c.sslProfiles[k])) else None
    case ConnSlot(k) => if k in c.connectors then Some(Conn(c.connectors[k])) else None
    case ListenSlot(k) => if k in c.listeners then Some(Listen(c.listeners[k])) else None
    case AddrSlot(k) => if k in c.addresses then Some(Addr(c.addresses[k])) else None
    case TcpConnSlot(k) => if k in b.tcpConnectors then Some(TcpConn(b.tcpConnectors[k])) else None
    case TcpListenSlot(k) => if k in b.tcpListeners then Some(TcpListen(b.tcpListeners[k])) else None
    case HttpConnSlot(k) => if k in b.httpConnectors then Some(HttpConn(b.httpConnectors[k])) else None
    case HttpListenSlot(k) => if k in b.httpListeners then Some(HttpListen(b.httpListeners[k])) else None
  }

  predicate AgreeAt<V(==)>(m: map<string, V>, m': map<string, V>, k: string) {
    (k in m <==> k in m') && (k in m ==> m[k] == m'[k])
  }

  lemma SameMaps<V>(m: map<string, V>, m': map<string, V>)
    requires forall k :: AgreeAt(m, m', k)
    ensures m == m'
  {
    forall k ensures (k in m <==> k in m') && (k in m ==> m[k] == m'[k]) {
      assert AgreeAt(m, m', k);
    }
  }

  lemma SameSlotsSameConfig(c: Config, d: Config)
    requires forall slot :: Lookup(c, slot) == Lookup(d, slot)
    ensures c == d
  {
    assert Lookup(c, RouterSlot) == Lookup(d, RouterSlot);
    forall k ensures AgreeAt(c.sslProfiles, d.sslProfiles, k) {
      assert Lookup(c, SslSlot(k)) == Lookup(d, SslSlot(k));
    }
    SameMaps(c.sslProfiles, d.sslProfiles);
    forall k ensures AgreeAt(c.connectors, d.connectors, k) {
      assert Lookup(c, ConnSlot(k)) == Lookup(d, ConnSlot(k));
    }
    SameMaps(c.connectors, d.connectors);
    forall k ensures AgreeAt(c.listeners, d.listeners, k) {
      assert Lookup(c, ListenSlot(k)) == Lookup(d, ListenSlot(k));
    }
    SameMaps(c.listeners, d.listeners);
    forall k ensures AgreeAt(c.addresses, d.addresses, k) {
      assert Lookup(c, AddrSlot(k)) == Lookup(d, AddrSlot(k));
    }
    SameMaps(c.addresses, d.addresses);
    SameSlotsSameBridges(c, d);
  }

  lemma SameSlotsSameBridges(c: Config, d: Config)
    requires forall slot :: Lookup(c, slot) == Lookup(d, slot)
    ensures c.bridges == d.bridges
  {
    forall k ensures AgreeAt(c.bridges.tcpConnectors, d.bridges.tcpConnectors, k) {
      assert Lookup(c, TcpConnSlot(k)) == Lookup(d, TcpConnSlot(k));
    }
    SameMaps(c.bridges.tcpConnectors, d.bridges.tcpConnectors);
    forall k ensures AgreeAt(c.bridges.tcpListeners, d.bridges.tcpListeners, k) {
      assert Lookup(c, TcpListenSlot(k)) == Lookup(d, TcpListenSlot(k));
    }
    SameMaps(c.bridges.tcpListeners, d.bridges.tcpListeners);
    forall k ensures AgreeAt(c.bridges.httpConnectors, d.bridges.httpConnectors, k) {
      assert Lookup(c, HttpConnSlot(k)) == Lookup(d, HttpConnSlot(k));
    }
    SameMaps(c.bridges.httpConnectors, d.bridges.httpConnectors);
    forall k ensures AgreeAt(c.bridges.httpListeners, d.bridges.httpListeners, k) {
      assert Lookup(c, HttpListenSlot(k)) == Lookup(d, HttpListenSlot(k));
    }
    SameMaps(c.bridges.httpListeners, d.bridges.httpListeners);
  }

  /** Every section is keyed by the entity's own name (or prefix). */
  ghost predicate WellKeyed(c: Config) {
    forall slot :: Lookup(c, slot).Some? ==> SlotOf(Lookup(c, slot).value) == slot
  }

  lemma WellKeyedBySections(c: Config)
    requires forall k :: k in c.sslProfiles ==> c.sslProfiles[k].name == k
    requires forall k :: k in c.connectors ==> c.connectors[k].name == k
    requires forall k :: k in c.listeners ==> c.listeners[k].name == k
    requires forall k :: k in c.addresses ==> c.addresses[k].prefix == k
    requires forall k :: k in c.bridges.tcpConnectors ==> c.bridges.tcpConnectors[k].name == k
    requires forall k :: k in c.bridges.tcpListeners ==> c.bridges.tcpListeners[k].name == k
    requires forall k :: k in c.bridges.httpConnectors ==> c.bridges.httpConnectors[k].name == k
    requires forall k :: k in c.bridges.httpListeners ==> c.bridges.httpListeners[k].name == k
    ensures WellKeyed(c)
  {
  }

  // ---------------------------------------------------------------- unmarshalling

  /** What the decoder's switch does with one entity. */
  function Filed(c: Config, e: Entity): Config {
    match e
    case Router(metadata) => c.(metadata := metadata)
    case Ssl(profile) => c.(sslProfiles := c.sslProfiles[profile.name := profile])
    case Conn(connector) => c.(connectors := c.connectors[connector.name := connector])
    case Listen(listener) => c.(listeners := c.listeners[listener.name := listener])
    case Addr(address) => c.(addresses := c.addresses[address.prefix := address])
    case TcpConn(t) => c.(bridges := c.bridges.(tcpConnectors := c.bridges.tcpConnectors[t.name := t]))
    case TcpListen(t) => c.(bridges := c.bridges.(tcpListeners := c.bridges.tcpListeners[t.name := t]))
    case HttpConn(h) => c.(bridges := c.bridges.(httpConnectors := c.bridges.httpConnectors[h.name := h]))
    case HttpListen(h) => c.(bridges := c.bridges.(httpListeners := c.bridges.httpListeners[h.name := h]))
  }

  lemma FiledAt(c: Config, e: Entity, slot: Slot)
    ensures Lookup(Filed(c, e), slot) == if slot == SlotOf(e) then Some(e) else Lookup(c, slot)
  {
  }

  function Folded(elements: seq<Json>): Result<Config> {
    if elements == [] then Ok(EMPTY_CONFIG)
    else
      var c :- Folded(elements[..|elements| - 1]);
      var e :- Decode(elements[|elements| - 1]);
      Ok(if e.Some? then Filed(c, e.value) else c)
  }

  function Unmarshalled(config: Json): Result<Config> {
    if config.Array? then Folded(config.elements) else Err("expected array at top level")
  }

  ghost predicate AllDecode(elements: seq<Json>) {
    forall x :: x in elements ==> Decode(x).Ok?
  }

  lemma DecodesWhenFolded(elements: seq<Json>)
    requires Folded(elements).Ok?
    ensures AllDecode(elements)
  {
    if i :| 0 <= i < |elements| && Decode(elements[i]).Err? {
      FoldStopsAt(elements, i);
    }
  }

  method ReadElement(element: Json) returns (r: Result<Option<Entity>>)
    ensures r.Ok? <==> Decode(element).Ok?
    ensures r.Ok? ==> r == Decode(element)
  {
    if !element.Array? || |element.elements| != 2 {
      return Err("Invalid JSON for router configuration, expected array with type and value");
    }
    if !element.elements[0].String? {
      return Err("Invalid JSON for router configuration, expected entity type as string");
    }
    r := DecodeValue(element.elements[0].s, element.elements[1]);
  }

  method UnmarshalRouterConfig(config: Json) returns (r: Result<Config>)
    ensures r.Ok? <==> Unmarshalled(config).Ok?
    ensures r.Ok? <==> config.Array? && AllDecode(config.elements)
    ensures r.Ok? ==> r == Unmarshalled(config)
  {
    var result := EMPTY_CONFIG;
    if !config.Array? {
      return Err("Invalid JSON for router configuration, expected array at top level");
    }
    var elements := config.elements;
    for i := 0 to |elements|
      invariant Folded(elements[..i]) == Ok(result)
    {
      var element := elements[i];
      assert elements[..i + 1][..i] == elements[..i];
      var read := ReadElement(element);
      if read.Err? {
        FoldStopsAt(elements, i);
        return Err(read.error);
      }
      if read.value.Some? {
        result := Filed(result, read.value.value);
      }
    }
    assert elements[..|elements|] == elements;
    DecodesWhenFolded(elements);
    return Ok(result);
  }

  lemma {:induction false} FoldStopsAt(elements: seq<Json>, i: nat)
    requires i < |elements| && Decode(elements[i]).Err?
    ensures Folded(elements).Err?
    decreases |elements|
  {
    if i < |elements| - 1 {
      FoldStopsAt(elements[..|elements| - 1], i);
    }
  }

  lemma {:induction false} FoldsWhenAllDecode(elements: seq<Json>)
    requires forall x :: x in elements ==> Decode(x).Ok?
    ensures Folded(elements).Ok?
  {
    if elements != [] {
      FoldsWhenAllDecode(elements[..|elements| - 1]);
      assert elements[|elements| - 1] in elements;
    }
  }

  // ---------------------------------------------------------------- order

  ghost predicate Mentions(elements: seq<Json>, e: Entity) {
    exists x :: x in elements && Decode(x) == Ok(Some(e))
  }

  /** No two elements are filed under one slot with different content. */
  ghost predicate Consistent(elements: seq<Json>) {
    forall e, f :: Mentions(elements, e) && Mentions(elements, f) && SlotOf(e) == SlotOf(f) ==> e == f
  }

  /** The last mention of a slot wins. */
  lemma {:induction false} SlotAfterFold(elements: seq<Json>, slot: Slot) returns (e: Option<Entity>)
    requires Folded(elements).Ok?
    ensures Lookup(Folded(elements).value, slot) == if e.Some? then e else Lookup(EMPTY_CONFIG, slot)
    ensures e.Some? ==> Mentions(elements, e.value) && SlotOf(e.value) == slot
    ensures e.None? ==> forall f :: Mentions(elements, f) ==> SlotOf(f) != slot
  {
    if elements == [] {
      e := None;
    } else {
      var rest, x := elements[..|elements| - 1], elements[|elements| - 1];
      assert forall y :: y in elements <==> y in rest || y == x;
      e := SlotAfterFold(rest, slot);
      if Decode(x).value.Some? {
        FiledAt(Folded(rest).value, Decode(x).value.value, slot);
        if SlotOf(Decode(x).value.value) == slot {
          e := Decode(x).value;
        }
      }
    }
  }

  /** Two lists of consistent elements with the same members fold to the same configuration. */
  lemma SameMembersSameFold(elements: seq<Json>, others: seq<Json>)
    requires Folded(elements).Ok? && Folded(others).Ok? && Consistent(elements)
    requires forall x :: x in elements <==> x in others
    ensures Folded(elements) == Folded(others)
  {
    assert forall e :: Mentions(elements, e) <==> Mentions(others, e);
    forall slot ensures Lookup(Folded(elements).value, slot) == Lookup(Folded(others).value, slot) {
      var e := SlotAfterFold(elements, slot);
      var f := SlotAfterFold(others, slot);
    }
    SameSlotsSameConfig(Folded(elements).value, Folded(others).value);
  }

  const KINDS := {"router", "address", "connector", "listener", "sslProfile",
                  "tcpConnector", "tcpListener", "httpConnector", "httpListener"}

  /** An element of a type the decoder does not know changes nothing, wherever it stands. */
  lemma {:induction false} UnknownTypesAreSkipped(front: seq<Json>, kind: string, value: Json, back: seq<Json>)
    requires kind !in KINDS
    ensures SameOutcome(Folded(front + back), Folded(front + [Array([String(kind), value])] + back))
  {
    var x := Array([String(kind), value]);
    if back == [] {
      UnknownTypeDecodesToNothing(kind, value);
      assert front + [x] + back == front + [x] && front + back == front;
    } else {
      var rest, last := back[..|back| - 1], back[|back| - 1];
      UnknownTypesAreSkipped(front, kind, value, rest);
      assert front + back == (front + rest) + [last];
      assert front + [x] + back == (front + [x] + rest) + [last];
    }
  }

  lemma UnknownTypeDecodesToNothing(kind: string, value: Json)
    requires kind !in KINDS
    ensures Decode(Array([String(kind), value])) == Ok(None)
  {
  }

  ghost predicate SameOutcome(r: Result<Config>, r': Result<Config>) {
    if r.Ok? then r == r' else r'.Err?
  }

  ghost predicate OrderFree(elements: seq<Json>) {
    forall others :: multiset(others) == multiset(elements) ==> SameOutcome(Folded(elements), Folded(others))
  }

  /** A list, unknown types included, decodes to the same outcome in every order exactly when no two
      of its elements disagree about a slot, or some element cannot be decoded at all. */
  lemma OrderFreeIffConsistent(elements: seq<Json>)
    ensures OrderFree(elements) <==> Consistent(elements) || !AllDecode(elements)
  {
    if !AllDecode(elements) {
      FailsInEveryOrder(elements);
    } else {
      FoldsWhenAllDecode(elements);
      if Consistent(elements) {
        forall others | multiset(others) == multiset(elements) ensures SameOutcome(Folded(elements), Folded(others)) {
          SameMembers(elements, others);
          FoldsWhenAllDecode(others);
          SameMembersSameFold(elements, others);
        }
      } else {
        OrderMatters(elements);
      }
    }
  }

  lemma FailsInEveryOrder(elements: seq<Json>)
    requires !AllDecode(elements)
    ensures OrderFree(elements) && Folded(elements).Err?
  {
    forall others | multiset(others) == multiset(elements) ensures Folded(others).Err? {
      SameMembers(elements, others);
      var i :| 0 <= i < |others| && Decode(others[i]).Err?;
      FoldStopsAt(others, i);
    }
  }

  lemma OrderMatters(elements: seq<Json>)
    requires AllDecode(elements) && !Consistent(elements)
    ensures !OrderFree(elements)
  {
    var e, f :| Mentions(elements, e) && Mentions(elements, f) && SlotOf(e) == SlotOf(f) && e != f;
    var x :| x in elements && Decode(x) == Ok(Some(e));
    var y :| y in elements && Decode(y) == Ok(Some(f));
    var xs := MovedLast(elements, x);
    var ys := MovedLast(elements, y);
    LastElementWins(xs, e);
    LastElementWins(ys, f);
    assert Folded(xs) != Folded(ys);
  }

  lemma SameMembers(elements: seq<Json>, others: seq<Json>)
    requires multiset(others) == multiset(elements)
    ensures forall x :: x in elements <==> x in others
  {
    forall x ensures x in elements <==> x in others {
      assert x in elements <==> x in multiset(elements);
      assert x in others <==> x in multiset(others);
    }
  }

  lemma MovedLast(elements: seq<Json>, x: Json) returns (moved: seq<Json>)
    requires x in elements && forall y :: y in elements ==> Decode(y).Ok?
    ensures multiset(moved) == multiset(elements)
    ensures moved != [] && moved[|moved| - 1] == x && Folded(moved).Ok?
  {
    var i :| 0 <= i < |elements| && elements[i] == x;
    moved := elements[..i] + elements[i + 1..] + [x];
    assert elements == elements[..i] + [x] + elements[i + 1..];
    SameMembers(elements, moved);
    FoldsWhenAllDecode(moved);
  }

  lemma LastElementWins(elements: seq<Json>, e: Entity)
    requires elements != [] && Decode(elements[|elements| - 1]) == Ok(Some(e)) && Folded(elements).Ok?
    ensures Lookup(Folded(elements).value, SlotOf(e)) == Some(e)
  {
    FiledAt(Folded(elements[..|elements| - 1]).value, e, SlotOf(e));
  }

  // ---------------------------------------------------------------- round trip

  ghost predicate Stores(c: Config, e: Entity) {
    exists slot :: Lookup(c, slot) == Some(e)
  }

  function Encoded(es: seq<Entity>): (elements: seq<Json>)
    ensures |elements| == |es|
    ensures forall i :: 0 <= i < |es| ==> elements[i] == Encode(es[i])
  {
    seq(|es|, i requires 0 <= i < |es| => Encode(es[i]))
  }

  /** A section of the written list: the entities of one type, by key. */
  type Section = map<string, Entity>

  ghost predicate InSection(section: Section, e: Entity) {
    exists k :: k in section && section[k] == e
  }

  function MetadataSection(c: Config): Section {
    map["" := Router(c.metadata)]
  }

  function SslSection(c: Config): Section {
    map k | k in c.sslProfiles :: Ssl(c.sslProfiles[k])
  }

  function ConnSection(c: Config): Section {
    map k | k in c.connectors :: Conn(c.connectors[k])
  }

  function ListenSection(c: Config): Section {
    map k | k in c.listeners :: Listen(c.listeners[k])
  }

  function AddrSection(c: Config): Section {
    map k | k in c.addresses :: Addr(c.addresses[k])
  }

  function TcpConnSection(b: BridgeConfig): Section {
    map k | k in b.tcpConnectors :: TcpConn(b.tcpConnectors[k])
  }

  function TcpListenSection(b: BridgeConfig): Section {
    map k | k in b.tcpListeners :: TcpListen(b.tcpListeners[k])
  }

  function HttpConnSection(b: BridgeConfig): Section {
    map k | k in b.httpConnectors :: HttpConn(b.httpConnectors[k])
  }

  function HttpListenSection(b: BridgeConfig): Section {
    map k | k in b.httpListeners :: HttpListen(b.httpListeners[k])
  }

  const SECTIONS: nat := 9

  /** The sections in the order in which they are written. */
  function SectionAt(c: Config, i: nat): Section
    requires i < SECTIONS
  {
    if i == 0 then MetadataSection(c)
    else if i == 1 then SslSection(c)
    else if i == 2 then ConnSection(c)
    else if i == 3 then ListenSection(c)
    else if i == 4 then AddrSection(c)
    else if i == 5 then TcpConnSection(c.bridges)
    else if i == 6 then TcpListenSection(c.bridges)
    else if i == 7 then HttpConnSection(c.bridges)
    else HttpListenSection(c.bridges)
  }

  /** Some order of a section's entities, each once. */
  ghost predicate ListsSection(es: seq<Entity>, section: Section) {
    |es| == |section| && forall e :: e in es <==> InSection(section, e)
  }

  /** The first sections, each in some order. */
  ghost predicate ListsSections(parts: seq<seq<Entity>>, c: Config) {
    |parts| <= SECTIONS && forall i :: 0 <= i < |parts| ==> ListsAt(parts, c, i)
  }

  ghost predicate ListsAt(parts: seq<seq<Entity>>, c: Config, i: nat)
    requires i < |parts| <= SECTIONS
  {
    ListsSection(parts[i], SectionAt(c, i))
  }

  /** One after the other. */
  function Flat(parts: seq<seq<Entity>>): seq<Entity> {
    if parts == [] then [] else Flat(parts[..|parts| - 1]) + parts[|parts| - 1]
  }

  /** A possible output of marshalling: Go's map order picks the order within each section. */
  ghost predicate Marshals(json: Json, c: Config) {
    json.Array? && exists parts :: MarshalsAs(json.elements, parts, c)
  }

  ghost predicate MarshalsAs(elements: seq<Json>, parts: seq<seq<Entity>>, c: Config) {
    |parts| == SECTIONS && ListsSections(parts, c) && elements == Encoded(Flat(parts))
  }

  lemma ListsOneMore(parts: seq<seq<Entity>>, c: Config, more: seq<Entity>)
    requires |parts| < SECTIONS && ListsSections(parts, c) && ListsSection(more, SectionAt(c, |parts|))
    ensures ListsSections(parts + [more], c)
    ensures Flat(parts + [more]) == Flat(parts) + more
  {
    forall i | 0 <= i < |parts| + 1 ensures ListsAt(parts + [more], c, i) {
      assert i < |parts| ==> ListsAt(parts, c, i);
    }
    assert (parts + [more])[..|parts|] == parts;
  }

  lemma {:induction false} FlatMembers(parts: seq<seq<Entity>>, e: Entity)
    ensures e in Flat(parts) <==> exists i :: 0 <= i < |parts| && e in parts[i]
  {
    if parts != [] {
      var n := |parts| - 1;
      FlatMembers(parts[..n], e);
      if i :| 0 <= i < |parts| && e in parts[i] {
        assert i < n ==> e in parts[..n][i];
      }
    }
  }

  ghost predicate InSome(c: Config, e: Entity) {
    exists i :: 0 <= i < SECTIONS && InSection(SectionAt(c, i), e)
  }

  lemma ListedMembers(parts: seq<seq<Entity>>, c: Config, e: Entity)
    requires |parts| == SECTIONS && ListsSections(parts, c)
    ensures e in Flat(parts) <==> InSome(c, e)
  {
    FlatMembers(parts, e);
    forall i | 0 <= i < |parts| ensures e in parts[i] <==> InSection(SectionAt(c, i), e) {
      assert ListsAt(parts, c, i);
    }
  }

  /** No section has two entities. */
  ghost predicate Single(c: Config) {
    forall i :: 0 <= i < SECTIONS ==> |SectionAt(c, i)| <= 1
  }

  lemma OneListing(parts: seq<seq<Entity>>, parts': seq<seq<Entity>>, c: Config)
    requires |parts| == |parts'| == SECTIONS
    requires ListsSections(parts, c) && ListsSections(parts', c) && Single(c)
    ensures parts == parts'
  {
    forall i | 0 <= i < SECTIONS ensures parts[i] == parts'[i] {
      assert ListsAt(parts, c, i) && ListsAt(parts', c, i);
      OneOrder(parts[i], parts'[i], SectionAt(c, i));
    }
  }

  lemma OneOrder(es: seq<Entity>, es': seq<Entity>, section: Section)
    requires ListsSection(es, section) && ListsSection(es', section) && |section| <= 1
    ensures es == es'
  {
    if es != [] {
      assert es[0] in es && es[0] in es';
    }
  }

  /** A configuration without two entities of one type can be written in one way only. */
  lemma OneDocument(json: Json, json': Json, c: Config)
    requires Marshals(json, c) && Marshals(json', c) && Single(c)
    ensures json == json'
  {
    var parts :| MarshalsAs(json.elements, parts, c);
    var parts' :| MarshalsAs(json'.elements, parts', c);
    OneListing(parts, parts', c);
  }

  /** Where the list has what a slot holds: section and key. */
  function PlaceOf(slot: Slot): (int, string) {
    match slot
    case RouterSlot => (0, "")
    case SslSlot(k) => (1, k)
    case ConnSlot(k) => (2, k)
    case ListenSlot(k) => (3, k)
    case AddrSlot(k) => (4, k)
    case TcpConnSlot(k) => (5, k)
    case TcpListenSlot(k) => (6, k)
    case HttpConnSlot(k) => (7, k)
    case HttpListenSlot(k) => (8, k)
  }

  function SlotAt(i: nat, k: string): Slot {
    if i == 0 then RouterSlot
    else if i == 1 then SslSlot(k)
    else if i == 2 then ConnSlot(k)
    else if i == 3 then ListenSlot(k)
    else if i == 4 then AddrSlot(k)
    else if i == 5 then TcpConnSlot(k)
    else if i == 6 then TcpListenSlot(k)
    else if i == 7 then HttpConnSlot(k)
    else HttpListenSlot(k)
  }

  lemma ListedIsStored(c: Config, i: nat, k: string)
    requires i < SECTIONS && k in SectionAt(c, i)
    ensures Lookup(c, SlotAt(i, k)) == Some(SectionAt(c, i)[k])
  {
  }

  lemma StoredIsListed(c: Config, slot: Slot)
    requires Lookup(c, slot).Some?
    ensures var (i, k) := PlaceOf(slot);
      0 <= i < SECTIONS && k in SectionAt(c, i) && SectionAt(c, i)[k] == Lookup(c, slot).value
  {
  }

  lemma StoredIffListed(c: Config, e: Entity)
    ensures Stores(c, e) <==> InSome(c, e)
  {
    if slot :| Lookup(c, slot) == Some(e) {
      StoredIsListed(c, slot);
      assert InSection(SectionAt(c, PlaceOf(slot).0), e);
    }
    if i :| 0 <= i < SECTIONS && InSection(SectionAt(c, i), e) {
      var k :| k in SectionAt(c, i) && SectionAt(c, i)[k] == e;
      ListedIsStored(c, i, k);
    }
  }

  /** The decoder files every entity under its own name, so its result is always well keyed. */
  lemma UnmarshalledIsWellKeyed(json: Json)
    requires Unmarshalled(json).Ok?
    ensures WellKeyed(Unmarshalled(json).value)
  {
    var c := Unmarshalled(json).value;
    forall slot | Lookup(c, slot).Some? ensures SlotOf(Lookup(c, slot).value) == slot {
      var e := SlotAfterFold(json.elements, slot);
    }
  }

  /** Unmarshalling a marshalled configuration gives it back, in whatever order the elements came
      out, exactly when the configuration is well keyed. */
  lemma RoundTripIff(json: Json, c: Config)
    requires Marshals(json, c)
    ensures Unmarshalled(json) == Ok(c) <==> WellKeyed(c)
  {
    if WellKeyed(c) {
      RoundTrip(json, c);
    } else if Unmarshalled(json).Ok? {
      UnmarshalledIsWellKeyed(json);
    }
  }

  lemma RoundTrip(json: Json, c: Config)
    requires WellKeyed(c) && Marshals(json, c)
    ensures Unmarshalled(json) == Ok(c)
  {
    var parts :| MarshalsAs(json.elements, parts, c);
    EncodedMentions(Flat(parts));
    forall e ensures e in Flat(parts) <==> Stores(c, e) {
      ListedMembers(parts, c, e);
      StoredIffListed(c, e);
    }
    FoldsWhenAllDecode(json.elements);
    forall slot ensures Lookup(Folded(json.elements).value, slot) == Lookup(c, slot) {
      SlotRestored(json.elements, c, slot);
    }
    SameSlotsSameConfig(Folded(json.elements).value, c);
  }

  lemma SlotRestored(elements: seq<Json>, c: Config, slot: Slot)
    requires WellKeyed(c) && Folded(elements).Ok?
    requires forall e :: Mentions(elements, e) <==> Stores(c, e)
    ensures Lookup(Folded(elements).value, slot) == Lookup(c, slot)
  {
    var e := SlotAfterFold(elements, slot);
    if Lookup(c, slot).Some? {
      assert Stores(c, Lookup(c, slot).value);
    }
    if e.Some? {
      var s :| Lookup(c, s) == Some(e.value);
    }
  }

  lemma EncodedMentions(es: seq<Entity>)
    ensures forall e :: Mentions(Encoded(es), e) <==> e in es
    ensures forall x :: x in Encoded(es) ==> Decode(x).Ok?
  {
    var elements := Encoded(es);
    forall i | 0 <= i < |es| ensures Decode(elements[i]) == Ok(Some(es[i])) {
      EntityRoundTrip(es[i]);
    }
    forall e | e in es ensures Mentions(elements, e) {
      var i :| 0 <= i < |es| && es[i] == e;
      assert elements[i] in elements;
    }
  }
}
