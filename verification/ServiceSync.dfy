/** One site of the service-sync protocol, as values: the definition file, the in-memory indexes,
    and what every step of cmd/service-controller/service_sync.go does to them.

    The watcher pass is a relation and not a function: Go visits maps in an arbitrary order, and
    pareByOrigin drops a name from whichever holding origin it meets first. */
module ServiceSync {
  import opened Types

  /** byOrigin: which names each origin is believed to own. Only the names are ever read. */
  type Index = map<string, set<string>>

  datatype Site = Site(
    id: string,
    file: Services,
    byOrigin: Index,
    localServices: Services,
    byName: Services,
    heardFrom: map<string, Time>)

  /** A broadcast on the sync address: the sender's id and its local definitions, in any order. */
  datatype Message = Message(origin: string, defs: seq<ServiceInterface>)

  const AGE_LIMIT: Time := 60 * SECOND
  const AGE_PERIOD: Time := 30 * SECOND

  // ---------------------------------------------------------------- the index projection

  /** What the indexes keep of a definition: no event channel, aggregation, targets or alias. */
  function Project(si: ServiceInterface): ServiceInterface {
    ServiceInterface(si.address, si.protocol, si.port, false, "", si.headless, [], si.origin, "")
  }

  function ProjectAll(file: Services): Services {
    map n | n in file :: Project(file[n])
  }

  function LocalPart(file: Services): Services {
    map n | n in file && file[n].IsLocal() :: Project(file[n])
  }

  predicate Equivalent(a: ServiceInterface, b: ServiceInterface) {
    && a.protocol == b.protocol && a.port == b.port
    && a.eventChannel == b.eventChannel && a.aggregate == b.aggregate
    && a.headless == b.headless
  }

  predicate LocalEntry(file: Services, n: string) {
    n in file && file[n].IsLocal()
  }

  predicate RemoteEntry(file: Services, n: string, o: string) {
    n in file && !file[n].IsLocal() && file[n].origin == o
  }

  function RemoteOrigins(file: Services): set<string> {
    set n | n in file && !file[n].IsLocal() :: file[n].origin
  }

  predicate Holds(index: Index, o: string, n: string) {
    o in index && n in index[o]
  }

  // ---------------------------------------------------------------- the watcher pass

  /** At most one holder of n loses it, and one does if there is any. */
  ghost predicate ParedOnce(before: Index, after: Index, n: string) {
    || (forall o :: !Holds(before, o, n) && !Holds(after, o, n))
    || exists p :: && Holds(before, p, n) && !Holds(after, p, n)
                   && forall o :: o != p ==> (Holds(after, o, n) <==> Holds(before, o, n))
  }

  /** serviceSyncDefinitionsUpdated on byOrigin: remote entries of the file are added, each local
      name is pared from one holder, and nothing else is pruned. */
  ghost predicate Reindexed(file: Services, before: Index, after: Index) {
    && after.Keys == before.Keys + RemoteOrigins(file)
    && (forall o, n :: !LocalEntry(file, n) ==>
          (Holds(after, o, n) <==> Holds(before, o, n) || RemoteEntry(file, n, o)))
    && (forall n :: LocalEntry(file, n) ==> ParedOnce(before, after, n))
  }

  ghost predicate Watched(s: Site, s': Site) {
    && Reindexed(s.file, s.byOrigin, s'.byOrigin)
    && s' == s.(byOrigin := s'.byOrigin,
                localServices := LocalPart(s.file),
                byName := ProjectAll(s.file))
  }

  /** What a watcher pass leaves true until the file is next written. */
  ghost predicate Settled(s: Site) {
    && KeyedByAddress(s.file)
    && s.byName == ProjectAll(s.file)
    && s.localServices == LocalPart(s.file)
    && forall n, o :: RemoteEntry(s.file, n, o) ==> Holds(s.byOrigin, o, n)
  }

  lemma WatchSettles(s: Site, s': Site)
    requires KeyedByAddress(s.file) && Watched(s, s')
    ensures Settled(s')
  {
    forall n, o | RemoteEntry(s'.file, n, o) ensures Holds(s'.byOrigin, o, n) {
      assert !LocalEntry(s.file, n);
    }
  }

  // ---------------------------------------------------------------- sending and receiving

  /** Some order of the local services, as the sender's loop over the map produces it. */
  ghost predicate Enumerates(defs: seq<ServiceInterface>, services: Services) {
    && |defs| == |services|
    && forall d :: d in defs <==> d.address in services && services[d.address] == d
  }

  /** The decode arm: later definitions of an address win and every origin is overwritten. */
  function Indexed(defs: seq<ServiceInterface>, origin: string): (indexed: Services)
    ensures KeyedByAddress(indexed)
    ensures forall n :: n in indexed ==> indexed[n].origin == origin
  {
    if defs == [] then map[]
    else
      var d := defs[|defs| - 1].(origin := origin);
      Indexed(defs[..|defs| - 1], origin)[d.address := d]
  }

  /** An update as the decode arm hands it on: from a proper site id, indexed by address. */
  ghost predicate OfferFrom(o: string, defs: Services) {
    && !IsLocalOrigin(o) && KeyedByAddress(defs)
    && forall n :: n in defs ==> defs[n].origin == o
  }

  function Changed(s: Site, o: string, defs: Services): Services {
    map n | n in defs &&
            (n !in s.byName || (s.byName[n].origin == o && !Equivalent(defs[n], s.byName[n])))
      :: defs[n]
  }

  function Deleted(s: Site, o: string, defs: Services): set<string> {
    if o in s.byOrigin then s.byOrigin[o] - defs.Keys else {}
  }

  function Received(s: Site, o: string, defs: Services, now: Time): Site {
    var kept := if o in s.byOrigin then s.byOrigin[o] * defs.Keys else {};
    s.(heardFrom := s.heardFrom[o := now],
       byOrigin := s.byOrigin[o := kept],
       file := (s.file + Changed(s, o, defs)) - Deleted(s, o, defs))
  }

  // ---------------------------------------------------------------- ageing

  function AgedOrigins(s: Site, now: Time): set<string> {
    set o | o in s.byOrigin && o in s.heardFrom && now - s.heardFrom[o] >= AGE_LIMIT
  }

  function NamesOf(index: Index, origins: set<string>): set<string> {
    set o, n | o in origins && o in index && n in index[o] :: n
  }

  function Aged(s: Site, now: Time): Site {
    var aged := AgedOrigins(s, now);
    s.(heardFrom := s.heardFrom - aged,
       byOrigin := s.byOrigin - aged,
       file := s.file - NamesOf(s.byOrigin, aged))
  }

  // ---------------------------------------------------------------- start-up

  function Seeded(s: Site, now: Time): Site {
    s.(heardFrom := map o | o in s.heardFrom.Keys + (s.byOrigin.Keys - {s.id}) ::
                      if o in s.byOrigin && o != s.id then now else s.heardFrom[o])
  }

  /** A controller (re)start: empty indexes, one watcher pass, then every origin found in the file
      counts as heard now. */
  ghost predicate Restarted(s: Site, now: Time, s': Site) {
    exists w :: Watched(Site(s.id, s.file, map[], map[], map[], map[]), w) && s' == Seeded(w, now)
  }

  // ---------------------------------------------------------------- a pass always exists

  ghost function SomeHolder(index: Index, n: string): (o: string)
    requires exists p :: Holds(index, p, n)
    ensures Holds(index, o, n)
  {
    var p :| Holds(index, p, n); p
  }

  /** One possible outcome of the pass. */
  ghost function Reindex(file: Services, index: Index): Index {
    map o | o in index.Keys + RemoteOrigins(file) ::
      (set n | n in file && RemoteEntry(file, n, o)) +
      (if o in index
       then set n | n in index[o] && !(LocalEntry(file, n) && Holds(index, o, n) && SomeHolder(index, n) == o)
       else {})
  }

  lemma ReindexIsAPass(file: Services, index: Index)
    ensures Reindexed(file, index, Reindex(file, index))
  {
    var after := Reindex(file, index);
    forall n | LocalEntry(file, n) ensures ParedOnce(index, after, n) {
      ReindexPares(file, index, n);
    }
    forall o, n | RemoteEntry(file, n, o) ensures o in RemoteOrigins(file) {
      assert file[n].origin == o;
    }
  }

  lemma ReindexPares(file: Services, index: Index, n: string)
    requires LocalEntry(file, n)
    ensures ParedOnce(index, Reindex(file, index), n)
  {
    if exists p :: Holds(index, p, n) {
      var p := SomeHolder(index, n);
      assert Holds(index, p, n) && !Holds(Reindex(file, index), p, n);
    }
  }

  ghost function Watch(s: Site): Site {
    s.(byOrigin := Reindex(s.file, s.byOrigin),
       localServices := LocalPart(s.file),
       byName := ProjectAll(s.file))
  }

  lemma WatchIsAPass(s: Site)
    ensures Watched(s, Watch(s))
  {
    ReindexIsAPass(s.file, s.byOrigin);
  }
}
