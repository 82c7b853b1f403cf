/** What one site's steps keep and what they can touch: exactness of the indexes, ownership,
    quiescence and the safety of taking over a remote service. */
module SyncProperties {
  import opened Types
  import opened ServiceSync
  import opened ServiceEdits

  /** The indexes say exactly what the file says. */
  ghost predicate Exact(s: Site) {
    && Settled(s)
    && forall o, n :: Holds(s.byOrigin, o, n) <==> RemoteEntry(s.file, n, o)
  }

  lemma ExactOriginsAreDisjoint(s: Site, o: string, p: string, n: string)
    requires Exact(s) && Holds(s.byOrigin, o, n) && Holds(s.byOrigin, p, n)
    ensures o == p
  {
    assert RemoteEntry(s.file, n, o) && RemoteEntry(s.file, n, p);
  }

  /** A pass over a file in which no held name has become local prunes nothing. */
  lemma WatchWithoutTakeover(s: Site, s': Site)
    requires KeyedByAddress(s.file) && Watched(s, s')
    requires forall o, n :: Holds(s.byOrigin, o, n) ==> !LocalEntry(s.file, n)
    ensures Settled(s')
    ensures forall o, n :: Holds(s'.byOrigin, o, n) <==>
                           Holds(s.byOrigin, o, n) || RemoteEntry(s.file, n, o)
  {
    WatchSettles(s, s');
    forall o, n ensures Holds(s'.byOrigin, o, n) <==> Holds(s.byOrigin, o, n) || RemoteEntry(s.file, n, o) {
      if LocalEntry(s.file, n) {
        assert ParedOnce(s.byOrigin, s'.byOrigin, n);
      }
    }
  }

  lemma PassAddsOnlyEntries(s: Site, s': Site, o: string, n: string)
    requires Watched(s, s') && Holds(s'.byOrigin, o, n)
    ensures Holds(s.byOrigin, o, n) || RemoteEntry(s.file, n, o)
  {
    if LocalEntry(s.file, n) {
      assert ParedOnce(s.byOrigin, s'.byOrigin, n);
    }
  }

  // ---------------------------------------------------------------- exactness

  /** The first pass, from empty indexes, makes them exact whatever the file holds. */
  lemma FirstPassIsExact(s: Site, s': Site)
    requires KeyedByAddress(s.file) && s.byOrigin == map[] && Watched(s, s')
    ensures Exact(s')
  {
    WatchWithoutTakeover(s, s');
  }

  lemma ReceiveKeepsExact(s: Site, o: string, defs: Services, now: Time, s': Site)
    requires Exact(s) && OfferFrom(o, defs)
    requires Watched(Received(s, o, defs, now), s')
    ensures Exact(s')
  {
    var r := Received(s, o, defs, now);
    forall p, n | Holds(r.byOrigin, p, n) ensures RemoteEntry(r.file, n, p) {
      HeldSurvivesReceive(s, o, defs, now, p, n);
    }
    ExactAfterWatch(r, s');
  }

  lemma HeldSurvivesReceive(s: Site, o: string, defs: Services, now: Time, p: string, n: string)
    requires Exact(s) && OfferFrom(o, defs)
    requires Holds(Received(s, o, defs, now).byOrigin, p, n)
    ensures RemoteEntry(Received(s, o, defs, now).file, n, p)
  {
    assert Holds(s.byOrigin, p, n);
    if n in Deleted(s, o, defs) {
      assert Holds(s.byOrigin, o, n);
    }
  }

  /** If every held name is a remote entry of its origin, the pass makes the indexes exact. */
  lemma ExactAfterWatch(r: Site, s': Site)
    requires KeyedByAddress(r.file) && Watched(r, s')
    requires forall p, n :: Holds(r.byOrigin, p, n) ==> RemoteEntry(r.file, n, p)
    ensures Exact(s')
  {
    WatchWithoutTakeover(r, s');
  }

  lemma AgeKeepsExact(s: Site, now: Time, s': Site)
    requires Exact(s) && Watched(Aged(s, now), s')
    ensures Exact(s')
  {
    var r := Aged(s, now);
    forall p, n | Holds(r.byOrigin, p, n) ensures RemoteEntry(r.file, n, p) {
      HeldSurvivesAge(s, now, p, n);
    }
    ExactAfterWatch(r, s');
  }

  lemma HeldSurvivesAge(s: Site, now: Time, p: string, n: string)
    requires Exact(s) && Holds(Aged(s, now).byOrigin, p, n)
    ensures RemoteEntry(Aged(s, now).file, n, p)
  {
    assert Holds(s.byOrigin, p, n);
    if n in NamesOf(s.byOrigin, AgedOrigins(s, now)) {
      var q :| q in AgedOrigins(s, now) && q in s.byOrigin && n in s.byOrigin[q];
      assert Holds(s.byOrigin, q, n);
      ExactOriginsAreDisjoint(s, p, q, n);
    }
  }

  /** A user edit changes the file at one address only: there it stores a local definition, drops
      the entry, or leaves an entry of the same origin. */
  ghost predicate EditsOnly(file: Services, file': Services, a: string) {
    && KeyedByAddress(file')
    && forall n :: n != a ==> (n in file <==> n in file') && (n in file ==> file'[n] == file[n])
  }

  ghost predicate Strands(file: Services, file': Services, a: string) {
    a in file && !file[a].IsLocal() && !(a in file' && (file'[a].IsLocal() || file'[a].origin == file[a].origin))
  }

  /** After any change at one address the pass leaves exact indexes if and only if no remote entry
      left the file there. */
  lemma ChangeKeepsExactIff(s: Site, file': Services, a: string, s': Site)
    requires Exact(s) && EditsOnly(s.file, file', a)
    requires Watched(s.(file := file'), s')
    ensures Exact(s') <==> !Strands(s.file, file', a)
  {
    var r := s.(file := file');
    WatchSettles(r, s');
    forall p, n | n != a ensures Holds(s'.byOrigin, p, n) <==> RemoteEntry(s'.file, n, p) {
      assert Holds(s.byOrigin, p, n) <==> RemoteEntry(s.file, n, p);
      if LocalEntry(file', n) {
        assert ParedOnce(s.byOrigin, s'.byOrigin, n);
        forall q ensures !Holds(s.byOrigin, q, n) {
          assert !RemoteEntry(s.file, n, q);
        }
      }
    }
    if Strands(s.file, file', a) {
      var o := s.file[a].origin;
      assert RemoteEntry(s.file, a, o) && Holds(s.byOrigin, o, a);
      assert Holds(s'.byOrigin, o, a) && !RemoteEntry(s'.file, a, o);
    } else {
      forall p ensures Holds(s'.byOrigin, p, a) <==> RemoteEntry(s'.file, a, p) {
        assert Holds(s.byOrigin, p, a) <==> RemoteEntry(s.file, a, p);
        if LocalEntry(file', a) {
          assert ParedOnce(s.byOrigin, s'.byOrigin, a);
          TakeoverPares(s, s', a);
        }
      }
    }
  }

  /** The edits that take a learned service out of the file: its removal, or an unbind of all its
      targets with deletion asked for. */
  predicate TakesOut(edit: Edit, host: Host, file: Services) {
    var a := edit.Where();
    && RouterUp(host) && a in file && !file[a].IsLocal()
    && match edit
       case Remove(_) => true
       case Unbind(targetType, targetName, _, deleteIfNoTargets) =>
         && (targetType == "container" || targetType == "host-service")
         && deleteIfNoTargets && file[a].targets != []
         && forall t :: t in file[a].targets ==> Unbinds(host, a, targetName, t)
       case _ => false
  }

  lemma TakesOutIff(edit: Edit, host: Host, file: Services)
    requires KeyedByAddress(file)
    ensures TakesOut(edit, host, file) <==> Strands(file, Edited(edit, host, file), edit.Where())
  {
    var a := edit.Where();
    if edit.Unbind? && a in file {
      KeptMembers(host, a, edit.targetName, file[a].targets);
      var kept := Kept(host, a, edit.targetName, file[a].targets);
      assert kept == [] <==> forall t :: t in file[a].targets ==> Unbinds(host, a, edit.targetName, t) by {
        assert kept != [] ==> kept[0] in kept;
      }
    }
  }

  /** The exact condition for the client's edits, to be checked before the call: the indexes stay
      exact through every create, update and bind, through every edit of a local service, and through
      all others but those that take a learned service out. */
  lemma EditKeepsExactIff(s: Site, edit: Edit, host: Host, s': Site)
    requires Exact(s) && Watched(s.(file := Edited(edit, host, s.file)), s')
    ensures Exact(s') <==> !TakesOut(edit, host, s.file)
  {
    EditTouchesOneEntry(edit, host, s.file);
    TakesOutIff(edit, host, s.file);
    ChangeKeepsExactIff(s, Edited(edit, host, s.file), edit.Where(), s');
  }

  function Sample(origin: string): ServiceInterface {
    ServiceInterface("svc", "http", 80, false, "", None, [], origin, "")
  }

  /** The promise fails for the removal of a learned service: its name stays indexed. Should the
      user then create a service of that name, and the owner's next update (offering nothing) come
      before the watcher has run, the update deletes the user's service. */
  lemma RemovingALearnedServiceStrands(o: string, host: Host, w: Site, now: Time)
    requires !IsLocalOrigin(o) && RouterUp(host)
    requires Watched(Site("x", map[], map[o := {"svc"}], map[], map["svc" := Sample(o)], map[]), w)
    ensures Exact(Site("x", map["svc" := Sample(o)], map[o := {"svc"}], map[], map["svc" := Sample(o)], map[]))
    ensures Edited(Remove("svc"), host, map["svc" := Sample(o)]) == map[]
    ensures Holds(w.byOrigin, o, "svc") && !Exact(w)
    ensures "svc" !in Received(w.(file := map["svc" := Sample("")]), o, map[], now).file
  {
    assert Holds(w.byOrigin, o, "svc");
    assert !RemoteEntry(w.file, "svc", o);
  }

  /** With disjoint origins, a name that is local at the pass is in no origin after it. */
  lemma TakeoverPares(s: Site, s': Site, n: string)
    requires forall o, p :: Holds(s.byOrigin, o, n) && Holds(s.byOrigin, p, n) ==> o == p
    requires ParedOnce(s.byOrigin, s'.byOrigin, n)
    ensures forall o :: !Holds(s'.byOrigin, o, n)
  {
  }

  // ---------------------------------------------------------------- ownership

  /** o's update leaves the entries of everyone else alone. */
  ghost predicate RespectsOthers(s: Site, o: string, s': Site) {
    forall n :: n in s.file && s.file[n].origin != o ==> n in s'.file && s'.file[n] == s.file[n]
  }

  /** From a settled site, an update from o only adds absent addresses and changes or deletes o's
      own entries, exactly when the names it is about to delete are not someone else's entries. */
  lemma OwnershipIff(s: Site, o: string, defs: Services, now: Time)
    requires Settled(s)
    ensures RespectsOthers(s, o, Received(s, o, defs, now)) <==>
            forall n :: n in Deleted(s, o, defs) && n in s.file ==> s.file[n].origin == o
  {
    var s' := Received(s, o, defs, now);
    if n :| n in Deleted(s, o, defs) && n in s.file && s.file[n].origin != o {
      assert n !in s'.file;
    }
  }

  /** With exact indexes that condition always holds: the sets of changed and deleted names are
      disjoint, deletions are entries of o, and changes are entries of o or new addresses. */
  lemma OwnershipOfUpdates(s: Site, o: string, defs: Services, now: Time)
    requires Exact(s) && !IsLocalOrigin(o)
    ensures RespectsOthers(s, o, Received(s, o, defs, now))
    ensures Changed(s, o, defs).Keys !! Deleted(s, o, defs)
    ensures forall n :: n in Deleted(s, o, defs) ==> RemoteEntry(s.file, n, o)
    ensures forall n :: n in Changed(s, o, defs) ==> n !in s.file || RemoteEntry(s.file, n, o)
    ensures forall n :: n in Received(s, o, defs, now).file && n !in s.file ==> n in defs
  {
    forall n | n in Deleted(s, o, defs) ensures RemoteEntry(s.file, n, o) {
      assert Holds(s.byOrigin, o, n);
    }
    OwnershipIff(s, o, defs, now);
  }

  // ---------------------------------------------------------------- quiescence

  /** The definitions of o's update that end up in the file as o's. */
  ghost predicate Adopts(s: Site, o: string, n: string) {
    n !in s.file || s.file[n].origin == o
  }

  /** Hearing the same update again is a no-op on the file, exactly when no adopted definition
      carries a field that the index projection drops. */
  lemma QuiescenceIff(s: Site, o: string, defs: Services, now: Time, w: Site)
    requires Settled(s) && OfferFrom(o, defs)
    requires Watched(Received(s, o, defs, now), w)
    ensures (Changed(w, o, defs) == map[] && Deleted(w, o, defs) == {}) <==>
            forall n :: n in defs && Adopts(s, o, n) ==>
              !defs[n].eventChannel && defs[n].aggregate == ""
  {
    NothingDeletedAgain(s, o, defs, now, w);
    ChangesAgain(s, o, defs, now, w);
    NothingToDoIff(s, o, defs, Changed(w, o, defs));
  }

  lemma NothingToDoIff(s: Site, o: string, defs: Services, changed: Services)
    requires forall n :: n in changed <==>
               n in defs && Adopts(s, o, n) && (defs[n].eventChannel || defs[n].aggregate != "")
    ensures changed == map[] <==>
            forall n :: n in defs && Adopts(s, o, n) ==> !defs[n].eventChannel && defs[n].aggregate == ""
  {
    if changed != map[] {
      var n :| n in changed;
    }
  }

  lemma ChangesAgain(s: Site, o: string, defs: Services, now: Time, w: Site)
    requires Settled(s) && OfferFrom(o, defs)
    requires Watched(Received(s, o, defs, now), w)
    ensures forall n :: n in Changed(w, o, defs) <==>
              n in defs && Adopts(s, o, n) && (defs[n].eventChannel || defs[n].aggregate != "")
  {
    forall n | n in defs
      ensures n in Changed(w, o, defs) <==>
              Adopts(s, o, n) && (defs[n].eventChannel || defs[n].aggregate != "")
    {
      ChangedAgain(s, o, defs, now, w, n);
    }
  }

  /** An update with an event channel is written anew every time it is heard. */
  lemma LoudUpdateIsNeverQuiet(o: string, now: Time, w: Site)
    requires !IsLocalOrigin(o)
    requires Watched(Received(Site("x", map[], map[], map[], map[], map[]), o,
                              map["svc" := Sample(o).(eventChannel := true)], now), w)
    ensures "svc" in Changed(w, o, map["svc" := Sample(o).(eventChannel := true)])
  {
    var s, defs := Site("x", map[], map[], map[], map[], map[]), map["svc" := Sample(o).(eventChannel := true)];
    ChangedAgain(s, o, defs, now, w, "svc");
  }

  lemma NothingDeletedAgain(s: Site, o: string, defs: Services, now: Time, w: Site)
    requires Settled(s) && Watched(Received(s, o, defs, now), w)
    ensures Deleted(w, o, defs) == {}
  {
    forall n | n in w.byOrigin[o] ensures n in defs {
      assert Holds(w.byOrigin, o, n);
      HeldAfterOwnUpdate(s, o, defs, now, w, n);
    }
  }

  lemma ChangedAgain(s: Site, o: string, defs: Services, now: Time, w: Site, n: string)
    requires Settled(s) && OfferFrom(o, defs) && n in defs
    requires Watched(Received(s, o, defs, now), w)
    ensures n in Changed(w, o, defs) <==>
            Adopts(s, o, n) && (defs[n].eventChannel || defs[n].aggregate != "")
  {
    assert n !in Deleted(s, o, defs);
    if n in Changed(s, o, defs) {
      assert w.byName[n] == Project(defs[n]);
    } else {
      assert w.byName[n] == Project(s.file[n]) == s.byName[n];
    }
  }

  /** After o's own update its index holds nothing the update did not offer. */
  lemma HeldAfterOwnUpdate(s: Site, o: string, defs: Services, now: Time, w: Site, n: string)
    requires Settled(s) && Watched(Received(s, o, defs, now), w)
    requires Holds(w.byOrigin, o, n)
    ensures n in defs
  {
    var r := Received(s, o, defs, now);
    PassAddsOnlyEntries(r, w, o, n);
    if RemoteEntry(s.file, n, o) {
      assert Holds(s.byOrigin, o, n);
    }
  }

  /** A peer's sender broadcasts projections, so its updates always satisfy that condition. */
  lemma PeerUpdatesAreQuiescent(peer: Site, msg: seq<ServiceInterface>, s: Site, now: Time, w: Site, later: Time)
    requires peer.localServices == LocalPart(peer.file)
    requires Enumerates(msg, peer.localServices) && !IsLocalOrigin(peer.id)
    requires Settled(s)
    requires Watched(Received(s, peer.id, Indexed(msg, peer.id), now), w)
    ensures Changed(w, peer.id, Indexed(msg, peer.id)) == map[] && Deleted(w, peer.id, Indexed(msg, peer.id)) == {}
    ensures Received(w, peer.id, Indexed(msg, peer.id), later).file == w.file
  {
    var defs := Indexed(msg, peer.id);
    PeersSendProjections(peer, msg);
    QuiescenceIff(s, peer.id, defs, now, w);
    NothingToWrite(w, peer.id, defs, later);
  }

  lemma NothingToWrite(s: Site, o: string, defs: Services, now: Time)
    requires Changed(s, o, defs) == map[] && Deleted(s, o, defs) == {}
    ensures Received(s, o, defs, now).file == s.file
  {
    assert s.file + map[] - {} == s.file;
  }

  lemma PeersSendProjections(peer: Site, msg: seq<ServiceInterface>)
    requires peer.localServices == LocalPart(peer.file)
    requires Enumerates(msg, peer.localServices)
    ensures forall n :: n in Indexed(msg, peer.id) ==>
              !Indexed(msg, peer.id)[n].eventChannel && Indexed(msg, peer.id)[n].aggregate == ""
  {
    var defs := Indexed(msg, peer.id);
    IndexedComesFromList(msg, peer.id);
    forall n | n in defs ensures !defs[n].eventChannel && defs[n].aggregate == "" {
      var d :| d in msg && d.(origin := peer.id) == defs[n];
      assert d == Project(peer.file[d.address]);
    }
  }

  lemma {:induction false} IndexedComesFromList(defs: seq<ServiceInterface>, o: string)
    ensures forall n :: n in Indexed(defs, o) ==>
              exists d :: d in defs && d.(origin := o) == Indexed(defs, o)[n]
  {
    if defs != [] {
      var rest, d := defs[..|defs| - 1], defs[|defs| - 1];
      IndexedComesFromList(rest, o);
      assert d in defs && forall e :: e in rest ==> e in defs;
    }
  }

  /** Whatever order the sender's map loop took, the receiver decodes the same offer. */
  lemma {:induction false} IndexedOfEnumeration(defs: seq<ServiceInterface>, services: Services, o: string)
    requires KeyedByAddress(services)
    requires forall d :: d in defs <==> d.address in services && services[d.address] == d
    ensures Indexed(defs, o) == map n | n in services :: services[n].(origin := o)
  {
    IndexedComesFromList(defs, o);
    IndexedCoversList(defs, o);
    forall n | n in services ensures n in Indexed(defs, o) {
      assert services[n] in defs;
    }
    forall n | n in Indexed(defs, o) ensures n in services && Indexed(defs, o)[n] == services[n].(origin := o) {
      var d :| d in defs && d.(origin := o) == Indexed(defs, o)[n];
      assert Indexed(defs, o)[n].address == n;
    }
  }

  /** Of several definitions of an address the receiver keeps the last, as the sender's. */
  lemma {:induction false} LastDefinitionWins(defs: seq<ServiceInterface>, o: string, i: nat)
    requires i < |defs| && forall j :: i < j < |defs| ==> defs[j].address != defs[i].address
    ensures defs[i].address in Indexed(defs, o)
    ensures Indexed(defs, o)[defs[i].address] == defs[i].(origin := o)
    decreases |defs|
  {
    if i < |defs| - 1 {
      LastDefinitionWins(defs[..|defs| - 1], o, i);
    }
  }

  /** What a settled site advertises: the services that the user defined or annotated, with their
      address, protocol, port and headless data and nothing else. */
  lemma AdvertisedExactly(s: Site, n: string)
    requires s.localServices == LocalPart(s.file)
    ensures n in s.localServices <==> n in s.file && (s.file[n].origin == "" || s.file[n].origin == "annotation")
    ensures n in s.localServices ==>
              var a, si := s.localServices[n], s.file[n];
              && a.address == si.address && a.protocol == si.protocol && a.port == si.port
              && a.headless == si.headless && a.origin == si.origin
              && !a.eventChannel && a.aggregate == "" && a.targets == [] && a.alias == ""
  {
  }

  lemma {:induction false} IndexedCoversList(defs: seq<ServiceInterface>, o: string)
    ensures forall d :: d in defs ==> d.address in Indexed(defs, o)
  {
    if defs != [] {
      IndexedCoversList(defs[..|defs| - 1], o);
      forall d | d in defs ensures d.address in Indexed(defs, o) {
        assert d in defs[..|defs| - 1] || d == defs[|defs| - 1];
      }
    }
  }

  // ---------------------------------------------------------------- taking over a remote service

  /** After the pass that follows a takeover the name is in no origin, in every outcome of the
      pass, exactly when at most one origin held it. */
  lemma TakeoverClearsIff(s: Site, n: string)
    requires LocalEntry(s.file, n)
    ensures (forall s' :: Watched(s, s') ==> forall o :: !Holds(s'.byOrigin, o, n)) <==>
            (forall o, p :: Holds(s.byOrigin, o, n) && Holds(s.byOrigin, p, n) ==> o == p)
  {
    if forall o, p :: Holds(s.byOrigin, o, n) && Holds(s.byOrigin, p, n) ==> o == p {
      forall s' | Watched(s, s') ensures forall o :: !Holds(s'.byOrigin, o, n) {
        assert ParedOnce(s.byOrigin, s'.byOrigin, n);
        TakeoverPares(s, s', n);
      }
    } else {
      var o, p :| Holds(s.byOrigin, o, n) && Holds(s.byOrigin, p, n) && o != p;
      var s' := Watch(s);
      WatchIsAPass(s);
      assert Watched(s, s') && ParedOnce(s.byOrigin, s'.byOrigin, n);
      assert Holds(s'.byOrigin, o, n) || Holds(s'.byOrigin, p, n);
    }
  }

  /** n is the user's own, is known as such since some watcher pass, and no origin claims it. */
  ghost predicate Secured(s: Site, n: string) {
    && KeyedByAddress(s.file) && LocalEntry(s.file, n)
    && n in s.byName && s.byName[n].IsLocal()
    && forall o :: !Holds(s.byOrigin, o, n)
  }

  // The steps of a site, each on its own, whether or not the watcher has seen the last write.

  ghost predicate UpdateStep(s: Site, s': Site) {
    exists o, defs, now :: OfferFrom(o, defs) && s' == Received(s, o, defs, now)
  }

  ghost predicate TickStep(s: Site, s': Site) {
    exists now :: s' == Aged(s, now)
  }

  /** An edit of any service but n. */
  ghost predicate OtherEditStep(s: Site, n: string, s': Site) {
    exists a, file' :: a != n && EditsOnly(s.file, file', a) && s' == s.(file := file')
  }

  ghost predicate RestartStep(s: Site, s': Site) {
    exists now :: Restarted(s, now, s')
  }

  ghost predicate ForeignStep(s: Site, n: string, s': Site) {
    || UpdateStep(s, s') || TickStep(s, s') || Watched(s, s')
    || OtherEditStep(s, n, s') || RestartStep(s, s')
  }

  lemma ForeignStepKeepsSecured(s: Site, n: string, s': Site)
    requires Secured(s, n) && ForeignStep(s, n, s')
    ensures Secured(s', n) && s'.file[n] == s.file[n]
  {
    if UpdateStep(s, s') {
      var o, defs, now :| OfferFrom(o, defs) && s' == Received(s, o, defs, now);
      ReceiveKeepsSecured(s, n, o, defs, now);
    } else if TickStep(s, s') {
      var now :| s' == Aged(s, now);
      TickKeepsSecured(s, n, now);
    } else if Watched(s, s') {
      SecuredAfterWatch(s, n, s');
    } else if RestartStep(s, s') {
      RestartKeepsSecured(s, n, s');
    }
  }

  lemma RestartKeepsSecured(s: Site, n: string, s': Site)
    requires Secured(s, n) && RestartStep(s, s')
    ensures Secured(s', n) && s'.file[n] == s.file[n]
  {
    var now :| Restarted(s, now, s');
    var w :| Watched(Site(s.id, s.file, map[], map[], map[], map[]), w) && s' == Seeded(w, now);
    SecuredAfterWatch(Site(s.id, s.file, map[], map[], map[], map[]), n, w);
    assert s'.file == w.file && s'.byOrigin == w.byOrigin;
  }

  lemma TickKeepsSecured(s: Site, n: string, now: Time)
    requires Secured(s, n)
    ensures Secured(Aged(s, now), n) && Aged(s, now).file[n] == s.file[n]
  {
    forall o | o in s.byOrigin ensures n !in s.byOrigin[o] {
      assert !Holds(s.byOrigin, o, n);
    }
  }

  lemma ReceiveKeepsSecured(s: Site, n: string, o: string, defs: Services, now: Time)
    requires Secured(s, n) && OfferFrom(o, defs)
    ensures Secured(Received(s, o, defs, now), n) && Received(s, o, defs, now).file[n] == s.file[n]
  {
    assert !Holds(s.byOrigin, o, n);
    forall p ensures !Holds(Received(s, o, defs, now).byOrigin, p, n) {
      assert !Holds(s.byOrigin, p, n);
    }
  }

  lemma SecuredAfterWatch(r: Site, n: string, s': Site)
    requires KeyedByAddress(r.file) && LocalEntry(r.file, n) && Watched(r, s')
    requires AtMostOneHolder(r.byOrigin, n)
    ensures Secured(s', n) && s'.file == r.file
  {
    assert ParedOnce(r.byOrigin, s'.byOrigin, n);
    TakeoverPares(r, s', n);
  }

  /** At most one origin claims n. */
  ghost predicate AtMostOneHolder(index: Index, n: string) {
    forall o, p :: Holds(index, o, n) && Holds(index, p, n) ==> o == p
  }

  /** A run after the user stored si: a pass, then any steps of others. */
  ghost predicate TakeoverRun(s: Site, si: ServiceInterface, run: seq<Site>) {
    && run != [] && Watched(s.(file := s.file[si.address := si]), run[0])
    && forall j :: 0 < j < |run| ==> ForeignStep(run[j - 1], si.address, run[j])
  }

  /** Taking over a remote service is safe: if at most one origin claims the name, then once the user
      stored a local definition and the watcher ran, no later update, age tick, pass, restart or edit
      of another service, in any order, removes or alters it. */
  lemma {:induction false} TakeoverIsSafe(s: Site, si: ServiceInterface, run: seq<Site>, i: nat)
    requires KeyedByAddress(s.file) && si.IsLocal() && AtMostOneHolder(s.byOrigin, si.address)
    requires TakeoverRun(s, si, run) && i < |run|
    ensures Secured(run[i], si.address) && run[i].file[si.address] == si
  {
    if i == 0 {
      SecuredAfterWatch(s.(file := s.file[si.address := si]), si.address, run[0]);
    } else {
      TakeoverIsSafe(s, si, run, i - 1);
      ForeignStepKeepsSecured(run[i - 1], si.address, run[i]);
    }
  }

  ghost predicate TakeoverLasts(s: Site, si: ServiceInterface) {
    forall run: seq<Site>, i :: TakeoverRun(s, si, run) && 0 <= i < |run| ==>
      si.address in run[i].file && run[i].file[si.address] == si
  }

  /** The exact condition, over all runs. */
  lemma TakeoverIsSafeIff(s: Site, si: ServiceInterface)
    requires KeyedByAddress(s.file) && si.IsLocal() && forall o :: o in s.byOrigin ==> !IsLocalOrigin(o)
    ensures TakeoverLasts(s, si) <==> AtMostOneHolder(s.byOrigin, si.address)
  {
    if AtMostOneHolder(s.byOrigin, si.address) {
      forall run: seq<Site>, i | TakeoverRun(s, si, run) && 0 <= i < |run|
        ensures si.address in run[i].file && run[i].file[si.address] == si
      {
        TakeoverIsSafe(s, si, run, i);
      }
    } else {
      var run := TakeoverUndone(s, si);
      assert TakeoverRun(s, si, run) && si.address !in run[1].file;
    }
  }

  /** Were two origins to claim the name, the pass could leave one claim, and that origin's next
      update would delete the user's service. */
  lemma TakeoverUndone(s: Site, si: ServiceInterface) returns (run: seq<Site>)
    requires KeyedByAddress(s.file) && si.IsLocal() && !AtMostOneHolder(s.byOrigin, si.address)
    requires forall o :: o in s.byOrigin ==> !IsLocalOrigin(o)
    ensures |run| == 2 && TakeoverRun(s, si, run) && si.address !in run[1].file
  {
    var taken := s.(file := s.file[si.address := si]);
    var w, o := OneClaimStays(taken, si.address);
    var w' := ClaimDeletes(w, o, si.address);
    run := [w, w'];
  }

  lemma OneClaimStays(s: Site, n: string) returns (w: Site, o: string)
    requires LocalEntry(s.file, n) && !AtMostOneHolder(s.byOrigin, n)
    ensures Watched(s, w) && Holds(s.byOrigin, o, n) && Holds(w.byOrigin, o, n)
  {
    w := Watch(s);
    WatchIsAPass(s);
    assert ParedOnce(s.byOrigin, w.byOrigin, n);
    o :| Holds(s.byOrigin, o, n) && Holds(w.byOrigin, o, n);
  }

  lemma ClaimDeletes(w: Site, o: string, n: string) returns (w': Site)
    requires Holds(w.byOrigin, o, n) && !IsLocalOrigin(o)
    ensures UpdateStep(w, w') && n !in w'.file
  {
    w' := Received(w, o, map[], 0);
    assert OfferFrom(o, map[]);
  }
}
