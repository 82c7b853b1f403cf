/** Ageing out silent origins: every origin that owns an entry can be aged out, and when it is, over
    timed runs with an age tick every 30 seconds. */
module Ageing {
  import opened Types
  import opened ServiceSync
  import opened SyncProperties
  import opened ServiceEdits

  // ---------------------------------------------------------------- nobody escapes ageing

  /** Every other site that is indexed, or owns an entry of the file, has a last-heard time. */
  ghost predicate Agable(s: Site) {
    && KeyedByAddress(s.file)
    && (forall o :: o in s.byOrigin && o != s.id ==> o in s.heardFrom)
    && (forall n, o :: RemoteEntry(s.file, n, o) && o != s.id ==> o in s.heardFrom)
  }

  /** The seeding after the first watcher pass. */
  lemma RestartIsAgable(s: Site, now: Time, s': Site)
    requires KeyedByAddress(s.file) && Restarted(s, now, s')
    ensures Agable(s') && Exact(s')
  {
    var w :| Watched(Site(s.id, s.file, map[], map[], map[], map[]), w) && s' == Seeded(w, now);
    FirstPassIsExact(Site(s.id, s.file, map[], map[], map[], map[]), w);
    forall n, o | RemoteEntry(s'.file, n, o) && o != s.id ensures o in s'.heardFrom {
      assert Holds(w.byOrigin, o, n);
    }
    assert Exact(s') by {
      assert s'.byOrigin == w.byOrigin && s'.file == w.file;
    }
  }

  lemma WatchKeepsAgable(s: Site, s': Site)
    requires Agable(s) && Watched(s, s')
    ensures Agable(s')
  {
    forall o | o in s'.byOrigin && o != s.id ensures o in s.heardFrom {
      if o !in s.byOrigin {
        assert o in RemoteOrigins(s.file);
        var n :| n in s.file && !s.file[n].IsLocal() && s.file[n].origin == o;
        assert RemoteEntry(s.file, n, o);
      }
    }
  }

  lemma ReceiveKeepsAgable(s: Site, o: string, defs: Services, now: Time)
    requires Agable(s) && OfferFrom(o, defs)
    ensures Agable(Received(s, o, defs, now))
  {
    var r := Received(s, o, defs, now);
    forall n, p | RemoteEntry(r.file, n, p) && p != s.id ensures p in r.heardFrom {
      assert p == o || RemoteEntry(s.file, n, p);
    }
  }

  lemma EditKeepsAgable(s: Site, edit: Edit, host: Host)
    requires Agable(s)
    ensures Agable(s.(file := Edited(edit, host, s.file)))
  {
    var file' := Edited(edit, host, s.file);
    EditTouchesOneEntry(edit, host, s.file);
    forall n, o | RemoteEntry(file', n, o) && o != s.id ensures o in s.heardFrom {
      assert RemoteEntry(s.file, n, o);
    }
  }

  /** The tick deletes every entry of the other sites that it ages out. */
  ghost predicate TakesAllEntries(s: Site, now: Time) {
    forall n, o :: o in AgedOrigins(s, now) && o != s.id && RemoteEntry(s.file, n, o) ==>
      n in NamesOf(s.byOrigin, AgedOrigins(s, now))
  }

  /** A tick keeps that, and so it and the pass after it do, exactly when it deletes every entry of the
      other sites it ages out: an entry that the index had not caught up with would be stranded. */
  lemma TickKeepsAgableIff(s: Site, now: Time)
    requires Agable(s)
    ensures Agable(Aged(s, now)) <==> TakesAllEntries(s, now)
    ensures forall w :: Watched(Aged(s, now), w) ==> (Agable(w) <==> TakesAllEntries(s, now))
  {
    var aged, r := AgedOrigins(s, now), Aged(s, now);
    if n, o :| o in aged && o != s.id && RemoteEntry(s.file, n, o) && n !in NamesOf(s.byOrigin, aged) {
      assert RemoteEntry(r.file, n, o) && o !in r.heardFrom;
      forall w | Watched(r, w) ensures !Agable(w) {
        assert RemoteEntry(w.file, n, o);
      }
    } else {
      forall n, o | RemoteEntry(r.file, n, o) && o != s.id ensures o in r.heardFrom {
        assert RemoteEntry(s.file, n, o);
      }
      forall w | Watched(r, w) ensures Agable(w) {
        WatchKeepsAgable(r, w);
      }
    }
  }

  lemma SettledTickKeepsAgable(s: Site, now: Time)
    requires Agable(s) && Settled(s)
    ensures Agable(Aged(s, now))
  {
    forall n, o | o in AgedOrigins(s, now) && RemoteEntry(s.file, n, o)
      ensures n in NamesOf(s.byOrigin, AgedOrigins(s, now))
    {
      assert Holds(s.byOrigin, o, n);
    }
    TickKeepsAgableIff(s, now);
  }

  /** A step of a site in which every tick finds the file settled. */
  ghost predicate WatchedStep(s: Site, s': Site) {
    || Watched(s, s')
    || (exists o, defs, now :: OfferFrom(o, defs) && s' == Received(s, o, defs, now))
    || (exists edit, host :: s' == s.(file := Edited(edit, host, s.file)))
    || (exists now :: Settled(s) && s' == Aged(s, now))
    || (exists now :: Restarted(s, now, s'))
  }

  /** From a start-up on, every key of byOrigin other than the site's own id always has a
      last-heard time, however updates, edits, passes and ticks interleave. */
  lemma {:induction false} EveryOriginCanBeAgedOut(s: Site, run: seq<Site>, now: Time, i: nat)
    requires KeyedByAddress(s.file) && i < |run| && Restarted(s, now, run[0])
    requires forall j :: 0 < j < |run| ==> WatchedStep(run[j - 1], run[j])
    ensures Agable(run[i])
  {
    if i == 0 {
      RestartIsAgable(s, now, run[0]);
    } else {
      EveryOriginCanBeAgedOut(s, run, now, i - 1);
      WatchedStepKeepsAgable(run[i - 1], run[i]);
    }
  }

  lemma WatchedStepKeepsAgable(s: Site, s': Site)
    requires Agable(s) && WatchedStep(s, s')
    ensures Agable(s')
  {
    if Watched(s, s') {
      WatchKeepsAgable(s, s');
    } else if exists o, defs, now :: OfferFrom(o, defs) && s' == Received(s, o, defs, now) {
      var o, defs, now :| OfferFrom(o, defs) && s' == Received(s, o, defs, now);
      ReceiveKeepsAgable(s, o, defs, now);
    } else if exists edit, host :: s' == s.(file := Edited(edit, host, s.file)) {
      var edit, host :| s' == s.(file := Edited(edit, host, s.file));
      EditKeepsAgable(s, edit, host);
    } else if exists now :: Restarted(s, now, s') {
      var now :| Restarted(s, now, s');
      RestartIsAgable(s, now, s');
    } else {
      var now :| Settled(s) && s' == Aged(s, now);
      SettledTickKeepsAgable(s, now);
    }
  }

  /** n is an entry of o, which no tick can age out, and no other origin's business. */
  ghost predicate Stranded(s: Site, n: string, o: string) {
    && KeyedByAddress(s.file) && RemoteEntry(s.file, n, o) && o !in s.heardFrom
    && n in s.byName && s.byName[n].origin == o
    && forall p :: Holds(s.byOrigin, p, n) ==> p == o
  }

  /** The race the settled tick rules out: no pass has run since a service was learned when, 60
      seconds later, its origin is aged out. */
  lemma UnwatchedTickStrands(id: string, o: string, si: ServiceInterface, w: Site)
    requires !IsLocalOrigin(o) && o != id && si.origin == o
    requires Watched(Aged(Received(Site(id, map[], map[], map[], map[], map[]),
                                   o, map[si.address := si], 0), AGE_LIMIT), w)
    ensures Stranded(w, si.address, o)
  {
    var r := Received(Site(id, map[], map[], map[], map[], map[]), o, map[si.address := si], 0);
    assert r.byOrigin == map[o := {}] && o in AgedOrigins(r, AGE_LIMIT);
    assert RemoteEntry(r.file, si.address, o);
    assert NamesOf(r.byOrigin, AgedOrigins(r, AGE_LIMIT)) == {};
    WatchSettles(Aged(r, AGE_LIMIT), w);
  }

  /** An update of another origin. */
  ghost predicate OtherUpdateStep(s: Site, o: string, s': Site) {
    exists p, defs, now :: p != o && OfferFrom(p, defs) && s' == Received(s, p, defs, now)
  }

  /** A step in which o is not heard and n is not edited. */
  ghost predicate SilentStep(s: Site, n: string, o: string, s': Site) {
    OtherUpdateStep(s, o, s') || TickStep(s, s') || Watched(s, s') || OtherEditStep(s, n, s')
  }

  lemma SilentStepKeepsStranded(s: Site, n: string, o: string, s': Site)
    requires Stranded(s, n, o) && SilentStep(s, n, o, s')
    ensures Stranded(s', n, o) && s'.file[n] == s.file[n]
  {
    if OtherUpdateStep(s, o, s') {
      var p, defs, now :| p != o && OfferFrom(p, defs) && s' == Received(s, p, defs, now);
      OtherUpdateKeepsStranded(s, n, o, p, defs, now);
    } else if TickStep(s, s') {
      var now :| s' == Aged(s, now);
      TickKeepsStranded(s, n, o, now);
    } else if Watched(s, s') {
      forall p | Holds(s'.byOrigin, p, n) ensures p == o {
        PassAddsOnlyEntries(s, s', p, n);
      }
    }
  }

  lemma TickKeepsStranded(s: Site, n: string, o: string, now: Time)
    requires Stranded(s, n, o)
    ensures Stranded(Aged(s, now), n, o) && Aged(s, now).file[n] == s.file[n]
  {
    var aged := AgedOrigins(s, now);
    forall p | p in aged && p in s.byOrigin ensures n !in s.byOrigin[p] {
      assert p != o && !Holds(s.byOrigin, p, n);
    }
    assert n !in NamesOf(s.byOrigin, aged);
    forall p | Holds(Aged(s, now).byOrigin, p, n) ensures p == o {
      assert Holds(s.byOrigin, p, n);
    }
  }

  lemma OtherUpdateKeepsStranded(s: Site, n: string, o: string, p: string, defs: Services, now: Time)
    requires Stranded(s, n, o) && p != o && OfferFrom(p, defs)
    ensures Stranded(Received(s, p, defs, now), n, o) && Received(s, p, defs, now).file[n] == s.file[n]
  {
    assert !Holds(s.byOrigin, p, n);
    forall q | Holds(Received(s, p, defs, now).byOrigin, q, n) ensures q == o {
      assert Holds(s.byOrigin, q, n);
    }
  }

  /** A stranded entry stays, through any number of ticks, until its origin is heard again, the user
      edits it, or the controller restarts. */
  lemma {:induction false} StrandedStays(n: string, o: string, run: seq<Site>, i: nat)
    requires i < |run| && Stranded(run[0], n, o)
    requires forall j :: 0 < j < |run| ==> SilentStep(run[j - 1], n, o, run[j])
    ensures Stranded(run[i], n, o) && run[i].file[n] == run[0].file[n]
  {
    if i > 0 {
      StrandedStays(n, o, run, i - 1);
      SilentStepKeepsStranded(run[i - 1], n, o, run[i]);
    }
  }

  // ---------------------------------------------------------------- timed runs

  /** What can happen to a site, each event followed by a watcher pass. */
  datatype Event =
    | Heard(at: Time, origin: string, defs: Services)
    | AgeTick(at: Time)
    | UserEdit(at: Time, edit: Edit, host: Host)
    | Restart(at: Time)

  ghost predicate Occurs(s: Site, e: Event, s': Site) {
    match e
    case Heard(at, origin, defs) => OfferFrom(origin, defs) && Watched(Received(s, origin, defs, at), s')
    case AgeTick(at) => Watched(Aged(s, at), s')
    case UserEdit(_, edit, host) => Watched(s.(file := Edited(edit, host, s.file)), s')
    case Restart(at) => Restarted(s, at, s')
  }

  /** Events in the order of their times, with an age tick in every 30 seconds that begin after the
      last restart. */
  ghost predicate OnSchedule(events: seq<Event>) {
    && (forall i, j :: 0 <= i < j < |events| ==> events[i].at <= events[j].at)
    && (forall i, m ::
          0 <= i < |events| && events[0].at <= m && m + AGE_PERIOD <= events[i].at && !RestartedSince(events, m, i)
          ==> TickedIn(events, m, i))
  }

  ghost predicate RestartedSince(events: seq<Event>, m: Time, i: int) {
    exists j :: 0 <= j < i && j < |events| && events[j].Restart? && events[j].at >= m
  }

  ghost predicate TickedIn(events: seq<Event>, m: Time, i: int) {
    exists j :: 0 <= j < i && j < |events| && events[j].AgeTick? && m <= events[j].at < m + AGE_PERIOD
  }

  ghost predicate TimedRun(events: seq<Event>, run: seq<Site>) {
    && |run| == |events| + 1
    && OnSchedule(events)
    && Settled(run[0])
    && forall i :: 0 <= i < |events| ==> OccursAt(events, run, i)
  }

  ghost predicate OccursAt(events: seq<Event>, run: seq<Site>, i: nat)
    requires i < |events| == |run| - 1
  {
    Occurs(run[i], events[i], run[i + 1])
  }

  /** From exact indexes on, no user takes a learned service out of the file. */
  ghost predicate NothingStranded(events: seq<Event>, run: seq<Site>) {
    && |run| == |events| + 1
    && Exact(run[0])
    && forall i :: 0 <= i < |events| && events[i].UserEdit? ==>
         !TakesOut(events[i].edit, events[i].host, run[i].file)
  }

  predicate HeardFrom(e: Event, o: string) { e.Heard? && e.origin == o }

  lemma {:induction false} TimedRunIsSettled(events: seq<Event>, run: seq<Site>, i: nat)
    requires TimedRun(events, run) && i <= |events|
    ensures Settled(run[i])
  {
    if i > 0 {
      TimedRunIsSettled(events, run, i - 1);
      assert OccursAt(events, run, i - 1);
      OccurrenceKeepsSettled(run[i - 1], events[i - 1], run[i]);
    }
  }

  lemma OccurrenceKeepsSettled(s: Site, e: Event, s': Site)
    requires Settled(s) && Occurs(s, e, s')
    ensures Settled(s')
  {
    match e {
      case Heard(at, origin, defs) => WatchSettles(Received(s, origin, defs, at), s');
      case AgeTick(at) => WatchSettles(Aged(s, at), s');
      case UserEdit(_, edit, host) =>
        EditTouchesOneEntry(edit, host, s.file);
        WatchSettles(s.(file := Edited(edit, host, s.file)), s');
      case Restart(at) => RestartIsAgable(s, at, s');
    }
  }

  lemma {:induction false} TimedRunIsExact(events: seq<Event>, run: seq<Site>, i: nat)
    requires TimedRun(events, run) && NothingStranded(events, run) && i <= |events|
    ensures Exact(run[i])
  {
    if i > 0 {
      TimedRunIsExact(events, run, i - 1);
      assert OccursAt(events, run, i - 1);
      OccurrenceKeepsExact(run[i - 1], events[i - 1], run[i]);
    }
  }

  lemma OccurrenceKeepsExact(s: Site, e: Event, s': Site)
    requires Exact(s) && Occurs(s, e, s')
    requires e.UserEdit? ==> !TakesOut(e.edit, e.host, s.file)
    ensures Exact(s')
  {
    match e {
      case Heard(at, origin, defs) => ReceiveKeepsExact(s, origin, defs, at, s');
      case AgeTick(at) => AgeKeepsExact(s, at, s');
      case UserEdit(_, edit, host) =>
        EditTouchesOneEntry(edit, host, s.file);
        EditKeepsExactIff(s, edit, host, s');
      case Restart(at) => RestartIsAgable(s, at, s');
    }
  }

  /** What an event other than a receipt from o or a restart does to o's standing. */
  lemma StandingKept(s: Site, e: Event, s': Site, o: string)
    requires Occurs(s, e, s') && !HeardFrom(e, o) && !e.Restart?
    requires o in s.byOrigin && o in s.heardFrom
    requires e.AgeTick? ==> e.at - s.heardFrom[o] < AGE_LIMIT
    ensures o in s'.byOrigin && o in s'.heardFrom && s'.heardFrom[o] == s.heardFrom[o]
  {
  }

  /** With exact indexes a tick removes exactly the entries of the origins it ages out. */
  lemma TickSparesTheLive(s: Site, now: Time, s': Site, n: string)
    requires Exact(s) && Watched(Aged(s, now), s') && n in s.file
    ensures n in s'.file <==> !(!s.file[n].IsLocal() && s.file[n].origin in AgedOrigins(s, now))
    ensures n in s'.file ==> s'.file[n] == s.file[n]
  {
    var aged := AgedOrigins(s, now);
    if n in NamesOf(s.byOrigin, aged) {
      var q :| q in aged && q in s.byOrigin && n in s.byOrigin[q];
      assert Holds(s.byOrigin, q, n);
    }
    if RemoteEntry(s.file, n, s.file[n].origin) {
      assert Holds(s.byOrigin, s.file[n].origin, n);
    }
  }

  /** What a start records, and for how long: the time of the start for each other origin of the file,
      so that a tick takes none of their entries within the next 60 seconds, and all that were not
      heard from there on. */
  lemma RestartGivesAMinute(s: Site, now: Time, s': Site, at: Time)
    requires KeyedByAddress(s.file) && Restarted(s, now, s')
    ensures s'.file == s.file
    ensures forall o :: o in s'.heardFrom <==> o != s.id && exists n :: RemoteEntry(s.file, n, o)
    ensures forall o :: o in s'.heardFrom ==> s'.heardFrom[o] == now
    ensures at < now + 60 * SECOND ==> Aged(s', at) == s'
    ensures at >= now + 60 * SECOND ==>
              forall n, o :: RemoteEntry(s'.file, n, o) && o != s'.id ==> n !in Aged(s', at).file
  {
    RestartIsAgable(s, now, s');
    forall o ensures o in s'.heardFrom <==> o != s.id && exists n :: RemoteEntry(s.file, n, o) {
      OriginsAreNamed(s.file, o);
    }
    var aged := AgedOrigins(s', at);
    if at < now + 60 * SECOND {
      assert aged == {};
      assert NamesOf(s'.byOrigin, aged) == {};
      NothingAged(s');
    } else {
      forall n, o | RemoteEntry(s'.file, n, o) && o != s'.id ensures n in NamesOf(s'.byOrigin, aged) {
        assert Holds(s'.byOrigin, o, n) && o in aged;
      }
    }
  }

  lemma NothingAged(s: Site)
    ensures s.heardFrom - {} == s.heardFrom && s.byOrigin - {} == s.byOrigin && s.file - {} == s.file
  {
  }

  /** An origin is renewed when it is heard and, as every origin of the file, by a restart. */
  predicate Renewal(e: Event, o: string) { HeardFrom(e, o) || e.Restart? }

  /** The renewal leaves the origin indexed. */
  ghost predicate Renews(s: Site, e: Event, o: string) {
    HeardFrom(e, o) || (e.Restart? && o != s.id && exists n :: RemoteEntry(s.file, n, o))
  }

  lemma RenewalOnRecord(s: Site, e: Event, s': Site, o: string)
    requires KeyedByAddress(s.file) && Occurs(s, e, s') && Renewal(e, o)
    ensures o in s'.heardFrom ==> s'.heardFrom[o] == e.at
    ensures Renews(s, e, o) ==> o in s'.byOrigin && o in s'.heardFrom
  {
    if e.Restart? {
      RestartGivesAMinute(s, e.at, s', e.at);
      RestartIsAgable(s, e.at, s');
      if n :| RemoteEntry(s.file, n, o) && o != s.id {
        assert Holds(s'.byOrigin, o, n);
        assert s'.id == s.id;
      }
    }
  }

  lemma RecordKept(s: Site, e: Event, s': Site, o: string)
    requires Occurs(s, e, s') && !Renewal(e, o)
    ensures o in s'.heardFrom ==> o in s.heardFrom && s'.heardFrom[o] == s.heardFrom[o]
  {
  }

  /** What is on record for o is no older than any renewal since the first. */
  ghost predicate OnRecord(events: seq<Event>, s: Site, o: string, first: nat, i: nat)
    requires i <= |events|
  {
    o in s.heardFrom ==>
      forall j :: first <= j < i && Renewal(events[j], o) ==> events[j].at <= s.heardFrom[o]
  }

  lemma {:induction false} StaysOnRecord(events: seq<Event>, run: seq<Site>, o: string, first: nat, i: nat)
    requires TimedRun(events, run) && first < i <= |events| && Renewal(events[first], o)
    ensures OnRecord(events, run[i], o, first, i)
  {
    var s, e, s' := run[i - 1], events[i - 1], run[i];
    assert OccursAt(events, run, i - 1);
    if Renewal(e, o) {
      TimedRunIsSettled(events, run, i - 1);
      RenewalOnRecord(s, e, s', o);
    } else {
      StaysOnRecord(events, run, o, first, i - 1);
      RecordKept(s, e, s', o);
    }
  }

  ghost predicate RenewedLately(events: seq<Event>, o: string, first: nat, k: nat)
    requires k < |events|
  {
    exists j :: first <= j < k && Renewal(events[j], o) && events[k].at - events[j].at < AGE_LIMIT
  }

  lemma NotAgedNow(events: seq<Event>, run: seq<Site>, o: string, first: nat, k: nat)
    requires TimedRun(events, run) && first < k < |events| && Renewal(events[first], o)
    requires RenewedLately(events, o, first, k)
    ensures o !in AgedOrigins(run[k], events[k].at)
  {
    StaysOnRecord(events, run, o, first, k);
  }

  lemma {:induction false} StaysIndexed(events: seq<Event>, run: seq<Site>, o: string, first: nat, i: nat)
    requires TimedRun(events, run) && first < i <= |events| && HeardFrom(events[first], o)
    requires forall k :: first < k < i && events[k].AgeTick? ==> RenewedLately(events, o, first, k)
    requires forall k :: first < k < i ==> !events[k].Restart?
    ensures o in run[i].byOrigin && o in run[i].heardFrom
  {
    if HeardFrom(events[i - 1], o) {
      IndexedWhenHeard(events, run, o, i - 1);
    } else {
      StaysIndexed(events, run, o, first, i - 1);
      if events[i - 1].AgeTick? {
        NotAgedNow(events, run, o, first, i - 1);
      }
      StillIndexed(events, run, o, i - 1);
    }
  }

  lemma IndexedWhenHeard(events: seq<Event>, run: seq<Site>, o: string, i: nat)
    requires TimedRun(events, run) && i < |events| && HeardFrom(events[i], o)
    ensures o in run[i + 1].byOrigin && o in run[i + 1].heardFrom
  {
    assert OccursAt(events, run, i);
    TimedRunIsSettled(events, run, i);
    RenewalOnRecord(run[i], events[i], run[i + 1], o);
  }

  lemma StillIndexed(events: seq<Event>, run: seq<Site>, o: string, i: nat)
    requires TimedRun(events, run) && i < |events| && !Renewal(events[i], o)
    requires o in run[i].byOrigin && o in run[i].heardFrom
    requires events[i].AgeTick? ==> o !in AgedOrigins(run[i], events[i].at)
    ensures o in run[i + 1].byOrigin && o in run[i + 1].heardFrom
  {
    assert OccursAt(events, run, i);
    StandingKept(run[i], events[i], run[i + 1], o);
  }

  /** An origin whose renewals are always less than 60 seconds apart is never aged out: not from its
      first receipt on, nor from a restart on. It stays indexed until the next restart and, unless
      users strand names, no tick touches its entries. */
  lemma NeverAgedWhileHeard(events: seq<Event>, run: seq<Site>, o: string, first: nat, i: nat)
    requires TimedRun(events, run) && first < i < |events| && Renewal(events[first], o)
    requires forall k :: first < k <= i && events[k].AgeTick? ==> RenewedLately(events, o, first, k)
    ensures events[i].AgeTick? ==> o !in AgedOrigins(run[i], events[i].at)
    ensures HeardFrom(events[first], o) && (forall k :: first < k <= i ==> !events[k].Restart?) ==>
              o in run[i].byOrigin && o in run[i + 1].byOrigin
    ensures events[i].AgeTick? && NothingStranded(events, run) ==>
              forall n :: RemoteEntry(run[i].file, n, o) ==>
                n in run[i + 1].file && run[i + 1].file[n] == run[i].file[n]
  {
    if HeardFrom(events[first], o) && (forall k :: first < k <= i ==> !events[k].Restart?) {
      StaysIndexed(events, run, o, first, i);
      StaysIndexed(events, run, o, first, i + 1);
    }
    if events[i].AgeTick? {
      NotAgedNow(events, run, o, first, i);
      if NothingStranded(events, run) {
        TimedRunIsExact(events, run, i);
        assert OccursAt(events, run, i);
        forall n | RemoteEntry(run[i].file, n, o)
          ensures n in run[i + 1].file && run[i + 1].file[n] == run[i].file[n]
        {
          TickSparesTheLive(run[i], events[i].at, run[i + 1], n);
        }
      }
    }
  }

  /** Until a tick 60 seconds after the last renewal, the renewal's time is on record. */
  lemma {:induction false} LastReceiptOnRecord(events: seq<Event>, run: seq<Site>, o: string, j: nat, i: nat)
    requires TimedRun(events, run) && j < i <= |events| && Renews(run[j], events[j], o)
    requires forall k :: j < k < i ==> !Renewal(events[k], o)
    requires forall k :: j < k < i && events[k].AgeTick? ==> events[k].at < events[j].at + AGE_LIMIT
    ensures o in run[i].byOrigin && o in run[i].heardFrom && run[i].heardFrom[o] == events[j].at
  {
    if i > j + 1 {
      LastReceiptOnRecord(events, run, o, j, i - 1);
      assert OccursAt(events, run, i - 1);
      StandingKept(run[i - 1], events[i - 1], run[i], o);
    } else {
      TimedRunIsSettled(events, run, j);
      assert OccursAt(events, run, j);
      RenewalOnRecord(run[j], events[j], run[i], o);
    }
  }

  /** Once nothing in the file is o's, only a receipt from o can change that. */
  lemma {:induction false} GoneUntilHeard(events: seq<Event>, run: seq<Site>, o: string, k: nat, i: nat)
    requires TimedRun(events, run) && k <= i <= |events|
    requires forall n :: !RemoteEntry(run[k].file, n, o)
    requires forall m :: k <= m < i ==> !HeardFrom(events[m], o)
    ensures forall n :: !RemoteEntry(run[i].file, n, o)
  {
    if i > k {
      GoneUntilHeard(events, run, o, k, i - 1);
      TimedRunIsSettled(events, run, i - 1);
      assert OccursAt(events, run, i - 1);
      forall n ensures !RemoteEntry(run[i].file, n, o) {
        GoneStays(run[i - 1], events[i - 1], run[i], o, n);
      }
    }
  }

  lemma GoneStays(s: Site, e: Event, s': Site, o: string, n: string)
    requires Settled(s) && Occurs(s, e, s') && !HeardFrom(e, o) && !RemoteEntry(s.file, n, o)
    ensures !RemoteEntry(s'.file, n, o)
  {
    if e.UserEdit? {
      EditTouchesOneEntry(e.edit, e.host, s.file);
    }
  }

  lemma FirstLateTick(events: seq<Event>, j: nat, limit: Time, at: nat) returns (k: nat)
    requires j < at < |events| && events[at].AgeTick? && events[at].at >= limit
    ensures j < k <= at && events[k].AgeTick? && events[k].at >= limit
    ensures forall m :: j < m < k && events[m].AgeTick? ==> events[m].at < limit
  {
    k := j + 1;
    while !(events[k].AgeTick? && events[k].at >= limit)
      invariant j < k <= at
      invariant forall m :: j < m < k && events[m].AgeTick? ==> events[m].at < limit
      decreases at - k
    {
      k := k + 1;
    }
  }

  /** An origin last renewed at t, by being heard or by a restart, loses all its entries at the first
      tick at or after t + 60 s, which comes before t + 90 s, and they stay away until it is heard
      again; unless users strand names, nothing of an origin that is not itself overdue goes with
      them. */
  lemma AgedOutInTime(events: seq<Event>, run: seq<Site>, o: string, j: nat, i: nat) returns (k: nat)
    requires TimedRun(events, run) && j < i < |events| && Renews(run[j], events[j], o)
    requires forall m :: j < m < i ==> !Renewal(events[m], o)
    requires events[i].at >= events[j].at + 90 * SECOND
    ensures j < k < i && events[k].AgeTick?
    ensures events[j].at + 60 * SECOND <= events[k].at < events[j].at + 90 * SECOND
    ensures forall m :: j < m < k && events[m].AgeTick? ==> events[m].at < events[j].at + 60 * SECOND
    ensures o in run[k].byOrigin && o !in run[k + 1].byOrigin
    ensures forall n :: !RemoteEntry(run[k + 1].file, n, o) && !RemoteEntry(run[i].file, n, o)
    ensures NothingStranded(events, run) ==> SparesTheLive(run[k], events[k].at, run[k + 1])
  {
    k := LateTickExists(events, j, i);
    LastReceiptOnRecord(events, run, o, j, k);
    TimedRunIsSettled(events, run, k);
    assert OccursAt(events, run, k);
    AgedNow(run[k], events[k].at, run[k + 1], o);
    GoneUntilHeard(events, run, o, k + 1, i);
    if NothingStranded(events, run) {
      TimedRunIsExact(events, run, k);
      TickSparesTheLiveIff(run[k], events[k].at, run[k + 1]);
    }
  }

  /** The schedule puts a tick into the half-open window from 60 to 90 seconds after event j. */
  lemma LateTickExists(events: seq<Event>, j: nat, i: nat) returns (k: nat)
    requires OnSchedule(events) && j < i < |events| && events[i].at >= events[j].at + 90 * SECOND
    requires forall m :: j < m < i ==> !events[m].Restart?
    ensures j < k < i && events[k].AgeTick?
    ensures events[j].at + 60 * SECOND <= events[k].at < events[j].at + 90 * SECOND
    ensures forall m :: j < m < k && events[m].AgeTick? ==> events[m].at < events[j].at + 60 * SECOND
  {
    var limit := events[j].at + AGE_LIMIT;
    assert events[0].at <= events[j].at && !RestartedSince(events, limit, i);
    assert TickedIn(events, limit, i);
    var at :| 0 <= at < i && events[at].AgeTick? && limit <= events[at].at < limit + AGE_PERIOD;
    k := FirstLateTick(events, j, limit, at);
  }

  /** An entry of an origin that the tick ages out. */
  predicate Overdue(s: Site, now: Time, n: string) {
    n in s.file && !s.file[n].IsLocal() && s.file[n].origin in AgedOrigins(s, now)
  }

  ghost predicate SparesTheLive(s: Site, now: Time, s': Site) {
    forall n :: n in s.file && !Overdue(s, now, n) ==> n in s'.file && s'.file[n] == s.file[n]
  }

  /** From a settled site a tick takes nothing but the overdue origins' own entries, exactly when
      none of those origins is still indexed under a name that is by now someone else's. */
  lemma TickSparesTheLiveIff(s: Site, now: Time, s': Site)
    requires Settled(s) && Watched(Aged(s, now), s')
    ensures SparesTheLive(s, now, s') <==>
            forall o, n :: o in AgedOrigins(s, now) && Holds(s.byOrigin, o, n) && n in s.file ==> Overdue(s, now, n)
  {
    var aged := AgedOrigins(s, now);
    if o, n :| o in aged && Holds(s.byOrigin, o, n) && n in s.file && !Overdue(s, now, n) {
      assert n in NamesOf(s.byOrigin, aged);
      assert n !in s'.file;
    } else {
      forall n | n in s.file && !Overdue(s, now, n) ensures n in s'.file && s'.file[n] == s.file[n] {
        assert forall o :: o in aged ==> !Holds(s.byOrigin, o, n);
        assert n !in NamesOf(s.byOrigin, aged);
      }
    }
  }

  lemma OriginsAreNamed(file: Services, o: string)
    ensures o in RemoteOrigins(file) <==> exists n :: RemoteEntry(file, n, o)
  {
    if n :| RemoteEntry(file, n, o) {
      assert file[n].origin in RemoteOrigins(file);
    } else if o in RemoteOrigins(file) {
      var n :| n in file && !file[n].IsLocal() && file[n].origin == o;
      assert RemoteEntry(file, n, o);
    }
  }

  lemma AgedNow(s: Site, now: Time, s': Site, o: string)
    requires Settled(s) && Watched(Aged(s, now), s') && o in AgedOrigins(s, now)
    ensures o !in s'.byOrigin && forall n :: !RemoteEntry(s'.file, n, o)
  {
    forall n ensures !RemoteEntry(s'.file, n, o) {
      if RemoteEntry(s.file, n, o) {
        assert Holds(s.byOrigin, o, n);
      }
    }
    OriginsAreNamed(s'.file, o);
  }
}
