/** Which delivery schedules make a site converge to its peers' offers.

    Every live origin repeats a fixed update. A stale name in one origin's index makes that
    origin's first update delete whatever now lives at that address, and only the owner's next
    update brings it back. So two rounds suffice, one does not, and the exact condition on a
    schedule is that every origin is heard after the first update of every other one.

    An entry that once arrived with an event channel or an aggregate can be stuck: the index
    projection hides both, so an offer without them looks equivalent for ever. The exact condition
    on a start is that no entry is stuck. */
module Convergence {
  import opened Types
  import opened ServiceSync
  import opened SyncProperties

  type Offers = map<string, Services>

  ghost predicate ValidOffers(offers: Offers) {
    forall o :: o in offers ==> OfferFrom(o, offers[o])
  }

  /** One update of o followed by a watcher pass. */
  ghost predicate Delivered(s: Site, o: string, defs: Services, s': Site) {
    exists now :: Watched(Received(s, o, defs, now), s')
  }

  ghost predicate IsRun(offers: Offers, schedule: seq<string>, run: seq<Site>) {
    && |run| == |schedule| + 1
    && (forall o :: o in schedule ==> o in offers)
    && (forall i :: 0 <= i < |schedule| ==> Moves(offers, schedule, run, i))
  }

  ghost predicate Moves(offers: Offers, schedule: seq<string>, run: seq<Site>, i: nat)
    requires i < |schedule| == |run| - 1 && schedule[i] in offers
  {
    Delivered(run[i], schedule[i], offers[schedule[i]], run[i + 1])
  }

  /** A settled site, possibly with stale index names, all of whose remote origins are live and
      none of whose local addresses is claimed by an origin. */
  ghost predicate Start(s: Site, live: set<string>) {
    && Settled(s)
    && (forall o, n :: Holds(s.byOrigin, o, n) ==> o in live && !LocalEntry(s.file, n))
    && (forall n, o :: RemoteEntry(s.file, n, o) ==> o in live)
  }

  predicate SameService(a: ServiceInterface, b: ServiceInterface) {
    a.protocol == b.protocol && a.port == b.port && a.headless == b.headless
  }

  /** Neither of the fields that the index projection drops is set. */
  predicate Quiet(si: ServiceInterface) { !si.eventChannel && si.aggregate == "" }

  /** Both files have the same local entries. */
  ghost predicate SameLocals(s: Site, s': Site) {
    && (forall n :: LocalEntry(s.file, n) <==> LocalEntry(s'.file, n))
    && (forall n :: LocalEntry(s.file, n) ==> s'.file[n] == s.file[n])
  }

  ghost predicate Offered(offers: Offers, n: string) {
    exists o :: o in offers && n in offers[o]
  }

  /** The file holds the original local entries and, elsewhere, exactly the offered addresses, each
      owned by an origin that offers it and equivalent to that offer. */
  ghost predicate Converged(s0: Site, s: Site, offers: Offers) {
    && SameLocals(s0, s)
    && (forall n :: n in s.file <==> LocalEntry(s0.file, n) || Offered(offers, n))
    && (forall n, o :: RemoteEntry(s.file, n, o) ==>
          o in offers && n in offers[o] && Equivalent(s.file[n], offers[o][n]))
  }

  /** n's entry differs from its owner's offer only in fields that the projection hides, and no
      other origin is about to delete it. */
  ghost predicate Stuck(s: Site, offers: Offers, n: string) {
    exists o :: StuckAt(s, offers, n, o)
  }

  ghost predicate StuckAt(s: Site, offers: Offers, n: string, o: string) {
    && RemoteEntry(s.file, n, o) && o in offers && n in offers[o]
    && SameService(s.file[n], offers[o][n]) && Quiet(offers[o][n]) && !Quiet(s.file[n])
    && forall p :: p in offers && Holds(s.byOrigin, p, n) ==> n in offers[p]
  }

  ghost predicate NothingStuck(s: Site, offers: Offers) {
    forall n :: !Stuck(s, offers, n)
  }

  /** A delivery of a live origin at a possible start. */
  ghost predicate Delivery(s: Site, o: string, offers: Offers, s': Site) {
    ValidOffers(offers) && o in offers && Start(s, offers.Keys) && Delivered(s, o, offers[o], s')
  }

  ghost predicate LiveRun(offers: Offers, schedule: seq<string>, run: seq<Site>) {
    ValidOffers(offers) && IsRun(offers, schedule, run) && Start(run[0], offers.Keys)
  }

  // ---------------------------------------------------------------- one delivery

  /** Whatever the schedule did so far, the state is again a possible start with the same locals. */
  lemma DeliveryKeepsStart(s: Site, o: string, offers: Offers, s': Site)
    requires Delivery(s, o, offers, s')
    ensures Start(s', offers.Keys) && SameLocals(s, s')
  {
    var defs := offers[o];
    var now :| Watched(Received(s, o, defs, now), s');
    var r := Received(s, o, defs, now);
    forall n ensures LocalEntry(s.file, n) <==> LocalEntry(r.file, n)
             ensures LocalEntry(s.file, n) ==> r.file[n] == s.file[n] {
      LocalsUntouched(s, o, offers, now, n);
    }
    forall p, n | Holds(r.byOrigin, p, n) ensures p in offers && !LocalEntry(r.file, n) {
      assert Holds(s.byOrigin, p, n);
    }
    StartAfterWatch(s, o, offers, now, s');
  }

  lemma StartAfterWatch(s: Site, o: string, offers: Offers, now: Time, s': Site)
    requires ValidOffers(offers) && o in offers && Start(s, offers.Keys)
    requires Watched(Received(s, o, offers[o], now), s')
    requires forall p, n :: Holds(Received(s, o, offers[o], now).byOrigin, p, n) ==>
      p in offers && !LocalEntry(Received(s, o, offers[o], now).file, n)
    ensures Start(s', offers.Keys)
  {
    WatchWithoutTakeover(Received(s, o, offers[o], now), s');
    forall n, p | RemoteEntry(s'.file, n, p) ensures p in offers {
      assert p == o || RemoteEntry(s.file, n, p);
    }
  }

  lemma LocalsUntouched(s: Site, o: string, offers: Offers, now: Time, n: string)
    requires ValidOffers(offers) && o in offers && Start(s, offers.Keys)
    ensures LocalEntry(s.file, n) <==> LocalEntry(Received(s, o, offers[o], now).file, n)
    ensures LocalEntry(s.file, n) ==> Received(s, o, offers[o], now).file[n] == s.file[n]
  {
    if LocalEntry(s.file, n) {
      assert !Holds(s.byOrigin, o, n);
      assert s.byName[n] == Project(s.file[n]);
    }
  }

  /** Only o's own index changes, and it ends inside o's offer. */
  lemma DeliveryOnIndex(s: Site, o: string, offers: Offers, s': Site, p: string, n: string)
    requires Delivery(s, o, offers, s')
    requires Holds(s'.byOrigin, p, n)
    ensures if p == o then n in offers[o] else Holds(s.byOrigin, p, n)
  {
    var defs := offers[o];
    var now :| Watched(Received(s, o, defs, now), s');
    if p == o {
      HeldAfterOwnUpdate(s, o, defs, now, s', n);
    } else {
      PassAddsOnlyEntries(Received(s, o, defs, now), s', p, n);
      if RemoteEntry(s.file, n, p) {
        assert Holds(s.byOrigin, p, n);
      }
    }
  }

  /** A delivery of o fills every offered address and deletes only stale names of o. */
  lemma DeliveryOnFile(s: Site, o: string, offers: Offers, s': Site, n: string)
    requires Delivery(s, o, offers, s')
    ensures n in offers[o] ==> n in s'.file
    ensures n in s.file && n !in s'.file ==> Holds(s.byOrigin, o, n) && n !in offers[o]
    ensures n in s'.file ==> n in s.file || n in offers[o]
    ensures RemoteEntry(s'.file, n, o) ==> n in offers[o] && Matches(s'.file[n], offers[o][n])
    ensures forall p :: p != o && RemoteEntry(s'.file, n, p) ==>
              s'.file[n] == s.file[n] && RemoteEntry(s.file, n, p)
  {
    var now :| Watched(Received(s, o, offers[o], now), s');
    if RemoteEntry(s'.file, n, o) {
      OwnEntryMatches(s, o, offers, now, n);
    }
  }

  lemma OwnEntryMatches(s: Site, o: string, offers: Offers, now: Time, n: string)
    requires ValidOffers(offers) && o in offers && Start(s, offers.Keys)
    requires RemoteEntry(Received(s, o, offers[o], now).file, n, o)
    ensures n in offers[o] && Matches(Received(s, o, offers[o], now).file[n], offers[o][n])
  {
    assert n in Changed(s, o, offers[o]) || RemoteEntry(s.file, n, o);
    if RemoteEntry(s.file, n, o) {
      assert Holds(s.byOrigin, o, n);
      assert s.byName[n] == Project(s.file[n]);
    }
  }

  // ---------------------------------------------------------------- whole schedules

  /** p is heard at or before step i. */
  ghost predicate HeardBy(schedule: seq<string>, p: string, i: int) {
    exists j :: 0 <= j < i && j < |schedule| && schedule[j] == p
  }

  /** No index name of p is stale. */
  ghost predicate Clean(s: Site, p: string, offers: Offers)
    requires p in offers
  {
    forall n :: Holds(s.byOrigin, p, n) ==> n in offers[p]
  }

  /** As far as the receiver can tell. */
  predicate Matches(si: ServiceInterface, offer: ServiceInterface) {
    Equivalent(si, offer) || (SameService(si, offer) && Quiet(offer))
  }

  ghost predicate OwnEntriesMatch(s: Site, p: string, offers: Offers)
    requires p in offers
  {
    forall n :: RemoteEntry(s.file, n, p) ==> n in offers[p] && Matches(s.file[n], offers[p][n])
  }

  lemma {:induction false} RunKeepsStart(offers: Offers, schedule: seq<string>, run: seq<Site>, i: nat)
    requires LiveRun(offers, schedule, run) && i <= |schedule|
    ensures Start(run[i], offers.Keys) && SameLocals(run[0], run[i])
  {
    if i > 0 {
      RunKeepsStart(offers, schedule, run, i - 1);
      StartGoesOn(offers, schedule, run, i - 1);
    }
  }

  /** Each step of a run is a delivery at a possible start. */
  lemma RunDelivers(offers: Offers, schedule: seq<string>, run: seq<Site>, i: nat)
    requires LiveRun(offers, schedule, run) && i < |schedule|
    ensures Delivery(run[i], schedule[i], offers, run[i + 1]) && SameLocals(run[0], run[i])
  {
    RunKeepsStart(offers, schedule, run, i);
    assert Moves(offers, schedule, run, i);
  }

  lemma StartGoesOn(offers: Offers, schedule: seq<string>, run: seq<Site>, i: nat)
    requires LiveRun(offers, schedule, run) && i < |schedule|
    requires Start(run[i], offers.Keys) && SameLocals(run[0], run[i])
    ensures Start(run[i + 1], offers.Keys) && SameLocals(run[0], run[i + 1])
  {
    assert Moves(offers, schedule, run, i);
    DeliveryKeepsStart(run[i], schedule[i], offers, run[i + 1]);
  }

  lemma {:induction false} HeardMeansClean(offers: Offers, schedule: seq<string>, run: seq<Site>, p: string, i: nat)
    requires LiveRun(offers, schedule, run)
    requires i <= |schedule| && p in offers && HeardBy(schedule, p, i)
    ensures Clean(run[i], p, offers) && OwnEntriesMatch(run[i], p, offers)
  {
    var o, s, s' := schedule[i - 1], run[i - 1], run[i];
    RunDelivers(offers, schedule, run, i - 1);
    if o != p {
      HeardMeansClean(offers, schedule, run, p, i - 1);
    }
    CleanStep(s, o, offers, s', p);
  }

  lemma CleanStep(s: Site, o: string, offers: Offers, s': Site, p: string)
    requires Delivery(s, o, offers, s') && p in offers
    requires o == p || (Clean(s, p, offers) && OwnEntriesMatch(s, p, offers))
    ensures Clean(s', p, offers) && OwnEntriesMatch(s', p, offers)
  {
    forall n | Holds(s'.byOrigin, p, n) ensures n in offers[p] {
      DeliveryOnIndex(s, o, offers, s', p, n);
    }
    forall n | RemoteEntry(s'.file, n, p) ensures n in offers[p] && Matches(s'.file[n], offers[p][n]) {
      DeliveryOnFile(s, o, offers, s', n);
    }
  }

  /** An offered address is present from the first update of its origin that comes after the first
      update of every other origin. */
  lemma {:induction false} PresentOnceAllClean(offers: Offers, schedule: seq<string>, run: seq<Site>,
                                               o: string, n: string, j: nat, i: nat)
    requires LiveRun(offers, schedule, run)
    requires o in offers && n in offers[o]
    requires j < i <= |schedule| && schedule[j] == o
    requires forall p :: p in offers ==> HeardBy(schedule, p, j + 1)
    ensures n in run[i].file
  {
    if i == j + 1 {
      PresentWhenHeard(offers, schedule, run, n, j);
    } else {
      PresentOnceAllClean(offers, schedule, run, o, n, j, i - 1);
      assert schedule[i - 1] in schedule;
      HeardByLater(schedule, schedule[i - 1], j + 1, i - 1);
      StaysWhenClean(offers, schedule, run, n, i - 1);
    }
  }

  lemma PresentWhenHeard(offers: Offers, schedule: seq<string>, run: seq<Site>, n: string, i: nat)
    requires LiveRun(offers, schedule, run) && i < |schedule| && n in offers[schedule[i]]
    ensures n in run[i + 1].file
  {
    RunDelivers(offers, schedule, run, i);
    DeliveryOnFile(run[i], schedule[i], offers, run[i + 1], n);
  }

  lemma StaysWhenClean(offers: Offers, schedule: seq<string>, run: seq<Site>, n: string, i: nat)
    requires LiveRun(offers, schedule, run) && i < |schedule|
    requires HeardBy(schedule, schedule[i], i) && n in run[i].file
    ensures n in run[i + 1].file
  {
    RunDelivers(offers, schedule, run, i);
    HeardMeansClean(offers, schedule, run, schedule[i], i);
    CleanDeliveryKeeps(run[i], schedule[i], offers, run[i + 1], n);
  }

  lemma HeardByLater(schedule: seq<string>, p: string, i: int, j: int)
    requires HeardBy(schedule, p, i) && i <= j
    ensures HeardBy(schedule, p, j)
  {
  }

  /** An origin without stale names takes nothing away that it does not own. */
  lemma CleanDeliveryKeeps(s: Site, o: string, offers: Offers, s': Site, n: string)
    requires Delivery(s, o, offers, s') && Clean(s, o, offers) && n in s.file
    ensures n in s'.file
  {
    DeliveryOnFile(s, o, offers, s', n);
  }

  // ---------------------------------------------------------------- stuck entries

  /** A delivery neither frees a stuck entry nor makes one stuck. */
  lemma DeliveryKeepsStuck(s: Site, o: string, offers: Offers, s': Site, n: string)
    requires Delivery(s, o, offers, s')
    ensures Stuck(s, offers, n) <==> Stuck(s', offers, n)
  {
    if q :| StuckAt(s, offers, n, q) {
      StuckEntryStays(s, o, offers, s', n, q);
    }
    if q :| StuckAt(s', offers, n, q) {
      StuckEntryWasThere(s, o, offers, s', n, q);
    }
  }

  lemma StuckEntryStays(s: Site, o: string, offers: Offers, s': Site, n: string, q: string)
    requires Delivery(s, o, offers, s') && StuckAt(s, offers, n, q)
    ensures StuckAt(s', offers, n, q)
  {
    var now :| Watched(Received(s, o, offers[o], now), s');
    assert s.byName[n] == Project(s.file[n]);
    assert n !in Changed(s, o, offers[o]) && n !in Deleted(s, o, offers[o]);
    forall p | p in offers && Holds(s'.byOrigin, p, n) ensures n in offers[p] {
      DeliveryOnIndex(s, o, offers, s', p, n);
    }
  }

  lemma StuckEntryWasThere(s: Site, o: string, offers: Offers, s': Site, n: string, q: string)
    requires Delivery(s, o, offers, s') && StuckAt(s', offers, n, q)
    ensures StuckAt(s, offers, n, q)
  {
    DeliveryOnFile(s, o, offers, s', n);
    OwnEntryStaysOrIsOffer(s, o, offers, s', n);
    forall p | p in offers && Holds(s.byOrigin, p, n) ensures n in offers[p] {
      if p == o {
        StaleNameGoes(s, o, offers, s', n);
      } else {
        OtherIndexKept(s, o, offers, s', p, n);
      }
    }
  }

  lemma OwnEntryStaysOrIsOffer(s: Site, o: string, offers: Offers, s': Site, n: string)
    requires Delivery(s, o, offers, s')
    ensures RemoteEntry(s'.file, n, o) && n in offers[o] ==>
              s'.file[n] == offers[o][n] || (RemoteEntry(s.file, n, o) && s'.file[n] == s.file[n])
  {
    var now :| Watched(Received(s, o, offers[o], now), s');
  }

  lemma StaleNameGoes(s: Site, p: string, offers: Offers, s': Site, n: string)
    requires Delivery(s, p, offers, s') && Holds(s.byOrigin, p, n)
    ensures n in s'.file ==> n in offers[p]
  {
  }

  lemma StepKeepsStuck(offers: Offers, schedule: seq<string>, run: seq<Site>, n: string, i: nat)
    requires LiveRun(offers, schedule, run) && i < |schedule|
    ensures Stuck(run[i], offers, n) <==> Stuck(run[i + 1], offers, n)
  {
    RunDelivers(offers, schedule, run, i);
    DeliveryKeepsStuck(run[i], schedule[i], offers, run[i + 1], n);
  }

  lemma {:induction false} RunKeepsStuck(offers: Offers, schedule: seq<string>, run: seq<Site>, n: string, i: nat)
    requires LiveRun(offers, schedule, run) && i <= |schedule|
    ensures Stuck(run[0], offers, n) <==> Stuck(run[i], offers, n)
  {
    if i > 0 {
      RunKeepsStuck(offers, schedule, run, n, i - 1);
      StepKeepsStuck(offers, schedule, run, n, i - 1);
    }
  }

  /** Every live origin is heard, and heard after the first update of every other one. */
  ghost predicate Interleaved(schedule: seq<string>, live: set<string>) {
    && (forall o :: o in live ==> o in schedule)
    && (forall o, p :: o in live && p in live && o != p ==> HeardAfter(schedule, o, p))
  }

  ghost predicate HeardAfter(schedule: seq<string>, o: string, p: string) {
    exists i, j :: 0 <= i < j < |schedule| && schedule[i] == p && schedule[j] == o
  }

  /** Whatever the offers are, every run of the schedule converges from every start at which no
      entry is stuck. */
  ghost predicate AlwaysConverges(schedule: seq<string>, live: set<string>) {
    forall offers: Offers, run: seq<Site> ::
      offers.Keys == live && LiveRun(offers, schedule, run) && NothingStuck(run[0], offers)
      ==> Converged(run[0], run[|schedule|], offers)
  }

  lemma LastHeard(schedule: seq<string>, o: string) returns (j: nat)
    requires o in schedule
    ensures j < |schedule| && schedule[j] == o
    ensures forall k :: j < k < |schedule| ==> schedule[k] != o
  {
    j := |schedule| - 1;
    while schedule[j] != o
      invariant 0 <= j < |schedule|
      invariant forall k :: j < k < |schedule| ==> schedule[k] != o
      invariant exists k :: 0 <= k <= j && schedule[k] == o
      decreases j
    {
      j := j - 1;
    }
  }

  lemma InterleavedConverges(offers: Offers, schedule: seq<string>, run: seq<Site>)
    requires LiveRun(offers, schedule, run) && NothingStuck(run[0], offers)
    requires Interleaved(schedule, offers.Keys)
    ensures Converged(run[0], run[|schedule|], offers)
  {
    var end := |schedule|;
    var s := run[end];
    RunKeepsStart(offers, schedule, run, end);
    forall n, o | RemoteEntry(s.file, n, o)
      ensures o in offers && n in offers[o] && Equivalent(s.file[n], offers[o][n])
    {
      EntriesEndEquivalent(offers, schedule, run, n, o);
    }
    forall n | Offered(offers, n) ensures n in s.file {
      OfferedEndsPresent(offers, schedule, run, n);
    }
    forall n | n in s.file ensures LocalEntry(run[0].file, n) || Offered(offers, n) {
      if !LocalEntry(s.file, n) {
        assert RemoteEntry(s.file, n, s.file[n].origin);
      }
    }
  }

  lemma EntriesEndEquivalent(offers: Offers, schedule: seq<string>, run: seq<Site>, n: string, o: string)
    requires LiveRun(offers, schedule, run) && Interleaved(schedule, offers.Keys)
    requires !Stuck(run[0], offers, n) && RemoteEntry(run[|schedule|].file, n, o)
    ensures o in offers && n in offers[o] && Equivalent(run[|schedule|].file[n], offers[o][n])
  {
    var end := |schedule|;
    var s := run[end];
    RunKeepsStart(offers, schedule, run, end);
    RunKeepsStuck(offers, schedule, run, n, end);
    forall p | p in offers ensures Clean(s, p, offers) && OwnEntriesMatch(s, p, offers) {
      assert p in schedule && HeardBy(schedule, p, end);
      HeardMeansClean(offers, schedule, run, p, end);
    }
    assert Matches(s.file[n], offers[o][n]) && !StuckAt(s, offers, n, o);
  }

  lemma OfferedEndsPresent(offers: Offers, schedule: seq<string>, run: seq<Site>, n: string)
    requires LiveRun(offers, schedule, run) && Interleaved(schedule, offers.Keys) && Offered(offers, n)
    ensures n in run[|schedule|].file
  {
    var o :| o in offers && n in offers[o];
    var j := LastHeard(schedule, o);
    forall p | p in offers ensures HeardBy(schedule, p, j + 1) {
      if p != o {
        assert HeardAfter(schedule, o, p);
      }
    }
    PresentOnceAllClean(offers, schedule, run, o, n, j, |schedule|);
  }

  // ---------------------------------------------------------------- necessity

  /** Only o offers anything: the address "svc". */
  function LoneOffer(live: set<string>, o: string): Offers {
    map p | p in live :: if p == o then map["svc" := Sample(o)] else map[]
  }

  /** "svc" is o's, and p's index still lists it. */
  function StaleSite(o: string, p: string): Site {
    Site("", map["svc" := Sample(o)], map[o := {"svc"}, p := {"svc"}], map[], map["svc" := Sample(o)], map[])
  }

  function Loud(o: string): ServiceInterface { Sample(o).(eventChannel := true) }

  /** "svc" is o's, learned with an event channel. */
  function LoudSite(o: string): Site {
    Site("", map["svc" := Loud(o)], map[o := {"svc"}], map[], map["svc" := Project(Loud(o))], map[])
  }

  function EmptySite(): Site {
    Site("", map[], map[], map[], map[], map[])
  }

  /** Some run of a schedule from s. */
  lemma {:induction false} SomeRun(offers: Offers, schedule: seq<string>, s: Site) returns (run: seq<Site>)
    requires forall o :: o in schedule ==> o in offers
    ensures IsRun(offers, schedule, run) && run[0] == s
  {
    if schedule == [] {
      run := [s];
    } else {
      var k := |schedule| - 1;
      var earlier := SomeRun(offers, schedule[..k], s);
      var s' := Watch(Received(earlier[k], schedule[k], offers[schedule[k]], 0));
      WatchIsAPass(Received(earlier[k], schedule[k], offers[schedule[k]], 0));
      assert Delivered(earlier[k], schedule[k], offers[schedule[k]], s');
      run := earlier + [s'];
      forall i | 0 <= i < |schedule| ensures Moves(offers, schedule, run, i) {
        assert i < k ==> Moves(offers, schedule[..k], earlier, i);
      }
    }
  }

  lemma {:induction false} NeverOffered(offers: Offers, schedule: seq<string>, run: seq<Site>, n: string, j: nat,
                                        i: nat)
    requires LiveRun(offers, schedule, run)
    requires j <= i <= |schedule| && n !in run[j].file
    requires forall k :: j <= k < i ==> n !in offers[schedule[k]]
    ensures n !in run[i].file
  {
    if i > j {
      NeverOffered(offers, schedule, run, n, j, i - 1);
      RunDelivers(offers, schedule, run, i - 1);
      DeliveryOnFile(run[i - 1], schedule[i - 1], offers, run[i], n);
    }
  }

  /** p's index keeps the stale name until p is heard. */
  lemma {:induction false} StaleUntilHeard(offers: Offers, schedule: seq<string>, run: seq<Site>, p: string,
                                           n: string, i: nat)
    requires LiveRun(offers, schedule, run)
    requires i <= |schedule| && Holds(run[0].byOrigin, p, n) && !HeardBy(schedule, p, i)
    ensures Holds(run[i].byOrigin, p, n)
  {
    if i > 0 {
      var o, s, s' := schedule[i - 1], run[i - 1], run[i];
      assert HeardBy(schedule, p, i - 1) ==> HeardBy(schedule, p, i);
      assert o == p ==> HeardBy(schedule, p, i);
      StaleUntilHeard(offers, schedule, run, p, n, i - 1);
      RunDelivers(offers, schedule, run, i - 1);
      RunKeepsStart(offers, schedule, run, i);
      OtherIndexKept(s, o, offers, s', p, n);
    }
  }

  lemma OtherIndexKept(s: Site, o: string, offers: Offers, s': Site, p: string, n: string)
    requires Delivery(s, o, offers, s') && o != p && Holds(s.byOrigin, p, n)
    ensures Holds(s'.byOrigin, p, n)
  {
    var now :| Watched(Received(s, o, offers[o], now), s');
    assert Holds(Received(s, o, offers[o], now).byOrigin, p, n);
    LocalsUntouched(s, o, offers, now, n);
  }

  /** The stale first update of p deletes o's service; if o is not heard again it stays away. */
  lemma StaleScheduleFails(schedule: seq<string>, live: set<string>, o: string, p: string)
    requires o in live && p in live && o != p && p in schedule
    requires forall q :: q in live ==> !IsLocalOrigin(q)
    requires forall q :: q in schedule ==> q in live
    requires !HeardAfter(schedule, o, p)
    ensures !AlwaysConverges(schedule, live)
  {
    var offers := LoneOffer(live, o);
    var run := SomeRun(offers, schedule, StaleSite(o, p));
    assert Start(run[0], live) && offers.Keys == live;
    StaleRunLoses(schedule, live, o, p, run);
    NotConverged(schedule, live, o, run);
  }

  lemma StaleRunLoses(schedule: seq<string>, live: set<string>, o: string, p: string, run: seq<Site>)
    requires o in live && p in live && o != p && p in schedule && !HeardAfter(schedule, o, p)
    requires LiveRun(LoneOffer(live, o), schedule, run) && run[0] == StaleSite(o, p)
    ensures "svc" !in run[|schedule|].file
  {
    var offers, n := LoneOffer(live, o), "svc";
    var first := FirstHeard(schedule, p);
    StaleUntilHeard(offers, schedule, run, p, n, first);
    RunDelivers(offers, schedule, run, first);
    HeldButNotOffered(run[first], p, offers, run[first + 1], n);
    forall k | first + 1 <= k < |schedule| ensures n !in offers[schedule[k]] {
      assert schedule[k] == o ==> HeardAfter(schedule, o, p);
    }
    NeverOffered(offers, schedule, run, n, first + 1, |schedule|);
  }

  /** A run that ends without the lone offer did not converge, though nothing was stuck. */
  lemma NotConverged(schedule: seq<string>, live: set<string>, o: string, run: seq<Site>)
    requires o in live && LiveRun(LoneOffer(live, o), schedule, run)
    requires forall n :: n in run[0].file ==> Quiet(run[0].file[n])
    requires "svc" !in run[|schedule|].file
    ensures !AlwaysConverges(schedule, live)
  {
    var offers := LoneOffer(live, o);
    assert "svc" in offers[o] && Offered(offers, "svc");
    assert NothingStuck(run[0], offers) && offers.Keys == live;
    assert !Converged(run[0], run[|schedule|], offers);
  }

  lemma HeldButNotOffered(s: Site, p: string, offers: Offers, s': Site, n: string)
    requires Delivery(s, p, offers, s') && Holds(s.byOrigin, p, n) && n !in offers[p]
    ensures n !in s'.file
  {
  }

  lemma FirstHeard(schedule: seq<string>, p: string) returns (i: nat)
    requires p in schedule
    ensures i < |schedule| && schedule[i] == p && !HeardBy(schedule, p, i)
  {
    i := 0;
    while schedule[i] != p
      invariant 0 <= i < |schedule|
      invariant forall k :: 0 <= k < i ==> schedule[k] != p
      invariant exists k :: i <= k < |schedule| && schedule[k] == p
      decreases |schedule| - i
    {
      i := i + 1;
    }
  }

  lemma UnheardScheduleFails(schedule: seq<string>, live: set<string>, o: string)
    requires o in live && o !in schedule
    requires forall q :: q in live ==> !IsLocalOrigin(q)
    requires forall q :: q in schedule ==> q in live
    ensures !AlwaysConverges(schedule, live)
  {
    var offers := LoneOffer(live, o);
    var run := SomeRun(offers, schedule, EmptySite());
    NeverOffered(offers, schedule, run, "svc", 0, |schedule|);
    NotConverged(schedule, live, o, run);
  }

  // ---------------------------------------------------------------- main results

  /** A schedule of updates from live origins converges from every start at which no entry is stuck,
      for all offers, if and only if it is interleaved. */
  lemma ConvergesIffInterleaved(schedule: seq<string>, live: set<string>)
    requires forall o :: o in live ==> !IsLocalOrigin(o)
    requires forall q :: q in schedule ==> q in live
    ensures AlwaysConverges(schedule, live) <==> Interleaved(schedule, live)
  {
    if Interleaved(schedule, live) {
      forall offers: Offers, run: seq<Site> |
        offers.Keys == live && LiveRun(offers, schedule, run) && NothingStuck(run[0], offers)
        ensures Converged(run[0], run[|schedule|], offers)
      {
        InterleavedConverges(offers, schedule, run);
      }
    } else if o :| o in live && o !in schedule {
      UnheardScheduleFails(schedule, live, o);
    } else {
      var o, p :| o in live && p in live && o != p && !HeardAfter(schedule, o, p);
      StaleScheduleFails(schedule, live, o, p);
    }
  }

  ghost predicate Round(schedule: seq<string>, live: set<string>) {
    && (forall o :: o in live ==> o in schedule)
    && (forall o :: o in schedule ==> o in live)
  }

  /** A run of such a schedule converges if and only if no entry was stuck at its start. */
  lemma ConvergesIffNothingStuck(offers: Offers, schedule: seq<string>, run: seq<Site>)
    requires LiveRun(offers, schedule, run) && Interleaved(schedule, offers.Keys)
    ensures Converged(run[0], run[|schedule|], offers) <==> NothingStuck(run[0], offers)
  {
    if NothingStuck(run[0], offers) {
      InterleavedConverges(offers, schedule, run);
    } else {
      var n :| Stuck(run[0], offers, n);
      RunKeepsStuck(offers, schedule, run, n, |schedule|);
      var o :| StuckAt(run[|schedule|], offers, n, o);
      assert !Equivalent(run[|schedule|].file[n], offers[o][n]);
    }
  }

  /** Two rounds, each in any order, converge exactly when no entry was stuck. */
  lemma TwoRoundsConvergeIff(first: seq<string>, second: seq<string>, offers: Offers, run: seq<Site>)
    requires Round(first, offers.Keys) && Round(second, offers.Keys)
    requires LiveRun(offers, first + second, run)
    ensures Converged(run[0], run[|first + second|], offers) <==> NothingStuck(run[0], offers)
  {
    RoundsInterleave(first, second, offers.Keys);
    ConvergesIffNothingStuck(offers, first + second, run);
  }

  lemma RoundsInterleave(first: seq<string>, second: seq<string>, live: set<string>)
    requires Round(first, live) && Round(second, live)
    ensures Interleaved(first + second, live)
  {
    var schedule := first + second;
    assert forall o :: o in live ==> o in first && o in schedule;
    forall o, p | o in live && p in live && o != p ensures HeardAfter(schedule, o, p) {
      var i :| 0 <= i < |first| && first[i] == p;
      var j :| 0 <= j < |second| && second[j] == o;
      assert schedule[i] == p && schedule[|first| + j] == o;
    }
  }

  /** A site that once learned an event channel keeps it for ever when the owner's offer no longer
      has one, however often it hears the owner. */
  lemma LoudEntryStaysLoud(o: string, schedule: seq<string>, run: seq<Site>)
    requires !IsLocalOrigin(o) && forall i :: 0 <= i < |schedule| ==> schedule[i] == o
    requires IsRun(LoneOffer({o}, o), schedule, run) && run[0] == LoudSite(o)
    ensures Start(run[0], {o})
    ensures "svc" in run[|schedule|].file && run[|schedule|].file["svc"].eventChannel
    ensures !Equivalent(run[|schedule|].file["svc"], LoneOffer({o}, o)[o]["svc"])
  {
    var offers := LoneOffer({o}, o);
    assert Start(run[0], offers.Keys);
    assert StuckAt(run[0], offers, "svc", o);
    RunKeepsStuck(offers, schedule, run, "svc", |schedule|);
    LoudStays(o, schedule, run, |schedule|);
  }

  lemma {:induction false} LoudStays(o: string, schedule: seq<string>, run: seq<Site>, i: nat)
    requires LiveRun(LoneOffer({o}, o), schedule, run) && i <= |schedule|
    requires StuckAt(run[0], LoneOffer({o}, o), "svc", o) && run[0] == LoudSite(o)
    ensures StuckAt(run[i], LoneOffer({o}, o), "svc", o) && run[i].file["svc"] == Loud(o)
  {
    if i > 0 {
      LoudStays(o, schedule, run, i - 1);
      LoudStep(o, schedule, run, i - 1);
    }
  }

  lemma LoudStep(o: string, schedule: seq<string>, run: seq<Site>, i: nat)
    requires LiveRun(LoneOffer({o}, o), schedule, run) && i < |schedule|
    requires StuckAt(run[i], LoneOffer({o}, o), "svc", o)
    ensures StuckAt(run[i + 1], LoneOffer({o}, o), "svc", o) && run[i + 1].file["svc"] == run[i].file["svc"]
  {
    var offers := LoneOffer({o}, o);
    RunDelivers(offers, schedule, run, i);
    StuckEntryStays(run[i], schedule[i], offers, run[i + 1], "svc", o);
    OwnEntryStaysOrIsOffer(run[i], schedule[i], offers, run[i + 1], "svc");
  }

  /** One round is not enough, in any order, as soon as there are two live origins. */
  lemma OneRoundIsNotEnough(schedule: seq<string>, live: set<string>, o: string, p: string)
    requires Round(schedule, live) && forall i, j :: 0 <= i < j < |schedule| ==> schedule[i] != schedule[j]
    requires forall q :: q in live ==> !IsLocalOrigin(q)
    requires o in live && p in live && o != p
    ensures !AlwaysConverges(schedule, live)
  {
    ConvergesIffInterleaved(schedule, live);
    assert !(HeardAfter(schedule, o, p) && HeardAfter(schedule, p, o));
  }

  /** Hearing every origin twice is not enough either when it is not in rounds. */
  lemma TwiceOutOfRoundsIsNotEnough(o: string, p: string)
    requires o != p && !IsLocalOrigin(o) && !IsLocalOrigin(p)
    ensures !AlwaysConverges([o, o, p, p], {o, p})
  {
    assert !HeardAfter([o, o, p, p], o, p);
    ConvergesIffInterleaved([o, o, p, p], {o, p});
  }
}
