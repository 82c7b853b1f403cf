/** The whole network comes to agree: from a moment on at which every site is settled, if nothing but
    sending, receiving and watching happens and every site hears every peer in turn, each site ends up
    with its own services and exactly those of its peers. */
module Agreement {
  import opened Types
  import opened ServiceSync
  import opened SyncProperties
  import opened ServiceEdits
  import opened Convergence
  import opened Network

  // ---------------------------------------------------------------- only peers are known

  ghost predicate KnowsPeers(s: Site, x: string, ids: set<string>) {
    && s.id == x && KeyedByAddress(s.file)
    && (forall o :: o in s.byOrigin ==> o in ids && o != x)
    && (forall n, o :: RemoteEntry(s.file, n, o) ==> o in ids && o != x)
  }

  ghost predicate PeerNet(net: Net) {
    && (forall x :: x in net.sites ==> !IsLocalOrigin(x) && KnowsPeers(net.sites[x], x, net.sites.Keys))
    && (forall msg :: msg in net.soup ==> msg.origin in net.sites)
  }

  lemma ActKnowsPeers(s: Site, x: string, ids: set<string>, step: Step, s': Site)
    requires KnowsPeers(s, x, ids) && Acts(s, step, s')
    requires step.Receive? ==> step.msg.origin in ids
    ensures KnowsPeers(s', x, ids)
  {
    match step {
      case Receive(_, msg, now) =>
        if msg.origin != x {
          ReceiveKnowsPeers(s, x, ids, msg.origin, Indexed(msg.defs, msg.origin), now);
        }
      case Tick(_, now) =>
        assert forall n, o :: RemoteEntry(s'.file, n, o) ==> RemoteEntry(s.file, n, o);
      case UserEdit(_, edit, host) =>
        EditTouchesOneEntry(edit, host, s.file);
        assert forall n, o :: RemoteEntry(s'.file, n, o) ==> RemoteEntry(s.file, n, o);
      case Watch(_, after) => WatchKnowsPeers(s, x, ids, after);
      case Restart(_, now, after) =>
        var unindexed := Site(s.id, s.file, map[], map[], map[], map[]);
        var w :| Watched(unindexed, w) && after == Seeded(w, now);
        WatchKnowsPeers(unindexed, x, ids, w);
        assert s'.file == w.file && s'.byOrigin == w.byOrigin;
      case Send(_, _) =>
    }
  }

  lemma WatchKnowsPeers(s: Site, x: string, ids: set<string>, s': Site)
    requires KnowsPeers(s, x, ids) && Watched(s, s')
    ensures KnowsPeers(s', x, ids)
  {
    forall o | o in RemoteOrigins(s.file) ensures o in ids && o != x {
      var n :| n in s.file && !s.file[n].IsLocal() && s.file[n].origin == o;
      assert RemoteEntry(s.file, n, o);
    }
  }

  lemma ReceiveKnowsPeers(s: Site, x: string, ids: set<string>, o: string, defs: Services, now: Time)
    requires KnowsPeers(s, x, ids) && o in ids && o != x && KeyedByAddress(defs)
    requires forall n :: n in defs ==> defs[n].origin == o
    ensures KnowsPeers(Received(s, o, defs, now), x, ids)
  {
    forall n, p | RemoteEntry(Received(s, o, defs, now).file, n, p) ensures p in ids && p != x {
      assert p == o || RemoteEntry(s.file, n, p);
    }
  }

  lemma StepKnowsPeers(net: Net, step: Step, net': Net)
    requires PeerNet(net) && Does(net, step, net')
    ensures PeerNet(net')
  {
    ActKnowsPeers(net.sites[step.x], step.x, net.sites.Keys, step, net'.sites[step.x]);
  }

  /** In every reachable state only other sites are indexed, own learned entries, or have sent. */
  lemma {:induction false} OnlyPeersAreKnown(nets: seq<Net>, steps: seq<Step>, i: nat)
    requires Trace(nets, steps) && i <= |steps|
    ensures PeerNet(nets[i])
  {
    if i > 0 {
      OnlyPeersAreKnown(nets, steps, i - 1);
      assert Goes(nets, steps, i - 1);
      StepKnowsPeers(nets[i - 1], steps[i - 1], nets[i]);
    }
  }

  // ---------------------------------------------------------------- an orderly stretch of a run

  /** Settled, and no local service is claimed by an origin. */
  ghost predicate Calm(s: Site) {
    Settled(s) && forall o, n :: Holds(s.byOrigin, o, n) ==> !LocalEntry(s.file, n)
  }

  ghost predicate AllCalm(net: Net) {
    forall x :: x in net.sites ==> Calm(net.sites[x])
  }

  /** The message is one that its sender sent at step i or later. */
  ghost predicate SentSince(steps: seq<Step>, i: nat, j: nat, msg: Message) {
    exists k :: i <= k < j && k < |steps| && steps[k] == Send(msg.origin, msg.defs)
  }

  /** Nothing but sending, watching, and receiving what was sent since i; and a site receives only
      once its watcher has seen the last write. */
  ghost predicate Orderly(nets: seq<Net>, steps: seq<Step>, i: nat, e: nat)
    requires e <= |steps| < |nets|
  {
    forall j :: i <= j < e ==> OrderlyAt(nets, steps, i, j)
  }

  ghost predicate OrderlyAt(nets: seq<Net>, steps: seq<Step>, i: nat, j: nat)
    requires j < |steps| < |nets|
  {
    match steps[j]
    case Send(_, _) => true
    case Watch(_, _) => true
    case Receive(x, msg, _) =>
      SentSince(steps, i, j, msg) && (msg.origin != x && x in nets[j].sites ==> Settled(nets[j].sites[x]))
    case _ => false
  }

  /** What site o broadcasts, as any receiver decodes it. */
  function OfferOf(file: Services, o: string): Services {
    map n | n in LocalPart(file) :: LocalPart(file)[n].(origin := o)
  }

  function PeerOffers(net: Net, x: string): Offers {
    map o | o in net.sites && o != x :: OfferOf(net.sites[o].file, o)
  }

  /** The peers that x heard from step i up to step j, in order. */
  function HeardIn(steps: seq<Step>, x: string, i: nat, j: nat): seq<string>
    requires i <= j <= |steps|
    decreases j
  {
    if i == j then []
    else HeardIn(steps, x, i, j - 1) + HeardAt(steps[j - 1], x)
  }

  function HeardAt(step: Step, x: string): seq<string> {
    if step.Receive? && step.x == x && step.msg.origin != x then [step.msg.origin] else []
  }

  // ---------------------------------------------------------------- local services stay

  /** s has the local services of s0, advertises them, and no origin can take them. */
  ghost predicate Steady(s0: Site, s: Site) {
    && KeyedByAddress(s.file) && SameLocals(s0, s)
    && s.localServices == LocalPart(s0.file)
    && forall n :: LocalEntry(s0.file, n) ==> Secured(s, n)
  }

  lemma CalmIsSteady(s: Site)
    requires Calm(s)
    ensures Steady(s, s)
  {
  }

  lemma SameLocalsSamePart(s0: Site, s: Site)
    requires SameLocals(s0, s)
    ensures LocalPart(s.file) == LocalPart(s0.file)
  {
    forall n ensures n in LocalPart(s.file) <==> n in LocalPart(s0.file) {
      assert LocalEntry(s.file, n) <==> LocalEntry(s0.file, n);
    }
  }

  lemma ReceiveKeepsSteady(s0: Site, s: Site, o: string, defs: Services, now: Time)
    requires Steady(s0, s) && OfferFrom(o, defs)
    ensures Steady(s0, Received(s, o, defs, now))
  {
    var r := Received(s, o, defs, now);
    forall n ensures LocalEntry(s0.file, n) ==> Secured(r, n) && r.file[n] == s0.file[n] {
      if LocalEntry(s0.file, n) {
        ReceiveKeepsSecured(s, n, o, defs, now);
      }
    }
    forall n | LocalEntry(r.file, n) ensures LocalEntry(s0.file, n) {
      assert n !in Changed(s, o, defs);
      assert LocalEntry(s.file, n);
    }
  }

  lemma WatchKeepsSteady(s0: Site, s: Site, s': Site)
    requires Steady(s0, s) && Watched(s, s')
    ensures Steady(s0, s')
  {
    SameLocalsSamePart(s0, s);
    forall n | LocalEntry(s0.file, n) ensures Secured(s', n) {
      SecuredAfterWatch(s, n, s');
    }
  }

  /** A message sent since i carries what its sender held at i. */
  ghost predicate SteadyUntil(nets: seq<Net>, i: nat, j: nat)
    requires i < |nets|
  {
    forall k, y :: i <= k <= j && k < |nets| && y in nets[i].sites ==>
      y in nets[k].sites && Steady(nets[i].sites[y], nets[k].sites[y])
  }

  lemma MessageIsOffer(nets: seq<Net>, steps: seq<Step>, i: nat, j: nat, msg: Message)
    requires Trace(nets, steps) && i <= j <= |steps| && SteadyUntil(nets, i, j) && SentSince(steps, i, j, msg)
    ensures msg.origin in nets[i].sites
    ensures Indexed(msg.defs, msg.origin) == OfferOf(nets[i].sites[msg.origin].file, msg.origin)
  {
    var k :| i <= k < j && k < |steps| && steps[k] == Send(msg.origin, msg.defs);
    assert Goes(nets, steps, k);
    SitesStay(nets, steps, i, k);
    var file := nets[i].sites[msg.origin].file;
    assert Steady(nets[i].sites[msg.origin], nets[k].sites[msg.origin]);
    FilesAreKeyedByAddress(nets, steps, i, msg.origin);
    IndexedOfEnumeration(msg.defs, LocalPart(file), msg.origin);
  }

  lemma OffersAreValid(net: Net, x: string)
    requires PeerNet(net)
    ensures ValidOffers(PeerOffers(net, x))
  {
  }

  lemma {:induction false} SitesStaySteady(nets: seq<Net>, steps: seq<Step>, i: nat, e: nat, j: nat)
    requires Trace(nets, steps) && i <= j <= e <= |steps| && AllCalm(nets[i]) && Orderly(nets, steps, i, e)
    ensures SteadyUntil(nets, i, j)
  {
    if i < j {
      SitesStaySteady(nets, steps, i, e, j - 1);
      forall y | y in nets[i].sites ensures y in nets[j].sites && Steady(nets[i].sites[y], nets[j].sites[y]) {
        StepKeepsSteady(nets, steps, i, j - 1, y);
      }
    } else {
      forall y | y in nets[i].sites ensures Steady(nets[i].sites[y], nets[i].sites[y]) {
        CalmIsSteady(nets[i].sites[y]);
      }
    }
  }

  lemma StepKeepsSteady(nets: seq<Net>, steps: seq<Step>, i: nat, j: nat, y: string)
    requires Trace(nets, steps) && i <= j < |steps| && SteadyUntil(nets, i, j)
    requires OrderlyAt(nets, steps, i, j) && y in nets[i].sites
    ensures y in nets[j + 1].sites && Steady(nets[i].sites[y], nets[j + 1].sites[y])
  {
    SitesStay(nets, steps, i, j);
    OnlyPeersAreKnown(nets, steps, j);
    assert Goes(nets, steps, j);
    var s0, s, s' := nets[i].sites[y], nets[j].sites[y], nets[j + 1].sites[y];
    assert Steady(s0, s);
    if steps[j].x == y {
      match steps[j] {
        case Receive(_, msg, now) =>
          if msg.origin != s.id {
            ReceiveKeepsSteady(s0, s, msg.origin, Indexed(msg.defs, msg.origin), now);
          }
        case Watch(_, after) => WatchKeepsSteady(s0, s, after);
        case Send(_, _) =>
      }
    }
  }

  // ---------------------------------------------------------------- each site follows its schedule

  /** s is where a run of deliveries of the schedule h from s0 leads. */
  ghost predicate Tracks(offers: Offers, h: seq<string>, s0: Site, s: Site) {
    exists run :: LiveRun(offers, h, run) && run[0] == s0 && run[|h|] == s
  }

  /** All but the pass of the last delivery has happened. */
  ghost predicate Pending(offers: Offers, h: seq<string>, s0: Site, s: Site) {
    h != [] && exists t: Site :: PendingFrom(offers, h, s0, t, s)
  }

  ghost predicate PendingFrom(offers: Offers, h: seq<string>, s0: Site, t: Site, s: Site)
    requires h != []
  {
    var o := h[|h| - 1];
    o in offers && Tracks(offers, h[..|h| - 1], s0, t) && exists now :: s == Received(t, o, offers[o], now)
  }

  lemma TracksFromTheStart(offers: Offers, s0: Site)
    requires ValidOffers(offers) && Start(s0, offers.Keys)
    ensures Tracks(offers, [], s0, s0)
  {
    assert LiveRun(offers, [], [s0]);
  }

  lemma TrackedIsAStart(offers: Offers, h: seq<string>, s0: Site, s: Site)
    requires Tracks(offers, h, s0, s)
    ensures ValidOffers(offers) && Start(s, offers.Keys)
  {
    var run :| LiveRun(offers, h, run) && run[0] == s0 && run[|h|] == s;
    RunKeepsStart(offers, h, run, |h|);
  }

  lemma DeliveryExtends(offers: Offers, h: seq<string>, o: string, s0: Site, t: Site, s: Site)
    requires Tracks(offers, h, s0, t) && o in offers && Delivered(t, o, offers[o], s)
    ensures Tracks(offers, h + [o], s0, s)
  {
    var run :| LiveRun(offers, h, run) && run[0] == s0 && run[|h|] == t;
    var longer := run + [s];
    forall k | 0 <= k < |h| + 1 ensures Moves(offers, h + [o], longer, k) {
      assert k < |h| ==> Moves(offers, h, run, k);
    }
    assert LiveRun(offers, h + [o], longer);
  }

  lemma PassEndsDelivery(offers: Offers, h: seq<string>, s0: Site, s: Site, w: Site)
    requires Pending(offers, h, s0, s) && Watched(s, w)
    ensures Tracks(offers, h, s0, w)
  {
    var k := |h| - 1;
    var t :| PendingFrom(offers, h, s0, t, s);
    var now :| s == Received(t, h[k], offers[h[k]], now);
    DeliveryExtends(offers, h[..k], h[k], s0, t, w);
    assert h[..k] + [h[k]] == h;
  }

  /** A pass over a calm site changes nothing. */
  lemma CalmPassIsIdle(s: Site, s': Site)
    requires Calm(s)
    ensures Watched(s, s') <==> s' == s
  {
    assert RemoteOrigins(s.file) <= s.byOrigin.Keys by {
      forall o | o in RemoteOrigins(s.file) ensures o in s.byOrigin {
        var n :| n in s.file && !s.file[n].IsLocal() && s.file[n].origin == o;
        assert RemoteEntry(s.file, n, o) && Holds(s.byOrigin, o, n);
      }
    }
    if Watched(s, s') {
      forall o, n ensures Holds(s'.byOrigin, o, n) <==> Holds(s.byOrigin, o, n) {
        if LocalEntry(s.file, n) {
          assert ParedOnce(s.byOrigin, s'.byOrigin, n);
        }
      }
      SameHoldings(s.byOrigin, s'.byOrigin);
    }
  }

  lemma SameHoldings(index: Index, index': Index)
    requires index.Keys == index'.Keys
    requires forall o, n :: Holds(index', o, n) <==> Holds(index, o, n)
    ensures index == index'
  {
    forall o | o in index ensures index[o] == index'[o] {
      forall n ensures n in index[o] <==> n in index'[o] {
        assert Holds(index', o, n) <==> Holds(index, o, n);
      }
    }
  }

  /** A delivery that wrote nothing needs no pass. */
  lemma SettledIsNotPending(offers: Offers, h: seq<string>, s0: Site, s: Site)
    requires Tracks(offers, h, s0, s) || Pending(offers, h, s0, s)
    requires Settled(s)
    ensures Tracks(offers, h, s0, s)
  {
    if Pending(offers, h, s0, s) {
      var k := |h| - 1;
      var t :| PendingFrom(offers, h, s0, t, s);
      TrackedIsAStart(offers, h[..k], s0, t);
      var now :| s == Received(t, h[k], offers[h[k]], now);
      ReceivedIsCalm(t, h[k], offers, now);
      CalmPassIsIdle(s, s);
      PassEndsDelivery(offers, h, s0, s, s);
    }
  }

  lemma ReceivedIsCalm(t: Site, o: string, offers: Offers, now: Time)
    requires ValidOffers(offers) && o in offers && Start(t, offers.Keys)
    requires Settled(Received(t, o, offers[o], now))
    ensures Calm(Received(t, o, offers[o], now))
  {
    var r := Received(t, o, offers[o], now);
    forall p, n | Holds(r.byOrigin, p, n) ensures !LocalEntry(r.file, n) {
      assert Holds(t.byOrigin, p, n);
      LocalsUntouched(t, o, offers, now, n);
    }
  }

  ghost predicate Follows(nets: seq<Net>, steps: seq<Step>, i: nat, j: nat, x: string)
    requires i <= j <= |steps| < |nets| && x in nets[i].sites && x in nets[j].sites
  {
    var offers, h := PeerOffers(nets[i], x), HeardIn(steps, x, i, j);
    || Tracks(offers, h, nets[i].sites[x], nets[j].sites[x])
    || Pending(offers, h, nets[i].sites[x], nets[j].sites[x])
  }

  lemma {:induction false} SitesFollow(nets: seq<Net>, steps: seq<Step>, i: nat, e: nat, j: nat, x: string)
    requires Trace(nets, steps) && i <= j <= e <= |steps| && AllCalm(nets[i]) && Orderly(nets, steps, i, e)
    requires x in nets[i].sites
    ensures x in nets[j].sites && Follows(nets, steps, i, j, x)
  {
    if i == j {
      FollowsFromTheStart(nets, steps, i, x);
    } else {
      SitesFollow(nets, steps, i, e, j - 1, x);
      NextFollows(nets, steps, i, e, j - 1, x);
    }
  }

  lemma NextFollows(nets: seq<Net>, steps: seq<Step>, i: nat, e: nat, j: nat, x: string)
    requires Trace(nets, steps) && i <= j < e <= |steps| && AllCalm(nets[i]) && Orderly(nets, steps, i, e)
    requires x in nets[i].sites && x in nets[j].sites && Follows(nets, steps, i, j, x)
    ensures x in nets[j + 1].sites && Follows(nets, steps, i, j + 1, x)
  {
    SitesStaySteady(nets, steps, i, e, j);
    assert OrderlyAt(nets, steps, i, j);
    StepFollows(nets, steps, i, j, x);
  }

  lemma FollowsFromTheStart(nets: seq<Net>, steps: seq<Step>, i: nat, x: string)
    requires Trace(nets, steps) && i <= |steps| && AllCalm(nets[i]) && x in nets[i].sites
    ensures Follows(nets, steps, i, i, x)
  {
    OnlyPeersAreKnown(nets, steps, i);
    OffersAreValid(nets[i], x);
    CalmIsAStart(nets[i], x);
    TracksFromTheStart(PeerOffers(nets[i], x), nets[i].sites[x]);
  }

  lemma CalmIsAStart(net: Net, x: string)
    requires PeerNet(net) && AllCalm(net) && x in net.sites
    ensures Start(net.sites[x], PeerOffers(net, x).Keys)
  {
    assert Calm(net.sites[x]) && KnowsPeers(net.sites[x], x, net.sites.Keys);
  }

  lemma StepFollows(nets: seq<Net>, steps: seq<Step>, i: nat, j: nat, x: string)
    requires Trace(nets, steps) && i <= j < |steps| && SteadyUntil(nets, i, j) && OrderlyAt(nets, steps, i, j)
    requires x in nets[i].sites && x in nets[j].sites && Follows(nets, steps, i, j, x)
    ensures x in nets[j + 1].sites && Follows(nets, steps, i, j + 1, x)
  {
    assert Goes(nets, steps, j);
    OnlyPeersAreKnown(nets, steps, j);
    var offers, h := PeerOffers(nets[i], x), HeardIn(steps, x, i, j);
    var s0, s, s' := nets[i].sites[x], nets[j].sites[x], nets[j + 1].sites[x];
    assert HeardIn(steps, x, i, j + 1) == h + HeardAt(steps[j], x);
    if steps[j].Receive? && steps[j].x == x && steps[j].msg.origin != x {
      var o := steps[j].msg.origin;
      MessageIsOffer(nets, steps, i, j, steps[j].msg);
      SettledIsNotPending(offers, h, s0, s);
      ReceivedIsPending(offers, h, o, s0, s, s', steps[j].now);
    } else {
      assert h + [] == h;
      if steps[j].Watch? && steps[j].x == x {
        WatchFollows(offers, h, s0, s, s');
      } else {
        assert s' == s;
      }
    }
  }

  lemma ReceivedIsPending(offers: Offers, h: seq<string>, o: string, s0: Site, s: Site, s': Site, now: Time)
    requires Tracks(offers, h, s0, s) && o in offers && s' == Received(s, o, offers[o], now)
    ensures Pending(offers, h + [o], s0, s')
  {
    assert (h + [o])[..|h|] == h;
    assert s' == Received(s, (h + [o])[|h|], offers[(h + [o])[|h|]], now);
    assert PendingFrom(offers, h + [o], s0, s, s');
  }

  lemma WatchFollows(offers: Offers, h: seq<string>, s0: Site, s: Site, s': Site)
    requires Tracks(offers, h, s0, s) || Pending(offers, h, s0, s)
    requires Watched(s, s')
    ensures Tracks(offers, h, s0, s')
  {
    if Pending(offers, h, s0, s) {
      PassEndsDelivery(offers, h, s0, s, s');
    } else {
      TrackedIsAStart(offers, h, s0, s);
      CalmPassIsIdle(s, s');
    }
  }

  // ---------------------------------------------------------------- agreement

  /** Site x has its own services of the earlier network as they were, and of the rest exactly the
      services its peers had as their own, each owned by one that had it and equivalent to it. */
  ghost predicate Agrees(net0: Net, net: Net, x: string)
    requires x in net0.sites && x in net.sites
  {
    var own, file := net0.sites[x].file, net.sites[x].file;
    && (forall n :: LocalEntry(own, n) ==> n in file && file[n] == own[n])
    && (forall n :: n in file <==> exists y :: y in net0.sites && LocalEntry(net0.sites[y].file, n))
    && (forall n, o :: RemoteEntry(file, n, o) ==>
          && o != x && o in net0.sites && LocalEntry(net0.sites[o].file, n)
          && Equivalent(file[n], Project(net0.sites[o].file[n])))
  }

  lemma ConvergedAgrees(net0: Net, net: Net, x: string)
    requires x in net0.sites && x in net.sites
    requires Converged(net0.sites[x], net.sites[x], PeerOffers(net0, x))
    ensures Agrees(net0, net, x)
  {
    var own, file, offers := net0.sites[x].file, net.sites[x].file, PeerOffers(net0, x);
    forall n ensures n in file <==> exists y :: y in net0.sites && LocalEntry(net0.sites[y].file, n) {
      assert n in file <==> LocalEntry(own, n) || Offered(offers, n);
      OfferedIffOwned(net0, x, n);
    }
    forall n, o | RemoteEntry(file, n, o)
      ensures o != x && o in net0.sites && LocalEntry(net0.sites[o].file, n)
      ensures Equivalent(file[n], Project(net0.sites[o].file[n]))
    {
      assert o in offers && n in offers[o] && Equivalent(file[n], offers[o][n]);
    }
  }

  lemma OfferedIffOwned(net: Net, x: string, n: string)
    requires x in net.sites
    ensures LocalEntry(net.sites[x].file, n) || Offered(PeerOffers(net, x), n) <==>
            exists y :: y in net.sites && LocalEntry(net.sites[y].file, n)
  {
    var offers := PeerOffers(net, x);
    if Offered(offers, n) {
      var o :| o in offers && n in offers[o];
      assert LocalEntry(net.sites[o].file, n);
    }
    if y :| y in net.sites && y != x && LocalEntry(net.sites[y].file, n) {
      assert y in offers && n in offers[y];
    }
  }

  /** The network agrees: from a moment on at which every site is settled and no own service is claimed
      by a peer, let only sending, watching, and receiving of messages sent since happen, in any
      interleaving over all sites, each site receiving only once its watcher has seen the last write.
      Then a site that has heard every peer, and each peer after the first update of every other, agrees
      with the services its peers had, as soon as its watcher has seen the last write. */
  lemma NetworkAgrees(nets: seq<Net>, steps: seq<Step>, i: nat, e: nat, x: string)
    requires Trace(nets, steps) && i <= e <= |steps| && AllCalm(nets[i]) && Orderly(nets, steps, i, e)
    requires x in nets[i].sites && x in nets[e].sites && Settled(nets[e].sites[x])
    requires Interleaved(HeardIn(steps, x, i, e), nets[i].sites.Keys - {x})
    ensures Agrees(nets[i], nets[e], x)
    ensures nets[e].sites[x].localServices == LocalPart(nets[i].sites[x].file)
  {
    var offers, h := PeerOffers(nets[i], x), HeardIn(steps, x, i, e);
    SitesFollow(nets, steps, i, e, e, x);
    SettledIsNotPending(offers, h, nets[i].sites[x], nets[e].sites[x]);
    var run :| LiveRun(offers, h, run) && run[0] == nets[i].sites[x] && run[|h|] == nets[e].sites[x];
    NothingIsStuck(nets, steps, i, x, offers);
    assert offers.Keys == nets[i].sites.Keys - {x};
    InterleavedConverges(offers, h, run);
    ConvergedAgrees(nets[i], nets[e], x);
    SitesStaySteady(nets, steps, i, e, e);
  }

  /** Two rounds at every site, each in any order, make the whole network agree. */
  lemma TwoRoundsAgree(nets: seq<Net>, steps: seq<Step>, i: nat, m: nat, e: nat)
    requires Trace(nets, steps) && i <= m <= e <= |steps| && AllCalm(nets[i]) && Orderly(nets, steps, i, e)
    requires forall x :: x in nets[i].sites ==>
      && Round(HeardIn(steps, x, i, m), nets[i].sites.Keys - {x})
      && Round(HeardIn(steps, x, m, e), nets[i].sites.Keys - {x})
    requires forall x :: x in nets[e].sites ==> Settled(nets[e].sites[x])
    ensures nets[e].sites.Keys == nets[i].sites.Keys
    ensures forall x :: x in nets[i].sites ==> Agrees(nets[i], nets[e], x)
  {
    SitesStay(nets, steps, i, e);
    forall x | x in nets[i].sites ensures Agrees(nets[i], nets[e], x) {
      HeardInParts(steps, x, i, m, e);
      RoundsInterleave(HeardIn(steps, x, i, m), HeardIn(steps, x, m, e), nets[i].sites.Keys - {x});
      NetworkAgrees(nets, steps, i, e, x);
    }
  }

  lemma {:induction false} HeardInParts(steps: seq<Step>, x: string, i: nat, m: nat, e: nat)
    requires i <= m <= e <= |steps|
    ensures HeardIn(steps, x, i, e) == HeardIn(steps, x, i, m) + HeardIn(steps, x, m, e)
    decreases e
  {
    if m < e {
      HeardInParts(steps, x, i, m, e - 1);
    }
  }
}
