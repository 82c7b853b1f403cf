/** The whole network: sites that edit, send, receive, age, watch and restart in any interleaving,
    over a soup of messages that may be delayed, duplicated, reordered or lost. */
module Network {
  import opened Types
  import opened ServiceSync
  import opened SyncProperties
  import opened ServiceEdits
  import opened Convergence

  /** Messages stay in the soup once sent, so any of them can arrive any number of times. */
  datatype Net = Net(sites: map<string, Site>, soup: set<Message>)

  datatype Step =
    | Send(x: string, defs: seq<ServiceInterface>)
    | Receive(x: string, msg: Message, now: Time)
    | Tick(x: string, now: Time)
    | Watch(x: string, after: Site)
    | UserEdit(x: string, edit: Edit, host: Host)
    | Restart(x: string, now: Time, after: Site)

  /** What happens to the acting site. A site ignores its own broadcasts. */
  ghost predicate Acts(s: Site, step: Step, s': Site) {
    match step
    case Send(_, _) => s' == s
    case Receive(_, msg, now) =>
      s' == if msg.origin == s.id then s else Received(s, msg.origin, Indexed(msg.defs, msg.origin), now)
    case Tick(_, now) => s' == Aged(s, now)
    case Watch(_, after) => s' == after && Watched(s, after)
    case UserEdit(_, edit, host) => s' == s.(file := Edited(edit, host, s.file))
    case Restart(_, now, after) => s' == after && Restarted(s, now, after)
  }

  ghost predicate Does(net: Net, step: Step, net': Net) {
    && step.x in net.sites
    && net'.sites.Keys == net.sites.Keys
    && Acts(net.sites[step.x], step, net'.sites[step.x])
    && (forall y :: y in net.sites && y != step.x ==> net'.sites[y] == net.sites[y])
    && (step.Send? ==> Enumerates(step.defs, net.sites[step.x].localServices))
    && (step.Receive? ==> step.msg in net.soup)
    && net'.soup == if step.Send? then net.soup + {Message(step.x, step.defs)} else net.soup
  }

  /** New sites with empty files, under distinct and proper ids, and nothing sent. */
  ghost predicate Init(net: Net) {
    && net.soup == {}
    && forall x :: x in net.sites ==>
         !IsLocalOrigin(x) && net.sites[x] == Site(x, map[], map[], map[], map[], map[])
  }

  ghost predicate Trace(nets: seq<Net>, steps: seq<Step>) {
    && |nets| == |steps| + 1
    && Init(nets[0])
    && forall i :: 0 <= i < |steps| ==> Goes(nets, steps, i)
  }

  ghost predicate Goes(nets: seq<Net>, steps: seq<Step>, i: nat)
    requires i < |steps| == |nets| - 1
  {
    Does(nets[i], steps[i], nets[i + 1])
  }

  // ---------------------------------------------------------------- provenance

  /** At or before step i, o itself held si's address as a local service with si's data. */
  ghost predicate OnceLocal(nets: seq<Net>, i: nat, o: string, si: ServiceInterface) {
    exists j :: 0 <= j <= i && j < |nets| && HoldsLocally(nets[j], o, si)
  }

  ghost predicate HoldsLocally(net: Net, o: string, si: ServiceInterface) {
    && o in net.sites
    && LocalEntry(net.sites[o].file, si.address)
    && SameService(net.sites[o].file[si.address], si)
  }

  ghost predicate SoundSite(nets: seq<Net>, i: nat, x: string, s: Site) {
    && s.id == x && !IsLocalOrigin(x)
    && KeyedByAddress(s.file)
    && (forall o :: o in s.byOrigin ==> !IsLocalOrigin(o))
    && (forall n :: n in s.localServices ==> OnceLocal(nets, i, x, s.localServices[n]))
    && (forall n, o :: RemoteEntry(s.file, n, o) ==> o != x && OnceLocal(nets, i, o, s.file[n]))
  }

  ghost predicate SoundMessage(nets: seq<Net>, i: nat, msg: Message) {
    !IsLocalOrigin(msg.origin) && forall d :: d in msg.defs ==> OnceLocal(nets, i, msg.origin, d)
  }

  ghost predicate Sound(nets: seq<Net>, i: nat)
    requires i < |nets|
  {
    && (forall x :: x in nets[i].sites ==> SoundSite(nets, i, x, nets[i].sites[x]))
    && (forall msg :: msg in nets[i].soup ==> SoundMessage(nets, i, msg))
  }

  lemma {:induction false} TraceIsSound(nets: seq<Net>, steps: seq<Step>, i: nat)
    requires Trace(nets, steps) && i <= |steps|
    ensures Sound(nets, i)
  {
    if i > 0 {
      TraceIsSound(nets, steps, i - 1);
      assert Goes(nets, steps, i - 1);
      StepIsSound(nets, i - 1, steps[i - 1]);
    }
  }

  lemma StepIsSound(nets: seq<Net>, i: nat, step: Step)
    requires i + 1 < |nets| && Sound(nets, i) && Does(nets[i], step, nets[i + 1])
    ensures Sound(nets, i + 1)
  {
    var x, k, net' := step.x, i + 1, nets[i + 1];
    forall y | y in net'.sites ensures SoundSite(nets, k, y, net'.sites[y]) {
      SoundStays(nets, i, y, nets[i].sites[y]);
      if y == x {
        ActIsSound(nets, i, x, nets[i].sites[x], step, net'.sites[x]);
      }
    }
    forall msg | msg in net'.soup ensures SoundMessage(nets, k, msg) {
      if msg in nets[i].soup {
        OnceLocalStays(nets, i);
      } else {
        SentIsSound(nets, i, x, nets[i].sites[x], msg);
      }
    }
  }

  lemma OnceLocalStays(nets: seq<Net>, i: nat)
    ensures forall o, si :: OnceLocal(nets, i, o, si) ==> OnceLocal(nets, i + 1, o, si)
  {
  }

  lemma SoundStays(nets: seq<Net>, i: nat, x: string, s: Site)
    requires SoundSite(nets, i, x, s)
    ensures SoundSite(nets, i + 1, x, s)
  {
    OnceLocalStays(nets, i);
  }

  lemma SentIsSound(nets: seq<Net>, i: nat, x: string, s: Site, msg: Message)
    requires SoundSite(nets, i, x, s) && msg.origin == x && Enumerates(msg.defs, s.localServices)
    ensures SoundMessage(nets, i + 1, msg)
  {
    OnceLocalStays(nets, i);
    forall d | d in msg.defs ensures OnceLocal(nets, i + 1, x, d) {
      assert OnceLocal(nets, i, x, s.localServices[d.address]);
    }
  }

  lemma ActIsSound(nets: seq<Net>, i: nat, x: string, s: Site, step: Step, s': Site)
    requires i + 1 < |nets| && x in nets[i].sites && nets[i].sites[x] == s
    requires SoundSite(nets, i, x, s) && SoundSite(nets, i + 1, x, s) && Acts(s, step, s')
    requires step.Receive? ==> SoundMessage(nets, i, step.msg)
    ensures SoundSite(nets, i + 1, x, s')
  {
    OnceLocalStays(nets, i);
    match step {
      case Send(_, _) =>
      case Receive(_, msg, now) =>
        if msg.origin != x {
          ReceiveIsSound(nets, i + 1, x, s, msg, now);
        }
      case Tick(_, now) =>
        FewerEntriesAreSound(nets, i + 1, x, s, s');
      case Watch(_, after) =>
        WatchIsSound(nets, i, x, s, s');
      case UserEdit(_, edit, host) =>
        EditIsSound(nets, i + 1, x, s, edit, host);
      case Restart(_, now, after) =>
        var w :| Watched(Site(s.id, s.file, map[], map[], map[], map[]), w) && after == Seeded(w, now);
        WatchIsSound(nets, i, x, s, s');
    }
  }

  lemma FewerEntriesAreSound(nets: seq<Net>, i: nat, x: string, s: Site, s': Site)
    requires SoundSite(nets, i, x, s)
    requires s'.id == s.id && s'.localServices == s.localServices && s'.byOrigin.Keys <= s.byOrigin.Keys
    requires forall n :: n in s'.file ==> n in s.file && s'.file[n] == s.file[n]
    ensures SoundSite(nets, i, x, s')
  {
    forall n, o | RemoteEntry(s'.file, n, o) ensures o != x && OnceLocal(nets, i, o, s'.file[n]) {
      assert RemoteEntry(s.file, n, o);
    }
  }

  lemma ReceiveIsSound(nets: seq<Net>, i: nat, x: string, s: Site, msg: Message, now: Time)
    requires SoundSite(nets, i, x, s) && SoundMessage(nets, i, msg) && msg.origin != x
    ensures SoundSite(nets, i, x, Received(s, msg.origin, Indexed(msg.defs, msg.origin), now))
  {
    var o, defs := msg.origin, Indexed(msg.defs, msg.origin);
    var s' := Received(s, o, defs, now);
    forall n, p | RemoteEntry(s'.file, n, p) ensures p != x && OnceLocal(nets, i, p, s'.file[n]) {
      if n in Changed(s, o, defs) {
        assert s'.file[n] == defs[n] && p == o;
        OfferIsSound(nets, i, msg, n);
        assert OnceLocal(nets, i, p, s'.file[n]);
      } else {
        assert RemoteEntry(s.file, n, p) && s'.file[n] == s.file[n];
        assert OnceLocal(nets, i, p, s.file[n]);
      }
    }
  }

  lemma OfferIsSound(nets: seq<Net>, i: nat, msg: Message, n: string)
    requires SoundMessage(nets, i, msg) && n in Indexed(msg.defs, msg.origin)
    ensures OnceLocal(nets, i, msg.origin, Indexed(msg.defs, msg.origin)[n])
  {
    var o, si := msg.origin, Indexed(msg.defs, msg.origin)[n];
    IndexedComesFromList(msg.defs, o);
    var d :| d in msg.defs && d.(origin := o) == si;
    assert OnceLocal(nets, i, o, d);
    var j :| 0 <= j <= i && j < |nets| && HoldsLocally(nets[j], o, d);
    assert HoldsLocally(nets[j], o, si);
  }

  /** The pass advertises exactly what the file holds locally at that moment. */
  lemma WatchIsSound(nets: seq<Net>, i: nat, x: string, s: Site, s': Site)
    requires i + 1 < |nets| && x in nets[i].sites && nets[i].sites[x] == s
    requires SoundSite(nets, i + 1, x, s)
    requires s'.id == s.id && s'.file == s.file && s'.localServices == LocalPart(s.file)
    requires s'.byOrigin.Keys <= s.byOrigin.Keys + RemoteOrigins(s.file)
    ensures SoundSite(nets, i + 1, x, s')
  {
    forall n | n in s'.localServices ensures OnceLocal(nets, i + 1, x, s'.localServices[n]) {
      assert HoldsLocally(nets[i], x, s'.localServices[n]);
    }
  }

  lemma EditIsSound(nets: seq<Net>, i: nat, x: string, s: Site, edit: Edit, host: Host)
    requires SoundSite(nets, i, x, s)
    ensures SoundSite(nets, i, x, s.(file := Edited(edit, host, s.file)))
  {
    var file' := Edited(edit, host, s.file);
    EditTouchesOneEntry(edit, host, s.file);
    forall n, o | RemoteEntry(file', n, o) ensures o != x && OnceLocal(nets, i, o, file'[n]) {
      assert RemoteEntry(s.file, n, o);
      var j :| 0 <= j <= i && j < |nets| && HoldsLocally(nets[j], o, s.file[n]);
      assert HoldsLocally(nets[j], o, file'[n]);
    }
  }

  /** Provenance: in every run, an entry that a site's file holds with a remote origin was once a
      local service of that origin, under the same address and with the same protocol, port and
      headless data; and the origin is never the site itself. */
  lemma Provenance(nets: seq<Net>, steps: seq<Step>, i: nat, x: string, n: string, o: string)
    requires Trace(nets, steps) && i <= |steps|
    requires x in nets[i].sites && RemoteEntry(nets[i].sites[x].file, n, o)
    ensures o != x
    ensures exists j :: && 0 <= j <= i && o in nets[j].sites && LocalEntry(nets[j].sites[o].file, n)
                        && SameService(nets[j].sites[o].file[n], nets[i].sites[x].file[n])
  {
    TraceIsSound(nets, steps, i);
    var si := nets[i].sites[x].file[n];
    assert si.address == n && OnceLocal(nets, i, o, si);
    var j :| 0 <= j <= i && j < |nets| && HoldsLocally(nets[j], o, si);
  }

  /** Learned services are never re-advertised: whatever was sent was local to its sender. */
  lemma OnlyLocalServicesAreAdvertised(nets: seq<Net>, steps: seq<Step>, i: nat, msg: Message, d: ServiceInterface)
    requires Trace(nets, steps) && i <= |steps| && msg in nets[i].soup && d in msg.defs
    ensures exists j :: && 0 <= j <= i && msg.origin in nets[j].sites
                        && LocalEntry(nets[j].sites[msg.origin].file, d.address)
                        && SameService(nets[j].sites[msg.origin].file[d.address], d)
  {
    TraceIsSound(nets, steps, i);
    var j :| 0 <= j <= i && j < |nets| && HoldsLocally(nets[j], msg.origin, d);
  }

  /** The file key invariant holds at every site in every reachable state. */
  lemma FilesAreKeyedByAddress(nets: seq<Net>, steps: seq<Step>, i: nat, x: string)
    requires Trace(nets, steps) && i <= |steps| && x in nets[i].sites
    ensures KeyedByAddress(nets[i].sites[x].file)
  {
    TraceIsSound(nets, steps, i);
  }

  /** Only proper site ids are ever indexed. */
  lemma IndexedOriginsAreProper(nets: seq<Net>, steps: seq<Step>, i: nat, x: string, o: string)
    requires Trace(nets, steps) && i <= |steps| && x in nets[i].sites && o in nets[i].sites[x].byOrigin
    ensures !IsLocalOrigin(o)
  {
    TraceIsSound(nets, steps, i);
  }

  /** So at every reachable site a takeover lasts exactly when at most one origin claims the name. */
  lemma TakeoversLastIff(nets: seq<Net>, steps: seq<Step>, i: nat, x: string, si: ServiceInterface)
    requires Trace(nets, steps) && i <= |steps| && x in nets[i].sites && si.IsLocal()
    ensures TakeoverLasts(nets[i].sites[x], si) <==> AtMostOneHolder(nets[i].sites[x].byOrigin, si.address)
  {
    FilesAreKeyedByAddress(nets, steps, i, x);
    forall o | o in nets[i].sites[x].byOrigin ensures !IsLocalOrigin(o) {
      IndexedOriginsAreProper(nets, steps, i, x, o);
    }
    TakeoverIsSafeIff(nets[i].sites[x], si);
  }

  lemma {:induction false} SitesStay(nets: seq<Net>, steps: seq<Step>, i: nat, j: nat)
    requires Trace(nets, steps) && i <= j <= |steps|
    ensures nets[j].sites.Keys == nets[i].sites.Keys
  {
    if i < j {
      SitesStay(nets, steps, i, j - 1);
      assert Goes(nets, steps, j - 1);
    }
  }

  /** The user of x does not touch n from step i up to step j. */
  ghost predicate Untouched(steps: seq<Step>, x: string, n: string, i: nat, j: nat) {
    forall k :: i <= k < j && k < |steps| && steps[k].UserEdit? && steps[k].x == x ==> steps[k].edit.Where() != n
  }

  lemma ActKeepsSecured(s: Site, step: Step, s': Site, n: string)
    requires Secured(s, n) && Acts(s, step, s')
    requires step.Receive? ==> !IsLocalOrigin(step.msg.origin)
    requires step.UserEdit? ==> step.edit.Where() != n
    ensures Secured(s', n) && s'.file[n] == s.file[n]
  {
    match step {
      case Receive(_, msg, now) =>
        if msg.origin != s.id {
          ReceiveKeepsSecured(s, n, msg.origin, Indexed(msg.defs, msg.origin), now);
        }
      case Tick(_, now) => TickKeepsSecured(s, n, now);
      case Watch(_, after) => SecuredAfterWatch(s, n, after);
      case UserEdit(_, edit, host) => EditTouchesOneEntry(edit, host, s.file);
      case Restart(_, now, after) =>
        assert RestartStep(s, after);
        RestartKeepsSecured(s, n, after);
      case Send(_, _) =>
    }
  }

  /** What no origin claims at a site stays there over the rest of any run, until its user edits it. */
  lemma {:induction false} SecuredStays(nets: seq<Net>, steps: seq<Step>, i: nat, j: nat, x: string, n: string)
    requires Trace(nets, steps) && i <= j <= |steps| && x in nets[i].sites
    requires Secured(nets[i].sites[x], n) && Untouched(steps, x, n, i, j)
    ensures x in nets[j].sites && Secured(nets[j].sites[x], n)
    ensures nets[j].sites[x].file[n] == nets[i].sites[x].file[n]
  {
    if i < j {
      SecuredStays(nets, steps, i, j - 1, x, n);
      SecuredStep(nets, steps, j - 1, x, n);
    }
  }

  lemma SecuredStep(nets: seq<Net>, steps: seq<Step>, j: nat, x: string, n: string)
    requires Trace(nets, steps) && j < |steps| && x in nets[j].sites && Secured(nets[j].sites[x], n)
    requires steps[j].UserEdit? && steps[j].x == x ==> steps[j].edit.Where() != n
    ensures x in nets[j + 1].sites && Secured(nets[j + 1].sites[x], n)
    ensures nets[j + 1].sites[x].file[n] == nets[j].sites[x].file[n]
  {
    assert Goes(nets, steps, j);
    if steps[j].x == x {
      if steps[j].Receive? {
        TraceIsSound(nets, steps, j);
        assert SoundMessage(nets, j, steps[j].msg);
      }
      ActKeepsSecured(nets[j].sites[x], steps[j], nets[j + 1].sites[x], n);
    }
  }

  /** Taking over in the network: once a watcher pass finds a local definition that at most one origin
      claims, it stays through every run of sends, receipts of old or repeated messages, ticks, passes
      and restarts, however the indexes lag, until its user edits it. */
  lemma TakenOverForGood(nets: seq<Net>, steps: seq<Step>, i: nat, j: nat, x: string, n: string)
    requires Trace(nets, steps) && i < j <= |steps| && steps[i].Watch? && steps[i].x == x && x in nets[i].sites
    requires LocalEntry(nets[i].sites[x].file, n) && AtMostOneHolder(nets[i].sites[x].byOrigin, n)
    requires Untouched(steps, x, n, i, j)
    ensures x in nets[j].sites && n in nets[j].sites[x].file
    ensures nets[j].sites[x].file[n] == nets[i].sites[x].file[n]
  {
    assert Goes(nets, steps, i);
    FilesAreKeyedByAddress(nets, steps, i, x);
    SecuredAfterWatch(nets[i].sites[x], n, nets[i + 1].sites[x]);
    SecuredStays(nets, steps, i + 1, j, x, n);
  }

  // ---------------------------------------------------------------- validity

  ghost predicate ValidNet(net: Net) {
    && (forall x :: x in net.sites ==> AllValid(net.sites[x].file) && AllValid(net.sites[x].localServices))
    && (forall msg, d :: msg in net.soup && d in msg.defs ==> Valid(d))
  }

  lemma ProjectionIsValid(file: Services)
    requires AllValid(file)
    ensures AllValid(LocalPart(file))
  {
  }

  lemma ReceiveKeepsValid(s: Site, msg: Message, now: Time)
    requires AllValid(s.file) && forall d :: d in msg.defs ==> Valid(d)
    ensures AllValid(Received(s, msg.origin, Indexed(msg.defs, msg.origin), now).file)
  {
    var defs := Indexed(msg.defs, msg.origin);
    IndexedComesFromList(msg.defs, msg.origin);
    forall n | n in defs ensures Valid(defs[n]) {
      var d :| d in msg.defs && d.(origin := msg.origin) == defs[n];
    }
  }

  lemma ActKeepsValid(s: Site, step: Step, s': Site)
    requires AllValid(s.file) && AllValid(s.localServices) && Acts(s, step, s')
    requires step.Receive? ==> forall d :: d in step.msg.defs ==> Valid(d)
    requires step.UserEdit? ==> step.edit.PortInRange()
    ensures AllValid(s'.file) && AllValid(s'.localServices)
  {
    ProjectionIsValid(s.file);
    match step {
      case Receive(_, msg, now) => ReceiveKeepsValid(s, msg, now);
      case UserEdit(_, edit, host) => EditKeepsValid(edit, host, s.file);
      case _ =>
    }
  }

  lemma StepKeepsValid(net: Net, step: Step, net': Net)
    requires ValidNet(net) && Does(net, step, net')
    requires step.UserEdit? ==> step.edit.PortInRange()
    ensures ValidNet(net')
  {
    ActKeepsValid(net.sites[step.x], step, net'.sites[step.x]);
    forall msg, d | msg in net'.soup && d in msg.defs ensures Valid(d) {
      if msg !in net.soup {
        assert Valid(net.sites[step.x].localServices[d.address]);
      }
    }
  }

  /** Validity across sites: with target ports in range on the command line, every entry of every
      site's file satisfies the validator in every reachable state. */
  lemma {:induction false} FilesStayValid(nets: seq<Net>, steps: seq<Step>, i: nat)
    requires Trace(nets, steps) && i <= |steps|
    requires forall j :: 0 <= j < |steps| && steps[j].UserEdit? ==> steps[j].edit.PortInRange()
    ensures ValidNet(nets[i])
  {
    if i > 0 {
      FilesStayValid(nets, steps, i - 1);
      assert Goes(nets, steps, i - 1);
      StepKeepsValid(nets[i - 1], steps[i - 1], nets[i]);
    }
  }

  // ---------------------------------------------------------------- learned entries are plain

  /** Nothing beyond what the index projection keeps. */
  predicate Plain(si: ServiceInterface) { si == Project(si) }

  ghost predicate PlainSite(s: Site) {
    && (forall n :: n in s.localServices ==> Plain(s.localServices[n]))
    && (forall n :: n in s.file && !s.file[n].IsLocal() ==> Plain(s.file[n]))
  }

  ghost predicate PlainNet(net: Net) {
    && (forall x :: x in net.sites ==> PlainSite(net.sites[x]))
    && (forall msg, d :: msg in net.soup && d in msg.defs ==> Plain(d))
  }

  lemma ReceiveKeepsPlain(s: Site, msg: Message, now: Time)
    requires PlainSite(s) && forall d :: d in msg.defs ==> Plain(d)
    ensures PlainSite(Received(s, msg.origin, Indexed(msg.defs, msg.origin), now))
  {
    var defs := Indexed(msg.defs, msg.origin);
    IndexedComesFromList(msg.defs, msg.origin);
    forall n | n in defs ensures Plain(defs[n]) {
      var d :| d in msg.defs && d.(origin := msg.origin) == defs[n];
    }
  }

  /** A learned entry has no target that an unbind could take. */
  lemma EditKeepsPlain(s: Site, edit: Edit, host: Host)
    requires PlainSite(s) && KeyedByAddress(s.file)
    ensures PlainSite(s.(file := Edited(edit, host, s.file)))
  {
    var file', a := Edited(edit, host, s.file), edit.Where();
    EditTouchesOneEntry(edit, host, s.file);
    if a in file' && !file'[a].IsLocal() {
      assert file'[a].targets == [];
    }
  }

  lemma ActKeepsPlain(s: Site, step: Step, s': Site)
    requires PlainSite(s) && KeyedByAddress(s.file) && Acts(s, step, s')
    requires step.Receive? ==> forall d :: d in step.msg.defs ==> Plain(d)
    ensures PlainSite(s')
  {
    match step {
      case Receive(_, msg, now) => ReceiveKeepsPlain(s, msg, now);
      case UserEdit(_, edit, host) => EditKeepsPlain(s, edit, host);
      case _ =>
    }
  }

  lemma StepKeepsPlain(net: Net, step: Step, net': Net)
    requires PlainNet(net) && Does(net, step, net') && KeyedByAddress(net.sites[step.x].file)
    ensures PlainNet(net')
  {
    ActKeepsPlain(net.sites[step.x], step, net'.sites[step.x]);
    forall msg, d | msg in net'.soup && d in msg.defs ensures Plain(d) {
      if msg !in net.soup {
        assert Plain(net.sites[step.x].localServices[d.address]);
      }
    }
  }

  /** In every reachable state a learned entry carries no event channel, aggregate, target or alias,
      and so does every definition under way. */
  lemma {:induction false} LearnedEntriesArePlain(nets: seq<Net>, steps: seq<Step>, i: nat)
    requires Trace(nets, steps) && i <= |steps|
    ensures PlainNet(nets[i])
  {
    if i > 0 {
      LearnedEntriesArePlain(nets, steps, i - 1);
      assert Goes(nets, steps, i - 1);
      FilesAreKeyedByAddress(nets, steps, i - 1, steps[i - 1].x);
      StepKeepsPlain(nets[i - 1], steps[i - 1], nets[i]);
    }
  }

  /** So no entry is ever stuck at a reachable site, whatever its peers offer. */
  lemma NothingIsStuck(nets: seq<Net>, steps: seq<Step>, i: nat, x: string, offers: Offers)
    requires Trace(nets, steps) && i <= |steps| && x in nets[i].sites
    ensures NothingStuck(nets[i].sites[x], offers)
  {
    LearnedEntriesArePlain(nets, steps, i);
    var s := nets[i].sites[x];
    forall n ensures !Stuck(s, offers, n) {
      assert n in s.file && !s.file[n].IsLocal() ==> Plain(s.file[n]);
    }
  }

  /** In the network, two rounds of fixed offers always bring a settled site into agreement. */
  lemma TwoRoundsConverge(nets: seq<Net>, steps: seq<Step>, i: nat, x: string,
                          first: seq<string>, second: seq<string>, offers: Offers, run: seq<Site>)
    requires Trace(nets, steps) && i <= |steps| && x in nets[i].sites
    requires Round(first, offers.Keys) && Round(second, offers.Keys)
    requires LiveRun(offers, first + second, run) && run[0] == nets[i].sites[x]
    ensures Converged(run[0], run[|first + second|], offers)
  {
    NothingIsStuck(nets, steps, i, x, offers);
    TwoRoundsConvergeIff(first, second, offers, run);
  }
}
