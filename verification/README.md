# Skupper for Docker: service sync, reconciliation and router configuration

This project models the part of skupper-docker that makes services appear on several sites, and
proves what it promises.

Each site keeps a file of service definitions. The service controller broadcasts the site's local
definitions, merges what other sites broadcast, ages out sites it no longer hears from, and keeps
four in-memory indexes that follow the file only when a watcher pass runs. The same pass patches a
table of bindings and keeps one proxy container per service, each with a generated router
configuration. Users edit the file with the command line client, which also edits the router's own
configuration file when sites are connected.

How the files divide this:

| file | content |
|---|---|
| Types | service definitions, the file, the file key invariant |
| ServiceSync | the steps of one site as values: watcher pass, receive, age tick, start-up |
| SyncProperties | exact indexes, ownership, quiescence, taking over a remote service |
| Convergence | which delivery schedules make a site agree with its peers |
| ServiceEdits, UserEdits | the user's edits: validation, targets, bind and unbind, and what each does field by field |
| Network | many sites, a soup of messages, every interleaving |
| Agreement | the whole network converges, over its own runs |
| Ageing | who can be aged out, and when, over timed runs |
| Json, Qdr, Codec, Wire | the router configuration, its elements key by key, and the codec's laws |
| ProxyConfig, ProxyFacts | the configuration of a service's proxy, as a function of the definition and field by field |
| Router | the mutable configuration object, its editors, marshalling, the proxy builder |
| Bindings, Reconcile, Restarts | the patched bindings and the containers, over any sequence of files |
| Controller | the controller as an object with maps updated in place, proved against the above |
| Connectors, SiteFacts, VanClient | connector life cycle, the site's configuration field by field, and the command line client as an object |

Go visits maps in an arbitrary order. Loops over maps are written with an arbitrary choice of the
next key, and where the outcome depends on that choice (which origin a pass drops a local name from,
the order of marshalled elements) the step is a relation that admits every outcome.

Six promises are false as one would first state them. Each is replaced by its exact condition, with
a witness:

- Hearing every peer twice does not make a site converge: a stale index name makes a peer's first
  update delete another peer's service. Two whole rounds do, and `Convergence.ConvergesIffInterleaved`
  says which schedules do; `Convergence.TwiceOutOfRoundsIsNotEnough` is one that does not.
- Nor do two rounds make every entry equivalent to its owner's offer: the index projection hides event
  channels and aggregates, so one that was learned and is no longer offered is never noticed.
  `Convergence.ConvergesIffNothingStuck` says which starts fail, `Convergence.LoudEntryStaysLoud` is
  one, and `Network.NothingIsStuck` shows that no run of the network leads to one.
- Indexes do not stay exact when a user removes a learned service, because a pass never prunes
  `byOrigin` for names that left the file: `SyncProperties.EditKeepsExactIff`,
  `SyncProperties.RemovingALearnedServiceStrands`.
- An update with an event channel or an aggregate is written again each time it is heard; what peers
  send never has either: `SyncProperties.QuiescenceIff`, `SyncProperties.LoudUpdateIsNeverQuiet`,
  `SyncProperties.PeerUpdatesAreQuiescent`.
- Not every origin can always be aged out: if an age tick comes 60 s or more after an update and no
  pass has indexed the update's services in between, they stay until their origin is heard again, the
  user edits them or the controller restarts: `Ageing.TickKeepsAgableIff`, `Ageing.UnwatchedTickStrands`,
  `Ageing.StrandedStays`.
- A patched binding is not in all respects the one built fresh from the last definition: targets keep
  the selector and service name they came in with, and headless data and ingress port never change:
  `Bindings.StoredAsEntered`, `Bindings.HistoryShowsIff`, `Bindings.SelectorsAndHeadlessArePathDependent`.

Where code and messages disagree the code is followed. An update of a service that is not on file
creates it, since the lookup before it (client/serviceinterface_inspect.go:28-29) returns no error;
its message says the service was not found. A service with origin "annotation" is broadcast as local,
but its proxy gets no connectors, since only an empty origin does (pkg/qdr/qdr.go:481).

Assumed throughout: site ids are distinct and neither "" nor "annotation"; the first watcher pass
comes before the first received update; reading and writing files succeeds; containers are created,
started and removed successfully unless the name is taken by a container that is not a proxy.

Not in the table below are the one-assignment members: the editors of `Router.RouterConfig`
(pkg/qdr/qdr.go:88-186), each proved to file or remove its entity in its own section as the decoder
would and to change nothing else; `Controller.ServiceBindings.AddTarget`
(cmd/service-controller/bridges.go:155-162); and `VanClient.VanClient.AnswersTo`, the test of the unbind
loop (client/serviceinterface_update.go:213-227).

## Model

| member | source | states |
|---|---|---|
| `Controller.Controller.constructor` | cmd/service-controller/controller.go:50-66 | a new controller knows no origin, no binding and no last-heard time; it starts from the file and containers it finds |
| `Controller.Controller.PareByOrigin` | cmd/service-controller/service_sync.go:21-28 | in every visiting order: if any origin holds the name, exactly one of them loses it; no other name and no origin is touched |
| `Controller.Controller.ServiceSyncDefinitionsUpdated` | cmd/service-controller/service_sync.go:30-83 | in every visiting order, the pass is a `Reindexed` step: each remote entry is indexed under its origin, each local name is pared from one holder, nothing else is pruned, and the two name indexes mirror the file |
| `Controller.Controller.IndexEntry` | cmd/service-controller/service_sync.go:46-54 | one more definition of the file extends the pass so far, whichever definitions were visited before |
| `Controller.Controller.UpdateSkupperServices` | cmd/service-controller/controller.go:96-130 | changed entries are stored and deleted names go, deletion winning; the file stays keyed by address |
| `Controller.Controller.ChangedDefinitions` | cmd/service-controller/service_sync.go:108-114 | picks the absent addresses and those of the same origin that are not equivalent, for every visiting order |
| `Controller.Controller.EnsureServiceInterfaceDefinitions` | cmd/service-controller/service_sync.go:102-139 | one received update takes the site to exactly the state `Received` of the protocol model, also when there is nothing to write |
| `Controller.Controller.OnSyncUpdate` | cmd/service-controller/service_sync.go:263-275 | a site ignores its own broadcasts; from anyone else the later definition of an address wins and every origin is overwritten by the sender's |
| `Controller.Controller.SendLocal` | cmd/service-controller/service_sync.go:164-177 | a broadcast carries each local service once, in some order, under the site's own id |
| `Controller.Controller.AgeOrigins` | cmd/service-controller/service_sync.go:179-209 | one age tick takes the site to exactly `Aged`: all overdue origins, all their indexed names, nothing else |
| `Controller.Controller.DropOrigin` | cmd/service-controller/service_sync.go:190-200 | every name indexed under an aged origin leaves the file, and no other |
| `Controller.Controller.DropAgedOrigins` | cmd/service-controller/service_sync.go:184-203 | the loop finds all overdue origins and takes exactly their indexed names out of the file |
| `Controller.Controller.SeedHeardFrom` | cmd/service-controller/controller.go:299-303 | every indexed origin but the site's own counts as heard now; other times stay |
| `Controller.Controller.StartWatching` | cmd/service-controller/controller.go:285-303 | a start is a first pass over empty indexes followed by the seeding, and the containers follow the file |
| `Controller.Controller.ProcessServiceDefs` | cmd/service-controller/controller.go:260-283 | one watcher pass is a pass of the protocol model and a pass of the reconciler on the same file |
| `ServiceSync.WatchSettles` | cmd/service-controller/service_sync.go:30-83 | after a pass the name indexes equal the file's projection and local part and every remote entry is indexed |
| `ServiceSync.WatchIsAPass` | cmd/service-controller/service_sync.go:30-83 | from every state some pass is possible, so no statement about passes is empty |
| `SyncProperties.FirstPassIsExact` | cmd/service-controller/service_sync.go:37-56 | whatever file a controller starts from, the first pass makes the indexes say exactly what the file says |
| `SyncProperties.ReceiveKeepsExact` | cmd/service-controller/service_sync.go:102-139 | exact indexes stay exact through any update and the pass after it |
| `SyncProperties.AgeKeepsExact` | cmd/service-controller/service_sync.go:179-209 | and through any age tick and the pass after it |
| `SyncProperties.EditKeepsExactIff` | client/serviceinterface_update.go:187-253 | and through each of the client's edits unless, before it, the entry is a learned one and the edit is its removal or an unbind of all its targets with deletion asked for: creates, updates, binds and all edits of local services keep exactness (if and only if) |
| `SyncProperties.TakesOutIff` | client/serviceinterface_update.go:213-242 | that test is right: it tells before the call whether the edit takes a learned service out of the file |
| `SyncProperties.RemovingALearnedServiceStrands` | client/serviceinterface_remove.go:12-46 | the promise failing: after removing a learned service its name stays indexed, and the owner's next update deletes a service the user has since created there, if it comes before the watcher |
| `SyncProperties.ChangeKeepsExactIff` | cmd/service-controller/service_sync.go:37-56 | for any change at one address: exact if and only if no remote entry left the file there |
| `SyncProperties.WatchWithoutTakeover` | cmd/service-controller/service_sync.go:37-56 | when no held name has become local, a pass adds the file's remote entries and drops nothing |
| `SyncProperties.OwnershipIff` | cmd/service-controller/service_sync.go:108-138 | from a settled site, an update leaves everyone else's entries alone if and only if no name it deletes is by now someone else's |
| `SyncProperties.OwnershipOfUpdates` | cmd/service-controller/service_sync.go:108-138 | with exact indexes that always holds: changes and deletions are disjoint, deletions are the sender's own entries, changes are its own entries or new addresses |
| `SyncProperties.QuiescenceIff` | cmd/service-controller/service_sync.go:85-129 | hearing an applied update again writes nothing if and only if no adopted definition sets an event channel or an aggregate (the projection drops both, the equivalence compares both) |
| `SyncProperties.LoudUpdateIsNeverQuiet` | cmd/service-controller/service_sync.go:85-112 | an update with an event channel is written anew each time it is heard |
| `SyncProperties.PeerUpdatesAreQuiescent` | cmd/service-controller/service_sync.go:85-129 | what a peer's sender broadcasts, in any order, always meets that condition: the second time there is nothing to change and nothing to delete, so nothing is written |
| `SyncProperties.IndexedOfEnumeration` | cmd/service-controller/service_sync.go:267-274 | the receiver reconstructs the sender's local services whatever order the sender's map loop took |
| `SyncProperties.LastDefinitionWins` | cmd/service-controller/service_sync.go:270-274 | of several definitions of an address in one message the receiver keeps the last, under the sender's id |
| `SyncProperties.AdvertisedExactly` | cmd/service-controller/service_sync.go:37-55 | a settled site advertises exactly the services its user defined or annotated, with their address, protocol, port, headless data and origin and nothing else |
| `SyncProperties.TakeoverClearsIff` | cmd/service-controller/service_sync.go:21-28 | once a name is local, every possible pass leaves it in no origin if and only if at most one origin held it |
| `SyncProperties.TakeoverIsSafe` | cmd/service-controller/service_sync.go:51-54 | if at most one origin claims the name, stale claims included, then after a user overwrites the entry and the watcher ran, no update, tick, pass, restart or edit of another service, in any order, alters or removes it |
| `SyncProperties.TakeoverIsSafeIff` | cmd/service-controller/service_sync.go:21-28 | over all runs the condition is exact: with two claims, some pass leaves one and that origin's next update can delete the user's service |
| `SyncProperties.TakeoverUndone` | cmd/service-controller/service_sync.go:119-138 | that run |
| `SyncProperties.ForeignStepKeepsSecured` | cmd/service-controller/service_sync.go:102-139 | one step of such a run, of each kind, whether or not the watcher has seen the last write |
| `Convergence.ConvergesIffInterleaved` | cmd/service-controller/service_sync.go:102-139 | for any set of live origins, a delivery schedule converges for all fixed offers from every settled start at which no entry is stuck, stale index names included, if and only if every origin is heard, and heard again after the first update of every other one |
| `Convergence.TwoRoundsConvergeIff` | cmd/service-controller/service_sync.go:85-139 | two rounds, each in any order and with any repetitions, end in the original local entries plus exactly the offered addresses, each owned by an origin that offers it and equivalent to that offer in all five compared fields, if and only if no entry was stuck at the start |
| `Convergence.ConvergesIffNothingStuck` | cmd/service-controller/service_sync.go:85-139 | the exact condition on starts, for every interleaved schedule and every run: a start fails if and only if some entry differs from its owner's offer only in an event channel or aggregate that the offer lacks, and no other origin is about to delete it |
| `Convergence.LoudEntryStaysLoud` | cmd/service-controller/service_sync.go:38-45 | such a start: an event channel learned once stays however often its owner offers the service without it |
| `Convergence.DeliveryKeepsStuck` | cmd/service-controller/service_sync.go:108-139 | no delivery frees a stuck entry or makes one stuck |
| `Convergence.OneRoundIsNotEnough` | cmd/service-controller/service_sync.go:119-129 | no single round, in any order, is enough once two origins are live |
| `Convergence.TwiceOutOfRoundsIsNotEnough` | cmd/service-controller/service_sync.go:119-129 | hearing every origin twice is not enough when it is not in rounds: o, o, p, p can end without o's service |
| `Convergence.InterleavedConverges` | cmd/service-controller/service_sync.go:102-139 | the sufficient half, for every start, offer and run, with the code's own equivalence |
| `Convergence.StaleScheduleFails` | cmd/service-controller/service_sync.go:119-138 | the necessary half: a start with one stale name from which the schedule loses an offered service |
| `Convergence.DeliveryKeepsStart` | cmd/service-controller/service_sync.go:102-139 | a delivery and its pass never change a local entry and never index one under an origin |
| `Convergence.DeliveryOnFile` | cmd/service-controller/service_sync.go:108-136 | a delivery fills every address it offers, deletes only stale names of its own origin, and leaves its origin's entries equivalent to the offer as far as the projection lets the code see |
| `Convergence.HeardMeansClean` | cmd/service-controller/service_sync.go:116-138 | from an origin's first update on, it is indexed under nothing it does not offer |
| `Convergence.PresentOnceAllClean` | cmd/service-controller/service_sync.go:116-138 | an offered address stays present from its owner's first update after everyone has been heard once |
| `Network.Provenance` | cmd/service-controller/service_sync.go:46-54 | over every multi-site run with delayed, duplicated, reordered or lost messages: an entry with a remote origin was once that origin's own local service, with the same protocol, port and headless data; and no site stores its own id as an origin |
| `Network.OnlyLocalServicesAreAdvertised` | cmd/service-controller/service_sync.go:164-177 | in every run, everything ever sent was local to its sender: learned services are not re-advertised |
| `Network.LearnedEntriesArePlain` | cmd/service-controller/service_sync.go:38-45 | in every reachable state learned entries, and all definitions under way, carry no event channel, aggregate, target or alias |
| `Network.NothingIsStuck` | cmd/service-controller/service_sync.go:164-176 | so no entry is ever stuck at a reachable site, whatever its peers offer |
| `Network.TwoRoundsConverge` | cmd/service-controller/service_sync.go:102-139 | from any reachable site that is settled with live origins and unclaimed local addresses, two rounds of fixed offers always converge |
| `Network.TakeoversLastIff` | cmd/service-controller/service_sync.go:21-28 | at every reachable site a takeover lasts through all runs if and only if at most one origin claims the name |
| `Network.IndexedOriginsAreProper` | cmd/service-controller/service_sync.go:46-50 | in every reachable state only proper site ids are indexed, as the condition above needs |
| `Network.TakenOverForGood` | cmd/service-controller/service_sync.go:51-54 | over every multi-site run: once a pass finds a local definition that at most one origin claims, it stays through old, repeated and reordered messages, ticks, passes and restarts with lagging indexes, until its user edits it |
| `Agreement.NetworkAgrees` | cmd/service-controller/service_sync.go:102-177 | over every multi-site run: from a moment on at which all sites are settled and no own service is claimed, if only sends, passes and receipts of messages sent since interleave, each receipt finding the last write indexed, then a site that has heard every peer, and each after the first update of every other, has its own services unchanged and exactly its peers' own services besides, each owned by one that has it and equivalent to it |
| `Agreement.TwoRoundsAgree` | cmd/service-controller/service_sync.go:102-177 | so two rounds at every site, in any interleaving, make the whole network agree |
| `Agreement.SitesFollow` | cmd/service-controller/service_sync.go:102-139 | each site's part of such a run is a schedule of deliveries, up to a pass still to come |
| `Agreement.SitesStaySteady` | cmd/service-controller/service_sync.go:108-131 | throughout, every site keeps and advertises exactly its own services |
| `Agreement.OnlyPeersAreKnown` | cmd/service-controller/service_sync.go:263-275 | in every reachable state only other sites of the network are indexed, own learned entries, or have sent |
| `Network.TraceIsSound` | cmd/service-controller/service_sync.go:263-275 | the invariant behind both, over sites, their lagging indexes and the messages under way |
| `Network.FilesAreKeyedByAddress` | cmd/service-controller/controller.go:112-118 | in every reachable state every file entry is stored under its own address, whoever wrote it |
| `Network.FilesStayValid` | client/serviceinterface_update.go:105-129 | if command-line ports are in range, every entry of every site's file, and every definition under way, satisfies the validator in every reachable state |
| `Ageing.EveryOriginCanBeAgedOut` | cmd/service-controller/controller.go:297-303 | from any start-up on, in every run in which updates, edits, passes, ticks and restarts interleave freely but each tick finds the last write indexed, each indexed origin but the site itself has a last-heard time at every moment |
| `Ageing.RestartIsAgable` | cmd/service-controller/controller.go:297-303 | the seeding establishes that, and exact indexes |
| `Ageing.RestartGivesAMinute` | cmd/service-controller/controller.go:299-303 | a start puts its own time on record for exactly the other origins of the file: no tick within the next 60 s changes anything, and every later one takes all entries of those not heard since |
| `Ageing.TickKeepsAgableIff` | cmd/service-controller/service_sync.go:184-209 | a tick keeps it, at once and after the next pass, if and only if it deletes every entry of the origins it ages out |
| `Ageing.UnwatchedTickStrands` | cmd/service-controller/service_sync.go:179-209 | the race otherwise: if 60 s pass after a service was learned without a pass, its origin is aged out and the entry is left with an origin that no tick can age out |
| `Ageing.StrandedStays` | cmd/service-controller/service_sync.go:184-209 | and there it stays through every run of ticks, passes, other origins' updates and edits of other services, each on its own |
| `Ageing.NeverAgedWhileHeard` | cmd/service-controller/service_sync.go:184-203 | in every timed run with a tick in each 30 s after the last restart, an origin renewed less than 60 s before each tick, by being heard or by a restart, is never aged out, and (unless users strand names) no tick touches its entries |
| `Ageing.AgedOutInTime` | cmd/service-controller/service_sync.go:184-209 | an origin last renewed at t, by being heard or as an origin of the file by a restart, is aged out at the first tick at or after t + 60 s, which is before t + 90 s; all its entries go and stay away until it is heard again; unless users strand names, nothing of an origin that is not overdue goes with them |
| `Ageing.LastReceiptOnRecord` | cmd/service-controller/service_sync.go:106 | until then the time of its last renewal is exactly what is on record |
| `Ageing.LateTickExists` | cmd/service-controller/service_sync.go:155 | the ticker puts a tick into every half-open window from 60 s to 90 s after an event that no restart follows |
| `Ageing.GoneUntilHeard` | cmd/service-controller/service_sync.go:102-139 | once nothing in the file is an origin's, only a receipt from it brings something back |
| `Ageing.TickSparesTheLive` | cmd/service-controller/service_sync.go:184-203 | with exact indexes a tick removes exactly the overdue origins' entries |
| `Ageing.TickSparesTheLiveIff` | cmd/service-controller/service_sync.go:184-203 | from a settled site it spares everyone else's entries if and only if no overdue origin is still indexed under a name that is someone else's |
| `Ageing.TimedRunIsExact` | cmd/service-controller/service_sync.go:102-209 | a timed run, restarts included, in which users strand no name keeps the indexes exact |
| `ServiceEdits.ValidateServiceInterface` | client/serviceinterface_update.go:105-129 | accepts exactly the definitions with ports in 0..65535, a known mapping, and an aggregate or an event channel but not both, on http only |
| `ServiceEdits.AddTarget` | client/serviceinterface_update.go:15-30 | replaces every target of the same name in place, or appends the target if there is none |
| `ServiceEdits.KeptMembers` | client/serviceinterface_update.go:213-235 | an unbind keeps exactly the targets that do not answer to its argument, and finding none is recognised by the unchanged length |
| `ServiceEdits.EditTouchesOneEntry` | client/serviceinterface_update.go:74-103 | every edit changes one address only and leaves there nothing, a definition of the user's own, or the old one with fewer targets; a create never replaces |
| `ServiceEdits.EditKeepsValid` | client/serviceinterface_update.go:105-185 | every edit keeps a file that the validator accepts acceptable |
| `ServiceEdits.BoundIsValidIff` | client/serviceinterface_update.go:149-185 | a successful bind stores an acceptable definition if and only if its port argument is in range; the service port is then in 1..65535 |
| `ServiceEdits.BoundTargetIsReachedAt` | client/serviceinterface_update.go:162-183 | the target that a bind adds is reached at the port asked for, and a service that has a port keeps it |
| `ServiceEdits.EditKeepsUniqueNames` | client/serviceinterface_update.go:15-30 | target names stay unique through every edit |
| `ServiceEdits.BindThenUnbindIff` | client/serviceinterface_update.go:213-235 | unbinding what was just bound restores the target list in order if and only if no earlier target had the new name or answered to the argument |
| `ServiceEdits.UnbindUndoesBind` | client/serviceinterface_update.go:149-267 | on the file: a bind of a fresh target adds exactly one, and unbinding it with the same argument leaves the stored definition with the earlier targets and every other entry alone; with deletion asked for and no earlier target, the entry goes |
| `UserEdits.ValidUnlessRefused` | client/serviceinterface_update.go:105-129 | a definition is acceptable unless one of the validator's reasons applies, each stated on its own |
| `UserEdits.CreateSays` | client/serviceinterface_create.go:10-24 | a create stores the given definition, origin emptied and every other field as given, where the address is free; else nothing changes |
| `UserEdits.UpdateSays` | client/serviceinterface_update.go:131-147 | an update stores it in any case |
| `UserEdits.RemoveSays` | client/serviceinterface_remove.go:12-46 | with the router running a remove leaves the address absent, local or learned, and every other entry alone |
| `UserEdits.BindSays` | client/serviceinterface_update.go:149-185 | a bind succeeds if and only if the router runs, the definition is acceptable, the mapping fits, the target exists and a port is given or can be deduced; it then stores the given definition but for origin, port (given, asked for, 9090 for exposed ports, 80 for http) and the one target put in place or last |
| `UserEdits.UnbindSays` | client/serviceinterface_update.go:187-267 | an unbind succeeds if and only if the router runs, the type is known and some target of the address answers; it then leaves exactly the others, or no entry if none is left and that was asked for |
| `UserEdits.KeptInOrder` | client/serviceinterface_update.go:213-232 | in their order: what is left of a list is what is left of its parts |
| `VanClient.VanClient.UpdateServiceInterface` | client/serviceinterface_update.go:74-103 | what is stored is the given definition as the user's own; an existing entry is kept unless overwriting |
| `VanClient.VanClient.ServiceInterfaceCreate` | client/serviceinterface_create.go:10-24 | succeeds exactly when the router runs and the definition is acceptable, and then is the create edit; a refusal leaves the file |
| `VanClient.VanClient.ServiceInterfaceUpdate` | client/serviceinterface_update.go:131-147 | the same for an update, which also creates a missing service: the lookup before it reports no error for one |
| `VanClient.VanClient.ServiceInterfaceBind` | client/serviceinterface_update.go:149-185 | the step-by-step port deduction computes the bind edit, with every refusal leaving the file as it was |
| `VanClient.VanClient.KeepTargets` | client/serviceinterface_update.go:213-232 | the loop keeps the others in order and reports whether any was taken |
| `VanClient.VanClient.ServiceInterfaceUnbind` | client/serviceinterface_update.go:187-267 | the unbind edit, removing the whole entry when the last target goes and that was asked for |
| `VanClient.VanClient.ServiceInterfaceRemove` | client/serviceinterface_remove.go:12-46 | removes exactly the named entry, local or learned; an unknown address or a missing router is refused without a change |
| `Controller.ServiceBindings.constructor` | cmd/service-controller/bridges.go:93-103 | a new binding stores target ports as given, a later target of a name winning |
| `Controller.ServiceBindings.Patch` | cmd/service-controller/bridges.go:104-137 | a patch follows the definition but keeps old selectors, headless data and ingress port |
| `Controller.ServiceBindings.PatchTargets` | cmd/service-controller/bridges.go:122-130 | known targets get the defaulted port, new ones are added with it and without a service name |
| `Controller.ServiceBindings.DropTargets` | cmd/service-controller/bridges.go:132-136 | exactly the targets that the definition no longer names go |
| `Controller.HasTarget` | cmd/service-controller/bridges.go:64-71 | whether the definition names the key |
| `Controller.ServiceBindings.AsServiceInterface` | cmd/service-controller/bridges.go:35-54 | gives back the binding's fields and each of its targets once, in some order |
| `Controller.Controller.UpdateServiceBindings` | cmd/service-controller/bridges.go:91-139 | only the definition's own address changes: to a new binding, or to the patched old one |
| `Controller.Controller.ReconcileBindings` | cmd/service-controller/controller.go:267-281 | the bindings are the file's addresses, each new or patched; for an empty file too |
| `Controller.Controller.ProxyConfigFor` | cmd/service-controller/controller.go:148-173 | the document is one of the configuration that the binding's definition defines, for some order of its targets |
| `Controller.Controller.EnsureProxyFor` | cmd/service-controller/controller.go:145-213 | one container only can change, and it then serves the binding; a container that is not a proxy is left alone, and a proxy is replaced exactly if its document changed |
| `Controller.Controller.UpdateProxies` | cmd/service-controller/controller.go:224-239 | every usable binding is served, there are no other proxies, foreign containers are untouched, and of the proxies still wanted exactly those whose document changed are replaced |
| `Controller.Controller.RemoveStaleProxies` | cmd/service-controller/controller.go:231-238 | exactly the proxies without a binding are deleted |
| `Bindings.BindingsReflectTheLastDefinition` | cmd/service-controller/bridges.go:91-139 | for every history of definitions at an address, the patched binding has the protocol, port, origin, aggregation, event channel, target keys and effective egress ports of the last one, as a fresh binding has |
| `Bindings.ReflectionsAgree` | cmd/service-controller/bridges.go:56-71 | two bindings that reflect one definition have the same target keys, names and effective ports |
| `Bindings.SelectorsStayFixed` | cmd/service-controller/bridges.go:124-129 | if names fix selectors throughout the history, the stored selectors are those too |
| `Bindings.StoredAsEntered` | cmd/service-controller/bridges.go:91-162 | exactly what depends on the history: a target keeps the selector and service name it came in with, with the first definition or when a later one had it again, and headless data and ingress port are those of the first definition |
| `Bindings.StoredPort` | cmd/service-controller/bridges.go:96-101 | a new binding stores the port as given, zero included, and a patched one the service's in its place |
| `Bindings.HistoryShowsIff` | cmd/service-controller/bridges.go:122-130 | so these are what a fresh binding has if and only if the target came in with the selector that the last definition gives it last, and the first definition had the last one's headless data and port |
| `Bindings.ReachesIffEntered` | cmd/service-controller/bridges.go:122-130 | the binding reaches every target at the host the last definition gives it if and only if each came in under a selector that reaches that host |
| `Bindings.FixedSelectorsSuffice` | cmd/service-controller/bridges.go:122-130 | which holds if names stand for one selector throughout |
| `Bindings.SelectorsAndHeadlessArePathDependent` | cmd/service-controller/bridges.go:122-130 | a history after which a target's selector and the headless data are not those of the last definition |
| `Bindings.ReflectionHasTheSameProxy` | cmd/service-controller/bridges.go:35-54 | any listing of a reflecting binding yields the definition's own router configuration; only for a local service of a known mapping does it matter how targets are reached |
| `Reconcile.BindingsAreHistories` | cmd/service-controller/controller.go:267-281 | over any sequence of files, a binding is the patch history of its address since that last appeared |
| `Reconcile.DeploymentFollowsTheLastFile` | cmd/service-controller/controller.go:224-283 | end to end: after any sequence of files the running proxies are exactly the last file's addresses, each stored configuration decodes to what that file alone defines, and no other container was touched; of a service connected to its targets it is assumed that these have distinct egress names and came in, since the address last appeared, under selectors that reach the hosts of today |
| `Reconcile.ProxyFollowsTheLastFile` | cmd/service-controller/controller.go:224-283 | the same for one address, with hypotheses on that address only, and none on targets of a learned service |
| `Reconcile.BindingFollowsTheLastFile` | cmd/service-controller/bridges.go:91-139 | over any sequence of files the binding of an address carries what the last file defines |
| `Restarts.UnchangedProxyKeepsRunning` | cmd/service-controller/controller.go:190-210 | over any sequence of files, while a definition from which at most one connector can come (every learned one among them) stays the same, its proxy container is never replaced, whatever the map orders and whatever happens to other services |
| `Restarts.SameDocumentAgain` | cmd/service-controller/controller.go:194-195 | because a further pass over the same definition writes the very same document, though it turns default target ports into explicit ones |
| `Codec.OneDocument` | pkg/qdr/qdr.go:392-460 | a configuration without two entities of one type can be written in one way only |
| `Reconcile.ForeignContainersStay` | cmd/service-controller/controller.go:224-239 | containers that are not proxies survive any sequence of files unchanged |
| `Reconcile.ProxiesConnectOnlyWhereDefined` | pkg/qdr/qdr.go:480-616 | after any sequence of files, whatever the selectors and egress names: an address's proxy has exactly the ingress of the last file and no connectors if the service has an origin; if it has none, its targets came in as defined now and egress names are distinct, it connects exactly to the supported targets, at their effective ports |
| `Reconcile.BoundTargetIsConnected` | client/serviceinterface_update.go:149-185 | from the command line to the router: after a successful bind the proxy connects to the named container or host at the port asked for, or else the service's |
| `ProxyConfig.EgressOnlyWhereDefined` | pkg/qdr/qdr.go:480-616 | a proxy has one ingress of the service's mapping (none for an unknown one), no connectors if the service has an origin, and otherwise one per supported target and no more |
| `ProxyFacts.ItoaIsDecimal` | pkg/qdr/qdr.go:472 | a port is written in decimal notation: digits only, most significant first, no leading zero, standing for its value |
| `ProxyFacts.OneNotation` | pkg/qdr/qdr.go:472 | which determines the text |
| `ProxyFacts.BeforeColonIsHostPart` | pkg/qdr/qdr.go:506 | a host service is reached at the longest part of its name before a colon |
| `ProxyFacts.EveryProxySays` | pkg/qdr/qdr.go:463-479 | every proxy is an edge router of the site with the internal profile's files, one link to skupper-router at 45671 and one local listener at 5672, all other fields zero |
| `ProxyFacts.ProxyListensAt` | pkg/qdr/qdr.go:480-616 | its one ingress, in the section of the mapping, has the service's port, address and site, the host and version of the case, and nothing else |
| `ProxyFacts.ProxyConnectsTo` | pkg/qdr/qdr.go:492-582 | its connectors are, for a service without origin, exactly one for each host that a target is reached at, with that host, the last such target's port or else the service's, the address, site and version; otherwise none |
| `ProxyConfig.EgressDecided` | pkg/qdr/qdr.go:492-515 | an egress name is present if and only if some supported target has it, and the last such target decides host and port |
| `ProxyConfig.ProxyConfigIsWellKeyed` | pkg/qdr/qdr.go:462-617 | a generated configuration is keyed by its entities' own names, so it survives the codec |
| `ProxyConfig.SameTargetsSameEgress` | pkg/qdr/qdr.go:492-515 | the order and repetitions of targets do not matter beyond the last target of each name |
| `Router.AddTcpTargets` | pkg/qdr/qdr.go:492-515 | the loop adds exactly the connectors of the egress table, for container and host-service targets |
| `Router.AddHttpTargets` | pkg/qdr/qdr.go:524-547 | the same for http, and for http2 with its version |
| `Router.BuildProxyConfig` | pkg/qdr/qdr.go:462-616 | the configuration built by successive mutation is the one the definition defines, in every branch |
| `Router.GetRouterConfigForProxy` | pkg/qdr/qdr.go:462-618 | and it is marshalled in some order |
| `Router.MarshalRouterConfig` | pkg/qdr/qdr.go:392-460 | the list holds the nine sections in the source's order, each with all its entities once, in every order of that section's map |
| `Codec.UnmarshalRouterConfig` | pkg/qdr/qdr.go:290-390 | the loop succeeds exactly when the document is an array all of whose elements can be read, and then computes the fold |
| `Codec.ReadElement` | pkg/qdr/qdr.go:314-387 | one element is read as a pair with a string type, an unknown type giving nothing |
| `Codec.RoundTripIff` | pkg/qdr/qdr.go:290-460 | unmarshalling any order of a marshalled configuration gives it back if and only if every section is keyed by its entities' own names or prefixes |
| `Codec.UnmarshalledIsWellKeyed` | pkg/qdr/qdr.go:322-385 | whatever was read is keyed that way |
| `Codec.OrderFreeIffConsistent` | pkg/qdr/qdr.go:313-388 | any list decodes to the same outcome in every order if and only if no two of its elements disagree about one entity or some element cannot be decoded |
| `Codec.SameMembersSameFold` | pkg/qdr/qdr.go:313-388 | and then repetitions do not matter either |
| `Codec.UnknownTypesAreSkipped` | pkg/qdr/qdr.go:386-387 | an element of an unknown type changes nothing, wherever it stands and whatever its value |
| `Qdr.EntityRoundTrip` | pkg/qdr/qdr.go:202-288 | every entity of every type reads back from its element, omitted zero fields included |
| `Wire.RouterIsWritten` | pkg/qdr/qdr.go:202-206 | written as a pair of the word router and an object with exactly the nonzero fields under their keys |
| `Wire.SslProfileIsWritten` | pkg/qdr/qdr.go:208-213 | the same for sslProfile |
| `Wire.ConnectorIsWritten` | pkg/qdr/qdr.go:233-243 | the same for connector, with host and port always there |
| `Wire.ListenerIsWritten` | pkg/qdr/qdr.go:215-231 | the same for listener, with the port always there |
| `Wire.AddressIsWritten` | pkg/qdr/qdr.go:253-256 | the same for address |
| `Wire.TcpConnectorIsWritten` | pkg/qdr/qdr.go:427-433 | the same for tcpConnector |
| `Wire.TcpListenerIsWritten` | pkg/qdr/qdr.go:434-440 | the same for tcpListener |
| `Wire.HttpConnectorIsWritten` | pkg/qdr/qdr.go:441-447 | the same for httpConnector |
| `Wire.HttpListenerIsWritten` | pkg/qdr/qdr.go:448-454 | the same for httpListener |
| `Wire.RouterIsRead` | pkg/qdr/qdr.go:323-329 | an element of that word is read if and only if each key is missing, null or of the field's kind, and each field gets its key's value or zero |
| `Wire.SslProfileIsRead` | pkg/qdr/qdr.go:351-357 | the same for sslProfile |
| `Wire.ConnectorIsRead` | pkg/qdr/qdr.go:337-343 | the same for connector |
| `Wire.ListenerIsRead` | pkg/qdr/qdr.go:344-350 | the same for listener, numbers being whole and of 32 bits |
| `Wire.AddressIsRead` | pkg/qdr/qdr.go:330-336 | the same for address |
| `Wire.TcpConnectorIsRead` | pkg/qdr/qdr.go:358-364 | the same for tcpConnector |
| `Wire.TcpListenerIsRead` | pkg/qdr/qdr.go:365-371 | the same for tcpListener |
| `Wire.HttpConnectorIsRead` | pkg/qdr/qdr.go:372-378 | the same for httpConnector |
| `Wire.HttpListenerIsRead` | pkg/qdr/qdr.go:379-385 | the same for httpListener |
| `Wire.OnlyObjectsAreRead` | pkg/qdr/qdr.go:322-387 | an entity's value is an object or null, and an element of any other word is skipped |
| `Json.ReadsInt32` | pkg/qdr/qdr.go:215-243 | a 32-bit field reads back whether it was written or omitted as zero |
| `VanClient.VanClient.ConnectorCreate` | client/connector_create.go:44-117 | succeeds exactly when the router runs, the token names another site, the directory is new and the configuration can be read; a refusal leaves the configuration as it was |
| `VanClient.VanClient.ConfigWithConnector` | client/connector_create.go:91-114 | the written configuration is the one read, plus the connector and its profile, in some order |
| `VanClient.VanClient.WriteToken` | client/connector_create.go:74-84 | every key of the token is written to its file and nothing else is |
| `VanClient.VanClient.ConnectorRemove` | client/connector_remove.go:12-37 | an existing connector goes with its profile and directory; an unknown one changes nothing |
| `Connectors.RunsStaySound` | client/connector_create.go:69-114 | over every run of creates and removes, failed ones included, through the written file: it can be read, the directories are the connectors, and every profile of a connector or listener exists |
| `Connectors.StepKeepsSound` | client/connector_remove.go:24-37 | one step of such a run |
| `Connectors.RemoveUndoesCreate` | client/connector_remove.go:24-37 | removing a just-created connector restores the earlier configuration and directories exactly |
| `Connectors.CreatedFollowsTheToken` | client/connector_create.go:95-113 | the connector on file has the role of the router's mode and the host and port that the token gives for it |
| `SiteFacts.CreateSays` | client/connector_create.go:69-117 | the file read back differs from the one before in one connector and its profile only: the given name and cost, the mode's role, the token's host and port (empty if it has none), the profile name-profile with the connection's files, all other fields zero |
| `SiteFacts.RemoveSays` | client/connector_remove.go:24-37 | after a remove it differs in these only, which are gone with the directory; an unknown name changes nothing |
| `SiteFacts.DefaultFiles` | pkg/qdr/qdr.go:113-130 | a profile gets a directory's files only if it names none |
| `SiteFacts.ListenerName` | pkg/qdr/qdr.go:88-93 | a listener without a name is called by host and port |
| `Connectors.ConnectedAddsOnlyTheConnector` | client/connector_create.go:91-113 | the only new entries are the connector and its profile, whose files lie in the connection's own directory |
| `Connectors.NewSiteIsSound` | client/router_create.go:106-178 | a new site's first configuration is a sound start, whatever its mode, console and written order |
| `SiteFacts.FirstConfigSays` | client/router_create.go:106-177 | that configuration field by field: identity, mode, the multicast address, each listener and profile of the mode and console, and no others |

## Left out

- AMQP sessions, TLS and the receive loop: a message is an origin with a list of definitions that arrives.
- The Docker API, images, networks (attaching targets to the router's network) and port mapping to the host: containers are a map from name to label and configuration.
- JSON text: documents are trees. Router configuration keys are an enumeration plus any other name; the reader's case-insensitive match of keys is not modelled.
- File events and data races between the receiving, sending and watching routines: steps are atomic, and the watcher pass is a step of its own so that its lag stays visible.
- Failures of reading or writing files, and crashes between file operations.
- The text of error messages, and the log's lists of added, removed and modified services.
- The definitions stored in `byOrigin`: only their names are ever read, so only names are modelled.
- Controller.Controller.EnsureProxyFor: two documents of one configuration with several connectors can differ in order, so such a proxy may be replaced by one whose configuration decodes alike; `Restarts.UnchangedProxyKeepsRunning` says when this cannot happen.
- Bindings.BindingsReflectTheLastDefinition: headless data, ingress port, target service names and selectors depend on the history and are not part of it; `Bindings.StoredAsEntered` says exactly how.
- Reconcile.DeploymentFollowsTheLastFile: assumes of each address of the last file that it is not the name of a foreign container and, if the service is connected to its targets, that these have distinct egress names and came in under selectors that reach their hosts of today.
- Reconcile.BoundTargetIsConnected: assumes distinct egress names; a host-service target and a container of the same name share one.
- Integer widths other than the 32-bit fields of the router configuration: ports and times are unbounded integers.
- `generateConnectorName`: the connector's name is an input, and the directory's creation checks that it is new.
- Restarting containers after a connector was created or removed.
- Token keys that are not plain file names.
- `GetInternalIP`: the address of docker0 is part of the host's description.
- `UpdateBridgeConfig`, `hasTargetForSelector`, `hasTargetForService` and selector targets, which nothing calls; the receiver's arm for sync requests, which only logs.
- Listing, inspection, status, exposing and the command line itself.
