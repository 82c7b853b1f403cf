/** When a proxy keeps running: a pass replaces exactly the proxies whose document changed, and the
    document of a definition from which at most one connector can come is the same in every pass. */
module Restarts {
  import opened Types
  import opened Json
  import opened Qdr
  import opened Codec
  import opened ProxyConfig
  import opened Bindings
  import opened Reconcile

  /** At most one connector can come of the definition: it is not connected to targets at all, or all
      its targets have one name. */
  ghost predicate OneExit(def: ServiceInterface) {
    Bridged(def) ==> forall t, u :: t in def.targets && u in def.targets ==> t.name == u.name
  }

  lemma OneExitOneTarget(b: Binding, def: ServiceInterface, si: ServiceInterface)
    requires Reflects(b, def) && NamedTargets(b) && Describes(si, b)
    requires forall t, u :: t in def.targets && u in def.targets ==> t.name == u.name
    ensures |si.targets| <= 1
  {
    forall k, l | k in b.targets && l in b.targets ensures k == l {
      assert HasTargetForName(def, k) && HasTargetForName(def, l);
    }
    if |b.targets| > 0 {
      var k :| k in b.targets;
      assert b.targets.Keys == {k};
    }
    assert |b.targets| == |b.targets.Keys|;
  }

  /** A further pass over the same definition leaves the configuration as it was. */
  lemma SameConfigAgain(b: Binding, def: ServiceInterface, si: ServiceInterface, si': ServiceInterface, siteId: string)
    requires Reflects(b, def) && NamedTargets(b) && OneExit(def)
    requires Describes(si, b) && Describes(si', Patched(b, def))
    ensures ProxyConfigOf(si', siteId) == ProxyConfigOf(si, siteId)
    ensures Single(ProxyConfigOf(si, siteId))
  {
    SameEgressesAgain(b, def, si, si');
    SameBridges(si', si, siteId, if si.origin == "" && Bridged(def) then Egresses(si.port, si.targets) else map[]);
    FewConnectorsAreSingle(si, siteId);
  }

  lemma SameEgressesAgain(b: Binding, def: ServiceInterface, si: ServiceInterface, si': ServiceInterface)
    requires Reflects(b, def) && NamedTargets(b) && OneExit(def)
    requires Describes(si, b) && Describes(si', Patched(b, def))
    ensures si.address == si'.address && si.protocol == si'.protocol && si.port == si'.port && si.origin == si'.origin
    ensures Bridged(si) <==> Bridged(def)
    ensures Bridged(def) ==>
              |Egresses(si.port, si.targets)| <= 1 && Egresses(si'.port, si'.targets) == Egresses(si.port, si.targets)
  {
    if Bridged(def) {
      PatchedReflects(b, def);
      OneExitOneTarget(b, def, si);
      OneExitOneTarget(Patched(b, def), def, si');
      SameTargetAgain(b, def, si, si');
      FewEgresses(si.port, si.targets);
    }
  }

  lemma FewEgresses(servicePort: int, targets: seq<Target>)
    requires |targets| <= 1
    ensures |Egresses(servicePort, targets)| <= 1
  {
    if targets != [] {
      assert targets[..0] == [];
    }
  }

  lemma FewConnectorsAreSingle(def: ServiceInterface, siteId: string)
    requires Bridged(def) ==> |Egresses(def.port, def.targets)| <= 1
    ensures Single(ProxyConfigOf(def, siteId))
  {
    var c := ProxyConfigOf(def, siteId);
    var egresses := if def.origin == "" then Egresses(def.port, def.targets) else map[];
    assert TcpConnectors(def, siteId, egresses).Keys == egresses.Keys;
    assert HttpConnectors(def, siteId, HttpVersion(def.protocol), egresses).Keys == egresses.Keys;
    SectionsHaveSizes(c);
  }

  lemma SectionsHaveSizes(c: Config)
    requires |c.sslProfiles| <= 1 && |c.connectors| <= 1 && |c.listeners| <= 1 && |c.addresses| <= 1
    requires |c.bridges.tcpConnectors| <= 1 && |c.bridges.tcpListeners| <= 1
    requires |c.bridges.httpConnectors| <= 1 && |c.bridges.httpListeners| <= 1
    ensures Single(c)
  {
    assert SslSection(c).Keys == c.sslProfiles.Keys && ConnSection(c).Keys == c.connectors.Keys;
    assert ListenSection(c).Keys == c.listeners.Keys && AddrSection(c).Keys == c.addresses.Keys;
    assert TcpConnSection(c.bridges).Keys == c.bridges.tcpConnectors.Keys;
    assert TcpListenSection(c.bridges).Keys == c.bridges.tcpListeners.Keys;
    assert HttpConnSection(c.bridges).Keys == c.bridges.httpConnectors.Keys;
    assert HttpListenSection(c.bridges).Keys == c.bridges.httpListeners.Keys;
  }

  lemma SameTargetAgain(b: Binding, def: ServiceInterface, si: ServiceInterface, si': ServiceInterface)
    requires Reflects(b, def) && NamedTargets(b) && Describes(si, b) && Describes(si', Patched(b, def))
    requires |si.targets| <= 1 && |si'.targets| <= 1
    ensures Egresses(si'.port, si'.targets) == Egresses(si.port, si.targets)
  {
    var b' := Patched(b, def);
    if k :| k in b.targets {
      PatchedAlike(b, def, k);
      SoleTarget(b, si, k);
      SoleTarget(b', si', k);
      OneEgress(si.port, AsTarget(b.targets[k]), si'.port, AsTarget(b'.targets[k]));
    } else {
      NoTarget(b, si);
      forall k ensures k !in b'.targets {
        PatchedAlike(b, def, k);
      }
      NoTarget(b', si');
    }
  }

  lemma SoleTarget(b: Binding, si: ServiceInterface, k: string)
    requires Describes(si, b) && |si.targets| <= 1 && k in b.targets
    ensures si.targets == [AsTarget(b.targets[k])]
  {
    assert AsTarget(b.targets[k]) in si.targets;
  }

  lemma NoTarget(b: Binding, si: ServiceInterface)
    requires Describes(si, b) && forall k :: k !in b.targets
    ensures si.targets == []
  {
    assert b.targets == map[];
  }

  lemma PatchedAlike(b: Binding, def: ServiceInterface, k: string)
    requires Reflects(b, def) && NamedTargets(b)
    ensures var b' := Patched(b, def);
      && b'.publicPort == b.publicPort
      && (k in b'.targets <==> k in b.targets)
      && (k in b.targets ==>
            && b'.targets[k].name == b.targets[k].name && b'.targets[k].selector == b.targets[k].selector
            && EffectiveEgress(b', k) == EffectiveEgress(b, k))
  {
    PatchedReflects(b, def);
    ReflectionsAgree(b, Patched(b, def), def, k);
    if k in b.targets {
      KeptTargetsKeepSelectors(b, def, k);
    }
  }

  lemma OneEgress(port: int, t: Target, port': int, t': Target)
    requires t.name == t'.name && t.selector == t'.selector
    requires EffectivePort(port, t.targetPort) == EffectivePort(port', t'.targetPort)
    ensures Egresses(port, [t]) == Egresses(port', [t'])
  {
    assert [t][..0] == [] && [t'][..0] == [];
    assert Egresses(port, [t][..0]) == map[] && Egresses(port', [t'][..0]) == map[];
  }

  lemma KeptTargetsKeepSelectors(b: Binding, def: ServiceInterface, k: string)
    requires k in b.targets && k in Patched(b, def).targets
    ensures Patched(b, def).targets[k].selector == b.targets[k].selector
  {
    PatchKeepsSelector(b.targets, def, def.targets, k);
  }

  lemma {:induction false} PatchKeepsSelector(before: map<string, EgressBinding>, def: ServiceInterface,
                                              targets: seq<Target>, k: string)
    requires k in before
    ensures k in PatchedTargets(before, def, targets)
    ensures PatchedTargets(before, def, targets)[k].selector == before[k].selector
  {
    if targets != [] {
      PatchKeepsSelector(before, def, targets[..|targets| - 1], k);
    }
  }

  /** Two documents of such a binding's configuration, before and after the further pass, are one. */
  lemma SameDocumentAgain(b: Binding, def: ServiceInterface, conf: Json, conf': Json, siteId: string)
    requires Reflects(b, def) && NamedTargets(b) && OneExit(def)
    requires Configures(conf, b, siteId) && Configures(conf', Patched(b, def), siteId)
    ensures conf == conf'
  {
    var si :| Describes(si, b) && Marshals(conf, ProxyConfigOf(si, siteId));
    var si' :| Describes(si', Patched(b, def)) && Marshals(conf', ProxyConfigOf(si', siteId));
    SameConfigAgain(b, def, si, si', siteId);
    OneDocument(conf, conf', ProxyConfigOf(si, siteId));
  }

  /** The address has the same definition in files i and j and all between. */
  ghost predicate Unchanged(files: seq<Services>, k: string, i: nat, j: nat)
    requires i <= j < |files|
  {
    k in files[i] && forall m :: i <= m <= j ==> k in files[m] && files[m][k] == files[i][k]
  }

  ghost predicate KeyedAt(files: seq<Services>, k: string) {
    forall m :: 0 <= m < |files| && k in files[m] ==> files[m][k].address == k
  }

  /** While a definition from which at most one connector can come stays the same, its proxy is not
      restarted, whatever order the maps are visited in and whatever happens to other services. */
  lemma {:induction false} UnchangedProxyKeepsRunning(files: seq<Services>, deployments: seq<Deployment>,
                                                     siteId: string, k: string, i: nat, j: nat)
    requires ProcessedAll(files, deployments, siteId) && i <= j < |files| && Unchanged(files, k, i, j)
    requires KeyedAt(files, k) && !Taken(deployments[0].containers, k) && OneExit(files[i][k])
    ensures At(deployments[j + 1].containers, k) == At(deployments[i + 1].containers, k)
  {
    if i < j {
      UnchangedProxyKeepsRunning(files, deployments, siteId, k, i, j - 1);
      UnchangedStep(files, deployments, siteId, k, j);
    }
  }

  lemma UnchangedStep(files: seq<Services>, deployments: seq<Deployment>, siteId: string, k: string, j: nat)
    requires ProcessedAll(files, deployments, siteId) && 0 < j < |files|
    requires k in files[j - 1] && k in files[j] && files[j][k] == files[j - 1][k]
    requires KeyedAt(files, k) && !Taken(deployments[0].containers, k) && OneExit(files[j][k])
    ensures At(deployments[j + 1].containers, k) == At(deployments[j].containers, k)
  {
    var def, d0, d, d' := files[j][k], deployments[j - 1], deployments[j], deployments[j + 1];
    ForeignContainersStay(files, deployments, siteId, k, j - 1);
    ForeignContainersStay(files, deployments, siteId, k, j);
    assert ProcessedAt(files, deployments, siteId, j - 1) && ProcessedAt(files, deployments, siteId, j);
    BindingAtPass(files, deployments, siteId, k, j - 1);
    assert ProxiedAt(d0.containers, d.bindings, siteId, d.containers, k);
    assert ProxiedAt(d.containers, d'.bindings, siteId, d'.containers, k);
    SameDocumentAgain(d.bindings[k], def, d.containers[k].conf.value, d'.containers[k].conf.value, siteId);
  }

  /** After a pass over a file that has the address, its binding reflects that file. */
  lemma BindingAtPass(files: seq<Services>, deployments: seq<Deployment>, siteId: string, k: string, i: nat)
    requires ProcessedAll(files, deployments, siteId) && i < |files| && k in files[i] && KeyedAt(files, k)
    ensures k in deployments[i + 1].bindings
    ensures Reflects(deployments[i + 1].bindings[k], files[i][k]) && NamedTargets(deployments[i + 1].bindings[k])
  {
    var history := HistoryOf(files, k, i + 1);
    BindingsAreHistories(files, deployments, siteId, k, i + 1);
    HistoryIsKeyed(files, k, i + 1);
    assert forall h :: 0 <= h < |history| ==> history[h] in history;
    BindingsReflectTheLastDefinition(history);
  }

  lemma {:induction false} HistoryIsKeyed(files: seq<Services>, k: string, i: nat)
    requires i <= |files| && KeyedAt(files, k)
    ensures forall d :: d in HistoryOf(files, k, i) ==> d.address == k
  {
    if i > 0 && k in files[i - 1] {
      HistoryIsKeyed(files, k, i - 1);
      var earlier, d := HistoryOf(files, k, i - 1), files[i - 1][k];
      assert HistoryOf(files, k, i) == earlier + [d];
      assert forall e :: e in earlier + [d] <==> e in earlier || e == d;
    }
  }
}
