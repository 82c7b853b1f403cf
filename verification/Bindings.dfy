/** The controller's bindings (cmd/service-controller/bridges.go): what a new binding stores, what a
    patch of an existing one keeps, and in what sense the result depends on the last definition only. */
module Bindings {
  import opened Types
  import opened Qdr
  import opened ProxyConfig

  datatype EgressBinding = EgressBinding(name: string, selector: string, service: string, egressPort: int)

  datatype Binding = Binding(
    origin: string,
    protocol: string,
    address: string,
    publicPort: int,
    ingressPort: int,
    aggregation: string,
    eventChannel: bool,
    headless: Option<Headless>,
    targets: map<string, EgressBinding>)

  function TargetKey(address: string, name: string): string { address + "@" + name }

  /** A later target of the same name replaces an earlier one; ports are stored as given. */
  function FreshTargets(address: string, targets: seq<Target>): map<string, EgressBinding> {
    if targets == [] then map[]
    else
      var t := targets[|targets| - 1];
      FreshTargets(address, targets[..|targets| - 1])[TargetKey(address, t.name) :=
        EgressBinding(t.name, t.selector, t.service, t.targetPort)]
  }

  function Fresh(si: ServiceInterface): Binding {
    Binding(si.origin, si.protocol, si.address, si.port, si.port, si.aggregate, si.eventChannel, si.headless,
            FreshTargets(si.address, si.targets))
  }

  /** Known targets only get a new port, new ones have no service name, and ports are stored with
      the default filled in. */
  function PatchedTargets(before: map<string, EgressBinding>, si: ServiceInterface,
                          targets: seq<Target>): map<string, EgressBinding>
  {
    if targets == [] then before
    else
      var rest, t := PatchedTargets(before, si, targets[..|targets| - 1]), targets[|targets| - 1];
      var k, port := TargetKey(si.address, t.name), EffectivePort(si.port, t.targetPort);
      rest[k := if k in rest then rest[k].(egressPort := port) else EgressBinding(t.name, t.selector, "", port)]
  }

  predicate HasTargetForName(si: ServiceInterface, key: string) {
    exists t :: t in si.targets && TargetKey(si.address, t.name) == key
  }

  /** Headless data and the ingress port are never patched. */
  function Patched(b: Binding, si: ServiceInterface): Binding {
    var targets := PatchedTargets(b.targets, si, si.targets);
    b.(protocol := si.protocol, publicPort := si.port, aggregation := si.aggregate,
       eventChannel := si.eventChannel, origin := si.origin,
       targets := map k | k in targets && HasTargetForName(si, k) :: targets[k])
  }

  /** The binding of an address after a history of definitions, oldest first. */
  function AfterHistory(history: seq<ServiceInterface>): Binding
    requires history != []
  {
    if |history| == 1 then Fresh(history[0])
    else Patched(AfterHistory(history[..|history| - 1]), history[|history| - 1])
  }

  // ---------------------------------------------------------------- path independence

  lemma KeysAreInjective(address: string, name: string, other: string)
    requires TargetKey(address, name) == TargetKey(address, other)
    ensures name == other
  {
    assert TargetKey(address, name)[|address| + 1..] == name;
    assert TargetKey(address, other)[|address| + 1..] == other;
  }

  /** The port traffic leaves by: a zero port stands for the service's. */
  function EffectiveEgress(b: Binding, key: string): int
    requires key in b.targets
  {
    EffectivePort(b.publicPort, b.targets[key].egressPort)
  }

  /** A binding that carries what a definition defines: everything but the fields that a patch
      leaves alone (headless data, ingress port, service names). */
  ghost predicate Reflects(b: Binding, si: ServiceInterface) {
    && b.address == si.address && b.protocol == si.protocol && b.publicPort == si.port
    && b.origin == si.origin && b.aggregation == si.aggregate && b.eventChannel == si.eventChannel
    && (forall k :: k in b.targets <==> HasTargetForName(si, k))
    && (forall i :: LastOfName(si.targets, i) ==>
          var k := TargetKey(si.address, si.targets[i].name);
          && k in b.targets
          && b.targets[k].name == si.targets[i].name
          && EffectiveEgress(b, k) == EffectivePort(si.port, si.targets[i].targetPort))
  }

  /** Every target stored for a name has the selector that the name stands for. */
  ghost predicate SelectsBy(targets: map<string, EgressBinding>, address: string, selectors: map<string, string>) {
    forall k :: k in targets ==>
      && k == TargetKey(address, targets[k].name)
      && targets[k].name in selectors && targets[k].selector == selectors[targets[k].name]
  }

  /** A target name fixes its selector. */
  ghost predicate FixesSelectors(si: ServiceInterface, selectors: map<string, string>) {
    forall t :: t in si.targets ==> t.name in selectors && t.selector == selectors[t.name]
  }

  lemma {:induction false} FreshTargetsReflect(si: ServiceInterface, targets: seq<Target>)
    ensures forall k :: k in FreshTargets(si.address, targets) <==>
              exists t :: t in targets && TargetKey(si.address, t.name) == k
    ensures forall i :: LastOfName(targets, i) ==>
              var k := TargetKey(si.address, targets[i].name);
              && k in FreshTargets(si.address, targets)
              && FreshTargets(si.address, targets)[k].name == targets[i].name
              && FreshTargets(si.address, targets)[k].egressPort == targets[i].targetPort
  {
    if targets != [] {
      var n := |targets| - 1;
      var rest, t := targets[..n], targets[n];
      FreshTargetsReflect(si, rest);
      assert forall u :: u in targets <==> u in rest || u == t;
      forall i | LastOfName(targets, i) && i != n
        ensures LastOfName(rest, i) && TargetKey(si.address, targets[i].name) != TargetKey(si.address, t.name)
      {
        assert forall j :: i < j < n ==> rest[j] == targets[j];
        assert targets[n].name != targets[i].name;
        if TargetKey(si.address, targets[i].name) == TargetKey(si.address, t.name) {
          KeysAreInjective(si.address, targets[i].name, t.name);
        }
      }
    }
  }

  lemma {:induction false} FreshTargetsSelect(address: string, targets: seq<Target>, selectors: map<string, string>)
    requires forall t :: t in targets ==> t.name in selectors && t.selector == selectors[t.name]
    ensures SelectsBy(FreshTargets(address, targets), address, selectors)
  {
    if targets != [] {
      FreshTargetsSelect(address, targets[..|targets| - 1], selectors);
      assert targets[|targets| - 1] in targets;
    }
  }

  lemma FreshReflects(si: ServiceInterface)
    ensures Reflects(Fresh(si), si)
  {
    FreshTargetsReflect(si, si.targets);
  }

  lemma {:induction false} PatchedTargetsReflect(before: map<string, EgressBinding>, si: ServiceInterface,
                                                 targets: seq<Target>)
    requires forall k :: k in before ==> k == TargetKey(si.address, before[k].name)
    ensures forall k :: k in PatchedTargets(before, si, targets) <==>
              k in before || exists t :: t in targets && TargetKey(si.address, t.name) == k
    ensures forall k :: k in PatchedTargets(before, si, targets) ==>
              k == TargetKey(si.address, PatchedTargets(before, si, targets)[k].name)
    ensures forall i :: LastOfName(targets, i) ==>
              var k := TargetKey(si.address, targets[i].name);
              && k in PatchedTargets(before, si, targets)
              && PatchedTargets(before, si, targets)[k].egressPort == EffectivePort(si.port, targets[i].targetPort)
  {
    if targets != [] {
      var n := |targets| - 1;
      var rest, t := targets[..n], targets[n];
      PatchedTargetsReflect(before, si, rest);
      assert forall u :: u in targets <==> u in rest || u == t;
      forall i | LastOfName(targets, i) && i != n
        ensures LastOfName(rest, i) && TargetKey(si.address, targets[i].name) != TargetKey(si.address, t.name)
      {
        assert forall j :: i < j < n ==> rest[j] == targets[j];
        assert targets[n].name != targets[i].name;
        if TargetKey(si.address, targets[i].name) == TargetKey(si.address, t.name) {
          KeysAreInjective(si.address, targets[i].name, t.name);
        }
      }
    }
  }

  lemma {:induction false} PatchedTargetsSelect(before: map<string, EgressBinding>, si: ServiceInterface,
                                                targets: seq<Target>, selectors: map<string, string>)
    requires SelectsBy(before, si.address, selectors)
    requires forall t :: t in targets ==> t.name in selectors && t.selector == selectors[t.name]
    ensures SelectsBy(PatchedTargets(before, si, targets), si.address, selectors)
  {
    if targets != [] {
      PatchedTargetsSelect(before, si, targets[..|targets| - 1], selectors);
      assert targets[|targets| - 1] in targets;
    }
  }

  ghost predicate NamedTargets(b: Binding) {
    forall k :: k in b.targets ==> k == TargetKey(b.address, b.targets[k].name)
  }

  lemma PatchedReflects(b: Binding, si: ServiceInterface)
    requires b.address == si.address && NamedTargets(b)
    ensures Reflects(Patched(b, si), si) && NamedTargets(Patched(b, si))
  {
    PatchedTargetsReflect(b.targets, si, si.targets);
    var p, targets := Patched(b, si), PatchedTargets(b.targets, si, si.targets);
    forall i | LastOfName(si.targets, i)
      ensures var k := TargetKey(si.address, si.targets[i].name);
        && k in p.targets && p.targets[k].name == si.targets[i].name
        && EffectiveEgress(p, k) == EffectivePort(si.port, si.targets[i].targetPort)
    {
      var k := TargetKey(si.address, si.targets[i].name);
      assert si.targets[i] in si.targets && HasTargetForName(si, k);
      KeysAreInjective(si.address, p.targets[k].name, si.targets[i].name);
    }
  }

  lemma FreshIsNamed(si: ServiceInterface)
    ensures NamedTargets(Fresh(si))
  {
    FreshTargetsNamed(si.address, si.targets);
  }

  lemma {:induction false} FreshTargetsNamed(address: string, targets: seq<Target>)
    ensures forall k :: k in FreshTargets(address, targets) ==>
              k == TargetKey(address, FreshTargets(address, targets)[k].name)
  {
    if targets != [] {
      FreshTargetsNamed(address, targets[..|targets| - 1]);
    }
  }

  /** Path independence: whatever definitions an address went through, its binding carries exactly
      what the last one defines, as a binding built fresh from it would: protocol, port, origin,
      aggregation, event channel, target keys and effective egress ports. */
  lemma {:induction false} BindingsReflectTheLastDefinition(history: seq<ServiceInterface>)
    requires history != [] && forall i :: 0 <= i < |history| ==> history[i].address == history[0].address
    ensures Reflects(AfterHistory(history), history[|history| - 1]) && NamedTargets(AfterHistory(history))
    ensures Reflects(Fresh(history[|history| - 1]), history[|history| - 1])
  {
    var n := |history| - 1;
    FreshReflects(history[n]);
    if n == 0 {
      FreshIsNamed(history[0]);
    } else {
      var earlier := history[..n];
      assert forall i :: 0 <= i < n ==> earlier[i] == history[i];
      BindingsReflectTheLastDefinition(earlier);
      PatchedReflects(AfterHistory(earlier), history[n]);
    }
  }

  /** Two bindings that reflect one definition have the same target keys and effective ports. */
  lemma ReflectionsAgree(b: Binding, b': Binding, si: ServiceInterface, key: string)
    requires Reflects(b, si) && Reflects(b', si)
    ensures key in b.targets <==> key in b'.targets
    ensures key in b.targets ==>
              EffectiveEgress(b, key) == EffectiveEgress(b', key) && b.targets[key].name == b'.targets[key].name
  {
    if key in b.targets {
      var t :| t in si.targets && TargetKey(si.address, t.name) == key;
      var i := LastNamed(si.targets, t);
    }
  }

  lemma LastNamed(targets: seq<Target>, t: Target) returns (i: nat)
    requires t in targets
    ensures LastOfName(targets, i) && targets[i].name == t.name
  {
    i := |targets| - 1;
    while targets[i].name != t.name
      invariant 0 <= i < |targets|
      invariant forall j :: i < j < |targets| ==> targets[j].name != t.name
      invariant exists j :: 0 <= j <= i && targets[j] == t
      decreases i
    {
      i := i - 1;
    }
  }

  /** With selectors fixed by target names, they too are those of the last definition. */
  lemma {:induction false} SelectorsStayFixed(history: seq<ServiceInterface>, selectors: map<string, string>)
    requires history != [] && forall i :: 0 <= i < |history| ==> history[i].address == history[0].address
    requires forall i :: 0 <= i < |history| ==> FixesSelectors(history[i], selectors)
    ensures AfterHistory(history).address == history[0].address
    ensures SelectsBy(AfterHistory(history).targets, history[0].address, selectors)
  {
    var n := |history| - 1;
    if n == 0 {
      FreshTargetsSelect(history[0].address, history[0].targets, selectors);
    } else {
      var earlier := history[..n];
      assert forall i :: 0 <= i < n ==> earlier[i] == history[i];
      SelectorsStayFixed(earlier, selectors);
      PatchedTargetsSelect(AfterHistory(earlier).targets, history[n], history[n].targets, selectors);
    }
  }

  // ---------------------------------------------------------------- what does depend on the history

  /** What a patch leaves as it was when the target was added. */
  datatype Entry = Entry(selector: string, service: string)

  function LastOf(targets: seq<Target>, name: string): Option<Target> {
    if targets == [] then None
    else
      var t := targets[|targets| - 1];
      if t.name == name then Some(t) else LastOf(targets[..|targets| - 1], name)
  }

  function FirstOf(targets: seq<Target>, name: string): Option<Target> {
    if targets == [] then None
    else
      var first, t := FirstOf(targets[..|targets| - 1], name), targets[|targets| - 1];
      if first.None? && t.name == name then Some(t) else first
  }

  /** How the name came into the binding of a history: with the first definition, or with the first
      one that had it again. */
  function EntryOf(history: seq<ServiceInterface>, name: string): Option<Entry>
    requires history != []
  {
    var n := |history| - 1;
    var last := LastOf(history[n].targets, name);
    if last.None? then None
    else if n == 0 then Some(Entry(last.value.selector, last.value.service))
    else
      var earlier, first := EntryOf(history[..n], name), FirstOf(history[n].targets, name);
      if earlier.Some? || first.None? then earlier else Some(Entry(first.value.selector, ""))
  }

  lemma {:induction false} NamesInList(targets: seq<Target>, name: string)
    ensures LastOf(targets, name).Some? <==> exists t :: t in targets && t.name == name
    ensures FirstOf(targets, name).Some? <==> LastOf(targets, name).Some?
    ensures LastOf(targets, name).Some? ==>
              LastOf(targets, name).value in targets && LastOf(targets, name).value.name == name
  {
    if targets != [] {
      var rest, t := targets[..|targets| - 1], targets[|targets| - 1];
      NamesInList(rest, name);
      assert forall u :: u in targets <==> u in rest || u == t;
    }
  }

  lemma NamedIffKeyed(si: ServiceInterface, name: string)
    ensures HasTargetForName(si, TargetKey(si.address, name)) <==> LastOf(si.targets, name).Some?
  {
    NamesInList(si.targets, name);
    if t :| t in si.targets && TargetKey(si.address, t.name) == TargetKey(si.address, name) {
      KeysAreInjective(si.address, t.name, name);
    }
  }

  predicate StoresEntry(targets: map<string, EgressBinding>, k: string, entry: Option<Entry>) {
    && (k in targets <==> entry.Some?)
    && (entry.Some? ==> targets[k].selector == entry.value.selector && targets[k].service == entry.value.service)
  }

  lemma {:induction false} FreshEntry(address: string, targets: seq<Target>, name: string)
    ensures var last := LastOf(targets, name);
      StoresEntry(FreshTargets(address, targets), TargetKey(address, name),
                  if last.Some? then Some(Entry(last.value.selector, last.value.service)) else None)
  {
    if targets != [] {
      FreshEntry(address, targets[..|targets| - 1], name);
      SameKeySameName(address, targets[|targets| - 1].name, name);
    }
  }

  lemma SameKeySameName(address: string, name: string, other: string)
    ensures TargetKey(address, name) == TargetKey(address, other) <==> name == other
  {
    if TargetKey(address, name) == TargetKey(address, other) {
      KeysAreInjective(address, name, other);
    }
  }

  lemma {:induction false} PatchedEntry(before: map<string, EgressBinding>, si: ServiceInterface,
                                        targets: seq<Target>, name: string, entry: Option<Entry>)
    requires StoresEntry(before, TargetKey(si.address, name), entry)
    ensures var first := FirstOf(targets, name);
      StoresEntry(PatchedTargets(before, si, targets), TargetKey(si.address, name),
                  if entry.Some? || first.None? then entry else Some(Entry(first.value.selector, "")))
  {
    if targets != [] {
      PatchedEntry(before, si, targets[..|targets| - 1], name, entry);
      SameKeySameName(si.address, targets[|targets| - 1].name, name);
    }
  }

  /** The exact dependence on the history: a target keeps the selector and service name it came in
      with, and headless data and the ingress port are those of the first definition. */
  lemma {:induction false} StoredAsEntered(history: seq<ServiceInterface>, name: string)
    requires history != [] && forall i :: 0 <= i < |history| ==> history[i].address == history[0].address
    ensures StoresEntry(AfterHistory(history).targets, TargetKey(history[0].address, name), EntryOf(history, name))
    ensures AfterHistory(history).headless == history[0].headless
    ensures AfterHistory(history).ingressPort == history[0].port
  {
    var n := |history| - 1;
    if n == 0 {
      FreshEntry(history[0].address, history[0].targets, name);
    } else {
      var earlier, si := history[..n], history[n];
      assert forall i :: 0 <= i < n ==> earlier[i] == history[i];
      StoredAsEntered(earlier, name);
      PatchedEntry(AfterHistory(earlier).targets, si, si.targets, name, EntryOf(earlier, name));
      NamedIffKeyed(si, name);
      NamesInList(si.targets, name);
    }
  }

  /** The port that a binding stores: as the definition gives it while the binding is new, and with
      the service's port filled in once it was patched. */
  lemma StoredPort(history: seq<ServiceInterface>, name: string)
    requires history != [] && forall i :: 0 <= i < |history| ==> history[i].address == history[0].address
    requires LastOf(history[|history| - 1].targets, name).Some?
    ensures var last, k := history[|history| - 1], TargetKey(history[0].address, name);
      var t := LastOf(last.targets, name).value;
      && k in AfterHistory(history).targets
      && AfterHistory(history).targets[k].egressPort ==
           if |history| == 1 || t.targetPort != 0 then t.targetPort else last.port
  {
    var n := |history| - 1;
    var last := history[n];
    if n == 0 {
      FreshPort(last.address, last.targets, name);
    } else {
      var before := AfterHistory(history[..n]).targets;
      PatchedPort(before, last, last.targets, name);
      NamedIffKeyed(last, name);
    }
  }

  lemma {:induction false} FreshPort(address: string, targets: seq<Target>, name: string)
    requires LastOf(targets, name).Some?
    ensures TargetKey(address, name) in FreshTargets(address, targets)
    ensures FreshTargets(address, targets)[TargetKey(address, name)].egressPort ==
            LastOf(targets, name).value.targetPort
  {
    var t := targets[|targets| - 1];
    SameKeySameName(address, t.name, name);
    if t.name != name {
      FreshPort(address, targets[..|targets| - 1], name);
    }
  }

  lemma {:induction false} PatchedPort(before: map<string, EgressBinding>, si: ServiceInterface,
                                       targets: seq<Target>, name: string)
    requires LastOf(targets, name).Some?
    ensures var k, t := TargetKey(si.address, name), LastOf(targets, name).value;
      && k in PatchedTargets(before, si, targets)
      && PatchedTargets(before, si, targets)[k].egressPort == if t.targetPort != 0 then t.targetPort else si.port
  {
    var t := targets[|targets| - 1];
    SameKeySameName(si.address, t.name, name);
    if t.name != name {
      PatchedPort(before, si, targets[..|targets| - 1], name);
    }
  }

  /** So these agree with a binding built fresh from the last definition exactly when the target came
      in with the selector that this definition gives it last, and when the first definition had the
      last one's headless data and port. */
  lemma HistoryShowsIff(history: seq<ServiceInterface>, name: string)
    requires history != [] && forall i :: 0 <= i < |history| ==> history[i].address == history[0].address
    requires LastOf(history[|history| - 1].targets, name).Some?
    ensures var last, b, k := history[|history| - 1], AfterHistory(history), TargetKey(history[0].address, name);
      && k in b.targets && k in Fresh(last).targets && EntryOf(history, name).Some?
      && (b.targets[k].selector == Fresh(last).targets[k].selector <==>
            EntryOf(history, name).value.selector == LastOf(last.targets, name).value.selector)
      && (b.headless == Fresh(last).headless <==> history[0].headless == last.headless)
      && (b.ingressPort == Fresh(last).ingressPort <==> history[0].port == last.port)
  {
    var last := history[|history| - 1];
    StoredAsEntered(history, name);
    FreshEntry(last.address, last.targets, name);
    NamesInList(last.targets, name);
  }

  /** A history after which selector and headless data are not those of the last definition. */
  lemma SelectorsAndHeadlessArePathDependent(si: ServiceInterface, t: Target, selector: string, h: Headless)
    requires si.targets == [t] && si.headless == None && t.selector != selector
    ensures var later := si.(targets := [t.(selector := selector)], headless := Some(h));
      var b, k := AfterHistory([si, later]), TargetKey(si.address, t.name);
      && k in b.targets && k in Fresh(later).targets
      && b.targets[k].selector == t.selector != Fresh(later).targets[k].selector
      && b.headless != Fresh(later).headless
  {
    var later := si.(targets := [t.(selector := selector)], headless := Some(h));
    assert [si, later][..1] == [si];
    assert si.targets[..0] == [] && later.targets[..0] == [];
    HistoryShowsIff([si, later], t.name);
    StoredAsEntered([si, later], t.name);
  }

  /** Names that stand for one selector throughout came in with it. */
  lemma FixedSelectorsEnter(history: seq<ServiceInterface>, selectors: map<string, string>, name: string)
    requires history != [] && forall i :: 0 <= i < |history| ==> history[i].address == history[0].address
    requires forall i :: 0 <= i < |history| ==> FixesSelectors(history[i], selectors)
    requires EntryOf(history, name).Some?
    ensures name in selectors && EntryOf(history, name).value.selector == selectors[name]
  {
    var b, k := AfterHistory(history), TargetKey(history[0].address, name);
    SelectorsStayFixed(history, selectors);
    StoredAsEntered(history, name);
    KeysAreInjective(history[0].address, b.targets[k].name, name);
  }

  // ---------------------------------------------------------------- back to a definition

  /** asServiceInterface: the targets come out in the map's order, whatever it is. */
  ghost predicate Describes(si: ServiceInterface, b: Binding) {
    && si == ServiceInterface(b.address, b.protocol, b.publicPort, b.eventChannel, b.aggregation, b.headless,
                              si.targets, b.origin, "")
    && ListsTargets(si.targets, b.targets)
  }

  ghost predicate ListsTargets(targets: seq<Target>, bindings: map<string, EgressBinding>) {
    && |targets| == |bindings|
    && (forall k :: k in bindings ==> AsTarget(bindings[k]) in targets)
    && (forall t :: t in targets ==> exists k :: k in bindings && t == AsTarget(bindings[k]))
  }

  function AsTarget(e: EgressBinding): Target {
    Target(e.name, e.selector, e.egressPort, e.service)
  }

  /** Each target is reached at the host that the definition gives it. */
  ghost predicate ReachesAsDefined(b: Binding, si: ServiceInterface) {
    forall i :: 0 <= i < |si.targets| ==> ReachedAsDefined(b, si, i)
  }

  predicate ReachedAsDefined(b: Binding, si: ServiceInterface, i: nat)
    requires i < |si.targets|
  {
    var t := si.targets[i];
    var k := TargetKey(si.address, t.name);
    k in b.targets && HostOf(t.name, b.targets[k].selector) == EgressHost(t)
  }

  /** Each target of the last definition came in under a selector that reaches the same host. */
  ghost predicate EnteredAsDefined(history: seq<ServiceInterface>)
    requires history != []
  {
    forall i :: 0 <= i < |history[|history| - 1].targets| ==> EnteredAlike(history, i)
  }

  predicate EnteredAlike(history: seq<ServiceInterface>, i: nat)
    requires history != [] && i < |history[|history| - 1].targets|
  {
    var t := history[|history| - 1].targets[i];
    var entry := EntryOf(history, t.name);
    entry.Some? && HostOf(t.name, entry.value.selector) == EgressHost(t)
  }

  lemma {:induction false} ReachesIffEntered(history: seq<ServiceInterface>)
    requires history != [] && forall i :: 0 <= i < |history| ==> history[i].address == history[0].address
    ensures ReachesAsDefined(AfterHistory(history), history[|history| - 1]) <==> EnteredAsDefined(history)
  {
    var b, last := AfterHistory(history), history[|history| - 1];
    forall i | 0 <= i < |last.targets| ensures ReachedAsDefined(b, last, i) <==> EnteredAlike(history, i) {
      StoredAsEntered(history, last.targets[i].name);
    }
    if EnteredAsDefined(history) {
      forall i | 0 <= i < |last.targets| ensures ReachedAsDefined(b, last, i) {
        assert EnteredAlike(history, i);
      }
    } else {
      var i :| 0 <= i < |last.targets| && !EnteredAlike(history, i);
      assert !ReachedAsDefined(b, last, i);
    }
  }

  /** In particular if names stand for one selector throughout. */
  lemma FixedSelectorsSuffice(history: seq<ServiceInterface>, selectors: map<string, string>)
    requires history != [] && forall i :: 0 <= i < |history| ==> history[i].address == history[0].address
    requires forall i :: 0 <= i < |history| ==> FixesSelectors(history[i], selectors)
    ensures EnteredAsDefined(history)
  {
    var last := history[|history| - 1];
    forall i | 0 <= i < |last.targets| ensures EnteredAlike(history, i) {
      var t := last.targets[i];
      NamesInList(last.targets, t.name);
      HistoryShowsIff(history, t.name);
      FixedSelectorsEnter(history, selectors, t.name);
    }
  }

  /** The configuration generated from a reflecting binding is the one of the definition itself; only
      for a service that is connected to its targets does it matter how these are reached. */
  lemma ReflectionHasTheSameProxy(b: Binding, si: ServiceInterface, described: ServiceInterface, siteId: string)
    requires Reflects(b, si) && NamedTargets(b) && Describes(described, b)
    requires Bridged(si) ==> ReachesAsDefined(b, si) && EgressByName(si.targets)
    ensures ProxyConfigOf(described, siteId) == ProxyConfigOf(si, siteId)
  {
    if Bridged(si) {
      DescribedEgresses(b, si, described);
      SameBridges(described, si, siteId, Egresses(si.port, si.targets));
    } else if si.origin != "" {
      SameBridges(described, si, siteId, map[]);
    }
  }

  lemma SameBridges(d: ServiceInterface, si: ServiceInterface, siteId: string, egresses: map<string, Egress>)
    requires d.address == si.address && d.protocol == si.protocol && d.port == si.port && d.origin == si.origin
    ensures ProxyBridges(d, siteId, egresses) == ProxyBridges(si, siteId, egresses)
  {
  }

  lemma DescribedEgresses(b: Binding, si: ServiceInterface, described: ServiceInterface)
    requires Reflects(b, si) && NamedTargets(b) && Describes(described, b)
    requires ReachesAsDefined(b, si) && EgressByName(si.targets)
    ensures Egresses(described.port, described.targets) == Egresses(si.port, si.targets)
  {
    OneHostPerName(b, si);
    DescribedTargetsAgree(b, si, described);
    DescribedTargetsAreNamedAlike(b, si, described);
    EgressByNameCarriesOver(described.targets, si.targets);
    SameTargetsSameEgress(si.port, described.targets, si.targets);
  }

  lemma OneHostPerName(b: Binding, si: ServiceInterface)
    requires ReachesAsDefined(b, si)
    ensures HostByName(si.targets)
  {
    forall t, u | t in si.targets && u in si.targets && t.name == u.name ensures EgressHost(t) == EgressHost(u) {
      var i, j :| 0 <= i < |si.targets| && si.targets[i] == t && 0 <= j < |si.targets| && si.targets[j] == u;
      assert ReachedAsDefined(b, si, i) && ReachedAsDefined(b, si, j);
    }
  }

  /** Every described target is named and reached like the last one of that name in the definition. */
  lemma DescribedTargetsExist(b: Binding, si: ServiceInterface, described: ServiceInterface, t: Target)
    returns (j: nat)
    requires Reflects(b, si) && NamedTargets(b) && Describes(described, b) && ReachesAsDefined(b, si)
    requires t in described.targets
    ensures LastOfName(si.targets, j) && Agree(si.port, t, si.targets[j])
  {
    var k :| k in b.targets && t == AsTarget(b.targets[k]);
    var u :| u in si.targets && TargetKey(si.address, u.name) == k;
    KeysAreInjective(si.address, u.name, t.name);
    j := LastNamed(si.targets, u);
    assert si.targets[j] in si.targets;
    assert ReachedAsDefined(b, si, j);
  }

  predicate NamedAlike(t: Target, u: Target) { t.name == u.name && EgressHost(t) == EgressHost(u) }

  lemma EgressByNameCarriesOver(ts: seq<Target>, us: seq<Target>)
    requires forall t :: t in ts ==> exists u :: u in us && NamedAlike(t, u)
    requires EgressByName(us) && HostByName(us)
    ensures EgressByName(ts) && HostByName(ts)
  {
    forall t, t' | t in ts && t' in ts
      ensures t.name == t'.name ==> EgressHost(t) == EgressHost(t')
      ensures t.name != t'.name && EgressHost(t).Some? && EgressHost(t').Some? ==>
                EgressName(EgressHost(t).value) != EgressName(EgressHost(t').value)
    {
      var u :| u in us && NamedAlike(t, u);
      var u' :| u' in us && NamedAlike(t', u');
    }
  }

  lemma DescribedTargetsAreNamedAlike(b: Binding, si: ServiceInterface, described: ServiceInterface)
    requires Reflects(b, si) && NamedTargets(b) && Describes(described, b) && ReachesAsDefined(b, si)
    ensures forall t :: t in described.targets ==> exists u :: u in si.targets && NamedAlike(t, u)
  {
    forall t | t in described.targets ensures exists u :: u in si.targets && NamedAlike(t, u) {
      var j := DescribedTargetsExist(b, si, described, t);
      assert si.targets[j] in si.targets && NamedAlike(t, si.targets[j]);
    }
  }

  lemma DescribedTargetsAgree(b: Binding, si: ServiceInterface, described: ServiceInterface)
    requires Reflects(b, si) && NamedTargets(b) && Describes(described, b) && ReachesAsDefined(b, si)
    ensures SameTargets(si.port, described.targets, si.targets)
  {
    forall i | LastOfName(described.targets, i)
      ensures exists j :: LastOfName(si.targets, j) && Agree(si.port, described.targets[i], si.targets[j])
    {
      var j := DescribedTargetsExist(b, si, described, described.targets[i]);
    }
    forall j | LastOfName(si.targets, j)
      ensures exists i :: LastOfName(described.targets, i) && Agree(si.port, described.targets[i], si.targets[j])
    {
      var k := TargetKey(si.address, si.targets[j].name);
      var t := AsTarget(b.targets[k]);
      assert t in described.targets;
      var i := LastNamed(described.targets, t);
      var j' := DescribedTargetsExist(b, si, described, described.targets[i]);
      LastIsUnique(si.targets, j, j');
    }
  }

  lemma LastIsUnique(targets: seq<Target>, i: nat, j: nat)
    requires LastOfName(targets, i) && LastOfName(targets, j) && targets[i].name == targets[j].name
    ensures i == j
  {
  }
}
