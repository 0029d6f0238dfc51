/** The plan that widens one loopback publication for a trial. */
module PortPlan {
  import opened Basics
  import opened ComposeValues
  import opened ComposeMerge
  import opened Risk
  import opened Mutations
  import opened MutationLaws
  import opened Ports

  type Bindings = Result<seq<Binding>, PortError>

  /** `_reject_host_networking`. */
  function HostNetworkFault(entries: seq<Entry>): Option<PortError> {
    if !Has(entries, "network_mode") then None else
      var mode := Get(entries, "network_mode");
      if TagOf(mode) == Some("!reset") then None
      else if TagOf(mode).Some? && TagOf(mode) != Some("!override") then Some(TagUnknown)
      else if mode == Atom(Str("host")) || mode == Tagged("!override", Str("host")) then Some(HostNetworking)
      else None
  }

  function PortBindings(service: string, ports: seq<Value>, i: nat, addresses: Addresses): Bindings
    requires i <= |ports|
    decreases |ports| - i
  {
    if i == |ports| then Ok([]) else
      match ParseEntry(service, i, ports[i], addresses)
      case Err(e) => Err(e)
      case Ok(b) =>
        match PortBindings(service, ports, i + 1, addresses)
        case Err(e) => Err(e)
        case Ok(rest) => Ok([b] + rest)
  }

  function ServiceBindings(service: string, definition: Value, addresses: Addresses): Bindings {
    if !definition.Mapping? then Err(BadService)
    else if HostNetworkFault(definition.entries).Some? then Err(HostNetworkFault(definition.entries).value)
    else if !Has(definition.entries, "ports") then Ok([])
    else
      var ports := Get(definition.entries, "ports");
      if TagOf(ports) == Some("!reset") then Ok([])
      else if TagOf(ports).Some? && TagOf(ports) != Some("!override") then Err(TagUnknown)
      else if !ports.List? then Err(BadPorts)
      else PortBindings(service, ports.items, 0, addresses)
  }

  function BindingsFrom(services: seq<Entry>, i: nat, addresses: Addresses): Bindings
    requires i <= |services|
    decreases |services| - i
  {
    if i == |services| then Ok([]) else
      match ServiceBindings(services[i].key, services[i].value, addresses)
      case Err(e) => Err(e)
      case Ok(first) =>
        match BindingsFrom(services, i + 1, addresses)
        case Err(e) => Err(e)
        case Ok(rest) => Ok(first + rest)
  }

  function CheckServices(compose: Value): Result<seq<Entry>, PortError> {
    if !compose.Mapping? then Err(BadCompose) else
      var services := GetOr(compose.entries, "services", Atom(Null));
      if TagOf(services).Some? && TagOf(services) != Some("!override") && TagOf(services) != Some("!reset") then Err(TagUnknown)
      else if TagOf(services) == Some("!reset") || !services.Mapping? then Err(BadServices)
      else Ok(services.entries)
  }

  function AllBindings(compose: Value, addresses: Addresses): Bindings {
    match CheckServices(compose)
    case Err(e) => Err(e)
    case Ok(services) => BindingsFrom(services, 0, addresses)
  }

  // ----- the loops

  function After(done: seq<Binding>, rest: Bindings): Bindings {
    if rest.Err? then rest else Ok(done + rest.value)
  }

  lemma AfterMore(done: seq<Binding>, first: seq<Binding>, rest: Bindings)
    ensures After(done, After(first, rest)) == After(done + first, rest)
  {
    if rest.Ok? { assert done + (first + rest.value) == (done + first) + rest.value; }
  }

  lemma AfterNothing(rest: Bindings)
    ensures After([], rest) == rest
  {
    if rest.Ok? { assert [] + rest.value == rest.value; }
  }

  method CollectPorts(service: string, ports: seq<Value>, addresses: Addresses) returns (r: Bindings)
    ensures r == PortBindings(service, ports, 0, addresses)
  {
    var bindings: seq<Binding> := [];
    var i := 0;
    AfterNothing(PortBindings(service, ports, 0, addresses));
    while i < |ports|
      invariant 0 <= i <= |ports|
      invariant PortBindings(service, ports, 0, addresses) == After(bindings, PortBindings(service, ports, i, addresses))
    {
      var b := ParseEntry(service, i, ports[i], addresses);
      if b.Err? { return Err(b.error); }
      AfterMore(bindings, [b.value], PortBindings(service, ports, i + 1, addresses));
      bindings := bindings + [b.value];
      i := i + 1;
    }
    assert bindings + [] == bindings;
    r := Ok(bindings);
  }

  /** `_collect_bindings`. */
  method CollectBindings(compose: Value, addresses: Addresses) returns (r: Bindings)
    ensures r == AllBindings(compose, addresses)
  {
    var checked := CheckServices(compose);
    if checked.Err? { return Err(checked.error); }
    var services := checked.value;
    var bindings: seq<Binding> := [];
    var i := 0;
    AfterNothing(BindingsFrom(services, 0, addresses));
    while i < |services|
      invariant 0 <= i <= |services|
      invariant BindingsFrom(services, 0, addresses) == After(bindings, BindingsFrom(services, i, addresses))
    {
      var name, definition := services[i].key, services[i].value;
      ghost var rest := BindingsFrom(services, i + 1, addresses);
      i := i + 1;
      if !definition.Mapping? { return Err(BadService); }
      var fault := HostNetworkFault(definition.entries);
      if fault.Some? { return Err(fault.value); }
      if !Has(definition.entries, "ports") || TagOf(Get(definition.entries, "ports")) == Some("!reset") {
        AfterMore(bindings, [], rest);
        assert bindings + [] == bindings;
        continue;
      }
      var ports := Get(definition.entries, "ports");
      if TagOf(ports).Some? && TagOf(ports) != Some("!override") { return Err(TagUnknown); }
      if !ports.List? { return Err(BadPorts); }
      var found := CollectPorts(name, ports.items, addresses);
      if found.Err? { return Err(found.error); }
      AfterMore(bindings, found.value, rest);
      bindings := bindings + found.value;
    }
    assert bindings + [] == bindings;
    r := Ok(bindings);
  }

  // ----- the plan

  predicate SameBinding(a: Binding, b: Binding) {
    a.service == b.service && a.index == b.index
  }

  function Matching(bindings: seq<Binding>, port: int): seq<Binding> {
    if bindings == [] then []
    else (if bindings[0].loopback && bindings[0].target == port then [bindings[0]] else []) + Matching(bindings[1..], port)
  }

  predicate SharesPublished(bindings: seq<Binding>, selected: Binding) {
    exists b :: b in bindings && !SameBinding(b, selected) && b.published == selected.published && b.udp == selected.udp
  }

  function FieldValue(v: Value, key: string): Value {
    if v.Mapping? then GetOr(v.entries, key, Atom(Null)) else Atom(Null)
  }

  /** The entry a binding was read from is there. */
  predicate Located(compose: Value, b: Binding) {
    var services := FieldValue(compose, "services");
    var service := FieldValue(services, b.service);
    var ports := FieldValue(service, "ports");
    ports.List? && b.index < |ports.items| && (b.short.None? ==> ports.items[b.index].Mapping?)
  }

  function ServiceFor(compose: Value, b: Binding): Value
    requires Located(compose, b)
  {
    Get(Get(compose.entries, "services").entries, b.service)
  }

  function PortsFor(compose: Value, b: Binding): seq<Value>
    requires Located(compose, b)
  {
    Get(ServiceFor(compose, b).entries, "ports").items
  }

  function NewPorts(compose: Value, b: Binding): Value
    requires Located(compose, b)
  {
    var items := PortsFor(compose, b);
    List(Some("!override"), items[b.index := WidenEntry(items[b.index], b)])
  }

  function OverlayFor(compose: Value, b: Binding): Value
    requires Located(compose, b)
  {
    var service := Mapping(None, [Entry("ports", NewPorts(compose, b))]);
    Mapping(None, [Entry("services", Mapping(None, [Entry(b.service, service)]))])
  }

  datatype Planned = Planned(selected: Binding, overlay: Value)

  /** `plan_loopback_compatibility_overlay`, up to the text of the overlay. */
  function PlanOverlay(compose: Value, port: int, addresses: Addresses): Result<Option<Planned>, PortError> {
    if !(1 <= port <= 65535) then Err(InvalidContainerPort) else
    match AllBindings(compose, addresses)
    case Err(e) => Err(e)
    case Ok(bindings) =>
      var matches := Matching(bindings, port);
      if matches == [] then Ok(None)
      else if |matches| > 1 then Err(AmbiguousBinding)
      else if SharesPublished(bindings, matches[0]) then Err(PublishedCollision)
      else if !Located(compose, matches[0]) then Err(BadCompose)
      else Ok(Some(Planned(matches[0], OverlayFor(compose, matches[0]))))
  }

  /** The service as the widened file has it. */
  function ChangedService(compose: Value, b: Binding): Value
    requires Located(compose, b)
  {
    var service := ServiceFor(compose, b);
    service.(entries := SetEntry(service.entries, "ports", NewPorts(compose, b)))
  }

  /** The file with the binding's entry widened in place. */
  function Patched(compose: Value, b: Binding): Value
    requires Located(compose, b)
  {
    var services := Get(compose.entries, "services");
    compose.(entries := SetEntry(compose.entries, "services",
                                 services.(entries := SetEntry(services.entries, b.service, ChangedService(compose, b)))))
  }

  // ----- where bindings come from

  lemma {:induction false} PortsRead(service: string, ports: seq<Value>, i: nat, addresses: Addresses, b: Binding)
    requires i <= |ports| && PortBindings(service, ports, i, addresses).Ok?
    requires b in PortBindings(service, ports, i, addresses).value
    ensures b.service == service && i <= b.index < |ports| && ParseEntry(service, b.index, ports[b.index], addresses) == Ok(b)
    decreases |ports| - i
  {
    var first := ParseEntry(service, i, ports[i], addresses).value;
    ParsedAt(service, i, ports[i], addresses);
    if b != first { PortsRead(service, ports, i + 1, addresses, b); }
  }

  lemma ParsedAt(service: string, index: nat, entry: Value, addresses: Addresses)
    requires ParseEntry(service, index, entry, addresses).Ok?
    ensures var b := ParseEntry(service, index, entry, addresses).value;
            b.service == service && b.index == index && (b.short.None? ==> entry.Mapping?)
  {
  }

  lemma {:induction false} ServicesRead(services: seq<Entry>, i: nat, addresses: Addresses, b: Binding) returns (j: nat)
    requires i <= |services| && BindingsFrom(services, i, addresses).Ok?
    requires b in BindingsFrom(services, i, addresses).value
    ensures i <= j < |services| && ServiceBindings(services[j].key, services[j].value, addresses).Ok?
    ensures b in ServiceBindings(services[j].key, services[j].value, addresses).value
    decreases |services| - i
  {
    var first := ServiceBindings(services[i].key, services[i].value, addresses).value;
    if b in first { j := i; } else { j := ServicesRead(services, i + 1, addresses, b); }
  }

  /** Every binding is what its entry reads as. */
  lemma BindingIsRead(compose: Value, addresses: Addresses, b: Binding)
    requires Valid(compose) && AllBindings(compose, addresses).Ok? && b in AllBindings(compose, addresses).value
    ensures Located(compose, b)
    ensures ParseEntry(b.service, b.index, PortsFor(compose, b)[b.index], addresses) == Ok(b)
    ensures ServiceBindings(b.service, ServiceFor(compose, b), addresses).Ok?
    ensures !IsReset(Get(ServiceFor(compose, b).entries, "ports")) && !IsReset(Get(compose.entries, "services"))
  {
    var services := CheckServices(compose).value;
    ServicesAreValid(compose);
    var j := ServicesRead(services, 0, addresses, b);
    GetAt(services, j);
    PortsRead(services[j].key, Get(services[j].value.entries, "ports").items, 0, addresses, b);
    ParsedAt(b.service, b.index, Get(services[j].value.entries, "ports").items[b.index], addresses);
  }

  lemma ServicesAreValid(compose: Value)
    requires Valid(compose) && CheckServices(compose).Ok?
    ensures ValidEntries(compose.entries) && Has(compose.entries, "services")
    ensures Get(compose.entries, "services").Mapping? && CheckServices(compose).value == Get(compose.entries, "services").entries
    ensures ValidEntries(CheckServices(compose).value)
  {
    assert Valid(Get(compose.entries, "services"));
  }

  /** The plan never fails on the overlay itself, and what it selects stands alone. */
  lemma SelectedStandsAlone(compose: Value, port: int, addresses: Addresses)
    requires Valid(compose) && 1 <= port <= 65535 && AllBindings(compose, addresses).Ok?
    requires |Matching(AllBindings(compose, addresses).value, port)| == 1
    ensures var bindings := AllBindings(compose, addresses).value;
            var selected := Matching(bindings, port)[0];
            && selected in bindings && Located(compose, selected)
            && (PlanOverlay(compose, port, addresses) == Ok(Some(Planned(selected, OverlayFor(compose, selected)))) <==>
                forall b :: b in bindings && b != selected ==> b.published != selected.published || b.udp != selected.udp)
  {
    var bindings := AllBindings(compose, addresses).value;
    var selected := Matching(bindings, port)[0];
    MatchingMembers(bindings, port, selected);
    BindingIsRead(compose, addresses, selected);
    forall b | b in bindings && SameBinding(b, selected) ensures b == selected {
      BindingIsRead(compose, addresses, b);
    }
  }

  lemma {:induction false} MatchingMembers(bindings: seq<Binding>, port: int, b: Binding)
    ensures b in Matching(bindings, port) <==> b in bindings && b.loopback && b.target == port
  {
    if bindings != [] { MatchingMembers(bindings[1..], port, b); }
  }

  // ----- the widened file

  function Replaced(bindings: seq<Binding>, w: Binding): seq<Binding> {
    if bindings == [] then []
    else [if SameBinding(bindings[0], w) then w else bindings[0]] + Replaced(bindings[1..], w)
  }

  lemma {:induction false} ReplacedAppend(a: seq<Binding>, b: seq<Binding>, w: Binding)
    ensures Replaced(a + b, w) == Replaced(a, w) + Replaced(b, w)
  {
    if a == [] {
      assert a + b == b;
    } else {
      assert (a + b)[1..] == a[1..] + b;
      ReplacedAppend(a[1..], b, w);
    }
  }

  lemma {:induction false} NothingReplaced(bindings: seq<Binding>, w: Binding)
    requires forall b :: b in bindings ==> !SameBinding(b, w)
    ensures Replaced(bindings, w) == bindings
  {
    if bindings != [] {
      NothingReplaced(bindings[1..], w);
      assert bindings == [bindings[0]] + bindings[1..];
    }
  }

  lemma {:induction false} ReplacedMembers(bindings: seq<Binding>, w: Binding, b: Binding)
    ensures b in Replaced(bindings, w) ==> b == w || (b in bindings && !SameBinding(b, w))
  {
    if bindings != [] { ReplacedMembers(bindings[1..], w, b); }
  }

  lemma PortStep(service: string, ports: seq<Value>, i: nat, addresses: Addresses, b: Binding)
    requires i < |ports| && ParseEntry(service, i, ports[i], addresses) == Ok(b)
    ensures var rest := PortBindings(service, ports, i + 1, addresses);
            PortBindings(service, ports, i, addresses) == if rest.Ok? then Ok([b] + rest.value) else rest
  {
  }

  /** The binding of entry `i` once entry `w.index` reads as `w`. */
  lemma EntryReplaced(service: string, ports: seq<Value>, i: nat, addresses: Addresses, e: Value, w: Binding) returns (first: Binding)
    requires i < |ports| && ParseEntry(service, i, ports[i], addresses).Ok?
    requires w.service == service && w.index < |ports| && ParseEntry(service, w.index, e, addresses) == Ok(w)
    ensures ParseEntry(service, i, ports[i], addresses) == Ok(first)
    ensures ParseEntry(service, i, ports[w.index := e][i], addresses) == Ok(if SameBinding(first, w) then w else first)
  {
    first := ParseEntry(service, i, ports[i], addresses).value;
    ParsedAt(service, i, ports[i], addresses);
  }

  lemma {:induction false} PortsReplaced(service: string, ports: seq<Value>, i: nat, addresses: Addresses, e: Value, w: Binding)
    requires i <= |ports| && PortBindings(service, ports, i, addresses).Ok?
    requires w.service == service && w.index < |ports| && ParseEntry(service, w.index, e, addresses) == Ok(w)
    ensures PortBindings(service, ports[w.index := e], i, addresses) ==
            Ok(Replaced(PortBindings(service, ports, i, addresses).value, w))
    decreases |ports| - i
  {
    if i < |ports| {
      var first := EntryReplaced(service, ports, i, addresses, e, w);
      PortStep(service, ports, i, addresses, first);
      PortsReplaced(service, ports, i + 1, addresses, e, w);
      PortStep(service, ports[w.index := e], i, addresses, if SameBinding(first, w) then w else first);
      ReplacedFirst(first, PortBindings(service, ports, i + 1, addresses).value, w);
    }
  }

  lemma ReplacedFirst(first: Binding, rest: seq<Binding>, w: Binding)
    ensures Replaced([first] + rest, w) == [if SameBinding(first, w) then w else first] + Replaced(rest, w)
  {
    assert ([first] + rest)[1..] == rest;
  }

  lemma ServiceReplaced(service: string, entries: seq<Entry>, mark: Option<string>, addresses: Addresses, e: Value, w: Binding)
    requires ValidEntries(entries) && ServiceBindings(service, Mapping(mark, entries), addresses).Ok?
    requires Has(entries, "ports") && !IsReset(Get(entries, "ports")) && Get(entries, "ports").List?
    requires w.service == service && w.index < |Get(entries, "ports").items|
    requires ParseEntry(service, w.index, e, addresses) == Ok(w)
    ensures var items := Get(entries, "ports").items;
            var changed := SetEntry(entries, "ports", List(Some("!override"), items[w.index := e]));
            ServiceBindings(service, Mapping(mark, changed), addresses) ==
            Ok(Replaced(ServiceBindings(service, Mapping(mark, entries), addresses).value, w))
  {
    var items := Get(entries, "ports").items;
    var ports := List(Some("!override"), items[w.index := e]);
    SetEntryAgrees(entries, "ports", ports);
    assert "network_mode" != "ports";
    PortsReplaced(service, items, 0, addresses, e, w);
  }

  lemma OtherServiceKept(service: string, definition: Value, addresses: Addresses, w: Binding)
    requires service != w.service && ServiceBindings(service, definition, addresses).Ok?
    ensures Replaced(ServiceBindings(service, definition, addresses).value, w) ==
            ServiceBindings(service, definition, addresses).value
  {
    var bindings := ServiceBindings(service, definition, addresses).value;
    forall b | b in bindings ensures !SameBinding(b, w) {
      PortsRead(service, Get(definition.entries, "ports").items, 0, addresses, b);
    }
    NothingReplaced(bindings, w);
  }

  /** Only the service at `at` differs, and there one binding is replaced. */
  lemma {:induction false} ServicesReplaced(services: seq<Entry>, changed: seq<Entry>, at: nat, i: nat, addresses: Addresses, w: Binding)
    requires Distinct(Keys(services)) && |changed| == |services| && at < |services| && i <= |services|
    requires services[at].key == w.service == changed[at].key
    requires forall k :: 0 <= k < |services| && k != at ==> changed[k] == services[k]
    requires BindingsFrom(services, i, addresses).Ok?
    requires ServiceBindings(w.service, services[at].value, addresses).Ok?
    requires ServiceBindings(w.service, changed[at].value, addresses) ==
             Ok(Replaced(ServiceBindings(w.service, services[at].value, addresses).value, w))
    ensures BindingsFrom(changed, i, addresses) == Ok(Replaced(BindingsFrom(services, i, addresses).value, w))
    decreases |services| - i
  {
    if i < |services| {
      ServicesReplaced(services, changed, at, i + 1, addresses, w);
      var first := ServiceBindings(services[i].key, services[i].value, addresses).value;
      ReplacedAppend(first, BindingsFrom(services, i + 1, addresses).value, w);
      if i != at {
        assert Keys(services)[i] != Keys(services)[at];
        OtherServiceKept(services[i].key, services[i].value, addresses, w);
      }
    }
  }

  lemma SetEntryAt(entries: seq<Entry>, key: string, v: Value)
    requires Distinct(Keys(entries)) && Has(entries, key)
    ensures var at := IndexOf(entries, key);
            var r := SetEntry(entries, key, v);
            && |r| == |entries| && entries[at].key == key && r[at] == Entry(key, v)
            && forall k :: 0 <= k < |entries| && k != at ==> r[k] == entries[k]
  {
  }

  lemma LocatedServices(compose: Value, b: Binding)
    requires Located(compose, b)
    ensures compose.Mapping? && Has(compose.entries, "services") && Get(compose.entries, "services").Mapping?
  {
  }

  lemma CheckedServices(compose: Value, services: Value)
    requires compose.Mapping? && Has(compose.entries, "services") && Get(compose.entries, "services") == services
    requires services.Mapping? && (TagOf(services).None? || TagOf(services) == Some("!override"))
    ensures CheckServices(compose) == Ok(services.entries)
  {
  }

  lemma CheckedTag(compose: Value)
    requires CheckServices(compose).Ok? && Has(compose.entries, "services")
    ensures TagOf(Get(compose.entries, "services")).None? || TagOf(Get(compose.entries, "services")) == Some("!override")
    ensures Get(compose.entries, "services").Mapping?
    ensures CheckServices(compose).value == Get(compose.entries, "services").entries
  {
  }

  lemma PatchedServices(compose: Value, b: Binding)
    requires Valid(compose) && CheckServices(compose).Ok? && Located(compose, b)
    ensures Get(compose.entries, "services").Mapping?
    ensures CheckServices(Patched(compose, b)) ==
            Ok(SetEntry(CheckServices(compose).value, b.service, ChangedService(compose, b)))
  {
    LocatedServices(compose, b);
    CheckedTag(compose);
    var services := Get(compose.entries, "services");
    var changed := services.(entries := SetEntry(services.entries, b.service, ChangedService(compose, b)));
    SetEntryAgrees(compose.entries, "services", changed);
    CheckedServices(Patched(compose, b), changed);
  }

  lemma ReadableParts(compose: Value, b: Binding)
    requires Valid(compose) && Located(compose, b)
    ensures ValidEntries(ServiceFor(compose, b).entries) && Valid(PortsFor(compose, b)[b.index])
  {
    var services := Get(compose.entries, "services");
    assert Valid(services);
    assert Valid(ServiceFor(compose, b));
    assert Valid(Get(ServiceFor(compose, b).entries, "ports"));
  }

  lemma ChangedServiceBindings(compose: Value, addresses: Addresses, b: Binding)
    requires Valid(compose) && AllBindings(compose, addresses).Ok? && b in AllBindings(compose, addresses).value
    requires addresses(ANY_HOST) == Some(false)
    ensures Located(compose, b) && ServiceBindings(b.service, ServiceFor(compose, b), addresses).Ok?
    ensures ServiceBindings(b.service, ChangedService(compose, b), addresses) ==
            Ok(Replaced(ServiceBindings(b.service, ServiceFor(compose, b), addresses).value, Widened(b)))
  {
    BindingIsRead(compose, addresses, b);
    ReadableParts(compose, b);
    var service, entry := ServiceFor(compose, b), PortsFor(compose, b)[b.index];
    WidenedEntryReparses(b.service, b.index, entry, addresses);
    ServiceReplaced(b.service, service.entries, service.mark, addresses, WidenEntry(entry, b), Widened(b));
  }

  /** In the widened file every binding is as before but the widened one. */
  lemma PatchedBindings(compose: Value, addresses: Addresses, b: Binding)
    requires Valid(compose) && AllBindings(compose, addresses).Ok? && b in AllBindings(compose, addresses).value
    requires addresses(ANY_HOST) == Some(false)
    ensures Located(compose, b)
    ensures AllBindings(Patched(compose, b), addresses) == Ok(Replaced(AllBindings(compose, addresses).value, Widened(b)))
  {
    ChangedServiceBindings(compose, addresses, b);
    ServicesAreValid(compose);
    PatchedServices(compose, b);
    var services := CheckServices(compose).value;
    var changed := ChangedService(compose, b);
    SetEntryAt(services, b.service, changed);
    ServicesReplaced(services, SetEntry(services, b.service, changed), IndexOf(services, b.service), 0, addresses, Widened(b));
  }

  lemma NoneLeft(bindings: seq<Binding>, selected: Binding, port: int)
    requires Matching(bindings, port) == [selected]
    ensures Matching(Replaced(bindings, Widened(selected)), port) == []
  {
    var after := Replaced(bindings, Widened(selected));
    if Matching(after, port) != [] {
      var b := Matching(after, port)[0];
      MatchingMembers(after, port, b);
      ReplacedMembers(bindings, Widened(selected), b);
      MatchingMembers(bindings, port, b);
    }
  }

  lemma PlannedIs(compose: Value, port: int, addresses: Addresses)
    requires PlanOverlay(compose, port, addresses).Ok? && PlanOverlay(compose, port, addresses).value.Some?
    ensures 1 <= port <= 65535 && AllBindings(compose, addresses).Ok?
    ensures var selected := PlanOverlay(compose, port, addresses).value.value.selected;
            Located(compose, selected) && Matching(AllBindings(compose, addresses).value, port) == [selected]
  {
  }

  /** Planning the widened file again finds nothing left to widen. */
  lemma PlannedOnce(compose: Value, port: int, addresses: Addresses)
    requires Valid(compose) && addresses(ANY_HOST) == Some(false)
    requires PlanOverlay(compose, port, addresses).Ok? && PlanOverlay(compose, port, addresses).value.Some?
    ensures var selected := PlanOverlay(compose, port, addresses).value.value.selected;
            Located(compose, selected) && PlanOverlay(Patched(compose, selected), port, addresses) == Ok(None)
  {
    PlannedIs(compose, port, addresses);
    var selected := PlanOverlay(compose, port, addresses).value.value.selected;
    var bindings := AllBindings(compose, addresses).value;
    MatchingMembers(bindings, port, selected);
    PatchedBindings(compose, addresses, selected);
    NoneLeft(bindings, selected, port);
  }

  /** A service on the host's network stops all planning, whatever the other services publish. */
  lemma HostNetworkStopsPlanning(compose: Value, port: int, addresses: Addresses)
    requires CheckServices(compose).Ok? && 1 <= port <= 65535
    requires exists i :: 0 <= i < |CheckServices(compose).value| && CheckServices(compose).value[i].value.Mapping?
                         && Flagged(CheckServices(compose).value[i].value.entries, HostNetwork)
    ensures PlanOverlay(compose, port, addresses).Err?
  {
    var services := CheckServices(compose).value;
    var i :| 0 <= i < |services| && services[i].value.Mapping? && Flagged(services[i].value.entries, HostNetwork);
    HostNetworkRefused(services[i].value.entries);
    ServiceStops(services, 0, i, addresses);
  }

  lemma HostNetworkRefused(entries: seq<Entry>)
    requires Flagged(entries, HostNetwork)
    ensures HostNetworkFault(entries) == Some(PortError.HostNetworking)
  {
  }

  lemma {:induction false} ServiceStops(services: seq<Entry>, i: nat, k: nat, addresses: Addresses)
    requires i <= k < |services| && ServiceBindings(services[k].key, services[k].value, addresses).Err?
    ensures BindingsFrom(services, i, addresses).Err?
    decreases k - i
  {
    if i < k { ServiceStops(services, i + 1, k, addresses); }
  }

  // ----- the overlay, merged over the file

  lemma EffectiveSet(entries: seq<Entry>, key: string, v: Value)
    requires ValidEntries(entries)
    ensures EffectiveFields(SetEntry(entries, key, v)) == SetField(EffectiveFields(entries), key, Effective(v))
  {
    var r := SetEntry(entries, key, v);
    SetEntryAgrees(entries, key, v);
    forall k ensures FieldOf(EffectiveFields(r), k) == FieldOf(SetField(EffectiveFields(entries), key, Effective(v)), k) {
      EffectiveField(entries, k);
      EffectiveField(r, k);
      assert k != key ==> Has(entries, k) == Has(r, k);
    }
    FieldsEqual(EffectiveFields(r), SetField(EffectiveFields(entries), key, Effective(v)));
  }

  lemma MergeOne(base: map<string, Plain>, e: Entry, combine: Combine)
    ensures MergeFields(base, [e], combine) == SetField(base, e.key, Merge(FieldOf(base, e.key), e.value, combine))
  {
    assert [e][..0] == [];
  }

  /** A mapping with one key, merged over a mapping. */
  lemma MergeSingle(base: Option<Plain>, e: Entry, combine: Combine)
    ensures Merge(base, Mapping(None, [e]), combine) ==
            Some(PMap(SetField(FieldsOf(base), e.key, Merge(FieldOf(FieldsOf(base), e.key), e.value, combine))))
  {
    MergeOne(FieldsOf(base), e, combine);
  }

  /** Merging the overlay over a service replaces its ports; a service tagged to be reset is started afresh instead. */
  lemma ServiceMerges(compose: Value, b: Binding, combine: Combine)
    requires Valid(compose) && Located(compose, b)
    ensures var over := Mapping(None, [Entry("ports", NewPorts(compose, b))]);
            var merged := Merge(Effective(ServiceFor(compose, b)), over, combine);
            merged.Some? && (merged == Effective(ChangedService(compose, b)) <==> !IsReset(ServiceFor(compose, b)))
  {
    var service := ServiceFor(compose, b);
    ReadableParts(compose, b);
    MergeSingle(Effective(service), Entry("ports", NewPorts(compose, b)), combine);
    EffectiveSet(service.entries, "ports", NewPorts(compose, b));
  }

  lemma FieldsDiffer(base: map<string, Plain>, key: string, a: Option<Plain>, b: Option<Plain>)
    ensures SetField(base, key, a) == SetField(base, key, b) <==> a == b
  {
    assert FieldOf(SetField(base, key, a), key) == a && FieldOf(SetField(base, key, b), key) == b;
  }

  /** Merged over the file, the overlay gives the widened file, unless the file's root or the service is itself tagged
      to be reset. */
  lemma OverlayMergesToPatched(compose: Value, addresses: Addresses, b: Binding, combine: Combine)
    requires Valid(compose) && AllBindings(compose, addresses).Ok? && b in AllBindings(compose, addresses).value
    ensures Located(compose, b)
    ensures Merge(Effective(compose), OverlayFor(compose, b), combine) == Effective(Patched(compose, b)) <==>
            !IsReset(compose) && !IsReset(ServiceFor(compose, b))
  {
    BindingIsRead(compose, addresses, b);
    if IsReset(compose) {
      MergeSingle(Effective(compose), Entry("services", Get(OverlayFor(compose, b).entries, "services")), combine);
    } else {
      LiveOverlayMerges(compose, addresses, b, combine);
    }
  }

  lemma LiveOverlayMerges(compose: Value, addresses: Addresses, b: Binding, combine: Combine)
    requires Valid(compose) && !IsReset(compose) && Located(compose, b)
    requires AllBindings(compose, addresses).Ok?
    ensures Merge(Effective(compose), OverlayFor(compose, b), combine) == Effective(Patched(compose, b)) <==>
            !IsReset(ServiceFor(compose, b))
  {
    ServicesAreValid(compose);
    ServicesMerge(compose, b, combine);
    var services := Get(compose.entries, "services");
    var over := Entry("services", Get(OverlayFor(compose, b).entries, "services"));
    var changed := services.(entries := SetEntry(services.entries, b.service, ChangedService(compose, b)));
    MergeSingle(Effective(compose), over, combine);
    EffectiveField(compose.entries, "services");
    EffectiveSet(compose.entries, "services", changed);
    FieldsDiffer(EffectiveFields(compose.entries), "services", Merge(Effective(services), over.value, combine), Effective(changed));
  }

  lemma ServicesMerge(compose: Value, b: Binding, combine: Combine)
    requires Valid(compose) && Located(compose, b) && !IsReset(Get(compose.entries, "services"))
    ensures var services := Get(compose.entries, "services");
            var changed := services.(entries := SetEntry(services.entries, b.service, ChangedService(compose, b)));
            Merge(Effective(services), Get(OverlayFor(compose, b).entries, "services"), combine) == Effective(changed) <==>
            !IsReset(ServiceFor(compose, b))
  {
    var services := Get(compose.entries, "services");
    assert Valid(services);
    var over := Entry(b.service, Mapping(None, [Entry("ports", NewPorts(compose, b))]));
    ServiceMerges(compose, b, combine);
    MergeSingle(Effective(services), over, combine);
    EffectiveField(services.entries, b.service);
    EffectiveSet(services.entries, b.service, ChangedService(compose, b));
    FieldsDiffer(EffectiveFields(services.entries), b.service,
                 Merge(Effective(ServiceFor(compose, b)), over.value, combine), Effective(ChangedService(compose, b)));
  }
}
