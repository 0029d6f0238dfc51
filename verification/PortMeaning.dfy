/** The plan reads nothing of a file but what its services publish and how they are networked, in any order of keys. */
module PortMeaning {
  import opened Basics
  import opened ComposeValues
  import opened Mutations
  import opened MutationLaws
  import opened MutationMeaning
  import opened Overlay
  import opened Hardened
  import opened Ports
  import opened PortPlan

  // ----- one entry

  lemma PortMeans(a: Value, b: Value)
    requires Meaning(a) == Meaning(b)
    ensures PortOf(a) == PortOf(b)
  {
    AtomMeaning(a, b);
  }

  lemma HostMeans(a: Value, b: Value, addresses: Addresses)
    requires Meaning(a) == Meaning(b)
    ensures HostOfValue(a, addresses) == HostOfValue(b, addresses)
  {
    AtomMeaning(a, b);
  }

  lemma FieldMeans(a: seq<Entry>, b: seq<Entry>, key: string)
    requires MeaningFields(a) == MeaningFields(b)
    ensures MeansSame(a, b, key)
  {
    GetOrMeaning(a, b, key, Atom(Null));
  }

  lemma ProtocolMeans(a: seq<Entry>, b: seq<Entry>)
    requires MeansSame(a, b, "protocol")
    ensures ProtocolOf(a) == ProtocolOf(b)
  {
    if Has(a, "protocol") { AtomMeaning(Get(a, "protocol"), Get(b, "protocol")); }
  }

  lemma PortFieldMeans(a: seq<Entry>, b: seq<Entry>, key: string)
    requires MeaningFields(a) == MeaningFields(b)
    ensures Has(a, key) == Has(b, key) && (Has(a, key) ==> PortOf(Get(a, key)) == PortOf(Get(b, key)))
  {
    FieldMeans(a, b, key);
    if Has(a, key) { PortMeans(Get(a, key), Get(b, key)); }
  }

  lemma HostFieldMeans(a: seq<Entry>, b: seq<Entry>, addresses: Addresses)
    requires MeaningFields(a) == MeaningFields(b)
    ensures HostField(a, addresses) == HostField(b, addresses)
  {
    FieldMeans(a, b, "host_ip");
    if Has(a, "host_ip") { HostMeans(Get(a, "host_ip"), Get(b, "host_ip"), addresses); }
  }

  lemma LongMeans(service: string, index: nat, a: seq<Entry>, b: seq<Entry>, addresses: Addresses)
    requires MeaningFields(a) == MeaningFields(b)
    ensures ParseLong(service, index, a, addresses) == ParseLong(service, index, b, addresses)
  {
    PortFieldMeans(a, b, "target");
    PortFieldMeans(a, b, "published");
    FieldMeans(a, b, "protocol");
    ProtocolMeans(a, b);
    HostFieldMeans(a, b, addresses);
  }

  lemma EntryMeans(service: string, index: nat, a: Value, b: Value, addresses: Addresses)
    requires Meaning(a) == Meaning(b)
    ensures ParseEntry(service, index, a, addresses) == ParseEntry(service, index, b, addresses)
  {
    AtomMeaning(a, b);
    if a.Mapping? { LongMeans(service, index, a.entries, b.entries, addresses); }
  }

  // ----- one service

  ghost predicate ItemsAlike(a: seq<Value>, b: seq<Value>) {
    |a| == |b| && forall i :: 0 <= i < |a| ==> Meaning(a[i]) == Meaning(b[i])
  }

  lemma ItemsMean(a: seq<Value>, b: seq<Value>)
    ensures MeaningItems(a) == MeaningItems(b) <==> ItemsAlike(a, b)
  {
    if MeaningItems(a) == MeaningItems(b) {
      assert |MeaningItems(a)| == |a| && |MeaningItems(b)| == |b|;
      forall i | 0 <= i < |a| ensures Meaning(a[i]) == Meaning(b[i]) { assert MeaningItems(a)[i] == MeaningItems(b)[i]; }
    }
  }

  lemma {:induction false} PortsMean(service: string, a: seq<Value>, b: seq<Value>, i: nat, addresses: Addresses)
    requires ItemsAlike(a, b) && i <= |a|
    ensures PortBindings(service, a, i, addresses) == PortBindings(service, b, i, addresses)
    decreases |a| - i
  {
    if i < |a| {
      EntryMeans(service, i, a[i], b[i], addresses);
      PortsMean(service, a, b, i + 1, addresses);
    }
  }

  lemma NetworkMeans(a: seq<Entry>, b: seq<Entry>)
    requires MeansSame(a, b, "network_mode")
    ensures HostNetworkFault(a) == HostNetworkFault(b)
  {
    if Has(a, "network_mode") {
      AtomMeaning(Get(a, "network_mode"), Get(b, "network_mode"));
      SameTag(Get(a, "network_mode"), Get(b, "network_mode"));
    }
  }

  /** The two keys of a service that the plan reads. */
  ghost predicate PublishAlike(a: Value, b: Value) {
    if a.Mapping? then b.Mapping? && MeansSame(a.entries, b.entries, "ports") && MeansSame(a.entries, b.entries, "network_mode")
    else !b.Mapping?
  }

  lemma ServiceMeans(service: string, a: Value, b: Value, addresses: Addresses)
    requires PublishAlike(a, b)
    ensures ServiceBindings(service, a, addresses) == ServiceBindings(service, b, addresses)
  {
    if a.Mapping? {
      NetworkMeans(a.entries, b.entries);
      if Has(a.entries, "ports") {
        var was, now := Get(a.entries, "ports"), Get(b.entries, "ports");
        SameTag(was, now);
        if was.List? {
          ItemsMean(was.items, now.items);
          PortsMean(service, was.items, now.items, 0, addresses);
        }
      }
    }
  }

  // ----- all services, in any order

  lemma {:induction false} BindingsFromOk(services: seq<Entry>, i: nat, addresses: Addresses)
    requires i <= |services|
    ensures BindingsFrom(services, i, addresses).Ok? <==>
            forall j :: i <= j < |services| ==> ServiceBindings(services[j].key, services[j].value, addresses).Ok?
    decreases |services| - i
  {
    if i < |services| { BindingsFromOk(services, i + 1, addresses); }
  }

  lemma InPart(first: seq<Binding>, rest: seq<Binding>, b: Binding)
    ensures b in first + rest <==> b in first || b in rest
  {
  }

  lemma {:induction false} BindingsOfService(
    services: seq<Entry>, i: nat, j: nat, addresses: Addresses, of: Bindings, b: Binding)
    requires i <= j < |services| && BindingsFrom(services, i, addresses).Ok?
    requires of == ServiceBindings(services[j].key, services[j].value, addresses) && of.Ok? && b in of.value
    ensures b in BindingsFrom(services, i, addresses).value
    decreases j - i
  {
    var first := ServiceBindings(services[i].key, services[i].value, addresses).value;
    var rest := BindingsFrom(services, i + 1, addresses).value;
    if i < j { BindingsOfService(services, i + 1, j, addresses, of, b); }
    InPart(first, rest, b);
  }

  /** The same services, in whatever order, publishing the same. */
  ghost predicate ServicesAlike(was: seq<Entry>, now: seq<Entry>) {
    && ValidEntries(was) && ValidEntries(now)
    && forall name :: Has(was, name) == Has(now, name) && (Has(was, name) ==> PublishAlike(Get(was, name), Get(now, name)))
  }

  lemma AlikeBack(was: seq<Entry>, now: seq<Entry>)
    requires ServicesAlike(was, now)
    ensures ServicesAlike(now, was)
  {
  }

  /** Where the service is among the others. */
  lemma ServiceAmong(was: seq<Entry>, now: seq<Entry>, j: nat, addresses: Addresses) returns (k: nat)
    requires ServicesAlike(was, now) && j < |now|
    ensures k < |was| && was[k].key == now[j].key
    ensures ServiceBindings(was[k].key, was[k].value, addresses) == ServiceBindings(now[j].key, now[j].value, addresses)
  {
    GetAt(now, j);
    assert Has(was, now[j].key);
    k := IndexOf(was, now[j].key);
    GetAt(was, k);
    ServiceMeans(now[j].key, was[k].value, now[j].value, addresses);
  }

  lemma BindingsOkToo(was: seq<Entry>, now: seq<Entry>, addresses: Addresses)
    requires ServicesAlike(was, now) && BindingsFrom(was, 0, addresses).Ok?
    ensures BindingsFrom(now, 0, addresses).Ok?
  {
    BindingsFromOk(was, 0, addresses);
    BindingsFromOk(now, 0, addresses);
    forall j | 0 <= j < |now| ensures ServiceBindings(now[j].key, now[j].value, addresses).Ok? {
      var k := ServiceAmong(was, now, j, addresses);
    }
  }

  lemma BindingThere(was: seq<Entry>, now: seq<Entry>, addresses: Addresses, b: Binding)
    requires ServicesAlike(was, now) && BindingsFrom(was, 0, addresses).Ok? && BindingsFrom(now, 0, addresses).Ok?
    ensures b in BindingsFrom(now, 0, addresses).value ==> b in BindingsFrom(was, 0, addresses).value
  {
    if b in BindingsFrom(now, 0, addresses).value {
      var j := ServicesRead(now, 0, addresses, b);
      var k := ServiceAmong(was, now, j, addresses);
      BindingsOfService(was, 0, k, addresses, ServiceBindings(was[k].key, was[k].value, addresses), b);
    }
  }

  // ----- no binding twice

  ghost predicate NoneTwice(bindings: seq<Binding>) {
    forall i, j :: 0 <= i < j < |bindings| ==> !SameBinding(bindings[i], bindings[j])
  }

  lemma {:induction false} PortsNumbered(service: string, ports: seq<Value>, i: nat, addresses: Addresses)
    requires i <= |ports| && PortBindings(service, ports, i, addresses).Ok?
    ensures forall k :: 0 <= k < |PortBindings(service, ports, i, addresses).value| ==>
              PortBindings(service, ports, i, addresses).value[k].index == i + k
    decreases |ports| - i
  {
    if i < |ports| {
      ParsedAt(service, i, ports[i], addresses);
      PortsNumbered(service, ports, i + 1, addresses);
    }
  }

  lemma ServiceNoneTwice(service: string, definition: Value, addresses: Addresses)
    requires ServiceBindings(service, definition, addresses).Ok?
    ensures NoneTwice(ServiceBindings(service, definition, addresses).value)
    ensures forall b :: b in ServiceBindings(service, definition, addresses).value ==> b.service == service
  {
    var bindings := ServiceBindings(service, definition, addresses).value;
    if bindings != [] { PortsNumbered(service, Get(definition.entries, "ports").items, 0, addresses); }
    forall b | b in bindings ensures b.service == service {
      PortsRead(service, Get(definition.entries, "ports").items, 0, addresses, b);
    }
  }

  lemma NoneTwiceAppend(a: seq<Binding>, b: seq<Binding>)
    requires NoneTwice(a) && NoneTwice(b) && forall x, y :: x in a && y in b ==> x.service != y.service
    ensures NoneTwice(a + b)
  {
    var both := a + b;
    forall i, j | 0 <= i < j < |both| ensures !SameBinding(both[i], both[j]) {
      if i < |a| && |a| <= j { assert a[i] in a && b[j - |a|] in b; }
    }
  }

  lemma {:induction false} AllNoneTwice(services: seq<Entry>, i: nat, addresses: Addresses)
    requires i <= |services| && Distinct(Keys(services)) && BindingsFrom(services, i, addresses).Ok?
    ensures NoneTwice(BindingsFrom(services, i, addresses).value)
    decreases |services| - i
  {
    if i < |services| {
      var first := ServiceBindings(services[i].key, services[i].value, addresses).value;
      var rest := BindingsFrom(services, i + 1, addresses).value;
      ServiceNoneTwice(services[i].key, services[i].value, addresses);
      AllNoneTwice(services, i + 1, addresses);
      forall x, y | x in first && y in rest ensures x.service != y.service {
        var j := ServicesRead(services, i + 1, addresses, y);
        ServiceNoneTwice(services[j].key, services[j].value, addresses);
        assert Keys(services)[i] != Keys(services)[j];
      }
      NoneTwiceAppend(first, rest);
    }
  }

  // ----- the selection

  predicate Matches(b: Binding, port: int) {
    b.loopback && b.target == port
  }

  /** With one binding that matches, the matches are that one. */
  lemma {:induction false} OneMatch(bindings: seq<Binding>, port: int, selected: Binding)
    requires NoneTwice(bindings) && forall b :: b in bindings && Matches(b, port) ==> b == selected
    requires Matches(selected, port)
    ensures Matching(bindings, port) == if selected in bindings then [selected] else []
  {
    if bindings != [] {
      var first, rest := bindings[0], bindings[1..];
      OneMatch(rest, port, selected);
      assert selected in bindings <==> selected == first || selected in rest;
      assert Matching(bindings, port) == (if Matches(first, port) then [first] else []) + Matching(rest, port);
      if first == selected {
        forall j | 0 <= j < |rest| ensures rest[j] != selected { assert !SameBinding(bindings[0], bindings[j + 1]); }
      } else {
        assert !Matches(first, port);
      }
    }
  }

  lemma NoMatch(bindings: seq<Binding>, port: int)
    ensures Matching(bindings, port) == [] <==> forall b :: b in bindings ==> !Matches(b, port)
  {
    forall b ensures b in Matching(bindings, port) <==> b in bindings && Matches(b, port) { MatchingMembers(bindings, port, b); }
    if Matching(bindings, port) != [] { assert Matching(bindings, port)[0] in Matching(bindings, port); }
  }

  /** What is selected depends on which bindings there are, not on their order. */
  lemma SelectedAlike(was: seq<Binding>, now: seq<Binding>, port: int)
    requires NoneTwice(now) && |Matching(was, port)| <= 1 && forall b :: b in was <==> b in now
    ensures Matching(now, port) == Matching(was, port)
    ensures forall b :: SharesPublished(was, b) <==> SharesPublished(now, b)
  {
    NoMatch(was, port);
    NoMatch(now, port);
    if Matching(was, port) != [] {
      var selected := Matching(was, port)[0];
      forall b | b in now && Matches(b, port) ensures b == selected { MatchingMembers(was, port, b); }
      MatchingMembers(was, port, selected);
      OneMatch(now, port, selected);
    }
  }

  // ----- the overlay

  lemma SetMeans(a: seq<Entry>, b: seq<Entry>, key: string, v: Value)
    requires ValidEntries(a) && ValidEntries(b) && MeaningFields(a) == MeaningFields(b)
    ensures MeaningFields(SetEntry(a, key, v)) == MeaningFields(SetEntry(b, key, v))
  {
    SetEntryAgrees(a, key, v);
    SetEntryAgrees(b, key, v);
    var p, q := MeaningFields(SetEntry(a, key, v)), MeaningFields(SetEntry(b, key, v));
    forall k ensures k in p <==> k in q
             ensures k in p ==> p[k] == q[k]
    {
      FieldMeans(a, b, k);
    }
    MapsEqual(p, q);
  }

  lemma WidenMeans(a: Value, b: Value, at: Binding)
    requires Valid(a) && Valid(b) && Meaning(a) == Meaning(b) && (at.short.None? ==> a.Mapping? && b.Mapping?)
    ensures Meaning(WidenEntry(a, at)) == Meaning(WidenEntry(b, at))
  {
    if at.short.None? { SetMeans(a.entries, b.entries, "host_ip", Atom(Str(ANY_HOST))); }
  }

  lemma PortsWidened(a: seq<Value>, b: seq<Value>, i: nat, v: Value, w: Value)
    requires ItemsAlike(a, b) && i < |a| && Meaning(v) == Meaning(w)
    ensures MeaningItems(a[i := v]) == MeaningItems(b[i := w])
  {
    ItemsMean(a[i := v], b[i := w]);
  }

  lemma OneKeyMeans(key: string, a: Value, b: Value)
    requires Meaning(a) == Meaning(b)
    ensures Meaning(Mapping(None, [Entry(key, a)])) == Meaning(Mapping(None, [Entry(key, b)]))
  {
    var p, q := MeaningFields([Entry(key, a)]), MeaningFields([Entry(key, b)]);
    forall k ensures k in p <==> k in q
             ensures k in p ==> p[k] == q[k]
    {
      FieldIs(key, a, k);
      FieldIs(key, b, k);
    }
    MapsEqual(p, q);
  }

  lemma FieldIs(key: string, v: Value, k: string)
    ensures Has([Entry(key, v)], k) <==> k == key
    ensures Get([Entry(key, v)], key) == v
  {
    assert IndexOf([Entry(key, v)], key) == 0;
  }

  lemma OverlayMeans(was: Value, now: Value, b: Binding)
    requires Located(was, b) && Located(now, b) && Meaning(NewPorts(was, b)) == Meaning(NewPorts(now, b))
    ensures Meaning(OverlayFor(was, b)) == Meaning(OverlayFor(now, b))
  {
    var p, q := Mapping(None, [Entry("ports", NewPorts(was, b))]), Mapping(None, [Entry("ports", NewPorts(now, b))]);
    OneKeyMeans("ports", NewPorts(was, b), NewPorts(now, b));
    OneKeyMeans(b.service, p, q);
    OneKeyMeans("services", Mapping(None, [Entry(b.service, p)]), Mapping(None, [Entry(b.service, q)]));
  }

  lemma ItemsValid(doc: Value, b: Binding)
    requires Valid(doc) && Located(doc, b) && CheckServices(doc).Ok?
    ensures b.index < |PortsFor(doc, b)| && Valid(PortsFor(doc, b)[b.index])
  {
    ServicesAreValid(doc);
    assert Valid(ServiceFor(doc, b));
    assert Valid(Get(ServiceFor(doc, b).entries, "ports"));
  }

  lemma NewPortsMean(was: Value, now: Value, b: Binding)
    requires Valid(was) && Valid(now) && Located(was, b) && Located(now, b)
    requires CheckServices(was).Ok? && CheckServices(now).Ok?
    requires ItemsAlike(PortsFor(was, b), PortsFor(now, b))
    ensures Meaning(NewPorts(was, b)) == Meaning(NewPorts(now, b))
  {
    ItemsValid(was, b);
    ItemsValid(now, b);
    var p, q := PortsFor(was, b), PortsFor(now, b);
    WidenMeans(p[b.index], q[b.index], b);
    PortsWidened(p, q, b.index, WidenEntry(p[b.index], b), WidenEntry(q[b.index], b));
  }

  // ----- the plan

  /** The same services, publishing the same. */
  ghost predicate DocumentsAlike(was: Value, now: Value) {
    && HasServices(was) && HasServices(now)
    && Get(now.entries, "services").mark == Get(was.entries, "services").mark
    && ServicesAlike(ServicesOf(was), ServicesOf(now))
  }

  ghost predicate PlansAlike(was: Option<Planned>, now: Option<Planned>) {
    if was.None? then now.None?
    else now.Some? && now.value.selected == was.value.selected && Meaning(now.value.overlay) == Meaning(was.value.overlay)
  }

  lemma PortsAlike(was: Value, now: Value, b: Binding)
    requires DocumentsAlike(was, now) && Located(was, b) && Located(now, b)
    requires PublishAlike(ServiceFor(was, b), ServiceFor(now, b))
    ensures ItemsAlike(PortsFor(was, b), PortsFor(now, b))
  {
    ItemsMean(PortsFor(was, b), PortsFor(now, b));
  }

  lemma BindingsAlike(was: Value, now: Value, addresses: Addresses)
    requires DocumentsAlike(was, now) && AllBindings(was, addresses).Ok?
    ensures AllBindings(now, addresses).Ok? && NoneTwice(AllBindings(now, addresses).value)
    ensures forall b :: b in AllBindings(was, addresses).value <==> b in AllBindings(now, addresses).value
  {
    var p, q := ServicesOf(was), ServicesOf(now);
    assert CheckServices(was) == Ok(p) && CheckServices(now) == Ok(q);
    BindingsOkToo(p, q, addresses);
    AllNoneTwice(q, 0, addresses);
    AlikeBack(p, q);
    forall b ensures b in BindingsFrom(p, 0, addresses).value <==> b in BindingsFrom(q, 0, addresses).value {
      BindingThere(p, q, addresses, b);
      BindingThere(q, p, addresses, b);
    }
  }

  lemma OverlaysAlike(was: Value, now: Value, addresses: Addresses, b: Binding)
    requires DocumentsAlike(was, now) && Valid(was) && Valid(now)
    requires AllBindings(was, addresses).Ok? && AllBindings(now, addresses).Ok?
    requires b in AllBindings(was, addresses).value && b in AllBindings(now, addresses).value
    ensures Located(was, b) && Located(now, b) && Meaning(OverlayFor(was, b)) == Meaning(OverlayFor(now, b))
  {
    BindingIsRead(was, addresses, b);
    BindingIsRead(now, addresses, b);
    assert PublishAlike(Get(ServicesOf(was), b.service), Get(ServicesOf(now), b.service));
    PortsAlike(was, now, b);
    NewPortsMean(was, now, b);
    OverlayMeans(was, now, b);
  }

  /** Files whose services publish the same are planned for alike: no overlay for either, or the same binding widened in
      overlays that are equal up to the order of keys. */
  lemma PlanDependsOnPublishing(was: Value, now: Value, port: int, addresses: Addresses)
    requires Valid(was) && Valid(now) && DocumentsAlike(was, now) && PlanOverlay(was, port, addresses).Ok?
    ensures PlanOverlay(now, port, addresses).Ok?
    ensures PlansAlike(PlanOverlay(was, port, addresses).value, PlanOverlay(now, port, addresses).value)
  {
    BindingsAlike(was, now, addresses);
    var p, q := AllBindings(was, addresses).value, AllBindings(now, addresses).value;
    SelectedAlike(p, q, port);
    if Matching(p, port) != [] {
      var selected := Matching(p, port)[0];
      MatchingMembers(p, port, selected);
      OverlaysAlike(was, now, addresses, selected);
    }
  }
}
