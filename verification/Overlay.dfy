/** The override file that turns a baseline Compose document into a candidate. */
module Overlay {
  import opened Basics
  import opened ComposeValues
  import opened ComposeMerge

  const MAX_OPEN_COLLECTIONS: nat := 128

  datatype MutationError =
    | InvalidComposeMapping
    | InvalidCandidate
    | ChangesOutsideServices
    | InvalidServices
    | ChangesServices
    | ServicesNotMappings
    | NothingChanged
    | NestingLimit
    | CandidateUnchanged

  // ----- comparing values

  /** The comparison both sides of `_same_value` go through: a one-key mapping each. */
  function Wrapped(v: Value): Value {
    Mapping(None, [Entry("value", v)])
  }

  function CompareValues(left: Value, right: Value): Result<bool, MutationError> {
    var l, r := CanonicalForm(Wrapped(left)), CanonicalForm(Wrapped(right));
    if l.Ok? && r.Ok? then Ok(l.value == r.value) else Err(InvalidComposeMapping)
  }

  /** The comparison when both sides can be canonicalised. */
  predicate Same(left: Value, right: Value) {
    CanonOf(left) == CanonOf(right)
  }

  ghost predicate Comparable(v: Value) {
    Supported(v) && Nodes(CanonOf(v)) + 2 <= MAX_SEMANTIC_NODES
  }

  lemma CompareIsSame(left: Value, right: Value)
    requires Valid(left) && Valid(right)
    ensures Comparable(left) && Comparable(right) ==> CompareValues(left, right) == Ok(Same(left, right))
    ensures !(Comparable(left) && Comparable(right)) ==> CompareValues(left, right) == Err(InvalidComposeMapping)
  {
    WrappedForm(left);
    WrappedForm(right);
  }

  lemma WrappedEntries(v: Value)
    ensures var entries := [Entry("value", v)];
            SortedKeys(entries) == ["value"] && Has(entries, "value") && Get(entries, "value") == v
  {
    var entries := [Entry("value", v)];
    assert Keys(entries) == ["value"];
    assert Sorted(["value"]) == Insert("value", Sorted([]));
  }

  lemma WrappedCanon(v: Value)
    ensures CanonOf(Wrapped(v)) == CMap(None, [Pair("value", CanonOf(v))])
  {
    WrappedEntries(v);
    assert CanonPairs(["value"], [Entry("value", v)]) == [Pair("value", CanonOf(v))];
  }

  lemma WrappedNodes(c: Canon)
    ensures Nodes(CMap(None, [Pair("value", c)])) == 2 + Nodes(c)
  {
    var pairs := [Pair("value", c)];
    NodesOfPairsStep(pairs, 0);
    assert pairs[..1] == pairs && pairs[..0] == [];
  }

  lemma WrappedForm(v: Value)
    ensures CanonicalForm(Wrapped(v)).Ok? <==> Comparable(v)
    ensures CanonOf(Wrapped(v)) == CMap(None, [Pair("value", CanonOf(v))])
  {
    WrappedCanon(v);
    WrappedNodes(CanonOf(v));
    assert Supported(Wrapped(v)) <==> Supported(v) by {
      assert Wrapped(v).entries[0].value == v;
    }
  }

  lemma PairNodes(mark: Option<string>, pairs: seq<Pair>, i: nat, node: Canon)
    requires i < |pairs| && pairs[i].node == node
    ensures Nodes(node) + 2 <= Nodes(CMap(mark, pairs))
  {
    NodesOfPairsStep(pairs, i);
    NodesOfPairsPrefix(pairs, i + 1);
  }

  lemma ChildPair(entries: seq<Entry>, key: string, pairs: seq<Pair>) returns (i: nat)
    requires Has(entries, key) && pairs == CanonPairs(SortedKeys(entries), entries)
    ensures i < |pairs| && pairs[i] == Pair(key, CanonOf(Get(entries, key)))
  {
    var keys := SortedKeys(entries);
    i :| 0 <= i < |keys| && keys[i] == key;
  }

  lemma ChildNodes(mark: Option<string>, entries: seq<Entry>, key: string, pairs: seq<Pair>, node: Canon)
    requires Has(entries, key) && pairs == CanonPairs(SortedKeys(entries), entries) && node == CanonOf(Get(entries, key))
    ensures Nodes(node) + 2 <= Nodes(CMap(mark, pairs))
  {
    var i := ChildPair(entries, key, pairs);
    PairNodes(mark, pairs, i, node);
  }

  /** What the document comparison admits, every comparison inside it admits too. */
  lemma {:induction false} ChildComparable(m: Value, key: string)
    requires m.Mapping? && ValidEntries(m.entries) && Has(m.entries, key)
    requires Supported(m) && Nodes(CanonOf(m)) <= MAX_SEMANTIC_NODES
    ensures Comparable(Get(m.entries, key))
  {
    ChildNodes(m.mark, m.entries, key, CanonPairs(SortedKeys(m.entries), m.entries), CanonOf(Get(m.entries, key)));
    assert Supported(m.entries[IndexOf(m.entries, key)].value);
  }

  // ----- the diff of two service mappings

  function ResetEntry(key: string): Entry {
    Entry(key, Tagged("!reset", Null))
  }

  function OverrideValue(v: Value): Value {
    if v.List? then List(Some("!override"), v.items) else v
  }

  function Resets(base: seq<Entry>, candidate: seq<Entry>): seq<Entry> {
    if base == [] then [] else
      var last := base[|base| - 1];
      Resets(base[..|base| - 1], candidate) + (if Has(candidate, last.key) then [] else [ResetEntry(last.key)])
  }

  predicate Recurses(base: seq<Entry>, e: Entry) {
    Has(base, e.key) && Get(base, e.key).Mapping? && e.value.Mapping? && TagOf(e.value) == None
  }

  /** What one candidate entry adds to the changes: nothing when it is the baseline's. */
  function Edit(base: seq<Entry>, e: Entry, depth: nat): Result<seq<Entry>, MutationError>
    decreases e, 1
  {
    var same := if Has(base, e.key) then CompareValues(Get(base, e.key), e.value) else Ok(false);
    match same
    case Err(error) => Err(error)
    case Ok(true) => Ok([])
    case Ok(false) =>
      if Recurses(base, e) then
        match ServiceChanges(Get(base, e.key).entries, e.value.entries, depth + 1)
        case Err(error) => Err(error)
        case Ok(nested) => Ok([Entry(e.key, Mapping(None, nested))])
      else Ok([Entry(e.key, OverrideValue(e.value))])
  }

  function Edits(base: seq<Entry>, candidate: seq<Entry>, depth: nat): Result<seq<Entry>, MutationError>
    decreases candidate, 0
  {
    if candidate == [] then Ok([]) else
      match Edits(base, candidate[..|candidate| - 1], depth)
      case Err(error) => Err(error)
      case Ok(before) =>
        match Edit(base, candidate[|candidate| - 1], depth)
        case Err(error) => Err(error)
        case Ok(entry) => Ok(before + entry)
  }

  function ServiceChanges(base: seq<Entry>, candidate: seq<Entry>, depth: nat): Result<seq<Entry>, MutationError>
    decreases candidate, 2
  {
    if depth >= MAX_OPEN_COLLECTIONS then Err(NestingLimit) else
      match Edits(base, candidate, depth)
      case Err(error) => Err(error)
      case Ok(edits) =>
        var changes := Resets(base, candidate) + edits;
        if changes == [] then Err(CandidateUnchanged) else Ok(changes)
  }

  // ----- the same diff as the source builds it, entry by entry

  method BuildServiceChanges(base: seq<Entry>, candidate: seq<Entry>, depth: nat)
    returns (r: Result<seq<Entry>, MutationError>)
    requires ValidEntries(base) && ValidEntries(candidate)
    ensures r == ServiceChanges(base, candidate, depth)
    decreases candidate, 1
  {
    if depth >= MAX_OPEN_COLLECTIONS { return Err(NestingLimit); }
    var changes: seq<Entry> := [];
    for i := 0 to |base|
      invariant changes == Resets(base[..i], candidate)
    {
      PrefixStep(base, i);
      if !Has(candidate, base[i].key) {
        changes := changes + [ResetEntry(base[i].key)];
      }
    }
    assert base[..|base|] == base;
    ghost var resets := changes;
    for i := 0 to |candidate|
      invariant Edits(base, candidate[..i], depth).Ok?
      invariant changes == resets + Edits(base, candidate[..i], depth).value
    {
      EditsStep(base, candidate, i, depth);
      var entry := BuildEdit(base, candidate[i], depth);
      if entry.Err? { return Err(entry.error); }
      changes := changes + entry.value;
    }
    assert candidate[..|candidate|] == candidate;
    r := if changes == [] then Err(CandidateUnchanged) else Ok(changes);
  }

  method BuildEdit(base: seq<Entry>, e: Entry, depth: nat) returns (r: Result<seq<Entry>, MutationError>)
    requires ValidEntries(base) && Valid(e.value)
    ensures r == Edit(base, e, depth)
    decreases e, 0
  {
    var same := Ok(false);
    if Has(base, e.key) { same := Compare(Get(base, e.key), e.value); }
    if same.Err? { return Err(same.error); }
    if same.value { return Ok([]); }
    if Recurses(base, e) {
      var nested := BuildServiceChanges(Get(base, e.key).entries, e.value.entries, depth + 1);
      if nested.Err? { return Err(nested.error); }
      r := Ok([Entry(e.key, Mapping(None, nested.value))]);
    } else {
      r := Ok([Entry(e.key, OverrideValue(e.value))]);
    }
  }

  lemma EditsStep(base: seq<Entry>, candidate: seq<Entry>, i: nat, depth: nat)
    requires i < |candidate| && Edits(base, candidate[..i], depth).Ok?
    ensures match Edit(base, candidate[i], depth)
            case Err(error) => Edits(base, candidate, depth) == Err(error)
            case Ok(entry) =>
              Edits(base, candidate[..i + 1], depth) == Ok(Edits(base, candidate[..i], depth).value + entry)
  {
    PrefixStep(candidate, i);
    EditsFailEarly(base, candidate, i + 1, depth);
  }

  method Compare(left: Value, right: Value) returns (r: Result<bool, MutationError>)
    requires Valid(left) && Valid(right)
    ensures r == CompareValues(left, right)
  {
    assert Keys([Entry("value", left)]) == ["value"] && Keys([Entry("value", right)]) == ["value"];
    var l := CanonicalTree(Wrapped(left));
    var c := CanonicalTree(Wrapped(right));
    r := if l.Ok? && c.Ok? then Ok(l.value == c.value) else Err(InvalidComposeMapping);
  }

  lemma {:induction false} EditsFailEarly(base: seq<Entry>, candidate: seq<Entry>, n: nat, depth: nat)
    requires n <= |candidate|
    ensures Edits(base, candidate[..n], depth).Err? ==>
              Edits(base, candidate, depth) == Edits(base, candidate[..n], depth)
    decreases |candidate| - n
  {
    if n == |candidate| {
      assert candidate[..n] == candidate;
    } else {
      EditsFailEarly(base, candidate, n + 1, depth);
      PrefixStep(candidate, n);
    }
  }

  // ----- whole documents

  predicate SameKeys(a: seq<Entry>, b: seq<Entry>) {
    && (forall i :: 0 <= i < |a| ==> Has(b, a[i].key))
    && (forall i :: 0 <= i < |b| ==> Has(a, b[i].key))
  }

  /** Comparing every top-level value but the services, in order, stopping at the first failure. */
  function OutsideServices(base: seq<Entry>, candidate: seq<Entry>): Result<(), MutationError>
    requires forall i :: 0 <= i < |base| ==> Has(candidate, base[i].key)
  {
    if base == [] then Ok(()) else
      var last := base[|base| - 1];
      match OutsideServices(base[..|base| - 1], candidate)
      case Err(error) => Err(error)
      case Ok(_) =>
        if last.key == "services" then Ok(()) else
          match CompareValues(last.value, Get(candidate, last.key))
          case Err(error) => Err(error)
          case Ok(same) => if same then Ok(()) else Err(ChangesOutsideServices)
  }

  function ChangedAmong(base: seq<Entry>, candidate: seq<Entry>): Result<seq<string>, MutationError>
    requires forall i :: 0 <= i < |base| ==> Has(candidate, base[i].key)
  {
    if base == [] then Ok([]) else
      var last := base[|base| - 1];
      match ChangedAmong(base[..|base| - 1], candidate)
      case Err(error) => Err(error)
      case Ok(before) =>
        match CompareValues(last.value, Get(candidate, last.key))
        case Err(error) => Err(error)
        case Ok(same) => Ok(before + (if same then [] else [last.key]))
  }

  predicate AllMappings(entries: seq<Entry>) {
    forall i :: 0 <= i < |entries| ==> entries[i].value.Mapping?
  }

  function ServicesOf(doc: Value): seq<Entry> {
    if doc.Mapping? && Has(doc.entries, "services") && Get(doc.entries, "services").Mapping?
    then Get(doc.entries, "services").entries
    else []
  }

  predicate Canonicalisable(doc: Value) {
    doc.Mapping? && CanonicalForm(Mapping(None, doc.entries)).Ok?
  }

  /** The checks on everything around the services. */
  function CheckFrame(base: Value, candidate: Value): (r: Result<(), MutationError>)
    ensures r.Ok? ==> AllMappings(ServicesOf(base)) && AllMappings(ServicesOf(candidate))
    ensures r.Ok? ==> SameKeys(ServicesOf(base), ServicesOf(candidate))
  {
    if !Canonicalisable(base) || !Canonicalisable(candidate) then Err(InvalidComposeMapping)
    else if !SameKeys(base.entries, candidate.entries) || !Has(base.entries, "services") then Err(InvalidCandidate)
    else
      match OutsideServices(base.entries, candidate.entries)
      case Err(error) => Err(error)
      case Ok(_) =>
        assert Has(candidate.entries, "services") by {
          assert Has(candidate.entries, base.entries[IndexOf(base.entries, "services")].key);
        }
        if !Get(base.entries, "services").Mapping? || !Get(candidate.entries, "services").Mapping?
        then Err(InvalidServices)
        else if !SameKeys(ServicesOf(base), ServicesOf(candidate)) then Err(ChangesServices)
        else if !AllMappings(ServicesOf(base)) || !AllMappings(ServicesOf(candidate)) then Err(ServicesNotMappings)
        else Ok(())
  }

  function ChangedServices(base: Value, candidate: Value): Result<seq<string>, MutationError> {
    match CheckFrame(base, candidate)
    case Err(error) => Err(error)
    case Ok(_) => ChangedAmong(ServicesOf(base), ServicesOf(candidate))
  }

  predicate ServicesKnown(names: seq<string>, was: seq<Entry>, now: seq<Entry>) {
    forall i :: 0 <= i < |names| ==>
      Has(was, names[i]) && Has(now, names[i]) && Get(was, names[i]).Mapping? && Get(now, names[i]).Mapping?
  }

  function OverlayServices(names: seq<string>, was: seq<Entry>, now: seq<Entry>): Result<seq<Entry>, MutationError>
    requires ServicesKnown(names, was, now)
  {
    if names == [] then Ok([]) else
      var last := names[|names| - 1];
      match OverlayServices(names[..|names| - 1], was, now)
      case Err(error) => Err(error)
      case Ok(before) =>
        match ServiceChanges(Get(was, last).entries, Get(now, last).entries, 0)
        case Err(error) => Err(error)
        case Ok(changes) => Ok(before + [Entry(last, Mapping(None, changes))])
  }

  function OverlayDocument(services: seq<Entry>): Value {
    Mapping(None, [Entry("services", Mapping(None, services))])
  }

  lemma {:induction false} ChangedAmongKnown(was: seq<Entry>, now: seq<Entry>)
    requires Distinct(Keys(was)) && AllMappings(was) && AllMappings(now)
    requires forall i :: 0 <= i < |was| ==> Has(now, was[i].key)
    requires ChangedAmong(was, now).Ok?
    ensures ServicesKnown(ChangedAmong(was, now).value, was, now)
  {
    if was != [] {
      var n := |was| - 1;
      DistinctInit(was);
      ChangedAmongKnown(was[..n], now);
      GetAt(was, n);
      var names := ChangedAmong(was[..n], now).value;
      forall i | 0 <= i < |names|
        ensures Has(was, names[i]) && Get(was, names[i]).Mapping?
      {
        var j := IndexOf(was[..n], names[i]);
        GetAt(was, j);
      }
    }
  }

  /** What `_changed_services` has checked by the time it returns. */
  lemma ChangedServicesKnown(base: Value, candidate: Value)
    requires Valid(base) && ChangedServices(base, candidate).Ok?
    ensures ServicesKnown(ChangedServices(base, candidate).value, ServicesOf(base), ServicesOf(candidate))
  {
    ServicesValid(base);
    ChangedAmongKnown(ServicesOf(base), ServicesOf(candidate));
  }

  /** The override of every changed service, `write_overlay`'s being the one-service case. */
  function CumulativeOverlay(base: Value, candidate: Value): Result<Value, MutationError>
    requires Valid(base) && Valid(candidate)
  {
    match ChangedServices(base, candidate)
    case Err(error) => Err(error)
    case Ok(changed) =>
      if changed == [] then Err(NothingChanged) else
        ChangedServicesKnown(base, candidate);
        match OverlayServices(changed, ServicesOf(base), ServicesOf(candidate))
        case Err(error) => Err(error)
        case Ok(services) => Ok(OverlayDocument(services))
  }

  function SingleServiceOverlay(base: Value, candidate: Value): Result<Value, MutationError>
    requires Valid(base) && Valid(candidate)
  {
    match ChangedServices(base, candidate)
    case Err(error) => Err(error)
    case Ok(changed) => if |changed| != 1 then Err(NothingChanged) else CumulativeOverlay(base, candidate)
  }

  method BuildCumulativeOverlay(base: Value, candidate: Value) returns (r: Result<Value, MutationError>)
    requires Valid(base) && Valid(candidate)
    ensures r == CumulativeOverlay(base, candidate)
  {
    var changed := ChangedServices(base, candidate);
    if changed.Err? { return Err(changed.error); }
    if changed.value == [] { return Err(NothingChanged); }
    ChangedServicesKnown(base, candidate);
    ServicesValid(base);
    ServicesValid(candidate);
    var services := BuildOverlayServices(changed.value, ServicesOf(base), ServicesOf(candidate));
    r := match services case Err(error) => Err(error) case Ok(value) => Ok(OverlayDocument(value));
  }

  lemma ServicesValid(doc: Value)
    requires Valid(doc)
    ensures ValidEntries(ServicesOf(doc))
  {
    if ServicesOf(doc) != [] {
      assert Valid(doc.entries[IndexOf(doc.entries, "services")].value);
    }
  }

  method BuildOverlayServices(names: seq<string>, was: seq<Entry>, now: seq<Entry>)
    returns (r: Result<seq<Entry>, MutationError>)
    requires ServicesKnown(names, was, now) && ValidEntries(was) && ValidEntries(now)
    ensures r == OverlayServices(names, was, now)
  {
    var services: seq<Entry> := [];
    for i := 0 to |names|
      invariant OverlayServices(names[..i], was, now) == Ok(services)
    {
      PrefixStep(names, i);
      OverlayServicesFailEarly(names, i + 1, was, now);
      var changes := BuildServiceChanges(Get(was, names[i]).entries, Get(now, names[i]).entries, 0);
      if changes.Err? { return Err(changes.error); }
      services := services + [Entry(names[i], Mapping(None, changes.value))];
    }
    assert names[..|names|] == names;
    r := Ok(services);
  }

  lemma {:induction false} OverlayServicesFailEarly(names: seq<string>, n: nat, was: seq<Entry>, now: seq<Entry>)
    requires ServicesKnown(names, was, now) && n <= |names|
    ensures OverlayServices(names[..n], was, now).Err? ==>
              OverlayServices(names, was, now) == OverlayServices(names[..n], was, now)
    decreases |names| - n
  {
    if n == |names| {
      assert names[..n] == names;
    } else {
      OverlayServicesFailEarly(names, n + 1, was, now);
      PrefixStep(names, n);
    }
  }
}
