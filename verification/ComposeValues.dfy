/** The tree a Compose file is loaded into, and its canonical form.

    A mapping keeps Python's insertion order and its distinct keys; an alias is
    read as the value it stands for. */
module ComposeValues {
  import opened Basics

  const MAX_SEMANTIC_NODES: nat := 100_000
  const ALLOWED_TAGS: set<string> := {"!reset", "!override"}

  /** `Float` keeps Python's `repr`; `Foreign` is any scalar type the parser does not know. */
  datatype Scalar =
    | Null
    | Bool(b: bool)
    | Int(n: int)
    | Float(repr: string)
    | NonFinite
    | Str(s: string)
    | Foreign

  datatype Entry = Entry(key: string, value: Value)

  datatype Value =
    | Atom(scalar: Scalar)
    | Tagged(tag: string, scalar: Scalar)
    | List(mark: Option<string>, items: seq<Value>)
    | Mapping(mark: Option<string>, entries: seq<Entry>)

  function TagOf(v: Value): Option<string> {
    match v
    case Atom(_) => None
    case Tagged(tag, _) => Some(tag)
    case List(mark, _) => mark
    case Mapping(mark, _) => mark
  }

  function Keys(entries: seq<Entry>): (keys: seq<string>)
    ensures |keys| == |entries|
    ensures forall i :: 0 <= i < |entries| ==> keys[i] == entries[i].key
  {
    seq(|entries|, i requires 0 <= i < |entries| => entries[i].key)
  }

  function IndexOf(entries: seq<Entry>, key: string): (r: int)
    ensures -1 <= r < |entries|
    ensures r >= 0 ==> entries[r].key == key
    ensures r < 0 ==> forall i :: 0 <= i < |entries| ==> entries[i].key != key
  {
    if entries == [] then -1
    else if entries[|entries| - 1].key == key then |entries| - 1
    else IndexOf(entries[..|entries| - 1], key)
  }

  predicate Has(entries: seq<Entry>, key: string) {
    IndexOf(entries, key) >= 0
  }

  function Get(entries: seq<Entry>, key: string): Value
    requires Has(entries, key)
  {
    entries[IndexOf(entries, key)].value
  }

  /** What a Python dict guarantees at every level: no key twice. */
  ghost predicate Valid(v: Value) {
    match v
    case Atom(_) => true
    case Tagged(_, _) => true
    case List(_, items) => forall i :: 0 <= i < |items| ==> Valid(items[i])
    case Mapping(_, entries) => ValidEntries(entries)
  }

  ghost predicate ValidEntries(entries: seq<Entry>) {
    && Distinct(Keys(entries))
    && forall i :: 0 <= i < |entries| ==> Valid(entries[i].value)
  }

  lemma GetAt(entries: seq<Entry>, i: nat)
    requires Distinct(Keys(entries)) && i < |entries|
    ensures Has(entries, entries[i].key) && Get(entries, entries[i].key) == entries[i].value
  {
    var j := IndexOf(entries, entries[i].key);
    assert Keys(entries)[i] == entries[i].key;
    assert Keys(entries)[j] == entries[j].key;
  }

  lemma HasIffKey(entries: seq<Entry>, key: string)
    ensures Has(entries, key) <==> key in Keys(entries)
  {
    var j := IndexOf(entries, key);
    if j >= 0 { assert Keys(entries)[j] == key; }
  }

  // ----- meaning: a tree up to mapping key order

  datatype Sem =
    | SAtom(scalar: Scalar)
    | STagged(tag: string, scalar: Scalar)
    | SList(mark: Option<string>, items: seq<Sem>)
    | SMap(mark: Option<string>, fields: map<string, Sem>)

  ghost function Meaning(v: Value): Sem {
    match v
    case Atom(s) => SAtom(s)
    case Tagged(tag, s) => STagged(tag, s)
    case List(mark, items) => SList(mark, MeaningItems(items))
    case Mapping(mark, entries) => SMap(mark, MeaningFields(entries))
  }

  ghost function MeaningItems(items: seq<Value>): (r: seq<Sem>)
    ensures |r| == |items|
    ensures forall i :: 0 <= i < |items| ==> r[i] == Meaning(items[i])
  {
    if items == [] then [] else
      MeaningItems(items[..|items| - 1]) + [Meaning(items[|items| - 1])]
  }

  ghost function MeaningFields(entries: seq<Entry>): (r: map<string, Sem>)
    ensures forall k :: k in r <==> Has(entries, k)
    ensures forall k :: k in r ==> r[k] == Meaning(Get(entries, k))
  {
    if entries == [] then map[] else
      var last := entries[|entries| - 1];
      MeaningFields(entries[..|entries| - 1])[last.key := Meaning(last.value)]
  }

  // ----- the canonical tree

  datatype Canon =
    | CAtom(scalar: Scalar)
    | CTagged(tag: string, inner: Canon)
    | CSeq(mark: Option<string>, items: seq<Canon>)
    | CMap(mark: Option<string>, pairs: seq<Pair>)

  datatype Pair = Pair(key: string, node: Canon)

  function CanonOf(v: Value): Canon
    decreases v, 0
  {
    match v
    case Atom(s) => CAtom(s)
    case Tagged(tag, s) => CTagged(tag, CAtom(s))
    case List(mark, items) => CSeq(mark, CanonItems(items))
    case Mapping(mark, entries) => CMap(mark, CanonPairs(SortedKeys(entries), entries))
  }

  function SortedKeys(entries: seq<Entry>): (keys: seq<string>)
    ensures |keys| == |entries|
    ensures forall k :: k in keys <==> Has(entries, k)
  {
    assert forall k :: k in Keys(entries) <==> Has(entries, k) by {
      forall k { HasIffKey(entries, k); }
    }
    Sorted(Keys(entries))
  }

  function CanonItems(items: seq<Value>): (r: seq<Canon>)
    ensures |r| == |items|
    ensures forall i :: 0 <= i < |items| ==> r[i] == CanonOf(items[i])
    decreases items, 0
  {
    if items == [] then [] else
      CanonItems(items[..|items| - 1]) + [CanonOf(items[|items| - 1])]
  }

  function CanonPairs(keys: seq<string>, entries: seq<Entry>): (r: seq<Pair>)
    requires forall k :: k in keys ==> Has(entries, k)
    ensures |r| == |keys|
    ensures forall i :: 0 <= i < |keys| ==> r[i] == Pair(keys[i], CanonOf(Get(entries, keys[i])))
    decreases entries, |keys|
  {
    if keys == [] then [] else
      var n := |keys| - 1;
      CanonPairs(keys[..n], entries) + [Pair(keys[n], CanonOf(Get(entries, keys[n])))]
  }

  /** Values plus keys of a canonical tree. */
  function Nodes(c: Canon): (n: nat)
    ensures n >= 1
  {
    match c
    case CAtom(_) => 1
    case CTagged(_, inner) => 1 + Nodes(inner)
    case CSeq(_, items) => 1 + NodesOfItems(items)
    case CMap(_, pairs) => 1 + NodesOfPairs(pairs)
  }

  function NodesOfItems(items: seq<Canon>): nat {
    if items == [] then 0 else
      NodesOfItems(items[..|items| - 1]) + Nodes(items[|items| - 1])
  }

  function NodesOfPairs(pairs: seq<Pair>): nat {
    if pairs == [] then 0 else
      NodesOfPairs(pairs[..|pairs| - 1]) + 1 + Nodes(pairs[|pairs| - 1].node)
  }

  predicate TagAllowed(tag: Option<string>) {
    tag.Some? ==> tag.value in ALLOWED_TAGS
  }

  predicate ScalarSupported(s: Scalar) {
    !s.NonFinite? && !s.Foreign?
  }

  /** Every tag and scalar is one the parser knows. */
  predicate Supported(v: Value) {
    && TagAllowed(TagOf(v))
    && match v
       case Atom(s) => ScalarSupported(s)
       case Tagged(_, s) => ScalarSupported(s)
       case List(_, items) => forall i :: 0 <= i < |items| ==> Supported(items[i])
       case Mapping(_, entries) => SupportedEntries(entries)
  }

  predicate SupportedEntries(entries: seq<Entry>) {
    forall i :: 0 <= i < |entries| ==> Supported(entries[i].value)
  }

  predicate SupportedAt(entries: seq<Entry>, key: string)
    requires Has(entries, key)
  {
    Supported(Get(entries, key))
  }

  // ----- canonical form is meaning

  lemma {:induction false} SameCanonSameMeaning(a: Value, b: Value)
    requires Valid(a) && Valid(b) && CanonOf(a) == CanonOf(b)
    ensures Meaning(a) == Meaning(b)
    decreases a
  {
    match a
    case Atom(_) =>
    case Tagged(_, _) =>
    case List(_, items) =>
      forall i | 0 <= i < |items|
        ensures Meaning(items[i]) == Meaning(b.items[i])
      {
        assert CanonItems(items)[i] == CanonItems(b.items)[i];
        SameCanonSameMeaning(items[i], b.items[i]);
      }
      assert MeaningItems(items) == MeaningItems(b.items);
    case Mapping(_, entries) =>
      var ks := SortedKeys(entries);
      SamePairs(ks, entries, SortedKeys(b.entries), b.entries);
      forall k | k in ks
        ensures Meaning(Get(entries, k)) == Meaning(Get(b.entries, k))
      {
        SameCanonSameMeaning(Get(entries, k), Get(b.entries, k));
      }
      assert MeaningFields(entries) == MeaningFields(b.entries);
  }

  lemma SamePairs(ks: seq<string>, a: seq<Entry>, ls: seq<string>, b: seq<Entry>)
    requires forall k :: k in ks ==> Has(a, k)
    requires forall k :: k in ls ==> Has(b, k)
    requires CanonPairs(ks, a) == CanonPairs(ls, b)
    ensures ks == ls
    ensures forall k :: k in ks ==> CanonOf(Get(a, k)) == CanonOf(Get(b, k))
  {
    var ps, qs := CanonPairs(ks, a), CanonPairs(ls, b);
    assert |ks| == |ls|;
    forall i | 0 <= i < |ks|
      ensures ks[i] == ls[i] && CanonOf(Get(a, ks[i])) == CanonOf(Get(b, ks[i]))
    {
      assert ps[i] == qs[i];
    }
  }

  lemma {:induction false} SameMeaningSameCanon(a: Value, b: Value)
    requires Valid(a) && Valid(b) && Meaning(a) == Meaning(b)
    ensures CanonOf(a) == CanonOf(b)
    decreases a
  {
    match a
    case Atom(_) =>
    case Tagged(_, _) =>
    case List(_, items) =>
      forall i | 0 <= i < |items|
        ensures CanonOf(items[i]) == CanonOf(b.items[i])
      {
        assert MeaningItems(items)[i] == MeaningItems(b.items)[i];
        SameMeaningSameCanon(items[i], b.items[i]);
      }
      assert CanonItems(items) == CanonItems(b.items);
    case Mapping(_, entries) =>
      SameKeysSorted(entries, b.entries);
      var ks := SortedKeys(entries);
      forall k | k in ks
        ensures CanonOf(Get(entries, k)) == CanonOf(Get(b.entries, k))
      {
        assert MeaningFields(entries)[k] == MeaningFields(b.entries)[k];
        SameMeaningSameCanon(Get(entries, k), Get(b.entries, k));
      }
      assert CanonPairs(ks, entries) == CanonPairs(ks, b.entries);
  }

  lemma SameKeysSorted(a: seq<Entry>, b: seq<Entry>)
    requires ValidEntries(a) && ValidEntries(b)
    requires MeaningFields(a).Keys == MeaningFields(b).Keys
    ensures SortedKeys(a) == SortedKeys(b)
  {
    forall k ensures k in Keys(a) <==> k in Keys(b) {
      HasIffKey(a, k);
      HasIffKey(b, k);
      assert k in MeaningFields(a) <==> k in MeaningFields(b);
    }
    SortedOfSameSet(Keys(a), Keys(b));
  }

  /** Two trees have the same canonical tree iff they differ in key order only. */
  lemma CanonicalIffSameUpToKeyOrder(a: Value, b: Value)
    requires Valid(a) && Valid(b)
    ensures CanonOf(a) == CanonOf(b) <==> Meaning(a) == Meaning(b)
  {
    if CanonOf(a) == CanonOf(b) { SameCanonSameMeaning(a, b); }
    if Meaning(a) == Meaning(b) { SameMeaningSameCanon(a, b); }
  }

  /** Support is a property of the canonical tree, so key order cannot change it. */
  lemma {:induction false} SameMeaningSameSupport(a: Value, b: Value)
    requires Valid(a) && Valid(b) && Meaning(a) == Meaning(b) && Supported(a)
    ensures Supported(b)
    decreases a
  {
    match a
    case Atom(_) =>
    case Tagged(_, _) =>
    case List(_, items) =>
      forall i | 0 <= i < |items|
        ensures Supported(b.items[i])
      {
        assert MeaningItems(items)[i] == MeaningItems(b.items)[i];
        SameMeaningSameSupport(items[i], b.items[i]);
      }
    case Mapping(_, entries) =>
      forall i | 0 <= i < |b.entries|
        ensures Supported(b.entries[i].value)
      {
        var k := b.entries[i].key;
        GetAt(b.entries, i);
        assert k in MeaningFields(b.entries);
        assert MeaningFields(entries)[k] == MeaningFields(b.entries)[k];
        SameMeaningSameSupport(Get(entries, k), Get(b.entries, k));
      }
  }

  // ----- the budgeted canonicaliser

  datatype ParseError = ResourceLimit | UnsupportedTag | UnsupportedValue | NonFiniteFloat | RootNotMapping

  class NodeBudget {
    var count: nat

    constructor ()
      ensures count == 0
    {
      count := 0;
    }

    method Consume() returns (ok: bool)
      modifies this
      ensures count == old(count) + 1
      ensures ok <==> count <= MAX_SEMANTIC_NODES
    {
      count := count + 1;
      ok := count <= MAX_SEMANTIC_NODES;
    }
  }

  method CanonicalScalar(s: Scalar) returns (r: Result<Canon, ParseError>)
    ensures r == if s.NonFinite? then Err(NonFiniteFloat)
                 else if s.Foreign? then Err(UnsupportedValue)
                 else Ok(CAtom(s))
  {
    match s
    case NonFinite => r := Err(NonFiniteFloat);
    case Foreign => r := Err(UnsupportedValue);
    case _ => r := Ok(CAtom(s));
  }

  /** Succeeds exactly on supported values that fit what is left of the budget, and
      then uses up exactly the values plus keys of the canonical tree. */
  method CanonicalNode(v: Value, budget: NodeBudget) returns (r: Result<Canon, ParseError>)
    requires Valid(v)
    modifies budget
    ensures r.Ok? <==> Supported(v) && old(budget.count) + Nodes(CanonOf(v)) <= MAX_SEMANTIC_NODES
    ensures r.Ok? ==> r.value == CanonOf(v) && budget.count == old(budget.count) + Nodes(CanonOf(v))
    ensures r.Err? && Supported(v) ==> r.error == ResourceLimit
    decreases v, 0
  {
    var ok := budget.Consume();
    if !ok { return Err(ResourceLimit); }
    match v
    case Atom(s) =>
      r := CanonicalScalar(s);
    case Tagged(tag, s) =>
      if tag !in ALLOWED_TAGS { return Err(UnsupportedTag); }
      ok := budget.Consume();
      if !ok { return Err(ResourceLimit); }
      var inner := CanonicalScalar(s);
      r := match inner case Ok(c) => Ok(CTagged(tag, c)) case Err(e) => Err(e);
    case List(mark, items) =>
      if !TagAllowed(mark) { return Err(UnsupportedTag); }
      var cs := CanonicalSequence(items, budget);
      r := match cs case Ok(value) => Ok(CSeq(mark, value)) case Err(e) => Err(e);
    case Mapping(mark, entries) =>
      if !TagAllowed(mark) { return Err(UnsupportedTag); }
      var ps := CanonicalMapping(entries, budget);
      r := match ps case Ok(value) => Ok(CMap(mark, value)) case Err(e) => Err(e);
  }

  predicate SupportedItems(items: seq<Value>, n: nat)
    requires n <= |items|
  {
    forall i :: 0 <= i < n ==> Supported(items[i])
  }

  method CanonicalSequence(items: seq<Value>, budget: NodeBudget) returns (r: Result<seq<Canon>, ParseError>)
    requires forall i :: 0 <= i < |items| ==> Valid(items[i])
    requires budget.count <= MAX_SEMANTIC_NODES
    modifies budget
    ensures r.Ok? <==> SupportedItems(items, |items|) &&
                       old(budget.count) + NodesOfItems(CanonItems(items)) <= MAX_SEMANTIC_NODES
    ensures r.Ok? ==> r.value == CanonItems(items) &&
                      budget.count == old(budget.count) + NodesOfItems(CanonItems(items))
    ensures r.Err? && SupportedItems(items, |items|) ==> r.error == ResourceLimit
    decreases items, 0
  {
    ghost var all, before := CanonItems(items), budget.count;
    var out: seq<Canon> := [];
    for i := 0 to |items|
      invariant SupportedItems(items, i)
      invariant out == all[..i]
      invariant budget.count == before + NodesOfItems(all[..i]) <= MAX_SEMANTIC_NODES
    {
      NodesOfItemsStep(all, i);
      NodesOfItemsPrefix(all, i + 1);
      var c := CanonicalNode(items[i], budget);
      if c.Err? { return Err(c.error); }
      PrefixStep(all, i);
      out := out + [c.value];
    }
    assert all[..|items|] == all;
    r := Ok(out);
  }

  lemma NodesOfItemsStep(items: seq<Canon>, n: nat)
    requires n < |items|
    ensures NodesOfItems(items[..n + 1]) == NodesOfItems(items[..n]) + Nodes(items[n])
  {
    assert items[..n + 1][..n] == items[..n];
  }

  method CanonicalMapping(entries: seq<Entry>, budget: NodeBudget) returns (r: Result<seq<Pair>, ParseError>)
    requires ValidEntries(entries)
    requires budget.count <= MAX_SEMANTIC_NODES
    modifies budget
    ensures r.Ok? <==> SupportedEntries(entries) &&
                       old(budget.count) + NodesOfPairs(CanonPairs(SortedKeys(entries), entries)) <= MAX_SEMANTIC_NODES
    ensures r.Ok? ==> r.value == CanonPairs(SortedKeys(entries), entries) &&
                      budget.count == old(budget.count) + NodesOfPairs(CanonPairs(SortedKeys(entries), entries))
    ensures r.Err? && SupportedEntries(entries) ==> r.error == ResourceLimit
    decreases entries, 0
  {
    var keys := SortedKeys(entries);
    ghost var all, before := CanonPairs(keys, entries), budget.count;
    var out: seq<Pair> := [];
    for i := 0 to |keys|
      invariant forall k :: k in keys[..i] ==> Has(entries, k) && SupportedAt(entries, k)
      invariant out == all[..i]
      invariant budget.count == before + NodesOfPairs(all[..i]) <= MAX_SEMANTIC_NODES
    {
      var key := keys[i];
      NodesOfPairsStep(all, i);
      NodesOfPairsPrefix(all, i + 1);
      var ok := budget.Consume();
      if !ok { return Err(ResourceLimit); }
      var value := Get(entries, key);
      var c := CanonicalNode(value, budget);
      if c.Err? {
        assert SupportedEntries(entries) ==> Supported(value);
        return Err(c.error);
      }
      PrefixStep(all, i);
      PrefixStep(keys, i);
      out := out + [Pair(key, c.value)];
    }
    assert all[..|keys|] == all;
    forall i | 0 <= i < |entries|
      ensures Supported(entries[i].value)
    {
      GetAt(entries, i);
      assert entries[i].key in keys[..|keys|];
    }
    r := Ok(out);
  }

  lemma NodesOfPairsStep(pairs: seq<Pair>, n: nat)
    requires n < |pairs|
    ensures NodesOfPairs(pairs[..n + 1]) == NodesOfPairs(pairs[..n]) + 1 + Nodes(pairs[n].node)
  {
    assert pairs[..n + 1][..n] == pairs[..n];
  }

  lemma {:induction false} NodesOfItemsPrefix(items: seq<Canon>, n: nat)
    requires n <= |items|
    ensures NodesOfItems(items[..n]) <= NodesOfItems(items)
    decreases |items| - n
  {
    if n == |items| {
      assert items[..n] == items;
    } else {
      NodesOfItemsPrefix(items, n + 1);
      assert items[..n + 1][..n] == items[..n];
    }
  }

  lemma {:induction false} NodesOfPairsPrefix(pairs: seq<Pair>, n: nat)
    requires n <= |pairs|
    ensures NodesOfPairs(pairs[..n]) <= NodesOfPairs(pairs)
    decreases |pairs| - n
  {
    if n == |pairs| {
      assert pairs[..n] == pairs;
    } else {
      NodesOfPairsPrefix(pairs, n + 1);
      assert pairs[..n + 1][..n] == pairs[..n];
    }
  }

  /** `canonical_compose_json`, up to the JSON text itself. */
  function CanonicalForm(v: Value): Result<Canon, ParseError> {
    if !Supported(v) then Err(UnsupportedValue)
    else if Nodes(CanonOf(v)) > MAX_SEMANTIC_NODES then Err(ResourceLimit)
    else if !v.Mapping? then Err(RootNotMapping)
    else Ok(CanonOf(v))
  }

  method CanonicalTree(v: Value) returns (r: Result<Canon, ParseError>)
    requires Valid(v)
    ensures r.Ok? <==> CanonicalForm(v).Ok?
    ensures r.Ok? ==> r == CanonicalForm(v)
  {
    var budget := new NodeBudget();
    r := CanonicalNode(v, budget);
    if r.Ok? && !v.Mapping? { r := Err(RootNotMapping); }
  }
}
