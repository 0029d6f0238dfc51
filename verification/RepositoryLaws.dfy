/** The measures and the stores of the repository cache, told by the entries of the trees at any depth. */
module RepositoryLaws {
  import opened Basics
  import opened RepositoryCache

  // ----- a tree as the list of everything in it

  /** All entries of a listing, at any depth. */
  function Everything(entries: seq<Node>): seq<Node> {
    if entries == [] then [] else Below(entries[0]) + Everything(entries[1..])
  }

  function Below(n: Node): seq<Node> {
    [n] + if n.Dir? then Everything(n.entries) else []
  }

  /** What the files among these cost, each its size times `times` and `more`. */
  function Cost(all: seq<Node>, times: nat, more: nat): nat {
    if all == [] then 0
    else Cost(all[..|all| - 1], times, more) + if all[|all| - 1].File? then all[|all| - 1].size * times + more else 0
  }

  lemma {:induction false} CostAppend(a: seq<Node>, b: seq<Node>, times: nat, more: nat)
    ensures Cost(a + b, times, more) == Cost(a, times, more) + Cost(b, times, more)
    decreases |b|
  {
    if b == [] {
      assert a + b == a;
    } else {
      assert (a + b)[..|a + b| - 1] == a + b[..|b| - 1];
      CostAppend(a, b[..|b| - 1], times, more);
    }
  }

  lemma CostOfOne(n: Node, times: nat, more: nat)
    ensures Cost([n], times, more) == if n.File? then n.size * times + more else 0
  {
    assert [n][..0] == [];
  }

  /** No socket, device or the like, and links only where they are ignored. */
  predicate Plain(all: seq<Node>, links: bool) {
    forall i :: 0 <= i < |all| ==> !all[i].Special? && (all[i].Link? ==> links)
  }

  lemma PlainAppend(a: seq<Node>, b: seq<Node>, links: bool)
    ensures Plain(a + b, links) <==> Plain(a, links) && Plain(b, links)
  {
    if Plain(a + b, links) {
      forall i | 0 <= i < |a| ensures !a[i].Special? && (a[i].Link? ==> links) { assert (a + b)[i] == a[i]; }
      forall i | 0 <= i < |b| ensures !b[i].Special? && (b[i].Link? ==> links) { assert (a + b)[|a| + i] == b[i]; }
    }
  }

  /** What a measure says of a tree is the cost, the number and the kinds of everything in it. */
  lemma {:induction false} MeasureLaw(entries: seq<Node>, m: Measure)
    ensures WeightOf(entries, m) == Cost(Everything(entries), m.multiplier, m.entryBudget)
    ensures CountOf(entries) == |Everything(entries)|
    ensures AllSupported(entries, m) <==> Plain(Everything(entries), m.ignoreLinks)
    decreases entries, 1
  {
    if entries != [] {
      FirstEntry(entries, m);
      NodeLaw(entries[0], m);
      MeasureLaw(entries[1..], m);
      CostAppend(Below(entries[0]), Everything(entries[1..]), m.multiplier, m.entryBudget);
      PlainAppend(Below(entries[0]), Everything(entries[1..]), m.ignoreLinks);
    }
  }

  lemma {:induction false} NodeLaw(n: Node, m: Measure)
    ensures Weight(n, m) == Cost(Below(n), m.multiplier, m.entryBudget)
    ensures Count(n) == |Below(n)|
    ensures Supported(n, m) <==> Plain(Below(n), m.ignoreLinks)
    decreases n, 0
  {
    CostOfOne(n, m.multiplier, m.entryBudget);
    if n.Dir? {
      MeasureLaw(n.entries, m);
      NodeIs(n, m);
      CostAppend([n], Everything(n.entries), m.multiplier, m.entryBudget);
      PlainAppend([n], Everything(n.entries), m.ignoreLinks);
    } else {
      assert Below(n) == [n];
    }
  }

  // ----- what a store does

  function Bytes(entries: seq<Node>): nat {
    Cost(Everything(entries), 1, 0)
  }

  /** Twice the size of every file and 256 for each: what a repository's work tree may take in the cache. */
  function SourceBytes(entries: seq<Node>): nat {
    Cost(Everything(entries), 2, 256)
  }

  predicate Scannable(entries: seq<Node>, links: bool) {
    Plain(Everything(entries), links) && |Everything(entries)| <= 1000000
  }

  function BytesOf(kept: seq<Kept>): nat {
    if kept == [] then 0 else BytesOf(kept[..|kept| - 1]) + Bytes(kept[|kept| - 1].entries)
  }

  lemma MeasurableIs(entries: seq<Node>, m: Measure, limit: Option<nat>)
    ensures Measurable(entries, m, limit) <==>
            Scannable(entries, m.ignoreLinks) &&
            (limit.Some? ==> Cost(Everything(entries), m.multiplier, m.entryBudget) <= limit.value)
  {
    MeasureLaw(entries, m);
  }

  lemma {:induction false} TotalIs(kept: seq<Kept>)
    ensures TotalOf(kept) == BytesOf(kept)
    decreases |kept|
  {
    if kept != [] {
      TotalIs(kept[..|kept| - 1]);
      MeasureLaw(kept[|kept| - 1].entries, PLAIN);
    }
  }

  /** The store goes as far as making room: an admitted repository within 128 MiB, not yet stored, or stored shallow and its own. */
  predicate Begins(a: Attempt) {
    && a.admitted && !a.valid && (a.shallow ==> a.evictable)
    && Scannable(a.gitDir, false) && Bytes(a.gitDir) <= 0x800_0000
    && Scannable(a.source, true) && SourceBytes(a.source) <= 0x800_0000
  }

  /** There is room: fewer than 16 entries, and 128 MiB for the new one, 512 MiB in all, a manifest of 4096 included. */
  predicate Roomy(kept: seq<Kept>, a: Attempt) {
    && |kept| < 16 && SourceBytes(a.source) + 4096 <= 0x800_0000
    && BytesOf(kept) + SourceBytes(a.source) + 4096 <= 0x2000_0000
  }

  /** What git built is within the limits with its manifest, and only an empty directory is in its way. */
  predicate Fits(kept: seq<Kept>, key: string, built: (seq<Node>, nat)) {
    var entry := [Dir(built.0), File(built.1)];
    && Scannable(built.0, false) && Bytes(built.0) <= 0x800_0000
    && Scannable(entry, false) && Bytes(entry) <= 0x800_0000 && BytesOf(kept) + Bytes(entry) <= 0x2000_0000
    && forall i :: 0 <= i < |kept| && kept[i].key == key && (forall j :: 0 <= j < i ==> kept[j].key != key) ==> kept[i].entries == []
  }

  lemma BeginsIs(a: Attempt)
    ensures Begins(a) <==> a.admitted && BudgetOf(a).Some? && !a.valid && (a.shallow ==> a.evictable)
    ensures BudgetOf(a).Some? ==> BudgetOf(a).value == SourceBytes(a.source)
  {
    MeasurableIs(a.gitDir, PLAIN, Some(MAX_ENTRY_BYTES));
    MeasurableIs(a.source, SOURCE, Some(MAX_ENTRY_BYTES));
    MeasureLaw(a.source, SOURCE);
  }

  /** Every retained entry can be measured. */
  predicate AllScannable(kept: seq<Kept>) {
    forall i :: 0 <= i < |kept| ==> Scannable(kept[i].entries, false)
  }

  lemma RoomyIs(kept: seq<Kept>, a: Attempt)
    requires BytesOf(kept) <= 0x2000_0000
    ensures Admits(kept, SourceBytes(a.source)) <==> Roomy(kept, a) && AllScannable(kept)
  {
    TotalIs(kept);
    assert kept[..|kept|] == kept;
    MeasuringFails(kept, |kept|);
    forall i | 0 <= i < |kept| ensures Measurable(kept[i].entries, PLAIN, None) <==> Scannable(kept[i].entries, false) {
      MeasurableIs(kept[i].entries, PLAIN, None);
    }
    assert AllMeasured(kept, |kept|) <==> AllScannable(kept);
  }

  lemma FitsIs(kept: seq<Kept>, key: string, built: (seq<Node>, nat))
    ensures Publishable(kept, key, built) <==> Fits(kept, key, built)
  {
    TotalIs(kept);
    MeasurableIs(built.0, PLAIN, Some(MAX_ENTRY_BYTES));
    MeasurableIs(NewEntry(built), PLAIN, Some(MAX_ENTRY_BYTES));
    MeasureLaw(NewEntry(built), PLAIN);
    var i := IndexOf(kept, key);
    assert forall k :: 0 <= k < |kept| && kept[k].key == key && (forall j :: 0 <= j < k ==> kept[j].key != key) ==> k == i;
  }

  /** The entries without the first of this key. */
  ghost predicate DropsFirst(kept: seq<Kept>, key: string, rest: seq<Kept>) {
    if forall i :: 0 <= i < |kept| ==> kept[i].key != key then rest == kept
    else exists i: nat :: FirstOfKey(kept, key, i) && rest == kept[..i] + kept[i + 1..]
  }

  predicate FirstOfKey(kept: seq<Kept>, key: string, i: nat) {
    i < |kept| && kept[i].key == key && forall j :: 0 <= j < i ==> kept[j].key != key
  }

  lemma DropIs(kept: seq<Kept>, key: string)
    ensures DropsFirst(kept, key, Drop(kept, IndexOf(kept, key)))
  {
    var i := IndexOf(kept, key);
    if i < |kept| { assert FirstOfKey(kept, key, i); }
  }

  /** What a store leaves: the entries as they were when it does not begin; else, with the key's shallow entry dropped, the
      new entry at the end in place of an empty one, iff there is room, all entries can be measured and what was built fits. */
  lemma StoreLaw(kept: seq<Kept>, a: Attempt) returns (cleared: seq<Kept>, rest: seq<Kept>)
    requires InBudget(kept)
    ensures a.shallow && Begins(a) ==> DropsFirst(kept, a.key, cleared)
    ensures !(a.shallow && Begins(a)) ==> cleared == kept
    ensures DropsFirst(cleared, a.key, rest)
    ensures AfterStore(kept, a) ==
            if Begins(a) && Roomy(cleared, a) && AllScannable(cleared) && a.built.Some? && Fits(cleared, a.key, a.built.value)
            then rest + [Kept(a.key, [Dir(a.built.value.0), File(a.built.value.1)])] else cleared
  {
    BeginsIs(a);
    DropIs(kept, a.key);
    cleared := if a.shallow && Begins(a) then Drop(kept, IndexOf(kept, a.key)) else kept;
    rest := Drop(cleared, IndexOf(cleared, a.key));
    DropIs(cleared, a.key);
    DropLessens(kept, IndexOf(kept, a.key));
    TotalIs(cleared);
    RoomyIs(cleared, a);
    if a.built.Some? { FitsIs(cleared, a.key, a.built.value); }
  }
}
