/** The size of a directory tree, measured with a worklist, and the budget of the repository cache it guards. */
module RepositoryCache {
  import opened Basics

  const MAX_SCAN: nat := 1000000
  const MAX_ENTRIES: nat := 16
  const MAX_TOTAL_BYTES: nat := 512 * 1024 * 1024
  const MAX_ENTRY_BYTES: nat := 128 * 1024 * 1024
  const MANIFEST_BUDGET: nat := 4096
  const SOURCE_ENTRY_BUDGET: nat := 256

  /** A directory entry; `Special` is a socket, a device or anything else. */
  datatype Node = Dir(entries: seq<Node>) | File(size: nat) | Link | Special

  datatype Measure = Measure(multiplier: nat, entryBudget: nat, ignoreLinks: bool)

  const PLAIN := Measure(1, 0, false)
  const SOURCE := Measure(2, SOURCE_ENTRY_BUDGET, true)

  datatype ScanError = EntryLimit | SizeLimit | Unsupported

  // ----- what is measured

  function Weight(n: Node, m: Measure): nat {
    match n
    case Dir(entries) => WeightOf(entries, m)
    case File(size) => size * m.multiplier + m.entryBudget
    case _ => 0
  }

  function WeightOf(entries: seq<Node>, m: Measure): nat {
    if entries == [] then 0 else Weight(entries[0], m) + WeightOf(entries[1..], m)
  }

  function Count(n: Node): nat {
    if n.Dir? then 1 + CountOf(n.entries) else 1
  }

  /** How many entries there are, at any depth. */
  function CountOf(entries: seq<Node>): nat {
    if entries == [] then 0 else Count(entries[0]) + CountOf(entries[1..])
  }

  predicate Supported(n: Node, m: Measure) {
    match n
    case Dir(entries) => AllSupported(entries, m)
    case File(_) => true
    case Link => m.ignoreLinks
    case Special => false
  }

  predicate AllSupported(entries: seq<Node>, m: Measure) {
    entries == [] || (Supported(entries[0], m) && AllSupported(entries[1..], m))
  }

  predicate Within(size: nat, limit: Option<nat>) {
    limit.None? || size <= limit.value
  }

  /** The tree can be measured, and is within the limit. */
  predicate Measurable(entries: seq<Node>, m: Measure, limit: Option<nat>) {
    AllSupported(entries, m) && CountOf(entries) <= MAX_SCAN && Within(WeightOf(entries, m), limit)
  }

  // ----- directories still to be scanned

  function PendingWeight(pending: seq<seq<Node>>, m: Measure): nat {
    if pending == [] then 0 else PendingWeight(pending[..|pending| - 1], m) + WeightOf(pending[|pending| - 1], m)
  }

  function PendingCount(pending: seq<seq<Node>>): nat {
    if pending == [] then 0 else PendingCount(pending[..|pending| - 1]) + CountOf(pending[|pending| - 1])
  }

  predicate PendingSupported(pending: seq<seq<Node>>, m: Measure) {
    pending == [] || (PendingSupported(pending[..|pending| - 1], m) && AllSupported(pending[|pending| - 1], m))
  }

  lemma Pushed(pending: seq<seq<Node>>, d: seq<Node>, m: Measure)
    ensures PendingWeight(pending + [d], m) == PendingWeight(pending, m) + WeightOf(d, m)
    ensures PendingCount(pending + [d]) == PendingCount(pending) + CountOf(d)
    ensures PendingSupported(pending + [d], m) <==> PendingSupported(pending, m) && AllSupported(d, m)
  {
    assert (pending + [d])[..|pending|] == pending;
  }

  /** What was scanned and what is left make up the tree. */
  ghost predicate Balanced(root: seq<Node>, m: Measure, total: nat, scanned: nat, current: seq<Node>, pending: seq<seq<Node>>) {
    && total + WeightOf(current, m) + PendingWeight(pending, m) == WeightOf(root, m)
    && scanned + CountOf(current) + PendingCount(pending) == CountOf(root)
    && (AllSupported(root, m) <==> AllSupported(current, m) && PendingSupported(pending, m))
  }

  lemma FirstEntry(current: seq<Node>, m: Measure)
    requires current != []
    ensures WeightOf(current, m) == Weight(current[0], m) + WeightOf(current[1..], m)
    ensures CountOf(current) == Count(current[0]) + CountOf(current[1..])
    ensures AllSupported(current, m) <==> Supported(current[0], m) && AllSupported(current[1..], m)
    ensures current[0].Dir? ==>
              && Weight(current[0], m) == WeightOf(current[0].entries, m)
              && Count(current[0]) == 1 + CountOf(current[0].entries)
              && Supported(current[0], m) == AllSupported(current[0].entries, m)
    ensures !current[0].Dir? ==> Count(current[0]) == 1
  {
  }

  lemma ScannedFile(root: seq<Node>, m: Measure, total: nat, scanned: nat, current: seq<Node>, pending: seq<seq<Node>>)
    requires Balanced(root, m, total, scanned, current, pending) && current != [] && !current[0].Dir?
    requires Supported(current[0], m)
    ensures Balanced(root, m, total + Weight(current[0], m), scanned + 1, current[1..], pending)
  {
    FirstEntry(current, m);
  }

  lemma ScannedDir(root: seq<Node>, m: Measure, total: nat, scanned: nat, current: seq<Node>, pending: seq<seq<Node>>)
    requires Balanced(root, m, total, scanned, current, pending) && current != [] && current[0].Dir?
    ensures Balanced(root, m, total, scanned + 1, current[1..], pending + [current[0].entries])
    ensures PendingCount(pending + [current[0].entries]) + CountOf(current[1..]) + 1 == PendingCount(pending) + CountOf(current)
  {
    FirstEntry(current, m);
    Pushed(pending, current[0].entries, m);
  }

  // ----- the order of a listing does not matter

  function Cut(entries: seq<Node>, j: nat): seq<Node>
    requires j < |entries|
  {
    entries[..j] + entries[j + 1..]
  }

  lemma {:induction false} CutAt(entries: seq<Node>, j: nat, m: Measure)
    requires j < |entries|
    ensures WeightOf(entries, m) == Weight(entries[j], m) + WeightOf(Cut(entries, j), m)
    ensures CountOf(entries) == Count(entries[j]) + CountOf(Cut(entries, j))
    ensures AllSupported(entries, m) <==> Supported(entries[j], m) && AllSupported(Cut(entries, j), m)
  {
    if j == 0 {
      assert Cut(entries, 0) == entries[1..];
    } else {
      CutAt(entries[1..], j - 1, m);
      var rest := Cut(entries, j);
      assert rest[0] == entries[0] && rest[1..] == Cut(entries[1..], j - 1);
      FirstEntry(entries, m);
      FirstEntry(rest, m);
    }
  }

  lemma Bag<T>(s: seq<T>, j: nat)
    requires j < |s|
    ensures multiset(s) == multiset(s[..j] + s[j + 1..]) + multiset{s[j]}
  {
    assert s == s[..j] + [s[j]] + s[j + 1..];
  }

  lemma Cancel<T>(x: multiset<T>, y: multiset<T>, e: T)
    requires x + multiset{e} == y + multiset{e}
    ensures x == y
  {
    assert x == (x + multiset{e}) - multiset{e};
    assert y == (y + multiset{e}) - multiset{e};
  }

  lemma Matching<T>(a: seq<T>, b: seq<T>) returns (j: nat)
    requires multiset(a) == multiset(b) && a != []
    ensures j < |b| && b[j] == a[0] && multiset(a[1..]) == multiset(b[..j] + b[j + 1..])
  {
    assert a[0] in multiset(b);
    j :| 0 <= j < |b| && b[j] == a[0];
    Bag(a, 0);
    assert a[..0] + a[1..] == a[1..];
    Bag(b, j);
    Cancel(multiset(a[1..]), multiset(b[..j] + b[j + 1..]), a[0]);
  }

  /** The same tree, every directory listed in an order of its own. */
  ghost predicate SameTree(a: seq<Node>, b: seq<Node>) {
    if a == [] then b == []
    else exists j :: 0 <= j < |b| && SameNode(a[0], b[j]) && SameTree(a[1..], Cut(b, j))
  }

  ghost predicate SameNode(x: Node, y: Node) {
    if x.Dir? then y.Dir? && SameTree(x.entries, y.entries) else x == y
  }

  lemma {:induction false} SameIsReflexive(a: seq<Node>)
    ensures SameTree(a, a)
  {
    if a != [] {
      if a[0].Dir? { SameIsReflexive(a[0].entries); }
      SameIsReflexive(a[1..]);
      assert SameNode(a[0], a[0]) && Cut(a, 0) == a[1..];
    }
  }

  /** Listings with the same entries are the same tree. */
  lemma {:induction false} PermutedIsSame(a: seq<Node>, b: seq<Node>)
    requires multiset(a) == multiset(b)
    ensures SameTree(a, b)
  {
    if a == [] {
      assert |multiset(b)| == |b|;
    } else {
      var j := Matching(a, b);
      PermutedIsSame(a[1..], Cut(b, j));
      if a[0].Dir? { SameIsReflexive(a[0].entries); }
      assert SameNode(a[0], b[j]);
    }
  }

  /** What is measured does not depend on the order any directory is listed in, at any depth. */
  lemma {:induction false} OrderDoesNotMatter(a: seq<Node>, b: seq<Node>, m: Measure)
    requires SameTree(a, b)
    ensures WeightOf(a, m) == WeightOf(b, m) && CountOf(a) == CountOf(b) && (AllSupported(a, m) <==> AllSupported(b, m))
    ensures forall limit :: Measurable(a, m, limit) <==> Measurable(b, m, limit)
  {
    if a != [] {
      var j :| 0 <= j < |b| && SameNode(a[0], b[j]) && SameTree(a[1..], Cut(b, j));
      if a[0].Dir? { OrderDoesNotMatter(a[0].entries, b[j].entries, m); }
      OrderDoesNotMatter(a[1..], Cut(b, j), m);
      CutAt(b, j, m);
      FirstEntry(a, m);
      if b[j].Dir? { NodeIs(b[j], m); }
    }
  }

  lemma NodeIs(n: Node, m: Measure)
    requires n.Dir?
    ensures Weight(n, m) == WeightOf(n.entries, m) && Count(n) == 1 + CountOf(n.entries)
    ensures Supported(n, m) == AllSupported(n.entries, m)
  {
  }

  // ----- the worklist

  datatype Scan = Scan(total: nat, scanned: nat, pending: seq<seq<Node>>)

  ghost predicate Running(root: seq<Node>, m: Measure, limit: Option<nat>, s: Scan, current: seq<Node>) {
    s.scanned <= MAX_SCAN && Within(s.total, limit) && Balanced(root, m, s.total, s.scanned, current, s.pending)
  }

  /** The refusal is for a reason the tree gives. */
  ghost predicate Justified(root: seq<Node>, m: Measure, limit: Option<nat>, e: ScanError) {
    match e
    case EntryLimit => CountOf(root) > MAX_SCAN
    case SizeLimit => !Within(WeightOf(root, m), limit)
    case Unsupported => !AllSupported(root, m)
  }

  /** What one entry adds to the scan. */
  method ScanEntry(ghost root: seq<Node>, limit: Option<nat>, m: Measure, s: Scan, entry: Node, ghost current: seq<Node>)
    returns (r: Result<Scan, ScanError>)
    requires current != [] && current[0] == entry && Running(root, m, limit, s, current)
    ensures r.Err? ==> Justified(root, m, limit, r.error)
    ensures r.Ok? ==> Running(root, m, limit, r.value, current[1..])
    ensures r.Ok? ==> PendingCount(r.value.pending) + |r.value.pending| + CountOf(current[1..]) <=
                      PendingCount(s.pending) + |s.pending| + CountOf(current)
  {
    FirstEntry(current, m);
    if s.scanned + 1 > MAX_SCAN { return Err(EntryLimit); }
    if entry.Special? || (entry.Link? && !m.ignoreLinks) { return Err(Unsupported); }
    if entry.Dir? {
      ScannedDir(root, m, s.total, s.scanned, current, s.pending);
      return Ok(Scan(s.total, s.scanned + 1, s.pending + [entry.entries]));
    }
    ScannedFile(root, m, s.total, s.scanned, current, s.pending);
    if entry.Link? { return Ok(s.(scanned := s.scanned + 1)); }
    var total := s.total + (entry.size * m.multiplier + m.entryBudget);
    if limit.Some? && total > limit.value { return Err(SizeLimit); }
    r := Ok(Scan(total, s.scanned + 1, s.pending));
  }

  /** `_async_tree_size`: the recursive sum, or a refusal exactly when the tree cannot be measured within the limit. */
  method TreeSize(root: seq<Node>, limit: Option<nat>, m: Measure) returns (r: Result<nat, ScanError>)
    ensures r.Ok? <==> Measurable(root, m, limit)
    ensures r.Ok? ==> r.value == WeightOf(root, m)
    ensures r.Err? ==> Justified(root, m, limit, r.error)
  {
    var s := Scan(0, 0, [root]);
    assert s.pending[..0] == [];
    while s.pending != []
      invariant Running(root, m, limit, s, [])
      decreases PendingCount(s.pending) + |s.pending|
    {
      var current := s.pending[|s.pending| - 1];
      s := s.(pending := s.pending[..|s.pending| - 1]);
      var i := 0;
      ghost var before := PendingCount(s.pending) + |s.pending| + CountOf(current);
      while i < |current|
        invariant 0 <= i <= |current| && Running(root, m, limit, s, current[i..])
        invariant PendingCount(s.pending) + |s.pending| + CountOf(current[i..]) <= before
      {
        assert current[i..][1..] == current[i + 1..];
        var scan := ScanEntry(root, limit, m, s, current[i], current[i..]);
        if scan.Err? { return Err(scan.error); }
        s := scan.value;
        i := i + 1;
      }
      assert current[i..] == [];
    }
    r := Ok(s.total);
  }

  // ----- the cache

  /** A directory under `entries`, by name. */
  datatype Kept = Kept(key: string, entries: seq<Node>)

  /** One call of `store`, as the environment lets it go. `built` is what git left in the new bare repository and the
      size of its manifest; None when a git step failed. */
  datatype Attempt = Attempt(
    key: string,
    admitted: bool,
    gitDir: seq<Node>,
    source: seq<Node>,
    valid: bool,
    shallow: bool,
    evictable: bool,
    built: Option<(seq<Node>, nat)>)

  function SizeOf(entries: seq<Node>): nat {
    WeightOf(entries, PLAIN)
  }

  function TotalOf(kept: seq<Kept>): nat {
    if kept == [] then 0 else TotalOf(kept[..|kept| - 1]) + SizeOf(kept[|kept| - 1].entries)
  }

  function IndexOf(kept: seq<Kept>, key: string): (r: nat)
    ensures r <= |kept| && (r < |kept| ==> kept[r].key == key)
    ensures forall i :: 0 <= i < r ==> kept[i].key != key
  {
    if kept == [] || kept[0].key == key then 0 else 1 + IndexOf(kept[1..], key)
  }

  function Drop(kept: seq<Kept>, i: nat): seq<Kept> {
    if i < |kept| then kept[..i] + kept[i + 1..] else kept
  }

  /** All of them can be measured, one after the other, within the total. */
  predicate AllMeasured(kept: seq<Kept>, k: nat)
    requires k <= |kept|
  {
    k == 0 || (AllMeasured(kept, k - 1) && TotalOf(kept[..k - 1]) <= MAX_TOTAL_BYTES
               && Measurable(kept[k - 1].entries, PLAIN, Some(MAX_TOTAL_BYTES - TotalOf(kept[..k - 1]))))
  }

  /** `_source_cache_budget`. */
  function BudgetOf(a: Attempt): Option<nat> {
    if Measurable(a.gitDir, PLAIN, Some(MAX_ENTRY_BYTES)) && Measurable(a.source, SOURCE, Some(MAX_ENTRY_BYTES))
    then Some(WeightOf(a.source, SOURCE)) else None
  }

  function NewEntry(built: (seq<Node>, nat)): seq<Node> {
    [Dir(built.0), File(built.1)]
  }

  /** A rename puts a directory in place of nothing or of an empty directory. */
  predicate Replaceable(kept: seq<Kept>, key: string) {
    var i := IndexOf(kept, key);
    i == |kept| || kept[i].entries == []
  }

  function Put(kept: seq<Kept>, key: string, entries: seq<Node>): seq<Kept> {
    Drop(kept, IndexOf(kept, key)) + [Kept(key, entries)]
  }

  /** There is room for a source of this budget. */
  predicate Admits(kept: seq<Kept>, budget: nat) {
    && |kept| < MAX_ENTRIES && AllMeasured(kept, |kept|)
    && budget + MANIFEST_BUDGET <= MAX_ENTRY_BYTES
    && TotalOf(kept) + budget + MANIFEST_BUDGET <= MAX_TOTAL_BYTES
  }

  /** What was built may be published. */
  predicate Publishable(kept: seq<Kept>, key: string, built: (seq<Node>, nat)) {
    && Measurable(built.0, PLAIN, Some(MAX_ENTRY_BYTES))
    && Measurable(NewEntry(built), PLAIN, Some(MAX_ENTRY_BYTES))
    && TotalOf(kept) + SizeOf(NewEntry(built)) <= MAX_TOTAL_BYTES
    && Replaceable(kept, key)
  }

  /** The entries after `_store`. */
  function AfterStore(kept: seq<Kept>, a: Attempt): seq<Kept> {
    if !a.admitted || BudgetOf(a).None? || a.valid || (a.shallow && !a.evictable) then kept
    else
      var cleared := if a.shallow then Drop(kept, IndexOf(kept, a.key)) else kept;
      if Admits(cleared, BudgetOf(a).value) && a.built.Some? && Publishable(cleared, a.key, a.built.value)
      then Put(cleared, a.key, NewEntry(a.built.value)) else cleared
  }

  ghost predicate InBudget(kept: seq<Kept>) {
    && |kept| <= MAX_ENTRIES && TotalOf(kept) <= MAX_TOTAL_BYTES
    && forall i :: 0 <= i < |kept| ==> SizeOf(kept[i].entries) <= MAX_ENTRY_BYTES
  }

  lemma {:induction false} TotalAppend(a: seq<Kept>, b: seq<Kept>)
    ensures TotalOf(a + b) == TotalOf(a) + TotalOf(b)
  {
    if b == [] {
      assert a + b == a;
    } else {
      assert (a + b)[..|a + b| - 1] == a + b[..|b| - 1];
      TotalAppend(a, b[..|b| - 1]);
    }
  }

  lemma DropLessens(kept: seq<Kept>, i: nat)
    ensures TotalOf(Drop(kept, i)) <= TotalOf(kept)
  {
    if i < |kept| {
      assert kept == kept[..i] + ([kept[i]] + kept[i + 1..]);
      TotalAppend(kept[..i], [kept[i]] + kept[i + 1..]);
      TotalAppend([kept[i]], kept[i + 1..]);
      TotalAppend(kept[..i], kept[i + 1..]);
    }
  }

  lemma DropInBudget(kept: seq<Kept>, i: nat)
    requires InBudget(kept)
    ensures InBudget(Drop(kept, i))
  {
    DropLessens(kept, i);
    var r := Drop(kept, i);
    forall k | 0 <= k < |r| ensures SizeOf(r[k].entries) <= MAX_ENTRY_BYTES {
      assert i < |kept| ==> r[k] == kept[if k < i then k else k + 1];
    }
  }

  lemma PutInBudget(kept: seq<Kept>, key: string, entries: seq<Node>)
    requires InBudget(kept) && |kept| < MAX_ENTRIES
    requires SizeOf(entries) <= MAX_ENTRY_BYTES && TotalOf(kept) + SizeOf(entries) <= MAX_TOTAL_BYTES
    ensures InBudget(Put(kept, key, entries))
  {
    var rest := Drop(kept, IndexOf(kept, key));
    DropInBudget(kept, IndexOf(kept, key));
    DropLessens(kept, IndexOf(kept, key));
    TotalAppend(rest, [Kept(key, entries)]);
    assert TotalOf([Kept(key, entries)]) == SizeOf(entries) by { assert [Kept(key, entries)][..0] == []; }
  }

  lemma StoreInBudget(kept: seq<Kept>, a: Attempt)
    requires InBudget(kept)
    ensures InBudget(AfterStore(kept, a))
  {
    DropInBudget(kept, IndexOf(kept, a.key));
    var cleared := if a.shallow then Drop(kept, IndexOf(kept, a.key)) else kept;
    if a.built.Some? && BudgetOf(a).Some? && Admits(cleared, BudgetOf(a).value) && Publishable(cleared, a.key, a.built.value) {
      PutInBudget(cleared, a.key, NewEntry(a.built.value));
    }
  }

  function AfterAll(attempts: seq<Attempt>): seq<Kept> {
    if attempts == [] then [] else AfterStore(AfterAll(attempts[..|attempts| - 1]), attempts[|attempts| - 1])
  }

  /** No sequence of stores takes the cache over its number of entries, their size or their total. */
  lemma {:induction false} CacheStaysInBudget(attempts: seq<Attempt>)
    ensures InBudget(AfterAll(attempts))
  {
    if attempts != [] {
      CacheStaysInBudget(attempts[..|attempts| - 1]);
      StoreInBudget(AfterAll(attempts[..|attempts| - 1]), attempts[|attempts| - 1]);
    }
  }

  /** Within the budget, measuring the entries one after the other fails only for an entry that cannot be measured. */
  lemma {:induction false} MeasuringFails(kept: seq<Kept>, k: nat)
    requires k <= |kept| && TotalOf(kept[..k]) <= MAX_TOTAL_BYTES
    ensures AllMeasured(kept, k) <==> forall i :: 0 <= i < k ==> Measurable(kept[i].entries, PLAIN, None)
  {
    if k > 0 {
      PrefixStep(kept, k - 1);
      MeasuringFails(kept, k - 1);
    }
  }

  // ----- the code's own form

  class Cache {
    var kept: seq<Kept>

    constructor ()
      ensures kept == []
    {
      kept := [];
    }

    /** The loop over the retained entries; None when one of them cannot be measured within what is left. */
    method Retained() returns (total: Option<nat>)
      ensures total.Some? <==> AllMeasured(kept, |kept|)
      ensures total.Some? ==> total.value == TotalOf(kept) <= MAX_TOTAL_BYTES
    {
      var sum := 0;
      var i := 0;
      assert kept[..0] == [];
      while i < |kept|
        invariant 0 <= i <= |kept| && sum == TotalOf(kept[..i]) <= MAX_TOTAL_BYTES
        invariant AllMeasured(kept, i)
      {
        var size := TreeSize(kept[i].entries, Some(MAX_TOTAL_BYTES - sum), PLAIN);
        PrefixStep(kept, i);
        if size.Err? {
          NotMeasured(kept, i + 1);
          return None;
        }
        sum := sum + size.value;
        i := i + 1;
      }
      assert kept[..i] == kept;
      total := Some(sum);
    }

    method Budget(a: Attempt) returns (budget: Option<nat>)
      ensures budget == BudgetOf(a)
    {
      var git := TreeSize(a.gitDir, Some(MAX_ENTRY_BYTES), PLAIN);
      if git.Err? { return None; }
      var source := TreeSize(a.source, Some(MAX_ENTRY_BYTES), SOURCE);
      budget := if source.Ok? then Some(source.value) else None;
    }

    /** `_store`. */
    method Store(a: Attempt) returns (stored: bool)
      modifies this
      ensures kept == AfterStore(old(kept), a)
      ensures stored && !a.valid ==> kept != [] && a.built.Some? && kept[|kept| - 1] == Kept(a.key, NewEntry(a.built.value))
    {
      if !a.admitted { return false; }
      var budget := Budget(a);
      if budget.None? { return false; }
      if a.valid { return true; }
      if a.shallow {
        if !a.evictable { return false; }
        kept := Drop(kept, IndexOf(kept, a.key));
      }
      if |kept| >= MAX_ENTRIES { return false; }
      var total := Retained();
      if total.None? { return false; }
      if budget.value + MANIFEST_BUDGET > MAX_ENTRY_BYTES
         || total.value + budget.value + MANIFEST_BUDGET > MAX_TOTAL_BYTES { return false; }
      if a.built.None? { return false; }
      var bare := TreeSize(a.built.value.0, Some(MAX_ENTRY_BYTES), PLAIN);
      if bare.Err? { return false; }
      var entry := NewEntry(a.built.value);
      var candidate := TreeSize(entry, Some(MAX_ENTRY_BYTES), PLAIN);
      if candidate.Err? || total.value + candidate.value > MAX_TOTAL_BYTES { return false; }
      if !Replaceable(kept, a.key) { return false; }
      kept := Put(kept, a.key, entry);
      stored := true;
    }
  }

  lemma {:induction false} NotMeasured(kept: seq<Kept>, k: nat)
    requires k <= |kept| && !AllMeasured(kept, k)
    ensures !AllMeasured(kept, |kept|)
    decreases |kept| - k
  {
    if k < |kept| { NotMeasured(kept, k + 1); }
  }
}
