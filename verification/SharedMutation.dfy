/** A mutation of a document whose parts are shared through YAML aliases: the objects, the copies and the edits made
    on them in place. */
module SharedMutation {
  import opened Basics
  import opened ComposeValues
  import opened Mutations
  import opened MutationLaws

  /** A scalar, or an object that others may refer to as well. */
  datatype Ref = Inline(value: Value) | At(id: nat)

  datatype Field = Field(key: string, ref: Ref)

  /** A mapping, or a list whose fields carry no key. `depth` is how deeply it nests, so that nothing contains itself. */
  datatype Cell = Cell(depth: nat, mark: Option<string>, isMap: bool, fields: seq<Field>)

  type Heap = seq<Cell>

  predicate Below(heap: Heap, r: Ref, d: nat) {
    r.At? ==> r.id < |heap| && heap[r.id].depth < d
  }

  ghost predicate AllBelow(heap: Heap, fields: seq<Field>, d: nat) {
    forall k :: 0 <= k < |fields| ==> Below(heap, fields[k].ref, d)
  }

  ghost predicate Sound(heap: Heap) {
    forall i :: 0 <= i < |heap| ==> AllBelow(heap, heap[i].fields, heap[i].depth)
  }

  predicate Within(heap: Heap, r: Ref) {
    r.At? ==> r.id < |heap|
  }

  function Height(heap: Heap, r: Ref): nat {
    if r.At? && r.id < |heap| then heap[r.id].depth + 1 else 0
  }

  /** The tree an object stands for. */
  ghost function Unfold(heap: Heap, r: Ref): Value
    requires Sound(heap) && Within(heap, r)
    decreases Height(heap, r), 0
  {
    match r
    case Inline(v) => v
    case At(i) =>
      assert AllBelow(heap, heap[i].fields, heap[i].depth);
      var entries := UnfoldFields(heap, heap[i].fields, heap[i].depth);
      if heap[i].isMap then Mapping(heap[i].mark, entries) else List(heap[i].mark, ValuesOf(entries))
  }

  ghost function UnfoldFields(heap: Heap, fields: seq<Field>, d: nat): (r: seq<Entry>)
    requires Sound(heap) && AllBelow(heap, fields, d)
    ensures |r| == |fields|
    ensures forall k :: 0 <= k < |r| ==> Below(heap, fields[k].ref, d) && r[k] == Entry(fields[k].key, Unfold(heap, fields[k].ref))
    decreases d, 1, |fields|
  {
    if fields == [] then []
    else
      assert AllBelow(heap, fields[1..], d);
      assert Below(heap, fields[0].ref, d);
      [Entry(fields[0].key, Unfold(heap, fields[0].ref))] + UnfoldFields(heap, fields[1..], d)
  }

  function ValuesOf(entries: seq<Entry>): seq<Value> {
    seq(|entries|, k requires 0 <= k < |entries| => entries[k].value)
  }

  // ----- cells that stay, with all they refer to

  ghost predicate Kept(heap: Heap, after: Heap, p: nat -> bool) {
    && |heap| <= |after|
    && forall i :: 0 <= i < |heap| && p(i) ==>
         after[i] == heap[i] && forall k :: 0 <= k < |heap[i].fields| && heap[i].fields[k].ref.At? ==> p(heap[i].fields[k].ref.id)
  }

  predicate Holds(p: nat -> bool, r: Ref) {
    r.At? ==> p(r.id)
  }

  lemma {:induction false} KeptUnfolds(heap: Heap, after: Heap, p: nat -> bool, r: Ref)
    requires Sound(heap) && Sound(after) && Within(heap, r) && Kept(heap, after, p) && Holds(p, r)
    ensures Within(after, r) && Unfold(after, r) == Unfold(heap, r)
    decreases Height(heap, r), 0
  {
    if r.At? {
      var c := heap[r.id];
      assert AllBelow(heap, c.fields, c.depth) && AllBelow(after, c.fields, c.depth);
      KeptFields(heap, after, p, c.fields, c.depth);
    }
  }

  lemma {:induction false} KeptFields(heap: Heap, after: Heap, p: nat -> bool, fields: seq<Field>, d: nat)
    requires Sound(heap) && Sound(after) && Kept(heap, after, p)
    requires AllBelow(heap, fields, d) && AllBelow(after, fields, d)
    requires forall k :: 0 <= k < |fields| ==> Holds(p, fields[k].ref)
    ensures UnfoldFields(after, fields, d) == UnfoldFields(heap, fields, d)
    decreases d, 1
  {
    forall k | 0 <= k < |fields| ensures UnfoldFields(after, fields, d)[k] == UnfoldFields(heap, fields, d)[k] {
      assert Below(heap, fields[k].ref, d);
      KeptUnfolds(heap, after, p, fields[k].ref);
    }
  }

  // ----- deep copies keep the sharing inside

  function Shift(r: Ref, n: nat): Ref {
    if r.At? then At(r.id + n) else r
  }

  function ShiftFields(fields: seq<Field>, n: nat): (r: seq<Field>)
    ensures |r| == |fields|
  {
    seq(|fields|, k requires 0 <= k < |fields| => Field(fields[k].key, Shift(fields[k].ref, n)))
  }

  function ShiftCell(c: Cell, n: nat): Cell {
    c.(fields := ShiftFields(c.fields, n))
  }

  /** The objects, and a second set of them. */
  function DeepCopy(heap: Heap): (r: Heap)
    ensures |r| == 2 * |heap|
    ensures forall i :: 0 <= i < |heap| ==> r[i] == heap[i] && r[i + |heap|] == ShiftCell(heap[i], |heap|)
  {
    heap + seq(|heap|, i requires 0 <= i < |heap| => ShiftCell(heap[i], |heap|))
  }

  lemma {:induction false} CopyBelow(heap: Heap, r: Ref, d: nat)
    requires Below(heap, r, d)
    ensures Below(DeepCopy(heap), r, d) && Below(DeepCopy(heap), Shift(r, |heap|), d)
  {
    if r.At? { assert DeepCopy(heap)[r.id + |heap|] == ShiftCell(heap[r.id], |heap|); }
  }

  lemma {:induction false} CopyFieldsBelow(heap: Heap, fields: seq<Field>, d: nat)
    requires AllBelow(heap, fields, d)
    ensures AllBelow(DeepCopy(heap), fields, d) && AllBelow(DeepCopy(heap), ShiftFields(fields, |heap|), d)
  {
    forall k | 0 <= k < |fields|
      ensures Below(DeepCopy(heap), fields[k].ref, d) && Below(DeepCopy(heap), ShiftFields(fields, |heap|)[k].ref, d)
    {
      assert Below(heap, fields[k].ref, d);
      CopyBelow(heap, fields[k].ref, d);
    }
  }

  lemma {:induction false} CopySound(heap: Heap)
    requires Sound(heap)
    ensures Sound(DeepCopy(heap))
  {
    var copy := DeepCopy(heap);
    forall i | 0 <= i < |copy| ensures AllBelow(copy, copy[i].fields, copy[i].depth) {
      var j := if i < |heap| then i else i - |heap|;
      assert AllBelow(heap, heap[j].fields, heap[j].depth);
      CopyFieldsBelow(heap, heap[j].fields, heap[j].depth);
      assert copy[j + |heap|] == ShiftCell(heap[j], |heap|);
    }
  }

  lemma {:induction false} CopyUnfolds(heap: Heap, r: Ref)
    requires Sound(heap) && Within(heap, r)
    ensures Sound(DeepCopy(heap)) && Within(DeepCopy(heap), Shift(r, |heap|))
    ensures Unfold(DeepCopy(heap), Shift(r, |heap|)) == Unfold(heap, r)
    decreases Height(heap, r), 0
  {
    CopySound(heap);
    if r.At? {
      var c := heap[r.id];
      assert DeepCopy(heap)[r.id + |heap|] == ShiftCell(c, |heap|);
      assert AllBelow(heap, c.fields, c.depth);
      CopyFieldsBelow(heap, c.fields, c.depth);
      CopyFieldsUnfold(heap, c.fields, c.depth);
    }
  }

  lemma {:induction false} CopyFieldsUnfold(heap: Heap, fields: seq<Field>, d: nat)
    requires Sound(heap) && AllBelow(heap, fields, d) && Sound(DeepCopy(heap))
    requires AllBelow(DeepCopy(heap), ShiftFields(fields, |heap|), d)
    ensures UnfoldFields(DeepCopy(heap), ShiftFields(fields, |heap|), d) == UnfoldFields(heap, fields, d)
    decreases d, 1
  {
    var a, b := UnfoldFields(DeepCopy(heap), ShiftFields(fields, |heap|), d), UnfoldFields(heap, fields, d);
    forall k | 0 <= k < |fields| ensures a[k] == b[k] {
      assert Below(heap, fields[k].ref, d);
      CopyUnfolds(heap, fields[k].ref);
    }
  }

  // ----- the candidate and the copied target

  /** The document at `root` has its services at `services`, and the requested one in their field `at`. */
  ghost predicate Requested(heap: Heap, root: nat, services: nat, at: nat, service: nat) {
    && Sound(heap) && root < |heap| && services < |heap| && service < |heap|
    && heap[root].isMap && heap[services].isMap && heap[service].isMap
    && (exists k :: 0 <= k < |heap[root].fields| && heap[root].fields[k] == Field("services", At(services)))
    && at < |heap[services].fields| && heap[services].fields[at].ref == At(service)
  }

  /** The target among the objects: a copy of the service in the copied document. */
  function TargetId(heap: Heap, service: nat): nat {
    service + 3 * |heap|
  }

  function ServicesId(heap: Heap, services: nat): nat {
    services + |heap|
  }

  /** Both deep copies made, the target put in place of the copied document's service. */
  function Prepared(heap: Heap, services: nat, at: nat, service: nat): Heap
    requires services < |heap| && at < |heap[services].fields|
  {
    var copies := DeepCopy(DeepCopy(heap));
    var s := ServicesId(heap, services);
    var cell := copies[s];
    assert cell == DeepCopy(heap)[s] == ShiftCell(heap[services], |heap|);
    copies[s := cell.(fields := cell.fields[at := Field(cell.fields[at].key, At(TargetId(heap, service)))])]
  }

  lemma {:induction false} CopiedCells(heap: Heap, i: nat)
    requires i < |heap|
    ensures var copies := DeepCopy(DeepCopy(heap));
            var n := |heap|;
            && |copies| == 4 * n && copies[i] == heap[i] && copies[i + n] == ShiftCell(heap[i], n)
            && copies[i + 3 * n] == ShiftCell(ShiftCell(heap[i], n), 2 * n)
  {
    var one := DeepCopy(heap);
    assert one[i + |heap|] == ShiftCell(heap[i], |heap|);
    assert DeepCopy(one)[(i + |heap|) + |one|] == ShiftCell(one[i + |heap|], |one|);
  }

  /** Changing cells without changing their depth keeps a heap sound if the new fields nest below. */
  lemma {:induction false} ChangedSound(heap: Heap, i: nat, fields: seq<Field>)
    requires Sound(heap) && i < |heap| && AllBelow(heap, fields, heap[i].depth)
    ensures Sound(heap[i := heap[i].(fields := fields)])
  {
    var after := heap[i := heap[i].(fields := fields)];
    forall j | 0 <= j < |after| ensures AllBelow(after, after[j].fields, after[j].depth) {
      assert AllBelow(heap, heap[j].fields, heap[j].depth);
      forall k | 0 <= k < |after[j].fields| ensures Below(after, after[j].fields[k].ref, after[j].depth) {
        assert Below(heap, after[j].fields[k].ref, heap[j].depth);
      }
    }
  }

  lemma {:induction false} PreparedSound(heap: Heap, root: nat, services: nat, at: nat, service: nat)
    requires Requested(heap, root, services, at, service)
    ensures Sound(Prepared(heap, services, at, service)) && |Prepared(heap, services, at, service)| == 4 * |heap|
  {
    CopySound(heap);
    CopySound(DeepCopy(heap));
    CopiedCells(heap, services);
    CopiedCells(heap, service);
    var copies := DeepCopy(DeepCopy(heap));
    var s := ServicesId(heap, services);
    assert AllBelow(copies, copies[s].fields, copies[s].depth);
    assert AllBelow(heap, heap[services].fields, heap[services].depth) && Below(heap, heap[services].fields[at].ref, heap[services].depth);
    var fields := copies[s].fields[at := Field(copies[s].fields[at].key, At(TargetId(heap, service)))];
    forall k | 0 <= k < |fields| ensures Below(copies, fields[k].ref, copies[s].depth) {
      assert Below(copies, copies[s].fields[k].ref, copies[s].depth);
    }
    ChangedSound(copies, s, fields);
  }

  /** The edits that follow touch copies of the second round only. */
  ghost predicate EditedFrom(prepared: Heap, after: Heap, n: nat) {
    |after| == |prepared| && 2 * n <= |prepared| && forall i :: 0 <= i < 2 * n ==> after[i] == prepared[i]
  }

  /** The document the mutation was asked for stays what it is, however its parts are shared. */
  lemma {:induction false} BaseIsKept(heap: Heap, root: nat, services: nat, at: nat, service: nat, after: Heap)
    requires Requested(heap, root, services, at, service) && Sound(after)
    requires EditedFrom(Prepared(heap, services, at, service), after, |heap|)
    ensures Within(after, At(root)) && Unfold(after, At(root)) == Unfold(heap, At(root))
  {
    var p := (i: nat) => i < |heap|;
    forall i | 0 <= i < |heap|
      ensures after[i] == heap[i]
      ensures forall k :: 0 <= k < |heap[i].fields| && heap[i].fields[k].ref.At? ==> p(heap[i].fields[k].ref.id)
    {
      CopiedCells(heap, i);
      assert AllBelow(heap, heap[i].fields, heap[i].depth);
      assert forall k :: 0 <= k < |heap[i].fields| ==> Below(heap, heap[i].fields[k].ref, heap[i].depth);
    }
    KeptUnfolds(heap, after, p, At(root));
  }

  /** The copied document's cells below the services, as an edit leaves them. */
  lemma {:induction false} SecondHalfKept(heap: Heap, root: nat, services: nat, at: nat, service: nat, after: Heap, p: nat -> bool)
    requires Requested(heap, root, services, at, service)
    requires EditedFrom(Prepared(heap, services, at, service), after, |heap|)
    requires forall i: nat :: p(i) <==> |heap| <= i < 2 * |heap| && DeepCopy(heap)[i].depth < heap[services].depth
    ensures Kept(DeepCopy(heap), after, p)
  {
    var one := DeepCopy(heap);
    CopiedCells(heap, services);
    forall i | 0 <= i < |one| && p(i)
      ensures after[i] == one[i]
      ensures forall k :: 0 <= k < |one[i].fields| && one[i].fields[k].ref.At? ==> p(one[i].fields[k].ref.id)
    {
      CopiedCells(heap, i - |heap|);
      SecondHalfRefs(heap, i - |heap|, heap[services].depth);
    }
  }

  /** Every other service of the copied document stays what it is, too. */
  lemma {:induction false} OtherServicesAreKept(heap: Heap, root: nat, services: nat, at: nat, service: nat, after: Heap, k: nat)
    requires Requested(heap, root, services, at, service) && Sound(after)
    requires EditedFrom(Prepared(heap, services, at, service), after, |heap|)
    requires k < |heap[services].fields| && k != at
    ensures var s := ServicesId(heap, services);
            var r := heap[services].fields[k].ref;
            && Within(heap, r) && s < |after| && |after[s].fields| == |heap[services].fields|
            && after[s].fields[k] == Field(heap[services].fields[k].key, Shift(r, |heap|))
            && Within(after, Shift(r, |heap|)) && Unfold(after, Shift(r, |heap|)) == Unfold(heap, r)
  {
    var n, d := |heap|, heap[services].depth;
    var r := heap[services].fields[k].ref;
    CopiedCells(heap, services);
    assert AllBelow(heap, heap[services].fields, d) && Below(heap, r, d);
    CopySound(heap);
    CopyUnfolds(heap, r);
    var p := (i: nat) => n <= i < 2 * n && i < |DeepCopy(heap)| && DeepCopy(heap)[i].depth < d;
    SecondHalfKept(heap, root, services, at, service, after, p);
    if r.At? { CopiedCells(heap, r.id); }
    KeptUnfolds(DeepCopy(heap), after, p, Shift(r, n));
  }

  lemma {:induction false} SecondHalfRefs(heap: Heap, i: nat, d: nat)
    requires Sound(heap) && i < |heap| && heap[i].depth < d
    ensures var one := DeepCopy(heap);
            var c := one[i + |heap|];
            forall k :: 0 <= k < |c.fields| && c.fields[k].ref.At? ==>
              |heap| <= c.fields[k].ref.id < 2 * |heap| && one[c.fields[k].ref.id].depth < d
  {
    var one := DeepCopy(heap);
    var c := one[i + |heap|];
    assert c == ShiftCell(heap[i], |heap|);
    assert AllBelow(heap, heap[i].fields, heap[i].depth);
    forall k | 0 <= k < |c.fields| && c.fields[k].ref.At?
      ensures |heap| <= c.fields[k].ref.id < 2 * |heap| && one[c.fields[k].ref.id].depth < d
    {
      assert Below(heap, heap[i].fields[k].ref, heap[i].depth);
      assert one[heap[i].fields[k].ref.id + |heap|] == ShiftCell(heap[heap[i].fields[k].ref.id], |heap|);
    }
  }

  // ----- the target before the edit

  /** Copies of the second round refer to such copies only. */
  lemma {:induction false} TargetRegion(heap: Heap, root: nat, services: nat, at: nat, service: nat, i: nat)
    requires Requested(heap, root, services, at, service) && i < |heap|
    ensures var h := Prepared(heap, services, at, service);
            var j := TargetId(heap, i);
            && j < |h| && h[j] == ShiftCell(heap[i], 3 * |heap|) && h[j] == DeepCopy(DeepCopy(heap))[j]
            && forall k :: 0 <= k < |h[j].fields| && h[j].fields[k].ref.At? ==>
                 3 * |heap| <= h[j].fields[k].ref.id < 4 * |heap|
                 && h[h[j].fields[k].ref.id].depth < h[j].depth
  {
    CopiedCells(heap, i);
    var h := Prepared(heap, services, at, service);
    var j := TargetId(heap, i);
    TwoShifts(heap[i], |heap|);
    assert AllBelow(heap, heap[i].fields, heap[i].depth);
    forall k | 0 <= k < |h[j].fields| && h[j].fields[k].ref.At?
      ensures 3 * |heap| <= h[j].fields[k].ref.id < 4 * |heap| && h[h[j].fields[k].ref.id].depth < h[j].depth
    {
      assert Below(heap, heap[i].fields[k].ref, heap[i].depth);
      CopiedCells(heap, heap[i].fields[k].ref.id);
    }
  }

  lemma {:induction false} TwoShifts(c: Cell, n: nat)
    ensures ShiftCell(ShiftCell(c, n), 2 * n) == ShiftCell(c, 3 * n)
  {
    assert ShiftFields(ShiftFields(c.fields, n), 2 * n) == ShiftFields(c.fields, 3 * n);
  }

  /** Cells of the second round, below a depth. */
  function Region(heap: Heap, prepared: Heap, d: nat): nat -> bool {
    (i: nat) => 3 * |heap| <= i < 4 * |heap| && i < |prepared| && prepared[i].depth < d
  }

  lemma {:induction false} RegionClosed(heap: Heap, root: nat, services: nat, at: nat, service: nat, d: nat, i: nat)
    requires Requested(heap, root, services, at, service)
    requires Region(heap, Prepared(heap, services, at, service), d)(i)
    ensures var h := Prepared(heap, services, at, service);
            forall k :: 0 <= k < |h[i].fields| && h[i].fields[k].ref.At? ==> Region(heap, h, d)(h[i].fields[k].ref.id)
  {
    TargetRegion(heap, root, services, at, service, i - 3 * |heap|);
    PreparedSound(heap, root, services, at, service);
  }

  /** The copied target stands for the service it was copied from. */
  lemma {:induction false} TargetUnfolds(heap: Heap, root: nat, services: nat, at: nat, service: nat)
    requires Requested(heap, root, services, at, service)
    ensures var h := Prepared(heap, services, at, service);
            && Sound(h) && Within(h, At(TargetId(heap, service)))
            && Unfold(h, At(TargetId(heap, service))) == Unfold(heap, At(service))
  {
    var h := Prepared(heap, services, at, service);
    var copies := DeepCopy(DeepCopy(heap));
    PreparedSound(heap, root, services, at, service);
    CopyUnfolds(heap, At(service));
    CopyUnfolds(DeepCopy(heap), At(service + |heap|));
    var d := heap[service].depth + 1;
    var p := Region(heap, h, d);
    forall i | 0 <= i < |copies| && p(i)
      ensures h[i] == copies[i]
      ensures forall k :: 0 <= k < |copies[i].fields| && copies[i].fields[k].ref.At? ==> p(copies[i].fields[k].ref.id)
    {
      TargetRegion(heap, root, services, at, service, i - 3 * |heap|);
      RegionClosed(heap, root, services, at, service, d, i);
    }
    TargetRegion(heap, root, services, at, service, service);
    KeptUnfolds(copies, h, p, At(TargetId(heap, service)));
  }

  // ----- the edits

  function FieldIndex(fields: seq<Field>, key: string): (r: int)
    ensures -1 <= r < |fields|
  {
    if fields == [] then -1
    else if fields[|fields| - 1].key == key then |fields| - 1
    else FieldIndex(fields[..|fields| - 1], key)
  }

  lemma {:induction false} SameIndex(fields: seq<Field>, entries: seq<Entry>, key: string)
    requires |fields| == |entries| && forall k :: 0 <= k < |fields| ==> fields[k].key == entries[k].key
    ensures FieldIndex(fields, key) == IndexOf(entries, key)
  {
    if fields != [] { SameIndex(fields[..|fields| - 1], entries[..|entries| - 1], key); }
  }

  /** `service[key] = value` and `del service[key]`. */
  function SetField(fields: seq<Field>, key: string, v: Value): seq<Field> {
    var i := FieldIndex(fields, key);
    if i >= 0 then fields[i := Field(key, Inline(v))] else fields + [Field(key, Inline(v))]
  }

  function DropField(fields: seq<Field>, key: string): seq<Field> {
    var i := FieldIndex(fields, key);
    if i >= 0 then fields[..i] + fields[i + 1..] else fields
  }

  lemma {:induction false} OneUnfolds(heap: Heap, f: Field, d: nat)
    requires Sound(heap) && Below(heap, f.ref, d)
    ensures AllBelow(heap, [f], d) && UnfoldFields(heap, [f], d) == [Entry(f.key, Unfold(heap, f.ref))]
  {
  }

  lemma {:induction false} ReplacedUnfolds(heap: Heap, fields: seq<Field>, d: nat, i: nat, f: Field)
    requires Sound(heap) && AllBelow(heap, fields, d) && i < |fields| && Below(heap, f.ref, d)
    ensures AllBelow(heap, fields[i := f], d)
    ensures UnfoldFields(heap, fields[i := f], d) == UnfoldFields(heap, fields, d)[i := Entry(f.key, Unfold(heap, f.ref))]
  {
    UnfoldCut(heap, fields, d, i);
    OneUnfolds(heap, f, d);
    assert fields[i := f] == (fields[..i] + [f]) + fields[i + 1..];
    UnfoldAppend(heap, fields[..i], [f], d);
    UnfoldAppend(heap, fields[..i] + [f], fields[i + 1..], d);
  }

  lemma {:induction false} SetFieldUnfolds(heap: Heap, fields: seq<Field>, d: nat, key: string, v: Value)
    requires Sound(heap) && AllBelow(heap, fields, d)
    ensures AllBelow(heap, SetField(fields, key, v), d)
    ensures UnfoldFields(heap, SetField(fields, key, v), d) == SetEntry(UnfoldFields(heap, fields, d), key, v)
  {
    SameIndex(fields, UnfoldFields(heap, fields, d), key);
    var f := Field(key, Inline(v));
    var i := FieldIndex(fields, key);
    if i >= 0 {
      ReplacedUnfolds(heap, fields, d, i, f);
    } else {
      OneUnfolds(heap, f, d);
      UnfoldAppend(heap, fields, [f], d);
    }
  }

  lemma {:induction false} DropFieldBelow(heap: Heap, fields: seq<Field>, d: nat, key: string)
    requires AllBelow(heap, fields, d)
    ensures AllBelow(heap, DropField(fields, key), d)
  {
    var i, after := FieldIndex(fields, key), DropField(fields, key);
    forall k | 0 <= k < |after| ensures Below(heap, after[k].ref, d) {
      var j := if i < 0 || k < i then k else k + 1;
      assert after[k] == fields[j] && Below(heap, fields[j].ref, d);
    }
  }

  lemma {:induction false} DropFieldUnfolds(heap: Heap, fields: seq<Field>, d: nat, key: string)
    requires Sound(heap) && AllBelow(heap, fields, d) && FieldIndex(fields, key) >= 0
    ensures AllBelow(heap, DropField(fields, key), d)
    ensures Has(UnfoldFields(heap, fields, d), key)
    ensures UnfoldFields(heap, DropField(fields, key), d) == DropEntry(UnfoldFields(heap, fields, d), key)
  {
    var entries := UnfoldFields(heap, fields, d);
    SameIndex(fields, entries, key);
    DropFieldBelow(heap, fields, d, key);
    DroppedEntries(heap, fields, DropField(fields, key), d, FieldIndex(fields, key));
  }

  lemma {:induction false} DroppedEntries(heap: Heap, fields: seq<Field>, after: seq<Field>, d: nat, i: nat)
    requires Sound(heap) && AllBelow(heap, fields, d) && AllBelow(heap, after, d)
    requires i < |fields| && after == fields[..i] + fields[i + 1..]
    ensures var entries := UnfoldFields(heap, fields, d);
            UnfoldFields(heap, after, d) == entries[..i] + entries[i + 1..]
  {
    UnfoldCut(heap, fields, d, i);
    UnfoldAppend(heap, fields[..i], fields[i + 1..], d);
  }

  lemma {:induction false} PartBelow(heap: Heap, fields: seq<Field>, d: nat, i: nat, j: nat)
    requires AllBelow(heap, fields, d) && i <= j <= |fields|
    ensures AllBelow(heap, fields[i..j], d)
  {
    var part := fields[i..j];
    forall k | 0 <= k < |part| ensures Below(heap, part[k].ref, d) { assert Below(heap, fields[i + k].ref, d); }
  }

  lemma {:induction false} AppendBelow(heap: Heap, a: seq<Field>, b: seq<Field>, d: nat)
    requires AllBelow(heap, a, d) && AllBelow(heap, b, d)
    ensures AllBelow(heap, a + b, d)
  {
    var c := a + b;
    forall k | 0 <= k < |c| ensures Below(heap, c[k].ref, d) {
      if k < |a| { assert Below(heap, a[k].ref, d); } else { assert Below(heap, b[k - |a|].ref, d); }
    }
  }

  lemma {:induction false} Associates<T>(x: seq<T>, y: seq<T>, z: seq<T>)
    ensures x + (y + z) == (x + y) + z
  {
  }

  lemma {:induction false} UnfoldAppend(heap: Heap, a: seq<Field>, b: seq<Field>, d: nat)
    requires Sound(heap) && AllBelow(heap, a, d) && AllBelow(heap, b, d)
    ensures AllBelow(heap, a + b, d) && UnfoldFields(heap, a + b, d) == UnfoldFields(heap, a, d) + UnfoldFields(heap, b, d)
    decreases |a|, 1
  {
    AppendBelow(heap, a, b, d);
    if a == [] {
      assert a + b == b;
    } else {
      UnfoldAppendStep(heap, a, b, d);
    }
  }

  lemma {:induction false} UnfoldAppendStep(heap: Heap, a: seq<Field>, b: seq<Field>, d: nat)
    requires Sound(heap) && AllBelow(heap, a, d) && AllBelow(heap, b, d) && AllBelow(heap, a + b, d) && a != []
    ensures UnfoldFields(heap, a + b, d) == UnfoldFields(heap, a, d) + UnfoldFields(heap, b, d)
    decreases |a|, 0
  {
    assert (a + b)[0] == a[0] && (a + b)[1..] == a[1..] + b;
    UnfoldFirst(heap, a, d);
    UnfoldFirst(heap, a + b, d);
    UnfoldAppend(heap, a[1..], b, d);
    Associates([Entry(a[0].key, Unfold(heap, a[0].ref))], UnfoldFields(heap, a[1..], d), UnfoldFields(heap, b, d));
  }

  lemma {:induction false} UnfoldFirst(heap: Heap, fields: seq<Field>, d: nat)
    requires Sound(heap) && AllBelow(heap, fields, d) && fields != []
    ensures AllBelow(heap, fields[1..], d) && Below(heap, fields[0].ref, d)
    ensures UnfoldFields(heap, fields, d) ==
            [Entry(fields[0].key, Unfold(heap, fields[0].ref))] + UnfoldFields(heap, fields[1..], d)
  {
    PartBelow(heap, fields, d, 1, |fields|);
  }

  /** The entries before, at and behind a field. */
  lemma {:induction false} UnfoldCut(heap: Heap, fields: seq<Field>, d: nat, i: nat)
    requires Sound(heap) && AllBelow(heap, fields, d) && i < |fields|
    ensures AllBelow(heap, fields[..i], d) && AllBelow(heap, fields[i + 1..], d)
    ensures var entries := UnfoldFields(heap, fields, d);
            UnfoldFields(heap, fields[..i], d) == entries[..i] && UnfoldFields(heap, fields[i + 1..], d) == entries[i + 1..]
  {
    PartBelow(heap, fields, d, 0, i);
    PartBelow(heap, fields, d, i + 1, |fields|);
    PartBelow(heap, fields, d, i, i + 1);
    assert fields[..i] + fields[i..i + 1] == fields[..i + 1] && fields[..i + 1] + fields[i + 1..] == fields;
    UnfoldAppend(heap, fields[..i], fields[i..i + 1], d);
    UnfoldAppend(heap, fields[..i + 1], fields[i + 1..], d);
  }

  /** The target's fields replaced. */
  function WithFields(h: Heap, t: nat, fields: seq<Field>): Heap
    requires t < |h|
  {
    h[t := h[t].(fields := fields)]
  }

  /** The cells of `p` refer to cells of `p` only. */
  ghost predicate Closed(h: Heap, p: nat -> bool) {
    forall i :: 0 <= i < |h| && p(i) ==> forall k :: 0 <= k < |h[i].fields| ==> Holds(p, h[i].fields[k].ref)
  }

  /** After an object's own fields changed, what they refer to is as before. */
  lemma {:induction false} EditedFields(h: Heap, t: nat, fields: seq<Field>, p: nat -> bool)
    requires Sound(h) && t < |h| && !p(t) && Closed(h, p) && AllBelow(h, fields, h[t].depth)
    requires forall k :: 0 <= k < |fields| ==> Holds(p, fields[k].ref)
    ensures var after := WithFields(h, t, fields);
            && Sound(after) && AllBelow(after, fields, h[t].depth)
            && UnfoldFields(after, fields, h[t].depth) == UnfoldFields(h, fields, h[t].depth)
  {
    ChangedSound(h, t, fields);
    var after := WithFields(h, t, fields);
    forall k | 0 <= k < |fields| ensures Below(after, fields[k].ref, h[t].depth) { assert Below(h, fields[k].ref, h[t].depth); }
    KeptFields(h, after, p, fields, h[t].depth);
  }

  lemma {:induction false} RegionIsClosed(heap: Heap, root: nat, services: nat, at: nat, service: nat, d: nat)
    requires Requested(heap, root, services, at, service)
    ensures Closed(Prepared(heap, services, at, service), Region(heap, Prepared(heap, services, at, service), d))
  {
    var h := Prepared(heap, services, at, service);
    forall i | 0 <= i < |h| && Region(heap, h, d)(i)
      ensures forall k :: 0 <= k < |h[i].fields| ==> Holds(Region(heap, h, d), h[i].fields[k].ref)
    {
      RegionClosed(heap, root, services, at, service, d, i);
    }
  }

  /** What the proofs about the edits need of the target. */
  lemma {:induction false} TargetReady(heap: Heap, root: nat, services: nat, at: nat, service: nat)
    requires Requested(heap, root, services, at, service)
    ensures var h := Prepared(heap, services, at, service);
            var t := TargetId(heap, service);
            && |h| == 4 * |heap| && Sound(h) && t < |h| && h[t] == ShiftCell(heap[service], 3 * |heap|)
            && AllBelow(h, h[t].fields, h[t].depth)
            && Closed(h, Region(heap, h, h[t].depth)) && !Region(heap, h, h[t].depth)(t)
            && (forall k :: 0 <= k < |h[t].fields| ==> Holds(Region(heap, h, h[t].depth), h[t].fields[k].ref))
            && Unfold(heap, At(service)) == Mapping(heap[service].mark, UnfoldFields(h, h[t].fields, h[t].depth))
  {
    PreparedSound(heap, root, services, at, service);
    TargetUnfolds(heap, root, services, at, service);
    TargetRegion(heap, root, services, at, service, service);
    var h := Prepared(heap, services, at, service);
    RegionIsClosed(heap, root, services, at, service, h[TargetId(heap, service)].depth);
  }

  lemma {:induction false} SetFieldHolds(p: nat -> bool, fields: seq<Field>, key: string, v: Value)
    requires forall k :: 0 <= k < |fields| ==> Holds(p, fields[k].ref)
    ensures forall k :: 0 <= k < |SetField(fields, key, v)| ==> Holds(p, SetField(fields, key, v)[k].ref)
  {
  }

  lemma {:induction false} DropFieldHolds(p: nat -> bool, fields: seq<Field>, key: string)
    requires forall k :: 0 <= k < |fields| ==> Holds(p, fields[k].ref)
    ensures forall k :: 0 <= k < |DropField(fields, key)| ==> Holds(p, DropField(fields, key)[k].ref)
  {
    var after := DropField(fields, key);
    forall k | 0 <= k < |after| ensures Holds(p, after[k].ref) {
      assert after[k] == fields[if FieldIndex(fields, key) < 0 || k < FieldIndex(fields, key) then k else k + 1];
    }
  }

  /** Setting one key of an object does the same to the tree it stands for. */
  lemma {:induction false} SetOnObject(h: Heap, t: nat, p: nat -> bool, key: string, v: Value)
    requires Sound(h) && t < |h| && h[t].isMap && !p(t) && Closed(h, p) && AllBelow(h, h[t].fields, h[t].depth)
    requires forall k :: 0 <= k < |h[t].fields| ==> Holds(p, h[t].fields[k].ref)
    ensures var after := WithFields(h, t, SetField(h[t].fields, key, v));
            && Sound(after)
            && Unfold(after, At(t)) == Mapping(h[t].mark, SetEntry(UnfoldFields(h, h[t].fields, h[t].depth), key, v))
  {
    SetFieldHolds(p, h[t].fields, key, v);
    SetFieldUnfolds(h, h[t].fields, h[t].depth, key, v);
    EditedFields(h, t, SetField(h[t].fields, key, v), p);
  }

  /** So does deleting one. */
  lemma {:induction false} DropOnObject(h: Heap, t: nat, p: nat -> bool, key: string)
    requires Sound(h) && t < |h| && h[t].isMap && !p(t) && Closed(h, p) && AllBelow(h, h[t].fields, h[t].depth)
    requires forall k :: 0 <= k < |h[t].fields| ==> Holds(p, h[t].fields[k].ref)
    requires FieldIndex(h[t].fields, key) >= 0
    ensures var after := WithFields(h, t, DropField(h[t].fields, key));
            var entries := UnfoldFields(h, h[t].fields, h[t].depth);
            && Sound(after) && Has(entries, key) && Unfold(after, At(t)) == Mapping(h[t].mark, DropEntry(entries, key))
  {
    DropFieldHolds(p, h[t].fields, key);
    DropFieldUnfolds(h, h[t].fields, h[t].depth, key);
    EditedFields(h, t, DropField(h[t].fields, key), p);
  }

  // ----- deleting list items in place

  /** The items that are no bind of the Docker socket. */
  ghost function KeptItems(h: Heap, fields: seq<Field>, d: nat): (r: seq<Field>)
    requires Sound(h) && AllBelow(h, fields, d)
    ensures forall f :: f in r ==> f in fields
  {
    if fields == [] then []
    else
      var last := fields[|fields| - 1];
      assert Below(h, last.ref, d);
      InitBelow(h, fields, d);
      KeptItems(h, fields[..|fields| - 1], d) + if IsSocketBind(Unfold(h, last.ref)) then [] else [last]
  }

  lemma {:induction false} InitBelow(h: Heap, fields: seq<Field>, d: nat)
    requires AllBelow(h, fields, d) && fields != []
    ensures AllBelow(h, fields[..|fields| - 1], d)
  {
    var init := fields[..|fields| - 1];
    forall k | 0 <= k < |init| ensures Below(h, init[k].ref, d) { assert Below(h, fields[k].ref, d); }
  }

  lemma {:induction false} KeptItemsBelow(h: Heap, fields: seq<Field>, d: nat, p: nat -> bool)
    requires Sound(h) && AllBelow(h, fields, d) && forall k :: 0 <= k < |fields| ==> Holds(p, fields[k].ref)
    ensures var r := KeptItems(h, fields, d);
            AllBelow(h, r, d) && forall k :: 0 <= k < |r| ==> Holds(p, r[k].ref)
  {
    var r := KeptItems(h, fields, d);
    forall k | 0 <= k < |r| ensures Below(h, r[k].ref, d) && Holds(p, r[k].ref) {
      assert r[k] in fields;
      var j :| 0 <= j < |fields| && fields[j] == r[k];
      assert Below(h, fields[j].ref, d);
    }
  }

  /** The values an object's fields stand for, whatever their keys. */
  ghost function Values(h: Heap, fields: seq<Field>, d: nat): seq<Value>
    requires Sound(h) && AllBelow(h, fields, d)
  {
    ValuesOf(UnfoldFields(h, fields, d))
  }

  lemma {:induction false} ValuesAppend(h: Heap, a: seq<Field>, b: seq<Field>, d: nat)
    requires Sound(h) && AllBelow(h, a, d) && AllBelow(h, b, d)
    ensures AllBelow(h, a + b, d) && Values(h, a + b, d) == Values(h, a, d) + Values(h, b, d)
  {
    forall k | 0 <= k < |a + b| ensures Below(h, (a + b)[k].ref, d) {
      if k < |a| { assert Below(h, a[k].ref, d); } else { assert Below(h, b[k - |a|].ref, d); }
    }
    var x, y := Values(h, a + b, d), Values(h, a, d) + Values(h, b, d);
    forall k | 0 <= k < |x| ensures x[k] == y[k] {}
  }

  lemma {:induction false} KeptItemsUnfold(h: Heap, fields: seq<Field>, d: nat)
    requires Sound(h) && AllBelow(h, fields, d)
    ensures AllBelow(h, KeptItems(h, fields, d), d)
    ensures Values(h, KeptItems(h, fields, d), d) == WithoutSockets(Values(h, fields, d))
  {
    KeptItemsBelow(h, fields, d, (i: nat) => true);
    if fields != [] {
      var init, last := fields[..|fields| - 1], fields[|fields| - 1];
      InitBelow(h, fields, d);
      KeptItemsUnfold(h, init, d);
      assert Below(h, last.ref, d);
      assert fields == init + [last] && AllBelow(h, [last], d);
      ValuesAppend(h, init, [last], d);
      assert Values(h, [last], d) == [Unfold(h, last.ref)];
      WithoutSocketsStep(Values(h, init, d), Unfold(h, last.ref));
      if !IsSocketBind(Unfold(h, last.ref)) { ValuesAppend(h, KeptItems(h, init, d), [last], d); }
      else { assert KeptItems(h, init, d) + [] == KeptItems(h, init, d); }
    }
  }

  lemma {:induction false} WithoutSocketsStep(items: seq<Value>, v: Value)
    ensures WithoutSockets(items + [v]) == WithoutSockets(items) + if IsSocketBind(v) then [] else [v]
  {
    assert (items + [v])[..|items|] == items;
  }

  /** The list, edited where it is: everyone who refers to it sees the change. */
  ghost function WithoutSocketItems(h: Heap, v: nat): Heap
    requires Sound(h) && v < |h|
  {
    assert AllBelow(h, h[v].fields, h[v].depth);
    WithFields(h, v, KeptItems(h, h[v].fields, h[v].depth))
  }

  lemma {:induction false} ListEdited(h: Heap, v: nat, p: nat -> bool)
    requires Sound(h) && v < |h| && !h[v].isMap && !p(v) && Closed(h, p)
    requires forall k :: 0 <= k < |h[v].fields| ==> Holds(p, h[v].fields[k].ref)
    ensures var after := WithoutSocketItems(h, v);
            && Sound(after) && AllBelow(h, h[v].fields, h[v].depth)
            && Unfold(h, At(v)) == List(h[v].mark, Values(h, h[v].fields, h[v].depth))
            && Unfold(after, At(v)) == List(h[v].mark, WithoutSockets(Values(h, h[v].fields, h[v].depth)))
  {
    var d := h[v].depth;
    assert AllBelow(h, h[v].fields, d);
    KeptItemsBelow(h, h[v].fields, d, p);
    KeptItemsUnfold(h, h[v].fields, d);
    EditedFields(h, v, KeptItems(h, h[v].fields, d), p);
  }

  // ----- the mutation as a whole

  /** Setting or deleting the mutation's key on the target. */
  function KeyEdit(h: Heap, t: nat, entries: seq<Entry>, kind: MutationType): Heap
    requires t < |h| && MutateService(entries, kind).Ok?
  {
    if Written(entries, kind).Some? then WithFields(h, t, SetField(h[t].fields, KeyOf(kind), Written(entries, kind).value))
    else WithFields(h, t, DropField(h[t].fields, KeyOf(kind)))
  }

  /** The mutation's key is an alias of, or itself, an object. */
  predicate HasObject(h: Heap, t: nat, key: string)
    requires t < |h|
  {
    var i := FieldIndex(h[t].fields, key);
    i >= 0 && h[t].fields[i].ref.At? && h[t].fields[i].ref.id < |h|
  }

  function ObjectOf(h: Heap, t: nat, key: string): nat
    requires t < |h| && HasObject(h, t, key)
  {
    h[t].fields[FieldIndex(h[t].fields, key)].ref.id
  }

  /** What `apply_mutation` leaves among the objects. */
  ghost function SharedMutate(heap: Heap, root: nat, services: nat, at: nat, service: nat, kind: MutationType)
    : Result<Heap, MutationFailure>
    requires Requested(heap, root, services, at, service)
  {
    TargetReady(heap, root, services, at, service);
    var h := Prepared(heap, services, at, service);
    var t := TargetId(heap, service);
    var entries := Unfold(heap, At(service)).entries;
    match MutateService(entries, kind)
    case Err(e) => Err(e)
    case Ok(_) =>
      if kind.RemoveDockerSocket? && HasObject(h, t, "volumes") then Ok(WithoutSocketItems(h, ObjectOf(h, t, "volumes")))
      else Ok(KeyEdit(h, t, entries, kind))
  }

  /** The volumes list the socket mutation edits in place. */
  ghost predicate EditsList(heap: Heap, services: nat, at: nat, service: nat, v: nat)
    requires services < |heap| && at < |heap[services].fields|
  {
    var h := Prepared(heap, services, at, service);
    var t := TargetId(heap, service);
    t < |h| && HasObject(h, t, "volumes") && ObjectOf(h, t, "volumes") == v
  }

  /** Sockets are removed from a list only, and nothing but the list changes. */
  lemma {:induction false} SocketResult(entries: seq<Entry>)
    requires MutateService(entries, RemoveDockerSocket).Ok?
    ensures Has(entries, "volumes") && Get(entries, "volumes").List?
    ensures var list := Get(entries, "volumes");
            MutateService(entries, RemoveDockerSocket).value ==
              SetEntry(entries, "volumes", List(list.mark, WithoutSockets(list.items)))
  {
  }

  lemma {:induction false} VolumesCell(h: Heap, t: nat)
    requires Sound(h) && t < |h| && AllBelow(h, h[t].fields, h[t].depth) && HasObject(h, t, "volumes")
    requires MutateService(UnfoldFields(h, h[t].fields, h[t].depth), RemoveDockerSocket).Ok?
    ensures !h[ObjectOf(h, t, "volumes")].isMap
    ensures Get(UnfoldFields(h, h[t].fields, h[t].depth), "volumes") == Unfold(h, At(ObjectOf(h, t, "volumes")))
  {
    var entries := UnfoldFields(h, h[t].fields, h[t].depth);
    SameIndex(h[t].fields, entries, "volumes");
    SocketResult(entries);
  }

  lemma {:induction false} ListRegion(heap: Heap, root: nat, services: nat, at: nat, service: nat, v: nat)
    requires Requested(heap, root, services, at, service) && EditsList(heap, services, at, service, v)
    ensures var h := Prepared(heap, services, at, service);
            && v < |h| && 3 * |heap| <= v
            && (forall k :: 0 <= k < |h[v].fields| ==> Holds(Region(heap, h, h[v].depth), h[v].fields[k].ref))
            && Closed(h, Region(heap, h, h[v].depth)) && !Region(heap, h, h[v].depth)(v)
  {
    TargetReady(heap, root, services, at, service);
    var h := Prepared(heap, services, at, service);
    var t := TargetId(heap, service);
    assert Holds(Region(heap, h, h[t].depth), h[t].fields[FieldIndex(h[t].fields, "volumes")].ref);
    RegionIsClosed(heap, root, services, at, service, h[v].depth);
    TargetRegion(heap, root, services, at, service, v - 3 * |heap|);
  }

  lemma {:induction false} EditedIs(heap: Heap, root: nat, services: nat, at: nat, service: nat, v: nat)
    requires Requested(heap, root, services, at, service) && EditsList(heap, services, at, service, v)
    requires SharedMutate(heap, root, services, at, service, RemoveDockerSocket).Ok?
    ensures var h := Prepared(heap, services, at, service);
            && Sound(h) && |h| == 4 * |heap| && v < |h| && !h[v].isMap
            && SharedMutate(heap, root, services, at, service, RemoveDockerSocket).value == WithoutSocketItems(h, v)
  {
    TargetReady(heap, root, services, at, service);
    VolumesCell(Prepared(heap, services, at, service), TargetId(heap, service));
  }

  lemma {:induction false} Edited(heap: Heap, root: nat, services: nat, at: nat, service: nat, v: nat)
    requires Requested(heap, root, services, at, service) && EditsList(heap, services, at, service, v)
    requires SharedMutate(heap, root, services, at, service, RemoveDockerSocket).Ok?
    ensures var h := Prepared(heap, services, at, service);
            var after := SharedMutate(heap, root, services, at, service, RemoveDockerSocket).value;
            && Sound(h) && v < |h| && !h[v].isMap && after == WithoutSocketItems(h, v) && Sound(after)
            && Unfold(h, At(v)).List?
            && Unfold(after, At(v)) == List(h[v].mark, WithoutSockets(Unfold(h, At(v)).items))
            && EditedFrom(h, after, |heap|)
  {
    var h := Prepared(heap, services, at, service);
    EditedIs(heap, root, services, at, service, v);
    ListRegion(heap, root, services, at, service, v);
    ListEdited(h, v, Region(heap, h, h[v].depth));
  }

  /** The edit of a mutation is one key set or deleted. */
  ghost predicate EditsKey(entries: seq<Entry>, kind: MutationType)
    requires MutateService(entries, kind).Ok?
  {
    var w := Written(entries, kind);
    && (w.None? ==> Has(entries, KeyOf(kind)))
    && MutateService(entries, kind).value ==
         if w.Some? then SetEntry(entries, KeyOf(kind), w.value) else DropEntry(entries, KeyOf(kind))
  }

  lemma {:induction false} ScalarEditsKey(entries: seq<Entry>, kind: MutationType)
    requires MutateService(entries, kind).Ok? && kind in {SetNonRoot, DropAllCaps, SetReadOnly, DropPrivileged}
    ensures EditsKey(entries, kind)
  {
  }

  lemma {:induction false} TmpfsEditsKey(entries: seq<Entry>)
    requires MutateService(entries, AddTmpfs).Ok?
    ensures EditsKey(entries, AddTmpfs)
  {
  }

  lemma {:induction false} SocketsEditKey(entries: seq<Entry>)
    requires MutateService(entries, RemoveDockerSocket).Ok?
    ensures EditsKey(entries, RemoveDockerSocket)
  {
  }

  lemma {:induction false} NoNetworkMode(entries: seq<Entry>)
    requires !Has(entries, "network_mode")
    ensures MutateService(entries, BridgeNetwork).Err?
  {
    assert CurrentField(entries, KeyOf(BridgeNetwork), DefaultOf(BridgeNetwork)) == Ok(Atom(Null));
    OkByCurrent(entries, BridgeNetwork);
  }

  lemma {:induction false} BridgeEditsKey(entries: seq<Entry>)
    requires MutateService(entries, BridgeNetwork).Ok?
    ensures EditsKey(entries, BridgeNetwork)
  {
    if !Has(entries, "network_mode") { NoNetworkMode(entries); }
  }

  lemma {:induction false} MutatedIs(entries: seq<Entry>, kind: MutationType)
    requires MutateService(entries, kind).Ok?
    ensures EditsKey(entries, kind)
  {
    match kind
    case AddTmpfs => TmpfsEditsKey(entries);
    case RemoveDockerSocket => SocketsEditKey(entries);
    case BridgeNetwork => BridgeEditsKey(entries);
    case _ => ScalarEditsKey(entries, kind);
  }

  /** The edits of a key, on any heap in which the target refers to other objects only. */
  lemma {:induction false} KeyEditIs(h: Heap, t: nat, kind: MutationType, p: nat -> bool)
    requires Sound(h) && t < |h| && h[t].isMap && !p(t) && Closed(h, p) && AllBelow(h, h[t].fields, h[t].depth)
    requires forall k :: 0 <= k < |h[t].fields| ==> Holds(p, h[t].fields[k].ref)
    requires MutateService(UnfoldFields(h, h[t].fields, h[t].depth), kind).Ok?
    ensures var entries := UnfoldFields(h, h[t].fields, h[t].depth);
            var after := KeyEdit(h, t, entries, kind);
            && Sound(after) && |after| == |h|
            && Unfold(after, At(t)) == Mapping(h[t].mark, MutateService(entries, kind).value)
  {
    var entries := UnfoldFields(h, h[t].fields, h[t].depth);
    SameIndex(h[t].fields, entries, KeyOf(kind));
    MutatedIs(entries, kind);
    if Written(entries, kind).Some? {
      SetOnObject(h, t, p, KeyOf(kind), Written(entries, kind).value);
    } else {
      DropOnObject(h, t, p, KeyOf(kind));
    }
  }

  /** A mutation that edits a key of the target: the objects it leaves, and the tree the target stands for then. */
  lemma {:induction false} KeyCase(heap: Heap, root: nat, services: nat, at: nat, service: nat, kind: MutationType)
    requires Requested(heap, root, services, at, service)
    requires MutateService(Unfold(heap, At(service)).entries, kind).Ok?
    ensures var h := Prepared(heap, services, at, service);
            var t := TargetId(heap, service);
            var entries := Unfold(heap, At(service)).entries;
            && t < |h|
            && var after := KeyEdit(h, t, entries, kind);
            && Sound(after) && EditedFrom(h, after, |heap|)
            && Unfold(after, At(t)) == Mapping(heap[service].mark, MutateService(entries, kind).value)
  {
    TargetReady(heap, root, services, at, service);
    var h := Prepared(heap, services, at, service);
    var t := TargetId(heap, service);
    KeyEditIs(h, t, kind, Region(heap, h, h[t].depth));
  }

  /** Every mutation edits copies only. */
  lemma {:induction false} EditsCopiesOnly(heap: Heap, root: nat, services: nat, at: nat, service: nat, kind: MutationType)
    requires Requested(heap, root, services, at, service)
    requires SharedMutate(heap, root, services, at, service, kind).Ok?
    ensures var h := Prepared(heap, services, at, service);
            var after := SharedMutate(heap, root, services, at, service, kind).value;
            Sound(after) && EditedFrom(h, after, |heap|)
  {
    TargetReady(heap, root, services, at, service);
    var h := Prepared(heap, services, at, service);
    var t := TargetId(heap, service);
    if kind.RemoveDockerSocket? && HasObject(h, t, "volumes") {
      Edited(heap, root, services, at, service, ObjectOf(h, t, "volumes"));
    } else {
      KeyCase(heap, root, services, at, service, kind);
    }
  }

  /** The document and the other services stay what they are, even when aliases make services share their mapping. */
  lemma {:induction false} AliasesAreSafe(heap: Heap, root: nat, services: nat, at: nat, service: nat, kind: MutationType, k: nat)
    requires Requested(heap, root, services, at, service) && k < |heap[services].fields| && k != at
    requires SharedMutate(heap, root, services, at, service, kind).Ok?
    ensures var after := SharedMutate(heap, root, services, at, service, kind).value;
            var s := ServicesId(heap, services);
            && Sound(after) && Within(after, At(root)) && Unfold(after, At(root)) == Unfold(heap, At(root))
            && Within(heap, heap[services].fields[k].ref)
            && s < |after| && k < |after[s].fields| && Within(after, after[s].fields[k].ref)
            && Unfold(after, after[s].fields[k].ref) == Unfold(heap, heap[services].fields[k].ref)
  {
    EditsCopiesOnly(heap, root, services, at, service, kind);
    var after := SharedMutate(heap, root, services, at, service, kind).value;
    BaseIsKept(heap, root, services, at, service, after);
    OtherServicesAreKept(heap, root, services, at, service, after, k);
  }

  /** The mutations that set or delete a key give the service the tree they should. */
  lemma {:induction false} KeyMutationIsExact(heap: Heap, root: nat, services: nat, at: nat, service: nat, kind: MutationType)
    requires Requested(heap, root, services, at, service) && !kind.RemoveDockerSocket?
    requires SharedMutate(heap, root, services, at, service, kind).Ok?
    ensures var after := SharedMutate(heap, root, services, at, service, kind).value;
            var t := TargetId(heap, service);
            && Sound(after) && Within(after, At(t)) && Unfold(heap, At(service)).Mapping?
            && MutateService(Unfold(heap, At(service)).entries, kind).Ok?
            && Unfold(after, At(t)) ==
                 Mapping(heap[service].mark, MutateService(Unfold(heap, At(service)).entries, kind).value)
  {
    TargetReady(heap, root, services, at, service);
    KeyCase(heap, root, services, at, service, kind);
  }

  /** Removing the socket edits the volumes list itself: any other key of the service that is an alias of the list loses
      its sockets too. */
  lemma {:induction false} SharedListLosesSockets(heap: Heap, root: nat, services: nat, at: nat, service: nat, v: nat, k: nat)
    requires Requested(heap, root, services, at, service)
    requires SharedMutate(heap, root, services, at, service, RemoveDockerSocket).Ok?
    requires EditsList(heap, services, at, service, v)
    requires k < |heap[service].fields| && Shift(heap[service].fields[k].ref, 3 * |heap|) == At(v)
    ensures var h := Prepared(heap, services, at, service);
            var after := SharedMutate(heap, root, services, at, service, RemoveDockerSocket).value;
            var t := TargetId(heap, service);
            && Sound(h) && Sound(after) && t < |after| && k < |after[t].fields| && after[t].fields[k].ref == At(v)
            && Within(h, At(v)) && Unfold(h, At(v)).List?
            && Unfold(after, At(v)) == List(h[v].mark, WithoutSockets(Unfold(h, At(v)).items))
  {
    TargetReady(heap, root, services, at, service);
    Edited(heap, root, services, at, service, v);
  }

  /** No key of the service but its volumes reaches the list. */
  ghost predicate ListIsPrivate(heap: Heap, services: nat, at: nat, service: nat, v: nat, p: nat -> bool)
    requires services < |heap| && at < |heap[services].fields|
  {
    var h := Prepared(heap, services, at, service);
    var t := TargetId(heap, service);
    && t < |h| && Closed(h, p) && !p(v)
    && forall k :: 0 <= k < |h[t].fields| && k != FieldIndex(h[t].fields, "volumes") ==> Holds(p, h[t].fields[k].ref)
  }

  /** When no other key of the service reaches the list, the service is given the tree it should. */
  lemma {:induction false} SocketRemovalIsExact(heap: Heap, root: nat, services: nat, at: nat, service: nat, v: nat, p: nat -> bool)
    requires Requested(heap, root, services, at, service)
    requires SharedMutate(heap, root, services, at, service, RemoveDockerSocket).Ok?
    requires EditsList(heap, services, at, service, v) && ListIsPrivate(heap, services, at, service, v, p)
    ensures var after := SharedMutate(heap, root, services, at, service, RemoveDockerSocket).value;
            var t := TargetId(heap, service);
            && Sound(after) && Within(after, At(t)) && Unfold(heap, At(service)).Mapping?
            && MutateService(Unfold(heap, At(service)).entries, RemoveDockerSocket).Ok?
            && Unfold(after, At(t)) ==
                 Mapping(heap[service].mark, MutateService(Unfold(heap, At(service)).entries, RemoveDockerSocket).value)
  {
    TargetReady(heap, root, services, at, service);
    Edited(heap, root, services, at, service, v);
    var h := Prepared(heap, services, at, service);
    var t := TargetId(heap, service);
    VolumesCell(h, t);
    SocketResult(Unfold(heap, At(service)).entries);
    OtherKeysKept(h, t, v, p);
  }

  /** One field of the target, after the list was edited. */
  lemma {:induction false} FieldAfter(h: Heap, t: nat, v: nat, p: nat -> bool, k: nat)
    requires Sound(h) && v < |h| && t < |h| && Sound(WithoutSocketItems(h, v))
    requires AllBelow(h, h[t].fields, h[t].depth) && Closed(h, p) && !p(v)
    requires k < |h[t].fields| && Holds(p, h[t].fields[k].ref)
    ensures Within(h, h[t].fields[k].ref) && Within(WithoutSocketItems(h, v), h[t].fields[k].ref)
    ensures Unfold(WithoutSocketItems(h, v), h[t].fields[k].ref) == Unfold(h, h[t].fields[k].ref)
  {
    assert Below(h, h[t].fields[k].ref, h[t].depth);
    KeptUnfolds(h, WithoutSocketItems(h, v), p, h[t].fields[k].ref);
  }

  lemma {:induction false} OtherKeysKept(h: Heap, t: nat, v: nat, p: nat -> bool)
    requires Sound(h) && v < |h| && t < |h| && h[t].isMap && !h[v].isMap && Sound(WithoutSocketItems(h, v))
    requires AllBelow(h, h[t].fields, h[t].depth) && Closed(h, p) && !p(v)
    requires HasObject(h, t, "volumes") && ObjectOf(h, t, "volumes") == v
    requires forall k :: 0 <= k < |h[t].fields| && k != FieldIndex(h[t].fields, "volumes") ==> Holds(p, h[t].fields[k].ref)
    ensures var after := WithoutSocketItems(h, v);
            var entries := UnfoldFields(h, h[t].fields, h[t].depth);
            && Within(after, At(t)) && Within(after, At(v))
            && Unfold(after, At(t)) == Mapping(h[t].mark, SetEntry(entries, "volumes", Unfold(after, At(v))))
  {
    var after := WithoutSocketItems(h, v);
    var fields, d := h[t].fields, h[t].depth;
    assert after[t] == h[t] && AllBelow(after, after[t].fields, after[t].depth);
    var entries := UnfoldFields(h, fields, d);
    SameIndex(fields, entries, "volumes");
    OneFieldChanged(h, t, v, p);
  }

  lemma {:induction false} OneFieldChanged(h: Heap, t: nat, v: nat, p: nat -> bool)
    requires Sound(h) && v < |h| && t < |h| && t != v && Sound(WithoutSocketItems(h, v))
    requires AllBelow(h, h[t].fields, h[t].depth) && Closed(h, p) && !p(v)
    requires AllBelow(WithoutSocketItems(h, v), h[t].fields, h[t].depth)
    requires HasObject(h, t, "volumes") && ObjectOf(h, t, "volumes") == v
    requires FieldIndex(h[t].fields, "volumes") == IndexOf(UnfoldFields(h, h[t].fields, h[t].depth), "volumes")
    requires forall k :: 0 <= k < |h[t].fields| && k != FieldIndex(h[t].fields, "volumes") ==> Holds(p, h[t].fields[k].ref)
    ensures var after := WithoutSocketItems(h, v);
            Within(after, At(v)) && UnfoldFields(after, h[t].fields, h[t].depth) ==
            SetEntry(UnfoldFields(h, h[t].fields, h[t].depth), "volumes", Unfold(after, At(v)))
  {
    var after := WithoutSocketItems(h, v);
    var i := FieldIndex(h[t].fields, "volumes");
    forall k | 0 <= k < |h[t].fields| && k != i
      ensures Within(h, h[t].fields[k].ref) && Within(after, h[t].fields[k].ref)
      ensures Unfold(after, h[t].fields[k].ref) == Unfold(h, h[t].fields[k].ref)
    {
      FieldAfter(h, t, v, p, k);
    }
    ReplacedEntry(h, after, h[t].fields, h[t].depth, i);
  }

  lemma {:induction false} ReplacedEntry(h: Heap, after: Heap, fields: seq<Field>, d: nat, i: nat)
    requires Sound(h) && Sound(after) && AllBelow(h, fields, d) && AllBelow(after, fields, d) && i < |fields|
    requires forall k :: 0 <= k < |fields| ==> Within(h, fields[k].ref) && Within(after, fields[k].ref)
    requires forall k :: 0 <= k < |fields| && k != i ==> Unfold(after, fields[k].ref) == Unfold(h, fields[k].ref)
    ensures UnfoldFields(after, fields, d) ==
            UnfoldFields(h, fields, d)[i := Entry(fields[i].key, Unfold(after, fields[i].ref))]
  {
    var a, b := UnfoldFields(after, fields, d), UnfoldFields(h, fields, d)[i := Entry(fields[i].key, Unfold(after, fields[i].ref))];
    forall k | 0 <= k < |a| ensures a[k] == b[k] {}
  }
}
