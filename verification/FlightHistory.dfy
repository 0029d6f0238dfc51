/** Where the entries of the cache come from, over any interleaving: what a hit finds is fresh. */
module FlightHistory {
  import opened Basics
  import opened FlightCache

  function Clock(actions: seq<Action>, limits: Limits): int {
    After(actions, limits).now
  }

  /** Action `i` stores an entry for the key: its thread leads the key's flight, and the entry is not too large. */
  predicate StoresKey(actions: seq<Action>, limits: Limits, i: nat, key: Key)
    requires i < |actions|
  {
    actions[i].Store? && actions[i].size <= limits.bytes &&
    var w, t := After(actions[..i], limits), actions[i].thread;
    t in w.phases && w.phases[t].Leading? && w.phases[t].key == key
  }

  /** The entry was stored by action `i`, and none was stored for its key since. */
  ghost predicate StoredBy(actions: seq<Action>, limits: Limits, slot: Slot, i: nat) {
    && i < |actions| && StoresKey(actions, limits, i, slot.key)
    && slot == Slot(slot.key, actions[i].value, Clock(actions[..i], limits) + actions[i].ttl, actions[i].size)
    && forall j :: i < j < |actions| ==> !StoresKey(actions, limits, j, slot.key)
  }

  ghost predicate HasSource(actions: seq<Action>, limits: Limits, slot: Slot) {
    exists i :: StoredBy(actions, limits, slot, i)
  }

  ghost predicate Sourced(actions: seq<Action>, limits: Limits, slots: seq<Slot>) {
    forall k :: 0 <= k < |slots| ==> HasSource(actions, limits, slots[k])
  }

  lemma ClockGoesOn(actions: seq<Action>, limits: Limits)
    requires actions != []
    ensures Clock(actions[..|actions| - 1], limits) <= Clock(actions, limits)
  {
  }

  lemma {:induction false} ClockIsMonotone(actions: seq<Action>, limits: Limits, i: nat)
    requires i <= |actions|
    ensures Clock(actions[..i], limits) <= Clock(actions, limits)
    decreases |actions|
  {
    if i == |actions| {
      assert actions[..i] == actions;
    } else {
      var before := actions[..|actions| - 1];
      ClockIsMonotone(before, limits, i);
      assert before[..i] == actions[..i];
      ClockGoesOn(actions, limits);
    }
  }

  lemma StoresEarlier(actions: seq<Action>, a: Action, limits: Limits, i: nat, key: Key)
    requires i < |actions|
    ensures StoresKey(actions + [a], limits, i, key) <==> StoresKey(actions, limits, i, key)
  {
    assert (actions + [a])[..i] == actions[..i];
  }

  /** An entry stays what it was until one is stored for its key. */
  lemma StoredStays(actions: seq<Action>, a: Action, limits: Limits, slot: Slot, i: nat)
    requires StoredBy(actions, limits, slot, i) && !StoresKey(actions + [a], limits, |actions|, slot.key)
    ensures StoredBy(actions + [a], limits, slot, i)
  {
    var longer := actions + [a];
    StoresEarlier(actions, a, limits, i, slot.key);
    assert longer[..i] == actions[..i];
    forall j | i < j < |longer| ensures !StoresKey(longer, limits, j, slot.key) {
      if j < |actions| { StoresEarlier(actions, a, limits, j, slot.key); }
    }
  }

  lemma StoredNow(actions: seq<Action>, a: Action, limits: Limits, key: Key)
    requires a.Store? && StoresKey(actions + [a], limits, |actions|, key)
    ensures StoredBy(actions + [a], limits, Slot(key, a.value, Clock(actions, limits) + a.ttl, a.size), |actions|)
  {
    assert (actions + [a])[..|actions|] == actions;
  }

  /** Nothing but a store brings in an entry. */
  lemma WithoutIsAmong(slots: seq<Slot>, key: Key, k: nat) returns (i: nat)
    requires k < |Without(slots, key)|
    ensures i < |slots| && Without(slots, key)[k] == slots[i]
  {
    i := if k < IndexOfKey(slots, key) then k else k + 1;
  }

  /** The entries after one action, besides a new one, are among those before, for other keys than the stored one. */
  ghost predicate FromBefore(before: seq<Slot>, after: seq<Slot>, stored: Option<Slot>) {
    forall k :: 0 <= k < |after| ==>
      || stored == Some(after[k])
      || (after[k] in before && (stored.Some? ==> after[k].key != stored.value.key))
  }

  lemma AmongBefore(slots: seq<Slot>, key: Key, k: nat)
    requires k < |Without(slots, key)|
    ensures Without(slots, key)[k] in slots
  {
    var i := WithoutIsAmong(slots, key, k);
  }

  lemma StoredFrom(slots: seq<Slot>, slot: Slot, limits: Limits, rest: seq<Slot>, n: nat)
    requires Bounded(slots, limits) && slot.size <= limits.bytes
    requires rest == Without(slots, slot.key) && n <= |rest|
    ensures FromBefore(slots, rest[n..] + [slot], Some(slot))
  {
    var after := rest[n..] + [slot];
    WithoutIsBounded(slots, slot.key, limits);
    forall k | 0 <= k < |after| - 1 ensures after[k] in slots && after[k].key != slot.key {
      assert after[k] == rest[n + k];
      AmongBefore(slots, slot.key, n + k);
    }
  }

  lemma WithoutFrom(slots: seq<Slot>, key: Key)
    ensures FromBefore(slots, Without(slots, key), None)
  {
    forall k | 0 <= k < |Without(slots, key)| ensures Without(slots, key)[k] in slots { AmongBefore(slots, key, k); }
  }

  /** What the action stores, if it stores. */
  function NewIn(w: World, a: Action, limits: Limits): Option<Slot> {
    if a.Store? && a.size <= limits.bytes && a.thread in w.phases && w.phases[a.thread].Leading?
    then Some(Slot(w.phases[a.thread].key, a.value, w.now + a.ttl, a.size)) else None
  }

  lemma SameSlots(slots: seq<Slot>)
    ensures FromBefore(slots, slots, None)
  {
  }

  lemma ClaimFrom(w: World, t: Thread, key: Key, limits: Limits)
    ensures FromBefore(w.shared.slots, Do(w, Claim(t, key), limits).shared.slots, None)
  {
    WithoutFrom(w.shared.slots, key);
    SameSlots(w.shared.slots);
    SameSlots(Without(w.shared.slots, key));
    var s := RemoveKey(w.shared, key);
    assert s.slots == w.shared.slots || s.slots == Without(w.shared.slots, key);
  }

  lemma StoreFrom(w: World, a: Action, limits: Limits)
    requires Sized(w.shared, limits) && a.Store?
    ensures FromBefore(w.shared.slots, Do(w, a, limits).shared.slots, NewIn(w, a, limits))
  {
    var slots, new_ := w.shared.slots, NewIn(w, a, limits);
    if new_.Some? {
      var rest := Without(slots, new_.value.key);
      StoredFrom(slots, new_.value, limits, rest, Evicted(rest, new_.value.size, limits));
    } else {
      SameSlots(slots);
    }
  }

  lemma StepFrom(w: World, a: Action, limits: Limits)
    requires Sized(w.shared, limits)
    ensures FromBefore(w.shared.slots, Do(w, a, limits).shared.slots, NewIn(w, a, limits))
  {
    match a
    case Claim(t, key) => ClaimFrom(w, t, key, limits);
    case Store(_, _, _, _) => StoreFrom(w, a, limits);
    case _ => SameSlots(w.shared.slots);
  }

  lemma NewIsStored(actions: seq<Action>, a: Action, limits: Limits, slot: Slot)
    requires NewIn(After(actions, limits), a, limits) == Some(slot)
    ensures StoredBy(actions + [a], limits, slot, |actions|)
  {
    assert (actions + [a])[..|actions|] == actions;
    StoredNow(actions, a, limits, slot.key);
  }

  lemma OnlyNewIsStored(actions: seq<Action>, a: Action, limits: Limits, key: Key)
    ensures var slot := NewIn(After(actions, limits), a, limits);
            StoresKey(actions + [a], limits, |actions|, key) <==> slot.Some? && slot.value.key == key
  {
    assert (actions + [a])[..|actions|] == actions;
  }

  lemma StillSourced(actions: seq<Action>, a: Action, limits: Limits, before: seq<Slot>, after: seq<Slot>, slot: Slot)
    requires Sourced(actions, limits, before) && FromBefore(before, after, NewIn(After(actions, limits), a, limits)) && slot in after
    ensures HasSource(actions + [a], limits, slot)
  {
    var stored := NewIn(After(actions, limits), a, limits);
    if stored == Some(slot) {
      NewIsStored(actions, a, limits, slot);
    } else {
      var k :| 0 <= k < |before| && before[k] == slot;
      assert HasSource(actions, limits, before[k]);
      var i :| StoredBy(actions, limits, before[k], i);
      OnlyNewIsStored(actions, a, limits, slot.key);
      StoredStays(actions, a, limits, slot, i);
    }
  }

  lemma SourcedStep(before: seq<Action>, a: Action, limits: Limits, was: seq<Slot>, slots: seq<Slot>)
    requires Sourced(before, limits, was) && FromBefore(was, slots, NewIn(After(before, limits), a, limits))
    ensures Sourced(before + [a], limits, slots)
  {
    forall k | 0 <= k < |slots| ensures HasSource(before + [a], limits, slots[k]) {
      StillSourced(before, a, limits, was, slots, slots[k]);
    }
  }

  /** After any interleaving every entry of the cache is one that its key's leader stored, the last of its key. */
  lemma {:induction false} EntriesAreStored(actions: seq<Action>, limits: Limits)
    requires limits.entries > 0
    ensures Sourced(actions, limits, After(actions, limits).shared.slots)
    decreases |actions|
  {
    if actions != [] {
      var before, a := actions[..|actions| - 1], actions[|actions| - 1];
      EntriesAreStored(before, limits);
      EveryInterleaving(before, limits);
      var w := After(before, limits);
      StepFrom(w, a, limits);
      SourcedStep(before, a, limits, w.shared.slots, Do(w, a, limits).shared.slots);
      assert actions == before + [a];
    }
  }

  /** The claim of a thread that makes no call is a hit. */
  predicate Hits(actions: seq<Action>, limits: Limits, t: Thread, key: Key) {
    t !in After(actions, limits).phases &&
    var v := Do(After(actions, limits), Claim(t, key), limits);
    t in v.phases && v.phases[t].Reading?
  }

  /** In every interleaving, a hit finds the entry its key's leader stored last, less than its time to live ago. */
  lemma HitIsFresh(actions: seq<Action>, limits: Limits, t: Thread, key: Key) returns (i: nat, slot: Slot)
    requires limits.entries > 0 && Hits(actions, limits, t, key)
    ensures Find(After(actions, limits).shared.slots, key) == Some(slot) && slot.key == key
    ensures StoredBy(actions, limits, slot, i)
    ensures Clock(actions[..i], limits) <= Clock(actions, limits) < Clock(actions[..i], limits) + actions[i].ttl
  {
    EntriesAreStored(actions, limits);
    var slots := After(actions, limits).shared.slots;
    var k := IndexOfKey(slots, key);
    slot := slots[k];
    assert HasSource(actions, limits, slot);
    i :| StoredBy(actions, limits, slot, i);
    ClockIsMonotone(actions, limits, i);
  }

  lemma {:induction false} FindLast(slots: seq<Slot>, slot: Slot)
    requires forall k :: 0 <= k < |slots| ==> slots[k].key != slot.key
    ensures Find(slots + [slot], slot.key) == Some(slot)
  {
    var all := slots + [slot];
    assert all[|slots|] == slot;
  }

  /** What a leader stores is found until its time to live is over, and not any longer. */
  lemma StoredIsFound(w: World, t: Thread, u: Thread, value: int, size: nat, ttl: nat, wait: nat, limits: Limits)
    requires Sized(w.shared, limits) && t in w.phases && w.phases[t].Leading? && size <= limits.bytes && u !in w.phases
    ensures var key := w.phases[t].key;
            var v := Do(Do(w, Store(t, value, size, ttl), limits), Tick(wait), limits);
            var claimed := Do(v, Claim(u, key), limits);
            && Find(v.shared.slots, key) == Some(Slot(key, value, w.now + ttl, size))
            && u in claimed.phases && (claimed.phases[u].Reading? <==> wait < ttl)
  {
    var key := w.phases[t].key;
    var slot := Slot(key, value, w.now + ttl, size);
    var rest := Without(w.shared.slots, key);
    WithoutIsBounded(w.shared.slots, key, limits);
    FindLast(rest[Evicted(rest, size, limits)..], slot);
  }
}
