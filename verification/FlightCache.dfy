/** A cache bounded in entries and bytes, oldest entry out first, with one leader per key at a time. */
module FlightCache {
  import opened Basics

  type Key = string
  type EventId = nat
  type Thread = nat

  datatype Slot = Slot(key: Key, value: int, expires: int, size: nat)

  datatype Limits = Limits(entries: nat, bytes: nat)

  const GIT_LIMITS := Limits(16, 16 * 1024 * 1024)
  const GITHUB_LIMITS := Limits(64, 8 * 1024 * 1024)

  // ----- the cache: a dict in insertion order

  function Total(slots: seq<Slot>): nat {
    if slots == [] then 0 else slots[0].size + Total(slots[1..])
  }

  function IndexOfKey(slots: seq<Slot>, key: Key): (r: nat)
    ensures r <= |slots|
    ensures r < |slots| ==> slots[r].key == key
    ensures forall i :: 0 <= i < r ==> slots[i].key != key
  {
    if slots == [] || slots[0].key == key then 0 else 1 + IndexOfKey(slots[1..], key)
  }

  function Find(slots: seq<Slot>, key: Key): Option<Slot> {
    var i := IndexOfKey(slots, key);
    if i < |slots| then Some(slots[i]) else None
  }

  function Without(slots: seq<Slot>, key: Key): seq<Slot> {
    var i := IndexOfKey(slots, key);
    if i < |slots| then slots[..i] + slots[i + 1..] else slots
  }

  ghost predicate KeysDistinct(slots: seq<Slot>) {
    forall i, j :: 0 <= i < j < |slots| ==> slots[i].key != slots[j].key
  }

  /** There is room for one more entry of the size. */
  predicate Fits(slots: seq<Slot>, size: nat, limits: Limits) {
    |slots| + 1 <= limits.entries && Total(slots) + size <= limits.bytes
  }

  /** How many of the oldest entries go. */
  function Evicted(slots: seq<Slot>, size: nat, limits: Limits): (k: nat)
    ensures k <= |slots|
    ensures slots[k..] == [] || Fits(slots[k..], size, limits)
    ensures forall j :: 0 <= j < k ==> !Fits(slots[j..], size, limits)
  {
    if slots == [] || Fits(slots, size, limits) then 0
    else
      var k := 1 + Evicted(slots[1..], size, limits);
      assert slots[1..][k - 1..] == slots[k..];
      assert forall j :: 1 <= j < k ==> slots[j..] == slots[1..][j - 1..];
      k
  }

  /** The cache after `_store`. */
  function Stored(slots: seq<Slot>, slot: Slot, limits: Limits): seq<Slot> {
    if slot.size > limits.bytes then slots
    else
      var rest := Without(slots, slot.key);
      rest[Evicted(rest, slot.size, limits)..] + [slot]
  }

  ghost predicate Bounded(slots: seq<Slot>, limits: Limits) {
    KeysDistinct(slots) && |slots| <= limits.entries && Total(slots) <= limits.bytes
  }

  lemma {:induction false} TotalAppend(a: seq<Slot>, b: seq<Slot>)
    ensures Total(a + b) == Total(a) + Total(b)
  {
    if a == [] {
      assert a + b == b;
    } else {
      assert (a + b)[1..] == a[1..] + b;
      TotalAppend(a[1..], b);
    }
  }

  lemma TotalWithout(slots: seq<Slot>, key: Key)
    ensures var found := Find(slots, key); Total(slots) == Total(Without(slots, key)) + if found.Some? then found.value.size else 0
  {
    var i := IndexOfKey(slots, key);
    if i < |slots| {
      assert slots == slots[..i] + [slots[i]] + slots[i + 1..];
      TotalAppend(slots[..i] + [slots[i]], slots[i + 1..]);
      TotalAppend(slots[..i], [slots[i]]);
      TotalAppend(slots[..i], slots[i + 1..]);
    }
  }

  lemma WithoutIsBounded(slots: seq<Slot>, key: Key, limits: Limits)
    requires Bounded(slots, limits)
    ensures Bounded(Without(slots, key), limits)
    ensures forall i :: 0 <= i < |Without(slots, key)| ==> Without(slots, key)[i].key != key
  {
    TotalWithout(slots, key);
    var i := IndexOfKey(slots, key);
    if i < |slots| {
      var rest := Without(slots, key);
      forall k | 0 <= k < |rest| ensures rest[k] == slots[if k < i then k else k + 1] {}
    }
  }

  lemma DroppedIsBounded(rest: seq<Slot>, k: nat, slot: Slot, limits: Limits)
    requires KeysDistinct(rest) && k <= |rest| && limits.entries > 0 && slot.size <= limits.bytes
    requires forall i :: 0 <= i < |rest| ==> rest[i].key != slot.key
    requires rest[k..] == [] || Fits(rest[k..], slot.size, limits)
    ensures Bounded(rest[k..] + [slot], limits)
  {
    var r := rest[k..] + [slot];
    TotalAppend(rest[k..], [slot]);
    assert Total([slot]) == slot.size;
    forall i, j | 0 <= i < j < |r| ensures r[i].key != r[j].key {}
  }

  /** `k` of the oldest entries are dropped, and with fewer the new one would not fit. */
  ghost predicate Drops(slots: seq<Slot>, slot: Slot, limits: Limits, k: nat, after: seq<Slot>) {
    var rest := Without(slots, slot.key);
    && k <= |rest| && after == rest[k..] + [slot]
    && forall j :: 0 <= j < k ==> |rest[j..]| + 1 > limits.entries || Total(rest[j..]) + slot.size > limits.bytes
  }

  /** Storing keeps the bounds, and drops no more of the oldest entries than it must. */
  lemma StoredIsBounded(slots: seq<Slot>, slot: Slot, limits: Limits)
    requires Bounded(slots, limits) && limits.entries > 0
    ensures Bounded(Stored(slots, slot, limits), limits)
    ensures slot.size <= limits.bytes ==> exists k :: Drops(slots, slot, limits, k, Stored(slots, slot, limits))
  {
    if slot.size <= limits.bytes {
      WithoutIsBounded(slots, slot.key, limits);
      var rest := Without(slots, slot.key);
      var k := Evicted(rest, slot.size, limits);
      DroppedIsBounded(rest, k, slot, limits);
      assert Drops(slots, slot, limits, k, Stored(slots, slot, limits));
    }
  }

  lemma EvictOne(slots: seq<Slot>, size: nat, limits: Limits)
    requires slots != [] && !Fits(slots, size, limits)
    ensures Evicted(slots, size, limits) == 1 + Evicted(slots[1..], size, limits)
    ensures Total(slots[1..]) == Total(slots) - slots[0].size
  {
  }

  // ----- what the lock protects, and the sections under it

  datatype Shared = Shared(slots: seq<Slot>, bytes: int, inflight: map<Key, EventId>)

  datatype Claimed = Hit | Follow(event: EventId) | Lead(event: EventId)

  function RemoveKey(s: Shared, key: Key): Shared {
    match Find(s.slots, key)
    case None => s
    case Some(slot) => s.(slots := Without(s.slots, key), bytes := s.bytes - slot.size)
  }

  /** `_claim`: a hit, somebody else's flight, or the lead. */
  function ClaimKey(s: Shared, key: Key, now: int, event: EventId): (Shared, Claimed) {
    var cached := Find(s.slots, key);
    if cached.Some? && cached.value.expires > now then (s, Hit)
    else
      var t := RemoveKey(s, key);
      if key in t.inflight then (t, Follow(t.inflight[key]))
      else (t.(inflight := t.inflight[key := event]), Lead(event))
  }

  function StoreSlot(s: Shared, slot: Slot, limits: Limits): Shared {
    var slots := Stored(s.slots, slot, limits);
    s.(slots := slots, bytes := s.bytes - Total(s.slots) + Total(slots))
  }

  function ReleaseKey(s: Shared, key: Key): (Shared, Option<EventId>) {
    if key in s.inflight then (s.(inflight := s.inflight - {key}), Some(s.inflight[key])) else (s, None)
  }

  /** The client's fields, each method one section under the lock. */
  class Client {
    const limits: Limits
    var slots: seq<Slot>
    var bytes: int
    var inflight: map<Key, EventId>
    var events: nat

    constructor (limits: Limits)
      ensures this.limits == limits && State() == Shared([], 0, map[])
    {
      this.limits := limits;
      slots, bytes, inflight, events := [], 0, map[], 0;
    }

    ghost function State(): Shared
      reads this
    {
      Shared(slots, bytes, inflight)
    }

    ghost predicate Valid()
      reads this
    {
      bytes == Total(slots) && Bounded(slots, limits)
    }

    method Remove(key: Key)
      requires Valid()
      modifies this
      ensures Valid() && State() == RemoveKey(old(State()), key) && events == old(events)
    {
      var i := IndexOfKey(slots, key);
      TotalWithout(slots, key);
      WithoutIsBounded(slots, key, limits);
      if i < |slots| {
        bytes := bytes - slots[i].size;
        slots := slots[..i] + slots[i + 1..];
      }
    }

    method Claim(key: Key, now: int) returns (claimed: Claimed)
      requires Valid()
      modifies this
      ensures Valid() && (State(), claimed) == ClaimKey(old(State()), key, now, old(events))
    {
      var cached := Find(slots, key);
      if cached.Some? && cached.value.expires > now { return Hit; }
      if cached.Some? { Remove(key); }
      if key in inflight { return Follow(inflight[key]); }
      claimed := Lead(events);
      inflight := inflight[key := events];
      events := events + 1;
    }

    /** `_store` and `_cache_response`: the oldest entries go until the new one fits. */
    method Store(key: Key, value: int, expires: int, size: nat)
      requires Valid() && limits.entries > 0
      modifies this
      ensures Valid() && State() == StoreSlot(old(State()), Slot(key, value, expires, size), limits)
    {
      var slot := Slot(key, value, expires, size);
      StoredIsBounded(slots, slot, limits);
      if size > limits.bytes { return; }
      Remove(key);
      MakeRoom(size);
      TotalAppend(slots, [slot]);
      assert Total([slot]) == size;
      slots := slots + [slot];
      bytes := bytes + size;
    }

    method MakeRoom(size: nat)
      requires bytes == Total(slots)
      modifies this
      ensures slots == old(slots)[Evicted(old(slots), size, limits)..] && bytes == Total(slots) && inflight == old(inflight)
    {
      ghost var k := 0;
      while slots != [] && (|slots| >= limits.entries || bytes + size > limits.bytes)
        invariant bytes == Total(slots) && inflight == old(inflight)
        invariant 0 <= k <= |old(slots)| && slots == old(slots)[k..]
        invariant Evicted(old(slots), size, limits) == k + Evicted(slots, size, limits)
        decreases |slots|
      {
        EvictOne(slots, size, limits);
        bytes := bytes - slots[0].size;
        slots := slots[1..];
        k := k + 1;
      }
    }

    method Release(key: Key) returns (event: Option<EventId>)
      requires Valid()
      modifies this
      ensures Valid() && (State(), event) == ReleaseKey(old(State()), key)
    {
      event := None;
      if key in inflight {
        event := Some(inflight[key]);
        inflight := inflight - {key};
      }
    }
  }

  // ----- any number of threads, in any order

  datatype Phase = Leading(key: Key, event: EventId) | Waiting(key: Key, event: EventId) | Reading(key: Key)

  /** `fired` holds the events that are set; a thread without a phase makes no call at the moment. */
  datatype World = World(shared: Shared, now: int, next: EventId, fired: set<EventId>, phases: map<Thread, Phase>)

  datatype Action =
    | Claim(thread: Thread, key: Key)
    | Wake(thread: Thread)
    | GiveUp(thread: Thread)
    | Read(thread: Thread)
    | Store(thread: Thread, value: int, size: nat, ttl: nat)
    | Release(thread: Thread)
    | Tick(seconds: nat)

  const START := World(Shared([], 0, map[]), 0, 0, {}, map[])

  /** One section under the lock, or one wait; an action that is not possible changes nothing. */
  function Do(w: World, a: Action, limits: Limits): World {
    match a
    case Claim(t, key) =>
      if t in w.phases then w else
        var (s, claimed) := ClaimKey(w.shared, key, w.now, w.next);
        (match claimed
         case Hit => w.(shared := s, phases := w.phases[t := Reading(key)])
         case Follow(event) => w.(shared := s, phases := w.phases[t := Waiting(key, event)])
         case Lead(event) => w.(shared := s, next := w.next + 1, phases := w.phases[t := Leading(key, event)]))
    case Wake(t) =>
      if t in w.phases && w.phases[t].Waiting? && w.phases[t].event in w.fired
      then w.(phases := w.phases[t := Reading(w.phases[t].key)]) else w
    case GiveUp(t) => if t in w.phases && w.phases[t].Waiting? then w.(phases := w.phases - {t}) else w
    case Read(t) => if t in w.phases && w.phases[t].Reading? then w.(phases := w.phases - {t}) else w
    case Store(t, value, size, ttl) =>
      if t in w.phases && w.phases[t].Leading?
      then w.(shared := StoreSlot(w.shared, Slot(w.phases[t].key, value, w.now + ttl, size), limits)) else w
    case Release(t) =>
      if t in w.phases && w.phases[t].Leading? then
        var (s, event) := ReleaseKey(w.shared, w.phases[t].key);
        w.(shared := s, phases := w.phases - {t}, fired := if event.Some? then w.fired + {event.value} else w.fired)
      else w
    case Tick(seconds) => w.(now := w.now + seconds)
  }

  function After(actions: seq<Action>, limits: Limits): World {
    if actions == [] then START
    else Do(After(actions[..|actions| - 1], limits), actions[|actions| - 1], limits)
  }

  predicate Leads(w: World, t: Thread, key: Key, event: EventId) {
    t in w.phases && w.phases[t] == Leading(key, event)
  }

  ghost predicate Sized(s: Shared, limits: Limits) {
    s.bytes == Total(s.slots) && Bounded(s.slots, limits)
  }

  /** Every flight in progress has its one leader, and nobody else leads. */
  ghost predicate Led(w: World) {
    && (forall t, key, event :: Leads(w, t, key, event) ==> key in w.shared.inflight && w.shared.inflight[key] == event)
    && (forall key :: key in w.shared.inflight ==> exists t :: Leads(w, t, key, w.shared.inflight[key]))
    && (forall t, u :: (t in w.phases && u in w.phases && w.phases[t].Leading? && w.phases[u].Leading?
                        && w.phases[t].key == w.phases[u].key) ==> t == u)
  }

  /** Events are not used twice, and none in flight is set. */
  ghost predicate Numbered(w: World) {
    && (forall e :: e in w.fired ==> e < w.next)
    && (forall key :: key in w.shared.inflight ==> w.shared.inflight[key] < w.next && w.shared.inflight[key] !in w.fired)
    && (forall k, l :: k in w.shared.inflight && l in w.shared.inflight && w.shared.inflight[k] == w.shared.inflight[l] ==> k == l)
  }

  /** A waiting thread waits for an event that is set, or for a flight in progress. */
  ghost predicate Served(w: World) {
    forall t :: t in w.phases && w.phases[t].Waiting? ==>
      || w.phases[t].event in w.fired
      || (w.phases[t].key in w.shared.inflight && w.shared.inflight[w.phases[t].key] == w.phases[t].event)
  }

  ghost predicate Inv(w: World, limits: Limits) {
    Sized(w.shared, limits) && Led(w) && Numbered(w) && Served(w)
  }

  lemma RemoveKeeps(s: Shared, key: Key, limits: Limits)
    requires Sized(s, limits)
    ensures Sized(RemoveKey(s, key), limits) && RemoveKey(s, key).inflight == s.inflight
  {
    TotalWithout(s.slots, key);
    WithoutIsBounded(s.slots, key, limits);
  }

  lemma ClaimKeeps(w: World, t: Thread, key: Key, limits: Limits)
    requires Inv(w, limits)
    ensures Inv(Do(w, Claim(t, key), limits), limits)
  {
    if t !in w.phases {
      RemoveKeeps(w.shared, key, limits);
      var v := Do(w, Claim(t, key), limits);
      var (s, claimed) := ClaimKey(w.shared, key, w.now, w.next);
      match claimed {
        case Lead(event) => LeadKeeps(w, v, t, key);
        case _ => NotLeadKeeps(w, v, t);
      }
    }
  }

  lemma LeadersAfter(w: World, v: World, t: Thread, key: Key)
    requires Led(w) && t !in w.phases && key !in w.shared.inflight
    requires v.phases == w.phases[t := Leading(key, w.next)] && v.shared.inflight == w.shared.inflight[key := w.next]
    ensures Led(v)
  {
    forall k | k in v.shared.inflight ensures exists u :: Leads(v, u, k, v.shared.inflight[k]) {
      if k == key {
        assert Leads(v, t, k, w.next);
      } else {
        var u :| Leads(w, u, k, w.shared.inflight[k]);
        assert Leads(v, u, k, v.shared.inflight[k]);
      }
    }
    forall u, k, event | Leads(v, u, k, event) ensures k in v.shared.inflight && v.shared.inflight[k] == event {
      if u != t { assert Leads(w, u, k, event); }
    }
    forall u, x | u in v.phases && x in v.phases && v.phases[u].Leading? && v.phases[x].Leading? && v.phases[u].key == v.phases[x].key
      ensures u == x
    {
      if u != t { assert Leads(w, u, v.phases[u].key, v.phases[u].event); }
      if x != t { assert Leads(w, x, v.phases[x].key, v.phases[x].event); }
    }
  }

  lemma LeadKeeps(w: World, v: World, t: Thread, key: Key)
    requires Led(w) && Numbered(w) && Served(w) && t !in w.phases && key !in w.shared.inflight
    requires v.next == w.next + 1 && v.fired == w.fired && v.phases == w.phases[t := Leading(key, w.next)]
    requires v.shared.inflight == w.shared.inflight[key := w.next]
    ensures Led(v) && Numbered(v) && Served(v)
  {
    LeadersAfter(w, v, t, key);
  }

  /** Steps that neither start nor end a flight: one thread takes up or leaves a phase other than leading. */
  lemma NotLeadKeeps(w: World, v: World, t: Thread)
    requires Led(w) && Numbered(w) && Served(w)
    requires v.next == w.next && v.fired == w.fired && v.shared.inflight == w.shared.inflight
    requires forall u :: u != t ==> (u in v.phases <==> u in w.phases) && (u in w.phases ==> v.phases[u] == w.phases[u])
    requires t in w.phases ==> !w.phases[t].Leading?
    requires t in v.phases ==> !v.phases[t].Leading?
    requires t in v.phases && v.phases[t].Waiting? ==>
               v.phases[t].key in v.shared.inflight && v.shared.inflight[v.phases[t].key] == v.phases[t].event
    ensures Led(v) && Numbered(v) && Served(v)
  {
    forall u, k, event ensures Leads(v, u, k, event) <==> Leads(w, u, k, event) {}
    forall k | k in v.shared.inflight ensures exists u :: Leads(v, u, k, v.shared.inflight[k]) {
      var u :| Leads(w, u, k, w.shared.inflight[k]);
      assert Leads(v, u, k, v.shared.inflight[k]);
    }
  }

  lemma StoreKeeps(s: Shared, slot: Slot, limits: Limits)
    requires Sized(s, limits) && limits.entries > 0
    ensures Sized(StoreSlot(s, slot, limits), limits) && StoreSlot(s, slot, limits).inflight == s.inflight
  {
    StoredIsBounded(s.slots, slot, limits);
  }

  lemma ReleaseKeeps(w: World, t: Thread, limits: Limits)
    requires Inv(w, limits) && t in w.phases && w.phases[t].Leading?
    ensures var v := Do(w, Release(t), limits); Inv(v, limits) && w.phases[t].event in v.fired
  {
    var v := Do(w, Release(t), limits);
    var key := w.phases[t].key;
    assert Leads(w, t, key, w.phases[t].event);
    forall k | k in v.shared.inflight ensures exists u :: Leads(v, u, k, v.shared.inflight[k]) {
      var u :| Leads(w, u, k, w.shared.inflight[k]);
      assert Leads(v, u, k, v.shared.inflight[k]);
    }
    forall u, k, event | Leads(v, u, k, event) ensures k in v.shared.inflight && v.shared.inflight[k] == event {
      assert Leads(w, u, k, event);
    }
  }

  lemma StoreActionIs(w: World, t: Thread, value: int, size: nat, ttl: nat, limits: Limits)
    requires t in w.phases && w.phases[t].Leading?
    ensures Do(w, Store(t, value, size, ttl), limits) ==
            w.(shared := StoreSlot(w.shared, Slot(w.phases[t].key, value, w.now + ttl, size), limits))
  {
  }

  lemma StoreActionKeeps(w: World, t: Thread, value: int, size: nat, ttl: nat, limits: Limits)
    requires Inv(w, limits) && limits.entries > 0
    ensures Inv(Do(w, Store(t, value, size, ttl), limits), limits)
  {
    if t in w.phases && w.phases[t].Leading? {
      var slot := Slot(w.phases[t].key, value, w.now + ttl, size);
      StoreActionIs(w, t, value, size, ttl, limits);
      StoreKeeps(w.shared, slot, limits);
      SameFlights(w, w.(shared := StoreSlot(w.shared, slot, limits)));
    }
  }

  /** Waking, giving up and reading. */
  lemma FollowerKeeps(w: World, a: Action, limits: Limits)
    requires Inv(w, limits) && (a.Wake? || a.GiveUp? || a.Read?)
    ensures Inv(Do(w, a, limits), limits)
  {
    var v := Do(w, a, limits);
    if v != w { NotLeadKeeps(w, v, a.thread); }
  }

  lemma DoKeeps(w: World, a: Action, limits: Limits)
    requires Inv(w, limits) && limits.entries > 0
    ensures Inv(Do(w, a, limits), limits)
  {
    match a {
      case Claim(t, key) => ClaimKeeps(w, t, key, limits);
      case Release(t) => if t in w.phases && w.phases[t].Leading? { ReleaseKeeps(w, t, limits); }
      case Store(t, value, size, ttl) => StoreActionKeeps(w, t, value, size, ttl, limits);
      case Tick(_) => SameFlights(w, Do(w, a, limits));
      case _ => FollowerKeeps(w, a, limits);
    }
  }

  lemma SameFlights(w: World, v: World)
    requires Led(w) && Numbered(w) && Served(w)
    requires v.next == w.next && v.fired == w.fired && v.phases == w.phases && v.shared.inflight == w.shared.inflight
    ensures Led(v) && Numbered(v) && Served(v)
  {
    forall u, k, event ensures Leads(v, u, k, event) <==> Leads(w, u, k, event) {}
    forall k | k in v.shared.inflight ensures exists u :: Leads(v, u, k, v.shared.inflight[k]) {
      var u :| Leads(w, u, k, w.shared.inflight[k]);
      assert Leads(v, u, k, v.shared.inflight[k]);
    }
  }

  /** After any interleaving the counter is the sum of the sizes, the limits hold, every flight has exactly one leader,
      and no thread waits for an event that nobody will set. */
  lemma {:induction false} EveryInterleaving(actions: seq<Action>, limits: Limits)
    requires limits.entries > 0
    ensures Inv(After(actions, limits), limits)
  {
    if actions != [] {
      EveryInterleaving(actions[..|actions| - 1], limits);
      DoKeeps(After(actions[..|actions| - 1], limits), actions[|actions| - 1], limits);
    }
  }

  /** The limits of the two clients, in every interleaving. */
  lemma ClientLimits(actions: seq<Action>)
    ensures var s := After(actions, GIT_LIMITS).shared;
            |s.slots| <= 16 && s.bytes == Total(s.slots) <= 16 * 1024 * 1024
    ensures var s := After(actions, GITHUB_LIMITS).shared;
            |s.slots| <= 64 && s.bytes == Total(s.slots) <= 8 * 1024 * 1024
  {
    EveryInterleaving(actions, GIT_LIMITS);
    EveryInterleaving(actions, GITHUB_LIMITS);
  }

  lemma AfterTwo(actions: seq<Action>, a: Action, b: Action, limits: Limits)
    ensures After(actions + [a, b], limits) == Do(Do(After(actions, limits), a, limits), b, limits)
  {
    assert (actions + [a, b])[..|actions| + 1] == actions + [a];
    assert (actions + [a])[..|actions|] == actions;
  }

  lemma WokenBy(w: World, leader: Thread, t: Thread, limits: Limits)
    requires Inv(w, limits) && t in w.phases && w.phases[t].Waiting?
    requires Leads(w, leader, w.phases[t].key, w.phases[t].event)
    ensures var v := Do(Do(w, Release(leader), limits), Wake(t), limits);
            t in v.phases && v.phases[t] == Reading(w.phases[t].key)
  {
    ReleaseKeeps(w, leader, limits);
  }

  /** The leader a thread waits for wakes it. */
  lemma WaitersAreWoken(actions: seq<Action>, limits: Limits, t: Thread) returns (leader: Thread)
    requires limits.entries > 0
    requires var w := After(actions, limits); t in w.phases && w.phases[t].Waiting? && w.phases[t].event !in w.fired
    ensures var w := After(actions, limits);
            var v := After(actions + [Release(leader), Wake(t)], limits);
            && Leads(w, leader, w.phases[t].key, w.phases[t].event)
            && t in v.phases && v.phases[t] == Reading(w.phases[t].key)
  {
    EveryInterleaving(actions, limits);
    var w := After(actions, limits);
    leader :| Leads(w, leader, w.phases[t].key, w.phases[t].event);
    WokenBy(w, leader, t, limits);
    AfterTwo(actions, Release(leader), Wake(t), limits);
  }
}
