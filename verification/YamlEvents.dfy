/** The checks on the YAML event stream, made before anything is built from it. */
module YamlEvents {
  import opened Basics

  /** `digits` counts the decimal digits of a plain scalar that resolves to an integer. */
  datatype Event =
    | DocumentStart
    | Alias(name: Option<string>)
    | Scalar(anchor: Option<string>, tag: Option<string>, digits: Option<nat>)
    | Open(anchor: Option<string>, tag: Option<string>)
    | Close
    | Other

  datatype Fault = ResourceLimit | CyclicAlias | UnsupportedTag | NumericLimit | DocumentCount | PopFromEmpty

  const MAX_NODES: nat := 100000
  const MAX_DIGITS: nat := 4300
  const MAX_OPEN: nat := 128

  predicate IsNode(e: Event) {
    e.Alias? || e.Scalar? || e.Open?
  }

  predicate AllowedTag(tag: Option<string>) {
    tag.None? || tag.value == "!reset" || tag.value == "!override"
  }

  function Nodes(events: seq<Event>, k: nat): nat
    requires k <= |events|
  {
    if k == 0 then 0 else Nodes(events, k - 1) + if IsNode(events[k - 1]) then 1 else 0
  }

  function Documents(events: seq<Event>, k: nat): nat
    requires k <= |events|
  {
    if k == 0 then 0 else Documents(events, k - 1) + if events[k - 1].DocumentStart? then 1 else 0
  }

  /** The collections open after `k` events, by the index of the event that opened them. */
  function Stack(events: seq<Event>, k: nat): seq<nat>
    requires k <= |events|
  {
    if k == 0 then []
    else
      var before := Stack(events, k - 1);
      match events[k - 1]
      case Open(_, _) => before + [k - 1]
      case Close => if before == [] then [] else before[..|before| - 1]
      case _ => before
  }

  /** An open collection carries the anchor. */
  predicate Held(events: seq<Event>, k: nat, name: string)
    requires k <= |events|
  {
    exists i :: i in Stack(events, k) && i < |events| && events[i].Open? && events[i].anchor == Some(name)
  }

  /** What event `k` is refused for, in the order the checks are made. */
  function FaultAt(events: seq<Event>, k: nat): Option<Fault>
    requires k < |events|
  {
    var e := events[k];
    if IsNode(e) && Nodes(events, k + 1) > MAX_NODES then Some(ResourceLimit)
    else if (e.Scalar? || e.Open?) && !AllowedTag(e.tag) then Some(UnsupportedTag)
    else if e.Scalar? && e.digits.Some? && e.digits.value > MAX_DIGITS then Some(NumericLimit)
    else AnchorFault(events, k)
  }

  function AnchorFault(events: seq<Event>, k: nat): Option<Fault>
    requires k < |events|
  {
    var e := events[k];
    if e.Open? && |Stack(events, k)| >= MAX_OPEN then Some(ResourceLimit)
    else if e.Close? && Stack(events, k) == [] then Some(PopFromEmpty)
    else if e.Alias? && e.name.Some? && Held(events, k, e.name.value) then Some(CyclicAlias)
    else None
  }

  /** The first fault from event `k` on. */
  function FirstFault(events: seq<Event>, k: nat): Option<Fault>
    requires k <= |events|
    decreases |events| - k
  {
    if k == |events| then (if Documents(events, k) == 1 then None else Some(DocumentCount))
    else if FaultAt(events, k).Some? then FaultAt(events, k)
    else FirstFault(events, k + 1)
  }

  // ----- the loop, with its anchor counts

  lemma {:induction false} StackIs(events: seq<Event>, k: nat)
    requires k <= |events|
    ensures var s := Stack(events, k);
            && |s| <= k
            && (forall j :: 0 <= j < |s| ==> s[j] < k && events[s[j]].Open?)
            && (forall i, j :: 0 <= i < j < |s| ==> s[i] < s[j])
  {
    if k > 0 { StackIs(events, k - 1); }
  }

  /** The list of anchors mirrors the open collections. */
  ghost predicate Mirrors(events: seq<Event>, k: nat, anchors: seq<Option<string>>)
    requires k <= |events|
  {
    var s := Stack(events, k);
    && |anchors| == |s|
    && forall j :: 0 <= j < |s| ==> s[j] < |events| && events[s[j]].Open? && anchors[j] == events[s[j]].anchor
  }

  /** The counts are those of the anchors on the list. */
  ghost predicate Counts(active: map<string, nat>, anchors: seq<Option<string>>) {
    forall name :: (if name in active then active[name] else 0) == multiset(anchors)[Some(name)]
                   && (name in active ==> active[name] > 0)
  }

  lemma MirrorsOpen(events: seq<Event>, k: nat, anchors: seq<Option<string>>)
    requires k < |events| && Mirrors(events, k, anchors) && events[k].Open?
    ensures Mirrors(events, k + 1, anchors + [events[k].anchor])
  {
  }

  lemma MirrorsClose(events: seq<Event>, k: nat, anchors: seq<Option<string>>)
    requires k < |events| && Mirrors(events, k, anchors) && events[k].Close? && anchors != []
    ensures Mirrors(events, k + 1, anchors[..|anchors| - 1])
  {
  }

  lemma MirrorsOther(events: seq<Event>, k: nat, anchors: seq<Option<string>>)
    requires k < |events| && Mirrors(events, k, anchors) && !events[k].Open? && (events[k].Close? ==> anchors == [])
    ensures Mirrors(events, k + 1, anchors)
  {
  }

  lemma HeldIsCounted(events: seq<Event>, k: nat, anchors: seq<Option<string>>, active: map<string, nat>, name: string)
    requires k <= |events| && Mirrors(events, k, anchors) && Counts(active, anchors)
    ensures Held(events, k, name) <==> name in active
  {
    var s := Stack(events, k);
    if name in active {
      assert Some(name) in multiset(anchors);
      var j :| 0 <= j < |anchors| && anchors[j] == Some(name);
      assert s[j] in s;
    }
    if Held(events, k, name) {
      var i :| i in s && i < |events| && events[i].Open? && events[i].anchor == Some(name);
      var j :| 0 <= j < |s| && s[j] == i;
      assert anchors[j] in multiset(anchors);
    }
  }

  function Pushed(active: map<string, nat>, anchor: Option<string>): map<string, nat> {
    if anchor.None? then active
    else active[anchor.value := (if anchor.value in active then active[anchor.value] else 0) + 1]
  }

  function Popped(active: map<string, nat>, anchor: Option<string>): map<string, nat> {
    if anchor.None? || anchor.value !in active || active[anchor.value] == 0 then active
    else if active[anchor.value] == 1 then active - {anchor.value}
    else active[anchor.value := active[anchor.value] - 1]
  }

  lemma CountsPush(active: map<string, nat>, anchors: seq<Option<string>>, anchor: Option<string>)
    requires Counts(active, anchors)
    ensures Counts(Pushed(active, anchor), anchors + [anchor])
  {
    assert multiset(anchors + [anchor]) == multiset(anchors) + multiset{anchor};
  }

  lemma CountsPop(active: map<string, nat>, anchors: seq<Option<string>>)
    requires Counts(active, anchors) && anchors != []
    ensures var last := anchors[|anchors| - 1];
            && (last.Some? ==> last.value in active)
            && Counts(Popped(active, last), anchors[..|anchors| - 1])
  {
    var last := anchors[|anchors| - 1];
    var rest := anchors[..|anchors| - 1];
    assert anchors == rest + [last];
    assert multiset(anchors) == multiset(rest) + multiset{last};
  }

  /** The anchor stack and the count map of the loop. */
  datatype Anchored = Anchored(anchors: seq<Option<string>>, active: map<string, nat>)

  function AfterEvent(a: Anchored, e: Event): Anchored {
    match e
    case Open(anchor, _) => Anchored(a.anchors + [anchor], Pushed(a.active, anchor))
    case Close =>
      if a.anchors == [] then a
      else Anchored(a.anchors[..|a.anchors| - 1], Popped(a.active, a.anchors[|a.anchors| - 1]))
    case _ => a
  }

  /** Both after `k` events. */
  function AnchoredAt(events: seq<Event>, k: nat): Anchored
    requires k <= |events|
  {
    if k == 0 then Anchored([], map[]) else AfterEvent(AnchoredAt(events, k - 1), events[k - 1])
  }

  lemma StillMirrors(events: seq<Event>, k: nat, a: Anchored)
    requires k < |events| && Mirrors(events, k, a.anchors)
    ensures Mirrors(events, k + 1, AfterEvent(a, events[k]).anchors)
  {
    if events[k].Open? {
      MirrorsOpen(events, k, a.anchors);
    } else if events[k].Close? && a.anchors != [] {
      MirrorsClose(events, k, a.anchors);
    } else {
      MirrorsOther(events, k, a.anchors);
    }
  }

  lemma StillCounts(a: Anchored, e: Event)
    requires Counts(a.active, a.anchors)
    ensures Counts(AfterEvent(a, e).active, AfterEvent(a, e).anchors)
  {
    match e
    case Open(anchor, _) => CountsPush(a.active, a.anchors, anchor);
    case Close => if a.anchors != [] { CountsPop(a.active, a.anchors); }
    case _ =>
  }

  /** After every event of any stream the stack mirrors the open collections, and the map counts its anchors. */
  lemma {:induction false} MapCountsStack(events: seq<Event>, k: nat)
    requires k <= |events|
    ensures Mirrors(events, k, AnchoredAt(events, k).anchors)
    ensures Counts(AnchoredAt(events, k).active, AnchoredAt(events, k).anchors)
  {
    if k > 0 {
      MapCountsStack(events, k - 1);
      StillMirrors(events, k - 1, AnchoredAt(events, k - 1));
      StillCounts(AnchoredAt(events, k - 1), events[k - 1]);
    }
  }

  lemma StackIsMirrored(events: seq<Event>, k: nat)
    requires k <= |events|
    ensures var a := AnchoredAt(events, k);
            && |a.anchors| == |Stack(events, k)|
            && (a.anchors != [] && a.anchors[|a.anchors| - 1].Some? ==>
                  var name := a.anchors[|a.anchors| - 1].value; name in a.active && a.active[name] > 0)
  {
    MapCountsStack(events, k);
    if AnchoredAt(events, k).anchors != [] { CountsPop(AnchoredAt(events, k).active, AnchoredAt(events, k).anchors); }
  }

  /** Hence, after every event, an anchor is in the map iff a collection that is open carries it. */
  lemma HeldIffCounted(events: seq<Event>, k: nat, name: string)
    requires k <= |events|
    ensures Held(events, k, name) <==> name in AnchoredAt(events, k).active
  {
    MapCountsStack(events, k);
    HeldIsCounted(events, k, AnchoredAt(events, k).anchors, AnchoredAt(events, k).active, name);
  }

  /** The part of the loop that keeps the anchors. */
  method TrackAnchors(ghost events: seq<Event>, ghost k: nat, event: Event, a: Anchored)
    returns (next: Anchored, fault: Option<Fault>)
    requires k < |events| && events[k] == event && a == AnchoredAt(events, k)
    ensures fault == AnchorFault(events, k)
    ensures fault.None? ==> next == AnchoredAt(events, k + 1)
  {
    var anchors, active := a.anchors, a.active;
    StackIsMirrored(events, k);
    match event {
      case Open(anchor, _) =>
        if |anchors| >= MAX_OPEN { return a, Some(ResourceLimit); }
        anchors := anchors + [anchor];
        if anchor.Some? {
          active := active[anchor.value := (if anchor.value in active then active[anchor.value] else 0) + 1];
        }
      case Close =>
        if anchors == [] { return a, Some(PopFromEmpty); }
        var completed := anchors[|anchors| - 1];
        anchors := anchors[..|anchors| - 1];
        if completed.Some? {
          var count := active[completed.value];
          if count == 1 { active := active - {completed.value}; } else { active := active[completed.value := count - 1]; }
        }
      case Alias(name) =>
        if name.Some? {
          HeldIffCounted(events, k, name.value);
          if name.value in active { return a, Some(CyclicAlias); }
        }
      case _ =>
    }
    next, fault := Anchored(anchors, active), None;
  }

  /** `_validate_yaml_events`. */
  method ValidateEvents(events: seq<Event>) returns (fault: Option<Fault>)
    ensures fault == FirstFault(events, 0)
  {
    var documents, nodes := 0, 0;
    var anchored := Anchored([], map[]);
    var k := 0;
    while k < |events|
      invariant 0 <= k <= |events|
      invariant documents == Documents(events, k) && nodes == Nodes(events, k)
      invariant anchored == AnchoredAt(events, k)
      invariant FirstFault(events, k) == FirstFault(events, 0)
    {
      var event := events[k];
      if event.DocumentStart? { documents := documents + 1; }
      if IsNode(event) {
        nodes := nodes + 1;
        if nodes > MAX_NODES { return Some(ResourceLimit); }
      }
      if event.Scalar? || event.Open? {
        if !AllowedTag(event.tag) { return Some(UnsupportedTag); }
      }
      if event.Scalar? && event.digits.Some? && event.digits.value > MAX_DIGITS { return Some(NumericLimit); }
      anchored, fault := TrackAnchors(events, k, event, anchored);
      if fault.Some? { return; }
      k := k + 1;
    }
    fault := if documents != 1 then Some(DocumentCount) else None;
  }

  // ----- what an accepted stream is

  /** No alias names an anchor that an open collection carries. */
  ghost predicate CleanAliases(events: seq<Event>) {
    forall c :: 0 <= c < |events| && events[c].Alias? && events[c].name.Some? ==> !Held(events, c, events[c].name.value)
  }

  ghost predicate Acceptable(events: seq<Event>) {
    && Documents(events, |events|) == 1
    && Nodes(events, |events|) <= MAX_NODES
    && (forall k :: 0 <= k <= |events| ==> |Stack(events, k)| <= MAX_OPEN)
    && (forall k :: 0 <= k < |events| && (events[k].Scalar? || events[k].Open?) ==> AllowedTag(events[k].tag))
    && (forall k :: 0 <= k < |events| && events[k].Scalar? && events[k].digits.Some? ==> events[k].digits.value <= MAX_DIGITS)
    && (forall k :: 0 <= k < |events| && events[k].Close? ==> Stack(events, k) != [])
    && CleanAliases(events)
  }

  lemma {:induction false} NodesGrow(events: seq<Event>, i: nat, k: nat)
    requires i <= k <= |events|
    ensures Nodes(events, i) <= Nodes(events, k)
  {
    if i < k { NodesGrow(events, i, k - 1); }
  }

  lemma {:induction false} FaultFree(events: seq<Event>, k: nat)
    requires k <= |events|
    ensures FirstFault(events, k).None? <==>
            Documents(events, |events|) == 1 && forall i :: k <= i < |events| ==> FaultAt(events, i).None?
    decreases |events| - k
  {
    if k < |events| { FaultFree(events, k + 1); }
  }

  lemma {:induction false} NodesFit(events: seq<Event>, k: nat)
    requires k <= |events|
    requires forall i :: 0 <= i < k ==> FaultAt(events, i).None?
    ensures Nodes(events, k) <= MAX_NODES && |Stack(events, k)| <= MAX_OPEN
  {
    if k > 0 {
      NodesFit(events, k - 1);
      assert FaultAt(events, k - 1).None?;
    }
  }

  lemma AcceptableIsFaultFree(events: seq<Event>, k: nat)
    requires Acceptable(events) && k < |events|
    ensures FaultAt(events, k).None?
  {
    NodesGrow(events, k + 1, |events|);
    assert |Stack(events, k + 1)| <= MAX_OPEN;
  }

  lemma NoFaultHere(events: seq<Event>, k: nat)
    requires k < |events| && FaultAt(events, k).None?
    ensures events[k].Scalar? || events[k].Open? ==> AllowedTag(events[k].tag)
    ensures events[k].Scalar? && events[k].digits.Some? ==> events[k].digits.value <= MAX_DIGITS
    ensures events[k].Close? ==> Stack(events, k) != []
    ensures events[k].Alias? && events[k].name.Some? ==> !Held(events, k, events[k].name.value)
  {
  }

  /** The checks let a stream through iff it is acceptable as a whole. */
  lemma AcceptedIff(events: seq<Event>)
    ensures FirstFault(events, 0).None? <==> Acceptable(events)
  {
    FaultFree(events, 0);
    if Acceptable(events) {
      forall k | 0 <= k < |events| ensures FaultAt(events, k).None? { AcceptableIsFaultFree(events, k); }
    }
    if FirstFault(events, 0).None? {
      forall k | 0 <= k <= |events| ensures |Stack(events, k)| <= MAX_OPEN { NodesFit(events, k); }
      NodesFit(events, |events|);
      forall k | 0 <= k < |events|
        ensures events[k].Scalar? || events[k].Open? ==> AllowedTag(events[k].tag)
        ensures events[k].Scalar? && events[k].digits.Some? ==> events[k].digits.value <= MAX_DIGITS
        ensures events[k].Close? ==> Stack(events, k) != []
        ensures events[k].Alias? && events[k].name.Some? ==> !Held(events, k, events[k].name.value)
      {
        NoFaultHere(events, k);
      }
    }
  }

  // ----- the graph a stream denotes

  predicate Anchors(e: Event, name: string) {
    (e.Scalar? || e.Open?) && e.anchor == Some(name)
  }

  /** The latest node before `k` with the anchor: what an alias stands for (YAML 1.2.2, section 3.2.2.2). */
  function Latest(events: seq<Event>, k: nat, name: string): (r: Option<nat>)
    requires k <= |events|
    ensures r.Some? ==> r.value < k && Anchors(events[r.value], name)
    ensures forall i :: (if r.Some? then r.value + 1 else 0) <= i < k ==> !Anchors(events[i], name)
  {
    if k == 0 then None
    else if Anchors(events[k - 1], name) then Some(k - 1)
    else Latest(events, k - 1, name)
  }

  function Target(events: seq<Event>, c: nat): Option<nat>
    requires c < |events|
  {
    match events[c]
    case Alias(name) => if name.None? then None else Latest(events, c, name.value)
    case _ => Some(c)
  }

  /** Event `c` puts the node `t` into the collection `p`. */
  predicate Puts(events: seq<Event>, c: nat, p: nat, t: nat)
    requires c < |events|
  {
    && IsNode(events[c])
    && Stack(events, c) != [] && Stack(events, c)[|Stack(events, c)| - 1] == p
    && Target(events, c) == Some(t)
  }

  ghost predicate Edge(events: seq<Event>, p: nat, t: nat) {
    exists c :: 0 <= c < |events| && Puts(events, c, p, t)
  }

  ghost predicate Path(events: seq<Event>, path: seq<nat>) {
    forall i :: 0 <= i < |path| - 1 ==> Edge(events, path[i], path[i + 1])
  }

  ghost predicate Cyclic(events: seq<Event>) {
    exists path :: |path| >= 2 && path[0] == path[|path| - 1] && Path(events, path)
  }

  /** Every alias stands for a node that is complete. */
  ghost predicate AliasesComplete(events: seq<Event>) {
    forall c :: 0 <= c < |events| && events[c].Alias? && Target(events, c).Some? ==> Target(events, c).value !in Stack(events, c)
  }

  lemma CleanIsComplete(events: seq<Event>)
    requires CleanAliases(events)
    ensures AliasesComplete(events)
  {
    forall c | 0 <= c < |events| && events[c].Alias? && Target(events, c).Some?
      ensures Target(events, c).value !in Stack(events, c)
    {
      assert !Held(events, c, events[c].name.value);
      StackIs(events, c);
    }
  }

  // ----- complete aliases make no cycle

  /** When the collection opened at `i` is closed, counted from event `k` on; later than the stream if it never is, the
      inner ones first. */
  function ClosedFrom(events: seq<Event>, i: nat, k: nat): (r: nat)
    requires i < |events| && k <= |events|
    ensures r >= k
    decreases |events| - k
  {
    if i !in Stack(events, k) then k
    else if k == |events| then |events| + |events| - i
    else ClosedFrom(events, i, k + 1)
  }

  /** A node is ranked by when it is complete. */
  function Rank(events: seq<Event>, i: nat): nat
    requires i < |events|
  {
    if events[i].Open? then ClosedFrom(events, i, i + 1) else i
  }

  /** Once closed, never open again; an inner collection is closed before the outer one. */
  lemma StackStep(events: seq<Event>, k: nat, i: nat)
    requires k < |events| && i < k
    ensures i in Stack(events, k + 1) ==> i in Stack(events, k)
    ensures i in Stack(events, k) && !events[k].Close? ==> i in Stack(events, k + 1)
  {
    var s := Stack(events, k);
    StackIs(events, k);
    if i in s {
      var j :| 0 <= j < |s| && s[j] == i;
      if !events[k].Close? { assert Stack(events, k + 1)[j] == i; }
    }
  }

  lemma {:induction false} StaysClosed(events: seq<Event>, k: nat, n: nat, i: nat)
    requires i < k <= n <= |events| && i !in Stack(events, k)
    ensures i !in Stack(events, n)
  {
    if k < n {
      StaysClosed(events, k, n - 1, i);
      StackStep(events, n - 1, i);
    }
  }

  /** A node that is not open at `c` is complete by then. */
  lemma {:induction false} CompleteBy(events: seq<Event>, i: nat, k: nat, c: nat)
    requires i < k <= c <= |events| && i !in Stack(events, c)
    ensures ClosedFrom(events, i, k) <= c
    decreases c - k
  {
    if i in Stack(events, k) { CompleteBy(events, i, k + 1, c); }
  }

  /** A node open at `c` is complete only later. */
  lemma {:induction false} OpenUntil(events: seq<Event>, i: nat, k: nat, c: nat)
    requires i < k <= c <= |events| && i in Stack(events, c)
    ensures ClosedFrom(events, i, k) == ClosedFrom(events, i, c)
    decreases c - k
  {
    if k < c {
      if i !in Stack(events, k) { StaysClosed(events, k, c, i); }
      OpenUntil(events, i, k + 1, c);
    }
  }

  /** p directly or indirectly encloses q at `k`. */
  predicate Below(s: seq<nat>, p: nat, q: nat) {
    exists i, j :: 0 <= i < j < |s| && s[i] == p && s[j] == q
  }

  lemma BelowStep(events: seq<Event>, k: nat, p: nat, q: nat)
    requires k < |events| && p < k && q < k && Below(Stack(events, k), p, q)
    ensures p in Stack(events, k + 1)
    ensures q in Stack(events, k + 1) ==> Below(Stack(events, k + 1), p, q)
  {
    var s, t := Stack(events, k), Stack(events, k + 1);
    StackIs(events, k);
    var i, j :| 0 <= i < j < |s| && s[i] == p && s[j] == q;
    assert i < |t| && t[i] == p;
    if q in t {
      var m :| 0 <= m < |t| && t[m] == q;
      assert t[m] == q;
    }
  }

  lemma {:induction false} InnerFirst(events: seq<Event>, p: nat, q: nat, k: nat)
    requires p < q < k <= |events| && Below(Stack(events, k), p, q)
    ensures ClosedFrom(events, q, k) < ClosedFrom(events, p, k)
    decreases |events| - k
  {
    var s := Stack(events, k);
    assert p in s && q in s;
    if k < |events| {
      BelowStep(events, k, p, q);
      if q in Stack(events, k + 1) { InnerFirst(events, p, q, k + 1); }
    }
  }

  /** The collection an event stands in is complete only after the event. */
  lemma ParentLater(events: seq<Event>, c: nat, p: nat)
    requires c < |events| && IsNode(events[c]) && p in Stack(events, c)
    ensures p < c && events[p].Open? && p in Stack(events, c + 1) && Rank(events, p) == ClosedFrom(events, p, c + 1) > c
  {
    StackIs(events, c);
    StackStep(events, c, p);
    OpenUntil(events, p, p + 1, c + 1);
  }

  lemma ChildEarlier(events: seq<Event>, c: nat, p: nat)
    requires c < |events| && events[c].Open? && Stack(events, c) != [] && Stack(events, c)[|Stack(events, c)| - 1] == p
    ensures p < c && Rank(events, c) < ClosedFrom(events, p, c + 1)
  {
    StackIs(events, c);
    var s, u := Stack(events, c), Stack(events, c + 1);
    assert u[|s| - 1] == p && u[|s|] == c;
    InnerFirst(events, p, c, c + 1);
  }

  lemma TargetEarlier(events: seq<Event>, c: nat, t: nat)
    requires AliasesComplete(events) && c < |events| && !events[c].Open? && IsNode(events[c]) && Target(events, c) == Some(t)
    ensures t < |events| && Rank(events, t) <= c
  {
    if events[t].Open? { CompleteBy(events, t, t + 1, c); }
  }

  lemma EdgeDescends(events: seq<Event>, c: nat, p: nat, t: nat)
    requires AliasesComplete(events) && c < |events| && Puts(events, c, p, t)
    ensures p < |events| && t < |events| && Rank(events, t) < Rank(events, p)
  {
    ParentLater(events, c, p);
    if events[c].Open? { ChildEarlier(events, c, p); } else { TargetEarlier(events, c, t); }
  }

  lemma {:induction false} PathDescends(events: seq<Event>, path: seq<nat>)
    requires AliasesComplete(events) && |path| >= 2 && Path(events, path)
    ensures path[0] < |events| && path[|path| - 1] < |events|
    ensures Rank(events, path[|path| - 1]) < Rank(events, path[0])
  {
    assert Edge(events, path[0], path[1]);
    var c :| 0 <= c < |events| && Puts(events, c, path[0], path[1]);
    EdgeDescends(events, c, path[0], path[1]);
    if |path| > 2 {
      forall i | 0 <= i < |path[1..]| - 1 ensures Edge(events, path[1..][i], path[1..][i + 1]) {
        assert Edge(events, path[i + 1], path[i + 2]);
      }
      PathDescends(events, path[1..]);
    }
  }

  /** An accepted stream denotes a graph without cycles. */
  lemma AcceptedIsAcyclic(events: seq<Event>)
    requires FirstFault(events, 0).None?
    ensures !Cyclic(events)
  {
    AcceptedIff(events);
    CleanIsComplete(events);
    CompleteIsAcyclic(events);
  }

  lemma CompleteIsAcyclic(events: seq<Event>)
    requires AliasesComplete(events)
    ensures !Cyclic(events)
  {
    if Cyclic(events) {
      var path :| |path| >= 2 && path[0] == path[|path| - 1] && Path(events, path);
      PathDescends(events, path);
    }
  }

  // ----- an alias for an open collection does make one

  /** The open collections are nested in each other. */
  lemma {:induction false} StackNests(events: seq<Event>, k: nat, j: nat)
    requires k <= |events| && j + 1 < |Stack(events, k)|
    ensures Edge(events, Stack(events, k)[j], Stack(events, k)[j + 1])
  {
    if k > 0 {
      var before := Stack(events, k - 1);
      if events[k - 1].Open? && j + 1 == |before| {
        assert Puts(events, k - 1, before[j], k - 1);
      } else {
        StackNests(events, k - 1, j);
      }
    }
  }

  lemma OpenAliasIsCycle(events: seq<Event>, c: nat)
    requires c < |events| && events[c].Alias? && Target(events, c).Some? && Target(events, c).value in Stack(events, c)
    ensures Cyclic(events)
  {
    var s, t := Stack(events, c), Target(events, c).value;
    var j :| 0 <= j < |s| && s[j] == t;
    assert Puts(events, c, s[|s| - 1], t);
    var path := s[j..] + [t];
    forall i | 0 <= i < |path| - 1 ensures Edge(events, path[i], path[i + 1]) {
      if i + 1 < |s[j..]| { StackNests(events, c, j + i); }
    }
    assert path[0] == path[|path| - 1];
  }

  lemma AcyclicIff(events: seq<Event>)
    ensures Cyclic(events) <==> !AliasesComplete(events)
  {
    if AliasesComplete(events) {
      CompleteIsAcyclic(events);
    } else {
      var c :| 0 <= c < |events| && events[c].Alias? && Target(events, c).Some? && Target(events, c).value in Stack(events, c);
      OpenAliasIsCycle(events, c);
    }
  }

  /** No anchor is given again inside a collection that carries it. */
  ghost predicate Unshadowed(events: seq<Event>) {
    forall i, j :: 0 <= i < j < |events| && events[i].Open? && events[i].anchor.Some? && i in Stack(events, j)
                   ==> !Anchors(events[j], events[i].anchor.value)
  }

  lemma {:induction false} StaysOpen(events: seq<Event>, i: nat, j: nat, c: nat)
    requires i < j <= c <= |events| && i in Stack(events, c)
    ensures i in Stack(events, j)
  {
    if i !in Stack(events, j) { StaysClosed(events, j, c, i); }
  }

  /** Without such anchors the alias check refuses exactly the streams that denote a cyclic graph. */
  lemma RefusedIffCyclic(events: seq<Event>)
    requires Unshadowed(events)
    ensures CleanAliases(events) <==> !Cyclic(events)
  {
    AcyclicIff(events);
    if CleanAliases(events) {
      CleanIsComplete(events);
    } else {
      var c :| 0 <= c < |events| && events[c].Alias? && events[c].name.Some? && Held(events, c, events[c].name.value);
      HeldIsTarget(events, c);
      assert !AliasesComplete(events);
    }
  }

  lemma HeldIsTarget(events: seq<Event>, c: nat)
    requires Unshadowed(events) && c < |events| && events[c].Alias? && events[c].name.Some?
    requires Held(events, c, events[c].name.value)
    ensures Target(events, c).Some? && Target(events, c).value in Stack(events, c)
  {
    var name := events[c].name.value;
    var i :| i in Stack(events, c) && i < |events| && events[i].Open? && events[i].anchor == Some(name);
    OpenAnchorIsLatest(events, c, name, i);
  }

  lemma OpenAnchorIsLatest(events: seq<Event>, c: nat, name: string, i: nat)
    requires Unshadowed(events) && c < |events| && i < |events|
    requires i in Stack(events, c) && events[i].Open? && events[i].anchor == Some(name)
    ensures Latest(events, c, name) == Some(i)
  {
    StackIs(events, c);
    assert i < c && Anchors(events[i], name);
    var t := Latest(events, c, name).value;
    if t > i {
      StaysOpen(events, i, t, c);
      assert false;
    }
  }

  /** In general: the check is right about a stream unless some alias names an anchor that is open, and yet
      every alias stands for a node that is complete. */
  lemma AliasCheckRightIff(events: seq<Event>)
    ensures (CleanAliases(events) <==> !Cyclic(events)) <==> CleanAliases(events) || !AliasesComplete(events)
  {
    AcyclicIff(events);
    if CleanAliases(events) { CleanIsComplete(events); }
  }

  /** `&a [ &a 1, *a ]` is refused, although its alias stands for the scalar. */
  lemma ShadowedIsRefused()
    ensures var events := [DocumentStart, Open(Some("a"), None), Scalar(Some("a"), None, Some(1)), Alias(Some("a")), Close];
            !CleanAliases(events) && !Cyclic(events)
  {
    var events := [DocumentStart, Open(Some("a"), None), Scalar(Some("a"), None, Some(1)), Alias(Some("a")), Close];
    assert Stack(events, 1) == [] && Stack(events, 2) == [1] && Stack(events, 3) == [1];
    assert 1 in Stack(events, 3) && Held(events, 3, "a");
    assert events[3].Alias? && events[3].name == Some("a");
    assert Target(events, 3) == Some(2);
    AcyclicIff(events);
  }
}
