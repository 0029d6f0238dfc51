/** Which event streams are let through, told by counting events. */
module YamlLaws {
  import opened Basics
  import opened YamlEvents

  /** How many more collections are opened than closed by the events behind `i`, up to `k`. */
  function NetAfter(events: seq<Event>, i: nat, k: nat): int
    requires k <= |events|
  {
    if k <= i + 1 then 0
    else NetAfter(events, i, k - 1) + if events[k - 1].Open? then 1 else if events[k - 1].Close? then -1 else 0
  }

  /** The collection opened by event `i` is not closed by the events before `k`. */
  ghost predicate OpenAt(events: seq<Event>, i: nat, k: nat)
    requires k <= |events|
  {
    i < k && events[i].Open? && forall j: nat :: i < j <= k ==> NetAfter(events, i, j) >= 0
  }

  ghost predicate StackNets(events: seq<Event>, k: nat, s: seq<nat>)
    requires k <= |events|
  {
    && (forall j :: 0 <= j < |s| ==> OpenAt(events, s[j], k) && NetAfter(events, s[j], k) == |s| - 1 - j)
    && forall i: nat :: OpenAt(events, i, k) ==> i in s
  }

  lemma OpenEarlier(events: seq<Event>, i: nat, k: nat)
    requires k < |events|
    ensures OpenAt(events, i, k + 1) <==>
            (i == k && events[k].Open?) || (OpenAt(events, i, k) && NetAfter(events, i, k + 1) >= 0)
  {
    if i == k && events[k].Open? { assert forall j: nat :: k < j <= k + 1 ==> NetAfter(events, k, j) == 0; }
  }

  lemma OneMoreEvent(events: seq<Event>, i: nat, k: nat)
    requires i < k < |events|
    ensures NetAfter(events, i, k + 1) ==
            NetAfter(events, i, k) + if events[k].Open? then 1 else if events[k].Close? then -1 else 0
  {
  }

  lemma OpenPushes(events: seq<Event>, k: nat, s: seq<nat>)
    requires k < |events| && events[k].Open? && StackNets(events, k, s)
    ensures StackNets(events, k + 1, s + [k])
  {
    var t := s + [k];
    forall j | 0 <= j < |t| ensures OpenAt(events, t[j], k + 1) && NetAfter(events, t[j], k + 1) == |t| - 1 - j {
      OpenEarlier(events, t[j], k);
      if j < |s| { OneMoreEvent(events, s[j], k); }
    }
    forall i: nat | OpenAt(events, i, k + 1) ensures i in t {
      OpenEarlier(events, i, k);
      assert t[|s|] == k;
    }
  }

  lemma ClosePops(events: seq<Event>, k: nat, s: seq<nat>)
    requires k < |events| && events[k].Close? && StackNets(events, k, s)
    ensures StackNets(events, k + 1, if s == [] then [] else s[..|s| - 1])
  {
    var t := if s == [] then [] else s[..|s| - 1];
    forall j | 0 <= j < |t| ensures OpenAt(events, t[j], k + 1) && NetAfter(events, t[j], k + 1) == |t| - 1 - j {
      assert t[j] == s[j];
      OneMoreEvent(events, s[j], k);
      OpenEarlier(events, s[j], k);
    }
    forall i: nat | OpenAt(events, i, k + 1) ensures i in t {
      OpenEarlier(events, i, k);
      var j :| 0 <= j < |s| && s[j] == i;
      OneMoreEvent(events, i, k);
      assert t[j] == i;
    }
  }

  lemma OtherLeaves(events: seq<Event>, k: nat, s: seq<nat>)
    requires k < |events| && !events[k].Close? && !events[k].Open? && StackNets(events, k, s)
    ensures StackNets(events, k + 1, s)
  {
    forall j | 0 <= j < |s| ensures OpenAt(events, s[j], k + 1) && NetAfter(events, s[j], k + 1) == |s| - 1 - j {
      OneMoreEvent(events, s[j], k);
      OpenEarlier(events, s[j], k);
    }
    forall i: nat | OpenAt(events, i, k + 1) ensures i in s { OpenEarlier(events, i, k); }
  }

  function NextStack(events: seq<Event>, k: nat, s: seq<nat>): seq<nat>
    requires k < |events|
  {
    match events[k]
    case Open(_, _) => s + [k]
    case Close => if s == [] then [] else s[..|s| - 1]
    case _ => s
  }

  lemma NetsStep(events: seq<Event>, k: nat, s: seq<nat>)
    requires k < |events| && StackNets(events, k, s)
    ensures StackNets(events, k + 1, NextStack(events, k, s))
  {
    match events[k]
    case Open(_, _) => OpenPushes(events, k, s);
    case Close => ClosePops(events, k, s);
    case _ => OtherLeaves(events, k, s);
  }

  /** The stack of the checks holds exactly the collections that are open. */
  lemma {:induction false} StackIsOpen(events: seq<Event>, k: nat)
    requires k <= |events|
    ensures StackNets(events, k, Stack(events, k))
    decreases k
  {
    if k > 0 {
      StackIsOpen(events, k - 1);
      NetsStep(events, k - 1, Stack(events, k - 1));
    }
  }

  ghost function OpenSet(events: seq<Event>, k: nat): set<nat>
    requires k <= |events|
  {
    set i | 0 <= i < |events| && OpenAt(events, i, k)
  }

  ghost function SetOf(s: seq<nat>): set<nat> {
    set x | x in s
  }

  lemma {:induction false} DistinctCount(s: seq<nat>)
    requires forall i, j :: 0 <= i < j < |s| ==> s[i] < s[j]
    ensures |SetOf(s)| == |s|
    decreases |s|
  {
    if s != [] {
      var n := |s| - 1;
      DistinctCount(s[..n]);
      LastIsNew(s, n, s[..n]);
    } else {
      assert SetOf(s) == {};
    }
  }

  lemma LastIsNew(s: seq<nat>, n: nat, init: seq<nat>)
    requires |s| == n + 1 && init == s[..n] && forall i :: 0 <= i < n ==> s[i] < s[n]
    ensures |SetOf(s)| == |SetOf(init)| + 1
  {
    assert s == init + [s[n]];
    assert s[n] !in init;
    assert SetOf(s) == SetOf(init) + {s[n]};
  }

  lemma StackCounts(events: seq<Event>, k: nat)
    requires k <= |events|
    ensures |Stack(events, k)| == |OpenSet(events, k)|
  {
    StackIsOpen(events, k);
    StackIs(events, k);
    var s := Stack(events, k);
    forall i | i in s ensures i in OpenSet(events, k) {
      var j :| 0 <= j < |s| && s[j] == i;
      assert OpenAt(events, s[j], k);
    }
    assert OpenSet(events, k) == SetOf(s);
    DistinctCount(s);
  }

  ghost function NodeEvents(events: seq<Event>, k: nat): set<nat>
    requires k <= |events|
  {
    set i | 0 <= i < k && (events[i].Alias? || events[i].Scalar? || events[i].Open?)
  }

  ghost function DocumentStarts(events: seq<Event>, k: nat): set<nat>
    requires k <= |events|
  {
    set i | 0 <= i < k && events[i].DocumentStart?
  }

  lemma {:induction false} NodesAre(events: seq<Event>, k: nat)
    requires k <= |events|
    ensures Nodes(events, k) == |NodeEvents(events, k)|
    decreases k
  {
    if k > 0 {
      NodesAre(events, k - 1);
      assert NodeEvents(events, k) == NodeEvents(events, k - 1) + if IsNode(events[k - 1]) then {k - 1} else {};
    }
  }

  lemma {:induction false} DocumentsAre(events: seq<Event>, k: nat)
    requires k <= |events|
    ensures Documents(events, k) == |DocumentStarts(events, k)|
    decreases k
  {
    if k > 0 {
      DocumentsAre(events, k - 1);
      assert DocumentStarts(events, k) == DocumentStarts(events, k - 1) + if events[k - 1].DocumentStart? then {k - 1} else {};
    }
  }

  /** One document, no more than 100000 nodes, never more than 128 collections open. */
  ghost predicate Sized(events: seq<Event>) {
    && |DocumentStarts(events, |events|)| == 1 && |NodeEvents(events, |events|)| <= 100000
    && forall k :: 0 <= k <= |events| ==> |OpenSet(events, k)| <= 128
  }

  /** No tag but the two of Compose, no integer of more than 4300 digits, no end without its beginning, and no alias to the
      anchor of a collection that is open. */
  ghost predicate EventAllowed(events: seq<Event>, k: nat)
    requires k < |events|
  {
    match events[k]
    case Scalar(_, tag, digits) =>
      (tag.Some? ==> tag.value in {"!reset", "!override"}) && (digits.Some? ==> digits.value <= 4300)
    case Open(_, tag) => tag.Some? ==> tag.value in {"!reset", "!override"}
    case Close => exists i: nat :: OpenAt(events, i, k)
    case Alias(name) => name.Some? ==> forall i: nat :: OpenAt(events, i, k) ==> events[i].anchor != name
    case _ => true
  }

  lemma ClosesSomething(events: seq<Event>, k: nat)
    requires k <= |events|
    ensures Stack(events, k) != [] <==> exists i: nat :: OpenAt(events, i, k)
  {
    StackIsOpen(events, k);
    var s := Stack(events, k);
    if s != [] { assert OpenAt(events, s[0], k); }
  }

  lemma HeldIsOpen(events: seq<Event>, k: nat, name: string)
    requires k <= |events|
    ensures Held(events, k, name) <==> exists i: nat :: OpenAt(events, i, k) && events[i].anchor == Some(name)
  {
    StackIsOpen(events, k);
    var s := Stack(events, k);
    if Held(events, k, name) {
      var i :| i in s && i < |events| && events[i].Open? && events[i].anchor == Some(name);
      var j :| 0 <= j < |s| && s[j] == i;
      assert OpenAt(events, s[j], k);
    }
  }

  ghost predicate Counted(events: seq<Event>) {
    && Documents(events, |events|) == 1 && Nodes(events, |events|) <= 100000
    && forall k :: 0 <= k <= |events| ==> |Stack(events, k)| <= 128
  }

  lemma SizedIs(events: seq<Event>)
    ensures Sized(events) <==> Counted(events)
  {
    NodesAre(events, |events|);
    DocumentsAre(events, |events|);
    forall k | 0 <= k <= |events| ensures |Stack(events, k)| == |OpenSet(events, k)| { StackCounts(events, k); }
  }

  /** What the checks ask of one event. */
  ghost predicate Checked(events: seq<Event>, k: nat)
    requires k < |events|
  {
    && (events[k].Scalar? || events[k].Open? ==> AllowedTag(events[k].tag))
    && (events[k].Scalar? && events[k].digits.Some? ==> events[k].digits.value <= MAX_DIGITS)
    && (events[k].Close? ==> Stack(events, k) != [])
    && (events[k].Alias? && events[k].name.Some? ==> !Held(events, k, events[k].name.value))
  }

  lemma AllowedIs(events: seq<Event>, k: nat)
    requires k < |events|
    ensures EventAllowed(events, k) <==> Checked(events, k)
  {
    ClosesSomething(events, k);
    if events[k].Alias? && events[k].name.Some? { HeldIsOpen(events, k, events[k].name.value); }
  }

  ghost predicate AllChecked(events: seq<Event>) {
    forall k :: 0 <= k < |events| ==> Checked(events, k)
  }

  lemma AcceptableIsChecked(events: seq<Event>)
    requires Acceptable(events)
    ensures Counted(events) && AllChecked(events)
  {
    forall k | 0 <= k < |events| ensures Checked(events, k) {}
  }

  lemma CheckedIsAcceptable(events: seq<Event>)
    requires Counted(events) && AllChecked(events)
    ensures Acceptable(events)
  {
    forall k | 0 <= k < |events|
      ensures events[k].Scalar? || events[k].Open? ==> AllowedTag(events[k].tag)
      ensures events[k].Scalar? && events[k].digits.Some? ==> events[k].digits.value <= MAX_DIGITS
      ensures events[k].Close? ==> Stack(events, k) != []
      ensures events[k].Alias? && events[k].name.Some? ==> !Held(events, k, events[k].name.value)
    {
      assert Checked(events, k);
    }
  }

  /** The checks let a stream through iff it is sized and every event is allowed where it stands. */
  lemma AcceptedLaw(events: seq<Event>)
    ensures FirstFault(events, 0).None? <==> Sized(events) && forall k :: 0 <= k < |events| ==> EventAllowed(events, k)
  {
    AcceptedIff(events);
    SizedIs(events);
    if Acceptable(events) { AcceptableIsChecked(events); }
    if Counted(events) && AllChecked(events) { CheckedIsAcceptable(events); }
    forall k | 0 <= k < |events| ensures EventAllowed(events, k) <==> Checked(events, k) { AllowedIs(events, k); }
  }
}
