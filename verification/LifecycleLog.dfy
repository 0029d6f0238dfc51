/** What the audit log of a sandbox session holds, record by record, told from the environment alone. */
module LifecycleLog {
  import opened Basics
  import opened Lifecycle

  // ----- the cleanup, event by event

  predicate StepBefore(events: seq<CleanupEvent>, k: nat)
    requires k <= |events|
  {
    exists j :: 0 <= j < k && events[j].FirstStep?
  }

  /** The task ends with this event. */
  predicate EndsAt(events: seq<CleanupEvent>, begun: bool, k: nat)
    requires k < |events|
  {
    match events[k]
    case Destroyed => true
    case DestroyFailed(_) => true
    case CancelledReturning(_, _) => true
    case TaskCancelled(_) => !begun && !StepBefore(events, k)
    case _ => false
  }

  predicate FirstEnd(events: seq<CleanupEvent>, begun: bool, k: nat) {
    k < |events| && EndsAt(events, begun, k) && forall j :: 0 <= j < k ==> !EndsAt(events, begun, j)
  }

  /** The cancellations among the first events that were the caller's. */
  function CallersOf(events: seq<CleanupEvent>, k: nat): seq<Exc>
    requires k <= |events|
  {
    if k == 0 then []
    else (if events[0].CallerCancelled? then [events[0].cancellation] else []) + CallersOf(events[1..], k - 1)
  }

  /** And how many were the task's. */
  function TaskCancellations(events: seq<CleanupEvent>, k: nat): nat
    requires k <= |events|
  {
    if k == 0 then 0 else (if events[0].TaskCancelled? then 1 else 0) + TaskCancellations(events[1..], k - 1)
  }

  function Calls(n: nat, id: string): seq<Action> {
    seq(n, _ => DestroyCalled(id))
  }

  /** What the last event leaves in the log. */
  function Ended(e: CleanupEvent, id: string): seq<Action> {
    match e
    case Destroyed => [DestroyEnded(id, None)]
    case DestroyFailed(failure) => [DestroyEnded(id, Some(failure))]
    case CancelledReturning(outcome, _) => [DestroyEnded(id, outcome)]
    case _ => []
  }

  /** One call of `destroy` and one more for every cancellation the task swallowed, then the end of the last. */
  function Destroying(events: seq<CleanupEvent>, begun: bool, k: nat, id: string): seq<Action>
    requires k < |events|
  {
    Calls(if events[k].TaskCancelled? then 0 else (if begun then 0 else 1) + TaskCancellations(events, k), id)
    + Ended(events[k], id)
  }

  function ResultAt(e: CleanupEvent): Option<TaskResult> {
    match e
    case Destroyed => Some(Returned(None))
    case DestroyFailed(failure) => Some(Returned(Some(failure)))
    case CancelledReturning(_, c) => Some(Stopped(c))
    case TaskCancelled(c) => Some(Stopped(c))
    case _ => None
  }

  lemma EndsLater(events: seq<CleanupEvent>, begun: bool, j: nat)
    requires j + 1 < |events|
    ensures EndsAt(events, begun, j + 1) <==> EndsAt(events[1..], begun || events[0].FirstStep?, j)
  {
    var rest := events[1..];
    assert rest[j] == events[j + 1];
    if StepBefore(events, j + 1) {
      var i :| 0 <= i < j + 1 && events[i].FirstStep?;
      if i > 0 { assert rest[i - 1].FirstStep?; }
    }
    if StepBefore(rest, j) {
      var i :| 0 <= i < j && rest[i].FirstStep?;
      assert events[i + 1].FirstStep?;
    }
  }

  lemma FirstEndLater(events: seq<CleanupEvent>, begun: bool, k: nat)
    requires FirstEnd(events, begun, k) && k > 0
    ensures FirstEnd(events[1..], begun || events[0].FirstStep?, k - 1)
    ensures events[0].CallerCancelled? || events[0].FirstStep? || (events[0].TaskCancelled? && begun)
  {
    EndsLater(events, begun, k - 1);
    var rest, begun' := events[1..], begun || events[0].FirstStep?;
    forall j | 0 <= j < k - 1 ensures !EndsAt(rest, begun', j) { EndsLater(events, begun, j); }
    assert !EndsAt(events, begun, 0);
  }

  lemma MoreCalls(log: seq<Action>, first: nat, n: nat, id: string, end: seq<Action>)
    ensures (log + Calls(first, id)) + (Calls(n, id) + end) == log + (Calls(first + n, id) + end)
  {
    assert Calls(first, id) + Calls(n, id) == Calls(first + n, id);
  }

  /** The session after an event that does not end the task. */
  function AfterEvent(e: CleanupEvent, s: Session, id: string, begun: bool): Session {
    match e
    case CallerCancelled(c) => s.(failures := s.failures.(cancellations := s.failures.cancellations + [c]))
    case FirstStep => Begin(s, id, begun)
    case TaskCancelled(_) => Log(s, DestroyCalled(id))
    case _ => s
  }

  lemma OneEvent(events: seq<CleanupEvent>, s: Session, id: string, begun: bool)
    requires events != [] && (events[0].CallerCancelled? || events[0].FirstStep? || (events[0].TaskCancelled? && begun))
    ensures Drain(events, s, id, begun) == Drain(events[1..], AfterEvent(events[0], s, id, begun), id, begun || events[0].FirstStep?)
  {
  }

  lemma LogAfter(events: seq<CleanupEvent>, s: Session, id: string, begun: bool, k: nat)
    requires FirstEnd(events, begun, k) && k > 0
    ensures AfterEvent(events[0], s, id, begun).log + Destroying(events[1..], begun || events[0].FirstStep?, k - 1, id) ==
            s.log + Destroying(events, begun, k, id)
  {
    FirstEndLater(events, begun, k);
    var rest, begun', e := events[1..], begun || events[0].FirstStep?, events[k];
    var n := if e.TaskCancelled? then 0 else (if begun' then 0 else 1) + TaskCancellations(rest, k - 1);
    if !events[0].CallerCancelled? {
      EndsAfterStep(events, begun, k);
      var first := if events[0].FirstStep? && begun then 0 else 1;
      assert AfterEvent(events[0], s, id, begun).log == s.log + Calls(first, id);
      MoreCalls(s.log, first, n, id, Ended(e, id));
    }
  }

  lemma CallersAfter(events: seq<CleanupEvent>, s: Session, id: string, begun: bool, k: nat)
    requires 0 < k <= |events|
    ensures var u := AfterEvent(events[0], s, id, begun);
            && u.writes == s.writes
            && u.failures.(cancellations := u.failures.cancellations + CallersOf(events[1..], k - 1)) ==
               s.failures.(cancellations := s.failures.cancellations + CallersOf(events, k))
  {
    var more := CallersOf(events[1..], k - 1);
    if events[0].CallerCancelled? {
      var c := events[0].cancellation;
      assert s.failures.cancellations + [c] + more == s.failures.cancellations + ([c] + more);
    } else {
      assert [] + more == more;
    }
  }

  /** The wait for the task adds this to the log, and takes in the cancellations of the caller. */
  lemma {:induction false} DrainLog(events: seq<CleanupEvent>, s: Session, id: string, begun: bool, k: nat)
    requires FirstEnd(events, begun, k)
    ensures var (t, done) := Drain(events, s, id, begun);
            && t.log == s.log + Destroying(events, begun, k, id) && done == ResultAt(events[k]) && t.writes == s.writes
            && t.failures == s.failures.(cancellations := s.failures.cancellations + CallersOf(events, k))
    decreases events
  {
    if k == 0 {
      assert s.failures.cancellations + [] == s.failures.cancellations;
      DrainedAtOnce(events, s, id, begun);
    } else {
      FirstEndLater(events, begun, k);
      OneEvent(events, s, id, begun);
      LogAfter(events, s, id, begun, k);
      CallersAfter(events, s, id, begun, k);
      DrainLog(events[1..], AfterEvent(events[0], s, id, begun), id, begun || events[0].FirstStep?, k - 1);
    }
  }

  lemma EndsAfterStep(events: seq<CleanupEvent>, begun: bool, k: nat)
    requires FirstEnd(events, begun, k) && k > 0 && (begun || events[0].FirstStep?)
    ensures !events[k].TaskCancelled?
  {
  }

  lemma DrainedAtOnce(events: seq<CleanupEvent>, s: Session, id: string, begun: bool)
    requires FirstEnd(events, begun, 0)
    ensures var (t, done) := Drain(events, s, id, begun);
            && t.log == s.log + Destroying(events, begun, 0, id) && done == ResultAt(events[0]) && t.writes == s.writes
            && t.failures == s.failures
  {
    var first := if begun then 0 else 1;
    if events[0].TaskCancelled? {
      assert s.log + Calls(0, id) == s.log;
    } else {
      assert Begin(s, id, begun).log == s.log + Calls(first, id);
      MoreCalls(s.log, first, 0, id, Ended(events[0], id));
      assert Calls(0, id) + Ended(events[0], id) == Ended(events[0], id);
    }
  }

  // ----- the whole log

  /** The record of an event, unless the write fails. */
  function Entry(w: World, n: nat, event: string, id: string): seq<Action> {
    if w.auditWrite(n).None? then [Wrote(event, id)] else []
  }

  /** The failures of the first writes, in their order. */
  function FailedWrites(w: World, n: nat): seq<Exc> {
    if n == 0 then [] else
      FailedWrites(w, n - 1) + if w.auditWrite(n - 1).Some? then [w.auditWrite(n - 1).value] else []
  }

  function ClosingFailure(w: World): seq<Exc> {
    if w.auditClose.Some? then [w.auditClose.value] else []
  }

  /** The session has this log, made this many writes, and has the failures of those. */
  ghost predicate Has(w: World, s: Session, log: seq<Action>, writes: nat, body: Option<Exc>, cancellations: seq<Exc>) {
    && s.log == log && s.writes == writes
    && s.failures == Failures(body, None, FailedWrites(w, writes), cancellations)
  }

  lemma HasRecorded(w: World, s: Session, log: seq<Action>, n: nat, body: Option<Exc>, cancellations: seq<Exc>,
                    event: string, id: string)
    requires Has(w, s, log, n, body, cancellations)
    ensures Has(w, RecordEvent(s, w, event, id), log + Entry(w, n, event, id), n + 1, body, cancellations)
  {
    if w.auditWrite(n).Some? { assert log + [] == log; } else { assert FailedWrites(w, n) + [] == FailedWrites(w, n); }
  }

  const OPENING := [Wrote("create_attempt", ""), CreateCalled]

  lemma CalledHas(w: World)
    requires w.auditWrite(0).None?
    ensures Has(w, Called(w), OPENING, 1, None, [])
  {
    CalledIs(w);
    assert FailedWrites(w, 0) == [] && FailedWrites(w, 1) == [];
  }

  /** The body's own failure is recorded when it comes with evidence. */
  function BodyLog(w: World, id: string): seq<Action> {
    if w.auditWrite(1).Some? then [] else
      [BodyRan(id)] + if w.body.BodyFailed? && w.body.hasEvidence then Entry(w, 2, "provider_failure", id) else []
  }

  function BodyWrites(w: World): nat {
    if w.auditWrite(1).None? && w.body.BodyFailed? && w.body.hasEvidence then 3 else 2
  }

  function BodyFailure(w: World): Option<Exc> {
    if w.auditWrite(1).None? && w.body.BodyFailed? then Some(w.body.failure) else None
  }

  function CreatedLog(w: World, id: string): seq<Action> {
    OPENING + Entry(w, 1, "create_success", id)
  }

  lemma RecordedHas(w: World)
    requires w.auditWrite(0).None? && w.create.Created?
    ensures Has(w, Recorded(w), CreatedLog(w, w.create.id), 2, None, [])
    ensures Recorded(w).failures.audit == [] <==> w.auditWrite(1).None?
  {
    CalledHas(w);
    HasRecorded(w, Called(w), OPENING, 1, None, [], "create_success", w.create.id);
    assert FailedWrites(w, 1) == [];
  }

  lemma BodyHas(w: World, id: string)
    requires w.auditWrite(0).None? && w.create.Created? && id == w.create.id
    ensures Has(w, RunBody(w, Recorded(w), id), CreatedLog(w, id) + BodyLog(w, id), BodyWrites(w), BodyFailure(w), [])
  {
    RecordedHas(w);
    var s, log := Recorded(w), CreatedLog(w, id);
    if w.auditWrite(1).Some? {
      assert log + [] == log;
    } else {
      var ran := log + [BodyRan(id)];
      if w.body.BodyFailed? && w.body.hasEvidence {
        var u := Log(s, BodyRan(id)).(failures := s.failures.(body := Some(w.body.failure)));
        HasRecorded(w, u, ran, 2, Some(w.body.failure), [], "provider_failure", id);
        assert ran + Entry(w, 2, "provider_failure", id) == log + BodyLog(w, id);
      } else {
        assert log + BodyLog(w, id) == ran;
      }
    }
  }

  /** What is recorded of the cleanup's end, and the file's. */
  function Closing(w: World, e: CleanupEvent, n: nat, success: string, failure: string, id: string): seq<Action> {
    match e
    case Destroyed => Entry(w, n, success, id) + [Closed]
    case DestroyFailed(_) => Entry(w, n, failure, id) + [Closed]
    case _ => []
  }

  lemma FinishHas(w: World, s: Session, log: seq<Action>, n: nat, body: Option<Exc>, cancellations: seq<Exc>,
                  event: string, id: string)
    requires Has(w, s.(failures := s.failures.(destroy := None)), log, n, body, cancellations)
    ensures var t := CloseArtifact(RecordEvent(s, w, event, id), w);
            && t.log == log + (Entry(w, n, event, id) + [Closed])
            && t.failures == Failures(body, s.failures.destroy, FailedWrites(w, n + 1) + ClosingFailure(w), cancellations)
  {
    var r := RecordEvent(s, w, event, id);
    if w.auditWrite(n).Some? { assert log + [] == log; } else { assert FailedWrites(w, n) + [] == FailedWrites(w, n); }
    assert r.log == log + Entry(w, n, event, id);
    assert log + Entry(w, n, event, id) + [Closed] == log + (Entry(w, n, event, id) + [Closed]);
    assert FailedWrites(w, n + 1) + [] == FailedWrites(w, n + 1);
  }

  // ----- the session of a created sandbox

  /** Which failure comes first: the body's, else the caller's first cancellation, else the audit file's first failure. */
  function FirstFailure(body: Option<Exc>, cancellations: seq<Exc>, audit: seq<Exc>): Option<Exc> {
    if body.Some? then body
    else if cancellations != [] then Some(cancellations[0])
    else if audit != [] then Some(audit[0])
    else None
  }

  /** What leaves the session after a destruction that ended. */
  ghost predicate LeavesWith(exit: Exit, e: CleanupEvent, id: string, body: Option<Exc>, cancellations: seq<Exc>, audit: seq<Exc>) {
    && exit.Left?
    && match e
       case Destroyed =>
         var first := FirstFailure(body, cancellations, audit);
         if first.None? then exit.raised.None?
         else exit.raised.Some? && exit.raised.value.Primary? && exit.raised.value.failure == first.value
       case DestroyFailed(failure) =>
         exit.raised == Some(CleanupError(id, failure, body, None, None, audit, cancellations))
       case _ =>
         && ResultAt(e).Some? && ResultAt(e).value.Stopped?
         && exit.raised == Some(TaskCancellation(ResultAt(e).value.cancellation))
  }

  lemma OutcomeLeaves(w: World, f: Failures, e: CleanupEvent, id: string)
    requires (e.Destroyed? && f.destroy.None?) || (e.DestroyFailed? && f.destroy == Some(e.failure))
    ensures LeavesWith(Left(RaiseOutcome(w, f, id)), e, id, f.body, f.cancellations, f.audit)
  {
  }

  function CreatedSession(w: World, k: nat, id: string): seq<Action>
    requires k < |w.cleanup|
  {
    var n := BodyWrites(w);
    CreatedLog(w, id) + BodyLog(w, id) + Entry(w, n, "destroy_attempt", id) + Destroying(w.cleanup, false, k, id)
    + Closing(w, w.cleanup[k], n + 1, "destroy_success", "destroy_failure", id)
  }

  lemma DrainHas(w: World, s: Session, log: seq<Action>, n: nat, body: Option<Exc>, k: nat, id: string)
    requires Has(w, s, log, n, body, []) && FirstEnd(w.cleanup, false, k)
    ensures var (t, done) := Drain(w.cleanup, s, id, false);
            Has(w, t, log + Destroying(w.cleanup, false, k, id), n, body, CallersOf(w.cleanup, k)) && done == ResultAt(w.cleanup[k])
  {
    DrainLog(w.cleanup, s, id, false, k);
    assert [] + CallersOf(w.cleanup, k) == CallersOf(w.cleanup, k);
  }

  lemma DestroyHas(w: World, s: Session, log: seq<Action>, n: nat, body: Option<Exc>, k: nat, id: string, e: CleanupEvent)
    requires Has(w, s, log, n, body, []) && FirstEnd(w.cleanup, false, k) && e == w.cleanup[k]
    ensures var (t, exit) := DestroySandbox(w, s, id);
            && t.log == log + Entry(w, n, "destroy_attempt", id) + Destroying(w.cleanup, false, k, id)
                        + Closing(w, e, n + 1, "destroy_success", "destroy_failure", id)
            && LeavesWith(exit, e, id, body, CallersOf(w.cleanup, k), FailedWrites(w, n + 2) + ClosingFailure(w))
            && t.writes == if e.Destroyed? || e.DestroyFailed? then n + 2 else n + 1
  {
    HasRecorded(w, s, log, n, body, [], "destroy_attempt", id);
    var s1, log1 := RecordEvent(s, w, "destroy_attempt", id), log + Entry(w, n, "destroy_attempt", id);
    DrainHas(w, s1, log1, n + 1, body, k, id);
    var (s2, done) := Drain(w.cleanup, s1, id, false);
    var log2, callers := log1 + Destroying(w.cleanup, false, k, id), CallersOf(w.cleanup, k);
    if e.Destroyed? || e.DestroyFailed? {
      var s3 := s2.(failures := s2.failures.(destroy := done.value.failure));
      assert s3.(failures := s3.failures.(destroy := None)) == s2;
      var event := if e.Destroyed? then "destroy_success" else "destroy_failure";
      FinishHas(w, s3, log2, n + 1, body, callers, event, id);
      OutcomeLeaves(w, CloseArtifact(RecordEvent(s3, w, event, id), w).failures, e, id);
    } else {
      assert log2 + [] == log2;
    }
  }

  lemma CreatedIs(w: World, k: nat, id: string)
    requires w.auditWrite(0).None? && w.create == Created(id) && FirstEnd(w.cleanup, false, k)
    ensures var (s, exit) := Managed(w);
            && s.log == CreatedSession(w, k, id)
            && LeavesWith(exit, w.cleanup[k], id, BodyFailure(w), CallersOf(w.cleanup, k),
                          FailedWrites(w, BodyWrites(w) + 2) + ClosingFailure(w))
            && s.writes == if w.cleanup[k].Destroyed? || w.cleanup[k].DestroyFailed? then BodyWrites(w) + 2 else BodyWrites(w) + 1
  {
    SuccessIs(w);
    BodyHas(w, id);
    DestroyHas(w, RunBody(w, Recorded(w), id), CreatedLog(w, id) + BodyLog(w, id), BodyWrites(w), BodyFailure(w), k, id, w.cleanup[k]);
  }

  // ----- the other sessions

  function PartialLog(w: World, id: string): seq<Action> {
    OPENING + Entry(w, 1, "create_cleanup_unsafe", id) + Entry(w, 2, "cleanup_retry_attempt", id)
  }

  function PartialSessionLog(w: World, k: nat, id: string): seq<Action>
    requires k < |w.cleanup|
  {
    PartialLog(w, id) + Destroying(w.cleanup, false, k, id)
    + Closing(w, w.cleanup[k], 3, "cleanup_retry_success", "cleanup_retry_failure", id)
  }

  lemma RetryingHas(w: World, id: string)
    requires w.auditWrite(0).None? && w.create.CreatedPartially? && id == w.create.id
    ensures Has(w, Retrying(w), PartialLog(w, id), 3, None, [])
  {
    CalledHas(w);
    var s1 := RecordEvent(Called(w), w, "create_cleanup_unsafe", id);
    HasRecorded(w, Called(w), OPENING, 1, None, [], "create_cleanup_unsafe", id);
    HasRecorded(w, s1, OPENING + Entry(w, 1, "create_cleanup_unsafe", id), 2, None, [], "cleanup_retry_attempt", id);
  }

  /** What leaves the session of a partial creation. */
  ghost predicate LeavesPartial(w: World, exit: Exit, e: CleanupEvent, id: string, cancellations: seq<Exc>, audit: seq<Exc>)
    requires w.create.CreatedPartially?
  {
    && exit.Left? && exit.raised.Some?
    && match e
       case Destroyed => exit.raised.value.Primary? && exit.raised.value.failure == w.create.failure
       case DestroyFailed(retry) =>
         exit.raised.value ==
           CleanupError(id, retry, None, Some(w.create.failure), Some(w.create.cleanupFailure), audit, cancellations)
       case _ =>
         && ResultAt(e).Some? && ResultAt(e).value.Stopped?
         && exit.raised.value == TaskCancellation(ResultAt(e).value.cancellation)
  }

  lemma PartialLogIs(w: World, k: nat, id: string)
    requires w.auditWrite(0).None? && w.create.CreatedPartially? && id == w.create.id && FirstEnd(w.cleanup, false, k)
    ensures var (s, exit) := Managed(w);
            && s.log == PartialSessionLog(w, k, id)
            && LeavesPartial(w, exit, w.cleanup[k], id, CallersOf(w.cleanup, k), FailedWrites(w, 4) + ClosingFailure(w))
            && s.writes == if w.cleanup[k].Destroyed? || w.cleanup[k].DestroyFailed? then 4 else 3
  {
    PartialIs(w);
    RetryingHas(w, id);
    DrainHas(w, Retrying(w), PartialLog(w, id), 3, None, k, id);
    var (t, done) := Retried(w);
    var e, log := w.cleanup[k], PartialLog(w, id) + Destroying(w.cleanup, false, k, id);
    if e.Destroyed? || e.DestroyFailed? {
      assert t.(failures := t.failures.(destroy := None)) == t;
      FinishHas(w, t, log, 3, None, CallersOf(w.cleanup, k),
                if e.Destroyed? then "cleanup_retry_success" else "cleanup_retry_failure", id);
    } else {
      assert log + [] == log;
    }
  }

  function FailedLog(w: World): seq<Action> {
    OPENING + (Entry(w, 1, "create_failure", "") + [Closed])
  }

  lemma FailedLogIs(w: World)
    requires w.auditWrite(0).None? && w.create.CreateFailed?
    ensures var (s, exit) := Managed(w);
            && s.log == FailedLog(w) && exit.Left? && exit.raised.Some? && exit.raised.value.Primary?
            && exit.raised.value.failure == w.create.failure
  {
    CalledHas(w);
    CalledIs(w);
    FinishHas(w, Called(w), OPENING, 1, None, [], "create_failure", "");
  }

  lemma UnattemptedIs(w: World)
    requires w.auditWrite(0).Some?
    ensures var (s, exit) := Managed(w);
            && s.log == [Closed] && exit.Left? && exit.raised.Some? && exit.raised.value.Primary?
            && exit.raised.value.failure == w.auditWrite(0).value
  {
    NotCreatedIs(w);
  }

  /** The whole log of a session whose cleanup, if there is one, ends with event `k`. */
  function SessionLog(w: World, k: nat): seq<Action>
    requires w.auditWrite(0).None? && IdOf(w.create).Some? ==> k < |w.cleanup|
  {
    if w.auditWrite(0).Some? then [Closed]
    else match w.create
         case Created(id) => CreatedSession(w, k, id)
         case CreatedPartially(_, id, _) => PartialSessionLog(w, k, id)
         case CreateFailed(_) => FailedLog(w)
  }

  /** Every session that ends leaves exactly this log. */
  lemma LogOfSession(w: World, k: nat)
    requires w.auditWrite(0).None? && IdOf(w.create).Some? ==> FirstEnd(w.cleanup, false, k)
    ensures Managed(w).0.log == SessionLog(w, k)
  {
    if w.auditWrite(0).Some? { UnattemptedIs(w); }
    else if w.create.CreateFailed? { FailedLogIs(w); }
    else if w.create.CreatedPartially? { PartialLogIs(w, k, w.create.id); }
    else { CreatedIs(w, k, w.create.id); }
  }

  lemma {:induction false} EndOrNot(events: seq<CleanupEvent>, n: nat) returns (k: Option<nat>)
    requires n <= |events|
    ensures k.Some? ==> FirstEnd(events, false, k.value)
    ensures k.None? ==> forall j :: 0 <= j < n ==> !EndsAt(events, false, j)
    decreases n
  {
    if n == 0 { k := None; } else {
      k := EndOrNot(events, n - 1);
      if k.None? && EndsAt(events, false, n - 1) { k := Some(n - 1); }
    }
  }

  /** The task ends iff one of its events ends it. */
  lemma {:induction false} NeverEnds(events: seq<CleanupEvent>, begun: bool)
    ensures TaskEnd(events, begun).None? <==> forall j :: 0 <= j < |events| ==> !EndsAt(events, begun, j)
    decreases events
  {
    if events != [] {
      var rest, begun' := events[1..], begun || events[0].FirstStep?;
      NeverEnds(rest, begun');
      assert EndsAt(events, begun, 0) <==> Ends(events[0], begun);
      forall j | 0 <= j < |events| && j > 0 ensures EndsAt(events, begun, j) <==> EndsAt(rest, begun', j - 1) {
        EndsLater(events, begun, j - 1);
      }
      if forall j :: 0 <= j < |events| ==> !EndsAt(events, begun, j) {
        forall j | 0 <= j < |rest| ensures !EndsAt(rest, begun', j) { assert !EndsAt(events, begun, j + 1); }
      }
    }
  }

  // ----- the records of what became of the sandbox

  /** If this entry is the record of an outcome, what it records stands right before it. */
  predicate Backed(log: seq<Action>, i: nat)
    requires i < |log|
  {
    log[i].Wrote? ==>
      var id := log[i].id;
      match log[i].event
      case "destroy_success" => i > 0 && log[i - 1] == DestroyEnded(id, None)
      case "destroy_failure" => i > 0 && log[i - 1].DestroyEnded? && log[i - 1].id == id && log[i - 1].failure.Some?
      case "cleanup_retry_success" => i > 0 && log[i - 1] == DestroyEnded(id, None)
      case "cleanup_retry_failure" => i > 0 && log[i - 1].DestroyEnded? && log[i - 1].id == id && log[i - 1].failure.Some?
      case "create_failure" => i > 0 && log[i - 1] == CreateCalled
      case _ => true
  }

  ghost predicate AllBacked(log: seq<Action>) {
    forall i :: 0 <= i < |log| ==> Backed(log, i)
  }

  predicate NoOutcome(a: Action) {
    a.Wrote? ==> a.event !in {"destroy_success", "destroy_failure", "cleanup_retry_success", "cleanup_retry_failure", "create_failure"}
  }

  lemma BackedMore(a: seq<Action>, b: seq<Action>)
    requires AllBacked(a) && forall i :: 0 <= i < |b| ==> NoOutcome(b[i])
    ensures AllBacked(a + b)
  {
    forall i | 0 <= i < |a + b| ensures Backed(a + b, i) {
      if i < |a| { assert Backed(a, i); } else { assert NoOutcome(b[i - |a|]); }
    }
  }

  lemma EntryIsPlain(w: World, n: nat, event: string, id: string)
    requires event in {"create_attempt", "create_success", "provider_failure", "destroy_attempt",
                       "create_cleanup_unsafe", "cleanup_retry_attempt"}
    ensures forall i :: 0 <= i < |Entry(w, n, event, id)| ==> NoOutcome(Entry(w, n, event, id)[i])
  {
    assert NoOutcome(Wrote(event, id)) by {
      assert |"create_attempt"| == |"create_success"| == |"create_failure"| == 14 && |"provider_failure"| == 16;
      assert "create_attempt"[7] == 'a' && "create_success"[7] == 's' && "create_failure"[7] == 'f';
      assert |"destroy_attempt"| == |"destroy_success"| == |"destroy_failure"| == 15;
      assert "destroy_attempt"[8] == 'a' && "destroy_success"[8] == 's' && "destroy_failure"[8] == 'f';
      assert |"cleanup_retry_attempt"| == |"cleanup_retry_success"| == |"cleanup_retry_failure"| == |"create_cleanup_unsafe"| == 21;
      assert "cleanup_retry_attempt"[14] == 'a' && "cleanup_retry_success"[14] == 's' && "cleanup_retry_failure"[14] == 'f';
      assert "create_cleanup_unsafe"[1] == 'r' && "cleanup_retry_success"[1] == 'l' && "cleanup_retry_failure"[1] == 'l';
    }
  }

  /** The end of a cleanup, with its record. */
  lemma BackedEnd(w: World, log: seq<Action>, e: CleanupEvent, n: nat, success: string, failure: string, id: string)
    requires AllBacked(log)
    requires (success == "destroy_success" && failure == "destroy_failure") ||
             (success == "cleanup_retry_success" && failure == "cleanup_retry_failure")
    ensures AllBacked(log + Ended(e, id) + Closing(w, e, n, success, failure, id))
  {
    BackedMore(log, Ended(e, id));
    var ended, closing := log + Ended(e, id), Closing(w, e, n, success, failure, id);
    var all := ended + closing;
    if e.Destroyed? || e.DestroyFailed? {
      assert ended[|ended| - 1] == Ended(e, id)[0];
      NamesDiffer();
      forall i | 0 <= i < |all| ensures Backed(all, i) {
        if i < |ended| { assert Backed(ended, i); }
      }
    } else {
      assert all == ended;
    }
  }

  lemma NamesDiffer()
    ensures "destroy_success" != "destroy_failure" && "cleanup_retry_success" != "cleanup_retry_failure"
    ensures |"destroy_success"| == |"destroy_failure"| == 15 && |"create_failure"| == 14
    ensures |"cleanup_retry_success"| == |"cleanup_retry_failure"| == 21
  {
    assert "destroy_success"[8] == 's' && "destroy_failure"[8] == 'f';
    assert "cleanup_retry_success"[14] == 's' && "cleanup_retry_failure"[14] == 'f';
  }

  lemma DestroyingBacked(w: World, log: seq<Action>, k: nat, n: nat, success: string, failure: string, id: string)
    requires AllBacked(log) && k < |w.cleanup|
    requires (success == "destroy_success" && failure == "destroy_failure") ||
             (success == "cleanup_retry_success" && failure == "cleanup_retry_failure")
    ensures AllBacked(log + Destroying(w.cleanup, false, k, id) + Closing(w, w.cleanup[k], n, success, failure, id))
  {
    var e := w.cleanup[k];
    var calls := Calls(if e.TaskCancelled? then 0 else 1 + TaskCancellations(w.cleanup, k), id);
    BackedMore(log, calls);
    BackedEnd(w, log + calls, e, n, success, failure, id);
    assert log + (calls + Ended(e, id)) == log + calls + Ended(e, id);
  }

  lemma OpeningBacked()
    ensures AllBacked(OPENING)
  {
    EntryIsPlain(World(_ => None, None, CreateFailed(0), BodyReturned, [], _ => None), 0, "create_attempt", "");
    assert AllBacked([]);
    assert [] + OPENING == OPENING;
    assert NoOutcome(Wrote("create_attempt", "")) by {
      assert |"create_attempt"| == |"create_failure"| == 14 && "create_attempt"[7] == 'a' && "create_failure"[7] == 'f';
      NamesDiffer();
    }
    BackedMore([], OPENING);
  }

  lemma BodyBacked(w: World, id: string)
    ensures AllBacked(CreatedLog(w, id) + BodyLog(w, id) + Entry(w, BodyWrites(w), "destroy_attempt", id))
  {
    OpeningBacked();
    EntryIsPlain(w, 1, "create_success", id);
    BackedMore(OPENING, Entry(w, 1, "create_success", id));
    EntryIsPlain(w, 2, "provider_failure", id);
    BackedMore(CreatedLog(w, id), BodyLog(w, id));
    EntryIsPlain(w, BodyWrites(w), "destroy_attempt", id);
    BackedMore(CreatedLog(w, id) + BodyLog(w, id), Entry(w, BodyWrites(w), "destroy_attempt", id));
  }

  lemma PartialBacked(w: World, id: string)
    ensures AllBacked(PartialLog(w, id))
  {
    OpeningBacked();
    EntryIsPlain(w, 1, "create_cleanup_unsafe", id);
    BackedMore(OPENING, Entry(w, 1, "create_cleanup_unsafe", id));
    EntryIsPlain(w, 2, "cleanup_retry_attempt", id);
    BackedMore(OPENING + Entry(w, 1, "create_cleanup_unsafe", id), Entry(w, 2, "cleanup_retry_attempt", id));
  }

  lemma FailedBacked(w: World)
    ensures AllBacked(FailedLog(w))
  {
    OpeningBacked();
    NamesDiffer();
    var log := FailedLog(w);
    assert log[0] == OPENING[0] && log[1] == CreateCalled;
    forall i | 0 <= i < |log| ensures Backed(log, i) {
      if i < 2 { assert Backed(OPENING, i); }
    }
  }

  lemma EndedBacked(w: World, k: nat)
    requires w.auditWrite(0).None? && IdOf(w.create).Some? ==> FirstEnd(w.cleanup, false, k)
    ensures AllBacked(SessionLog(w, k))
  {
    if w.auditWrite(0).None? {
      match w.create
      case Created(id) =>
        BodyBacked(w, id);
        DestroyingBacked(w, CreatedLog(w, id) + BodyLog(w, id) + Entry(w, BodyWrites(w), "destroy_attempt", id), k,
                         BodyWrites(w) + 1, "destroy_success", "destroy_failure", id);
      case CreatedPartially(_, id, _) =>
        PartialBacked(w, id);
        DestroyingBacked(w, PartialLog(w, id), k, 3, "cleanup_retry_success", "cleanup_retry_failure", id);
      case CreateFailed(_) => FailedBacked(w);
    }
  }

  /** A wait that goes on adds no record. */
  lemma WaitBacked(w: World, s: Session, id: string)
    requires AllBacked(s.log)
    ensures AllBacked(Drain(w.cleanup, s, id, false).0.log)
  {
    DrainExact(w.cleanup, s, id, false);
    var log := Drain(w.cleanup, s, id, false).0.log;
    var more := log[|s.log|..];
    assert log == s.log + more;
    forall i | 0 <= i < |more| ensures NoOutcome(more[i]) { assert more[i] == log[|s.log| + i]; }
    BackedMore(s.log, more);
  }

  lemma WaitingCreated(w: World, id: string)
    requires w.auditWrite(0).None? && w.create == Created(id) && TaskEnd(w.cleanup, false).None?
    ensures AllBacked(Managed(w).0.log)
  {
    SuccessIs(w);
    BodyHas(w, id);
    BodyBacked(w, id);
    var s, n := RunBody(w, Recorded(w), id), BodyWrites(w);
    HasRecorded(w, s, CreatedLog(w, id) + BodyLog(w, id), n, BodyFailure(w), [], "destroy_attempt", id);
    WaitBacked(w, RecordEvent(s, w, "destroy_attempt", id), id);
    DrainExact(w.cleanup, RecordEvent(s, w, "destroy_attempt", id), id, false);
  }

  lemma WaitingPartial(w: World, id: string)
    requires w.auditWrite(0).None? && w.create.CreatedPartially? && id == w.create.id && TaskEnd(w.cleanup, false).None?
    ensures AllBacked(Managed(w).0.log)
  {
    PartialIs(w);
    RetryingHas(w, id);
    PartialBacked(w, id);
    WaitBacked(w, Retrying(w), id);
    DrainExact(w.cleanup, Retrying(w), id, false);
  }

  /** In every session, ended or waiting, each record of an outcome stands right behind that outcome: `destroy_success`
      and `cleanup_retry_success` behind a `destroy` call that ended well, `destroy_failure` and `cleanup_retry_failure`
      behind one that failed, for that sandbox, and `create_failure` behind the call of `create`. */
  lemma OutcomesAreBacked(w: World, i: nat)
    requires i < |Managed(w).0.log|
    ensures Backed(Managed(w).0.log, i)
  {
    var k := EndOrNot(w.cleanup, |w.cleanup|);
    if w.auditWrite(0).Some? || w.create.CreateFailed? || k.Some? {
      var at := if k.Some? then k.value else 0;
      LogOfSession(w, at);
      EndedBacked(w, at);
    } else {
      NeverEnds(w.cleanup, false);
      if w.create.Created? { WaitingCreated(w, w.create.id); } else { WaitingPartial(w, w.create.id); }
    }
  }

  /** The name of the record of what became of the sandbox. */
  function OutcomeEvent(c: Create, failure: Option<Exc>): string {
    if c.Created? then (if failure.None? then "destroy_success" else "destroy_failure")
    else if failure.None? then "cleanup_retry_success" else "cleanup_retry_failure"
  }

  lemma EndedTail(w: World, before: seq<Action>, e: CleanupEvent, n: nat, success: string, failure: string, id: string)
    returns (outcome: Option<Exc>)
    requires e.Destroyed? || e.DestroyFailed?
    ensures outcome == if e.Destroyed? then None else Some(e.failure)
    ensures before + Ended(e, id) + Closing(w, e, n, success, failure, id) ==
            before + [DestroyEnded(id, outcome)] + Entry(w, n, if outcome.None? then success else failure, id) + [Closed]
  {
    outcome := if e.Destroyed? then None else Some(e.failure);
  }

  /** The last three entries of a session that left with the sandbox's destruction ended: the end of the last call, its
      record unless that write failed, and the closing of the file. */
  ghost predicate EndsRecorded(w: World, s: Session, before: seq<Action>, id: string, failure: Option<Exc>) {
    s.writes > 0 &&
    s.log == before + [DestroyEnded(id, failure)] + Entry(w, s.writes - 1, OutcomeEvent(w.create, failure), id) + [Closed]
  }

  predicate NoEnd(log: seq<Action>) {
    forall i :: 0 <= i < |log| ==> !log[i].DestroyEnded?
  }

  lemma BeforeHasNoEnd(w: World, log: seq<Action>, n: nat, id: string)
    requires log == CreatedLog(w, id) + BodyLog(w, id) + Entry(w, BodyWrites(w), "destroy_attempt", id) || log == PartialLog(w, id)
    ensures NoEnd(log + Calls(n, id))
  {
  }

  /** The event that ends a task which is not cancelled. */
  lemma EndingEvent(w: World) returns (k: nat)
    requires var (s, exit) := Managed(w); exit.Left? && SandboxGiven(w, s) && !TaskStopped(w, s)
    ensures w.auditWrite(0).None? && FirstEnd(w.cleanup, false, k)
    ensures w.cleanup[k].Destroyed? || w.cleanup[k].DestroyFailed?
  {
    var s := Managed(w).0;
    NoSandboxIsAbandoned(w);
    Cases(w);
    NeverEnds(w.cleanup, false);
    var end := EndOrNot(w.cleanup, |w.cleanup|);
    k := end.value;
    DrainLog(w.cleanup, s, IdOf(w.create).value, false, k);
    DrainExact(w.cleanup, s, IdOf(w.create).value, false);
  }

  lemma Shape(log: seq<Action>, calls: seq<Action>, ended: seq<Action>, closing: seq<Action>)
    ensures log + (calls + ended) + closing == (log + calls) + ended + closing
  {
  }

  lemma CreatedRecorded(w: World, k: nat, id: string) returns (before: seq<Action>, failure: Option<Exc>)
    requires w.auditWrite(0).None? && w.create == Created(id) && FirstEnd(w.cleanup, false, k)
    requires w.cleanup[k].Destroyed? || w.cleanup[k].DestroyFailed?
    ensures EndsRecorded(w, Managed(w).0, before, id, failure) && NoEnd(before)
  {
    var e, n := w.cleanup[k], BodyWrites(w) + 1;
    var log := CreatedLog(w, id) + BodyLog(w, id) + Entry(w, BodyWrites(w), "destroy_attempt", id);
    var calls := Calls(1 + TaskCancellations(w.cleanup, k), id);
    CreatedIs(w, k, id);
    before := log + calls;
    BeforeHasNoEnd(w, log, |calls|, id);
    failure := EndedTail(w, before, e, n, "destroy_success", "destroy_failure", id);
    Shape(log, calls, Ended(e, id), Closing(w, e, n, "destroy_success", "destroy_failure", id));
  }

  lemma PartialRecorded(w: World, k: nat, id: string) returns (before: seq<Action>, failure: Option<Exc>)
    requires w.auditWrite(0).None? && w.create.CreatedPartially? && id == w.create.id && FirstEnd(w.cleanup, false, k)
    requires w.cleanup[k].Destroyed? || w.cleanup[k].DestroyFailed?
    ensures EndsRecorded(w, Managed(w).0, before, id, failure) && NoEnd(before)
  {
    var e, log := w.cleanup[k], PartialLog(w, id);
    var calls := Calls(1 + TaskCancellations(w.cleanup, k), id);
    PartialLogIs(w, k, id);
    before := log + calls;
    BeforeHasNoEnd(w, log, |calls|, id);
    failure := EndedTail(w, before, e, 3, "cleanup_retry_success", "cleanup_retry_failure", id);
    Shape(log, calls, Ended(e, id), Closing(w, e, 3, "cleanup_retry_success", "cleanup_retry_failure", id));
  }

  /** When control leaves and the task did not end as cancelled, the outcome of the only `destroy` call that ended is
      recorded right behind it and the file closed; only a failed write, the last one made, can leave the record out. */
  lemma OutcomeIsRecorded(w: World) returns (before: seq<Action>, failure: Option<Exc>)
    requires var (s, exit) := Managed(w); exit.Left? && SandboxGiven(w, s) && !TaskStopped(w, s)
    ensures EndsRecorded(w, Managed(w).0, before, IdOf(w.create).value, failure) && NoEnd(before)
  {
    var k := EndingEvent(w);
    if w.create.Created? {
      before, failure := CreatedRecorded(w, k, w.create.id);
    } else {
      before, failure := PartialRecorded(w, k, w.create.id);
    }
  }

  // ----- the finalization of a runtime template

  predicate WaitEnds(e: Wait) {
    e.Cancelling? || e.Finalized? || e.StoppedReturning?
  }

  predicate EnteredBefore(waits: seq<Wait>, entered: bool, k: nat)
    requires k <= |waits|
  {
    entered || exists j :: 0 <= j < k && waits[j].Entered?
  }

  function CancelledBefore(waits: seq<Wait>, k: nat): seq<Exc>
    requires k <= |waits|
  {
    if k == 0 then [] else
      CancelledBefore(waits, k - 1) + if waits[k - 1].Cancelled? then [waits[k - 1].cancellation] else []
  }

  /** How the finalizing task ends by this event. */
  ghost predicate FinalizedBy(f: Finalizing, e: Wait, entered: bool) {
    match e
    case Finalized(failure) => f.call == Some(failure) && f.result == Some(Returned(failure))
    case StoppedReturning(failure, c) => f.call == Some(failure) && f.result == Some(Stopped(c))
    case Cancelling(c) =>
      if entered then f.call == Some(Some(c)) && f.result == Some(Returned(Some(c))) else f.call.None? && f.result == Some(Stopped(c))
    case _ => f.call.None? && f.result.None?
  }

  lemma {:induction false} WaitsSoFar(waits: seq<Wait>, n: nat)
    requires n <= |waits| && forall j :: 0 <= j < n ==> !WaitEnds(waits[j])
    ensures Finalize(waits, NOT_ENTERED) ==
            Finalize(waits[n..], Finalizing(EnteredBefore(waits, false, n), None, None, CancelledBefore(waits, n)))
    decreases n
  {
    if n == 0 {
      assert waits[0..] == waits;
    } else {
      WaitsSoFar(waits, n - 1);
      var f := Finalizing(EnteredBefore(waits, false, n - 1), None, None, CancelledBefore(waits, n - 1));
      var rest := waits[n - 1..];
      assert rest[0] == waits[n - 1] && rest[1..] == waits[n..];
      assert CancelledBefore(waits, n - 1) + [] == CancelledBefore(waits, n - 1);
      assert FinalizeStep(f, waits[n - 1]) ==
             Finalizing(EnteredBefore(waits, false, n), None, None, CancelledBefore(waits, n));
    }
  }

  /** The finalization is what the first event that ends its task says, with the caller's cancellations until then. */
  lemma FinalizedAt(waits: seq<Wait>, k: nat)
    requires k < |waits| && WaitEnds(waits[k]) && forall j :: 0 <= j < k ==> !WaitEnds(waits[j])
    ensures var f := Finalize(waits, NOT_ENTERED);
            FinalizedBy(f, waits[k], EnteredBefore(waits, false, k)) && f.cancellations == CancelledBefore(waits, k)
  {
    WaitsSoFar(waits, k);
    var f := Finalizing(EnteredBefore(waits, false, k), None, None, CancelledBefore(waits, k));
    var rest := waits[k..];
    assert rest[0] == waits[k];
    assert Finalize(rest[1..], FinalizeStep(f, waits[k])) == FinalizeStep(f, waits[k]);
  }

  /** Without such an event the caller is still waiting. */
  lemma NotFinalized(waits: seq<Wait>)
    requires forall j :: 0 <= j < |waits| ==> !WaitEnds(waits[j])
    ensures Finalize(waits, NOT_ENTERED).result.None?
  {
    WaitsSoFar(waits, |waits|);
  }
}
