/** The sandbox lifecycle under an environment that may fail every audit write and every
    provider call, and cancel the caller at every wait. */
module Lifecycle {
  import opened Basics

  /** An exception, by identity. */
  type Exc = int

  datatype Create =
    | Created(id: string)
    | CreateFailed(failure: Exc)
    | CreatedPartially(failure: Exc, id: string, cleanupFailure: Exc)

  datatype Body = BodyReturned | BodyFailed(failure: Exc, hasEvidence: bool)

  /** What happens while the caller waits for the cleanup task. `TaskCancelled` is a cancellation requested of the task
      itself: before its first step it ends the task, whose body is never entered; later the task swallows it and calls
      `destroy` again. `CancelledReturning` is one requested in the very step in which the last `destroy` call ends: the
      task then ends as cancelled although the call has ended. An ending event without a `FirstStep` before it is the
      task's first step as well. */
  datatype CleanupEvent =
    | CallerCancelled(cancellation: Exc)
    | FirstStep
    | TaskCancelled(cancellation: Exc)
    | DestroyFailed(failure: Exc)
    | Destroyed
    | CancelledReturning(outcome: Option<Exc>, cancellation: Exc)

  /** What the task's `result()` gives: the value returned, or the cancellation it raises. */
  datatype TaskResult = Returned(failure: Option<Exc>) | Stopped(cancellation: Exc)

  /** Everything the environment decides. `prior` gives the cause an exception already has. */
  datatype World = World(
    auditWrite: nat -> Option<Exc>,
    auditClose: Option<Exc>,
    create: Create,
    body: Body,
    cleanup: seq<CleanupEvent>,
    prior: Exc -> Option<Exc>)

  datatype Action =
    | Wrote(event: string, id: string)
    | CreateCalled
    | BodyRan(id: string)
    | DestroyCalled(id: string)
    | DestroyEnded(id: string, failure: Option<Exc>)
    | Closed

  datatype Raised =
    | Primary(failure: Exc, causes: seq<Exc>)
    | CleanupError(id: string, destroy: Exc, body: Option<Exc>, create: Option<Exc>, initialCleanup: Option<Exc>,
                   audit: seq<Exc>, cancellations: seq<Exc>)
    | TaskCancellation(cancellation: Exc)

  /** `Waiting`: the cleanup task has not ended yet, so control has not left. */
  datatype Exit = Waiting | Left(raised: Option<Raised>)

  datatype Failures = Failures(body: Option<Exc>, destroy: Option<Exc>, audit: seq<Exc>, cancellations: seq<Exc>)

  datatype Session = Session(failures: Failures, writes: nat, log: seq<Action>)

  const NO_FAILURES := Failures(None, None, [], [])

  // ----- the steps

  function RecordEvent(s: Session, w: World, event: string, id: string): Session {
    match w.auditWrite(s.writes)
    case Some(failure) => s.(writes := s.writes + 1, failures := s.failures.(audit := s.failures.audit + [failure]))
    case None => s.(writes := s.writes + 1, log := s.log + [Wrote(event, id)])
  }

  function CloseArtifact(s: Session, w: World): Session {
    var t := s.(log := s.log + [Closed]);
    match w.auditClose
    case Some(failure) => t.(failures := s.failures.(audit := s.failures.audit + [failure]))
    case None => t
  }

  function Log(s: Session, a: Action): Session {
    s.(log := s.log + [a])
  }

  function Begin(s: Session, id: string, begun: bool): Session {
    if begun then s else Log(s, DestroyCalled(id))
  }

  /** The cleanup task, which has taken its first step or not, and the caller's wait for it. None: still waiting. */
  function Drain(events: seq<CleanupEvent>, s: Session, id: string, begun: bool): (Session, Option<TaskResult>)
  {
    if events == [] then (s, None) else
    match events[0]
    case CallerCancelled(c) =>
      Drain(events[1..], s.(failures := s.failures.(cancellations := s.failures.cancellations + [c])), id, begun)
    case FirstStep => Drain(events[1..], Begin(s, id, begun), id, true)
    case TaskCancelled(c) =>
      if begun then Drain(events[1..], Log(s, DestroyCalled(id)), id, true) else (s, Some(Stopped(c)))
    case DestroyFailed(failure) =>
      (Log(Begin(s, id, begun), DestroyEnded(id, Some(failure))), Some(Returned(Some(failure))))
    case Destroyed => (Log(Begin(s, id, begun), DestroyEnded(id, None)), Some(Returned(None)))
    case CancelledReturning(outcome, c) => (Log(Begin(s, id, begun), DestroyEnded(id, outcome)), Some(Stopped(c)))
  }

  function RaisePrimary(w: World, failure: Exc, secondary: seq<Exc>): Raised {
    match w.prior(failure)
    case Some(cause) => Primary(failure, if cause in secondary then secondary else [cause] + secondary)
    case None => Primary(failure, secondary)
  }

  function RaiseOutcome(w: World, f: Failures, id: string): Option<Raised> {
    if f.destroy.Some? then
      Some(CleanupError(id, f.destroy.value, f.body, None, None, f.audit, f.cancellations))
    else if f.body.Some? then Some(RaisePrimary(w, f.body.value, f.audit + f.cancellations))
    else if f.cancellations != [] then Some(RaisePrimary(w, f.cancellations[0], f.audit + f.cancellations[1..]))
    else if f.audit != [] then Some(RaisePrimary(w, f.audit[0], f.audit[1..]))
    else None
  }

  function RetryPartialCreate(w: World, s: Session): (Session, Exit)
    requires w.create.CreatedPartially?
  {
    var id := w.create.id;
    var s1 := RecordEvent(RecordEvent(s, w, "create_cleanup_unsafe", id), w, "cleanup_retry_attempt", id);
    var (s2, done) := Drain(w.cleanup, s1, id, false);
    match done
    case None => (s2, Waiting)
    case Some(Stopped(c)) => (s2, Left(Some(TaskCancellation(c))))
    case Some(Returned(None)) =>
      var s3 := CloseArtifact(RecordEvent(s2, w, "cleanup_retry_success", id), w);
      (s3, Left(Some(RaisePrimary(w, w.create.failure, s3.failures.audit + s3.failures.cancellations))))
    case Some(Returned(Some(retry))) =>
      var s3 := CloseArtifact(RecordEvent(s2, w, "cleanup_retry_failure", id), w);
      (s3, Left(Some(CleanupError(id, retry, None, Some(w.create.failure), Some(w.create.cleanupFailure),
                                  s3.failures.audit, s3.failures.cancellations))))
  }

  function RunBody(w: World, s: Session, id: string): Session {
    if s.failures.audit != [] then s else
      var t := Log(s, BodyRan(id));
      match w.body
      case BodyReturned => t
      case BodyFailed(failure, hasEvidence) =>
        var u := t.(failures := t.failures.(body := Some(failure)));
        if hasEvidence then RecordEvent(u, w, "provider_failure", id) else u
  }

  function DestroySandbox(w: World, s: Session, id: string): (Session, Exit) {
    var s1 := RecordEvent(s, w, "destroy_attempt", id);
    var (s2, done) := Drain(w.cleanup, s1, id, false);
    match done
    case None => (s2, Waiting)
    case Some(Stopped(c)) => (s2, Left(Some(TaskCancellation(c))))
    case Some(Returned(failure)) =>
      var s3 := s2.(failures := s2.failures.(destroy := failure));
      var s4 := CloseArtifact(RecordEvent(s3, w, if failure.None? then "destroy_success" else "destroy_failure", id), w);
      (s4, Left(RaiseOutcome(w, s4.failures, id)))
  }

  /** `managed_sandbox`, from the opening of the audit file on. */
  function Managed(w: World): (Session, Exit) {
    var s := RecordEvent(Session(NO_FAILURES, 0, []), w, "create_attempt", "");
    if s.failures.audit != [] then
      var t := CloseArtifact(s, w);
      (t, Left(RaiseOutcome(w, t.failures, "")))
    else
      var called := Log(s, CreateCalled);
      match w.create
      case CreatedPartially(_, _, _) => RetryPartialCreate(w, called)
      case CreateFailed(failure) =>
        var t := CloseArtifact(RecordEvent(called, w, "create_failure", ""), w);
        (t, Left(Some(RaisePrimary(w, failure, t.failures.audit))))
      case Created(id) =>
        var outcome := RecordEvent(called.(failures := NO_FAILURES), w, "create_success", id);
        DestroySandbox(w, RunBody(w, outcome, id), id)
  }

  // ----- nothing is lost

  function Optional(e: Option<Exc>): multiset<Exc> {
    if e.Some? then multiset{e.value} else multiset{}
  }

  function AllOf(f: Failures): multiset<Exc> {
    Optional(f.body) + Optional(f.destroy) + multiset(f.audit) + multiset(f.cancellations)
  }

  function CarriedBy(r: Raised): multiset<Exc> {
    match r
    case Primary(failure, causes) => multiset{failure} + multiset(causes)
    case CleanupError(_, destroy, body, create, initial, audit, cancellations) =>
      multiset{destroy} + Optional(body) + Optional(create) + Optional(initial) + multiset(audit) + multiset(cancellations)
    case TaskCancellation(cancellation) => multiset{cancellation}
  }

  /** The cause an exception came with, unless it is among the other failures anyway. */
  function PriorOf(w: World, r: Raised, known: multiset<Exc>): multiset<Exc> {
    if r.Primary? && w.prior(r.failure).Some? && w.prior(r.failure).value !in known - multiset{r.failure}
    then multiset{w.prior(r.failure).value} else multiset{}
  }

  lemma OneMore(e: Exc, s: seq<Exc>)
    ensures multiset([e] + s) == multiset{e} + multiset(s)
  {
  }

  lemma HeadAndTail(s: seq<Exc>)
    requires s != []
    ensures multiset(s) == multiset{s[0]} + multiset(s[1..])
  {
    assert s == [s[0]] + s[1..];
  }

  lemma RaisePrimaryCarries(w: World, failure: Exc, secondary: seq<Exc>, known: multiset<Exc>)
    requires known == multiset{failure} + multiset(secondary)
    ensures var r := RaisePrimary(w, failure, secondary);
            CarriedBy(r) == known + PriorOf(w, r, known)
  {
    OthersKnown(failure, secondary, known);
    if w.prior(failure).Some? && w.prior(failure).value !in secondary {
      OneMore(w.prior(failure).value, secondary);
    }
  }

  lemma OthersKnown(failure: Exc, secondary: seq<Exc>, known: multiset<Exc>)
    requires known == multiset{failure} + multiset(secondary)
    ensures known - multiset{failure} == multiset(secondary)
    ensures forall e :: e in known - multiset{failure} <==> e in secondary
  {
  }

  /** What is raised carries exactly the failures recorded, besides the cause its own primary came with. */
  lemma RaiseOutcomeCarries(w: World, f: Failures, id: string)
    ensures RaiseOutcome(w, f, id).None? <==> AllOf(f) == multiset{}
    ensures var r := RaiseOutcome(w, f, id);
            r.Some? ==> CarriedBy(r.value) == AllOf(f) + PriorOf(w, r.value, AllOf(f))
  {
    NothingFailed(f);
    if f.destroy.Some? {
      CleanupCarries(w, f, id);
    } else {
      OthersCarry(w, f, id);
    }
  }

  lemma CleanupCarries(w: World, f: Failures, id: string)
    requires f.destroy.Some?
    ensures var r := CleanupError(id, f.destroy.value, f.body, None, None, f.audit, f.cancellations);
            CarriedBy(r) == AllOf(f) + PriorOf(w, r, AllOf(f))
  {
  }

  lemma OthersCarry(w: World, f: Failures, id: string)
    requires f.destroy.None?
    ensures var r := RaiseOutcome(w, f, id);
            r.Some? ==> CarriedBy(r.value) == AllOf(f) + PriorOf(w, r.value, AllOf(f))
  {
    if f.body.Some? {
      KnownBody(f);
      RaisePrimaryCarries(w, f.body.value, f.audit + f.cancellations, AllOf(f));
    } else if f.cancellations != [] {
      KnownCancellation(f);
      RaisePrimaryCarries(w, f.cancellations[0], f.audit + f.cancellations[1..], AllOf(f));
    } else if f.audit != [] {
      KnownAudit(f);
      RaisePrimaryCarries(w, f.audit[0], f.audit[1..], AllOf(f));
    }
  }

  lemma KnownAudit(f: Failures)
    requires f.destroy.None? && f.body.None? && f.cancellations == [] && f.audit != []
    ensures AllOf(f) == multiset{f.audit[0]} + multiset(f.audit[1..])
  {
    HeadAndTail(f.audit);
  }

  lemma NothingFailed(f: Failures)
    ensures AllOf(f) == multiset{} <==> f == NO_FAILURES
  {
    assert |AllOf(f)| == |Optional(f.body)| + |Optional(f.destroy)| + |f.audit| + |f.cancellations|;
  }

  lemma KnownBody(f: Failures)
    requires f.destroy.None? && f.body.Some?
    ensures AllOf(f) == multiset{f.body.value} + multiset(f.audit + f.cancellations)
  {
  }

  lemma KnownCancellation(f: Failures)
    requires f.destroy.None? && f.body.None? && f.cancellations != []
    ensures AllOf(f) == multiset{f.cancellations[0]} + multiset(f.audit + f.cancellations[1..])
  {
    HeadAndTail(f.cancellations);
  }

  // ----- what the environment did, read off the world and the log

  function AuditFailures(w: World, writes: nat): multiset<Exc> {
    if writes == 0 then multiset{} else AuditFailures(w, writes - 1) + Optional(w.auditWrite(writes - 1))
  }

  /** The event ends the task. */
  predicate Ends(e: CleanupEvent, begun: bool) {
    e.Destroyed? || e.DestroyFailed? || e.CancelledReturning? || (e.TaskCancelled? && !begun)
  }

  /** The cancellations that reach the caller before the task ends. */
  function Cancellations(events: seq<CleanupEvent>, begun: bool): seq<Exc> {
    if events == [] || Ends(events[0], begun) then []
    else if events[0].CallerCancelled? then [events[0].cancellation] + Cancellations(events[1..], begun)
    else Cancellations(events[1..], begun || events[0].FirstStep?)
  }

  function ResultOf(e: CleanupEvent): TaskResult
    requires !e.CallerCancelled? && !e.FirstStep?
  {
    match e
    case Destroyed => Returned(None)
    case DestroyFailed(failure) => Returned(Some(failure))
    case CancelledReturning(_, c) => Stopped(c)
    case TaskCancelled(c) => Stopped(c)
  }

  /** How the task ends: None if it does not. */
  function TaskEnd(events: seq<CleanupEvent>, begun: bool): Option<TaskResult> {
    if events == [] then None
    else if Ends(events[0], begun) then Some(ResultOf(events[0]))
    else TaskEnd(events[1..], begun || events[0].FirstStep?)
  }

  /** The task gets its first step: it is not cancelled before. */
  predicate Begins(events: seq<CleanupEvent>) {
    events != [] && if events[0].CallerCancelled? then Begins(events[1..]) else !events[0].TaskCancelled?
  }

  /** The failure of a `destroy` call that ended in the step in which its task was cancelled. */
  function Overtaken(events: seq<CleanupEvent>, begun: bool): Option<Exc> {
    if events == [] then None
    else if Ends(events[0], begun) then (if events[0].CancelledReturning? then events[0].outcome else None)
    else Overtaken(events[1..], begun || events[0].FirstStep?)
  }

  function ResultFailure(r: TaskResult): multiset<Exc> {
    match r
    case Returned(failure) => Optional(failure)
    case Stopped(c) => multiset{c}
  }

  function CleanupHappened(w: World): multiset<Exc> {
    multiset(Cancellations(w.cleanup, false))
    + (if TaskEnd(w.cleanup, false).Some? then ResultFailure(TaskEnd(w.cleanup, false).value) else multiset{})
    + Optional(Overtaken(w.cleanup, false))
  }

  /** The identifier `create` hands over, if any. */
  function IdOf(c: Create): Option<string> {
    if c.CreateFailed? then None else Some(c.id)
  }

  function CreateHappened(w: World): multiset<Exc> {
    match w.create
    case Created(_) => multiset{}
    case CreateFailed(failure) => multiset{failure}
    case CreatedPartially(failure, _, initial) =>
      // A failed retry names the first cleanup failure itself; otherwise it stays attached to the create failure.
      multiset{failure} +
      match TaskEnd(w.cleanup, false) {
        case Some(Returned(Some(_))) => multiset{initial}
        case _ => multiset{}
      }
  }

  predicate DestroyFinished(s: Session) {
    exists i :: 0 <= i < |s.log| && s.log[i].DestroyEnded?
  }

  predicate BodyStarted(s: Session) {
    exists i :: 0 <= i < |s.log| && s.log[i].BodyRan?
  }

  /** Every exception the environment raised in the course of the session. */
  function Happened(w: World, s: Session): multiset<Exc> {
    AuditFailures(w, s.writes)
    + (if Closed in s.log then Optional(w.auditClose) else multiset{})
    + (if CreateCalled in s.log then CreateHappened(w) else multiset{})
    + (if BodyStarted(s) && w.body.BodyFailed? then multiset{w.body.failure} else multiset{})
    + (if CreateCalled in s.log && IdOf(w.create).Some? then CleanupHappened(w) else multiset{})
  }

  // ----- the steps, seen from outside

  /** What the log gained is calls of `destroy` and ends of such calls. */
  ghost predicate OnlyDestroys(log: seq<Action>, more: seq<Action>, id: string) {
    && log <= more
    && forall i :: |log| <= i < |more| ==>
         more[i] == DestroyCalled(id) || (more[i].DestroyEnded? && more[i].id == id)
  }

  /** The gain has the end of a call in it. */
  ghost predicate GainsEnd(log: seq<Action>, more: seq<Action>) {
    exists i :: |log| <= i < |more| && more[i].DestroyEnded?
  }

  lemma GainMore(a: seq<Action>, b: seq<Action>, c: seq<Action>, id: string)
    requires a <= b && (forall i :: |a| <= i < |b| ==> b[i] == DestroyCalled(id)) && OnlyDestroys(b, c, id)
    ensures OnlyDestroys(a, c, id) && (GainsEnd(a, c) <==> GainsEnd(b, c))
  {
    forall i | |a| <= i < |b| ensures c[i] == b[i] {}
    assert a <= c;
  }

  lemma EndGained(s: Session, id: string, begun: bool, outcome: Option<Exc>)
    ensures var t := Log(Begin(s, id, begun), DestroyEnded(id, outcome));
            && t.failures == s.failures && t.writes == s.writes && OnlyDestroys(s.log, t.log, id)
            && GainsEnd(s.log, t.log) && t.log[|t.log| - 1] == DestroyEnded(id, outcome)
  {
    var t := Log(Begin(s, id, begun), DestroyEnded(id, outcome));
    assert t.log[|t.log| - 1].DestroyEnded?;
  }

  lemma {:induction false} DrainExact(events: seq<CleanupEvent>, s: Session, id: string, begun: bool)
    ensures var (t, done) := Drain(events, s, id, begun);
            && done == TaskEnd(events, begun)
            && t.failures == s.failures.(cancellations := s.failures.cancellations + Cancellations(events, begun))
            && t.writes == s.writes && OnlyDestroys(s.log, t.log, id)
            && (done.Some? ==> (GainsEnd(s.log, t.log) <==> begun || Begins(events)))
            && (done.Some? && done.value.Returned? ==> |t.log| > |s.log| && t.log[|t.log| - 1] == DestroyEnded(id, done.value.failure))
    decreases events, 1
  {
    if events != [] {
      match events[0]
      case CallerCancelled(c) =>
        DrainExact(events[1..], s.(failures := s.failures.(cancellations := s.failures.cancellations + [c])), id, begun);
        assert s.failures.cancellations + [c] + Cancellations(events[1..], begun) ==
               s.failures.cancellations + ([c] + Cancellations(events[1..], begun));
      case FirstStep => DrainOn(events, s, Begin(s, id, begun), id, begun);
      case TaskCancelled(_) =>
        if begun { DrainOn(events, s, Log(s, DestroyCalled(id)), id, begun); } else { NothingMore(s); }
      case DestroyFailed(failure) => EndGained(s, id, begun, Some(failure)); NothingMore(s);
      case Destroyed => EndGained(s, id, begun, None); NothingMore(s);
      case CancelledReturning(outcome, _) => EndGained(s, id, begun, outcome); NothingMore(s);
    } else {
      NothingMore(s);
    }
  }

  lemma NothingMore(s: Session)
    ensures s.failures == s.failures.(cancellations := s.failures.cancellations + [])
    ensures !GainsEnd(s.log, s.log)
  {
    assert s.failures.cancellations + [] == s.failures.cancellations;
  }

  /** The task goes on after an event, its `destroy` call begun. */
  lemma {:induction false} DrainOn(events: seq<CleanupEvent>, s: Session, u: Session, id: string, begun: bool)
    requires events != [] && (events[0].FirstStep? || (events[0].TaskCancelled? && begun))
    requires u.failures == s.failures && u.writes == s.writes
    requires s.log <= u.log && forall i :: |s.log| <= i < |u.log| ==> u.log[i] == DestroyCalled(id)
    ensures var (t, done) := Drain(events[1..], u, id, true);
            && done == TaskEnd(events, begun)
            && t.failures == s.failures.(cancellations := s.failures.cancellations + Cancellations(events, begun))
            && t.writes == s.writes && OnlyDestroys(s.log, t.log, id)
            && (done.Some? ==> GainsEnd(s.log, t.log))
            && (done.Some? && done.value.Returned? ==> |t.log| > |s.log| && t.log[|t.log| - 1] == DestroyEnded(id, done.value.failure))
    decreases events, 0
  {
    DrainExact(events[1..], u, id, true);
    var (t, done) := Drain(events[1..], u, id, true);
    GainMore(s.log, u.log, t.log, id);
  }

  /** The audit failures recorded are those of the writes made and of the close. */
  ghost predicate AuditKept(w: World, s: Session) {
    multiset(s.failures.audit) ==
      AuditFailures(w, s.writes) + if Closed in s.log then Optional(w.auditClose) else multiset{}
  }

  lemma OneMoreWrite(w: World, n: nat)
    ensures AuditFailures(w, n + 1) == AuditFailures(w, n) + Optional(w.auditWrite(n))
  {
  }

  lemma OneMoreFailure(audit: seq<Exc>, e: Exc)
    ensures multiset(audit + [e]) == multiset(audit) + multiset{e}
  {
  }

  lemma AuditAfter(s: Session, w: World, event: string, id: string)
    ensures var t := RecordEvent(s, w, event, id);
            && multiset(t.failures.audit) == multiset(s.failures.audit) + Optional(w.auditWrite(s.writes))
            && t.writes == s.writes + 1 && (Closed in t.log <==> Closed in s.log)
  {
    var failure := w.auditWrite(s.writes);
    if failure.Some? { OneMoreFailure(s.failures.audit, failure.value); }
  }

  lemma Swapped(a: multiset<Exc>, b: multiset<Exc>, c: multiset<Exc>)
    ensures (a + b) + c == (a + c) + b
  {
  }

  lemma RecordedAudit(s: Session, w: World, event: string, id: string)
    requires AuditKept(w, s)
    ensures AuditKept(w, RecordEvent(s, w, event, id))
  {
    OneMoreWrite(w, s.writes);
    AuditAfter(s, w, event, id);
    Swapped(AuditFailures(w, s.writes), if Closed in s.log then Optional(w.auditClose) else multiset{},
            Optional(w.auditWrite(s.writes)));
  }

  lemma RecordKeeps(s: Session, w: World, event: string, id: string)
    requires AuditKept(w, s)
    ensures var t := RecordEvent(s, w, event, id);
            && AuditKept(w, t) && s.log <= t.log
            && t.failures == s.failures.(audit := t.failures.audit)
            && t.writes == s.writes + 1
            && (t.log == s.log || t.log == s.log + [Wrote(event, id)])
            && (t.failures.audit == s.failures.audit ==> t.log == s.log + [Wrote(event, id)])
            && (s.failures.audit != [] ==> t.failures.audit != [])
  {
    RecordedAudit(s, w, event, id);
  }

  lemma CloseKeeps(s: Session, w: World)
    requires AuditKept(w, s) && Closed !in s.log
    ensures var t := CloseArtifact(s, w);
            AuditKept(w, t) && t.log == s.log + [Closed] && t.writes == s.writes
            && t.failures == s.failures.(audit := t.failures.audit)
  {
  }

  // ----- how far a session has come

  predicate At(s: Session, created: bool, body: bool, ended: bool, closed: bool) {
    && (CreateCalled in s.log <==> created)
    && (BodyStarted(s) <==> body)
    && (DestroyFinished(s) <==> ended)
    && (Closed in s.log <==> closed)
  }

  lemma AtAppend(s: Session, t: Session, a: Action, created: bool, body: bool, ended: bool, closed: bool)
    requires At(s, created, body, ended, closed) && t.log == s.log + [a]
    ensures At(t, created || a.CreateCalled?, body || a.BodyRan?, ended || a.DestroyEnded?, closed || a.Closed?)
  {
    if body { var i :| 0 <= i < |s.log| && s.log[i].BodyRan?; assert t.log[i] == s.log[i]; }
    if ended { var i :| 0 <= i < |s.log| && s.log[i].DestroyEnded?; assert t.log[i] == s.log[i]; }
    assert t.log[|s.log|] == a;
  }

  lemma AtRecord(s: Session, w: World, event: string, id: string, created: bool, body: bool, ended: bool, closed: bool)
    requires At(s, created, body, ended, closed) && AuditKept(w, s)
    ensures At(RecordEvent(s, w, event, id), created, body, ended, closed)
  {
    RecordKeeps(s, w, event, id);
    var t := RecordEvent(s, w, event, id);
    if t.log != s.log { AtAppend(s, t, Wrote(event, id), created, body, ended, closed); }
  }

  lemma AtMore(s: Session, t: Session, body: bool, id: string)
    requires At(s, true, body, false, false) && OnlyDestroys(s.log, t.log, id)
    ensures At(t, true, body, GainsEnd(s.log, t.log), false)
  {
    if body { var i :| 0 <= i < |s.log| && s.log[i].BodyRan?; assert t.log[i] == s.log[i]; }
    assert CreateCalled in t.log by { var j :| 0 <= j < |s.log| && s.log[j] == CreateCalled; assert t.log[j] == s.log[j]; }
    forall k | 0 <= k < |t.log|
      ensures t.log[k] != Closed && (t.log[k].BodyRan? ==> body) && (t.log[k].DestroyEnded? ==> |s.log| <= k)
    {
      if k < |s.log| { assert t.log[k] == s.log[k]; }
    }
  }

  // ----- destroying

  /** The session as the destroy phase finds it. */
  ghost predicate BodyDone(w: World, s: Session) {
    && AuditKept(w, s)
    && At(s, true, BodyStarted(s), false, false)
    && s.failures.destroy.None? && s.failures.cancellations == []
    && s.failures.body == (if BodyStarted(s) && w.body.BodyFailed? then Some(w.body.failure) else None)
  }

  /** The end of a `destroy` call for this sandbox is in the log. */
  ghost predicate EndIn(log: seq<Action>, id: string) {
    exists failure :: DestroyEnded(id, failure) in log
  }

  lemma GainIs(log: seq<Action>, more: seq<Action>, id: string)
    requires OnlyDestroys(log, more, id) && GainsEnd(log, more)
    ensures EndIn(more, id)
  {
    var i :| |log| <= i < |more| && more[i].DestroyEnded?;
    assert more[i] == DestroyEnded(id, more[i].failure);
  }

  lemma EndInMore(a: seq<Action>, b: seq<Action>, id: string)
    requires a <= b && EndIn(a, id)
    ensures EndIn(b, id)
  {
    var failure :| DestroyEnded(id, failure) in a;
    var i :| 0 <= i < |a| && a[i] == DestroyEnded(id, failure);
    assert b[i] == a[i];
  }

  /** How far the cleanup got: its call has ended iff the task got its first step. */
  ghost predicate CleanupSeen(w: World, s: Session, id: string) {
    && (Begins(w.cleanup) ==> EndIn(s.log, id))
    && (DestroyFinished(s) ==> Begins(w.cleanup))
  }

  /** What a drained session is. */
  ghost predicate Drained(w: World, s: Session, t: Session, done: Option<TaskResult>, id: string, body: bool) {
    && done == TaskEnd(w.cleanup, false)
    && AuditKept(w, t) && At(t, true, body, DestroyFinished(t), false) && s.log <= t.log
    && t.failures == s.failures.(cancellations := Cancellations(w.cleanup, false)) && t.writes == s.writes
    && (done.Some? ==> CleanupSeen(w, t, id))
    && (done.Some? && done.value.Returned? ==> DestroyFinished(t))
  }

  lemma DrainKeeps(w: World, s: Session, id: string, body: bool)
    requires AuditKept(w, s) && At(s, true, body, false, false) && s.failures.cancellations == []
    ensures var (t, done) := Drain(w.cleanup, s, id, false); Drained(w, s, t, done, id, body)
  {
    DrainExact(w.cleanup, s, id, false);
    var (t, done) := Drain(w.cleanup, s, id, false);
    AtMore(s, t, body, id);
    assert [] + Cancellations(w.cleanup, false) == Cancellations(w.cleanup, false);
    if GainsEnd(s.log, t.log) { GainIs(s.log, t.log, id); }
    if done.Some? && done.value.Returned? { assert t.log[|t.log| - 1].DestroyEnded?; }
  }

  lemma DestroyDrained(w: World, s: Session, id: string)
    requires BodyDone(w, s)
    ensures var s1 := RecordEvent(s, w, "destroy_attempt", id);
            var (t, done) := Drain(w.cleanup, s1, id, false);
            && Drained(w, s1, t, done, id, BodyStarted(s)) && s.log <= t.log
            && t.failures.body == s.failures.body && t.failures.destroy.None?
  {
    RecordKeeps(s, w, "destroy_attempt", id);
    AtRecord(s, w, "destroy_attempt", id, true, BodyStarted(s), false, false);
    DrainKeeps(w, RecordEvent(s, w, "destroy_attempt", id), id, BodyStarted(s));
  }

  lemma {:induction false} ReturnedOvertakesNothing(events: seq<CleanupEvent>, begun: bool)
    requires TaskEnd(events, begun).Some? && TaskEnd(events, begun).value.Returned?
    ensures Overtaken(events, begun).None?
  {
    if !Ends(events[0], begun) { ReturnedOvertakesNothing(events[1..], begun || events[0].FirstStep?); }
  }

  lemma CleanupReturned(w: World, failure: Option<Exc>)
    requires TaskEnd(w.cleanup, false) == Some(Returned(failure))
    ensures CleanupHappened(w) == multiset(Cancellations(w.cleanup, false)) + Optional(failure)
  {
    ReturnedOvertakesNothing(w.cleanup, false);
  }

  /** How a destroy phase that ended did end. */
  ghost predicate PhaseEnded(w: World, t: Session, exit: Exit, id: string) {
    match TaskEnd(w.cleanup, false)
    case None => exit.Waiting?
    case Some(Returned(_)) =>
      exit == Left(RaiseOutcome(w, t.failures, id)) && AllOf(t.failures) == Happened(w, t) && Closed in t.log
    case Some(Stopped(c)) =>
      exit == Left(Some(TaskCancellation(c))) && c in Happened(w, t) && Closed !in t.log
  }

  lemma StoppedHappened(w: World, t: Session, c: Exc)
    requires CreateCalled in t.log && IdOf(w.create).Some? && TaskEnd(w.cleanup, false) == Some(Stopped(c))
    ensures c in Happened(w, t)
  {
    assert c in CleanupHappened(w);
  }

  /** After the destroy phase, what was recorded is what happened, unless the task was cancelled. */
  lemma DestroyAccounts(w: World, s: Session, id: string)
    requires BodyDone(w, s) && w.create.Created?
    ensures var (t, exit) := DestroySandbox(w, s, id);
            && s.log <= t.log
            && (BodyStarted(t) <==> BodyStarted(s))
            && PhaseEnded(w, t, exit, id)
            && (exit.Left? ==> CleanupSeen(w, t, id))
  {
    DestroyDrained(w, s, id);
    var (s2, done) := Drain(w.cleanup, RecordEvent(s, w, "destroy_attempt", id), id, false);
    if done.Some? {
      match done.value
      case Stopped(c) => StoppedHappened(w, s2, c);
      case Returned(failure) =>
        var s3 := s2.(failures := s2.failures.(destroy := failure));
        var event := if failure.None? then "destroy_success" else "destroy_failure";
        FinishAccounts(w, s3, event, id, BodyStarted(s), failure);
    }
  }

  lemma FinishedHappened(w: World, t: Session, body: bool, failure: Option<Exc>)
    requires At(t, true, body, true, true) && w.create.Created? && TaskEnd(w.cleanup, false) == Some(Returned(failure))
    ensures Happened(w, t) ==
              AuditFailures(w, t.writes) + Optional(w.auditClose) + multiset{}
              + (if body && w.body.BodyFailed? then multiset{w.body.failure} else multiset{})
              + (multiset(Cancellations(w.cleanup, false)) + Optional(failure))
  {
    CleanupReturned(w, failure);
  }

  lemma FinishAccounts(w: World, s: Session, event: string, id: string, body: bool, failure: Option<Exc>)
    requires AuditKept(w, s) && At(s, true, body, true, false) && w.create.Created? && CleanupSeen(w, s, id)
    requires TaskEnd(w.cleanup, false) == Some(Returned(failure))
    requires s.failures.destroy == failure && s.failures.cancellations == Cancellations(w.cleanup, false)
    requires s.failures.body == if body && w.body.BodyFailed? then Some(w.body.failure) else None
    ensures var t := CloseArtifact(RecordEvent(s, w, event, id), w);
            s.log <= t.log && BodyStarted(t) == body && AllOf(t.failures) == Happened(w, t) && Closed in t.log
            && CleanupSeen(w, t, id)
  {
    Finished(w, s, event, id, body);
    FinishedAccounts(w, CloseArtifact(RecordEvent(s, w, event, id), w), body, failure);
  }

  lemma FinishedAccounts(w: World, t: Session, body: bool, failure: Option<Exc>)
    requires AuditKept(w, t) && At(t, true, body, true, true) && w.create.Created?
    requires TaskEnd(w.cleanup, false) == Some(Returned(failure))
    requires t.failures.destroy == failure && t.failures.cancellations == Cancellations(w.cleanup, false)
    requires t.failures.body == if body && w.body.BodyFailed? then Some(w.body.failure) else None
    ensures AllOf(t.failures) == Happened(w, t)
  {
    FinishedHappened(w, t, body, failure);
    Recount(multiset(t.failures.audit), Optional(t.failures.body), Optional(t.failures.destroy),
            multiset(t.failures.cancellations), AuditFailures(w, t.writes), Optional(w.auditClose));
  }

  /** Recording one more event and closing the file after a finished cleanup. */
  lemma Finished(w: World, s: Session, event: string, id: string, body: bool)
    requires AuditKept(w, s) && At(s, true, body, true, false) && CleanupSeen(w, s, id)
    ensures var t := CloseArtifact(RecordEvent(s, w, event, id), w);
            && AuditKept(w, t) && At(t, true, body, true, true) && s.log <= t.log
            && t.failures == s.failures.(audit := t.failures.audit) && CleanupSeen(w, t, id)
  {
    var r := RecordEvent(s, w, event, id);
    RecordKeeps(s, w, event, id);
    AtRecord(s, w, event, id, true, body, true, false);
    CloseKeeps(r, w);
    var t := CloseArtifact(r, w);
    AtAppend(r, t, Closed, true, body, true, false);
    if EndIn(s.log, id) { EndInMore(s.log, t.log, id); }
  }

  /** A multiset sum, regrouped. */
  lemma Recount(audit: multiset<Exc>, body: multiset<Exc>, destroy: multiset<Exc>, cancelled: multiset<Exc>,
                writes: multiset<Exc>, close: multiset<Exc>)
    requires audit == writes + close
    ensures body + destroy + audit + cancelled == writes + close + multiset{} + body + (cancelled + destroy)
  {
  }

  // ----- the whole session

  /** What leaves the session carries exactly what happened in it, unless it is the cancellation of the cleanup task. */
  ghost predicate Accounted(w: World, s: Session, exit: Exit) {
    match exit
    case Waiting => true
    case Left(None) => Happened(w, s) == multiset{}
    case Left(Some(r)) =>
      if r.TaskCancellation? then r.cancellation in Happened(w, s)
      else Happened(w, s) != multiset{} && CarriedBy(r) == Happened(w, s) + PriorOf(w, r, Happened(w, s))
  }

  function Attempted(w: World): Session {
    RecordEvent(Session(NO_FAILURES, 0, []), w, "create_attempt", "")
  }

  lemma AttemptedIs(w: World)
    ensures var s := Attempted(w);
            && AuditKept(w, s) && At(s, false, false, false, false) && s.writes == 1
            && s.failures == Failures(None, None, s.failures.audit, [])
            && (s.failures.audit == [] <==> w.auditWrite(0).None?)
            && (w.auditWrite(0).None? ==> s.log == [Wrote("create_attempt", "")])
  {
    var start := Session(NO_FAILURES, 0, []);
    assert AuditFailures(w, 0) == multiset{};
    RecordKeeps(start, w, "create_attempt", "");
    AtRecord(start, w, "create_attempt", "", false, false, false, false);
  }

  lemma NotCreatedIs(w: World)
    requires w.auditWrite(0).Some?
    ensures var t := CloseArtifact(Attempted(w), w); Managed(w) == (t, Left(RaiseOutcome(w, t.failures, "")))
  {
    AttemptedIs(w);
  }

  lemma NotCreatedCloses(w: World)
    requires w.auditWrite(0).Some?
    ensures var t := CloseArtifact(Attempted(w), w);
            AuditKept(w, t) && At(t, false, false, false, true) && t.failures == Failures(None, None, t.failures.audit, [])
  {
    AttemptedIs(w);
    var s := Attempted(w);
    CloseKeeps(s, w);
    AtAppend(s, CloseArtifact(s, w), Closed, false, false, false, false);
  }

  lemma NotCreatedHappened(w: World, t: Session)
    requires AuditKept(w, t) && At(t, false, false, false, true)
    ensures Happened(w, t) == multiset(t.failures.audit)
  {
  }

  lemma OnlyAudit(f: Failures)
    requires f == Failures(None, None, f.audit, [])
    ensures AllOf(f) == multiset(f.audit)
  {
  }

  lemma OutcomeAccounted(w: World, t: Session, id: string)
    requires AllOf(t.failures) == Happened(w, t)
    ensures Accounted(w, t, Left(RaiseOutcome(w, t.failures, id)))
  {
    RaiseOutcomeCarries(w, t.failures, id);
  }

  /** How a session without a sandbox ends. */
  ghost predicate NothingGiven(s: Session, exit: Exit) {
    && exit.Left? && Closed in s.log && !DestroyFinished(s)
    && (exit.raised.Some? ==> !exit.raised.value.TaskCancellation?)
  }

  lemma OutcomeKind(w: World, f: Failures, id: string)
    ensures var r := RaiseOutcome(w, f, id); r.Some? ==> !r.value.TaskCancellation?
  {
  }

  lemma NotCreated(w: World)
    requires w.auditWrite(0).Some?
    ensures var (s, exit) := Managed(w);
            Accounted(w, s, exit) && At(s, false, false, false, true) && NothingGiven(s, exit)
  {
    var t := CloseArtifact(Attempted(w), w);
    NotCreatedIs(w);
    NotCreatedCloses(w);
    NotCreatedHappened(w, t);
    OnlyAudit(t.failures);
    OutcomeAccounted(w, t, "");
    OutcomeKind(w, t.failures, "");
  }

  /** The session once `create` was called. */
  function Called(w: World): Session {
    Log(Attempted(w), CreateCalled)
  }

  lemma CalledIs(w: World)
    requires w.auditWrite(0).None?
    ensures var s := Called(w);
            && AuditKept(w, s) && At(s, true, false, false, false) && s.writes == 1
            && s.failures == NO_FAILURES
            && s.log == [Wrote("create_attempt", ""), CreateCalled]
  {
    AttemptedIs(w);
    AtAppend(Attempted(w), Called(w), CreateCalled, false, false, false, false);
  }

  lemma Failed(w: World)
    requires w.auditWrite(0).None? && w.create.CreateFailed?
    ensures var (s, exit) := Managed(w);
            Accounted(w, s, exit) && At(s, true, false, false, true) && NothingGiven(s, exit)
  {
    CalledIs(w);
    var s := Called(w);
    var r := RecordEvent(s, w, "create_failure", "");
    RecordKeeps(s, w, "create_failure", "");
    AtRecord(s, w, "create_failure", "", true, false, false, false);
    CloseKeeps(r, w);
    var t := CloseArtifact(r, w);
    AtAppend(r, t, Closed, true, false, false, false);
    RaisePrimaryCarries(w, w.create.failure, t.failures.audit, Happened(w, t));
  }

  /** The session when the cleanup of a partial creation is begun. */
  function Retrying(w: World): Session
    requires w.create.CreatedPartially?
  {
    var id := w.create.id;
    RecordEvent(RecordEvent(Called(w), w, "create_cleanup_unsafe", id), w, "cleanup_retry_attempt", id)
  }

  /** And when it has been waited for. */
  function Retried(w: World): (Session, Option<TaskResult>)
    requires w.create.CreatedPartially?
  {
    Drain(w.cleanup, Retrying(w), w.create.id, false)
  }

  lemma RetryDrained(w: World)
    requires w.auditWrite(0).None? && w.create.CreatedPartially?
    ensures var (t, done) := Retried(w); Drained(w, Retrying(w), t, done, w.create.id, false)
  {
    CalledIs(w);
    var id := w.create.id;
    var s0 := Called(w);
    var s1 := RecordEvent(s0, w, "create_cleanup_unsafe", id);
    RecordKeeps(s0, w, "create_cleanup_unsafe", id);
    AtRecord(s0, w, "create_cleanup_unsafe", id, true, false, false, false);
    RecordKeeps(s1, w, "cleanup_retry_attempt", id);
    AtRecord(s1, w, "cleanup_retry_attempt", id, true, false, false, false);
    DrainKeeps(w, Retrying(w), id, false);
  }

  lemma PartialParts(w: World, t: Session, create: multiset<Exc>, cleanup: multiset<Exc>)
    requires w.create.CreatedPartially? && At(t, true, false, true, true)
    requires create == CreateHappened(w) && cleanup == CleanupHappened(w)
    ensures Happened(w, t) == AuditFailures(w, t.writes) + Optional(w.auditClose) + create + multiset{} + cleanup
  {
  }

  lemma Gathered(audit: multiset<Exc>, writes: multiset<Exc>, close: multiset<Exc>, create: multiset<Exc>,
                 cancelled: multiset<Exc>, initial: multiset<Exc>, end: multiset<Exc>)
    requires audit == writes + close
    ensures writes + close + (create + initial) + multiset{} + (cancelled + end) ==
            create + (initial + end) + audit + cancelled
  {
  }

  lemma PartialHappened(w: World, t: Session, end: Option<Exc>)
    requires w.create.CreatedPartially? && AuditKept(w, t) && At(t, true, false, true, true)
    requires t.failures.cancellations == Cancellations(w.cleanup, false) && TaskEnd(w.cleanup, false) == Some(Returned(end))
    ensures Happened(w, t) ==
              multiset{w.create.failure}
              + ((if end.Some? then multiset{w.create.cleanupFailure} else multiset{}) + Optional(end))
              + multiset(t.failures.audit) + multiset(t.failures.cancellations)
  {
    CleanupReturned(w, end);
    PartialParts(w, t, CreateHappened(w), CleanupHappened(w));
    Gathered(multiset(t.failures.audit), AuditFailures(w, t.writes), Optional(w.auditClose), multiset{w.create.failure},
             multiset(t.failures.cancellations), if end.Some? then multiset{w.create.cleanupFailure} else multiset{}, Optional(end));
  }

  lemma RetryWorked(w: World, t: Session)
    requires w.create.CreatedPartially? && AuditKept(w, t) && At(t, true, false, true, true)
    requires t.failures.cancellations == Cancellations(w.cleanup, false) && TaskEnd(w.cleanup, false) == Some(Returned(None))
    ensures Accounted(w, t, Left(Some(RaisePrimary(w, w.create.failure, t.failures.audit + t.failures.cancellations))))
  {
    PartialHappened(w, t, None);
    assert w.create.failure in Happened(w, t);
    RaisePrimaryCarries(w, w.create.failure, t.failures.audit + t.failures.cancellations, Happened(w, t));
  }

  lemma RetryBroke(w: World, t: Session, retry: Exc)
    requires w.create.CreatedPartially? && AuditKept(w, t) && At(t, true, false, true, true)
    requires t.failures.cancellations == Cancellations(w.cleanup, false) && TaskEnd(w.cleanup, false) == Some(Returned(Some(retry)))
    ensures Accounted(w, t, Left(Some(CleanupError(w.create.id, retry, None, Some(w.create.failure),
                                                   Some(w.create.cleanupFailure), t.failures.audit, t.failures.cancellations))))
  {
    PartialHappened(w, t, Some(retry));
    assert w.create.failure in Happened(w, t);
    ThreeFailures(w.create.failure, w.create.cleanupFailure, retry, multiset(t.failures.audit), multiset(t.failures.cancellations));
  }

  lemma ThreeFailures(create: Exc, initial: Exc, retry: Exc, audit: multiset<Exc>, cancelled: multiset<Exc>)
    ensures multiset{retry} + multiset{} + multiset{create} + multiset{initial} + audit + cancelled ==
            multiset{create} + (multiset{initial} + multiset{retry}) + audit + cancelled + multiset{}
  {
  }

  lemma PartialIs(w: World)
    requires w.auditWrite(0).None? && w.create.CreatedPartially?
    ensures var (s, done) := Retried(w);
            match done
            case None => Managed(w) == (s, Waiting)
            case Some(Stopped(c)) => Managed(w) == (s, Left(Some(TaskCancellation(c))))
            case Some(Returned(end)) =>
              var event := if end.None? then "cleanup_retry_success" else "cleanup_retry_failure";
              var t := CloseArtifact(RecordEvent(s, w, event, w.create.id), w);
              Managed(w) == (t, Left(Some(
                if end.None? then RaisePrimary(w, w.create.failure, t.failures.audit + t.failures.cancellations)
                else CleanupError(w.create.id, end.value, None, Some(w.create.failure), Some(w.create.cleanupFailure),
                                  t.failures.audit, t.failures.cancellations))))
  {
    CalledIs(w);
  }

  /** What is said of every session in which `create` gave an identifier away. */
  ghost predicate GivenAway(w: World, s: Session, exit: Exit, id: string) {
    && (exit.Waiting? <==> TaskEnd(w.cleanup, false).None?)
    && (exit.Left? ==>
          && CleanupSeen(w, s, id)
          && (Closed in s.log <==> TaskEnd(w.cleanup, false).value.Returned?)
          && (TaskEnd(w.cleanup, false).value.Stopped? ==>
                exit.raised == Some(TaskCancellation(TaskEnd(w.cleanup, false).value.cancellation)))
          && (TaskEnd(w.cleanup, false).value.Returned? ==> exit.raised.None? || !exit.raised.value.TaskCancellation?))
  }

  /** What is shown of the session of a partial creation. */
  ghost predicate PartialSession(w: World, s: Session, exit: Exit)
    requires w.create.CreatedPartially?
  {
    Accounted(w, s, exit) && CreateCalled in s.log && !BodyStarted(s) && GivenAway(w, s, exit, w.create.id)
  }

  lemma PartialStopped(w: World, s: Session, c: Exc)
    requires w.create.CreatedPartially? && At(s, true, false, DestroyFinished(s), false) && CleanupSeen(w, s, w.create.id)
    requires TaskEnd(w.cleanup, false) == Some(Stopped(c))
    ensures PartialSession(w, s, Left(Some(TaskCancellation(c))))
  {
    StoppedHappened(w, s, c);
  }

  lemma PartialReturned(w: World, t: Session, end: Option<Exc>)
    requires w.create.CreatedPartially? && AuditKept(w, t) && At(t, true, false, true, true) && CleanupSeen(w, t, w.create.id)
    requires t.failures.cancellations == Cancellations(w.cleanup, false) && TaskEnd(w.cleanup, false) == Some(Returned(end))
    ensures PartialSession(w, t, Left(Some(
              if end.None? then RaisePrimary(w, w.create.failure, t.failures.audit + t.failures.cancellations)
              else CleanupError(w.create.id, end.value, None, Some(w.create.failure), Some(w.create.cleanupFailure),
                                t.failures.audit, t.failures.cancellations))))
  {
    if end.None? { RetryWorked(w, t); } else { RetryBroke(w, t, end.value); }
  }

  lemma Partial(w: World)
    requires w.auditWrite(0).None? && w.create.CreatedPartially?
    ensures var (s, exit) := Managed(w); PartialSession(w, s, exit)
  {
    PartialIs(w);
    RetryDrained(w);
    var (s, done) := Retried(w);
    if done.Some? {
      match done.value
      case Stopped(c) => PartialStopped(w, s, c);
      case Returned(end) =>
        var event := if end.None? then "cleanup_retry_success" else "cleanup_retry_failure";
        Finished(w, s, event, w.create.id, false);
        PartialReturned(w, CloseArtifact(RecordEvent(s, w, event, w.create.id), w), end);
    }
  }

  /** The session after a successful `create` and the record of it. */
  function Recorded(w: World): Session
    requires w.create.Created?
  {
    RecordEvent(Called(w).(failures := NO_FAILURES), w, "create_success", w.create.id)
  }

  lemma RecordedIs(w: World)
    requires w.auditWrite(0).None? && w.create.Created?
    ensures var s := Recorded(w);
            && AuditKept(w, s) && At(s, true, false, false, false)
            && s.failures == Failures(None, None, s.failures.audit, [])
            && (s.failures.audit == [] <==> w.auditWrite(1).None?)
            && (s.failures.audit == [] ==>
                  s.log == [Wrote("create_attempt", ""), CreateCalled, Wrote("create_success", w.create.id)])
  {
    CalledIs(w);
    RecordKeeps(Called(w), w, "create_success", w.create.id);
    AtRecord(Called(w), w, "create_success", w.create.id, true, false, false, false);
  }

  lemma BodyIsDone(w: World)
    requires w.auditWrite(0).None? && w.create.Created?
    ensures var s := RunBody(w, Recorded(w), w.create.id);
            && BodyDone(w, s) && Recorded(w).log <= s.log
            && (BodyStarted(s) <==> w.auditWrite(1).None?)
            && (BodyStarted(s) ==> Recorded(w).log + [BodyRan(w.create.id)] <= s.log)
  {
    RecordedIs(w);
    var s := Recorded(w);
    var id := w.create.id;
    if s.failures.audit == [] {
      var t := Log(s, BodyRan(id));
      AtAppend(s, t, BodyRan(id), true, false, false, false);
      if w.body.BodyFailed? {
        var u := t.(failures := t.failures.(body := Some(w.body.failure)));
        assert AuditKept(w, u) && At(u, true, true, false, false);
        RecordKeeps(u, w, "provider_failure", id);
        AtRecord(u, w, "provider_failure", id, true, true, false, false);
      }
    }
  }

  /** The way a session goes on once the sandbox was created. */
  lemma SuccessIs(w: World)
    requires w.auditWrite(0).None? && w.create.Created?
    ensures Managed(w) == DestroySandbox(w, RunBody(w, Recorded(w), w.create.id), w.create.id)
    ensures Called(w).log <= Recorded(w).log
    ensures w.auditWrite(1).None? ==>
              Recorded(w).log == [Wrote("create_attempt", ""), CreateCalled, Wrote("create_success", w.create.id)]
  {
    CalledIs(w);
    RecordedIs(w);
    RecordKeeps(Called(w), w, "create_success", w.create.id);
  }

  /** What the session of a created sandbox is once the body is done. */
  ghost predicate Succeeding(w: World, s: Session)
    requires w.create.Created?
  {
    && BodyDone(w, s) && Called(w).log <= s.log
    && (BodyStarted(s) <==> w.auditWrite(1).None?)
    && (BodyStarted(s) ==> [Wrote("create_attempt", ""), CreateCalled, Wrote("create_success", w.create.id),
                            BodyRan(w.create.id)] <= s.log)
  }

  lemma BodySucceeds(w: World)
    requires w.auditWrite(0).None? && w.create.Created?
    ensures Succeeding(w, RunBody(w, Recorded(w), w.create.id))
  {
    SuccessIs(w);
    BodyIsDone(w);
  }

  lemma PrefixChain(a: seq<Action>, b: seq<Action>, c: seq<Action>)
    requires a <= b && b <= c
    ensures a <= c
  {
  }

  lemma PhaseAccounted(w: World, t: Session, exit: Exit, id: string)
    requires PhaseEnded(w, t, exit, id) && (exit.Left? ==> CleanupSeen(w, t, id))
    ensures Accounted(w, t, exit) && GivenAway(w, t, exit, id)
  {
    OutcomeKind(w, t.failures, id);
    if AllOf(t.failures) == Happened(w, t) { OutcomeAccounted(w, t, id); }
  }

  lemma SessionEnds(w: World, s: Session)
    requires w.create.Created? && Succeeding(w, s)
    ensures var (t, exit) := DestroySandbox(w, s, w.create.id);
            Accounted(w, t, exit) && GoesOn(s, t) && GivenAway(w, t, exit, w.create.id)
  {
    DestroyAccounts(w, s, w.create.id);
    var (t, exit) := DestroySandbox(w, s, w.create.id);
    PhaseAccounted(w, t, exit, w.create.id);
  }

  /** The end of a session goes on from its log. */
  ghost predicate GoesOn(s: Session, t: Session) {
    s.log <= t.log && (BodyStarted(t) <==> BodyStarted(s))
  }

  lemma Succeeded(w: World)
    requires w.auditWrite(0).None? && w.create.Created?
    ensures var (s, exit) := Managed(w);
            && Accounted(w, s, exit)
            && Called(w).log <= s.log
            && GivenAway(w, s, exit, w.create.id)
            && (BodyStarted(s) <==> w.auditWrite(1).None?)
            && (BodyStarted(s) ==> [Wrote("create_attempt", ""), CreateCalled, Wrote("create_success", w.create.id),
                                    BodyRan(w.create.id)] <= s.log)
  {
    var s := RunBody(w, Recorded(w), w.create.id);
    SuccessIs(w);
    BodySucceeds(w);
    SessionEnds(w, s);
    var (t, exit) := Managed(w);
    PrefixChain(Called(w).log, s.log, t.log);
  }

  // ----- the properties of every session

  /** A sandbox, whole or partial, was created, so that it has to be destroyed. */
  predicate SandboxGiven(w: World, s: Session) {
    CreateCalled in s.log && IdOf(w.create).Some?
  }

  lemma Cases(w: World)
    ensures var (s, exit) := Managed(w);
            && Accounted(w, s, exit)
            && (CreateCalled in s.log <==> w.auditWrite(0).None?)
            && (SandboxGiven(w, s) ==> GivenAway(w, s, exit, IdOf(w.create).value))
            && (!SandboxGiven(w, s) ==> NothingGiven(s, exit))
  {
    if w.auditWrite(0).Some? { NotCreated(w); }
    else if w.create.CreateFailed? { Failed(w); }
    else if w.create.CreatedPartially? { Partial(w); }
    else { Succeeded(w); CalledIs(w); assert Called(w).log[1] == CreateCalled; }
  }

  /** The cleanup task ends as cancelled, instead of returning what became of the sandbox. */
  predicate TaskStopped(w: World, s: Session) {
    SandboxGiven(w, s) && TaskEnd(w.cleanup, false).Some? && TaskEnd(w.cleanup, false).value.Stopped?
  }

  /** In every session that ends, the exception raised carries every failure of the body, of `create`, of `destroy`,
      of the audit file and every cancellation, each as often as it happened, iff the cleanup task did not end as
      cancelled or nothing else failed; and nothing is raised iff nothing failed.  The one addition is the cause the
      primary already had.  A task that ends as cancelled raises that cancellation alone. */
  lemma NothingIsLost(w: World)
    ensures var (s, exit) := Managed(w);
            exit.Left? ==>
              && (exit.raised.None? <==> Happened(w, s) == multiset{})
              && (TaskStopped(w, s) ==> exit.raised == Some(TaskCancellation(TaskEnd(w.cleanup, false).value.cancellation)))
              && (exit.raised.Some? ==>
                    (CarriedBy(exit.raised.value) == Happened(w, s) + PriorOf(w, exit.raised.value, Happened(w, s)) <==>
                     TaskStopped(w, s) ==> |Happened(w, s)| == 1))
  {
    Cases(w);
    var (s, exit) := Managed(w);
    if exit.Left? { Carries(w, s, exit.raised, Happened(w, s)); }
  }

  lemma Carries(w: World, s: Session, raised: Option<Raised>, all: multiset<Exc>)
    requires Accounted(w, s, Left(raised)) && all == Happened(w, s)
    ensures raised.None? <==> all == multiset{}
    ensures raised.Some? ==>
              (CarriedBy(raised.value) == all + PriorOf(w, raised.value, all) <==>
               raised.value.TaskCancellation? ==> |all| == 1)
  {
    if raised.Some? && raised.value.TaskCancellation? { OnlyOne(all, raised.value.cancellation); }
  }

  lemma OnlyOne(all: multiset<Exc>, c: Exc)
    requires c in all
    ensures multiset{c} == all + multiset{} <==> |all| == 1
  {
    assert all == multiset{c} + (all - multiset{c});
  }

  /** Control leaves with the sandbox's destruction ended, well or not, iff the cleanup task got its first step; with
      the outcome recorded and the file closed, iff the task did not end as cancelled. */
  lemma NoSandboxIsAbandoned(w: World)
    ensures var (s, exit) := Managed(w);
            && (exit.Waiting? <==> SandboxGiven(w, s) && TaskEnd(w.cleanup, false).None?)
            && (exit.Left? && SandboxGiven(w, s) ==> (EndIn(s.log, IdOf(w.create).value) <==> Begins(w.cleanup)))
            && (exit.Left? ==> (Closed in s.log <==> !TaskStopped(w, s)))
  {
    Cases(w);
    var (s, exit) := Managed(w);
    if exit.Left? && SandboxGiven(w, s) { SeenIff(w, s, IdOf(w.create).value); }
  }

  lemma SeenIff(w: World, s: Session, id: string)
    requires CleanupSeen(w, s, id)
    ensures EndIn(s.log, id) <==> Begins(w.cleanup)
  {
    if EndIn(s.log, id) {
      var failure :| DestroyEnded(id, failure) in s.log;
      assert DestroyFinished(s);
    }
  }

  /** The body runs iff both records of the creation were written, and then right after them. */
  lemma BodyNeedsItsRecord(w: World)
    ensures var (s, exit) := Managed(w);
            && (BodyStarted(s) <==> w.auditWrite(0).None? && w.create.Created? && w.auditWrite(1).None?)
            && (BodyStarted(s) ==> [Wrote("create_attempt", ""), CreateCalled, Wrote("create_success", w.create.id),
                                    BodyRan(w.create.id)] <= s.log)
  {
    if w.auditWrite(0).Some? { NotCreated(w); }
    else if w.create.CreateFailed? { Failed(w); }
    else if w.create.CreatedPartially? { Partial(w); }
    else { Succeeded(w); }
  }

  // ----- a session that leaves its sandbox behind

  /** Nothing fails; the cleanup task is cancelled before its first step. */
  const SHUT_DOWN: World := World(_ => None, None, Created("sandbox-17"), BodyReturned, [TaskCancelled(1)], _ => None)

  lemma ShutDownIs(w: World)
    requires w == SHUT_DOWN
    ensures var (s, exit) := Managed(w);
            && exit == Left(Some(TaskCancellation(1)))
            && s.log == [Wrote("create_attempt", ""), CreateCalled, Wrote("create_success", "sandbox-17"),
                         BodyRan("sandbox-17"), Wrote("destroy_attempt", "sandbox-17")]
  {
    SuccessIs(w);
    var s := RunBody(w, Recorded(w), "sandbox-17");
    assert s.failures == NO_FAILURES && s.log == Recorded(w).log + [BodyRan("sandbox-17")];
  }

  /** The sandbox was created and `destroy` was never called; nor was the audit file closed. */
  lemma SandboxIsLeft()
    ensures var (s, exit) := Managed(SHUT_DOWN);
            && SandboxGiven(SHUT_DOWN, s) && exit == Left(Some(TaskCancellation(1)))
            && DestroyCalled("sandbox-17") !in s.log && !EndIn(s.log, "sandbox-17") && Closed !in s.log
  {
    ShutDownIs(SHUT_DOWN);
    var (s, _) := Managed(SHUT_DOWN);
    assert s.log[1] == CreateCalled;
  }

  // ----- the code's own form

  /** `_Outcome`, with the number of audit writes made and the trace of the session. */
  class Outcome {
    var bodyFailure: Option<Exc>
    var destroyFailure: Option<Exc>
    var auditFailures: seq<Exc>
    var cancellations: seq<Exc>
    var writes: nat
    var log: seq<Action>

    constructor ()
      ensures State() == Session(NO_FAILURES, 0, [])
    {
      bodyFailure, destroyFailure, auditFailures, cancellations, writes, log := None, None, [], [], 0, [];
    }

    function State(): Session
      reads this
    {
      Session(Failures(bodyFailure, destroyFailure, auditFailures, cancellations), writes, log)
    }

    method Act(a: Action)
      modifies this
      ensures State() == Log(old(State()), a)
    {
      log := log + [a];
    }

    method Record(w: World, event: string, id: string)
      modifies this
      ensures State() == RecordEvent(old(State()), w, event, id)
    {
      var failure := w.auditWrite(writes);
      writes := writes + 1;
      match failure {
        case Some(e) => auditFailures := auditFailures + [e];
        case None => log := log + [Wrote(event, id)];
      }
    }

    method Close(w: World)
      modifies this
      ensures State() == CloseArtifact(old(State()), w)
    {
      log := log + [Closed];
      match w.auditClose {
        case Some(e) => auditFailures := auditFailures + [e];
        case None =>
      }
    }

    /** The loop that waits for the cleanup task, one event at a time. */
    method AwaitCleanup(w: World, id: string) returns (done: Option<TaskResult>)
      modifies this
      ensures (State(), done) == Drain(w.cleanup, old(State()), id, false)
    {
      done := None;
      var begun := false;
      var i := 0;
      while i < |w.cleanup| && done.None?
        invariant 0 <= i <= |w.cleanup|
        invariant done.None? ==> Drain(w.cleanup[i..], State(), id, begun) == Drain(w.cleanup, old(State()), id, false)
        invariant done.Some? ==> (State(), done) == Drain(w.cleanup, old(State()), id, false)
      {
        assert w.cleanup[i..][1..] == w.cleanup[i + 1..];
        var event := w.cleanup[i];
        var first := !event.CallerCancelled? && !event.TaskCancelled? && !begun;
        if first {
          Act(DestroyCalled(id));
          begun := true;
        }
        match event {
          case CallerCancelled(c) => cancellations := cancellations + [c];
          case FirstStep =>
          case TaskCancelled(c) => if begun { Act(DestroyCalled(id)); } else { done := Some(Stopped(c)); }
          case DestroyFailed(failure) =>
            Act(DestroyEnded(id, Some(failure)));
            done := Some(Returned(Some(failure)));
          case Destroyed =>
            Act(DestroyEnded(id, None));
            done := Some(Returned(None));
          case CancelledReturning(ended, c) =>
            Act(DestroyEnded(id, ended));
            done := Some(Stopped(c));
        }
        i := i + 1;
      }
    }

    method RetryCleanup(w: World) returns (exit: Exit)
      requires w.create.CreatedPartially?
      modifies this
      ensures (State(), exit) == RetryPartialCreate(w, old(State()))
    {
      var id := w.create.id;
      Record(w, "create_cleanup_unsafe", id);
      Record(w, "cleanup_retry_attempt", id);
      var done := AwaitCleanup(w, id);
      match done {
        case None => exit := Waiting;
        case Some(Stopped(c)) => exit := Left(Some(TaskCancellation(c)));
        case Some(Returned(None)) =>
          Record(w, "cleanup_retry_success", id);
          Close(w);
          exit := Left(Some(RaisePrimary(w, w.create.failure, auditFailures + cancellations)));
        case Some(Returned(Some(retry))) =>
          Record(w, "cleanup_retry_failure", id);
          Close(w);
          exit := Left(Some(CleanupError(id, retry, None, Some(w.create.failure), Some(w.create.cleanupFailure),
                                         auditFailures, cancellations)));
      }
    }

    /** The body, guarded by the record of the creation. */
    method Body(w: World, id: string)
      modifies this
      ensures State() == RunBody(w, old(State()), id)
    {
      if auditFailures == [] {
        Act(BodyRan(id));
        match w.body {
          case BodyReturned =>
          case BodyFailed(failure, hasEvidence) =>
            bodyFailure := Some(failure);
            if hasEvidence { Record(w, "provider_failure", id); }
        }
      }
    }

    method Destroy(w: World, id: string) returns (exit: Exit)
      modifies this
      ensures (State(), exit) == DestroySandbox(w, old(State()), id)
    {
      Record(w, "destroy_attempt", id);
      var done := AwaitCleanup(w, id);
      if done.None? { return Waiting; }
      if done.value.Stopped? { return Left(Some(TaskCancellation(done.value.cancellation))); }
      destroyFailure := done.value.failure;
      if destroyFailure.None? { Record(w, "destroy_success", id); } else { Record(w, "destroy_failure", id); }
      Close(w);
      exit := Left(RaiseOutcome(w, Failures(bodyFailure, destroyFailure, auditFailures, cancellations), id));
    }
  }

  method ManagedSandbox(w: World) returns (outcome: Outcome, exit: Exit)
    ensures (outcome.State(), exit) == Managed(w)
  {
    outcome := new Outcome();
    outcome.Record(w, "create_attempt", "");
    if outcome.auditFailures != [] {
      outcome.Close(w);
      exit := Left(RaiseOutcome(w, outcome.State().failures, ""));
      return;
    }
    outcome.Act(CreateCalled);
    match w.create {
      case CreatedPartially(_, _, _) => exit := outcome.RetryCleanup(w);
      case CreateFailed(failure) =>
        outcome.Record(w, "create_failure", "");
        outcome.Close(w);
        exit := Left(Some(RaisePrimary(w, failure, outcome.auditFailures)));
      case Created(id) =>
        outcome.Record(w, "create_success", id);
        outcome.Body(w, id);
        exit := outcome.Destroy(w, id);
    }
  }

  // ----- the runtime template around the whole run

  /** What happens while the caller waits for the finalizing task. `Cancelling` is a cancellation requested of the task:
      before its first step it ends the task, later it ends the call, as its failure. `StoppedReturning` is one requested
      in the step in which the call ends. */
  datatype Wait =
    | Cancelled(cancellation: Exc)
    | Entered
    | Cancelling(stop: Exc)
    | Finalized(failure: Option<Exc>)
    | StoppedReturning(failure: Option<Exc>, stop: Exc)

  /** The finalizing task so far: whether it got its first step, how its call ended, what its `result()` is. */
  datatype Finalizing = Finalizing(entered: bool, call: Option<Option<Exc>>, result: Option<TaskResult>, cancellations: seq<Exc>)

  const NOT_ENTERED := Finalizing(false, None, None, [])

  function FinalizeStep(f: Finalizing, wait: Wait): Finalizing {
    match wait
    case Cancelled(c) => f.(cancellations := f.cancellations + [c])
    case Entered => f.(entered := true)
    case Cancelling(c) =>
      if f.entered then f.(call := Some(Some(c)), result := Some(Returned(Some(c)))) else f.(result := Some(Stopped(c)))
    case Finalized(failure) => f.(entered := true, call := Some(failure), result := Some(Returned(failure)))
    case StoppedReturning(failure, c) => f.(entered := true, call := Some(failure), result := Some(Stopped(c)))
  }

  function Finalize(waits: seq<Wait>, f: Finalizing): Finalizing {
    if waits == [] || f.result.Some? then f else Finalize(waits[1..], FinalizeStep(f, waits[0]))
  }

  /** The task gets its first step. */
  predicate Enters(waits: seq<Wait>) {
    waits != [] && if waits[0].Cancelled? then Enters(waits[1..]) else !waits[0].Cancelling?
  }

  /** The call has ended iff the task has and got its first step. */
  lemma {:induction false} FinalizedIff(waits: seq<Wait>, f: Finalizing)
    requires f.result.None? && f.call.None?
    ensures var t := Finalize(waits, f);
            && (t.result.Some? ==> (t.call.Some? <==> f.entered || Enters(waits)))
            && (t.result.Some? && t.result.value.Returned? ==> t.call == Some(t.result.value.failure))
            && f.cancellations <= t.cancellations
  {
    if waits != [] {
      var g := FinalizeStep(f, waits[0]);
      if g.result.None? { FinalizedIff(waits[1..], g); } else { assert Finalize(waits[1..], g) == g; }
    }
  }

  /** `_finalize_runtime_template_boundary`. */
  method FinalizeTemplate(waits: seq<Wait>) returns (f: Finalizing)
    ensures f == Finalize(waits, NOT_ENTERED)
  {
    f := NOT_ENTERED;
    var i := 0;
    while i < |waits| && f.result.None?
      invariant 0 <= i <= |waits|
      invariant Finalize(waits, NOT_ENTERED) == Finalize(waits[i..], f)
    {
      assert waits[i..][1..] == waits[i + 1..];
      match waits[i] {
        case Cancelled(c) => f := f.(cancellations := f.cancellations + [c]);
        case Entered => f := f.(entered := true);
        case Cancelling(c) =>
          if f.entered {
            f := f.(call := Some(Some(c)), result := Some(Returned(Some(c))));
          } else {
            f := f.(result := Some(Stopped(c)));
          }
        case Finalized(failure) => f := f.(entered := true, call := Some(failure), result := Some(Returned(failure)));
        case StoppedReturning(failure, c) => f := f.(entered := true, call := Some(failure), result := Some(Stopped(c)));
      }
      i := i + 1;
    }
  }

  /** What failed: the body, the call, the caller's cancellations, and the task's own if it ended by it. */
  function TemplateFailures(body: Option<Exc>, f: Finalizing): multiset<Exc> {
    Optional(body) + (if f.call.Some? then Optional(f.call.value) else multiset{}) + multiset(f.cancellations)
    + if f.result.Some? && f.result.value.Stopped? then multiset{f.result.value.cancellation} else multiset{}
  }

  /** The failures are all carried, and a failed finalization is the one reported. */
  ghost predicate TemplateAccounted(w: World, raised: Option<Raised>, end: Option<Exc>, known: multiset<Exc>) {
    && (raised.None? <==> known == multiset{})
    && (raised.Some? ==> CarriedBy(raised.value) == known + PriorOf(w, raised.value, known))
    && (end.Some? ==> raised.Some? && raised.value.CleanupError? && raised.value.destroy == end.value)
  }

  /** The body's failure is the primary one, or else the first cancellation. */
  ghost predicate PrimaryIs(r: Raised, body: Option<Exc>, cancellations: seq<Exc>) {
    r.Primary? && (if body.Some? then r.failure == body.value else cancellations != [] && r.failure == cancellations[0])
  }

  function TemplateOutcome(w: World, body: Option<Exc>, end: Option<Exc>, cancellations: seq<Exc>): Option<Raised> {
    if end.Some? then Some(CleanupError("", end.value, body, None, None, [], cancellations))
    else if body.Some? then Some(RaisePrimary(w, body.value, cancellations))
    else if cancellations != [] then Some(RaisePrimary(w, cancellations[0], cancellations[1..]))
    else None
  }

  lemma SameAsOutcome(w: World, body: Option<Exc>, end: Option<Exc>, cancellations: seq<Exc>)
    ensures TemplateOutcome(w, body, end, cancellations) == RaiseOutcome(w, Failures(body, end, [], cancellations), "")
  {
    assert [] + cancellations == cancellations;
    if cancellations != [] { assert [] + cancellations[1..] == cancellations[1..]; }
  }

  lemma TemplateCarries(w: World, body: Option<Exc>, f: Finalizing)
    requires f.result.Some? && f.result.value.Returned? && f.call == Some(f.result.value.failure)
    ensures TemplateAccounted(w, TemplateOutcome(w, body, f.call.value, f.cancellations), f.call.value, TemplateFailures(body, f))
  {
    var all := Failures(body, f.call.value, [], f.cancellations);
    SameAsOutcome(w, body, f.call.value, f.cancellations);
    RaiseOutcomeCarries(w, all, "");
    assert AllOf(all) == TemplateFailures(body, f);
  }

  /** What leaves the template once its finalizing task has ended. */
  ghost predicate TemplateEnded(w: World, body: Option<Exc>, f: Finalizing, raised: Option<Raised>)
    requires f.result.Some?
  {
    match f.result.value
    case Returned(end) =>
      && TemplateAccounted(w, raised, end, TemplateFailures(body, f))
      && (end.None? && raised.Some? ==> PrimaryIs(raised.value, body, f.cancellations))
    case Stopped(c) =>
      && raised == Some(TaskCancellation(c))
      && (CarriedBy(raised.value) == TemplateFailures(body, f) <==> |TemplateFailures(body, f)| == 1)
  }

  lemma TemplateReturned(w: World, body: Option<Exc>, f: Finalizing, end: Option<Exc>)
    requires f.result == Some(Returned(end)) && f.call == Some(end)
    ensures TemplateEnded(w, body, f, TemplateOutcome(w, body, end, f.cancellations))
  {
    TemplateCarries(w, body, f);
    PrimaryFirst(w, body, end, f.cancellations);
  }

  lemma PrimaryFirst(w: World, body: Option<Exc>, end: Option<Exc>, cancellations: seq<Exc>)
    ensures var r := TemplateOutcome(w, body, end, cancellations);
            end.None? && r.Some? ==> PrimaryIs(r.value, body, cancellations)
  {
  }

  lemma TemplateStopped(w: World, body: Option<Exc>, f: Finalizing, c: Exc)
    requires f.result == Some(Stopped(c))
    ensures TemplateEnded(w, body, f, Some(TaskCancellation(c)))
  {
    OnlyOne(TemplateFailures(body, f), c);
  }

  /** `managed_runtime_template`: a failed finalization names every failure; otherwise the body's failure comes first.
      Control leaves with the finalization ended iff the task got its first step. When the task ends as cancelled, that
      cancellation alone is raised, which is all there is iff nothing else failed. */
  method ManagedTemplate(w: World, body: Option<Exc>, waits: seq<Wait>) returns (exit: Exit)
    ensures var f := Finalize(waits, NOT_ENTERED);
            && (exit.Waiting? <==> f.result.None?)
            && (exit.Left? ==> (f.call.Some? <==> Enters(waits)) && TemplateEnded(w, body, f, exit.raised))
  {
    var f := FinalizeTemplate(waits);
    FinalizedIff(waits, NOT_ENTERED);
    if f.result.None? { return Waiting; }
    match f.result.value {
      case Stopped(c) =>
        TemplateStopped(w, body, f, c);
        exit := Left(Some(TaskCancellation(c)));
      case Returned(end) =>
        TemplateReturned(w, body, f, end);
        exit := Left(TemplateOutcome(w, body, end, f.cancellations));
    }
  }
}
