/**
 One durable dispatch record and the record-to-record functions that the task dispatcher runs
 inside the store's atomic `update`. A function that returns `Err` models a callback that throws:
 the store then keeps the old record.
 */
module DispatchRecord {
  import opened Options

  /** Bound on the events kept with one record. */
  const MAX_EVENTS: nat := 10_000

  /** A dispatcher refuses a shorter lease. */
  const MIN_LEASE_MS := 100

  datatype ReplayPolicy = Unspecified | Never | ReadOnly

  datatype Request = Request(requestId: string, executionId: string, replayPolicy: ReplayPolicy)

  datatype EventKind =
    | LeaseAcquired(attempt: nat)
    | LeaseRenewed(attempt: nat)
    | Retry(from: string, to: string)
    | Cancelled(attempt: nat)
    | Failed(error: string, attempt: nat)
    | Reported(name: string, data: string)

  datatype Event = Event(executionId: string, kind: EventKind, at: int)

  datatype Outcome = Outcome(ok: bool, output: string, inputTokens: int, outputTokens: int,
                             durationMs: int, error: Option<string>)

  datatype Lease = Lease(token: string, expiresAt: int)

  datatype Dispatch = Dispatch(
    computerId: string,
    request: Request,
    events: seq<Event>,
    outcome: Option<Outcome>,
    completedAt: Option<int>,
    attempt: nat,
    orphaned: bool,
    lease: Option<Lease>)

  datatype Error =
    | UnknownDispatch
    | ResourceBusy
    | LeaseLost
    | ExecutionTerminal
    | UnknownOutcome
    | ExecutionMismatch

  datatype Result<+T> = Ok(value: T) | Err(error: Error)

  datatype Op =
    | Claim(computerId: string, token: string)
    | Reconcile(offline: set<string>)
    | Cancel
    | Reassign(to: string)
    | Renew(token: string)
    | Report(event: Event, token: string)
    | Commit(outcome: Outcome, token: string)

  /**
   One atomic update. The callback reads the clock more than once: `guard` is the reading its
   checks use, `stamp` the later reading it writes. `leaseMs` belongs to the process that runs it.
   */
  datatype Step = Step(op: Op, guard: int, stamp: int, leaseMs: int)

  /** What the caller of the dispatcher method sees. */
  datatype Reply =
    | Leased(lease: Lease, attempt: nat)
    | Stored
    | Committed
    | Duplicate
    | Refused(error: Error)

  const UNKNOWN_OUTCOME := "UNKNOWN_OUTCOME"
  const CANCELLED := "CANCELLED"

  function NewRecord(computerId: string, request: Request): Dispatch {
    Dispatch(computerId, request, [], None, None, 0, false, None)
  }

  predicate Live(r: Dispatch, now: int) {
    r.lease.Some? && r.lease.value.expiresAt > now
  }

  /** Already attempted, and not declared safe to run again. */
  predicate Opaque(r: Dispatch) {
    r.attempt > 0 && r.request.replayPolicy != ReadOnly
  }

  function LastN<T>(s: seq<T>, n: nat): seq<T> {
    if |s| <= n then s else s[|s| - n..]
  }

  function Append(events: seq<Event>, e: Event): seq<Event> {
    LastN(events, MAX_EVENTS - 1) + [e]
  }

  function TerminalOutcome(error: string): Outcome {
    Outcome(false, "", 0, 0, 0, Some(error))
  }

  function TerminalEvent(r: Dispatch, error: string, stamp: int): Event {
    Event(r.request.executionId, if error == CANCELLED then Cancelled(r.attempt) else Failed(error, r.attempt), stamp)
  }

  function Terminal(r: Dispatch, error: string, stamp: int): Dispatch {
    r.(lease := None, completedAt := Some(stamp), outcome := Some(TerminalOutcome(error)),
       events := Append(r.events, TerminalEvent(r, error, stamp)))
  }

  function Validate(cur: Option<Dispatch>, token: string, guard: int): Result<Dispatch> {
    if cur.None? || token == "" || cur.value.lease.None? || cur.value.lease.value.token != token
       || cur.value.lease.value.expiresAt <= guard
    then Err(LeaseLost)
    else Ok(cur.value)
  }

  function ClaimUpdate(cur: Option<Dispatch>, computerId: string, token: string, s: Step): Result<Dispatch> {
    if cur.None? || cur.value.computerId != computerId then Err(UnknownDispatch)
    else
      var r := cur.value;
      if r.outcome.Some? || Live(r, s.guard) then Err(ResourceBusy)
      else if Opaque(r) then Ok(Terminal(r, UNKNOWN_OUTCOME, s.stamp))
      else Ok(r.(orphaned := false, attempt := r.attempt + 1,
                 events := Append(r.events, Event(r.request.executionId, LeaseAcquired(r.attempt + 1), s.stamp)),
                 lease := Some(Lease(token, s.stamp + s.leaseMs))))
  }

  function ReconcileUpdate(cur: Option<Dispatch>, offline: set<string>, s: Step): Result<Dispatch> {
    if cur.None? then Err(UnknownDispatch)
    else
      var r := cur.value;
      if r.outcome.Some? || Live(r, s.guard) then Ok(r)
      else if Opaque(r) then Ok(Terminal(r, UNKNOWN_OUTCOME, s.stamp))
      else if r.computerId in offline then Ok(r.(orphaned := true))
      else Ok(r)
  }

  function CancelUpdate(cur: Option<Dispatch>, s: Step): Result<Dispatch> {
    if cur.None? then Err(UnknownDispatch)
    else if cur.value.outcome.Some? then Ok(cur.value)
    else Ok(Terminal(cur.value, CANCELLED, s.stamp))
  }

  function ReassignUpdate(cur: Option<Dispatch>, to: string, s: Step): Result<Dispatch> {
    if cur.None? then Err(UnknownDispatch)
    else
      var r := cur.value;
      if r.outcome.Some? then Err(ExecutionTerminal)
      else if Live(r, s.guard) then Err(ResourceBusy)
      else if Opaque(r) then Err(UnknownOutcome)
      else Ok(r.(computerId := to, lease := None, orphaned := false,
                 events := Append(r.events, Event(r.request.executionId, Retry(r.computerId, to), s.stamp))))
  }

  function RenewUpdate(cur: Option<Dispatch>, token: string, s: Step): Result<Dispatch> {
    match Validate(cur, token, s.guard)
    case Err(e) => Err(e)
    case Ok(r) =>
      if r.outcome.Some? then Err(ExecutionTerminal)
      else Ok(r.(events := Append(r.events, Event(r.request.executionId, LeaseRenewed(r.attempt), s.stamp)),
                 lease := Some(Lease(token, s.stamp + s.leaseMs))))
  }

  function ReportUpdate(cur: Option<Dispatch>, event: Event, token: string, s: Step): Result<Dispatch> {
    match Validate(cur, token, s.guard)
    case Err(e) => Err(e)
    case Ok(r) =>
      if r.outcome.Some? then Err(ExecutionTerminal)
      else if event.executionId != r.request.executionId then Err(ExecutionMismatch)
      else Ok(r.(events := Append(r.events, event)))
  }

  /** A result already accepted from this token is acknowledged again, however late. */
  predicate Acknowledged(cur: Option<Dispatch>, token: string) {
    cur.Some? && cur.value.outcome.Some? && token != ""
    && cur.value.lease.Some? && cur.value.lease.value.token == token
  }

  function CommitUpdate(cur: Option<Dispatch>, outcome: Outcome, token: string, s: Step): Result<Dispatch> {
    if Acknowledged(cur, token) then Ok(cur.value)
    else
      match Validate(cur, token, s.guard)
      case Err(e) => Err(e)
      case Ok(r) => Ok(r.(outcome := Some(outcome), completedAt := Some(s.stamp)))
  }

  function Update(cur: Option<Dispatch>, s: Step): Result<Dispatch> {
    match s.op
    case Claim(computerId, token) => ClaimUpdate(cur, computerId, token, s)
    case Reconcile(offline) => ReconcileUpdate(cur, offline, s)
    case Cancel => CancelUpdate(cur, s)
    case Reassign(to) => ReassignUpdate(cur, to, s)
    case Renew(token) => RenewUpdate(cur, token, s)
    case Report(event, token) => ReportUpdate(cur, event, token, s)
    case Commit(outcome, token) => CommitUpdate(cur, outcome, token, s)
  }

  /** The stored record after the update; unchanged when the callback throws. */
  function After(r: Dispatch, s: Step): Dispatch {
    match Update(Some(r), s)
    case Ok(r') => r'
    case Err(_) => r
  }

  /** The answer of the dispatcher method around the update. */
  function ReplyTo(cur: Option<Dispatch>, s: Step): Reply {
    match Update(cur, s)
    case Err(e) => Refused(e)
    case Ok(r) =>
      match s.op
      case Claim(_, token) =>
        if r.outcome.Some? || r.lease.None? then Refused(ResourceBusy) else Leased(r.lease.value, r.attempt)
      case Commit(_, token) => if Acknowledged(cur, token) then Duplicate else Committed
      case _ => Stored
  }

  // ----- What each operation means: four phases of a record at a moment -----

  /** A record is finished, held by a worker, spent (must not be replayed) or free to be claimed. */
  datatype Phase = Finished | Held | Spent | Free

  function PhaseAt(r: Dispatch, now: int): Phase {
    if r.outcome.Some? then Finished
    else if Live(r, now) then Held
    else if Opaque(r) then Spent
    else Free
  }

  predicate Holds(r: Dispatch, token: string) {
    token != "" && r.lease.Some? && r.lease.value.token == token
  }

  /** The answer to every operation depends only on the phase, the owner and the token. */
  lemma RepliesFollowPhase(r: Dispatch, s: Step)
    ensures var p, reply := PhaseAt(r, s.guard), ReplyTo(Some(r), s);
            match s.op
            case Claim(computerId, token) =>
              reply == if r.computerId != computerId then Refused(UnknownDispatch)
                       else if p.Free? then Leased(Lease(token, s.stamp + s.leaseMs), r.attempt + 1)
                       else Refused(ResourceBusy)
            case Reassign(_) =>
              reply == (match p case Free => Stored case Held => Refused(ResourceBusy)
                                case Spent => Refused(UnknownOutcome) case Finished => Refused(ExecutionTerminal))
            case Renew(token) =>
              reply == if !Holds(r, token) || !Live(r, s.guard) then Refused(LeaseLost)
                       else if p.Finished? then Refused(ExecutionTerminal) else Stored
            case Report(event, token) =>
              reply == if !Holds(r, token) || !Live(r, s.guard) then Refused(LeaseLost)
                       else if p.Finished? then Refused(ExecutionTerminal)
                       else if event.executionId != r.request.executionId then Refused(ExecutionMismatch) else Stored
            case Commit(_, token) =>
              reply == if !Holds(r, token) then Refused(LeaseLost)
                       else if p.Finished? then Duplicate
                       else if p.Held? then Committed else Refused(LeaseLost)
            case Cancel => reply == Stored
            case Reconcile(_) => reply == Stored
  {
  }

  /** Nothing can be done to a record that is not there, and a token for it is worth nothing. */
  lemma MissingRecordIsRefused(s: Step)
    ensures ReplyTo(None, s) == Refused(if s.op.Renew? || s.op.Report? || s.op.Commit? then LeaseLost else UnknownDispatch)
  {
  }

  /** A dispatched request starts free, unmarked and without history. */
  lemma NewRecordIsFree(computerId: string, request: Request, now: int)
    ensures var r := NewRecord(computerId, request);
            && PhaseAt(r, now).Free? && r.computerId == computerId && r.request == request
            && r.lease.None? && r.completedAt.None? && !r.orphaned && r.attempt == 0 && r.events == []
  {
  }

  /** A record ended by the dispatcher and not by a worker: what it says, and that nothing else about it changed. */
  predicate EndedAs(r: Dispatch, ended: Dispatch, error: string, kind: EventKind, stamp: int) {
    && ended.outcome.Some?
    && !ended.outcome.value.ok && ended.outcome.value.output == "" && ended.outcome.value.error == Some(error)
    && ended.outcome.value.inputTokens == ended.outcome.value.outputTokens == ended.outcome.value.durationMs == 0
    && ended.lease.None? && ended.completedAt == Some(stamp)
    && |ended.events| > 0 && ended.events[|ended.events| - 1] == Event(r.request.executionId, kind, stamp)
    && ended.computerId == r.computerId && ended.request == r.request
    && ended.attempt == r.attempt && ended.orphaned == r.orphaned
  }

  /** An operation moves a record only along: free to held or finished, held to finished, spent to finished. */
  lemma PhaseStep(r: Dispatch, s: Step)
    requires s.guard <= s.stamp && 0 < s.leaseMs
    ensures var p, q := PhaseAt(r, s.guard), PhaseAt(After(r, s), s.guard);
            p == q || q.Finished? || (p.Free? && q.Held? && s.op.Claim?)
    ensures PhaseAt(r, s.guard).Finished? ==> After(r, s) == r
    ensures PhaseAt(r, s.guard).Spent? && (s.op.Claim? || s.op.Reconcile?) ==>
              After(r, s) == r || EndedAs(r, After(r, s), "UNKNOWN_OUTCOME", Failed("UNKNOWN_OUTCOME", r.attempt), s.stamp)
  {
  }

  /** What recovery does to one record: spent work ends, free work of an offline owner is marked, all else stays. */
  lemma ReconcileMeaning(r: Dispatch, offline: set<string>, s: Step)
    requires s.op == Reconcile(offline)
    ensures var r' := After(r, s);
            match PhaseAt(r, s.guard)
            case Spent => EndedAs(r, r', "UNKNOWN_OUTCOME", Failed("UNKNOWN_OUTCOME", r.attempt), s.stamp)
            case Free => r' == if r.computerId in offline then r.(orphaned := true) else r
            case _ => r' == r
    ensures After(After(r, s), s) == After(r, s)
  {
  }
}
