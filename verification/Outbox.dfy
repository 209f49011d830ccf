/**
  Durable public delivery: src/outbox.cpp over the row operations of
  src/persistence/sqlite_durable_work_repository.cpp.

  One public row is followed through any interleaving of workers.  The row's
  columns are updated in place by `OutboxRow`, the worker code is in
  `OutboxService`; every method there performs at most one row operation, so its
  effect is one atomic step of the transition system in the second half.
 */
module Outbox {

  import opened Wrappers

  const NONCE_RETRY_WINDOW_MS := 90_000
  const SUBMISSION_LEASE_MARGIN_MS := 10_000
  const INT64_MAX := 0x7FFF_FFFF_FFFF_FFFF

  function Max(a: int, b: int): int { if a > b then a else b }

  // ------------------------------------------------------------ the values

  datatype Lease = Lease(owner: string, token: string)
  datatype Stamp = Stamp(wall: int, elapsed: int, boot: string)

  datatype RowState = Pending | Claimed | Delivered | Failed | Dead | Cancelled
  datatype FailureMode = Retryable | Permanent | DeadLetter
  datatype DeliveryResult = Success | Transient | PermanentFailure | UnknownOutcome
  datatype MarkStatus = Applied | Stale | Rejected
  datatype Receipt = Receipt(result: DeliveryResult, messageId: Option<nat>)

  /** What a row and a worker's copy of it know about the first submission. */
  datatype First = First(at: Option<int>, elapsed: Option<int>, boot: Option<string>)

  datatype Row = Row(
    state: RowState, createdAt: int, availableAt: int,
    attempts: nat, maxAttempts: nat,
    lease: Option<Lease>, leaseUntil: int,
    first: First, submissionStarted: Option<int>,
    lastError: Option<string>, messageId: Option<nat>)

  /** A worker's copy of the row, taken when it was claimed. */
  datatype Claim = Claim(
    lease: Lease, attempts: nat, maxAttempts: nat, availableAt: int,
    first: First, submissionStarted: Option<int>, lastError: Option<string>)

  // ------------------------------------------------------- pure policy code

  function RetryDelayMs(attempt: nat): (ms: int)
    ensures 5_000 <= ms <= 40_000
    ensures attempt <= 1 ==> ms == 5_000
    ensures 1 < attempt <= 4 ==> ms == 2 * RetryDelayMs(attempt - 1)
    ensures attempt >= 4 ==> ms == 40_000
  {
    var delays := [5_000, 10_000, 20_000, 40_000];
    delays[if attempt == 0 then 0 else if attempt - 1 < 3 then attempt - 1 else 3]
  }

  /** None stands for the overflow_error. */
  function SubmissionLeaseUntil(current: int, receiptTimeoutMs: int): Option<int> {
    var extension := receiptTimeoutMs + SUBMISSION_LEASE_MARGIN_MS;
    if current > INT64_MAX - extension then None else Some(current + extension)
  }

  predicate WithinNonceWindow(first: First, now: Stamp) {
    && first.elapsed.Some? && first.boot.Some?
    && first.boot.value == now.boot
    && now.elapsed >= first.elapsed.value
    && now.elapsed - first.elapsed.value <= NONCE_RETRY_WINDOW_MS
  }

  datatype Disposition = Disposition(code: string, mode: FailureMode, retry: bool)

  function ClassifyFailure(result: DeliveryResult, withinWindow: bool): (d: Disposition)
    ensures d.retry <==> (result.Transient? || result.UnknownOutcome?) && withinWindow
    ensures d.mode == if d.retry then Retryable else Permanent
  {
    if (result == Transient || result == UnknownOutcome) && withinWindow then
      Disposition(if result == UnknownOutcome then "discord_unknown_outcome" else "discord_transient",
                  Retryable, true)
    else
      Disposition(if result == PermanentFailure then "discord_permanent"
                  else if result == UnknownOutcome then "discord_unknown_outcome_stale"
                  else "discord_retry_window_expired",
                  Permanent, false)
  }

  // --------------------------------------------------------- row operations

  predicate Due(r: Row, now: int) {
    || (r.state == Pending && r.availableAt <= now)
    || (r.state == Claimed && r.leaseUntil <= now)
  }

  function Terminated(r: Row, state: RowState, code: string): Row {
    r.(state := state, lease := None, leaseUntil := 0, submissionStarted := None, lastError := Some(code))
  }

  predicate HeldBy(r: Row, lease: Lease) { r.state == Claimed && r.lease == Some(lease) }

  /** Quarantine, exhaust, then claim, in one transaction.  `unblocked` says
      that no predecessor row holds this one back. */
  function ClaimDue(r: Row, now: int, leaseUntil: int, lease: Lease, ready: bool, unblocked: bool): Row {
    if r.state == Claimed && r.leaseUntil <= now && r.attempts >= r.maxAttempts && r.submissionStarted.Some? then
      Terminated(r, Failed, "discord_unknown_outcome_stale")
    else if Due(r, now) && r.attempts >= r.maxAttempts && ready then
      Terminated(r, Dead, "attempts_exhausted")
    else if Due(r, now) && r.attempts < r.maxAttempts && ready && unblocked then
      r.(state := Claimed, attempts := r.attempts + 1, lease := Some(lease), leaseUntil := leaseUntil)
    else r
  }

  predicate Claims(r: Row, now: int, ready: bool, unblocked: bool) {
    Due(r, now) && r.attempts < r.maxAttempts && ready && unblocked
  }

  function CopyOf(r: Row, lease: Lease): Claim {
    Claim(lease, r.attempts, r.maxAttempts, r.availableAt, r.first, r.submissionStarted, r.lastError)
  }

  function GiveBack(r: Row, lease: Lease): Row {
    if HeldBy(r, lease) && r.submissionStarted.None?
    then r.(state := Pending, attempts := Max(r.attempts - 1, 0), lease := None, leaseUntil := 0)
    else r
  }

  function Recorded(f: First, at: int, stamp: Stamp): First {
    First(Some(f.at.GetOr(at)), Some(f.elapsed.GetOr(stamp.elapsed)), Some(f.boot.GetOr(stamp.boot)))
  }

  predicate ValidBoot(boot: string) {
    0 < |boot| <= 64 && forall i :: 0 <= i < |boot| ==> 'a' <= boot[i] <= 'z' || '0' <= boot[i] <= '9' || boot[i] == '-'
  }

  /** The arguments that `mark_public_outbox_submitted` accepts. */
  predicate Markable(stamp: Stamp, leaseUntil: int) {
    0 <= stamp.wall < leaseUntil && stamp.elapsed >= 0 && ValidBoot(stamp.boot)
  }

  function MarkSubmitted(r: Row, lease: Lease, stamp: Stamp, leaseUntil: int): Row {
    if Markable(stamp, leaseUntil) && HeldBy(r, lease)
    then r.(first := Recorded(r.first, Max(stamp.wall, r.createdAt), stamp),
            submissionStarted := Some(Max(stamp.wall, r.createdAt)),
            leaseUntil := Max(r.leaseUntil, leaseUntil))
    else r
  }

  /** Message id 0 is the unset snowflake, for which the source throws. */
  function Complete(r: Row, lease: Lease, messageId: nat): Row {
    if messageId != 0 && HeldBy(r, lease) && r.submissionStarted.Some?
    then r.(state := Delivered, lease := None, leaseUntil := 0, submissionStarted := None,
            messageId := Some(messageId), lastError := None)
    else r
  }

  function Fail(r: Row, c: Claim, retryAt: int, code: string, mode: FailureMode): Row {
    var retry := mode == Retryable && c.attempts < c.maxAttempts;
    if HeldBy(r, c.lease)
    then r.(state := if retry then Pending else if mode == Permanent then Failed else Dead,
            availableAt := Max(if retry then retryAt else c.availableAt, r.createdAt),
            lease := None, leaseUntil := 0, submissionStarted := None, lastError := Some(code))
    else r
  }

  /** Other parts of the program withdraw rows: a row that is not delivered may
      be cancelled, and a submitted one may be failed for good. */
  predicate MayWithdraw(r: Row, final: RowState) {
    || (final == Cancelled && r.state in {Pending, Claimed, Failed})
    || (final == Failed && r.state == Claimed && r.submissionStarted.Some?)
  }

  function Withdrawn(r: Row, final: RowState, code: Option<string>): Row {
    if MayWithdraw(r, final)
    then r.(state := final, lease := None, leaseUntil := 0, submissionStarted := None,
            lastError := if code.Some? then code else r.lastError)
    else r
  }

  // ------------------------------------------------------- worker decisions

  /** Everything `handle_public` reads besides its copy of the row; an exception
      is handled at the clock value `caughtAt`. */
  datatype Inputs = Inputs(
    now: int, payloadOk: bool, inScope: bool, injectFailure: bool,
    ready: bool, stamp: Stamp, stopping: bool, receiptTimeoutMs: int, caughtAt: int)

  datatype Decision =
    | Refuse(retryAt: int, code: string, mode: FailureMode)
    | HandBack
    | SubmitNow(leaseUntil: int)

  /** What `handle_public` decides from the worker's copy alone. */
  function Decide(c: Claim, i: Inputs): Decision {
    if !i.payloadOk then Refuse(i.now, "payload_invalid", DeadLetter)
    else if !i.inScope then Refuse(i.now, "scope_rejected", DeadLetter)
    else if i.injectFailure && c.attempts == 1 then
      Refuse(i.now + RetryDelayMs(c.attempts), "test_injected_transient", Retryable)
    else if !i.ready then HandBack
    else if c.first.at.Some? && c.attempts > 1 && !WithinNonceWindow(c.first, i.stamp) then
      Refuse(i.now,
             if c.submissionStarted.Some? || c.lastError == Some("discord_unknown_outcome")
             then "discord_unknown_outcome_stale" else "discord_retry_window_expired",
             Permanent)
    else if i.stopping then HandBack
    else
      var until := SubmissionLeaseUntil(i.stamp.wall, i.receiptTimeoutMs);
      if until.None? || !Markable(i.stamp, until.value)
      then Refuse(i.caughtAt + RetryDelayMs(c.attempts), "handler_exception", Retryable)
      else SubmitNow(until.value)
  }

  function AfterDecision(r: Row, c: Claim, i: Inputs): Row {
    match Decide(c, i)
    case Refuse(retryAt, code, mode) => Fail(r, c, retryAt, code, mode)
    case HandBack => GiveBack(r, c.lease)
    case SubmitNow(until) => MarkSubmitted(r, c.lease, i.stamp, until)
  }

  /** The copy a worker carries on with once its mark has been applied. */
  function Submitted(c: Claim, stamp: Stamp): Claim {
    c.(first := Recorded(c.first, stamp.wall, stamp), submissionStarted := Some(stamp.wall))
  }

  function AfterReceipt(r: Row, c: Claim, receipt: Receipt, now: Stamp): Row {
    if receipt.result == Success && receipt.messageId.Some? then
      Complete(r, c.lease, receipt.messageId.value)
    else
      var outcome := if receipt.result == Success then UnknownOutcome else receipt.result;
      var d := ClassifyFailure(outcome, c.first.at.Some? && WithinNonceWindow(c.first, now));
      Fail(r, c, if d.retry then now.wall + RetryDelayMs(c.attempts) else now.wall, d.code, d.mode)
  }

  // ------------------------------------------------------------ the classes

  class OutboxRow {
    var state: RowState
    var createdAt: int
    var availableAt: int
    var attempts: nat
    var maxAttempts: nat
    var lease: Option<Lease>
    var leaseUntil: int
    var firstAt: Option<int>
    var firstElapsed: Option<int>
    var firstBoot: Option<string>
    var submissionStarted: Option<int>
    var lastError: Option<string>
    var messageId: Option<nat>

    ghost function Value(): Row
      reads this
    {
      Row(state, createdAt, availableAt, attempts, maxAttempts, lease, leaseUntil,
          First(firstAt, firstElapsed, firstBoot), submissionStarted, lastError, messageId)
    }

    constructor (now: int, availableAt: int, maxAttempts: nat)
      ensures Value() == NewRow(now, availableAt, maxAttempts)
    {
      state, createdAt, this.availableAt, attempts, this.maxAttempts := Pending, now, availableAt, 0, maxAttempts;
      lease, leaseUntil, firstAt, firstElapsed, firstBoot := None, 0, None, None, None;
      submissionStarted, lastError, messageId := None, None, None;
    }

    method ClaimDueOutbox(now: int, until: int, owner: Lease, ready: bool, unblocked: bool)
      returns (claim: Option<Claim>)
      modifies this
      ensures Value() == ClaimDue(old(Value()), now, until, owner, ready, unblocked)
      ensures claim == if Claims(old(Value()), now, ready, unblocked) then Some(CopyOf(Value(), owner)) else None
    {
      if state == Claimed && leaseUntil <= now && attempts >= maxAttempts && submissionStarted.Some? {
        Terminate(Failed, "discord_unknown_outcome_stale");
      }
      if ((state == Pending && availableAt <= now) || (state == Claimed && leaseUntil <= now))
         && attempts >= maxAttempts && ready {
        Terminate(Dead, "attempts_exhausted");
      }
      if ((state == Pending && availableAt <= now) || (state == Claimed && leaseUntil <= now))
         && attempts < maxAttempts && ready && unblocked {
        state, attempts, lease, leaseUntil := Claimed, attempts + 1, Some(owner), until;
        return Some(Claim(owner, attempts, maxAttempts, availableAt,
                          First(firstAt, firstElapsed, firstBoot), submissionStarted, lastError));
      }
      return None;
    }

    method Terminate(final: RowState, code: string)
      modifies this
      ensures Value() == Terminated(old(Value()), final, code)
    {
      state, lease, leaseUntil, submissionStarted, lastError := final, None, 0, None, Some(code);
    }

    method ReleaseOutbox(owner: Lease)
      modifies this
      ensures Value() == GiveBack(old(Value()), owner)
    {
      if state == Claimed && lease == Some(owner) && submissionStarted.None? {
        state, attempts, lease, leaseUntil :=
          Pending, if attempts > 0 then attempts - 1 else 0, None, 0;
      }
    }

    /** Rejected stands for the invalid_argument. */
    method MarkPublicSubmitted(owner: Lease, stamp: Stamp, until: int) returns (status: MarkStatus)
      modifies this
      ensures Value() == MarkSubmitted(old(Value()), owner, stamp, until)
      ensures status == if !Markable(stamp, until) then Rejected
                        else if HeldBy(old(Value()), owner) then Applied else Stale
    {
      if stamp.wall < 0 || stamp.elapsed < 0 || until < 0 || until <= stamp.wall || !ValidBoot(stamp.boot) {
        return Rejected;
      }
      if !(state == Claimed && lease == Some(owner)) {
        return Stale;
      }
      var at := if stamp.wall > createdAt then stamp.wall else createdAt;
      if firstAt.None? { firstAt := Some(at); }
      if firstElapsed.None? { firstElapsed := Some(stamp.elapsed); }
      if firstBoot.None? { firstBoot := Some(stamp.boot); }
      submissionStarted := Some(at);
      leaseUntil := if leaseUntil > until then leaseUntil else until;
      return Applied;
    }

    /** False stands for the invalid_argument of an unset message id. */
    method CompletePublic(owner: Lease, id: nat) returns (ok: bool)
      modifies this
      ensures Value() == Complete(old(Value()), owner, id) && ok == (id != 0)
    {
      if id == 0 {
        return false;
      }
      ok := true;
      if state == Claimed && lease == Some(owner) && submissionStarted.Some? {
        state, lease, leaseUntil, submissionStarted, messageId, lastError :=
          Delivered, None, 0, None, Some(id), None;
      }
    }

    method FailOutbox(c: Claim, retryAt: int, code: string, mode: FailureMode)
      modifies this
      ensures Value() == Fail(old(Value()), c, retryAt, code, mode)
    {
      var retry := mode == Retryable && c.attempts < c.maxAttempts;
      if state == Claimed && lease == Some(c.lease) {
        var due := if retry then retryAt else c.availableAt;
        state := if retry then Pending else if mode == Permanent then Failed else Dead;
        availableAt := if due > createdAt then due else createdAt;
        lease, leaseUntil, submissionStarted, lastError := None, 0, None, Some(code);
      }
    }
  }

  class OutboxService {
    const row: OutboxRow
    const receiptTimeoutMs: int

    constructor (row: OutboxRow, receiptTimeoutMs: int)
      requires 0 < receiptTimeoutMs <= 90_000
      ensures this.row == row && this.receiptTimeoutMs == receiptTimeoutMs
    {
      this.row, this.receiptTimeoutMs := row, receiptTimeoutMs;
    }

    /** `handle_public` up to the point where it may call the provider; an
        exception is handled as `process_one` does.  Some(copy) means: send now. */
    method BeginPublic(c: Claim, i: Inputs) returns (send: Option<Claim>)
      requires i.receiptTimeoutMs == receiptTimeoutMs
      modifies row
      ensures row.Value() == AfterDecision(old(row.Value()), c, i)
      ensures send == if Decide(c, i).SubmitNow? && HeldBy(old(row.Value()), c.lease)
                      then Some(Submitted(c, i.stamp)) else None
    {
      if !i.payloadOk {
        row.FailOutbox(c, i.now, "payload_invalid", DeadLetter);
        return None;
      }
      if !i.inScope {
        row.FailOutbox(c, i.now, "scope_rejected", DeadLetter);
        return None;
      }
      if i.injectFailure && c.attempts == 1 {
        row.FailOutbox(c, i.now + RetryDelayMs(c.attempts), "test_injected_transient", Retryable);
        return None;
      }
      if !i.ready {
        row.ReleaseOutbox(c.lease);
        return None;
      }
      if c.first.at.Some? && c.attempts > 1 && !WithinNonceWindow(c.first, i.stamp) {
        var ambiguous := c.submissionStarted.Some? || c.lastError == Some("discord_unknown_outcome");
        row.FailOutbox(c, i.now,
          if ambiguous then "discord_unknown_outcome_stale" else "discord_retry_window_expired", Permanent);
        return None;
      }
      if i.stopping {
        row.ReleaseOutbox(c.lease);
        return None;
      }
      var until := SubmissionLeaseUntil(i.stamp.wall, receiptTimeoutMs);
      if until.None? {
        row.FailOutbox(c, i.caughtAt + RetryDelayMs(c.attempts), "handler_exception", Retryable);
        return None;
      }
      var submitted := c;
      var marked := row.MarkPublicSubmitted(c.lease, i.stamp, until.value);
      if marked == Rejected {
        row.FailOutbox(c, i.caughtAt + RetryDelayMs(c.attempts), "handler_exception", Retryable);
        return None;
      }
      if marked != Applied {
        return None;
      }
      submitted := submitted.(
        first := First(Some(c.first.at.GetOr(i.stamp.wall)),
                       Some(c.first.elapsed.GetOr(i.stamp.elapsed)),
                       Some(c.first.boot.GetOr(i.stamp.boot))),
        submissionStarted := Some(i.stamp.wall));
      return Some(submitted);
    }

    method HandleReceipt(c: Claim, receipt: Receipt, now: Stamp)
      modifies row
      ensures row.Value() == AfterReceipt(old(row.Value()), c, receipt, now)
    {
      if receipt.result == Success && receipt.messageId.Some? {
        var _ := row.CompletePublic(c.lease, receipt.messageId.value);   // its exception is only reported
        return;
      }
      var outcome := if receipt.result == Success then UnknownOutcome else receipt.result;
      var within := c.first.at.Some? && WithinNonceWindow(c.first, now);
      var disposition := ClassifyFailure(outcome, within);
      if disposition.retry {
        row.FailOutbox(c, now.wall + RetryDelayMs(c.attempts), disposition.code, disposition.mode);
        return;
      }
      row.FailOutbox(c, now.wall, disposition.code, disposition.mode);
    }
  }

  function NewRow(now: int, availableAt: int, maxAttempts: nat): Row {
    Row(Pending, now, availableAt, 0, maxAttempts, None, 0, First(None, None, None), None, None, None)
  }

  // ---------------------------------------------------- the whole protocol

  /** A worker has read the row (Holding), has marked it and is about to call
      the provider (Marked), or waits for the receipt (Waiting). */
  datatype Phase = Holding | Marked(stamp: Stamp) | Waiting
  datatype Worker = Worker(copy: Claim, phase: Phase)

  /** A submission as recorded by its mark. */
  datatype Submission = Submission(lease: Lease, stamp: Stamp)

  datatype System = System(
    row: Row, workers: map<Lease, Worker>, usedLeases: set<Lease>,
    submissions: seq<Submission>, sent: seq<Submission>)

  datatype Event =
    | Tick(now: int, until: int, lease: Lease, ready: bool, unblocked: bool)
    | Abandon(who: Lease)
    | Begin(who: Lease, inputs: Inputs)
    | HandlerThrows(who: Lease, retryAt: int)
    | Send(who: Lease)
    | Receive(who: Lease, receipt: Receipt, at: Stamp)
    | Crash(who: Lease)
    | Withdraw(final: RowState, code: Option<string>)
    | ForgetError

  /** Leases are fresh UUIDs; everything else is up to the environment. */
  ghost predicate Enabled(s: System, e: Event) {
    match e
    case Tick(_, _, lease, _, _) => lease !in s.usedLeases
    case Abandon(w) => w in s.workers && s.workers[w].phase == Holding
    case Begin(w, _) => w in s.workers && s.workers[w].phase == Holding
    case HandlerThrows(w, _) => w in s.workers && s.workers[w].phase == Holding
    case Send(w) => w in s.workers && s.workers[w].phase.Marked?
    case Receive(w, _, _) => w in s.workers && s.workers[w].phase == Waiting
    case Crash(w) => w in s.workers
    case Withdraw(final, _) => MayWithdraw(s.row, final)
    case ForgetError => Terminal(s.row)
  }

  function AfterTick(s: System, e: Event): System
    requires e.Tick?
  {
    var row := ClaimDue(s.row, e.now, e.until, e.lease, e.ready, e.unblocked);
    if Claims(s.row, e.now, e.ready, e.unblocked)
    then s.(row := row, workers := s.workers[e.lease := Worker(CopyOf(row, e.lease), Holding)],
            usedLeases := s.usedLeases + {e.lease})
    else s.(row := row)
  }

  function AfterBegin(s: System, w: Lease, i: Inputs): System
    requires w in s.workers
  {
    var c := s.workers[w].copy;
    var row := AfterDecision(s.row, c, i);
    if Decide(c, i).SubmitNow? && HeldBy(s.row, w)
    then s.(row := row, workers := s.workers[w := Worker(Submitted(c, i.stamp), Marked(i.stamp))],
            submissions := s.submissions + [Submission(w, i.stamp)])
    else s.(row := row, workers := s.workers - {w})
  }

  ghost function Next(s: System, e: Event): System
    requires Enabled(s, e)
  {
    match e
    case Tick(_, _, _, _, _) => AfterTick(s, e)
    case Abandon(w) => s.(row := GiveBack(s.row, w), workers := s.workers - {w})
    case Begin(w, i) => AfterBegin(s, w, i)
    case HandlerThrows(w, retryAt) =>
      s.(row := Fail(s.row, s.workers[w].copy, retryAt, "handler_exception", Retryable),
         workers := s.workers - {w})
    case Send(w) =>
      s.(workers := s.workers[w := s.workers[w].(phase := Waiting)],
         sent := s.sent + [Submission(w, s.workers[w].phase.stamp)])
    case Receive(w, receipt, at) =>
      s.(row := AfterReceipt(s.row, s.workers[w].copy, receipt, at), workers := s.workers - {w})
    case Crash(w) => s.(workers := s.workers - {w})
    case Withdraw(final, code) => s.(row := Withdrawn(s.row, final, code))
    case ForgetError => s.(row := s.row.(lastError := None))
  }

  function Start(now: int, availableAt: int, maxAttempts: nat): System {
    System(NewRow(now, availableAt, maxAttempts), map[], {}, [], [])
  }

  /** Events that are not enabled do not happen. */
  ghost function Run(s: System, es: seq<Event>): System
    decreases |es|
  {
    if es == [] then s
    else Run(if Enabled(s, es[0]) then Next(s, es[0]) else s, es[1..])
  }

  // ---------------------------------------------------------- the invariant

  /** Same boot session, and at most 90 s of elapsed realtime later. */
  predicate SoonAfter(first: Stamp, later: Stamp) {
    && later.boot == first.boot
    && first.elapsed <= later.elapsed <= first.elapsed + 90_000
  }

  ghost predicate HasMarked(s: System, w: Lease) {
    exists i :: 0 <= i < |s.submissions| && s.submissions[i].lease == w
  }

  /** A row or a copy knows of the first submission exactly. */
  ghost predicate Knows(f: First, submissions: seq<Submission>) {
    if submissions == [] then f == First(None, None, None)
    else f.at.Some? && f.elapsed == Some(submissions[0].stamp.elapsed)
         && f.boot == Some(submissions[0].stamp.boot)
  }

  ghost predicate AllSoon(submissions: seq<Submission>) {
    forall i :: 0 <= i < |submissions| ==> SoonAfter(submissions[0].stamp, submissions[i].stamp)
  }

  /** The table's own constraint on leases. */
  predicate Unleased(r: Row) {
    r.state != Claimed ==> r.lease == None && r.leaseUntil == 0 && r.submissionStarted == None
  }

  /** Every submission has used up one attempt, and a lease that has not
      submitted yet holds one attempt in reserve. */
  ghost predicate AttemptsCover(s: System) {
    && Unleased(s.row) && s.row.attempts <= s.row.maxAttempts
    && |s.submissions| <= s.row.attempts
    && (s.row.state == Claimed ==> s.row.lease.Some? && s.row.lease.value in s.usedLeases)
    && (s.row.state == Claimed && !HasMarked(s, s.row.lease.value) ==> |s.submissions| < s.row.attempts)
  }

  ghost predicate WorkerAgrees(s: System, w: Lease)
    requires w in s.workers
  {
    var worker := s.workers[w];
    && w in s.usedLeases && worker.copy.lease == w
    && (worker.phase == Holding <==> !HasMarked(s, w))
    && (worker.phase.Marked? ==> Submission(w, worker.phase.stamp) in s.submissions)
    && (HeldBy(s.row, w) ==>
          Knows(worker.copy.first, s.submissions)
          && worker.copy.attempts == s.row.attempts && worker.copy.maxAttempts == s.row.maxAttempts)
  }

  ghost predicate Inv(s: System) {
    && Knows(s.row.first, s.submissions)
    && AllSoon(s.submissions)
    && AttemptsCover(s)
    && (forall i :: 0 <= i < |s.submissions| ==> s.submissions[i].lease in s.usedLeases)
    && (forall w :: w in s.workers ==> WorkerAgrees(s, w))
    && (forall i :: 0 <= i < |s.sent| ==> s.sent[i] in s.submissions)
  }

  lemma TickKeeps(s: System, e: Event)
    requires Inv(s) && e.Tick? && Enabled(s, e)
    ensures Inv(Next(s, e))
  {
    hide AllSoon;
    var t := Next(s, e);
    assert t.submissions == s.submissions;
    assert forall w :: HasMarked(t, w) == HasMarked(s, w);
    assert !HasMarked(s, e.lease);
    hide HasMarked;
  }

  lemma BeginKeeps(s: System, w: Lease, i: Inputs)
    requires Inv(s) && Enabled(s, Begin(w, i))
    ensures Inv(Next(s, Begin(w, i)))
  {
    var c := s.workers[w].copy;
    if Decide(c, i).SubmitNow? && HeldBy(s.row, w) {
      MarkKeeps(s, w, i);
    } else {
      RowOnlyKeeps(s, Next(s, Begin(w, i)), w);
    }
  }

  lemma MarkedThen(s: System, t: System, added: Submission, v: Lease)
    requires t.submissions == s.submissions + [added]
    ensures HasMarked(t, v) == (HasMarked(s, v) || v == added.lease)
  {
    assert t.submissions[|s.submissions|] == added;
    if k :| 0 <= k < |s.submissions| && s.submissions[k].lease == v {
      assert t.submissions[k].lease == v;
    }
  }

  /** A submission after the first is soon after it. */
  lemma MarkIsSoon(s: System, w: Lease, i: Inputs)
    requires Inv(s) && Enabled(s, Begin(w, i))
    requires Decide(s.workers[w].copy, i).SubmitNow? && HeldBy(s.row, w)
    ensures s.submissions != [] ==> SoonAfter(s.submissions[0].stamp, i.stamp)
    ensures AllSoon(s.submissions + [Submission(w, i.stamp)])
  {
    hide Markable, SubmissionLeaseUntil;
    if s.submissions != [] {
      assert s.workers[w].copy.attempts >= 2;
    }
  }

  lemma MarkKeeps(s: System, w: Lease, i: Inputs)
    requires Inv(s) && Enabled(s, Begin(w, i))
    requires Decide(s.workers[w].copy, i).SubmitNow? && HeldBy(s.row, w)
    ensures Inv(Next(s, Begin(w, i)))
  {
    var c, t := s.workers[w].copy, Next(s, Begin(w, i));
    var added := Submission(w, i.stamp);
    SubmitIsMarkable(c, i);
    MarkIsSoon(s, w, i);
    hide AllSoon, Markable, Decide, HasMarked;
    assert t.submissions == s.submissions + [added];
    forall v ensures HasMarked(t, v) == (HasMarked(s, v) || v == w) {
      MarkedThen(s, t, added, v);
    }
  }

  /** The row may leave the claimed state, and one worker may retire. */
  lemma RowOnlyKeeps(s: System, t: System, w: Lease)
    requires Inv(s) && w in s.workers && t.workers == s.workers - {w}
    requires t == s.(row := t.row, workers := t.workers)
    requires t.row == s.row
          || (t.row.state != Claimed && Unleased(t.row) && t.row.first == s.row.first && t.row.maxAttempts == s.row.maxAttempts
              && (t.row.attempts == s.row.attempts
                  || (HeldBy(s.row, w) && s.workers[w].phase == Holding && t.row.attempts == s.row.attempts - 1)))
    ensures Inv(t)
  {
    assert forall v :: HasMarked(t, v) == HasMarked(s, v);
  }

  lemma SendKeeps(s: System, w: Lease)
    requires Inv(s) && Enabled(s, Send(w))
    ensures Inv(Next(s, Send(w)))
  {
    var t := Next(s, Send(w));
    assert forall v :: HasMarked(t, v) == HasMarked(s, v);
    assert Submission(w, s.workers[w].phase.stamp) in s.submissions;
  }

  lemma StepKeeps(s: System, e: Event)
    requires Inv(s) && Enabled(s, e)
    ensures Inv(Next(s, e))
  {
    match e
    case Tick(_, _, _, _, _) => TickKeeps(s, e);
    case Begin(w, i) => BeginKeeps(s, w, i);
    case Send(w) => SendKeeps(s, w);
    case Abandon(w) => RowOnlyKeeps(s, Next(s, e), w);
    case HandlerThrows(w, _) => RowOnlyKeeps(s, Next(s, e), w);
    case Receive(w, _, _) => RowOnlyKeeps(s, Next(s, e), w);
    case Crash(w) => RowOnlyKeeps(s, Next(s, e), w);
    case Withdraw(_, _) =>
      assert forall v :: HasMarked(Next(s, e), v) == HasMarked(s, v);
    case ForgetError =>
      assert forall v :: HasMarked(Next(s, e), v) == HasMarked(s, v);
  }

  // -------------------------------------------------------- every call once

  ghost predicate DistinctLeases(xs: seq<Submission>) {
    forall i, j :: 0 <= i < j < |xs| ==> xs[i].lease != xs[j].lease
  }

  /** No mark and no provider call is made twice under one lease. */
  ghost predicate Once(s: System) {
    && DistinctLeases(s.submissions)
    && DistinctLeases(s.sent)
    && (forall w, i :: w in s.workers && s.workers[w].phase.Marked? && 0 <= i < |s.sent| ==> s.sent[i].lease != w)
  }

  lemma StepKeepsOnce(s: System, e: Event)
    requires Inv(s) && Once(s) && Enabled(s, e)
    ensures Once(Next(s, e))
  {
    hide ClaimDue, AfterDecision, AfterReceipt, Fail, GiveBack, Decide, AllSoon, AttemptsCover, Knows;
    match e
    case Begin(w, i) =>
      assert !HasMarked(s, w);
      forall k | 0 <= k < |s.sent| ensures s.sent[k].lease != w {
        assert s.sent[k] in s.submissions;
      }
    case _ =>
  }

  /** The row of a worker waiting for its receipt is marked as long as it is held. */
  ghost predicate MarkedWhileHeld(s: System) {
    s.row.state == Claimed && HasMarked(s, s.row.lease.GetOr(Lease("", ""))) ==> s.row.submissionStarted.Some?
  }

  lemma SubmitIsMarkable(c: Claim, i: Inputs)
    ensures Decide(c, i).SubmitNow? ==> Markable(i.stamp, Decide(c, i).leaseUntil)
  {
  }

  lemma StepKeepsMarked(s: System, e: Event)
    requires Inv(s) && MarkedWhileHeld(s) && Enabled(s, e)
    ensures MarkedWhileHeld(Next(s, e))
  {
    hide Decide, AllSoon, Knows, Markable;
    var t := Next(s, e);
    match e
    case Tick(_, _, lease, _, _) =>
      assert forall v :: HasMarked(t, v) == HasMarked(s, v);
      assert !HasMarked(s, lease);
    case Begin(w, i) =>
      SubmitIsMarkable(s.workers[w].copy, i);
      if t.submissions != s.submissions {
        assert t.row.submissionStarted.Some?;
      } else {
        assert forall v :: HasMarked(t, v) == HasMarked(s, v);
      }
    case _ =>
      assert forall v :: HasMarked(t, v) == HasMarked(s, v);
  }

  ghost predicate Consistent(s: System) { Inv(s) && Once(s) && MarkedWhileHeld(s) }

  /** Every state of every run is consistent. */
  lemma {:induction false} RunsAreConsistent(s: System, es: seq<Event>)
    requires Consistent(s)
    ensures Consistent(Run(s, es))
    decreases |es|
  {
    hide Inv, Once, MarkedWhileHeld, Next;
    if es != [] {
      if Enabled(s, es[0]) {
        StepKeeps(s, es[0]);
        StepKeepsOnce(s, es[0]);
        StepKeepsMarked(s, es[0]);
      }
      RunsAreConsistent(if Enabled(s, es[0]) then Next(s, es[0]) else s, es[1..]);
    }
  }

  lemma {:induction false} DistinctWithin(xs: seq<Submission>, ys: seq<Submission>)
    requires DistinctLeases(xs)
    requires forall i :: 0 <= i < |xs| ==> xs[i] in ys
    ensures |xs| <= |ys|
    decreases |xs|
  {
    if xs != [] {
      var x := xs[0];
      var k :| 0 <= k < |ys| && ys[k] == x;
      var rest := ys[..k] + ys[k + 1..];
      forall i | 0 <= i < |xs| - 1 ensures xs[1..][i] in rest {
        var j :| 0 <= j < |ys| && ys[j] == xs[i + 1];
        assert rest[if j < k then j else j - 1] == ys[j];
      }
      DistinctWithin(xs[1..], rest);
    }
  }

  // --------------------------------------------------------------- theorems

  /** Across crashes, reboots, clock jumps and lost leases: every provider call
      carries the boot session of the first submission and a stamp at most 90 s
      of elapsed realtime after it, and there are at most `maxAttempts` calls. */
  lemma SubmissionsStayInNonceWindow(now: int, availableAt: int, maxAttempts: nat, es: seq<Event>)
    ensures var s := Run(Start(now, availableAt, maxAttempts), es);
            && |s.sent| <= |s.submissions| <= maxAttempts
            && forall i :: 0 <= i < |s.sent| ==> SoonAfter(s.submissions[0].stamp, s.sent[i].stamp)
  {
    var s := Run(Start(now, availableAt, maxAttempts), es);
    RunsAreConsistent(Start(now, availableAt, maxAttempts), es);
    RunsGrow(Start(now, availableAt, maxAttempts), es);
    DistinctWithin(s.sent, s.submissions);
  }

  /** The record of submissions is only ever appended to. */
  lemma {:induction false} RunsGrow(s: System, es: seq<Event>)
    ensures s.submissions <= Run(s, es).submissions && s.sent <= Run(s, es).sent
    ensures Run(s, es).row.maxAttempts == s.row.maxAttempts
    decreases |es|
  {
    if es != [] {
      RunsGrow(if Enabled(s, es[0]) then Next(s, es[0]) else s, es[1..]);
    }
  }

  predicate WorkerEvent(e: Event) {
    e.Begin? || e.Send? || e.Receive? || e.Abandon? || e.HandlerThrows? || e.Crash?
  }

  /** A worker that has lost its lease changes no row and marks nothing; if it
      had marked before, its provider call still goes out, once, and belongs to
      that mark. */
  lemma LostLeaseIsHarmless(s: System, e: Event)
    requires WorkerEvent(e) && Inv(s) && Enabled(s, e) && !HeldBy(s.row, e.who)
    ensures Next(s, e).row == s.row && Next(s, e).submissions == s.submissions
    ensures Next(s, e).sent == if e.Send? then s.sent + [Submission(e.who, s.workers[e.who].phase.stamp)] else s.sent
    ensures e.Send? ==> Submission(e.who, s.workers[e.who].phase.stamp) in s.submissions
  {
  }

  /** What the holder's receipt does, with the window measured from the first
      submission of the row. */
  lemma ReceiptDecides(s: System, w: Lease, receipt: Receipt, at: Stamp)
    requires Consistent(s) && Enabled(s, Receive(w, receipt, at)) && HeldBy(s.row, w)
    ensures s.submissions != []
    ensures var row, soon := Next(s, Receive(w, receipt, at)).row, SoonAfter(s.submissions[0].stamp, at);
            if receipt.result == Success && receipt.messageId == Some(0) then
              row == s.row
            else if receipt.result == Success && receipt.messageId.Some? then
              row.state == Delivered && row.messageId == receipt.messageId && row.lastError.None? && row.lease.None?
            else if !soon || receipt.result == PermanentFailure then
              row.state == Failed && row.lease.None? && row.lastError == Some(FinalCode(receipt))
            else
              Retried(s.row, row, at.wall + RetryDelayMs(s.row.attempts),
                      if receipt.result == Transient then "discord_transient" else "discord_unknown_outcome")
  {
    assert HasMarked(s, w);
    hide AllSoon, WithinNonceWindow, SoonAfter;
    WindowIs(s, w, at);
  }

  /** The window as the holder of a submitted row measures it. */
  lemma WindowIs(s: System, w: Lease, at: Stamp)
    requires Inv(s) && w in s.workers && HeldBy(s.row, w) && s.submissions != []
    ensures var c := s.workers[w].copy;
            c.first.at.Some? && (WithinNonceWindow(c.first, at) <==> SoonAfter(s.submissions[0].stamp, at))
  {
    hide AllSoon;
  }

  /** The code of a row that a receipt fails for good. */
  function FinalCode(receipt: Receipt): string {
    match receipt.result
    case PermanentFailure => "discord_permanent"
    case Transient => "discord_retry_window_expired"
    case _ => "discord_unknown_outcome_stale"
  }

  /** Failed with this code: to be retried not before `at` while attempts are left, else dead. */
  predicate Retried(before: Row, after: Row, at: int, code: string) {
    && after.lastError == Some(code) && after.lease.None? && after.attempts == before.attempts
    && (if before.attempts < before.maxAttempts then after.state == Pending && after.availableAt == Max(at, before.createdAt)
        else after.state == Dead)
  }

  predicate Confirms(r: Receipt) {
    r.result == Success && r.messageId.Some? && r.messageId.value != 0
  }

  /** Delivered is reached only through a success receipt with a message id, to
      the lease holder, after it has marked its submission. */
  lemma DeliveredOnlyByReceipt(s: System, e: Event)
    requires Inv(s) && Enabled(s, e)
    requires s.row.state != Delivered && Next(s, e).row.state == Delivered
    ensures e.Receive? && Confirms(e.receipt) && Next(s, e).row.messageId == e.receipt.messageId
    ensures HeldBy(s.row, e.who) && HasMarked(s, e.who)
  {
  }

  predicate Terminal(r: Row) { r.state in {Delivered, Failed, Dead, Cancelled} }

  /** Only the error code may still be cleared or replaced, and only a failed row
      may still become cancelled. */
  predicate StaysSettled(before: Row, after: Row) {
    && after == before.(state := after.state, lastError := after.lastError)
    && (after.state == before.state || (before.state == Failed && after.state == Cancelled))
  }

  /** A terminal row is never claimed, marked or delivered again. */
  lemma {:induction false} TerminalForEver(s: System, es: seq<Event>)
    requires Inv(s) && Terminal(s.row)
    ensures StaysSettled(s.row, Run(s, es).row) && Run(s, es).submissions == s.submissions
    decreases |es|
  {
    hide Inv, Next, Enabled;
    if es != [] {
      var t := if Enabled(s, es[0]) then Next(s, es[0]) else s;
      if Enabled(s, es[0]) {
        StepKeeps(s, es[0]);
        TerminalStep(s, es[0]);
      }
      TerminalForEver(t, es[1..]);
    }
  }

  lemma TerminalStep(s: System, e: Event)
    requires Inv(s) && Terminal(s.row) && Enabled(s, e)
    ensures StaysSettled(s.row, Next(s, e).row) && Next(s, e).submissions == s.submissions
    ensures Next(s, e).row.state != s.row.state <==> s.row.state == Failed && e.Withdraw? && e.final == Cancelled
  {
  }

  lemma RunFirst(s: System, e: Event, rest: seq<Event>)
    requires Enabled(s, e)
    ensures Run(s, [e] + rest) == Run(Next(s, e), rest)
  {
    hide Next, Enabled;
    assert ([e] + rest)[0] == e && ([e] + rest)[1..] == rest;
  }

  lemma {:induction false} RunBoth(s: System, first: seq<Event>, second: seq<Event>)
    ensures Run(s, first + second) == Run(Run(s, first), second)
    decreases |first|
  {
    hide Next, Enabled;
    if first == [] {
      assert first + second == second;
    } else {
      RunBoth(if Enabled(s, first[0]) then Next(s, first[0]) else s, first[1..], second);
      assert (first + second)[1..] == first[1..] + second;
    }
  }

  /** Claimed, marked, sent, and answered with a permanent failure. */
  lemma RunToFailure(s: System, w: Lease, stamp: Stamp) returns (es: seq<Event>)
    requires s == Start(0, 0, 3) && stamp == Stamp(1, 1, "x")
    ensures Run(s, es).row.state == Failed
  {
    var tick := Tick(1, 100, w, true, true);
    var begin := Begin(w, Inputs(1, true, true, false, true, stamp, false, 1_000, 1));
    var receive := Receive(w, Receipt(PermanentFailure, None), stamp);
    var s1 := Next(s, tick);
    var s2 := Next(s1, begin);
    var s3 := Next(s2, Send(w));
    assert s2.workers[w].phase == Marked(stamp);
    assert Enabled(s3, receive) && Next(s3, receive).row.state == Failed;
    hide Next;
    es := [tick] + ([begin] + ([Send(w)] + ([receive] + [])));
    RunFirst(s, tick, [begin] + ([Send(w)] + ([receive] + [])));
    RunFirst(s1, begin, [Send(w)] + ([receive] + []));
    RunFirst(s2, Send(w), [receive] + []);
    RunFirst(s3, receive, []);
  }

  /** It does happen: a permanent failure, then the withdrawal of its notice. */
  lemma FailedRowCanBeCancelled() returns (es: seq<Event>, e: Event)
    ensures Run(Start(0, 0, 3), es).row.state == Failed
    ensures Run(Start(0, 0, 3), es + [e]).row.state == Cancelled
  {
    var start := Start(0, 0, 3);
    es := RunToFailure(start, Lease("a", "b"), Stamp(1, 1, "x"));
    e := Withdraw(Cancelled, None);
    RunBoth(start, es, [e]);
    RunFirst(Run(start, es), e, []);
    assert [e] + [] == [e];
  }

  /** The event at `k` is a receipt that confirms this message id. */
  predicate ConfirmedAt(es: seq<Event>, k: nat, id: Option<nat>) {
    k < |es| && es[k].Receive? && Confirms(es[k].receipt) && es[k].receipt.messageId == id
  }

  /** So a row that a run leaves delivered carries the message id of a success
      receipt of that run. */
  lemma {:induction false} DeliveredHasReceipt(s: System, es: seq<Event>) returns (k: nat)
    requires Inv(s) && s.row.state != Delivered && Run(s, es).row.state == Delivered
    ensures ConfirmedAt(es, k, Run(s, es).row.messageId)
    decreases |es|
  {
    hide Inv, Next, Enabled;
    assert es != [];
    if Enabled(s, es[0]) {
      StepKeeps(s, es[0]);
      var t := Next(s, es[0]);
      if t.row.state == Delivered {
        DeliveredOnlyByReceipt(s, es[0]);
        TerminalForEver(t, es[1..]);
        k := 0;
      } else {
        k := DeliveredHasReceipt(t, es[1..]);
        k := k + 1;
      }
    } else {
      k := DeliveredHasReceipt(s, es[1..]);
      k := k + 1;
    }
  }

  /** A last attempt that was submitted and then lost is quarantined by the next
      tick after its lease, whether or not Discord is ready. */
  lemma LostLastAttemptIsQuarantined(s: System, e: Event)
    requires e.Tick? && Enabled(s, e) && s.row.state == Claimed && s.row.leaseUntil <= e.now
    requires s.row.attempts >= s.row.maxAttempts && s.row.submissionStarted.Some?
    ensures Next(s, e).row.state == Failed && Next(s, e).workers == s.workers
    ensures Next(s, e).row.lastError == Some("discord_unknown_outcome_stale")
  {
  }

  // --------------------------------- what each tick, worker and receipt does

  /** A submitted last attempt whose lease has run out. */
  predicate LostLast(r: Row, now: int) {
    r.state == Claimed && r.leaseUntil <= now && r.attempts >= r.maxAttempts && r.submissionStarted.Some?
  }

  /** The four outcomes of a tick, each exactly when it is due. */
  lemma TickDecides(s: System, e: Event)
    requires Inv(s) && e.Tick? && Enabled(s, e)
    ensures var r, t := s.row, Next(s, e);
            var waits := (r.state == Pending && r.availableAt <= e.now) || (r.state == Claimed && r.leaseUntil <= e.now);
            && (t.workers != s.workers <==> waits && r.attempts < r.maxAttempts && e.ready && e.unblocked)
            && (t.workers != s.workers ==>
                  && t.workers == s.workers[e.lease := Worker(CopyOf(t.row, e.lease), Holding)]
                  && HeldBy(t.row, e.lease) && t.row.leaseUntil == e.until && t.row.attempts == r.attempts + 1
                  && t.row.first == r.first && t.row.submissionStarted == r.submissionStarted)
            && (t.row.state == Failed <==> r.state == Failed || LostLast(r, e.now))
            && (t.row.state == Dead <==>
                  r.state == Dead || (waits && r.attempts >= r.maxAttempts && e.ready && !LostLast(r, e.now)))
            && (t.row != r ==> t.workers != s.workers || t.row.state in {Failed, Dead})
            && (t.row.state == Failed && r.state == Claimed ==> t.row.lastError == Some("discord_unknown_outcome_stale"))
            && (t.row.state == Dead && r.state != Dead ==> t.row.lastError == Some("attempts_exhausted"))
  {
    UnusedIsNoWorker(s, e.lease);
    hide Inv;
    TickHands(s, e);
  }

  lemma TickHands(s: System, e: Event)
    requires e.Tick? && Enabled(s, e)
    ensures Claims(s.row, e.now, e.ready, e.unblocked) && e.lease !in s.workers ==> Next(s, e).workers != s.workers
  {
    if Claims(s.row, e.now, e.ready, e.unblocked) && e.lease !in s.workers {
      assert e.lease in Next(s, e).workers;
    }
  }

  /** Clock values with which a mark is accepted and its lease fits int64. */
  predicate ClockOk(i: Inputs) {
    && i.stamp.wall >= 0 && i.stamp.elapsed >= 0
    && 1 <= |i.stamp.boot| <= 64
    && (forall k :: 0 <= k < |i.stamp.boot| ==>
          'a' <= i.stamp.boot[k] <= 'z' || '0' <= i.stamp.boot[k] <= '9' || i.stamp.boot[k] == '-')
    && i.stamp.wall + i.receiptTimeoutMs + 10_000 <= INT64_MAX
  }

  predicate Injected(r: Row, i: Inputs) { i.injectFailure && r.attempts == 1 }

  /** The first submission of the row is too long ago, or of another boot session. */
  predicate TooLate(s: System, i: Inputs) {
    s.submissions != [] && !SoonAfter(s.submissions[0].stamp, i.stamp)
  }

  predicate Sends(s: System, i: Inputs) {
    && i.payloadOk && i.inScope && !Injected(s.row, i) && i.ready && !TooLate(s, i) && !i.stopping && ClockOk(i)
  }

  /** The holder's copy knows what the decision needs. */
  lemma CopySees(s: System, w: Lease, i: Inputs)
    requires Inv(s) && Enabled(s, Begin(w, i)) && HeldBy(s.row, w)
    ensures var c := s.workers[w].copy;
            && c.attempts == s.row.attempts && c.maxAttempts == s.row.maxAttempts && c.lease == w && 1 <= c.attempts
            && (c.first.at.Some? && c.attempts > 1 && !WithinNonceWindow(c.first, i.stamp) <==> TooLate(s, i))
  {
    hide AllSoon;
  }

  lemma LeaseIs(i: Inputs)
    requires i.receiptTimeoutMs > 0
    ensures var until := SubmissionLeaseUntil(i.stamp.wall, i.receiptTimeoutMs);
            && (until.Some? && Markable(i.stamp, until.value) <==> ClockOk(i))
            && (until.Some? ==> until.value == i.stamp.wall + i.receiptTimeoutMs + 10_000)
  {
  }

  /** A begin submits the row exactly when the payload is valid and in scope, no
      failure is injected, Discord is ready, the row was never submitted or is
      inside its window, nothing is stopping and the clock is sane. */
  lemma BeginSubmits(s: System, w: Lease, i: Inputs)
    requires Inv(s) && Enabled(s, Begin(w, i)) && HeldBy(s.row, w) && i.receiptTimeoutMs > 0
    ensures Next(s, Begin(w, i)).submissions == s.submissions + if Sends(s, i) then [Submission(w, i.stamp)] else []
    ensures Sends(s, i) <==> Decide(s.workers[w].copy, i).SubmitNow?
    ensures Sends(s, i) ==> Next(s, Begin(w, i)).workers == s.workers[w := Worker(Submitted(s.workers[w].copy, i.stamp), Marked(i.stamp))]
    ensures !Sends(s, i) ==> Next(s, Begin(w, i)).workers == s.workers - {w}
  {
    CopySees(s, w, i);
    LeaseIs(i);
    hide Inv, Markable, SubmissionLeaseUntil, TooLate, ClockOk, WithinNonceWindow, SoonAfter;
  }

  /** Back to pending with the attempt returned, unless a lost submission of an
      earlier lease is still recorded: then nothing changes and the lease runs out. */
  predicate HandedBack(before: Row, after: Row) {
    if before.submissionStarted.Some? then after == before
    else
      && after == before.(state := Pending, attempts := after.attempts, lease := None, leaseUntil := 0)
      && after.attempts + 1 == before.attempts
  }

  /** And what every begin of the holder does to the row, in the order of the tests. */
  lemma BeginDecides(s: System, w: Lease, i: Inputs)
    requires Inv(s) && Enabled(s, Begin(w, i)) && HeldBy(s.row, w) && i.receiptTimeoutMs > 0
    ensures var r, after := s.row, Next(s, Begin(w, i)).row;
            if !i.payloadOk then after.state == Dead && after.lastError == Some("payload_invalid")
            else if !i.inScope then after.state == Dead && after.lastError == Some("scope_rejected")
            else if Injected(r, i) then Retried(r, after, i.now + 5_000, "test_injected_transient")
            else if !i.ready then HandedBack(r, after)
            else if TooLate(s, i) then
              && after.state == Failed
              && after.lastError == Some(
                   if s.workers[w].copy.submissionStarted.Some? || s.workers[w].copy.lastError == Some("discord_unknown_outcome")
                   then "discord_unknown_outcome_stale" else "discord_retry_window_expired")
            else if i.stopping then HandedBack(r, after)
            else if !ClockOk(i) then Retried(r, after, i.caughtAt + RetryDelayMs(r.attempts), "handler_exception")
            else
              && HeldBy(after, w) && after.submissionStarted == Some(Max(i.stamp.wall, r.createdAt))
              && after.leaseUntil == Max(r.leaseUntil, i.stamp.wall + i.receiptTimeoutMs + 10_000)
              && after.attempts == r.attempts && after.first.at.Some?
              && (r.first.at.Some? ==> after.first == r.first)
  {
    CopySees(s, w, i);
    LeaseIs(i);
    KnownFirst(s);
    hide Inv, SubmissionLeaseUntil, TooLate, ClockOk, WithinNonceWindow, SoonAfter;
  }

  lemma KnownFirst(s: System)
    requires Inv(s)
    ensures s.row.first.at.Some? ==> s.row.first.elapsed.Some? && s.row.first.boot.Some?
  {
  }

  /** A lease marked for a submission outlasts the wait for its receipt: no tick
      takes the row over, or gives it up, before the wait has ended. */
  lemma LeaseOutlastsWait(s: System, w: Lease, i: Inputs, e: Event)
    requires Inv(s) && Enabled(s, Begin(w, i)) && HeldBy(s.row, w) && i.receiptTimeoutMs > 0 && Sends(s, i)
    requires e.Tick? && Enabled(Next(s, Begin(w, i)), e) && e.now <= i.stamp.wall + i.receiptTimeoutMs
    ensures Next(Next(s, Begin(w, i)), e) == Next(s, Begin(w, i))
  {
    BeginDecides(s, w, i);
    hide Inv, Sends, Decide;
  }

  lemma SentThenConfirmed(s: System, w: Lease, id: nat, at: Stamp)
    requires Inv(s) && w in s.workers && s.workers[w].phase.Marked? && id != 0
    requires HeldBy(s.row, w) && s.row.submissionStarted.Some?
    ensures var receive := Receive(w, Receipt(Success, Some(id)), at);
            && Enabled(s, Send(w)) && Enabled(Next(s, Send(w)), receive)
            && Next(Next(s, Send(w)), receive).row.state == Delivered
            && Next(Next(s, Send(w)), receive).row.messageId == Some(id)
  {
    hide HasMarked, AllSoon, Knows;
    var t := Next(s, Send(w));
    assert t.row == s.row && t.workers[w].phase == Waiting && t.workers[w].copy.lease == w;
    assert Next(t, Receive(w, Receipt(Success, Some(id)), at)).row == Complete(t.row, w, id);
  }

  /** When all goes well a due row is delivered by its next four events. */
  lemma DeliversWhenAllGoesWell(s: System, e: Event, i: Inputs, id: nat, at: Stamp)
    requires Inv(s) && e.Tick? && Enabled(s, e) && e.ready && e.unblocked
    requires s.row.state == Pending && s.row.availableAt <= e.now && s.row.attempts < s.row.maxAttempts
    requires i.receiptTimeoutMs > 0 && i.payloadOk && i.inScope && !i.injectFailure && i.ready && !i.stopping && ClockOk(i)
    requires !TooLate(s, i) && id != 0
    ensures var es := [e, Begin(e.lease, i), Send(e.lease), Receive(e.lease, Receipt(Success, Some(id)), at)];
            Run(s, es).row.state == Delivered && Run(s, es).row.messageId == Some(id)
  {
    hide Inv;
    var begin, send := Begin(e.lease, i), Send(e.lease);
    var receive := Receive(e.lease, Receipt(Success, Some(id)), at);
    assert e.lease !in s.workers by { UnusedIsNoWorker(s, e.lease); }
    TickDecides(s, e);
    TickHands(s, e);
    StepKeeps(s, e);
    var s1 := Next(s, e);
    assert s1.submissions == s.submissions;
    BeginSubmits(s1, e.lease, i);
    BeginDecides(s1, e.lease, i);
    var s2 := Next(s1, begin);
    StepKeeps(s1, begin);
    SentThenConfirmed(s2, e.lease, id, at);
    var s3 := Next(s2, send);
    hide Next, Enabled;
    var es := [e] + ([begin] + ([send] + ([receive] + [])));
    assert es == [e, begin, send, receive];
    RunFirst(s, e, [begin] + ([send] + ([receive] + [])));
    RunFirst(s1, begin, [send] + ([receive] + []));
    RunFirst(s2, send, [receive] + []);
    RunFirst(s3, receive, []);
  }

  lemma UnusedIsNoWorker(s: System, w: Lease)
    requires Inv(s) && w !in s.usedLeases
    ensures w !in s.workers
  {
  }

  /** A withdrawal ends a waiting, claimed or failed row as cancelled and a submitted
      one as failed, and takes the lease from its holder; it changes no other row. */
  lemma WithdrawDecides(r: Row, final: RowState, code: Option<string>)
    requires final in {Cancelled, Failed}
    ensures var after := Withdrawn(r, final, code);
            if (final == Cancelled && r.state in {Pending, Claimed, Failed}) || (r.state == Claimed && r.submissionStarted.Some?)
            then after.state == final && after.lease.None? && after.submissionStarted.None? && after.messageId == r.messageId
                 && after.lastError == (if code.None? then r.lastError else code)
            else after == r
  {
  }
}
