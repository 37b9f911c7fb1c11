/** The task row, its status table, and the effect of every commit on the row.

    Each function gives the row after one commit; class `TaskRecord` holds the same row as mutable
    fields and is proved against these functions.  Times are integers, tokens are opaque numbers. */
module TaskRows {
  import opened Options

  datatype Status = Queued | Running | Succeeded | Failed | Cancelled | Stale

  predicate Terminal(s: Status) {
    s.Succeeded? || s.Failed? || s.Cancelled? || s.Stale?
  }

  /** The published transition table. */
  function Transitions(s: Status): set<Status> {
    match s
    case Queued => {Queued, Running, Failed, Cancelled}
    case Running => {Running, Succeeded, Failed, Cancelled, Stale}
    case _ => {s}
  }

  type Token = nat

  datatype Row = Row(
    status: Status,
    hasPrompt: bool,
    conversation: Option<nat>,
    attempts: nat,
    maxAttempts: nat,
    token: Option<Token>,
    lease: Option<int>,
    deadline: Option<int>,
    nextAttempt: Option<int>,
    replayBlocked: Option<int>,
    heartbeat: Option<int>,
    started: Option<int>,
    finished: Option<int>,
    progress: int
  )

  /** Whether a nullable time is set and has passed. */
  predicate Passed(t: Option<int>, now: int) {
    t.Some? && t.value <= now
  }

  const DEFAULT_DEADLINE_SECONDS := 900
  const MAX_RETRY_SECONDS := 3600

  // ----- claiming -----

  /** The four reasons for which a queued task is failed instead of started. */
  predicate Refused(r: Row, now: int) {
    || !r.hasPrompt
    || Passed(r.deadline, now)
    || r.attempts >= r.maxAttempts
    || r.replayBlocked.Some?
  }

  predicate Claimable(r: Row, now: int) {
    && r.status == Queued
    && !Refused(r, now)
    && !(r.nextAttempt.Some? && r.nextAttempt.value > now)
  }

  function FailedRow(r: Row, now: int): Row {
    r.(status := Failed, finished := Some(now), nextAttempt := None, lease := None, token := None)
  }

  function ClaimedRow(r: Row, token: Token, conversation: nat, now: int, leaseSeconds: nat): Row {
    var deadline := r.deadline.GetOr(now + DEFAULT_DEADLINE_SECONDS);
    Row(Running, r.hasPrompt, Some(r.conversation.GetOr(conversation)), r.attempts + 1, r.maxAttempts,
        Some(token), Some(Min(now + leaseSeconds, deadline)), Some(deadline), None, r.replayBlocked,
        Some(now), Some(r.started.GetOr(now)), None, 1)
  }

  function AfterClaim(r: Row, token: Token, conversation: nat, now: int, leaseSeconds: nat): Row {
    if Claimable(r, now) then ClaimedRow(r, token, conversation, now, leaseSeconds)
    else if r.status == Queued && Refused(r, now) then FailedRow(r, now)
    else r
  }

  // ----- writes made under a lease -----

  /** The fencing check: the row still runs under `token` and, for live checks, neither the lease
      nor the deadline has passed. */
  predicate Owns(r: Row, token: Token, now: int, live: bool) {
    && r.status == Running
    && r.token == Some(token)
    && (live ==> r.lease.Some? && !Passed(r.lease, now) && !Passed(r.deadline, now))
  }

  function AfterHeartbeat(r: Row, token: Token, now: int, leaseSeconds: nat): Row {
    if Owns(r, token, now, true) && r.deadline.Some?
    then r.(heartbeat := Some(now), lease := Some(Min(now + leaseSeconds, r.deadline.value)))
    else r
  }

  function AfterEvent(r: Row, token: Token, now: int, progress: int): Row {
    if Owns(r, token, now, true) then r.(progress := Max(r.progress, Min(progress, 95))) else r
  }

  function Blocked(r: Row, now: int): Row {
    r.(replayBlocked := Some(r.replayBlocked.GetOr(now)))
  }

  function AfterBlock(r: Row, token: Token, now: int): Row {
    if Owns(r, token, now, true) then Blocked(r, now) else r
  }

  function AfterSuccess(r: Row, token: Token, now: int): Row {
    if Owns(r, token, now, true)
    then r.(status := Succeeded, progress := 100, finished := Some(now), lease := None, token := None)
    else r
  }

  function Pow2(n: nat): nat {
    if n == 0 then 1 else 2 * Pow2(n - 1)
  }

  /** Upper end of the back-off; the jittered delay lies between half of it and all of it. */
  function Backoff(attempts: nat, base: nat): nat {
    var factor := Pow2(if attempts == 0 then 0 else attempts - 1);
    if base * factor <= MAX_RETRY_SECONDS then base * factor else MAX_RETRY_SECONDS
  }

  /** Ending an attempt that did not succeed: only the token is checked, not the lease. */
  function AfterFinish(r: Row, token: Token, now: int, retryAt: int, retryable: bool): Row {
    if !Owns(r, token, now, false) then r
    else if r.replayBlocked.Some? || Passed(r.deadline, retryAt) then FailedRow(r, now)
    else if retryable && r.attempts < r.maxAttempts
    then r.(status := Queued, finished := None, nextAttempt := Some(retryAt), lease := None, token := None)
    else FailedRow(r, now)
  }

  // ----- writes made by others -----

  function AtLeastOne(n: nat): nat {
    if n == 0 then 1 else n
  }

  predicate Recoverable(r: Row, now: int) {
    r.status == Running && (r.lease.None? || Passed(r.lease, now))
  }

  function AfterRecovery(r: Row, now: int): Row {
    if !Recoverable(r, now) then r
    else if && AtLeastOne(r.attempts) < AtLeastOne(r.maxAttempts)
            && r.replayBlocked.None?
            && !Passed(r.deadline, now)
    then r.(status := Queued, finished := None, nextAttempt := Some(now), lease := None, token := None)
    else r.(status := Stale, finished := Some(now), nextAttempt := None, lease := None, token := None)
  }

  function AfterCancel(r: Row, now: int): Row {
    if Cancelled !in Transitions(r.status) then r
    else r.(status := Cancelled,
            finished := Some(r.finished.GetOr(now)),
            token := None, lease := None, nextAttempt := None)
  }

  // ----- the mutable row -----

  /** One locked row.  Every method is one transaction: lock, re-read, check, write, commit. */
  class TaskRecord {
    var status: Status
    const hasPrompt: bool
    var conversation: Option<nat>
    var attempts: nat
    const maxAttempts: nat
    var token: Option<Token>
    var lease: Option<int>
    var deadline: Option<int>
    var nextAttempt: Option<int>
    var replayBlocked: Option<int>
    var heartbeat: Option<int>
    var started: Option<int>
    var finished: Option<int>
    var progress: int

    ghost function Snapshot(): Row
      reads this
    {
      Row(status, hasPrompt, conversation, attempts, maxAttempts, token, lease, deadline, nextAttempt,
          replayBlocked, heartbeat, started, finished, progress)
    }

    /** The row as the create endpoint inserts it. */
    constructor (prompt: bool, conversation: Option<nat>, maxAttempts: nat, due: int, deadline: int)
      ensures Snapshot() == NewRow(prompt, conversation, maxAttempts, due, Some(deadline))
      ensures status == Queued && hasPrompt == prompt && this.conversation == conversation
      ensures attempts == 0 && this.maxAttempts == maxAttempts && nextAttempt == Some(due) && this.deadline == Some(deadline)
      ensures token == None && lease == None && replayBlocked == None && finished == None && progress == 0
    {
      status, hasPrompt, this.conversation := Queued, prompt, conversation;
      attempts, this.maxAttempts := 0, maxAttempts;
      token, lease, this.deadline := None, None, Some(deadline);
      nextAttempt, replayBlocked := Some(due), None;
      heartbeat, started, finished, progress := None, None, None, 0;
    }

    method FinishFailed(now: int)
      modifies this
      ensures Snapshot() == FailedRow(old(Snapshot()), now)
    {
      status := Failed;
      finished := Some(now);
      nextAttempt := None;
      lease := None;
      token := None;
    }

    /** The field updates of a successful claim. */
    method Start(freshToken: Token, freshConversation: nat, now: int, leaseSeconds: nat)
      modifies this
      ensures Snapshot() == ClaimedRow(old(Snapshot()), freshToken, freshConversation, now, leaseSeconds)
    {
      var limit := deadline.GetOr(now + DEFAULT_DEADLINE_SECONDS);
      conversation := Some(conversation.GetOr(freshConversation));
      status := Running;
      token := Some(freshToken);
      progress := 1;
      attempts := attempts + 1;
      started := Some(started.GetOr(now));
      finished := None;
      nextAttempt := None;
      deadline := Some(limit);
      heartbeat := Some(now);
      lease := Some(Min(now + leaseSeconds, limit));
    }

    /** The first transaction of a worker: start the task, fail it, or leave it for later. */
    method Claim(freshToken: Token, freshConversation: nat, now: int, leaseSeconds: nat) returns (claimed: bool)
      modifies this
      ensures claimed == Claimable(old(Snapshot()), now)
      ensures claimed <==>
              && old(status) == Queued && hasPrompt
              && (old(nextAttempt).Some? ==> old(nextAttempt).value <= now)
              && (old(deadline).Some? ==> now < old(deadline).value)
              && old(attempts) < maxAttempts && old(replayBlocked).None?
      ensures Snapshot() == AfterClaim(old(Snapshot()), freshToken, freshConversation, now, leaseSeconds)
    {
      if status != Queued {
        return false;
      }
      var deadlineOver := deadline.Some? && deadline.value <= now;
      if !hasPrompt || deadlineOver || attempts >= maxAttempts || replayBlocked.Some? {
        FinishFailed(now);
        return false;
      }
      if nextAttempt.Some? && nextAttempt.value > now {
        return false;
      }
      Start(freshToken, freshConversation, now, leaseSeconds);
      claimed := true;
    }

    /** Re-read the row under its lock; `false` stands for the lease-lost signal. */
    method LockLease(expected: Token, now: int, live: bool) returns (owned: bool)
      ensures owned == Owns(Snapshot(), expected, now, live)
    {
      if status != Running || token != Some(expected) {
        return false;
      }
      if live && (lease.None? || lease.value <= now) {
        return false;
      }
      if live && deadline.Some? && deadline.value <= now {
        return false;
      }
      owned := true;
    }

    method Heartbeat(expected: Token, now: int, leaseSeconds: nat) returns (owned: bool)
      modifies this
      ensures owned == Owns(old(Snapshot()), expected, now, true)
      ensures Snapshot() == AfterHeartbeat(old(Snapshot()), expected, now, leaseSeconds)
    {
      owned := LockLease(expected, now, true);
      if owned && deadline.Some? {
        heartbeat := Some(now);
        lease := Some(Min(now + leaseSeconds, deadline.value));
      }
    }

    method RecordEvent(expected: Token, now: int, eventProgress: int) returns (owned: bool)
      modifies this
      ensures owned == Owns(old(Snapshot()), expected, now, true)
      ensures Snapshot() == AfterEvent(old(Snapshot()), expected, now, eventProgress)
    {
      owned := LockLease(expected, now, true);
      if owned {
        progress := Max(progress, Min(eventProgress, 95));
      }
    }

    /** The durable barrier committed before a tool dispatch or with a saved answer. */
    method BlockReplay(expected: Token, now: int) returns (owned: bool)
      modifies this
      ensures owned == Owns(old(Snapshot()), expected, now, true)
      ensures Snapshot() == AfterBlock(old(Snapshot()), expected, now)
    {
      owned := LockLease(expected, now, true);
      if owned && replayBlocked.None? {
        replayBlocked := Some(now);
      }
    }

    method Succeed(expected: Token, now: int) returns (owned: bool)
      modifies this
      ensures owned == Owns(old(Snapshot()), expected, now, true)
      ensures Snapshot() == AfterSuccess(old(Snapshot()), expected, now)
    {
      owned := LockLease(expected, now, true);
      if owned {
        status := Succeeded;
        progress := 100;
        finished := Some(now);
        lease := None;
        token := None;
      }
    }

    method FinishOrRetry(expected: Token, now: int, retryAt: int, retryable: bool) returns (owned: bool)
      modifies this
      ensures owned == Owns(old(Snapshot()), expected, now, false)
      ensures Snapshot() == AfterFinish(old(Snapshot()), expected, now, retryAt, retryable)
    {
      owned := LockLease(expected, now, false);
      if !owned {
        return;
      }
      if replayBlocked.Some? {
        FinishFailed(now);
      } else if deadline.Some? && retryAt >= deadline.value {
        FinishFailed(now);
      } else if retryable && attempts < maxAttempts {
        status := Queued;
        finished := None;
        nextAttempt := Some(retryAt);
        lease := None;
        token := None;
      } else {
        FinishFailed(now);
      }
    }

    /** One row of the recovery sweep. */
    method Recover(now: int) returns (recovered: bool)
      modifies this
      ensures recovered == Recoverable(old(Snapshot()), now)
      ensures Snapshot() == AfterRecovery(old(Snapshot()), now)
    {
      if status != Running || (lease.Some? && lease.value > now) {
        return false;
      }
      var deadlineExpired := deadline.Some? && deadline.value <= now;
      if AtLeastOne(attempts) < AtLeastOne(maxAttempts) && replayBlocked.None? && !deadlineExpired {
        status := Queued;
        finished := None;
        nextAttempt := Some(now);
      } else {
        status := Stale;
        finished := Some(now);
        nextAttempt := None;
      }
      lease := None;
      token := None;
      recovered := true;
    }

    /** The cancel endpoint; `false` stands for the conflict response. */
    method Cancel(now: int) returns (accepted: bool)
      modifies this
      ensures accepted == (Cancelled in Transitions(old(status)))
      ensures Snapshot() == AfterCancel(old(Snapshot()), now)
    {
      if Cancelled !in Transitions(status) {
        return false;
      }
      if finished.None? {
        finished := Some(now);
      }
      status := Cancelled;
      token := None;
      lease := None;
      nextAttempt := None;
      accepted := true;
    }
  }

  /** A newly queued agent task. */
  function NewRow(prompt: bool, conversation: Option<nat>, maxAttempts: nat, due: int, deadline: Option<int>): Row {
    Row(Queued, prompt, conversation, 0, maxAttempts, None, None, deadline, Some(due), None, None, None, None, 0)
  }
}
