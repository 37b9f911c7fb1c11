/** What each step does to the task row, told by its columns alone, and what follows for the times of claims. */
module TaskOutcomes {
  import opened Options
  import opened TaskRows
  import opened TaskProtocol

  // ----- claiming -----

  /** A claim turns a task that is not running into a running one exactly if it is queued, has a prompt, is
      due, has time and attempts left, and no barrier. */
  lemma ClaimStartsIff(cfg: Config, s: System, a: Action)
    requires a.Claim?
    ensures s.row.status != Running && Step(cfg, s, a).row.status == Running <==>
            && s.row.status == Queued && s.row.hasPrompt
            && (s.row.nextAttempt.Some? ==> s.row.nextAttempt.value <= a.now)
            && (s.row.deadline.Some? ==> a.now < s.row.deadline.value)
            && s.row.attempts < s.row.maxAttempts && s.row.replayBlocked.None?
  {
  }

  /** It fails the task exactly if the task is queued without prompt, time, attempts, or with a barrier, due or
      not; and in every other case but these two the row stays as it is. */
  lemma ClaimFailsIff(cfg: Config, s: System, a: Action)
    requires a.Claim?
    ensures s.row.status != Failed && Step(cfg, s, a).row.status == Failed <==>
            && s.row.status == Queued
            && (|| !s.row.hasPrompt || (s.row.deadline.Some? && s.row.deadline.value <= a.now)
                || s.row.attempts >= s.row.maxAttempts || s.row.replayBlocked.Some?)
    ensures Step(cfg, s, a).row.status == s.row.status ==> Step(cfg, s, a).row == s.row
  {
  }

  /** The row a successful claim leaves. */
  lemma ClaimColumns(cfg: Config, s: System, a: Action)
    requires a.Claim? && s.row.status != Running && Step(cfg, s, a).row.status == Running
    ensures var r, r' := s.row, Step(cfg, s, a).row;
            && r'.token == Some(a.token) && r'.attempts == r.attempts + 1
            && r'.deadline.Some? && (if r.deadline.Some? then r'.deadline == r.deadline else r'.deadline.value == a.now + 900)
            && r'.lease.Some? && r'.lease.value <= r'.deadline.value && r'.lease.value <= a.now + cfg.leaseSeconds
            && (r'.lease.value == r'.deadline.value || r'.lease.value == a.now + cfg.leaseSeconds)
            && r'.conversation.Some? && (if r.conversation.Some? then r'.conversation == r.conversation else r'.conversation.value == a.conversation)
            && r'.started.Some? && (if r.started.Some? then r'.started == r.started else r'.started.value == a.now)
            && r'.finished == None && r'.nextAttempt == None && r'.heartbeat == Some(a.now) && r'.progress == 1
            && r'.hasPrompt == r.hasPrompt && r'.maxAttempts == r.maxAttempts && r'.replayBlocked == r.replayBlocked
  {
  }

  // ----- writes under a lease -----

  /** A worker's write is accepted exactly if the task runs under its token and neither lease nor deadline
      has been reached; the deadline of a running task is always set. */
  lemma LiveWriteAcceptedIff(cfg: Config, s: System, a: Action, t: Token, now: int)
    requires RowOk(s.row)
    requires || a == Heartbeat(t, now) || (a.RecordEvent? && a.token == t && a.now == now) || a == Block(t, now)
             || a == TaskProtocol.Action.Succeed(t, now) || (a.SaveMessage? && a.token == t && a.now == now)
    ensures |Step(cfg, s, a).log| == |s.log| + 1 <==>
            && s.row.status == Running && s.row.token == Some(t)
            && s.row.lease.Some? && now < s.row.lease.value
            && (s.row.deadline.Some? ==> now < s.row.deadline.value)
    ensures |Step(cfg, s, a).log| == |s.log| || |Step(cfg, s, a).log| == |s.log| + 1
    ensures |Step(cfg, s, a).log| == |s.log| ==> Step(cfg, s, a) == s.(clock := now)
  {
  }

  /** What an accepted write changes, column by column; all other columns stay. */
  lemma LiveWriteColumns(cfg: Config, s: System, a: Action)
    requires RowOk(s.row) && |Step(cfg, s, a).log| > |s.log|
    ensures var r, r' := s.row, Step(cfg, s, a).row;
            && (a.Heartbeat? ==>
                  && r' == r.(heartbeat := Some(a.now), lease := r'.lease)
                  && r'.lease.Some? && r.deadline.Some?
                  && r'.lease.value <= r.deadline.value && r'.lease.value <= a.now + cfg.leaseSeconds
                  && (r'.lease.value == r.deadline.value || r'.lease.value == a.now + cfg.leaseSeconds))
            && (a.RecordEvent? ==>
                  && r' == r.(progress := r'.progress) && r.progress <= r'.progress
                  && (if a.progress <= 95 then a.progress <= r'.progress else 95 <= r'.progress)
                  && (r'.progress == r.progress || (r'.progress == a.progress && a.progress <= 95) || r'.progress == 95))
            && (a.Block? ==>
                  && r' == r.(replayBlocked := r'.replayBlocked) && r'.replayBlocked.Some?
                  && (if r.replayBlocked.Some? then r'.replayBlocked == r.replayBlocked else r'.replayBlocked.value == a.now))
            && (a.Succeed? ==>
                  r' == r.(status := Succeeded, progress := 100, finished := Some(a.now), lease := None, token := None))
  {
  }

  /** An accepted message is stored once; one that was stored before is not stored again.  An answer raises the
      barrier, a user message does not. */
  lemma SaveStores(cfg: Config, s: System, a: Action)
    requires a.SaveMessage? && |Step(cfg, s, a).log| > |s.log|
    ensures var s' := Step(cfg, s, a);
            && (a.conversation, a.role) in s'.saved
            && s'.saved == (if (a.conversation, a.role) in s.saved then s.saved else s.saved + [(a.conversation, a.role)])
            && s'.row == s.row.(replayBlocked := s'.row.replayBlocked)
            && (s'.row.replayBlocked == s.row.replayBlocked || (s.row.replayBlocked.None? && a.role == Assistant))
            && (a.role == Assistant && (a.conversation, a.role) !in s.saved ==> s'.row.replayBlocked.Some?)
  {
  }

  // ----- the end of an attempt -----

  /** A failed attempt queues the task again exactly if it ends under the row's own token, without barrier, with
      a retryable error, attempts left and the retry before the deadline; otherwise the owner fails it. */
  lemma FinishOutcome(cfg: Config, s: System, a: Action)
    requires a.Finish?
    ensures var r, r' := s.row, Step(cfg, s, a).row;
            var owner := r.status == Running && r.token == Some(a.token);
            var again := && r.replayBlocked.None? && a.retryable && r.attempts < r.maxAttempts
                         && (r.deadline.Some? ==> a.retryAt < r.deadline.value);
            && (owner && again ==>
                  r' == r.(status := Queued, finished := None, nextAttempt := Some(a.retryAt), lease := None, token := None))
            && (owner && !again ==>
                  r' == r.(status := Failed, finished := Some(a.now), nextAttempt := None, lease := None, token := None))
            && (!owner ==> r' == r)
  {
  }

  /** A sweep touches exactly running tasks whose lease is missing or over; it queues them again exactly without
      barrier and with attempts and time left, and else makes them stale. */
  lemma RecoveryOutcome(cfg: Config, s: System, a: Action)
    requires RowOk(s.row) && a.Recover?
    ensures var r, r' := s.row, Step(cfg, s, a).row;
            var over := r.status == Running && (r.lease.None? || r.lease.value <= a.now);
            var again := r.attempts < r.maxAttempts && r.replayBlocked.None? && (r.deadline.Some? ==> a.now < r.deadline.value);
            && (over && again ==>
                  r' == r.(status := Queued, finished := None, nextAttempt := Some(a.now), lease := None, token := None))
            && (over && !again ==>
                  r' == r.(status := Stale, finished := Some(a.now), nextAttempt := None, lease := None, token := None))
            && (!over ==> r' == r)
  {
  }

  /** Cancelling works exactly on queued and running tasks, and again on a cancelled one. */
  lemma CancelOutcome(cfg: Config, s: System, a: Action)
    requires a.Cancel?
    ensures var r, r' := s.row, Step(cfg, s, a).row;
            && (r.status == Queued || r.status == Running ==>
                  && r' == r.(status := Cancelled, finished := r'.finished, token := None, lease := None, nextAttempt := None)
                  && r'.finished.Some? && (if r.finished.Some? then r'.finished == r.finished else r'.finished.value == a.now))
            && (r.status == Succeeded || r.status == Failed || r.status == Stale ==> r' == r)
            && (r.status == Cancelled ==> r'.status == Cancelled)
  {
  }

  // ----- the back-off -----

  /** The back-off starts at the base, doubles with every attempt, and stops at an hour. */
  lemma BackoffDoubles(attempts: nat, base: nat)
    requires attempts >= 1
    ensures Backoff(1, base) == Min(base, 3600)
    ensures Backoff(attempts + 1, base) == Min(2 * Backoff(attempts, base), 3600)
  {
    assert Pow2(0) == 1;
    assert Pow2(attempts) == 2 * Pow2(attempts - 1);
    var factor := Pow2(attempts - 1);
    assert base * (2 * factor) == 2 * (base * factor);
  }

  // ----- when a task is claimed -----

  /** While a task waits: at first for the time it was inserted with, behind a retry for at least half the
      back-off of the attempts made, behind a sweep for the time of the sweep. */
  predicate WaitOk(cfg: Config, due: int, s: System) {
    s.row.status == Queued ==>
      && s.row.nextAttempt.Some?
      && (s.log == [] ==> s.row.nextAttempt.value == due)
      && (s.log != [] ==>
            var last := s.log[|s.log| - 1];
            && (last.kind.RetryWrite? ==>
                  2 * (s.row.nextAttempt.value - last.at) >= Min(cfg.retryBase * Pow2(Max(s.row.attempts - 1, 0)), 3600))
            && (last.kind.RecoveryWrite? ==> s.row.nextAttempt.value >= last.at))
  }

  ghost predicate ClaimsInTime(cfg: Config, due: int, log: seq<Entry>) {
    && (log != [] && log[0].kind.ClaimWrite? ==> due <= log[0].at)
    && (forall k :: 0 < k < |log| ==> ClaimAfter(cfg, log[k - 1], log[k], Claims(log[..k])))
  }

  /** A claim `e'` directly behind a commit `e`, when `attempts` attempts were made before. */
  predicate ClaimAfter(cfg: Config, e: Entry, e': Entry, attempts: nat) {
    e'.kind.ClaimWrite? ==>
      && (e.kind.RetryWrite? ==> 2 * (e'.at - e.at) >= Min(cfg.retryBase * Pow2(Max(attempts - 1, 0)), 3600))
      && (e.kind.RecoveryWrite? ==> e.at <= e'.at)
  }

  lemma WaitKept(cfg: Config, due: int, s: System, a: Action)
    requires RowOk(s.row) && WaitOk(cfg, due, s) && Enabled(cfg, s, a)
    ensures WaitOk(cfg, due, Step(cfg, s, a))
    ensures var s' := Step(cfg, s, a);
            |s'.log| > |s.log| && s'.log[|s.log|].kind.ClaimWrite? ==>
              s.row.status == Queued && s.row.nextAttempt.Some? && s.row.nextAttempt.value <= s'.log[|s.log|].at
  {
    match a
    case Claim(_, _, _) =>
    case Finish(_, _, _, _) => RetryWaits(cfg, due, s, a);
    case Recover(_) => RecoveryOutcome(cfg, s, a);
    case _ =>
  }

  lemma RetryWaits(cfg: Config, due: int, s: System, a: Action)
    requires RowOk(s.row) && WaitOk(cfg, due, s) && Enabled(cfg, s, a) && a.Finish?
    ensures WaitOk(cfg, due, Step(cfg, s, a))
    ensures var s' := Step(cfg, s, a); |s'.log| > |s.log| ==> !s'.log[|s.log|].kind.ClaimWrite?
  {
  }

  lemma InTimeExtends(cfg: Config, due: int, s: System, e: Entry)
    requires Claims(s.log) == s.row.attempts && WaitOk(cfg, due, s) && ClaimsInTime(cfg, due, s.log)
    requires e.kind.ClaimWrite? ==> s.row.status == Queued && s.row.nextAttempt.Some? && s.row.nextAttempt.value <= e.at
    ensures ClaimsInTime(cfg, due, s.log + [e])
  {
    hide Claims, Pow2;
    var log := s.log + [e];
    forall k | 0 < k < |log| ensures ClaimAfter(cfg, log[k - 1], log[k], Claims(log[..k])) {
      if k < |s.log| {
        assert log[..k] == s.log[..k];
        assert ClaimAfter(cfg, s.log[k - 1], s.log[k], Claims(s.log[..k]));
      } else {
        assert log[..k] == s.log;
      }
    }
  }

  lemma StepInTime(cfg: Config, due: int, s: System, a: Action)
    requires Inv(s) && WaitOk(cfg, due, s) && ClaimsInTime(cfg, due, s.log) && Enabled(cfg, s, a)
    ensures WaitOk(cfg, due, Step(cfg, s, a)) && ClaimsInTime(cfg, due, Step(cfg, s, a).log)
  {
    hide Step, Enabled, RowOk, TailOk, Issued, Blocks, Timely, EffectsFenced, DispatchesBarred, NoRepeats, AnswerSaved;
    hide WaitOk, ClaimsInTime, Claims;
    WaitKept(cfg, due, s, a);
    StepShape(cfg, s, a);
    if |Step(cfg, s, a).log| > |s.log| {
      InTimeExtends(cfg, due, s, Step(cfg, s, a).log[|s.log|]);
    }
  }

  lemma {:induction false} RunInTime(cfg: Config, due: int, s: System, actions: seq<Action>)
    requires Inv(s) && WaitOk(cfg, due, s) && ClaimsInTime(cfg, due, s.log) && Legal(cfg, s, actions)
    ensures ClaimsInTime(cfg, due, Exec(cfg, s, actions).log)
    decreases |actions|
  {
    hide Step, Enabled, Inv, WaitOk, ClaimsInTime;
    if actions != [] {
      StepKeepsInv(cfg, s, actions[0]);
      StepInTime(cfg, due, s, actions[0]);
      RunInTime(cfg, due, Step(cfg, s, actions[0]), actions[1..]);
    }
  }

  /** In every run the first claim comes no earlier than the time the task was inserted for, a claim behind a
      retry at least half the back-off of the attempts made later, and one behind a sweep not before it. */
  lemma NotClaimedBeforeDue(cfg: Config, row: Row, clock: int, actions: seq<Action>)
    requires Fresh(row) && Legal(cfg, Initial(row, clock), actions)
    ensures ClaimsInTime(cfg, row.nextAttempt.value, Exec(cfg, Initial(row, clock), actions).log)
  {
    ReachableInv(cfg, row, clock, []);
    RunInTime(cfg, row.nextAttempt.value, Initial(row, clock), actions);
  }

  // ----- progress -----

  /** Progress is complete exactly for tasks that succeeded, and events alone take it to 95 at most. */
  predicate ProgressOk(r: Row) {
    if r.status == Succeeded then r.progress == 100 else 0 <= r.progress <= 95
  }

  lemma {:induction false} ProgressMeaning(cfg: Config, s: System, actions: seq<Action>)
    requires Inv(s) && ProgressOk(s.row) && Legal(cfg, s, actions)
    ensures ProgressOk(Exec(cfg, s, actions).row)
    decreases |actions|
  {
    if actions != [] {
      StepKeepsInv(cfg, s, actions[0]);
      ProgressKept(cfg, s, actions[0]);
      ProgressMeaning(cfg, Step(cfg, s, actions[0]), actions[1..]);
    }
  }

  lemma ProgressKept(cfg: Config, s: System, a: Action)
    requires ProgressOk(s.row)
    ensures ProgressOk(Step(cfg, s, a).row)
  {
  }
}
