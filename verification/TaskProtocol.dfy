/** The lease and fencing protocol of one background task, over every interleaving.

    Workers (any number, each holding some token it was once given), the recovery sweep and the
    cancel endpoint race on one row.  Every commit is one step.  A worker may stall or die between
    any two steps, so a step may be taken under any token ever issued.  A tool dispatch is a step of
    its own, outside the lock, after the commit that armed it. */
module TaskProtocol {
  import opened Options
  import opened TaskRows

  datatype Role = User | Assistant

  datatype WriteKind =
    | ClaimWrite | RenewWrite | EventWrite | BlockWrite | MessageWrite(role: Role) | SuccessWrite  // live
    | FailWrite | RetryWrite                                                                      // token only
    | RecoveryWrite | CancelWrite                                                                 // by others
    | RefusalWrite

  /** One commit on the row: the token it was made under (or, for recovery and cancellation, the
      token it took away), and the lease and deadline it left. */
  datatype Entry = Entry(token: Option<Token>, kind: WriteKind, at: int, lease: Option<int>, deadline: Option<int>)

  predicate Live(e: Entry) {
    e.kind.RenewWrite? || e.kind.EventWrite? || e.kind.BlockWrite? || e.kind.MessageWrite? || e.kind.SuccessWrite?
  }

  /** Writes after which the token is gone from the row. */
  predicate Exit(e: Entry) {
    || e.kind.SuccessWrite? || e.kind.FailWrite? || e.kind.RetryWrite?
    || e.kind.RecoveryWrite? || e.kind.CancelWrite? || e.kind.RefusalWrite?
  }

  /** Commits that promise an external effect: the barrier before a dispatch, or a saved answer. */
  predicate Effect(e: Entry) {
    e.kind.BlockWrite? || e.kind == MessageWrite(Assistant)
  }

  datatype System = System(
    row: Row,
    clock: int,
    issued: set<Token>,
    log: seq<Entry>,
    armed: multiset<Token>,        // barriers committed whose dispatch has not happened yet
    dispatched: seq<Token>,        // tools really dispatched, with the token of the worker
    saved: seq<(nat, Role)>,       // messages stored for this task: conversation and role
    changes: nat                   // how often the status changed
  )

  datatype Config = Config(leaseSeconds: nat, retryBase: nat)

  datatype Action =
    | Claim(token: Token, conversation: nat, now: int)
    | Heartbeat(token: Token, now: int)
    | RecordEvent(token: Token, now: int, progress: int)
    | Block(token: Token, now: int)
    | Dispatch(token: Token)
    | SaveMessage(token: Token, now: int, conversation: nat, role: Role)
    | Succeed(token: Token, now: int)
    | Finish(token: Token, now: int, retryAt: int, retryable: bool)
    | Recover(now: int)
    | Cancel(now: int)

  function Initial(row: Row, clock: int): System {
    System(row, clock, {}, [], multiset{}, [], [], 0)
  }

  /** Clocks never run backwards, except that a recovery sweep may use a time it read earlier.
      Tokens are fresh, a dispatch needs its barrier, and the retry delay is jittered back-off. */
  predicate Enabled(cfg: Config, s: System, a: Action) {
    match a
    case Claim(t, _, now) => s.clock <= now && t !in s.issued
    case Heartbeat(_, now) => s.clock <= now
    case RecordEvent(_, now, _) => s.clock <= now
    case Block(_, now) => s.clock <= now
    case Dispatch(t) => t in s.armed
    case SaveMessage(_, now, _, _) => s.clock <= now
    case Succeed(_, now) => s.clock <= now
    case Finish(_, now, retryAt, _) =>
      s.clock <= now && retryAt - now <= Backoff(s.row.attempts, cfg.retryBase) <= 2 * (retryAt - now)
    case Recover(_) => true
    case Cancel(now) => s.clock <= now
  }

  function Commit(s: System, row: Row, token: Option<Token>, kind: WriteKind, now: int): System {
    s.(row := row,
       clock := Max(s.clock, now),
       log := s.log + [Entry(token, kind, now, row.lease, row.deadline)],
       changes := s.changes + (if row.status != s.row.status then 1 else 0))
  }

  function Step(cfg: Config, s: System, a: Action): System {
    match a
    case Claim(t, c, now) =>
      var row := AfterClaim(s.row, t, c, now, cfg.leaseSeconds);
      if Claimable(s.row, now) then Commit(s, row, Some(t), ClaimWrite, now).(issued := s.issued + {t})
      else if s.row.status == Queued && Refused(s.row, now) then Commit(s, row, None, RefusalWrite, now)
      else s.(clock := now)
    case Heartbeat(t, now) =>
      if Owns(s.row, t, now, true) && s.row.deadline.Some?
      then Commit(s, AfterHeartbeat(s.row, t, now, cfg.leaseSeconds), Some(t), RenewWrite, now)
      else s.(clock := now)
    case RecordEvent(t, now, p) =>
      if Owns(s.row, t, now, true) then Commit(s, AfterEvent(s.row, t, now, p), Some(t), EventWrite, now)
      else s.(clock := now)
    case Block(t, now) =>
      if Owns(s.row, t, now, true)
      then Commit(s, AfterBlock(s.row, t, now), Some(t), BlockWrite, now).(armed := s.armed + multiset{t})
      else s.(clock := now)
    case Dispatch(t) =>
      s.(armed := s.armed - multiset{t}, dispatched := s.dispatched + [t])
    case SaveMessage(t, now, c, role) =>
      if !Owns(s.row, t, now, true) then s.(clock := now)
      else if (c, role) in s.saved then Commit(s, s.row, Some(t), EventWrite, now)
      else Commit(s, if role == Assistant then AfterBlock(s.row, t, now) else s.row, Some(t), MessageWrite(role), now)
           .(saved := s.saved + [(c, role)])
    case Succeed(t, now) =>
      if Owns(s.row, t, now, true) then Commit(s, AfterSuccess(s.row, t, now), Some(t), SuccessWrite, now)
      else s.(clock := now)
    case Finish(t, now, retryAt, retryable) =>
      var row := AfterFinish(s.row, t, now, retryAt, retryable);
      if Owns(s.row, t, now, false)
      then Commit(s, row, Some(t), if row.status == Queued then RetryWrite else FailWrite, now)
      else s.(clock := now)
    case Recover(now) =>
      if Recoverable(s.row, now) then Commit(s, AfterRecovery(s.row, now), s.row.token, RecoveryWrite, now)
      else s
    case Cancel(now) =>
      if Cancelled in Transitions(s.row.status)
      then Commit(s, AfterCancel(s.row, now), s.row.token, CancelWrite, now)
      else s.(clock := now)
  }

  function Exec(cfg: Config, s: System, actions: seq<Action>): System
    decreases |actions|
  {
    if actions == [] then s else Exec(cfg, Step(cfg, s, actions[0]), actions[1..])
  }

  /** Every action is possible at the point where it is taken. */
  predicate Legal(cfg: Config, s: System, actions: seq<Action>)
    decreases |actions|
  {
    actions == [] || (Enabled(cfg, s, actions[0]) && Legal(cfg, Step(cfg, s, actions[0]), actions[1..]))
  }

  // ----- the invariant -----

  /** What the columns of a stored row always say about each other. */
  predicate RowOk(r: Row) {
    && (r.status == Running <==> r.token.Some?)
    && (r.status == Running <==> r.lease.Some?)
    && (r.status == Running ==> r.deadline.Some? && r.lease.value <= r.deadline.value)
    && (r.status == Queued ==> r.attempts < r.maxAttempts && r.replayBlocked.None?)
    && (r.status == Queued && r.nextAttempt.Some? && r.deadline.Some? ==> r.nextAttempt.value < r.deadline.value)
    && r.attempts <= r.maxAttempts
    && (r.status == Running ==> 1 <= r.attempts)
  }

  /** A token enters the log with its claim, and every later commit under it directly follows
      another commit under it that was not an exit. */
  ghost predicate Blocks(log: seq<Entry>) {
    && (forall k :: 0 <= k < |log| && log[k].token.Some? && log[k].kind != ClaimWrite ==>
          0 < k && log[k - 1].token == log[k].token && !Exit(log[k - 1]))
    && (forall i, k :: 0 <= i < k < |log| && log[k].kind == ClaimWrite ==> log[i].token != log[k].token)
    && (forall k :: 0 <= k < |log| && log[k].kind == ClaimWrite ==> log[k].token.Some?)
  }

  /** Commits made under a live check come strictly before the lease that the previous commit of the
      same token left, and no lease ever exceeds the deadline. */
  ghost predicate Timely(log: seq<Entry>) {
    && (forall i :: 0 <= i < |log| ==> Capped(log[i]))
    && forall i :: 0 <= i < |log| && Live(log[i]) ==>
      && 0 < i && log[i - 1].token == log[i].token && log[i].token.Some?
      && log[i - 1].lease.Some? && log[i - 1].deadline.Some?
      && log[i].at < log[i - 1].lease.value <= log[i - 1].deadline.value
  }

  /** The lease a commit left ends no later than the deadline. */
  predicate Capped(e: Entry) {
    e.lease.Some? ==> e.deadline.Some? && e.lease.value <= e.deadline.value
  }

  /** The end of the log describes the row. */
  predicate TailOk(log: seq<Entry>, r: Row) {
    && (r.token.Some? ==>
          && |log| > 0 && log[|log| - 1].token == r.token && !Exit(log[|log| - 1])
          && log[|log| - 1].lease == r.lease && log[|log| - 1].deadline == r.deadline)
    && (r.token.None? && |log| > 0 ==> Exit(log[|log| - 1]))
  }

  ghost predicate Issued(s: System) {
    && (forall i :: 0 <= i < |s.log| && s.log[i].token.Some? ==> s.log[i].token.value in s.issued)
    && (s.row.token.Some? ==> s.row.token.value in s.issued)
  }

  /** After an effect the barrier is up, no claim follows, and only its token can still be running. */
  ghost predicate EffectsFenced(s: System) {
    forall i :: 0 <= i < |s.log| && Effect(s.log[i]) ==>
      && s.row.replayBlocked.Some?
      && s.log[i].token.Some?
      && (s.row.token.Some? ==> s.row.token == s.log[i].token)
      && forall j :: i < j < |s.log| ==>
           s.log[j].kind != ClaimWrite && (Effect(s.log[j]) ==> s.log[j].token == s.log[i].token)
  }

  ghost predicate HasBarrier(log: seq<Entry>, t: Token) {
    exists i :: 0 <= i < |log| && log[i].kind == BlockWrite && log[i].token == Some(t)
  }

  ghost predicate DispatchesBarred(s: System) {
    && (forall t: Token :: t in s.armed ==> HasBarrier(s.log, t))
    && (forall t: Token :: t in s.dispatched ==> HasBarrier(s.log, t))
  }

  function Claims(log: seq<Entry>): nat {
    if log == [] then 0
    else Claims(log[..|log| - 1]) + (if log[|log| - 1].kind == ClaimWrite then 1 else 0)
  }

  /** How many status changes the row can still make at most. */
  function Measure(r: Row): int {
    match r.status
    case Queued => 2 * (r.maxAttempts - r.attempts)
    case Running => 2 * (r.maxAttempts - r.attempts) + 1
    case _ => 0
  }

  ghost predicate Budget(s: System) {
    && Claims(s.log) == s.row.attempts
    && s.changes + Measure(s.row) <= 2 * s.row.maxAttempts
  }

  predicate AnswerSaved(s: System) {
    exists x :: x in s.saved && x.1 == Assistant
  }

  ghost predicate Inv(s: System) {
    && (AnswerSaved(s) ==> s.row.replayBlocked.Some?)
    && RowOk(s.row)
    && TailOk(s.log, s.row)
    && Issued(s)
    && Blocks(s.log)
    && Timely(s.log)
    && EffectsFenced(s)
    && DispatchesBarred(s)
    && NoRepeats(s.saved)
    && Budget(s)
  }

  // ----- one step keeps it -----

  /** How a commit may extend the log: under a fresh token, under the running one, or under none. */
  ghost predicate Extends(s: System, e: Entry) {
    match e.token
    case None => !Live(e) && e.kind != ClaimWrite
    case Some(t) =>
      if e.kind == ClaimWrite then t !in s.issued
      else s.row.token == Some(t) && (Live(e) ==> s.row.lease.Some? && e.at < s.row.lease.value)
  }

  lemma BlocksExtend(s: System, e: Entry)
    requires TailOk(s.log, s.row) && Issued(s) && Extends(s, e) && Blocks(s.log)
    ensures Blocks(s.log + [e])
  {
    var log := s.log + [e];
    forall k | 0 <= k < |log| && log[k].token.Some? && log[k].kind != ClaimWrite
      ensures 0 < k && log[k - 1].token == log[k].token && !Exit(log[k - 1])
    {
      if k < |s.log| {
        assert log[k] == s.log[k];
      }
      assert 0 < k ==> log[k - 1] == s.log[k - 1];
    }
  }

  lemma TimelyExtends(s: System, e: Entry)
    requires RowOk(s.row) && TailOk(s.log, s.row) && Extends(s, e) && Timely(s.log) && Capped(e)
    ensures Timely(s.log + [e])
  {
    var log := s.log + [e];
    assert forall i :: 0 <= i < |s.log| ==> log[i] == s.log[i];
    forall i | 0 <= i < |log| && Live(log[i])
      ensures 0 < i && log[i - 1].token == log[i].token && log[i].token.Some?
      ensures log[i - 1].lease.Some? && log[i - 1].deadline.Some?
      ensures log[i].at < log[i - 1].lease.value <= log[i - 1].deadline.value
    {
      if i < |s.log| {
        assert log[i] == s.log[i];
      }
      assert 0 < i ==> log[i - 1] == s.log[i - 1];
    }
  }

  lemma ClaimsExtend(log: seq<Entry>, e: Entry)
    ensures Claims(log + [e]) == Claims(log) + (if e.kind == ClaimWrite then 1 else 0)
  {
    assert (log + [e])[..|log|] == log;
  }

  lemma BarriersExtend(log: seq<Entry>, e: Entry)
    ensures forall t: Token :: HasBarrier(log, t) ==> HasBarrier(log + [e], t)
    ensures e.kind == BlockWrite && e.token.Some? ==> HasBarrier(log + [e], e.token.value)
  {
    forall t: Token | HasBarrier(log, t) ensures HasBarrier(log + [e], t) {
      var i :| 0 <= i < |log| && log[i].kind == BlockWrite && log[i].token == Some(t);
      assert (log + [e])[i] == log[i];
    }
    if e.kind == BlockWrite && e.token.Some? {
      assert (log + [e])[|log|] == e;
    }
  }

  /** What a commit must do to the row, given the entry it logs. */
  predicate RowStep(r: Row, r': Row, e: Entry) {
    && RowOk(r')
    && r'.maxAttempts == r.maxAttempts
    && (r.replayBlocked.Some? ==> r'.replayBlocked.Some?)
    && (r.conversation.Some? ==> r'.conversation == r.conversation)
    && (e.kind == ClaimWrite ==> r'.conversation.Some?)
    && e.lease == r'.lease && e.deadline == r'.deadline
    && (if Exit(e) then r'.token.None? else r'.token == e.token && e.token.Some?)
    && r'.attempts == r.attempts + (if e.kind == ClaimWrite then 1 else 0)
    && (e.kind == ClaimWrite ==> r.replayBlocked.None?)
    && (Effect(e) ==> r'.replayBlocked.Some?)
    && (r'.status != r.status ==> Measure(r') < Measure(r))
    && (r'.status == r.status ==> Measure(r') == Measure(r))
  }

  lemma EffectsExtend(s: System, row: Row, e: Entry)
    requires EffectsFenced(s) && Extends(s, e) && RowStep(s.row, row, e)
    ensures EffectsFenced(s.(row := row, log := s.log + [e]))
  {
  }

  /** The entry a step logged, if it committed anything. */
  ghost predicate Logged(cfg: Config, s: System, a: Action) {
    |Step(cfg, s, a).log| > |s.log|
  }

  /** The step's effect on the row fits the entry it logged. */
  ghost predicate StepFits(cfg: Config, s: System, a: Action)
    requires Logged(cfg, s, a)
  {
    var e := Step(cfg, s, a).log[|s.log|];
    Extends(s, e) && RowStep(s.row, Step(cfg, s, a).row, e)
  }

  lemma ClaimFits(cfg: Config, s: System, a: Action)
    requires RowOk(s.row) && Enabled(cfg, s, a) && a.Claim? && Logged(cfg, s, a)
    ensures StepFits(cfg, s, a)
  {
  }

  lemma LiveWriteFits(cfg: Config, s: System, a: Action)
    requires RowOk(s.row) && Enabled(cfg, s, a) && Logged(cfg, s, a)
    requires a.Heartbeat? || a.RecordEvent? || a.Block?
    ensures StepFits(cfg, s, a)
  {
  }

  lemma SaveFits(cfg: Config, s: System, a: Action)
    requires RowOk(s.row) && Enabled(cfg, s, a) && Logged(cfg, s, a) && a.SaveMessage?
    ensures StepFits(cfg, s, a)
  {
  }

  lemma ExitFits(cfg: Config, s: System, a: Action)
    requires RowOk(s.row) && Enabled(cfg, s, a) && Logged(cfg, s, a)
    requires a.Succeed? || a.Recover? || a.Cancel?
    ensures StepFits(cfg, s, a)
  {
  }

  lemma FinishFits(cfg: Config, s: System, a: Action)
    requires RowOk(s.row) && Enabled(cfg, s, a) && Logged(cfg, s, a) && a.Finish?
    ensures StepFits(cfg, s, a)
  {
  }

  lemma AlwaysFits(cfg: Config, s: System, a: Action)
    requires RowOk(s.row) && Enabled(cfg, s, a) && Logged(cfg, s, a)
    ensures StepFits(cfg, s, a)
  {
    if a.Claim? {
      ClaimFits(cfg, s, a);
    } else if a.Finish? {
      FinishFits(cfg, s, a);
    } else if a.Succeed? || a.Recover? || a.Cancel? {
      ExitFits(cfg, s, a);
    } else if a.SaveMessage? {
      SaveFits(cfg, s, a);
    } else {
      LiveWriteFits(cfg, s, a);
    }
  }

  /** Exactly one entry is appended or none; the other histories follow. */
  ghost predicate Shaped(s: System, s': System) {
    if |s'.log| > |s.log|
    then
      var e := s'.log[|s.log|];
      && s'.log == s.log + [e]
      && s'.issued == s.issued + (if e.kind == ClaimWrite && e.token.Some? then {e.token.value} else {})
      && s'.armed == s.armed + (if e.kind == BlockWrite && e.token.Some? then multiset{e.token.value} else multiset{})
      && s'.dispatched == s.dispatched
      && s'.changes == s.changes + (if s'.row.status != s.row.status then 1 else 0)
      && |s'.saved| >= |s.saved| && s'.saved == s.saved + (if e.kind.MessageWrite? then s'.saved[|s.saved|..] else [])
    else s'.row == s.row && s'.log == s.log && s'.issued == s.issued && s'.changes == s.changes && s'.saved == s.saved
  }

  lemma StepShape(cfg: Config, s: System, a: Action)
    requires Enabled(cfg, s, a)
    ensures Shaped(s, Step(cfg, s, a))
  {
    hide Shaped, Step, Enabled;
    match a
    case Claim(_, _, _) => ClaimShaped(cfg, s, a);
    case Block(_, _) => BlockShaped(cfg, s, a);
    case SaveMessage(_, _, _, _) => SaveShaped(cfg, s, a);
    case Finish(_, _, _, _) => FinishShaped(cfg, s, a);
    case Heartbeat(_, _) => LiveShaped(cfg, s, a);
    case RecordEvent(_, _, _) => LiveShaped(cfg, s, a);
    case Succeed(_, _) => LiveShaped(cfg, s, a);
    case _ => OtherShaped(cfg, s, a);
  }

  lemma ClaimShaped(cfg: Config, s: System, a: Action)
    requires a.Claim?
    ensures Shaped(s, Step(cfg, s, a))
  {
    hide AfterClaim, Claimable, Refused;
  }

  lemma BlockShaped(cfg: Config, s: System, a: Action)
    requires a.Block?
    ensures Shaped(s, Step(cfg, s, a))
  {
    hide AfterBlock, Owns;
  }

  lemma LiveShaped(cfg: Config, s: System, a: Action)
    requires a.Heartbeat? || a.RecordEvent? || a.Succeed?
    ensures Shaped(s, Step(cfg, s, a))
  {
    hide AfterHeartbeat, AfterEvent, AfterSuccess, Owns;
  }

  lemma OtherShaped(cfg: Config, s: System, a: Action)
    requires a.Dispatch? || a.Recover? || a.Cancel?
    ensures Shaped(s, Step(cfg, s, a))
  {
    hide AfterRecovery, AfterCancel, Recoverable, Transitions;
  }

  lemma FinishShaped(cfg: Config, s: System, a: Action)
    requires a.Finish?
    ensures Shaped(s, Step(cfg, s, a))
  {
    hide AfterFinish, Owns;
  }

  lemma SaveShaped(cfg: Config, s: System, a: Action)
    requires a.SaveMessage?
    ensures Shaped(s, Step(cfg, s, a))
  {
    hide AfterBlock, Owns;
  }

  lemma LeaseCapped(r: Row, r': Row, e: Entry)
    requires RowStep(r, r', e)
    ensures Capped(e)
  {
  }

  lemma LogKept(cfg: Config, s: System, a: Action)
    requires RowOk(s.row) && TailOk(s.log, s.row) && Issued(s) && Blocks(s.log) && Timely(s.log)
    requires Enabled(cfg, s, a)
    ensures Blocks(Step(cfg, s, a).log) && Timely(Step(cfg, s, a).log)
  {
    hide Step, Enabled, Blocks, Timely, Extends, RowOk, TailOk, RowStep, Issued;
    StepShape(cfg, s, a);
    if Logged(cfg, s, a) {
      AlwaysFits(cfg, s, a);
      var e := Step(cfg, s, a).log[|s.log|];
      BlocksExtend(s, e);
      LeaseCapped(s.row, Step(cfg, s, a).row, e);
      TimelyExtends(s, e);
    }
  }

  lemma RowKept(cfg: Config, s: System, a: Action)
    requires RowOk(s.row) && TailOk(s.log, s.row) && Budget(s) && Enabled(cfg, s, a)
    ensures var s' := Step(cfg, s, a); RowOk(s'.row) && TailOk(s'.log, s'.row) && Budget(s')
  {
    hide Step, Enabled, RowOk, Extends, Claims, Effect, Live;
    StepShape(cfg, s, a);
    if Logged(cfg, s, a) {
      AlwaysFits(cfg, s, a);
      ClaimsExtend(s.log, Step(cfg, s, a).log[|s.log|]);
    }
  }

  lemma TokensKept(cfg: Config, s: System, a: Action)
    requires Issued(s) && RowOk(s.row) && Enabled(cfg, s, a)
    ensures Issued(Step(cfg, s, a))
  {
    hide Step, Enabled;
    StepShape(cfg, s, a);
    if Logged(cfg, s, a) {
      AlwaysFits(cfg, s, a);
    }
  }

  lemma EffectsKept(cfg: Config, s: System, a: Action)
    requires EffectsFenced(s) && RowOk(s.row) && Enabled(cfg, s, a)
    ensures EffectsFenced(Step(cfg, s, a))
  {
    hide Step, Enabled;
    StepShape(cfg, s, a);
    if Logged(cfg, s, a) {
      AlwaysFits(cfg, s, a);
      EffectsExtend(s, Step(cfg, s, a).row, Step(cfg, s, a).log[|s.log|]);
    }
  }

  lemma BarriersKept(cfg: Config, s: System, a: Action)
    requires DispatchesBarred(s) && RowOk(s.row) && Enabled(cfg, s, a)
    ensures DispatchesBarred(Step(cfg, s, a))
  {
    hide AfterClaim, AfterHeartbeat, AfterEvent, AfterBlock, AfterSuccess, AfterFinish, AfterRecovery, AfterCancel;
    hide RowOk, HasBarrier;
    if !a.Dispatch? {
      hide Step, Enabled;
      StepShape(cfg, s, a);
      if Logged(cfg, s, a) {
        AlwaysFits(cfg, s, a);
        BarriersExtend(s.log, Step(cfg, s, a).log[|s.log|]);
      }
    }
  }

  lemma MessagesKept(cfg: Config, s: System, a: Action)
    requires NoRepeats(s.saved) && (AnswerSaved(s) ==> s.row.replayBlocked.Some?)
    requires RowOk(s.row) && Enabled(cfg, s, a)
    ensures var s' := Step(cfg, s, a);
            NoRepeats(s'.saved) && (AnswerSaved(s') ==> s'.row.replayBlocked.Some?)
  {
    if a.SaveMessage? {
    } else if Logged(cfg, s, a) {
      AlwaysFits(cfg, s, a);
    }
  }

  lemma StepKeepsInv(cfg: Config, s: System, a: Action)
    requires Inv(s) && Enabled(cfg, s, a)
    ensures Inv(Step(cfg, s, a))
  {
    hide Step, Enabled, RowOk, TailOk, Issued, Blocks, Timely, EffectsFenced, DispatchesBarred, NoRepeats, AnswerSaved, Budget;
    LogKept(cfg, s, a);
    RowKept(cfg, s, a);
    TokensKept(cfg, s, a);
    EffectsKept(cfg, s, a);
    BarriersKept(cfg, s, a);
    MessagesKept(cfg, s, a);
  }

  lemma {:induction false} RunKeepsInv(cfg: Config, s: System, actions: seq<Action>)
    requires Inv(s) && Legal(cfg, s, actions)
    ensures Inv(Exec(cfg, s, actions))
    decreases |actions|
  {
    if actions != [] {
      StepKeepsInv(cfg, s, actions[0]);
      RunKeepsInv(cfg, Step(cfg, s, actions[0]), actions[1..]);
    }
  }

  /** A row as one of the create paths inserts it: at least one attempt, due before its deadline. */
  predicate Fresh(r: Row) {
    && r.nextAttempt.Some?
    && r == NewRow(r.hasPrompt, r.conversation, r.maxAttempts, r.nextAttempt.value, r.deadline)
    && 1 <= r.maxAttempts
    && (r.deadline.Some? ==> r.nextAttempt.value < r.deadline.value)
  }

  lemma ReachableInv(cfg: Config, row: Row, clock: int, actions: seq<Action>)
    requires Fresh(row) && Legal(cfg, Initial(row, clock), actions)
    ensures Inv(Exec(cfg, Initial(row, clock), actions))
  {
    RunKeepsInv(cfg, Initial(row, clock), actions);
  }

  // ----- what every run satisfies -----

  /** All tools dispatched for one task, however many workers ran it and whenever the dispatch
      physically happened, carry one execution token; so do all barriers and saved answers. */
  lemma OneTokenDispatches(cfg: Config, row: Row, clock: int, actions: seq<Action>)
    requires Fresh(row) && Legal(cfg, Initial(row, clock), actions)
    ensures var s := Exec(cfg, Initial(row, clock), actions);
            && (forall i, j :: 0 <= i < |s.dispatched| && 0 <= j < |s.dispatched| ==> s.dispatched[i] == s.dispatched[j])
            && (forall i, j :: 0 <= i < |s.log| && 0 <= j < |s.log| && Effect(s.log[i]) && Effect(s.log[j])
                  ==> s.log[i].token == s.log[j].token)
            && (forall i, j :: 0 <= i < |s.dispatched| && 0 <= j < |s.log| && Effect(s.log[j])
                  ==> s.log[j].token == Some(s.dispatched[i]))
  {
    ReachableInv(cfg, row, clock, actions);
    var s := Exec(cfg, Initial(row, clock), actions);
    EffectsShareToken(s);
    forall i, j | 0 <= i < |s.dispatched| && 0 <= j < |s.log| && Effect(s.log[j])
      ensures s.log[j].token == Some(s.dispatched[i])
    {
      assert s.dispatched[i] in s.dispatched;
      var b :| 0 <= b < |s.log| && s.log[b].kind == BlockWrite && s.log[b].token == Some(s.dispatched[i]);
      assert Effect(s.log[b]);
    }
    forall i, j | 0 <= i < |s.dispatched| && 0 <= j < |s.dispatched| ensures s.dispatched[i] == s.dispatched[j] {
      assert s.dispatched[j] in s.dispatched;
      var b :| 0 <= b < |s.log| && s.log[b].kind == BlockWrite && s.log[b].token == Some(s.dispatched[j]);
      assert Effect(s.log[b]);
    }
  }

  lemma EffectsShareToken(s: System)
    requires EffectsFenced(s)
    ensures forall i, j :: 0 <= i < |s.log| && 0 <= j < |s.log| && Effect(s.log[i]) && Effect(s.log[j])
              ==> s.log[i].token == s.log[j].token
  {
    forall i, j | 0 <= i < |s.log| && 0 <= j < |s.log| && Effect(s.log[i]) && Effect(s.log[j])
      ensures s.log[i].token == s.log[j].token
    {
      if i < j {
        assert Effect(s.log[i]);
      } else if j < i {
        assert Effect(s.log[j]);
      }
    }
  }

  /** One step of a row whose barrier is up. */
  lemma BlockedStep(cfg: Config, s: System, a: Action)
    requires RowOk(s.row) && s.row.replayBlocked.Some? && Enabled(cfg, s, a)
    ensures var s' := Step(cfg, s, a);
            s'.row.replayBlocked.Some? && s'.row.attempts == s.row.attempts && s'.issued == s.issued
  {
    hide Step, Enabled, Extends;
    StepShape(cfg, s, a);
    if Logged(cfg, s, a) {
      AlwaysFits(cfg, s, a);
    }
  }

  lemma {:induction false} BlockedForever(cfg: Config, s: System, actions: seq<Action>)
    requires Inv(s) && s.row.replayBlocked.Some? && Legal(cfg, s, actions)
    ensures var s' := Exec(cfg, s, actions);
            s'.row.attempts == s.row.attempts && s'.row.status != Queued && s'.issued == s.issued
    decreases |actions|
  {
    hide Step, Enabled;
    if actions != [] {
      StepKeepsInv(cfg, s, actions[0]);
      BlockedStep(cfg, s, actions[0]);
      BlockedForever(cfg, Step(cfg, s, actions[0]), actions[1..]);
    }
  }

  /** Once a tool was dispatched, a barrier committed or an answer saved, no later claim succeeds:
      the task is never queued again, makes no further attempt and issues no further token. */
  lemma NoClaimAfterEffect(cfg: Config, row: Row, clock: int, before: seq<Action>, after: seq<Action>)
    requires Fresh(row) && Legal(cfg, Initial(row, clock), before)
    requires var s := Exec(cfg, Initial(row, clock), before);
             && (s.dispatched != [] || AnswerSaved(s) || exists i :: 0 <= i < |s.log| && Effect(s.log[i]))
             && Legal(cfg, s, after)
    ensures var s := Exec(cfg, Initial(row, clock), before);
            var s' := Exec(cfg, s, after);
            s'.row.status != Queued && s'.row.attempts == s.row.attempts && s'.issued == s.issued
  {
    ReachableInv(cfg, row, clock, before);
    var s := Exec(cfg, Initial(row, clock), before);
    if s.dispatched != [] {
      assert s.dispatched[0] in s.dispatched;
      var b :| 0 <= b < |s.log| && s.log[b].kind == BlockWrite && s.log[b].token == Some(s.dispatched[0]);
      assert Effect(s.log[b]);
    }
    BlockedForever(cfg, s, after);
  }

  lemma {:induction false} Contiguous(log: seq<Entry>, i: nat, j: nat, k: nat)
    requires Blocks(log) && i <= j < k < |log| && log[i].token.Some? && log[i].token == log[k].token
    ensures log[j].token == log[i].token && !Exit(log[j])
    decreases k
  {
    assert log[k].kind != ClaimWrite;
    if j < k - 1 {
      Contiguous(log, i, j, k - 1);
    }
  }

  /** The commits made under one token form one contiguous block of the task's history.  The block
      opens with the claim and ends at the first success, failure, retry, recovery or cancellation. */
  lemma TokenBlocks(cfg: Config, row: Row, clock: int, actions: seq<Action>)
    requires Fresh(row) && Legal(cfg, Initial(row, clock), actions)
    ensures var log := Exec(cfg, Initial(row, clock), actions).log;
            && (forall i, j, k :: 0 <= i <= j < k < |log| && log[i].token.Some? && log[i].token == log[k].token
                  ==> log[j].token == log[i].token && !Exit(log[j]))
            && (forall k :: 0 <= k < |log| && log[k].token.Some? && (k == 0 || log[k - 1].token != log[k].token)
                  ==> log[k].kind == ClaimWrite)
  {
    ReachableInv(cfg, row, clock, actions);
    var log := Exec(cfg, Initial(row, clock), actions).log;
    forall i, j, k | 0 <= i <= j < k < |log| && log[i].token.Some? && log[i].token == log[k].token
      ensures log[j].token == log[i].token && !Exit(log[j])
    {
      Contiguous(log, i, j, k);
    }
  }

  /** Every commit that passed a live check happened strictly before the lease its token held at
      that moment, and no lease ever stored reached past the deadline stored with it. */
  lemma LiveWritesInTime(cfg: Config, row: Row, clock: int, actions: seq<Action>)
    requires Fresh(row) && Legal(cfg, Initial(row, clock), actions)
    ensures Timely(Exec(cfg, Initial(row, clock), actions).log)
    ensures forall e :: e in Exec(cfg, Initial(row, clock), actions).log ==> Capped(e)
  {
    ReachableInv(cfg, row, clock, actions);
  }

  // ----- leases over a run -----

  /** How the commits of one token follow each other: only that token writes until an exit, its lease never
      shrinks, and the sweep takes it no earlier than the lease it stored last. */
  ghost predicate Orderly(log: seq<Entry>) {
    && (log != [] ==> !log[0].kind.RecoveryWrite?)
    && forall k :: 0 < k < |log| ==> Follows(log[k - 1], log[k])
  }

  predicate Follows(e: Entry, e': Entry) {
    && (!Exit(e) ==> e'.token == e.token)
    && (!Exit(e) && !Exit(e') ==> e.lease.Some? && e'.lease.Some? && e.lease.value <= e'.lease.value)
    && (e'.kind.RecoveryWrite? ==> !Exit(e) && e.token.Some? && e.lease.Some? && e.lease.value <= e'.at)
  }

  /** The row's lease is at most one full lease ahead of the clock. */
  predicate LeaseBound(cfg: Config, s: System) {
    s.row.lease.Some? ==> s.row.lease.value <= s.clock + cfg.leaseSeconds
  }

  /** A commit on a row, seen from the row before it. */
  predicate FollowsRow(r: Row, e: Entry) {
    && (r.token.Some? ==> e.token == r.token)
    && (r.token.Some? && !Exit(e) ==> r.lease.Some? && e.lease.Some? && r.lease.value <= e.lease.value)
    && (e.kind.RecoveryWrite? ==> r.token.Some? && r.lease.Some? && r.lease.value <= e.at)
  }

  lemma CommitFollows(cfg: Config, s: System, a: Action)
    requires RowOk(s.row) && LeaseBound(cfg, s) && Enabled(cfg, s, a)
    ensures LeaseBound(cfg, Step(cfg, s, a))
    ensures Logged(cfg, s, a) ==> FollowsRow(s.row, Step(cfg, s, a).log[|s.log|])
  {
    match a
    case Claim(_, _, _) => ClaimFollows(cfg, s, a);
    case Heartbeat(_, _) => LiveFollows(cfg, s, a);
    case RecordEvent(_, _, _) => LiveFollows(cfg, s, a);
    case Block(_, _) => LiveFollows(cfg, s, a);
    case SaveMessage(_, _, _, _) => SaveFollows(cfg, s, a);
    case _ => ExitFollows(cfg, s, a);
  }

  lemma ClaimFollows(cfg: Config, s: System, a: Action)
    requires RowOk(s.row) && LeaseBound(cfg, s) && Enabled(cfg, s, a) && a.Claim?
    ensures LeaseBound(cfg, Step(cfg, s, a))
    ensures Logged(cfg, s, a) ==> FollowsRow(s.row, Step(cfg, s, a).log[|s.log|])
  {
  }

  lemma LiveFollows(cfg: Config, s: System, a: Action)
    requires RowOk(s.row) && LeaseBound(cfg, s) && Enabled(cfg, s, a) && (a.Heartbeat? || a.RecordEvent? || a.Block?)
    ensures LeaseBound(cfg, Step(cfg, s, a))
    ensures Logged(cfg, s, a) ==> FollowsRow(s.row, Step(cfg, s, a).log[|s.log|])
  {
  }

  lemma SaveFollows(cfg: Config, s: System, a: Action)
    requires RowOk(s.row) && LeaseBound(cfg, s) && Enabled(cfg, s, a) && a.SaveMessage?
    ensures LeaseBound(cfg, Step(cfg, s, a))
    ensures Logged(cfg, s, a) ==> FollowsRow(s.row, Step(cfg, s, a).log[|s.log|])
  {
  }

  lemma ExitFollows(cfg: Config, s: System, a: Action)
    requires RowOk(s.row) && LeaseBound(cfg, s) && Enabled(cfg, s, a)
    requires a.Succeed? || a.Finish? || a.Recover? || a.Cancel? || a.Dispatch?
    ensures LeaseBound(cfg, Step(cfg, s, a))
    ensures Logged(cfg, s, a) ==> FollowsRow(s.row, Step(cfg, s, a).log[|s.log|])
  {
  }

  lemma OrderlyExtends(log: seq<Entry>, row: Row, e: Entry)
    requires Orderly(log) && RowOk(row) && TailOk(log, row) && FollowsRow(row, e)
    ensures Orderly(log + [e])
  {
    var longer := log + [e];
    assert forall i :: 0 <= i < |log| ==> longer[i] == log[i];
    forall k | 0 < k < |longer| ensures Follows(longer[k - 1], longer[k]) {
    }
  }

  lemma {:induction false} RunKeepsOrder(cfg: Config, s: System, actions: seq<Action>)
    requires Inv(s) && LeaseBound(cfg, s) && Orderly(s.log) && Legal(cfg, s, actions)
    ensures Orderly(Exec(cfg, s, actions).log) && LeaseBound(cfg, Exec(cfg, s, actions))
    decreases |actions|
  {
    hide Step, Enabled, RowOk, TailOk, Orderly, FollowsRow, LeaseBound;
    if actions != [] {
      StepKeepsInv(cfg, s, actions[0]);
      StepKeepsOrder(cfg, s, actions[0]);
      RunKeepsOrder(cfg, Step(cfg, s, actions[0]), actions[1..]);
    }
  }

  lemma StepKeepsOrder(cfg: Config, s: System, a: Action)
    requires RowOk(s.row) && TailOk(s.log, s.row) && LeaseBound(cfg, s) && Orderly(s.log) && Enabled(cfg, s, a)
    ensures Orderly(Step(cfg, s, a).log) && LeaseBound(cfg, Step(cfg, s, a))
  {
    hide Step, Enabled, RowOk, Orderly, LeaseBound;
    CommitFollows(cfg, s, a);
    StepShape(cfg, s, a);
    if Logged(cfg, s, a) {
      OrderlyExtends(s.log, s.row, Step(cfg, s, a).log[|s.log|]);
    }
  }

  lemma ReachableOrder(cfg: Config, row: Row, clock: int, actions: seq<Action>)
    requires Fresh(row) && Legal(cfg, Initial(row, clock), actions)
    ensures Orderly(Exec(cfg, Initial(row, clock), actions).log)
  {
    ReachableInv(cfg, row, clock, []);
    RunKeepsOrder(cfg, Initial(row, clock), actions);
  }

  /** The sweep never takes a live lease: every recovery directly follows a commit of the token it takes
      away, and comes no earlier than the end of the lease that commit left. */
  lemma SweepTakesExpiredLeases(cfg: Config, row: Row, clock: int, actions: seq<Action>)
    requires Fresh(row) && Legal(cfg, Initial(row, clock), actions)
    ensures var log := Exec(cfg, Initial(row, clock), actions).log;
            forall k :: 0 <= k < |log| && log[k].kind.RecoveryWrite? ==>
              && 0 < k && log[k].token.Some? && log[k - 1].token == log[k].token
              && log[k - 1].lease.Some? && log[k - 1].lease.value <= log[k].at
  {
    ReachableOrder(cfg, row, clock, actions);
    SweepsFollow(Exec(cfg, Initial(row, clock), actions).log);
  }

  lemma SweepsFollow(log: seq<Entry>)
    requires Orderly(log)
    ensures forall k :: 0 <= k < |log| && log[k].kind.RecoveryWrite? ==>
              && 0 < k && log[k].token.Some? && log[k - 1].token == log[k].token
              && log[k - 1].lease.Some? && log[k - 1].lease.value <= log[k].at
  {
    forall k | 0 <= k < |log| && log[k].kind.RecoveryWrite?
      ensures 0 < k && log[k].token.Some? && log[k - 1].token == log[k].token
      ensures log[k - 1].lease.Some? && log[k - 1].lease.value <= log[k].at
    {
      assert 0 < k ==> Follows(log[k - 1], log[k]);
    }
  }

  /** The first exit after entry `b`: until then only the token of `b` writes and its lease does not shrink, so
      a sweep that makes it comes no earlier than the lease `b` left. */
  lemma {:induction false} FirstExit(log: seq<Entry>, b: nat, k: nat) returns (x: nat)
    requires Orderly(log) && b < k < |log| && Exit(log[k]) && !Exit(log[b]) && log[b].lease.Some?
    ensures b < x <= k && Exit(log[x]) && log[x].token == log[b].token
    ensures log[x].kind.RecoveryWrite? ==> log[b].lease.value <= log[x].at
    decreases k - b
  {
    assert Follows(log[b], log[b + 1]);
    x := b + 1;
    if !Exit(log[b + 1]) {
      x := FirstExit(log, b + 1, k);
    }
  }

  /** The attempt was ended after entry `b` by its worker, or cancelled. */
  ghost predicate EndedOrCancelled(log: seq<Entry>, b: nat) {
    exists k :: b < k < |log| && Exit(log[k]) && !log[k].kind.RecoveryWrite?
  }

  /** A guard a worker can keep to: the barrier it committed at entry `b` is still good for a dispatch if no sweep
      ran with a time at or after the end of the lease that commit left, and the attempt was neither ended
      nor cancelled since. */
  lemma DispatchGuard(cfg: Config, row: Row, clock: int, actions: seq<Action>, t: Token, b: nat)
    requires Fresh(row) && Legal(cfg, Initial(row, clock), actions)
    requires var log := Exec(cfg, Initial(row, clock), actions).log;
             && b < |log| && log[b].kind == BlockWrite && log[b].token == Some(t) && !EndedOrCancelled(log, b)
             && forall k :: b < k < |log| && log[k].kind.RecoveryWrite? ==> log[k].at < log[b].lease.GetOr(log[b].at)
    ensures Exec(cfg, Initial(row, clock), actions).row.token == Some(t)
  {
    ReachableInv(cfg, row, clock, actions);
    ReachableOrder(cfg, row, clock, actions);
    GuardHolds(Exec(cfg, Initial(row, clock), actions), t, b);
  }

  lemma GuardHolds(s: System, t: Token, b: nat)
    requires Orderly(s.log) && Blocks(s.log) && TailOk(s.log, s.row) && EffectsFenced(s)
    requires b < |s.log| && s.log[b].kind == BlockWrite && s.log[b].token == Some(t) && !EndedOrCancelled(s.log, b)
    requires forall k :: b < k < |s.log| && s.log[k].kind.RecoveryWrite? ==> s.log[k].at < s.log[b].lease.GetOr(s.log[b].at)
    ensures s.row.token == Some(t)
  {
    assert Effect(s.log[b]);
    assert Follows(s.log[b - 1], s.log[b]);
    if s.row.token.None? {
      var x := FirstExit(s.log, b, |s.log| - 1);
    }
  }

  /** However many attempts run, a task stores at most one message per conversation and role. */
  lemma MessagesOnce(cfg: Config, row: Row, clock: int, actions: seq<Action>)
    requires Fresh(row) && Legal(cfg, Initial(row, clock), actions)
    ensures NoRepeats(Exec(cfg, Initial(row, clock), actions).saved)
  {
    ReachableInv(cfg, row, clock, actions);
  }

  lemma {:induction false} AttemptBudgetFixed(cfg: Config, s: System, actions: seq<Action>)
    requires Inv(s) && Legal(cfg, s, actions)
    ensures Exec(cfg, s, actions).row.maxAttempts == s.row.maxAttempts
    decreases |actions|
  {
    if actions != [] {
      StepKeepsInv(cfg, s, actions[0]);
      StepShape(cfg, s, actions[0]);
      if Logged(cfg, s, actions[0]) {
        AlwaysFits(cfg, s, actions[0]);
      }
      AttemptBudgetFixed(cfg, Step(cfg, s, actions[0]), actions[1..]);
    }
  }

  /** A task with m permitted attempts is claimed at most m times and changes status at most 2m times. */
  lemma BoundedLife(cfg: Config, row: Row, clock: int, actions: seq<Action>)
    requires Fresh(row) && Legal(cfg, Initial(row, clock), actions)
    ensures var s := Exec(cfg, Initial(row, clock), actions);
            && Claims(s.log) <= row.maxAttempts
            && s.changes <= 2 * row.maxAttempts
  {
    ReachableInv(cfg, row, clock, actions);
    AttemptBudgetFixed(cfg, Initial(row, clock), actions);
  }

  /** In every reachable state: running exactly while a token and a lease are stored; queued only with
      attempts left, unblocked and due before the deadline. */
  lemma RowsConsistent(cfg: Config, row: Row, clock: int, actions: seq<Action>)
    requires Fresh(row) && Legal(cfg, Initial(row, clock), actions)
    ensures RowOk(Exec(cfg, Initial(row, clock), actions).row)
  {
    ReachableInv(cfg, row, clock, actions);
  }

  /** A status change strictly lowers the measure and never leaves a terminal status. */
  lemma StatusChangesCost(cfg: Config, s: System, a: Action)
    requires Inv(s) && Enabled(cfg, s, a)
    ensures var r := s.row; var r' := Step(cfg, s, a).row;
            r'.status != r.status ==> 0 <= Measure(r') < Measure(r) && !Terminal(r.status)
  {
    hide Step, Enabled, Issued, Blocks, Timely, EffectsFenced, DispatchesBarred, NoRepeats, AnswerSaved, TailOk;
    StepShape(cfg, s, a);
    StepKeepsInv(cfg, s, a);
    if Logged(cfg, s, a) {
      AlwaysFits(cfg, s, a);
    }
  }

  /** When a step puts a running task back into the queue, told by the row before it: a retry of the
      token's owner, or a sweep, that finds no barrier, attempts left and time left. */
  predicate Requeues(s: System, a: Action) {
    match a
    case Finish(t, now, retryAt, retryable) =>
      && Owns(s.row, t, now, false) && s.row.replayBlocked.None? && !Passed(s.row.deadline, retryAt)
      && retryable && s.row.attempts < s.row.maxAttempts
    case Recover(now) =>
      && Recoverable(s.row, now) && AtLeastOne(s.row.attempts) < AtLeastOne(s.row.maxAttempts)
      && s.row.replayBlocked.None? && !Passed(s.row.deadline, now)
    case _ => false
  }

  /** The published table is left exactly by these steps, and each of them takes a running task to queued. */
  lemma StatusChangesFollowTable(cfg: Config, s: System, a: Action)
    requires Enabled(cfg, s, a)
    ensures Step(cfg, s, a).row.status !in Transitions(s.row.status) <==> Requeues(s, a)
    ensures Requeues(s, a) ==> s.row.status == Running && Step(cfg, s, a).row.status == Queued
  {
    match a
    case Finish(_, _, _, _) =>
    case Recover(_) =>
    case _ => OtherStepsFollowTable(cfg, s, a);
  }

  lemma OtherStepsFollowTable(cfg: Config, s: System, a: Action)
    requires !a.Finish? && !a.Recover?
    ensures Step(cfg, s, a).row.status in Transitions(s.row.status)
  {
  }

  /** A task that starts queued with three attempts and is claimed once, under token 1, at time 0. */
  function ExampleConfig(): Config {
    Config(180, 5)
  }

  function Example(): System {
    Initial(NewRow(true, None, 3, 0, Some(900)), 0)
  }

  function ExampleClaimed(): System {
    Step(ExampleConfig(), Example(), Claim(1, 7, 0))
  }

  lemma ExampleRow()
    ensures Fresh(Example().row) && Enabled(ExampleConfig(), Example(), Claim(1, 7, 0))
    ensures ExampleClaimed().row
         == Row(Running, true, Some(7), 1, 3, Some(1), Some(180), Some(900), None, None, Some(0), Some(0), None, 1)
    ensures ExampleClaimed().clock == 0 && Pow2(0) == 1
  {
  }

  /** Both kinds of step outside the table are reached: a retry after the first attempt, and a sweep after
      its lease ran out. */
  lemma TableIsLeft()
    ensures var cfg, retry, sweep := ExampleConfig(), Finish(1, 10, 15, true), Recover(200);
            && Fresh(Example().row)
            && Legal(cfg, Example(), [Claim(1, 7, 0), retry]) && Requeues(ExampleClaimed(), retry)
            && Legal(cfg, Example(), [Claim(1, 7, 0), sweep]) && Requeues(ExampleClaimed(), sweep)
  {
    hide Step;
    ExampleRow();
    TwoSteps(ExampleConfig(), Example(), Claim(1, 7, 0), Finish(1, 10, 15, true));
    TwoSteps(ExampleConfig(), Example(), Claim(1, 7, 0), Recover(200));
  }

  lemma TwoSteps(cfg: Config, s: System, a: Action, b: Action)
    requires Enabled(cfg, s, a) && Enabled(cfg, Step(cfg, s, a), b)
    ensures Legal(cfg, s, [a, b]) && Exec(cfg, s, [a, b]) == Step(cfg, Step(cfg, s, a), b)
  {
    hide Step, Enabled;
    assert [a, b][1..] == [b] && [b][1..] == [];
    assert Exec(cfg, Step(cfg, s, a), [b]) == Step(cfg, Step(cfg, s, a), b);
    assert Legal(cfg, Step(cfg, s, a), [b]);
  }

  /** The conversation a first claim stored is the one every later attempt reuses. */
  lemma {:induction false} ConversationReused(cfg: Config, s: System, actions: seq<Action>)
    requires Inv(s) && s.row.conversation.Some? && Legal(cfg, s, actions)
    ensures Exec(cfg, s, actions).row.conversation == s.row.conversation
    decreases |actions|
  {
    hide Step, Enabled;
    if actions != [] {
      StepKeepsInv(cfg, s, actions[0]);
      StepShape(cfg, s, actions[0]);
      if Logged(cfg, s, actions[0]) {
        AlwaysFits(cfg, s, actions[0]);
      }
      ConversationReused(cfg, Step(cfg, s, actions[0]), actions[1..]);
    }
  }

  // ----- where the code checks less -----

  /** The check made before a tool event is stored on the row: it does not look at the deadline. */
  predicate ToolEventAllowed(r: Row, token: Token, now: int) {
    r.status == Running && r.token == Some(token) && r.lease.Some? && !Passed(r.lease, now)
  }

  /** In every reachable state that weaker check decides the same as the full fencing check, and both
      say that the token is the stored one and its lease is still ahead. */
  lemma ToolEventCheckSuffices(cfg: Config, row: Row, clock: int, actions: seq<Action>, token: Token, now: int)
    requires Fresh(row) && Legal(cfg, Initial(row, clock), actions)
    ensures var r := Exec(cfg, Initial(row, clock), actions).row;
            && (ToolEventAllowed(r, token, now) <==> Owns(r, token, now, true))
            && (Owns(r, token, now, true) <==> r.token == Some(token) && r.lease.Some? && now < r.lease.value)
  {
    ReachableInv(cfg, row, clock, actions);
  }

  /** Ending an attempt is fenced by the token alone: it is accepted exactly until recovery,
      cancellation or an earlier end took the token away, however long ago the lease expired. */
  lemma FinishAcceptedUntilTokenTaken(cfg: Config, s: System, a: Action)
    requires Inv(s) && Enabled(cfg, s, a) && a.Finish?
    ensures Logged(cfg, s, a) <==> s.row.token == Some(a.token)
    ensures Logged(cfg, s, a) ==> Step(cfg, s, a).row.token.None?
  {
    if Logged(cfg, s, a) {
      AlwaysFits(cfg, s, a);
    }
  }

  /** Such an end is reached after the lease ran out: twenty seconds later it is accepted and queues the
      task again. */
  lemma FinishAfterLeaseAccepted()
    ensures var cfg, late := ExampleConfig(), Finish(1, 200, 205, true);
            && Fresh(Example().row) && Legal(cfg, Example(), [Claim(1, 7, 0), late])
            && Passed(ExampleClaimed().row.lease, late.now) && !Owns(ExampleClaimed().row, 1, late.now, true)
            && Logged(cfg, ExampleClaimed(), late)
            && Exec(cfg, Example(), [Claim(1, 7, 0), late]).row.status == Queued
  {
    ExampleRow();
    LateFinish();
    TwoSteps(ExampleConfig(), Example(), Claim(1, 7, 0), Finish(1, 200, 205, true));
  }

  lemma LateFinish()
    ensures var late := Finish(1, 200, 205, true);
            && Enabled(ExampleConfig(), ExampleClaimed(), late) && Logged(ExampleConfig(), ExampleClaimed(), late)
            && Step(ExampleConfig(), ExampleClaimed(), late).row.status == Queued
  {
    ExampleRow();
  }

  /** When a dispatch is late.  In every reachable state a worker that has committed its barrier, and has
      not dispatched yet, still owns the row exactly if no success, failure, retry, recovery or
      cancellation was committed after that barrier. */
  lemma DispatchInTimeIff(cfg: Config, row: Row, clock: int, actions: seq<Action>, t: Token)
    requires Fresh(row) && Legal(cfg, Initial(row, clock), actions) && t in Exec(cfg, Initial(row, clock), actions).armed
    ensures var s := Exec(cfg, Initial(row, clock), actions);
            s.row.token == Some(t) <==>
            forall b, k :: 0 <= b < k < |s.log| && s.log[b].kind == BlockWrite && s.log[b].token == Some(t)
              ==> !Exit(s.log[k])
  {
    ReachableInv(cfg, row, clock, actions);
    InTimeIff(Exec(cfg, Initial(row, clock), actions), t);
  }

  lemma InTimeIff(s: System, t: Token)
    requires Inv(s) && t in s.armed
    ensures s.row.token == Some(t) <==>
            forall b, k :: 0 <= b < k < |s.log| && s.log[b].kind == BlockWrite && s.log[b].token == Some(t)
              ==> !Exit(s.log[k])
  {
    hide Blocks, Timely, Issued, Budget, RowOk, AnswerSaved, NoRepeats;
    ArmedBarrier(s, t);
    var b :| 0 <= b < |s.log| && s.log[b].kind == BlockWrite && s.log[b].token == Some(t);
    var last := |s.log| - 1;
    if s.row.token == Some(t) {
      hide EffectsFenced, DispatchesBarred;
      forall i, k | 0 <= i < k < |s.log| && s.log[i].kind == BlockWrite && s.log[i].token == Some(t)
        ensures !Exit(s.log[k])
      {
        if k < last {
          Contiguous(s.log, i, k, last);
        }
      }
    } else {
      assert Effect(s.log[b]);
      assert s.row.token.None? && Exit(s.log[last]) && b < last;
    }
  }

  lemma ArmedBarrier(s: System, t: Token)
    requires DispatchesBarred(s) && t in s.armed
    ensures HasBarrier(s.log, t)
  {
  }

  /** A late dispatch is reached: the barrier is committed under a live lease, the sweep then takes the
      expired token, and the stalled worker still dispatches. */
  lemma DispatchCanOutliveLease()
    ensures var cfg := ExampleConfig();
            var taken := [Claim(1, 7, 0), Block(1, 10), Recover(200)];
            var s := Exec(cfg, Example(), taken);
            && Fresh(Example().row) && Legal(cfg, Example(), taken)
            && s.row.status == Stale && s.row.token == None && s.dispatched == []
            && Enabled(cfg, s, Dispatch(1)) && Step(cfg, s, Dispatch(1)).dispatched == [1]
  {
    hide Step, Enabled;
    var cfg := ExampleConfig();
    var taken := [Claim(1, 7, 0), Block(1, 10), Recover(200)];
    ExampleRow();
    StalledWorker();
    assert taken[1..] == [taken[1], taken[2]];
    TwoSteps(cfg, ExampleClaimed(), taken[1], taken[2]);
  }

  lemma StalledWorker()
    ensures var cfg := ExampleConfig();
            var s1 := ExampleClaimed();
            var s2 := Step(cfg, s1, Block(1, 10));
            var s3 := Step(cfg, s2, Recover(200));
            && Enabled(cfg, s1, Block(1, 10)) && Enabled(cfg, s2, Recover(200))
            && s3.row.status == Stale && s3.row.token == None && s3.dispatched == []
            && Enabled(cfg, s3, Dispatch(1)) && Step(cfg, s3, Dispatch(1)).dispatched == [1]
  {
    ExampleRow();
  }
}
