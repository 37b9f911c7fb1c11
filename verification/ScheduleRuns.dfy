/** One schedule together with all the tasks it ever queued, over every run of ticks, pauses,
    resumes, manual runs and steps of the tasks themselves. */
module ScheduleRuns {
  import opened Options
  import opened ScheduleTimes
  import opened Schedules
  import R = TaskRows
  import P = TaskProtocol

  const TASK_DEADLINE := 900

  datatype World = World(
    schedule: Schedule,
    tasks: seq<P.System>,   // every task of this schedule, in the order they were queued
    timed: seq<int>,        // occurrences queued by the clock; their times are the idempotency keys
    clock: int
  )

  datatype Move =
    | Tick(now: int, prompt: bool)
    | Patch(wanted: bool, now: int)
    | Manual(now: int, prompt: bool)
    | TaskMove(task: nat, action: P.Action)

  predicate Active(t: P.System) {
    t.row.status == R.Queued || t.row.status == R.Running
  }

  predicate AnyActive(tasks: seq<P.System>) {
    exists i :: 0 <= i < |tasks| && Active(tasks[i])
  }

  /** The task queued for an occurrence. */
  function ScheduledTask(s: Schedule, occurrence: int, prompt: bool, clock: int): P.System {
    P.Initial(R.NewRow(prompt, s.conversation, s.maxAttempts, occurrence, Some(occurrence + TASK_DEADLINE)), clock)
  }

  predicate Enabled(cfg: P.Config, w: World, m: Move) {
    match m
    case Tick(_, _) => true                      // a sweep may use a time it read earlier
    case Patch(_, now) => w.clock <= now
    case Manual(now, _) => w.clock <= now
    case TaskMove(i, a) => i < |w.tasks| && P.Enabled(cfg, w.tasks[i], a)
  }

  function Step(cfg: P.Config, w: World, m: Move): World
    requires Enabled(cfg, w, m)
  {
    match m
    case Tick(now, prompt) =>
      if !Due(w.schedule, now) then w
      else
        var (s, queued) := Dispatch(w.schedule, now, AnyActive(w.tasks));
        var next := w.(schedule := s, clock := Max(w.clock, now));
        if queued.None? then next
        else next.(tasks := w.tasks + [ScheduledTask(s, queued.value, prompt, next.clock)],
                   timed := w.timed + [queued.value])
    case Patch(wanted, now) =>
      w.(schedule := Enable(w.schedule, wanted, now).GetOr(w.schedule), clock := now)
    case Manual(now, prompt) =>
      if AnyActive(w.tasks) then w.(clock := now)
      else w.(schedule := RunNow(w.schedule, now), clock := now,
              tasks := w.tasks + [ScheduledTask(w.schedule, now, prompt, now)])
    case TaskMove(i, a) =>
      w.(tasks := w.tasks[i := P.Step(cfg, w.tasks[i], a)])
  }

  predicate Legal(cfg: P.Config, w: World, moves: seq<Move>)
    decreases |moves|
  {
    moves == [] || (Enabled(cfg, w, moves[0]) && Legal(cfg, Step(cfg, w, moves[0]), moves[1..]))
  }

  function Exec(cfg: P.Config, w: World, moves: seq<Move>): World
    requires Legal(cfg, w, moves)
    decreases |moves|
  {
    if moves == [] then w else Exec(cfg, Step(cfg, w, moves[0]), moves[1..])
  }

  /** A schedule as the create endpoint stores it: its first run is the computed one. */
  predicate Created(s: Schedule, now: int) {
    && s.enabled && s.nextRun.Some? && InitialNextRun(s, now) == Ok(s.nextRun.value)
    && 1 <= s.maxAttempts
    && (s.kind == Daily && s.time.Some? ==> TimeOfDay(s.time.value))
  }

  function Start(s: Schedule, now: int): World {
    World(s, [], [], now)
  }

  // ----- invariants -----

  /** The timed occurrences so far, and where the next one may lie. */
  ghost predicate TimedOk(w: World) {
    && Sane(w.schedule)
    && (forall i, j :: 0 <= i < j < |w.timed| ==> w.timed[i] < w.timed[j])
    && (forall i :: 0 <= i < |w.timed| ==>
          && w.timed[i] <= w.clock
          && (w.schedule.nextRun.Some? ==> w.timed[i] < w.schedule.nextRun.value)
          && (w.schedule.kind == Once ==> w.timed[i] == w.schedule.runAt.value)
          && (w.schedule.kind == Daily ==> DailyOccurrence(w.schedule.zone, w.schedule.time.value, w.timed[i])))
  }

  ghost predicate AtMostOneActive(tasks: seq<P.System>) {
    forall i, j :: 0 <= i < j < |tasks| ==> !(Active(tasks[i]) && Active(tasks[j]))
  }

  ghost predicate TasksOk(w: World) {
    && 1 <= w.schedule.maxAttempts
    && (forall i :: 0 <= i < |w.tasks| ==> P.Inv(w.tasks[i]))
    && AtMostOneActive(w.tasks)
  }

  lemma InitialRunOk(s: Schedule, now: int)
    requires Created(s, now)
    ensures Sane(s) && now < s.nextRun.value
  {
    if s.kind == Daily {
      NextDailyOccurs(s.zone, s.time.value, now);
    }
  }

  lemma EnableKeepsTimed(cfg: P.Config, w: World, wanted: bool, now: int)
    requires TimedOk(w) && w.clock <= now
    ensures TimedOk(Step(cfg, w, Patch(wanted, now)))
  {
    var s := w.schedule;
    if s.kind == Daily && NextDaily(s.zone, s.time, now).Ok? {
      NextDailyOccurs(s.zone, s.time.value, now);
    }
  }

  lemma TickKeepsTimed(cfg: P.Config, w: World, now: int, prompt: bool)
    requires TimedOk(w)
    ensures TimedOk(Step(cfg, w, Tick(now, prompt)))
  {
    var s := w.schedule;
    if Due(s, now) && LatestDue(s, now).Ok? && NextRunAfter(s, now).Ok? {
      DispatchMovesOn(s, now);
    }
  }

  lemma StepKeepsTimed(cfg: P.Config, w: World, m: Move)
    requires TimedOk(w) && Enabled(cfg, w, m)
    ensures TimedOk(Step(cfg, w, m))
  {
    match m
    case Tick(now, prompt) => TickKeepsTimed(cfg, w, now, prompt);
    case Patch(wanted, now) => EnableKeepsTimed(cfg, w, wanted, now);
    case Manual(now, prompt) =>
    case TaskMove(i, a) =>
  }

  /** A new task is a correct protocol state, and adding it when none is active keeps the bound. */
  lemma AddTask(s: Schedule, tasks: seq<P.System>, occurrence: int, prompt: bool, clock: int)
    requires 1 <= s.maxAttempts && !AnyActive(tasks)
    requires forall i :: 0 <= i < |tasks| ==> P.Inv(tasks[i])
    ensures var tasks' := tasks + [ScheduledTask(s, occurrence, prompt, clock)];
            (forall i :: 0 <= i < |tasks'| ==> P.Inv(tasks'[i])) && AtMostOneActive(tasks')
  {
    hide Active, P.Inv;
    var row := R.NewRow(prompt, s.conversation, s.maxAttempts, occurrence, Some(occurrence + TASK_DEADLINE));
    assert P.Exec(P.Config(0, 0), P.Initial(row, clock), []) == P.Initial(row, clock);
    P.ReachableInv(P.Config(0, 0), row, clock, []);
  }

  /** A task that has ended stays ended: no step makes an inactive task active. */
  lemma NeverReactivated(cfg: P.Config, t: P.System, a: P.Action)
    requires P.Inv(t) && P.Enabled(cfg, t, a)
    ensures Active(P.Step(cfg, t, a)) ==> Active(t)
  {
    P.StatusChangesCost(cfg, t, a);
  }

  lemma StepKeepsTasks(cfg: P.Config, w: World, m: Move)
    requires TasksOk(w) && Enabled(cfg, w, m)
    ensures TasksOk(Step(cfg, w, m))
  {
    hide P.Inv, P.Step, P.Enabled, Dispatch, Enable, LatestDue, NextRunAfter;
    match m
    case Tick(now, prompt) =>
      MaxAttemptsKept(w.schedule, now, AnyActive(w.tasks));
      if Due(w.schedule, now) {
        var (s, queued) := Dispatch(w.schedule, now, AnyActive(w.tasks));
        if queued.Some? {
          AddTask(s, w.tasks, queued.value, prompt, Max(w.clock, now));
        }
      }
    case Patch(wanted, now) =>
      EnableKeepsMaxAttempts(w.schedule, wanted, now);
    case Manual(now, prompt) =>
      if !AnyActive(w.tasks) {
        AddTask(w.schedule, w.tasks, now, prompt, now);
      }
    case TaskMove(i, a) =>
      P.StepKeepsInv(cfg, w.tasks[i], a);
      NeverReactivated(cfg, w.tasks[i], a);
  }

  lemma MaxAttemptsKept(s: Schedule, now: int, active: bool)
    ensures Dispatch(s, now, active).0.maxAttempts == s.maxAttempts
    ensures active ==> Dispatch(s, now, active).1.None?
  {
  }

  lemma EnableKeepsMaxAttempts(s: Schedule, wanted: bool, now: int)
    ensures Enable(s, wanted, now).GetOr(s).maxAttempts == s.maxAttempts
  {
  }

  lemma {:induction false} RunKeepsInvariants(cfg: P.Config, w: World, moves: seq<Move>)
    requires TimedOk(w) && TasksOk(w) && Legal(cfg, w, moves)
    ensures TimedOk(Exec(cfg, w, moves)) && TasksOk(Exec(cfg, w, moves))
    decreases |moves|
  {
    hide Step, Enabled, TimedOk, TasksOk;
    if moves != [] {
      StepKeepsTimed(cfg, w, moves[0]);
      StepKeepsTasks(cfg, w, moves[0]);
      RunKeepsInvariants(cfg, Step(cfg, w, moves[0]), moves[1..]);
    }
  }

  lemma {:induction false} DefinitionKept(cfg: P.Config, w: World, moves: seq<Move>)
    requires Legal(cfg, w, moves)
    ensures var s := w.schedule; var s' := Exec(cfg, w, moves).schedule;
            s'.kind == s.kind && s'.zone == s.zone && s'.time == s.time && s'.runAt == s.runAt
    decreases |moves|
  {
    if moves != [] {
      DefinitionKept(cfg, Step(cfg, w, moves[0]), moves[1..]);
    }
  }

  // ----- what every run satisfies -----

  /** The occurrences queued by the clock are strictly increasing, so no two share an idempotency
      key, and none of them lies in the future. */
  lemma TimedOccurrencesIncrease(cfg: P.Config, s: Schedule, start: int, moves: seq<Move>)
    requires Created(s, start) && Legal(cfg, Start(s, start), moves)
    ensures var w := Exec(cfg, Start(s, start), moves);
            && (forall i, j :: 0 <= i < j < |w.timed| ==> w.timed[i] < w.timed[j])
            && (forall i :: 0 <= i < |w.timed| ==> w.timed[i] <= w.clock)
  {
    InitialRunOk(s, start);
    RunKeepsInvariants(cfg, Start(s, start), moves);
  }

  /** A one-time schedule is queued by the clock at most once, at its stored time, however often it is
      paused and resumed. */
  lemma OnceAtMostOnce(cfg: P.Config, s: Schedule, start: int, moves: seq<Move>)
    requires Created(s, start) && s.kind == Once && Legal(cfg, Start(s, start), moves)
    ensures var w := Exec(cfg, Start(s, start), moves);
            w.timed == [] || w.timed == [s.runAt.value]
  {
    InitialRunOk(s, start);
    RunKeepsInvariants(cfg, Start(s, start), moves);
    DefinitionKept(cfg, Start(s, start), moves);
    var timed := Exec(cfg, Start(s, start), moves).timed;
    if timed != [] {
      var k := |timed| - 1;
      assert timed[0] == timed[k];
    }
  }

  /** A daily schedule is queued by the clock at most once per local date, always at its wall time. */
  lemma DailyOncePerDate(cfg: P.Config, s: Schedule, start: int, moves: seq<Move>)
    requires Created(s, start) && s.kind == Daily && Legal(cfg, Start(s, start), moves)
    ensures var w := Exec(cfg, Start(s, start), moves);
            && (forall i :: 0 <= i < |w.timed| ==> DailyOccurrence(s.zone, s.time.value, w.timed[i]))
            && (forall i, j :: 0 <= i < j < |w.timed| ==>
                  DateOf(s.zone.toLocal(w.timed[i])) != DateOf(s.zone.toLocal(w.timed[j])))
  {
    InitialRunOk(s, start);
    RunKeepsInvariants(cfg, Start(s, start), moves);
    DefinitionKept(cfg, Start(s, start), moves);
  }

  /** At every moment at most one task of a schedule is queued or running, across timed dispatch,
      manual runs, retries, recovery and cancellation. */
  lemma NoOverlap(cfg: P.Config, s: Schedule, start: int, moves: seq<Move>)
    requires Created(s, start) && Legal(cfg, Start(s, start), moves)
    ensures AtMostOneActive(Exec(cfg, Start(s, start), moves).tasks)
  {
    InitialRunOk(s, start);
    RunKeepsInvariants(cfg, Start(s, start), moves);
  }

  // ----- what the moves do -----

  /** A tick queues an occurrence exactly if the schedule is enabled and due, its times are known, none of its
      tasks is queued or running, and the occurrence is not later than the grace allows; and then one task, due at
      that occurrence, with fifteen minutes to live.  A paused schedule is left alone. */
  lemma TickQueuesIff(cfg: P.Config, w: World, now: int, prompt: bool)
    ensures var w' := Step(cfg, w, Tick(now, prompt)); var s := w.schedule;
            var o := LatestDue(s, now);
            var queues := && s.enabled && s.nextRun.Some? && s.nextRun.value <= now
                          && o.Ok? && NextRunAfter(s, now).Ok? && now - o.value <= s.grace
                          && (forall i :: 0 <= i < |w.tasks| ==>
                                w.tasks[i].row.status != R.Queued && w.tasks[i].row.status != R.Running);
            && (queues ==>
                  && w'.timed == w.timed + [o.value] && |w'.tasks| == |w.tasks| + 1 && w'.tasks[..|w.tasks|] == w.tasks
                  && NewTaskOf(w'.tasks[|w.tasks|].row, s, o.value, prompt))
            && (!queues ==> w'.timed == w.timed && w'.tasks == w.tasks)
            && (!s.enabled ==> w' == w)
  {
  }

  /** The row of a task queued for a time. */
  predicate NewTaskOf(r: R.Row, s: Schedule, at: int, prompt: bool) {
    && r.status == R.Queued && r.attempts == 0 && r.maxAttempts == s.maxAttempts && r.conversation == s.conversation
    && r.hasPrompt == prompt && r.nextAttempt == Some(at) && r.deadline == Some(at + 900)
    && r.token == None && r.replayBlocked == None
  }

  /** A manual run queues one task, due at once, exactly if none of the schedule is queued or running; it is
      never a timed occurrence. */
  lemma ManualQueuesIff(cfg: P.Config, w: World, now: int, prompt: bool)
    requires w.clock <= now
    ensures var w' := Step(cfg, w, Manual(now, prompt));
            var free := forall i :: 0 <= i < |w.tasks| ==>
                          w.tasks[i].row.status != R.Queued && w.tasks[i].row.status != R.Running;
            && w'.timed == w.timed && w'.schedule.nextRun == w.schedule.nextRun && w'.schedule.enabled == w.schedule.enabled
            && (free ==> |w'.tasks| == |w.tasks| + 1 && w'.tasks[..|w.tasks|] == w.tasks
                         && NewTaskOf(w'.tasks[|w.tasks|].row, w.schedule, now, prompt))
            && (!free ==> w'.tasks == w.tasks && w'.schedule == w.schedule)
  {
  }

  /** A task of a schedule still carries the time it was queued for: its deadline is fifteen minutes later, and
      its first claim does not come before it. */
  predicate Punctual(t: P.System) {
    && t.row.deadline.Some?
    && (t.log == [] ==> t.row.nextAttempt == Some(t.row.deadline.value - 900))
    && (t.log != [] && t.log[0].kind.ClaimWrite? ==> t.row.deadline.value - 900 <= t.log[0].at)
  }

  lemma ActionKeepsPunctual(cfg: P.Config, t: P.System, a: P.Action)
    requires Punctual(t) && P.Enabled(cfg, t, a)
    ensures Punctual(P.Step(cfg, t, a))
  {
    P.StepShape(cfg, t, a);
    DeadlineKept(cfg, t, a);
    if t.log == [] && a.Claim? {
      FirstClaim(cfg, t, a);
    }
  }

  lemma DeadlineKept(cfg: P.Config, t: P.System, a: P.Action)
    requires t.row.deadline.Some?
    ensures P.Step(cfg, t, a).row.deadline == t.row.deadline
    ensures P.Step(cfg, t, a).log == t.log ==> P.Step(cfg, t, a).row.nextAttempt == t.row.nextAttempt
    ensures !a.Claim? && |P.Step(cfg, t, a).log| > |t.log| ==> !P.Step(cfg, t, a).log[|t.log|].kind.ClaimWrite?
  {
  }

  lemma FirstClaim(cfg: P.Config, t: P.System, a: P.Action)
    requires a.Claim? && t.log == [] && t.row.nextAttempt.Some?
    ensures var log := P.Step(cfg, t, a).log; log != [] && log[0].kind.ClaimWrite? ==> t.row.nextAttempt.value <= log[0].at
  {
  }

  lemma MoveKeepsPunctual(cfg: P.Config, w: World, m: Move)
    requires (forall i :: 0 <= i < |w.tasks| ==> Punctual(w.tasks[i])) && Enabled(cfg, w, m)
    ensures forall i :: 0 <= i < |Step(cfg, w, m).tasks| ==> Punctual(Step(cfg, w, m).tasks[i])
  {
    hide P.Step, P.Enabled, Dispatch, Enable;
    match m
    case Tick(now, prompt) =>
    case Patch(wanted, now) =>
    case Manual(now, prompt) =>
    case TaskMove(i, a) => ActionKeepsPunctual(cfg, w.tasks[i], a);
  }

  /** In every run no task of a schedule is claimed before the time it was queued for. */
  lemma {:induction false} NeverBeforeItsTime(cfg: P.Config, w: World, moves: seq<Move>)
    requires (forall i :: 0 <= i < |w.tasks| ==> Punctual(w.tasks[i])) && Legal(cfg, w, moves)
    ensures forall i :: 0 <= i < |Exec(cfg, w, moves).tasks| ==> Punctual(Exec(cfg, w, moves).tasks[i])
    decreases |moves|
  {
    hide Step, Enabled, Punctual;
    if moves != [] {
      MoveKeepsPunctual(cfg, w, moves[0]);
      NeverBeforeItsTime(cfg, Step(cfg, w, moves[0]), moves[1..]);
    }
  }
}
