/** Task schedules: deciding what a due schedule does, and pausing, resuming and running it. */
module Schedules {
  import opened Options
  import opened ScheduleTimes

  datatype Kind = Once | Interval | Daily | Other

  datatype DispatchStatus = Never | Dispatched | Missed | OverlapSkipped | Invalid

  datatype Schedule = Schedule(
    kind: Kind,
    zone: Zone,
    runAt: Option<int>,
    interval: Option<int>,
    time: Option<int>,
    grace: nat,
    maxAttempts: nat,
    conversation: Option<nat>,
    nextRun: Option<int>,
    enabled: bool,
    lastRun: Option<int>,
    lastDispatch: Option<int>,
    lastStatus: DispatchStatus
  )

  predicate GoodInterval(s: Schedule) {
    s.interval.Some? && MIN_INTERVAL <= s.interval.value
  }

  /** The first run of a new or resumed schedule. */
  function InitialNextRun(s: Schedule, now: int): Result<int> {
    match s.kind
    case Once => if s.runAt.Some? && now < s.runAt.value then Ok(s.runAt.value) else Raised
    case Interval =>
      if !GoodInterval(s) then Raised
      else if s.runAt.Some? && now < s.runAt.value then Ok(s.runAt.value)
      else Ok(now + s.interval.value)
    case Daily => NextDaily(s.zone, s.time, now)
    case Other => Raised
  }

  /** The run after the one being dispatched; a one-time schedule has none. */
  function NextRunAfter(s: Schedule, now: int): Result<Option<int>> {
    match s.kind
    case Once => Ok(None)
    case Interval =>
      if GoodInterval(s) then Ok(Some(NextOnGrid(s.nextRun.GetOr(now), s.interval.value, now))) else Raised
    case Daily =>
      (match NextDaily(s.zone, s.time, now)
       case Ok(next) => Ok(Some(next))
       case Raised => Raised)
    case Other => Raised
  }

  const LOOKBACK := 3 * DAY

  /** Walk the daily occurrences from `candidate` up to `now`, keeping the latest. */
  function CatchUp(z: Zone, time: Option<int>, occurrence: int, candidate: int, now: int): (r: Result<int>)
    ensures r.Ok? ==> occurrence <= r.value
    decreases now - candidate
  {
    if candidate > now then Ok(occurrence)
    else
      match NextDaily(z, time, candidate)
      case Raised => Raised
      case Ok(next) => CatchUp(z, time, Max(occurrence, candidate), next, now)
  }

  /** The occurrence a due schedule stands for: all missed ones coalesce into the latest. */
  function LatestDue(s: Schedule, now: int): Result<int> {
    var occurrence := s.nextRun.GetOr(now);
    match s.kind
    case Interval =>
      if GoodInterval(s) then Ok(LatestOnGrid(occurrence, s.interval.value, now)) else Raised
    case Daily =>
      (match NextDaily(s.zone, s.time, now - LOOKBACK)
       case Raised => Raised
       case Ok(first) => CatchUp(s.zone, s.time, occurrence, first, now))
    case _ => Ok(occurrence)
  }

  method LatestDueOccurrence(s: Schedule, now: int) returns (r: Result<int>)
    ensures r == LatestDue(s, now)
  {
    var occurrence := s.nextRun.GetOr(now);
    if s.kind == Interval {
      if !GoodInterval(s) {
        return Raised;
      }
      occurrence := occurrence + (now - occurrence) / s.interval.value * s.interval.value;
    } else if s.kind == Daily {
      var candidate := NextDailyRun(s.zone, s.time, now - LOOKBACK);
      while candidate.Ok? && candidate.value <= now
        invariant LatestDue(s, now) == (if candidate.Raised? then Raised
                                        else CatchUp(s.zone, s.time, occurrence, candidate.value, now))
        decreases if candidate.Ok? then now - candidate.value + 1 else 0
      {
        occurrence := Max(occurrence, candidate.value);
        candidate := NextDailyRun(s.zone, s.time, candidate.value);
      }
      if candidate.Raised? {
        return Raised;
      }
    }
    r := Ok(occurrence);
  }

  // ----- dispatch -----

  predicate Due(s: Schedule, now: int) {
    s.enabled && s.nextRun.Some? && s.nextRun.value <= now
  }

  /** What dispatching a due schedule makes of it, and the occurrence it queues, if any. */
  function Dispatch(s: Schedule, now: int, active: bool): (Schedule, Option<int>) {
    var seen := s.(lastDispatch := Some(now));
    match (LatestDue(s, now), NextRunAfter(s, now))
    case (Ok(occurrence), Ok(next)) =>
      var moved := seen.(nextRun := next, enabled := s.enabled && next.Some?);
      if now - occurrence > s.grace then (moved.(lastStatus := Missed), None)
      else if active then (moved.(lastStatus := OverlapSkipped), None)
      else (moved.(lastStatus := Dispatched, lastRun := Some(occurrence)), Some(occurrence))
    case _ => (seen.(enabled := false, lastStatus := Invalid), None)
  }

  /** Pausing, or resuming with a recomputed next run when the stored one has passed; `None` stands
      for the conflict response, after which nothing is stored. */
  function Enable(s: Schedule, wanted: bool, now: int): Option<Schedule> {
    if wanted && (s.nextRun.None? || s.nextRun.value <= now) then
      match InitialNextRun(s, now)
      case Ok(next) => Some(s.(nextRun := Some(next), enabled := true))
      case Raised => None
    else Some(s.(enabled := wanted))
  }

  function RunNow(s: Schedule, now: int): Schedule {
    s.(lastRun := Some(now), lastDispatch := Some(now), lastStatus := Dispatched)
  }

  /** One schedule row; each method is one transaction under its lock. */
  class ScheduleRecord {
    const kind: Kind
    const zone: Zone
    const runAt: Option<int>
    const interval: Option<int>
    const time: Option<int>
    const grace: nat
    const maxAttempts: nat
    const conversation: Option<nat>
    var nextRun: Option<int>
    var enabled: bool
    var lastRun: Option<int>
    var lastDispatch: Option<int>
    var lastStatus: DispatchStatus

    function Value(): Schedule
      reads this
    {
      Schedule(kind, zone, runAt, interval, time, grace, maxAttempts, conversation,
               nextRun, enabled, lastRun, lastDispatch, lastStatus)
    }

    constructor (s: Schedule)
      ensures Value() == s
    {
      kind, zone, runAt, interval, time := s.kind, s.zone, s.runAt, s.interval, s.time;
      grace, maxAttempts, conversation := s.grace, s.maxAttempts, s.conversation;
      nextRun, enabled := s.nextRun, s.enabled;
      lastRun, lastDispatch, lastStatus := s.lastRun, s.lastDispatch, s.lastStatus;
    }

    method DispatchOne(now: int, active: bool) returns (queued: Option<int>)
      modifies this
      ensures (Value(), queued) == Dispatch(old(Value()), now, active)
    {
      var occurrence := LatestDueOccurrence(Value(), now);
      var next := NextRunAfter(Value(), now);
      lastDispatch := Some(now);
      queued := None;
      if occurrence.Raised? || next.Raised? {
        enabled := false;
        lastStatus := Invalid;
        return;
      }
      nextRun := next.value;
      if next.value.None? {
        enabled := false;
      }
      if now - occurrence.value > grace {
        lastStatus := Missed;
      } else if active {
        lastStatus := OverlapSkipped;
      } else {
        lastRun := Some(occurrence.value);
        lastStatus := Dispatched;
        queued := Some(occurrence.value);
      }
    }

    method SetEnabled(wanted: bool, now: int) returns (accepted: bool)
      modifies this
      ensures accepted == Enable(old(Value()), wanted, now).Some?
      ensures Value() == Enable(old(Value()), wanted, now).GetOr(old(Value()))
    {
      if wanted && (nextRun.None? || nextRun.value <= now) {
        var next := InitialNextRun(Value(), now);
        if next.Raised? {
          return false;
        }
        nextRun := Some(next.value);
      }
      enabled := wanted;
      accepted := true;
    }

    method MarkRun(now: int)
      modifies this
      ensures Value() == RunNow(old(Value()), now)
    {
      lastRun := Some(now);
      lastDispatch := Some(now);
      lastStatus := Dispatched;
    }
  }

  // ----- one tick over all due schedules -----

  datatype QueuedTask = QueuedTask(schedule: ScheduleRecord, occurrence: int, active: bool)

  predicate HasActive(tasks: seq<QueuedTask>, schedule: ScheduleRecord) {
    exists i :: 0 <= i < |tasks| && tasks[i].schedule == schedule && tasks[i].active
  }

  /** The tasks a tick adds, in the order of the batch. */
  function NewTasks(batch: seq<ScheduleRecord>, queued: seq<Option<int>>): seq<QueuedTask>
    requires |batch| == |queued|
  {
    if batch == [] then []
    else
      var last := |batch| - 1;
      NewTasks(batch[..last], queued[..last])
      + (if queued[last].Some? then [QueuedTask(batch[last], queued[last].value, true)] else [])
  }

  lemma NothingNew(tasks: seq<QueuedTask>)
    ensures tasks + NewTasks([], []) == tasks
  {
  }

  lemma NewTasksMore(batch: seq<ScheduleRecord>, queued: seq<Option<int>>, schedule: ScheduleRecord, occurrence: Option<int>,
                     tasks: seq<QueuedTask>)
    requires |batch| == |queued|
    ensures tasks + NewTasks(batch + [schedule], queued + [occurrence])
         == (tasks + NewTasks(batch, queued)) + (if occurrence.Some? then [QueuedTask(schedule, occurrence.value, true)] else [])
  {
    assert (batch + [schedule])[..|batch|] == batch && (queued + [occurrence])[..|batch|] == queued;
    Regroup(tasks, NewTasks(batch, queued), if occurrence.Some? then [QueuedTask(schedule, occurrence.value, true)] else []);
  }

  lemma {:induction false} OthersUntouched(batch: seq<ScheduleRecord>, queued: seq<Option<int>>,
                                           tasks: seq<QueuedTask>, schedule: ScheduleRecord)
    requires |batch| == |queued| && schedule !in batch
    ensures HasActive(tasks + NewTasks(batch, queued), schedule) == HasActive(tasks, schedule)
  {
    if batch == [] {
      assert tasks + NewTasks(batch, queued) == tasks;
    } else {
      var last := |batch| - 1;
      var rest := tasks + NewTasks(batch[..last], queued[..last]);
      OthersUntouched(batch[..last], queued[..last], tasks, schedule);
      if queued[last].Some? {
        var all := rest + [QueuedTask(batch[last], queued[last].value, true)];
        assert tasks + NewTasks(batch, queued) == all;
        assert forall i :: 0 <= i < |rest| ==> all[i] == rest[i];
        assert batch[last] != schedule;
      } else {
        assert tasks + NewTasks(batch, queued) == rest;
      }
    }
  }

  /** Every due schedule of the batch is decided on its own: an invalid, missed or overlapping one
      changes nothing for the others, and each queues at most one occurrence. */
  method DispatchDueSchedules(batch: seq<ScheduleRecord>, tasks: seq<QueuedTask>, now: int)
    returns (queued: seq<Option<int>>, tasks': seq<QueuedTask>)
    requires forall i, j :: 0 <= i < j < |batch| ==> batch[i] != batch[j]
    modifies set s | s in batch
    ensures |queued| == |batch|
    ensures forall i :: 0 <= i < |batch| ==>
              (batch[i].Value(), queued[i]) == Dispatch(old(batch[i].Value()), now, HasActive(tasks, batch[i]))
    ensures tasks' == tasks + NewTasks(batch, queued)
  {
    hide Dispatch, HasActive, ScheduleRecord.Value, NewTasks;
    NothingNew(tasks);
    queued, tasks' := [], tasks;
    for n := 0 to |batch|
      invariant |queued| == n
      invariant forall i :: 0 <= i < n ==>
                  (batch[i].Value(), queued[i]) == Dispatch(old(batch[i].Value()), now, HasActive(tasks, batch[i]))
      invariant forall i :: n <= i < |batch| ==> batch[i].Value() == old(batch[i].Value())
      invariant tasks' == tasks + NewTasks(batch[..n], queued)
    {
      OthersUntouched(batch[..n], queued, tasks, batch[n]);
      var occurrence := batch[n].DispatchOne(now, HasActive(tasks', batch[n]));
      if occurrence.Some? {
        tasks' := tasks' + [QueuedTask(batch[n], occurrence.value, true)];
      }
      NewTasksMore(batch[..n], queued, batch[n], occurrence, tasks);
      assert batch[..n + 1] == batch[..n] + [batch[n]];
      queued := queued + [occurrence];
    }
    assert batch[..|batch|] == batch;
  }

  // ----- what the computed times mean -----

  /** The times of a stored schedule are sensible: what creation has checked. */
  predicate Sane(s: Schedule) {
    && 1 <= s.maxAttempts
    && (s.kind == Interval ==> GoodInterval(s))
    && (s.kind == Daily ==> s.time.Some? && TimeOfDay(s.time.value))
    && (s.kind == Once ==> s.runAt.Some? && (s.nextRun.Some? ==> s.nextRun == s.runAt))
    && (s.kind == Daily && s.nextRun.Some? ==> DailyOccurrence(s.zone, s.time.value, s.nextRun.value))
  }

  lemma NextDailyOccurs(z: Zone, time: int, now: int)
    requires TimeOfDay(time) && NextDaily(z, Some(time), now).Ok?
    ensures DailyOccurrence(z, time, NextDaily(z, Some(time), now).value)
  {
    var today := DateOf(z.toLocal(now));
    OccurrenceOfDate(z, time, FirstDate(z, time, now, today, today + DAILY_HORIZON).value);
  }

  lemma {:induction false} CatchUpOccurs(z: Zone, time: int, occurrence: int, candidate: int, now: int)
    requires TimeOfDay(time) && DailyOccurrence(z, time, occurrence) && DailyOccurrence(z, time, candidate)
    requires occurrence <= now
    ensures var r := CatchUp(z, Some(time), occurrence, candidate, now);
            r.Ok? ==> DailyOccurrence(z, time, r.value) && r.value <= now
    decreases now - candidate
  {
    if candidate <= now && NextDaily(z, Some(time), candidate).Ok? {
      NextDailyOccurs(z, time, candidate);
      CatchUpOccurs(z, time, Max(occurrence, candidate), NextDaily(z, Some(time), candidate).value, now);
    }
  }

  lemma {:induction false} CatchUpIsLatest(z: Zone, time: int, occurrence: int, candidate: int, now: int, u: int)
    requires FoldZero(z) && TimeOfDay(time) && DailyOccurrence(z, time, u) && u <= now
    requires u <= occurrence || candidate <= u
    ensures var r := CatchUp(z, Some(time), occurrence, candidate, now); r.Ok? ==> u <= r.value
    decreases now - candidate
  {
    if candidate <= now && NextDaily(z, Some(time), candidate).Ok? {
      NextDailyIsLeast(z, time, candidate);
      CatchUpIsLatest(z, time, Max(occurrence, candidate), NextDaily(z, Some(time), candidate).value, now, u);
    }
  }

  /** A due daily schedule is dispatched for a daily occurrence between its stored next run and now,
      and no daily occurrence of the last three days lies between that one and now. */
  lemma LatestDueDaily(s: Schedule, now: int)
    requires FoldZero(s.zone) && Sane(s) && s.kind == Daily && Due(s, now) && LatestDue(s, now).Ok?
    ensures var o := LatestDue(s, now).value;
            && DailyOccurrence(s.zone, s.time.value, o) && s.nextRun.value <= o <= now
            && forall u :: DailyOccurrence(s.zone, s.time.value, u) && now - 3 * 86400 < u <= now ==> u <= o
  {
    var z, time, occurrence := s.zone, s.time.value, s.nextRun.value;
    var first := NextDaily(z, s.time, now - LOOKBACK).value;
    NextDailyIsLeast(z, time, now - LOOKBACK);
    CatchUpOccurs(z, time, occurrence, first, now);
    forall u | DailyOccurrence(z, time, u) && now - LOOKBACK < u <= now
      ensures u <= LatestDue(s, now).value
    {
      CatchUpIsLatest(z, time, occurrence, first, now, u);
    }
  }

  /** Whatever the kind, a successful dispatch is for an occurrence from the stored next run up to
      now, and leaves a next run after now, or none for a one-time schedule. */
  lemma DispatchMovesOn(s: Schedule, now: int)
    requires Sane(s) && Due(s, now) && LatestDue(s, now).Ok? && NextRunAfter(s, now).Ok?
    ensures var o := LatestDue(s, now).value; var next := NextRunAfter(s, now).value;
            && s.nextRun.value <= o <= now
            && (next.Some? ==> now < next.value)
            && (next.None? <==> s.kind == Once)
            && (s.kind == Once ==> o == s.runAt.value)
            && (s.kind == Daily ==> DailyOccurrence(s.zone, s.time.value, o)
                                    && DailyOccurrence(s.zone, s.time.value, next.value))
  {
    if s.kind == Interval {
      IntervalCoalesces(s.nextRun.value, s.interval.value, now);
      DivBounds(now - s.nextRun.value, s.interval.value);
    } else if s.kind == Daily {
      NextDailyOccurs(s.zone, s.time.value, now);
      NextDailyOccurs(s.zone, s.time.value, now - LOOKBACK);
      CatchUpOccurs(s.zone, s.time.value, s.nextRun.value, NextDaily(s.zone, s.time, now - LOOKBACK).value, now);
    }
  }

  // ----- what each operation means -----

  /** A due interval schedule is dispatched for the greatest time of its grid up to now, and its next run is one
      interval later. */
  lemma IntervalDue(s: Schedule, now: int)
    requires s.kind == Interval && s.interval.Some? && 60 <= s.interval.value && s.nextRun.Some? && s.nextRun.value <= now
    ensures LatestDue(s, now).Ok?
    ensures var o, i := LatestDue(s, now).value, s.interval.value;
            && OnGrid(s.nextRun.value, i, o) && o <= now < o + i
            && NextRunAfter(s, now) == Ok(Some(o + i))
  {
    IntervalCoalesces(s.nextRun.value, s.interval.value, now);
  }

  /** An interval schedule with a missing or too short interval, and one of an unknown kind, has no times. */
  lemma NoTimesIff(s: Schedule, now: int)
    requires s.kind != Daily && s.nextRun.Some?
    ensures LatestDue(s, now).Raised? || NextRunAfter(s, now).Raised? <==>
            s.kind == Other || (s.kind == Interval && (s.interval.None? || s.interval.value < 60))
    ensures s.kind == Once ==> LatestDue(s, now) == Ok(s.nextRun.value) && NextRunAfter(s, now) == Ok(None)
  {
  }

  /** The next run of a daily schedule is its least daily occurrence after now. */
  lemma DailyNext(s: Schedule, now: int)
    requires FoldZero(s.zone) && s.kind == Daily && s.time.Some? && TimeOfDay(s.time.value) && NextRunAfter(s, now).Ok?
    ensures NextRunAfter(s, now).value.Some?
    ensures var next := NextRunAfter(s, now).value.value;
            && DailyOccurrence(s.zone, s.time.value, next) && now < next
            && forall u :: DailyOccurrence(s.zone, s.time.value, u) && now < u ==> next <= u
  {
    NextDailyIsLeast(s.zone, s.time.value, now);
  }

  /** With both times known, the occurrence is queued exactly if nothing is active and it is not later than the
      grace allows; a late one counts as missed even when something is active.  The schedule moves on in every
      case, and ends when there is no next run.  Without its times it is disabled and stays where it was. */
  lemma DispatchOutcome(s: Schedule, now: int, active: bool)
    ensures var (s', queued) := Dispatch(s, now, active);
            var o, next := LatestDue(s, now), NextRunAfter(s, now);
            && s' == s.(nextRun := s'.nextRun, enabled := s'.enabled, lastRun := s'.lastRun,
                        lastDispatch := Some(now), lastStatus := s'.lastStatus)
            && s'.lastRun == (if queued.Some? then queued else s.lastRun)
            && (o.Ok? && next.Ok? ==>
                  && (queued == Some(o.value) <==> !active && now - o.value <= s.grace)
                  && (queued.None? <==> active || s.grace < now - o.value)
                  && (s'.lastStatus == Missed <==> s.grace < now - o.value)
                  && (s'.lastStatus == OverlapSkipped <==> active && now - o.value <= s.grace)
                  && (s'.lastStatus == Dispatched <==> queued.Some?)
                  && s'.nextRun == next.value && (s'.enabled <==> s.enabled && next.value.Some?))
            && (o.Raised? || next.Raised? ==>
                  queued == None && !s'.enabled && s'.lastStatus == Invalid && s'.nextRun == s.nextRun)
  {
  }

  /** The first run of a new or resumed schedule: a one-time one only in the future, an interval one at its start
      if that lies ahead and else one interval from now, a daily one at its least occurrence after now. */
  lemma InitialRunMeaning(s: Schedule, now: int)
    requires s.kind == Daily ==> FoldZero(s.zone) && s.time.Some? && TimeOfDay(s.time.value)
    ensures var r := InitialNextRun(s, now);
            && (r.Ok? ==> now < r.value)
            && (s.kind == Once ==>
                  && (r.Ok? <==> s.runAt.Some? && now < s.runAt.value) && (r.Ok? ==> r.value == s.runAt.value))
            && (s.kind == Interval ==>
                  && (r.Ok? <==> s.interval.Some? && 60 <= s.interval.value)
                  && (r.Ok? && s.runAt.Some? && now < s.runAt.value ==> r.value == s.runAt.value)
                  && (r.Ok? && (s.runAt.None? || s.runAt.value <= now) ==> r.value - now == s.interval.value))
            && (s.kind == Daily && r.Ok? ==>
                  && DailyOccurrence(s.zone, s.time.value, r.value)
                  && forall u :: DailyOccurrence(s.zone, s.time.value, u) && now < u ==> r.value <= u)
            && (s.kind == Other ==> r.Raised?)
  {
    if s.kind == Daily && InitialNextRun(s, now).Ok? {
      NextDailyIsLeast(s.zone, s.time.value, now);
    }
  }

  /** Pausing changes nothing but the flag; resuming keeps a run that lies ahead, replaces one that has passed by
      the first run of a new schedule, and is refused exactly when there is none. */
  lemma EnableMeaning(s: Schedule, wanted: bool, now: int)
    ensures var r := Enable(s, wanted, now);
            && (!wanted ==> r == Some(s.(enabled := false)))
            && (wanted && s.nextRun.Some? && now < s.nextRun.value ==> r == Some(s.(enabled := true)))
            && (wanted && (s.nextRun.None? || s.nextRun.value <= now) ==>
                  && (r.None? <==> InitialNextRun(s, now).Raised?)
                  && (r.Some? ==> r.value == s.(enabled := true, nextRun := r.value.nextRun)
                                  && r.value.nextRun.Some? && InitialNextRun(s, now) == Ok(r.value.nextRun.value)))
  {
  }

  /** A manual run leaves the timed runs of the schedule alone. */
  lemma ManualRunKeepsTimes(s: Schedule, now: int)
    ensures RunNow(s, now).nextRun == s.nextRun && RunNow(s, now).enabled == s.enabled
    ensures RunNow(s, now).lastRun == Some(now) && RunNow(s, now).lastStatus == Dispatched
    ensures forall later :: Due(RunNow(s, now), later) == Due(s, later)
  {
  }
}
