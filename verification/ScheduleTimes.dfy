/** When a schedule runs next: one-time, fixed interval, or daily at a local wall time. */
module ScheduleTimes {
  import opened Options

  const DAY := 86400
  const MIN_INTERVAL := 60
  const DAILY_HORIZON := 370

  /** A time zone: the wall clock at a UTC instant, and the instant of a wall time with fold 0.
      Wall times count local seconds, so a wall time divided by `DAY` is its date. */
  datatype Zone = Zone(toLocal: int -> int, toUtc: int -> int)

  function DateOf(wall: int): int {
    wall / DAY
  }

  function Wall(date: int, time: int): int {
    date * DAY + time
  }

  lemma WallFacts(date: int, time: int)
    requires TimeOfDay(time)
    ensures DateOf(Wall(date, time)) == date
    ensures forall d :: d < date ==> Wall(d, time) < Wall(date, time)
    ensures forall w :: DateOf(w) > date ==> Wall(date, time) < w
  {
  }

  /** The wall time of day `time` on date `date` exists: it survives the round trip. */
  predicate Exists(z: Zone, date: int, time: int) {
    z.toLocal(z.toUtc(Wall(date, time))) == Wall(date, time)
  }

  /** `u` is a daily occurrence: the first instant at which the wall clock shows `time` on some date. */
  predicate DailyOccurrence(z: Zone, time: int, u: int) {
    var date := DateOf(z.toLocal(u));
    z.toLocal(u) == Wall(date, time) && u == z.toUtc(z.toLocal(u))
  }

  /** Fold 0 picks the first instant at which a wall time is read. */
  predicate FirstReading(z: Zone, u: int) {
    z.toUtc(z.toLocal(u)) <= u && z.toLocal(z.toUtc(z.toLocal(u))) == z.toLocal(u)
  }

  /** The first readings of two wall times that both occur come in the order of the wall times. */
  predicate ReadInOrder(z: Zone, m: int, n: int) {
    m < n && z.toLocal(z.toUtc(m)) == m && z.toLocal(z.toUtc(n)) == n ==> z.toUtc(m) < z.toUtc(n)
  }

  ghost predicate FoldZero(z: Zone) {
    && (forall u :: FirstReading(z, u))
    && (forall m, n :: ReadInOrder(z, m, n))
  }

  /** From `at` on the local clock is `offset` ahead of UTC. */
  datatype Change = Change(at: int, offset: int)

  /** A zone given by its first offset and its changes. */
  function ZoneOf(offset: int, changes: seq<Change>): Zone {
    Zone(u => u + OffsetAt(offset, changes, u), m => m - OffsetRead(offset, changes, m))
  }

  function OffsetAt(offset: int, changes: seq<Change>, u: int): int
    decreases |changes|
  {
    if changes == [] || u < changes[0].at then offset else OffsetAt(changes[0].offset, changes[1..], u)
  }

  /** The offset a wall time is read with: across a change a skipped wall time is read with the old one, and
      a repeated one at its first reading. */
  function OffsetRead(offset: int, changes: seq<Change>, m: int): int
    decreases |changes|
  {
    if changes == [] || m < changes[0].at + Max(offset, changes[0].offset) then offset
    else OffsetRead(changes[0].offset, changes[1..], m)
  }

  /** Changes come in order, and none sets the local clock back behind where the one before it had set it. */
  predicate Spaced(changes: seq<Change>) {
    forall i :: 0 < i < |changes| ==>
      && changes[i - 1].at < changes[i].at
      && changes[i - 1].offset - changes[i].offset <= changes[i].at - changes[i - 1].at
  }

  lemma SpacedTail(changes: seq<Change>)
    requires Spaced(changes) && changes != []
    ensures Spaced(changes[1..])
    ensures |changes| > 1 ==> changes[1..][0] == changes[1] && changes[0].at < changes[1].at
                              && changes[0].offset - changes[1].offset <= changes[1].at - changes[0].at
  {
  }

  /** After a change the local clock never reads less than right after it. */
  lemma {:induction false} ClockFloor(changes: seq<Change>, u: int)
    requires Spaced(changes) && changes != [] && changes[0].at <= u
    ensures changes[0].at + changes[0].offset <= u + OffsetAt(changes[0].offset, changes[1..], u)
  {
    SpacedTail(changes);
    if |changes| > 1 && changes[1].at <= u {
      ClockFloor(changes[1..], u);
    }
  }

  lemma {:induction false} ReadsFirst(offset: int, changes: seq<Change>, u: int)
    requires Spaced(changes)
    ensures FirstReading(ZoneOf(offset, changes), u)
    decreases |changes|
  {
    if changes != [] && changes[0].at <= u {
      var first, rest := changes[0], changes[1..];
      SpacedTail(changes);
      ReadsFirst(first.offset, rest, u);
      ClockFloor(changes, u);
      var m := u + OffsetAt(first.offset, rest, u);
      if m >= first.at + Max(offset, first.offset) {
        var v := m - OffsetRead(first.offset, rest, m);
        assert ZoneOf(first.offset, rest).toLocal(v) == m;
        assert first.at <= v;
      }
    }
  }

  /** A wall time that occurs is read before a change exactly if it lies before the threshold. */
  lemma SideOfChange(offset: int, changes: seq<Change>, m: int)
    requires Spaced(changes) && changes != [] && var z := ZoneOf(offset, changes); z.toLocal(z.toUtc(m)) == m
    ensures m < changes[0].at + Max(offset, changes[0].offset) <==> ZoneOf(offset, changes).toUtc(m) < changes[0].at
  {
    var v := ZoneOf(offset, changes).toUtc(m);
    if changes[0].at <= v {
      ClockFloor(changes, v);
    }
  }

  lemma {:induction false} ReadsInOrder(offset: int, changes: seq<Change>, m: int, n: int)
    requires Spaced(changes)
    ensures ReadInOrder(ZoneOf(offset, changes), m, n)
    decreases |changes|
  {
    var z := ZoneOf(offset, changes);
    if changes != [] && m < n && z.toLocal(z.toUtc(m)) == m && z.toLocal(z.toUtc(n)) == n {
      SideOfChange(offset, changes, m);
      SideOfChange(offset, changes, n);
      SpacedTail(changes);
      ReadsInOrder(changes[0].offset, changes[1..], m, n);
    }
  }

  /** The hypotheses on zones hold for every zone with any list of such changes, forward or back. */
  lemma ChangesAreFoldZero(offset: int, changes: seq<Change>)
    requires Spaced(changes)
    ensures FoldZero(ZoneOf(offset, changes))
  {
    hide FirstReading, ReadInOrder;
    forall u ensures FirstReading(ZoneOf(offset, changes), u) {
      ReadsFirst(offset, changes, u);
    }
    forall m, n ensures ReadInOrder(ZoneOf(offset, changes), m, n) {
      ReadsInOrder(offset, changes, m, n);
    }
  }

  // ----- daily schedules -----

  /** The first date in [date, last) whose wall time exists and lies after `now`. */
  function FirstDate(z: Zone, time: int, now: int, date: int, last: int): (r: Option<int>)
    ensures r.Some? ==> date <= r.value < last && Exists(z, r.value, time) && now < z.toUtc(Wall(r.value, time))
    decreases last - date
  {
    if date >= last then None
    else if Exists(z, date, time) && z.toUtc(Wall(date, time)) > now then Some(date)
    else FirstDate(z, time, now, date + 1, last)
  }

  /** The next daily run after `now`, or an error when the time is missing or no date of the next
      year has one.  `time` is the parsed time of day. */
  function NextDaily(z: Zone, time: Option<int>, now: int): (r: Result<int>)
    ensures r.Ok? ==> now < r.value
  {
    if time.None? then Raised
    else
      var date := DateOf(z.toLocal(now));
      match FirstDate(z, time.value, now, date, date + DAILY_HORIZON)
      case None => Raised
      case Some(d) => Ok(z.toUtc(Wall(d, time.value)))
  }

  method NextDailyRun(z: Zone, time: Option<int>, now: int) returns (r: Result<int>)
    ensures r == NextDaily(z, time, now)
  {
    if time.None? {
      return Raised;
    }
    var date := DateOf(z.toLocal(now));
    for offset := 0 to DAILY_HORIZON
      invariant FirstDate(z, time.value, now, date, date + DAILY_HORIZON)
             == FirstDate(z, time.value, now, date + offset, date + DAILY_HORIZON)
    {
      var naive := Wall(date + offset, time.value);
      var candidate := z.toUtc(naive);
      if z.toLocal(candidate) != naive {
        continue;
      }
      if candidate > now {
        return Ok(candidate);
      }
    }
    r := Raised;
  }

  predicate TimeOfDay(time: int) {
    0 <= time < DAY
  }

  lemma {:induction false} FirstDateSearches(z: Zone, time: int, now: int, date: int, last: int)
    ensures var r := FirstDate(z, time, now, date, last);
            (forall d :: date <= d < (if r.Some? then r.value else last) && Exists(z, d, time)
                  ==> z.toUtc(Wall(d, time)) <= now)
    decreases last - date
  {
    if date < last {
      FirstDateSearches(z, time, now, date + 1, last);
    }
  }

  /** An occurrence on a date before the local date of `now` has passed. */
  lemma EarlierDatesPassed(z: Zone, time: int, now: int, u: int)
    requires FoldZero(z) && TimeOfDay(time) && DailyOccurrence(z, time, u)
    requires DateOf(z.toLocal(u)) < DateOf(z.toLocal(now))
    ensures u <= now
  {
    WallFacts(DateOf(z.toLocal(u)), time);
    assert FirstReading(z, now) && ReadInOrder(z, z.toLocal(u), z.toLocal(now));
  }

  lemma OccurrenceOfDate(z: Zone, time: int, date: int)
    requires TimeOfDay(time) && Exists(z, date, time)
    ensures DailyOccurrence(z, time, z.toUtc(Wall(date, time)))
  {
    WallFacts(date, time);
  }

  /** No daily occurrence after `now` lies on a date before `date`. */
  ghost predicate NoneBefore(z: Zone, time: int, now: int, date: int) {
    forall u :: DailyOccurrence(z, time, u) && now < u ==> date <= DateOf(z.toLocal(u))
  }

  lemma SearchCovers(z: Zone, time: int, now: int, last: int)
    requires FoldZero(z) && TimeOfDay(time)
    ensures var r := FirstDate(z, time, now, DateOf(z.toLocal(now)), last);
            NoneBefore(z, time, now, if r.Some? then r.value else last) || last < DateOf(z.toLocal(now))
  {
    hide DateOf, Wall;
    var today := DateOf(z.toLocal(now));
    var found := FirstDate(z, time, now, today, last);
    FirstDateSearches(z, time, now, today, last);
    if today <= last {
      forall u | DailyOccurrence(z, time, u) && now < u
        ensures (if found.Some? then found.value else last) <= DateOf(z.toLocal(u))
      {
        var date := DateOf(z.toLocal(u));
        if date < today {
          EarlierDatesPassed(z, time, now, u);
        } else {
          assert Exists(z, date, time) && u == z.toUtc(Wall(date, time));
        }
      }
    }
  }

  /** The next daily run is the least daily occurrence after `now`. */
  lemma NextDailyIsLeast(z: Zone, time: int, now: int)
    requires FoldZero(z) && TimeOfDay(time) && NextDaily(z, Some(time), now).Ok?
    ensures var next := NextDaily(z, Some(time), now).value;
            && DailyOccurrence(z, time, next) && now < next
            && forall u :: DailyOccurrence(z, time, u) && now < u ==> next <= u
  {
    hide DateOf, Wall;
    var today := DateOf(z.toLocal(now));
    var found := FirstDate(z, time, now, today, today + DAILY_HORIZON).value;
    FirstDateSearches(z, time, now, today, today + DAILY_HORIZON);
    SearchCovers(z, time, now, today + DAILY_HORIZON);
    OccurrenceOfDate(z, time, found);
    forall u | DailyOccurrence(z, time, u) && now < u
      ensures z.toUtc(Wall(found, time)) <= u
    {
      WallFacts(DateOf(z.toLocal(u)), time);
      assert found <= DateOf(z.toLocal(u));
      assert ReadInOrder(z, Wall(found, time), z.toLocal(u));
    }
  }

  /** It fails exactly when no daily occurrence after `now` has one of the next 370 local dates. */
  lemma NextDailyFails(z: Zone, time: int, now: int)
    requires FoldZero(z) && TimeOfDay(time)
    ensures NextDaily(z, Some(time), now).Raised?
       <==> NoneBefore(z, time, now, DateOf(z.toLocal(now)) + 370)
  {
    hide DateOf, Wall;
    var today := DateOf(z.toLocal(now));
    var found := FirstDate(z, time, now, today, today + DAILY_HORIZON);
    FirstDateSearches(z, time, now, today, today + DAILY_HORIZON);
    SearchCovers(z, time, now, today + DAILY_HORIZON);
    if found.Some? {
      OccurrenceOfDate(z, time, found.value);
      WallFacts(found.value, time);
    }
  }

  // ----- fixed intervals -----

  /** The greatest time of the grid through `next` that is not after `now`. */
  function LatestOnGrid(next: int, interval: nat, now: int): int
    requires interval > 0
  {
    next + (now - next) / interval * interval
  }

  /** Computed separately from the occurrence: one interval on, then past all missed ones. */
  function NextOnGrid(next: int, interval: nat, now: int): int
    requires interval > 0
  {
    var candidate := next + interval;
    if candidate <= now then candidate + ((now - candidate) / interval + 1) * interval else candidate
  }

  ghost predicate OnGrid(next: int, interval: nat, t: int) {
    exists k: nat :: t == next + k * interval
  }

  lemma MulOrdered(a: int, b: int, c: nat)
    requires a <= b
    ensures a * c <= b * c
  {
  }

  lemma DivBounds(a: int, b: nat)
    requires b > 0
    ensures a / b * b <= a < (a / b + 1) * b
    ensures a >= 0 ==> a / b >= 0
  {
    assert a == a / b * b + a % b;
  }

  lemma QuotientUnique(a: int, b: nat, q: int)
    requires b > 0 && q * b <= a < (q + 1) * b
    ensures a / b == q
  {
    DivBounds(a, b);
    if a / b < q {
      MulOrdered(a / b + 1, q, b);
    } else if q < a / b {
      MulOrdered(q + 1, a / b, b);
    }
  }

  lemma NextFollowsLatest(next: int, interval: nat, now: int)
    requires interval > 0 && next <= now
    ensures NextOnGrid(next, interval, now) == LatestOnGrid(next, interval, now) + interval
  {
    var q := (now - next) / interval;
    DivBounds(now - next, interval);
    var candidate := next + interval;
    if candidate <= now {
      QuotientUnique(now - candidate, interval, q - 1);
    } else {
      QuotientUnique(now - next, interval, 0);
    }
  }

  /** For a due schedule the dispatched occurrence is the greatest grid time not after `now`, the next
      run is the least grid time after `now`, and they are one interval apart. */
  lemma IntervalCoalesces(next: int, interval: nat, now: int)
    requires interval > 0 && next <= now
    ensures var o := LatestOnGrid(next, interval, now);
            var n := NextOnGrid(next, interval, now);
            && OnGrid(next, interval, o) && o <= now
            && OnGrid(next, interval, n) && now < n
            && n == o + interval
            && forall t :: OnGrid(next, interval, t) ==> t <= o || n <= t
  {
    var q := (now - next) / interval;
    DivBounds(now - next, interval);
    NextFollowsLatest(next, interval, now);
    assert NextOnGrid(next, interval, now) == next + (q + 1) * interval;
    forall t | OnGrid(next, interval, t)
      ensures t <= next + q * interval || next + (q + 1) * interval <= t
    {
      var k: nat :| t == next + k * interval;
      if k <= q {
        MulOrdered(k, q, interval);
      } else {
        MulOrdered(q + 1, k, interval);
      }
    }
  }
}
