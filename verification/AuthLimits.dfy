/** Fixed-window admission limits kept in a shared table of buckets. */
module AuthLimits {
  import opened Options

  /** A hashed address, or a hashed address with an account name. */
  type Key = string

  datatype Bucket = Bucket(count: nat, resetAt: int)

  const CLEANUP_AGE := 3600
  const CLEANUP_BATCH := 100

  /** The upsert of one request: a missing or expired bucket opens a new window. */
  function Hit(b: Option<Bucket>, now: int, window: nat): Bucket {
    if b.None? || b.value.resetAt <= now then Bucket(1, now + window)
    else Bucket(b.value.count + 1, b.value.resetAt)
  }

  function Find(rows: map<Key, Bucket>, key: Key): Option<Bucket> {
    if key in rows then Some(rows[key]) else None
  }

  /** The shared table; each request and each cleanup is one transaction. */
  class RateTable {
    var rows: map<Key, Bucket>

    /** Counts the request in one bucket and says whether it is within the limit. */
    method Count(key: Key, limit: nat, now: int, window: nat) returns (admitted: bool, retryAfter: int)
      modifies this
      ensures rows == old(rows)[key := Hit(Find(old(rows), key), now, window)]
      ensures rows.Keys == old(rows).Keys + {key} && forall k :: k in old(rows) && k != key ==> rows[k] == old(rows)[k]
      ensures if key in old(rows) && old(rows)[key].resetAt > now
              then rows[key].count == old(rows)[key].count + 1 && rows[key].resetAt == old(rows)[key].resetAt
              else rows[key].count == 1 && rows[key].resetAt == now + window
      ensures admitted == (rows[key].count <= limit)
      ensures !admitted && 1 <= rows[key].resetAt - now <= window ==> retryAfter == rows[key].resetAt - now
      ensures !admitted && window >= 1 ==> 1 <= retryAfter <= window
      ensures admitted ==> retryAfter == 0
    {
      if key in rows && rows[key].resetAt > now {
        rows := rows[key := Bucket(rows[key].count + 1, rows[key].resetAt)];
      } else {
        rows := rows[key := Bucket(1, now + window)];
      }
      admitted := rows[key].count <= limit;
      retryAfter := if admitted then 0 else Max(1, Min(window, rows[key].resetAt - now));
    }

    /** The address bucket is counted first; the account bucket only if the address is within its limit.
        `0` admits the request. */
    method Admit(address: Key, account: Key, addressLimit: nat, accountLimit: nat, now: int, window: nat)
      returns (retryAfter: int)
      requires address != account && window >= 1
      modifies this
      ensures var l := Limits(addressLimit, accountLimit, window);
              && rows == AfterAttempt(old(rows), address, account, now, l)
              && (retryAfter == 0 <==> Admits(old(rows), address, account, now, l))
      ensures retryAfter == 0
         <==> RoomIn(old(rows), address, now, addressLimit) && RoomIn(old(rows), account, now, accountLimit)
      ensures 0 <= retryAfter <= window
    {
      var admitted;
      admitted, retryAfter := Count(address, addressLimit, now, window);
      if admitted {
        admitted, retryAfter := Count(account, accountLimit, now, window);
      }
    }

    /** Deletes the longest expired rows that nobody else has locked, at most a batch of them. */
    method Cleanup(locked: set<Key>, now: int)
      modifies this
      ensures Cleaned(old(rows), rows, locked, now)
    {
      hide Cleaning, Cleaned;
      var removed: set<Key> := {};
      NothingCleaned(rows, locked, now);
      while |removed| < CLEANUP_BATCH
        invariant Cleaning(old(rows), rows, removed, locked, now) && |removed| <= CLEANUP_BATCH
        decreases CLEANUP_BATCH - |removed|
      {
        var expired := set k | k in rows && Expired(rows, k, locked, now);
        assert forall k :: Expired(rows, k, locked, now) ==> k in expired;
        if expired == {} {
          CleaningDone(old(rows), rows, removed, locked, now);
          return;
        }
        var k := Oldest(expired);
        CleaningTurn(old(rows), rows, removed, locked, now, k);
        removed := removed + {k};
        rows := rows - {k};
      }
      CleaningDone(old(rows), rows, removed, locked, now);
    }

    /** One of the given rows whose window ended first. */
    method Oldest(keys: set<Key>) returns (k: Key)
      requires keys != {} && keys <= rows.Keys
      ensures k in keys && forall j :: j in keys ==> rows[k].resetAt <= rows[j].resetAt
    {
      k :| k in keys;
      var rest := keys - {k};
      while rest != {}
        invariant rest < keys && k in keys - rest
        invariant forall j :: j in keys - rest ==> rows[k].resetAt <= rows[j].resetAt
        decreases |rest|
      {
        var j :| j in rest;
        rest := rest - {j};
        if rows[j].resetAt < rows[k].resetAt {
          k := j;
        }
      }
    }
  }

  // ----- an attempt and a cleanup on the whole table -----

  datatype Limits = Limits(address: nat, account: nat, window: nat)

  function AfterAttempt(rows: map<Key, Bucket>, address: Key, account: Key, now: int, l: Limits): map<Key, Bucket> {
    var first := Hit(Find(rows, address), now, l.window);
    var counted := rows[address := first];
    if first.count > l.address then counted else counted[account := Hit(Find(counted, account), now, l.window)]
  }

  predicate Admits(rows: map<Key, Bucket>, address: Key, account: Key, now: int, l: Limits) {
    && Hit(Find(rows, address), now, l.window).count <= l.address
    && Hit(Find(rows, account), now, l.window).count <= l.account
  }

  /** One more request of a bucket is within the limit: in an open window fewer were counted, and otherwise the
      limit allows any at all. */
  predicate RoomIn(rows: map<Key, Bucket>, key: Key, now: int, limit: nat) {
    if key in rows && now < rows[key].resetAt then rows[key].count < limit else 1 <= limit
  }

  predicate LongExpired(b: Bucket, now: int) {
    b.resetAt < now - CLEANUP_AGE
  }

  predicate Expired(rows: map<Key, Bucket>, k: Key, locked: set<Key>, now: int) {
    k in rows && k !in locked && LongExpired(rows[k], now)
  }

  /** At most a batch of rows is gone, all of them expired for more than an hour and locked by nobody; the
      others are as they were; no expired row was kept that is older than a removed one, and none at
      all if the batch is not full. */
  ghost predicate Cleaned(rows: map<Key, Bucket>, rows': map<Key, Bucket>, locked: set<Key>, now: int) {
    var gone := rows.Keys - rows'.Keys;
    && |gone| <= 100
    && (forall k :: k in gone ==> k !in locked && rows[k].resetAt + 3600 < now)
    && (forall k :: k in rows' ==> k in rows && rows'[k] == rows[k])
    && (forall k, j :: k in gone && j in rows' && j !in locked ==> rows[k].resetAt <= rows'[j].resetAt)
    && (|gone| < 100 ==> forall k :: k in rows' && k !in locked ==> now <= rows'[k].resetAt + 3600)
  }

  /** The state of a cleanup that has removed some rows. */
  ghost predicate Cleaning(rows: map<Key, Bucket>, rows': map<Key, Bucket>, removed: set<Key>, locked: set<Key>, now: int) {
    && removed <= rows.Keys && rows' == rows - removed
    && (forall k :: k in removed ==> Expired(rows, k, locked, now))
    && (forall k, j :: k in removed && Expired(rows', j, locked, now) ==> rows[k].resetAt <= rows[j].resetAt)
  }

  lemma NothingCleaned(rows: map<Key, Bucket>, locked: set<Key>, now: int)
    ensures Cleaning(rows, rows, {}, locked, now)
  {
    assert rows - {} == rows;
  }

  lemma CleaningTurn(rows: map<Key, Bucket>, rows': map<Key, Bucket>, removed: set<Key>, locked: set<Key>, now: int, k: Key)
    requires Cleaning(rows, rows', removed, locked, now) && Expired(rows', k, locked, now)
    requires forall j :: Expired(rows', j, locked, now) ==> rows'[k].resetAt <= rows'[j].resetAt
    ensures k !in removed && Cleaning(rows, rows' - {k}, removed + {k}, locked, now)
  {
    assert rows' - {k} == rows - (removed + {k});
    assert forall j :: Expired(rows' - {k}, j, locked, now) ==> Expired(rows', j, locked, now);
  }

  lemma CleaningDone(rows: map<Key, Bucket>, rows': map<Key, Bucket>, removed: set<Key>, locked: set<Key>, now: int)
    requires Cleaning(rows, rows', removed, locked, now) && |removed| <= CLEANUP_BATCH
    requires |removed| < CLEANUP_BATCH ==> forall k :: !Expired(rows', k, locked, now)
    ensures Cleaned(rows, rows', locked, now)
  {
    assert rows.Keys - rows'.Keys == removed;
    forall k, j | k in removed && j in rows' && j !in locked ensures rows[k].resetAt <= rows'[j].resetAt {
      assert Expired(rows, k, locked, now);
      assert Expired(rows', j, locked, now) || now <= rows'[j].resetAt + 3600;
    }
    if |removed| < CLEANUP_BATCH {
      forall k | k in rows' && k !in locked ensures now <= rows'[k].resetAt + 3600 {
        assert !Expired(rows', k, locked, now);
      }
    }
  }

  // ----- one bucket over a whole run -----

  datatype Event = Request(at: int) | Delete(at: int)

  /** Times never run backwards, and only rows expired for more than an hour are deleted. */
  predicate Legal(b: Option<Bucket>, events: seq<Event>, clock: int, window: nat)
    decreases |events|
  {
    events == [] ||
    (clock <= events[0].at &&
     match events[0]
     case Request(now) => Legal(Some(Hit(b, now, window)), events[1..], now, window)
     case Delete(now) => b.Some? && b.value.resetAt < now - CLEANUP_AGE && Legal(None, events[1..], now, window))
  }

  /** The times of the admitted requests of the bucket. */
  function Admitted(b: Option<Bucket>, events: seq<Event>, limit: nat, window: nat): seq<int>
    decreases |events|
  {
    if events == [] then []
    else
      match events[0]
      case Request(now) =>
        var b' := Hit(b, now, window);
        (if b'.count <= limit then [now] else []) + Admitted(Some(b'), events[1..], limit, window)
      case Delete(_) => Admitted(None, events[1..], limit, window)
  }

  // ----- the whole table over a run -----

  datatype Call = Attempt(address: Key, account: Key, at: int) | Sweep(gone: set<Key>, at: int)

  function AfterCall(rows: map<Key, Bucket>, call: Call, l: Limits): map<Key, Bucket> {
    match call
    case Attempt(address, account, now) => AfterAttempt(rows, address, account, now, l)
    case Sweep(gone, _) => rows - gone
  }

  /** Times never run backwards, the two buckets of an attempt differ, and sweeps delete long expired rows. */
  predicate LegalCalls(rows: map<Key, Bucket>, calls: seq<Call>, clock: int, l: Limits)
    decreases |calls|
  {
    calls == [] ||
    (&& clock <= calls[0].at
     && (match calls[0]
         case Attempt(address, account, _) => address != account
         case Sweep(gone, now) => forall k :: k in gone ==> k in rows && LongExpired(rows[k], now))
     && LegalCalls(AfterCall(rows, calls[0], l), calls[1..], calls[0].at, l))
  }

  /** A cleanup is such a sweep. */
  lemma CleanupIsSweep(rows: map<Key, Bucket>, rows': map<Key, Bucket>, locked: set<Key>, now: int, l: Limits)
    requires Cleaned(rows, rows', locked, now)
    ensures var sweep := Sweep(rows.Keys - rows'.Keys, now);
            AfterCall(rows, sweep, l) == rows' && LegalCalls(rows, [sweep], now, l)
  {
    var sweep := Sweep(rows.Keys - rows'.Keys, now);
    assert [sweep][1..] == [];
  }

  /** Which attempts are admitted, in order. */
  function Verdicts(rows: map<Key, Bucket>, calls: seq<Call>, l: Limits): seq<bool>
    decreases |calls|
  {
    if calls == [] then []
    else (if calls[0].Attempt? then [Admits(rows, calls[0].address, calls[0].account, calls[0].at, l)] else [])
         + Verdicts(AfterCall(rows, calls[0], l), calls[1..], l)
  }

  function Attempts(calls: seq<Call>): seq<Call> {
    if calls == [] then [] else (if calls[0].Attempt? then [calls[0]] else []) + Attempts(calls[1..])
  }

  /** Two bucket states that no request from `clock` on can tell apart. */
  predicate Alike(b: Option<Bucket>, c: Option<Bucket>, clock: int) {
    b == c || ((b.None? || b.value.resetAt <= clock) && (c.None? || c.value.resetAt <= clock))
  }

  ghost predicate TablesAlike(rows: map<Key, Bucket>, other: map<Key, Bucket>, clock: int) {
    forall k: Key :: Alike(Find(rows, k), Find(other, k), clock)
  }

  lemma AttemptsAlike(rows: map<Key, Bucket>, other: map<Key, Bucket>, address: Key, account: Key, clock: int, now: int, l: Limits)
    requires TablesAlike(rows, other, clock) && clock <= now && address != account
    ensures Admits(rows, address, account, now, l) == Admits(other, address, account, now, l)
    ensures TablesAlike(AfterAttempt(rows, address, account, now, l), AfterAttempt(other, address, account, now, l), now)
  {
    assert Alike(Find(rows, address), Find(other, address), clock);
    assert Alike(Find(rows, account), Find(other, account), clock);
    var rows', other' := AfterAttempt(rows, address, account, now, l), AfterAttempt(other, address, account, now, l);
    forall k: Key ensures Alike(Find(rows', k), Find(other', k), now) {
      assert Alike(Find(rows, k), Find(other, k), clock);
    }
  }

  lemma SweepAlike(rows: map<Key, Bucket>, other: map<Key, Bucket>, gone: set<Key>, clock: int, now: int)
    requires TablesAlike(rows, other, clock) && clock <= now
    requires forall k :: k in gone ==> k in rows && LongExpired(rows[k], now)
    ensures TablesAlike(rows - gone, other, now)
  {
    forall k: Key ensures Alike(Find(rows - gone, k), Find(other, k), now) {
      assert Alike(Find(rows, k), Find(other, k), clock);
    }
  }

  lemma {:induction false} SweepsInvisible(rows: map<Key, Bucket>, other: map<Key, Bucket>, calls: seq<Call>, clock: int, l: Limits)
    requires LegalCalls(rows, calls, clock, l) && TablesAlike(rows, other, clock)
    ensures Verdicts(rows, calls, l) == Verdicts(other, Attempts(calls), l)
    decreases |calls|
  {
    hide TablesAlike, Admits, AfterAttempt;
    if calls != [] {
      match calls[0]
      case Attempt(address, account, now) =>
        AttemptsAlike(rows, other, address, account, clock, now, l);
        SweepsInvisible(AfterCall(rows, calls[0], l), AfterCall(other, calls[0], l), calls[1..], now, l);
        assert ([calls[0]] + Attempts(calls[1..]))[1..] == Attempts(calls[1..]);
      case Sweep(gone, now) =>
        SweepAlike(rows, other, gone, clock, now);
        SweepsInvisible(rows - gone, other, calls[1..], now, l);
        assert [] + Attempts(calls[1..]) == Attempts(calls[1..]);
    }
  }

  /** Deleting rows changes no admission decision in any run on the shared table: the same attempts without
      any cleanup are admitted and refused alike, over both buckets of each. */
  lemma CleanupInvisible(calls: seq<Call>, clock: int, l: Limits)
    requires LegalCalls(map[], calls, clock, l)
    ensures Verdicts(map[], calls, l) == Verdicts(map[], Attempts(calls), l)
  {
    SweepsInvisible(map[], map[], calls, clock, l);
  }

  // ----- the sliding window -----

  /** How many of the times lie in [from, to). */
  function CountIn(times: seq<int>, from: int, to: int): nat {
    if times == [] then 0 else (if from <= times[0] < to then 1 else 0) + CountIn(times[1..], from, to)
  }

  /** How many more requests the current window of a bucket admits. */
  function Spare(b: Option<Bucket>, limit: nat): int {
    if b.None? || b.value.count > limit then 0 else limit - b.value.count
  }

  /** What can still be admitted before `to`, which is at most one window away: the rest of the open
      window, and one more full window if that one ends before `to`. */
  function Bound(b: Option<Bucket>, clock: int, to: int, limit: nat): int {
    if to <= clock then 0
    else if b.None? || b.value.resetAt <= clock then limit
    else Spare(b, limit) + (if to <= b.value.resetAt then 0 else limit)
  }

  predicate BucketOk(b: Option<Bucket>, clock: int, window: nat) {
    b.Some? ==> 1 <= b.value.count && b.value.resetAt <= clock + window
  }

  /** In any half-open interval as long as the window fewer than twice the limit is admitted. */
  lemma SlidingWindow(events: seq<Event>, clock: int, limit: nat, window: nat, from: int)
    requires Legal(None, events, clock, window) && limit >= 1 && window >= 1
    ensures CountIn(Admitted(None, events, limit, window), from, from + window) < 2 * limit
  {
    SlidingFrom(None, events, clock, limit, window, from);
  }

  function Repeat(n: nat, at: int): seq<Event> {
    if n == 0 then [] else [Request(at)] + Repeat(n - 1, at)
  }

  /** `n` requests at one time that all fall into an open window with room for them. */
  lemma {:induction false} Burst(b: Bucket, n: nat, at: int, tail: seq<Event>, limit: nat, window: nat, from: int, to: int)
    requires at < b.resetAt && b.count + n <= limit && from <= at < to
    requires Legal(Some(Bucket(b.count + n, b.resetAt)), tail, at, window)
    ensures Legal(Some(b), Repeat(n, at) + tail, at, window)
    ensures CountIn(Admitted(Some(b), Repeat(n, at) + tail, limit, window), from, to)
         == n + CountIn(Admitted(Some(Bucket(b.count + n, b.resetAt)), tail, limit, window), from, to)
    decreases n
  {
    hide Admitted, CountIn;
    if n == 0 {
      assert Repeat(n, at) + tail == tail;
    } else {
      var next := Bucket(b.count + 1, b.resetAt);
      var rest := Repeat(n - 1, at) + tail;
      var events := Repeat(n, at) + tail;
      Burst(next, n - 1, at, tail, limit, window, from, to);
      assert events[0] == Request(at) && events[1..] == rest;
      FirstAdmitted(Some(b), events, limit, window, from, to);
    }
  }

  /** One request within the limit and within the interval counts one. */
  lemma FirstAdmitted(b: Option<Bucket>, events: seq<Event>, limit: nat, window: nat, from: int, to: int)
    requires events != [] && events[0].Request? && from <= events[0].at < to && Hit(b, events[0].at, window).count <= limit
    ensures CountIn(Admitted(b, events, limit, window), from, to)
         == 1 + CountIn(Admitted(Some(Hit(b, events[0].at, window)), events[1..], limit, window), from, to)
  {
    var rest := Admitted(Some(Hit(b, events[0].at, window)), events[1..], limit, window);
    assert ([events[0].at] + rest)[1..] == rest;
  }

  /** One request that opens a window, and as many as the limit allows at its very end and right after it. */
  function WorstCase(limit: nat, window: nat): seq<Event>
    requires limit >= 1 && window >= 2
  {
    [Request(0)] + (Repeat(limit - 1, window - 1) + ([Request(window)] + (Repeat(limit - 1, window) + [])))
  }

  /** The bound is reached for every limit and every window of two time units or more: late in one window
      and early in the next. */
  lemma SlidingWindowIsTight(limit: nat, window: nat)
    requires limit >= 1 && window >= 2
    ensures Legal(None, WorstCase(limit, window), 0, window)
    ensures CountIn(Admitted(None, WorstCase(limit, window), limit, window), window - 1, 2 * window - 1) == 2 * limit - 1
  {
    hide Admitted, CountIn;
    var from, to := window - 1, 2 * window - 1;
    var second := [Request(window)] + (Repeat(limit - 1, window) + []);
    var first := Repeat(limit - 1, window - 1) + second;
    var full, begun := Bucket(limit, window), Bucket(1, 2 * window);
    NothingIn(Some(Bucket(limit, 2 * window)), limit, window, from, to);
    Burst(begun, limit - 1, window, [], limit, window, from, to);
    assert second[1..] == Repeat(limit - 1, window) + [];
    assert Hit(Some(full), window, window) == begun;
    LaterClock(Some(begun), second[1..], window, window);
    FirstAdmitted(Some(full), second, limit, window, from, to);
    assert Legal(Some(full), second, window - 1, window);
    Burst(Bucket(1, window), limit - 1, window - 1, second, limit, window, from, to);
    assert WorstCase(limit, window)[1..] == first;
    LaterClock(Some(Bucket(1, window)), first, window - 1, window);
    FirstOutside(WorstCase(limit, window), limit, window, from, to);
  }

  lemma LaterClock(b: Option<Bucket>, events: seq<Event>, clock: int, window: nat)
    requires Legal(b, events, clock, window)
    ensures forall earlier :: earlier <= clock ==> Legal(b, events, earlier, window)
  {
  }

  lemma NothingIn(b: Option<Bucket>, limit: nat, window: nat, from: int, to: int)
    ensures CountIn(Admitted(b, [], limit, window), from, to) == 0
  {
  }

  lemma FirstOutside(events: seq<Event>, limit: nat, window: nat, from: int, to: int)
    requires events != [] && events[0] == Request(0) && 0 < from
    ensures CountIn(Admitted(None, events, limit, window), from, to)
         == CountIn(Admitted(Some(Bucket(1, window)), events[1..], limit, window), from, to)
  {
    var rest := Admitted(Some(Bucket(1, window)), events[1..], limit, window);
    assert ([0] + rest)[1..] == rest && [] + rest == rest;
  }

  /** The plain limit holds in a sliding interval. */
  ghost predicate WithinLimit(events: seq<Event>, clock: int, limit: nat, window: nat, from: int) {
    Legal(None, events, clock, window) ==> CountIn(Admitted(None, events, limit, window), from, from + window) <= limit
  }

  /** The plain limit holds in every sliding interval of every run exactly when it is at most one, or the
      window no longer than one time unit. */
  lemma PlainLimitIff(limit: nat, window: nat)
    ensures (forall events: seq<Event>, clock, from :: WithinLimit(events, clock, limit, window, from))
       <==> limit <= 1 || window <= 1
  {
    if limit <= 1 || window <= 1 {
      forall events: seq<Event>, clock: int, from: int ensures WithinLimit(events, clock, limit, window, from) {
        if Legal(None, events, clock, window) {
          NarrowFrom(None, events, clock, limit, window, from);
        }
      }
    } else {
      SlidingWindowIsTight(limit, window);
      assert !WithinLimit(WorstCase(limit, window), 0, limit, window, window - 1);
    }
  }

  lemma {:induction false} NarrowFrom(b: Option<Bucket>, events: seq<Event>, clock: int, limit: nat, window: nat, from: int)
    requires Legal(b, events, clock, window) && (limit <= 1 || window <= 1) && BucketOk(b, clock, window)
    ensures CountIn(Admitted(b, events, limit, window), from, from + window)
         <= if clock < from then limit else Bound(b, clock, from + window, limit)
    decreases |events|
  {
    if events != [] {
      match events[0]
      case Request(now) =>
        var b' := Hit(b, now, window);
        NarrowFrom(Some(b'), events[1..], now, limit, window, from);
        var rest := Admitted(Some(b'), events[1..], limit, window);
        assert ([now] + rest)[1..] == rest && [] + rest == rest;
      case Delete(now) =>
        NarrowFrom(None, events[1..], now, limit, window, from);
    }
  }

  lemma {:induction false} SlidingFrom(b: Option<Bucket>, events: seq<Event>, clock: int, limit: nat, window: nat, from: int)
    requires Legal(b, events, clock, window) && limit >= 1 && window >= 1 && BucketOk(b, clock, window)
    ensures CountIn(Admitted(b, events, limit, window), from, from + window)
         <= if clock < from then 2 * limit - 1 else Bound(b, clock, from + window, limit)
    decreases |events|
  {
    if events != [] {
      match events[0]
      case Request(now) =>
        var b' := Hit(b, now, window);
        SlidingFrom(Some(b'), events[1..], now, limit, window, from);
        var rest := Admitted(Some(b'), events[1..], limit, window);
        assert ([now] + rest)[1..] == rest && [] + rest == rest;
      case Delete(now) =>
        SlidingFrom(None, events[1..], now, limit, window, from);
    }
  }

  // ----- the sliding window on the whole table -----

  /** What one call means for one bucket; an account is counted only behind its address. */
  function EventsHere(rows: map<Key, Bucket>, call: Call, k: Key, l: Limits): seq<Event> {
    match call
    case Attempt(address, account, now) =>
      if k == address || (k == account && Hit(Find(rows, address), now, l.window).count <= l.address)
      then [Request(now)] else []
    case Sweep(gone, now) => if k in gone then [Delete(now)] else []
  }

  function EventsOf(rows: map<Key, Bucket>, calls: seq<Call>, k: Key, l: Limits): seq<Event>
    decreases |calls|
  {
    if calls == [] then []
    else EventsHere(rows, calls[0], k, l) + EventsOf(AfterCall(rows, calls[0], l), calls[1..], k, l)
  }

  /** The time of a call, if it is an admitted attempt that uses bucket `k`. */
  function AdmittedHere(rows: map<Key, Bucket>, call: Call, k: Key, l: Limits): seq<int> {
    if call.Attempt? && (k == call.address || k == call.account) && Admits(rows, call.address, call.account, call.at, l)
    then [call.at] else []
  }

  function AdmittedTo(rows: map<Key, Bucket>, calls: seq<Call>, k: Key, l: Limits): seq<int>
    decreases |calls|
  {
    if calls == [] then []
    else AdmittedHere(rows, calls[0], k, l) + AdmittedTo(AfterCall(rows, calls[0], l), calls[1..], k, l)
  }

  /** `k` is always an address, or always an account, and `limit` is the limit of that role. */
  predicate HasRole(calls: seq<Call>, k: Key, l: Limits, limit: nat) {
    || (limit == l.address && forall i :: 0 <= i < |calls| && calls[i].Attempt? ==> calls[i].account != k)
    || (limit == l.account && forall i :: 0 <= i < |calls| && calls[i].Attempt? ==> calls[i].address != k)
  }

  /** The run of one bucket inside a run of the table. */
  lemma {:induction false} BucketRun(rows: map<Key, Bucket>, calls: seq<Call>, clock: int, k: Key, l: Limits, limit: nat, from: int, to: int)
    requires LegalCalls(rows, calls, clock, l) && HasRole(calls, k, l, limit)
    ensures Legal(Find(rows, k), EventsOf(rows, calls, k, l), clock, l.window)
    ensures CountIn(AdmittedTo(rows, calls, k, l), from, to)
         <= CountIn(Admitted(Find(rows, k), EventsOf(rows, calls, k, l), limit, l.window), from, to)
    decreases |calls|
  {
    if calls != [] {
      var next := AfterCall(rows, calls[0], l);
      assert HasRole(calls[1..], k, l, limit) by {
        assert forall i :: 0 <= i < |calls[1..]| ==> calls[1..][i] == calls[i + 1];
      }
      BucketRun(next, calls[1..], calls[0].at, k, l, limit, from, to);
      BucketTurn(rows, calls[0], k, l, limit, EventsOf(next, calls[1..], k, l), AdmittedTo(next, calls[1..], k, l), clock, from, to);
    }
  }

  /** One call, seen from one bucket. */
  lemma BucketTurn(rows: map<Key, Bucket>, call: Call, k: Key, l: Limits, limit: nat, events: seq<Event>, times: seq<int>,
                   clock: int, from: int, to: int)
    requires clock <= call.at && Legal(Find(AfterCall(rows, call, l), k), events, call.at, l.window)
    requires match call
             case Attempt(address, account, _) =>
               address != account && (k == address ==> limit == l.address) && (k == account ==> limit == l.account)
             case Sweep(gone, now) => k in gone ==> k in rows && LongExpired(rows[k], now)
    requires CountIn(times, from, to) <= CountIn(Admitted(Find(AfterCall(rows, call, l), k), events, limit, l.window), from, to)
    ensures var here := EventsHere(rows, call, k, l);
            && Legal(Find(rows, k), here + events, clock, l.window)
            && CountIn(AdmittedHere(rows, call, k, l) + times, from, to)
               <= CountIn(Admitted(Find(rows, k), here + events, limit, l.window), from, to)
  {
    hide Admitted, CountIn, Legal;
    var b, b' := Find(rows, k), Find(AfterCall(rows, call, l), k);
    var here, mine := EventsHere(rows, call, k, l), AdmittedHere(rows, call, k, l);
    if here == [] {
      assert b == b' && mine == [];
      assert [] + events == events && [] + times == times;
      LaterClock(b, events, call.at, l.window);
    } else if call.Attempt? {
      assert b' == Some(Hit(b, call.at, l.window)) && here == [Request(call.at)];
      CountedRequest(b, call.at, events, times, mine, limit, l.window, clock, from, to);
    } else {
      assert b' == None && here == [Delete(call.at)] && mine == [];
      CountedDelete(b, call.at, events, limit, l.window, clock);
      assert [] + times == times;
    }
  }

  /** A request adds its time on both sides, or only to what the bucket alone admits. */
  lemma CountedRequest(b: Option<Bucket>, at: int, events: seq<Event>, times: seq<int>, mine: seq<int>, limit: nat, window: nat,
                       clock: int, from: int, to: int)
    requires var b' := Some(Hit(b, at, window));
             clock <= at && Legal(b', events, at, window)
             && CountIn(times, from, to) <= CountIn(Admitted(b', events, limit, window), from, to)
    requires mine == [] || (mine == [at] && Hit(b, at, window).count <= limit)
    ensures Legal(b, [Request(at)] + events, clock, window)
    ensures CountIn(mine + times, from, to) <= CountIn(Admitted(b, [Request(at)] + events, limit, window), from, to)
  {
    var rest := Admitted(Some(Hit(b, at, window)), events, limit, window);
    assert ([Request(at)] + events)[1..] == events;
    assert [] + times == times && [] + rest == rest;
    assert ([at] + times)[1..] == times && ([at] + rest)[1..] == rest;
  }

  lemma CountedDelete(b: Option<Bucket>, at: int, events: seq<Event>, limit: nat, window: nat, clock: int)
    requires clock <= at && b.Some? && LongExpired(b.value, at) && Legal(None, events, at, window)
    ensures Legal(b, [Delete(at)] + events, clock, window)
    ensures Admitted(b, [Delete(at)] + events, limit, window) == Admitted(None, events, limit, window)
  {
    assert ([Delete(at)] + events)[1..] == events;
  }

  /** Over every run of attempts and cleanups on the shared table, fewer than twice the account limit are
      admitted to one account, and fewer than twice the address limit from one address, in any half-open
      interval as long as the window. */
  lemma TableSlidingWindow(calls: seq<Call>, clock: int, k: Key, l: Limits, limit: nat, from: int)
    requires LegalCalls(map[], calls, clock, l) && HasRole(calls, k, l, limit) && limit >= 1 && l.window >= 1
    ensures CountIn(AdmittedTo(map[], calls, k, l), from, from + l.window) < 2 * limit
  {
    BucketRun(map[], calls, clock, k, l, limit, from, from + l.window);
    SlidingWindow(EventsOf(map[], calls, k, l), clock, limit, l.window, from);
  }
}
