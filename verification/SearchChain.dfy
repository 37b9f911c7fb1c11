/** Fetching the pages of one web search, one confirmed approval at a time.

    A search yields a list of target pages.  Each is fetched at once when the fetch tool needs no
    confirmation; otherwise the run stores an approval with the target and the rest of the queue and
    ends, and a later run continues from what was stored. */
module SearchChain {
  import opened Options

  datatype Target = Target(url: string, title: string, snippet: string)

  const MAX_PAGES := 3

  // ----- choosing the targets -----

  /** The targets of a result list: http addresses, the first of each spelling up to `fold`, at most
      three.  `taken` are the targets found so far. */
  function Choose(items: seq<Target>, isHttp: string -> bool, fold: string -> string, taken: seq<Target>): seq<Target> {
    if items == [] || |taken| >= MAX_PAGES then taken
    else if !isHttp(items[0].url) || Seen(taken, fold, fold(items[0].url)) then Choose(items[1..], isHttp, fold, taken)
    else Choose(items[1..], isHttp, fold, taken + [items[0]])
  }

  predicate Seen(taken: seq<Target>, fold: string -> string, key: string) {
    exists i :: 0 <= i < |taken| && fold(taken[i].url) == key
  }

  predicate DistinctUrls(ts: seq<Target>, fold: string -> string) {
    forall i, j :: 0 <= i < j < |ts| ==> fold(ts[i].url) != fold(ts[j].url)
  }

  method SearchResultFetchTargets(items: seq<Target>, isHttp: string -> bool, fold: string -> string)
    returns (targets: seq<Target>)
    ensures targets == Choose(items, isHttp, fold, [])
  {
    targets := [];
    var seen: set<string> := {};
    assert items[0..] == items;
    for n := 0 to |items|
      invariant |targets| < MAX_PAGES
      invariant forall key :: key in seen <==> Seen(targets, fold, key)
      invariant Choose(items, isHttp, fold, []) == Choose(items[n..], isHttp, fold, targets)
    {
      assert items[n..][0] == items[n] && items[n..][1..] == items[n + 1..];
      var url := items[n].url;
      if !isHttp(url) {
        continue;
      }
      var key := fold(url);
      if key in seen {
        continue;
      }
      ghost var before := targets;
      seen := seen + {key};
      targets := targets + [items[n]];
      assert forall i :: 0 <= i < |before| ==> targets[i] == before[i];
      assert forall k :: Seen(before, fold, k) ==> Seen(targets, fold, k);
      assert fold(targets[|before|].url) == key;
      if |targets| >= MAX_PAGES {
        return;
      }
    }
  }

  /** The chosen targets are distinct http pages, at most three; unless there are three, every http page
      of the result list is among them up to spelling. */
  lemma {:induction false} ChosenTargets(items: seq<Target>, isHttp: string -> bool, fold: string -> string, taken: seq<Target>)
    requires DistinctUrls(taken, fold) && |taken| <= MAX_PAGES
    requires forall i :: 0 <= i < |taken| ==> isHttp(taken[i].url)
    ensures var r := Choose(items, isHttp, fold, taken);
            && DistinctUrls(r, fold) && |r| <= MAX_PAGES && taken <= r
            && (forall i :: 0 <= i < |r| ==> isHttp(r[i].url))
            && (forall i :: |taken| <= i < |r| ==> r[i] in items)
            && (|r| < MAX_PAGES ==>
                  forall i :: 0 <= i < |items| && isHttp(items[i].url) ==> Seen(r, fold, fold(items[i].url)))
  {
    if items != [] && |taken| < MAX_PAGES {
      var r := Choose(items, isHttp, fold, taken);
      if !isHttp(items[0].url) || Seen(taken, fold, fold(items[0].url)) {
        ChosenTargets(items[1..], isHttp, fold, taken);
        assert Seen(taken, fold, fold(items[0].url)) ==> Seen(r, fold, fold(items[0].url));
      } else {
        ChosenTargets(items[1..], isHttp, fold, taken + [items[0]]);
        assert r[|taken|] == items[0];
      }
      assert forall i :: 1 <= i < |items| ==> items[i] == items[1..][i - 1];
    }
  }

  /** The first http item of every spelling, in the order of the results. */
  function FirstHits(items: seq<Target>, isHttp: string -> bool, fold: string -> string): seq<Target> {
    if items == [] then []
    else
      var init, last := items[..|items| - 1], items[|items| - 1];
      FirstHits(init, isHttp, fold)
      + (if isHttp(last.url) && !HitBefore(init, isHttp, fold, fold(last.url)) then [last] else [])
  }

  predicate HitBefore(items: seq<Target>, isHttp: string -> bool, fold: string -> string, key: string) {
    exists j :: 0 <= j < |items| && isHttp(items[j].url) && fold(items[j].url) == key
  }

  lemma HitSnoc(items: seq<Target>, t: Target, isHttp: string -> bool, fold: string -> string, key: string)
    ensures HitBefore(items + [t], isHttp, fold, key)
       <==> HitBefore(items, isHttp, fold, key) || (isHttp(t.url) && fold(t.url) == key)
  {
    var all := items + [t];
    assert all[|items|] == t && forall j :: 0 <= j < |items| ==> all[j] == items[j];
  }

  lemma SeenSnoc(taken: seq<Target>, t: Target, fold: string -> string, key: string)
    ensures Seen(taken + [t], fold, key) <==> Seen(taken, fold, key) || fold(t.url) == key
  {
    var all := taken + [t];
    assert all[|taken|] == t && forall j :: 0 <= j < |taken| ==> all[j] == taken[j];
  }

  lemma {:induction false} SeenIffHit(items: seq<Target>, isHttp: string -> bool, fold: string -> string, key: string)
    ensures Seen(FirstHits(items, isHttp, fold), fold, key) <==> HitBefore(items, isHttp, fold, key)
  {
    hide Seen, HitBefore;
    if items == [] {
      NothingHit(isHttp, fold, key);
    } else {
      var init, last := items[..|items| - 1], items[|items| - 1];
      assert items == init + [last];
      SeenIffHit(init, isHttp, fold, key);
      SeenIffHit(init, isHttp, fold, fold(last.url));
      HitSnoc(init, last, isHttp, fold, key);
      SeenSnoc(FirstHits(init, isHttp, fold), last, fold, key);
      assert FirstHits(init, isHttp, fold) + [] == FirstHits(init, isHttp, fold);
    }
  }

  lemma NothingHit(isHttp: string -> bool, fold: string -> string, key: string)
    ensures !Seen([], fold, key) && !HitBefore([], isHttp, fold, key)
  {
  }

  lemma {:induction false} HitsGrow(items: seq<Target>, n: nat, isHttp: string -> bool, fold: string -> string)
    requires n <= |items|
    ensures FirstHits(items[..n], isHttp, fold) <= FirstHits(items, isHttp, fold)
    decreases |items| - n
  {
    hide HitBefore;
    if n < |items| {
      HitsGrow(items, n + 1, isHttp, fold);
      assert items[..n + 1][..n] == items[..n];
    } else {
      assert items[..n] == items;
    }
  }

  function FirstThree(ts: seq<Target>): seq<Target> {
    if |ts| <= 3 then ts else ts[..3]
  }

  lemma {:induction false} ChooseFrom(items: seq<Target>, n: nat, isHttp: string -> bool, fold: string -> string, taken: seq<Target>)
    requires n <= |items| && taken == FirstThree(FirstHits(items[..n], isHttp, fold))
    ensures Choose(items[n..], isHttp, fold, taken) == FirstThree(FirstHits(items, isHttp, fold))
    decreases |items| - n
  {
    hide HitBefore, Seen;
    HitsGrow(items, n, isHttp, fold);
    if n == |items| {
      assert items[..n] == items;
    } else if |taken| < 3 {
      var t := items[n];
      SeenIffHit(items[..n], isHttp, fold, fold(t.url));
      assert items[..n + 1][..n] == items[..n] && items[n..][1..] == items[n + 1..];
      var next := if !isHttp(t.url) || Seen(taken, fold, fold(t.url)) then taken else taken + [t];
      assert FirstHits(items[..n], isHttp, fold) + [] == taken;
      ChooseFrom(items, n + 1, isHttp, fold, next);
    }
  }

  /** The targets are the first three of the results that are http pages and the first of their spelling. */
  lemma ChosenAreFirst(items: seq<Target>, isHttp: string -> bool, fold: string -> string)
    ensures Choose(items, isHttp, fold, []) == FirstThree(FirstHits(items, isHttp, fold))
  {
    assert items[0..] == items && items[..0] == [];
    ChooseFrom(items, 0, isHttp, fold, []);
  }

  // ----- the chain -----

  datatype Status = Pending | Approved | Cancelled | Expired | Completed | Interrupted

  /** The moves of an approval: decided once, and finished at most once if it was approved. */
  predicate CanMove(from: Status, to: Status) {
    || from == to
    || (from == Pending && (to == Approved || to == Cancelled || to == Expired))
    || (from == Approved && (to == Completed || to == Interrupted))
  }

  /** A stored approval: the pages handled before it, the page it asks for, and the saved queue. */
  datatype Approval = Approval(status: Status, expiresAt: int, calls: seq<Target>, target: Target, queue: seq<Target>)

  datatype Phase = Fetching | Blocked(target: Target) | Saved | Ended

  /** A run of the graph: the approval it consumed, if any, and its working state.  `dropped` records
      that the fetch tool was missing, which empties the queue. */
  datatype Run = Run(
    approval: Option<nat>, phase: Phase, confirmed: Option<Target>,
    calls: seq<Target>, queue: seq<Target>, dropped: bool
  )

  datatype Chain = Chain(
    targets: seq<Target>,
    approvals: seq<Approval>,
    runs: seq<Run>,
    log: seq<Target>          // pages really handed to the tool, over all runs
  )

  datatype Action =
    | Execute(run: nat)                                  // the confirmed page of a resumed run
    | Fetch(run: nat, available: bool, needsConfirmation: bool)
    | Save(run: nat, expiresAt: int)                     // store the approval for a blocked page
    | Done(run: nat)
    | Crash(run: nat, finalised: bool)                   // error, disconnect or process death
    | Confirm(approval: nat, now: int, matches: bool)
    | Cancel(approval: nat, now: int)

  /** The run of the search itself, with all targets queued. */
  function Start(targets: seq<Target>): Chain {
    Chain(targets, [], [Run(None, Fetching, None, [], targets, false)], [])
  }

  predicate Enabled(c: Chain, a: Action) {
    match a
    case Execute(r) => r < |c.runs| && c.runs[r].phase == Fetching && c.runs[r].confirmed.Some?
    case Fetch(r, _, _) => r < |c.runs| && c.runs[r].phase == Fetching && c.runs[r].confirmed.None? && c.runs[r].queue != []
    case Save(r, _) => r < |c.runs| && c.runs[r].phase.Blocked?
    case Done(r) => r < |c.runs| && c.runs[r].phase != Ended && c.runs[r].confirmed.None?
    case Crash(r, _) => r < |c.runs| && c.runs[r].phase != Ended
    case Confirm(i, _, _) => i < |c.approvals|
    case Cancel(i, _) => i < |c.approvals|
  }

  /** Deciding a pending approval; one that has run out of time expires instead. */
  function Decide(status: Status, expiresAt: int, now: int, to: Status): Status {
    if status != Pending then status else if expiresAt <= now then Expired else to
  }

  function SetStatus(approvals: seq<Approval>, i: nat, status: Status): seq<Approval>
    requires i < |approvals|
  {
    approvals[i := approvals[i].(status := status)]
  }

  /** Marking the approval a run consumed, if it consumed one. */
  function Mark(c: Chain, run: Run, status: Status): Chain {
    if run.approval.Some? && run.approval.value < |c.approvals|
    then c.(approvals := SetStatus(c.approvals, run.approval.value, status))
    else c
  }

  function Step(c: Chain, a: Action): Chain
    requires Enabled(c, a)
  {
    match a
    case Execute(r) =>
      var run := c.runs[r];
      var t := run.confirmed.value;
      c.(runs := c.runs[r := run.(confirmed := None, calls := run.calls + [t])], log := c.log + [t])
    case Fetch(r, available, needsConfirmation) =>
      var run := c.runs[r];
      var t := run.queue[0];
      if !available then c.(runs := c.runs[r := run.(queue := [], dropped := true)])
      else if needsConfirmation then c.(runs := c.runs[r := run.(phase := Blocked(t), queue := run.queue[1..])])
      else c.(runs := c.runs[r := run.(calls := run.calls + [t], queue := run.queue[1..])], log := c.log + [t])
    case Save(r, expiresAt) =>
      var run := c.runs[r];
      c.(runs := c.runs[r := run.(phase := Saved)],
         approvals := c.approvals + [Approval(Pending, expiresAt, run.calls, run.phase.target, run.queue)])
    case Done(r) =>
      Mark(c.(runs := c.runs[r := c.runs[r].(phase := Ended)]), c.runs[r], Completed)
    case Crash(r, finalised) =>
      var ended := c.(runs := c.runs[r := c.runs[r].(phase := Ended)]);
      var id := c.runs[r].approval;
      if finalised && id.Some? && id.value < |c.approvals| && c.approvals[id.value].status == Approved
      then Mark(ended, c.runs[r], Interrupted) else ended
    case Confirm(i, now, matches) =>
      var p := c.approvals[i];
      if !matches then c
      else
        var status := Decide(p.status, p.expiresAt, now, Approved);
        var decided := c.(approvals := SetStatus(c.approvals, i, status));
        if p.status == Pending && status == Approved
        then decided.(runs := c.runs + [Run(Some(i), Fetching, Some(p.target), p.calls, p.queue, false)])
        else decided
    case Cancel(i, now) =>
      var p := c.approvals[i];
      c.(approvals := SetStatus(c.approvals, i, Decide(p.status, p.expiresAt, now, Cancelled)))
  }

  predicate Legal(c: Chain, actions: seq<Action>)
    decreases |actions|
  {
    actions == [] || (Enabled(c, actions[0]) && Legal(Step(c, actions[0]), actions[1..]))
  }

  function Exec(c: Chain, actions: seq<Action>): Chain
    requires Legal(c, actions)
    decreases |actions|
  {
    if actions == [] then c else Exec(Step(c, actions[0]), actions[1..])
  }

  // ----- the invariant -----

  function Opt(t: Option<Target>): seq<Target> {
    if t.Some? then [t.value] else []
  }

  /** A run that can still hand pages to the tool, or pass them on in an approval. */
  predicate Head(run: Run) {
    run.phase.Fetching? || run.phase.Blocked?
  }

  /** What a run still has to handle. */
  function Remaining(run: Run): seq<Target> {
    Opt(run.confirmed) + (if run.phase.Blocked? then [run.phase.target] else []) + run.queue
  }

  predicate RunConserves(c: Chain, run: Run) {
    && run.calls == c.log
    && run.calls + Opt(run.confirmed) <= c.targets
    && (if run.dropped then run.queue == [] && run.phase.Fetching? else run.calls + Remaining(run) == c.targets)
    && (run.phase.Blocked? ==> run.confirmed.None?)
  }

  predicate ApprovalConserves(c: Chain, p: Approval) {
    p.calls == c.log && p.calls + [p.target] + p.queue == c.targets
  }

  ghost predicate OneHead(c: Chain) {
    && (forall i, j :: 0 <= i < j < |c.runs| ==> !(Head(c.runs[i]) && Head(c.runs[j])))
    && (forall i, j :: 0 <= i < j < |c.approvals| ==> !(c.approvals[i].status == Pending && c.approvals[j].status == Pending))
    && (forall i, j :: 0 <= i < |c.runs| && 0 <= j < |c.approvals| ==> !(Head(c.runs[i]) && c.approvals[j].status == Pending))
  }

  /** Every run but the first consumed an approval of its own, which stays approved while it runs. */
  ghost predicate ConsumedOnce(c: Chain) {
    && (forall i, j :: 0 <= i < j < |c.runs| && c.runs[i].approval.Some? ==> c.runs[i].approval != c.runs[j].approval)
    && (forall i :: 0 <= i < |c.runs| && c.runs[i].approval.Some? ==>
          && c.runs[i].approval.value < |c.approvals|
          && c.approvals[c.runs[i].approval.value].status != Pending
          && (c.runs[i].phase != Ended ==> c.approvals[c.runs[i].approval.value].status == Approved))
  }

  ghost predicate Conserves(c: Chain) {
    && c.log <= c.targets
    && (forall i :: 0 <= i < |c.runs| && Head(c.runs[i]) ==> RunConserves(c, c.runs[i]))
    && (forall i :: 0 <= i < |c.approvals| && c.approvals[i].status == Pending ==> ApprovalConserves(c, c.approvals[i]))
  }

  ghost predicate Inv(c: Chain) {
    OneHead(c) && ConsumedOnce(c) && Conserves(c)
  }

  lemma RunningHeadKept(c: Chain, a: Action)
    requires OneHead(c) && Enabled(c, a) && (a.Execute? || a.Fetch? || a.Save?)
    ensures OneHead(Step(c, a))
  {
    hide ConsumedOnce;
  }

  lemma EndingHeadKept(c: Chain, a: Action)
    requires OneHead(c) && ConsumedOnce(c) && Enabled(c, a) && (a.Done? || a.Crash?)
    ensures OneHead(Step(c, a))
  {
  }

  lemma DecidedHeadKept(c: Chain, a: Action)
    requires OneHead(c) && Enabled(c, a) && (a.Confirm? || a.Cancel?)
    ensures OneHead(Step(c, a))
  {
    hide ConsumedOnce;
  }

  lemma HeadsKept(c: Chain, a: Action)
    requires OneHead(c) && ConsumedOnce(c) && Enabled(c, a)
    ensures OneHead(Step(c, a))
  {
    hide OneHead, ConsumedOnce, Step, Enabled;
    if a.Execute? || a.Fetch? || a.Save? {
      RunningHeadKept(c, a);
    } else if a.Done? || a.Crash? {
      EndingHeadKept(c, a);
    } else {
      DecidedHeadKept(c, a);
    }
  }

  lemma WorkKept(c: Chain, a: Action)
    requires ConsumedOnce(c) && Enabled(c, a) && (a.Execute? || a.Fetch? || a.Save?)
    ensures ConsumedOnce(Step(c, a))
  {
  }

  lemma EndKept(c: Chain, a: Action)
    requires ConsumedOnce(c) && Enabled(c, a) && (a.Done? || a.Crash?)
    ensures ConsumedOnce(Step(c, a))
  {
  }

  lemma DecisionKept(c: Chain, a: Action)
    requires ConsumedOnce(c) && Enabled(c, a) && (a.Confirm? || a.Cancel?)
    ensures ConsumedOnce(Step(c, a))
  {
  }

  lemma ConsumptionKept(c: Chain, a: Action)
    requires ConsumedOnce(c) && Enabled(c, a)
    ensures ConsumedOnce(Step(c, a))
  {
    hide ConsumedOnce, Step, Enabled;
    if a.Confirm? || a.Cancel? {
      DecisionKept(c, a);
    } else if a.Done? || a.Crash? {
      EndKept(c, a);
    } else {
      WorkKept(c, a);
    }
  }

  lemma ExecuteConserves(c: Chain, a: Action)
    requires Conserves(c) && OneHead(c) && Enabled(c, a) && a.Execute?
    ensures Conserves(Step(c, a))
  {
    var run := c.runs[a.run];
    assert Head(run) && RunConserves(c, run);
    assert RunConserves(Step(c, a), Step(c, a).runs[a.run]);
  }

  lemma FetchedRunConserves(c: Chain, a: Action)
    requires Enabled(c, a) && a.Fetch? && RunConserves(c, c.runs[a.run])
    ensures RunConserves(Step(c, a), Step(c, a).runs[a.run]) && Step(c, a).log <= c.targets
  {
    hide Remaining, Opt;
    var run, run' := c.runs[a.run], Step(c, a).runs[a.run];
    RemainingOf(run);
    RemainingOf(run');
    FirstAndRest(run.queue, []);
    Regroup(run.calls, [run.queue[0]], run.queue[1..]);
  }

  lemma RemainingOf(run: Run)
    requires run.confirmed.None?
    ensures Opt(run.confirmed) == [] && run.calls + Opt(run.confirmed) == run.calls
    ensures Remaining(run) == if run.phase.Blocked? then [run.phase.target] + run.queue else run.queue
  {
    NothingBefore(if run.phase.Blocked? then [run.phase.target] else []);
    NothingBefore(run.queue);
  }

  lemma FetchConserves(c: Chain, a: Action)
    requires Conserves(c) && OneHead(c) && Enabled(c, a) && a.Fetch?
    ensures Conserves(Step(c, a))
  {
    hide RunConserves, ApprovalConserves;
    assert Head(c.runs[a.run]);
    FetchedRunConserves(c, a);
  }

  lemma SaveConserves(c: Chain, a: Action)
    requires Conserves(c) && OneHead(c) && Enabled(c, a) && a.Save?
    ensures Conserves(Step(c, a))
  {
    var run := c.runs[a.run];
    assert Head(run) && RunConserves(c, run);
    assert Step(c, a).approvals[|c.approvals|].status == Pending;
  }

  lemma ConfirmConserves(c: Chain, a: Action)
    requires Conserves(c) && OneHead(c) && Enabled(c, a) && a.Confirm?
    ensures Conserves(Step(c, a))
  {
  }

  lemma EndingConserves(c: Chain, a: Action)
    requires Conserves(c) && ConsumedOnce(c) && Enabled(c, a) && (a.Done? || a.Crash? || a.Cancel?)
    ensures Conserves(Step(c, a))
  {
    hide RunConserves, ApprovalConserves;
    var c' := Step(c, a);
    assert c'.log == c.log && c'.targets == c.targets && |c'.runs| == |c.runs| && |c'.approvals| == |c.approvals|;
    forall i | 0 <= i < |c'.runs| && Head(c'.runs[i]) ensures RunConserves(c', c'.runs[i]) {
      assert c'.runs[i] == c.runs[i];
      SameHistory(c, c', c.runs[i]);
    }
    forall i | 0 <= i < |c'.approvals| && c'.approvals[i].status == Pending ensures ApprovalConserves(c', c'.approvals[i]) {
      assert c'.approvals[i] == c.approvals[i];
      SameHistoryStored(c, c', c.approvals[i]);
    }
  }

  lemma SameHistory(c: Chain, c': Chain, run: Run)
    requires RunConserves(c, run) && c'.log == c.log && c'.targets == c.targets
    ensures RunConserves(c', run)
  {
  }

  lemma SameHistoryStored(c: Chain, c': Chain, p: Approval)
    requires ApprovalConserves(c, p) && c'.log == c.log && c'.targets == c.targets
    ensures ApprovalConserves(c', p)
  {
  }

  lemma StepKeepsInv(c: Chain, a: Action)
    requires Inv(c) && Enabled(c, a)
    ensures Inv(Step(c, a))
  {
    hide Step, Enabled, OneHead, ConsumedOnce, Conserves;
    HeadsKept(c, a);
    ConsumptionKept(c, a);
    match a
    case Execute(_) => ExecuteConserves(c, a);
    case Fetch(_, _, _) => FetchConserves(c, a);
    case Save(_, _) => SaveConserves(c, a);
    case Confirm(_, _, _) => ConfirmConserves(c, a);
    case _ => EndingConserves(c, a);
  }

  lemma {:induction false} RunKeepsInv(c: Chain, actions: seq<Action>)
    requires Inv(c) && Legal(c, actions)
    ensures Inv(Exec(c, actions)) && Exec(c, actions).targets == c.targets
    decreases |actions|
  {
    if actions != [] {
      StepKeepsInv(c, actions[0]);
      RunKeepsInv(Step(c, actions[0]), actions[1..]);
    }
  }

  // ----- what every run satisfies -----

  lemma StartOk(targets: seq<Target>)
    ensures Inv(Start(targets)) && Start(targets).targets == targets
  {
    hide Remaining, Opt;
    RemainingOf(Start(targets).runs[0]);
    NothingBefore(targets);
  }

  /** Conservation: in every reachable state the pages handled so far, then the pending one, then the
      saved queue are the original targets in order, for a stored approval as for a working run.
      Only a missing fetch tool cuts the list short, and then it is a prefix that was handled. */
  lemma TargetsConserved(targets: seq<Target>, actions: seq<Action>)
    requires Legal(Start(targets), actions)
    ensures var c := Exec(Start(targets), actions);
            && c.log <= targets
            && (forall i :: 0 <= i < |c.approvals| && c.approvals[i].status == Pending ==>
                  var p := c.approvals[i]; p.calls == c.log && p.calls + [p.target] + p.queue == targets)
            && (forall i :: 0 <= i < |c.runs| && Head(c.runs[i]) && !c.runs[i].dropped ==>
                  c.runs[i].calls == c.log && c.runs[i].calls + Remaining(c.runs[i]) == targets)
  {
    hide Step, Enabled, Exec, Legal, OneHead, ConsumedOnce, Head, Remaining;
    StartOk(targets);
    RunKeepsInv(Start(targets), actions);
  }

  /** Over the whole chain of approvals every distinct page of the search is fetched at most once. */
  lemma EachPageAtMostOnce(items: seq<Target>, isHttp: string -> bool, fold: string -> string, actions: seq<Action>)
    requires Legal(Start(Choose(items, isHttp, fold, [])), actions)
    ensures var c := Exec(Start(Choose(items, isHttp, fold, [])), actions);
            DistinctUrls(c.log, fold) && |c.log| <= MAX_PAGES
  {
    hide Choose, Step, Enabled, OneHead, ConsumedOnce;
    var targets := Choose(items, isHttp, fold, []);
    ChosenTargets(items, isHttp, fold, []);
    TargetsConserved(targets, actions);
    var log := Exec(Start(targets), actions).log;
    assert forall i :: 0 <= i < |log| ==> log[i] == targets[i];
  }

  /** Each approval is consumed by at most one run, and at most one run or approval is open at a time. */
  lemma ApprovalsConsumedOnce(targets: seq<Target>, actions: seq<Action>)
    requires Legal(Start(targets), actions)
    ensures var c := Exec(Start(targets), actions);
            && OneHead(c)
            && (forall i, j :: 0 <= i < j < |c.runs| && c.runs[i].approval.Some? ==> c.runs[i].approval != c.runs[j].approval)
  {
    RunKeepsInv(Start(targets), actions);
  }

  /** No step moves an approval's status other than forward, whichever run, client or crash acts. */
  lemma StatusesOnlyMoveForward(targets: seq<Target>, actions: seq<Action>, a: Action)
    requires Legal(Start(targets), actions) && Enabled(Exec(Start(targets), actions), a)
    ensures var c := Exec(Start(targets), actions);
            var c' := Step(c, a);
            && |c.approvals| <= |c'.approvals|
            && forall i :: 0 <= i < |c.approvals| ==>
                 && CanMove(c.approvals[i].status, c'.approvals[i].status)
                 && c'.approvals[i] == c.approvals[i].(status := c'.approvals[i].status)
  {
    hide Step, Enabled, Exec, Legal, OneHead, ConsumedOnce, Conserves, CanMove;
    StartOk(targets);
    RunKeepsInv(Start(targets), actions);
    StepMovesForward(Exec(Start(targets), actions), a);
  }

  lemma StepMovesForward(c: Chain, a: Action)
    requires ConsumedOnce(c) && Enabled(c, a)
    ensures var c' := Step(c, a);
            && |c.approvals| <= |c'.approvals|
            && forall i :: 0 <= i < |c.approvals| ==>
                 && CanMove(c.approvals[i].status, c'.approvals[i].status)
                 && c'.approvals[i] == c.approvals[i].(status := c'.approvals[i].status)
  {
  }

  // ----- what each step does -----

  /** A run starts exactly on a matching confirmation of a pending approval that has not expired, and takes
      over what the approval stored. */
  lemma RunStartsIff(c: Chain, a: Action)
    requires Enabled(c, a)
    ensures var c' := Step(c, a);
            && (|c'.runs| > |c.runs| <==>
                  a.Confirm? && a.matches && c.approvals[a.approval].status == Pending && a.now < c.approvals[a.approval].expiresAt)
            && (|c'.runs| > |c.runs| ==>
                  var p := c.approvals[a.approval];
                  && c'.runs == c.runs + [Run(Some(a.approval), Fetching, Some(p.target), p.calls, p.queue, false)]
                  && c'.approvals == c.approvals[a.approval := p.(status := Approved)])
  {
  }

  /** Confirming or cancelling too late makes a pending approval expired and does nothing else; cancelling in time
      cancels it; a confirmation that does not match, or a decision on a decided approval, changes nothing. */
  lemma DecisionOutcome(c: Chain, a: Action)
    requires Enabled(c, a) && (a.Confirm? || a.Cancel?)
    ensures var c', p := Step(c, a), c.approvals[a.approval];
            && c'.log == c.log && c'.targets == c.targets
            && ((a.Confirm? ==> a.matches) && p.status == Pending && p.expiresAt <= a.now ==>
                  c' == c.(approvals := c.approvals[a.approval := p.(status := Expired)]))
            && (a.Cancel? && p.status == Pending && a.now < p.expiresAt ==>
                  c' == c.(approvals := c.approvals[a.approval := p.(status := Cancelled)]))
            && ((a.Confirm? && !a.matches) || p.status != Pending ==> c' == c)
  {
    assert c.approvals[a.approval := c.approvals[a.approval]] == c.approvals;
  }

  /** A page is handed to the tool exactly by the confirmed fetch of a resumed run, or by a fetch from the queue
      that needs no confirmation. */
  lemma LogGrowsIff(c: Chain, a: Action)
    requires Enabled(c, a)
    ensures var c' := Step(c, a);
            && (a.Execute? ==> c'.log == c.log + [c.runs[a.run].confirmed.value])
            && (a.Fetch? && a.available && !a.needsConfirmation ==> c'.log == c.log + [c.runs[a.run].queue[0]])
            && (!a.Execute? && !(a.Fetch? && a.available && !a.needsConfirmation) ==> c'.log == c.log)
  {
  }

  /** A fetch that needs confirmation stops the run at its page with the rest of the queue, and saving it stores a
      pending approval for exactly that; without the tool the queue is dropped. */
  lemma FetchOutcome(c: Chain, a: Action)
    requires Enabled(c, a) && (a.Fetch? || a.Save?)
    ensures var c', run := Step(c, a), c.runs[a.run];
            && (a.Fetch? && a.available && a.needsConfirmation ==>
                  && c'.runs[a.run].phase == Blocked(run.queue[0]) && c'.runs[a.run].queue == run.queue[1..]
                  && c'.approvals == c.approvals)
            && (a.Fetch? && !a.available ==> c'.runs[a.run].queue == [] && c'.runs[a.run].dropped && c'.approvals == c.approvals)
            && (a.Save? ==>
                  && c'.approvals == c.approvals + [Approval(Pending, a.expiresAt, run.calls, run.phase.target, run.queue)]
                  && c'.runs[a.run].phase == Saved)
  {
  }

  /** A run that is done completes its approval; one that fails interrupts it if it was still approved and the
      cleanup got through, and else leaves it. */
  lemma EndOutcome(c: Chain, a: Action)
    requires Enabled(c, a) && (a.Done? || a.Crash?) && c.runs[a.run].approval.Some?
    requires c.runs[a.run].approval.value < |c.approvals|
    ensures var c', id := Step(c, a), c.runs[a.run].approval.value;
            && c'.runs[a.run].phase == Ended
            && (a.Done? ==> c'.approvals[id].status == Completed)
            && (a.Crash? ==>
                  c'.approvals[id].status
                  == if a.finalised && c.approvals[id].status == Approved then Interrupted else c.approvals[id].status)
  {
  }

  /** The confirmed page of a run is the page its approval asked for. */
  ghost predicate ConfirmedFrom(c: Chain) {
    forall i :: 0 <= i < |c.runs| && c.runs[i].confirmed.Some? ==>
      && c.runs[i].approval.Some? && c.runs[i].approval.value < |c.approvals|
      && c.approvals[c.runs[i].approval.value].target == c.runs[i].confirmed.value
  }

  lemma ConfirmedKept(c: Chain, a: Action)
    requires ConfirmedFrom(c) && ConsumedOnce(c) && Enabled(c, a)
    ensures ConfirmedFrom(Step(c, a))
  {
    StepMovesForward(c, a);
    RunsFollow(c, a);
  }

  lemma RunsFollow(c: Chain, a: Action)
    requires Enabled(c, a)
    ensures var c' := Step(c, a);
            && |c.runs| <= |c'.runs|
            && (forall i :: 0 <= i < |c.runs| ==>
                  && c'.runs[i].approval == c.runs[i].approval
                  && (c'.runs[i].confirmed.Some? ==> c'.runs[i].confirmed == c.runs[i].confirmed))
            && (forall i :: |c.runs| <= i < |c'.runs| ==>
                  a.Confirm? && c'.runs[i].approval == Some(a.approval) && c'.runs[i].confirmed == Some(c.approvals[a.approval].target))
  {
  }

  lemma {:induction false} RunKeepsConfirmed(c: Chain, actions: seq<Action>)
    requires Inv(c) && ConfirmedFrom(c) && Legal(c, actions)
    ensures ConfirmedFrom(Exec(c, actions))
    decreases |actions|
  {
    hide Step, Enabled, OneHead, ConsumedOnce, Conserves, ConfirmedFrom;
    if actions != [] {
      StepKeepsInv(c, actions[0]);
      ConfirmedKept(c, actions[0]);
      RunKeepsConfirmed(Step(c, actions[0]), actions[1..]);
    }
  }

  /** In every reachable state a confirmed page that is handed to the tool is the page of an approval that was
      approved for that very run. */
  lemma ExecutesOnlyApproved(targets: seq<Target>, actions: seq<Action>, r: nat)
    requires Legal(Start(targets), actions) && Enabled(Exec(Start(targets), actions), Execute(r))
    ensures var c := Exec(Start(targets), actions);
            && c.runs[r].approval.Some? && c.runs[r].approval.value < |c.approvals|
            && var p := c.approvals[c.runs[r].approval.value];
               p.status == Approved && c.runs[r].confirmed == Some(p.target)
  {
    hide Step, Exec, Legal, OneHead, Conserves;
    StartOk(targets);
    assert ConfirmedFrom(Start(targets));
    RunKeepsInv(Start(targets), actions);
    RunKeepsConfirmed(Start(targets), actions);
  }

  // ----- the fetch loop of the runtime -----

  /** The loop on the tool calls and the queue: `outcomes` says of each fetch whether the executor asked
      for confirmation.  The blocked page is recorded among the calls as well. */
  function FetchLoop(calls: seq<Target>, queue: seq<Target>, outcomes: seq<bool>): (seq<Target>, seq<Target>, bool)
    requires |queue| <= |outcomes|
    decreases |queue|
  {
    if queue == [] then (calls, queue, false)
    else if outcomes[0] then (calls + [queue[0]], queue[1..], true)
    else FetchLoop(calls + [queue[0]], queue[1..], outcomes[1..])
  }

  class ExecutionState {
    var calls: seq<Target>
    var queue: seq<Target>

    method FetchSearchTargets(outcomes: seq<bool>) returns (blocked: bool)
      requires |queue| <= |outcomes|
      modifies this
      ensures (calls, queue, blocked) == FetchLoop(old(calls), old(queue), outcomes)
    {
      var n := 0;   // how many results of the executor were used
      assert outcomes[0..] == outcomes;
      while queue != []
        invariant n <= |outcomes| && |queue| <= |outcomes| - n
        invariant FetchLoop(old(calls), old(queue), outcomes) == FetchLoop(calls, queue, outcomes[n..])
        decreases |queue|
      {
        var target := queue[0];
        queue := queue[1..];
        var needsConfirmation := outcomes[n];
        calls := calls + [target];
        if needsConfirmation {
          return true;
        }
        assert outcomes[n..][1..] == outcomes[n + 1..];
        n := n + 1;
      }
      blocked := false;
    }
  }

  function LoopActions(run: nat, queue: seq<Target>, outcomes: seq<bool>): seq<Action>
    requires |queue| <= |outcomes|
  {
    if queue == [] then []
    else [Fetch(run, true, outcomes[0])]
         + (if outcomes[0] then [] else LoopActions(run, queue[1..], outcomes[1..]))
  }

  /** The loop is a run of `Fetch` steps of the chain: what it leaves is what the chain's run holds, the
      last call being the blocked page when it stops early. */
  lemma {:induction false} LoopIsChainSteps(c: Chain, r: nat, outcomes: seq<bool>)
    requires r < |c.runs| && c.runs[r].phase == Fetching && c.runs[r].confirmed.None?
    requires |c.runs[r].queue| <= |outcomes|
    ensures var actions := LoopActions(r, c.runs[r].queue, outcomes);
            && Legal(c, actions) && r < |Exec(c, actions).runs|
            && var run := Exec(c, actions).runs[r];
               var (calls, queue, blocked) := FetchLoop(c.runs[r].calls, c.runs[r].queue, outcomes);
               && run.queue == queue && run.phase.Blocked? == blocked
               && calls == run.calls + (if run.phase.Blocked? then [run.phase.target] else [])
    decreases |c.runs[r].queue|
  {
    var queue := c.runs[r].queue;
    if queue != [] {
      var next := Step(c, Fetch(r, true, outcomes[0]));
      var actions := LoopActions(r, queue, outcomes);
      if outcomes[0] {
        assert actions == [Fetch(r, true, true)] && actions[1..] == [];
        assert Exec(c, actions) == Exec(next, []);
      } else {
        LoopIsChainSteps(next, r, outcomes[1..]);
        assert actions[1..] == LoopActions(r, queue[1..], outcomes[1..]);
      }
    }
  }

  // ----- the stored approval -----

  /** One approval message: its status and the copies of it kept in the recorded tool calls. */
  class ApprovalMessage {
    const id: nat
    const expiresAt: int
    var status: Status
    var calls: seq<(nat, Status)>

    constructor (id: nat, expiresAt: int, earlier: seq<(nat, Status)>)
      ensures status == Pending && calls == earlier + [(id, Pending)]
      ensures this.id == id && this.expiresAt == expiresAt
    {
      this.id, this.expiresAt := id, expiresAt;
      status := Pending;
      calls := earlier + [(id, Pending)];
    }

    /** Every recorded call of this approval shows its status. */
    predicate Mirrored()
      reads this
    {
      forall i :: 0 <= i < |calls| && calls[i].0 == id ==> calls[i].1 == status
    }

    /** The recorded calls of other approvals are as they were. */
    twostate predicate OthersKept()
      reads this
    {
      && |calls| == |old(calls)|
      && (forall i :: 0 <= i < |calls| ==> calls[i].0 == old(calls[i].0))
      && (forall i :: 0 <= i < |calls| && calls[i].0 != id ==> calls[i] == old(calls[i]))
    }

    method Finish(to: Status)
      modifies this`status, this`calls
      ensures status == to && Mirrored() && OthersKept()
    {
      status := to;
      for n := 0 to |calls|
        invariant status == to && |calls| == |old(calls)|
        invariant forall i :: 0 <= i < |calls| ==> calls[i].0 == old(calls)[i].0
        invariant forall i :: 0 <= i < |calls| && calls[i].0 != id ==> calls[i] == old(calls)[i]
        invariant forall i :: 0 <= i < n && calls[i].0 == id ==> calls[i].1 == to
      {
        if calls[n].0 == id {
          calls := calls[n := (id, to)];
        }
      }
    }

    /** Consume the approval; `false` stands for the conflict response. */
    method Claim(now: int, matches: bool) returns (claimed: bool)
      requires Mirrored()
      modifies this`status, this`calls
      ensures status == if matches then Decide(old(status), expiresAt, now, Approved) else old(status)
      ensures claimed == (matches && old(status) == Pending && now < expiresAt)
      ensures claimed ==> status == Approved
      ensures matches && old(status) == Pending && expiresAt <= now ==> status == Expired
      ensures !matches || old(status) != Pending ==> status == old(status)
      ensures Mirrored() && OthersKept()
    {
      if !matches || status != Pending {
        return false;
      }
      if expiresAt <= now {
        Finish(Expired);
        return false;
      }
      Finish(Approved);
      claimed := true;
    }

    method Cancel(now: int) returns (accepted: bool)
      requires Mirrored()
      modifies this`status, this`calls
      ensures status == Decide(old(status), expiresAt, now, Cancelled)
      ensures accepted == (status == Cancelled)
      ensures old(status) == Pending && now < expiresAt ==> status == Cancelled
      ensures old(status) == Pending && expiresAt <= now ==> status == Expired
      ensures old(status) != Pending ==> status == old(status)
      ensures Mirrored() && OthersKept()
    {
      if status == Cancelled {
        return true;
      }
      if status != Pending {
        return false;
      }
      if expiresAt <= now {
        Finish(Expired);
        return false;
      }
      Finish(Cancelled);
      accepted := true;
    }

    /** After a crash: an approved run is marked, everything else is left alone. */
    method Interrupt()
      requires Mirrored()
      modifies this`status, this`calls
      ensures status == if old(status) == Approved then Interrupted else old(status)
      ensures Mirrored() && OthersKept()
    {
      if status == Approved {
        Finish(Interrupted);
      }
    }
  }
}
