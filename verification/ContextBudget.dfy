/** Fitting a prompt, the recent history and supplemental texts into a character budget. */
module ContextBudget {
  import opened Options

  const MARKER_CHARS := 47

  function Truncated(): (r: string)
    ensures |r| == MARKER_CHARS
  {
    "\n[Context truncated to fit the runtime budget.]"
  }

  function Total(texts: seq<string>): nat {
    if texts == [] then 0 else Total(texts[..|texts| - 1]) + |texts[|texts| - 1]|
  }

  lemma {:induction false} TotalSplits(a: seq<string>, b: seq<string>)
    ensures Total(a + b) == Total(a) + Total(b)
  {
    if b == [] {
      assert a + b == a;
    } else {
      TotalSplits(a, b[..|b| - 1]);
      assert (a + b)[..|a + b| - 1] == a + b[..|b| - 1];
    }
  }

  /** How a text of the context is treated: left out, kept whole, or cut to its first `chars` characters. */
  datatype Treatment = Omitted | Whole | Cut(chars: nat)

  function Source(t: string, how: Treatment): nat {
    match how
    case Omitted => 0
    case Whole => |t|
    case Cut(n) => n
  }

  /** The texts that go out for the texts that came in. */
  function Render(texts: seq<string>, hows: seq<Treatment>): seq<string>
    requires |texts| == |hows|
    requires forall i :: 0 <= i < |hows| && hows[i].Cut? ==> hows[i].chars <= |texts[i]|
  {
    if texts == [] then []
    else
      match hows[0]
      case Omitted => Render(texts[1..], hows[1..])
      case Whole => [texts[0]] + Render(texts[1..], hows[1..])
      case Cut(n) => [texts[0][..n] + Truncated()] + Render(texts[1..], hows[1..])
  }

  function SourceChars(texts: seq<string>, hows: seq<Treatment>): nat
    requires |texts| == |hows|
  {
    if texts == [] then 0 else Source(texts[0], hows[0]) + SourceChars(texts[1..], hows[1..])
  }

  /** At most one text is cut, and all texts before it are left out. */
  predicate OneCut(hows: seq<Treatment>) {
    forall i, j :: 0 <= i < j < |hows| && hows[j].Cut? ==> hows[i] == Omitted
  }

  /** What happens to a text when `remaining` characters are left for it. */
  function Handle(t: string, remaining: nat): Treatment {
    if |t| <= remaining then Whole
    else if remaining > MARKER_CHARS then Cut(remaining - MARKER_CHARS)
    else Omitted
  }

  /** What is left afterwards; a cut text uses up everything. */
  function LeftAfter(t: string, remaining: nat): nat {
    match Handle(t, remaining)
    case Whole => remaining - |t|
    case Cut(_) => 0
    case Omitted => remaining
  }

  function Omissions(n: nat): (r: seq<Treatment>)
    ensures |r| == n && forall i :: 0 <= i < n ==> r[i] == Omitted
  {
    if n == 0 then [] else Omissions(n - 1) + [Omitted]
  }

  /** Treating the texts from the latest to the earliest with `remaining` characters to spend.  The latest
      one is always looked at, so an empty one is kept even when nothing remains. */
  function Treat(texts: seq<string>, remaining: nat): (r: seq<Treatment>)
    ensures |r| == |texts|
    decreases |texts|, 0
  {
    if texts == [] then []
    else
      var last := texts[|texts| - 1];
      Earlier(texts[..|texts| - 1], LeftAfter(last, remaining)) + [Handle(last, remaining)]
  }

  /** The texts before it are looked at only while something is left. */
  function Earlier(texts: seq<string>, left: nat): (r: seq<Treatment>)
    ensures |r| == |texts|
    decreases |texts|, 1
  {
    if left == 0 then Omissions(|texts|) else Treat(texts, left)
  }

  /** The start of the longest suffix of the history that fits. */
  function KeptFrom(history: seq<string>, budget: nat): (k: nat)
    ensures k <= |history|
  {
    if history == [] || |history[|history| - 1]| > budget then |history|
    else KeptFrom(history[..|history| - 1], budget - |history[|history| - 1]|)
  }

  datatype Fitted = Fitted(history: seq<string>, context: seq<string>, inputChars: nat, droppedMessages: int, omittedChars: int)

  function HistoryBudget(promptChars: nat, context: seq<string>, maxChars: nat): nat
    requires promptChars <= maxChars
  {
    if context != [] then (maxChars - promptChars) / 2 else maxChars - promptChars
  }

  predicate Cuttable(texts: seq<string>, hows: seq<Treatment>) {
    |texts| == |hows| && forall i :: 0 <= i < |hows| && hows[i].Cut? ==> hows[i].chars < |texts[i]|
  }

  /** What goes out for one text. */
  function Shown(t: string, how: Treatment): seq<string>
    requires how.Cut? ==> how.chars <= |t|
  {
    match how case Omitted => [] case Whole => [t] case Cut(n) => [t[..n] + Truncated()]
  }

  lemma RenderFront(t: string, how: Treatment, texts: seq<string>, hows: seq<Treatment>)
    requires Cuttable(texts, hows) && (how.Cut? ==> how.chars < |t|)
    ensures Cuttable([t] + texts, [how] + hows)
    ensures SourceChars([t] + texts, [how] + hows) == Source(t, how) + SourceChars(texts, hows)
    ensures Render([t] + texts, [how] + hows) == Shown(t, how) + Render(texts, hows)
  {
    hide Truncated;
    assert ([t] + texts)[1..] == texts && ([how] + hows)[1..] == hows;
    assert [] + Render(texts, hows) == Render(texts, hows);
  }

  lemma CuttableTogether(a: seq<string>, ha: seq<Treatment>, b: seq<string>, hb: seq<Treatment>)
    requires Cuttable(a, ha) && Cuttable(b, hb)
    ensures Cuttable(a + b, ha + hb) && |a| == |ha| && |b| == |hb|
    ensures a != [] ==> Cuttable(a[1..], ha[1..]) && (ha[0].Cut? ==> ha[0].chars < |a[0]|)
  {
  }

  lemma {:induction false} RenderSplits(a: seq<string>, ha: seq<Treatment>, b: seq<string>, hb: seq<Treatment>)
    requires Cuttable(a, ha) && Cuttable(b, hb)
    ensures Cuttable(a + b, ha + hb)
    ensures Render(a + b, ha + hb) == Render(a, ha) + Render(b, hb)
    ensures SourceChars(a + b, ha + hb) == SourceChars(a, ha) + SourceChars(b, hb)
  {
    CuttableTogether(a, ha, b, hb);
    if a == [] {
      hide Truncated;
      NothingBefore(b);
      NothingBefore(hb);
      NothingBefore(Render(b, hb));
    } else {
      hide Truncated, Render, SourceChars, Shown, Cuttable;
      RenderSplits(a[1..], ha[1..], b, hb);
      RenderFront(a[0], ha[0], a[1..], ha[1..]);
      RenderFront(a[0], ha[0], a[1..] + b, ha[1..] + hb);
      FirstAndRest(a, b);
      FirstAndRest(ha, hb);
      Regroup(Shown(a[0], ha[0]), Render(a[1..], ha[1..]), Render(b, hb));
    }
  }

  lemma {:induction false} AllOmitted(texts: seq<string>, hows: seq<Treatment>)
    requires |texts| == |hows| && forall i :: 0 <= i < |hows| ==> hows[i] == Omitted
    ensures Render(texts, hows) == [] && SourceChars(texts, hows) == 0
  {
    if texts != [] {
      AllOmitted(texts[1..], hows[1..]);
    }
  }

  /** The characters a text takes up in what goes out. */
  function Cost(t: string, how: Treatment): nat {
    match how
    case Omitted => 0
    case Whole => |t|
    case Cut(n) => n + MARKER_CHARS
  }

  lemma RenderOne(t: string, how: Treatment)
    requires how.Cut? ==> how.chars < |t|
    ensures Total(Render([t], [how])) == Cost(t, how)
  {
    hide Truncated;
    assert Render([t][1..], [how][1..]) == [];
    TotalOne(if how == Whole then t else if how.Cut? then t[..how.chars] + Truncated() else "");
  }

  lemma RenderLast(texts: seq<string>, hows: seq<Treatment>)
    requires Cuttable(texts, hows) && texts != []
    ensures var n := |texts| - 1;
            && Cuttable(texts[..n], hows[..n])
            && Total(Render(texts, hows)) == Total(Render(texts[..n], hows[..n])) + Cost(texts[n], hows[n])
  {
    hide Render, Total, SourceChars;
    var n := |texts| - 1;
    assert texts == texts[..n] + [texts[n]] && hows == hows[..n] + [hows[n]];
    RenderSplits(texts[..n], hows[..n], [texts[n]], [hows[n]]);
    TotalSplits(Render(texts[..n], hows[..n]), Render([texts[n]], [hows[n]]));
    RenderOne(texts[n], hows[n]);
  }

  /** Nothing that was left out would still fit into `left` characters. */
  predicate NothingFits(texts: seq<string>, hows: seq<Treatment>, left: int)
    requires |texts| == |hows|
  {
    left == 0 || forall i :: 0 <= i < |hows| && hows[i] == Omitted ==> |texts[i]| > left
  }

  lemma {:induction false} TreatCutsOnce(texts: seq<string>, remaining: nat)
    ensures Cuttable(texts, Treat(texts, remaining)) && OneCut(Treat(texts, remaining))
  {
    hide Truncated;
    if texts != [] {
      var n := |texts| - 1;
      if LeftAfter(texts[n], remaining) > 0 {
        TreatCutsOnce(texts[..n], LeftAfter(texts[n], remaining));
      }
    }
  }

  /** The selection stays within its budget and leaves out nothing that would still fit. */
  lemma {:induction false} TreatFits(texts: seq<string>, remaining: nat)
    requires Cuttable(texts, Treat(texts, remaining))
    ensures var hows := Treat(texts, remaining);
            && Total(Render(texts, hows)) <= remaining
            && NothingFits(texts, hows, remaining - Total(Render(texts, hows)))
  {
    hide Render, Total;
    var hows := Treat(texts, remaining);
    TotalOne("");
    if texts == [] {
      AllOmitted(texts, hows);
    } else {
      var n := |texts| - 1;
      var left := LeftAfter(texts[n], remaining);
      assert hows[..n] == Earlier(texts[..n], left);
      RenderLast(texts, hows);
      if left == 0 {
        AllOmitted(texts[..n], hows[..n]);
      } else {
        TreatFits(texts[..n], left);
      }
    }
  }

  /** What a treatment of the latest texts leaves of the characters to spend. */
  function LeftFor(texts: seq<string>, hows: seq<Treatment>, remaining: nat, i: nat): int
    requires Cuttable(texts, hows) && i < |texts|
  {
    remaining - Total(Render(texts[i + 1..], hows[i + 1..]))
  }

  lemma CutShort(texts: seq<string>, hows: seq<Treatment>, n: nat)
    requires Cuttable(texts, hows) && n <= |texts|
    ensures Cuttable(texts[..n], hows[..n]) && Cuttable(texts[n..], hows[n..])
  {
  }

  /** Dropping the last text from the end part of the list gives back what it cost. */
  lemma LeftBeforeLast(texts: seq<string>, hows: seq<Treatment>, remaining: nat, i: nat)
    requires Cuttable(texts, hows) && i + 1 < |texts| && Cost(texts[|texts| - 1], hows[|texts| - 1]) <= remaining
    ensures var n := |texts| - 1;
            && Cuttable(texts[..n], hows[..n])
            && LeftFor(texts, hows, remaining, i) == LeftFor(texts[..n], hows[..n], remaining - Cost(texts[n], hows[n]), i)
  {
    hide Render, Total, Cost;
    var n := |texts| - 1;
    CutShort(texts, hows, n);
    CutShort(texts, hows, i + 1);
    var tail, how := texts[i + 1..], hows[i + 1..];
    RenderLast(tail, how);
    assert tail[..|tail| - 1] == texts[..n][i + 1..] && how[..|tail| - 1] == hows[..n][i + 1..];
  }

  lemma LeftWhenOmitted(texts: seq<string>, hows: seq<Treatment>, remaining: nat, i: nat)
    requires Cuttable(texts, hows) && i < |texts| && forall k :: 0 <= k < |hows| ==> hows[k] == Omitted
    ensures LeftFor(texts, hows, remaining, i) == remaining
  {
    AllOmitted(texts[i + 1..], hows[i + 1..]);
  }

  lemma LeftAtLast(texts: seq<string>, hows: seq<Treatment>, remaining: nat)
    requires Cuttable(texts, hows) && texts != []
    ensures LeftFor(texts, hows, remaining, |texts| - 1) == remaining
  {
    assert texts[|texts|..] == [] && hows[|texts|..] == [];
  }

  /** The whole second pass without recursion: a text is kept whole if it fits into what the later ones leave, cut to
      fill that up if more than the marker's 47 characters are left, and omitted otherwise, or when nothing is left. */
  lemma {:induction false} TreatMeaning(texts: seq<string>, remaining: nat, i: nat)
    requires Cuttable(texts, Treat(texts, remaining)) && i < |texts|
    ensures var hows := Treat(texts, remaining); var left := LeftFor(texts, hows, remaining, i);
            && 0 <= left <= remaining
            && hows[i] == (if i < |texts| - 1 && left == 0 then Omitted
                           else if |texts[i]| <= left then Whole
                           else if left > 47 then Cut(left - 47)
                           else Omitted)
  {
    hide Render, Total, LeftFor;
    var hows := Treat(texts, remaining);
    var n := |texts| - 1;
    if i == n {
      LeftAtLast(texts, hows, remaining);
    } else {
      var left := LeftAfter(texts[n], remaining);
      assert left == remaining - Cost(texts[n], hows[n]);
      LeftBeforeLast(texts, hows, remaining, i);
      assert hows[..n] == Earlier(texts[..n], left);
      if left == 0 {
        LeftWhenOmitted(texts[..n], hows[..n], left, i);
      } else {
        TreatMeaning(texts[..n], left, i);
        LeftAtLast(texts[..n], hows[..n], left);
      }
    }
  }

  lemma TotalOne(t: string)
    ensures Total([t]) == |t| && Total([]) == 0
  {
    assert [t][..0] == [];
  }

  /** The kept history is the longest run of most recent messages within its share. */
  lemma {:induction false} KeptIsLongest(history: seq<string>, budget: nat)
    ensures var k := KeptFrom(history, budget);
            && Total(history[k..]) <= budget
            && forall j :: 0 <= j < k ==> Total(history[j..]) > budget
  {
    if history != [] {
      var n := |history| - 1;
      var k := KeptFrom(history, budget);
      forall j | 0 <= j <= n
        ensures Total(history[j..]) == Total(history[..n][j..]) + |history[n]|
      {
        assert history[j..][..n - j] == history[..n][j..];
      }
      if |history[n]| <= budget {
        KeptIsLongest(history[..n], budget - |history[n]|);
      }
    }
  }

  // ----- the two passes -----

  method KeepHistory(history: seq<string>, budget: nat) returns (kept: seq<string>)
    ensures kept == history[KeptFrom(history, budget)..]
  {
    var historyBudget: nat := budget;
    var n := |history|;
    kept := [];
    assert history[..n] == history;
    while n > 0
      invariant n <= |history| && kept == history[n..]
      invariant KeptFrom(history, budget) == KeptFrom(history[..n], historyBudget)
    {
      var content := history[n - 1];
      if |content| > historyBudget {
        return;
      }
      assert history[..n][..n - 1] == history[..n - 1];
      kept := [content] + kept;
      historyBudget := historyBudget - |content|;
      n := n - 1;
    }
  }

  /** The state of the second pass: the texts from `n` on are treated as `tail` says, and the treatment of
      all texts is `head` for the earlier ones, followed by `tail`. */
  ghost predicate Passed(context: seq<string>, budget: nat, n: nat, head: seq<Treatment>, tail: seq<Treatment>) {
    n <= |context| && |head| == n && Cuttable(context[n..], tail) && Treat(context, budget) == head + tail
  }

  lemma PassStarts(context: seq<string>, budget: nat)
    ensures Passed(context, budget, |context|, Treat(context[..|context|], budget), []) && Cuttable(context[|context|..], [])
    ensures Render(context[|context|..], []) == [] && SourceChars(context[|context|..], []) == 0
  {
    assert context[..|context|] == context && Treat(context, budget) + [] == Treat(context, budget);
  }

  lemma PassTurns(context: seq<string>, budget: nat, n: nat, remaining: nat, tail: seq<Treatment>)
    requires 0 < n <= |context| && Passed(context, budget, n, Treat(context[..n], remaining), tail)
    ensures var how := Handle(context[n - 1], remaining);
            && Passed(context, budget, n - 1, Earlier(context[..n - 1], LeftAfter(context[n - 1], remaining)), [how] + tail)
            && Cuttable(context[n - 1..], [how] + tail)
            && Render(context[n - 1..], [how] + tail)
               == Shown(context[n - 1], how) + Render(context[n..], tail)
            && SourceChars(context[n - 1..], [how] + tail) == Source(context[n - 1], how) + SourceChars(context[n..], tail)
  {
    hide Truncated, Render, SourceChars, Earlier;
    var how := Handle(context[n - 1], remaining);
    assert context[..n][..n - 1] == context[..n - 1] && context[n - 1..] == [context[n - 1]] + context[n..];
    RenderFront(context[n - 1], how, context[n..], tail);
    var earlier := Earlier(context[..n - 1], LeftAfter(context[n - 1], remaining));
    assert (earlier + [how]) + tail == earlier + ([how] + tail);
  }

  lemma PassEnds(context: seq<string>, budget: nat, n: nat, head: seq<Treatment>, tail: seq<Treatment>)
    requires Passed(context, budget, n, head, tail) && forall i :: 0 <= i < |head| ==> head[i] == Omitted
    requires Cuttable(context, Treat(context, budget))
    ensures Render(context, Treat(context, budget)) == Render(context[n..], tail)
    ensures SourceChars(context, Treat(context, budget)) == SourceChars(context[n..], tail)
  {
    hide Truncated, Render, SourceChars, Treat;
    AllOmitted(context[..n], head);
    RenderSplits(context[..n], head, context[n..], tail);
    assert context == context[..n] + context[n..];
    assert [] + Render(context[n..], tail) == Render(context[n..], tail);
  }

  lemma EarlierIs(texts: seq<string>, left: nat)
    ensures left > 0 || texts == [] ==> Earlier(texts, left) == Treat(texts, left)
    ensures left == 0 ==> Earlier(texts, left) == Omissions(|texts|)
  {
    hide Handle, LeftAfter;
  }

  method KeepContext(context: seq<string>, budget: nat) returns (kept: seq<string>, sourceChars: nat)
    ensures Cuttable(context, Treat(context, budget))
    ensures kept == Render(context, Treat(context, budget))
    ensures sourceChars == SourceChars(context, Treat(context, budget))
  {
    hide Render, SourceChars, Truncated, Treat, Earlier, OneCut, Passed;
    var remaining: nat := budget;
    var n: nat := |context|;
    ghost var tail: seq<Treatment> := [];
    kept, sourceChars := [], 0;
    PassStarts(context, budget);
    TreatCutsOnce(context, budget);
    while n > 0
      invariant n <= |context| && Cuttable(context[n..], tail)
      invariant Passed(context, budget, n, Treat(context[..n], remaining), tail)
      invariant kept == Render(context[n..], tail) && sourceChars == SourceChars(context[n..], tail)
      decreases n
    {
      var text := context[n - 1];
      PassTurns(context, budget, n, remaining, tail);
      tail := [Handle(text, remaining)] + tail;
      if |text| <= remaining {
        kept, sourceChars, remaining := [text] + kept, sourceChars + |text|, remaining - |text|;
      } else if remaining > MARKER_CHARS {
        kept := [text[..remaining - MARKER_CHARS] + Truncated()] + kept;
        sourceChars, remaining := sourceChars + remaining - MARKER_CHARS, 0;
      }
      n := n - 1;
      EarlierIs(context[..n], remaining);
      if remaining == 0 {
        PassEnds(context, budget, n, Omissions(n), tail);
        return;
      }
    }
    NothingToTreat(remaining);
    assert context[..0] == [];
    PassEnds(context, budget, 0, [], tail);
  }

  lemma NothingToTreat(remaining: nat)
    ensures Treat([], remaining) == []
  {
  }

  method FitContext(prompt: string, history: seq<string>, context: seq<string>, maxChars: nat) returns (r: Result<Fitted>)
    ensures r.Raised? <==> |prompt| > maxChars
    ensures r.Ok? ==>
      var share := HistoryBudget(|prompt|, context, maxChars);
      var kept := history[KeptFrom(history, share)..];
      var left := maxChars - |prompt| - Total(kept);
      && left >= 0
      && var hows := Treat(context, left);
         && Cuttable(context, hows)
         && r.value.history == kept
         && r.value.context == Render(context, hows)
         && r.value.inputChars == |prompt| + Total(kept) + Total(Render(context, hows)) <= maxChars
         && r.value.droppedMessages == |history| - |kept|
         && r.value.omittedChars == Total(context) - SourceChars(context, hows)
    ensures r.Ok? ==>
      var left := |history| - |r.value.history|;
      var rest := maxChars - |prompt|;
      && left >= 0 && r.value.history == history[left..]
      && (context == [] ==> Total(r.value.history) <= rest && forall j :: 0 <= j < left ==> Total(history[j..]) > rest)
      && (context != [] ==> 2 * Total(r.value.history) <= rest && forall j :: 0 <= j < left ==> 2 * Total(history[j..]) > rest)
  {
    hide Render, Treat, SourceChars, KeptFrom, Total, Cuttable, OneCut, NothingFits;
    if |prompt| > maxChars {
      return Raised;
    }
    var share := HistoryBudget(|prompt|, context, maxChars);
    var kept := KeepHistory(history, share);
    KeptIsLongest(history, share);
    var left := maxChars - |prompt| - Total(kept);
    var keptContext, sourceChars := KeepContext(context, left);
    TreatCutsOnce(context, left);
    TreatFits(context, left);
    r := Ok(Fitted(kept, keptContext, |prompt| + Total(kept) + Total(keptContext),
                   |history| - |kept|, Total(context) - sourceChars));
  }
}
