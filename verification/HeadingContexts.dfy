/** The section path of every chunk of a document, kept up to date by one pass over the headings. */
module HeadingContexts {
  import opened Options
  import opened Chunking

  datatype Heading = Heading(start: nat, level: nat, text: string)

  /** A heading replaces every open heading of its level or below. */
  function Push(stack: seq<Heading>, h: Heading): seq<Heading> {
    Shallower(stack, h.level) + [h]
  }

  function Shallower(stack: seq<Heading>, level: nat): seq<Heading> {
    if stack == [] then []
    else Shallower(stack[..|stack| - 1], level)
         + (if stack[|stack| - 1].level < level then [stack[|stack| - 1]] else [])
  }

  // ----- what the context of a chunk means -----

  /** Headings at or before a position, of headings in text order. */
  function UpTo(hs: seq<Heading>, position: nat): nat {
    if hs == [] || hs[0].start > position then 0 else 1 + UpTo(hs[1..], position)
  }

  /** Heading `i` is still open at the end of `hs`: no later heading has an equal or smaller level. */
  predicate Open(hs: seq<Heading>, i: nat)
    requires i < |hs|
  {
    forall j :: i < j < |hs| ==> hs[i].level < hs[j].level
  }

  /** The open headings of `hs`, in order. */
  function OpenHeadings(hs: seq<Heading>): seq<Heading> {
    OpenFrom(hs, 0)
  }

  function OpenFrom(hs: seq<Heading>, i: nat): seq<Heading>
    requires i <= |hs|
    decreases |hs| - i
  {
    if i == |hs| then [] else (if Open(hs, i) then [hs[i]] else []) + OpenFrom(hs, i + 1)
  }

  function Labels(hs: seq<Heading>): seq<string> {
    seq(|hs|, i requires 0 <= i < |hs| => hs[i].text)
  }

  /** Headings that start before `end`, from the `k`-th on. */
  function Ahead(hs: seq<Heading>, k: nat, end: nat): seq<Heading>
    requires k <= |hs|
    decreases |hs| - k
  {
    if k == |hs| || hs[k].start >= end then [] else [hs[k]] + Ahead(hs, k + 1, end)
  }

  /** The labels of one chunk, from scratch: the title, the sections open at its start, and the headings
      inside it. */
  function ChunkLabels(title: string, hs: seq<Heading>, span: Span): seq<string> {
    var k := UpTo(hs, span.start);
    UpToBound(hs, span.start);
    [title] + Labels(OpenHeadings(hs[..k])) + Labels(Ahead(hs, k, span.end))
  }

  /** Later repetitions of a label are dropped. */
  function Distinct(xs: seq<string>): seq<string> {
    if xs == [] then []
    else
      var rest := Distinct(xs[..|xs| - 1]);
      if xs[|xs| - 1] in xs[..|xs| - 1] then rest else rest + [xs[|xs| - 1]]
  }

  // ----- the pass over the chunks -----

  function PushAll(stack: seq<Heading>, hs: seq<Heading>): seq<Heading> {
    if hs == [] then stack else Push(PushAll(stack, hs[..|hs| - 1]), hs[|hs| - 1])
  }

  lemma {:induction false} UpToBound(hs: seq<Heading>, position: nat)
    ensures UpTo(hs, position) <= |hs|
    ensures forall i :: 0 <= i < UpTo(hs, position) ==> hs[i].start <= position
    ensures UpTo(hs, position) < |hs| ==> hs[UpTo(hs, position)].start > position
  {
    if hs != [] && hs[0].start <= position {
      UpToBound(hs[1..], position);
    }
  }

  predicate InTextOrder(hs: seq<Heading>) {
    forall i, j :: 0 <= i < j < |hs| ==> hs[i].start < hs[j].start
  }

  /** In text order the count of headings up to a position is where the first later one stands. */
  lemma UpToIs(hs: seq<Heading>, position: nat, k: nat)
    requires InTextOrder(hs) && k <= |hs|
    requires forall i :: 0 <= i < k ==> hs[i].start <= position
    requires k < |hs| ==> hs[k].start > position
    ensures UpTo(hs, position) == k
  {
    UpToBound(hs, position);
  }

  lemma {:induction false} ShallowerMembers(stack: seq<Heading>, level: nat)
    ensures forall x :: x in Shallower(stack, level) <==> x in stack && x.level < level
  {
    if stack != [] {
      ShallowerMembers(stack[..|stack| - 1], level);
      assert stack == stack[..|stack| - 1] + [stack[|stack| - 1]];
    }
  }

  predicate Increasing(hs: seq<Heading>) {
    forall i, j :: 0 <= i < j < |hs| ==> hs[i].level < hs[j].level
  }

  /** `h` is one of the headings from `i` on that are still open. */
  ghost predicate OpenAmong(hs: seq<Heading>, i: nat, h: Heading) {
    exists j :: i <= j < |hs| && hs[j] == h && Open(hs, j)
  }

  lemma {:induction false} OpenMembers(hs: seq<Heading>, i: nat)
    requires i <= |hs|
    ensures forall h :: h in OpenFrom(hs, i) <==> OpenAmong(hs, i, h)
    decreases |hs| - i
  {
    if i < |hs| {
      OpenMembers(hs, i + 1);
      forall h ensures h in OpenFrom(hs, i) <==> OpenAmong(hs, i, h) {
        assert OpenAmong(hs, i, h) <==> (Open(hs, i) && h == hs[i]) || OpenAmong(hs, i + 1, h);
      }
    }
  }

  /** Open headings have strictly increasing levels. */
  lemma {:induction false} OpenIncreasing(hs: seq<Heading>, i: nat)
    requires i <= |hs|
    ensures Increasing(OpenFrom(hs, i))
    decreases |hs| - i
  {
    if i < |hs| {
      OpenIncreasing(hs, i + 1);
      OpenMembers(hs, i + 1);
      var rest := OpenFrom(hs, i + 1);
      if Open(hs, i) {
        forall k | 0 <= k < |rest| ensures hs[i].level < rest[k].level {
          assert rest[k] in rest && OpenAmong(hs, i + 1, rest[k]);
        }
      }
    }
  }

  /** The headings ahead are a contiguous run in text order: from the `k`-th up to the first one that starts
      at `end` or later. */
  lemma {:induction false} AheadIsRun(hs: seq<Heading>, k: nat, end: nat) returns (m: nat)
    requires k <= |hs| && InTextOrder(hs)
    ensures k <= m <= |hs| && Ahead(hs, k, end) == hs[k..m]
    ensures forall i :: k <= i < |hs| ==> (i < m <==> hs[i].start < end)
    decreases |hs| - k
  {
    m := k;
    if k < |hs| && hs[k].start < end {
      m := AheadIsRun(hs, k + 1, end);
      assert hs[k..m] == [hs[k]] + hs[k + 1..m];
    }
  }

  lemma OpenWithOneMore(hs: seq<Heading>, h: Heading, i: nat)
    requires i < |hs|
    ensures Open(hs + [h], i) <==> Open(hs, i) && hs[i].level < h.level
  {
    var longer := hs + [h];
    assert longer[|hs|] == h;
    assert forall j :: i <= j < |hs| ==> longer[j] == hs[j];
  }

  lemma LastIsOpen(hs: seq<Heading>, h: Heading)
    ensures OpenFrom(hs + [h], |hs|) == [h]
  {
    assert Open(hs + [h], |hs|);
    assert OpenFrom(hs + [h], |hs| + 1) == [];
  }

  /** One more heading: the open ones of the longer list are the shallower open ones of the shorter, then it. */
  lemma {:induction false} OpenPushes(hs: seq<Heading>, h: Heading, i: nat)
    requires i <= |hs|
    ensures OpenFrom(hs + [h], i) == Shallower(OpenFrom(hs, i), h.level) + [h]
    decreases |hs| - i
  {
    hide Open, Shallower;
    if i == |hs| {
      LastIsOpen(hs, h);
      NoneShallower(h.level);
      assert [] + [h] == [h];
    } else {
      OpenPushes(hs, h, i + 1);
      OpenWithOneMore(hs, h, i);
      var first := if Open(hs, i) then [hs[i]] else [];
      var rest := OpenFrom(hs, i + 1);
      assert OpenFrom(hs, i) == first + rest;
      ShallowerConcat(first, rest, h.level);
      ShallowerOne(hs[i], h.level);
      NoneShallower(h.level);
      assert (hs + [h])[i] == hs[i];
      assert OpenFrom(hs + [h], i) == Shallower(first, h.level) + (Shallower(rest, h.level) + [h]);
    }
  }

  lemma NoneShallower(level: nat)
    ensures Shallower([], level) == []
  {
  }

  lemma ShallowerOne(h: Heading, level: nat)
    ensures Shallower([h], level) == if h.level < level then [h] else []
  {
    assert [h][..0] == [];
  }

  lemma ShallowerSnoc(hs: seq<Heading>, h: Heading, level: nat)
    ensures Shallower(hs + [h], level) == Shallower(hs, level) + if h.level < level then [h] else []
  {
    assert (hs + [h])[..|hs|] == hs;
  }

  lemma {:induction false} ShallowerConcat(a: seq<Heading>, b: seq<Heading>, level: nat)
    ensures Shallower(a + b, level) == Shallower(a, level) + Shallower(b, level)
  {
    hide Shallower;
    if b == [] {
      assert a + b == a;
      NoneShallower(level);
    } else {
      var init, last := b[..|b| - 1], b[|b| - 1];
      assert b == init + [last] && a + b == (a + init) + [last];
      ShallowerConcat(a, init, level);
      ShallowerSnoc(init, last, level);
      ShallowerSnoc(a + init, last, level);
    }
  }

  /** The stack built heading by heading holds exactly the open headings. */
  lemma {:induction false} StackIsOpen(hs: seq<Heading>)
    ensures PushAll([], hs) == OpenHeadings(hs)
  {
    if hs != [] {
      var init := hs[..|hs| - 1];
      StackIsOpen(init);
      assert hs == init + [hs[|hs| - 1]];
      OpenPushes(init, hs[|hs| - 1], 0);
    }
  }

  method CollectAhead(hs: seq<Heading>, cursor: nat, end: nat, labels: seq<string>) returns (r: seq<string>)
    requires cursor <= |hs|
    ensures r == labels + Labels(Ahead(hs, cursor, end))
  {
    r := labels;
    var lookahead := cursor;
    while lookahead < |hs| && hs[lookahead].start < end
      invariant cursor <= lookahead <= |hs|
      invariant labels + Labels(Ahead(hs, cursor, end)) == r + Labels(Ahead(hs, lookahead, end))
    {
      assert Labels(Ahead(hs, lookahead, end)) == [hs[lookahead].text] + Labels(Ahead(hs, lookahead + 1, end));
      r := r + [hs[lookahead].text];
      lookahead := lookahead + 1;
    }
  }

  lemma NothingPushed(hs: seq<Heading>)
    ensures PushAll([], hs[..0]) == []
  {
  }

  lemma PushOneMore(hs: seq<Heading>, k: nat)
    requires k < |hs|
    ensures PushAll([], hs[..k + 1]) == Push(PushAll([], hs[..k]), hs[k])
  {
    assert hs[..k + 1][..k] == hs[..k];
  }

  /** One pass with a cursor and a stack gives every chunk what recomputing it from scratch would. */
  method ChunkContexts(title: string, hs: seq<Heading>, spans: seq<Span>) returns (contexts: seq<seq<string>>)
    requires InTextOrder(hs)
    requires forall i, j :: 0 <= i < j < |spans| ==> spans[i].start <= spans[j].start
    ensures |contexts| == |spans|
    ensures forall i :: 0 <= i < |spans| ==> contexts[i] == Distinct(ChunkLabels(title, hs, spans[i]))
  {
    hide InTextOrder, Distinct, Push, PushAll, OpenHeadings, Labels;
    contexts := [];
    var stack: seq<Heading> := [];
    NothingPushed(hs);
    var cursor := 0;
    for n := 0 to |spans|
      invariant |contexts| == n && cursor <= |hs|
      invariant forall i :: 0 <= i < n ==> contexts[i] == Distinct(ChunkLabels(title, hs, spans[i]))
      invariant stack == PushAll([], hs[..cursor])
      invariant forall i :: 0 <= i < cursor && n < |spans| ==> hs[i].start <= spans[n].start
    {
      while cursor < |hs| && hs[cursor].start <= spans[n].start
        invariant cursor <= |hs| && stack == PushAll([], hs[..cursor])
        invariant forall i :: 0 <= i < cursor ==> hs[i].start <= spans[n].start
      {
        PushOneMore(hs, cursor);
        stack := Push(stack, hs[cursor]);
        cursor := cursor + 1;
      }
      UpToIs(hs, spans[n].start, cursor);
      StackIsOpen(hs[..cursor]);
      var labels := CollectAhead(hs, cursor, spans[n].end, [title] + Labels(stack));
      contexts := contexts + [Distinct(labels)];
    }
  }

  /** What the labels of a chunk are: the sections are exactly the headings at or before its start that no
      later such heading of equal or smaller level closes, with strictly increasing levels; then come, in
      text order, exactly the headings that start inside it. */
  lemma ContextMeaning(hs: seq<Heading>, span: Span) returns (m: nat)
    requires InTextOrder(hs)
    ensures var k := UpTo(hs, span.start);
            && k <= m <= |hs| && (forall i :: 0 <= i < |hs| ==> (i < k <==> hs[i].start <= span.start))
            && Increasing(OpenHeadings(hs[..k]))
            && (forall h :: h in OpenHeadings(hs[..k]) <==> OpenAmong(hs[..k], 0, h))
            && Ahead(hs, k, span.end) == hs[k..m]
            && (forall i :: 0 <= i < |hs| ==> (k <= i < m <==> span.start < hs[i].start < span.end))
  {
    hide Increasing, OpenHeadings, OpenAmong, Ahead;
    var k := UpTo(hs, span.start);
    UpToBound(hs, span.start);
    OpenMeaning(hs[..k]);
    m := AheadIsRun(hs, k, span.end);
  }

  lemma OpenMeaning(hs: seq<Heading>)
    ensures Increasing(OpenHeadings(hs))
    ensures forall h :: h in OpenHeadings(hs) <==> OpenAmong(hs, 0, h)
  {
    hide Increasing, OpenAmong;
    OpenIncreasing(hs, 0);
    OpenMembers(hs, 0);
  }

  // ----- the labels of a chunk -----

  /** Dropping later repetitions keeps every label once, in the order of first appearance. */
  lemma {:induction false} DistinctMeaning(xs: seq<string>)
    ensures forall x :: x in Distinct(xs) <==> x in xs
    ensures NoRepeats(Distinct(xs))
    ensures forall i, j :: 0 <= i < j < |Distinct(xs)| ==> FirstAt(xs, Distinct(xs)[i]) < FirstAt(xs, Distinct(xs)[j])
  {
    if xs != [] {
      var init, last := xs[..|xs| - 1], xs[|xs| - 1];
      DistinctMeaning(init);
      assert xs == init + [last];
      forall x | x in init ensures FirstAt(xs, x) == FirstAt(init, x) < |init| {
        FirstAtGrows(init, last, x);
      }
      if last !in init {
        FirstAtLast(init, last);
      }
    }
  }

  /** Where a label appears first, or the length. */
  function FirstAt(xs: seq<string>, x: string): (i: nat)
    ensures i <= |xs| && (i < |xs| ==> xs[i] == x) && forall j :: 0 <= j < i ==> xs[j] != x
  {
    if xs == [] || xs[0] == x then 0 else 1 + FirstAt(xs[1..], x)
  }

  lemma FirstAtGrows(init: seq<string>, last: string, x: string)
    requires x in init
    ensures FirstAt(init + [last], x) == FirstAt(init, x) < |init|
  {
    var all := init + [last];
    var i, j := FirstAt(init, x), FirstAt(all, x);
    assert forall k :: 0 <= k < |init| ==> all[k] == init[k];
    var at :| 0 <= at < |init| && init[at] == x;
    assert i <= at && j <= at;
  }

  lemma FirstAtLast(init: seq<string>, last: string)
    requires last !in init
    ensures FirstAt(init + [last], last) == |init|
  {
    var all := init + [last];
    assert all[|init|] == last;
    assert forall k :: 0 <= k < |init| ==> all[k] == init[k];
  }

  /** The labels of a chunk are the title, then the texts of the sections open at its start, then the texts of the
      headings inside it, each kept where it appears first. */
  lemma LabelsMeaning(title: string, hs: seq<Heading>, span: Span) returns (m: nat)
    requires InTextOrder(hs)
    ensures UpTo(hs, span.start) <= m <= |hs|
    ensures var k := UpTo(hs, span.start); var sections := OpenHeadings(hs[..k]);
            var labels := ChunkLabels(title, hs, span);
            && |labels| == 1 + |sections| + (m - k)
            && labels[0] == title
            && (forall i :: 0 <= i < |sections| ==> labels[1 + i] == sections[i].text)
            && (forall i :: k <= i < m ==> labels[1 + |sections| + i - k] == hs[i].text)
            && (forall i :: 0 <= i < |hs| ==> (k <= i < m <==> span.start < hs[i].start < span.end))
  {
    hide OpenHeadings, Increasing, OpenAmong;
    m := ContextMeaning(hs, span);
  }
}
