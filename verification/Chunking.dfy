/** Splitting a document into overlapping chunks that end at natural boundaries. */
module Chunking {
  import opened Options

  datatype Span = Span(start: nat, end: nat)

  /** Where a chunk prefers to end, best first; the third is the ideographic full stop. */
  const SEPARATORS: seq<string> := ["\n\n", "\n", "\U{3002}", ". ", " "]

  predicate MatchAt(s: string, sep: string, i: int) {
    0 <= i <= |s| - |sep| && s[i..i + |sep|] == sep
  }

  /** The last position in [lo, hi - |sep|] at which `sep` occurs. */
  function LastMatch(s: string, sep: string, lo: nat, hi: nat): (r: Option<nat>)
    requires hi <= |s|
    ensures r.Some? ==> lo <= r.value <= hi - |sep| && MatchAt(s, sep, r.value)
    ensures forall i :: (if r.Some? then r.value + 1 else lo) <= i <= hi - |sep| ==> !MatchAt(s, sep, i)
    decreases hi
  {
    if hi < |sep| || hi - |sep| < lo then None
    else if MatchAt(s, sep, hi - |sep|) then Some(hi - |sep|)
    else if hi == 0 then None
    else LastMatch(s, sep, lo, hi - 1)
  }

  /** The end of a chunk that would have to be cut at `end`: behind the last occurrence of the best
      separator that occurs at or after `floor`, or `end` itself. */
  function Cut(s: string, seps: seq<string>, floor: nat, end: nat): nat
    requires end <= |s|
  {
    if seps == [] then end
    else
      match LastMatch(s, seps[0], floor, end)
      case Some(b) => b + |seps[0]|
      case None => Cut(s, seps[1..], floor, end)
  }

  predicate Sizes(size: int, overlap: int) {
    0 <= overlap < size
  }

  function ChunkEnd(s: string, start: nat, size: int, overlap: int): nat
    requires Sizes(size, overlap) && start < |s|
  {
    if start + size >= |s| then |s|
    else Cut(s, SEPARATORS, start + Max(size / 2, overlap + 1), start + size)
  }

  lemma CutTurn(s: string, seps: seq<string>, n: nat, floor: nat, end: nat)
    requires end <= |s| && n < |seps|
    ensures var b := LastMatch(s, seps[n], floor, end);
            Cut(s, seps[n..], floor, end) == if b.Some? then b.value + |seps[n]| else Cut(s, seps[n + 1..], floor, end)
  {
    assert seps[n..][0] == seps[n] && seps[n..][1..] == seps[n + 1..];
  }

  lemma NoSeparators(s: string, seps: seq<string>, floor: nat, end: nat)
    requires end <= |s|
    ensures Cut(s, seps[|seps|..], floor, end) == end
  {
  }

  method FindEnd(s: string, start: nat, size: int, overlap: int) returns (end: nat)
    requires Sizes(size, overlap) && start < |s|
    ensures end == ChunkEnd(s, start, size, overlap)
  {
    end := Min(start + size, |s|);
    if end == |s| {
      return;
    }
    var floor := start + Max(size / 2, overlap + 1);
    hide Cut;
    assert SEPARATORS[0..] == SEPARATORS;
    for n := 0 to |SEPARATORS|
      invariant Cut(s, SEPARATORS, floor, end) == Cut(s, SEPARATORS[n..], floor, end)
    {
      CutTurn(s, SEPARATORS, n, floor, end);
      var boundary := LastMatch(s, SEPARATORS[n], floor, end);
      if boundary.Some? {
        return boundary.value + |SEPARATORS[n]|;
      }
    }
    NoSeparators(s, SEPARATORS, floor, end);
  }

  /** A cut that respects the floor lies behind the floor and within the limit. */
  lemma {:induction false} CutInRange(s: string, seps: seq<string>, floor: nat, end: nat)
    requires floor <= end <= |s| && forall i :: 0 <= i < |seps| ==> seps[i] != ""
    ensures floor <= Cut(s, seps, floor, end) <= end
    ensures Cut(s, seps, floor, end) == floor ==> floor == end
  {
    if seps != [] {
      assert seps[0] != "";
      CutInRange(s, seps[1..], floor, end);
    }
  }

  lemma ChunkEndInRange(s: string, start: nat, size: int, overlap: int)
    requires Sizes(size, overlap) && start < |s|
    ensures var end := ChunkEnd(s, start, size, overlap);
            start + overlap < end <= |s| || end == |s|
    ensures start < ChunkEnd(s, start, size, overlap) <= Min(start + size, |s|)
  {
    if start + size < |s| {
      CutInRange(s, SEPARATORS, start + Max(size / 2, overlap + 1), start + size);
    }
  }

  /** The chunks from position `start` on. */
  function Spans(s: string, start: nat, size: int, overlap: int): seq<Span>
    requires Sizes(size, overlap)
    decreases |s| - start
  {
    if start >= |s| then []
    else
      var end := ChunkEnd(s, start, size, overlap);
      ChunkEndInRange(s, start, size, overlap);
      if end == |s| then [Span(start, end)]
      else [Span(start, end)] + Spans(s, end - overlap, size, overlap)
  }

  lemma SpansUnfold(s: string, start: nat, size: int, overlap: int)
    requires Sizes(size, overlap) && start < |s|
    ensures var end := ChunkEnd(s, start, size, overlap);
            if end == |s| then Spans(s, start, size, overlap) == [Span(start, end)]
            else end - overlap >= 0 && Spans(s, start, size, overlap) == [Span(start, end)] + Spans(s, end - overlap, size, overlap)
  {
    hide ChunkEnd;
    ChunkEndInRange(s, start, size, overlap);
  }

  /** Before the first chunk, after another one, and after the last. */
  lemma NoneYet(spans: seq<Span>)
    ensures [] + spans == spans
  {
  }

  lemma OneMore(s: string, chunks: seq<Span>, start: nat, end: nat, size: int, overlap: int)
    requires Sizes(size, overlap) && start < |s| && end == ChunkEnd(s, start, size, overlap) && end < |s|
    ensures end - overlap >= 0
         && chunks + Spans(s, start, size, overlap) == (chunks + [Span(start, end)]) + Spans(s, end - overlap, size, overlap)
  {
    hide ChunkEnd, Spans;
    SpansUnfold(s, start, size, overlap);
    var first, rest := [Span(start, end)], Spans(s, end - overlap, size, overlap);
    assert chunks + (first + rest) == (chunks + first) + rest;
  }

  lemma NoMore(s: string, chunks: seq<Span>, start: nat, size: int, overlap: int)
    requires Sizes(size, overlap)
    ensures start >= |s| ==> chunks + Spans(s, start, size, overlap) == chunks
    ensures start < |s| && ChunkEnd(s, start, size, overlap) == |s|
        ==> chunks + Spans(s, start, size, overlap) == chunks + [Span(start, |s|)]
  {
    hide ChunkEnd;
    if start < |s| {
      SpansUnfold(s, start, size, overlap);
    } else {
      assert chunks + [] == chunks;
    }
  }

  method CollectSpans(s: string, size: int, overlap: int) returns (chunks: seq<Span>)
    requires Sizes(size, overlap)
    ensures chunks == Spans(s, 0, size, overlap)
  {
    hide ChunkEnd, Spans;
    chunks := [];
    var start: nat := 0;
    NoneYet(Spans(s, 0, size, overlap));
    while start < |s|
      invariant Spans(s, 0, size, overlap) == chunks + Spans(s, start, size, overlap)
      decreases |s| - start
    {
      var end := FindEnd(s, start, size, overlap);
      ChunkEndInRange(s, start, size, overlap);
      if end == |s| {
        NoMore(s, chunks, start, size, overlap);
        chunks := chunks + [Span(start, end)];
        return;
      }
      OneMore(s, chunks, start, end, size, overlap);
      chunks := chunks + [Span(start, end)];
      start := Max(end - overlap, 0);
    }
    NoMore(s, chunks, start, size, overlap);
  }

  /** Splits normalised text; bad sizes raise. */
  method SplitSpans(s: string, size: int, overlap: int) returns (r: Result<seq<Span>>)
    ensures r == if Sizes(size, overlap) then Ok(Spans(s, 0, size, overlap)) else Raised
  {
    if size <= 0 || !(0 <= overlap < size) {
      return Raised;
    }
    var chunks := CollectSpans(s, size, overlap);
    r := Ok(chunks);
  }

  function Content(s: string, span: Span): string
    requires span.start <= span.end <= |s|
  {
    s[span.start..span.end]
  }

  predicate InText(s: string, spans: seq<Span>) {
    forall i :: 0 <= i < |spans| ==> spans[i].start < spans[i].end <= |s|
  }

  /** Putting chunks together again: every chunk after the first loses its first `overlap` characters. */
  function Rejoin(s: string, spans: seq<Span>, overlap: nat): string
    requires InText(s, spans)
  {
    if spans == [] then ""
    else
      var last := |spans| - 1;
      var content := Content(s, spans[last]);
      Rejoin(s, spans[..last], overlap) + (if last == 0 || overlap > |content| then content else content[overlap..])
  }

  /** The shape of every split: chunks lie in the text, none is longer than `size`, each starts exactly
      `overlap` before its predecessor ends and ends later than it, and the last one ends the text. */
  ghost predicate Tiles(s: string, spans: seq<Span>, start: nat, size: int, overlap: int) {
    && spans != [] && spans[0].start == start && spans[|spans| - 1].end == |s|
    && InText(s, spans)
    && (forall i :: 0 <= i < |spans| ==> spans[i].end - spans[i].start <= size)
    && (forall i :: 0 < i < |spans| ==>
          && spans[i].start == spans[i - 1].end - overlap
          && spans[i - 1].start < spans[i].start && spans[i - 1].end < spans[i].end)
  }

  lemma TilesOne(s: string, start: nat, size: int, overlap: int)
    requires start < |s| <= start + size
    ensures Tiles(s, [Span(start, |s|)], start, size, overlap)
  {
  }

  lemma TilesMore(s: string, first: Span, rest: seq<Span>, size: int, overlap: int)
    requires first.start < first.end && first.end - first.start <= size && first.start + overlap < first.end
    requires Tiles(s, rest, first.end - overlap, size, overlap) && first.end < rest[0].end
    ensures Tiles(s, [first] + rest, first.start, size, overlap)
  {
    var all := [first] + rest;
    assert all[0] == first && forall i :: 0 < i < |all| ==> all[i] == rest[i - 1];
  }

  lemma {:induction false} SpansTile(s: string, start: nat, size: int, overlap: int)
    requires Sizes(size, overlap) && start < |s|
    ensures Tiles(s, Spans(s, start, size, overlap), start, size, overlap)
    decreases |s| - start
  {
    hide ChunkEnd, Spans, Tiles;
    var end := ChunkEnd(s, start, size, overlap);
    ChunkEndInRange(s, start, size, overlap);
    SpansUnfold(s, start, size, overlap);
    if end == |s| {
      TilesOne(s, start, size, overlap);
    } else {
      var next := end - overlap;
      SpansTile(s, next, size, overlap);
      SpansUnfold(s, next, size, overlap);
      ChunkEndInRange(s, next, size, overlap);
      TilesMore(s, Span(start, end), Spans(s, next, size, overlap), size, overlap);
    }
  }

  lemma {:induction false} PrefixRejoins(s: string, spans: seq<Span>, k: nat, start: nat, size: int, overlap: nat)
    requires Tiles(s, spans, start, size, overlap) && 1 <= k <= |spans|
    ensures start <= spans[k - 1].start
    ensures InText(s, spans[..k]) && Rejoin(s, spans[..k], overlap) == s[start..spans[k - 1].end]
  {
    assert spans[..k][..k - 1] == spans[..k - 1];
    if k == 1 {
      assert Rejoin(s, spans[..0], overlap) == "";
    } else {
      PrefixRejoins(s, spans, k - 1, start, size, overlap);
      var content := Content(s, spans[k - 1]);
      assert content[overlap..] == s[spans[k - 2].end..spans[k - 1].end];
    }
  }

  /** For every text and all sizes: the chunks tile the text with exactly the given overlap, and dropping
      that overlap from every chunk after the first gives the text back. */
  lemma SplitTilesAndRejoins(s: string, size: int, overlap: nat)
    requires Sizes(size, overlap)
    ensures var spans := Spans(s, 0, size, overlap);
            && (s == "" <==> spans == [])
            && (s != "" ==> Tiles(s, spans, 0, size, overlap))
            && InText(s, spans) && Rejoin(s, spans, overlap) == s
  {
    if s != "" {
      var spans := Spans(s, 0, size, overlap);
      SpansTile(s, 0, size, overlap);
      PrefixRejoins(s, spans, |spans|, 0, size, overlap);
      assert spans[..|spans|] == spans;
    }
  }

  lemma {:induction false} StartsIncrease(s: string, spans: seq<Span>, i: nat, j: nat, start: nat, size: int, overlap: int)
    requires Tiles(s, spans, start, size, overlap) && i < j < |spans|
    ensures spans[i].start < spans[j].start
    decreases j
  {
    if i < j - 1 {
      StartsIncrease(s, spans, i, j - 1, start, size, overlap);
    }
  }

  /** The chunks of a split come in text order, as the pass over the headings needs it. */
  lemma SplitInOrder(s: string, size: int, overlap: int)
    requires Sizes(size, overlap)
    ensures var spans := Spans(s, 0, size, overlap);
            forall i, j :: 0 <= i < j < |spans| ==> spans[i].start < spans[j].start
  {
    if s != "" {
      var spans := Spans(s, 0, size, overlap);
      SpansTile(s, 0, size, overlap);
      forall i, j | 0 <= i < j < |spans| ensures spans[i].start < spans[j].start {
        StartsIncrease(s, spans, i, j, 0, size, overlap);
      }
    }
  }

  /** `end` is the place behind the last occurrence of the `j`-th separator in the window, and no better
      separator occurs there. */
  ghost predicate BestBoundary(s: string, seps: seq<string>, floor: nat, limit: nat, j: nat, end: nat) {
    && j < |seps| && floor + |seps[j]| <= end <= limit && MatchAt(s, seps[j], end - |seps[j]|)
    && (forall i :: end - |seps[j]| < i <= limit - |seps[j]| ==> !MatchAt(s, seps[j], i))
    && (forall k: nat, i :: k < j && floor <= i <= limit - |seps[k]| ==> !MatchAt(s, seps[k], i))
  }

  ghost predicate NoBoundary(s: string, seps: seq<string>, floor: nat, limit: nat) {
    forall k: nat, i :: k < |seps| && floor <= i <= limit - |seps[k]| ==> !MatchAt(s, seps[k], i)
  }

  predicate Missing(s: string, sep: string, floor: nat, limit: nat) {
    forall i :: floor <= i <= limit - |sep| ==> !MatchAt(s, sep, i)
  }

  lemma FirstIsBest(s: string, seps: seq<string>, floor: nat, limit: nat)
    requires limit <= |s| && seps != [] && LastMatch(s, seps[0], floor, limit).Some?
    ensures BestBoundary(s, seps, floor, limit, 0, Cut(s, seps, floor, limit))
  {
    hide MatchAt;
  }

  lemma BestOfRest(s: string, seps: seq<string>, floor: nat, limit: nat, j: nat, end: nat)
    requires seps != [] && Missing(s, seps[0], floor, limit) && BestBoundary(s, seps[1..], floor, limit, j, end)
    ensures BestBoundary(s, seps, floor, limit, j + 1, end)
  {
    hide MatchAt;
    forall k: nat, i | k < j + 1 && floor <= i <= limit - |seps[k]| ensures !MatchAt(s, seps[k], i) {
      assert k > 0 ==> seps[k] == seps[1..][k - 1];
    }
  }

  lemma NoneInRest(s: string, seps: seq<string>, floor: nat, limit: nat)
    requires seps != [] && Missing(s, seps[0], floor, limit) && NoBoundary(s, seps[1..], floor, limit)
    ensures NoBoundary(s, seps, floor, limit)
  {
    hide MatchAt;
    forall k: nat, i | k < |seps| && floor <= i <= limit - |seps[k]| ensures !MatchAt(s, seps[k], i) {
      assert k > 0 ==> seps[k] == seps[1..][k - 1];
    }
  }

  /** A cut is made at the best boundary of the window, or at the limit if the window has none; `j` is the
      separator used, or their number. */
  lemma {:induction false} CutIsBestBoundary(s: string, seps: seq<string>, floor: nat, limit: nat) returns (j: nat)
    requires limit <= |s|
    ensures j <= |seps|
    ensures j < |seps| ==> BestBoundary(s, seps, floor, limit, j, Cut(s, seps, floor, limit))
    ensures j == |seps| ==> NoBoundary(s, seps, floor, limit) && Cut(s, seps, floor, limit) == limit
  {
    hide BestBoundary, MatchAt;
    if seps == [] {
      j := 0;
    } else if LastMatch(s, seps[0], floor, limit).Some? {
      FirstIsBest(s, seps, floor, limit);
      j := 0;
    } else {
      hide NoBoundary;
      var k := CutIsBestBoundary(s, seps[1..], floor, limit);
      if k < |seps| - 1 {
        BestOfRest(s, seps, floor, limit, k, Cut(s, seps, floor, limit));
      } else {
        NoneInRest(s, seps, floor, limit);
      }
      j := k + 1;
    }
  }

  /** Where one chunk ends: at the end of the text if the size reaches it, and otherwise at the best boundary of
      its window, or at the size limit if the window has none. */
  ghost predicate GoodEnd(s: string, span: Span, size: int, overlap: int) {
    var separators := ["\n\n", "\n", "\U{3002}", ". ", " "];
    var floor, limit := span.start + Max(size / 2, overlap + 1), span.start + size;
    if |s| <= limit then span.end == |s|
    else
      0 <= floor && 0 <= limit &&
      ((exists j: nat :: BestBoundary(s, separators, floor, limit, j, span.end))
       || (NoBoundary(s, separators, floor, limit) && span.end == limit))
  }

  lemma ChunkEndIsGood(s: string, start: nat, size: int, overlap: int)
    requires Sizes(size, overlap) && start < |s|
    ensures GoodEnd(s, Span(start, ChunkEnd(s, start, size, overlap)), size, overlap)
  {
    hide BestBoundary, NoBoundary;
    if start + size < |s| {
      var j := CutIsBestBoundary(s, SEPARATORS, start + Max(size / 2, overlap + 1), start + size);
    }
  }

  /** Every chunk of a split ends well. */
  lemma {:induction false} ChunksEndWell(s: string, start: nat, size: int, overlap: int)
    requires Sizes(size, overlap)
    ensures forall i :: 0 <= i < |Spans(s, start, size, overlap)| ==> GoodEnd(s, Spans(s, start, size, overlap)[i], size, overlap)
    decreases |s| - start
  {
    hide ChunkEnd, Spans, GoodEnd;
    if start < |s| {
      var end := ChunkEnd(s, start, size, overlap);
      ChunkEndInRange(s, start, size, overlap);
      ChunkEndIsGood(s, start, size, overlap);
      SpansUnfold(s, start, size, overlap);
      if end < |s| {
        ChunksEndWell(s, end - overlap, size, overlap);
      }
    } else {
      NoMore(s, [], start, size, overlap);
      NothingBefore(Spans(s, start, size, overlap));
    }
  }
}
