/** Greedy maximal-marginal-relevance selection of search results. */
module DiverseSelection {
  import opened Options

  /** A result as the selection sees it: its set of character shingles and its source context. */
  datatype Item = Item(shingles: set<string>, context: string)

  function Gram(text: string, i: nat): string
    requires i + 3 <= |text|
  {
    text[i..i + 3]
  }

  /** The shingles of a cleaned text: all its substrings of length three, or the whole of a shorter one. */
  function Shingles(text: string): (r: set<string>)
    ensures r != {}
  {
    if |text| <= 3 then {text}
    else
      var grams := set i: nat | 0 <= i < |text| - 2 :: Gram(text, i);
      var first: nat := 0;
      assert Gram(text, first) in grams;
      grams
  }

  /** Shingle overlap between 0 and 1. */
  function Similarity(a: Item, b: Item): real {
    |a.shingles * b.shingles| as real / Max(|a.shingles + b.shingles|, 1) as real
  }

  const NEAR := 0.95

  /** How much of an item the selected ones already say. */
  function Redundancy(items: seq<Item>, i: nat, selected: seq<nat>): real
    requires i < |items| && forall k :: 0 <= k < |selected| ==> selected[k] < |items|
  {
    if selected == [] then 0.0
    else
      var last := Similarity(items[i], items[selected[|selected| - 1]]);
      var rest := Redundancy(items, i, selected[..|selected| - 1]);
      if rest >= last then rest else last
  }

  /** An item repeats a selected one: nearly the same text, and the same context unless contexts are
      not compared. */
  predicate Repeats(items: seq<Item>, contexts: bool, i: nat, other: nat)
    requires i < |items| && other < |items|
  {
    Similarity(items[i], items[other]) >= NEAR && (contexts ==> items[i].context == items[other].context)
  }

  predicate Duplicate(items: seq<Item>, contexts: bool, i: nat, selected: seq<nat>)
    requires i < |items| && forall k :: 0 <= k < |selected| ==> selected[k] < |items|
  {
    exists k :: 0 <= k < |selected| && Repeats(items, contexts, i, selected[k])
  }

  /** Relevance falls with the rank, redundancy counts against an item. */
  function Score(items: seq<Item>, i: nat, selected: seq<nat>): real
    requires i < |items| && forall k :: 0 <= k < |selected| ==> selected[k] < |items|
  {
    0.7 * (1.0 - i as real / Max(|items|, 1) as real) - 0.3 * Redundancy(items, i, selected)
  }

  predicate Candidate(items: seq<Item>, contexts: bool, i: nat, selected: seq<nat>)
    requires forall k :: 0 <= k < |selected| ==> selected[k] < |items|
  {
    i < |items| && i !in selected && !Duplicate(items, contexts, i, selected)
  }

  /** `i` is the candidate with the best score, the better ranked one among equals. */
  ghost predicate Best(items: seq<Item>, contexts: bool, i: nat, selected: seq<nat>)
    requires forall k :: 0 <= k < |selected| ==> selected[k] < |items|
  {
    && Candidate(items, contexts, i, selected)
    && forall j :: 0 <= j < |items| && j != i && Candidate(items, contexts, j, selected) ==>
         || Score(items, i, selected) > Score(items, j, selected)
         || (Score(items, i, selected) == Score(items, j, selected) && i < j)
  }

  /** Every element was the best candidate when it was chosen. */
  ghost predicate Greedy(items: seq<Item>, contexts: bool, selected: seq<nat>) {
    && (forall k :: 0 <= k < |selected| ==> selected[k] < |items|)
    && (forall k :: 0 <= k < |selected| ==> Best(items, contexts, selected[k], selected[..k]))
  }

  /** The redundancy test of the code: the greatest similarity is near, and some repeated context is. */
  lemma {:induction false} RedundancyBounds(items: seq<Item>, i: nat, selected: seq<nat>)
    requires i < |items| && forall k :: 0 <= k < |selected| ==> selected[k] < |items|
    ensures Redundancy(items, i, selected) >= NEAR
       <==> exists k :: 0 <= k < |selected| && Similarity(items[i], items[selected[k]]) >= NEAR
  {
    hide Similarity;
    if selected != [] {
      var init := selected[..|selected| - 1];
      RedundancyBounds(items, i, init);
      assert selected == init + [selected[|selected| - 1]];
      if exists k :: 0 <= k < |init| && Similarity(items[i], items[init[k]]) >= NEAR {
        var k :| 0 <= k < |init| && Similarity(items[i], items[init[k]]) >= NEAR;
        assert selected[k] == init[k];
      }
    }
  }

  method Scan(items: seq<Item>, contexts: bool, selected: seq<nat>, remaining: seq<nat>)
    returns (best: Option<nat>)
    requires forall k :: 0 <= k < |selected| ==> selected[k] < |items|
    requires forall i :: i in remaining <==> 0 <= i < |items| && i !in selected
    ensures best.Some? ==> best.value in remaining && Best(items, contexts, best.value, selected)
    ensures best.None? ==> forall i :: 0 <= i < |items| ==> !Candidate(items, contexts, i, selected)
  {
    hide Similarity;
    best := None;
    var bestScore := 0.0;
    for n := 0 to |remaining|
      invariant best.Some? ==>
        && best.value in remaining && Candidate(items, contexts, best.value, selected)
        && bestScore == Score(items, best.value, selected)
        && forall m :: 0 <= m < n && remaining[m] != best.value && Candidate(items, contexts, remaining[m], selected) ==>
             bestScore > Score(items, remaining[m], selected)
             || (bestScore == Score(items, remaining[m], selected) && best.value < remaining[m])
      invariant best.None? ==> forall m :: 0 <= m < n ==> !Candidate(items, contexts, remaining[m], selected)
    {
      var index := remaining[n];
      assert index in remaining;
      RedundancyBounds(items, index, selected);
      var redundancy := Redundancy(items, index, selected);
      var duplicateContext := !contexts || Duplicate(items, contexts, index, selected);
      if redundancy >= NEAR && duplicateContext {
        continue;
      }
      var score := Score(items, index, selected);
      if best.None? || score > bestScore || (score == bestScore && index < best.value) {
        best, bestScore := Some(index), score;
      }
    }
    assert forall i :: 0 <= i < |items| && i !in selected ==> i in remaining;
  }

  /** No index twice, the best ranked item first, and no two items that repeat each other. */
  ghost predicate Diverse(items: seq<Item>, contexts: bool, selected: seq<nat>) {
    && (forall k :: 0 <= k < |selected| ==> selected[k] < |items|)
    && (forall i, j :: 0 <= i < |selected| && 0 <= j < |selected| && i != j ==>
          selected[i] != selected[j] && !Repeats(items, contexts, selected[i], selected[j]))
    && (selected != [] ==> selected[0] == 0)
  }

  /** Every item left out repeats a selected one. */
  ghost predicate Maximal(items: seq<Item>, contexts: bool, selected: seq<nat>)
    requires forall k :: 0 <= k < |selected| ==> selected[k] < |items|
  {
    forall i :: 0 <= i < |items| && i !in selected ==> Duplicate(items, contexts, i, selected)
  }

  method DiverseIndices(items: seq<Item>, contexts: bool, limit: nat) returns (selected: seq<nat>)
    ensures |selected| <= limit && Diverse(items, contexts, selected)
    ensures |selected| < limit ==> Maximal(items, contexts, selected)
    ensures Greedy(items, contexts, selected)
  {
    hide Diverse, Candidate;
    selected := [];
    var remaining := Indices(|items|);
    while remaining != [] && |selected| < limit
      invariant |selected| <= limit && Greedy(items, contexts, selected)
      invariant forall i :: i in remaining <==> 0 <= i < |items| && i !in selected
      invariant NoRepeats(remaining)
      decreases |remaining|
    {
      var best := Scan(items, contexts, selected, remaining);
      if best.None? {
        NoCandidate(items, contexts, selected);
        GreedyIsDiverse(items, contexts, selected);
        return;
      }
      ghost var before := selected;
      selected := selected + [best.value];
      assert selected[..|before|] == before;
      assert forall k :: 0 <= k < |before| ==> selected[..k] == before[..k];
      remaining := Remove(remaining, best.value);
    }
    assert remaining == [] ==> forall i :: 0 <= i < |items| ==> i in selected;
    GreedyIsDiverse(items, contexts, selected);
  }

  lemma NoCandidate(items: seq<Item>, contexts: bool, selected: seq<nat>)
    requires forall k :: 0 <= k < |selected| ==> selected[k] < |items|
    requires forall i :: 0 <= i < |items| ==> !Candidate(items, contexts, i, selected)
    ensures Maximal(items, contexts, selected)
  {
    forall i | 0 <= i < |items| && i !in selected ensures Duplicate(items, contexts, i, selected) {
      assert !Candidate(items, contexts, i, selected);
    }
  }

  /** One item per text, with its shingles after cleaning; without contexts all texts count as one context. */
  function Items(texts: seq<string>, contexts: Option<seq<string>>, clean: string -> string): (r: seq<Item>)
    requires contexts.Some? ==> |contexts.value| == |texts|
    ensures |r| == |texts|
  {
    seq(|texts|, i requires 0 <= i < |texts| =>
      Item(Shingles(clean(texts[i])), if contexts.Some? then contexts.value[i] else ""))
  }

  /** The selection on texts; `clean` stands for folding case, joining blanks and cutting long texts. */
  method DiverseTexts(texts: seq<string>, limit: nat, contexts: Option<seq<string>>, clean: string -> string)
    returns (selected: seq<nat>)
    requires contexts.Some? ==> |contexts.value| == |texts|
    ensures |selected| <= limit && Diverse(Items(texts, contexts, clean), contexts.Some?, selected)
    ensures |selected| < limit ==> Maximal(Items(texts, contexts, clean), contexts.Some?, selected)
    ensures Greedy(Items(texts, contexts, clean), contexts.Some?, selected)
    ensures forall i, j :: 0 <= i < j < |selected| ==>
              !(clean(texts[selected[i]]) == clean(texts[selected[j]])
                && (contexts.Some? ==> contexts.value[selected[i]] == contexts.value[selected[j]]))
  {
    var items: seq<Item> := [];
    for n := 0 to |texts|
      invariant |items| == n && forall i :: 0 <= i < n ==> items[i] == Items(texts, contexts, clean)[i]
    {
      items := items + [Item(Shingles(clean(texts[n])), if contexts.Some? then contexts.value[n] else "")];
    }
    assert items == Items(texts, contexts, clean);
    selected := DiverseIndices(items, contexts.Some?, limit);
    forall i, j | 0 <= i < j < |selected|
      ensures !(clean(texts[selected[i]]) == clean(texts[selected[j]])
                && (contexts.Some? ==> contexts.value[selected[i]] == contexts.value[selected[j]]))
    {
      if clean(texts[selected[i]]) == clean(texts[selected[j]])
         && (contexts.Some? ==> contexts.value[selected[i]] == contexts.value[selected[j]]) {
        EqualTextsRepeat(texts, contexts, clean, selected[i], selected[j]);
        assert false;
      }
    }
  }

  function Indices(n: nat): (r: seq<nat>)
    ensures |r| == n && forall i :: 0 <= i < n ==> r[i] == i
    ensures forall i :: i in r <==> 0 <= i < n
  {
    if n == 0 then [] else Indices(n - 1) + [n - 1]
  }

  /** The list without the one occurrence of `x`. */
  function Remove(xs: seq<nat>, x: nat): (r: seq<nat>)
    requires x in xs && NoRepeats(xs)
    ensures |r| == |xs| - 1 && NoRepeats(r)
    ensures forall y :: y in r <==> y in xs && y != x
  {
    assert xs == [xs[0]] + xs[1..];
    if xs[0] == x then xs[1..]
    else
      var rest := Remove(xs[1..], x);
      assert xs[0] !in rest;
      [xs[0]] + rest
  }

  // ----- what a greedy selection is -----

  /** A greedy selection has distinct indices, starts with the best ranked item, and never holds two
      items that repeat each other. */
  lemma GreedyIsDiverse(items: seq<Item>, contexts: bool, selected: seq<nat>)
    requires Greedy(items, contexts, selected)
    ensures Diverse(items, contexts, selected)
  {
    hide Similarity, Score;
    forall i, j | 0 <= i < j < |selected|
      ensures selected[i] != selected[j]
      ensures !Repeats(items, contexts, selected[j], selected[i]) && !Repeats(items, contexts, selected[i], selected[j])
    {
      assert selected[..j][i] == selected[i];
      assert Best(items, contexts, selected[j], selected[..j]);
      SimilaritySymmetric(items[selected[i]], items[selected[j]]);
    }
    if selected != [] {
      assert selected[..0] == [] && Best(items, contexts, selected[0], selected[..0]);
      assert Candidate(items, contexts, 0, []);
      if selected[0] != 0 {
        FirstScoresBest(items, selected[0]);
      }
    }
  }

  lemma FirstScoresBest(items: seq<Item>, i: nat)
    requires 0 < i < |items|
    ensures Score(items, 0, []) > Score(items, i, [])
  {
  }

  /** Equal cleaned texts in equal contexts always repeat each other. */
  lemma EqualTextsRepeat(texts: seq<string>, contexts: Option<seq<string>>, clean: string -> string, i: nat, other: nat)
    requires contexts.Some? ==> |contexts.value| == |texts|
    requires i < |texts| && other < |texts| && clean(texts[i]) == clean(texts[other])
    requires contexts.Some? ==> contexts.value[i] == contexts.value[other]
    ensures Repeats(Items(texts, contexts, clean), contexts.Some?, i, other)
  {
    hide Similarity, Shingles;
    SelfSimilar(Items(texts, contexts, clean)[i], Items(texts, contexts, clean)[other]);
  }

  lemma SelfSimilar(a: Item, b: Item)
    requires a.shingles == b.shingles != {}
    ensures Similarity(a, b) == 1.0
  {
    var s := a.shingles;
    assert s * s == s && s + s == s;
    assert |s| > 0;
  }

  lemma SimilaritySymmetric(a: Item, b: Item)
    ensures Similarity(a, b) == Similarity(b, a)
  {
    assert a.shingles * b.shingles == b.shingles * a.shingles;
    assert a.shingles + b.shingles == b.shingles + a.shingles;
  }

  /** The greedy choice is unique: of two greedy selections one continues the other. */
  lemma {:induction false} GreedyIsUnique(items: seq<Item>, contexts: bool, a: seq<nat>, b: seq<nat>)
    requires Greedy(items, contexts, a) && Greedy(items, contexts, b) && |a| <= |b|
    ensures a <= b
  {
    hide Score, Candidate;
    if a != [] {
      var n := |a| - 1;
      var init := a[..n];
      assert forall k :: 0 <= k < n ==> init[..k] == a[..k];
      GreedyIsUnique(items, contexts, init, b);
      assert init == b[..n];
      assert Best(items, contexts, a[n], init) && Best(items, contexts, b[n], init);
    }
  }

  // ----- similarity, redundancy and score in numbers -----

  predicate OccursAt(text: string, i: int, g: string) {
    0 <= i && i + |g| <= |text| && text[i..i + |g|] == g
  }

  /** The shingles of a text of three characters or more are exactly its substrings of length three; a shorter text
      is its own only shingle. */
  lemma ShinglesMeaning(text: string, g: string)
    ensures |text| >= 3 ==> (g in Shingles(text) <==> |g| == 3 && exists i :: OccursAt(text, i, g))
    ensures |text| < 3 ==> (g in Shingles(text) <==> g == text)
  {
    if |text| > 3 {
      if g in Shingles(text) {
        var n: nat :| n < |text| - 2 && g == Gram(text, n);
        assert OccursAt(text, n, g);
      }
      if |g| == 3 && exists i :: OccursAt(text, i, g) {
        var i :| OccursAt(text, i, g);
        var n: nat := i;
        assert g == Gram(text, n);
      }
    } else if |text| == 3 {
      assert text[0..3] == text;
      assert OccursAt(text, 0, text);
      assert forall i :: OccursAt(text, i, g) && |g| == 3 ==> i == 0 && g == text[0..3];
    }
  }

  lemma Quotient(a: int, b: int)
    requires 0 <= a <= b && 0 < b
    ensures 0.0 <= a as real / b as real <= 1.0
    ensures (a as real / b as real) * b as real == a as real
    ensures a as real / b as real == 1.0 <==> a == b
    ensures a as real / b as real == 0.0 <==> a == 0
    ensures a as real / b as real >= 0.95 <==> 20 * a >= 19 * b
  {
    var q, n := a as real / b as real, b as real;
    assert q * n == a as real;
    SameSign(q, n);
    SameSign(q - 1.0, n);
    SameSign(q - 0.95, n);
    assert (q - 1.0) * n == a as real - n;
    assert (q - 0.95) * n == a as real - 0.95 * n;
  }

  lemma SameSign(x: real, n: real)
    requires n > 0.0
    ensures x * n >= 0.0 <==> x >= 0.0
    ensures x * n == 0.0 <==> x == 0.0
  {
  }

  lemma UnionBound(a: set<string>, b: set<string>)
    ensures |a * b| <= |a + b|
    ensures a != {} ==> |a + b| > 0
    ensures |a * b| == |a + b| <==> a == b
  {
    assert a * b <= a + b;
    Subset(a * b, a + b);
    assert a * b == a + b <==> a == b by {
      if a * b == a + b {
        assert a <= a * b && b <= a * b;
      }
    }
  }

  lemma {:induction false} Subset(a: set<string>, b: set<string>)
    requires a <= b
    ensures |a| <= |b| && (|a| == |b| ==> a == b)
  {
    if a != {} {
      var x :| x in a;
      Subset(a - {x}, b - {x});
      assert a == (a - {x}) + {x} && b == (b - {x}) + {x};
    } else if |b| == 0 {
      assert b == {};
    }
  }

  /** Similarity is the share of common shingles: between 0 and 1, 1 exactly for equal sets of shingles, 0 exactly for
      disjoint ones; and two items repeat each other exactly when at least 19 of 20 shingles are common. */
  lemma SimilarityMeaning(a: Item, b: Item)
    requires a.shingles != {}
    ensures var s := Similarity(a, b); var common, all := |a.shingles * b.shingles|, |a.shingles + b.shingles|;
            && 0.0 <= s <= 1.0 && s * all as real == common as real
            && (s == 1.0 <==> a.shingles == b.shingles)
            && (s == 0.0 <==> a.shingles * b.shingles == {})
            && (s >= NEAR <==> 20 * common >= 19 * all)
  {
    UnionBound(a.shingles, b.shingles);
    Quotient(|a.shingles * b.shingles|, |a.shingles + b.shingles|);
  }

  /** Redundancy is the greatest similarity with a selected item, 0 when nothing is selected. */
  lemma {:induction false} RedundancyIsGreatest(items: seq<Item>, i: nat, selected: seq<nat>)
    requires i < |items| && forall k :: 0 <= k < |selected| ==> selected[k] < |items|
    requires forall j :: 0 <= j < |items| ==> items[j].shingles != {}
    ensures forall k :: 0 <= k < |selected| ==> Similarity(items[i], items[selected[k]]) <= Redundancy(items, i, selected)
    ensures if selected == [] then Redundancy(items, i, selected) == 0.0
            else exists k :: 0 <= k < |selected| && Similarity(items[i], items[selected[k]]) == Redundancy(items, i, selected)
  {
    hide Similarity;
    if selected != [] {
      var n := |selected| - 1;
      var init := selected[..n];
      RedundancyIsGreatest(items, i, init);
      SimilarityMeaning(items[i], items[selected[n]]);
      if Redundancy(items, i, selected) == Similarity(items[i], items[selected[n]]) {
      } else {
        var k :| 0 <= k < |init| && Similarity(items[i], items[init[k]]) == Redundancy(items, i, init);
        assert selected[k] == init[k];
      }
    }
  }

  /** The score in numbers: seven tenths for the place in the ranking, minus three tenths of the redundancy.  Of two
      candidates of equal redundancy the better ranked one wins, and a lower redundancy always raises the score. */
  lemma ScoreMeaning(items: seq<Item>, i: nat, j: nat, selected: seq<nat>)
    requires i < |items| && j < |items| && forall k :: 0 <= k < |selected| ==> selected[k] < |items|
    ensures var difference := Score(items, i, selected) - Score(items, j, selected);
            var redundancies := Redundancy(items, j, selected) - Redundancy(items, i, selected);
            && difference * |items| as real == 0.7 * (j - i) as real + 0.3 * redundancies * |items| as real
            && (i < j && redundancies >= 0.0 ==> difference > 0.0)
            && (i <= j && redundancies > 0.0 ==> difference > 0.0)
  {
    hide Redundancy;
    var n, x, y := |items| as real, i as real, j as real;
    assert (x / n) * n == x && (y / n) * n == y;
    var ri, rj := Redundancy(items, i, selected), Redundancy(items, j, selected);
    assert Score(items, i, selected) == 0.7 * (1.0 - x / n) - 0.3 * ri;
    assert Score(items, j, selected) == 0.7 * (1.0 - y / n) - 0.3 * rj;
    Scaled(x / n, y / n, ri, rj, n);
  }

  lemma Scaled(p: real, q: real, ri: real, rj: real, n: real)
    requires n > 0.0
    ensures ((0.7 * (1.0 - p) - 0.3 * ri) - (0.7 * (1.0 - q) - 0.3 * rj)) * n == 0.7 * (q * n - p * n) + 0.3 * (rj - ri) * n
    ensures q * n > p * n ==> q > p
    ensures q * n >= p * n ==> q >= p
  {
    assert ((0.7 * (1.0 - p) - 0.3 * ri) - (0.7 * (1.0 - q) - 0.3 * rj)) == 0.7 * (q - p) + 0.3 * (rj - ri);
  }
}
