/** Fusing two ranked result lists by reciprocal rank. */
module RankFusion {
  import opened Options

  datatype Key = Key(document: int, chunk: int)

  datatype Citation = Citation(key: Key, score: real)

  const RRF_K := 60
  const UNRANKED := 121   // behind every possible candidate

  function Abs(x: real): real {
    if x < 0.0 then -x else x
  }

  function Larger(x: real, y: real): real {
    if x >= y then x else y
  }

  /** Scores that differ by no more than a millionth count as equal. */
  predicate Close(a: real, b: real) {
    Abs(a - b) <= Larger(0.000001 * Larger(Abs(a), Abs(b)), 0.00000001)
  }

  /** Competition rank: a citation shares the rank of its predecessor if their scores are close. */
  function RankAt(cs: seq<Citation>, i: nat): (r: nat)
    requires i < |cs|
    ensures 1 <= r <= i + 1
  {
    if i > 0 && Close(cs[i].score, cs[i - 1].score) then RankAt(cs, i - 1) else i + 1
  }

  /** The rank of a chunk in a channel: that of its first citation. */
  function ChannelRank(cs: seq<Citation>, key: Key): (r: Option<nat>)
    ensures r.Some? ==> 1 <= r.value
  {
    if cs == [] then None
    else
      var last := |cs| - 1;
      var earlier := ChannelRank(cs[..last], key);
      if earlier.Some? then earlier
      else if cs[last].key == key then Some(RankAt(cs, last))
      else None
  }

  /** What one channel adds to a fused score. */
  function Reciprocal(rank: Option<nat>): real {
    if rank.None? then 0.0 else 1.0 / (RRF_K + rank.value) as real
  }

  function FusedScore(vector: seq<Citation>, keyword: seq<Citation>, key: Key): real {
    Reciprocal(ChannelRank(vector, key)) + Reciprocal(ChannelRank(keyword, key))
  }

  // ----- collecting -----

  predicate Cited(cs: seq<Citation>, key: Key) {
    exists i :: 0 <= i < |cs| && cs[i].key == key
  }

  lemma {:induction false} RankedIffCited(cs: seq<Citation>, key: Key)
    ensures ChannelRank(cs, key).Some? <==> Cited(cs, key)
  {
    if cs != [] {
      var init := cs[..|cs| - 1];
      RankedIffCited(init, key);
      assert cs == init + [cs[|cs| - 1]];
      if Cited(init, key) {
        var i :| 0 <= i < |init| && init[i].key == key;
        assert cs[i].key == key;
      }
    }
  }

  lemma {:induction false} RankAtPrefix(cs: seq<Citation>, n: nat, i: nat)
    requires i < n <= |cs|
    ensures RankAt(cs[..n], i) == RankAt(cs, i)
  {
    if i > 0 {
      RankAtPrefix(cs, n, i - 1);
    }
  }

  function ScoreOf(scores: map<Key, real>, key: Key): real {
    if key in scores then scores[key] else 0.0
  }

  /** One channel: add its reciprocal ranks to the scores collected so far, each chunk once. */
  method AddChannel(cs: seq<Citation>, scores: map<Key, real>, order: seq<Key>)
    returns (scores': map<Key, real>, order': seq<Key>, ranks: map<Key, nat>)
    requires NoRepeats(order) && forall k :: k in order <==> k in scores
    ensures NoRepeats(order') && forall k :: k in order' <==> k in scores'
    ensures forall k :: k in scores' <==> k in scores || ChannelRank(cs, k).Some?
    ensures forall k :: ScoreOf(scores', k) == ScoreOf(scores, k) + Reciprocal(ChannelRank(cs, k))
    ensures forall k :: ChannelRank(cs, k) == if k in ranks then Some(ranks[k]) else None
  {
    hide Reciprocal, Close;
    scores', order', ranks := scores, order, map[];
    var rank: nat := 0;
    for n := 0 to |cs|
      invariant n > 0 ==> rank == RankAt(cs, n - 1)
      invariant NoRepeats(order') && forall k :: k in order' <==> k in scores'
      invariant forall k :: k in scores' <==> k in scores || k in ranks
      invariant forall k :: ChannelRank(cs[..n], k) == if k in ranks then Some(ranks[k]) else None
      invariant forall k :: ScoreOf(scores', k)
                         == ScoreOf(scores, k) + (if k in ranks then Reciprocal(Some(ranks[k])) else 0.0)
    {
      if n == 0 || !Close(cs[n].score, cs[n - 1].score) {
        rank := n + 1;
      }
      var key := cs[n].key;
      assert cs[..n + 1][..n] == cs[..n] && cs[..n + 1][n] == cs[n];
      RankAtPrefix(cs, n + 1, n);
      if key in ranks {
        continue;
      }
      if key !in scores' {
        order' := order' + [key];
      }
      ranks := ranks[key := rank];
      scores' := scores'[key := ScoreOf(scores', key) + Reciprocal(Some(rank))];
    }
    assert cs[..|cs|] == cs;
    NoReciprocal();
  }

  lemma NoReciprocal()
    ensures Reciprocal(None) == 0.0
  {
  }

  // ----- ordering -----

  predicate KeyLess(a: Key, b: Key) {
    a.document < b.document || (a.document == b.document && a.chunk < b.chunk)
  }

  function TieRank(keyword: seq<Citation>, key: Key): nat {
    ChannelRank(keyword, key).GetOr(UNRANKED)
  }

  /** The order of the fused list: higher score, then better keyword rank, then the key. */
  predicate Earlier(vector: seq<Citation>, keyword: seq<Citation>, a: Key, b: Key) {
    || FusedScore(vector, keyword, a) > FusedScore(vector, keyword, b)
    || (FusedScore(vector, keyword, a) == FusedScore(vector, keyword, b)
        && (|| TieRank(keyword, a) < TieRank(keyword, b)
            || (TieRank(keyword, a) == TieRank(keyword, b) && KeyLess(a, b))))
  }

  ghost predicate Sorted(vector: seq<Citation>, keyword: seq<Citation>, ks: seq<Key>) {
    forall i, j :: 0 <= i < j < |ks| ==> Earlier(vector, keyword, ks[i], ks[j])
  }

  lemma EarlierIsTotal(vector: seq<Citation>, keyword: seq<Citation>, a: Key, b: Key, c: Key)
    ensures a != b ==> (Earlier(vector, keyword, a, b) <==> !Earlier(vector, keyword, b, a))
    ensures Earlier(vector, keyword, a, b) && Earlier(vector, keyword, b, c) ==> Earlier(vector, keyword, a, c)
    ensures !Earlier(vector, keyword, a, a)
  {
  }

  function Insert(vector: seq<Citation>, keyword: seq<Citation>, k: Key, ks: seq<Key>): seq<Key> {
    if ks == [] || Earlier(vector, keyword, k, ks[0]) then [k] + ks
    else [ks[0]] + Insert(vector, keyword, k, ks[1..])
  }

  function SortKeys(vector: seq<Citation>, keyword: seq<Citation>, ks: seq<Key>): seq<Key> {
    if ks == [] then [] else Insert(vector, keyword, ks[0], SortKeys(vector, keyword, ks[1..]))
  }

  lemma {:induction false} InsertSorts(vector: seq<Citation>, keyword: seq<Citation>, k: Key, ks: seq<Key>)
    requires Sorted(vector, keyword, ks) && k !in ks
    ensures var r := Insert(vector, keyword, k, ks);
            Sorted(vector, keyword, r) && |r| == |ks| + 1 && forall x :: x in r <==> x == k || x in ks
  {
    hide Earlier;
    if ks == [] {
    } else if Earlier(vector, keyword, k, ks[0]) {
      forall j | 0 <= j < |ks| ensures Earlier(vector, keyword, k, ks[j]) {
        EarlierIsTotal(vector, keyword, k, ks[0], ks[j]);
      }
    } else {
      InsertSorts(vector, keyword, k, ks[1..]);
      var rest := Insert(vector, keyword, k, ks[1..]);
      forall j | 0 <= j < |rest| ensures Earlier(vector, keyword, ks[0], rest[j]) {
        assert rest[j] in rest;
        EarlierIsTotal(vector, keyword, ks[0], k, k);
      }
      assert ks == [ks[0]] + ks[1..];
    }
  }

  lemma {:induction false} SortSorts(vector: seq<Citation>, keyword: seq<Citation>, ks: seq<Key>)
    requires NoRepeats(ks)
    ensures var r := SortKeys(vector, keyword, ks);
            Sorted(vector, keyword, r) && |r| == |ks| && forall x :: x in r <==> x in ks
  {
    if ks != [] {
      SortSorts(vector, keyword, ks[1..]);
      assert ks[0] !in ks[1..];
      InsertSorts(vector, keyword, ks[0], SortKeys(vector, keyword, ks[1..]));
      assert ks == [ks[0]] + ks[1..];
    }
  }

  // ----- fusing -----

  datatype Fused = Fused(key: Key, score: real, vectorRank: Option<nat>, keywordRank: Option<nat>)

  function FusedOf(vector: seq<Citation>, keyword: seq<Citation>, key: Key): Fused {
    Fused(key, FusedScore(vector, keyword, key), ChannelRank(vector, key), ChannelRank(keyword, key))
  }

  function Take<T>(xs: seq<T>, limit: nat): seq<T> {
    if |xs| <= limit then xs else xs[..limit]
  }

  datatype FusedList = Single(citations: seq<Citation>) | Hybrid(fused: seq<Fused>)

  /** Two lists of results; when one of them is empty the other is used as it is. */
  method Fuse(vector: seq<Citation>, keyword: seq<Citation>, limit: nat) returns (r: FusedList)
    ensures r.Single? <==> vector == [] || keyword == []
    ensures r.Single? ==>
              var only := if vector == [] then keyword else vector;
              r.citations <= only && |r.citations| == Min(limit, |only|)
    ensures r.Hybrid? ==> BestOfUnion(vector, keyword, limit, r.fused)
  {
    if vector == [] || keyword == [] {
      return Single(Take(if vector == [] then keyword else vector, limit));
    }
    var fused := FuseBoth(vector, keyword, limit);
    r := Hybrid(fused);
  }

  /** Two non-empty lists: the best `limit` chunks of their union in fused order, each with its ranks. */
  method FuseBoth(vector: seq<Citation>, keyword: seq<Citation>, limit: nat) returns (fused: seq<Fused>)
    ensures BestOfUnion(vector, keyword, limit, fused)
  {
    hide ChannelRank, Reciprocal, Cited, Earlier, Sorted, SortKeys, BestOfUnion;
    var scores, order, vectorRanks := AddChannel(vector, map[], []);
    var scores2, order2, keywordRanks := AddChannel(keyword, scores, order);
    forall k ensures ScoreOf(scores2, k) == FusedScore(vector, keyword, k) {
      assert ScoreOf(map[], k) == 0.0;
    }
    forall k ensures k in order2 <==> Cited(vector, k) || Cited(keyword, k) {
      RankedIffCited(vector, k);
      RankedIffCited(keyword, k);
    }
    var ordered := SortKeys(vector, keyword, order2);
    SortSorts(vector, keyword, order2);
    fused := [];
    for n := 0 to Min(limit, |ordered|)
      invariant |fused| == n
      invariant forall i :: 0 <= i < n ==> fused[i] == FusedOf(vector, keyword, ordered[i])
    {
      var k := ordered[n];
      assert k in ordered;
      fused := fused + [Fused(k, scores2[k],
                              if k in vectorRanks then Some(vectorRanks[k]) else None,
                              if k in keywordRanks then Some(keywordRanks[k]) else None)];
    }
    CutIsBest(vector, keyword, limit, ordered, fused);
  }

  /** The fused list holds chunks of the union, in order and each once, with their fused scores and ranks;
      it is full or holds the whole union, and every chunk left out comes after every chunk in it. */
  ghost predicate BestOfUnion(vector: seq<Citation>, keyword: seq<Citation>, limit: nat, fused: seq<Fused>) {
    && |fused| <= limit
    && (forall i :: 0 <= i < |fused| ==>
          && fused[i] == FusedOf(vector, keyword, fused[i].key)
          && (Cited(vector, fused[i].key) || Cited(keyword, fused[i].key)))
    && (forall i, j :: 0 <= i < j < |fused| ==> Earlier(vector, keyword, fused[i].key, fused[j].key))
    && (forall k :: (Cited(vector, k) || Cited(keyword, k)) && (forall i :: 0 <= i < |fused| ==> fused[i].key != k)
          ==> |fused| == limit && forall i :: 0 <= i < |fused| ==> Earlier(vector, keyword, fused[i].key, k))
  }

  lemma CutIsBest(vector: seq<Citation>, keyword: seq<Citation>, limit: nat, ordered: seq<Key>, fused: seq<Fused>)
    requires Sorted(vector, keyword, ordered)
    requires forall k :: k in ordered <==> Cited(vector, k) || Cited(keyword, k)
    requires |fused| == Min(limit, |ordered|)
    requires forall i :: 0 <= i < |fused| ==> fused[i] == FusedOf(vector, keyword, ordered[i])
    ensures BestOfUnion(vector, keyword, limit, fused)
  {
    hide Earlier, Cited, FusedScore, ChannelRank;
    forall i | 0 <= i < |fused| ensures fused[i].key in ordered {
      assert fused[i].key == ordered[i];
    }
    forall k | k in ordered && (forall i :: 0 <= i < |fused| ==> fused[i].key != k)
      ensures |fused| == limit && forall i :: 0 <= i < |fused| ==> Earlier(vector, keyword, fused[i].key, k)
    {
      var at :| 0 <= at < |ordered| && ordered[at] == k;
      assert forall i :: 0 <= i < |fused| ==> ordered[i] == fused[i].key;
      assert |fused| <= at;
    }
  }

  // ----- dominance -----

  /** A rank is no worse than another if it exists and is no larger, or the other does not exist. */
  predicate NoWorse(a: Option<nat>, b: Option<nat>) {
    b.None? || (a.Some? && a.value <= b.value)
  }

  lemma ReciprocalOrder(a: Option<nat>, b: Option<nat>)
    requires NoWorse(a, b)
    ensures Reciprocal(a) >= Reciprocal(b)
    ensures !NoWorse(b, a) ==> Reciprocal(a) > Reciprocal(b)
  {
    if a.Some? && b.Some? {
      var x, y := (RRF_K + a.value) as real, (RRF_K + b.value) as real;
      assert 0.0 < x <= y;
      assert 1.0 / x - 1.0 / y == (y - x) / (x * y);
    }
  }

  /** A chunk ranked no worse in both lists and strictly better in one always comes earlier. */
  lemma DominanceRespected(vector: seq<Citation>, keyword: seq<Citation>, a: Key, b: Key)
    requires NoWorse(ChannelRank(vector, a), ChannelRank(vector, b))
    requires NoWorse(ChannelRank(keyword, a), ChannelRank(keyword, b))
    requires !NoWorse(ChannelRank(vector, b), ChannelRank(vector, a)) || !NoWorse(ChannelRank(keyword, b), ChannelRank(keyword, a))
    ensures Earlier(vector, keyword, a, b) && FusedScore(vector, keyword, a) > FusedScore(vector, keyword, b)
  {
    ReciprocalOrder(ChannelRank(vector, a), ChannelRank(vector, b));
    ReciprocalOrder(ChannelRank(keyword, a), ChannelRank(keyword, b));
  }

  // ----- ranks, scores and the order in numbers -----

  lemma CloseMeaning(a: real, b: real)
    ensures Close(a, b) <==>
            var d := if a >= b then a - b else b - a;
            d <= 0.00000001 || d <= 0.000001 * a || d <= 0.000001 * -a || d <= 0.000001 * b || d <= 0.000001 * -b
  {
  }

  /** The rank of a citation is the place at which its run of close neighbours begins, counted from one. */
  lemma {:induction false} RankMeaning(cs: seq<Citation>, i: nat)
    requires i < |cs|
    ensures var first := RankAt(cs, i) - 1;
            && 0 <= first <= i
            && (forall k :: first < k <= i ==> Close(cs[k].score, cs[k - 1].score))
            && (first > 0 ==> !Close(cs[first].score, cs[first - 1].score))
  {
    hide Close;
    if i > 0 {
      RankMeaning(cs, i - 1);
    }
  }

  /** A chunk has the rank of the first citation of it. */
  lemma {:induction false} ChannelRankMeaning(cs: seq<Citation>, key: Key, i: nat)
    requires i < |cs| && cs[i].key == key && forall j :: 0 <= j < i ==> cs[j].key != key
    ensures ChannelRank(cs, key) == Some(RankAt(cs, i))
  {
    var last := |cs| - 1;
    if i < last {
      var init := cs[..last];
      ChannelRankMeaning(init, key, i);
      RankAtPrefix(cs, last, i);
    } else {
      RankedIffCited(cs[..last], key);
      RankAtPrefix(cs, |cs|, i);
    }
  }

  /** The fused score is the sum of 1 / (60 + rank) over the lists that hold the chunk. */
  lemma FusedNumbers(vector: seq<Citation>, keyword: seq<Citation>, key: Key)
    ensures var v, w := ChannelRank(vector, key), ChannelRank(keyword, key);
            FusedOf(vector, keyword, key)
            == Fused(key, (if v.Some? then 1.0 / (60 + v.value) as real else 0.0)
                        + (if w.Some? then 1.0 / (60 + w.value) as real else 0.0), v, w)
  {
  }

  /** Of two fused chunks in order the first has the higher score; or, at equal scores, the better keyword rank, a
      missing one being the last; or, at equal ranks too, the smaller document, then the smaller chunk. */
  lemma OrderInNumbers(vector: seq<Citation>, keyword: seq<Citation>, a: Key, b: Key)
    ensures Earlier(vector, keyword, a, b) <==>
            var x, y := FusedOf(vector, keyword, a), FusedOf(vector, keyword, b);
            var m := if x.keywordRank.Some? then x.keywordRank.value else 121;
            var n := if y.keywordRank.Some? then y.keywordRank.value else 121;
            || x.score > y.score
            || (x.score == y.score && m < n)
            || (x.score == y.score && m == n && a.document < b.document)
            || (x.score == y.score && m == n && a.document == b.document && a.chunk < b.chunk)
  {
  }
}
