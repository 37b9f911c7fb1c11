/** Reading a stream of server-sent events in the browser client, piece by piece. */
module EventStream {
  import opened Options

  // ----- the text operations the client uses -----

  /** Every carriage return and line feed pair becomes a line feed. */
  function Norm(s: string): string {
    if s == "" then ""
    else if EndsWithPair(s) then Norm(s[..|s| - 2]) + "\n"
    else Norm(s[..|s| - 1]) + [s[|s| - 1]]
  }

  predicate EndsWithPair(s: string) {
    |s| >= 2 && s[|s| - 2] == '\r' && s[|s| - 1] == '\n'
  }

  predicate BlankAt(s: string, j: int) {
    0 <= j && j + 2 <= |s| && s[j] == '\n' && s[j + 1] == '\n'
  }

  /** The first blank line at or after `from`, as an index, or the length. */
  function BlankLine(s: string, from: nat): (i: nat)
    requires from <= |s|
    ensures from <= i <= |s|
    ensures i < |s| ==> BlankAt(s, i)
    ensures forall j :: from <= j < i ==> !BlankAt(s, j)
    decreases |s| - from
  {
    if from == |s| || BlankAt(s, from) then from
    else BlankLine(s, from + 1)
  }

  /** Splitting at blank lines, from left to right; there is always a last piece, possibly empty. */
  function Split(s: string): (r: seq<string>)
    ensures r != []
    decreases |s|
  {
    var i := BlankLine(s, 0);
    if i == |s| then [s] else [s[..i]] + Split(s[i + 2..])
  }

  function Concat(parts: seq<string>): string {
    if parts == [] then "" else parts[0] + Concat(parts[1..])
  }

  /** No carriage return directly before such a pair. */
  predicate NoTriple(s: string) {
    forall i :: 0 <= i < |s| - 2 ==> !(s[i] == '\r' && s[i + 1] == '\r' && s[i + 2] == '\n')
  }

  // ----- the reader -----

  /** The pieces delivered from here on, with `buffer` held back so far. `parts` are the decoded reads and
      `last` is what the decoder gives up when the end is reported. */
  function Pieces(buffer: string, parts: seq<string>, last: string): seq<string>
    decreases |parts|
  {
    if parts == [] then Split(Norm(buffer + last))
    else
      var chunks := Split(Norm(buffer + parts[0]));
      chunks[..|chunks| - 1] + Pieces(chunks[|chunks| - 1], parts[1..], last)
  }

  function FlatMap<E>(pieces: seq<string>, parse: string -> seq<E>): seq<E> {
    if pieces == [] then [] else parse(pieces[0]) + FlatMap(pieces[1..], parse)
  }

  /** Deliver the events of complete pieces, and say whether a terminal one was among them. */
  method Deliver<E(==)>(chunks: seq<string>, parse: string -> seq<E>, terminal: E -> bool)
    returns (events: seq<E>, sawTerminal: bool)
    ensures events == FlatMap(chunks, parse)
    ensures sawTerminal <==> exists e :: e in events && terminal(e)
  {
    events, sawTerminal := [], false;
    for k := 0 to |chunks|
      invariant events == FlatMap(chunks[..k], parse)
      invariant sawTerminal <==> exists e :: e in events && terminal(e)
    {
      FlatMapSplits(chunks[..k], [chunks[k]], parse);
      assert chunks[..k + 1] == chunks[..k] + [chunks[k]] && [chunks[k]][1..] == [];
      var more := parse(chunks[k]);
      events := events + more;
      if exists e :: e in more && terminal(e) {
        sawTerminal := true;
      }
    }
    assert chunks[..|chunks|] == chunks;
  }

  /** Reads until the connection ends, delivering the events of every complete piece; `failed` stands for
      the exception thrown when no terminal event was seen. */
  method ReadEventStream<E(==)>(parts: seq<string>, last: string, parse: string -> seq<E>, terminal: E -> bool)
    returns (delivered: seq<E>, failed: bool)
    ensures delivered == FlatMap(Pieces("", parts, last), parse)
    ensures NoTriple(Concat(parts) + last) ==> delivered == FlatMap(Split(Norm(Concat(parts) + last)), parse)
    ensures failed <==> forall e :: e in delivered ==> !terminal(e)
  {
    hide Split, Norm, FlatMap, NoTriple;
    var buffer := "";
    var terminalEvent := false;
    delivered := [];
    assert parts[0..] == parts;
    for n := 0 to |parts|
      invariant FlatMap(Pieces("", parts, last), parse) == delivered + FlatMap(Pieces(buffer, parts[n..], last), parse)
      invariant terminalEvent <==> exists e :: e in delivered && terminal(e)
    {
      assert parts[n..][0] == parts[n] && parts[n..][1..] == parts[n + 1..];
      var chunks := Split(Norm(buffer + parts[n]));
      buffer := chunks[|chunks| - 1];
      chunks := chunks[..|chunks| - 1];
      FlatMapSplits(chunks, Pieces(buffer, parts[n + 1..], last), parse);
      var events, sawTerminal := Deliver(chunks, parse, terminal);
      delivered := delivered + events;
      terminalEvent := terminalEvent || sawTerminal;
    }
    // The last read reports the end: nothing is held back any more.
    var events, sawTerminal := Deliver(Split(Norm(buffer + last)), parse, terminal);
    delivered := delivered + events;
    terminalEvent := terminalEvent || sawTerminal;
    failed := !terminalEvent;
    if NoTriple(Concat(parts) + last) {
      CutsDoNotMatter(parts, last);
    }
  }

  lemma FlatMapMore<E>(first: string, rest: seq<string>, parse: string -> seq<E>)
    ensures FlatMap([first] + rest, parse) == parse(first) + FlatMap(rest, parse)
  {
    assert ([first] + rest)[1..] == rest;
  }

  lemma {:induction false} FlatMapSplits<E>(a: seq<string>, b: seq<string>, parse: string -> seq<E>)
    ensures FlatMap(a + b, parse) == FlatMap(a, parse) + FlatMap(b, parse)
  {
    if a == [] {
      NothingBefore(b);
      NothingBefore(FlatMap(b, parse));
    } else {
      hide FlatMap;
      FlatMapSplits(a[1..], b, parse);
      FlatMapMore(a[0], a[1..], parse);
      FlatMapMore(a[0], a[1..] + b, parse);
      FirstAndRest(a, b);
      Regroup(parse(a[0]), FlatMap(a[1..], parse), FlatMap(b, parse));
    }
  }

  // ----- splitting as a scan -----

  /** The state of a scan: the complete pieces and the open one. */
  datatype Scan = Scan(pieces: seq<string>, open: string)

  function Feed(s: Scan, c: char): Scan {
    if c == '\n' && s.open != "" && s.open[|s.open| - 1] == '\n'
    then Scan(s.pieces + [s.open[..|s.open| - 1]], "")
    else Scan(s.pieces, s.open + [c])
  }

  function ScanAll(s: string): Scan {
    if s == "" then Scan([], "") else Feed(ScanAll(s[..|s| - 1]), s[|s| - 1])
  }

  function Resume(start: Scan, s: string): Scan {
    if s == "" then start else Feed(Resume(start, s[..|s| - 1]), s[|s| - 1])
  }

  lemma {:induction false} ScanResumes(a: string, b: string)
    ensures ScanAll(a + b) == Resume(ScanAll(a), b)
  {
    if b == "" {
      assert a + b == a;
    } else {
      hide ScanAll, Feed;
      ScanResumes(a, b[..|b| - 1]);
      InitAndLast(a, b);
      ScanSnoc(a + b[..|b| - 1], b[|b| - 1]);
    }
  }

  predicate NoBlankLine(s: string) {
    forall j :: 0 <= j < |s| - 1 ==> !(s[j] == '\n' && s[j + 1] == '\n')
  }

  lemma {:induction false} ScanOpen(s: string)
    requires NoBlankLine(s)
    ensures ScanAll(s) == Scan([], s)
  {
    if s != "" {
      ScanOpen(s[..|s| - 1]);
      assert s == s[..|s| - 1] + [s[|s| - 1]];
    }
  }

  lemma {:induction false} ResumePrefix(start: Scan, s: string)
    ensures Resume(start, s) == var r := Resume(Scan([], start.open), s); Scan(start.pieces + r.pieces, r.open)
  {
    if s != "" {
      ResumePrefix(start, s[..|s| - 1]);
      var r := Resume(Scan([], start.open), s[..|s| - 1]);
      assert start.pieces + r.pieces + [r.open[..Last(r.open)]] == start.pieces + (r.pieces + [r.open[..Last(r.open)]]);
    } else {
      assert start.pieces + [] == start.pieces;
    }
  }

  function Last(s: string): nat {
    if s == "" then 0 else |s| - 1
  }

  lemma ScanClosed(x: string)
    requires NoBlankLine(x + ['\n'])
    ensures ScanAll((x + ['\n']) + ['\n']) == Scan([x], "")
  {
    hide ScanAll, NoBlankLine;
    var head := x + ['\n'];
    ScanOpen(head);
    ScanSnoc(head, '\n');
    assert head[|head| - 1] == '\n' && head[..|head| - 1] == x;
    assert [] + [x] == [x];
  }

  lemma ScanHeadAt(s: string, i: nat)
    requires i + 2 <= |s| && s[i] == '\n' && s[i + 1] == '\n' && NoBlankLine(s[..i + 1])
    ensures ScanAll(s[..i + 2]) == Scan([s[..i]], "")
  {
    hide ScanAll, NoBlankLine;
    assert s[..i + 1] == s[..i] + ['\n'];
    assert s[..i + 2] == s[..i + 1] + ['\n'];
    ScanClosed(s[..i]);
  }

  lemma BlankLineAt(s: string)
    requires BlankLine(s, 0) < |s|
    ensures var i := BlankLine(s, 0); i + 2 <= |s| && s[i] == '\n' && s[i + 1] == '\n' && NoBlankLine(s[..i + 1])
  {
    var i := BlankLine(s, 0);
    forall j | 0 <= j < i ensures !(s[j] == '\n' && s[j + 1] == '\n') {
      assert !BlankAt(s, j);
    }
  }

  /** The scan up to and including the first blank line. */
  lemma ScanHead(s: string)
    requires BlankLine(s, 0) < |s|
    ensures var i := BlankLine(s, 0); ScanAll(s[..i + 2]) == Scan([s[..i]], "")
  {
    hide ScanAll, NoBlankLine;
    BlankLineAt(s);
    ScanHeadAt(s, BlankLine(s, 0));
  }

  /** Splitting left to right is the scan. */
  lemma {:induction false} SplitIsScan(s: string)
    ensures Split(s) == ScanAll(s).pieces + [ScanAll(s).open]
    decreases |s|
  {
    hide ScanAll, Resume;
    var i := BlankLine(s, 0);
    if i == |s| {
      forall j | 0 <= j < |s| - 1 ensures !(s[j] == '\n' && s[j + 1] == '\n') {
        assert !BlankAt(s, j);
      }
      ScanOpen(s);
      assert [] + [s] == [s];
    } else {
      var head, rest := s[..i], s[i + 2..];
      ScanHead(s);
      assert s == s[..i + 2] + rest;
      ScanResumes(s[..i + 2], rest);
      ResumePrefix(Scan([head], ""), rest);
      ScanFresh(rest);
      SplitIsScan(rest);
      assert [head] + (ScanAll(rest).pieces + [ScanAll(rest).open]) == ([head] + ScanAll(rest).pieces) + [ScanAll(rest).open];
    }
  }

  lemma {:induction false} ScanFresh(s: string)
    ensures Resume(Scan([], ""), s) == ScanAll(s)
  {
    if s != "" {
      ScanFresh(s[..|s| - 1]);
    }
  }

  // ----- cutting the stream does not matter -----

  predicate NoPair(s: string) {
    forall i :: 0 <= i < |s| - 1 ==> !(s[i] == '\r' && s[i + 1] == '\n')
  }

  predicate EndsWith(s: string, c: char) {
    s != "" && s[|s| - 1] == c
  }

  lemma {:induction false} NormLast(s: string)
    ensures s != "" ==> Norm(s) != "" && Norm(s)[|Norm(s)| - 1] == s[|s| - 1]
  {
  }

  /** Without a triple, normalising leaves no pair behind. */
  lemma {:induction false} NormLeavesNoPair(s: string)
    requires NoTriple(s)
    ensures NoPair(Norm(s))
  {
    if s != "" {
      if EndsWithPair(s) {
        var init := s[..|s| - 2];
        NormLeavesNoPair(init);
        NormLast(init);
        assert init != "" ==> init[|init| - 1] == s[|s| - 3];
      } else {
        NormLeavesNoPair(s[..|s| - 1]);
        NormLast(s[..|s| - 1]);
      }
    }
  }

  lemma {:induction false} NormKeeps(s: string)
    requires NoPair(s)
    ensures Norm(s) == s
  {
    if s != "" {
      NormKeeps(s[..|s| - 1]);
      assert s == s[..|s| - 1] + [s[|s| - 1]];
    }
  }

  predicate IsTail(o: string, s: string) {
    |o| <= |s| && o == s[|s| - |o|..]
  }

  lemma FeedTail(scan: Scan, s: string, c: char)
    requires IsTail(scan.open, s) && NoBlankLine(scan.open)
    ensures var o := Feed(scan, c).open; IsTail(o, s + [c]) && NoBlankLine(o) && (o == "" ==> c == '\n')
  {
    var o := scan.open;
    assert (s + [c])[|s| - |o|..] == s[|s| - |o|..] + [c];
    assert (s + [c])[|s| + 1..] == "";
  }

  lemma NothingOpen()
    ensures ScanAll("").open == "" && IsTail("", "") && NoBlankLine("")
  {
  }

  /** The open piece is the end of the text scanned, and holds no blank line. */
  lemma {:induction false} OpenIsTail(s: string)
    ensures var o := ScanAll(s).open; IsTail(o, s) && NoBlankLine(o) && (o == "" && s != "" ==> EndsWith(s, '\n'))
  {
    hide ScanAll, Feed, IsTail, NoBlankLine;
    if s == "" {
      NothingOpen();
    } else {
      var init, c := s[..|s| - 1], s[|s| - 1];
      OpenIsTail(init);
      assert s == init + [c];
      ScanSnoc(init, c);
      FeedTail(ScanAll(init), init, c);
    }
  }

  lemma NormSnoc(s: string, c: char)
    ensures Norm(s + [c]) == if c == '\n' && EndsWith(s, '\r') then Norm(s[..|s| - 1]) + "\n" else Norm(s) + [c]
    ensures EndsWith(s, '\r') ==> Norm(s) == Norm(s[..|s| - 1]) + "\r"
  {
    assert (s + [c])[..|s|] == s;
    if EndsWith(s, '\r') {
      assert (s + [c])[..|s| - 1] == s[..|s| - 1];
    }
  }

  lemma ScanSnoc(s: string, c: char)
    ensures ScanAll(s + [c]) == Feed(ScanAll(s), c)
  {
    assert (s + [c])[..|s|] == s;
  }

  /** A text and the piece held back from it end in a carriage return together. */
  lemma SameEnding(p: string, w: string)
    ensures EndsWith(p + w, '\r') <==> EndsWith(ScanAll(Norm(p)).open + w, '\r')
  {
    hide Norm, ScanAll, NoBlankLine;
    var n := Norm(p);
    var open := ScanAll(n).open;
    if w == "" {
      assert p + w == p && open + w == open;
      NormLast(p);
      OpenIsTail(n);
      EmptyNorm(p);
      assert open != "" ==> open[|open| - 1] == n[|n| - 1];
    } else {
      assert (p + w)[|p + w| - 1] == w[|w| - 1] == (open + w)[|open + w| - 1];
    }
  }

  lemma EmptyNorm(p: string)
    ensures Norm(p) == "" <==> p == ""
  {
    NormLast(p);
  }

  /** Two scans that agree on the open piece still agree after one more character of the raw text. */
  lemma FeedBoth(x: string, y: string, done: seq<string>, c: char)
    requires ScanAll(Norm(x)) == Scan(done + ScanAll(Norm(y)).pieces, ScanAll(Norm(y)).open)
    requires EndsWith(x, '\r') <==> EndsWith(y, '\r')
    ensures ScanAll(Norm(x + [c])) == Scan(done + ScanAll(Norm(y + [c])).pieces, ScanAll(Norm(y + [c])).open)
  {
    hide Norm, ScanAll;
    NormSnoc(x, c);
    NormSnoc(y, c);
    if c == '\n' && EndsWith(x, '\r') {
      var x', y' := Norm(x[..|x| - 1]), Norm(y[..|y| - 1]);
      ScanSnoc(x', '\r');
      ScanSnoc(y', '\r');
      ScanSnoc(x', '\n');
      ScanSnoc(y', '\n');
      var a, b := ScanAll(x'), ScanAll(y');
      assert a.open == (a.open + "\r")[..|a.open|] == (b.open + "\r")[..|b.open|] == b.open;
      FeedPrefix(done, b, '\n');
    } else {
      ScanSnoc(Norm(x), c);
      ScanSnoc(Norm(y), c);
      FeedPrefix(done, ScanAll(Norm(y)), c);
    }
  }

  lemma FeedPrefix(done: seq<string>, s: Scan, c: char)
    ensures Feed(Scan(done + s.pieces, s.open), c) == Scan(done + Feed(s, c).pieces, Feed(s, c).open)
  {
    assert forall t: string :: (done + s.pieces) + [t] == done + (s.pieces + [t]);
  }

  lemma TailHasNoPair(o: string, s: string)
    requires IsTail(o, s) && NoPair(s)
    ensures NoPair(o)
  {
    assert forall i :: 0 <= i < |o| ==> o[i] == s[|s| - |o| + i];
  }

  /** Scanning the held-back piece again finds nothing new in it. */
  lemma HeldBackIsOpen(p: string)
    requires NoTriple(p)
    ensures var open := ScanAll(Norm(p)).open; ScanAll(Norm(open)) == Scan([], open)
  {
    hide Norm, ScanAll, NoPair, NoTriple, NoBlankLine, IsTail;
    var open := ScanAll(Norm(p)).open;
    OpenIsTail(Norm(p));
    NormLeavesNoPair(p);
    TailHasNoPair(open, Norm(p));
    NormKeeps(open);
    ScanOpen(open);
  }

  lemma NoTripleBefore(s: string, t: string)
    requires NoTriple(s + t)
    ensures NoTriple(s)
  {
    assert forall i :: 0 <= i < |s| ==> (s + t)[i] == s[i];
  }

  /** What one read does: scanning the held-back piece with the new text continues the scan of the whole. */
  lemma {:induction false} ReadContinues(p: string, v: string)
    requires NoTriple(p + v)
    ensures var before := ScanAll(Norm(p));
            var part := ScanAll(Norm(before.open + v));
            ScanAll(Norm(p + v)) == Scan(before.pieces + part.pieces, part.open)
  {
    hide Norm, ScanAll, NoTriple, EndsWith;
    var before := ScanAll(Norm(p));
    if v == "" {
      assert p + v == p && before.open + v == before.open;
      HeldBackIsOpen(p);
      assert before.pieces + [] == before.pieces;
    } else {
      var w, c := v[..|v| - 1], v[|v| - 1];
      assert v == w + [c];
      assert p + v == (p + w) + [c] && before.open + v == (before.open + w) + [c];
      NoTripleBefore(p + w, [c]);
      ReadContinues(p, w);
      SameEnding(p, w);
      FeedBoth(p + w, before.open + w, before.pieces, c);
    }
  }

  lemma {:induction false} PiecesFrom(p: string, parts: seq<string>, last: string)
    requires NoTriple(p + (Concat(parts) + last))
    ensures ScanAll(Norm(p)).pieces + Pieces(ScanAll(Norm(p)).open, parts, last) == Split(Norm(p + (Concat(parts) + last)))
    decreases |parts|
  {
    hide Norm, ScanAll, Split, NoTriple;
    var before := ScanAll(Norm(p));
    var v := if parts == [] then last else parts[0];
    var after := if parts == [] then "" else Concat(parts[1..]) + last;
    var part := ScanAll(Norm(before.open + v));
    assert p + (Concat(parts) + last) == (p + v) + after;
    NoTripleBefore(p + v, after);
    ReadContinues(p, v);
    SplitIsScan(Norm(before.open + v));
    var chunks := part.pieces + [part.open];
    if parts == [] {
      assert (p + v) + "" == p + v;
      SplitIsScan(Norm(p + v));
      assert before.pieces + (part.pieces + [part.open]) == (before.pieces + part.pieces) + [part.open];
    } else {
      PiecesFrom(p + v, parts[1..], last);
      assert chunks[..|chunks| - 1] == part.pieces;
      assert before.pieces + (part.pieces + Pieces(part.open, parts[1..], last))
          == (before.pieces + part.pieces) + Pieces(part.open, parts[1..], last);
    }
  }

  /** However the stream is cut into reads, the delivered pieces are those of normalising and splitting the
      whole stream at once, if it has no carriage return directly before a pair. */
  lemma CutsDoNotMatter(parts: seq<string>, last: string)
    requires NoTriple(Concat(parts) + last)
    ensures Pieces("", parts, last) == Split(Norm(Concat(parts) + last))
  {
    hide NoTriple, Split, Pieces;
    assert "" + (Concat(parts) + last) == Concat(parts) + last;
    PiecesFrom("", parts, last);
    assert [] + Pieces("", parts, last) == Pieces("", parts, last);
  }

  // ----- and it does matter for every other stream -----

  function Join(pieces: seq<string>): string {
    if pieces == [] then ""
    else if |pieces| == 1 then pieces[0]
    else pieces[0] + "\n\n" + Join(pieces[1..])
  }

  lemma JoinMore(head: string, rest: seq<string>)
    requires rest != []
    ensures Join([head] + rest) == head + "\n\n" + Join(rest)
  {
    assert ([head] + rest)[1..] == rest;
  }

  lemma CutAtBlankLine(s: string, i: nat)
    requires BlankAt(s, i)
    ensures s == s[..i] + "\n\n" + s[i + 2..]
  {
  }

  /** Joining with blank lines undoes the splitting. */
  lemma {:induction false} JoinSplit(s: string)
    ensures Join(Split(s)) == s
    decreases |s|
  {
    hide Join;
    var i := BlankLine(s, 0);
    if i < |s| {
      JoinSplit(s[i + 2..]);
      JoinMore(s[..i], Split(s[i + 2..]));
      CutAtBlankLine(s, i);
    } else {
      JoinOne(s);
    }
  }

  lemma JoinOne(s: string)
    ensures Join([s]) == s
  {
  }

  /** Normalising may be done in two parts when no pair is cut. */
  lemma {:induction false} NormInParts(a: string, b: string)
    requires !EndsWith(a, '\r')
    ensures Norm(a + b) == Norm(a) + Norm(b)
  {
    hide Norm, EndsWith;
    if b == "" {
      assert a + b == a;
      NormOfEmpty();
      assert Norm(a) + "" == Norm(a);
    } else {
      var init, c := b[..|b| - 1], b[|b| - 1];
      InitAndLast(a, b);
      NormInParts(a, init);
      NormSnoc(a + init, c);
      NormSnoc(init, c);
      EndsTogether(a, init);
      if c == '\n' && EndsWith(init, '\r') {
        NormInParts(a, init[..|init| - 1]);
        Regroup(Norm(a), Norm(init[..|init| - 1]), "\n");
      } else {
        Regroup(Norm(a), Norm(init), [c]);
      }
    }
  }

  lemma NormOfEmpty()
    ensures Norm("") == ""
  {
  }

  lemma EndsTogether(a: string, b: string)
    requires !EndsWith(a, '\r')
    ensures EndsWith(a + b, '\r') <==> EndsWith(b, '\r')
    ensures b != "" ==> (a + b)[..|a + b| - 1] == a + b[..|b| - 1]
    ensures EndsWith(b, '\r') ==> b != ""
  {
    assert b == "" ==> a + b == a;
    assert b != "" ==> (a + b)[|a + b| - 1] == b[|b| - 1];
  }

  lemma {:induction false} NormNotLonger(s: string)
    ensures |Norm(s)| <= |s|
  {
    if s != "" {
      NormNotLonger(s[..|s| - 1]);
      if EndsWithPair(s) {
        NormNotLonger(s[..|s| - 2]);
      }
    }
  }

  /** After a triple the held-back piece still ends in a pair. */
  lemma TripleHeldBack(a: string)
    ensures var x := a + "\r\r\n";
            Norm(x) == Norm(a) + "\r\n" && EndsWithPair(ScanAll(Norm(x)).open)
  {
    var y := a + "\r";
    assert a + "\r\r\n" == (y + "\r") + ['\n'];
    NormSnoc(y + "\r", '\n');
    assert (y + "\r")[..|y|] == y;
    NormSnoc(a, '\r');
    assert Norm(a + "\r\r\n") == (Norm(a) + ['\r']) + ['\n'] == Norm(a) + "\r\n";
    ScanSnoc(Norm(a), '\r');
    ScanSnoc(Norm(a) + ['\r'], '\n');
  }

  lemma SplitAfter(n: string, b: string)
    ensures var scan := ScanAll(n);
            Split(n + b) == scan.pieces + Split(scan.open + b)
  {
    hide ScanAll, Resume, Split;
    var scan := ScanAll(n);
    SplitIsScan(n + b);
    SplitIsScan(scan.open + b);
    ScanResumes(n, b);
    ScanResumes(scan.open, b);
    OpenIsTail(n);
    ScanOpen(scan.open);
    ResumePrefix(scan, b);
    var r := Resume(Scan([], scan.open), b);
    assert scan.pieces + (r.pieces + [r.open]) == (scan.pieces + r.pieces) + [r.open];
  }

  lemma PairHeldBack(open: string)
    requires EndsWithPair(open)
    ensures |Norm(open)| < |open| && !EndsWith(open, '\r')
  {
    var init := open[..|open| - 1];
    NormSnoc(init, '\n');
    assert open == init + ['\n'] && init[..|init| - 1] == open[..|open| - 2];
    NormNotLonger(open[..|open| - 2]);
  }

  /** Normalising and splitting the last piece again makes nothing longer. */
  lemma {:induction false} JoinShrinks(pieces: seq<string>, open: string)
    ensures |Join(pieces + Split(Norm(open)))| <= |Join(pieces + [open])|
  {
    hide Join, Split, Norm;
    if pieces == [] {
      assert [] + Split(Norm(open)) == Split(Norm(open)) && [] + [open] == [open];
      JoinSplit(Norm(open));
      JoinOne(open);
      NormNotLonger(open);
    } else {
      var a, b := pieces[1..] + Split(Norm(open)), pieces[1..] + [open];
      JoinShrinks(pieces[1..], open);
      JoinMore(pieces[0], a);
      JoinMore(pieces[0], b);
      assert pieces + Split(Norm(open)) == [pieces[0]] + a && pieces + [open] == [pieces[0]] + b;
    }
  }

  /** The pieces of a stream that is cut once. */
  lemma ReadTwice(x: string, b: string)
    ensures var first := Split(Norm(x)); var k := |first| - 1;
            var second := Split(Norm(first[k] + b)); var n := |second| - 1;
            Pieces("", [x, b], "") == first[..k] + (second[..n] + Split(Norm(second[n])))
  {
    hide Norm, Split;
    var first := Split(Norm(x));
    var second := Split(Norm(first[|first| - 1] + b));
    var o := second[|second| - 1];
    assert "" + x == x && [x, b][1..] == [b] && [b][1..] == [] && o + "" == o;
    assert Pieces(o, [], "") == Split(Norm(o));
    assert Pieces(first[|first| - 1], [b], "") == second[..|second| - 1] + Split(Norm(o));
  }

  /** A read that ends right after a triple changes the pieces delivered. */
  lemma CutAfterTriple(a: string, b: string)
    ensures var x := a + "\r\r\n";
            Pieces("", [x, b], "") != Split(Norm(x + b))
  {
    hide Norm, ScanAll, Split, Join, Pieces, EndsWith, EndsWithPair;
    var x := a + "\r\r\n";
    TripleHeldBack(a);
    assert !EndsWith(x, '\r') by { TripleEnds(a); }
    var scan := ScanAll(Norm(x));
    var open := scan.open;
    SplitIsScan(Norm(x));
    PairHeldBack(open);
    NormInParts(open, b);
    NormInParts(x, b);
    ReadTwice(x, b);
    var second := Split(Norm(open) + Norm(b));
    var n := |second| - 1;
    var rest := second[..n] + Split(Norm(second[n]));
    assert Split(Norm(x)) == scan.pieces + [open] && (scan.pieces + [open])[..|scan.pieces|] == scan.pieces;
    assert Pieces("", [x, b], "") == scan.pieces + rest;
    SplitAfter(Norm(x), Norm(b));
    JoinShrinks(second[..n], second[n]);
    assert second[..n] + [second[n]] == second;
    JoinSplit(Norm(open) + Norm(b));
    JoinSplit(open + Norm(b));
    if Pieces("", [x, b], "") == Split(Norm(x + b)) {
      SamePrefix(scan.pieces, rest, Split(open + Norm(b)));
    }
  }

  lemma TripleEnds(a: string)
    ensures !EndsWith(a + "\r\r\n", '\r')
  {
  }

  lemma SamePrefix(p: seq<string>, a: seq<string>, b: seq<string>)
    requires p + a == p + b
    ensures a == b
  {
    assert a == (p + a)[|p|..] && b == (p + b)[|p|..];
  }

  /** Under every cut the delivered pieces are those of one pass over the whole stream, exactly for the
      streams without such a triple. */
  lemma PiecesOfOnePassIff(stream: string)
    ensures NoTriple(stream) <==>
            forall parts: seq<string> :: Concat(parts) == stream ==> Pieces("", parts, "") == Split(Norm(stream))
  {
    hide Split, Norm, Pieces;
    if NoTriple(stream) {
      forall parts: seq<string> | Concat(parts) == stream ensures Pieces("", parts, "") == Split(Norm(stream)) {
        assert stream + "" == stream;
        CutsDoNotMatter(parts, "");
      }
    } else {
      var i :| 0 <= i < |stream| - 2 && stream[i] == '\r' && stream[i + 1] == '\r' && stream[i + 2] == '\n';
      var a, b := stream[..i], stream[i + 3..];
      var x := a + "\r\r\n";
      CutAfterTriple(a, b);
      assert x + b == stream;
      ConcatTwo(x, b);
    }
  }

  lemma ConcatTwo(x: string, b: string)
    ensures Concat([x, b]) == x + b
  {
    assert [x, b][1..] == [b] && [b][1..] == [] && b + "" == b;
    assert Concat([]) == "" && Concat([b]) == b;
  }

  lemma {:induction false} PiecesThemselves(pieces: seq<string>, parse: string -> seq<string>)
    requires forall p :: parse(p) == [p]
    ensures FlatMap(pieces, parse) == pieces
  {
    if pieces != [] {
      PiecesThemselves(pieces[1..], parse);
    }
  }

  /** The events delivered under this cut are those of one pass over the whole stream. */
  ghost predicate AsInOnePass(stream: string, parse: string -> seq<string>, parts: seq<string>) {
    Concat(parts) == stream ==> FlatMap(Pieces("", parts, ""), parse) == FlatMap(Split(Norm(stream)), parse)
  }

  /** For the events a caller sees: whatever parser turns pieces into events, under every cut the delivered
      events are those of one pass over the whole stream, exactly for the streams without such a triple. */
  lemma EventsOfOnePassIff(stream: string)
    ensures NoTriple(stream) <==>
            forall parse: string -> seq<string>, parts: seq<string> :: AsInOnePass(stream, parse, parts)
  {
    hide Split, Norm, Pieces, FlatMap, NoTriple;
    PiecesOfOnePassIff(stream);
    if NoTriple(stream) {
      forall parse: string -> seq<string>, parts: seq<string> ensures AsInOnePass(stream, parse, parts) {
        assert Concat(parts) == stream ==> Pieces("", parts, "") == Split(Norm(stream));
      }
    } else {
      var parts: seq<string> :| Concat(parts) == stream && Pieces("", parts, "") != Split(Norm(stream));
      var parse := OnePiece();
      PiecesThemselves(Pieces("", parts, ""), parse);
      PiecesThemselves(Split(Norm(stream)), parse);
      assert !AsInOnePass(stream, parse, parts);
    }
  }

  function OnePiece(): (parse: string -> seq<string>)
    ensures forall p :: parse(p) == [p]
  {
    p => [p]
  }
}
