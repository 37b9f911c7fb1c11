/** Parsing one server-sent event, and the way from messages over the wire to events. */
module EventMessages {
  import opened Options
  import opened EventStream

  // ----- lines and trimming -----

  /** Splitting at line feeds. */
  function Lines(s: string): (r: seq<string>)
    ensures r != []
    ensures forall k :: 0 <= k < |r| ==> '\n' !in r[k]
  {
    if s == "" then [""]
    else
      var rest := Lines(s[1..]);
      if s[0] == '\n' then [""] + rest else [[s[0]] + rest[0]] + rest[1..]
  }

  function JoinLines(lines: seq<string>): string {
    if lines == [] then ""
    else if |lines| == 1 then lines[0]
    else lines[0] + "\n" + JoinLines(lines[1..])
  }

  /** Joining with line feeds undoes the splitting. */
  lemma {:induction false} JoinOfLines(s: string)
    ensures JoinLines(Lines(s)) == s
  {
    if s != "" {
      var rest := Lines(s[1..]);
      JoinOfLines(s[1..]);
      assert s == [s[0]] + s[1..];
      if s[0] == '\n' {
        assert ([""] + rest)[1..] == rest;
      } else {
        var head := [s[0]] + rest[0];
        assert ([head] + rest[1..])[1..] == rest[1..];
        assert head + "\n" + JoinLines(rest[1..]) == [s[0]] + (rest[0] + "\n" + JoinLines(rest[1..]));
      }
    }
  }

  lemma {:induction false} FirstLine(a: string, b: string)
    requires '\n' !in a
    ensures Lines(a + "\n" + b) == [a] + Lines(b)
    ensures Lines(a) == [a]
  {
    var s := a + "\n" + b;
    if a == "" {
      assert s[1..] == b;
    } else {
      assert s[1..] == a[1..] + "\n" + b;
      FirstLine(a[1..], b);
      assert [a[0]] + a[1..] == a;
      assert ([a[1..]] + Lines(b))[1..] == Lines(b);
    }
  }

  function TrimStart(s: string, blank: char -> bool): (r: string)
    ensures |r| <= |s| && r == s[|s| - |r|..]
    ensures forall k :: 0 <= k < |s| - |r| ==> blank(s[k])
    ensures r != "" ==> !blank(r[0])
  {
    if s == "" || !blank(s[0]) then s else TrimStart(s[1..], blank)
  }

  function TrimEnd(s: string, blank: char -> bool): (r: string)
    ensures |r| <= |s| && r == s[..|r|]
    ensures forall k :: |r| <= k < |s| ==> blank(s[k])
    ensures r != "" ==> !blank(r[|r| - 1])
  {
    if s == "" || !blank(s[|s| - 1]) then s else TrimEnd(s[..|s| - 1], blank)
  }

  predicate StartsWith(s: string, prefix: string) {
    |prefix| <= |s| && s[..|prefix|] == prefix
  }

  // ----- parsing one piece -----

  function NameAfter(name: string, line: string, blank: char -> bool): string {
    if StartsWith(line, "event:") then TrimEnd(TrimStart(line[6..], blank), blank) else name
  }

  function DataAfter(data: seq<string>, line: string, blank: char -> bool): seq<string> {
    if StartsWith(line, "data:") then data + [TrimStart(line[5..], blank)] else data
  }

  /** The name given by the last event line, or "message". */
  function EventName(lines: seq<string>, blank: char -> bool): string {
    if lines == [] then "message" else NameAfter(EventName(lines[..|lines| - 1], blank), lines[|lines| - 1], blank)
  }

  /** The contents of the data lines, in order. */
  function DataLines(lines: seq<string>, blank: char -> bool): seq<string> {
    if lines == [] then [] else DataAfter(DataLines(lines[..|lines| - 1], blank), lines[|lines| - 1], blank)
  }

  lemma NothingRead(blank: char -> bool)
    ensures EventName([], blank) == "message" && DataLines([], blank) == []
  {
  }

  lemma LineRead(lines: seq<string>, line: string, blank: char -> bool)
    ensures EventName(lines + [line], blank) == NameAfter(EventName(lines, blank), line, blank)
    ensures DataLines(lines + [line], blank) == DataAfter(DataLines(lines, blank), line, blank)
  {
    hide NameAfter, DataAfter;
    assert (lines + [line])[..|lines|] == lines;
  }

  /** `decode` stands for decoding the JSON text and checking it against the events the client knows. */
  function Parse<E>(chunk: string, blank: char -> bool, decode: (string, string) -> Result<seq<E>>): seq<E> {
    var lines := Lines(chunk);
    var data := DataLines(lines, blank);
    if data == [] then []
    else Outcome(decode(EventName(lines, blank), JoinLines(data)))
  }

  /** Data that does not decode gives no event. */
  function Outcome<E>(r: Result<seq<E>>): seq<E> {
    match r case Ok(events) => events case Raised => []
  }

  method ParseSseChunk<E>(chunk: string, blank: char -> bool, decode: (string, string) -> Result<seq<E>>)
    returns (events: seq<E>)
    ensures events == Parse(chunk, blank, decode)
  {
    hide Lines, EventName, DataLines, TrimStart, TrimEnd, JoinLines;
    NothingRead(blank);
    var lines := Lines(chunk);
    assert lines[..0] == [];
    var eventName := "message";
    var dataLines := [];
    for k := 0 to |lines|
      invariant eventName == EventName(lines[..k], blank)
      invariant dataLines == DataLines(lines[..k], blank)
    {
      LineRead(lines[..k], lines[k], blank);
      assert lines[..k] + [lines[k]] == lines[..k + 1];
      if StartsWith(lines[k], "event:") {
        eventName := TrimEnd(TrimStart(lines[k][6..], blank), blank);
      }
      if StartsWith(lines[k], "data:") {
        dataLines := dataLines + [TrimStart(lines[k][5..], blank)];
      }
    }
    assert lines[..|lines|] == lines;
    if dataLines == [] {
      return [];
    }
    match decode(eventName, JoinLines(dataLines))
    case Ok(decoded) => events := decoded;
    case Raised => events := [];
  }

  // ----- over the wire -----

  datatype Message = Message(name: string, payload: string)

  predicate OneLine(s: string) {
    '\r' !in s && '\n' !in s
  }

  /** A name without blanks around it and a payload without blanks before it, each on one line. */
  predicate Plain(m: Message, blank: char -> bool) {
    && OneLine(m.name) && OneLine(m.payload)
    && (m.name != "" ==> !blank(m.name[0]) && !blank(m.name[|m.name| - 1]))
    && (m.payload != "" ==> !blank(m.payload[0]))
  }

  function Body(m: Message, eol: string): string {
    ("event: " + m.name) + eol + ("data: " + m.payload)
  }

  /** Each message is an event line, a data line and an empty line. */
  function Wire(messages: seq<Message>, eol: string): string {
    if messages == [] then "" else Body(messages[0], eol) + (eol + (eol + Wire(messages[1..], eol)))
  }

  function Decoded<E>(messages: seq<Message>, decode: (string, string) -> Result<seq<E>>): seq<E> {
    if messages == [] then []
    else
      Outcome(decode(messages[0].name, messages[0].payload)) + Decoded(messages[1..], decode)
  }

  // ----- the wire has no triple, and normalising it changes the line ends only -----

  lemma {:induction false} NormOneLine(s: string)
    requires '\r' !in s
    ensures Norm(s) == s
  {
    NormKeeps(s);
  }

  /** A text without carriage returns, a line end, and a text that does not begin with a line feed. */
  lemma LineThen(line: string, eol: string, rest: string)
    requires '\r' !in line && eol in {"\n", "\r\n"} && NoTriple(rest)
    ensures NoTriple(line + (eol + rest))
    ensures Norm(line + (eol + rest)) == line + ("\n" + Norm(rest))
  {
    hide Norm;
    assert Norm(eol) == "\n" by { NormEol(eol); }
    NormOneLine(line);
    NormInParts(line, eol + rest);
    NormInParts(eol, rest);
    var s := line + (eol + rest);
    forall i | 0 <= i < |s| - 2 ensures !(s[i] == '\r' && s[i + 1] == '\r' && s[i + 2] == '\n') {
      if i >= |line| + |eol| {
        var j := i - |line| - |eol|;
        assert s[i] == rest[j] && s[i + 1] == rest[j + 1] && s[i + 2] == rest[j + 2];
      } else if i < |line| {
        assert s[i] == line[i];
      } else {
        assert s[i] == eol[i - |line|];
        if i + 1 < |line| + |eol| {
          assert s[i + 1] == eol[i + 1 - |line|];
        }
      }
    }
  }

  lemma NormEol(eol: string)
    requires eol in {"\n", "\r\n"}
    ensures Norm(eol) == "\n"
  {
    hide Norm;
    NormOfEmpty();
    if eol == "\n" {
      NormSnoc("", '\n');
      assert "" + ['\n'] == "\n";
    } else {
      PairNorm();
    }
  }

  lemma PairNorm()
    ensures Norm("\r\n") == "\n"
  {
    hide Norm;
    NormOfEmpty();
    NormSnoc("\r", '\n');
    assert "\r" + ['\n'] == "\r\n" && "\r"[..0] == "" && "" + "\n" == "\n";
  }

  lemma NotInEither(c: char, a: string, b: string)
    requires c !in a && c !in b
    ensures c !in a + b
  {
  }

  lemma FieldsAreOneLine(m: Message)
    requires OneLine(m.name) && OneLine(m.payload)
    ensures OneLine("event: " + m.name) && OneLine("data: " + m.payload)
  {
    NotInEither('\r', "event: ", m.name);
    NotInEither('\n', "event: ", m.name);
    NotInEither('\r', "data: ", m.payload);
    NotInEither('\n', "data: ", m.payload);
  }

  lemma FrameNorm(a: string, b: string, eol: string, rest: string)
    requires OneLine(a) && OneLine(b) && eol in {"\n", "\r\n"} && NoTriple(rest)
    ensures NoTriple(a + eol + b + (eol + (eol + rest)))
    ensures Norm(a + eol + b + (eol + (eol + rest))) == a + "\n" + b + ("\n" + ("\n" + Norm(rest)))
  {
    hide Norm, NoTriple;
    assert "" + (eol + rest) == eol + rest && "" + ("\n" + Norm(rest)) == "\n" + Norm(rest);
    LineThen("", eol, rest);
    LineThen(b, eol, eol + rest);
    LineThen(a, eol, b + (eol + (eol + rest)));
    assert a + eol + b + (eol + (eol + rest)) == a + (eol + (b + (eol + (eol + rest))));
    assert a + "\n" + b + ("\n" + ("\n" + Norm(rest))) == a + ("\n" + (b + ("\n" + ("\n" + Norm(rest)))));
  }

  lemma {:induction false} WireNorm(messages: seq<Message>, eol: string, blank: char -> bool)
    requires eol in {"\n", "\r\n"}
    requires forall m :: m in messages ==> Plain(m, blank)
    ensures NoTriple(Wire(messages, eol))
    ensures Norm(Wire(messages, eol)) == Wire(messages, "\n")
  {
    hide Norm, NoTriple, OneLine;
    if messages == [] {
      NormEmpty();
    } else {
      var m := messages[0];
      assert m in messages;
      WireNorm(messages[1..], eol, blank);
      FieldsAreOneLine(m);
      FrameNorm("event: " + m.name, "data: " + m.payload, eol, Wire(messages[1..], eol));
    }
  }

  lemma NormEmpty()
    ensures Norm("") == "" && NoTriple("")
  {
  }

  // ----- pieces of the wire -----

  lemma FirstBlankLine(head: string, s: string)
    requires NoBlankLine(head) && !EndsWith(head, '\n')
    requires |head| + 2 <= |s| && s[..|head|] == head && s[|head|..|head| + 2] == "\n\n"
    ensures BlankLine(s, 0) == |head|
  {
    var i := BlankLine(s, 0);
    assert s[|head|] == s[|head|..|head| + 2][0] && s[|head| + 1] == s[|head|..|head| + 2][1];
    assert BlankAt(s, |head|);
    assert forall j :: 0 <= j < |head| ==> s[j] == head[j];
  }

  lemma Slices(head: string, rest: string)
    ensures var s := head + ("\n" + ("\n" + rest));
            s[..|head|] == head && s[|head| + 2..] == rest && s[|head|..|head| + 2] == "\n\n"
  {
  }

  lemma SplitAt(s: string, head: string, rest: string)
    requires var i := BlankLine(s, 0); i < |s| && head == s[..i] && rest == s[i + 2..]
    ensures Split(s) == [head] + Split(rest)
  {
  }

  lemma SplitFirst(head: string, rest: string)
    requires NoBlankLine(head) && !EndsWith(head, '\n')
    ensures Split(head + ("\n" + ("\n" + rest))) == [head] + Split(rest)
  {
    hide Split, NoBlankLine, EndsWith;
    var s := head + ("\n" + ("\n" + rest));
    Slices(head, rest);
    FirstBlankLine(head, s);
    SplitAt(s, head, rest);
  }

  lemma TwoLines(a: string, b: string)
    requires OneLine(a) && OneLine(b) && b != ""
    ensures NoBlankLine(a + "\n" + b) && !EndsWith(a + "\n" + b, '\n')
  {
    var s := a + "\n" + b;
    forall j | 0 <= j < |s| - 1 ensures !(s[j] == '\n' && s[j + 1] == '\n') {
      if j < |a| {
        assert s[j] == a[j];
      } else {
        assert s[j + 1] == b[j - |a|];
      }
    }
    assert s[|s| - 1] == b[|b| - 1];
  }

  lemma OtherPrefix(s: string, p: string, q: string)
    requires StartsWith(s, p) && p != "" && q != "" && p[0] != q[0]
    ensures !StartsWith(s, q)
  {
    assert s[0] == s[..|p|][0];
    assert |q| <= |s| ==> s[0] == s[..|q|][0];
  }

  lemma FieldLines(a: string, b: string, name: string, payload: string, blank: char -> bool)
    requires StartsWith(a, "event:") && a[6..] == " " + name
    requires StartsWith(b, "data:") && b[5..] == " " + payload
    requires !StartsWith(a, "data:") && !StartsWith(b, "event:")
    requires TrimStart(" " + name, blank) == name == TrimEnd(name, blank) && TrimStart(" " + payload, blank) == payload
    ensures EventName([a, b], blank) == name && DataLines([a, b], blank) == [payload]
  {
    hide EventName, StartsWith, TrimStart, TrimEnd;
    assert [] + [a] == [a] && [a] + [b] == [a, b];
    LineRead([], a, blank);
    LineRead([a], b, blank);
  }

  lemma FieldPrefixes(name: string, payload: string)
    ensures var a, b := "event: " + name, "data: " + payload;
            && StartsWith(a, "event:") && a[6..] == " " + name
            && StartsWith(b, "data:") && b[5..] == " " + payload
            && !StartsWith(a, "data:") && !StartsWith(b, "event:")
  {
    var a, b := "event: " + name, "data: " + payload;
    assert a[..6] == "event:" && a[6..] == " " + name;
    assert b[..5] == "data:" && b[5..] == " " + payload;
    OtherPrefix(a, "event:", "data:");
    OtherPrefix(b, "data:", "event:");
  }

  lemma PlainIsTrimmed(m: Message, blank: char -> bool)
    requires Plain(m, blank) && blank(' ')
    ensures TrimStart(" " + m.name, blank) == m.name == TrimEnd(m.name, blank)
    ensures TrimStart(" " + m.payload, blank) == m.payload
  {
    TrimSpace(m.name, blank);
    TrimSpace(m.payload, blank);
  }

  /** Two lines that name the event and carry its data. */
  lemma ParseTwoLines<E>(chunk: string, a: string, b: string, m: Message, blank: char -> bool, decode: (string, string) -> Result<seq<E>>)
    requires Lines(chunk) == [a, b]
    requires EventName([a, b], blank) == m.name && DataLines([a, b], blank) == [m.payload]
    ensures Parse(chunk, blank, decode) == Outcome(decode(m.name, m.payload))
  {
    hide Lines, EventName, DataLines;
  }

  /** The parser undoes the layout of one message. */
  lemma BodyParses<E>(m: Message, blank: char -> bool, decode: (string, string) -> Result<seq<E>>)
    requires Plain(m, blank) && blank(' ')
    ensures Parse(Body(m, "\n"), blank, decode) == Outcome(decode(m.name, m.payload))
  {
    hide OneLine, EventName, DataLines, Lines, StartsWith, TrimStart, TrimEnd, Parse;
    var a, b := "event: " + m.name, "data: " + m.payload;
    FieldsAreOneLine(m);
    TwoLinesParsed(a, b);
    FieldPrefixes(m.name, m.payload);
    PlainIsTrimmed(m, blank);
    FieldLines(a, b, m.name, m.payload, blank);
    ParseTwoLines(Body(m, "\n"), a, b, m, blank, decode);
  }

  lemma TwoLinesParsed(a: string, b: string)
    requires OneLine(a) && OneLine(b)
    ensures Lines(a + "\n" + b) == [a, b]
  {
    FirstLine(a, b);
    FirstLine(b, "");
    assert [a] + [b] == [a, b];
  }

  lemma TrimSpace(s: string, blank: char -> bool)
    requires blank(' ') && (s != "" ==> !blank(s[0]))
    ensures TrimStart(" " + s, blank) == s
  {
    assert (" " + s)[1..] == s;
  }

  lemma {:induction false} WirePieces<E>(messages: seq<Message>, blank: char -> bool,
                                         decode: (string, string) -> Result<seq<E>>, parse: string -> seq<E>)
    requires blank(' ') && forall m :: m in messages ==> Plain(m, blank)
    requires forall chunk :: parse(chunk) == Parse(chunk, blank, decode)
    ensures FlatMap(Split(Wire(messages, "\n")), parse) == Decoded(messages, decode)
  {
    hide Split, Parse, NoBlankLine, OneLine;
    if messages == [] {
      NothingToParse(blank, decode);
      assert [""][1..] == [];
    } else {
      var m := messages[0];
      var head, rest := Body(m, "\n"), Wire(messages[1..], "\n");
      assert m in messages;
      FieldsAreOneLine(m);
      TwoLines("event: " + m.name, "data: " + m.payload);
      SplitFirst(head, rest);
      BodyParses(m, blank, decode);
      WirePieces(messages[1..], blank, decode, parse);
      assert ([head] + Split(rest))[1..] == Split(rest);
    }
  }

  lemma NothingToParse<E>(blank: char -> bool, decode: (string, string) -> Result<seq<E>>)
    ensures Split("") == [""] && Parse("", blank, decode) == []
  {
    assert Lines("")[..0] == [];
  }

  /** Whatever the line ends and however the stream is cut into reads, the reader delivers exactly the
      events of the messages sent, in order. */
  lemma MessagesArrive<E>(messages: seq<Message>, eol: string, parts: seq<string>, last: string,
                          blank: char -> bool, decode: (string, string) -> Result<seq<E>>, parse: string -> seq<E>)
    requires eol in {"\n", "\r\n"}
    requires blank(' ') && forall m :: m in messages ==> Plain(m, blank)
    requires forall chunk :: parse(chunk) == Parse(chunk, blank, decode)
    requires Concat(parts) + last == Wire(messages, eol)
    ensures FlatMap(Pieces("", parts, last), parse) == Decoded(messages, decode)
  {
    hide Split, Parse, Norm, NoTriple, Pieces, FlatMap;
    WireNorm(messages, eol, blank);
    CutsDoNotMatter(parts, last);
    WirePieces(messages, blank, decode, parse);
  }

  // ----- a stream whose events depend on the cut -----

  lemma WithoutReturns(m: Message)
    requires OneLine(m.name) && OneLine(m.payload)
    ensures '\r' !in Body(m, "\n") && '\r' !in Body(m, "\n") + "\n"
  {
    hide OneLine;
    FieldsAreOneLine(m);
    NoReturns("event: " + m.name, "data: " + m.payload);
  }

  lemma NoReturns(a: string, b: string)
    requires OneLine(a) && OneLine(b)
    ensures '\r' !in a + "\n" + b && '\r' !in a + "\n" + b + "\n"
  {
  }

  /** Two messages with a line end, a carriage return and a pair between them: the first part, up to the pair,
      and the second, which ends as every message does. */
  function WithTriple(first: Message, second: Message): (string, string) {
    (Body(first, "\n") + "\n" + "\r\r\n", Body(second, "\n") + ("\n" + ("\n" + "")))
  }

  /** The piece that the two make when they are read together: a carriage return alone on a line between. */
  function Joined(first: Message, second: Message): string {
    Body(first, "\n") + "\n" + ("\r" + "\n" + Body(second, "\n"))
  }

  lemma TailWithoutReturns(b: string)
    requires '\r' !in b
    ensures '\r' !in b + ("\n" + ("\n" + ""))
  {
  }

  lemma NothingLeft()
    ensures Split(Norm("")) == [""]
  {
    NormEmpty();
    SplitBlock("");
  }

  /** Read at once. */
  lemma ReadAtOnce(first: Message, second: Message)
    requires OneLine(first.name) && OneLine(first.payload) && OneLine(second.name) && OneLine(second.payload)
    ensures var (x, b) := WithTriple(first, second); Pieces("", [x + b], "") == [Joined(first, second), ""]
  {
    hide Norm, Split, Body, OneLine, NoBlankLine, EndsWith;
    var (x, b) := WithTriple(first, second);
    var a, body, piece := Body(first, "\n") + "\n", Body(second, "\n"), Joined(first, second);
    WithoutReturns(first);
    WithoutReturns(second);
    TailWithoutReturns(body);
    TripleHeldBack(a);
    TripleEnds(a);
    NormOneLine(a);
    NormOneLine(b);
    NormInParts(x, b);
    assert Norm(x + b) == piece + ("\n" + ("\n" + ""));
    BodyOneBlock(first);
    BodyOneBlock(second);
    Blocks(Body(first, "\n"), body);
    SplitFirst(piece, "");
    SplitBlock("") by { EmptyBlock(); }
    NothingLeft();
    assert [piece] + [""] == [piece, ""];
    ReadOnce(x + b, piece);
  }

  lemma EmptyBlock()
    ensures NoBlankLine("")
  {
  }

  lemma ReadOnce(s: string, piece: string)
    requires Split(Norm(s)) == [piece, ""]
    ensures Pieces("", [s], "") == [piece] + Split(Norm(""))
  {
    hide Norm, Split;
    assert "" + s == s && [s][1..] == [] && [piece, ""][..1] == [piece];
    assert Pieces("", [], "") == Split(Norm("")) by { assert "" + "" == ""; }
  }

  lemma BodyOneBlock(m: Message)
    requires OneLine(m.name) && OneLine(m.payload)
    ensures NoBlankLine(Body(m, "\n")) && !EndsWith(Body(m, "\n"), '\n') && Body(m, "\n") != "" && Body(m, "\n")[0] == 'e'
  {
    hide OneLine, NoBlankLine, EndsWith;
    FieldsAreOneLine(m);
    assert ("event: " + m.name)[0] == 'e';
    TwoLines("event: " + m.name, "data: " + m.payload);
  }

  lemma Blocks(a: string, b: string)
    requires NoBlankLine(a) && !EndsWith(a, '\n') && NoBlankLine(b) && b != "" && b[0] != '\n'
    ensures NoBlankLine(a + "\n" + ("\r" + "\n" + b))
    ensures !EndsWith(b, '\n') ==> !EndsWith(a + "\n" + ("\r" + "\n" + b), '\n')
  {
    var s := a + "\n" + ("\r" + "\n" + b);
    assert forall j :: 0 <= j < |a| ==> s[j] == a[j];
    assert s[|a|] == '\n' && s[|a| + 1] == '\r' && s[|a| + 2] == '\n';
    assert forall j :: 0 <= j < |b| ==> s[|a| + 3 + j] == b[j];
    forall j | 0 <= j < |s| - 1 ensures !(s[j] == '\n' && s[j + 1] == '\n') {
      if |a| + 3 <= j {
        assert s[j] == b[j - |a| - 3] && s[j + 1] == b[j + 1 - |a| - 3];
      }
    }
  }

  lemma SplitBlock(s: string)
    requires NoBlankLine(s)
    ensures Split(s) == [s]
  {
    SplitIsScan(s);
    ScanOpen(s);
    assert [] + [s] == [s];
  }

  /** Cut right after the triple. */
  lemma ReadInTwo(first: Message, second: Message)
    requires OneLine(first.name) && OneLine(first.payload) && OneLine(second.name) && OneLine(second.payload)
    ensures var (x, b) := WithTriple(first, second);
            Pieces("", [x, b], "") == [Body(first, "\n"), Body(second, "\n"), ""]
  {
    hide Norm, Split, Body, OneLine, NoBlankLine, EndsWith, Pieces;
    var (x, b) := WithTriple(first, second);
    var one, two := Body(first, "\n"), Body(second, "\n");
    var a := one + "\n";
    WithoutReturns(first);
    WithoutReturns(second);
    TailWithoutReturns(two);
    BodyOneBlock(first);
    BodyOneBlock(second);
    TripleHeldBack(a);
    NormOneLine(a);
    HeldBackBlock(one);
    HeldBackNorm(a, b);
    assert a + "\n" + b == one + ("\n" + ("\n" + b));
    SplitFirst(one, b);
    SplitFirst(two, "");
    SplitBlock("") by { EmptyBlock(); }
    NothingLeft();
    assert [one] + ([two] + [""]) == [one, two, ""];
    ReadTwice(x, b);
    assert [a + "\r\n"][..0] == [] && [one, two, ""][..2] == [one, two];
    assert [] + ([one, two] + [""]) == [one, two, ""];
  }

  lemma HeldBackBlock(body: string)
    requires NoBlankLine(body) && !EndsWith(body, '\n')
    ensures Split(body + "\n" + "\r\n") == [body + "\n" + "\r\n"]
  {
    hide Split;
    var s := body + "\n" + "\r\n";
    assert forall j :: 0 <= j < |body| ==> s[j] == body[j];
    assert s[|body|] == '\n' && s[|body| + 1] == '\r' && s[|body| + 2] == '\n';
    SplitBlock(s);
  }

  lemma HeldBackNorm(a: string, b: string)
    requires '\r' !in a && '\r' !in b
    ensures Norm(a + "\r\n" + b) == a + "\n" + b
  {
    hide Norm;
    NormOneLine(a);
    NormOneLine(b);
    NormEol("\r\n");
    NormInParts(a, "\r\n");
    NormInParts(a + "\r\n", b);
  }

  lemma FiveLines(e1: string, d1: string, e2: string, d2: string)
    requires OneLine(e1) && OneLine(d1) && OneLine(e2) && OneLine(d2)
    ensures Lines(e1 + "\n" + d1 + "\n" + ("\r" + "\n" + (e2 + "\n" + d2))) == [e1, d1, "\r", e2, d2]
  {
    hide Lines;
    var rest := e2 + "\n" + d2;
    TwoLinesParsed(e2, d2);
    FirstLine("\r", rest);
    FirstLine(d1, "\r" + "\n" + rest);
    FirstLine(e1, d1 + "\n" + ("\r" + "\n" + rest));
    assert e1 + "\n" + d1 + "\n" + ("\r" + "\n" + rest) == e1 + "\n" + (d1 + "\n" + ("\r" + "\n" + rest));
    assert [e1] + ([d1] + (["\r"] + [e2, d2])) == [e1, d1, "\r", e2, d2];
  }

  lemma FiveFields(e1: string, d1: string, e2: string, d2: string, first: Message, second: Message, blank: char -> bool)
    requires EventName([e1, d1], blank) == first.name && DataLines([e1, d1], blank) == [first.payload]
    requires StartsWith(e2, "event:") && e2[6..] == " " + second.name && !StartsWith(e2, "data:")
    requires StartsWith(d2, "data:") && d2[5..] == " " + second.payload && !StartsWith(d2, "event:")
    requires TrimStart(" " + second.name, blank) == second.name == TrimEnd(second.name, blank)
    requires TrimStart(" " + second.payload, blank) == second.payload
    ensures EventName([e1, d1, "\r", e2, d2], blank) == second.name
    ensures DataLines([e1, d1, "\r", e2, d2], blank) == [first.payload, second.payload]
  {
    hide EventName, DataLines, TrimStart, TrimEnd;
    assert [e1, d1] + ["\r"] == [e1, d1, "\r"] && [e1, d1, "\r"] + [e2] == [e1, d1, "\r", e2];
    assert [e1, d1, "\r", e2] + [d2] == [e1, d1, "\r", e2, d2];
    LineRead([e1, d1], "\r", blank);
    LineRead([e1, d1, "\r"], e2, blank);
    LineRead([e1, d1, "\r", e2], d2, blank);
    assert [first.payload] + [second.payload] == [first.payload, second.payload];
  }

  /** A stream with a triple whose events depend on the cut, for any two messages: cut right behind the triple, the
      reader delivers the events of both; read at once it delivers what their joined payloads decode to,
      under the name of the second, and so nothing when that does not decode. */
  lemma TripleJoinsMessages<E>(first: Message, second: Message, blank: char -> bool,
                               decode: (string, string) -> Result<seq<E>>, parse: string -> seq<E>)
    requires Plain(first, blank) && Plain(second, blank) && blank(' ')
    requires forall chunk :: parse(chunk) == Parse(chunk, blank, decode)
    ensures var (x, b) := WithTriple(first, second);
            && FlatMap(Pieces("", [x, b], ""), parse)
               == Outcome(decode(first.name, first.payload)) + Outcome(decode(second.name, second.payload))
            && FlatMap(Pieces("", [x + b], ""), parse)
               == Outcome(decode(second.name, first.payload + "\n" + second.payload))
  {
    hide Norm, Split, Body, Parse, OneLine, Lines, EventName, DataLines, StartsWith, TrimStart, TrimEnd, Pieces, FlatMap;
    var one, two, piece := Body(first, "\n"), Body(second, "\n"), Joined(first, second);
    ReadInTwo(first, second);
    ReadAtOnce(first, second);
    BodyParses(first, blank, decode);
    BodyParses(second, blank, decode);
    JoinedParses(first, second, blank, decode);
    NothingToParse(blank, decode);
    assert [one, two, ""] == [one, two] + [""] && [piece, ""] == [piece] + [""];
    FlatMapSplits([one, two], [""], parse);
    FlatMapSplits([piece], [""], parse);
    FlatMapTwo(one, two, parse);
    FlatMapOne(piece, parse);
    FlatMapOne("", parse);
  }

  lemma JoinedParses<E>(first: Message, second: Message, blank: char -> bool, decode: (string, string) -> Result<seq<E>>)
    requires Plain(first, blank) && Plain(second, blank) && blank(' ')
    ensures Parse(Joined(first, second), blank, decode)
         == Outcome(decode(second.name, first.payload + "\n" + second.payload))
  {
    hide Parse, OneLine, Lines, EventName, DataLines, StartsWith, TrimStart, TrimEnd;
    var e1, d1, e2, d2 := "event: " + first.name, "data: " + first.payload, "event: " + second.name, "data: " + second.payload;
    FieldsAreOneLine(first);
    FieldsAreOneLine(second);
    FiveLines(e1, d1, e2, d2);
    FieldPrefixes(first.name, first.payload);
    FieldPrefixes(second.name, second.payload);
    PlainIsTrimmed(first, blank);
    PlainIsTrimmed(second, blank);
    FieldLines(e1, d1, first.name, first.payload, blank);
    FiveFields(e1, d1, e2, d2, first, second, blank);
    ParseJoined(Joined(first, second), first, second, blank, decode);
  }

  lemma ParseJoined<E>(chunk: string, first: Message, second: Message, blank: char -> bool, decode: (string, string) -> Result<seq<E>>)
    requires EventName(Lines(chunk), blank) == second.name && DataLines(Lines(chunk), blank) == [first.payload, second.payload]
    ensures Parse(chunk, blank, decode) == Outcome(decode(second.name, first.payload + "\n" + second.payload))
  {
    hide Lines, EventName, DataLines;
    var data := [first.payload, second.payload];
    assert data[1..] == [second.payload];
    assert JoinLines(data) == first.payload + "\n" + second.payload;
  }

  lemma FlatMapTwo<E>(a: string, b: string, parse: string -> seq<E>)
    ensures FlatMap([a, b], parse) == parse(a) + parse(b)
  {
    assert [a, b][1..] == [b];
    FlatMapOne(b, parse);
  }

  lemma FlatMapOne<E>(a: string, parse: string -> seq<E>)
    ensures FlatMap([a], parse) == parse(a)
  {
    assert [a][1..] == [];
    assert FlatMap([], parse) == [];
  }
}
