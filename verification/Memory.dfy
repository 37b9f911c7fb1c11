/** Incremental compaction of a conversation behind a durable cursor. */
module Memory {
  import opened Options

  datatype Role = User | Assistant | Tool

  datatype Message = Message(at: int, id: nat, role: Role, content: string)

  /** The stored cursor: none yet, a forget boundary, or a position.  At a position, `offset` counts the
      characters of that message already taken, 0 once it is complete, and `count` the messages completed. */
  datatype Cursor =
    | Unset
    | After(time: int)
    | At(id: nat, at: int, offset: nat, count: nat)

  datatype Piece = Piece(role: Role, content: string)

  datatype Summary = Summary(validTo: Option<int>)

  // ----- which messages are read -----

  predicate Eligible(m: Message) {
    (m.role.User? || m.role.Assistant?) && m.content != ""
  }

  function EligibleMessages(ms: seq<Message>): seq<Message> {
    if ms == [] then []
    else EligibleMessages(ms[..|ms| - 1]) + (if Eligible(ms[|ms| - 1]) then [ms[|ms| - 1]] else [])
  }

  /** Everything but the most recent `recent` messages. */
  function Old(ms: seq<Message>, recent: nat): seq<Message> {
    if recent <= |ms| then ms[..|ms| - recent] else []
  }

  predicate PositionLess(at1: int, id1: nat, at2: int, id2: nat) {
    at1 < at2 || (at1 == at2 && id1 < id2)
  }

  predicate PastCursor(m: Message, c: Cursor) {
    match c
    case Unset => true
    case After(t) => m.at > t
    case At(id, at, offset, _) =>
      PositionLess(at, id, m.at, m.id) || (offset > 0 && m.at == at && m.id == id)
  }

  function Select(ms: seq<Message>, c: Cursor): seq<Message> {
    if ms == [] then []
    else (if PastCursor(ms[0], c) then [ms[0]] else []) + Select(ms[1..], c)
  }

  const PAGE := 50

  function SourceMessages(ms: seq<Message>, recent: nat, c: Cursor): seq<Message> {
    var all := Select(Old(EligibleMessages(ms), recent), c);
    if |all| <= PAGE then all else all[..PAGE]
  }

  // ----- the batch -----

  /** A slice that stops at the end of the text, as the source language's does. */
  function Slice(s: string, lo: nat, hi: nat): (r: string)
    requires lo <= hi
    ensures |r| <= hi - lo
  {
    if lo >= |s| then "" else s[lo..Min(hi, |s|)]
  }

  function StartOffset(m: Message, c: Cursor): nat {
    if c.At? && c.id == m.id then c.offset else 0
  }

  function CountOf(c: Cursor): nat {
    if c.At? then c.count else 0
  }

  function Advance(next: Cursor, m: Message, end: nat): Cursor {
    var complete := end == |m.content|;
    At(m.id, m.at, if complete then 0 else end, CountOf(next) + (if complete then 1 else 0))
  }

  /** Take characters from `ms` until `remaining` are taken; `c` is the stored cursor, `next` the one
      built so far. */
  function Batch(ms: seq<Message>, c: Cursor, remaining: nat, next: Cursor): (r: (seq<Piece>, Cursor))
    ensures if r.0 == [] then r.1 == next else r.1.At?
  {
    if ms == [] then ([], next)
    else
      var m := ms[0];
      var offset := StartOffset(m, c);
      var content := Slice(m.content, offset, offset + remaining);
      if content == "" then ([], next)
      else
        var next' := Advance(next, m, offset + |content|);
        var rest := Batch(ms[1..], c, remaining - |content|, next');
        ([Piece(m.role, content)] + rest.0, rest.1)
  }

  /** One turn of the loop, as an unfolding of `Batch`. */
  lemma BatchTurn(ms: seq<Message>, i: nat, c: Cursor, remaining: nat, next: Cursor)
    requires i < |ms|
    ensures var content := Slice(ms[i].content, StartOffset(ms[i], c), StartOffset(ms[i], c) + remaining);
            var next' := Advance(next, ms[i], StartOffset(ms[i], c) + |content|);
            var rest := Batch(ms[i + 1..], c, remaining - |content|, next');
            Batch(ms[i..], c, remaining, next)
            == if content == "" then ([], next) else ([Piece(ms[i].role, content)] + rest.0, rest.1)
  {
    assert ms[i..][0] == ms[i] && ms[i..][1..] == ms[i + 1..];
  }

  method TakeBatch(ms: seq<Message>, c: Cursor, maxChars: nat) returns (batch: seq<Piece>, next: Cursor)
    ensures batch == Batch(ms, c, maxChars, c).0 && next == Batch(ms, c, maxChars, c).1
  {
    hide Slice, Advance, StartOffset, Batch;
    var remaining: nat := maxChars;
    batch, next := [], c;
    assert ms[0..] == ms;
    for i := 0 to |ms|
      invariant remaining <= maxChars
      invariant Batch(ms, c, maxChars, c).0 == batch + Batch(ms[i..], c, remaining, next).0
      invariant Batch(ms, c, maxChars, c).1 == Batch(ms[i..], c, remaining, next).1
    {
      var m := ms[i];
      BatchTurn(ms, i, c, remaining, next);
      var offset := StartOffset(m, c);
      var content := Slice(m.content, offset, offset + remaining);
      if content == "" {
        assert batch + [] == batch;
        return;
      }
      next := Advance(next, m, offset + |content|);
      batch := batch + [Piece(m.role, content)];
      remaining := remaining - |content|;
      if remaining == 0 {
        NothingLeft(ms[i + 1..], c, next);
        assert batch + [] == batch;
        return;
      }
    }
    assert ms[|ms|..] == [] && batch + [] == batch;
    NothingLeft([], c, next);
  }

  /** Without room or without messages the batch is empty. */
  lemma NothingLeft(ms: seq<Message>, c: Cursor, next: Cursor)
    ensures Batch(ms, c, 0, next) == ([], next)
    ensures forall remaining: nat :: Batch([], c, remaining, next) == ([], next)
  {
  }

  // ----- the conversation and its steps -----

  /** A conversation, and the batches of all successful updates so far. */
  datatype Conversation = Conversation(
    messages: seq<Message>, cursor: Cursor, summaries: seq<Summary>, committed: seq<Piece>
  )

  datatype Step =
    | Append(message: Message)
    | Update(recent: nat, maxChars: nat, accepted: bool)   // `accepted`: the model answered and it was valid
    | Disable(index: nat, now: int)
    | Delete(index: nat, now: int)

  /** The latest time at which a summary was retired. */
  function RetiredAt(summaries: seq<Summary>): Option<int> {
    if summaries == [] then None
    else
      var rest := RetiredAt(summaries[1..]);
      match summaries[0].validTo
      case None => rest
      case Some(t) => Some(if rest.Some? then Max(t, rest.value) else t)
  }

  /** A conversation without a cursor respects an earlier retirement. */
  function EffectiveCursor(c: Conversation): Cursor {
    if c.cursor != Unset then c.cursor
    else
      match RetiredAt(c.summaries)
      case None => Unset
      case Some(t) => After(t)
  }

  predicate HasActive(summaries: seq<Summary>) {
    exists i :: 0 <= i < |summaries| && summaries[i].validTo.None?
  }

  function AfterUpdate(c: Conversation, recent: nat, maxChars: nat, accepted: bool): Conversation {
    var cursor := EffectiveCursor(c);
    var (batch, next) := Batch(SourceMessages(c.messages, recent, cursor), cursor, maxChars, cursor);
    if batch == [] || !accepted then c
    else c.(cursor := next,
            summaries := if HasActive(c.summaries) then c.summaries else c.summaries + [Summary(None)],
            committed := c.committed + batch)
  }

  function AfterDisable(c: Conversation, i: nat, now: int): Conversation
    requires i < |c.summaries|
  {
    c.(summaries := c.summaries[i := Summary(Some(c.summaries[i].validTo.GetOr(now)))])
  }

  function AfterDelete(c: Conversation, i: nat, now: int): Conversation
    requires i < |c.summaries|
  {
    c.(cursor := if c.cursor == Unset then After(now) else c.cursor,
       summaries := c.summaries[..i] + c.summaries[i + 1..])
  }

  /** The stored conversation; each method is one transaction under the conversation's row lock. */
  class ConversationRecord {
    var messages: seq<Message>
    var cursor: Cursor
    var summaries: seq<Summary>
    ghost var committed: seq<Piece>

    ghost function Value(): Conversation
      reads this
    {
      Conversation(messages, cursor, summaries, committed)
    }

    /** `reply` is whether the model answered in time with an acceptable summary. */
    method Update(recent: nat, maxChars: nat, reply: bool) returns (updated: bool)
      modifies this
      ensures Value() == AfterUpdate(old(Value()), recent, maxChars, reply)
      ensures updated <==> |committed| > |old(committed)|
    {
      var start := cursor;
      if start == Unset {
        var retired := RetiredAt(summaries);
        if retired.Some? {
          start := After(retired.value);
        }
      }
      var batch, next := TakeBatch(SourceMessages(messages, recent, start), start, maxChars);
      if batch == [] || !reply {
        return false;
      }
      if !HasActive(summaries) {
        summaries := summaries + [Summary(None)];
      }
      cursor := next;
      committed := committed + batch;
      updated := true;
    }

    method Disable(i: nat, now: int)
      requires i < |summaries|
      modifies this
      ensures Value() == AfterDisable(old(Value()), i, now)
      ensures cursor == old(cursor) && messages == old(messages) && |summaries| == |old(summaries)|
      ensures summaries[i].validTo.Some?
      ensures if old(summaries)[i].validTo.Some? then summaries == old(summaries)
              else summaries == old(summaries)[i := summaries[i]] && summaries[i].validTo.value == now
    {
      if summaries[i].validTo.None? {
        summaries := summaries[i := Summary(Some(now))];
      }
    }

    method Delete(i: nat, now: int)
      requires i < |summaries|
      modifies this
      ensures Value() == AfterDelete(old(Value()), i, now)
      ensures messages == old(messages) && summaries == old(summaries)[..i] + old(summaries)[i + 1..]
      ensures old(cursor) != Unset ==> cursor == old(cursor)
      ensures old(cursor) == Unset ==> cursor == After(now)
    {
      if cursor == Unset {
        cursor := After(now);
      }
      summaries := summaries[..i] + summaries[i + 1..];
    }
  }

  // ----- coverage -----

  type Tagged = (Role, char)

  function Tag(role: Role, s: string): seq<Tagged> {
    seq(|s|, i requires 0 <= i < |s| => (role, s[i]))
  }

  /** The text of a list of messages, every character with the role that said it. */
  function Stream(ms: seq<Message>): seq<Tagged> {
    if ms == [] then [] else Stream(ms[..|ms| - 1]) + Tag(ms[|ms| - 1].role, ms[|ms| - 1].content)
  }

  function TextOf(ps: seq<Piece>): seq<Tagged> {
    if ps == [] then [] else Tag(ps[0].role, ps[0].content) + TextOf(ps[1..])
  }

  predicate Before(a: Message, b: Message) {
    PositionLess(a.at, a.id, b.at, b.id) && a.id != b.id
  }

  predicate Ordered(ms: seq<Message>) {
    forall i, j :: 0 <= i < j < |ms| ==> Before(ms[i], ms[j])
  }

  /** The cursor says: of the messages from `base` on, those before `done` are complete, and of the next
      one `offset` characters are taken. */
  predicate Position(e: seq<Message>, base: nat, c: Cursor, done: nat) {
    base <= done <= |e| &&
    match c
    case At(id, at, offset, count) =>
      && count == done - base
      && (if offset == 0 then base < done && e[done - 1].id == id && e[done - 1].at == at
          else done < |e| && e[done].id == id && e[done].at == at && offset < |e[done].content|)
    case _ => done == base
  }

  function Taken(e: seq<Message>, base: nat, c: Cursor, done: nat): seq<Tagged>
    requires Position(e, base, c, done)
  {
    Stream(e[base..done]) + (if c.At? && c.offset > 0 then Tag(e[done].role, e[done].content[..c.offset]) else [])
  }

  /** Exact coverage: what was compacted is the text of the messages from `base` up to the cursor. */
  ghost predicate Covers(c: Conversation, base: nat) {
    exists done :: CoversTo(c, base, done)
  }

  predicate CoversTo(c: Conversation, base: nat, done: nat) {
    && Position(EligibleMessages(c.messages), base, c.cursor, done)
    && TextOf(c.committed) == Taken(EligibleMessages(c.messages), base, c.cursor, done)
  }

  lemma {:induction false} SelectSuffix(ms: seq<Message>, c: Cursor, k: nat)
    requires k <= |ms|
    requires forall i :: 0 <= i < k ==> !PastCursor(ms[i], c)
    requires forall i :: k <= i < |ms| ==> PastCursor(ms[i], c)
    ensures Select(ms, c) == ms[k..]
  {
    if ms != [] {
      if k == 0 {
        SelectSuffix(ms[1..], c, 0);
      } else {
        SelectSuffix(ms[1..], c, k - 1);
        assert ms[1..][k - 1..] == ms[k..];
      }
    }
  }

  /** The query returns a contiguous run that starts exactly where the cursor stands. */
  lemma SourceStartsAtCursor(ms: seq<Message>, recent: nat, c: Cursor, base: nat, done: nat)
    requires Ordered(EligibleMessages(ms)) && c.At? && Position(EligibleMessages(ms), base, c, done)
    ensures var e := EligibleMessages(ms); var n := PageEnd(|e|, done, recent);
            done <= n <= |e| && SourceMessages(ms, recent, c) == e[done..n]
  {
    hide EligibleMessages, Select;
    var e := EligibleMessages(ms);
    var old_ := Old(e, recent);
    SelectSuffix(old_, c, Min(done, |old_|));
    hide PastCursor, Position;
    PageOf(e, recent, done, SourceMessages(ms, recent, c));
  }

  /** Where a page of fifty messages that starts at `done` ends, with the `recent` newest kept out. */
  function PageEnd(total: nat, done: nat, recent: nat): nat {
    if done + recent < total then Min(done + 50, total - recent) else done
  }

  lemma PageOf(e: seq<Message>, recent: nat, done: nat, source: seq<Message>)
    requires done <= |e|
    requires var rest := Old(e, recent)[Min(done, |Old(e, recent)|)..];
             source == if |rest| <= PAGE then rest else rest[..PAGE]
    ensures var n := PageEnd(|e|, done, recent); done <= n <= |e| && source == e[done..n]
  {
    var old_, n := Old(e, recent), PageEnd(|e|, done, recent);
    if done + recent < |e| {
      assert old_ == e[..|e| - recent];
      assert old_[done..] == e[done..|e| - recent];
    }
  }

  lemma TagSplits(role: Role, a: string, b: string)
    ensures Tag(role, a + b) == Tag(role, a) + Tag(role, b)
  {
  }

  lemma StreamExtends(e: seq<Message>, lo: nat, hi: nat)
    requires lo <= hi < |e|
    ensures Stream(e[lo..hi + 1]) == Stream(e[lo..hi]) + Tag(e[hi].role, e[hi].content)
  {
    assert e[lo..hi + 1][..hi - lo] == e[lo..hi];
  }

  function OffsetOf(c: Cursor): nat {
    if c.At? then c.offset else 0
  }

  /** One place in the text is not before another: by whole messages, then by characters of the next. */
  predicate Ahead(done: nat, c: Cursor, done': nat, c': Cursor) {
    done < done' || (done == done' && OffsetOf(c) <= OffsetOf(c'))
  }

  function Chars(ps: seq<Piece>): nat {
    if ps == [] then 0 else |ps[0].content| + Chars(ps[1..])
  }

  /** One message: the slice taken from it continues the text, and the cursor moves past it. */
  lemma PieceCovers(e: seq<Message>, base: nat, done: nat, next: Cursor, remaining: nat) returns (done': nat)
    requires Position(e, base, next, done) && done < |e| && remaining > 0 && e[done].content != ""
    ensures var m := e[done];
            var content := Slice(m.content, OffsetOf(next), OffsetOf(next) + remaining);
            var next' := Advance(next, m, OffsetOf(next) + |content|);
            && 0 < |content| <= remaining
            && Position(e, base, next', done')
            && Taken(e, base, next', done') == Taken(e, base, next, done) + Tag(m.role, content)
            && (|content| < remaining ==> OffsetOf(next') == 0)
            && (OffsetOf(next') == 0 ==> done' == done + 1)
            && (OffsetOf(next') > 0 ==> done' == done && OffsetOf(next) < OffsetOf(next'))
  {
    hide Stream, Tag;
    var m := e[done];
    var offset := OffsetOf(next);
    var content := Slice(m.content, offset, offset + remaining);
    var end := offset + |content|;
    assert m.content[..end] == m.content[..offset] + content;
    TagSplits(m.role, m.content[..offset], content);
    NothingTagged(m.role, m.content);
    if end == |m.content| {
      done' := done + 1;
      assert m.content[..end] == m.content;
      StreamExtends(e, base, done);
    } else {
      done' := done;
    }
  }

  lemma NothingTagged(role: Role, s: string)
    ensures Tag(role, s[..0]) == []
  {
  }

  /** What a batch from `next` at `done` to `last` at `done'` achieves, with messages up to `n` and `remaining`
      characters to take. */
  ghost predicate BatchFits(e: seq<Message>, base: nat, done: nat, n: nat, remaining: nat, next: Cursor,
                            batch: seq<Piece>, last: Cursor, done': nat) {
    && Position(e, base, next, done) && Position(e, base, last, done')
    && Taken(e, base, last, done') == Taken(e, base, next, done) + TextOf(batch)
    && Chars(batch) <= remaining
    && (batch == [] <==> done == n) && (if batch == [] then last == next else 0 < Chars(batch))
    && (Chars(batch) == remaining || done' == n)
    && done' <= n && (batch != [] && OffsetOf(last) > 0 ==> done' < n)
    && Ahead(done, next, done', last)
  }

  lemma NoBatch(e: seq<Message>, base: nat, done: nat, remaining: nat, next: Cursor)
    requires Position(e, base, next, done)
    ensures BatchFits(e, base, done, done, remaining, next, [], next, done)
  {
    hide Position, Taken;
    assert Taken(e, base, next, done) + [] == Taken(e, base, next, done);
  }

  /** One message put before a batch that fits, or the last one when it uses up all characters. */
  lemma BatchGrows(e: seq<Message>, base: nat, done: nat, n: nat, remaining: nat, next: Cursor, p: Piece,
                   next': Cursor, done1: nat, batch: seq<Piece>, last: Cursor, done': nat)
    requires Position(e, base, next, done) && Position(e, base, next', done1)
    requires Taken(e, base, next', done1) == Taken(e, base, next, done) + Tag(p.role, p.content)
    requires 0 < |p.content| <= remaining && done < n
    requires (OffsetOf(next') == 0 && done1 == done + 1) || (done1 == done && OffsetOf(next) < OffsetOf(next') && |p.content| == remaining)
    requires if |p.content| == remaining then batch == [] && last == next' && done' == done1
             else BatchFits(e, base, done1, n, remaining - |p.content|, next', batch, last, done')
    ensures BatchFits(e, base, done, n, remaining, next, [p] + batch, last, done')
  {
    hide Position, Tag, OffsetOf;
    TextOfMore(p, batch);
    CharsMore(p, batch);
    Regroup(Taken(e, base, next, done), Tag(p.role, p.content), TextOf(batch));
    assert Tag(p.role, p.content) + [] == Tag(p.role, p.content);
  }

  lemma CharsMore(p: Piece, ps: seq<Piece>)
    ensures Chars([p] + ps) == |p.content| + Chars(ps)
  {
    assert ([p] + ps)[1..] == ps;
  }

  /** A whole batch over the messages from the cursor on: it continues the text exactly, stays within
      the limit, takes something if there is anything, and stops only at the limit or at the end. */
  lemma {:induction false} BatchCovers(e: seq<Message>, base: nat, done: nat, n: nat, c: Cursor, remaining: nat, next: Cursor)
    returns (done': nat)
    requires Position(e, base, next, done) && done <= n <= |e| && remaining > 0
    requires forall i :: 0 <= i < |e| ==> e[i].content != ""
    requires done < n ==> StartOffset(e[done], c) == OffsetOf(next)
    requires forall i :: done < i < n ==> StartOffset(e[i], c) == 0
    ensures var (batch, last) := Batch(e[done..n], c, remaining, next);
            BatchFits(e, base, done, n, remaining, next, batch, last, done')
    decreases n - done
  {
    hide Tag, Slice, Advance, Stream, Position, Taken, StartOffset, OffsetOf, Batch, BatchFits, Ahead;
    if done == n {
      done' := done;
      NothingLeft([], c, next);
      NoBatch(e, base, done, remaining, next);
      assert e[done..n] == [];
    } else {
      var done1 := PieceCovers(e, base, done, next, remaining);
      var m := e[done];
      var content := Slice(m.content, OffsetOf(next), OffsetOf(next) + remaining);
      var next' := Advance(next, m, OffsetOf(next) + |content|);
      var rest := e[done + 1..n];
      assert e[done..n][0] == m && e[done..n][1..] == rest && e[done..n][0..] == e[done..n];
      BatchTurn(e[done..n], 0, c, remaining, next);
      done' := done1;
      if |content| == remaining {
        NothingLeft(rest, c, next');
      } else {
        done' := BatchCovers(e, base, done + 1, n, c, remaining - |content|, next');
      }
      var (batch, last) := Batch(rest, c, remaining - |content|, next');
      BatchGrows(e, base, done, n, remaining, next, Piece(m.role, content), next', done1, batch, last, done');
    }
  }

  lemma TextOfMore(p: Piece, ps: seq<Piece>)
    ensures TextOf([p] + ps) == Tag(p.role, p.content) + TextOf(ps)
  {
    hide Tag;
    assert ([p] + ps)[1..] == ps;
  }

  lemma {:induction false} TextOfAppends(a: seq<Piece>, b: seq<Piece>)
    ensures TextOf(a + b) == TextOf(a) + TextOf(b)
  {
    if a == [] {
      NothingBefore(b);
      NothingBefore(TextOf(b));
    } else {
      hide Tag, TextOf;
      TextOfAppends(a[1..], b);
      TextOfMore(a[0], a[1..]);
      TextOfMore(a[0], a[1..] + b);
      FirstAndRest(a, b);
      Regroup(Tag(a[0].role, a[0].content), TextOf(a[1..]), TextOf(b));
    }
  }

  lemma {:induction false} AllEligible(ms: seq<Message>)
    ensures forall i :: 0 <= i < |EligibleMessages(ms)| ==> Eligible(EligibleMessages(ms)[i])
  {
    if ms != [] {
      AllEligible(ms[..|ms| - 1]);
    }
  }

  /** How many of the ordered messages lie at or before a forget boundary. */
  function Forgotten(e: seq<Message>, c: Cursor): nat {
    if !c.After? || e == [] || e[0].at > c.time then 0 else 1 + Forgotten(e[1..], c)
  }

  lemma {:induction false} ForgottenSplits(e: seq<Message>, c: Cursor)
    requires Ordered(e) && !c.At?
    ensures Forgotten(e, c) <= |e|
    ensures forall i :: 0 <= i < Forgotten(e, c) ==> !PastCursor(e[i], c)
    ensures forall i :: Forgotten(e, c) <= i < |e| ==> PastCursor(e[i], c)
  {
    if c.After? && e != [] && e[0].at <= c.time {
      ForgottenSplits(e[1..], c);
    }
  }

  /** Where coverage starts: a stored position keeps its base, and without one the next update starts right
      behind the forget boundary or the latest retirement, at the very first message if there is neither. */
  predicate StartsAt(c: Conversation, base: nat) {
    c.cursor.At? || base == Forgotten(EligibleMessages(c.messages), EffectiveCursor(c))
  }

  lemma SourceStarts(c: Conversation, recent: nat, base: nat, done: nat)
    requires Ordered(EligibleMessages(c.messages)) && StartsAt(c, base) && CoversTo(c, base, done)
    ensures var e := EligibleMessages(c.messages); var n := PageEnd(|e|, done, recent);
            done <= n <= |e| && SourceMessages(c.messages, recent, EffectiveCursor(c)) == e[done..n]
  {
    hide EligibleMessages, Forgotten, Taken, Select, PastCursor;
    if c.cursor.At? {
      SourceStartsAtCursor(c.messages, recent, c.cursor, base, done);
    } else {
      var e := EligibleMessages(c.messages);
      var old_ := Old(e, recent);
      ForgottenSplits(e, EffectiveCursor(c));
      SelectSuffix(old_, EffectiveCursor(c), Min(base, |old_|));
      PageOf(e, recent, base, SourceMessages(c.messages, recent, EffectiveCursor(c)));
    }
  }

  /** An update extends exact coverage, whatever cursor and limits it starts from.  It changes something
      exactly when it is accepted and a message lies between the cursor and the `recent` newest ones; then it
      takes at least one character and at most `maxChars`, falls short of that only when it used a page of
      fifty messages or all there were, moves the cursor on, and never touches the `recent` newest. */
  lemma UpdateCovers(c: Conversation, recent: nat, maxChars: nat, accepted: bool, base: nat, done: nat) returns (done': nat)
    requires Ordered(EligibleMessages(c.messages)) && StartsAt(c, base) && CoversTo(c, base, done) && maxChars > 0
    ensures var c' := AfterUpdate(c, recent, maxChars, accepted);
            var total := |EligibleMessages(c.messages)|;
            && CoversTo(c', base, done') && Ahead(done, c.cursor, done', c'.cursor)
            && (c' == c <==> !accepted || total <= done + recent)
            && (c' != c ==>
                  && c'.cursor.At? && done' + (if OffsetOf(c'.cursor) > 0 then 1 else 0) + recent <= total
                  && 0 < |TextOf(c'.committed)| - |TextOf(c.committed)| <= maxChars
                  && (|TextOf(c'.committed)| - |TextOf(c.committed)| == maxChars || done' == Min(done + 50, total - recent)))
  {
    hide Tag, Slice, Advance, Stream, Batch, SourceMessages, TextOf, Chars, StartsAt, Forgotten, RetiredAt;
    var e := EligibleMessages(c.messages);
    var start := EffectiveCursor(c);
    var source := SourceMessages(c.messages, recent, start);
    SourceStarts(c, recent, base, done);
    var n := PageEnd(|e|, done, recent);
    OffsetsFit(c, base, done);
    done' := BatchCovers(e, base, done, n, start, maxChars, start);
    var (batch, next) := Batch(source, start, maxChars, start);
    TextOfAppends(c.committed, batch);
    TextLength(batch);
    if batch == [] || !accepted {
      done' := done;
    } else {
      assert CoversTo(AfterUpdate(c, recent, maxChars, accepted), base, done');
    }
  }

  /** Only the message the cursor stands on is resumed in the middle. */
  lemma OffsetsFit(c: Conversation, base: nat, done: nat)
    requires Ordered(EligibleMessages(c.messages)) && CoversTo(c, base, done)
    ensures var e := EligibleMessages(c.messages); var start := EffectiveCursor(c);
            && (forall i :: 0 <= i < |e| ==> e[i].content != "")
            && (done < |e| ==> StartOffset(e[done], start) == OffsetOf(start))
            && (forall i :: done < i < |e| ==> StartOffset(e[i], start) == 0)
  {
    AllEligible(c.messages);
  }

  lemma {:induction false} TextLength(ps: seq<Piece>)
    ensures |TextOf(ps)| == Chars(ps)
  {
    if ps != [] {
      TextLength(ps[1..]);
    }
  }

  // ----- every run -----

  predicate Enabled(c: Conversation, step: Step) {
    match step
    case Append(m) => Ordered(c.messages + [m])       // the conversation only grows at its end
    case Update(_, maxChars, _) => maxChars > 0
    case Disable(i, _) => i < |c.summaries|
    case Delete(i, _) => i < |c.summaries|
  }

  function Apply(c: Conversation, step: Step): Conversation
    requires Enabled(c, step)
  {
    match step
    case Append(m) => c.(messages := c.messages + [m])
    case Update(recent, maxChars, accepted) => AfterUpdate(c, recent, maxChars, accepted)
    case Disable(i, now) => AfterDisable(c, i, now)
    case Delete(i, now) => AfterDelete(c, i, now)
  }

  predicate Legal(c: Conversation, steps: seq<Step>)
    decreases |steps|
  {
    steps == [] || (Enabled(c, steps[0]) && Legal(Apply(c, steps[0]), steps[1..]))
  }

  function Exec(c: Conversation, steps: seq<Step>): Conversation
    requires Legal(c, steps)
    decreases |steps|
  {
    if steps == [] then c else Exec(Apply(c, steps[0]), steps[1..])
  }

  lemma {:induction false} EligibleOrdered(ms: seq<Message>)
    requires Ordered(ms)
    ensures Ordered(EligibleMessages(ms))
    ensures forall m :: m in EligibleMessages(ms) ==> m in ms
  {
    if ms != [] {
      var last := ms[|ms| - 1];
      EligibleOrdered(ms[..|ms| - 1]);
      assert forall m :: m in ms[..|ms| - 1] ==> Before(m, last);
    }
  }

  lemma EligibleGrows(ms: seq<Message>, m: Message)
    ensures EligibleMessages(ms) <= EligibleMessages(ms + [m])
  {
    assert (ms + [m])[..|ms|] == ms;
  }

  lemma AppendCovers(c: Conversation, m: Message, base: nat, done: nat)
    requires CoversTo(c, base, done)
    ensures CoversTo(c.(messages := c.messages + [m]), base, done)
  {
    EligibleGrows(c.messages, m);
    var e, e' := EligibleMessages(c.messages), EligibleMessages(c.messages + [m]);
    assert e'[base..done] == e[base..done];
  }

  /** Exact coverage from any base survives any run: appends, updates with any limits, failed updates,
      disabled and deleted summaries.  The text covered only ever grows at its end, the stored count says
      where it ends, and the cursor never moves back. */
  lemma {:induction false} CoverageKept(c: Conversation, steps: seq<Step>, base: nat)
    requires Ordered(c.messages) && c.cursor.At? && Covers(c, base) && Legal(c, steps)
    ensures var c' := Exec(c, steps);
            && c'.cursor.At? && c.committed <= c'.committed
            && CoversTo(c, base, base + c.cursor.count) && CoversTo(c', base, base + c'.cursor.count)
            && Ahead(base + c.cursor.count, c.cursor, base + c'.cursor.count, c'.cursor)
    decreases |steps|
  {
    hide Enabled, Apply, CoversTo, EligibleMessages, Ahead;
    var done :| CoversTo(c, base, done);
    CountIsPlace(c, base, done);
    if steps == [] {
      NotBehindItself(done, c.cursor);
    } else {
      var next := Apply(c, steps[0]);
      var done' := StepCovers(c, steps[0], base, done);
      CountIsPlace(next, base, done');
      CoverageKept(next, steps[1..], base);
      var last := Exec(next, steps[1..]);
      AheadOfBoth(done, c.cursor, done', next.cursor, base + last.cursor.count, last.cursor);
    }
  }

  /** The stored count says how many messages from the base on are complete. */
  lemma CountIsPlace(c: Conversation, base: nat, done: nat)
    requires c.cursor.At? && CoversTo(c, base, done)
    ensures done == base + c.cursor.count
  {
    hide EligibleMessages, Taken, TextOf;
  }

  lemma NotBehindItself(done: nat, c: Cursor)
    ensures Ahead(done, c, done, c)
  {
  }

  lemma AheadOfBoth(i: nat, a: Cursor, j: nat, b: Cursor, k: nat, c: Cursor)
    requires Ahead(i, a, j, b) && Ahead(j, b, k, c)
    ensures Ahead(i, a, k, c)
  {
  }

  lemma StepCovers(c: Conversation, step: Step, base: nat, done: nat) returns (done': nat)
    requires Ordered(c.messages) && c.cursor.At? && CoversTo(c, base, done) && Enabled(c, step)
    ensures var next := Apply(c, step);
            && Ordered(next.messages) && next.cursor.At? && c.committed <= next.committed
            && CoversTo(next, base, done') && Ahead(done, c.cursor, done', next.cursor)
  {
    hide EligibleMessages, Position, Taken, TextOf, AfterUpdate;
    done' := done;
    match step
    case Append(m) => AppendCovers(c, m, base, done);
    case Update(recent, maxChars, accepted) =>
      EligibleOrdered(c.messages);
      done' := UpdateCovers(c, recent, maxChars, accepted, base, done);
      CursorStays(c, recent, maxChars, accepted);
    case Disable(i, now) =>
    case Delete(i, now) =>
  }

  lemma CursorStays(c: Conversation, recent: nat, maxChars: nat, accepted: bool)
    ensures c.cursor.At? ==> AfterUpdate(c, recent, maxChars, accepted).cursor.At?
    ensures AfterUpdate(c, recent, maxChars, accepted) == c || AfterUpdate(c, recent, maxChars, accepted).cursor.At?
    ensures AfterUpdate(c, recent, maxChars, accepted).messages == c.messages
    ensures c.committed <= AfterUpdate(c, recent, maxChars, accepted).committed
  {
  }

  lemma NothingTaken(c: Conversation, base: nat)
    requires !c.cursor.At? && c.committed == [] && base <= |EligibleMessages(c.messages)|
    ensures CoversTo(c, base, base)
  {
    assert EligibleMessages(c.messages)[base..base] == [];
  }

  /** The first successful update of a conversation without a position starts right after its forget
      boundary: at the very first message if nothing was ever retired. */
  lemma FirstUpdateCovers(c: Conversation, recent: nat, maxChars: nat, accepted: bool)
    requires Ordered(c.messages) && !c.cursor.At? && c.committed == [] && maxChars > 0
    ensures var c' := AfterUpdate(c, recent, maxChars, accepted);
            c' == c || (c'.cursor.At? && Covers(c', Forgotten(EligibleMessages(c.messages), EffectiveCursor(c))))
  {
    hide AfterUpdate, EligibleMessages, Forgotten, CoversTo;
    var e := EligibleMessages(c.messages);
    EligibleOrdered(c.messages);
    ForgottenSplits(e, EffectiveCursor(c));
    var base := Forgotten(e, EffectiveCursor(c));
    NothingTaken(c, base);
    var done := UpdateCovers(c, recent, maxChars, accepted, base, base);
  }

  /** Where coverage starts in a run: right behind the forget boundary in force at its first successful
      update. */
  function BaseOf(c: Conversation, steps: seq<Step>): nat
    requires Legal(c, steps)
    decreases |steps|
  {
    if steps == [] then 0
    else if Apply(c, steps[0]).cursor.At? then Forgotten(EligibleMessages(c.messages), EffectiveCursor(c))
    else BaseOf(Apply(c, steps[0]), steps[1..])
  }

  /** Exact coverage over every run of a conversation whose cursor has no position yet, with any earlier
      summaries or forget boundary: the concatenated batches are the text of its messages from the base
      up to the cursor, in order, without gap or repeat, and the stored count is the number of messages
      taken completely. */
  lemma {:induction false} ExactCoverage(c: Conversation, steps: seq<Step>)
    requires Ordered(c.messages) && !c.cursor.At? && c.committed == [] && Legal(c, steps)
    ensures var c' := Exec(c, steps);
            if c'.cursor.At?
            then CoversTo(c', BaseOf(c, steps), BaseOf(c, steps) + c'.cursor.count)
            else c'.committed == []
    decreases |steps|
  {
    hide AfterUpdate, EligibleMessages, Forgotten, CoversTo;
    if steps != [] {
      var next := Apply(c, steps[0]);
      if steps[0].Update? {
        FirstUpdateCovers(c, steps[0].recent, steps[0].maxChars, steps[0].accepted);
        CursorStays(c, steps[0].recent, steps[0].maxChars, steps[0].accepted);
      }
      if next.cursor.At? {
        CoverageKept(next, steps[1..], BaseOf(c, steps));
      } else {
        ExactCoverage(next, steps[1..]);
      }
    }
  }

  /** A conversation that starts without summaries is covered from its very first message. */
  lemma {:induction false} FromTheFirstMessage(c: Conversation, steps: seq<Step>)
    requires c.cursor == Unset && c.summaries == [] && Legal(c, steps)
    ensures BaseOf(c, steps) == 0
    decreases |steps|
  {
    if steps != [] && !Apply(c, steps[0]).cursor.At? {
      FromTheFirstMessage(Apply(c, steps[0]), steps[1..]);
    }
  }

  // ----- which messages count, and which stay out -----

  /** The messages that count are, in order, those a user or an assistant wrote with any content. */
  lemma {:induction false} EligibleMeaning(ms: seq<Message>, m: Message)
    ensures m in EligibleMessages(ms) <==> m in ms && (m.role == User || m.role == Assistant) && m.content != ""
    ensures EligibleMessages(ms + [m])
         == EligibleMessages(ms) + (if (m.role == User || m.role == Assistant) && m.content != "" then [m] else [])
  {
    assert (ms + [m])[..|ms|] == ms;
    if ms != [] {
      EligibleMeaning(ms[..|ms| - 1], m);
      assert ms == ms[..|ms| - 1] + [ms[|ms| - 1]];
    }
  }

  /** Where a conversation without a position starts: behind exactly the messages that are no later than its forget
      boundary or, without one, than the end of some retired summary. */
  lemma BoundaryMeaning(c: Conversation)
    requires Ordered(EligibleMessages(c.messages)) && !c.cursor.At?
    ensures var e := EligibleMessages(c.messages); var base := Forgotten(e, EffectiveCursor(c));
            && base <= |e|
            && forall i :: 0 <= i < |e| ==>
                 (i < base <==>
                    || (c.cursor.After? && e[i].at <= c.cursor.time)
                    || (c.cursor.Unset? && RetiredFrom(c.summaries, e[i].at)))
  {
    hide EligibleMessages, Forgotten, RetiredFrom;
    var e := EligibleMessages(c.messages);
    ForgottenSplits(e, EffectiveCursor(c));
    if c.cursor.Unset? {
      forall at: int ensures RetiredFrom(c.summaries, at) <==> RetiredAt(c.summaries).Some? && at <= RetiredAt(c.summaries).value {
        RetiredMeaning(c.summaries, at);
      }
    }
  }

  /** Some summary was retired at that time or later. */
  predicate RetiredFrom(summaries: seq<Summary>, at: int) {
    exists k :: 0 <= k < |summaries| && summaries[k].validTo.Some? && at <= summaries[k].validTo.value
  }

  lemma {:induction false} RetiredMeaning(summaries: seq<Summary>, at: int)
    ensures RetiredFrom(summaries, at) <==> RetiredAt(summaries).Some? && at <= RetiredAt(summaries).value
  {
    if summaries != [] {
      RetiredMeaning(summaries[1..], at);
      if RetiredFrom(summaries[1..], at) {
        var k :| 0 <= k < |summaries[1..]| && summaries[1..][k].validTo.Some? && at <= summaries[1..][k].validTo.value;
        assert summaries[k + 1] == summaries[1..][k];
      }
      if RetiredFrom(summaries, at) {
        var k :| 0 <= k < |summaries| && summaries[k].validTo.Some? && at <= summaries[k].validTo.value;
        assert k > 0 ==> summaries[1..][k - 1] == summaries[k];
      }
    }
  }

  /** An update that changes something leaves exactly one summary more if none was active, and else none; no
      summary is retired or changed in its end time, and messages are never touched. */
  lemma UpdateKeepsSummaries(c: Conversation, recent: nat, maxChars: nat, accepted: bool)
    ensures var c' := AfterUpdate(c, recent, maxChars, accepted);
            && c'.messages == c.messages && c.summaries <= c'.summaries
            && (c' != c ==>
                  && (exists k :: 0 <= k < |c'.summaries| && c'.summaries[k].validTo.None?)
                  && |c'.summaries| == |c.summaries|
                     + (if exists k :: 0 <= k < |c.summaries| && c.summaries[k].validTo.None? then 0 else 1))
  {
    var c' := AfterUpdate(c, recent, maxChars, accepted);
    if c' != c && !HasActive(c.summaries) {
      assert c'.summaries[|c.summaries|].validTo.None?;
    }
  }

  /** What was taken, complete or in part, leaves the `recent` newest messages out. */
  predicate RecentOut(c: Conversation, base: nat, recent: nat) {
    c.cursor.At? ==>
      base + c.cursor.count + (if c.cursor.offset > 0 then 1 else 0) + recent <= |EligibleMessages(c.messages)|
  }

  predicate KeepsRecent(steps: seq<Step>, recent: nat) {
    forall i :: 0 <= i < |steps| && steps[i].Update? ==> steps[i].recent == recent
  }

  lemma StepKeepsRecentOut(c: Conversation, step: Step, base: nat, done: nat, recent: nat)
    requires Ordered(c.messages) && Enabled(c, step) && (step.Update? ==> step.recent == recent)
    requires StartsAt(c, base) && CoversTo(c, base, done) && RecentOut(c, base, recent)
    ensures RecentOut(Apply(c, step), base, recent)
  {
    hide EligibleMessages, Taken, TextOf, AfterUpdate, StartsAt, Forgotten;
    match step
    case Append(m) => EligibleGrows(c.messages, m);
    case Update(_, maxChars, accepted) =>
      EligibleOrdered(c.messages);
      var done' := UpdateCovers(c, recent, maxChars, accepted, base, done);
      UpdateKeepsSummaries(c, recent, maxChars, accepted);
    case Disable(_, _) =>
    case Delete(_, _) =>
  }

  lemma {:induction false} RecentStaysOut(c: Conversation, steps: seq<Step>, base: nat, recent: nat)
    requires Ordered(c.messages) && c.cursor.At? && Covers(c, base) && Legal(c, steps)
    requires KeepsRecent(steps, recent) && RecentOut(c, base, recent)
    ensures RecentOut(Exec(c, steps), base, recent)
    decreases |steps|
  {
    hide Enabled, Apply, CoversTo, EligibleMessages, RecentOut;
    if steps != [] {
      var done :| CoversTo(c, base, done);
      StepKeepsRecentOut(c, steps[0], base, done, recent);
      var done' := StepCovers(c, steps[0], base, done);
      RecentStaysOut(Apply(c, steps[0]), steps[1..], base, recent);
    }
  }

  /** Over every run with a fixed number of recent messages, from a conversation without a position on, those
      newest messages are never compacted, not even in part. */
  lemma {:induction false} RecentNeverCompacted(c: Conversation, steps: seq<Step>, recent: nat)
    requires Ordered(c.messages) && !c.cursor.At? && c.committed == [] && Legal(c, steps) && KeepsRecent(steps, recent)
    ensures RecentOut(Exec(c, steps), BaseOf(c, steps), recent)
    decreases |steps|
  {
    hide AfterUpdate, EligibleMessages, Forgotten, CoversTo, RecentOut;
    if steps == [] {
      NotCompacted(c, 0, recent);
    } else {
      var next := Apply(c, steps[0]);
      if steps[0].Update? {
        FirstUpdateCovers(c, recent, steps[0].maxChars, steps[0].accepted);
        CursorStays(c, recent, steps[0].maxChars, steps[0].accepted);
      }
      if next.cursor.At? {
        var base := BaseOf(c, steps);
        EligibleOrdered(c.messages);
        ForgottenSplits(EligibleMessages(c.messages), EffectiveCursor(c));
        NothingTaken(c, base);
        NotCompacted(c, base, recent);
        StepKeepsRecentOut(c, steps[0], base, base, recent);
        RecentStaysOut(next, steps[1..], base, recent);
      } else {
        RecentNeverCompacted(next, steps[1..], recent);
      }
    }
  }

  lemma NotCompacted(c: Conversation, base: nat, recent: nat)
    requires !c.cursor.At?
    ensures RecentOut(c, base, recent)
  {
  }
}
