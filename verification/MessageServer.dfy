/** The server's message table: the idempotent insert and the cursor page. */
module MessageServer {
  import opened Basics
  import opened RatchetCodec

  datatype Row = Row(id: string, conversation: string, sender: string, content: Envelope, sentAt: int)

  /** The (sent_at, id) order both queries use. */
  predicate Before(a: Row, b: Row) {
    a.sentAt < b.sentAt || (a.sentAt == b.sentAt && StringLess(a.id, b.id))
  }

  lemma BeforeIsStrict(a: Row, b: Row)
    requires Before(a, b)
    ensures !Before(b, a)
  {
    if a.sentAt == b.sentAt && StringLess(b.id, a.id) {
      StringLessTransitive(a.id, b.id, a.id);
      StringLessIrreflexive(a.id);
    }
  }

  ghost predicate Ordered(rows: seq<Row>) {
    forall i, j :: 0 <= i < j < |rows| ==> Before(rows[i], rows[j])
  }

  ghost predicate UniqueIds(rows: seq<Row>) {
    forall i, j :: 0 <= i < j < |rows| ==> rows[i].id != rows[j].id
  }

  /** The table as its (sent_at, id) index lists it; the id is the primary key. */
  ghost predicate Table(rows: seq<Row>) { Ordered(rows) && UniqueIds(rows) }

  /** The row may be appended: a new primary key, newer than everything stored. */
  predicate Appendable(rows: seq<Row>, row: Row) {
    forall i :: 0 <= i < |rows| ==> rows[i].id != row.id && Before(rows[i], row)
  }

  predicate HasId(rows: seq<Row>, id: string) { exists i :: 0 <= i < |rows| && rows[i].id == id }

  /** The rows of one conversation, in table order. */
  function InConversation(rows: seq<Row>, conversation: string): (view: seq<Row>)
    ensures |view| <= |rows|
    ensures forall r :: r in view <==> r in rows && r.conversation == conversation
  {
    if rows == [] then []
    else
      var last := rows[|rows| - 1];
      var front := InConversation(rows[..|rows| - 1], conversation);
      assert rows == rows[..|rows| - 1] + [last];
      if last.conversation == conversation then front + [last] else front
  }

  lemma {:induction false} InConversationTable(rows: seq<Row>, conversation: string)
    requires Table(rows)
    ensures Table(InConversation(rows, conversation))
  {
    if rows != [] {
      InConversationTable(rows[..|rows| - 1], conversation);
    }
  }

  lemma {:induction false} InConversationAppend(rows: seq<Row>, more: seq<Row>, conversation: string)
    ensures InConversation(rows + more, conversation)
         == InConversation(rows, conversation) + InConversation(more, conversation)
  {
    if more == [] {
      assert rows + more == rows;
    } else {
      var n := |more| - 1;
      assert (rows + more)[..|rows + more| - 1] == rows + more[..n];
      InConversationAppend(rows, more[..n], conversation);
    }
  }

  /** The cursor row, looked up by id within the conversation. */
  function Position(view: seq<Row>, id: string): (i: Option<nat>)
    ensures i.Some? ==> i.value < |view| && view[i.value].id == id
    ensures i.None? ==> !HasId(view, id)
  {
    if view == [] then None
    else if view[|view| - 1].id == id then Some(|view| - 1)
    else Position(view[..|view| - 1], id)
  }

  /** WHERE (sent_at, id) < (the cursor's): the rows that come before a row, in table order. */
  function OlderThan(view: seq<Row>, cursor: Row): (older: seq<Row>)
    ensures forall r :: r in older <==> r in view && Before(r, cursor)
  {
    if view == [] then []
    else
      var last := view[|view| - 1];
      assert view == view[..|view| - 1] + [last];
      if Before(last, cursor) then OlderThan(view[..|view| - 1], cursor) + [last] else OlderThan(view[..|view| - 1], cursor)
  }

  lemma {:induction false} OlderIsPrefix(view: seq<Row>, cursor: Row, i: nat)
    requires i <= |view| && forall j :: 0 <= j < |view| ==> (Before(view[j], cursor) <==> j < i)
    ensures OlderThan(view, cursor) == view[..i]
  {
    hide Before;
    if view != [] {
      var n := |view| - 1;
      if i == |view| {
        OlderIsPrefix(view[..n], cursor, n);
        assert view[..n][..n] + [view[n]] == view[..i];
      } else {
        OlderIsPrefix(view[..n], cursor, i);
        assert view[..n][..i] == view[..i];
      }
    }
  }

  /** In the order of (sent_at, id), equal times included, what comes before a stored row is what is listed
      above it. */
  lemma CursorCuts(view: seq<Row>, i: nat)
    requires Ordered(view) && i < |view|
    ensures OlderThan(view, view[i]) == view[..i]
  {
    forall j | 0 <= j < |view| ensures Before(view[j], view[i]) <==> j < i {
      if j > i { BeforeIsStrict(view[i], view[j]); }
      if j == i && Before(view[i], view[i]) { BeforeIsStrict(view[i], view[i]); }
    }
    OlderIsPrefix(view, view[i], i);
  }

  /** WHERE sent_at < the given time, in table order. */
  function EarlierThan(view: seq<Row>, before: int): (earlier: seq<Row>)
    ensures forall r :: r in earlier <==> r in view && r.sentAt < before
  {
    if view == [] then []
    else
      var last := view[|view| - 1];
      assert view == view[..|view| - 1] + [last];
      if last.sentAt < before then EarlierThan(view[..|view| - 1], before) + [last] else EarlierThan(view[..|view| - 1], before)
  }

  lemma {:induction false} EarlierIsPrefix(view: seq<Row>, before: int, i: nat)
    requires i <= |view| && forall j :: 0 <= j < |view| ==> (view[j].sentAt < before <==> j < i)
    ensures EarlierThan(view, before) == view[..i]
  {
    if view != [] {
      var n := |view| - 1;
      if i == |view| {
        EarlierIsPrefix(view[..n], before, n);
        assert view[..n][..n] + [view[n]] == view[..i];
      } else {
        EarlierIsPrefix(view[..n], before, i);
        assert view[..n][..i] == view[..i];
      }
    }
  }

  /**
   * A page asked for by the time of its successor's oldest row misses exactly the rows that tie with it: the time
   * cursor of row i selects the rows above the first row of equal time, the id cursor all above row i.
   */
  lemma TimeCursorSkipsTies(view: seq<Row>, i: nat) returns (first: nat)
    requires Ordered(view) && i < |view|
    ensures first <= i && EarlierThan(view, view[i].sentAt) == view[..first]
    ensures forall j :: first <= j <= i ==> view[j].sentAt == view[i].sentAt
    ensures OlderThan(view, view[i]) == EarlierThan(view, view[i].sentAt) <==> first == i
  {
    first := i;
    while first > 0 && view[first - 1].sentAt == view[i].sentAt
      invariant first <= i && forall j :: first <= j <= i ==> view[j].sentAt == view[i].sentAt
    {
      first := first - 1;
    }
    forall j | 0 <= j < |view| ensures view[j].sentAt < view[i].sentAt <==> j < first {
      if j < first { assert Before(view[first - 1], view[i]) && (j < first - 1 ==> Before(view[j], view[first - 1])); }
      else if j > i { assert Before(view[i], view[j]); }
    }
    EarlierIsPrefix(view, view[i].sentAt, first);
    CursorCuts(view, i);
    assert |view[..i]| == i && |view[..first]| == first;
  }

  /**
   * One page as a client sees it: of the rows before the cursor row (of all, when there is
   * no cursor; none, when the cursor is unknown) the newest `limit`, oldest first.
   */
  function Page(view: seq<Row>, cursor: Option<string>, limit: nat): seq<Row> {
    match cursor
    case None => Newest(view, limit)
    case Some(id) =>
      match Position(view, id)
      case None => []
      case Some(i) => Newest(OlderThan(view, view[i]), limit)
  }

  function Newest(view: seq<Row>, limit: nat): seq<Row> {
    if |view| <= limit then view else view[|view| - limit..]
  }

  /**
   * A page in terms of the order alone: ascending, only rows before the cursor row, and a row before the
   * cursor row that is not in it is older than all of it, which happens only to a full page.
   */
  lemma PageByOrder(view: seq<Row>, cursor: Row, limit: nat, r: Row)
    requires Table(view) && cursor in view
    ensures var page := Page(view, Some(cursor.id), limit);
      && Ordered(page) && |page| <= limit
      && (r in page ==> r in view && Before(r, cursor))
      && (r in view && Before(r, cursor) && r !in page ==> |page| == limit && forall x <- page :: Before(r, x))
  {
    hide Before, Ordered, Newest;
    var i :| 0 <= i < |view| && view[i] == cursor;
    assert Position(view, cursor.id) == Some(i);
    CursorCuts(view, i);
    OrderedFront(view, i);
    NewestByOrder(view[..i], limit, r);
  }

  lemma OrderedFront(view: seq<Row>, i: nat)
    requires Ordered(view) && i <= |view|
    ensures Ordered(view[..i])
  {}

  lemma NewestByOrder(older: seq<Row>, limit: nat, r: Row)
    requires Ordered(older)
    ensures var page := Newest(older, limit);
      && Ordered(page) && |page| <= limit && (r in page ==> r in older)
      && (r in older && r !in page ==> |page| == limit && forall x <- page :: Before(r, x))
  {
    hide Before;
    var page := Newest(older, limit);
    if r in older && r !in page {
      var k :| 0 <= k < |older| && older[k] == r;
      NewestHolds(older, limit, k);
      forall x | x in page ensures Before(r, x) {
        var j :| 0 <= j < |page| && page[j] == x;
        assert x == older[j + (|older| - limit)];
      }
    }
  }

  lemma NewestHolds(older: seq<Row>, limit: nat, k: nat)
    requires k < |older|
    ensures |older| - limit <= k ==> older[k] in Newest(older, limit)
  {
    if limit < |older| <= k + limit { assert Newest(older, limit)[k - (|older| - limit)] == older[k]; }
  }

  /** An id cursor cuts a table at one place, equal times included, whatever has been added after it since. */
  lemma PageBeforeKnownRow(view: seq<Row>, newer: seq<Row>, i: nat, limit: nat)
    requires Table(view + newer) && i < |view|
    ensures Page(view + newer, Some(view[i].id), limit) == Newest(view[..i], limit)
  {
    var all := view + newer;
    assert all[i] == view[i];
    assert Position(all, view[i].id) == Some(i);
    CursorCuts(all, i);
    assert all[..i] == view[..i];
  }

  /** `limit` as the query string parser leaves it: absent, unparsable or 0 means 50; 1 to 200. */
  function ClampLimit(requested: Option<int>): nat {
    var n := if requested.Some? && requested.value != 0 then requested.value else 50;
    if n > 200 then 200 else if n < 1 then 1 else n
  }

  datatype Status = Created | AlreadyStored | Forbidden | Conflict

  class Server {
    var rows: seq<Row>
    var participants: map<string, set<string>>

    ghost predicate Valid() reads this { Table(rows) }

    constructor (participants: map<string, set<string>>)
      ensures Valid() && rows == [] && this.participants == participants
    {
      this.participants := participants;
      rows := [];
    }

    /**
     * POST /messages. The insert does nothing on a known id; then the stored
     * row must agree on sender, conversation and content.
     */
    method Post(userId: string, conversation: string, content: Envelope, messageId: string)
      returns (status: Status)
      requires Valid()
      modifies this`rows
      ensures Valid()
      ensures status == Forbidden <==> !(conversation in participants && userId in participants[conversation])
      ensures status == Created <==> status != Forbidden && !HasId(old(rows), messageId)
      ensures status == Created ==>
        (exists at ::
          && rows == old(rows) + [Row(messageId, conversation, userId, content, at)]
          && Appendable(old(rows), Row(messageId, conversation, userId, content, at)))
      ensures status != Created ==> rows == old(rows)
      ensures status in {Created, AlreadyStored} <==>
        exists i :: 0 <= i < |rows| && rows[i].id == messageId && rows[i].sender == userId
          && rows[i].conversation == conversation && rows[i].content == content && status != Forbidden
    {
      if !(conversation in participants && userId in participants[conversation]) { return Forbidden; }
      match Position(rows, messageId) {
        case Some(i) =>
          var previous := rows[i];
          if previous.sender != userId || previous.conversation != conversation || previous.content != content {
            return Conflict;
          }
          return AlreadyStored;
        case None =>
          var now := Now(messageId);
          var row := Row(messageId, conversation, userId, content, now);
          rows := rows + [row];
          assert rows[|rows| - 1] == row;
          return Created;
      }
    }

    /** NOW() on a clock that never runs backwards. Rows of equal time are inserted in the order of their ids;
        for any other row the clock has moved. */
    method Now(id: string) returns (now: int)
      requires Valid()
      ensures forall i :: 0 <= i < |rows| ==>
        rows[i].sentAt < now || (rows[i].sentAt == now && StringLess(rows[i].id, id))
    {
      var tick: nat :| true;
      now := tick;
      if rows != [] {
        var last := rows[|rows| - 1];
        now := last.sentAt + if tick == 0 && !StringLess(last.id, id) then 1 else tick;
        forall i | 0 <= i < |rows| ensures rows[i].sentAt < now || (rows[i].sentAt == now && StringLess(rows[i].id, id)) {
          if i < |rows| - 1 {
            assert Before(rows[i], last);
            if rows[i].sentAt == now { StringLessTransitive(rows[i].id, last.id, id); }
          }
        }
      }
    }

    /**
     * GET /messages/:conversationId, after the membership check: newest first
     * up to the limit, then reversed. The id cursor goes before the time cursor.
     */
    method GetMessages(userId: string, conversation: string, beforeId: Option<string>, before: Option<int>,
                       limit: Option<int>) returns (result: Option<seq<Row>>)
      requires Valid()
      ensures result.None? <==> !(conversation in participants && userId in participants[conversation])
      // Fifty rows when no limit or 0 is asked for, else what is asked for, but at least 1 and at most 200.
      ensures result.Some? ==>
        var view := InConversation(rows, conversation);
        var most := if limit.None? || limit.value == 0 then 50
                    else if limit.value < 1 then 1 else if limit.value > 200 then 200 else limit.value;
        result.value == if beforeId.None? && before.Some? then Newest(EarlierThan(view, before.value), most)
                        else Page(view, beforeId, most)
      ensures result.Some? && beforeId.Some? && !HasId(InConversation(rows, conversation), beforeId.value) ==> result.value == []
      ensures result.Some? && beforeId.None? && before.None? && limit == Some(200) ==>
        var view := InConversation(rows, conversation);
        result.value == if |view| <= 200 then view else view[|view| - 200..]
    {
      if !(conversation in participants && userId in participants[conversation]) { return None; }
      var view := InConversation(rows, conversation);
      InConversationTable(rows, conversation);
      var selected := view;
      if beforeId.Some? {
        var at := Position(view, beforeId.value);
        if at.None? { return Some([]); }
        selected := Select(view, view[at.value]);
      } else if before.Some? {
        selected := SelectEarlier(view, before.value);
      }
      var page := TakeNewest(selected, ClampLimit(limit));
      return Some(page);
    }

    /** The scan of the other WHERE clause. */
    static method SelectEarlier(view: seq<Row>, before: int) returns (earlier: seq<Row>)
      ensures earlier == EarlierThan(view, before)
    {
      earlier := [];
      for i := 0 to |view|
        invariant earlier == EarlierThan(view[..i], before)
      {
        assert view[..i + 1][..i] == view[..i];
        if view[i].sentAt < before { earlier := earlier + [view[i]]; }
      }
      assert view[..|view|] == view;
    }

    /** The scan of the WHERE clause. */
    static method Select(view: seq<Row>, cursor: Row) returns (older: seq<Row>)
      ensures older == OlderThan(view, cursor)
    {
      older := [];
      for i := 0 to |view|
        invariant older == OlderThan(view[..i], cursor)
      {
        assert view[..i + 1][..i] == view[..i];
        if Before(view[i], cursor) { older := older + [view[i]]; }
      }
      assert view[..|view|] == view;
    }

    /** ORDER BY ... DESC LIMIT, then reverse(). */
    static method TakeNewest(view: seq<Row>, limit: nat) returns (page: seq<Row>)
      ensures page == Newest(view, limit)
    {
      var newestFirst: seq<Row> := [];
      var i := |view|;
      while i > 0 && |newestFirst| < limit
        invariant 0 <= i <= |view|
        invariant |newestFirst| == |view| - i <= limit
        invariant forall k :: 0 <= k < |view| - i ==> newestFirst[k] == view[|view| - 1 - k]
      {
        i := i - 1;
        newestFirst := newestFirst + [view[i]];
      }
      page := Reversed(newestFirst);
      assert page == view[i..];
    }
  }

  function Reversed(rows: seq<Row>): seq<Row> {
    seq(|rows|, i requires 0 <= i < |rows| => rows[|rows| - 1 - i])
  }
}
