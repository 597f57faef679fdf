/**
 * Which rows of the other side open, from which ratchet state.
 *
 * A sync commits the rows it read one after the other, each from the state the one before
 * it left. This module says when that is possible, for one row and for a stretch of a
 * conversation, and proves that the step machine allows exactly that.
 */
module MessageOpening {
  import opened Basics
  import opened RatchetCodec
  import opened LocalStore
  import opened MessageServer
  import opened MessagingProtocol
  import opened MessagingSafety
  import opened SyncPaging

  /** From this state the row opens to the payload, and the ratchet goes on in the next state. */
  predicate Opens(suite: Suite, state: SessionState, row: Row, seed: nat, next: SessionState, payload: Payload) {
    Decrypt(suite, state, row.conversation, row.id, row.sender, row.content, seed) == Some((next, payload))
  }

  /** The state an operation on the conversation would load. */
  function StateInUse(suite: Suite, kv: map<string, Blob>, conversation: string, peerKey: string): Option<SessionState> {
    StateFor(suite, LoadSession(kv, SessionId(conversation, peerKey)), conversation, peerKey)
  }

  /** With some draw of randomness, the row opens. */
  ghost predicate CanOpen(suite: Suite, from: Option<SessionState>, row: Row) {
    from.Some? && exists seed: nat, next: SessionState, payload: Payload :: Opens(suite, from.value, row, seed, next, payload)
  }

  /** The rows open one after the other, each from the state its predecessor leaves. */
  ghost predicate Moves(suite: Suite, from: Option<SessionState>, rows: seq<Row>, to: Option<SessionState>)
    decreases |rows|
  {
    if rows == [] then from == to
    else
      && from.Some?
      && exists seed: nat, next: SessionState, payload: Payload ::
           Opens(suite, from.value, rows[0], seed, next, payload) && Moves(suite, Some(next), rows[1..], to)
  }

  /** Some row is refused from every state its predecessors can leave. */
  ghost predicate Blocked(suite: Suite, from: Option<SessionState>, rows: seq<Row>) {
    forall to :: !Moves(suite, from, rows, to)
  }

  lemma MoveNone(suite: Suite, from: Option<SessionState>)
    ensures Moves(suite, from, [], from)
  {}

  lemma MoveOne(suite: Suite, from: SessionState, row: Row, seed: nat, next: SessionState, payload: Payload)
    requires Opens(suite, from, row, seed, next, payload)
    ensures Moves(suite, Some(from), [row], Some(next))
  {
    assert [row][1..] == [];
    assert Moves(suite, Some(next), [row][1..], Some(next));
    assert Opens(suite, Some(from).value, [row][0], seed, next, payload);
  }

  /** A row that opened is what was pending of it. */
  lemma OpenedIsPending(suite: Suite, from: SessionState, row: Row, next: SessionState, payload: Payload,
                        stored: set<string>, userId: string)
    requires row.sender != userId && row.id !in stored
    requires exists seed: nat :: Opens(suite, from, row, seed, next, payload)
    ensures Moves(suite, Some(from), Pending([row], stored, userId), Some(next))
  {
    hide Opens;
    var seed: nat :| Opens(suite, from, row, seed, next, payload);
    AllPending([row], stored, userId);
    MoveOne(suite, from, row, seed, next, payload);
  }

  lemma {:induction false} MovesConcat(suite: Suite, from: Option<SessionState>, rows: seq<Row>, mid: Option<SessionState>,
                                       more: seq<Row>, to: Option<SessionState>)
    requires Moves(suite, from, rows, mid) && Moves(suite, mid, more, to)
    ensures Moves(suite, from, rows + more, to)
    decreases |rows|
  {
    hide Opens;
    if rows == [] {
      assert rows + more == more;
    } else {
      var seed, next, payload :|
        Opens(suite, from.value, rows[0], seed, next, payload) && Moves(suite, Some(next), rows[1..], mid);
      MovesConcat(suite, Some(next), rows[1..], mid, more, to);
      assert (rows + more)[1..] == rows[1..] + more;
      assert Opens(suite, from.value, (rows + more)[0], seed, next, payload);
    }
  }

  lemma {:induction false} MovesSplit(suite: Suite, from: Option<SessionState>, rows: seq<Row>, more: seq<Row>,
                                      to: Option<SessionState>) returns (mid: Option<SessionState>)
    requires Moves(suite, from, rows + more, to)
    ensures Moves(suite, from, rows, mid) && Moves(suite, mid, more, to)
    decreases |rows|
  {
    hide Opens;
    if rows == [] {
      mid := from;
      assert rows + more == more;
    } else {
      var seed, next, payload :|
        Opens(suite, from.value, (rows + more)[0], seed, next, payload) && Moves(suite, Some(next), (rows + more)[1..], to);
      assert (rows + more)[1..] == rows[1..] + more;
      mid := MovesSplit(suite, Some(next), rows[1..], more, to);
    }
  }

  /** What is blocked stays so with further rows. */
  lemma BlockedFurther(suite: Suite, from: Option<SessionState>, rows: seq<Row>, more: seq<Row>)
    requires Blocked(suite, from, rows)
    ensures Blocked(suite, from, rows + more)
  {
    forall to ensures !Moves(suite, from, rows + more, to) {
      if Moves(suite, from, rows + more, to) { var mid := MovesSplit(suite, from, rows, more, to); }
    }
  }

  /** The next row blocks exactly if it does not open from any state its predecessors can leave. */
  lemma BlockedIff(suite: Suite, from: Option<SessionState>, rows: seq<Row>, row: Row)
    ensures Blocked(suite, from, rows + [row]) <==> forall mid :: Moves(suite, from, rows, mid) ==> !CanOpen(suite, mid, row)
  {
    forall mid | Moves(suite, from, rows, mid) && CanOpen(suite, mid, row) ensures !Blocked(suite, from, rows + [row]) {
      var seed, next, payload :| Opens(suite, mid.value, row, seed, next, payload);
      MoveOne(suite, mid.value, row, seed, next, payload);
      MovesConcat(suite, from, rows, mid, [row], Some(next));
    }
    forall to | Moves(suite, from, rows + [row], to)
      ensures exists mid :: Moves(suite, from, rows, mid) && CanOpen(suite, mid, row)
    {
      var mid := MovesSplit(suite, from, rows, [row], to);
      assert CanOpen(suite, mid, row);
    }
  }

  lemma OneRowBlocksIff(suite: Suite, from: Option<SessionState>, row: Row)
    ensures Blocked(suite, from, [row]) <==> !CanOpen(suite, from, row)
  {
    hide CanOpen;
    BlockedIff(suite, from, [], row);
    assert [] + [row] == [row];
  }

  /** The rows of the other side that are not stored yet. */
  function Pending(rows: seq<Row>, stored: set<string>, userId: string): (pending: seq<Row>)
    ensures forall r :: r in pending <==> r in rows && r.sender != userId && r.id !in stored
    ensures |pending| <= |rows|
  {
    if rows == [] then []
    else
      var last := rows[|rows| - 1];
      var front := Pending(rows[..|rows| - 1], stored, userId);
      assert rows == rows[..|rows| - 1] + [last];
      if last.sender != userId && last.id !in stored then front + [last] else front
  }

  lemma {:induction false} PendingConcat(rows: seq<Row>, more: seq<Row>, stored: set<string>, userId: string)
    ensures Pending(rows + more, stored, userId) == Pending(rows, stored, userId) + Pending(more, stored, userId)
  {
    if more == [] {
      assert rows + more == rows;
    } else {
      var n := |more| - 1;
      assert (rows + more)[..|rows + more| - 1] == rows + more[..n];
      PendingConcat(rows, more[..n], stored, userId);
    }
  }

  /** Only the rows' own ids matter. */
  lemma {:induction false} PendingAgrees(rows: seq<Row>, stored: set<string>, stored': set<string>, userId: string)
    requires forall r <- rows :: r.id in stored <==> r.id in stored'
    ensures Pending(rows, stored, userId) == Pending(rows, stored', userId)
  {
    if rows != [] {
      assert rows[|rows| - 1] in rows;
      PendingAgrees(rows[..|rows| - 1], stored, stored', userId);
    }
  }

  lemma {:induction false} AllPending(rows: seq<Row>, stored: set<string>, userId: string)
    requires forall r <- rows :: r.sender != userId && r.id !in stored
    ensures Pending(rows, stored, userId) == rows
  {
    if rows != [] {
      assert rows[|rows| - 1] in rows;
      AllPending(rows[..|rows| - 1], stored, userId);
      assert rows == rows[..|rows| - 1] + [rows[|rows| - 1]];
    }
  }

  lemma {:induction false} NonePending(rows: seq<Row>, stored: set<string>, userId: string)
    requires forall r <- rows :: r.id in stored
    ensures Pending(rows, stored, userId) == []
  {
    if rows != [] {
      assert rows[|rows| - 1] in rows;
      NonePending(rows[..|rows| - 1], stored, userId);
    }
  }

  lemma {:induction false} PendingUnique(rows: seq<Row>, stored: set<string>, userId: string)
    requires UniqueIds(rows)
    ensures UniqueIds(Pending(rows, stored, userId))
  {
    if rows != [] {
      var front := rows[..|rows| - 1];
      PendingUnique(front, stored, userId);
      var pending := Pending(front, stored, userId);
      forall i | 0 <= i < |pending| ensures pending[i].id != rows[|rows| - 1].id {
        assert pending[i] in front;
      }
    }
  }

  // ---- The step machine

  /** The machine can commit a row of the other side that is not stored exactly if it opens from the state in use. */
  lemma CommitReceivedIff(a: Account, w: World, row: Row, peerKey: string)
    requires row in w.rows && row.sender != a.userId && row.id !in w.db.messages
    ensures (exists m: Message, seed: nat :: Enabled(a, w, CommitReceived(row, m, peerKey, seed)))
      <==> CanOpen(a.suite, StateInUse(a.suite, w.db.kv, row.conversation, peerKey), row)
  {
    var from := StateInUse(a.suite, w.db.kv, row.conversation, peerKey);
    forall m: Message, seed: nat | Enabled(a, w, CommitReceived(row, m, peerKey, seed)) ensures CanOpen(a.suite, from, row) {
      var opening := Decrypt(a.suite, from.value, row.conversation, row.id, row.sender, row.content, seed).value;
      assert Opens(a.suite, from.value, row, seed, opening.0, opening.1);
    }
    if CanOpen(a.suite, from, row) {
      var seed, next, payload :| Opens(a.suite, from.value, row, seed, next, payload);
      var m := Message(row.id, row.conversation, row.sender, payload, row.sentAt, true, false, false);
      assert Enabled(a, w, CommitReceived(row, m, peerKey, seed));
    }
  }

  /** The steps commit these rows, in this order, and do nothing else. */
  ghost predicate Receives(steps: seq<Step>, rows: seq<Row>, peerKey: string) {
    && |steps| == |rows|
    && forall i :: 0 <= i < |steps| ==> steps[i].CommitReceived? && steps[i].row == rows[i] && steps[i].peerKey == peerKey
  }

  /** Rows of one conversation that a sync has to commit. */
  ghost predicate ToCommit(a: Account, w: World, rows: seq<Row>, conversation: string) {
    && UniqueIds(rows)
    && forall r <- rows :: r in w.rows && r.conversation == conversation && r.sender != a.userId && r.id !in w.db.messages
  }

  /** Committing one row: what the machine's step leaves. */
  lemma ReceiveStep(a: Account, w: World, row: Row, m: Message, peerKey: string, seed: nat)
    requires Inv(a, w) && Enabled(a, w, CommitReceived(row, m, peerKey, seed))
    ensures var w' := Next(a, w, CommitReceived(row, m, peerKey, seed));
      var from := StateInUse(a.suite, w.db.kv, row.conversation, peerKey);
      var to := StateInUse(a.suite, w'.db.kv, row.conversation, peerKey);
      && Inv(a, w') && w'.rows == w.rows && w'.db.messages.Keys == w.db.messages.Keys + {row.id}
      && from.Some? && to.Some? && Opens(a.suite, from.value, row, seed, to.value, m.payload)
  {
    hide Inv, Enabled, Next;
    StepKeepsInv(a, w, CommitReceived(row, m, peerKey, seed));
    ReceiveEffect(a, w, row, m, peerKey, seed);
  }

  lemma ReceiveEffect(a: Account, w: World, row: Row, m: Message, peerKey: string, seed: nat)
    requires Enabled(a, w, CommitReceived(row, m, peerKey, seed))
    ensures var w' := Next(a, w, CommitReceived(row, m, peerKey, seed));
      var from := StateInUse(a.suite, w.db.kv, row.conversation, peerKey);
      var to := StateInUse(a.suite, w'.db.kv, row.conversation, peerKey);
      && w'.rows == w.rows && w'.db.messages.Keys == w.db.messages.Keys + {row.id}
      && from.Some? && to.Some? && Opens(a.suite, from.value, row, seed, to.value, m.payload)
  {
    hide Decrypt;
  }

  lemma StillToCommit(a: Account, w: World, w': World, rows: seq<Row>, conversation: string)
    requires rows != [] && ToCommit(a, w, rows, conversation)
    requires w'.rows == w.rows && w'.db.messages.Keys == w.db.messages.Keys + {rows[0].id}
    ensures ToCommit(a, w', rows[1..], conversation)
  {
    forall r | r in rows[1..]
      ensures r in w'.rows && r.conversation == conversation && r.sender != a.userId && r.id !in w'.db.messages
    {
      var i :| 0 <= i < |rows[1..]| && rows[1..][i] == r;
      assert r == rows[i + 1] && r in rows;
    }
  }

  /** A run that commits the rows one after the other opens each from the state its predecessors left. */
  lemma {:induction false} ReceivingMoves(a: Account, w: World, rows: seq<Row>, conversation: string, peerKey: string,
                                          steps: seq<Step>, w': World)
    requires Inv(a, w) && ToCommit(a, w, rows, conversation) && Receives(steps, rows, peerKey) && Reaches(a, w, steps, w')
    ensures Moves(a.suite, StateInUse(a.suite, w.db.kv, conversation, peerKey), rows,
                  StateInUse(a.suite, w'.db.kv, conversation, peerKey))
    decreases |steps|
  {
    hide Inv, ToCommit, StateInUse, Enabled, Next;
    if rows != [] {
      var step := steps[0];
      RowToCommit(a, w, rows, conversation);
      var w1 := Next(a, w, step);
      ReceiveStep(a, w, step.row, step.message, peerKey, step.seed);
      StillToCommit(a, w, w1, rows, conversation);
      ReceivingMoves(a, w1, rows[1..], conversation, peerKey, steps[1..], w');
    }
  }

  lemma RowToCommit(a: Account, w: World, rows: seq<Row>, conversation: string)
    requires rows != [] && ToCommit(a, w, rows, conversation)
    ensures rows[0] in w.rows && rows[0].conversation == conversation
      && rows[0].sender != a.userId && rows[0].id !in w.db.messages
  {
    assert rows[0] in rows;
  }

  /** Where they open one after the other, there is such a run. */
  lemma {:induction false} MovesReceive(a: Account, w: World, rows: seq<Row>, conversation: string, peerKey: string,
                                        to: Option<SessionState>) returns (steps: seq<Step>, w': World)
    requires Inv(a, w) && ToCommit(a, w, rows, conversation)
    requires Moves(a.suite, StateInUse(a.suite, w.db.kv, conversation, peerKey), rows, to)
    ensures Receives(steps, rows, peerKey) && Reaches(a, w, steps, w')
    ensures w'.db.messages.Keys == w.db.messages.Keys + Ids(rows)
    decreases |rows|
  {
    hide Inv, ToCommit, StateInUse, Enabled, Next, Opens, Decrypt, Ids, Receives, Reaches;
    if rows == [] {
      steps, w' := [], w;
      NothingReceived(a, w, peerKey);
    } else {
      var row := rows[0];
      RowToCommit(a, w, rows, conversation);
      var from := StateInUse(a.suite, w.db.kv, conversation, peerKey);
      var seed, next, payload :| Opens(a.suite, from.value, row, seed, next, payload) && Moves(a.suite, Some(next), rows[1..], to);
      var step := ReceivingStep(a, w, row, peerKey, from.value, seed, next, payload);
      var w1 := Next(a, w, step);
      ReceiveStep(a, w, row, step.message, peerKey, seed);
      SameOpening(a.suite, from.value, row, seed, next, payload,
                  StateInUse(a.suite, w1.db.kv, conversation, peerKey).value, step.message.payload);
      StillToCommit(a, w, w1, rows, conversation);
      var rest;
      rest, w' := MovesReceive(a, w1, rows[1..], conversation, peerKey, to);
      steps := [step] + rest;
      OneMoreReceived(a, w, step, rest, w', rows, peerKey);
    }
  }

  lemma NothingReceived(a: Account, w: World, peerKey: string)
    ensures Receives([], [], peerKey) && Reaches(a, w, [], w) && Ids([]) == {}
  {}

  lemma OneMoreReceived(a: Account, w: World, step: Step, rest: seq<Step>, w': World, rows: seq<Row>, peerKey: string)
    requires rows != [] && step.CommitReceived? && step.row == rows[0] && step.peerKey == peerKey
    requires Enabled(a, w, step) && Receives(rest, rows[1..], peerKey) && Reaches(a, Next(a, w, step), rest, w')
    ensures Receives([step] + rest, rows, peerKey) && Reaches(a, w, [step] + rest, w')
    ensures Ids(rows) == {rows[0].id} + Ids(rows[1..])
  {
    hide Enabled, Next;
    assert ([step] + rest)[1..] == rest;
    assert rows == [rows[0]] + rows[1..];
  }

  lemma SameOpening(suite: Suite, state: SessionState, row: Row, seed: nat, next: SessionState, payload: Payload,
                    next': SessionState, payload': Payload)
    requires Opens(suite, state, row, seed, next, payload) && Opens(suite, state, row, seed, next', payload')
    ensures next == next'
  {}

  lemma ReceivingStep(a: Account, w: World, row: Row, peerKey: string, from: SessionState, seed: nat,
                      next: SessionState, payload: Payload) returns (step: Step)
    requires row in w.rows && row.sender != a.userId && row.id !in w.db.messages
    requires StateInUse(a.suite, w.db.kv, row.conversation, peerKey) == Some(from) && Opens(a.suite, from, row, seed, next, payload)
    ensures step.CommitReceived? && step.row == row && step.peerKey == peerKey && step.seed == seed && Enabled(a, w, step)
  {
    step := CommitReceived(row, Message(row.id, row.conversation, row.sender, payload, row.sentAt, true, false, false),
                           peerKey, seed);
  }

  /** The machine can commit what is pending in a stretch of a conversation, in order, exactly if each row opens from
      a state its predecessors leave; then the whole stretch is stored. */
  lemma ReceiveRunIff(a: Account, w: World, view: seq<Row>, conversation: string, peerKey: string, lo: nat, hi: nat)
    requires Inv(a, w) && view == InConversation(w.rows, conversation) && lo <= hi <= |view|
    ensures var pending, stored := Pending(view[lo..hi], w.db.messages.Keys, a.userId), w.db.messages.Keys;
      (exists steps: seq<Step>, w': World :: Receives(steps, pending, peerKey) && Reaches(a, w, steps, w')
         && w'.db.messages.Keys == stored + PeerIds(view[lo..hi], a.userId))
        <==> !Blocked(a.suite, StateInUse(a.suite, w.db.kv, conversation, peerKey), pending)
  {
    hide Inv, StateInUse, Reaches, Moves, Receives;
    var pending := Pending(view[lo..hi], w.db.messages.Keys, a.userId);
    PendingToCommit(a, w, view, conversation, lo, hi);
    var from := StateInUse(a.suite, w.db.kv, conversation, peerKey);
    forall steps: seq<Step>, w': World | Receives(steps, pending, peerKey) && Reaches(a, w, steps, w')
      ensures !Blocked(a.suite, from, pending)
    {
      ReceivingMoves(a, w, pending, conversation, peerKey, steps, w');
    }
    if !Blocked(a.suite, from, pending) {
      var to :| Moves(a.suite, from, pending, to);
      var steps, w' := MovesReceive(a, w, pending, conversation, peerKey, to);
      PendingIds(view[lo..hi], w.db.messages.Keys, a.userId);
    }
  }

  /** Storing what is pending stores all of the other side. */
  lemma PendingIds(rows: seq<Row>, stored: set<string>, userId: string)
    ensures stored + Ids(Pending(rows, stored, userId)) == stored + PeerIds(rows, userId)
  {}

  lemma PendingToCommit(a: Account, w: World, view: seq<Row>, conversation: string, lo: nat, hi: nat)
    requires Inv(a, w) && view == InConversation(w.rows, conversation) && lo <= hi <= |view|
    ensures ToCommit(a, w, Pending(view[lo..hi], w.db.messages.Keys, a.userId), conversation)
  {
    hide Inv, Ordered;
    var part := view[lo..hi];
    assert Table(w.rows) by { TableOf(a, w); }
    InConversationTable(w.rows, conversation);
    PendingUnique(part, w.db.messages.Keys, a.userId);
    forall r | r in Pending(part, w.db.messages.Keys, a.userId) ensures r in w.rows && r.conversation == conversation {
      assert r in part && r in view;
    }
  }

  lemma TableOf(a: Account, w: World)
    requires Inv(a, w)
    ensures Table(w.rows)
  {}

  // ---- What the state in use is

  /** In the database is the state the committed steps of the session lead to, if it has any. */
  lemma StateIsReplay(a: Account, w: World, conversation: string, peerKey: string)
    requires Inv(a, w)
    ensures var sid := SessionId(conversation, peerKey);
      StateInUse(a.suite, w.db.kv, conversation, peerKey)
        == if sid in w.sessions then Some(Current(a.suite, w.sessions[sid])) else StateFor(a.suite, None, conversation, peerKey)
  {
    var sid := SessionId(conversation, peerKey);
    if sid in w.sessions { assert SessionOk(a, w.db.kv, sid, w.sessions[sid]); }
  }

  ghost predicate SameSession(w: World, w': World, sid: string) {
    if sid in w.sessions then sid in w'.sessions && w'.sessions[sid] == w.sessions[sid] else sid !in w'.sessions
  }

  lemma SameSessionSameState(a: Account, w: World, w': World, conversation: string, peerKey: string)
    requires Inv(a, w) && Inv(a, w') && SameSession(w, w', SessionId(conversation, peerKey))
    ensures StateInUse(a.suite, w'.db.kv, conversation, peerKey) == StateInUse(a.suite, w.db.kv, conversation, peerKey)
  {
    hide Inv, StateInUse, Current;
    StateIsReplay(a, w, conversation, peerKey);
    StateIsReplay(a, w', conversation, peerKey);
  }

  // ---- Rows nothing opens

  /** Nothing opens the row, whatever state the ratchet is in. */
  ghost predicate Unopenable(suite: Suite, row: Row) {
    forall from: Option<SessionState> :: !CanOpen(suite, from, row)
  }

  lemma UnopenableBlocks(suite: Suite, from: Option<SessionState>, rows: seq<Row>, row: Row)
    requires Unopenable(suite, row)
    ensures Blocked(suite, from, rows + [row])
  {
    BlockedIff(suite, from, rows, row);
  }

  /** A row that blocks its conversation can be there: the other side may post what is no envelope, or one of
      another version. */
  lemma MalformedRowBlocks(a: Account, row: Row, peerKey: string)
    requires row.sender != a.userId && row.sender != ME && (row.content.Malformed? || row.content.version != 1)
    ensures var w := EMPTY.(rows := [row]);
      && Reachable(a, w) && InConversation(w.rows, row.conversation) == [row]
      && Pending([row], w.db.messages.Keys, a.userId) == [row]
      && Blocked(a.suite, StateInUse(a.suite, w.db.kv, row.conversation, peerKey), [row])
  {
    hide Reachable, Blocked, StateInUse, Decrypt;
    OnePost(a, row);
    assert Unopenable(a.suite, row) by { NothingOpens(a.suite, row); }
    UnopenableBlocks(a.suite, StateInUse(a.suite, EMPTY.db.kv, row.conversation, peerKey), [], row);
    assert [] + [row] == [row];
    AllPending([row], EMPTY.db.messages.Keys, a.userId);
    assert InConversation([row][..0], row.conversation) == [];
  }

  lemma OnePost(a: Account, row: Row)
    requires row.sender != a.userId && row.sender != ME
    ensures Reachable(a, EMPTY.(rows := [row]))
  {
    assert [] + [row] == [row];
    RunOne(a, EMPTY, PeerPost(row));
    hide Reaches;
    assert Reaches(a, EMPTY, [PeerPost(row)], EMPTY.(rows := [row]));
  }

  lemma NothingOpens(suite: Suite, row: Row)
    requires row.content.Malformed? || row.content.version != 1
    ensures Unopenable(suite, row)
  {}
}
