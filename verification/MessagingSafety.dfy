/** What the messaging protocol promises, over every run from an empty world. */
module MessagingSafety {
  import opened Basics
  import opened RatchetCodec
  import opened LocalStore
  import opened MessageServer
  import opened Runs
  import opened MessagingProtocol

  /** `w` is reached by some run, cut short anywhere. */
  ghost predicate Reachable(a: Account, w: World) { exists steps :: Reaches(a, EMPTY, steps, w) }

  lemma ReachableInv(a: Account, w: World)
    requires Reachable(a, w)
    ensures Inv(a, w)
  {
    var steps :| Reaches(a, EMPTY, steps, w);
    EmptyInv(a);
    RunKeepsInv(a, EMPTY, steps, w);
  }

  /** A committed outgoing message has at most one server row; that row is its own, with exactly the
      committed envelope; and once it is marked sent it has one. */
  lemma ExactlyOnce(a: Account, w: World, id: string)
    requires Reachable(a, w) && id in w.outgoing
    ensures forall i, j :: 0 <= i < |w.rows| && 0 <= j < |w.rows| && w.rows[i].id == id == w.rows[j].id ==> i == j
    ensures forall i :: 0 <= i < |w.rows| && w.rows[i].id == id ==>
      w.rows[i].sender == a.userId && w.rows[i].conversation == w.outgoing[id].conversation
      && w.rows[i].content == w.outgoing[id].envelope
    ensures Own(w.db, id) && (w.db.messages[id].isSent ==> HasId(w.rows, id))
  {
    hide Inv, Reachable, UniqueIds;
    ReachableInv(a, w);
    forall i | 0 <= i < |w.rows| && w.rows[i].id == id
      ensures w.rows[i].sender == a.userId && w.rows[i].conversation == w.outgoing[id].conversation
        && w.rows[i].content == w.outgoing[id].envelope
    {
      RowOfCommitted(a, w, w.rows[i]);
    }
    IdsAreUnique(a, w);
    SentIsThere(a, w, id);
  }

  lemma RowOfCommitted(a: Account, w: World, row: Row)
    requires Inv(a, w) && row in w.rows && row.id in w.outgoing
    ensures row.sender == a.userId && row.conversation == w.outgoing[row.id].conversation
    ensures row.content == w.outgoing[row.id].envelope
  {
    RowIsOk(a, w, row);
  }

  lemma IdsAreUnique(a: Account, w: World)
    requires Inv(a, w)
    ensures forall i, j :: 0 <= i < |w.rows| && 0 <= j < |w.rows| && w.rows[i].id == w.rows[j].id ==> i == j
  {}

  lemma SentIsThere(a: Account, w: World, id: string)
    requires Inv(a, w) && id in w.outgoing
    ensures Own(w.db, id) && (w.db.messages[id].isSent ==> HasId(w.rows, id))
  {
    assert OwnRow(a, w.db, w.rows, id, w.outgoing[id]);
  }

  /** From its commit on, whatever happens and wherever the client crashes, every transmission and every
      row under a message's id carries the envelope saved in the commit transaction. */
  lemma CommitFixesEnvelope(a: Account, w: World, m: Message, peerKey: string, seed: nat,
                            steps: seq<Step>, w': World)
    requires Reachable(a, w) && Enabled(a, w, CommitOutgoing(m, peerKey, seed))
    requires Reaches(a, Next(a, w, CommitOutgoing(m, peerKey, seed)), steps, w')
    ensures var saved := LoadOutbox(Next(a, w, CommitOutgoing(m, peerKey, seed)).db.kv, m.id);
      && saved.Some?
      && (forall t <- w'.wire :: t.id == m.id ==> t.content == saved.value && t.conversation == m.conversation)
      && (forall i :: 0 <= i < |w'.rows| && w'.rows[i].id == m.id ==>
            w'.rows[i].content == saved.value && w'.rows[i].sender == a.userId
            && w'.rows[i].conversation == m.conversation)
  {
    ReachableInv(a, w);
    var commit := CommitOutgoing(m, peerKey, seed);
    var w1 := Next(a, w, commit);
    var o := w1.outgoing[m.id];
    StepKeepsInv(a, w, commit);
    RunKeepsInv(a, w1, steps, w');
    RunIsLater(a, w1, steps, w');
    hide Enabled, Inv;
    AfterCommit(a, w', m, o);
  }

  lemma AfterCommit(a: Account, w: World, m: Message, o: Outgoing)
    requires Inv(a, w) && m.id in w.outgoing && w.outgoing[m.id] == o && o.conversation == m.conversation
    ensures forall t <- w.wire :: t.id == m.id ==> t.content == o.envelope && t.conversation == m.conversation
    ensures forall i :: 0 <= i < |w.rows| && w.rows[i].id == m.id ==>
      w.rows[i].content == o.envelope && w.rows[i].sender == a.userId && w.rows[i].conversation == m.conversation
  {
    forall i | 0 <= i < |w.rows| && w.rows[i].id == m.id
      ensures w.rows[i].content == o.envelope && w.rows[i].sender == a.userId
        && w.rows[i].conversation == m.conversation
    {
      assert RowOk(a, w.wire, w.outgoing, w.rows[i]);
    }
  }

  /** What reached the network used each ratchet step once: transmissions made with the same step of the
      same session are the same transmission, and each is the envelope that step produces. */
  lemma RatchetStepsAreNotReused(a: Account, w: World, t1: Transmission, t2: Transmission)
    requires Reachable(a, w) && t1 in w.wire && t2 in w.wire
    ensures t1.id in w.outgoing && t2.id in w.outgoing
    ensures var o1, o2 := w.outgoing[t1.id], w.outgoing[t2.id];
      && (o1.sessionId == o2.sessionId && o1.step == o2.step <==> t1 == t2)
      && OutgoingOk(a, w.sessions, t1.id, o1)
      && EnvelopeAt(a, w.sessions[o1.sessionId], o1.step, t1.conversation) == Some(t1.content)
  {
    ReachableInv(a, w);
    var o1, o2 := w.outgoing[t1.id], w.outgoing[t2.id];
    assert OutgoingOk(a, w.sessions, t1.id, o1) && OutgoingOk(a, w.sessions, t2.id, o2);
  }

  /** The header a sending step of a session produces. */
  function HeaderAt(a: Account, s: Session, i: nat): Option<Header>
    requires i < |s.events| && s.events[i].Sent?
  {
    match a.suite.send(Replay(a.suite, SessionStart(a.suite, s), s.events[..i]), s.events[i].seed)
    case None => None
    case Some((_, header, _)) => Some(header)
  }

  /** Ratchet freshness: two sending steps of one session never yield the same header. */
  ghost predicate FreshHeaders(a: Account, s: Session) {
    forall i, j :: 0 <= i < j < |s.events| && s.events[i].Sent? && s.events[j].Sent? && HeaderAt(a, s, i).Some? ==>
      HeaderAt(a, s, i) != HeaderAt(a, s, j)
  }

  /** So where a ratchet never repeats a header, no two transmissions of a session share one. */
  lemma HeadersOnTheWireAreUnique(a: Account, w: World, t1: Transmission, t2: Transmission)
    requires Reachable(a, w) && t1 in w.wire && t2 in w.wire && t1 != t2
    requires t1.id in w.outgoing && t2.id in w.outgoing
    requires w.outgoing[t1.id].sessionId == w.outgoing[t2.id].sessionId
    requires w.outgoing[t1.id].sessionId in w.sessions && FreshHeaders(a, w.sessions[w.outgoing[t1.id].sessionId])
    ensures t1.content.Envelope? && t2.content.Envelope? && t1.content.header != t2.content.header
  {
    RatchetStepsAreNotReused(a, w, t1, t2);
    RatchetStepsAreNotReused(a, w, t2, t1);
    var o1, o2 := w.outgoing[t1.id], w.outgoing[t2.id];
    var s := w.sessions[o1.sessionId];
    HeaderOfEnvelope(a, s, o1.step, t1.conversation);
    HeaderOfEnvelope(a, s, o2.step, t2.conversation);
  }

  lemma HeaderOfEnvelope(a: Account, s: Session, i: nat, conversation: string)
    requires i < |s.events| && s.events[i].Sent? && EnvelopeAt(a, s, i, conversation).Some?
    ensures var envelope := EnvelopeAt(a, s, i, conversation).value;
      envelope.Envelope? && HeaderAt(a, s, i) == Some(envelope.header)
  {}

  /** A stored message of the other side is a row of the server's: its sender, conversation and time, and the
      payload its content opened to under the state that the session's earlier steps lead to. */
  lemma StoredPeerMessageIsOpening(a: Account, w: World, id: string)
    requires Reachable(a, w) && id in w.db.messages && !Own(w.db, id)
    ensures id in w.incoming
    ensures var m, n := w.db.messages[id], w.incoming[id];
      && n.row in w.rows && n.row.id == id && n.row.sender == m.sender && n.row.conversation == m.conversation
      && n.row.sentAt == m.timestamp && m.isSent
      && n.sessionId in w.sessions && n.step < |w.sessions[n.sessionId].events|
      && var s := w.sessions[n.sessionId];
      && s.events[n.step].Received? && s.events[n.step].id == id
      && OpeningAt(a, s, n.step, n.row) == Some(m.payload)
  {
    ReachableInv(a, w);
    assert IncomingRow(a, w.db.messages, w.rows, id, w.incoming[id]);
    assert IncomingOk(a, w.sessions, id, w.incoming[id]);
  }

  /** Messages of the other side stand in a list in the order the server's table has their rows, each dated by its
      row; only rows of equal time may change places. */
  ghost predicate InServerOrder(rows: seq<Row>, list: seq<Message>) {
    forall i, j, x, y ::
      0 <= i < j < |list| && list[i].sender != ME && list[j].sender != ME &&
      0 <= x < |rows| && 0 <= y < |rows| && rows[x].id == list[i].id && rows[y].id == list[j].id ==>
        && list[i].timestamp == rows[x].sentAt && list[j].timestamp == rows[y].sentAt
        && (x < y || rows[x].sentAt == rows[y].sentAt)
  }

  /** So it is with whatever is listed by time of what is stored. */
  lemma ListedInServerOrder(a: Account, w: World, list: seq<Message>)
    requires Inv(a, w) && InTimeOrder(list)
    requires forall m <- list :: m.id in w.db.messages && w.db.messages[m.id] == m
    ensures InServerOrder(w.rows, list)
  {
    hide Inv, Ordered;
    RowsOrdered(a, w);
    forall i, j, x, y |
      0 <= i < j < |list| && list[i].sender != ME && list[j].sender != ME &&
      0 <= x < |w.rows| && 0 <= y < |w.rows| && w.rows[x].id == list[i].id && w.rows[y].id == list[j].id
      ensures list[i].timestamp == w.rows[x].sentAt && list[j].timestamp == w.rows[y].sentAt
      ensures x < y || w.rows[x].sentAt == w.rows[y].sentAt
    {
      StoredTime(a, w, list[i].id, x);
      StoredTime(a, w, list[j].id, y);
      if y <= x { EarlierInTable(w.rows, y, x); }
    }
  }

  lemma RowsOrdered(a: Account, w: World)
    requires Inv(a, w)
    ensures Ordered(w.rows)
  {}

  lemma EarlierInTable(rows: seq<Row>, i: nat, j: nat)
    requires Ordered(rows) && i <= j < |rows|
    ensures rows[i].sentAt <= rows[j].sentAt
  {
    if i < j { assert Before(rows[i], rows[j]); }
  }

  lemma StoredTime(a: Account, w: World, id: string, i: nat)
    requires Inv(a, w) && id in w.db.messages && !Own(w.db, id) && i < |w.rows| && w.rows[i].id == id
    ensures w.db.messages[id].timestamp == w.rows[i].sentAt && w.db.messages[id].isSent
  {
    var n := w.incoming[id];
    assert IncomingRow(a, w.db.messages, w.rows, id, n);
    hide IncomingRow;
    IdsAreUnique(a, w);
    var k :| 0 <= k < |w.rows| && w.rows[k] == n.row;
    assert k == i;
  }

  /** An own message keeps the text, time and conversation it was committed with, whatever receipts come: they are
      what its ratchet step sealed. */
  lemma OwnMessageIsAsCommitted(a: Account, w: World, id: string)
    requires Reachable(a, w) && Own(w.db, id)
    ensures id in w.outgoing
    ensures var m, o := w.db.messages[id], w.outgoing[id];
      && m == o.message.(isSent := m.isSent, isRead := m.isRead, isDelivered := m.isDelivered)
      && o.sessionId in w.sessions && o.step < |w.sessions[o.sessionId].events|
      && var s := w.sessions[o.sessionId];
      && s.events[o.step].Sent? && s.events[o.step].id == id && s.events[o.step].payload == m.payload
      && EnvelopeAt(a, s, o.step, m.conversation) == Some(o.envelope)
  {
    ReachableInv(a, w);
    assert OwnRow(a, w.db, w.rows, id, w.outgoing[id]);
    assert OutgoingOk(a, w.sessions, id, w.outgoing[id]);
  }

  /** In every reachable world the stored ratchet states are exactly the replays of the committed steps:
      no step is lost by a crash, and none is stored without its message. */
  lemma StoredStateIsReplay(a: Account, w: World, sid: string)
    requires Reachable(a, w)
    ensures LoadSession(w.db.kv, sid)
         == if sid in w.sessions then Some(Current(a.suite, w.sessions[sid])) else None
    ensures sid in w.sessions ==> forall i :: 0 <= i < |w.sessions[sid].events| ==>
      var e := w.sessions[sid].events[i]; e.id in w.db.messages && (e.Sent? <==> w.db.messages[e.id].sender == ME)
  {
    ReachableInv(a, w);
    if sid in w.sessions {
      assert SessionOk(a, w.db.kv, sid, w.sessions[sid]);
      forall i | 0 <= i < |w.sessions[sid].events|
        ensures var e := w.sessions[sid].events[i];
          e.id in w.db.messages && (e.Sent? <==> w.db.messages[e.id].sender == ME)
      {
        StepHasItsMessage(a, w, sid, i);
      }
    }
  }

  lemma StepHasItsMessage(a: Account, w: World, sid: string, i: nat)
    requires Inv(a, w) && sid in w.sessions && i < |w.sessions[sid].events|
    ensures var e := w.sessions[sid].events[i];
      e.id in w.db.messages && (e.Sent? <==> w.db.messages[e.id].sender == ME)
  {
    var e := w.sessions[sid].events[i];
    assert EventOk(w.outgoing, w.incoming, sid, i, e);
    if e.Sent? { assert OwnRow(a, w.db, w.rows, e.id, w.outgoing[e.id]); }
    else { assert IncomingRow(a, w.db.messages, w.rows, e.id, w.incoming[e.id]); }
  }

  /** A peer's message is committed by at most one ratchet step, in one session. */
  lemma PeerMessageCommittedOnce(a: Account, w: World, sid: string, i: nat, sid': string, j: nat)
    requires Reachable(a, w) && sid in w.sessions && sid' in w.sessions
    requires i < |w.sessions[sid].events| && j < |w.sessions[sid'].events|
    requires w.sessions[sid].events[i].id == w.sessions[sid'].events[j].id
    ensures sid == sid' && i == j
  {
    ReachableInv(a, w);
    var e, e' := w.sessions[sid].events[i], w.sessions[sid'].events[j];
    assert EventOk(w.outgoing, w.incoming, sid, i, e) && EventOk(w.outgoing, w.incoming, sid', j, e');
    StepHasItsMessage(a, w, sid, i);
    StepHasItsMessage(a, w, sid', j);
  }

  /** The outbox: an own row not yet sent holds the envelope of every earlier transmission of its id; a
      sent one holds none. */
  lemma OutboxHoldsWhatWasSent(a: Account, w: World, id: string)
    requires Reachable(a, w) && Own(w.db, id)
    ensures id in w.outgoing
    ensures if w.db.messages[id].isSent then OutboxKey(id) !in w.db.kv
            else LoadOutbox(w.db.kv, id) == Some(w.outgoing[id].envelope)
    ensures forall t <- w.wire :: t.id == id ==>
      t == Transmission(id, w.db.messages[id].conversation, w.outgoing[id].envelope)
  {
    ReachableInv(a, w);
    assert OwnRow(a, w.db, w.rows, id, w.outgoing[id]);
  }

  /** From every reachable world, wherever the last crash was, a pending message can still be delivered:
      sending the stored envelope again, at most one insert, and the acknowledgement complete it. */
  lemma PendingCanAlwaysBeDelivered(a: Account, w: World, id: string, now: int)
    returns (steps: seq<Step>, w': World)
    requires Reachable(a, w) && Own(w.db, id) && !w.db.messages[id].isSent
    requires forall i :: 0 <= i < |w.rows| ==> w.rows[i].sentAt < now
    ensures Reaches(a, w, steps, w') && id in w.outgoing
    ensures Own(w'.db, id) && w'.db.messages[id].isSent
    ensures StoredAs(w'.rows, a.userId, id, w.outgoing[id].conversation, w.outgoing[id].envelope)
    ensures w'.rows == if HasId(w.rows, id) then w.rows
      else w.rows + [Row(id, w.outgoing[id].conversation, a.userId, w.outgoing[id].envelope, now)]
  {
    hide Inv, Reaches, StoredAs;
    ReachableInv(a, w);
    OwnKeyed(a, w, id);
    PendingEnvelope(a, w, id);
    steps, w' := DeliverPending(a, w, id, w.db.messages[id], w.outgoing[id], now);
  }

  lemma DeliverPending(a: Account, w: World, id: string, m: Message, o: Outgoing,
      now: int) returns (steps: seq<Step>, w': World)
    requires Inv(a, w) && Own(w.db, id) && w.db.messages[id] == m && !m.isSent && m.conversation == o.conversation
    requires id in w.outgoing && w.outgoing[id] == o && LoadOutbox(w.db.kv, id) == Some(o.envelope)
    requires forall i :: 0 <= i < |w.rows| ==> w.rows[i].sentAt < now
    ensures Reaches(a, w, steps, w') && w'.db == AfterSent(w.db, m.(isSent := true))
    ensures StoredAs(w'.rows, a.userId, id, o.conversation, o.envelope)
    ensures w'.rows == if HasId(w.rows, id) then w.rows
      else w.rows + [Row(id, o.conversation, a.userId, o.envelope, now)]
  {
    hide *;
    var t := Transmission(id, o.conversation, o.envelope);
    TransmitOne(a, w, id, t);
    var accept, w2 := Store(a, w, t, now);
    w' := w2.(db := AfterSent(w.db, m.(isSent := true)));
    Acknowledge(a, w2, id, o);
    steps := Chained(a, w, [Transmit(id)], w.(wire := w.wire + {t}), accept, w2, [MarkSent(id)], w');
  }

  lemma TransmitOne(a: Account, w: World, id: string, t: Transmission)
    requires Own(w.db, id) && !w.db.messages[id].isSent && LoadOutbox(w.db.kv, id) == Some(t.content)
    requires t == Transmission(id, w.db.messages[id].conversation, t.content)
    ensures Reaches(a, w, [Transmit(id)], w.(wire := w.wire + {t}))
  {
    RunOne(a, w, Transmit(id));
  }

  lemma PendingEnvelope(a: Account, w: World, id: string)
    requires Inv(a, w) && Own(w.db, id) && !w.db.messages[id].isSent
    ensures id in w.outgoing && LoadOutbox(w.db.kv, id) == Some(w.outgoing[id].envelope)
    ensures w.db.messages[id].conversation == w.outgoing[id].conversation
  {
    assert OwnRow(a, w.db, w.rows, id, w.outgoing[id]);
  }

  lemma Chain(a: Account, w0: World, s: seq<Step>, w1: World, t: seq<Step>, w2: World)
    requires Reaches(a, w0, s, w1) && Reaches(a, w1, t, w2)
    ensures Reaches(a, w0, s + t, w2)
  {
    RunConcat(Protocol(a), w0, s, w1, t, w2);
  }

  lemma Chained(a: Account, w0: World, s: seq<Step>, w1: World, t: seq<Step>, w2: World, u: seq<Step>, w3: World)
    returns (steps: seq<Step>)
    requires Reaches(a, w0, s, w1) && Reaches(a, w1, t, w2) && Reaches(a, w2, u, w3)
    ensures Reaches(a, w0, steps, w3)
  {
    hide Reaches;
    Chain(a, w0, s, w1, t, w2);
    Chain(a, w0, s + t, w2, u, w3);
    steps := s + t + u;
  }

  lemma RowOfOutgoing(a: Account, w: World, id: string)
    requires Inv(a, w) && id in w.outgoing && HasId(w.rows, id)
    ensures StoredAs(w.rows, a.userId, id, w.outgoing[id].conversation, w.outgoing[id].envelope)
  {
    var i :| 0 <= i < |w.rows| && w.rows[i].id == id;
    RowIsOk(a, w, w.rows[i]);
  }

  lemma RunNone(a: Account, w: World)
    ensures Reaches(a, w, [], w)
  {}

  /** A transmitted message gets into the table if it is not there yet. */
  lemma Store(a: Account, w: World, t: Transmission, now: int) returns (accept: seq<Step>, w2: World)
    requires Inv(a, w) && t.id in w.outgoing
    requires t == Transmission(t.id, w.outgoing[t.id].conversation, w.outgoing[t.id].envelope)
    requires forall i :: 0 <= i < |w.rows| ==> w.rows[i].sentAt < now
    ensures Reaches(a, w.(wire := w.wire + {t}), accept, w2) && w2.db == w.db
    ensures StoredAs(w2.rows, a.userId, t.id, t.conversation, t.content)
    ensures w2.rows == if HasId(w.rows, t.id) then w.rows
      else w.rows + [Row(t.id, t.conversation, a.userId, t.content, now)]
  {
    hide Inv, Reaches, RowOk;
    var w1 := w.(wire := w.wire + {t});
    if HasId(w.rows, t.id) {
      accept, w2 := [], w1;
      RowOfOutgoing(a, w, t.id);
      RunNone(a, w1);
    } else {
      accept := [Accept(t, now)];
      w2 := w1.(rows := w.rows + [Row(t.id, t.conversation, a.userId, t.content, now)]);
      assert w2 == Next(a, w1, Accept(t, now));
      assert w2.rows[|w.rows|].id == t.id;
      RunOne(a, w1, Accept(t, now));
    }
  }

  lemma Acknowledge(a: Account, w: World, id: string, o: Outgoing)
    requires Own(w.db, id) && w.db.messages[id].conversation == o.conversation
    requires LoadOutbox(w.db.kv, id) == Some(o.envelope)
    requires StoredAs(w.rows, a.userId, id, o.conversation, o.envelope)
    ensures Reaches(a, w, [MarkSent(id)], w.(db := AfterSent(w.db, w.db.messages[id].(isSent := true))))
  {
    RunOne(a, w, MarkSent(id));
  }

  lemma RunOne(a: Account, w: World, step: Step)
    requires Enabled(a, w, step)
    ensures Reaches(a, w, [step], Next(a, w, step))
  {
    assert Run(Protocol(a), w, [], w);
    RunStep(Protocol(a), w, [], w, step);
    assert [] + [step] == [step];
  }

  /** A run that leaves the received messages as they are commits none. */
  lemma {:induction false} NothingReceivedIn(a: Account, w: World, steps: seq<Step>, w': World)
    requires Inv(a, w) && Reaches(a, w, steps, w') && w'.incoming.Keys == w.incoming.Keys
    ensures forall i :: 0 <= i < |steps| ==> !steps[i].CommitReceived?
    decreases |steps|
  {
    hide Inv, Enabled, Next;
    if steps != [] {
      var w1 := Next(a, w, steps[0]);
      StepKeepsInv(a, w, steps[0]);
      RunIsLater(a, w, [steps[0]], w1) by { RunOne(a, w, steps[0]); }
      RunIsLater(a, w1, steps[1..], w');
      IncomingGrows(w, w1);
      IncomingGrows(w1, w');
      assert w1.incoming.Keys == w.incoming.Keys;
      if steps[0].CommitReceived? { ReceivedIsNew(a, w, steps[0]); }
      NothingReceivedIn(a, w1, steps[1..], w');
    }
  }

  lemma IncomingGrows(w: World, w': World)
    requires Later(w, w')
    ensures w.incoming.Keys <= w'.incoming.Keys && w.outgoing.Keys <= w'.outgoing.Keys && w.rows <= w'.rows
  {}

  lemma ReceivedIsNew(a: Account, w: World, step: Step)
    requires Inv(a, w) && Enabled(a, w, step) && step.CommitReceived?
    ensures Next(a, w, step).incoming.Keys != w.incoming.Keys
  {
    hide Inv, Decrypt, StateFor, LoadSession;
    CommittedIdsAreStored(a, w, step.row.id);
    assert step.row.id in Next(a, w, step).incoming.Keys;
  }

  lemma ReachesOneMore(a: Account, w: World, step: Step)
    requires Reachable(a, w) && Enabled(a, w, step)
    ensures Reachable(a, Next(a, w, step))
  {
    hide Enabled, Next, Reaches;
    var steps :| Reaches(a, EMPTY, steps, w);
    RunOne(a, w, step);
    Chain(a, EMPTY, steps, w, [step], Next(a, w, step));
  }
}
