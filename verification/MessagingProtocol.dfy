/**
 * The durable messaging protocol as a step machine.
 *
 * A world is what survives a crash of the client (its database and the server's
 * table) plus a history of what has happened. Every step is one atomic action
 * between two awaits, so a crash is simply a run that ends early: whatever was in
 * memory is gone and the next operation starts from the world as it is.
 */
module MessagingProtocol {
  import opened Basics
  import opened RatchetCodec
  import opened LocalStore
  import opened MessageServer
  import opened Runs

  datatype Account = Account(suite: Suite, userId: string)

  /** A message body that has left the client, arrived or not. */
  datatype Transmission = Transmission(id: string, conversation: string, content: Envelope)

  /** History of one ratchet session: how it started and its committed steps, in order. */
  datatype Session = Session(conversation: string, peerKey: string, events: seq<Event>)

  /** History of one committed outgoing message: its ratchet step, and the envelope and the row saved with it. */
  datatype Outgoing = Outgoing(conversation: string, sessionId: string, step: nat, envelope: Envelope, message: Message)

  /** History of one committed incoming message: its ratchet step, the server's row and what it opened to. */
  datatype Incoming = Incoming(sessionId: string, step: nat, row: Row, payload: Payload)

  datatype World = World(
    db: Contents,
    rows: seq<Row>,
    wire: set<Transmission>,
    sessions: map<string, Session>,
    outgoing: map<string, Outgoing>,
    incoming: map<string, Incoming>)

  const EMPTY := World(Contents(map[], map[]), [], {}, map[], map[], map[])

  function SessionStart(suite: Suite, s: Session): SessionState { suite.start(s.conversation, s.peerKey) }

  /** The state a session's committed steps lead to. */
  function Current(suite: Suite, s: Session): SessionState {
    Replay(suite, SessionStart(suite, s), s.events)
  }

  /** The history of a session, or a new one that has done nothing. */
  function SessionOf(w: World, conversation: string, peerKey: string): Session {
    var sid := SessionId(conversation, peerKey);
    if sid in w.sessions then w.sessions[sid] else Session(conversation, peerKey, [])
  }

  datatype Step =
    | CommitOutgoing(message: Message, peerKey: string, seed: nat)
    | Transmit(id: string)
    | Accept(transmission: Transmission, sentAt: int)
    | PeerPost(row: Row)
    | MarkSent(id: string)
    | Receipt(id: string, isRead: bool, isDelivered: bool)
    | CommitReceived(row: Row, message: Message, peerKey: string, seed: nat)

  predicate StoredAs(rows: seq<Row>, userId: string, id: string, conversation: string, content: Envelope) {
    exists i :: 0 <= i < |rows| && rows[i].id == id && rows[i].sender == userId
      && rows[i].conversation == conversation && rows[i].content == content
  }

  predicate Own(db: Contents, id: string) { id in db.messages && db.messages[id].sender == ME }

  /** When a step may happen. */
  ghost predicate Enabled(a: Account, w: World, step: Step)
  {
    match step
    case CommitOutgoing(message, peerKey, seed) =>
      // A fresh UUID, and a session to encrypt in.
      && ValidUuid(message.id) && message.id !in w.db.messages && !HasId(w.rows, message.id)
      && message.sender == ME && !message.isSent
      && var state := StateFor(a.suite, LoadSession(w.db.kv, SessionId(message.conversation, peerKey)),
                               message.conversation, peerKey);
      && state.Some?
      && Encrypt(a.suite, state.value, message.conversation, message.id, a.userId, message.payload, seed).Some?
    case Transmit(id) =>
      && Own(w.db, id) && !w.db.messages[id].isSent && LoadOutbox(w.db.kv, id).Some?
    case Accept(t, sentAt) =>
      && t in w.wire && Appendable(w.rows, Row(t.id, t.conversation, a.userId, t.content, sentAt))
    case PeerPost(row) =>
      && row.sender != a.userId && row.sender != ME && row.id !in w.outgoing && Appendable(w.rows, row)
    case MarkSent(id) =>
      && Own(w.db, id) && LoadOutbox(w.db.kv, id).Some?
      && StoredAs(w.rows, a.userId, id, w.db.messages[id].conversation, LoadOutbox(w.db.kv, id).value)
    case Receipt(id, _, _) => Own(w.db, id)
    case CommitReceived(row, message, peerKey, seed) =>
      && row in w.rows && row.sender != a.userId && row.id !in w.db.messages
      && message.id == row.id && message.conversation == row.conversation && message.sender == row.sender
      && message.timestamp == row.sentAt && message.isSent
      && var state := StateFor(a.suite, LoadSession(w.db.kv, SessionId(row.conversation, peerKey)),
                               row.conversation, peerKey);
      && state.Some?
      && var opening := Decrypt(a.suite, state.value, row.conversation, row.id, row.sender, row.content, seed);
      && opening.Some? && message.payload == opening.value.1
  }

  /** What a step does. */
  ghost function Next(a: Account, w: World, step: Step): World
    requires Enabled(a, w, step)
  {
    match step
    case CommitOutgoing(m, peerKey, seed) =>
      var sid := SessionId(m.conversation, peerKey);
      var state := StateFor(a.suite, LoadSession(w.db.kv, sid), m.conversation, peerKey).value;
      var (next, envelope) := Encrypt(a.suite, state, m.conversation, m.id, a.userId, m.payload, seed).value;
      var s := SessionOf(w, m.conversation, peerKey);
      w.(db := AfterOutgoing(w.db, sid, next, m, envelope),
         sessions := w.sessions[sid := s.(events := s.events + [Sent(m.id, m.payload, seed)])],
         outgoing := w.outgoing[m.id := Outgoing(m.conversation, sid, |s.events|, envelope, m)])
    case Transmit(id) =>
      w.(wire := w.wire + {Transmission(id, w.db.messages[id].conversation, LoadOutbox(w.db.kv, id).value)})
    case Accept(t, sentAt) =>
      w.(rows := w.rows + [Row(t.id, t.conversation, a.userId, t.content, sentAt)])
    case PeerPost(row) => w.(rows := w.rows + [row])
    case MarkSent(id) => w.(db := AfterSent(w.db, w.db.messages[id].(isSent := true)))
    case Receipt(id, isRead, isDelivered) =>
      w.(db := AfterUpsert(w.db, w.db.messages[id].(isRead := isRead, isDelivered := isDelivered)))
    case CommitReceived(row, message, peerKey, seed) =>
      var sid := SessionId(row.conversation, peerKey);
      var state := StateFor(a.suite, LoadSession(w.db.kv, sid), row.conversation, peerKey).value;
      var (next, payload) := Decrypt(a.suite, state, row.conversation, row.id, row.sender, row.content, seed).value;
      var s := SessionOf(w, row.conversation, peerKey);
      w.(db := AfterReceived(w.db, sid, next, message),
         sessions := w.sessions[sid := s.(events := s.events + [Received(row.id, row.content.header, seed)])],
         incoming := w.incoming[row.id := Incoming(sid, |s.events|, row, payload)])
  }

  ghost function Protocol(a: Account): Machine<World, Step> {
    Machine((w: World, step: Step) => Enabled(a, w, step),
            (w: World, step: Step) => if Enabled(a, w, step) then Next(a, w, step) else w)
  }

  /** The steps are a run of the protocol. */
  ghost predicate Reaches(a: Account, before: World, steps: seq<Step>, after: World) {
    Run(Protocol(a), before, steps, after)
  }

  // ---- What every step keeps

  /** Every row is filed under its own id. */
  ghost predicate Keyed(messages: map<string, Message>) {
    forall id <- messages :: messages[id].id == id
  }

  /** The same message, whatever has become of it since. */
  predicate SameButFlags(m: Message, was: Message) {
    m == was.(isSent := m.isSent, isRead := m.isRead, isDelivered := m.isDelivered)
  }

  /** A committed outgoing message is as it was committed but for its flags. While pending, its outbox entry is the
      committed envelope; once sent, it has no entry and the server holds that envelope. */
  ghost predicate OwnRow(a: Account, db: Contents, rows: seq<Row>, id: string, o: Outgoing) {
    && Own(db, id) && ValidUuid(id) && db.messages[id].conversation == o.conversation
    && SameButFlags(db.messages[id], o.message)
    && if db.messages[id].isSent
       then OutboxKey(id) !in db.kv && StoredAs(rows, a.userId, id, o.conversation, o.envelope)
       else LoadOutbox(db.kv, id) == Some(o.envelope)
  }

  /** The own rows are exactly the committed outgoing messages. */
  ghost predicate OutboxOk(a: Account, db: Contents, rows: seq<Row>, outgoing: map<string, Outgoing>) {
    && (forall id <- outgoing :: OwnRow(a, db, rows, id, outgoing[id]))
    && (forall id <- db.messages :: db.messages[id].sender == ME ==> id in outgoing)
  }

  /** Whatever left the client is the committed envelope of a committed message. */
  ghost predicate WireOk(wire: set<Transmission>, outgoing: map<string, Outgoing>) {
    forall t <- wire :: t.id in outgoing
      && t.conversation == outgoing[t.id].conversation && t.content == outgoing[t.id].envelope
  }

  /** Own rows on the server came over the wire; nobody else's row bears an own id. */
  ghost predicate RowOk(a: Account, wire: set<Transmission>, outgoing: map<string, Outgoing>, row: Row) {
    if row.sender == a.userId then Transmission(row.id, row.conversation, row.content) in wire
    else row.sender != ME && row.id !in outgoing
  }

  ghost predicate RowsOk(a: Account, rows: seq<Row>, wire: set<Transmission>, outgoing: map<string, Outgoing>) {
    Table(rows) && forall i :: 0 <= i < |rows| ==> RowOk(a, wire, outgoing, rows[i])
  }

  /** A stored ratchet state is the replay of the session's committed steps. */
  ghost predicate SessionOk(a: Account, kv: map<string, Blob>, sid: string, s: Session) {
    && ValidIdentity(s.peerKey) && sid == SessionId(s.conversation, s.peerKey)
    && LoadSession(kv, sid) == Some(Current(a.suite, s))
  }

  ghost predicate SessionsOk(a: Account, kv: map<string, Blob>, sessions: map<string, Session>) {
    && (forall sid <- sessions :: SessionOk(a, kv, sid, sessions[sid]))
    && (forall sid :: LoadSession(kv, sid).Some? ==> sid in sessions)
  }

  /** The envelope a sending step produces from the state the session had before it. */
  function EnvelopeAt(a: Account, s: Session, i: nat, conversation: string): Option<Envelope>
    requires i < |s.events| && s.events[i].Sent?
  {
    var e := s.events[i];
    match Encrypt(a.suite, Replay(a.suite, SessionStart(a.suite, s), s.events[..i]),
                  conversation, e.id, a.userId, e.payload, e.seed)
    case None => None
    case Some((_, envelope)) => Some(envelope)
  }

  /** What a receiving step opens a server row to, from the state the session had before it. */
  function OpeningAt(a: Account, s: Session, i: nat, row: Row): Option<Payload>
    requires i < |s.events| && s.events[i].Received?
  {
    match Decrypt(a.suite, Replay(a.suite, SessionStart(a.suite, s), s.events[..i]),
                  row.conversation, row.id, row.sender, row.content, s.events[i].seed)
    case None => None
    case Some((_, payload)) => Some(payload)
  }

  /** The outgoing message is the sending step it names, and its envelope came from that step. */
  ghost predicate OutgoingOk(a: Account, sessions: map<string, Session>, id: string, o: Outgoing) {
    && o.sessionId in sessions && o.step < |sessions[o.sessionId].events|
    && var s := sessions[o.sessionId];
    && s.events[o.step].Sent? && s.events[o.step].id == id && s.events[o.step].payload == o.message.payload
    && EnvelopeAt(a, s, o.step, o.conversation) == Some(o.envelope)
  }

  /** The incoming message is the receiving step it names, and its payload is what that step opened. */
  ghost predicate IncomingOk(a: Account, sessions: map<string, Session>, id: string, n: Incoming) {
    && n.sessionId in sessions && n.step < |sessions[n.sessionId].events|
    && var s := sessions[n.sessionId];
    && s.events[n.step].Received? && s.events[n.step].id == id
    && OpeningAt(a, s, n.step, n.row) == Some(n.payload)
  }

  /** A committed step belongs to exactly one message, which names it back. */
  ghost predicate EventOk(outgoing: map<string, Outgoing>, incoming: map<string, Incoming>,
                          sid: string, i: nat, event: Event)
  {
    if event.Sent?
    then event.id in outgoing && outgoing[event.id].sessionId == sid && outgoing[event.id].step == i
    else event.id in incoming && incoming[event.id].sessionId == sid && incoming[event.id].step == i
  }

  ghost predicate StepsOk(a: Account, sessions: map<string, Session>,
                          outgoing: map<string, Outgoing>, incoming: map<string, Incoming>)
  {
    && (forall id <- outgoing :: OutgoingOk(a, sessions, id, outgoing[id]))
    && (forall id <- incoming :: IncomingOk(a, sessions, id, incoming[id]))
    && (forall sid <- sessions, i | 0 <= i < |sessions[sid].events| ::
          EventOk(outgoing, incoming, sid, i, sessions[sid].events[i]))
  }

  /** The other rows are exactly the committed incoming messages: a row of the server's, and what it opened to. */
  ghost predicate IncomingRow(a: Account, messages: map<string, Message>, rows: seq<Row>, id: string, n: Incoming) {
    && id in messages && messages[id].sender == n.row.sender != ME
    && messages[id].conversation == n.row.conversation && messages[id].payload == n.payload
    && messages[id].timestamp == n.row.sentAt && messages[id].isSent
    && n.row in rows && n.row.id == id && n.row.sender != a.userId
  }

  ghost predicate InboxOk(a: Account, messages: map<string, Message>, rows: seq<Row>,
                          incoming: map<string, Incoming>)
  {
    && (forall id <- incoming :: IncomingRow(a, messages, rows, id, incoming[id]))
    && (forall id <- messages :: messages[id].sender != ME ==> id in incoming)
  }

  ghost predicate Inv(a: Account, w: World) {
    && Keyed(w.db.messages)
    && OutboxOk(a, w.db, w.rows, w.outgoing)
    && WireOk(w.wire, w.outgoing)
    && RowsOk(a, w.rows, w.wire, w.outgoing)
    && SessionsOk(a, w.db.kv, w.sessions)
    && StepsOk(a, w.sessions, w.outgoing, w.incoming)
    && InboxOk(a, w.db.messages, w.rows, w.incoming)
  }

  lemma EmptyInv(a: Account)
    ensures Inv(a, EMPTY)
  {}

  // ---- Frames

  /** Appending rows loses nothing that is stored. */
  lemma OutboxOkGrows(a: Account, db: Contents, rows: seq<Row>, row: Row, outgoing: map<string, Outgoing>)
    requires OutboxOk(a, db, rows, outgoing)
    ensures OutboxOk(a, db, rows + [row], outgoing)
  {
    forall id <- outgoing ensures OwnRow(a, db, rows + [row], id, outgoing[id]) {
      assert OwnRow(a, db, rows, id, outgoing[id]);
      if db.messages[id].isSent {
        var i :| 0 <= i < |rows| && rows[i].id == id && rows[i].sender == a.userId
          && rows[i].conversation == outgoing[id].conversation && rows[i].content == outgoing[id].envelope;
        assert (rows + [row])[i] == rows[i];
      }
    }
  }

  lemma InboxOkGrows(a: Account, messages: map<string, Message>, rows: seq<Row>, row: Row,
                     incoming: map<string, Incoming>)
    requires InboxOk(a, messages, rows, incoming)
    ensures InboxOk(a, messages, rows + [row], incoming)
  {
    forall id <- incoming ensures IncomingRow(a, messages, rows + [row], id, incoming[id]) {
      assert IncomingRow(a, messages, rows, id, incoming[id]);
    }
  }

  /** Writing one session entry leaves every other session and every outbox entry alone. */
  lemma SessionWrite(kv: map<string, Blob>, conversation: string, peerKey: string, state: SessionState)
    requires ValidIdentity(peerKey)
    ensures var sid := SessionId(conversation, peerKey); var kv' := kv[SessionKey(sid) := SessionBlob(state)];
      && LoadSession(kv', sid) == Some(state)
      && (forall other :: other != sid ==> LoadSession(kv', other) == LoadSession(kv, other))
      && (forall id :: ValidUuid(id) ==> OutboxKey(id) != SessionKey(sid) && LoadOutbox(kv', id) == LoadOutbox(kv, id))
  {
    var sid := SessionId(conversation, peerKey);
    forall other | other != sid ensures SessionKey(other) != SessionKey(sid) {
      if SessionKey(other) == SessionKey(sid) { SessionKeyInjective(other, sid); }
    }
    forall id | ValidUuid(id) ensures OutboxKey(id) != SessionKey(sid) {
      OutboxKeysAreNotSessionKeys(id, conversation, peerKey);
    }
  }

  /** Appending one committed step to a session keeps what is known of the earlier ones. */
  lemma SessionAppend(a: Account, sessions: map<string, Session>, sid: string, s: Session, event: Event,
                      id: string, o: Outgoing)
    requires if sid in sessions then s == sessions[sid] else s.events == []
    requires OutgoingOk(a, sessions, id, o)
    ensures OutgoingOk(a, sessions[sid := s.(events := s.events + [event])], id, o)
  {
    if o.sessionId == sid {
      assert (s.events + [event])[..o.step] == s.events[..o.step];
    }
  }

  lemma IncomingAppend(a: Account, sessions: map<string, Session>, sid: string, s: Session, event: Event,
                       id: string, n: Incoming)
    requires if sid in sessions then s == sessions[sid] else s.events == []
    requires IncomingOk(a, sessions, id, n)
    ensures IncomingOk(a, sessions[sid := s.(events := s.events + [event])], id, n)
  {
    if n.sessionId == sid {
      assert (s.events + [event])[..n.step] == s.events[..n.step];
    }
  }

  lemma RowsOkGrows(a: Account, rows: seq<Row>, wire: set<Transmission>, outgoing: map<string, Outgoing>, row: Row)
    requires RowsOk(a, rows, wire, outgoing) && Appendable(rows, row) && RowOk(a, wire, outgoing, row)
    ensures RowsOk(a, rows + [row], wire, outgoing)
  {}

  /** A fresh id is borne by no row, so committing it as one's own changes no row's standing. */
  lemma RowsIgnoreFresh(a: Account, rows: seq<Row>, wire: set<Transmission>, outgoing: map<string, Outgoing>,
                        id: string, o: Outgoing)
    requires RowsOk(a, rows, wire, outgoing) && !HasId(rows, id)
    ensures RowsOk(a, rows, wire, outgoing[id := o])
  {
    forall i | 0 <= i < |rows| ensures RowOk(a, wire, outgoing[id := o], rows[i]) {
      assert RowOk(a, wire, outgoing, rows[i]);
    }
  }

  /** Replacing an own row by an own row leaves the inbox alone. */
  lemma InboxIgnoresOwn(a: Account, messages: map<string, Message>, rows: seq<Row>,
                        incoming: map<string, Incoming>, m: Message)
    requires InboxOk(a, messages, rows, incoming)
    requires m.sender == ME && (m.id in messages ==> messages[m.id].sender == ME)
    ensures InboxOk(a, messages[m.id := m], rows, incoming)
  {
    forall id <- incoming ensures IncomingRow(a, messages[m.id := m], rows, id, incoming[id]) {
      assert IncomingRow(a, messages, rows, id, incoming[id]);
    }
  }

  lemma InboxAfterReceived(a: Account, messages: map<string, Message>, rows: seq<Row>,
                           incoming: map<string, Incoming>, m: Message, n: Incoming)
    requires InboxOk(a, messages, rows, incoming) && m.id !in messages && m.sender != ME
    requires n.row in rows && n.row.id == m.id && n.row.sender == m.sender != a.userId
    requires n.row.conversation == m.conversation && n.payload == m.payload
    requires m.timestamp == n.row.sentAt && m.isSent
    ensures InboxOk(a, messages[m.id := m], rows, incoming[m.id := n])
  {
    var incoming' := incoming[m.id := n];
    forall id <- incoming' ensures IncomingRow(a, messages[m.id := m], rows, id, incoming'[id]) {
      if id != m.id { assert IncomingRow(a, messages, rows, id, incoming[id]); }
    }
  }

  /** Replacing a peer's row, or adding one, leaves the outbox alone. */
  lemma OutboxIgnoresPeer(a: Account, db: Contents, rows: seq<Row>, outgoing: map<string, Outgoing>,
                          m: Message, kv: map<string, Blob>)
    requires OutboxOk(a, db, rows, outgoing)
    requires m.sender != ME && m.id !in outgoing
    requires forall id :: ValidUuid(id) ==>
      LoadOutbox(kv, id) == LoadOutbox(db.kv, id) && (OutboxKey(id) in kv <==> OutboxKey(id) in db.kv)
    ensures OutboxOk(a, Contents(db.messages[m.id := m], kv), rows, outgoing)
  {
    forall id <- outgoing ensures OwnRow(a, Contents(db.messages[m.id := m], kv), rows, id, outgoing[id]) {
      assert OwnRow(a, db, rows, id, outgoing[id]);
    }
  }

  lemma OutboxAfterSent(a: Account, db: Contents, rows: seq<Row>, outgoing: map<string, Outgoing>, id: string)
    requires OutboxOk(a, db, rows, outgoing) && Keyed(db.messages) && id in outgoing && Own(db, id)
    requires StoredAs(rows, a.userId, id, outgoing[id].conversation, outgoing[id].envelope)
    ensures OutboxOk(a, AfterSent(db, db.messages[id].(isSent := true)), rows, outgoing)
  {
    var db' := AfterSent(db, db.messages[id].(isSent := true));
    forall other <- outgoing ensures OwnRow(a, db', rows, other, outgoing[other]) {
      assert OwnRow(a, db, rows, other, outgoing[other]);
      if other != id && OutboxKey(other) == OutboxKey(id) { OutboxKeyInjective(other, id); }
    }
  }

  lemma OutboxAfterReceipt(a: Account, db: Contents, rows: seq<Row>, outgoing: map<string, Outgoing>, m: Message)
    requires OutboxOk(a, db, rows, outgoing) && m.id in db.messages && Own(db, m.id)
    requires m == db.messages[m.id].(isRead := m.isRead, isDelivered := m.isDelivered)
    ensures OutboxOk(a, AfterUpsert(db, m), rows, outgoing)
  {
    forall id <- outgoing ensures OwnRow(a, AfterUpsert(db, m), rows, id, outgoing[id]) {
      assert OwnRow(a, db, rows, id, outgoing[id]);
    }
  }

  lemma OutboxAfterOutgoing(a: Account, db: Contents, rows: seq<Row>, outgoing: map<string, Outgoing>,
                            sid: string, state: SessionState, m: Message, o: Outgoing)
    requires OutboxOk(a, db, rows, outgoing) && m.id !in db.messages && ValidUuid(m.id)
    requires m.sender == ME && !m.isSent && o.conversation == m.conversation && o.message == m
    requires forall id :: ValidUuid(id) ==> OutboxKey(id) != SessionKey(sid)
    ensures OutboxOk(a, AfterOutgoing(db, sid, state, m, o.envelope), rows, outgoing[m.id := o])
  {
    var db' := AfterOutgoing(db, sid, state, m, o.envelope);
    var outgoing' := outgoing[m.id := o];
    forall id <- outgoing' ensures OwnRow(a, db', rows, id, outgoing'[id]) {
      if id != m.id {
        assert OwnRow(a, db, rows, id, outgoing[id]);
        if OutboxKey(id) == OutboxKey(m.id) { OutboxKeyInjective(id, m.id); }
      }
    }
  }

  /** Removing an outbox entry touches no session. */
  lemma SessionsAfterSent(a: Account, kv: map<string, Blob>, sessions: map<string, Session>, id: string)
    requires SessionsOk(a, kv, sessions) && ValidUuid(id)
    ensures SessionsOk(a, kv - {OutboxKey(id)}, sessions)
  {
    forall sid <- sessions ensures SessionOk(a, kv - {OutboxKey(id)}, sid, sessions[sid]) {
      var s := sessions[sid];
      assert SessionOk(a, kv, sid, s);
      OutboxKeysAreNotSessionKeys(id, s.conversation, s.peerKey);
    }
  }

  /** Committing one more step of a session, with the state it leads to, keeps every session stored. */
  lemma SessionsAfterStep(a: Account, kv: map<string, Blob>, sessions: map<string, Session>,
                          sid: string, s: Session, event: Event)
    requires SessionsOk(a, kv, sessions)
    requires ValidIdentity(s.peerKey) && sid == SessionId(s.conversation, s.peerKey)
    ensures var s' := s.(events := s.events + [event]);
            SessionsOk(a, kv[SessionKey(sid) := SessionBlob(Current(a.suite, s'))], sessions[sid := s'])
  {
    var s' := s.(events := s.events + [event]);
    var kv' := kv[SessionKey(sid) := SessionBlob(Current(a.suite, s'))];
    SessionWrite(kv, s.conversation, s.peerKey, Current(a.suite, s'));
    var sessions' := sessions[sid := s'];
    forall other <- sessions' ensures SessionOk(a, kv', other, sessions'[other]) {
      if other != sid { assert SessionOk(a, kv, other, sessions[other]); }
    }
  }

  /** An outbox entry is not a session entry, so writing one keeps the sessions. */
  lemma SessionsIgnoreOutbox(a: Account, kv: map<string, Blob>, sessions: map<string, Session>,
                             id: string, envelope: Envelope)
    requires SessionsOk(a, kv, sessions) && ValidUuid(id)
    ensures SessionsOk(a, kv[OutboxKey(id) := TextBlob(envelope)], sessions)
  {
    forall sid <- sessions ensures SessionOk(a, kv[OutboxKey(id) := TextBlob(envelope)], sid, sessions[sid]) {
      var s := sessions[sid];
      assert SessionOk(a, kv, sid, s);
      OutboxKeysAreNotSessionKeys(id, s.conversation, s.peerKey);
    }
  }

  /** Appending a sending step, together with the message that names it. */
  lemma StepsAfterSend(a: Account, sessions: map<string, Session>, outgoing: map<string, Outgoing>,
                       incoming: map<string, Incoming>, sid: string, s: Session, event: Event, o: Outgoing)
    requires StepsOk(a, sessions, outgoing, incoming)
    requires if sid in sessions then s == sessions[sid] else s.events == []
    requires event.Sent? && event.id !in outgoing && o.sessionId == sid && o.step == |s.events|
    requires event.payload == o.message.payload
    requires EnvelopeAt(a, s.(events := s.events + [event]), o.step, o.conversation) == Some(o.envelope)
    ensures StepsOk(a, sessions[sid := s.(events := s.events + [event])], outgoing[event.id := o], incoming)
  {
    var s' := s.(events := s.events + [event]);
    var sessions' := sessions[sid := s'];
    var outgoing' := outgoing[event.id := o];
    forall id <- outgoing' ensures OutgoingOk(a, sessions', id, outgoing'[id]) {
      if id != event.id { SessionAppend(a, sessions, sid, s, event, id, outgoing[id]); }
    }
    forall id <- incoming ensures IncomingOk(a, sessions', id, incoming[id]) {
      IncomingAppend(a, sessions, sid, s, event, id, incoming[id]);
    }
    EventsAfterStep(sessions, outgoing, incoming, sid, s, event, outgoing', incoming);
  }

  lemma StepsAfterReceive(a: Account, sessions: map<string, Session>, outgoing: map<string, Outgoing>,
                          incoming: map<string, Incoming>, sid: string, s: Session, event: Event, n: Incoming)
    requires StepsOk(a, sessions, outgoing, incoming)
    requires if sid in sessions then s == sessions[sid] else s.events == []
    requires event.Received? && event.id !in incoming && n.sessionId == sid && n.step == |s.events|
    requires OpeningAt(a, s.(events := s.events + [event]), n.step, n.row) == Some(n.payload)
    ensures StepsOk(a, sessions[sid := s.(events := s.events + [event])], outgoing, incoming[event.id := n])
  {
    var sessions' := sessions[sid := s.(events := s.events + [event])];
    var incoming' := incoming[event.id := n];
    forall id <- outgoing ensures OutgoingOk(a, sessions', id, outgoing[id]) {
      SessionAppend(a, sessions, sid, s, event, id, outgoing[id]);
    }
    forall id <- incoming' ensures IncomingOk(a, sessions', id, incoming'[id]) {
      if id != event.id { IncomingAppend(a, sessions, sid, s, event, id, incoming[id]); }
    }
    EventsAfterStep(sessions, outgoing, incoming, sid, s, event, outgoing, incoming');
  }

  lemma EventsAfterStep(sessions: map<string, Session>, outgoing: map<string, Outgoing>,
                        incoming: map<string, Incoming>, sid: string, s: Session, event: Event,
                        outgoing': map<string, Outgoing>, incoming': map<string, Incoming>)
    requires if sid in sessions then s == sessions[sid] else s.events == []
    requires forall other <- sessions, i | 0 <= i < |sessions[other].events| ::
      EventOk(outgoing, incoming, other, i, sessions[other].events[i])
    requires forall id <- outgoing :: id in outgoing' && outgoing'[id] == outgoing[id]
    requires forall id <- incoming :: id in incoming' && incoming'[id] == incoming[id]
    requires EventOk(outgoing', incoming', sid, |s.events|, event)
    ensures var sessions' := sessions[sid := s.(events := s.events + [event])];
      forall other <- sessions', i | 0 <= i < |sessions'[other].events| ::
        EventOk(outgoing', incoming', other, i, sessions'[other].events[i])
  {
    var sessions' := sessions[sid := s.(events := s.events + [event])];
    forall other <- sessions', i | 0 <= i < |sessions'[other].events|
      ensures EventOk(outgoing', incoming', other, i, sessions'[other].events[i])
    {
      if other != sid || i < |s.events| {
        assert other in sessions && sessions'[other].events[i] == sessions[other].events[i];
        assert EventOk(outgoing, incoming, other, i, sessions[other].events[i]);
      }
    }
  }

  // ---- Every step keeps the invariant

  /** The state an operation loads is the replay of the session it will extend. */
  lemma SessionInUse(a: Account, w: World, conversation: string, peerKey: string)
    requires SessionsOk(a, w.db.kv, w.sessions)
    requires StateFor(a.suite, LoadSession(w.db.kv, SessionId(conversation, peerKey)), conversation, peerKey).Some?
    ensures var s := SessionOf(w, conversation, peerKey);
            && ValidIdentity(s.peerKey) && SessionId(conversation, peerKey) == SessionId(s.conversation, s.peerKey)
            && StateFor(a.suite, LoadSession(w.db.kv, SessionId(conversation, peerKey)), conversation, peerKey)
               == Some(Current(a.suite, s))
  {
    var sid := SessionId(conversation, peerKey);
    if sid in w.sessions { assert SessionOk(a, w.db.kv, sid, w.sessions[sid]); }
  }

  lemma KeyedUpsert(messages: map<string, Message>, m: Message)
    requires Keyed(messages)
    ensures Keyed(messages[m.id := m])
  {}

  lemma CommittedIdsAreStored(a: Account, w: World, id: string)
    requires Inv(a, w)
    ensures id in w.outgoing || id in w.incoming ==> id in w.db.messages
  {
    if id in w.outgoing { assert OwnRow(a, w.db, w.rows, id, w.outgoing[id]); }
    else if id in w.incoming { assert IncomingRow(a, w.db.messages, w.rows, id, w.incoming[id]); }
  }

  lemma RowIsOk(a: Account, w: World, row: Row)
    requires Inv(a, w) && row in w.rows
    ensures RowOk(a, w.wire, w.outgoing, row)
  {
    var i :| 0 <= i < |w.rows| && w.rows[i] == row;
  }

  lemma WireIgnoresFresh(wire: set<Transmission>, outgoing: map<string, Outgoing>, id: string, o: Outgoing)
    requires WireOk(wire, outgoing) && id !in outgoing
    ensures WireOk(wire, outgoing[id := o])
  {}

  /** The session `s`, as it is used: the committed one, or a new one. */
  ghost predicate InUse(w: World, sid: string, s: Session) {
    && ValidIdentity(s.peerKey) && sid == SessionId(s.conversation, s.peerKey)
    && if sid in w.sessions then s == w.sessions[sid] else s.events == []
  }

  lemma CommitOutgoingKeeps(a: Account, w: World, m: Message, sid: string, s: Session, event: Event, o: Outgoing)
    requires Inv(a, w) && InUse(w, sid, s)
    requires ValidUuid(m.id) && m.id !in w.db.messages && !HasId(w.rows, m.id) && m.sender == ME && !m.isSent
    requires event.Sent? && event.id == m.id && event.payload == m.payload && o.message == m
    requires o.conversation == m.conversation && o.sessionId == sid && o.step == |s.events|
    requires EnvelopeAt(a, s.(events := s.events + [event]), o.step, o.conversation) == Some(o.envelope)
    ensures var s' := s.(events := s.events + [event]);
      Inv(a, w.(db := AfterOutgoing(w.db, sid, Current(a.suite, s'), m, o.envelope),
                sessions := w.sessions[sid := s'], outgoing := w.outgoing[m.id := o]))
  {
    hide Keyed, OutboxOk, WireOk, RowsOk, SessionsOk, StepsOk, InboxOk;
    CommittedIdsAreStored(a, w, m.id);
    var s' := s.(events := s.events + [event]);
    var next := Current(a.suite, s');
    SessionsAfterStep(a, w.db.kv, w.sessions, sid, s, event);
    SessionsIgnoreOutbox(a, w.db.kv[SessionKey(sid) := SessionBlob(next)], w.sessions[sid := s'], m.id, o.envelope);
    StepsAfterSend(a, w.sessions, w.outgoing, w.incoming, sid, s, event, o);
    assert OutboxOk(a, AfterOutgoing(w.db, sid, next, m, o.envelope), w.rows, w.outgoing[m.id := o]) by {
      SessionWrite(w.db.kv, s.conversation, s.peerKey, next);
      OutboxAfterOutgoing(a, w.db, w.rows, w.outgoing, sid, next, m, o);
    }
    InboxIgnoresOwn(a, w.db.messages, w.rows, w.incoming, m);
    RowsIgnoreFresh(a, w.rows, w.wire, w.outgoing, m.id, o);
    WireIgnoresFresh(w.wire, w.outgoing, m.id, o);
    KeyedUpsert(w.db.messages, m);
  }

  /** Committing an outgoing message extends its session by the step the envelope came from. */
  lemma CommitOutgoingNext(a: Account, w: World, m: Message, peerKey: string, seed: nat)
    requires SessionsOk(a, w.db.kv, w.sessions) && Enabled(a, w, CommitOutgoing(m, peerKey, seed))
    ensures var s := SessionOf(w, m.conversation, peerKey);
      EnvelopeAt(a, s.(events := s.events + [Sent(m.id, m.payload, seed)]), |s.events|, m.conversation).Some?
    ensures var sid := SessionId(m.conversation, peerKey); var s := SessionOf(w, m.conversation, peerKey);
      var s' := s.(events := s.events + [Sent(m.id, m.payload, seed)]);
      var o := Outgoing(m.conversation, sid, |s.events|, EnvelopeAt(a, s', |s.events|, m.conversation).value, m);
      InUse(w, sid, s) &&
      Next(a, w, CommitOutgoing(m, peerKey, seed))
        == w.(db := AfterOutgoing(w.db, sid, Current(a.suite, s'), m, o.envelope),
              sessions := w.sessions[sid := s'], outgoing := w.outgoing[m.id := o])
  {
    var s := SessionOf(w, m.conversation, peerKey);
    SessionInUse(a, w, m.conversation, peerKey);
    ReplayAppend(a.suite, SessionStart(a.suite, s), s.events, Sent(m.id, m.payload, seed));
    assert (s.events + [Sent(m.id, m.payload, seed)])[..|s.events|] == s.events;
  }

  lemma CommitOutgoingInv(a: Account, w: World, step: Step)
    requires Inv(a, w) && Enabled(a, w, step) && step.CommitOutgoing?
    ensures Inv(a, Next(a, w, step))
  {
    var m, peerKey, seed := step.message, step.peerKey, step.seed;
    var sid := SessionId(m.conversation, peerKey);
    var s := SessionOf(w, m.conversation, peerKey);
    var event := Sent(m.id, m.payload, seed);
    var s' := s.(events := s.events + [event]);
    CommitOutgoingNext(a, w, m, peerKey, seed);
    hide Inv, Next;
    CommitOutgoingKeeps(a, w, m, sid, s, event,
      Outgoing(m.conversation, sid, |s.events|, EnvelopeAt(a, s', |s.events|, m.conversation).value, m));
  }

  lemma TransmitInv(a: Account, w: World, step: Step)
    requires Inv(a, w) && Enabled(a, w, step) && step.Transmit?
    ensures Inv(a, Next(a, w, step))
  {
    var o := w.outgoing[step.id];
    assert OwnRow(a, w.db, w.rows, step.id, o);
    WireGrows(a, w.rows, w.wire, w.outgoing, Transmission(step.id, o.conversation, o.envelope));
  }

  lemma WireGrows(a: Account, rows: seq<Row>, wire: set<Transmission>, outgoing: map<string, Outgoing>, t: Transmission)
    requires RowsOk(a, rows, wire, outgoing) && WireOk(wire, outgoing)
    requires t.id in outgoing && t.conversation == outgoing[t.id].conversation && t.content == outgoing[t.id].envelope
    ensures RowsOk(a, rows, wire + {t}, outgoing) && WireOk(wire + {t}, outgoing)
  {
    forall i | 0 <= i < |rows| ensures RowOk(a, wire + {t}, outgoing, rows[i]) {
      assert RowOk(a, wire, outgoing, rows[i]);
    }
  }

  lemma AcceptInv(a: Account, w: World, step: Step)
    requires Inv(a, w) && Enabled(a, w, step) && step.Accept?
    ensures Inv(a, Next(a, w, step))
  {
    var t := step.transmission;
    var row := Row(t.id, t.conversation, a.userId, t.content, step.sentAt);
    assert t == Transmission(row.id, row.conversation, row.content);
    AppendInv(a, w, row);
  }

  lemma PeerPostInv(a: Account, w: World, step: Step)
    requires Inv(a, w) && Enabled(a, w, step) && step.PeerPost?
    ensures Inv(a, Next(a, w, step))
  {
    AppendInv(a, w, step.row);
  }

  lemma AppendInv(a: Account, w: World, row: Row)
    requires Inv(a, w) && Appendable(w.rows, row) && RowOk(a, w.wire, w.outgoing, row)
    ensures Inv(a, w.(rows := w.rows + [row]))
  {
    OutboxOkGrows(a, w.db, w.rows, row, w.outgoing);
    InboxOkGrows(a, w.db.messages, w.rows, row, w.incoming);
    RowsOkGrows(a, w.rows, w.wire, w.outgoing, row);
  }

  lemma MarkSentInv(a: Account, w: World, step: Step)
    requires Inv(a, w) && Enabled(a, w, step) && step.MarkSent?
    ensures Inv(a, Next(a, w, step))
  {
    hide OwnRow, Keyed, OutboxOk, WireOk, RowsOk, SessionsOk, StepsOk, InboxOk, StoredAs, LoadOutbox;
    var id := step.id;
    PendingFacts(a, w, id);
    KeyedUpsert(w.db.messages, w.db.messages[id].(isSent := true));
    OutboxAfterSent(a, w.db, w.rows, w.outgoing, id);
    SessionsAfterSent(a, w.db.kv, w.sessions, id);
    InboxIgnoresOwn(a, w.db.messages, w.rows, w.incoming, w.db.messages[id].(isSent := true));
  }

  /** An own message with an outbox entry: the entry is the envelope committed for it. */
  lemma PendingFacts(a: Account, w: World, id: string)
    requires Inv(a, w) && Own(w.db, id) && LoadOutbox(w.db.kv, id).Some?
    ensures w.db.messages[id].id == id && ValidUuid(id) && id in w.outgoing
    ensures w.db.messages[id].conversation == w.outgoing[id].conversation
    ensures LoadOutbox(w.db.kv, id).value == w.outgoing[id].envelope
  {
    OwnKeyed(a, w, id);
    assert OwnRow(a, w.db, w.rows, id, w.outgoing[id]);
  }

  lemma ReceiptInv(a: Account, w: World, step: Step)
    requires Inv(a, w) && Enabled(a, w, step) && step.Receipt?
    ensures Inv(a, Next(a, w, step))
  {
    hide Inv;
    OwnKeyed(a, w, step.id);
    ReceiptKeeps(a, w, w.db.messages[step.id].(isRead := step.isRead, isDelivered := step.isDelivered));
  }

  lemma ReceiptKeeps(a: Account, w: World, m: Message)
    requires Inv(a, w) && Own(w.db, m.id) && m == w.db.messages[m.id].(isRead := m.isRead, isDelivered := m.isDelivered)
    ensures Inv(a, w.(db := AfterUpsert(w.db, m)))
  {
    hide OwnRow, Keyed, OutboxOk, WireOk, RowsOk, SessionsOk, StepsOk, InboxOk;
    KeyedUpsert(w.db.messages, m);
    OutboxAfterReceipt(a, w.db, w.rows, w.outgoing, m);
    InboxIgnoresOwn(a, w.db.messages, w.rows, w.incoming, m);
  }

  lemma CommitReceivedKeeps(a: Account, w: World, m: Message, sid: string, s: Session, event: Event, n: Incoming)
    requires Inv(a, w) && InUse(w, sid, s)
    requires n.row in w.rows && n.row.sender != a.userId && n.row.id !in w.db.messages
    requires m.id == n.row.id && m.conversation == n.row.conversation && m.sender == n.row.sender
    requires m.timestamp == n.row.sentAt && m.isSent
    requires event.Received? && event.id == m.id && n.sessionId == sid && n.step == |s.events| && n.payload == m.payload
    requires OpeningAt(a, s.(events := s.events + [event]), n.step, n.row) == Some(n.payload)
    ensures var s' := s.(events := s.events + [event]);
      Inv(a, w.(db := AfterReceived(w.db, sid, Current(a.suite, s'), m), sessions := w.sessions[sid := s'],
                incoming := w.incoming[m.id := n]))
  {
    hide Keyed, OutboxOk, WireOk, RowsOk, SessionsOk, StepsOk, InboxOk;
    CommittedIdsAreStored(a, w, m.id);
    KeyedUpsert(w.db.messages, m);
    RowIsOk(a, w, n.row);
    var s' := s.(events := s.events + [event]);
    var next := Current(a.suite, s');
    SessionsAfterStep(a, w.db.kv, w.sessions, sid, s, event);
    StepsAfterReceive(a, w.sessions, w.outgoing, w.incoming, sid, s, event, n);
    assert OutboxOk(a, AfterReceived(w.db, sid, next, m), w.rows, w.outgoing) by {
      SessionWrite(w.db.kv, s.conversation, s.peerKey, next);
      OutboxIgnoresPeer(a, w.db, w.rows, w.outgoing, m, w.db.kv[SessionKey(sid) := SessionBlob(next)]);
    }
    InboxAfterReceived(a, w.db.messages, w.rows, w.incoming, m, n);
  }

  lemma CommitReceivedInv(a: Account, w: World, step: Step)
    requires Inv(a, w) && Enabled(a, w, step) && step.CommitReceived?
    ensures Inv(a, Next(a, w, step))
  {
    var row, m, peerKey, seed := step.row, step.message, step.peerKey, step.seed;
    var sid := SessionId(row.conversation, peerKey);
    var s := SessionOf(w, row.conversation, peerKey);
    SessionInUse(a, w, row.conversation, peerKey);
    var event := Received(row.id, row.content.header, seed);
    ReplayAppend(a.suite, SessionStart(a.suite, s), s.events, event);
    assert (s.events + [event])[..|s.events|] == s.events;
    CommitReceivedKeeps(a, w, m, sid, s, event, Incoming(sid, |s.events|, row, m.payload));
  }

  lemma StepKeepsInv(a: Account, w: World, step: Step)
    requires Inv(a, w) && Enabled(a, w, step)
    ensures Inv(a, Next(a, w, step))
  {
    hide Inv, Enabled, Next;
    match step
    case CommitOutgoing(_, _, _) => CommitOutgoingInv(a, w, step);
    case Transmit(_) => TransmitInv(a, w, step);
    case Accept(_, _) => AcceptInv(a, w, step);
    case PeerPost(_) => PeerPostInv(a, w, step);
    case MarkSent(_) => MarkSentInv(a, w, step);
    case Receipt(_, _, _) => ReceiptInv(a, w, step);
    case CommitReceived(_, _, _, _) => CommitReceivedInv(a, w, step);
  }

  /** The invariant holds after every run, however it was cut short. */
  lemma RunKeepsInv(a: Account, w0: World, steps: seq<Step>, w: World)
    requires Inv(a, w0) && Reaches(a, w0, steps, w)
    ensures Inv(a, w)
  {
    hide Inv, Enabled, Next;
    var inv := (v: World) => Inv(a, v);
    forall v, step | inv(v) && Protocol(a).enabled(v, step) ensures inv(Protocol(a).next(v, step)) {
      StepKeepsInv(a, v, step);
    }
    RunKeeps(Protocol(a), inv, w0, steps, w);
  }

  // ---- What a run never takes back

  /** `w` has a later version `w'` of the same history. */
  ghost predicate Later(w: World, w': World) {
    && (forall id <- w.outgoing :: id in w'.outgoing && w'.outgoing[id] == w.outgoing[id])
    && (forall id <- w.incoming :: id in w'.incoming && w'.incoming[id] == w.incoming[id])
    && (forall id <- w.incoming :: id in w.db.messages ==>
          id in w'.db.messages && w'.db.messages[id] == w.db.messages[id])
    && (forall id <- w.outgoing :: Own(w.db, id) && w.db.messages[id].isSent ==>
          Own(w'.db, id) && w'.db.messages[id].isSent)
    && (forall sid <- w.sessions :: sid in w'.sessions && w.sessions[sid].events <= w'.sessions[sid].events)
    && w.rows <= w'.rows && w.wire <= w'.wire
  }

  lemma OwnIsNotIncoming(a: Account, w: World, id: string)
    requires Inv(a, w) && Own(w.db, id)
    ensures id !in w.incoming
  {
    if id in w.incoming && !IncomingRow(a, w.db.messages, w.rows, id, w.incoming[id]) { assert false; }
  }

  lemma CommitOutgoingIsLater(a: Account, w: World, step: Step)
    requires Inv(a, w) && Enabled(a, w, step) && step.CommitOutgoing?
    ensures Later(w, Next(a, w, step))
  {
    hide Inv;
    CommittedIdsAreStored(a, w, step.message.id);
    hide StateFor, LoadSession, Encrypt;
    var m := step.message;
    var sid := SessionId(m.conversation, step.peerKey);
    assert SessionOf(w, m.conversation, step.peerKey).events <= Next(a, w, step).sessions[sid].events;
  }

  lemma CommitReceivedIsLater(a: Account, w: World, step: Step)
    requires Inv(a, w) && Enabled(a, w, step) && step.CommitReceived?
    ensures Later(w, Next(a, w, step))
  {
    hide Inv;
    CommittedIdsAreStored(a, w, step.row.id);
    hide StateFor, LoadSession, Decrypt;
    var sid := SessionId(step.row.conversation, step.peerKey);
    assert SessionOf(w, step.row.conversation, step.peerKey).events <= Next(a, w, step).sessions[sid].events;
  }

  lemma OwnUpdateIsLater(a: Account, w: World, step: Step)
    requires step.MarkSent? || step.Receipt?
    requires Inv(a, w) && Enabled(a, w, step)
    ensures Later(w, Next(a, w, step))
  {
    hide Inv, LoadOutbox, StoredAs;
    OwnIsNotIncoming(a, w, step.id);
    OwnKeyed(a, w, step.id);
  }

  lemma OtherStepIsLater(a: Account, w: World, step: Step)
    requires step.Transmit? || step.Accept? || step.PeerPost?
    requires Enabled(a, w, step)
    ensures Later(w, Next(a, w, step))
  {}

  lemma StepIsLater(a: Account, w: World, step: Step)
    requires Inv(a, w) && Enabled(a, w, step)
    ensures Later(w, Next(a, w, step))
  {
    hide Inv, Later, Next;
    if step.CommitOutgoing? { CommitOutgoingIsLater(a, w, step); }
    else if step.CommitReceived? { CommitReceivedIsLater(a, w, step); }
    else if step.MarkSent? || step.Receipt? { OwnUpdateIsLater(a, w, step); }
    else { OtherStepIsLater(a, w, step); }
  }

  lemma OwnKeyed(a: Account, w: World, id: string)
    requires Inv(a, w) && Own(w.db, id)
    ensures w.db.messages[id].id == id
  {
    assert Keyed(w.db.messages);
  }

  lemma LaterTransitive(u: World, v: World, w: World)
    requires Later(u, v) && Later(v, w)
    requires forall id <- u.incoming :: id in u.db.messages
    ensures Later(u, w)
  {
    forall sid <- u.sessions ensures sid in w.sessions && u.sessions[sid].events <= w.sessions[sid].events {
      assert u.sessions[sid].events <= v.sessions[sid].events <= w.sessions[sid].events;
    }
  }

  /** Nothing committed is ever taken back or rewritten: not an envelope, a ratchet step, a received
      message, a sent mark, a row or a transmission. */
  lemma RunIsLater(a: Account, w0: World, steps: seq<Step>, w: World)
    requires Inv(a, w0) && Reaches(a, w0, steps, w)
    ensures Later(w0, w)
  {
    hide Inv, Enabled, Next, Later;
    var inv := (v: World) => Inv(a, v) && Later(w0, v);
    LaterReflexive(w0);
    forall v, step | inv(v) && Protocol(a).enabled(v, step) ensures inv(Protocol(a).next(v, step)) {
      StepKeepsInv(a, v, step);
      StepIsLater(a, v, step);
      IncomingStored(a, w0);
      LaterTransitive(w0, v, Next(a, v, step));
    }
    RunKeeps(Protocol(a), inv, w0, steps, w);
  }

  lemma LaterReflexive(w: World)
    ensures Later(w, w)
  {}

  lemma IncomingStored(a: Account, w: World)
    requires Inv(a, w)
    ensures forall id <- w.incoming :: id in w.db.messages
  {
    forall id <- w.incoming ensures id in w.db.messages { CommittedIdsAreStored(a, w, id); }
  }
}
