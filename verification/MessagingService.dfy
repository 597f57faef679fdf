/**
 * The client's messaging operations, statement by statement.
 *
 * Every await may fail, and a crash at an await looks the same from the outside:
 * the operation ends and only the database and the server remain. Between awaits
 * the other side may post and delayed requests may arrive. Each operation is shown
 * to be a run of the protocol, so what is proved of runs holds of it.
 */
module MessagingService {
  import opened Basics
  import opened RatchetCodec
  import opened LocalStore
  import opened MessageServer
  import opened Runs
  import opened MessagingProtocol
  import opened MessagingSafety
  import opened SyncPaging
  import opened MessageOpening
  import opened SyncHistory

  datatype Contact = Contact(id: string, peerKey: string, isVerified: bool, isBlocked: bool)

  datatype Conversation = Conversation(id: string, isGroup: bool, participants: seq<Contact>)

  /** How an operation ends: with a value, or with an exception or a crash. */
  datatype Outcome<+T> = Ok(value: T) | Failed

  /** What a sync has read of one conversation: the local rows, their ids, and the server's rows. */
  datatype Reading = Reading(local: seq<Message>, known: set<string>, batches: seq<Row>)

  class Service {
    const account: Account
    const db: LocalDatabase
    const server: Server
    var authenticated: bool
    var contacts: map<string, Contact>
    var blocked: set<string>
    // History of what has been sent and committed.
    var wire: set<Transmission>
    var sessions: map<string, Session>
    var outgoing: map<string, Outgoing>
    var incoming: map<string, Incoming>

    ghost function View(): World
      reads this, db, server
    {
      World(db.View(), server.rows, wire, sessions, outgoing, incoming)
    }

    ghost predicate Valid()
      reads this, db, server
    {
      server.Valid() && Inv(account, View())
    }

    /** The ratchet state an operation on the conversation would load. */
    ghost function Ratchet(conversation: string, peer: Contact): Option<SessionState> reads this, db {
      StateInUse(account.suite, db.kv, conversation, peer.peerKey)
    }

    constructor (account: Account, db: LocalDatabase, server: Server)
      requires db.View() == EMPTY.db && server.rows == []
      ensures Valid() && View() == EMPTY
      ensures this.account == account && this.db == db && this.server == server
    {
      this.account, this.db, this.server := account, db, server;
      authenticated, contacts, blocked := false, map[], {};
      wire, sessions, outgoing, incoming := {}, map[], map[], map[];
      new;
      EmptyInv(account);
    }

    /** One step of the protocol, taken after a run. */
    ghost method Took(before: World, steps: seq<Step>, w: World, step: Step) returns (longer: seq<Step>)
      requires Inv(account, w) && Reaches(account, before, steps, w) && Enabled(account, w, step)
      requires View() == Next(account, w, step)
      ensures longer == steps + [step]
      ensures Inv(account, View()) && Reaches(account, before, longer, View())
    {
      longer := steps + [step];
      StepKeepsInv(account, w, step);
      RunStep(Protocol(account), before, steps, w, step);
    }

    /** The other side posts, or a delayed request of ours arrives, any number of times. */
    method Meanwhile() returns (ghost steps: seq<Step>)
      requires Valid()
      modifies server`rows
      ensures Valid() && Reaches(account, old(View()), steps, View())
      ensures old(server.rows) <= server.rows
      ensures Transmits(steps, {})
    {
      hide Inv, Enabled, Reaches;
      steps := [];
      RunNone(account, View());
      var arrivals: seq<Row> :| true;
      for i := 0 to |arrivals|
        invariant Valid() && Reaches(account, old(View()), steps, View())
        invariant old(server.rows) <= server.rows
        invariant Transmits(steps, {})
      {
        steps := Arrive(arrivals[i], old(View()), steps);
      }
    }

    /** A row is stored if it is one that can arrive now. */
    method Arrive(row: Row, ghost before: World, ghost steps: seq<Step>) returns (ghost longer: seq<Step>)
      requires Valid() && Reaches(account, before, steps, View())
      modifies server`rows
      ensures Valid() && Reaches(account, before, longer, View())
      ensures old(server.rows) <= server.rows
      ensures Transmits(steps, {}) ==> Transmits(longer, {})
    {
      hide Transmits;
      longer := steps;
      if !Appendable(server.rows, row) { return; }
      if row.sender == account.userId {
        var t := Transmission(row.id, row.conversation, row.content);
        if t in wire {
          server.rows := server.rows + [row];
          longer := Took(before, steps, old(View()), Accept(t, row.sentAt));
          NothingElseSent(steps, Accept(t, row.sentAt), {});
        }
      } else if row.sender != ME && row.id !in outgoing {
        server.rows := server.rows + [row];
        longer := Took(before, steps, old(View()), PeerPost(row));
        NothingElseSent(steps, PeerPost(row), {});
      }
    }

    /** A request carrying a pending message's envelope: it may not leave, not arrive, be refused, or be
        answered without the answer getting through. True only when an acceptance was read. */
    method Request(message: Message, envelope: Envelope) returns (accepted: bool, ghost steps: seq<Step>)
      requires Valid()
      requires Own(db.View(), message.id) && db.messages[message.id] == message && !message.isSent
      requires LoadOutbox(db.kv, message.id) == Some(envelope)
      modifies server`rows, this`wire
      ensures Valid() && Reaches(account, old(View()), steps, View())
      ensures old(server.rows) <= server.rows
      ensures accepted ==> StoredAs(server.rows, account.userId, message.id, message.conversation, envelope)
      ensures Transmits(steps, {message.id})
    {
      hide Inv, Reaches, Transmits;
      accepted := false;
      steps := Meanwhile();
      NoneSent(steps, message.id);
      var leaves := *;
      if !leaves { return; }
      ghost var w := View();
      wire := wire + {Transmission(message.id, message.conversation, envelope)};
      OneSent(steps, message.id);
      steps := Took(old(View()), steps, w, Transmit(message.id));
      ghost var later := Meanwhile();
      SentBefore(steps, later, message.id);
      label sent:
      Chain(account, old(View()), steps, w.(wire := wire), later, View());
      steps := steps + later;
      var arrives := *;
      if !arrives { return; }
      w := View();
      ghost var stored := server.rows;
      var status := server.Post(account.userId, message.conversation, envelope, message.id);
      if status == Created {
        ghost var at :| server.rows == stored + [Row(message.id, message.conversation, account.userId, envelope, at)]
          && Appendable(stored, Row(message.id, message.conversation, account.userId, envelope, at));
        NothingElseSent(steps, Accept(Transmission(message.id, message.conversation, envelope), at), {message.id});
        steps := Took(old(View()), steps, w, Accept(Transmission(message.id, message.conversation, envelope), at));
      }
      var answered := *;
      accepted := answered && status in {Created, AlreadyStored};
    }

    /** _deliver: send the stored envelope, and once that is acknowledged mark the message sent. */
    method Deliver(message: Message, envelope: Envelope)
      returns (result: Outcome<Message>, ghost steps: seq<Step>)
      requires Valid()
      requires Own(db.View(), message.id) && db.messages[message.id] == message && !message.isSent
      requires LoadOutbox(db.kv, message.id) == Some(envelope)
      modifies server`rows, db, this`wire
      ensures Valid() && Reaches(account, old(View()), steps, View())
      ensures old(server.rows) <= server.rows
      ensures result.Ok? ==>
        && result.value == message.(isSent := true)
        && db.View() == AfterSent(old(db.View()), result.value)
        && StoredAs(server.rows, account.userId, message.id, message.conversation, envelope)
      ensures result.Failed? ==> db.View() == old(db.View())
      ensures Transmits(steps, {message.id})
    {
      hide Inv, Reaches;
      var accepted;
      accepted, steps := Request(message, envelope);
      if !accepted { return Failed, steps; }
      var sent := message.(isSent := true);
      OwnKeyed(account, View(), message.id);
      ghost var w := View();
      var ok := db.CommitMessageSent(sent);
      if !ok { return Failed, steps; }
      steps := Took(old(View()), steps, w, MarkSent(message.id));
      result := Ok(sent);
    }

    /** send: encrypt, commit ratchet step, row and envelope together, and only then let anything out. */
    method Send(conversation: Conversation, payload: Payload, id: string, now: int)
      returns (result: Outcome<Message>, ghost steps: seq<Step>)
      requires Valid()
      // The message id is a fresh UUID.
      requires ValidUuid(id) && id !in db.messages && !HasId(server.rows, id)
      modifies server`rows, db, this`wire, this`sessions, this`outgoing
      ensures Valid() && Reaches(account, old(View()), steps, View())
      ensures !authenticated || conversation.isGroup || |conversation.participants| != 1 ==>
        result.Failed? && View() == old(View())
      // The stored contact counts, if there is one: a blocked one is refused, and nothing is sealed for an
      // unverified one, nor in any session but that contact's.
      ensures |conversation.participants| == 1 ==>
        var p := conversation.participants[0];
        var peer := if p.id in contacts then contacts[p.id] else p;
        && (peer.isBlocked || peer.id in blocked || !peer.isVerified ==> result.Failed? && View() == old(View()))
        && (id in outgoing ==> outgoing[id].sessionId == SessionId(conversation.id, peer.peerKey))
      ensures id in outgoing ==>
        && outgoing == old(outgoing)[id := outgoing[id]]
        && id in db.messages && SameButFlags(db.messages[id], Message(id, conversation.id, ME, payload, now, false, false, false))
        && db.messages == old(db.messages)[id := db.messages[id]]
      ensures id !in outgoing ==> result.Failed? && db.View() == old(db.View()) && outgoing == old(outgoing)
      ensures result.Ok? ==>
        && result.value == Message(id, conversation.id, ME, payload, now, true, false, false)
        && id in db.messages && db.messages[id] == result.value && id in outgoing
        && StoredAs(server.rows, account.userId, id, conversation.id, outgoing[id].envelope)
    {
      hide Inv, Reaches;
      NotYetCommitted(account, View(), id);
      steps := [];
      RunNone(account, View());
      if !authenticated { return Failed, steps; }
      if conversation.isGroup || |conversation.participants| != 1 { return Failed, steps; }
      var participant := conversation.participants[0];
      var peer := if participant.id in contacts then contacts[participant.id] else participant;
      if peer.isBlocked || peer.id in blocked { return Failed, steps; }
      var message := Message(id, conversation.id, ME, payload, now, false, false, false);
      var envelope;
      envelope, steps := Encrypt(peer, message);
      if envelope.None? { return Failed, steps; }
      ghost var w := View();
      ghost var delivery;
      result, delivery := Deliver(message, envelope.value);
      Chain(account, old(View()), steps, w, delivery, View());
      steps := steps + delivery;
    }

    /** The codec's encrypt with the commit callback of `send`; the state it stepped is dropped either way. */
    method Encrypt(peer: Contact, message: Message) returns (envelope: Option<Envelope>, ghost steps: seq<Step>)
      requires Valid()
      requires ValidUuid(message.id) && message.id !in db.messages && !HasId(server.rows, message.id)
      requires message.sender == ME && !message.isSent
      modifies db, this`sessions, this`outgoing
      ensures Valid() && Reaches(account, old(View()), steps, View())
      ensures envelope.None? ==> View() == old(View())
      ensures envelope.Some? ==>
        && peer.isVerified && old(Ratchet(message.conversation, peer)).Some?
        && Own(db.View(), message.id) && db.messages == old(db.messages)[message.id := message]
        && LoadOutbox(db.kv, message.id) == envelope
        && message.id in outgoing && outgoing == old(outgoing)[message.id := outgoing[message.id]]
        && outgoing[message.id].envelope == envelope.value
        && outgoing[message.id].sessionId == SessionId(message.conversation, peer.peerKey)
    {
      hide Inv, Reaches;
      steps := [];
      RunNone(account, View());
      if !peer.isVerified { return None, steps; }
      var sid := SessionId(message.conversation, peer.peerKey);
      var state := StateFor(account.suite, LoadSession(db.kv, sid), message.conversation, peer.peerKey);
      var loaded := *;
      if !loaded || state.None? { return None, steps; }
      var seed: nat :| true;
      var encrypted := RatchetCodec.Encrypt(account.suite, state.value, message.conversation, message.id,
                                            account.userId, message.payload, seed);
      if encrypted.None? { return None, steps; }
      var (next, sealed) := encrypted.value;
      ghost var w := View();
      var ok := db.CommitOutgoingMessage(sid, next, message, sealed);
      if !ok { return None, steps; }
      ghost var step := CommitOutgoing(message, peer.peerKey, seed);
      var session := if sid in sessions then sessions[sid] else Session(message.conversation, peer.peerKey, []);
      sessions := sessions[sid := session.(events := session.events + [Sent(message.id, message.payload, seed)])];
      outgoing := outgoing[message.id := Outgoing(message.conversation, sid, |session.events|, sealed, message)];
      steps := Took(old(View()), steps, w, step);
      envelope := Some(sealed);
    }

    /** Every own message of the conversation is marked sent. */
    ghost predicate NothingPending(conversation: string) reads db {
      forall id <- db.messages ::
        db.messages[id].conversation == conversation && db.messages[id].sender == ME ==> db.messages[id].isSent
    }

    /** One turn of the retry loop: skip the message unless it is an own one still pending. */
    method Resend(message: Message) returns (settled: bool, ghost steps: seq<Step>)
      requires Valid() && message.id in db.messages && db.messages[message.id] == message
      modifies server`rows, db, this`wire
      ensures Valid() && Reaches(account, old(View()), steps, View())
      ensures db.messages.Keys == old(db.messages.Keys)
      ensures forall id <- db.messages :: id != message.id ==> db.messages[id] == old(db.messages)[id]
      ensures settled && db.messages[message.id].sender == ME ==> db.messages[message.id].isSent
      ensures Transmits(steps, {message.id})
    {
      hide Inv, Reaches;
      steps := [];
      RunNone(account, View());
      if message.sender != ME || message.isSent { return true, steps; }
      PendingEnvelope(account, View(), message.id);
      var loaded := *;
      if !loaded { return false, steps; }
      var envelope := LoadOutbox(db.kv, message.id);
      settled := true;
      if envelope.Some? {
        var delivered;
        delivered, steps := Deliver(message, envelope.value);
        settled := delivered.Ok?;
      }
    }

    /** retryPending: send every pending message's stored envelope again, in the order of their times. If it
        completes, every own message of the conversation is sent, so (ExactlyOnce) each has exactly one row on the
        server. */
    method RetryPending(conversation: string) returns (result: Outcome<()>, ghost steps: seq<Step>)
      requires Valid()
      modifies server`rows, db, this`wire
      ensures Valid() && Reaches(account, old(View()), steps, View())
      ensures result.Ok? ==> NothingPending(conversation)
      ensures result.Ok? ==> forall id <- outgoing :: outgoing[id].conversation == conversation ==>
        StoredAs(server.rows, account.userId, id, conversation, outgoing[id].envelope)
      ensures SentInTimeOrder(steps, old(db.messages), conversation)
    {
      hide Inv, Reaches, SentInTimeOrder, Transmits, SentUpTo, InTimeOrder, DistinctIds, Handled;
      steps := [];
      RunNone(account, View());
      NothingSentYet(db.messages, conversation);
      var list := db.GetMessages(conversation);
      if list.None? { return Failed, steps; }
      var messages := list.value;
      KeyedMessages(account, View());
      NothingSent(db.messages, conversation, messages);
      assert Handled(messages[..0]) == {} by { AllHandled(messages[..0]); }
      for i := 0 to |messages|
        invariant Valid() && Reaches(account, old(View()), steps, View())
        invariant db.messages.Keys == old(db.messages.Keys)
        invariant forall id <- db.messages :: id !in Handled(messages[..i]) ==> db.messages[id] == old(db.messages)[id]
        invariant forall id <- Handled(messages[..i]) :: id in db.messages ==>
          db.messages[id].sender == ME ==> db.messages[id].isSent
        invariant SentUpTo(steps, old(db.messages), conversation, messages, i)
      {
        NextHandled(messages, i);
        ghost var w := View();
        var settled;
        ghost var delivery;
        settled, delivery := Resend(messages[i]);
        Chain(account, old(View()), steps, w, delivery, View());
        OneMoreSent(old(db.messages), conversation, messages, i, steps, delivery);
        steps := steps + delivery;
        if !settled { SentSoFar(steps, old(db.messages), conversation, messages, i + 1); return Failed, steps; }
      }
      SentSoFar(steps, old(db.messages), conversation, messages, |messages|);
      AllHandled(messages);
      assert NothingPending(conversation);
      SentIsStored(account, View(), conversation);
      return Ok(()), steps;
    }

    /** One page request; rows may have arrived since the conversation was `start`. */
    method NextPage(conversation: string, ghost start: seq<Row>, ghost hi: nat, beforeId: Option<string>)
      returns (batch: Option<seq<Row>>, ghost steps: seq<Step>)
      requires Valid() && start <= server.rows
      requires var view := InConversation(start, conversation);
        hi <= |view| && if beforeId.None? then hi == |view| && server.rows == start
                        else hi < |view| && beforeId == Some(view[hi].id)
      modifies server`rows
      ensures Valid() && Reaches(account, old(View()), steps, View())
      ensures old(server.rows) <= server.rows
      ensures batch.Some? ==> batch.value == InConversation(start, conversation)[PageStart(hi)..hi]
    {
      hide Inv, Reaches, Enabled;
      steps := [];
      RunNone(account, View());
      if beforeId.Some? { steps := Meanwhile(); }
      var answered := *;
      if !answered { return None, steps; }
      batch := server.GetMessages(account.userId, conversation, beforeId, None, Some(PAGE_LIMIT));
      PageOfGrownTable(start, server.rows, conversation, hi, beforeId);
    }

    /** The paging loop of `sync`: pages are put in front of each other until one is short, holds a known
        message, or fifty have been read. `start` is the table when the first page was read, at some moment
        of the call; what arrives between requests changes nothing. */
    method FetchPages(conversation: string, known: set<string>)
      returns (batches: Option<seq<Row>>, ghost start: seq<Row>, ghost steps: seq<Step>)
      requires Valid()
      modifies server`rows
      ensures Valid() && Reaches(account, old(View()), steps, View())
      ensures old(server.rows) <= start <= server.rows && Table(InConversation(start, conversation))
      ensures batches.Some? ==> batches.value == Fetched(InConversation(start, conversation), known)
    {
      steps := Meanwhile();
      hide Inv, Reaches, Enabled, InConversation, Ordered, FetchStart, UniqueIds;
      start := server.rows;
      ghost var view := InConversation(start, conversation);
      InConversationTable(start, conversation);
      ghost var hi := |view|;
      var rows: seq<Row> := [];
      var beforeId: Option<string> := None;
      var page := 0;
      while page < MAX_PAGES
        invariant 0 <= page <= MAX_PAGES && Valid() && Reaches(account, old(View()), steps, View())
        invariant old(server.rows) <= start <= server.rows
        invariant 0 <= hi <= |view| && rows == view[hi..]
        invariant FetchStart(view, known, |view|, MAX_PAGES) == FetchStart(view, known, hi, MAX_PAGES - page)
        invariant if page == 0 then beforeId == None && hi == |view| && server.rows == start
                  else hi < |view| && beforeId == Some(view[hi].id)
      {
        ghost var w := View();
        var batch;
        ghost var request;
        batch, request := NextPage(conversation, start, hi, beforeId);
        Chain(account, old(View()), steps, w, request, View());
        steps := steps + request;
        if batch.None? { return None, start, steps; }
        FetchStep(view, known, hi, MAX_PAGES - page, batch.value, rows);
        rows := batch.value + rows;
        hi := PageStart(hi);
        if |batch.value| < PAGE_LIMIT || AnyKnown(batch.value, known) { break; }
        beforeId := Some(batch.value[0].id);
        page := page + 1;
      }
      if page == MAX_PAGES { FetchNone(view, known, hi); }
      batches := Some(rows);
    }

    /** One row that was read, with the receipts the server has for it: the receipts are noted for an own message,
        nothing is done for a known one, and any other is decrypted and committed. A row that cannot be opened, or whose
        commit fails, changes nothing. */
    method Apply(row: Row, isRead: bool, isDelivered: bool, peer: Contact, known: set<string>, saved: Option<Message>)
      returns (ok: bool, ghost steps: seq<Step>)
      requires Valid() && row in server.rows
      requires row.id in known <==> row.id in db.messages
      requires saved == if row.id in db.messages then Some(db.messages[row.id]) else None
      modifies db, this`sessions, this`incoming
      ensures Valid() && Reaches(account, old(View()), steps, View())
      ensures forall id <- old(db.messages) ::
        id in db.messages && (id != row.id ==> db.messages[id] == old(db.messages)[id])
      ensures db.messages.Keys == old(db.messages.Keys) + if ok then PeerIds([row], account.userId) else {}
      ensures !ok ==> View() == old(View())
      ensures ok && row.sender == account.userId && row.id in old(db.messages) ==>
        db.messages == old(db.messages)[row.id := old(db.messages)[row.id].(isRead := isRead, isDelivered := isDelivered)]
      ensures ok && row.sender != account.userId && row.id !in old(db.messages) ==>
        row.id in db.messages
        && db.messages == old(db.messages)[row.id := Message(row.id, row.conversation, row.sender, db.messages[row.id].payload,
                                                             row.sentAt, true, isRead, isDelivered)]
      ensures row.sender != account.userId && row.id in old(db.messages) ==> View() == old(View())
      ensures row.sender == account.userId && row.id !in old(db.messages) ==> View() == old(View())
      ensures Moves(account.suite, old(Ratchet(row.conversation, peer)),
                    if ok then Pending([row], old(db.messages.Keys), account.userId) else [],
                    Ratchet(row.conversation, peer))
      ensures ReceivesIn(steps, row.conversation, peer.peerKey)
    {
      hide Inv, Reaches;
      steps := [];
      RunNone(account, View());
      RowKnowledge(account, View(), row);
      ok := true;
      if row.sender == account.userId {
        if saved.Some? {
          OwnKeyed(account, View(), row.id);
          ghost var w := View();
          ok := db.AddMessage(saved.value.(isRead := isRead, isDelivered := isDelivered));
          if ok { steps := Took(old(View()), steps, w, Receipt(row.id, isRead, isDelivered)); }
        }
        return;
      }
      if row.id in known { return; }
      ok, steps := Decrypt(row, isRead, isDelivered, peer);
      if ok {
        OpenedIsPending(account.suite, old(Ratchet(row.conversation, peer)).value, row, Ratchet(row.conversation, peer).value,
                        db.messages[row.id].payload, old(db.messages.Keys), account.userId);
      }
    }

    /** The codec's decrypt with the commit callback of `sync`. */
    method Decrypt(row: Row, isRead: bool, isDelivered: bool, peer: Contact) returns (ok: bool, ghost steps: seq<Step>)
      requires Valid() && row in server.rows && row.sender != account.userId && row.id !in db.messages
      modifies db, this`sessions, this`incoming
      ensures Valid() && Reaches(account, old(View()), steps, View())
      ensures ok ==>
        && row.id in db.messages
        && db.messages == old(db.messages)[row.id := Message(row.id, row.conversation, row.sender, db.messages[row.id].payload,
                                                             row.sentAt, true, isRead, isDelivered)]
      ensures ok ==>
        var from, to := old(Ratchet(row.conversation, peer)), Ratchet(row.conversation, peer);
        && peer.isVerified && from.Some? && LoadSession(db.kv, SessionId(row.conversation, peer.peerKey)) == to != None
        && exists seed: nat :: Opens(account.suite, from.value, row, seed, to.value, db.messages[row.id].payload)
      ensures ReceivesIn(steps, row.conversation, peer.peerKey)
      ensures !ok ==> View() == old(View())
    {
      hide Inv, Reaches;
      steps := [];
      RunNone(account, View());
      if !peer.isVerified { return false, steps; }
      var sid := SessionId(row.conversation, peer.peerKey);
      var state := StateFor(account.suite, LoadSession(db.kv, sid), row.conversation, peer.peerKey);
      var loaded := *;
      if !loaded || state.None? { return false, steps; }
      var seed: nat :| true;
      var opening := RatchetCodec.Decrypt(account.suite, state.value, row.conversation, row.id, row.sender,
                                          row.content, seed);
      if opening.None? { return false, steps; }
      var received := Message(row.id, row.conversation, row.sender, opening.value.1, row.sentAt,
                              true, isRead, isDelivered);
      ghost var w := View();
      ok := db.CommitReceivedMessage(sid, opening.value.0, received);
      if !ok { return; }
      ghost var step := CommitReceived(row, received, peer.peerKey, seed);
      var session := if sid in sessions then sessions[sid] else Session(row.conversation, peer.peerKey, []);
      sessions := sessions[sid := session.(events := session.events + [Received(row.id, row.content.header, seed)])];
      incoming := incoming[row.id := Incoming(sid, |session.events|, row, opening.value.1)];
      steps := Took(old(View()), steps, w, step);
      assert Opens(account.suite, state.value, row, seed, opening.value.0, opening.value.1);
    }

    /** The part of `sync` that reads one verified direct conversation. `start` is the server's table at some
        moment of the call. Whether it succeeds, fails or is cut off, what it stored is a stretch of the
        conversation in that table from the oldest row read; if it succeeds, the stretch ends with the newest
        row; and it neither succeeds nor stores anything from a row on that cannot be opened. */
    method SyncConversation(conversation: string, peer: Contact)
      returns (result: Outcome<()>, ghost start: seq<Row>, ghost done: nat, ghost steps: seq<Step>)
      requires Valid()
      modifies server`rows, db, this`sessions, this`incoming
      ensures Valid() && Reaches(account, old(View()), steps, View())
      ensures old(server.rows) <= start <= server.rows
      ensures var view := InConversation(start, conversation);
        && Table(view) && (result.Ok? ==> done == |view|)
        && Attempted(account.suite, account.userId,
                     Attempt(view, old(db.messages.Keys), db.messages.Keys, done,
                             old(Ratchet(conversation, peer)), Ratchet(conversation, peer)))
      ensures forall j: nat ::
        BlockedAt(account.suite, account.userId, InConversation(start, conversation), old(db.messages.Keys),
                  old(Ratchet(conversation, peer)), j)
        ==> result.Failed? && done <= j
      ensures ReceivesIn(steps, conversation, peer.peerKey)
      ensures var view := InConversation(start, conversation);
        result.Ok? ==> forall p :: NewestKnown(view, old(db.messages.Keys), p) ==>
          (Complete(view, db.messages.Keys, account.userId) <==>
           Complete(view[..StopIndex(|view|, p, MAX_PAGES)], old(db.messages.Keys), account.userId))
    {
      hide *;
      ghost var before, from := db.messages.Keys, Ratchet(conversation, peer);
      var read;
      read, start, steps := ReadConversation(conversation);
      ghost var view := InConversation(start, conversation);
      done := NothingAttempted(account.suite, account.userId, view, before, from);
      result := Failed;
      var ready := *;
      if read.Some? && ready {
        ghost var w := View();
        ghost var applied, work;
        result, applied, work := ApplyAll(conversation, read.value.batches, peer, read.value.known, read.value.local);
        Chain(account, old(View()), steps, w, work, View());
        ReceivesInConcat(steps, work, conversation, peer.peerKey);
        steps := steps + work;
        AppliedIsAttempted(account.suite, account.userId, view, before, db.messages.Keys, done, applied, from,
                           Ratchet(conversation, peer));
        done := done + applied;
      }
      AttemptStops(account.suite, account.userId, Attempt(view, before, db.messages.Keys, done, from, Ratchet(conversation, peer)));
      AttemptedIsSynced(account.suite, account.userId,
                        Attempt(view, before, db.messages.Keys, done, from, Ratchet(conversation, peer)));
      if result.Ok? { SyncOutcome(view, before, db.messages.Keys, account.userId); }
    }

    /** What ApplyAll is given: rows of the server, and which of them the database already holds. */
    ghost predicate Ready(batches: seq<Row>, known: set<string>, local: seq<Message>)
      reads this, db, server
    {
      && UniqueIds(batches) && (forall r <- batches :: r in server.rows)
      && (forall r <- batches :: r.id in known <==> r.id in db.messages)
      && (forall m <- local :: m.id in db.messages && db.messages[m.id] == m)
      && (forall r <- batches :: r.id in db.messages ==> db.messages[r.id] in local && db.messages[r.id].id == r.id)
    }

    /** The reading half: the local rows, then the pages. */
    method ReadConversation(conversation: string)
      returns (read: Option<Reading>, ghost start: seq<Row>, ghost steps: seq<Step>)
      requires Valid()
      modifies server`rows
      ensures Valid() && Reaches(account, old(View()), steps, View())
      ensures old(server.rows) <= start <= server.rows && Table(InConversation(start, conversation))
      ensures read.Some? ==>
        var view := InConversation(start, conversation);
        && Ready(read.value.batches, read.value.known, read.value.local)
        && read.value.batches == view[FetchStart(view, db.messages.Keys, |view|, MAX_PAGES)..]
        && forall r <- read.value.batches :: r.conversation == conversation
      ensures forall peerKey :: ReceivesIn(steps, conversation, peerKey)
    {
      hide Inv, Reaches, FetchStart, InConversation, Handled;
      steps := [];
      RunNone(account, View());
      start := server.rows;
      TableHolds(account, View());
      InConversationTable(start, conversation);
      KeyedMessages(account, View());
      var list := db.GetMessages(conversation);
      if list.None? { return None, start, steps; }
      var known := Handled(list.value);
      var batches;
      batches, start, steps := FetchPages(conversation, known);
      ReadingReceivesNothing(account, old(View()), steps, View(), conversation);
      if batches.None? { return None, start, steps; }
      ghost var view := InConversation(start, conversation);
      StillStored(start, server.rows, conversation);
      KnownIsStored(account, View(), list.value, conversation, view);
      FetchStartCongruence(view, known, db.messages.Keys, |view|, MAX_PAGES);
      KnownRows(account, View(), list.value, known, view, batches.value);
      return Some(Reading(list.value, known, batches.value)), start, steps;
    }

    /** The rows that were read, oldest first, until one fails. Each that is pending is opened from the state the one
        before it left, so a row that does not open from any such state stops the loop. */
    method ApplyAll(conversation: string, batches: seq<Row>, peer: Contact, known: set<string>, local: seq<Message>)
      returns (result: Outcome<()>, ghost done: nat, ghost steps: seq<Step>)
      requires Valid() && Ready(batches, known, local) && forall r <- batches :: r.conversation == conversation
      modifies db, this`sessions, this`incoming
      ensures Valid() && Reaches(account, old(View()), steps, View())
      ensures done <= |batches| && (result.Ok? ==> done == |batches|)
      ensures db.messages.Keys == old(db.messages.Keys) + PeerIds(batches[..done], account.userId)
      ensures Moves(account.suite, old(Ratchet(conversation, peer)),
                    Pending(batches[..done], old(db.messages.Keys), account.userId), Ratchet(conversation, peer))
      ensures ReceivesIn(steps, conversation, peer.peerKey)
    {
      hide Inv, Reaches, Moves, Pending, StateInUse;
      steps := [];
      RunNone(account, View());
      done := 0;
      NothingApplied(account.suite, Ratchet(conversation, peer), batches, db.messages.Keys, account.userId);
      for i := 0 to |batches|
        invariant Valid() && Reaches(account, old(View()), steps, View())
        invariant done == i
        invariant Moves(account.suite, old(Ratchet(conversation, peer)),
                        Pending(batches[..i], old(db.messages.Keys), account.userId), Ratchet(conversation, peer))
        invariant ReceivesIn(steps, conversation, peer.peerKey)
        invariant db.messages.Keys == old(db.messages.Keys) + PeerIds(batches[..i], account.userId)
        invariant forall j :: i <= j < |batches| ==>
          (batches[j].id in db.messages <==> batches[j].id in old(db.messages)) &&
          (batches[j].id in db.messages ==> db.messages[batches[j].id] == old(db.messages)[batches[j].id])
      {
        var saved := Saved(local, batches[i].id);
        ghost var w, keys, mid := View(), db.messages.Keys, Ratchet(conversation, peer);
        var ok;
        ghost var work;
        var isRead, isDelivered := *, *;
        ok, work := Apply(batches[i], isRead, isDelivered, peer, known, saved);
        Chain(account, old(View()), steps, w, work, View());
        ReceivesInConcat(steps, work, conversation, peer.peerKey);
        steps := steps + work;
        if !ok { return Failed, done, steps; }
        OneMoreApplied(account.suite, account.userId, batches, i, old(db.messages.Keys), keys,
                       old(Ratchet(conversation, peer)), mid, Ratchet(conversation, peer));
        done := i + 1;
      }
      assert batches[..|batches|] == batches;
      result := Ok(());
    }

    /** What a conversation shows after a sync: everything stored of it, once, by time. The other side's messages
        stand as the server's table has them. */
    method Listed(conversation: string) returns (list: Option<seq<Message>>)
      requires Valid()
      ensures list.Some? ==> DistinctIds(list.value) && InTimeOrder(list.value)
      ensures list.Some? ==> forall m :: m in list.value <==>
                m.id in db.messages && db.messages[m.id] == m && m.conversation == conversation
      ensures list.Some? ==> InServerOrder(server.rows, list.value)
    {
      hide Inv, InServerOrder;
      list := db.GetMessages(conversation);
      if list.Some? { ListedInServerOrder(account, View(), list.value); }
    }

    /** Each participant as merged, entered in the contacts in order. */
    method MergeContacts(participants: seq<Contact>, local: map<string, Contact>) returns (peers: seq<Contact>)
      requires Valid()
      modifies this`contacts
      ensures Valid() && View() == old(View())
      ensures |peers| == |participants|
      ensures forall j :: 0 <= j < |peers| ==>
        var p := participants[j];
        peers[j] == if p.id in local && local[p.id].id == p.id && local[p.id].peerKey == p.peerKey then local[p.id] else p
      ensures contacts == Upserted(old(contacts), peers)
      // Under each id stands the last one entered, or what stood there before.
      ensures forall j :: 0 <= j < |peers| && (forall i :: j < i < |peers| ==> peers[i].id != peers[j].id) ==>
        peers[j].id in contacts && contacts[peers[j].id] == peers[j]
      ensures forall id :: (forall j :: 0 <= j < |peers| ==> peers[j].id != id) ==>
        (id in contacts <==> id in old(contacts)) && (id in contacts ==> contacts[id] == old(contacts)[id])
    {
      hide Inv;
      peers := [];
      for j := 0 to |participants|
        invariant |peers| == j && forall i :: 0 <= i < j ==> peers[i] == Merged(local, participants[i])
        invariant contacts == Upserted(old(contacts), peers)
      {
        var peer := participants[j];
        var contact := if peer.id in local && local[peer.id].id == peer.id && local[peer.id].peerKey == peer.peerKey
                       then local[peer.id] else peer;
        contacts := contacts[contact.id := contact];
        assert (peers + [contact])[..j] == peers;
        peers := peers + [contact];
      }
      forall j | 0 <= j < |peers| && (forall i :: j < i < |peers| ==> peers[i].id != peers[j].id)
        ensures peers[j].id in contacts && contacts[peers[j].id] == peers[j]
      {
        UpsertedLast(old(contacts), peers, j);
      }
      forall id | forall j :: 0 <= j < |peers| ==> peers[j].id != id
        ensures (id in contacts <==> id in old(contacts)) && (id in contacts ==> contacts[id] == old(contacts)[id])
      {
        UpsertedElsewhere(old(contacts), peers, id);
      }
    }

    /** One conversation of the server's list: its contacts are merged, and if it is a direct conversation with
        a verified contact it is read. */
    method SyncOne(conversation: Conversation, local: map<string, Contact>)
      returns (result: Outcome<()>, ghost start: seq<Row>, ghost done: nat, ghost steps: seq<Step>)
      requires Valid()
      modifies server`rows, db, this`sessions, this`incoming, this`contacts
      ensures Valid() && Reaches(account, old(View()), steps, View())
      ensures contacts == Upserted(old(contacts), MergedAll(local, conversation.participants))
      ensures old(server.rows) <= start <= server.rows
      ensures var view := InConversation(start, conversation.id);
        if !conversation.isGroup && |conversation.participants| == 1
           && (var p := conversation.participants[0];
               if p.id in local && local[p.id].id == p.id && local[p.id].peerKey == p.peerKey then local[p.id].isVerified
               else p.isVerified)
        then
          && Table(view) && Synced(view, old(db.messages.Keys), db.messages.Keys, account.userId, done)
          && (result.Ok? ==> done == |view|)
        else result.Ok? && db.messages.Keys == old(db.messages.Keys)
    {
      hide *;
      steps := [];
      RunNone(account, View());
      result, start, done := Ok(()), server.rows, 0;
      var peers := MergeContacts(conversation.participants, local);
      PeersAreMerged(peers, local, conversation.participants);
      ReadableIsMerged(conversation, local, peers);
      if !conversation.isGroup && |peers| == 1 && peers[0].isVerified {
        ghost var before, from := db.messages.Keys, Ratchet(conversation.id, peers[0]);
        result, start, done, steps := SyncConversation(conversation.id, peers[0]);
        AttemptedIsSynced(account.suite, account.userId,
                          Attempt(InConversation(start, conversation.id), before, db.messages.Keys, done, from,
                                  Ratchet(conversation.id, peers[0])));
      }
    }

    /**
     * sync: keep what is locally known of each participant whose identity is unchanged, and read every verified
     * direct conversation. If it succeeds, each of those has been read, from the page that holds its newest
     * known row (or the fiftieth page) up to its newest row at some moment of the call, and what was read is
     * stored. The server cannot make a contact verified.
     */
    method Sync(remote: Option<seq<Conversation>>) returns (result: Outcome<()>, ghost steps: seq<Step>)
      requires Valid()
      requires remote.Some? ==> forall c <- remote.value, p <- c.participants :: !p.isVerified
      modifies server`rows, db, this`sessions, this`incoming, this`contacts
      ensures Valid() && Reaches(account, old(View()), steps, View())
      ensures !authenticated ==> result.Ok? && View() == old(View())
      ensures VerifiedFrom(contacts, old(contacts))
      ensures result.Ok? && authenticated ==>
        && remote.Some?
        && (DistinctConversations(remote.value) ==>
              forall c <- remote.value :: Readable(c, old(contacts)) ==>
                exists start: seq<Row> :: old(server.rows) <= start <= server.rows
                  && ReadThrough(start, c.id, old(db.messages.Keys), db.messages.Keys, account.userId))
    {
      hide Inv, Reaches, Readable, ReadThrough, AllRead, VerifiedFrom, Upserted, MergedAll, Table, Synced;
      hide InConversation, DistinctConversations;
      steps := [];
      RunNone(account, View());
      ContactsVerifyThemselves(contacts);
      if !authenticated { return Ok(()), steps; }
      if remote.None? { return Failed, steps; }
      var local := contacts;
      ghost var before, rows0 := db.messages.Keys, server.rows;
      ghost var starts: seq<seq<Row>> := [];
      NothingReadYet(remote.value, local, server.rows, before, account.userId);
      for i := 0 to |remote.value|
        invariant Valid() && Reaches(account, old(View()), steps, View())
        invariant VerifiedFrom(contacts, local) && rows0 <= server.rows
        invariant AllRead(remote.value, local, starts, i, rows0, server.rows, before, db.messages.Keys, account.userId)
      {
        ghost var w, keys, rows, was := View(), db.messages.Keys, server.rows, contacts;
        var synced;
        ghost var start, done, work;
        synced, start, done, work := SyncOne(remote.value[i], local);
        ReadableMeans(remote.value[i], local);
        MergeVerifiesNobody(was, local, remote.value[i].participants);
        Chain(account, old(View()), steps, w, work, View());
        steps := steps + work;
        if synced.Failed? { return Failed, steps; }
        TableHolds(account, View());
        OneMoreRead(remote.value, local, starts, i, rows0, rows, server.rows, before, keys, db.messages.Keys,
                    start, account.userId);
        starts := starts + [start];
      }
      result := Ok(());
      EachRead(remote.value, local, starts, rows0, server.rows, before, db.messages.Keys, account.userId);
    }
  }

  // ---- Contacts

  /** The stored contact where id and identity agree, and otherwise the server's. */
  function Merged(local: map<string, Contact>, p: Contact): Contact {
    if p.id in local && local[p.id].id == p.id && local[p.id].peerKey == p.peerKey then local[p.id] else p
  }

  function MergedAll(local: map<string, Contact>, participants: seq<Contact>): seq<Contact> {
    seq(|participants|, j requires 0 <= j < |participants| => Merged(local, participants[j]))
  }

  /** The contacts after these have been entered one after the other. */
  function Upserted(contacts: map<string, Contact>, peers: seq<Contact>): map<string, Contact> {
    if peers == [] then contacts
    else Upserted(contacts, peers[..|peers| - 1])[peers[|peers| - 1].id := peers[|peers| - 1]]
  }

  /** The last contact of an id is the one found there. */
  lemma {:induction false} UpsertedLast(contacts: map<string, Contact>, peers: seq<Contact>, j: nat)
    requires j < |peers| && forall i :: j < i < |peers| ==> peers[i].id != peers[j].id
    ensures peers[j].id in Upserted(contacts, peers) && Upserted(contacts, peers)[peers[j].id] == peers[j]
  {
    if j < |peers| - 1 { UpsertedLast(contacts, peers[..|peers| - 1], j); }
  }

  lemma {:induction false} UpsertedElsewhere(contacts: map<string, Contact>, peers: seq<Contact>, id: string)
    requires forall j :: 0 <= j < |peers| ==> peers[j].id != id
    ensures id in Upserted(contacts, peers) <==> id in contacts
    ensures id in contacts ==> Upserted(contacts, peers)[id] == contacts[id]
  {
    if peers != [] { UpsertedElsewhere(contacts, peers[..|peers| - 1], id); }
  }

  /** Every verified contact is one of the local ones. */
  ghost predicate VerifiedFrom(contacts: map<string, Contact>, local: map<string, Contact>) {
    forall id <- contacts :: contacts[id].isVerified ==> exists k <- local :: local[k] == contacts[id]
  }

  lemma ContactsVerifyThemselves(contacts: map<string, Contact>)
    ensures VerifiedFrom(contacts, contacts)
  {}

  lemma {:induction false} UpsertVerifiesNobody(contacts: map<string, Contact>, local: map<string, Contact>, peers: seq<Contact>)
    requires VerifiedFrom(contacts, local)
    requires forall c <- peers :: c.isVerified ==> exists k <- local :: local[k] == c
    ensures VerifiedFrom(Upserted(contacts, peers), local)
  {
    if peers != [] {
      var front := peers[..|peers| - 1];
      assert forall c <- front :: c in peers;
      UpsertVerifiesNobody(contacts, local, front);
    }
  }

  lemma MergeVerifiesNobody(contacts: map<string, Contact>, local: map<string, Contact>, participants: seq<Contact>)
    requires VerifiedFrom(contacts, local) && forall p <- participants :: !p.isVerified
    ensures VerifiedFrom(Upserted(contacts, MergedAll(local, participants)), local)
  {
    forall c <- MergedAll(local, participants) | c.isVerified ensures exists k <- local :: local[k] == c {
      var j :| 0 <= j < |participants| && c == Merged(local, participants[j]);
      assert participants[j] in participants;
    }
    UpsertVerifiesNobody(contacts, local, MergedAll(local, participants));
  }

  lemma PeersAreMerged(peers: seq<Contact>, local: map<string, Contact>, participants: seq<Contact>)
    requires |peers| == |participants|
    requires forall j :: 0 <= j < |peers| ==>
      var p := participants[j];
      peers[j] == if p.id in local && local[p.id].id == p.id && local[p.id].peerKey == p.peerKey then local[p.id] else p
    ensures peers == MergedAll(local, participants)
  {}

  // ---- Conversations read by a sync

  /** A direct conversation with a contact that is verified here. */
  predicate Readable(c: Conversation, local: map<string, Contact>) {
    !c.isGroup && |c.participants| == 1 && Merged(local, c.participants[0]).isVerified
  }

  lemma ReadableMeans(c: Conversation, local: map<string, Contact>)
    ensures Readable(c, local) <==>
      !c.isGroup && |c.participants| == 1
      && (var p := c.participants[0];
          if p.id in local && local[p.id].id == p.id && local[p.id].peerKey == p.peerKey then local[p.id].isVerified
          else p.isVerified)
  {}

  lemma ReadableIsMerged(c: Conversation, local: map<string, Contact>, peers: seq<Contact>)
    requires peers == MergedAll(local, c.participants)
    ensures Readable(c, local) <==> !c.isGroup && |peers| == 1 && peers[0].isVerified
  {}

  ghost predicate DistinctConversations(remote: seq<Conversation>) {
    forall i, j :: 0 <= i < j < |remote| ==> remote[i].id != remote[j].id
  }

  /** Of the conversation as `start` has it, exactly the peer's rows from where reading starts have been added to
      what was stored before. */
  ghost predicate ReadThrough(start: seq<Row>, conversation: string, before: set<string>, after: set<string>, userId: string) {
    var view := InConversation(start, conversation);
    var lo := FetchStart(view, before, |view|, MAX_PAGES);
    Table(view) && forall i :: 0 <= i < |view| ==>
      (view[i].id in after <==> view[i].id in before || (lo <= i && view[i].sender != userId))
  }

  /** So completeness after the sync is what it was below the page where reading stops. */
  lemma ReadThroughCompletes(start: seq<Row>, conversation: string, before: set<string>, after: set<string>, userId: string, p: nat)
    requires ReadThrough(start, conversation, before, after, userId)
    requires NewestKnown(InConversation(start, conversation), before, p)
    ensures var view := InConversation(start, conversation);
      Complete(view, after, userId) <==> Complete(view[..StopIndex(|view|, p, MAX_PAGES)], before, userId)
  {
    var view := InConversation(start, conversation);
    FetchStopsAtNewestKnown(view, before, p, |view|, MAX_PAGES);
    var lo := StopIndex(|view|, p, MAX_PAGES);
    assert forall i :: 0 <= i < lo ==> view[..lo][i] == view[i];
  }

  /** Some row of the conversation has the id. */
  ghost predicate IdOf(rows: seq<Row>, id: string, conversation: string) {
    exists r <- rows :: r.id == id && r.conversation == conversation
  }

  /** The first i conversations have been read as they should, and every new id is a row of one of them. */
  ghost predicate AllRead(remote: seq<Conversation>, local: map<string, Contact>, starts: seq<seq<Row>>, i: nat,
                          rows0: seq<Row>, rows: seq<Row>, before: set<string>, after: set<string>, userId: string)
  {
    && |starts| == i <= |remote| && before <= after
    && (forall id <- after - before :: exists k :: 0 <= k < i && IdOf(rows, id, remote[k].id))
    && (DistinctConversations(remote) ==>
          forall k :: 0 <= k < i && Readable(remote[k], local) ==>
            && rows0 <= starts[k] <= rows
            && ReadThrough(starts[k], remote[k].id, before, after, userId))
  }

  lemma NothingReadYet(remote: seq<Conversation>, local: map<string, Contact>, rows: seq<Row>, before: set<string>, userId: string)
    ensures AllRead(remote, local, [], 0, rows, rows, before, before, userId)
  {}

  lemma OneMoreRead(remote: seq<Conversation>, local: map<string, Contact>, starts: seq<seq<Row>>, i: nat,
                    rows0: seq<Row>, rows: seq<Row>, rows': seq<Row>,
                    before: set<string>, keys: set<string>, keys': set<string>, start: seq<Row>, userId: string)
    requires i < |remote| && AllRead(remote, local, starts, i, rows0, rows, before, keys, userId)
    requires rows0 <= rows <= start <= rows' && Table(rows')
    requires var view := InConversation(start, remote[i].id);
      if Readable(remote[i], local) then Table(view) && Synced(view, keys, keys', userId, |view|) else keys' == keys
    ensures AllRead(remote, local, starts + [start], i + 1, rows0, rows', before, keys', userId)
  {
    hide Readable, ReadThrough, IdOf, Synced, Table, DistinctConversations, InConversation;
    var conversation := remote[i].id;
    NewIdsOfConversation(start, conversation, keys, keys', Readable(remote[i], local), userId, rows');
    forall id <- keys' - before ensures exists k :: 0 <= k < i + 1 && IdOf(rows', id, remote[k].id) {
      if id in keys {
        assert id in keys - before;
        var k :| 0 <= k < i && IdOf(rows, id, remote[k].id);
        IdOfGrows(rows, rows', id, remote[k].id);
      } else {
        assert IdOf(rows', id, remote[i].id);
      }
    }
    if DistinctConversations(remote) {
      forall id <- keys - before ensures exists k :: 0 <= k < i && IdOf(rows', id, remote[k].id) {
        var k :| 0 <= k < i && IdOf(rows, id, remote[k].id);
        IdOfGrows(rows, rows', id, remote[k].id);
      }
      OthersDiffer(remote, i);
      if Readable(remote[i], local) { ReadNow(remote, i, start, before, keys, keys', userId, rows'); }
      forall k | 0 <= k < i && Readable(remote[k], local)
        ensures ReadThrough(starts[k], remote[k].id, before, keys', userId)
      {
        ReadKept(starts[k], remote[k].id, conversation, before, keys, keys', userId, rows');
      }
    }
  }

  lemma OthersDiffer(remote: seq<Conversation>, i: nat)
    requires DistinctConversations(remote) && i < |remote|
    ensures forall k :: 0 <= k < i ==> remote[k].id != remote[i].id
  {}

  lemma IdOfGrows(rows: seq<Row>, rows': seq<Row>, id: string, conversation: string)
    requires rows <= rows' && IdOf(rows, id, conversation)
    ensures IdOf(rows', id, conversation)
  {
    var r :| r in rows && r.id == id && r.conversation == conversation;
    assert r in rows';
  }

  /** Reading a conversation stores ids of its own rows only. */
  lemma NewIdsOfConversation(start: seq<Row>, conversation: string, keys: set<string>, keys': set<string>, read: bool,
                             userId: string, rows: seq<Row>)
    requires start <= rows
    requires var view := InConversation(start, conversation);
      if read then Synced(view, keys, keys', userId, |view|) else keys' == keys
    ensures keys <= keys' && forall id <- keys' - keys :: IdOf(rows, id, conversation)
  {
    StillStored(start, rows, conversation);
    var view := InConversation(start, conversation);
    forall id <- keys' - keys ensures IdOf(rows, id, conversation) {
      var r :| r in view[FetchStart(view, keys, |view|, MAX_PAGES)..|view|] && r.id == id;
      assert r in view;
    }
  }

  /** An id of one conversation's row is no other conversation's. */
  lemma IdOfOneConversation(rows: seq<Row>, r: Row, conversation: string)
    requires Table(rows) && r in rows && IdOf(rows, r.id, conversation)
    ensures r.conversation == conversation
  {
    var r' :| r' in rows && r'.id == r.id && r'.conversation == conversation;
    OneRowPerId(rows, r, r');
  }

  lemma ReadNow(remote: seq<Conversation>, i: nat, start: seq<Row>, before: set<string>, keys: set<string>,
                keys': set<string>, userId: string, rows: seq<Row>)
    requires i < |remote| && start <= rows && Table(rows) && before <= keys
    requires forall k :: 0 <= k < i ==> remote[k].id != remote[i].id
    requires forall id <- keys - before :: exists k :: 0 <= k < i && IdOf(rows, id, remote[k].id)
    requires var view := InConversation(start, remote[i].id); Table(view) && Synced(view, keys, keys', userId, |view|)
    ensures ReadThrough(start, remote[i].id, before, keys', userId)
  {
    hide FetchStart, PeerIds, IdOf, Ordered, UniqueIds;
    var view := InConversation(start, remote[i].id);
    StillStored(start, rows, remote[i].id);
    forall r <- view ensures r.id in keys <==> r.id in before {
      if r.id in keys && r.id !in before {
        assert r.id in keys - before;
        var k :| 0 <= k < i && IdOf(rows, r.id, remote[k].id);
        IdOfOneConversation(rows, r, remote[k].id);
      }
    }
    FetchStartCongruence(view, keys, before, |view|, MAX_PAGES);
    var lo := FetchStart(view, before, |view|, MAX_PAGES);
    forall j | 0 <= j < |view|
      ensures view[j].id in keys' <==> view[j].id in before || (lo <= j && view[j].sender != userId)
    {
      PeerIdAt(view, userId, lo, |view|, j);
    }
  }

  /** Reading another conversation afterwards changes nothing of it. */
  lemma ReadKept(start: seq<Row>, conversation: string, other: string, before: set<string>, keys: set<string>,
                 keys': set<string>, userId: string, rows: seq<Row>)
    requires ReadThrough(start, conversation, before, keys, userId) && start <= rows && Table(rows)
    requires conversation != other && keys <= keys' && forall id <- keys' - keys :: IdOf(rows, id, other)
    ensures ReadThrough(start, conversation, before, keys', userId)
  {
    hide FetchStart, IdOf, Ordered, UniqueIds;
    var view := InConversation(start, conversation);
    StillStored(start, rows, conversation);
    forall j | 0 <= j < |view| ensures view[j].id in keys' <==> view[j].id in keys {
      if view[j].id in keys' && view[j].id !in keys {
        assert view[j] in view;
        IdOfOneConversation(rows, view[j], other);
      }
    }
  }

  lemma EachRead(remote: seq<Conversation>, local: map<string, Contact>, starts: seq<seq<Row>>, rows0: seq<Row>,
                 rows: seq<Row>, before: set<string>, after: set<string>, userId: string)
    requires AllRead(remote, local, starts, |remote|, rows0, rows, before, after, userId)
    ensures DistinctConversations(remote) ==>
      forall c <- remote :: Readable(c, local) ==>
        exists start: seq<Row> :: rows0 <= start <= rows && ReadThrough(start, c.id, before, after, userId)
  {
    hide ReadThrough, IdOf, Readable, DistinctConversations;
    if DistinctConversations(remote) {
      forall c | c in remote && Readable(c, local)
        ensures exists start: seq<Row> :: rows0 <= start <= rows && ReadThrough(start, c.id, before, after, userId)
      {
        var k :| 0 <= k < |remote| && remote[k] == c;
        assert rows0 <= starts[k] <= rows && ReadThrough(starts[k], c.id, before, after, userId);
      }
    }
  }

  lemma NotYetCommitted(a: Account, w: World, id: string)
    requires Inv(a, w) && id !in w.db.messages
    ensures id !in w.outgoing
  {
    CommittedIdsAreStored(a, w, id);
  }

  /** local.where((m) => m.id == id).firstOrNull */
  function Saved(local: seq<Message>, id: string): (m: Option<Message>)
    ensures m.Some? ==> m.value in local && m.value.id == id
    ensures m.None? ==> forall x <- local :: x.id != id
  {
    if local == [] then None
    else if local[0].id == id then Some(local[0])
    else Saved(local[1..], id)
  }

  /** A stored message with a row's id is that row's: same conversation, and own exactly when the row is. */
  lemma RowKnowledge(a: Account, w: World, row: Row)
    requires Inv(a, w) && row in w.rows
    ensures row.sender == a.userId ==> Own(w.db, row.id)
    ensures row.id in w.db.messages ==> w.db.messages[row.id].conversation == row.conversation
    ensures row.id in w.db.messages && row.sender != a.userId ==> !Own(w.db, row.id)
  {
    RowIsOk(a, w, row);
    if row.sender == a.userId {
      assert OwnRow(a, w.db, w.rows, row.id, w.outgoing[row.id]);
    } else if row.id in w.db.messages {
      var n := w.incoming[row.id];
      assert IncomingRow(a, w.db.messages, w.rows, row.id, n);
      hide IncomingRow, RowOk;
      OneRowPerId(w.rows, n.row, row);
    }
  }

  lemma OneRowPerId(rows: seq<Row>, r: Row, r': Row)
    requires UniqueIds(rows) && r in rows && r' in rows && r.id == r'.id
    ensures r == r'
  {
    var i :| 0 <= i < |rows| && rows[i] == r;
    var j :| 0 <= j < |rows| && rows[j] == r';
  }

  lemma TableHolds(a: Account, w: World)
    requires Inv(a, w)
    ensures Table(w.rows)
  {}

  lemma NothingApplied(suite: Suite, from: Option<SessionState>, batches: seq<Row>, stored: set<string>, userId: string)
    ensures Moves(suite, from, Pending(batches[..0], stored, userId), from)
    ensures PeerIds(batches[..0], userId) == {}
  {
    assert batches[..0] == [];
  }

  /** One more row applied: its pending part is opened after those before it. */
  lemma OneMoreApplied(suite: Suite, userId: string, batches: seq<Row>, i: nat, before: set<string>, keys: set<string>,
                       from: Option<SessionState>, mid: Option<SessionState>, to: Option<SessionState>)
    requires i < |batches| && (batches[i].id in keys <==> batches[i].id in before)
    requires Moves(suite, from, Pending(batches[..i], before, userId), mid)
    requires Moves(suite, mid, Pending([batches[i]], keys, userId), to)
    ensures Moves(suite, from, Pending(batches[..i + 1], before, userId), to)
    ensures PeerIds(batches[..i + 1], userId) == PeerIds(batches[..i], userId) + PeerIds([batches[i]], userId)
  {
    hide Moves;
    assert batches[..i + 1] == batches[..i] + [batches[i]];
    PendingAgrees([batches[i]], keys, before, userId);
    PendingConcat(batches[..i], [batches[i]], before, userId);
    MovesConcat(suite, from, Pending(batches[..i], before, userId), mid, Pending([batches[i]], before, userId), to);
  }

  /** No message but these is transmitted. */
  ghost predicate Transmits(steps: seq<Step>, ids: set<string>) {
    forall i :: 0 <= i < |steps| && steps[i].Transmit? ==> steps[i].id in ids
  }

  lemma NothingElseSent(steps: seq<Step>, step: Step, ids: set<string>)
    requires !step.Transmit?
    ensures Transmits(steps, ids) ==> Transmits(steps + [step], ids)
  {}

  lemma NoneSent(steps: seq<Step>, id: string)
    ensures Transmits(steps, {}) ==> Transmits(steps, {id})
  {}

  lemma OneSent(steps: seq<Step>, id: string)
    ensures Transmits(steps, {}) ==> Transmits(steps + [Transmit(id)], {id})
  {}

  lemma SentBefore(steps: seq<Step>, later: seq<Step>, id: string)
    requires Transmits(steps, {id}) && Transmits(later, {})
    ensures Transmits(steps + later, {id})
  {}

  /** Messages of the conversation leave, earlier ones before later ones. */
  ghost predicate SentInTimeOrder(steps: seq<Step>, messages: map<string, Message>, conversation: string) {
    && (forall i :: 0 <= i < |steps| && steps[i].Transmit? ==>
          steps[i].id in messages && messages[steps[i].id].conversation == conversation)
    && (forall i, j :: 0 <= i < j < |steps| && steps[i].Transmit? && steps[j].Transmit? ==>
          messages[steps[i].id].timestamp <= messages[steps[j].id].timestamp)
  }

  /** The messages sent so far are among the first i of a list by time, and have left in its order. */
  ghost predicate SentUpTo(steps: seq<Step>, messages: map<string, Message>, conversation: string, list: seq<Message>, i: nat) {
    && i <= |list| && InTimeOrder(list)
    && (forall m <- list :: m.id in messages && messages[m.id] == m && m.conversation == conversation)
    && Transmits(steps, Handled(list[..i])) && SentInTimeOrder(steps, messages, conversation)
  }

  lemma NothingSent(messages: map<string, Message>, conversation: string, list: seq<Message>)
    requires InTimeOrder(list)
    requires forall m <- list :: m.id in messages && messages[m.id] == m && m.conversation == conversation
    ensures SentInTimeOrder([], messages, conversation) && SentUpTo([], messages, conversation, list, 0)
  {}

  lemma NothingSentYet(messages: map<string, Message>, conversation: string)
    ensures SentInTimeOrder([], messages, conversation)
  {}

  lemma NextHandled(list: seq<Message>, i: nat)
    requires DistinctIds(list) && i < |list|
    ensures list[i].id !in Handled(list[..i]) && Handled(list[..i + 1]) == Handled(list[..i]) + {list[i].id}
  {
    assert list[..i + 1] == list[..i] + [list[i]];
  }

  lemma AllHandled(list: seq<Message>)
    ensures list[..|list|] == list && forall id :: id in Handled(list) <==> exists m <- list :: m.id == id
  {}

  lemma SentSoFar(steps: seq<Step>, messages: map<string, Message>, conversation: string, list: seq<Message>, i: nat)
    requires SentUpTo(steps, messages, conversation, list, i)
    ensures SentInTimeOrder(steps, messages, conversation)
  {}

  lemma OneMoreSent(messages: map<string, Message>, conversation: string, list: seq<Message>, i: nat,
                    steps: seq<Step>, more: seq<Step>)
    requires i < |list| && SentUpTo(steps, messages, conversation, list, i) && Transmits(more, {list[i].id})
    ensures SentUpTo(steps + more, messages, conversation, list, i + 1)
  {
    var all := steps + more;
    forall k | 0 <= k < |steps| && steps[k].Transmit?
      ensures steps[k].id in Handled(list[..i + 1]) && messages[steps[k].id].timestamp <= list[i].timestamp
    {
      var m :| m in list[..i] && m.id == steps[k].id;
      var j :| 0 <= j < i && list[j] == m;
      assert list[..i + 1][j] == m;
    }
    assert list[..i + 1][i] == list[i];
    forall k | 0 <= k < |all| && all[k].Transmit?
      ensures all[k].id in Handled(list[..i + 1]) && all[k].id in messages && messages[all[k].id].conversation == conversation
    {
      if k >= |steps| { assert all[k] == more[k - |steps|]; }
    }
    forall k, l | 0 <= k < l < |all| && all[k].Transmit? && all[l].Transmit?
      ensures messages[all[k].id].timestamp <= messages[all[l].id].timestamp
    {
      if k >= |steps| { assert all[k] == more[k - |steps|]; }
      if l >= |steps| { assert all[l] == more[l - |steps|]; }
    }
  }

  /** Only messages of this conversation are received, in the session with this contact. */
  ghost predicate ReceivesIn(steps: seq<Step>, conversation: string, peerKey: string) {
    forall i :: 0 <= i < |steps| && steps[i].CommitReceived? ==>
      steps[i].row.conversation == conversation && steps[i].peerKey == peerKey
  }

  lemma ReceivesInConcat(steps: seq<Step>, more: seq<Step>, conversation: string, peerKey: string)
    requires ReceivesIn(steps, conversation, peerKey) && ReceivesIn(more, conversation, peerKey)
    ensures ReceivesIn(steps + more, conversation, peerKey)
  {}

  lemma ReadingReceivesNothing(a: Account, w: World, steps: seq<Step>, w': World, conversation: string)
    requires Inv(a, w) && Reaches(a, w, steps, w') && w'.incoming == w.incoming
    ensures forall peerKey :: ReceivesIn(steps, conversation, peerKey)
  {
    hide Inv, Reaches;
    NothingReceivedIn(a, w, steps, w');
  }

  /** Before anything is committed, a sync has stored the empty stretch where reading starts. */
  lemma NothingAttempted(suite: Suite, userId: string, view: seq<Row>, stored: set<string>, from: Option<SessionState>)
    returns (done: nat)
    requires Table(view)
    ensures done == FetchStart(view, stored, |view|, MAX_PAGES) <= |view|
    ensures Attempted(suite, userId, Attempt(view, stored, stored, done, from, from))
  {
    hide FetchStart, Ordered, UniqueIds;
    done := FetchStart(view, stored, |view|, MAX_PAGES);
    assert view[done..done] == [];
    assert PeerIds([], userId) == {};
    MoveNone(suite, from);
  }

  /** The rows committed of those read are the stretch a sync stores. */
  lemma AppliedIsAttempted(suite: Suite, userId: string, view: seq<Row>, before: set<string>, after: set<string>,
                           lo: nat, applied: nat, from: Option<SessionState>, to: Option<SessionState>)
    requires Table(view) && lo == FetchStart(view, before, |view|, MAX_PAGES) <= |view| && applied <= |view[lo..]|
    requires after == before + PeerIds(view[lo..][..applied], userId)
    requires Moves(suite, from, Pending(view[lo..][..applied], before, userId), to)
    ensures Attempted(suite, userId, Attempt(view, before, after, lo + applied, from, to))
  {
    hide PeerIds, FetchStart, Moves, Pending, Ordered, UniqueIds;
    assert view[lo..][..applied] == view[lo..lo + applied];
  }

  /** What the rows read from the database and from the server have to do with each other. */
  lemma KnownRows(a: Account, w: World, list: seq<Message>, known: set<string>, view: seq<Row>, batches: seq<Row>)
    requires Inv(a, w) && UniqueIds(view) && batches == Fetched(view, known)
    requires forall r <- view :: r.id in known <==> r.id in w.db.messages
    requires forall r <- view :: r in w.rows
    requires forall r <- view :: r.id in w.db.messages ==> w.db.messages[r.id] in list
    ensures UniqueIds(batches)
    ensures forall r <- batches :: r in w.rows && (r.id in known <==> r.id in w.db.messages)
    ensures forall r <- batches :: r.id in w.db.messages ==> w.db.messages[r.id] in list && w.db.messages[r.id].id == r.id
  {
    KeyedMessages(a, w);
    assert forall r <- batches :: r in view;
  }

  /** Completeness after everything read has been stored. */
  lemma SyncOutcome(view: seq<Row>, before: set<string>, after: set<string>, userId: string)
    requires UniqueIds(view) && Synced(view, before, after, userId, |view|)
    ensures forall p :: NewestKnown(view, before, p) ==>
      (Complete(view, after, userId) <==> Complete(view[..StopIndex(|view|, p, MAX_PAGES)], before, userId))
  {
    forall p | NewestKnown(view, before, p)
      ensures Complete(view, after, userId) <==> Complete(view[..StopIndex(|view|, p, MAX_PAGES)], before, userId)
    {
      var lo := FetchStart(view, before, |view|, MAX_PAGES);
      assert view[lo..|view|] == view[lo..];
      SyncCompleteIff(view, before, userId, p);
    }
  }

  /** The ids read from the table at the start are the stored ids of the conversation. */
  lemma KnownIsStored(a: Account, w: World, list: seq<Message>, conversation: string, view: seq<Row>)
    requires Inv(a, w) && forall r <- view :: r in w.rows && r.conversation == conversation
    requires forall m <- list :: m.id in w.db.messages && w.db.messages[m.id] == m
    requires forall id <- w.db.messages :: w.db.messages[id].conversation == conversation ==> w.db.messages[id] in list
    ensures forall r <- view :: r.id in Handled(list) <==> r.id in w.db.messages
    ensures forall r <- view :: r.id in w.db.messages ==> w.db.messages[r.id] in list
  {
    KeyedMessages(a, w);
    forall r <- view ensures r.id in Handled(list) <==> r.id in w.db.messages {
      RowKnowledge(a, w, r);
    }
  }

  lemma PageOfGrownTable(start: seq<Row>, rows: seq<Row>, conversation: string, hi: nat, beforeId: Option<string>)
    requires start <= rows && Table(rows)
    requires var view := InConversation(start, conversation);
      hi <= |view| && if beforeId.None? then hi == |view| && rows == start
                      else hi < |view| && beforeId == Some(view[hi].id)
    ensures Page(InConversation(rows, conversation), beforeId, PAGE_LIMIT)
         == InConversation(start, conversation)[PageStart(hi)..hi]
  {
    hide Ordered, UniqueIds, Before;
    var more := rows[|start|..];
    assert rows == start + more;
    InConversationAppend(start, more, conversation);
    InConversationTable(rows, conversation);
    PageOfGrownView(InConversation(start, conversation), InConversation(more, conversation), hi, beforeId);
    if beforeId.None? { assert more == []; }
  }

  lemma PageOfGrownView(view: seq<Row>, newer: seq<Row>, hi: nat, beforeId: Option<string>)
    requires Table(view + newer) && hi <= |view|
    requires if beforeId.None? then hi == |view| && newer == [] else hi < |view| && beforeId == Some(view[hi].id)
    ensures Page(view + newer, beforeId, PAGE_LIMIT) == view[PageStart(hi)..hi]
  {
    hide Ordered, UniqueIds, OlderThan;
    if beforeId.Some? {
      PageBeforeKnownRow(view, newer, hi, PAGE_LIMIT);
      assert view[..hi][PageStart(hi)..] == view[PageStart(hi)..hi];
    } else {
      assert view + newer == view && view[PageStart(hi)..] == view[PageStart(hi)..hi];
    }
    assert view[..hi][..hi] == view[0..hi];
  }

  lemma StillStored(start: seq<Row>, rows: seq<Row>, conversation: string)
    requires start <= rows
    ensures forall r <- InConversation(start, conversation) :: r in rows
  {
    forall r <- InConversation(start, conversation) ensures r in rows {
      var i :| 0 <= i < |start| && start[i] == r;
      assert rows[i] == r;
    }
  }

  function Handled(messages: seq<Message>): set<string> { set m <- messages :: m.id }

  lemma KeyedMessages(a: Account, w: World)
    requires Inv(a, w)
    ensures forall id <- w.db.messages :: w.db.messages[id].id == id
  {
    assert Keyed(w.db.messages);
  }

  lemma SentIsStored(a: Account, w: World, conversation: string)
    requires Inv(a, w)
    requires forall id <- w.db.messages ::
      w.db.messages[id].conversation == conversation && w.db.messages[id].sender == ME ==> w.db.messages[id].isSent
    ensures forall id <- w.outgoing :: w.outgoing[id].conversation == conversation ==>
      StoredAs(w.rows, a.userId, id, conversation, w.outgoing[id].envelope)
  {
    forall id <- w.outgoing | w.outgoing[id].conversation == conversation
      ensures StoredAs(w.rows, a.userId, id, conversation, w.outgoing[id].envelope)
    {
      assert OwnRow(a, w.db, w.rows, id, w.outgoing[id]);
    }
  }
}
