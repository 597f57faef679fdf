/** The client's transactional database: the message table and the key-value table. */
module LocalStore {
  import opened Basics
  import opened RatchetCodec

  const ME := "me"
  const SESSION_PREFIX := "ratchet_session/"

  datatype Message = Message(
    id: string, conversation: string, sender: string, payload: Payload, timestamp: int,
    isSent: bool, isRead: bool, isDelivered: bool)

  /** A decrypted key-value entry. */
  datatype Blob = SessionBlob(state: SessionState) | TextBlob(envelope: Envelope)

  datatype Contents = Contents(messages: map<string, Message>, kv: map<string, Blob>)

  function SessionId(conversation: string, peerKey: string): string { conversation + ":" + peerKey }

  function SessionKey(sessionId: string): string { SESSION_PREFIX + sessionId }

  function OutboxKey(messageId: string): string { SESSION_PREFIX + "outbox:" + messageId }

  /** The canonical text of a UUID has 36 characters. */
  predicate ValidUuid(id: string) { |id| == 36 && ':' !in id }

  /** An outbox entry can never land on a session entry: the two key spaces are disjoint. */
  lemma OutboxKeysAreNotSessionKeys(messageId: string, conversation: string, peerKey: string)
    requires ValidUuid(messageId) && ValidIdentity(peerKey)
    ensures OutboxKey(messageId) != SessionKey(SessionId(conversation, peerKey))
  {
    assert |OutboxKey(messageId)| == |SESSION_PREFIX| + 43;
    assert |SessionKey(SessionId(conversation, peerKey))| == |SESSION_PREFIX| + |conversation| + 67;
  }

  /** Distinct messages have distinct outbox entries. */
  lemma OutboxKeyInjective(a: string, b: string)
    requires OutboxKey(a) == OutboxKey(b)
    ensures a == b
  {
    var prefix := SESSION_PREFIX + "outbox:";
    assert OutboxKey(a)[|prefix|..] == a && OutboxKey(b)[|prefix|..] == b;
  }

  lemma SessionKeyInjective(a: string, b: string)
    requires SessionKey(a) == SessionKey(b)
    ensures a == b
  {
    assert SessionKey(a)[|SESSION_PREFIX|..] == a && SessionKey(b)[|SESSION_PREFIX|..] == b;
  }

  /** Distinct (conversation, identity) pairs have distinct sessions. */
  lemma SessionIdInjective(c1: string, k1: string, c2: string, k2: string)
    requires ValidIdentity(k1) && ValidIdentity(k2)
    requires SessionId(c1, k1) == SessionId(c2, k2)
    ensures c1 == c2 && k1 == k2
  {
    var s := SessionId(c1, k1);
    assert s[..|s| - 67] == c1 && s[|s| - 66..] == k1;
    assert s == SessionId(c2, k2);
    assert s[..|s| - 67] == c2 && s[|s| - 66..] == k2;
  }

  /** The saved session, if the entry is there and parses as one. */
  function LoadSession(kv: map<string, Blob>, sessionId: string): Option<SessionState> {
    var key := SessionKey(sessionId);
    if key in kv && kv[key].SessionBlob? then Some(kv[key].state) else None
  }

  /** The saved envelope of a pending message. */
  function LoadOutbox(kv: map<string, Blob>, messageId: string): Option<Envelope> {
    var key := OutboxKey(messageId);
    if key in kv && kv[key].TextBlob? then Some(kv[key].envelope) else None
  }

  function AfterReceived(db: Contents, sessionId: string, state: SessionState, message: Message): Contents {
    Contents(db.messages[message.id := message], db.kv[SessionKey(sessionId) := SessionBlob(state)])
  }

  function AfterOutgoing(db: Contents, sessionId: string, state: SessionState, message: Message,
                         envelope: Envelope): Contents
  {
    Contents(db.messages[message.id := message],
             db.kv[SessionKey(sessionId) := SessionBlob(state)][OutboxKey(message.id) := TextBlob(envelope)])
  }

  function AfterSent(db: Contents, message: Message): Contents {
    Contents(db.messages[message.id := message], db.kv - {OutboxKey(message.id)})
  }

  function AfterUpsert(db: Contents, message: Message): Contents {
    db.(messages := db.messages[message.id := message])
  }

  /** Rows in the order of their timestamps. */
  ghost predicate InTimeOrder(list: seq<Message>) {
    forall i, j :: 0 <= i < j < |list| ==> list[i].timestamp <= list[j].timestamp
  }

  ghost predicate DistinctIds(list: seq<Message>) {
    forall i, j :: 0 <= i < j < |list| ==> list[i].id != list[j].id
  }

  /**
   * Each method is one await of the caller: it may fail, and a transaction that
   * fails (or is cut off by a crash) at any statement leaves both tables alone.
   */
  class LocalDatabase {
    var messages: map<string, Message>
    var kv: map<string, Blob>

    function View(): Contents reads this { Contents(messages, kv) }

    constructor ()
      ensures View() == Contents(map[], map[])
    {
      messages, kv := map[], map[];
    }

    method AddMessage(message: Message) returns (ok: bool)
      modifies this
      ensures View() == if ok then AfterUpsert(old(View()), message) else old(View())
    {
      ok := *;
      if ok { messages := messages[message.id := message]; }
    }

    method CommitReceivedMessage(sessionId: string, state: SessionState, message: Message) returns (ok: bool)
      modifies this
      ensures View() == if ok then AfterReceived(old(View()), sessionId, state, message) else old(View())
    {
      var pendingMessages, pendingKv := messages, kv;
      ok := *;
      if !ok { return; }
      pendingMessages := pendingMessages[message.id := message];
      ok := *;
      if !ok { return; }
      pendingKv := pendingKv[SessionKey(sessionId) := SessionBlob(state)];
      ok := *;
      if ok { messages, kv := pendingMessages, pendingKv; }
    }

    method CommitOutgoingMessage(sessionId: string, state: SessionState, message: Message, envelope: Envelope)
      returns (ok: bool)
      modifies this
      ensures View() == if ok then AfterOutgoing(old(View()), sessionId, state, message, envelope) else old(View())
    {
      var pendingMessages, pendingKv := messages, kv;
      ok := *;
      if !ok { return; }
      pendingMessages := pendingMessages[message.id := message];
      ok := *;
      if !ok { return; }
      pendingKv := pendingKv[SessionKey(sessionId) := SessionBlob(state)];
      ok := *;
      if !ok { return; }
      pendingKv := pendingKv[OutboxKey(message.id) := TextBlob(envelope)];
      ok := *;
      if ok { messages, kv := pendingMessages, pendingKv; }
    }

    method CommitMessageSent(message: Message) returns (ok: bool)
      modifies this
      ensures View() == if ok then AfterSent(old(View()), message) else old(View())
    {
      var pendingMessages, pendingKv := messages, kv;
      ok := *;
      if !ok { return; }
      pendingMessages := pendingMessages[message.id := message];
      ok := *;
      if !ok { return; }
      pendingKv := pendingKv - {OutboxKey(message.id)};
      ok := *;
      if ok { messages, kv := pendingMessages, pendingKv; }
    }

    /** All rows of a conversation, ordered by timestamp; None when the read fails. */
    method GetMessages(conversation: string) returns (result: Option<seq<Message>>)
      ensures result.Some? ==> InTimeOrder(result.value) && DistinctIds(result.value)
      ensures result.Some? ==> forall m :: m in result.value <==>
                m.id in messages && messages[m.id] == m && m.conversation == conversation
      ensures result.Some? && (forall id <- messages :: messages[id].id == id) ==>
                forall id <- messages :: messages[id].conversation == conversation ==> messages[id] in result.value
    {
      var ok := *;
      if !ok { return None; }
      var list: seq<Message> := [];
      var todo := messages.Keys;
      while todo != {}
        invariant todo <= messages.Keys
        invariant InTimeOrder(list) && DistinctIds(list)
        invariant forall m :: m in list <==>
          m.id in messages && m.id !in todo && messages[m.id] == m && m.conversation == conversation
        decreases todo
      {
        var id :| id in todo;
        var m := messages[id];
        if m.conversation == conversation && m.id == id {
          list := Insert(list, m);
        }
        todo := todo - {id};
      }
      return Some(list);
    }

    /** Places a row after every row that is not newer. */
    static method Insert(list: seq<Message>, m: Message) returns (result: seq<Message>)
      requires InTimeOrder(list) && DistinctIds(list)
      requires forall k :: 0 <= k < |list| ==> list[k].id != m.id
      ensures InTimeOrder(result) && DistinctIds(result)
      ensures forall x :: x in result <==> x == m || x in list
    {
      var i := |list|;
      while i > 0 && list[i - 1].timestamp > m.timestamp
        invariant 0 <= i <= |list|
        invariant forall k :: i <= k < |list| ==> list[k].timestamp > m.timestamp
      {
        i := i - 1;
      }
      result := list[..i] + [m] + list[i..];
      InsertedInOrder(list, i, m);
      InsertedDistinct(list, i, m);
      InsertedMembers(list, i, m);
      hide InTimeOrder, DistinctIds;
    }
  }

  lemma InsertedInOrder(list: seq<Message>, i: nat, m: Message)
    requires InTimeOrder(list) && i <= |list| && (i > 0 ==> list[i - 1].timestamp <= m.timestamp)
    requires forall k :: i <= k < |list| ==> list[k].timestamp > m.timestamp
    ensures InTimeOrder(list[..i] + [m] + list[i..])
  {
    assert forall k :: 0 <= k < i ==> list[k].timestamp <= list[i - 1].timestamp;
  }

  lemma InsertedDistinct(list: seq<Message>, i: nat, m: Message)
    requires DistinctIds(list) && i <= |list| && forall k :: 0 <= k < |list| ==> list[k].id != m.id
    ensures DistinctIds(list[..i] + [m] + list[i..])
  {}

  lemma InsertedMembers(list: seq<Message>, i: nat, m: Message)
    requires i <= |list|
    ensures forall x :: x in list[..i] + [m] + list[i..] <==> x == m || x in list
  {
    assert list == list[..i] + list[i..];
  }
}
