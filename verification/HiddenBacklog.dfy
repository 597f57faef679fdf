/**
 * A backlog that is never read, over the Double Ratchet.
 *
 * A sync does not look further back than a page below the newest row it knows, so a message
 * sent from this device over a long unread backlog hides the older part of it for good. If
 * more than MAX_SKIP messages are hidden, the ratchet refuses everything that follows them.
 */
module HiddenBacklog {
  import opened Basics
  import opened RatchetCodec
  import opened LocalStore
  import opened MessageServer
  import opened MessagingProtocol
  import opened MessagingSafety
  import opened SyncPaging
  import opened MessageOpening
  import opened SyncHistory
  import opened CodecRatchet
  import DoubleRatchet

  // ---- What the ratchet refuses whatever it draws

  /** The message, or the end of the chain before its own, is more than 1000 ahead of what has been received. */
  predicate TooFar(s: SessionState, header: Header) {
    && (header.dhPublicKey, header.messageNumber) !in s.skipped
    && (if header.dhPublicKey == s.remote then header.messageNumber else header.prevChainLength)
         > s.recvCounter + 1000
  }

  lemma {:induction false} StagingStopsAtLimit(k: DoubleRatchet.Kdf, s: SessionState, n: nat, limit: nat)
    requires DoubleRatchet.StageTo(k, s, n, limit).Ok?
    ensures n <= s.recvCounter + limit
    decreases n - s.recvCounter
  {
    if s.recvCounter < n { StagingStopsAtLimit(k, DoubleRatchet.StageSkipped(k, s).value, n, limit - 1); }
  }

  lemma TooFarIsRefused(k: DoubleRatchet.Kdf, s: SessionState, header: Header, ephemeral: DoubleRatchet.Private)
    requires TooFar(s, header)
    ensures !DoubleRatchet.Decrypted(k, s, header, ephemeral).Ok?
  {
    hide DoubleRatchet.StageTo;
    if DoubleRatchet.StageTo(k, s, header.prevChainLength, DoubleRatchet.MAX_SKIP).Ok? {
      StagingStopsAtLimit(k, s, header.prevChainLength, DoubleRatchet.MAX_SKIP);
    }
  }

  /** A row of which this holds does not open, though it may be sealed as it should. */
  predicate OutOfReach(from: Option<SessionState>, row: Row) {
    from.None? || row.content.Malformed? || row.content.version != 1 || TooFar(from.value, row.content.header)
  }

  lemma OutOfReachIsRefused(k: DoubleRatchet.Kdf, c: Cipher, from: Option<SessionState>, row: Row)
    requires OutOfReach(from, row)
    ensures !CanOpen(RatchetSuite(k, c), from, row)
  {
    hide DoubleRatchet.Decrypted, TooFar;
    if from.Some? && row.content.Envelope? && row.content.version == 1 {
      forall seed: nat ensures CodecRatchet.ReceiveStep(k, c, from.value, row.content.header, seed).None? {
        TooFarIsRefused(k, from.value, row.content.header, c.draw(seed));
      }
    }
  }

  /**
   * A message sealed as it should, more than MAX_SKIP ahead in the first chain, can be there, and it blocks its
   * conversation, though there are states that would open it.
   */
  lemma GapBlocks(k: DoubleRatchet.Kdf, c: Cipher, a: Account, row: Row, peerKey: string, key: MessageKey, payload: Payload)
    requires a.suite == RatchetSuite(k, c) && Authenticated(a.suite) && row.sender != a.userId && row.sender != ME
    requires ValidIdentity(peerKey) && !c.zeroAgreement(peerKey)
    requires row.content.Envelope? && row.content.version == 1
    requires row.content.body == c.seal(key, a.suite.aad(row.conversation, row.id, row.sender, row.content.header), payload)
    requires TooFar(c.start(row.conversation, peerKey), row.content.header)
    ensures var w := EMPTY.(rows := [row]);
      && Reachable(a, w) && Pending([row], w.db.messages.Keys, a.userId) == [row]
      && Blocked(a.suite, StateInUse(a.suite, w.db.kv, row.conversation, peerKey), [row])
      && !Unopenable(a.suite, row)
  {
    hide TooFar, RatchetSuite, Reachable, Authenticated;
    PostsReach(a, [row]);
    AllPending([row], {}, a.userId);
    OutOfReachBlocks(k, c, Some(c.start(row.conversation, peerKey)), row);
    StartIsCiphers(k, c, row.conversation, peerKey);
    OpensFromCache(k, c, c.start(row.conversation, peerKey), row, key, payload);
  }

  lemma StartIsCiphers(k: DoubleRatchet.Kdf, c: Cipher, conversation: string, peerKey: string)
    ensures RatchetSuite(k, c).start(conversation, peerKey) == c.start(conversation, peerKey)
    ensures RatchetSuite(k, c).zeroAgreement == c.zeroAgreement
  {}

  /** Any sealed row opens from a state that has its key in the cache. */
  lemma OpensFromCache(k: DoubleRatchet.Kdf, c: Cipher, start: SessionState, row: Row, key: MessageKey, payload: Payload)
    requires Authenticated(RatchetSuite(k, c)) && row.content.Envelope? && row.content.version == 1
    requires row.content.body
      == c.seal(key, RatchetSuite(k, c).aad(row.conversation, row.id, row.sender, row.content.header), payload)
    ensures !Unopenable(RatchetSuite(k, c), row)
  {
    hide DoubleRatchet.ReceiveOnChain, DoubleRatchet.DhRatchet, MetadataBytes;
    var suite, header := RatchetSuite(k, c), row.content.header;
    var aad := suite.aad(row.conversation, row.id, row.sender, header);
    assert suite.open(key, aad, suite.seal(key, aad, payload)) == Some(payload);
    var cached := start.(skipped := start.skipped[(header.dhPublicKey, header.messageNumber) := key]);
    var next := cached.(skipped := cached.skipped - {(header.dhPublicKey, header.messageNumber)});
    assert Opens(suite, Some(cached).value, row, 0, next, payload);
    assert CanOpen(suite, Some(cached), row);
  }

  lemma OutOfReachBlocks(k: DoubleRatchet.Kdf, c: Cipher, from: Option<SessionState>, row: Row)
    requires OutOfReach(from, row)
    ensures Blocked(RatchetSuite(k, c), from, [row])
  {
    hide RatchetSuite;
    OutOfReachIsRefused(k, c, from, row);
    OneRowBlocksIff(RatchetSuite(k, c), from, row);
  }

  // ---- Sending does not help

  /** This device sends, any number of times; where there is no session to send in, it does not. */
  ghost predicate SentFrom(suite: Suite, from: Option<SessionState>, seeds: seq<nat>, to: Option<SessionState>)
    decreases |seeds|
  {
    if seeds == [] then from == to
    else
      && from.Some? && suite.send(from.value, seeds[0]).Some?
      && SentFrom(suite, Some(suite.send(from.value, seeds[0]).value.0), seeds[1..], to)
  }

  ghost predicate OnlySent(suite: Suite, from: Option<SessionState>, to: Option<SessionState>) {
    exists seeds :: SentFrom(suite, from, seeds, to)
  }

  /** Between the syncs, nothing but sending steps the ratchet. */
  ghost predicate OnlySending(suite: Suite, ts: seq<Attempt>) {
    forall k :: 0 < k < |ts| ==> OnlySent(suite, ts[k - 1].to, ts[k].from)
  }

  predicate SameReceiving(s: Option<SessionState>, t: Option<SessionState>) {
    if s.None? then t.None?
    else
      && t.Some? && t.value.remote == s.value.remote && t.value.recvCounter == s.value.recvCounter
      && t.value.skipped == s.value.skipped
  }

  lemma {:induction false} SendingKeepsReceiving(k: DoubleRatchet.Kdf, c: Cipher, from: Option<SessionState>, seeds: seq<nat>,
                                                 to: Option<SessionState>)
    requires SentFrom(RatchetSuite(k, c), from, seeds, to)
    ensures SameReceiving(from, to)
    decreases |seeds|
  {
    if seeds != [] {
      SendingKeepsReceiving(k, c, Some(RatchetSuite(k, c).send(from.value, seeds[0]).value.0), seeds[1..], to);
    }
  }

  lemma ReachIsOfReceiving(s: Option<SessionState>, t: Option<SessionState>, row: Row)
    requires SameReceiving(s, t)
    ensures OutOfReach(s, row) <==> OutOfReach(t, row)
  {}

  // ---- Over many syncs

  /** Every row that can still be read and is not stored is out of reach. */
  ghost predicate NothingInReach(userId: string, t: Attempt, view: seq<Row>, p: nat) {
    forall i :: 0 <= i < |view| && p <= i + PAGE_LIMIT ==>
      view[i].sender == userId || (i < |t.view| && view[i].id in t.before) || OutOfReach(t.from, view[i])
  }

  /** Nothing of the other side is stored that was not before. */
  ghost predicate NothingNew(userId: string, t: Attempt, view: seq<Row>, stored: set<string>) {
    forall i :: 0 <= i < |view| && view[i].sender != userId && view[i].id in stored ==> i < |t.view| && view[i].id in t.before
  }

  /** A sync that can read only rows out of reach stores nothing and leaves the ratchet alone. */
  lemma NothingOpened(k: DoubleRatchet.Kdf, c: Cipher, userId: string, t: Attempt)
    requires Attempted(RatchetSuite(k, c), userId, t)
    requires forall i :: FetchStart(t.view, t.before, |t.view|, MAX_PAGES) <= i < |t.view| ==>
      t.view[i].sender == userId || t.view[i].id in t.before || OutOfReach(t.from, t.view[i])
    ensures t.to == t.from && t.after == t.before
  {
    hide FetchStart, UniqueIds, OutOfReach, RatchetSuite, CanOpen;
    var lo := FetchStart(t.view, t.before, |t.view|, MAX_PAGES);
    var part := t.view[lo..t.done];
    var pending := Pending(part, t.before, userId);
    if pending != [] {
      var r := pending[0];
      assert r in pending;
      var i :| 0 <= i < |part| && part[i] == r;
      assert t.view[lo + i] == r;
      OutOfReachIsRefused(k, c, t.from, r);
      FirstOpens(RatchetSuite(k, c), t.from, pending, t.to);
    }
    PendingIds(part, t.before, userId);
  }

  lemma FirstOpens(suite: Suite, from: Option<SessionState>, rows: seq<Row>, to: Option<SessionState>)
    requires rows != [] && Moves(suite, from, rows, to)
    ensures CanOpen(suite, from, rows[0])
  {}

  /**
   * If whatever can still be read is out of reach, the conversation is blocked for good: however often it is synced,
   * whatever is sent from this device and whatever arrives out of reach meanwhile, nothing of the other side is
   * stored and the receiving side of the ratchet stays where it is.
   */
  lemma {:induction false} NothingEverStored(k: DoubleRatchet.Kdf, c: Cipher, userId: string, ts: seq<Attempt>, p: nat, l: nat)
    requires History(RatchetSuite(k, c), userId, ts) && OnlySending(RatchetSuite(k, c), ts) && l < |ts|
    requires p <= |ts[0].view| && (p > 0 ==> ts[0].view[p - 1].id in ts[0].before)
    requires NothingInReach(userId, ts[0], ts[l].view, p)
    ensures SameReceiving(ts[0].from, ts[l].to) && NothingNew(userId, ts[0], ts[l].view, ts[l].after)
    decreases l
  {
    hide Attempted, RatchetSuite, OutOfReach, SameReceiving, FetchStart;
    var suite := RatchetSuite(k, c);
    StillReceiving(k, c, ts[0].from, [], ts[0].from);
    if l > 0 {
      ViewsGrow(suite, userId, ts, l - 1, l);
      LessInReach(userId, ts[0], ts[l - 1].view, ts[l].view, p);
      NothingEverStored(k, c, userId, ts, p, l - 1);
      assert OnlySent(suite, ts[l - 1].to, ts[l].from);
      var seeds :| SentFrom(suite, ts[l - 1].to, seeds, ts[l].from);
      StillReceiving(k, c, ts[l - 1].to, seeds, ts[l].from);
      ReceivingChain(ts[0].from, ts[l - 1].to, ts[l].from);
      NothingNewFollows(userId, ts[0], ts[l - 1], ts[l]);
    }
    ReadsFrom(suite, userId, ts, p, l);
    ViewsGrow(suite, userId, ts, 0, l);
    forall i | FetchStart(ts[l].view, ts[l].before, |ts[l].view|, MAX_PAGES) <= i < |ts[l].view|
      ensures ts[l].view[i].sender == userId || ts[l].view[i].id in ts[l].before || OutOfReach(ts[l].from, ts[l].view[i])
    {
      if i < |ts[0].view| && ts[l].view[i].id in ts[0].before { StaysKnown(suite, userId, ts, i, l); }
      ReachIsOfReceiving(ts[0].from, ts[l].from, ts[l].view[i]);
    }
    NothingOpened(k, c, userId, ts[l]);
  }

  lemma StillReceiving(k: DoubleRatchet.Kdf, c: Cipher, from: Option<SessionState>, seeds: seq<nat>, to: Option<SessionState>)
    requires SentFrom(RatchetSuite(k, c), from, seeds, to)
    ensures SameReceiving(from, to)
  {
    hide RatchetSuite;
    SendingKeepsReceiving(k, c, from, seeds, to);
  }

  lemma ReceivingChain(s: Option<SessionState>, t: Option<SessionState>, u: Option<SessionState>)
    requires SameReceiving(s, t) && SameReceiving(t, u)
    ensures SameReceiving(s, u)
  {}

  lemma LessInReach(userId: string, t: Attempt, view: seq<Row>, longer: seq<Row>, p: nat)
    requires NothingInReach(userId, t, longer, p) && view <= longer
    ensures NothingInReach(userId, t, view, p)
  {
    hide OutOfReach;
    assert forall i :: 0 <= i < |view| ==> longer[i] == view[i];
  }

  lemma NothingNewFollows(userId: string, first: Attempt, t: Attempt, u: Attempt)
    requires NothingNew(userId, first, t.view, t.after) && Followed(userId, t, u)
    ensures NothingNew(userId, first, u.view, u.before)
  {
    assert forall i :: 0 <= i < |t.view| ==> u.view[i] == t.view[i];
  }

  // ---- A message sent over an unread backlog

  /** The n-th message of the chain being received, as far as the header says; its key was not set aside before. */
  predicate Numbered(s: SessionState, row: Row, n: nat) {
    && row.content.Envelope? && row.content.header.dhPublicKey == s.remote && row.content.header.messageNumber == n
    && (s.remote, n) !in s.skipped
  }

  /** The rows from index `from` on are this account's, or were sent when the other side had sent n messages of the
      chain: further on it, or on a chain begun after it. */
  ghost predicate Onward(userId: string, s: SessionState, view: seq<Row>, from: nat, n: nat) {
    forall i :: from <= i < |view| ==> view[i].sender == userId || NotBefore(s, view[i], n)
  }

  predicate NotBefore(s: SessionState, row: Row, n: nat) {
    row.content.Envelope? ==>
      var header := row.content.header;
      && (header.dhPublicKey, header.messageNumber) !in s.skipped
      && (if header.dhPublicKey == s.remote then header.messageNumber else header.prevChainLength) >= n
  }

  /** The conversation as a sync sees it: `unread` rows of the other side that follow each other on the chain being
      received, then a row this device has sent, and then whatever the other side sends after them. */
  ghost predicate Backlog(userId: string, t: Attempt, view: seq<Row>, at: nat, unread: nat) {
    && t.from.Some? && at + unread < |t.view| && t.view[at + unread].id in t.before && t.view <= view
    && (forall i :: at <= i < at + unread ==> Numbered(t.from.value, view[i], t.from.value.recvCounter + i - at))
    && Onward(userId, t.from.value, view, at + unread + 1, t.from.value.recvCounter + unread)
  }

  /**
   * More than 1000 messages hidden by the page rule: whatever can still be read is more than 1000 ahead of what was
   * received.
   */
  lemma BacklogIsOutOfReach(userId: string, t: Attempt, view: seq<Row>, at: nat, unread: nat)
    requires Backlog(userId, t, view, at, unread) && unread >= 1200
    ensures NothingInReach(userId, t, view, at + unread + 1)
  {
    var s := t.from.value;
    forall i | 0 <= i < |view| && at + unread + 1 <= i + PAGE_LIMIT
      ensures view[i].sender == userId || (i < |t.view| && view[i].id in t.before) || OutOfReach(t.from, view[i])
    {
      if i < at + unread {
        assert Numbered(s, view[i], s.recvCounter + i - at);
      } else if i > at + unread && view[i].sender != userId {
        assert NotBefore(s, view[i], s.recvCounter + unread);
      }
    }
  }

  /**
   * So after a message has been sent over an unread backlog of 1200 messages or more (MAX_SKIP and a page), none of the
   * backlog and nothing that follows it is ever stored, however often the conversation is synced and written to.
   */
  lemma BacklogBlocksForGood(k: DoubleRatchet.Kdf, c: Cipher, userId: string, ts: seq<Attempt>, at: nat, unread: nat, l: nat)
    requires History(RatchetSuite(k, c), userId, ts) && OnlySending(RatchetSuite(k, c), ts) && l < |ts|
    requires Backlog(userId, ts[0], ts[l].view, at, unread) && unread >= 1200
    ensures SameReceiving(ts[0].from, ts[l].to) && NothingNew(userId, ts[0], ts[l].view, ts[l].after)
  {
    hide History, OnlySending, NothingInReach, NothingNew, SameReceiving, RatchetSuite;
    BacklogIsOutOfReach(userId, ts[0], ts[l].view, at, unread);
    hide Numbered, Onward;
    NothingEverStored(k, c, userId, ts, at + unread + 1, l);
  }

  // ---- And such a backlog can be there

  /** The other side's messages can all be there before this device has done anything. */
  lemma {:induction false} PostsReach(a: Account, rows: seq<Row>)
    requires Table(rows) && forall r <- rows :: r.sender != a.userId && r.sender != ME
    ensures Reachable(a, EMPTY.(rows := rows))
  {
    if rows == [] {
      RunNone(a, EMPTY);
      assert Reaches(a, EMPTY, [], EMPTY);
    } else {
      var front, last := rows[..|rows| - 1], rows[|rows| - 1];
      assert rows == front + [last];
      PostsReach(a, front);
      assert last in rows;
      assert Enabled(a, EMPTY.(rows := front), PeerPost(last));
      ReachesOneMore(a, EMPTY.(rows := front), PeerPost(last));
    }
  }

  /** A message sent from this device over the other side's unread ones: committed, transmitted and stored behind them. */
  lemma SentOverUnread(a: Account, unread: seq<Row>, m: Message, peerKey: string, seed: nat, sentAt: int)
    returns (w: World, own: Row)
    requires Table(unread) && forall r <- unread :: r.sender != a.userId && r.sender != ME && r.sentAt < sentAt
    requires ValidUuid(m.id) && !HasId(unread, m.id) && m.sender == ME && !m.isSent
    requires ValidIdentity(peerKey) && !a.suite.zeroAgreement(peerKey)
    requires a.suite.send(a.suite.start(m.conversation, peerKey), seed).Some?
    ensures Reachable(a, w) && w.rows == unread + [own] && own.id == m.id && own.sender == a.userId
    ensures own.conversation == m.conversation && w.db.messages.Keys == {m.id}
    ensures SentFrom(a.suite, Some(a.suite.start(m.conversation, peerKey)), [seed],
                     StateInUse(a.suite, w.db.kv, m.conversation, peerKey))
  {
    PostsReach(a, unread);
    var w0 := EMPTY.(rows := unread);
    var commit := CommitOutgoing(m, peerKey, seed);
    var w1 := Next(a, w0, commit);
    ReachesOneMore(a, w0, commit);
    var o := w1.outgoing[m.id];
    var t := Transmission(m.id, m.conversation, o.envelope);
    assert LoadOutbox(w1.db.kv, m.id) == Some(o.envelope);
    var w2 := w1.(wire := {t});
    assert w2 == Next(a, w1, Transmit(m.id));
    ReachesOneMore(a, w1, Transmit(m.id));
    own := Row(m.id, m.conversation, a.userId, o.envelope, sentAt);
    w := w2.(rows := unread + [own]);
    assert w == Next(a, w2, Accept(t, sentAt));
    ReachesOneMore(a, w2, Accept(t, sentAt));
  }

  /**
   * So with an unread chain of the other side of any length of at least 1200, a message sent from this
   * device leads to a world whose first sync, and so every later one, finds its conversation blocked.
   */
  lemma BacklogCanBlock(k: DoubleRatchet.Kdf, c: Cipher, a: Account, unread: seq<Row>, m: Message, peerKey: string, seed: nat,
                        sentAt: int) returns (w: World)
    requires a.suite == RatchetSuite(k, c) && Table(unread)
    requires forall r <- unread :: r.sender != a.userId && r.sender != ME && r.conversation == m.conversation && r.sentAt < sentAt
    requires ValidUuid(m.id) && !HasId(unread, m.id) && m.sender == ME && !m.isSent
    requires ValidIdentity(peerKey) && !a.suite.zeroAgreement(peerKey)
    requires var start := a.suite.start(m.conversation, peerKey);
      && a.suite.send(start, seed).Some?
      && forall i :: 0 <= i < |unread| ==> Numbered(start, unread[i], start.recvCounter + i)
    ensures Reachable(a, w)
    ensures var view, from := InConversation(w.rows, m.conversation), StateInUse(a.suite, w.db.kv, m.conversation, peerKey);
      from.Some? && forall t: Attempt, longer: seq<Row> ::
        t.view == view && t.before == w.db.messages.Keys && t.from == from && view <= longer
        && Onward(a.userId, from.value, longer, |view|, from.value.recvCounter + |unread|)
        ==> Backlog(a.userId, t, longer, 0, |unread|)
  {
    hide *;
    var own;
    w, own := SentOverUnread(a, unread, m, peerKey, seed, sentAt);
    var start, from := a.suite.start(m.conversation, peerKey), StateInUse(a.suite, w.db.kv, m.conversation, peerKey);
    SendingKeepsReceiving(k, c, Some(start), [seed], from);
    OneConversation(w.rows, m.conversation);
    forall t: Attempt, longer: seq<Row> | t.view == w.rows && t.before == w.db.messages.Keys && t.from == from
        && w.rows <= longer && Onward(a.userId, from.value, longer, |w.rows|, from.value.recvCounter + |unread|)
      ensures Backlog(a.userId, t, longer, 0, |unread|)
    {
      BacklogOf(a.userId, unread, own, start, t, longer);
    }
  }

  lemma BacklogOf(userId: string, unread: seq<Row>, own: Row, start: SessionState, t: Attempt, longer: seq<Row>)
    requires SameReceiving(Some(start), t.from) && t.view == unread + [own] <= longer && t.before == {own.id}
    requires forall i :: 0 <= i < |unread| ==> Numbered(start, unread[i], start.recvCounter + i)
    requires Onward(userId, t.from.value, longer, |t.view|, t.from.value.recvCounter + |unread|)
    ensures Backlog(userId, t, longer, 0, |unread|)
  {
    hide Numbered, Onward;
    forall i | 0 <= i < |unread| ensures Numbered(t.from.value, longer[i], t.from.value.recvCounter + i) {
      assert longer[i] == t.view[i] == unread[i];
      NumberedAlike(start, t.from.value, unread[i], start.recvCounter + i);
    }
  }

  lemma NumberedAlike(s: SessionState, t: SessionState, row: Row, n: nat)
    requires Numbered(s, row, n) && SameReceiving(Some(s), Some(t))
    ensures Numbered(t, row, n)
  {}

  lemma {:induction false} OneConversation(rows: seq<Row>, conversation: string)
    requires forall r <- rows :: r.conversation == conversation
    ensures InConversation(rows, conversation) == rows
  {
    if rows != [] {
      assert rows == rows[..|rows| - 1] + [rows[|rows| - 1]];
      assert rows[|rows| - 1] in rows;
      OneConversation(rows[..|rows| - 1], conversation);
    }
  }
}
