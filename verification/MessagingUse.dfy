/**
 * The client in use: a conversation is synced every few seconds, and in between messages
 * arrive and are sent. Every such course is one of the histories `SyncHistory` speaks of.
 */
module MessagingUse {
  import opened Basics
  import opened RatchetCodec
  import opened LocalStore
  import opened MessageServer
  import opened MessagingProtocol
  import opened MessagingSafety
  import opened MessagingService
  import opened SyncPaging
  import opened MessageOpening
  import opened SyncHistory
  import opened HiddenBacklog

  // ---- What steps a session

  /** Committing an outgoing message is a send of its session, and leaves every other session alone. */
  lemma CommitSends(a: Account, w: World, m: Message, peer: string, seed: nat, conversation: string, peerKey: string)
    requires Inv(a, w) && Enabled(a, w, CommitOutgoing(m, peer, seed)) && ValidIdentity(peerKey)
    ensures OnlySent(a.suite, StateInUse(a.suite, w.db.kv, conversation, peerKey),
                     StateInUse(a.suite, Next(a, w, CommitOutgoing(m, peer, seed)).db.kv, conversation, peerKey))
  {
    hide Inv;
    var w' := Next(a, w, CommitOutgoing(m, peer, seed));
    StepKeepsInv(a, w, CommitOutgoing(m, peer, seed));
    var from := StateInUse(a.suite, w.db.kv, conversation, peerKey);
    if SessionId(m.conversation, peer) == SessionId(conversation, peerKey) {
      OneSession(a, w, m.conversation, peer, conversation, peerKey);
      StateAfterCommit(a, w, m, peer, seed);
      SendOnce(a.suite, from, seed);
    } else {
      StateIsReplay(a, w, conversation, peerKey);
      StateIsReplay(a, w', conversation, peerKey);
      SendNever(a.suite, from);
    }
  }

  lemma OneSession(a: Account, w: World, c: string, p: string, conversation: string, peerKey: string)
    requires Inv(a, w) && ValidIdentity(peerKey) && SessionId(c, p) == SessionId(conversation, peerKey)
    requires StateInUse(a.suite, w.db.kv, c, p).Some?
    ensures StateInUse(a.suite, w.db.kv, conversation, peerKey) == StateInUse(a.suite, w.db.kv, c, p)
  {
    hide Inv;
    if LoadSession(w.db.kv, SessionId(c, p)).None? { SessionIdInjective(c, p, conversation, peerKey); }
  }

  lemma StateAfterCommit(a: Account, w: World, m: Message, peer: string, seed: nat)
    requires Enabled(a, w, CommitOutgoing(m, peer, seed))
    ensures var sid, w' := SessionId(m.conversation, peer), Next(a, w, CommitOutgoing(m, peer, seed));
      var from := StateInUse(a.suite, w.db.kv, m.conversation, peer);
      && from.Some? && a.suite.send(from.value, seed).Some?
      && (OutboxKey(m.id) != SessionKey(sid) ==> LoadSession(w'.db.kv, sid) == Some(a.suite.send(from.value, seed).value.0))
  {}

  lemma SendOnce(suite: Suite, from: Option<SessionState>, seed: nat)
    requires from.Some? && suite.send(from.value, seed).Some?
    ensures OnlySent(suite, from, Some(suite.send(from.value, seed).value.0))
  {
    assert [seed][1..] == [];
    assert SentFrom(suite, Some(suite.send(from.value, seed).value.0), [], Some(suite.send(from.value, seed).value.0));
    assert SentFrom(suite, from, [seed], Some(suite.send(from.value, seed).value.0));
  }

  lemma SendNever(suite: Suite, from: Option<SessionState>)
    ensures OnlySent(suite, from, from)
  {
    assert SentFrom(suite, from, [], from);
  }

  lemma {:induction false} SentConcat(suite: Suite, s: Option<SessionState>, seeds: seq<nat>, t: Option<SessionState>,
                                      more: seq<nat>, u: Option<SessionState>)
    requires SentFrom(suite, s, seeds, t) && SentFrom(suite, t, more, u)
    ensures SentFrom(suite, s, seeds + more, u)
    decreases |seeds|
  {
    if seeds == [] {
      assert seeds + more == more;
    } else {
      assert (seeds + more)[1..] == seeds[1..] + more;
      SentConcat(suite, Some(suite.send(s.value, seeds[0]).value.0), seeds[1..], t, more, u);
    }
  }

  lemma OnlySentTwice(suite: Suite, s: Option<SessionState>, t: Option<SessionState>, u: Option<SessionState>)
    requires OnlySent(suite, s, t) && OnlySent(suite, t, u)
    ensures OnlySent(suite, s, u)
  {
    hide SentFrom;
    var seeds :| SentFrom(suite, s, seeds, t);
    var more :| SentFrom(suite, t, more, u);
    SentConcat(suite, s, seeds, t, more, u);
  }

  /** No message of the conversation is received; those of others come from contacts with a valid identity. */
  ghost predicate Elsewhere(step: Step, conversation: string) {
    step.CommitReceived? ==> step.row.conversation != conversation && ValidIdentity(step.peerKey)
  }

  lemma StepOnlySends(a: Account, w: World, step: Step, conversation: string, peerKey: string)
    requires Inv(a, w) && Enabled(a, w, step) && Elsewhere(step, conversation) && ValidIdentity(peerKey)
    ensures OnlySent(a.suite, StateInUse(a.suite, w.db.kv, conversation, peerKey),
                     StateInUse(a.suite, Next(a, w, step).db.kv, conversation, peerKey))
  {
    hide Inv, Enabled, StateInUse, OnlySent;
    StepKeepsInv(a, w, step);
    if step.CommitOutgoing? {
      CommitSends(a, w, step.message, step.peerKey, step.seed, conversation, peerKey);
    } else {
      if step.CommitReceived? { OtherSession(a, w, step, conversation, peerKey); }
      SameSessionSameState(a, w, Next(a, w, step), conversation, peerKey);
      SendNever(a.suite, StateInUse(a.suite, w.db.kv, conversation, peerKey));
    }
  }

  lemma OtherSession(a: Account, w: World, step: Step, conversation: string, peerKey: string)
    requires Enabled(a, w, step) && step.CommitReceived? && Elsewhere(step, conversation) && ValidIdentity(peerKey)
    ensures SameSession(w, Next(a, w, step), SessionId(conversation, peerKey))
  {
    if SessionId(step.row.conversation, step.peerKey) == SessionId(conversation, peerKey) {
      SessionIdInjective(step.row.conversation, step.peerKey, conversation, peerKey);
    }
  }

  /** A run that receives nothing of the conversation does nothing to its session but send in it. */
  lemma {:induction false} RunOnlySends(a: Account, w: World, steps: seq<Step>, w': World, conversation: string, peerKey: string)
    requires Inv(a, w) && Reaches(a, w, steps, w') && ValidIdentity(peerKey)
    requires forall i :: 0 <= i < |steps| ==> Elsewhere(steps[i], conversation)
    ensures OnlySent(a.suite, StateInUse(a.suite, w.db.kv, conversation, peerKey),
                     StateInUse(a.suite, w'.db.kv, conversation, peerKey))
    ensures OthersReceived(w, w', conversation)
    decreases |steps|
  {
    hide Inv, Enabled, Next, StateInUse, OnlySent, Elsewhere;
    if steps == [] {
      SendNever(a.suite, StateInUse(a.suite, w.db.kv, conversation, peerKey));
    } else {
      var w1 := Next(a, w, steps[0]);
      StepKeepsInv(a, w, steps[0]);
      StepOnlySends(a, w, steps[0], conversation, peerKey);
      StepReceivesOthers(a, w, steps[0], conversation);
      RunOnlySends(a, w1, steps[1..], w', conversation, peerKey);
      OnlySentTwice(a.suite, StateInUse(a.suite, w.db.kv, conversation, peerKey),
                    StateInUse(a.suite, w1.db.kv, conversation, peerKey), StateInUse(a.suite, w'.db.kv, conversation, peerKey));
      RunIsLater(a, w1, steps[1..], w');
      OthersReceivedTwice(w, w1, w', conversation);
    }
  }

  /** The messages received since are of other conversations. */
  ghost predicate OthersReceived(w: World, w': World, conversation: string) {
    forall id <- w'.incoming :: id in w.incoming || w'.incoming[id].row.conversation != conversation
  }

  lemma StepReceivesOthers(a: Account, w: World, step: Step, conversation: string)
    requires Enabled(a, w, step) && Elsewhere(step, conversation)
    ensures OthersReceived(w, Next(a, w, step), conversation)
  {}

  lemma OthersReceivedTwice(u: World, v: World, w: World, conversation: string)
    requires OthersReceived(u, v, conversation) && OthersReceived(v, w, conversation) && Later(v, w)
    ensures OthersReceived(u, w, conversation)
  {}

  // ---- From one sync to the next

  /** A row of the other side that is stored was there when it was stored, and is a received message. */
  lemma KnownPeerRow(a: Account, w: World, now: World, r: Row)
    requires Inv(a, w) && Inv(a, now) && w.rows <= now.rows && w.outgoing.Keys <= now.outgoing.Keys
    requires r in now.rows && r.sender != a.userId && r.id in w.db.messages
    ensures r in w.rows && r.id in w.incoming && w.incoming[r.id].row == r
  {
    RowIsOk(a, now, r);
    hide RowOk;
    assert r.id !in now.outgoing.Keys && r.id !in w.outgoing.Keys;
    var n := w.incoming[r.id];
    assert IncomingRow(a, w.db.messages, w.rows, r.id, n);
    hide IncomingRow;
    OneRowPerId(now.rows, n.row, r);
  }

  lemma StaysStored(a: Account, w: World, w': World, id: string)
    requires Inv(a, w) && Inv(a, w') && w.outgoing.Keys <= w'.outgoing.Keys && w.incoming.Keys <= w'.incoming.Keys
    requires id in w.db.messages
    ensures id in w'.db.messages
  {
    assert id in w.outgoing.Keys || id in w.incoming.Keys;
    CommittedIdsAreStored(a, w', id);
  }

  lemma ViewGrows(start: seq<Row>, later: seq<Row>, conversation: string)
    requires start <= later
    ensures InConversation(start, conversation) <= InConversation(later, conversation)
  {
    assert later == start + later[|start|..];
    InConversationAppend(start, later[|start|..], conversation);
  }

  /** The worlds around two syncs of a conversation: before and after the first, before and after the second. */
  datatype Course = Course(w0: World, w1: World, w2: World, w3: World)

  /** Nothing of the conversation is received between the two, and nothing is taken back. */
  ghost predicate Ongoing(a: Account, c: Course, conversation: string) {
    && Inv(a, c.w0) && Inv(a, c.w1) && Inv(a, c.w2) && Inv(a, c.w3)
    && c.w0.outgoing.Keys <= c.w1.outgoing.Keys <= c.w2.outgoing.Keys <= c.w3.outgoing.Keys
    && c.w1.incoming.Keys <= c.w2.incoming.Keys && OthersReceived(c.w1, c.w2, conversation)
  }

  /** So the second sync is one that follows the first. */
  lemma SyncFollows(a: Account, c: Course, start: seq<Row>, start': seq<Row>, conversation: string, t: Attempt, u: Attempt)
    requires Ongoing(a, c, conversation)
    requires c.w0.rows <= start <= c.w1.rows <= c.w2.rows <= start' <= c.w3.rows
    requires t.view == InConversation(start, conversation) && u.view == InConversation(start', conversation)
    requires Synced(t.view, t.before, t.after, a.userId, t.done) && UniqueIds(u.view)
    requires t.before == c.w0.db.messages.Keys && t.after == c.w1.db.messages.Keys && u.before == c.w2.db.messages.Keys
    ensures Followed(a.userId, t, u)
  {
    hide Inv, InConversation, FetchStart, UniqueIds;
    ViewGrows(start, start', conversation);
    forall r | r in t.view && r.id in t.after ensures r.id in u.before { StaysStored(a, c.w1, c.w2, r.id); }
    forall i | 0 <= i < |u.view| && u.view[i].sender != a.userId && u.view[i].id in u.before
      ensures i < |t.view| && u.view[i].id in t.after
    {
      var r := u.view[i];
      StillStored(start', c.w3.rows, conversation);
      assert r in u.view;
      KnownPeerRow(a, c.w2, c.w3, r);
      CommittedIdsAreStored(a, c.w1, r.id);
      SeenBefore(a, c, start, conversation, t, r);
      SameIndex(t.view, u.view, i);
    }
  }

  /** A stored row of the other side is one the sync before could see. */
  lemma SeenBefore(a: Account, c: Course, start: seq<Row>, conversation: string, t: Attempt, r: Row)
    requires Ongoing(a, c, conversation) && c.w0.rows <= start <= c.w1.rows <= c.w3.rows
    requires t.view == InConversation(start, conversation) && Synced(t.view, t.before, t.after, a.userId, t.done)
    requires t.before == c.w0.db.messages.Keys && r.id in t.after
    requires r in c.w3.rows && r.sender != a.userId && r.conversation == conversation
    ensures r in t.view
  {
    hide Inv, FetchStart;
    if r.id in t.before {
      KnownPeerRow(a, c.w0, c.w3, r);
      assert r in start;
    } else {
      var x :| x in t.view[FetchStart(t.view, t.before, |t.view|, MAX_PAGES)..t.done] && x.id == r.id;
      assert x in t.view;
      StillStored(start, c.w3.rows, conversation);
      TableHolds(a, c.w3);
      OneRowPerId(c.w3.rows, x, r);
    }
  }

  lemma SameIndex(view: seq<Row>, longer: seq<Row>, i: nat)
    requires view <= longer && UniqueIds(longer) && i < |longer| && longer[i] in view
    ensures i < |view|
  {
    var k :| 0 <= k < |view| && view[k] == longer[i];
    assert longer[k].id == longer[i].id;
  }

  // ---- The client in use

  /** What may happen between two syncs of a conversation: messages arrive, other conversations are synced, own messages
      are retried and, if `writing`, sent, in this conversation or another. */
  method Interlude(service: Service, writing: bool, conversation: string, ghost peer: Contact) returns (ghost steps: seq<Step>)
    requires service.Valid() && ValidIdentity(peer.peerKey)
    modifies service.server`rows, service.db, service`wire, service`sessions, service`outgoing, service`incoming
    ensures service.Valid() && Reaches(service.account, old(service.View()), steps, service.View())
    ensures OnlySent(service.account.suite, old(service.Ratchet(conversation, peer)), service.Ratchet(conversation, peer))
    ensures !writing ==> service.Ratchet(conversation, peer) == old(service.Ratchet(conversation, peer))
    ensures OthersReceived(old(service.View()), service.View(), conversation)
  {
    hide Inv, Reaches, StateInUse, OnlySent, Elsewhere, OthersReceived, SameSession;
    ghost var before := service.View();
    steps := [];
    RunNone(service.account, service.View());
    SameSessionAlways(before, SessionId(conversation, peer.peerKey));
    var turns: nat :| true;
    for i := 0 to turns
      invariant service.Valid() && Reaches(service.account, before, steps, service.View())
      invariant forall i :: 0 <= i < |steps| ==> Elsewhere(steps[i], conversation)
      invariant !writing ==> SameSession(before, service.View(), SessionId(conversation, peer.peerKey))
    {
      ghost var w := service.View();
      ghost var work := Turn(service, writing, conversation, peer);
      Chain(service.account, before, steps, w, work, service.View());
      if !writing { SameSessionTwice(before, w, service.View(), SessionId(conversation, peer.peerKey)); }
      steps := steps + work;
    }
    RunOnlySends(service.account, before, steps, service.View(), conversation, peer.peerKey);
    if !writing { SameSessionSameState(service.account, before, service.View(), conversation, peer.peerKey); }
  }

  lemma SameSessionAlways(w: World, sid: string)
    ensures SameSession(w, w, sid)
  {}

  lemma SameSessionTwice(u: World, v: World, w: World, sid: string)
    requires SameSession(u, v, sid) && SameSession(v, w, sid)
    ensures SameSession(u, w, sid)
  {}

  /** One of these things. */
  method Turn(service: Service, writing: bool, conversation: string, ghost peer: Contact) returns (ghost steps: seq<Step>)
    requires service.Valid() && ValidIdentity(peer.peerKey)
    modifies service.server`rows, service.db, service`wire, service`sessions, service`outgoing, service`incoming
    ensures service.Valid() && Reaches(service.account, old(service.View()), steps, service.View())
    ensures forall i :: 0 <= i < |steps| ==> Elsewhere(steps[i], conversation)
    ensures !writing ==> SameSession(old(service.View()), service.View(), SessionId(conversation, peer.peerKey))
  {
    hide Inv, Reaches, StateInUse, OnlySent;
    ghost var w := service.View();
    var what: nat :| true;
    if what == 0 {
      steps := service.Meanwhile();
    } else if what == 1 {
      var any: string :| true;
      var retried;
      retried, steps := service.RetryPending(any);
    } else if what == 2 || !writing {
      steps := SyncOther(service, conversation, peer);
      return;
    } else {
      steps := Write(service);
    }
    NothingReceivedIn(service.account, w, steps, service.View());
  }

  /** Another conversation is synced. */
  method SyncOther(service: Service, conversation: string, ghost peer: Contact) returns (ghost steps: seq<Step>)
    requires service.Valid() && ValidIdentity(peer.peerKey)
    modifies service.server`rows, service.db, service`sessions, service`incoming
    ensures service.Valid() && Reaches(service.account, old(service.View()), steps, service.View())
    ensures forall i :: 0 <= i < |steps| ==> Elsewhere(steps[i], conversation)
    ensures SameSession(old(service.View()), service.View(), SessionId(conversation, peer.peerKey))
  {
    hide Inv, Reaches, StateInUse, Attempted, BlockedAt, Complete, NewestKnown;
    var other: string :| true;
    var contact: Contact :| true;
    ghost var w := service.View();
    if other == conversation || !ValidIdentity(contact.peerKey) {
      steps := [];
      RunNone(service.account, service.View());
      return;
    }
    var result;
    ghost var start, done;
    result, start, done, steps := service.SyncConversation(other, contact);
    OthersLeaveSession(service.account, w, steps, service.View(), conversation, peer.peerKey);
  }

  /** A run without sends that receives nothing of the conversation leaves its session alone. */
  lemma {:induction false} OthersLeaveSession(a: Account, w: World, steps: seq<Step>, w': World, conversation: string,
                                              peerKey: string)
    requires Inv(a, w) && Reaches(a, w, steps, w') && ValidIdentity(peerKey) && w'.outgoing.Keys == w.outgoing.Keys
    requires forall i :: 0 <= i < |steps| ==> Elsewhere(steps[i], conversation)
    ensures SameSession(w, w', SessionId(conversation, peerKey))
    decreases |steps|
  {
    hide Inv, Enabled, Next, Elsewhere;
    if steps != [] {
      var w1 := Next(a, w, steps[0]);
      StepKeepsInv(a, w, steps[0]);
      RunIsLater(a, w, [steps[0]], w1) by { RunOne(a, w, steps[0]); }
      RunIsLater(a, w1, steps[1..], w');
      IncomingGrows(w, w1);
      IncomingGrows(w1, w');
      OthersLeaveSession(a, w1, steps[1..], w', conversation, peerKey);
      StepLeavesSession(a, w, steps[0], conversation, peerKey);
    }
  }

  lemma StepLeavesSession(a: Account, w: World, step: Step, conversation: string, peerKey: string)
    requires Inv(a, w) && Enabled(a, w, step) && Elsewhere(step, conversation) && ValidIdentity(peerKey)
    requires Next(a, w, step).outgoing.Keys == w.outgoing.Keys
    ensures SameSession(w, Next(a, w, step), SessionId(conversation, peerKey))
  {
    hide Inv;
    if step.CommitReceived? { OtherSession(a, w, step, conversation, peerKey); }
    else if step.CommitOutgoing? { CommittedIsNew(a, w, step); }
  }

  lemma CommittedIsNew(a: Account, w: World, step: Step)
    requires Inv(a, w) && Enabled(a, w, step) && step.CommitOutgoing?
    ensures Next(a, w, step).outgoing.Keys != w.outgoing.Keys
  {
    hide Inv, Encrypt, StateFor, LoadSession;
    CommittedIdsAreStored(a, w, step.message.id);
    assert step.message.id in Next(a, w, step).outgoing.Keys;
  }

  /** Any message to any conversation, under a fresh id. */
  method Write(service: Service) returns (ghost steps: seq<Step>)
    requires service.Valid()
    modifies service.server`rows, service.db, service`wire, service`sessions, service`outgoing
    ensures service.Valid() && Reaches(service.account, old(service.View()), steps, service.View())
  {
    hide Inv, Reaches;
    var id: string :| true;
    var conversation: Conversation :| true;
    var payload: Payload :| true;
    if ValidUuid(id) && id !in service.db.messages && !HasId(service.server.rows, id) {
      var sent;
      var now: int := *;
      sent, steps := service.Send(conversation, payload, id, now);
    } else {
      steps := [];
      RunNone(service.account, service.View());
    }
  }

  /**
   * A conversation synced any number of times, each sync succeeding, failing or cut off, with any other operation in
   * between: a history. Without writing, nothing but the syncs steps the ratchet.
   */
  method KeepSyncing(service: Service, conversation: string, peer: Contact, times: nat, writing: bool)
    returns (ghost ts: seq<Attempt>, ghost steps: seq<Step>)
    requires service.Valid() && ValidIdentity(peer.peerKey)
    modifies service.server`rows, service.db, service`wire, service`sessions, service`outgoing, service`incoming
    ensures service.Valid() && Reaches(service.account, old(service.View()), steps, service.View())
    ensures |ts| == times && History(service.account.suite, service.account.userId, ts)
    ensures OnlySending(service.account.suite, ts) && (!writing ==> Undisturbed(ts))
    ensures times > 0 ==> ts[0].before == old(service.db.messages.Keys) && ts[0].from == old(service.Ratchet(conversation, peer))
    ensures times > 0 ==> ts[times - 1].after == service.db.messages.Keys
    ensures forall k :: 0 <= k < times ==> ts[k].view <= InConversation(service.server.rows, conversation)
  {
    hide Inv, Reaches, StateInUse, OnlySent, Attempted, Followed, InConversation, Later, OthersReceived;
    ghost var before := service.View();
    ts, steps := [], [];
    RunNone(service.account, service.View());
    ghost var w0, start := service.View(), service.server.rows;
    for i := 0 to times
      invariant service.Valid() && Reaches(service.account, before, steps, service.View())
      invariant |ts| == i && History(service.account.suite, service.account.userId, ts)
      invariant OnlySending(service.account.suite, ts) && (!writing ==> Undisturbed(ts))
      invariant i == 0 ==> service.View() == before
      invariant i > 0 ==> Last(service.account, conversation, peer, w0, start, service.View(), ts[i - 1])
      invariant i > 0 ==> ts[0].before == before.db.messages.Keys
      invariant i > 0 ==> ts[0].from == StateInUse(service.account.suite, before.db.kv, conversation, peer.peerKey)
      invariant forall k :: 0 <= k < i ==> ts[k].view <= InConversation(service.server.rows, conversation)
    {
      ghost var w1 := service.View();
      SendNever(service.account.suite, service.Ratchet(conversation, peer));
      if i > 0 {
        ghost var between := Interlude(service, writing, conversation, peer);
        Chain(service.account, before, steps, w1, between, service.View());
        RunIsLater(service.account, w1, between, service.View());
        IncomingGrows(w1, service.View());
        steps := steps + between;
      }
      ghost var w2 := service.View();
      ghost var from := service.Ratchet(conversation, peer);
      var result;
      ghost var at, done, work;
      result, at, done, work := service.SyncConversation(conversation, peer);
      ghost var u := Attempt(InConversation(at, conversation), w2.db.messages.Keys, service.db.messages.Keys, done,
                             from, service.Ratchet(conversation, peer));
      Chain(service.account, before, steps, w2, work, service.View());
      steps := steps + work;
      ViewsSoFar(ts, conversation, w1.rows, at, service.server.rows);
      if i > 0 { Continues(service.account, conversation, peer, w0, start, w1, w2, at, service.View(), ts[i - 1], u); }
      w0, start := w2, at;
      ts := ts + [u];
    }
  }

  /** The last sync, and the worlds before and after it. */
  ghost predicate Last(a: Account, conversation: string, peer: Contact, w0: World, start: seq<Row>, w1: World, t: Attempt) {
    && Inv(a, w0) && Inv(a, w1) && w0.rows <= start <= w1.rows && w0.outgoing.Keys <= w1.outgoing.Keys
    && t.view == InConversation(start, conversation) && Attempted(a.suite, a.userId, t)
    && t.before == w0.db.messages.Keys && t.after == w1.db.messages.Keys
    && t.to == StateInUse(a.suite, w1.db.kv, conversation, peer.peerKey)
  }

  lemma Continues(a: Account, conversation: string, peer: Contact, w0: World, start: seq<Row>, w1: World, w2: World,
                  start': seq<Row>, w3: World, t: Attempt, u: Attempt)
    requires Last(a, conversation, peer, w0, start, w1, t) && Last(a, conversation, peer, w2, start', w3, u)
    requires w1.rows <= w2.rows && w1.outgoing.Keys <= w2.outgoing.Keys && w1.incoming.Keys <= w2.incoming.Keys
    requires OthersReceived(w1, w2, conversation)
    ensures Followed(a.userId, t, u)
  {
    hide Inv, StateInUse, InConversation, Attempted, Followed;
    AttemptedIsSynced(a.suite, a.userId, t);
    AttemptedIsSynced(a.suite, a.userId, u);
    SyncFollows(a, Course(w0, w1, w2, w3), start, start', conversation, t, u);
  }

  lemma ViewsSoFar(ts: seq<Attempt>, conversation: string, rows: seq<Row>, start: seq<Row>, rows': seq<Row>)
    requires forall k :: 0 <= k < |ts| ==> ts[k].view <= InConversation(rows, conversation)
    requires rows <= start <= rows'
    ensures forall k :: 0 <= k < |ts| ==> ts[k].view <= InConversation(rows', conversation)
    ensures InConversation(start, conversation) <= InConversation(rows', conversation)
  {
    ViewGrows(rows, rows', conversation);
    ViewGrows(start, rows', conversation);
  }
}
