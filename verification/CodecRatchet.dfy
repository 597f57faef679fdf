/**
 * The codec over the Double Ratchet: the suite the messaging protocol runs with, and what the
 * ratchet's theorems say of envelopes.
 */
module CodecRatchet {
  import opened Basics
  import opened Primitives
  import opened RatchetCodec
  import opened MessagingProtocol
  import opened MessagingSafety
  import DoubleRatchet
  import RatchetConversation
  import RatchetDelivery
  import Runs

  /** What the suite adds to the ratchet: the cipher, session start, and the key pair a call's randomness gives. */
  datatype Cipher = Cipher(
    zeroAgreement: string -> bool,
    start: (string, string) -> SessionState,
    draw: nat -> DoubleRatchet.Private,
    utf8: string -> Bytes,
    headerBytes: Header -> Bytes,
    seal: (MessageKey, Bytes, Payload) -> Ciphertext,
    open: (MessageKey, Bytes, Ciphertext) -> Option<Payload>)

  function SendStep(k: DoubleRatchet.Kdf, c: Cipher, s: SessionState, seed: nat): Option<(SessionState, Header, MessageKey)> {
    match DoubleRatchet.Encrypted(k, s, c.draw(seed))
    case Ok((next, header, bundle)) => Some((next, header, bundle))
    case _ => None
  }

  function ReceiveStep(k: DoubleRatchet.Kdf, c: Cipher, s: SessionState, header: Header, seed: nat)
    : Option<(SessionState, MessageKey)>
  {
    match DoubleRatchet.Decrypted(k, s, header, c.draw(seed))
    case Ok((next, bundle)) => Some((next, bundle))
    case _ => None
  }

  function RatchetSuite(k: DoubleRatchet.Kdf, c: Cipher): Suite {
    Suite(c.zeroAgreement, c.start,
          (s: SessionState, seed: nat) => SendStep(k, c, s, seed),
          (s: SessionState, header: Header, seed: nat) => ReceiveStep(k, c, s, header, seed),
          (conversation: string, messageId: string, sender: string, header: Header) =>
            MetadataBytes(c.utf8, c.headerBytes, conversation, messageId, sender, header),
          c.seal, c.open)
  }

  /** The JSON metadata and the header bind an envelope to its conversation, message, sender and header. */
  lemma SuiteBindsMetadata(k: DoubleRatchet.Kdf, c: Cipher)
    requires Encodings(c.utf8, c.headerBytes)
    ensures BindsMetadata(RatchetSuite(k, c))
    ensures var aad := RatchetSuite(k, c).aad;
      forall x, m, s, h, x', m', s', h' :: aad(x, m, s, h) == aad(x', m', s', h') ==> c.headerBytes(h) == c.headerBytes(h')
  {
    hide MetadataBytes;
    var suite := RatchetSuite(k, c);
    forall x, m, s, h, x', m', s', h' | suite.aad(x, m, s, h) == suite.aad(x', m', s', h')
      ensures x == x' && m == m' && s == s' && c.headerBytes(h) == c.headerBytes(h')
    {
      MetadataBytesInjective(c.utf8, c.headerBytes, x, m, s, h, x', m', s', h');
    }
  }

  // ---- No header twice

  function Drawn(k: DoubleRatchet.Kdf, c: Cipher, event: Event): DoubleRatchet.Public { k.publicOf(c.draw(event.seed)) }

  /** The random key pairs of a session's steps are all different, and none is the one it started with. */
  ghost predicate FreshDraws(k: DoubleRatchet.Kdf, c: Cipher, start: SessionState, events: seq<Event>) {
    && (forall i, j :: 0 <= i < j < |events| ==> Drawn(k, c, events[i]) != Drawn(k, c, events[j]))
    && (forall i :: 0 <= i < |events| ==> Drawn(k, c, events[i]) != start.ourPublic)
  }

  /** The public key is the one the session started with or was drawn before step n. */
  ghost predicate InUseBefore(k: DoubleRatchet.Kdf, c: Cipher, s: Session, n: nat, p: DoubleRatchet.Public)
    requires n <= |s.events|
  {
    p == c.start(s.conversation, s.peerKey).ourPublic || exists m :: 0 <= m < n && p == Drawn(k, c, s.events[m])
  }

  /** The headers sent before step n used earlier keys; under the current key, only numbers below the counter. */
  ghost predicate Counted(k: DoubleRatchet.Kdf, c: Cipher, a: Account, s: Session, n: nat)
    requires n <= |s.events|
  {
    var state := Replay(a.suite, SessionStart(a.suite, s), s.events[..n]);
    && InUseBefore(k, c, s, n, state.ourPublic)
    && forall m :: 0 <= m < n && s.events[m].Sent? && HeaderAt(a, s, m).Some? ==>
         var header := HeaderAt(a, s, m).value;
         && InUseBefore(k, c, s, n, header.dhPublicKey)
         && (header.dhPublicKey == state.ourPublic ==> header.messageNumber < state.sendCounter)
  }

  lemma {:induction false} StagingKeepsSending(k: DoubleRatchet.Kdf, s: SessionState, n: nat, limit: nat)
    requires DoubleRatchet.StageTo(k, s, n, limit).Ok?
    ensures var t := DoubleRatchet.StageTo(k, s, n, limit).value;
      t.ourPublic == s.ourPublic && t.sendCounter == s.sendCounter
    decreases n - s.recvCounter
  {
    if s.recvCounter < n {
      StagingKeepsSending(k, DoubleRatchet.StageSkipped(k, s).value, n, limit - 1);
    }
  }

  /** A receiving step leaves the sending key and counter alone or takes the key pair it drew. */
  lemma ReceivingKeepsOrDraws(k: DoubleRatchet.Kdf, s: SessionState, header: Header, ephemeral: DoubleRatchet.Private)
    requires DoubleRatchet.Decrypted(k, s, header, ephemeral).Ok?
    ensures var t := DoubleRatchet.Decrypted(k, s, header, ephemeral).value.0;
      (t.ourPublic == s.ourPublic && t.sendCounter == s.sendCounter) || t.ourPublic == k.publicOf(ephemeral)
  {
    hide DoubleRatchet.StageTo;
    if (header.dhPublicKey, header.messageNumber) !in s.skipped {
      if header.dhPublicKey == s.remote {
        StagingKeepsSending(k, s, header.messageNumber, DoubleRatchet.MAX_SKIP);
      } else {
        var t := DoubleRatchet.DhRatchet(k, s, header, ephemeral).value;
        StagingKeepsSending(k, t, header.messageNumber, DoubleRatchet.MAX_SKIP);
      }
    }
  }

  /** The state after one more event. */
  lemma ReplayStep(a: Account, s: Session, n: nat)
    requires n < |s.events|
    ensures Replay(a.suite, SessionStart(a.suite, s), s.events[..n + 1])
      == Advance(a.suite, Replay(a.suite, SessionStart(a.suite, s), s.events[..n]), s.events[n])
  {
    assert s.events[..n + 1] == s.events[..n] + [s.events[n]];
    ReplayAppend(a.suite, SessionStart(a.suite, s), s.events[..n], s.events[n]);
  }

  /** What one event does to the sending key and counter, and the header it sends. */
  lemma EventStep(k: DoubleRatchet.Kdf, c: Cipher, a: Account, s: Session, n: nat)
    requires a.suite == RatchetSuite(k, c) && n < |s.events|
    ensures var before := Replay(a.suite, SessionStart(a.suite, s), s.events[..n]);
      var after := Replay(a.suite, SessionStart(a.suite, s), s.events[..n + 1]);
      && (after.ourPublic == before.ourPublic || after.ourPublic == Drawn(k, c, s.events[n]))
      && (after.ourPublic == before.ourPublic != Drawn(k, c, s.events[n]) ==> after.sendCounter >= before.sendCounter)
      && (s.events[n].Sent? && HeaderAt(a, s, n).Some? ==>
            var header := HeaderAt(a, s, n).value;
            && header.dhPublicKey == after.ourPublic && header.messageNumber < after.sendCounter
            && (after.ourPublic == before.ourPublic != Drawn(k, c, s.events[n]) ==> header.messageNumber == before.sendCounter))
  {
    hide DoubleRatchet.Decrypted, Replay;
    ReplayStep(a, s, n);
    var before := Replay(a.suite, SessionStart(a.suite, s), s.events[..n]);
    match s.events[n] {
      case Sent(_, _, seed) =>
      case Received(_, header, seed) =>
        if DoubleRatchet.Decrypted(k, before, header, c.draw(seed)).Ok? {
          ReceivingKeepsOrDraws(k, before, header, c.draw(seed));
        }
    }
  }

  lemma NewKeyIsNew(k: DoubleRatchet.Kdf, c: Cipher, s: Session, n: nat, p: DoubleRatchet.Public)
    requires FreshDraws(k, c, c.start(s.conversation, s.peerKey), s.events) && n < |s.events|
    requires InUseBefore(k, c, s, n, p)
    ensures p != Drawn(k, c, s.events[n])
  {}

  lemma {:induction false} HeadersCounted(k: DoubleRatchet.Kdf, c: Cipher, a: Account, s: Session, n: nat)
    requires a.suite == RatchetSuite(k, c) && n <= |s.events|
    requires FreshDraws(k, c, c.start(s.conversation, s.peerKey), s.events)
    ensures Counted(k, c, a, s, n)
  {
    hide HeaderAt, FreshDraws, RatchetSuite;
    if n == 0 {
      assert s.events[..0] == [];
      StartOfSuite(k, c, a, s);
    } else {
      HeadersCounted(k, c, a, s, n - 1);
      EventStep(k, c, a, s, n - 1);
      var before := Replay(a.suite, SessionStart(a.suite, s), s.events[..n - 1]);
      NewKeyIsNew(k, c, s, n - 1, before.ourPublic);
      forall m | 0 <= m < n - 1 && s.events[m].Sent? && HeaderAt(a, s, m).Some?
        ensures HeaderAt(a, s, m).value.dhPublicKey != Drawn(k, c, s.events[n - 1])
      {
        NewKeyIsNew(k, c, s, n - 1, HeaderAt(a, s, m).value.dhPublicKey);
      }
    }
  }

  lemma StartOfSuite(k: DoubleRatchet.Kdf, c: Cipher, a: Account, s: Session)
    requires a.suite == RatchetSuite(k, c)
    ensures SessionStart(a.suite, s) == c.start(s.conversation, s.peerKey)
  {}

  /** The Double Ratchet never sends a header twice in a session whose key pairs are all different. */
  lemma RatchetHeadersAreFresh(k: DoubleRatchet.Kdf, c: Cipher, a: Account, s: Session)
    requires a.suite == RatchetSuite(k, c)
    requires FreshDraws(k, c, c.start(s.conversation, s.peerKey), s.events)
    ensures FreshHeaders(a, s)
  {
    hide HeaderAt, FreshDraws, RatchetSuite;
    forall i, j | 0 <= i < j < |s.events| && s.events[i].Sent? && s.events[j].Sent? && HeaderAt(a, s, i).Some?
      ensures HeaderAt(a, s, i) != HeaderAt(a, s, j)
    {
      HeadersCounted(k, c, a, s, j);
      EventStep(k, c, a, s, j);
      NewKeyIsNew(k, c, s, j, HeaderAt(a, s, i).value.dhPublicKey);
      NewKeyIsNew(k, c, s, j, Replay(a.suite, SessionStart(a.suite, s), s.events[..j]).ourPublic);
    }
  }

  /** So no two different transmissions of a session, in any run with any crashes, carry the same header. */
  lemma TransmittedHeadersAreUnique(k: DoubleRatchet.Kdf, c: Cipher, a: Account, w: World, t1: Transmission, t2: Transmission)
    requires a.suite == RatchetSuite(k, c)
    requires Reachable(a, w) && t1 in w.wire && t2 in w.wire && t1 != t2
    requires t1.id in w.outgoing && t2.id in w.outgoing
    requires w.outgoing[t1.id].sessionId == w.outgoing[t2.id].sessionId
    requires w.outgoing[t1.id].sessionId in w.sessions
    requires var s := w.sessions[w.outgoing[t1.id].sessionId];
      FreshDraws(k, c, c.start(s.conversation, s.peerKey), s.events)
    ensures t1.content.Envelope? && t2.content.Envelope? && t1.content.header != t2.content.header
  {
    hide RatchetSuite, FreshDraws, FreshHeaders;
    RatchetHeadersAreFresh(k, c, a, w.sessions[w.outgoing[t1.id].sessionId]);
    HeadersOnTheWireAreUnique(a, w, t1, t2);
  }

  // ---- Envelopes between the two parties

  /** The envelope of a message of the conversation. */
  function Sealed(c: Cipher, sent: RatchetConversation.Sent, conversation: string, messageId: string, sender: string,
                  payload: Payload): Envelope
  {
    var aad := MetadataBytes(c.utf8, c.headerBytes, conversation, messageId, sender, sent.header);
    Envelope(1, sent.header, c.seal(sent.bundle, aad, payload))
  }

  /**
   * In every run of two parties over a network that delays, reorders, drops and repeats: an envelope not yet
   * received opens to its payload, for exactly the conversation, message and sender it was sealed for, if what
   * it makes the receiver set aside fits the limits; and one already received does not open at all.
   */
  lemma EnvelopeOpensOnceInAnyOrder(setup: RatchetConversation.Setup, steps: seq<RatchetConversation.Step>,
                                    w: RatchetConversation.World, p: RatchetConversation.Party, e: nat, n: nat,
                                    c: Cipher, conversation: string, messageId: string, sender: string, payload: Payload,
                                    conversation': string, messageId': string, sender': string, seed: nat)
    requires RatchetConversation.Lawful(setup) && Authenticated(RatchetSuite(setup.k, c)) && Encodings(c.utf8, c.headerBytes)
    requires Runs.Run(RatchetConversation.Conversation(setup), RatchetConversation.Start(setup), steps, w)
    requires (e, n) in w.wire && e % 2 != RatchetConversation.Parity(p)
    ensures |w.epochs| >= 2 && e < |w.epochs|
    ensures var suite := RatchetSuite(setup.k, c);
      var envelope := Sealed(c, w.wire[(e, n)], conversation, messageId, sender, payload);
      var result := Decrypt(suite, w.Of(p), conversation', messageId', sender', envelope, seed);
      var same := conversation' == conversation && messageId' == messageId && sender' == sender;
      if (e, n) !in w.received && RatchetConversation.Fits(w, p, e, n) && same
      then result.Some? && result.value.1 == payload
      else result.None?
  {
    var ephemeral := c.draw(seed);
    if (e, n) in w.received {
      RatchetDelivery.NoReplay(setup, steps, w, p, e, n, ephemeral);
      RatchetDelivery.MessageExists(setup, steps, w, e, n);
    } else {
      RatchetDelivery.AnyOrderDelivery(setup, steps, w, p, e, n, ephemeral);
    }
    SealedOpensIff(setup, w, p, e, n, c, conversation, messageId, sender, payload,
                   conversation', messageId', sender', seed);
  }

  /** A sealed envelope opens exactly where the ratchet accepts its message and the metadata agree. */
  lemma SealedOpensIff(setup: RatchetConversation.Setup, w: RatchetConversation.World, p: RatchetConversation.Party,
                       e: nat, n: nat, c: Cipher, conversation: string, messageId: string, sender: string, payload: Payload,
                       conversation': string, messageId': string, sender': string, seed: nat)
    requires Authenticated(RatchetSuite(setup.k, c)) && Encodings(c.utf8, c.headerBytes) && (e, n) in w.wire
    ensures var envelope := Sealed(c, w.wire[(e, n)], conversation, messageId, sender, payload);
      var result := Decrypt(RatchetSuite(setup.k, c), w.Of(p), conversation', messageId', sender', envelope, seed);
      if RatchetConversation.Accepts(setup, w, p, e, n, c.draw(seed))
         && conversation' == conversation && messageId' == messageId && sender' == sender
      then result.Some? && result.value.1 == payload
      else result.None?
  {
    hide DoubleRatchet.Decrypted, MetadataBytes;
    var suite := RatchetSuite(setup.k, c);
    var sent := w.wire[(e, n)];
    var answer := RatchetConversation.Answer(setup, w, p, e, n, c.draw(seed));
    var aad := MetadataBytes(c.utf8, c.headerBytes, conversation, messageId, sender, sent.header);
    var aad' := MetadataBytes(c.utf8, c.headerBytes, conversation', messageId', sender', sent.header);
    if aad == aad' {
      MetadataBytesInjective(c.utf8, c.headerBytes, conversation, messageId, sender, sent.header,
                             conversation', messageId', sender', sent.header);
    }
    if answer.Ok? {
      assert suite.open(answer.value.1, aad', suite.seal(sent.bundle, aad, payload))
        == if sent.bundle == answer.value.1 && aad == aad' then Some(payload) else None;
    }
  }
}
