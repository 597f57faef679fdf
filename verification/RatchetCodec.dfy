/**
 * Direct-message envelopes over a ratchet.
 *
 * The ratchet, the authenticated cipher and the key agreement are function
 * parameters (`CodecRatchet` puts the Double Ratchet there); what is modelled is the
 * order in which the codec loads a state, steps it, seals or opens, and hands the
 * stepped state to the commit callback.
 */
module RatchetCodec {
  import opened Basics
  import opened JsonText
  import opened Primitives
  import DoubleRatchet

  type SessionState = DoubleRatchet.State
  type Header = DoubleRatchet.Header
  type MessageKey = DoubleRatchet.Bundle
  type Ciphertext(==, !new)

  datatype Payload = Payload(content: string, ttlMs: Option<nat>)

  /** What travels: a JSON object, or text that is not one. */
  datatype Envelope = Envelope(version: int, header: Header, body: Ciphertext) | Malformed

  /** The ratchet and cipher as functions; `seed` stands for the randomness a call draws.
      `zeroAgreement` holds of the identities with which the key agreement gives only zeros. */
  datatype Suite = Suite(
    zeroAgreement: string -> bool,
    start: (string, string) -> SessionState,
    send: (SessionState, nat) -> Option<(SessionState, Header, MessageKey)>,
    receive: (SessionState, Header, nat) -> Option<(SessionState, MessageKey)>,
    aad: (string, string, string, Header) -> Bytes,
    seal: (MessageKey, Bytes, Payload) -> Ciphertext,
    open: (MessageKey, Bytes, Ciphertext) -> Option<Payload>)

  /** jsonEncode of the list of four strings. */
  function MetadataText(conversation: string, messageId: string, sender: string): string {
    "[" + Quote("chhaya-message-v1") + "," + Quote(conversation) + "," + Quote(messageId) + "," + Quote(sender) + "]"
  }

  /** What a sealed body is bound to: the metadata as JSON in UTF-8, then the header. */
  function MetadataBytes(utf8: string -> Bytes, headerBytes: Header -> Bytes,
                         conversation: string, messageId: string, sender: string, header: Header): Bytes
  {
    utf8(MetadataText(conversation, messageId, sender)) + headerBytes(header)
  }

  /** UTF-8 loses nothing, and all headers take 44 bytes. */
  ghost predicate Encodings(utf8: string -> Bytes, headerBytes: Header -> Bytes) {
    && (forall s, t :: utf8(s) == utf8(t) ==> s == t)
    && (forall h :: |headerBytes(h)| == 44)
  }

  /** Under one header, what is authenticated determines conversation, message and sender. */
  ghost predicate BindsMetadata(suite: Suite) {
    forall c, m, s, c', m', s', h :: suite.aad(c, m, s, h) == suite.aad(c', m', s', h) ==> c == c' && m == m' && s == s'
  }

  lemma MetadataInjective(c: string, m: string, s: string, c': string, m': string, s': string)
    requires MetadataText(c, m, s) == MetadataText(c', m', s')
    ensures c == c' && m == m' && s == s'
  {
    hide Quote;
    var a, a' := Quote(s) + "]", Quote(s') + "]";
    var b, b' := Quote(m) + ("," + a), Quote(m') + ("," + a');
    var d, d' := Quote(c) + ("," + b), Quote(c') + ("," + b');
    var tag := "[" + Quote("chhaya-message-v1") + ",";
    assert MetadataText(c, m, s) == tag + d && MetadataText(c', m', s') == tag + d';
    assert (tag + d)[|tag|..] == d && (tag + d')[|tag|..] == d';
    QuoteInjective(c, "," + b, c', "," + b');
    assert ("," + b)[1..] == b && ("," + b')[1..] == b';
    QuoteInjective(m, "," + a, m', "," + a');
    assert ("," + a)[1..] == a && ("," + a')[1..] == a';
    QuoteInjective(s, "]", s', "]");
  }

  lemma MetadataBytesInjective(utf8: string -> Bytes, headerBytes: Header -> Bytes,
                               c: string, m: string, s: string, h: Header, c': string, m': string, s': string, h': Header)
    requires Encodings(utf8, headerBytes)
    requires MetadataBytes(utf8, headerBytes, c, m, s, h) == MetadataBytes(utf8, headerBytes, c', m', s', h')
    ensures c == c' && m == m' && s == s' && headerBytes(h) == headerBytes(h')
  {
    hide MetadataText;
    var x, y := utf8(MetadataText(c, m, s)), utf8(MetadataText(c', m', s'));
    var a, b := MetadataBytes(utf8, headerBytes, c, m, s, h), MetadataBytes(utf8, headerBytes, c', m', s', h');
    assert |a| == |x| + 44 && |b| == |y| + 44;
    assert a[..|x|] == x && a[|x|..] == headerBytes(h);
    assert b[..|y|] == y && b[|y|..] == headerBytes(h');
    MetadataInjective(c, m, s, c', m', s');
  }

  const HEX := {'0', '1', '2', '3', '4', '5', '6', '7', '8', '9', 'a', 'b', 'c', 'd', 'e', 'f'}

  /** A contact identity: "05" and 64 lower-case hex digits. */
  predicate ValidIdentity(peerKey: string) {
    |peerKey| == 66 && peerKey[..2] == "05" && forall i :: 2 <= i < 66 ==> peerKey[i] in HEX
  }

  /** The state an operation works on: the saved one, or a new session for a valid identity. */
  function StateFor(suite: Suite, saved: Option<SessionState>, conversation: string, peerKey: string)
    : Option<SessionState>
  {
    if saved.Some? then saved
    else if ValidIdentity(peerKey) && !suite.zeroAgreement(peerKey) then Some(suite.start(conversation, peerKey))
    else None
  }

  /** A new session starts only with an identity of "05" and 64 lower-case hex digits whose agreement is not all zeros. */
  lemma SessionStartsIff(suite: Suite, conversation: string, peerKey: string)
    ensures StateFor(suite, None, conversation, peerKey).Some?
      <==>
        && |peerKey| == 66 && peerKey[0] == '0' && peerKey[1] == '5'
        && (forall i :: 2 <= i < 66 ==> '0' <= peerKey[i] <= '9' || 'a' <= peerKey[i] <= 'f')
        && !suite.zeroAgreement(peerKey)
  {
    forall i | 2 <= i < |peerKey| ensures peerKey[i] in HEX <==> '0' <= peerKey[i] <= '9' || 'a' <= peerKey[i] <= 'f' {
      HexDigits(peerKey[i]);
    }
  }

  lemma HexDigits(c: char)
    ensures c in HEX <==> '0' <= c <= '9' || 'a' <= c <= 'f'
  {}

  /** Steps the sending side and seals: the state to commit and the envelope. None when the ratchet refuses. */
  function Encrypt(suite: Suite, state: SessionState, conversation: string, messageId: string,
                   sender: string, payload: Payload, seed: nat): Option<(SessionState, Envelope)>
  {
    match suite.send(state, seed)
    case None => None
    case Some((next, header, key)) =>
      Some((next, Envelope(1, header, suite.seal(key, suite.aad(conversation, messageId, sender, header), payload))))
  }

  /** Steps the receiving side and opens; None when anything is rejected. */
  function Decrypt(suite: Suite, state: SessionState, conversation: string, messageId: string,
                   sender: string, envelope: Envelope, seed: nat): Option<(SessionState, Payload)>
  {
    if envelope.Malformed? || envelope.version != 1 then None
    else match suite.receive(state, envelope.header, seed)
      case None => None
      case Some((next, key)) =>
        match suite.open(key, suite.aad(conversation, messageId, sender, envelope.header), envelope.body)
        case None => None
        case Some(payload) => Some((next, payload))
  }

  /** Authenticated encryption: a body opens under exactly the key and metadata it was sealed with. */
  ghost predicate Authenticated(suite: Suite)
  {
    forall k: MessageKey, a: Bytes, p: Payload, k': MessageKey, a': Bytes ::
      suite.open(k', a', suite.seal(k, a, p)) == if k == k' && a == a' then Some(p) else None
  }

  /** An envelope opens exactly for the conversation, message id and sender it was sealed for. */
  lemma EnvelopeBindsMetadata(suite: Suite, ours: SessionState, theirs: SessionState,
      conversation: string, messageId: string, sender: string, payload: Payload, seed: nat,
      conversation': string, messageId': string, sender': string, seed': nat)
    requires Authenticated(suite) && BindsMetadata(suite)
    requires suite.send(ours, seed).Some?
    requires var (_, header, key) := suite.send(ours, seed).value;
             suite.receive(theirs, header, seed').Some? &&
             suite.receive(theirs, header, seed').value.1 == key
    ensures Encrypt(suite, ours, conversation, messageId, sender, payload, seed).Some?
    ensures var (_, envelope) := Encrypt(suite, ours, conversation, messageId, sender, payload, seed).value;
            var result := Decrypt(suite, theirs, conversation', messageId', sender', envelope, seed');
            if conversation' == conversation && messageId' == messageId && sender' == sender
            then result.Some? && result.value.1 == payload
            else result.None?
  {
    var (next, header, key) := suite.send(ours, seed).value;
    var a := suite.aad(conversation, messageId, sender, header);
    var a' := suite.aad(conversation', messageId', sender', header);
    assert suite.open(key, a', suite.seal(key, a, payload)) == if a == a' then Some(payload) else None;
  }

  /** One committed use of a session. */
  datatype Event =
    | Sent(id: string, payload: Payload, seed: nat)
    | Received(id: string, header: Header, seed: nat)

  /** The state a committed event leaves. */
  function Advance(suite: Suite, state: SessionState, event: Event): SessionState {
    match event
    case Sent(_, _, seed) =>
      (match suite.send(state, seed)
       case None => state
       case Some((next, _, _)) => next)
    case Received(_, header, seed) =>
      (match suite.receive(state, header, seed)
       case None => state
       case Some((next, _)) => next)
  }

  /** Folding a session's committed events over its starting state. */
  function Replay(suite: Suite, state: SessionState, events: seq<Event>): SessionState {
    if events == [] then state
    else Advance(suite, Replay(suite, state, events[..|events| - 1]), events[|events| - 1])
  }

  lemma ReplayAppend(suite: Suite, state: SessionState, events: seq<Event>, event: Event)
    ensures Replay(suite, state, events + [event]) == Advance(suite, Replay(suite, state, events), event)
  {
    assert (events + [event])[..|events|] == events;
  }
}
