/**
 * The Double Ratchet session of the crypto engine: two parties kept in lockstep
 * (section 2.3 of "The Double Ratchet Algorithm").
 */
module DoubleRatchetSession {
  import opened Basics
  import opened Runs

  type Bytes(==, !new)

  /** X25519 and HKDF as functions. `derive` yields 64 bytes, given as its two halves. */
  datatype Primitives = Primitives(
    publicKey: Bytes -> Bytes,
    agree: (Bytes, Bytes) -> Bytes,
    deriveRoot: (Bytes, Bytes) -> (Bytes, Bytes),
    deriveChain: Bytes -> (Bytes, Bytes))

  /** Both sides of an agreement compute the same secret (section 6.1 of RFC 7748). */
  ghost predicate Symmetric(c: Primitives) {
    forall a: Bytes, b: Bytes :: c.agree(a, c.publicKey(b)) == c.agree(b, c.publicKey(a))
  }

  /** A session: the private half of the own pair stands for the pair. */
  datatype Party = Party(root: Bytes, own: Bytes, remote: Option<Bytes>,
                         sending: Option<Bytes>, receiving: Option<Bytes>)

  /** performDhRatchetStep: a receiving chain from the old pair, a new pair, a sending chain from it. */
  function DhStep(c: Primitives, p: Party, remoteKey: Bytes, newOwn: Bytes): Party {
    var (root1, receiving) := c.deriveRoot(p.root, c.agree(p.own, remoteKey));
    var (root2, sending) := c.deriveRoot(root1, c.agree(newOwn, remoteKey));
    Party(root2, newOwn, Some(remoteKey), Some(sending), Some(receiving))
  }

  function Send(c: Primitives, p: Party): (Party, Bytes)
    requires p.sending.Some?
  {
    var (key, chain) := c.deriveChain(p.sending.value);
    (p.(sending := Some(chain)), key)
  }

  function Receive(c: Primitives, p: Party): (Party, Bytes)
    requires p.receiving.Some?
  {
    var (key, chain) := c.deriveChain(p.receiving.value);
    (p.(receiving := Some(chain)), key)
  }

  class Session {
    const primitives: Primitives
    var rootKey: Bytes
    var dhrsPrivate: Bytes
    var dhriPublicKey: Option<Bytes>
    var sendingChainKey: Option<Bytes>
    var receivingChainKey: Option<Bytes>

    function View(): Party reads this {
      Party(rootKey, dhrsPrivate, dhriPublicKey, sendingChainKey, receivingChainKey)
    }

    constructor (primitives: Primitives, p: Party)
      ensures View() == p && this.primitives == primitives
    {
      this.primitives := primitives;
      rootKey, dhrsPrivate, dhriPublicKey := p.root, p.own, p.remote;
      sendingChainKey, receivingChainKey := p.sending, p.receiving;
    }

    /** ratchetSendChain; None where the source throws. */
    method RatchetSendChain() returns (messageKey: Option<Bytes>)
      modifies this
      ensures old(View()).sending.None? ==> messageKey == None && View() == old(View())
      ensures old(View()).sending.Some? ==> messageKey.Some? && (View(), messageKey.value) == Send(primitives, old(View()))
      ensures old(sendingChainKey).Some? ==>
        && messageKey == Some(primitives.deriveChain(old(sendingChainKey).value).0)
        && View() == old(View()).(sending := Some(primitives.deriveChain(old(sendingChainKey).value).1))
    {
      if sendingChainKey.None? { return None; }
      var derived := primitives.deriveChain(sendingChainKey.value);
      sendingChainKey := Some(derived.1);
      return Some(derived.0);
    }

    /** ratchetReceiveChain; None where the source throws. */
    method RatchetReceiveChain() returns (messageKey: Option<Bytes>)
      modifies this
      ensures old(View()).receiving.None? ==> messageKey == None && View() == old(View())
      ensures old(View()).receiving.Some? ==> messageKey.Some? && (View(), messageKey.value) == Receive(primitives, old(View()))
      ensures old(receivingChainKey).Some? ==>
        && messageKey == Some(primitives.deriveChain(old(receivingChainKey).value).0)
        && View() == old(View()).(receiving := Some(primitives.deriveChain(old(receivingChainKey).value).1))
    {
      if receivingChainKey.None? { return None; }
      var derived := primitives.deriveChain(receivingChainKey.value);
      receivingChainKey := Some(derived.1);
      return Some(derived.0);
    }

    /** `newOwn` is the private key generateKeyPair draws. */
    method PerformDhRatchetStep(newRemoteDhPublicKey: Bytes, newOwn: Bytes)
      modifies this
      ensures View() == DhStep(primitives, old(View()), newRemoteDhPublicKey, newOwn)
      ensures dhriPublicKey == Some(newRemoteDhPublicKey) && dhrsPrivate == newOwn
    {
      dhriPublicKey := Some(newRemoteDhPublicKey);
      var derived := primitives.deriveRoot(rootKey, primitives.agree(dhrsPrivate, newRemoteDhPublicKey));
      rootKey := derived.0;
      receivingChainKey := Some(derived.1);
      dhrsPrivate := newOwn;
      var derivedSend := primitives.deriveRoot(rootKey, primitives.agree(dhrsPrivate, newRemoteDhPublicKey));
      rootKey := derivedSend.0;
      sendingChainKey := Some(derivedSend.1);
    }
  }

  // ---- Two parties

  /** The chain key after n messages, and the message keys on the way. */
  function ChainAfter(c: Primitives, chain: Bytes, n: nat): Bytes {
    if n == 0 then chain else c.deriveChain(ChainAfter(c, chain, n - 1)).1
  }

  function KeyAt(c: Primitives, chain: Bytes, n: nat): Bytes { c.deriveChain(ChainAfter(c, chain, n)).0 }

  /**
   * The party that stepped last leads. Chains are numbered by the step that made them, with the keys
   * sent and received on each: the leader sends on the last one, and receives on the one before it,
   * on which the follower sends.
   */
  datatype Pair = Pair(lead: Party, follow: Party, chains: seq<Bytes>, sent: seq<seq<Bytes>>, got: seq<seq<Bytes>>)

  datatype Move = LeadSends | LeadReceives | FollowSends | FollowReceives | Turn(newOwn: Bytes)

  function Append(keys: seq<seq<Bytes>>, chain: int, key: Bytes): seq<seq<Bytes>> {
    if 0 <= chain < |keys| then keys[chain := keys[chain] + [key]] else keys
  }

  predicate CanMove(w: Pair, move: Move) {
    match move
    case LeadSends => w.lead.sending.Some?
    case LeadReceives => w.lead.receiving.Some? && |w.chains| >= 2
    case FollowSends => w.follow.sending.Some? && |w.chains| >= 2
    case FollowReceives => w.follow.receiving.Some? && |w.chains| >= 3
    case Turn(_) => true
  }

  function Moved(c: Primitives, w: Pair, move: Move): Pair
    requires CanMove(w, move)
  {
    var last := |w.chains| - 1;
    match move
    case LeadSends =>
      var (p, key) := Send(c, w.lead);
      w.(lead := p, sent := Append(w.sent, last, key))
    case LeadReceives =>
      var (p, key) := Receive(c, w.lead);
      w.(lead := p, got := Append(w.got, last - 1, key))
    case FollowSends =>
      var (p, key) := Send(c, w.follow);
      w.(follow := p, sent := Append(w.sent, last - 1, key))
    case FollowReceives =>
      var (p, key) := Receive(c, w.follow);
      w.(follow := p, got := Append(w.got, last - 2, key))
    case Turn(newOwn) =>
      var p := DhStep(c, w.follow, c.publicKey(w.lead.own), newOwn);
      Pair(p, w.lead, w.chains + [p.sending.value], w.sent + [[]], w.got + [[]])
  }

  ghost function Conversation(c: Primitives): Machine<Pair, Move> {
    Machine((w: Pair, move: Move) => CanMove(w, move),
            (w: Pair, move: Move) => if CanMove(w, move) then Moved(c, w, move) else w)
  }

  /** `lead` is exactly one root-key derivation ahead of `follow`, and `chain` came out of it. */
  predicate Ahead(c: Primitives, lead: Party, follow: Party, chain: Bytes) {
    c.deriveRoot(follow.root, c.agree(lead.own, c.publicKey(follow.own))) == (lead.root, chain)
  }

  /** A party's chain key stands where the keys taken from the chain say. */
  predicate At(c: Primitives, key: Option<Bytes>, chain: Bytes, taken: nat) {
    key == Some(ChainAfter(c, chain, taken))
  }

  ghost predicate Recorded(c: Primitives, chain: Bytes, keys: seq<Bytes>) {
    forall n :: 0 <= n < |keys| ==> keys[n] == KeyAt(c, chain, n)
  }

  ghost predicate Lockstep(c: Primitives, w: Pair) {
    var n := |w.chains|;
    && n >= 1 && |w.sent| == |w.got| == n
    && Ahead(c, w.lead, w.follow, w.chains[n - 1])
    && At(c, w.lead.sending, w.chains[n - 1], |w.sent[n - 1]|)
    && w.got[n - 1] == []
    && (n >= 2 ==> At(c, w.follow.sending, w.chains[n - 2], |w.sent[n - 2]|))
    && (n >= 2 ==> At(c, w.lead.receiving, w.chains[n - 2], |w.got[n - 2]|))
    && (n >= 3 ==> At(c, w.follow.receiving, w.chains[n - 3], |w.got[n - 3]|))
    && (forall e :: 0 <= e < n ==> Recorded(c, w.chains[e], w.sent[e]) && Recorded(c, w.chains[e], w.got[e]))
  }

  /** The start: one party has made its sending chain and nothing has been sent. */
  predicate Start(c: Primitives, w: Pair) {
    && |w.chains| == 1 && w.sent == [[]] && w.got == [[]]
    && Ahead(c, w.lead, w.follow, w.chains[0]) && w.lead.sending == Some(w.chains[0])
  }

  lemma StartIsLockstep(c: Primitives, w: Pair)
    requires Start(c, w)
    ensures Lockstep(c, w)
  {}

  /** A step makes the stepper's receiving chain the leader's sending chain, and puts it one ahead. */
  lemma TurnKeepsLockstep(c: Primitives, w: Pair, newOwn: Bytes)
    requires Symmetric(c) && Lockstep(c, w)
    ensures var w' := Moved(c, w, Turn(newOwn));
      && Lockstep(c, w')
      && w'.lead.receiving == Some(w.chains[|w.chains| - 1])
      && (w.sent[|w.sent| - 1] == [] ==> w'.lead.receiving == w.lead.sending)
  {
    var w' := Moved(c, w, Turn(newOwn));
    var n := |w.chains|;
    assert c.agree(w.follow.own, c.publicKey(w.lead.own)) == c.agree(w.lead.own, c.publicKey(w.follow.own));
    assert forall e :: 0 <= e < n ==> w'.chains[e] == w.chains[e] && w'.sent[e] == w.sent[e] && w'.got[e] == w.got[e];
  }

  lemma RecordedAppend(c: Primitives, chain: Bytes, keys: seq<Bytes>)
    requires Recorded(c, chain, keys)
    ensures Recorded(c, chain, keys + [KeyAt(c, chain, |keys|)])
  {}

  lemma SendKeepsLockstep(c: Primitives, w: Pair, move: Move)
    requires Lockstep(c, w) && CanMove(w, move) && (move.LeadSends? || move.FollowSends?)
    ensures Lockstep(c, Moved(c, w, move))
  {
    hide Recorded;
    var e := if move.LeadSends? then |w.chains| - 1 else |w.chains| - 2;
    RecordedAppend(c, w.chains[e], w.sent[e]);
  }

  lemma ReceiveKeepsLockstep(c: Primitives, w: Pair, move: Move)
    requires Lockstep(c, w) && CanMove(w, move) && (move.LeadReceives? || move.FollowReceives?)
    ensures Lockstep(c, Moved(c, w, move))
  {
    hide Recorded;
    var e := if move.LeadReceives? then |w.chains| - 2 else |w.chains| - 3;
    RecordedAppend(c, w.chains[e], w.got[e]);
  }

  lemma MoveKeepsLockstep(c: Primitives, w: Pair, move: Move)
    requires Symmetric(c) && Lockstep(c, w) && CanMove(w, move)
    ensures Lockstep(c, Moved(c, w, move))
  {
    hide Lockstep, Moved;
    match move
    case Turn(newOwn) => TurnKeepsLockstep(c, w, newOwn);
    case LeadSends => SendKeepsLockstep(c, w, move);
    case FollowSends => SendKeepsLockstep(c, w, move);
    case LeadReceives => ReceiveKeepsLockstep(c, w, move);
    case FollowReceives => ReceiveKeepsLockstep(c, w, move);
  }

  /** Over every alternating run of steps, with messages sent and received anywhere between them, the n-th
      key received on a chain is the n-th key sent on it. */
  lemma KeysAgree(c: Primitives, w0: Pair, moves: seq<Move>, w: Pair, e: nat, n: nat)
    requires Symmetric(c) && Start(c, w0) && Run(Conversation(c), w0, moves, w)
    ensures |w.sent| == |w.got| == |w.chains| && |w.chains| >= 1
    ensures e < |w.chains| && n < |w.sent[e]| && n < |w.got[e]| ==> w.sent[e][n] == w.got[e][n]
    ensures Ahead(c, w.lead, w.follow, w.chains[|w.chains| - 1])
  {
    StartIsLockstep(c, w0);
    var inv := (v: Pair) => Lockstep(c, v);
    forall v, move | inv(v) && Conversation(c).enabled(v, move) ensures inv(Conversation(c).next(v, move)) {
      MoveKeepsLockstep(c, v, move);
    }
    RunKeeps(Conversation(c), inv, w0, moves, w);
  }
}
