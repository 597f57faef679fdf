/**
 * Two Double Ratchet parties over a network that delays, reorders, drops and repeats.
 *
 * The history is a list of epochs, one for each key pair: the responder's first pair, the
 * initiator's, and then one for every DH step, alternating between the two. Each epoch is
 * a sending chain of its owner. A delivery is committed when the key it yields is the one
 * the message was encrypted under (otherwise authentication fails and the state is
 * discarded).
 */
module RatchetConversation {
  import opened DoubleRatchet
  import opened Runs

  /** The primitives, the pre-exchanged secret and the first key pairs. */
  datatype Setup = Setup(k: Kdf, secret: Key, initiator: Private, responder: Private)

  datatype Epoch = Epoch(secret: Private, root: Key, chain: Key, sent: nat)

  datatype Sent = Sent(header: Header, bundle: Bundle)

  datatype Party = Initiator | Responder

  /** Messages are named by their epoch and number. */
  datatype World = World(initiator: State, responder: State,
                         epochs: seq<Epoch>, wire: map<(nat, nat), Sent>, received: set<(nat, nat)>)
  {
    function Of(p: Party): State { if p.Initiator? then initiator else responder }

    function With(p: Party, s: State): World { if p.Initiator? then this.(initiator := s) else this.(responder := s) }

    /** The last epoch the party owns. */
    function SendEpoch(p: Party): nat
      requires |epochs| >= 2
    {
      var last := |epochs| - 1;
      if last % 2 == Parity(p) then last else last - 1
    }
  }

  /** The initiator owns the odd epochs. */
  function Parity(p: Party): nat { if p.Initiator? then 1 else 0 }

  /** Whose chain a party sending in epoch s receives on. The responder starts on epoch 1 before it has ever sent. */
  function RecvEpoch(s: nat): nat { if s == 0 then 1 else s - 1 }

  function Start(c: Setup): World {
    var pubA, pubB := c.k.publicOf(c.initiator), c.k.publicOf(c.responder);
    var (root, chainA, chainB) := c.k.init(c.secret, c.k.dh(c.initiator, pubB));
    World(Init(c.k, true, c.secret, c.initiator, pubB), Init(c.k, false, c.secret, c.responder, pubA),
          [Epoch(c.responder, root, chainB, 0), Epoch(c.initiator, root, chainA, 0)], map[], {})
  }

  datatype Step = Send(p: Party, ephemeral: Private) | Deliver(p: Party, e: nat, n: nat, ephemeral: Private)

  function AfterSend(c: Setup, w: World, p: Party, ephemeral: Private): World
    requires |w.epochs| >= 2
  {
    match Encrypted(c.k, w.Of(p), ephemeral)
    case Ok((s, header, bundle)) =>
      var first := !w.Of(p).sendInitialized;
      var e := if first then |w.epochs| else w.SendEpoch(p);
      var opening := Epoch(ephemeral, s.root, FirstSendRatchet(c.k, w.Of(p), ephemeral).sendChain, 0);
      var epochs := if first then w.epochs + [opening] else w.epochs;
      w.With(p, s).(epochs := epochs[e := epochs[e].(sent := epochs[e].sent + 1)],
                    wire := w.wire[(e, header.messageNumber) := Sent(header, bundle)])
    case _ => w
  }

  /** The receiving party's answer to a message. */
  function Answer(c: Setup, w: World, p: Party, e: nat, n: nat, ephemeral: Private): Result<(State, Bundle)>
    requires (e, n) in w.wire
  {
    Decrypted(c.k, w.Of(p), w.wire[(e, n)].header, ephemeral)
  }

  /** The message authenticates under the key it yields. */
  predicate Accepts(c: Setup, w: World, p: Party, e: nat, n: nat, ephemeral: Private)
    requires (e, n) in w.wire
  {
    var r := Answer(c, w, p, e, n, ephemeral);
    r.Ok? && r.value.1 == w.wire[(e, n)].bundle
  }

  /** A changed remote key means a DH step: the party's new key pair opens an epoch. */
  function AfterDeliver(c: Setup, w: World, p: Party, e: nat, n: nat, ephemeral: Private): World
    requires (e, n) in w.wire
  {
    if !Accepts(c, w, p, e, n, ephemeral) then w
    else
      var s := Answer(c, w, p, e, n, ephemeral).value.0;
      var opening := Epoch(ephemeral, s.root, s.sendChain, 0);
      w.With(p, s).(received := w.received + {(e, n)},
                    epochs := if s.remote == w.Of(p).remote then w.epochs else w.epochs + [opening])
  }

  predicate Possible(w: World, step: Step) {
    |w.epochs| >= 2 && (step.Deliver? ==> (step.e, step.n) in w.wire && step.e % 2 != Parity(step.p))
  }

  function Next(c: Setup, w: World, step: Step): World {
    if !Possible(w, step) then w
    else match step
      case Send(p, ephemeral) => AfterSend(c, w, p, ephemeral)
      case Deliver(p, e, n, ephemeral) => AfterDeliver(c, w, p, e, n, ephemeral)
  }

  function Pub(c: Setup, e: Epoch): Public { c.k.publicOf(e.secret) }

  /** Random draws: no key pair and no root key comes twice. */
  ghost predicate Distinct(c: Setup, epochs: seq<Epoch>) {
    && (forall i, j :: 0 <= i < j < |epochs| ==> Pub(c, epochs[i]) != Pub(c, epochs[j]))
    && (forall i, j :: 1 <= i < j < |epochs| ==> epochs[i].root != epochs[j].root)
  }

  /** Any message may be delivered at any time to its recipient, any number of times. */
  ghost function Conversation(c: Setup): Machine<World, Step> {
    Machine((w, step) => Possible(w, step) && Distinct(c, Next(c, w, step).epochs), (w, step) => Next(c, w, step))
  }

  ghost predicate Lawful(c: Setup) {
    c.k.Symmetric() && c.k.CollisionFree() && c.k.publicOf(c.initiator) != c.k.publicOf(c.responder)
  }

  // ---- The invariant ----

  /** `after` is what its key pair and the pair of `before` derive from the root of `before`. */
  predicate DhLink(c: Setup, before: Epoch, after: Epoch) {
    (after.root, after.chain) == c.k.derive64(before.root, c.k.dh(after.secret, Pub(c, before)))
  }

  /** Every epoch after the first two comes out of a DH step between its key pair and the one before. */
  ghost predicate Chained(c: Setup, epochs: seq<Epoch>) {
    && |epochs| >= 2 && epochs[0].sent == 0 && Distinct(c, epochs)
    && epochs[1].chain == c.k.init(c.secret, c.k.dh(c.initiator, c.k.publicOf(c.responder))).1
    && (forall e :: 1 <= e < |epochs| - 1 ==>
          DhLink(c, epochs[e], epochs[e + 1]))
  }

  function PreviousLength(epochs: seq<Epoch>, e: nat): nat
    requires e < |epochs|
  {
    if e >= 2 then epochs[e - 2].sent else 0
  }

  ghost predicate OnWire(c: Setup, epochs: seq<Epoch>, wire: map<(nat, nat), Sent>) {
    && (forall e :: 0 <= e < |epochs| ==> epochs[e].sent <= MAX_COUNTER + 1)
    && (forall e: nat, n: nat :: (e, n) in wire <==> e < |epochs| && n < epochs[e].sent)
    && (forall e: nat, n: nat :: (e, n) in wire ==>
          e < |epochs| && wire[(e, n)] == Sent(Header(Pub(c, epochs[e]), PreviousLength(epochs, e), n), BundleAt(c.k, epochs[e].chain, n)))
  }

  ghost predicate SendSide(c: Setup, epochs: seq<Epoch>, s: State, at: nat)
    requires at < |epochs| && |epochs| >= 2
  {
    && s.ourPrivate == epochs[at].secret && s.ourPublic == Pub(c, epochs[at])
    && s.sendCounter == epochs[at].sent && s.prevSendChainLength == PreviousLength(epochs, at)
    && s.root == epochs[if at == 0 then 1 else at].root
    && (s.sendInitialized <==> at > 0)
    && (at > 0 ==> s.sendChain == ChainAt(c.k, epochs[at].chain, s.sendCounter))
  }

  /** The receiver's chains have moved past the message: it was received or its key was set aside. */
  predicate Passed(epochs: seq<Epoch>, s: State, r: nat, e: nat, n: nat)
    requires e < |epochs|
  {
    (e < r && n < epochs[e].sent) || (e == r && n < s.recvCounter)
  }

  ghost predicate Accounted(c: Setup, epochs: seq<Epoch>, received: set<(nat, nat)>, s: State, r: nat, e: nat, n: nat)
    requires e < |epochs|
  {
    var at := (Pub(c, epochs[e]), n);
    && ((e, n) in received ==> Passed(epochs, s, r, e, n))
    && (at in s.skipped <==> Passed(epochs, s, r, e, n) && (e, n) !in received)
    && (at in s.skipped ==> s.skipped[at] == BundleAt(c.k, epochs[e].chain, n))
  }

  ghost predicate RecvSide(c: Setup, epochs: seq<Epoch>, received: set<(nat, nat)>, s: State, r: nat)
    requires r < |epochs|
  {
    && s.remote == Pub(c, epochs[r]) && s.recvChain == ChainAt(c.k, epochs[r].chain, s.recvCounter)
    && s.recvCounter <= epochs[r].sent && |s.skipped| <= MAX_SKIPPED_TOTAL
    && (forall e: nat, n: nat :: e < |epochs| && e % 2 == r % 2 ==> Accounted(c, epochs, received, s, r, e, n))
    && (forall at <- s.skipped :: exists e :: 0 <= e < |epochs| && at.0 == Pub(c, epochs[e]))
  }

  ghost predicate PartyOk(c: Setup, epochs: seq<Epoch>, received: set<(nat, nat)>, s: State, at: nat)
    requires at < |epochs| && |epochs| >= 2
  {
    SendSide(c, epochs, s, at) && RecvSide(c, epochs, received, s, RecvEpoch(at))
  }

  ghost predicate Inv(c: Setup, w: World) {
    && Chained(c, w.epochs) && OnWire(c, w.epochs, w.wire)
    && (forall at <- w.received :: at in w.wire)
    && forall p :: PartyOk(c, w.epochs, w.received, w.Of(p), w.SendEpoch(p))
  }

  // ---- What a message meets when it arrives ----

  /** Room for the keys a message makes the receiver set aside. */
  predicate Fits(w: World, p: Party, e: nat, n: nat)
    requires |w.epochs| >= 2 && e < |w.epochs|
  {
    var s, r := w.Of(p), RecvEpoch(w.SendEpoch(p));
    if e == r && n >= s.recvCounter then
      n - s.recvCounter <= 1000 && |s.skipped| + n - s.recvCounter <= 2000
    else if e > r then
      var rest := w.epochs[r].sent - s.recvCounter;
      rest <= 1000 && n <= 1000 && |s.skipped| + rest + n <= 2000
    else true
  }

  /** The shape of the receiving state after a message of the current or the next epoch. */
  ghost predicate MovedTo(c: Setup, w: World, p: Party, e: nat, n: nat, ephemeral: Private, s': State)
    requires |w.epochs| >= 2 && e < |w.epochs|
  {
    var s, r, k := w.Of(p), RecvEpoch(w.SendEpoch(p)), c.k;
    && s'.remote == Pub(c, w.epochs[e])
    && s'.recvChain == ChainAt(k, w.epochs[e].chain, n + 1) && s'.recvCounter == n + 1
    && |s'.skipped| <= MAX_SKIPPED_TOTAL
    && if e == r then
         && s' == s.(skipped := s'.skipped, recvChain := s'.recvChain, recvCounter := n + 1)
         && Staged(k, s.skipped, s'.skipped, s.remote, w.epochs[r].chain, s.recvCounter, n)
       else
         && (exists mid: SkippedKeys ::
               && Staged(k, s.skipped, mid, s.remote, w.epochs[r].chain, s.recvCounter, w.epochs[r].sent)
               && Staged(k, mid, s'.skipped, Pub(c, w.epochs[e]), w.epochs[e].chain, 0, n))
         && s'.ourPrivate == ephemeral && s'.ourPublic == k.publicOf(ephemeral) && s'.sendInitialized == s.sendInitialized
         && s'.prevSendChainLength == s.sendCounter && s'.sendCounter == 0
         && (s'.root, s'.sendChain) == k.derive64(w.epochs[e].root, k.dh(ephemeral, Pub(c, w.epochs[e])))
  }

  /** Epochs that can still be travelling to a party: up to the one after its receiving epoch. */
  lemma EpochsInReach(w: World, p: Party, e: nat)
    requires |w.epochs| >= 2 && e < |w.epochs| && e % 2 != Parity(p)
    ensures var r := RecvEpoch(w.SendEpoch(p));
      r < |w.epochs| && r % 2 != Parity(p) && (e <= r || (e == r + 2 == |w.epochs| - 1 && w.SendEpoch(p) == r + 1))
  {}

  lemma PartyHolds(c: Setup, w: World, p: Party)
    requires Inv(c, w)
    ensures PartyOk(c, w.epochs, w.received, w.Of(p), w.SendEpoch(p))
  {}

  lemma WireHolds(c: Setup, w: World, e: nat, n: nat)
    requires Inv(c, w) && (e, n) in w.wire
    ensures e < |w.epochs| && n < w.epochs[e].sent <= MAX_COUNTER + 1
    ensures w.wire[(e, n)] == Sent(Header(Pub(c, w.epochs[e]), PreviousLength(w.epochs, e), n), BundleAt(c.k, w.epochs[e].chain, n))
  {}

  lemma AccountedFor(c: Setup, w: World, p: Party, e: nat, n: nat)
    requires Inv(c, w) && e < |w.epochs| && e % 2 != Parity(p)
    ensures Accounted(c, w.epochs, w.received, w.Of(p), RecvEpoch(w.SendEpoch(p)), e, n)
  {
    hide Accounted, Chained, OnWire, SendSide;
    EpochsInReach(w, p, e);
    PartyHolds(c, w, p);
  }

  /** A late message whose key was set aside. */
  lemma LateMessage(c: Setup, w: World, p: Party, e: nat, n: nat, ephemeral: Private)
    requires Inv(c, w) && (e, n) in w.wire && e % 2 != Parity(p) && (e, n) !in w.received
    requires e < |w.epochs| && Passed(w.epochs, w.Of(p), RecvEpoch(w.SendEpoch(p)), e, n)
    ensures var at, s := (Pub(c, w.epochs[e]), n), w.Of(p);
      at in s.skipped && Answer(c, w, p, e, n, ephemeral) == Ok((s.(skipped := s.skipped - {at}), w.wire[(e, n)].bundle))
  {
    hide Inv, Passed, BundleAt;
    WireHolds(c, w, e, n);
    AccountedFor(c, w, p, e, n);
  }

  /** A message of the epoch being received, at or past the counter. */
  lemma CurrentMessage(c: Setup, w: World, p: Party, n: nat, ephemeral: Private)
    requires Inv(c, w)
    requires var e := RecvEpoch(w.SendEpoch(p)); (e, n) in w.wire && n >= w.Of(p).recvCounter
    ensures var e := RecvEpoch(w.SendEpoch(p));
      var r := Answer(c, w, p, e, n, ephemeral);
      && (r.Ok? <==> Fits(w, p, e, n)) && (!r.Ok? ==> r.TooManySkipped? || r.CacheFull?)
      && (r.Ok? ==> r.value.1 == w.wire[(e, n)].bundle && MovedTo(c, w, p, e, n, ephemeral, r.value.0))
  {
    hide Inv, BundleAt, ChainAt, ReceiveOnChain, Staged;
    RecvFacts(c, w, p);
    var s, e := w.Of(p), RecvEpoch(w.SendEpoch(p));
    WireHolds(c, w, e, n);
    forall i: nat | s.recvCounter <= i ensures (s.remote, i) !in s.skipped {
      AccountedFor(c, w, p, e, i);
    }
    ReceiveOnChainIff(c.k, s, w.epochs[e].chain, n);
    var r := Answer(c, w, p, e, n, ephemeral);
    if r.Ok? { StagedCount(c.k, s.skipped, r.value.0.skipped, s.remote, w.epochs[e].chain, s.recvCounter, n); }
  }

  lemma StagedCount(k: Kdf, before: SkippedKeys, after: SkippedKeys, q: Public, d: Key, from: nat, to: nat)
    requires Staged(k, before, after, q, d, from, to)
    ensures |after| == |before| + to - from
  {}

  lemma RecvFacts(c: Setup, w: World, p: Party)
    requires Inv(c, w)
    ensures |w.epochs| >= 2
    ensures var s, r := w.Of(p), RecvEpoch(w.SendEpoch(p));
      && r < |w.epochs| && r % 2 != Parity(p)
      && s.remote == Pub(c, w.epochs[r]) && s.recvChain == ChainAt(c.k, w.epochs[r].chain, s.recvCounter)
      && s.recvCounter <= w.epochs[r].sent <= MAX_COUNTER + 1 && |s.skipped| <= MAX_SKIPPED_TOTAL
  {
    hide SendSide, Accounted;
    PartyHolds(c, w, p);
    RecvEpochShape(w, p);
    assert w.epochs[RecvEpoch(w.SendEpoch(p))].sent <= MAX_COUNTER + 1;
  }

  lemma RecvEpochShape(w: World, p: Party)
    requires |w.epochs| >= 2
    ensures var r := RecvEpoch(w.SendEpoch(p)); r < |w.epochs| && r % 2 != Parity(p)
  {}

  /** Both sides of a DH step derive the same root and chain. */
  lemma DhStepAgrees(c: Setup, w: World, p: Party, e: nat)
    requires Lawful(c) && Inv(c, w)
    requires |w.epochs| >= 2 && e == RecvEpoch(w.SendEpoch(p)) + 2 < |w.epochs|
    ensures var s := w.Of(p);
      && c.k.derive64(s.root, c.k.dh(s.ourPrivate, Pub(c, w.epochs[e]))) == (w.epochs[e].root, w.epochs[e].chain)
      && s.remote != Pub(c, w.epochs[e]) && s.sendInitialized && PreviousLength(w.epochs, e) == w.epochs[e - 2].sent
  {
    hide OnWire, Accounted, RecvSide;
    RecvFacts(c, w, p);
    PartyHolds(c, w, p);
    EpochsInReach(w, p, e);
    var i := e - 1;
    assert w.SendEpoch(p) == i;
    assert c.k.dh(w.epochs[i].secret, Pub(c, w.epochs[e])) == c.k.dh(w.epochs[e].secret, Pub(c, w.epochs[i]));
    assert DhLink(c, w.epochs[i], w.epochs[i + 1]);
    assert Pub(c, w.epochs[e - 2]) != Pub(c, w.epochs[e]);
  }

  /** Nothing of an epoch not yet received from is in the cache. */
  lemma NothingCached(c: Setup, w: World, p: Party, e: nat)
    requires Inv(c, w) && |w.epochs| >= 2 && e < |w.epochs| && e % 2 != Parity(p)
    ensures var s, r := w.Of(p), RecvEpoch(w.SendEpoch(p));
      forall i: nat :: (if e == r then s.recvCounter <= i else e > r) ==> (Pub(c, w.epochs[e]), i) !in s.skipped
  {
    hide Inv;
    EpochsInReach(w, p, e);
    var s, r := w.Of(p), RecvEpoch(w.SendEpoch(p));
    forall i: nat | if e == r then s.recvCounter <= i else e > r ensures (Pub(c, w.epochs[e]), i) !in s.skipped {
      AccountedFor(c, w, p, e, i);
    }
  }

  lemma RatchetIff(c: Setup, w: World, p: Party, e: nat, header: Header, ephemeral: Private)
    requires Lawful(c) && Inv(c, w)
    requires |w.epochs| >= 2 && e == RecvEpoch(w.SendEpoch(p)) + 2 < |w.epochs| && e % 2 != Parity(p)
    requires header.dhPublicKey == Pub(c, w.epochs[e]) && header.prevChainLength == PreviousLength(w.epochs, e)
    ensures w.Of(p).recvCounter <= w.epochs[e - 2].sent
    ensures var s, t := w.Of(p), DhRatchet(c.k, w.Of(p), header, ephemeral);
      var rest := w.epochs[e - 2].sent - s.recvCounter;
      && (t.Ok? <==> rest <= MAX_SKIP && |s.skipped| + rest <= MAX_SKIPPED_TOTAL)
      && (!t.Ok? ==> t.TooManySkipped? || t.CacheFull?)
      && (t.Ok? ==> RatchetedTo(c, w, p, e, ephemeral, t.value))
  {
    hide Inv, ChainAt, StageTo, Staged;
    RecvFacts(c, w, p);
    var s, r := w.Of(p), e - 2;
    DhStepAgrees(c, w, p, e);
    NothingCached(c, w, p, r);
    StageToIff(c.k, s, w.epochs[r].chain, w.epochs[r].sent, MAX_SKIP);
  }

  /** After the DH step, before the message itself: at the start of the new epoch's chain. */
  ghost predicate RatchetedTo(c: Setup, w: World, p: Party, e: nat, ephemeral: Private, t: State)
    requires |w.epochs| >= 2 && 2 <= e < |w.epochs|
  {
    var s, k := w.Of(p), c.k;
    && t.remote == Pub(c, w.epochs[e]) && t.recvChain == w.epochs[e].chain && t.recvCounter == 0
    && Staged(k, s.skipped, t.skipped, s.remote, w.epochs[e - 2].chain, s.recvCounter, w.epochs[e - 2].sent)
    && t.ourPrivate == ephemeral && t.ourPublic == k.publicOf(ephemeral) && t.sendInitialized
    && t.prevSendChainLength == s.sendCounter && t.sendCounter == 0
    && (t.root, t.sendChain) == k.derive64(w.epochs[e].root, k.dh(ephemeral, Pub(c, w.epochs[e])))
  }

  /** The first message to arrive from the peer's next epoch. */
  lemma NextEpochMessage(c: Setup, w: World, p: Party, e: nat, n: nat, ephemeral: Private)
    requires Lawful(c) && Inv(c, w) && (e, n) in w.wire && e % 2 != Parity(p)
    requires |w.epochs| >= 2 && RecvEpoch(w.SendEpoch(p)) < e < |w.epochs|
    ensures var r := Answer(c, w, p, e, n, ephemeral);
      && (r.Ok? <==> Fits(w, p, e, n)) && (!r.Ok? ==> r.TooManySkipped? || r.CacheFull?)
      && (r.Ok? ==> r.value.1 == w.wire[(e, n)].bundle && MovedTo(c, w, p, e, n, ephemeral, r.value.0))
  {
    hide Inv, BundleAt, ReceiveOnChain, DhRatchet, Staged;
    WireHolds(c, w, e, n);
    EpochsInReach(w, p, e);
    NothingCached(c, w, p, e);
    DhStepAgrees(c, w, p, e);
    var s, header := w.Of(p), w.wire[(e, n)].header;
    RatchetIff(c, w, p, e, header, ephemeral);
    var ratcheted := DhRatchet(c.k, s, header, ephemeral);
    if ratcheted.Ok? {
      var t := ratcheted.value;
      StagedCount(c.k, s.skipped, t.skipped, s.remote, w.epochs[e - 2].chain, s.recvCounter, w.epochs[e - 2].sent);
      StillNotCached(c, w, p, e, t.skipped);
      ReceiveOnChainIff(c.k, t, w.epochs[e].chain, n);
      var r := ReceiveOnChain(c.k, t, n);
      if r.Ok? { StagedCount(c.k, t.skipped, r.value.0.skipped, t.remote, w.epochs[e].chain, 0, n); }
    }
  }

  lemma StillNotCached(c: Setup, w: World, p: Party, e: nat, mid: SkippedKeys)
    requires Inv(c, w) && |w.epochs| >= 2 && RecvEpoch(w.SendEpoch(p)) + 2 == e < |w.epochs| && e % 2 != Parity(p)
    requires w.Of(p).recvCounter <= w.epochs[e - 2].sent
    requires Staged(c.k, w.Of(p).skipped, mid, w.Of(p).remote, w.epochs[e - 2].chain, w.Of(p).recvCounter, w.epochs[e - 2].sent)
    requires w.Of(p).remote != Pub(c, w.epochs[e])
    ensures forall i: nat :: (Pub(c, w.epochs[e]), i) !in mid
  {
    hide Inv;
    NothingCached(c, w, p, e);
  }

  /** A message already received is never accepted again. */
  lemma ReplayRefused(c: Setup, w: World, p: Party, e: nat, n: nat, ephemeral: Private)
    requires Lawful(c) && Inv(c, w) && (e, n) in w.wire && e % 2 != Parity(p) && (e, n) in w.received
    ensures !Accepts(c, w, p, e, n, ephemeral)
  {
    hide Inv, BundleAt, ChainAt, DhRatchet, ReceiveOnChain;
    RecvFacts(c, w, p);
    WireHolds(c, w, e, n);
    AccountedFor(c, w, p, e, n);
    var s, r := w.Of(p), RecvEpoch(w.SendEpoch(p));
    if e == r {
      PastMessage(c.k, s, n);
    } else {
      OldEpochOtherKey(c, w, p, e, n, ephemeral);
    }
  }

  lemma PastMessage(k: Kdf, s: State, n: nat)
    requires n < s.recvCounter
    ensures ReceiveOnChain(k, s, n) == Duplicate
  {}

  /** An old epoch's public key makes the code take a DH step it should not, to a chain that is no epoch's. */
  lemma OldEpochOtherKey(c: Setup, w: World, p: Party, e: nat, n: nat, ephemeral: Private)
    requires Lawful(c) && Inv(c, w) && (e, n) in w.wire && e % 2 != Parity(p) && (e, n) in w.received
    requires |w.epochs| >= 2 && e < RecvEpoch(w.SendEpoch(p))
    ensures !Accepts(c, w, p, e, n, ephemeral)
  {
    hide Inv, BundleAt, ChainAt, ReceiveOnChain, StageTo, Chained, OnWire;
    RecvFacts(c, w, p);
    WireHolds(c, w, e, n);
    AccountedFor(c, w, p, e, n);
    var s, header := w.Of(p), w.wire[(e, n)].header;
    PositiveEpoch(c, w, e, n);
    OldEpochFacts(c, w, p, e);
    var ratcheted := DhRatchet(c.k, s, header, ephemeral);
    if ratcheted.Ok? {
      var t := ratcheted.value;
      StageToKeeps(c.k, s, w.epochs[RecvEpoch(w.SendEpoch(p))].chain, header.prevChainLength, MAX_SKIP);
      var chain := c.k.derive64(s.root, c.k.dh(s.ourPrivate, header.dhPublicKey)).1;
      assert t.recvChain == ChainAt(c.k, chain, 0) by { ChainStart(c.k, chain); }
      var r := ReceiveOnChain(c.k, t, n);
      if r.Ok? && r.value.1 == BundleAt(c.k, w.epochs[e].chain, n) {
        ReceivedKey(c.k, t, chain, n);
        BundleFixesChain(c.k, chain, w.epochs[e].chain, n);
        assert false;
      }
    }
  }

  lemma PositiveEpoch(c: Setup, w: World, e: nat, n: nat)
    requires Inv(c, w) && (e, n) in w.wire
    ensures e > 0
  {}

  lemma ChainStart(k: Kdf, c: Key)
    ensures ChainAt(k, c, 0) == c
  {}

  lemma OldEpochFacts(c: Setup, w: World, p: Party, e: nat)
    requires Lawful(c) && Inv(c, w)
    requires |w.epochs| >= 2 && 0 < e < RecvEpoch(w.SendEpoch(p)) && e % 2 != Parity(p)
    ensures w.Of(p).remote != Pub(c, w.epochs[e])
    ensures forall x :: c.k.derive64(w.Of(p).root, x).1 != w.epochs[e].chain
  {
    hide Accounted, OnWire;
    RecvFacts(c, w, p);
    PartyHolds(c, w, p);
    var at, r := w.SendEpoch(p), RecvEpoch(w.SendEpoch(p));
    assert r == at - 1 && w.Of(p).root == w.epochs[at].root;
    assert Pub(c, w.epochs[e]) != Pub(c, w.epochs[r]);
    if e > 1 {
      var i := e - 1;
      assert DhLink(c, w.epochs[i], w.epochs[i + 1]);
      assert w.epochs[i].root != w.epochs[at].root;
    }
  }
}
