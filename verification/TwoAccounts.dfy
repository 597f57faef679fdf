/**
 * Two accounts that write to each other over one server.
 *
 * Each runs the messaging protocol on its own device, with crashes, retries and delays; the
 * rows one has accepted are what the other syncs. Beside them runs the conversation of their
 * two ratchets. The two stories are proved to agree in every run, so what is known of the
 * ratchets says exactly which rows open, and to what.
 */
module TwoAccounts {
  import opened Basics
  import opened RatchetCodec
  import opened LocalStore
  import opened MessageServer
  import opened Runs
  import opened MessagingProtocol
  import opened MessagingSafety
  import opened MessageOpening
  import opened CodecRatchet
  import R = RatchetConversation
  import D = RatchetDelivery
  import DoubleRatchet

  type Name = (nat, nat)

  /** What one of the two brings along. */
  datatype Side = Side(userId: string, identity: string, start: (string, string) -> SessionState,
                       draw: nat -> DoubleRatchet.Private, zeroAgreement: string -> bool)

  datatype Parties = Parties(setup: R.Setup, cipher: Cipher, conversation: string, initiator: Side, responder: Side) {
    function Of(p: R.Party): Side { if p.Initiator? then initiator else responder }

    function CipherOf(p: R.Party): Cipher {
      cipher.(start := Of(p).start, draw := Of(p).draw, zeroAgreement := Of(p).zeroAgreement)
    }

    function AccountOf(p: R.Party): Account { Account(RatchetSuite(setup.k, CipherOf(p)), Of(p).userId) }

    function PeerKey(p: R.Party): string { Of(Other(p)).identity }

    /** Both derive the same secret and take their parts in the session, and the cipher is authenticated. */
    ghost predicate Agreed() {
      && R.Lawful(setup) && Authenticated(RatchetSuite(setup.k, cipher)) && Encodings(cipher.utf8, cipher.headerBytes)
      && initiator.userId != responder.userId && initiator.userId != ME && responder.userId != ME
      && (forall p :: ValidIdentity(Of(p).identity) && !Of(p).zeroAgreement(PeerKey(p)))
      && (forall p :: Of(p).start(conversation, PeerKey(p)) == R.Start(setup).Of(p))
    }
  }

  function Other(p: R.Party): R.Party { if p.Initiator? then R.Responder else R.Initiator }

  /** Both devices and the server's table as each sees it, the ratchets, and which ratchet message each message id is. */
  datatype Pair = Pair(initiator: World, responder: World, ratchets: R.World, sentAs: map<string, Name>)
  {
    function Of(p: R.Party): World { if p.Initiator? then initiator else responder }

    function With(p: R.Party, w: World): Pair { if p.Initiator? then this.(initiator := w) else this.(responder := w) }
  }

  datatype Move = Move(p: R.Party, step: Step)

  function StartOf(x: Parties): Pair { Pair(EMPTY, EMPTY, R.Start(x.setup), map[]) }

  /** The name of the next message of a party. */
  function NextName(r: R.World, p: R.Party): Name
    requires |r.epochs| >= 2
  {
    (if r.Of(p).sendInitialized then r.SendEpoch(p) else |r.epochs|, r.Of(p).sendCounter)
  }

  /** Each commits to and receives from the other; the ids are fresh for both, and no random key pair comes twice. */
  ghost predicate Enables(x: Parties, v: Pair, move: Move) {
    var p, account := move.p, x.AccountOf(move.p);
    && Enabled(account, v.Of(p), move.step)
    && match move.step
       case CommitOutgoing(m, peerKey, seed) =>
         && m.conversation == x.conversation && peerKey == x.PeerKey(p) && m.id !in v.sentAs
         && |v.ratchets.epochs| >= 2
         && R.Distinct(x.setup, R.AfterSend(x.setup, v.ratchets, p, x.Of(p).draw(seed)).epochs)
       case CommitReceived(row, m, peerKey, seed) =>
         && peerKey == x.PeerKey(p)
         && (row.id in v.sentAs && v.sentAs[row.id] in v.ratchets.wire ==>
               var at := v.sentAs[row.id];
               R.Distinct(x.setup, R.AfterDeliver(x.setup, v.ratchets, p, at.0, at.1, x.Of(p).draw(seed)).epochs))
       case PeerPost(_) => false
       case _ => true
  }

  /** The other side's table is the same table. */
  function Arrived(w: World, row: Row): World { w.(rows := w.rows + [row]) }

  ghost function After(x: Parties, v: Pair, move: Move): Pair
    requires Enables(x, v, move)
  {
    var p := move.p;
    var moved := v.With(p, Next(x.AccountOf(p), v.Of(p), move.step));
    match move.step
    case CommitOutgoing(m, _, seed) =>
      moved.(ratchets := R.AfterSend(x.setup, v.ratchets, p, x.Of(p).draw(seed)),
             sentAs := v.sentAs[m.id := NextName(v.ratchets, p)])
    case CommitReceived(row, _, _, seed) =>
      if row.id in v.sentAs && v.sentAs[row.id] in v.ratchets.wire then
        var at := v.sentAs[row.id];
        moved.(ratchets := R.AfterDeliver(x.setup, v.ratchets, p, at.0, at.1, x.Of(p).draw(seed)))
      else moved
    case Accept(t, sentAt) =>
      moved.With(Other(p), Arrived(v.Of(Other(p)), Row(t.id, t.conversation, x.Of(p).userId, t.content, sentAt)))
    case _ => moved
  }

  ghost function Correspondence(x: Parties): Machine<Pair, Move> {
    Machine((v: Pair, move: Move) => Enables(x, v, move),
            (v: Pair, move: Move) => if Enables(x, v, move) then After(x, v, move) else v)
  }

  /** The two can get there. */
  ghost predicate Reached(x: Parties, v: Pair) { exists moves :: Run(Correspondence(x), StartOf(x), moves, v) }

  // ---- The invariant

  function SealedFor(x: Parties, p: R.Party, sent: R.Sent, id: string, payload: Payload): Envelope {
    Sealed(x.cipher, sent, x.conversation, id, x.Of(p).userId, payload)
  }

  /** A committed message of p is a message of p's ratchet, sealed with its key. */
  ghost predicate SentOk(x: Parties, p: R.Party, w: World, r: R.World, sentAs: map<string, Name>, id: string) {
    && id in w.outgoing && id in w.db.messages && id in sentAs && sentAs[id] in r.wire && sentAs[id].0 % 2 == R.Parity(p)
    && w.outgoing[id].conversation == x.conversation
    && w.outgoing[id].envelope == SealedFor(x, p, r.wire[sentAs[id]], id, w.db.messages[id].payload)
  }

  ghost predicate AllSent(x: Parties, p: R.Party, w: World, r: R.World, sentAs: map<string, Name>) {
    forall id <- w.outgoing :: SentOk(x, p, w, r, sentAs, id)
  }

  /** Ids and names match one to one, and every id is a message of one of the two. */
  ghost predicate NamesOk(v: Pair) {
    && (forall at <- v.ratchets.wire :: exists id <- v.sentAs :: v.sentAs[id] == at)
    && (forall id <- v.sentAs :: id in v.initiator.outgoing || id in v.responder.outgoing)
    && (forall id <- v.sentAs, id' <- v.sentAs :: v.sentAs[id] == v.sentAs[id'] ==> id == id')
  }

  /** What p has received is what its ratchet has, and each has the payload its sender committed. */
  ghost predicate ReceivedOk(w: World, sender: World, r: R.World, sentAs: map<string, Name>) {
    && (forall id <- sender.outgoing :: id in sentAs ==> (sentAs[id] in r.received <==> id in w.incoming))
    && (forall id <- w.incoming :: id in sender.outgoing && id in w.db.messages && id in sender.db.messages
          && w.db.messages[id].payload == sender.db.messages[id].payload)
  }

  ghost predicate RowsOfBoth(x: Parties, rows: seq<Row>) {
    forall r <- rows :: r.sender == x.initiator.userId || r.sender == x.responder.userId
  }

  ghost predicate PartyOk(x: Parties, v: Pair, p: R.Party) {
    var w, q := v.Of(p), Other(p);
    && Inv(x.AccountOf(p), w)
    && StateInUse(x.AccountOf(p).suite, w.db.kv, x.conversation, x.PeerKey(p)) == Some(v.ratchets.Of(p))
    && AllSent(x, p, w, v.ratchets, v.sentAs)
    && ReceivedOk(w, v.Of(q), v.ratchets, v.sentAs)
  }

  ghost predicate PairInv(x: Parties, v: Pair) {
    && R.Inv(x.setup, v.ratchets)
    && v.initiator.rows == v.responder.rows && RowsOfBoth(x, v.initiator.rows)
    && NamesOk(v)
    && forall p :: PartyOk(x, v, p)
  }

  lemma StartHolds(x: Parties)
    requires x.Agreed()
    ensures PairInv(x, StartOf(x))
  {
    var v := StartOf(x);
    hide R.Inv, R.Start, Inv;
    D.StartInv(x.setup);
    NothingAtStart(x.setup);
    forall p ensures PartyOk(x, v, p) {
      EmptyInv(x.AccountOf(p));
      assert v.Of(p) == EMPTY;
      FirstState(x, p);
    }
  }

  lemma NothingAtStart(c: R.Setup)
    ensures R.Start(c).wire == map[] && R.Start(c).received == {}
  {}

  lemma FirstState(x: Parties, p: R.Party)
    requires x.Agreed()
    ensures StateInUse(x.AccountOf(p).suite, map[], x.conversation, x.PeerKey(p)) == Some(R.Start(x.setup).Of(p))
  {
    assert ValidIdentity(x.Of(Other(p)).identity) && !x.Of(p).zeroAgreement(x.PeerKey(p));
    assert x.Of(p).start(x.conversation, x.PeerKey(p)) == R.Start(x.setup).Of(p);
  }

  // ---- Every move keeps it

  /** More ratchet messages, more ids and other marks on a message leave what was sent as it is. */
  lemma AllSentStays(x: Parties, p: R.Party, w: World, w': World, r: R.World, r': R.World,
                     sentAs: map<string, Name>, sentAs': map<string, Name>)
    requires AllSent(x, p, w, r, sentAs) && w'.outgoing == w.outgoing
    requires forall id <- w.db.messages :: id in w'.db.messages && w'.db.messages[id].payload == w.db.messages[id].payload
    requires forall at <- r.wire :: at in r'.wire && r'.wire[at] == r.wire[at]
    requires forall id <- sentAs :: id in sentAs' && sentAs'[id] == sentAs[id]
    ensures AllSent(x, p, w', r', sentAs')
  {
    hide SealedFor;
    forall id <- w'.outgoing ensures SentOk(x, p, w', r', sentAs', id) { assert SentOk(x, p, w, r, sentAs, id); }
  }

  /** Nothing is sent or received: only marks, transmissions and rows. */
  ghost predicate Quiet(w: World, w': World) {
    && w'.outgoing == w.outgoing && w'.incoming == w.incoming && w'.sessions == w.sessions
    && w'.db.messages.Keys == w.db.messages.Keys
    && forall id <- w.db.messages :: w'.db.messages[id].payload == w.db.messages[id].payload
  }

  lemma QuietKeeps(x: Parties, v: Pair, v': Pair, p: R.Party)
    requires PairInv(x, v) && v'.ratchets == v.ratchets && v'.sentAs == v.sentAs
    requires Quiet(v.Of(p), v'.Of(p)) && Inv(x.AccountOf(p), v'.Of(p))
    requires Quiet(v.Of(Other(p)), v'.Of(Other(p))) && Inv(x.AccountOf(Other(p)), v'.Of(Other(p)))
    requires v'.Of(p).rows == v'.Of(Other(p)).rows && RowsOfBoth(x, v'.Of(p).rows)
    ensures PairInv(x, v')
  {
    hide *;
    var q := Other(p);
    OtherTwice(p);
    PairParts(x, v);
    QuietNames(v, v', p);
    QuietParty(x, v, v', p);
    QuietParty(x, v, v', q);
    PairWhole(x, v', p);
  }

  lemma OtherTwice(p: R.Party)
    ensures Other(Other(p)) == p
  {}

  lemma QuietNames(v: Pair, v': Pair, p: R.Party)
    requires NamesOk(v) && v'.ratchets == v.ratchets && v'.sentAs == v.sentAs
    requires Quiet(v.Of(p), v'.Of(p)) && Quiet(v.Of(Other(p)), v'.Of(Other(p)))
    ensures NamesOk(v')
  {}

  lemma QuietParty(x: Parties, v: Pair, v': Pair, p: R.Party)
    requires PairInv(x, v) && v'.ratchets == v.ratchets && v'.sentAs == v.sentAs && Inv(x.AccountOf(p), v'.Of(p))
    requires Quiet(v.Of(p), v'.Of(p)) && Quiet(v.Of(Other(p)), v'.Of(Other(p)))
    ensures StateInUse(x.AccountOf(p).suite, v'.Of(p).db.kv, x.conversation, x.PeerKey(p)) == Some(v'.ratchets.Of(p))
    ensures AllSent(x, p, v'.Of(p), v'.ratchets, v'.sentAs)
    ensures ReceivedOk(v'.Of(p), v'.Of(Other(p)), v'.ratchets, v'.sentAs)
  {
    hide PairInv, Inv, AllSent, StateInUse;
    var w, w' := v.Of(p), v'.Of(p);
    PartyParts(x, v, p);
    AllSentStays(x, p, w, w', v.ratchets, v.ratchets, v.sentAs, v.sentAs);
    SameSessionSameState(x.AccountOf(p), w, w', x.conversation, x.PeerKey(p));
  }

  lemma QuietStep(a: Account, w: World, step: Step)
    requires Inv(a, w) && Enabled(a, w, step) && (step.Transmit? || step.MarkSent? || step.Receipt? || step.Accept?)
    ensures Quiet(w, Next(a, w, step))
    ensures step.Accept? || Next(a, w, step).rows == w.rows
  {
    hide Inv, StoredAs, LoadOutbox;
    if step.MarkSent? || step.Receipt? { OwnKeyed(a, w, step.id); }
  }

  lemma MarkKeeps(x: Parties, v: Pair, move: Move)
    requires PairInv(x, v) && Enables(x, v, move) && (move.step.Transmit? || move.step.MarkSent? || move.step.Receipt?)
    ensures PairInv(x, After(x, v, move))
  {
    hide *;
    var p, q, v' := move.p, Other(move.p), After(x, v, move);
    MarkEnabled(x, v, move);
    PairParts(x, v);
    PartyParts(x, v, p);
    PartyParts(x, v, q);
    StepKeepsInv(x.AccountOf(p), v.Of(p), move.step);
    QuietStep(x.AccountOf(p), v.Of(p), move.step);
    QuietNothing(v.Of(q));
    QuietKeeps(x, v, v', p);
  }

  lemma MarkEnabled(x: Parties, v: Pair, move: Move)
    requires Enables(x, v, move) && (move.step.Transmit? || move.step.MarkSent? || move.step.Receipt?)
    ensures var p, v' := move.p, After(x, v, move);
      && Enabled(x.AccountOf(p), v.Of(p), move.step) && v'.Of(p) == Next(x.AccountOf(p), v.Of(p), move.step)
      && v'.Of(Other(p)) == v.Of(Other(p)) && v'.ratchets == v.ratchets && v'.sentAs == v.sentAs
  {
    hide Enabled, Next, RatchetSuite;
  }

  lemma QuietNothing(w: World)
    ensures Quiet(w, w)
  {}

  /** A row that one side's request stores is, for the other, one the other side posted. */
  lemma AcceptPosts(x: Parties, v: Pair, p: R.Party, t: Transmission, sentAt: int)
    requires x.Agreed() && PairInv(x, v) && Enabled(x.AccountOf(p), v.Of(p), Accept(t, sentAt))
    ensures Enabled(x.AccountOf(Other(p)), v.Of(Other(p)), PeerPost(Row(t.id, t.conversation, x.Of(p).userId, t.content, sentAt)))
  {
    hide *;
    OtherTwice(p);
    PairParts(x, v);
    PartyParts(x, v, p);
    TransmittedIsCommitted(x.AccountOf(p), v.Of(p), t, sentAt);
    NotBoth(x, v, p, t.id);
    TwoUsers(x, p);
    PostEnabled(x.AccountOf(p), v.Of(p), x.AccountOf(Other(p)), v.Of(Other(p)), t, sentAt);
  }

  lemma TwoUsers(x: Parties, p: R.Party)
    requires x.Agreed()
    ensures x.Of(p).userId == x.AccountOf(p).userId != x.AccountOf(Other(p)).userId && x.Of(p).userId != ME
  {
    hide RatchetSuite;
  }

  lemma TransmittedIsCommitted(a: Account, w: World, t: Transmission, sentAt: int)
    requires Inv(a, w) && Enabled(a, w, Accept(t, sentAt))
    ensures t.id in w.outgoing
  {
    WireIsCommitted(a, w, t);
  }

  lemma PostEnabled(a: Account, w: World, b: Account, u: World, t: Transmission, sentAt: int)
    requires Enabled(a, w, Accept(t, sentAt)) && u.rows == w.rows && t.id !in u.outgoing
    requires a.userId != b.userId && a.userId != ME
    ensures Enabled(b, u, PeerPost(Row(t.id, t.conversation, a.userId, t.content, sentAt)))
  {}

  lemma AcceptKeeps(x: Parties, v: Pair, move: Move)
    requires x.Agreed() && PairInv(x, v) && Enables(x, v, move) && move.step.Accept?
    ensures PairInv(x, After(x, v, move))
  {
    hide *;
    var p, q, t, v' := move.p, Other(move.p), move.step.transmission, After(x, v, move);
    var row := Row(t.id, t.conversation, x.Of(p).userId, t.content, move.step.sentAt);
    AcceptEnabled(x, v, move);
    AcceptPosts(x, v, p, t, move.step.sentAt);
    PairParts(x, v);
    PartyParts(x, v, p);
    PartyParts(x, v, q);
    StepKeepsInv(x.AccountOf(p), v.Of(p), move.step);
    StepKeepsInv(x.AccountOf(q), v.Of(q), PeerPost(row));
    AcceptShape(x.AccountOf(p), v.Of(p), x.AccountOf(q), v.Of(q), t, move.step.sentAt, row);
    RowsGrow(x, v.initiator.rows, p, row);
    QuietKeeps(x, v, v', p);
  }

  lemma AcceptEnabled(x: Parties, v: Pair, move: Move)
    requires Enables(x, v, move) && move.step.Accept?
    ensures var p, t, v' := move.p, move.step.transmission, After(x, v, move);
      && Enabled(x.AccountOf(p), v.Of(p), move.step) && v'.Of(p) == Next(x.AccountOf(p), v.Of(p), move.step)
      && v'.Of(Other(p)) == Arrived(v.Of(Other(p)), Row(t.id, t.conversation, x.Of(p).userId, t.content, move.step.sentAt))
      && v'.ratchets == v.ratchets && v'.sentAs == v.sentAs && x.AccountOf(p).userId == x.Of(p).userId
  {
    hide Enabled, Next, RatchetSuite;
  }

  lemma AcceptShape(a: Account, w: World, b: Account, u: World, t: Transmission, sentAt: int, row: Row)
    requires Enabled(a, w, Accept(t, sentAt)) && row == Row(t.id, t.conversation, a.userId, t.content, sentAt)
    requires Enabled(b, u, PeerPost(row))
    ensures var w' := Next(a, w, Accept(t, sentAt)); Quiet(w, w') && w'.rows == w.rows + [row]
    ensures Next(b, u, PeerPost(row)) == Arrived(u, row) && Quiet(u, Arrived(u, row)) && Arrived(u, row).rows == u.rows + [row]
  {}

  lemma RowsGrow(x: Parties, rows: seq<Row>, p: R.Party, row: Row)
    requires RowsOfBoth(x, rows) && row.sender == x.Of(p).userId
    ensures RowsOfBoth(x, rows + [row])
  {}

  /** No message is of both. */
  lemma NotBoth(x: Parties, v: Pair, p: R.Party, id: string)
    requires PairInv(x, v) && id in v.Of(p).outgoing
    ensures id !in v.Of(Other(p)).outgoing
  {
    hide Inv, R.Inv, SealedFor, StateInUse, ReceivedOk, NamesOk;
    var q := Other(p);
    assert PartyOk(x, v, p) && PartyOk(x, v, q);
    assert SentOk(x, p, v.Of(p), v.ratchets, v.sentAs, id);
    if id in v.Of(q).outgoing && !SentOk(x, q, v.Of(q), v.ratchets, v.sentAs, id) { assert false; }
  }

  // ---- Committing an outgoing message

  /** What the commit of an outgoing message does to the account's world. */
  lemma CommitShape(a: Account, w: World, m: Message, peerKey: string, seed: nat)
    requires Inv(a, w) && Enabled(a, w, CommitOutgoing(m, peerKey, seed)) && ValidIdentity(peerKey)
    ensures var w', from := Next(a, w, CommitOutgoing(m, peerKey, seed)), StateInUse(a.suite, w.db.kv, m.conversation, peerKey);
      && from.Some? && Encrypt(a.suite, from.value, m.conversation, m.id, a.userId, m.payload, seed).Some?
      && var (next, envelope) := Encrypt(a.suite, from.value, m.conversation, m.id, a.userId, m.payload, seed).value;
      && Inv(a, w') && w'.rows == w.rows && w'.incoming == w.incoming && w'.db.messages == w.db.messages[m.id := m]
      && m.id !in w.db.messages && m.id !in w.incoming && m.id !in w.outgoing
      && m.id in w'.outgoing && w'.outgoing[m.id].conversation == m.conversation && w'.outgoing[m.id].envelope == envelope
      && w'.outgoing == w.outgoing[m.id := w'.outgoing[m.id]]
      && StateInUse(a.suite, w'.db.kv, m.conversation, peerKey) == Some(next)
  {
    hide Inv, Encrypt;
    StepKeepsInv(a, w, CommitOutgoing(m, peerKey, seed));
    CommittedIdsAreStored(a, w, m.id);
    OutboxKeysAreNotSessionKeys(m.id, m.conversation, peerKey);
  }

  /** What the ratchets' conversation does at the same time. */
  lemma RatchetSends(x: Parties, r: R.World, p: R.Party, id: string, payload: Payload, seed: nat)
    requires x.Agreed() && R.Inv(x.setup, r) && |r.epochs| >= 2
    requires Encrypt(x.AccountOf(p).suite, r.Of(p), x.conversation, id, x.Of(p).userId, payload, seed).Some?
    ensures var (next, envelope) := Encrypt(x.AccountOf(p).suite, r.Of(p), x.conversation, id, x.Of(p).userId, payload, seed).value;
      var r', name := R.AfterSend(x.setup, r, p, x.Of(p).draw(seed)), NextName(r, p);
      && r'.Of(p) == next && r'.Of(Other(p)) == r.Of(Other(p)) && r'.received == r.received
      && name !in r.wire && name !in r.received && name.0 % 2 == R.Parity(p)
      && name in r'.wire && r'.wire == r.wire[name := r'.wire[name]]
      && envelope == SealedFor(x, p, r'.wire[name], id, payload)
  {
    hide *;
    NameIsNew(x.setup, r, p);
    SealsAsSent(x, p, r.Of(p), id, payload, seed);
    AfterSendShape(x.setup, r, p, x.Of(p).draw(seed));
  }

  /** The envelope is the ratchet's message, sealed. */
  lemma SealsAsSent(x: Parties, p: R.Party, s: SessionState, id: string, payload: Payload, seed: nat)
    requires Encrypt(x.AccountOf(p).suite, s, x.conversation, id, x.Of(p).userId, payload, seed).Some?
    ensures var (next, envelope) := Encrypt(x.AccountOf(p).suite, s, x.conversation, id, x.Of(p).userId, payload, seed).value;
      var sent := DoubleRatchet.Encrypted(x.setup.k, s, x.Of(p).draw(seed));
      && sent.Ok? && sent.value.0 == next
      && envelope == SealedFor(x, p, R.Sent(sent.value.1, sent.value.2), id, payload)
  {
    hide DoubleRatchet.Encrypted, MetadataBytes;
  }

  lemma AfterSendShape(c: R.Setup, r: R.World, p: R.Party, ephemeral: DoubleRatchet.Private)
    requires |r.epochs| >= 2 && DoubleRatchet.Encrypted(c.k, r.Of(p), ephemeral).Ok?
    ensures var r', name := R.AfterSend(c, r, p, ephemeral), NextName(r, p);
      var sent := DoubleRatchet.Encrypted(c.k, r.Of(p), ephemeral).value;
      && r'.Of(p) == sent.0 && r'.Of(Other(p)) == r.Of(Other(p)) && r'.received == r.received
      && r'.wire == r.wire[name := R.Sent(sent.1, sent.2)]
  {}

  lemma NameIsNew(c: R.Setup, r: R.World, p: R.Party)
    requires R.Inv(c, r) && |r.epochs| >= 2
    ensures var name := NextName(r, p); name !in r.wire && name !in r.received && name.0 % 2 == R.Parity(p)
  {
    hide R.Chained, R.RecvSide;
    R.PartyHolds(c, r, p);
  }

  lemma CommitKeeps(x: Parties, v: Pair, move: Move)
    requires x.Agreed() && PairInv(x, v) && Enables(x, v, move) && move.step.CommitOutgoing?
    ensures PairInv(x, After(x, v, move))
  {
    hide *;
    var p, q, m, seed, v' := move.p, Other(move.p), move.step.message, move.step.seed, After(x, v, move);
    CommitEnabled(x, v, move);
    PairParts(x, v);
    PartyParts(x, v, p);
    PartyParts(x, v, q);
    PeerIsValid(x, p);
    var name := NextName(v.ratchets, p);
    CommitShape(x.AccountOf(p), v.Of(p), m, x.PeerKey(p), seed);
    RatchetSends(x, v.ratchets, p, m.id, m.payload, seed);
    D.AfterSendInv(x.setup, v.ratchets, p, x.Of(p).draw(seed));
    NamesOnWire(x, v);
    NamesGrow(v, v', p, m.id, name);
    SentGrows(x, p, v.Of(p), v'.Of(p), v.ratchets, v'.ratchets, v.sentAs, m, name);
    AllSentStays(x, q, v.Of(q), v'.Of(q), v.ratchets, v'.ratchets, v.sentAs, v'.sentAs);
    ReceiverWaits(v.Of(q), v.Of(p), v'.Of(p), v.ratchets, v'.ratchets, v.sentAs, m, name);
    SenderReceivesNothing(x, q, v.Of(p), v'.Of(p), v.Of(q), v.ratchets, v'.ratchets, v.sentAs, m, name);
    PairWhole(x, v', p);
  }

  /** What a commit is enabled by and leads to. */
  lemma CommitEnabled(x: Parties, v: Pair, move: Move)
    requires Enables(x, v, move) && move.step.CommitOutgoing?
    ensures var p, m, seed, v' := move.p, move.step.message, move.step.seed, After(x, v, move);
      && Enabled(x.AccountOf(p), v.Of(p), CommitOutgoing(m, x.PeerKey(p), seed))
      && m.conversation == x.conversation && m.id !in v.sentAs && |v.ratchets.epochs| >= 2
      && R.Distinct(x.setup, R.AfterSend(x.setup, v.ratchets, p, x.Of(p).draw(seed)).epochs)
      && v'.Of(p) == Next(x.AccountOf(p), v.Of(p), CommitOutgoing(m, x.PeerKey(p), seed)) && v'.Of(Other(p)) == v.Of(Other(p))
      && v'.ratchets == R.AfterSend(x.setup, v.ratchets, p, x.Of(p).draw(seed))
      && v'.sentAs == v.sentAs[m.id := NextName(v.ratchets, p)]
      && x.AccountOf(p).userId == x.Of(p).userId && Other(Other(p)) == p
  {
    hide Enabled, Next, R.AfterSend, R.Distinct, RatchetSuite;
  }

  lemma PairParts(x: Parties, v: Pair)
    requires PairInv(x, v)
    ensures R.Inv(x.setup, v.ratchets) && NamesOk(v)
    ensures forall p :: v.Of(p).rows == v.initiator.rows
    ensures RowsOfBoth(x, v.initiator.rows)
  {
    hide R.Inv, NamesOk, RowsOfBoth, PartyOk;
  }

  lemma PartyParts(x: Parties, v: Pair, p: R.Party)
    requires PairInv(x, v)
    ensures Inv(x.AccountOf(p), v.Of(p))
    ensures StateInUse(x.AccountOf(p).suite, v.Of(p).db.kv, x.conversation, x.PeerKey(p)) == Some(v.ratchets.Of(p))
    ensures AllSent(x, p, v.Of(p), v.ratchets, v.sentAs)
    ensures ReceivedOk(v.Of(p), v.Of(Other(p)), v.ratchets, v.sentAs)
  {
    hide R.Inv, NamesOk, RowsOfBoth, Inv, StateInUse, AllSent, ReceivedOk;
    assert PartyOk(x, v, p);
  }

  /** The parts of the invariant, put together; `p` is one of the two. */
  lemma PairWhole(x: Parties, v: Pair, p: R.Party)
    requires R.Inv(x.setup, v.ratchets) && NamesOk(v)
    requires v.Of(p).rows == v.Of(Other(p)).rows && RowsOfBoth(x, v.Of(p).rows)
    requires Inv(x.AccountOf(p), v.Of(p)) && Inv(x.AccountOf(Other(p)), v.Of(Other(p)))
    requires StateInUse(x.AccountOf(p).suite, v.Of(p).db.kv, x.conversation, x.PeerKey(p)) == Some(v.ratchets.Of(p))
    requires StateInUse(x.AccountOf(Other(p)).suite, v.Of(Other(p)).db.kv, x.conversation, x.PeerKey(Other(p)))
      == Some(v.ratchets.Of(Other(p)))
    requires AllSent(x, p, v.Of(p), v.ratchets, v.sentAs) && AllSent(x, Other(p), v.Of(Other(p)), v.ratchets, v.sentAs)
    requires ReceivedOk(v.Of(p), v.Of(Other(p)), v.ratchets, v.sentAs)
    requires ReceivedOk(v.Of(Other(p)), v.Of(p), v.ratchets, v.sentAs)
    ensures PairInv(x, v)
  {
    hide R.Inv, NamesOk, RowsOfBoth, Inv, StateInUse, AllSent, ReceivedOk;
    forall z ensures PartyOk(x, v, z) { assert z == p || z == Other(p); }
  }

  lemma PeerIsValid(x: Parties, p: R.Party)
    requires x.Agreed()
    ensures ValidIdentity(x.PeerKey(p))
  {}

  lemma NamesGrow(v: Pair, v': Pair, p: R.Party, id: string, name: Name)
    requires NamesOk(v) && v'.sentAs == v.sentAs[id := name] && id !in v.sentAs && name !in v.ratchets.wire
    requires v'.Of(Other(p)) == v.Of(Other(p)) && v'.Of(p).outgoing.Keys == v.Of(p).outgoing.Keys + {id}
    requires v'.ratchets.wire.Keys == v.ratchets.wire.Keys + {name}
    requires forall other <- v.sentAs :: v.sentAs[other] in v.ratchets.wire
    ensures NamesOk(v')
  {
    forall at <- v'.ratchets.wire ensures exists other <- v'.sentAs :: v'.sentAs[other] == at { NameFound(v, v', id, name, at); }
    forall other <- v'.sentAs ensures other in v'.initiator.outgoing || other in v'.responder.outgoing {
      assert other in v'.Of(p).outgoing.Keys || other in v'.Of(Other(p)).outgoing.Keys;
    }
  }

  lemma NameFound(v: Pair, v': Pair, id: string, name: Name, at: Name)
    requires NamesOk(v) && v'.sentAs == v.sentAs[id := name] && id !in v.sentAs
    requires v'.ratchets.wire.Keys == v.ratchets.wire.Keys + {name} && at in v'.ratchets.wire
    ensures exists other <- v'.sentAs :: v'.sentAs[other] == at
  {
    assert v'.sentAs[id] == name;
    assert at in v'.ratchets.wire.Keys;
    if at != name {
      var other :| other in v.sentAs && v.sentAs[other] == at;
      assert v'.sentAs[other] == at;
    }
  }

  lemma NamesOnWire(x: Parties, v: Pair)
    requires PairInv(x, v)
    ensures forall id <- v.sentAs :: v.sentAs[id] in v.ratchets.wire
  {
    hide PairInv, SealedFor;
    PairParts(x, v);
    forall id <- v.sentAs ensures v.sentAs[id] in v.ratchets.wire {
      var p := if id in v.initiator.outgoing then R.Initiator else R.Responder;
      PartyParts(x, v, p);
      assert SentOk(x, p, v.Of(p), v.ratchets, v.sentAs, id);
    }
  }

  lemma SentGrows(x: Parties, p: R.Party, w: World, w': World, r: R.World, r': R.World, sentAs: map<string, Name>,
                  m: Message, name: Name)
    requires AllSent(x, p, w, r, sentAs) && m.id !in w.outgoing && m.id !in sentAs && m.id !in w.db.messages
    requires m.id in w'.outgoing && w'.outgoing == w.outgoing[m.id := w'.outgoing[m.id]]
    requires w'.db.messages == w.db.messages[m.id := m]
    requires w'.outgoing[m.id].conversation == x.conversation
    requires name !in r.wire && name in r'.wire && r'.wire == r.wire[name := r'.wire[name]] && name.0 % 2 == R.Parity(p)
    requires w'.outgoing[m.id].envelope == SealedFor(x, p, r'.wire[name], m.id, m.payload)
    ensures AllSent(x, p, w', r', sentAs[m.id := name])
  {
    hide SealedFor;
    forall id <- w'.outgoing ensures SentOk(x, p, w', r', sentAs[m.id := name], id) {
      if id != m.id { assert SentOk(x, p, w, r, sentAs, id); }
    }
  }

  /** The new message is not received by the other side. */
  lemma ReceiverWaits(w: World, sender: World, sender': World, r: R.World, r': R.World, sentAs: map<string, Name>,
                      m: Message, name: Name)
    requires ReceivedOk(w, sender, r, sentAs) && m.id !in sender.outgoing && m.id !in sender.db.messages
    requires sender'.outgoing.Keys == sender.outgoing.Keys + {m.id} && sender'.db.messages == sender.db.messages[m.id := m]
    requires r'.received == r.received && name !in r.received
    ensures ReceivedOk(w, sender', r', sentAs[m.id := name])
  {
    forall id | id in sender'.outgoing && id != m.id ensures id in sender.outgoing { assert id in sender'.outgoing.Keys; }
    forall id | id in sender.outgoing ensures id in sender'.outgoing { assert id in sender'.outgoing.Keys; }
  }

  /** And the sender has received what it had. */
  lemma SenderReceivesNothing(x: Parties, q: R.Party, w: World, w': World, sender: World, r: R.World, r': R.World,
                              sentAs: map<string, Name>, m: Message, name: Name)
    requires ReceivedOk(w, sender, r, sentAs) && AllSent(x, q, sender, r, sentAs)
    requires r'.received == r.received && w'.incoming == w.incoming && m.id !in sentAs && m.id !in w.db.messages
    requires w'.db.messages == w.db.messages[m.id := m]
    ensures ReceivedOk(w', sender, r', sentAs[m.id := name])
  {
    hide SealedFor;
    if m.id in sender.outgoing && !SentOk(x, q, sender, r, sentAs, m.id) { assert false; }
  }

  // ---- What a row of the other side is

  /** A row of the other side carries the envelope of its ratchet message. */
  lemma RowOfOther(x: Parties, v: Pair, p: R.Party, row: Row)
    requires x.Agreed() && PairInv(x, v) && row in v.Of(p).rows && row.sender != x.Of(p).userId
    ensures var q := Other(p);
      && row.sender == x.Of(q).userId && row.conversation == x.conversation && SentOk(x, q, v.Of(q), v.ratchets, v.sentAs, row.id)
      && row.content == SealedFor(x, q, v.ratchets.wire[v.sentAs[row.id]], row.id, v.Of(q).db.messages[row.id].payload)
  {
    hide Inv, R.Inv, SealedFor, StateInUse, ReceivedOk;
    var q := Other(p);
    assert v.Of(q).rows == v.Of(p).rows && PartyOk(x, v, q);
    RowIsOk(x.AccountOf(q), v.Of(q), row);
    WireIsCommitted(x.AccountOf(q), v.Of(q), Transmission(row.id, row.conversation, row.content));
  }

  lemma WireIsCommitted(a: Account, w: World, t: Transmission)
    requires Inv(a, w) && t in w.wire
    ensures t.id in w.outgoing && t.conversation == w.outgoing[t.id].conversation && t.content == w.outgoing[t.id].envelope
  {}

  lemma CipherIsCommon(x: Parties, p: R.Party, sent: R.Sent, id: string, userId: string, payload: Payload)
    ensures Sealed(x.CipherOf(p), sent, x.conversation, id, userId, payload)
      == Sealed(x.cipher, sent, x.conversation, id, userId, payload)
    ensures x.Agreed() ==> Authenticated(RatchetSuite(x.setup.k, x.CipherOf(p)))
    ensures x.Agreed() ==> Encodings(x.CipherOf(p).utf8, x.CipherOf(p).headerBytes)
  {
    if x.Agreed() {
      var suite, suite' := RatchetSuite(x.setup.k, x.cipher), RatchetSuite(x.setup.k, x.CipherOf(p));
      assert suite'.open == suite.open && suite'.seal == suite.seal;
    }
  }

  /** The codec opens a row of the other side exactly where the ratchet accepts it, and to the sender's payload. */
  lemma OpensIfAccepted(x: Parties, v: Pair, p: R.Party, row: Row, seed: nat)
    requires x.Agreed() && PairInv(x, v) && row in v.Of(p).rows && row.sender != x.Of(p).userId
    ensures row.id in v.sentAs && v.sentAs[row.id] in v.ratchets.wire && v.sentAs[row.id].0 % 2 != R.Parity(p)
    ensures row.id in v.Of(Other(p)).db.messages
    ensures var at, result := v.sentAs[row.id], Decrypt(x.AccountOf(p).suite, v.ratchets.Of(p), row.conversation, row.id,
                                                       row.sender, row.content, seed);
      && (result.Some? <==> R.Accepts(x.setup, v.ratchets, p, at.0, at.1, x.Of(p).draw(seed)))
      && (result.Some? ==> result.value.1 == v.Of(Other(p)).db.messages[row.id].payload)
  {
    hide PairInv, Decrypt, R.Accepts, Sealed, RatchetSuite;
    RowOfOther(x, v, p, row);
    var q := Other(p);
    var at, payload := v.sentAs[row.id], v.Of(q).db.messages[row.id].payload;
    CipherIsCommon(x, p, v.ratchets.wire[at], row.id, row.sender, payload);
    SealedOpensIff(x.setup, v.ratchets, p, at.0, at.1, x.CipherOf(p), x.conversation, row.id, row.sender, payload,
                   x.conversation, row.id, row.sender, seed);
  }

  lemma NotYetReceived(x: Parties, v: Pair, p: R.Party, row: Row)
    requires x.Agreed() && PairInv(x, v) && row in v.Of(p).rows && row.sender != x.Of(p).userId
    requires row.id !in v.Of(p).db.messages
    ensures row.id in v.sentAs && v.sentAs[row.id] !in v.ratchets.received
  {
    hide Inv, R.Inv, SealedFor, StateInUse;
    RowOfOther(x, v, p, row);
    assert PartyOk(x, v, p);
    CommittedIdsAreStored(x.AccountOf(p), v.Of(p), row.id);
  }

  /**
   * In every reachable world of the two, a message of the other side that is not stored yet opens from the state in
   * use exactly if what it makes the ratchet set aside fits the limits, and then to the payload its sender committed.
   */
  lemma OpensIffFits(x: Parties, v: Pair, p: R.Party, row: Row)
    requires x.Agreed() && PairInv(x, v) && row in v.Of(p).rows && row.sender != x.Of(p).userId
    requires row.id !in v.Of(p).db.messages
    ensures row.id in v.sentAs && |v.ratchets.epochs| >= 2 && v.sentAs[row.id].0 < |v.ratchets.epochs|
    ensures var at, suite := v.sentAs[row.id], x.AccountOf(p).suite;
      CanOpen(suite, StateInUse(suite, v.Of(p).db.kv, x.conversation, x.PeerKey(p)), row) <==> R.Fits(v.ratchets, p, at.0, at.1)
  {
    hide *;
    NotYetReceived(x, v, p, row);
    OpensIfAccepted(x, v, p, row, 0);
    PairParts(x, v);
    PartyParts(x, v, p);
    var at, suite, from := v.sentAs[row.id], x.AccountOf(p).suite, v.ratchets.Of(p);
    LawOf(x);
    D.AcceptedIffFits(x.setup, v.ratchets, p, at.0, at.1, x.Of(p).draw(0));
    var fits := R.Fits(v.ratchets, p, at.0, at.1);
    forall seed: nat
      ensures Decrypt(suite, from, row.conversation, row.id, row.sender, row.content, seed).Some? <==> fits
    {
      OpensIfAccepted(x, v, p, row, seed);
      D.AcceptedIffFits(x.setup, v.ratchets, p, at.0, at.1, x.Of(p).draw(seed));
    }
    CanOpenIff(suite, from, row, fits);
  }

  lemma CanOpenIff(suite: Suite, from: SessionState, row: Row, opens: bool)
    requires forall seed: nat ::
      Decrypt(suite, from, row.conversation, row.id, row.sender, row.content, seed).Some? <==> opens
    ensures CanOpen(suite, Some(from), row) <==> opens
  {
    hide Decrypt;
    var result := Decrypt(suite, from, row.conversation, row.id, row.sender, row.content, 0);
    if result.Some? { assert Opens(suite, Some(from).value, row, 0, result.value.0, result.value.1); }
  }

  // ---- Committing a received message

  /** What the commit of a received message does to the account's world. */
  lemma ReceiveShape(a: Account, w: World, row: Row, m: Message, peerKey: string, seed: nat)
    requires Inv(a, w) && Enabled(a, w, CommitReceived(row, m, peerKey, seed))
    ensures var w' := Next(a, w, CommitReceived(row, m, peerKey, seed));
      var from := StateInUse(a.suite, w.db.kv, row.conversation, peerKey);
      && from.Some? && Decrypt(a.suite, from.value, row.conversation, row.id, row.sender, row.content, seed).Some?
      && var (next, payload) := Decrypt(a.suite, from.value, row.conversation, row.id, row.sender, row.content, seed).value;
      && Inv(a, w') && w'.rows == w.rows && w'.outgoing == w.outgoing && w'.db.messages == w.db.messages[row.id := m]
      && row in w.rows && row.sender != a.userId && row.id !in w.db.messages && row.id !in w.incoming
      && w'.incoming.Keys == w.incoming.Keys + {row.id} && m.payload == payload
      && StateInUse(a.suite, w'.db.kv, row.conversation, peerKey) == Some(next)
  {
    hide Inv, Decrypt;
    StepKeepsInv(a, w, CommitReceived(row, m, peerKey, seed));
    CommittedIdsAreStored(a, w, row.id);
  }

  /** What the ratchets' conversation does at the same time. */
  lemma RatchetReceives(x: Parties, r: R.World, p: R.Party, row: Row, at: Name, seed: nat)
    requires at in r.wire && row.content.Envelope? && row.content.header == r.wire[at].header
    requires R.Accepts(x.setup, r, p, at.0, at.1, x.Of(p).draw(seed))
    requires Decrypt(x.AccountOf(p).suite, r.Of(p), row.conversation, row.id, row.sender, row.content, seed).Some?
    ensures var (next, _) := Decrypt(x.AccountOf(p).suite, r.Of(p), row.conversation, row.id, row.sender, row.content, seed).value;
      var r' := R.AfterDeliver(x.setup, r, p, at.0, at.1, x.Of(p).draw(seed));
      r'.Of(p) == next && r'.Of(Other(p)) == r.Of(Other(p)) && r'.wire == r.wire && r'.received == r.received + {at}
  {
    hide DoubleRatchet.Decrypted;
  }

  lemma ReceiveEnabled(x: Parties, v: Pair, move: Move, at: Name)
    requires Enables(x, v, move) && move.step.CommitReceived?
    requires move.step.row.id in v.sentAs && v.sentAs[move.step.row.id] == at && at in v.ratchets.wire
    ensures var p, row, m, seed, v' := move.p, move.step.row, move.step.message, move.step.seed, After(x, v, move);
      && Enabled(x.AccountOf(p), v.Of(p), CommitReceived(row, m, x.PeerKey(p), seed))
      && R.Distinct(x.setup, R.AfterDeliver(x.setup, v.ratchets, p, at.0, at.1, x.Of(p).draw(seed)).epochs)
      && v'.Of(p) == Next(x.AccountOf(p), v.Of(p), CommitReceived(row, m, x.PeerKey(p), seed)) && v'.Of(Other(p)) == v.Of(Other(p))
      && v'.ratchets == R.AfterDeliver(x.setup, v.ratchets, p, at.0, at.1, x.Of(p).draw(seed))
      && v'.sentAs == v.sentAs && x.AccountOf(p).userId == x.Of(p).userId && Other(Other(p)) == p
  {
    hide Enabled, Next, R.AfterDeliver, R.Distinct, RatchetSuite;
  }

  /** The row of a receiving move: there, from the other side. */
  lemma ReceivedRow(x: Parties, v: Pair, move: Move)
    requires Enables(x, v, move) && move.step.CommitReceived?
    ensures move.step.row in v.Of(move.p).rows && move.step.row.sender != x.Of(move.p).userId
  {
    hide R.AfterDeliver, R.Distinct, RatchetSuite;
  }

  lemma HeaderOfRow(x: Parties, v: Pair, p: R.Party, row: Row)
    requires x.Agreed() && PairInv(x, v) && row in v.Of(p).rows && row.sender != x.Of(p).userId
    ensures row.conversation == x.conversation && row.sender == x.Of(Other(p)).userId && row.id in v.Of(Other(p)).outgoing
    ensures row.id in v.sentAs && v.sentAs[row.id] in v.ratchets.wire && row.content.Envelope?
      && row.content.header == v.ratchets.wire[v.sentAs[row.id]].header
  {
    RowOfOther(x, v, p, row);
    hide PairInv;
  }

  lemma ReceiveKeeps(x: Parties, v: Pair, move: Move)
    requires x.Agreed() && PairInv(x, v) && Enables(x, v, move) && move.step.CommitReceived?
    ensures PairInv(x, After(x, v, move))
  {
    hide *;
    var p, q, row, m, seed, v' := move.p, Other(move.p), move.step.row, move.step.message, move.step.seed, After(x, v, move);
    ReceivedRow(x, v, move);
    HeaderOfRow(x, v, p, row);
    var at := v.sentAs[row.id];
    ReceiveEnabled(x, v, move, at);
    PairParts(x, v);
    PartyParts(x, v, p);
    PartyParts(x, v, q);
    ReceiveShape(x.AccountOf(p), v.Of(p), row, m, x.PeerKey(p), seed);
    OpensIfAccepted(x, v, p, row, seed);
    RatchetReceives(x, v.ratchets, p, row, at, seed);
    LawOf(x);
    D.AfterDeliverInv(x.setup, v.ratchets, p, at.0, at.1, x.Of(p).draw(seed));
    NamesStay(v, v', p);
    AllSentStays(x, p, v.Of(p), v'.Of(p), v.ratchets, v'.ratchets, v.sentAs, v'.sentAs);
    AllSentStays(x, q, v.Of(q), v'.Of(q), v.ratchets, v'.ratchets, v.sentAs, v'.sentAs);
    ReceivedGrows(v, p, v'.Of(p), v'.ratchets, row.id, at, m);
    SenderStill(x, p, v.Of(q), v.Of(p), v'.Of(p), v.ratchets, v'.ratchets, v.sentAs, at, m, row.id);
    PairWhole(x, v', p);
  }

  lemma LawOf(x: Parties)
    requires x.Agreed()
    ensures R.Lawful(x.setup)
  {}

  lemma NamesStay(v: Pair, v': Pair, p: R.Party)
    requires NamesOk(v) && v'.sentAs == v.sentAs && v'.ratchets.wire == v.ratchets.wire
    requires v'.Of(p).outgoing == v.Of(p).outgoing && v'.Of(Other(p)) == v.Of(Other(p))
    ensures NamesOk(v')
  {}

  /** The message is received, by the ratchet and by the account. */
  lemma ReceivedGrows(v: Pair, p: R.Party, w': World, r': R.World, id: string, at: Name, m: Message)
    requires NamesOk(v) && ReceivedOk(v.Of(p), v.Of(Other(p)), v.ratchets, v.sentAs)
    requires id in v.sentAs && v.sentAs[id] == at && r'.received == v.ratchets.received + {at}
    requires w'.incoming.Keys == v.Of(p).incoming.Keys + {id} && w'.db.messages == v.Of(p).db.messages[id := m]
    requires id in v.Of(Other(p)).outgoing && id in v.Of(Other(p)).db.messages && id !in v.Of(p).db.messages
    requires m.payload == v.Of(Other(p)).db.messages[id].payload
    ensures ReceivedOk(w', v.Of(Other(p)), r', v.sentAs)
  {
    var sender := v.Of(Other(p));
    forall other <- sender.outgoing | other in v.sentAs ensures v.sentAs[other] in r'.received <==> other in w'.incoming {
      assert other in w'.incoming <==> other in w'.incoming.Keys;
    }
    forall other <- w'.incoming
      ensures other in sender.outgoing && other in w'.db.messages && other in sender.db.messages
        && w'.db.messages[other].payload == sender.db.messages[other].payload
    {
      assert other in w'.incoming.Keys;
    }
  }

  /** For the other side nothing changes: the message received is none of the receiver's own. */
  lemma SenderStill(x: Parties, p: R.Party, w: World, sender: World, sender': World, r: R.World, r': R.World,
                    sentAs: map<string, Name>, at: Name, m: Message, id: string)
    requires ReceivedOk(w, sender, r, sentAs) && AllSent(x, p, sender, r, sentAs)
    requires at.0 % 2 != R.Parity(p) && r'.received == r.received + {at} && sender'.outgoing == sender.outgoing
    requires sender'.db.messages == sender.db.messages[id := m] && id !in sender.db.messages
    ensures ReceivedOk(w, sender', r', sentAs)
  {
    hide SealedFor;
    forall other <- sender.outgoing ensures other in sentAs && sentAs[other] != at {
      assert SentOk(x, p, sender, r, sentAs, other);
    }
  }

  // ---- Every run

  lemma MoveKeeps(x: Parties, v: Pair, move: Move)
    requires x.Agreed() && PairInv(x, v) && Enables(x, v, move)
    ensures PairInv(x, After(x, v, move))
  {
    if move.step.PeerPost? { assert false; }
    hide *;
    match move.step
    case CommitOutgoing(_, _, _) => CommitKeeps(x, v, move);
    case Accept(_, _) => AcceptKeeps(x, v, move);
    case CommitReceived(_, _, _, _) => ReceiveKeeps(x, v, move);
    case _ => MarkKeeps(x, v, move);
  }

  lemma ReachedInv(x: Parties, v: Pair)
    requires x.Agreed() && Reached(x, v)
    ensures PairInv(x, v)
  {
    hide PairInv, Enables, After, StartOf;
    var moves :| Run(Correspondence(x), StartOf(x), moves, v);
    var inv := (u: Pair) => PairInv(x, u);
    StartHolds(x);
    forall u, move | inv(u) && Correspondence(x).enabled(u, move) ensures inv(Correspondence(x).next(u, move)) {
      MoveKeeps(x, u, move);
    }
    RunKeeps(Correspondence(x), inv, StartOf(x), moves, v);
  }

  // ---- What the two may rely on

  /**
   * In every run of both, with any crashes, retries and delays: a stored message of the other side has exactly the
   * payload its sender committed.
   */
  lemma PayloadsAgree(x: Parties, v: Pair, p: R.Party, id: string)
    requires x.Agreed() && Reached(x, v) && id in v.Of(p).db.messages && !Own(v.Of(p).db, id)
    ensures var q := v.Of(Other(p));
      id in q.outgoing && id in q.db.messages && v.Of(p).db.messages[id].payload == q.db.messages[id].payload
  {
    hide PairInv, Reached, Inv, StateInUse, AllSent;
    ReachedInv(x, v);
    PartyParts(x, v, p);
    ForeignIsIncoming(x.AccountOf(p), v.Of(p), id);
  }

  lemma ForeignIsIncoming(a: Account, w: World, id: string)
    requires Inv(a, w) && id in w.db.messages && !Own(w.db, id)
    ensures id in w.incoming
  {}

  /**
   * In every such run, a row of the other side that is not stored yet can be committed exactly if what it makes the
   * ratchet set aside fits the two limits.
   */
  lemma RowCommitsIffFits(x: Parties, v: Pair, p: R.Party, row: Row)
    requires x.Agreed() && Reached(x, v) && row in v.Of(p).rows && row.sender != x.Of(p).userId
    requires row.id !in v.Of(p).db.messages
    ensures row.id in v.sentAs && |v.ratchets.epochs| >= 2 && v.sentAs[row.id].0 < |v.ratchets.epochs|
    ensures (exists m: Message, seed: nat :: Enabled(x.AccountOf(p), v.Of(p), CommitReceived(row, m, x.PeerKey(p), seed)))
      <==> R.Fits(v.ratchets, p, v.sentAs[row.id].0, v.sentAs[row.id].1)
  {
    hide *;
    ReachedInv(x, v);
    OpensIffFits(x, v, p, row);
    HeaderOfRow(x, v, p, row);
    UserOf(x, p);
    CommitReceivedIff(x.AccountOf(p), v.Of(p), row, x.PeerKey(p));
  }

  lemma UserOf(x: Parties, p: R.Party)
    ensures x.AccountOf(p).userId == x.Of(p).userId
  {}

  /** And the first row that is pending blocks the conversation exactly if it does not fit. */
  lemma RowBlocksIff(x: Parties, v: Pair, p: R.Party, row: Row)
    requires x.Agreed() && Reached(x, v) && row in v.Of(p).rows && row.sender != x.Of(p).userId
    requires row.id !in v.Of(p).db.messages
    ensures row.id in v.sentAs && |v.ratchets.epochs| >= 2 && v.sentAs[row.id].0 < |v.ratchets.epochs|
    ensures var suite, at := x.AccountOf(p).suite, v.sentAs[row.id];
      Blocked(suite, StateInUse(suite, v.Of(p).db.kv, x.conversation, x.PeerKey(p)), [row]) <==> !R.Fits(v.ratchets, p, at.0, at.1)
  {
    hide *;
    ReachedInv(x, v);
    OpensIffFits(x, v, p, row);
    OneRowBlocksIff(x.AccountOf(p).suite, StateInUse(x.AccountOf(p).suite, v.Of(p).db.kv, x.conversation, x.PeerKey(p)), row);
  }

  /** The other side's messages before this one, in the order they were committed, have been stored. */
  ghost predicate StoredUpTo(v: Pair, p: R.Party, at: Name) {
    forall id <- v.Of(Other(p)).outgoing :: id in v.sentAs && Earlier(v.sentAs[id], at) ==> id in v.Of(p).db.messages
  }

  predicate Earlier(a: Name, b: Name) { a.0 < b.0 || (a.0 == b.0 && a.1 < b.1) }

  /**
   * A device that keeps up is never stopped: once the other side's earlier messages are stored, the next one that is
   * on the server can be committed, however it was delayed or retried on its way.
   */
  lemma KeepingUpCommits(x: Parties, v: Pair, p: R.Party, row: Row)
    requires x.Agreed() && Reached(x, v) && row in v.Of(p).rows && row.sender != x.Of(p).userId
    requires row.id !in v.Of(p).db.messages && row.id in v.sentAs && StoredUpTo(v, p, v.sentAs[row.id])
    ensures exists m: Message, seed: nat :: Enabled(x.AccountOf(p), v.Of(p), CommitReceived(row, m, x.PeerKey(p), seed))
  {
    hide *;
    ReachedInv(x, v);
    RowCommitsIffFits(x, v, p, row);
    PairParts(x, v);
    OpensIfAccepted(x, v, p, row, 0);
    var at := v.sentAs[row.id];
    forall f: nat, i: nat | (f, i) in v.ratchets.wire && f % 2 == at.0 % 2 && (f < at.0 || (f == at.0 && i < at.1))
      ensures (f, i) in v.ratchets.received
    {
      EarlierIsReceived(x, v, p, (f, i), at);
    }
    D.NothingMissingFits(x.setup, v.ratchets, p, at.0, at.1);
  }

  lemma EarlierIsReceived(x: Parties, v: Pair, p: R.Party, before: Name, at: Name)
    requires PairInv(x, v) && StoredUpTo(v, p, at) && before in v.ratchets.wire
    requires before.0 < at.0 || (before.0 == at.0 && before.1 < at.1)
    requires before.0 % 2 == at.0 % 2 != R.Parity(p)
    ensures before in v.ratchets.received
  {
    hide PairInv, Inv, StateInUse, SealedFor;
    PairParts(x, v);
    PartyParts(x, v, p);
    var id :| id in v.sentAs && v.sentAs[id] == before;
    if id in v.Of(p).outgoing { NameOfOwn(x, p, v.Of(p), v.ratchets, v.sentAs, id); }
    OwnIsOutgoing(x.AccountOf(p), v.Of(p), id);
    ForeignOrOwn(x.AccountOf(p), v.Of(p), id);
  }

  lemma NameOfOwn(x: Parties, p: R.Party, w: World, r: R.World, sentAs: map<string, Name>, id: string)
    requires AllSent(x, p, w, r, sentAs) && id in w.outgoing
    ensures id in sentAs && sentAs[id].0 % 2 == R.Parity(p)
  {
    hide SealedFor;
    assert SentOk(x, p, w, r, sentAs, id);
  }

  lemma OwnIsOutgoing(a: Account, w: World, id: string)
    requires Inv(a, w)
    ensures Own(w.db, id) ==> id in w.outgoing
  {}

  lemma ForeignOrOwn(a: Account, w: World, id: string)
    requires Inv(a, w)
    ensures id in w.db.messages ==> id in w.incoming || Own(w.db, id)
  {}

  /** For each of the two, what happens is a run of the messaging protocol, so all that holds of those holds of it. */
  lemma EachIsReachable(x: Parties, v: Pair, p: R.Party)
    requires x.Agreed() && Reached(x, v)
    ensures Reachable(x.AccountOf(p), v.Of(p))
  {
    hide PairInv, Enables, After, StartOf, Reachable;
    var moves :| Run(Correspondence(x), StartOf(x), moves, v);
    var inv := (u: Pair) => PairInv(x, u) && Reachable(x.AccountOf(p), u.Of(p));
    StartHolds(x);
    StartReachable(x, p);
    forall u, move | inv(u) && Correspondence(x).enabled(u, move) ensures inv(Correspondence(x).next(u, move)) {
      MoveKeeps(x, u, move);
      MoveIsStep(x, u, move, p);
    }
    RunKeeps(Correspondence(x), inv, StartOf(x), moves, v);
  }

  lemma StartReachable(x: Parties, p: R.Party)
    ensures Reachable(x.AccountOf(p), StartOf(x).Of(p))
  {
    RunNone(x.AccountOf(p), EMPTY);
    assert Reaches(x.AccountOf(p), EMPTY, [], EMPTY);
  }

  lemma MoveIsStep(x: Parties, v: Pair, move: Move, p: R.Party)
    requires x.Agreed() && PairInv(x, v) && Enables(x, v, move) && Reachable(x.AccountOf(p), v.Of(p))
    ensures Reachable(x.AccountOf(p), After(x, v, move).Of(p))
  {
    hide PairInv, Reachable, Enabled, Next, RatchetSuite, R.AfterSend, R.AfterDeliver, R.Distinct;
    if p == move.p {
      ReachesOneMore(x.AccountOf(p), v.Of(p), move.step);
    } else if move.step.Accept? {
      var t := move.step.transmission;
      var row := Row(t.id, t.conversation, x.Of(move.p).userId, t.content, move.step.sentAt);
      AcceptPosts(x, v, move.p, t, move.step.sentAt);
      AcceptShape(x.AccountOf(move.p), v.Of(move.p), x.AccountOf(p), v.Of(p), t, move.step.sentAt, row);
      ReachesOneMore(x.AccountOf(p), v.Of(p), PeerPost(row));
    }
  }

  // ---- And a pending message can get through

  lemma ReachedOneMore(x: Parties, v: Pair, move: Move)
    requires Reached(x, v) && Enables(x, v, move)
    ensures Reached(x, After(x, v, move))
  {
    hide Enables, After, StartOf;
    var moves :| Run(Correspondence(x), StartOf(x), moves, v);
    RunStep(Correspondence(x), StartOf(x), moves, v, move);
  }

  /** A pending message gets into the table, whatever happened to it before. */
  lemma PendingArrives(x: Parties, v: Pair, q: R.Party, id: string, now: int) returns (u: Pair, row: Row)
    requires x.Agreed() && Reached(x, v) && Own(v.Of(q).db, id) && !v.Of(q).db.messages[id].isSent
    requires forall i :: 0 <= i < |v.Of(q).rows| ==> v.Of(q).rows[i].sentAt < now
    ensures Reached(x, u) && u.ratchets == v.ratchets && u.sentAs == v.sentAs
    ensures u.Of(q).db == v.Of(q).db && u.Of(Other(q)).db == v.Of(Other(q)).db
    ensures row in u.Of(q).rows && row.id == id && row.sender == x.Of(q).userId
  {
    hide *;
    ReachedInv(x, v);
    PairParts(x, v);
    PartyParts(x, v, q);
    PendingEnvelope(x.AccountOf(q), v.Of(q), id);
    TwoUsers(x, q);
    var w, o := v.Of(q), v.Of(q).outgoing[id];
    if HasId(w.rows, id) {
      u := v;
      row := RowOfId(x.AccountOf(q), w, id);
    } else {
      var t := Transmission(id, o.conversation, o.envelope);
      CanTransmit(x, v, q, t);
      var v1 := v.With(q, w.(wire := w.wire + {t}));
      ReachedOneMore(x, v, Move(q, Transmit(id)));
      row := Row(id, o.conversation, x.Of(q).userId, o.envelope, now);
      CanAccept(x, v1, q, t, now);
      u := After(x, v1, Move(q, Accept(t, now)));
      ReachedOneMore(x, v1, Move(q, Accept(t, now)));
    }
  }

  lemma RowOfId(a: Account, w: World, id: string) returns (row: Row)
    requires Inv(a, w) && HasId(w.rows, id) && id in w.outgoing
    ensures row in w.rows && row.id == id && row.sender == a.userId
  {
    RowOfOutgoing(a, w, id);
    var i :| 0 <= i < |w.rows| && w.rows[i].id == id && w.rows[i].sender == a.userId;
    row := w.rows[i];
  }

  lemma CanTransmit(x: Parties, v: Pair, q: R.Party, t: Transmission)
    requires Own(v.Of(q).db, t.id) && !v.Of(q).db.messages[t.id].isSent
    requires LoadOutbox(v.Of(q).db.kv, t.id) == Some(t.content) && v.Of(q).db.messages[t.id].conversation == t.conversation
    ensures var v1 := v.With(q, v.Of(q).(wire := v.Of(q).wire + {t}));
      && Enables(x, v, Move(q, Transmit(t.id))) && After(x, v, Move(q, Transmit(t.id))) == v1
      && v1.Of(q) == v.Of(q).(wire := v.Of(q).wire + {t}) && v1.Of(Other(q)) == v.Of(Other(q))
      && v1.ratchets == v.ratchets && v1.sentAs == v.sentAs
  {
    hide RatchetSuite, LoadOutbox;
  }

  lemma CanAccept(x: Parties, v: Pair, q: R.Party, t: Transmission, now: int)
    requires t in v.Of(q).wire && !HasId(v.Of(q).rows, t.id)
    requires forall i :: 0 <= i < |v.Of(q).rows| ==> v.Of(q).rows[i].sentAt < now
    ensures Enables(x, v, Move(q, Accept(t, now)))
    ensures var u := After(x, v, Move(q, Accept(t, now)));
      && u.ratchets == v.ratchets && u.sentAs == v.sentAs
      && u.Of(q).db == v.Of(q).db && u.Of(Other(q)).db == v.Of(Other(q)).db
      && Row(t.id, t.conversation, x.Of(q).userId, t.content, now) in u.Of(q).rows
  {
    hide RatchetSuite;
  }

  /**
   * From every world the two can reach: a pending message that fits the limits can be got to the other side, which
   * then has it with the payload it was committed with. (The draw is one that no key pair or root has come of.)
   */
  lemma EndToEnd(x: Parties, v: Pair, q: R.Party, id: string, now: int, seed: nat) returns (u: Pair)
    requires x.Agreed() && Reached(x, v) && Own(v.Of(q).db, id) && !v.Of(q).db.messages[id].isSent
    requires forall i :: 0 <= i < |v.Of(q).rows| ==> v.Of(q).rows[i].sentAt < now
    requires id !in v.Of(Other(q)).db.messages && id in v.sentAs && v.sentAs[id] in v.ratchets.wire
    requires |v.ratchets.epochs| >= 2 && v.sentAs[id].0 < |v.ratchets.epochs|
    requires R.Fits(v.ratchets, Other(q), v.sentAs[id].0, v.sentAs[id].1)
    requires var at := v.sentAs[id];
      R.Distinct(x.setup, R.AfterDeliver(x.setup, v.ratchets, Other(q), at.0, at.1, x.Of(Other(q)).draw(seed)).epochs)
    ensures Reached(x, u) && id in u.Of(Other(q)).db.messages
    ensures u.Of(Other(q)).db.messages[id].payload == v.Of(q).db.messages[id].payload
  {
    hide *;
    var p, at := Other(q), v.sentAs[id];
    OtherTwice(q);
    var v1, row := PendingArrives(x, v, q, id, now);
    ReachedInv(x, v1);
    PairParts(x, v1);
    PartyParts(x, v1, p);
    TwoUsers(x, q);
    TwoUsers(x, p);
    LawOf(x);
    NotYetReceived(x, v1, p, row);
    OpensIfAccepted(x, v1, p, row, seed);
    HeaderOfRow(x, v1, p, row);
    D.AcceptedIffFits(x.setup, v1.ratchets, p, at.0, at.1, x.Of(p).draw(seed));
    var result := Decrypt(x.AccountOf(p).suite, v1.ratchets.Of(p), row.conversation, row.id, row.sender, row.content, seed).value;
    var m := Message(row.id, row.conversation, row.sender, result.1, row.sentAt, true, false, false);
    CanReceive(x, v1, p, row, m, seed, result.0);
    u := After(x, v1, Move(p, CommitReceived(row, m, x.PeerKey(p), seed)));
    ReachedOneMore(x, v1, Move(p, CommitReceived(row, m, x.PeerKey(p), seed)));
  }

  lemma CanReceive(x: Parties, v: Pair, p: R.Party, row: Row, m: Message, seed: nat, next: SessionState)
    requires row in v.Of(p).rows && row.sender != x.AccountOf(p).userId && row.id !in v.Of(p).db.messages
    requires m == Message(row.id, row.conversation, row.sender, m.payload, row.sentAt, true, false, false)
    requires row.conversation == x.conversation
    requires StateInUse(x.AccountOf(p).suite, v.Of(p).db.kv, x.conversation, x.PeerKey(p)) == Some(v.ratchets.Of(p))
    requires Decrypt(x.AccountOf(p).suite, v.ratchets.Of(p), row.conversation, row.id, row.sender, row.content, seed)
      == Some((next, m.payload))
    requires row.id in v.sentAs && v.sentAs[row.id] in v.ratchets.wire
    requires var at := v.sentAs[row.id];
      R.Distinct(x.setup, R.AfterDeliver(x.setup, v.ratchets, p, at.0, at.1, x.Of(p).draw(seed)).epochs)
    ensures var move := Move(p, CommitReceived(row, m, x.PeerKey(p), seed));
      Enables(x, v, move) && After(x, v, move).Of(p).db.messages == v.Of(p).db.messages[row.id := m]
  {
    hide RatchetSuite, Decrypt, R.AfterDeliver, R.Distinct, StateFor, LoadSession;
  }
}
