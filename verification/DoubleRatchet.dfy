/**
 * The messenger's own Double Ratchet: a DH ratchet on direction change, a chain step per
 * message, and a bounded cache of keys skipped by out-of-order delivery.
 *
 * X25519 and HKDF are functions of a Kdf value. A failed decrypt leaves nothing behind:
 * the caller discards the state it was working on.
 */
module DoubleRatchet {
  import opened Primitives

  datatype Private = Private(bytes: Bytes)
  datatype Public = Public(bytes: Bytes)
  datatype Key = Key(bytes: Bytes)
  datatype Bundle = Bundle(bytes: Bytes)

  const MAX_SKIP: nat := 1000
  const MAX_SKIPPED_TOTAL: nat := 2000
  const MAX_COUNTER: nat := 0xFFFFFFFF

  datatype Kdf = Kdf(
    publicOf: Private -> Public,
    dh: (Private, Public) -> Key,
    init: (Key, Key) -> (Key, Key, Key),
    derive64: (Key, Key) -> (Key, Key),
    message: (Key, nat) -> Bundle,
    next: (Key, nat) -> Key)
  {
    /** Section 6.1 of RFC 7748. */
    ghost predicate Symmetric() {
      forall a, b :: dh(a, publicOf(b)) == dh(b, publicOf(a))
    }

    /** HKDF outputs do not collide, and the outputs for a session's start and for a DH step are apart. */
    ghost predicate CollisionFree() {
      && (forall c, d, n :: message(c, n) == message(d, n) ==> c == d)
      && (forall c, d, n :: next(c, n) == next(d, n) ==> c == d)
      && (forall r, x, r', x' :: derive64(r, x).1 == derive64(r', x').1 ==> r == r')
      && (forall r, x, z, y :: derive64(r, x).1 != init(z, y).1)
    }
  }

  /** A cached key is filed under the sending chain's public key and the message number. */
  type SkippedKeys = map<(Public, nat), Bundle>

  datatype State = State(
    root: Key,
    sendChain: Key, sendInitialized: bool, sendCounter: nat, prevSendChainLength: nat,
    recvChain: Key, recvCounter: nat,
    ourPrivate: Private, ourPublic: Public, remote: Public,
    skipped: SkippedKeys)

  datatype Header = Header(dhPublicKey: Public, prevChainLength: nat, messageNumber: nat)

  datatype Result<+T> = Ok(value: T) | Duplicate | TooManySkipped | CacheFull | CounterOverflow

  // ---- Session start ----

  function Init(k: Kdf, initiator: bool, secret: Key, ours: Private, remote: Public): State {
    var (root, chainA, chainB) := k.init(secret, k.dh(ours, remote));
    State(root, chainA, initiator, 0, 0, if initiator then chainB else chainA, 0, ours, k.publicOf(ours), remote, map[])
  }

  // ---- Sending ----

  /** The responder's first send: a fresh key pair, a new root and sending chain. */
  function FirstSendRatchet(k: Kdf, s: State, ephemeral: Private): State {
    var (root, chain) := k.derive64(s.root, k.dh(ephemeral, s.remote));
    s.(ourPrivate := ephemeral, ourPublic := k.publicOf(ephemeral), root := root, sendChain := chain,
       prevSendChainLength := s.sendCounter, sendInitialized := true)
  }

  function Encrypted(k: Kdf, s: State, ephemeral: Private): Result<(State, Header, Bundle)> {
    var t := if s.sendInitialized then s else FirstSendRatchet(k, s, ephemeral);
    if t.sendCounter > MAX_COUNTER then CounterOverflow
    else
      Ok((t.(sendChain := k.next(t.sendChain, t.sendCounter), sendCounter := t.sendCounter + 1),
          Header(t.ourPublic, t.prevSendChainLength, t.sendCounter),
          k.message(t.sendChain, t.sendCounter)))
  }

  // ---- Receiving ----

  function StageSkipped(k: Kdf, s: State): Result<State> {
    if |s.skipped| >= MAX_SKIPPED_TOTAL then CacheFull
    else if s.recvCounter > MAX_COUNTER then CounterOverflow
    else
      Ok(s.(skipped := s.skipped[(s.remote, s.recvCounter) := k.message(s.recvChain, s.recvCounter)],
            recvChain := k.next(s.recvChain, s.recvCounter), recvCounter := s.recvCounter + 1))
  }

  /** Stages the keys up to message n; more than `limit` of them is refused. */
  function StageTo(k: Kdf, s: State, n: nat, limit: nat): Result<State>
    decreases n - s.recvCounter
  {
    if s.recvCounter >= n then Ok(s)
    else match StageSkipped(k, s)
      case Ok(t) => if limit == 0 then TooManySkipped else StageTo(k, t, n, limit - 1)
      case CacheFull => CacheFull
      case CounterOverflow => CounterOverflow
  }

  /** Both halves of the DH step: receiving chain from the peer's new key, sending chain from ours. */
  function Reseeded(k: Kdf, s: State, remote: Public, ephemeral: Private): State {
    var (root, recvChain) := k.derive64(s.root, k.dh(s.ourPrivate, remote));
    var (root', sendChain) := k.derive64(root, k.dh(ephemeral, remote));
    s.(root := root', recvChain := recvChain, remote := remote, recvCounter := 0,
       ourPrivate := ephemeral, ourPublic := k.publicOf(ephemeral), sendChain := sendChain,
       prevSendChainLength := s.sendCounter, sendCounter := 0)
  }

  function DhRatchet(k: Kdf, s: State, header: Header, ephemeral: Private): Result<State> {
    match StageTo(k, s, header.prevChainLength, MAX_SKIP)
    case Ok(t) => Ok(Reseeded(k, t, header.dhPublicKey, ephemeral))
    case failure => failure
  }

  /** The key of a message on the current receiving chain. */
  function ReceiveOnChain(k: Kdf, s: State, n: nat): Result<(State, Bundle)> {
    if n < s.recvCounter then Duplicate
    else if n - s.recvCounter > MAX_SKIP then TooManySkipped
    else match StageTo(k, s, n, MAX_SKIP)
      case Ok(t) =>
        if t.recvCounter > MAX_COUNTER then CounterOverflow
        else Ok((t.(recvChain := k.next(t.recvChain, t.recvCounter), recvCounter := t.recvCounter + 1),
                 k.message(t.recvChain, t.recvCounter)))
      case TooManySkipped => TooManySkipped
      case CacheFull => CacheFull
      case CounterOverflow => CounterOverflow
      case Duplicate => Duplicate
  }

  function Decrypted(k: Kdf, s: State, header: Header, ephemeral: Private): Result<(State, Bundle)> {
    var at := (header.dhPublicKey, header.messageNumber);
    if at in s.skipped then Ok((s.(skipped := s.skipped - {at}), s.skipped[at]))
    else if header.dhPublicKey == s.remote then ReceiveOnChain(k, s, header.messageNumber)
    else match DhRatchet(k, s, header, ephemeral)
      case Ok(t) => ReceiveOnChain(k, t, header.messageNumber)
      case TooManySkipped => TooManySkipped
      case CacheFull => CacheFull
      case CounterOverflow => CounterOverflow
      case Duplicate => Duplicate
  }

  // ---- What a failing call leaves in the object it works on ----

  /** Whether it succeeds or not: the keys staged before the failure stay staged. */
  function StagingLeaves(k: Kdf, s: State, n: nat, limit: nat): State
    decreases n - s.recvCounter
  {
    if s.recvCounter >= n then s
    else match StageSkipped(k, s)
      case Ok(t) => if limit == 0 then t else StagingLeaves(k, t, n, limit - 1)
      case _ => s
  }

  function ReceivingLeaves(k: Kdf, s: State, n: nat): State {
    match ReceiveOnChain(k, s, n)
    case Ok((t, _)) => t
    case _ => if n < s.recvCounter || n - s.recvCounter > MAX_SKIP then s else StagingLeaves(k, s, n, MAX_SKIP)
  }

  /** After a failure past the DH step, the step has been taken. */
  function DecryptLeaves(k: Kdf, s: State, header: Header, ephemeral: Private): State {
    var at := (header.dhPublicKey, header.messageNumber);
    if at in s.skipped then s.(skipped := s.skipped - {at})
    else if header.dhPublicKey == s.remote then ReceivingLeaves(k, s, header.messageNumber)
    else match DhRatchet(k, s, header, ephemeral)
      case Ok(t) => ReceivingLeaves(k, t, header.messageNumber)
      case _ => StagingLeaves(k, s, header.prevChainLength, MAX_SKIP)
  }

  // ---- The session object ----

  /** SessionState, and the static operations on it as methods. */
  class Session {
    const kdf: Kdf
    var rootKey: Key
    var sendChainKey: Key
    var sendInitialized: bool
    var sendCounter: nat
    var prevSendChainLength: nat
    var recvChainKey: Key
    var recvCounter: nat
    var ourPrivateKey: Private
    var ourPublicKey: Public
    var remotePublicKey: Public
    var skipped: SkippedKeys

    function Now(): State reads this {
      State(rootKey, sendChainKey, sendInitialized, sendCounter, prevSendChainLength, recvChainKey, recvCounter,
            ourPrivateKey, ourPublicKey, remotePublicKey, skipped)
    }

    /** initSession with a pre-exchanged key pair. */
    constructor (k: Kdf, initiator: bool, secret: Key, ours: Private, remote: Public)
      ensures kdf == k && Now() == Init(k, initiator, secret, ours, remote)
    {
      var (root, chainA, chainB) := k.init(secret, k.dh(ours, remote));
      kdf := k;
      rootKey := root;
      sendChainKey, sendInitialized := chainA, initiator;
      recvChainKey := if initiator then chainB else chainA;
      ourPrivateKey, ourPublicKey, remotePublicKey := ours, k.publicOf(ours), remote;
      sendCounter, prevSendChainLength, recvCounter, skipped := 0, 0, 0, map[];
    }

    /** encrypt. */
    method Encrypt(ephemeral: Private) returns (r: Result<(Header, Bundle)>)
      modifies this
      ensures r.Ok? <==> old(sendCounter) <= 0xFFFFFFFF
      ensures match Encrypted(kdf, old(Now()), ephemeral)
        case Ok((s, header, bundle)) => Now() == s && r == Ok((header, bundle))
        case _ =>
          && r == CounterOverflow
          && Now() == if old(sendInitialized) then old(Now()) else FirstSendRatchet(kdf, old(Now()), ephemeral)
    {
      if !sendInitialized {
        ourPrivateKey, ourPublicKey := ephemeral, kdf.publicOf(ephemeral);
        var out := kdf.derive64(rootKey, kdf.dh(ourPrivateKey, remotePublicKey));
        rootKey, sendChainKey := out.0, out.1;
        prevSendChainLength := sendCounter;
        sendInitialized := true;
      }
      if sendCounter > MAX_COUNTER { return CounterOverflow; }
      var header := Header(ourPublicKey, prevSendChainLength, sendCounter);
      var bundle := kdf.message(sendChainKey, sendCounter);
      sendChainKey := kdf.next(sendChainKey, sendCounter);
      sendCounter := sendCounter + 1;
      return Ok((header, bundle));
    }

    method Stage() returns (r: Result<()>)
      modifies this`skipped, this`recvChainKey, this`recvCounter
      ensures match StageSkipped(kdf, old(Now()))
        case Ok(s) => Now() == s && r == Ok(())
        case CacheFull => Now() == old(Now()) && r == CacheFull
        case _ => Now() == old(Now()) && r == CounterOverflow
    {
      if |skipped| >= MAX_SKIPPED_TOTAL { return CacheFull; }
      if recvCounter > MAX_COUNTER { return CounterOverflow; }
      skipped := skipped[(remotePublicKey, recvCounter) := kdf.message(recvChainKey, recvCounter)];
      recvChainKey := kdf.next(recvChainKey, recvCounter);
      recvCounter := recvCounter + 1;
      return Ok(());
    }

    /** The staging loop; only _dhRatchet's counts what it stages, decrypt's is bounded by the check before it. */
    method StageUpTo(n: nat, limit: nat) returns (r: Result<()>)
      modifies this`skipped, this`recvChainKey, this`recvCounter
      ensures match StageTo(kdf, old(Now()), n, limit)
        case Ok(s) => Now() == s && r == Ok(())
        case TooManySkipped => r == TooManySkipped
        case CacheFull => r == CacheFull
        case CounterOverflow => r == CounterOverflow
        case Duplicate => false
      ensures Now() == StagingLeaves(kdf, old(Now()), n, limit)
    {
      hide StageSkipped;
      var staged := 0;
      while recvCounter < n
        invariant staged <= limit
        invariant StagingLeaves(kdf, old(Now()), n, limit) == StagingLeaves(kdf, Now(), n, limit - staged)
        invariant StageTo(kdf, old(Now()), n, limit) == StageTo(kdf, Now(), n, limit - staged)
        decreases n - recvCounter
      {
        StageAdvances(kdf, Now());
        var one := Stage();
        if !one.Ok? { return one; }
        staged := staged + 1;
        if staged > limit { return TooManySkipped; }
      }
      return Ok(());
    }

    method Ratchet(header: Header, ephemeral: Private) returns (r: Result<()>)
      modifies this
      ensures match DhRatchet(kdf, old(Now()), header, ephemeral)
        case Ok(s) => Now() == s && r == Ok(())
        case TooManySkipped => r == TooManySkipped
        case CacheFull => r == CacheFull
        case CounterOverflow => r == CounterOverflow
        case Duplicate => r == Duplicate
      ensures !r.Ok? ==> Now() == StagingLeaves(kdf, old(Now()), header.prevChainLength, MAX_SKIP)
    {
      hide StageTo, StagingLeaves;
      var staged := StageUpTo(header.prevChainLength, MAX_SKIP);
      if !staged.Ok? { return staged; }
      var out := kdf.derive64(rootKey, kdf.dh(ourPrivateKey, header.dhPublicKey));
      rootKey, recvChainKey := out.0, out.1;
      remotePublicKey := header.dhPublicKey;
      recvCounter := 0;
      ourPrivateKey, ourPublicKey := ephemeral, kdf.publicOf(ephemeral);
      var out2 := kdf.derive64(rootKey, kdf.dh(ourPrivateKey, remotePublicKey));
      rootKey, sendChainKey := out2.0, out2.1;
      prevSendChainLength := sendCounter;
      sendCounter := 0;
      return Ok(());
    }

    /** decrypt: the cache first, then a ratchet for a new key, then the duplicate and gap guards. */
    method Decrypt(header: Header, ephemeral: Private) returns (r: Result<Bundle>)
      modifies this
      ensures match Decrypted(kdf, old(Now()), header, ephemeral)
        case Ok((s, bundle)) => Now() == s && r == Ok(bundle)
        case Duplicate => r == Duplicate
        case TooManySkipped => r == TooManySkipped
        case CacheFull => r == CacheFull
        case CounterOverflow => r == CounterOverflow
      ensures Now() == DecryptLeaves(kdf, old(Now()), header, ephemeral)
      // A key set aside is handed out once and nothing else moves.
      ensures var at := (header.dhPublicKey, header.messageNumber);
        at in old(skipped) ==> r == Ok(old(skipped)[at]) && Now() == old(Now()).(skipped := old(skipped) - {at})
      // On the chain being received, what was passed and what is too far ahead are refused and nothing moves.
      ensures
        header.dhPublicKey == old(remotePublicKey) && (header.dhPublicKey, header.messageNumber) !in old(skipped) ==>
          && (header.messageNumber < old(recvCounter) ==> r == Duplicate && Now() == old(Now()))
          && (header.messageNumber > old(recvCounter) + 1000 ==> r == TooManySkipped && Now() == old(Now()))
    {
      hide StageTo, DhRatchet, StagingLeaves;
      var at := (header.dhPublicKey, header.messageNumber);
      if at in skipped {
        var cached := skipped[at];
        skipped := skipped - {at};
        return Ok(cached);
      }
      if header.dhPublicKey != remotePublicKey {
        var ratcheted := Ratchet(header, ephemeral);
        match ratcheted {
          case Ok(_) =>
          case TooManySkipped => return TooManySkipped;
          case CacheFull => return CacheFull;
          case CounterOverflow => return CounterOverflow;
          case Duplicate => return Duplicate;
        }
      }
      if header.messageNumber < recvCounter { return Duplicate; }
      if header.messageNumber - recvCounter > MAX_SKIP { return TooManySkipped; }
      var staged := StageUpTo(header.messageNumber, MAX_SKIP);
      match staged {
        case Ok(_) =>
        case TooManySkipped => return TooManySkipped;
        case CacheFull => return CacheFull;
        case CounterOverflow => return CounterOverflow;
      }
      if recvCounter > MAX_COUNTER { return CounterOverflow; }
      var bundle := kdf.message(recvChainKey, recvCounter);
      recvChainKey := kdf.next(recvChainKey, recvCounter);
      recvCounter := recvCounter + 1;
      return Ok(bundle);
    }
  }

  lemma StageAdvances(k: Kdf, s: State)
    ensures match StageSkipped(k, s)
      case Ok(t) => t.recvCounter == s.recvCounter + 1
      case CacheFull => true
      case CounterOverflow => true
      case _ => false
  {}

  // ---- A chain in closed form ----

  /** The chain key before message n. */
  function ChainAt(k: Kdf, c: Key, n: nat): Key {
    if n == 0 then c else k.next(ChainAt(k, c, n - 1), n - 1)
  }

  function BundleAt(k: Kdf, c: Key, n: nat): Bundle { k.message(ChainAt(k, c, n), n) }

  lemma {:induction false} BundleFixesChain(k: Kdf, c: Key, d: Key, n: nat)
    requires k.CollisionFree() && BundleAt(k, c, n) == BundleAt(k, d, n)
    ensures c == d
  {
    ChainInjective(k, c, d, n);
  }

  lemma {:induction false} ChainInjective(k: Kdf, c: Key, d: Key, n: nat)
    requires k.CollisionFree() && ChainAt(k, c, n) == ChainAt(k, d, n)
    ensures c == d
  {
    if n > 0 { ChainInjective(k, c, d, n - 1); }
  }

  /** The cache after the keys from..to of a chain joined it. */
  ghost predicate Staged(k: Kdf, before: SkippedKeys, after: SkippedKeys, p: Public, c: Key, from: nat, to: nat) {
    && (forall at :: at in after <==> at in before || (at.0 == p && from <= at.1 < to))
    && (forall at <- after :: after[at] == if at in before then before[at] else BundleAt(k, c, at.1))
    && |after| == |before| + to - from
  }

  /** How many of the keys p:from .. p:to-1 the cache does not hold. */
  function NewKeys(cache: SkippedKeys, p: Public, from: nat, to: nat): (count: nat)
    ensures from >= to ==> count == 0
    ensures from < to ==> count <= to - from
    decreases if from < to then to - from else 0
  {
    if from >= to then 0
    else (if (p, from) in cache then 0 else 1) + NewKeys(cache, p, from + 1, to)
  }

  lemma {:induction false} AllKeysNew(cache: SkippedKeys, p: Public, from: nat, to: nat)
    requires from <= to && forall i :: from <= i < to ==> (p, i) !in cache
    ensures NewKeys(cache, p, from, to) == to - from
    decreases if from < to then to - from else 0
  {
    if from < to { AllKeysNew(cache, p, from + 1, to); }
  }

  /** Only the keys counted matter. */
  lemma {:induction false} NewKeysAgree(cache: SkippedKeys, cache': SkippedKeys, p: Public, from: nat, to: nat)
    requires forall i :: from <= i < to ==> ((p, i) in cache <==> (p, i) in cache')
    ensures NewKeys(cache, p, from, to) == NewKeys(cache', p, from, to)
    decreases if from < to then to - from else 0
  {
    if from < to { NewKeysAgree(cache, cache', p, from + 1, to); }
  }

  /** Every key is filed while the cache has room; a key it already holds takes none. */
  predicate RoomToStage(cache: SkippedKeys, p: Public, from: nat, to: nat) {
    from >= to || |cache| + NewKeys(cache, p, from, to - 1) < 2000
  }

  lemma RoomAfterOne(cache: SkippedKeys, p: Public, from: nat, to: nat, bundle: Bundle)
    requires from < to
    ensures RoomToStage(cache, p, from, to)
      <==> |cache| < MAX_SKIPPED_TOTAL && RoomToStage(cache[(p, from) := bundle], p, from + 1, to)
  {
    var cache' := cache[(p, from) := bundle];
    assert |cache'| == |cache| + (if (p, from) in cache then 0 else 1) by { SizeAfterOne(cache, (p, from), bundle); }
    NewKeysAgree(cache, cache', p, from + 1, to - 1);
  }

  lemma SizeAfterOne(cache: SkippedKeys, at: (Public, nat), bundle: Bundle)
    ensures |cache[at := bundle]| == |cache| + (if at in cache then 0 else 1)
  {}

  /** Staging to message n succeeds exactly when neither limit is exceeded, whatever the cache already holds. */
  lemma {:induction false} StageOkIff(k: Kdf, s: State, n: nat, limit: nat)
    requires n <= MAX_COUNTER + 1
    ensures var r := StageTo(k, s, n, limit);
      && (r.Ok? <==> n <= s.recvCounter + limit && RoomToStage(s.skipped, s.remote, s.recvCounter, n))
      && (!r.Ok? ==> r.TooManySkipped? || r.CacheFull?)
    decreases n - s.recvCounter
  {
    if s.recvCounter < n {
      RoomAfterOne(s.skipped, s.remote, s.recvCounter, n, k.message(s.recvChain, s.recvCounter));
      hide RoomToStage;
      if |s.skipped| < MAX_SKIPPED_TOTAL && limit > 0 {
        StageOkIff(k, StageSkipped(k, s).value, n, limit - 1);
      }
    }
  }

  /** What staging leaves behind: the chain at message n, and its keys filed. */
  lemma {:induction false} StagedChain(k: Kdf, s: State, c: Key, n: nat, limit: nat)
    requires s.recvChain == ChainAt(k, c, s.recvCounter) && s.recvCounter <= n && StageTo(k, s, n, limit).Ok?
    requires forall i :: s.recvCounter <= i < n ==> (s.remote, i) !in s.skipped
    ensures var t := StageTo(k, s, n, limit).value;
      && t == s.(skipped := t.skipped, recvChain := ChainAt(k, c, n), recvCounter := n)
      && Staged(k, s.skipped, t.skipped, s.remote, c, s.recvCounter, n)
    decreases n - s.recvCounter
  {
    if s.recvCounter < n {
      var t := StageSkipped(k, s).value;
      StagedChain(k, t, c, n, limit - 1);
      StagedOneMore(k, s, t.skipped, StageTo(k, s, n, limit).value.skipped, c, n);
    }
  }

  lemma StagedOneMore(k: Kdf, s: State, mid: SkippedKeys, after: SkippedKeys, c: Key, n: nat)
    requires s.recvCounter < n && (s.remote, s.recvCounter) !in s.skipped
    requires mid == s.skipped[(s.remote, s.recvCounter) := BundleAt(k, c, s.recvCounter)]
    requires Staged(k, mid, after, s.remote, c, s.recvCounter + 1, n)
    ensures Staged(k, s.skipped, after, s.remote, c, s.recvCounter, n)
  {}

  /** Both together, for a chain none of whose keys is cached. */
  lemma StageToIff(k: Kdf, s: State, c: Key, n: nat, limit: nat)
    requires s.recvChain == ChainAt(k, c, s.recvCounter) && s.recvCounter <= n <= MAX_COUNTER + 1
    requires |s.skipped| <= MAX_SKIPPED_TOTAL
    requires forall i :: s.recvCounter <= i < n ==> (s.remote, i) !in s.skipped
    ensures StageTo(k, s, n, limit).Ok?
      <==> n - s.recvCounter <= limit && |s.skipped| + n - s.recvCounter <= MAX_SKIPPED_TOTAL
    ensures !StageTo(k, s, n, limit).Ok? ==> StageTo(k, s, n, limit).TooManySkipped? || StageTo(k, s, n, limit).CacheFull?
    ensures StageTo(k, s, n, limit).Ok? ==>
      var t := StageTo(k, s, n, limit).value;
      && t == s.(skipped := t.skipped, recvChain := ChainAt(k, c, n), recvCounter := n)
      && Staged(k, s.skipped, t.skipped, s.remote, c, s.recvCounter, n)
  {
    hide StageTo, Staged, ChainAt;
    StageOkIff(k, s, n, limit);
    if s.recvCounter < n { AllKeysNew(s.skipped, s.remote, s.recvCounter, n - 1); }
    if StageTo(k, s, n, limit).Ok? { StagedChain(k, s, c, n, limit); }
  }

  /** A message at or past the counter is answered exactly when the gap and the cache allow it, with that message's key. */
  lemma ReceiveOnChainIff(k: Kdf, s: State, c: Key, n: nat)
    requires s.recvChain == ChainAt(k, c, s.recvCounter) && s.recvCounter <= n <= 0xFFFFFFFF
    requires |s.skipped| <= 2000
    requires forall i :: s.recvCounter <= i < n ==> (s.remote, i) !in s.skipped
    ensures var r := ReceiveOnChain(k, s, n);
      && (r.Ok? <==> n - s.recvCounter <= 1000 && |s.skipped| + n - s.recvCounter <= 2000)
      && (!r.Ok? ==> r.TooManySkipped? || r.CacheFull?)
    ensures var r := ReceiveOnChain(k, s, n);
      r.Ok? ==>
        (&& r.value.1 == BundleAt(k, c, n)
         && r.value.0 == s.(skipped := r.value.0.skipped, recvChain := ChainAt(k, c, n + 1), recvCounter := n + 1)
         && Staged(k, s.skipped, r.value.0.skipped, s.remote, c, s.recvCounter, n))
  {
    hide Staged;
    StageToIff(k, s, c, n, MAX_SKIP);
  }

  /** Staging moves along the chain and touches nothing but the cache. */
  lemma {:induction false} StageToKeeps(k: Kdf, s: State, c: Key, n: nat, limit: nat)
    requires s.recvChain == ChainAt(k, c, s.recvCounter) && StageTo(k, s, n, limit).Ok?
    ensures var t := StageTo(k, s, n, limit).value;
      && t.root == s.root && t.ourPrivate == s.ourPrivate && t.recvCounter == (if s.recvCounter < n then n else s.recvCounter)
      && t.recvChain == ChainAt(k, c, t.recvCounter)
    decreases n - s.recvCounter
  {
    if s.recvCounter < n {
      var t := StageSkipped(k, s).value;
      StageToKeeps(k, t, c, n, limit - 1);
    }
  }

  /** Whatever a chain answers is the key of that chain's message. */
  lemma ReceivedKey(k: Kdf, s: State, c: Key, n: nat)
    requires s.recvChain == ChainAt(k, c, s.recvCounter) && ReceiveOnChain(k, s, n).Ok?
    ensures ReceiveOnChain(k, s, n).value.1 == BundleAt(k, c, n)
  {
    hide StageTo;
    StageToKeeps(k, s, c, n, MAX_SKIP);
  }

  /** At the start of a chain, whatever the cache already holds of it. */
  lemma ReceiveFirstIff(k: Kdf, s: State, n: nat)
    requires s.recvCounter == 0 && n <= MAX_COUNTER
    ensures var r := ReceiveOnChain(k, s, n);
      && (r.Ok? <==> n <= MAX_SKIP && RoomToStage(s.skipped, s.remote, 0, n))
      && (!r.Ok? ==> r.TooManySkipped? || r.CacheFull?)
  {
    hide StageTo, RoomToStage;
    StageOkIff(k, s, n, MAX_SKIP);
    if n <= MAX_SKIP && StageTo(k, s, n, MAX_SKIP).Ok? { StageCounts(k, s, n, MAX_SKIP); }
  }

  lemma {:induction false} StageCounts(k: Kdf, s: State, n: nat, limit: nat)
    requires StageTo(k, s, n, limit).Ok?
    ensures StageTo(k, s, n, limit).value.recvCounter == if s.recvCounter < n then n else s.recvCounter
    decreases n - s.recvCounter
  {
    if s.recvCounter < n { StageCounts(k, StageSkipped(k, s).value, n, limit - 1); }
  }

  // ---- Why callers discard the state of a failed call ----

  lemma {:induction false} StagingOverruns(k: Kdf, s: State, n: nat, limit: nat)
    requires n > s.recvCounter + limit && s.recvCounter + limit <= MAX_COUNTER && |s.skipped| + limit < MAX_SKIPPED_TOTAL
    ensures StageTo(k, s, n, limit) == TooManySkipped
    ensures StagingLeaves(k, s, n, limit).recvCounter == s.recvCounter + limit + 1
    decreases limit
  {
    if limit > 0 {
      SizeAfterOne(s.skipped, (s.remote, s.recvCounter), k.message(s.recvChain, s.recvCounter));
      StagingOverruns(k, StageSkipped(k, s).value, n, limit - 1);
    }
  }

  /**
   * A refused message is not harmless to the object: with a header that claims a longer previous chain, the refusal
   * leaves the counter past 1001 messages that have not come, none of which the chain itself would answer any more.
   */
  lemma RefusalMovesOn(k: Kdf, s: State, header: Header, ephemeral: Private)
    requires (header.dhPublicKey, header.messageNumber) !in s.skipped && header.dhPublicKey != s.remote
    requires header.prevChainLength > s.recvCounter + MAX_SKIP && s.recvCounter + MAX_SKIP <= MAX_COUNTER
    requires |s.skipped| + MAX_SKIP < MAX_SKIPPED_TOTAL
    ensures Decrypted(k, s, header, ephemeral) == TooManySkipped
    ensures var left := DecryptLeaves(k, s, header, ephemeral);
      && left.recvCounter == s.recvCounter + MAX_SKIP + 1
      && forall i: nat :: i <= s.recvCounter + MAX_SKIP ==> ReceiveOnChain(k, left, i) == Duplicate
  {
    hide StageTo, StagingLeaves;
    StagingOverruns(k, s, header.prevChainLength, MAX_SKIP);
  }
}
