/**
 * The key manager's memory cache and rotations, over a secure store of byte strings.
 *
 * Byte arrays are heap objects, as in the source: what a caller wipes and what the
 * manager wipes are different arrays, and the contracts say so.
 */
module KeyManager {
  import opened Basics
  import opened HexText
  import opened Primitives

  // ---- Paths ----

  predicate IsSegmentChar(c: char) {
    'A' <= c <= 'Z' || 'a' <= c <= 'z' || '0' <= c <= '9' || c == '_' || c == '-'
  }

  /** _checkSegment does not throw. */
  predicate IsSegment(s: string) { s != "" && forall c <- s :: IsSegmentChar(c) }

  function ContactPrefix(contact: string): string { "session/" + contact + "/" }

  function SessionPath(contact: string, device: string): string { ContactPrefix(contact) + device }

  lemma PathText(contact: string, device: string)
    ensures ContactPrefix(contact) == "session/" + contact + "/"
    ensures SessionPath(contact, device) == "session/" + contact + "/" + device
  {}

  /** A contact's prefix is a prefix of exactly that contact's paths. */
  lemma PrefixIsContact(contact: string, contact': string, device: string)
    requires IsSegment(contact) && IsSegment(contact') && IsSegment(device)
    ensures ContactPrefix(contact) <= SessionPath(contact', device) <==> contact == contact'
  {
    var p, s, n := ContactPrefix(contact), SessionPath(contact', device), |"session/"|;
    assert forall k :: 0 <= k < |contact| ==> p[n + k] == contact[k] && contact[k] in contact;
    assert forall k :: 0 <= k < |contact'| ==> s[n + k] == contact'[k] && contact'[k] in contact';
    assert p[n + |contact|] == '/' && s[n + |contact'|] == '/';
    assert p[n..n + |contact|] == contact && s[n..n + |contact'|] == contact';
    if p <= s {
      assert p == s[..|p|];
      assert |contact| == |contact'|;
    }
    if contact == contact' { assert s[..|p|] == p; }
  }

  lemma SessionPathInjective(contact: string, device: string, contact': string, device': string)
    requires IsSegment(contact) && IsSegment(device) && IsSegment(contact') && IsSegment(device')
    requires SessionPath(contact, device) == SessionPath(contact', device')
    ensures contact == contact' && device == device'
  {
    assert SessionPath(contact, device)[..|ContactPrefix(contact)|] == ContactPrefix(contact);
    PrefixIsContact(contact, contact', device');
    assert SessionPath(contact, device)[|ContactPrefix(contact)|..] == device;
    assert SessionPath(contact', device')[|ContactPrefix(contact)|..] == device';
  }

  // ---- The manager ----

  datatype Pair = Pair(publicKey: array<bv8>, privateKey: array<bv8>)

  /** What secure storage holds. */
  datatype Backend = Backend(
    publicKey: Option<Bytes>, privateKey: Option<Bytes>,
    identitySeed: Option<Bytes>, identityEpoch: nat, sessionEpochs: map<string, nat>)

  function Zeros(n: nat): (s: Bytes)
    ensures |s| == n && forall k :: 0 <= k < n ==> s[k] == 0
  {
    seq(n, _ => 0)
  }

  method Wipe(a: array<bv8>)
    modifies a
    ensures a[..] == Zeros(a.Length)
  {
    for i := 0 to a.Length
      invariant forall k :: 0 <= k < i ==> a[k] == 0
    {
      a[i] := 0;
    }
  }

  method Copy(a: array<bv8>) returns (b: array<bv8>)
    ensures fresh(b) && b[..] == a[..]
  {
    b := FromBytes(a[..]);
  }

  method FromBytes(bytes: Bytes) returns (b: array<bv8>)
    ensures fresh(b) && b[..] == bytes
  {
    b := new bv8[|bytes|](i requires 0 <= i < |bytes| => bytes[i]);
  }

  class Manager {
    var backend: Backend
    var sessionCache: map<string, array<bv8>>
    var foreground: Option<Pair>
    var rotationEpochs: map<string, nat>

    /** The arrays of the cache, which nobody else may hold. */
    ghost function Owned(): set<object>
      reads this`sessionCache, this`foreground
    {
      (set k | k in sessionCache :: sessionCache[k])
      + (if foreground.Some? then {foreground.value.publicKey, foreground.value.privateKey} else {})
    }

    /** The cached identity is the stored one, and no two cached things share an array. */
    ghost predicate Valid()
      reads this, Owned()
    {
      && (foreground.Some? ==>
        (&& backend.publicKey == Some(foreground.value.publicKey[..])
         && backend.privateKey == Some(foreground.value.privateKey[..])
         && foreground.value.publicKey != foreground.value.privateKey
         && forall k <- sessionCache :: sessionCache[k] !in {foreground.value.publicKey, foreground.value.privateKey}))
      && forall k, k' | k in sessionCache && k' in sessionCache && k != k' :: sessionCache[k] != sessionCache[k']
    }

    /** The cached session keys by path. */
    ghost function SessionKeys(): map<string, Bytes>
      reads this`sessionCache, this`foreground, Owned()
    {
      map k | k in sessionCache :: sessionCache[k][..]
    }

    constructor ()
      ensures Valid() && fresh(Owned()) && SessionKeys() == map[] && backend == Backend(None, None, None, 0, map[])
    {
      backend := Backend(None, None, None, 0, map[]);
      sessionCache, foreground, rotationEpochs := map[], None, map[];
    }

    /** zeroizeCache: empties the cache after wiping every secret in it, and wipes nothing else. */
    method ZeroizeCache()
      requires Valid()
      modifies this`sessionCache, this`foreground, Owned()
      ensures Valid() && Owned() == {} && SessionKeys() == map[] && foreground == None
      ensures forall k <- old(sessionCache) :: old(sessionCache)[k][..] == Zeros(old(sessionCache)[k].Length)
      ensures old(foreground).Some? ==> old(foreground).value.privateKey[..] == Zeros(old(foreground).value.privateKey.Length)
    {
      ghost var identity := foreground;
      if foreground.Some? {
        Wipe(foreground.value.privateKey);
        foreground := None;
      }
      var todo := sessionCache.Keys;
      while todo != {}
        invariant todo <= sessionCache.Keys
        invariant sessionCache == old(sessionCache)
        invariant foreground == None
        invariant forall k <- sessionCache :: k !in todo ==> sessionCache[k][..] == Zeros(sessionCache[k].Length)
        invariant identity.Some? ==> identity.value.privateKey[..] == Zeros(identity.value.privateKey.Length)
      {
        var k :| k in todo;
        todo := todo - {k};
        Wipe(sessionCache[k]);
      }
      sessionCache := map[];
    }

    /** storeKeyPair. */
    method StoreKeyPair(pair: Pair)
      requires Valid() && {pair.publicKey, pair.privateKey} !! Owned()
      modifies this`backend, this`sessionCache, this`foreground, Owned()
      ensures Valid() && Owned() == {}
      ensures backend == old(backend).(publicKey := Some(pair.publicKey[..]), privateKey := Some(pair.privateKey[..]))
      ensures pair.publicKey[..] == old(pair.publicKey[..]) && pair.privateKey[..] == old(pair.privateKey[..])
    {
      ZeroizeCache();
      backend := backend.(publicKey := Some(pair.publicKey[..]));
      backend := backend.(privateKey := Some(pair.privateKey[..]));
    }

    /** getKeyPair: the last stored pair, in arrays that are the caller's alone. */
    method GetKeyPair() returns (r: Option<Pair>)
      requires Valid()
      modifies this`foreground
      ensures Valid() && fresh(Owned() - old(Owned()))
      ensures r == None <==> backend.publicKey == None || backend.privateKey == None
      ensures r.Some? ==> backend.publicKey == Some(r.value.publicKey[..]) && backend.privateKey == Some(r.value.privateKey[..])
      ensures r.Some? ==> fresh(r.value.publicKey) && fresh(r.value.privateKey) && {r.value.publicKey, r.value.privateKey} !! Owned()
    {
      if foreground.Some? {
        var pub := Copy(foreground.value.publicKey);
        var priv := Copy(foreground.value.privateKey);
        return Some(Pair(pub, priv));
      }
      if backend.publicKey == None || backend.privateKey == None { return None; }
      var cachedPub := FromBytes(backend.publicKey.value);
      var cachedPriv := FromBytes(backend.privateKey.value);
      foreground := Some(Pair(cachedPub, cachedPriv));
      var pub := FromBytes(backend.publicKey.value);
      var priv := FromBytes(backend.privateKey.value);
      return Some(Pair(pub, priv));
    }

    /** cacheSessionKey: keeps a copy; false where the source throws. */
    method CacheSessionKey(contact: string, device: string, key: array<bv8>) returns (ok: bool)
      requires Valid() && key !in Owned()
      modifies this`sessionCache, Owned()
      ensures ok <==> IsSegment(contact) && IsSegment(device)
      ensures Valid() && fresh(Owned() - old(Owned())) && key[..] == old(key[..])
      ensures SessionKeys() == if ok then old(SessionKeys())["session/" + contact + "/" + device := key[..]] else old(SessionKeys())
      ensures var path := "session/" + contact + "/" + device;
        ok && path in old(sessionCache) ==> old(sessionCache[path])[..] == Zeros(old(sessionCache[path]).Length)
    {
      hide *;
      if !IsSegment(contact) || !IsSegment(device) { return false; }
      PathText(contact, device);
      StoreCopy(SessionPath(contact, device), key);
      return true;
    }

    method StoreCopy(path: string, key: array<bv8>)
      requires Valid() && key !in Owned()
      modifies this`sessionCache, Owned()
      ensures Valid() && fresh(Owned() - old(Owned())) && key[..] == old(key[..])
      ensures SessionKeys() == old(SessionKeys())[path := key[..]]
      ensures path in old(sessionCache) ==> old(sessionCache[path])[..] == Zeros(old(sessionCache[path]).Length)
    {
      hide Valid, SessionKeys;
      ghost var keys := SessionKeys();
      WipeAt(path);
      ghost var wiped := SessionKeys();
      PutCopy(path, key);
      UpdatedEither(keys, wiped, path, key[..]);
    }

    method WipeAt(path: string)
      requires Valid()
      modifies if path in sessionCache then {sessionCache[path]} else {}
      ensures Valid() && SessionKeys().Keys == old(SessionKeys()).Keys
      ensures forall k <- SessionKeys() :: k != path ==> SessionKeys()[k] == old(SessionKeys())[k]
      ensures path in sessionCache ==> sessionCache[path][..] == Zeros(sessionCache[path].Length)
    {
      if path in sessionCache { Wipe(sessionCache[path]); }
    }

    method PutCopy(path: string, key: array<bv8>)
      requires Valid() && key !in Owned()
      modifies this`sessionCache
      ensures Valid() && fresh(Owned() - old(Owned()))
      ensures SessionKeys() == old(SessionKeys())[path := key[..]]
    {
      var copy := Copy(key);
      sessionCache := sessionCache[path := copy];
    }

    /** getCachedSessionKey: a copy; not ok where the source throws. */
    method GetCachedSessionKey(contact: string, device: string) returns (ok: bool, r: Option<array<bv8>>)
      requires Valid()
      ensures ok <==> IsSegment(contact) && IsSegment(device)
      ensures var path := "session/" + contact + "/" + device;
        && (r.Some? <==> ok && path in SessionKeys())
        && (r.Some? ==> fresh(r.value) && r.value[..] == SessionKeys()[path])
    {
      if !IsSegment(contact) || !IsSegment(device) { return false, None; }
      var path := SessionPath(contact, device);
      PathText(contact, device);
      if path !in sessionCache { return true, None; }
      var copy := Copy(sessionCache[path]);
      return true, Some(copy);
    }

    /** rotateSessionKey: the contact's entries are wiped and dropped, its epoch goes up by one; None where the
        source throws. */
    method RotateSessionKey(contact: string) returns (r: Option<nat>)
      requires Valid()
      modifies this, Owned()
      ensures Valid() && Owned() <= old(Owned()) && foreground == old(foreground)
      ensures r.Some? <==> IsSegment(contact)
      ensures r == None ==> SessionKeys() == old(SessionKeys()) && backend == old(backend)
      ensures r.Some? ==>
        SessionKeys() == map k | k in old(SessionKeys()) && !("session/" + contact + "/" <= k) :: old(SessionKeys())[k]
      ensures r.Some? ==> forall k <- old(sessionCache) :: "session/" + contact + "/" <= k ==>
        old(sessionCache)[k][..] == Zeros(old(sessionCache)[k].Length)
      ensures r.Some? ==>
        r.value == (if contact in old(backend).sessionEpochs then old(backend).sessionEpochs[contact] else 0) + 1
      ensures r.Some? ==> backend == old(backend).(sessionEpochs := old(backend).sessionEpochs[contact := r.value])
      ensures r.Some? ==> rotationEpochs == old(rotationEpochs)[contact := r.value]
    {
      if !IsSegment(contact) { return None; }
      hide Valid;
      PathText(contact, "");
      DropKeys(ContactPrefix(contact));
      var next := BumpSessionEpoch(contact);
      return Some(next);
    }

    method BumpSessionEpoch(contact: string) returns (next: nat)
      requires Valid()
      modifies this`backend, this`rotationEpochs
      ensures Valid() && next == EpochOf(old(backend).sessionEpochs, contact) + 1
      ensures backend == old(backend).(sessionEpochs := old(backend).sessionEpochs[contact := next])
      ensures rotationEpochs == old(rotationEpochs)[contact := next]
    {
      next := EpochOf(backend.sessionEpochs, contact) + 1;
      backend := backend.(sessionEpochs := backend.sessionEpochs[contact := next]);
      rotationEpochs := rotationEpochs[contact := next];
    }

    /** The removeWhere of rotateSessionKey: entries under the prefix are wiped, then removed. */
    method DropKeys(prefix: string)
      requires Valid()
      modifies this`sessionCache, Owned()
      ensures Valid() && Owned() <= old(Owned())
      ensures SessionKeys() == Without(old(SessionKeys()), prefix)
      ensures forall k <- old(sessionCache) :: prefix <= k ==> old(sessionCache)[k][..] == Zeros(old(sessionCache)[k].Length)
    {
      ghost var keys := SessionKeys();
      WipeKeys(prefix);
      Remove(prefix);
      assert SessionKeys() == Without(keys, prefix) by { hide Owned, Valid; }
    }

    method Remove(prefix: string)
      requires Valid()
      modifies this`sessionCache
      ensures Valid() && Owned() <= old(Owned())
      ensures sessionCache == map k | k in old(sessionCache) && !(prefix <= k) :: old(sessionCache)[k]
    {
      sessionCache := map k | k in sessionCache && !(prefix <= k) :: sessionCache[k];
    }

    method WipeKeys(prefix: string)
      requires Valid()
      modifies set k | k in sessionCache && prefix <= k :: sessionCache[k]
      ensures Valid()
      ensures forall k <- sessionCache :: if prefix <= k then sessionCache[k][..] == Zeros(sessionCache[k].Length)
                                          else sessionCache[k][..] == old(sessionCache[k][..])
    {
      var todo := sessionCache.Keys;
      while todo != {}
        invariant todo <= sessionCache.Keys
        invariant forall k <- sessionCache :: prefix <= k && k !in todo ==> sessionCache[k][..] == Zeros(sessionCache[k].Length)
      {
        var k :| k in todo;
        todo := todo - {k};
        if prefix <= k { Wipe(sessionCache[k]); }
      }
    }

    /** n rotations of one contact one after the other. */
    method RotateTimes(contact: string, n: nat) returns (epochs: seq<nat>)
      requires Valid() && IsSegment(contact)
      modifies this, Owned()
      ensures Valid() && Owned() <= old(Owned())
      ensures |epochs| == n
      ensures var first := if contact in old(backend).sessionEpochs then old(backend).sessionEpochs[contact] else 0;
        forall k :: 0 <= k < n ==> epochs[k] == first + k + 1
      ensures backend == old(backend).(sessionEpochs := if n == 0 then old(backend).sessionEpochs
                                                        else old(backend).sessionEpochs[contact := epochs[n - 1]])
    {
      hide Valid, SessionKeys;
      epochs := [];
      for i := 0 to n
        invariant Valid() && Owned() <= old(Owned())
        invariant |epochs| == i
        invariant var first := if contact in old(backend).sessionEpochs then old(backend).sessionEpochs[contact] else 0;
          forall k :: 0 <= k < i ==> epochs[k] == first + k + 1
        invariant backend == old(backend).(sessionEpochs := if i == 0 then old(backend).sessionEpochs
                                                            else old(backend).sessionEpochs[contact := epochs[i - 1]])
      {
        var epoch := RotateSessionKey(contact);
        epochs := epochs + [epoch.value];
      }
    }

    /** rotateIdentity. The derived seed stands in while none was ever stored; the new seed is random. */
    method RotateIdentity(s: Signing, derivedSeed: Bytes, newSeed: Bytes, now: int) returns (a: Announcement)
      modifies this`backend
      ensures (Identity(backend.identitySeed, backend.identityEpoch), a)
        == Rotated(s, old(Identity(backend.identitySeed, backend.identityEpoch)), derivedSeed, newSeed, now)
      ensures backend == old(backend).(identitySeed := Some(newSeed), identityEpoch := old(backend).identityEpoch + 1)
      ensures var seed := if old(backend).identitySeed.Some? then old(backend).identitySeed.value else derivedSeed;
        && a.oldPublicKey == Hex(s.publicOf(seed)) && a.newPublicKey == Hex(s.publicOf(newSeed)) && a.issuedAt == now
        && a.signature == Hex(s.sign(seed, a.oldPublicKey + "|" + a.newPublicKey + "|" + s.decimal(now)))
    {
      var oldSeed := if backend.identitySeed.Some? then backend.identitySeed.value else derivedSeed;
      var oldPub := Hex(s.publicOf(oldSeed));
      var newPub := Hex(s.publicOf(newSeed));
      var signature := s.sign(oldSeed, Payload(s, oldPub, newPub, now));
      a := Announcement(oldPub, newPub, now, Hex(signature));
      backend := backend.(identitySeed := Some(newSeed));
      backend := backend.(identityEpoch := backend.identityEpoch + 1);
    }
  }

  lemma UpdatedEither(keys: map<string, Bytes>, keys': map<string, Bytes>, path: string, key: Bytes)
    requires keys'.Keys == keys.Keys && forall k <- keys' :: k != path ==> keys'[k] == keys[k]
    ensures keys'[path := key] == keys[path := key]
  {}

  function EpochOf(epochs: map<string, nat>, contact: string): nat {
    if contact in epochs then epochs[contact] else 0
  }

  /** Entries whose path starts with the prefix removed. */
  function Without(keys: map<string, Bytes>, prefix: string): map<string, Bytes> {
    map k | k in keys && !(prefix <= k) :: keys[k]
  }

  /** Rotating one contact drops that contact's keys and nobody else's. */
  lemma RotationDropsExactly(keys: map<string, Bytes>, contact: string, contact': string, device: string)
    requires IsSegment(contact) && IsSegment(contact') && IsSegment(device)
    ensures SessionPath(contact', device) in Without(keys, ContactPrefix(contact))
      <==> SessionPath(contact', device) in keys && contact' != contact
  {
    PrefixIsContact(contact, contact', device);
  }

  /** A caller may wipe what it was given, and the manager may wipe its cache, without either seeing the other. */
  method CallerWipesItsCopy(m: Manager) returns (before: Option<Pair>, after: Option<Pair>)
    requires m.Valid()
    modifies m, m.Owned()
    ensures m.Valid() && before.Some? == after.Some?
    ensures after.Some? ==>
      old(m.backend).publicKey == Some(after.value.publicKey[..]) && old(m.backend).privateKey == Some(after.value.privateKey[..])
  {
    before := m.GetKeyPair();
    if before.Some? { Wipe(before.value.privateKey); }
    after := m.GetKeyPair();
    m.ZeroizeCache();
  }

  // ---- Identity rotation ----

  datatype Signing = Signing(
    publicOf: Bytes -> Bytes,
    sign: (Bytes, string) -> Bytes,
    verify: (string, Bytes, Bytes) -> bool,
    decimal: int -> string)
  {
    ghost predicate SignaturesVerify() {
      forall seed, text :: verify(text, sign(seed, text), publicOf(seed))
    }

    /** What verifies under a key is its owner's signature of that text and no other. */
    ghost predicate SignaturesBind() {
      && (forall seed, text, signature :: verify(text, signature, publicOf(seed)) <==> signature == sign(seed, text))
      && (forall seed, text, text' :: sign(seed, text) == sign(seed, text') ==> text == text')
    }
  }

  datatype Announcement = Announcement(oldPublicKey: string, newPublicKey: string, issuedAt: int, signature: string)

  function Payload(s: Signing, oldPub: string, newPub: string, issuedAt: int): string {
    oldPub + "|" + newPub + "|" + s.decimal(issuedAt)
  }

  /** What is signed determines both keys and the time: keys are written in hexadecimal, numbers in digits. */
  lemma PayloadBinds(s: Signing, oldPub: string, newPub: string, at: int, oldPub': string, newPub': string, at': int)
    requires forall x: int, y: int :: s.decimal(x) == s.decimal(y) ==> x == y
    requires IsHex(oldPub, |oldPub|) && IsHex(newPub, |newPub|) && IsHex(oldPub', |oldPub'|) && IsHex(newPub', |newPub'|)
    requires Payload(s, oldPub, newPub, at) == Payload(s, oldPub', newPub', at')
    ensures oldPub == oldPub' && newPub == newPub' && at == at'
  {
    var rest, rest' := newPub + "|" + s.decimal(at), newPub' + "|" + s.decimal(at');
    assert Payload(s, oldPub, newPub, at) == oldPub + "|" + rest && Payload(s, oldPub', newPub', at') == oldPub' + "|" + rest';
    UpToBar(oldPub, rest, oldPub', rest');
    UpToBar(newPub, s.decimal(at), newPub', s.decimal(at'));
  }

  lemma UpToBar(a: string, x: string, b: string, y: string)
    requires IsHex(a, |a|) && IsHex(b, |b|) && a + "|" + x == b + "|" + y
    ensures a == b && x == y
  {
    var s, t := a + "|" + x, b + "|" + y;
    assert s[|a|] == '|' && t[|b|] == '|';
    assert forall k :: 0 <= k < |a| ==> s[k] == a[k] && a[k] in a;
    assert forall k :: 0 <= k < |b| ==> t[k] == b[k] && b[k] in b;
    assert |a| == |b|;
    assert s[..|a|] == a && t[..|b|] == b;
    assert s[|a| + 1..] == x && t[|b| + 1..] == y;
  }

  /** RotationAnnouncement.verifySignature. */
  predicate Verifies(s: Signing, a: Announcement, oldPublicKey: Bytes) {
    s.verify(Payload(s, a.oldPublicKey, a.newPublicKey, a.issuedAt), Unhex(a.signature), oldPublicKey)
  }

  /** An announcement carried with other keys or another time than it was signed with does not verify. */
  lemma ChangedAnnouncementIsRefused(s: Signing, id: Identity, derivedSeed: Bytes, newSeed: Bytes, now: int,
                                     oldPub: string, newPub: string, at: int)
    requires s.SignaturesBind() && forall x: int, y: int :: s.decimal(x) == s.decimal(y) ==> x == y
    requires IsHex(oldPub, |oldPub|) && IsHex(newPub, |newPub|)
    ensures var a := Rotated(s, id, derivedSeed, newSeed, now).1;
      Verifies(s, Announcement(oldPub, newPub, at, a.signature), s.publicOf(CurrentSeed(id, derivedSeed))) <==>
        oldPub == a.oldPublicKey && newPub == a.newPublicKey && at == a.issuedAt
  {
    hide Payload, Hex, Unhex;
    var a, seed := Rotated(s, id, derivedSeed, newSeed, now).1, CurrentSeed(id, derivedSeed);
    var signed, claimed := Payload(s, a.oldPublicKey, a.newPublicKey, now), Payload(s, oldPub, newPub, at);
    UnhexHex(s.sign(seed, signed));
    assert s.verify(claimed, s.sign(seed, signed), s.publicOf(seed)) <==> s.sign(seed, signed) == s.sign(seed, claimed);
    if signed == claimed { PayloadBinds(s, a.oldPublicKey, a.newPublicKey, now, oldPub, newPub, at); }
  }

  datatype Identity = Identity(seed: Option<Bytes>, epoch: nat)

  function CurrentSeed(id: Identity, derivedSeed: Bytes): Bytes {
    if id.seed.Some? then id.seed.value else derivedSeed
  }

  function Rotated(s: Signing, id: Identity, derivedSeed: Bytes, newSeed: Bytes, now: int): (Identity, Announcement) {
    var oldSeed := CurrentSeed(id, derivedSeed);
    var oldPub, newPub := Hex(s.publicOf(oldSeed)), Hex(s.publicOf(newSeed));
    (Identity(Some(newSeed), id.epoch + 1),
     Announcement(oldPub, newPub, now, Hex(s.sign(oldSeed, Payload(s, oldPub, newPub, now)))))
  }

  /** One rotation after the other, each with its own random seed and time. */
  function Rotations(s: Signing, id: Identity, derivedSeed: Bytes, draws: seq<(Bytes, int)>): (Identity,
      seq<Announcement>)
    decreases |draws|
  {
    if draws == [] then (id, [])
    else
      var (id', a) := Rotated(s, id, derivedSeed, draws[0].0, draws[0].1);
      var (last, rest) := Rotations(s, id', derivedSeed, draws[1..]);
      (last, [a] + rest)
  }

  /** A contact that trusts a key accepts the announcements one by one, each under the key the last one announced. */
  ghost predicate ChainVerifies(s: Signing, trusted: Bytes, announcements: seq<Announcement>)
    decreases |announcements|
  {
    announcements != [] ==>
      && announcements[0].oldPublicKey == Hex(trusted)
      && Verifies(s, announcements[0], trusted)
      && ChainVerifies(s, Unhex(announcements[0].newPublicKey), announcements[1..])
  }

  /** n rotations: the epoch is n higher, and the announcements form a chain from the old key to the new one. */
  lemma {:induction false} RotationsChain(s: Signing, id: Identity, derivedSeed: Bytes, draws: seq<(Bytes, int)>)
    requires s.SignaturesVerify()
    ensures var (last, announcements) := Rotations(s, id, derivedSeed, draws);
      && last.epoch == id.epoch + |draws| && |announcements| == |draws|
      && ChainVerifies(s, s.publicOf(CurrentSeed(id, derivedSeed)), announcements)
      && (forall k :: 0 <= k < |draws| ==>
            announcements[k].newPublicKey == Hex(s.publicOf(draws[k].0)) && announcements[k].issuedAt == draws[k].1)
      && (draws != [] ==> last.seed == Some(draws[|draws| - 1].0))
    decreases |draws|
  {
    if draws != [] {
      var seed := CurrentSeed(id, derivedSeed);
      var (id', a) := Rotated(s, id, derivedSeed, draws[0].0, draws[0].1);
      RotationsChain(s, id', derivedSeed, draws[1..]);
      UnhexHex(s.sign(seed, Payload(s, a.oldPublicKey, a.newPublicKey, a.issuedAt)));
      UnhexHex(s.publicOf(draws[0].0));
      var (last, rest) := Rotations(s, id', derivedSeed, draws[1..]);
      assert ([a] + rest)[1..] == rest;
    }
  }
}
