/**
 * Proving possession of an identity key: the server's challenge table and the client's
 * answer. Times are seconds of the database clock; random values are parameters.
 */
module IdentityChallenge {
  import opened Basics
  import opened HexText
  import opened Primitives
  import opened Runs

  const LIFETIME: int := 120

  datatype Purpose = Register | Login

  function Name(p: Purpose): string { if p.Register? then "register" else "login" }

  /** X25519, HMAC-SHA256 over a text, and the server's token hash. */
  datatype Suite = Suite(
    publicOf: Bytes -> Bytes,
    shared: (Bytes, Bytes) -> Bytes,
    hmac: (Bytes, string) -> string,
    tokenHash: string -> string)
  {
    /** Section 6.1 of RFC 7748: both sides compute the same secret. */
    ghost predicate Symmetric() {
      forall a, b :: shared(a, publicOf(b)) == shared(b, publicOf(a))
    }

    ghost predicate PublicKeysAre32Bytes() { forall a :: |publicOf(a)| == 32 }

    ghost predicate Injective() {
      && (forall a, b :: tokenHash(a) == tokenHash(b) ==> a == b)
      && (forall k, k', a, b :: hmac(k, a) == hmac(k', b) ==> a == b)
    }
  }

  predicate AllZero(bytes: Bytes) { forall b <- bytes :: b == 0 }

  /** What both sides authenticate. */
  function Transcript(purpose: string, id: string, device: string, publicKey: string, server: string,
      nonce: string): string {
    "chhaya-auth-v1|" + purpose + "|" + id + "|" + device + "|" + publicKey + "|" + server + "|" + nonce
  }

  datatype Row = Row(publicKey: string, device: string, purpose: Purpose, proofHash: string, expiresAt: int)

  type Challenges = map<string, Row>

  /** What the client is told. */
  datatype Challenge = Challenge(id: string, server: string, nonce: string, context: string)

  // ---- Server ----

  function RowFor(s: Suite, publicKey: string, device: string, purpose: Purpose, secret: Bytes, id: string,
      nonce: string, now: int): Row {
    var shared := s.shared(secret, Unhex(publicKey));
    var context := Transcript(Name(purpose), id, device, publicKey, Hex(s.publicOf(secret)), nonce);
    Row(publicKey, device, purpose, s.tokenHash(s.hmac(shared, context)), now + LIFETIME)
  }

  function Purged(t: Challenges, now: int): Challenges {
    map id | id in t && t[id].expiresAt > now :: t[id]
  }

  /** The purge, then the insert; an identifier already present fails the insert. */
  function Issued(t: Challenges, id: string, row: Row, now: int): Challenges {
    var live := Purged(t, now);
    if id in live then live else live[id := row]
  }

  predicate Matches(row: Row, publicKey: string, device: string, purpose: Purpose, now: int) {
    row.publicKey == publicKey && row.device == device && row.purpose == purpose && row.expiresAt > now
  }

  /** DELETE ... RETURNING, then the comparison of hashes. */
  function Consumed(s: Suite, t: Challenges, id: string, publicKey: string, device: string, purpose: Purpose,
      proof: string, now: int)
    : (Challenges, bool)
  {
    if id in t && Matches(t[id], publicKey, device, purpose, now)
    then (t - {id}, t[id].proofHash == s.tokenHash(proof))
    else (t, false)
  }

  class Server {
    const suite: Suite
    var table: Challenges

    constructor (suite: Suite)
      ensures this.suite == suite && table == map[]
    {
      this.suite := suite;
      table := map[];
    }

    /** issueIdentityChallenge. */
    method Issue(publicKey: string, device: string, purpose: Purpose, secret: Bytes, id: string, nonce: string,
        now: int)
      returns (r: Option<Challenge>)
      modifies this`table
      ensures AllZero(suite.shared(secret, Unhex(publicKey))) ==> r == None && table == old(table)
      ensures (forall b <- suite.shared(secret, Unhex(publicKey)) :: b == 0) ==> r.None? && table == old(table)
      ensures (exists b <- suite.shared(secret, Unhex(publicKey)) :: b != 0) ==>
        (r.None? <==> id in old(table) && old(table)[id].expiresAt > now)
      ensures !AllZero(suite.shared(secret, Unhex(publicKey))) ==>
        (&& table == Issued(old(table), id, RowFor(suite, publicKey, device, purpose, secret, id, nonce, now), now)
         && (r == None <==> id in Purged(old(table), now)))
      ensures r.Some? ==> id in table && table[id].expiresAt == now + 120
      ensures r.Some? ==> table[id].publicKey == publicKey && table[id].device == device && table[id].purpose == purpose
      ensures r.Some? ==>
        var server := Hex(suite.publicOf(secret));
        && r.value == Challenge(id, server, nonce, Transcript(Name(purpose), id, device, publicKey, server, nonce))
        && r.value.context == "chhaya-auth-v1|" + (if purpose == Register then "register" else "login") + "|" + id + "|"
                              + device + "|" + publicKey + "|" + server + "|" + nonce
        && table[id].proofHash == suite.tokenHash(suite.hmac(suite.shared(secret, Unhex(publicKey)), r.value.context))
    {
      var shared := suite.shared(secret, Unhex(publicKey));
      if AllZero(shared) { return None; }
      var server := Hex(suite.publicOf(secret));
      var context := Transcript(Name(purpose), id, device, publicKey, server, nonce);
      var proofHash := suite.tokenHash(suite.hmac(shared, context));
      table := map x | x in table && table[x].expiresAt > now :: table[x];
      if id in table { return None; }
      table := table[id := Row(publicKey, device, purpose, proofHash, now + LIFETIME)];
      return Some(Challenge(id, server, nonce, context));
    }

    /** consumeIdentityChallenge. */
    method Consume(id: string, publicKey: string, device: string, purpose: Purpose, proof: string,
        now: int) returns (ok: bool)
      modifies this`table
      ensures (table, ok) == Consumed(suite, old(table), id, publicKey, device, purpose, proof, now)
      // An attempt that fits a live challenge uses it up whatever the proof; any other attempt changes nothing.
      ensures
        if id in old(table) && old(table)[id].publicKey == publicKey && old(table)[id].device == device
           && old(table)[id].purpose == purpose && now < old(table)[id].expiresAt
        then table == old(table) - {id} && ok == (suite.tokenHash(proof) == old(table)[id].proofHash)
        else table == old(table) && !ok
    {
      if id !in table || !Matches(table[id], publicKey, device, purpose, now) { return false; }
      var proofHash := table[id].proofHash;
      table := table - {id};
      return proofHash == suite.tokenHash(proof);
    }
  }

  // ---- Client ----

  predicate IsIdText(s: string) { |s| == 36 && forall c <- s :: IsDigit(c) || c == '-' }

  /** IdentityChallengeProof.create: None where the source throws. */
  function Prove(s: Suite, secret: Bytes, purpose: string, device: string, id: string, server: string,
      nonce: string): Option<string> {
    if purpose !in ["register", "login"] || !IsIdText(id) || !IsHex(server, 64) || !IsHex(nonce, 64) then None
    else
      var shared := s.shared(secret, Unhex(server));
      if AllZero(shared) then None
      else Some(s.hmac(shared, Transcript(purpose, id, device, Hex(s.publicOf(secret)), server, nonce)))
  }

  /** The client answers exactly a challenge of the right form from a server key that agrees on more than zeros, and
      its proof authenticates purpose, challenge, device, both keys and nonce. */
  lemma ProvesIff(s: Suite, secret: Bytes, purpose: string, device: string, id: string, server: string, nonce: string)
    ensures Prove(s, secret, purpose, device, id, server, nonce).Some?
      <==>
        && (purpose == "register" || purpose == "login")
        && |id| == 36 && (forall c <- id :: '0' <= c <= '9' || 'a' <= c <= 'f' || c == '-')
        && |server| == 64 && (forall c <- server :: '0' <= c <= '9' || 'a' <= c <= 'f')
        && |nonce| == 64 && (forall c <- nonce :: '0' <= c <= '9' || 'a' <= c <= 'f')
        && exists b <- s.shared(secret, Unhex(server)) :: b != 0
    ensures var proof := Prove(s, secret, purpose, device, id, server, nonce);
      proof.Some? ==>
        proof.value == s.hmac(s.shared(secret, Unhex(server)),
                              "chhaya-auth-v1|" + purpose + "|" + id + "|" + device + "|" + Hex(s.publicOf(secret)) + "|" + server + "|" + nonce)
  {
    hide Hex, Unhex;
    assert !AllZero(s.shared(secret, Unhex(server))) <==> exists b <- s.shared(secret, Unhex(server)) :: b != 0;
  }

  // ---- Over whole runs ----

  datatype Step =
    | Issue(publicKey: string, device: string, purpose: Purpose, secret: Bytes, id: string, nonce: string)
    | Consume(id: string, publicKey: string, device: string, purpose: Purpose, proof: string)
    | Wait

  /** One call of consumeIdentityChallenge: whether the challenge had been issued by then, and the answer. */
  datatype Attempt = Attempt(id: string, publicKey: string, device: string, purpose: Purpose, proof: string,
                             at: int, issued: bool, ok: bool)

  /** The table, the clock, and the history: every row ever inserted and every attempt, in order. */
  datatype World = World(table: Challenges, now: int, inserted: Challenges, attempts: seq<Attempt>)

  const EMPTY := World(map[], 0, map[], [])

  /** Identifiers are random UUIDs: none is drawn twice. */
  predicate Enabled(w: World, step: Step) {
    step.Issue? ==> step.id !in w.inserted
  }

  function Next(s: Suite, w: World, step: Step): World {
    match step
    case Issue(publicKey, device, purpose, secret, id, nonce) =>
      var row := RowFor(s, publicKey, device, purpose, secret, id, nonce, w.now);
      if AllZero(s.shared(secret, Unhex(publicKey))) then w
      else w.(table := Issued(w.table, id, row, w.now), inserted := w.inserted[id := row])
    case Consume(id, publicKey, device, purpose, proof) =>
      var (table, ok) := Consumed(s, w.table, id, publicKey, device, purpose, proof, w.now);
      var attempt := Attempt(id, publicKey, device, purpose, proof, w.now, id in w.inserted, ok);
      w.(table := table, attempts := w.attempts + [attempt])
    case Wait => w.(now := w.now + 1)
  }

  function Challenging(s: Suite): Machine<World, Step> {
    Machine((w, step) => Enabled(w, step), (w, step) => Next(s, w, step))
  }

  /** An attempt on an issued challenge with its own key, device and purpose, in time; whatever its proof. */
  predicate OnChallenge(inserted: Challenges, a: Attempt) {
    && a.issued && a.id in inserted
    && var row := inserted[a.id];
      a.publicKey == row.publicKey && a.device == row.device && a.purpose == row.purpose && a.at < row.expiresAt
  }

  /** Some attempt has used the challenge up. */
  predicate UsedUp(inserted: Challenges, attempts: seq<Attempt>, id: string) {
    exists j :: 0 <= j < |attempts| && attempts[j].id == id && OnChallenge(inserted, attempts[j])
  }

  /** The answer the k-th attempt should have got: yes for the right proof on a challenge no attempt has used up. */
  predicate Answered(s: Suite, inserted: Challenges, attempts: seq<Attempt>, k: nat)
    requires k < |attempts|
  {
    var a := attempts[k];
    a.ok <==> OnChallenge(inserted, a) && inserted[a.id].proofHash == s.tokenHash(a.proof)
              && !UsedUp(inserted, attempts[..k], a.id)
  }

  /** A challenge is in the table until it is used up or expires. */
  ghost predicate Sound(s: Suite, w: World) {
    && (forall id <- w.table :: id in w.inserted && w.table[id] == w.inserted[id])
    && (forall id <- w.inserted ::
          if id in w.table then !UsedUp(w.inserted, w.attempts, id)
          else UsedUp(w.inserted, w.attempts, id) || w.inserted[id].expiresAt <= w.now)
    && (forall k :: 0 <= k < |w.attempts| ==> Answered(s, w.inserted, w.attempts, k))
    && (forall k :: 0 <= k < |w.attempts| ==> w.attempts[k].issued ==> w.attempts[k].id in w.inserted)
  }

  /** A challenge issued later changes nothing about earlier attempts. */
  lemma IssuedLater(inserted: Challenges, attempts: seq<Attempt>, id: string, row: Row, other: string)
    requires id !in inserted && forall k :: 0 <= k < |attempts| ==> attempts[k].issued ==> attempts[k].id in inserted
    ensures UsedUp(inserted[id := row], attempts, other) <==> UsedUp(inserted, attempts, other)
  {
    forall k | 0 <= k < |attempts| ensures OnChallenge(inserted[id := row], attempts[k]) <==> OnChallenge(inserted, attempts[k]) {}
  }

  lemma IssueSound(s: Suite, w: World, step: Step)
    requires Sound(s, w) && step.Issue? && Enabled(w, step)
    ensures Sound(s, Next(s, w, step))
  {
    hide RowFor, UsedUp;
    var w' := Next(s, w, step);
    if w' != w {
      var row := w'.inserted[step.id];
      forall k | 0 <= k < |w.attempts| ensures Answered(s, w'.inserted, w.attempts, k) {
        assert Answered(s, w.inserted, w.attempts, k);
        IssuedLater(w.inserted, w.attempts[..k], step.id, row, w.attempts[k].id);
      }
      forall id <- w'.inserted
        ensures if id in w'.table then !UsedUp(w'.inserted, w'.attempts, id)
                else UsedUp(w'.inserted, w'.attempts, id) || w'.inserted[id].expiresAt <= w'.now
      {
        IssuedLater(w.inserted, w.attempts, step.id, row, id);
        if id == step.id { NotUsedYet(w, id); }
      }
    }
  }

  lemma NotUsedYet(w: World, id: string)
    requires id !in w.inserted
    ensures !UsedUp(w.inserted, w.attempts, id)
  {}

  lemma OneMoreAttempt(inserted: Challenges, attempts: seq<Attempt>, a: Attempt, id: string)
    ensures UsedUp(inserted, attempts + [a], id) <==> UsedUp(inserted, attempts, id) || (a.id == id && OnChallenge(inserted, a))
  {
    var more := attempts + [a];
    if a.id == id && OnChallenge(inserted, a) { assert more[|attempts|] == a; }
    if UsedUp(inserted, attempts, id) {
      var j :| 0 <= j < |attempts| && attempts[j].id == id && OnChallenge(inserted, attempts[j]);
      assert more[j] == attempts[j];
    }
  }

  lemma ConsumeSound(s: Suite, w: World, step: Step)
    requires Sound(s, w) && step.Consume?
    ensures Sound(s, Next(s, w, step))
  {
    hide UsedUp;
    var w' := Next(s, w, step);
    var a := w'.attempts[|w.attempts|];
    forall id <- w'.inserted
      ensures if id in w'.table then !UsedUp(w'.inserted, w'.attempts, id)
              else UsedUp(w'.inserted, w'.attempts, id) || w'.inserted[id].expiresAt <= w'.now
    {
      OneMoreAttempt(w.inserted, w.attempts, a, id);
    }
    forall k | 0 <= k < |w'.attempts| ensures Answered(s, w'.inserted, w'.attempts, k) {
      if k < |w.attempts| {
        assert w'.attempts[..k] == w.attempts[..k];
        assert Answered(s, w.inserted, w.attempts, k);
      } else {
        assert w'.attempts[..k] == w.attempts;
      }
    }
  }

  lemma WaitSound(s: Suite, w: World)
    requires Sound(s, w)
    ensures Sound(s, Next(s, w, Wait))
  {
    hide UsedUp, Answered;
  }

  lemma RunSound(s: Suite, steps: seq<Step>, w: World)
    requires Run(Challenging(s), EMPTY, steps, w)
    ensures Sound(s, w)
  {
    hide Sound;
    var m := Challenging(s);
    var inv := (v: World) => Sound(s, v);
    forall v, step | inv(v) && m.enabled(v, step) ensures inv(m.next(v, step)) {
      match step
      case Issue(_, _, _, _, _, _) => IssueSound(s, v, step);
      case Consume(_, _, _, _, _) => ConsumeSound(s, v, step);
      case Wait => WaitSound(s, v);
    }
    EmptySound(s);
    RunKeeps(m, inv, EMPTY, steps, w);
  }

  lemma EmptySound(s: Suite) ensures Sound(s, EMPTY) {}

  /** Over every run, an attempt succeeds exactly if the challenge was issued, the key, device and purpose are its
      own, it has not expired, the proof hashes to what was issued, and no attempt before it met all of that but the
      proof: the first attempt in time uses the challenge up, whatever it was answered. */
  lemma SucceedsIff(s: Suite, steps: seq<Step>, w: World, k: nat)
    requires Run(Challenging(s), EMPTY, steps, w) && k < |w.attempts|
    ensures var a := w.attempts[k];
      a.ok <==>
        && a.issued && a.id in w.inserted
        && var row := w.inserted[a.id];
        && a.publicKey == row.publicKey && a.device == row.device && a.purpose == row.purpose
        && a.at < row.expiresAt && s.tokenHash(a.proof) == row.proofHash
        && forall j :: 0 <= j < k && w.attempts[j].id == a.id && w.attempts[j].issued ==>
             !(w.attempts[j].publicKey == row.publicKey && w.attempts[j].device == row.device
               && w.attempts[j].purpose == row.purpose && w.attempts[j].at < row.expiresAt)
  {
    hide UsedUp;
    RunSound(s, steps, w);
    assert Answered(s, w.inserted, w.attempts, k);
    if w.attempts[k].id in w.inserted { UsedUpBefore(w, k); }
  }

  lemma UsedUpBefore(w: World, k: nat)
    requires k < |w.attempts| && w.attempts[k].id in w.inserted
    ensures var a := w.attempts[k]; var row := w.inserted[a.id];
      !UsedUp(w.inserted, w.attempts[..k], a.id) <==>
        forall j :: 0 <= j < k && w.attempts[j].id == a.id && w.attempts[j].issued ==>
          !(w.attempts[j].publicKey == row.publicKey && w.attempts[j].device == row.device
            && w.attempts[j].purpose == row.purpose && w.attempts[j].at < row.expiresAt)
  {
    var a, before := w.attempts[k], w.attempts[..k];
    if UsedUp(w.inserted, before, a.id) {
      var j :| 0 <= j < |before| && before[j].id == a.id && OnChallenge(w.inserted, before[j]);
      assert before[j] == w.attempts[j];
    } else {
      forall j | 0 <= j < k && w.attempts[j].id == a.id && w.attempts[j].issued ensures !OnChallenge(w.inserted, w.attempts[j]) {
        assert before[j] == w.attempts[j];
      }
    }
  }

  /** A challenge succeeds at most once, for its own key, device and purpose, before it expires, and with a proof
      of the issued hash. */
  lemma SucceedsOnceAndInTime(s: Suite, steps: seq<Step>, w: World, j: nat, k: nat)
    requires Run(Challenging(s), EMPTY, steps, w) && j < |w.attempts| && k < |w.attempts|
    requires w.attempts[j].ok && w.attempts[k].ok
    ensures w.attempts[j].id == w.attempts[k].id ==> j == k
    ensures var a := w.attempts[k];
      && a.id in w.inserted
      && var row := w.inserted[a.id];
        && row.publicKey == a.publicKey && row.device == a.device && row.purpose == a.purpose
        && a.at < row.expiresAt && row.proofHash == s.tokenHash(a.proof)
  {
    SucceedsIff(s, steps, w, k);
    SucceedsIff(s, steps, w, j);
  }

  /** After an attempt in time with the challenge's own key, device and purpose, no proof is ever accepted for it. */
  lemma AttemptUsesUp(s: Suite, before: seq<Step>, w: World, tried: Step, steps: seq<Step>, w': World, retry: Step)
    requires Run(Challenging(s), EMPTY, before, w) && tried.Consume? && tried.id in w.inserted
    requires var row := w.inserted[tried.id];
      && tried.publicKey == row.publicKey && tried.device == row.device && tried.purpose == row.purpose
      && w.now < row.expiresAt
    requires Run(Challenging(s), Next(s, w, tried), steps, w')
    requires retry.Consume? && retry.id == tried.id
    ensures !Consumed(s, w'.table, retry.id, retry.publicKey, retry.device, retry.purpose, retry.proof, w'.now).1
  {
    RunSound(s, before, w);
    assert Enabled(w, tried);
    StaysAway(s, Next(s, w, tried), steps, w', tried.id);
  }

  /** What has left the table does not come back. */
  lemma {:induction false} StaysAway(s: Suite, w: World, steps: seq<Step>, w': World, id: string)
    requires Run(Challenging(s), w, steps, w') && id in w.inserted && id !in w.table
    ensures id !in w'.table
    decreases |steps|
  {
    hide RowFor;
    if steps != [] { StaysAway(s, Next(s, w, steps[0]), steps[1..], w', id); }
  }

  // ---- Purging is invisible ----

  datatype Event = Event(at: int, step: Step)

  /** The answers to the consume calls of a timed history. */
  function Answers(s: Suite, t: Challenges, events: seq<Event>): seq<bool>
    decreases |events|
  {
    if events == [] then []
    else
      var e := events[0];
      match e.step
      case Issue(publicKey, device, purpose, secret, id, nonce) =>
        var row := RowFor(s, publicKey, device, purpose, secret, id, nonce, e.at);
        Answers(s, if AllZero(s.shared(secret, Unhex(publicKey))) then t else Issued(t, id, row, e.at), events[1..])
      case Consume(id, publicKey, device, purpose, proof) =>
        var (t', ok) := Consumed(s, t, id, publicKey, device, purpose, proof, e.at);
        [ok] + Answers(s, t', events[1..])
      case Wait => Answers(s, t, events[1..])
  }

  predicate InOrder(events: seq<Event>, from: int)
    decreases |events|
  {
    events != [] ==> from <= events[0].at && InOrder(events[1..], events[0].at)
  }

  /** Rows already expired make no difference to anything that happens later. */
  lemma {:induction false} ExpiredRowsDoNotMatter(s: Suite, t: Challenges, t': Challenges, now: int, events: seq<Event>)
    requires Purged(t, now) == Purged(t', now) && InOrder(events, now)
    ensures Answers(s, t, events) == Answers(s, t', events)
    decreases |events|
  {
    hide RowFor;
    if events != [] {
      var e := events[0];
      PurgedLater(t, t', now, e.at);
      match e.step
      case Issue(publicKey, device, purpose, secret, id, nonce) =>
        var row := RowFor(s, publicKey, device, purpose, secret, id, nonce, e.at);
        if AllZero(s.shared(secret, Unhex(publicKey))) {
          ExpiredRowsDoNotMatter(s, t, t', e.at, events[1..]);
        } else {
          assert Issued(t, id, row, e.at) == Issued(t', id, row, e.at);
        }
      case Consume(id, publicKey, device, purpose, proof) =>
        SameAnswer(s, t, t', id, publicKey, device, purpose, proof, e.at);
        var u := Consumed(s, t, id, publicKey, device, purpose, proof, e.at).0;
        var u' := Consumed(s, t', id, publicKey, device, purpose, proof, e.at).0;
        ExpiredRowsDoNotMatter(s, u, u', e.at, events[1..]);
      case Wait =>
        ExpiredRowsDoNotMatter(s, t, t', e.at, events[1..]);
    }
  }

  lemma PurgedLater(t: Challenges, t': Challenges, now: int, later: int)
    requires Purged(t, now) == Purged(t', now) && now <= later
    ensures Purged(t, later) == Purged(t', later)
  {
    assert Purged(t, later) == Purged(Purged(t, now), later);
    assert Purged(t', later) == Purged(Purged(t', now), later);
  }

  lemma SameAnswer(s: Suite, t: Challenges, t': Challenges, id: string, publicKey: string, device: string,
      purpose: Purpose, proof: string, now: int)
    requires Purged(t, now) == Purged(t', now)
    ensures var (u, ok) := Consumed(s, t, id, publicKey, device, purpose, proof, now);
      var (u', ok') := Consumed(s, t', id, publicKey, device, purpose, proof, now);
      ok == ok' && Purged(u, now) == Purged(u', now)
  {
    assert id in Purged(t, now) <==> id in t && t[id].expiresAt > now;
    assert id in Purged(t', now) <==> id in t' && t'[id].expiresAt > now;
    if id in Purged(t, now) {
      assert Purged(t, now)[id] == t[id] && Purged(t', now)[id] == t'[id];
      assert Purged(t - {id}, now) == Purged(t, now) - {id};
      assert Purged(t' - {id}, now) == Purged(t', now) - {id};
    }
  }

  lemma PurgingIsInvisible(s: Suite, t: Challenges, now: int, events: seq<Event>)
    requires InOrder(events, now)
    ensures Answers(s, Purged(t, now), events) == Answers(s, t, events)
  {
    assert Purged(Purged(t, now), now) == Purged(t, now);
    ExpiredRowsDoNotMatter(s, Purged(t, now), t, now, events);
  }

  // ---- An honest client ----

  /** Nothing in the step can remove the row before it expires. */
  predicate LeavesAlone(step: Step, id: string, row: Row) {
    step.Consume? ==>
      !(step.id == id && step.publicKey == row.publicKey && step.device == row.device && step.purpose == row.purpose)
  }

  /** Until someone else uses the challenge with its own fields, it stays until it expires. */
  lemma {:induction false} ChallengeStays(s: Suite, w: World, steps: seq<Step>, w': World, id: string)
    requires Run(Challenging(s), w, steps, w') && id in w.table && id in w.inserted
    requires forall k :: 0 <= k < |steps| ==> LeavesAlone(steps[k], id, w.table[id])
    requires w'.now < w.table[id].expiresAt
    ensures id in w'.table && w'.table[id] == w.table[id]
    decreases |steps|
  {
    if steps != [] {
      var v := Next(s, w, steps[0]);
      ClockAdvances(s, v, steps[1..], w');
      assert LeavesAlone(steps[0], id, w.table[id]);
      assert id in v.table && v.table[id] == w.table[id] && id in v.inserted by { hide RowFor; }
      forall k | 0 <= k < |steps[1..]| ensures LeavesAlone(steps[1..][k], id, v.table[id]) {
        assert LeavesAlone(steps[k + 1], id, w.table[id]);
      }
      ChallengeStays(s, v, steps[1..], w', id);
    }
  }

  lemma {:induction false} ClockAdvances(s: Suite, w: World, steps: seq<Step>, w': World)
    requires Run(Challenging(s), w, steps, w')
    ensures w.now <= w'.now
    decreases |steps|
  {
    if steps != [] { ClockAdvances(s, Next(s, w, steps[0]), steps[1..], w'); }
  }

  /** The client's proof hashes to what the server stored. */
  lemma BothSidesAgree(s: Suite, identity: Bytes, secret: Bytes, device: string, purpose: Purpose, id: string,
      nonce: string, now: int)
    requires s.Symmetric() && s.PublicKeysAre32Bytes()
    requires IsIdText(id) && IsHex(nonce, 64) && !AllZero(s.shared(secret, s.publicOf(identity)))
    ensures var proof := Prove(s, identity, Name(purpose), device, id, Hex(s.publicOf(secret)), nonce);
      && proof.Some?
      && s.tokenHash(proof.value) == RowFor(s, Hex(s.publicOf(identity)), device, purpose, secret, id, nonce, now).proofHash
  {
    UnhexHex(s.publicOf(identity));
    UnhexHex(s.publicOf(secret));
  }

  /** Issue, anything that leaves the challenge alone, then the honest client's attempt in time: accepted. */
  lemma HonestAttemptSucceeds(s: Suite, before: seq<Step>, w: World, identity: Bytes, secret: Bytes,
      device: string, purpose: Purpose,
                              id: string, nonce: string, steps: seq<Step>, w': World)
    requires s.Symmetric() && s.PublicKeysAre32Bytes()
    requires IsIdText(id) && IsHex(nonce, 64) && !AllZero(s.shared(secret, s.publicOf(identity)))
    requires Run(Challenging(s), EMPTY, before, w) && id !in w.inserted
    requires var issue := Issue(Hex(s.publicOf(identity)), device, purpose, secret, id, nonce);
      Run(Challenging(s), Next(s, w, issue), steps, w')
    requires var row := RowFor(s, Hex(s.publicOf(identity)), device, purpose, secret, id, nonce, w.now);
      forall k :: 0 <= k < |steps| ==> LeavesAlone(steps[k], id, row)
    requires w'.now < w.now + 120
    ensures var proof := Prove(s, identity, Name(purpose), device, id, Hex(s.publicOf(secret)), nonce);
      && proof.Some?
      && Consumed(s, w'.table, id, Hex(s.publicOf(identity)), device, purpose, proof.value, w'.now).1
  {
    hide Prove, Next, Sound, Transcript;
    var publicKey := Hex(s.publicOf(identity));
    BothSidesAgree(s, identity, secret, device, purpose, id, nonce, w.now);
    AfterIssue(s, before, w, identity, device, purpose, secret, id, nonce);
    ChallengeStays(s, Next(s, w, Issue(publicKey, device, purpose, secret, id, nonce)), steps, w', id);
  }

  lemma AfterIssue(s: Suite, before: seq<Step>, w: World, identity: Bytes, device: string, purpose: Purpose,
      secret: Bytes, id: string, nonce: string)
    requires Run(Challenging(s), EMPTY, before, w) && id !in w.inserted
    requires !AllZero(s.shared(secret, s.publicOf(identity)))
    ensures var publicKey := Hex(s.publicOf(identity));
      var v := Next(s, w, Issue(publicKey, device, purpose, secret, id, nonce));
      var row := RowFor(s, publicKey, device, purpose, secret, id, nonce, w.now);
      && id in v.table && id in v.inserted && v.table[id] == row
      && row.publicKey == publicKey && row.device == device && row.purpose == purpose && row.expiresAt == w.now + LIFETIME
  {
    RunSound(s, before, w);
    UnhexHex(s.publicOf(identity));
  }

  // ---- The transcript ----

  predicate NoBar(s: string) { '|' !in s }

  lemma FirstField(a: string, x: string, b: string, y: string)
    requires NoBar(a) && NoBar(b) && a + "|" + x == b + "|" + y
    ensures a == b && x == y
  {
    var s, t := a + "|" + x, b + "|" + y;
    assert s[|a|] == '|' && t[|b|] == '|';
    assert forall k :: 0 <= k < |a| ==> s[k] == a[k] && a[k] in a;
    assert forall k :: 0 <= k < |b| ==> t[k] == b[k] && b[k] in b;
    assert |a| == |b|;
    assert s[..|a|] == a && t[..|b|] == b;
    assert s[|a| + 1..] == x && t[|b| + 1..] == y;
  }

  /** Fields without '|' can be read back from the transcript. */
  lemma TranscriptInjective(p: string, i: string, d: string, k: string, s: string, n: string,
                            p': string, i': string, d': string, k': string, s': string, n': string)
    requires NoBar(p) && NoBar(i) && NoBar(d) && NoBar(k) && NoBar(s)
    requires NoBar(p') && NoBar(i') && NoBar(d') && NoBar(k') && NoBar(s')
    requires Transcript(p, i, d, k, s, n) == Transcript(p', i', d', k', s', n')
    ensures p == p' && i == i' && d == d' && k == k' && s == s' && n == n'
  {
    Fields(p, i, d, k, s, n);
    Fields(p', i', d', k', s', n');
    var d4, d4' := s + "|" + n, s' + "|" + n';
    var d3, d3' := k + "|" + d4, k' + "|" + d4';
    var d2, d2' := d + "|" + d3, d' + "|" + d3';
    var d1, d1' := i + "|" + d2, i' + "|" + d2';
    FirstField("chhaya-auth-v1", p + "|" + d1, "chhaya-auth-v1", p' + "|" + d1');
    FirstField(p, d1, p', d1');
    FirstField(i, d2, i', d2');
    FirstField(d, d3, d', d3');
    FirstField(k, d4, k', d4');
    FirstField(s, n, s', n');
  }

  lemma Fields(p: string, i: string, d: string, k: string, s: string, n: string)
    ensures Transcript(p, i, d, k, s, n)
      == "chhaya-auth-v1" + "|" + (p + "|" + (i + "|" + (d + "|" + (k + "|" + (s + "|" + n)))))
  {}

  /** A proof made for one challenge answers no other: accepted means the same challenge, device, key and purpose. */
  lemma ProofAnswersOneChallenge(s: Suite, identity: Bytes, purpose: Purpose, device: string, id: string,
      server: string, nonce: string,
                                 publicKey': string, device': string, purpose': Purpose, secret': Bytes, id': string, nonce': string, now: int)
    requires s.Injective() && NoBar(device) && NoBar(device')
    requires IsHex(publicKey', 64) && IsIdText(id')
    requires var proof := Prove(s, identity, Name(purpose), device, id, server, nonce);
      proof.Some? && s.tokenHash(proof.value) == RowFor(s, publicKey', device', purpose', secret', id', nonce', now).proofHash
    ensures purpose == purpose' && id == id' && device == device' && Hex(s.publicOf(identity)) == publicKey'
    ensures server == Hex(s.publicOf(secret')) && nonce == nonce'
  {
    TranscriptInjective(Name(purpose), id, device, Hex(s.publicOf(identity)), server, nonce,
                        Name(purpose'), id', device', publicKey', Hex(s.publicOf(secret')), nonce');
    assert Name(purpose)[0] == Name(purpose')[0];
  }
}
