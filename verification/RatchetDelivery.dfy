/** What the two parties of a conversation may rely on, in every run. */
module RatchetDelivery {
  import opened DoubleRatchet
  import opened RatchetConversation
  import opened Runs

  // ---- Opening an epoch ----

  lemma RecvSideAppend(c: Setup, epochs: seq<Epoch>, received: set<(nat, nat)>, s: State, r: nat, opening: Epoch)
    requires r < |epochs| && RecvSide(c, epochs, received, s, r) && Distinct(c, epochs + [opening])
    requires forall n: nat :: (|epochs|, n) !in received
    ensures RecvSide(c, epochs + [opening], received, s, r)
  {
    var epochs' := epochs + [opening];
    forall f | 0 <= f < |epochs| ensures Pub(c, epochs[f]) != Pub(c, opening) {
      assert Pub(c, epochs'[f]) != Pub(c, epochs'[|epochs|]);
    }
    forall e: nat, n: nat | e < |epochs'| && e % 2 == r % 2 ensures Accounted(c, epochs', received, s, r, e, n) {
      if e < |epochs| { assert Accounted(c, epochs, received, s, r, e, n); }
    }
    forall at | at in s.skipped ensures exists e :: 0 <= e < |epochs'| && at.0 == Pub(c, epochs'[e]) {
      var e :| 0 <= e < |epochs| && at.0 == Pub(c, epochs[e]);
      assert epochs'[e] == epochs[e];
    }
  }

  lemma SendSideAppend(c: Setup, epochs: seq<Epoch>, s: State, at: nat, opening: Epoch)
    requires at < |epochs| && |epochs| >= 2 && SendSide(c, epochs, s, at)
    ensures SendSide(c, epochs + [opening], s, at)
  {}

  lemma ChainedAppend(c: Setup, epochs: seq<Epoch>, opening: Epoch)
    requires Chained(c, epochs) && Distinct(c, epochs + [opening])
    requires DhLink(c, epochs[|epochs| - 1], opening)
    ensures Chained(c, epochs + [opening])
  {}

  lemma OnWireAppend(c: Setup, epochs: seq<Epoch>, wire: map<(nat, nat), Sent>, opening: Epoch)
    requires OnWire(c, epochs, wire) && opening.sent == 0
    ensures OnWire(c, epochs + [opening], wire)
  {}

  // ---- Sending ----

  /** The responder's first send is a DH step followed by a send on the chain it opened. */
  function Opened(c: Setup, w: World, p: Party, ephemeral: Private): World {
    var s := FirstSendRatchet(c.k, w.Of(p), ephemeral);
    w.With(p, s).(epochs := w.epochs + [Epoch(ephemeral, s.root, s.sendChain, 0)])
  }

  lemma OpenedInv(c: Setup, w: World, p: Party, ephemeral: Private)
    requires Inv(c, w) && !w.Of(p).sendInitialized && Distinct(c, Opened(c, w, p, ephemeral).epochs)
    ensures Inv(c, Opened(c, w, p, ephemeral)) && Opened(c, w, p, ephemeral).SendEpoch(p) == |w.epochs|
  {
    hide Chained, OnWire, RecvSide;
    var w', q := Opened(c, w, p, ephemeral), Peer(p);
    var opening := w'.epochs[|w.epochs|];
    PartyHolds(c, w, p);
    PartyHolds(c, w, q);
    assert w.SendEpoch(p) == 0 && |w.epochs| == 2;
    NothingReceivedYet(c, w);
    ChainedAppend(c, w.epochs, opening) by { FirstRemote(c, w, p); }
    OnWireAppend(c, w.epochs, w.wire, opening);
    RecvSideAppend(c, w.epochs, w.received, w.Of(q), RecvEpoch(w.SendEpoch(q)), opening);
    SendSideAppend(c, w.epochs, w.Of(q), w.SendEpoch(q), opening);
    RecvSideAppend(c, w.epochs, w.received, w.Of(p), 1, opening);
    RecvSideFrame(c, w'.epochs, w.received, w.Of(p), w'.Of(p), 1);
    NothingSentInEpochZero(c, w);
    FirstSenderOk(c, w, p, ephemeral);
    hide SendSide;
    forall x ensures PartyOk(c, w'.epochs, w'.received, w'.Of(x), w'.SendEpoch(x)) {
      assert x == p || x == q;
    }
  }

  lemma FirstSenderOk(c: Setup, w: World, p: Party, ephemeral: Private)
    requires Inv(c, w) && !w.Of(p).sendInitialized && |w.epochs| == 2 && w.epochs[0].sent == 0
    ensures var w' := Opened(c, w, p, ephemeral); SendSide(c, w'.epochs, w'.Of(p), 2)
  {
    hide Chained, OnWire, RecvSide;
    PartyHolds(c, w, p);
    ChainBegins(c.k, Opened(c, w, p, ephemeral).epochs[2].chain);
  }

  lemma ChainBegins(k: Kdf, chain: Key)
    ensures ChainAt(k, chain, 0) == chain
  {}

  lemma NothingSentInEpochZero(c: Setup, w: World)
    requires Inv(c, w)
    ensures w.epochs[0].sent == 0
  {}

  lemma NothingReceivedYet(c: Setup, w: World)
    requires Inv(c, w)
    ensures forall n: nat :: (|w.epochs|, n) !in w.received
  {}

  lemma FirstRemote(c: Setup, w: World, p: Party)
    requires Inv(c, w) && w.SendEpoch(p) == 0
    ensures w.Of(p).remote == Pub(c, w.epochs[1])
  {
    PartyHolds(c, w, p);
  }

  /** The receiving side does not look at the sending fields. */
  lemma RecvSideFrame(c: Setup, epochs: seq<Epoch>, received: set<(nat, nat)>, s: State, s': State, r: nat)
    requires r < |epochs| && RecvSide(c, epochs, received, s, r)
    requires s'.remote == s.remote && s'.recvChain == s.recvChain && s'.recvCounter == s.recvCounter && s'.skipped == s.skipped
    ensures RecvSide(c, epochs, received, s', r)
  {
    forall e: nat, n: nat | e < |epochs| && e % 2 == r % 2 ensures Accounted(c, epochs, received, s', r, e, n) {
      assert Accounted(c, epochs, received, s, r, e, n);
    }
  }

  function OneMore(epochs: seq<Epoch>, e: nat): seq<Epoch>
    requires e < |epochs|
  {
    epochs[e := epochs[e].(sent := epochs[e].sent + 1)]
  }

  lemma RecvSideOneMore(c: Setup, epochs: seq<Epoch>, received: set<(nat, nat)>, s: State, r: nat, e: nat)
    requires r < |epochs| && e < |epochs| && RecvSide(c, epochs, received, s, r)
    requires e % 2 == r % 2 ==> e >= r
    ensures RecvSide(c, OneMore(epochs, e), received, s, r)
  {
    var epochs' := OneMore(epochs, e);
    forall f: nat, n: nat | f < |epochs'| && f % 2 == r % 2 ensures Accounted(c, epochs', received, s, r, f, n) {
      assert Accounted(c, epochs, received, s, r, f, n);
    }
    forall at | at in s.skipped ensures exists f :: 0 <= f < |epochs'| && at.0 == Pub(c, epochs'[f]) {
      var f :| 0 <= f < |epochs| && at.0 == Pub(c, epochs[f]);
      assert Pub(c, epochs'[f]) == Pub(c, epochs[f]);
    }
  }

  lemma ChainedOneMore(c: Setup, epochs: seq<Epoch>, e: nat)
    requires Chained(c, epochs) && 0 < e < |epochs|
    ensures Chained(c, OneMore(epochs, e))
  {
    var epochs' := OneMore(epochs, e);
    assert forall i :: 0 <= i < |epochs| ==> epochs'[i].(sent := 0) == epochs[i].(sent := 0);
    assert forall i :: 0 <= i < |epochs| ==> Pub(c, epochs'[i]) == Pub(c, epochs[i]) && epochs'[i].root == epochs[i].root;
    forall i | 1 <= i < |epochs| - 1
      ensures DhLink(c, epochs'[i], epochs'[i + 1])
    {
      assert DhLink(c, epochs[i], epochs[i + 1]);
    }
  }

  lemma OnWireOneMore(c: Setup, epochs: seq<Epoch>, wire: map<(nat, nat), Sent>, e: nat, message: Sent)
    requires OnWire(c, epochs, wire) && |epochs| <= e + 2 && e < |epochs| && epochs[e].sent <= MAX_COUNTER
    requires var n := epochs[e].sent;
      message == Sent(Header(Pub(c, epochs[e]), PreviousLength(epochs, e), n), BundleAt(c.k, epochs[e].chain, n))
    ensures OnWire(c, OneMore(epochs, e), wire[(e, epochs[e].sent) := message])
  {
    hide BundleAt;
  }

  function Peer(p: Party): Party { if p.Initiator? then Responder else Initiator }

  /** What a send on a live chain does. */
  lemma SendShape(c: Setup, w: World, p: Party, ephemeral: Private)
    requires Inv(c, w) && w.Of(p).sendInitialized && w.Of(p).sendCounter <= MAX_COUNTER
    ensures |w.epochs| >= 2 && 0 < w.SendEpoch(p)
    ensures var w', at, s := AfterSend(c, w, p, ephemeral), w.SendEpoch(p), w.Of(p);
      var n := w.epochs[at].sent;
      && s.sendCounter == n && w'.epochs == OneMore(w.epochs, at) && w'.received == w.received && w'.Of(Peer(p)) == w.Of(Peer(p))
      && w'.wire == w.wire[(at, n) :=
           Sent(Header(Pub(c, w.epochs[at]), PreviousLength(w.epochs, at), n), BundleAt(c.k, w.epochs[at].chain, n))]
      && w'.Of(p) == s.(sendChain := ChainAt(c.k, w.epochs[at].chain, n + 1), sendCounter := n + 1)
  {
    hide Chained, OnWire, RecvSide;
    PartyHolds(c, w, p);
  }

  lemma SenderOk(c: Setup, w: World, p: Party, s': State)
    requires Inv(c, w) && |w.epochs| >= 2 && 0 < w.SendEpoch(p)
    requires var at := w.SendEpoch(p);
      s' == w.Of(p).(sendChain := ChainAt(c.k, w.epochs[at].chain, w.epochs[at].sent + 1), sendCounter := w.epochs[at].sent + 1)
    ensures PartyOk(c, OneMore(w.epochs, w.SendEpoch(p)), w.received, s', w.SendEpoch(p))
  {
    hide Chained, OnWire, RecvSide;
    PartyHolds(c, w, p);
    var at := w.SendEpoch(p);
    RecvSideOneMore(c, w.epochs, w.received, w.Of(p), RecvEpoch(at), at);
    RecvSideFrame(c, OneMore(w.epochs, at), w.received, w.Of(p), s', RecvEpoch(at));
  }

  lemma ListenerOk(c: Setup, w: World, p: Party)
    requires Inv(c, w) && |w.epochs| >= 2 && 0 < w.SendEpoch(p)
    ensures var q := Peer(p); PartyOk(c, OneMore(w.epochs, w.SendEpoch(p)), w.received, w.Of(q), w.SendEpoch(q))
  {
    hide Chained, OnWire, RecvSide;
    var q := Peer(p);
    PartyHolds(c, w, q);
    RecvSideOneMore(c, w.epochs, w.received, w.Of(q), RecvEpoch(w.SendEpoch(q)), w.SendEpoch(p));
  }

  /** A send on a live chain. */
  lemma SendInv(c: Setup, w: World, p: Party, ephemeral: Private)
    requires Inv(c, w) && w.Of(p).sendInitialized && w.Of(p).sendCounter <= MAX_COUNTER
    ensures Inv(c, AfterSend(c, w, p, ephemeral))
  {
    hide Chained, OnWire, PartyOk, AfterSend, ChainAt, BundleAt;
    SendShape(c, w, p, ephemeral);
    var w', at := AfterSend(c, w, p, ephemeral), w.SendEpoch(p);
    SenderOk(c, w, p, w'.Of(p));
    ListenerOk(c, w, p);
    ChainedOneMore(c, w.epochs, at);
    OnWireOneMore(c, w.epochs, w.wire, at, w'.wire[(at, w.epochs[at].sent)]);
    forall x ensures PartyOk(c, w'.epochs, w'.received, w'.Of(x), w'.SendEpoch(x)) {
      assert x == p || x == Peer(p);
    }
  }

  lemma AfterSendInv(c: Setup, w: World, p: Party, ephemeral: Private)
    requires Inv(c, w) && Distinct(c, AfterSend(c, w, p, ephemeral).epochs)
    ensures Inv(c, AfterSend(c, w, p, ephemeral))
  {
    hide Inv, Distinct;
    InvSize(c, w);
    if w.Of(p).sendInitialized {
      if w.Of(p).sendCounter <= MAX_COUNTER { SendInv(c, w, p, ephemeral); }
    } else if w.Of(p).sendCounter <= MAX_COUNTER {
      var w1 := Opened(c, w, p, ephemeral);
      OpeningFirst(c, w, p, ephemeral);
      OpenedInv(c, w, p, ephemeral);
      SendInv(c, w1, p, ephemeral);
    }
  }

  lemma InvSize(c: Setup, w: World)
    requires Inv(c, w)
    ensures |w.epochs| >= 2
  {}

  lemma OpeningFirst(c: Setup, w: World, p: Party, ephemeral: Private)
    requires Inv(c, w) && !w.Of(p).sendInitialized && w.Of(p).sendCounter <= MAX_COUNTER
    requires Distinct(c, AfterSend(c, w, p, ephemeral).epochs)
    ensures Distinct(c, Opened(c, w, p, ephemeral).epochs)
    ensures AfterSend(c, w, p, ephemeral) == AfterSend(c, Opened(c, w, p, ephemeral), p, ephemeral)
  {
    hide Chained, OnWire, RecvSide;
    InvSize(c, w);
    PartyHolds(c, w, p);
    var w1, w' := Opened(c, w, p, ephemeral), AfterSend(c, w, p, ephemeral);
    assert |w.epochs| == 2;
    assert forall i :: 0 <= i < |w1.epochs| ==> Pub(c, w1.epochs[i]) == Pub(c, w'.epochs[i]) && w1.epochs[i].root == w'.epochs[i].root;
  }

  // ---- Receiving ----

  lemma KeyOfOneEpoch(c: Setup, epochs: seq<Epoch>, e: nat, f: nat)
    requires Distinct(c, epochs) && e < |epochs| && f < |epochs| && Pub(c, epochs[e]) == Pub(c, epochs[f])
    ensures e == f
  {
    hide Distinct;
    if e < f { KeysDiffer(c, epochs, e, f); }
    if f < e { KeysDiffer(c, epochs, f, e); }
  }

  lemma KeysDiffer(c: Setup, epochs: seq<Epoch>, e: nat, f: nat)
    requires Distinct(c, epochs) && e < f < |epochs|
    ensures Pub(c, epochs[e]) != Pub(c, epochs[f])
  {}

  /** The peer's chains do not concern the messages one receives. */
  lemma ReceivedElsewhere(c: Setup, epochs: seq<Epoch>, received: set<(nat, nat)>, s: State, r: nat, e: nat, n: nat)
    requires r < |epochs| && RecvSide(c, epochs, received, s, r) && e % 2 != r % 2
    ensures RecvSide(c, epochs, received + {(e, n)}, s, r)
  {
    forall f: nat, i: nat | f < |epochs| && f % 2 == r % 2 ensures Accounted(c, epochs, received + {(e, n)}, s, r, f, i) {
      assert Accounted(c, epochs, received, s, r, f, i);
    }
  }

  lemma LateRecv(c: Setup, epochs: seq<Epoch>, received: set<(nat, nat)>, s: State, r: nat, e: nat, n: nat)
    requires r < |epochs| && RecvSide(c, epochs, received, s, r) && Distinct(c, epochs)
    requires e < |epochs| && e % 2 == r % 2 && Passed(epochs, s, r, e, n)
    ensures RecvSide(c, epochs, received + {(e, n)}, s.(skipped := s.skipped - {(Pub(c, epochs[e]), n)}), r)
  {
    hide Distinct, BundleAt, Accounted, Passed;
    var at := (Pub(c, epochs[e]), n);
    Fewer(s.skipped, at);
    forall f: nat, i: nat | f < |epochs| && f % 2 == r % 2
      ensures Accounted(c, epochs, received + {(e, n)}, s.(skipped := s.skipped - {at}), r, f, i)
    {
      assert Accounted(c, epochs, received, s, r, f, i);
      LateAccounted(c, epochs, received, s, r, e, n, f, i);
    }
  }

  lemma LateAccounted(c: Setup, epochs: seq<Epoch>, received: set<(nat, nat)>, s: State, r: nat, e: nat, n: nat,
      f: nat, i: nat)
    requires Distinct(c, epochs) && e < |epochs| && Passed(epochs, s, r, e, n)
    requires f < |epochs| && Accounted(c, epochs, received, s, r, f, i)
    ensures Accounted(c, epochs, received + {(e, n)}, s.(skipped := s.skipped - {(Pub(c, epochs[e]), n)}), r, f, i)
  {
    hide Distinct, BundleAt;
    if Pub(c, epochs[f]) == Pub(c, epochs[e]) { KeyOfOneEpoch(c, epochs, e, f); }
  }

  lemma Fewer(m: SkippedKeys, at: (Public, nat))
    ensures |m - {at}| <= |m|
  {
    if at in m {
      assert m == (m - {at})[at := m[at]];
    } else {
      assert m - {at} == m;
    }
  }

  /** Staging up to message n and taking it. */
  lemma CurrentRecv(c: Setup, epochs: seq<Epoch>, received: set<(nat, nat)>, s: State, r: nat, n: nat,
      after: SkippedKeys)
    requires r < |epochs| && RecvSide(c, epochs, received, s, r) && Distinct(c, epochs)
    requires s.recvCounter <= n < epochs[r].sent && |after| <= MAX_SKIPPED_TOTAL
    requires Staged(c.k, s.skipped, after, s.remote, epochs[r].chain, s.recvCounter, n)
    ensures var recvChain := ChainAt(c.k, epochs[r].chain, n + 1);
      RecvSide(c, epochs, received + {(r, n)}, s.(skipped := after, recvChain := recvChain, recvCounter := n + 1), r)
  {
    hide Distinct, BundleAt, ChainAt, Accounted;
    var s' := s.(skipped := after, recvChain := ChainAt(c.k, epochs[r].chain, n + 1), recvCounter := n + 1);
    forall f: nat, i: nat | f < |epochs| && f % 2 == r % 2 ensures Accounted(c, epochs, received + {(r, n)}, s', r, f, i) {
      assert Accounted(c, epochs, received, s, r, f, i);
      CurrentAccounted(c, epochs, received, s, r, n, after, s', f, i);
    }
    forall at | at in after ensures exists f :: 0 <= f < |epochs| && at.0 == Pub(c, epochs[f]) {
      if at !in s.skipped { assert at.0 == Pub(c, epochs[r]); }
    }
  }

  lemma CurrentAccounted(c: Setup, epochs: seq<Epoch>, received: set<(nat, nat)>, s: State, r: nat, n: nat,
      after: SkippedKeys, s': State, f: nat, i: nat)
    requires Distinct(c, epochs) && r < |epochs| && s.recvCounter <= n < epochs[r].sent && s.remote == Pub(c, epochs[r])
    requires Staged(c.k, s.skipped, after, s.remote, epochs[r].chain, s.recvCounter, n)
    requires s'.skipped == after && s'.recvCounter == n + 1
    requires f < |epochs| && Accounted(c, epochs, received, s, r, f, i)
    ensures Accounted(c, epochs, received + {(r, n)}, s', r, f, i)
  {
    hide Distinct, BundleAt;
    if Pub(c, epochs[f]) == s.remote { KeyOfOneEpoch(c, epochs, r, f); }
  }

  /** Staging the rest of an epoch and turning to the next. */
  lemma RatchetRecv(c: Setup, epochs: seq<Epoch>, received: set<(nat, nat)>, s: State, r: nat, mid: SkippedKeys)
    requires r + 2 < |epochs| && RecvSide(c, epochs, received, s, r) && Distinct(c, epochs)
    requires |mid| <= MAX_SKIPPED_TOTAL
    requires Staged(c.k, s.skipped, mid, s.remote, epochs[r].chain, s.recvCounter, epochs[r].sent)
    ensures var next := epochs[r + 2];
      var s' := s.(skipped := mid, remote := Pub(c, next), recvChain := next.chain, recvCounter := 0);
      RecvSide(c, epochs, received, s', r + 2)
  {
    hide Distinct, BundleAt, ChainAt;
    var e := r + 2;
    var s' := s.(skipped := mid, remote := Pub(c, epochs[e]), recvChain := epochs[e].chain, recvCounter := 0);
    ChainBegins(c.k, epochs[e].chain);
    forall f: nat, i: nat | f < |epochs| && f % 2 == e % 2 ensures Accounted(c, epochs, received, s', e, f, i) {
      assert Accounted(c, epochs, received, s, r, f, i);
      if Pub(c, epochs[f]) == s.remote { KeyOfOneEpoch(c, epochs, r, f); }
    }
    forall at | at in mid ensures exists f :: 0 <= f < |epochs| && at.0 == Pub(c, epochs[f]) {
      if at !in s.skipped { assert at.0 == Pub(c, epochs[r]); }
    }
  }

  /** Delivered, without a DH step: only the receiving side of p changes. */
  lemma SameEpochInv(c: Setup, w: World, p: Party, e: nat, n: nat, s': State)
    requires Inv(c, w) && (e, n) in w.wire && e % 2 != Parity(p)
    requires |w.epochs| >= 2 && RecvEpoch(w.SendEpoch(p)) < |w.epochs|
    requires RecvSide(c, w.epochs, w.received + {(e, n)}, s', RecvEpoch(w.SendEpoch(p)))
    requires s' == w.Of(p).(recvChain := s'.recvChain, recvCounter := s'.recvCounter, skipped := s'.skipped)
    ensures Inv(c, w.With(p, s').(received := w.received + {(e, n)}))
  {
    hide Chained, OnWire, RecvSide;
    var q, w' := Peer(p), w.With(p, s').(received := w.received + {(e, n)});
    PartyHolds(c, w, p);
    PeerReceivedElsewhere(c, w, q, e, n);
    forall x ensures PartyOk(c, w'.epochs, w'.received, w'.Of(x), w'.SendEpoch(x)) {
      assert x == p || x == q;
    }
  }

  lemma PeerReceivedElsewhere(c: Setup, w: World, q: Party, e: nat, n: nat)
    requires Inv(c, w) && |w.epochs| >= 2 && e % 2 == Parity(q)
    ensures PartyOk(c, w.epochs, w.received + {(e, n)}, w.Of(q), w.SendEpoch(q))
  {
    hide Chained, OnWire, RecvSide;
    PartyHolds(c, w, q);
    RecvEpochShape(w, q);
    ReceivedElsewhere(c, w.epochs, w.received, w.Of(q), RecvEpoch(w.SendEpoch(q)), e, n);
  }

  lemma LateInv(c: Setup, w: World, p: Party, e: nat, n: nat, ephemeral: Private)
    requires Inv(c, w) && (e, n) in w.wire && e % 2 != Parity(p) && (e, n) !in w.received
    requires |w.epochs| >= 2 && e < |w.epochs| && Passed(w.epochs, w.Of(p), RecvEpoch(w.SendEpoch(p)), e, n)
    ensures Inv(c, AfterDeliver(c, w, p, e, n, ephemeral))
  {
    hide Inv, Answer, Passed, RecvSide;
    LateMessage(c, w, p, e, n, ephemeral);
    RecvSideHolds(c, w, p);
    var s, r := w.Of(p), RecvEpoch(w.SendEpoch(p));
    LateRecv(c, w.epochs, w.received, s, r, e, n);
    SameEpochInv(c, w, p, e, n, s.(skipped := s.skipped - {(Pub(c, w.epochs[e]), n)}));
  }

  lemma RecvSideHolds(c: Setup, w: World, p: Party)
    requires Inv(c, w)
    ensures |w.epochs| >= 2 && Distinct(c, w.epochs)
    ensures var r := RecvEpoch(w.SendEpoch(p));
      r < |w.epochs| && r % 2 != Parity(p) && RecvSide(c, w.epochs, w.received, w.Of(p), r)
  {
    hide RecvSide, Distinct, OnWire;
    PartyHolds(c, w, p);
    RecvEpochShape(w, p);
  }

  lemma CurrentInv(c: Setup, w: World, p: Party, n: nat, ephemeral: Private)
    requires Inv(c, w) && |w.epochs| >= 2
    requires var e := RecvEpoch(w.SendEpoch(p));
      (e, n) in w.wire && n >= w.Of(p).recvCounter && Accepts(c, w, p, e, n, ephemeral)
    ensures Inv(c, AfterDeliver(c, w, p, RecvEpoch(w.SendEpoch(p)), n, ephemeral))
  {
    hide Inv, Answer, Fits, RecvSide, Staged, ChainAt;
    var s, e := w.Of(p), RecvEpoch(w.SendEpoch(p));
    CurrentMessage(c, w, p, n, ephemeral);
    RecvFacts(c, w, p);
    RecvSideHolds(c, w, p);
    WireHolds(c, w, e, n);
    var s' := Answer(c, w, p, e, n, ephemeral).value.0;
    CurrentRecv(c, w.epochs, w.received, s, e, n, s'.skipped);
    SameEpochInv(c, w, p, e, n, s');
  }

  /** The state after a DH step and the message behind it, receiving side. */
  lemma NextRecv(c: Setup, w: World, p: Party, e: nat, n: nat, ephemeral: Private, s': State)
    requires Inv(c, w) && |w.epochs| >= 2 && e % 2 != Parity(p)
    requires RecvEpoch(w.SendEpoch(p)) < e < |w.epochs| && n < w.epochs[e].sent
    requires MovedTo(c, w, p, e, n, ephemeral, s')
    ensures RecvSide(c, w.epochs, w.received + {(e, n)}, s', e)
  {
    hide Inv, RecvSide, Staged, ChainAt, Distinct;
    EpochsInReach(w, p, e);
    RecvSideHolds(c, w, p);
    RecvFacts(c, w, p);
    var s, r := w.Of(p), e - 2;
    var mid :|
      && Staged(c.k, s.skipped, mid, s.remote, w.epochs[r].chain, s.recvCounter, w.epochs[r].sent)
      && Staged(c.k, mid, s'.skipped, Pub(c, w.epochs[e]), w.epochs[e].chain, 0, n);
    StagedCount(c.k, mid, s'.skipped, Pub(c, w.epochs[e]), w.epochs[e].chain, 0, n);
    RatchetRecv(c, w.epochs, w.received, s, r, mid);
    var t := s.(skipped := mid, remote := Pub(c, w.epochs[e]), recvChain := w.epochs[e].chain, recvCounter := 0);
    CurrentRecv(c, w.epochs, w.received, t, e, n, s'.skipped);
    var t' := t.(skipped := s'.skipped, recvChain := ChainAt(c.k, w.epochs[e].chain, n + 1), recvCounter := n + 1);
    RecvSideFrame(c, w.epochs, w.received + {(e, n)}, t', s', e);
  }

  lemma NextInv(c: Setup, w: World, p: Party, e: nat, n: nat, ephemeral: Private)
    requires Lawful(c) && Inv(c, w) && (e, n) in w.wire && e % 2 != Parity(p)
    requires |w.epochs| >= 2 && RecvEpoch(w.SendEpoch(p)) < e < |w.epochs|
    requires Accepts(c, w, p, e, n, ephemeral) && Distinct(c, AfterDeliver(c, w, p, e, n, ephemeral).epochs)
    ensures Inv(c, AfterDeliver(c, w, p, e, n, ephemeral))
  {
    hide Inv, Answer, Fits, MovedTo, Distinct;
    NextEpochMessage(c, w, p, e, n, ephemeral);
    WireHolds(c, w, e, n);
    var s, s' := w.Of(p), Answer(c, w, p, e, n, ephemeral).value.0;
    NextRecv(c, w, p, e, n, ephemeral, s');
    NextShape(c, w, p, e, n, ephemeral, s');
    EpochOpenedInv(c, w, p, e, n, s', Epoch(ephemeral, s'.root, s'.sendChain, 0));
  }

  lemma NextShape(c: Setup, w: World, p: Party, e: nat, n: nat, ephemeral: Private, s': State)
    requires Lawful(c) && Inv(c, w) && |w.epochs| >= 2 && e % 2 != Parity(p)
    requires RecvEpoch(w.SendEpoch(p)) < e < |w.epochs|
    requires MovedTo(c, w, p, e, n, ephemeral, s')
    ensures s'.remote != w.Of(p).remote && e == |w.epochs| - 1 && w.SendEpoch(p) == e - 1
    ensures s'.ourPrivate == ephemeral && s'.ourPublic == c.k.publicOf(ephemeral) && s'.sendInitialized
    ensures s'.sendCounter == 0 && s'.prevSendChainLength == w.epochs[e - 1].sent
    ensures (s'.root, s'.sendChain) == c.k.derive64(w.epochs[e].root, c.k.dh(ephemeral, Pub(c, w.epochs[e])))
  {
    hide Chained, OnWire, RecvSide, Staged;
    EpochsInReach(w, p, e);
    DhStepAgrees(c, w, p, e);
    PartyHolds(c, w, p);
  }

  /** Delivered with a DH step: p's new key pair opens an epoch. */
  lemma EpochOpenedInv(c: Setup, w: World, p: Party, e: nat, n: nat, s': State, opening: Epoch)
    requires Inv(c, w) && (e, n) in w.wire && e % 2 != Parity(p) && |w.epochs| >= 2
    requires e == |w.epochs| - 1 && w.SendEpoch(p) == e - 1 && RecvSide(c, w.epochs, w.received + {(e, n)}, s', e)
    requires s'.ourPrivate == opening.secret && s'.ourPublic == Pub(c, opening) && s'.sendInitialized
    requires s'.sendCounter == 0 && s'.prevSendChainLength == w.epochs[e - 1].sent
    requires s'.root == opening.root && s'.sendChain == opening.chain && opening.sent == 0
    requires DhLink(c, w.epochs[e], opening)
    requires Distinct(c, w.epochs + [opening])
    ensures Inv(c, w.With(p, s').(received := w.received + {(e, n)}, epochs := w.epochs + [opening]))
  {
    hide Chained, OnWire, RecvSide, Distinct;
    var q, received := Peer(p), w.received + {(e, n)};
    var w' := w.With(p, s').(received := received, epochs := w.epochs + [opening]);
    NothingReceivedYet(c, w);
    ChainedAppend(c, w.epochs, opening);
    OnWireAppend(c, w.epochs, w.wire, opening);
    PeerKeeps(c, w, q, e, n, opening);
    OpenerOk(c, w.epochs, received, s', opening);
    hide PartyOk;
    forall x ensures PartyOk(c, w'.epochs, w'.received, w'.Of(x), w'.SendEpoch(x)) {
      assert x == p || x == q;
    }
  }

  lemma OpenerOk(c: Setup, epochs: seq<Epoch>, received: set<(nat, nat)>, s': State, opening: Epoch)
    requires |epochs| >= 2 && Distinct(c, epochs + [opening]) && RecvSide(c, epochs, received, s', |epochs| - 1)
    requires forall n: nat :: (|epochs|, n) !in received
    requires s'.ourPrivate == opening.secret && s'.ourPublic == Pub(c, opening) && s'.sendInitialized
    requires s'.sendCounter == 0 && s'.prevSendChainLength == epochs[|epochs| - 2].sent
    requires s'.root == opening.root && s'.sendChain == opening.chain && opening.sent == 0
    ensures PartyOk(c, epochs + [opening], received, s', |epochs|)
  {
    hide RecvSide, Distinct;
    RecvSideAppend(c, epochs, received, s', |epochs| - 1, opening);
    ChainBegins(c.k, opening.chain);
  }

  lemma PeerKeeps(c: Setup, w: World, q: Party, e: nat, n: nat, opening: Epoch)
    requires Inv(c, w) && |w.epochs| >= 2 && (e, n) in w.wire && e % 2 == Parity(q) && Distinct(c, w.epochs + [opening])
    ensures PartyOk(c, w.epochs + [opening], w.received + {(e, n)}, w.Of(q), w.SendEpoch(q))
  {
    hide Chained, OnWire, RecvSide, Distinct, SendSide;
    NothingReceivedYet(c, w);
    WireHolds(c, w, e, n);
    PeerReceivedElsewhere(c, w, q, e, n);
    RecvEpochShape(w, q);
    RecvSideAppend(c, w.epochs, w.received + {(e, n)}, w.Of(q), RecvEpoch(w.SendEpoch(q)), opening);
    SendSideAppend(c, w.epochs, w.Of(q), w.SendEpoch(q), opening);
  }

  lemma AfterDeliverInv(c: Setup, w: World, p: Party, e: nat, n: nat, ephemeral: Private)
    requires Lawful(c) && Inv(c, w) && (e, n) in w.wire && e % 2 != Parity(p)
    requires Distinct(c, AfterDeliver(c, w, p, e, n, ephemeral).epochs)
    ensures Inv(c, AfterDeliver(c, w, p, e, n, ephemeral))
  {
    hide Inv, Answer, Distinct;
    InvSize(c, w);
    WireHolds(c, w, e, n);
    EpochsInReach(w, p, e);
    if Accepts(c, w, p, e, n, ephemeral) {
      if (e, n) in w.received {
        ReplayRefused(c, w, p, e, n, ephemeral);
      } else if e > RecvEpoch(w.SendEpoch(p)) {
        NextInv(c, w, p, e, n, ephemeral);
      } else if Passed(w.epochs, w.Of(p), RecvEpoch(w.SendEpoch(p)), e, n) {
        LateInv(c, w, p, e, n, ephemeral);
      } else {
        CurrentInv(c, w, p, n, ephemeral);
      }
    }
  }

  // ---- Over whole runs ----

  lemma StartInv(c: Setup)
    requires Lawful(c)
    ensures Inv(c, Start(c))
  {
    var w := Start(c);
    ChainBegins(c.k, w.epochs[0].chain);
    ChainBegins(c.k, w.epochs[1].chain);
    assert PartyOk(c, w.epochs, w.received, w.initiator, 1);
    assert PartyOk(c, w.epochs, w.received, w.responder, 0);
    forall p ensures PartyOk(c, w.epochs, w.received, w.Of(p), w.SendEpoch(p)) {
      assert p == Initiator || p == Responder;
    }
  }

  lemma RunInv(c: Setup, steps: seq<Step>, w: World)
    requires Lawful(c) && Run(Conversation(c), Start(c), steps, w)
    ensures Inv(c, w)
  {
    hide Inv, Lawful, AfterSend, AfterDeliver, Distinct;
    var m := Conversation(c);
    var inv := (v: World) => Inv(c, v);
    forall v, step | inv(v) && m.enabled(v, step) ensures inv(m.next(v, step)) {
      match step
      case Send(p, ephemeral) => AfterSendInv(c, v, p, ephemeral);
      case Deliver(p, e, n, ephemeral) => AfterDeliverInv(c, v, p, e, n, ephemeral);
    }
    StartInv(c);
    RunKeeps(m, inv, Start(c), steps, w);
  }

  /**
   * In every run, a message not yet received is answered with the key it was encrypted
   * under, however late or out of order it comes, exactly when the keys it makes the
   * receiver set aside fit the two limits; otherwise the session refuses it.
   */
  lemma AnyOrderDelivery(c: Setup, steps: seq<Step>, w: World, p: Party, e: nat, n: nat, ephemeral: Private)
    requires Lawful(c) && Run(Conversation(c), Start(c), steps, w)
    requires (e, n) in w.wire && e % 2 != Parity(p) && (e, n) !in w.received
    ensures |w.epochs| >= 2 && e < |w.epochs|
    ensures Accepts(c, w, p, e, n, ephemeral) <==> Fits(w, p, e, n)
    ensures !Fits(w, p, e, n) ==>
      Answer(c, w, p, e, n, ephemeral).TooManySkipped? || Answer(c, w, p, e, n, ephemeral).CacheFull?
  {
    hide Inv, Accepts, Fits, Answer;
    RunInv(c, steps, w);
    AcceptedIffFits(c, w, p, e, n, ephemeral);
  }

  /** The same of any world in which both parties agree with the history. */
  lemma AcceptedIffFits(c: Setup, w: World, p: Party, e: nat, n: nat, ephemeral: Private)
    requires Lawful(c) && Inv(c, w)
    requires (e, n) in w.wire && e % 2 != Parity(p) && (e, n) !in w.received
    ensures |w.epochs| >= 2 && e < |w.epochs|
    ensures Accepts(c, w, p, e, n, ephemeral) <==> Fits(w, p, e, n)
    ensures !Fits(w, p, e, n) ==>
      Answer(c, w, p, e, n, ephemeral).TooManySkipped? || Answer(c, w, p, e, n, ephemeral).CacheFull?
  {
    hide Inv, Answer, MovedTo;
    InvSize(c, w);
    WireHolds(c, w, e, n);
    EpochsInReach(w, p, e);
    var r := RecvEpoch(w.SendEpoch(p));
    if e > r {
      NextEpochMessage(c, w, p, e, n, ephemeral);
    } else if Passed(w.epochs, w.Of(p), r, e, n) {
      LateMessage(c, w, p, e, n, ephemeral);
    } else {
      CurrentMessage(c, w, p, n, ephemeral);
    }
  }

  /** Where every earlier message of the sender has been received, the next one fits. */
  lemma NothingMissingFits(c: Setup, w: World, p: Party, e: nat, n: nat)
    requires Inv(c, w) && (e, n) in w.wire && e % 2 != Parity(p)
    requires forall f: nat, i: nat :: (f, i) in w.wire && f % 2 == e % 2 && (f < e || (f == e && i < n)) ==> (f, i) in w.received
    ensures |w.epochs| >= 2 && e < |w.epochs| && Fits(w, p, e, n)
  {
    hide Inv;
    InvSize(c, w);
    WireHolds(c, w, e, n);
    EpochsInReach(w, p, e);
    RecvFacts(c, w, p);
    var s, r := w.Of(p), RecvEpoch(w.SendEpoch(p));
    if e == r && n > s.recvCounter {
      AccountedFor(c, w, p, r, n - 1);
      OnWireBelow(c, w, r, n - 1);
    } else if e > r {
      if s.recvCounter < w.epochs[r].sent {
        AccountedFor(c, w, p, r, s.recvCounter);
        OnWireBelow(c, w, r, s.recvCounter);
      }
      if n > 0 {
        AccountedFor(c, w, p, e, n - 1);
        OnWireBelow(c, w, e, n - 1);
      }
    }
  }

  lemma OnWireBelow(c: Setup, w: World, e: nat, n: nat)
    requires Inv(c, w) && e < |w.epochs| && n < w.epochs[e].sent
    ensures (e, n) in w.wire
  {}

  /** In every run, no message is accepted twice. */
  lemma NoReplay(c: Setup, steps: seq<Step>, w: World, p: Party, e: nat, n: nat, ephemeral: Private)
    requires Lawful(c) && Run(Conversation(c), Start(c), steps, w)
    requires (e, n) in w.received && e % 2 != Parity(p)
    ensures (e, n) in w.wire && !Accepts(c, w, p, e, n, ephemeral)
  {
    hide Accepts;
    RunInv(c, steps, w);
    ReplayRefused(c, w, p, e, n, ephemeral);
  }

  /** In every run the cache keeps its bound and no two messages share a header. */
  lemma HeadersAreUnique(c: Setup, steps: seq<Step>, w: World, at: (nat, nat), at': (nat, nat), p: Party)
    requires Lawful(c) && Run(Conversation(c), Start(c), steps, w)
    requires at in w.wire && at' in w.wire && at != at'
    ensures w.wire[at].header != w.wire[at'].header
    ensures |w.Of(p).skipped| <= MAX_SKIPPED_TOTAL
  {
    hide Inv;
    RunInv(c, steps, w);
    RecvFacts(c, w, p);
    RecvSideHolds(c, w, p);
    WireHolds(c, w, at.0, at.1);
    WireHolds(c, w, at'.0, at'.1);
    if Pub(c, w.epochs[at.0]) == Pub(c, w.epochs[at'.0]) { KeyOfOneEpoch(c, w.epochs, at.0, at'.0); }
  }

  /** In every run a message that exists belongs to an epoch that does. */
  lemma MessageExists(c: Setup, steps: seq<Step>, w: World, e: nat, n: nat)
    requires Lawful(c) && Run(Conversation(c), Start(c), steps, w) && (e, n) in w.wire
    ensures |w.epochs| >= 2 && e < |w.epochs|
  {
    hide Inv;
    RunInv(c, steps, w);
    InvSize(c, w);
    WireHolds(c, w, e, n);
  }

  /** In every run the cache keeps its bound. */
  lemma CacheBound(c: Setup, steps: seq<Step>, w: World, p: Party)
    requires Lawful(c) && Run(Conversation(c), Start(c), steps, w)
    ensures |w.Of(p).skipped| <= MAX_SKIPPED_TOTAL
  {
    hide Inv;
    RunInv(c, steps, w);
    RecvFacts(c, w, p);
  }

  // ---- What a replay meets in the ratchet itself ----

  /** Room for the keys that a replay of an older epoch makes the code set aside, first on the current chain,
      then on the chain of a DH step with the old key. Keys the cache already holds under that key take none. */
  predicate ReplayFits(c: Setup, w: World, p: Party, e: nat, n: nat)
    requires |w.epochs| >= 2 && e < |w.epochs|
  {
    var s, prev := w.Of(p), PreviousLength(w.epochs, e);
    var rest := if prev > s.recvCounter then prev - s.recvCounter else 0;
    && rest <= MAX_SKIP && |s.skipped| + rest <= MAX_SKIPPED_TOTAL
    && n <= MAX_SKIP
    && (n == 0 || |s.skipped| + rest + NewKeys(s.skipped, Pub(c, w.epochs[e]), 0, n - 1) < MAX_SKIPPED_TOTAL)
  }

  /**
   * When the ratchet itself answers a replay, with some key: exactly when the message is of an epoch older
   * than the one being received and what it makes the code set aside fits. Otherwise it refuses, a message
   * of the epoch being received as a duplicate. No answer is the message's own key, so authentication
   * refuses the rest.
   */
  lemma ReplayAnsweredIff(c: Setup, steps: seq<Step>, w: World, p: Party, e: nat, n: nat, ephemeral: Private)
    requires Lawful(c) && Run(Conversation(c), Start(c), steps, w)
    requires (e, n) in w.received && e % 2 != Parity(p)
    ensures |w.epochs| >= 2 && e < |w.epochs| && (e, n) in w.wire && e <= RecvEpoch(w.SendEpoch(p))
    ensures var r, answer := RecvEpoch(w.SendEpoch(p)), Answer(c, w, p, e, n, ephemeral);
      && (answer.Ok? <==> e < r && ReplayFits(c, w, p, e, n))
      && (e == r ==> answer == Duplicate)
      && (e < r && !answer.Ok? ==> answer.TooManySkipped? || answer.CacheFull?)
      && !Accepts(c, w, p, e, n, ephemeral)
  {
    hide Inv, Accepts, ReplayFits, Answer;
    RunInv(c, steps, w);
    NoReplay(c, steps, w, p, e, n, ephemeral);
    RecvFacts(c, w, p);
    WireHolds(c, w, e, n);
    AccountedFor(c, w, p, e, n);
    if e == RecvEpoch(w.SendEpoch(p)) {
      CurrentReplay(c, w, p, n, ephemeral);
    } else {
      OldReplay(c, w, p, e, n, ephemeral);
    }
  }

  lemma CurrentReplay(c: Setup, w: World, p: Party, n: nat, ephemeral: Private)
    requires Inv(c, w) && |w.epochs| >= 2
    requires var e := RecvEpoch(w.SendEpoch(p)); (e, n) in w.wire && (e, n) in w.received
    ensures Answer(c, w, p, RecvEpoch(w.SendEpoch(p)), n, ephemeral) == Duplicate
  {
    hide Inv;
    var e := RecvEpoch(w.SendEpoch(p));
    RecvFacts(c, w, p);
    WireHolds(c, w, e, n);
    AccountedFor(c, w, p, e, n);
  }

  lemma OldReplay(c: Setup, w: World, p: Party, e: nat, n: nat, ephemeral: Private)
    requires Inv(c, w) && (e, n) in w.wire && (e, n) in w.received && e % 2 != Parity(p)
    requires |w.epochs| >= 2 && e < RecvEpoch(w.SendEpoch(p)) && e < |w.epochs|
    ensures var answer := Answer(c, w, p, e, n, ephemeral);
      && (answer.Ok? <==> ReplayFits(c, w, p, e, n))
      && (!answer.Ok? ==> answer.TooManySkipped? || answer.CacheFull?)
  {
    hide Inv, StageTo, ChainAt, BundleAt, RoomToStage, NewKeys, ReceiveOnChain;
    OldHeader(c, w, p, e, n);
    var s, header := w.Of(p), w.wire[(e, n)].header;
    RestStaged(c, w, p, e, header.prevChainLength);
    var staged := StageTo(c.k, s, header.prevChainLength, MAX_SKIP);
    if staged.Ok? {
      var t := Reseeded(c.k, staged.value, header.dhPublicKey, ephemeral);
      ReceiveFirstIff(c.k, t, n);
      RoomFromStart(t.skipped, t.remote, n);
      NewKeysAgree(s.skipped, t.skipped, t.remote, 0, if n == 0 then 0 else n - 1);
    }
  }

  /** A replayed header of an older epoch: another key than the current one, and nothing cached for the message. */
  lemma OldHeader(c: Setup, w: World, p: Party, e: nat, n: nat)
    requires Inv(c, w) && (e, n) in w.wire && (e, n) in w.received && e % 2 != Parity(p)
    requires |w.epochs| >= 2 && e < RecvEpoch(w.SendEpoch(p)) && e < |w.epochs|
    ensures var s, header := w.Of(p), w.wire[(e, n)].header;
      && header == Header(Pub(c, w.epochs[e]), PreviousLength(w.epochs, e), n)
      && n <= MAX_COUNTER && header.prevChainLength <= MAX_COUNTER + 1
      && header.dhPublicKey != s.remote && (header.dhPublicKey, n) !in s.skipped
  {
    hide Inv, ChainAt, BundleAt, Passed;
    RecvFacts(c, w, p);
    RecvSideHolds(c, w, p);
    WireHolds(c, w, e, n);
    AccountedFor(c, w, p, e, n);
    KeysDiffer(c, w.epochs, e, RecvEpoch(w.SendEpoch(p)));
    PreviousBounded(c, w, e);
  }

  lemma RoomFromStart(cache: SkippedKeys, q: Public, n: nat)
    ensures RoomToStage(cache, q, 0, n) <==> n == 0 || |cache| + NewKeys(cache, q, 0, n - 1) < MAX_SKIPPED_TOTAL
  {}

  lemma PreviousBounded(c: Setup, w: World, e: nat)
    requires Inv(c, w) && e < |w.epochs|
    ensures PreviousLength(w.epochs, e) <= MAX_COUNTER + 1
  {}

  /** Staging what the replayed header says is missing of the current chain. */
  lemma RestStaged(c: Setup, w: World, p: Party, e: nat, prev: nat)
    requires Inv(c, w) && |w.epochs| >= 2 && e < RecvEpoch(w.SendEpoch(p)) && e < |w.epochs| && e % 2 != Parity(p)
    requires prev <= MAX_COUNTER + 1
    ensures var s, staged := w.Of(p), StageTo(c.k, w.Of(p), prev, MAX_SKIP);
      var rest := if prev > s.recvCounter then prev - s.recvCounter else 0;
      && (staged.Ok? <==> rest <= MAX_SKIP && |s.skipped| + rest <= MAX_SKIPPED_TOTAL)
      && (!staged.Ok? ==> staged.TooManySkipped? || staged.CacheFull?)
      && (staged.Ok? ==>
            && |staged.value.skipped| == |s.skipped| + rest
            && forall i: nat :: (Pub(c, w.epochs[e]), i) in staged.value.skipped <==> (Pub(c, w.epochs[e]), i) in s.skipped)
  {
    hide Inv, ChainAt, BundleAt;
    RecvFacts(c, w, p);
    RecvSideHolds(c, w, p);
    var s, r := w.Of(p), RecvEpoch(w.SendEpoch(p));
    KeysDiffer(c, w.epochs, e, r);
    NothingCached(c, w, p, r);
    if prev > s.recvCounter { StageToIff(c.k, s, w.epochs[r].chain, prev, MAX_SKIP); }
  }
}
