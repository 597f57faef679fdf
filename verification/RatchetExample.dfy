/** A concrete conversation: the laws assumed of the primitives can be met, and old replays do occur. */
module RatchetExample {
  import opened DoubleRatchet
  import opened Primitives
  import opened RatchetConversation
  import opened RatchetDelivery
  import opened Runs

  // Primitives that meet the laws (and hide nothing).
  function PublicOf(a: Private): Public { Public(a.bytes) }

  function Agree(a: Private, b: Public): Key { Key([]) }

  function InitialKeys(secret: Key, agreed: Key): (Key, Key, Key) { (Key([]), Key([]), Key([])) }

  function RootAndChain(root: Key, agreed: Key): (Key, Key) { (Key([1] + root.bytes), Key([2] + root.bytes)) }

  function MessageKey(chain: Key, n: nat): Bundle { Bundle(chain.bytes) }

  function NextKey(chain: Key, n: nat): Key { Key([3] + chain.bytes) }

  const KDF := Kdf(PublicOf, Agree, InitialKeys, RootAndChain, MessageKey, NextKey)

  const SETUP := Setup(KDF, Key([]), Private([1]), Private([2]))

  lemma PrependInjective(x: bv8, a: Bytes, b: Bytes)
    requires [x] + a == [x] + b
    ensures a == b
  {
    assert ([x] + a)[1..] == a && ([x] + b)[1..] == b;
  }

  lemma LawsHold()
    ensures Lawful(SETUP)
  {
    forall c: Key, d: Key, n: nat | NextKey(c, n) == NextKey(d, n) ensures c == d {
      PrependInjective(3, c.bytes, d.bytes);
    }
    forall r: Key, x: Key, r': Key, x': Key | RootAndChain(r, x).1 == RootAndChain(r', x').1 ensures r == r' {
      PrependInjective(2, r.bytes, r'.bytes);
    }
    assert SETUP.initiator.bytes[0] != SETUP.responder.bytes[0];
  }

  const UNUSED := Private([9])

  /** Each side speaks once and the initiator again, every message received as it comes. */
  const DIALOGUE: seq<Step> := [
    Send(Initiator, UNUSED), Deliver(Responder, 1, 0, UNUSED),
    Send(Responder, Private([3])), Deliver(Initiator, 2, 0, Private([4])),
    Send(Initiator, UNUSED), Deliver(Responder, 3, 0, Private([5]))]

  function After(n: nat): World
    requires n <= |DIALOGUE|
  {
    if n == 0 then Start(SETUP) else Next(SETUP, After(n - 1), DIALOGUE[n - 1])
  }

  const EPOCH0 := Epoch(Private([2]), Key([]), Key([]), 0)
  const EPOCH1 := Epoch(Private([1]), Key([]), Key([]), 1)
  const EPOCH2 := Epoch(Private([3]), Key([1]), Key([2]), 1)
  const EPOCH3 := Epoch(Private([4]), Key([1, 1]), Key([2, 1]), 0)
  const EPOCH4 := Epoch(Private([5]), Key([1, 1, 1]), Key([2, 1, 1]), 0)

  lemma After1()
    ensures var w := After(1);
      && w.initiator == Start(SETUP).initiator.(sendChain := Key([3]), sendCounter := 1)
      && w.responder == Start(SETUP).responder
      && w.epochs == [EPOCH0, EPOCH1] && w.received == {}
      && w.wire == map[(1, 0) := Sent(Header(Public([1]), 0, 0), Bundle([]))]
  {
    assert After(1) == Next(SETUP, After(0), DIALOGUE[0]);
  }

  lemma After2()
    ensures var w := After(2);
      && w == After(1).(responder := w.responder, received := {(1, 0)})
      && w.responder == Start(SETUP).responder.(recvChain := Key([3]), recvCounter := 1)
  {
    After1();
    assert After(2) == Next(SETUP, After(1), DIALOGUE[1]);
  }

  lemma After3()
    ensures var w := After(3);
      && w.initiator == After(1).initiator && w.received == {(1, 0)}
      && w.responder == State(Key([1]), Key([3, 2]), true, 1, 0, Key([3]), 1, Private([3]), Public([3]), Public([1]), map[])
      && w.epochs == [EPOCH0, EPOCH1, EPOCH2]
      && (2, 0) in w.wire && w.wire[(2, 0)] == Sent(Header(Public([3]), 0, 0), Bundle([2]))
  {
    After2();
    After1();
    assert After(3) == Next(SETUP, After(2), DIALOGUE[2]);
    assert [1] + [] == [1 as bv8] && [2] + [] == [2 as bv8] && [3] + [2] == [3 as bv8, 2];
  }

  lemma After4()
    ensures var w := After(4);
      && w.responder == After(3).responder && w.received == {(1, 0), (2, 0)}
      && w.initiator
         == State(Key([1, 1]), Key([2, 1]), true, 0, 1, Key([3, 2]), 1, Private([4]), Public([4]), Public([3]), map[])
      && w.epochs == [EPOCH0, EPOCH1, EPOCH2, EPOCH3]
  {
    After3();
    After1();
    assert After(4) == Next(SETUP, After(3), DIALOGUE[3]);
    assert [1] + [] == [1 as bv8] && [2] + [] == [2 as bv8] && [3] + [2] == [3 as bv8, 2];
    assert [1] + [1] == [1 as bv8, 1] && [2] + [1] == [2 as bv8, 1];
  }

  lemma After5()
    ensures var w := After(5);
      && w.responder == After(3).responder && w.received == {(1, 0), (2, 0)}
      && w.epochs == [EPOCH0, EPOCH1, EPOCH2, EPOCH3.(sent := 1)]
      && (3, 0) in w.wire && w.wire[(3, 0)] == Sent(Header(Public([4]), 1, 0), Bundle([2, 1]))
  {
    After4();
    assert After(5) == Next(SETUP, After(4), DIALOGUE[4]);
  }

  const RESPONDER3 := State(Key([1]), Key([3, 2]), true, 1, 0, Key([3]), 1, Private([3]), Public([3]), Public([1]), map[])

  /** The responder's answer to the initiator's second message. */
  lemma LastAnswer()
    ensures var r := Decrypted(KDF, RESPONDER3, Header(Public([4]), 1, 0), Private([5]));
      && r.Ok? && r.value.1 == Bundle([2, 1])
      && r.value.0.root == Key([1, 1, 1]) && r.value.0.sendChain == Key([2, 1, 1]) && r.value.0.remote == Public([4])
  {
    assert [1] + [1] == [1 as bv8, 1] && [2] + [1] == [2 as bv8, 1];
    assert [1] + [1, 1] == [1 as bv8, 1, 1] && [2] + [1, 1] == [2 as bv8, 1, 1];
  }

  lemma After6()
    ensures var w := After(6);
      && w.received == {(1, 0), (2, 0), (3, 0)}
      && w.epochs == [EPOCH0, EPOCH1, EPOCH2, EPOCH3.(sent := 1), EPOCH4]
  {
    assert After(6) == Next(SETUP, After(5), DIALOGUE[5]);
    hide After, Decrypted;
    After5();
    After3();
    LastAnswer();
  }

  /** Every step of the dialogue is possible, and no key pair or root comes twice. */
  lemma StepIsEnabled(n: nat)
    requires n < |DIALOGUE|
    ensures Conversation(SETUP).enabled(After(n), DIALOGUE[n])
    ensures Conversation(SETUP).next(After(n), DIALOGUE[n]) == After(n + 1)
  {
    hide Next, Distinct;
    After1();
    After2();
    After3();
    After4();
    After5();
    After6();
    StartSize();
    EpochsDistinct(After(n + 1).epochs);
  }

  lemma StartSize()
    ensures |After(0).epochs| == 2 && After(0).epochs == [EPOCH0, EPOCH1.(sent := 0)]
  {}

  /** What the epochs of the dialogue look like, counters aside. */
  predicate FromDialogue(epochs: seq<Epoch>) {
    && |epochs| <= 5
    && forall i :: 0 <= i < |epochs| ==>
         epochs[i].(sent := 0) == [EPOCH0, EPOCH1, EPOCH2, EPOCH3, EPOCH4][i].(sent := 0)
  }

  lemma EpochsDistinct(epochs: seq<Epoch>)
    requires FromDialogue(epochs)
    ensures Distinct(SETUP, epochs)
  {
    var all := [EPOCH0, EPOCH1, EPOCH2, EPOCH3, EPOCH4];
    assert forall i :: 0 <= i < |epochs| ==> epochs[i].secret == all[i].secret && epochs[i].root == all[i].root;
    SecretsDiffer();
    RootsDiffer();
  }

  lemma SecretsDiffer()
    ensures var all := [EPOCH0, EPOCH1, EPOCH2, EPOCH3, EPOCH4];
      forall i, j :: 0 <= i < j < 5 ==> PublicOf(all[i].secret) != PublicOf(all[j].secret)
  {
    var all := [EPOCH0, EPOCH1, EPOCH2, EPOCH3, EPOCH4];
    forall i, j | 0 <= i < j < 5 ensures PublicOf(all[i].secret) != PublicOf(all[j].secret) {
      assert PublicOf(all[i].secret).bytes[0] != PublicOf(all[j].secret).bytes[0];
    }
  }

  lemma RootsDiffer()
    ensures var all := [EPOCH0, EPOCH1, EPOCH2, EPOCH3, EPOCH4];
      forall i, j :: 1 <= i < j < 5 ==> all[i].root != all[j].root
  {
    var all := [EPOCH0, EPOCH1, EPOCH2, EPOCH3, EPOCH4];
    forall i, j | 1 <= i < j < 5 ensures all[i].root != all[j].root {
      assert |all[i].root.bytes| < |all[j].root.bytes|;
    }
  }

  lemma {:induction false} DialogueRuns(n: nat)
    requires n <= |DIALOGUE|
    ensures Run(Conversation(SETUP), Start(SETUP), DIALOGUE[..n], After(n))
  {
    hide Next, Possible, Distinct;
    if n > 0 {
      DialogueRuns(n - 1);
      StepIsEnabled(n - 1);
      RunStep(Conversation(SETUP), Start(SETUP), DIALOGUE[..n - 1], After(n - 1), DIALOGUE[n - 1]);
      assert DIALOGUE[..n] == DIALOGUE[..n - 1] + [DIALOGUE[n - 1]];
    }
  }

  /** After the dialogue the first message, long received, is answered by the ratchet again: with a key that is
      not its own, after a DH step that should not have been. */
  lemma OldReplayIsAnswered(ephemeral: Private)
    ensures var w := After(6);
      && Run(Conversation(SETUP), Start(SETUP), DIALOGUE, w) && Lawful(SETUP)
      && (1, 0) in w.received && (1, 0) in w.wire
      && Answer(SETUP, w, Responder, 1, 0, ephemeral).Ok?
      && !Accepts(SETUP, w, Responder, 1, 0, ephemeral)
  {
    hide Next, Possible, Distinct, Lawful, Accepts, Answer;
    LawsHold();
    DialogueRuns(6);
    assert DIALOGUE[..6] == DIALOGUE;
    After6();
    ReplayAnsweredIff(SETUP, DIALOGUE, After(6), Responder, 1, 0, ephemeral);
    CacheBound(SETUP, DIALOGUE, After(6), Responder);
  }
}
