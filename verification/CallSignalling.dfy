/**
 * ICE candidates of one call: two outgoing buffers, two incoming buffers and a network
 * that delivers in any order.
 *
 * The methods of `CallService` are the stretches of its code between two awaits.
 */
module CallSignalling {
  import opened Runs

  type Candidate(==, !new)

  /** The buffers of one side. `flushed` counts the candidates the flush loop has handed over;
      `added` is what the peer connection was given. */
  datatype Side = Side(
    inCall: bool, hasConnection: bool, peerAnswered: bool, remoteReady: bool,
    outbox: seq<Candidate>, inbox: seq<Candidate>, flushed: nat, added: multiset<Candidate>)

  const IDLE := Side(false, false, false, false, [], [], 0, multiset{})

  /** onIceCandidate: send it, or keep it until the peer has answered. */
  function Generated(s: Side, c: Candidate): (Side, seq<Candidate>) {
    if s.peerAnswered then (s, [c]) else (s.(outbox := s.outbox + [c]), [])
  }

  /** _handle('answer') up to its first await: everything kept goes out. */
  function HeardAnswer(s: Side): (Side, seq<Candidate>) {
    (s.(peerAnswered := true, outbox := []), s.outbox)
  }

  /** After setRemoteDescription: the flush of the incoming buffer starts. */
  function RemoteSet(s: Side): Side { s.(remoteReady := true, flushed := 0) }

  /** One turn of the flush loop. */
  function FlushedOne(s: Side): Side
    requires s.flushed < |s.inbox|
  {
    s.(flushed := s.flushed + 1, added := s.added + multiset{s.inbox[s.flushed]})
  }

  /** After the flush loop: the buffer is cleared. */
  function FlushEnded(s: Side): Side { s.(inbox := [], flushed := 0) }

  /** _handle('ice-candidate'): dropped outside a call, else given on or buffered. */
  function HeardCandidate(s: Side, c: Candidate): Side {
    if !s.inCall then s
    else if s.remoteReady then s.(added := s.added + multiset{c})
    else s.(inbox := s.inbox + [c])
  }

  class CallService {
    var inCall: bool
    var hasConnection: bool
    var peerAnswered: bool
    var remoteReady: bool
    var candidateOutbox: seq<Candidate>
    var candidates: seq<Candidate>
    var flushed: nat
    var added: multiset<Candidate>

    function View(): Side reads this {
      Side(inCall, hasConnection, peerAnswered, remoteReady, candidateOutbox, candidates, flushed, added)
    }

    constructor ()
      ensures View() == IDLE
    {
      inCall, hasConnection, peerAnswered, remoteReady := false, false, false, false;
      candidateOutbox, candidates, flushed, added := [], [], 0, multiset{};
    }

    /** `call` and `accept` alike: refused during a call; else the call and its key are set, and an
        accepted peer counts as answering. */
    method Begin(accepting: bool) returns (ok: bool)
      modifies this
      ensures ok <==> !old(inCall)
      ensures View() == if ok then old(View()).(inCall := true, peerAnswered := accepting || old(peerAnswered)) else old(View())
    {
      if inCall { return false; }
      inCall := true;
      if accepting { peerAnswered := true; }
      return true;
    }

    method Prepare()
      modifies this
      ensures View() == old(View()).(hasConnection := true)
    {
      hasConnection := true;
    }

    method OnIceCandidate(c: Candidate) returns (sent: seq<Candidate>)
      modifies this
      ensures (View(), sent) == Generated(old(View()), c)
      ensures old(peerAnswered) ==> sent == [c] && View() == old(View())
      ensures !old(peerAnswered) ==> sent == [] && View() == old(View()).(outbox := old(candidateOutbox) + [c])
    {
      sent := [];
      if peerAnswered { sent := [c]; } else { candidateOutbox := candidateOutbox + [c]; }
    }

    method HandleAnswer() returns (sent: seq<Candidate>)
      modifies this
      ensures (View(), sent) == HeardAnswer(old(View()))
      ensures sent == old(candidateOutbox) && View() == old(View()).(peerAnswered := true, outbox := [])
    {
      peerAnswered := true;
      sent := [];
      for i := 0 to |candidateOutbox|
        invariant sent == candidateOutbox[..i]
        invariant View() == old(View()).(peerAnswered := true)
      {
        sent := sent + [candidateOutbox[i]];
      }
      assert candidateOutbox[..|candidateOutbox|] == candidateOutbox;
      candidateOutbox := [];
    }

    method RemoteDescriptionSet()
      modifies this
      ensures View() == RemoteSet(old(View()))
    {
      remoteReady, flushed := true, 0;
    }

    method FlushNext()
      requires flushed < |candidates|
      modifies this
      ensures View() == FlushedOne(old(View()))
    {
      added := added + multiset{candidates[flushed]};
      flushed := flushed + 1;
    }

    method EndFlush()
      modifies this
      ensures View() == FlushEnded(old(View()))
    {
      candidates, flushed := [], 0;
    }

    method HandleCandidate(c: Candidate)
      modifies this
      ensures View() == HeardCandidate(old(View()), c)
      ensures !old(inCall) ==> View() == old(View())
      ensures old(inCall) ==>
        View() == if old(remoteReady) then old(View()).(added := old(added) + multiset{c})
                  else old(View()).(inbox := old(candidates) + [c])
    {
      if !inCall { return; }
      if remoteReady { added := added + multiset{c}; } else { candidates := candidates + [c]; }
    }

    /** Signals handled while an await is pending: any number of those still to come. */
    method Meanwhile(arriving: seq<Candidate>, from: nat) returns (upTo: nat)
      requires inCall && from <= |arriving|
      modifies this
      ensures from <= upTo <= |arriving|
      ensures var heard := arriving[from..upTo];
        View() == if old(remoteReady) then old(View()).(added := old(added) + multiset(heard))
                  else old(View()).(inbox := old(candidates) + heard)
    {
      upTo := from;
      while upTo < |arriving|
        invariant from <= upTo <= |arriving|
        invariant var heard := arriving[from..upTo];
          View() == if old(remoteReady) then old(View()).(added := old(added) + multiset(heard))
                    else old(View()).(inbox := old(candidates) + heard)
      {
        var more := *;
        if !more { break; }
        assert arriving[from..upTo + 1] == arriving[from..upTo] + [arriving[upTo]];
        HandleCandidate(arriving[upTo]);
        upTo := upTo + 1;
      }
    }

    /** One turn of the flush loop and what is handled while it waits; the flush of `s` has come as far as `from`. */
    method FlushTurn(arriving: seq<Candidate>, ghost s: Side, ghost first: nat, from: nat) returns (upTo: nat)
      requires inCall && remoteReady && first <= from <= |arriving| && flushed < |candidates| == |s.inbox|
      requires View() == Given(s, flushed, arriving[first..from])
      modifies this
      ensures from <= upTo <= |arriving|
      ensures flushed == old(flushed) + 1 && View() == Given(s, flushed, arriving[first..upTo])
    {
      hide Given;
      FlushNext();
      upTo := Meanwhile(arriving, from);
      GivenMore(s, flushed - 1, arriving, first, from, upTo);
    }

    method FlushAll(arriving: seq<Candidate>, from: nat) returns (upTo: nat)
      requires inCall && remoteReady && flushed == 0 && from <= |arriving|
      modifies this
      ensures from <= upTo <= |arriving|
      ensures View() == Given(old(View()), |old(candidates)|, arriving[from..upTo])
    {
      upTo := from;
      ghost var s := View();
      GivenNothing(s, arriving, from);
      hide Given;
      while flushed < |candidates|
        invariant from <= upTo <= |arriving| && flushed <= |s.inbox|
        invariant View() == Given(s, flushed, arriving[from..upTo])
        decreases |candidates| - flushed
      {
        upTo := FlushTurn(arriving, s, from, upTo);
      }
    }

    /** The remote description is set and the buffer flushed, with further candidates handled at every await. Each
        buffered one is handed over once, and so is each that is heard meanwhile. */
    method Flush(arriving: seq<Candidate>, from: nat) returns (upTo: nat)
      requires inCall && from <= |arriving|
      modifies this
      ensures from <= upTo <= |arriving|
      ensures View() == old(View()).(remoteReady := true, inbox := [], flushed := 0,
                                     added := old(added) + (multiset(old(candidates)) + multiset(arriving[from..upTo])))
    {
      RemoteDescriptionSet();
      ghost var s := View();
      upTo := FlushAll(arriving, from);
      GivenAll(s, arriving[from..upTo]);
      hide Given;
      EndFlush();
    }

    /** accept: refused during a call; otherwise every candidate that was buffered, or is heard while it runs, has been
        handed over once when it is done. */
    method Accept(arriving: seq<Candidate>) returns (ok: bool, upTo: nat)
      modifies this
      ensures ok <==> !old(inCall)
      ensures upTo <= |arriving|
      ensures !ok ==> View() == old(View())
      ensures ok ==>
        View() == Side(true, true, true, true, old(candidateOutbox), [], 0,
                       old(added) + (multiset(old(candidates)) + multiset(arriving[..upTo])))
    {
      ok := Begin(true);
      upTo := 0;
      if !ok { return; }
      var heard := Meanwhile(arriving, 0);
      Prepare();
      ghost var s := View();
      upTo := Flush(arriving, heard);
      HeardInAll(old(View()), s, arriving, heard, upTo);
    }
  }

  /** A side whose flush has handed over the first n of its buffer, and that has heard these meanwhile. */
  function Given(s: Side, n: nat, heard: seq<Candidate>): (r: Side)
    requires n <= |s.inbox|
    ensures r == s.(flushed := n, added := r.added)
  {
    s.(flushed := n, added := s.added + (multiset(s.inbox[..n]) + multiset(heard)))
  }

  lemma GivenNothing(s: Side, arriving: seq<Candidate>, from: nat)
    requires s.flushed == 0 && from <= |arriving|
    ensures Given(s, 0, arriving[from..from]) == s
  {}

  lemma GivenAll(s: Side, heard: seq<Candidate>)
    ensures Given(s, |s.inbox|, heard) == s.(flushed := |s.inbox|, added := s.added + (multiset(s.inbox) + multiset(heard)))
  {
    assert s.inbox[..|s.inbox|] == s.inbox;
  }

  lemma GivenMore(s: Side, n: nat, arriving: seq<Candidate>, from: nat, heard: nat, upTo: nat)
    requires n < |s.inbox| && from <= heard <= upTo <= |arriving|
    ensures var before := Given(s, n, arriving[from..heard]);
      Given(s, n + 1, arriving[from..upTo])
        == before.(flushed := n + 1, added := before.added + (multiset{s.inbox[n]} + multiset(arriving[heard..upTo])))
  {
    assert s.inbox[..n + 1] == s.inbox[..n] + [s.inbox[n]];
    assert arriving[from..upTo] == arriving[from..heard] + arriving[heard..upTo];
  }

  /** Heard before the flush or during it comes to the same. */
  lemma HeardInAll(before: Side, s: Side, arriving: seq<Candidate>, heard: nat, upTo: nat)
    requires heard <= upTo <= |arriving|
    requires s.added == (if before.remoteReady then before.added + multiset(arriving[0..heard]) else before.added)
    requires s.inbox == (if before.remoteReady then before.inbox else before.inbox + arriving[0..heard])
    ensures s.added + (multiset(s.inbox) + multiset(arriving[heard..upTo]))
      == before.added + (multiset(before.inbox) + multiset(arriving[..upTo]))
  {
    assert arriving[..upTo] == arriving[0..heard] + arriving[heard..upTo];
  }

  // ---- One call between two sides

  /** How far `call` has come, including its handling of the answer. */
  datatype Calling = NotCalling | Placed | Offered | AnswerHeard | FlushingCaller | Connected

  /** How far `accept` has come. */
  datatype Accepting = NotRinging | Ringing | Joined | Prepared | FlushingCallee | Ready | Answered

  /** `made*` is every candidate a side's connection produced; `to*` is what the network holds. */
  datatype Call = Call(
    caller: Side, callee: Side, calling: Calling, accepting: Accepting,
    toCaller: multiset<Candidate>, toCallee: multiset<Candidate>,
    madeByCaller: multiset<Candidate>, madeByCallee: multiset<Candidate>)

  const NO_CALL := Call(IDLE, IDLE, NotCalling, NotRinging, multiset{}, multiset{}, multiset{}, multiset{})

  datatype Step =
    | Place | Offer | Ring | Accept | Prepare | CalleeRemote | CalleeFlush | CalleeFlushEnd | Answer
    | HearAnswer | CallerRemote | CallerFlush | CallerFlushEnd
    | CallerMakes(c: Candidate) | CalleeMakes(c: Candidate)
    | CallerHears(c: Candidate) | CalleeHears(c: Candidate)

  predicate Enabled(w: Call, step: Step) {
    match step
    case Place => w.calling.NotCalling?
    case Offer => w.calling.Placed?
    case Ring => w.calling.Offered? && w.accepting.NotRinging?
    case Accept => w.accepting.Ringing?
    case Prepare => w.accepting.Joined?
    case CalleeRemote => w.accepting.Prepared?
    case CalleeFlush => w.accepting.FlushingCallee? && w.callee.flushed < |w.callee.inbox|
    case CalleeFlushEnd => w.accepting.FlushingCallee? && w.callee.flushed >= |w.callee.inbox|
    case Answer => w.accepting.Ready?
    case HearAnswer => w.accepting.Answered? && w.calling.Offered?
    case CallerRemote => w.calling.AnswerHeard?
    case CallerFlush => w.calling.FlushingCaller? && w.caller.flushed < |w.caller.inbox|
    case CallerFlushEnd => w.calling.FlushingCaller? && w.caller.flushed >= |w.caller.inbox|
    case CallerMakes(_) => w.caller.hasConnection
    case CalleeMakes(_) => w.callee.hasConnection
    // Incoming signals are handled one at a time: none while the answer is still being handled.
    case CallerHears(c) => c in w.toCaller && !w.calling.AnswerHeard? && !w.calling.FlushingCaller?
    // `accept` is not part of that queue, so a candidate may be handled in the middle of it.
    case CalleeHears(c) => c in w.toCallee
  }

  function Next(w: Call, step: Step): Call
    requires Enabled(w, step)
  {
    match step
    case Place => w.(caller := w.caller.(inCall := true, hasConnection := true), calling := Placed)
    case Offer => w.(calling := Offered)
    case Ring => w.(accepting := Ringing)
    case Accept => w.(callee := w.callee.(inCall := true, peerAnswered := true), accepting := Joined)
    case Prepare => w.(callee := w.callee.(hasConnection := true), accepting := Prepared)
    case CalleeRemote => w.(callee := RemoteSet(w.callee), accepting := FlushingCallee)
    case CalleeFlush => w.(callee := FlushedOne(w.callee))
    case CalleeFlushEnd => w.(callee := FlushEnded(w.callee), accepting := Ready)
    case Answer => w.(accepting := Answered)
    case HearAnswer =>
      var (side, sent) := HeardAnswer(w.caller);
      w.(caller := side, toCallee := w.toCallee + multiset(sent), calling := AnswerHeard)
    case CallerRemote => w.(caller := RemoteSet(w.caller), calling := FlushingCaller)
    case CallerFlush => w.(caller := FlushedOne(w.caller))
    case CallerFlushEnd => w.(caller := FlushEnded(w.caller), calling := Connected)
    case CallerMakes(c) =>
      var (side, sent) := Generated(w.caller, c);
      w.(caller := side, toCallee := w.toCallee + multiset(sent), madeByCaller := w.madeByCaller + multiset{c})
    case CalleeMakes(c) =>
      var (side, sent) := Generated(w.callee, c);
      w.(callee := side, toCaller := w.toCaller + multiset(sent), madeByCallee := w.madeByCallee + multiset{c})
    case CallerHears(c) =>
      w.(caller := HeardCandidate(w.caller, c), toCaller := w.toCaller - multiset{c})
    case CalleeHears(c) =>
      w.(callee := HeardCandidate(w.callee, c), toCallee := w.toCallee - multiset{c})
  }

  ghost const SIGNALLING: Machine<Call, Step> :=
    Machine((w: Call, step: Step) => Enabled(w, step),
            (w: Call, step: Step) => if Enabled(w, step) then Next(w, step) else w)

  /** The candidates a side has heard: those still in its buffer and those handed over. */
  function Heard(s: Side): multiset<Candidate>
    requires s.flushed <= |s.inbox|
  {
    multiset(s.inbox[s.flushed..]) + s.added
  }

  /** Nothing is lost and nothing is duplicated, in either direction. */
  ghost predicate Conserved(w: Call) {
    && w.caller.flushed <= |w.caller.inbox| && w.callee.flushed <= |w.callee.inbox|
    && w.madeByCaller == multiset(w.caller.outbox) + w.toCallee + Heard(w.callee)
    && w.madeByCallee == multiset(w.callee.outbox) + w.toCaller + Heard(w.caller)
  }

  /** Which flags the stages imply. */
  ghost predicate StagesOk(w: Call) {
    && (w.caller.inCall == w.caller.hasConnection == !w.calling.NotCalling?)
    && (w.caller.peerAnswered == (w.calling.AnswerHeard? || w.calling.FlushingCaller? || w.calling.Connected?))
    && (w.caller.remoteReady == (w.calling.FlushingCaller? || w.calling.Connected?))
    && (w.caller.peerAnswered ==> w.accepting.Answered? && w.caller.outbox == [])
    && (!w.calling.FlushingCaller? ==> w.caller.flushed == 0)
    && (w.calling.Connected? ==> w.caller.inbox == [])
    && (w.callee.inCall == w.callee.peerAnswered == !(w.accepting.NotRinging? || w.accepting.Ringing?))
    && (w.callee.hasConnection ==> w.callee.peerAnswered)
    && (w.callee.remoteReady == (w.accepting.FlushingCallee? || w.accepting.Ready? || w.accepting.Answered?))
    && (!w.accepting.NotRinging? ==> w.caller.inCall)
    // The caller sends no candidate before it has heard the answer, so the callee never buffers one.
    && (!w.caller.peerAnswered ==> w.toCallee == multiset{} && w.callee.added == multiset{})
    && w.callee.outbox == [] && w.callee.inbox == [] && w.callee.flushed == 0
    && (!w.caller.remoteReady ==> w.caller.added == multiset{})
    && (w.toCaller != multiset{} || w.caller.inbox != [] ==> w.caller.inCall)
  }

  lemma StepKeepsStages(w: Call, step: Step)
    requires StagesOk(w) && Enabled(w, step)
    ensures StagesOk(Next(w, step))
  {}

  /** Making a candidate puts it in the outgoing buffer or on the way. */
  lemma GeneratedConserves(s: Side, c: Candidate)
    ensures var (s', sent) := Generated(s, c);
      && multiset(s'.outbox) + multiset(sent) == multiset(s.outbox) + multiset{c}
      && s'.inbox == s.inbox && s'.flushed == s.flushed && s'.added == s.added
  {}

  /** Flushing one candidate moves it from the buffer to the connection. */
  lemma FlushConserves(s: Side)
    requires s.flushed < |s.inbox|
    ensures Heard(FlushedOne(s)) == Heard(s)
  {
    assert s.inbox[s.flushed..] == [s.inbox[s.flushed]] + s.inbox[s.flushed + 1..];
  }

  /** A candidate heard during a call is buffered or handed over. */
  lemma HeardConserves(s: Side, c: Candidate)
    requires s.inCall && s.flushed == 0
    ensures HeardCandidate(s, c).flushed == 0 && HeardCandidate(s, c).outbox == s.outbox
    ensures Heard(HeardCandidate(s, c)) == Heard(s) + multiset{c}
  {
    assert s.inbox[0..] == s.inbox && (s.inbox + [c])[0..] == s.inbox + [c];
  }

  lemma MakeConserves(w: Call, step: Step)
    requires Conserved(w) && Enabled(w, step) && (step.CallerMakes? || step.CalleeMakes?)
    ensures Conserved(Next(w, step))
  {
    if step.CallerMakes? { GeneratedConserves(w.caller, step.c); } else { GeneratedConserves(w.callee, step.c); }
  }

  lemma Arrived(kept: multiset<Candidate>, net: multiset<Candidate>, heard: multiset<Candidate>, c: Candidate)
    requires c in net
    ensures kept + net + heard == kept + (net - multiset{c}) + (heard + multiset{c})
  {}

  lemma HearConserves(w: Call, step: Step)
    requires Conserved(w) && StagesOk(w) && Enabled(w, step) && (step.CallerHears? || step.CalleeHears?)
    ensures Conserved(Next(w, step))
  {
    if step.CallerHears? { CallerHearConserves(w, step.c); } else { CalleeHearConserves(w, step.c); }
  }

  lemma CallerHearConserves(w: Call, c: Candidate)
    requires Conserved(w) && StagesOk(w) && Enabled(w, CallerHears(c))
    ensures Conserved(Next(w, CallerHears(c)))
  {
    HeardConserves(w.caller, c);
    hide StagesOk, Heard, HeardCandidate;
    Arrived(multiset(w.callee.outbox), w.toCaller, Heard(w.caller), c);
  }

  lemma CalleeHearConserves(w: Call, c: Candidate)
    requires Conserved(w) && StagesOk(w) && Enabled(w, CalleeHears(c))
    ensures Conserved(Next(w, CalleeHears(c)))
  {
    HeardConserves(w.callee, c);
    hide StagesOk, Heard, HeardCandidate;
    Arrived(multiset(w.caller.outbox), w.toCallee, Heard(w.callee), c);
  }

  lemma FlushStepConserves(w: Call, step: Step)
    requires Conserved(w) && StagesOk(w) && Enabled(w, step)
    requires step.CallerFlush? || step.CallerFlushEnd? || step.CalleeFlush? || step.CalleeFlushEnd?
    ensures Conserved(Next(w, step))
  {
    match step {
      case CallerFlush => CallerFlushConserves(w);
      case CallerFlushEnd => CallerFlushEndConserves(w);
      case CalleeFlushEnd => CalleeFlushEndConserves(w);
      case CalleeFlush => CalleeNeverFlushes(w);
    }
  }

  lemma CallerFlushConserves(w: Call)
    requires Conserved(w) && Enabled(w, CallerFlush)
    ensures Conserved(Next(w, CallerFlush))
  {
    FlushConserves(w.caller);
    hide Heard;
  }

  lemma CallerFlushEndConserves(w: Call)
    requires Conserved(w) && Enabled(w, CallerFlushEnd)
    ensures Conserved(Next(w, CallerFlushEnd))
  {
    assert w.caller.inbox[w.caller.flushed..] == [] == FlushEnded(w.caller).inbox[0..];
  }

  lemma CalleeFlushEndConserves(w: Call)
    requires Conserved(w) && Enabled(w, CalleeFlushEnd)
    ensures Conserved(Next(w, CalleeFlushEnd))
  {
    assert w.callee.inbox[w.callee.flushed..] == [] == FlushEnded(w.callee).inbox[0..];
  }

  lemma CalleeNeverFlushes(w: Call)
    requires StagesOk(w)
    ensures !Enabled(w, CalleeFlush)
  {}

  lemma OtherStepConserves(w: Call, step: Step)
    requires Conserved(w) && StagesOk(w) && Enabled(w, step)
    requires !(step.CallerFlush? || step.CallerFlushEnd? || step.CalleeFlush? || step.CalleeFlushEnd?)
    requires !(step.CallerHears? || step.CalleeHears? || step.CallerMakes? || step.CalleeMakes?)
    ensures Conserved(Next(w, step))
  {}

  lemma StepConserves(w: Call, step: Step)
    requires Conserved(w) && StagesOk(w) && Enabled(w, step)
    ensures Conserved(Next(w, step))
  {
    hide Conserved, StagesOk, Next;
    match step
    case CallerMakes(_) => MakeConserves(w, step);
    case CalleeMakes(_) => MakeConserves(w, step);
    case CallerHears(_) => HearConserves(w, step);
    case CalleeHears(_) => HearConserves(w, step);
    case CallerFlush => FlushStepConserves(w, step);
    case CallerFlushEnd => FlushStepConserves(w, step);
    case CalleeFlush => FlushStepConserves(w, step);
    case CalleeFlushEnd => FlushStepConserves(w, step);
    case _ => OtherStepConserves(w, step);
  }

  lemma RunKeepsCandidates(steps: seq<Step>, w: Call)
    requires Run(SIGNALLING, NO_CALL, steps, w)
    ensures Conserved(w) && StagesOk(w)
  {
    var inv := (v: Call) => Conserved(v) && StagesOk(v);
    assert inv(NO_CALL);
    hide Conserved, StagesOk;
    forall v, step | inv(v) && SIGNALLING.enabled(v, step) ensures inv(SIGNALLING.next(v, step)) {
      StepConserves(v, step);
      StepKeepsStages(v, step);
    }
    RunKeeps(SIGNALLING, inv, NO_CALL, steps, w);
  }

  /** Over every run of a call: no candidate is lost or duplicated; none is handed over before the remote
      description is set; the callee's buffer is empty throughout, so in particular when `accept` flushes. */
  lemma CandidatesAreConserved(steps: seq<Step>, w: Call)
    requires Run(SIGNALLING, NO_CALL, steps, w)
    ensures Conserved(w)
    ensures !w.caller.remoteReady ==> w.caller.added == multiset{}
    ensures !w.callee.remoteReady ==> w.callee.added == multiset{}
    ensures w.callee.inbox == [] && w.callee.outbox == []
  {
    RunKeepsCandidates(steps, w);
  }

  /** Once the answer has been handled and the network is empty, each side has been given exactly the
      candidates the other produced. */
  lemma EveryCandidateArrives(steps: seq<Step>, w: Call)
    requires Run(SIGNALLING, NO_CALL, steps, w)
    requires w.calling.Connected? && w.toCaller == multiset{} && w.toCallee == multiset{}
    ensures w.callee.added == w.madeByCaller && w.caller.added == w.madeByCallee
  {
    RunKeepsCandidates(steps, w);
    assert w.caller.inbox[0..] == [] && w.callee.inbox[0..] == [];
  }
}
