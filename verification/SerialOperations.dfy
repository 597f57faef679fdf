/**
 * The client's operations through the queue.
 *
 * Operations are submitted at any time, start when the queue lets them, act on the database
 * and the network only while they run, and end by returning or throwing. The other side and
 * delayed requests act at any time. What comes out is the operations one after the other, in
 * the order they were submitted, each undisturbed by the rest.
 */
module SerialOperations {
  import opened Basics
  import opened Runs
  import opened MessagingProtocol
  import opened MessagingSafety
  import opened SerialQueue

  /** A step of the protocol and the operation it belongs to, if it is not the network's. */
  datatype Entry = Entry(ticket: Option<nat>, step: MessagingProtocol.Step)

  datatype Client = Client(ops: seq<Status>, w: World, log: seq<Entry>)

  const START := Client([], EMPTY, [])

  datatype Move =
    | Submit
    | Start(ticket: nat)
    | Act(ticket: nat, step: MessagingProtocol.Step)
    | Finish(ticket: nat, threw: bool)
    | Arrival(step: MessagingProtocol.Step)

  /** A row reaches the server's table. */
  predicate Arrives(step: MessagingProtocol.Step) { step.Accept? || step.PeerPost? }

  ghost predicate Possible(a: Account, c: Client, move: Move) {
    match move
    case Submit => true
    case Start(t) => CanStart(c.ops, t)
    case Act(t, step) => t < |c.ops| && c.ops[t].Running? && !Arrives(step) && Enabled(a, c.w, step)
    case Finish(t, _) => t < |c.ops| && c.ops[t].Running?
    case Arrival(step) => Arrives(step) && Enabled(a, c.w, step)
  }

  ghost function After(a: Account, c: Client, move: Move): Client
    requires Possible(a, c, move)
  {
    match move
    case Submit => c.(ops := c.ops + [Waiting])
    case Start(t) => c.(ops := c.ops[t := Running])
    case Act(t, step) => c.(w := MessagingProtocol.Next(a, c.w, step), log := c.log + [Entry(Some(t), step)])
    case Finish(t, threw) => c.(ops := Ended(c.ops, t, threw))
    case Arrival(step) => c.(w := MessagingProtocol.Next(a, c.w, step), log := c.log + [Entry(None, step)])
  }

  ghost function Operations(a: Account): Machine<Client, Move> {
    Machine((c: Client, move: Move) => Possible(a, c, move),
            (c: Client, move: Move) => if Possible(a, c, move) then After(a, c, move) else c)
  }

  function Steps(log: seq<Entry>): seq<MessagingProtocol.Step> {
    seq(|log|, i requires 0 <= i < |log| => log[i].step)
  }

  /** No operation acts after a later one has. */
  ghost predicate InTurn(log: seq<Entry>) {
    forall i, j :: 0 <= i < j < |log| && log[i].ticket.Some? && log[j].ticket.Some? ==> log[i].ticket.value <= log[j].ticket.value
  }

  ghost predicate Begun(ops: seq<Status>, log: seq<Entry>) {
    forall i :: 0 <= i < |log| && log[i].ticket.Some? ==> log[i].ticket.value < |ops| && !ops[log[i].ticket.value].Waiting?
  }

  ghost predicate Serial(a: Account, c: Client) {
    InOrder(c.ops) && Begun(c.ops, c.log) && InTurn(c.log) && Reaches(a, EMPTY, Steps(c.log), c.w)
  }

  lemma QueueKeepsOrder(a: Account, c: Client, move: Move)
    requires InOrder(c.ops) && Possible(a, c, move)
    ensures InOrder(After(a, c, move).ops)
  {}

  /** What runs now was submitted after everything that has acted. */
  lemma ActsInTurn(ops: seq<Status>, log: seq<Entry>, t: nat, step: MessagingProtocol.Step)
    requires InOrder(ops) && Begun(ops, log) && InTurn(log) && t < |ops| && ops[t].Running?
    ensures InTurn(log + [Entry(Some(t), step)]) && Begun(ops, log + [Entry(Some(t), step)])
  {
    forall i | 0 <= i < |log| && log[i].ticket.Some? ensures log[i].ticket.value <= t {
      if log[i].ticket.value > t && !Settled(ops[t]) { assert false; }
    }
  }

  lemma StepsAppend(a: Account, c: Client, entry: Entry)
    requires Reaches(a, EMPTY, Steps(c.log), c.w) && Enabled(a, c.w, entry.step)
    ensures Reaches(a, EMPTY, Steps(c.log + [entry]), MessagingProtocol.Next(a, c.w, entry.step))
  {
    hide Enabled, MessagingProtocol.Next, Reaches;
    RunOne(a, c.w, entry.step);
    Chain(a, EMPTY, Steps(c.log), c.w, [entry.step], MessagingProtocol.Next(a, c.w, entry.step));
    assert Steps(c.log + [entry]) == Steps(c.log) + [entry.step];
  }

  lemma MoveKeepsSerial(a: Account, c: Client, move: Move)
    requires Serial(a, c) && Possible(a, c, move)
    ensures Serial(a, After(a, c, move))
  {
    hide Reaches, Enabled, MessagingProtocol.Next, Steps, InOrder;
    QueueKeepsOrder(a, c, move);
    match move
    case Act(t, step) =>
      ActsInTurn(c.ops, c.log, t, step);
      StepsAppend(a, c, Entry(Some(t), step));
    case Arrival(step) => StepsAppend(a, c, Entry(None, step));
    case _ =>
  }

  /** Every course of operations is a run of the protocol in which they act in the order they were submitted. */
  lemma OperationsAreSerial(a: Account, moves: seq<Move>, c: Client)
    requires Run(Operations(a), START, moves, c)
    ensures Serial(a, c)
  {
    hide Serial, Possible, After;
    var inv := (x: Client) => Serial(a, x);
    StartIsSerial(a);
    forall x, move | inv(x) && Operations(a).enabled(x, move) ensures inv(Operations(a).next(x, move)) {
      MoveKeepsSerial(a, x, move);
    }
    RunKeeps(Operations(a), inv, START, moves, c);
  }

  lemma StartIsSerial(a: Account)
    ensures Serial(a, START)
  {
    assert Steps([]) == [];
  }

  /** The entries up to the first of operation t or a later one. */
  function CutBefore(log: seq<Entry>, t: nat): (n: nat)
    ensures n <= |log|
    ensures forall i :: 0 <= i < n && log[i].ticket.Some? ==> log[i].ticket.value < t
    ensures n < |log| ==> log[n].ticket.Some? && log[n].ticket.value >= t
  {
    if log == [] || (log[0].ticket.Some? && log[0].ticket.value >= t) then 0
    else 1 + CutBefore(log[1..], t)
  }

  /** The steps of operation t are between these two places of the log, with nothing of any other operation. */
  ghost predicate BlockOf(log: seq<Entry>, from: nat, to: nat, t: nat) {
    from <= to <= |log| && forall i :: from <= i < to && log[i].ticket.Some? ==> log[i].ticket.value == t
  }

  /** Where in the log operation t begins. What arrives before the first is counted to it. */
  function Cut(c: Client, t: nat): (n: nat)
    requires t <= |c.ops|
    ensures n <= |c.log|
  {
    if t == 0 then 0 else if t == |c.ops| then |c.log| else CutBefore(c.log, t)
  }

  /** What comes after the cut is of this operation or a later one. */
  lemma AfterCut(log: seq<Entry>, t: nat, i: nat)
    requires InTurn(log) && CutBefore(log, t) <= i < |log| && log[i].ticket.Some?
    ensures log[i].ticket.value >= t
  {}

  lemma {:induction false} CutsGrow(log: seq<Entry>, t: nat)
    ensures CutBefore(log, t) <= CutBefore(log, t + 1)
  {
    if log != [] { CutsGrow(log[1..], t); }
  }

  lemma CutIsBlock(c: Client, t: nat)
    requires InTurn(c.log) && Begun(c.ops, c.log) && t < |c.ops|
    ensures BlockOf(c.log, Cut(c, t), Cut(c, t + 1), t)
  {
    CutsGrow(c.log, t);
    var from, to := Cut(c, t), Cut(c, t + 1);
    forall i | from <= i < to && c.log[i].ticket.Some? ensures c.log[i].ticket.value == t {
      if t > 0 { AfterCut(c.log, t, i); }
    }
  }

  /** The worlds before the first n operations, and where the rest of the log leads. */
  lemma {:induction false} WorldsBetween(a: Account, c: Client, n: nat) returns (worlds: seq<World>)
    requires InTurn(c.log) && Begun(c.ops, c.log) && Reaches(a, EMPTY, Steps(c.log), c.w) && n <= |c.ops|
    ensures |worlds| == n + 1 && worlds[0] == EMPTY && (n == |c.ops| > 0 ==> worlds[n] == c.w)
    ensures forall t :: 0 <= t < n ==> OneRuns(a, c, worlds[t], t, worlds[t + 1])
    ensures Reaches(a, worlds[n], Steps(c.log[Cut(c, n)..]), c.w)
  {
    hide Reaches, Steps, OneRuns, InTurn, Begun;
    if n == 0 {
      worlds := [EMPTY];
      assert c.log[0..] == c.log;
    } else {
      var before := WorldsBetween(a, c, n - 1);
      var next := RunsNext(a, c, before[n - 1], n - 1);
      worlds := before + [next];
    }
  }

  lemma RunsNext(a: Account, c: Client, w: World, t: nat) returns (w': World)
    requires InTurn(c.log) && Begun(c.ops, c.log) && t < |c.ops| && Reaches(a, w, Steps(c.log[Cut(c, t)..]), c.w)
    ensures OneRuns(a, c, w, t, w') && Reaches(a, w', Steps(c.log[Cut(c, t + 1)..]), c.w)
    ensures t + 1 == |c.ops| ==> w' == c.w
  {
    hide Reaches, Steps, CutBefore;
    CutIsBlock(c, t);
    w' := CutRun(a, w, c.log, Cut(c, t), Cut(c, t + 1), c.w);
  }

  /** Between its places in the log there is nothing of any other operation, and the steps there lead on. */
  ghost predicate OneRuns(a: Account, c: Client, w: World, t: nat, w': World)
    requires t < |c.ops|
  {
    BlockOf(c.log, Cut(c, t), Cut(c, t + 1), t) && Reaches(a, w, Steps(c.log[Cut(c, t)..Cut(c, t + 1)]), w')
  }

  /**
   * Whatever the interleaving, there is one world between each operation and the next: operation t leads from one to
   * the other by its own steps and what arrives meanwhile, as if it had been alone.
   */
  lemma OneAfterTheOther(a: Account, moves: seq<Move>, c: Client) returns (worlds: seq<World>)
    requires Run(Operations(a), START, moves, c) && c.ops != []
    ensures |worlds| == |c.ops| + 1 && worlds[0] == EMPTY && worlds[|c.ops|] == c.w
    ensures forall t :: 0 <= t < |c.ops| ==> OneRuns(a, c, worlds[t], t, worlds[t + 1])
  {
    hide Reaches, Possible, After, OneRuns;
    OperationsAreSerial(a, moves, c);
    worlds := WorldsBetween(a, c, |c.ops|);
  }

  lemma CutRun(a: Account, w: World, log: seq<Entry>, from: nat, to: nat, w': World) returns (mid: World)
    requires from <= to <= |log| && Reaches(a, w, Steps(log[from..]), w')
    ensures Reaches(a, w, Steps(log[from..to]), mid) && Reaches(a, mid, Steps(log[to..]), w')
    ensures to == |log| ==> mid == w'
  {
    hide *;
    StepsCut(log, from, to);
    mid := ReachesPrefix(a, w, Steps(log[from..]), w', to - from);
    if to == |log| { ReachesNothing(a, mid, Steps(log[to..]), w'); }
  }

  lemma StepsCut(log: seq<Entry>, from: nat, to: nat)
    requires from <= to <= |log|
    ensures |Steps(log[from..])| == |log| - from && |Steps(log[to..])| == |log| - to
    ensures Steps(log[from..])[..to - from] == Steps(log[from..to])
    ensures Steps(log[from..])[to - from..] == Steps(log[to..])
  {}

  lemma ReachesPrefix(a: Account, w: World, steps: seq<MessagingProtocol.Step>, w': World, n: nat) returns (mid: World)
    requires Reaches(a, w, steps, w') && n <= |steps|
    ensures Reaches(a, w, steps[..n], mid) && Reaches(a, mid, steps[n..], w')
  {
    mid := RunPrefix(Protocol(a), w, steps, w', n);
  }

  lemma ReachesNothing(a: Account, w: World, steps: seq<MessagingProtocol.Step>, w': World)
    requires Reaches(a, w, steps, w') && |steps| == 0
    ensures w == w'
  {}

}
