/**
 * `_serial`: operations run one after the other, in the order they were submitted.
 *
 * Each submission chains on the future that was the tail, and becomes the new tail
 * with its own result or exception swallowed.
 */
module SerialQueue {

  datatype Status = Waiting | Running | Returned | Threw

  predicate Settled(s: Status) { s.Returned? || s.Threw? }

  class Queue {
    /** One entry per submitted operation, in submission order; the tail is the last one's future. */
    var ops: seq<Status>

    /** Settled operations, then possibly one that runs, then the waiting ones. */
    ghost predicate Valid() reads this { InOrder(ops) }

    constructor ()
      ensures Valid() && ops == []
    {
      ops := [];
    }

    method Submit() returns (ticket: nat)
      requires Valid()
      modifies this
      ensures Valid() && ticket == |old(ops)| && ops == old(ops) + [Waiting]
    {
      ticket := |ops|;
      ops := ops + [Waiting];
    }

    /** The operation starts when the future it chained on has completed, either way. */
    method TryStart(ticket: nat) returns (started: bool)
      requires Valid() && ticket < |ops|
      modifies this
      ensures Valid()
      ensures started <==> old(ops)[ticket].Waiting? && forall i :: 0 <= i < ticket ==> Settled(old(ops)[i])
      ensures started <==> CanStart(old(ops), ticket)
      ensures ops == if started then old(ops)[ticket := Running] else old(ops)
    {
      started := ops[ticket].Waiting? && (ticket == 0 || Settled(ops[ticket - 1]));
      if started { ops := ops[ticket := Running]; }
    }

    method Finish(ticket: nat, threw: bool)
      requires Valid() && ticket < |ops| && ops[ticket].Running?
      modifies this
      ensures Valid() && ops == Ended(old(ops), ticket, threw)
      ensures ops == old(ops)[ticket := if threw then Threw else Returned]
    {
      ops := ops[ticket := if threw then Threw else Returned];
    }
  }

  /** The future the operation chained on has completed. */
  predicate CanStart(ops: seq<Status>, ticket: nat) {
    ticket < |ops| && ops[ticket].Waiting? && (ticket == 0 || Settled(ops[ticket - 1]))
  }

  function Ended(ops: seq<Status>, ticket: nat, threw: bool): seq<Status>
    requires ticket < |ops|
  {
    ops[ticket := if threw then Threw else Returned]
  }

  ghost predicate InOrder(ops: seq<Status>) {
    forall i, j :: 0 <= i < j < |ops| && !ops[j].Waiting? ==> Settled(ops[i])
  }

  /** Two operations never run at the same time. */
  lemma NeverTwoRunning(ops: seq<Status>, i: nat, j: nat)
    requires InOrder(ops) && i < |ops| && j < |ops| && ops[i].Running? && ops[j].Running?
    ensures i == j
  {}

  /** An operation that fails does not block the next: while anything is unsettled, the oldest unsettled
      operation runs or may start. */
  lemma {:induction false} OldestCanProceed(ops: seq<Status>) returns (i: nat)
    requires InOrder(ops) && exists k :: 0 <= k < |ops| && !Settled(ops[k])
    ensures i < |ops| && !Settled(ops[i]) && forall k :: 0 <= k < i ==> Settled(ops[k])
    ensures ops[i].Running? || CanStart(ops, i)
  {
    i := 0;
    while Settled(ops[i])
      invariant 0 <= i < |ops| && forall k :: 0 <= k < i ==> Settled(ops[k])
      decreases |ops| - i
    {
      i := i + 1;
    }
  }
}
