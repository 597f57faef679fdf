/**
 * One conversation over many syncs, each of which may succeed, fail or be cut off.
 *
 * In between, messages arrive and, where it is said so, this device sends. What a sync
 * does to the stored ids and to the ratchet state is what `SyncConversation` is proved to
 * do; here it is followed from sync to sync.
 */
module SyncHistory {
  import opened Basics
  import opened RatchetCodec
  import opened MessageServer
  import opened SyncPaging
  import opened MessageOpening

  /** One sync: the conversation it saw, the ids stored before and after, the row it got to, and the states around it. */
  datatype Attempt = Attempt(view: seq<Row>, before: set<string>, after: set<string>, done: nat,
                             from: Option<SessionState>, to: Option<SessionState>)

  /** The stretch up to `done` is stored, and its pending rows were opened one after the other. */
  ghost predicate Attempted(suite: Suite, userId: string, t: Attempt) {
    && UniqueIds(t.view) && Synced(t.view, t.before, t.after, userId, t.done)
    && Moves(suite, t.from, Pending(t.view[FetchStart(t.view, t.before, |t.view|, MAX_PAGES)..t.done], t.before, userId), t.to)
  }

  lemma AttemptedIsSynced(suite: Suite, userId: string, t: Attempt)
    requires Attempted(suite, userId, t)
    ensures UniqueIds(t.view) && Synced(t.view, t.before, t.after, userId, t.done)
  {}

  /** The next sync sees the same rows and perhaps newer ones; nothing of the other side is stored in between. */
  ghost predicate Followed(userId: string, t: Attempt, u: Attempt) {
    && t.view <= u.view
    && (forall r <- t.view :: r.id in t.after ==> r.id in u.before)
    && (forall i :: 0 <= i < |u.view| && u.view[i].sender != userId && u.view[i].id in u.before ==>
          i < |t.view| && u.view[i].id in t.after)
  }

  ghost predicate History(suite: Suite, userId: string, ts: seq<Attempt>) {
    && (forall k :: 0 <= k < |ts| ==> Attempted(suite, userId, ts[k]))
    && (forall k :: 0 < k < |ts| ==> Followed(userId, ts[k - 1], ts[k]))
  }

  /** Nothing but syncs steps the ratchet. */
  ghost predicate Undisturbed(ts: seq<Attempt>) { forall k :: 0 < k < |ts| ==> ts[k].from == ts[k - 1].to }

  lemma {:induction false} ViewsGrow(suite: Suite, userId: string, ts: seq<Attempt>, k: nat, l: nat)
    requires History(suite, userId, ts) && k <= l < |ts|
    ensures ts[k].view <= ts[l].view
  {
    hide Attempted;
    if k < l {
      ViewsGrow(suite, userId, ts, k, l - 1);
      assert Followed(userId, ts[l - 1], ts[l]);
    }
  }

  // ---- A row that does not open

  /** Of the rows a sync reads, the one at j is pending and does not open from any state the ones before it can leave,
      or one before it is so. */
  ghost predicate BlockedAt(suite: Suite, userId: string, view: seq<Row>, stored: set<string>, from: Option<SessionState>, j: nat) {
    var lo := FetchStart(view, stored, |view|, MAX_PAGES);
    lo <= j < |view| && Blocked(suite, from, Pending(view[lo..j + 1], stored, userId))
  }

  /** A sync does not get past such a row. */
  lemma AttemptStops(suite: Suite, userId: string, t: Attempt)
    requires Attempted(suite, userId, t)
    ensures forall j: nat :: BlockedAt(suite, userId, t.view, t.before, t.from, j) ==> t.done <= j < |t.view|
  {
    hide Moves, Pending, FetchStart, PeerIds, UniqueIds, Blocked;
    var lo := FetchStart(t.view, t.before, |t.view|, MAX_PAGES);
    forall j: nat | BlockedAt(suite, userId, t.view, t.before, t.from, j) ensures t.done <= j {
      if t.done > j {
        assert t.view[lo..t.done] == t.view[lo..j + 1] + t.view[j + 1..t.done];
        PendingConcat(t.view[lo..j + 1], t.view[j + 1..t.done], t.before, userId);
        BlockedFurther(suite, t.from, Pending(t.view[lo..j + 1], t.before, userId),
                       Pending(t.view[j + 1..t.done], t.before, userId));
        NotBlocked(suite, t.from, Pending(t.view[lo..t.done], t.before, userId), t.to);
      }
    }
  }

  /** Where a sync without a gap gets to: never past what is blocked, and its state has opened all it stored. */
  lemma OneAttempt(suite: Suite, userId: string, t: Attempt, start: Option<SessionState>, p: nat, q: nat, j: nat)
    returns (q': nat)
    requires Attempted(suite, userId, t) && p <= q <= j < |t.view|
    requires PeersFrom(t.view, userId, p) && |t.view| - q <= MAX_PAGES * PAGE_LIMIT
    requires Prefix(t.view, t.before, q) && Moves(suite, start, t.view[p..q], t.from)
    requires Blocked(suite, start, t.view[p..j + 1])
    ensures q <= q' <= j && Prefix(t.view, t.after, q') && Moves(suite, start, t.view[p..q'], t.to)
  {
    hide Prefix, PeersFrom, UniqueIds, FetchStart, Moves, Blocked, PeerIds, StopIndex, NewestKnown;
    PeersFromLater(t.view, userId, p, q);
    SyncLeavesPrefix(t.view, t.before, t.after, userId, q, t.done);
    q' := if t.done < q then q else t.done;
    OpenedSince(suite, userId, t, q);
    MovesConcat(suite, start, t.view[p..q], t.from, t.view[q..q'], t.to);
    assert t.view[p..q] + t.view[q..q'] == t.view[p..q'];
    if q' > j {
      assert t.view[p..q'] == t.view[p..j + 1] + t.view[j + 1..q'];
      BlockedFurther(suite, start, t.view[p..j + 1], t.view[j + 1..q']);
      NotBlocked(suite, start, t.view[p..q'], t.to);
    }
  }

  lemma NotBlocked(suite: Suite, from: Option<SessionState>, rows: seq<Row>, to: Option<SessionState>)
    requires Moves(suite, from, rows, to)
    ensures !Blocked(suite, from, rows)
  {}

  lemma PeersFromLater(view: seq<Row>, userId: string, p: nat, q: nat)
    requires PeersFrom(view, userId, p) && p <= q
    ensures PeersFrom(view, userId, q)
  {}

  /** Without a gap, what a sync opened are the rows from the first unknown one on. */
  lemma OpenedSince(suite: Suite, userId: string, t: Attempt, q: nat)
    requires Attempted(suite, userId, t) && PeersFrom(t.view, userId, q)
    requires Prefix(t.view, t.before, q) && |t.view| - q <= MAX_PAGES * PAGE_LIMIT
    ensures t.done <= |t.view| && Moves(suite, t.from, t.view[q..if t.done < q then q else t.done], t.to)
  {
    hide Moves, FetchStart, UniqueIds, StopIndex, NewestKnown, PeerIds;
    PrefixReading(t.view, t.before, q);
    hide PeersFrom, Prefix, Pending;
    PendingSince(t.view, t.before, userId, q, FetchStart(t.view, t.before, |t.view|, MAX_PAGES), t.done);
  }

  lemma PendingSince(view: seq<Row>, known: set<string>, userId: string, q: nat, lo: nat, done: nat)
    requires Prefix(view, known, q) && PeersFrom(view, userId, q) && lo <= q && lo <= done <= |view|
    ensures Pending(view[lo..done], known, userId) == view[q..if done < q then q else done]
  {
    hide Pending;
    if done <= q {
      KnownBelow(view, known, userId, q, lo, done);
    } else {
      hide Prefix, PeersFrom;
      assert view[lo..done] == view[lo..q] + view[q..done];
      PendingConcat(view[lo..q], view[q..done], known, userId);
      KnownBelow(view, known, userId, q, lo, q);
      UnknownFrom(view, known, userId, q, done);
    }
  }

  lemma KnownBelow(view: seq<Row>, known: set<string>, userId: string, q: nat, lo: nat, hi: nat)
    requires Prefix(view, known, q) && lo <= hi <= q
    ensures Pending(view[lo..hi], known, userId) == []
  {
    hide Pending;
    NonePending(view[lo..hi], known, userId);
  }

  lemma UnknownFrom(view: seq<Row>, known: set<string>, userId: string, q: nat, hi: nat)
    requires Prefix(view, known, q) && PeersFrom(view, userId, q) && q <= hi <= |view|
    ensures Pending(view[q..hi], known, userId) == view[q..hi]
  {
    hide Pending;
    AllPending(view[q..hi], known, userId);
  }

  /** Between two syncs, knowledge without a gap stays so. */
  lemma PrefixFollows(userId: string, t: Attempt, u: Attempt, p: nat, q: nat)
    requires Followed(userId, t, u) && Prefix(t.view, t.after, q) && p <= q && PeersFrom(u.view, userId, p)
    ensures Prefix(u.view, u.before, q)
  {
    forall i | 0 <= i < |u.view| ensures u.view[i].id in u.before <==> i < q {
      if i < q { assert t.view[i] in t.view; }
    }
  }

  /** Each of the syncs leaves a prefix below row j, and the state that opening it leads to. */
  lemma {:induction false} HeldBelow(suite: Suite, userId: string, ts: seq<Attempt>, p: nat, j: nat, k: nat)
    returns (q: nat)
    requires History(suite, userId, ts) && Undisturbed(ts) && k < |ts|
    requires p <= j < |ts[0].view| && Prefix(ts[0].view, ts[0].before, p)
    requires PeersFrom(ts[k].view, userId, p) && |ts[k].view| - p <= MAX_PAGES * PAGE_LIMIT
    requires Blocked(suite, ts[0].from, ts[0].view[p..j + 1])
    ensures p <= q <= j < |ts[k].view| && Prefix(ts[k].view, ts[k].after, q)
    ensures Moves(suite, ts[0].from, ts[k].view[p..q], ts[k].to)
    decreases k
  {
    hide Attempted, Prefix, Moves, Blocked;
    ViewsGrow(suite, userId, ts, 0, k);
    assert ts[0].view[p..j + 1] == ts[k].view[p..j + 1];
    var r := p;
    if k == 0 {
      MoveNone(suite, ts[0].from);
      assert ts[0].view[p..p] == [];
    } else {
      assert Followed(userId, ts[k - 1], ts[k]);
      r := HeldBelow(suite, userId, ts, p, j, k - 1);
      PrefixFollows(userId, ts[k - 1], ts[k], p, r);
      assert ts[k - 1].view[p..r] == ts[k].view[p..r];
    }
    q := OneAttempt(suite, userId, ts[k], ts[0].from, p, r, j);
  }

  /**
   * A row that does not open from any state its predecessors leave stops its conversation for good: however often it
   * is synced, whatever arrives meanwhile, no row from it on is ever stored. (Without a gap and within fifty pages.)
   */
  lemma BlockedForGood(suite: Suite, userId: string, ts: seq<Attempt>, p: nat, j: nat, k: nat, i: nat)
    requires History(suite, userId, ts) && Undisturbed(ts) && k < |ts|
    requires p <= j < |ts[0].view| && Prefix(ts[0].view, ts[0].before, p)
    requires PeersFrom(ts[k].view, userId, p) && |ts[k].view| - p <= MAX_PAGES * PAGE_LIMIT
    requires Blocked(suite, ts[0].from, ts[0].view[p..j + 1])
    requires j <= i < |ts[k].view|
    ensures ts[k].view[i].id !in ts[k].after
  {
    hide History, Undisturbed, Moves, Blocked, PeersFrom;
    var q := HeldBelow(suite, userId, ts, p, j, k);
  }

  // ---- A row that is not read

  lemma SyncOnlyAdds(suite: Suite, userId: string, t: Attempt, i: nat)
    requires Attempted(suite, userId, t) && i < |t.view|
    ensures t.before <= t.after
    ensures t.view[i].id in t.after ==>
      t.view[i].id in t.before || (FetchStart(t.view, t.before, |t.view|, MAX_PAGES) <= i && t.view[i].sender != userId)
  {
    hide FetchStart, PeerIds, UniqueIds, Moves;
    PeerIdAt(t.view, userId, FetchStart(t.view, t.before, |t.view|, MAX_PAGES), t.done, i);
  }

  /** The newest known row is known from then on. */
  lemma {:induction false} StaysKnown(suite: Suite, userId: string, ts: seq<Attempt>, i: nat, k: nat)
    requires History(suite, userId, ts) && k < |ts| && i < |ts[0].view| && ts[0].view[i].id in ts[0].before
    ensures i < |ts[k].view| && ts[k].view[i] == ts[0].view[i] && ts[k].view[i].id in ts[k].before
    decreases k
  {
    hide Attempted;
    if k > 0 {
      StaysKnown(suite, userId, ts, i, k - 1);
      SyncOnlyAdds(suite, userId, ts[k - 1], i);
      assert Followed(userId, ts[k - 1], ts[k]);
      assert ts[k - 1].view[i] in ts[k - 1].view;
    }
  }

  /** Reading never starts more than a page below a known row. */
  lemma ReadsFrom(suite: Suite, userId: string, ts: seq<Attempt>, p: nat, k: nat)
    requires History(suite, userId, ts) && k < |ts| && p <= |ts[0].view| && (p > 0 ==> ts[0].view[p - 1].id in ts[0].before)
    ensures p <= FetchStart(ts[k].view, ts[k].before, |ts[k].view|, MAX_PAGES) + PAGE_LIMIT
  {
    hide History, FetchStart;
    var newest := NewestKnownExists(ts[k].view, ts[k].before);
    if p > 0 { StaysKnown(suite, userId, ts, p - 1, k); }
    NeverLooksFurtherBack(ts[k].view, ts[k].before, newest);
  }

  /**
   * A message of the other side that is missing more than a page below a known row is never stored, however often
   * the conversation is synced, whatever arrives and whatever is sent meanwhile.
   */
  lemma {:induction false} HiddenForGood(suite: Suite, userId: string, ts: seq<Attempt>, p: nat, i: nat, k: nat)
    requires History(suite, userId, ts) && k < |ts| && p <= |ts[0].view| && (p > 0 ==> ts[0].view[p - 1].id in ts[0].before)
    requires i + PAGE_LIMIT < p && ts[0].view[i].sender != userId && ts[0].view[i].id !in ts[0].before
    ensures i < |ts[k].view| && ts[k].view[i] == ts[0].view[i] && ts[k].view[i].id !in ts[k].after
    decreases k
  {
    hide Attempted, FetchStart;
    if k > 0 {
      HiddenForGood(suite, userId, ts, p, i, k - 1);
      assert Followed(userId, ts[k - 1], ts[k]);
    }
    ReadsFrom(suite, userId, ts, p, k);
    SyncOnlyAdds(suite, userId, ts[k], i);
  }
}
