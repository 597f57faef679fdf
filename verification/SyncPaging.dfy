/**
 * How far back one sync reads, and when that is far enough.
 *
 * A sync asks for pages from the newest backwards until a page is short, or holds a
 * message it already knows, or fifty pages have been read.
 */
module SyncPaging {
  import opened MessageServer

  const PAGE_LIMIT := 200
  const MAX_PAGES := 50

  predicate AnyKnown(rows: seq<Row>, known: set<string>) {
    exists i :: 0 <= i < |rows| && rows[i].id in known
  }

  /** Where the page below index `hi` begins. */
  function PageStart(hi: nat): nat { if hi <= PAGE_LIMIT then 0 else hi - PAGE_LIMIT }

  /** Index of the oldest row read, starting below index `hi` with `pages` requests left. */
  function FetchStart(view: seq<Row>, known: set<string>, hi: nat, pages: nat): (lo: nat)
    requires hi <= |view|
    ensures lo <= hi
    decreases pages
  {
    if pages == 0 then hi
    else
      var lo := PageStart(hi);
      if hi - lo < PAGE_LIMIT || AnyKnown(view[lo..hi], known) then lo
      else FetchStart(view, known, lo, pages - 1)
  }

  /** One turn of the loop. */
  lemma FetchStep(view: seq<Row>, known: set<string>, hi: nat, pages: nat, batch: seq<Row>, rows: seq<Row>)
    requires hi <= |view| && pages > 0 && batch == view[PageStart(hi)..hi] && rows == view[hi..]
    ensures batch + rows == view[PageStart(hi)..]
    ensures FetchStart(view, known, hi, pages)
      == if |batch| < PAGE_LIMIT || AnyKnown(batch, known) then PageStart(hi)
         else FetchStart(view, known, PageStart(hi), pages - 1)
  {}

  lemma FetchNone(view: seq<Row>, known: set<string>, hi: nat)
    requires hi <= |view|
    ensures FetchStart(view, known, hi, 0) == hi
  {}

  /** What one undisturbed sync reads. */
  function Fetched(view: seq<Row>, known: set<string>): seq<Row> {
    view[FetchStart(view, known, |view|, MAX_PAGES)..]
  }

  /** One past the newest known row. */
  ghost predicate NewestKnown(view: seq<Row>, known: set<string>, p: nat) {
    && p <= |view| && (p > 0 ==> view[p - 1].id in known)
    && forall i :: p <= i < |view| ==> view[i].id !in known
  }

  lemma {:induction false} NewestKnownExists(view: seq<Row>, known: set<string>) returns (p: nat)
    ensures NewestKnown(view, known, p)
  {
    if view == [] || view[|view| - 1].id in known {
      p := |view|;
    } else {
      var q := NewestKnownExists(view[..|view| - 1], known);
      p := q;
      assert forall i :: 0 <= i < |view| - 1 ==> view[i] == view[..|view| - 1][i];
    }
  }

  /** Where reading stops, in closed form: the page that holds the newest known row, or fifty pages. */
  function StopIndex(n: nat, p: nat, pages: nat): nat
    requires p <= n
  {
    var needed := (n - p) / PAGE_LIMIT + 1;
    var read := if needed <= pages then needed else pages;
    if n <= PAGE_LIMIT * read then 0 else n - PAGE_LIMIT * read
  }

  lemma {:induction false} FetchStopsAtNewestKnown(view: seq<Row>, known: set<string>, p: nat, hi: nat, pages: nat)
    requires NewestKnown(view, known, p) && p <= hi <= |view|
    ensures FetchStart(view, known, hi, pages) == StopIndex(hi, p, pages)
    decreases pages
  {
    if pages > 0 {
      var lo := PageStart(hi);
      if p > lo {
        assert view[lo..hi][p - 1 - lo] == view[p - 1];
      } else if hi - lo == PAGE_LIMIT {
        assert !AnyKnown(view[lo..hi], known);
        FetchStopsAtNewestKnown(view, known, p, lo, pages - 1);
        assert (hi - p) / PAGE_LIMIT == (lo - p) / PAGE_LIMIT + 1;
      }
    }
  }

  /** With nothing known, k requests read exactly the newest k pages. */
  lemma PagesReadAreTheNewest(view: seq<Row>, known: set<string>, pages: nat)
    requires NewestKnown(view, known, 0)
    ensures view[FetchStart(view, known, |view|, pages)..] == Newest(view, 200 * pages)
  {
    FetchStopsAtNewestKnown(view, known, 0, |view|, pages);
  }

  /** Only the ids of the conversation itself matter. */
  lemma {:induction false} FetchStartCongruence(view: seq<Row>, k1: set<string>, k2: set<string>, hi: nat, pages: nat)
    requires hi <= |view| && forall r <- view :: r.id in k1 <==> r.id in k2
    ensures FetchStart(view, k1, hi, pages) == FetchStart(view, k2, hi, pages)
    decreases pages
  {
    if pages > 0 {
      var lo := PageStart(hi);
      assert forall i :: 0 <= i < hi - lo ==> view[lo..hi][i] in view;
      FetchStartCongruence(view, k1, k2, lo, pages - 1);
    }
  }

  /** Every message of the conversation is stored or is the account's own. */
  ghost predicate Complete(view: seq<Row>, known: set<string>, userId: string) {
    forall i :: 0 <= i < |view| ==> view[i].sender == userId || view[i].id in known
  }

  function Ids(rows: seq<Row>): set<string> { set r <- rows :: r.id }

  /** Ids a sync stores from the rows it read: those of the other side. */
  function PeerIds(rows: seq<Row>, userId: string): set<string> { set r <- rows | r.sender != userId :: r.id }

  /**
   * A sync that succeeds leaves the conversation complete if and only if nothing is missing below the
   * page that holds the newest known row (or below the fiftieth page). Both sides speak of the state
   * before the sync.
   */
  lemma SyncCompleteIff(view: seq<Row>, known: set<string>, userId: string, p: nat)
    requires UniqueIds(view) && NewestKnown(view, known, p)
    ensures Complete(view, known + PeerIds(Fetched(view, known), userId), userId)
      <==> Complete(view[..StopIndex(|view|, p, MAX_PAGES)], known, userId)
  {
    hide Complete, PeerIds, StopIndex, UniqueIds;
    FetchStopsAtNewestKnown(view, known, p, |view|, MAX_PAGES);
    CompleteAfterReading(view, known, userId, StopIndex(|view|, p, MAX_PAGES));
  }

  /** Reading everything from index lo on leaves what is missing below lo. */
  lemma CompleteAfterReading(view: seq<Row>, known: set<string>, userId: string, lo: nat)
    requires UniqueIds(view) && lo <= |view|
    ensures Complete(view, known + PeerIds(view[lo..], userId), userId) <==> Complete(view[..lo], known, userId)
  {
    hide PeerIds, UniqueIds;
    assert view[lo..|view|] == view[lo..];
    forall i | 0 <= i < |view|
      ensures view[i].id in known + PeerIds(view[lo..], userId)
        <==> view[i].id in known || (lo <= i && view[i].sender != userId)
    {
      PeerIdAt(view, userId, lo, |view|, i);
    }
    assert forall i :: 0 <= i < lo ==> view[..lo][i] == view[i];
  }

  /** The peer ids of a stretch are those of its own rows. */
  lemma PeerIdAt(view: seq<Row>, userId: string, lo: nat, hi: nat, i: nat)
    requires UniqueIds(view) && lo <= hi <= |view| && i < |view|
    ensures view[i].id in PeerIds(view[lo..hi], userId) <==> lo <= i < hi && view[i].sender != userId
  {
    var part := view[lo..hi];
    if lo <= i < hi { assert part[i - lo] == view[i]; }
    if view[i].id in PeerIds(part, userId) {
      var r :| r in part && r.id == view[i].id && r.sender != userId;
      var k :| 0 <= k < |part| && part[k] == r;
      assert view[lo + k].id == view[i].id;
    }
  }

  /** Local knowledge without a gap: exactly the rows below `p` are known. */
  ghost predicate Prefix(view: seq<Row>, known: set<string>, p: nat) {
    p <= |view| && forall i :: 0 <= i < |view| ==> (view[i].id in known <==> i < p)
  }

  /** How a sync that ends after the row at `done` - 1 leaves the stored ids: `done` is where it stopped, or failed. */
  ghost predicate Synced(view: seq<Row>, before: set<string>, after: set<string>, userId: string, done: nat) {
    var lo := FetchStart(view, before, |view|, MAX_PAGES);
    lo <= done <= |view| && after == before + PeerIds(view[lo..done], userId)
  }

  /** No row of the account itself at or after index p. */
  ghost predicate PeersFrom(view: seq<Row>, userId: string, p: nat) {
    forall i :: p <= i < |view| ==> view[i].sender != userId
  }

  lemma PrefixReading(view: seq<Row>, known: set<string>, p: nat)
    requires Prefix(view, known, p)
    ensures NewestKnown(view, known, p)
    ensures FetchStart(view, known, |view|, MAX_PAGES) == StopIndex(|view|, p, MAX_PAGES)
    ensures FetchStart(view, known, |view|, MAX_PAGES) <= p <==> |view| - p <= MAX_PAGES * PAGE_LIMIT
  {
    FetchStopsAtNewestKnown(view, known, p, |view|, MAX_PAGES);
  }

  /** Without a gap, a sync that succeeds completes the conversation exactly when at most fifty pages are missing. */
  lemma PrefixSyncCompletes(view: seq<Row>, known: set<string>, after: set<string>, userId: string, p: nat)
    requires UniqueIds(view) && Prefix(view, known, p) && PeersFrom(view, userId, p)
    requires Synced(view, known, after, userId, |view|)
    ensures Complete(view, after, userId) <==> |view| - p <= 10000
  {
    hide PeerIds, StopIndex, UniqueIds, NewestKnown;
    PrefixReading(view, known, p);
    var lo := FetchStart(view, known, |view|, MAX_PAGES);
    assert view[lo..|view|] == view[lo..];
    CompleteAfterReading(view, known, userId, lo);
    if lo > p { assert view[..lo][p] == view[p]; }
  }

  /** However a sync ends, within fifty pages it leaves no gap: what is known is again a prefix. */
  lemma SyncLeavesPrefix(view: seq<Row>, known: set<string>, after: set<string>, userId: string, p: nat, done: nat)
    requires UniqueIds(view) && Prefix(view, known, p) && PeersFrom(view, userId, p)
    requires |view| - p <= MAX_PAGES * PAGE_LIMIT && Synced(view, known, after, userId, done)
    ensures Prefix(view, after, if done < p then p else done)
  {
    hide PeerIds, StopIndex, UniqueIds, NewestKnown;
    PrefixReading(view, known, p);
    forall i | 0 <= i < |view| ensures view[i].id in after <==> i < p || i < done {
      PeerIdAt(view, userId, FetchStart(view, known, |view|, MAX_PAGES), done, i);
    }
  }

  /** New messages of the other side arriving later keep knowledge without a gap. */
  lemma ArrivalsKeepPrefix(view: seq<Row>, newer: seq<Row>, known: set<string>, p: nat)
    requires Prefix(view, known, p) && forall r <- newer :: r.id !in known
    ensures Prefix(view + newer, known, p)
  {}

  /**
   * So a sync cut short anywhere is made good by the next one that succeeds, messages that arrived meanwhile
   * included. In between, other conversations may have been read.
   */
  lemma ResumedSyncCompletes(view: seq<Row>, newer: seq<Row>, known: set<string>, cut: set<string>, done: nat,
                             resumed: set<string>, after: set<string>, userId: string, p: nat)
    requires UniqueIds(view + newer) && Prefix(view, known, p) && PeersFrom(view + newer, userId, p)
    requires |view + newer| - p <= MAX_PAGES * PAGE_LIMIT
    requires Synced(view, known, cut, userId, done)
    requires forall r <- view :: r.id in cut <==> r.id in resumed
    requires forall r <- newer :: r.id !in resumed
    requires Synced(view + newer, resumed, after, userId, |view + newer|)
    ensures Complete(view + newer, after, userId)
  {
    hide PeerIds, Synced, Complete;
    var all := view + newer;
    assert UniqueIds(view) && PeersFrom(view, userId, p) by {
      assert forall i :: 0 <= i < |view| ==> all[i] == view[i];
    }
    SyncLeavesPrefix(view, known, cut, userId, p, done);
    var p' := if done < p then p else done;
    assert p' <= |view| by { SyncedBound(view, known, cut, userId, done); }
    assert Prefix(view, resumed, p') by { assert forall i :: 0 <= i < |view| ==> view[i] in view; }
    ArrivalsKeepPrefix(view, newer, resumed, p');
    PrefixSyncCompletes(all, resumed, after, userId, p');
  }

  lemma SyncedBound(view: seq<Row>, before: set<string>, after: set<string>, userId: string, done: nat)
    requires Synced(view, before, after, userId, done)
    ensures done <= |view|
  {}

  /** A sync that ends at or before row j leaves nothing from j on stored that was not stored before. */
  lemma NothingPastStop(view: seq<Row>, known: set<string>, after: set<string>, userId: string, done: nat, j: nat, i: nat)
    requires UniqueIds(view) && Synced(view, known, after, userId, done) && done <= j <= i < |view|
    ensures view[i].id in after ==> view[i].id in known
  {
    hide PeerIds, UniqueIds, FetchStart;
    PeerIdAt(view, userId, FetchStart(view, known, |view|, MAX_PAGES), done, i);
  }

  /** No sync ever reads more than a page below the newest row it knows, so an older gap stays. */
  lemma NeverLooksFurtherBack(view: seq<Row>, known: set<string>, p: nat)
    requires NewestKnown(view, known, p)
    ensures p <= FetchStart(view, known, |view|, MAX_PAGES) + 200
  {
    FetchStopsAtNewestKnown(view, known, p, |view|, MAX_PAGES);
  }

  /** The prefix condition is needed: after a message sent from this device over unread ones, a sync that succeeds
      completes the conversation exactly if fewer than a page were unread; otherwise the first is not read. */
  lemma OwnMessageHidesBacklog(userId: string, unread: seq<Row>, own: Row)
    requires UniqueIds(unread + [own]) && own.sender == userId && forall r <- unread :: r.sender != userId
    ensures var view := unread + [own];
      Complete(view, {own.id} + PeerIds(Fetched(view, {own.id}), userId), userId) <==> |unread| < 200
  {
    var view, n := unread + [own], |unread|;
    assert forall i :: 0 <= i < n ==> view[i] == unread[i];
    assert view[n] == own;
    assert NewestKnown(view, {own.id}, n + 1);
    hide PeerIds, UniqueIds, NewestKnown;
    SyncCompleteIff(view, {own.id}, userId, n + 1);
    if n >= PAGE_LIMIT { assert view[..StopIndex(n + 1, n + 1, MAX_PAGES)][0] == unread[0]; }
  }
}
