/**
 * The swarm relay's chunk store and its byte counter.
 *
 * An upload first checks the counter and later, in another critical section, stores its
 * chunk; other handlers may run in between. Times are seconds of a monotonic clock.
 */
module SwarmRelay {
  import opened Primitives
  import opened Runs

  datatype Chunk = Chunk(data: Bytes, uploadedAt: nat, ttl: nat, downloadCount: nat, maxDownloads: nat)
  {
    predicate Expired(now: nat) { now > uploadedAt + ttl || downloadCount >= maxDownloads }
  }

  /** A decoded upload request; ttl and maxDownloads have their defaults filled in. */
  datatype Request = Request(id: string, data: Bytes, ttl: nat, maxDownloads: nat)

  datatype Store = Store(chunks: map<string, Chunk>, curBytes: nat)

  datatype Response = Served(data: Bytes, downloads: nat) | Gone | NotFound

  function SaturatingSub(a: nat, b: nat): nat { if a >= b then a - b else 0 }

  // ---- What the handlers do ----

  function Stored(s: Store, req: Request, now: nat): Store {
    Store(s.chunks[req.id := Chunk(req.data, now, req.ttl, 0, req.maxDownloads)],
          if req.id in s.chunks then s.curBytes else s.curBytes + |req.data|)
  }

  function Fetched(s: Store, id: string, now: nat): (Store, Response) {
    if id !in s.chunks then (s, NotFound)
    else
      var c := s.chunks[id];
      if c.Expired(now) then (Store(s.chunks - {id}, SaturatingSub(s.curBytes, |c.data|)), Gone)
      else (s.(chunks := s.chunks[id := c.(downloadCount := c.downloadCount + 1)]), Served(c.data, c.downloadCount + 1))
  }

  function Dead(chunks: map<string, Chunk>, now: nat): set<string> {
    set id | id in chunks && chunks[id].Expired(now)
  }

  function Picked(chunks: map<string, Chunk>, ids: set<string>): map<string, Chunk> {
    map id | id in ids && id in chunks :: chunks[id]
  }

  ghost function Collected(s: Store, now: nat): Store {
    var dead := Dead(s.chunks, now);
    Store(s.chunks - dead, SaturatingSub(s.curBytes, Total(Picked(s.chunks, dead))))
  }

  class Relay {
    var chunks: map<string, Chunk>
    var curBytes: nat
    const maxBytes: nat

    constructor (maxBytes: nat)
      ensures this.maxBytes == maxBytes && State() == Store(map[], 0)
    {
      this.maxBytes := maxBytes;
      chunks, curBytes := map[], 0;
    }

    function State(): Store reads this { Store(chunks, curBytes) }

    /** upload_handler with nothing running between its check and its commit. */
    method Upload(req: Request, now: nat) returns (stored: bool)
      modifies this`chunks, this`curBytes
      ensures stored <==> old(curBytes) + |req.data| <= maxBytes
      ensures State() == if stored then Stored(old(State()), req, now) else old(State())
      ensures stored ==> req.id in chunks && chunks[req.id].data == req.data && chunks[req.id].downloadCount == 0
      ensures stored ==> chunks[req.id].uploadedAt == now && chunks[req.id].ttl == req.ttl
      ensures stored ==> chunks[req.id].maxDownloads == req.maxDownloads
      ensures forall id :: id != req.id ==> (id in chunks <==> id in old(chunks)) && (id in chunks ==> chunks[id] == old(chunks)[id])
    {
      if curBytes + |req.data| > maxBytes { return false; }
      if req.id !in chunks { curBytes := curBytes + |req.data|; }
      chunks := chunks[req.id := Chunk(req.data, now, req.ttl, 0, req.maxDownloads)];
      return true;
    }

    /** chunk_handler. */
    method Fetch(id: string, now: nat) returns (r: Response)
      modifies this`chunks, this`curBytes
      ensures (State(), r) == Fetched(old(State()), id, now)
      ensures r == NotFound <==> id !in old(chunks)
      ensures r.Served? <==> id in old(chunks) && now - old(chunks)[id].uploadedAt <= old(chunks)[id].ttl
                             && old(chunks)[id].downloadCount < old(chunks)[id].maxDownloads
      ensures r.Served? ==> r.data == old(chunks)[id].data && r.downloads == old(chunks)[id].downloadCount + 1
      ensures r == Gone ==> chunks == old(chunks) - {id}
    {
      if id !in chunks { return NotFound; }
      var c := chunks[id];
      if c.Expired(now) {
        chunks := chunks - {id};
        curBytes := SaturatingSub(curBytes, |c.data|);
        return Gone;
      }
      c := c.(downloadCount := c.downloadCount + 1);
      chunks := chunks[id := c];
      return Served(c.data, c.downloadCount);
    }

    /** gc_handler: the expired chunks go, in whatever order the map is walked. */
    method Collect(now: nat) returns (removed: nat)
      modifies this`chunks, this`curBytes
      ensures State() == Collected(old(State()), now)
      ensures removed == |Dead(old(chunks), now)|
      ensures chunks == map id | id in old(chunks) && now - old(chunks)[id].uploadedAt <= old(chunks)[id].ttl
                                 && old(chunks)[id].downloadCount < old(chunks)[id].maxDownloads :: old(chunks)[id]
    {
      hide Total, Dead, SaturatingSub, Picked;
      removed := 0;
      ghost var before := chunks;
      DeadAreStored(before, now);
      NothingCollected(before, Dead(before, now), curBytes);
      var dead := Dead(chunks, now);
      var todo := dead;
      ghost var gone: map<string, Chunk> := map[];
      while todo != {}
        invariant todo <= dead && dead <= before.Keys
        invariant chunks == before - (dead - todo)
        invariant gone == Picked(before, dead - todo)
        invariant curBytes == SaturatingSub(old(curBytes), Total(gone))
        invariant removed == |dead| - |todo|
      {
        var id :| id in todo;
        var c := chunks[id];
        SubtractTwice(old(curBytes), Total(gone), |c.data|);
        curBytes := SaturatingSub(curBytes, |c.data|);
        chunks := chunks - {id};
        removed := removed + 1;
        OneCollected(before, dead, todo, id);
        TotalInsert(gone, id, c);
        gone := gone[id := c];
        todo := todo - {id};
      }
      assert dead - todo == dead;
      AliveRemain(before, now);
    }
  }

  lemma AliveRemain(chunks: map<string, Chunk>, now: nat)
    ensures chunks - Dead(chunks, now)
      == map id | id in chunks && now - chunks[id].uploadedAt <= chunks[id].ttl && chunks[id].downloadCount < chunks[id].maxDownloads :: chunks[id]
  {}

  lemma DeadAreStored(chunks: map<string, Chunk>, now: nat)
    ensures Dead(chunks, now) <= chunks.Keys
  {}

  lemma SubtractTwice(a: nat, b: nat, c: nat)
    ensures SaturatingSub(SaturatingSub(a, b), c) == SaturatingSub(a, b + c)
  {}

  lemma NothingCollected(before: map<string, Chunk>, dead: set<string>, bytes: nat)
    ensures before - (dead - dead) == before
    ensures Picked(before, dead - dead) == map[]
    ensures SaturatingSub(bytes, Total(map[])) == bytes
  {
    assert dead - dead == {};
  }

  /** One more dead chunk is taken out of the store and joins those already gone. */
  lemma OneCollected(before: map<string, Chunk>, dead: set<string>, todo: set<string>, id: string)
    requires todo <= dead <= before.Keys && id in todo
    ensures before - (dead - todo) - {id} == before - (dead - (todo - {id}))
    ensures Picked(before, dead - todo)[id := before[id]] == Picked(before, dead - (todo - {id}))
    ensures id !in Picked(before, dead - todo)
    ensures |todo - {id}| == |todo| - 1
  {
    assert dead - (todo - {id}) == (dead - todo) + {id};
  }

  // ---- The sum the counter stands for ----

  ghost function Total(chunks: map<string, Chunk>): nat {
    if chunks == map[] then 0
    else
      var id :| id in chunks;
      |chunks[id].data| + Total(chunks - {id})
  }

  lemma {:induction false} TotalSplit(chunks: map<string, Chunk>, id: string)
    requires id in chunks
    ensures Total(chunks) == |chunks[id].data| + Total(chunks - {id})
    decreases chunks
  {
    var k :| k in chunks && Total(chunks) == |chunks[k].data| + Total(chunks - {k});
    if k != id {
      TotalSplit(chunks - {k}, id);
      TotalSplit(chunks - {id}, k);
      assert chunks - {k} - {id} == chunks - {id} - {k};
    }
  }

  lemma TotalInsert(chunks: map<string, Chunk>, id: string, c: Chunk)
    ensures Total(chunks[id := c]) == Total(chunks - {id}) + |c.data|
    ensures id !in chunks ==> Total(chunks[id := c]) == Total(chunks) + |c.data|
  {
    var m := chunks[id := c];
    TotalSplit(m, id);
    assert m - {id} == chunks - {id};
    if id !in chunks { assert chunks - {id} == chunks; }
  }

  lemma {:induction false} TotalWithout(chunks: map<string, Chunk>, dead: set<string>)
    requires dead <= chunks.Keys
    ensures Total(chunks) == Total(chunks - dead) + Total(Picked(chunks, dead))
    decreases dead
  {
    var gone := Picked(chunks, dead);
    if dead == {} {
      assert chunks - dead == chunks && gone == map[];
    } else {
      var id :| id in dead;
      var rest := dead - {id};
      TotalWithout(chunks, rest);
      TotalSplit(chunks - rest, id);
      assert chunks - rest - {id} == chunks - dead;
      TotalSplit(gone, id);
      assert gone - {id} == Picked(chunks, rest);
    }
  }

  ghost predicate Exact(s: Store) { s.curBytes == Total(s.chunks) }

  predicate KeepsLength(s: Store, req: Request) {
    req.id in s.chunks ==> |s.chunks[req.id].data| == |req.data|
  }

  /** Storing keeps the counter exact precisely when a re-upload keeps the length. */
  lemma StoredExactIff(s: Store, req: Request, now: nat)
    requires Exact(s)
    ensures Exact(Stored(s, req, now)) <==> KeepsLength(s, req)
  {
    TotalInsert(s.chunks, req.id, Chunk(req.data, now, req.ttl, 0, req.maxDownloads));
    if req.id in s.chunks { TotalSplit(s.chunks, req.id); }
  }

  /** Removing always keeps it exact, and then the saturating subtraction never saturates. */
  lemma FetchedExact(s: Store, id: string, now: nat)
    requires Exact(s)
    ensures Exact(Fetched(s, id, now).0)
    ensures id in s.chunks ==> |s.chunks[id].data| <= s.curBytes
  {
    if id in s.chunks {
      TotalSplit(s.chunks, id);
      var c := s.chunks[id];
      TotalInsert(s.chunks, id, c.(downloadCount := c.downloadCount + 1));
    }
  }

  lemma CollectedExact(s: Store, now: nat)
    requires Exact(s)
    ensures Exact(Collected(s, now))
  {
    TotalWithout(s.chunks, Dead(s.chunks, now));
  }

  /** Without the length condition the counter can reach 0 while a chunk is stored. */
  lemma LongerReuploadLosesBytes(x: bv8)
    ensures var a, a', b := Request("a", [x], 9, 1), Request("a", [x, x, x, x, x], 9, 0), Request("b", [x, x, x], 9, 1);
      var s := Stored(Stored(Stored(Store(map[], 0), a, 0), b, 0), a', 0);
      var t := Fetched(s, "a", 1).0;
      t.curBytes == 0 && "b" in t.chunks && |t.chunks["b"].data| == 3 && !Exact(t)
  {
    var a, a', b := Request("a", [x], 9, 1), Request("a", [x, x, x, x, x], 9, 0), Request("b", [x, x, x], 9, 1);
    var s := Stored(Stored(Stored(Store(map[], 0), a, 0), b, 0), a', 0);
    var t := Fetched(s, "a", 1).0;
    assert "a" != "b" by { assert "a"[0] != "b"[0]; }
    TotalSplit(t.chunks, "b");
  }

  // ---- The relay under concurrent handlers ----

  /** An upload whose chunk has been built, and when; it waits for the locks. */
  datatype Built = Built(req: Request, at: nat)

  /**
   * The store, the uploads that passed the check and have not committed, and the history:
   * every committed upload and the time of its chunk, the latest one of each id, and how often each was served.
   */
  datatype World = World(store: Store, pending: seq<Built>, now: nat,
                         uploads: seq<Request>, times: seq<nat>, origin: map<string, nat>, served: multiset<nat>)

  datatype Step = Check(req: Request) | Commit(at: nat) | Fetch(id: string) | Collect | Tick

  const EMPTY := World(Store(map[], 0), [], 0, [], [], map[], multiset{})

  /** At most `handlers` uploads are under way at once, each of at most `size` bytes. */
  datatype Limits = Limits(maxBytes: nat, handlers: nat, size: nat)

  predicate Enabled(l: Limits, w: World, step: Step) {
    match step
    case Check(req) => |w.pending| < l.handlers && |req.data| <= l.size
    case Commit(at) => at < |w.pending|
    case _ => true
  }

  ghost function Next(l: Limits, w: World, step: Step): World {
    match step
    case Check(req) => if w.store.curBytes + |req.data| > l.maxBytes then w else w.(pending := w.pending + [Built(req, w.now)])
    case Commit(at) =>
      if at >= |w.pending| then w
      else
        var Built(req, built) := w.pending[at];
        w.(store := Stored(w.store, req, built), pending := w.pending[..at] + w.pending[at + 1..],
           uploads := w.uploads + [req], times := w.times + [built], origin := w.origin[req.id := |w.uploads|])
    case Fetch(id) =>
      var (store, response) := Fetched(w.store, id, w.now);
      w.(store := store, served := if response.Served? && id in w.origin then w.served + multiset{w.origin[id]} else w.served)
    case Collect => w.(store := Collected(w.store, w.now))
    case Tick => w.(now := w.now + 1)
  }

  ghost function Handlers(l: Limits): Machine<World, Step> {
    Machine((w, step) => Enabled(l, w, step), (w, step) => Next(l, w, step))
  }

  // ---- The counter stays exact ----

  predicate LengthKept(w: World, step: Step) {
    step.Commit? && step.at < |w.pending| ==> KeepsLength(w.store, w.pending[step.at].req)
  }

  /** The runs in which a re-upload of a stored id keeps its length. */
  ghost function LengthKeepingHandlers(l: Limits): Machine<World, Step> {
    Machine((w, step) => Enabled(l, w, step) && LengthKept(w, step), (w, step) => Next(l, w, step))
  }

  lemma CounterIsExact(l: Limits, steps: seq<Step>, w: World)
    requires Run(LengthKeepingHandlers(l), EMPTY, steps, w)
    ensures w.store.curBytes == Total(w.store.chunks)
  {
    var m := LengthKeepingHandlers(l);
    var inv := (v: World) => Exact(v.store);
    forall v, step | inv(v) && m.enabled(v, step) ensures inv(m.next(v, step)) {
      match step
      case Commit(at) => StoredExactIff(v.store, v.pending[at].req, v.pending[at].at);
      case Fetch(id) => FetchedExact(v.store, id, v.now);
      case Collect => CollectedExact(v.store, v.now);
      case _ =>
    }
    RunKeeps(m, inv, EMPTY, steps, w);
  }

  // ---- How far the counter can overshoot ----

  function Bytes(pending: seq<Built>): nat {
    if pending == [] then 0 else Bytes(pending[..|pending| - 1]) + |pending[|pending| - 1].req.data|
  }

  lemma {:induction false} BytesConcat(a: seq<Built>, b: seq<Built>)
    ensures Bytes(a + b) == Bytes(a) + Bytes(b)
  {
    if b == [] {
      assert a + b == a;
    } else {
      assert (a + b)[..|a + b| - 1] == a + b[..|b| - 1];
      BytesConcat(a, b[..|b| - 1]);
    }
  }

  lemma BytesWithout(pending: seq<Built>, at: nat)
    requires at < |pending|
    ensures Bytes(pending) == Bytes(pending[..at] + pending[at + 1..]) + |pending[at].req.data|
  {
    var one := [pending[at]];
    assert pending == pending[..at] + one + pending[at + 1..];
    BytesConcat(pending[..at], one);
    BytesConcat(pending[..at] + one, pending[at + 1..]);
    BytesConcat(pending[..at], pending[at + 1..]);
    assert one[..0] == [];
    assert Bytes(one) == |pending[at].req.data|;
  }

  lemma {:induction false} BytesBound(pending: seq<Built>, size: nat)
    requires forall r <- pending :: |r.req.data| <= size
    ensures Bytes(pending) <= |pending| * size
  {
    if pending != [] {
      BytesBound(pending[..|pending| - 1], size);
      assert |pending| * size == (|pending| - 1) * size + size;
    }
  }

  ghost predicate Bounded(l: Limits, w: World) {
    && |w.pending| <= l.handlers
    && (forall r <- w.pending :: |r.req.data| <= l.size)
    && w.store.curBytes + Bytes(w.pending) <= l.maxBytes + (if l.handlers > 0 then (l.handlers - 1) * l.size else 0)
  }

  lemma TimesMonotone(a: nat, b: nat, c: nat)
    requires a <= b
    ensures a * c <= b * c
  {}

  lemma CheckBounded(l: Limits, w: World, req: Request)
    requires Bounded(l, w) && Enabled(l, w, Check(req))
    ensures Bounded(l, Next(l, w, Check(req)))
  {
    if w.store.curBytes + |req.data| <= l.maxBytes {
      BytesConcat(w.pending, [Built(req, w.now)]);
      assert [Built(req, w.now)][..0] == [];
      BytesBound(w.pending, l.size);
      TimesMonotone(|w.pending|, l.handlers - 1, l.size);
    }
  }

  /** Checks and commits may interleave: the counter passes the limit by less than the other handlers' uploads. */
  lemma CounterOvershoot(l: Limits, steps: seq<Step>, w: World)
    requires Run(Handlers(l), EMPTY, steps, w)
    ensures w.store.curBytes <= l.maxBytes + (if l.handlers > 0 then (l.handlers - 1) * l.size else 0)
  {
    hide Bounded;
    var m := Handlers(l);
    var inv := (v: World) => Bounded(l, v);
    forall v, step | inv(v) && m.enabled(v, step) ensures inv(m.next(v, step)) {
      match step
      case Check(req) => CheckBounded(l, v, req);
      case Commit(at) => CommitBounded(l, v, at);
      case _ => LessStored(l, v, Next(l, v, step));
    }
    EmptyBounded(l);
    RunKeeps(m, inv, EMPTY, steps, w);
    BoundedCounter(l, w);
  }

  lemma CommitBounded(l: Limits, w: World, at: nat)
    requires Bounded(l, w) && at < |w.pending|
    ensures Bounded(l, Next(l, w, Commit(at)))
  {
    BytesWithout(w.pending, at);
  }

  lemma LessStored(l: Limits, w: World, w': World)
    requires Bounded(l, w) && w'.pending == w.pending && w'.store.curBytes <= w.store.curBytes
    ensures Bounded(l, w')
  {}

  lemma EmptyBounded(l: Limits) ensures Bounded(l, EMPTY) {}

  lemma BoundedCounter(l: Limits, w: World)
    requires Bounded(l, w)
    ensures w.store.curBytes <= l.maxBytes + (if l.handlers > 0 then (l.handlers - 1) * l.size else 0)
  {}

  // ---- Downloads ----

  /** A stored chunk is an upload as it was committed, and counts that upload's downloads. */
  ghost predicate Tracked(w: World, id: string)
    requires id in w.store.chunks
  {
    && id in w.origin && w.origin[id] < |w.uploads| == |w.times|
    && var n, c := w.origin[id], w.store.chunks[id];
      && w.uploads[n].id == id && c.data == w.uploads[n].data && c.maxDownloads == w.uploads[n].maxDownloads
      && c.uploadedAt == w.times[n] && c.ttl == w.uploads[n].ttl && c.downloadCount == w.served[n]
  }

  /** The upload may still be served: it is not older than its time to live, and has downloads left. */
  predicate Available(w: World, n: nat)
    requires n < |w.uploads| == |w.times|
  {
    w.now - w.times[n] <= w.uploads[n].ttl && w.served[n] < w.uploads[n].maxDownloads
  }

  ghost predicate Counted(w: World) {
    && |w.uploads| == |w.times|
    && (forall id <- w.store.chunks :: Tracked(w, id))
    && (forall id <- w.origin :: w.origin[id] < |w.uploads| && w.uploads[w.origin[id]].id == id)
    && (forall id <- w.origin :: id !in w.store.chunks ==> !Available(w, w.origin[id]))
    && (forall n: nat :: w.served[n] <= if n < |w.uploads| then w.uploads[n].maxDownloads else 0)
  }

  lemma CommitCounted(l: Limits, w: World, at: nat)
    requires Counted(w) && at < |w.pending|
    ensures Counted(Next(l, w, Commit(at)))
  {
    var w', req := Next(l, w, Commit(at)), w.pending[at].req;
    forall id | id in w'.store.chunks ensures Tracked(w', id) {
      if id != req.id { assert Tracked(w, id); }
    }
  }

  lemma FetchCounted(l: Limits, w: World, id: string)
    requires Counted(w)
    ensures Counted(Next(l, w, Fetch(id)))
  {
    var w' := Next(l, w, Fetch(id));
    if id in w.store.chunks { assert Tracked(w, id); }
    forall other | other in w'.store.chunks ensures Tracked(w', other) {
      assert Tracked(w, other);
    }
  }

  lemma CollectCounted(l: Limits, w: World)
    requires Counted(w)
    ensures Counted(Next(l, w, Collect))
  {
    var w' := Next(l, w, Collect);
    forall id | id in w'.store.chunks ensures Tracked(w', id) { assert Tracked(w, id); }
    forall id | id in w'.origin && id !in w'.store.chunks ensures !Available(w', w'.origin[id]) {
      if id in w.store.chunks { assert Tracked(w, id); }
    }
  }

  lemma RunCounted(l: Limits, steps: seq<Step>, w: World)
    requires Run(Handlers(l), EMPTY, steps, w)
    ensures Counted(w)
  {
    hide Counted;
    var m := Handlers(l);
    var inv := (v: World) => Counted(v);
    forall v, step | inv(v) && m.enabled(v, step) ensures inv(m.next(v, step)) {
      match step
      case Check(req) => PendingNotCounted(v, Next(l, v, step));
      case Commit(at) => CommitCounted(l, v, at);
      case Fetch(id) => FetchCounted(l, v, id);
      case Collect => CollectCounted(l, v);
      case Tick => PendingNotCounted(v, Next(l, v, step));
    }
    EmptyCounted();
    RunKeeps(m, inv, EMPTY, steps, w);
  }

  lemma EmptyCounted() ensures Counted(EMPTY) {}

  lemma PendingNotCounted(w: World, w': World)
    requires Counted(w) && w' == w.(pending := w'.pending, now := w'.now) && w.now <= w'.now
    ensures Counted(w')
  {
    forall id | id in w'.store.chunks ensures Tracked(w', id) { assert Tracked(w, id); }
  }

  /** Each upload is served at most as often as it allowed, and what an id serves is its latest upload. */
  lemma EachUploadServedAtMost(l: Limits, steps: seq<Step>, w: World, n: nat, id: string)
    requires Run(Handlers(l), EMPTY, steps, w) && n < |w.uploads|
    ensures w.served[n] <= w.uploads[n].maxDownloads
    ensures var r := Fetched(w.store, id, w.now).1;
      r.Served? ==>
        (&& id in w.origin && w.origin[id] < |w.uploads|
         && var upload := w.uploads[w.origin[id]];
           upload.id == id && r.data == upload.data && r.downloads == w.served[w.origin[id]] + 1)
  {
    RunCounted(l, steps, w);
    if id in w.store.chunks { assert Tracked(w, id); }
  }

  /** Over every run, an id is served if and only if its latest upload is not older than its time to live and has
      downloads left; and then with that upload's data. */
  lemma ServedIff(l: Limits, steps: seq<Step>, w: World, id: string)
    requires Run(Handlers(l), EMPTY, steps, w)
    ensures var r := Fetched(w.store, id, w.now).1;
      && (r.Served? <==>
            && id in w.origin && w.origin[id] < |w.uploads| == |w.times|
            && var n := w.origin[id];
              w.now - w.times[n] <= w.uploads[n].ttl && w.served[n] < w.uploads[n].maxDownloads)
      && (r.Served? ==> r.data == w.uploads[w.origin[id]].data)
      && (r == NotFound <==> id !in w.store.chunks)
  {
    RunCounted(l, steps, w);
    if id in w.store.chunks { assert Tracked(w, id); }
  }
}
