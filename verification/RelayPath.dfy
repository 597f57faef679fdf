/**
 * Choosing relays: sort by latency over reliability, take the first of each region.
 *
 * The server's choice and the client's choice share the greedy loop; the client then
 * fills up with whatever is left.
 */
module RelayPath {
  import opened Basics

  datatype Node = Node(id: string, region: string, latencyMs: int, reliability: real, isActive: bool)

  type Reliable = n: Node | n.reliability > 0.0 witness Node("", "", 0, 1.0, true)

  /** Latency at full reliability: what a node's latency is the product of with its reliability. */
  function Score(n: Reliable): (score: real)
    ensures score * n.reliability == n.latencyMs as real
  {
    n.latencyMs as real / n.reliability
  }

  function Total(path: seq<Reliable>): real {
    if path == [] then 0.0 else Total(path[..|path| - 1]) + Score(path[|path| - 1])
  }

  ghost predicate Sorted(nodes: seq<Reliable>) {
    forall i, j :: 0 <= i < j < |nodes| ==> Score(nodes[i]) <= Score(nodes[j])
  }

  predicate Shuffled(a: seq<Reliable>, b: seq<Reliable>) { multiset(a) == multiset(b) }

  function Regions(path: seq<Reliable>): set<string> { set n <- path :: n.region }

  ghost predicate DistinctRegions(path: seq<Reliable>) {
    forall i, j :: 0 <= i < j < |path| ==> path[i].region != path[j].region
  }

  /** Usable for a path that avoids `excluded`. */
  predicate Eligible(n: Reliable, excluded: Option<string>) { excluded.None? || n.region != excluded.value }

  /** A path of the kind the choice promises: listed nodes, region by region different, none excluded. */
  ghost predicate DiversePath(available: seq<Reliable>, excluded: Option<string>, path: seq<Reliable>) {
    DistinctRegions(path) && forall n <- path :: n in available && Eligible(n, excluded)
  }

  function EligibleRegions(available: seq<Reliable>, excluded: Option<string>): set<string> {
    set n <- available | Eligible(n, excluded) :: n.region
  }

  /** Every pick is the cheapest eligible node of the regions not used before it. */
  ghost predicate Greedy(available: seq<Reliable>, excluded: Option<string>, picked: seq<Reliable>) {
    && DiversePath(available, excluded, picked)
    && forall i, n | 0 <= i < |picked| && n in available && Eligible(n, excluded) && n.region !in Regions(picked[..i]) ::
         Score(picked[i]) <= Score(n)
  }

  /** The server treats an empty region name as none. */
  function Exclusion(excludeRegion: string): Option<string> {
    if excludeRegion == "" then None else Some(excludeRegion)
  }

  method SortByScore(nodes: seq<Reliable>) returns (sorted: seq<Reliable>)
    ensures Sorted(sorted) && Shuffled(sorted, nodes)
  {
    sorted := [];
    for i := 0 to |nodes|
      invariant Sorted(sorted) && Shuffled(sorted, nodes[..i])
    {
      sorted := InsertByScore(sorted, nodes[i]);
      assert nodes[..i + 1] == nodes[..i] + [nodes[i]];
    }
    assert nodes[..|nodes|] == nodes;
  }

  method InsertByScore(sorted: seq<Reliable>, node: Reliable) returns (longer: seq<Reliable>)
    requires Sorted(sorted)
    ensures Sorted(longer) && multiset(longer) == multiset(sorted) + multiset{node}
  {
    hide Score;
    var k := |sorted|;
    while k > 0 && Score(node) < Score(sorted[k - 1])
      invariant 0 <= k <= |sorted|
      invariant k < |sorted| ==> Score(node) < Score(sorted[k])
    {
      k := k - 1;
    }
    longer := sorted[..k] + [node] + sorted[k..];
    InsertionKeepsOrder(sorted, k, node);
    InsertionAddsOne(sorted, k, node);
  }

  lemma InsertionAddsOne<T>(s: seq<T>, k: nat, x: T)
    requires k <= |s|
    ensures multiset(s[..k] + [x] + s[k..]) == multiset(s) + multiset{x}
  {
    assert s == s[..k] + s[k..];
  }

  lemma InsertionKeepsOrder(sorted: seq<Reliable>, k: nat, node: Reliable)
    requires Sorted(sorted) && k <= |sorted|
    requires k > 0 ==> Score(sorted[k - 1]) <= Score(node)
    requires k < |sorted| ==> Score(node) <= Score(sorted[k])
    ensures Sorted(sorted[..k] + [node] + sorted[k..])
  {
    hide Score;
    var low, high := sorted[..k], sorted[k..];
    forall i | 0 <= i < |low| ensures Score(low[i]) <= Score(node) {
      assert i < k - 1 ==> Score(sorted[i]) <= Score(sorted[k - 1]);
    }
    forall i | 0 <= i < |high| ensures Score(node) <= Score(high[i]) {
      assert i > 0 ==> Score(sorted[k]) <= Score(sorted[k + i]);
    }
    SortedJoin(low, node, high);
  }

  lemma SortedJoin(low: seq<Reliable>, node: Reliable, high: seq<Reliable>)
    requires Sorted(low) && Sorted(high)
    requires forall i :: 0 <= i < |low| ==> Score(low[i]) <= Score(node)
    requires forall i :: 0 <= i < |high| ==> Score(node) <= Score(high[i])
    ensures Sorted(low + [node] + high)
  {
    hide Score;
    var all := low + [node] + high;
    forall i, j | 0 <= i < j < |all| ensures Score(all[i]) <= Score(all[j]) {
      if i < |low| && j > |low| { assert Score(low[i]) <= Score(node) <= Score(high[j - |low| - 1]); }
    }
  }

  method Shuffle(nodes: seq<Reliable>) returns (shuffled: seq<Reliable>)
    ensures Shuffled(shuffled, nodes)
  {
    assert multiset(nodes) == multiset(nodes);
    shuffled :| multiset(shuffled) == multiset(nodes);
  }

  /** A path the server may answer: active nodes, each of its own region, none of the excluded region if one is named. */
  ghost predicate MayAnswer(nodes: seq<Reliable>, excludeRegion: string, path: seq<Reliable>) {
    && (forall i, j :: 0 <= i < j < |path| ==> path[i].region != path[j].region)
    && forall n <- path :: n in nodes && n.isActive && (excludeRegion != "" ==> n.region != excludeRegion)
  }

  /** The server's choice: shuffle, sort, walk; stop at `hopCount` picks (never, below 1). As many nodes as asked for,
      if there are that many regions; and no path of that kind and length costs less, in total or pick by pick. */
  method GetOptimalPath(nodes: seq<Reliable>, hopCount: int, excludeRegion: string)
    returns (picked: seq<Reliable>)
    ensures excludeRegion != "" ==> forall n <- picked :: n.region != excludeRegion
    ensures MayAnswer(nodes, excludeRegion, picked)
    ensures var regions := |set n <- nodes | n.isActive && (excludeRegion == "" || n.region != excludeRegion) :: n.region|;
      |picked| == if 1 <= hopCount <= regions then hopCount else regions
    ensures forall path :: MayAnswer(nodes, excludeRegion, path) && |path| == |picked| ==> Total(picked) <= Total(path)
    ensures forall path, i :: MayAnswer(nodes, excludeRegion, path) && Sorted(path) && 0 <= i < |path| && i < |picked| ==>
      Score(picked[i]) <= Score(path[i])
  {
    hide Score, Total;
    var excluded := Exclusion(excludeRegion);
    var active := Active(nodes);
    var shuffled := Shuffle(active);
    var sorted := SortByScore(shuffled);
    assert multiset(sorted) == multiset(shuffled) == multiset(active);
    SameMembers(sorted, active);
    picked := Walk(sorted, hopCount, excluded);
    PickCount(active, excluded, picked, hopCount);
    AnswerIsOptimal(nodes, excludeRegion, picked);
  }

  /** What may be answered is what the walk looks for. */
  lemma MayAnswerIsDiverse(nodes: seq<Reliable>, excludeRegion: string, path: seq<Reliable>)
    ensures MayAnswer(nodes, excludeRegion, path) <==> DiversePath(Active(nodes), Exclusion(excludeRegion), path)
  {
    assert forall n <- path :: n in Active(nodes) <==> n in nodes && n.isActive;
  }

  lemma SameEligibleRegions(nodes: seq<Reliable>, excludeRegion: string)
    ensures EligibleRegions(Active(nodes), Exclusion(excludeRegion))
      == set n <- nodes | n.isActive && (excludeRegion == "" || n.region != excludeRegion) :: n.region
  {
    assert forall n :: n in Active(nodes) <==> n in nodes && n.isActive;
  }

  lemma AnswerIsOptimal(nodes: seq<Reliable>, excludeRegion: string, picked: seq<Reliable>)
    requires Greedy(Active(nodes), Exclusion(excludeRegion), picked)
    ensures MayAnswer(nodes, excludeRegion, picked)
    ensures EligibleRegions(Active(nodes), Exclusion(excludeRegion))
      == set n <- nodes | n.isActive && (excludeRegion == "" || n.region != excludeRegion) :: n.region
    ensures forall path :: MayAnswer(nodes, excludeRegion, path) && |path| == |picked| ==> Total(picked) <= Total(path)
    ensures forall path, i :: MayAnswer(nodes, excludeRegion, path) && Sorted(path) && 0 <= i < |path| && i < |picked| ==>
      Score(picked[i]) <= Score(path[i])
  {
    var active, excluded := Active(nodes), Exclusion(excludeRegion);
    assert DiversePath(active, excluded, picked);
    MayAnswerIsDiverse(nodes, excludeRegion, picked);
    SameEligibleRegions(nodes, excludeRegion);
    hide Score, Total, Greedy, Sorted, EligibleRegions;
    forall path | MayAnswer(nodes, excludeRegion, path) && |path| == |picked| ensures Total(picked) <= Total(path) {
      MayAnswerIsDiverse(nodes, excludeRegion, path);
      GreedyIsOptimal(active, excluded, picked, path);
    }
    forall path, i | MayAnswer(nodes, excludeRegion, path) && Sorted(path) && 0 <= i < |path| && i < |picked|
      ensures Score(picked[i]) <= Score(path[i])
    {
      MayAnswerIsDiverse(nodes, excludeRegion, path);
      PickwiseOptimal(active, excluded, picked, path, i);
    }
  }

  /** filter((n) => n.isActive) */
  function Active(nodes: seq<Reliable>): (active: seq<Reliable>)
    ensures forall n :: n in active <==> n in nodes && n.isActive
  {
    if nodes == [] then []
    else
      var n := nodes[|nodes| - 1];
      assert nodes == nodes[..|nodes| - 1] + [n];
      if n.isActive then Active(nodes[..|nodes| - 1]) + [n] else Active(nodes[..|nodes| - 1])
  }

  lemma {:induction false} ActiveNoRepeats(nodes: seq<Reliable>)
    requires NoRepeats(nodes)
    ensures NoRepeats(Active(nodes))
  {
    if nodes != [] { ActiveNoRepeats(nodes[..|nodes| - 1]); }
  }

  lemma SameMembers(a: seq<Reliable>, b: seq<Reliable>)
    requires Shuffled(a, b)
    ensures forall n :: n in a <==> n in b
  {
    forall n ensures n in a <==> n in b {
      assert n in a <==> n in multiset(a);
      assert n in b <==> n in multiset(b);
    }
  }

  /** The loop both choices share. */
  method Walk(sorted: seq<Reliable>, hopCount: int, excluded: Option<string>) returns (picked: seq<Reliable>)
    requires Sorted(sorted)
    ensures Greedy(sorted, excluded, picked)
    ensures (hopCount >= 1 && |picked| == hopCount) || EligibleRegions(sorted, excluded) <= Regions(picked)
    ensures hopCount >= 1 ==> |picked| <= hopCount
  {
    hide Greedy, Score, EligibleRegions;
    picked := [];
    GreedyNone(sorted, excluded);
    var usedRegions: set<string> := {};
    for i := 0 to |sorted|
      invariant Greedy(sorted, excluded, picked) && usedRegions == Regions(picked)
      invariant forall k :: 0 <= k < i && Eligible(sorted[k], excluded) ==> sorted[k].region in usedRegions
      invariant hopCount >= 1 ==> |picked| < hopCount
    {
      var node := sorted[i];
      if Eligible(node, excluded) && node.region !in usedRegions {
        PickIsGreedy(sorted, excluded, picked, i);
        picked := picked + [node];
        usedRegions := usedRegions + {node.region};
        if |picked| == hopCount { return; }
      }
    }
    AllRegionsUsed(sorted, excluded, usedRegions);
  }

  lemma GreedyNone(available: seq<Reliable>, excluded: Option<string>)
    ensures Greedy(available, excluded, [])
  {}

  lemma AllRegionsUsed(sorted: seq<Reliable>, excluded: Option<string>, used: set<string>)
    requires forall k :: 0 <= k < |sorted| && Eligible(sorted[k], excluded) ==> sorted[k].region in used
    ensures EligibleRegions(sorted, excluded) <= used
  {}

  lemma PickIsGreedy(sorted: seq<Reliable>, excluded: Option<string>, picked: seq<Reliable>, i: nat)
    requires Sorted(sorted) && Greedy(sorted, excluded, picked) && i < |sorted|
    requires Eligible(sorted[i], excluded) && sorted[i].region !in Regions(picked)
    requires forall k :: 0 <= k < i && Eligible(sorted[k], excluded) ==> sorted[k].region in Regions(picked)
    ensures Greedy(sorted, excluded, picked + [sorted[i]])
    ensures Regions(picked + [sorted[i]]) == Regions(picked) + {sorted[i].region}
  {
    var longer := picked + [sorted[i]];
    forall j | 0 <= j < |picked| ensures longer[j].region in Regions(picked) { assert picked[j] in picked; }
    forall j, n | 0 <= j < |longer| && n in sorted && Eligible(n, excluded) && n.region !in Regions(longer[..j])
      ensures Score(longer[j]) <= Score(n)
    {
      assert longer[..j] == picked[..j];
      if j == |picked| {
        assert picked[..j] == picked;
        var k :| 0 <= k < |sorted| && sorted[k] == n;
        assert k >= i;
      }
    }
  }

  // ---- Counting regions

  lemma RegionsAppend(path: seq<Reliable>, n: Reliable)
    ensures Regions(path + [n]) == Regions(path) + {n.region}
  {
    assert forall m :: m in path + [n] <==> m in path || m == n;
  }

  lemma NodeOfRegion(path: seq<Reliable>, r: string) returns (k: nat)
    requires r in Regions(path)
    ensures k < |path| && path[k].region == r
  {
    var n :| n in path && n.region == r;
    k :| 0 <= k < |path| && path[k] == n;
  }

  lemma {:induction false} RegionsCount(path: seq<Reliable>)
    requires DistinctRegions(path)
    ensures |Regions(path)| == |path|
  {
    if path != [] {
      var front, last := path[..|path| - 1], path[|path| - 1];
      RegionsCount(front);
      assert path == front + [last];
      RegionsAppend(front, last);
      if last.region in Regions(front) {
        var k := NodeOfRegion(front, last.region);
        assert false;
      }
    }
  }

  lemma SubsetCount<T>(a: set<T>, b: set<T>)
    requires a <= b
    ensures |a| <= |b| && (|a| == |b| ==> a == b)
  {
    assert b == a + (b - a);
  }

  /** No diverse path is longer than the number of eligible regions. */
  lemma DiversePathLength(available: seq<Reliable>, excluded: Option<string>, path: seq<Reliable>)
    requires DiversePath(available, excluded, path)
    ensures |path| <= |EligibleRegions(available, excluded)|
  {
    RegionsCount(path);
    SubsetCount(Regions(path), EligibleRegions(available, excluded));
  }

  lemma PickCount(available: seq<Reliable>, excluded: Option<string>, picked: seq<Reliable>, hopCount: int)
    requires DiversePath(available, excluded, picked)
    requires (hopCount >= 1 && |picked| == hopCount) || EligibleRegions(available, excluded) <= Regions(picked)
    requires hopCount >= 1 ==> |picked| <= hopCount
    ensures var regions := |EligibleRegions(available, excluded)|;
      |picked| == if 1 <= hopCount <= regions then hopCount else regions
  {
    RegionsCount(picked);
    DiversePathLength(available, excluded, picked);
    if EligibleRegions(available, excluded) <= Regions(picked) {
      SubsetCount(EligibleRegions(available, excluded), Regions(picked));
    }
  }

  // ---- Optimality

  /** A diverse path with more nodes than regions already used has a node in a new region. */
  lemma NewRegion(path: seq<Reliable>, used: set<string>) returns (k: nat)
    requires DistinctRegions(path) && |used| < |path|
    ensures k < |path| && path[k].region !in used
  {
    RegionsCount(path);
    if Regions(path) <= used {
      SubsetCount(Regions(path), used);
      assert false;
    }
    var r :| r in Regions(path) && r !in used;
    k := NodeOfRegion(path, r);
  }

  /** Exchange: against any diverse path, the last pick costs no more than one of that path's nodes. */
  lemma PickBeatsSome(available: seq<Reliable>, excluded: Option<string>, picked: seq<Reliable>, i: nat,
      path: seq<Reliable>)
    returns (k: nat)
    requires Greedy(available, excluded, picked) && i < |picked|
    requires DiversePath(available, excluded, path) && |path| > i
    ensures k < |path| && Score(picked[i]) <= Score(path[k])
  {
    assert DistinctRegions(picked[..i]);
    RegionsCount(picked[..i]);
    k := NewRegion(path, Regions(picked[..i]));
    assert path[k] in path;
  }

  /** The i-th pick costs at most the i-th cheapest node of any diverse path. */
  lemma PickwiseOptimal(available: seq<Reliable>, excluded: Option<string>, picked: seq<Reliable>,
      path: seq<Reliable>, i: nat)
    requires Greedy(available, excluded, picked) && i < |picked|
    requires DiversePath(available, excluded, path) && Sorted(path) && i < |path|
    ensures Score(picked[i]) <= Score(path[i])
  {
    hide Score, Greedy, DiversePath;
    var head := path[..i + 1];
    DiverseFront(available, excluded, path, i + 1);
    var k := PickBeatsSome(available, excluded, picked, i, head);
    assert head[k] == path[k];
    assert k < i ==> Score(path[k]) <= Score(path[i]);
  }

  lemma DiverseFront(available: seq<Reliable>, excluded: Option<string>, path: seq<Reliable>, n: nat)
    requires DiversePath(available, excluded, path) && n <= |path|
    ensures DiversePath(available, excluded, path[..n])
  {
    assert forall x <- path[..n] :: x in path;
  }

  lemma GreedyFront(available: seq<Reliable>, excluded: Option<string>, picked: seq<Reliable>, n: nat)
    requires Greedy(available, excluded, picked) && n <= |picked|
    ensures Greedy(available, excluded, picked[..n])
  {
    assert forall i :: 0 <= i <= n ==> picked[..n][..i] == picked[..i];
    assert forall x <- picked[..n] :: x in picked;
  }

  lemma DiverseWithout(available: seq<Reliable>, excluded: Option<string>, path: seq<Reliable>, k: nat)
    requires DiversePath(available, excluded, path) && k < |path|
    ensures DiversePath(available, excluded, path[..k] + path[k + 1..])
  {
    var rest := path[..k] + path[k + 1..];
    assert forall n <- rest :: n in path;
    forall i, j | 0 <= i < j < |rest| ensures rest[i].region != rest[j].region {
      var i', j' := if i < k then i else i + 1, if j < k then j else j + 1;
      assert rest[i] == path[i'] && rest[j] == path[j'];
    }
  }

  /** No diverse path of the same length, whatever its order, has a smaller total. */
  lemma {:induction false} GreedyIsOptimal(available: seq<Reliable>, excluded: Option<string>,
      picked: seq<Reliable>, path: seq<Reliable>)
    requires Greedy(available, excluded, picked)
    requires DiversePath(available, excluded, path) && |path| == |picked|
    ensures Total(picked) <= Total(path)
    decreases |path|
  {
    hide Greedy, DiversePath, Score;
    if path != [] {
      var last := |picked| - 1;
      var k := PickBeatsSome(available, excluded, picked, last, path);
      DiverseWithout(available, excluded, path, k);
      GreedyFront(available, excluded, picked, last);
      GreedyIsOptimal(available, excluded, picked[..last], path[..k] + path[k + 1..]);
      TotalWithout(path, k);
    }
  }

  lemma {:induction false} TotalWithout(path: seq<Reliable>, k: nat)
    requires k < |path|
    ensures Total(path) == Total(path[..k] + path[k + 1..]) + Score(path[k])
    decreases |path|
  {
    var last := |path| - 1;
    if k == last {
      assert path[..k] + path[k + 1..] == path[..last];
    } else {
      TotalWithout(path[..last], k);
      var rest := path[..k] + path[k + 1..];
      assert rest[..|rest| - 1] == path[..last][..k] + path[..last][k + 1..];
      assert rest[|rest| - 1] == path[last];
    }
  }

  // ---- The client's choice

  ghost predicate NoRepeats(nodes: seq<Reliable>) { forall i, j :: 0 <= i < j < |nodes| ==> nodes[i] != nodes[j] }

  /**
   * The client's choice: the same walk, then filled up with nodes not yet picked. It has as many nodes as
   * asked for, if there are that many; and it keeps the promise of different regions, none excluded,
   * exactly when there are enough eligible regions or nothing to fill up with.
   */
  method ClientPath(nodes: seq<Reliable>, hopCount: nat, excluded: Option<string>)
    returns (path: seq<Reliable>)
    requires NoRepeats(nodes)
    ensures |path| == if hopCount <= |Active(nodes)| then hopCount else |Active(nodes)|
    ensures NoRepeats(path) && forall n <- path :: n in Active(nodes)
    ensures var available := Active(nodes);
      var regions := |EligibleRegions(available, excluded)|;
      var k := if hopCount <= regions then hopCount else regions;
      && k <= |path| && Greedy(available, excluded, path[..k])
      && (DiversePath(available, excluded, path) <==> hopCount <= regions || |available| == regions)
      // What is filled up with is the cheapest of what is left.
      && forall i, n :: k <= i < |path| && n in available && n !in path[..i] ==> Score(path[i]) <= Score(n)
  {
    hide Score, Total, Active, Cheapest, Sorted;
    var active := Active(nodes);
    ActiveNoRepeats(nodes);
    var shuffled := Shuffle(active);
    var sorted := SortByScore(shuffled);
    assert multiset(sorted) == multiset(shuffled) == multiset(active);
    SameMembers(sorted, active);
    PermutationNoRepeats(sorted, active);
    var picked := Walk(sorted, hopCount, excluded);
    PickCount(active, excluded, picked, hopCount);
    GreedyNone(active, excluded);
    path := if hopCount == 0 then [] else picked;
    DiverseHasNoRepeats(path);
    ghost var k := |path|;
    NothingFilled(sorted, path);
    if |path| < hopCount { path := Fill(sorted, path, hopCount); }
    CheapestOf(sorted, active, path, k);
    ghost var regions := |EligibleRegions(active, excluded)|;
    DiversePathLength(active, excluded, picked);
    if DiversePath(active, excluded, path) { DiversePathLength(active, excluded, path); }
    assert k == if hopCount <= regions then hopCount else regions;
    assert path[..k] == if hopCount == 0 then [] else picked;
    SameLength(active, sorted);
    PickedFits(picked, active);
    assert |path| == |picked| ==> path == path[..k];
  }

  /** Two nodes of one region and two hops: the filled path is as long as asked for, and repeats the region. */
  method FillRepeatsRegion() returns (path: seq<Reliable>)
    ensures |path| == 2 && path[0].region == path[1].region
    ensures !DiversePath(path, None, path)
  {
    var a, b := Node("a", "r", 10, 0.9, true), Node("b", "r", 20, 0.9, true);
    assert a.id != b.id by { assert a.id[0] != b.id[0]; }
    var nodes: seq<Reliable> := [a, b];
    assert Active(nodes[..1]) == Active(nodes[..0]) + [a] by { assert nodes[..1][..0] == nodes[..0]; }
    assert Active(nodes) == [a, b] by { assert nodes[..1] == [a]; }
    hide Active, Score, Greedy, EligibleRegions;
    path := ClientPath(nodes, 2, None);
    assert path[0] in Active(nodes) && path[1] in Active(nodes);
  }

  method Fill(sorted: seq<Reliable>, picked: seq<Reliable>, hopCount: nat) returns (path: seq<Reliable>)
    requires NoRepeats(sorted) && NoRepeats(picked) && |picked| < hopCount && forall n <- picked :: n in sorted
    ensures picked <= path && NoRepeats(path) && forall n <- path :: n in sorted
    ensures |path| == if hopCount <= |sorted| then hopCount else |sorted|
    ensures Sorted(sorted) ==> Cheapest(sorted, path, |picked|)
  {
    hide Score, Sorted, Cheapest;
    path := picked;
    NothingFilled(sorted, picked);
    for i := 0 to |sorted|
      invariant picked <= path && NoRepeats(path) && |path| < hopCount
      invariant forall n <- path :: n in sorted
      invariant forall n <- sorted[..i] :: n in path
      invariant Sorted(sorted) ==> Cheapest(sorted, path, |picked|)
    {
      if sorted[i] !in path {
        if Sorted(sorted) { FilledWith(sorted, path, |picked|, i); }
        path := path + [sorted[i]];
        if |path| == hopCount { PickedFits(path, sorted); return; }
      }
    }
    assert sorted[..|sorted|] == sorted;
    PickedFits(path, sorted);
    PickedFits(sorted, path);
  }

  /** From index `from` on, each node is the cheapest of those not in the path before it. */
  ghost predicate Cheapest(nodes: seq<Reliable>, path: seq<Reliable>, from: nat) {
    forall i, n :: from <= i < |path| && n in nodes && n !in path[..i] ==> Score(path[i]) <= Score(n)
  }

  lemma NothingFilled(nodes: seq<Reliable>, path: seq<Reliable>)
    ensures Cheapest(nodes, path, |path|)
  {}

  lemma FilledWith(sorted: seq<Reliable>, path: seq<Reliable>, from: nat, i: nat)
    requires Sorted(sorted) && Cheapest(sorted, path, from) && i < |sorted| && forall n <- sorted[..i] :: n in path
    ensures Cheapest(sorted, path + [sorted[i]], from)
  {
    hide Score;
    var longer := path + [sorted[i]];
    forall k | 0 <= k < i ensures sorted[k] in path { assert sorted[k] in sorted[..i]; }
    forall j, n | from <= j < |longer| && n in sorted && n !in longer[..j] ensures Score(longer[j]) <= Score(n) {
      if j < |path| {
        assert longer[..j] == path[..j];
      } else {
        assert longer[..j] == path;
        var k :| 0 <= k < |sorted| && sorted[k] == n;
      }
    }
  }

  lemma CheapestOf(sorted: seq<Reliable>, active: seq<Reliable>, path: seq<Reliable>, from: nat)
    requires Cheapest(sorted, path, from) && forall n :: n in active ==> n in sorted
    ensures forall i, n :: from <= i < |path| && n in active && n !in path[..i] ==> Score(path[i]) <= Score(n)
  {}

  function Members(nodes: seq<Reliable>): set<Reliable> { set n <- nodes }

  lemma {:induction false} MembersCount(nodes: seq<Reliable>)
    requires NoRepeats(nodes)
    ensures |Members(nodes)| == |nodes|
  {
    if nodes != [] {
      var front, last := nodes[..|nodes| - 1], nodes[|nodes| - 1];
      MembersCount(front);
      assert Members(nodes) == Members(front) + {last} by { assert nodes == front + [last]; }
      assert last !in front;
    }
  }

  lemma PickedFits(picked: seq<Reliable>, nodes: seq<Reliable>)
    requires NoRepeats(picked) && NoRepeats(nodes) && forall n <- picked :: n in nodes
    ensures |picked| <= |nodes|
  {
    MembersCount(picked);
    MembersCount(nodes);
    SubsetCount(Members(picked), Members(nodes));
  }

  lemma SameLength<T>(a: seq<T>, b: seq<T>)
    requires multiset(a) == multiset(b)
    ensures |a| == |b|
  {
    assert |multiset(a)| == |a| && |multiset(b)| == |b|;
  }

  lemma DiverseHasNoRepeats(path: seq<Reliable>)
    requires DistinctRegions(path)
    ensures NoRepeats(path)
  {}

  lemma {:induction false} OnceEach(nodes: seq<Reliable>, n: Reliable)
    requires NoRepeats(nodes)
    ensures multiset(nodes)[n] <= 1
  {
    if nodes != [] {
      var front, last := nodes[..|nodes| - 1], nodes[|nodes| - 1];
      assert nodes == front + [last];
      OnceEach(front, n);
      assert last !in front;
    }
  }

  lemma PermutationNoRepeats(a: seq<Reliable>, b: seq<Reliable>)
    requires multiset(a) == multiset(b) && NoRepeats(b)
    ensures NoRepeats(a)
  {
    forall i, j | 0 <= i < j < |a| ensures a[i] != a[j] {
      OnceEach(b, a[j]);
      assert a == a[..j] + a[j..];
      assert a[i] in a[..j] && a[j] in a[j..];
    }
  }
}
