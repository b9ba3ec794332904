/** What label propagation guarantees: labels never leave a connected component, ids are dense
    and ranked by size, an early stop is a fixed point, and neither the order of the nodes nor the
    order or direction of the edges matters. */
module CommunityLaws {
  import opened Common
  import opened Sorting
  import opened Communities

  // ---- the majority rule ----

  lemma {:induction false} CountShows(ns: seq<int>, tags: Labels, l: int) returns (j: nat)
    requires Tagged(ns, tags)
    requires Count(ns, tags, l) > 0
    ensures j < |ns| && tags[ns[j]] == l
  {
    if tags[ns[|ns| - 1]] == l {
      j := |ns| - 1;
    } else {
      j := CountShows(ns[..|ns| - 1], tags, l);
    }
  }

  lemma {:induction false} ShownCounts(ns: seq<int>, tags: Labels, j: nat)
    requires Tagged(ns, tags) && j < |ns|
    ensures Count(ns, tags, tags[ns[j]]) > 0
  {
    if j < |ns| - 1 {
      ShownCounts(ns[..|ns| - 1], tags, j);
    }
  }

  /** `Best` is the smallest of the most frequent neighbour labels ... */
  lemma BestIsBest(ns: seq<int>, tags: Labels)
    requires Tagged(ns, tags) && ns != []
    ensures IsBest(ns, tags, Best(ns, tags))
  {
    var b := Best(ns, tags);
    var i :| 0 <= i < |ns| && tags[ns[i]] == b;
    ShownCounts(ns, tags, i);
    forall l
      ensures Count(ns, tags, l) <= Count(ns, tags, b) && (Count(ns, tags, l) == Count(ns, tags, b) ==> b <= l)
    {
      if Count(ns, tags, l) > 0 {
        var j := CountShows(ns, tags, l);
        assert !Beats(ns, tags, l, b);
      }
    }
  }

  /** ... and the only label that is. */
  lemma BestUnique(ns: seq<int>, tags: Labels, b: int)
    requires Tagged(ns, tags) && IsBest(ns, tags, b)
    ensures ns != [] && b == Best(ns, tags)
  {
    var j := CountShows(ns, tags, b);
    BestIsBest(ns, tags);
    var c := Best(ns, tags);
    assert Count(ns, tags, b) == Count(ns, tags, c);
  }

  // How often an edge with two different known ends joins `k` and `m`, either way round.
  function Joins(nodes: set<int>, edges: seq<(int, int)>, k: int, m: int): nat {
    if edges == [] then 0
    else
      var e := edges[|edges| - 1];
      Joins(nodes, edges[..|edges| - 1], k, m)
      + if k in nodes && m in nodes && k != m && (e == (k, m) || e == (m, k)) then 1 else 0
  }

  /** A node's neighbours are the nodes it is joined to, each as often; the graph is undirected. */
  lemma {:induction false} NeighboursExactly(nodes: set<int>, edges: seq<(int, int)>, k: int, m: int)
    ensures multiset(Neighbours(nodes, edges, k))[m] == Joins(nodes, edges, k, m) == Joins(nodes, edges, m, k)
  {
    if edges != [] {
      var before, now := Neighbours(nodes, edges[..|edges| - 1], k), Neighbours(nodes, edges, k);
      NeighboursExactly(nodes, edges[..|edges| - 1], k, m);
      assert now != before ==> now == before + [now[|now| - 1]];
    }
  }

  // ---- components ----

  ghost predicate Linked(nodes: set<int>, edges: seq<(int, int)>, a: int, b: int) {
    exists i | 0 <= i < |edges| :: Usable(nodes, edges[i]) && (edges[i] == (a, b) || edges[i] == (b, a))
  }

  ghost predicate Walk(nodes: set<int>, edges: seq<(int, int)>, a: int, b: int, n: nat)
    decreases n
  {
    if n == 0 then a == b else exists c :: Linked(nodes, edges, a, c) && Walk(nodes, edges, c, b, n - 1)
  }

  ghost predicate Connected(nodes: set<int>, edges: seq<(int, int)>, a: int, b: int) {
    exists n: nat :: Walk(nodes, edges, a, b, n)
  }

  lemma {:induction false} WalksJoin(nodes: set<int>, edges: seq<(int, int)>, a: int, b: int, c: int, m: nat, n: nat)
    requires Walk(nodes, edges, a, b, m) && Walk(nodes, edges, b, c, n)
    ensures Walk(nodes, edges, a, c, m + n)
    decreases m
  {
    if m > 0 {
      var x :| Linked(nodes, edges, a, x) && Walk(nodes, edges, x, b, m - 1);
      WalksJoin(nodes, edges, x, b, c, m - 1, n);
    }
  }

  lemma {:induction false} WalkBack(nodes: set<int>, edges: seq<(int, int)>, a: int, b: int, n: nat)
    requires Walk(nodes, edges, a, b, n)
    ensures Walk(nodes, edges, b, a, n)
    decreases n
  {
    if n > 0 {
      var x :| Linked(nodes, edges, a, x) && Walk(nodes, edges, x, b, n - 1);
      WalkBack(nodes, edges, x, b, n - 1);
      assert Linked(nodes, edges, x, a);
      assert Walk(nodes, edges, a, a, 0);
      assert Walk(nodes, edges, x, a, 1);
      WalksJoin(nodes, edges, b, x, a, n - 1, 1);
    }
  }

  lemma ConnectedJoin(nodes: set<int>, edges: seq<(int, int)>, a: int, b: int, c: int)
    requires Connected(nodes, edges, a, b) && Connected(nodes, edges, b, c)
    ensures Connected(nodes, edges, a, c) && Connected(nodes, edges, b, a)
  {
    var m: nat :| Walk(nodes, edges, a, b, m);
    var n: nat :| Walk(nodes, edges, b, c, n);
    WalksJoin(nodes, edges, a, b, c, m, n);
    WalkBack(nodes, edges, a, b, m);
  }

  lemma {:induction false} NeighbourLinked(nodes: set<int>, edges: seq<(int, int)>, k: int, i: nat)
    requires i < |Neighbours(nodes, edges, k)|
    ensures Linked(nodes, edges, k, Neighbours(nodes, edges, k)[i])
  {
    var p, e := edges[..|edges| - 1], edges[|edges| - 1];
    if i < |Neighbours(nodes, p, k)| {
      NeighbourLinked(nodes, p, k, i);
      var j :| 0 <= j < |p| && Usable(nodes, p[j]) &&
        (p[j] == (k, Neighbours(nodes, p, k)[i]) || p[j] == (Neighbours(nodes, p, k)[i], k));
      assert edges[j] == p[j];
    }
  }

  lemma {:induction false} LinkedNeighbour(nodes: set<int>, edges: seq<(int, int)>, k: int, m: int)
    requires Linked(nodes, edges, k, m)
    ensures Neighbours(nodes, edges, k) != []
  {
    var j :| 0 <= j < |edges| && Usable(nodes, edges[j]) && (edges[j] == (k, m) || edges[j] == (m, k));
    if j < |edges| - 1 {
      assert edges[..|edges| - 1][j] == edges[j];
      LinkedNeighbour(nodes, edges[..|edges| - 1], k, m);
    }
  }

  lemma {:induction false} WalkStays(nodes: set<int>, edges: seq<(int, int)>, a: int, b: int, n: nat)
    requires a in nodes && Walk(nodes, edges, a, b, n)
    ensures b in nodes
    decreases n
  {
    if n > 0 {
      var x :| Linked(nodes, edges, a, x) && Walk(nodes, edges, x, b, n - 1);
      WalkStays(nodes, edges, x, b, n - 1);
    }
  }

  // Every label is the key of a node its own node is connected to.
  ghost predicate AtHome(nodes: set<int>, edges: seq<(int, int)>, tags: Labels) {
    forall k {:trigger Connected(nodes, edges, k, tags[k])} | k in tags :: Connected(nodes, edges, k, tags[k])
  }

  lemma UpdateAtHome(nodes: set<int>, edges: seq<(int, int)>, tags: Labels, k: int)
    requires Covers(tags, nodes) && k in nodes && AtHome(nodes, edges, tags)
    ensures AtHome(nodes, edges, UpdateNode(nodes, edges, tags, k))
  {
    var ns := Neighbours(nodes, edges, k);
    if ns != [] {
      var j :| 0 <= j < |ns| && tags[ns[j]] == Best(ns, tags);
      NeighbourLinked(nodes, edges, k, j);
      assert Walk(nodes, edges, ns[j], ns[j], 0);
      assert Walk(nodes, edges, k, ns[j], 1);
      ConnectedJoin(nodes, edges, k, ns[j], tags[ns[j]]);
    }
  }

  lemma {:induction false} SweepAtHome(nodes: set<int>, edges: seq<(int, int)>, ks: seq<int>, tags: Labels)
    requires Covers(tags, nodes) && Tagged(ks, tags) && AtHome(nodes, edges, tags)
    ensures AtHome(nodes, edges, SweepOver(nodes, edges, ks, tags))
  {
    if ks != [] {
      SweepAtHome(nodes, edges, ks[..|ks| - 1], tags);
      UpdateAtHome(nodes, edges, SweepOver(nodes, edges, ks[..|ks| - 1], tags), ks[|ks| - 1]);
    }
  }

  lemma {:induction false} PropagateAtHome(nodes: set<int>, edges: seq<(int, int)>, ks: seq<int>, tags: Labels, n: nat)
    requires Covers(tags, nodes) && Tagged(ks, tags) && AtHome(nodes, edges, tags)
    ensures AtHome(nodes, edges, Propagate(nodes, edges, ks, tags, n))
  {
    if n > 0 {
      SweepAtHome(nodes, edges, ks, tags);
      PropagateAtHome(nodes, edges, ks, SweepOver(nodes, edges, ks, tags), n - 1);
    }
  }

  lemma FinalAtHome(nodes: seq<int>, edges: seq<(int, int)>, iterations: nat)
    requires NoDup(nodes)
    ensures AtHome(KeysOf(nodes), edges, FinalLabels(nodes, edges, iterations))
  {
    forall k | k in KeysOf(nodes) ensures Connected(KeysOf(nodes), edges, k, k) {
      assert Walk(KeysOf(nodes), edges, k, k, 0);
    }
    AllTagged(Ordered(nodes), Seed(KeysOf(nodes)));
    PropagateAtHome(KeysOf(nodes), edges, Ordered(nodes), Seed(KeysOf(nodes)), iterations);
  }

  lemma JoinedByLabel(nodes: set<int>, edges: seq<(int, int)>, tags: Labels, a: int, b: int)
    requires a in tags && b in tags && tags[a] == tags[b] && AtHome(nodes, edges, tags)
    ensures Connected(nodes, edges, a, b)
  {
    assert Connected(nodes, edges, a, tags[a]) && Connected(nodes, edges, b, tags[b]);
    assert Walk(nodes, edges, tags[b], tags[b], 0);
    ConnectedJoin(nodes, edges, b, tags[b], tags[b]);
    ConnectedJoin(nodes, edges, a, tags[a], b);
  }

  /** Two nodes in one community are connected. */
  lemma CommunityConnected(nodes: seq<int>, edges: seq<(int, int)>, iterations: nat, a: int, b: int)
    requires NoDup(nodes) && a in KeysOf(nodes) && b in KeysOf(nodes)
    requires CommunityIds(nodes, edges, iterations)[a] == CommunityIds(nodes, edges, iterations)[b]
    ensures Connected(KeysOf(nodes), edges, a, b)
  {
    var tags := FinalLabels(nodes, edges, iterations);
    FinalAtHome(nodes, edges, iterations);
    OrderedCovers(nodes, edges, iterations);
    SameIdSameLabel(tags, Ordered(nodes), a, b);
    JoinedByLabel(KeysOf(nodes), edges, tags, a, b);
  }

  /** A node without usable edges is a community of its own. */
  lemma IsolatedAlone(nodes: seq<int>, edges: seq<(int, int)>, iterations: nat, a: int, b: int)
    requires NoDup(nodes) && a in KeysOf(nodes) && b in KeysOf(nodes) && a != b
    requires Neighbours(KeysOf(nodes), edges, a) == []
    ensures CommunityIds(nodes, edges, iterations)[a] != CommunityIds(nodes, edges, iterations)[b]
  {
    if CommunityIds(nodes, edges, iterations)[a] == CommunityIds(nodes, edges, iterations)[b] {
      CommunityConnected(nodes, edges, iterations, a, b);
      var n: nat :| Walk(KeysOf(nodes), edges, a, b, n);
      var c :| Linked(KeysOf(nodes), edges, a, c) && Walk(KeysOf(nodes), edges, c, b, n - 1);
      LinkedNeighbour(KeysOf(nodes), edges, a, c);
      assert false;
    }
  }

  // ---- ids ----

  lemma RankTotal(sizes: map<int, nat>)
    ensures StrictTotal(ByRank(sizes))
  {
  }

  lemma {:induction false} LabelsFacts(tags: Labels, ks: seq<int>)
    requires Tagged(ks, tags)
    ensures NoDup(LabelsOf(tags, ks))
    ensures Elems(LabelsOf(tags, ks)) == set k | k in Elems(ks) && k in tags :: tags[k]
  {
    if ks != [] {
      var p, k := ks[..|ks| - 1], ks[|ks| - 1];
      LabelsFacts(tags, p);
      LastElems(ks);
      var before := LabelsOf(tags, p);
      SnocElems(before, tags[k]);
      assert tags[k] in before <==> tags[k] in Elems(before);
      var now, then0 := set j | j in Elems(ks) && j in tags :: tags[j], set j | j in Elems(p) && j in tags :: tags[j];
      assert k in Elems(ks);
      assert forall x | x in now :: x in then0 || x == tags[k];
      assert now == then0 + {tags[k]};
    }
  }

  lemma Held<K, V>(m: map<K, V>, v: V) returns (k: K)
    requires v in m.Values
    ensures k in m && m[k] == v
  {
    k :| k in m && m[k] == v;
  }

  lemma UsedLabels(tags: Labels, ks: seq<int>)
    requires Elems(ks) == tags.Keys
    ensures (set k | k in Elems(ks) && k in tags :: tags[k]) == tags.Values
  {
    var used := set k | k in Elems(ks) && k in tags :: tags[k];
    forall v | v in tags.Values ensures v in used {
      var k := Held(tags, v);
      assert k in Elems(ks);
    }
  }

  lemma RankedFacts(tags: Labels, ks: seq<int>)
    requires KeysOf(ks) == tags.Keys
    ensures Tagged(ks, tags)
    ensures Elems(Ranked(tags, ks)) == tags.Values
    ensures Sorted(ByRank(SizesOf(tags)), Ranked(tags, ks)) && NoDup(Ranked(tags, ks))
  {
    AllTagged(ks, tags);
    KeysAreElems(ks);
    LabelsFacts(tags, ks);
    RankTotal(SizesOf(tags));
    SortFacts(ByRank(SizesOf(tags)), LabelsOf(tags, ks));
    SortedNoDup(ByRank(SizesOf(tags)), Ranked(tags, ks));
    UsedLabels(tags, ks);
  }

  // The members' label sits at their id in the ranking.
  lemma IdOf(tags: Labels, ks: seq<int>, a: int)
    requires KeysOf(ks) == tags.Keys && a in tags
    ensures Tagged(ks, tags)
    ensures 0 <= Renumber(tags, ks)[a] < |Ranked(tags, ks)|
    ensures Ranked(tags, ks)[Renumber(tags, ks)[a]] == tags[a]
  {
    RankedFacts(tags, ks);
    assert tags[a] in Elems(Ranked(tags, ks)) by {
      assert tags[a] in tags.Values;
    }
  }

  lemma SameIdSameLabel(tags: Labels, ks: seq<int>, a: int, b: int)
    requires KeysOf(ks) == tags.Keys && a in tags && b in tags
    ensures Tagged(ks, tags)
    ensures Renumber(tags, ks)[a] == Renumber(tags, ks)[b] <==> tags[a] == tags[b]
  {
    IdOf(tags, ks, a);
    IdOf(tags, ks, b);
  }

  lemma RankInUse(tags: Labels, ks: seq<int>, i: nat) returns (k: int)
    requires KeysOf(ks) == tags.Keys
    requires i < |tags.Values|
    ensures Tagged(ks, tags)
    ensures k in tags && Renumber(tags, ks)[k] == i
  {
    RankedFacts(tags, ks);
    var ranked := Ranked(tags, ks);
    NoDupSize(ranked);
    k := HolderOf(tags, ranked, i);
    IdOf(tags, ks, k);
    var id := Renumber(tags, ks)[k];
    if id < i {
      NoDupAt(ranked, id, i);
    } else if i < id {
      NoDupAt(ranked, i, id);
    }
  }

  lemma HolderOf(tags: Labels, ranked: seq<int>, i: nat) returns (k: int)
    requires Elems(ranked) == tags.Values && i < |ranked|
    ensures k in tags && tags[k] == ranked[i]
  {
    assert ranked[i] in tags.Values by {
      assert ranked[i] in Elems(ranked);
    }
    k := Held(tags, ranked[i]);
  }

  lemma RanksDense(tags: Labels, ks: seq<int>)
    requires KeysOf(ks) == tags.Keys
    ensures Tagged(ks, tags)
    ensures forall i :: i in Renumber(tags, ks).Values <==> 0 <= i < |tags.Values|
  {
    RankedFacts(tags, ks);
    NoDupSize(Ranked(tags, ks));
    var ids := Renumber(tags, ks);
    forall i ensures i in ids.Values <==> 0 <= i < |tags.Values| {
      if 0 <= i < |tags.Values| {
        var k := RankInUse(tags, ks, i);
        assert ids[k] in ids.Values;
      }
      if i in ids.Values {
        var k := Held(ids, i);
        IdOf(tags, ks, k);
      }
    }
  }

  lemma OrderedCovers(nodes: seq<int>, edges: seq<(int, int)>, iterations: nat)
    requires NoDup(nodes)
    ensures KeysOf(Ordered(nodes)) == FinalLabels(nodes, edges, iterations).Keys
    ensures Tagged(Ordered(nodes), FinalLabels(nodes, edges, iterations))
    ensures CommunityIds(nodes, edges, iterations) == Renumber(FinalLabels(nodes, edges, iterations), Ordered(nodes))
  {
    AllTagged(Ordered(nodes), FinalLabels(nodes, edges, iterations));
  }

  /** The ids in use are exactly 0 .. c-1, c the number of labels that survive. */
  lemma IdsDense(nodes: seq<int>, edges: seq<(int, int)>, iterations: nat)
    requires NoDup(nodes)
    ensures forall i ::
      (i in CommunityIds(nodes, edges, iterations).Values <==> 0 <= i < |FinalLabels(nodes, edges, iterations).Values|)
  {
    OrderedCovers(nodes, edges, iterations);
    RanksDense(FinalLabels(nodes, edges, iterations), Ordered(nodes));
  }

  lemma SameMembers(tags: Labels, ks: seq<int>, a: int)
    requires KeysOf(ks) == tags.Keys && a in tags
    ensures Tagged(ks, tags)
    ensures Members(Renumber(tags, ks), Renumber(tags, ks)[a]) == Members(tags, tags[a])
  {
    AllTagged(ks, tags);
    forall b | b in tags
      ensures Renumber(tags, ks)[a] == Renumber(tags, ks)[b] <==> tags[a] == tags[b]
    {
      SameIdSameLabel(tags, ks, a, b);
    }
  }

  lemma RanksBySize(tags: Labels, ks: seq<int>, a: int, b: int)
    requires KeysOf(ks) == tags.Keys && Tagged(ks, tags) && a in tags && b in tags
    requires Renumber(tags, ks)[a] < Renumber(tags, ks)[b]
    ensures |Members(tags, tags[a])| >= |Members(tags, tags[b])|
    ensures |Members(tags, tags[a])| == |Members(tags, tags[b])| ==> tags[a] < tags[b]
  {
    IdOf(tags, ks, a);
    IdOf(tags, ks, b);
    RankedFacts(tags, ks);
    SortedAt(ByRank(SizesOf(tags)), Ranked(tags, ks), Renumber(tags, ks)[a], Renumber(tags, ks)[b]);
    assert tags[a] in tags.Values && tags[b] in tags.Values;
  }

  // The nodes that carry `l`.
  function Class(tags: Labels, l: int): set<int> {
    set k | k in tags.Keys && tags[k] == l
  }

  /** A smaller id is never a smaller community; equal sizes go by the smaller label. */
  lemma IdsBySize(nodes: seq<int>, edges: seq<(int, int)>, iterations: nat, a: int, b: int)
    requires NoDup(nodes) && a in KeysOf(nodes) && b in KeysOf(nodes)
    requires CommunityIds(nodes, edges, iterations)[a] < CommunityIds(nodes, edges, iterations)[b]
    ensures var ids, tags := CommunityIds(nodes, edges, iterations), FinalLabels(nodes, edges, iterations);
      && |Class(ids, ids[a])| >= |Class(ids, ids[b])|
      && (|Class(ids, ids[a])| == |Class(ids, ids[b])| ==> tags[a] < tags[b])
  {
    var tags := FinalLabels(nodes, edges, iterations);
    OrderedCovers(nodes, edges, iterations);
    SameMembers(tags, Ordered(nodes), a);
    SameMembers(tags, Ordered(nodes), b);
    var ids := CommunityIds(nodes, edges, iterations);
    assert Class(ids, ids[a]) == Members(ids, ids[a]) && Class(ids, ids[b]) == Members(ids, ids[b]);
    RanksBySize(tags, Ordered(nodes), a, b);
  }

  // ---- early stop ----

  // No node would change: each has its neighbours' best label already.
  ghost predicate Settled(nodes: set<int>, edges: seq<(int, int)>, tags: Labels)
    requires Covers(tags, nodes)
  {
    forall k | k in nodes :: Neighbours(nodes, edges, k) != [] ==> tags[k] == Best(Neighbours(nodes, edges, k), tags)
  }

  lemma {:induction false} SweepFrame(nodes: set<int>, edges: seq<(int, int)>, ks: seq<int>, tags: Labels, k: int)
    requires Covers(tags, nodes) && Tagged(ks, tags) && k in nodes && k !in ks
    ensures SweepOver(nodes, edges, ks, tags)[k] == tags[k]
  {
    if ks != [] {
      SweepFrame(nodes, edges, ks[..|ks| - 1], tags, k);
    }
  }

  // Updating any one node of `ks` changes nothing.
  predicate Unmoved(nodes: set<int>, edges: seq<(int, int)>, ks: seq<int>, tags: Labels)
    requires Covers(tags, nodes) && Tagged(ks, tags)
  {
    ks == [] || (Unmoved(nodes, edges, ks[..|ks| - 1], tags) && UpdateNode(nodes, edges, tags, ks[|ks| - 1]) == tags)
  }

  lemma {:induction false} UnmovedAt(nodes: set<int>, edges: seq<(int, int)>, ks: seq<int>, tags: Labels, i: nat)
    requires Covers(tags, nodes) && Tagged(ks, tags) && Unmoved(nodes, edges, ks, tags) && i < |ks|
    ensures UpdateNode(nodes, edges, tags, ks[i]) == tags
  {
    if i < |ks| - 1 {
      UnmovedAt(nodes, edges, ks[..|ks| - 1], tags, i);
    }
  }

  lemma {:induction false} SettledUnmoved(nodes: set<int>, edges: seq<(int, int)>, ks: seq<int>, tags: Labels)
    requires Covers(tags, nodes) && Tagged(ks, tags) && Settled(nodes, edges, tags)
    ensures Unmoved(nodes, edges, ks, tags)
  {
    if ks != [] {
      SettledUnmoved(nodes, edges, ks[..|ks| - 1], tags);
    }
  }

  // A sweep that ends where it began never moved on the way.
  lemma {:induction false} StillSweep(nodes: set<int>, edges: seq<(int, int)>, ks: seq<int>, tags: Labels)
    requires Covers(tags, nodes) && Tagged(ks, tags) && NoDup(ks)
    ensures SweepOver(nodes, edges, ks, tags) == tags
      <==> Unmoved(nodes, edges, ks, tags)
  {
    if ks != [] {
      var p, k := ks[..|ks| - 1], ks[|ks| - 1];
      StillSweep(nodes, edges, p, tags);
      SweepFrame(nodes, edges, p, tags, k);
      var mid, done := SweepOver(nodes, edges, p, tags), SweepOver(nodes, edges, ks, tags);
      if done == tags {
        forall j | j in nodes ensures mid[j] == tags[j] {
          assert j != k ==> mid[j] == done[j];
        }
        assert mid == tags;
      }
    }
  }

  lemma StillIsSettled(nodes: set<int>, edges: seq<(int, int)>, ks: seq<int>, tags: Labels)
    requires Covers(tags, nodes) && Tagged(ks, tags) && KeysOf(ks) == nodes && NoDup(ks)
    ensures SweepOver(nodes, edges, ks, tags) == tags <==> Settled(nodes, edges, tags)
  {
    KeysAreElems(ks);
    StillSweep(nodes, edges, ks, tags);
    if SweepOver(nodes, edges, ks, tags) == tags {
      forall k | k in nodes && Neighbours(nodes, edges, k) != []
        ensures tags[k] == Best(Neighbours(nodes, edges, k), tags)
      {
        var i := PlaceOf(ks, k);
        UnmovedAt(nodes, edges, ks, tags, i);
        assert UpdateNode(nodes, edges, tags, k)[k] == tags[k];
      }
    }
    if Settled(nodes, edges, tags) {
      SettledUnmoved(nodes, edges, ks, tags);
    }
  }

  lemma {:induction false} StoppedIsSettled(nodes: set<int>, edges: seq<(int, int)>, ks: seq<int>, tags: Labels, n: nat)
    requires Covers(tags, nodes) && Tagged(ks, tags) && KeysOf(ks) == nodes && NoDup(ks)
    ensures Propagate(nodes, edges, ks, tags, n + 1) == Propagate(nodes, edges, ks, tags, n)
      <==> Settled(nodes, edges, Propagate(nodes, edges, ks, tags, n))
  {
    StillIsSettled(nodes, edges, ks, tags);
    if n > 0 {
      StoppedIsSettled(nodes, edges, ks, SweepOver(nodes, edges, ks, tags), n - 1);
    }
  }

  /** More sweeps leave the labels as they are exactly when every node has its neighbours' best. */
  lemma EarlyStopIsFixed(nodes: seq<int>, edges: seq<(int, int)>, iterations: nat)
    requires NoDup(nodes)
    ensures FinalLabels(nodes, edges, iterations + 1) == FinalLabels(nodes, edges, iterations)
      <==> Settled(KeysOf(nodes), edges, FinalLabels(nodes, edges, iterations))
  {
    SortedNoDup(ASCENDING, Ordered(nodes));
    AllTagged(Ordered(nodes), Seed(KeysOf(nodes)));
    StoppedIsSettled(KeysOf(nodes), edges, Ordered(nodes), Seed(KeysOf(nodes)), iterations);
  }

  // ---- order does not matter ----

  function SumBy<T>(f: T -> nat, s: seq<T>): nat {
    if s == [] then 0 else SumBy(f, s[..|s| - 1]) + f(s[|s| - 1])
  }

  lemma {:induction false} SumWithout<T>(f: T -> nat, s: seq<T>, i: nat)
    requires i < |s|
    ensures SumBy(f, s) == SumBy(f, s[..i] + s[i + 1..]) + f(s[i])
  {
    var p, r := s[..|s| - 1], s[..i] + s[i + 1..];
    if i < |s| - 1 {
      SumWithout(f, p, i);
      assert r[..|r| - 1] == p[..i] + p[i + 1..];
      assert r[|r| - 1] == s[|s| - 1];
    } else {
      assert r == p;
    }
  }

  lemma ManyWithout<T>(s: seq<T>, i: nat)
    requires i < |s|
    ensures multiset(s[..i] + s[i + 1..]) == multiset(s) - multiset{s[i]}
  {
    assert s == s[..i] + ([s[i]] + s[i + 1..]);
  }

  lemma {:induction false} SumReordered<T>(f: T -> nat, s: seq<T>, t: seq<T>)
    requires multiset(s) == multiset(t)
    ensures SumBy(f, s) == SumBy(f, t)
    decreases |s|
  {
    assert |s| == |multiset(s)| == |multiset(t)| == |t|;
    if s != [] {
      var p, x := s[..|s| - 1], s[|s| - 1];
      assert s == p + [x];
      var r := TakeOut(f, t, x);
      SumReordered(f, p, r);
    }
  }

  lemma TakeOut<T>(f: T -> nat, t: seq<T>, x: T) returns (r: seq<T>)
    requires x in multiset(t)
    ensures multiset(r) == multiset(t) - multiset{x} && SumBy(f, t) == SumBy(f, r) + f(x)
  {
    var i :| 0 <= i < |t| && t[i] == x;
    SumWithout(f, t, i);
    ManyWithout(t, i);
    r := t[..i] + t[i + 1..];
  }

  // An edge without its direction.
  function Plain(e: (int, int)): (int, int) {
    if e.0 <= e.1 then e else (e.1, e.0)
  }

  function PlainAll(edges: seq<(int, int)>): (r: seq<(int, int)>)
    ensures |r| == |edges|
  {
    if edges == [] then [] else PlainAll(edges[..|edges| - 1]) + [Plain(edges[|edges| - 1])]
  }

  // What one edge adds to the count of label `l` around node `k`.
  function Vote(nodes: set<int>, tags: Labels, k: int, l: int): ((int, int)) -> nat
    requires Covers(tags, nodes)
  {
    e => if Usable(nodes, e) && ((e.0 == k && tags[e.1] == l) || (e.1 == k && tags[e.0] == l)) then 1 else 0
  }

  lemma {:induction false} CountIsVotes(nodes: set<int>, edges: seq<(int, int)>, tags: Labels, k: int, l: int)
    requires Covers(tags, nodes)
    ensures Tagged(Neighbours(nodes, edges, k), tags)
    ensures Count(Neighbours(nodes, edges, k), tags, l) == SumBy(Vote(nodes, tags, k, l), edges)
  {
    if edges != [] {
      CountIsVotes(nodes, edges[..|edges| - 1], tags, k, l);
      var before := Neighbours(nodes, edges[..|edges| - 1], k);
      var now := Neighbours(nodes, edges, k);
      if now != before {
        assert now[..|now| - 1] == before;
      }
    }
  }

  lemma {:induction false} PlainVotes(nodes: set<int>, edges: seq<(int, int)>, tags: Labels, k: int, l: int)
    requires Covers(tags, nodes)
    ensures SumBy(Vote(nodes, tags, k, l), edges) == SumBy(Vote(nodes, tags, k, l), PlainAll(edges))
  {
    if edges != [] {
      PlainVotes(nodes, edges[..|edges| - 1], tags, k, l);
      assert PlainAll(edges)[..|edges| - 1] == PlainAll(edges[..|edges| - 1]);
    }
  }

  // The same undirected edges, each as often.
  predicate SameEdges(a: seq<(int, int)>, b: seq<(int, int)>) {
    multiset(PlainAll(a)) == multiset(PlainAll(b))
  }

  lemma SameCount(nodes: set<int>, a: seq<(int, int)>, b: seq<(int, int)>, tags: Labels, k: int, l: int)
    requires Covers(tags, nodes) && SameEdges(a, b)
    ensures Tagged(Neighbours(nodes, a, k), tags) && Tagged(Neighbours(nodes, b, k), tags)
    ensures Count(Neighbours(nodes, a, k), tags, l) == Count(Neighbours(nodes, b, k), tags, l)
  {
    CountIsVotes(nodes, a, tags, k, l);
    CountIsVotes(nodes, b, tags, k, l);
    PlainVotes(nodes, a, tags, k, l);
    PlainVotes(nodes, b, tags, k, l);
    SumReordered(Vote(nodes, tags, k, l), PlainAll(a), PlainAll(b));
  }

  lemma SameBest(ns: seq<int>, ms: seq<int>, tags: Labels)
    requires Tagged(ns, tags) && Tagged(ms, tags)
    requires forall l :: Count(ns, tags, l) == Count(ms, tags, l)
    ensures ns == [] <==> ms == []
    ensures ns != [] ==> Best(ns, tags) == Best(ms, tags)
  {
    if ms != [] {
      ShownCounts(ms, tags, 0);
      assert Count(ns, tags, tags[ms[0]]) > 0;
    }
    if ns != [] {
      BestIsBest(ns, tags);
      BestUnique(ms, tags, Best(ns, tags));
    }
  }

  lemma SameUpdate(nodes: set<int>, a: seq<(int, int)>, b: seq<(int, int)>, tags: Labels, k: int)
    requires Covers(tags, nodes) && k in nodes && SameEdges(a, b)
    ensures UpdateNode(nodes, a, tags, k) == UpdateNode(nodes, b, tags, k)
  {
    forall l
      ensures Tagged(Neighbours(nodes, a, k), tags) && Tagged(Neighbours(nodes, b, k), tags)
      ensures Count(Neighbours(nodes, a, k), tags, l) == Count(Neighbours(nodes, b, k), tags, l)
    {
      SameCount(nodes, a, b, tags, k, l);
    }
    SameBest(Neighbours(nodes, a, k), Neighbours(nodes, b, k), tags);
  }

  lemma {:induction false} SameSweep(nodes: set<int>, a: seq<(int, int)>, b: seq<(int, int)>, ks: seq<int>, tags: Labels)
    requires Covers(tags, nodes) && Tagged(ks, tags) && SameEdges(a, b)
    ensures SweepOver(nodes, a, ks, tags) == SweepOver(nodes, b, ks, tags)
  {
    if ks != [] {
      SameSweep(nodes, a, b, ks[..|ks| - 1], tags);
      SameUpdate(nodes, a, b, SweepOver(nodes, a, ks[..|ks| - 1], tags), ks[|ks| - 1]);
    }
  }

  lemma {:induction false} SamePropagate(nodes: set<int>, a: seq<(int, int)>, b: seq<(int, int)>, ks: seq<int>, tags: Labels, n: nat)
    requires Covers(tags, nodes) && Tagged(ks, tags) && SameEdges(a, b)
    ensures Propagate(nodes, a, ks, tags, n) == Propagate(nodes, b, ks, tags, n)
  {
    if n > 0 {
      SameSweep(nodes, a, b, ks, tags);
      SamePropagate(nodes, a, b, ks, SweepOver(nodes, a, ks, tags), n - 1);
    }
  }

  /** The ids depend on which nodes there are and on how often each pair is joined, not on the
      order of either list nor on which end of an edge comes first. */
  lemma OrderDoesNotMatter(ns: seq<int>, ms: seq<int>, a: seq<(int, int)>, b: seq<(int, int)>, iterations: nat)
    requires NoDup(ns) && NoDup(ms) && Elems(ns) == Elems(ms) && SameEdges(a, b)
    ensures CommunityIds(ns, a, iterations) == CommunityIds(ms, b, iterations)
  {
    KeysAreElems(ns);
    KeysAreElems(ms);
    KeysAreElems(Ordered(ns));
    KeysAreElems(Ordered(ms));
    SortedUnique(ASCENDING, Ordered(ns), Ordered(ms));
    AllTagged(Ordered(ns), Seed(KeysOf(ns)));
    SamePropagate(KeysOf(ns), a, b, Ordered(ns), Seed(KeysOf(ns)), iterations);
  }
}
