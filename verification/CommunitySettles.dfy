/** Label propagation comes to rest: each move makes more edges one-coloured, or as many with a smaller label. */
module CommunitySettles {
  import opened Common
  import opened Sorting
  import opened Communities
  import opened CommunityLaws

  // Usable edges whose ends have one label.
  function Mono(nodes: set<int>, edges: seq<(int, int)>, tags: Labels): nat
    requires Covers(tags, nodes)
  {
    if edges == [] then 0
    else
      var e := edges[|edges| - 1];
      Mono(nodes, edges[..|edges| - 1], tags) + if Usable(nodes, e) && tags[e.0] == tags[e.1] then 1 else 0
  }

  function Rank(nodes: set<int>, l: int): nat {
    |set n | n in nodes && n < l|
  }

  function RankSum(nodes: set<int>, ks: seq<int>, tags: Labels): nat
    requires Tagged(ks, tags)
  {
    if ks == [] then 0 else RankSum(nodes, ks[..|ks| - 1], tags) + Rank(nodes, tags[ks[|ks| - 1]])
  }

  lemma {:induction false} MonoMost(nodes: set<int>, edges: seq<(int, int)>, tags: Labels)
    requires Covers(tags, nodes)
    ensures Mono(nodes, edges, tags) <= |edges|
  {
    if edges != [] {
      MonoMost(nodes, edges[..|edges| - 1], tags);
    }
  }

  lemma RankMost(nodes: set<int>, l: int)
    ensures Rank(nodes, l) <= |nodes|
  {
    SubsetSize((set n | n in nodes && n < l), nodes);
  }

  lemma RankRises(nodes: set<int>, l: int, m: int)
    requires l < m && l in nodes
    ensures Rank(nodes, l) < Rank(nodes, m)
  {
    var a, b := (set n | n in nodes && n < l), (set n | n in nodes && n < m);
    SubsetSize(a + {l}, b);
  }

  lemma {:induction false} RankSumMost(nodes: set<int>, ks: seq<int>, tags: Labels)
    requires Tagged(ks, tags)
    ensures RankSum(nodes, ks, tags) <= |nodes| * |ks|
  {
    if ks != [] {
      RankSumMost(nodes, ks[..|ks| - 1], tags);
      RankMost(nodes, tags[ks[|ks| - 1]]);
      assert |nodes| * |ks| == |nodes| * (|ks| - 1) + |nodes|;
    }
  }

  // ---- one node relabelled ----

  lemma CountSnoc(ns: seq<int>, tags: Labels, x: int, l: int)
    requires Tagged(ns, tags) && x in tags
    ensures Tagged(ns + [x], tags) && Count(ns + [x], tags, l) == Count(ns, tags, l) + if tags[x] == l then 1 else 0
  {
    assert (ns + [x])[..|ns|] == ns;
  }

  // The end of an edge that is not `k`, for an edge of `k`.
  function Other(nodes: set<int>, e: (int, int), k: int): Option<int> {
    if !Usable(nodes, e) then None else if e.0 == k then Some(e.1) else if e.1 == k then Some(e.0) else None
  }

  lemma NeighboursStep(nodes: set<int>, edges: seq<(int, int)>, tags: Labels, k: int, l: int)
    requires Covers(tags, nodes) && edges != []
    ensures var before := Neighbours(nodes, edges[..|edges| - 1], k);
      var o := Other(nodes, edges[|edges| - 1], k);
      && Tagged(before, tags) && Tagged(Neighbours(nodes, edges, k), tags)
      && Count(Neighbours(nodes, edges, k), tags, l)
         == Count(before, tags, l) + if o.Some? && o.value in tags && tags[o.value] == l then 1 else 0
  {
    var before, o := Neighbours(nodes, edges[..|edges| - 1], k), Other(nodes, edges[|edges| - 1], k);
    if o.Some? {
      CountSnoc(before, tags, o.value, l);
    }
  }

  lemma {:induction false} MonoStep(nodes: set<int>, edges: seq<(int, int)>, tags: Labels, k: int, b: int)
    requires Covers(tags, nodes) && k in nodes
    ensures Tagged(Neighbours(nodes, edges, k), tags) && Covers(tags[k := b], nodes)
    ensures Mono(nodes, edges, tags[k := b]) + Count(Neighbours(nodes, edges, k), tags, tags[k])
      == Mono(nodes, edges, tags) + Count(Neighbours(nodes, edges, k), tags, b)
  {
    if edges != [] {
      MonoStep(nodes, edges[..|edges| - 1], tags, k, b);
      NeighboursStep(nodes, edges, tags, k, tags[k]);
      NeighboursStep(nodes, edges, tags, k, b);
    }
  }

  lemma {:induction false} RankFrame(nodes: set<int>, ks: seq<int>, tags: Labels, k: int, b: int)
    requires Tagged(ks, tags) && k !in ks
    ensures Tagged(ks, tags[k := b]) && RankSum(nodes, ks, tags[k := b]) == RankSum(nodes, ks, tags)
  {
    if ks != [] {
      RankFrame(nodes, ks[..|ks| - 1], tags, k, b);
    }
  }

  lemma {:induction false} RankStep(nodes: set<int>, ks: seq<int>, tags: Labels, k: int, b: int)
    requires Tagged(ks, tags) && NoDup(ks) && k in ks
    ensures Tagged(ks, tags[k := b])
    ensures RankSum(nodes, ks, tags[k := b]) + Rank(nodes, tags[k]) == RankSum(nodes, ks, tags) + Rank(nodes, b)
  {
    var p := ks[..|ks| - 1];
    if ks[|ks| - 1] == k {
      RankFrame(nodes, p, tags, k, b);
    } else {
      RankStep(nodes, p, tags, k, b);
    }
  }

  // ---- what every move raises ----

  predicate InNodes(nodes: set<int>, tags: Labels) {
    tags.Values <= nodes
  }

  // The pass visits each node once.
  predicate Visits(nodes: set<int>, ks: seq<int>, tags: Labels) {
    Covers(tags, nodes) && Tagged(ks, tags) && NoDup(ks) && Elems(ks) == nodes
  }

  function Potential(nodes: set<int>, edges: seq<(int, int)>, ks: seq<int>, tags: Labels): int
    requires Visits(nodes, ks, tags)
  {
    Weigh(|nodes|, Mono(nodes, edges, tags)) - RankSum(nodes, ks, tags)
  }

  function Weigh(n: nat, m: nat): nat {
    if m == 0 then 0 else Weigh(n, m - 1) + n + 1
  }

  lemma {:induction false} WeighIs(n: nat, m: nat)
    ensures Weigh(n, m) == (n + 1) * m
  {
    if m > 0 {
      WeighIs(n, m - 1);
      assert (n + 1) * m == (n + 1) * (m - 1) + (n + 1);
    }
  }

  lemma {:induction false} WeighMore(n: nat, a: nat, b: nat)
    requires a <= b
    ensures Weigh(n, a) <= Weigh(n, b)
    ensures a < b ==> Weigh(n, a) + n + 1 <= Weigh(n, b)
  {
    if a < b {
      WeighMore(n, a, b - 1);
    }
  }

  lemma MoveRaises(nodes: set<int>, edges: seq<(int, int)>, ks: seq<int>, tags: Labels, k: int, b: int)
    requires Visits(nodes, ks, tags) && k in nodes && b in nodes && b != tags[k]
    requires Tagged(Neighbours(nodes, edges, k), tags) && IsBest(Neighbours(nodes, edges, k), tags, b)
    ensures Visits(nodes, ks, tags[k := b])
    ensures Potential(nodes, edges, ks, tags[k := b]) > Potential(nodes, edges, ks, tags)
  {
    var ns := Neighbours(nodes, edges, k);
    assert k in Elems(ks);
    MonoStep(nodes, edges, tags, k, b);
    RankStep(nodes, ks, tags, k, b);
    RankMost(nodes, b);
    assert Count(ns, tags, tags[k]) <= Count(ns, tags, b);
    WeighMore(|nodes|, Mono(nodes, edges, tags), Mono(nodes, edges, tags[k := b]));
    if Count(ns, tags, tags[k]) == Count(ns, tags, b) {
      RankRises(nodes, b, tags[k]);
    }
  }

  lemma {:induction false} UpdateRaises(nodes: set<int>, edges: seq<(int, int)>, ks: seq<int>, tags: Labels, k: int)
    requires Visits(nodes, ks, tags) && InNodes(nodes, tags) && k in nodes
    ensures var r := UpdateNode(nodes, edges, tags, k);
      && Visits(nodes, ks, r) && InNodes(nodes, r)
      && (r == tags || Potential(nodes, edges, ks, r) > Potential(nodes, edges, ks, tags))
  {
    var ns := Neighbours(nodes, edges, k);
    if ns != [] {
      var b := Best(ns, tags);
      BestIsBest(ns, tags);
      var j := CountShows(ns, tags, b);
      assert tags[ns[j]] in tags.Values;
      if b == tags[k] {
        assert tags[k := b] == tags;
      } else {
        MoveRaises(nodes, edges, ks, tags, k, b);
      }
    }
  }

  lemma {:induction false} SweepRaises(nodes: set<int>, edges: seq<(int, int)>, ks: seq<int>, tags: Labels, vs: seq<int>)
    requires Visits(nodes, ks, tags) && InNodes(nodes, tags) && Tagged(vs, tags)
    ensures var r := SweepOver(nodes, edges, vs, tags);
      && Visits(nodes, ks, r) && InNodes(nodes, r)
      && (r == tags || Potential(nodes, edges, ks, r) > Potential(nodes, edges, ks, tags))
  {
    if vs != [] {
      SweepRaises(nodes, edges, ks, tags, vs[..|vs| - 1]);
      UpdateRaises(nodes, edges, ks, SweepOver(nodes, edges, vs[..|vs| - 1], tags), vs[|vs| - 1]);
    }
  }

  lemma PotentialMost(nodes: set<int>, edges: seq<(int, int)>, ks: seq<int>, tags: Labels)
    requires Visits(nodes, ks, tags)
    ensures -(|nodes| * |nodes|) <= Potential(nodes, edges, ks, tags) <= Weigh(|nodes|, |edges|)
  {
    NoDupSize(ks);
    MonoMost(nodes, edges, tags);
    WeighMore(|nodes|, Mono(nodes, edges, tags), |edges|);
    RankSumMost(nodes, ks, tags);
  }

  lemma {:induction false} NoMore(nodes: set<int>, edges: seq<(int, int)>, ks: seq<int>, tags: Labels, n: nat)
    requires Visits(nodes, ks, tags) && InNodes(nodes, tags)
    requires n + Potential(nodes, edges, ks, tags) > Weigh(|nodes|, |edges|)
    ensures n > 0
    ensures var r := SweepOver(nodes, edges, ks, tags);
      && Visits(nodes, ks, r) && InNodes(nodes, r)
      && (r == tags || n - 1 + Potential(nodes, edges, ks, r) > Weigh(|nodes|, |edges|))
  {
    PotentialMost(nodes, edges, ks, tags);
    SweepRaises(nodes, edges, ks, tags, ks);
  }

  // One more sweep changes nothing any more.
  lemma {:induction false} PropagateRests(nodes: set<int>, edges: seq<(int, int)>, ks: seq<int>, tags: Labels, n: nat)
    requires Visits(nodes, ks, tags) && InNodes(nodes, tags)
    requires n + Potential(nodes, edges, ks, tags) > Weigh(|nodes|, |edges|)
    ensures Propagate(nodes, edges, ks, tags, n + 1) == Propagate(nodes, edges, ks, tags, n)
  {
    NoMore(nodes, edges, ks, tags, n);
    if SweepOver(nodes, edges, ks, tags) != tags {
      PropagateRests(nodes, edges, ks, SweepOver(nodes, edges, ks, tags), n - 1);
    }
  }

  lemma SeedInside(nodes: set<int>)
    ensures InNodes(nodes, Seed(nodes))
  {
    forall v | v in Seed(nodes).Values ensures v in nodes {
      var k := Held(Seed(nodes), v);
    }
  }

  /** With more than (n + 1) * |edges| + n * n iterations for n nodes the labels have come to rest: each node with
      neighbours has the best of their labels, and more iterations change nothing. */
  lemma {:induction false} FinalSettled(nodes: seq<int>, edges: seq<(int, int)>, iterations: nat)
    requires NoDup(nodes) && iterations > (|nodes| + 1) * |edges| + |nodes| * |nodes|
    ensures Settled(KeysOf(nodes), edges, FinalLabels(nodes, edges, iterations))
    ensures FinalLabels(nodes, edges, iterations + 1) == FinalLabels(nodes, edges, iterations)
  {
    var keys, ks := KeysOf(nodes), Ordered(nodes);
    KeysAreElems(nodes);
    KeysAreElems(ks);
    NoDupSize(nodes);
    SortedNoDup(ASCENDING, ks);
    AllTagged(ks, Seed(keys));
    PotentialMost(keys, edges, ks, Seed(keys));
    SeedInside(keys);
    WeighIs(|nodes|, |edges|);
    PropagateRests(keys, edges, ks, Seed(keys), iterations);
    EarlyStopIsFixed(nodes, edges, iterations);
  }
}
