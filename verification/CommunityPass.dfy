/** The loops of label propagation, proved against the functions of `Communities`. */
module CommunityPass {
  import opened Common
  import opened Sorting
  import opened Communities
  import opened CommunityLaws

  // The Counter over the neighbours' labels: its keys in the order they first came, and the tallies.
  method Tally(ns: seq<int>, tags: Labels) returns (order: seq<int>, counts: map<int, nat>)
    requires Tagged(ns, tags)
    ensures Elems(order) == counts.Keys
    ensures forall l :: SizeAt(counts, l) == Count(ns, tags, l)
    ensures forall l | l in counts :: counts[l] > 0
  {
    order, counts := [], map[];
    var i := 0;
    while i < |ns|
      invariant 0 <= i <= |ns|
      invariant Elems(order) == counts.Keys
      invariant forall l :: SizeAt(counts, l) == Count(ns[..i], tags, l)
      invariant forall l | l in counts :: counts[l] > 0
    {
      var l := tags[ns[i]];
      if l !in counts {
        SnocElems(order, l);
        order := order + [l];
      }
      counts := counts[l := SizeAt(counts, l) + 1];
      assert ns[..i + 1][..i] == ns[..i];
      i := i + 1;
    }
    assert ns[..i] == ns;
  }

  method MajorityLabel(ns: seq<int>, tags: Labels) returns (best: int)
    requires Tagged(ns, tags) && ns != []
    ensures best == Best(ns, tags)
  {
    var order, counts := Tally(ns, tags);
    ShownCounts(ns, tags, 0);
    assert tags[ns[0]] in Elems(order);
    var top: nat := 0;
    ghost var at := 0;
    var i := 0;
    while i < |order|
      invariant 0 <= i <= |order|
      invariant forall j | 0 <= j < i :: SizeAt(counts, order[j]) <= top
      invariant if i == 0 then top == 0 else 0 <= at < i && SizeAt(counts, order[at]) == top
    {
      assert order[i] in Elems(order);
      if SizeAt(counts, order[i]) > top {
        at := i;
        top := SizeAt(counts, order[i]);
      }
      i := i + 1;
    }
    var found := false;
    best := order[0];
    i := 0;
    while i < |order|
      invariant 0 <= i <= |order|
      invariant found ==> SizeAt(counts, best) == top
      invariant !found ==> forall j | 0 <= j < i :: SizeAt(counts, order[j]) != top
      invariant found ==> forall j | 0 <= j < i :: SizeAt(counts, order[j]) == top ==> best <= order[j]
    {
      if SizeAt(counts, order[i]) == top && (!found || order[i] < best) {
        found, best := true, order[i];
      }
      i := i + 1;
    }
    forall l
      ensures Count(ns, tags, l) <= Count(ns, tags, best)
      ensures Count(ns, tags, l) == Count(ns, tags, best) ==> best <= l
    {
      if l in counts {
        assert l in Elems(order);
        var j :| 0 <= j < |order| && order[j] == l;
      }
    }
    BestUnique(ns, tags, best);
  }

  method Adjacency(nodes: seq<int>, edges: seq<(int, int)>) returns (adj: map<int, seq<int>>)
    ensures adj.Keys == KeysOf(nodes)
    ensures forall k | k in adj :: adj[k] == Neighbours(KeysOf(nodes), edges, k)
  {
    adj := map k | k in KeysOf(nodes) :: [];
    var i := 0;
    while i < |edges|
      invariant 0 <= i <= |edges|
      invariant adj.Keys == KeysOf(nodes)
      invariant forall k | k in adj :: adj[k] == Neighbours(KeysOf(nodes), edges[..i], k)
    {
      var (a, b) := edges[i];
      assert edges[..i + 1][..i] == edges[..i];
      if a in adj && b in adj && a != b {
        adj := adj[a := adj[a] + [b]];
        adj := adj[b := adj[b] + [a]];
      }
      i := i + 1;
    }
    assert edges[..i] == edges;
  }

  // One pass over the nodes in order, each seeing the labels already moved.
  method OnePass(nodes: set<int>, edges: seq<(int, int)>, adj: map<int, seq<int>>, ordered: seq<int>, tags: Labels)
    returns (moved: Labels, changed: bool)
    requires Covers(tags, nodes) && Tagged(ordered, tags) && NoDup(ordered)
    requires adj.Keys == nodes && forall k | k in adj :: adj[k] == Neighbours(nodes, edges, k)
    ensures moved == SweepOver(nodes, edges, ordered, tags)
    ensures changed <==> moved != tags
  {
    moved, changed := tags, false;
    var i := 0;
    while i < |ordered|
      invariant 0 <= i <= |ordered|
      invariant Tagged(ordered[..i], tags)
      invariant moved == SweepOver(nodes, edges, ordered[..i], tags)
      invariant changed <==> moved != tags
    {
      assert ordered[..i + 1][..i] == ordered[..i];
      KeepsMoved(nodes, edges, ordered, tags, i);
      var flag;
      moved, flag := Visit(nodes, edges, adj, moved, ordered[i]);
      changed := changed || flag;
      i := i + 1;
    }
    assert ordered[..i] == ordered;
  }

  // One node takes its neighbours' majority label.
  method Visit(nodes: set<int>, edges: seq<(int, int)>, adj: map<int, seq<int>>, tags: Labels, nid: int)
    returns (moved: Labels, changed: bool)
    requires Covers(tags, nodes) && nid in nodes
    requires adj.Keys == nodes && forall k | k in adj :: adj[k] == Neighbours(nodes, edges, k)
    ensures moved == UpdateNode(nodes, edges, tags, nid)
    ensures changed <==> moved != tags
  {
    moved, changed := tags, false;
    var neighbours := adj[nid];
    if neighbours != [] {
      var best := MajorityLabel(neighbours, tags);
      if best != tags[nid] {
        moved := tags[nid := best];
        assert moved[nid] != tags[nid];
        changed := true;
      }
    }
  }

  // What one pass changed before node `i` stays changed after it.
  lemma KeepsMoved(nodes: set<int>, edges: seq<(int, int)>, ordered: seq<int>, tags: Labels, i: nat)
    requires Covers(tags, nodes) && Tagged(ordered, tags) && NoDup(ordered) && i < |ordered|
    ensures Tagged(ordered[..i], tags) && Tagged(ordered[..i + 1], tags)
    ensures SweepOver(nodes, edges, ordered[..i], tags) != tags
      ==> SweepOver(nodes, edges, ordered[..i + 1], tags) != tags
  {
    PrefixNoDup(ordered, i);
    PrefixNoDup(ordered, i + 1);
    SweepFrame(nodes, edges, ordered[..i], tags, ordered[i]);
    assert ordered[..i + 1][..i] == ordered[..i];
    StillSweep(nodes, edges, ordered[..i], tags);
    StillSweep(nodes, edges, ordered[..i + 1], tags);
  }

  method Propagation(nodes: set<int>, edges: seq<(int, int)>, adj: map<int, seq<int>>, ordered: seq<int>, iterations: nat)
    returns (tags: Labels)
    requires Tagged(ordered, Seed(nodes)) && NoDup(ordered)
    requires adj.Keys == nodes && forall k | k in adj :: adj[k] == Neighbours(nodes, edges, k)
    ensures tags == Propagate(nodes, edges, ordered, Seed(nodes), iterations)
  {
    tags := Seed(nodes);
    var n := 0;
    while n < iterations
      invariant 0 <= n <= iterations
      invariant Covers(tags, nodes) && Tagged(ordered, tags)
      invariant Propagate(nodes, edges, ordered, tags, iterations - n)
        == Propagate(nodes, edges, ordered, Seed(nodes), iterations)
    {
      var changed;
      tags, changed := OnePass(nodes, edges, adj, ordered, tags);
      n := n + 1;
      if !changed {
        StillPropagate(nodes, edges, ordered, tags, iterations - n);
        break;
      }
    }
  }

  lemma StillPropagate(nodes: set<int>, edges: seq<(int, int)>, ks: seq<int>, tags: Labels, n: nat)
    requires Covers(tags, nodes) && Tagged(ks, tags)
    requires SweepOver(nodes, edges, ks, tags) == tags
    ensures Propagate(nodes, edges, ks, tags, n) == tags
  {
  }

  // The nodes of each label, the labels in the order their first node comes.
  method Groups(tags: Labels, ordered: seq<int>) returns (order: seq<int>, groups: map<int, seq<int>>)
    requires Tagged(ordered, tags) && NoDup(ordered) && KeysOf(ordered) == tags.Keys
    ensures order == LabelsOf(tags, ordered)
    ensures groups.Keys == tags.Values
    ensures forall l | l in groups :: |groups[l]| == |Members(tags, l)|
  {
    order, groups := [], map[];
    var i := 0;
    while i < |ordered|
      invariant 0 <= i <= |ordered|
      invariant Tagged(ordered[..i], tags)
      invariant order == LabelsOf(tags, ordered[..i])
      invariant Elems(order) == groups.Keys
      invariant forall l | l in groups :: groups[l] == WithLabel(tags, ordered[..i], l)
      invariant forall l | l !in groups :: WithLabel(tags, ordered[..i], l) == []
    {
      var nid := ordered[i];
      var lbl := tags[nid];
      assert ordered[..i + 1][..i] == ordered[..i];
      if lbl !in groups {
        assert lbl !in Elems(order);
        SnocElems(order, lbl);
        order := order + [lbl];
        groups := groups[lbl := []];
      } else {
        assert lbl in Elems(order);
      }
      groups := groups[lbl := groups[lbl] + [nid]];
      i := i + 1;
    }
    assert ordered[..i] == ordered;
    KeysAreElems(ordered);
    LabelsFacts(tags, ordered);
    UsedLabels(tags, ordered);
    forall l | l in groups ensures |groups[l]| == |Members(tags, l)| {
      WithLabelFacts(tags, ordered, l);
      NoDupSize(groups[l]);
      assert Elems(groups[l]) == Members(tags, l);
    }
  }

  function WithLabel(tags: Labels, ks: seq<int>, l: int): seq<int>
    requires Tagged(ks, tags)
  {
    if ks == [] then []
    else
      var before, k := WithLabel(tags, ks[..|ks| - 1], l), ks[|ks| - 1];
      if tags[k] == l then before + [k] else before
  }

  lemma {:induction false} WithLabelFacts(tags: Labels, ks: seq<int>, l: int)
    requires Tagged(ks, tags) && NoDup(ks)
    ensures NoDup(WithLabel(tags, ks, l))
    ensures Elems(WithLabel(tags, ks, l)) == set k | k in Elems(ks) && k in tags && tags[k] == l
  {
    if ks != [] {
      var p, k := ks[..|ks| - 1], ks[|ks| - 1];
      WithLabelFacts(tags, p, l);
      LastElems(ks);
      var before := WithLabel(tags, p, l);
      assert k !in before by {
        assert k !in Elems(p);
        assert k !in Elems(before);
      }
      SnocElems(before, k);
    }
  }

  method Places(ranked: seq<int>) returns (remap: map<int, nat>)
    requires NoDup(ranked)
    ensures remap.Keys == Elems(ranked)
    ensures forall l | l in remap :: remap[l] == IndexOf(ranked, l)
  {
    remap := map[];
    var i := 0;
    while i < |ranked|
      invariant 0 <= i <= |ranked|
      invariant remap.Keys == Elems(ranked[..i])
      invariant forall l | l in remap :: remap[l] == IndexOf(ranked, l)
    {
      assert ranked[..i + 1] == ranked[..i] + [ranked[i]];
      SnocElems(ranked[..i], ranked[i]);
      IndexAt(ranked, i);
      remap := remap[ranked[i] := i];
      i := i + 1;
    }
    assert ranked[..i] == ranked;
  }

  method Relabel(tags: Labels, ordered: seq<int>) returns (ids: Labels)
    requires Tagged(ordered, tags) && NoDup(ordered) && KeysOf(ordered) == tags.Keys
    ensures ids == Renumber(tags, ordered)
  {
    var order, groups := Groups(tags, ordered);
    var sizes := map l | l in groups :: |groups[l]|;
    assert sizes == SizesOf(tags);
    var ranked := SortBy(ByRank(sizes), order);
    RankedFacts(tags, ordered);
    var remap := Places(ranked);
    ids := Translate(tags, ranked, remap);
  }

  method Translate(tags: Labels, ranked: seq<int>, remap: map<int, nat>) returns (ids: Labels)
    requires remap.Keys == tags.Values
    requires forall l | l in remap :: remap[l] == IndexOf(ranked, l)
    ensures ids == map k | k in tags :: IndexOf(ranked, tags[k])
  {
    forall k | k in tags ensures tags[k] in remap {
      assert tags[k] in tags.Values;
    }
    ids := map k | k in tags :: remap[tags[k]];
  }

  /** Dense community ids for the nodes, the largest community first. */
  method LabelPropagation(nodes: seq<int>, edges: seq<(int, int)>, iterations: nat) returns (ids: Labels)
    requires NoDup(nodes)
    ensures ids == CommunityIds(nodes, edges, iterations)
  {
    if nodes == [] {
      return map[];
    }
    var adj := Adjacency(nodes, edges);
    var ordered := Ordered(nodes);
    SortedNoDup(ASCENDING, ordered);
    AllTagged(ordered, Seed(KeysOf(nodes)));
    var tags := Propagation(KeysOf(nodes), edges, adj, ordered, iterations);
    OrderedCovers(nodes, edges, iterations);
    ids := Relabel(tags, ordered);
  }

  lemma IndexAt(s: seq<int>, i: nat)
    requires NoDup(s) && i < |s|
    ensures IndexOf(s, s[i]) == i
  {
    var j := IndexOf(s, s[i]);
    if j < i {
      NoDupAt(s, j, i);
    } else if i < j {
      NoDupAt(s, i, j);
    }
  }
}
