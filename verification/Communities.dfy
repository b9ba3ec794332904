/** Community detection by label propagation. Node keys are strings in the source; only their
    order matters here, so they are integers. */
module Communities {
  import opened Common
  import opened Sorting

  type Labels = map<int, int>

  // ---- the undirected graph ----

  predicate Usable(nodes: set<int>, e: (int, int)) {
    e.0 in nodes && e.1 in nodes && e.0 != e.1
  }

  // Neighbours of `k`, one entry per edge.
  function Neighbours(nodes: set<int>, edges: seq<(int, int)>, k: int): (r: seq<int>)
    ensures forall i | 0 <= i < |r| :: r[i] in nodes
  {
    if edges == [] then []
    else
      var before, e := Neighbours(nodes, edges[..|edges| - 1], k), edges[|edges| - 1];
      if !Usable(nodes, e) then before
      else if e.0 == k then before + [e.1]
      else if e.1 == k then before + [e.0]
      else before
  }

  // ---- the majority rule ----

  predicate Tagged(ks: seq<int>, tags: Labels) {
    forall i | 0 <= i < |ks| :: ks[i] in tags
  }

  function Count(ns: seq<int>, tags: Labels, l: int): nat
    requires Tagged(ns, tags)
  {
    if ns == [] then 0
    else Count(ns[..|ns| - 1], tags, l) + if tags[ns[|ns| - 1]] == l then 1 else 0
  }

  // The most frequent label, the smallest of those.
  ghost predicate IsBest(ns: seq<int>, tags: Labels, b: int)
    requires Tagged(ns, tags)
  {
    && Count(ns, tags, b) > 0
    && forall l :: Count(ns, tags, l) <= Count(ns, tags, b) && (Count(ns, tags, l) == Count(ns, tags, b) ==> b <= l)
  }

  predicate Beats(ns: seq<int>, tags: Labels, l: int, b: int)
    requires Tagged(ns, tags)
  {
    Count(ns, tags, l) > Count(ns, tags, b) || (Count(ns, tags, l) == Count(ns, tags, b) && l < b)
  }

  // The best label among the first `i` neighbours' labels, by their counts over all of them.
  function BestFirst(ns: seq<int>, tags: Labels, i: nat): (b: int)
    requires Tagged(ns, tags)
    requires 0 < i <= |ns|
    ensures exists j | 0 <= j < i :: tags[ns[j]] == b
    ensures forall j | 0 <= j < i :: !Beats(ns, tags, tags[ns[j]], b)
  {
    if i == 1 then tags[ns[0]]
    else
      var b, l := BestFirst(ns, tags, i - 1), tags[ns[i - 1]];
      if Beats(ns, tags, l, b) then l else b
  }

  function Best(ns: seq<int>, tags: Labels): int
    requires Tagged(ns, tags)
    requires ns != []
  {
    BestFirst(ns, tags, |ns|)
  }

  // ---- sweeps ----

  predicate Covers(tags: Labels, nodes: set<int>) {
    tags.Keys == nodes
  }

  function UpdateNode(nodes: set<int>, edges: seq<(int, int)>, tags: Labels, k: int): (r: Labels)
    requires Covers(tags, nodes) && k in nodes
    ensures Covers(r, nodes)
  {
    var ns := Neighbours(nodes, edges, k);
    if ns == [] then tags else tags[k := Best(ns, tags)]
  }

  // The nodes of `ks` updated in turn, each seeing the labels before it already moved.
  function SweepOver(nodes: set<int>, edges: seq<(int, int)>, ks: seq<int>, tags: Labels): (r: Labels)
    requires Covers(tags, nodes) && Tagged(ks, tags)
    ensures Covers(r, nodes)
  {
    if ks == [] then tags
    else UpdateNode(nodes, edges, SweepOver(nodes, edges, ks[..|ks| - 1], tags), ks[|ks| - 1])
  }

  // ---- the whole pass ----

  function KeysOf(nodes: seq<int>): set<int> {
    if nodes == [] then {} else KeysOf(nodes[..|nodes| - 1]) + {nodes[|nodes| - 1]}
  }

  lemma {:induction false} KeysAreElems(nodes: seq<int>)
    ensures KeysOf(nodes) == Elems(nodes)
  {
    if nodes != [] {
      LastElems(nodes);
      KeysAreElems(nodes[..|nodes| - 1]);
    }
  }

  const ASCENDING: (int, int) -> bool := (a, b) => a < b

  function Ordered(nodes: seq<int>): (ks: seq<int>)
    requires NoDup(nodes)
    ensures KeysOf(ks) == KeysOf(nodes)
    ensures Sorted(ASCENDING, ks)
  {
    SortFacts(ASCENDING, nodes);
    KeysAreElems(nodes);
    KeysAreElems(SortBy(ASCENDING, nodes));
    SortBy(ASCENDING, nodes)
  }

  function Seed(nodes: set<int>): (r: Labels)
    ensures Covers(r, nodes)
  {
    map k | k in nodes :: k
  }

  // At most `n` sweeps, fewer when one changes nothing.
  function Propagate(nodes: set<int>, edges: seq<(int, int)>, ks: seq<int>, tags: Labels, n: nat): (r: Labels)
    requires Covers(tags, nodes) && Tagged(ks, tags)
    ensures Covers(r, nodes)
  {
    if n == 0 then tags
    else
      var swept := SweepOver(nodes, edges, ks, tags);
      if swept == tags then tags else Propagate(nodes, edges, ks, swept, n - 1)
  }

  lemma AllTagged(ks: seq<int>, tags: Labels)
    requires KeysOf(ks) <= tags.Keys
    ensures Tagged(ks, tags)
  {
    KeysAreElems(ks);
    forall i | 0 <= i < |ks| ensures ks[i] in tags {
      assert ks[i] in Elems(ks);
    }
  }

  function FinalLabels(nodes: seq<int>, edges: seq<(int, int)>, iterations: nat): (r: Labels)
    requires NoDup(nodes)
    ensures Covers(r, KeysOf(nodes))
  {
    AllTagged(Ordered(nodes), Seed(KeysOf(nodes)));
    Propagate(KeysOf(nodes), edges, Ordered(nodes), Seed(KeysOf(nodes)), iterations)
  }

  // ---- community ids ----

  function Members(tags: Labels, l: int): set<int> {
    set k | k in tags && tags[k] == l
  }

  function SizesOf(tags: Labels): map<int, nat> {
    map l | l in tags.Values :: |Members(tags, l)|
  }

  function SizeAt(sizes: map<int, nat>, l: int): nat {
    if l in sizes then sizes[l] else 0
  }

  // Larger communities first, then the smaller label.
  function ByRank(sizes: map<int, nat>): (int, int) -> bool {
    (a, b) => SizeAt(sizes, a) > SizeAt(sizes, b) || (SizeAt(sizes, a) == SizeAt(sizes, b) && a < b)
  }

  // The labels in use, in the order their nodes come.
  function LabelsOf(tags: Labels, ks: seq<int>): seq<int>
    requires Tagged(ks, tags)
  {
    if ks == [] then []
    else
      var before, l := LabelsOf(tags, ks[..|ks| - 1]), tags[ks[|ks| - 1]];
      if l in before then before else before + [l]
  }

  function IndexOf(s: seq<int>, x: int): (i: nat)
    ensures x in s ==> i < |s| && s[i] == x
  {
    if s == [] then 0 else if s[|s| - 1] == x then |s| - 1 else IndexOf(s[..|s| - 1], x)
  }

  function Ranked(tags: Labels, ks: seq<int>): seq<int>
    requires Tagged(ks, tags)
  {
    SortBy(ByRank(SizesOf(tags)), LabelsOf(tags, ks))
  }

  function Renumber(tags: Labels, ks: seq<int>): (ids: Labels)
    requires Tagged(ks, tags)
  {
    map k | k in tags :: IndexOf(Ranked(tags, ks), tags[k])
  }

  function CommunityIds(nodes: seq<int>, edges: seq<(int, int)>, iterations: nat): (ids: Labels)
    requires NoDup(nodes)
    ensures ids.Keys == KeysOf(nodes)
  {
    var tags := FinalLabels(nodes, edges, iterations);
    AllTagged(Ordered(nodes), tags);
    Renumber(tags, Ordered(nodes))
  }
}
