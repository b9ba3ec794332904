/** What a sweep computes, read off the edges: every node's score flows along its joins, whichever way and in
    whatever order the edges are listed. */
module PageRankGraph {
  import opened PageRank

  // ---- the neighbour lists ----

  // Known, different ends.
  predicate Usable(n: nat, e: (int, int)) {
    0 <= e.0 < n && 0 <= e.1 < n && e.0 != e.1
  }

  // How many edges join `i` and `j`, either way round.
  function Joins(n: nat, edges: seq<(int, int)>, i: int, j: int): nat {
    if edges == [] then 0
    else
      var e := edges[|edges| - 1];
      Joins(n, edges[..|edges| - 1], i, j) + if Usable(n, e) && (e == (i, j) || e == (j, i)) then 1 else 0
  }

  // How many edges end in `i`.
  function Degree(n: nat, edges: seq<(int, int)>, i: int): nat {
    if edges == [] then 0
    else
      var e := edges[|edges| - 1];
      Degree(n, edges[..|edges| - 1], i) + if Usable(n, e) && (e.0 == i || e.1 == i) then 1 else 0
  }

  lemma {:induction false} ListHolds(n: nat, edges: seq<(int, int)>, i: nat, j: nat)
    requires i < n
    ensures multiset(Adjacency(n, edges)[i])[j] == Joins(n, edges, i, j)
  {
    if edges != [] {
      ListHolds(n, edges[..|edges| - 1], i, j);
      if Usable(n, edges[|edges| - 1]) {
        var adj, e := Adjacency(n, edges[..|edges| - 1]), edges[|edges| - 1];
        assert Adjacency(n, edges)[i] == adj[i] + (if e.0 == i then [e.1] else if e.1 == i then [e.0] else []);
      }
    }
  }

  lemma {:induction false} ListLength(n: nat, edges: seq<(int, int)>, i: nat)
    requires i < n
    ensures |Adjacency(n, edges)[i]| == Degree(n, edges, i)
  {
    if edges != [] {
      ListLength(n, edges[..|edges| - 1], i);
    }
  }

  /** The list of a node holds each other node as often as an edge joins the two, whichever end comes first, and
      nothing else; so the graph is undirected. */
  lemma AdjacencyExactly(n: nat, edges: seq<(int, int)>, i: nat, j: nat)
    requires i < n
    ensures multiset(Adjacency(n, edges)[i])[j] == Joins(n, edges, i, j) == Joins(n, edges, j, i)
    ensures |Adjacency(n, edges)[i]| == Degree(n, edges, i)
    ensures j >= n || j == i ==> Joins(n, edges, i, j) == 0
  {
    ListHolds(n, edges, i, j);
    ListLength(n, edges, i);
    JoinsBothWays(n, edges, i, j);
  }

  lemma {:induction false} JoinsBothWays(n: nat, edges: seq<(int, int)>, i: int, j: int)
    ensures Joins(n, edges, i, j) == Joins(n, edges, j, i)
    ensures j >= n || j == i ==> Joins(n, edges, i, j) == 0
  {
    if edges != [] {
      JoinsBothWays(n, edges[..|edges| - 1], i, j);
    }
  }

  // ---- one sweep, node by node ----

  lemma {:induction false} PushAt(v: Vector, targets: seq<nat>, share: real, j: nat)
    requires forall k | 0 <= k < |targets| :: targets[k] < |v|
    requires j < |v|
    ensures Push(v, targets, share)[j] == v[j] + Times(multiset(targets)[j], share)
  {
    if targets != [] {
      var p, t := targets[..|targets| - 1], targets[|targets| - 1];
      assert targets == p + [t];
      PushAt(v, p, share, j);
    }
  }

  // What the first `i` nodes hand to `j`: of the damped score of each its share per join with `j`.
  function Inflow(n: nat, edges: seq<(int, int)>, d: real, x: Vector, i: nat, j: nat): real
    requires i <= |x| == n
  {
    if i == 0 then 0.0
    else
      Inflow(n, edges, d, x, i - 1, j)
      + if Degree(n, edges, i - 1) == 0 then 0.0
        else Times(Joins(n, edges, i - 1, j), Damped(d, x[i - 1]) / Degree(n, edges, i - 1) as real)
  }

  // The score of nodes without edges, among the first `i`.
  function Stranded(n: nat, edges: seq<(int, int)>, x: Vector, i: nat): real
    requires i <= |x| == n
  {
    if i == 0 then 0.0
    else Stranded(n, edges, x, i - 1) + if Degree(n, edges, i - 1) == 0 then x[i - 1] else 0.0
  }

  lemma {:induction false} PushFirstAt(n: nat, edges: seq<(int, int)>, d: real, x: Vector, base: Vector, i: nat, j: nat)
    requires |x| == |base| == n && i <= n && j < n
    ensures PushFirst(Adjacency(n, edges), d, x, base, i)[j] == base[j] + Inflow(n, edges, d, x, i, j)
  {
    if i > 0 {
      var adj := Adjacency(n, edges);
      PushFirstAt(n, edges, d, x, base, i - 1, j);
      AdjacencyExactly(n, edges, i - 1, j);
      if adj[i - 1] != [] {
        PushAt(PushFirst(adj, d, x, base, i - 1), adj[i - 1], Share(adj, d, x, i - 1), j);
      }
    }
  }

  lemma {:induction false} StrandedIsDangling(n: nat, edges: seq<(int, int)>, x: Vector, i: nat)
    requires i <= |x| == n
    ensures DanglingFirst(Adjacency(n, edges), x, i) == Stranded(n, edges, x, i)
  {
    if i > 0 {
      StrandedIsDangling(n, edges, x, i - 1);
      ListLength(n, edges, i - 1);
    }
  }

  lemma RaisedAt(v: Vector, c: real, j: nat)
    requires j < |v|
    ensures Raise(v, c)[j] == v[j] + c
  {
  }

  lemma DanglingIs(n: nat, edges: seq<(int, int)>, d: real, x: Vector)
    requires |x| == n > 0
    ensures Dangling(Adjacency(n, edges), d, x) == Damped(d, Stranded(n, edges, x, n)) / n as real
  {
    StrandedIsDangling(n, edges, x, n);
  }

  lemma {:induction false} SweepParts(n: nat, edges: seq<(int, int)>, d: real, x: Vector, j: nat, base: real, extra: real)
    requires |x| == n && j < n && base == Teleport(n, d) && extra == Dangling(Adjacency(n, edges), d, x)
    ensures Sweep(Adjacency(n, edges), d, x)[j] == base + extra + Inflow(n, edges, d, x, n, j)
  {
    PushFirstAt(n, edges, d, x, Constant(n, base), n, j);
    RaisedAt(PushFirst(Adjacency(n, edges), d, x, Constant(n, base), n), extra, j);
  }

  /** A sweep gives every node an equal part of 1 - d and of the damped score of the nodes without edges, and what
      the nodes it is joined to hand it. */
  lemma {:induction false} SweepExactly(n: nat, edges: seq<(int, int)>, d: real, x: Vector, j: nat)
    requires |x| == n && j < n
    ensures Sweep(Adjacency(n, edges), d, x)[j]
      == (1.0 - d) / n as real + Damped(d, Stranded(n, edges, x, n)) / n as real + Inflow(n, edges, d, x, n, j)
  {
    DanglingIs(n, edges, d, x);
    SweepParts(n, edges, d, x, j, Teleport(n, d), Dangling(Adjacency(n, edges), d, x));
  }

  // ---- the way and the order of the edges ----

  ghost predicate SameJoins(n: nat, a: seq<(int, int)>, b: seq<(int, int)>) {
    && (forall i, j :: Joins(n, a, i, j) == Joins(n, b, i, j))
    && (forall i :: Degree(n, a, i) == Degree(n, b, i))
  }

  lemma {:induction false} SameFlow(n: nat, a: seq<(int, int)>, b: seq<(int, int)>, d: real, x: Vector, i: nat, j: nat)
    requires SameJoins(n, a, b) && i <= |x| == n
    ensures Inflow(n, a, d, x, i, j) == Inflow(n, b, d, x, i, j) && Stranded(n, a, x, i) == Stranded(n, b, x, i)
  {
    if i > 0 {
      SameFlow(n, a, b, d, x, i - 1, j);
    }
  }

  lemma {:induction false} SameAt(n: nat, a: seq<(int, int)>, b: seq<(int, int)>, d: real, x: Vector, j: nat, base: real, extra: real)
    requires SameJoins(n, a, b) && |x| == n && j < n && base == Teleport(n, d)
    requires extra == Dangling(Adjacency(n, a), d, x) == Dangling(Adjacency(n, b), d, x)
    ensures Sweep(Adjacency(n, a), d, x)[j] == Sweep(Adjacency(n, b), d, x)[j]
  {
    SweepParts(n, a, d, x, j, base, extra);
    SweepParts(n, b, d, x, j, base, extra);
    SameFlow(n, a, b, d, x, n, j);
  }

  lemma {:induction false} SameDangling(n: nat, a: seq<(int, int)>, b: seq<(int, int)>, d: real, x: Vector)
    requires SameJoins(n, a, b) && |x| == n > 0
    ensures Dangling(Adjacency(n, a), d, x) == Dangling(Adjacency(n, b), d, x)
  {
    DanglingIs(n, a, d, x);
    DanglingIs(n, b, d, x);
    SameFlow(n, a, b, d, x, n, 0);
  }

  lemma {:induction false} SameSweep(n: nat, a: seq<(int, int)>, b: seq<(int, int)>, d: real, x: Vector)
    requires SameJoins(n, a, b) && |x| == n > 0
    ensures Sweep(Adjacency(n, a), d, x) == Sweep(Adjacency(n, b), d, x)
  {
    SameDangling(n, a, b, d, x);
    forall j | 0 <= j < n ensures Sweep(Adjacency(n, a), d, x)[j] == Sweep(Adjacency(n, b), d, x)[j] {
      SameAt(n, a, b, d, x, j, Teleport(n, d), Dangling(Adjacency(n, a), d, x));
    }
  }

  /** The scores depend only on how often each two nodes are joined. */
  lemma {:induction false} JoinsDecide(n: nat, a: seq<(int, int)>, b: seq<(int, int)>, d: real, t: nat)
    requires SameJoins(n, a, b) && n > 0
    ensures Iterate(Adjacency(n, a), d, t) == Iterate(Adjacency(n, b), d, t)
  {
    if t > 0 {
      JoinsDecide(n, a, b, d, t - 1);
      SameSweep(n, a, b, d, Iterate(Adjacency(n, a), d, t - 1));
    }
  }

  // Edge `k` turned round.
  function Turned(edges: seq<(int, int)>, k: nat): seq<(int, int)>
    requires k < |edges|
  {
    edges[k := (edges[k].1, edges[k].0)]
  }

  lemma {:induction false} TurnedJoins(n: nat, edges: seq<(int, int)>, k: nat, i: int, j: int)
    requires k < |edges|
    ensures Joins(n, Turned(edges, k), i, j) == Joins(n, edges, i, j)
    ensures Degree(n, Turned(edges, k), i) == Degree(n, edges, i)
  {
    var p := edges[..|edges| - 1];
    if k < |p| {
      TurnedJoins(n, p, k, i, j);
      assert Turned(edges, k)[..|edges| - 1] == Turned(p, k);
    } else {
      assert Turned(edges, k)[..|edges| - 1] == p;
    }
  }

  /** So not on which way round an edge is listed. */
  lemma DirectionDoesNotMatter(n: nat, edges: seq<(int, int)>, k: nat, d: real, t: nat)
    requires n > 0 && k < |edges|
    ensures Iterate(Adjacency(n, Turned(edges, k)), d, t) == Iterate(Adjacency(n, edges), d, t)
  {
    forall i, j ensures Joins(n, Turned(edges, k), i, j) == Joins(n, edges, i, j) {
      TurnedJoins(n, edges, k, i, j);
    }
    forall i ensures Degree(n, Turned(edges, k), i) == Degree(n, edges, i) {
      TurnedJoins(n, edges, k, i, i);
    }
    JoinsDecide(n, Turned(edges, k), edges, d, t);
  }
}
