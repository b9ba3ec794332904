/** Entity centrality: undirected PageRank by power iteration over nodes 0 .. n-1. */
module PageRank {

  type Vector = seq<real>

  // ---- the graph ----

  // Neighbour lists; an edge whose ends are unknown or equal is dropped, a repeated one counts
  // again.
  function Adjacency(n: nat, edges: seq<(int, int)>): (adj: seq<seq<nat>>)
    ensures |adj| == n
    ensures WellFormed(adj)
  {
    if edges == [] then seq(n, _ => [])
    else
      var adj := Adjacency(n, edges[..|edges| - 1]);
      var (a, b) := edges[|edges| - 1];
      if 0 <= a < n && 0 <= b < n && a != b then
        var adj1 := adj[a := adj[a] + [b]];
        adj1[b := adj1[b] + [a]]
      else adj
  }

  predicate WellFormed(adj: seq<seq<nat>>) {
    forall i, k | 0 <= i < |adj| && 0 <= k < |adj[i]| :: adj[i][k] < |adj|
  }

  // ---- sums ----

  function Abs(x: real): real {
    if x < 0.0 then -x else x
  }

  function Total(v: Vector): real {
    if v == [] then 0.0 else Total(v[..|v| - 1]) + v[|v| - 1]
  }

  function Distance(u: Vector, v: Vector): (r: real)
    requires |u| == |v|
    ensures r >= 0.0
  {
    if u == [] then 0.0
    else Distance(u[..|u| - 1], v[..|v| - 1]) + Abs(u[|u| - 1] - v[|v| - 1])
  }

  function Times(k: nat, s: real): real {
    if k == 0 then 0.0 else Times(k - 1, s) + s
  }

  // ---- one sweep ----

  // `share` handed to every node of the list.
  function Push(v: Vector, targets: seq<nat>, share: real): (r: Vector)
    requires forall k | 0 <= k < |targets| :: targets[k] < |v|
    ensures |r| == |v|
  {
    if targets == [] then v
    else
      var w := Push(v, targets[..|targets| - 1], share);
      var t := targets[|targets| - 1];
      w[t := w[t] + share]
  }

  function Damped(d: real, a: real): real {
    d * a
  }

  function Share(adj: seq<seq<nat>>, d: real, x: Vector, i: nat): real
    requires i < |adj| == |x| && adj[i] != []
  {
    Damped(d, x[i]) / |adj[i]| as real
  }

  // The first `i` nodes hand out their scores.
  function PushFirst(adj: seq<seq<nat>>, d: real, x: Vector, base: Vector, i: nat): (r: Vector)
    requires |x| == |base| == |adj| && WellFormed(adj) && i <= |adj|
    ensures |r| == |base|
  {
    if i == 0 then base
    else
      var v := PushFirst(adj, d, x, base, i - 1);
      if adj[i - 1] == [] then v else Push(v, adj[i - 1], Share(adj, d, x, i - 1))
  }

  // The score of the nodes without neighbours, among the first `i`.
  function DanglingFirst(adj: seq<seq<nat>>, x: Vector, i: nat): real
    requires |x| == |adj| && i <= |adj|
  {
    if i == 0 then 0.0
    else DanglingFirst(adj, x, i - 1) + if adj[i - 1] == [] then x[i - 1] else 0.0
  }

  function Dangling(adj: seq<seq<nat>>, d: real, x: Vector): real
    requires |x| == |adj| > 0
  {
    Damped(d, DanglingFirst(adj, x, |adj|)) / |adj| as real
  }

  function Teleport(n: nat, d: real): real
    requires n > 0
  {
    (1.0 - d) / n as real
  }

  function Raise(v: Vector, c: real): (r: Vector)
    ensures |r| == |v|
  {
    seq(|v|, i requires 0 <= i < |v| => v[i] + c)
  }

  function Constant(n: nat, c: real): (r: Vector)
    ensures |r| == n
  {
    seq(n, _ => c)
  }

  function Sweep(adj: seq<seq<nat>>, d: real, x: Vector): (r: Vector)
    requires |x| == |adj| > 0 && WellFormed(adj)
    ensures |r| == |x|
  {
    Raise(PushFirst(adj, d, x, Constant(|adj|, Teleport(|adj|, d)), |adj|), Dangling(adj, d, x))
  }

  function Uniform(n: nat): (r: Vector)
    requires n > 0
    ensures |r| == n
  {
    Constant(n, 1.0 / n as real)
  }

  function Iterate(adj: seq<seq<nat>>, d: real, t: nat): (r: Vector)
    requires |adj| > 0 && WellFormed(adj)
    ensures |r| == |adj|
  {
    if t == 0 then Uniform(|adj|) else Sweep(adj, d, Iterate(adj, d, t - 1))
  }

  // ---- laws of the sums ----

  lemma {:induction false} TimesIsProduct(k: nat, s: real)
    ensures Times(k, s) == k as real * s
  {
    if k > 0 {
      TimesIsProduct(k - 1, s);
      assert k as real * s == (k - 1) as real * s + s;
    }
  }

  lemma Quotient(a: real, k: nat)
    requires k > 0
    ensures Times(k, a / k as real) == a
  {
    TimesIsProduct(k, a / k as real);
    assert k as real * (a / k as real) == a;
  }

  lemma {:induction false} TotalUpdate(v: Vector, i: nat, y: real)
    requires i < |v|
    ensures Total(v[i := y]) == Total(v) - v[i] + y
  {
    var w := v[i := y];
    if i < |v| - 1 {
      assert w[..|w| - 1] == v[..|v| - 1][i := y];
      TotalUpdate(v[..|v| - 1], i, y);
    } else {
      assert w[..|w| - 1] == v[..|v| - 1];
    }
  }

  lemma {:induction false} DistanceUpdate(u: Vector, v: Vector, i: nat, s: real, t: real)
    requires |u| == |v| && i < |u|
    ensures Distance(u[i := u[i] + s], v[i := v[i] + t]) <= Distance(u, v) + Abs(s - t)
  {
    var u', v' := u[i := u[i] + s], v[i := v[i] + t];
    var n := |u| - 1;
    if i < n {
      assert u'[..n] == u[..n][i := u[..n][i] + s] && v'[..n] == v[..n][i := v[..n][i] + t];
      DistanceUpdate(u[..n], v[..n], i, s, t);
    } else {
      assert u'[..n] == u[..n] && v'[..n] == v[..n];
    }
  }

  lemma {:induction false} PushTotal(v: Vector, targets: seq<nat>, share: real)
    requires forall k | 0 <= k < |targets| :: targets[k] < |v|
    ensures Total(Push(v, targets, share)) == Total(v) + Times(|targets|, share)
  {
    if targets != [] {
      var w := Push(v, targets[..|targets| - 1], share);
      PushTotal(v, targets[..|targets| - 1], share);
      TotalUpdate(w, targets[|targets| - 1], w[targets[|targets| - 1]] + share);
    }
  }

  lemma {:induction false} PushDistance(u: Vector, v: Vector, targets: seq<nat>, s: real, t: real)
    requires |u| == |v| && forall k | 0 <= k < |targets| :: targets[k] < |v|
    ensures Distance(Push(u, targets, s), Push(v, targets, t)) <= Distance(u, v) + Times(|targets|, Abs(s - t))
  {
    if targets != [] {
      var rest := targets[..|targets| - 1];
      var i, x, y := targets[|targets| - 1], Push(u, rest, s), Push(v, rest, t);
      PushDistance(u, v, rest, s, t);
      assert Push(u, targets, s) == x[i := x[i] + s] && Push(v, targets, t) == y[i := y[i] + t];
      DistanceUpdate(x, y, i, s, t);
    }
  }

  lemma {:induction false} PushRaises(v: Vector, targets: seq<nat>, share: real, i: nat)
    requires forall k | 0 <= k < |targets| :: targets[k] < |v|
    requires share >= 0.0 && i < |v|
    ensures Push(v, targets, share)[i] >= v[i]
  {
    if targets != [] {
      PushRaises(v, targets[..|targets| - 1], share, i);
    }
  }

  lemma {:induction false} RaiseTotal(v: Vector, c: real)
    ensures Total(Raise(v, c)) == Total(v) + Times(|v|, c)
  {
    if v != [] {
      RaiseTotal(v[..|v| - 1], c);
      assert Raise(v, c)[..|v| - 1] == Raise(v[..|v| - 1], c);
    }
  }

  lemma {:induction false} RaiseDistance(u: Vector, v: Vector, a: real, b: real)
    requires |u| == |v|
    ensures Distance(Raise(u, a), Raise(v, b)) <= Distance(u, v) + Times(|u|, Abs(a - b))
  {
    if u != [] {
      var n := |u| - 1;
      RaiseDistance(u[..n], v[..n], a, b);
      assert Raise(u, a)[..n] == Raise(u[..n], a) && Raise(v, b)[..n] == Raise(v[..n], b);
    }
  }

  lemma {:induction false} ConstantTotal(n: nat, c: real)
    ensures Total(Constant(n, c)) == Times(n, c)
  {
    if n > 0 {
      ConstantTotal(n - 1, c);
      assert Constant(n, c)[..n - 1] == Constant(n - 1, c);
    }
  }

  lemma {:induction false} SelfDistance(v: Vector)
    ensures Distance(v, v) == 0.0
  {
    if v != [] {
      SelfDistance(v[..|v| - 1]);
    }
  }

  lemma {:induction false} Triangle(u: Vector, v: Vector, w: Vector)
    requires |u| == |v| == |w|
    ensures Distance(u, w) <= Distance(u, v) + Distance(v, w)
  {
    if u != [] {
      var n := |u| - 1;
      Triangle(u[..n], v[..n], w[..n]);
    }
  }

  lemma {:induction false} SwapDistance(u: Vector, v: Vector)
    requires |u| == |v|
    ensures Distance(u, v) == Distance(v, u)
  {
    if u != [] {
      SwapDistance(u[..|u| - 1], v[..|v| - 1]);
    }
  }

  lemma {:induction false} ZeroDistance(u: Vector, v: Vector)
    requires |u| == |v| && Distance(u, v) <= 0.0
    ensures u == v
  {
    if u != [] {
      var n := |u| - 1;
      assert Distance(u[..n], v[..n]) >= 0.0 && Abs(u[n] - v[n]) >= 0.0;
      ZeroDistance(u[..n], v[..n]);
      assert u == u[..n] + [u[n]] && v == v[..n] + [v[n]];
    }
  }

  // A nonnegative vector is its total away from zero.
  lemma {:induction false} Norm(v: Vector)
    requires forall i | 0 <= i < |v| :: v[i] >= 0.0
    ensures Distance(v, Constant(|v|, 0.0)) == Total(v)
  {
    if v != [] {
      Norm(v[..|v| - 1]);
      assert Constant(|v|, 0.0)[..|v| - 1] == Constant(|v| - 1, 0.0);
    }
  }
}
