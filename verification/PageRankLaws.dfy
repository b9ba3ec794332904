/** What a sweep conserves, how it contracts, and the loop that runs it. */
module PageRankLaws {
  import opened PageRank

  // ---- conservation ----

  // The score of the first `i` nodes that have neighbours (`dangling` false) or have none.
  function PartTotal(adj: seq<seq<nat>>, x: Vector, i: nat, dangling: bool): real
    requires |x| == |adj| && i <= |adj|
  {
    if i == 0 then 0.0
    else PartTotal(adj, x, i - 1, dangling) + if (adj[i - 1] == []) == dangling then x[i - 1] else 0.0
  }

  lemma {:induction false} PartsTotal(adj: seq<seq<nat>>, x: Vector, i: nat)
    requires |x| == |adj| && i <= |adj|
    ensures PartTotal(adj, x, i, true) + PartTotal(adj, x, i, false) == Total(x[..i])
    ensures PartTotal(adj, x, i, true) == DanglingFirst(adj, x, i)
  {
    if i > 0 {
      PartsTotal(adj, x, i - 1);
      assert x[..i][..i - 1] == x[..i - 1];
    }
  }

  // What the first `i` nodes hand to their neighbours.
  function Handed(adj: seq<seq<nat>>, d: real, x: Vector, i: nat): real
    requires |x| == |adj| && i <= |adj|
  {
    if i == 0 then 0.0
    else if adj[i - 1] == [] then Handed(adj, d, x, i - 1)
    else Handed(adj, d, x, i - 1) + Damped(d, x[i - 1])
  }

  lemma {:induction false} HandedIsDamped(adj: seq<seq<nat>>, d: real, x: Vector, i: nat)
    requires |x| == |adj| && i <= |adj|
    ensures Handed(adj, d, x, i) == Damped(d, PartTotal(adj, x, i, false))
  {
    if i > 0 {
      HandedIsDamped(adj, d, x, i - 1);
      Distribute(d, PartTotal(adj, x, i - 1, false), x[i - 1]);
    }
  }

  lemma ShareTimes(adj: seq<seq<nat>>, d: real, x: Vector, i: nat)
    requires i < |adj| == |x| && adj[i] != []
    ensures Times(|adj[i]|, Share(adj, d, x, i)) == Damped(d, x[i])
  {
    Quotient(Damped(d, x[i]), |adj[i]|);
  }

  lemma {:induction false} PushFirstTotal(adj: seq<seq<nat>>, d: real, x: Vector, base: Vector, i: nat)
    requires |x| == |base| == |adj| && WellFormed(adj) && i <= |adj|
    ensures Total(PushFirst(adj, d, x, base, i)) == Total(base) + Handed(adj, d, x, i)
  {
    if i > 0 {
      PushFirstTotal(adj, d, x, base, i - 1);
      if adj[i - 1] != [] {
        PushTotal(PushFirst(adj, d, x, base, i - 1), adj[i - 1], Share(adj, d, x, i - 1));
        ShareTimes(adj, d, x, i - 1);
      }
    }
  }

  lemma Distribute(d: real, a: real, b: real)
    ensures Damped(d, a + b) == Damped(d, a) + Damped(d, b)
  {
  }

  lemma DanglingTimes(adj: seq<seq<nat>>, d: real, x: Vector)
    requires |x| == |adj| > 0
    ensures Times(|adj|, Dangling(adj, d, x)) == Damped(d, PartTotal(adj, x, |adj|, true))
  {
    PartsTotal(adj, x, |adj|);
    Quotient(Damped(d, DanglingFirst(adj, x, |adj|)), |adj|);
  }

  lemma BaseTotal(n: nat, d: real)
    requires n > 0
    ensures Total(Constant(n, Teleport(n, d))) == 1.0 - d
  {
    ConstantTotal(n, Teleport(n, d));
    Quotient(1.0 - d, n);
  }

  lemma SweepParts(adj: seq<seq<nat>>, d: real, x: Vector)
    requires |x| == |adj| > 0 && WellFormed(adj)
    ensures Total(Sweep(adj, d, x)) == 1.0 - d + Handed(adj, d, x, |adj|) + Times(|adj|, Dangling(adj, d, x))
  {
    var base := Constant(|adj|, Teleport(|adj|, d));
    BaseTotal(|adj|, d);
    PushFirstTotal(adj, d, x, base, |adj|);
    RaiseTotal(PushFirst(adj, d, x, base, |adj|), Dangling(adj, d, x));
  }

  /** A sweep turns total `s` into (1 - d) + d * s; so total 1 stays 1. */
  lemma SweepTotal(adj: seq<seq<nat>>, d: real, x: Vector)
    requires |x| == |adj| > 0 && WellFormed(adj)
    ensures Total(Sweep(adj, d, x)) == 1.0 - d + Damped(d, Total(x))
  {
    var n := |adj|;
    SweepParts(adj, d, x);
    HandedIsDamped(adj, d, x, n);
    DanglingTimes(adj, d, x);
    PartsTotal(adj, x, n);
    assert x[..n] == x;
    SumUp(Total(Sweep(adj, d, x)), d, PartTotal(adj, x, n, false), PartTotal(adj, x, n, true), Total(x));
  }

  lemma SumUp(t: real, d: real, a: real, b: real, s: real)
    requires t == 1.0 - d + Damped(d, a) + Damped(d, b)
    requires a + b == s
    ensures t == 1.0 - d + Damped(d, s)
  {
    Distribute(d, a, b);
  }

  // ---- lower bound ----

  ghost predicate Nonnegative(x: Vector) {
    forall i | 0 <= i < |x| :: x[i] >= 0.0
  }

  lemma {:induction false} PushFirstRaises(adj: seq<seq<nat>>, d: real, x: Vector, base: Vector, i: nat, j: nat)
    requires |x| == |base| == |adj| && WellFormed(adj) && i <= |adj| && j < |adj|
    requires d >= 0.0 && Nonnegative(x)
    ensures PushFirst(adj, d, x, base, i)[j] >= base[j]
  {
    if i > 0 {
      PushFirstRaises(adj, d, x, base, i - 1, j);
      if adj[i - 1] != [] {
        assert Damped(d, x[i - 1]) >= 0.0;
        QuotientSign(Damped(d, x[i - 1]), |adj[i - 1]|);
        PushRaises(PushFirst(adj, d, x, base, i - 1), adj[i - 1], Share(adj, d, x, i - 1), j);
      }
    }
  }

  lemma QuotientSign(a: real, k: nat)
    requires k > 0
    ensures a >= 0.0 ==> a / k as real >= 0.0
    ensures a > 0.0 ==> a / k as real > 0.0
  {
  }

  lemma {:induction false} DanglingSign(adj: seq<seq<nat>>, x: Vector, i: nat)
    requires |x| == |adj| && i <= |adj| && Nonnegative(x)
    ensures DanglingFirst(adj, x, i) >= 0.0
  {
    if i > 0 {
      DanglingSign(adj, x, i - 1);
    }
  }

  /** After a sweep every node holds at least the teleport share. */
  lemma SweepFloor(adj: seq<seq<nat>>, d: real, x: Vector, j: nat)
    requires |x| == |adj| > 0 && WellFormed(adj) && j < |adj|
    requires d >= 0.0 && Nonnegative(x)
    ensures Sweep(adj, d, x)[j] >= Teleport(|adj|, d)
  {
    var n := |adj|;
    PushFirstRaises(adj, d, x, Constant(n, Teleport(n, d)), n, j);
    DanglingSign(adj, x, n);
    assert Damped(d, DanglingFirst(adj, x, n)) >= 0.0;
    QuotientSign(Damped(d, DanglingFirst(adj, x, n)), n);
  }

  // ---- contraction ----

  function PartDistance(adj: seq<seq<nat>>, x: Vector, y: Vector, i: nat, dangling: bool): (r: real)
    requires |x| == |y| == |adj| && i <= |adj|
    ensures r >= 0.0
  {
    if i == 0 then 0.0
    else PartDistance(adj, x, y, i - 1, dangling) + if (adj[i - 1] == []) == dangling then Abs(x[i - 1] - y[i - 1]) else 0.0
  }

  lemma {:induction false} PartsDistance(adj: seq<seq<nat>>, x: Vector, y: Vector, i: nat)
    requires |x| == |y| == |adj| && i <= |adj|
    ensures PartDistance(adj, x, y, i, true) + PartDistance(adj, x, y, i, false) == Distance(x[..i], y[..i])
    ensures Abs(DanglingFirst(adj, x, i) - DanglingFirst(adj, y, i)) <= PartDistance(adj, x, y, i, true)
  {
    if i > 0 {
      PartsDistance(adj, x, y, i - 1);
      assert x[..i][..i - 1] == x[..i - 1] && y[..i][..i - 1] == y[..i - 1];
    }
  }

  // k times the difference of two k-th parts.
  lemma PartsApart(d: real, a: real, b: real, k: nat)
    requires d >= 0.0 && k > 0
    ensures Times(k, Abs(Damped(d, a) / k as real - Damped(d, b) / k as real)) == Damped(d, Abs(a - b))
  {
    var p, q := Damped(d, a) / k as real, Damped(d, b) / k as real;
    assert k as real * p == Damped(d, a) && k as real * q == Damped(d, b) by {
      Quotient(Damped(d, a), k);
      Quotient(Damped(d, b), k);
      TimesIsProduct(k, p);
      TimesIsProduct(k, q);
    }
    TimesIsProduct(k, Abs(p - q));
    ScaleAbs(k as real, p, q);
    ScaleAbs(d, a, b);
  }

  lemma ScaleAbs(c: real, a: real, b: real)
    requires c >= 0.0
    ensures c * Abs(a - b) == Abs(c * a - c * b)
  {
    assert c * (a - b) == c * a - c * b;
    if a >= b {
      assert c * (a - b) >= 0.0;
    } else {
      assert c * (b - a) >= 0.0;
      assert c * (b - a) == c * b - c * a;
    }
  }

  function HandedApart(adj: seq<seq<nat>>, d: real, x: Vector, y: Vector, i: nat): real
    requires |x| == |y| == |adj| && i <= |adj|
  {
    if i == 0 then 0.0
    else if adj[i - 1] == [] then HandedApart(adj, d, x, y, i - 1)
    else HandedApart(adj, d, x, y, i - 1) + Damped(d, Abs(x[i - 1] - y[i - 1]))
  }

  lemma {:induction false} HandedApartIsDamped(adj: seq<seq<nat>>, d: real, x: Vector, y: Vector, i: nat)
    requires |x| == |y| == |adj| && i <= |adj|
    ensures HandedApart(adj, d, x, y, i) == Damped(d, PartDistance(adj, x, y, i, false))
  {
    if i > 0 {
      HandedApartIsDamped(adj, d, x, y, i - 1);
      Distribute(d, PartDistance(adj, x, y, i - 1, false), Abs(x[i - 1] - y[i - 1]));
    }
  }

  lemma SharesApart(adj: seq<seq<nat>>, d: real, x: Vector, y: Vector, i: nat)
    requires |x| == |y| == |adj| && i < |adj| && adj[i] != []
    requires d >= 0.0
    ensures Times(|adj[i]|, Abs(Share(adj, d, x, i) - Share(adj, d, y, i))) == Damped(d, Abs(x[i] - y[i]))
  {
    PartsApart(d, x[i], y[i], |adj[i]|);
  }

  lemma PushShares(adj: seq<seq<nat>>, d: real, x: Vector, y: Vector, u: Vector, v: Vector, i: nat, r: real)
    requires |x| == |y| == |u| == |v| == |adj| && WellFormed(adj) && i < |adj| && adj[i] != []
    requires d >= 0.0 && Distance(u, v) <= r
    ensures Distance(Push(u, adj[i], Share(adj, d, x, i)), Push(v, adj[i], Share(adj, d, y, i))) <= r + Damped(d, Abs(x[i] - y[i]))
  {
    PushDistance(u, v, adj[i], Share(adj, d, x, i), Share(adj, d, y, i));
    SharesApart(adj, d, x, y, i);
  }

  lemma {:induction false} PushFirstDistance(adj: seq<seq<nat>>, d: real, x: Vector, y: Vector, base: Vector, i: nat)
    requires |x| == |y| == |base| == |adj| && WellFormed(adj) && i <= |adj|
    requires d >= 0.0
    ensures Distance(PushFirst(adj, d, x, base, i), PushFirst(adj, d, y, base, i)) <= HandedApart(adj, d, x, y, i)
  {
    if i == 0 {
      SelfDistance(base);
    } else {
      PushFirstDistance(adj, d, x, y, base, i - 1);
      if adj[i - 1] != [] {
        PushShares(adj, d, x, y, PushFirst(adj, d, x, base, i - 1), PushFirst(adj, d, y, base, i - 1), i - 1,
                   HandedApart(adj, d, x, y, i - 1));
      }
    }
  }

  lemma DanglingApart(adj: seq<seq<nat>>, d: real, x: Vector, y: Vector)
    requires |x| == |y| == |adj| > 0
    requires d >= 0.0
    ensures Times(|adj|, Abs(Dangling(adj, d, x) - Dangling(adj, d, y))) <= Damped(d, PartDistance(adj, x, y, |adj|, true))
  {
    var a, b := DanglingFirst(adj, x, |adj|), DanglingFirst(adj, y, |adj|);
    PartsApart(d, a, b, |adj|);
    assert Abs(a - b) <= PartDistance(adj, x, y, |adj|, true) by {
      PartsDistance(adj, x, y, |adj|);
    }
    ScaleUp(d, Abs(a - b), PartDistance(adj, x, y, |adj|, true));
  }

  lemma SweepsApart(adj: seq<seq<nat>>, d: real, x: Vector, y: Vector)
    requires |x| == |y| == |adj| > 0 && WellFormed(adj)
    requires d >= 0.0
    ensures Distance(Sweep(adj, d, x), Sweep(adj, d, y))
         <= HandedApart(adj, d, x, y, |adj|) + Times(|adj|, Abs(Dangling(adj, d, x) - Dangling(adj, d, y)))
  {
    var base := Constant(|adj|, Teleport(|adj|, d));
    PushFirstDistance(adj, d, x, y, base, |adj|);
    RaiseDistance(PushFirst(adj, d, x, base, |adj|), PushFirst(adj, d, y, base, |adj|), Dangling(adj, d, x), Dangling(adj, d, y));
  }

  /** A sweep brings any two vectors closer by the factor `d`. */
  lemma SweepContracts(adj: seq<seq<nat>>, d: real, x: Vector, y: Vector)
    requires |x| == |y| == |adj| > 0 && WellFormed(adj)
    requires d >= 0.0
    ensures Distance(Sweep(adj, d, x), Sweep(adj, d, y)) <= Damped(d, Distance(x, y))
  {
    var n := |adj|;
    SweepsApart(adj, d, x, y);
    HandedApartIsDamped(adj, d, x, y, n);
    DanglingApart(adj, d, x, y);
    Distribute(d, PartDistance(adj, x, y, n, false), PartDistance(adj, x, y, n, true));
    assert PartDistance(adj, x, y, n, false) + PartDistance(adj, x, y, n, true) == Distance(x, y) by {
      PartsDistance(adj, x, y, n);
      assert x[..n] == x && y[..n] == y;
    }
  }

  lemma ScaleUp(c: real, a: real, b: real)
    requires c >= 0.0 && a <= b
    ensures Damped(c, a) <= Damped(c, b)
  {
    assert c * (b - a) >= 0.0;
    assert c * (b - a) == c * b - c * a;
  }

  // ---- iteration ----

  function Pow(d: real, t: nat): real {
    if t == 0 then 1.0 else Damped(d, Pow(d, t - 1))
  }

  ghost predicate Fixed(adj: seq<seq<nat>>, d: real, p: Vector) {
    && |p| == |adj| > 0 && WellFormed(adj)
    && Sweep(adj, d, p) == p
  }

  lemma UniformTotal(n: nat)
    requires n > 0
    ensures Total(Uniform(n)) == 1.0
    ensures forall j | 0 <= j < n :: Uniform(n)[j] > 0.0
  {
    ConstantTotal(n, 1.0 / n as real);
    Quotient(1.0, n);
    QuotientSign(1.0, n);
  }

  /** Every iterate has total 1 and no score below zero; from the first sweep on, none below the
      teleport share. */
  lemma {:induction false} IterateFacts(adj: seq<seq<nat>>, d: real, t: nat)
    requires |adj| > 0 && WellFormed(adj)
    requires 0.0 <= d < 1.0
    ensures Total(Iterate(adj, d, t)) == 1.0
    ensures forall j | 0 <= j < |adj| :: Iterate(adj, d, t)[j] > 0.0
    ensures t > 0 ==> forall j | 0 <= j < |adj| :: Iterate(adj, d, t)[j] >= Teleport(|adj|, d)
  {
    if t == 0 {
      UniformTotal(|adj|);
    } else {
      var x := Iterate(adj, d, t - 1);
      IterateFacts(adj, d, t - 1);
      SweepTotal(adj, d, x);
      QuotientSign(1.0 - d, |adj|);
      forall j | 0 <= j < |adj| ensures Iterate(adj, d, t)[j] >= Teleport(|adj|, d) > 0.0 {
        SweepFloor(adj, d, x, j);
      }
    }
  }

  // The sweep of the zero vector, and its size.
  lemma SweepOfZero(adj: seq<seq<nat>>, d: real)
    requires |adj| > 0 && WellFormed(adj)
    requires 0.0 <= d < 1.0
    ensures
      var zero := Constant(|adj|, 0.0);
      Distance(Sweep(adj, d, zero), zero) == 1.0 - d
  {
    var zero := Constant(|adj|, 0.0);
    var s := Sweep(adj, d, zero);
    QuotientSign(1.0 - d, |adj|);
    forall j | 0 <= j < |s| ensures s[j] >= 0.0 {
      SweepFloor(adj, d, zero, j);
    }
    Norm(s);
    SweepTotal(adj, d, zero);
    ConstantTotal(|adj|, 0.0);
    TimesIsProduct(|adj|, 0.0);
  }

  // A fixed point is no larger than a distribution.
  lemma FixedNorm(adj: seq<seq<nat>>, d: real, p: Vector)
    requires Fixed(adj, d, p) && 0.0 <= d < 1.0
    ensures Distance(p, Constant(|adj|, 0.0)) <= 1.0
  {
    var zero := Constant(|adj|, 0.0);
    SweepContracts(adj, d, p, zero);
    SweepOfZero(adj, d);
    Triangle(Sweep(adj, d, p), Sweep(adj, d, zero), zero);
    AtMostOne(d, Distance(p, zero));
  }

  lemma AtMostOne(d: real, r: real)
    requires 0.0 <= d < 1.0 && r <= Damped(d, r) + (1.0 - d)
    ensures r <= 1.0
  {
    assert (1.0 - d) * r == r - d * r;
    Cancel(1.0 - d, r, 1.0);
  }

  lemma AtMostZero(d: real, r: real)
    requires 0.0 <= d < 1.0 && r <= Damped(d, r)
    ensures r <= 0.0
  {
    assert (1.0 - d) * r == r - d * r;
    Cancel(1.0 - d, r, 0.0);
  }

  lemma Nearer(d: real, a: real, b: real, q: real)
    requires d >= 0.0 && a <= 2.0 * q && b <= Damped(d, a)
    ensures b <= 2.0 * Damped(d, q)
  {
    ScaleUp(d, a, 2.0 * q);
    assert d * (2.0 * q) == 2.0 * (d * q);
  }

  /** After `t` sweeps the scores are within 2 * d^t of every fixed point. */
  lemma DistanceToFixed(adj: seq<seq<nat>>, d: real, p: Vector, t: nat)
    requires Fixed(adj, d, p) && 0.0 <= d < 1.0
    ensures Distance(Iterate(adj, d, t), p) <= 2.0 * Pow(d, t)
  {
    StartToFixed(adj, d, p);
    var q := 1.0;
    for i := 0 to t
      invariant q == Pow(d, i)
      invariant Distance(Iterate(adj, d, i), p) <= 2.0 * q
    {
      StaysWithin(adj, d, p, i, q);
      q := Damped(d, q);
    }
  }

  lemma StaysWithin(adj: seq<seq<nat>>, d: real, p: Vector, i: nat, q: real)
    requires Fixed(adj, d, p) && 0.0 <= d < 1.0
    requires Distance(Iterate(adj, d, i), p) <= 2.0 * q
    ensures Distance(Iterate(adj, d, i + 1), p) <= 2.0 * Damped(d, q)
  {
    OneSweepNearer(adj, d, p, Iterate(adj, d, i), q);
  }

  lemma OneSweepNearer(adj: seq<seq<nat>>, d: real, p: Vector, x: Vector, q: real)
    requires Fixed(adj, d, p) && 0.0 <= d < 1.0
    requires |x| == |adj| && Distance(x, p) <= 2.0 * q
    ensures Distance(Sweep(adj, d, x), p) <= 2.0 * Damped(d, q)
  {
    SweepContracts(adj, d, x, p);
    Nearer(d, Distance(x, p), Distance(Sweep(adj, d, x), p), q);
  }

  lemma StartToFixed(adj: seq<seq<nat>>, d: real, p: Vector)
    requires Fixed(adj, d, p) && 0.0 <= d < 1.0
    ensures Distance(Uniform(|adj|), p) <= 2.0
  {
    var zero, x := Constant(|adj|, 0.0), Uniform(|adj|);
    UniformTotal(|adj|);
    Norm(x);
    FixedNorm(adj, d, p);
    SwapDistance(p, zero);
    Triangle(x, zero, p);
  }

  /** With no fixed point assumed: from sweep `t` on, however many more, the scores stay within 2 * d^t. */
  lemma {:induction false} IteratesNear(adj: seq<seq<nat>>, d: real, t: nat, k: nat)
    requires |adj| > 0 && WellFormed(adj) && 0.0 <= d < 1.0
    ensures Distance(Iterate(adj, d, t), Iterate(adj, d, t + k)) <= 2.0 * Pow(d, t)
  {
    if t == 0 {
      StartNear(adj, d, k);
    } else {
      IteratesNear(adj, d, t - 1, k);
      SweepContracts(adj, d, Iterate(adj, d, t - 1), Iterate(adj, d, t - 1 + k));
      Nearer(d, Distance(Iterate(adj, d, t - 1), Iterate(adj, d, t - 1 + k)), Distance(Iterate(adj, d, t), Iterate(adj, d, t + k)),
             Pow(d, t - 1));
    }
  }

  lemma {:induction false} StartNear(adj: seq<seq<nat>>, d: real, k: nat)
    requires |adj| > 0 && WellFormed(adj) && 0.0 <= d < 1.0
    ensures Distance(Iterate(adj, d, 0), Iterate(adj, d, k)) <= 2.0
  {
    var zero, x, y := Constant(|adj|, 0.0), Iterate(adj, d, 0), Iterate(adj, d, k);
    IterateFacts(adj, d, 0);
    IterateFacts(adj, d, k);
    Norm(x);
    Norm(y);
    SwapDistance(y, zero);
    Triangle(x, zero, y);
  }

  /** There is at most one fixed point. */
  lemma FixedUnique(adj: seq<seq<nat>>, d: real, p: Vector, q: Vector)
    requires Fixed(adj, d, p) && Fixed(adj, d, q) && 0.0 <= d < 1.0
    ensures p == q
  {
    SweepContracts(adj, d, p, q);
    AtMostZero(d, Distance(p, q));
    ZeroDistance(p, q);
  }

  /** Stopping once a sweep moves less than `tol` leaves at most tol * d / (1 - d) to go. */
  lemma EarlyStop(adj: seq<seq<nat>>, d: real, p: Vector, x: Vector, tol: real)
    requires Fixed(adj, d, p) && 0.0 <= d < 1.0
    requires |x| == |adj| && Distance(Sweep(adj, d, x), x) < tol
    ensures Distance(Sweep(adj, d, x), p) <= tol * d / (1.0 - d)
  {
    var y := Sweep(adj, d, x);
    SweepContracts(adj, d, x, p);
    Triangle(x, y, p);
    SwapDistance(x, y);
    ScaleUp(d, Distance(x, p), tol + Distance(y, p));
    StopBound(d, tol, Distance(y, p));
  }

  lemma StopBound(d: real, tol: real, r: real)
    requires 0.0 <= d < 1.0 && r <= Damped(d, tol + r)
    ensures r <= tol * d / (1.0 - d)
  {
    var c, b := 1.0 - d, tol * d;
    assert d * (tol + r) == tol * d + d * r;
    assert c * r == r - d * r;
    DivideThrough(c, r, b);
  }

  lemma DivideThrough(c: real, r: real, b: real)
    requires c > 0.0 && c * r <= b
    ensures r <= b / c
  {
    var q := b / c;
    assert c * q == b;
    Cancel(c, r, q);
  }

  lemma Cancel(c: real, r: real, q: real)
    requires c > 0.0 && c * r <= c * q
    ensures r <= q
  {
    assert c * (r - q) == c * r - c * q;
  }

  // ---- the normalised result ----

  function Max(v: Vector): (m: real)
    requires v != []
    ensures m in v && forall i | 0 <= i < |v| :: v[i] <= m
  {
    if |v| == 1 then v[0]
    else
      var m := Max(v[..|v| - 1]);
      assert m in v[..|v| - 1];
      if v[|v| - 1] > m then v[|v| - 1] else m
  }

  function Normalized(v: Vector): Vector
    requires v != [] && Max(v) != 0.0
  {
    seq(|v|, i requires 0 <= i < |v| => v[i] / Max(v))
  }

  lemma {:induction false} MaxIs(v: Vector, j: nat)
    requires j < |v| && forall k | 0 <= k < |v| :: v[k] <= v[j]
    ensures Max(v) == v[j]
  {
    var k :| 0 <= k < |v| && v[k] == Max(v);
  }

  /** Normalising divides every score by the greatest. */
  lemma {:induction false} NormalizedExactly(v: Vector, i: nat, j: nat)
    requires i < |v| && j < |v| && v[j] > 0.0 && forall k | 0 <= k < |v| :: v[k] <= v[j]
    ensures Max(v) == v[j] && |Normalized(v)| == |v| && Normalized(v)[i] == v[i] / v[j]
  {
    MaxIs(v, j);
  }

  lemma NormalizedRange(v: Vector)
    requires v != [] && forall i | 0 <= i < |v| :: v[i] > 0.0
    ensures Max(v) > 0.0
    ensures forall i | 0 <= i < |v| :: 0.0 < Normalized(v)[i] <= 1.0
    ensures exists i | 0 <= i < |v| :: Normalized(v)[i] == 1.0
  {
    var m := Max(v);
    var k :| 0 <= k < |v| && v[k] == m;
    Ratio(m, m);
    assert Normalized(v)[k] == 1.0;
    forall i | 0 <= i < |v| ensures 0.0 < Normalized(v)[i] <= 1.0 {
      Ratio(v[i], m);
    }
  }

  lemma Ratio(a: real, m: real)
    requires 0.0 < a <= m
    ensures 0.0 < a / m <= 1.0
    ensures a == m ==> a / m == 1.0
  {
    var q := a / m;
    assert m * q == a;
    Cancel(m, q, 1.0);
    if a == m {
      Cancel(m, 1.0, q);
    }
  }

  // The sweep after which the loop stops.
  ghost predicate StopsAt(adj: seq<seq<nat>>, d: real, iterations: nat, tol: real, t: nat)
    requires |adj| > 0 && WellFormed(adj)
  {
    && t <= iterations
    && (t < iterations ==> t > 0 && Moved(adj, d, t) < tol)
    && (forall s | 0 < s < t :: Moved(adj, d, s) >= tol)
  }

  function Moved(adj: seq<seq<nat>>, d: real, t: nat): real
    requires |adj| > 0 && WellFormed(adj) && t > 0
  {
    Distance(Iterate(adj, d, t), Iterate(adj, d, t - 1))
  }

  method OneSweep(adj: seq<seq<nat>>, d: real, score: Vector) returns (nxt: Vector)
    requires |score| == |adj| > 0 && WellFormed(adj)
    ensures nxt == Sweep(adj, d, score)
  {
    var n := |adj|;
    var dangling := 0.0;
    for i := 0 to n
      invariant dangling == DanglingFirst(adj, score, i)
    {
      if adj[i] == [] {
        dangling := dangling + score[i];
      }
    }
    nxt := PushScores(adj, d, score, Constant(n, Teleport(n, d)));
    nxt := AddToAll(nxt, Damped(d, dangling) / n as real);
  }

  method PushScores(adj: seq<seq<nat>>, d: real, score: Vector, base: Vector) returns (nxt: Vector)
    requires |score| == |base| == |adj| && WellFormed(adj)
    ensures nxt == PushFirst(adj, d, score, base, |adj|)
  {
    nxt := base;
    for i := 0 to |adj|
      invariant nxt == PushFirst(adj, d, score, base, i)
    {
      if adj[i] != [] {
        var share := Share(adj, d, score, i);
        ghost var before := nxt;
        for k := 0 to |adj[i]|
          invariant nxt == Push(before, adj[i][..k], share)
        {
          assert adj[i][..k + 1][..k] == adj[i][..k];
          nxt := nxt[adj[i][k] := nxt[adj[i][k]] + share];
        }
        assert adj[i][..|adj[i]|] == adj[i];
      }
    }
  }

  method AddToAll(v: Vector, c: real) returns (nxt: Vector)
    ensures nxt == Raise(v, c)
  {
    nxt := v;
    for i := 0 to |v|
      invariant |nxt| == |v|
      invariant forall j | 0 <= j < |v| :: nxt[j] == if j < i then v[j] + c else v[j]
    {
      nxt := nxt[i := nxt[i] + c];
    }
  }

  /** `pagerank`: the normalised scores of the sweep at which it stops, each in (0, 1], the top one
      exactly 1. */
  method Centrality(n: nat, edges: seq<(int, int)>, d: real, iterations: nat, tol: real) returns (scores: Vector)
    requires 0.0 <= d < 1.0
    ensures n == 0 ==> scores == []
    ensures n > 0 ==> exists t ::
      && StopsAt(Adjacency(n, edges), d, iterations, tol, t)
      && Max(Iterate(Adjacency(n, edges), d, t)) != 0.0
      && scores == Normalized(Iterate(Adjacency(n, edges), d, t))
    ensures |scores| == n && forall i | 0 <= i < n :: 0.0 < scores[i] <= 1.0
    ensures n > 0 ==> exists i | 0 <= i < n :: scores[i] == 1.0
  {
    if n == 0 {
      return [];
    }
    var adj := Adjacency(n, edges);
    var score := Uniform(n);
    var t := 0;
    var done := false;
    while t < iterations && !done
      invariant score == Iterate(adj, d, t)
      invariant t <= iterations
      invariant forall s | 0 < s < t :: Moved(adj, d, s) >= tol
      invariant !done ==> t > 0 ==> Moved(adj, d, t) >= tol
      invariant done ==> t > 0 && Moved(adj, d, t) < tol
      decreases iterations - t, !done
    {
      var nxt := OneSweep(adj, d, score);
      done := Distance(nxt, score) < tol;
      score := nxt;
      t := t + 1;
    }
    IterateFacts(adj, d, t);
    NormalizedRange(score);
    assert StopsAt(adj, d, iterations, tol, t);
    scores := Normalized(score);
  }
}
