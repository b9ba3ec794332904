/** The embedding cache: transparent, and holding exactly the most recently used keys. */
module EmbeddingCache {
  import opened Common

  type Vec = seq<real>

  // The digest of a key is taken to be injective, so a key is what goes into it: the tenant, the
  // embedder's identity (model, version, dimensions) and the text.
  datatype CacheKey = CacheKey(tenant: string, model: string, text: string)

  // The embedder of each identity, as a function.
  type Embedder = (string, string) -> Vec

  function VectorOf(embedder: Embedder, k: CacheKey): Vec {
    embedder(k.model, k.text)
  }

  // ---- recency ----

  function Remove<T(==)>(s: seq<T>, x: T): (r: seq<T>)
    ensures |r| <= |s|
  {
    if s == [] then []
    else if s[|s| - 1] == x then Remove(s[..|s| - 1], x)
    else Remove(s[..|s| - 1], x) + [s[|s| - 1]]
  }

  function Touch<T(==)>(s: seq<T>, x: T): seq<T> {
    Remove(s, x) + [x]
  }

  // The keys ever used, each at its latest use.
  function Latest<T(==)>(uses: seq<T>): seq<T> {
    if uses == [] then [] else Touch(Latest(uses[..|uses| - 1]), uses[|uses| - 1])
  }

  function LastOf<T>(s: seq<T>, n: nat): seq<T> {
    if |s| <= n then s else s[|s| - n..]
  }

  function LastUse<T(==)>(uses: seq<T>, x: T): (i: int)
    ensures -1 <= i < |uses|
  {
    if uses == [] then -1 else if uses[|uses| - 1] == x then |uses| - 1 else LastUse(uses[..|uses| - 1], x)
  }

  // The bounded order after one use: the key moves to the end, and the oldest goes if there are too many.
  function Use<T(==)>(s: seq<T>, x: T, max: nat): seq<T> {
    LastOf(Touch(s, x), max)
  }

  lemma {:induction false} RemoveFacts<T>(s: seq<T>, x: T)
    requires NoDup(s)
    ensures NoDup(Remove(s, x)) && Elems(Remove(s, x)) == Elems(s) - {x}
    ensures x !in s ==> Remove(s, x) == s
    ensures x in s ==> |Remove(s, x)| == |s| - 1
  {
    if s != [] {
      var p, last := s[..|s| - 1], s[|s| - 1];
      RemoveFacts(p, x);
      LastElems(s);
      assert last !in Elems(p);
      if last != x {
        assert last !in Elems(Remove(p, x));
        SnocElems(Remove(p, x), last);
        assert x in s <==> x in Elems(s);
        assert x in p <==> x in Elems(p);
      } else {
        assert Remove(p, x) == p;
      }
    }
  }

  lemma TouchFacts<T>(s: seq<T>, x: T)
    requires NoDup(s)
    ensures NoDup(Touch(s, x)) && Elems(Touch(s, x)) == Elems(s) + {x}
    ensures |Touch(s, x)| == if x in s then |s| else |s| + 1
  {
    RemoveFacts(s, x);
    assert x !in Elems(Remove(s, x));
    SnocElems(Remove(s, x), x);
  }

  lemma {:induction false} LatestFacts<T>(uses: seq<T>)
    ensures NoDup(Latest(uses)) && Elems(Latest(uses)) == Elems(uses)
  {
    if uses != [] {
      LatestFacts(uses[..|uses| - 1]);
      TouchFacts(Latest(uses[..|uses| - 1]), uses[|uses| - 1]);
      LastElems(uses);
    }
  }

  lemma {:induction false} RemoveAt<T>(s: seq<T>, x: T, i: nat) returns (j: nat)
    requires i < |Remove(s, x)|
    ensures i <= j < |s| && s[j] == Remove(s, x)[i] != x
  {
    var p := s[..|s| - 1];
    if i < |Remove(p, x)| {
      j := RemoveAt(p, x, i);
    } else {
      j := |s| - 1;
    }
  }

  lemma {:induction false} RemoveKeepsOrder<T>(s: seq<T>, x: T, a: nat, b: nat) returns (i: nat, j: nat)
    requires a < b < |Remove(s, x)|
    ensures i < j < |s| && s[i] == Remove(s, x)[a] != x && s[j] == Remove(s, x)[b] != x
  {
    var p := s[..|s| - 1];
    if b < |Remove(p, x)| {
      i, j := RemoveKeepsOrder(p, x, a, b);
    } else {
      i := RemoveAt(p, x, a);
      j := |s| - 1;
    }
  }

  /** `Latest` is in order of last use. */
  lemma {:induction false} LatestByUse<T>(uses: seq<T>, a: nat, b: nat)
    requires a < b < |Latest(uses)|
    ensures LastUse(uses, Latest(uses)[a]) < LastUse(uses, Latest(uses)[b])
  {
    var p, x := uses[..|uses| - 1], uses[|uses| - 1];
    var rest := Remove(Latest(p), x);
    if b < |rest| {
      var i, j := RemoveKeepsOrder(Latest(p), x, a, b);
      LatestByUse(p, i, j);
    } else {
      var i := RemoveAt(Latest(p), x, a);
    }
  }

  // ---- the bounded store against the whole history ----

  lemma LastSnoc<T>(s: seq<T>, y: T, m: nat)
    ensures LastOf(s + [y], m + 1) == LastOf(s, m) + [y]
  {
  }

  lemma RemoveSnoc<T>(s: seq<T>, y: T, x: T)
    ensures Remove(s + [y], x) == if y == x then Remove(s, x) else Remove(s, x) + [y]
  {
    assert (s + [y])[..|s|] == s;
  }

  lemma LastIn<T>(s: seq<T>, m: nat, x: T)
    requires x !in s
    ensures x !in LastOf(s, m)
  {
  }

  lemma {:induction false} RemoveAbsent<T>(s: seq<T>, x: T)
    requires x !in s
    ensures Remove(s, x) == s
  {
    if s != [] {
      RemoveAbsent(s[..|s| - 1], x);
      assert s == s[..|s| - 1] + [s[|s| - 1]];
    }
  }

  // The newest `m` left after a removal come from the newest `m + 1` before it.
  lemma {:induction false} RemoveLast<T>(s: seq<T>, x: T, m: nat)
    requires NoDup(s)
    ensures LastOf(Remove(s, x), m) == LastOf(Remove(LastOf(s, m + 1), x), m)
  {
    if s == [] {
    } else {
      var p, y := s[..|s| - 1], s[|s| - 1];
      assert s == p + [y];
      LastSnoc(p, y, m);
      RemoveSnoc(p, y, x);
      RemoveSnoc(LastOf(p, m), y, x);
      if y == x {
        LastIn(p, m, x);
        RemoveAbsent(p, x);
        RemoveAbsent(LastOf(p, m), x);
      } else if m > 0 {
        RemoveLast(p, x, m - 1);
        LastSnoc(Remove(p, x), y, m - 1);
        LastSnoc(Remove(LastOf(p, m), x), y, m - 1);
      }
    }
  }

  /** Using a key on the last `max` of an order gives the last `max` of using it on the whole order. */
  lemma UseOnSuffix<T>(s: seq<T>, x: T, max: nat)
    requires NoDup(s)
    ensures Use(LastOf(s, max), x, max) == LastOf(Touch(s, x), max)
  {
    if max == 0 {
      LastNone(Touch(LastOf(s, max), x));
      LastNone(Touch(s, x));
    } else {
      UseOnSome(s, x, max - 1);
    }
  }

  lemma UseOnSome<T>(s: seq<T>, x: T, m: nat)
    requires NoDup(s)
    ensures LastOf(Touch(LastOf(s, m + 1), x), m + 1) == LastOf(Touch(s, x), m + 1)
  {
    RemoveLast(s, x, m);
    LastSnoc(Remove(s, x), x, m);
    LastSnoc(Remove(LastOf(s, m + 1), x), x, m);
  }

  lemma LastNone<T>(s: seq<T>)
    ensures LastOf(s, 0) == []
  {
  }

  function UseAll<T(==)>(s: seq<T>, xs: seq<T>, max: nat): seq<T> {
    if xs == [] then s else Use(UseAll(s, xs[..|xs| - 1], max), xs[|xs| - 1], max)
  }

  lemma {:induction false} UseAllIsRecent<T>(before: seq<T>, xs: seq<T>, max: nat)
    ensures UseAll(LastOf(Latest(before), max), xs, max) == LastOf(Latest(before + xs), max)
  {
    if xs == [] {
      assert before + xs == before;
    } else {
      var p, x := xs[..|xs| - 1], xs[|xs| - 1];
      UseAllIsRecent(before, p, max);
      assert (before + xs)[..|before + xs| - 1] == before + p;
      LatestFacts(before + p);
      UseOnSuffix(Latest(before + p), x, max);
    }
  }

  // ---- calls ----

  // `One` embeds a single text, `Many` a batch of them.
  datatype Call = One(key: CacheKey) | Many(keys: seq<CacheKey>)

  function Hits<T(==)>(s: seq<T>, store: set<T>): (h: seq<T>)
    ensures forall i | 0 <= i < |h| :: h[i] in store
  {
    if s == [] then []
    else
      var before, x := Hits(s[..|s| - 1], store), s[|s| - 1];
      if x in store then before + [x] else before
  }

  function Misses<T(==)>(s: seq<T>, store: set<T>): (m: seq<T>)
    ensures forall i | 0 <= i < |m| :: m[i] in s && m[i] !in store
  {
    if s == [] then []
    else
      var before, x := Misses(s[..|s| - 1], store), s[|s| - 1];
      if x in store then before else before + [x]
  }

  // The keys one call uses, in the order it uses them: in a batch the hits first, then the misses.
  function UsesOf(order: seq<CacheKey>, c: Call): seq<CacheKey> {
    match c
    case One(k) => [k]
    case Many(ks) => Hits(Distinct(ks), Elems(order)) + Misses(Distinct(ks), Elems(order))
  }

  function OrderAfter(order: seq<CacheKey>, c: Call, max: nat): seq<CacheKey> {
    UseAll(order, UsesOf(order, c), max)
  }

  function After(calls: seq<Call>, max: nat): seq<CacheKey> {
    if calls == [] then [] else OrderAfter(After(calls[..|calls| - 1], max), calls[|calls| - 1], max)
  }

  function History(calls: seq<Call>, max: nat): seq<CacheKey> {
    if calls == [] then []
    else History(calls[..|calls| - 1], max) + UsesOf(After(calls[..|calls| - 1], max), calls[|calls| - 1])
  }

  /** After any calls the cache holds the `max` most recently used distinct keys, oldest first. */
  lemma {:induction false} HoldsMostRecent(calls: seq<Call>, max: nat)
    ensures After(calls, max) == LastOf(Latest(History(calls, max)), max)
  {
    if calls != [] {
      var p := calls[..|calls| - 1];
      HoldsMostRecent(p, max);
      UseAllIsRecent(History(p, max), UsesOf(After(p, max), calls[|calls| - 1]), max);
    }
  }

  lemma RestApart<T>(s: seq<T>, n: nat, x: T)
    requires NoDup(s) && n <= |s| && x in s[..n]
    ensures x !in s[n..]
  {
    if x in s[n..] {
      var i :| 0 <= i < n && s[..n][i] == x;
      var j :| 0 <= j < |s[n..]| && s[n..][j] == x;
      NoDupAt(s, i, n + j);
    }
  }

  lemma InLast<T>(s: seq<T>, max: nat, i: nat)
    requires NoDup(s) && i < |s|
    ensures s[i] in LastOf(s, max) <==> |s| - 1 - i < max
  {
    if |s| > max {
      var n := |s| - max;
      if n <= i {
        assert s[n..][i - n] == s[i];
      } else {
        assert s[..n][i] == s[i];
        RestApart(s, n, s[i]);
      }
    }
  }

  /** So a key is in the cache exactly when fewer than `max` other keys were used since its last use. */
  lemma CachedExactly(calls: seq<Call>, max: nat, i: nat)
    requires i < |Latest(History(calls, max))|
    ensures Latest(History(calls, max))[i] in After(calls, max) <==> |Latest(History(calls, max))| - 1 - i < max
  {
    HoldsMostRecent(calls, max);
    LatestFacts(History(calls, max));
    InLast(Latest(History(calls, max)), max, i);
  }

  // ---- the cache as an object ----

  lemma UseMissing<T>(s: seq<T>, x: T, max: nat)
    requires NoDup(s) && x !in s && |s| <= max
    ensures Use(s, x, max) == if |s| == max then (s + [x])[1..] else s + [x]
    ensures NoDup(s + [x]) && Elems(s + [x]) == Elems(s) + {x}
  {
    RemoveAbsent(s, x);
    SnocElems(s, x);
  }

  lemma DropFirst<T>(s: seq<T>)
    requires NoDup(s) && s != []
    ensures NoDup(s[1..]) && Elems(s[1..]) == Elems(s) - {s[0]}
  {
    NoDupRest(s, 1);
    assert s == [s[0]] + s[1..];
    AppendElems([s[0]], s[1..]);
    assert s[..1][0] == s[0];
    RestApart(s, 1, s[0]);
    assert s[0] !in Elems(s[1..]);
  }

  // The recency order lists the stored keys, each once and no more than fit, with the embedder's vectors.
  ghost predicate Consistent(embedder: Embedder, order: seq<CacheKey>, vectors: map<CacheKey, Vec>, max: nat) {
    NoDup(order) && Elems(order) == vectors.Keys && |order| <= max && Truthful(embedder, vectors)
  }

  lemma InsertConsistent(embedder: Embedder, order: seq<CacheKey>, vectors: map<CacheKey, Vec>, k: CacheKey, max: nat)
    requires Consistent(embedder, order, vectors, max) && k !in vectors
    ensures var o, v := order + [k], vectors[k := VectorOf(embedder, k)];
      if |o| > max then Use(order, k, max) == o[1..] && Consistent(embedder, o[1..], v - {o[0]}, max)
      else Use(order, k, max) == o && Consistent(embedder, o, v, max)
  {
    assert k !in Elems(order);
    UseMissing(order, k, max);
    var o, v := order + [k], vectors[k := VectorOf(embedder, k)];
    assert Truthful(embedder, v) && Elems(o) == v.Keys;
    if |o| > max {
      EvictConsistent(embedder, o, v);
    }
  }

  lemma EvictConsistent(embedder: Embedder, order: seq<CacheKey>, vectors: map<CacheKey, Vec>)
    requires order != [] && Consistent(embedder, order, vectors, |order|)
    ensures Consistent(embedder, order[1..], vectors - {order[0]}, |order| - 1)
  {
    DropFirst(order);
  }

  predicate Truthful(embedder: Embedder, result: map<CacheKey, Vec>) {
    forall k | k in result :: result[k] == VectorOf(embedder, k)
  }

  // Some keys answered on top of those already served.
  function Answered(embedder: Embedder, served: map<CacheKey, Vec>, misses: seq<CacheKey>): map<CacheKey, Vec> {
    if misses == [] then served
    else Answered(embedder, served, misses[..|misses| - 1])[misses[|misses| - 1] := VectorOf(embedder, misses[|misses| - 1])]
  }

  lemma AnsweredSnoc(embedder: Embedder, served: map<CacheKey, Vec>, keys: seq<CacheKey>, k: CacheKey)
    ensures Answered(embedder, served, keys + [k]) == Answered(embedder, served, keys)[k := VectorOf(embedder, k)]
  {
    assert (keys + [k])[..|keys|] == keys;
  }

  lemma {:induction false} AnsweredFacts(embedder: Embedder, served: map<CacheKey, Vec>, misses: seq<CacheKey>)
    requires Truthful(embedder, served)
    ensures Answered(embedder, served, misses).Keys == served.Keys + Elems(misses)
    ensures Truthful(embedder, Answered(embedder, served, misses))
  {
    if misses != [] {
      AnsweredFacts(embedder, served, misses[..|misses| - 1]);
      LastElems(misses);
    }
  }

  predicate Apart<T(==)>(s: seq<T>, store: set<T>) {
    forall i | 0 <= i < |s| :: s[i] !in store
  }

  lemma StillApart<T>(s: seq<T>, i: nat, order: seq<T>, max: nat)
    requires NoDup(s) && NoDup(order) && i < |s| && Apart(s[i..], Elems(order))
    ensures Apart(s[i + 1..], Elems(Use(order, s[i], max)))
  {
    var now, rest := s[i..], s[i + 1..];
    forall j | 0 <= j < |rest| ensures rest[j] !in Elems(Use(order, s[i], max)) {
      assert rest[j] == now[j + 1] == s[i + 1 + j];
      NoDupAt(s, i, i + 1 + j);
      UseWithin(order, s[i], max, s[i + 1 + j]);
    }
  }

  lemma SplitStep<T>(s: seq<T>, i: nat, store: set<T>)
    requires i < |s|
    ensures Hits(s[..i + 1], store) == if s[i] in store then Hits(s[..i], store) + [s[i]] else Hits(s[..i], store)
    ensures Misses(s[..i + 1], store) == if s[i] in store then Misses(s[..i], store) else Misses(s[..i], store) + [s[i]]
  {
    assert s[..i + 1][..i] == s[..i];
  }

  class Cache {
    var order: seq<CacheKey>
    var vectors: map<CacheKey, Vec>
    var hits: nat
    var lookups: nat
    const maxSize: nat

    ghost predicate Valid(embedder: Embedder)
      reads this
    {
      Consistent(embedder, order, vectors, maxSize) && hits <= lookups
    }

    constructor (maxSize: nat)
      ensures this.maxSize == maxSize && order == [] && vectors == map[] && hits == lookups == 0
    {
      this.maxSize := maxSize;
      order, vectors, hits, lookups := [], map[], 0, 0;
    }

    // Puts a missing key at the end and evicts the least recently used one when the cache is over-full.
    method StoreMiss(embedder: Embedder, k: CacheKey, vec: Vec)
      requires Valid(embedder) && k !in vectors && vec == VectorOf(embedder, k)
      modifies this`order, this`vectors
      ensures Valid(embedder) && order == Use(old(order), k, maxSize)
    {
      InsertConsistent(embedder, order, vectors, k, maxSize);
      order := order + [k];
      vectors := vectors[k := vec];
      if |order| > maxSize {
        var oldest := order[0];
        order := order[1..];
        vectors := vectors - {oldest};
      }
    }

    // Moves a cached key to the end.
    method Bump(embedder: Embedder, k: CacheKey)
      requires Valid(embedder) && k in vectors
      modifies this`order
      ensures Valid(embedder) && order == Use(old(order), k, maxSize)
      ensures Elems(order) == old(Elems(order))
    {
      assert k in Elems(order);
      TouchFacts(order, k);
      order := Remove(order, k) + [k];
    }

    /** One text: always the embedder's own vector. */
    method Embed(embedder: Embedder, k: CacheKey) returns (vec: Vec)
      requires Valid(embedder)
      modifies this
      ensures Valid(embedder) && vec == embedder(k.model, k.text)
      ensures order == OrderAfter(old(order), One(k), maxSize)
      ensures lookups == old(lookups) + 1 && hits == old(hits) + if k in old(vectors) then 1 else 0
    {
      assert [k][..0] == [] && UseAll(order, [k], maxSize) == Use(order, k, maxSize);
      lookups := lookups + 1;
      if k in vectors {
        hits := hits + 1;
        Bump(embedder, k);
        vec := vectors[k];
      } else {
        vec := VectorOf(embedder, k);
        StoreMiss(embedder, k, vec);
      }
    }

    // One lookup: a hit is counted and bumped.
    method Look(embedder: Embedder, k: CacheKey) returns (found: Option<Vec>)
      requires Valid(embedder)
      modifies this
      ensures Valid(embedder) && vectors == old(vectors) && Elems(order) == old(Elems(order))
      ensures found == if k in old(Elems(order)) then Some(VectorOf(embedder, k)) else None
      ensures order == if k in old(Elems(order)) then Use(old(order), k, maxSize) else old(order)
      ensures lookups == old(lookups) + 1 && hits == old(hits) + if k in old(Elems(order)) then 1 else 0
    {
      lookups := lookups + 1;
      if k in vectors {
        hits := hits + 1;
        Bump(embedder, k);
        found := Some(vectors[k]);
      } else {
        found := None;
      }
    }

    // The first loop of a batch: hits are bumped and answered, misses set aside.
    method ServeHits(embedder: Embedder, distinct: seq<CacheKey>) returns (result: map<CacheKey, Vec>, misses: seq<CacheKey>)
      requires Valid(embedder)
      modifies this
      ensures Valid(embedder) && vectors == old(vectors)
      ensures order == UseAll(old(order), Hits(distinct, old(Elems(order))), maxSize)
      ensures misses == Misses(distinct, old(Elems(order)))
      ensures result.Keys == Elems(Hits(distinct, old(Elems(order))))
      ensures Truthful(embedder, result)
      ensures lookups == old(lookups) + |distinct| && hits == old(hits) + |Hits(distinct, old(Elems(order)))|
    {
      result, misses := map[], [];
      ghost var known := Elems(order);
      var i := 0;
      while i < |distinct|
        invariant 0 <= i <= |distinct|
        invariant Valid(embedder) && vectors == old(vectors) && Elems(order) == known
        invariant order == UseAll(old(order), Hits(distinct[..i], known), maxSize)
        invariant misses == Misses(distinct[..i], known)
        invariant result == Answered(embedder, map[], Hits(distinct[..i], known))
        invariant lookups == old(lookups) + i && hits == old(hits) + |Hits(distinct[..i], known)|
      {
        var k := distinct[i];
        SplitStep(distinct, i, known);
        UseAllSnoc(old(order), Hits(distinct[..i], known), k, maxSize);
        AnsweredSnoc(embedder, map[], Hits(distinct[..i], known), k);
        var found := Look(embedder, k);
        if found.Some? {
          result := result[k := found.value];
        } else {
          misses := misses + [k];
        }
        i := i + 1;
      }
      assert distinct[..i] == distinct;
      AnsweredFacts(embedder, map[], Hits(distinct, known));
    }

    // The second loop: the misses, embedded together, are stored one after another.
    method StoreMisses(embedder: Embedder, misses: seq<CacheKey>, served: map<CacheKey, Vec>) returns (result: map<CacheKey, Vec>)
      requires Valid(embedder) && NoDup(misses) && Apart(misses, Elems(order)) && Truthful(embedder, served)
      modifies this`order, this`vectors
      ensures Valid(embedder) && order == UseAll(old(order), misses, maxSize)
      ensures result.Keys == served.Keys + Elems(misses)
      ensures Truthful(embedder, result)
    {
      result := served;
      var i := 0;
      while i < |misses|
        invariant 0 <= i <= |misses|
        invariant Valid(embedder) && order == UseAll(old(order), misses[..i], maxSize)
        invariant Apart(misses[i..], Elems(order))
        invariant result == Answered(embedder, served, misses[..i])
      {
        StoreNext(embedder, misses, i, old(order));
        assert misses[..i + 1][..i] == misses[..i];
        result := result[misses[i] := VectorOf(embedder, misses[i])];
        i := i + 1;
      }
      assert misses[..i] == misses;
      AnsweredFacts(embedder, served, misses);
    }

    method StoreNext(embedder: Embedder, misses: seq<CacheKey>, i: nat, ghost start: seq<CacheKey>)
      requires Valid(embedder) && NoDup(misses) && i < |misses|
      requires order == UseAll(start, misses[..i], maxSize) && Apart(misses[i..], Elems(order))
      modifies this`order, this`vectors
      ensures Valid(embedder) && order == UseAll(start, misses[..i + 1], maxSize)
      ensures Apart(misses[i + 1..], Elems(order))
    {
      var k := misses[i];
      assert misses[..i + 1] == misses[..i] + [k];
      UseAllSnoc(start, misses[..i], k, maxSize);
      StillApart(misses, i, order, maxSize);
      assert k !in Elems(order) by {
        assert misses[i..][0] == k;
      }
      StoreMiss(embedder, k, VectorOf(embedder, k));
    }

    /** A batch: the embedder's own vector for every text. */
    method EmbedMany(embedder: Embedder, keys: seq<CacheKey>) returns (result: map<CacheKey, Vec>)
      requires Valid(embedder)
      modifies this
      ensures Valid(embedder)
      ensures result.Keys == Elems(keys) && forall k | k in result :: result[k] == embedder(k.model, k.text)
      ensures order == OrderAfter(old(order), Many(keys), maxSize)
      ensures lookups == old(lookups) + |Distinct(keys)|
      ensures hits == old(hits) + |Hits(Distinct(keys), old(Elems(order)))|
    {
      ghost var known := Elems(order);
      var distinct := Distinct(keys);
      var misses;
      result, misses := ServeHits(embedder, distinct);
      SplitFacts(distinct, known);
      UseAllAppend(old(order), Hits(distinct, known), misses, maxSize);
      result := StoreMisses(embedder, misses, result);
    }
  }

  lemma UseAllSnoc<T>(s: seq<T>, xs: seq<T>, x: T, max: nat)
    ensures UseAll(s, xs + [x], max) == Use(UseAll(s, xs, max), x, max)
  {
    assert (xs + [x])[..|xs|] == xs;
  }

  lemma {:induction false} UseAllAppend<T>(s: seq<T>, xs: seq<T>, ys: seq<T>, max: nat)
    ensures UseAll(s, xs + ys, max) == UseAll(UseAll(s, xs, max), ys, max)
  {
    if ys == [] {
      assert xs + ys == xs;
    } else {
      assert (xs + ys)[..|xs + ys| - 1] == xs + ys[..|ys| - 1];
      UseAllAppend(s, xs, ys[..|ys| - 1], max);
    }
  }

  lemma UseWithin<T>(s: seq<T>, x: T, max: nat, y: T)
    requires NoDup(s) && y !in s && y != x
    ensures y !in Elems(Use(s, x, max))
  {
    TouchFacts(s, x);
    assert y !in Elems(Touch(s, x));
    LastIn(Touch(s, x), max, y);
  }

  lemma {:induction false} SplitFacts<T>(s: seq<T>, store: set<T>)
    requires NoDup(s)
    ensures NoDup(Misses(s, store))
    ensures Elems(Hits(s, store)) + Elems(Misses(s, store)) == Elems(s)
  {
    if s != [] {
      var p, x := s[..|s| - 1], s[|s| - 1];
      SplitFacts(p, store);
      LastElems(s);
      if x in store {
        SnocElems(Hits(p, store), x);
      } else {
        assert x !in Elems(p);
        assert x !in Elems(Misses(p, store));
        SnocElems(Misses(p, store), x);
      }
    }
  }
}
