/** What the turns and the cut of the rank repair keep. */
module RankRepairLaws {
  import opened Common
  import opened Sorting
  import opened RankRepair
  import opened Scores

  // ---- chains ----

  // No selected candidate that is stale is where another one's chain stops.
  predicate NoStaleTarget(v: View, keys: seq<int>) {
    forall i | 0 <= i < |keys| :: TargetFresh(v, keys, keys[i])
  }

  predicate TargetFresh(v: View, keys: seq<int>, key: int) {
    match CurrentOf(v, key)
    case None => true
    case Some(c) => c in keys ==> CurrentOf(v, c).None?
  }

  // Every chain from a selected candidate ends within the hop limit.
  predicate ChainsFit(v: View, keys: seq<int>) {
    forall i | 0 <= i < |keys| :: Successor(v, Chase(v, keys[i], HOPS)).None?
  }

  /** Chains that end within the limit stop at a statement nothing visible has updated. */
  lemma FittingChains(v: View, keys: seq<int>)
    requires ChainsFit(v, keys)
    ensures NoStaleTarget(v, keys)
    ensures forall i | 0 <= i < |keys| && CurrentOf(v, keys[i]).Some? :: CurrentOf(v, CurrentOf(v, keys[i]).value).None?
  {
  }

  lemma {:induction false} ChaseVisible(v: View, key: int, hops: nat)
    requires hops > 0 && Successor(v, key).Some?
    ensures Visible(v, Chase(v, key, hops))
    decreases hops
  {
    var n := Successor(v, key).value;
    if hops > 1 && Successor(v, n).Some? {
      ChaseVisible(v, n, hops - 1);
    }
  }

  // ---- the turns ----

  lemma TurnOrder(v: View, s: Repair, key: int)
    requires NoDup(s.order) && Elems(s.order) == s.scores.Keys
    ensures var t := Turn(v, s, key);
      s.order <= t.order && |t.order| <= |s.order| + 1 && NoDup(t.order) && Elems(t.order) == t.scores.Keys
  {
    if CurrentOf(v, key).Some? {
      var c := CurrentOf(v, key).value;
      assert c in s.scores <==> c in Elems(s.order);
      SnocElems(s.order, c);
    }
  }

  lemma {:induction false} TurnsOrder(v: View, start: Repair, keys: seq<int>)
    requires NoDup(start.order) && Elems(start.order) == start.scores.Keys
    ensures var t := Turns(v, start, keys);
      && start.order <= t.order && |t.order| <= |start.order| + |keys|
      && NoDup(t.order) && Elems(t.order) == t.scores.Keys
  {
    if keys != [] {
      TurnsOrder(v, start, keys[..|keys| - 1]);
      TurnOrder(v, Turns(v, start, keys[..|keys| - 1]), keys[|keys| - 1]);
    }
  }

  // ---- back to `k` ----

  function Without(s: seq<int>, i: nat): seq<int>
    requires i < |s|
  {
    s[..i] + s[i + 1..]
  }

  lemma {:induction false} WithoutElems(s: seq<int>, i: nat)
    requires i < |s| && NoDup(s)
    ensures Elems(Without(s, i)) == Elems(s) - {s[i]} && NoDup(Without(s, i))
  {
    var p, last := s[..|s| - 1], s[|s| - 1];
    LastElems(s);
    assert last !in Elems(p);
    if i < |s| - 1 {
      WithoutElems(p, i);
      assert Without(s, i) == Without(p, i) + [last];
      assert last !in Elems(Without(p, i));
      SnocElems(Without(p, i), last);
    } else {
      assert Without(s, i) == p;
    }
  }

  lemma WithoutBefore(s: seq<int>, i: nat, x: int, y: int)
    requires i < |s| && Before(s, x, y) && x != s[i] && y != s[i]
    ensures Before(Without(s, i), x, y)
  {
    var a, b :| 0 <= a < b < |s| && s[a] == x && s[b] == y;
    var p, q := if a < i then a else a - 1, if b < i then b else b - 1;
    assert Without(s, i)[p] == x && Without(s, i)[q] == y;
  }

  lemma {:induction false} NoDupCount(s: seq<int>, kept: set<int>)
    requires NoDup(s) && forall i | 0 <= i < |s| :: s[i] in kept
    ensures |s| <= |kept|
  {
    if s != [] {
      var p, x := s[..|s| - 1], s[|s| - 1];
      forall i | 0 <= i < |p| ensures p[i] in kept - {x} {
        assert p[i] == s[i];
        NoDupAt(s, i, |s| - 1);
      }
      NoDupCount(p, kept - {x});
    }
  }

  /** Trimming leaves exactly `k` where it can, keeps what was pulled in, ... */
  lemma {:induction false} TrimKeeps(s: seq<int>, pulled: set<int>, k: nat)
    requires NoDup(s) && pulled <= Elems(s) && |pulled| <= k
    ensures |Trim(s, pulled, k)| == if |s| <= k then |s| else k
    ensures pulled <= Elems(Trim(s, pulled, k)) <= Elems(s) && NoDup(Trim(s, pulled, k))
    decreases |s|
  {
    if |s| > k {
      if LastOutside(s, pulled).None? {
        NoDupCount(s, pulled);
      }
      var i := LastOutside(s, pulled).value;
      WithoutElems(s, i);
      TrimKeeps(Without(s, i), pulled, k);
    }
  }

  /** ... and drops from the bottom: whatever ranked above something that stays and was not pulled in
      stays above it. */
  lemma {:induction false} TrimFromBelow(s: seq<int>, pulled: set<int>, k: nat, x: int, y: int)
    requires NoDup(s) && Before(s, x, y) && y !in pulled && y in Trim(s, pulled, k)
    ensures Before(Trim(s, pulled, k), x, y)
    decreases |s|
  {
    if |s| > k && LastOutside(s, pulled).Some? {
      var i := LastOutside(s, pulled).value;
      WithoutElems(s, i);
      TrimWithin(Without(s, i), pulled, k);
      assert y in Elems(Trim(s, pulled, k));
      assert y in Elems(Without(s, i));
      if x == s[i] {
        LastBefore(s, pulled, i, y);
      }
      WithoutBefore(s, i, x, y);
      TrimFromBelow(Without(s, i), pulled, k, x, y);
    }
  }

  lemma LastBefore(s: seq<int>, pulled: set<int>, i: nat, y: int)
    requires NoDup(s) && LastOutside(s, pulled) == Some(i) && Before(s, s[i], y)
    ensures y in pulled
  {
    var a, b :| 0 <= a < b < |s| && s[a] == s[i] && s[b] == y;
    NoDupSame(s, a, i);
  }

  lemma {:induction false} TrimWithin(s: seq<int>, pulled: set<int>, k: nat)
    requires NoDup(s)
    ensures Elems(Trim(s, pulled, k)) <= Elems(s)
    decreases |s|
  {
    if |s| > k && LastOutside(s, pulled).Some? {
      var i := LastOutside(s, pulled).value;
      WithoutElems(s, i);
      TrimWithin(Without(s, i), pulled, k);
    }
  }

  // Trimming swaps nothing.
  lemma {:induction false} TrimOrder(s: seq<int>, pulled: set<int>, k: nat, x: int, y: int)
    requires Before(Trim(s, pulled, k), x, y)
    ensures Before(s, x, y)
    decreases |s|
  {
    if |s| > k && LastOutside(s, pulled).Some? {
      var i := LastOutside(s, pulled).value;
      TrimOrder(Without(s, i), pulled, k, x, y);
      var a, b :| 0 <= a < b < |Without(s, i)| && Without(s, i)[a] == x && Without(s, i)[b] == y;
      assert s[if a < i then a else a + 1] == x && s[if b < i then b else b + 1] == y;
    }
  }

  lemma SortedBefore(scores: map<int, real>, order: seq<int>, x: int, y: int)
    requires x in Elems(order) && y in Elems(order) && ScoreOf(scores, x) > ScoreOf(scores, y)
    ensures Before(SortBy(HigherFirst(scores), order), x, y)
  {
    SortElems(HigherFirst(scores), order);
    SortOrdered(HigherFirst(scores), order);
    OrderedBefore(scores, SortBy(HigherFirst(scores), order), x, y);
  }

  lemma OrderedBefore(scores: map<int, real>, ranked: seq<int>, x: int, y: int)
    requires Sorted(HigherFirst(scores), ranked)
    requires x in Elems(ranked) && y in Elems(ranked) && ScoreOf(scores, x) > ScoreOf(scores, y)
    ensures Before(ranked, x, y)
  {
    var i := PlaceOf(ranked, x);
    var j := PlaceOf(ranked, y);
    if j < i {
      SortedAt(HigherFirst(scores), ranked, j, i);
    }
  }

  // ---- the whole call ----

  lemma {:induction false} ScoresKeys(selected: seq<Candidate>)
    ensures Elems(KeysOf(selected)) == ScoresOf(selected).Keys
  {
    if selected != [] {
      ScoresKeys(selected[..|selected| - 1]);
      SnocElems(KeysOf(selected[..|selected| - 1]), selected[|selected| - 1].key);
    }
  }

  function StartOf(selected: seq<Candidate>): Repair {
    Repair(KeysOf(selected), ScoresOf(selected), {})
  }

  // The selected keys come first in the table, and each turn adds at most one.
  lemma RepairOrder(v: View, selected: seq<Candidate>)
    requires NoDup(KeysOf(selected))
    ensures var r := Repaired(v, selected);
      && KeysOf(selected) <= r.order && |r.order| <= 2 * |selected|
      && NoDup(r.order) && Elems(r.order) == r.scores.Keys
  {
    ScoresKeys(selected);
    TurnsOrder(v, StartOf(selected), KeysOf(selected));
  }

  lemma PulledFew(r: Repair, n: nat)
    requires NoDup(r.order) && n <= |r.order|
    ensures |Pulled(r, n)| == |r.order| - n && Pulled(r, n) <= Elems(r.order)
    ensures forall i | 0 <= i < n :: r.order[i] !in Pulled(r, n)
  {
    NoDupRest(r.order, n);
    NoDupSize(r.order[n..]);
    assert r.order == r.order[..n] + r.order[n..];
    AppendElems(r.order[..n], r.order[n..]);
    forall i | 0 <= i < n ensures r.order[i] !in Pulled(r, n) {
      if r.order[i] in r.order[n..] {
        var j :| 0 <= j < |r.order[n..]| && r.order[n..][j] == r.order[i];
        NoDupAt(r.order, i, n + j);
      }
    }
  }

  /** On at most `k` candidates the repair returns min(k, selected + pulled in) memories and drops none it
      pulled in. */
  lemma RepairKeeps(v: View, selected: seq<Candidate>, k: nat)
    requires NoDup(KeysOf(selected)) && |selected| <= k
    ensures var r, ranked := Repaired(v, selected), RankedKeys(v, selected, k);
      && |ranked| == (if |r.order| <= k then |r.order| else k)
      && |r.order| == |selected| + |Pulled(r, |selected|)|
      && Pulled(r, |selected|) <= Elems(ranked) && NoDup(ranked)
  {
    var r := Repaired(v, selected);
    RepairOrder(v, selected);
    PulledFew(r, |selected|);
    SortKeepsNoDup(HigherFirst(r.scores), r.order);
    SortElems(HigherFirst(r.scores), r.order);
    TrimKeeps(SortBy(HigherFirst(r.scores), r.order), Pulled(r, |selected|), k);
  }

  lemma {:induction false} QuietTurns(v: View, s: Repair, keys: seq<int>)
    requires forall i | 0 <= i < |keys| :: CurrentOf(v, keys[i]).None?
    ensures Turns(v, s, keys) == s
  {
    if keys != [] {
      QuietTurns(v, s, keys[..|keys| - 1]);
      assert CurrentOf(v, keys[|keys| - 1]).None?;
    }
  }

  lemma {:induction false} SortedStays(less: (int, int) -> bool, s: seq<int>)
    requires Sorted(less, s)
    ensures SortBy(less, s) == s
  {
    if s != [] {
      var p, last := s[..|s| - 1], s[|s| - 1];
      SortedStays(less, p);
      if p != [] {
        assert less(p[|p| - 1], last);
      }
      assert s == p + [last];
    }
  }

  /** With nothing stale among at most `k` ranked candidates the call changes nothing. */
  lemma NothingStale(v: View, selected: seq<Candidate>, k: nat)
    requires |selected| <= k && Sorted(HigherFirst(ScoresOf(selected)), KeysOf(selected))
    requires forall i | 0 <= i < |selected| :: CurrentOf(v, KeysOf(selected)[i]).None?
    ensures RankedKeys(v, selected, k) == KeysOf(selected)
  {
    QuietTurns(v, Repair(KeysOf(selected), ScoresOf(selected), {}), KeysOf(selected));
    SortedStays(HigherFirst(ScoresOf(selected)), KeysOf(selected));
  }
}
