/** What the rank repair may mark, follow and pull in, read off the stored rows and the candidates. */
module RankRepairFields {
  import opened Common
  import opened Sorting
  import opened Scores
  import opened RankRepair
  import opened RankRepairLaws
  import opened RankRepairOrder

  function LastWith(selected: seq<Candidate>, key: int): Option<Candidate> {
    if selected == [] then None
    else if selected[|selected| - 1].key == key then Some(selected[|selected| - 1])
    else LastWith(selected[..|selected| - 1], key)
  }

  // Where the link of a memory leads and from when: as stored, or as the candidate brought it when nothing is.
  function LinkAt(rows: map<int, Row>, selected: seq<Candidate>, key: int): (Option<int>, Option<int>) {
    if key in rows then (rows[key].supersededBy, rows[key].validTo)
    else match LastWith(selected, key)
         case Some(c) => (c.supersededBy, c.validTo)
         case None => (None, None)
  }

  predicate NotAfter(asOf: Option<int>, t: Option<int>) {
    match asOf case None => true case Some(limit) => t.Some? && t.value <= limit
  }

  // A selected candidate, or a stored memory that is valid and the caller's; under a time view, with a time
  // not after it.
  predicate Seen(rows: map<int, Row>, selected: seq<Candidate>, asOf: Option<int>, key: int) {
    match LastWith(selected, key)
    case Some(c) => NotAfter(asOf, c.time)
    case None => key in rows && rows[key].readable && NotAfter(asOf, rows[key].time)
  }

  // The link of `a`, valid in the time view, leads to `b`, which may be seen.
  predicate Leads(rows: map<int, Row>, selected: seq<Candidate>, asOf: Option<int>, a: int, b: int) {
    && LinkAt(rows, selected, a).0 == Some(b) && NotAfter(asOf, LinkAt(rows, selected, a).1)
    && Seen(rows, selected, asOf, b)
  }

  lemma {:induction false} ChosenIs(rows: map<int, Row>, selected: seq<Candidate>, key: int)
    ensures key in Chosen(rows, selected) <==> LastWith(selected, key).Some?
    ensures key in Chosen(rows, selected) ==>
      && Chosen(rows, selected)[key].time == LastWith(selected, key).value.time
      && (Chosen(rows, selected)[key].supersededBy, Chosen(rows, selected)[key].validTo) == LinkAt(rows, selected, key)
  {
    if selected != [] {
      ChosenIs(rows, selected[..|selected| - 1], key);
    }
  }

  function Sees(rows: map<int, Row>, selected: seq<Candidate>, asOf: Option<int>): View {
    View(rows, Chosen(rows, selected), asOf)
  }

  lemma VisibleIsSeen(rows: map<int, Row>, selected: seq<Candidate>, asOf: Option<int>, key: int)
    ensures Visible(Sees(rows, selected, asOf), key) <==> Seen(rows, selected, asOf, key)
  {
    ChosenIs(rows, selected, key);
  }

  // A selected candidate or a memory the caller may read.
  predicate Known(rows: map<int, Row>, selected: seq<Candidate>, key: int) {
    LastWith(selected, key).Some? || (key in rows && rows[key].readable)
  }

  lemma SuccessorIs(rows: map<int, Row>, selected: seq<Candidate>, asOf: Option<int>, a: int, b: int)
    requires Known(rows, selected, a)
    ensures Successor(Sees(rows, selected, asOf), a) == Some(b) <==> Leads(rows, selected, asOf, a, b)
  {
    ChosenIs(rows, selected, a);
    VisibleIsSeen(rows, selected, asOf, b);
  }

  predicate Onward(rows: map<int, Row>, selected: seq<Candidate>, asOf: Option<int>, a: int) {
    LinkAt(rows, selected, a).0.Some? && Leads(rows, selected, asOf, a, LinkAt(rows, selected, a).0.value)
  }

  // `n` links on from `a`.
  predicate Reaches(rows: map<int, Row>, selected: seq<Candidate>, asOf: Option<int>, a: int, c: int, n: nat)
    decreases n
  {
    if n == 0 then a == c
    else Onward(rows, selected, asOf, a) && Reaches(rows, selected, asOf, LinkAt(rows, selected, a).0.value, c, n - 1)
  }

  lemma {:induction false} ChaseReaches(rows: map<int, Row>, selected: seq<Candidate>, asOf: Option<int>, a: int, hops: nat)
    returns (n: nat)
    requires Known(rows, selected, a)
    ensures n <= hops && Reaches(rows, selected, asOf, a, Chase(Sees(rows, selected, asOf), a, hops), n)
    ensures n < hops ==> !Onward(rows, selected, asOf, Chase(Sees(rows, selected, asOf), a, hops))
    ensures Onward(rows, selected, asOf, a) && hops > 0 ==> n > 0
    decreases hops
  {
    n := 0;
    if hops > 0 {
      if Onward(rows, selected, asOf, a) {
        var b := LinkAt(rows, selected, a).0.value;
        SuccessorIs(rows, selected, asOf, a, b);
        n := ChaseReaches(rows, selected, asOf, b, hops - 1);
        n := n + 1;
      } else {
        NoneOnward(rows, selected, asOf, a);
      }
    }
  }

  lemma NoneOnward(rows: map<int, Row>, selected: seq<Candidate>, asOf: Option<int>, a: int)
    requires Known(rows, selected, a)
    ensures Successor(Sees(rows, selected, asOf), a).Some? <==> Onward(rows, selected, asOf, a)
  {
    var s := Successor(Sees(rows, selected, asOf), a);
    if s.Some? {
      SuccessorIs(rows, selected, asOf, a, s.value);
    }
    if Onward(rows, selected, asOf, a) {
      SuccessorIs(rows, selected, asOf, a, LinkAt(rows, selected, a).0.value);
    }
  }

  lemma {:induction false} SelectedKnown(rows: map<int, Row>, selected: seq<Candidate>, i: nat)
    requires i < |selected|
    ensures Known(rows, selected, KeysOf(selected)[i]) && LastWith(selected, KeysOf(selected)[i]).Some?
  {
    if i < |selected| - 1 {
      SelectedKnown(rows, selected[..|selected| - 1], i);
    }
  }

  // ---- marks ----

  lemma {:induction false} StaleMarks(v: View, s: Repair, keys: seq<int>, x: int)
    ensures x in Turns(v, s, keys).stale <==> x in s.stale || (x in keys && Successor(v, x).Some?)
  {
    if keys != [] {
      StaleMarks(v, s, keys[..|keys| - 1], x);
      assert keys == keys[..|keys| - 1] + [keys[|keys| - 1]];
    }
  }

  /** Exactly those selected candidates are marked stale whose link, valid in the time view, leads to a memory
      that may be seen. */
  lemma StaleExactly(rows: map<int, Row>, selected: seq<Candidate>, asOf: Option<int>, x: int)
    ensures x in Repaired(Sees(rows, selected, asOf), selected).stale
      <==> x in KeysOf(selected) && Onward(rows, selected, asOf, x)
  {
    StaleMarks(Sees(rows, selected, asOf), StartOf(selected), KeysOf(selected), x);
    if x in KeysOf(selected) {
      var i :| 0 <= i < |selected| && KeysOf(selected)[i] == x;
      SelectedKnown(rows, selected, i);
      NoneOnward(rows, selected, asOf, x);
    }
  }

  /** What is put above a stale one lies one to five links on, and is the last of its chain unless it is five. */
  lemma TargetExactly(rows: map<int, Row>, selected: seq<Candidate>, asOf: Option<int>, i: nat)
    requires i < |selected|
    ensures var t := TargetOf(Sees(rows, selected, asOf), selected, i);
      && (t.Some? <==> Onward(rows, selected, asOf, KeysOf(selected)[i]))
      && (t.Some? ==> exists n: nat | 1 <= n <= 5 ::
            Reaches(rows, selected, asOf, KeysOf(selected)[i], t.value, n) && (n < 5 ==> !Onward(rows, selected, asOf, t.value)))
  {
    var x := KeysOf(selected)[i];
    SelectedKnown(rows, selected, i);
    NoneOnward(rows, selected, asOf, x);
    if Onward(rows, selected, asOf, x) {
      var n := ChaseReaches(rows, selected, asOf, x, HOPS);
    }
  }

  // ---- the returned keys ----

  lemma {:induction false} EnteredSeen(rows: map<int, Row>, selected: seq<Candidate>, asOf: Option<int>, n: nat, x: int)
    requires n <= |selected| && x in AfterTurns(Sees(rows, selected, asOf), selected, n).order
    ensures x in KeysOf(selected) || Seen(rows, selected, asOf, x)
  {
    var v := Sees(rows, selected, asOf);
    if n > 0 && x !in AfterTurns(v, selected, n - 1).order {
      TurnsStep(v, selected, n - 1);
      ChaseVisible(v, KeysOf(selected)[n - 1], HOPS);
      VisibleIsSeen(rows, selected, asOf, x);
    } else if n > 0 {
      EnteredSeen(rows, selected, asOf, n - 1, x);
    } else {
      Finally(v, selected);
    }
  }

  lemma {:induction false} NotSelected(selected: seq<Candidate>, x: int)
    requires x !in KeysOf(selected)
    ensures LastWith(selected, x).None?
  {
    if selected != [] {
      assert KeysOf(selected) == KeysOf(selected[..|selected| - 1]) + [selected[|selected| - 1].key];
      NotSelected(selected[..|selected| - 1], x);
    }
  }

  /** Every key returned was selected, or is stored, valid and the caller's, and under a time view has a time not
      after it. */
  lemma {:induction false} ReturnedMayBeRead(rows: map<int, Row>, selected: seq<Candidate>, asOf: Option<int>, k: nat, x: int)
    requires NoDup(KeysOf(selected)) && x in RankedKeys(Sees(rows, selected, asOf), selected, k)
    ensures x in KeysOf(selected) || (x in rows && rows[x].readable && NotAfter(asOf, rows[x].time))
  {
    var v := Sees(rows, selected, asOf);
    OrderedNoDup(v, selected);
    TrimWithin(Ordered(v, selected), Pulled(Repaired(v, selected), |selected|), k);
    SortElems(HigherFirst(Repaired(v, selected).scores), Repaired(v, selected).order);
    assert x in Elems(RankedKeys(v, selected, k));
    assert x in Elems(Repaired(v, selected).order);
    Finally(v, selected);
    EnteredSeen(rows, selected, asOf, |selected|, x);
    if x !in KeysOf(selected) {
      NotSelected(selected, x);
    }
  }
}
