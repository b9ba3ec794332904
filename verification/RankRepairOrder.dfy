/** Which stale candidates end below the statement their chain leads to: exactly those that no later
    candidate, whose chain stops at them, lifts to that statement's score. */
module RankRepairOrder {
  import opened Common
  import opened Sorting
  import opened RankRepair
  import opened RankRepairLaws
  import opened Scores

  // ---- scores, turn by turn ----

  function AfterTurns(v: View, selected: seq<Candidate>, n: nat): Repair
    requires n <= |selected|
  {
    Turns(v, StartOf(selected), KeysOf(selected)[..n])
  }

  // What a candidate scores when its turn comes: its own score, unless an earlier one raised it.
  function TurnScore(v: View, selected: seq<Candidate>, i: nat): real
    requires i < |selected|
  {
    ScoreOf(AfterTurns(v, selected, i).scores, KeysOf(selected)[i])
  }

  function FirstScore(selected: seq<Candidate>, x: int): real {
    ScoreOf(ScoresOf(selected), x)
  }

  function TargetOf(v: View, selected: seq<Candidate>, i: nat): Option<int>
    requires i < |selected|
  {
    CurrentOf(v, KeysOf(selected)[i])
  }

  lemma TurnsStep(v: View, selected: seq<Candidate>, n: nat)
    requires n < |selected|
    ensures AfterTurns(v, selected, n + 1) == Turn(v, AfterTurns(v, selected, n), KeysOf(selected)[n])
  {
    assert KeysOf(selected)[..n + 1][..n] == KeysOf(selected)[..n];
  }

  // One turn raises its target to a step above the candidate, if it is not there yet, and nothing else.
  lemma TurnScores(v: View, selected: seq<Candidate>, n: nat, x: int)
    requires n < |selected|
    ensures var now, then0 := ScoreOf(AfterTurns(v, selected, n + 1).scores, x), ScoreOf(AfterTurns(v, selected, n).scores, x);
      now == if TargetOf(v, selected, n) == Some(x) then Max(then0, TurnScore(v, selected, n) + STEP) else then0
  {
    TurnsStep(v, selected, n);
  }

  lemma {:induction false} NeverLowered(v: View, selected: seq<Candidate>, m: nat, n: nat, x: int)
    requires m <= n <= |selected|
    ensures ScoreOf(AfterTurns(v, selected, n).scores, x) >= ScoreOf(AfterTurns(v, selected, m).scores, x)
  {
    if m < n {
      NeverLowered(v, selected, m, n - 1, x);
      TurnScores(v, selected, n - 1, x);
    }
  }

  lemma AboveEach(v: View, selected: seq<Candidate>, m: nat, n: nat, x: int)
    requires m < n <= |selected| && TargetOf(v, selected, m) == Some(x)
    ensures ScoreOf(AfterTurns(v, selected, n).scores, x) >= TurnScore(v, selected, m) + STEP
  {
    TurnScores(v, selected, m, x);
    NeverLowered(v, selected, m + 1, n, x);
  }

  lemma {:induction false} RaisedBy(v: View, selected: seq<Candidate>, m: nat, n: nat, x: int) returns (j: nat)
    requires m <= n <= |selected|
    requires ScoreOf(AfterTurns(v, selected, n).scores, x) > ScoreOf(AfterTurns(v, selected, m).scores, x)
    ensures m <= j < n && TargetOf(v, selected, j) == Some(x)
    ensures ScoreOf(AfterTurns(v, selected, n).scores, x) == TurnScore(v, selected, j) + STEP
  {
    TurnScores(v, selected, n - 1, x);
    if ScoreOf(AfterTurns(v, selected, n).scores, x) == ScoreOf(AfterTurns(v, selected, n - 1).scores, x) {
      j := RaisedBy(v, selected, m, n - 1, x);
    } else {
      j := n - 1;
    }
  }

  lemma Finally(v: View, selected: seq<Candidate>)
    ensures AfterTurns(v, selected, |selected|) == Repaired(v, selected)
    ensures AfterTurns(v, selected, 0) == StartOf(selected)
  {
    assert KeysOf(selected)[..|selected|] == KeysOf(selected);
  }

  // ---- the exact condition ----

  // A score is at least, or above, all that `d` can end with: its own score, and a step above each
  // candidate whose chain leads to it.
  ghost predicate Reaches(v: View, selected: seq<Candidate>, score: real, d: int) {
    FirstScore(selected, d) <= score
    && forall m | 0 <= m < |selected| && TargetOf(v, selected, m) == Some(d) :: TurnScore(v, selected, m) + STEP <= score
  }

  ghost predicate Passes(v: View, selected: seq<Candidate>, score: real, d: int) {
    FirstScore(selected, d) < score
    && forall m | 0 <= m < |selected| && TargetOf(v, selected, m) == Some(d) :: TurnScore(v, selected, m) + STEP < score
  }

  lemma FinalScore(v: View, selected: seq<Candidate>, score: real, d: int)
    ensures Reaches(v, selected, score, d) <==> ScoreOf(Repaired(v, selected).scores, d) <= score
    ensures Passes(v, selected, score, d) <==> ScoreOf(Repaired(v, selected).scores, d) < score
  {
    Finally(v, selected);
    var final := ScoreOf(Repaired(v, selected).scores, d);
    NeverLowered(v, selected, 0, |selected|, d);
    forall m | 0 <= m < |selected| && TargetOf(v, selected, m) == Some(d)
      ensures TurnScore(v, selected, m) + STEP <= final
    {
      AboveEach(v, selected, m, |selected|, d);
    }
    if final > FirstScore(selected, d) {
      var j := RaisedBy(v, selected, 0, |selected|, d);
      assert TurnScore(v, selected, j) + STEP == final;
    }
  }

  // A later candidate's chain stops at stale candidate `i`, and its raise takes `i` to where the statement
  // `i` leads to ends; or past it, when that statement came before `i`.
  ghost predicate Overtaken(v: View, selected: seq<Candidate>, i: nat)
    requires i < |selected|
  {
    exists j | i < j < |selected| :: OvertakenBy(v, selected, i, j)
  }

  ghost predicate OvertakenBy(v: View, selected: seq<Candidate>, i: nat, j: nat)
    requires i < |selected| && j < |selected|
  {
    && TargetOf(v, selected, i).Some? && TargetOf(v, selected, j) == Some(KeysOf(selected)[i])
    && Overtakes(v, selected, TurnScore(v, selected, j) + STEP, TargetOf(v, selected, i).value, i)
  }

  ghost predicate Overtakes(v: View, selected: seq<Candidate>, score: real, d: int, i: nat)
    requires i < |selected|
  {
    if d in KeysOf(selected)[..i] then Passes(v, selected, score, d) else Reaches(v, selected, score, d)
  }

  lemma OvertakesScores(v: View, selected: seq<Candidate>, i: nat, score: real)
    requires i < |selected| && TargetOf(v, selected, i).Some?
    ensures var d := TargetOf(v, selected, i).value;
      Overtakes(v, selected, score, d, i) <==> Beats(v, selected, score, d, i)
  {
    FinalScore(v, selected, score, TargetOf(v, selected, i).value);
  }

  // The same, said of the final score of `d`.
  predicate Beats(v: View, selected: seq<Candidate>, score: real, d: int, i: nat)
    requires i < |selected|
  {
    if d in KeysOf(selected)[..i] then FinalOf(v, selected, d) < score else FinalOf(v, selected, d) <= score
  }

  function FinalOf(v: View, selected: seq<Candidate>, x: int): real {
    ScoreOf(Repaired(v, selected).scores, x)
  }

  lemma RaisedLater(v: View, selected: seq<Candidate>, i: nat) returns (j: nat)
    requires i < |selected| && TargetOf(v, selected, i).Some?
    requires TargetOf(v, selected, i).value != KeysOf(selected)[i]
    requires FinalOf(v, selected, KeysOf(selected)[i]) > TurnScore(v, selected, i)
    ensures i < j < |selected| && TargetOf(v, selected, j) == Some(KeysOf(selected)[i])
    ensures FinalOf(v, selected, KeysOf(selected)[i]) == TurnScore(v, selected, j) + STEP
  {
    Finally(v, selected);
    j := RaisedBy(v, selected, i, |selected|, KeysOf(selected)[i]);
  }

  lemma AboveTurn(v: View, selected: seq<Candidate>, j: nat, x: int)
    requires j < |selected| && TargetOf(v, selected, j) == Some(x)
    ensures FinalOf(v, selected, x) >= TurnScore(v, selected, j) + STEP
  {
    Finally(v, selected);
    AboveEach(v, selected, j, |selected|, x);
  }

  lemma OvertakenBeats(v: View, selected: seq<Candidate>, i: nat, j: nat)
    requires i < j < |selected| && TargetOf(v, selected, i).Some? && OvertakenBy(v, selected, i, j)
    ensures Outscores(v, selected, i)
  {
    OvertakesScores(v, selected, i, TurnScore(v, selected, j) + STEP);
    AboveTurn(v, selected, j, KeysOf(selected)[i]);
  }

  predicate Outscores(v: View, selected: seq<Candidate>, i: nat)
    requires i < |selected| && TargetOf(v, selected, i).Some?
  {
    Beats(v, selected, FinalOf(v, selected, KeysOf(selected)[i]), TargetOf(v, selected, i).value, i)
  }

  lemma BeatsOvertaken(v: View, selected: seq<Candidate>, i: nat) returns (j: nat)
    requires i < |selected| && TargetOf(v, selected, i).Some? && TargetOf(v, selected, i).value != KeysOf(selected)[i]
    requires Outscores(v, selected, i)
    ensures i < j < |selected| && OvertakenBy(v, selected, i, j)
  {
    AboveTurn(v, selected, i, TargetOf(v, selected, i).value);
    j := RaisedLater(v, selected, i);
    OvertakesScores(v, selected, i, TurnScore(v, selected, j) + STEP);
  }

  lemma OvertakenScores(v: View, selected: seq<Candidate>, i: nat)
    requires i < |selected| && TargetOf(v, selected, i).Some? && TargetOf(v, selected, i).value != KeysOf(selected)[i]
    ensures Overtaken(v, selected, i) <==> Outscores(v, selected, i)
  {
    if Overtaken(v, selected, i) {
      var j :| i < j < |selected| && OvertakenBy(v, selected, i, j);
      OvertakenBeats(v, selected, i, j);
    } else if Outscores(v, selected, i) {
      var j := BeatsOvertaken(v, selected, i);
    }
  }

  // ---- on the returned ranking ----

  function Ordered(v: View, selected: seq<Candidate>): seq<int> {
    SortBy(HigherFirst(Repaired(v, selected).scores), Repaired(v, selected).order)
  }

  lemma {:induction false} TargetScored(v: View, selected: seq<Candidate>, i: nat, n: nat)
    requires i < n <= |selected| && TargetOf(v, selected, i).Some?
    ensures TargetOf(v, selected, i).value in AfterTurns(v, selected, n).scores
  {
    TurnsStep(v, selected, n - 1);
    if i < n - 1 {
      TargetScored(v, selected, i, n - 1);
    }
  }

  lemma {:induction false} TargetListed(v: View, selected: seq<Candidate>, i: nat)
    requires NoDup(KeysOf(selected)) && i < |selected| && TargetOf(v, selected, i).Some?
    ensures TargetOf(v, selected, i).value in Elems(Repaired(v, selected).order)
    ensures KeysOf(selected)[i] in Elems(Repaired(v, selected).order)
  {
    RepairOrder(v, selected);
    TargetScored(v, selected, i, |selected|);
    Finally(v, selected);
    assert Repaired(v, selected).order[i] == KeysOf(selected)[i];
  }

  // With equal scores the sort keeps the order of entry.
  lemma TiesStay(v: View, selected: seq<Candidate>, x: int, y: int)
    requires FinalOf(v, selected, x) == FinalOf(v, selected, y) && Before(Repaired(v, selected).order, x, y)
    ensures Before(Ordered(v, selected), x, y)
  {
    var order := Repaired(v, selected).order;
    var a, b :| 0 <= a < b < |order| && order[a] == x && order[b] == y;
    SortStable(HigherFirst(Repaired(v, selected).scores), order, a, b);
  }

  lemma {:induction false} EnteredFirst(v: View, selected: seq<Candidate>, i: nat)
    requires NoDup(KeysOf(selected)) && i < |selected| && TargetOf(v, selected, i).Some?
    requires TargetOf(v, selected, i).value != KeysOf(selected)[i]
    ensures var d, x, order := TargetOf(v, selected, i).value, KeysOf(selected)[i], Repaired(v, selected).order;
      if d in KeysOf(selected)[..i] then Before(order, d, x) else Before(order, x, d)
  {
    var d, x, order := TargetOf(v, selected, i).value, KeysOf(selected)[i], Repaired(v, selected).order;
    TargetListed(v, selected, i);
    RepairOrder(v, selected);
    var a := PlaceOf(order, d);
    assert order[i] == x;
    assert a < i ==> KeysOf(selected)[..i][a] == d;
    if d in KeysOf(selected)[..i] {
      var b := PlaceOf(KeysOf(selected)[..i], d);
      assert order[b] == d;
    }
  }

  lemma {:induction false} SortedAbove(v: View, selected: seq<Candidate>, i: nat)
    requires NoDup(KeysOf(selected)) && i < |selected| && TargetOf(v, selected, i).Some?
    requires TargetOf(v, selected, i).value != KeysOf(selected)[i]
    ensures if Outscores(v, selected, i) then Before(Ordered(v, selected), KeysOf(selected)[i], TargetOf(v, selected, i).value)
      else Before(Ordered(v, selected), TargetOf(v, selected, i).value, KeysOf(selected)[i])
  {
    var d, x, r := TargetOf(v, selected, i).value, KeysOf(selected)[i], Repaired(v, selected);
    TargetListed(v, selected, i);
    if FinalOf(v, selected, d) > FinalOf(v, selected, x) {
      SortedBefore(r.scores, r.order, d, x);
    } else if FinalOf(v, selected, d) < FinalOf(v, selected, x) {
      SortedBefore(r.scores, r.order, x, d);
    } else {
      EnteredFirst(v, selected, i);
      if d in KeysOf(selected)[..i] {
        TiesStay(v, selected, d, x);
      } else {
        TiesStay(v, selected, x, d);
      }
    }
  }

  lemma OrderedNoDup(v: View, selected: seq<Candidate>)
    requires NoDup(KeysOf(selected))
    ensures NoDup(Ordered(v, selected))
  {
    RepairOrder(v, selected);
    SortKeepsNoDup(HigherFirst(Repaired(v, selected).scores), Repaired(v, selected).order);
  }

  lemma {:induction false} NotPulled(v: View, selected: seq<Candidate>, i: nat)
    requires NoDup(KeysOf(selected)) && i < |selected|
    ensures KeysOf(selected)[i] !in Pulled(Repaired(v, selected), |selected|)
  {
    RepairOrder(v, selected);
    PulledFew(Repaired(v, selected), |selected|);
    assert Repaired(v, selected).order[i] == KeysOf(selected)[i];
  }

  /** For candidates in any order: a stale one that stays in the ranking has the statement its chain leads
      to above it exactly when no later candidate takes it past that statement. */
  lemma {:induction false} StaleRankExact(v: View, selected: seq<Candidate>, k: nat, i: nat)
    requires NoDup(KeysOf(selected)) && i < |selected| && TargetOf(v, selected, i).Some?
    requires TargetOf(v, selected, i).value != KeysOf(selected)[i]
    requires KeysOf(selected)[i] in RankedKeys(v, selected, k)
    ensures Before(RankedKeys(v, selected, k), TargetOf(v, selected, i).value, KeysOf(selected)[i])
      <==> !Overtaken(v, selected, i)
  {
    var d, x := TargetOf(v, selected, i).value, KeysOf(selected)[i];
    OvertakenScores(v, selected, i);
    SortedAbove(v, selected, i);
    OrderedNoDup(v, selected);
    NotPulled(v, selected, i);
    if Overtaken(v, selected, i) {
      if Before(RankedKeys(v, selected, k), d, x) {
        TrimOrder(Ordered(v, selected), Pulled(Repaired(v, selected), |selected|), k, d, x);
        NotBoth(Ordered(v, selected), d, x);
      }
    } else {
      TrimFromBelow(Ordered(v, selected), Pulled(Repaired(v, selected), |selected|), k, d, x);
    }
  }

  /** The whole promise, on at most `k` candidates: none is dropped that was pulled in, the list is no longer
      than it has to be, and a stale candidate that stays is listed below the statement its chain leads
      to exactly when it is not overtaken. */
  lemma {:induction false} RepairSound(v: View, selected: seq<Candidate>, k: nat)
    requires NoDup(KeysOf(selected)) && |selected| <= k
    ensures var r, ranked := Repaired(v, selected), RankedKeys(v, selected, k);
      && |ranked| == (if |r.order| <= k then |r.order| else k)
      && |r.order| == |selected| + |Pulled(r, |selected|)|
      && Pulled(r, |selected|) <= Elems(ranked) && NoDup(ranked)
    ensures forall i | 0 <= i < |selected| && Moves(v, selected, i) && KeysOf(selected)[i] in RankedKeys(v, selected, k) ::
      Before(RankedKeys(v, selected, k), TargetOf(v, selected, i).value, KeysOf(selected)[i]) <==> !Overtaken(v, selected, i)
  {
    RepairKeeps(v, selected, k);
    forall i | 0 <= i < |selected| && Moves(v, selected, i) && KeysOf(selected)[i] in RankedKeys(v, selected, k)
      ensures Before(RankedKeys(v, selected, k), TargetOf(v, selected, i).value, KeysOf(selected)[i])
        <==> !Overtaken(v, selected, i)
    {
      StaleRankExact(v, selected, k, i);
    }
  }

  // A stale candidate whose chain does not run back into it.
  predicate Moves(v: View, selected: seq<Candidate>, i: nat)
    requires i < |selected|
  {
    TargetOf(v, selected, i).Some? && TargetOf(v, selected, i).value != KeysOf(selected)[i]
  }

  lemma KeptOutBy(v: View, selected: seq<Candidate>, i: nat, j: nat)
    requires i < |selected| && j < |selected| && TargetOf(v, selected, i).Some? && NoStaleTarget(v, KeysOf(selected))
    ensures !OvertakenBy(v, selected, i, j)
  {
    assert TargetFresh(v, KeysOf(selected), KeysOf(selected)[j]);
    assert KeysOf(selected)[i] in KeysOf(selected);
  }

  lemma KeptOut(v: View, selected: seq<Candidate>, i: nat)
    requires i < |selected| && TargetOf(v, selected, i).Some? && NoStaleTarget(v, KeysOf(selected))
    ensures !Overtaken(v, selected, i) && Moves(v, selected, i)
  {
    assert TargetFresh(v, KeysOf(selected), KeysOf(selected)[i]);
    forall j | i < j < |selected| ensures !OvertakenBy(v, selected, i, j) {
      KeptOutBy(v, selected, i, j);
    }
  }

  /** When chains end within the hop limit, the statement above a stale candidate is visible and nothing
      visible updated it. */
  lemma {:induction false} RepairReachesCurrent(v: View, selected: seq<Candidate>, k: nat, i: nat)
    requires NoDup(KeysOf(selected)) && i < |selected| && TargetOf(v, selected, i).Some?
    requires ChainsFit(v, KeysOf(selected))
    ensures var d := TargetOf(v, selected, i).value;
      && Visible(v, d) && Successor(v, d).None?
      && (KeysOf(selected)[i] in RankedKeys(v, selected, k) ==> Before(RankedKeys(v, selected, k), d, KeysOf(selected)[i]))
  {
    FittingChains(v, KeysOf(selected));
    ChaseVisible(v, KeysOf(selected)[i], HOPS);
    KeptOut(v, selected, i);
    if KeysOf(selected)[i] in RankedKeys(v, selected, k) {
      StaleRankExact(v, selected, k, i);
    }
  }

  // ---- candidates in falling score ----

  function OwnScore(selected: seq<Candidate>, i: nat): real
    requires i < |selected|
  {
    FirstScore(selected, KeysOf(selected)[i])
  }

  predicate Falling(selected: seq<Candidate>) {
    forall i, j | 0 <= i <= j < |selected| :: OwnScore(selected, j) <= OwnScore(selected, i)
  }

  // No candidate's chain stops at this one.
  predicate NoTarget(v: View, selected: seq<Candidate>, m: nat)
    requires m < |selected|
  {
    forall l | 0 <= l < |selected| :: TargetOf(v, selected, l) != Some(KeysOf(selected)[m])
  }

  // Whoever shares a target with stale candidate `i`, or has `i` as target, is nobody's target itself.
  predicate ShallowAround(v: View, selected: seq<Candidate>, i: nat)
    requires i < |selected|
  {
    forall m | 0 <= m < |selected| && m != i && Around(v, selected, i, m) :: NoTarget(v, selected, m)
  }

  predicate Around(v: View, selected: seq<Candidate>, i: nat, m: nat)
    requires i < |selected| && m < |selected|
  {
    TargetOf(v, selected, m).Some? && (TargetOf(v, selected, m) == TargetOf(v, selected, i)
                                       || TargetOf(v, selected, m).value == KeysOf(selected)[i])
  }

  // A later candidate of the same score leads to `i`, no earlier one does, and what `i` leads to neither
  // comes earlier nor has a higher score from elsewhere.
  ghost predicate TiedLater(v: View, selected: seq<Candidate>, i: nat)
    requires i < |selected| && TargetOf(v, selected, i).Some?
  {
    && TargetOf(v, selected, i).value !in KeysOf(selected)[..i]
    && FirstScore(selected, TargetOf(v, selected, i).value) <= OwnScore(selected, i) + STEP
    && (forall m | 0 <= m < |selected| && TargetOf(v, selected, m) == TargetOf(v, selected, i) ::
          OwnScore(selected, m) <= OwnScore(selected, i))
    && (forall l | 0 <= l < i :: TargetOf(v, selected, l) != Some(KeysOf(selected)[i]))
    && exists j | i < j < |selected| :: TargetOf(v, selected, j) == Some(KeysOf(selected)[i])
                                   && OwnScore(selected, j) == OwnScore(selected, i)
  }

  lemma OwnTurn(v: View, selected: seq<Candidate>, m: nat)
    requires m < |selected|
    ensures TurnScore(v, selected, m) >= OwnScore(selected, m)
    ensures (forall l | 0 <= l < m :: TargetOf(v, selected, l) != Some(KeysOf(selected)[m]))
      ==> TurnScore(v, selected, m) == OwnScore(selected, m)
  {
    Finally(v, selected);
    NeverLowered(v, selected, 0, m, KeysOf(selected)[m]);
    if TurnScore(v, selected, m) > OwnScore(selected, m) {
      var l := RaisedBy(v, selected, 0, m, KeysOf(selected)[m]);
    }
  }

  lemma RaisedEarlier(v: View, selected: seq<Candidate>, l: nat, i: nat)
    requires l < i < |selected| && TargetOf(v, selected, l) == Some(KeysOf(selected)[i]) && Falling(selected)
    ensures TurnScore(v, selected, i) > OwnScore(selected, i)
  {
    OwnTurn(v, selected, l);
    AboveEach(v, selected, l, i, KeysOf(selected)[i]);
  }

  lemma {:induction false} TiedOvertaken(v: View, selected: seq<Candidate>, i: nat)
    requires i < |selected| && TargetOf(v, selected, i).Some? && Falling(selected) && ShallowAround(v, selected, i)
    requires TiedLater(v, selected, i)
    ensures Overtaken(v, selected, i)
  {
    var d, s := TargetOf(v, selected, i).value, OwnScore(selected, i);
    var j :| i < j < |selected| && TargetOf(v, selected, j) == Some(KeysOf(selected)[i]) && OwnScore(selected, j) == s;
    OwnTurn(v, selected, j);
    forall m | 0 <= m < |selected| && TargetOf(v, selected, m) == Some(d)
      ensures TurnScore(v, selected, m) <= s
    {
      OwnTurn(v, selected, m);
      assert m != i ==> Around(v, selected, i, m);
    }
    assert OvertakenBy(v, selected, i, j);
  }

  lemma {:induction false} OvertakenTied(v: View, selected: seq<Candidate>, i: nat)
    requires i < |selected| && TargetOf(v, selected, i).Some? && Falling(selected) && ShallowAround(v, selected, i)
    requires Overtaken(v, selected, i)
    ensures TiedLater(v, selected, i)
  {
    var d, s := TargetOf(v, selected, i).value, OwnScore(selected, i);
    var j :| i < j < |selected| && OvertakenBy(v, selected, i, j);
    assert Around(v, selected, i, j);
    OwnTurn(v, selected, j);
    OwnTurn(v, selected, i);
    assert OwnScore(selected, j) <= s;
    forall l | 0 <= l < i ensures TargetOf(v, selected, l) != Some(KeysOf(selected)[i]) {
      if TargetOf(v, selected, l) == Some(KeysOf(selected)[i]) {
        RaisedEarlier(v, selected, l, i);
      }
    }
    forall m | 0 <= m < |selected| && TargetOf(v, selected, m) == Some(d)
      ensures OwnScore(selected, m) <= s
    {
      OwnTurn(v, selected, m);
    }
  }

  /** On candidates in falling score a stale one ends above what it leads to exactly when a later candidate
      of the very same score leads to it, and nothing lifts either of them first. */
  lemma {:induction false} FallingExact(v: View, selected: seq<Candidate>, k: nat, i: nat)
    requires NoDup(KeysOf(selected)) && Falling(selected) && i < |selected| && Moves(v, selected, i)
    requires ShallowAround(v, selected, i) && KeysOf(selected)[i] in RankedKeys(v, selected, k)
    ensures Before(RankedKeys(v, selected, k), TargetOf(v, selected, i).value, KeysOf(selected)[i])
      <==> !TiedLater(v, selected, i)
  {
    StaleRankExact(v, selected, k, i);
    if Overtaken(v, selected, i) {
      OvertakenTied(v, selected, i);
    } else if TiedLater(v, selected, i) {
      TiedOvertaken(v, selected, i);
    }
  }

  // ---- beyond the hop limit ----

  function Pair(a: Candidate, b: Candidate): (s: seq<Candidate>)
    ensures KeysOf(s) == [a.key, b.key]
    ensures ScoresOf(s) == map[a.key := a.score][b.key := b.score]
  {
    assert [a, b][..1] == [a];
    assert KeysOf([a]) == [a.key];
    assert ScoresOf([a]) == map[a.key := a.score];
    [a, b]
  }

  lemma PairRepaired(v: View, a: Candidate, b: Candidate)
    ensures Repaired(v, Pair(a, b))
      == Turn(v, Turn(v, Repair([a.key, b.key], map[a.key := a.score][b.key := b.score], {}), a.key), b.key)
  {
    var start := Repair([a.key, b.key], map[a.key := a.score][b.key := b.score], {});
    assert [a.key, b.key][..1] == [a.key];
    assert Turns(v, start, []) == start;
    assert [a.key][..0] == [];
    assert Turns(v, start, [a.key]) == Turn(v, start, a.key);
  }

  function Link(n: int): Row {
    Row(Some(n), Some(n + 1), Some(n + 1), true)
  }

  // Seven memories, each updated by the next.
  const CHAIN: map<int, Row> := map[0 := Link(0), 1 := Link(1), 2 := Link(2), 3 := Link(3), 4 := Link(4), 5 := Link(5),
                                    6 := Row(Some(6), None, None, true)]
  const OLD := Candidate(0, Some(0), Some(1), Some(1), 1.0)
  const STALE := Candidate(5, Some(5), Some(6), Some(6), 1.0)
  const LONG := View(CHAIN, map[5 := STALE, 0 := OLD], None)

  /** Such a call exists once a chain is longer than the limit: the oldest of seven memories is followed
      to the sixth, which is raised to the score of the seventh, and stays listed before it. */
  lemma LongChainFails()
    ensures LONG == View(CHAIN, Chosen(CHAIN, Pair(STALE, OLD)), None)
    ensures CurrentOf(LONG, 0) == Some(5) && CurrentOf(LONG, 5) == Some(6) && CurrentOf(LONG, 6) == None
    ensures Repaired(LONG, Pair(STALE, OLD)).order == [5, 0, 6]
    ensures RankedKeys(LONG, Pair(STALE, OLD), 3) == [5, 6, 0]
  {
    LongChosen();
    LongHops();
    PairRepaired(LONG, STALE, OLD);
    var r := Repaired(LONG, Pair(STALE, OLD));
    assert r.scores == map[5 := 1.0 + STEP, 0 := 1.0, 6 := 1.0 + STEP];
    SortThree(HigherFirst(r.scores), 5, 0, 6);
  }

  lemma LongChosen()
    ensures Chosen(CHAIN, Pair(STALE, OLD)) == map[5 := STALE, 0 := OLD]
  {
    assert [STALE, OLD][..1] == [STALE];
    assert [STALE][..0] == [];
    assert Chosen(CHAIN, [STALE]) == map[5 := STALE];
  }

  lemma LongHops()
    ensures CurrentOf(LONG, 0) == Some(5) && CurrentOf(LONG, 5) == Some(6) && CurrentOf(LONG, 6) == None
  {
    assert Successor(LONG, 0) == Some(1) && Successor(LONG, 1) == Some(2) && Successor(LONG, 2) == Some(3);
    assert Successor(LONG, 3) == Some(4) && Successor(LONG, 4) == Some(5) && Successor(LONG, 5) == Some(6);
    assert Chase(LONG, 0, 5) == Chase(LONG, 1, 4) == Chase(LONG, 2, 3) == Chase(LONG, 3, 2) == Chase(LONG, 4, 1);
    assert Chase(LONG, 4, 1) == Chase(LONG, 5, 0) == 5;
    assert Chase(LONG, 5, 5) == Chase(LONG, 6, 4) == 6;
  }

  lemma SortThree(less: (int, int) -> bool, a: int, b: int, c: int)
    requires less(a, b) && !less(b, c) && less(a, c)
    ensures SortBy(less, [a, b, c]) == [a, c, b]
  {
    assert [a, b, c][..2] == [a, b] && [a, b][..1] == [a];
    assert SortBy(less, [a]) == [a];
    assert SortBy(less, [a, b]) == [a, b];
    assert InsertBy(less, [a], c) == [a, c];
  }
}
