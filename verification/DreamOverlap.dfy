/** Reviews of one tenant that overlap, as two processes can run them: exactly when that makes a cycle. */
module DreamOverlap {
  import opened Common
  import opened GraphModel
  import opened DreamModel
  import opened DreamSafety

  // Any number of passes may have decided and not yet applied.
  datatype Many = Many(g: Graph, supersedes: set<(Key, Key)>, pending: seq<Pending>)

  datatype PassEvent = OnStore(event: Event) | BeginPass(review: Review) | FinishPass(i: nat)

  function Alone(w: Many): World {
    World(w.g, w.supersedes, None)
  }

  function StepMany(cfg: Config, w: Many, e: PassEvent): Many
    requires Stored(w.g.order, w.g.entities)
  {
    match e
    case OnStore(x) => if OnGraph(x) then w.(g := Step(cfg, Alone(w), x).g) else w
    case BeginPass(r) => w.(pending := w.pending + [Pending(PlanOver(w.g.entities, w.g.order, r), r.breaker)])
    case FinishPass(i) =>
      if i >= |w.pending| then w
      else
        var done := Finished(Alone(w), w.pending[i]);
        Many(done.g, done.supersedes, w.pending[..i] + w.pending[i + 1..])
  }

  // The decisions a step applies.
  function AppliedBy(w: Many, e: PassEvent): seq<(Key, Key)> {
    match e
    case FinishPass(i) =>
      if i < |w.pending| && !Tripped(w.pending[i].plan, w.pending[i].breaker) then w.pending[i].plan.supersessions else []
    case _ => []
  }

  // The step turns a decision around that another pass has applied meanwhile.
  predicate Opposes(w: Many, e: PassEvent) {
    Opposed(w.supersedes, AppliedBy(w, e))
  }

  // ---- what every run keeps, opposed or not ----

  ghost predicate AllFit(rows: map<Key, Entity>, pending: seq<Pending>) {
    forall i | 0 <= i < |pending| :: PlanFits(rows, pending[i].plan.supersessions)
  }

  ghost predicate Base(w: Many) {
    Valid(w.g) && Stored(w.g.order, w.g.entities) && Earlier(w.g.order, w.g.entities) && AllFit(w.g.entities, w.pending)
  }

  // Conflict pointers stay.
  predicate PointersStay(rows: map<Key, Entity>, rows': map<Key, Entity>) {
    forall k | k in rows :: k in rows' && rows'[k].conflictWith == rows[k].conflictWith
  }

  lemma FitsStill(rows: map<Key, Entity>, rows': map<Key, Entity>, pending: seq<Pending>)
    requires AllFit(rows, pending) && PointersStay(rows, rows')
    ensures AllFit(rows', pending)
  {
    forall i | 0 <= i < |pending| ensures PlanFits(rows', pending[i].plan.supersessions) {
      var s := pending[i].plan.supersessions;
      assert PlanFits(rows, s);
      forall p | p in s ensures Adjacent(rows', p.0, p.1) {
        assert Adjacent(rows, p.0, p.1);
      }
    }
  }

  lemma BeginFits(g: Graph, r: Review)
    requires Valid(g) && Stored(g.order, g.entities) && Earlier(g.order, g.entities)
    ensures PlanFits(g.entities, PlanOver(g.entities, g.order, r).supersessions)
  {
    DecideSound(g, r);
  }

  lemma StepBase(cfg: Config, w: Many, e: PassEvent)
    requires Base(w)
    ensures Base(StepMany(cfg, w, e))
    ensures w.supersedes + Elems(AppliedBy(w, e)) == StepMany(cfg, w, e).supersedes
  {
    match e
    case OnStore(x) =>
      if OnGraph(x) {
        GraphEventGrows(cfg, Alone(w), x);
        FitsStill(w.g.entities, Step(cfg, Alone(w), x).g.entities, w.pending);
      }
    case BeginPass(r) => BeginFits(w.g, r);
    case FinishPass(i) =>
      if i < |w.pending| {
        var rest, rows := w.pending[..i] + w.pending[i + 1..], Finished(Alone(w), w.pending[i]).g.entities;
        EarlierSame(w.g.order, w.g.entities, rows);
        assert AllFit(w.g.entities, rest);
        FitsStill(w.g.entities, rows, rest);
      }
  }

  function RunMany(cfg: Config, events: seq<PassEvent>): (w: Many)
    ensures Base(w)
  {
    if events == [] then Many(EMPTY.g, {}, [])
    else
      var before := RunMany(cfg, events[..|events| - 1]);
      StepBase(cfg, before, events[|events| - 1]);
      StepMany(cfg, before, events[|events| - 1])
  }

  predicate NoneOpposes(cfg: Config, events: seq<PassEvent>) {
    events == [] || (NoneOpposes(cfg, events[..|events| - 1])
                     && !Opposes(RunMany(cfg, events[..|events| - 1]), events[|events| - 1]))
  }

  // ---- safe when no pass is opposed ----

  lemma GrownEdges(rows: map<Key, Entity>, rows': map<Key, Entity>, supersedes: set<(Key, Key)>)
    requires EdgesSound(rows, supersedes) && Grown(rows, rows')
    ensures EdgesSound(rows', supersedes)
  {
  }

  lemma StepEdges(cfg: Config, w: Many, e: PassEvent)
    requires Base(w) && EdgesSound(w.g.entities, w.supersedes) && !Opposes(w, e)
    ensures var r := StepMany(cfg, w, e); EdgesSound(r.g.entities, r.supersedes)
  {
    match e
    case OnStore(x) =>
      if OnGraph(x) {
        GraphEventGrows(cfg, Alone(w), x);
        GrownEdges(w.g.entities, Step(cfg, Alone(w), x).g.entities, w.supersedes);
      }
    case BeginPass(r) =>
    case FinishPass(i) =>
      if i < |w.pending| && !Tripped(w.pending[i].plan, w.pending[i].breaker) {
        ApplyFits(w.g.entities, w.supersedes, w.pending[i].plan);
      }
  }

  lemma {:induction false} RunEdges(cfg: Config, events: seq<PassEvent>)
    requires NoneOpposes(cfg, events)
    ensures Sound(Alone(RunMany(cfg, events)))
  {
    if events != [] {
      RunEdges(cfg, events[..|events| - 1]);
      StepEdges(cfg, RunMany(cfg, events[..|events| - 1]), events[|events| - 1]);
    }
  }

  // ---- a cycle when one is ----

  lemma TwoCycle(supersedes: set<(Key, Key)>, a: Key, b: Key)
    requires (a, b) in supersedes && (b, a) in supersedes
    ensures Cycle(supersedes, [a, b, a])
  {
  }

  lemma OpposedCycle(cfg: Config, w: Many, e: PassEvent) returns (path: seq<Key>)
    requires Base(w) && Opposes(w, e)
    ensures Cycle(StepMany(cfg, w, e).supersedes, path)
  {
    StepBase(cfg, w, e);
    var p :| p in AppliedBy(w, e) && (p.1, p.0) in w.supersedes;
    assert p in Elems(AppliedBy(w, e));
    path := [p.0, p.1, p.0];
    TwoCycle(StepMany(cfg, w, e).supersedes, p.0, p.1);
  }

  lemma CycleStays(a: set<(Key, Key)>, b: set<(Key, Key)>, path: seq<Key>)
    requires a <= b && Cycle(a, path)
    ensures Cycle(b, path)
  {
  }

  lemma {:induction false} SomeCycle(cfg: Config, events: seq<PassEvent>) returns (path: seq<Key>)
    requires !NoneOpposes(cfg, events)
    ensures Cycle(RunMany(cfg, events).supersedes, path)
  {
    var p, e := events[..|events| - 1], events[|events| - 1];
    StepBase(cfg, RunMany(cfg, p), e);
    assert RunMany(cfg, events) == StepMany(cfg, RunMany(cfg, p), e);
    if NoneOpposes(cfg, p) {
      path := OpposedCycle(cfg, RunMany(cfg, p), e);
    } else {
      path := SomeCycle(cfg, p);
      CycleStays(RunMany(cfg, p).supersedes, RunMany(cfg, events).supersedes, path);
    }
  }

  ghost predicate Acyclic(supersedes: set<(Key, Key)>) {
    forall path: seq<Key> :: !Cycle(supersedes, path)
  }

  lemma CycleRefutes(supersedes: set<(Key, Key)>, path: seq<Key>)
    requires Cycle(supersedes, path)
    ensures !Acyclic(supersedes)
  {
  }

  /** However many passes of a tenant overlap: Supersedes has no cycle exactly when no pass applied a decision
      that turns around one applied before. */
  lemma {:induction false} AcyclicIff(cfg: Config, events: seq<PassEvent>)
    ensures Acyclic(RunMany(cfg, events).supersedes) <==> NoneOpposes(cfg, events)
  {
    if NoneOpposes(cfg, events) {
      RunEdges(cfg, events);
      forall path ensures !Cycle(RunMany(cfg, events).supersedes, path) {
        SupersedesAcyclic(Alone(RunMany(cfg, events)), path);
      }
    } else {
      var path := SomeCycle(cfg, events);
      CycleRefutes(RunMany(cfg, events).supersedes, path);
    }
  }

  /** And then no conflict cluster is wiped out. */
  lemma ClusterSurvivesOverlap(cfg: Config, events: seq<PassEvent>, cluster: set<Key>)
    requires NoneOpposes(cfg, events)
    requires cluster != {} && Closed(RunMany(cfg, events).g.entities, cluster)
    ensures exists k :: k in cluster && !RunMany(cfg, events).g.entities[k].invalid
  {
    RunEdges(cfg, events);
    ClusterSurvives(Alone(RunMany(cfg, events)), cluster);
  }

  // A finished pass that did not trip.
  lemma FinishApplies(cfg: Config, w: Many, p: Pending, rest: seq<Pending>, a: Key, b: Key)
    requires Base(w) && w.pending == [p] + rest && !Tripped(p.plan, p.breaker) && (a, b) in p.plan.supersessions
    ensures var r := StepMany(cfg, w, FinishPass(0));
      && Base(r) && r.pending == rest && w.supersedes + {(a, b)} <= r.supersedes
      && AppliedBy(w, FinishPass(0)) == p.plan.supersessions
      && b in r.g.entities && r.g.entities[b].invalid
      && forall k | k in w.g.entities && w.g.entities[k].invalid :: k in r.g.entities && r.g.entities[k].invalid
  {
    StepBase(cfg, w, FinishPass(0));
    assert PlanFits(w.g.entities, w.pending[0].plan.supersessions);
    assert Adjacent(w.g.entities, (a, b).0, (a, b).1);
    assert (a, b).1 in Losers(p.plan.supersessions) && (a, b) in Elems(p.plan.supersessions);
  }

  lemma SecondFinish(cfg: Config, m: Many, q: Pending, a: Key, b: Key)
    requires Base(m) && m.pending == [q] && !Tripped(q.plan, q.breaker) && (b, a) in q.plan.supersessions
    requires (a, b) in m.supersedes && b in m.g.entities && m.g.entities[b].invalid
    ensures var r := StepMany(cfg, m, FinishPass(0));
      && a in r.g.entities && r.g.entities[a].invalid && b in r.g.entities && r.g.entities[b].invalid
      && Cycle(r.supersedes, [a, b, a])
  {
    assert [q] == [q] + [];
    FinishApplies(cfg, m, q, [], b, a);
    TwoCycle(StepMany(cfg, m, FinishPass(0)).supersedes, a, b);
  }

  /** Two pending plans that decide one conflict oppositely, finished one after the other, deprecate both ends. */
  lemma OppositePlansWipeOut(cfg: Config, w: Many, p: Pending, q: Pending, a: Key, b: Key)
    requires Base(w) && w.pending == [p, q] && !Tripped(p.plan, p.breaker) && !Tripped(q.plan, q.breaker)
    requires (a, b) in p.plan.supersessions && (b, a) in q.plan.supersessions
    ensures var m := StepMany(cfg, w, FinishPass(0));
      && Base(m)
      && var r := StepMany(cfg, m, FinishPass(0));
         && a in r.g.entities && r.g.entities[a].invalid && b in r.g.entities && r.g.entities[b].invalid
         && Cycle(r.supersedes, [a, b, a])
  {
    assert [p, q] == [p] + [q];
    FinishApplies(cfg, w, p, [q], a, b);
    SecondFinish(cfg, StepMany(cfg, w, FinishPass(0)), q, a, b);
  }

  // ---- a run that gets there ----

  // All names are alike enough to flag and not to merge; beliefs are equal; every verdict is a contradiction.
  const ALIKE := Config(0.5, 0.9, 0.5, 1, name => [], (a, b) => 0.7, (x, s) => 0.0)
  const HARSH := Review(k => true, k => "", 100, 1.0)
  const A := Key("A", "T")
  const B := Key("B", "T")

  function Naming(k: Key): Memory {
    Memory("m", "e", [k], [], 1.0, None)
  }

  // Two live entities in conflict, the second flagged, mentioned so many times.
  predicate TwoAlike(g: Graph, a: nat, b: nat) {
    && g.order == [A, B] && g.entities.Keys == {A, B}
    && g.entities[A] == NewEntity(ALIKE, A, None, None, a, g.entities[A].reliabilitySum.GetOr(0.0))
    && g.entities[B] == NewEntity(ALIKE, B, Some(A), None, b, g.entities[B].reliabilitySum.GetOr(0.0))
  }

  lemma OneMention(g: Graph, k: Key)
    requires Stored(g.order, g.entities)
    ensures var o := Mention(k, 1.0, None, "m", "e");
      var w := WriteMention(ALIKE, g, o, Decide(ALIKE, g, k));
      WriteOne(ALIKE, g, Naming(k)).entities == w.entities && WriteOne(ALIKE, g, Naming(k)).order == w.order
  {
    var os := MentionsOf(Naming(k), [k]);
    assert os == [Mention(k, 1.0, None, "m", "e")] && os[..0] == [];
    assert WriteMentions(ALIKE, g, g, os[..0]) == g;
  }

  lemma AloneDecides(g: Graph, k: Key)
    requires g.order == [A] && A in g.entities && k == B
    ensures Decide(ALIKE, g, k) == Own(Some(A))
  {
    assert g.order[..0] == [];
    assert BestMatch(ALIKE, [], g.entities, k) == Match(None, -1.0);
  }

  predicate OnlyFirst(g: Graph) {
    g.order == [A] && g.entities == map[A := NewEntity(ALIKE, A, None, None, 1, 1.0)]
  }

  lemma FirstMention()
    ensures Stored(EMPTY.g.order, EMPTY.g.entities) && OnlyFirst(WriteOne(ALIKE, EMPTY.g, Naming(A)))
  {
    OneMention(EMPTY.g, A);
    assert Decide(ALIKE, EMPTY.g, A) == Own(None);
  }

  lemma SecondMention(g: Graph)
    requires OnlyFirst(g)
    ensures Stored(g.order, g.entities) && TwoAlike(WriteOne(ALIKE, g, Naming(B)), 1, 1)
  {
    OneMention(g, B);
    AloneDecides(g, B);
  }

  lemma ThirdMention(g: Graph)
    requires TwoAlike(g, 1, 1)
    ensures Stored(g.order, g.entities) && TwoAlike(WriteOne(ALIKE, g, Naming(A)), 2, 1)
  {
    OneMention(g, A);
    assert BestMatch(ALIKE, g.order, g.entities, A).sim <= 0.7;
    assert Decide(ALIKE, g, A).Own?;
    assert Bump(ALIKE, g.entities[A], 1, 1.0).belief == Some(1.0);
  }

  /** Only the flagged entity is reviewed; it wins unless the other one has more mentions. */
  lemma HarshPlan(g: Graph, a: nat)
    requires TwoAlike(g, a, 1) && a < 100
    ensures var plan := PlanOver(g.entities, g.order, HARSH);
      plan.supersessions == [if a > 1 then (A, B) else (B, A)] && !Tripped(plan, HARSH.breaker)
  {
    assert g.order[..1] == [A] && [A][..0] == [];
    assert PlanOver(g.entities, [A], HARSH) == NOTHING;
    assert OutcomeOf(g.entities, B, HARSH.contradicts) == if a > 1 then DreamModel.Supersede(A, B) else DreamModel.Supersede(B, A);
  }

  lemma {:induction false} RunSnoc(cfg: Config, p: seq<PassEvent>, e: PassEvent)
    ensures RunMany(cfg, p + [e]) == StepMany(cfg, RunMany(cfg, p), e)
  {
    assert (p + [e])[..|p|] == p;
  }

  const WRITE_A := OnStore(Write(Naming(A)))
  const WRITE_B := OnStore(Write(Naming(B)))

  // A pending pass that decided just this.
  predicate Decided(p: Pending, winner: Key, loser: Key) {
    p.plan.supersessions == [(winner, loser)] && !Tripped(p.plan, p.breaker)
  }

  lemma BeginDecides(w: Many, a: nat)
    requires TwoAlike(w.g, a, 1) && a < 100
    ensures Stored(w.g.order, w.g.entities)
    ensures var r := StepMany(ALIKE, w, BeginPass(HARSH));
      && r.g == w.g && r.supersedes == w.supersedes && |r.pending| == |w.pending| + 1 && r.pending[..|w.pending|] == w.pending
      && (if a > 1 then Decided(r.pending[|w.pending|], A, B) else Decided(r.pending[|w.pending|], B, A))
  {
    HarshPlan(w.g, a);
  }

  lemma WriteKeeps(w: Many)
    requires TwoAlike(w.g, 1, 1)
    ensures Stored(w.g.order, w.g.entities)
    ensures var r := StepMany(ALIKE, w, WRITE_A);
      TwoAlike(r.g, 2, 1) && r.supersedes == w.supersedes && r.pending == w.pending
  {
    ThirdMention(w.g);
  }

  predicate OneBegun(w: Many) {
    TwoAlike(w.g, 1, 1) && w.supersedes == {} && |w.pending| == 1 && Decided(w.pending[0], B, A)
  }

  predicate BothBegun(w: Many) {
    w.supersedes == {} && |w.pending| == 2 && Decided(w.pending[0], B, A) && Decided(w.pending[1], A, B)
  }

  lemma {:induction false} WritesFirst(p: seq<PassEvent>)
    requires RunMany(ALIKE, p) == Many(EMPTY.g, {}, [])
    ensures var w := RunMany(ALIKE, p + [WRITE_A]); OnlyFirst(w.g) && w.supersedes == {} && w.pending == []
  {
    RunSnoc(ALIKE, p, WRITE_A);
    FirstMention();
  }

  lemma {:induction false} WritesSecond(p: seq<PassEvent>)
    requires var w := RunMany(ALIKE, p); OnlyFirst(w.g) && w.supersedes == {} && w.pending == []
    ensures var w := RunMany(ALIKE, p + [WRITE_B]); TwoAlike(w.g, 1, 1) && w.supersedes == {} && w.pending == []
  {
    RunSnoc(ALIKE, p, WRITE_B);
    SecondMention(RunMany(ALIKE, p).g);
  }

  lemma {:induction false} BeginsFirst(p: seq<PassEvent>)
    requires var w := RunMany(ALIKE, p); TwoAlike(w.g, 1, 1) && w.supersedes == {} && w.pending == []
    ensures OneBegun(RunMany(ALIKE, p + [BeginPass(HARSH)]))
  {
    RunSnoc(ALIKE, p, BeginPass(HARSH));
    BeginDecides(RunMany(ALIKE, p), 1);
  }

  lemma {:induction false} BeginsSecond(p: seq<PassEvent>)
    requires OneBegun(RunMany(ALIKE, p))
    ensures BothBegun(RunMany(ALIKE, p + [WRITE_A] + [BeginPass(HARSH)]))
  {
    RunSnoc(ALIKE, p, WRITE_A);
    WriteKeeps(RunMany(ALIKE, p));
    RunSnoc(ALIKE, p + [WRITE_A], BeginPass(HARSH));
    BeginDecides(RunMany(ALIKE, p + [WRITE_A]), 2);
  }

  lemma {:induction false} BothFinish(p: seq<PassEvent>)
    requires BothBegun(RunMany(ALIKE, p))
    ensures var w := RunMany(ALIKE, p + [FinishPass(0)] + [FinishPass(0)]);
      && A in w.g.entities && w.g.entities[A].invalid && B in w.g.entities && w.g.entities[B].invalid
      && Cycle(w.supersedes, [B, A, B])
  {
    var w := RunMany(ALIKE, p);
    RunSnoc(ALIKE, p, FinishPass(0));
    RunSnoc(ALIKE, p + [FinishPass(0)], FinishPass(0));
    OppositePlansWipeOut(ALIKE, w, w.pending[0], w.pending[1], B, A);
  }

  // Two reviews, a write that turns the scores between their beginnings.
  const OVERLAPPING: seq<PassEvent> :=
    [] + [WRITE_A] + [WRITE_B] + [BeginPass(HARSH)] + [WRITE_A] + [BeginPass(HARSH)] + [FinishPass(0)] + [FinishPass(0)]

  /** From an empty store such a run ends with both entities of the conflict deprecated. */
  lemma {:induction false} OverlapFails()
    ensures var rows := RunMany(ALIKE, OVERLAPPING).g.entities;
      A in rows && rows[A].invalid && B in rows && rows[B].invalid && !NoneOpposes(ALIKE, OVERLAPPING)
  {
    WritesFirst([]);
    WritesSecond([] + [WRITE_A]);
    BeginsFirst([] + [WRITE_A] + [WRITE_B]);
    BeginsSecond([] + [WRITE_A] + [WRITE_B] + [BeginPass(HARSH)]);
    BothFinish([] + [WRITE_A] + [WRITE_B] + [BeginPass(HARSH)] + [WRITE_A] + [BeginPass(HARSH)]);
    CycleRefutes(RunMany(ALIKE, OVERLAPPING).supersedes, [B, A, B]);
    AcyclicIff(ALIKE, OVERLAPPING);
  }
}
