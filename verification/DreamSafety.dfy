/** Whole runs of graph writes, community labels and Dream passes: what no verdict can break. */
module DreamSafety {
  import opened Common
  import opened GraphModel
  import opened GraphBatch
  import opened GraphRefinement
  import opened DreamModel

  // A pass that has decided and not yet applied.
  datatype Pending = Pending(plan: Plan, breaker: real)

  datatype World = World(g: Graph, supersedes: set<(Key, Key)>, pending: Option<Pending>)

  datatype Event =
    | Write(memory: Memory)
    | WriteMany(memories: seq<Memory>)
    | Label(labels: map<Key, int>)
    | Begin(review: Review)
    | Finish

  function Labelled(entities: map<Key, Entity>, labels: map<Key, int>): map<Key, Entity> {
    map k | k in entities ::
      if entities[k].invalid then entities[k]
      else entities[k].(community := Some(if k in labels then labels[k] else -1))
  }

  function Finished(w: World, p: Pending): World {
    if Tripped(p.plan, p.breaker) then w.(pending := None)
    else World(w.g.(entities := ApplyPlan(w.g.entities, p.plan)),
               w.supersedes + Elems(p.plan.supersessions), None)
  }

  /** One step. A second pass waits until the first has finished. */
  function Step(cfg: Config, w: World, e: Event): World
    requires Stored(w.g.order, w.g.entities)
  {
    match e
    case Write(m) => w.(g := WriteOne(cfg, w.g, m))
    case WriteMany(ms) => w.(g := WriteBatch(cfg, w.g, ms))
    case Label(labels) => w.(g := w.g.(entities := Labelled(w.g.entities, labels)))
    case Begin(r) =>
      if w.pending.Some? then w
      else w.(pending := Some(Pending(PlanOver(w.g.entities, w.g.order, r), r.breaker)))
    case Finish => if w.pending.None? then w else Finished(w, w.pending.value)
  }

  /** What the events other than a pass do: writes go to the graph, and labelling gives every live entity its
      label, or -1 when it has none, and touches no other field. */
  lemma StoreEvents(cfg: Config, w: World, m: Memory, ms: seq<Memory>, labels: map<Key, int>, k: Key)
    requires Stored(w.g.order, w.g.entities) && k in w.g.entities
    ensures Step(cfg, w, Write(m)) == w.(g := WriteOne(cfg, w.g, m))
    ensures Step(cfg, w, WriteMany(ms)) == w.(g := WriteBatch(cfg, w.g, ms))
    ensures var r := Step(cfg, w, Label(labels));
      var e, e' := w.g.entities[k], r.g.entities[k];
      && r.(g := w.g) == w && r.g.(entities := w.g.entities) == w.g && r.g.entities.Keys == w.g.entities.Keys
      && e'.(community := e.community) == e
      && (if e.invalid then e' == e else if k in labels then e'.community == Some(labels[k]) else e'.community == Some(-1))
  {
  }

  // ---- the invariant ----

  // Two entities joined by a conflict pointer.
  predicate Adjacent(rows: map<Key, Entity>, a: Key, b: Key) {
    && a in rows && b in rows
    && (rows[a].conflictWith == Some(b) || rows[b].conflictWith == Some(a))
  }

  // Every conflict pointer names an entity created earlier.
  predicate Earlier(order: seq<Key>, rows: map<Key, Entity>)
    requires Stored(order, rows)
  {
    order == [] ||
    var before, e := order[..|order| - 1], rows[order[|order| - 1]];
    Earlier(before, rows) && (e.conflictWith.Some? ==> e.conflictWith.value in before)
  }

  // Every edge goes from a winner to an entity it was in conflict with, now deprecated; no
  // conflict is decided both ways; and only decisions deprecate.
  ghost predicate EdgesSound(rows: map<Key, Entity>, supersedes: set<(Key, Key)>) {
    && (forall e | e in supersedes :: Adjacent(rows, e.0, e.1) && rows[e.1].invalid)
    && (forall e | e in supersedes :: (e.1, e.0) !in supersedes)
    && (forall k {:trigger rows[k].invalid} | k in rows && rows[k].invalid :: exists e | e in supersedes :: e.1 == k)
  }

  // A plan decides conflicts between live entities, each once.
  ghost predicate PlanSound(rows: map<Key, Entity>, s: seq<(Key, Key)>) {
    && (forall p | p in s :: Adjacent(rows, p.0, p.1) && !rows[p.0].invalid && !rows[p.1].invalid)
    && (forall p | p in s :: (p.1, p.0) !in s)
  }

  ghost predicate Sound(w: World) {
    && Valid(w.g) && Stored(w.g.order, w.g.entities)
    && Earlier(w.g.order, w.g.entities)
    && EdgesSound(w.g.entities, w.supersedes)
    && (w.pending.Some? ==> PlanSound(w.g.entities, w.pending.value.plan.supersessions))
  }

  // ---- order of creation ----

  function Position(order: seq<Key>, k: Key): nat
    requires k in order
  {
    if order[|order| - 1] == k then |order| - 1 else Position(order[..|order| - 1], k)
  }

  lemma {:induction false} PositionBound(order: seq<Key>, k: Key)
    requires k in order
    ensures Position(order, k) < |order|
  {
    if order[|order| - 1] != k {
      PositionBound(order[..|order| - 1], k);
    }
  }

  /** A conflict pointer goes back in time. */
  lemma {:induction false} PointsBack(order: seq<Key>, rows: map<Key, Entity>, k: Key)
    requires Stored(order, rows) && NoDup(order) && Earlier(order, rows)
    requires k in order && rows[k].conflictWith.Some?
    ensures rows[k].conflictWith.value in order
    ensures Position(order, rows[k].conflictWith.value) < Position(order, k)
  {
    var before, p := order[..|order| - 1], rows[k].conflictWith.value;
    if order[|order| - 1] == k {
      PositionBound(before, p);
      assert p in order && order[|order| - 1] != p;
    } else {
      PointsBack(before, rows, k);
      assert p in order && order[|order| - 1] != p;
    }
  }

  lemma {:induction false} EarlierSame(order: seq<Key>, rows: map<Key, Entity>, rows': map<Key, Entity>)
    requires Stored(order, rows) && Stored(order, rows')
    requires forall k | k in order :: rows'[k].conflictWith == rows[k].conflictWith
    requires Earlier(order, rows)
    ensures Earlier(order, rows')
  {
    if order != [] {
      EarlierSame(order[..|order| - 1], rows, rows');
    }
  }

  // ---- graph writes ----

  // A write never moves a conflict pointer or the deprecation of a stored entity, and creates
  // live ones.
  ghost predicate Grown(rows: map<Key, Entity>, rows': map<Key, Entity>) {
    && rows.Keys <= rows'.Keys
    && (forall k | k in rows :: rows'[k].conflictWith == rows[k].conflictWith && rows'[k].invalid == rows[k].invalid)
    && (forall k | k in rows' && k !in rows :: !rows'[k].invalid)
  }

  lemma GrownStep(a: map<Key, Entity>, b: map<Key, Entity>, c: map<Key, Entity>)
    requires Grown(a, b) && Grown(b, c)
    ensures Grown(a, c)
  {
  }

  lemma BumpedEarlier(cfg: Config, order: seq<Key>, rows: map<Key, Entity>, t: Key, e: Entity)
    requires NoDup(order) && Stored(order, rows) && Earlier(order, rows)
    requires t in rows && e.conflictWith == rows[t].conflictWith
    ensures Stored(order, rows[t := e]) && Earlier(order, rows[t := e])
  {
    EarlierSame(order, rows, rows[t := e]);
  }

  lemma CreatedEarlier(order: seq<Key>, rows: map<Key, Entity>, t: Key, e: Entity)
    requires Stored(order, rows) && Earlier(order, rows)
    requires t !in order && (e.conflictWith.Some? ==> e.conflictWith.value in order)
    ensures Stored(order + [t], rows[t := e]) && Earlier(order + [t], rows[t := e])
  {
    EarlierSame(order, rows, rows[t := e]);
    assert (order + [t])[..|order|] == order;
  }

  lemma GrownRow(rows: map<Key, Entity>, t: Key, e: Entity)
    requires t in rows ==> e.conflictWith == rows[t].conflictWith && e.invalid == rows[t].invalid
    requires t !in rows ==> !e.invalid
    ensures Grown(rows, rows[t := e])
  {
  }

  lemma MentionGrows(cfg: Config, g: Graph, o: Mention, d: Decision)
    requires Valid(g) && Stored(g.order, g.entities) && Earlier(g.order, g.entities)
    requires d.Merge? ==> d.into in g.entities
    requires d.Own? && d.conflict.Some? ==> d.conflict.value in g.order
    ensures
      var h := WriteMention(cfg, g, o, d);
      Valid(h) && Stored(h.order, h.entities) && Earlier(h.order, h.entities) && Grown(g.entities, h.entities)
      && forall k | k in g.order :: k in h.order
  {
    var h := WriteMention(cfg, g, o, d);
    var t := Target(o.key, d);
    assert t in g.entities <==> t in Elems(g.order);
    var e := h.entities[t];
    assert h.entities == g.entities[t := e];
    GrownRow(g.entities, t, e);
    if t in g.entities {
      assert h.order == g.order;
      BumpedEarlier(cfg, g.order, g.entities, t, e);
    } else {
      assert h.order == g.order + [t];
      SnocElems(g.order, t);
      CreatedEarlier(g.order, g.entities, t, e);
    }
  }

  lemma {:induction false} MentionsGrow(cfg: Config, base: Graph, g: Graph, os: seq<Mention>)
    requires Valid(g) && Stored(g.order, g.entities) && Earlier(g.order, g.entities)
    requires Stored(base.order, base.entities) && base.entities.Keys <= g.entities.Keys
    requires forall k | k in base.order :: k in g.order
    ensures
      var h := WriteMentions(cfg, base, g, os);
      Valid(h) && Stored(h.order, h.entities) && Earlier(h.order, h.entities) && Grown(g.entities, h.entities)
      && forall k | k in g.order :: k in h.order
  {
    if os != [] {
      var p, o := os[..|os| - 1], os[|os| - 1];
      MentionsGrow(cfg, base, g, p);
      var h := WriteMentions(cfg, base, g, p);
      MentionGrows(cfg, h, o, Decide(cfg, base, o.key));
      GrownStep(g.entities, h.entities, WriteMentions(cfg, base, g, os).entities);
    }
  }

  lemma SoundAfterGrowth(w: World, g: Graph)
    requires Sound(w)
    requires Valid(g) && Stored(g.order, g.entities) && Earlier(g.order, g.entities)
    requires Grown(w.g.entities, g.entities)
    ensures Sound(w.(g := g))
  {
  }

  // ---- decisions ----

  lemma {:induction false} PlanOrigin(rows: map<Key, Entity>, keys: seq<Key>, r: Review, p: (Key, Key))
    requires Stored(keys, rows)
    requires p in PlanOver(rows, keys, r).supersessions
    ensures exists k :: k in keys && !rows[k].invalid && OutcomeOf(rows, k, r.contradicts) == Supersede(p.0, p.1)
  {
    var before, k := keys[..|keys| - 1], keys[|keys| - 1];
    if p in PlanOver(rows, before, r).supersessions {
      PlanOrigin(rows, before, r, p);
      var x :| x in before && !rows[x].invalid && OutcomeOf(rows, x, r.contradicts) == Supersede(p.0, p.1);
      assert x in keys;
    } else {
      assert k in keys;
    }
  }

  lemma OppositeOutcomes(order: seq<Key>, rows: map<Key, Entity>, r: Review, k: Key, k': Key, a: Key, b: Key)
    requires Stored(order, rows) && NoDup(order) && Earlier(order, rows)
    requires k in order && k' in order
    requires OutcomeOf(rows, k, r.contradicts) == Supersede(a, b)
    requires OutcomeOf(rows, k', r.contradicts) == Supersede(b, a)
    ensures false
  {
    PointsBack(order, rows, k);
    PointsBack(order, rows, k');
  }

  lemma DecideSound(g: Graph, r: Review)
    requires Valid(g) && Stored(g.order, g.entities) && Earlier(g.order, g.entities)
    ensures PlanSound(g.entities, PlanOver(g.entities, g.order, r).supersessions)
  {
    var s := PlanOver(g.entities, g.order, r).supersessions;
    forall p | p in s
      ensures Adjacent(g.entities, p.0, p.1) && !g.entities[p.0].invalid && !g.entities[p.1].invalid
      ensures (p.1, p.0) !in s
    {
      PlanOrigin(g.entities, g.order, r, p);
      var k :| k in g.order && !g.entities[k].invalid && OutcomeOf(g.entities, k, r.contradicts) == Supersede(p.0, p.1);
      if (p.1, p.0) in s {
        PlanOrigin(g.entities, g.order, r, (p.1, p.0));
        var k' :| k' in g.order && OutcomeOf(g.entities, k', r.contradicts) == Supersede(p.1, p.0);
        OppositeOutcomes(g.order, g.entities, r, k, k', p.0, p.1);
      }
    }
  }

  // ---- application ----

  // A plan decides stored conflicts, none of them both ways.
  ghost predicate PlanFits(rows: map<Key, Entity>, s: seq<(Key, Key)>) {
    && (forall p | p in s :: Adjacent(rows, p.0, p.1))
    && (forall p | p in s :: (p.1, p.0) !in s)
  }

  // A pair of the plan turns a decision already taken around.
  predicate Opposed(supersedes: set<(Key, Key)>, s: seq<(Key, Key)>) {
    exists p | p in s :: (p.1, p.0) in supersedes
  }

  lemma ApplyFits(rows: map<Key, Entity>, supersedes: set<(Key, Key)>, plan: Plan)
    requires EdgesSound(rows, supersedes)
    requires PlanFits(rows, plan.supersessions) && !Opposed(supersedes, plan.supersessions)
    ensures EdgesSound(ApplyPlan(rows, plan), supersedes + Elems(plan.supersessions))
  {
    var rows', s := ApplyPlan(rows, plan), plan.supersessions;
    var all := supersedes + Elems(s);
    forall e | e in all
      ensures Adjacent(rows', e.0, e.1) && rows'[e.1].invalid && (e.1, e.0) !in all
    {
      assert e in s ==> e.1 in Losers(s);
      assert e in supersedes ==> (e.1, e.0) !in s;
    }
    forall k | k in rows' && rows'[k].invalid ensures exists e | e in all :: e.1 == k {
      if rows[k].invalid {
        var e :| e in supersedes && e.1 == k;
        assert e in all;
      } else {
        var p :| p in s && p.1 == k;
        assert p in all;
      }
    }
  }

  lemma ApplySound(rows: map<Key, Entity>, supersedes: set<(Key, Key)>, plan: Plan)
    requires EdgesSound(rows, supersedes)
    requires PlanSound(rows, plan.supersessions)
    ensures EdgesSound(ApplyPlan(rows, plan), supersedes + Elems(plan.supersessions))
    ensures forall p | p in plan.supersessions :: p !in supersedes && (p.1, p.0) !in supersedes
  {
    forall p | p in plan.supersessions ensures p !in supersedes && (p.1, p.0) !in supersedes {
      assert Adjacent(rows, p.0, p.1) && !rows[p.0].invalid && !rows[p.1].invalid;
    }
    ApplyFits(rows, supersedes, plan);
  }

  // An event on the graph alone keeps the order of conflict pointers and lets the rows grow.
  predicate OnGraph(e: Event) {
    e.Write? || e.WriteMany? || e.Label?
  }

  lemma GraphEventGrows(cfg: Config, w: World, e: Event)
    requires Valid(w.g) && Stored(w.g.order, w.g.entities) && Earlier(w.g.order, w.g.entities) && OnGraph(e)
    ensures var g := Step(cfg, w, e).g;
      && Step(cfg, w, e) == w.(g := g)
      && Valid(g) && Stored(g.order, g.entities) && Earlier(g.order, g.entities) && Grown(w.g.entities, g.entities)
  {
    match e
    case Write(m) =>
      MentionsGrow(cfg, w.g, w.g, MentionsOf(m, m.entities));
      WriteOneValid(cfg, w.g, m);
    case WriteMany(ms) =>
      FoldIsBatch(cfg, w.g, BatchMentionList(ms));
      MentionsGrow(cfg, w.g, w.g, BatchMentionList(ms));
    case Label(labels) =>
      EarlierSame(w.g.order, w.g.entities, Labelled(w.g.entities, labels));
  }

  /** Every step keeps the invariant, whatever the verdicts, summaries and labels. */
  lemma StepSound(cfg: Config, w: World, e: Event)
    requires Sound(w)
    ensures Sound(Step(cfg, w, e))
  {
    match e
    case Write(_) | WriteMany(_) | Label(_) =>
      GraphEventGrows(cfg, w, e);
      SoundAfterGrowth(w, Step(cfg, w, e).g);
    case Begin(r) =>
      DecideSound(w.g, r);
    case Finish =>
      if w.pending.Some? && !Tripped(w.pending.value.plan, w.pending.value.breaker) {
        var plan := w.pending.value.plan;
        ApplySound(w.g.entities, w.supersedes, plan);
        EarlierSame(w.g.order, w.g.entities, ApplyPlan(w.g.entities, plan));
      }
  }

  // ---- runs ----

  function Run(cfg: Config, w: World, events: seq<Event>): (r: World)
    requires Sound(w)
    ensures Sound(r)
  {
    if events == [] then w
    else
      var before := Run(cfg, w, events[..|events| - 1]);
      StepSound(cfg, before, events[|events| - 1]);
      Step(cfg, before, events[|events| - 1])
  }

  const EMPTY := World(Graph(map[], [], {}, {}, map[]), {}, None)

  lemma EmptyIsSound()
    ensures Sound(EMPTY)
  {
  }

  // ---- what the invariant means ----

  // A set of entities no conflict pointer leaves or enters: any union of conflict clusters.
  ghost predicate Closed(rows: map<Key, Entity>, cluster: set<Key>) {
    && cluster <= rows.Keys
    && forall k {:trigger rows[k]} | k in rows && rows[k].conflictWith.Some? :: k in cluster <==> rows[k].conflictWith.value in cluster
  }

  // The conflict pointer that deprecated `x`, named by the entity that carries it.
  ghost function Cause(rows: map<Key, Entity>, supersedes: set<(Key, Key)>, x: Key): (c: Key)
    requires EdgesSound(rows, supersedes)
    requires x in rows && rows[x].invalid
    ensures c in rows && rows[c].conflictWith.Some?
    ensures exists w :: (w, x) in supersedes && ((c == w && rows[w].conflictWith == Some(x)) || (c == x && rows[x].conflictWith == Some(w)))
  {
    var e :| e in supersedes && e.1 == x;
    if rows[e.0].conflictWith == Some(x) then e.0 else x
  }

  lemma CauseInjective(rows: map<Key, Entity>, supersedes: set<(Key, Key)>, x: Key, y: Key)
    requires EdgesSound(rows, supersedes)
    requires x in rows && rows[x].invalid && y in rows && rows[y].invalid
    requires Cause(rows, supersedes, x) == Cause(rows, supersedes, y)
    ensures x == y
  {
    var c := Cause(rows, supersedes, x);
    var w :| (w, x) in supersedes && ((c == w && rows[w].conflictWith == Some(x)) || (c == x && rows[x].conflictWith == Some(w)));
    var v :| (v, y) in supersedes && ((c == v && rows[v].conflictWith == Some(y)) || (c == y && rows[y].conflictWith == Some(v)));
    var e := (w, x);
    assert e in supersedes && (e.1, e.0) !in supersedes;
  }

  // Deprecated entities are at most as many as the pointers that caused it.
  lemma {:induction false} CausesCount(rows: map<Key, Entity>, supersedes: set<(Key, Key)>, xs: set<Key>, causes: set<Key>)
    requires EdgesSound(rows, supersedes)
    requires forall x | x in xs :: x in rows && rows[x].invalid
    requires forall x {:trigger Cause(rows, supersedes, x)} | x in xs :: Cause(rows, supersedes, x) in causes
    ensures |xs| <= |causes|
  {
    if xs != {} {
      var x :| x in xs;
      var c := Cause(rows, supersedes, x);
      forall y | y in xs - {x} ensures Cause(rows, supersedes, y) in causes - {c} {
        if Cause(rows, supersedes, y) == c {
          CauseInjective(rows, supersedes, x, y);
        }
      }
      CausesCount(rows, supersedes, xs - {x}, causes - {c});
    }
  }

  // The first created entity of a set.
  lemma {:induction false} FirstCreated(order: seq<Key>, cluster: set<Key>) returns (r: Key)
    requires NoDup(order) && cluster != {} && forall k | k in cluster :: k in order
    ensures r in cluster && forall k | k in cluster :: Position(order, r) <= Position(order, k)
  {
    var last, before := order[|order| - 1], order[..|order| - 1];
    if cluster <= {last} {
      r := last;
    } else {
      r := FirstCreated(before, cluster - {last});
      PositionBound(before, r);
    }
  }

  /** No conflict cluster is ever wiped out: it keeps an entity that is not deprecated. */
  lemma ClusterSurvives(w: World, cluster: set<Key>)
    requires Sound(w)
    requires cluster != {} && Closed(w.g.entities, cluster)
    ensures exists k :: k in cluster && !w.g.entities[k].invalid
  {
    var rows := w.g.entities;
    forall k | k in cluster ensures k in w.g.order {
      assert k in Elems(w.g.order);
    }
    var root := FirstCreated(w.g.order, cluster);
    if rows[root].conflictWith.Some? {
      PointsBack(w.g.order, rows, root);
    }
    if forall k | k in cluster :: rows[k].invalid {
      CausesInside(rows, w.supersedes, cluster, root);
      TooManyCauses(rows, w.supersedes, cluster, cluster - {root});
    }
  }

  // A set of deprecated entities has a cause outside any smaller set.
  lemma TooManyCauses(rows: map<Key, Entity>, supersedes: set<(Key, Key)>, xs: set<Key>, causes: set<Key>)
    requires EdgesSound(rows, supersedes)
    requires forall x | x in xs :: x in rows && rows[x].invalid
    requires |causes| < |xs|
    ensures exists x | x in xs :: Cause(rows, supersedes, x) !in causes
  {
    if forall x {:trigger Cause(rows, supersedes, x)} | x in xs :: Cause(rows, supersedes, x) in causes {
      CausesCount(rows, supersedes, xs, causes);
    }
  }

  lemma CausesInside(rows: map<Key, Entity>, supersedes: set<(Key, Key)>, cluster: set<Key>, root: Key)
    requires EdgesSound(rows, supersedes) && Closed(rows, cluster)
    requires root in cluster && rows[root].conflictWith.None?
    requires forall k | k in cluster :: rows[k].invalid
    ensures forall x {:trigger Cause(rows, supersedes, x)} | x in cluster :: Cause(rows, supersedes, x) in cluster - {root}
  {
    forall x {:trigger Cause(rows, supersedes, x)} | x in cluster
      ensures Cause(rows, supersedes, x) in cluster - {root}
    {
      CauseInside(rows, supersedes, cluster, root, x);
    }
  }

  lemma CauseInside(rows: map<Key, Entity>, supersedes: set<(Key, Key)>, cluster: set<Key>, root: Key, x: Key)
    requires EdgesSound(rows, supersedes) && Closed(rows, cluster)
    requires root in cluster && rows[root].conflictWith.None?
    requires x in cluster && rows[x].invalid
    ensures Cause(rows, supersedes, x) in cluster - {root}
  {
  }

  // A closed walk along Supersedes edges.
  ghost predicate Cycle(supersedes: set<(Key, Key)>, path: seq<Key>) {
    && |path| >= 2 && path[0] == path[|path| - 1]
    && forall i | 0 <= i < |path| - 1 :: (path[i], path[i + 1]) in supersedes
  }

  lemma {:induction false} LatestOf(order: seq<Key>, path: seq<Key>) returns (i: nat)
    requires path != [] && forall j | 0 <= j < |path| :: path[j] in order
    ensures i < |path| && forall j | 0 <= j < |path| :: Position(order, path[j]) <= Position(order, path[i])
  {
    i := 0;
    for n := 1 to |path|
      invariant i < n && forall j | 0 <= j < n :: Position(order, path[j]) <= Position(order, path[i])
    {
      if Position(order, path[n]) > Position(order, path[i]) {
        i := n;
      }
    }
  }

  lemma OlderNeighbour(w: World, m: Key, x: Key)
    requires Sound(w)
    requires Adjacent(w.g.entities, m, x)
    requires m in w.g.order && x in w.g.order
    requires Position(w.g.order, x) <= Position(w.g.order, m)
    ensures w.g.entities[m].conflictWith == Some(x)
  {
    if w.g.entities[x].conflictWith == Some(m) {
      PointsBack(w.g.order, w.g.entities, x);
    }
  }

  /** Supersedes has no cycle. */
  lemma SupersedesAcyclic(w: World, path: seq<Key>)
    requires Sound(w)
    ensures !Cycle(w.supersedes, path)
  {
    if Cycle(w.supersedes, path) {
      var n := |path| - 1;
      var walk := path[..n];
      forall j | 0 <= j < n ensures walk[j] in w.g.order {
        var e := (path[j], path[j + 1]);
        assert e in w.supersedes;
        assert e.0 in Elems(w.g.order);
      }
      var i := LatestOf(w.g.order, walk);
      var into, out := (path[if i == 0 then n - 1 else i - 1], path[i]), (path[i], path[i + 1]);
      assert into in w.supersedes && out in w.supersedes;
      assert (into.1, into.0) !in w.supersedes;
      assert path[i + 1] == if i + 1 == n then walk[0] else walk[i + 1];
      OlderNeighbour(w, path[i], into.0);
      OlderNeighbour(w, path[i], out.1);
    }
  }

  /** A conflict decided once is never decided again, and what a pass deprecates stays so. */
  lemma DecidedOnce(cfg: Config, w: World, e: Event)
    requires Sound(w)
    ensures
      var w' := Step(cfg, w, e);
      && w.supersedes <= w'.supersedes
      && (forall p | p in w'.supersedes && p !in w.supersedes :: (p.1, p.0) !in w.supersedes)
      && (forall k | k in w.g.entities :: k in w'.g.entities && (w.g.entities[k].invalid ==> w'.g.entities[k].invalid))
  {
    StepSound(cfg, w, e);
    match e
    case Write(_) | WriteMany(_) | Label(_) => GraphEventGrows(cfg, w, e);
    case Begin(r) =>
    case Finish =>
      if w.pending.Some? {
        ApplySound(w.g.entities, w.supersedes, w.pending.value.plan);
      }
  }

  function RunFromEmpty(cfg: Config, events: seq<Event>): (w: World)
    ensures Sound(w)
  {
    EmptyIsSound();
    Run(cfg, EMPTY, events)
  }

  /** The same over whole runs: from an empty store, after any events, every cluster has a
      survivor and Supersedes has no cycle. */
  lemma RunIsSafe(cfg: Config, events: seq<Event>, cluster: set<Key>, path: seq<Key>)
    requires cluster != {} && Closed(RunFromEmpty(cfg, events).g.entities, cluster)
    ensures exists k :: k in cluster && !RunFromEmpty(cfg, events).g.entities[k].invalid
    ensures !Cycle(RunFromEmpty(cfg, events).supersedes, path)
  {
    ClusterSurvives(RunFromEmpty(cfg, events), cluster);
    SupersedesAcyclic(RunFromEmpty(cfg, events), path);
  }

  /** An undisturbed pass is its two steps: what `DreamGraph.RunDreamState` leaves. */
  lemma PassIsTwoSteps(cfg: Config, w: World, r: Review)
    requires Sound(w) && w.pending.None?
    ensures
      var plan := PlanOver(w.g.entities, w.g.order, r);
      var w' := Run(cfg, w, [Begin(r), Finish]);
      if Tripped(plan, r.breaker) then w' == w
      else w' == World(w.g.(entities := ApplyPlan(w.g.entities, plan)), w.supersedes + Elems(plan.supersessions), None)
  {
    assert [Begin(r), Finish][..1] == [Begin(r)] && [Begin(r)][..0] == [];
    assert Run(cfg, w, [Begin(r)]) == Step(cfg, w, Begin(r));
  }
}
