/** The two write queues and the workers that drain them, one step at a time. */
module QueueModel {
  import opened Common

  // `body` stands for the fields the idempotency key does not cover.
  datatype Intent = Intent(key: int, tenant: int, body: int)

  datatype Claim = Claim(intent: Intent, handle: nat)

  // A worker between two claims, retrying a commit, or done with it and about to ack.
  datatype Phase = Idle | Working(claim: Claim, tried: nat) | Done(claim: Claim)

  // ---- the durable queue ----

  datatype Doc = Doc(intent: Intent, enqueuedAt: int, leasedUntil: Option<int>)

  // `nextKey` is the next document key; keys are never reused.
  datatype Durable = Durable(docs: map<nat, Doc>, nextKey: nat)

  predicate Free(d: Doc, now: int) {
    d.leasedUntil.None? || d.leasedUntil.value < now
  }

  predicate Oldest(q: Durable, h: nat, now: int) {
    && h in q.docs && Free(q.docs[h], now)
    && forall g | g in q.docs && Free(q.docs[g], now) :: q.docs[h].enqueuedAt <= q.docs[g].enqueuedAt
  }

  function Push(q: Durable, intent: Intent, now: int): Durable {
    Durable(q.docs[q.nextKey := Doc(intent, now, None)], q.nextKey + 1)
  }

  function Lease(q: Durable, h: nat, leasedUntil: Option<int>): Durable
    requires h in q.docs
  {
    q.(docs := q.docs[h := q.docs[h].(leasedUntil := leasedUntil)])
  }

  function Drop(q: Durable, h: nat): Durable {
    q.(docs := q.docs - {h})
  }

  function OfTenant(q: Durable, tenant: int): set<nat> {
    set h | h in q.docs && q.docs[h].intent.tenant == tenant
  }

  // ---- the queue, its workers and the stores behind them ----

  datatype Leased = Leased(worker: nat, handle: nat, from: int, until: int)

  // The latest claim of a document.
  function LatestOf(claims: seq<Leased>, h: nat): (i: Option<nat>)
    ensures i.Some? ==> i.value < |claims| && claims[i.value].handle == h
    ensures forall j | (if i.Some? then i.value + 1 else 0) <= j < |claims| :: claims[j].handle != h
  {
    if claims == [] then None
    else if claims[|claims| - 1].handle == h then Some(|claims| - 1)
    else LatestOf(claims[..|claims| - 1], h)
  }

  // Whether the latest claim of a document is this worker's.
  predicate HeldBy(claims: seq<Leased>, h: nat, w: nat) {
    LatestOf(claims, h).Some? && claims[LatestOf(claims, h).value].worker == w
  }

  // What the database holds (`queue`, `dead`), where each worker is, and the history: every intent
  // enqueued by document key, the keys whose intent was committed or given up, every claim made, and which
  // of them their worker gave back while the document was still its own.
  datatype System = System(
    queue: Durable,
    dead: map<int, Intent>,
    phases: map<nat, Phase>,
    log: map<nat, Intent>,
    committed: set<nat>,
    gaveUp: set<nat>,
    claims: seq<Leased>,
    released: set<nat>)

  datatype Event =
    | Enqueue(intent: Intent, now: int)
    | TakeClaim(w: nat, h: nat, now: int)
    | CommitOk(w: nat)
    | CommitFails(w: nat)
    | DeadLetter(w: nat)
    | Ack(w: nat)
    | Nack(w: nat)
    | Crash(w: nat)
    | ClearDead(key: int)

  const EMPTY := System(Durable(map[], 0), map[], map[], map[], {}, {}, [], {})

  function PhaseOf(s: System, w: nat): Phase {
    if w in s.phases then s.phases[w] else Idle
  }

  predicate Enabled(s: System, e: Event, retries: nat) {
    match e
    case Enqueue(_, _) => true
    case TakeClaim(w, h, now) => PhaseOf(s, w).Idle? && Oldest(s.queue, h, now)
    case CommitOk(w) => PhaseOf(s, w).Working? && PhaseOf(s, w).tried < retries
    case CommitFails(w) => PhaseOf(s, w).Working? && PhaseOf(s, w).tried < retries
    case DeadLetter(w) => PhaseOf(s, w).Working? && PhaseOf(s, w).tried == retries
    case Ack(w) => PhaseOf(s, w).Done?
    case Nack(w) => PhaseOf(s, w).Working?
    case Crash(w) => true
    case ClearDead(key) => key in s.dead
  }

  function Next(s: System, e: Event, retries: nat, lease: nat): System
    requires Enabled(s, e, retries)
  {
    match e
    case Enqueue(intent, now) =>
      s.(queue := Push(s.queue, intent, now), log := s.log[s.queue.nextKey := intent])
    case TakeClaim(w, h, now) =>
      s.(queue := Lease(s.queue, h, Some(now + lease)),
         phases := s.phases[w := Working(Claim(s.queue.docs[h].intent, h), 0)],
         claims := s.claims + [Leased(w, h, now, now + lease)])
    case CommitOk(w) =>
      var c := PhaseOf(s, w).claim;
      s.(phases := s.phases[w := Done(c)], committed := s.committed + {c.handle})
    case CommitFails(w) =>
      s.(phases := s.phases[w := Working(PhaseOf(s, w).claim, PhaseOf(s, w).tried + 1)])
    case DeadLetter(w) =>
      var c := PhaseOf(s, w).claim;
      s.(phases := s.phases[w := Done(c)], gaveUp := s.gaveUp + {c.handle}, dead := s.dead[c.intent.key := c.intent])
    case Ack(w) =>
      s.(phases := s.phases[w := Idle], queue := Drop(s.queue, PhaseOf(s, w).claim.handle))
    case Nack(w) =>
      var h := PhaseOf(s, w).claim.handle;
      s.(phases := s.phases[w := Idle], queue := if h in s.queue.docs then Lease(s.queue, h, None) else s.queue,
         released := if HeldBy(s.claims, h, w) then s.released + {LatestOf(s.claims, h).value} else s.released)
    case Crash(w) => s.(phases := s.phases[w := Idle])
    case ClearDead(key) => s.(dead := s.dead - {key})
  }

  // An event that is not possible where it stands changes nothing.
  function Then(s: System, e: Event, retries: nat, lease: nat): System {
    if Enabled(s, e, retries) then Next(s, e, retries, lease) else s
  }

  function After(events: seq<Event>, retries: nat, lease: nat): System {
    if events == [] then EMPTY
    else Then(After(events[..|events| - 1], retries, lease), events[|events| - 1], retries, lease)
  }

  // The state in which event `a` of a run is met.
  function Before(events: seq<Event>, a: nat, retries: nat, lease: nat): System
    requires a <= |events|
  {
    After(events[..a], retries, lease)
  }

  // ---- the in-process queue ----

  datatype Memory = Memory(pending: seq<Intent>, inflight: map<nat, Intent>, nextKey: nat)

  function CountIn(s: seq<Intent>, f: Intent -> bool): nat {
    if s == [] then 0 else CountIn(s[..|s| - 1], f) + if f(s[|s| - 1]) then 1 else 0
  }

  function CountHeld(inflight: map<nat, Intent>, n: nat, f: Intent -> bool): nat {
    if n == 0 then 0 else CountHeld(inflight, n - 1, f) + if n - 1 in inflight && f(inflight[n - 1]) then 1 else 0
  }

  function Outstanding(q: Memory, f: Intent -> bool): nat {
    CountIn(q.pending, f) + CountHeld(q.inflight, q.nextKey, f)
  }

  function TenantIs(tenant: int): Intent -> bool {
    (i: Intent) => i.tenant == tenant
  }

  function Is(intent: Intent): Intent -> bool {
    (i: Intent) => i == intent
  }

  datatype Local = Local(
    queue: Memory,
    phases: map<nat, Phase>,
    log: seq<Intent>,
    settled: set<Intent>,
    acked: seq<Intent>)

  datatype LocalEvent =
    | LocalEnqueue(intent: Intent)
    | LocalClaim(w: nat)
    | LocalSettle(w: nat)
    | LocalAck(w: nat)
    | LocalNack(w: nat)
    | LocalCrash(w: nat)

  const NOTHING := Local(Memory([], map[], 0), map[], [], {}, [])

  function LocalPhase(s: Local, w: nat): Phase {
    if w in s.phases then s.phases[w] else Idle
  }

  predicate LocalEnabled(s: Local, e: LocalEvent) {
    match e
    case LocalEnqueue(_) => true
    case LocalClaim(w) => LocalPhase(s, w).Idle? && s.queue.pending != []
    case LocalSettle(w) => LocalPhase(s, w).Working?
    case LocalAck(w) => LocalPhase(s, w).Done?
    case LocalNack(w) => LocalPhase(s, w).Working?
    case LocalCrash(w) => true
  }

  function Pop(q: Memory): Memory
    requires q.pending != []
  {
    Memory(q.pending[1..], q.inflight[q.nextKey := q.pending[0]], q.nextKey + 1)
  }

  function Forget(q: Memory, h: nat): Memory {
    q.(inflight := q.inflight - {h})
  }

  function GiveBack(q: Memory, c: Claim): Memory {
    if c.handle in q.inflight then Forget(q, c.handle).(pending := [c.intent] + q.pending) else q
  }

  function LocalNext(s: Local, e: LocalEvent): Local
    requires LocalEnabled(s, e)
  {
    match e
    case LocalEnqueue(intent) =>
      s.(queue := s.queue.(pending := s.queue.pending + [intent]), log := s.log + [intent])
    case LocalClaim(w) =>
      s.(queue := Pop(s.queue), phases := s.phases[w := Working(Claim(s.queue.pending[0], s.queue.nextKey), 0)])
    case LocalSettle(w) =>
      var c := LocalPhase(s, w).claim;
      s.(phases := s.phases[w := Done(c)], settled := s.settled + {c.intent})
    case LocalAck(w) =>
      var c := LocalPhase(s, w).claim;
      s.(phases := s.phases[w := Idle], queue := Forget(s.queue, c.handle),
         acked := if c.handle in s.queue.inflight then s.acked + [c.intent] else s.acked)
    case LocalNack(w) =>
      s.(phases := s.phases[w := Idle], queue := GiveBack(s.queue, LocalPhase(s, w).claim))
    case LocalCrash(w) => s.(phases := s.phases[w := Idle])
  }

  function LocalAfter(events: seq<LocalEvent>): Local {
    if events == [] then NOTHING
    else
      var s, e := LocalAfter(events[..|events| - 1]), events[|events| - 1];
      if LocalEnabled(s, e) then LocalNext(s, e) else s
  }
}
