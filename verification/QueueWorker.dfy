/** The queues as objects, and the worker's retry and drain loops. */
module QueueWorker {
  import opened Common
  import opened QueueModel
  import opened QueueSafety

  /** First in, first out, with the claimed intents held aside until they are acked. */
  class InProcessQueue {
    var pending: seq<Intent>
    var inflight: map<nat, Intent>
    var handles: nat

    function State(): Memory
      reads this
    {
      Memory(pending, inflight, handles)
    }

    constructor ()
      ensures State() == NOTHING.queue
    {
      pending, inflight, handles := [], map[], 0;
    }

    method Enqueue(intent: Intent)
      modifies this
      ensures State() == old(State()).(pending := old(pending) + [intent])
    {
      pending := pending + [intent];
    }

    method TakeClaim() returns (r: Option<Claim>)
      modifies this
      ensures r == if old(pending) == [] then None else Some(Claim(old(pending)[0], old(handles)))
      ensures State() == if old(pending) == [] then old(State()) else Pop(old(State()))
    {
      if pending == [] {
        return None;
      }
      var intent := pending[0];
      pending := pending[1..];
      var handle := handles;
      handles := handles + 1;
      inflight := inflight[handle := intent];
      r := Some(Claim(intent, handle));
    }

    method Ack(claim: Claim)
      modifies this
      ensures State() == Forget(old(State()), claim.handle)
    {
      inflight := inflight - {claim.handle};
    }

    method Nack(claim: Claim)
      modifies this
      ensures State() == GiveBack(old(State()), claim)
    {
      if claim.handle in inflight {
        inflight := inflight - {claim.handle};
        pending := [claim.intent] + pending;
      }
    }

    method PendingCount(tenant: int) returns (n: nat)
      ensures n == Outstanding(State(), TenantIs(tenant))
    {
      var waiting: nat, held: nat, i := 0, 0, 0;
      while i < |pending|
        invariant 0 <= i <= |pending|
        invariant waiting == CountIn(pending[..i], TenantIs(tenant))
      {
        CountSnoc(pending[..i], pending[i], TenantIs(tenant));
        assert pending[..i + 1] == pending[..i] + [pending[i]];
        if pending[i].tenant == tenant {
          waiting := waiting + 1;
        }
        i := i + 1;
      }
      assert pending[..i] == pending;
      i := 0;
      while i < handles
        invariant 0 <= i <= handles
        invariant held == CountHeld(inflight, i, TenantIs(tenant))
      {
        if i in inflight && inflight[i].tenant == tenant {
          held := held + 1;
        }
        i := i + 1;
      }
      n := waiting + held;
    }
  }

  /** The durable queue: a collection of documents with a lease field. */
  class ArangoQueue {
    var docs: map<nat, Doc>
    var nextKey: nat
    const leaseSeconds: nat

    function State(): Durable
      reads this
    {
      Durable(docs, nextKey)
    }

    constructor (leaseSeconds: nat)
      ensures State() == EMPTY.queue && this.leaseSeconds == leaseSeconds
    {
      docs, nextKey := map[], 0;
      this.leaseSeconds := leaseSeconds;
    }

    method Enqueue(intent: Intent, now: int)
      modifies this
      ensures State() == Push(old(State()), intent, now)
    {
      docs := docs[nextKey := Doc(intent, now, None)];
      nextKey := nextKey + 1;
    }

    // The query behind a claim: the oldest document free at `now`, if any.
    method FindFree(now: int) returns (r: Option<nat>)
      ensures match r
              case Some(h) => Oldest(State(), h, now)
              case None => forall h | h in docs :: !Free(docs[h], now)
    {
      r := None;
      var rest := docs.Keys;
      while rest != {}
        invariant rest <= docs.Keys
        invariant r.None? ==> forall h | h in docs.Keys - rest :: !Free(docs[h], now)
        invariant r.Some? ==> r.value in docs && Free(docs[r.value], now)
        invariant r.Some? ==> forall h | h in docs.Keys - rest && Free(docs[h], now) ::
                    docs[r.value].enqueuedAt <= docs[h].enqueuedAt
        decreases rest
      {
        var h :| h in rest;
        rest := rest - {h};
        if Free(docs[h], now) && (r.None? || docs[h].enqueuedAt < docs[r.value].enqueuedAt) {
          r := Some(h);
        }
      }
    }

    method TakeClaim(now: int) returns (r: Option<Claim>)
      modifies this
      ensures match r
              case Some(c) =>
                && Oldest(old(State()), c.handle, now)
                && c.intent == old(docs)[c.handle].intent
                && State() == Lease(old(State()), c.handle, Some(now + leaseSeconds))
              case None => State() == old(State()) && forall h | h in docs :: !Free(docs[h], now)
    {
      var found := FindFree(now);
      match found
      case None => r := None;
      case Some(h) =>
        docs := docs[h := docs[h].(leasedUntil := Some(now + leaseSeconds))];
        r := Some(Claim(docs[h].intent, h));
    }

    method Ack(claim: Claim)
      modifies this
      ensures State() == Drop(old(State()), claim.handle)
    {
      docs := docs - {claim.handle};
    }

    // Updating a document that is gone is an error in the database.
    method Nack(claim: Claim) returns (ok: bool)
      modifies this
      ensures ok <==> claim.handle in old(docs)
      ensures State() == if ok then Lease(old(State()), claim.handle, None) else old(State())
    {
      ok := claim.handle in docs;
      if ok {
        docs := docs[claim.handle := docs[claim.handle].(leasedUntil := None)];
      }
    }

    method PendingCount(tenant: int) returns (n: nat)
      ensures n == |OfTenant(State(), tenant)| == |set h | h in docs && docs[h].intent.tenant == tenant|
    {
      var unacked := set h | h in docs && docs[h].intent.tenant == tenant;
      assert unacked == OfTenant(State(), tenant);
      n := |unacked|;
    }
  }

  // ---- the worker ----

  // Whether a commit succeeds: by the number of the intent's turn, counted from the start of the worker, and
  // of the try within that turn.
  type Outcomes = (nat, nat) -> bool

  // The first try of a turn that succeeds, or `retries` when none does.
  function FirstSuccess(outcomes: Outcomes, turn: nat, n: nat, retries: nat): (t: nat)
    requires n <= retries
    ensures n <= t <= retries
    ensures t < retries ==> outcomes(turn, t)
    ensures forall i | n <= i < t :: !outcomes(turn, i)
    decreases retries - n
  {
    if n == retries || outcomes(turn, n) then n else FirstSuccess(outcomes, turn, n + 1, retries)
  }

  predicate Succeeds(outcomes: Outcomes, retries: nat, turn: nat) {
    FirstSuccess(outcomes, turn, 0, retries) < retries
  }

  // What committing a list of intents, from turn `first` on, leaves in the store and among the dead letters.
  function CommittedOf(outcomes: Outcomes, retries: nat, first: nat, s: seq<Intent>): seq<Intent> {
    if s == [] then []
    else
      var n := |s| - 1;
      var before := CommittedOf(outcomes, retries, first, s[..n]);
      if Succeeds(outcomes, retries, first + n) then before + [s[n]] else before
  }

  function DeadOf(outcomes: Outcomes, retries: nat, first: nat, s: seq<Intent>, dead: map<int, Intent>): map<int, Intent> {
    if s == [] then dead
    else
      var n := |s| - 1;
      var before := DeadOf(outcomes, retries, first, s[..n], dead);
      if Succeeds(outcomes, retries, first + n) then before else before[s[n].key := s[n]]
  }

  class WriteWorker {
    const queue: InProcessQueue
    const retries: nat
    const outcomes: Outcomes
    var turns: nat
    var committed: seq<Intent>
    var dead: map<int, Intent>

    constructor (queue: InProcessQueue, retries: nat, outcomes: Outcomes)
      ensures this.queue == queue && this.retries == retries && this.outcomes == outcomes
      ensures turns == 0 && committed == [] && dead == map[]
    {
      this.queue, this.retries, this.outcomes := queue, retries, outcomes;
      turns, committed, dead := 0, [], map[];
    }

    /** Tries to commit until it works or the retries are used up; then the intent is dead-lettered. */
    method Process(intent: Intent) returns (ok: bool)
      modifies this
      ensures ok <==> exists t | 0 <= t < retries :: outcomes(old(turns), t)
      ensures ok <==> Succeeds(outcomes, retries, old(turns))
      ensures turns == old(turns) + 1
      ensures committed == if ok then old(committed) + [intent] else old(committed)
      ensures dead == if ok then old(dead) else old(dead)[intent.key := intent]
    {
      var attempt, turn := 0, turns;
      turns := turns + 1;
      while attempt < retries
        invariant 0 <= attempt <= retries
        invariant committed == old(committed) && dead == old(dead) && turns == turn + 1
        invariant forall t | 0 <= t < attempt :: !outcomes(turn, t)
      {
        if outcomes(turn, attempt) {
          committed := committed + [intent];
          return true;
        }
        attempt := attempt + 1;
      }
      dead := dead[intent.key := intent];
      return false;
    }

    // One claim, one turn, one ack; nothing when nothing waits.
    method DrainOne() returns (found: bool)
      requires forall h | h in queue.inflight :: h < queue.handles
      modifies this, queue
      ensures found <==> old(queue.pending) != []
      ensures queue.inflight == old(queue.inflight) && queue.handles >= old(queue.handles)
      ensures !found ==> queue.pending == [] && committed == old(committed) && dead == old(dead) && turns == old(turns)
      ensures found ==>
        && queue.pending == old(queue.pending)[1..] && turns == old(turns) + 1
        && var x, ok := old(queue.pending)[0], Succeeds(outcomes, retries, old(turns));
           && committed == (if ok then old(committed) + [x] else old(committed))
           && dead == (if ok then old(dead) else old(dead)[x.key := x])
    {
      var claim := queue.TakeClaim();
      found := claim.Some?;
      if found {
        var _ := Process(claim.value.intent);
        queue.Ack(claim.value);
      }
    }

    /** Settles everything queued, oldest first, and nothing else. */
    method Drain() returns (handled: nat)
      requires forall h | h in queue.inflight :: h < queue.handles
      modifies this, queue
      ensures handled == |old(queue.pending)|
      ensures queue.pending == [] && queue.inflight == old(queue.inflight)
      ensures committed == old(committed) + CommittedOf(outcomes, retries, old(turns), old(queue.pending))
      ensures dead == DeadOf(outcomes, retries, old(turns), old(queue.pending), old(dead))
    {
      handled := 0;
      ghost var all := queue.pending;
      while true
        invariant handled <= |all|
        invariant queue.pending == all[handled..] && queue.inflight == old(queue.inflight)
        invariant queue.handles >= old(queue.handles)
        invariant committed == old(committed) + CommittedOf(outcomes, retries, old(turns), all[..handled])
        invariant dead == DeadOf(outcomes, retries, old(turns), all[..handled], old(dead))
        invariant turns == old(turns) + handled
        decreases |queue.pending|
      {
        var found := DrainOne();
        if !found {
          break;
        }
        assert all[..handled + 1][..handled] == all[..handled];
        handled := handled + 1;
      }
      assert all[..handled] == all;
    }
  }

  /** Draining settles each queued intent: committed if some try in its turn succeeds, else a dead letter under
      its key. */
  lemma {:induction false} DrainSettles(outcomes: Outcomes, retries: nat, first: nat, s: seq<Intent>, dead: map<int, Intent>, i: nat)
    requires i < |s|
    ensures if Succeeds(outcomes, retries, first + i) then s[i] in CommittedOf(outcomes, retries, first, s)
            else s[i].key in DeadOf(outcomes, retries, first, s, dead)
  {
    if i < |s| - 1 {
      DrainSettles(outcomes, retries, first, s[..|s| - 1], dead, i);
    }
  }

  // Some try of a turn succeeds.
  predicate Works(outcomes: Outcomes, retries: nat, turn: nat) {
    exists t | 0 <= t < retries :: outcomes(turn, t)
  }

  // `x` has a turn that works out, `first` being that of the first intent.
  predicate Committable(outcomes: Outcomes, retries: nat, first: nat, s: seq<Intent>, x: Intent) {
    s != [] && ((s[|s| - 1] == x && Works(outcomes, retries, first + |s| - 1))
                || Committable(outcomes, retries, first, s[..|s| - 1], x))
  }

  // The last intent of a key whose turn did not work out.
  function LastFailed(outcomes: Outcomes, retries: nat, first: nat, s: seq<Intent>, key: int): Option<Intent> {
    if s == [] then None
    else
      var n := |s| - 1;
      if s[n].key == key && !Works(outcomes, retries, first + n) then Some(s[n])
      else LastFailed(outcomes, retries, first, s[..n], key)
  }

  lemma WorksIsSucceeds(outcomes: Outcomes, retries: nat, turn: nat)
    ensures Succeeds(outcomes, retries, turn) <==> Works(outcomes, retries, turn)
  {
  }

  /** Draining commits exactly the intents in whose turn some try succeeds ... */
  lemma {:induction false} DrainCommits(outcomes: Outcomes, retries: nat, first: nat, s: seq<Intent>, x: Intent)
    ensures x in CommittedOf(outcomes, retries, first, s) <==> Committable(outcomes, retries, first, s, x)
  {
    if s != [] {
      DrainCommits(outcomes, retries, first, s[..|s| - 1], x);
      WorksIsSucceeds(outcomes, retries, first + |s| - 1);
    }
  }

  /** ... and leaves under each key the last intent in whose turn none does, or else the letter that was there. */
  lemma {:induction false} DrainLetters(outcomes: Outcomes, retries: nat, first: nat, s: seq<Intent>, dead: map<int, Intent>, key: int)
    ensures var last, now := LastFailed(outcomes, retries, first, s, key), DeadOf(outcomes, retries, first, s, dead);
      if last.Some? then key in now && now[key] == last.value
      else (key in now <==> key in dead) && (key in dead ==> now[key] == dead[key])
  {
    if s != [] {
      DrainLetters(outcomes, retries, first, s[..|s| - 1], dead, key);
      WorksIsSucceeds(outcomes, retries, first + |s| - 1);
    }
  }
}
