/** What the queues can always still do: whatever happened, one worker can claim, commit and ack what is left. */
module QueueLiveness {
  import opened Common
  import opened QueueModel
  import opened QueueSafety

  // ---- claims and tries ----

  /** A claim takes a document that is unleased or whose lease is over, and no such document was enqueued earlier. */
  lemma ClaimExactly(s: System, w: nat, h: nat, now: int, retries: nat)
    ensures Enabled(s, TakeClaim(w, h, now), retries) <==>
      && (w !in s.phases || s.phases[w] == Idle)
      && h in s.queue.docs && (s.queue.docs[h].leasedUntil == None || s.queue.docs[h].leasedUntil.value < now)
      && forall g | g in s.queue.docs && s.queue.docs[g].enqueuedAt < s.queue.docs[h].enqueuedAt ::
           s.queue.docs[g].leasedUntil.Some? && s.queue.docs[g].leasedUntil.value >= now
  {
  }

  // How often a worker has failed since its last claim.
  function Fails(events: seq<Event>, w: nat, retries: nat, lease: nat): nat {
    if events == [] then 0
    else
      var p, e := events[..|events| - 1], events[|events| - 1];
      var before := Fails(p, w, retries, lease);
      if !Enabled(After(p, retries, lease), e, retries) then before
      else if e.TakeClaim? && e.w == w then 0
      else if e == CommitFails(w) then before + 1
      else before
  }

  lemma {:induction false} TriedCounts(events: seq<Event>, w: nat, retries: nat, lease: nat)
    ensures var s := After(events, retries, lease);
      PhaseOf(s, w).Working? ==> PhaseOf(s, w).tried == Fails(events, w, retries, lease) <= retries
  {
    if events != [] {
      TriedCounts(events[..|events| - 1], w, retries, lease);
    }
  }

  /** A worker tries a commit while it has failed fewer than `retries` times since its claim, and gives up exactly
      after that many. */
  lemma TriesExactly(events: seq<Event>, w: nat, retries: nat, lease: nat)
    ensures var s, n := After(events, retries, lease), Fails(events, w, retries, lease);
      && (Enabled(s, CommitOk(w), retries) <==> PhaseOf(s, w).Working? && n < retries)
      && (Enabled(s, CommitFails(w), retries) <==> PhaseOf(s, w).Working? && n < retries)
      && (Enabled(s, DeadLetter(w), retries) <==> PhaseOf(s, w).Working? && n == retries)
  {
    TriedCounts(events, w, retries, lease);
  }

  // ---- the durable queue ----

  lemma {:induction false} OldestOf(docs: map<nat, Doc>, keys: set<nat>) returns (h: nat)
    requires keys != {} && keys <= docs.Keys
    ensures h in keys && forall g | g in keys :: docs[h].enqueuedAt <= docs[g].enqueuedAt
  {
    h :| h in keys;
    if keys != {h} {
      var g := OldestOf(docs, keys - {h});
      if docs[g].enqueuedAt < docs[h].enqueuedAt {
        h := g;
      }
    }
  }

  lemma {:induction false} LateEnough(docs: map<nat, Doc>, keys: set<nat>) returns (now: int)
    requires keys <= docs.Keys
    ensures forall g | g in keys :: Free(docs[g], now)
  {
    now := 0;
    if keys != {} {
      var h :| h in keys;
      now := LateEnough(docs, keys - {h});
      if docs[h].leasedUntil.Some? && docs[h].leasedUntil.value >= now {
        now := docs[h].leasedUntil.value + 1;
      }
    }
  }

  // A worker that starts afresh, claims, commits at once and acks.
  function Serve(w: nat, h: nat, now: int): seq<Event> {
    [Crash(w), TakeClaim(w, h, now), CommitOk(w), Ack(w)]
  }

  lemma ServeSteps(s: System, w: nat, h: nat, now: int, retries: nat, lease: nat)
    requires retries > 0 && Oldest(s.queue, h, now)
    ensures var t := Then(Then(Then(Then(s, Crash(w), retries, lease), TakeClaim(w, h, now), retries, lease),
                               CommitOk(w), retries, lease), Ack(w), retries, lease);
      t.queue.docs.Keys == s.queue.docs.Keys - {h} && t.committed == s.committed + {h} && t.log == s.log && t.dead == s.dead
  {
    var s1 := Then(s, Crash(w), retries, lease);
    assert PhaseOf(s1, w).Idle? && s1.queue == s.queue;
    var s2 := Then(s1, TakeClaim(w, h, now), retries, lease);
    assert PhaseOf(s2, w) == Working(Claim(s.queue.docs[h].intent, h), 0);
    var s3 := Then(s2, CommitOk(w), retries, lease);
    assert PhaseOf(s3, w) == Done(Claim(s.queue.docs[h].intent, h));
  }

  lemma ServeOne(p: seq<Event>, w: nat, retries: nat, lease: nat) returns (h: nat, now: int)
    requires retries > 0 && After(p, retries, lease).queue.docs != map[]
    ensures var s, t := After(p, retries, lease), After(p + Serve(w, h, now), retries, lease);
      && h in s.queue.docs && t.queue.docs.Keys == s.queue.docs.Keys - {h}
      && t.committed == s.committed + {h} && t.log == s.log && t.dead == s.dead
  {
    var s := After(p, retries, lease);
    h := OldestOf(s.queue.docs, s.queue.docs.Keys);
    now := LateEnough(s.queue.docs, s.queue.docs.Keys);
    Appended4(p, Crash(w), TakeClaim(w, h, now), CommitOk(w), Ack(w), retries, lease);
    ServeSteps(s, w, h, now, retries, lease);
  }

  lemma SetsJoin<T>(done: set<T>, left: set<T>, h: T)
    requires h in left
    ensures done + {h} + (left - {h}) == done + left
  {
  }

  /** After any run, however many workers crashed and whatever is leased, there is a continuation in which one worker
      commits and acks every document left, and nothing else changes hands. */
  lemma {:induction false} CanDrain(p: seq<Event>, w: nat, retries: nat, lease: nat, left: set<nat>) returns (q: seq<Event>)
    requires retries > 0 && left == After(p, retries, lease).queue.docs.Keys
    ensures var s, t := After(p, retries, lease), After(p + q, retries, lease);
      t.queue.docs.Keys == {} && t.committed == s.committed + left && t.log == s.log && t.dead == s.dead
    decreases left
  {
    if left == {} {
      q := [];
      assert p + q == p;
    } else {
      var h, now := ServeOne(p, w, retries, lease);
      var rest := CanDrain(p + Serve(w, h, now), w, retries, lease, left - {h});
      q := Serve(w, h, now) + rest;
      assert p + q == p + Serve(w, h, now) + rest;
      SetsJoin(After(p, retries, lease).committed, left, h);
    }
  }

  // ---- the in-process queue ----

  lemma LocalAppended(p: seq<LocalEvent>, e: LocalEvent)
    ensures LocalAfter(p + [e]) == if LocalEnabled(LocalAfter(p), e) then LocalNext(LocalAfter(p), e) else LocalAfter(p)
  {
    assert (p + [e])[..|p|] == p;
  }

  function LocalServe(w: nat): seq<LocalEvent> {
    [LocalCrash(w), LocalClaim(w), LocalSettle(w), LocalAck(w)]
  }

  lemma LocalServeOne(p: seq<LocalEvent>, w: nat)
    requires LocalAfter(p).queue.pending != [] && HandlesBelow(LocalAfter(p).queue)
    ensures var s, t := LocalAfter(p), LocalAfter(p + LocalServe(w));
      && t.queue.pending == s.queue.pending[1..] && t.queue.inflight == s.queue.inflight && t.log == s.log
      && t.settled == s.settled + {s.queue.pending[0]} && t.acked == s.acked + [s.queue.pending[0]]
  {
    var s := LocalAfter(p);
    LocalAppended(p, LocalCrash(w));
    LocalAppended(p + [LocalCrash(w)], LocalClaim(w));
    LocalAppended(p + [LocalCrash(w)] + [LocalClaim(w)], LocalSettle(w));
    LocalAppended(p + [LocalCrash(w)] + [LocalClaim(w)] + [LocalSettle(w)], LocalAck(w));
    assert p + LocalServe(w) == p + [LocalCrash(w)] + [LocalClaim(w)] + [LocalSettle(w)] + [LocalAck(w)];
    var s1 := LocalNext(s, LocalCrash(w));
    assert LocalPhase(s1, w).Idle? && s1.queue == s.queue;
    var s2 := LocalNext(s1, LocalClaim(w));
    assert LocalPhase(s2, w).Working? && LocalPhase(s2, w).claim == Claim(s.queue.pending[0], s.queue.nextKey);
    var s3 := LocalNext(s2, LocalSettle(w));
    assert LocalPhase(s3, w).Done? && s3.queue == s2.queue;
    assert s2.queue.inflight - {s.queue.nextKey} == s.queue.inflight;
  }

  /** What waits there can be settled and acked too, in the order it was enqueued; what was in flight when its
      worker crashed stays in flight. */
  lemma {:induction false} LocalCanDrain(p: seq<LocalEvent>, w: nat) returns (q: seq<LocalEvent>)
    ensures var s, t := LocalAfter(p), LocalAfter(p + q);
      && t.queue.pending == [] && t.queue.inflight == s.queue.inflight && t.log == s.log
      && t.acked == s.acked + s.queue.pending && t.settled == s.settled + Elems(s.queue.pending)
    decreases |LocalAfter(p).queue.pending|
  {
    var s := LocalAfter(p);
    LocalAfterSound(p);
    if s.queue.pending == [] {
      q := [];
      assert p + q == p;
    } else {
      LocalServeOne(p, w);
      var rest := LocalCanDrain(p + LocalServe(w), w);
      q := LocalServe(w) + rest;
      assert p + q == p + LocalServe(w) + rest;
      assert s.queue.pending == [s.queue.pending[0]] + s.queue.pending[1..];
      AppendElems([s.queue.pending[0]], s.queue.pending[1..]);
    }
  }

  /** Whatever is enqueued waits behind what is there already. */
  lemma EnqueuedWaits(p: seq<LocalEvent>, x: Intent)
    ensures var s, t := LocalAfter(p), LocalAfter(p + [LocalEnqueue(x)]);
      t == s.(queue := s.queue.(pending := s.queue.pending + [x]), log := s.log + [x])
  {
    LocalAppended(p, LocalEnqueue(x));
  }

  // ---- giving back ----

  /** A worker that acked, gave back or crashed holds nothing any more; what it gave back is unleased and otherwise as
      it was, and no other document changes. */
  lemma FreedAfter(s: System, w: nat, retries: nat, lease: nat)
    ensures PhaseOf(s, w).Done? ==> Enabled(s, Ack(w), retries) && PhaseOf(Next(s, Ack(w), retries, lease), w) == Idle
    ensures Enabled(s, Crash(w), retries) && PhaseOf(Next(s, Crash(w), retries, lease), w) == Idle
    ensures Next(s, Crash(w), retries, lease).queue == s.queue && Next(s, Crash(w), retries, lease).dead == s.dead
    ensures PhaseOf(s, w).Working? ==>
      && Enabled(s, Nack(w), retries)
      && var t, h := Next(s, Nack(w), retries, lease), PhaseOf(s, w).claim.handle;
         && PhaseOf(t, w) == Idle && t.queue.docs.Keys == s.queue.docs.Keys && t.log == s.log && t.dead == s.dead
         && (forall g | g in s.queue.docs && g != h :: t.queue.docs[g] == s.queue.docs[g])
         && (h in s.queue.docs ==> t.queue.docs[h] == s.queue.docs[h].(leasedUntil := None))
  {
  }

  /** In the in-process queue an intent given back is the next one claimed, by whichever worker. */
  lemma NackedComesNext(s: Local, w: nat, v: nat)
    requires LocalPhase(s, w).Working? && LocalPhase(s, w).claim.handle in s.queue.inflight
    requires v == w || LocalPhase(s, v).Idle?
    ensures LocalEnabled(s, LocalNack(w))
    ensures var t := LocalNext(s, LocalNack(w));
      && LocalPhase(t, w).Idle? && LocalEnabled(t, LocalClaim(v))
      && LocalPhase(LocalNext(t, LocalClaim(v)), v).Working?
      && LocalPhase(LocalNext(t, LocalClaim(v)), v).claim.intent == LocalPhase(s, w).claim.intent
  {
  }

  lemma LocalFreedAfter(s: Local, w: nat)
    ensures LocalPhase(s, w).Done? ==> LocalEnabled(s, LocalAck(w)) && LocalPhase(LocalNext(s, LocalAck(w)), w).Idle?
    ensures LocalEnabled(s, LocalCrash(w)) && LocalPhase(LocalNext(s, LocalCrash(w)), w).Idle?
    ensures LocalNext(s, LocalCrash(w)).queue == s.queue
    ensures LocalPhase(s, w).Working? && LocalPhase(s, w).claim.handle !in s.queue.inflight
      ==> LocalNext(s, LocalNack(w)).queue == s.queue
  {
  }
}
