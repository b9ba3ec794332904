/** What dead letters hold, and when replaying and clearing them loses nothing. */
module QueueReplay {
  import opened Common
  import opened QueueModel
  import opened QueueSafety

  // ---- which letter stands ----

  // Event `a` writes a dead letter under `k`.
  predicate Writes(events: seq<Event>, a: nat, k: int, retries: nat, lease: nat)
    requires a < |events|
  {
    var s := Before(events, a, retries, lease);
    events[a].DeadLetter? && Enabled(s, events[a], retries) && PhaseOf(s, events[a].w).claim.intent.key == k
  }

  function Written(events: seq<Event>, a: nat, k: int, retries: nat, lease: nat): Intent
    requires a < |events| && Writes(events, a, k, retries, lease)
  {
    PhaseOf(Before(events, a, retries, lease), events[a].w).claim.intent
  }

  // ... and nothing after it writes or clears that key.
  ghost predicate WritesLast(events: seq<Event>, a: nat, k: int, retries: nat, lease: nat)
    requires a < |events|
  {
    && Writes(events, a, k, retries, lease)
    && forall b | a < b < |events| :: !Writes(events, b, k, retries, lease) && events[b] != ClearDead(k)
  }

  lemma SamePrefix(p: seq<Event>, e: Event, k: int, retries: nat, lease: nat)
    ensures forall a | 0 <= a < |p| ::
      (Writes(p, a, k, retries, lease) <==> Writes(p + [e], a, k, retries, lease)) && (p + [e])[a] == p[a]
    ensures Before(p + [e], |p|, retries, lease) == After(p, retries, lease)
  {
    assert (p + [e])[..|p|] == p;
    forall a | 0 <= a < |p|
      ensures Writes(p, a, k, retries, lease) <==> Writes(p + [e], a, k, retries, lease)
    {
      assert (p + [e])[..a] == p[..a];
    }
  }

  lemma LastStays(p: seq<Event>, e: Event, a: nat, k: int, retries: nat, lease: nat)
    requires a < |p|
    ensures WritesLast(p + [e], a, k, retries, lease)
      <==> WritesLast(p, a, k, retries, lease) && !Writes(p + [e], |p|, k, retries, lease) && e != ClearDead(k)
    ensures Writes(p, a, k, retries, lease) ==>
      Writes(p + [e], a, k, retries, lease) && Written(p + [e], a, k, retries, lease) == Written(p, a, k, retries, lease)
  {
    SamePrefix(p, e, k, retries, lease);
    assert (p + [e])[..a] == p[..a];
    assert (p + [e])[|p|] == e;
    if WritesLast(p + [e], a, k, retries, lease) {
      assert !Writes(p + [e], |p|, k, retries, lease);
      forall b | a < b < |p| ensures !Writes(p, b, k, retries, lease) && p[b] != ClearDead(k) {
        assert !Writes(p + [e], b, k, retries, lease) && (p + [e])[b] != ClearDead(k);
      }
    }
  }

  // The letter under a key is the one written last and not cleared since.
  ghost predicate Stands(events: seq<Event>, k: int, x: Intent, retries: nat, lease: nat) {
    exists a | 0 <= a < |events| :: LastWith(events, a, k, x, retries, lease)
  }

  ghost predicate LastWith(events: seq<Event>, a: nat, k: int, x: Intent, retries: nat, lease: nat)
    requires a < |events|
  {
    WritesLast(events, a, k, retries, lease) && Written(events, a, k, retries, lease) == x
  }

  lemma StandsNext(p: seq<Event>, e: Event, k: int, x: Intent, retries: nat, lease: nat)
    ensures Stands(p + [e], k, x, retries, lease) <==>
      if Writes(p + [e], |p|, k, retries, lease) then Written(p + [e], |p|, k, retries, lease) == x
      else e != ClearDead(k) && Stands(p, k, x, retries, lease)
  {
    var q := p + [e];
    if Writes(q, |p|, k, retries, lease) {
      if Stands(q, k, x, retries, lease) {
        var a :| 0 <= a < |q| && LastWith(q, a, k, x, retries, lease);
        assert a == |p|;
      } else {
        assert !LastWith(q, |p|, k, x, retries, lease);
        assert WritesLast(q, |p|, k, retries, lease);
      }
    } else {
      if Stands(q, k, x, retries, lease) {
        var a :| 0 <= a < |q| && LastWith(q, a, k, x, retries, lease);
        LastStays(p, e, a, k, retries, lease);
        assert LastWith(p, a, k, x, retries, lease);
      }
      if e != ClearDead(k) && Stands(p, k, x, retries, lease) {
        var a :| 0 <= a < |p| && LastWith(p, a, k, x, retries, lease);
        LastStays(p, e, a, k, retries, lease);
        assert LastWith(q, a, k, x, retries, lease);
      }
    }
  }

  /** Over any run: intent `x` is the dead letter under a key exactly when the last dead letter written under
      that key, and not cleared since, was of `x`. */
  lemma {:induction false} LetterIsLast(events: seq<Event>, k: int, x: Intent, retries: nat, lease: nat)
    ensures var s := After(events, retries, lease);
      k in s.dead && s.dead[k] == x <==> Stands(events, k, x, retries, lease)
  {
    if events != [] {
      var p, e := events[..|events| - 1], events[|events| - 1];
      assert events == p + [e];
      LetterIsLast(p, k, x, retries, lease);
      StandsNext(p, e, k, x, retries, lease);
      SamePrefix(p, e, k, retries, lease);
    }
  }

  // One intent enqueued into an empty queue, claimed and given up at once.
  function GiveUp(x: Intent, h: nat, now: int): seq<Event> {
    [Enqueue(x, now), TakeClaim(0, h, now), DeadLetter(0), Ack(0)]
  }

  predicate Quiet(s: System) {
    s.queue.docs == map[] && PhaseOf(s, 0).Idle?
  }

  function GivenUp(s: System, x: Intent, now: int, lease: nat): System {
    var h := s.queue.nextKey;
    System(Durable(map[], h + 1), s.dead[x.key := x], s.phases[0 := Idle], s.log[h := x], s.committed,
           s.gaveUp + {h}, s.claims + [Leased(0, h, now, now + lease)], s.released)
  }

  lemma GiveUpSteps(s: System, x: Intent, now: int, lease: nat)
    requires Quiet(s)
    ensures var h := s.queue.nextKey;
      Then(Then(Then(Then(s, Enqueue(x, now), 0, lease), TakeClaim(0, h, now), 0, lease), DeadLetter(0), 0, lease),
           Ack(0), 0, lease) == GivenUp(s, x, now, lease)
  {
    var h := s.queue.nextKey;
    var s1 := Then(s, Enqueue(x, now), 0, lease);
    assert s1.queue.docs == map[h := Doc(x, now, None)];
    var s2 := Then(s1, TakeClaim(0, h, now), 0, lease);
    assert PhaseOf(s2, 0) == Working(Claim(x, h), 0);
    var s3 := Then(s2, DeadLetter(0), 0, lease);
    assert s3.queue.docs.Keys == {h};
    assert Then(s3, Ack(0), 0, lease).queue.docs == map[];
  }

  lemma GiveUpRun(p: seq<Event>, s: System, x: Intent, now: int, lease: nat)
    requires After(p, 0, lease) == s && Quiet(s)
    ensures After(p + GiveUp(x, s.queue.nextKey, now), 0, lease) == GivenUp(s, x, now, lease)
  {
    Appended4(p, Enqueue(x, now), TakeClaim(0, s.queue.nextKey, now), DeadLetter(0), Ack(0), 0, lease);
    GiveUpSteps(s, x, now, lease);
  }

  /** A key does not fix the intent: it leaves out the arguments of a step, and the reliability and type of a
      memory write. Of two intents with one key the second dead letter takes the place of the first, which
      can no longer be replayed. */
  lemma {:induction false} DeadLetterReplaced(a: Intent, b: Intent)
    requires a.key == b.key && a != b
    ensures var s := After(GiveUp(a, 0, 0) + GiveUp(b, 1, 1), 0, 60);
      s.log == map[0 := a, 1 := b] && s.queue.docs == map[] && s.committed == {} && s.dead == map[a.key := b]
  {
    GiveUpRun([], EMPTY, a, 0, 60);
    assert [] + GiveUp(a, 0, 0) == GiveUp(a, 0, 0);
    GiveUpRun(GiveUp(a, 0, 0), GivenUp(EMPTY, a, 0, 60), b, 1, 60);
  }

  // ---- intents, wherever they are ----

  // Document `g` still carries intent `x`, or did and was committed.
  predicate Carries(s: System, g: nat, x: Intent) {
    g in s.log && s.log[g] == x && (g in s.queue.docs || g in s.committed)
  }

  // ... and will be tried again, unless it was committed.
  predicate Lives(s: System, g: nat, x: Intent) {
    g in s.log && s.log[g] == x && (g in s.committed || (g in s.queue.docs && g !in s.gaveUp))
  }

  predicate Lettered(s: System, x: Intent) {
    x.key in s.dead && s.dead[x.key] == x
  }

  ghost predicate Queued(s: System, x: Intent) {
    exists g | g in s.log :: Carries(s, g, x)
  }

  ghost predicate Alive(s: System, x: Intent) {
    exists g | g in s.log :: Lives(s, g, x)
  }

  // Each intent ever enqueued is queued or committed, under any document, or is itself a dead letter.
  ghost predicate Preserved(s: System) {
    forall h | h in s.log :: Queued(s, s.log[h]) || Lettered(s, s.log[h])
  }

  // The same, not counting documents that were given up: they are tried again only if their worker crashes
  // before it acks.
  ghost predicate Secure(s: System) {
    forall h | h in s.log :: Alive(s, s.log[h]) || Lettered(s, s.log[h])
  }

  lemma SecurePreserves(s: System)
    requires Secure(s)
    ensures Preserved(s)
  {
    forall h | h in s.log ensures Queued(s, s.log[h]) || Lettered(s, s.log[h]) {
      if Alive(s, s.log[h]) {
        var g :| g in s.log && Lives(s, g, s.log[h]);
        assert Carries(s, g, s.log[h]);
      }
    }
  }

  // ---- what every run keeps, dead letters cleared or not ----

  predicate HandleOk(s: System, w: nat) {
    match PhaseOf(s, w)
    case Idle => true
    case Working(c, _) => c.handle in s.log && s.log[c.handle] == c.intent
    case Done(c) => c.handle in s.log && s.log[c.handle] == c.intent && (c.handle in s.committed || c.handle in s.gaveUp)
  }

  ghost predicate Base(s: System) {
    && Logged(s) && s.gaveUp <= s.log.Keys
    && (forall w :: HandleOk(s, w))
    && (forall k | k in s.dead :: s.dead[k].key == k && s.dead[k] in s.log.Values)
  }

  lemma NextHandle(s: System, e: Event, retries: nat, lease: nat, w: nat)
    requires Logged(s) && HandleOk(s, w) && Enabled(s, e, retries)
    ensures HandleOk(Next(s, e, retries, lease), w)
  {
  }

  lemma LogStays(s: System, e: Event, retries: nat, lease: nat, x: Intent)
    requires Logged(s) && Enabled(s, e, retries) && x in s.log.Values
    ensures x in Next(s, e, retries, lease).log.Values
  {
    var h :| h in s.log && s.log[h] == x;
    assert Next(s, e, retries, lease).log[h] == x;
  }

  lemma NextBase(s: System, e: Event, retries: nat, lease: nat)
    requires Base(s) && Enabled(s, e, retries)
    ensures Base(Next(s, e, retries, lease))
  {
    var t := Next(s, e, retries, lease);
    NextLogged(s, e, retries, lease);
    forall w ensures HandleOk(t, w) {
      NextHandle(s, e, retries, lease, w);
    }
    assert e.DeadLetter? ==> HandleOk(s, e.w);
    forall k | k in t.dead ensures t.dead[k].key == k && t.dead[k] in t.log.Values {
      if k in s.dead {
        LogStays(s, e, retries, lease, s.dead[k]);
      }
    }
  }

  lemma {:induction false} AfterBase(events: seq<Event>, retries: nat, lease: nat)
    ensures Base(After(events, retries, lease))
  {
    if events != [] {
      var p, e := events[..|events| - 1], events[|events| - 1];
      AfterBase(p, retries, lease);
      if Enabled(After(p, retries, lease), e, retries) {
        NextBase(After(p, retries, lease), e, retries, lease);
      }
    }
  }

  // ---- clearing ----

  /** Clearing a letter keeps every intent exactly when the letter's own intent is queued or committed under
      some document: the new one a replay has enqueued counts, the old one need not be there. */
  lemma ClearKeepsIff(s: System, key: int, retries: nat, lease: nat)
    requires Base(s) && Preserved(s) && key in s.dead
    ensures Preserved(Next(s, ClearDead(key), retries, lease)) <==> Queued(s, s.dead[key])
  {
    var t, y := Next(s, ClearDead(key), retries, lease), s.dead[key];
    forall x ensures Queued(t, x) <==> Queued(s, x) {
      SameQueued(s, t, x);
    }
    var h :| h in s.log && s.log[h] == y;
    if Preserved(t) {
      assert !Lettered(t, t.log[h]);
    }
  }

  lemma SameQueued(s: System, t: System, x: Intent)
    requires t == s.(dead := t.dead)
    ensures Queued(t, x) <==> Queued(s, x)
  {
    if Queued(s, x) {
      var g :| g in s.log && Carries(s, g, x);
      assert Carries(t, g, x);
    }
    if Queued(t, x) {
      var g :| g in t.log && Carries(t, g, x);
      assert Carries(s, g, x);
    }
  }

  // ---- nothing lost, over whole runs with replays ----

  // Another document than `h` carries the intent.
  ghost predicate Elsewhere(s: System, h: nat, x: Intent) {
    exists g | g in s.log :: g != h && Carries(s, g, x)
  }

  // What a step takes away of an intent is still there in another form: the intent of a letter it clears or
  // replaces is queued or committed, and that of an uncommitted document it deletes is carried by
  // another document or is the dead letter.
  ghost predicate Keeps(s: System, e: Event) {
    match e
    case ClearDead(k) => k in s.dead ==> Queued(s, s.dead[k])
    case DeadLetter(w) =>
      PhaseOf(s, w).Working? ==>
        var x := PhaseOf(s, w).claim.intent;
        x.key in s.dead && s.dead[x.key] != x ==> Queued(s, s.dead[x.key])
    case Ack(w) =>
      PhaseOf(s, w).Done? ==>
        var c := PhaseOf(s, w).claim;
        c.handle in s.queue.docs && c.handle !in s.committed ==> Elsewhere(s, c.handle, c.intent) || Lettered(s, c.intent)
    case _ => true
  }

  lemma CarriesOn(s: System, e: Event, retries: nat, lease: nat, g: nat, x: Intent)
    requires Base(s) && Enabled(s, e, retries) && Carries(s, g, x)
    ensures Carries(Next(s, e, retries, lease), g, x)
      || (e.Ack? && PhaseOf(s, e.w) == Done(Claim(x, g)) && g in s.queue.docs && g !in s.committed)
  {
    if e.Ack? {
      assert HandleOk(s, e.w);
    }
  }

  lemma KeptOn(s: System, e: Event, retries: nat, lease: nat, x: Intent)
    requires Base(s) && Enabled(s, e, retries) && Keeps(s, e)
    requires Queued(s, x) || Lettered(s, x)
    ensures var t := Next(s, e, retries, lease); Queued(t, x) || Lettered(t, x)
  {
    var t := Next(s, e, retries, lease);
    if Queued(s, x) {
      var g :| g in s.log && Carries(s, g, x);
      CarriesOn(s, e, retries, lease, g, x);
      if !Carries(t, g, x) && Elsewhere(s, g, x) {
        var f :| f in s.log && f != g && Carries(s, f, x);
        CarriesOn(s, e, retries, lease, f, x);
      }
    }
  }

  // A step that is not a commit or an enqueue makes no document carry more.
  lemma CarriedBefore(s: System, e: Event, retries: nat, lease: nat, g: nat, x: Intent)
    requires Base(s) && Enabled(s, e, retries) && !e.Enqueue? && !e.CommitOk?
    requires Carries(Next(s, e, retries, lease), g, x)
    ensures Carries(s, g, x)
    ensures e.Ack? && g !in s.committed ==> PhaseOf(s, e.w).claim.handle != g
  {
  }

  // What such a step takes of an intent is lost, when nothing else is left of it.
  lemma Gone(s: System, e: Event, retries: nat, lease: nat) returns (y: Intent)
    requires Base(s) && Enabled(s, e, retries) && !Keeps(s, e)
    ensures y in s.log.Values && !Queued(Next(s, e, retries, lease), y) && !Lettered(Next(s, e, retries, lease), y)
  {
    var t := Next(s, e, retries, lease);
    if e.Ack? {
      assert HandleOk(s, e.w);
    }
    y := if e.ClearDead? then s.dead[e.key]
         else if e.Ack? then PhaseOf(s, e.w).claim.intent
         else s.dead[PhaseOf(s, e.w).claim.intent.key];
    if Queued(t, y) {
      var g :| g in t.log && Carries(t, g, y);
      CarriedBefore(s, e, retries, lease, g, y);
    }
  }

  /** One step keeps every intent queued, committed or lettered exactly when it keeps what it touches. */
  lemma StepPreserved(s: System, e: Event, retries: nat, lease: nat)
    requires Base(s) && Enabled(s, e, retries) && Preserved(s)
    ensures Preserved(Next(s, e, retries, lease)) <==> Keeps(s, e)
  {
    var t := Next(s, e, retries, lease);
    if Keeps(s, e) {
      forall h | h in t.log ensures Queued(t, t.log[h]) || Lettered(t, t.log[h]) {
        if h in s.log {
          KeptOn(s, e, retries, lease, s.log[h]);
        } else {
          assert Carries(t, h, t.log[h]);
        }
      }
    } else {
      var y := Gone(s, e, retries, lease);
      LogStays(s, e, retries, lease, y);
      var h :| h in t.log && t.log[h] == y;
    }
  }

  ghost predicate PreservedThrough(events: seq<Event>, retries: nat, lease: nat) {
    Preserved(After(events, retries, lease)) && (events == [] || PreservedThrough(events[..|events| - 1], retries, lease))
  }

  ghost predicate AllKeep(events: seq<Event>, retries: nat, lease: nat) {
    events == [] ||
    var p, e := events[..|events| - 1], events[|events| - 1];
    AllKeep(p, retries, lease) && (Enabled(After(p, retries, lease), e, retries) ==> Keeps(After(p, retries, lease), e))
  }

  /** In any run at all, replays, crashes and races included: every intent is queued, committed or lettered at
      every point exactly when each step keeps, in the state it meets, what it touches. */
  lemma {:induction false} PreservedIff(events: seq<Event>, retries: nat, lease: nat)
    ensures PreservedThrough(events, retries, lease) <==> AllKeep(events, retries, lease)
    ensures PreservedThrough(events, retries, lease) ==> Preserved(After(events, retries, lease))
  {
    if events != [] {
      var p, e := events[..|events| - 1], events[|events| - 1];
      PreservedIff(p, retries, lease);
      AfterBase(p, retries, lease);
      if PreservedThrough(p, retries, lease) && Enabled(After(p, retries, lease), e, retries) {
        StepPreserved(After(p, retries, lease), e, retries, lease);
      }
    }
  }

  // ---- replays ----

  // A letter that this step clears, or replaces by another intent's, has a live document.
  ghost predicate Covered(s: System, e: Event) {
    match e
    case ClearDead(k) => k in s.dead ==> Alive(s, s.dead[k])
    case DeadLetter(w) =>
      PhaseOf(s, w).Working? ==>
        var x := PhaseOf(s, w).claim.intent;
        x.key in s.dead && s.dead[x.key] != x ==> Alive(s, s.dead[x.key])
    case _ => true
  }

  // Only a dead letter's own document stops being live.
  lemma LiveOn(s: System, e: Event, retries: nat, lease: nat, g: nat, x: Intent)
    requires Base(s) && Enabled(s, e, retries) && Lives(s, g, x)
    ensures Lives(Next(s, e, retries, lease), g, x)
      || (e.DeadLetter? && PhaseOf(s, e.w).claim == Claim(x, g))
  {
    if e.Ack? || e.DeadLetter? {
      assert HandleOk(s, e.w);
    }
  }

  lemma SafeOn(s: System, e: Event, retries: nat, lease: nat, x: Intent)
    requires Base(s) && Enabled(s, e, retries) && Covered(s, e)
    requires Alive(s, x) || Lettered(s, x)
    ensures var t := Next(s, e, retries, lease); Alive(t, x) || Lettered(t, x)
  {
    var t := Next(s, e, retries, lease);
    if Alive(s, x) {
      var g :| g in s.log && Lives(s, g, x);
      LiveOn(s, e, retries, lease, g, x);
      assert Lives(t, g, x) ==> g in t.log;
    }
  }

  lemma Revived(s: System, e: Event, retries: nat, lease: nat, x: Intent)
    requires Base(s) && Enabled(s, e, retries) && !e.Enqueue? && !e.CommitOk? && Alive(Next(s, e, retries, lease), x)
    ensures Alive(s, x)
  {
    var g :| g in Next(s, e, retries, lease).log && Lives(Next(s, e, retries, lease), g, x);
    assert Lives(s, g, x);
  }

  /** One step keeps every intent in this stronger state exactly when it covers the letter it clears or replaces. */
  lemma StepSecure(s: System, e: Event, retries: nat, lease: nat)
    requires Base(s) && Enabled(s, e, retries) && Secure(s)
    ensures Secure(Next(s, e, retries, lease)) <==> Covered(s, e)
  {
    var t := Next(s, e, retries, lease);
    if Covered(s, e) {
      forall h | h in t.log ensures Alive(t, t.log[h]) || Lettered(t, t.log[h]) {
        if h in s.log {
          SafeOn(s, e, retries, lease, s.log[h]);
        } else {
          assert Lives(t, h, t.log[h]);
        }
      }
    } else {
      var y := s.dead[if e.ClearDead? then e.key else PhaseOf(s, e.w).claim.intent.key];
      var h :| h in s.log && s.log[h] == y;
      assert t.log[h] == y && !Lettered(t, y);
      if Alive(t, y) {
        Revived(s, e, retries, lease, y);
      }
    }
  }

  // Keys fix intents. They need not: see `DeadLetterReplaced`.
  ghost predicate KeysFix(s: System) {
    forall g, h | g in s.log && h in s.log && s.log[g].key == s.log[h].key :: s.log[g] == s.log[h]
  }

  // Each letter is cleared while a live document of its intent is there.
  ghost predicate ClearsCovered(events: seq<Event>, retries: nat, lease: nat) {
    events == [] ||
    var p, e := events[..|events| - 1], events[|events| - 1];
    ClearsCovered(p, retries, lease) && (e.ClearDead? ==> Covered(After(p, retries, lease), e))
  }

  lemma KeysFixed(s: System, e: Event, retries: nat, lease: nat)
    requires Base(s) && Enabled(s, e, retries) && KeysFix(Next(s, e, retries, lease))
    ensures KeysFix(s)
  {
    var t := Next(s, e, retries, lease);
    assert forall h | h in s.log :: h in t.log && t.log[h] == s.log[h];
  }

  lemma SameLetter(s: System, e: Event, retries: nat)
    requires Base(s) && KeysFix(s) && e.DeadLetter? && Enabled(s, e, retries)
    ensures Covered(s, e)
  {
    var c := PhaseOf(s, e.w).claim;
    assert HandleOk(s, e.w);
    if c.intent.key in s.dead {
      var h :| h in s.log && s.log[h] == s.dead[c.intent.key];
    }
  }

  lemma {:induction false} SecureRun(events: seq<Event>, retries: nat, lease: nat)
    requires KeysFix(After(events, retries, lease)) && ClearsCovered(events, retries, lease)
    ensures Secure(After(events, retries, lease)) && PreservedThrough(events, retries, lease)
  {
    if events == [] {
      SecurePreserves(EMPTY);
    } else {
      var p, e := events[..|events| - 1], events[|events| - 1];
      var s := After(p, retries, lease);
      AfterBase(p, retries, lease);
      if Enabled(s, e, retries) {
        KeysFixed(s, e, retries, lease);
      }
      SecureRun(p, retries, lease);
      if Enabled(s, e, retries) {
        if e.DeadLetter? {
          SameLetter(s, e, retries);
        }
        StepSecure(s, e, retries, lease);
      }
      SecurePreserves(After(events, retries, lease));
    }
  }

  /** Where keys fix intents, clears are all that matters: a run that clears each letter while a live document
      of its intent is there loses nothing at any point. */
  lemma ReplaysLoseNothing(events: seq<Event>, retries: nat, lease: nat)
    requires KeysFix(After(events, retries, lease)) && ClearsCovered(events, retries, lease)
    ensures PreservedThrough(events, retries, lease)
  {
    SecureRun(events, retries, lease);
  }

  /** A replay that clears the letter right after it enqueued the letter's intent loses nothing, in any state. */
  lemma ReplayAtOnce(s: System, key: int, now: int, retries: nat, lease: nat)
    requires Base(s) && Secure(s) && key in s.dead
    ensures var t := Next(Next(s, Enqueue(s.dead[key], now), retries, lease), ClearDead(key), retries, lease);
      Secure(t) && Base(t) && key !in t.dead && Lives(t, s.queue.nextKey, s.dead[key])
  {
    var m := Next(s, Enqueue(s.dead[key], now), retries, lease);
    NextBase(s, Enqueue(s.dead[key], now), retries, lease);
    StepSecure(s, Enqueue(s.dead[key], now), retries, lease);
    assert Lives(m, s.queue.nextKey, s.dead[key]);
    StepSecure(m, ClearDead(key), retries, lease);
    NextBase(m, ClearDead(key), retries, lease);
  }

  // A replay enqueues `x` again; before it clears the letter, worker 0 takes the new document and gives it up.
  function Race(x: Intent, h: nat, now: int): seq<Event> {
    [Enqueue(x, now), TakeClaim(0, h, now), DeadLetter(0), ClearDead(x.key)]
  }

  lemma RaceSteps(s: System, x: Intent, now: int, lease: nat)
    requires Quiet(s)
    ensures var h := s.queue.nextKey;
      var t := Then(Then(Then(Then(s, Enqueue(x, now), 0, lease), TakeClaim(0, h, now), 0, lease), DeadLetter(0), 0, lease),
                    ClearDead(x.key), 0, lease);
      && PhaseOf(t, 0) == Done(Claim(x, h)) && t.queue.docs.Keys == {h} && t.dead == s.dead - {x.key}
      && t.committed == s.committed && t.log == s.log[h := x]
  {
    var h := s.queue.nextKey;
    var s1 := Then(s, Enqueue(x, now), 0, lease);
    assert s1.queue.docs == map[h := Doc(x, now, None)];
    var s2 := Then(s1, TakeClaim(0, h, now), 0, lease);
    assert PhaseOf(s2, 0) == Working(Claim(x, h), 0);
  }

  lemma RaceRun(p: seq<Event>, s: System, x: Intent, now: int, lease: nat)
    requires After(p, 0, lease) == s && Quiet(s)
    ensures var h := s.queue.nextKey;
      var t := After(p + Race(x, h, now) + [Ack(0)], 0, lease);
      t.queue.docs == map[] && t.committed == s.committed && t.dead == s.dead - {x.key} && t.log == s.log[h := x]
  {
    var h := s.queue.nextKey;
    Appended4(p, Enqueue(x, now), TakeClaim(0, h, now), DeadLetter(0), ClearDead(x.key), 0, lease);
    RaceSteps(s, x, now, lease);
    Appended(p + Race(x, h, now), Ack(0), 0, lease);
  }

  /** Between the two a worker may take the new document, give it up and replace the letter by an equal one;
      the replay then clears that one, and with the ack the intent is gone. */
  lemma ReplayRaces(x: Intent)
    ensures var s := After(GiveUp(x, 0, 0) + Race(x, 1, 1) + [Ack(0)], 0, 60);
      s.log == map[0 := x, 1 := x] && s.queue.docs == map[] && s.committed == {} && s.dead == map[]
  {
    assert [] + GiveUp(x, 0, 0) == GiveUp(x, 0, 0);
    GiveUpRun([], EMPTY, x, 0, 60);
    RaceRun(GiveUp(x, 0, 0), GivenUp(EMPTY, x, 0, 60), x, 1, 60);
  }

  /** A document given up still counts: when its worker crashes before the ack and the letter is cleared, the
      document is claimed again once its lease has run out. */
  lemma GivenUpReturns(x: Intent)
    ensures var s := After([Enqueue(x, 0), TakeClaim(0, 0, 0), DeadLetter(0), Crash(0)] + [ClearDead(x.key)], 0, 60);
      Preserved(s) && !Secure(s) && Enabled(s, TakeClaim(1, 0, 61), 0)
  {
    Appended4([], Enqueue(x, 0), TakeClaim(0, 0, 0), DeadLetter(0), Crash(0), 0, 60);
    var crashed := [Enqueue(x, 0), TakeClaim(0, 0, 0), DeadLetter(0), Crash(0)];
    assert [] + crashed == crashed;
    Appended(crashed, ClearDead(x.key), 0, 60);
    var s1 := Then(EMPTY, Enqueue(x, 0), 0, 60);
    assert s1.queue.docs == map[0 := Doc(x, 0, None)];
    var s2 := Then(s1, TakeClaim(0, 0, 0), 0, 60);
    assert PhaseOf(s2, 0) == Working(Claim(x, 0), 0);
    var s5 := Then(Then(Then(s2, DeadLetter(0), 0, 60), Crash(0), 0, 60), ClearDead(x.key), 0, 60);
    assert s5.queue.docs == map[0 := Doc(x, 0, Some(60))] && s5.log == map[0 := x] && s5.dead == map[];
    assert Carries(s5, 0, s5.log[0]);
  }
}
