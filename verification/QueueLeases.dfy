/** Who may hold a document: leases of one document overlap only through a nack by a worker that has
    already lost it. */
module QueueLeases {
  import opened Common
  import opened QueueModel
  import opened QueueSafety

  // Event `a` is a nack of the document of claim `i`, its latest, by another worker than made that claim.
  predicate StaleNack(events: seq<Event>, a: nat, i: nat, retries: nat, lease: nat)
    requires a < |events|
  {
    var s := Before(events, a, retries, lease);
    && events[a].Nack? && PhaseOf(s, events[a].w).Working?
    && var h := PhaseOf(s, events[a].w).claim.handle;
       LatestOf(s.claims, h) == Some(i) && !HeldBy(s.claims, h, events[a].w)
  }

  // Someone else nacked the document of claim `i` before it was claimed again.
  ghost predicate Disturbed(events: seq<Event>, i: nat, retries: nat, lease: nat) {
    exists a | 0 <= a < |events| :: StaleNack(events, a, i, retries, lease)
  }

  lemma StillDisturbed(p: seq<Event>, e: Event, i: nat, retries: nat, lease: nat)
    requires Disturbed(p, i, retries, lease)
    ensures Disturbed(p + [e], i, retries, lease)
  {
    var a :| 0 <= a < |p| && StaleNack(p, a, i, retries, lease);
    assert (p + [e])[..a] == p[..a];
    assert StaleNack(p + [e], a, i, retries, lease);
  }

  lemma NowDisturbed(p: seq<Event>, w: nat, retries: nat, lease: nat)
    requires PhaseOf(After(p, retries, lease), w).Working?
    ensures var s := After(p, retries, lease);
      var h := PhaseOf(s, w).claim.handle;
      (LatestOf(s.claims, h).Some? && !HeldBy(s.claims, h, w)
       ==> Disturbed(p + [Nack(w)], LatestOf(s.claims, h).value, retries, lease))
  {
    var s := After(p, retries, lease);
    var h := PhaseOf(s, w).claim.handle;
    assert (p + [Nack(w)])[..|p|] == p;
    if LatestOf(s.claims, h).Some? && !HeldBy(s.claims, h, w) {
      assert StaleNack(p + [Nack(w)], |p|, LatestOf(s.claims, h).value, retries, lease);
    }
  }

  // ---- the lease field says who holds ----

  // The lease of a document ends with its latest claim, unless that was given back or nacked by another.
  ghost predicate FieldTells(events: seq<Event>, h: nat, retries: nat, lease: nat) {
    var s := After(events, retries, lease);
    h in s.queue.docs && LatestOf(s.claims, h).Some? ==>
      var i := LatestOf(s.claims, h).value;
      s.queue.docs[h].leasedUntil == Some(s.claims[i].until) || i in s.released || Disturbed(events, i, retries, lease)
  }

  lemma LatestSnoc(claims: seq<Leased>, c: Leased, h: nat)
    ensures LatestOf(claims + [c], h) == if c.handle == h then Some(|claims|) else LatestOf(claims, h)
  {
    assert (claims + [c])[..|claims|] == claims;
  }

  // No document is claimed before it is enqueued.
  ghost predicate ClaimsLogged(s: System) {
    forall i | 0 <= i < |s.claims| :: s.claims[i].handle < s.queue.nextKey
  }

  lemma {:induction false} AfterClaimsLogged(events: seq<Event>, retries: nat, lease: nat)
    ensures Logged(After(events, retries, lease)) && ClaimsLogged(After(events, retries, lease))
  {
    if events != [] {
      var p, e := events[..|events| - 1], events[|events| - 1];
      AfterClaimsLogged(p, retries, lease);
      if Enabled(After(p, retries, lease), e, retries) {
        NextLogged(After(p, retries, lease), e, retries, lease);
      }
    }
  }

  lemma NextField(p: seq<Event>, e: Event, h: nat, retries: nat, lease: nat)
    requires Enabled(After(p, retries, lease), e, retries) && FieldTells(p, h, retries, lease)
    ensures FieldTells(p + [e], h, retries, lease)
  {
    var s := After(p, retries, lease);
    Appended(p, e, retries, lease);
    AfterClaimsLogged(p, retries, lease);
    if LatestOf(s.claims, h).Some? && Disturbed(p, LatestOf(s.claims, h).value, retries, lease) {
      StillDisturbed(p, e, LatestOf(s.claims, h).value, retries, lease);
    }
    match e
    case TakeClaim(w, g, now) => LatestSnoc(s.claims, Leased(w, g, now, now + lease), h);
    case Nack(w) => NowDisturbed(p, w, retries, lease);
    case _ =>
  }

  lemma {:induction false} AfterField(events: seq<Event>, h: nat, retries: nat, lease: nat)
    ensures FieldTells(events, h, retries, lease)
  {
    if events != [] {
      var p, e := events[..|events| - 1], events[|events| - 1];
      AfterField(p, h, retries, lease);
      assert events == p + [e];
      if Enabled(After(p, retries, lease), e, retries) {
        NextField(p, e, h, retries, lease);
      } else {
        var i := LatestOf(After(p, retries, lease).claims, h);
        if i.Some? && Disturbed(p, i.value, retries, lease) {
          StillDisturbed(p, e, i.value, retries, lease);
        }
      }
    }
  }

  // ---- one claim after another ----

  // The claim of the same document before claim `j`.
  function Previous(s: System, j: nat): Option<nat>
    requires j < |s.claims|
  {
    LatestOf(s.claims[..j], s.claims[j].handle)
  }

  // Claim `j` starts while the lease of the one before it runs, which its holder has not given back.
  predicate Overlaps(s: System, j: nat)
    requires j < |s.claims|
  {
    var i := Previous(s, j);
    i.Some? && i.value !in s.released && s.claims[j].from <= s.claims[i.value].until
  }

  // A document that another worker nacked at `a` is claimed at `b`, before the lease of the claim it had then
  // has run out or been given back.
  predicate ReclaimedEarly(events: seq<Event>, a: nat, b: nat, retries: nat, lease: nat)
    requires a < b < |events|
  {
    var s := Before(events, b, retries, lease);
    && events[b].TakeClaim? && Enabled(s, events[b], retries)
    && var i := LatestOf(s.claims, events[b].h);
       && i.Some? && i.value !in s.released && events[b].now <= s.claims[i.value].until
       && StaleNack(events, a, i.value, retries, lease)
  }

  ghost predicate SomeReclaimed(events: seq<Event>, retries: nat, lease: nat) {
    exists a, b | 0 <= a < b < |events| :: ReclaimedEarly(events, a, b, retries, lease)
  }

  ghost predicate SomeOverlap(s: System) {
    exists j | 0 <= j < |s.claims| :: Overlaps(s, j)
  }

  lemma NextKeepsOverlap(s: System, e: Event, j: nat, retries: nat, lease: nat)
    requires Enabled(s, e, retries) && j < |s.claims|
    ensures var t := Next(s, e, retries, lease);
      s.claims <= t.claims && (Overlaps(s, j) <==> Overlaps(t, j))
  {
    var t := Next(s, e, retries, lease);
    assert t.claims[..j] == s.claims[..j];
    if Previous(s, j).Some? {
      assert LatestOf(s.claims, s.claims[j].handle) != Previous(s, j);
    }
  }

  lemma StillReclaimed(p: seq<Event>, e: Event, retries: nat, lease: nat)
    requires SomeReclaimed(p, retries, lease)
    ensures SomeReclaimed(p + [e], retries, lease)
  {
    var a, b :| 0 <= a < b < |p| && ReclaimedEarly(p, a, b, retries, lease);
    assert (p + [e])[..a] == p[..a] && (p + [e])[..b] == p[..b];
    assert ReclaimedEarly(p + [e], a, b, retries, lease);
  }

  lemma {:induction false} OverlapReclaimed(events: seq<Event>, j: nat, retries: nat, lease: nat)
    requires j < |After(events, retries, lease).claims| && Overlaps(After(events, retries, lease), j)
    ensures SomeReclaimed(events, retries, lease)
  {
    var p, e := events[..|events| - 1], events[|events| - 1];
    var s := After(p, retries, lease);
    assert events == p + [e];
    if j < |s.claims| {
      if Enabled(s, e, retries) {
        NextKeepsOverlap(s, e, j, retries, lease);
      }
      OverlapReclaimed(p, j, retries, lease);
      StillReclaimed(p, e, retries, lease);
    } else {
      assert After(events, retries, lease).claims[..j] == s.claims;
      AfterField(p, e.h, retries, lease);
      var i := LatestOf(s.claims, e.h).value;
      var a :| 0 <= a < |p| && StaleNack(p, a, i, retries, lease);
      assert events[..a] == p[..a] && events[..|p|] == p;
      assert ReclaimedEarly(events, a, |p|, retries, lease);
    }
  }

  lemma {:induction false} OverlapStays(events: seq<Event>, b: nat, j: nat, retries: nat, lease: nat)
    requires b <= |events| && j < |Before(events, b, retries, lease).claims| && Overlaps(Before(events, b, retries, lease), j)
    ensures j < |After(events, retries, lease).claims| && Overlaps(After(events, retries, lease), j)
  {
    if b < |events| {
      var p, e := events[..|events| - 1], events[|events| - 1];
      assert p[..b] == events[..b];
      OverlapStays(p, b, j, retries, lease);
      if Enabled(After(p, retries, lease), e, retries) {
        NextKeepsOverlap(After(p, retries, lease), e, j, retries, lease);
      }
    } else {
      assert events[..b] == events;
    }
  }

  lemma ReclaimedOverlaps(events: seq<Event>, a: nat, b: nat, retries: nat, lease: nat)
    requires a < b < |events| && ReclaimedEarly(events, a, b, retries, lease)
    ensures SomeOverlap(After(events, retries, lease))
  {
    var s := Before(events, b, retries, lease);
    assert events[..b + 1][..b] == events[..b];
    var t := Before(events, b + 1, retries, lease);
    var j := |s.claims|;
    assert t.claims[..j] == s.claims;
    OverlapStays(events, b + 1, j, retries, lease);
  }

  /** In any run, whatever the workers' clocks say: some claim of a document starts inside the lease of the one
      before it, not given back by its holder, exactly when a worker that is not the document's latest
      holder nacked it and it was claimed again before that lease had ended. */
  lemma {:induction false} OverlapIff(events: seq<Event>, retries: nat, lease: nat)
    ensures SomeOverlap(After(events, retries, lease)) <==> SomeReclaimed(events, retries, lease)
  {
    if SomeOverlap(After(events, retries, lease)) {
      var j :| 0 <= j < |After(events, retries, lease).claims| && Overlaps(After(events, retries, lease), j);
      OverlapReclaimed(events, j, retries, lease);
    }
    if SomeReclaimed(events, retries, lease) {
      var a, b :| 0 <= a < b < |events| && ReclaimedEarly(events, a, b, retries, lease);
      ReclaimedOverlaps(events, a, b, retries, lease);
    }
  }

  // ---- leases of one document ----

  // A nack comes from the worker that made the document's latest claim.
  predicate TimelyNack(events: seq<Event>, a: nat, retries: nat, lease: nat)
    requires a < |events|
  {
    var s := Before(events, a, retries, lease);
    events[a].Nack? && PhaseOf(s, events[a].w).Working? ==> HeldBy(s.claims, PhaseOf(s, events[a].w).claim.handle, events[a].w)
  }

  ghost predicate Courteous(events: seq<Event>, retries: nat, lease: nat) {
    forall a | 0 <= a < |events| :: TimelyNack(events, a, retries, lease)
  }

  lemma TimelyFrees(events: seq<Event>, a: nat, b: nat, retries: nat, lease: nat)
    requires a < b < |events| && TimelyNack(events, a, retries, lease)
    ensures !ReclaimedEarly(events, a, b, retries, lease)
  {
  }

  lemma {:induction false} NoneReclaimed(events: seq<Event>, retries: nat, lease: nat)
    requires Courteous(events, retries, lease)
    ensures !SomeReclaimed(events, retries, lease)
  {
    forall a, b | 0 <= a < b < |events| ensures !ReclaimedEarly(events, a, b, retries, lease) {
      TimelyFrees(events, a, b, retries, lease);
    }
  }

  ghost predicate ClocksForward(s: System) {
    forall i, j | 0 <= i <= j < |s.claims| :: s.claims[i].from <= s.claims[j].from
  }

  ghost predicate LeasesLast(s: System) {
    forall i | 0 <= i < |s.claims| :: s.claims[i].from <= s.claims[i].until
  }

  lemma {:induction false} AfterLast(events: seq<Event>, retries: nat, lease: nat)
    ensures LeasesLast(After(events, retries, lease))
    ensures (forall a | 0 <= a < |events| :: !events[a].Nack?) ==> After(events, retries, lease).released == {}
  {
    if events != [] {
      AfterLast(events[..|events| - 1], retries, lease);
    }
  }

  lemma {:induction false} Apart(s: System, i: nat, j: nat)
    requires i < j < |s.claims| && s.claims[i].handle == s.claims[j].handle && LeasesLast(s) && !SomeOverlap(s)
    requires ClocksForward(s) || s.released == {}
    ensures i in s.released || s.claims[i].until < s.claims[j].from
    decreases j
  {
    assert !Overlaps(s, j);
    assert s.claims[..j][i] == s.claims[i];
    var k := Previous(s, j).value;
    assert s.claims[..j][k] == s.claims[k];
    if i < k {
      Apart(s, i, k);
    }
  }

  /** So while only holders nack, and clocks do not run backwards from one claim to the next, a later claim of
      a document starts after every earlier lease on it ran out or was given back by its holder; without
      nacks no law about clocks is needed. */
  lemma {:induction false} LeasesDisjoint(events: seq<Event>, retries: nat, lease: nat, i: nat, j: nat)
    requires Courteous(events, retries, lease)
    requires ClocksForward(After(events, retries, lease)) || forall a | 0 <= a < |events| :: !events[a].Nack?
    requires i < j < |After(events, retries, lease).claims|
    requires After(events, retries, lease).claims[i].handle == After(events, retries, lease).claims[j].handle
    ensures var s := After(events, retries, lease); i in s.released || s.claims[i].until < s.claims[j].from
  {
    OverlapIff(events, retries, lease);
    NoneReclaimed(events, retries, lease);
    AfterLast(events, retries, lease);
    Apart(After(events, retries, lease), i, j);
  }

  /** A nack by a holder whose lease has run out breaks this: it frees the document under the next
      holder, and a third claim starts inside that holder's lease. */
  lemma LateNackOverlaps(x: Intent)
    ensures var s := After([Enqueue(x, 0), TakeClaim(0, 0, 0), TakeClaim(1, 0, 11), Nack(0), TakeClaim(2, 0, 12)], 3, 10);
      |s.claims| == 3 && s.claims[1] == Leased(1, 0, 11, 21) && s.claims[2] == Leased(2, 0, 12, 22) && s.released == {}
  {
    var a := [Enqueue(x, 0)] + [TakeClaim(0, 0, 0)];
    Appended([], Enqueue(x, 0), 3, 10);
    assert [] + [Enqueue(x, 0)] == [Enqueue(x, 0)];
    Appended([Enqueue(x, 0)], TakeClaim(0, 0, 0), 3, 10);
    assert After(a, 3, 10).queue == Durable(map[0 := Doc(x, 0, Some(10))], 1);
    Appended(a, TakeClaim(1, 0, 11), 3, 10);
    assert After(a + [TakeClaim(1, 0, 11)], 3, 10).queue == Durable(map[0 := Doc(x, 0, Some(21))], 1);
    Appended(a + [TakeClaim(1, 0, 11)], Nack(0), 3, 10);
    assert After(a + [TakeClaim(1, 0, 11)] + [Nack(0)], 3, 10).queue == Durable(map[0 := Doc(x, 0, None)], 1);
    Appended(a + [TakeClaim(1, 0, 11)] + [Nack(0)], TakeClaim(2, 0, 12), 3, 10);
    assert a + [TakeClaim(1, 0, 11)] + [Nack(0)] + [TakeClaim(2, 0, 12)]
      == [Enqueue(x, 0), TakeClaim(0, 0, 0), TakeClaim(1, 0, 11), Nack(0), TakeClaim(2, 0, 12)];
  }
}
