/** No enqueued intent is lost, and an empty count for a tenant means everything it enqueued is settled. */
module QueueSafety {
  import opened QueueModel

  // ---- the durable queue ----

  // The intent behind document key `h` was committed, or given up with its key among the dead letters.
  predicate Settled(s: System, h: nat) {
    h in s.log && (h in s.committed || (h in s.gaveUp && s.log[h].key in s.dead))
  }

  ghost predicate Logged(s: System) {
    && (forall h | h in s.log :: h < s.queue.nextKey)
    && (forall h | h in s.queue.docs :: h in s.log && s.queue.docs[h].intent == s.log[h])
  }

  predicate HonestAt(s: System, w: nat) {
    match PhaseOf(s, w)
    case Idle => true
    case Working(c, _) => c.handle in s.log && s.log[c.handle] == c.intent
    case Done(c) => Settled(s, c.handle)
  }

  ghost predicate Honest(s: System) {
    forall w :: HonestAt(s, w)
  }

  // Nothing leaves the queue unsettled.
  ghost predicate Kept(s: System) {
    forall h | h in s.log :: h in s.queue.docs || Settled(s, h)
  }

  // The dead letter under a key is an enqueued intent with that key; every intent given up has one.
  ghost predicate DeadLogged(s: System) {
    && (forall k | k in s.dead :: s.dead[k].key == k && s.dead[k] in s.log.Values)
    && (forall h | h in s.gaveUp :: h in s.log && s.log[h].key in s.dead)
  }

  ghost predicate Sound(s: System) {
    Logged(s) && Honest(s) && Kept(s) && DeadLogged(s)
  }

  lemma NextLogged(s: System, e: Event, retries: nat, lease: nat)
    requires Logged(s) && Enabled(s, e, retries)
    ensures Logged(Next(s, e, retries, lease))
  {
  }

  // What is settled stays so, and the log only grows.
  lemma NextGrows(s: System, e: Event, retries: nat, lease: nat, h: nat)
    requires Logged(s) && Enabled(s, e, retries) && !e.ClearDead? && h in s.log
    ensures var t := Next(s, e, retries, lease);
      && h in t.log && t.log[h] == s.log[h]
      && (Settled(s, h) ==> Settled(t, h))
  {
  }

  lemma NextHonest(s: System, e: Event, retries: nat, lease: nat, w: nat)
    requires Logged(s) && HonestAt(s, w) && Enabled(s, e, retries) && !e.ClearDead?
    ensures HonestAt(Next(s, e, retries, lease), w)
  {
    var t := Next(s, e, retries, lease);
    match PhaseOf(s, w)
    case Idle =>
    case Working(c, _) => NextGrows(s, e, retries, lease, c.handle);
    case Done(c) => NextGrows(s, e, retries, lease, c.handle);
  }

  lemma NextKept(s: System, e: Event, retries: nat, lease: nat, h: nat)
    requires Sound(s) && Enabled(s, e, retries) && !e.ClearDead?
    requires h in Next(s, e, retries, lease).log
    ensures var t := Next(s, e, retries, lease); h in t.queue.docs || Settled(t, h)
  {
    if h in s.log {
      NextGrows(s, e, retries, lease, h);
      if e.Ack? {
        assert HonestAt(s, e.w);
      }
    }
  }

  lemma NextDeadLogged(s: System, e: Event, retries: nat, lease: nat)
    requires Sound(s) && Enabled(s, e, retries) && !e.ClearDead?
    ensures DeadLogged(Next(s, e, retries, lease))
  {
    var t := Next(s, e, retries, lease);
    forall k | k in t.dead ensures t.dead[k].key == k && t.dead[k] in t.log.Values {
      if e.DeadLetter? {
        assert HonestAt(s, e.w);
      }
      if k in s.dead {
        var h :| h in s.log && s.log[h] == s.dead[k];
        assert t.log[h] == s.log[h];
      }
    }
    if e.DeadLetter? {
      assert HonestAt(s, e.w);
    }
  }

  lemma NextSound(s: System, e: Event, retries: nat, lease: nat)
    requires Sound(s) && Enabled(s, e, retries) && !e.ClearDead?
    ensures Sound(Next(s, e, retries, lease))
  {
    var t := Next(s, e, retries, lease);
    NextLogged(s, e, retries, lease);
    NextDeadLogged(s, e, retries, lease);
    forall w ensures HonestAt(t, w) {
      NextHonest(s, e, retries, lease, w);
    }
    forall h | h in t.log ensures h in t.queue.docs || Settled(t, h) {
      NextKept(s, e, retries, lease, h);
    }
  }

  lemma {:induction false} AfterSound(events: seq<Event>, retries: nat, lease: nat)
    requires forall i | 0 <= i < |events| :: !events[i].ClearDead?
    ensures Sound(After(events, retries, lease))
  {
    if events != [] {
      var p, e := events[..|events| - 1], events[|events| - 1];
      AfterSound(p, retries, lease);
      var s := After(p, retries, lease);
      if Enabled(s, e, retries) {
        NextSound(s, e, retries, lease);
      }
    }
  }

  /** In every run of enqueues, claims, commits, failures, dead letters, acks, nacks and crashes,
      each intent enqueued is still a document of the queue, or committed, or dead-lettered. */
  lemma NothingLost(events: seq<Event>, retries: nat, lease: nat, h: nat)
    requires forall i | 0 <= i < |events| :: !events[i].ClearDead?
    requires h in After(events, retries, lease).log
    ensures var s := After(events, retries, lease);
      (h in s.queue.docs && s.queue.docs[h].intent == s.log[h]) || Settled(s, h)
  {
    AfterSound(events, retries, lease);
  }

  /** The flush barrier: with no document of a tenant left, whatever it enqueued is settled. */
  lemma FlushIsBarrier(events: seq<Event>, retries: nat, lease: nat, tenant: int, h: nat)
    requires forall i | 0 <= i < |events| :: !events[i].ClearDead?
    requires |OfTenant(After(events, retries, lease).queue, tenant)| == 0
    requires h in After(events, retries, lease).log && After(events, retries, lease).log[h].tenant == tenant
    ensures Settled(After(events, retries, lease), h)
  {
    AfterSound(events, retries, lease);
    var s := After(events, retries, lease);
    assert h !in OfTenant(s.queue, tenant);
  }

  lemma Appended(p: seq<Event>, e: Event, retries: nat, lease: nat)
    ensures After(p + [e], retries, lease) == Then(After(p, retries, lease), e, retries, lease)
  {
    assert (p + [e])[..|p|] == p;
  }

  lemma Appended4(p: seq<Event>, a: Event, b: Event, c: Event, d: Event, retries: nat, lease: nat)
    ensures After(p + [a, b, c, d], retries, lease)
      == Then(Then(Then(Then(After(p, retries, lease), a, retries, lease), b, retries, lease), c, retries, lease),
              d, retries, lease)
  {
    Appended(p, a, retries, lease);
    Appended(p + [a], b, retries, lease);
    Appended(p + [a] + [b], c, retries, lease);
    Appended(p + [a] + [b] + [c], d, retries, lease);
    assert p + [a, b, c, d] == p + [a] + [b] + [c] + [d];
  }

  // ---- the in-process queue ----

  ghost predicate HandlesBelow(q: Memory) {
    forall h | h in q.inflight :: h < q.nextKey
  }

  predicate Holds(q: Memory, c: Claim) {
    c.handle < q.nextKey && (c.handle in q.inflight ==> q.inflight[c.handle] == c.intent)
  }

  predicate LocalHonestAt(s: Local, w: nat) {
    match LocalPhase(s, w)
    case Idle => true
    case Working(c, _) => Holds(s.queue, c)
    case Done(c) => Holds(s.queue, c) && c.intent in s.settled
  }

  ghost predicate LocalHonest(s: Local) {
    forall w :: LocalHonestAt(s, w)
  }

  // Every enqueue is either outstanding or acked, and whatever was acked is settled.
  ghost predicate Balanced(s: Local) {
    && (forall f: Intent -> bool :: CountIn(s.log, f) == Outstanding(s.queue, f) + CountIn(s.acked, f))
    && (forall i | 0 <= i < |s.acked| :: s.acked[i] in s.settled)
  }

  lemma CountSnoc(s: seq<Intent>, x: Intent, f: Intent -> bool)
    ensures CountIn(s + [x], f) == CountIn(s, f) + if f(x) then 1 else 0
  {
    assert (s + [x])[..|s|] == s;
  }

  lemma {:induction false} CountCons(s: seq<Intent>, x: Intent, f: Intent -> bool)
    ensures CountIn([x] + s, f) == CountIn(s, f) + if f(x) then 1 else 0
  {
    if s != [] {
      assert ([x] + s)[..|s|] == [x] + s[..|s| - 1];
      CountCons(s[..|s| - 1], x, f);
    }
  }

  lemma {:induction false} HeldSame(a: map<nat, Intent>, b: map<nat, Intent>, n: nat, f: Intent -> bool)
    requires forall h | h < n :: (h in a <==> h in b) && (h in a ==> a[h] == b[h])
    ensures CountHeld(a, n, f) == CountHeld(b, n, f)
  {
    if n > 0 {
      HeldSame(a, b, n - 1, f);
    }
  }

  lemma {:induction false} HeldWithout(inflight: map<nat, Intent>, n: nat, h: nat, f: Intent -> bool)
    requires h < n && h in inflight
    ensures CountHeld(inflight, n, f) == CountHeld(inflight - {h}, n, f) + if f(inflight[h]) then 1 else 0
  {
    if h < n - 1 {
      HeldWithout(inflight, n - 1, h, f);
    } else {
      HeldSame(inflight, inflight - {h}, n - 1, f);
    }
  }

  lemma PopKeeps(q: Memory, f: Intent -> bool)
    requires q.pending != [] && HandlesBelow(q)
    ensures Outstanding(Pop(q), f) == Outstanding(q, f)
  {
    assert q.pending == [q.pending[0]] + q.pending[1..];
    CountCons(q.pending[1..], q.pending[0], f);
    HeldSame(q.inflight, Pop(q).inflight, q.nextKey, f);
  }

  lemma ForgetDrops(q: Memory, h: nat, f: Intent -> bool)
    requires HandlesBelow(q)
    ensures Outstanding(q, f) == Outstanding(Forget(q, h), f) + if h in q.inflight && f(q.inflight[h]) then 1 else 0
  {
    if h in q.inflight {
      HeldWithout(q.inflight, q.nextKey, h, f);
    } else {
      assert Forget(q, h) == q;
    }
  }

  lemma GiveBackKeeps(q: Memory, c: Claim, f: Intent -> bool)
    requires HandlesBelow(q) && (c.handle in q.inflight ==> q.inflight[c.handle] == c.intent)
    ensures Outstanding(GiveBack(q, c), f) == Outstanding(q, f)
  {
    ForgetDrops(q, c.handle, f);
    CountCons(q.pending, c.intent, f);
  }

  ghost predicate LocalSound(s: Local) {
    HandlesBelow(s.queue) && LocalHonest(s) && Balanced(s)
  }

  lemma LocalNextHonest(s: Local, e: LocalEvent, w: nat)
    requires LocalHonestAt(s, w) && LocalEnabled(s, e)
    ensures LocalHonestAt(LocalNext(s, e), w)
  {
  }

  lemma LocalBalanced(s: Local, e: LocalEvent, f: Intent -> bool)
    requires LocalSound(s) && LocalEnabled(s, e)
    ensures var t := LocalNext(s, e); CountIn(t.log, f) == Outstanding(t.queue, f) + CountIn(t.acked, f)
  {
    assert e.LocalAck? || e.LocalNack? ==> LocalHonestAt(s, e.w);
    match e
    case LocalEnqueue(intent) =>
      CountSnoc(s.log, intent, f);
      CountSnoc(s.queue.pending, intent, f);
    case LocalClaim(w) => PopKeeps(s.queue, f);
    case LocalSettle(w) =>
    case LocalAck(w) =>
      var c := LocalPhase(s, w).claim;
      ForgetDrops(s.queue, c.handle, f);
      CountSnoc(s.acked, c.intent, f);
    case LocalNack(w) => GiveBackKeeps(s.queue, LocalPhase(s, w).claim, f);
    case LocalCrash(w) =>
  }

  lemma LocalNextSound(s: Local, e: LocalEvent)
    requires LocalSound(s) && LocalEnabled(s, e)
    ensures LocalSound(LocalNext(s, e))
  {
    var t := LocalNext(s, e);
    forall w ensures LocalHonestAt(t, w) {
      LocalNextHonest(s, e, w);
    }
    if e.LocalAck? {
      assert LocalHonestAt(s, e.w);
    }
    forall f: Intent -> bool ensures CountIn(t.log, f) == Outstanding(t.queue, f) + CountIn(t.acked, f) {
      LocalBalanced(s, e, f);
    }
  }

  lemma {:induction false} LocalAfterSound(events: seq<LocalEvent>)
    ensures LocalSound(LocalAfter(events))
  {
    if events != [] {
      var p, e := events[..|events| - 1], events[|events| - 1];
      LocalAfterSound(p);
      if LocalEnabled(LocalAfter(p), e) {
        LocalNextSound(LocalAfter(p), e);
      }
    }
  }

  lemma {:induction false} Counted(s: seq<Intent>, i: nat, f: Intent -> bool)
    requires i < |s| && f(s[i])
    ensures CountIn(s, f) > 0
  {
    if i < |s| - 1 {
      Counted(s[..|s| - 1], i, f);
    }
  }

  lemma {:induction false} CountShows(s: seq<Intent>, f: Intent -> bool) returns (i: nat)
    requires CountIn(s, f) > 0
    ensures i < |s| && f(s[i])
  {
    if f(s[|s| - 1]) {
      i := |s| - 1;
    } else {
      i := CountShows(s[..|s| - 1], f);
    }
  }

  lemma {:induction false} CountLess(s: seq<Intent>, f: Intent -> bool, g: Intent -> bool)
    requires forall i :: f(i) ==> g(i)
    ensures CountIn(s, f) <= CountIn(s, g)
  {
    if s != [] {
      CountLess(s[..|s| - 1], f, g);
    }
  }

  lemma {:induction false} HeldLess(m: map<nat, Intent>, n: nat, f: Intent -> bool, g: Intent -> bool)
    requires forall i :: f(i) ==> g(i)
    ensures CountHeld(m, n, f) <= CountHeld(m, n, g)
  {
    if n > 0 {
      HeldLess(m, n - 1, f, g);
    }
  }

  /** The in-process queue keeps its books: each intent was enqueued as often as it is outstanding
      plus acked, and with nothing of a tenant outstanding all it enqueued is settled. */
  lemma LocalFlushIsBarrier(events: seq<LocalEvent>, tenant: int, i: nat)
    requires Outstanding(LocalAfter(events).queue, TenantIs(tenant)) == 0
    requires i < |LocalAfter(events).log| && LocalAfter(events).log[i].tenant == tenant
    ensures var s, x := LocalAfter(events), LocalAfter(events).log[i];
      && CountIn(s.log, Is(x)) == CountIn(s.acked, Is(x))
      && x in s.settled
  {
    LocalAfterSound(events);
    var s, x := LocalAfter(events), LocalAfter(events).log[i];
    CountLess(s.queue.pending, Is(x), TenantIs(tenant));
    HeldLess(s.queue.inflight, s.queue.nextKey, Is(x), TenantIs(tenant));
    Counted(s.log, i, Is(x));
    var j := CountShows(s.acked, Is(x));
  }
}
