/** What supersession passes guarantee over any run: links are set once, point forward in time, and
    form a forest; within a pass a statement goes to the oldest memory that is shown it and updates it. */
module SupersessionLaws {
  import opened Common
  import opened Sorting
  import opened SupersessionModel

  // ---- what a pass may change ----

  // Everything but the links and the check marks.
  predicate SameMemory(a: Memory, b: Memory) {
    a.(checked := b.checked, supersededBy := b.supersededBy, validTo := b.validTo) == b
  }

  // `t` is `s` with more links and check marks.
  ghost predicate Grown(s: Store, t: Store) {
    && t.Keys == s.Keys
    && forall k | k in s ::
         && SameMemory(s[k], t[k])
         && (s[k].checked ==> t[k].checked)
         && (s[k].supersededBy.Some? ==> t[k].supersededBy == s[k].supersededBy && t[k].validTo == s[k].validTo)
  }

  // Links go to a later memory of the same agent, and carry its time.
  ghost predicate LinkOk(cfg: Config, s: Store, k: int)
    requires k in s
  {
    s[k].supersededBy.Some? ==>
      && s[k].supersededBy.value in s
      && s[s[k].supersededBy.value].agent == s[k].agent
      && When(cfg, s[k]) < When(cfg, s[s[k].supersededBy.value])
      && s[k].validTo == Some(Stamp(s[s[k].supersededBy.value]))
  }

  ghost predicate Forest(cfg: Config, s: Store) {
    forall k | k in s :: LinkOk(cfg, s, k)
  }

  // The statements `picked` names, in `older`.
  predicate Names(older: seq<int>, picked: seq<int>, o: int)
    requires Within(picked, |older|)
  {
    picked != [] && (older[picked[|picked| - 1] - 1] == o || Names(older, picked[..|picked| - 1], o))
  }

  lemma {:induction false} NamedAt(older: seq<int>, picked: seq<int>, o: int) returns (i: nat)
    requires Within(picked, |older|) && Names(older, picked, o)
    ensures i < |older| && older[i] == o
  {
    i := picked[|picked| - 1] - 1;
    if older[i] != o {
      i := NamedAt(older, picked[..|picked| - 1], o);
    }
  }

  lemma {:induction false} LinkAllFacts(s: Store, older: seq<int>, picked: seq<int>, r: int, k: int)
    requires Within(picked, |older|) && AllIn(older, s) && r in s && k in s && r !in older
    ensures LinkAll(s, older, picked, r)[k] ==
      if Names(older, picked, k) then s[k].(supersededBy := Some(r), validTo := Some(Stamp(s[r]))) else s[k]
  {
    if picked != [] {
      var p, o := picked[..|picked| - 1], older[picked[|picked| - 1] - 1];
      LinkAllFacts(s, older, p, r, k);
      LinkAllFacts(s, older, p, r, r);
    }
  }

  // The statements row `r` links to itself.
  predicate Takes(cfg: Config, s: Store, r: int, o: int)
    requires r in s
  {
    Names(Older(cfg, s, r), AskedFor(cfg, s, r), o)
  }

  lemma TakenIsOlder(cfg: Config, s: Store, r: int, o: int)
    requires r in s && Takes(cfg, s, r, o)
    ensures Eligible(cfg, s, r, o) && Earlier(cfg, s, r, o)
  {
    var i := NamedAt(Older(cfg, s, r), AskedFor(cfg, s, r), o);
  }

  // One row: the statements it takes now point to it, it is stamped, and nothing else moves.
  lemma RowFacts(cfg: Config, s: Store, r: int, k: int)
    requires r in s && k in s
    ensures var t := ProcessRow(cfg, s, r);
      && t[k].supersededBy == (if Takes(cfg, s, r, k) then Some(r) else s[k].supersededBy)
      && t[k].validTo == (if Takes(cfg, s, r, k) then Some(Stamp(s[r])) else s[k].validTo)
      && t[k].checked == (k == r || s[k].checked)
      && SameMemory(s[k], t[k])
  {
    assert r !in Older(cfg, s, r);
    LinkAllFacts(s, Older(cfg, s, r), AskedFor(cfg, s, r), r, k);
  }

  lemma RowGrows(cfg: Config, s: Store, r: int)
    requires r in s
    ensures Grown(s, ProcessRow(cfg, s, r))
  {
    forall k | k in s
      ensures SameMemory(s[k], ProcessRow(cfg, s, r)[k])
      ensures s[k].checked ==> ProcessRow(cfg, s, r)[k].checked
      ensures s[k].supersededBy.Some? ==>
        ProcessRow(cfg, s, r)[k].supersededBy == s[k].supersededBy && ProcessRow(cfg, s, r)[k].validTo == s[k].validTo
    {
      RowFacts(cfg, s, r, k);
      if Takes(cfg, s, r, k) {
        TakenIsOlder(cfg, s, r, k);
      }
    }
  }

  lemma RowKeepsForest(cfg: Config, s: Store, r: int)
    requires r in s && Forest(cfg, s)
    ensures Forest(cfg, ProcessRow(cfg, s, r))
  {
    var t := ProcessRow(cfg, s, r);
    forall k | k in t ensures LinkOk(cfg, t, k) {
      RowFacts(cfg, s, r, k);
      if Takes(cfg, s, r, k) {
        TakenIsOlder(cfg, s, r, k);
        RowFacts(cfg, s, r, r);
      } else if s[k].supersededBy.Some? {
        assert LinkOk(cfg, s, k);
        RowFacts(cfg, s, r, s[k].supersededBy.value);
      }
    }
  }

  lemma GrownTrans(s: Store, t: Store, u: Store)
    requires Grown(s, t) && Grown(t, u)
    ensures Grown(s, u)
  {
  }

  lemma {:induction false} PassGrows(cfg: Config, s: Store, rows: seq<int>)
    requires AllIn(rows, s)
    ensures Grown(s, PassOver(cfg, s, rows))
  {
    if rows != [] {
      var t := PassOver(cfg, s, rows[..|rows| - 1]);
      PassGrows(cfg, s, rows[..|rows| - 1]);
      RowGrows(cfg, t, rows[|rows| - 1]);
      GrownTrans(s, t, PassOver(cfg, s, rows));
    }
  }

  lemma {:induction false} PassKeepsForest(cfg: Config, s: Store, rows: seq<int>)
    requires AllIn(rows, s) && Forest(cfg, s)
    ensures Forest(cfg, PassOver(cfg, s, rows))
  {
    if rows != [] {
      PassKeepsForest(cfg, s, rows[..|rows| - 1]);
      RowKeepsForest(cfg, PassOver(cfg, s, rows[..|rows| - 1]), rows[|rows| - 1]);
    }
  }

  lemma {:induction false} PassChecks(cfg: Config, s: Store, rows: seq<int>, k: int)
    requires AllIn(rows, s) && k in s
    ensures PassOver(cfg, s, rows)[k].checked <==> s[k].checked || k in Elems(rows)
  {
    if rows != [] {
      LastElems(rows);
      PassChecks(cfg, s, rows[..|rows| - 1], k);
      RowFacts(cfg, PassOver(cfg, s, rows[..|rows| - 1]), rows[|rows| - 1], k);
    }
  }

  // ---- runs ----

  // Inserting a memory, promoting a working one, forgetting one, a pass over an engine listing.
  datatype Event = Insert(key: int, memory: Memory) | Promote(key: int) | Invalidate(key: int) | Pass(scan: seq<int>)

  predicate Fresh(m: Memory) {
    !m.checked && m.supersededBy.None? && m.validTo.None?
  }

  predicate Enabled(s: Store, e: Event) {
    match e
    case Insert(key, m) => key !in s && Fresh(m)
    case Promote(key) => key in s
    case Invalidate(key) => key in s
    case Pass(_) => true
  }

  function Next(cfg: Config, s: Store, e: Event): Store
    requires Enabled(s, e)
  {
    match e
    case Insert(key, m) => s[key := m]
    case Promote(key) => s[key := s[key].(working := false)]
    case Invalidate(key) => s[key := s[key].(invalid := true)]
    case Pass(scan) => RunPass(cfg, s, scan)
  }

  function After(cfg: Config, s: Store, events: seq<Event>): Store {
    if events == [] then s
    else
      var t, e := After(cfg, s, events[..|events| - 1]), events[|events| - 1];
      if Enabled(t, e) then Next(cfg, t, e) else t
  }

  lemma NextForest(cfg: Config, s: Store, e: Event)
    requires Forest(cfg, s) && Enabled(s, e)
    ensures Forest(cfg, Next(cfg, s, e))
  {
    var t := Next(cfg, s, e);
    if e.Pass? {
      RowsIn(cfg, s, e.scan);
      PassKeepsForest(cfg, s, RowsOf(cfg, s, e.scan));
    } else {
      forall k | k in t ensures LinkOk(cfg, t, k) {
        if k in s {
          assert LinkOk(cfg, s, k);
        }
      }
    }
  }

  lemma {:induction false} AfterForest(cfg: Config, s: Store, events: seq<Event>)
    requires Forest(cfg, s)
    ensures Forest(cfg, After(cfg, s, events))
  {
    if events != [] {
      var t := After(cfg, s, events[..|events| - 1]);
      AfterForest(cfg, s, events[..|events| - 1]);
      if Enabled(t, events[|events| - 1]) {
        NextForest(cfg, t, events[|events| - 1]);
      }
    }
  }

  lemma NextKeepsLink(cfg: Config, s: Store, e: Event, k: int)
    requires Enabled(s, e) && k in s && s[k].supersededBy.Some?
    ensures var t := Next(cfg, s, e);
      k in t && t[k].supersededBy == s[k].supersededBy && t[k].validTo == s[k].validTo
  {
    if e.Pass? {
      RowsIn(cfg, s, e.scan);
      PassGrows(cfg, s, RowsOf(cfg, s, e.scan));
    }
  }

  /** A link, once set, is never set again: it and its time stay through every later event. */
  lemma {:induction false} LinkedOnce(cfg: Config, s: Store, events: seq<Event>, k: int)
    requires k in s && s[k].supersededBy.Some?
    ensures var t := After(cfg, s, events);
      k in t && t[k].supersededBy == s[k].supersededBy && t[k].validTo == s[k].validTo
  {
    if events != [] {
      var t, e := After(cfg, s, events[..|events| - 1]), events[|events| - 1];
      LinkedOnce(cfg, s, events[..|events| - 1], k);
      if Enabled(t, e) {
        NextKeepsLink(cfg, t, e, k);
      }
    }
  }

  // ---- chains ----

  // The memory `n` links on from `k`.
  function Follow(s: Store, k: int, n: nat): Option<int>
    decreases n
  {
    if n == 0 then Some(k)
    else if k in s && s[k].supersededBy.Some? then Follow(s, s[k].supersededBy.value, n - 1)
    else None
  }

  lemma {:induction false} FollowLater(cfg: Config, s: Store, k: int, n: nat)
    requires Forest(cfg, s) && k in s && n > 0
    ensures Follow(s, k, n).Some? ==>
      Follow(s, k, n).value in s && When(cfg, s[k]) < When(cfg, s[Follow(s, k, n).value])
    decreases n
  {
    if s[k].supersededBy.Some? {
      var j := s[k].supersededBy.value;
      assert LinkOk(cfg, s, k);
      if n > 1 {
        FollowLater(cfg, s, j, n - 1);
      }
    }
  }

  function LaterThan(cfg: Config, s: Store, k: int): set<int>
    requires k in s
  {
    set j | j in s && When(cfg, s[k]) < When(cfg, s[j])
  }

  // The end of a chain: the memory that nothing has updated.
  function Current(cfg: Config, s: Store, k: int): (c: int)
    requires Forest(cfg, s) && k in s
    ensures c in s && s[c].supersededBy.None?
    decreases LaterThan(cfg, s, k)
  {
    if s[k].supersededBy.None? then k
    else
      assert LinkOk(cfg, s, k);
      var j := s[k].supersededBy.value;
      assert j in LaterThan(cfg, s, k) && j !in LaterThan(cfg, s, j);
      Current(cfg, s, j)
  }

  lemma {:induction false} CurrentReached(cfg: Config, s: Store, k: int) returns (n: nat)
    requires Forest(cfg, s) && k in s
    ensures n <= |LaterThan(cfg, s, k)| && Follow(s, k, n) == Some(Current(cfg, s, k))
    decreases LaterThan(cfg, s, k)
  {
    n := 0;
    if s[k].supersededBy.Some? {
      assert LinkOk(cfg, s, k);
      var j := s[k].supersededBy.value;
      assert j in LaterThan(cfg, s, k) && j !in LaterThan(cfg, s, j);
      assert LaterThan(cfg, s, j) <= LaterThan(cfg, s, k) - {j};
      Smaller(LaterThan(cfg, s, j), LaterThan(cfg, s, k), j);
      var m := CurrentReached(cfg, s, j);
      n := m + 1;
    }
  }

  lemma Smaller(a: set<int>, b: set<int>, x: int)
    requires a <= b - {x} && x in b
    ensures |a| < |b|
  {
    SubsetSize(a, b - {x});
  }

  /** After any run from an empty store the links form a forest: from every memory they lead, through
      later and later memories, to one nothing has updated, and never back. */
  lemma LinksFormForest(cfg: Config, events: seq<Event>, k: int)
    requires k in After(cfg, map[], events)
    ensures var s := After(cfg, map[], events);
      && Forest(cfg, s)
      && s[Current(cfg, s, k)].supersededBy.None?
      && (exists n: nat | n < |s| :: Follow(s, k, n) == Some(Current(cfg, s, k)))
      && (forall n: nat | n > 0 :: Follow(s, k, n) != Some(k))
  {
    AfterForest(cfg, map[], events);
    var s := After(cfg, map[], events);
    var n := CurrentReached(cfg, s, k);
    Smaller(LaterThan(cfg, s, k), s.Keys, k);
    forall n: nat | n > 0 ensures Follow(s, k, n) != Some(k) {
      FollowLater(cfg, s, k, n);
    }
  }

  // ---- a second pass ----

  /** A pass right after a pass, over any listing of the same memories, compares nothing and changes nothing. */
  lemma SecondPassIdle(cfg: Config, s: Store, scan: seq<int>, again: seq<int>)
    requires Elems(again) <= Elems(scan)
    ensures RowsOf(cfg, RunPass(cfg, s, scan), again) == []
    ensures RunPass(cfg, RunPass(cfg, s, scan), again) == RunPass(cfg, s, scan)
  {
    var t := RunPass(cfg, s, scan);
    RowsIn(cfg, s, scan);
    RowsIn(cfg, t, again);
    PassGrows(cfg, s, RowsOf(cfg, s, scan));
    var us := UncheckedOf(t, again);
    if us != [] {
      var k := us[0];
      assert k in Elems(again) && k in Elems(scan);
      PassChecks(cfg, s, RowsOf(cfg, s, scan), k);
      UncheckedListed(s, scan, k);
      assert false;
    }
    assert RowsOf(cfg, t, again) == [];
  }

  lemma {:induction false} UncheckedListed(s: Store, scan: seq<int>, k: int)
    requires k in scan && Unchecked(s, k)
    ensures k in Elems(UncheckedOf(s, scan))
  {
    if k in scan[..|scan| - 1] {
      UncheckedListed(s, scan[..|scan| - 1], k);
    }
  }

  // ---- oldest first ----

  lemma RowsByTime(cfg: Config, s: Store, scan: seq<int>, i: nat, j: nat)
    requires i < j < |RowsOf(cfg, s, scan)|
    ensures WhenAt(cfg, s, RowsOf(cfg, s, scan)[i]) <= WhenAt(cfg, s, RowsOf(cfg, s, scan)[j])
  {
    SortOrdered(NotLater(cfg, s), UncheckedOf(s, scan));
    SortedAt(NotLater(cfg, s), RowsOf(cfg, s, scan), i, j);
  }

  lemma PlacedEarlier(cfg: Config, s: Store, scan: seq<int>, i: nat, o: int)
    requires o in Elems(scan) && Unchecked(s, o)
    requires i < |RowsOf(cfg, s, scan)| && WhenAt(cfg, s, o) < WhenAt(cfg, s, RowsOf(cfg, s, scan)[i])
    ensures o in Elems(RowsOf(cfg, s, scan)[..i])
  {
    var rows := RowsOf(cfg, s, scan);
    UncheckedListed(s, scan, o);
    RowsIn(cfg, s, scan);
    var j := PlaceOf(rows, o);
    if i < j {
      RowsByTime(cfg, s, scan, i, j);
    }
    assert rows[..i][j] == o;
  }

  /** Asking for checked candidates only is no restriction: when a row's turn comes, every live memory
      with an earlier time has been checked. */
  lemma EarlierAlreadyChecked(cfg: Config, s: Store, scan: seq<int>, i: nat, o: int)
    requires Elems(scan) == s.Keys && i < |RowsOf(cfg, s, scan)|
    requires AllIn(RowsOf(cfg, s, scan)[..i], s) && RowsOf(cfg, s, scan)[i] in s
    requires o in s && Live(s[o]) && When(cfg, s[o]) < When(cfg, s[RowsOf(cfg, s, scan)[i]])
    ensures PassOver(cfg, s, RowsOf(cfg, s, scan)[..i])[o].checked
  {
    var rows := RowsOf(cfg, s, scan);
    PassChecks(cfg, s, rows[..i], o);
    if !s[o].checked {
      PlacedEarlier(cfg, s, scan, i, o);
    }
  }

  // The model names exactly the statements that `judged` says a memory updates.
  ghost predicate Judges(cfg: Config, judged: (int, int) -> bool) {
    forall r, shown: seq<int> :: JudgesOne(cfg, judged, r, shown)
  }

  ghost predicate JudgesOne(cfg: Config, judged: (int, int) -> bool, r: int, shown: seq<int>) {
    && cfg.reply(r, shown).Answer?
    && forall i | 0 <= i < |shown| :: i + 1 in cfg.reply(r, shown).numbers <==> judged(r, shown[i])
  }

  // `r` is near `o`, newer, and judged to update it.
  predicate Updates(cfg: Config, judged: (int, int) -> bool, s: Store, r: int, o: int) {
    && r in s && o in s && s[r].embedded && o in cfg.near(r) && o != r
    && s[o].agent == s[r].agent && Live(s[o]) && Earlier(cfg, s, r, o) && judged(r, o)
  }

  // Filtering moves nothing back.
  lemma {:induction false} EligibleAt(cfg: Config, s: Store, r: int, os: seq<int>, p: nat)
    requires r in s && p < |os| && Eligible(cfg, s, r, os[p])
    ensures os[p] in Take(EligibleOf(cfg, s, r, os), p + 1)
  {
    var before := EligibleOf(cfg, s, r, os[..|os| - 1]);
    if p < |os| - 1 {
      EligibleAt(cfg, s, r, os[..|os| - 1], p);
      TakeMore(before, EligibleOf(cfg, s, r, os), p + 1, os[p]);
    } else {
      assert EligibleOf(cfg, s, r, os) == before + [os[p]];
      assert |before| <= p;
    }
  }

  lemma {:induction false} EarlierAt(cfg: Config, s: Store, r: int, os: seq<int>, p: nat)
    requires r in s && AllIn(os, s) && p < |os| && Earlier(cfg, s, r, os[p])
    ensures os[p] in Take(EarlierOf(cfg, s, r, os), p + 1)
  {
    var before := EarlierOf(cfg, s, r, os[..|os| - 1]);
    if p < |os| - 1 {
      EarlierAt(cfg, s, r, os[..|os| - 1], p);
      TakeMore(before, EarlierOf(cfg, s, r, os), p + 1, os[p]);
    } else {
      assert EarlierOf(cfg, s, r, os) == before + [os[p]];
      assert |before| <= p;
    }
  }

  lemma TakeMore<T>(s: seq<T>, t: seq<T>, n: nat, x: T)
    requires s <= t && x in Take(s, n)
    ensures x in Take(t, n)
  {
    var i := PlaceOf(Take(s, n), x);
    assert Take(t, n)[i] == x;
  }

  lemma TakePlace<T>(s: seq<T>, n: nat, m: nat, x: T) returns (i: nat)
    requires x in Take(s, n) && n <= m
    ensures i < n && i < |Take(s, m)| && Take(s, m)[i] == x
  {
    i := PlaceOf(Take(s, n), x);
  }

  lemma {:induction false} NamesListed(older: seq<int>, picked: seq<int>, i: nat)
    requires Within(picked, |older|) && i + 1 in picked && i < |older|
    ensures Names(older, picked, older[i])
  {
    if picked[|picked| - 1] != i + 1 {
      InPrefix(picked, i + 1);
      NamesListed(older, picked[..|picked| - 1], i);
    }
  }

  lemma {:induction false} NamedPick(older: seq<int>, picked: seq<int>, o: int) returns (i: nat)
    requires Within(picked, |older|) && Names(older, picked, o)
    ensures i < |older| && older[i] == o && i + 1 in picked
  {
    i := picked[|picked| - 1] - 1;
    if older[i] != o {
      i := NamedPick(older, picked[..|picked| - 1], o);
    }
  }

  // Among its nearest, so near that no cap can cut it.
  predicate Close(cfg: Config, r: int, o: int) {
    o in Take(Take(cfg.near(r), cfg.fetch), cfg.limit)
  }

  lemma {:induction false} ShownClose(cfg: Config, s: Store, r: int, o: int)
    requires r in s && s[r].embedded && Close(cfg, r, o)
    requires Eligible(cfg, s, r, o) && Earlier(cfg, s, r, o)
    ensures o in Older(cfg, s, r)
  {
    var near := cfg.near(r);
    var p := PlaceOf(Take(Take(near, cfg.fetch), cfg.limit), o);
    assert near[p] == o;
    EligibleAt(cfg, s, r, near, p);
    var q := TakePlace(EligibleOf(cfg, s, r, near), p + 1, cfg.fetch, o);
    EarlierAt(cfg, s, r, Found(cfg, s, r), q);
    var j := TakePlace(EarlierOf(cfg, s, r, Found(cfg, s, r)), q + 1, cfg.limit, o);
  }

  // Row `r` is shown `o`, as things are when its turn comes, and judged to update it.
  predicate Shows(cfg: Config, judged: (int, int) -> bool, s: Store, r: int, o: int)
    requires r in s
  {
    o in Older(cfg, s, r) && judged(r, o)
  }

  lemma {:induction false} RowTakes(cfg: Config, judged: (int, int) -> bool, s: Store, r: int, o: int)
    requires Judges(cfg, judged) && r in s
    ensures Takes(cfg, s, r, o) <==> Shows(cfg, judged, s, r, o)
  {
    var older := Older(cfg, s, r);
    assert JudgesOne(cfg, judged, r, older);
    if Takes(cfg, s, r, o) {
      var i := NamedPick(older, AskedFor(cfg, s, r), o);
    }
    if Shows(cfg, judged, s, r, o) {
      var i := PlaceOf(older, o);
      NamesListed(older, AskedFor(cfg, s, r), i);
    }
  }

  // The first row that is shown `o` at its turn and judged to update it.
  function FirstShown(cfg: Config, judged: (int, int) -> bool, s: Store, rows: seq<int>, o: int): Option<int>
    requires AllIn(rows, s)
  {
    if rows == [] then None
    else
      var p, r := rows[..|rows| - 1], rows[|rows| - 1];
      var before := FirstShown(cfg, judged, s, p, o);
      if before.Some? then before else if Shows(cfg, judged, PassOver(cfg, s, p), r, o) then Some(r) else None
  }

  /** Whatever the caps cut off: after the pass a statement is linked to the first row that was shown it
      at its turn and judged to update it, and to none when there was no such row. */
  lemma {:induction false} LinkedToFirstShown(cfg: Config, judged: (int, int) -> bool, s: Store, rows: seq<int>, o: int)
    requires Judges(cfg, judged) && AllIn(rows, s) && o in s && s[o].supersededBy.None?
    ensures PassOver(cfg, s, rows)[o].supersededBy == FirstShown(cfg, judged, s, rows, o)
  {
    if rows != [] {
      var p, r := rows[..|rows| - 1], rows[|rows| - 1];
      LinkedToFirstShown(cfg, judged, s, p, o);
      RowTakes(cfg, judged, PassOver(cfg, s, p), r, o);
      RowFacts(cfg, PassOver(cfg, s, p), r, o);
    }
  }

  // The first of the rows that updates `o`.
  function FirstUpdater(cfg: Config, judged: (int, int) -> bool, s: Store, rows: seq<int>, o: int): (f: Option<int>)
    ensures f.Some? ==> f.value in rows && Updates(cfg, judged, s, f.value, o)
  {
    if rows == [] then None
    else
      var before, r := FirstUpdater(cfg, judged, s, rows[..|rows| - 1], o), rows[|rows| - 1];
      if before.Some? then before else if Updates(cfg, judged, s, r, o) then Some(r) else None
  }

  lemma SameUpdates(cfg: Config, judged: (int, int) -> bool, s: Store, t: Store, r: int, o: int)
    requires Grown(s, t)
    ensures Updates(cfg, judged, s, r, o) <==> Updates(cfg, judged, t, r, o)
  {
  }

  // Being shown is being an update that is not linked yet and that the caps leave in view.
  lemma {:induction false} ShownUpdates(cfg: Config, judged: (int, int) -> bool, s: Store, scan: seq<int>, i: nat, o: int)
    requires Elems(scan) == s.Keys && o in s && i < |RowsOf(cfg, s, scan)|
    ensures AllIn(RowsOf(cfg, s, scan)[..i], s) && RowsOf(cfg, s, scan)[i] in s
    ensures var t, r := PassOver(cfg, s, RowsOf(cfg, s, scan)[..i]), RowsOf(cfg, s, scan)[i];
      && (Shows(cfg, judged, t, r, o) ==> Updates(cfg, judged, s, r, o))
      && (Updates(cfg, judged, s, r, o) && t[o].supersededBy.None? && Close(cfg, r, o) ==> Shows(cfg, judged, t, r, o))
  {
    RowsIn(cfg, s, scan);
    var rows := RowsOf(cfg, s, scan);
    var t, r := PassOver(cfg, s, rows[..i]), rows[i];
    PassGrows(cfg, s, rows[..i]);
    SameUpdates(cfg, judged, s, t, r, o);
    if Updates(cfg, judged, s, r, o) && t[o].supersededBy.None? && Close(cfg, r, o) {
      EarlierAlreadyChecked(cfg, s, scan, i, o);
      ShownClose(cfg, t, r, o);
    }
  }

  // Whoever is judged to update `o` has it so near that no cap can cut it.
  predicate InReach(cfg: Config, judged: (int, int) -> bool, s: Store, o: int) {
    forall r | r in s && Updates(cfg, judged, s, r, o) :: Close(cfg, r, o)
  }

  lemma {:induction false} ShownIsUpdater(cfg: Config, judged: (int, int) -> bool, s: Store, scan: seq<int>, i: nat, o: int)
    requires Judges(cfg, judged) && InReach(cfg, judged, s, o) && Elems(scan) == s.Keys && o in s
    requires i <= |RowsOf(cfg, s, scan)| && s[o].supersededBy.None?
    ensures AllIn(RowsOf(cfg, s, scan)[..i], s)
    ensures FirstShown(cfg, judged, s, RowsOf(cfg, s, scan)[..i], o) == FirstUpdater(cfg, judged, s, RowsOf(cfg, s, scan)[..i], o)
  {
    if i > 0 {
      ShownIsUpdater(cfg, judged, s, scan, i - 1, o);
      ShownUpdates(cfg, judged, s, scan, i - 1, o);
      LinkedToFirstShown(cfg, judged, s, RowsOf(cfg, s, scan)[..i - 1], o);
      ShownSnoc(cfg, judged, s, RowsOf(cfg, s, scan), i - 1, o);
      UpdaterSnoc(cfg, judged, s, RowsOf(cfg, s, scan), i - 1, o);
    }
  }

  lemma {:induction false} ShownSnoc(cfg: Config, judged: (int, int) -> bool, s: Store, rows: seq<int>, i: nat, o: int)
    requires i < |rows| && AllIn(rows[..i], s) && rows[i] in s
    ensures AllIn(rows[..i + 1], s)
    ensures FirstShown(cfg, judged, s, rows[..i + 1], o)
      == if FirstShown(cfg, judged, s, rows[..i], o).Some? then FirstShown(cfg, judged, s, rows[..i], o)
         else if Shows(cfg, judged, PassOver(cfg, s, rows[..i]), rows[i], o) then Some(rows[i]) else None
  {
    assert rows[..i + 1][..i] == rows[..i];
    assert rows[..i + 1] == rows[..i] + [rows[i]];
  }

  lemma {:induction false} UpdaterSnoc(cfg: Config, judged: (int, int) -> bool, s: Store, rows: seq<int>, i: nat, o: int)
    requires i < |rows|
    ensures FirstUpdater(cfg, judged, s, rows[..i + 1], o)
      == if FirstUpdater(cfg, judged, s, rows[..i], o).Some? then FirstUpdater(cfg, judged, s, rows[..i], o)
         else if Updates(cfg, judged, s, rows[i], o) then Some(rows[i]) else None
  {
    assert rows[..i + 1][..i] == rows[..i];
  }

  lemma {:induction false} FirstIsFirst(cfg: Config, judged: (int, int) -> bool, s: Store, rows: seq<int>, o: int, j: nat)
    requires j < |rows| && Updates(cfg, judged, s, rows[j], o)
    ensures FirstUpdater(cfg, judged, s, rows, o).Some?
    ensures exists i | 0 <= i <= j :: rows[i] == FirstUpdater(cfg, judged, s, rows, o).value
  {
    var p := rows[..|rows| - 1];
    if FirstUpdater(cfg, judged, s, p, o).Some? {
      var i :| 0 <= i < |p| && p[i] == FirstUpdater(cfg, judged, s, p, o).value;
      assert rows[i] == p[i];
      if j < |p| {
        FirstIsFirst(cfg, judged, s, p, o, j);
        var k :| 0 <= k <= j && p[k] == FirstUpdater(cfg, judged, s, p, o).value;
        assert rows[k] == p[k];
      }
    } else if j < |p| {
      FirstIsFirst(cfg, judged, s, p, o, j);
      assert false;
    }
  }

  lemma {:induction false} FirstIsOldest(cfg: Config, judged: (int, int) -> bool, s: Store, scan: seq<int>, o: int, q: int)
    requires Elems(scan) == s.Keys && Unchecked(s, q) && Updates(cfg, judged, s, q, o)
    ensures var first := FirstUpdater(cfg, judged, s, RowsOf(cfg, s, scan), o);
      first.Some? && When(cfg, s[first.value]) <= When(cfg, s[q])
  {
    var rows := RowsOf(cfg, s, scan);
    RowsIn(cfg, s, scan);
    assert q in Elems(scan);
    UncheckedListed(s, scan, q);
    var j := PlaceOf(rows, q);
    FirstIsFirst(cfg, judged, s, rows, o, j);
    var first := FirstUpdater(cfg, judged, s, rows, o);
    var i :| 0 <= i <= j && rows[i] == first.value;
    if i < j {
      RowsByTime(cfg, s, scan, i, j);
    }
  }

  /** A statement that several unchecked memories update, each of which has it in reach of the caps, goes to
      the oldest of them: after the pass its link is one of the memories judged to update it, none of which is older, and it has one
      whenever there is such a memory. */
  lemma {:induction false} LinkedToOldest(cfg: Config, judged: (int, int) -> bool, s: Store, scan: seq<int>, o: int)
    requires InReach(cfg, judged, s, o) && Judges(cfg, judged) && Elems(scan) == s.Keys && o in s && s[o].supersededBy.None?
    ensures match RunPass(cfg, s, scan)[o].supersededBy
            case Some(r) =>
              && Unchecked(s, r) && Updates(cfg, judged, s, r, o)
              && (forall q | Unchecked(s, q) && Updates(cfg, judged, s, q, o) :: When(cfg, s[r]) <= When(cfg, s[q]))
            case None => forall q | Unchecked(s, q) :: !Updates(cfg, judged, s, q, o)
  {
    var rows := RowsOf(cfg, s, scan);
    RowsIn(cfg, s, scan);
    ShownIsUpdater(cfg, judged, s, scan, |rows|, o);
    LinkedToFirstShown(cfg, judged, s, rows, o);
    assert rows[..|rows|] == rows;
    var first := FirstUpdater(cfg, judged, s, rows, o);
    if first.Some? {
      assert first.value in Elems(rows);
    }
    forall q | Unchecked(s, q) && Updates(cfg, judged, s, q, o)
      ensures first.Some? && When(cfg, s[first.value]) <= When(cfg, s[q])
    {
      FirstIsOldest(cfg, judged, s, scan, o, q);
    }
  }

  // ---- when a cap hides a statement ----

  lemma {:induction false} ShownBeyond(cfg: Config, judged: (int, int) -> bool, s: Store, rows: seq<int>, n: nat, o: int)
    requires AllIn(rows, s) && n <= |rows|
    ensures AllIn(rows[..n], s)
    ensures FirstShown(cfg, judged, s, rows[..n], o).Some?
      ==> FirstShown(cfg, judged, s, rows, o) == FirstShown(cfg, judged, s, rows[..n], o)
  {
    if n < |rows| {
      ShownBeyond(cfg, judged, s, rows[..|rows| - 1], n, o);
      assert rows[..|rows| - 1][..n] == rows[..n];
    } else {
      assert rows[..n] == rows;
    }
  }

  lemma {:induction false} ShownPlace(cfg: Config, judged: (int, int) -> bool, s: Store, rows: seq<int>, o: int) returns (j: nat)
    requires AllIn(rows, s) && FirstShown(cfg, judged, s, rows, o).Some?
    ensures j < |rows| && AllIn(rows[..j], s) && FirstShown(cfg, judged, s, rows, o) == Some(rows[j])
    ensures Shows(cfg, judged, PassOver(cfg, s, rows[..j]), rows[j], o)
  {
    j := |rows| - 1;
    if FirstShown(cfg, judged, s, rows[..j], o).Some? {
      j := ShownPlace(cfg, judged, s, rows[..j], o);
      assert rows[..|rows| - 1][..j] == rows[..j];
    }
  }

  lemma {:induction false} NoneBefore(cfg: Config, judged: (int, int) -> bool, s: Store, scan: seq<int>, i: nat, o: int)
    requires Judges(cfg, judged) && Elems(scan) == s.Keys && o in s && i < |RowsOf(cfg, s, scan)|
    requires FirstUpdater(cfg, judged, s, RowsOf(cfg, s, scan)[..i], o).None?
    ensures AllIn(RowsOf(cfg, s, scan)[..i], s)
    ensures FirstShown(cfg, judged, s, RowsOf(cfg, s, scan)[..i], o).None?
  {
    var rows := RowsOf(cfg, s, scan);
    RowsIn(cfg, s, scan);
    if FirstShown(cfg, judged, s, rows[..i], o).Some? {
      var j := ShownPlace(cfg, judged, s, rows[..i], o);
      assert rows[..i][..j] == rows[..j];
      ShownUpdates(cfg, judged, s, scan, j, o);
      FirstIsFirst(cfg, judged, s, rows[..i], o, j);
    }
  }

  lemma {:induction false} FirstShownIff(cfg: Config, judged: (int, int) -> bool, s: Store, rows: seq<int>, i: nat, o: int)
    requires NoDup(rows) && AllIn(rows, s) && i < |rows| && AllIn(rows[..i], s)
    requires FirstShown(cfg, judged, s, rows[..i], o).None?
    ensures FirstShown(cfg, judged, s, rows, o) == Some(rows[i])
      <==> Shows(cfg, judged, PassOver(cfg, s, rows[..i]), rows[i], o)
  {
    ShownSnoc(cfg, judged, s, rows, i, o);
    ShownBeyond(cfg, judged, s, rows, i + 1, o);
    if FirstShown(cfg, judged, s, rows, o) == Some(rows[i]) {
      var j := ShownPlace(cfg, judged, s, rows, o);
      NoDupSame(rows, i, j);
    }
  }

  lemma {:induction false} RowsNoDup(cfg: Config, s: Store, scan: seq<int>)
    requires NoDup(scan)
    ensures NoDup(RowsOf(cfg, s, scan))
  {
    SortKeepsNoDup(NotLater(cfg, s), UncheckedOf(s, scan));
  }

  /** With any caps: the oldest memory judged to update a statement gets it exactly when the statement is
      among those it is shown at its turn. */
  lemma {:induction false} OldestLinksIff(cfg: Config, judged: (int, int) -> bool, s: Store, scan: seq<int>, i: nat, o: int)
    requires Judges(cfg, judged) && NoDup(scan) && Elems(scan) == s.Keys && o in s && s[o].supersededBy.None?
    requires i < |RowsOf(cfg, s, scan)| && judged(RowsOf(cfg, s, scan)[i], o)
    requires FirstUpdater(cfg, judged, s, RowsOf(cfg, s, scan)[..i], o).None?
    ensures AllIn(RowsOf(cfg, s, scan)[..i], s) && RowsOf(cfg, s, scan)[i] in s
    ensures RunPass(cfg, s, scan)[o].supersededBy == Some(RowsOf(cfg, s, scan)[i])
      <==> o in Older(cfg, PassOver(cfg, s, RowsOf(cfg, s, scan)[..i]), RowsOf(cfg, s, scan)[i])
  {
    RowsIn(cfg, s, scan);
    RowsNoDup(cfg, s, scan);
    NoneBefore(cfg, judged, s, scan, i, o);
    FirstShownIff(cfg, judged, s, RowsOf(cfg, s, scan), i, o);
    LinkedToFirstShown(cfg, judged, s, RowsOf(cfg, s, scan), o);
  }

  lemma {:induction false} TwoEligible(cfg: Config, s: Store, r: int, a: int, b: int)
    requires r in s && Eligible(cfg, s, r, a) && Eligible(cfg, s, r, b)
    ensures EligibleOf(cfg, s, r, [a, b]) == [a, b]
  {
    assert [a, b][..1] == [a] && [a][..0] == [];
    assert EligibleOf(cfg, s, r, [a]) == [a];
  }

  lemma {:induction false} TwoEarlier(cfg: Config, s: Store, r: int, a: int, b: int)
    requires r in s && a in s && b in s && Earlier(cfg, s, r, a) && Earlier(cfg, s, r, b)
    ensures EarlierOf(cfg, s, r, [a, b]) == [a, b]
  {
    assert [a, b][..1] == [a] && [a][..0] == [];
    assert EarlierOf(cfg, s, r, [a]) == [a];
  }

  lemma {:induction false} CapOne(cfg: Config, s: Store, r: int, a: int, b: int)
    requires r in s && a in s && b in s && cfg.near(r) == [a, b] && cfg.limit == 1 && cfg.fetch >= 2
    requires Eligible(cfg, s, r, a) && Eligible(cfg, s, r, b) && Earlier(cfg, s, r, a) && Earlier(cfg, s, r, b)
    ensures Older(cfg, s, r) == if s[r].embedded then [a] else []
  {
    TwoEligible(cfg, s, r, a, b);
    TwoEarlier(cfg, s, r, a, b);
    assert Found(cfg, s, r) == [a, b];
  }

  // Three memories of one agent, one time unit apart, the last one new and near to both others, of
  // which it is shown one; every update is confirmed.
  function Note(time: string, checked: bool): Memory {
    Memory(0, false, false, true, time, "", checked, None, None)
  }

  const NOTES: Store := map[0 := Note("", true), 1 := Note("a", true), 2 := Note("aa", false)]
  const ALWAYS: (int, int) -> bool := (r, o) => true

  function ShowOne(): Config {
    Config(text => Some(|text|), SimilarityGate, r => [1, 0], (r, o) => true, 50, 1,
           (r, shown) => Answer(seq(|shown|, i => i + 1)))
  }

  lemma AllNamed(r: int, shown: seq<int>)
    ensures JudgesOne(ShowOne(), ALWAYS, r, shown)
  {
    var numbers := ShowOne().reply(r, shown).numbers;
    forall i {:trigger shown[i]} | 0 <= i < |shown| ensures i + 1 in numbers {
      assert numbers[i] == i + 1;
    }
  }

  lemma NotesNear()
    ensures var cfg := ShowOne();
      Eligible(cfg, NOTES, 2, 1) && Eligible(cfg, NOTES, 2, 0) && Earlier(cfg, NOTES, 2, 1) && Earlier(cfg, NOTES, 2, 0)
  {
  }

  lemma {:induction false} NewRows()
    ensures RowsOf(ShowOne(), NOTES, [0, 1, 2]) == [2]
  {
    assert [0, 1, 2][..2] == [0, 1] && [0, 1][..1] == [0] && [0][..0] == [] && [2][..0] == [];
    assert UncheckedOf(NOTES, []) == [];
    assert UncheckedOf(NOTES, [0]) == [];
    assert UncheckedOf(NOTES, [0, 1]) == [];
    assert UncheckedOf(NOTES, [0, 1, 2]) == [2];
  }

  lemma {:induction false} NotesHidden()
    ensures FirstShown(ShowOne(), ALWAYS, NOTES, [2], 0) == None
  {
    NotesNear();
    CapOne(ShowOne(), NOTES, 2, 1, 0);
    assert [2][..0] == [];
    assert FirstShown(ShowOne(), ALWAYS, NOTES, [], 0) == None;
  }

  lemma {:induction false} AllConfirmed()
    ensures Judges(ShowOne(), ALWAYS)
  {
    forall r, shown: seq<int> ensures JudgesOne(ShowOne(), ALWAYS, r, shown) {
      AllNamed(r, shown);
    }
  }

  /** So with a cap of one, a statement that a new memory updates can stay unlinked. */
  lemma {:induction false} CapHides()
    ensures Judges(ShowOne(), ALWAYS)
    ensures Unchecked(NOTES, 2) && Updates(ShowOne(), ALWAYS, NOTES, 2, 0)
    ensures RunPass(ShowOne(), NOTES, [0, 1, 2])[0].supersededBy == None
  {
    AllConfirmed();
    NotesNear();
    NewRows();
    NotesHidden();
    LinkedToFirstShown(ShowOne(), ALWAYS, NOTES, [2], 0);
  }

  // ---- only answers link ----

  // The reply for `r`, shown what it is shown at its turn, has an answer line with the number of `k` on it.
  predicate Answers(cfg: Config, s: Store, r: int, k: int)
    requires r in s
  {
    var older := Older(cfg, s, r);
    match cfg.reply(r, older)
    case Unparsed => false
    case Answer(numbers) => exists i | 0 <= i < |older| :: older[i] == k && i + 1 in numbers
  }

  lemma TakesAnswered(cfg: Config, s: Store, r: int, k: int)
    requires r in s
    ensures Takes(cfg, s, r, k) <==> Answers(cfg, s, r, k)
  {
    var older := Older(cfg, s, r);
    if Takes(cfg, s, r, k) {
      var i := NamedPick(older, AskedFor(cfg, s, r), k);
    }
    if Answers(cfg, s, r, k) {
      var i :| 0 <= i < |older| && older[i] == k && i + 1 in cfg.reply(r, older).numbers;
      NamesListed(older, AskedFor(cfg, s, r), i);
    }
  }

  /** Whatever a model replies: a row links a statement to itself exactly when the reply has an answer line that
      names it; a reply without one links nothing. */
  lemma RowLinksAnswered(cfg: Config, s: Store, r: int, k: int)
    requires r in s && k in s
    ensures ProcessRow(cfg, s, r)[k].supersededBy == if Answers(cfg, s, r, k) then Some(r) else s[k].supersededBy
    ensures Answers(cfg, s, r, k) ==> s[k].supersededBy.None?
  {
    RowFacts(cfg, s, r, k);
    TakesAnswered(cfg, s, r, k);
    if Takes(cfg, s, r, k) {
      TakenIsOlder(cfg, s, r, k);
    }
  }

  // The first row whose answer, at its turn, names `k`.
  function FirstAnswer(cfg: Config, s: Store, rows: seq<int>, k: int): Option<int>
    requires AllIn(rows, s)
  {
    if rows == [] then None
    else
      var p, r := rows[..|rows| - 1], rows[|rows| - 1];
      var before := FirstAnswer(cfg, s, p, k);
      if before.Some? then before else if Answers(cfg, PassOver(cfg, s, p), r, k) then Some(r) else None
  }

  lemma {:induction false} PassAnswered(cfg: Config, s: Store, rows: seq<int>, k: int)
    requires AllIn(rows, s) && k in s
    ensures PassOver(cfg, s, rows)[k].supersededBy
      == if FirstAnswer(cfg, s, rows, k).Some? then FirstAnswer(cfg, s, rows, k) else s[k].supersededBy
  {
    if rows != [] {
      PassAnswered(cfg, s, rows[..|rows| - 1], k);
      RowLinksAnswered(cfg, PassOver(cfg, s, rows[..|rows| - 1]), rows[|rows| - 1], k);
    }
  }

  /** So after a pass a statement has the link it had, or else one to the first row whose answer named it. */
  lemma PassLinksAnswered(cfg: Config, s: Store, scan: seq<int>, k: int)
    requires k in s
    ensures AllIn(RowsOf(cfg, s, scan), s)
    ensures RunPass(cfg, s, scan)[k].supersededBy
      == if FirstAnswer(cfg, s, RowsOf(cfg, s, scan), k).Some? then FirstAnswer(cfg, s, RowsOf(cfg, s, scan), k) else s[k].supersededBy
  {
    RowsIn(cfg, s, scan);
    PassAnswered(cfg, s, RowsOf(cfg, s, scan), k);
  }

  // ---- the tally ----

  function LinkedKeys(s: Store): set<int> {
    set k | k in s && s[k].supersededBy.Some?
  }

  function NamedSet(older: seq<int>, picked: seq<int>): set<int>
    requires Within(picked, |older|)
  {
    if picked == [] then {} else NamedSet(older, picked[..|picked| - 1]) + {older[picked[|picked| - 1] - 1]}
  }

  lemma {:induction false} NamedSetIs(older: seq<int>, picked: seq<int>, o: int)
    requires Within(picked, |older|)
    ensures o in NamedSet(older, picked) <==> Names(older, picked, o)
  {
    if picked != [] {
      NamedSetIs(older, picked[..|picked| - 1], o);
    }
  }

  lemma {:induction false} NamedSetSize(older: seq<int>, picked: seq<int>)
    requires Within(picked, |older|) && NoDup(older) && NoDup(picked)
    ensures |NamedSet(older, picked)| == |picked|
  {
    if picked != [] {
      var p, n := picked[..|picked| - 1], picked[|picked| - 1];
      NamedSetSize(older, p);
      NamedSetIs(older, p, older[n - 1]);
      if Names(older, p, older[n - 1]) {
        var i := NamedPick(older, p, older[n - 1]);
        if i < n - 1 {
          NoDupAt(older, i, n - 1);
        } else if n - 1 < i {
          NoDupAt(older, n - 1, i);
        }
      }
    }
  }

  lemma OlderNoDup(cfg: Config, s: Store, r: int)
    requires r in s && NoDup(cfg.near(r))
    ensures NoDup(Older(cfg, s, r))
  {
    var e := EligibleOf(cfg, s, r, cfg.near(r));
    if |e| > cfg.fetch {
      PrefixNoDup(e, cfg.fetch);
    }
    var f := EarlierOf(cfg, s, r, Found(cfg, s, r));
    if |f| > cfg.limit {
      PrefixNoDup(f, cfg.limit);
    }
  }

  lemma RowCount(cfg: Config, s: Store, r: int)
    requires r in s && NoDup(cfg.near(r))
    ensures |LinkedKeys(ProcessRow(cfg, s, r))| == |LinkedKeys(s)| + |AskedFor(cfg, s, r)|
  {
    var t, named := ProcessRow(cfg, s, r), NamedSet(Older(cfg, s, r), AskedFor(cfg, s, r));
    OlderNoDup(cfg, s, r);
    NamedSetSize(Older(cfg, s, r), AskedFor(cfg, s, r));
    forall k ensures k in LinkedKeys(t) <==> k in LinkedKeys(s) || k in named
             ensures !(k in LinkedKeys(s) && k in named)
    {
      NamedSetIs(Older(cfg, s, r), AskedFor(cfg, s, r), k);
      if k in named {
        TakenIsOlder(cfg, s, r, k);
      }
      if k in s {
        RowFacts(cfg, s, r, k);
      }
    }
    assert LinkedKeys(t) == LinkedKeys(s) + named;
  }

  /** The number of statements a pass reports superseded is the number of links it added. */
  lemma {:induction false} TallyCounts(cfg: Config, s: Store, rows: seq<int>)
    requires AllIn(rows, s) && forall r :: NoDup(cfg.near(r))
    ensures |LinkedKeys(PassOver(cfg, s, rows))| == |LinkedKeys(s)| + TallyOver(cfg, s, rows).superseded
    ensures TallyOver(cfg, s, rows).checked == |rows|
    ensures TallyOver(cfg, s, rows).unparsed <= TallyOver(cfg, s, rows).compared <= |rows|
  {
    if rows != [] {
      TallyCounts(cfg, s, rows[..|rows| - 1]);
      RowCount(cfg, PassOver(cfg, s, rows[..|rows| - 1]), rows[|rows| - 1]);
    }
  }
}
