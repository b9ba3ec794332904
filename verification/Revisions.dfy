/** Records kept as revisions: each content change stores a new memory and retires the old one. */
module Revisions {
  import opened Common

  // A revision's memory key is a hash of the record, the revision number and the redacted text, taken
  // to be injective.
  datatype MemoryKey = MemoryKey(id: string, rev: nat, text: string)

  // `content` stands for its digest.
  datatype Row = Row(memory: MemoryKey, rev: nat, content: string)

  // `memories` says of each stored memory whether it is still valid.
  datatype State = State(rows: map<string, Row>, memories: map<MemoryKey, bool>)

  const EMPTY := State(map[], map[])

  predicate Live(s: State, m: MemoryKey) {
    m in s.memories && s.memories[m]
  }

  function Stored(s: State, m: MemoryKey): State {
    if m in s.memories then s else s.(memories := s.memories[m := true])
  }

  function Retired(s: State, m: MemoryKey): State {
    if m in s.memories then s.(memories := s.memories[m := false]) else s
  }

  function NextRev(s: State, id: string): nat {
    if id in s.rows then s.rows[id].rev + 1 else 0
  }

  function NextKey(redact: string -> string, s: State, id: string, content: string): MemoryKey {
    MemoryKey(id, NextRev(s, id), redact(content))
  }

  predicate Unchanged(s: State, id: string, content: string) {
    id in s.rows && s.rows[id].content == content
  }

  // The first `n` steps of an update with changed content: store, retire, write the row.
  function Steps(redact: string -> string, s: State, id: string, content: string, n: nat): State {
    if n == 0 then s
    else
      var s1 := Stored(s, NextKey(redact, s, id, content));
      if n == 1 then s1
      else
        var s2 := if id in s.rows then Retired(s1, s.rows[id].memory) else s1;
        if n == 2 then s2
        else s2.(rows := s2.rows[id := Row(NextKey(redact, s, id, content), NextRev(s, id), content)])
  }

  function Update(redact: string -> string, s: State, id: string, content: string): State {
    if Unchanged(s, id, content) then s else Steps(redact, s, id, content, 3)
  }

  predicate Visible(s: State, id: string) {
    id in s.rows && Live(s, s.rows[id].memory)
  }

  function GetRecord(s: State, id: string): Option<string> {
    if Visible(s, id) then Some(s.rows[id].memory.text) else None
  }

  // Deletion of the visible records a filter selects.
  function Delete(s: State, selected: set<string>): State {
    State(map id | id in s.rows && !(id in selected && Visible(s, id)) :: s.rows[id],
          map m | m in s.memories :: s.memories[m] && !(m.id in selected && Visible(s, m.id) && s.rows[m.id].memory == m))
  }

  datatype Event = Save(id: string, content: string) | Remove(selected: set<string>)

  function Next(redact: string -> string, s: State, e: Event): State {
    match e
    case Save(id, content) => Update(redact, s, id, content)
    case Remove(selected) => Delete(s, selected)
  }

  function After(redact: string -> string, events: seq<Event>): State {
    if events == [] then EMPTY else Next(redact, After(redact, events[..|events| - 1]), events[|events| - 1])
  }

  // What a record should hold: the last content saved and not removed since.
  function LastSaved(events: seq<Event>, id: string): Option<string> {
    if events == [] then None
    else
      match events[|events| - 1]
      case Save(i, content) => if i == id then Some(content) else LastSaved(events[..|events| - 1], id)
      case Remove(selected) => if id in selected then None else LastSaved(events[..|events| - 1], id)
  }

  predicate Removes(e: Event, id: string) {
    e.Remove? && id in e.selected
  }

  // ---- the invariant of one record ----

  // A row names a stored memory of its own record, revision and text; no other memory of the record is live.
  ghost predicate Tidy(redact: string -> string, s: State, id: string) {
    && (id in s.rows ==>
          && s.rows[id].memory == MemoryKey(id, s.rows[id].rev, redact(s.rows[id].content))
          && s.rows[id].memory in s.memories)
    && (forall m | m in s.memories && m.id == id && s.memories[m] :: id in s.rows && s.rows[id].memory == m)
  }

  // Each row's memory is one of its own record's.
  ghost predicate Own(s: State) {
    forall id | id in s.rows :: s.rows[id].memory.id == id
  }

  lemma {:induction false} AfterOwn(redact: string -> string, events: seq<Event>)
    ensures Own(After(redact, events))
  {
    if events != [] {
      AfterOwn(redact, events[..|events| - 1]);
    }
  }

  lemma NextTidy(redact: string -> string, s: State, e: Event, id: string)
    requires Own(s) && Tidy(redact, s, id)
    ensures Tidy(redact, Next(redact, s, e), id)
  {
  }

  lemma {:induction false} AfterTidy(redact: string -> string, events: seq<Event>, id: string)
    ensures Tidy(redact, After(redact, events), id)
  {
    if events != [] {
      AfterTidy(redact, events[..|events| - 1], id);
      AfterOwn(redact, events[..|events| - 1]);
      NextTidy(redact, After(redact, events[..|events| - 1]), events[|events| - 1], id);
    }
  }

  /** Through any saves, updates and deletions, ids saved again after a deletion included, at most one memory
      of a record is live, and it is the one its row names. */
  lemma OneLiveMemory(redact: string -> string, events: seq<Event>, id: string, m: MemoryKey)
    requires Live(After(redact, events), m) && m.id == id
    ensures var s := After(redact, events); id in s.rows && s.rows[id].memory == m && Visible(s, id)
  {
    AfterTidy(redact, events, id);
  }

  // ---- which memories there are ----

  // Event `j` saves changed content as memory `m`.
  predicate Makes(redact: string -> string, events: seq<Event>, j: nat, m: MemoryKey)
    requires j < |events|
  {
    var s := After(redact, events[..j]);
    && events[j].Save? && !Unchanged(s, events[j].id, events[j].content)
    && NextKey(redact, s, events[j].id, events[j].content) == m
  }

  ghost predicate SavedBefore(redact: string -> string, events: seq<Event>, m: MemoryKey) {
    exists j | 0 <= j < |events| :: Makes(redact, events, j, m)
  }

  lemma {:induction false} SavedNext(redact: string -> string, p: seq<Event>, e: Event, m: MemoryKey)
    ensures SavedBefore(redact, p + [e], m) <==> SavedBefore(redact, p, m) || Makes(redact, p + [e], |p|, m)
  {
    forall j | 0 <= j < |p| ensures Makes(redact, p + [e], j, m) <==> Makes(redact, p, j, m) {
      assert (p + [e])[..j] == p[..j];
    }
  }

  // A memory is there exactly when a save made it.
  lemma {:induction false} StoredIff(redact: string -> string, events: seq<Event>, m: MemoryKey)
    ensures m in After(redact, events).memories <==> SavedBefore(redact, events, m)
  {
    if events != [] {
      var p, e := events[..|events| - 1], events[|events| - 1];
      StoredIff(redact, p, m);
      assert events == p + [e] && events[..|p|] == p;
      SavedNext(redact, p, e, m);
    }
  }

  // ---- when a record reads back ----

  /** One save, in any state a run can reach: the content reads back exactly when, if it is what the row holds
      already, the row is visible, and otherwise no invalidated memory lies under the next revision's key. */
  lemma SaveVisible(redact: string -> string, s: State, id: string, content: string)
    requires Tidy(redact, s, id)
    ensures GetRecord(Update(redact, s, id, content), id) == Some(redact(content)) <==>
      if Unchanged(s, id, content) then Visible(s, id)
      else NextKey(redact, s, id, content) in s.memories ==> Live(s, NextKey(redact, s, id, content))
  {
  }

  // A changed save of the record whose redacted text was not saved before at that revision number.
  ghost predicate FreshAt(redact: string -> string, events: seq<Event>, n: nat, id: string)
    requires n < |events|
  {
    var s := After(redact, events[..n]);
    (events[n].Save? && events[n].id == id && !Unchanged(s, id, events[n].content)
     ==> !SavedBefore(redact, events[..n], NextKey(redact, s, id, events[n].content)))
  }

  ghost predicate Fresh(redact: string -> string, events: seq<Event>, id: string) {
    forall n | 0 <= n < |events| :: FreshAt(redact, events, n, id)
  }

  // After the first `n` events the record reads as the last content saved and not removed since.
  ghost predicate ReadsBackAt(redact: string -> string, events: seq<Event>, n: nat, id: string)
    requires n <= |events|
  {
    GetRecord(After(redact, events[..n]), id)
      == match LastSaved(events[..n], id) case Some(content) => Some(redact(content)) case None => None
  }

  ghost predicate ReadsBack(redact: string -> string, events: seq<Event>, id: string) {
    forall n | 0 <= n <= |events| :: ReadsBackAt(redact, events, n, id)
  }

  // The row, if any, is visible and holds the last content.
  predicate Current(s: State, id: string, last: Option<string>) {
    if id in s.rows then Visible(s, id) && last == Some(s.rows[id].content) else last.None?
  }

  lemma {:induction false} FreshNext(redact: string -> string, p: seq<Event>, e: Event, id: string)
    ensures Fresh(redact, p + [e], id) <==> Fresh(redact, p, id) && FreshAt(redact, p + [e], |p|, id)
  {
    forall n | 0 <= n < |p| ensures FreshAt(redact, p + [e], n, id) <==> FreshAt(redact, p, n, id) {
      assert (p + [e])[..n] == p[..n];
    }
  }

  lemma {:induction false} ReadsNext(redact: string -> string, p: seq<Event>, e: Event, id: string)
    ensures ReadsBack(redact, p + [e], id) <==> ReadsBack(redact, p, id) && ReadsBackAt(redact, p + [e], |p| + 1, id)
  {
    forall n | 0 <= n <= |p| ensures ReadsBackAt(redact, p + [e], n, id) <==> ReadsBackAt(redact, p, n, id) {
      assert (p + [e])[..n] == p[..n];
    }
  }

  lemma {:induction false} CurrentNext(redact: string -> string, p: seq<Event>, e: Event, id: string)
    requires Current(After(redact, p), id, LastSaved(p, id))
    ensures FreshAt(redact, p + [e], |p|, id) ==> Current(After(redact, p + [e]), id, LastSaved(p + [e], id))
    ensures ReadsBackAt(redact, p + [e], |p| + 1, id) <==> FreshAt(redact, p + [e], |p|, id)
  {
    var q, s := p + [e], After(redact, p);
    assert q[..|p|] == p && q[..|p| + 1] == q;
    AfterTidy(redact, p, id);
    AfterOwn(redact, p);
    if e.Save? && e.id == id {
      StoredIff(redact, p, NextKey(redact, s, id, e.content));
    } else if e.Save? {
      OthersStay(redact, s, e.id, e.content, id);
    }
  }

  lemma OthersStay(redact: string -> string, s: State, id: string, content: string, other: string)
    requires Own(s) && other != id
    ensures var t := Update(redact, s, id, content);
      (other in t.rows <==> other in s.rows) && (other in s.rows ==> t.rows[other] == s.rows[other])
      && (Visible(t, other) <==> Visible(s, other))
  {
  }

  lemma {:induction false} FreshCurrent(redact: string -> string, events: seq<Event>, id: string)
    requires Fresh(redact, events, id)
    ensures Current(After(redact, events), id, LastSaved(events, id))
  {
    if events != [] {
      var p, e := events[..|events| - 1], events[|events| - 1];
      assert events == p + [e];
      FreshNext(redact, p, e, id);
      FreshCurrent(redact, p, id);
      CurrentNext(redact, p, e, id);
    }
  }

  /** In any run: a record reads as its last saved content at every point exactly when no changed save of it
      repeats the redacted text of an earlier save at the same revision number. */
  lemma {:induction false} ReadsBackIff(redact: string -> string, events: seq<Event>, id: string)
    ensures ReadsBack(redact, events, id) <==> Fresh(redact, events, id)
  {
    if events == [] {
      assert events[..0] == events;
    } else {
      var p, e := events[..|events| - 1], events[|events| - 1];
      assert events == p + [e];
      ReadsBackIff(redact, p, id);
      FreshNext(redact, p, e, id);
      ReadsNext(redact, p, e, id);
      if Fresh(redact, p, id) {
        FreshCurrent(redact, p, id);
        CurrentNext(redact, p, e, id);
      }
    }
  }

  // Save a record, remove it, and save what it held.
  function SavedAgain(id: string, text: string): seq<Event> {
    [Save(id, text), Remove({id}), Save(id, text)]
  }

  /** It does not read back then: the second save finds the memory of the first, invalidated, under its key. */
  lemma SavedAgainHidden(redact: string -> string, id: string, text: string)
    ensures LastSaved(SavedAgain(id, text), id) == Some(text)
    ensures GetRecord(After(redact, SavedAgain(id, text)), id) == None
    ensures !ReadsBack(redact, SavedAgain(id, text), id)
  {
    var events, key := SavedAgain(id, text), MemoryKey(id, 0, redact(text));
    assert events[..2] == [Save(id, text), Remove({id})] && events[..2][..1] == [Save(id, text)];
    assert After(redact, [Save(id, text)]) == Update(redact, After(redact, []), id, text);
    assert After(redact, [Save(id, text)]) == State(map[id := Row(key, 0, text)], map[key := true]);
    assert After(redact, events[..2]) == State(map[], map[key := false]);
    assert events[..3] == events;
    assert !ReadsBackAt(redact, events, 3, id);
  }

  // ---- revision numbers ----

  predicate RemovedBetween(events: seq<Event>, j: nat, n: nat, id: string)
    requires n <= |events|
  {
    j < n && (Removes(events[n - 1], id) || RemovedBetween(events, j, n - 1, id))
  }

  lemma {:induction false} RemovedAt(events: seq<Event>, j: nat, n: nat, id: string) returns (k: nat)
    requires n <= |events| && RemovedBetween(events, j, n, id)
    ensures j <= k < n && Removes(events[k], id)
  {
    k := n - 1;
    if !Removes(events[k], id) {
      k := RemovedAt(events, j, n - 1, id);
    }
  }

  lemma {:induction false} RevStep(redact: string -> string, events: seq<Event>, n: nat, id: string)
    requires n < |events| && !Removes(events[n], id)
    ensures var s, t := After(redact, events[..n]), After(redact, events[..n + 1]);
      && NextRev(t, id) >= NextRev(s, id)
      && (events[n].Save? && events[n].id == id && !Unchanged(s, id, events[n].content) ==> NextRev(t, id) == NextRev(s, id) + 1)
  {
    assert events[..n + 1][..n] == events[..n];
  }

  // Without a removal the row stays, and its revision number does not fall.
  lemma {:induction false} RevGrows(redact: string -> string, events: seq<Event>, j: nat, n: nat, id: string)
    requires j < n <= |events| && events[j].Save? && events[j].id == id
    requires !Unchanged(After(redact, events[..j]), id, events[j].content)
    ensures RemovedBetween(events, j, n, id) || NextRev(After(redact, events[..n]), id) > NextRev(After(redact, events[..j]), id)
  {
    if !Removes(events[n - 1], id) {
      RevStep(redact, events, n - 1, id);
      if j < n - 1 {
        RevGrows(redact, events, j, n - 1, id);
      }
    }
  }

  /** Such an earlier save lies before a removal of the record ... */
  lemma {:induction false} RepeatsNeedRemoval(redact: string -> string, events: seq<Event>, n: nat, id: string)
    requires n < |events| && !FreshAt(redact, events, n, id)
    ensures exists j | 0 <= j < n && Makes(redact, events, j, NextKey(redact, After(redact, events[..n]), id, events[n].content)) ::
      events[j].id == id && RemovedBetween(events, j, n, id)
  {
    var key := NextKey(redact, After(redact, events[..n]), id, events[n].content);
    var j :| 0 <= j < n && Makes(redact, events[..n], j, key);
    assert events[..n][..j] == events[..j];
    assert Makes(redact, events, j, key);
    RevGrows(redact, events, j, n, id);
  }

  // Once selected for deletion, the record is not saved again.
  ghost predicate NotReused(events: seq<Event>, id: string) {
    forall i, j | 0 <= i < j < |events| && Removes(events[i], id) :: !(events[j].Save? && events[j].id == id)
  }

  lemma {:induction false} FreshOrReused(redact: string -> string, events: seq<Event>, n: nat, id: string)
    requires n < |events|
    ensures FreshAt(redact, events, n, id) || !NotReused(events, id)
  {
    if !FreshAt(redact, events, n, id) {
      RepeatsNeedRemoval(redact, events, n, id);
      var j :| 0 <= j < n && Makes(redact, events, j, NextKey(redact, After(redact, events[..n]), id, events[n].content))
        && events[j].id == id && RemovedBetween(events, j, n, id);
      var k := RemovedAt(events, j, n, id);
      assert !(Removes(events[k], id) ==> !(events[n].Save? && events[n].id == id));
    }
  }

  /** ... so a run that does not save an id again once it was selected for deletion always reads back. */
  lemma {:induction false} NotReusedReads(redact: string -> string, events: seq<Event>, id: string)
    requires NotReused(events, id)
    ensures ReadsBack(redact, events, id)
  {
    forall n | 0 <= n < |events| ensures FreshAt(redact, events, n, id) {
      FreshOrReused(redact, events, n, id);
    }
    ReadsBackIff(redact, events, id);
  }

  // ---- updates cut short ----

  /** An update cut short after any of its steps and tried again ends where one that ran through ends. */
  lemma RetryHeals(redact: string -> string, s: State, id: string, content: string, n: nat)
    requires Tidy(redact, s, id) && !Unchanged(s, id, content)
    ensures Update(redact, Steps(redact, s, id, content, n), id, content) == Update(redact, s, id, content)
  {
  }

  lemma UpdateTidy(redact: string -> string, s: State, id: string, content: string)
    requires Tidy(redact, s, id)
    ensures Tidy(redact, Update(redact, s, id, content), id)
  {
  }

  // The record's live memories after an update cut short and a second one.
  lemma CutShortLive(redact: string -> string, s: State, id: string, first: string, n: nat, second: string, m: MemoryKey)
    requires Tidy(redact, s, id) && !Unchanged(s, id, first) && 0 < n < 3 && m.id == id
    ensures var a, b := NextKey(redact, s, id, first), NextKey(redact, s, id, second);
      Live(Update(redact, Steps(redact, s, id, first, n), id, second), m) <==>
        || (m == a && a !in s.memories)
        || if Unchanged(s, id, second) then n == 1 && Live(s, m) else m == b && b !in s.memories
  {
  }

  // Two memories of the record are live at once.
  ghost predicate Orphans(s: State, id: string) {
    exists m: MemoryKey, o: MemoryKey | m.id == id && o.id == id && m != o :: Live(s, m) && Live(s, o)
  }

  lemma TidyAlone(redact: string -> string, s: State, id: string)
    requires Tidy(redact, s, id)
    ensures !Orphans(s, id)
  {
  }

  /** Tried again with any content, that of the row or of the first try included, after any number of steps:
      two memories are live exactly when the first try stored one but did not finish, and then either
      the row's content comes back while its memory still is live, or a text not stored before does. */
  lemma CutShortOrphans(redact: string -> string, s: State, id: string, first: string, n: nat, second: string)
    requires Tidy(redact, s, id) && !Unchanged(s, id, first)
    ensures var a, b := NextKey(redact, s, id, first), NextKey(redact, s, id, second);
      Orphans(Update(redact, Steps(redact, s, id, first, n), id, second), id) <==>
        && 0 < n < 3 && a !in s.memories
        && if Unchanged(s, id, second) then n == 1 && Visible(s, id) else b != a && b !in s.memories
  {
    var r := Update(redact, Steps(redact, s, id, first, n), id, second);
    if 0 < n < 3 {
      CutShortTwo(redact, s, id, first, n, second);
    } else {
      assert n >= 3 ==> Steps(redact, s, id, first, n) == Update(redact, s, id, first);
      UpdateTidy(redact, s, id, first);
      UpdateTidy(redact, if n == 0 then s else Update(redact, s, id, first), id, second);
      TidyAlone(redact, r, id);
    }
  }

  lemma CutShortTwo(redact: string -> string, s: State, id: string, first: string, n: nat, second: string)
    requires Tidy(redact, s, id) && !Unchanged(s, id, first) && 0 < n < 3
    ensures var a, b := NextKey(redact, s, id, first), NextKey(redact, s, id, second);
      Orphans(Update(redact, Steps(redact, s, id, first, n), id, second), id) <==>
        && a !in s.memories
        && if Unchanged(s, id, second) then n == 1 && Visible(s, id) else b != a && b !in s.memories
  {
    var r := Update(redact, Steps(redact, s, id, first, n), id, second);
    var a, b := NextKey(redact, s, id, first), NextKey(redact, s, id, second);
    CutShortLive(redact, s, id, first, n, second, a);
    CutShortLive(redact, s, id, first, n, second, b);
    if id in s.rows {
      CutShortLive(redact, s, id, first, n, second, s.rows[id].memory);
    }
    if Orphans(r, id) {
      var m: MemoryKey, o: MemoryKey :| m.id == id && o.id == id && m != o && Live(r, m) && Live(r, o);
      CutShortLive(redact, s, id, first, n, second, m);
      CutShortLive(redact, s, id, first, n, second, o);
    }
  }

  /** And the second content reads back exactly when the row's own comes back before its memory was retired,
      or a text that was not stored before does. */
  lemma CutShortReads(redact: string -> string, s: State, id: string, first: string, n: nat, second: string)
    requires Tidy(redact, s, id) && !Unchanged(s, id, first) && n < 3
    ensures GetRecord(Update(redact, Steps(redact, s, id, first, n), id, second), id) == Some(redact(second)) <==>
      if Unchanged(s, id, second) then n < 2 && Visible(s, id) else NextKey(redact, s, id, second) !in s.memories
  {
  }

  // One record, saved once.
  function SavedOnce(redact: string -> string, id: string, text: string): State {
    var key := MemoryKey(id, 0, redact(text));
    State(map[id := Row(key, 0, text)], map[key := true])
  }

  /** So it happens to a record saved once: after a first try cut short, other content leaves two live memories,
      and its own content, once its memory was retired, leaves it without one that reads back. */
  lemma CutShortFails(redact: string -> string, id: string, text: string, first: string, second: string)
    requires first != text && second != text && redact(first) != redact(second)
    ensures SavedOnce(redact, id, text) == After(redact, [Save(id, text)])
    ensures var s := SavedOnce(redact, id, text);
      && Orphans(Update(redact, Steps(redact, s, id, first, 1), id, second), id)
      && GetRecord(Update(redact, Steps(redact, s, id, first, 2), id, text), id) == None
  {
    var s := SavedOnce(redact, id, text);
    assert [Save(id, text)][..0] == [] && After(redact, []) == EMPTY;
    CutShortOrphans(redact, s, id, first, 1, second);
    assert Steps(redact, s, id, first, 2).memories[s.rows[id].memory] == false;
  }

  // ---- the backend as an object ----

  lemma DeletedIs(s: State, selected: set<string>, found: set<string>, t: State)
    requires found == set id | id in s.rows && id in selected && Visible(s, id)
    requires t.rows == s.rows - found && t.memories.Keys == s.memories.Keys
    requires forall m | m in t.memories :: t.memories[m] == (s.memories[m] && !(m.id in found && s.rows[m.id].memory == m))
    ensures t == Delete(s, selected)
  {
    var d := Delete(s, selected);
    assert t.rows == d.rows;
    assert t.memories == d.memories;
  }

  class Backend {
    var rows: map<string, Row>
    var memories: map<MemoryKey, bool>

    function Contents(): State
      reads this
    {
      State(rows, memories)
    }

    constructor ()
      ensures Contents() == EMPTY
    {
      rows, memories := map[], map[];
    }

    method Forget(m: MemoryKey)
      modifies this`memories
      ensures Contents() == Retired(old(Contents()), m)
    {
      if m in memories && memories[m] {
        memories := memories[m := false];
      }
    }

    /** Insert or replace by id. */
    method UpdateRecord(redact: string -> string, id: string, content: string)
      modifies this
      ensures Contents() == Update(redact, old(Contents()), id, content)
    {
      if id in rows && rows[id].content == content {
        return;
      }
      var rev := 0;
      if id in rows {
        rev := rows[id].rev + 1;
      }
      var key := MemoryKey(id, rev, redact(content));
      if key !in memories {
        memories := memories[key := true];
      }
      if id in rows {
        Forget(rows[id].memory);
      }
      rows := rows[id := Row(key, rev, content)];
    }

    /** Soft-deletes the memories of the selected visible records, then drops their rows. */
    method DeleteRecords(selected: set<string>) returns (count: nat)
      requires Own(Contents())
      modifies this
      ensures Contents() == Delete(old(Contents()), selected)
      ensures count == |set id | id in old(rows) && id in selected && Visible(old(Contents()), id)|
    {
      ghost var before := Contents();
      var found := set id | id in rows && id in selected && rows[id].memory in memories && memories[rows[id].memory];
      assert found == set id | id in rows && id in selected && Visible(before, id);
      count := |found|;
      var rest := found;
      while rest != {}
        invariant rest <= found && rows == before.rows && memories.Keys == before.memories.Keys
        invariant forall m | m in memories ::
          memories[m] == (before.memories[m] && !(m.id in found - rest && before.rows[m.id].memory == m))
        decreases rest
      {
        var id :| id in rest;
        Forget(rows[id].memory);
        rest := rest - {id};
      }
      rows := rows - found;
      DeletedIs(before, selected, found, Contents());
    }
  }
}
