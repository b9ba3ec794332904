/** Retrieval's use of the supersession links: each stale hit gets the statement that is current now
    ranked above it, pulled in when the search missed it, without growing the selection past `k`. */
module RankRepair {
  import opened Common
  import opened Scores
  import opened Sorting

  const HOPS: nat := 5
  const STEP: real := 0.000001

  // Content times and validity ends are `None` when they cannot be read.
  datatype Candidate = Candidate(key: int, time: Option<int>, supersededBy: Option<int>, validTo: Option<int>, score: real)

  // A stored memory; `readable` within the caller's tenant and agents, and not invalidated.
  datatype Row = Row(time: Option<int>, supersededBy: Option<int>, validTo: Option<int>, readable: bool)

  // What a call sees: the collection, the selected candidates by key with their links read live, and
  // the time view.
  datatype View = View(rows: map<int, Row>, chosen: map<int, Candidate>, asOf: Option<int>)

  predicate InView(asOf: Option<int>, t: Option<int>) {
    asOf.None? || (t.Some? && t.value <= asOf.value)
  }

  function Fetched(key: int, row: Row): Candidate {
    Candidate(key, row.time, row.supersededBy, row.validTo, 0.0)
  }

  // The memory under a key: the selected candidate, else the stored one if the caller may read it.
  function Lookup(v: View, key: int): Option<Candidate> {
    if key in v.chosen then Some(v.chosen[key])
    else if key in v.rows && v.rows[key].readable then Some(Fetched(key, v.rows[key]))
    else None
  }

  predicate Visible(v: View, key: int) {
    Lookup(v, key).Some? && InView(v.asOf, Lookup(v, key).value.time)
  }

  // One link on, when it is within the view and leads to a visible memory.
  function Successor(v: View, key: int): Option<int> {
    match Lookup(v, key)
    case None => None
    case Some(c) =>
      if c.supersededBy.Some? && InView(v.asOf, c.validTo) && Visible(v, c.supersededBy.value) then c.supersededBy
      else None
  }

  function Chase(v: View, key: int, hops: nat): int
    decreases hops
  {
    if hops == 0 || Successor(v, key).None? then key else Chase(v, Successor(v, key).value, hops - 1)
  }

  // Where the chain from `key` leads within the hop limit; nothing when `key` is not stale.
  function CurrentOf(v: View, key: int): Option<int> {
    if Successor(v, key).None? then None else Some(Chase(v, key, HOPS))
  }

  // ---- the repair ----

  // Keys in the order they entered, scores, and which selected ones were found stale.
  datatype Repair = Repair(order: seq<int>, scores: map<int, real>, stale: set<int>)

  function Max(a: real, b: real): real {
    if a >= b then a else b
  }

  function Turn(v: View, s: Repair, key: int): Repair {
    match CurrentOf(v, key)
    case None => s
    case Some(c) =>
      Repair(if c in s.scores then s.order else s.order + [c],
             s.scores[c := Max(ScoreOf(s.scores, c), ScoreOf(s.scores, key) + STEP)],
             s.stale + {key})
  }

  function Turns(v: View, s: Repair, keys: seq<int>): Repair {
    if keys == [] then s else Turn(v, Turns(v, s, keys[..|keys| - 1]), keys[|keys| - 1])
  }

  function KeysOf(selected: seq<Candidate>): (ks: seq<int>)
    ensures |ks| == |selected|
  {
    if selected == [] then [] else KeysOf(selected[..|selected| - 1]) + [selected[|selected| - 1].key]
  }

  function ScoresOf(selected: seq<Candidate>): map<int, real> {
    if selected == [] then map[]
    else ScoresOf(selected[..|selected| - 1])[selected[|selected| - 1].key := selected[|selected| - 1].score]
  }

  // The candidates by key, their links as the collection holds them now.
  function Chosen(rows: map<int, Row>, selected: seq<Candidate>): map<int, Candidate> {
    if selected == [] then map[]
    else
      var c := selected[|selected| - 1];
      var live := if c.key in rows then c.(supersededBy := rows[c.key].supersededBy, validTo := rows[c.key].validTo) else c;
      Chosen(rows, selected[..|selected| - 1])[c.key := live]
  }

  function Repaired(v: View, selected: seq<Candidate>): Repair {
    Turns(v, Repair(KeysOf(selected), ScoresOf(selected), {}), KeysOf(selected))
  }

  // ---- back to `k` ----

  function LastOutside(s: seq<int>, kept: set<int>): (r: Option<nat>)
    ensures r.Some? ==> r.value < |s| && s[r.value] !in kept && forall i | r.value < i < |s| :: s[i] in kept
    ensures r.None? ==> forall i | 0 <= i < |s| :: s[i] in kept
  {
    if s == [] then None
    else if s[|s| - 1] !in kept then Some(|s| - 1)
    else LastOutside(s[..|s| - 1], kept)
  }

  function Trim(s: seq<int>, pulled: set<int>, k: nat): seq<int> {
    if |s| <= k then s
    else
      match LastOutside(s, pulled)
      case None => s
      case Some(i) => Trim(s[..i] + s[i + 1..], pulled, k)
  }

  // The keys that entered after the first `n`.
  function Pulled(r: Repair, n: nat): set<int> {
    if n <= |r.order| then Elems(r.order[n..]) else {}
  }

  function RankedKeys(v: View, selected: seq<Candidate>, k: nat): seq<int> {
    var r := Repaired(v, selected);
    Trim(SortBy(HigherFirst(r.scores), r.order), Pulled(r, |selected|), k)
  }
}
