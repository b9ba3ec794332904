/** Linking memories to the newer memories that update them: one pass over the unchecked ones. */
module SupersessionModel {
  import opened Common
  import opened Sorting

  // `""` stands for a missing time; `embedded` for having an embedding.
  datatype Memory = Memory(
    agent: int,
    working: bool,
    invalid: bool,
    embedded: bool,
    eventTime: string,
    createdAt: string,
    checked: bool,
    supersededBy: Option<int>,
    validTo: Option<string>)

  type Store = map<int, Memory>

  datatype Gate = EntityGate | SimilarityGate | AnchoredGate

  // A model's reply: no well-formed answer line, or the numbers on it.
  datatype Reply = Unparsed | Answer(numbers: seq<int>)

  // `near` is what the engine returns around a memory before the filters that depend on the state,
  // nearest first; `anchored` whether two memories share an entity or a number; `reply` what the
  // model says about a memory and the older ones it is shown.
  datatype Config = Config(
    parse: string -> Option<nat>,
    gate: Gate,
    near: int -> seq<int>,
    anchored: (int, int) -> bool,
    fetch: nat,
    limit: nat,
    reply: (int, seq<int>) -> Reply)

  // ---- content time ----

  function TimeKey(cfg: Config, text: string): Option<nat> {
    if text == "" then None else cfg.parse(text)
  }

  // The event time when it can be read, else the write time, else the least time there is.
  function When(cfg: Config, m: Memory): nat {
    TimeKey(cfg, m.eventTime).GetOr(TimeKey(cfg, m.createdAt).GetOr(0))
  }

  function Stamp(m: Memory): string {
    if m.eventTime != "" then m.eventTime else m.createdAt
  }

  // ---- candidates ----

  predicate Live(m: Memory) {
    !m.invalid && !m.working
  }

  predicate Eligible(cfg: Config, s: Store, r: int, o: int)
    requires r in s
  {
    && o in s && o != r && s[o].agent == s[r].agent && Live(s[o])
    && s[o].supersededBy.None?
    && (cfg.gate.EntityGate? || s[o].checked)
  }

  predicate Earlier(cfg: Config, s: Store, r: int, o: int)
    requires r in s && o in s
  {
    When(cfg, s[o]) < When(cfg, s[r]) && (cfg.gate.AnchoredGate? ==> cfg.anchored(r, o))
  }

  function EligibleOf(cfg: Config, s: Store, r: int, os: seq<int>): (f: seq<int>)
    requires r in s
    ensures forall i | 0 <= i < |f| :: f[i] in os && Eligible(cfg, s, r, f[i])
    ensures |f| <= |os| && (NoDup(os) ==> NoDup(f))
  {
    if os == [] then []
    else
      var before, o := EligibleOf(cfg, s, r, os[..|os| - 1]), os[|os| - 1];
      if Eligible(cfg, s, r, o) then
        SnocElems(before, o);
        before + [o]
      else before
  }

  function EarlierOf(cfg: Config, s: Store, r: int, os: seq<int>): (f: seq<int>)
    requires r in s && forall i | 0 <= i < |os| :: os[i] in s
    ensures forall i | 0 <= i < |f| :: f[i] in os && Earlier(cfg, s, r, f[i])
    ensures |f| <= |os| && (NoDup(os) ==> NoDup(f))
  {
    if os == [] then []
    else
      var before, o := EarlierOf(cfg, s, r, os[..|os| - 1]), os[|os| - 1];
      if Earlier(cfg, s, r, o) then
        SnocElems(before, o);
        before + [o]
      else before
  }

  function Take<T>(s: seq<T>, n: nat): seq<T> {
    if |s| <= n then s else s[..n]
  }

  function Found(cfg: Config, s: Store, r: int): (f: seq<int>)
    requires r in s
    ensures forall i | 0 <= i < |f| :: f[i] in cfg.near(r) && Eligible(cfg, s, r, f[i])
  {
    Take(EligibleOf(cfg, s, r, cfg.near(r)), cfg.fetch)
  }

  // The older statements the model is shown for `r`.
  function Older(cfg: Config, s: Store, r: int): (f: seq<int>)
    requires r in s
    ensures forall i | 0 <= i < |f| :: f[i] in cfg.near(r) && Eligible(cfg, s, r, f[i]) && Earlier(cfg, s, r, f[i])
  {
    if s[r].embedded then Take(EarlierOf(cfg, s, r, Found(cfg, s, r)), cfg.limit) else []
  }

  predicate Within(picked: seq<int>, n: nat) {
    forall i | 0 <= i < |picked| :: 1 <= picked[i] <= n
  }

  // The answered numbers between 1 and `n`, ascending, each once.
  function InRange(numbers: seq<int>, n: nat): (p: seq<int>)
    ensures forall i | 0 <= i < |p| :: p[i] in numbers
    ensures forall x | 1 <= x <= n && x in numbers :: x in p
    ensures Within(p, n) && NoDup(p) && forall i, j | 0 <= i < j < |p| :: p[i] < p[j]
  {
    if n == 0 then []
    else
      var before := InRange(numbers, n - 1);
      if n in numbers then
        NoDupSnoc(before, n);
        before + [n]
      else before
  }

  function Picked(reply: Reply, n: nat): (p: seq<int>)
    ensures Within(p, n) && NoDup(p)
  {
    match reply
    case Unparsed => []
    case Answer(numbers) => InRange(numbers, n)
  }

  function AskedFor(cfg: Config, s: Store, r: int): (p: seq<int>)
    requires r in s
    ensures Within(p, |Older(cfg, s, r)|) && NoDup(p)
  {
    var older := Older(cfg, s, r);
    if older == [] then [] else Picked(cfg.reply(r, older), |older|)
  }

  // ---- one row ----

  predicate AllIn(os: seq<int>, s: Store) {
    forall i | 0 <= i < |os| :: os[i] in s
  }

  // The picked ones of `older` linked to `r`.
  function LinkAll(s: Store, older: seq<int>, picked: seq<int>, r: int): (t: Store)
    requires Within(picked, |older|) && AllIn(older, s) && r in s
    ensures t.Keys == s.Keys
  {
    if picked == [] then s
    else
      var before, o := LinkAll(s, older, picked[..|picked| - 1], r), older[picked[|picked| - 1] - 1];
      before[o := before[o].(supersededBy := Some(r), validTo := Some(Stamp(before[r])))]
  }

  function Stamped(s: Store, r: int): Store
    requires r in s
  {
    s[r := s[r].(checked := true)]
  }

  function ProcessRow(cfg: Config, s: Store, r: int): (t: Store)
    requires r in s
    ensures t.Keys == s.Keys
  {
    Stamped(LinkAll(s, Older(cfg, s, r), AskedFor(cfg, s, r), r), r)
  }

  // ---- one pass ----

  predicate Unchecked(s: Store, k: int) {
    k in s && Live(s[k]) && !s[k].checked
  }

  function UncheckedOf(s: Store, scan: seq<int>): (f: seq<int>)
    ensures forall i | 0 <= i < |f| :: f[i] in scan && Unchecked(s, f[i])
    ensures NoDup(scan) ==> NoDup(f)
  {
    if scan == [] then []
    else
      var before, k := UncheckedOf(s, scan[..|scan| - 1]), scan[|scan| - 1];
      if Unchecked(s, k) then
        SnocElems(before, k);
        before + [k]
      else before
  }

  function WhenAt(cfg: Config, s: Store, k: int): nat {
    if k in s then When(cfg, s[k]) else 0
  }

  function NotLater(cfg: Config, s: Store): (int, int) -> bool {
    (a, b) => WhenAt(cfg, s, a) <= WhenAt(cfg, s, b)
  }

  // The unchecked memories, oldest first, those of one time as the engine returned them.
  function RowsOf(cfg: Config, s: Store, scan: seq<int>): seq<int> {
    SortBy(NotLater(cfg, s), UncheckedOf(s, scan))
  }

  function PassOver(cfg: Config, s: Store, rows: seq<int>): (t: Store)
    requires AllIn(rows, s)
    ensures t.Keys == s.Keys
  {
    if rows == [] then s else ProcessRow(cfg, PassOver(cfg, s, rows[..|rows| - 1]), rows[|rows| - 1])
  }

  lemma RowsIn(cfg: Config, s: Store, scan: seq<int>)
    ensures AllIn(RowsOf(cfg, s, scan), s)
    ensures Elems(RowsOf(cfg, s, scan)) == Elems(UncheckedOf(s, scan))
  {
    SortElems(NotLater(cfg, s), UncheckedOf(s, scan));
    forall i | 0 <= i < |RowsOf(cfg, s, scan)| ensures RowsOf(cfg, s, scan)[i] in s {
      assert RowsOf(cfg, s, scan)[i] in Elems(RowsOf(cfg, s, scan));
    }
  }

  function RunPass(cfg: Config, s: Store, scan: seq<int>): (t: Store)
    ensures t.Keys == s.Keys
  {
    RowsIn(cfg, s, scan);
    PassOver(cfg, s, RowsOf(cfg, s, scan))
  }

  // ---- the tallies of a pass ----

  datatype Tally = Tally(checked: nat, compared: nat, superseded: nat, unparsed: nat)

  const ZERO := Tally(0, 0, 0, 0)

  function TallyRow(cfg: Config, s: Store, r: int, before: Tally): Tally
    requires r in s
  {
    var older := Older(cfg, s, r);
    Tally(before.checked + 1,
          before.compared + (if older == [] then 0 else 1),
          before.superseded + |AskedFor(cfg, s, r)|,
          before.unparsed + (if older != [] && cfg.reply(r, older).Unparsed? then 1 else 0))
  }

  function TallyOver(cfg: Config, s: Store, rows: seq<int>): Tally
    requires AllIn(rows, s)
  {
    if rows == [] then ZERO
    else
      var p := rows[..|rows| - 1];
      TallyRow(cfg, PassOver(cfg, s, p), rows[|rows| - 1], TallyOver(cfg, s, p))
  }
}
