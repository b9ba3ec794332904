/** Which memories a supersession pass works on and what a link between two of them says, read off their fields. */
module SupersessionFields {
  import opened Common
  import opened Sorting
  import opened SupersessionModel
  import opened SupersessionLaws

  // The content time of a memory: what its event time reads as, or else its write time, or else the least.
  predicate TimedAt(cfg: Config, m: Memory, t: nat) {
    if m.eventTime != "" && cfg.parse(m.eventTime).Some? then cfg.parse(m.eventTime) == Some(t)
    else if m.createdAt != "" && cfg.parse(m.createdAt).Some? then cfg.parse(m.createdAt) == Some(t)
    else t == 0
  }

  lemma WhenTimed(cfg: Config, m: Memory, t: nat)
    ensures TimedAt(cfg, m, t) <==> t == When(cfg, m)
  {
  }

  // `was` may be linked to `now`: one agent, the old one valid, not working, unlinked and earlier.
  ghost predicate Linkable(cfg: Config, was: Memory, now: Memory) {
    && was.agent == now.agent && !was.invalid && !was.working && was.supersededBy.None?
    && (cfg.gate.EntityGate? || was.checked)
    && forall a: nat, b: nat :: TimedAt(cfg, was, a) && TimedAt(cfg, now, b) ==> a < b
  }

  /** What a row newly links is near it, another memory of its agent, valid, not working, strictly earlier by content
      time, not linked before, checked unless candidates come by entity, and anchored where anchors are
      asked for; it gets the row's key and the row's own time text. */
  lemma LinkFields(cfg: Config, s: Store, r: int, k: int)
    requires r in s && k in s && ProcessRow(cfg, s, r)[k].supersededBy != s[k].supersededBy
    ensures var t := ProcessRow(cfg, s, r);
      && s[r].embedded && k in cfg.near(r) && k != r
      && Linkable(cfg, s[k], s[r]) && (cfg.gate.AnchoredGate? ==> cfg.anchored(r, k))
      && t[k].supersededBy == Some(r)
      && t[k].validTo == Some(if s[r].eventTime != "" then s[r].eventTime else s[r].createdAt)
  {
    RowFacts(cfg, s, r, k);
    TakenIsOlder(cfg, s, r, k);
    TakesAnswered(cfg, s, r, k);
    forall a: nat, b: nat | TimedAt(cfg, s[k], a) && TimedAt(cfg, s[r], b) ensures a < b {
      WhenTimed(cfg, s[k], a);
      WhenTimed(cfg, s[r], b);
    }
  }

  /** The rows of a pass are the scanned memories that are valid, not working and not checked before, in the order
      of their content times. */
  lemma RowsExactly(cfg: Config, s: Store, scan: seq<int>, k: int)
    ensures k in RowsOf(cfg, s, scan) <==> k in scan && k in s && !s[k].invalid && !s[k].working && !s[k].checked
  {
    RowsIn(cfg, s, scan);
    assert k in Elems(RowsOf(cfg, s, scan)) <==> k in Elems(UncheckedOf(s, scan));
    if k in scan && Unchecked(s, k) {
      UncheckedListed(s, scan, k);
    }
  }

  lemma RowsInTime(cfg: Config, s: Store, scan: seq<int>, i: nat, j: nat, a: nat, b: nat)
    requires i < j < |RowsOf(cfg, s, scan)|
    requires var rows := RowsOf(cfg, s, scan);
      rows[i] in s && rows[j] in s && TimedAt(cfg, s[rows[i]], a) && TimedAt(cfg, s[rows[j]], b)
    ensures a <= b
  {
    RowsByTime(cfg, s, scan, i, j);
    WhenTimed(cfg, s[RowsOf(cfg, s, scan)[i]], a);
    WhenTimed(cfg, s[RowsOf(cfg, s, scan)[j]], b);
  }

  // ---- the caps ----

  // What the engine returned around `r` that passes the filters, in its order.
  lemma {:induction false} FilteredInOrder(cfg: Config, s: Store, r: int, os: seq<int>, a: int, b: int)
    requires r in s && Before(EligibleOf(cfg, s, r, os), a, b)
    ensures Before(os, a, b)
  {
    var p, last, f := os[..|os| - 1], os[|os| - 1], EligibleOf(cfg, s, r, os);
    var i, j :| 0 <= i < j < |f| && f[i] == a && f[j] == b;
    var before := EligibleOf(cfg, s, r, p);
    if j < |before| {
      assert before[i] == a && before[j] == b;
      FilteredInOrder(cfg, s, r, p, a, b);
      assert os == p + [last];
      BeforeSnoc(p, last, a, b);
    } else {
      assert before[i] == a;
      var x :| 0 <= x < |p| && p[x] == a;
      assert os[x] == a && os[|os| - 1] == b;
    }
  }

  /** At most `limit` statements are shown, out of at most `fetch` that came back. */
  lemma CapsHold(cfg: Config, s: Store, r: int)
    requires r in s
    ensures |Older(cfg, s, r)| <= cfg.limit && |Found(cfg, s, r)| <= cfg.fetch
  {
  }

  // ---- the counts ----

  predicate ShownSome(cfg: Config, s: Store, rows: seq<int>, i: nat)
    requires i < |rows| && AllIn(rows, s)
  {
    AllIn(rows[..i], s) && Older(cfg, PassOver(cfg, s, rows[..i]), rows[i]) != []
  }

  predicate Garbled(cfg: Config, s: Store, rows: seq<int>, i: nat)
    requires i < |rows| && AllIn(rows, s)
  {
    ShownSome(cfg, s, rows, i) && cfg.reply(rows[i], Older(cfg, PassOver(cfg, s, rows[..i]), rows[i])) == Unparsed
  }

  function CountShown(cfg: Config, s: Store, rows: seq<int>, n: nat): nat
    requires n <= |rows| && AllIn(rows, s)
  {
    if n == 0 then 0 else CountShown(cfg, s, rows, n - 1) + if ShownSome(cfg, s, rows, n - 1) then 1 else 0
  }

  function CountGarbled(cfg: Config, s: Store, rows: seq<int>, n: nat): nat
    requires n <= |rows| && AllIn(rows, s)
  {
    if n == 0 then 0 else CountGarbled(cfg, s, rows, n - 1) + if Garbled(cfg, s, rows, n - 1) then 1 else 0
  }

  lemma {:induction false} TallyStep(cfg: Config, s: Store, rows: seq<int>, n: nat)
    requires n < |rows| && AllIn(rows, s) && AllIn(rows[..n], s) && AllIn(rows[..n + 1], s)
    ensures var a, b := TallyOver(cfg, s, rows[..n]), TallyOver(cfg, s, rows[..n + 1]);
      && b.compared == a.compared + (if ShownSome(cfg, s, rows, n) then 1 else 0)
      && b.unparsed == a.unparsed + (if Garbled(cfg, s, rows, n) then 1 else 0)
  {
    assert rows[..n + 1][..n] == rows[..n];
  }

  lemma AllInPrefix(rows: seq<int>, s: Store, n: nat)
    requires n <= |rows| && AllIn(rows, s)
    ensures AllIn(rows[..n], s)
  {
  }

  lemma {:induction false} TallyPrefix(cfg: Config, s: Store, rows: seq<int>, n: nat)
    requires n <= |rows| && AllIn(rows, s)
    ensures AllIn(rows[..n], s)
    ensures TallyOver(cfg, s, rows[..n]).compared == CountShown(cfg, s, rows, n)
    ensures TallyOver(cfg, s, rows[..n]).unparsed == CountGarbled(cfg, s, rows, n)
  {
    AllInPrefix(rows, s, n);
    if n > 0 {
      TallyPrefix(cfg, s, rows, n - 1);
      TallyStep(cfg, s, rows, n - 1);
    }
  }

  /** The pass counts every row it stamped, the rows that were shown something, and those of them whose reply had no
      answer line. */
  lemma TallyExactly(cfg: Config, s: Store, rows: seq<int>)
    requires AllIn(rows, s) && forall r :: NoDup(cfg.near(r))
    ensures var tally := TallyOver(cfg, s, rows);
      tally.checked == |rows| && tally.compared == CountShown(cfg, s, rows, |rows|) && tally.unparsed == CountGarbled(cfg, s, rows, |rows|)
  {
    TallyCounts(cfg, s, rows);
    TallyPrefix(cfg, s, rows, |rows|);
    assert rows[..|rows|] == rows;
  }
}
