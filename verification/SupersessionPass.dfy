/** The supersession pass as a loop over a collection of memories, proved against `SupersessionModel`. */
module SupersessionPass {
  import opened Common
  import opened SupersessionModel

  class Memories {
    var docs: Store

    constructor (docs: Store)
      ensures this.docs == docs
    {
      this.docs := docs;
    }

    // The older statements among what the query returned, at most `limit` of them.
    method OlderThan(cfg: Config, r: int) returns (older: seq<int>)
      requires r in docs
      ensures older == Older(cfg, docs, r)
    {
      older := [];
      if !docs[r].embedded {
        return;
      }
      var found := Found(cfg, docs, r);
      var mine := When(cfg, docs[r]);
      var i := 0;
      while i < |found|
        invariant 0 <= i <= |found|
        invariant older == EarlierOf(cfg, docs, r, found[..i])
      {
        var o := found[i];
        assert found[..i + 1][..i] == found[..i];
        if When(cfg, docs[o]) < mine && (!cfg.gate.AnchoredGate? || cfg.anchored(r, o)) {
          older := older + [o];
        }
        i := i + 1;
      }
      assert found[..i] == found;
      older := Take(older, cfg.limit);
    }

    method Link(older: seq<int>, picked: seq<int>, r: int)
      requires Within(picked, |older|) && AllIn(older, docs) && r in docs
      modifies this
      ensures docs == LinkAll(old(docs), older, picked, r)
    {
      var i := 0;
      while i < |picked|
        invariant 0 <= i <= |picked|
        invariant Within(picked[..i], |older|)
        invariant docs == LinkAll(old(docs), older, picked[..i], r)
      {
        var o := older[picked[i] - 1];
        assert picked[..i + 1][..i] == picked[..i];
        docs := docs[o := docs[o].(supersededBy := Some(r), validTo := Some(Stamp(docs[r])))];
        i := i + 1;
      }
      assert picked[..i] == picked;
    }

    method ProcessOne(cfg: Config, r: int, before: Tally) returns (result: Tally)
      requires r in docs
      modifies this
      ensures docs == ProcessRow(cfg, old(docs), r)
      ensures result == TallyRow(cfg, old(docs), r, before)
    {
      result := before;
      var older := OlderThan(cfg, r);
      if older != [] {
        var reply := cfg.reply(r, older);
        result := result.(compared := result.compared + 1);
        var picked := Picked(reply, |older|);
        if reply.Unparsed? {
          result := result.(unparsed := result.unparsed + 1);
        }
        Link(older, picked, r);
        result := result.(superseded := result.superseded + |picked|);
      }
      docs := docs[r := docs[r].(checked := true)];
      result := result.(checked := result.checked + 1);
    }

    method PassRows(cfg: Config, rows: seq<int>) returns (result: Tally)
      requires AllIn(rows, docs)
      modifies this
      ensures docs == PassOver(cfg, old(docs), rows)
      ensures result == TallyOver(cfg, old(docs), rows)
    {
      result := ZERO;
      var i := 0;
      while i < |rows|
        invariant 0 <= i <= |rows|
        invariant docs == PassOver(cfg, old(docs), rows[..i])
        invariant result == TallyOver(cfg, old(docs), rows[..i])
      {
        assert rows[..i + 1][..i] == rows[..i];
        result := ProcessOne(cfg, rows[i], result);
        i := i + 1;
      }
      assert rows[..i] == rows;
    }

    /** Links each unchecked memory, oldest first, to the older ones the model says it updates. */
    method RunSupersession(cfg: Config, scan: seq<int>) returns (result: Tally)
      modifies this
      ensures docs == RunPass(cfg, old(docs), scan)
      ensures AllIn(RowsOf(cfg, old(docs), scan), old(docs))
      ensures result == TallyOver(cfg, old(docs), RowsOf(cfg, old(docs), scan))
    {
      RowsIn(cfg, docs, scan);
      result := PassRows(cfg, RowsOf(cfg, docs, scan));
    }
  }
}
