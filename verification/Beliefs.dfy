/** The currently-true view of the graph, key by key: for each (subject, predicate, object) the open rows with their
    provenance, oldest first and without their ids. The lemmas say what each write does to this view. */
module Beliefs {
  import opened Common
  import opened Confidence
  import opened TripleStore

  datatype Belief = Belief(row: Row, entries: seq<Entry>)

  function BeliefsUpTo(rows: seq<Row>, sources: seq<Source>, key: Key, n: nat): seq<Belief>
    requires n <= |rows|
  {
    if n == 0 then []
    else
      BeliefsUpTo(rows, sources, key, n - 1) +
      if rows[n - 1].OpenAt(key) then [Belief(rows[n - 1], Entries(sources, n - 1))] else []
  }

  function BeliefsAt(g: Graph, key: Key): seq<Belief> {
    BeliefsUpTo(g.rows, g.sources, key, |g.rows|)
  }

  /** Some belief of the list already records `file`. */
  predicate Recorded(beliefs: seq<Belief>, file: Option<string>) {
    exists b :: 0 <= b < |beliefs| && InEntries(beliefs[b].entries, file)
  }

  predicate InEntries(entries: seq<Entry>, file: Option<string>) {
    exists e :: 0 <= e < |entries| && entries[e].file == file
  }

  /** The list after its newest member took in one more piece of evidence. */
  function Reinforced(beliefs: seq<Belief>, incoming: real, closet: Option<string>, file: Option<string>): seq<Belief>
    requires beliefs != []
  {
    var last := |beliefs| - 1;
    var row := beliefs[last].row;
    var c := Corroborated(row.confidence, incoming);
    beliefs[last := Belief(row.(confidence := c, count := row.count + 1),
                           beliefs[last].entries + [Entry(closet, file, c)])]
  }

  /** Every provenance row belongs to some triple. */
  ghost predicate WellFounded(g: Graph) {
    forall j :: 0 <= j < |g.sources| ==> g.sources[j].tripleId < |g.rows|
  }

  // ----- Provenance of one row -----

  lemma EntriesSnoc(sources: seq<Source>, s: Source, id: nat)
    ensures Entries(sources + [s], id) == Entries(sources, id) + if s.tripleId == id then [s.entry] else []
  {
    assert (sources + [s])[..|sources|] == sources;
  }

  lemma {:induction false} EntriesOfStranger(sources: seq<Source>, id: nat)
    requires forall j :: 0 <= j < |sources| ==> sources[j].tripleId != id
    ensures Entries(sources, id) == []
  {
    if sources != [] {
      EntriesOfStranger(sources[..|sources| - 1], id);
    }
  }

  lemma {:induction false} EntriesMembers(sources: seq<Source>, id: nat, file: Option<string>)
    ensures InEntries(Entries(sources, id), file) <==>
            exists j :: 0 <= j < |sources| && sources[j].tripleId == id && sources[j].entry.file == file
  {
    if sources != [] {
      var n := |sources| - 1;
      EntriesMembers(sources[..n], id, file);
      var front, all := Entries(sources[..n], id), Entries(sources, id);
      if InEntries(front, file) {
        var e :| 0 <= e < |front| && front[e].file == file;
        assert all[e].file == file;
      }
      if sources[n].tripleId == id && sources[n].entry.file == file {
        assert all[|front|].file == file;
      }
      if exists j :: 0 <= j < |sources| && sources[j].tripleId == id && sources[j].entry.file == file {
        var j :| 0 <= j < |sources| && sources[j].tripleId == id && sources[j].entry.file == file;
        if j < n {
          assert sources[..n][j].tripleId == id && sources[..n][j].entry.file == file;
        }
      }
    }
  }

  // ----- Which rows a belief list shows -----

  lemma {:induction false} BeliefsFrame(rows: seq<Row>, sources: seq<Source>, rows': seq<Row>, sources': seq<Source>,
                                        key: Key, n: nat)
    requires n <= |rows| && n <= |rows'|
    requires forall i :: 0 <= i < n ==> (rows[i].OpenAt(key) <==> rows'[i].OpenAt(key))
    requires forall i :: 0 <= i < n && rows[i].OpenAt(key) ==>
             rows[i] == rows'[i] && Entries(sources, i) == Entries(sources', i)
    ensures BeliefsUpTo(rows, sources, key, n) == BeliefsUpTo(rows', sources', key, n)
  {
    if n > 0 {
      BeliefsFrame(rows, sources, rows', sources', key, n - 1);
    }
  }

  lemma {:induction false} NoBeliefs(rows: seq<Row>, sources: seq<Source>, key: Key, n: nat)
    requires n <= |rows|
    ensures BeliefsUpTo(rows, sources, key, n) == [] <==> forall i :: 0 <= i < n ==> !rows[i].OpenAt(key)
  {
    if n > 0 {
      NoBeliefs(rows, sources, key, n - 1);
    }
  }

  /** Rows past the newest open one add nothing. */
  lemma {:induction false} BeliefsStop(rows: seq<Row>, sources: seq<Source>, key: Key, m: nat, n: nat)
    requires m <= n <= |rows|
    requires forall i :: m <= i < n ==> !rows[i].OpenAt(key)
    ensures BeliefsUpTo(rows, sources, key, n) == BeliefsUpTo(rows, sources, key, m)
  {
    if m < n {
      BeliefsStop(rows, sources, key, m, n - 1);
    }
  }

  lemma NewestIsLast(g: Graph, key: Key)
    ensures Newest(g.rows, key).None? <==> BeliefsAt(g, key) == []
    ensures Newest(g.rows, key).Some? ==>
              var i := Newest(g.rows, key).value;
              BeliefsAt(g, key) == BeliefsUpTo(g.rows, g.sources, key, i) + [Belief(g.rows[i], Entries(g.sources, i))]
  {
    NoBeliefs(g.rows, g.sources, key, |g.rows|);
    if Newest(g.rows, key).Some? {
      BeliefsStop(g.rows, g.sources, key, Newest(g.rows, key).value + 1, |g.rows|);
    }
  }

  lemma {:induction false} BeliefsMembers(g: Graph, key: Key, n: nat, file: Option<string>)
    requires n <= |g.rows|
    ensures Recorded(BeliefsUpTo(g.rows, g.sources, key, n), file) <==>
            exists i :: 0 <= i < n && g.rows[i].OpenAt(key) && InEntries(Entries(g.sources, i), file)
  {
    if n > 0 {
      BeliefsMembers(g, key, n - 1, file);
      var front, all := BeliefsUpTo(g.rows, g.sources, key, n - 1), BeliefsUpTo(g.rows, g.sources, key, n);
      if Recorded(front, file) {
        var b :| 0 <= b < |front| && InEntries(front[b].entries, file);
        assert all[b] == front[b];
      }
      if g.rows[n - 1].OpenAt(key) && InEntries(Entries(g.sources, n - 1), file) {
        assert InEntries(all[|front|].entries, file);
      }
    }
  }

  /** The join that `has_triple_source` runs asks exactly whether the visible beliefs record the file. */
  lemma HasSourceIsRecorded(g: Graph, key: Key, file: Option<string>)
    ensures HasSource(g, key, file) <==> Recorded(BeliefsAt(g, key), file)
  {
    BeliefsMembers(g, key, |g.rows|, file);
    if HasSource(g, key, file) {
      var j :| 0 <= j < |g.sources| && Records(g, g.sources[j], key, file);
      EntriesMembers(g.sources, g.sources[j].tripleId, file);
    }
    if Recorded(BeliefsAt(g, key), file) {
      var i :| 0 <= i < |g.rows| && g.rows[i].OpenAt(key) && InEntries(Entries(g.sources, i), file);
      EntriesMembers(g.sources, i, file);
      var j :| 0 <= j < |g.sources| && g.sources[j].tripleId == i && g.sources[j].entry.file == file;
      assert Records(g, g.sources[j], key, file);
    }
  }

  // ----- What the writes do to the view -----

  lemma AddedBeliefs(g: Graph, row: Row, key: Key)
    requires WellFounded(g) && row.validTo.None?
    ensures WellFounded(Added(g, row))
    ensures BeliefsAt(Added(g, row), key) ==
            BeliefsAt(g, key) +
            if row.key == key then [Belief(row, [Entry(row.closet, row.file, row.confidence)])] else []
  {
    var g' := Added(g, row);
    var n := |g.rows|;
    forall i: nat
      ensures Entries(g'.sources, i) ==
              Entries(g.sources, i) + if i == n then [Entry(row.closet, row.file, row.confidence)] else []
    {
      EntriesSnoc(g.sources, Source(n, Entry(row.closet, row.file, row.confidence)), i);
    }
    EntriesOfStranger(g.sources, n);
    forall i | 0 <= i < n
      ensures Entries(g'.sources, i) == Entries(g.sources, i)
    {
      assert Entries(g.sources, i) + [] == Entries(g.sources, i);
    }
    BeliefsFrame(g.rows, g.sources, g'.rows, g'.sources, key, n);
    assert Entries(g'.sources, n) == [Entry(row.closet, row.file, row.confidence)];
  }

  lemma BumpedEntries(g: Graph, id: nat, incoming: real, closet: Option<string>, file: Option<string>, i: nat)
    requires id < |g.rows|
    ensures Entries(Bumped(g, id, incoming, closet, file).sources, i) ==
            Entries(g.sources, i) +
            if i == id then [Entry(closet, file, Corroborated(g.rows[id].confidence, incoming))] else []
  {
    EntriesSnoc(g.sources, Source(id, Entry(closet, file, Corroborated(g.rows[id].confidence, incoming))), i);
  }

  /** A bump shows nowhere but in the row it bumps. */
  lemma BumpFrame(g: Graph, id: nat, incoming: real, closet: Option<string>, file: Option<string>, key: Key, n: nat)
    requires id < |g.rows| && n <= |g.rows| && (n <= id || !g.rows[id].OpenAt(key))
    ensures BeliefsUpTo(Bumped(g, id, incoming, closet, file).rows, Bumped(g, id, incoming, closet, file).sources,
                        key, n) ==
            BeliefsUpTo(g.rows, g.sources, key, n)
  {
    var g' := Bumped(g, id, incoming, closet, file);
    forall i | 0 <= i < n && g.rows[i].OpenAt(key)
      ensures g'.rows[i] == g.rows[i] && Entries(g'.sources, i) == Entries(g.sources, i)
    {
      BumpedEntries(g, id, incoming, closet, file, i);
      assert Entries(g.sources, i) + [] == Entries(g.sources, i);
    }
    BeliefsFrame(g.rows, g.sources, g'.rows, g'.sources, key, n);
  }

  lemma BumpReinforces(g: Graph, key: Key, incoming: real, closet: Option<string>, file: Option<string>)
    requires Newest(g.rows, key).Some?
    ensures BeliefsAt(g, key) != []
    ensures BeliefsAt(Bumped(g, Newest(g.rows, key).value, incoming, closet, file), key) ==
            Reinforced(BeliefsAt(g, key), incoming, closet, file)
  {
    var id := Newest(g.rows, key).value;
    var g' := Bumped(g, id, incoming, closet, file);
    NewestIsLast(g, key);
    BumpFrame(g, id, incoming, closet, file, key, id);
    BumpedEntries(g, id, incoming, closet, file, id);
    BeliefsStop(g'.rows, g'.sources, key, id + 1, |g.rows|);
  }

  lemma BumpedBeliefs(g: Graph, target: Key, incoming: real, closet: Option<string>, file: Option<string>, key: Key)
    requires WellFounded(g) && Newest(g.rows, target).Some?
    ensures BeliefsAt(g, target) != []
    ensures WellFounded(Bumped(g, Newest(g.rows, target).value, incoming, closet, file))
    ensures BeliefsAt(Bumped(g, Newest(g.rows, target).value, incoming, closet, file), key) ==
            if key == target then Reinforced(BeliefsAt(g, key), incoming, closet, file) else BeliefsAt(g, key)
  {
    BumpReinforces(g, target, incoming, closet, file);
    if key != target {
      BumpFrame(g, Newest(g.rows, target).value, incoming, closet, file, key, |g.rows|);
    }
  }

  lemma EndedBeliefs(g: Graph, target: Key, ended: Date, key: Key)
    ensures BeliefsAt(g.(rows := Ended(g.rows, target, ended)), key) == if key == target then [] else BeliefsAt(g, key)
  {
    var rows' := Ended(g.rows, target, ended);
    if key == target {
      NoBeliefs(rows', g.sources, key, |g.rows|);
    } else {
      BeliefsFrame(g.rows, g.sources, rows', g.sources, key, |g.rows|);
    }
  }

  // ----- Evidence bookkeeping -----

  ghost predicate AuditedRow(g: Graph, i: nat)
    requires i < |g.rows|
  {
    var entries := Entries(g.sources, i);
    |entries| == g.rows[i].count + 1 && entries[|entries| - 1].confidenceAfter == g.rows[i].confidence
  }

  /** Each row has one provenance row more than its corroboration count, and its confidence is the one the last of
      them recorded. */
  ghost predicate Audited(g: Graph) {
    WellFounded(g) && forall i :: 0 <= i < |g.rows| ==> AuditedRow(g, i)
  }

  lemma AddKeepsAudit(g: Graph, row: Row)
    requires Audited(g) && row.count == 0
    ensures Audited(Added(g, row))
  {
    var g' := Added(g, row);
    EntriesOfStranger(g.sources, |g.rows|);
    forall i | 0 <= i < |g'.rows|
      ensures AuditedRow(g', i)
    {
      EntriesSnoc(g.sources, Source(|g.rows|, Entry(row.closet, row.file, row.confidence)), i);
      assert i < |g.rows| ==> AuditedRow(g, i);
    }
  }

  lemma CorroborateKeepsAudit(g: Graph, id: nat, incoming: real, closet: Option<string>, file: Option<string>)
    requires Audited(g) && id < |g.rows|
    ensures Audited(Bumped(g, id, incoming, closet, file))
  {
    var g' := Bumped(g, id, incoming, closet, file);
    forall i | 0 <= i < |g'.rows|
      ensures AuditedRow(g', i)
    {
      EntriesSnoc(g.sources, Source(id, Entry(closet, file, Corroborated(g.rows[id].confidence, incoming))), i);
      assert AuditedRow(g, i);
    }
  }

  lemma InvalidateKeepsAudit(g: Graph, key: Key, ended: Date)
    requires Audited(g)
    ensures Audited(g.(rows := Ended(g.rows, key, ended)))
  {
    forall i | 0 <= i < |g.rows|
      ensures AuditedRow(g.(rows := Ended(g.rows, key, ended)), i)
    {
      assert AuditedRow(g, i);
    }
  }

  lemma MergeKeepsAudit(g: Graph, source: string, target: string, reviewer: string, rationale: string)
    requires Audited(g)
    ensures Audited(Merged(g, source, target, reviewer, rationale))
  {
    forall i | 0 <= i < |g.rows|
      ensures AuditedRow(Merged(g, source, target, reviewer, rationale), i)
    {
      assert AuditedRow(g, i);
    }
  }
}
