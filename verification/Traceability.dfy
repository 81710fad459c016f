/** Nothing reaches the graph unvouched: on every run, each provenance row, and so each triple, is the image under the
    merges made since of a fact of a proposal that is approved, or whose promote died half-way. */
module Traceability {
  import opened Common
  import opened Confidence
  import opened TripleStore
  import opened Beliefs
  import opened Extraction
  import opened Promotion
  import opened StrictMode
  import opened Proposals
  import opened Lifecycle
  import opened Governance

  /** A key as later merges have rewritten it, oldest merge first. */
  function RenameAll(key: Key, merges: seq<Merge>): Key {
    if merges == [] then key
    else
      var last := merges[|merges| - 1];
      Rename(RenameAll(key, merges[..|merges| - 1]), last.source, last.target)
  }

  /** The confidences the reports gave, one per provenance row of a triple, oldest first. */
  function Given(sources: seq<Source>, tags: seq<Tag>, id: nat): seq<real>
    requires |sources| == |tags|
  {
    if sources == [] then []
    else
      var n := |sources| - 1;
      Given(sources[..n], tags[..n], id) + if sources[n].tripleId == id then [tags[n].confidence] else []
  }

  ghost predicate StatesClaim(p: Proposal, key: Key, confidence: real) {
    exists f :: 0 <= f < |p.facts| && Claim(p.facts[f]) == Some(key) && p.facts[f].confidence == confidence
  }

  /** Someone decided to let the proposal's facts in: it is approved, or its promote had begun to write when it died. */
  predicate LetIn(queue: Queue, died: set<string>, id: string) {
    id in queue && (queue[id].status == Approved || id in died)
  }

  /** The provenance row cites the report of a proposal that was let in and states the tagged claim, and its triple is
      that claim, renamed by the merges made since, under that proposal's scope. */
  ghost predicate SourceTraced(g: Graph, queue: Queue, died: set<string>, s: Source, t: Tag) {
    && s.tripleId < |g.rows|
    && LetIn(queue, died, t.proposal)
    && t.at <= |g.merges|
    && var p := queue[t.proposal];
       && s.entry.file == Some(p.report)
       && s.entry.closet == Some(SourceCloset(p))
       && StatesClaim(p, t.key, t.confidence)
       && g.rows[s.tripleId].key == RenameAll(t.key, g.merges[t.at..])
       && g.rows[s.tripleId].scope == p.scope
  }

  ghost predicate DistinctFiles(entries: seq<Entry>) {
    forall a, b :: 0 <= a < b < |entries| ==> entries[a].file != entries[b].file
  }

  /** A triple's own source columns are its first provenance row's, no report counts twice, and its confidence is the
      capped fold of the confidences its reports gave. */
  ghost predicate RowTraced(g: Graph, tags: seq<Tag>, i: nat)
    requires |g.sources| == |tags| && i < |g.rows|
  {
    var entries, given := Entries(g.sources, i), Given(g.sources, tags, i);
    && |entries| == |given| == g.rows[i].count + 1
    && g.rows[i].file == entries[0].file && g.rows[i].closet == entries[0].closet
    && DistinctFiles(entries)
    && AllConfidences(given)
    && g.rows[i].confidence == Stepwise(given[0], given[1..])
  }

  ghost predicate Traced(g: Graph, queue: Queue, died: set<string>, tags: seq<Tag>) {
    && |tags| == |g.sources|
    && (forall j :: 0 <= j < |tags| ==> SourceTraced(g, queue, died, g.sources[j], tags[j]))
    && (forall i :: 0 <= i < |g.rows| ==> RowTraced(g, tags, i))
  }

  // ----- Small steps -----

  lemma GivenSnoc(sources: seq<Source>, tags: seq<Tag>, s: Source, t: Tag, id: nat)
    requires |sources| == |tags|
    ensures Given(sources + [s], tags + [t], id) ==
            Given(sources, tags, id) + if s.tripleId == id then [t.confidence] else []
  {
    assert (sources + [s])[..|sources|] == sources && (tags + [t])[..|tags|] == tags;
  }

  lemma {:induction false} GivenOfStranger(sources: seq<Source>, tags: seq<Tag>, id: nat)
    requires |sources| == |tags| && forall j :: 0 <= j < |sources| ==> sources[j].tripleId != id
    ensures Given(sources, tags, id) == []
  {
    if sources != [] {
      GivenOfStranger(sources[..|sources| - 1], tags[..|tags| - 1], id);
    }
  }

  lemma AddKeepsRow(g: Graph, tags: seq<Tag>, row: Row, t: Tag, i: nat)
    requires |g.sources| == |tags| && i < |g.rows| && RowTraced(g, tags, i)
    ensures RowTraced(Added(g, row), tags + [t], i)
  {
    var s := Source(|g.rows|, Entry(row.closet, row.file, row.confidence));
    EntriesSnoc(g.sources, s, i);
    GivenSnoc(g.sources, tags, s, t, i);
    assert Entries(Added(g, row).sources, i) == Entries(g.sources, i);
    assert Given(Added(g, row).sources, tags + [t], i) == Given(g.sources, tags, i);
  }

  lemma AddedRowTraced(g: Graph, tags: seq<Tag>, row: Row, t: Tag)
    requires |g.sources| == |tags| && WellFounded(g)
    requires row.count == 0 && t.confidence == row.confidence && IsConfidence(row.confidence)
    ensures RowTraced(Added(g, row), tags + [t], |g.rows|)
  {
    var n := |g.rows|;
    var s := Source(n, Entry(row.closet, row.file, row.confidence));
    EntriesOfStranger(g.sources, n);
    GivenOfStranger(g.sources, tags, n);
    EntriesSnoc(g.sources, s, n);
    GivenSnoc(g.sources, tags, s, t, n);
    assert Given(Added(g, row).sources, tags + [t], n) == [row.confidence];
    assert [row.confidence][1..] == [];
  }

  lemma AddKeepsRows(g: Graph, tags: seq<Tag>, row: Row, t: Tag, queue: Queue, died: set<string>)
    requires Traced(g, queue, died, tags)
    requires row.count == 0 && t.confidence == row.confidence && IsConfidence(row.confidence)
    ensures forall i :: 0 <= i <= |g.rows| ==> RowTraced(Added(g, row), tags + [t], i)
  {
    forall j | 0 <= j < |g.sources|
      ensures g.sources[j].tripleId < |g.rows|
    {
      assert SourceTraced(g, queue, died, g.sources[j], tags[j]);
    }
    AddedRowTraced(g, tags, row, t);
    forall i | 0 <= i < |g.rows|
      ensures RowTraced(Added(g, row), tags + [t], i)
    {
      AddKeepsRow(g, tags, row, t, i);
    }
  }

  lemma StepwiseSnoc(given: seq<real>, c: real)
    requires given != []
    ensures Stepwise((given + [c])[0], (given + [c])[1..]) == Corroborated(Stepwise(given[0], given[1..]), c)
  {
    var rest := (given + [c])[1..];
    assert rest[..|rest| - 1] == given[1..];
  }

  lemma BumpKeepsRow(g: Graph, tags: seq<Tag>, id: nat, c: Confidence, closet: Option<string>, file: Option<string>,
                     t: Tag, i: nat)
    requires |g.sources| == |tags| && id < |g.rows| && i < |g.rows| && RowTraced(g, tags, i)
    requires !InEntries(Entries(g.sources, id), file) && t.confidence == c
    ensures RowTraced(Bumped(g, id, c, closet, file), tags + [t], i)
  {
    var g' := Bumped(g, id, c, closet, file);
    var s := g'.sources[|g.sources|];
    EntriesSnoc(g.sources, s, i);
    GivenSnoc(g.sources, tags, s, t, i);
    if i == id {
      var given := Given(g.sources, tags, i);
      assert Given(g'.sources, tags + [t], i) == given + [c];
      StepwiseSnoc(given, c);
      var before, entries := Entries(g.sources, i), Entries(g'.sources, i);
      assert entries == before + [s.entry];
      forall a, b | 0 <= a < b < |entries|
        ensures entries[a].file != entries[b].file
      {
        assert entries[a] == before[a];
        if b < |before| {
          assert entries[b] == before[b];
        }
      }
    } else {
      assert Given(g'.sources, tags + [t], i) == Given(g.sources, tags, i);
      assert Entries(g'.sources, i) == Entries(g.sources, i);
    }
  }

  lemma NoSourceNoEntry(g: Graph, key: Key, file: Option<string>, id: nat)
    requires id < |g.rows| && g.rows[id].OpenAt(key) && !HasSource(g, key, file)
    ensures !InEntries(Entries(g.sources, id), file)
  {
    EntriesMembers(g.sources, id, file);
    forall j | 0 <= j < |g.sources| && g.sources[j].tripleId == id
      ensures g.sources[j].entry.file != file
    {
      assert !Records(g, g.sources[j], key, file);
    }
  }

  /** Everything a traced graph says stays true of a graph whose rows kept their key and scope. */
  lemma SourcesFrame(g: Graph, g': Graph, queue: Queue, died: set<string>, tags: seq<Tag>)
    requires Traced(g, queue, died, tags)
    requires |g.rows| <= |g'.rows| && g'.merges == g.merges && g.sources <= g'.sources
    requires forall i :: 0 <= i < |g.rows| ==> g'.rows[i].key == g.rows[i].key && g'.rows[i].scope == g.rows[i].scope
    ensures forall j :: 0 <= j < |tags| ==> SourceTraced(g', queue, died, g'.sources[j], tags[j])
  {
    forall j | 0 <= j < |tags|
      ensures SourceTraced(g', queue, died, g'.sources[j], tags[j])
    {
      assert SourceTraced(g, queue, died, g.sources[j], tags[j]);
    }
  }

  /** The writes of a proposal that was let in keep the graph traced. */
  lemma StepKeepsTraced(g: Graph, queue: Queue, died: set<string>, tags: seq<Tag>, op: Op, id: string, today: Date)
    requires Traced(g, queue, died, tags) && LetIn(queue, died, id)
    requires op.Assert? ==> StatesClaim(queue[id], op.key, op.confidence)
    requires Step(g, op, ContextOf(queue[id], today)).Ok?
    ensures Traced(Step(g, op, ContextOf(queue[id], today)).value, queue, died,
                   TagStep(tags, g, op, ContextOf(queue[id], today), id))
  {
    var ctx := ContextOf(queue[id], today);
    var g' := Step(g, op, ctx).value;
    SourcesFrame(g, g', queue, died, tags);
    match op
    case Register(_, _) => RowsFrame(g, g', queue, died, tags);
    case End(_, _) => RowsFrame(g, g', queue, died, tags);
    case Assert(key, validFrom, c) =>
      if HasSource(g, key, ctx.file) {
      } else {
        var t := Tag(id, key, c, |g.merges|);
        assert g.merges[t.at..] == [];
        match Newest(g.rows, key)
        case Some(newest) =>
          NoSourceNoEntry(g, key, ctx.file, newest);
          forall i | 0 <= i < |g.rows|
            ensures RowTraced(g', tags + [t], i)
          {
            assert RowTraced(g, tags, i);
            BumpKeepsRow(g, tags, newest, c, ctx.closet, ctx.file, t, i);
          }
          assert SourceTraced(g', queue, died, g'.sources[|tags|], t);
        case None =>
          AddKeepsRows(g, tags, Row(key, validFrom, None, c, ctx.closet, ctx.file, 0, DEFAULT_TIER, ctx.scope), t,
                       queue, died);
          assert SourceTraced(g', queue, died, g'.sources[|tags|], t);
      }
  }

  lemma RowsFrame(g: Graph, g': Graph, queue: Queue, died: set<string>, tags: seq<Tag>)
    requires Traced(g, queue, died, tags) && g'.sources == g.sources && |g'.rows| == |g.rows|
    requires forall i :: 0 <= i < |g.rows| ==>
                           g'.rows[i] == g.rows[i].(key := g'.rows[i].key, validTo := g'.rows[i].validTo)
    ensures forall i :: 0 <= i < |g'.rows| ==> RowTraced(g', tags, i)
  {
    forall i | 0 <= i < |g'.rows|
      ensures RowTraced(g', tags, i)
    {
      assert RowTraced(g, tags, i);
    }
  }

  lemma {:induction false} RunKeepsTraced(g: Graph, queue: Queue, died: set<string>, tags: seq<Tag>, ops: seq<Op>,
                                          id: string, today: Date)
    requires Traced(g, queue, died, tags) && LetIn(queue, died, id)
    requires forall i :: 0 <= i < |ops| && ops[i].Assert? ==> StatesClaim(queue[id], ops[i].key, ops[i].confidence)
    requires Run(g, ops, ContextOf(queue[id], today)).Ok?
    ensures Traced(Run(g, ops, ContextOf(queue[id], today)).value, queue, died,
                   TagRun(tags, g, ops, ContextOf(queue[id], today), id))
  {
    if ops != [] {
      var n := |ops| - 1;
      var ctx := ContextOf(queue[id], today);
      RunKeepsTraced(g, queue, died, tags, ops[..n], id, today);
      StepKeepsTraced(Run(g, ops[..n], ctx).value, queue, died, TagRun(tags, g, ops[..n], ctx, id), ops[n], id, today);
    }
  }

  /** Every assertion of a pass is a claim its proposal states, with that fact's confidence. */
  lemma {:induction false} AssertsAreStated(facts: seq<Fact>, i: nat)
    requires i < |AllOps(facts)| && AllOps(facts)[i].Assert?
    ensures exists f :: 0 <= f < |facts| && Claim(facts[f]) == Some(AllOps(facts)[i].key) &&
                        facts[f].confidence == AllOps(facts)[i].confidence
  {
    var n := |facts| - 1;
    var front := AllOps(facts[..n]);
    if i < |front| {
      AssertsAreStated(facts[..n], i);
      var f :| 0 <= f < n && Claim(facts[..n][f]) == Some(front[i].key)
          && facts[..n][f].confidence == front[i].confidence;
      assert Claim(facts[f]) == Some(AllOps(facts)[i].key);
    } else {
      assert AllOps(facts)[i] == Ops(facts[n])[i - |front|];
      assert Claim(facts[n]) == Some(AllOps(facts)[i].key);
    }
  }

  // ----- One action -----

  /** What a proposal vouches for does not depend on the decisions taken on it, as long as it stays let in. */
  lemma QueueFrame(g: Graph, queue: Queue, died: set<string>, queue': Queue, died': set<string>, tags: seq<Tag>)
    requires Traced(g, queue, died, tags) && died <= died'
    requires Later(queue, queue')
    ensures Traced(g, queue', died', tags)
  {
    forall j | 0 <= j < |tags|
      ensures SourceTraced(g, queue', died', g.sources[j], tags[j])
    {
      assert SourceTraced(g, queue, died, g.sources[j], tags[j]);
      assert Evolves(queue[tags[j].proposal], queue'[tags[j].proposal]);
    }
  }

  lemma StatedByOps(p: Proposal, n: nat)
    requires n <= |AllOps(p.facts)|
    ensures forall i :: 0 <= i < n && AllOps(p.facts)[..n][i].Assert? ==>
                          StatesClaim(p, AllOps(p.facts)[..n][i].key, AllOps(p.facts)[..n][i].confidence)
  {
    var ops := AllOps(p.facts);
    forall i | 0 <= i < n && ops[i].Assert?
      ensures StatesClaim(p, ops[i].key, ops[i].confidence)
    {
      AssertsAreStated(p.facts, i);
    }
  }

  /** The proposal's pass, written while the proposal counts as let in, keeps the graph traced. */
  lemma PassKeepsTraced(g: Graph, queue: Queue, died: set<string>, tags: seq<Tag>, id: string, today: Date, writes: nat)
    requires Traced(g, queue, died, tags) && LetIn(queue, died, id)
    requires writes <= |AllOps(queue[id].facts)|
    requires Run(g, AllOps(queue[id].facts)[..writes], ContextOf(queue[id], today)).Ok?
    ensures var ops, ctx := AllOps(queue[id].facts)[..writes], ContextOf(queue[id], today);
            Traced(Run(g, ops, ctx).value, queue, died, TagRun(tags, g, ops, ctx, id))
  {
    StatedByOps(queue[id], writes);
    RunKeepsTraced(g, queue, died, tags, AllOps(queue[id].facts)[..writes], id, today);
  }

  /** Approving changes nothing the pass reads. */
  lemma ApprovalKeepsPass(p: Proposal, d: DecisionEntry, today: Date)
    ensures WithDecision(p, d).facts == p.facts && ContextOf(WithDecision(p, d), today) == ContextOf(p, today)
  {}

  lemma ApprovedPass(w: World, id: string, d: DecisionEntry, today: Date, digest: Digest)
    requires SoundQueue(w.queue, digest) && Traced(w.graph, w.queue, w.died, w.tags) && d.verdict == Approve
    requires Admitted(w.queue, digest, id, Approve, d.rationale).Ok?
    requires Run(w.graph, AllOps(w.queue[id].facts), ContextOf(w.queue[id], today)).Ok?
    ensures var ops, ctx := AllOps(w.queue[id].facts), ContextOf(w.queue[id], today);
            Traced(Run(w.graph, ops, ctx).value, w.queue[id := WithDecision(w.queue[id], d)], w.died,
                   TagRun(w.tags, w.graph, ops, ctx, id))
  {
    var queue' := w.queue[id := WithDecision(w.queue[id], d)];
    var ops := AllOps(w.queue[id].facts);
    DecisionIsLater(w.queue, digest, id, d);
    QueueFrame(w.graph, w.queue, w.died, queue', w.died, w.tags);
    assert ops[..|ops|] == ops && queue'[id] == WithDecision(w.queue[id], d);
    ApprovalKeepsPass(w.queue[id], d, today);
    PassKeepsTraced(w.graph, queue', w.died, w.tags, id, today, |ops|);
  }

  lemma PromoteKeepsTraced(w: World, id: string, d: DecisionEntry, strict: bool, today: Date, digest: Digest)
    requires SoundQueue(w.queue, digest) && Traced(w.graph, w.queue, w.died, w.tags) && d.verdict == Approve
    requires Promoted(w.graph, w.queue, digest, id, d, strict, today).Ok?
    ensures var w' := Decided(w, id, d, strict, today, digest); Traced(w'.graph, w'.queue, w'.died, w'.tags)
  {
    var p := w.queue[id];
    ScanSound(w.graph, p.facts, AllOps(p.facts), ContextOf(p, today));
    ApprovedPass(w, id, d, today, digest);
  }

  lemma DeathKeepsTraced(w: World, id: string, rationale: string, strict: bool, today: Date, writes: nat,
                         digest: Digest)
    requires SoundQueue(w.queue, digest) && Traced(w.graph, w.queue, w.died, w.tags)
    ensures var w' := Dead(w, id, rationale, strict, today, writes, digest);
            Traced(w'.graph, w'.queue, w'.died, w'.tags)
  {
    if CanDie(w, id, rationale, strict, today, writes, digest) {
      QueueFrame(w.graph, w.queue, w.died, w.queue, w.died + {id}, w.tags);
      CanCut(w.graph, w.queue[id].facts, ContextOf(w.queue[id], today), strict, writes);
      PassKeepsTraced(w.graph, w.queue, w.died + {id}, w.tags, id, today, writes);
    }
  }

  lemma MergeKeepsTraced(g: Graph, queue: Queue, died: set<string>, tags: seq<Tag>, source: string, target: string,
                         reviewer: string, rationale: string)
    requires Traced(g, queue, died, tags)
    ensures Traced(Merged(g, source, target, reviewer, rationale), queue, died, tags)
  {
    var g' := Merged(g, source, target, reviewer, rationale);
    forall j | 0 <= j < |tags|
      ensures SourceTraced(g', queue, died, g'.sources[j], tags[j])
    {
      assert SourceTraced(g, queue, died, g.sources[j], tags[j]);
      var since := g'.merges[tags[j].at..];
      assert since[..|since| - 1] == g.merges[tags[j].at..];
    }
    RowsFrame(g, g', queue, died, tags);
  }

  lemma NextKeepsTraced(w: World, a: Action, digest: Digest)
    requires SoundQueue(w.queue, digest) && Traced(w.graph, w.queue, w.died, w.tags)
    ensures var w' := Next(w, a, digest); Traced(w'.graph, w'.queue, w'.died, w'.tags)
  {
    var w' := Next(w, a, digest);
    match a
    case Create(_, _) =>
      NextLifecycle(w, a, digest);
      QueueFrame(w.graph, w.queue, w.died, w'.queue, w.died, w.tags);
    case Decide(id, d, strict, today) =>
      if d.verdict == Approve {
        if Promoted(w.graph, w.queue, digest, id, d, strict, today).Ok? {
          PromoteKeepsTraced(w, id, d, strict, today, digest);
        }
      } else {
        NextLifecycle(w, a, digest);
        QueueFrame(w.graph, w.queue, w.died, w'.queue, w.died, w.tags);
      }
    case Die(id, rationale, strict, today, writes) => DeathKeepsTraced(w, id, rationale, strict, today, writes, digest);
    case Invalidate(_, _) =>
      SourcesFrame(w.graph, w'.graph, w.queue, w.died, w.tags);
      RowsFrame(w.graph, w'.graph, w.queue, w.died, w.tags);
    case MergeNames(s, t, reviewer, rationale) =>
      MergeKeepsTraced(w.graph, w.queue, w.died, w.tags, s, t, reviewer, rationale);
  }

  // ----- Every run -----

  /** From an empty graph, on every run of create, promote, reject, reopen, invalidate and merge, crashed promotes
      included. */
  lemma {:induction false} EverythingTraced(actions: seq<Action>, digest: Digest)
    ensures var w := After(actions, digest); Traced(w.graph, w.queue, w.died, w.tags)
  {
    if actions != [] {
      var n := |actions| - 1;
      EverythingTraced(actions[..n], digest);
      QueueStaysSound(actions[..n], digest);
      NextKeepsTraced(After(actions[..n], digest), actions[n], digest);
    }
  }

  /** A triple's first provenance row. */
  lemma FirstSource(g: Graph, tags: seq<Tag>, i: nat) returns (j: nat)
    requires |g.sources| == |tags| && i < |g.rows| && RowTraced(g, tags, i)
    ensures j < |g.sources| && g.sources[j].tripleId == i && g.sources[j].entry.file == g.rows[i].file
  {
    var first := Entries(g.sources, i)[0];
    assert InEntries(Entries(g.sources, i), first.file);
    EntriesMembers(g.sources, i, first.file);
    j :| 0 <= j < |g.sources| && g.sources[j].tripleId == i && g.sources[j].entry.file == first.file;
  }

  /** The proposal was let in, cites the triple's source file and scope, and states the claim that the merges made since
      have turned into the triple. */
  ghost predicate Vouches(w: World, row: Row, id: string, claim: Key, since: nat) {
    && LetIn(w.queue, w.died, id)
    && row.file == Some(w.queue[id].report)
    && row.scope == w.queue[id].scope
    && Claimed(w.queue[id].facts, claim)
    && since <= |w.graph.merges|
    && row.key == RenameAll(claim, w.graph.merges[since..])
  }

  lemma TracedIsVouched(w: World, i: nat) returns (id: string, claim: Key, since: nat)
    requires Traced(w.graph, w.queue, w.died, w.tags) && i < |w.graph.rows|
    ensures Vouches(w, w.graph.rows[i], id, claim, since)
    ensures exists j :: 0 <= j < |w.tags| && w.graph.sources[j].tripleId == i && w.tags[j].proposal == id
  {
    assert RowTraced(w.graph, w.tags, i);
    var j := FirstSource(w.graph, w.tags, i);
    assert SourceTraced(w.graph, w.queue, w.died, w.graph.sources[j], w.tags[j]);
    id, claim, since := w.tags[j].proposal, w.tags[j].key, w.tags[j].at;
    var f :| 0 <= f < |w.queue[id].facts| && Claim(w.queue[id].facts[f]) == Some(claim) &&
             w.queue[id].facts[f].confidence == w.tags[j].confidence;
  }

  /** Read off for one triple: on every run there is a proposal which cites the triple's own source file and states the
      fact the triple now renders; unless its promote once died half-way, it is approved. */
  lemma EveryTripleHasAnApproval(actions: seq<Action>, digest: Digest, i: nat)
    returns (id: string, claim: Key, since: nat)
    requires i < |After(actions, digest).graph.rows|
    ensures var w := After(actions, digest); Vouches(w, w.graph.rows[i], id, claim, since)
  {
    EverythingTraced(actions, digest);
    id, claim, since := TracedIsVouched(After(actions, digest), i);
  }

  lemma TracedIsNoisyOr(w: World, i: nat)
    requires Traced(w.graph, w.queue, w.died, w.tags) && i < |w.graph.rows| && w.graph.rows[i].count > 0
    ensures w.graph.rows[i].confidence == NoisyOr(Given(w.graph.sources, w.tags, i))
    ensures |Given(w.graph.sources, w.tags, i)| == |Entries(w.graph.sources, i)| == w.graph.rows[i].count + 1
    ensures DistinctFiles(Entries(w.graph.sources, i))
  {
    assert RowTraced(w.graph, w.tags, i);
    var given := Given(w.graph.sources, w.tags, i);
    assert [given[0]] + given[1..] == given;
    StepwiseIsBatch(given[0], given[1..]);
  }

  /** On every run, a triple that was corroborated at all holds exactly the capped Noisy-OR of one confidence per
      report, whatever the order the reports came in and however often a promote was retried. */
  lemma ConfidenceIsNoisyOrOfReports(actions: seq<Action>, digest: Digest, i: nat)
    requires i < |After(actions, digest).graph.rows| && After(actions, digest).graph.rows[i].count > 0
    ensures var w := After(actions, digest);
            && |w.graph.sources| == |w.tags|
            && w.graph.rows[i].confidence == NoisyOr(Given(w.graph.sources, w.tags, i))
            && |Given(w.graph.sources, w.tags, i)| == |Entries(w.graph.sources, i)| == w.graph.rows[i].count + 1
            && DistinctFiles(Entries(w.graph.sources, i))
  {
    EverythingTraced(actions, digest);
    TracedIsNoisyOr(After(actions, digest), i);
  }
}
