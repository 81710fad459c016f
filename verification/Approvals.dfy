/** Exactly when everything that promotes wrote to the graph was written for approved proposals, although a promote may
    die half-way and its proposal may be rejected afterwards; and exactly when crashes leave no trace. */
module Approvals {
  import opened Common
  import opened TripleStore
  import opened Promotion
  import opened PartialWrites
  import opened Proposals
  import opened Lifecycle
  import opened Governance
  import opened Traceability

  predicate ApprovedIn(w: World, id: string) {
    id in w.queue && w.queue[id].status == Approved
  }

  /** Every provenance row was written for a proposal that is approved now. */
  predicate AllApproved(w: World) {
    forall j :: 0 <= j < |w.tags| ==> ApprovedIn(w, w.tags[j].proposal)
  }

  /** The action is a promote that gets past its checks and dies after it recorded something new. */
  predicate DiesRecording(w: World, a: Action, digest: Digest) {
    && a.Die?
    && CanDie(w, a.id, a.rationale, a.strict, a.today, a.writes, digest)
    && var p := w.queue[a.id];
       !RecordsNothing(w.graph, AllOps(p.facts)[..a.writes], ContextOf(p, a.today))
  }

  // ----- Which proposals the tags name -----

  /** A pass tags each provenance row it appends, with its own proposal. */
  lemma {:induction false} TagsGrow(tags: seq<Tag>, g: Graph, ops: seq<Op>, ctx: Context, id: string)
    requires Run(g, ops, ctx).Ok?
    ensures tags <= TagRun(tags, g, ops, ctx, id)
    ensures |TagRun(tags, g, ops, ctx, id)| + |g.sources| == |tags| + |Run(g, ops, ctx).value.sources|
    ensures forall j :: |tags| <= j < |TagRun(tags, g, ops, ctx, id)| ==>
            TagRun(tags, g, ops, ctx, id)[j].proposal == id
  {
    if ops != [] {
      var n := |ops| - 1;
      TagsGrow(tags, g, ops[..n], ctx, id);
      StepAppends(Run(g, ops[..n], ctx).value, ops[n], ctx);
    }
  }

  /** A pass leaves the tags as they are if and only if it records nothing. */
  lemma TagsGrowExact(tags: seq<Tag>, g: Graph, ops: seq<Op>, ctx: Context, id: string)
    requires Run(g, ops, ctx).Ok?
    ensures TagRun(tags, g, ops, ctx, id) == tags <==> RecordsNothing(g, ops, ctx)
  {
    TagsGrow(tags, g, ops, ctx, id);
    RecordsNothingExact(g, ops, ctx);
    RunAppends(g, ops, ctx);
    assert |Run(g, ops, ctx).value.sources| == |g.sources| ==> Run(g, ops, ctx).value.sources == g.sources;
  }

  ghost predicate Tagged(w: World, id: string) {
    exists j :: 0 <= j < |w.tags| && w.tags[j].proposal == id
  }

  /** The tags name the proposals they named before, and one more exactly when the promote of that one recorded. */
  lemma DeadTags(w: World, id: string, rationale: string, strict: bool, today: Date, writes: nat, digest: Digest)
    requires CanDie(w, id, rationale, strict, today, writes, digest)
    ensures var w' := Dead(w, id, rationale, strict, today, writes, digest);
            var p := w.queue[id];
            && w'.queue == w.queue
            && forall other :: Tagged(w', other) <==>
                 Tagged(w, other) ||
                 (other == id && !RecordsNothing(w.graph, AllOps(p.facts)[..writes], ContextOf(p, today)))
  {
    var p := w.queue[id];
    var ops, ctx := AllOps(p.facts)[..writes], ContextOf(p, today);
    var w' := Dead(w, id, rationale, strict, today, writes, digest);
    CanCut(w.graph, p.facts, ctx, strict, writes);
    TagsGrow(w.tags, w.graph, ops, ctx, id);
    TagsGrowExact(w.tags, w.graph, ops, ctx, id);
    GrownTags(w.tags, w'.tags, w, w', id);
  }

  lemma GrownTags(tags: seq<Tag>, tags': seq<Tag>, w: World, w': World, id: string)
    requires w.tags == tags && w'.tags == tags' && tags <= tags'
    requires forall j :: |tags| <= j < |tags'| ==> tags'[j].proposal == id
    ensures forall other :: Tagged(w', other) <==> Tagged(w, other) || (other == id && tags' != tags)
  {
    forall other
      ensures Tagged(w', other) <==> Tagged(w, other) || (other == id && tags' != tags)
    {
      if Tagged(w, other) {
        var j :| 0 <= j < |tags| && tags[j].proposal == other;
        assert tags'[j].proposal == other;
      }
      if tags' != tags {
        assert |tags'| > |tags|;
        assert tags'[|tags|].proposal == id;
      }
    }
  }

  lemma PromotedTags(w: World, id: string, d: DecisionEntry, strict: bool, today: Date, digest: Digest)
    requires d.verdict == Approve && Promoted(w.graph, w.queue, digest, id, d, strict, today).Ok?
    ensures var w' := Decided(w, id, d, strict, today, digest);
            && ApprovedIn(w', id)
            && (forall other :: Tagged(w, other) ==> Tagged(w', other))
            && forall other :: Tagged(w', other) ==> Tagged(w, other) || other == id
  {
    var p := w.queue[id];
    var ops, ctx := AllOps(p.facts), ContextOf(p, today);
    var w' := Decided(w, id, d, strict, today, digest);
    ScanSound(w.graph, p.facts, ops, ctx);
    TagsGrow(w.tags, w.graph, ops, ctx, id);
    GrownTags(w.tags, w'.tags, w, w', id);
  }

  // ----- One death and one rejection -----

  /** What could be approved can be rejected, which touches the proposal only. */
  lemma RejectionOf(w: World, id: string, rationale: string, d: DecisionEntry, strict: bool, day: Date, digest: Digest)
    requires Admitted(w.queue, digest, id, Approve, rationale).Ok? && d.verdict == Reject && !Blank(d.rationale)
    ensures Decided(w, id, d, strict, day, digest) == w.(queue := w.queue[id := WithDecision(w.queue[id], d)])
  {}

  lemma RejectedTags(w: World, dead: World, rejected: World, id: string, recorded: bool)
    requires AllApproved(w) && !ApprovedIn(w, id)
    requires forall other :: Tagged(dead, other) <==> Tagged(w, other) || (other == id && recorded)
    requires rejected.tags == dead.tags
    requires forall other :: ApprovedIn(rejected, other) <==> other != id && ApprovedIn(w, other)
    ensures AllApproved(rejected) <==> !recorded
  {
    ApprovedByTag(w);
    ApprovedByTag(rejected);
    forall other
      ensures Tagged(rejected, other) <==> Tagged(w, other) || (other == id && recorded)
    {
      assert Tagged(rejected, other) <==> Tagged(dead, other);
    }
    assert recorded ==> Tagged(rejected, id);
  }

  /** From a graph all of whose provenance rows were written for approved proposals: a promote that dies and whose
      proposal is then rejected leaves it that way if and only if the writes it got through recorded nothing new. What
      they ended and upserted is not counted here, but in `DeathThenRejectionUndoneExact`. */
  lemma DeathThenRejectionExact(w: World, id: string, rationale: string, strict: bool, today: Date, writes: nat,
                                d: DecisionEntry, day: Date, digest: Digest)
    requires AllApproved(w) && CanDie(w, id, rationale, strict, today, writes, digest)
    requires d.verdict == Reject && !Blank(d.rationale)
    ensures var dead := Dead(w, id, rationale, strict, today, writes, digest);
            var p := w.queue[id];
            AllApproved(Decided(dead, id, d, strict, day, digest)) <==>
            RecordsNothing(w.graph, AllOps(p.facts)[..writes], ContextOf(p, today))
  {
    var dead := Dead(w, id, rationale, strict, today, writes, digest);
    DeadTags(w, id, rationale, strict, today, writes, digest);
    RejectionOf(dead, id, rationale, d, strict, day, digest);
    var p := w.queue[id];
    RejectedTags(w, dead, Decided(dead, id, d, strict, day, digest), id,
                 !RecordsNothing(w.graph, AllOps(p.facts)[..writes], ContextOf(p, today)));
  }

  /** A promote that dies and whose proposal is then rejected leaves the graph as it was if and only if the writes it
      got through were nothing; and triples and provenance, if and only if these recorded nothing and ended nothing. */
  lemma DeathThenRejectionUndoneExact(w: World, id: string, rationale: string, strict: bool, today: Date, writes: nat,
                                      d: DecisionEntry, day: Date, digest: Digest)
    requires CanDie(w, id, rationale, strict, today, writes, digest)
    requires d.verdict == Reject && !Blank(d.rationale)
    ensures var g := Decided(Dead(w, id, rationale, strict, today, writes, digest), id, d, strict, day, digest).graph;
            var ops, ctx := AllOps(w.queue[id].facts)[..writes], ContextOf(w.queue[id], today);
            && (g == w.graph <==> WritesNothing(w.graph, ops, ctx))
            && (g.rows == w.graph.rows && g.sources == w.graph.sources <==>
                RecordsNothing(w.graph, ops, ctx) && EndsNothing(w.graph, ops))
  {
    var dead := Dead(w, id, rationale, strict, today, writes, digest);
    DeathKeepsExact(w, id, rationale, strict, today, writes, digest);
    RejectionOf(dead, id, rationale, d, strict, day, digest);
  }

  /** A death leaves the graph as it was if and only if its writes were nothing. */
  lemma DeathKeepsExact(w: World, id: string, rationale: string, strict: bool, today: Date, writes: nat,
                        digest: Digest)
    requires CanDie(w, id, rationale, strict, today, writes, digest)
    ensures var g := Dead(w, id, rationale, strict, today, writes, digest).graph;
            var ops, ctx := AllOps(w.queue[id].facts)[..writes], ContextOf(w.queue[id], today);
            && (g == w.graph <==> WritesNothing(w.graph, ops, ctx))
            && (g.rows == w.graph.rows && g.sources == w.graph.sources <==>
                RecordsNothing(w.graph, ops, ctx) && EndsNothing(w.graph, ops))
  {
    var p := w.queue[id];
    var ops, ctx := AllOps(p.facts)[..writes], ContextOf(p, today);
    CanCut(w.graph, p.facts, ctx, strict, writes);
    GraphKeptExact(w.graph, ops, ctx);
    TriplesKeptExact(w.graph, ops, ctx);
  }

  lemma ApprovedByTag(w: World)
    ensures AllApproved(w) <==> forall id :: Tagged(w, id) ==> ApprovedIn(w, id)
  {
    if forall id :: Tagged(w, id) ==> ApprovedIn(w, id) {
      forall j | 0 <= j < |w.tags|
        ensures ApprovedIn(w, w.tags[j].proposal)
      {
        assert Tagged(w, w.tags[j].proposal);
      }
    }
  }

  // ----- Whole runs -----

  /** Some promote of the proposal died in the run after it had recorded something new. */
  predicate DiedRecording(actions: seq<Action>, id: string, digest: Digest) {
    actions != [] &&
    var n := |actions| - 1;
    || DiedRecording(actions[..n], id, digest)
    || (DiesRecording(After(actions[..n], digest), actions[n], digest) && actions[n].id == id)
  }

  /** The tags name approved proposals and those whose promote died recording; and all of the latter. */
  ghost predicate Explained(w: World, actions: seq<Action>, digest: Digest) {
    && (forall id :: Tagged(w, id) ==>
          id in w.queue && (w.queue[id].status == Approved || DiedRecording(actions, id, digest)))
    && (forall id :: DiedRecording(actions, id, digest) ==> Tagged(w, id))
  }

  lemma {:induction false} TagsExplained(actions: seq<Action>, digest: Digest)
    ensures Explained(After(actions, digest), actions, digest)
  {
    if actions != [] {
      var n := |actions| - 1;
      var w, w' := After(actions[..n], digest), After(actions, digest);
      TagsExplained(actions[..n], digest);
      QueueStaysSound(actions[..n], digest);
      NextLifecycle(w, actions[n], digest);
      NextTags(w, actions[n], digest);
      forall id
        ensures Tagged(w', id) ==>
                  id in w'.queue && (w'.queue[id].status == Approved || DiedRecording(actions, id, digest))
        ensures DiedRecording(actions, id, digest) ==> Tagged(w', id)
      {
        assert id in w.queue ==> Evolves(w.queue[id], w'.queue[id]);
      }
    }
  }

  /** One action tags what was tagged, what it approves, and what dies recording. */
  lemma NextTags(w: World, a: Action, digest: Digest)
    ensures var w' := Next(w, a, digest);
            forall id ::
              && (Tagged(w, id) || (DiesRecording(w, a, digest) && a.id == id) ==> Tagged(w', id))
              && (Tagged(w', id) ==>
                  || Tagged(w, id)
                  || (DiesRecording(w, a, digest) && a.id == id)
                  || ApprovedIn(w', id))
              && (DiesRecording(w, a, digest) && a.id == id ==> id in w'.queue)
  {
    match a
    case Decide(id, d, strict, today) =>
      if d.verdict == Approve && Promoted(w.graph, w.queue, digest, id, d, strict, today).Ok? {
        PromotedTags(w, id, d, strict, today, digest);
      }
    case Die(id, rationale, strict, today, writes) =>
      if CanDie(w, id, rationale, strict, today, writes, digest) {
        DeadTags(w, id, rationale, strict, today, writes, digest);
      }
    case _ =>
  }

  /** On every run: every provenance row was written for an approved proposal if and only if every proposal a promote of
      which ever died after recording something new is approved in the end. Whether a death records is decided by the
      graph it starts from and the writes it gets through. */
  lemma AllApprovedExact(actions: seq<Action>, digest: Digest)
    ensures var w := After(actions, digest);
            AllApproved(w) <==>
            forall id :: DiedRecording(actions, id, digest) ==> ApprovedIn(w, id)
  {
    TagsExplained(actions, digest);
    ApprovedByTag(After(actions, digest));
  }

  // ----- When crashes leave no trace at all -----

  function WithoutDeaths(actions: seq<Action>): seq<Action> {
    Filter(actions, (a: Action) => !a.Die?)
  }

  /** The action is a promote that gets past its checks and dies after a write that changed the graph. */
  predicate DiesWriting(w: World, a: Action, digest: Digest) {
    && a.Die?
    && CanDie(w, a.id, a.rationale, a.strict, a.today, a.writes, digest)
    && var p := w.queue[a.id];
       !WritesNothing(w.graph, AllOps(p.facts)[..a.writes], ContextOf(p, a.today))
  }

  predicate SameStored(w: World, v: World) {
    w.graph == v.graph && w.queue == v.queue && w.tags == v.tags
  }

  lemma NextSame(w: World, v: World, a: Action, digest: Digest)
    requires SameStored(w, v) && !a.Die?
    ensures SameStored(Next(w, a, digest), Next(v, a, digest))
  {}

  lemma QuietDeath(w: World, a: Action, digest: Digest)
    requires a.Die? && !DiesWriting(w, a, digest)
    ensures SameStored(Next(w, a, digest), w)
  {
    if CanDie(w, a.id, a.rationale, a.strict, a.today, a.writes, digest) {
      var p := w.queue[a.id];
      DeathKeepsExact(w, a.id, a.rationale, a.strict, a.today, a.writes, digest);
      CanCut(w.graph, p.facts, ContextOf(p, a.today), a.strict, a.writes);
      TagsGrowExact(w.tags, w.graph, AllOps(p.facts)[..a.writes], ContextOf(p, a.today), a.id);
    }
  }

  lemma WithoutLast(actions: seq<Action>, digest: Digest)
    requires actions != []
    ensures var n := |actions| - 1;
            var v := After(WithoutDeaths(actions[..n]), digest);
            After(WithoutDeaths(actions), digest) == if actions[n].Die? then v else Next(v, actions[n], digest)
  {
    var n := |actions| - 1;
    var front, all := WithoutDeaths(actions[..n]), WithoutDeaths(actions);
    if actions[n].Die? {
      assert all == front;
    } else {
      assert all == front + [actions[n]];
      assert all[..|all| - 1] == front;
    }
  }

  /** Every promote that died in the run had changed nothing by then. */
  predicate NoneDiesWriting(actions: seq<Action>, digest: Digest) {
    forall j :: 0 <= j < |actions| ==> !DiesWriting(After(actions[..j], digest), actions[j], digest)
  }

  lemma PrefixQuiet(actions: seq<Action>, k: nat, digest: Digest)
    requires NoneDiesWriting(actions, digest) && k <= |actions|
    ensures NoneDiesWriting(actions[..k], digest)
  {
    forall j | 0 <= j < k
      ensures !DiesWriting(After(actions[..k][..j], digest), actions[..k][j], digest)
    {
      assert actions[..k][..j] == actions[..j];
    }
  }

  lemma {:induction false} QuietDeathsLeaveNoTrace(actions: seq<Action>, digest: Digest)
    requires NoneDiesWriting(actions, digest)
    ensures SameStored(After(actions, digest), After(WithoutDeaths(actions), digest))
  {
    if actions != [] {
      var n := |actions| - 1;
      PrefixQuiet(actions, n, digest);
      QuietDeathsLeaveNoTrace(actions[..n], digest);
      WithoutLast(actions, digest);
      if actions[n].Die? {
        QuietDeath(After(actions[..n], digest), actions[n], digest);
      } else {
        NextSame(After(actions[..n], digest), After(WithoutDeaths(actions[..n]), digest), actions[n], digest);
      }
    }
  }

  /** On every run: at each point the graph is that of the same run without its crashed promotes if and only if each of
      these died before it had changed anything. */
  lemma CrashesLeaveNoTraceExact(actions: seq<Action>, digest: Digest)
    ensures NoneDiesWriting(actions, digest) <==>
            forall k :: 0 <= k <= |actions| ==>
                          After(actions[..k], digest).graph == After(WithoutDeaths(actions[..k]), digest).graph
  {
    if NoneDiesWriting(actions, digest) {
      forall k | 0 <= k <= |actions|
        ensures After(actions[..k], digest).graph == After(WithoutDeaths(actions[..k]), digest).graph
      {
        PrefixQuiet(actions, k, digest);
        QuietDeathsLeaveNoTrace(actions[..k], digest);
      }
    } else {
      var j :| 0 <= j < |actions| && DiesWriting(After(actions[..j], digest), actions[j], digest);
      TraceShows(actions, j, digest);
    }
  }

  lemma TraceShows(actions: seq<Action>, j: nat, digest: Digest)
    requires j < |actions| && DiesWriting(After(actions[..j], digest), actions[j], digest)
    ensures exists k :: 0 <= k <= |actions| &&
                        After(actions[..k], digest).graph != After(WithoutDeaths(actions[..k]), digest).graph
  {
    var w, a := After(actions[..j], digest), actions[j];
    assert actions[..j + 1][..j] == actions[..j] && actions[..j + 1][j] == a;
    DeathKeepsExact(w, a.id, a.rationale, a.strict, a.today, a.writes, digest);
    assert After(actions[..j + 1], digest).graph != w.graph;
    assert WithoutDeaths(actions[..j + 1]) == WithoutDeaths(actions[..j]);
  }

  // ----- Every change, ends and upserts included -----

  /** A promote, whole or dying, changes the graph. */
  predicate PromoteChanges(w: World, a: Action, digest: Digest) {
    (a.Decide? || a.Die?) && Next(w, a, digest).graph != w.graph
  }

  lemma ChangesAre(w: World, a: Action, digest: Digest)
    ensures DiesWriting(w, a, digest) <==> a.Die? && PromoteChanges(w, a, digest)
    ensures a.Decide? && PromoteChanges(w, a, digest) ==> ApprovedIn(Next(w, a, digest), a.id)
  {
    if a.Die? && CanDie(w, a.id, a.rationale, a.strict, a.today, a.writes, digest) {
      DeathKeepsExact(w, a.id, a.rationale, a.strict, a.today, a.writes, digest);
    }
  }

  /** On every run: each change that a promote ever made to the graph, be it a new triple, more evidence, an end or an
      upsert, was made for a proposal that is approved in the end, if and only if each proposal a promote of which ever
      died after a write that changed something is. */
  lemma AllChangesApprovedExact(actions: seq<Action>, digest: Digest)
    ensures (forall j :: 0 <= j < |actions| && PromoteChanges(After(actions[..j], digest), actions[j], digest) ==>
               ApprovedIn(After(actions, digest), actions[j].id))
            <==>
            (forall j :: 0 <= j < |actions| && DiesWriting(After(actions[..j], digest), actions[j], digest) ==>
               ApprovedIn(After(actions, digest), actions[j].id))
  {
    forall j | 0 <= j < |actions|
      ensures DiesWriting(After(actions[..j], digest), actions[j], digest) <==>
              actions[j].Die? && PromoteChanges(After(actions[..j], digest), actions[j], digest)
      ensures actions[j].Decide? && PromoteChanges(After(actions[..j], digest), actions[j], digest) ==>
                ApprovedIn(After(actions, digest), actions[j].id)
    {
      ChangesAre(After(actions[..j], digest), actions[j], digest);
      assert actions[..j + 1][..j] == actions[..j];
      LifecycleHolds(actions, j + 1, digest);
    }
  }

  /** Then each triple renders a fact of an approved proposal that cites the triple's source file. */
  lemma AllApprovedVouches(actions: seq<Action>, digest: Digest, i: nat) returns (id: string, claim: Key, since: nat)
    requires i < |After(actions, digest).graph.rows| && AllApproved(After(actions, digest))
    ensures var w := After(actions, digest);
            Vouches(w, w.graph.rows[i], id, claim, since) && w.queue[id].status == Approved
  {
    EverythingTraced(actions, digest);
    id, claim, since := TracedIsVouched(After(actions, digest), i);
  }

  /** Without crashes each triple renders a fact of an approved proposal that cites the triple's source file. */
  lemma CrashFreeIsApproved(actions: seq<Action>, digest: Digest, i: nat) returns (id: string, claim: Key, since: nat)
    requires forall a :: a in actions ==> !a.Die?
    requires i < |After(actions, digest).graph.rows|
    ensures var w := After(actions, digest);
            Vouches(w, w.graph.rows[i], id, claim, since) && w.queue[id].status == Approved
  {
    CrashFreeTags(actions, digest);
    id, claim, since := AllApprovedVouches(actions, digest, i);
  }

  lemma CrashFreeTags(actions: seq<Action>, digest: Digest)
    requires forall a :: a in actions ==> !a.Die?
    ensures AllApproved(After(actions, digest))
  {
    forall id
      ensures !DiedRecording(actions, id, digest)
    {
      NoDeathNoneRecording(actions, id, digest);
    }
    AllApprovedExact(actions, digest);
  }

  lemma {:induction false} NoDeathNoneRecording(actions: seq<Action>, id: string, digest: Digest)
    requires forall a :: a in actions ==> !a.Die?
    ensures !DiedRecording(actions, id, digest)
  {
    if actions != [] {
      NoDeathNoneRecording(actions[..|actions| - 1], id, digest);
    }
  }
}
