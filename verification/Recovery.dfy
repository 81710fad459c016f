/** Crashed promotes in the whole system: trying again makes good any number of them, and rejecting instead leaves their
    writes behind. */
module Recovery {
  import opened Common
  import opened TripleStore
  import opened Beliefs
  import opened Extraction
  import opened Promotion
  import opened PartialWrites
  import opened Retry
  import opened StrictMode
  import opened Proposals
  import opened Governance
  import opened Approvals
  import opened Interleaving

  lemma {:induction false} NothingSpared(deaths: seq<Action>, id: string)
    requires forall a :: a in deaths ==> a.Die? && a.id == id
    ensures Spared(deaths, id) == []
  {
    if deaths != [] {
      NothingSpared(deaths[..|deaths| - 1], id);
    }
  }

  lemma OwnDeathsApart(w: World, deaths: seq<Action>, id: string, keys: set<Key>, digest: Digest)
    requires forall a :: a in deaths ==> a.Die? && a.id == id
    ensures AllApart(w, deaths, id, keys, digest)
  {}

  /** However often and wherever the promote of a proposal died, in either mode, trying it again in advisory mode
      succeeds, approves the proposal with the same decision, and leaves the entity table and the currently-true view of
      every key as the promote would have that never died. */
  lemma RetryMakesGood(w: World, id: string, d: DecisionEntry, deaths: seq<Action>, today: Date, retryDay: Date,
                       digest: Digest)
    requires WellFounded(w.graph) && d.verdict == Approve
    requires Promoted(w.graph, w.queue, digest, id, d, false, today).Ok?
    requires forall a :: a in deaths ==> a.Die? && a.id == id
    ensures var dead := Then(w, deaths, digest);
            var whole := Decided(w, id, d, false, today, digest);
            var retried := Decided(dead, id, d, false, retryDay, digest);
            && Promoted(dead.graph, dead.queue, digest, id, d, false, retryDay).Ok?
            && retried.queue == whole.queue
            && SameView(retried.graph, whole.graph)
  {
    NothingSpared(deaths, id);
    OwnDeathsApart(w, deaths, id, TouchedKeys(w.queue[id].facts), digest);
    assert Then(w, Spared(deaths, id), digest) == w;
    InterleavedRetryConverges(w, deaths, id, d, retryDay, today, digest);
  }

  lemma OnePreference(fact: Fact, ctx: Context)
    requires fact.PreferenceFact?
    ensures |AllOps([fact])| == 2 && AllOps([fact])[..2] == AllOps([fact])
    ensures Run(EMPTY_GRAPH, AllOps([fact])[..2], ctx).Ok?
    ensures Run(EMPTY_GRAPH, AllOps([fact])[..2], ctx).value.rows ==
            [Row(Key(fact.subject, PREFERS, fact.preference), None, None, fact.confidence, ctx.closet, ctx.file, 0,
                 DEFAULT_TIER, ctx.scope)]
  {
    assert [fact][..0] == [];
    assert AllOps([fact]) == Ops(fact);
    RunSteps(EMPTY_GRAPH, Ops(fact), ctx);
  }

  // ----- Strict mode -----

  /** The scans look at rows and scope, not at the day. */
  lemma AcceptedOnAnyDay(g: Graph, facts: seq<Fact>, ctx: Context, strict: bool, day: Date)
    ensures Applied(g, facts, ctx.(today := day), strict).Ok? <==> Applied(g, facts, ctx, strict).Ok?
    ensures Applied(g, facts, ctx, strict).Ok? ==>
              Applied(g, facts, ctx, false) == Applied(g, facts, ctx, strict)
  {}

  /** A strict promote that died after k writes is accepted again if and only if its facts tolerate what these writes
      left standing, and then it leaves the entity table and the currently-true view of every key as one uninterrupted
      strict promote. */
  lemma StrictRetryConverges(g: Graph, facts: seq<Fact>, k: nat, ctx: Context, crashDay: Date, retryDay: Date)
    requires WellFounded(g) && Applied(g, facts, ctx, true).Ok? && k <= |AllOps(facts)|
    ensures CutPass(g, facts, k, ctx.(today := crashDay)).Ok?
    ensures var cut := CutPass(g, facts, k, ctx.(today := crashDay)).value;
            var retried := Applied(cut, facts, ctx.(today := retryDay), true);
            && (retried.Ok? <==> TolerantAt(facts, k))
            && (retried.Ok? ==> SameView(retried.value, Applied(g, facts, ctx, true).value))
  {
    var crashCtx := ctx.(today := crashDay);
    AcceptedOnAnyDay(g, facts, ctx, true, crashDay);
    StrictRetryAtExact(g, facts, k, crashCtx);
    var cut := CutPass(g, facts, k, crashCtx).value;
    AcceptedOnAnyDay(cut, facts, crashCtx, true, retryDay);
    assert crashCtx.(today := retryDay) == ctx.(today := retryDay);
    AcceptedOnAnyDay(cut, facts, ctx.(today := retryDay), true, retryDay);
    CrashAndRetryConverge(g, facts, k, ctx, crashDay, retryDay);
  }

  // ----- Rejecting instead -----

  lemma AfterThree(a: Action, b: Action, c: Action, digest: Digest)
    ensures After([a, b, c], digest) == Next(Next(Next(START, a, digest), b, digest), c, digest)
  {
    assert [a][..0] == [] && [a, b][..1] == [a] && [a, b, c][..2] == [a, b];
    assert After([a], digest) == Next(START, a, digest);
    assert After([a, b], digest) == Next(After([a], digest), b, digest);
  }

  /** The first proposal of all. */
  lemma FirstProposal(request: Request, digest: Digest)
    requires request.facts != [] && ValidPlane(request.plane, request.employee)
    ensures var p := request.Fresh(digest, 0);
            Next(START, Create(request, 0), digest) == World(EMPTY_GRAPH, map[p.id := p], [], {})
  {}

  /** Its promote dies after its last write. */
  lemma FirstDeath(p: Proposal, rationale: string, digest: Digest)
    requires |p.facts| == 1 && p.facts[0].PreferenceFact? && p.status == Pending && p.IntegrityOk(digest)
             && !Blank(rationale)
    ensures var w := Next(World(EMPTY_GRAPH, map[p.id := p], [], {}), Die(p.id, rationale, false, 0, 2), digest);
            w.queue == map[p.id := p] && |w.graph.rows| == 1 && w.graph.rows[0].validTo.None?
  {
    assert p.facts == [p.facts[0]];
    EmptyGraphAccepts(p.facts, ContextOf(p, 0));
    OnePreference(p.facts[0], ContextOf(p, 0));
    var w1 := World(EMPTY_GRAPH, map[p.id := p], [], {});
    assert CanDie(w1, p.id, rationale, false, 0, 2, digest);
    assert Next(w1, Die(p.id, rationale, false, 0, 2), digest) == Cut(w1, p.id, 0, 2);
  }

  /** It is then rejected. */
  lemma RejectedAfterDeath(p: Proposal, rationale: string, d: DecisionEntry, digest: Digest)
    requires |p.facts| == 1 && p.facts[0].PreferenceFact? && p.status == Pending && p.IntegrityOk(digest)
    requires !Blank(rationale) && d.verdict == Reject && !Blank(d.rationale)
    ensures var dead := Next(World(EMPTY_GRAPH, map[p.id := p], [], {}), Die(p.id, rationale, false, 0, 2), digest);
            var w := Next(dead, Decide(p.id, d, false, 0), digest);
            && w.queue == map[p.id := WithDecision(p, d)]
            && |w.graph.rows| == 1 && w.graph.rows[0].validTo.None?
  {
    FirstDeath(p, rationale, digest);
    var dead := Next(World(EMPTY_GRAPH, map[p.id := p], [], {}), Die(p.id, rationale, false, 0, 2), digest);
    assert Admitted(dead.queue, digest, p.id, Approve, rationale) == Ok(p);
    RejectionOf(dead, p.id, rationale, d, false, 0, digest);
  }

  lemma ReasonsGiven()
    ensures !Blank("fine") && !Blank("no")
  {
    assert !IsSpace("fine"[0]) && !IsSpace("no"[0]);
  }

  /** Rejecting a proposal whose promote died leaves its writes in the graph: there is a run after which every stored
      proposal is rejected and the graph still holds a currently-true triple. */
  lemma RejectionLeavesWrites(digest: Digest) returns (actions: seq<Action>)
    ensures var w := After(actions, digest);
            && (forall id :: id in w.queue ==> w.queue[id].status == Rejected)
            && |w.graph.rows| == 1 && w.graph.rows[0].validTo.None?
            && !AllApproved(w)
  {
    var request := Request(Firm, None, "public", "ada", "agent", "extractor", [PreferenceFact("q", 0.5, "ada", "tea")],
                           "report");
    var p, d := request.Fresh(digest, 0), DecisionEntry(Reject, "bob", "no", 1);
    var create, die, reject := Create(request, 0), Die(p.id, "fine", false, 0, 2), Decide(p.id, d, false, 0);
    actions := [create, die, reject];
    AfterThree(create, die, reject, digest);
    FirstProposal(request, digest);
    ReasonsGiven();
    RejectedAfterDeath(p, "fine", d, digest);
    if AllApproved(After(actions, digest)) {
      var id, claim, since := AllApprovedVouches(actions, digest, 0);
    }
  }

  // ----- Rejecting an update that died in the middle -----

  lemma OneUpdate(fact: Fact)
    requires fact.UpdateFact? && fact.Supersedes()
    ensures |AllOps([fact])| == 3
    ensures AllOps([fact])[..2] ==
            [Register(fact.subject, UNKNOWN_ENTITY),
             End(Key(fact.subject, fact.pred, fact.supersedes.value), fact.effective)]
  {
    assert [fact][..0] == [];
    assert AllOps([fact]) == Ops(fact);
  }

  /** An update whose promote dies between the end of the old value and the new one, and which is then rejected: every
      provenance row is an approved proposal's, as before, and the old value is gone all the same. */
  lemma RejectedEndStays(w: World, id: string, rationale: string, today: Date, d: DecisionEntry, day: Date,
                         digest: Digest)
    requires AllApproved(w) && CanDie(w, id, rationale, false, today, 2, digest)
    requires |w.queue[id].facts| == 1 && w.queue[id].facts[0].UpdateFact? && w.queue[id].facts[0].Supersedes()
    requires d.verdict == Reject && !Blank(d.rationale)
    ensures var w' := Decided(Dead(w, id, rationale, false, today, 2, digest), id, d, false, day, digest);
            var fact := w.queue[id].facts[0];
            && w'.queue == w.queue[id := WithDecision(w.queue[id], d)]
            && AllApproved(w')
            && BeliefsAt(w'.graph, Key(fact.subject, fact.pred, fact.supersedes.value)) == []
  {
    var p := w.queue[id];
    var fact, ctx := p.facts[0], ContextOf(p, today);
    var key := Key(fact.subject, fact.pred, fact.supersedes.value);
    assert p.facts == [fact];
    OneUpdate(fact);
    var ops := AllOps(p.facts)[..2];
    assert RecordsNothing(w.graph, ops, ctx);
    CanCut(w.graph, p.facts, ctx, false, 2);
    QuietRunOnlyEnds(w.graph, ops, ctx);
    assert ops[1].End? && ops[1].key == key;
    assert Ends(ops, key);
    DeathThenRejectionExact(w, id, rationale, false, today, 2, d, day, digest);
    RejectionOf(Dead(w, id, rationale, false, today, 2, digest), id, rationale, d, false, day, digest);
    NewestIsLast(Run(w.graph, ops, ctx).value, key);
  }

  /** The first proposal states one preference, and the second replaces it under the same scope. */
  predicate Replaces(first: Request, second: Request, digest: Digest) {
    && ValidPlane(first.plane, first.employee) && ValidPlane(second.plane, second.employee)
    && |first.facts| == 1 && first.facts[0].PreferenceFact?
    && |second.facts| == 1 && second.facts[0].UpdateFact? && second.facts[0].Supersedes()
    && Stated(first) == Key(second.facts[0].subject, second.facts[0].pred, second.facts[0].supersedes.value)
    && second.scope == first.scope
    && digest(first.Bound()) != digest(second.Bound())
  }

  function Stated(request: Request): Key
    requires |request.facts| == 1 && request.facts[0].PreferenceFact?
  {
    Key(request.facts[0].subject, PREFERS, request.facts[0].preference)
  }

  /** The first proposal of all states one preference and is approved. */
  lemma FirstApproval(p: Proposal, d: DecisionEntry, digest: Digest)
    requires |p.facts| == 1 && p.facts[0].PreferenceFact? && p.status == Pending && p.IntegrityOk(digest)
    requires d.verdict == Approve && !Blank(d.rationale)
    ensures var w := Next(World(EMPTY_GRAPH, map[p.id := p], [], {}), Decide(p.id, d, false, 0), digest);
            && w.queue == map[p.id := WithDecision(p, d)]
            && |w.graph.rows| == 1
            && w.graph.rows[0].OpenAt(Key(p.facts[0].subject, PREFERS, p.facts[0].preference))
            && w.graph.rows[0].scope == p.scope
  {
    assert p.facts == [p.facts[0]];
    EmptyGraphAccepts(p.facts, ContextOf(p, 0));
    OnePreference(p.facts[0], ContextOf(p, 0));
    assert AllOps([p.facts[0]])[..2] == AllOps([p.facts[0]]);
  }

  /** An update under the one scope there is passes its scans. */
  lemma UpdateAccepted(w: World, p: Proposal, rationale: string, digest: Digest)
    requires p.id in w.queue && w.queue[p.id] == p && p.status == Pending && p.IntegrityOk(digest)
    requires |p.facts| == 1 && p.facts[0].UpdateFact? && p.facts[0].Supersedes() && !Blank(rationale)
    requires forall i :: 0 <= i < |w.graph.rows| ==> w.graph.rows[i].scope == p.scope
    ensures CanDie(w, p.id, rationale, false, 0, 2, digest)
  {
    ScanEmptyMeans(w.graph.rows, p.facts, p.scope);
    assert p.facts == [p.facts[0]];
    OneUpdate(p.facts[0]);
  }

  lemma SecondProposal(w: World, request: Request, digest: Digest)
    requires request.facts != [] && ValidPlane(request.plane, request.employee) && digest(request.Bound()) !in w.queue
    ensures var p := request.Fresh(digest, 0);
            Next(w, Create(request, 0), digest) == w.(queue := w.queue[p.id := p])
  {}

  /** The first is approved, the second is created, and its promote could die at its second write. */
  lemma AfterPrelude(first: Request, second: Request, yes: DecisionEntry, rationale: string, digest: Digest)
    requires Replaces(first, second, digest)
    requires yes.verdict == Approve && !Blank(yes.rationale) && !Blank(rationale)
    ensures var p := second.Fresh(digest, 0);
            var w := After([Create(first, 0), Decide(digest(first.Bound()), yes, false, 0), Create(second, 0)], digest);
            && AllApproved(w) && BeliefsAt(w.graph, Stated(first)) != []
            && p.id in w.queue && w.queue[p.id] == p
            && CanDie(w, p.id, rationale, false, 0, 2, digest)
  {
    var p, q := first.Fresh(digest, 0), second.Fresh(digest, 0);
    var a, b, c := Create(first, 0), Decide(p.id, yes, false, 0), Create(second, 0);
    AfterThree(a, b, c, digest);
    CrashFreeTags([a, b, c], digest);
    FirstProposal(first, digest);
    FirstApproval(p, yes, digest);
    var w := Next(Next(START, a, digest), b, digest);
    SecondProposal(w, second, digest);
    var w' := Next(w, c, digest);
    NewestIsLast(w'.graph, Stated(first));
    UpdateAccepted(w', q, rationale, digest);
  }

  lemma AfterTwoMore(before: seq<Action>, a: Action, b: Action, digest: Digest)
    ensures After(before + [a, b], digest) == Next(Next(After(before, digest), a, digest), b, digest)
  {
    assert (before + [a, b])[..|before| + 1] == before + [a] && (before + [a])[..|before|] == before;
    assert After(before + [a], digest) == Next(After(before, digest), a, digest);
  }

  /** A preference that was approved, and an update of it whose promote dies between the end of the old value and the
      new one, and which is then rejected: all provenance is an approved proposal's, and yet nothing is believed any
      more of what was approved. */
  lemma RejectionLeavesEnds(first: Request, second: Request, yes: DecisionEntry, no: DecisionEntry, digest: Digest)
    returns (actions: seq<Action>)
    requires Replaces(first, second, digest)
    requires yes.verdict == Approve && no.verdict == Reject && !Blank(yes.rationale) && !Blank(no.rationale)
    ensures |actions| == 5 && actions[3].Die?
    ensures var w := After(actions, digest);
            && digest(second.Bound()) in w.queue && w.queue[digest(second.Bound())].status == Rejected
            && AllApproved(w)
            && BeliefsAt(After(actions[..3], digest).graph, Stated(first)) != []
            && BeliefsAt(w.graph, Stated(first)) == []
  {
    var p, q := first.Fresh(digest, 0), second.Fresh(digest, 0);
    var before := [Create(first, 0), Decide(p.id, yes, false, 0), Create(second, 0)];
    var die, reject := Die(q.id, yes.rationale, false, 0, 2), Decide(q.id, no, false, 0);
    actions := before + [die, reject];
    assert actions[..3] == before;
    AfterPrelude(first, second, yes, yes.rationale, digest);
    AfterTwoMore(before, die, reject, digest);
    RejectedEndStays(After(before, digest), q.id, yes.rationale, 0, no, 0, digest);
  }
}
