/** Other writers at work while a promote crashes over and over: as long as they stay off the proposal's own triples, a
    retry makes the crashes good all the same. */
module Interleaving {
  import opened Common
  import opened TripleStore
  import opened Beliefs
  import opened Extraction
  import opened Promotion
  import opened Retry
  import opened Proposals
  import opened Governance
  import opened Outside

  // ----- Two graphs that the pass of one proposal makes equal -----

  /** They differ at most in what the pass is going to settle: the names it upserts and the triples it touches. */
  ghost predicate Alike(a: Graph, b: Graph, facts: seq<Fact>, ctx: Context) {
    var ops, keys := AllOps(facts), TouchedKeys(facts);
    && WellFounded(a) && WellFounded(b)
    && Others(a, keys) == Others(b, keys)
    && a.entities - Overlay(ops).Keys == b.entities - Overlay(ops).Keys
    && a.merges == b.merges
    && (forall key :: key in keys ==> Settled(a, b, key, ops, ctx))
    && (AllAgree(a.rows, keys, ctx.scope) <==> AllAgree(b.rows, keys, ctx.scope))
  }

  predicate Settled(a: Graph, b: Graph, key: Key, ops: seq<Op>, ctx: Context) {
    KeyRun(BeliefsAt(a, key), key, ops, ctx) == KeyRun(BeliefsAt(b, key), key, ops, ctx)
  }

  /** The pass is let through on both graphs or on neither. */
  lemma AlikeAccepted(a: Graph, b: Graph, facts: seq<Fact>, ctx: Context)
    requires Alike(a, b, facts, ctx)
    ensures ScopeConflicts(a.rows, facts, ctx.scope) == [] <==> ScopeConflicts(b.rows, facts, ctx.scope) == []
  {
    ScanEmptyMeans(a.rows, facts, ctx.scope);
    ScanEmptyMeans(b.rows, facts, ctx.scope);
  }

  lemma SettledView(a: Graph, b: Graph, facts: seq<Fact>, ctx: Context, dayA: Date, dayB: Date, key: Key)
    requires Alike(a, b, facts, ctx)
    requires Run(a, AllOps(facts), ctx.(today := dayA)).Ok? && Run(b, AllOps(facts), ctx.(today := dayB)).Ok?
    ensures BeliefsAt(Run(a, AllOps(facts), ctx.(today := dayA)).value, key) ==
            BeliefsAt(Run(b, AllOps(facts), ctx.(today := dayB)).value, key)
  {
    var ops := AllOps(facts);
    if key in TouchedKeys(facts) {
      assert Settled(a, b, key, ops, ctx);
      RunIsKeyRun(a, ops, ctx.(today := dayA), key);
      RunIsKeyRun(b, ops, ctx.(today := dayB), key);
      KeyRunIgnoresClock(BeliefsAt(a, key), key, ops, ctx, dayA);
      KeyRunIgnoresClock(BeliefsAt(b, key), key, ops, ctx, dayB);
    } else {
      OpsTouchScannedKeys(facts);
      RunElsewhere(a, ops, ctx.(today := dayA), key);
      RunElsewhere(b, ops, ctx.(today := dayB), key);
      SameOthersSameBeliefs(a, b, TouchedKeys(facts), key);
    }
  }

  lemma SettledEntities(a: map<string, Entity>, b: map<string, Entity>, overlay: map<string, Entity>)
    requires a - overlay.Keys == b - overlay.Keys
    ensures a + overlay == b + overlay
  {
    assert a + overlay == (a - overlay.Keys) + overlay;
    assert b + overlay == (b - overlay.Keys) + overlay;
  }

  /** The pass makes them equal, whatever days it runs on. */
  lemma PassSettles(a: Graph, b: Graph, facts: seq<Fact>, ctx: Context, dayA: Date, dayB: Date)
    requires Alike(a, b, facts, ctx)
    requires Run(a, AllOps(facts), ctx.(today := dayA)).Ok? && Run(b, AllOps(facts), ctx.(today := dayB)).Ok?
    ensures SameView(Run(a, AllOps(facts), ctx.(today := dayA)).value, Run(b, AllOps(facts), ctx.(today := dayB)).value)
  {
    var ops := AllOps(facts);
    PassIsGrounded(facts);
    EntitiesAfter(a, ops, ctx.(today := dayA));
    EntitiesAfter(b, ops, ctx.(today := dayB));
    SettledEntities(a.entities, b.entities, Overlay(ops));
    forall key
      ensures BeliefsAt(Run(a, ops, ctx.(today := dayA)).value, key) ==
              BeliefsAt(Run(b, ops, ctx.(today := dayB)).value, key)
    {
      SettledView(a, b, facts, ctx, dayA, dayB, key);
    }
  }

  // ----- What keeps them alike -----

  ghost predicate SameAt(g: Graph, g': Graph, keys: set<Key>) {
    forall key :: key in keys ==> BeliefsAt(g', key) == BeliefsAt(g, key)
  }

  lemma AgreeStill(g: Graph, g': Graph, keys: set<Key>, scope: string)
    requires SameAt(g, g', keys)
    ensures AllAgree(g'.rows, keys, scope) <==> AllAgree(g.rows, keys, scope)
  {
    forall key | key in keys
      ensures ScopeAgrees(g'.rows, key, scope) <==> ScopeAgrees(g.rows, key, scope)
    {
      AgreesByBeliefs(g, key, scope);
      AgreesByBeliefs(g', key, scope);
    }
  }

  /** It is enough that both stay as they are at the keys, and the same elsewhere. */
  lemma StillAlike(a: Graph, b: Graph, a': Graph, b': Graph, facts: seq<Fact>, ctx: Context)
    requires Alike(a, b, facts, ctx) && WellFounded(a') && WellFounded(b')
    requires SameAt(a, a', TouchedKeys(facts)) && SameAt(b, b', TouchedKeys(facts))
    requires Others(a', TouchedKeys(facts)) == Others(b', TouchedKeys(facts))
    requires a'.entities - Overlay(AllOps(facts)).Keys == b'.entities - Overlay(AllOps(facts)).Keys
    requires a'.merges == b'.merges
    ensures Alike(a', b', facts, ctx)
  {
    AgreeStill(a, a', TouchedKeys(facts), ctx.scope);
    AgreeStill(b, b', TouchedKeys(facts), ctx.scope);
    forall key | key in TouchedKeys(facts)
      ensures Settled(a', b', key, AllOps(facts), ctx)
    {
      assert Settled(a, b, key, AllOps(facts), ctx);
    }
  }

  lemma PrefixTouches(facts: seq<Fact>, ops: seq<Op>)
    requires ops <= AllOps(facts)
    ensures forall i :: 0 <= i < |ops| && !ops[i].Register? ==> ops[i].key in TouchedKeys(facts)
  {
    OpsTouchScannedKeys(facts);
    forall i | 0 <= i < |ops| && !ops[i].Register?
      ensures ops[i].key in TouchedKeys(facts)
    {
      assert ops[i] == AllOps(facts)[i];
    }
  }

  lemma PrefixEntities(g: Graph, facts: seq<Fact>, ops: seq<Op>, ctx: Context)
    requires ops <= AllOps(facts) && Run(g, ops, ctx).Ok?
    ensures Run(g, ops, ctx).value.entities == g.entities + Overlay(ops)
    ensures Run(g, ops, ctx).value.merges == g.merges
  {
    PassIsGrounded(facts);
    GroundedPrefix(AllOps(facts), |ops|);
    assert ops == AllOps(facts)[..|ops|];
    EntitiesAfter(g, ops, ctx);
  }

  /** Another proposal's pass, whole or cut, that touches none of the keys. */
  lemma OtherPassAlike(a: Graph, b: Graph, facts: seq<Fact>, ctx: Context, other: seq<Fact>, ops: seq<Op>,
                       otherCtx: Context)
    requires Alike(a, b, facts, ctx) && ops <= AllOps(other) && TouchedKeys(other) !! TouchedKeys(facts)
    requires Run(a, ops, otherCtx).Ok? && Run(b, ops, otherCtx).Ok?
    ensures Alike(Run(a, ops, otherCtx).value, Run(b, ops, otherCtx).value, facts, ctx)
  {
    PrefixTouches(other, ops);
    SameRun(a, b, ops, otherCtx, TouchedKeys(facts));
    PrefixEntities(a, other, ops, otherCtx);
    PrefixEntities(b, other, ops, otherCtx);
    forall key | key in TouchedKeys(facts)
      ensures BeliefsAt(Run(a, ops, otherCtx).value, key) == BeliefsAt(a, key)
      ensures BeliefsAt(Run(b, ops, otherCtx).value, key) == BeliefsAt(b, key)
    {
      RunElsewhere(a, ops, otherCtx, key);
      RunElsewhere(b, ops, otherCtx, key);
    }
    UpsertedAlike(a.entities, b.entities, Overlay(AllOps(facts)).Keys, Overlay(ops));
    StillAlike(a, b, Run(a, ops, otherCtx).value, Run(b, ops, otherCtx).value, facts, ctx);
  }

  lemma UpsertedAlike(a: map<string, Entity>, b: map<string, Entity>, names: set<string>, more: map<string, Entity>)
    requires a - names == b - names
    ensures (a + more) - names == (b + more) - names
  {
    assert (a + more) - names == (a - names) + (more - names);
    assert (b + more) - names == (b - names) + (more - names);
  }

  /** The proposal's own pass dies on one of the graphs. */
  lemma DeathAlike(a: Graph, b: Graph, facts: seq<Fact>, ctx: Context, day: Date, k: nat)
    requires Alike(a, b, facts, ctx) && k <= |AllOps(facts)| && ScopeConflicts(a.rows, facts, ctx.scope) == []
    ensures Run(a, AllOps(facts)[..k], ctx.(today := day)).Ok?
    ensures Alike(Run(a, AllOps(facts)[..k], ctx.(today := day)).value, b, facts, ctx)
  {
    var ops, keys := AllOps(facts), TouchedKeys(facts);
    var part, dayCtx := ops[..k], ctx.(today := day);
    ScanSound(a, facts, part, dayCtx);
    var a' := Run(a, part, dayCtx).value;
    PrefixTouches(facts, part);
    RunInside(a, part, dayCtx, keys);
    PrefixEntities(a, facts, part, dayCtx);
    OwnUpserts(a.entities, ops, k);
    forall key | key in keys
      ensures Settled(a', b, key, ops, ctx)
    {
      assert Settled(a, b, key, ops, ctx);
      RunIsKeyRun(a, part, dayCtx, key);
      KeyRunIgnoresClock(BeliefsAt(a, key), key, part, ctx, day);
      KeyConverges(BeliefsAt(a, key), key, ops, k, ctx);
    }
    ScanEmptyMeans(a.rows, facts, ctx.scope);
    ScanEmptyMeans(a'.rows, facts, ctx.scope);
  }

  lemma OwnUpserts(entities: map<string, Entity>, ops: seq<Op>, k: nat)
    requires k <= |ops|
    ensures (entities + Overlay(ops[..k])) - Overlay(ops).Keys == entities - Overlay(ops).Keys
  {
    SplitAt(ops, k);
    OverlayAppend(ops[..k], ops[k..]);
  }

  lemma EndAlike(a: Graph, b: Graph, facts: seq<Fact>, ctx: Context, key: Key, ended: Date)
    requires Alike(a, b, facts, ctx) && key !in TouchedKeys(facts)
    ensures Alike(a.(rows := Ended(a.rows, key, ended)), b.(rows := Ended(b.rows, key, ended)), facts, ctx)
  {
    EndedElsewhereOthers(a, b, key, ended, TouchedKeys(facts));
    forall k | k in TouchedKeys(facts)
      ensures BeliefsAt(a.(rows := Ended(a.rows, key, ended)), k) == BeliefsAt(a, k)
      ensures BeliefsAt(b.(rows := Ended(b.rows, key, ended)), k) == BeliefsAt(b, k)
    {
      EndedBeliefs(a, key, ended, k);
      EndedBeliefs(b, key, ended, k);
    }
    StillAlike(a, b, a.(rows := Ended(a.rows, key, ended)), b.(rows := Ended(b.rows, key, ended)), facts, ctx);
  }

  lemma DroppedAlike(a: map<string, Entity>, b: map<string, Entity>, names: set<string>, name: string)
    requires a - names == b - names
    ensures (a - {name}) - names == (b - {name}) - names
  {
    assert (a - {name}) - names == (a - names) - {name};
    assert (b - {name}) - names == (b - names) - {name};
  }

  lemma MergedBeliefs(a: Graph, source: string, target: string, reviewer: string, rationale: string, keys: set<Key>)
    requires Unmentioned(keys, source) && Unmentioned(keys, target)
    ensures SameAt(a, Merged(a, source, target, reviewer, rationale), keys)
  {
    forall key | key in keys
      ensures BeliefsAt(Merged(a, source, target, reviewer, rationale), key) == BeliefsAt(a, key)
    {
      MergeElsewhere(a, source, target, reviewer, rationale, key);
    }
  }

  lemma MergeAlike(a: Graph, b: Graph, facts: seq<Fact>, ctx: Context, source: string, target: string,
                   reviewer: string, rationale: string)
    requires Alike(a, b, facts, ctx) && source != target
    requires Unmentioned(TouchedKeys(facts), source) && Unmentioned(TouchedKeys(facts), target)
    ensures MixesScopes(a.rows, source, target) <==> MixesScopes(b.rows, source, target)
    ensures Alike(Merged(a, source, target, reviewer, rationale), Merged(b, source, target, reviewer, rationale),
                  facts, ctx)
  {
    var a', b' := Merged(a, source, target, reviewer, rationale), Merged(b, source, target, reviewer, rationale);
    SameMerge(a, b, source, target, reviewer, rationale, TouchedKeys(facts));
    MergedBeliefs(a, source, target, reviewer, rationale, TouchedKeys(facts));
    MergedBeliefs(b, source, target, reviewer, rationale, TouchedKeys(facts));
    DroppedAlike(a.entities, b.entities, Overlay(AllOps(facts)).Keys, source);
    StillAlike(a, b, a', b', facts, ctx);
  }

  // ----- Whole runs -----

  /** The facts touch none of the triples, and, where the coherence scan counts, none of their subjects and
      predicates. */
  ghost predicate FactsApart(facts: seq<Fact>, strict: bool, keys: set<Key>) {
    TouchedKeys(facts) !! keys && (strict ==> SlotsApart(facts, keys))
  }

  /** The action stays off the triples; deaths of the proposal itself do not count. */
  ghost predicate Apart(w: World, a: Action, id: string, keys: set<Key>) {
    match a
    case Create(_, _) => true
    case Decide(other, d, strict, _) =>
      d.verdict == Approve && other in w.queue ==> FactsApart(w.queue[other].facts, strict, keys)
    case Die(other, _, strict, _, _) =>
      other != id && other in w.queue ==> FactsApart(w.queue[other].facts, strict, keys)
    case Invalidate(key, _) => key !in keys
    case MergeNames(s, t, _, _) => Unmentioned(keys, s) && Unmentioned(keys, t)
  }

  function Then(w: World, actions: seq<Action>, digest: Digest): World {
    if actions == [] then w
    else Next(Then(w, actions[..|actions| - 1], digest), actions[|actions| - 1], digest)
  }

  ghost predicate AllApart(w: World, actions: seq<Action>, id: string, keys: set<Key>, digest: Digest) {
    forall j :: 0 <= j < |actions| ==> Apart(Then(w, actions[..j], digest), actions[j], id, keys)
  }

  /** The same run without the crashes of the one proposal. */
  function Spared(actions: seq<Action>, id: string): seq<Action> {
    if actions == [] then []
    else
      var front, last := Spared(actions[..|actions| - 1], id), actions[|actions| - 1];
      if last.Die? && last.id == id then front else front + [last]
  }

  predicate SameContent(p: Proposal, q: Proposal) {
    p.facts == q.facts && ContextOf(p, 0) == ContextOf(q, 0)
  }

  ghost predicate AlikeWorlds(w: World, v: World, id: string, p: Proposal) {
    && w.queue == v.queue
    && id in w.queue && SameContent(w.queue[id], p)
    && Alike(w.graph, v.graph, p.facts, ContextOf(p, 0))
  }

  lemma SameAcceptance(a: Graph, b: Graph, facts: seq<Fact>, ctx: Context, other: seq<Fact>, otherCtx: Context,
                       strict: bool)
    requires Alike(a, b, facts, ctx) && FactsApart(other, strict, TouchedKeys(facts))
    ensures Applied(a, other, otherCtx, strict).Ok? <==> Applied(b, other, otherCtx, strict).Ok?
  {
    forall key | key in TouchedKeys(other)
      ensures BeliefsAt(a, key) == BeliefsAt(b, key)
    {
      SameOthersSameBeliefs(a, b, TouchedKeys(facts), key);
    }
    SameScopeScan(a, b, other, otherCtx.scope);
    if strict {
      SameWarnings(a, b, other, TouchedKeys(facts));
    }
  }

  lemma QueueKeepsContent(w: World, a: Action, id: string, p: Proposal, digest: Digest)
    requires id in w.queue && SameContent(w.queue[id], p)
    ensures id in Next(w, a, digest).queue && SameContent(Next(w, a, digest).queue[id], p)
  {
    match a
    case Decide(other, d, strict, today) => DecidedQueue(w, other, d, strict, today, digest);
    case _ =>
  }

  /** Another proposal's pass goes through on both sides or on neither, and leaves them alike. */
  lemma AppliedAlike(a: Graph, b: Graph, facts: seq<Fact>, ctx: Context, other: seq<Fact>, otherCtx: Context,
                     strict: bool)
    requires Alike(a, b, facts, ctx) && FactsApart(other, strict, TouchedKeys(facts))
    ensures var l, r := Applied(a, other, otherCtx, strict), Applied(b, other, otherCtx, strict);
            (l.Ok? <==> r.Ok?) && (l.Ok? ==> Alike(l.value, r.value, facts, ctx))
  {
    SameAcceptance(a, b, facts, ctx, other, otherCtx, strict);
    if Applied(a, other, otherCtx, strict).Ok? {
      ScanSound(a, other, AllOps(other), otherCtx);
      ScanSound(b, other, AllOps(other), otherCtx);
      OtherPassAlike(a, b, facts, ctx, other, AllOps(other), otherCtx);
    }
  }

  /** What an admitted decision does: an approval lets the facts in or is refused, any other leaves the graph alone. */
  lemma DecidedIs(w: World, id: string, d: DecisionEntry, strict: bool, today: Date, digest: Digest)
    requires Admitted(w.queue, digest, id, d.verdict, d.rationale).Ok?
    ensures var w' := Decided(w, id, d, strict, today, digest);
            var decided := w.queue[id := WithDecision(w.queue[id], d)];
            if d.verdict != Approve then w'.queue == decided && w'.graph == w.graph
            else
              var applied := Applied(w.graph, w.queue[id].facts, ContextOf(w.queue[id], today), strict);
              && w'.queue == (if applied.Ok? then decided else w.queue)
              && w'.graph == if applied.Ok? then applied.value else w.graph
  {}

  lemma NotAdmitted(w: World, id: string, d: DecisionEntry, strict: bool, today: Date, digest: Digest)
    requires Admitted(w.queue, digest, id, d.verdict, d.rationale).Err?
    ensures Decided(w, id, d, strict, today, digest) == w
  {}

  lemma DecidedAlike(w: World, v: World, id: string, p: Proposal, other: string, d: DecisionEntry, strict: bool,
                     today: Date, digest: Digest)
    requires AlikeWorlds(w, v, id, p)
    requires d.verdict == Approve && other in w.queue ==> FactsApart(w.queue[other].facts, strict, TouchedKeys(p.facts))
    ensures Decided(w, other, d, strict, today, digest).queue == Decided(v, other, d, strict, today, digest).queue
    ensures Alike(Decided(w, other, d, strict, today, digest).graph, Decided(v, other, d, strict, today, digest).graph,
                  p.facts, ContextOf(p, 0))
  {
    if Admitted(w.queue, digest, other, d.verdict, d.rationale).Ok? {
      DecidedIs(w, other, d, strict, today, digest);
      DecidedIs(v, other, d, strict, today, digest);
      if d.verdict == Approve {
        AppliedAlike(w.graph, v.graph, p.facts, ContextOf(p, 0), w.queue[other].facts,
                     ContextOf(w.queue[other], today), strict);
      }
    } else {
      NotAdmitted(w, other, d, strict, today, digest);
      NotAdmitted(v, other, d, strict, today, digest);
    }
  }

  lemma OtherDeathAlike(w: World, v: World, id: string, p: Proposal, other: string, rationale: string, strict: bool,
                        today: Date, writes: nat, digest: Digest)
    requires AlikeWorlds(w, v, id, p)
    requires other in w.queue ==> FactsApart(w.queue[other].facts, strict, TouchedKeys(p.facts))
    ensures var w' := Dead(w, other, rationale, strict, today, writes, digest);
            var v' := Dead(v, other, rationale, strict, today, writes, digest);
            w'.queue == v'.queue && Alike(w'.graph, v'.graph, p.facts, ContextOf(p, 0))
  {
    if other in w.queue {
      var facts, ctx := w.queue[other].facts, ContextOf(w.queue[other], today);
      SameAcceptance(w.graph, v.graph, p.facts, ContextOf(p, 0), facts, ctx, strict);
      if CanDie(w, other, rationale, strict, today, writes, digest) {
        CanCut(w.graph, facts, ctx, strict, writes);
        CanCut(v.graph, facts, ctx, strict, writes);
        OtherPassAlike(w.graph, v.graph, p.facts, ContextOf(p, 0), facts, AllOps(facts)[..writes], ctx);
      }
    }
  }

  lemma NextAlike(w: World, v: World, a: Action, id: string, p: Proposal, digest: Digest)
    requires AlikeWorlds(w, v, id, p) && Apart(w, a, id, TouchedKeys(p.facts)) && !(a.Die? && a.id == id)
    ensures AlikeWorlds(Next(w, a, digest), Next(v, a, digest), id, p)
  {
    QueueKeepsContent(w, a, id, p, digest);
    match a
    case Create(_, _) =>
    case Decide(other, d, strict, today) => DecidedAlike(w, v, id, p, other, d, strict, today, digest);
    case Die(other, rationale, strict, today, writes) =>
      OtherDeathAlike(w, v, id, p, other, rationale, strict, today, writes, digest);
    case Invalidate(key, ended) => EndAlike(w.graph, v.graph, p.facts, ContextOf(p, 0), key, ended);
    case MergeNames(s, t, reviewer, rationale) =>
      if s != t {
        MergeAlike(w.graph, v.graph, p.facts, ContextOf(p, 0), s, t, reviewer, rationale);
      }
  }

  /** A death of the proposal on one side only. */
  lemma OwnDeathAlike(w: World, v: World, a: Action, id: string, p: Proposal, digest: Digest)
    requires AlikeWorlds(w, v, id, p) && a.Die? && a.id == id
    ensures AlikeWorlds(Next(w, a, digest), v, id, p)
  {
    if CanDie(w, id, a.rationale, a.strict, a.today, a.writes, digest) {
      assert ContextOf(w.queue[id], a.today) == ContextOf(p, 0).(today := a.today);
      DeathAlike(w.graph, v.graph, p.facts, ContextOf(p, 0), a.today, a.writes);
    }
  }

  lemma SparedLast(w: World, actions: seq<Action>, id: string, digest: Digest)
    requires actions != []
    ensures var n := |actions| - 1;
            var v := Then(w, Spared(actions[..n], id), digest);
            Then(w, Spared(actions, id), digest) ==
            if actions[n].Die? && actions[n].id == id then v else Next(v, actions[n], digest)
  {
    var n := |actions| - 1;
    var front, all := Spared(actions[..n], id), Spared(actions, id);
    if !(actions[n].Die? && actions[n].id == id) {
      assert all[..|all| - 1] == front;
    }
  }

  lemma {:induction false} ThenAlike(w: World, actions: seq<Action>, id: string, digest: Digest)
    requires WellFounded(w.graph) && id in w.queue
    requires AllApart(w, actions, id, TouchedKeys(w.queue[id].facts), digest)
    ensures AlikeWorlds(Then(w, actions, digest), Then(w, Spared(actions, id), digest), id, w.queue[id])
  {
    if actions != [] {
      var n := |actions| - 1;
      var front, a, p := actions[..n], actions[n], w.queue[id];
      forall j | 0 <= j < n
        ensures Apart(Then(w, front[..j], digest), front[j], id, TouchedKeys(p.facts))
      {
        assert front[..j] == actions[..j];
      }
      ThenAlike(w, front, id, digest);
      assert Apart(Then(w, actions[..n], digest), a, id, TouchedKeys(p.facts));
      SparedLast(w, actions, id, digest);
      if a.Die? && a.id == id {
        OwnDeathAlike(Then(w, front, digest), Then(w, Spared(front, id), digest), a, id, p, digest);
      } else {
        NextAlike(Then(w, front, digest), Then(w, Spared(front, id), digest), a, id, p, digest);
      }
    }
  }

  /** Promoting in advisory mode is accepted in both worlds or in neither, and makes them equal. */
  lemma PromoteSettles(w: World, v: World, id: string, p: Proposal, d: DecisionEntry, dayW: Date, dayV: Date,
                       digest: Digest)
    requires AlikeWorlds(w, v, id, p) && d.verdict == Approve
    ensures Promoted(w.graph, w.queue, digest, id, d, false, dayW).Ok? <==>
            Promoted(v.graph, v.queue, digest, id, d, false, dayV).Ok?
    ensures Promoted(w.graph, w.queue, digest, id, d, false, dayW).Ok? ==>
              var w', v' := Decided(w, id, d, false, dayW, digest), Decided(v, id, d, false, dayV, digest);
              w'.queue == v'.queue && SameView(w'.graph, v'.graph)
  {
    var ctx := ContextOf(p, 0);
    assert ContextOf(w.queue[id], dayW) == ctx.(today := dayW) && ContextOf(v.queue[id], dayV) == ctx.(today := dayV);
    AlikeAccepted(w.graph, v.graph, p.facts, ctx);
    if Promoted(w.graph, w.queue, digest, id, d, false, dayW).Ok? {
      ScanSound(w.graph, p.facts, AllOps(p.facts), ctx.(today := dayW));
      ScanSound(v.graph, p.facts, AllOps(p.facts), ctx.(today := dayV));
      PassSettles(w.graph, v.graph, p.facts, ctx, dayW, dayV);
    }
  }

  /** The promote of a proposal may die any number of times, at any writes and in either mode, while other proposals are
      created, decided, promoted and die themselves, triples are invalidated and entities merged. As long as those other
      actions stay off the proposal's own triples, promoting it in the end is accepted exactly if it would have been
      without the crashes, and then leaves the queue, the entity table, the merge log and the currently-true view of
      every key as if there had been none. */
  lemma InterleavedRetryConverges(w: World, actions: seq<Action>, id: string, d: DecisionEntry, retryDay: Date,
                                  today: Date, digest: Digest)
    requires WellFounded(w.graph) && id in w.queue && d.verdict == Approve
    requires AllApart(w, actions, id, TouchedKeys(w.queue[id].facts), digest)
    ensures var crashed, spared := Then(w, actions, digest), Then(w, Spared(actions, id), digest);
            && (Promoted(crashed.graph, crashed.queue, digest, id, d, false, retryDay).Ok? <==>
                Promoted(spared.graph, spared.queue, digest, id, d, false, today).Ok?)
            && (Promoted(crashed.graph, crashed.queue, digest, id, d, false, retryDay).Ok? ==>
                  var retried := Decided(crashed, id, d, false, retryDay, digest);
                  var whole := Decided(spared, id, d, false, today, digest);
                  retried.queue == whole.queue && SameView(retried.graph, whole.graph))
  {
    ThenAlike(w, actions, id, digest);
    PromoteSettles(Then(w, actions, digest), Then(w, Spared(actions, id), digest), id, w.queue[id], d, retryDay, today,
                   digest);
  }
}
