/** Whole runs of the system: proposals are created, decided and promoted, a promote may die between two of its writes,
    triples are invalidated, entities merged. */
module Governance {
  import opened Common
  import opened TripleStore
  import opened MergeLaws
  import opened Beliefs
  import opened Extraction
  import opened Promotion
  import opened Proposals
  import opened Lifecycle

  /** For one provenance row: the proposal and claim it was written for, and how many merges had happened by then. */
  datatype Tag = Tag(proposal: string, key: Key, confidence: real, at: nat)

  /** The stored state, and beside it one tag per provenance row and the proposals a promote of which died half-way. */
  datatype World = World(graph: Graph, queue: Queue, tags: seq<Tag>, died: set<string>)

  const START := World(EMPTY_GRAPH, map[], [], {})

  datatype Action =
    | Create(request: Request, now: int)
    | Decide(id: string, decision: DecisionEntry, strict: bool, today: Date)
    | Die(id: string, rationale: string, strict: bool, today: Date, writes: nat)
    | Invalidate(key: Key, ended: Date)
    | MergeNames(source: string, target: string, reviewer: string, rationale: string)

  function TagStep(tags: seq<Tag>, g: Graph, op: Op, ctx: Context, id: string): seq<Tag>
    requires Step(g, op, ctx).Ok?
  {
    if |Step(g, op, ctx).value.sources| > |g.sources| && op.Assert?
    then tags + [Tag(id, op.key, op.confidence, |g.merges|)]
    else tags
  }

  function TagRun(tags: seq<Tag>, g: Graph, ops: seq<Op>, ctx: Context, id: string): seq<Tag>
    requires Run(g, ops, ctx).Ok?
  {
    if ops == [] then tags
    else
      var front := ops[..|ops| - 1];
      TagStep(TagRun(tags, g, front, ctx, id), Run(g, front, ctx).value, ops[|ops| - 1], ctx, id)
  }

  function Decided(w: World, id: string, d: DecisionEntry, strict: bool, today: Date, digest: Digest): World {
    if d.verdict == Approve then
      var promoted := Promoted(w.graph, w.queue, digest, id, d, strict, today);
      if promoted.Err? then w
      else
        var p := w.queue[id];
        ScanSound(w.graph, p.facts, AllOps(p.facts), ContextOf(p, today));
        World(promoted.value.0, w.queue[id := promoted.value.1],
              TagRun(w.tags, w.graph, AllOps(p.facts), ContextOf(p, today), id), w.died)
    else
      var admitted := Admitted(w.queue, digest, id, d.verdict, d.rationale);
      if admitted.Err? then w else w.(queue := w.queue[id := WithDecision(admitted.value, d)])
  }

  /** A promote of the proposal would get past its checks, and its pass has that many writes. */
  predicate CanDie(w: World, id: string, rationale: string, strict: bool, today: Date, writes: nat, digest: Digest) {
    && Admitted(w.queue, digest, id, Approve, rationale).Ok?
    && Applied(w.graph, w.queue[id].facts, ContextOf(w.queue[id], today), strict).Ok?
    && writes <= |AllOps(w.queue[id].facts)|
  }

  /** The first writes of a pass stay, and the proposal is not touched. */
  function Cut(w: World, id: string, today: Date, writes: nat): World
    requires id in w.queue && writes <= |AllOps(w.queue[id].facts)|
    requires Run(w.graph, AllOps(w.queue[id].facts)[..writes], ContextOf(w.queue[id], today)).Ok?
  {
    var ops, ctx := AllOps(w.queue[id].facts)[..writes], ContextOf(w.queue[id], today);
    World(Run(w.graph, ops, ctx).value, w.queue, TagRun(w.tags, w.graph, ops, ctx, id), w.died + {id})
  }

  lemma CanCut(g: Graph, facts: seq<Fact>, ctx: Context, strict: bool, writes: nat)
    requires Applied(g, facts, ctx, strict).Ok? && writes <= |AllOps(facts)|
    ensures Run(g, AllOps(facts)[..writes], ctx).Ok?
  {
    ScanSound(g, facts, AllOps(facts)[..writes], ctx);
  }

  /** A promote that got past its checks and died after some of its writes. */
  function Dead(w: World, id: string, rationale: string, strict: bool, today: Date, writes: nat,
                digest: Digest): World
  {
    if !CanDie(w, id, rationale, strict, today, writes, digest) then w
    else
      CanCut(w.graph, w.queue[id].facts, ContextOf(w.queue[id], today), strict, writes);
      Cut(w, id, today, writes)
  }

  /** One call; a refused call leaves everything as it was. */
  function Next(w: World, a: Action, digest: Digest): World {
    match a
    case Create(r, now) =>
      var created := Created(w.queue, digest, r, now);
      if created.Err? then w else w.(queue := w.queue[digest(r.Bound()) := created.value])
    case Decide(id, d, strict, today) => Decided(w, id, d, strict, today, digest)
    case Die(id, rationale, strict, today, writes) => Dead(w, id, rationale, strict, today, writes, digest)
    case Invalidate(key, ended) => w.(graph := w.graph.(rows := Ended(w.graph.rows, key, ended)))
    case MergeNames(s, t, reviewer, rationale) =>
      if Blank(rationale) || s == t || MixesScopes(w.graph.rows, s, t) then w
      else w.(graph := Merged(w.graph, s, t, reviewer, rationale))
  }

  /** One call of the pipeline or of the graph, run by the methods themselves: they take the stored state where `Next`
      says, and keep every proposal filed. */
  method Perform(store: ProposalStore, kg: KnowledgeGraph, a: Action, ghost w: World)
    requires Filed(store.proposals) && w.queue == store.proposals && w.graph == kg.State() && !a.Die?
    modifies store, kg
    ensures store.proposals == Next(w, a, store.digest).queue && kg.State() == Next(w, a, store.digest).graph
    ensures Filed(store.proposals)
  {
    match a
    case Create(request, now) =>
      var r := CreateProposal(store, request, now);
    case Decide(id, d, strict, today) => PerformDecision(store, kg, id, d, strict, today, w);
    case Invalidate(key, ended) =>
      var n := kg.Invalidate(key, Some(ended), ended);
    case MergeNames(s, t, reviewer, rationale) =>
      var r := kg.MergeEntities(s, t, reviewer, rationale);
  }

  method PerformDecision(store: ProposalStore, kg: KnowledgeGraph, id: string, d: DecisionEntry, strict: bool,
                         today: Date, ghost w: World)
    requires Filed(store.proposals) && w.queue == store.proposals && w.graph == kg.State()
    modifies store, kg
    ensures store.proposals == Decided(w, id, d, strict, today, store.digest).queue
    ensures kg.State() == Decided(w, id, d, strict, today, store.digest).graph
    ensures Filed(store.proposals)
  {
    match d.verdict
    case Approve =>
      var r := Promote(store, kg, id, d.reviewer, d.rationale, strict, today, d.at);
    case Reject =>
      var r := RejectProposal(store, id, d.reviewer, d.rationale, d.at);
    case Reopen =>
      var r := ReopenProposal(store, id, d.reviewer, d.rationale, d.at);
  }

  function After(actions: seq<Action>, digest: Digest): World {
    if actions == [] then START
    else Next(After(actions[..|actions| - 1], digest), actions[|actions| - 1], digest)
  }

  // ----- Lifecycle over runs -----

  /** Whatever a decision does to the graph, to the queue it does one thing or nothing. */
  lemma DecidedQueue(w: World, id: string, d: DecisionEntry, strict: bool, today: Date, digest: Digest)
    ensures var queue' := Decided(w, id, d, strict, today, digest).queue;
            || queue' == w.queue
            || (Admitted(w.queue, digest, id, d.verdict, d.rationale).Ok? &&
                queue' == w.queue[id := WithDecision(w.queue[id], d)])
  {}

  lemma DecidedLifecycle(w: World, id: string, d: DecisionEntry, strict: bool, today: Date, digest: Digest)
    requires SoundQueue(w.queue, digest)
    ensures var queue' := Decided(w, id, d, strict, today, digest).queue;
            SoundQueue(queue', digest) && Later(w.queue, queue')
  {
    DecidedQueue(w, id, d, strict, today, digest);
    if Admitted(w.queue, digest, id, d.verdict, d.rationale).Ok? {
      DecisionIsLater(w.queue, digest, id, d);
    }
  }

  lemma NextLifecycle(w: World, a: Action, digest: Digest)
    requires SoundQueue(w.queue, digest)
    ensures SoundQueue(Next(w, a, digest).queue, digest)
    ensures Later(w.queue, Next(w, a, digest).queue)
  {
    match a
    case Create(r, now) =>
      if Created(w.queue, digest, r, now).Ok? {
        CreateKeepsSound(w.queue, digest, r, now);
        CreateKeepsOthers(w.queue, digest, r, now);
      }
    case Decide(id, d, strict, today) => DecidedLifecycle(w, id, d, strict, today, digest);
    case _ =>
  }

  /** Creating touches no stored proposal, not even the one it finds. */
  lemma CreateKeepsOthers(queue: Queue, digest: Digest, r: Request, now: int)
    requires Created(queue, digest, r, now).Ok?
    ensures var queue' := queue[digest(r.Bound()) := Created(queue, digest, r, now).value];
            forall id :: id in queue ==> id in queue' && queue'[id] == queue[id]
  {}

  lemma {:induction false} QueueStaysSound(actions: seq<Action>, digest: Digest)
    ensures SoundQueue(After(actions, digest).queue, digest)
  {
    if actions != [] {
      var n := |actions| - 1;
      QueueStaysSound(actions[..n], digest);
      NextLifecycle(After(actions[..n], digest), actions[n], digest);
    }
  }

  /** On every run, every stored proposal stays stored, keeps its identity and its past decisions, and has a legal
      history that decides its status and its rejection count. */
  lemma {:induction false} LifecycleHolds(actions: seq<Action>, k: nat, digest: Digest)
    requires k <= |actions|
    ensures SoundQueue(After(actions, digest).queue, digest)
    ensures Later(After(actions[..k], digest).queue, After(actions, digest).queue)
    decreases |actions|
  {
    QueueStaysSound(actions, digest);
    if k == |actions| {
      assert actions[..k] == actions;
    } else {
      var n := |actions| - 1;
      LifecycleHolds(actions[..n], k, digest);
      assert actions[..n][..k] == actions[..k];
      NextLifecycle(After(actions[..n], digest), actions[n], digest);
      LaterTrans(After(actions[..k], digest).queue, After(actions[..n], digest).queue, After(actions, digest).queue);
    }
  }

  /** Proposing the same thing again returns the stored proposal and changes nothing, whatever was decided meanwhile. */
  lemma RecreationIsNoop(w: World, r: Request, now: int, digest: Digest)
    requires r.facts != [] && digest(r.Bound()) in w.queue
    ensures Created(w.queue, digest, r, now) == Ok(w.queue[digest(r.Bound())])
    ensures Next(w, Create(r, now), digest) == w
  {
    var id := digest(r.Bound());
    assert w.queue[id := w.queue[id]] == w.queue;
  }

  // ----- Graph invariants over runs -----

  lemma StepKeepsAudit(g: Graph, op: Op, ctx: Context)
    requires Audited(g) && Step(g, op, ctx).Ok?
    ensures Audited(Step(g, op, ctx).value)
  {
    match op
    case Register(name, entity) =>
      var g' := g.(entities := g.entities[name := entity]);
      forall i | 0 <= i < |g'.rows| ensures AuditedRow(g', i) { assert AuditedRow(g, i); }
    case End(key, ended) => InvalidateKeepsAudit(g, key, if ended.Some? then ended.value else ctx.today);
    case Assert(key, validFrom, c) =>
      if !HasSource(g, key, ctx.file) {
        match Newest(g.rows, key)
        case Some(id) => CorroborateKeepsAudit(g, id, c, ctx.closet, ctx.file);
        case None => AddKeepsAudit(g, Row(key, validFrom, None, c, ctx.closet, ctx.file, 0, DEFAULT_TIER, ctx.scope));
      }
  }

  lemma StepKeepsOneScope(g: Graph, op: Op, ctx: Context)
    requires OneScope(g.rows) && Step(g, op, ctx).Ok?
    ensures OneScope(Step(g, op, ctx).value.rows)
  {
    var rows' := Step(g, op, ctx).value.rows;
    forall key, i, j | 0 <= i < |rows'| && 0 <= j < |rows'| && rows'[i].OpenAt(key) && rows'[j].OpenAt(key)
      ensures rows'[i].scope == rows'[j].scope
    {
      assert OneScopeAt(g.rows, key);
    }
  }

  lemma EndKeepsOneScope(rows: seq<Row>, key: Key, ended: Date)
    requires OneScope(rows)
    ensures OneScope(Ended(rows, key, ended))
  {
    var rows' := Ended(rows, key, ended);
    forall k, i, j | 0 <= i < |rows'| && 0 <= j < |rows'| && rows'[i].OpenAt(k) && rows'[j].OpenAt(k)
      ensures rows'[i].scope == rows'[j].scope
    {
      assert OneScopeAt(rows, k);
    }
  }

  lemma {:induction false} RunKeepsGraph(g: Graph, ops: seq<Op>, ctx: Context)
    requires Audited(g) && OneScope(g.rows) && Run(g, ops, ctx).Ok?
    ensures Audited(Run(g, ops, ctx).value) && OneScope(Run(g, ops, ctx).value.rows)
  {
    if ops != [] {
      var n := |ops| - 1;
      RunKeepsGraph(g, ops[..n], ctx);
      StepKeepsAudit(Run(g, ops[..n], ctx).value, ops[n], ctx);
      StepKeepsOneScope(Run(g, ops[..n], ctx).value, ops[n], ctx);
    }
  }

  lemma DecidedKeepsGraph(w: World, id: string, d: DecisionEntry, strict: bool, today: Date, digest: Digest)
    requires Audited(w.graph) && OneScope(w.graph.rows)
    ensures var g := Decided(w, id, d, strict, today, digest).graph; Audited(g) && OneScope(g.rows)
  {
    if d.verdict == Approve && Promoted(w.graph, w.queue, digest, id, d, strict, today).Ok? {
      var p := w.queue[id];
      ScanSound(w.graph, p.facts, AllOps(p.facts), ContextOf(p, today));
      RunKeepsGraph(w.graph, AllOps(p.facts), ContextOf(p, today));
    }
  }

  lemma DeadKeepsGraph(w: World, id: string, rationale: string, strict: bool, today: Date, writes: nat,
                       digest: Digest)
    requires Audited(w.graph) && OneScope(w.graph.rows)
    ensures var g := Dead(w, id, rationale, strict, today, writes, digest).graph; Audited(g) && OneScope(g.rows)
  {
    if CanDie(w, id, rationale, strict, today, writes, digest) {
      var p := w.queue[id];
      CanCut(w.graph, p.facts, ContextOf(p, today), strict, writes);
      RunKeepsGraph(w.graph, AllOps(p.facts)[..writes], ContextOf(p, today));
    }
  }

  lemma NextKeepsGraph(w: World, a: Action, digest: Digest)
    requires Audited(w.graph) && OneScope(w.graph.rows)
    ensures Audited(Next(w, a, digest).graph) && OneScope(Next(w, a, digest).graph.rows)
  {
    match a
    case Create(_, _) =>
    case Decide(id, d, strict, today) => DecidedKeepsGraph(w, id, d, strict, today, digest);
    case Die(id, rationale, strict, today, writes) => DeadKeepsGraph(w, id, rationale, strict, today, writes, digest);
    case Invalidate(key, ended) =>
      InvalidateKeepsAudit(w.graph, key, ended);
      EndKeepsOneScope(w.graph.rows, key, ended);
    case MergeNames(s, t, reviewer, rationale) =>
      if s != t && !MixesScopes(w.graph.rows, s, t) {
        MergeKeepsAudit(w.graph, s, t, reviewer, rationale);
        MergeKeepsOneScope(w.graph.rows, s, t);
      }
  }

  /** On every run, each row has one provenance row more than its corroboration count and the confidence the last of
      them recorded, and all currently-true rows of one triple carry one scope. */
  lemma {:induction false} GraphInvariantsHold(actions: seq<Action>, digest: Digest)
    ensures Audited(After(actions, digest).graph)
    ensures OneScope(After(actions, digest).graph.rows)
  {
    if actions != [] {
      var n := |actions| - 1;
      GraphInvariantsHold(actions[..n], digest);
      NextKeepsGraph(After(actions[..n], digest), actions[n], digest);
    }
  }
}
