/** Applying a proposal's facts to the graph: the two read-only scans, and the pass of individually committed
    writes. A pass is a flat list of operations, so a crash is a prefix of that list. */
module Promotion {
  import opened Common
  import opened Confidence
  import opened TripleStore
  import opened Extraction

  const PREFERS := "prefers"
  const EVENT := "event"

  /** What every write of one proposal shares; `today` is the clock's date when an update names no date. */
  datatype Context = Context(closet: Option<string>, file: Option<string>, scope: string, today: Date)

  /** One committed write of pass 2. */
  datatype Op =
    | Register(name: string, entity: Entity)
    | End(key: Key, ended: Option<Date>)
    | Assert(key: Key, validFrom: Option<Date>, confidence: Confidence)

  function Ops(fact: Fact): seq<Op> {
    match fact
    case IdentityFact(_, _, name, entityType, properties, _) => [Register(name, Entity(entityType, properties))]
    case RelationshipFact(_, c, s, p, o) =>
      [Register(s, UNKNOWN_ENTITY), Register(o, UNKNOWN_ENTITY), Assert(Key(s, p, o), None, c)]
    case PreferenceFact(_, c, s, o) => [Register(s, UNKNOWN_ENTITY), Assert(Key(s, PREFERS, o), None, c)]
    case EventFact(_, c, name, date, d) => [Register(name, UNKNOWN_ENTITY), Assert(Key(name, EVENT, d), date, c)]
    case UpdateFact(_, c, s, p, o, prior, date) =>
      [Register(s, UNKNOWN_ENTITY)] +
      (if fact.Supersedes() then [End(Key(s, p, prior.value), date)] else []) +
      [Assert(Key(s, p, o), date, c)]
    case OpenQuestion(_, _, _, _) => []
  }

  function AllOps(facts: seq<Fact>): seq<Op> {
    if facts == [] then [] else AllOps(facts[..|facts| - 1]) + Ops(facts[|facts| - 1])
  }

  /** Corroborate-or-add, skipped when this report is already recorded on a currently-true row. */
  function Asserted(g: Graph, key: Key, validFrom: Option<Date>, confidence: Confidence, ctx: Context):
    Result<Graph, GraphError>
  {
    if HasSource(g, key, ctx.file) then Ok(g)
    else
      match Newest(g.rows, key)
      case Some(id) =>
        if g.rows[id].scope != ctx.scope then Err(ScopeMismatch(g.rows[id].scope, ctx.scope))
        else Ok(Bumped(g, id, confidence, ctx.closet, ctx.file))
      case None =>
        Ok(Added(g, Row(key, validFrom, None, confidence, ctx.closet, ctx.file, 0, DEFAULT_TIER, ctx.scope)))
  }

  function Step(g: Graph, op: Op, ctx: Context): Result<Graph, GraphError> {
    match op
    case Register(name, entity) => Ok(g.(entities := g.entities[name := entity]))
    case End(key, ended) => Ok(g.(rows := Ended(g.rows, key, if ended.Some? then ended.value else ctx.today)))
    case Assert(key, validFrom, confidence) => Asserted(g, key, validFrom, confidence, ctx)
  }

  /** The graph after a list of committed writes, or the first error one of them raised. */
  function Run(g: Graph, ops: seq<Op>, ctx: Context): Result<Graph, GraphError> {
    if ops == [] then Ok(g)
    else
      var front := Run(g, ops[..|ops| - 1], ctx);
      if front.Err? then front else Step(front.value, ops[|ops| - 1], ctx)
  }

  // ----- Which keys are open after a run -----

  /** The key has a currently-true row once the writes are through. */
  predicate OpenAfter(g: Graph, ops: seq<Op>, key: Key) {
    if ops == [] then Newest(g.rows, key).Some?
    else
      var last := ops[|ops| - 1];
      if last.Register? || last.key != key then OpenAfter(g, ops[..|ops| - 1], key) else last.Assert?
  }

  lemma StepOpenAt(g: Graph, op: Op, ctx: Context, key: Key)
    requires Step(g, op, ctx).Ok?
    ensures Newest(Step(g, op, ctx).value.rows, key).Some? <==>
            if op.Register? || op.key != key then Newest(g.rows, key).Some? else op.Assert?
  {
    var rows, rows' := g.rows, Step(g, op, ctx).value.rows;
    var before, after := Newest(rows, key), Newest(rows', key);
    if after.Some? && (op.Register? || op.key != key) {
      assert rows[after.value].OpenAt(key);
    }
    if before.Some? && (op.Register? || op.key != key) {
      assert rows'[before.value].OpenAt(key);
    }
    if op.Assert? && op.key == key {
      var i := AssertOpens(g, op, ctx);
    }
  }

  /** A key just asserted is currently true. */
  lemma AssertOpens(g: Graph, op: Op, ctx: Context) returns (i: nat)
    requires op.Assert? && Step(g, op, ctx).Ok?
    ensures i < |Step(g, op, ctx).value.rows| && Step(g, op, ctx).value.rows[i].OpenAt(op.key)
  {
    if HasSource(g, op.key, ctx.file) {
      var j :| 0 <= j < |g.sources| && Records(g, g.sources[j], op.key, ctx.file);
      i := g.sources[j].tripleId;
    } else {
      var newest := Newest(g.rows, op.key);
      i := if newest.Some? then newest.value else |g.rows|;
    }
  }

  lemma {:induction false} OpenAfterRun(g: Graph, ops: seq<Op>, ctx: Context, key: Key)
    requires Run(g, ops, ctx).Ok?
    ensures Newest(Run(g, ops, ctx).value.rows, key).Some? <==> OpenAfter(g, ops, key)
  {
    if ops != [] {
      OpenAfterRun(g, ops[..|ops| - 1], ctx, key);
      StepOpenAt(Run(g, ops[..|ops| - 1], ctx).value, ops[|ops| - 1], ctx, key);
    }
  }

  // ----- The pre-flight scans -----

  datatype ScopeConflict = ScopeConflict(key: Key, existing: string)

  /** The keys the scope scan looks up for one fact, in its order. */
  function ScannedKeys(fact: Fact): seq<Key> {
    match fact
    case IdentityFact(_, _, _, _, _, _) => []
    case RelationshipFact(_, _, s, p, o) => [Key(s, p, o)]
    case PreferenceFact(_, _, s, o) => [Key(s, PREFERS, o)]
    case EventFact(_, _, name, _, d) => [Key(name, EVENT, d)]
    case UpdateFact(_, _, s, p, o, prior, _) =>
      (if fact.Supersedes() then [Key(s, p, prior.value)] else []) + [Key(s, p, o)]
    case OpenQuestion(_, _, _, _) => []
  }

  /** The fact states the triple or supersedes it. */
  predicate Concerns(fact: Fact, key: Key) {
    || StatesTriple(fact, key.subject, key.pred, key.obj)
    || (fact.UpdateFact? && fact.supersedes == Some(key.obj) && key.obj != "" && key.subject == fact.subject &&
        key.pred == fact.pred)
  }

  lemma ScannedKeysAre(fact: Fact, key: Key)
    ensures key in ScannedKeys(fact) <==> Concerns(fact, key)
  {}

  function ScopeConflictAt(rows: seq<Row>, key: Key, scope: string): seq<ScopeConflict> {
    match Newest(rows, key)
    case Some(id) => if rows[id].scope != scope then [ScopeConflict(key, rows[id].scope)] else []
    case None => []
  }

  function ScopeConflictsOf(rows: seq<Row>, keys: seq<Key>, scope: string): seq<ScopeConflict> {
    if keys == [] then []
    else ScopeConflictsOf(rows, keys[..|keys| - 1], scope) + ScopeConflictAt(rows, keys[|keys| - 1], scope)
  }

  function ScopeConflicts(rows: seq<Row>, facts: seq<Fact>, scope: string): seq<ScopeConflict> {
    if facts == [] then []
    else
      ScopeConflicts(rows, facts[..|facts| - 1], scope) +
      ScopeConflictsOf(rows, ScannedKeys(facts[|facts| - 1]), scope)
  }

  function WarningsOf(rows: seq<Row>, fact: Fact): seq<Warning> {
    match fact
    case IdentityFact(_, _, _, _, _, _) => []
    case RelationshipFact(_, _, s, p, o) => Warnings(rows, Key(s, p, o), DEFAULT_TIER)
    case PreferenceFact(_, _, s, o) => Warnings(rows, Key(s, PREFERS, o), DEFAULT_TIER)
    case EventFact(_, _, name, _, d) => Warnings(rows, Key(name, EVENT, d), DEFAULT_TIER)
    case UpdateFact(_, _, s, p, o, prior, _) =>
      var found := Warnings(rows, Key(s, p, o), DEFAULT_TIER);
      if fact.Supersedes() then Filter(found, (w: Warning) => w.conflictingObject != prior.value) else found
    case OpenQuestion(_, _, _, _) => []
  }

  function AllWarnings(rows: seq<Row>, facts: seq<Fact>): seq<Warning> {
    if facts == [] then [] else AllWarnings(rows, facts[..|facts| - 1]) + WarningsOf(rows, facts[|facts| - 1])
  }

  /** The triple a fact of a kind that lands in `triples` states. */
  predicate StatesTriple(fact: Fact, subject: string, pred: string, obj: string) {
    match fact
    case IdentityFact(_, _, _, _, _, _) => false
    case RelationshipFact(_, _, s, p, o) => s == subject && p == pred && o == obj
    case PreferenceFact(_, _, s, o) => s == subject && pred == "prefers" && o == obj
    case EventFact(_, _, name, _, d) => name == subject && pred == "event" && d == obj
    case UpdateFact(_, _, s, p, o, _, _) => s == subject && p == pred && o == obj
    case OpenQuestion(_, _, _, _) => false
  }

  /** The warning is about the row, which the fact contradicts and does not supersede. */
  predicate WarnsOf(w: Warning, fact: Fact, row: Row) {
    && StatesTriple(fact, w.subject, w.pred, w.newObject) && w.newTier == Decision
    && row.validTo.None? && row.key == Key(w.subject, w.pred, w.conflictingObject) && row.tier == w.conflictingTier
    && w.conflictingObject != w.newObject
    && (fact.UpdateFact? && fact.supersedes.Some? && fact.supersedes.value != "" ==>
          w.conflictingObject != fact.supersedes.value)
  }

  lemma WarningsNamed(rows: seq<Row>, key: Key, w: Warning)
    ensures w in Warnings(rows, key, DEFAULT_TIER) <==>
            && w.subject == key.subject && w.pred == key.pred && w.newObject == key.obj && w.newTier == Decision
            && w.conflictingObject != w.newObject
            && exists r :: r in rows && r.validTo.None? && r.key == Key(w.subject, w.pred, w.conflictingObject) &&
                           r.tier == w.conflictingTier
  {
    WarningsAre(rows, key, DEFAULT_TIER);
    var chosen := Filter(rows, (r: Row) => r.validTo.None? && r.key.subject == key.subject &&
                                           r.key.pred == key.pred && r.key.obj != key.obj);
    FilterMembers(rows, (r: Row) => r.validTo.None? && r.key.subject == key.subject &&
                                    r.key.pred == key.pred && r.key.obj != key.obj);
    var all := Warnings(rows, key, DEFAULT_TIER);
    assert |all| == |chosen|;
    if w in all {
      var i :| 0 <= i < |all| && all[i] == w;
      assert chosen[i] in chosen;
    }
    if r :| r in rows && r.validTo.None? && r.key == Key(w.subject, w.pred, w.conflictingObject) &&
            r.tier == w.conflictingTier && w.subject == key.subject && w.pred == key.pred && w.newObject == key.obj &&
            w.newTier == Decision && w.conflictingObject != w.newObject {
      assert r in chosen;
      var i :| 0 <= i < |chosen| && chosen[i] == r;
      assert all[i] == w;
    }
  }

  predicate WarnedBy(w: Warning, fact: Fact, rows: seq<Row>) {
    exists r :: r in rows && WarnsOf(w, fact, r)
  }

  predicate WarnedByAny(w: Warning, facts: seq<Fact>, rows: seq<Row>) {
    exists f :: 0 <= f < |facts| && WarnedBy(w, facts[f], rows)
  }

  lemma WarnedByLast(w: Warning, front: seq<Fact>, last: Fact, rows: seq<Row>)
    ensures WarnedByAny(w, front + [last], rows) <==> WarnedByAny(w, front, rows) || WarnedBy(w, last, rows)
  {
    var facts := front + [last];
    assert facts[|front|] == last && forall f :: 0 <= f < |front| ==> facts[f] == front[f];
  }

  /** The coherence scan names every currently-true row that some fact contradicts and does not supersede, with both
      objects and both tiers, and nothing else. */
  lemma {:induction false} AllWarningsNamed(rows: seq<Row>, facts: seq<Fact>, w: Warning)
    ensures w in AllWarnings(rows, facts) <==> WarnedByAny(w, facts, rows)
  {
    if facts != [] {
      var front, last := facts[..|facts| - 1], facts[|facts| - 1];
      AllWarningsNamed(rows, front, w);
      FactWarningsNamed(rows, last, w);
      WarnedByLast(w, front, last, rows);
      assert front + [last] == facts;
    }
  }

  lemma FactWarningsNamed(rows: seq<Row>, fact: Fact, w: Warning)
    ensures w in WarningsOf(rows, fact) <==> WarnedBy(w, fact, rows)
  {
    match fact
    case RelationshipFact(_, _, s, p, o) => WarningsNamed(rows, Key(s, p, o), w);
    case PreferenceFact(_, _, s, o) => WarningsNamed(rows, Key(s, PREFERS, o), w);
    case EventFact(_, _, name, _, d) => WarningsNamed(rows, Key(name, EVENT, d), w);
    case UpdateFact(_, _, s, p, o, prior, _) =>
      WarningsNamed(rows, Key(s, p, o), w);
      if fact.Supersedes() {
        FilterMembers(Warnings(rows, Key(s, p, o), DEFAULT_TIER), (w: Warning) => w.conflictingObject != prior.value);
      }
    case _ =>
  }

  datatype ApplyError = ScopeBlocked(scopeConflicts: seq<ScopeConflict>) | CoherenceBlocked(warnings: seq<Warning>)

  /** What `_apply_facts` leaves behind: an error and no write at all, or the whole run. */
  function Applied(g: Graph, facts: seq<Fact>, ctx: Context, strict: bool): Result<Graph, ApplyError> {
    var conflicts := ScopeConflicts(g.rows, facts, ctx.scope);
    var warnings := AllWarnings(g.rows, facts);
    if conflicts != [] then Err(ScopeBlocked(conflicts))
    else if strict && warnings != [] then Err(CoherenceBlocked(warnings))
    else
      ScanSound(g, facts, AllOps(facts), ctx);
      Ok(Run(g, AllOps(facts), ctx).value)
  }

  // ----- The scope scan is sound for the whole pass -----

  /** Corroborating at `key` under `scope` would be accepted right now. */
  predicate ScopeAgrees(rows: seq<Row>, key: Key, scope: string) {
    var newest := Newest(rows, key);
    newest.Some? ==> rows[newest.value].scope == scope
  }

  predicate AllAgree(rows: seq<Row>, keys: set<Key>, scope: string) {
    forall k :: k in keys ==> ScopeAgrees(rows, k, scope)
  }

  predicate OpKeyAgrees(rows: seq<Row>, op: Op, scope: string) {
    op.Register? || ScopeAgrees(rows, op.key, scope)
  }

  lemma NewestIs(rows: seq<Row>, key: Key, i: nat)
    requires i < |rows| && rows[i].OpenAt(key)
    requires forall j :: i < j < |rows| ==> !rows[j].OpenAt(key)
    ensures Newest(rows, key) == Some(i)
  {
    var newest := Newest(rows, key);
    assert newest.Some?;
    assert !(newest.value < i) && !(i < newest.value);
  }

  lemma AddedAgrees(rows: seq<Row>, row: Row, key: Key, scope: string)
    requires ScopeAgrees(rows, key, scope) && row.scope == scope
    ensures ScopeAgrees(rows + [row], key, scope)
  {
    assert (rows + [row])[..|rows|] == rows;
  }

  lemma BumpedAgrees(rows: seq<Row>, id: nat, row: Row, key: Key, scope: string)
    requires id < |rows| && row.key == rows[id].key && row.validTo == rows[id].validTo && row.scope == rows[id].scope
    requires ScopeAgrees(rows, key, scope)
    ensures ScopeAgrees(rows[id := row], key, scope)
  {
    var newest := Newest(rows[id := row], key);
    if newest.Some? {
      forall j | newest.value < j < |rows|
        ensures !rows[j].OpenAt(key)
      {
        assert !rows[id := row][j].OpenAt(key);
      }
      NewestIs(rows, key, newest.value);
    }
  }

  lemma EndedAgrees(rows: seq<Row>, target: Key, ended: Date, key: Key, scope: string)
    requires ScopeAgrees(rows, key, scope)
    ensures ScopeAgrees(Ended(rows, target, ended), key, scope)
  {
    var newest := Newest(Ended(rows, target, ended), key);
    if newest.Some? {
      forall j | newest.value < j < |rows|
        ensures !rows[j].OpenAt(key)
      {
        assert !Ended(rows, target, ended)[j].OpenAt(key);
      }
      NewestIs(rows, key, newest.value);
    }
  }

  /** A write that meets an agreeing scope goes through and leaves every agreeing key agreeing. */
  lemma StepKeepsAgreement(g: Graph, op: Op, ctx: Context, key: Key)
    requires OpKeyAgrees(g.rows, op, ctx.scope) && ScopeAgrees(g.rows, key, ctx.scope)
    ensures Step(g, op, ctx).Ok? && ScopeAgrees(Step(g, op, ctx).value.rows, key, ctx.scope)
  {
    match op
    case Register(_, _) =>
    case End(target, ended) =>
      EndedAgrees(g.rows, target, if ended.Some? then ended.value else ctx.today, key, ctx.scope);
    case Assert(target, validFrom, confidence) =>
      if !HasSource(g, target, ctx.file) {
        match Newest(g.rows, target)
        case Some(id) =>
          var row := g.rows[id];
          BumpedAgrees(g.rows, id, row.(confidence := Corroborated(row.confidence, confidence), count := row.count + 1),
                       key, ctx.scope);
        case None =>
          AddedAgrees(g.rows,
                      Row(target, validFrom, None, confidence, ctx.closet, ctx.file, 0, DEFAULT_TIER, ctx.scope),
                      key, ctx.scope);
      }
  }

  /** Any list of writes whose keys all agree at the start runs to its end without a scope error. */
  lemma {:induction false} RunKeepsAgreement(g: Graph, ops: seq<Op>, ctx: Context, keys: set<Key>)
    requires AllAgree(g.rows, keys, ctx.scope)
    requires forall i :: 0 <= i < |ops| && !ops[i].Register? ==> ops[i].key in keys
    ensures Run(g, ops, ctx).Ok?
    ensures AllAgree(Run(g, ops, ctx).value.rows, keys, ctx.scope)
  {
    if ops != [] {
      var n := |ops| - 1;
      RunKeepsAgreement(g, ops[..n], ctx, keys);
      var g' := Run(g, ops[..n], ctx).value;
      assert OpKeyAgrees(g'.rows, ops[n], ctx.scope);
      if keys == {} {
        assert ops[n].Register?;
      }
      forall k | k in keys
        ensures Step(g', ops[n], ctx).Ok? && ScopeAgrees(Step(g', ops[n], ctx).value.rows, k, ctx.scope)
      {
        StepKeepsAgreement(g', ops[n], ctx, k);
      }
    }
  }

  function KeySet(keys: seq<Key>): set<Key> {
    set k | k in keys
  }

  lemma ConcatEmpty<T>(a: seq<T>, b: seq<T>)
    ensures a + b == [] <==> a == [] && b == []
  {
    assert |a + b| == |a| + |b|;
  }

  lemma UnionAgrees(rows: seq<Row>, a: set<Key>, b: set<Key>, scope: string)
    ensures AllAgree(rows, a + b, scope) <==> AllAgree(rows, a, scope) && AllAgree(rows, b, scope)
  {}

  lemma OneAgrees(rows: seq<Row>, key: Key, scope: string)
    ensures ScopeConflictAt(rows, key, scope) == [] <==> AllAgree(rows, {key}, scope)
  {
    assert AllAgree(rows, {key}, scope) <==> ScopeAgrees(rows, key, scope);
  }

  lemma KeySetSnoc(front: seq<Key>, last: Key)
    ensures KeySet(front + [last]) == KeySet(front) + {last}
  {}

  lemma {:induction false} NoConflictsOf(rows: seq<Row>, keys: seq<Key>, scope: string)
    ensures ScopeConflictsOf(rows, keys, scope) == [] <==> AllAgree(rows, KeySet(keys), scope)
  {
    if keys != [] {
      var front, last := keys[..|keys| - 1], keys[|keys| - 1];
      NoConflictsOf(rows, front, scope);
      ConcatEmpty(ScopeConflictsOf(rows, front, scope), ScopeConflictAt(rows, last, scope));
      OneAgrees(rows, last, scope);
      assert keys == front + [last];
      KeySetSnoc(front, last);
      UnionAgrees(rows, KeySet(front), {last}, scope);
    }
  }

  /** Every key that pass 2 may write or end. */
  function TouchedKeys(facts: seq<Fact>): set<Key> {
    if facts == [] then {} else TouchedKeys(facts[..|facts| - 1]) + KeySet(ScannedKeys(facts[|facts| - 1]))
  }

  lemma {:induction false} ScanEmptyMeans(rows: seq<Row>, facts: seq<Fact>, scope: string)
    ensures ScopeConflicts(rows, facts, scope) == [] <==> AllAgree(rows, TouchedKeys(facts), scope)
  {
    if facts != [] {
      var n := |facts| - 1;
      var keys := KeySet(ScannedKeys(facts[n]));
      ScanEmptyMeans(rows, facts[..n], scope);
      NoConflictsOf(rows, ScannedKeys(facts[n]), scope);
      ConcatEmpty(ScopeConflicts(rows, facts[..n], scope), ScopeConflictsOf(rows, ScannedKeys(facts[n]), scope));
      UnionAgrees(rows, TouchedKeys(facts[..n]), keys, scope);
      assert TouchedKeys(facts) == TouchedKeys(facts[..n]) + keys;
    }
  }

  lemma {:induction false} TouchedKeysAre(facts: seq<Fact>, key: Key)
    ensures key in TouchedKeys(facts) <==> exists f :: 0 <= f < |facts| && Concerns(facts[f], key)
  {
    if facts != [] {
      var n := |facts| - 1;
      TouchedKeysAre(facts[..n], key);
      ScannedKeysAre(facts[n], key);
      assert forall f :: 0 <= f < n ==> facts[..n][f] == facts[f];
    }
  }

  lemma {:induction false} ConflictsNamed(rows: seq<Row>, keys: seq<Key>, scope: string, c: ScopeConflict)
    ensures c in ScopeConflictsOf(rows, keys, scope) <==> c.key in keys && ConflictsAt(rows, scope, c)
  {
    if keys != [] {
      ConflictsNamed(rows, keys[..|keys| - 1], scope, c);
      assert c.key in keys <==> c.key in keys[..|keys| - 1] || c.key == keys[|keys| - 1];
    }
  }

  /** The newest currently-true row of the triple has that scope, and it is not the proposal's. */
  predicate ConflictsAt(rows: seq<Row>, scope: string, c: ScopeConflict) {
    c.existing != scope &&
    exists i :: 0 <= i < |rows| && rows[i].key == c.key && rows[i].validTo.None? && rows[i].scope == c.existing &&
                forall j :: i < j < |rows| && rows[j].key == c.key ==> rows[j].validTo.Some?
  }

  lemma {:induction false} ConflictsOfAll(rows: seq<Row>, facts: seq<Fact>, scope: string, c: ScopeConflict)
    ensures c in ScopeConflicts(rows, facts, scope) <==> c.key in TouchedKeys(facts) && ConflictsAt(rows, scope, c)
  {
    if facts != [] {
      ConflictsOfAll(rows, facts[..|facts| - 1], scope, c);
      ConflictsNamed(rows, ScannedKeys(facts[|facts| - 1]), scope, c);
    }
  }

  /** The scope scan names every triple that a fact states or supersedes and whose newest currently-true row has another
      scope than the proposal, with that scope, and nothing else. */
  lemma ScopeConflictsNamed(rows: seq<Row>, facts: seq<Fact>, scope: string, c: ScopeConflict)
    ensures c in ScopeConflicts(rows, facts, scope) <==>
            (exists f :: 0 <= f < |facts| && Concerns(facts[f], c.key)) && ConflictsAt(rows, scope, c)
  {
    ConflictsOfAll(rows, facts, scope, c);
    TouchedKeysAre(facts, c.key);
  }

  lemma OpsTouchOwnKeys(fact: Fact)
    ensures forall i :: 0 <= i < |Ops(fact)| && !Ops(fact)[i].Register? ==> Ops(fact)[i].key in ScannedKeys(fact)
  {}

  lemma {:induction false} OpsTouchScannedKeys(facts: seq<Fact>)
    ensures forall i :: 0 <= i < |AllOps(facts)| && !AllOps(facts)[i].Register? ==>
            AllOps(facts)[i].key in TouchedKeys(facts)
  {
    if facts != [] {
      var n := |facts| - 1;
      OpsTouchScannedKeys(facts[..n]);
      OpsTouchOwnKeys(facts[n]);
    }
  }

  /** An empty scope scan of the starting graph means that no write of the pass, at whatever point it is cut, can meet
      a row of another scope, and that the scan would be empty again at that point. */
  lemma ScanSound(g: Graph, facts: seq<Fact>, ops: seq<Op>, ctx: Context)
    requires ScopeConflicts(g.rows, facts, ctx.scope) == [] && ops <= AllOps(facts)
    ensures Run(g, ops, ctx).Ok?
    ensures ScopeConflicts(Run(g, ops, ctx).value.rows, facts, ctx.scope) == []
  {
    ScanEmptyMeans(g.rows, facts, ctx.scope);
    OpsTouchScannedKeys(facts);
    forall i | 0 <= i < |ops| && !ops[i].Register?
      ensures ops[i].key in TouchedKeys(facts)
    {
      assert ops[i] == AllOps(facts)[i];
    }
    RunKeepsAgreement(g, ops, ctx, TouchedKeys(facts));
    ScanEmptyMeans(Run(g, ops, ctx).value.rows, facts, ctx.scope);
  }

  // ----- The methods -----

  method AddOrCorroborate(kg: KnowledgeGraph, key: Key, validFrom: Option<Date>, confidence: Confidence, ctx: Context)
    returns (r: Result<(), GraphError>)
    modifies kg
    ensures r.Ok? ==> Asserted(old(kg.State()), key, validFrom, confidence, ctx) == Ok(kg.State())
    ensures r.Err? ==> kg.State() == old(kg.State()) && Asserted(kg.State(), key, validFrom, confidence, ctx).Err?
  {
    var recorded := kg.HasTripleSource(key, ctx.file);
    if recorded {
      return Ok(());
    }
    var existing := kg.FindCurrentTriple(key);
    if existing.Some? {
      var c := kg.Corroborate(key, confidence, ctx.closet, ctx.file, ctx.scope);
      return if c.Ok? then Ok(()) else Err(c.error);
    }
    var added := kg.AddTriple(key, validFrom, None, confidence, ctx.closet, ctx.file, DEFAULT_TIER, ctx.scope);
    return Ok(());
  }

  method ScanKey(kg: KnowledgeGraph, key: Key, scope: string) returns (errors: seq<ScopeConflict>)
    ensures errors == ScopeConflictAt(kg.triples, key, scope)
  {
    var existing := kg.FindCurrentTriple(key);
    if existing.Some? && kg.triples[existing.value].scope != scope {
      return [ScopeConflict(key, kg.triples[existing.value].scope)];
    }
    return [];
  }

  /** The lookups of the scope scan for one fact. */
  method ScanFact(kg: KnowledgeGraph, fact: Fact, scope: string) returns (errors: seq<ScopeConflict>)
    ensures errors == ScopeConflictsOf(kg.triples, ScannedKeys(fact), scope)
  {
    FewConflicts(kg.triples, ScannedKeys(fact), scope);
    errors := [];
    match fact
    case RelationshipFact(_, _, s, p, o) => errors := ScanKey(kg, Key(s, p, o), scope);
    case PreferenceFact(_, _, s, o) => errors := ScanKey(kg, Key(s, PREFERS, o), scope);
    case EventFact(_, _, name, _, d) => errors := ScanKey(kg, Key(name, EVENT, d), scope);
    case UpdateFact(_, _, s, p, o, prior, _) =>
      if fact.Supersedes() {
        errors := ScanKey(kg, Key(s, p, prior.value), scope);
      }
      var e := ScanKey(kg, Key(s, p, o), scope);
      errors := errors + e;
    case _ =>
  }

  method ScopeScan(kg: KnowledgeGraph, facts: seq<Fact>, scope: string) returns (errors: seq<ScopeConflict>)
    ensures errors == ScopeConflicts(kg.triples, facts, scope)
  {
    errors := [];
    for i := 0 to |facts|
      invariant errors == ScopeConflicts(kg.triples, facts[..i], scope)
    {
      assert facts[..i + 1][..i] == facts[..i];
      var e := ScanFact(kg, facts[i], scope);
      errors := errors + e;
    }
    assert facts[..|facts|] == facts;
  }

  lemma FewConflicts(rows: seq<Row>, keys: seq<Key>, scope: string)
    ensures |keys| == 0 ==> ScopeConflictsOf(rows, keys, scope) == []
    ensures |keys| == 1 ==> ScopeConflictsOf(rows, keys, scope) == ScopeConflictAt(rows, keys[0], scope)
    ensures |keys| == 2 ==>
              ScopeConflictsOf(rows, keys, scope) ==
              ScopeConflictAt(rows, keys[0], scope) + ScopeConflictAt(rows, keys[1], scope)
  {
    if |keys| == 1 {
      assert keys[..0] == [];
    } else if |keys| == 2 {
      assert keys[..1] == [keys[0]];
      FewConflicts(rows, keys[..1], scope);
    }
  }

  method CoherenceScan(kg: KnowledgeGraph, facts: seq<Fact>) returns (warnings: seq<Warning>)
    ensures warnings == AllWarnings(kg.triples, facts)
  {
    warnings := [];
    for i := 0 to |facts|
      invariant warnings == AllWarnings(kg.triples, facts[..i])
    {
      assert facts[..i + 1][..i] == facts[..i];
      match facts[i]
      case RelationshipFact(_, _, s, p, o) =>
        var w := kg.CheckCoherence(Key(s, p, o), DEFAULT_TIER);
        warnings := warnings + w;
      case PreferenceFact(_, _, s, o) =>
        var w := kg.CheckCoherence(Key(s, PREFERS, o), DEFAULT_TIER);
        warnings := warnings + w;
      case EventFact(_, _, name, _, d) =>
        var w := kg.CheckCoherence(Key(name, EVENT, d), DEFAULT_TIER);
        warnings := warnings + w;
      case UpdateFact(_, _, s, p, o, prior, _) =>
        var w := kg.CheckCoherence(Key(s, p, o), DEFAULT_TIER);
        if facts[i].Supersedes() {
          w := Filter(w, (x: Warning) => x.conflictingObject != prior.value);
        }
        warnings := warnings + w;
      case _ =>
    }
    assert facts[..|facts|] == facts;
  }

  lemma {:induction false} RunAppend(g: Graph, ops: seq<Op>, more: seq<Op>, ctx: Context)
    ensures Run(g, ops + more, ctx) ==
            if Run(g, ops, ctx).Err? then Run(g, ops, ctx) else Run(Run(g, ops, ctx).value, more, ctx)
  {
    if more == [] {
      assert ops + more == ops;
    } else {
      var n := |more| - 1;
      RunAppend(g, ops, more[..n], ctx);
      assert (ops + more)[..|ops + more| - 1] == ops + more[..n];
    }
  }

  /** A short run, unfolded from its first write on. */
  lemma RunSteps(g: Graph, ops: seq<Op>, ctx: Context)
    requires |ops| <= 3
    ensures Run(g, ops, ctx) ==
            if |ops| == 0 then Ok(g)
            else
              var g1 := Step(g, ops[0], ctx);
              if g1.Err? || |ops| == 1 then g1
              else
                var g2 := Step(g1.value, ops[1], ctx);
                if g2.Err? || |ops| == 2 then g2 else Step(g2.value, ops[2], ctx)
  {
    if |ops| == 1 {
      assert ops[..0] == [];
    } else if |ops| == 2 {
      RunSteps(g, ops[..1], ctx);
    } else if |ops| == 3 {
      RunSteps(g, ops[..2], ctx);
    }
  }

  method ApplyIdentity(kg: KnowledgeGraph, fact: Fact, ctx: Context)
    requires fact.IdentityFact?
    modifies kg
    ensures Run(old(kg.State()), Ops(fact), ctx) == Ok(kg.State())
  {
    RunSteps(kg.State(), Ops(fact), ctx);
    kg.AddEntity(fact.name, Entity(fact.entityType, fact.properties));
  }

  method ApplyRelationship(kg: KnowledgeGraph, fact: Fact, ctx: Context)
    requires fact.RelationshipFact? && Run(kg.State(), Ops(fact), ctx).Ok?
    modifies kg
    ensures Run(old(kg.State()), Ops(fact), ctx) == Ok(kg.State())
  {
    RunSteps(kg.State(), Ops(fact), ctx);
    kg.AddEntity(fact.subject, UNKNOWN_ENTITY);
    kg.AddEntity(fact.obj, UNKNOWN_ENTITY);
    var r := AddOrCorroborate(kg, Key(fact.subject, fact.pred, fact.obj), None, fact.confidence, ctx);
  }

  method ApplyPreference(kg: KnowledgeGraph, fact: Fact, ctx: Context)
    requires fact.PreferenceFact? && Run(kg.State(), Ops(fact), ctx).Ok?
    modifies kg
    ensures Run(old(kg.State()), Ops(fact), ctx) == Ok(kg.State())
  {
    RunSteps(kg.State(), Ops(fact), ctx);
    kg.AddEntity(fact.subject, UNKNOWN_ENTITY);
    var r := AddOrCorroborate(kg, Key(fact.subject, PREFERS, fact.preference), None, fact.confidence, ctx);
  }

  method ApplyEvent(kg: KnowledgeGraph, fact: Fact, ctx: Context)
    requires fact.EventFact? && Run(kg.State(), Ops(fact), ctx).Ok?
    modifies kg
    ensures Run(old(kg.State()), Ops(fact), ctx) == Ok(kg.State())
  {
    RunSteps(kg.State(), Ops(fact), ctx);
    kg.AddEntity(fact.name, UNKNOWN_ENTITY);
    var r := AddOrCorroborate(kg, Key(fact.name, EVENT, fact.description), fact.eventDate, fact.confidence, ctx);
  }

  method ApplyUpdate(kg: KnowledgeGraph, fact: Fact, ctx: Context)
    requires fact.UpdateFact? && Run(kg.State(), Ops(fact), ctx).Ok?
    modifies kg
    ensures Run(old(kg.State()), Ops(fact), ctx) == Ok(kg.State())
  {
    RunSteps(kg.State(), Ops(fact), ctx);
    kg.AddEntity(fact.subject, UNKNOWN_ENTITY);
    if fact.Supersedes() {
      var n := kg.Invalidate(Key(fact.subject, fact.pred, fact.supersedes.value), fact.effective, ctx.today);
    }
    var r := AddOrCorroborate(kg, Key(fact.subject, fact.pred, fact.newObject), fact.effective, fact.confidence, ctx);
  }

  /** The writes of one fact, in order, each committed before the next. */
  method ApplyFact(kg: KnowledgeGraph, fact: Fact, ctx: Context)
    requires Run(kg.State(), Ops(fact), ctx).Ok?
    modifies kg
    ensures Run(old(kg.State()), Ops(fact), ctx) == Ok(kg.State())
  {
    match fact
    case IdentityFact(_, _, _, _, _, _) => ApplyIdentity(kg, fact, ctx);
    case RelationshipFact(_, _, _, _, _) => ApplyRelationship(kg, fact, ctx);
    case PreferenceFact(_, _, _, _) => ApplyPreference(kg, fact, ctx);
    case EventFact(_, _, _, _, _) => ApplyEvent(kg, fact, ctx);
    case UpdateFact(_, _, _, _, _, _, _) => ApplyUpdate(kg, fact, ctx);
    case OpenQuestion(_, _, _, _) =>
  }

  /** `strict` is the policy's constitutional mode. */
  method ApplyFacts(kg: KnowledgeGraph, facts: seq<Fact>, ctx: Context, strict: bool)
    returns (r: Result<(), ApplyError>)
    modifies kg
    ensures r.Ok? ==> Applied(old(kg.State()), facts, ctx, strict) == Ok(kg.State())
    ensures r.Err? ==> kg.State() == old(kg.State()) && Applied(kg.State(), facts, ctx, strict) == Err(r.error)
    ensures r.Err? && r.error.ScopeBlocked? <==> ScopeConflicts(old(kg.triples), facts, ctx.scope) != []
    ensures r.Err? && r.error.CoherenceBlocked? <==>
            && strict && ScopeConflicts(old(kg.triples), facts, ctx.scope) == []
            && AllWarnings(old(kg.triples), facts) != []
  {
    ghost var g := kg.State();
    var conflicts := ScopeScan(kg, facts, ctx.scope);
    if conflicts != [] {
      return Err(ScopeBlocked(conflicts));
    }
    var warnings := CoherenceScan(kg, facts);
    if strict && warnings != [] {
      return Err(CoherenceBlocked(warnings));
    }
    for i := 0 to |facts|
      invariant Run(g, AllOps(facts[..i]), ctx) == Ok(kg.State())
    {
      assert facts[..i + 1][..i] == facts[..i];
      AllOpsPrefix(facts, i + 1);
      ScanSound(g, facts, AllOps(facts[..i + 1]), ctx);
      RunAppend(g, AllOps(facts[..i]), Ops(facts[i]), ctx);
      ApplyFact(kg, facts[i], ctx);
    }
    assert facts[..|facts|] == facts;
    return Ok(());
  }

  lemma {:induction false} AllOpsPrefix(facts: seq<Fact>, n: nat)
    requires n <= |facts|
    ensures AllOps(facts[..n]) <= AllOps(facts)
    decreases |facts| - n
  {
    if n == |facts| {
      assert facts[..n] == facts;
    } else {
      AllOpsPrefix(facts, n + 1);
      assert facts[..n + 1][..n] == facts[..n];
    }
  }
}
