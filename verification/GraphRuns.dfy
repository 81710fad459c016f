/** Any run of the graph's own interface, raw adds and ends included: the evidence bookkeeping holds in every state. */
module GraphRuns {
  import opened Common
  import opened Confidence
  import opened TripleStore
  import opened Beliefs

  datatype Call =
    | PutEntity(name: string, entity: Entity)
    | AddRow(row: Row)
    | Reinforce(key: Key, confidence: real, closet: Option<string>, file: Option<string>, scope: string)
    | EndRows(key: Key, ended: Option<Date>, today: Date)
    | MergeNames(source: string, target: string, reviewer: string, rationale: string)

  /** What a corroboration leaves behind: nothing new if it is refused or finds no open row. */
  function Strengthened(g: Graph, key: Key, confidence: real, closet: Option<string>, file: Option<string>,
                        scope: string): Graph
  {
    var newest := Newest(g.rows, key);
    if !IsConfidence(confidence) || newest.None? || g.rows[newest.value].scope != scope then g
    else Bumped(g, newest.value, confidence, closet, file)
  }

  function Called(g: Graph, c: Call): Graph {
    match c
    case PutEntity(name, entity) => g.(entities := g.entities[name := entity])
    case AddRow(row) => if IsConfidence(row.confidence) then Added(g, row.(count := 0)) else g
    case Reinforce(key, confidence, closet, file, scope) => Strengthened(g, key, confidence, closet, file, scope)
    case EndRows(key, ended, today) => g.(rows := Ended(g.rows, key, if ended.Some? then ended.value else today))
    case MergeNames(s, t, reviewer, rationale) =>
      if Blank(rationale) || s == t || MixesScopes(g.rows, s, t) then g else Merged(g, s, t, reviewer, rationale)
  }

  /** One call of a method of the class. */
  method Perform(kg: KnowledgeGraph, c: Call)
    modifies kg
    ensures kg.State() == Called(old(kg.State()), c)
  {
    match c
    case PutEntity(name, entity) => kg.AddEntity(name, entity);
    case AddRow(row) =>
      var r := kg.AddTriple(row.key, row.validFrom, row.validTo, row.confidence, row.closet, row.file, row.tier,
                            row.scope);
    case Reinforce(key, confidence, closet, file, scope) =>
      var r := kg.Corroborate(key, confidence, closet, file, scope);
    case EndRows(key, ended, today) =>
      var n := kg.Invalidate(key, ended, today);
    case MergeNames(s, t, reviewer, rationale) =>
      var r := kg.MergeEntities(s, t, reviewer, rationale);
  }

  function After(calls: seq<Call>): Graph {
    if calls == [] then EMPTY_GRAPH else Called(After(calls[..|calls| - 1]), calls[|calls| - 1])
  }

  predicate InRange(g: Graph) {
    forall i :: 0 <= i < |g.rows| ==> IsConfidence(g.rows[i].confidence)
  }

  lemma CallKeepsAudit(g: Graph, c: Call)
    requires Audited(g)
    ensures Audited(Called(g, c))
  {
    match c
    case PutEntity(name, entity) =>
      forall i | 0 <= i < |g.rows| ensures AuditedRow(Called(g, c), i) { assert AuditedRow(g, i); }
    case AddRow(row) =>
      if IsConfidence(row.confidence) {
        AddKeepsAudit(g, row.(count := 0));
      }
    case Reinforce(key, confidence, closet, file, scope) =>
      if Called(g, c) != g {
        CorroborateKeepsAudit(g, Newest(g.rows, key).value, confidence, closet, file);
      }
    case EndRows(key, ended, today) => InvalidateKeepsAudit(g, key, if ended.Some? then ended.value else today);
    case MergeNames(s, t, reviewer, rationale) => MergeKeepsAudit(g, s, t, reviewer, rationale);
  }

  lemma CallKeepsRange(g: Graph, c: Call)
    requires InRange(g)
    ensures InRange(Called(g, c))
  {
    if c.Reinforce? && Called(g, c) != g {
      CorroborationMonotone(g.rows[Newest(g.rows, c.key).value].confidence, c.confidence);
    }
  }

  /** On every run of adds, corroborations, invalidations and merges, each row has one provenance row more than its
      corroboration count, and its confidence is in [0, 1] and the one that the last of them recorded. */
  lemma {:induction false} AuditOnEveryRun(calls: seq<Call>)
    ensures Audited(After(calls)) && InRange(After(calls))
  {
    if calls != [] {
      AuditOnEveryRun(calls[..|calls| - 1]);
      CallKeepsAudit(After(calls[..|calls| - 1]), calls[|calls| - 1]);
      CallKeepsRange(After(calls[..|calls| - 1]), calls[|calls| - 1]);
    }
  }

  // ----- Names that were merged away -----

  /** The call writes an entity under that name, or a triple about it. */
  predicate Registers(c: Call, name: string) {
    || (c.PutEntity? && c.name == name)
    || (c.AddRow? && c.row.key.subject == name)
  }

  /** The call merges the name away, and is let through. */
  predicate MergesAway(g: Graph, c: Call, name: string) {
    c.MergeNames? && c.source == name && c.target != name && !Blank(c.rationale) && !MixesScopes(g.rows, name, c.target)
  }

  lemma CallEntities(g: Graph, c: Call, name: string)
    ensures name in Called(g, c).entities ==> name in g.entities || Registers(c, name)
    ensures MergesAway(g, c, name) ==> name !in Called(g, c).entities
  {}

  /** On every run: a name that was merged away is an entity again only if some later call registered it. */
  lemma {:induction false} MergedAwayStaysAway(calls: seq<Call>, j: nat, name: string)
    requires j < |calls| && MergesAway(After(calls[..j]), calls[j], name)
    ensures name in After(calls).entities ==> exists k :: j < k < |calls| && Registers(calls[k], name)
  {
    var n := |calls| - 1;
    CallEntities(After(calls[..n]), calls[n], name);
    if j < n {
      assert calls[..n][..j] == calls[..j];
      MergedAwayStaysAway(calls[..n], j, name);
      if k :| j < k < n && Registers(calls[..n][k], name) {
        assert Registers(calls[k], name);
      }
    }
  }
}
