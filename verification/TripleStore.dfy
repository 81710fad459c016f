/** The temporal knowledge graph: its tables as values, what each statement does to them, and the class whose
    methods issue those statements. A row's id is its index; one method call is one committed transaction. */
module TripleStore {
  import opened Common
  import opened Confidence

  type Date = int

  datatype Tier = Constitution | Doctrine | Policy | Decision

  datatype Entity = Entity(entityType: string, properties: map<string, string>)

  datatype Key = Key(subject: string, pred: string, obj: string)

  /** One row of `triples`. `validTo.None?` means currently true. */
  datatype Row = Row(key: Key, validFrom: Option<Date>, validTo: Option<Date>, confidence: real,
                     closet: Option<string>, file: Option<string>, count: nat, tier: Tier, scope: string)
  {
    predicate OpenAt(k: Key) {
      validTo.None? && key == k
    }

    predicate IsValidAt(asOf: Date) {
      && (validFrom.Some? ==> validFrom.value <= asOf)
      && (validTo.Some? ==> asOf < validTo.value)
    }
  }

  /** What one row of `triple_sources` records, and the row it belongs to. */
  datatype Entry = Entry(closet: Option<string>, file: Option<string>, confidenceAfter: real)

  datatype Source = Source(tripleId: nat, entry: Entry)

  datatype Merge = Merge(source: string, target: string, reviewer: string, rationale: string, rewritten: nat)

  datatype Graph = Graph(entities: map<string, Entity>, rows: seq<Row>, sources: seq<Source>, merges: seq<Merge>)

  const EMPTY_GRAPH := Graph(map[], [], [], [])

  const UNKNOWN_ENTITY := Entity("unknown", map[])

  const DEFAULT_TIER := Decision

  datatype Conflict = Conflict(key: Key, scopes: set<string>)

  datatype Warning = Warning(subject: string, pred: string, newObject: string, newTier: Tier,
                             conflictingObject: string, conflictingTier: Tier)

  datatype GraphError =
    | BadConfidence(c: real)
    | ScopeMismatch(existing: string, incoming: string)
    | RationaleMissing
    | SameEntity
    | MixedScopes(conflicts: seq<Conflict>)

  // ----- Reading the tables -----

  /** The currently-true row that `ORDER BY id DESC LIMIT 1` returns. */
  function Newest(rows: seq<Row>, key: Key): (r: Option<nat>)
    ensures r.Some? ==> r.value < |rows| && rows[r.value].OpenAt(key)
    ensures r.Some? ==> forall j :: r.value < j < |rows| ==> !rows[j].OpenAt(key)
    ensures r.None? ==> forall j :: 0 <= j < |rows| ==> !rows[j].OpenAt(key)
  {
    if rows == [] then None
    else if rows[|rows| - 1].OpenAt(key) then Some(|rows| - 1)
    else Newest(rows[..|rows| - 1], key)
  }

  /** Some currently-true row at `key` already records `file`. */
  predicate HasSource(g: Graph, key: Key, file: Option<string>) {
    exists j :: 0 <= j < |g.sources| && Records(g, g.sources[j], key, file)
  }

  predicate Records(g: Graph, s: Source, key: Key, file: Option<string>) {
    s.tripleId < |g.rows| && g.rows[s.tripleId].OpenAt(key) && s.entry.file == file
  }

  /** Provenance rows of one triple, oldest first. */
  function Entries(sources: seq<Source>, id: nat): seq<Entry> {
    if sources == [] then []
    else
      var last := sources[|sources| - 1];
      Entries(sources[..|sources| - 1], id) + (if last.tripleId == id then [last.entry] else [])
  }

  predicate Contradicts(row: Row, key: Key) {
    row.validTo.None? && row.key.subject == key.subject && row.key.pred == key.pred && row.key.obj != key.obj
  }

  function Warnings(rows: seq<Row>, key: Key, newTier: Tier): seq<Warning> {
    if rows == [] then []
    else
      var row := rows[|rows| - 1];
      Warnings(rows[..|rows| - 1], key, newTier) +
      if Contradicts(row, key)
      then [Warning(key.subject, key.pred, key.obj, newTier, row.key.obj, row.tier)]
      else []
  }

  /** One warning for each currently-true row with the same subject and predicate and another object, in id order, and
      each carries the two objects with their own tiers. */
  lemma {:induction false} WarningsAre(rows: seq<Row>, key: Key, newTier: Tier)
    ensures Warnings(rows, key, newTier) ==
            Mapped((r: Row) => Warning(key.subject, key.pred, key.obj, newTier, r.key.obj, r.tier),
                   Filter(rows, (r: Row) => r.validTo.None? && r.key.subject == key.subject &&
                                            r.key.pred == key.pred && r.key.obj != key.obj))
  {
    if rows != [] {
      WarningsAre(rows[..|rows| - 1], key, newTier);
    }
  }

  datatype Direction = Outgoing | Incoming | Both

  predicate Involves(key: Key, name: string, direction: Direction) {
    match direction
    case Outgoing => key.subject == name
    case Incoming => key.obj == name
    case Both => key.subject == name || key.obj == name
  }

  predicate Visible(row: Row, asOf: Option<Date>, scopes: Option<set<string>>) {
    && (asOf.Some? ==> row.IsValidAt(asOf.value))
    && (scopes.Some? ==> row.scope in scopes.value)
  }

  function QueryEntity(rows: seq<Row>, name: string, asOf: Option<Date>, direction: Direction,
                       scopes: Option<set<string>>): seq<Row>
  {
    Filter(rows, (r: Row) => Involves(r.key, name, direction) && Visible(r, asOf, scopes))
  }

  // ----- Writing the tables -----

  function Registered(entities: map<string, Entity>, name: string): map<string, Entity> {
    if Blank(name) || name in entities then entities else entities[name := UNKNOWN_ENTITY]
  }

  /** A new row together with the provenance row that seeds it. */
  function Added(g: Graph, row: Row): Graph {
    g.(entities := Registered(g.entities, row.key.subject),
       rows := g.rows + [row],
       sources := g.sources + [Source(|g.rows|, Entry(row.closet, row.file, row.confidence))])
  }

  function Bumped(g: Graph, id: nat, incoming: real, closet: Option<string>, file: Option<string>): Graph
    requires id < |g.rows|
  {
    var row := g.rows[id];
    var c := Corroborated(row.confidence, incoming);
    g.(rows := g.rows[id := row.(confidence := c, count := row.count + 1)],
       sources := g.sources + [Source(id, Entry(closet, file, c))])
  }

  function EndedRow(row: Row, key: Key, ended: Date): Row {
    if row.OpenAt(key) then row.(validTo := Some(ended)) else row
  }

  function Ended(rows: seq<Row>, key: Key, ended: Date): seq<Row> {
    seq(|rows|, i requires 0 <= i < |rows| => EndedRow(rows[i], key, ended))
  }

  function CountOpen(rows: seq<Row>, key: Key): nat {
    if rows == [] then 0
    else CountOpen(rows[..|rows| - 1], key) + if rows[|rows| - 1].OpenAt(key) then 1 else 0
  }

  lemma {:induction false} CountOpenIs(rows: seq<Row>, key: Key)
    ensures CountOpen(rows, key) == |Filter(rows, (r: Row) => r.key == key && r.validTo.None?)|
  {
    if rows != [] {
      CountOpenIs(rows[..|rows| - 1], key);
    }
  }

  function RenameName(name: string, source: string, target: string): string {
    if name == source then target else name
  }

  /** `source` replaced by `target` in both places at once. */
  function Rename(key: Key, source: string, target: string): Key {
    Key(RenameName(key.subject, source, target), key.pred, RenameName(key.obj, source, target))
  }

  function RenameRow(row: Row, source: string, target: string): Row {
    row.(key := Rename(row.key, source, target))
  }

  function RenameRows(rows: seq<Row>, source: string, target: string): seq<Row> {
    seq(|rows|, i requires 0 <= i < |rows| => RenameRow(rows[i], source, target))
  }

  /** How often `name` stands in a subject or object column. */
  function Occurrences(rows: seq<Row>, name: string): nat {
    if rows == [] then 0
    else
      var key := rows[|rows| - 1].key;
      Occurrences(rows[..|rows| - 1], name) + (if key.subject == name then 1 else 0) +
          (if key.obj == name then 1 else 0)
  }

  function Merged(g: Graph, source: string, target: string, reviewer: string, rationale: string): Graph {
    Graph(g.entities - {source}, RenameRows(g.rows, source, target), g.sources,
          g.merges + [Merge(source, target, reviewer, rationale, Occurrences(g.rows, source))])
  }

  /** The rows the conflict scan of a merge looks at. */
  predicate Touched(row: Row, source: string, target: string) {
    row.validTo.None? && (Involves(row.key, source, Both) || Involves(row.key, target, Both))
  }

  /** The scopes that would meet on `key` once `source` is rewritten to `target`. */
  function ScopesAfter(rows: seq<Row>, source: string, target: string, key: Key): set<string> {
    set i | 0 <= i < |rows| && Touched(rows[i], source, target) && Rename(rows[i].key, source, target) == key ::
      rows[i].scope
  }

  predicate MixesScopes(rows: seq<Row>, source: string, target: string) {
    exists i :: 0 <= i < |rows| && |ScopesAfter(rows, source, target, Rename(rows[i].key, source, target))| > 1
  }

  lemma ScopesAfterSnoc(rows: seq<Row>, row: Row, source: string, target: string)
    ensures forall k :: ScopesAfter(rows + [row], source, target, k) ==
                        ScopesAfter(rows, source, target, k) +
                        if Touched(row, source, target) && Rename(row.key, source, target) == k then {row.scope} else {}
  {
    forall k
      ensures ScopesAfter(rows + [row], source, target, k) ==
              ScopesAfter(rows, source, target, k) +
              if Touched(row, source, target) && Rename(row.key, source, target) == k then {row.scope} else {}
    {
      var more := rows + [row];
      assert more[|rows|] == row;
      assert forall i :: 0 <= i < |rows| ==> more[i] == rows[i];
      var here := ScopesAfter(rows, source, target, k);
      forall s | s in here ensures s in ScopesAfter(more, source, target, k) {
        var i :| 0 <= i < |rows| && Touched(rows[i], source, target) && Rename(rows[i].key, source, target) == k
            && rows[i].scope == s;
        assert more[i].scope == s;
      }
    }
  }

  // The two UPDATEs of a merge, one column each.

  function SubjectRewritten(row: Row, source: string, target: string): Row {
    row.(key := row.key.(subject := RenameName(row.key.subject, source, target)))
  }

  function ObjectRewritten(row: Row, source: string, target: string): Row {
    row.(key := row.key.(obj := RenameName(row.key.obj, source, target)))
  }

  function SubjectsRewritten(rows: seq<Row>, source: string, target: string): seq<Row> {
    seq(|rows|, i requires 0 <= i < |rows| => SubjectRewritten(rows[i], source, target))
  }

  function ObjectsRewritten(rows: seq<Row>, source: string, target: string): seq<Row> {
    seq(|rows|, i requires 0 <= i < |rows| => ObjectRewritten(rows[i], source, target))
  }

  function SubjectOccurrences(rows: seq<Row>, name: string): nat {
    if rows == [] then 0
    else SubjectOccurrences(rows[..|rows| - 1], name) + if rows[|rows| - 1].key.subject == name then 1 else 0
  }

  function ObjectOccurrences(rows: seq<Row>, name: string): nat {
    if rows == [] then 0
    else ObjectOccurrences(rows[..|rows| - 1], name) + if rows[|rows| - 1].key.obj == name then 1 else 0
  }

  /** One column after the other is the simultaneous substitution, and the two row counts add up to the number of
      occurrences replaced, although the second UPDATE runs on what the first one left. */
  lemma {:induction false} TwoUpdatesRename(rows: seq<Row>, source: string, target: string)
    ensures ObjectsRewritten(SubjectsRewritten(rows, source, target), source, target) ==
            RenameRows(rows, source, target)
    ensures SubjectOccurrences(rows, source) + ObjectOccurrences(SubjectsRewritten(rows, source, target), source) ==
            Occurrences(rows, source)
  {
    if rows != [] {
      var front := rows[..|rows| - 1];
      TwoUpdatesRename(front, source, target);
      var halfway := SubjectsRewritten(rows, source, target);
      assert halfway[..|rows| - 1] == SubjectsRewritten(front, source, target);
    }
  }

  /** The keys where more than one scope meets. */
  method MixedKeys(order: seq<Key>, rewritten: map<Key, set<string>>) returns (conflicts: seq<Conflict>)
    requires forall k :: k in order ==> k in rewritten
    ensures forall c :: c in conflicts <==> c.key in order && |c.scopes| > 1 && c.scopes == rewritten[c.key]
  {
    conflicts := [];
    for i := 0 to |order|
      invariant forall c :: c in conflicts <==> c.key in order[..i] && |c.scopes| > 1 && c.scopes == rewritten[c.key]
    {
      var scopes := rewritten[order[i]];
      if |scopes| > 1 {
        conflicts := conflicts + [Conflict(order[i], scopes)];
      }
    }
  }

  // ----- The class -----

  class KnowledgeGraph {
    var entities: map<string, Entity>
    var triples: seq<Row>
    var tripleSources: seq<Source>
    var entityMerges: seq<Merge>

    function State(): Graph
      reads this
    {
      Graph(entities, triples, tripleSources, entityMerges)
    }

    constructor ()
      ensures State() == EMPTY_GRAPH
    {
      entities, triples, tripleSources, entityMerges := map[], [], [], [];
    }

    method AddEntity(name: string, entity: Entity)
      modifies this
      ensures State() == old(State()).(entities := old(entities)[name := entity])
    {
      entities := entities[name := entity];
    }

    method AddTriple(key: Key, validFrom: Option<Date>, validTo: Option<Date>, confidence: real,
                     closet: Option<string>, file: Option<string>, tier: Tier, scope: string)
      returns (r: Result<Row, GraphError>)
      modifies this
      ensures r.Ok? <==> IsConfidence(confidence)
      ensures r.Ok? ==> r.value == Row(key, validFrom, validTo, confidence, closet, file, 0, tier, scope)
      ensures r.Ok? ==> State() == Added(old(State()), r.value)
      ensures r.Ok? ==> triples == old(triples) + [r.value] && entityMerges == old(entityMerges)
      ensures r.Ok? ==> tripleSources == old(tripleSources) + [Source(|old(triples)|, Entry(closet, file, confidence))]
      ensures r.Ok? ==> entities == if Blank(key.subject) || key.subject in old(entities) then old(entities)
                                    else old(entities)[key.subject := Entity("unknown", map[])]
      ensures r.Err? ==> State() == old(State()) && r.error == BadConfidence(confidence)
    {
      if !IsConfidence(confidence) {
        return Err(BadConfidence(confidence));
      }
      var row := Row(key, validFrom, validTo, confidence, closet, file, 0, tier, scope);
      if !Blank(key.subject) && key.subject !in entities {
        entities := entities[key.subject := UNKNOWN_ENTITY];
      }
      triples := triples + [row];
      tripleSources := tripleSources + [Source(|triples| - 1, Entry(closet, file, confidence))];
      return Ok(row);
    }

    method HasTripleSource(key: Key, file: Option<string>) returns (found: bool)
      ensures found <==> HasSource(State(), key, file)
    {
      for j := 0 to |tripleSources|
        invariant forall i :: 0 <= i < j ==> !Records(State(), tripleSources[i], key, file)
      {
        var s := tripleSources[j];
        if s.tripleId < |triples| && triples[s.tripleId].OpenAt(key) && s.entry.file == file {
          assert Records(State(), State().sources[j], key, file);
          return true;
        }
      }
      return false;
    }

    method FindCurrentTriple(key: Key) returns (r: Option<nat>)
      ensures r == Newest(triples, key)
    {
      var i := |triples|;
      while i > 0
        invariant 0 <= i <= |triples|
        invariant Newest(triples, key) == Newest(triples[..i], key)
      {
        i := i - 1;
        assert triples[..i + 1][..i] == triples[..i];
        if triples[i].OpenAt(key) {
          return Some(i);
        }
      }
      return None;
    }

    method Corroborate(key: Key, confidence: real, closet: Option<string>, file: Option<string>, scope: string)
      returns (r: Result<Option<Row>, GraphError>)
      modifies this
      ensures r.Err? <==> !IsConfidence(confidence) ||
                          (Newest(old(triples), key).Some? &&
                           old(triples)[Newest(old(triples), key).value].scope != scope)
      ensures r.Err? ==> r.error == if !IsConfidence(confidence) then BadConfidence(confidence)
                                    else ScopeMismatch(old(triples)[Newest(old(triples), key).value].scope, scope)
      ensures r.Err? ==> State() == old(State())
      ensures r == Ok(None) <==> IsConfidence(confidence) && Newest(old(triples), key).None?
      ensures r == Ok(None) ==> State() == old(State())
      ensures r.Ok? && r.value.Some? ==>
                var id := Newest(old(triples), key).value;
                State() == Bumped(old(State()), id, confidence, closet, file) && r.value.value == triples[id]
      ensures r.Ok? && r.value.Some? ==>
                var id := Newest(old(triples), key).value;
                var row := old(triples)[id];
                var raised := Corroborated(row.confidence, confidence);
                && row.scope == scope
                && triples == old(triples)[id := row.(confidence := raised, count := row.count + 1)]
                && tripleSources == old(tripleSources) + [Source(id, Entry(closet, file, raised))]
                && entities == old(entities) && entityMerges == old(entityMerges)
    {
      if !IsConfidence(confidence) {
        return Err(BadConfidence(confidence));
      }
      var found := FindCurrentTriple(key);
      if found.None? {
        return Ok(None);
      }
      var id := found.value;
      var row := triples[id];
      if row.scope != scope {
        return Err(ScopeMismatch(row.scope, scope));
      }
      var raised := Capped(1.0 - (1.0 - row.confidence) * (1.0 - confidence));
      assert raised == Corroborated(row.confidence, confidence);
      triples := triples[id := row.(confidence := raised, count := row.count + 1)];
      tripleSources := tripleSources + [Source(id, Entry(closet, file, raised))];
      return Ok(Some(triples[id]));
    }

    method CheckCoherence(key: Key, newTier: Tier) returns (warnings: seq<Warning>)
      ensures warnings == Warnings(triples, key, newTier)
      ensures warnings == Mapped((r: Row) => Warning(key.subject, key.pred, key.obj, newTier, r.key.obj, r.tier),
                                 Filter(triples, (r: Row) => r.validTo.None? && r.key.subject == key.subject &&
                                                             r.key.pred == key.pred && r.key.obj != key.obj))
    {
      warnings := [];
      for i := 0 to |triples|
        invariant warnings == Warnings(triples[..i], key, newTier)
      {
        assert triples[..i + 1][..i] == triples[..i];
        if Contradicts(triples[i], key) {
          warnings := warnings +
            [Warning(key.subject, key.pred, key.obj, newTier, triples[i].key.obj, triples[i].tier)];
        }
      }
      assert triples[..|triples|] == triples;
      WarningsAre(triples, key, newTier);
    }

    /** `today` is the clock's date, used when the caller gives none. */
    method Invalidate(key: Key, ended: Option<Date>, today: Date) returns (updated: nat)
      modifies this
      ensures State() == old(State()).(rows := Ended(old(triples), key, if ended.Some? then ended.value else today))
      ensures updated == CountOpen(old(triples), key) ==
                         |Filter(old(triples), (r: Row) => r.key == key && r.validTo.None?)|
    {
      var end := if ended.Some? then ended.value else today;
      var before := triples;
      updated := 0;
      for i := 0 to |before|
        invariant |triples| == |before| && before == old(triples)
        invariant entities == old(entities) && tripleSources == old(tripleSources) && entityMerges == old(entityMerges)
        invariant forall j :: 0 <= j < i ==> triples[j] == EndedRow(before[j], key, end)
        invariant forall j :: i <= j < |before| ==> triples[j] == before[j]
        invariant updated == CountOpen(before[..i], key)
      {
        assert before[..i + 1][..i] == before[..i];
        if triples[i].OpenAt(key) {
          triples := triples[i := triples[i].(validTo := Some(end))];
          updated := updated + 1;
        }
      }
      assert before[..|before|] == before;
      assert triples == Ended(before, key, end);
      CountOpenIs(before, key);
    }

    method QueryEntityRows(name: string, asOf: Option<Date>, direction: Direction, scopes: Option<set<string>>)
      returns (rows: seq<Row>)
      ensures rows == QueryEntity(triples, name, asOf, direction, scopes)
      ensures forall r :: r in rows <==>
                && r in triples
                && (direction == Outgoing ==> r.key.subject == name)
                && (direction == Incoming ==> r.key.obj == name)
                && (direction == Both ==> r.key.subject == name || r.key.obj == name)
                && (asOf.Some? && r.validFrom.Some? ==> r.validFrom.value <= asOf.value)
                && (asOf.Some? && r.validTo.Some? ==> asOf.value < r.validTo.value)
                && (scopes.Some? ==> r.scope in scopes.value)
    {
      rows := [];
      for i := 0 to |triples|
        invariant rows == QueryEntity(triples[..i], name, asOf, direction, scopes)
      {
        assert triples[..i + 1][..i] == triples[..i];
        if Involves(triples[i].key, name, direction) && Visible(triples[i], asOf, scopes) {
          rows := rows + [triples[i]];
        }
      }
      assert triples[..|triples|] == triples;
      FilterMembers(triples, (r: Row) => Involves(r.key, name, direction) && Visible(r, asOf, scopes));
    }

    /** The scopes that meet on each key once `source -> target` is simulated on the open rows that mention either. */
    method ScopesByKey(source: string, target: string) returns (order: seq<Key>, rewritten: map<Key, set<string>>)
      ensures forall k :: k in rewritten <==> k in order
      ensures forall k :: ScopesAfter(triples, source, target, k) == if k in rewritten then rewritten[k] else {}
      ensures forall k :: k in order ==> exists j :: 0 <= j < |triples| && Rename(triples[j].key, source, target) == k
    {
      order, rewritten := [], map[];
      for i := 0 to |triples|
        invariant forall k :: k in rewritten <==> k in order
        invariant forall k :: ScopesAfter(triples[..i], source, target, k) ==
                              if k in rewritten then rewritten[k] else {}
        invariant forall k :: k in order ==> exists j :: 0 <= j < i && Rename(triples[j].key, source, target) == k
      {
        var row := triples[i];
        assert triples[..i + 1] == triples[..i] + [row];
        ScopesAfterSnoc(triples[..i], row, source, target);
        if Touched(row, source, target) {
          var k := Rename(row.key, source, target);
          if k !in rewritten {
            order := order + [k];
            rewritten := rewritten[k := {}];
          }
          rewritten := rewritten[k := rewritten[k] + {row.scope}];
        }
      }
      assert triples[..|triples|] == triples;
    }

    method MergeScopeConflicts(source: string, target: string) returns (conflicts: seq<Conflict>)
      ensures conflicts != [] <==> MixesScopes(triples, source, target)
      ensures forall c :: c in conflicts ==> |c.scopes| > 1 && c.scopes == ScopesAfter(triples, source, target, c.key)
      ensures forall k :: |ScopesAfter(triples, source, target, k)| > 1 ==>
                            Conflict(k, ScopesAfter(triples, source, target, k)) in conflicts
    {
      var order, rewritten := ScopesByKey(source, target);
      conflicts := MixedKeys(order, rewritten);
      forall k | |ScopesAfter(triples, source, target, k)| > 1
        ensures Conflict(k, ScopesAfter(triples, source, target, k)) in conflicts
      {
        assert k in order && rewritten[k] == ScopesAfter(triples, source, target, k);
        assert Conflict(k, rewritten[k]).key in order;
      }
      if conflicts != [] {
        var c := conflicts[0];
        assert c in conflicts;
        var j :| 0 <= j < |triples| && Rename(triples[j].key, source, target) == c.key;
      }
    }

    method RewriteSubjects(source: string, target: string) returns (updated: nat)
      modifies `triples
      ensures triples == SubjectsRewritten(old(triples), source, target)
      ensures updated == SubjectOccurrences(old(triples), source)
    {
      var before := triples;
      updated := 0;
      for i := 0 to |before|
        invariant |triples| == |before|
        invariant forall j :: 0 <= j < i ==> triples[j] == SubjectRewritten(before[j], source, target)
        invariant forall j :: i <= j < |before| ==> triples[j] == before[j]
        invariant updated == SubjectOccurrences(before[..i], source)
      {
        assert before[..i + 1][..i] == before[..i];
        if triples[i].key.subject == source {
          triples := triples[i := triples[i].(key := triples[i].key.(subject := target))];
          updated := updated + 1;
        }
      }
      assert before[..|before|] == before;
    }

    method RewriteObjects(source: string, target: string) returns (updated: nat)
      modifies `triples
      ensures triples == ObjectsRewritten(old(triples), source, target)
      ensures updated == ObjectOccurrences(old(triples), source)
    {
      var before := triples;
      updated := 0;
      for i := 0 to |before|
        invariant |triples| == |before|
        invariant forall j :: 0 <= j < i ==> triples[j] == ObjectRewritten(before[j], source, target)
        invariant forall j :: i <= j < |before| ==> triples[j] == before[j]
        invariant updated == ObjectOccurrences(before[..i], source)
      {
        assert before[..i + 1][..i] == before[..i];
        if triples[i].key.obj == source {
          triples := triples[i := triples[i].(key := triples[i].key.(obj := target))];
          updated := updated + 1;
        }
      }
      assert before[..|before|] == before;
    }

    /** Both UPDATEs, and how many columns they changed. */
    method RewriteName(source: string, target: string) returns (updated: nat)
      modifies `triples
      ensures triples == RenameRows(old(triples), source, target)
      ensures updated == Occurrences(old(triples), source)
    {
      ghost var before := triples;
      var subjectRewrites := RewriteSubjects(source, target);
      var objectRewrites := RewriteObjects(source, target);
      TwoUpdatesRename(before, source, target);
      updated := subjectRewrites + objectRewrites;
    }

    method MergeEntities(source: string, target: string, reviewer: string, rationale: string)
      returns (r: Result<Merge, GraphError>)
      modifies this
      ensures r.Ok? <==> !Blank(rationale) && source != target && !MixesScopes(old(triples), source, target)
      ensures r.Ok? ==> State() == Merged(old(State()), source, target, reviewer, rationale)
      ensures r.Ok? ==> r.value == Merge(source, target, reviewer, rationale, Occurrences(old(triples), source))
      ensures r.Ok? ==> entities.Keys == old(entities).Keys - {source}
      ensures r.Ok? ==> forall name :: name in entities ==> entities[name] == old(entities)[name]
      ensures r.Ok? ==> |triples| == |old(triples)|
      ensures r.Ok? ==> forall i :: 0 <= i < |triples| ==>
                var k := old(triples)[i].key;
                triples[i] == old(triples)[i].(key := Key(if k.subject == source then target else k.subject, k.pred,
                                                          if k.obj == source then target else k.obj))
      ensures r.Ok? ==> tripleSources == old(tripleSources) && entityMerges == old(entityMerges) + [r.value]
      ensures r.Err? ==> State() == old(State())
      ensures r == Err(RationaleMissing) <==> Blank(rationale)
      ensures r == Err(SameEntity) <==> !Blank(rationale) && source == target
      ensures r.Err? && !Blank(rationale) && source != target ==>
                && r.error.MixedScopes?
                && (forall c :: c in r.error.conflicts ==>
                      |c.scopes| > 1 && c.scopes == ScopesAfter(triples, source, target, c.key))
                && forall k :: |ScopesAfter(triples, source, target, k)| > 1 ==>
                     Conflict(k, ScopesAfter(triples, source, target, k)) in r.error.conflicts
    {
      if Blank(rationale) {
        return Err(RationaleMissing);
      }
      if source == target {
        return Err(SameEntity);
      }
      var conflicts := MergeScopeConflicts(source, target);
      if conflicts != [] {
        return Err(MixedScopes(conflicts));
      }
      var rewrites := RewriteName(source, target);
      entities := entities - {source};
      var record := Merge(source, target, reviewer, rationale, rewrites);
      entityMerges := entityMerges + [record];
      return Ok(record);
    }
  }

  // ----- Which names an add registers -----

  /** After an add both ends of the triple are entities if and only if the subject is not blank, or is one already, and
      the object is the subject or is one already: an add never registers the object for its own sake. */
  lemma BothEndsRegisteredExact(g: Graph, row: Row)
    ensures row.key.subject in Added(g, row).entities && row.key.obj in Added(g, row).entities <==>
            && (!Blank(row.key.subject) || row.key.subject in g.entities)
            && (row.key.obj == row.key.subject || row.key.obj in g.entities)
  {
    var name := row.key.subject;
    assert Added(g, row).entities == Registered(g.entities, name);
    if name in g.entities {
      assert Registered(g.entities, name) == g.entities;
    }
  }

  /** The first triple about Ada leaves tea out of the entity table. */
  lemma ObjectNotRegistered(row: Row)
    requires row.key == Key("ada", "prefers", "tea")
    ensures "ada" in Added(EMPTY_GRAPH, row).entities && "tea" !in Added(EMPTY_GRAPH, row).entities
  {
    assert !IsSpace("ada"[0]) && "tea"[0] != "ada"[0];
  }
}
