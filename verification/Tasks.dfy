/** Task statuses in a personal graph: create, update and complete keep exactly one status open, and the status rows
    tile the timeline exactly when the transition dates never decrease. */
module Tasks {
  import opened Common
  import opened TripleStore

  const TASK_STATUS := "task_status"
  const TASK_TITLE := "task_title"
  const TASK_OWNER := "task_owner"
  const TASK_DUE := "task_due_by"
  const TASK_LINKED_THREAD := "task_linked_thread"
  const TASK_COMPLETED_AT := "task_completed_at"
  const TASK_OUTCOME := "task_outcome"

  const TASK_STATUS_VALUES: set<string> :=
    {"open", "in_progress", "waiting", "blocked", "deferred", "completed", "cancelled", "superseded"}

  /** Where a write comes from, and the employee scope the personal graph stamps on every row. */
  datatype Origin = Origin(closet: string, file: string, scope: string)

  datatype TaskError = SourceRequired | UnknownStatus

  datatype TaskFields = TaskFields(title: string, owner: string, due: Option<string>, thread: Option<string>)

  /** `owner or ctx.user_id` */
  function WithOwner(f: TaskFields, user: string): TaskFields {
    if f.owner == "" then f.(owner := user) else f
  }

  function NewRow(key: Key, validFrom: Option<Date>, o: Origin): Row {
    Row(key, validFrom, None, 1.0, Some(o.closet), Some(o.file), 0, DEFAULT_TIER, o.scope)
  }

  function Noted(g: Graph, task: string, pred: string, value: string, o: Origin): Graph {
    Added(g, NewRow(Key(task, pred, value), None, o))
  }

  function NotedIf(g: Graph, task: string, pred: string, value: Option<string>, o: Origin): Graph {
    if value.Some? then Noted(g, task, pred, value.value, o) else g
  }

  function Created(g: Graph, task: string, f: TaskFields, o: Origin): Graph {
    var g1 := Noted(g, task, TASK_STATUS, "open", o);
    var g2 := Noted(Noted(g1, task, TASK_TITLE, f.title, o), task, TASK_OWNER, f.owner, o);
    NotedIf(NotedIf(g2, task, TASK_DUE, f.due, o), task, TASK_LINKED_THREAD, f.thread, o)
  }

  predicate IsStatusOf(r: Row, task: string) {
    r.key.subject == task && r.key.pred == TASK_STATUS
  }

  /** A task's status rows, oldest first. */
  function StatusRows(rows: seq<Row>, task: string): seq<Row> {
    Filter(rows, (r: Row) => IsStatusOf(r, task))
  }

  /** The open status rows the employee's own scope can see. */
  function OpenStatuses(rows: seq<Row>, task: string, scope: string): seq<Row> {
    Filter(StatusRows(rows, task), (r: Row) => r.validTo.None? && r.scope == scope)
  }

  /** The first open status found is ended on `ended`, and the new one is added from `date`. */
  function Transitioned(g: Graph, task: string, status: string, date: Option<Date>, ended: Date, o: Origin): Graph {
    var open := OpenStatuses(g.rows, task, o.scope);
    Added(if open == [] then g else g.(rows := Ended(g.rows, open[0].key, ended)),
          NewRow(Key(task, TASK_STATUS, status), date, o))
  }

  function Completed(g: Graph, task: string, on: Date, onText: string, outcome: Option<string>, o: Origin): Graph {
    NotedIf(Noted(Transitioned(g, task, "completed", Some(on), on, o), task, TASK_COMPLETED_AT, onText, o),
            task, TASK_OUTCOME, outcome, o)
  }

  // ----- The tools -----

  method Note(kg: KnowledgeGraph, task: string, pred: string, value: string, o: Origin)
    modifies kg
    ensures kg.State() == Noted(old(kg.State()), task, pred, value, o)
  {
    var row := kg.AddTriple(Key(task, pred, value), None, None, 1.0, Some(o.closet), Some(o.file), DEFAULT_TIER,
                            o.scope);
  }

  /** An open, certain row under the origin's report and scope. */
  function Stated(task: string, pred: string, value: string, since: Option<Date>, o: Origin): Row {
    Row(Key(task, pred, value), since, None, 1.0, Some(o.closet), Some(o.file), 0, Decision, o.scope)
  }

  /** `task` is the generated id, `user` the server's user, who owns what has no other owner. */
  method CreateTask(kg: KnowledgeGraph, task: string, fields: TaskFields, user: string, o: Origin)
    returns (r: Result<(), TaskError>)
    modifies kg
    ensures r.Ok? <==> !Blank(o.closet) && !Blank(o.file)
    ensures kg.State() == if r.Ok? then Created(old(kg.State()), task, WithOwner(fields, user), o) else old(kg.State())
    ensures r.Ok? ==>
              kg.triples == old(kg.triples) +
              [Stated(task, "task_status", "open", None, o), Stated(task, "task_title", fields.title, None, o),
               Stated(task, "task_owner", if fields.owner == "" then user else fields.owner, None, o)] +
              (if fields.due.Some? then [Stated(task, "task_due_by", fields.due.value, None, o)] else []) +
              (if fields.thread.Some? then [Stated(task, "task_linked_thread", fields.thread.value, None, o)] else [])
  {
    if Blank(o.closet) || Blank(o.file) {
      return Err(SourceRequired);
    }
    var f := WithOwner(fields, user);
    Note(kg, task, TASK_STATUS, "open", o);
    Note(kg, task, TASK_TITLE, f.title, o);
    Note(kg, task, TASK_OWNER, f.owner, o);
    if f.due.Some? {
      Note(kg, task, TASK_DUE, f.due.value, o);
    }
    if f.thread.Some? {
      Note(kg, task, TASK_LINKED_THREAD, f.thread.value, o);
    }
    return Ok(());
  }

  /** The loop over the task's outgoing triples, which stops at the first open status. */
  method EndPriorStatus(kg: KnowledgeGraph, task: string, ended: Option<Date>, today: Date, scope: string)
    modifies kg
    ensures var open := OpenStatuses(old(kg.triples), task, scope);
            var day := if ended.Some? then ended.value else today;
            kg.State() == if open == [] then old(kg.State())
                          else old(kg.State()).(rows := Ended(old(kg.triples), open[0].key, day))
  {
    var prior := kg.QueryEntityRows(task, None, Outgoing, Some({scope}));
    OpenStatusesOfQuery(kg.triples, task, scope);
    ghost var test := (r: Row) => r.key.pred == TASK_STATUS && r.validTo.None?;
    for i := 0 to |prior|
      invariant kg.State() == old(kg.State())
      invariant Filter(prior[..i], test) == []
    {
      assert prior[..i + 1][..i] == prior[..i];
      if prior[i].key.pred == TASK_STATUS && prior[i].validTo.None? {
        FilterFirst(prior, test, i);
        var n := kg.Invalidate(prior[i].key, ended, today);
        return;
      }
    }
    assert prior[..|prior|] == prior;
  }

  method UpdateTaskStatus(kg: KnowledgeGraph, task: string, status: string, o: Origin, validFrom: Option<Date>,
                          today: Date)
    returns (r: Result<(), TaskError>)
    modifies kg
    ensures r.Ok? <==> status in {"open", "in_progress", "waiting", "blocked", "deferred", "completed", "cancelled",
                                  "superseded"} && !Blank(o.closet) && !Blank(o.file)
    ensures kg.State() ==
            if r.Ok? then
              var ended := if validFrom.Some? then validFrom.value else today;
              Transitioned(old(kg.State()), task, status, validFrom, ended, o)
            else old(kg.State())
    ensures r.Ok? ==> |kg.triples| == |old(kg.triples)| + 1
    ensures r.Ok? ==> kg.triples[|old(kg.triples)|] == Stated(task, "task_status", status, validFrom, o)
  {
    if status !in TASK_STATUS_VALUES {
      return Err(UnknownStatus);
    }
    if Blank(o.closet) || Blank(o.file) {
      return Err(SourceRequired);
    }
    EndPriorStatus(kg, task, validFrom, today, o.scope);
    var row := kg.AddTriple(Key(task, TASK_STATUS, status), validFrom, None, 1.0, Some(o.closet), Some(o.file),
                            DEFAULT_TIER, o.scope);
    return Ok(());
  }

  /** `iso` renders a date as text. */
  method CompleteTask(kg: KnowledgeGraph, task: string, o: Origin, outcome: Option<string>, completedAt: Option<Date>,
                      today: Date, iso: Date -> string)
    returns (r: Result<(), TaskError>)
    modifies kg
    ensures r.Ok? <==> !Blank(o.closet) && !Blank(o.file)
    ensures var on := if completedAt.Some? then completedAt.value else today;
            kg.State() == if r.Ok? then Completed(old(kg.State()), task, on, iso(on), outcome, o) else old(kg.State())
    ensures var on := if completedAt.Some? then completedAt.value else today;
            r.Ok? ==>
              |kg.triples| >= |old(kg.triples)| &&
              kg.triples[|old(kg.triples)|..] ==
              [Stated(task, "task_status", "completed", Some(on), o),
               Stated(task, "task_completed_at", iso(on), None, o)] +
              if outcome.Some? then [Stated(task, "task_outcome", outcome.value, None, o)] else []
  {
    if Blank(o.closet) || Blank(o.file) {
      return Err(SourceRequired);
    }
    var on := if completedAt.Some? then completedAt.value else today;
    EndPriorStatus(kg, task, Some(on), today, o.scope);
    var row := kg.AddTriple(Key(task, TASK_STATUS, "completed"), Some(on), None, 1.0, Some(o.closet), Some(o.file),
                            DEFAULT_TIER, o.scope);
    Note(kg, task, TASK_COMPLETED_AT, iso(on), o);
    if outcome.Some? {
      Note(kg, task, TASK_OUTCOME, outcome.value, o);
    }
    return Ok(());
  }

  lemma OpenStatusesOfQuery(rows: seq<Row>, task: string, scope: string)
    ensures OpenStatuses(rows, task, scope) ==
            Filter(QueryEntity(rows, task, None, Outgoing, Some({scope})),
                   (r: Row) => r.key.pred == TASK_STATUS && r.validTo.None?)
  {
    var both := (r: Row) => IsStatusOf(r, task) && r.validTo.None? && r.scope == scope;
    FilterTwice(rows, (r: Row) => IsStatusOf(r, task), (r: Row) => r.validTo.None? && r.scope == scope, both);
    FilterTwice(rows, (r: Row) => Involves(r.key, task, Outgoing) && Visible(r, None, Some({scope})),
                (r: Row) => r.key.pred == TASK_STATUS && r.validTo.None?, both);
  }

  // ----- Runs -----

  datatype Action =
    | Create(task: string, fields: TaskFields, origin: Origin)
    | Update(task: string, status: string, date: Option<Date>, today: Date, origin: Origin)
    | Complete(task: string, on: Date, onText: string, outcome: Option<string>, origin: Origin)

  function Next(g: Graph, a: Action): Graph {
    match a
    case Create(task, f, o) => Created(g, task, f, o)
    case Update(task, status, date, today, o) =>
      Transitioned(g, task, status, date, if date.Some? then date.value else today, o)
    case Complete(task, on, onText, outcome, o) => Completed(g, task, on, onText, outcome, o)
  }

  function After(g: Graph, actions: seq<Action>): Graph {
    if actions == [] then g else Next(After(g, actions[..|actions| - 1]), actions[|actions| - 1])
  }

  /** The graph's other writers leave the task alone: only the tools touch it, all under the employee's own scope. */
  predicate OwnRun(actions: seq<Action>, task: string, scope: string) {
    forall i :: 0 <= i < |actions| ==>
                  actions[i].origin.scope == scope && (actions[i].Create? ==> actions[i].task != task)
  }

  /** One change of a task's status: the new status holds from `date`, the old one until `ended`. */
  datatype Transition = Transition(status: string, date: Option<Date>, ended: Date)

  function TransitionOf(a: Action): Transition
    requires !a.Create?
  {
    match a
    case Update(_, status, date, today, _) => Transition(status, date, if date.Some? then date.value else today)
    case Complete(_, on, _, _, _) => Transition("completed", Some(on), on)
  }

  /** The changes that a list of actions makes to one task. */
  function Transitions(actions: seq<Action>, task: string): seq<Transition> {
    if actions == [] then []
    else
      var last := actions[|actions| - 1];
      Transitions(actions[..|actions| - 1], task) +
      if last.task == task && !last.Create? then [TransitionOf(last)] else []
  }

  /** The status rows a history of changes leaves: one per status, each ended where the next begins, the last open. */
  predicate Tiled(rows: seq<Row>, changes: seq<Transition>, scope: string) {
    && |rows| == |changes| + 1
    && rows[0].key.obj == "open" && rows[0].validFrom.None?
    && (forall i :: 0 <= i < |changes| ==>
                      rows[i + 1].key.obj == changes[i].status && rows[i + 1].validFrom == changes[i].date)
    && (forall i :: 0 <= i < |changes| ==> rows[i].validTo == Some(changes[i].ended))
    && rows[|changes|].validTo.None? && rows[|changes|].scope == scope
  }

  lemma {:induction false} EndedStatusRows(rows: seq<Row>, key: Key, ended: Date, task: string)
    ensures StatusRows(Ended(rows, key, ended), task) == Ended(StatusRows(rows, task), key, ended)
  {
    if rows != [] {
      var n := |rows| - 1;
      EndedStatusRows(rows[..n], key, ended, task);
      assert Ended(rows, key, ended)[..n] == Ended(rows[..n], key, ended);
      var front := StatusRows(rows[..n], task);
      assert Ended(StatusRows(rows, task), key, ended) ==
             Ended(front, key, ended) + if IsStatusOf(rows[n], task) then [EndedRow(rows[n], key, ended)] else [];
    }
  }

  lemma AddedStatusRows(g: Graph, row: Row, task: string)
    ensures StatusRows(Added(g, row).rows, task) ==
            StatusRows(g.rows, task) + if IsStatusOf(row, task) then [row] else []
  {
    assert (g.rows + [row])[..|g.rows|] == g.rows;
  }

  lemma StatusRowsAreOfTask(rows: seq<Row>, task: string)
    ensures forall r :: r in StatusRows(rows, task) ==> IsStatusOf(r, task)
  {
    forall r | r in StatusRows(rows, task)
      ensures IsStatusOf(r, task)
    {
      FilterMembers(rows, (x: Row) => IsStatusOf(x, task));
    }
  }

  lemma NotesKeepStatus(g: Graph, task: string, pred: string, value: Option<string>, o: Origin, other: string)
    requires pred != TASK_STATUS
    ensures StatusRows(NotedIf(g, task, pred, value, o).rows, other) == StatusRows(g.rows, other)
  {
    if value.Some? {
      AddedStatusRows(g, NewRow(Key(task, pred, value.value), None, o), other);
    }
  }

  lemma CreatedStatus(g: Graph, task: string, f: TaskFields, o: Origin, other: string)
    ensures StatusRows(Created(g, task, f, o).rows, other) ==
            StatusRows(g.rows, other) + if task == other then [NewRow(Key(task, TASK_STATUS, "open"), None, o)] else []
  {
    var g1 := Noted(g, task, TASK_STATUS, "open", o);
    AddedStatusRows(g, NewRow(Key(task, TASK_STATUS, "open"), None, o), other);
    var g2 := Noted(g1, task, TASK_TITLE, f.title, o);
    AddedStatusRows(g1, NewRow(Key(task, TASK_TITLE, f.title), None, o), other);
    var g3 := Noted(g2, task, TASK_OWNER, f.owner, o);
    AddedStatusRows(g2, NewRow(Key(task, TASK_OWNER, f.owner), None, o), other);
    NotesKeepStatus(g3, task, TASK_DUE, f.due, o, other);
    NotesKeepStatus(NotedIf(g3, task, TASK_DUE, f.due, o), task, TASK_LINKED_THREAD, f.thread, o, other);
  }

  /** A transition of one task leaves every other task's statuses alone. */
  lemma OtherTaskKeepsStatus(g: Graph, task: string, status: string, date: Option<Date>, ended: Date, o: Origin,
                             other: string)
    requires task != other
    ensures StatusRows(Transitioned(g, task, status, date, ended, o).rows, other) == StatusRows(g.rows, other)
  {
    var open := OpenStatuses(g.rows, task, o.scope);
    var g1 := if open == [] then g else g.(rows := Ended(g.rows, open[0].key, ended));
    if open != [] {
      StatusRowsAreOfTask(g.rows, task);
      FilterMembers(StatusRows(g.rows, task), (r: Row) => r.validTo.None? && r.scope == o.scope);
      assert open[0] in open;
      EndedStatusRows(g.rows, open[0].key, ended, other);
      StatusRowsAreOfTask(g.rows, other);
      var statuses := StatusRows(g.rows, other);
      forall i | 0 <= i < |statuses|
        ensures EndedRow(statuses[i], open[0].key, ended) == statuses[i]
      {
        assert statuses[i] in statuses;
      }
      assert Ended(statuses, open[0].key, ended) == statuses;
    }
    AddedStatusRows(g1, NewRow(Key(task, TASK_STATUS, status), date, o), other);
  }

  lemma OpenOfTiled(rows: seq<Row>, changes: seq<Transition>, scope: string, test: Row -> bool)
    requires Tiled(rows, changes, scope)
    requires forall r: Row :: test(r) == (r.validTo.None? && r.scope == scope)
    ensures Filter(rows, test) == [rows[|changes|]]
  {
    var n := |changes|;
    var front := rows[..n];
    forall i | 0 <= i < n
      ensures !test(front[i])
    {
      assert front[i].validTo == Some(changes[i].ended);
    }
    FilterNone(front, test);
    FilterSnoc(front, rows[n], test);
    assert rows == front + [rows[n]];
  }

  lemma TransitionRows(g: Graph, task: string, c: Transition, o: Origin, changes: seq<Transition>)
    requires Tiled(StatusRows(g.rows, task), changes, o.scope)
    ensures var rows := StatusRows(g.rows, task);
            StatusRows(Transitioned(g, task, c.status, c.date, c.ended, o).rows, task) ==
            Ended(rows, rows[|changes|].key, c.ended) + [NewRow(Key(task, TASK_STATUS, c.status), c.date, o)]
  {
    var rows := StatusRows(g.rows, task);
    OpenOfTiled(rows, changes, o.scope, (r: Row) => r.validTo.None? && r.scope == o.scope);
    var key := rows[|changes|].key;
    EndedStatusRows(g.rows, key, c.ended, task);
    AddedStatusRows(g.(rows := Ended(g.rows, key, c.ended)), NewRow(Key(task, TASK_STATUS, c.status), c.date, o), task);
  }

  lemma TransitionKeepsTiling(g: Graph, task: string, c: Transition, o: Origin, changes: seq<Transition>)
    requires Tiled(StatusRows(g.rows, task), changes, o.scope)
    ensures Tiled(StatusRows(Transitioned(g, task, c.status, c.date, c.ended, o).rows, task), changes + [c], o.scope)
  {
    TransitionRows(g, task, c, o, changes);
    RowsStayTiled(StatusRows(g.rows, task), changes, c, NewRow(Key(task, TASK_STATUS, c.status), c.date, o));
  }

  /** Only the open tile is there to end. */
  lemma EndedTile(rows: seq<Row>, changes: seq<Transition>, scope: string, ended: Date)
    requires Tiled(rows, changes, scope)
    ensures var n := |changes|;
            Ended(rows, rows[n].key, ended) == rows[n := rows[n].(validTo := Some(ended))]
  {
    var n := |changes|;
    forall i | 0 <= i < |rows|
      ensures EndedRow(rows[i], rows[n].key, ended) == if i == n then rows[n].(validTo := Some(ended)) else rows[i]
    {}
  }

  lemma RowsStayTiled(rows: seq<Row>, changes: seq<Transition>, c: Transition, row: Row)
    requires Tiled(rows, changes, row.scope)
    requires row.key.obj == c.status && row.validFrom == c.date && row.validTo.None?
    ensures Tiled(Ended(rows, rows[|changes|].key, c.ended) + [row], changes + [c], row.scope)
  {
    var n := |changes|;
    EndedTile(rows, changes, row.scope, c.ended);
    TileAppends(rows, rows[n := rows[n].(validTo := Some(c.ended))] + [row], changes, c, row);
  }

  lemma TileAppends(rows: seq<Row>, rows': seq<Row>, changes: seq<Transition>, c: Transition, row: Row)
    requires Tiled(rows, changes, row.scope)
    requires row.key.obj == c.status && row.validFrom == c.date && row.validTo.None?
    requires var n := |changes|; rows' == rows[n := rows[n].(validTo := Some(c.ended))] + [row]
    ensures Tiled(rows', changes + [c], row.scope)
  {
    var n, more := |changes|, changes + [c];
    forall i | 0 <= i < |more|
      ensures rows'[i + 1].key.obj == more[i].status && rows'[i + 1].validFrom == more[i].date
      ensures rows'[i].validTo == Some(more[i].ended)
    {
      assert i < n ==> more[i] == changes[i];
    }
  }

  /** The notes a completion adds leave no trace among the statuses. */
  lemma NextStatus(g: Graph, a: Action, task: string)
    requires !a.Create?
    ensures var c := TransitionOf(a);
            StatusRows(Next(g, a).rows, task) ==
            StatusRows(Transitioned(g, a.task, c.status, c.date, c.ended, a.origin).rows, task)
  {
    if a.Complete? {
      var g1 := Transitioned(g, a.task, "completed", Some(a.on), a.on, a.origin);
      NotesKeepStatus(g1, a.task, TASK_COMPLETED_AT, Some(a.onText), a.origin, task);
      NotesKeepStatus(Noted(g1, a.task, TASK_COMPLETED_AT, a.onText, a.origin), a.task, TASK_OUTCOME, a.outcome,
                      a.origin, task);
    }
  }

  lemma NextKeepsTiling(g: Graph, a: Action, task: string, scope: string, changes: seq<Transition>)
    requires Tiled(StatusRows(g.rows, task), changes, scope) && a.origin.scope == scope
    requires a.Create? ==> a.task != task
    ensures Tiled(StatusRows(Next(g, a).rows, task),
                  changes + if a.task == task && !a.Create? then [TransitionOf(a)] else [], scope)
  {
    assert changes + [] == changes;
    if a.Create? {
      CreatedStatus(g, a.task, a.fields, a.origin, task);
    } else {
      NextStatus(g, a, task);
      var c := TransitionOf(a);
      if a.task == task {
        TransitionKeepsTiling(g, task, c, a.origin, changes);
      } else {
        OtherTaskKeepsStatus(g, a.task, c.status, c.date, c.ended, a.origin, task);
      }
    }
  }

  /** In every reachable state, whatever happens to other tasks, a created task's statuses are one per change, end to
      end, and exactly the last of them is open. */
  lemma {:induction false} StatusesAlwaysTiled(g: Graph, task: string, f: TaskFields, o: Origin, actions: seq<Action>)
    requires StatusRows(g.rows, task) == [] && OwnRun(actions, task, o.scope)
    ensures Tiled(StatusRows(After(Created(g, task, f, o), actions).rows, task), Transitions(actions, task), o.scope)
  {
    if actions == [] {
      CreatedStatus(g, task, f, o, task);
    } else {
      var n := |actions| - 1;
      StatusesAlwaysTiled(g, task, f, o, actions[..n]);
      NextKeepsTiling(After(Created(g, task, f, o), actions[..n]), actions[n], task, o.scope,
                      Transitions(actions[..n], task));
    }
  }

  // ----- When the tiles cover each date once -----

  function CountValid(rows: seq<Row>, x: Date): nat {
    if rows == [] then 0
    else CountValid(rows[..|rows| - 1], x) + if rows[|rows| - 1].IsValidAt(x) then 1 else 0
  }

  /** A change that names its date ends the previous status there; one that names none, on the day of the call. */
  predicate WellDated(changes: seq<Transition>) {
    forall i :: 0 <= i < |changes| && changes[i].date.Some? ==> changes[i].date.value == changes[i].ended
  }

  lemma {:induction false} TransitionsAreWellDated(actions: seq<Action>, task: string)
    ensures WellDated(Transitions(actions, task))
  {
    if actions != [] {
      TransitionsAreWellDated(actions[..|actions| - 1], task);
    }
  }

  /** Every change names its date. */
  predicate Explicit(changes: seq<Transition>) {
    forall i :: 0 <= i < |changes| ==> changes[i].date.Some?
  }

  predicate NeverDecreasing(changes: seq<Transition>) {
    forall i :: 0 <= i < |changes| - 1 ==> changes[i].ended <= changes[i + 1].ended
  }

  /** Change n leaves two statuses valid at x: a dated change jumps back over x; an undated one has a status without a
      beginning, which meets the old one before its end, or another one before the old one's beginning. */
  predicate Overlaps(changes: seq<Transition>, n: nat, x: Date)
    requires n < |changes|
  {
    var notBegun := n > 0 && changes[n - 1].date.Some? && x < changes[n - 1].date.value;
    if changes[n].date.Some? then notBegun && changes[n].ended <= x else notBegun || x < changes[n].ended
  }

  function CountOverlaps(changes: seq<Transition>, x: Date): nat {
    if changes == [] then 0
    else CountOverlaps(changes[..|changes| - 1], x) + if Overlaps(changes, |changes| - 1, x) then 1 else 0
  }

  lemma ReopenedTiling(rows: seq<Row>, changes: seq<Transition>, scope: string)
    requires Tiled(rows, changes, scope) && changes != []
    ensures var n := |changes| - 1;
            Tiled(rows[..n] + [rows[n].(validTo := None, scope := scope)], changes[..n], scope)
  {}

  function ValidHere(row: Row, x: Date): nat {
    if row.IsValidAt(x) then 1 else 0
  }

  lemma CountValidSnoc(rows: seq<Row>, row: Row, x: Date)
    ensures CountValid(rows + [row], x) == CountValid(rows, x) + ValidHere(row, x)
  {
    assert (rows + [row])[..|rows|] == rows;
  }

  lemma CountLastTwo(front: seq<Row>, a: Row, b: Row, other: Row, x: Date)
    ensures CountValid((front + [a]) + [b], x) + ValidHere(other, x) ==
            CountValid(front + [other], x) + ValidHere(a, x) + ValidHere(b, x)
  {
    CountValidSnoc(front, other, x);
    CountValidSnoc(front, a, x);
    CountValidSnoc(front + [a], b, x);
  }

  lemma CountReopened(rows: seq<Row>, n: nat, reopened: Row, x: Date)
    requires |rows| == n + 2
    ensures CountValid(rows, x) + ValidHere(reopened, x) ==
            CountValid(rows[..n] + [reopened], x) + ValidHere(rows[n], x) + ValidHere(rows[n + 1], x)
  {
    assert rows == (rows[..n] + [rows[n]]) + [rows[n + 1]];
    CountLastTwo(rows[..n], rows[n], rows[n + 1], reopened, x);
  }

  /** What the last change adds to the statuses valid at a date. */
  lemma LastChange(rows: seq<Row>, changes: seq<Transition>, scope: string, x: Date)
    requires Tiled(rows, changes, scope) && WellDated(changes) && changes != []
    ensures var n := |changes| - 1;
            ValidHere(rows[n], x) + ValidHere(rows[n + 1], x) ==
            ValidHere(rows[n].(validTo := None, scope := scope), x) + if Overlaps(changes, n, x) then 1 else 0
  {
    var n := |changes| - 1;
    assert rows[n].validTo == Some(changes[n].ended) && rows[n + 1].validFrom == changes[n].date;
    assert rows[n].validFrom == if n == 0 then None else changes[n - 1].date;
  }

  /** The number of statuses valid at a date is one more than the number of changes that overlap there. */
  lemma {:induction false} ValidStatuses(rows: seq<Row>, changes: seq<Transition>, scope: string, x: Date)
    requires Tiled(rows, changes, scope) && WellDated(changes)
    ensures CountValid(rows, x) == 1 + CountOverlaps(changes, x)
    decreases |changes|
  {
    if changes == [] {
      CountValidSnoc([], rows[0], x);
      assert rows == [] + [rows[0]];
    } else {
      var n := |changes| - 1;
      var reopened := rows[n].(validTo := None, scope := scope);
      ReopenedTiling(rows, changes, scope);
      ValidStatuses(rows[..n] + [reopened], changes[..n], scope, x);
      CountReopened(rows, n, reopened, x);
      LastChange(rows, changes, scope, x);
    }
  }

  lemma {:induction false} OverlapCounts(changes: seq<Transition>, i: nat, x: Date)
    requires i < |changes| && Overlaps(changes, i, x)
    ensures CountOverlaps(changes, x) > 0
    decreases |changes|
  {
    if i < |changes| - 1 {
      OverlapCounts(changes[..|changes| - 1], i, x);
    }
  }

  lemma {:induction false} OrderedNeverOverlap(changes: seq<Transition>, x: Date)
    requires WellDated(changes) && Explicit(changes) && NeverDecreasing(changes)
    ensures CountOverlaps(changes, x) == 0
  {
    if changes != [] {
      OrderedNeverOverlap(changes[..|changes| - 1], x);
    }
  }

  lemma UnorderedOverlap(changes: seq<Transition>) returns (x: Date)
    requires WellDated(changes) && !(Explicit(changes) && NeverDecreasing(changes))
    ensures CountOverlaps(changes, x) > 0
  {
    if !Explicit(changes) {
      var i :| 0 <= i < |changes| && changes[i].date.None?;
      x := changes[i].ended - 1;
      OverlapCounts(changes, i, x);
    } else {
      var i :| 0 <= i < |changes| - 1 && changes[i].ended > changes[i + 1].ended;
      x := changes[i + 1].ended;
      OverlapCounts(changes, i + 1, x);
    }
  }

  ghost predicate SomeAtEachDate(rows: seq<Row>) {
    forall x :: CountValid(rows, x) >= 1
  }

  ghost predicate OneAtEachDate(rows: seq<Row>) {
    forall x :: CountValid(rows, x) == 1
  }

  lemma TiledExact(rows: seq<Row>, changes: seq<Transition>, scope: string)
    requires Tiled(rows, changes, scope) && WellDated(changes)
    ensures SomeAtEachDate(rows)
    ensures OneAtEachDate(rows) <==> Explicit(changes) && NeverDecreasing(changes)
  {
    forall x
      ensures CountValid(rows, x) == 1 + CountOverlaps(changes, x)
    {
      ValidStatuses(rows, changes, scope, x);
    }
    if Explicit(changes) && NeverDecreasing(changes) {
      forall x ensures CountValid(rows, x) == 1 { OrderedNeverOverlap(changes, x); }
    } else {
      var x := UnorderedOverlap(changes);
      assert CountValid(rows, x) > 1;
    }
  }

  /** In every reachable state some status is valid at every date; and exactly one is, at every date, if and only if
      every change named its date and the dates never decreased. Several changes on one day are fine. */
  lemma TilingExact(g: Graph, task: string, f: TaskFields, o: Origin, actions: seq<Action>)
    requires StatusRows(g.rows, task) == [] && OwnRun(actions, task, o.scope)
    ensures var rows := StatusRows(After(Created(g, task, f, o), actions).rows, task);
            && SomeAtEachDate(rows)
            && (OneAtEachDate(rows) <==>
                Explicit(Transitions(actions, task)) && NeverDecreasing(Transitions(actions, task)))
  {
    StatusesAlwaysTiled(g, task, f, o, actions);
    TransitionsAreWellDated(actions, task);
    TiledExact(StatusRows(After(Created(g, task, f, o), actions).rows, task), Transitions(actions, task), o.scope);
  }

  /** The tools' default call, an update without a date: the new status has no beginning, so that it and the first one
      are both valid at every date before the day of the call. */
  lemma UndatedUpdateOverlaps(g: Graph, task: string, f: TaskFields, o: Origin, status: string, today: Date, x: Date)
    requires StatusRows(g.rows, task) == [] && x < today
    ensures var rows := StatusRows(After(Created(g, task, f, o), [Update(task, status, None, today, o)]).rows, task);
            CountValid(rows, x) == 2
  {
    var actions := [Update(task, status, None, today, o)];
    StatusesAlwaysTiled(g, task, f, o, actions);
    OneUndated(task, status, today, o, x);
    var rows := StatusRows(After(Created(g, task, f, o), actions).rows, task);
    ValidStatuses(rows, Transitions(actions, task), o.scope, x);
  }

  lemma OneUndated(task: string, status: string, today: Date, o: Origin, x: Date)
    requires x < today
    ensures var changes := Transitions([Update(task, status, None, today, o)], task);
            WellDated(changes) && CountOverlaps(changes, x) == 1
  {
    var actions, change := [Update(task, status, None, today, o)], Transition(status, None, today);
    assert actions[..0] == [];
    assert Transitions(actions, task) == [change];
    assert [change][..0] == [];
  }
}
