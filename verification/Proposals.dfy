/** Proposals, their store, and the four operations of the promotion pipeline. SHA-256 over the identity-bearing
    fields is an arbitrary function: nothing below needs it to be free of collisions. */
module Proposals {
  import opened Common
  import opened TripleStore
  import opened Extraction
  import opened Promotion

  datatype Plane = Personal | Firm

  datatype Status = Pending | Approved | Rejected

  datatype Verdict = Approve | Reject | Reopen

  datatype DecisionEntry = DecisionEntry(verdict: Verdict, reviewer: string, rationale: string, at: int)

  /** The fields the proposal id is computed from; a missing employee id counts as the empty string. */
  datatype Binding = Binding(plane: Plane, employee: string, entity: string, report: string, facts: seq<Fact>)

  type Digest = Binding -> string

  datatype Proposal = Proposal(id: string, plane: Plane, employee: Option<string>, scope: string, entity: string,
                               agent: string, proposer: string, facts: seq<Fact>, report: string,
                               status: Status, rationale: Option<string>, reviewer: Option<string>,
                               createdAt: int, decidedAt: Option<int>, history: seq<DecisionEntry>, rejections: nat)
  {
    function Bound(): Binding {
      Binding(plane, if employee.Some? then employee.value else "", entity, report, facts)
    }

    predicate IntegrityOk(digest: Digest) {
      id == digest(Bound())
    }
  }

  type Queue = map<string, Proposal>

  datatype PipelineError =
    | NoFacts
    | BadPlane
    | Duplicate
    | NotFound
    | WrongStatus(status: Status)
    | Tampered
    | RationaleRequired
    | Blocked(why: ApplyError)

  predicate SafeSegmentChar(c: char) {
    'A' <= c <= 'Z' || 'a' <= c <= 'z' || '0' <= c <= '9' || c == '.' || c == '_' || c == '-'
  }

  predicate SafeSegment(s: string) {
    1 <= |s| <= 128 && s[0] != '.' && forall i :: 0 <= i < |s| ==> SafeSegmentChar(s[i])
  }

  /** `validate_employee_id`; the pattern's `$` also lets one trailing line feed through. */
  predicate SafeEmployeeId(s: string) {
    SafeSegment(s) || (s != "" && s[|s| - 1] == '\n' && SafeSegment(s[..|s| - 1]))
  }

  /** An employee id is 1 to 128 letters, digits, dots, underscores and dashes, not led by a dot, with or without a line
      feed behind them. */
  lemma SafeEmployeeIdExact(s: string)
    ensures SafeEmployeeId(s) <==>
            var n := if s != "" && s[|s| - 1] == '\n' then |s| - 1 else |s|;
            && 1 <= n <= 128 && s[0] != '.'
            && forall i :: 0 <= i < n ==>
                 || 'a' <= s[i] <= 'z' || 'A' <= s[i] <= 'Z' || '0' <= s[i] <= '9'
                 || s[i] in {'.', '_', '-'}
  {
    if s != "" && s[|s| - 1] == '\n' {
      assert !SafeSegmentChar(s[|s| - 1]);
      assert forall i :: 0 <= i < |s| - 1 ==> s[..|s| - 1][i] == s[i];
    }
  }

  predicate ValidPlane(plane: Plane, employee: Option<string>) {
    match plane
    case Personal => employee.Some? && SafeEmployeeId(employee.value)
    case Firm => employee.None?
  }

  // ----- What each operation makes of a proposal -----

  function WithDecision(p: Proposal, d: DecisionEntry): Proposal {
    match d.verdict
    case Approve =>
      p.(status := Approved, rationale := Some(d.rationale), reviewer := Some(d.reviewer), decidedAt := Some(d.at),
         history := p.history + [d])
    case Reject =>
      p.(status := Rejected, rationale := Some(d.rationale), reviewer := Some(d.reviewer), decidedAt := Some(d.at),
         history := p.history + [d], rejections := p.rejections + 1)
    case Reopen =>
      p.(status := Pending, rationale := None, reviewer := None, decidedAt := None, history := p.history + [d])
  }

  /** The status an operation needs to find. */
  function Expects(v: Verdict): Status {
    if v == Reopen then Rejected else Pending
  }

  /** The checks that come before a decision, in their order. */
  function Admitted(queue: Queue, digest: Digest, id: string, verdict: Verdict, rationale: string):
    Result<Proposal, PipelineError>
  {
    if id !in queue then Err(NotFound)
    else
      var p := queue[id];
      if p.status != Expects(verdict) then Err(WrongStatus(p.status))
      else if !p.IntegrityOk(digest) then Err(Tampered)
      else if Blank(rationale) then Err(RationaleRequired)
      else Ok(p)
  }

  function ContextOf(p: Proposal, today: Date): Context {
    Context(Some(SourceCloset(p)), Some(p.report), p.scope, today)
  }

  function SourceCloset(p: Proposal): string {
    if p.plane == Firm then "firm" else "personal/" + if p.employee.Some? then p.employee.value else "None"
  }

  /** What a caller of `create_proposal` supplies. */
  datatype Request = Request(plane: Plane, employee: Option<string>, scope: string, entity: string, agent: string,
                             proposer: string, facts: seq<Fact>, report: string)
  {
    function Bound(): Binding {
      Binding(plane, if employee.Some? then employee.value else "", entity, report, facts)
    }

    function Fresh(digest: Digest, now: int): Proposal {
      Proposal(digest(Bound()), plane, employee, scope, entity, agent, proposer, facts, report,
               Pending, None, None, now, None, [], 0)
    }
  }

  /** Two requests are for the same proposal, whatever the digest, if and only if they agree on plane, employee (none
      and empty being the same), entity, report and facts; scope, agent and proposer have no part in it. */
  lemma SameBindingExact(a: Request, b: Request)
    ensures a.Bound() == b.Bound() <==>
            && a.plane == b.plane && a.entity == b.entity && a.report == b.report && a.facts == b.facts
            && (a.employee == b.employee || {a.employee, b.employee} == {None, Some("")})
  {
    assert a.employee == Some("") && b.employee == None ==> {a.employee, b.employee} == {None, Some("")};
    assert a.employee == None && b.employee == Some("") ==> {a.employee, b.employee} == {None, Some("")};
    if {a.employee, b.employee} == {None, Some("")} {
      assert a.employee in {None, Some("")} && b.employee in {None, Some("")};
    }
  }

  /** Where a proposal's facts are filed, and under what scope and report. */
  lemma ContextMeans(p: Proposal, today: Date)
    ensures ContextOf(p, today).scope == p.scope && ContextOf(p, today).file == Some(p.report)
    ensures ContextOf(p, today).today == today
    ensures p.plane == Firm ==> ContextOf(p, today).closet == Some("firm")
    ensures p.plane == Personal && p.employee.Some? ==>
              ContextOf(p, today).closet == Some("personal/" + p.employee.value)
  {}

  function Created(queue: Queue, digest: Digest, r: Request, now: int): Result<Proposal, PipelineError> {
    if r.facts == [] then Err(NoFacts)
    else if digest(r.Bound()) in queue then Ok(queue[digest(r.Bound())])
    else if !ValidPlane(r.plane, r.employee) then Err(BadPlane)
    else Ok(r.Fresh(digest, now))
  }

  function Promoted(g: Graph, queue: Queue, digest: Digest, id: string, d: DecisionEntry, strict: bool, today: Date):
    Result<(Graph, Proposal), PipelineError>
    requires d.verdict == Approve
  {
    var admitted := Admitted(queue, digest, id, Approve, d.rationale);
    if admitted.Err? then Err(admitted.error)
    else
      var p := admitted.value;
      var applied := Applied(g, p.facts, ContextOf(p, today), strict);
      if applied.Err? then Err(Blocked(applied.error)) else Ok((applied.value, WithDecision(p, d)))
  }

  // ----- The store -----

  class ProposalStore {
    const digest: Digest
    var proposals: Queue

    constructor (digest: Digest)
      ensures this.digest == digest && proposals == map[]
    {
      this.digest := digest;
      proposals := map[];
    }

    method Insert(p: Proposal) returns (r: Result<(), PipelineError>)
      modifies this
      ensures r.Ok? <==> ValidPlane(p.plane, p.employee) && p.id !in old(proposals)
      ensures proposals == if r.Ok? then old(proposals)[p.id := p] else old(proposals)
      ensures r.Err? ==> r.error == if ValidPlane(p.plane, p.employee) then Duplicate else BadPlane
    {
      if !ValidPlane(p.plane, p.employee) {
        return Err(BadPlane);
      }
      if p.id in proposals {
        return Err(Duplicate);
      }
      proposals := proposals[p.id := p];
      return Ok(());
    }

    method Save(p: Proposal) returns (r: Result<(), PipelineError>)
      modifies this
      ensures r.Ok? <==> ValidPlane(p.plane, p.employee)
      ensures proposals == if r.Ok? then old(proposals)[p.id := p] else old(proposals)
    {
      if !ValidPlane(p.plane, p.employee) {
        return Err(BadPlane);
      }
      proposals := proposals[p.id := p];
      return Ok(());
    }

    method Get(id: string) returns (r: Option<Proposal>)
      ensures r == if id in proposals then Some(proposals[id]) else None
    {
      return if id in proposals then Some(proposals[id]) else None;
    }
  }

  /** What `insert` let in and every operation keeps: a proposal is filed under its own id, with a valid plane. */
  ghost predicate Filed(queue: Queue) {
    forall id :: id in queue ==> queue[id].id == id && ValidPlane(queue[id].plane, queue[id].employee)
  }

  // ----- The pipeline -----

  method CreateProposal(store: ProposalStore, request: Request, now: int) returns (r: Result<Proposal, PipelineError>)
    modifies store
    ensures r == Created(old(store.proposals), store.digest, request, now)
    ensures store.proposals == if r.Ok? then old(store.proposals)[store.digest(request.Bound()) := r.value]
                               else old(store.proposals)
    ensures r.Ok? && store.digest(request.Bound()) !in old(store.proposals) ==>
              var p := r.value;
              && p.id == store.digest(request.Bound())
              && p.plane == request.plane && p.employee == request.employee && p.scope == request.scope
              && p.entity == request.entity && p.agent == request.agent && p.proposer == request.proposer
              && p.facts == request.facts && p.report == request.report
              && p.status == Pending && p.rationale == None && p.reviewer == None
              && p.createdAt == now && p.decidedAt == None && p.history == [] && p.rejections == 0
    ensures r.Err? ==> r.error == if request.facts == [] then NoFacts else BadPlane
    ensures r.Err? ==> request.facts == [] || !ValidPlane(request.plane, request.employee)
  {
    if request.facts == [] {
      return Err(NoFacts);
    }
    var existing := store.Get(store.digest(request.Bound()));
    if existing.Some? {
      assert store.proposals == store.proposals[store.digest(request.Bound()) := existing.value];
      return Ok(existing.value);
    }
    var p := request.Fresh(store.digest, now);
    var inserted := store.Insert(p);
    return if inserted.Ok? then Ok(p) else Err(inserted.error);
  }

  method RequirePending(store: ProposalStore, id: string) returns (r: Result<Proposal, PipelineError>)
    ensures r == if id !in store.proposals then Err(NotFound)
                 else
                   var p := store.proposals[id];
                   if p.status != Pending then Err(WrongStatus(p.status))
                   else if !p.IntegrityOk(store.digest) then Err(Tampered)
                   else Ok(p)
  {
    var found := store.Get(id);
    if found.None? {
      return Err(NotFound);
    }
    var p := found.value;
    if p.status != Pending {
      return Err(WrongStatus(p.status));
    }
    if !p.IntegrityOk(store.digest) {
      return Err(Tampered);
    }
    return Ok(p);
  }

  /** The facts land first, so that a refused write never leaves an approval behind. */
  method Promote(store: ProposalStore, kg: KnowledgeGraph, id: string, reviewer: string, rationale: string,
                 strict: bool, today: Date, now: int)
    returns (r: Result<Proposal, PipelineError>)
    requires Filed(store.proposals)
    modifies store, kg
    ensures var promoted := Promoted(old(kg.State()), old(store.proposals), store.digest, id,
                                     DecisionEntry(Approve, reviewer, rationale, now), strict, today);
            if promoted.Ok? then
              && r == Ok(promoted.value.1)
              && kg.State() == promoted.value.0
              && store.proposals == old(store.proposals)[id := promoted.value.1]
            else
              && r == Err(promoted.error)
              && kg.State() == old(kg.State())
              && store.proposals == old(store.proposals)
  {
    var pending := RequirePending(store, id);
    if pending.Err? {
      return Err(pending.error);
    }
    if Blank(rationale) {
      return Err(RationaleRequired);
    }
    var p := pending.value;
    var applied := ApplyFacts(kg, p.facts, ContextOf(p, today), strict);
    if applied.Err? {
      return Err(Blocked(applied.error));
    }
    var approved := p.(status := Approved, rationale := Some(rationale), reviewer := Some(reviewer),
                       decidedAt := Some(now),
                       history := p.history + [DecisionEntry(Approve, reviewer, rationale, now)]);
    var saved := store.Save(approved);
    return Ok(approved);
  }

  method RejectProposal(store: ProposalStore, id: string, reviewer: string, rationale: string, now: int)
    returns (r: Result<Proposal, PipelineError>)
    requires Filed(store.proposals)
    modifies store
    ensures var admitted := Admitted(old(store.proposals), store.digest, id, Reject, rationale);
            if admitted.Ok? then
              && r == Ok(WithDecision(admitted.value, DecisionEntry(Reject, reviewer, rationale, now)))
              && store.proposals == old(store.proposals)[id := r.value]
            else r == Err(admitted.error) && store.proposals == old(store.proposals)
  {
    var pending := RequirePending(store, id);
    if pending.Err? {
      return Err(pending.error);
    }
    if Blank(rationale) {
      return Err(RationaleRequired);
    }
    var p := pending.value;
    var rejected := p.(status := Rejected, rationale := Some(rationale), reviewer := Some(reviewer),
                       decidedAt := Some(now), rejections := p.rejections + 1,
                       history := p.history + [DecisionEntry(Reject, reviewer, rationale, now)]);
    var saved := store.Save(rejected);
    return Ok(rejected);
  }

  method ReopenProposal(store: ProposalStore, id: string, reviewer: string, rationale: string, now: int)
    returns (r: Result<Proposal, PipelineError>)
    requires Filed(store.proposals)
    modifies store
    ensures var admitted := Admitted(old(store.proposals), store.digest, id, Reopen, rationale);
            if admitted.Ok? then
              && r == Ok(WithDecision(admitted.value, DecisionEntry(Reopen, reviewer, rationale, now)))
              && store.proposals == old(store.proposals)[id := r.value]
            else r == Err(admitted.error) && store.proposals == old(store.proposals)
  {
    var found := store.Get(id);
    if found.None? {
      return Err(NotFound);
    }
    var p := found.value;
    if p.status != Rejected {
      return Err(WrongStatus(p.status));
    }
    if !p.IntegrityOk(store.digest) {
      return Err(Tampered);
    }
    if Blank(rationale) {
      return Err(RationaleRequired);
    }
    var reopened := p.(status := Pending, rationale := None, reviewer := None, decidedAt := None,
                       history := p.history + [DecisionEntry(Reopen, reviewer, rationale, now)]);
    var saved := store.Save(reopened);
    return Ok(reopened);
  }
}
