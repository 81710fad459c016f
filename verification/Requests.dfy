/** What was asked for is what is stored and what is written: over whole runs, every proposal, and every triple it
    vouches for, carries what the create call asked. */
module Requests {
  import opened Common
  import opened TripleStore
  import opened StrictMode
  import opened Proposals
  import opened Lifecycle
  import opened Governance
  import opened Traceability

  /** The action asks for the proposal with this id, and nothing stands against it: it has facts and a valid plane. */
  predicate AsksFor(a: Action, id: string, digest: Digest) {
    && a.Create?
    && digest(a.request.Bound()) == id
    && a.request.facts != []
    && (if a.request.plane == Firm then a.request.employee.None?
        else a.request.employee.Some? && SafeEmployeeId(a.request.employee.value))
  }

  /** The first action of the run that asks for it. */
  predicate FirstAsks(actions: seq<Action>, j: nat, id: string, digest: Digest)
    requires j < |actions|
  {
    AsksFor(actions[j], id, digest) && forall i :: 0 <= i < j ==> !AsksFor(actions[i], id, digest)
  }

  /** The proposal carries what the request asked. */
  predicate Carries(p: Proposal, request: Request) {
    && p.plane == request.plane && p.employee == request.employee && p.scope == request.scope
    && p.entity == request.entity && p.agent == request.agent && p.proposer == request.proposer
    && p.facts == request.facts && p.report == request.report
  }

  /** Creating stores what was asked under a free id, and nothing where nobody asked. */
  lemma CreateCarries(w: World, a: Action, id: string, digest: Digest)
    requires id !in w.queue
    ensures id in Next(w, a, digest).queue <==> AsksFor(a, id, digest)
    ensures AsksFor(a, id, digest) ==> Carries(Next(w, a, digest).queue[id], a.request)
  {
    if a.Decide? {
      DecidedQueue(w, a.id, a.decision, a.strict, a.today, digest);
    }
  }

  predicate Asked(actions: seq<Action>, id: string, digest: Digest) {
    exists j :: 0 <= j < |actions| && AsksFor(actions[j], id, digest)
  }

  lemma AskedLast(actions: seq<Action>, id: string, digest: Digest)
    requires actions != []
    ensures var n := |actions| - 1;
            Asked(actions, id, digest) <==> Asked(actions[..n], id, digest) || AsksFor(actions[n], id, digest)
  {
    var n := |actions| - 1;
    if j :| 0 <= j < n && AsksFor(actions[..n][j], id, digest) {
      assert AsksFor(actions[j], id, digest);
    }
    if j :| 0 <= j < |actions| && AsksFor(actions[j], id, digest) {
      assert j < n ==> AsksFor(actions[..n][j], id, digest);
    }
  }

  /** What is stored stays stored and keeps what it carries. */
  lemma StaysCarried(w: World, a: Action, id: string, request: Request, digest: Digest)
    requires SoundQueue(w.queue, digest) && id in w.queue
    ensures id in Next(w, a, digest).queue
    ensures Carries(w.queue[id], request) ==> Carries(Next(w, a, digest).queue[id], request)
  {
    NextLifecycle(w, a, digest);
    assert Evolves(w.queue[id], Next(w, a, digest).queue[id]);
  }

  /** On every run a proposal is stored if and only if some action asked for it. */
  lemma {:induction false} StoredIffAsked(actions: seq<Action>, id: string, digest: Digest)
    ensures id in After(actions, digest).queue <==> Asked(actions, id, digest)
  {
    if actions != [] {
      var n := |actions| - 1;
      var w := After(actions[..n], digest);
      StoredIffAsked(actions[..n], id, digest);
      AskedLast(actions, id, digest);
      if id in w.queue {
        QueueStaysSound(actions[..n], digest);
        StaysCarried(w, actions[n], id, Request(Firm, None, "", "", "", "", [], ""), digest);
      } else {
        CreateCarries(w, actions[n], id, digest);
      }
    }
  }

  lemma CarriedOn(actions: seq<Action>, id: string, request: Request, digest: Digest)
    requires actions != [] && id in After(actions[..|actions| - 1], digest).queue
    requires Carries(After(actions[..|actions| - 1], digest).queue[id], request)
    ensures id in After(actions, digest).queue && Carries(After(actions, digest).queue[id], request)
  {
    var n := |actions| - 1;
    QueueStaysSound(actions[..n], digest);
    StaysCarried(After(actions[..n], digest), actions[n], id, request, digest);
  }

  lemma FirstCarries(actions: seq<Action>, id: string, digest: Digest)
    requires actions != [] && FirstAsks(actions, |actions| - 1, id, digest)
    ensures id in After(actions, digest).queue
    ensures Carries(After(actions, digest).queue[id], actions[|actions| - 1].request)
  {
    var n := |actions| - 1;
    assert !Asked(actions[..n], id, digest);
    StoredIffAsked(actions[..n], id, digest);
    CreateCarries(After(actions[..n], digest), actions[n], id, digest);
  }

  /** And it carries what the first of them asked, whatever later ones asked and whatever was decided. */
  lemma {:induction false} StoredAsRequested(actions: seq<Action>, j: nat, id: string, digest: Digest)
    requires j < |actions| && FirstAsks(actions, j, id, digest)
    ensures id in After(actions, digest).queue && Carries(After(actions, digest).queue[id], actions[j].request)
    decreases |actions|
  {
    if j == |actions| - 1 {
      FirstCarries(actions, id, digest);
    } else {
      var front := actions[..|actions| - 1];
      assert FirstAsks(front, j, id, digest);
      StoredAsRequested(front, j, id, digest);
      CarriedOn(actions, id, front[j].request, digest);
    }
  }

  lemma FirstOfAsking(actions: seq<Action>, id: string, digest: Digest) returns (j: nat)
    requires Asked(actions, id, digest)
    ensures j < |actions| && FirstAsks(actions, j, id, digest)
  {
    j := 0;
    while !AsksFor(actions[j], id, digest)
      invariant j < |actions| && forall i :: 0 <= i < j ==> !AsksFor(actions[i], id, digest)
      decreases |actions| - j
    {
      j := j + 1;
    }
  }

  /** On every run each triple has the scope, and its first report, that the first create call for the proposal that
      vouches for it asked for. */
  lemma TripleAsRequested(actions: seq<Action>, digest: Digest, i: nat)
    returns (id: string, j: nat, claim: Key, since: nat)
    requires i < |After(actions, digest).graph.rows|
    ensures var w := After(actions, digest);
            && Vouches(w, w.graph.rows[i], id, claim, since)
            && j < |actions| && FirstAsks(actions, j, id, digest)
            && w.graph.rows[i].scope == actions[j].request.scope
            && w.graph.rows[i].file == Some(actions[j].request.report)
            && Claimed(actions[j].request.facts, claim)
  {
    id, claim, since := EveryTripleHasAnApproval(actions, digest, i);
    StoredIffAsked(actions, id, digest);
    j := FirstOfAsking(actions, id, digest);
    StoredAsRequested(actions, j, id, digest);
  }
}
