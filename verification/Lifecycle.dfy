/** The proposal state machine over whole runs: every stored proposal's history is a legal word of decisions and its
    other fields follow from that word. */
module Lifecycle {
  import opened Common
  import opened Proposals

  /** (reject reopen)*, then nothing, a rejection, or an approval. */
  predicate LegalHistory(h: seq<DecisionEntry>) {
    forall i :: 0 <= i < |h| ==>
                  if i % 2 == 1 then h[i].verdict == Reopen
                  else h[i].verdict == Reject || (h[i].verdict == Approve && i == |h| - 1)
  }

  function StatusAfter(h: seq<DecisionEntry>): Status {
    if h == [] || h[|h| - 1].verdict == Reopen then Pending
    else if h[|h| - 1].verdict == Approve then Approved
    else Rejected
  }

  function Rejections(h: seq<DecisionEntry>): nat {
    if h == [] then 0 else Rejections(h[..|h| - 1]) + if h[|h| - 1].verdict == Reject then 1 else 0
  }

  /** The proposal is what its id says: filed under the digest of its content, with a valid plane and some fact. */
  predicate Authentic(p: Proposal, id: string, digest: Digest) {
    p.id == id && p.IntegrityOk(digest) && ValidPlane(p.plane, p.employee) && p.facts != []
  }

  predicate AllGiveReasons(h: seq<DecisionEntry>) {
    forall i :: 0 <= i < |h| ==> !Blank(h[i].rationale)
  }

  /** The decision fields are those of the last decision, or empty while the proposal is pending. */
  predicate ShowsLastDecision(p: Proposal) {
    if p.status == Pending then p.rationale.None? && p.reviewer.None? && p.decidedAt.None?
    else
      p.history != [] &&
      var last := p.history[|p.history| - 1];
      p.rationale == Some(last.rationale) && p.reviewer == Some(last.reviewer) && p.decidedAt == Some(last.at)
  }

  /** The history is a legal word of decisions with reasons, and it decides all the other decision fields. */
  predicate FollowsHistory(p: Proposal) {
    && LegalHistory(p.history)
    && AllGiveReasons(p.history)
    && p.status == StatusAfter(p.history)
    && p.rejections == Rejections(p.history)
    && ShowsLastDecision(p)
  }

  /** What holds of a stored proposal at any time. */
  predicate Sound(p: Proposal, id: string, digest: Digest) {
    Authentic(p, id, digest) && FollowsHistory(p)
  }

  ghost predicate SoundQueue(queue: Queue, digest: Digest) {
    forall id :: id in queue ==> Sound(queue[id], id, digest)
  }

  /** The same proposal at a later time: only its decision fields moved, its history grew, and an approval is final. */
  predicate Evolves(p: Proposal, q: Proposal) {
    && q == p.(status := q.status, rationale := q.rationale, reviewer := q.reviewer, decidedAt := q.decidedAt,
               history := q.history, rejections := q.rejections)
    && p.history <= q.history
    && (p.status == Approved ==> q == p)
  }

  /** The same queue at a later time: nothing is lost, and everything in it has at most evolved. */
  predicate Later(before: Queue, after: Queue) {
    forall id :: id in before ==> id in after && Evolves(before[id], after[id])
  }

  lemma LaterTrans(a: Queue, b: Queue, c: Queue)
    requires Later(a, b) && Later(b, c)
    ensures Later(a, c)
  {
    forall id | id in a
      ensures id in c && Evolves(a[id], c[id])
    {
      assert Evolves(a[id], b[id]) && Evolves(b[id], c[id]);
    }
  }

  /** A history can be extended only by a decision that its status expects. */
  lemma HistoryExtends(h: seq<DecisionEntry>, d: DecisionEntry)
    requires LegalHistory(h) && StatusAfter(h) == Expects(d.verdict)
    ensures LegalHistory(h + [d])
  {
    var n := |h|;
    if n > 0 {
      assert if (n - 1) % 2 == 1 then h[n - 1].verdict == Reopen
             else h[n - 1].verdict == Reject || h[n - 1].verdict == Approve;
    }
    assert d.verdict == Reopen <==> n % 2 == 1;
    forall i | 0 <= i < |h + [d]|
      ensures if i % 2 == 1 then (h + [d])[i].verdict == Reopen
              else (h + [d])[i].verdict == Reject || ((h + [d])[i].verdict == Approve && i == |h + [d]| - 1)
    {
      if i < n {
        assert (h + [d])[i] == h[i];
      }
    }
  }

  lemma DecisionKeepsHistory(p: Proposal, d: DecisionEntry)
    requires FollowsHistory(p) && p.status == Expects(d.verdict) && !Blank(d.rationale)
    ensures FollowsHistory(WithDecision(p, d))
  {
    HistoryExtends(p.history, d);
    RejectionsSnoc(p.history, d);
    ReasonsSnoc(p.history, d);
    LastDecisionShows(p, d);
  }

  lemma ReasonsSnoc(h: seq<DecisionEntry>, d: DecisionEntry)
    requires AllGiveReasons(h) && !Blank(d.rationale)
    ensures AllGiveReasons(h + [d])
  {
    var all := h + [d];
    forall i | 0 <= i < |all|
      ensures !Blank(all[i].rationale)
    {
      assert i < |h| ==> all[i] == h[i];
    }
  }

  lemma LastDecisionShows(p: Proposal, d: DecisionEntry)
    ensures ShowsLastDecision(WithDecision(p, d))
    ensures WithDecision(p, d).history == p.history + [d]
    ensures WithDecision(p, d).status == StatusAfter(p.history + [d])
    ensures WithDecision(p, d).rejections == p.rejections + if d.verdict == Reject then 1 else 0
  {}

  lemma RejectionsSnoc(h: seq<DecisionEntry>, d: DecisionEntry)
    ensures Rejections(h + [d]) == Rejections(h) + if d.verdict == Reject then 1 else 0
  {
    assert (h + [d])[..|h|] == h;
  }

  lemma DecisionEvolves(p: Proposal, d: DecisionEntry, digest: Digest)
    requires p.status == Expects(d.verdict)
    ensures Evolves(p, WithDecision(p, d))
    ensures Authentic(p, p.id, digest) ==> Authentic(WithDecision(p, d), p.id, digest)
  {}

  lemma DecisionKeepsSound(queue: Queue, digest: Digest, id: string, d: DecisionEntry)
    requires SoundQueue(queue, digest) && Admitted(queue, digest, id, d.verdict, d.rationale).Ok?
    ensures Sound(WithDecision(queue[id], d), id, digest)
    ensures Evolves(queue[id], WithDecision(queue[id], d))
  {
    assert Sound(queue[id], id, digest);
    DecisionKeepsHistory(queue[id], d);
    DecisionEvolves(queue[id], d, digest);
  }

  lemma DecisionIsLater(queue: Queue, digest: Digest, id: string, d: DecisionEntry)
    requires SoundQueue(queue, digest) && Admitted(queue, digest, id, d.verdict, d.rationale).Ok?
    ensures SoundQueue(queue[id := WithDecision(queue[id], d)], digest)
    ensures Later(queue, queue[id := WithDecision(queue[id], d)])
  {
    DecisionKeepsSound(queue, digest, id, d);
  }

  lemma CreateKeepsSound(queue: Queue, digest: Digest, r: Request, now: int)
    requires SoundQueue(queue, digest) && Created(queue, digest, r, now).Ok?
    ensures SoundQueue(queue[digest(r.Bound()) := Created(queue, digest, r, now).value], digest)
  {}

  /** The id of a stored proposal always matches its content, so no operation ever reports tampering. */
  lemma NeverTampered(queue: Queue, digest: Digest, id: string, verdict: Verdict, rationale: string)
    requires SoundQueue(queue, digest)
    ensures Admitted(queue, digest, id, verdict, rationale) != Err(Tampered)
    ensures Admitted(queue, digest, id, verdict, rationale).Ok? <==>
            id in queue && StatusAfter(queue[id].history) == Expects(verdict) && !Blank(rationale)
  {
    if id in queue {
      assert Sound(queue[id], id, digest);
    }
  }

  /** A decision that an approved proposal was ever given is its last. */
  lemma ApprovedIsFinal(queue: Queue, digest: Digest, id: string, verdict: Verdict, rationale: string)
    requires SoundQueue(queue, digest) && id in queue
    requires exists i :: 0 <= i < |queue[id].history| && queue[id].history[i].verdict == Approve
    ensures Admitted(queue, digest, id, verdict, rationale) == Err(WrongStatus(Approved))
  {
    assert Sound(queue[id], id, digest);
  }
}
