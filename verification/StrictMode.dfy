/** Constitutional mode: what a coherence scan that found nothing guarantees about the graph after the pass, and
    exactly which proposals a crashed strict promote can always be retried with. */
module StrictMode {
  import opened Common
  import opened TripleStore
  import opened Extraction
  import opened Promotion
  import opened Retry

  /** The triple a fact asserts, if it is of the kind that lands in `triples`. */
  function Claim(fact: Fact): Option<Key> {
    match fact
    case RelationshipFact(_, _, s, p, o) => Some(Key(s, p, o))
    case PreferenceFact(_, _, s, o) => Some(Key(s, PREFERS, o))
    case EventFact(_, _, name, _, d) => Some(Key(name, EVENT, d))
    case UpdateFact(_, _, s, p, o, _, _) => Some(Key(s, p, o))
    case _ => None
  }

  predicate SameSlot(a: Key, b: Key) {
    a.subject == b.subject && a.pred == b.pred
  }

  /** The fact can stand beside a current object: it asserts that object, or replaces it. */
  predicate Tolerates(fact: Fact, obj: string)
    requires Claim(fact).Some?
  {
    || Claim(fact).value.obj == obj
    || (fact.UpdateFact? && fact.Supersedes() && fact.supersedes.value == obj)
  }

  /** Some fact of the proposal asserts this very triple. */
  predicate Claimed(facts: seq<Fact>, key: Key) {
    exists f :: 0 <= f < |facts| && Claim(facts[f]) == Some(key)
  }

  /** Some fact of the proposal speaks about this subject and predicate. */
  predicate TouchesSlot(facts: seq<Fact>, key: Key) {
    exists f :: 0 <= f < |facts| && Claim(facts[f]).Some? && SameSlot(Claim(facts[f]).value, key)
  }

  // ----- What an empty coherence scan says -----

  lemma {:induction false} NoWarnings(rows: seq<Row>, key: Key, tier: Tier)
    ensures Warnings(rows, key, tier) == [] <==> forall i :: 0 <= i < |rows| ==> !Contradicts(rows[i], key)
  {
    if rows != [] {
      NoWarnings(rows[..|rows| - 1], key, tier);
    }
  }

  /** A warning survives the superseded-object filter exactly when its row holds neither object. */
  lemma {:induction false} NoFilteredWarnings(rows: seq<Row>, key: Key, tier: Tier, prior: string)
    ensures Filter(Warnings(rows, key, tier), (w: Warning) => w.conflictingObject != prior) == [] <==>
            forall i :: 0 <= i < |rows| ==> !(Contradicts(rows[i], key) && rows[i].key.obj != prior)
  {
    if rows != [] {
      var n := |rows| - 1;
      NoFilteredWarnings(rows[..n], key, tier, prior);
      var front, all := Warnings(rows[..n], key, tier), Warnings(rows, key, tier);
      if Contradicts(rows[n], key) {
        assert all[..|all| - 1] == front;
      } else {
        assert all == front;
      }
    }
  }

  ghost predicate Coherent(rows: seq<Row>, fact: Fact) {
    Claim(fact).Some? ==>
      forall i :: 0 <= i < |rows| && rows[i].validTo.None? && SameSlot(rows[i].key, Claim(fact).value) ==>
                    Tolerates(fact, rows[i].key.obj)
  }

  lemma NoWarningsOf(rows: seq<Row>, fact: Fact)
    ensures WarningsOf(rows, fact) == [] <==> Coherent(rows, fact)
  {
    if Claim(fact).Some? {
      var key := Claim(fact).value;
      NoWarnings(rows, key, DEFAULT_TIER);
      if fact.UpdateFact? && fact.Supersedes() {
        NoFilteredWarnings(rows, key, DEFAULT_TIER, fact.supersedes.value);
      }
    }
  }

  lemma {:induction false} ScanCoherent(rows: seq<Row>, facts: seq<Fact>)
    ensures AllWarnings(rows, facts) == [] <==> forall f :: 0 <= f < |facts| ==> Coherent(rows, facts[f])
  {
    if facts != [] {
      var n := |facts| - 1;
      ScanCoherent(rows, facts[..n]);
      NoWarningsOf(rows, facts[n]);
    }
  }

  // ----- Where an open row can come from -----

  /** An open row after a step was open before, or is the one this step asserted. */
  lemma StepOpens(g: Graph, op: Op, ctx: Context, i: nat)
    requires Step(g, op, ctx).Ok? && i < |Step(g, op, ctx).value.rows|
    requires Step(g, op, ctx).value.rows[i].validTo.None?
    ensures (i < |g.rows| && g.rows[i].validTo.None? && g.rows[i].key == Step(g, op, ctx).value.rows[i].key) ||
            (op.Assert? && op.key == Step(g, op, ctx).value.rows[i].key)
    ensures op.End? ==> Step(g, op, ctx).value.rows[i].key != op.key
  {}

  /** An open row after a run was open at the start and never ended, or is asserted by the run. */
  lemma {:induction false} RunOpens(g: Graph, ops: seq<Op>, ctx: Context, i: nat)
    requires Run(g, ops, ctx).Ok? && i < |Run(g, ops, ctx).value.rows|
    requires Run(g, ops, ctx).value.rows[i].validTo.None?
    ensures var key := Run(g, ops, ctx).value.rows[i].key;
            || (exists j :: 0 <= j < |ops| && ops[j].Assert? && ops[j].key == key)
            || (i < |g.rows| && g.rows[i].validTo.None? && g.rows[i].key == key &&
                forall j :: 0 <= j < |ops| && ops[j].End? ==> ops[j].key != key)
  {
    if ops != [] {
      var n := |ops| - 1;
      var g' := Run(g, ops[..n], ctx).value;
      StepOpens(g', ops[n], ctx, i);
      var key := Run(g, ops, ctx).value.rows[i].key;
      if !(ops[n].Assert? && ops[n].key == key) {
        RunOpens(g, ops[..n], ctx, i);
        if j :| 0 <= j < n && ops[..n][j].Assert? && ops[..n][j].key == key {
          assert ops[j].Assert? && ops[j].key == key;
        }
      }
    }
  }

  lemma {:induction false} AssertsAreClaims(facts: seq<Fact>, j: nat)
    requires j < |AllOps(facts)| && AllOps(facts)[j].Assert?
    ensures Claimed(facts, AllOps(facts)[j].key)
  {
    var n := |facts| - 1;
    var front := AllOps(facts[..n]);
    if j < |front| {
      AssertsAreClaims(facts[..n], j);
      var f :| 0 <= f < n && Claim(facts[..n][f]) == Some(front[j].key);
      assert Claim(facts[f]) == Some(AllOps(facts)[j].key);
    } else {
      assert AllOps(facts)[j] == Ops(facts[n])[j - |front|];
      assert Claim(facts[n]) == Some(AllOps(facts)[j].key);
    }
  }

  lemma {:induction false} SupersededIsEnded(facts: seq<Fact>, f: nat) returns (j: nat)
    requires f < |facts| && facts[f].UpdateFact? && facts[f].Supersedes()
    ensures j < |AllOps(facts)| && AllOps(facts)[j].End?
    ensures AllOps(facts)[j].key == Key(facts[f].subject, facts[f].pred, facts[f].supersedes.value)
  {
    var n := |facts| - 1;
    var front := AllOps(facts[..n]);
    assert AllOps(facts) == front + Ops(facts[n]);
    if f < n {
      j := SupersededIsEnded(facts[..n], f);
    } else {
      j := |front| + 1;
    }
  }

  // ----- Agreement after a strict promote -----

  /** A row that was open before a coherent pass, at a slot some fact speaks about, and that the pass never ends, is
      what that fact asserts. */
  lemma SurvivorIsClaim(rows: seq<Row>, facts: seq<Fact>, i: nat, f: nat)
    requires i < |rows| && rows[i].validTo.None?
    requires forall j :: 0 <= j < |AllOps(facts)| && AllOps(facts)[j].End? ==> AllOps(facts)[j].key != rows[i].key
    requires f < |facts| && Coherent(rows, facts[f]) && Claim(facts[f]).Some?
             && SameSlot(Claim(facts[f]).value, rows[i].key)
    ensures Claim(facts[f]) == Some(rows[i].key)
  {
    assert Tolerates(facts[f], rows[i].key.obj);
    if facts[f].UpdateFact? && facts[f].Supersedes() {
      var j := SupersededIsEnded(facts, f);
    }
  }

  /** A run that starts from a coherent graph leaves, at a slot some fact speaks about, only asserted triples. */
  lemma RunAgrees(g: Graph, facts: seq<Fact>, ctx: Context, i: nat, f: nat)
    requires Run(g, AllOps(facts), ctx).Ok? && i < |Run(g, AllOps(facts), ctx).value.rows|
    requires Run(g, AllOps(facts), ctx).value.rows[i].validTo.None?
    requires f < |facts| && Coherent(g.rows, facts[f]) && Claim(facts[f]).Some?
    requires SameSlot(Claim(facts[f]).value, Run(g, AllOps(facts), ctx).value.rows[i].key)
    ensures Claimed(facts, Run(g, AllOps(facts), ctx).value.rows[i].key)
  {
    var ops := AllOps(facts);
    var key := Run(g, ops, ctx).value.rows[i].key;
    RunOpens(g, ops, ctx, i);
    if j :| 0 <= j < |ops| && ops[j].Assert? && ops[j].key == key {
      AssertsAreClaims(facts, j);
    } else {
      SurvivorIsClaim(g.rows, facts, i, f);
    }
  }

  /** After a strict promote, whatever is currently true at a subject and predicate the proposal speaks about is
      asserted by a fact of that proposal. */
  lemma StrictPromoteAgrees(g: Graph, facts: seq<Fact>, ctx: Context, i: nat)
    requires Applied(g, facts, ctx, true).Ok?
    requires i < |Applied(g, facts, ctx, true).value.rows| && Applied(g, facts, ctx, true).value.rows[i].validTo.None?
    requires TouchesSlot(facts, Applied(g, facts, ctx, true).value.rows[i].key)
    ensures Claimed(facts, Applied(g, facts, ctx, true).value.rows[i].key)
  {
    ScanSound(g, facts, AllOps(facts), ctx);
    ScanCoherent(g.rows, facts);
    var key := Applied(g, facts, ctx, true).value.rows[i].key;
    var f :| 0 <= f < |facts| && Claim(facts[f]).Some? && SameSlot(Claim(facts[f]).value, key);
    RunAgrees(g, facts, ctx, i, f);
  }

  /** One current object for each subject and predicate. */
  ghost predicate OneObject(rows: seq<Row>) {
    forall i, j :: 0 <= i < |rows| && 0 <= j < |rows| && rows[i].validTo.None? && rows[j].validTo.None? &&
                   SameSlot(rows[i].key, rows[j].key)
      ==> rows[i].key.obj == rows[j].key.obj
  }

  /** No two facts assert different objects for one subject and predicate. */
  ghost predicate Consistent(facts: seq<Fact>) {
    forall a, b :: Claimed(facts, a) && Claimed(facts, b) && SameSlot(a, b) ==> a.obj == b.obj
  }

  /** A strict promote of an internally consistent proposal keeps "one current object per subject and predicate". */
  lemma StrictPromoteKeepsOneObject(g: Graph, facts: seq<Fact>, ctx: Context)
    requires Applied(g, facts, ctx, true).Ok? && OneObject(g.rows) && Consistent(facts)
    ensures OneObject(Applied(g, facts, ctx, true).value.rows)
  {
    var rows := Applied(g, facts, ctx, true).value.rows;
    forall i, j | 0 <= i < |rows| && 0 <= j < |rows| && rows[i].validTo.None? && rows[j].validTo.None? &&
                  SameSlot(rows[i].key, rows[j].key)
      ensures rows[i].key.obj == rows[j].key.obj
    {
      SlotsShared(facts, rows[i].key, rows[j].key);
      if TouchesSlot(facts, rows[i].key) {
        StrictPromoteAgrees(g, facts, ctx, i);
        StrictPromoteAgrees(g, facts, ctx, j);
      } else {
        UntouchedSlot(g, facts, ctx, i);
        UntouchedSlot(g, facts, ctx, j);
      }
    }
  }

  lemma SlotsShared(facts: seq<Fact>, a: Key, b: Key)
    requires SameSlot(a, b)
    ensures TouchesSlot(facts, a) <==> TouchesSlot(facts, b)
  {
    forall f | 0 <= f < |facts| && Claim(facts[f]).Some?
      ensures SameSlot(Claim(facts[f]).value, a) <==> SameSlot(Claim(facts[f]).value, b)
    {}
  }

  lemma UntouchedSlot(g: Graph, facts: seq<Fact>, ctx: Context, i: nat)
    requires Applied(g, facts, ctx, true).Ok?
    requires i < |Applied(g, facts, ctx, true).value.rows| && Applied(g, facts, ctx, true).value.rows[i].validTo.None?
    requires !TouchesSlot(facts, Applied(g, facts, ctx, true).value.rows[i].key)
    ensures i < |g.rows| && g.rows[i].validTo.None? && g.rows[i].key == Applied(g, facts, ctx, true).value.rows[i].key
  {
    var ops := AllOps(facts);
    var key := Applied(g, facts, ctx, true).value.rows[i].key;
    ScanSound(g, facts, ops, ctx);
    RunOpens(g, ops, ctx, i);
    forall j | 0 <= j < |ops| && ops[j].Assert?
      ensures ops[j].key != key
    {
      AssertsAreClaims(facts, j);
      var f :| 0 <= f < |facts| && Claim(facts[f]) == Some(ops[j].key);
      assert SameSlot(Claim(facts[f]).value, key) ==> TouchesSlot(facts, key);
    }
  }

  // ----- Retrying a strict promote -----

  /** Every fact can stand beside what every other fact asserts for the same subject and predicate. */
  ghost predicate MutuallyTolerant(facts: seq<Fact>) {
    forall f, h :: 0 <= f < |facts| && 0 <= h < |facts| && Claim(facts[f]).Some? && Claim(facts[h]).Some? &&
                   SameSlot(Claim(facts[f]).value, Claim(facts[h]).value) ==>
                     Tolerates(facts[f], Claim(facts[h]).value.obj)
  }

  /** The j-th write asserts the triple, and no later one ends it. */
  predicate Stands(ops: seq<Op>, j: nat, key: Key)
    requires j < |ops|
  {
    ops[j].Assert? && ops[j].key == key && !Ends(ops[j..], key)
  }

  ghost predicate Standing(ops: seq<Op>, key: Key) {
    exists j :: 0 <= j < |ops| && Stands(ops, j, key)
  }

  lemma EndsLast(ops: seq<Op>, key: Key)
    requires ops != []
    ensures var n := |ops| - 1; Ends(ops, key) <==> Ends(ops[..n], key) || (ops[n].End? && ops[n].key == key)
  {
    FrontEnds(ops, key);
    if Ends(ops, key) {
      var i :| 0 <= i < |ops| && ops[i].End? && ops[i].key == key;
      assert i < |ops| - 1 ==> ops[..|ops| - 1][i] == ops[i];
    }
  }

  lemma StandingLast(ops: seq<Op>, key: Key)
    requires ops != []
    ensures var last := ops[|ops| - 1];
            Standing(ops, key) <==>
            if last.Register? || last.key != key then Standing(ops[..|ops| - 1], key) else last.Assert?
  {
    var n := |ops| - 1;
    var last, front := ops[n], ops[..n];
    forall j | 0 <= j < n
      ensures Ends(ops[j..], key) <==> Ends(front[j..], key) || (last.End? && last.key == key)
    {
      EndsLast(ops[j..], key);
      assert ops[j..][..n - j] == front[j..];
    }
    forall j | 0 <= j < n && (last.Register? || last.key != key)
      ensures Stands(ops, j, key) <==> Stands(front, j, key)
    {}
    if last.Assert? && last.key == key {
      assert ops[n..] == [last];
      assert Stands(ops, n, key);
    }
  }

  /** A key is open after the writes if they assert it and do not end it again, or if it was open and they do not end
      it at all. */
  lemma {:induction false} OpenAfterIs(g: Graph, ops: seq<Op>, key: Key)
    ensures OpenAfter(g, ops, key) <==> Standing(ops, key) || (Newest(g.rows, key).Some? && !Ends(ops, key))
  {
    if ops != [] {
      OpenAfterIs(g, ops[..|ops| - 1], key);
      StandingLast(ops, key);
      EndsLast(ops, key);
    }
  }

  /** The fact can stand beside what the writes assert and do not end again. */
  ghost predicate ToleratesStanding(fact: Fact, ops: seq<Op>)
    requires Claim(fact).Some?
  {
    forall key :: SameSlot(Claim(fact).value, key) && Standing(ops, key) ==> Tolerates(fact, key.obj)
  }

  /** Every fact can stand beside what the first k writes of the pass left standing. */
  ghost predicate TolerantAt(facts: seq<Fact>, k: nat)
    requires k <= |AllOps(facts)|
  {
    forall f :: 0 <= f < |facts| && Claim(facts[f]).Some? ==> ToleratesStanding(facts[f], AllOps(facts)[..k])
  }

  lemma CoherentByKey(rows: seq<Row>, fact: Fact)
    ensures Coherent(rows, fact) <==>
            (Claim(fact).Some? ==>
               forall key :: SameSlot(Claim(fact).value, key) && Newest(rows, key).Some? ==> Tolerates(fact, key.obj))
  {
    if Claim(fact).Some? {
      forall i | 0 <= i < |rows| && rows[i].validTo.None?
        ensures Newest(rows, rows[i].key).Some?
      {
        assert rows[i].OpenAt(rows[i].key);
      }
      if Coherent(rows, fact) {
        forall key | SameSlot(Claim(fact).value, key) && Newest(rows, key).Some?
          ensures Tolerates(fact, key.obj)
        {
          assert rows[Newest(rows, key).value].OpenAt(key);
        }
      }
    }
  }

  /** A strict promote that passed once and died after k writes is accepted again if and only if its facts tolerate
      what these writes left standing, which can be read off the proposal. */
  lemma StrictRetryAtExact(g: Graph, facts: seq<Fact>, k: nat, ctx: Context)
    requires Applied(g, facts, ctx, true).Ok? && k <= |AllOps(facts)|
    ensures Run(g, AllOps(facts)[..k], ctx).Ok?
    ensures Applied(Run(g, AllOps(facts)[..k], ctx).value, facts, ctx, true).Ok? <==> TolerantAt(facts, k)
  {
    var ops := AllOps(facts)[..k];
    ScanSound(g, facts, ops, ctx);
    var rows := Run(g, ops, ctx).value.rows;
    ScanCoherent(g.rows, facts);
    ScanCoherent(rows, facts);
    forall f | 0 <= f < |facts| && Claim(facts[f]).Some?
      ensures Coherent(rows, facts[f]) <==> ToleratesStanding(facts[f], ops)
    {
      assert Coherent(g.rows, facts[f]);
      CoherentAfter(g, facts[f], ops, ctx);
    }
  }

  lemma CoherentAfter(g: Graph, fact: Fact, ops: seq<Op>, ctx: Context)
    requires Run(g, ops, ctx).Ok? && Coherent(g.rows, fact) && Claim(fact).Some?
    ensures Coherent(Run(g, ops, ctx).value.rows, fact) <==> ToleratesStanding(fact, ops)
  {
    var rows := Run(g, ops, ctx).value.rows;
    CoherentByKey(g.rows, fact);
    CoherentByKey(rows, fact);
    forall key
      ensures Newest(rows, key).Some? <==> Standing(ops, key) || (Newest(g.rows, key).Some? && !Ends(ops, key))
    {
      OpenAfterRun(g, ops, ctx, key);
      OpenAfterIs(g, ops, key);
    }
  }

  lemma MutualIsAlways(facts: seq<Fact>, k: nat)
    requires MutuallyTolerant(facts) && k <= |AllOps(facts)|
    ensures TolerantAt(facts, k)
  {
    var ops := AllOps(facts)[..k];
    forall f, key | 0 <= f < |facts| && Claim(facts[f]).Some? && SameSlot(Claim(facts[f]).value, key) &&
                    Standing(ops, key)
      ensures Tolerates(facts[f], key.obj)
    {
      var j :| 0 <= j < |ops| && Stands(ops, j, key);
      AssertsAreClaims(facts, j);
    }
  }

  /** After the writes of a fact, its claim stands. */
  lemma ClaimStands(facts: seq<Fact>)
    requires facts != [] && Claim(facts[|facts| - 1]).Some?
    ensures Standing(AllOps(facts), Claim(facts[|facts| - 1]).value)
  {
    var fact := facts[|facts| - 1];
    LastWrite(fact);
    LastStands(AllOps(facts[..|facts| - 1]), Ops(fact));
  }

  lemma LastWrite(fact: Fact)
    requires Claim(fact).Some?
    ensures Ops(fact) != [] && Ops(fact)[|Ops(fact)| - 1].Assert?
    ensures Ops(fact)[|Ops(fact)| - 1].key == Claim(fact).value
  {}

  lemma LastStands(front: seq<Op>, own: seq<Op>)
    requires own != [] && own[|own| - 1].Assert?
    ensures Standing(front + own, own[|own| - 1].key)
  {
    var ops := front + own;
    assert ops[|ops| - 1] == own[|own| - 1];
    StandingLast(ops, own[|own| - 1].key);
  }

  /** Right after the writes of fact `h`, a fact that cannot stand beside it is in the way. */
  lemma IntolerantSomewhere(facts: seq<Fact>, f: nat, h: nat) returns (k: nat)
    requires f < |facts| && h < |facts| && Claim(facts[f]).Some? && Claim(facts[h]).Some?
    requires SameSlot(Claim(facts[f]).value, Claim(facts[h]).value)
    requires !Tolerates(facts[f], Claim(facts[h]).value.obj)
    ensures k <= |AllOps(facts)| && !TolerantAt(facts, k)
  {
    var part := facts[..h + 1];
    AllOpsPrefix(facts, h + 1);
    ClaimStands(part);
    k := |AllOps(part)|;
    assert AllOps(facts)[..k] == AllOps(part);
    assert !ToleratesStanding(facts[f], AllOps(facts)[..k]);
  }

  /** A strict promote that once passed its scans can be retried after a crash at every point if and only if the facts
      of the proposal are mutually tolerant. */
  lemma StrictRetryExact(g: Graph, facts: seq<Fact>, ctx: Context)
    requires Applied(g, facts, ctx, true).Ok?
    ensures MutuallyTolerant(facts) <==>
            forall k :: 0 <= k <= |AllOps(facts)| ==>
                          Run(g, AllOps(facts)[..k], ctx).Ok? &&
                          Applied(Run(g, AllOps(facts)[..k], ctx).value, facts, ctx, true).Ok?
  {
    forall k | 0 <= k <= |AllOps(facts)|
      ensures Run(g, AllOps(facts)[..k], ctx).Ok?
      ensures Applied(Run(g, AllOps(facts)[..k], ctx).value, facts, ctx, true).Ok? <==> TolerantAt(facts, k)
    {
      StrictRetryAtExact(g, facts, k, ctx);
    }
    if MutuallyTolerant(facts) {
      forall k | 0 <= k <= |AllOps(facts)|
        ensures TolerantAt(facts, k)
      {
        MutualIsAlways(facts, k);
      }
    } else {
      var f, h :| 0 <= f < |facts| && 0 <= h < |facts| && Claim(facts[f]).Some? && Claim(facts[h]).Some? &&
                  SameSlot(Claim(facts[f]).value, Claim(facts[h]).value) &&
                  !Tolerates(facts[f], Claim(facts[h]).value.obj);
      var k := IntolerantSomewhere(facts, f, h);
    }
  }

  /** Nothing stands in the way of a first proposal. */
  lemma EmptyGraphAccepts(facts: seq<Fact>, ctx: Context)
    ensures ScopeConflicts(EMPTY_GRAPH.rows, facts, ctx.scope) == []
    ensures Applied(EMPTY_GRAPH, facts, ctx, true).Ok?
  {
    ScanEmptyMeans([], facts, ctx.scope);
    ScanCoherent([], facts);
  }

  /** A proposal that states a fact and then its replacement passes a strict promote of the empty graph, and a retry
      after a crash just before the approval was saved is refused: its own new value contradicts its first fact. */
  lemma StrictRetryCanFail(ctx: Context)
    ensures var facts := [RelationshipFact("q", 0.5, "ada", "works_at", "acme"),
                          UpdateFact("q", 0.5, "ada", "works_at", "beta", Some("acme"), None)];
            && Applied(EMPTY_GRAPH, facts, ctx, true).Ok?
            && exists k :: 0 <= k <= |AllOps(facts)| && Run(EMPTY_GRAPH, AllOps(facts)[..k], ctx).Ok? &&
                           Applied(Run(EMPTY_GRAPH, AllOps(facts)[..k], ctx).value, facts, ctx, true).Err?
  {
    var first := RelationshipFact("q", 0.5, "ada", "works_at", "acme");
    var second := UpdateFact("q", 0.5, "ada", "works_at", "beta", Some("acme"), None);
    var facts := [first, second];
    EmptyGraphAccepts(facts, ctx);
    assert !Tolerates(facts[0], Claim(facts[1]).value.obj);
    var k := IntolerantSomewhere(facts, 0, 1);
    StrictRetryAtExact(EMPTY_GRAPH, facts, k, ctx);
  }
}
