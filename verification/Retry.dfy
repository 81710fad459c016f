/** A crash may fall between any two committed writes of pass 2. The retry guard makes a later attempt reach the same
    currently-true graph as one uninterrupted pass: proved key by key, on the automaton each key runs through. */
module Retry {
  import opened Common
  import opened TripleStore
  import opened Beliefs
  import opened Extraction
  import opened Promotion

  // ----- One key's automaton -----

  /** What one write does to the beliefs at one key. */
  function KeyStep(beliefs: seq<Belief>, key: Key, op: Op, ctx: Context): seq<Belief> {
    match op
    case Register(_, _) => beliefs
    case End(k, _) => if k == key then [] else beliefs
    case Assert(k, validFrom, confidence) =>
      if k != key || Recorded(beliefs, ctx.file) then beliefs
      else if beliefs != [] then Reinforced(beliefs, confidence, ctx.closet, ctx.file)
      else [Belief(Row(key, validFrom, None, confidence, ctx.closet, ctx.file, 0, DEFAULT_TIER, ctx.scope),
                   [Entry(ctx.closet, ctx.file, confidence)])]
  }

  function KeyRun(beliefs: seq<Belief>, key: Key, ops: seq<Op>, ctx: Context): seq<Belief> {
    if ops == [] then beliefs
    else KeyStep(KeyRun(beliefs, key, ops[..|ops| - 1], ctx), key, ops[|ops| - 1], ctx)
  }

  lemma StepIsKeyStep(g: Graph, op: Op, ctx: Context, key: Key)
    requires WellFounded(g) && Step(g, op, ctx).Ok?
    ensures WellFounded(Step(g, op, ctx).value)
    ensures BeliefsAt(Step(g, op, ctx).value, key) == KeyStep(BeliefsAt(g, key), key, op, ctx)
  {
    match op
    case Register(_, _) =>
    case End(k, ended) => EndedBeliefs(g, k, if ended.Some? then ended.value else ctx.today, key);
    case Assert(k, validFrom, confidence) =>
      HasSourceIsRecorded(g, k, ctx.file);
      NewestIsLast(g, k);
      if !HasSource(g, k, ctx.file) {
        match Newest(g.rows, k)
        case Some(id) => BumpedBeliefs(g, k, confidence, ctx.closet, ctx.file, key);
        case None =>
          AddedBeliefs(g, Row(k, validFrom, None, confidence, ctx.closet, ctx.file, 0, DEFAULT_TIER, ctx.scope), key);
      }
  }

  /** A pass decomposes by key: what each key ends up with depends on nothing but its own writes. */
  lemma {:induction false} RunIsKeyRun(g: Graph, ops: seq<Op>, ctx: Context, key: Key)
    requires WellFounded(g) && Run(g, ops, ctx).Ok?
    ensures WellFounded(Run(g, ops, ctx).value)
    ensures BeliefsAt(Run(g, ops, ctx).value, key) == KeyRun(BeliefsAt(g, key), key, ops, ctx)
  {
    if ops != [] {
      var n := |ops| - 1;
      RunIsKeyRun(g, ops[..n], ctx, key);
      StepIsKeyStep(Run(g, ops[..n], ctx).value, ops[n], ctx, key);
    }
  }

  predicate Ends(ops: seq<Op>, key: Key) {
    exists i :: 0 <= i < |ops| && ops[i].End? && ops[i].key == key
  }

  /** The clock plays no part in the view: an ended row is out of it whatever its end date. */
  lemma {:induction false} KeyRunIgnoresClock(beliefs: seq<Belief>, key: Key, ops: seq<Op>, ctx: Context, day: Date)
    ensures KeyRun(beliefs, key, ops, ctx.(today := day)) == KeyRun(beliefs, key, ops, ctx)
  {
    if ops != [] {
      KeyRunIgnoresClock(beliefs, key, ops[..|ops| - 1], ctx, day);
    }
  }

  lemma {:induction false} KeyRunAppend(beliefs: seq<Belief>, key: Key, ops: seq<Op>, more: seq<Op>, ctx: Context)
    ensures KeyRun(beliefs, key, ops + more, ctx) == KeyRun(KeyRun(beliefs, key, ops, ctx), key, more, ctx)
  {
    if more == [] {
      assert ops + more == ops;
    } else {
      var n := |more| - 1;
      KeyRunAppend(beliefs, key, ops, more[..n], ctx);
      assert (ops + more)[..|ops + more| - 1] == ops + more[..n];
    }
  }

  /** A pass that ends a key forgets what was believed there before. */
  lemma {:induction false} EndForgets(a: seq<Belief>, b: seq<Belief>, key: Key, ops: seq<Op>, ctx: Context)
    requires Ends(ops, key)
    ensures KeyRun(a, key, ops, ctx) == KeyRun(b, key, ops, ctx)
  {
    var n := |ops| - 1;
    if !(ops[n].End? && ops[n].key == key) {
      var i :| 0 <= i < |ops| && ops[i].End? && ops[i].key == key;
      assert ops[..n][i].End? && ops[..n][i].key == key;
      EndForgets(a, b, key, ops[..n], ctx);
    }
  }

  /** Once the report is recorded at a key that the pass never ends, the pass changes nothing there. */
  lemma {:induction false} RecordedIsStable(beliefs: seq<Belief>, key: Key, ops: seq<Op>, ctx: Context)
    requires !Ends(ops, key) && Recorded(beliefs, ctx.file)
    ensures KeyRun(beliefs, key, ops, ctx) == beliefs
  {
    if ops != [] {
      FrontEnds(ops, key);
      RecordedIsStable(beliefs, key, ops[..|ops| - 1], ctx);
    }
  }

  lemma FrontEnds(ops: seq<Op>, key: Key)
    requires ops != []
    ensures Ends(ops[..|ops| - 1], key) ==> Ends(ops, key)
    ensures ops[|ops| - 1].End? && ops[|ops| - 1].key == key ==> Ends(ops, key)
  {
    PartEnds(ops, |ops| - 1, key);
  }

  /** Without an end, the only thing a pass can do to a key is to record the report there. */
  lemma {:induction false} ChangeRecords(beliefs: seq<Belief>, key: Key, ops: seq<Op>, ctx: Context)
    requires !Ends(ops, key)
    ensures KeyRun(beliefs, key, ops, ctx) == beliefs || Recorded(KeyRun(beliefs, key, ops, ctx), ctx.file)
  {
    if ops != [] {
      var n := |ops| - 1;
      FrontEnds(ops, key);
      ChangeRecords(beliefs, key, ops[..n], ctx);
      var before, after := KeyRun(beliefs, key, ops[..n], ctx), KeyRun(beliefs, key, ops, ctx);
      if before != after {
        var last := |after| - 1;
        var entries := after[last].entries;
        assert entries[|entries| - 1].file == ctx.file;
        assert InEntries(after[last].entries, ctx.file);
      }
    }
  }

  /** At one key: a pass cut anywhere and then run from the start is one whole pass. */
  lemma KeyConverges(beliefs: seq<Belief>, key: Key, ops: seq<Op>, k: nat, ctx: Context)
    requires k <= |ops|
    ensures KeyRun(KeyRun(beliefs, key, ops[..k], ctx), key, ops, ctx) == KeyRun(beliefs, key, ops, ctx)
  {
    var cut := KeyRun(beliefs, key, ops[..k], ctx);
    if Ends(ops, key) {
      EndForgets(cut, beliefs, key, ops, ctx);
    } else {
      assert ops == ops[..k] + ops[k..];
      KeyRunAppend(beliefs, key, ops[..k], ops[k..], ctx);
      PartEnds(ops, k, key);
      ChangeRecords(beliefs, key, ops[..k], ctx);
      if Recorded(cut, ctx.file) {
        RecordedIsStable(cut, key, ops, ctx);
        RecordedIsStable(cut, key, ops[k..], ctx);
      }
    }
  }

  lemma PartEnds(ops: seq<Op>, k: nat, key: Key)
    requires k <= |ops|
    ensures Ends(ops[..k], key) || Ends(ops[k..], key) ==> Ends(ops, key)
  {
    if Ends(ops[..k], key) {
      var i :| 0 <= i < k && ops[..k][i].End? && ops[..k][i].key == key;
      assert ops[i].End? && ops[i].key == key;
    } else if Ends(ops[k..], key) {
      var i :| 0 <= i < |ops| - k && ops[k..][i].End? && ops[k..][i].key == key;
      assert ops[k + i].End? && ops[k + i].key == key;
    }
  }

  // ----- The entity table -----

  /** The upserts of a pass, later ones winning. */
  function Overlay(ops: seq<Op>): map<string, Entity> {
    if ops == [] then map[]
    else
      var last := ops[|ops| - 1];
      var front := Overlay(ops[..|ops| - 1]);
      if last.Register? then front[last.name := last.entity] else front
  }

  /** Each assertion comes after an upsert of its subject. */
  predicate Grounded(ops: seq<Op>) {
    forall i :: 0 <= i < |ops| && ops[i].Assert? ==> ops[i].key.subject in Overlay(ops[..i])
  }

  /** An assertion registers its subject, which was upserted before, so only upserts change the entity table. */
  lemma StepEntities(g: Graph, op: Op, ctx: Context)
    requires Step(g, op, ctx).Ok? && (op.Assert? ==> op.key.subject in g.entities)
    ensures Step(g, op, ctx).value.entities == if op.Register? then g.entities[op.name := op.entity] else g.entities
    ensures Step(g, op, ctx).value.merges == g.merges
  {}

  lemma {:induction false} EntitiesAfter(g: Graph, ops: seq<Op>, ctx: Context)
    requires Grounded(ops) && Run(g, ops, ctx).Ok?
    ensures Run(g, ops, ctx).value.entities == g.entities + Overlay(ops)
    ensures Run(g, ops, ctx).value.merges == g.merges
  {
    if ops != [] {
      var n := |ops| - 1;
      GroundedPrefix(ops, n);
      EntitiesAfter(g, ops[..n], ctx);
      StepEntities(Run(g, ops[..n], ctx).value, ops[n], ctx);
    }
  }

  lemma OverlayTwice(entities: map<string, Entity>, first: map<string, Entity>, second: map<string, Entity>)
    ensures (entities + first) + (first + second) == entities + (first + second)
  {}

  lemma GroundedPrefix(ops: seq<Op>, k: nat)
    requires Grounded(ops) && k <= |ops|
    ensures Grounded(ops[..k])
  {
    forall i | 0 <= i < k && ops[..k][i].Assert?
      ensures ops[..k][i].key.subject in Overlay(ops[..k][..i])
    {
      assert ops[..k][..i] == ops[..i];
    }
  }

  lemma {:induction false} OverlayAppend(ops: seq<Op>, more: seq<Op>)
    ensures Overlay(ops + more) == Overlay(ops) + Overlay(more)
  {
    if more == [] {
      assert ops + more == ops;
    } else {
      var n := |more| - 1;
      OverlayAppend(ops, more[..n]);
      assert (ops + more)[..|ops + more| - 1] == ops + more[..n];
    }
  }

  lemma GroundedAppend(ops: seq<Op>, more: seq<Op>)
    requires Grounded(ops) && Grounded(more)
    ensures Grounded(ops + more)
  {
    var all := ops + more;
    forall i | 0 <= i < |all| && all[i].Assert?
      ensures all[i].key.subject in Overlay(all[..i])
    {
      if i < |ops| {
        assert all[..i] == ops[..i];
      } else {
        assert all[..i] == ops + more[..i - |ops|];
        OverlayAppend(ops, more[..i - |ops|]);
      }
    }
  }

  lemma FactIsGrounded(fact: Fact)
    ensures Grounded(Ops(fact))
  {
    var ops := Ops(fact);
    forall i | 0 <= i < |ops| && ops[i].Assert?
      ensures ops[i].key.subject in Overlay(ops[..i])
    {
      assert ops[..i] == [ops[0]] + ops[1..i];
      OverlayAppend([ops[0]], ops[1..i]);
      assert [ops[0]][..0] == [];
      assert Overlay([ops[0]]) == map[ops[0].name := ops[0].entity];
      if i == 2 && fact.RelationshipFact? {
        assert ops[1..i] == [ops[1]];
        assert [ops[1]][..0] == [];
      }
    }
  }

  lemma {:induction false} PassIsGrounded(facts: seq<Fact>)
    ensures Grounded(AllOps(facts))
  {
    if facts != [] {
      PassIsGrounded(facts[..|facts| - 1]);
      FactIsGrounded(facts[|facts| - 1]);
      GroundedAppend(AllOps(facts[..|facts| - 1]), Ops(facts[|facts| - 1]));
    }
  }

  // ----- Convergence -----

  /** Two graphs nobody can tell apart through currently-true reads. */
  ghost predicate SameView(a: Graph, b: Graph) {
    && a.entities == b.entities
    && a.merges == b.merges
    && forall key :: BeliefsAt(a, key) == BeliefsAt(b, key)
  }

  /** A pass that died after its k-th committed write. */
  function CutPass(g: Graph, facts: seq<Fact>, k: nat, ctx: Context): Result<Graph, GraphError>
    requires k <= |AllOps(facts)|
  {
    Run(g, AllOps(facts)[..k], ctx)
  }

  /** One key, seen through three passes that may run on three days. */
  lemma KeyViewConverges(g: Graph, cut: Graph, ops: seq<Op>, k: nat, ctx: Context, crashDay: Date, retryDay: Date,
                         key: Key)
    requires WellFounded(g) && k <= |ops|
    requires Run(g, ops[..k], ctx.(today := crashDay)) == Ok(cut)
    requires Run(g, ops, ctx).Ok? && Run(cut, ops, ctx.(today := retryDay)).Ok?
    ensures WellFounded(cut)
    ensures BeliefsAt(Run(cut, ops, ctx.(today := retryDay)).value, key) == BeliefsAt(Run(g, ops, ctx).value, key)
  {
    RunIsKeyRun(g, ops, ctx, key);
    RunIsKeyRun(g, ops[..k], ctx.(today := crashDay), key);
    RunIsKeyRun(cut, ops, ctx.(today := retryDay), key);
    KeyRunIgnoresClock(BeliefsAt(g, key), key, ops[..k], ctx, crashDay);
    KeyRunIgnoresClock(BeliefsAt(cut, key), key, ops, ctx, retryDay);
    KeyConverges(BeliefsAt(g, key), key, ops, k, ctx);
  }

  lemma EntitiesConverge(g: Graph, cut: Graph, ops: seq<Op>, k: nat, ctx: Context, crashDay: Date, retryDay: Date)
    requires Grounded(ops) && k <= |ops|
    requires Run(g, ops[..k], ctx.(today := crashDay)) == Ok(cut)
    requires Run(g, ops, ctx).Ok? && Run(cut, ops, ctx.(today := retryDay)).Ok?
    ensures Run(cut, ops, ctx.(today := retryDay)).value.entities == Run(g, ops, ctx).value.entities
    ensures Run(cut, ops, ctx.(today := retryDay)).value.merges == Run(g, ops, ctx).value.merges
  {
    GroundedPrefix(ops, k);
    EntitiesAfter(g, ops, ctx);
    EntitiesAfter(g, ops[..k], ctx.(today := crashDay));
    EntitiesAfter(cut, ops, ctx.(today := retryDay));
    assert ops == ops[..k] + ops[k..];
    OverlayAppend(ops[..k], ops[k..]);
    OverlayTwice(g.entities, Overlay(ops[..k]), Overlay(ops[k..]));
  }

  /** A promote whose pass 2 died after any number of writes, even between an update's end and its new value, can be
      retried: the scan lets it through again, and the entity table and every key's currently-true rows, confidences,
      counts and source files come out as in one uninterrupted pass. The three attempts may run on different days. */
  lemma CrashAndRetryConverge(g: Graph, facts: seq<Fact>, k: nat, ctx: Context, crashDay: Date, retryDay: Date)
    requires WellFounded(g) && k <= |AllOps(facts)| && Applied(g, facts, ctx, false).Ok?
    ensures CutPass(g, facts, k, ctx.(today := crashDay)).Ok?
    ensures WellFounded(CutPass(g, facts, k, ctx.(today := crashDay)).value)
    ensures Applied(CutPass(g, facts, k, ctx.(today := crashDay)).value, facts, ctx.(today := retryDay), false).Ok?
    ensures var cut := CutPass(g, facts, k, ctx.(today := crashDay)).value;
            SameView(Applied(cut, facts, ctx.(today := retryDay), false).value, Applied(g, facts, ctx, false).value)
  {
    var ops := AllOps(facts);
    var crashCtx, retryCtx := ctx.(today := crashDay), ctx.(today := retryDay);
    ScanSound(g, facts, ops, ctx);
    ScanSound(g, facts, ops[..k], crashCtx);
    var cut := CutPass(g, facts, k, crashCtx).value;
    ScanSound(cut, facts, ops, retryCtx);
    KeyViewConverges(g, cut, ops, k, ctx, crashDay, retryDay, Key("", "", ""));
    forall key
      ensures BeliefsAt(Run(cut, ops, retryCtx).value, key) == BeliefsAt(Run(g, ops, ctx).value, key)
    {
      KeyViewConverges(g, cut, ops, k, ctx, crashDay, retryDay, key);
    }
    PassIsGrounded(facts);
    EntitiesConverge(g, cut, ops, k, ctx, crashDay, retryDay);
  }

  /** Where each of a series of crashed attempts was cut, and the day it ran. */
  datatype Crash = Crash(cut: nat, day: Date)

  function AfterCrashes(g: Graph, facts: seq<Fact>, crashes: seq<Crash>, ctx: Context): Result<Graph, GraphError>
    requires forall c :: c in crashes ==> c.cut <= |AllOps(facts)|
  {
    if crashes == [] then Ok(g)
    else
      var last := crashes[|crashes| - 1];
      var before := AfterCrashes(g, facts, crashes[..|crashes| - 1], ctx);
      if before.Err? then before else CutPass(before.value, facts, last.cut, ctx.(today := last.day))
  }

  /** However many attempts crash, and wherever each one does, the first attempt that gets through leaves the view of
      one uninterrupted pass. */
  lemma {:induction false} ManyCrashesConverge(g: Graph, facts: seq<Fact>, crashes: seq<Crash>, ctx: Context,
                                               retryDay: Date)
    requires WellFounded(g) && Applied(g, facts, ctx, false).Ok?
    requires forall c :: c in crashes ==> c.cut <= |AllOps(facts)|
    ensures AfterCrashes(g, facts, crashes, ctx).Ok?
    ensures WellFounded(AfterCrashes(g, facts, crashes, ctx).value)
    ensures Applied(AfterCrashes(g, facts, crashes, ctx).value, facts, ctx.(today := retryDay), false).Ok?
    ensures SameView(Applied(AfterCrashes(g, facts, crashes, ctx).value, facts, ctx.(today := retryDay), false).value,
                     Applied(g, facts, ctx, false).value)
  {
    if crashes == [] {
      CrashAndRetryConverge(g, facts, 0, ctx, retryDay, retryDay);
    } else {
      var n := |crashes| - 1;
      var last := crashes[n];
      ManyCrashesConverge(g, facts, crashes[..n], ctx, ctx.today);
      var before := AfterCrashes(g, facts, crashes[..n], ctx).value;
      assert ctx.(today := ctx.today) == ctx;
      CrashAndRetryConverge(before, facts, last.cut, ctx, last.day, retryDay);
    }
  }
}
