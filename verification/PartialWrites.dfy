/** What the first writes of a pass record when the pass dies after them: exactly when it is nothing,
    and exactly when a promote is all-or-nothing. */
module PartialWrites {
  import opened Common
  import opened TripleStore
  import opened Beliefs
  import opened Extraction
  import opened Promotion
  import opened Retry

  /** Each assertion finds its report recorded at its key before the pass, and the pass has not ended the key by then:
      the guard that skips an assertion, read off the graph that the pass starts from. */
  predicate RecordsNothing(g: Graph, ops: seq<Op>, ctx: Context) {
    forall j :: 0 <= j < |ops| && ops[j].Assert? ==> HasSource(g, ops[j].key, ctx.file) && !Ends(ops[..j], ops[j].key)
  }

  lemma RecordsNothingSnoc(g: Graph, ops: seq<Op>, ctx: Context)
    requires ops != []
    ensures var n := |ops| - 1;
            RecordsNothing(g, ops, ctx) <==>
            && RecordsNothing(g, ops[..n], ctx)
            && (ops[n].Assert? ==> HasSource(g, ops[n].key, ctx.file) && !Ends(ops[..n], ops[n].key))
  {
    var n := |ops| - 1;
    assert forall j :: 0 <= j < n ==> ops[..n][..j] == ops[..j] && ops[..n][j] == ops[j];
  }

  /** Nothing was recorded, and of the open rows exactly those were ended whose key the writes end. */
  predicate OnlyEnded(g: Graph, g': Graph, ops: seq<Op>) {
    && g'.sources == g.sources
    && |g'.rows| == |g.rows|
    && forall i :: 0 <= i < |g.rows| ==>
         && g'.rows[i].key == g.rows[i].key
         && (g'.rows[i].validTo.None? <==> g.rows[i].validTo.None? && !Ends(ops, g.rows[i].key))
  }

  lemma GuardAfterEnds(g: Graph, g': Graph, ops: seq<Op>, key: Key, file: Option<string>)
    requires OnlyEnded(g, g', ops)
    ensures HasSource(g', key, file) <==> HasSource(g, key, file) && !Ends(ops, key)
  {
    forall j | 0 <= j < |g.sources|
      ensures Records(g', g'.sources[j], key, file) <==> Records(g, g.sources[j], key, file) && !Ends(ops, key)
    {}
    if HasSource(g', key, file) {
      var j :| 0 <= j < |g'.sources| && Records(g', g'.sources[j], key, file);
      assert Records(g, g.sources[j], key, file);
    }
    if HasSource(g, key, file) && !Ends(ops, key) {
      var j :| 0 <= j < |g.sources| && Records(g, g.sources[j], key, file);
      assert Records(g', g'.sources[j], key, file);
    }
  }

  lemma StepOnlyEnds(g: Graph, g': Graph, ops: seq<Op>, op: Op, ctx: Context)
    requires OnlyEnded(g, g', ops) && Step(g', op, ctx).Ok?
    requires op.Assert? ==> HasSource(g', op.key, ctx.file)
    ensures OnlyEnded(g, Step(g', op, ctx).value, ops + [op])
  {
    var g'' := Step(g', op, ctx).value;
    assert (ops + [op])[..|ops|] == ops;
    forall i | 0 <= i < |g.rows|
      ensures g''.rows[i].key == g.rows[i].key
      ensures g''.rows[i].validTo.None? <==> g.rows[i].validTo.None? && !Ends(ops + [op], g.rows[i].key)
    {
      EndsSnoc(ops, op, g.rows[i].key);
    }
  }

  lemma EndsSnoc(ops: seq<Op>, op: Op, key: Key)
    ensures Ends(ops + [op], key) <==> Ends(ops, key) || (op.End? && op.key == key)
  {
    var all := ops + [op];
    if Ends(ops, key) {
      var i :| 0 <= i < |ops| && ops[i].End? && ops[i].key == key;
      assert all[i].End? && all[i].key == key;
    }
    if op.End? && op.key == key {
      assert all[|ops|].End? && all[|ops|].key == key;
    }
  }

  /** A write appends one provenance row, if it is an assertion that its guard lets through, and none otherwise. */
  lemma StepAppends(g: Graph, op: Op, ctx: Context)
    requires Step(g, op, ctx).Ok?
    ensures g.sources <= Step(g, op, ctx).value.sources
    ensures |Step(g, op, ctx).value.sources| ==
            |g.sources| + if op.Assert? && !HasSource(g, op.key, ctx.file) then 1 else 0
  {}

  lemma {:induction false} RunAppends(g: Graph, ops: seq<Op>, ctx: Context)
    requires Run(g, ops, ctx).Ok?
    ensures g.sources <= Run(g, ops, ctx).value.sources
  {
    if ops != [] {
      RunAppends(g, ops[..|ops| - 1], ctx);
      StepAppends(Run(g, ops[..|ops| - 1], ctx).value, ops[|ops| - 1], ctx);
    }
  }

  lemma {:induction false} QuietRunOnlyEnds(g: Graph, ops: seq<Op>, ctx: Context)
    requires Run(g, ops, ctx).Ok? && RecordsNothing(g, ops, ctx)
    ensures OnlyEnded(g, Run(g, ops, ctx).value, ops)
  {
    if ops != [] {
      var n := |ops| - 1;
      RecordsNothingSnoc(g, ops, ctx);
      QuietRunOnlyEnds(g, ops[..n], ctx);
      var before := Run(g, ops[..n], ctx).value;
      if ops[n].Assert? {
        GuardAfterEnds(g, before, ops[..n], ops[n].key, ctx.file);
      }
      StepOnlyEnds(g, before, ops[..n], ops[n], ctx);
      assert ops[..n] + [ops[n]] == ops;
    }
  }

  /** A list of writes leaves the provenance table as it was if and only if it records nothing. */
  lemma {:induction false} RecordsNothingExact(g: Graph, ops: seq<Op>, ctx: Context)
    requires Run(g, ops, ctx).Ok?
    ensures Run(g, ops, ctx).value.sources == g.sources <==> RecordsNothing(g, ops, ctx)
  {
    if RecordsNothing(g, ops, ctx) {
      QuietRunOnlyEnds(g, ops, ctx);
    } else {
      var n := |ops| - 1;
      var before := Run(g, ops[..n], ctx).value;
      RecordsNothingSnoc(g, ops, ctx);
      RunAppends(g, ops[..n], ctx);
      StepAppends(before, ops[n], ctx);
      if RecordsNothing(g, ops[..n], ctx) {
        QuietRunOnlyEnds(g, ops[..n], ctx);
        GuardAfterEnds(g, before, ops[..n], ops[n].key, ctx.file);
      } else {
        RecordsNothingExact(g, ops[..n], ctx);
        assert |before.sources| > |g.sources|;
      }
    }
  }

  // ----- Exactly when a list of writes changes nothing at all -----

  /** The currently-true rows at the keys it ends are none to begin with. */
  predicate EndsNothing(g: Graph, ops: seq<Op>) {
    forall j :: 0 <= j < |ops| && ops[j].End? ==> Newest(g.rows, ops[j].key).None?
  }

  /** The last upsert of each name finds the entity as it would leave it. */
  predicate UpsertsNothing(g: Graph, ops: seq<Op>) {
    forall name :: name in Overlay(ops) ==> name in g.entities && g.entities[name] == Overlay(ops)[name]
  }

  predicate WritesNothing(g: Graph, ops: seq<Op>, ctx: Context) {
    RecordsNothing(g, ops, ctx) && EndsNothing(g, ops) && UpsertsNothing(g, ops)
  }

  lemma EndedNothing(rows: seq<Row>, key: Key, day: Date)
    ensures Ended(rows, key, day) == rows <==> Newest(rows, key).None?
  {
    if Newest(rows, key).Some? {
      assert Ended(rows, key, day)[Newest(rows, key).value].validTo.Some?;
    } else {
      assert forall i :: 0 <= i < |rows| ==> EndedRow(rows[i], key, day) == rows[i];
    }
  }

  /** A list that records nothing and ends nothing leaves all rows as they were, and upserts the entities. */
  lemma {:induction false} IdleRun(g: Graph, ops: seq<Op>, ctx: Context)
    requires Run(g, ops, ctx).Ok? && RecordsNothing(g, ops, ctx)
    ensures Run(g, ops, ctx).value.entities == g.entities + Overlay(ops)
    ensures Run(g, ops, ctx).value.merges == g.merges
    ensures EndsNothing(g, ops) ==> Run(g, ops, ctx).value.rows == g.rows
  {
    if ops != [] {
      var n := |ops| - 1;
      var before := Run(g, ops[..n], ctx).value;
      RecordsNothingSnoc(g, ops, ctx);
      IdleRun(g, ops[..n], ctx);
      QuietRunOnlyEnds(g, ops[..n], ctx);
      match ops[n]
      case Register(_, _) =>
      case End(key, ended) => EndedNothing(before.rows, key, if ended.Some? then ended.value else ctx.today);
      case Assert(key, _, _) => GuardAfterEnds(g, before, ops[..n], key, ctx.file);
    }
  }

  /** A list of writes leaves triples and provenance as they were if and only if it records nothing and ends nothing. */
  lemma TriplesKeptExact(g: Graph, ops: seq<Op>, ctx: Context)
    requires Run(g, ops, ctx).Ok?
    ensures Run(g, ops, ctx).value.rows == g.rows && Run(g, ops, ctx).value.sources == g.sources <==>
            RecordsNothing(g, ops, ctx) && EndsNothing(g, ops)
  {
    RecordsNothingExact(g, ops, ctx);
    if RecordsNothing(g, ops, ctx) {
      IdleRun(g, ops, ctx);
      QuietRunOnlyEnds(g, ops, ctx);
      if !EndsNothing(g, ops) {
        var j :| 0 <= j < |ops| && ops[j].End? && Newest(g.rows, ops[j].key).Some?;
        var i := Newest(g.rows, ops[j].key).value;
        assert Ends(ops, g.rows[i].key);
        assert Run(g, ops, ctx).value.rows[i].validTo.Some?;
      }
    }
  }

  /** A list of writes leaves the whole graph as it was if and only if, besides, its upserts change no entity. */
  lemma GraphKeptExact(g: Graph, ops: seq<Op>, ctx: Context)
    requires Run(g, ops, ctx).Ok?
    ensures Run(g, ops, ctx).value == g <==> WritesNothing(g, ops, ctx)
  {
    TriplesKeptExact(g, ops, ctx);
    if RecordsNothing(g, ops, ctx) {
      IdleRun(g, ops, ctx);
      OverlaidNothing(g, ops);
    }
  }

  lemma OverlaidNothing(g: Graph, ops: seq<Op>)
    ensures g.entities + Overlay(ops) == g.entities <==> UpsertsNothing(g, ops)
  {
    var after := g.entities + Overlay(ops);
    if after == g.entities {
      forall name | name in Overlay(ops)
        ensures name in g.entities && g.entities[name] == Overlay(ops)[name]
      {
        assert name in after && after[name] == Overlay(ops)[name];
      }
    }
  }

  // ----- All or nothing -----

  /** The report is recorded at the key once the writes are through: by them, or before them and not ended since. */
  predicate RecordedAfter(g: Graph, ops: seq<Op>, key: Key, file: Option<string>) {
    if ops == [] then HasSource(g, key, file)
    else
      var last := ops[|ops| - 1];
      if last.Register? || last.key != key then RecordedAfter(g, ops[..|ops| - 1], key, file) else last.Assert?
  }

  lemma {:induction false} RecordedAfterRun(g: Graph, ops: seq<Op>, ctx: Context, key: Key)
    requires WellFounded(g) && Run(g, ops, ctx).Ok?
    ensures WellFounded(Run(g, ops, ctx).value)
    ensures HasSource(Run(g, ops, ctx).value, key, ctx.file) <==> RecordedAfter(g, ops, key, ctx.file)
  {
    if ops != [] {
      var n := |ops| - 1;
      RecordedAfterRun(g, ops[..n], ctx, key);
      RecordedAfterStep(Run(g, ops[..n], ctx).value, ops[n], ctx, key);
    }
  }

  lemma RecordedAfterStep(g: Graph, op: Op, ctx: Context, key: Key)
    requires WellFounded(g) && Step(g, op, ctx).Ok?
    ensures WellFounded(Step(g, op, ctx).value)
    ensures HasSource(Step(g, op, ctx).value, key, ctx.file) <==>
            if op.Register? || op.key != key then HasSource(g, key, ctx.file) else op.Assert?
  {
    StepIsKeyStep(g, op, ctx, key);
    HasSourceIsRecorded(g, key, ctx.file);
    HasSourceIsRecorded(Step(g, op, ctx).value, key, ctx.file);
    KeyStepRecords(BeliefsAt(g, key), key, op, ctx);
  }

  lemma KeyStepRecords(beliefs: seq<Belief>, key: Key, op: Op, ctx: Context)
    ensures op.Assert? && op.key == key ==> Recorded(KeyStep(beliefs, key, op, ctx), ctx.file)
    ensures op.End? && op.key == key ==> KeyStep(beliefs, key, op, ctx) == []
  {
    if op.Assert? && op.key == key && !Recorded(beliefs, ctx.file) {
      var after := KeyStep(beliefs, key, op, ctx);
      var entries := after[|after| - 1].entries;
      assert entries[|entries| - 1].file == ctx.file;
      assert InEntries(after[|after| - 1].entries, ctx.file);
    }
  }

  /** After the writes `done`, the writes `rest` write nothing: read off the graph that `done` starts from. */
  predicate NothingLeft(g: Graph, done: seq<Op>, rest: seq<Op>, ctx: Context) {
    && (forall j :: 0 <= j < |rest| && rest[j].Assert? ==>
          RecordedAfter(g, done, rest[j].key, ctx.file) && !Ends(rest[..j], rest[j].key))
    && (forall j :: 0 <= j < |rest| && rest[j].End? ==> !OpenAfter(g, done, rest[j].key))
    && (forall name :: name in Overlay(rest) ==>
          && name in g.entities + Overlay(done)
          && (g.entities + Overlay(done))[name] == Overlay(rest)[name])
  }

  lemma NothingLeftIs(g: Graph, done: seq<Op>, rest: seq<Op>, ctx: Context)
    requires WellFounded(g) && Run(g, done, ctx).Ok?
    requires Run(g, done, ctx).value.entities == g.entities + Overlay(done)
    ensures NothingLeft(g, done, rest, ctx) <==> WritesNothing(Run(g, done, ctx).value, rest, ctx)
  {
    var cut := Run(g, done, ctx).value;
    forall key
      ensures HasSource(cut, key, ctx.file) <==> RecordedAfter(g, done, key, ctx.file)
      ensures Newest(cut.rows, key).Some? <==> OpenAfter(g, done, key)
    {
      RecordedAfterRun(g, done, ctx, key);
      OpenAfterRun(g, done, ctx, key);
    }
  }

  lemma NoneOrAll(g: Graph, ops: seq<Op>, k: nat, ctx: Context)
    requires WellFounded(g) && k <= |ops| && Run(g, ops[..k], ctx).Ok?
    requires Run(g, ops[..k], ctx).value.entities == g.entities + Overlay(ops[..k])
    ensures Run(g, ops[..k], ctx) == Ok(g) || Run(g, ops[..k], ctx) == Run(g, ops, ctx) <==>
            WritesNothing(g, ops[..k], ctx) || (Run(g, ops, ctx).Ok? && NothingLeft(g, ops[..k], ops[k..], ctx))
  {
    var cut, rest := Run(g, ops[..k], ctx).value, ops[k..];
    GraphKeptExact(g, ops[..k], ctx);
    NothingLeftIs(g, ops[..k], rest, ctx);
    RunFrom(g, ops, k, ctx);
    if Run(cut, rest, ctx).Ok? {
      GraphKeptExact(cut, rest, ctx);
    }
  }

  lemma RunFrom(g: Graph, ops: seq<Op>, k: nat, ctx: Context)
    requires k <= |ops| && Run(g, ops[..k], ctx).Ok?
    ensures Run(g, ops, ctx) == Run(Run(g, ops[..k], ctx).value, ops[k..], ctx)
  {
    SplitAt(ops, k);
    RunAppend(g, ops[..k], ops[k..], ctx);
  }

  lemma PartEntities(g: Graph, facts: seq<Fact>, k: nat, ctx: Context)
    requires k <= |AllOps(facts)| && Run(g, AllOps(facts)[..k], ctx).Ok?
    ensures Run(g, AllOps(facts)[..k], ctx).value.entities == g.entities + Overlay(AllOps(facts)[..k])
  {
    PassIsGrounded(facts);
    GroundedPrefix(AllOps(facts), k);
    EntitiesAfter(g, AllOps(facts)[..k], ctx);
  }

  /** A promote that dies leaves none of its writes or all of them, in the whole graph, if and only if what it wrote
      was nothing or what it had still to write was nothing. */
  lemma AllOrNothingExact(g: Graph, facts: seq<Fact>, k: nat, ctx: Context, strict: bool)
    requires WellFounded(g) && Applied(g, facts, ctx, strict).Ok? && k <= |AllOps(facts)|
    ensures var cut, whole := CutPass(g, facts, k, ctx), Applied(g, facts, ctx, strict).value;
            cut == Ok(g) || cut == Ok(whole) <==>
            || WritesNothing(g, AllOps(facts)[..k], ctx)
            || NothingLeft(g, AllOps(facts)[..k], AllOps(facts)[k..], ctx)
  {
    ScanSound(g, facts, AllOps(facts), ctx);
    ScanSound(g, facts, AllOps(facts)[..k], ctx);
    PartEntities(g, facts, k, ctx);
    NoneOrAll(g, AllOps(facts), k, ctx);
  }
}
