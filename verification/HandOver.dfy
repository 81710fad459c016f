/** What a promoted fact leaves in the tables, in the fact's own fields: which entity, which row, from which day on, and
    until when the object that it supersedes. */
module HandOver {
  import opened Common
  import opened TripleStore
  import opened Extraction
  import opened Promotion
  import opened Retry
  import opened TimeTravel

  // ----- One key's rows, ended ones included -----

  function RowsAt(rows: seq<Row>, key: Key): seq<Row> {
    Filter(rows, (r: Row) => r.key == key)
  }

  lemma {:induction false} RowsAtFrame(rows: seq<Row>, rows': seq<Row>, key: Key)
    requires |rows| == |rows'|
    requires forall i :: 0 <= i < |rows| ==> (rows[i].key == key <==> rows'[i].key == key)
    requires forall i :: 0 <= i < |rows| && rows[i].key == key ==> rows'[i] == rows[i]
    ensures RowsAt(rows', key) == RowsAt(rows, key)
  {
    if rows != [] {
      RowsAtFrame(rows[..|rows| - 1], rows'[..|rows| - 1], key);
    }
  }

  lemma RowsAtSnoc(rows: seq<Row>, row: Row, key: Key)
    ensures RowsAt(rows + [row], key) == RowsAt(rows, key) + if row.key == key then [row] else []
  {
    FilterSnoc(rows, row, (r: Row) => r.key == key);
  }

  lemma RowsAtEnded(rows: seq<Row>, key: Key, d: Date)
    ensures RowsAt(Ended(rows, key, d), key) == Mapped(r => WrittenEnd(r, key, d), RowsAt(rows, key))
  {
    FilterEnded(rows, key, d, (r: Row) => r.key == key, (r: Row) => r.key == key);
  }

  /** A write to another key leaves this key's rows as they are. */
  lemma StepElsewhere(g: Graph, op: Op, ctx: Context, key: Key)
    requires Step(g, op, ctx).Ok? && (op.Register? || op.key != key)
    ensures RowsAt(Step(g, op, ctx).value.rows, key) == RowsAt(g.rows, key)
  {
    var rows' := Step(g, op, ctx).value.rows;
    if |rows'| == |g.rows| {
      RowsAtFrame(g.rows, rows', key);
    } else {
      RowsAtSnoc(g.rows, rows'[|g.rows|], key);
      assert rows' == g.rows + [rows'[|g.rows|]];
    }
  }

  lemma {:induction false} RunElsewhere(g: Graph, ops: seq<Op>, ctx: Context, key: Key)
    requires Run(g, ops, ctx).Ok? && WriteElsewhere(ops, key)
    ensures RowsAt(Run(g, ops, ctx).value.rows, key) == RowsAt(g.rows, key)
  {
    if ops != [] {
      RunElsewhere(g, ops[..|ops| - 1], ctx, key);
      StepElsewhere(Run(g, ops[..|ops| - 1], ctx).value, ops[|ops| - 1], ctx, key);
    }
  }

  predicate NoneOpen(rows: seq<Row>, key: Key) {
    forall r :: r in RowsAt(rows, key) ==> r.validTo.Some?
  }

  lemma NoneOpenMeans(rows: seq<Row>, key: Key)
    ensures NoneOpen(rows, key) <==> Newest(rows, key).None?
  {
    FilterMembers(rows, (r: Row) => r.key == key);
    if Newest(rows, key).Some? {
      assert rows[Newest(rows, key).value] in RowsAt(rows, key);
    }
  }

  /** An assertion at a key with no currently-true row appends one. */
  lemma AssertAppends(g: Graph, key: Key, since: Option<Date>, c: real, ctx: Context)
    requires NoneOpen(g.rows, key) && 0.0 <= c <= 1.0
    ensures Step(g, Assert(key, since, c), ctx).Ok?
    ensures RowsAt(Step(g, Assert(key, since, c), ctx).value.rows, key) ==
            RowsAt(g.rows, key) + [Row(key, since, None, c, ctx.closet, ctx.file, 0, Decision, ctx.scope)]
  {
    NoneOpenMeans(g.rows, key);
    RowsAtSnoc(g.rows, Row(key, since, None, c, ctx.closet, ctx.file, 0, Decision, ctx.scope), key);
  }

  // ----- One fact among the facts of its proposal -----

  /** No other fact of the proposal writes the key. */
  predicate Alone(facts: seq<Fact>, f: nat, key: Key) {
    forall h :: 0 <= h < |facts| && h != f ==> key !in ScannedKeys(facts[h])
  }

  lemma {:induction false} AllOpsAppend(facts: seq<Fact>, more: seq<Fact>)
    ensures AllOps(facts + more) == AllOps(facts) + AllOps(more)
  {
    if more == [] {
      assert facts + more == facts;
    } else {
      var n := |more| - 1;
      AllOpsAppend(facts, more[..n]);
      LastOfBoth(facts, more);
      Regroup(AllOps(facts + more[..n]), AllOps(facts), AllOps(more[..n]), Ops(more[n]));
    }
  }

  lemma LastOfBoth<T>(a: seq<T>, b: seq<T>)
    requires b != []
    ensures (a + b)[..|a + b| - 1] == a + b[..|b| - 1] && (a + b)[|a + b| - 1] == b[|b| - 1]
  {}

  lemma AllOpsSnoc(before: seq<Fact>, fact: Fact)
    ensures AllOps(before + [fact]) == AllOps(before) + Ops(fact)
  {
    assert (before + [fact])[..|before|] == before;
  }

  /** The pass of a fact and of those before and after it. */
  lemma RunAround(g: Graph, before: seq<Fact>, fact: Fact, after: seq<Fact>, ctx: Context)
    requires Run(g, AllOps(before + [fact] + after), ctx).Ok?
    ensures Run(g, AllOps(before), ctx).Ok?
    ensures Run(Run(g, AllOps(before), ctx).value, Ops(fact), ctx).Ok?
    ensures Run(g, AllOps(before + [fact] + after), ctx) ==
            Run(Run(Run(g, AllOps(before), ctx).value, Ops(fact), ctx).value, AllOps(after), ctx)
  {
    AllOpsAppend(before + [fact], after);
    AllOpsSnoc(before, fact);
    RunAppend(g, AllOps(before) + Ops(fact), AllOps(after), ctx);
    RunAppend(g, AllOps(before), Ops(fact), ctx);
  }

  lemma AroundOne<T>(s: seq<T>, i: nat)
    requires i < |s|
    ensures s[..i] + [s[i]] + s[i + 1..] == s
  {}

  predicate WriteElsewhere(ops: seq<Op>, key: Key) {
    forall i :: 0 <= i < |ops| && !ops[i].Register? ==> ops[i].key != key
  }

  lemma WriteElsewhereBoth(ops: seq<Op>, more: seq<Op>, key: Key)
    requires WriteElsewhere(ops, key) && WriteElsewhere(more, key)
    ensures WriteElsewhere(ops + more, key)
  {}

  lemma Regroup<T>(whole: seq<T>, a: seq<T>, b: seq<T>, c: seq<T>)
    requires whole == a + b
    ensures whole + c == a + (b + c)
  {}

  lemma {:induction false} OpsElsewhere(facts: seq<Fact>, key: Key)
    requires forall h :: 0 <= h < |facts| ==> key !in ScannedKeys(facts[h])
    ensures WriteElsewhere(AllOps(facts), key)
  {
    if facts != [] {
      OpsElsewhere(facts[..|facts| - 1], key);
      OpsTouchOwnKeys(facts[|facts| - 1]);
      WriteElsewhereBoth(AllOps(facts[..|facts| - 1]), Ops(facts[|facts| - 1]), key);
    }
  }

  /** At a key that only one fact writes, the pass does what that fact's own writes do. */
  lemma OwnWritesDecide(g: Graph, facts: seq<Fact>, f: nat, key: Key, ctx: Context)
    requires f < |facts| && Alone(facts, f, key) && Run(g, AllOps(facts), ctx).Ok?
    ensures Run(g, AllOps(facts[..f]), ctx).Ok?
    ensures var g' := Run(g, AllOps(facts[..f]), ctx).value;
            && RowsAt(g'.rows, key) == RowsAt(g.rows, key)
            && Run(g', Ops(facts[f]), ctx).Ok?
            && RowsAt(Run(g, AllOps(facts), ctx).value.rows, key) ==
               RowsAt(Run(g', Ops(facts[f]), ctx).value.rows, key)
  {
    AroundOne(facts, f);
    RunAround(g, facts[..f], facts[f], facts[f + 1..], ctx);
    OpsElsewhere(facts[..f], key);
    OpsElsewhere(facts[f + 1..], key);
    RunElsewhere(g, AllOps(facts[..f]), ctx, key);
    var own := Run(Run(g, AllOps(facts[..f]), ctx).value, Ops(facts[f]), ctx).value;
    RunElsewhere(own, AllOps(facts[f + 1..]), ctx, key);
  }

  // ----- Updates -----

  function Superseded(fact: Fact): Key
    requires fact.UpdateFact? && fact.supersedes.Some?
  {
    Key(fact.subject, fact.pred, fact.supersedes.value)
  }

  function Asserted(fact: Fact): Key
    requires fact.UpdateFact?
  {
    Key(fact.subject, fact.pred, fact.newObject)
  }

  /** The day the superseded object ends on. */
  function EndDay(fact: Fact, ctx: Context): Date
    requires fact.UpdateFact?
  {
    if fact.effective.Some? then fact.effective.value else ctx.today
  }

  /** The update's own writes. */
  lemma UpdateWrites(g: Graph, fact: Fact, ctx: Context)
    requires fact.UpdateFact? && fact.supersedes.Some? && fact.supersedes.value != ""
    requires Superseded(fact) != Asserted(fact) && Run(g, Ops(fact), ctx).Ok?
    ensures RowsAt(Run(g, Ops(fact), ctx).value.rows, Superseded(fact)) ==
            Mapped(r => WrittenEnd(r, Superseded(fact), EndDay(fact, ctx)), RowsAt(g.rows, Superseded(fact)))
    ensures NoneOpen(g.rows, Asserted(fact)) ==>
              RowsAt(Run(g, Ops(fact), ctx).value.rows, Asserted(fact)) ==
              RowsAt(g.rows, Asserted(fact)) +
              [Row(Asserted(fact), fact.effective, None, fact.confidence, ctx.closet, ctx.file, 0, Decision,
                   ctx.scope)]
  {
    var ops := Ops(fact);
    var before, after := Superseded(fact), Asserted(fact);
    RunSteps(g, ops, ctx);
    assert ops[0].Register? && ops[1] == End(before, fact.effective);
    assert ops[2] == Assert(after, fact.effective, fact.confidence);
    var g1 := Step(g, ops[0], ctx).value;
    var g2 := Step(g1, ops[1], ctx).value;
    StepElsewhere(g, ops[0], ctx, before);
    StepElsewhere(g, ops[0], ctx, after);
    RowsAtEnded(g1.rows, before, if fact.effective.Some? then fact.effective.value else ctx.today);
    StepElsewhere(g1, ops[1], ctx, after);
    StepElsewhere(g2, ops[2], ctx, before);
    if NoneOpen(g.rows, after) {
      AssertAppends(g2, after, fact.effective, fact.confidence, ctx);
    }
  }

  /** A promoted update, whatever else its proposal says about other triples: the open rows of the object it supersedes
      end on its effective date, or today if it names none, and the new object gets one row that begins on the effective
      date, if it names one, and has no end. */
  lemma UpdateHandsOver(g: Graph, facts: seq<Fact>, f: nat, ctx: Context, strict: bool)
    requires Applied(g, facts, ctx, strict).Ok? && f < |facts|
    requires facts[f].UpdateFact? && facts[f].supersedes.Some? && facts[f].supersedes.value != ""
    requires Superseded(facts[f]) != Asserted(facts[f])
    requires Alone(facts, f, Superseded(facts[f])) && Alone(facts, f, Asserted(facts[f]))
    requires NoneOpen(g.rows, Asserted(facts[f]))
    ensures var rows, fact := Applied(g, facts, ctx, strict).value.rows, facts[f];
            var day := if fact.effective.Some? then fact.effective.value else ctx.today;
            && RowsAt(rows, Superseded(fact)) ==
               Mapped(r => WrittenEnd(r, Superseded(fact), day), RowsAt(g.rows, Superseded(fact)))
            && RowsAt(rows, Asserted(fact)) ==
               RowsAt(g.rows, Asserted(fact)) +
               [Row(Asserted(fact), fact.effective, None, fact.confidence, ctx.closet, ctx.file, 0, Decision,
                   ctx.scope)]
  {
    ScanSound(g, facts, AllOps(facts), ctx);
    OwnWritesDecide(g, facts, f, Superseded(facts[f]), ctx);
    OwnWritesDecide(g, facts, f, Asserted(facts[f]), ctx);
    UpdateWrites(Run(g, AllOps(facts[..f]), ctx).value, facts[f], ctx);
  }

  /** Some row states the triple at that date. */
  predicate HeldAt(rows: seq<Row>, key: Key, x: Date) {
    exists r :: r in rows && r.key == key && Holds(r, x)
  }

  lemma HeldAmong(rows: seq<Row>, key: Key, x: Date)
    ensures HeldAt(rows, key, x) <==> exists r :: r in RowsAt(rows, key) && Holds(r, x)
  {
    FilterMembers(rows, (r: Row) => r.key == key);
  }

  /** Some row that states the triple is valid at the date and, if it has no end yet, the day is later. */
  predicate HeldBefore(rows: seq<Row>, key: Key, x: Date, day: Date) {
    exists r :: r in rows && r.key == key && Holds(r, x) && (r.validTo.None? ==> x < day)
  }

  /** Once the open rows of a key are ended on the day, it is true where an ended row makes it so, and before the day
      where an open one did. */
  lemma TrueUntil(rows: seq<Row>, rows': seq<Row>, key: Key, day: Date, x: Date)
    requires RowsAt(rows', key) == Mapped(r => WrittenEnd(r, key, day), RowsAt(rows, key))
    ensures HeldAt(rows', key, x) <==> HeldBefore(rows, key, x, day)
  {
    var mine, ended := RowsAt(rows, key), RowsAt(rows', key);
    FilterMembers(rows, (r: Row) => r.key == key);
    HeldAmong(rows', key, x);
    forall i | 0 <= i < |mine|
      ensures Holds(ended[i], x) <==> Holds(mine[i], x) && (mine[i].validTo.None? ==> x < day)
    {
      assert mine[i] in mine;
    }
    if r :| r in mine && Holds(r, x) && (r.validTo.None? ==> x < day) {
      var i :| 0 <= i < |mine| && mine[i] == r;
      assert ended[i] in ended;
    }
  }

  /** A further row that begins on the day and has no end makes its key true from that day on. */
  lemma TrueFrom(rows: seq<Row>, rows': seq<Row>, row: Row, day: Date, x: Date)
    requires RowsAt(rows', row.key) == RowsAt(rows, row.key) + [row]
    requires row.validFrom == Some(day) && row.validTo == None
    ensures HeldAt(rows', row.key, x) <==> HeldAt(rows, row.key, x) || x >= day
  {
    HeldAmong(rows, row.key, x);
    HeldAmong(rows', row.key, x);
    var mine, more := RowsAt(rows, row.key), RowsAt(rows', row.key);
    assert more[|mine|] == row && forall r :: r in more <==> r in mine || r == row;
    assert Holds(row, x) <==> x >= day;
  }

  /** The hand-over: with effective date D, and a new object not currently true, the old object is true at a date if and
      only if an ended row made it so, or an open one did and the date is before D; the new object is true from D on,
      and before D where it already was. */
  lemma HandsOverOnTheDay(g: Graph, facts: seq<Fact>, f: nat, ctx: Context, strict: bool, day: Date, x: Date)
    requires Applied(g, facts, ctx, strict).Ok? && f < |facts|
    requires facts[f].UpdateFact? && facts[f].supersedes.Some? && facts[f].supersedes.value != ""
    requires facts[f].effective == Some(day) && Superseded(facts[f]) != Asserted(facts[f])
    requires Alone(facts, f, Superseded(facts[f])) && Alone(facts, f, Asserted(facts[f]))
    requires NoneOpen(g.rows, Asserted(facts[f]))
    ensures var rows := Applied(g, facts, ctx, strict).value.rows;
            && (HeldAt(rows, Superseded(facts[f]), x) <==> HeldBefore(g.rows, Superseded(facts[f]), x, day))
            && (HeldAt(rows, Asserted(facts[f]), x) <==> HeldAt(g.rows, Asserted(facts[f]), x) || x >= day)
  {
    var rows, fact := Applied(g, facts, ctx, strict).value.rows, facts[f];
    UpdateHandsOver(g, facts, f, ctx, strict);
    TrueUntil(g.rows, rows, Superseded(fact), day, x);
    TrueFrom(g.rows, rows, Row(Asserted(fact), fact.effective, None, fact.confidence, ctx.closet, ctx.file, 0, Decision,
                               ctx.scope), day, x);
  }

  /** Where every row of the old object is still open and the new one has no row at all, the one is true up to the day,
      if it was, and the other exactly from it on. */
  lemma CleanHandOver(g: Graph, facts: seq<Fact>, f: nat, ctx: Context, strict: bool, day: Date, x: Date)
    requires Applied(g, facts, ctx, strict).Ok? && f < |facts|
    requires facts[f].UpdateFact? && facts[f].supersedes.Some? && facts[f].supersedes.value != ""
    requires facts[f].effective == Some(day) && Superseded(facts[f]) != Asserted(facts[f])
    requires Alone(facts, f, Superseded(facts[f])) && Alone(facts, f, Asserted(facts[f]))
    requires forall r :: r in g.rows && r.key == Superseded(facts[f]) ==> r.validTo.None?
    requires forall r :: r in g.rows ==> r.key != Asserted(facts[f])
    ensures var rows := Applied(g, facts, ctx, strict).value.rows;
            && (HeldAt(rows, Superseded(facts[f]), x) <==> HeldAt(g.rows, Superseded(facts[f]), x) && x < day)
            && (HeldAt(rows, Asserted(facts[f]), x) <==> x >= day)
  {
    FilterNone(g.rows, (r: Row) => r.key == Asserted(facts[f]));
    HandsOverOnTheDay(g, facts, f, ctx, strict, day, x);
  }

  // ----- Facts that supersede nothing -----

  /** The triple a fact states and the day it says it begins on, for a fact that supersedes nothing. */
  predicate States(fact: Fact, key: Key, since: Option<Date>) {
    match fact
    case IdentityFact(_, _, _, _, _, _) => false
    case RelationshipFact(_, _, subject, pred, obj) => key == Key(subject, pred, obj) && since == None
    case PreferenceFact(_, _, subject, preference) => key == Key(subject, "prefers", preference) && since == None
    case EventFact(_, _, name, date, description) => key == Key(name, "event", description) && since == date
    case UpdateFact(_, _, subject, pred, obj, prior, date) =>
      (prior == None || prior == Some("")) && key == Key(subject, pred, obj) && since == date
    case OpenQuestion(_, _, _, _) => false
  }

  /** The same rows, of which at most confidence and count moved. */
  predicate SameWindows(rows: seq<Row>, rows': seq<Row>) {
    && |rows'| == |rows|
    && forall i :: 0 <= i < |rows| ==>
         rows'[i] == rows[i].(confidence := rows'[i].confidence, count := rows'[i].count)
  }

  lemma {:induction false} BumpedWindows(rows: seq<Row>, rows': seq<Row>, key: Key)
    requires SameWindows(rows, rows')
    ensures SameWindows(RowsAt(rows, key), RowsAt(rows', key))
  {
    if rows != [] {
      BumpedWindows(rows[..|rows| - 1], rows'[..|rows| - 1], key);
    }
  }

  /** An assertion at a key with a currently-true row moves no date. */
  lemma AssertKeepsWindows(g: Graph, key: Key, since: Option<Date>, c: real, ctx: Context)
    requires !NoneOpen(g.rows, key) && 0.0 <= c <= 1.0 && Step(g, Assert(key, since, c), ctx).Ok?
    ensures SameWindows(RowsAt(g.rows, key), RowsAt(Step(g, Assert(key, since, c), ctx).value.rows, key))
  {
    NoneOpenMeans(g.rows, key);
    BumpedWindows(g.rows, Step(g, Assert(key, since, c), ctx).value.rows, key);
  }

  lemma StatedWrites(g: Graph, fact: Fact, key: Key, since: Option<Date>, ctx: Context)
    requires States(fact, key, since) && Run(g, Ops(fact), ctx).Ok?
    ensures var rows, rows' := RowsAt(g.rows, key), RowsAt(Run(g, Ops(fact), ctx).value.rows, key);
            if NoneOpen(g.rows, key) then
              rows' == rows + [Row(key, since, None, fact.confidence, ctx.closet, ctx.file, 0, Decision, ctx.scope)]
            else SameWindows(rows, rows')
  {
    var ops := Ops(fact);
    var n := |ops| - 1;
    assert ops[n] == Assert(key, since, fact.confidence);
    assert WriteElsewhere(ops[..n], key);
    var g' := Run(g, ops[..n], ctx).value;
    RunElsewhere(g, ops[..n], ctx, key);
    if NoneOpen(g.rows, key) {
      AssertAppends(g', key, since, fact.confidence, ctx);
    } else {
      AssertKeepsWindows(g', key, since, fact.confidence, ctx);
    }
  }

  /** A promoted fact about a triple that was not currently true gives it one new row with the fact's confidence, from
      the day the fact names and without an end, under the proposal's scope and report. About one that was, it moves no
      date: at most confidence and count change. */
  lemma FactLands(g: Graph, facts: seq<Fact>, f: nat, key: Key, since: Option<Date>, ctx: Context, strict: bool)
    requires Applied(g, facts, ctx, strict).Ok? && f < |facts|
    requires States(facts[f], key, since) && Alone(facts, f, key)
    ensures var rows, rows' := RowsAt(g.rows, key), RowsAt(Applied(g, facts, ctx, strict).value.rows, key);
            if NoneOpen(g.rows, key) then
              rows' == rows + [Row(key, since, None, facts[f].confidence, ctx.closet, ctx.file, 0, Decision, ctx.scope)]
            else SameWindows(rows, rows')
  {
    ScanSound(g, facts, AllOps(facts), ctx);
    OwnWritesDecide(g, facts, f, key, ctx);
    StatedWrites(Run(g, AllOps(facts[..f]), ctx).value, facts[f], key, since, ctx);
  }

  // ----- Entities -----

  /** The entities a fact names. */
  predicate Names(fact: Fact, name: string) {
    match fact
    case IdentityFact(_, _, identity, _, _, _) => name == identity
    case RelationshipFact(_, _, subject, _, obj) => name == subject || name == obj
    case PreferenceFact(_, _, subject, _) => name == subject
    case EventFact(_, _, entity, _, _) => name == entity
    case UpdateFact(_, _, subject, _, _, _, _) => name == subject
    case OpenQuestion(_, _, _, _) => false
  }

  /** What a fact makes of an entity it names. */
  function EntityOf(fact: Fact): Entity {
    if fact.IdentityFact? then Entity(fact.entityType, fact.properties) else Entity("unknown", map[])
  }

  lemma OwnOverlay(fact: Fact, name: string)
    ensures name in Overlay(Ops(fact)) <==> Names(fact, name)
    ensures Names(fact, name) ==> Overlay(Ops(fact))[name] == EntityOf(fact)
  {
    var ops := Ops(fact);
    if |ops| >= 1 {
      assert ops[..1] == [ops[0]] && [ops[0]][..0] == [];
      assert Overlay(ops[..1]) == map[ops[0].name := ops[0].entity];
      if |ops| >= 2 {
        assert ops[..2][..1] == ops[..1];
        if |ops| == 3 {
          assert ops[..3] == ops && ops[..3][..2] == ops[..2];
        } else {
          assert ops[..2] == ops;
        }
      } else {
        assert ops[..1] == ops;
      }
    }
  }

  lemma OverlayOfFacts(facts: seq<Fact>, name: string)
    requires facts != []
    ensures var n := |facts| - 1;
            var front, all := Overlay(AllOps(facts[..n])), Overlay(AllOps(facts));
            && (name in all <==> Names(facts[n], name) || name in front)
            && (name in all ==> all[name] == if Names(facts[n], name) then EntityOf(facts[n]) else front[name])
  {
    OverlayAppend(AllOps(facts[..|facts| - 1]), Ops(facts[|facts| - 1]));
    OwnOverlay(facts[|facts| - 1], name);
  }

  lemma {:induction false} LastFactDecides(facts: seq<Fact>, f: nat, name: string)
    requires f < |facts| && Names(facts[f], name)
    requires forall h :: f < h < |facts| ==> !Names(facts[h], name)
    ensures name in Overlay(AllOps(facts)) && Overlay(AllOps(facts))[name] == EntityOf(facts[f])
  {
    OverlayOfFacts(facts, name);
    if f < |facts| - 1 {
      LastFactDecides(facts[..|facts| - 1], f, name);
    }
  }

  lemma {:induction false} UnnamedStays(facts: seq<Fact>, name: string)
    requires forall h :: 0 <= h < |facts| ==> !Names(facts[h], name)
    ensures name !in Overlay(AllOps(facts))
  {
    if facts != [] {
      OverlayOfFacts(facts, name);
      UnnamedStays(facts[..|facts| - 1], name);
    }
  }

  /** The last fact that names an entity decides what it is after the promote: an identity fact gives it type and
      properties, any other resets it to an unknown entity without properties, whatever was known of it. */
  lemma EntityAfterPromote(g: Graph, facts: seq<Fact>, f: nat, name: string, ctx: Context, strict: bool)
    requires Applied(g, facts, ctx, strict).Ok? && f < |facts| && Names(facts[f], name)
    requires forall h :: f < h < |facts| ==> !Names(facts[h], name)
    ensures var entities := Applied(g, facts, ctx, strict).value.entities;
            name in entities && entities[name] == if facts[f].IdentityFact?
                                                  then Entity(facts[f].entityType, facts[f].properties)
                                                  else Entity("unknown", map[])
  {
    ScanSound(g, facts, AllOps(facts), ctx);
    PassIsGrounded(facts);
    EntitiesAfter(g, AllOps(facts), ctx);
    LastFactDecides(facts, f, name);
  }

  /** An entity that no fact names stays what it was, or absent. */
  lemma UnnamedEntityStays(g: Graph, facts: seq<Fact>, name: string, ctx: Context, strict: bool)
    requires Applied(g, facts, ctx, strict).Ok? && forall h :: 0 <= h < |facts| ==> !Names(facts[h], name)
    ensures var entities := Applied(g, facts, ctx, strict).value.entities;
            (name in entities <==> name in g.entities) && (name in entities ==> entities[name] == g.entities[name])
  {
    ScanSound(g, facts, AllOps(facts), ctx);
    PassIsGrounded(facts);
    EntitiesAfter(g, AllOps(facts), ctx);
    UnnamedStays(facts, name);
  }
}
