/** What the graph holds apart from some keys: every write elsewhere, every scan of other keys and every merge of other
    names sees and changes this part only. */
module Outside {
  import opened Common
  import opened Confidence
  import opened TripleStore
  import opened MergeLaws
  import opened Beliefs
  import opened Extraction
  import opened Promotion
  import opened Retry
  import opened StrictMode

  function OthersUpTo(rows: seq<Row>, sources: seq<Source>, keys: set<Key>, n: nat): seq<Belief>
    requires n <= |rows|
  {
    if n == 0 then []
    else
      var front := OthersUpTo(rows, sources, keys, n - 1);
      if rows[n - 1].key in keys then front else front + [Belief(rows[n - 1], Entries(sources, n - 1))]
  }

  /** All rows that are about none of the keys, ended ones included, with their provenance, in id order and without
      their ids. */
  function Others(g: Graph, keys: set<Key>): seq<Belief> {
    OthersUpTo(g.rows, g.sources, keys, |g.rows|)
  }

  function OpenOf(beliefs: seq<Belief>, key: Key): seq<Belief> {
    Filter(beliefs, (b: Belief) => b.row.OpenAt(key))
  }

  lemma {:induction false} OpenOfOthers(g: Graph, keys: set<Key>, key: Key, n: nat)
    requires n <= |g.rows| && key !in keys
    ensures BeliefsUpTo(g.rows, g.sources, key, n) == OpenOf(OthersUpTo(g.rows, g.sources, keys, n), key)
  {
    if n > 0 {
      OpenOfOthers(g, keys, key, n - 1);
      var front, all := OthersUpTo(g.rows, g.sources, keys, n - 1), OthersUpTo(g.rows, g.sources, keys, n);
      if g.rows[n - 1].key in keys {
        assert all == front;
      } else {
        assert all[..|all| - 1] == front;
      }
    }
  }

  /** Two graphs that agree outside the keys show the same beliefs at every other key. */
  lemma SameOthersSameBeliefs(a: Graph, b: Graph, keys: set<Key>, key: Key)
    requires Others(a, keys) == Others(b, keys) && key !in keys
    ensures BeliefsAt(a, key) == BeliefsAt(b, key)
  {
    OpenOfOthers(a, keys, key, |a.rows|);
    OpenOfOthers(b, keys, key, |b.rows|);
  }

  // ----- Writes -----

  lemma {:induction false} OthersFrame(rows: seq<Row>, sources: seq<Source>, rows': seq<Row>, sources': seq<Source>,
                                       keys: set<Key>, n: nat)
    requires n <= |rows| && n <= |rows'|
    requires forall i :: 0 <= i < n ==> rows[i].key == rows'[i].key
    requires forall i :: 0 <= i < n && rows[i].key !in keys ==>
             rows[i] == rows'[i] && Entries(sources, i) == Entries(sources', i)
    ensures OthersUpTo(rows, sources, keys, n) == OthersUpTo(rows', sources', keys, n)
  {
    if n > 0 {
      OthersFrame(rows, sources, rows', sources', keys, n - 1);
    }
  }

  lemma AddedOthers(g: Graph, row: Row, keys: set<Key>)
    requires WellFounded(g)
    ensures Others(Added(g, row), keys) ==
            Others(g, keys) +
            if row.key in keys then [] else [Belief(row, [Entry(row.closet, row.file, row.confidence)])]
  {
    var g' := Added(g, row);
    var n := |g.rows|;
    var entry := Entry(row.closet, row.file, row.confidence);
    forall i | 0 <= i < n
      ensures Entries(g'.sources, i) == Entries(g.sources, i)
    {
      EntriesSnoc(g.sources, Source(n, entry), i);
      assert Entries(g.sources, i) + [] == Entries(g.sources, i);
    }
    EntriesOfStranger(g.sources, n);
    EntriesSnoc(g.sources, Source(n, entry), n);
    OthersFrame(g.rows, g.sources, g'.rows, g'.sources, keys, n);
    assert Entries(g'.sources, n) == [entry];
  }

  /** The list after its last member open at the key took in one more piece of evidence. */
  function Strengthened(beliefs: seq<Belief>, key: Key, c: real, closet: Option<string>, file: Option<string>):
    seq<Belief>
  {
    if beliefs == [] then []
    else
      var n := |beliefs| - 1;
      if beliefs[n].row.OpenAt(key) then Reinforced(beliefs, c, closet, file)
      else Strengthened(beliefs[..n], key, c, closet, file) + [beliefs[n]]
  }

  function ReinforcedBy(b: Belief, c: real, closet: Option<string>, file: Option<string>): Belief {
    var raised := Corroborated(b.row.confidence, c);
    Belief(b.row.(confidence := raised, count := b.row.count + 1), b.entries + [Entry(closet, file, raised)])
  }

  lemma StrengthenedSnoc(front: seq<Belief>, b: Belief, key: Key, c: real, closet: Option<string>,
                         file: Option<string>)
    ensures Strengthened(front + [b], key, c, closet, file) ==
            if b.row.OpenAt(key) then front + [ReinforcedBy(b, c, closet, file)]
            else Strengthened(front, key, c, closet, file) + [b]
  {
    assert (front + [b])[..|front|] == front;
  }

  lemma BumpedRow(g: Graph, id: nat, c: real, closet: Option<string>, file: Option<string>, i: nat)
    requires id < |g.rows| && i < |g.rows|
    ensures var g' := Bumped(g, id, c, closet, file);
            Belief(g'.rows[i], Entries(g'.sources, i)) ==
            var b := Belief(g.rows[i], Entries(g.sources, i)); if i == id then ReinforcedBy(b, c, closet, file) else b
  {
    BumpedEntries(g, id, c, closet, file, i);
    assert Entries(g.sources, i) + [] == Entries(g.sources, i);
  }

  lemma BumpFrameOthers(g: Graph, id: nat, c: real, closet: Option<string>, file: Option<string>, keys: set<Key>)
    requires id < |g.rows| && g.rows[id].key in keys
    ensures Others(Bumped(g, id, c, closet, file), keys) == Others(g, keys)
  {
    var g' := Bumped(g, id, c, closet, file);
    forall i | 0 <= i < |g.rows| && g.rows[i].key !in keys
      ensures g'.rows[i] == g.rows[i] && Entries(g'.sources, i) == Entries(g.sources, i)
    {
      BumpedRow(g, id, c, closet, file, i);
    }
    OthersFrame(g.rows, g.sources, g'.rows, g'.sources, keys, |g.rows|);
  }

  function BeliefIn(g: Graph, i: nat): Belief
    requires i < |g.rows|
  {
    Belief(g.rows[i], Entries(g.sources, i))
  }

  lemma UnchangedUpTo(g: Graph, g': Graph, keys: set<Key>, n: nat)
    requires n <= |g.rows| == |g'.rows| && forall i :: 0 <= i < n ==> BeliefIn(g', i) == BeliefIn(g, i)
    ensures OthersUpTo(g'.rows, g'.sources, keys, n) == OthersUpTo(g.rows, g.sources, keys, n)
  {
    forall i | 0 <= i < n
      ensures g'.rows[i] == g.rows[i] && Entries(g'.sources, i) == Entries(g.sources, i)
    {
      assert BeliefIn(g', i) == BeliefIn(g, i);
    }
    OthersFrame(g.rows, g.sources, g'.rows, g'.sources, keys, n);
  }

  lemma {:induction false} ReinforcedUpTo(g: Graph, g': Graph, id: nat, key: Key, c: real, closet: Option<string>,
                                          file: Option<string>, keys: set<Key>, n: nat)
    requires id < n <= |g.rows| == |g'.rows| && g.rows[id].OpenAt(key) && key !in keys
    requires forall i :: id < i < |g.rows| ==> !g.rows[i].OpenAt(key)
    requires forall i :: 0 <= i < |g.rows| ==>
               BeliefIn(g', i) == if i == id then ReinforcedBy(BeliefIn(g, i), c, closet, file) else BeliefIn(g, i)
    ensures OthersUpTo(g'.rows, g'.sources, keys, n) ==
            Strengthened(OthersUpTo(g.rows, g.sources, keys, n), key, c, closet, file)
  {
    var b := BeliefIn(g, n - 1);
    assert BeliefIn(g', n - 1) == if n - 1 == id then ReinforcedBy(b, c, closet, file) else b;
    if n - 1 == id {
      UnchangedUpTo(g, g', keys, id);
    } else {
      ReinforcedUpTo(g, g', id, key, c, closet, file, keys, n - 1);
    }
    if b.row.key !in keys {
      StrengthenedSnoc(OthersUpTo(g.rows, g.sources, keys, n - 1), b, key, c, closet, file);
    }
  }

  lemma BumpedOthers(g: Graph, key: Key, c: real, closet: Option<string>, file: Option<string>, keys: set<Key>)
    requires Newest(g.rows, key).Some?
    ensures Others(Bumped(g, Newest(g.rows, key).value, c, closet, file), keys) ==
            if key in keys then Others(g, keys) else Strengthened(Others(g, keys), key, c, closet, file)
  {
    var id := Newest(g.rows, key).value;
    var g' := Bumped(g, id, c, closet, file);
    forall i | 0 <= i < |g.rows|
      ensures BeliefIn(g', i) == if i == id then ReinforcedBy(BeliefIn(g, i), c, closet, file) else BeliefIn(g, i)
    {
      BumpedRow(g, id, c, closet, file, i);
    }
    if key in keys {
      BumpFrameOthers(g, id, c, closet, file, keys);
    } else {
      ReinforcedUpTo(g, g', id, key, c, closet, file, keys, |g.rows|);
    }
  }

  function EndedBelief(b: Belief, key: Key, ended: Date): Belief {
    b.(row := EndedRow(b.row, key, ended))
  }

  lemma {:induction false} EndedOthersUpTo(g: Graph, key: Key, ended: Date, keys: set<Key>, n: nat)
    requires n <= |g.rows|
    ensures OthersUpTo(Ended(g.rows, key, ended), g.sources, keys, n) ==
            Mapped(b => EndedBelief(b, key, ended), OthersUpTo(g.rows, g.sources, keys, n))
  {
    if n > 0 {
      EndedOthersUpTo(g, key, ended, keys, n - 1);
      MappedSnoc(b => EndedBelief(b, key, ended), OthersUpTo(g.rows, g.sources, keys, n - 1), BeliefIn(g, n - 1));
    }
  }

  lemma EndedElsewhere(beliefs: seq<Belief>, key: Key, ended: Date)
    requires forall i :: 0 <= i < |beliefs| ==> beliefs[i].row.key != key
    ensures Mapped(b => EndedBelief(b, key, ended), beliefs) == beliefs
  {}

  lemma {:induction false} OthersAreOther(rows: seq<Row>, sources: seq<Source>, keys: set<Key>, n: nat)
    requires n <= |rows|
    ensures forall i :: 0 <= i < |OthersUpTo(rows, sources, keys, n)| ==>
                          OthersUpTo(rows, sources, keys, n)[i].row.key !in keys
  {
    if n > 0 {
      OthersAreOther(rows, sources, keys, n - 1);
    }
  }

  /** What one write does to the rest of the graph. */
  function OthersStep(beliefs: seq<Belief>, keys: set<Key>, op: Op, ctx: Context): seq<Belief> {
    if op.Register? || op.key in keys then beliefs
    else
      match op
      case End(key, ended) =>
        Mapped(b => EndedBelief(b, key, if ended.Some? then ended.value else ctx.today), beliefs)
      case Assert(key, validFrom, c) =>
        if Recorded(OpenOf(beliefs, key), ctx.file) then beliefs
        else if OpenOf(beliefs, key) != [] then Strengthened(beliefs, key, c, ctx.closet, ctx.file)
        else beliefs + [Belief(Row(key, validFrom, None, c, ctx.closet, ctx.file, 0, DEFAULT_TIER, ctx.scope),
                               [Entry(ctx.closet, ctx.file, c)])]
  }

  lemma StepIsOthersStep(g: Graph, op: Op, ctx: Context, keys: set<Key>)
    requires WellFounded(g) && Step(g, op, ctx).Ok?
    ensures Others(Step(g, op, ctx).value, keys) == OthersStep(Others(g, keys), keys, op, ctx)
  {
    match op
    case Register(_, _) =>
    case End(key, ended) =>
      EndedOthersUpTo(g, key, if ended.Some? then ended.value else ctx.today, keys, |g.rows|);
      OthersAreOther(g.rows, g.sources, keys, |g.rows|);
      if key in keys {
        EndedElsewhere(Others(g, keys), key, if ended.Some? then ended.value else ctx.today);
      }
    case Assert(key, validFrom, c) =>
      HasSourceIsRecorded(g, key, ctx.file);
      NewestIsLast(g, key);
      if key !in keys {
        OpenOfOthers(g, keys, key, |g.rows|);
      }
      if !HasSource(g, key, ctx.file) {
        match Newest(g.rows, key)
        case Some(id) => BumpedOthers(g, key, c, ctx.closet, ctx.file, keys);
        case None =>
          AddedOthers(g, Row(key, validFrom, None, c, ctx.closet, ctx.file, 0, DEFAULT_TIER, ctx.scope), keys);
      }
  }

  lemma {:induction false} SameRun(a: Graph, b: Graph, ops: seq<Op>, ctx: Context, keys: set<Key>)
    requires WellFounded(a) && WellFounded(b) && Others(a, keys) == Others(b, keys)
    requires Run(a, ops, ctx).Ok? && Run(b, ops, ctx).Ok?
    ensures WellFounded(Run(a, ops, ctx).value) && WellFounded(Run(b, ops, ctx).value)
    ensures Others(Run(a, ops, ctx).value, keys) == Others(Run(b, ops, ctx).value, keys)
  {
    if ops != [] {
      var n := |ops| - 1;
      SameRun(a, b, ops[..n], ctx, keys);
      var a', b' := Run(a, ops[..n], ctx).value, Run(b, ops[..n], ctx).value;
      StepIsKeyStep(a', ops[n], ctx, Key("", "", ""));
      StepIsKeyStep(b', ops[n], ctx, Key("", "", ""));
      StepIsOthersStep(a', ops[n], ctx, keys);
      StepIsOthersStep(b', ops[n], ctx, keys);
    }
  }

  /** Writes to the keys show nowhere else. */
  lemma {:induction false} RunInside(g: Graph, ops: seq<Op>, ctx: Context, keys: set<Key>)
    requires WellFounded(g) && Run(g, ops, ctx).Ok?
    requires forall i :: 0 <= i < |ops| && !ops[i].Register? ==> ops[i].key in keys
    ensures WellFounded(Run(g, ops, ctx).value)
    ensures Others(Run(g, ops, ctx).value, keys) == Others(g, keys)
  {
    if ops != [] {
      var n := |ops| - 1;
      RunInside(g, ops[..n], ctx, keys);
      StepIsKeyStep(Run(g, ops[..n], ctx).value, ops[n], ctx, Key("", "", ""));
      StepIsOthersStep(Run(g, ops[..n], ctx).value, ops[n], ctx, keys);
    }
  }

  /** Writes elsewhere do not show at the key. */
  lemma {:induction false} RunElsewhere(g: Graph, ops: seq<Op>, ctx: Context, key: Key)
    requires WellFounded(g) && Run(g, ops, ctx).Ok?
    requires forall i :: 0 <= i < |ops| && !ops[i].Register? ==> ops[i].key != key
    ensures BeliefsAt(Run(g, ops, ctx).value, key) == BeliefsAt(g, key)
  {
    if ops != [] {
      var n := |ops| - 1;
      RunElsewhere(g, ops[..n], ctx, key);
      RunIsKeyRun(g, ops[..n], ctx, key);
      StepIsKeyStep(Run(g, ops[..n], ctx).value, ops[n], ctx, key);
    }
  }

  lemma EndedElsewhereOthers(a: Graph, b: Graph, key: Key, ended: Date, keys: set<Key>)
    requires Others(a, keys) == Others(b, keys)
    ensures Others(a.(rows := Ended(a.rows, key, ended)), keys) == Others(b.(rows := Ended(b.rows, key, ended)), keys)
  {
    EndedOthersUpTo(a, key, ended, keys, |a.rows|);
    EndedOthersUpTo(b, key, ended, keys, |b.rows|);
  }

  // ----- Scans -----

  lemma AgreesByBeliefs(g: Graph, key: Key, scope: string)
    ensures ScopeAgrees(g.rows, key, scope) <==>
            var beliefs := BeliefsAt(g, key); beliefs == [] || beliefs[|beliefs| - 1].row.scope == scope
  {
    NewestIsLast(g, key);
  }

  /** A scope scan of keys that show the same beliefs comes out the same. */
  lemma SameScopeScan(a: Graph, b: Graph, facts: seq<Fact>, scope: string)
    requires forall key :: key in TouchedKeys(facts) ==> BeliefsAt(a, key) == BeliefsAt(b, key)
    ensures ScopeConflicts(a.rows, facts, scope) == [] <==> ScopeConflicts(b.rows, facts, scope) == []
  {
    ScanEmptyMeans(a.rows, facts, scope);
    ScanEmptyMeans(b.rows, facts, scope);
    forall key | key in TouchedKeys(facts)
      ensures ScopeAgrees(a.rows, key, scope) <==> ScopeAgrees(b.rows, key, scope)
    {
      AgreesByBeliefs(a, key, scope);
      AgreesByBeliefs(b, key, scope);
    }
  }

  /** No fact speaks about the subject and predicate of one of the keys. */
  ghost predicate SlotsApart(facts: seq<Fact>, keys: set<Key>) {
    forall f, key :: 0 <= f < |facts| && Claim(facts[f]).Some? && key in keys ==>
                       !SameSlot(Claim(facts[f]).value, key)
  }

  lemma SameCoherence(a: Graph, b: Graph, fact: Fact, keys: set<Key>)
    requires Others(a, keys) == Others(b, keys)
    requires Claim(fact).Some? ==> forall key :: key in keys ==> !SameSlot(Claim(fact).value, key)
    ensures Coherent(a.rows, fact) <==> Coherent(b.rows, fact)
  {
    CoherentByKey(a.rows, fact);
    CoherentByKey(b.rows, fact);
    forall key | key !in keys
      ensures Newest(a.rows, key).Some? <==> Newest(b.rows, key).Some?
    {
      SameOthersSameBeliefs(a, b, keys, key);
      NewestIsLast(a, key);
      NewestIsLast(b, key);
    }
  }

  lemma SameWarnings(a: Graph, b: Graph, facts: seq<Fact>, keys: set<Key>)
    requires Others(a, keys) == Others(b, keys) && SlotsApart(facts, keys)
    ensures AllWarnings(a.rows, facts) == [] <==> AllWarnings(b.rows, facts) == []
  {
    ScanCoherent(a.rows, facts);
    ScanCoherent(b.rows, facts);
    forall f | 0 <= f < |facts|
      ensures Coherent(a.rows, facts[f]) <==> Coherent(b.rows, facts[f])
    {
      SameCoherence(a, b, facts[f], keys);
    }
  }

  // ----- Merges -----

  predicate Unmentioned(keys: set<Key>, name: string) {
    forall key :: key in keys ==> !Involves(key, name, Both)
  }

  lemma RenameStaysOut(key: Key, source: string, target: string, keys: set<Key>)
    requires Unmentioned(keys, source) && Unmentioned(keys, target)
    ensures Rename(key, source, target) in keys <==> key in keys
    ensures key in keys ==> Rename(key, source, target) == key
  {}

  function RenamedBelief(b: Belief, source: string, target: string): Belief {
    b.(row := RenameRow(b.row, source, target))
  }

  lemma {:induction false} MergedOthersUpTo(g: Graph, source: string, target: string, keys: set<Key>, n: nat)
    requires Unmentioned(keys, source) && Unmentioned(keys, target) && n <= |g.rows|
    ensures OthersUpTo(RenameRows(g.rows, source, target), g.sources, keys, n) ==
            Mapped(b => RenamedBelief(b, source, target), OthersUpTo(g.rows, g.sources, keys, n))
  {
    if n > 0 {
      MergedOthersUpTo(g, source, target, keys, n - 1);
      RenameStaysOut(g.rows[n - 1].key, source, target, keys);
      MappedSnoc(b => RenamedBelief(b, source, target), OthersUpTo(g.rows, g.sources, keys, n - 1), BeliefIn(g, n - 1));
    }
  }

  lemma MergeElsewhere(g: Graph, source: string, target: string, reviewer: string, rationale: string, key: Key)
    requires !Involves(key, source, Both) && !Involves(key, target, Both)
    ensures BeliefsAt(Merged(g, source, target, reviewer, rationale), key) == BeliefsAt(g, key)
  {
    var g' := Merged(g, source, target, reviewer, rationale);
    forall i | 0 <= i < |g.rows|
      ensures g.rows[i].OpenAt(key) <==> g'.rows[i].OpenAt(key)
      ensures g.rows[i].OpenAt(key) ==> g.rows[i] == g'.rows[i]
    {
      RenameStaysOut(g.rows[i].key, source, target, {key});
    }
    BeliefsFrame(g.rows, g.sources, g'.rows, g'.sources, key, |g.rows|);
  }

  function OccurrencesIn(beliefs: seq<Belief>, name: string): nat {
    if beliefs == [] then 0
    else
      var key := beliefs[|beliefs| - 1].row.key;
      OccurrencesIn(beliefs[..|beliefs| - 1], name) + (if key.subject == name then 1 else 0) +
          (if key.obj == name then 1 else 0)
  }

  lemma {:induction false} OccurrencesOfOthers(g: Graph, keys: set<Key>, name: string, n: nat)
    requires Unmentioned(keys, name) && n <= |g.rows|
    ensures Occurrences(g.rows[..n], name) == OccurrencesIn(OthersUpTo(g.rows, g.sources, keys, n), name)
  {
    if n > 0 {
      OccurrencesOfOthers(g, keys, name, n - 1);
      assert g.rows[..n][..n - 1] == g.rows[..n - 1];
      var front, all := OthersUpTo(g.rows, g.sources, keys, n - 1), OthersUpTo(g.rows, g.sources, keys, n);
      if g.rows[n - 1].key !in keys {
        assert all[..|all| - 1] == front;
      }
    }
  }

  predicate OneScopeIn(beliefs: seq<Belief>) {
    forall x, y :: 0 <= x < |beliefs| && 0 <= y < |beliefs| ==> beliefs[x].row.scope == beliefs[y].row.scope
  }

  predicate AllUnder(beliefs: seq<Belief>, scope: string) {
    forall x :: 0 <= x < |beliefs| ==> beliefs[x].row.scope == scope
  }

  lemma AllUnderSnoc(front: seq<Belief>, b: Belief, scope: string)
    ensures AllUnder(front + [b], scope) <==> AllUnder(front, scope) && b.row.scope == scope
  {
    assert (front + [b])[|front|] == b;
    assert forall x :: 0 <= x < |front| ==> (front + [b])[x] == front[x];
  }

  lemma {:induction false} AllUnderUpTo(g: Graph, key: Key, scope: string, n: nat)
    requires n <= |g.rows|
    ensures AllUnder(BeliefsUpTo(g.rows, g.sources, key, n), scope) <==>
            forall i :: 0 <= i < n && g.rows[i].OpenAt(key) ==> g.rows[i].scope == scope
  {
    if n > 0 {
      AllUnderUpTo(g, key, scope, n - 1);
      if g.rows[n - 1].OpenAt(key) {
        AllUnderSnoc(BeliefsUpTo(g.rows, g.sources, key, n - 1), BeliefIn(g, n - 1), scope);
      } else {
        assert BeliefsUpTo(g.rows, g.sources, key, n) == BeliefsUpTo(g.rows, g.sources, key, n - 1);
      }
    }
  }

  lemma OneScopeByBeliefs(g: Graph, key: Key)
    ensures OneScopeAt(g.rows, key) <==> OneScopeIn(BeliefsAt(g, key))
  {
    NoBeliefs(g.rows, g.sources, key, |g.rows|);
    var beliefs := BeliefsAt(g, key);
    if OneScopeAt(g.rows, key) && beliefs != [] {
      var i :| 0 <= i < |g.rows| && g.rows[i].OpenAt(key);
      AllUnderUpTo(g, key, g.rows[i].scope, |g.rows|);
    }
    if OneScopeIn(beliefs) && beliefs != [] {
      AllUnderUpTo(g, key, beliefs[0].row.scope, |g.rows|);
    }
  }

  /** A merge of other names is let through by both graphs or by neither, replaces as many occurrences, and leaves them
      equal outside the keys. */
  lemma SameMerge(a: Graph, b: Graph, source: string, target: string, reviewer: string, rationale: string,
                  keys: set<Key>)
    requires Others(a, keys) == Others(b, keys) && source != target
    requires Unmentioned(keys, source) && Unmentioned(keys, target)
    ensures MixesScopes(a.rows, source, target) <==> MixesScopes(b.rows, source, target)
    ensures Occurrences(a.rows, source) == Occurrences(b.rows, source)
    ensures Others(Merged(a, source, target, reviewer, rationale), keys) ==
            Others(Merged(b, source, target, reviewer, rationale), keys)
  {
    var a', b' := Merged(a, source, target, reviewer, rationale), Merged(b, source, target, reviewer, rationale);
    MergedOthersUpTo(a, source, target, keys, |a.rows|);
    MergedOthersUpTo(b, source, target, keys, |b.rows|);
    OccurrencesOfOthers(a, keys, source, |a.rows|);
    OccurrencesOfOthers(b, keys, source, |b.rows|);
    assert a.rows[..|a.rows|] == a.rows && b.rows[..|b.rows|] == b.rows;
    ScanDecidesMerge(a.rows, source, target);
    ScanDecidesMerge(b.rows, source, target);
    forall key | Involves(key, target, Both)
      ensures OneScopeAt(a'.rows, key) <==> OneScopeAt(b'.rows, key)
    {
      SameOthersSameBeliefs(a', b', keys, key);
      OneScopeByBeliefs(a', key);
      OneScopeByBeliefs(b', key);
    }
  }
}
