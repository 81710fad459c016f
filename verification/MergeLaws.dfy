/** What `merge_entities` promises about the whole graph: its local conflict scan decides a global property, and
    the rewrite is a substitution that every query, at every date, can see through. */
module MergeLaws {
  import opened Common
  import opened TripleStore

  /** Any two currently-true rows at `key` carry the same scope. */
  ghost predicate OneScopeAt(rows: seq<Row>, key: Key) {
    forall i, j :: 0 <= i < |rows| && 0 <= j < |rows| && rows[i].OpenAt(key) && rows[j].OpenAt(key) ==>
      rows[i].scope == rows[j].scope
  }

  ghost predicate OneScope(rows: seq<Row>) {
    forall key :: OneScopeAt(rows, key)
  }

  lemma TwoMembers<T>(s: set<T>, a: T, b: T)
    requires a in s && b in s && a != b
    ensures |s| > 1
  {
    assert {a, b} <= s;
    SubsetSize({a, b}, s);
  }

  lemma {:induction false} SubsetSize<T>(s: set<T>, t: set<T>)
    requires s <= t
    ensures |s| <= |t|
  {
    if s != {} {
      var x :| x in s;
      SubsetSize(s - {x}, t - {x});
    }
  }

  lemma BigSetMembers<T>(s: set<T>) returns (a: T, b: T)
    requires |s| > 1
    ensures a in s && b in s && a != b
  {
    a :| a in s;
    assert |s - {a}| > 0;
    b :| b in s - {a};
  }

  /** A key mentions the target after the rewrite exactly when it mentioned one of the two names before. */
  lemma MentionsTarget(key: Key, source: string, target: string)
    requires source != target
    ensures Involves(Rename(key, source, target), target, Both) <==>
            Involves(key, source, Both) || Involves(key, target, Both)
    ensures !Involves(Rename(key, source, target), source, Both)
  {}

  lemma ConflictShows(rows: seq<Row>, source: string, target: string, i: nat)
    requires source != target && i < |rows|
    requires |ScopesAfter(rows, source, target, Rename(rows[i].key, source, target))| > 1
    ensures Involves(Rename(rows[i].key, source, target), target, Both)
    ensures !OneScopeAt(RenameRows(rows, source, target), Rename(rows[i].key, source, target))
  {
    var key := Rename(rows[i].key, source, target);
    var a, b := BigSetMembers(ScopesAfter(rows, source, target, key));
    var after := RenameRows(rows, source, target);
    var m :| 0 <= m < |rows| && Touched(rows[m], source, target) && Rename(rows[m].key, source, target) == key
        && rows[m].scope == a;
    var n :| 0 <= n < |rows| && Touched(rows[n], source, target) && Rename(rows[n].key, source, target) == key
        && rows[n].scope == b;
    MentionsTarget(rows[m].key, source, target);
    assert after[m].OpenAt(key) && after[n].OpenAt(key);
  }

  lemma MixShows(rows: seq<Row>, source: string, target: string, key: Key, m: nat, n: nat)
    requires source != target && Involves(key, target, Both) && m < |rows| && n < |rows|
    requires RenameRow(rows[m], source, target).OpenAt(key) && RenameRow(rows[n], source, target).OpenAt(key)
    requires rows[m].scope != rows[n].scope
    ensures MixesScopes(rows, source, target)
  {
    MentionsTarget(rows[m].key, source, target);
    MentionsTarget(rows[n].key, source, target);
    var scopes := ScopesAfter(rows, source, target, key);
    assert rows[m].scope in scopes && rows[n].scope in scopes;
    TwoMembers(scopes, rows[m].scope, rows[n].scope);
    assert |ScopesAfter(rows, source, target, Rename(rows[m].key, source, target))| > 1;
  }

  /** The scan reads only open rows that mention one of the two names, and it comes back empty exactly when the
      rewritten graph has one scope at every currently-true key that mentions the target. */
  lemma ScanDecidesMerge(rows: seq<Row>, source: string, target: string)
    requires source != target
    ensures !MixesScopes(rows, source, target) <==>
            forall key :: Involves(key, target, Both) ==> OneScopeAt(RenameRows(rows, source, target), key)
  {
    var after := RenameRows(rows, source, target);
    if MixesScopes(rows, source, target) {
      var i :| 0 <= i < |rows| && |ScopesAfter(rows, source, target, Rename(rows[i].key, source, target))| > 1;
      ConflictShows(rows, source, target, i);
    } else {
      forall key, m, n | Involves(key, target, Both) && 0 <= m < |after| && 0 <= n < |after| &&
                         after[m].OpenAt(key) && after[n].OpenAt(key)
        ensures after[m].scope == after[n].scope
      {
        if rows[m].scope != rows[n].scope {
          MixShows(rows, source, target, key, m, n);
        }
      }
    }
  }

  /** A merge the scan lets through keeps the graph free of mixed scopes. */
  lemma MergeKeepsOneScope(rows: seq<Row>, source: string, target: string)
    requires source != target && OneScope(rows) && !MixesScopes(rows, source, target)
    ensures OneScope(RenameRows(rows, source, target))
  {
    var after := RenameRows(rows, source, target);
    ScanDecidesMerge(rows, source, target);
    forall key | !Involves(key, target, Both)
      ensures OneScopeAt(after, key)
    {
      forall i | 0 <= i < |after| && after[i].OpenAt(key)
        ensures rows[i].OpenAt(key)
      {
        MentionsTarget(rows[i].key, source, target);
      }
      assert OneScopeAt(rows, key);
    }
  }

  // ----- Substitution -----

  lemma {:induction false} NoOccurrences(rows: seq<Row>, name: string)
    requires forall i :: 0 <= i < |rows| ==> !Involves(rows[i].key, name, Both)
    ensures Occurrences(rows, name) == 0
  {
    if rows != [] {
      NoOccurrences(rows[..|rows| - 1], name);
    }
  }

  /** The source name is gone from the graph, its occurrences are now the target's, and nothing else moved. */
  lemma {:induction false} MergeMovesOccurrences(rows: seq<Row>, source: string, target: string)
    requires source != target
    ensures Occurrences(RenameRows(rows, source, target), source) == 0
    ensures Occurrences(RenameRows(rows, source, target), target) ==
            Occurrences(rows, source) + Occurrences(rows, target)
    ensures forall other :: other != source && other != target ==>
                              Occurrences(RenameRows(rows, source, target), other) == Occurrences(rows, other)
  {
    if rows != [] {
      var front := rows[..|rows| - 1];
      MergeMovesOccurrences(front, source, target);
      assert RenameRows(rows, source, target)[..|rows| - 1] == RenameRows(front, source, target);
    }
  }

  lemma {:induction false} FilterRenamed(rows: seq<Row>, source: string, target: string, p: Row -> bool, q: Row -> bool)
    requires forall i :: 0 <= i < |rows| ==> (p(RenameRow(rows[i], source, target)) <==> q(rows[i]))
    ensures Filter(RenameRows(rows, source, target), p) == RenameRows(Filter(rows, q), source, target)
  {
    if rows != [] {
      var n := |rows| - 1;
      var front := rows[..n];
      FilterRenamed(front, source, target, p, q);
      assert RenameRows(rows, source, target)[..n] == RenameRows(front, source, target);
      assert RenameRows(Filter(rows, q), source, target) ==
             RenameRows(Filter(front, q), source, target) +
             if q(rows[n]) then [RenameRow(rows[n], source, target)] else [];
    }
  }

  lemma TargetAfterMerge(rows: seq<Row>, source: string, target: string, asOf: Option<Date>,
                         direction: Direction, scopes: Option<set<string>>)
    requires source != target
    ensures QueryEntity(RenameRows(rows, source, target), target, asOf, direction, scopes) ==
            RenameRows(QueryEither(rows, source, target, asOf, direction, scopes), source, target)
  {
    FilterRenamed(rows, source, target,
                  (r: Row) => Involves(r.key, target, direction) && Visible(r, asOf, scopes),
                  (r: Row) => (Involves(r.key, source, direction) || Involves(r.key, target, direction)) &&
                              Visible(r, asOf, scopes));
  }

  lemma SourceAfterMerge(rows: seq<Row>, source: string, target: string, asOf: Option<Date>,
                         direction: Direction, scopes: Option<set<string>>)
    requires source != target
    ensures QueryEntity(RenameRows(rows, source, target), source, asOf, direction, scopes) == []
  {
    FilterNone(RenameRows(rows, source, target),
               (r: Row) => Involves(r.key, source, direction) && Visible(r, asOf, scopes));
  }

  lemma OtherAfterMerge(rows: seq<Row>, source: string, target: string, asOf: Option<Date>,
                        direction: Direction, scopes: Option<set<string>>, other: string)
    requires other != source && other != target
    ensures QueryEntity(RenameRows(rows, source, target), other, asOf, direction, scopes) ==
            RenameRows(QueryEntity(rows, other, asOf, direction, scopes), source, target)
  {
    FilterRenamed(rows, source, target,
                  (r: Row) => Involves(r.key, other, direction) && Visible(r, asOf, scopes),
                  (r: Row) => Involves(r.key, other, direction) && Visible(r, asOf, scopes));
  }

  /** What the graph knows about either of two names, in id order. */
  function QueryEither(rows: seq<Row>, a: string, b: string, asOf: Option<Date>, direction: Direction,
                       scopes: Option<set<string>>): seq<Row>
  {
    Filter(rows, (r: Row) => (Involves(r.key, a, direction) || Involves(r.key, b, direction))
           && Visible(r, asOf, scopes))
  }

  /** Asking the merged graph about the target, at any date, in any direction, under any viewer, gives what the old
      graph knew about either name, in the same order, with the one name written for the other. */
  lemma MergeCommutesWithTimeTravel(rows: seq<Row>, source: string, target: string, asOf: Option<Date>,
                                    direction: Direction, scopes: Option<set<string>>)
    requires source != target
    ensures QueryEntity(RenameRows(rows, source, target), target, asOf, direction, scopes) ==
            RenameRows(QueryEither(rows, source, target, asOf, direction, scopes), source, target)
    ensures QueryEntity(RenameRows(rows, source, target), source, asOf, direction, scopes) == []
    ensures forall other :: other != source && other != target ==>
                              QueryEntity(RenameRows(rows, source, target), other, asOf, direction, scopes) ==
                              RenameRows(QueryEntity(rows, other, asOf, direction, scopes), source, target)
  {
    TargetAfterMerge(rows, source, target, asOf, direction, scopes);
    SourceAfterMerge(rows, source, target, asOf, direction, scopes);
    forall other | other != source && other != target
      ensures QueryEntity(RenameRows(rows, source, target), other, asOf, direction, scopes) ==
              RenameRows(QueryEntity(rows, other, asOf, direction, scopes), source, target)
    {
      OtherAfterMerge(rows, source, target, asOf, direction, scopes, other);
    }
  }
}
