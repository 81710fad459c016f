/** What an invalidation does to queries at every date, and what a date has to do with validity, in the rows' own
    columns. */
module TimeTravel {
  import opened Common
  import opened TripleStore

  /** The window columns admit the date: a start is not later, an end is later. */
  predicate Holds(row: Row, x: Date) {
    && (row.validFrom.Some? ==> row.validFrom.value <= x)
    && (row.validTo.Some? ==> x < row.validTo.value)
  }

  /** The row as an invalidation of its key on day d leaves it. */
  function WrittenEnd(row: Row, key: Key, d: Date): Row {
    if row.key == key && row.validTo == None then row.(validTo := Some(d)) else row
  }

  /** Rows chosen, changed and chosen again. */
  lemma {:induction false} FilterEnded(rows: seq<Row>, key: Key, d: Date, p: Row -> bool, q: Row -> bool)
    requires forall i :: 0 <= i < |rows| ==> (p(EndedRow(rows[i], key, d)) <==> q(rows[i]))
    ensures Filter(Ended(rows, key, d), p) == Mapped(r => WrittenEnd(r, key, d), Filter(rows, q))
  {
    if rows != [] {
      var n := |rows| - 1;
      FilterEnded(rows[..n], key, d, p, q);
      assert Ended(rows, key, d)[..n] == Ended(rows[..n], key, d);
      MappedSnoc(r => WrittenEnd(r, key, d), Filter(rows[..n], q), rows[n]);
    }
  }

  /** After an invalidation on day d, a query at a date before d answers what it did, with the end date written in; at d
      and later it answers what it did, without the rows that were ended. */
  lemma InvalidationSplitsTime(rows: seq<Row>, key: Key, d: Date, name: string, x: Date, direction: Direction,
                               scopes: Option<set<string>>)
    ensures x < d ==>
              QueryEntity(Ended(rows, key, d), name, Some(x), direction, scopes) ==
              Mapped((r: Row) => if r.key == key && r.validTo == None then r.(validTo := Some(d)) else r,
                     QueryEntity(rows, name, Some(x), direction, scopes))
    ensures x >= d ==>
              QueryEntity(Ended(rows, key, d), name, Some(x), direction, scopes) ==
              Filter(QueryEntity(rows, name, Some(x), direction, scopes),
                     (r: Row) => !(r.key == key && r.validTo == None))
  {
    var asked := (r: Row) => Involves(r.key, name, direction) && Visible(r, Some(x), scopes);
    if x < d {
      FilterEnded(rows, key, d, asked, asked);
    } else {
      var kept := (r: Row) => !(r.key == key && r.validTo == None);
      var both := (r: Row) => asked(r) && kept(r);
      FilterEnded(rows, key, d, asked, both);
      FilterTwice(rows, asked, kept, both);
      NothingWritten(Filter(rows, both), rows, key, d, both);
    }
  }

  lemma NothingWritten(chosen: seq<Row>, rows: seq<Row>, key: Key, d: Date, p: Row -> bool)
    requires chosen == Filter(rows, p) && forall r :: p(r) ==> !(r.key == key && r.validTo == None)
    ensures Mapped(r => WrittenEnd(r, key, d), chosen) == chosen
  {
    FilterMembers(rows, p);
    assert forall i :: 0 <= i < |chosen| ==> chosen[i] in chosen;
  }

  /** A query without a date shows every row it did, with the end date written in. */
  lemma InvalidationKeepsHistory(rows: seq<Row>, key: Key, d: Date, name: string, direction: Direction,
                                 scopes: Option<set<string>>)
    ensures QueryEntity(Ended(rows, key, d), name, None, direction, scopes) ==
            Mapped((r: Row) => if r.key == key && r.validTo == None then r.(validTo := Some(d)) else r,
                   QueryEntity(rows, name, None, direction, scopes))
  {
    var asked := (r: Row) => Involves(r.key, name, direction) && Visible(r, None, scopes);
    FilterEnded(rows, key, d, asked, asked);
  }
}
