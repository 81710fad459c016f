/** Reciprocal rank fusion: the accumulating loop, the closed sum it computes, and what the sum means. */
module RankFusion {
  import opened Common

  /** A dictionary that remembers the order its keys were first set in. */
  datatype Scores<T> = Scores(order: seq<T>, score: map<T, real>)

  /** What a list gives the item at a position: one over k plus the 1-based rank. Where that is a division by zero, the
      fusion fails and the value does not matter. */
  function Gain(k: int, position: nat): real {
    if k + position + 1 == 0 then 0.0 else 1.0 / (k + position + 1) as real
  }

  datatype FusionError = ZeroDivision

  /** Some list is long enough to have the rank that a negative k cancels. */
  predicate DividesByZero<T(==)>(lists: seq<seq<T>>, k: int) {
    exists i :: 0 <= i < |lists| && k < 0 && |lists[i]| + k >= 0
  }

  function ListScore<T(==)>(list: seq<T>, item: T, k: int): real {
    if list == [] then 0.0
    else
      var n := |list| - 1;
      ListScore(list[..n], item, k) + if list[n] == item then Gain(k, n) else 0.0
  }

  function FusedScore<T(==)>(lists: seq<seq<T>>, item: T, k: int): real {
    if lists == [] then 0.0
    else FusedScore(lists[..|lists| - 1], item, k) + ListScore(lists[|lists| - 1], item, k)
  }

  function Flatten<T>(lists: seq<seq<T>>): seq<T> {
    if lists == [] then [] else Flatten(lists[..|lists| - 1]) + lists[|lists| - 1]
  }

  /** The distinct items, in the order of their first mention. */
  function FirstMentions<T(==,!new)>(items: seq<T>): (r: seq<T>)
    ensures forall x :: x in r <==> x in items
    ensures forall i, j :: 0 <= i < j < |r| ==> r[i] != r[j]
  {
    if items == [] then []
    else
      var n := |items| - 1;
      assert forall x :: x in items <==> x in items[..n] || x == items[n];
      FirstMentions(items[..n]) + if items[n] in items[..n] then [] else [items[n]]
  }

  /** The dictionary holds exactly the items mentioned so far, each with its sum so far: all of `before`, and the part
      of the next list that was already walked. */
  ghost predicate Tallied<T(!new)>(s: Scores<T>, before: seq<seq<T>>, part: seq<T>, k: int) {
    && s.order == FirstMentions(Flatten(before) + part)
    && (forall x :: x in s.score <==> x in s.order)
    && (forall x :: FusedScore(before, x, k) + ListScore(part, x, k) == if x in s.score then s.score[x] else 0.0)
  }

  /** `scores[item] = scores.get(item, 0.0) + gain` */
  function Credited<T(==)>(s: Scores<T>, item: T, gain: real): Scores<T> {
    if item in s.score then Scores(s.order, s.score[item := s.score[item] + gain])
    else Scores(s.order + [item], s.score[item := 0.0 + gain])
  }

  lemma CreditTallies<T(!new)>(s: Scores<T>, before: seq<seq<T>>, part: seq<T>, item: T, more: seq<T>, k: int)
    requires Tallied(s, before, part, k) && more == part + [item]
    ensures Tallied(Credited(s, item, Gain(k, |part|)), before, more, k)
  {
    var s' := Credited(s, item, Gain(k, |part|));
    CreditOrder(s, before, part, item, k);
    forall x
      ensures FusedScore(before, x, k) + ListScore(more, x, k) == if x in s'.score then s'.score[x] else 0.0
    {
      CreditScore(s, before, part, item, k, x);
    }
  }

  lemma CreditOrder<T(!new)>(s: Scores<T>, before: seq<seq<T>>, part: seq<T>, item: T, k: int)
    requires Tallied(s, before, part, k)
    ensures Credited(s, item, Gain(k, |part|)).order == FirstMentions(Flatten(before) + (part + [item]))
  {
    var items := Flatten(before) + part;
    MentionSnoc(items, item);
    assert Flatten(before) + (part + [item]) == items + [item];
    assert item in s.score <==> item in s.order;
    assert s.order + [] == s.order;
  }

  lemma CreditScore<T(!new)>(s: Scores<T>, before: seq<seq<T>>, part: seq<T>, item: T, k: int, x: T)
    requires Tallied(s, before, part, k)
    ensures var s' := Credited(s, item, Gain(k, |part|));
            FusedScore(before, x, k) + ListScore(part + [item], x, k) == if x in s'.score then s'.score[x] else 0.0
  {
    ListScoreSnoc(part, item, x, k);
    assert FusedScore(before, x, k) + ListScore(part, x, k) == if x in s.score then s.score[x] else 0.0;
  }

  lemma MentionSnoc<T(!new)>(items: seq<T>, item: T)
    ensures FirstMentions(items + [item]) == FirstMentions(items) + if item in items then [] else [item]
  {
    assert (items + [item])[..|items|] == items;
  }

  lemma ListScoreSnoc<T>(list: seq<T>, last: T, item: T, k: int)
    ensures ListScore(list + [last], item, k) ==
            ListScore(list, item, k) + if last == item then Gain(k, |list|) else 0.0
  {
    assert (list + [last])[..|list|] == list;
  }

  method RrfFuse<T(==,!new)>(lists: seq<seq<T>>, k: int) returns (r: Result<Scores<T>, FusionError>)
    ensures r.Err? <==> DividesByZero(lists, k)
    ensures r.Ok? ==> r.value.order == FirstMentions(Flatten(lists))
    ensures r.Ok? ==> forall x :: x in r.value.score <==> x in r.value.order
    ensures r.Ok? ==> forall x :: x in r.value.score ==> r.value.score[x] == FusedScore(lists, x, k)
  {
    r := WalkLists(lists, k);
    if r.Ok? {
      TalliedAll(r.value, lists, k);
    }
  }

  /** The outer loop. */
  method WalkLists<T(==,!new)>(lists: seq<seq<T>>, k: int) returns (r: Result<Scores<T>, FusionError>)
    ensures r.Err? <==> DividesByZero(lists, k)
    ensures r.Ok? ==> Tallied(r.value, lists, [], k)
  {
    var fused := Scores([], map[]);
    for i := 0 to |lists|
      invariant Tallied(fused, lists[..i], [], k)
      invariant !DividesByZero(lists[..i], k)
    {
      assert lists[..i + 1] == lists[..i] + [lists[i]];
      var walked := WalkList(fused, lists[..i], lists[i], k);
      if walked.Err? {
        return Err(ZeroDivision);
      }
      NextList(walked.value, lists[..i], lists[i], k);
      fused := walked.value;
    }
    assert lists[..|lists|] == lists;
    return Ok(fused);
  }

  /** The inner loop: the credits of one ranked list. */
  method WalkList<T(==,!new)>(start: Scores<T>, ghost before: seq<seq<T>>, list: seq<T>, k: int)
    returns (r: Result<Scores<T>, FusionError>)
    requires Tallied(start, before, [], k)
    ensures r.Err? <==> k < 0 && |list| + k >= 0
    ensures r.Ok? ==> Tallied(r.value, before, list, k)
  {
    var fused := start;
    assert list[..0] == [];
    for j := 0 to |list|
      invariant Tallied(fused, before, list[..j], k)
      invariant !(k < 0 && j + k >= 0)
    {
      if k + j + 1 == 0 {
        return Err(ZeroDivision);
      }
      CreditNext(fused, before, list, j, k);
      fused := Credited(fused, list[j], Gain(k, j));
    }
    assert list[..|list|] == list;
    return Ok(fused);
  }

  lemma CreditNext<T(!new)>(s: Scores<T>, before: seq<seq<T>>, list: seq<T>, j: nat, k: int)
    requires j < |list| && Tallied(s, before, list[..j], k)
    ensures Tallied(Credited(s, list[j], Gain(k, j)), before, list[..j + 1], k)
  {
    assert list[..j + 1] == list[..j] + [list[j]];
    CreditTallies(s, before, list[..j], list[j], list[..j + 1], k);
  }

  lemma TalliedAll<T(!new)>(s: Scores<T>, lists: seq<seq<T>>, k: int)
    requires Tallied(s, lists, [], k)
    ensures s.order == FirstMentions(Flatten(lists))
    ensures forall x :: x in s.score <==> x in s.order
    ensures forall x :: x in s.score ==> s.score[x] == FusedScore(lists, x, k)
  {
    assert Flatten(lists) + [] == Flatten(lists);
    forall x | x in s.score
      ensures s.score[x] == FusedScore(lists, x, k)
    {
      assert FusedScore(lists, x, k) + ListScore([], x, k) == s.score[x];
    }
  }

  lemma NextList<T(!new)>(s: Scores<T>, before: seq<seq<T>>, list: seq<T>, k: int)
    requires Tallied(s, before, list, k)
    ensures Tallied(s, before + [list], [], k)
  {
    var more := before + [list];
    assert more[..|before|] == before;
    assert Flatten(more) + [] == Flatten(before) + list;
    forall x
      ensures FusedScore(more, x, k) + ListScore([], x, k) == if x in s.score then s.score[x] else 0.0
    {
      assert FusedScore(before, x, k) + ListScore(list, x, k) == if x in s.score then s.score[x] else 0.0;
    }
  }

  // ----- The order of the lists does not matter -----

  lemma {:induction false} FusedRemove<T>(lists: seq<seq<T>>, item: T, k: int, i: nat)
    requires i < |lists|
    ensures FusedScore(lists, item, k) ==
            FusedScore(lists[..i] + lists[i + 1..], item, k) + ListScore(lists[i], item, k)
  {
    var n := |lists| - 1;
    if i == n {
      assert lists[..i] + lists[i + 1..] == lists[..n];
    } else {
      FusedRemove(lists[..n], item, k, i);
      var rest := lists[..i] + lists[i + 1..];
      assert rest[..|rest| - 1] == lists[..n][..i] + lists[..n][i + 1..];
    }
  }

  /** Presenting the same ranked lists in another order changes no score. */
  lemma {:induction false} FusionIgnoresListOrder<T>(lists: seq<seq<T>>, others: seq<seq<T>>, item: T, k: int)
    requires multiset(lists) == multiset(others)
    ensures FusedScore(lists, item, k) == FusedScore(others, item, k)
    decreases |lists|
  {
    if lists == [] {
      assert |multiset(others)| == |multiset(lists)| == 0;
    } else {
      var i := MatchLast(lists, others);
      FusionIgnoresListOrder(lists[..|lists| - 1], others[..i] + others[i + 1..], item, k);
      FusedRemove(others, item, k, i);
    }
  }

  // ----- Being ahead everywhere means scoring higher -----

  predicate DuplicateFree<T(==)>(list: seq<T>) {
    forall i, j :: 0 <= i < j < |list| ==> list[i] != list[j]
  }

  predicate Ahead<T(==)>(list: seq<T>, a: T, b: T) {
    b in list ==> exists i, j :: 0 <= i < j < |list| && list[i] == a && list[j] == b
  }

  lemma {:induction false} AbsentScoresNothing<T>(list: seq<T>, item: T, k: int)
    requires item !in list
    ensures ListScore(list, item, k) == 0.0
  {
    if list != [] {
      AbsentScoresNothing(list[..|list| - 1], item, k);
    }
  }

  /** In a duplicate-free list an item's score is the gain of its position. */
  lemma {:induction false} PlaceScores<T>(list: seq<T>, p: nat, k: int)
    requires p < |list| && DuplicateFree(list)
    ensures ListScore(list, list[p], k) == Gain(k, p)
  {
    var n := |list| - 1;
    if p == n {
      AbsentScoresNothing(list[..n], list[n], k);
    } else {
      PlaceScores(list[..n], p, k);
      assert list[n] != list[p];
    }
  }

  lemma GainFalls(k: int, p: nat, q: nat)
    requires p < q && k >= 0
    ensures Gain(k, p) > Gain(k, q) > 0.0
  {
    var a, b := (k + p + 1) as real, (k + q + 1) as real;
    assert 0.0 < a < b;
    assert (1.0 / a) * a == 1.0 && (1.0 / b) * b == 1.0;
    ReciprocalFalls(a, b);
  }

  lemma ReciprocalFalls(a: real, b: real)
    requires 0.0 < a < b
    ensures 1.0 / a > 1.0 / b > 0.0
  {
    var x, y := 1.0 / a, 1.0 / b;
    assert x * a == 1.0 && y * b == 1.0;
    var both := x * y;
    assert both * b == x * (y * b) && both * a == (x * a) * y;
    assert both * (b - a) == both * b - both * a;
  }

  lemma AheadScoresHigher<T>(list: seq<T>, a: T, b: T, k: int)
    requires DuplicateFree(list) && Ahead(list, a, b) && a != b && k >= 0
    ensures ListScore(list, a, k) >= ListScore(list, b, k)
    ensures b in list ==> ListScore(list, a, k) > ListScore(list, b, k)
  {
    if b in list {
      var i, j :| 0 <= i < j < |list| && list[i] == a && list[j] == b;
      PlaceScores(list, i, k);
      PlaceScores(list, j, k);
      GainFalls(k, i, j);
    } else {
      AbsentScoresNothing(list, b, k);
      if a in list {
        var i :| 0 <= i < |list| && list[i] == a;
        PlaceScores(list, i, k);
        GainFalls(k, i, i + 1);
      } else {
        AbsentScoresNothing(list, a, k);
      }
    }
  }

  /** Every list that mentions b is duplicate-free and has a ahead of it. */
  ghost predicate AheadInAll<T(!new)>(lists: seq<seq<T>>, a: T, b: T) {
    a != b && forall i :: 0 <= i < |lists| ==> DuplicateFree(lists[i]) && Ahead(lists[i], a, b)
  }

  /** An item ranked ahead of another in every list that mentions the other scores strictly higher. */
  lemma {:induction false} AheadEverywhereWins<T(!new)>(lists: seq<seq<T>>, a: T, b: T, k: int)
    requires AheadInAll(lists, a, b) && k >= 0
    ensures FusedScore(lists, a, k) >= FusedScore(lists, b, k)
    ensures b in Flatten(lists) ==> FusedScore(lists, a, k) > FusedScore(lists, b, k)
  {
    if lists != [] {
      var n := |lists| - 1;
      AheadEverywhereWins(lists[..n], a, b, k);
      AheadScoresHigher(lists[n], a, b, k);
    }
  }

  // ----- A negative k -----

  /** Whenever the fusion succeeds, being ahead everywhere means scoring strictly higher. */
  ghost predicate RewardsBeingAhead(k: int) {
    forall lists: seq<seq<string>>, a, b ::
      AheadInAll(lists, a, b) && b in Flatten(lists) && !DividesByZero(lists, k) ==>
        FusedScore(lists, a, k) > FusedScore(lists, b, k)
  }

  lemma {:induction false} InSomeList<T>(lists: seq<seq<T>>, x: T) returns (i: nat)
    requires x in Flatten(lists)
    ensures i < |lists| && x in lists[i]
  {
    var n := |lists| - 1;
    if x in lists[n] {
      i := n;
    } else {
      i := InSomeList(lists[..n], x);
    }
  }

  lemma FusedScoreSnoc<T>(lists: seq<seq<T>>, list: seq<T>, item: T, k: int)
    ensures FusedScore(lists + [list], item, k) == FusedScore(lists, item, k) + ListScore(list, item, k)
  {
    assert (lists + [list])[..|lists|] == lists;
  }

  lemma NegativeKPenalizes(k: int)
    requires k <= -3
    ensures !RewardsBeingAhead(k)
  {
    var lists := [["a", "b"], ["a"]];
    assert lists[0][0] == "a" && lists[0][1] == "b" && "a"[0] != "b"[0];
    assert AheadInAll(lists, "a", "b") && !DividesByZero(lists, k);
    assert lists[..1] == [["a", "b"]];
    assert "b" in Flatten(lists) by {
      assert Flatten(lists) == Flatten(lists[..1]) + ["a"];
      assert Flatten(lists[..1]) == Flatten(lists[..0]) + ["a", "b"];
      assert (Flatten(lists[..0]) + ["a", "b"])[|Flatten(lists[..0])| + 1] == "b";
    }
    PairScores(k);
    NegativeReciprocals((k + 1) as real, (k + 2) as real);
  }

  lemma PairScores(k: int)
    ensures FusedScore([["a", "b"], ["a"]], "a", k) == Gain(k, 0) + Gain(k, 0)
    ensures FusedScore([["a", "b"], ["a"]], "b", k) == Gain(k, 1)
  {
    var none: seq<string> := [];
    var noLists: seq<seq<string>> := [];
    assert "a"[0] != "b"[0];
    assert ["a"] == none + ["a"] && ["a", "b"] == ["a"] + ["b"];
    assert [["a", "b"], ["a"]] == (noLists + [["a", "b"]]) + [["a"]];
    forall item
      ensures FusedScore([["a", "b"], ["a"]], item, k) ==
              (if item == "a" then Gain(k, 0) + Gain(k, 0) else 0.0) + if item == "b" then Gain(k, 1) else 0.0
    {
      ListScoreSnoc(none, "a", item, k);
      ListScoreSnoc(["a"], "b", item, k);
      FusedScoreSnoc(noLists, ["a", "b"], item, k);
      FusedScoreSnoc(noLists + [["a", "b"]], ["a"], item, k);
    }
  }

  lemma NegativeReciprocals(x: real, y: real)
    requires x == y - 1.0 && y <= -1.0
    ensures 1.0 / x + 1.0 / x <= 1.0 / y
  {
    var p, q := 1.0 / x, 1.0 / y;
    assert p * x == 1.0 && q * y == 1.0;
    assert -0.5 <= p < 0.0;
    assert p * y == 1.0 + p;
    assert (p + p - q) * y == (p + p) * y - q * y;
  }

  lemma PairsDivideByZero(lists: seq<seq<string>>, a: string, b: string, k: int)
    requires -2 <= k < 0 && AheadInAll(lists, a, b) && b in Flatten(lists)
    ensures DividesByZero(lists, k)
  {
    var i := InSomeList(lists, b);
    assert Ahead(lists[i], a, b);
    assert |lists[i]| + k >= 0;
  }

  /** That holds for every k from -2 up; below, an item pays for each list it stands in. With -1 and -2 any two items
      in one list are a division by zero. */
  lemma BeingAheadExact(k: int)
    ensures RewardsBeingAhead(k) <==> k >= -2
  {
    if k <= -3 {
      NegativeKPenalizes(k);
    } else {
      forall lists: seq<seq<string>>, a, b | AheadInAll(lists, a, b) && b in Flatten(lists)
        ensures DividesByZero(lists, k) || FusedScore(lists, a, k) > FusedScore(lists, b, k)
      {
        if k >= 0 {
          AheadEverywhereWins(lists, a, b, k);
        } else {
          PairsDivideByZero(lists, a, b, k);
        }
      }
    }
  }

  // ----- Fusing under other names -----

  function MappedLists<T, U>(f: T -> U, lists: seq<seq<T>>): seq<seq<U>> {
    seq(|lists|, i requires 0 <= i < |lists| => Mapped(f, lists[i]))
  }

  ghost predicate Injective<T, U>(f: T -> U, items: seq<T>) {
    forall i, j :: 0 <= i < |items| && 0 <= j < |items| && f(items[i]) == f(items[j]) ==> items[i] == items[j]
  }

  lemma {:induction false} ListScoreRenamed<T(!new), U>(f: T -> U, list: seq<T>, item: T, k: int)
    requires Injective(f, list + [item])
    ensures ListScore(Mapped(f, list), f(item), k) == ListScore(list, item, k)
  {
    if list != [] {
      var n := |list| - 1;
      var both := list + [item];
      assert both[n] == list[n] && both[n + 1] == item;
      InjectivePart(f, both, list[..n] + [item]);
      ListScoreRenamed(f, list[..n], item, k);
      assert Mapped(f, list)[..n] == Mapped(f, list[..n]);
    }
  }

  lemma InjectivePart<T(!new), U>(f: T -> U, items: seq<T>, part: seq<T>)
    requires Injective(f, items) && forall x :: x in part ==> x in items
    ensures Injective(f, part)
  {
    forall i, j | 0 <= i < |part| && 0 <= j < |part| && f(part[i]) == f(part[j])
      ensures part[i] == part[j]
    {
      assert part[i] in items && part[j] in items;
      var a :| 0 <= a < |items| && items[a] == part[i];
      var b :| 0 <= b < |items| && items[b] == part[j];
    }
  }

  /** Fusing lists of names that are injective gives each item the score it has under its own name. */
  lemma {:induction false} FusedScoreRenamed<T(!new), U>(f: T -> U, lists: seq<seq<T>>, item: T, k: int)
    requires Injective(f, Flatten(lists) + [item])
    ensures FusedScore(MappedLists(f, lists), f(item), k) == FusedScore(lists, item, k)
  {
    if lists != [] {
      var n := |lists| - 1;
      InjectivePart(f, Flatten(lists) + [item], Flatten(lists[..n]) + [item]);
      InjectivePart(f, Flatten(lists) + [item], lists[n] + [item]);
      FusedScoreRenamed(f, lists[..n], item, k);
      ListScoreRenamed(f, lists[n], item, k);
      assert MappedLists(f, lists)[..n] == MappedLists(f, lists[..n]);
    }
  }

  lemma {:induction false} FlattenMapped<T, U>(f: T -> U, lists: seq<seq<T>>)
    ensures Flatten(MappedLists(f, lists)) == Mapped(f, Flatten(lists))
  {
    if lists != [] {
      var n := |lists| - 1;
      FlattenMapped(f, lists[..n]);
      assert MappedLists(f, lists)[..n] == MappedLists(f, lists[..n]);
    }
  }

  lemma {:induction false} FirstMentionsMapped<T(!new), U(!new)>(f: T -> U, items: seq<T>)
    requires Injective(f, items)
    ensures FirstMentions(Mapped(f, items)) == Mapped(f, FirstMentions(items))
  {
    if items != [] {
      var n := |items| - 1;
      InjectivePart(f, items, items[..n]);
      FirstMentionsMapped(f, items[..n]);
      assert Mapped(f, items)[..n] == Mapped(f, items[..n]);
      if f(items[n]) in Mapped(f, items[..n]) {
        var i :| 0 <= i < n && Mapped(f, items[..n])[i] == f(items[n]);
        assert items[i] == items[n];
        assert items[n] == items[..n][i];
      }
      if items[n] in items[..n] {
        var i :| 0 <= i < n && items[..n][i] == items[n];
        assert Mapped(f, items[..n])[i] == f(items[n]);
      }
    }
  }
}
