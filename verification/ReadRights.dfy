/** Who finds what: the answers of both searches in the fields of pages, policy and hits, down to the numbers in the
    scores. */
module ReadRights {
  import opened Common
  import opened Proposals
  import opened RankFusion
  import opened SearchEngine
  import opened PageEngine

  /** A search is refused exactly for an employee without the personal plane, or a personal plane without a well-formed
      employee; otherwise an empty query finds nothing. */
  lemma RefusedExact(pages: Pages, embeddings: Embeddings, tools: Tools, text: string, ask: Ask)
    ensures SearchAnswer(pages, tools, text, ask).Err? <==>
            !(if ask.plane == Some(Personal) then ask.employee.Some? && SafeEmployeeId(ask.employee.value)
              else ask.employee.None?)
    ensures QueryAnswer(pages, embeddings, tools, text, ask).Err? <==> SearchAnswer(pages, tools, text, ask).Err?
    ensures SearchAnswer(pages, tools, text, ask).Ok? && tools.lower(Strip(text)) == "" ==>
              SearchAnswer(pages, tools, text, ask).value == [] &&
              QueryAnswer(pages, embeddings, tools, text, ask) == Ok([])
  {}

  /** Page i was asked for, the viewer is entitled to it, and the hit is about it. */
  predicate RightfulHit(pages: Pages, i: nat, ask: Ask, h: Hit)
    requires i < |pages|
  {
    && h.slug == pages[i].0.slug && h.plane == pages[i].0.plane && h.employee == pages[i].0.employee
    && AskedFor(ask, pages[i].0, pages[i].1)
    && Entitled(ask, pages[i].0, pages[i].1)
  }

  /** How often the query stands in the title, plus twice how often it stands in the compiled truth. */
  function Relevance(p: StoredPage, q: string, lower: string -> string): real
    requires q != ""
  {
    (CountText(lower(p.title), q) + 2 * CountText(lower(p.truth), q)) as real
  }

  lemma RelevanceIsScore(p: StoredPage, q: string, lower: string -> string)
    requires q != ""
    ensures KeywordScore(p, q, lower) == Relevance(p, q, lower)
  {}

  /** The hit is what page i yields. */
  predicate HitFrom(shown: Pages, i: nat, q: string, lower: string -> string, h: Hit)
    requires i < |shown| && q != ""
  {
    && Relevance(shown[i].1, q, lower) > 0.0
    && h == HitOf(shown[i].0, shown[i].1, Relevance(shown[i].1, q, lower), q, lower)
  }

  lemma {:induction false} KeywordHitsAre(shown: Pages, q: string, lower: string -> string, h: Hit)
    requires q != ""
    ensures h in KeywordHits(shown, q, lower) <==> exists i :: 0 <= i < |shown| && HitFrom(shown, i, q, lower, h)
  {
    if shown != [] {
      var n := |shown| - 1;
      KeywordHitsAre(shown[..n], q, lower, h);
      RelevanceIsScore(shown[n].1, q, lower);
      assert h in KeywordHits(shown, q, lower) <==>
             h in KeywordHits(shown[..n], q, lower) || HitFrom(shown, n, q, lower, h);
      forall i | 0 <= i < n
        ensures HitFrom(shown[..n], i, q, lower, h) <==> HitFrom(shown, i, q, lower, h)
      {}
    }
  }

  /** Every hit of the keyword search is a page that was asked for, that the viewer is entitled to, and that has the
      query in it; it scores one for each time in the title and two for each time in the truth. */
  lemma SearchFindsOnly(pages: Pages, tools: Tools, text: string, ask: Ask, h: Hit)
    requires ValidPages(pages) && ValidFilter(ask) && tools.lower(Strip(text)) != ""
    requires h in SearchAnswer(pages, tools, text, ask).value
    ensures exists i :: 0 <= i < |pages| && RightfulHit(pages, i, ask, h) &&
                        h.score == Relevance(pages[i].1, tools.lower(Strip(text)), tools.lower) > 0.0
  {
    var q, shown := tools.lower(Strip(text)), Shown(pages, ask);
    var hits := KeywordHits(shown, q, tools.lower);
    SortedMembers(hits, (h: Hit) => h.score);
    assert h in hits;
    KeywordHitsAre(shown, q, tools.lower, h);
    var m :| 0 <= m < |shown| && HitFrom(shown, m, q, tools.lower, h);
    ShownIsValid(pages, ask);
    assert shown[m] in pages;
    var i :| 0 <= i < |pages| && pages[i] == shown[m];
    VisibleExact(pages[i].0, pages[i].1, ask);
  }

  lemma {:induction false} KeywordHitsFew(shown: Pages, q: string, lower: string -> string)
    requires q != ""
    ensures |KeywordHits(shown, q, lower)| <= |shown|
  {
    if shown != [] {
      KeywordHitsFew(shown[..|shown| - 1], q, lower);
    }
  }

  lemma {:induction false} FilterShorter<T>(s: seq<T>, p: T -> bool)
    ensures |Filter(s, p)| <= |s|
  {
    if s != [] {
      FilterShorter(s[..|s| - 1], p);
    }
  }

  /** With room for every page, each page that was asked for, that the viewer is entitled to, and that has the query in
      it, is found. */
  lemma SearchFindsAll(pages: Pages, tools: Tools, text: string, ask: Ask, i: nat)
    requires ValidPages(pages) && ValidFilter(ask) && tools.lower(Strip(text)) != ""
    requires i < |pages| && ask.limit >= |pages|
    requires AskedFor(ask, pages[i].0, pages[i].1) && Entitled(ask, pages[i].0, pages[i].1)
    requires Relevance(pages[i].1, tools.lower(Strip(text)), tools.lower) > 0.0
    ensures exists h :: h in SearchAnswer(pages, tools, text, ask).value && RightfulHit(pages, i, ask, h)
  {
    var q, shown := tools.lower(Strip(text)), Shown(pages, ask);
    var hits, score := KeywordHits(shown, q, tools.lower), (h: Hit) => h.score;
    VisibleExact(pages[i].0, pages[i].1, ask);
    ShownIsValid(pages, ask);
    assert pages[i] in shown;
    var m :| 0 <= m < |shown| && shown[m] == pages[i];
    var h := HitOf(shown[m].0, shown[m].1, Relevance(shown[m].1, q, tools.lower), q, tools.lower);
    assert HitFrom(shown, m, q, tools.lower, h);
    KeywordHitsAre(shown, q, tools.lower, h);
    SortedMembers(hits, score);
    SortedElements(hits, score);
    KeywordHitsFew(shown, q, tools.lower);
    FilterShorter(pages, (e: (PageKey, StoredPage)) => Visible(e.0, e.1, ask));
    assert |SortDesc(hits, score)| == |multiset(SortDesc(hits, score))| == |multiset(hits)| == |hits|;
    assert h in SearchAnswer(pages, tools, text, ask).value;
  }

  /** Every hit of the hybrid search is a page that was asked for and that the viewer is entitled to. */
  lemma QueryFindsRightful(pages: Pages, tools: Tools, question: string, ask: Ask, h: Hit)
    requires ValidPages(pages) && ValidFilter(ask) && tools.lower(Strip(question)) != ""
    requires h in QueryAnswer(pages, Embedded(pages, tools), tools, question, ask).value
    ensures exists i :: 0 <= i < |pages| && RightfulHit(pages, i, ask, h)
  {
    QueryFindsOnly(pages, tools, question, ask);
    var i :| 0 <= i < |pages| && Matches(pages, i, tools, tools.lower(Strip(question)), ask) && IsHitOf(h, pages[i].0);
    VisibleExact(pages[i].0, pages[i].1, ask);
    assert RightfulHit(pages, i, ask, h);
  }

  /** With room for every page, each such page that has the query in it, and with an embedder each such page at all, is
      found. */
  lemma QueryFindsAllRightful(pages: Pages, tools: Tools, question: string, ask: Ask, i: nat)
    requires ValidPages(pages) && ValidFilter(ask) && tools.lower(Strip(question)) != ""
    requires i < |pages| && ask.limit >= |pages|
    requires AskedFor(ask, pages[i].0, pages[i].1) && Entitled(ask, pages[i].0, pages[i].1)
    requires tools.embed.Some? || Relevance(pages[i].1, tools.lower(Strip(question)), tools.lower) > 0.0
    ensures exists h :: h in QueryAnswer(pages, Embedded(pages, tools), tools, question, ask).value &&
                        RightfulHit(pages, i, ask, h)
  {
    VisibleExact(pages[i].0, pages[i].1, ask);
    RelevanceIsScore(pages[i].1, tools.lower(Strip(question)), tools.lower);
    QueryFindsAll(pages, tools, question, ask, i);
  }

  /** Policies that treat one employee alike. */
  predicate SameFor(a: SearchEngine.Policy, b: SearchEngine.Policy, employee: string) {
    && a.scopes == b.scopes && a.defaultScope == b.defaultScope
    && (employee in a.employees <==> employee in b.employees)
    && (employee in a.employees ==> a.employees[employee] == b.employees[employee])
  }

  /** Changing what other employees may read, or who they are, changes none of the viewer's answers. */
  lemma OthersRightsDoNotMatter(pages: Pages, tools: Tools, text: string, ask: Ask, viewer: string,
                                policy: SearchEngine.Policy)
    requires ValidPages(pages) && ask.viewer == Some(viewer) && ask.policy.Some?
    requires SameFor(ask.policy.value, policy, viewer)
    ensures var other := ask.(policy := Some(policy));
            && SearchAnswer(pages, tools, text, other) == SearchAnswer(pages, tools, text, ask)
            && QueryAnswer(pages, Embedded(pages, tools), tools, text, other) ==
               QueryAnswer(pages, Embedded(pages, tools), tools, text, ask)
  {
    var other := ask.(policy := Some(policy));
    forall i | 0 <= i < |pages|
      ensures Visible(pages[i].0, pages[i].1, other) == Visible(pages[i].0, pages[i].1, ask)
    {
      VisibleExact(pages[i].0, pages[i].1, ask);
      VisibleExact(pages[i].0, pages[i].1, other);
    }
    FilterAgree(pages, (e: (PageKey, StoredPage)) => Visible(e.0, e.1, other),
                (e: (PageKey, StoredPage)) => Visible(e.0, e.1, ask));
  }

  // ----- The numbers -----

  /** What a duplicate-free ranking gives the page at one of its places: one over 61 for the first, over 62 for the
      second. */
  lemma PlaceGives(list: seq<PageKey>, key: PageKey, place: nat)
    requires DistinctKeys(list) && place < |list| && list[place] == key
    ensures ListScore(list, key, RRF_K) == 1.0 / (61 + place) as real
  {
    var n := |list| - 1;
    if place < n {
      PlaceGives(list[..n], key, place);
      assert list[n] != key;
    } else {
      NotListed(list[..n], key);
    }
  }

  lemma {:induction false} NotListed(list: seq<PageKey>, key: PageKey)
    requires key !in list
    ensures ListScore(list, key, RRF_K) == 0.0
  {
    if list != [] {
      NotListed(list[..|list| - 1], key);
    }
  }

  /** What a ranking gives a page: nothing to one it does not list. */
  function Share(list: seq<PageKey>, key: PageKey): real {
    if key in list then 1.0 / (61 + PlaceOf(list, key)) as real else 0.0
  }

  function PlaceOf(list: seq<PageKey>, key: PageKey): (place: nat)
    requires key in list
    ensures place < |list| && list[place] == key
  {
    if list[0] == key then 0 else 1 + PlaceOf(list[1..], key)
  }

  lemma ShareIsScore(list: seq<PageKey>, key: PageKey)
    requires DistinctKeys(list)
    ensures ListScore(list, key, RRF_K) == Share(list, key)
  {
    if key in list {
      PlaceGives(list, key, PlaceOf(list, key));
    } else {
      NotListed(list, key);
    }
  }

  lemma PairScore(a: seq<PageKey>, b: seq<PageKey>, key: PageKey)
    requires DistinctKeys(a) && DistinctKeys(b)
    ensures FusedScore(NonEmpty(a, b), key, RRF_K) == Share(a, key) + Share(b, key)
  {
    ShareIsScore(a, key);
    ShareIsScore(b, key);
    var none: seq<seq<PageKey>> := [];
    if a != [] && b != [] {
      assert NonEmpty(a, b) == [a, b] && [a, b][..1] == [a] && [a][..0] == none;
      assert FusedScore([a], key, RRF_K) == ListScore(a, key, RRF_K);
    } else if a != [] {
      assert NonEmpty(a, b) == [a] && [a][..0] == none;
    } else if b != [] {
      assert NonEmpty(a, b) == [b] && [b][..0] == none;
    }
  }

  /** The numbers of one page: the shares of two rankings, doubled if the truth has the query in it; with a vector
      ranking, seven tenths of that and three tenths of the cosine. */
  function Mixed(shares: real, found: bool, vectors: bool, cosine: real): real {
    var boosted := if found then 2.0 * shares else shares;
    if vectors then 0.7 * boosted + 0.3 * cosine else boosted
  }

  lemma {:induction false} InsertedKeys(s: seq<(PageKey, real)>, x: (PageKey, real), score: ((PageKey, real)) -> real)
    ensures multiset(Keys(Inserted(s, x, score))) == multiset(Keys(s)) + multiset{x.0}
  {
    if s == [] || score(s[|s| - 1]) >= score(x) {
      assert Keys(s + [x]) == Keys(s) + [x.0];
    } else {
      var n := |s| - 1;
      InsertedKeys(s[..n], x, score);
      assert Keys(s) == Keys(s[..n]) + [s[n].0];
      assert Keys(Inserted(s, x, score)) == Keys(Inserted(s[..n], x, score)) + [s[n].0];
    }
  }

  lemma {:induction false} SortedKeys(s: seq<(PageKey, real)>, score: ((PageKey, real)) -> real)
    ensures multiset(Keys(SortDesc(s, score))) == multiset(Keys(s))
  {
    if s != [] {
      var n := |s| - 1;
      SortedKeys(s[..n], score);
      InsertedKeys(SortDesc(s[..n], score), s[n], score);
      assert Keys(s) == Keys(s[..n]) + [s[n].0];
    }
  }

  lemma DistinctSnoc(front: seq<PageKey>, last: PageKey)
    ensures DistinctKeys(front + [last]) <==> DistinctKeys(front) && last !in front
  {
    var keys := front + [last];
    assert forall i :: 0 <= i < |front| ==> keys[i] == front[i];
    if DistinctKeys(keys) {
      assert forall i :: 0 <= i < |front| ==> keys[i] != keys[|front|];
      assert forall i, j :: 0 <= i < j < |front| ==> keys[i] != keys[j];
    }
  }

  lemma {:induction false} DistinctByCount(keys: seq<PageKey>)
    ensures DistinctKeys(keys) <==> forall k :: multiset(keys)[k] <= 1
  {
    if keys != [] {
      var n := |keys| - 1;
      var front, last := keys[..n], keys[n];
      DistinctByCount(front);
      assert keys == front + [last];
      DistinctSnoc(front, last);
      assert multiset(keys) == multiset(front) + multiset{last};
      assert last in front <==> multiset(front)[last] >= 1;
      assert forall k :: multiset(keys)[k] == multiset(front)[k] + if k == last then 1 else 0;
    }
  }

  lemma RankedDistinct(s: seq<(PageKey, real)>)
    requires DistinctKeys(Keys(s))
    ensures DistinctKeys(Keys(Ranked(s)))
  {
    SortedKeys(s, (e: (PageKey, real)) => e.1);
    DistinctByCount(Keys(s));
    DistinctByCount(Keys(Ranked(s)));
  }

  lemma {:induction false} KeywordDistinct(shown: Pages, q: string, lower: string -> string)
    requires q != "" && DistinctKeys(Keys(shown))
    ensures DistinctKeys(Keys(KeywordScored(shown, q, lower)))
    ensures forall k :: k in Keys(KeywordScored(shown, q, lower)) ==> k in Keys(shown)
  {
    if shown != [] {
      var n := |shown| - 1;
      assert Keys(shown) == Keys(shown[..n]) + [shown[n].0];
      DistinctSnoc(Keys(shown[..n]), shown[n].0);
      KeywordDistinct(shown[..n], q, lower);
      var front, score := KeywordScored(shown[..n], q, lower), KeywordScore(shown[n].1, q, lower);
      DistinctSnoc(Keys(front), shown[n].0);
      assert Keys(front + [(shown[n].0, score)]) == Keys(front) + [shown[n].0];
      assert front + [] == front;
    }
  }

  lemma AllEmbedded(shown: Pages, tools: Tools)
    ensures ShownEmbeddings(Embedded(shown, tools), shown) == Embedded(shown, tools)
  {
    var all := Embedded(shown, tools);
    forall i | 0 <= i < |all|
      ensures all[i].0 in Keys(shown)
    {
      assert Keys(shown)[i] == all[i].0;
    }
    FilterEverything(all, (e: (PageKey, Vector)) => e.0 in Keys(shown));
  }

  lemma VectorsDistinct(shown: Pages, tools: Tools, question: string)
    requires DistinctKeys(Keys(shown))
    ensures DistinctKeys(Keys(VectorScored(Embedded(shown, tools), shown, tools, question)))
  {
    if tools.embed.Some? && shown != [] {
      AllEmbedded(shown, tools);
      var scored := Similarities(Embedded(shown, tools), tools.embed.value(question), tools.cosine);
      assert Keys(scored) == Keys(shown);
      RankedDistinct(scored);
    }
  }

  lemma SharesAdd(shown: Pages, tools: Tools, question: string, q: string, key: PageKey)
    requires DistinctKeys(Keys(shown)) && q != ""
    ensures var vectors := VectorScored(Embedded(shown, tools), shown, tools, question);
            FusedScore(RankedLists(shown, vectors, q, tools.lower), key, RRF_K) ==
            Share(Keys(Ranked(KeywordScored(shown, q, tools.lower))), key) + Share(Keys(vectors), key)
  {
    KeywordDistinct(shown, q, tools.lower);
    RankedDistinct(KeywordScored(shown, q, tools.lower));
    VectorsDistinct(shown, tools, question);
    PairScore(Keys(Ranked(KeywordScored(shown, q, tools.lower))),
              Keys(VectorScored(Embedded(shown, tools), shown, tools, question)), key);
  }

  /** The cosine of the question's embedding and that of the page's title and truth. */
  function Similarity(p: StoredPage, tools: Tools, question: string): real
    requires tools.embed.Some?
  {
    tools.cosine(tools.embed.value(question), tools.embed.value(p.title + "\n" + p.truth))
  }

  /** The vector ranking holds every page shown with its similarity, and nothing else; none without an embedder. */
  lemma VectorScoresAre(shown: Pages, tools: Tools, question: string, e: (PageKey, real))
    ensures e in VectorScored(Embedded(shown, tools), shown, tools, question) <==>
            tools.embed.Some? &&
            exists i :: 0 <= i < |shown| && e == (shown[i].0, Similarity(shown[i].1, tools, question))
  {
    if tools.embed.Some? && shown != [] {
      AllEmbedded(shown, tools);
      var scored := Similarities(Embedded(shown, tools), tools.embed.value(question), tools.cosine);
      SortedMembers(scored, (e: (PageKey, real)) => e.1);
      assert |scored| == |shown|;
      forall i | 0 <= i < |shown|
        ensures scored[i] == (shown[i].0, Similarity(shown[i].1, tools, question))
      {
        assert EmbedText(shown[i].1) == shown[i].1.title + "\n" + shown[i].1.truth;
      }
    }
  }

  /** What a page scores, from its places in the two rankings of the pages shown to the asker. */
  function ScoreByPlaces(shown: Pages, tools: Tools, question: string, q: string, key: PageKey): real
    requires q != ""
  {
    var keyword := Keys(Ranked(KeywordScored(shown, q, tools.lower)));
    var vectors := VectorScored(Embedded(shown, tools), shown, tools, question);
    var found := FindText(tools.lower(ValueOf(shown, key, NO_PAGE).truth), q).Some?;
    Mixed(Share(keyword, key) + Share(Keys(vectors), key), found, vectors != [], ValueOf(vectors, key, 0.0))
  }

  lemma FinalScoreMeans(shown: Pages, tools: Tools, question: string, q: string, key: PageKey)
    requires DistinctKeys(Keys(shown)) && q != ""
    ensures var vectors := VectorScored(Embedded(shown, tools), shown, tools, question);
            FinalScore(RankedLists(shown, vectors, q, tools.lower), vectors, shown, q, tools.lower, key) ==
            ScoreByPlaces(shown, tools, question, q, key)
  {
    SharesAdd(shown, tools, question, q, key);
  }

  /** Every hit of the hybrid search has the score of its places among the pages shown to the asker: one over sixty plus
      the place in the keyword ranking, the same for the vector ranking, doubled if the truth has the query in it, and
      mixed seven to three with the cosine if there is an embedder. */
  lemma QueryHitScore(pages: Pages, tools: Tools, question: string, ask: Ask, h: Hit)
    requires ValidPages(pages) && ValidFilter(ask) && tools.lower(Strip(question)) != ""
    requires h in QueryAnswer(pages, Embedded(pages, tools), tools, question, ask).value
    ensures var q := tools.lower(Strip(question));
            exists key :: IsHitOf(h, key) && h.score == ScoreByPlaces(Shown(pages, ask), tools, question, q, key)
  {
    var q, shown := tools.lower(Strip(question)), Shown(pages, ask);
    var hits := UnsortedHits(shown, Embedded(pages, tools), tools, question, q);
    SortedMembers(hits, (h: Hit) => h.score);
    assert h in hits;
    var j :| 0 <= j < |hits| && hits[j] == h;
    var key := RankedKeys(shown, Embedded(pages, tools), tools, question, q)[j];
    ShownIsValid(pages, ask);
    ShownCandidates(pages, tools, question, q, ask);
    FinalScoreMeans(shown, tools, question, q, key);
    assert IsHitOf(h, key);
  }
}
