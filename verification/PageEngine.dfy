/** The in-memory page engine: its two dictionaries, and the methods that change them and search them. */
module PageEngine {
  import opened Common
  import opened Proposals
  import opened RankFusion
  import opened SearchEngine

  // ----- Dictionaries that remember insertion order -----

  predicate DistinctKeys(keys: seq<PageKey>) {
    forall i, j :: 0 <= i < j < |keys| ==> keys[i] != keys[j]
  }

  /** `d[key] = value`: an existing key keeps its place. */
  function Put<V>(s: seq<(PageKey, V)>, key: PageKey, value: V): seq<(PageKey, V)> {
    if key in Keys(s) then Exchanged(s, key, value) else s + [(key, value)]
  }

  function Exchanged<V>(s: seq<(PageKey, V)>, key: PageKey, value: V): seq<(PageKey, V)> {
    seq(|s|, i requires 0 <= i < |s| => if s[i].0 == key then (key, value) else s[i])
  }

  /** `d.pop(key, None)` */
  function Popped<V>(s: seq<(PageKey, V)>, key: PageKey): seq<(PageKey, V)> {
    Filter(s, (e: (PageKey, V)) => e.0 != key)
  }

  function EmbedText(p: StoredPage): string {
    p.title + "\n" + p.truth
  }

  /** The embeddings an engine with these pages holds. */
  function Embedded(pages: Pages, tools: Tools): Embeddings {
    if tools.embed.None? then []
    else seq(|pages|, i requires 0 <= i < |pages| => (pages[i].0, tools.embed.value(EmbedText(pages[i].1))))
  }

  const CORE_DOMAINS := ["people", "companies", "deals", "meetings", "concepts", "sources", "inbox", "archive"]

  /** What `put_page` checks and stores. */
  predicate ValidEntry(key: PageKey, page: StoredPage) {
    ValidPlane(key.plane, key.employee) && page.domain in CORE_DOMAINS && key.slug == page.slug
  }

  predicate ValidPages(pages: Pages) {
    DistinctKeys(Keys(pages)) && forall i :: 0 <= i < |pages| ==> ValidEntry(pages[i].0, pages[i].1)
  }

  lemma PutKeys<V>(s: seq<(PageKey, V)>, key: PageKey, value: V)
    ensures Keys(Put(s, key, value)) == if key in Keys(s) then Keys(s) else Keys(s) + [key]
  {}

  /** The key holds the new value, every other key what it held, in its old place. */
  lemma PutMeans<V>(s: seq<(PageKey, V)>, key: PageKey, value: V)
    ensures Keys(Put(s, key, value)) == Keys(s) + if key in Keys(s) then [] else [key]
    ensures forall i :: 0 <= i < |Put(s, key, value)| ==>
              if Put(s, key, value)[i].0 == key then Put(s, key, value)[i].1 == value
              else i < |s| && Put(s, key, value)[i] == s[i]
  {
    if key !in Keys(s) {
      forall i | 0 <= i < |s|
        ensures s[i].0 != key
      {
        assert Keys(s)[i] == s[i].0;
      }
    }
  }

  lemma KeysSnoc<V>(s: seq<(PageKey, V)>, e: (PageKey, V))
    ensures Keys(s + [e]) == Keys(s) + [e.0]
  {}

  lemma {:induction false} PoppedMeans<V>(s: seq<(PageKey, V)>, key: PageKey)
    ensures key !in Keys(Popped(s, key))
  {
    if s != [] {
      var front, last := Popped(s[..|s| - 1], key), s[|s| - 1];
      PoppedMeans(s[..|s| - 1], key);
      KeysSnoc(front, last);
      assert front + [] == front;
    }
  }

  lemma EmbeddedAt(pages: Pages, tools: Tools, i: nat)
    requires tools.embed.Some? && i < |pages|
    ensures |Embedded(pages, tools)| == |pages|
    ensures Embedded(pages, tools)[i] ==
            (pages[i].0, tools.embed.value(pages[i].1.title + "\n" + pages[i].1.truth))
  {
    assert EmbedText(pages[i].1) == pages[i].1.title + "\n" + pages[i].1.truth;
  }

  lemma EmbeddedPut(pages: Pages, tools: Tools, key: PageKey, page: StoredPage)
    requires tools.embed.Some?
    ensures Embedded(Put(pages, key, page), tools) ==
            Put(Embedded(pages, tools), key, tools.embed.value(EmbedText(page)))
  {
    assert Keys(Embedded(pages, tools)) == Keys(pages);
  }

  /** Choosing pages by key and embedding them commute. */
  lemma {:induction false} EmbeddedFilter(pages: Pages, tools: Tools, keep: PageKey -> bool)
    ensures Filter(Embedded(pages, tools), (e: (PageKey, Vector)) => keep(e.0)) ==
            Embedded(Filter(pages, (e: (PageKey, StoredPage)) => keep(e.0)), tools)
  {
    if pages != [] && tools.embed.Some? {
      var n := |pages| - 1;
      EmbeddedFilter(pages[..n], tools, keep);
      var all := Embedded(pages, tools);
      assert all[..n] == Embedded(pages[..n], tools);
      var front := Filter(pages[..n], (e: (PageKey, StoredPage)) => keep(e.0));
      if keep(pages[n].0) {
        assert Embedded(front + [pages[n]], tools) == Embedded(front, tools) + [all[n]];
      } else {
        assert front + [] == front;
        assert Embedded(front, tools) + [] == Embedded(front, tools);
      }
    }
  }

  // ----- Tokens -----

  function PlaneName(plane: Plane): string {
    match plane
    case Personal => "personal"
    case Firm => "firm"
  }

  function EmployeeText(key: PageKey): string {
    if key.employee.Some? then key.employee.value else ""
  }

  /** `_key_token` */
  function KeyToken(key: PageKey): string {
    PlaneName(key.plane) + ("\0" + (EmployeeText(key) + ("\0" + key.slug)))
  }

  lemma SplitAtNul(a: string, b: string, a': string, b': string)
    requires '\0' !in a && '\0' !in a' && a + ("\0" + b) == a' + ("\0" + b')
    ensures a == a' && b == b'
  {
    var all, all' := a + ("\0" + b), a' + ("\0" + b');
    assert all[|a|] == '\0' && all'[|a'|] == '\0';
    assert forall i :: 0 <= i < |a| ==> all[i] == a[i] != '\0';
    assert forall i :: 0 <= i < |a'| ==> all'[i] == a'[i] != '\0';
    assert a == all[..|a|] && a' == all'[..|a'|];
    assert b == all[|a| + 1..] && b' == all'[|a'| + 1..];
  }

  lemma NoNulInParts(key: PageKey)
    requires ValidPlane(key.plane, key.employee)
    ensures '\0' !in PlaneName(key.plane) && '\0' !in EmployeeText(key)
    ensures key.employee == if key.plane == Firm then None else Some(EmployeeText(key))
  {}

  /** The tokens of valid keys are as distinct as the keys: no slug can forge another key's token. */
  lemma KeyTokenInjective(k: PageKey, k': PageKey)
    requires ValidPlane(k.plane, k.employee) && ValidPlane(k'.plane, k'.employee)
    requires KeyToken(k) == KeyToken(k')
    ensures k == k'
  {
    NoNulInParts(k);
    NoNulInParts(k');
    SplitAtNul(PlaneName(k.plane), EmployeeText(k) + ("\0" + k.slug),
               PlaneName(k'.plane), EmployeeText(k') + ("\0" + k'.slug));
    assert |PlaneName(Firm)| != |PlaneName(Personal)|;
    SplitAtNul(EmployeeText(k), k.slug, EmployeeText(k'), k'.slug);
  }

  lemma TokensInjective(pages: Pages, keys: seq<PageKey>)
    requires ValidPages(pages) && forall k :: k in keys ==> k in Keys(pages)
    ensures Injective(KeyToken, keys)
  {
    forall i, j | 0 <= i < |keys| && 0 <= j < |keys| && KeyToken(keys[i]) == KeyToken(keys[j])
      ensures keys[i] == keys[j]
    {
      assert keys[i] in Keys(pages) && keys[j] in Keys(pages);
      KeyTokenInjective(keys[i], keys[j]);
    }
  }

  // ----- The hits come from shown pages -----

  lemma SortedMembers<T>(s: seq<T>, score: T -> real)
    ensures forall x :: x in SortDesc(s, score) <==> x in s
  {
    SortedElements(s, score);
    assert forall x :: x in SortDesc(s, score) <==> x in multiset(SortDesc(s, score));
    assert forall x :: x in s <==> x in multiset(s);
  }

  lemma KeysOfMembers<V>(s: seq<(PageKey, V)>, t: seq<(PageKey, V)>)
    requires forall e :: e in s ==> e in t
    ensures forall k :: k in Keys(s) ==> k in Keys(t)
  {
    forall k | k in Keys(s)
      ensures k in Keys(t)
    {
      var i :| 0 <= i < |s| && Keys(s)[i] == k;
      assert s[i] in t;
      var j :| 0 <= j < |t| && t[j] == s[i];
      assert Keys(t)[j] == k;
    }
  }

  /** A page is a keyword candidate when its text scores. */
  lemma {:induction false} KeywordKeys(shown: Pages, q: string, lower: string -> string)
    requires q != ""
    ensures forall k :: k in Keys(KeywordScored(shown, q, lower)) <==>
                        exists i :: 0 <= i < |shown| && shown[i].0 == k && KeywordScore(shown[i].1, q, lower) > 0.0
  {
    if shown != [] {
      var n := |shown| - 1;
      KeywordKeys(shown[..n], q, lower);
      var front := KeywordScored(shown[..n], q, lower);
      var score := KeywordScore(shown[n].1, q, lower);
      assert Keys(front + [(shown[n].0, score)]) == Keys(front) + [shown[n].0];
      assert front + [] == front;
      forall k
        ensures k in Keys(KeywordScored(shown, q, lower)) <==>
                exists i :: 0 <= i < |shown| && shown[i].0 == k && KeywordScore(shown[i].1, q, lower) > 0.0
      {
        if i :| 0 <= i < n && shown[..n][i].0 == k && KeywordScore(shown[..n][i].1, q, lower) > 0.0 {
          assert shown[i].0 == k;
        }
      }
    }
  }

  lemma {:induction false} FilterKeepsDistinct(pages: Pages, p: ((PageKey, StoredPage)) -> bool)
    requires DistinctKeys(Keys(pages))
    ensures DistinctKeys(Keys(Filter(pages, p)))
  {
    if pages != [] {
      var n := |pages| - 1;
      assert forall i :: 0 <= i < n ==> Keys(pages[..n])[i] == Keys(pages)[i] != Keys(pages)[n];
      FilterKeepsDistinct(pages[..n], p);
      FilterMembers(pages[..n], p);
      var front := Filter(pages[..n], p);
      KeysOfMembers(front, pages[..n]);
      if p(pages[n]) {
        assert Keys(front + [pages[n]]) == Keys(front) + [pages[n].0];
        assert pages[n].0 !in Keys(front);
      } else {
        assert front + [] == front;
      }
    }
  }

  lemma FilterKeepsValid(pages: Pages, p: ((PageKey, StoredPage)) -> bool)
    requires ValidPages(pages)
    ensures ValidPages(Filter(pages, p))
  {
    FilterMembers(pages, p);
    FilterKeepsDistinct(pages, p);
    var kept := Filter(pages, p);
    forall i | 0 <= i < |kept|
      ensures ValidEntry(kept[i].0, kept[i].1)
    {
      assert kept[i] in pages;
    }
  }

  lemma ShownIsValid(pages: Pages, ask: Ask)
    requires ValidPages(pages)
    ensures ValidPages(Shown(pages, ask))
    ensures forall e :: e in Shown(pages, ask) <==> e in pages && Visible(e.0, e.1, ask)
  {
    FilterMembers(pages, (e: (PageKey, StoredPage)) => Visible(e.0, e.1, ask));
    FilterKeepsValid(pages, (e: (PageKey, StoredPage)) => Visible(e.0, e.1, ask));
  }

  lemma PoppedEmbeddings(pages: Pages, tools: Tools, key: PageKey)
    ensures Embedded(Popped(pages, key), tools) == Popped(Embedded(pages, tools), key)
  {
    EmbeddedFilter(pages, tools, k => k != key);
    FilterAgree(Embedded(pages, tools), (e: (PageKey, Vector)) => e.0 != key,
                (e: (PageKey, Vector)) => ((k: PageKey) => k != key)(e.0));
    FilterAgree(pages, (e: (PageKey, StoredPage)) => e.0 != key,
                (e: (PageKey, StoredPage)) => ((k: PageKey) => k != key)(e.0));
  }

  lemma ShownIfKeyShown(pages: Pages, ask: Ask, i: nat)
    requires ValidPages(pages) && i < |pages| && pages[i].0 in Keys(Shown(pages, ask))
    ensures Visible(pages[i].0, pages[i].1, ask)
  {
    var shown := Shown(pages, ask);
    ShownIsValid(pages, ask);
    var j :| 0 <= j < |shown| && Keys(shown)[j] == pages[i].0;
    assert shown[j] in pages;
    var m :| 0 <= m < |pages| && pages[m] == shown[j];
    assert Keys(pages)[m] == Keys(pages)[i];
  }

  lemma KeyShownIfShown(pages: Pages, ask: Ask, i: nat)
    requires ValidPages(pages) && i < |pages| && Visible(pages[i].0, pages[i].1, ask)
    ensures pages[i].0 in Keys(Shown(pages, ask))
  {
    var shown := Shown(pages, ask);
    ShownIsValid(pages, ask);
    assert pages[i] in shown;
    var j :| 0 <= j < |shown| && shown[j] == pages[i];
    assert Keys(shown)[j] == pages[i].0;
  }

  /** With distinct keys, a page's key is among the shown ones exactly when the page is. */
  lemma ShownKeys(pages: Pages, ask: Ask, i: nat)
    requires ValidPages(pages) && i < |pages|
    ensures (pages[i].0 in Keys(Shown(pages, ask))) == Visible(pages[i].0, pages[i].1, ask)
  {
    if pages[i].0 in Keys(Shown(pages, ask)) {
      ShownIfKeyShown(pages, ask, i);
    }
    if Visible(pages[i].0, pages[i].1, ask) {
      KeyShownIfShown(pages, ask, i);
    }
  }

  lemma ShownByKey(pages: Pages, ask: Ask)
    requires ValidPages(pages)
    ensures var shown := Shown(pages, ask);
            Filter(pages, (e: (PageKey, StoredPage)) => (k => k in Keys(shown))(e.0)) == shown
  {
    var shown := Shown(pages, ask);
    forall i | 0 <= i < |pages|
      ensures (pages[i].0 in Keys(shown)) == Visible(pages[i].0, pages[i].1, ask)
    {
      ShownKeys(pages, ask, i);
    }
    FilterAgree(pages, (e: (PageKey, StoredPage)) => (k => k in Keys(shown))(e.0),
                (e: (PageKey, StoredPage)) => Visible(e.0, e.1, ask));
  }

  lemma ShownEmbedded(pages: Pages, tools: Tools, ask: Ask)
    requires ValidPages(pages)
    ensures ShownEmbeddings(Embedded(pages, tools), Shown(pages, ask)) == Embedded(Shown(pages, ask), tools)
  {
    var shown := Shown(pages, ask);
    ShownByKey(pages, ask);
    EmbeddedFilter(pages, tools, k => k in Keys(shown));
    FilterAgree(Embedded(pages, tools), (e: (PageKey, Vector)) => e.0 in Keys(shown),
                (e: (PageKey, Vector)) => (k => k in Keys(shown))(e.0));
  }

  /** The keys that reach the fusion are keys of shown pages: all that match by keyword, and with an embedder all. */
  lemma CandidateKeys(shown: Pages, tools: Tools, question: string, q: string)
    requires q != ""
    ensures var vectors := VectorScored(Embedded(shown, tools), shown, tools, question);
            forall k :: k in Flatten(RankedLists(shown, vectors, q, tools.lower)) <==>
                        exists i :: 0 <= i < |shown| && shown[i].0 == k && Candidate(shown[i].1, q, tools)
  {
    var scored := KeywordScored(shown, q, tools.lower);
    KeywordKeys(shown, q, tools.lower);
    SortedMembers(scored, (e: (PageKey, real)) => e.1);
    KeysOfMembers(scored, Ranked(scored));
    KeysOfMembers(Ranked(scored), scored);
    var vectors := VectorScored(Embedded(shown, tools), shown, tools, question);
    VectorKeys(shown, tools, question);
    FlattenPair(Keys(Ranked(scored)), Keys(vectors));
    forall k
      ensures k in Keys(Ranked(scored)) || k in Keys(vectors) <==>
              exists i :: 0 <= i < |shown| && shown[i].0 == k && Candidate(shown[i].1, q, tools)
    {
      if k in Keys(vectors) {
        var i :| 0 <= i < |Keys(shown)| && Keys(shown)[i] == k;
        assert Candidate(shown[i].1, q, tools);
      }
      if i :| 0 <= i < |shown| && shown[i].0 == k && Candidate(shown[i].1, q, tools) {
        assert Keys(shown)[i] == k;
      }
    }
  }

  predicate Candidate(p: StoredPage, q: string, tools: Tools)
    requires q != ""
  {
    tools.embed.Some? || KeywordScore(p, q, tools.lower) > 0.0
  }

  lemma FlattenPair(a: seq<PageKey>, b: seq<PageKey>)
    ensures Flatten(NonEmpty(a, b)) == a + b
  {
    var none: seq<PageKey> := [];
    assert none + a == a && none + b == b;
    if a != [] && b != [] {
      var both := [a, b];
      assert NonEmpty(a, b) == both && both[..1] == [a] && [a][..0] == [];
      assert Flatten([a]) == a;
    } else if a != [] {
      assert [a][..0] == [] && NonEmpty(a, b) == [a] && a + b == a;
    } else if b != [] {
      assert [b][..0] == [] && NonEmpty(a, b) == [b];
    }
  }

  lemma VectorKeys(shown: Pages, tools: Tools, question: string)
    ensures var vectors := VectorScored(Embedded(shown, tools), shown, tools, question);
            forall k :: k in Keys(vectors) <==> tools.embed.Some? && k in Keys(shown)
  {
    if tools.embed.Some? && shown != [] {
      var all := Embedded(shown, tools);
      forall i | 0 <= i < |all|
        ensures all[i].0 in Keys(shown)
      {
        assert Keys(shown)[i] == all[i].0;
      }
      FilterEverything(all, (e: (PageKey, Vector)) => e.0 in Keys(shown));
      var scored := Similarities(all, tools.embed.value(question), tools.cosine);
      assert Keys(scored) == Keys(shown);
      SortedMembers(scored, (e: (PageKey, real)) => e.1);
      KeysOfMembers(scored, Ranked(scored));
      KeysOfMembers(Ranked(scored), scored);
    }
  }

  lemma ShownCandidates(pages: Pages, tools: Tools, question: string, q: string, ask: Ask)
    requires ValidPages(pages) && q != ""
    ensures var shown := Shown(pages, ask);
            var vectors := VectorScored(Embedded(pages, tools), shown, tools, question);
            && vectors == VectorScored(Embedded(shown, tools), shown, tools, question)
            && forall k :: k in Flatten(RankedLists(shown, vectors, q, tools.lower)) ==> k in Keys(shown)
  {
    var shown := Shown(pages, ask);
    ShownEmbedded(pages, tools, ask);
    FilterIdempotent(Embedded(pages, tools), (e: (PageKey, Vector)) => e.0 in Keys(shown));
    CandidateKeys(shown, tools, question, q);
    assert forall i :: 0 <= i < |shown| ==> shown[i].0 == Keys(shown)[i];
  }

  // ----- Fusing on tokens -----

  ghost predicate WellKeyed(fused: Scores<PageKey>) {
    && (forall k :: k in fused.order <==> k in fused.score)
    && forall i, j :: 0 <= i < j < |fused.order| ==> fused.order[i] != fused.order[j]
  }

  method TokenMap(shown: Pages) returns (back: map<string, PageKey>)
    requires ValidPages(shown)
    ensures forall k :: k in Keys(shown) ==> KeyToken(k) in back && back[KeyToken(k)] == k
  {
    back := map[];
    for i := 0 to |shown|
      invariant forall j :: 0 <= j < i ==> KeyToken(shown[j].0) in back && back[KeyToken(shown[j].0)] == shown[j].0
    {
      forall j | 0 <= j < i && KeyToken(shown[j].0) == KeyToken(shown[i].0)
        ensures shown[j].0 == shown[i].0
      {
        KeyTokenInjective(shown[j].0, shown[i].0);
      }
      back := back[KeyToken(shown[i].0) := shown[i].0];
    }
  }

  /** Each token scores what its key would. */
  ghost predicate TokensScore(tokens: map<string, real>, lists: seq<seq<PageKey>>, keys: seq<PageKey>) {
    forall i :: 0 <= i < |keys| ==>
      KeyToken(keys[i]) in tokens && tokens[KeyToken(keys[i])] == FusedScore(lists, keys[i], RRF_K)
  }

  lemma TokensScoreAsKeys(lists: seq<seq<PageKey>>, shown: Pages, tokens: map<string, real>)
    requires ValidPages(shown) && forall k :: k in Flatten(lists) ==> k in Keys(shown)
    requires forall t :: t in tokens <==> t in FirstMentions(Flatten(MappedLists(KeyToken, lists)))
    requires forall t :: t in tokens ==> tokens[t] == FusedScore(MappedLists(KeyToken, lists), t, RRF_K)
    ensures FirstMentions(Flatten(MappedLists(KeyToken, lists))) == Mapped(KeyToken, FirstMentions(Flatten(lists)))
    ensures TokensScore(tokens, lists, FirstMentions(Flatten(lists)))
  {
    var keys := FirstMentions(Flatten(lists));
    TokensInjective(shown, Flatten(lists));
    FlattenMapped(KeyToken, lists);
    FirstMentionsMapped(KeyToken, Flatten(lists));
    forall i | 0 <= i < |keys|
      ensures KeyToken(keys[i]) in tokens && tokens[KeyToken(keys[i])] == FusedScore(lists, keys[i], RRF_K)
    {
      assert Mapped(KeyToken, keys)[i] == KeyToken(keys[i]);
      assert keys[i] in Flatten(lists);
      TokensInjective(shown, Flatten(lists) + [keys[i]]);
      FusedScoreRenamed(KeyToken, lists, keys[i], RRF_K);
    }
  }

  method MapBack(tokens: Scores<string>, back: map<string, PageKey>, ghost lists: seq<seq<PageKey>>,
                 ghost keys: seq<PageKey>)
    returns (fused: Scores<PageKey>)
    requires DistinctKeys(keys) && tokens.order == Mapped(KeyToken, keys) && TokensScore(tokens.score, lists, keys)
    requires forall i :: 0 <= i < |keys| ==> KeyToken(keys[i]) in back && back[KeyToken(keys[i])] == keys[i]
    ensures WellKeyed(fused) && fused.order == keys
    ensures forall k :: k in fused.score ==> fused.score[k] == FusedScore(lists, k, RRF_K)
  {
    fused := Scores([], map[]);
    for i := 0 to |tokens.order|
      invariant WellKeyed(fused) && fused.order == keys[..i]
      invariant forall k :: k in fused.score ==> fused.score[k] == FusedScore(lists, k, RRF_K)
    {
      var token := tokens.order[i];
      assert token == KeyToken(keys[i]);
      fused := Scores(fused.order + [back[token]], fused.score[back[token] := tokens.score[token]]);
    }
  }

  /** Fusing the tokens and mapping them back is fusing the keys. */
  method Fuse(lists: seq<seq<PageKey>>, shown: Pages) returns (fused: Scores<PageKey>)
    requires ValidPages(shown) && forall k :: k in Flatten(lists) ==> k in Keys(shown)
    ensures WellKeyed(fused) && fused.order == FirstMentions(Flatten(lists))
    ensures forall k :: k in fused.score ==> fused.score[k] == FusedScore(lists, k, RRF_K)
  {
    var back := TokenMap(shown);
    var tokens := RrfFuse(MappedLists(KeyToken, lists), RRF_K);
    TokensScoreAsKeys(lists, shown, tokens.value.score);
    fused := MapBack(tokens.value, back, lists, FirstMentions(Flatten(lists)));
  }

  /** `for key in list(fused): fused[key] = f(key, fused[key])` as the boost does it. */
  method Boost(fused: Scores<PageKey>, shown: Pages, q: string, lower: string -> string)
    returns (boosted: Scores<PageKey>)
    requires q != "" && WellKeyed(fused)
    ensures boosted.order == fused.order && boosted.score.Keys == fused.score.Keys
    ensures forall k :: k in fused.score ==>
                          boosted.score[k] == Boosted(fused.score[k], ValueOf(shown, k, NO_PAGE), q, lower)
  {
    boosted := fused;
    for i := 0 to |fused.order|
      invariant boosted.order == fused.order && boosted.score.Keys == fused.score.Keys
      invariant forall j :: 0 <= j < |fused.order| ==>
        var k := fused.order[j];
        boosted.score[k] == if j < i then Boosted(fused.score[k], ValueOf(shown, k, NO_PAGE), q, lower)
            else fused.score[k]
    {
      var key := fused.order[i];
      if FindText(lower(ValueOf(shown, key, NO_PAGE).truth), q).Some? {
        boosted := Scores(boosted.order, boosted.score[key := boosted.score[key] * COMPILED_TRUTH_BOOST]);
      }
    }
  }

  method Blend(fused: Scores<PageKey>, vectors: seq<(PageKey, real)>) returns (blended: Scores<PageKey>)
    requires WellKeyed(fused)
    ensures blended.order == fused.order && blended.score.Keys == fused.score.Keys
    ensures forall k :: k in fused.score ==> blended.score[k] == Blended(fused.score[k], vectors, k)
  {
    blended := fused;
    if vectors != [] {
      for i := 0 to |fused.order|
        invariant blended.order == fused.order && blended.score.Keys == fused.score.Keys
        invariant forall j :: 0 <= j < |fused.order| ==>
          var k := fused.order[j];
          blended.score[k] == if j < i then Blended(fused.score[k], vectors, k) else fused.score[k]
      {
        var key := fused.order[i];
        var cos := ValueOf(vectors, key, 0.0);
        var score := VECTOR_RRF_BLEND * blended.score[key] + (1.0 - VECTOR_RRF_BLEND) * cos;
        blended := Scores(blended.order, blended.score[key := score]);
      }
    }
  }

  /** The fused, boosted and blended dictionary. */
  method FinalScores(lists: seq<seq<PageKey>>, vectors: seq<(PageKey, real)>, shown: Pages, q: string,
                     lower: string -> string)
    returns (scores: Scores<PageKey>)
    requires q != "" && ValidPages(shown) && forall k :: k in Flatten(lists) ==> k in Keys(shown)
    ensures WellKeyed(scores) && scores.order == FirstMentions(Flatten(lists))
    ensures forall k :: k in scores.score ==> scores.score[k] == FinalScore(lists, vectors, shown, q, lower, k)
  {
    var fused := Fuse(lists, shown);
    var boosted := Boost(fused, shown, q, lower);
    scores := Blend(boosted, vectors);
  }

  function HitList(scores: Scores<PageKey>, shown: Pages, q: string, lower: string -> string): seq<Hit>
    requires forall i :: 0 <= i < |scores.order| ==> scores.order[i] in scores.score
  {
    seq(|scores.order|, i requires 0 <= i < |scores.order| =>
      HitOf(scores.order[i], ValueOf(shown, scores.order[i], NO_PAGE), scores.score[scores.order[i]], q, lower))
  }

  method ListHits(scores: Scores<PageKey>, shown: Pages, q: string, lower: string -> string) returns (hits: seq<Hit>)
    requires forall i :: 0 <= i < |scores.order| ==> scores.order[i] in scores.score
    ensures hits == HitList(scores, shown, q, lower)
  {
    ghost var all := HitList(scores, shown, q, lower);
    hits := [];
    for i := 0 to |scores.order|
      invariant hits == all[..i]
    {
      var key := scores.order[i];
      hits := hits + [HitOf(key, ValueOf(shown, key, NO_PAGE), scores.score[key], q, lower)];
    }
  }

  method Rerank(lists: seq<seq<PageKey>>, vectors: seq<(PageKey, real)>, shown: Pages, q: string,
                lower: string -> string)
    returns (hits: seq<Hit>)
    requires q != "" && ValidPages(shown) && forall k :: k in Flatten(lists) ==> k in Keys(shown)
    ensures hits == FusedHits(FirstMentions(Flatten(lists)), lists, vectors, shown, q, lower)
  {
    var scores := FinalScores(lists, vectors, shown, q, lower);
    forall i | 0 <= i < |scores.order|
      ensures scores.order[i] in scores.score
      ensures scores.score[scores.order[i]] == FinalScore(lists, vectors, shown, q, lower, scores.order[i])
    {
      assert scores.order[i] in scores.order;
    }
    hits := ListHits(scores, shown, q, lower);
  }

  // ----- The engine -----

  class Engine {
    const tools: Tools
    var pages: Pages
    var embeddings: Embeddings

    predicate Valid()
      reads this
    {
      ValidPages(pages) && embeddings == Embedded(pages, tools)
    }

    constructor (tools: Tools)
      ensures Valid() && this.tools == tools && pages == []
    {
      this.tools := tools;
      pages, embeddings := [], [];
    }

    method PutPage(page: StoredPage, plane: Plane, employee: Option<string>) returns (r: Result<(), SearchError>)
      requires Valid()
      modifies this
      ensures Valid()
      ensures r == if !ValidPlane(plane, employee) then Err(BadFilter)
                   else if page.domain !in ["people", "companies", "deals", "meetings", "concepts", "sources", "inbox",
                                            "archive"] then Err(BadDomain)
                   else Ok(())
      ensures pages == if r.Ok? then Put(old(pages), PageKey(plane, page.slug, employee), page) else old(pages)
      ensures r.Ok? ==>
                var key := PageKey(plane, page.slug, employee);
                && Keys(pages) == Keys(old(pages)) + (if key in Keys(old(pages)) then [] else [key])
                && forall i :: 0 <= i < |pages| ==>
                     if pages[i].0 == key then pages[i].1 == page else i < |old(pages)| && pages[i] == old(pages)[i]
      ensures r.Ok? && tools.embed.Some? ==>
                && |embeddings| == |pages|
                && forall i :: 0 <= i < |pages| ==>
                     embeddings[i] == (pages[i].0, tools.embed.value(pages[i].1.title + "\n" + pages[i].1.truth))
    {
      if !ValidPlane(plane, employee) {
        return Err(BadFilter);
      }
      if page.domain !in CORE_DOMAINS {
        return Err(BadDomain);
      }
      var key := PageKey(plane, page.slug, employee);
      PutKeys(pages, key, page);
      PutMeans(pages, key, page);
      pages := Put(pages, key, page);
      if tools.embed.Some? {
        EmbeddedPut(old(pages), tools, key, page);
        embeddings := Put(embeddings, key, tools.embed.value(EmbedText(page)));
        forall i | 0 <= i < |pages|
          ensures Embedded(pages, tools)[i] ==
                  (pages[i].0, tools.embed.value(pages[i].1.title + "\n" + pages[i].1.truth))
        {
          EmbeddedAt(pages, tools, i);
        }
      }
      return Ok(());
    }

    method DeletePage(slug: string, plane: Plane, employee: Option<string>) returns (r: Result<(), SearchError>)
      requires Valid()
      modifies this
      ensures Valid()
      ensures r == if ValidPlane(plane, employee) then Ok(()) else Err(BadFilter)
      ensures pages == if r.Ok? then Popped(old(pages), PageKey(plane, slug, employee)) else old(pages)
      ensures r.Ok? ==>
                pages == Filter(old(pages), (e: (PageKey, StoredPage)) => e.0 != PageKey(plane, slug, employee))
      ensures r.Ok? ==> PageKey(plane, slug, employee) !in Keys(pages)
    {
      if !ValidPlane(plane, employee) {
        return Err(BadFilter);
      }
      var key := PageKey(plane, slug, employee);
      FilterKeepsValid(pages, (e: (PageKey, StoredPage)) => e.0 != key);
      PoppedEmbeddings(pages, tools, key);
      PoppedMeans(pages, key);
      pages := Popped(pages, key);
      embeddings := Popped(embeddings, key);
      return Ok(());
    }

    method Search(text: string, ask: Ask) returns (r: Result<seq<Hit>, SearchError>)
      requires Valid()
      ensures r == SearchAnswer(pages, tools, text, ask)
    {
      if !ValidFilter(ask) {
        return Err(BadFilter);
      }
      var q := tools.lower(Strip(text));
      var hits := [];
      if q != "" {
        for i := 0 to |pages|
          invariant hits == KeywordHits(Shown(pages[..i], ask), q, tools.lower)
        {
          var (key, p) := pages[i];
          ghost var before := Shown(pages[..i], ask);
          assert pages[..i + 1][..i] == pages[..i];
          assert before + [] == before && (before + [pages[i]])[..|before|] == before;
          if Visible(key, p, ask) {
            var score := KeywordScore(p, q, tools.lower);
            if score > 0.0 {
              hits := hits + [HitOf(key, p, score, q, tools.lower)];
            }
          }
        }
        assert pages[..|pages|] == pages;
      }
      return Ok(Take(SortDesc(hits, (h: Hit) => h.score), ask.limit));
    }

    method Query(question: string, ask: Ask) returns (r: Result<seq<Hit>, SearchError>)
      requires Valid()
      ensures r == QueryAnswer(pages, Embedded(pages, tools), tools, question, ask)
    {
      if !ValidFilter(ask) {
        return Err(BadFilter);
      }
      var q := tools.lower(Strip(question));
      if q == "" {
        return Ok([]);
      }
      var shown := Shown(pages, ask);
      ShownIsValid(pages, ask);
      ShownEmbedded(pages, tools, ask);
      var vectors := VectorScored(embeddings, shown, tools, question);
      var lists := RankedLists(shown, vectors, q, tools.lower);
      if lists == [] {
        return Ok([]);
      }
      ShownCandidates(pages, tools, question, q, ask);
      var hits := Rerank(lists, vectors, shown, q, tools.lower);
      return Ok(Take(SortDesc(hits, (h: Hit) => h.score), ask.limit));
    }
  }

  // ----- What the engine promises -----

  /** An engine answers as the engine would that holds the asker's visible pages and nothing else. */
  lemma EngineSeesOnlyVisible(pages: Pages, tools: Tools, text: string, ask: Ask)
    requires ValidPages(pages)
    ensures ValidPages(Shown(pages, ask))
    ensures SearchAnswer(pages, tools, text, ask) == SearchAnswer(Shown(pages, ask), tools, text, ask)
    ensures QueryAnswer(pages, Embedded(pages, tools), tools, text, ask) ==
            QueryAnswer(Shown(pages, ask), Embedded(Shown(pages, ask), tools), tools, text, ask)
  {
    ShownIsValid(pages, ask);
    ShownEmbedded(pages, tools, ask);
    SearchSeesOnlyVisible(pages, Embedded(pages, tools), tools, text, ask);
  }

  /** Engines that show an asker the same pages give the asker the same answers. */
  lemma SameViewSameAnswers(pages: Pages, pages': Pages, tools: Tools, text: string, ask: Ask)
    requires ValidPages(pages) && ValidPages(pages') && Shown(pages, ask) == Shown(pages', ask)
    ensures SearchAnswer(pages', tools, text, ask) == SearchAnswer(pages, tools, text, ask)
    ensures QueryAnswer(pages', Embedded(pages', tools), tools, text, ask) ==
            QueryAnswer(pages, Embedded(pages, tools), tools, text, ask)
  {
    EngineSeesOnlyVisible(pages, tools, text, ask);
    EngineSeesOnlyVisible(pages', tools, text, ask);
  }

  /** Writing a page the asker cannot see, over one the asker could not see, changes none of the asker's answers. */
  lemma HiddenPutIsInvisible(pages: Pages, tools: Tools, text: string, ask: Ask, key: PageKey, page: StoredPage)
    requires ValidPages(pages) && ValidEntry(key, page)
    requires !Visible(key, page, ask) && forall i :: 0 <= i < |pages| && pages[i].0 == key ==>
             !Visible(key, pages[i].1, ask)
    ensures var pages' := Put(pages, key, page);
            && SearchAnswer(pages', tools, text, ask) == SearchAnswer(pages, tools, text, ask)
            && QueryAnswer(pages', Embedded(pages', tools), tools, text, ask) ==
               QueryAnswer(pages, Embedded(pages, tools), tools, text, ask)
  {
    PutHidden(pages, key, page, (e: (PageKey, StoredPage)) => Visible(e.0, e.1, ask));
    PutKeys(pages, key, page);
    SameViewSameAnswers(pages, Put(pages, key, page), tools, text, ask);
  }

  /** Nor does deleting one. */
  lemma HiddenDeleteIsInvisible(pages: Pages, tools: Tools, text: string, ask: Ask, key: PageKey)
    requires ValidPages(pages) && forall i :: 0 <= i < |pages| && pages[i].0 == key ==> !Visible(key, pages[i].1, ask)
    ensures var pages' := Popped(pages, key);
            && SearchAnswer(pages', tools, text, ask) == SearchAnswer(pages, tools, text, ask)
            && QueryAnswer(pages', Embedded(pages', tools), tools, text, ask) ==
               QueryAnswer(pages, Embedded(pages, tools), tools, text, ask)
  {
    var test := (e: (PageKey, StoredPage)) => Visible(e.0, e.1, ask);
    FilterTwice(pages, (e: (PageKey, StoredPage)) => e.0 != key, test, test);
    FilterKeepsValid(pages, (e: (PageKey, StoredPage)) => e.0 != key);
    SameViewSameAnswers(pages, Popped(pages, key), tools, text, ask);
  }

  lemma PutHidden(pages: Pages, key: PageKey, page: StoredPage, test: ((PageKey, StoredPage)) -> bool)
    requires !test((key, page)) && forall i :: 0 <= i < |pages| && pages[i].0 == key ==> !test(pages[i])
    ensures Filter(Put(pages, key, page), test) == Filter(pages, test)
  {
    if key in Keys(pages) {
      Replaced(pages, key, page, test);
    } else {
      assert (pages + [(key, page)])[..|pages|] == pages;
      assert Filter(pages, test) + [] == Filter(pages, test);
    }
  }

  lemma {:induction false} Replaced(pages: Pages, key: PageKey, page: StoredPage, test: ((PageKey, StoredPage)) -> bool)
    requires !test((key, page)) && forall i :: 0 <= i < |pages| && pages[i].0 == key ==> !test(pages[i])
    ensures Filter(Exchanged(pages, key, page), test) == Filter(pages, test)
  {
    if pages != [] {
      var n := |pages| - 1;
      var front := pages[..n];
      Replaced(front, key, page, test);
      assert Exchanged(pages, key, page)[..n] == Exchanged(front, key, page);
    }
  }

  lemma {:induction false} DistinctFits(a: seq<PageKey>, b: seq<PageKey>)
    requires DistinctKeys(a) && forall k :: k in a ==> k in b
    ensures |a| <= |b|
    decreases |a|
  {
    if a != [] {
      var n := |a| - 1;
      assert a[n] in b;
      var i :| 0 <= i < |b| && b[i] == a[n];
      var rest := b[..i] + b[i + 1..];
      forall k | k in a[..n]
        ensures k in rest
      {
        assert k in a && k in b;
        var j :| 0 <= j < |b| && b[j] == k;
        assert j != i;
        assert rest[if j < i then j else j - 1] == k;
      }
      DistinctFits(a[..n], rest);
    }
  }

  predicate IsHitOf(h: Hit, key: PageKey) {
    h.slug == key.slug && h.plane == key.plane && h.employee == key.employee
  }

  /** The keys the hybrid search ranks, and their hits, before sorting and cutting. */
  function RankedKeys(shown: Pages, embeddings: Embeddings, tools: Tools, question: string, q: string): seq<PageKey>
    requires q != ""
  {
    FirstMentions(Flatten(RankedLists(shown, VectorScored(embeddings, shown, tools, question), q, tools.lower)))
  }

  function UnsortedHits(shown: Pages, embeddings: Embeddings, tools: Tools, question: string, q: string): seq<Hit>
    requires q != ""
  {
    var vectors := VectorScored(embeddings, shown, tools, question);
    FusedHits(RankedKeys(shown, embeddings, tools, question, q), RankedLists(shown, vectors, q, tools.lower),
              vectors, shown,
              q, tools.lower)
  }

  /** Page i is one the asker may see and the query matches. */
  predicate Matches(pages: Pages, i: nat, tools: Tools, q: string, ask: Ask)
    requires i < |pages| && q != ""
  {
    Visible(pages[i].0, pages[i].1, ask) && Candidate(pages[i].1, q, tools)
  }

  lemma RankedKeysMatch(pages: Pages, tools: Tools, question: string, q: string, ask: Ask)
    requires ValidPages(pages) && q != ""
    ensures forall k :: k in RankedKeys(Shown(pages, ask), Embedded(pages, tools), tools, question, q) <==>
                        exists i :: 0 <= i < |pages| && pages[i].0 == k && Matches(pages, i, tools, q, ask)
  {
    var shown := Shown(pages, ask);
    ShownIsValid(pages, ask);
    ShownCandidates(pages, tools, question, q, ask);
    CandidateKeys(shown, tools, question, q);
    var order := RankedKeys(shown, Embedded(pages, tools), tools, question, q);
    forall k
      ensures k in order <==> exists i :: 0 <= i < |pages| && pages[i].0 == k && Matches(pages, i, tools, q, ask)
    {
      if k in order {
        var m :| 0 <= m < |shown| && shown[m].0 == k && Candidate(shown[m].1, q, tools);
        assert shown[m] in pages;
        var i :| 0 <= i < |pages| && pages[i] == shown[m];
        assert Matches(pages, i, tools, q, ask);
      }
      if i :| 0 <= i < |pages| && pages[i].0 == k && Matches(pages, i, tools, q, ask) {
        assert pages[i] in shown;
        var m :| 0 <= m < |shown| && shown[m] == pages[i];
        assert shown[m].0 == k && Candidate(shown[m].1, q, tools);
      }
    }
  }

  lemma UnsortedHitsMatch(pages: Pages, tools: Tools, question: string, q: string, ask: Ask, j: nat)
    requires ValidPages(pages) && q != ""
    requires j < |UnsortedHits(Shown(pages, ask), Embedded(pages, tools), tools, question, q)|
    ensures exists i :: 0 <= i < |pages| && Matches(pages, i, tools, q, ask) &&
                        IsHitOf(UnsortedHits(Shown(pages, ask), Embedded(pages, tools), tools, question, q)[j],
                                pages[i].0)
  {
    var order := RankedKeys(Shown(pages, ask), Embedded(pages, tools), tools, question, q);
    RankedKeysMatch(pages, tools, question, q, ask);
    assert order[j] in order;
    var i :| 0 <= i < |pages| && pages[i].0 == order[j] && Matches(pages, i, tools, q, ask);
  }

  /** The hybrid search ranks by score, and shows only visible pages that match (with an embedder every page does). */
  lemma QueryFindsOnly(pages: Pages, tools: Tools, question: string, ask: Ask)
    requires ValidPages(pages) && ValidFilter(ask) && tools.lower(Strip(question)) != ""
    ensures var answer := QueryAnswer(pages, Embedded(pages, tools), tools, question, ask);
            && answer.Ok?
            && Descending(answer.value, (h: Hit) => h.score)
            && forall h :: h in answer.value ==>
                 exists i :: 0 <= i < |pages| && Matches(pages, i, tools, tools.lower(Strip(question)), ask)
                     && IsHitOf(h, pages[i].0)
  {
    var q := tools.lower(Strip(question));
    var hits := UnsortedHits(Shown(pages, ask), Embedded(pages, tools), tools, question, q);
    var score := (h: Hit) => h.score;
    SortedDescends(hits, score);
    SortedMembers(hits, score);
    var answer := Take(SortDesc(hits, score), ask.limit);
    assert QueryAnswer(pages, Embedded(pages, tools), tools, question, ask) == Ok(answer);
    forall h | h in answer
      ensures exists i :: 0 <= i < |pages| && Matches(pages, i, tools, q, ask) && IsHitOf(h, pages[i].0)
    {
      assert h in hits;
      var j :| 0 <= j < |hits| && hits[j] == h;
      UnsortedHitsMatch(pages, tools, question, q, ask, j);
    }
  }

  /** With room for every page, every visible page that matches is found. */
  lemma QueryFindsAll(pages: Pages, tools: Tools, question: string, ask: Ask, i: nat)
    requires ValidPages(pages) && ValidFilter(ask) && tools.lower(Strip(question)) != ""
    requires ask.limit >= |pages| && i < |pages| && Matches(pages, i, tools, tools.lower(Strip(question)), ask)
    ensures var answer := QueryAnswer(pages, Embedded(pages, tools), tools, question, ask);
            exists h :: h in answer.value && IsHitOf(h, pages[i].0)
  {
    var q, shown := tools.lower(Strip(question)), Shown(pages, ask);
    var order := RankedKeys(shown, Embedded(pages, tools), tools, question, q);
    var hits := UnsortedHits(shown, Embedded(pages, tools), tools, question, q);
    var score := (h: Hit) => h.score;
    SortedElements(hits, score);
    SortedMembers(hits, score);
    RankedKeysMatch(pages, tools, question, q, ask);
    forall k | k in order
      ensures k in Keys(pages)
    {
      var m :| 0 <= m < |pages| && pages[m].0 == k && Matches(pages, m, tools, q, ask);
      assert Keys(pages)[m] == k;
    }
    DistinctFits(order, Keys(pages));
    assert |SortDesc(hits, score)| == |multiset(SortDesc(hits, score))| == |multiset(hits)| == |hits|;
    assert pages[i].0 in order;
    var j :| 0 <= j < |order| && order[j] == pages[i].0;
    assert hits[j] in hits && IsHitOf(hits[j], pages[i].0);
  }
}
