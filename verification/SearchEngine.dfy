/** The page engine's keyword and hybrid search. Lower-casing, embedding and cosine similarity are arbitrary functions;
    dictionaries are association lists, because their insertion order decides ties. */
module SearchEngine {
  import opened Common
  import opened TripleStore
  import opened Proposals
  import opened RankFusion

  const RRF_K: nat := 60
  const COMPILED_TRUTH_BOOST: real := 2.0
  const VECTOR_RRF_BLEND: real := 0.7
  const PUBLIC_SCOPE := "public"

  datatype PageKey = PageKey(plane: Plane, slug: string, employee: Option<string>)

  datatype StoredPage = StoredPage(slug: string, domain: string, title: string, truth: string, tier: Tier,
                                   scope: Option<string>)

  type Vector = seq<real>

  datatype Tools = Tools(lower: string -> string, embed: Option<string -> Vector>, cosine: (Vector, Vector) -> real)

  datatype Policy = Policy(scopes: set<string>, employees: map<string, set<string>>, defaultScope: string)

  /** The filters of one search call. */
  datatype Ask = Ask(limit: int, plane: Option<Plane>, employee: Option<string>, floor: Option<Tier>,
                     viewer: Option<string>, policy: Option<Policy>)

  datatype Hit = Hit(slug: string, plane: Plane, employee: Option<string>, score: real, snippet: string)

  datatype SearchError = BadFilter | BadDomain

  type Pages = seq<(PageKey, StoredPage)>

  type Embeddings = seq<(PageKey, Vector)>

  const NO_PAGE := StoredPage("", "inbox", "", "", Decision, None)

  // ----- Who may see what -----

  function TierLevel(t: Tier): nat {
    match t
    case Decision => 0
    case Policy => 1
    case Doctrine => 2
    case Constitution => 3
  }

  function PageScope(p: StoredPage, fallback: string): string {
    if p.scope.Some? && p.scope.value != "" then p.scope.value else fallback
  }

  predicate CanRead(policy: Policy, employee: string, p: StoredPage) {
    employee in policy.employees &&
    var scope := PageScope(p, policy.defaultScope);
    scope == PUBLIC_SCOPE || (scope in policy.scopes && scope in policy.employees[employee])
  }

  predicate ViewerCanRead(key: PageKey, p: StoredPage, viewer: Option<string>, policy: Option<Policy>) {
    if viewer.None? then true
    else if key.plane == Personal then key.employee == viewer
    else if policy.None? then PageScope(p, PUBLIC_SCOPE) == PUBLIC_SCOPE
    else CanRead(policy.value, viewer.value, p)
  }

  predicate InScope(key: PageKey, plane: Option<Plane>, employee: Option<string>) {
    plane.Some? ==> key.plane == plane.value && (plane.value == Personal ==> key.employee == employee)
  }

  predicate Visible(key: PageKey, p: StoredPage, ask: Ask) {
    && InScope(key, ask.plane, ask.employee)
    && (ask.floor.Some? ==> TierLevel(p.tier) >= TierLevel(ask.floor.value))
    && ViewerCanRead(key, p, ask.viewer, ask.policy)
  }

  // ----- The same in the fields a caller sees -----

  /** Plane, employee and tier floor asked for. */
  predicate AskedFor(ask: Ask, key: PageKey, p: StoredPage) {
    && (ask.plane == Some(Firm) ==> key.plane == Firm)
    && (ask.plane == Some(Personal) ==> key.plane == Personal && key.employee == ask.employee)
    && (ask.floor == Some(Tier.Policy) ==> p.tier != Decision)
    && (ask.floor == Some(Doctrine) ==> p.tier == Doctrine || p.tier == Constitution)
    && (ask.floor == Some(Constitution) ==> p.tier == Constitution)
  }

  /** What the viewer has a right to: everything without a viewer; of the personal pages, one's own; of the firm pages,
      without a policy the public ones, and with a policy, for those it lists, the public ones and those whose scope is
      declared and among one's own. A page without a scope has the default one. */
  predicate Entitled(ask: Ask, key: PageKey, p: StoredPage) {
    ask.viewer.Some? ==>
      && (key.plane == Personal ==> key.employee == ask.viewer)
      && (key.plane == Firm && ask.policy.None? ==> p.scope in {None, Some(""), Some("public")})
      && (key.plane == Firm && ask.policy.Some? ==>
            && ask.viewer.value in ask.policy.value.employees
            && var scope := if p.scope in {None, Some("")} then ask.policy.value.defaultScope else p.scope.value;
               || scope == "public"
               || (scope in ask.policy.value.scopes && scope in ask.policy.value.employees[ask.viewer.value]))
  }

  /** The filters of both searches let a page through if and only if it was asked for and the viewer is entitled to
      it. */
  lemma VisibleExact(key: PageKey, p: StoredPage, ask: Ask)
    requires ValidPlane(key.plane, key.employee)
    ensures Visible(key, p, ask) <==> AskedFor(ask, key, p) && Entitled(ask, key, p)
  {
    assert p.scope in {None, Some("")} <==> p.scope.None? || p.scope.value == "";
    assert p.scope in {None, Some(""), Some("public")} <==>
           p.scope.None? || p.scope.value == "" || p.scope.value == "public";
  }

  predicate ValidFilter(ask: Ask) {
    if ask.plane.None? then ask.employee.None? else ValidPlane(ask.plane.value, ask.employee)
  }

  function Shown(pages: Pages, ask: Ask): Pages {
    Filter(pages, (e: (PageKey, StoredPage)) => Visible(e.0, e.1, ask))
  }

  /** Without a viewer nothing is filtered, and with one something always is, policy or not. */
  lemma NothingFilteredExact(viewer: Option<string>, policy: Option<Policy>)
    ensures viewer.None? <==>
            forall key: PageKey, p :: ValidPlane(key.plane, key.employee) ==> ViewerCanRead(key, p, viewer, policy)
  {
    if viewer.Some? {
      var other := if viewer.value == "a" then "b" else "a";
      assert SafeSegmentChar(other[0]) && SafeSegment(other);
      assert !ViewerCanRead(PageKey(Personal, "diary", Some(other)), NO_PAGE, viewer, policy);
    }
  }

  /** A missing policy filters too: it hides every firm page with a scope of its own, this one for example. */
  lemma MissingPolicyHides(viewer: string)
    ensures !ViewerCanRead(PageKey(Firm, "terms", None), NO_PAGE.(scope := Some("partners")), Some(viewer), None)
  {
    assert "partners"[1] != PUBLIC_SCOPE[1];
  }

  // ----- Text -----

  /** `str.count`: occurrences that do not overlap. */
  function CountText(text: string, q: string): nat
    requires q != ""
    decreases |text|
  {
    if |text| < |q| then 0
    else if text[..|q|] == q then 1 + CountText(text[|q|..], q)
    else CountText(text[1..], q)
  }

  function FindText(text: string, q: string): Option<nat> {
    if |text| < |q| then None
    else if text[..|q|] == q then Some(0)
    else if text == "" then None
    else
      var rest := FindText(text[1..], q);
      if rest.Some? then Some(rest.value + 1) else None
  }

  predicate OccursAt(text: string, q: string, i: nat) {
    i + |q| <= |text| && text[i..i + |q|] == q
  }

  /** The first place where the text has the word, if it has it at all. */
  lemma {:induction false} FindTextFirst(text: string, q: string)
    ensures var at := FindText(text, q);
            && (at.Some? ==> OccursAt(text, q, at.value) && forall i: nat :: i < at.value ==> !OccursAt(text, q, i))
            && (at.None? ==> forall i: nat :: !OccursAt(text, q, i))
  {
    if |text| >= |q| && text[..|q|] != q {
      FindTextFirst(text[1..], q);
      forall i: nat
        ensures OccursAt(text, q, i) <==> i > 0 && OccursAt(text[1..], q, i - 1)
      {
        if 0 < i && i + |q| <= |text| {
          assert text[i..i + |q|] == text[1..][i - 1..i - 1 + |q|];
        }
      }
    }
  }

  /** Counting goes on behind each occurrence found. */
  lemma {:induction false} CountByFinding(text: string, q: string)
    requires q != ""
    ensures CountText(text, q) ==
            var at := FindText(text, q);
            if at.None? || at.value + |q| > |text| then 0 else 1 + CountText(text[at.value + |q|..], q)
    decreases |text|
  {
    FindTextFirst(text, q);
    if |text| >= |q| && text[..|q|] != q {
      CountByFinding(text[1..], q);
      FindTextFirst(text[1..], q);
      var at := FindText(text[1..], q);
      if at.Some? {
        assert text[1..][at.value + |q|..] == text[at.value + 1 + |q|..];
      }
    }
  }

  /** `text[lo:hi]` for non-negative bounds. */
  function Slice(text: string, lo: nat, hi: nat): string {
    var to := if hi <= |text| then hi else |text|;
    if lo <= to then text[lo..to] else ""
  }

  function Snippet(text: string, q: string, lower: string -> string): string {
    var idx := FindText(lower(text), q);
    if idx.None? then Slice(text, 0, 80)
    else
      var start := if idx.value > 40 then idx.value - 40 else 0;
      Slice(text, start, start + 80)
  }

  function Min(a: nat, b: nat): nat {
    if a < b then a else b
  }

  /** At most 80 characters of the text: its first ones if the word does not occur within the first 41 places, and
      otherwise those from 40 places before the word on. */
  lemma SnippetMeans(text: string, q: string, lower: string -> string)
    ensures var at, window := FindText(lower(text), q), Snippet(text, q, lower);
            if at.None? || at.value <= 40 then window == text[..Min(80, |text|)]
            else window == text[Min(at.value - 40, |text|)..Min(at.value + 40, |text|)]
  {}

  function KeywordScore(p: StoredPage, q: string, lower: string -> string): real
    requires q != ""
  {
    1.0 * CountText(lower(p.title), q) as real + 2.0 * CountText(lower(p.truth), q) as real
  }

  // ----- Ordering -----

  /** Python's stable `sort(key=..., reverse=True)`. */
  function SortDesc<T>(s: seq<T>, score: T -> real): seq<T> {
    if s == [] then [] else Inserted(SortDesc(s[..|s| - 1], score), s[|s| - 1], score)
  }

  /** `x` put behind everything that scores at least as much. */
  function Inserted<T>(s: seq<T>, x: T, score: T -> real): seq<T> {
    if s == [] || score(s[|s| - 1]) >= score(x) then s + [x]
    else Inserted(s[..|s| - 1], x, score) + [s[|s| - 1]]
  }

  predicate Descending<T>(s: seq<T>, score: T -> real) {
    forall i, j :: 0 <= i < j < |s| ==> score(s[i]) >= score(s[j])
  }

  lemma {:induction false} InsertedElements<T>(s: seq<T>, x: T, score: T -> real)
    ensures multiset(Inserted(s, x, score)) == multiset(s) + multiset{x}
  {
    if s != [] && score(s[|s| - 1]) < score(x) {
      InsertedElements(s[..|s| - 1], x, score);
      MultisetFront(s);
    }
  }

  lemma {:induction false} InsertedSorted<T>(s: seq<T>, x: T, score: T -> real)
    requires Descending(s, score)
    ensures Descending(Inserted(s, x, score), score)
  {
    if s != [] && score(s[|s| - 1]) < score(x) {
      var n := |s| - 1;
      InsertedSorted(s[..n], x, score);
      InsertedElements(s[..n], x, score);
      var front := Inserted(s[..n], x, score);
      forall i | 0 <= i < |front|
        ensures score(front[i]) >= score(s[n])
      {
        assert front[i] in multiset(front);
        assert front[i] in multiset(s[..n]) || front[i] == x;
        if front[i] in multiset(s[..n]) {
          var j :| 0 <= j < n && s[..n][j] == front[i];
          assert score(s[j]) >= score(s[n]);
        }
      }
    }
  }

  /** Elements of one score keep their order. */
  lemma {:induction false} InsertedStable<T>(s: seq<T>, x: T, score: T -> real, c: real)
    ensures Filter(Inserted(s, x, score), (y: T) => score(y) == c) ==
            Filter(s, (y: T) => score(y) == c) + if score(x) == c then [x] else []
  {
    var same := (y: T) => score(y) == c;
    if s == [] || score(s[|s| - 1]) >= score(x) {
      FilterSnoc(s, x, same);
    } else {
      var n := |s| - 1;
      InsertedStable(s[..n], x, score, c);
      FilterSnoc(Inserted(s[..n], x, score), s[n], same);
      var front := Filter(s[..n], same);
      assert (front + []) + [s[n]] == (front + [s[n]]) + [] && (front + [x]) + [] == (front + []) + [x];
    }
  }

  lemma {:induction false} SortedElements<T>(s: seq<T>, score: T -> real)
    ensures multiset(SortDesc(s, score)) == multiset(s)
  {
    if s != [] {
      SortedElements(s[..|s| - 1], score);
      InsertedElements(SortDesc(s[..|s| - 1], score), s[|s| - 1], score);
      MultisetFront(s);
    }
  }

  lemma {:induction false} SortedDescends<T>(s: seq<T>, score: T -> real)
    ensures Descending(SortDesc(s, score), score)
  {
    if s != [] {
      SortedDescends(s[..|s| - 1], score);
      InsertedSorted(SortDesc(s[..|s| - 1], score), s[|s| - 1], score);
    }
  }

  lemma {:induction false} SortedStable<T>(s: seq<T>, score: T -> real, c: real)
    ensures Filter(SortDesc(s, score), (y: T) => score(y) == c) == Filter(s, (y: T) => score(y) == c)
  {
    if s != [] {
      SortedStable(s[..|s| - 1], score, c);
      InsertedStable(SortDesc(s[..|s| - 1], score), s[|s| - 1], score, c);
    }
  }

  /** The sort is a descending rearrangement that keeps the order of equals: the one Python promises. */
  lemma SortDescMeans<T>(s: seq<T>, score: T -> real, c: real)
    ensures Descending(SortDesc(s, score), score)
    ensures multiset(SortDesc(s, score)) == multiset(s)
    ensures Filter(SortDesc(s, score), (y: T) => score(y) == c) == Filter(s, (y: T) => score(y) == c)
  {
    SortedDescends(s, score);
    SortedElements(s, score);
    SortedStable(s, score, c);
  }

  /** `s[:limit]`, a negative limit counting from the end. */
  function Take<T>(s: seq<T>, limit: int): (r: seq<T>)
    ensures r <= s
    ensures limit >= 0 ==> |r| == if limit <= |s| then limit else |s|
    ensures limit < 0 ==> |r| == if -limit <= |s| then |s| + limit else 0
  {
    var n := if limit >= 0 then limit else |s| + limit;
    if n >= |s| then s else if n <= 0 then [] else s[..n]
  }

  // ----- What the two searches answer -----

  function HitOf(key: PageKey, p: StoredPage, score: real, q: string, lower: string -> string): Hit {
    Hit(key.slug, key.plane, key.employee, score, Snippet(p.truth, q, lower))
  }

  function KeywordHits(shown: Pages, q: string, lower: string -> string): seq<Hit>
    requires q != ""
  {
    if shown == [] then []
    else
      var (key, p) := shown[|shown| - 1];
      var score := KeywordScore(p, q, lower);
      KeywordHits(shown[..|shown| - 1], q, lower) + if score > 0.0 then [HitOf(key, p, score, q, lower)] else []
  }

  function SearchAnswer(pages: Pages, tools: Tools, text: string, ask: Ask): Result<seq<Hit>, SearchError> {
    var q := tools.lower(Strip(text));
    if !ValidFilter(ask) then Err(BadFilter)
    else if q == "" then Ok([])
    else Ok(Take(SortDesc(KeywordHits(Shown(pages, ask), q, tools.lower), (h: Hit) => h.score), ask.limit))
  }

  function KeywordScored(shown: Pages, q: string, lower: string -> string): seq<(PageKey, real)>
    requires q != ""
  {
    if shown == [] then []
    else
      var (key, p) := shown[|shown| - 1];
      var score := KeywordScore(p, q, lower);
      KeywordScored(shown[..|shown| - 1], q, lower) + if score > 0.0 then [(key, score)] else []
  }

  function Keys<V>(s: seq<(PageKey, V)>): seq<PageKey> {
    seq(|s|, i requires 0 <= i < |s| => s[i].0)
  }

  function Ranked(s: seq<(PageKey, real)>): seq<(PageKey, real)> {
    SortDesc(s, (e: (PageKey, real)) => e.1)
  }

  function ShownEmbeddings(embeddings: Embeddings, shown: Pages): Embeddings {
    Filter(embeddings, (e: (PageKey, Vector)) => e.0 in Keys(shown))
  }

  function Similarities(embeddings: Embeddings, query: Vector, cosine: (Vector, Vector) -> real): seq<(PageKey, real)> {
    seq(|embeddings|, i requires 0 <= i < |embeddings| => (embeddings[i].0, cosine(query, embeddings[i].1)))
  }

  /** The vector pass; empty when there is no embedder or nothing to compare. */
  function VectorScored(embeddings: Embeddings, shown: Pages, tools: Tools, question: string): seq<(PageKey, real)> {
    if tools.embed.None? || shown == [] then []
    else Ranked(Similarities(ShownEmbeddings(embeddings, shown), tools.embed.value(question), tools.cosine))
  }

  function NonEmpty(a: seq<PageKey>, b: seq<PageKey>): seq<seq<PageKey>> {
    (if a != [] then [a] else []) + if b != [] then [b] else []
  }

  /** A dictionary's value: the last one set for the key. */
  function ValueOf<V>(s: seq<(PageKey, V)>, key: PageKey, fallback: V): V {
    if s == [] then fallback
    else if s[|s| - 1].0 == key then s[|s| - 1].1
    else ValueOf(s[..|s| - 1], key, fallback)
  }

  function Boosted(score: real, p: StoredPage, q: string, lower: string -> string): real
    requires q != ""
  {
    if FindText(lower(p.truth), q).Some? then score * COMPILED_TRUTH_BOOST else score
  }

  function Blended(score: real, vectors: seq<(PageKey, real)>, key: PageKey): real {
    if vectors == [] then score
    else VECTOR_RRF_BLEND * score + (1.0 - VECTOR_RRF_BLEND) * ValueOf(vectors, key, 0.0)
  }

  /** What one page scores in the hybrid search. */
  function FinalScore(lists: seq<seq<PageKey>>, vectors: seq<(PageKey, real)>, shown: Pages, q: string,
                      lower: string -> string, key: PageKey): real
    requires q != ""
  {
    Blended(Boosted(FusedScore(lists, key, RRF_K), ValueOf(shown, key, NO_PAGE), q, lower), vectors, key)
  }

  function FusedHits(order: seq<PageKey>, lists: seq<seq<PageKey>>, vectors: seq<(PageKey, real)>, shown: Pages,
                     q: string,
                     lower: string -> string): seq<Hit>
    requires q != ""
  {
    seq(|order|, i requires 0 <= i < |order| =>
      HitOf(order[i], ValueOf(shown, order[i], NO_PAGE), FinalScore(lists, vectors, shown, q, lower, order[i]), q,
            lower))
  }

  /** The rankings that get fused: keyword first, then vector, without the empty ones. */
  function RankedLists(shown: Pages, vectors: seq<(PageKey, real)>, q: string,
                       lower: string -> string): seq<seq<PageKey>>
    requires q != ""
  {
    NonEmpty(Keys(Ranked(KeywordScored(shown, q, lower))), Keys(vectors))
  }

  function QueryShown(shown: Pages, embeddings: Embeddings, tools: Tools, question: string, q: string,
                      limit: int): seq<Hit>
    requires q != ""
  {
    var vectors := VectorScored(embeddings, shown, tools, question);
    var lists := RankedLists(shown, vectors, q, tools.lower);
    var hits := FusedHits(FirstMentions(Flatten(lists)), lists, vectors, shown, q, tools.lower);
    Take(SortDesc(hits, (h: Hit) => h.score), limit)
  }

  function QueryAnswer(pages: Pages, embeddings: Embeddings, tools: Tools, question: string,
                       ask: Ask): Result<seq<Hit>, SearchError>
  {
    var q := tools.lower(Strip(question));
    if !ValidFilter(ask) then Err(BadFilter)
    else if q == "" then Ok([])
    else Ok(QueryShown(Shown(pages, ask), embeddings, tools, question, q, ask.limit))
  }

  // ----- Only visible pages matter -----

  /** Both searches answer from the whole engine what they would answer if the pages outside the plane, the tier floor
      and the viewer's rights, and their embeddings, did not exist: nothing about a hidden page reaches a rank, a score,
      a tie or a cut-off. */
  lemma SearchSeesOnlyVisible(pages: Pages, embeddings: Embeddings, tools: Tools, text: string, ask: Ask)
    ensures SearchAnswer(pages, tools, text, ask) == SearchAnswer(Shown(pages, ask), tools, text, ask)
    ensures QueryAnswer(pages, embeddings, tools, text, ask) ==
            QueryAnswer(Shown(pages, ask), ShownEmbeddings(embeddings, Shown(pages, ask)), tools, text, ask)
  {
    FilterIdempotent(pages, (e: (PageKey, StoredPage)) => Visible(e.0, e.1, ask));
    FilterIdempotent(embeddings, (e: (PageKey, Vector)) => e.0 in Keys(Shown(pages, ask)));
  }
}
