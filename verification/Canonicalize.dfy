/** Report canonicalization: entity names replaced by the ids the resolver issues for their identifiers. Running it on
    its own output changes nothing, in the report or in the resolver. */
module Canonicalize {
  import opened Common
  import opened Extraction
  import opened Identity

  datatype Report = Report(source: string, sourceId: string, employee: Option<string>, extractedAt: int,
                           facts: seq<Fact>)

  function LowerChar(c: char): char {
    if 'A' <= c <= 'Z' then (c as int + 32) as char else c
  }

  function Lower(s: string): string {
    seq(|s|, i requires 0 <= i < |s| => LowerChar(s[i]))
  }

  /** `_resolver_entity_kind`: no character outside ASCII lowers into one of these words. */
  function ResolverKind(entityType: string): EntityKind {
    if Lower(entityType) in {"organization", "company", "firm", "org"} then Organization else Person
  }

  /** The same word, letter by letter, a capital standing for its small letter. */
  predicate SameWord(s: string, word: string) {
    |s| == |word| && forall i :: 0 <= i < |s| ==>
      s[i] == word[i] || ('A' <= s[i] <= 'Z' && s[i] as int + 32 == word[i] as int)
  }

  lemma LowerSameWord(s: string, word: string)
    requires forall i :: 0 <= i < |word| ==> 'a' <= word[i] <= 'z'
    ensures Lower(s) == word <==> SameWord(s, word)
  {
    if Lower(s) == word {
      assert forall i :: 0 <= i < |s| ==> Lower(s)[i] == LowerChar(s[i]);
    }
    if SameWord(s, word) {
      assert forall i :: 0 <= i < |s| ==> Lower(s)[i] == word[i];
    }
  }

  /** An organization is what the report calls so, in one of four words and in any case; everything else is a person. */
  lemma ResolverKindMeans(entityType: string)
    ensures ResolverKind(entityType) == Organization <==>
            || SameWord(entityType, "organization") || SameWord(entityType, "company")
            || SameWord(entityType, "firm") || SameWord(entityType, "org")
  {
    LowerSameWord(entityType, "organization");
    LowerSameWord(entityType, "company");
    LowerSameWord(entityType, "firm");
    LowerSameWord(entityType, "org");
  }

  predicate Resolvable(fact: Fact) {
    fact.IdentityFact? && fact.identifiers != []
  }

  function IdentifierSet(fact: Fact): set<string>
    requires fact.IdentityFact?
  {
    set i | 0 <= i < |fact.identifiers| :: fact.identifiers[i]
  }

  function CallFor(fact: Fact, minted: string): Call
    requires fact.IdentityFact?
  {
    var name := if "canonical_name" in fact.properties && fact.properties["canonical_name"] != ""
                then fact.properties["canonical_name"] else fact.name;
    Call(IdentifierSet(fact), ResolverKind(fact.entityType), name, minted)
  }

  type NameMap = map<string, string>

  /** One turn of the naming loop. */
  ghost function NameNext(r: Registry, names: NameMap, fact: Fact, mint: string):
    (Registry, Result<NameMap, ResolveError>)
  {
    if !Resolvable(fact) || fact.name in names then (r, Ok(names))
    else
      var call := CallFor(fact, mint);
      var answer := Answer(r, call);
      (Resolved(r, call), if answer.Err? then Err(answer.error) else Ok(names[fact.name := answer.value]))
  }

  /** The resolver after the naming loop, and the loop's name map or the error that stopped it. `mints[i]` is the random
      id that fact i would create. */
  ghost function Named(r: Registry, facts: seq<Fact>, mints: seq<string>): (Registry, Result<NameMap, ResolveError>)
    requires |mints| == |facts|
  {
    if facts == [] then (r, Ok(map[]))
    else
      var n := |facts| - 1;
      var (r', front) := Named(r, facts[..n], mints[..n]);
      if front.Err? then (r', front) else NameNext(r', front.value, facts[n], mints[n])
  }

  /** A resolvable fact with a new name and identifiers nobody has bound creates one identity under the minted id, of
      the fact's kind, under its canonical name if it has one and else under its own. */
  lemma NewIdentity(r: Registry, names: NameMap, fact: Fact, mint: string)
    requires fact.IdentityFact? && fact.identifiers != [] && fact.name !in names && mint !in r.identities
    requires forall i :: 0 <= i < |fact.identifiers| ==>
               WellFormed(fact.identifiers[i]) && fact.identifiers[i] !in r.bindings
    ensures var (r', names') := NameNext(r, names, fact, mint);
            var given := if "canonical_name" in fact.properties then fact.properties["canonical_name"] else "";
            && names' == Ok(names[fact.name := mint])
            && r'.identities == r.identities[mint := IdentityRecord(ResolverKind(fact.entityType),
                                                                    if given != "" then given else fact.name)]
            && forall i :: 0 <= i < |fact.identifiers| ==>
                 fact.identifiers[i] in r'.bindings && r'.bindings[fact.identifiers[i]] == mint
  {
    var ids := IdentifierSet(fact);
    assert fact.identifiers[0] in ids;
    assert Matched(r.bindings, ids) == {};
    forall i | 0 <= i < |fact.identifiers|
      ensures fact.identifiers[i] in ids
    {}
  }

  function NewName(name: string, names: NameMap): string {
    if name in names then names[name] else name
  }

  function Rewritten(fact: Fact, names: NameMap): Fact {
    match fact
    case IdentityFact(q, c, name, entityType, properties, identifiers) =>
      IdentityFact(q, c, NewName(name, names), entityType, properties, identifiers)
    case RelationshipFact(q, c, s, p, o) => RelationshipFact(q, c, NewName(s, names), p, NewName(o, names))
    case PreferenceFact(q, c, s, preference) => PreferenceFact(q, c, NewName(s, names), preference)
    case EventFact(q, c, name, date, d) => EventFact(q, c, NewName(name, names), date, d)
    case UpdateFact(q, c, s, p, o, prior, date) => UpdateFact(q, c, NewName(s, names), p, o, prior, date)
    case OpenQuestion(_, _, _, _) => fact
  }

  function RewrittenFacts(facts: seq<Fact>, names: NameMap): seq<Fact> {
    seq(|facts|, i requires 0 <= i < |facts| => Rewritten(facts[i], names))
  }

  ghost function Canonical(r: Registry, report: Report, mints: seq<string>): (Registry, Result<Report, ResolveError>)
    requires |mints| == |report.facts|
  {
    var (r', names) := Named(r, report.facts, mints);
    (r', if names.Err? then Err(names.error) else Ok(report.(facts := RewrittenFacts(report.facts, names.value))))
  }

  /** One turn of the naming loop. */
  method NameEntity(fact: Fact, names: NameMap, resolver: LocalIdentityResolver, mint: string)
    returns (r: Result<NameMap, ResolveError>)
    modifies resolver
    ensures NameNext(old(resolver.State()), names, fact, mint) == (resolver.State(), r)
  {
    if !fact.IdentityFact? || fact.identifiers == [] || fact.name in names {
      return Ok(names);
    }
    var id := resolver.Resolve(CallFor(fact, mint));
    if id.Err? {
      return Err(id.error);
    }
    return Ok(names[fact.name := id.value]);
  }

  method NameEntities(facts: seq<Fact>, resolver: LocalIdentityResolver, mints: seq<string>)
    returns (r: Result<NameMap, ResolveError>)
    requires |mints| == |facts|
    modifies resolver
    ensures Named(old(resolver.State()), facts, mints) == (resolver.State(), r)
  {
    ghost var start := resolver.State();
    var names: NameMap := map[];
    for i := 0 to |facts|
      invariant Named(start, facts[..i], mints[..i]) == (resolver.State(), Ok(names))
    {
      NamedSlice(start, facts, mints, i);
      var named := NameEntity(facts[i], names, resolver, mints[i]);
      if named.Err? {
        ErrorStops(start, facts, mints, i + 1);
        return named;
      }
      names := named.value;
    }
    assert facts[..|facts|] == facts && mints[..|facts|] == mints;
    return Ok(names);
  }

  method CanonicalizeReport(report: Report, resolver: LocalIdentityResolver, mints: seq<string>)
    returns (r: Result<Report, ResolveError>)
    requires |mints| == |report.facts|
    modifies resolver
    ensures Canonical(old(resolver.State()), report, mints) == (resolver.State(), r)
  {
    var facts := report.facts;
    var named := NameEntities(facts, resolver, mints);
    if named.Err? {
      return Err(named.error);
    }
    var names := named.value;
    if names == map[] {
      assert RewrittenFacts(facts, names) == facts;
      return Ok(report);
    }
    var rewritten := [];
    for i := 0 to |facts|
      invariant rewritten == RewrittenFacts(facts[..i], names)
    {
      rewritten := rewritten + [Rewritten(facts[i], names)];
    }
    assert facts[..|facts|] == facts;
    return Ok(report.(facts := rewritten));
  }

  lemma {:induction false} ErrorStops(r: Registry, facts: seq<Fact>, mints: seq<string>, k: nat)
    requires |mints| == |facts| && k <= |facts| && Named(r, facts[..k], mints[..k]).1.Err?
    ensures Named(r, facts, mints) == Named(r, facts[..k], mints[..k])
    decreases |facts| - k
  {
    if k == |facts| {
      assert facts[..k] == facts && mints[..k] == mints;
    } else {
      assert facts[..k + 1][..k] == facts[..k] && mints[..k + 1][..k] == mints[..k];
      ErrorStops(r, facts, mints, k + 1);
    }
  }

  // ----- What the naming loop establishes -----

  ghost predicate Extends(later: Registry, r: Registry) {
    forall i :: i in r.bindings ==> i in later.bindings && later.bindings[i] == r.bindings[i]
  }

  predicate FirstOfName(facts: seq<Fact>, i: nat)
    requires i < |facts| && Resolvable(facts[i])
  {
    forall j :: 0 <= j < i && Resolvable(facts[j]) ==> facts[j].name != facts[i].name
  }

  /** The identifiers are well formed and all bound to this id. */
  ghost predicate Settled(bindings: map<string, string>, identifiers: set<string>, id: string) {
    AllBound(bindings, identifiers, id) && forall i :: i in identifiers ==> WellFormed(i)
  }

  /** Every resolvable fact is named, and the first one of each name has all its identifiers bound to the name's id. */
  ghost predicate NamedBy(bindings: map<string, string>, facts: seq<Fact>, names: NameMap) {
    forall i :: 0 <= i < |facts| && Resolvable(facts[i]) ==>
                  && facts[i].name in names
                  && (FirstOfName(facts, i) ==> Settled(bindings, IdentifierSet(facts[i]), names[facts[i].name]))
  }

  predicate Identified(facts: seq<Fact>, name: string) {
    exists i :: 0 <= i < |facts| && Resolvable(facts[i]) && facts[i].name == name
  }

  /** Only names of resolvable facts are in the map. */
  ghost predicate OnlyIdentified(facts: seq<Fact>, names: NameMap) {
    forall name :: name in names ==> Identified(facts, name)
  }

  lemma {:induction false} NamingBinds(r: Registry, facts: seq<Fact>, mints: seq<string>)
    requires |mints| == |facts| && Named(r, facts, mints).1.Ok?
    ensures NamedBy(Named(r, facts, mints).0.bindings, facts, Named(r, facts, mints).1.value)
    ensures OnlyIdentified(facts, Named(r, facts, mints).1.value)
  {
    if facts != [] {
      var n := |facts| - 1;
      NamingBinds(r, facts[..n], mints[..n]);
      var (r0, names0) := Named(r, facts[..n], mints[..n]);
      NameNextBinds(r0, facts, names0.value, mints[n]);
      NameNextIdentified(r0, facts, names0.value, mints[n]);
    }
  }

  /** A turn that issues a name binds the fact's identifiers to it, and keeps every older binding. */
  lemma FreshNameSettles(r: Registry, names: NameMap, fact: Fact, mint: string)
    requires Resolvable(fact) && fact.name !in names && NameNext(r, names, fact, mint).1.Ok?
    ensures var (r', names') := NameNext(r, names, fact, mint);
            && Settled(r'.bindings, IdentifierSet(fact), names'.value[fact.name])
            && forall i :: i in r.bindings ==> i in r'.bindings && r'.bindings[i] == r.bindings[i]
  {
    var m := AnswerIsShared(r, CallFor(fact, mint));
  }

  lemma NameNextBinds(r: Registry, facts: seq<Fact>, names: NameMap, mint: string)
    requires facts != [] && NamedBy(r.bindings, facts[..|facts| - 1], names)
    requires OnlyIdentified(facts[..|facts| - 1], names)
    requires NameNext(r, names, facts[|facts| - 1], mint).1.Ok?
    ensures var (r', names') := NameNext(r, names, facts[|facts| - 1], mint); NamedBy(r'.bindings, facts, names'.value)
  {
    var n := |facts| - 1;
    var (r', names') := NameNext(r, names, facts[n], mint);
    if Resolvable(facts[n]) && facts[n].name !in names {
      FreshNameSettles(r, names, facts[n], mint);
      NamedGrows(r.bindings, r'.bindings, facts[..n], names, names'.value);
    } else if Resolvable(facts[n]) {
      NotFirst(facts, names);
    }
    NamedSnoc(r'.bindings, facts, names'.value);
  }

  lemma NotFirst(facts: seq<Fact>, names: NameMap)
    requires facts != [] && OnlyIdentified(facts[..|facts| - 1], names)
    requires Resolvable(facts[|facts| - 1]) && facts[|facts| - 1].name in names
    ensures !FirstOfName(facts, |facts| - 1)
  {
    var n := |facts| - 1;
    assert Identified(facts[..n], facts[n].name);
    var i :| 0 <= i < n && Resolvable(facts[..n][i]) && facts[..n][i].name == facts[n].name;
    assert facts[i].name == facts[n].name;
  }

  lemma NameNextIdentified(r: Registry, facts: seq<Fact>, names: NameMap, mint: string)
    requires facts != [] && OnlyIdentified(facts[..|facts| - 1], names)
    requires NameNext(r, names, facts[|facts| - 1], mint).1.Ok?
    ensures OnlyIdentified(facts, NameNext(r, names, facts[|facts| - 1], mint).1.value)
  {
    var n := |facts| - 1;
    var names' := NameNext(r, names, facts[n], mint).1.value;
    forall name | name in names'
      ensures Identified(facts, name)
    {
      if name in names {
        var i :| 0 <= i < n && Resolvable(facts[..n][i]) && facts[..n][i].name == name;
        assert facts[i].name == name;
      } else {
        assert facts[n].name == name;
      }
    }
  }

  lemma NamedGrows(before: map<string, string>, after: map<string, string>, facts: seq<Fact>, names: NameMap,
                   names': NameMap)
    requires NamedBy(before, facts, names)
    requires forall i :: i in before ==> i in after && after[i] == before[i]
    requires forall name :: name in names ==> name in names' && names'[name] == names[name]
    ensures NamedBy(after, facts, names')
  {
    forall i | 0 <= i < |facts| && Resolvable(facts[i]) && FirstOfName(facts, i)
      ensures Settled(after, IdentifierSet(facts[i]), names'[facts[i].name])
    {
      assert Settled(before, IdentifierSet(facts[i]), names[facts[i].name]);
    }
  }

  lemma NamedSnoc(bindings: map<string, string>, facts: seq<Fact>, names: NameMap)
    requires facts != [] && NamedBy(bindings, facts[..|facts| - 1], names)
    requires var n := |facts| - 1;
             Resolvable(facts[n]) ==>
               facts[n].name in names &&
               (FirstOfName(facts, n) ==> Settled(bindings, IdentifierSet(facts[n]), names[facts[n].name]))
    ensures NamedBy(bindings, facts, names)
  {
    var front := facts[..|facts| - 1];
    forall i | 0 <= i < |front| && Resolvable(facts[i])
      ensures facts[i].name in names
      ensures FirstOfName(facts, i) ==> Settled(bindings, IdentifierSet(facts[i]), names[facts[i].name])
    {
      assert Resolvable(front[i]);
      if FirstOfName(facts, i) {
        assert FirstOfName(front, i);
      }
    }
  }

  // ----- What the canonical report says -----

  /** The entity names a fact mentions, in order. */
  function Mentions(fact: Fact): seq<string> {
    match fact
    case IdentityFact(_, _, name, _, _, _) => [name]
    case RelationshipFact(_, _, s, _, o) => [s, o]
    case PreferenceFact(_, _, s, _) => [s]
    case EventFact(_, _, name, _, _) => [name]
    case UpdateFact(_, _, s, _, _, _, _) => [s]
    case OpenQuestion(_, _, _, _) => []
  }

  /** Everything a fact says apart from the names it mentions. */
  function Anonymous(fact: Fact): Fact {
    match fact
    case IdentityFact(q, c, _, entityType, properties, identifiers) =>
        IdentityFact(q, c, "", entityType, properties, identifiers)
    case RelationshipFact(q, c, _, p, _) => RelationshipFact(q, c, "", p, "")
    case PreferenceFact(q, c, _, preference) => PreferenceFact(q, c, "", preference)
    case EventFact(q, c, _, date, d) => EventFact(q, c, "", date, d)
    case UpdateFact(q, c, _, p, o, prior, date) => UpdateFact(q, c, "", p, o, prior, date)
    case OpenQuestion(_, _, _, _) => fact
  }

  lemma RewrittenMentions(fact: Fact, names: NameMap)
    ensures |Mentions(Rewritten(fact, names))| == |Mentions(fact)|
            && Anonymous(Rewritten(fact, names)) == Anonymous(fact)
    ensures forall m :: 0 <= m < |Mentions(fact)| ==>
              Mentions(Rewritten(fact, names))[m] == NewName(Mentions(fact)[m], names)
  {}

  /** A canonical report says what the raw one said, fact by fact, with each mention of an entity that carries
      identifiers replaced by the identity the resolver now binds those identifiers to (those of the first fact that
      names the entity), and every other mention left as it was. */
  lemma CanonicalNamesAreIdentities(r: Registry, report: Report, mints: seq<string>, k: nat, m: nat)
    requires |mints| == |report.facts| && Canonical(r, report, mints).1.Ok?
    requires k < |report.facts| && m < |Mentions(report.facts[k])|
    ensures var (r', out) := Canonical(r, report, mints);
            var facts, name := report.facts, Mentions(report.facts[k])[m];
            && |out.value.facts| == |facts| && |Mentions(out.value.facts[k])| == |Mentions(facts[k])|
            && Anonymous(out.value.facts[k]) == Anonymous(facts[k])
            && (!Identified(facts, name) ==> Mentions(out.value.facts[k])[m] == name)
            && forall i ::
                 0 <= i < |facts| && Resolvable(facts[i]) && facts[i].name == name && FirstOfName(facts, i) ==>
                 AllBound(r'.bindings, IdentifierSet(facts[i]), Mentions(out.value.facts[k])[m])
  {
    var facts := report.facts;
    NamingBinds(r, facts, mints);
    var (r', named) := Named(r, facts, mints);
    RewrittenMentions(facts[k], named.value);
    var name := Mentions(facts[k])[m];
    forall i | 0 <= i < |facts| && Resolvable(facts[i]) && facts[i].name == name && FirstOfName(facts, i)
      ensures AllBound(r'.bindings, IdentifierSet(facts[i]), NewName(name, named.value))
    {
      assert Settled(r'.bindings, IdentifierSet(facts[i]), named.value[name]);
    }
  }

  // ----- Idempotence -----

  /** Asking about identifiers that are all bound to one identity returns it and leaves the resolver as it is. */
  lemma BoundCallIsNoop(r: Registry, call: Call, id: string)
    requires call.identifiers != {} && Settled(r.bindings, call.identifiers, id)
    ensures Answer(r, call) == Ok(id) && Resolved(r, call) == r
  {
    var some :| some in call.identifiers;
    assert Matched(r.bindings, call.identifiers) == {id} by {
      assert r.bindings[some] == id;
    }
    assert BoundTo(r.bindings, id, call.identifiers) == r.bindings;
  }

  ghost predicate IdentityMap(names: NameMap) {
    forall name :: name in names ==> names[name] == name
  }

  /** A turn of the loop on a fact whose name is already the identity of its identifiers. */
  lemma NameSettled(r: Registry, names: NameMap, fact: Fact, mint: string)
    requires IdentityMap(names)
    requires Resolvable(fact) && fact.name !in names ==> Settled(r.bindings, IdentifierSet(fact), fact.name)
    ensures NameNext(r, names, fact, mint).0 == r && NameNext(r, names, fact, mint).1.Ok?
    ensures var names' := NameNext(r, names, fact, mint).1.value;
            IdentityMap(names') && names.Keys <= names'.Keys && (Resolvable(fact) ==> fact.name in names')
  {
    if Resolvable(fact) && fact.name !in names {
      assert fact.identifiers[0] in IdentifierSet(fact);
      BoundCallIsNoop(r, CallFor(fact, mint), fact.name);
    }
  }

  /** The names that the second pass over the first k facts has seen. */
  ghost predicate Seen(out: seq<Fact>, k: nat, names: NameMap)
    requires k <= |out|
  {
    forall i :: 0 <= i < k && Resolvable(out[i]) ==> out[i].name in names
  }

  /** The first fact of its new name is the first of its old name too, so its identifiers carry the new name. */
  lemma FirstIsSettled(bindings: map<string, string>, facts: seq<Fact>, names: NameMap, n: nat, again: NameMap)
    requires n < |facts| && NamedBy(bindings, facts, names)
    requires Seen(RewrittenFacts(facts, names), n, again)
    requires Resolvable(facts[n]) && Rewritten(facts[n], names).name !in again
    ensures Settled(bindings, IdentifierSet(facts[n]), Rewritten(facts[n], names).name)
  {
    var out := RewrittenFacts(facts, names);
    forall j | 0 <= j < n && Resolvable(facts[j])
      ensures facts[j].name != facts[n].name
    {
      assert Resolvable(out[j]) && out[j].name in again;
    }
    assert FirstOfName(facts, n);
  }

  lemma SecondNext(later: Registry, facts: seq<Fact>, names: NameMap, n: nat, again: NameMap, mint: string)
    requires n < |facts| && NamedBy(later.bindings, facts, names)
    requires IdentityMap(again) && Seen(RewrittenFacts(facts, names), n, again)
    ensures var out := RewrittenFacts(facts, names);
            var (r', again') := NameNext(later, again, out[n], mint);
            r' == later && again'.Ok? && IdentityMap(again'.value) && Seen(out, n + 1, again'.value)
  {
    var fact := Rewritten(facts[n], names);
    if Resolvable(fact) && fact.name !in again {
      FirstIsSettled(later.bindings, facts, names, n, again);
      assert IdentifierSet(fact) == IdentifierSet(facts[n]);
    }
    NameSettled(later, again, fact, mint);
  }

  lemma NamedSlice(r: Registry, facts: seq<Fact>, mints: seq<string>, k: nat)
    requires k < |facts| == |mints| && Named(r, facts[..k], mints[..k]).1.Ok?
    ensures Named(r, facts[..k + 1], mints[..k + 1]) ==
            var (r', names) := Named(r, facts[..k], mints[..k]); NameNext(r', names.value, facts[k], mints[k])
  {
    assert facts[..k + 1][..k] == facts[..k] && mints[..k + 1][..k] == mints[..k];
  }

  /** Over the first k facts of a canonical report, the naming loop leaves the resolver alone and names each entity as
      it is already named. */
  lemma {:induction false} SecondNaming(later: Registry, facts: seq<Fact>, names: NameMap, mints: seq<string>, k: nat)
    requires k <= |facts| == |mints| && NamedBy(later.bindings, facts, names)
    ensures var out := RewrittenFacts(facts, names);
            var (r', again) := Named(later, out[..k], mints[..k]);
            r' == later && again.Ok? && IdentityMap(again.value) && Seen(out, k, again.value)
  {
    if k > 0 {
      var n := k - 1;
      SecondNaming(later, facts, names, mints, n);
      var out := RewrittenFacts(facts, names);
      NamedSlice(later, out, mints, n);
      SecondNext(later, facts, names, n, Named(later, out[..n], mints[..n]).1.value, mints[n]);
    }
  }

  /** A report that was canonicalized once is a fixed point: canonicalizing the result again, with this resolver or with
      any later state of it, returns it unchanged and leaves the resolver unchanged, also when several names resolved to
      one id and when a raw name happened to equal an issued id. */
  lemma CanonicalizationIsIdempotent(r: Registry, report: Report, mints: seq<string>, later: Registry,
                                     mints': seq<string>)
    requires |mints| == |report.facts| == |mints'| && Canonical(r, report, mints).1.Ok?
    requires Extends(later, Canonical(r, report, mints).0)
    ensures Canonical(later, Canonical(r, report, mints).1.value, mints') == (later, Canonical(r, report, mints).1)
  {
    var (r1, names) := Named(r, report.facts, mints);
    NamingBinds(r, report.facts, mints);
    NamedGrows(r1.bindings, later.bindings, report.facts, names.value, names.value);
    CanonicalFactsAreFixed(later, report.facts, names.value, mints');
  }

  lemma CanonicalFactsAreFixed(later: Registry, facts: seq<Fact>, names: NameMap, mints: seq<string>)
    requires |facts| == |mints| && NamedBy(later.bindings, facts, names)
    ensures var out := RewrittenFacts(facts, names);
            var (r', again) := Named(later, out, mints);
            r' == later && again.Ok? && RewrittenFacts(out, again.value) == out
  {
    var out := RewrittenFacts(facts, names);
    SecondNaming(later, facts, names, mints, |mints|);
    assert out[..|mints|] == out && mints[..|mints|] == mints;
    var again := Named(later, out, mints).1.value;
    forall i | 0 <= i < |out|
      ensures Rewritten(out[i], again) == out[i]
    {}
    assert RewrittenFacts(out, again) == out;
  }
}
