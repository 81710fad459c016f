/** The local identity resolver: one table of bindings from typed identifiers to identities, never rebound. It behaves
    as a partition: two identifiers share an identity exactly when successful calls link them. */
module Identity {
  import opened Common

  datatype EntityKind = Person | Organization

  datatype IdentityRecord = IdentityRecord(kind: EntityKind, canonicalName: string)

  datatype Registry = Registry(identities: map<string, IdentityRecord>, bindings: map<string, string>)

  const EMPTY_REGISTRY := Registry(map[], map[])

  datatype ResolveError = NoIdentifiers | Malformed | IdentityConflict(ids: set<string>) | IdTaken

  /** `parse_identifier` accepts it: a first colon with something other than blanks on both sides. */
  predicate WellFormed(identifier: string) {
    var c := FirstColon(identifier);
    c < |identifier| && !Blank(identifier[..c]) && !Blank(identifier[c + 1..])
  }

  function FirstColon(s: string): (c: nat)
    ensures c <= |s| && (c < |s| ==> s[c] == ':') && forall i :: 0 <= i < c ==> s[i] != ':'
  {
    if s == "" || s[0] == ':' then 0 else 1 + FirstColon(s[1..])
  }

  lemma BlankPart(s: string, lo: nat, hi: nat)
    requires lo <= hi <= |s|
    ensures Blank(s[lo..hi]) <==> forall i :: lo <= i < hi ==> IsSpace(s[i])
  {
    forall i | lo <= i < hi
      ensures s[i] == s[lo..hi][i - lo]
    {}
  }

  /** A colon, of which the first has something other than blanks before it and something other than blanks behind. */
  lemma WellFormedExact(identifier: string)
    ensures WellFormed(identifier) <==>
            exists a, c, b :: 0 <= a < c < b < |identifier| && identifier[c] == ':' &&
                              !IsSpace(identifier[a]) && !IsSpace(identifier[b]) &&
                              forall i :: 0 <= i < c ==> identifier[i] != ':'
  {
    var c := FirstColon(identifier);
    assert identifier[..c] == identifier[0..c];
    BlankPart(identifier, 0, c);
    if c < |identifier| {
      assert identifier[c + 1..] == identifier[c + 1..|identifier|];
      BlankPart(identifier, c + 1, |identifier|);
    }
  }

  /** The distinct identities that some of the given identifiers are already bound to. */
  function Matched(bindings: map<string, string>, identifiers: set<string>): set<string> {
    set i | i in identifiers && i in bindings :: bindings[i]
  }

  /** The identifiers that were still free, bound to `id`. */
  function BoundTo(bindings: map<string, string>, id: string, identifiers: set<string>): map<string, string> {
    map i | i in bindings.Keys + identifiers :: if i in bindings then bindings[i] else id
  }

  datatype Call = Call(identifiers: set<string>, kind: EntityKind, name: string, minted: string)

  /** What one call answers; `minted` is the random id it would create. */
  ghost function Answer(r: Registry, c: Call): Result<string, ResolveError> {
    var ids := Matched(r.bindings, c.identifiers);
    if c.identifiers == {} then Err(NoIdentifiers)
    else if exists i :: i in c.identifiers && !WellFormed(i) then Err(Malformed)
    else if |ids| > 1 then Err(IdentityConflict(ids))
    else if |ids| == 1 then
      var id :| id in ids;
      Ok(id)
    else if c.minted in r.identities then Err(IdTaken)
    else Ok(c.minted)
  }

  /** What one call leaves behind: nothing, if it was refused. */
  ghost function Resolved(r: Registry, c: Call): Registry {
    var answer := Answer(r, c);
    if answer.Err? then r
    else
      Registry(if Matched(r.bindings, c.identifiers) == {} then r.identities[c.minted := IdentityRecord(c.kind, c.name)]
               else r.identities,
               BoundTo(r.bindings, answer.value, c.identifiers))
  }

  function Looked(r: Registry, identifier: string): Result<Option<string>, ResolveError> {
    if !WellFormed(identifier) then Err(Malformed)
    else Ok(if identifier in r.bindings then Some(r.bindings[identifier]) else None)
  }

  /** Every identifier bound to one identity. */
  function BoundIdentifiers(r: Registry, id: string): set<string> {
    set i | i in r.bindings && r.bindings[i] == id
  }

  class LocalIdentityResolver {
    var identities: map<string, IdentityRecord>
    var bindings: map<string, string>

    ghost function State(): Registry
      reads this
    {
      Registry(identities, bindings)
    }

    constructor ()
      ensures State() == EMPTY_REGISTRY
    {
      identities, bindings := map[], map[];
    }

    method Resolve(c: Call) returns (r: Result<string, ResolveError>)
      modifies this
      ensures r == Answer(old(State()), c)
      ensures State() == Resolved(old(State()), c)
    {
      if c.identifiers == {} {
        return Err(NoIdentifiers);
      }
      var unchecked := c.identifiers;
      while unchecked != {}
        invariant unchecked <= c.identifiers
        invariant forall i :: i in c.identifiers - unchecked ==> WellFormed(i)
        decreases |unchecked|
      {
        var i :| i in unchecked;
        if !WellFormed(i) {
          return Err(Malformed);
        }
        unchecked := unchecked - {i};
      }
      var existing := ExistingIds(c.identifiers);
      if |existing| > 1 {
        return Err(IdentityConflict(existing));
      }
      if |existing| == 1 {
        var id :| id in existing;
        OnlyMember(existing, id, Answer(State(), c).value);
        BindAll(id, c.identifiers);
        return Ok(id);
      }
      if c.minted in identities {
        return Err(IdTaken);
      }
      identities := identities[c.minted := IdentityRecord(c.kind, c.name)];
      BindAll(c.minted, c.identifiers);
      return Ok(c.minted);
    }

    method ExistingIds(identifiers: set<string>) returns (ids: set<string>)
      ensures ids == Matched(bindings, identifiers)
    {
      ids := {};
      var todo := identifiers;
      while todo != {}
        invariant todo <= identifiers
        invariant ids == Matched(bindings, identifiers - todo)
        decreases |todo|
      {
        var i :| i in todo;
        assert identifiers - (todo - {i}) == (identifiers - todo) + {i};
        todo := todo - {i};
        if i in bindings {
          ids := ids + {bindings[i]};
        }
      }
      assert identifiers - todo == identifiers;
    }

    method BindAll(id: string, identifiers: set<string>)
      modifies `bindings
      ensures bindings == BoundTo(old(bindings), id, identifiers)
    {
      var todo := identifiers;
      while todo != {}
        invariant todo <= identifiers
        invariant bindings == BoundTo(old(bindings), id, identifiers - todo)
        decreases |todo|
      {
        var i :| i in todo;
        todo := todo - {i};
        if i !in bindings {
          bindings := bindings[i := id];
        }
      }
      assert identifiers - todo == identifiers;
    }

    method Lookup(identifier: string) returns (r: Result<Option<string>, ResolveError>)
      ensures r == Looked(State(), identifier)
    {
      if !WellFormed(identifier) {
        return Err(Malformed);
      }
      if identifier !in bindings {
        return Ok(None);
      }
      return Ok(Some(bindings[identifier]));
    }

    method Bindings(id: string) returns (identifiers: set<string>)
      ensures identifiers == BoundIdentifiers(State(), id)
    {
      identifiers := set i | i in bindings && bindings[i] == id;
    }
  }

  lemma OnlyMember<T>(s: set<T>, a: T, b: T)
    requires |s| == 1 && a in s && b in s
    ensures a == b
  {
    assert |s - {a}| == 0;
  }

  // ----- Runs -----

  ghost function After(calls: seq<Call>): Registry {
    if calls == [] then EMPTY_REGISTRY else Resolved(After(calls[..|calls| - 1]), calls[|calls| - 1])
  }

  /** The identifier sets of the calls that succeeded. */
  ghost function Links(calls: seq<Call>): set<set<string>> {
    if calls == [] then {}
    else
      var n := |calls| - 1;
      Links(calls[..n]) + if Answer(After(calls[..n]), calls[n]).Ok? then {calls[n].identifiers} else {}
  }

  // ----- Chains of overlapping calls -----

  ghost predicate Hop(links: set<set<string>>, a: string, b: string) {
    exists l :: l in links && a in l && b in l
  }

  ghost predicate Chain(links: set<set<string>>, path: seq<string>) {
    path != [] && forall i :: 0 <= i < |path| - 1 ==> Hop(links, path[i], path[i + 1])
  }

  ghost predicate Leads(links: set<set<string>>, path: seq<string>, a: string, b: string) {
    Chain(links, path) && path[0] == a && path[|path| - 1] == b
  }

  ghost predicate Connected(links: set<set<string>>, a: string, b: string) {
    exists path :: Leads(links, path, a, b)
  }

  lemma HopConnects(links: set<set<string>>, l: set<string>, a: string, b: string)
    requires l in links && a in l && b in l
    ensures Connected(links, a, b)
  {
    assert Hop(links, a, b);
    assert Leads(links, [a, b], a, b);
  }

  lemma ConnectedTrans(links: set<set<string>>, a: string, b: string, c: string)
    requires Connected(links, a, b) && Connected(links, b, c)
    ensures Connected(links, a, c)
  {
    var p :| Leads(links, p, a, b);
    var q :| Leads(links, q, b, c);
    var path := p + q[1..];
    forall i | 0 <= i < |path| - 1
      ensures Hop(links, path[i], path[i + 1])
    {
      if i < |p| - 1 {
        assert path[i] == p[i] && path[i + 1] == p[i + 1];
      } else {
        assert path[i] == q[i - |p| + 1] && path[i + 1] == q[i - |p| + 2];
      }
    }
    assert Leads(links, path, a, c);
  }

  lemma ConnectedSym(links: set<set<string>>, a: string, b: string)
    requires Connected(links, a, b)
    ensures Connected(links, b, a)
  {
    var p :| Leads(links, p, a, b);
    var path := seq(|p|, i requires 0 <= i < |p| => p[|p| - 1 - i]);
    forall i | 0 <= i < |path| - 1
      ensures Hop(links, path[i], path[i + 1])
    {
      assert Hop(links, p[|p| - 2 - i], p[|p| - 1 - i]);
    }
    assert Leads(links, path, b, a);
  }

  lemma ConnectedMono(links: set<set<string>>, more: set<set<string>>, a: string, b: string)
    requires links <= more && Connected(links, a, b)
    ensures Connected(more, a, b)
  {
    var p :| Leads(links, p, a, b);
    forall i | 0 <= i < |p| - 1
      ensures Hop(more, p[i], p[i + 1])
    {
      assert Hop(links, p[i], p[i + 1]);
    }
    assert Leads(more, p, a, b);
  }

  // ----- Same id means connected -----

  ghost predicate AllBound(bindings: map<string, string>, l: set<string>, id: string) {
    forall i :: i in l ==> i in bindings && bindings[i] == id
  }

  /** The identifiers of one successful call are all bound to one identity. */
  ghost predicate Together(r: Registry, links: set<set<string>>) {
    forall l :: l in links ==> exists id :: AllBound(r.bindings, l, id)
  }

  /** Every bound identifier came from a successful call, and its identity exists. */
  ghost predicate Covered(r: Registry, links: set<set<string>>) {
    forall a :: a in r.bindings ==> Hop(links, a, a) && r.bindings[a] in r.identities
  }

  /** Sharing an identity comes only from being connected. */
  ghost predicate Apart(r: Registry, links: set<set<string>>) {
    forall a, b :: a in r.bindings && b in r.bindings && r.bindings[a] == r.bindings[b] ==> Connected(links, a, b)
  }

  ghost predicate Partition(r: Registry, links: set<set<string>>) {
    Together(r, links) && Covered(r, links) && Apart(r, links)
  }

  /** A successful call leaves each of its identifiers connected to everything that shares their identity. */
  lemma CallConnects(r: Registry, c: Call, links: set<set<string>>, m: string, x: string)
    requires Partition(r, links) && Answer(r, c).Ok? && m in c.identifiers
    requires m in r.bindings || Matched(r.bindings, c.identifiers) == {}
    requires x in Resolved(r, c).bindings && Resolved(r, c).bindings[x] == Answer(r, c).value
    ensures Connected(links + {c.identifiers}, x, m)
  {
    var links' := links + {c.identifiers};
    if x in c.identifiers {
      HopConnects(links', c.identifiers, x, m);
    } else {
      assert x in r.bindings;
      if m in r.bindings {
        OnlyMember(Matched(r.bindings, c.identifiers), r.bindings[m], Answer(r, c).value);
        ConnectedMono(links, links', x, m);
      }
    }
  }

  lemma AnswerIsShared(r: Registry, c: Call) returns (m: string)
    requires Answer(r, c).Ok?
    ensures m in c.identifiers && (m in r.bindings || Matched(r.bindings, c.identifiers) == {})
    ensures forall i :: i in c.identifiers ==>
                          i in Resolved(r, c).bindings && Resolved(r, c).bindings[i] == Answer(r, c).value
  {
    var ids := Matched(r.bindings, c.identifiers);
    if ids == {} {
      m :| m in c.identifiers;
    } else {
      var id :| id in ids;
      m :| m in c.identifiers && m in r.bindings && r.bindings[m] == id;
    }
    forall i | i in c.identifiers
      ensures Resolved(r, c).bindings[i] == Answer(r, c).value
    {
      if i in r.bindings {
        assert r.bindings[i] in ids;
        OnlyMember(ids, r.bindings[i], Answer(r, c).value);
      }
    }
  }

  lemma CallKeepsTogether(r: Registry, c: Call, links: set<set<string>>)
    requires Together(r, links) && Answer(r, c).Ok?
    ensures Together(Resolved(r, c), links + {c.identifiers})
  {
    var m := AnswerIsShared(r, c);
    var r' := Resolved(r, c);
    assert AllBound(r'.bindings, c.identifiers, Answer(r, c).value);
    forall l | l in links
      ensures exists id :: AllBound(r'.bindings, l, id)
    {
      var id :| AllBound(r.bindings, l, id);
      assert AllBound(r'.bindings, l, id);
    }
  }

  lemma CallKeepsCovered(r: Registry, c: Call, links: set<set<string>>)
    requires Covered(r, links) && Answer(r, c).Ok?
    ensures Covered(Resolved(r, c), links + {c.identifiers})
  {
    var r', links' := Resolved(r, c), links + {c.identifiers};
    var m := AnswerIsShared(r, c);
    forall a | a in r'.bindings
      ensures Hop(links', a, a) && r'.bindings[a] in r'.identities
    {
      if a in c.identifiers {
        assert c.identifiers in links';
        assert m in r.bindings ==> r.bindings[m] in r.identities;
      } else {
        assert Hop(links, a, a);
      }
    }
  }

  lemma CallKeepsApart(r: Registry, c: Call, links: set<set<string>>)
    requires Partition(r, links) && Answer(r, c).Ok?
    ensures Apart(Resolved(r, c), links + {c.identifiers})
  {
    var r', links' := Resolved(r, c), links + {c.identifiers};
    var m := AnswerIsShared(r, c);
    forall a, b | a in r'.bindings && b in r'.bindings && r'.bindings[a] == r'.bindings[b]
      ensures Connected(links', a, b)
    {
      if r'.bindings[a] == Answer(r, c).value {
        CallConnects(r, c, links, m, a);
        CallConnects(r, c, links, m, b);
        ConnectedSym(links', b, m);
        ConnectedTrans(links', a, m, b);
      } else {
        assert a in r.bindings && b in r.bindings;
        ConnectedMono(links, links', a, b);
      }
    }
  }

  lemma {:induction false} RunPartitions(calls: seq<Call>)
    ensures Partition(After(calls), Links(calls))
  {
    if calls != [] {
      var n := |calls| - 1;
      RunPartitions(calls[..n]);
      var before, links, c := After(calls[..n]), Links(calls[..n]), calls[n];
      assert After(calls) == Resolved(before, c);
      if Answer(before, c).Ok? {
        assert Links(calls) == links + {c.identifiers};
        CallKeepsTogether(before, c, links);
        CallKeepsCovered(before, c, links);
        CallKeepsApart(before, c, links);
      } else {
        assert Links(calls) == links;
      }
    }
  }

  lemma {:induction false} ChainSharesId(r: Registry, links: set<set<string>>, path: seq<string>)
    requires Partition(r, links) && Chain(links, path) && path[0] in r.bindings
    ensures forall i :: 0 <= i < |path| ==> path[i] in r.bindings && r.bindings[path[i]] == r.bindings[path[0]]
  {
    if |path| > 1 {
      assert Hop(links, path[0], path[1]);
      forall i | 0 <= i < |path[1..]| - 1
        ensures Hop(links, path[1..][i], path[1..][i + 1])
      {
        assert Hop(links, path[i + 1], path[i + 2]);
      }
      ChainSharesId(r, links, path[1..]);
      forall i | 1 <= i < |path|
        ensures path[i] in r.bindings && r.bindings[path[i]] == r.bindings[path[0]]
      {
        assert path[i] == path[1..][i - 1];
      }
    }
  }

  /** After any run of calls: the bound identifiers are those of the successful calls, and two of them have the same
      identity if and only if a chain of overlapping successful calls links them. */
  lemma SameIdMeansConnected(calls: seq<Call>, a: string, b: string)
    ensures a in After(calls).bindings <==> exists l :: l in Links(calls) && a in l
    ensures a in After(calls).bindings && b in After(calls).bindings ==>
              (After(calls).bindings[a] == After(calls).bindings[b] <==> Connected(Links(calls), a, b))
  {
    RunPartitions(calls);
    var r, links := After(calls), Links(calls);
    if a in r.bindings {
      assert Hop(links, a, a);
      if Connected(links, a, b) {
        var path :| Leads(links, path, a, b);
        ChainSharesId(r, links, path);
      }
    }
  }

  /** A binding, once made, is never changed by any later run of calls, and a refused call changes nothing at all. */
  lemma {:induction false} BindingsAreForever(calls: seq<Call>, k: nat)
    requires k <= |calls|
    ensures forall a :: a in After(calls[..k]).bindings ==>
                          a in After(calls).bindings && After(calls).bindings[a] == After(calls[..k]).bindings[a]
    ensures calls != [] && Answer(After(calls[..|calls| - 1]), calls[|calls| - 1]).Err? ==>
              After(calls) == After(calls[..|calls| - 1])
    decreases |calls|
  {
    if k == |calls| {
      assert calls[..k] == calls;
    } else {
      BindingsAreForever(calls[..|calls| - 1], k);
      assert calls[..|calls| - 1][..k] == calls[..k];
    }
  }

  ghost predicate FullSuccess(calls: seq<Call>) {
    forall k :: 0 <= k < |calls| ==> Answer(After(calls[..k]), calls[k]).Ok?
  }

  /** The identifier sets that a run asks about. */
  ghost function Asked(calls: seq<Call>): set<set<string>> {
    set c | c in calls :: c.identifiers
  }

  lemma AskedSnoc(calls: seq<Call>)
    requires calls != []
    ensures Asked(calls) == Asked(calls[..|calls| - 1]) + {calls[|calls| - 1].identifiers}
  {
    var n := |calls| - 1;
    assert forall c :: c in calls <==> c in calls[..n] || c == calls[n];
  }

  lemma FullSuccessFront(calls: seq<Call>)
    requires calls != [] && FullSuccess(calls)
    ensures FullSuccess(calls[..|calls| - 1])
  {
    var n := |calls| - 1;
    forall k | 0 <= k < n
      ensures Answer(After(calls[..n][..k]), calls[..n][k]).Ok?
    {
      assert calls[..n][..k] == calls[..k];
    }
  }

  lemma {:induction false} LinksOfFullSuccess(calls: seq<Call>)
    requires FullSuccess(calls)
    ensures Links(calls) == Asked(calls)
  {
    if calls != [] {
      FullSuccessFront(calls);
      LinksOfFullSuccess(calls[..|calls| - 1]);
      AskedSnoc(calls);
    }
  }

  /** The order of calls does not matter for who is who: when two runs ask about the same identifier sets, in any order
      and with any minted ids, and every call of both succeeds, they bind the same identifiers and group them alike. */
  lemma OrderDoesNotMatter(calls: seq<Call>, others: seq<Call>, a: string, b: string)
    requires FullSuccess(calls) && FullSuccess(others)
    requires Asked(calls) == Asked(others)
    requires a in After(calls).bindings && b in After(calls).bindings
    ensures a in After(others).bindings && b in After(others).bindings
    ensures After(calls).bindings[a] == After(calls).bindings[b] <==>
            After(others).bindings[a] == After(others).bindings[b]
  {
    LinksOfFullSuccess(calls);
    LinksOfFullSuccess(others);
    SameIdMeansConnected(calls, a, b);
    SameIdMeansConnected(others, a, b);
    SameIdMeansConnected(calls, b, a);
    SameIdMeansConnected(others, b, a);
  }

  // ----- What the two queries answer -----

  /** Whatever calls come later, looking up an identifier of a successful call returns what that call returned. */
  lemma LookupReturnsAnswer(calls: seq<Call>, k: nat, identifier: string)
    requires k < |calls| && Answer(After(calls[..k]), calls[k]).Ok? && identifier in calls[k].identifiers
    ensures Looked(After(calls), identifier) == Ok(Some(Answer(After(calls[..k]), calls[k]).value))
  {
    var m := AnswerIsShared(After(calls[..k]), calls[k]);
    assert calls[..k + 1][..k] == calls[..k];
    assert After(calls[..k + 1]) == Resolved(After(calls[..k]), calls[k]);
    BindingsAreForever(calls, k + 1);
  }

  /** A well-formed identifier is looked up in vain exactly when no successful call has mentioned it. */
  lemma LookupMissExact(calls: seq<Call>, identifier: string)
    ensures Looked(After(calls), identifier) == Ok(None) <==>
            WellFormed(identifier) && forall l :: l in Links(calls) ==> identifier !in l
  {
    SameIdMeansConnected(calls, identifier, identifier);
  }

  /** The bindings of an identity are one connected component: everything that successful calls link to any one of
      them, and nothing else. */
  lemma BindingsAreComponents(calls: seq<Call>, id: string, a: string)
    requires a in BoundIdentifiers(After(calls), id)
    ensures forall b :: b in BoundIdentifiers(After(calls), id) <==> Connected(Links(calls), a, b)
  {
    RunPartitions(calls);
    var r, links := After(calls), Links(calls);
    forall b
      ensures b in BoundIdentifiers(r, id) <==> Connected(links, a, b)
    {
      if Connected(links, a, b) {
        var path :| Leads(links, path, a, b);
        ChainSharesId(r, links, path);
      }
    }
  }
}
