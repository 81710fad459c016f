/** `parse_page(render_page(p)) == p` holds exactly for canonical pages. */
module PageRoundTrip {
  import opened Common
  import opened Pages

  predicate CanonicalEntry(e: TimelineEntry) {
    && e.source != "" && ']' !in e.source && SingleLine(e.source)
    && Stripped(e.text) && SingleLine(e.text)
  }

  /** No line of the text reads as a zone separator. */
  predicate NoBareFence(text: string) {
    FindSep(text, 0).None?
  }

  predicate Canonical<F>(p: Page<F>) {
    && Stripped(p.truth) && NoBareFence(p.truth)
    && forall i :: 0 <= i < |p.timeline| ==> CanonicalEntry(p.timeline[i])
  }

  /** What is assumed of the YAML library for one frontmatter: reading what it wrote gives it back, and what it wrote
      has no line that is a fence. */
  predicate Faithful<F(==)>(codec: Codec<F>, fm: F) {
    var yaml := Rstrip(codec.dump(fm));
    NoBareFence(yaml) && codec.load(yaml + "\n") == Some(fm)
  }

  // ----- Separators in a text made of parts -----

  /** `e` ends a line of dashes that starts at `i`. */
  predicate Bare(text: string, i: int, e: int) {
    && 0 <= i && i + 3 <= e <= |text| && LineStart(text, i) && Dashes(text, i) && LineEnd(text, e)
    && forall k :: i + 3 <= k < e ==> IsSpace(text[k])
  }

  /** A match ends at the last possible line end. */
  lemma SepIsBare(text: string, i: nat)
    requires i <= |text|
    ensures SepEnd(text, i).Some? ==> Bare(text, i, SepEnd(text, i).value)
    ensures forall e :: Bare(text, i, e) ==> SepEnd(text, i).Some? && e <= SepEnd(text, i).value
  {
    forall e | Bare(text, i, e)
      ensures SepEnd(text, i).Some? && e <= SepEnd(text, i).value
    {
      var hi := SpaceRun(text, i + 3);
      assert e <= hi;
    }
  }

  /** Whether a line is bare depends on that line alone: not on what follows its line feed at `n` ... */
  lemma SepInPrefix(text: string, n: nat, i: nat)
    requires i <= n < |text| && text[n] == '\n'
    ensures SepEnd(text, i).Some? <==> SepEnd(text[..n], i).Some?
  {
    SepIsBare(text, i);
    SepIsBare(text[..n], i);
    if SepEnd(text[..n], i).Some? {
      assert Bare(text, i, SepEnd(text[..n], i).value);
    }
    if SepEnd(text, i).Some? {
      var e := SepEnd(text, i).value;
      assert Bare(text[..n], i, if e <= n then e else n);
    }
  }

  lemma BareShift(text: string, n: nat, i: int, e: int)
    requires 0 < n <= |text| && text[n - 1] == '\n'
    ensures Bare(text[n..], i, e) <==> 0 <= i && Bare(text, n + i, n + e)
  {
    var rest := text[n..];
    if 0 <= i && i + 3 <= e <= |rest| {
      assert Dashes(rest, i) <==> Dashes(text, n + i);
      assert LineStart(rest, i) <==> LineStart(text, n + i);
      assert LineEnd(rest, e) <==> LineEnd(text, n + e);
      SpacesShift(text, n, i + 3, e);
    }
  }

  lemma SpacesShift(text: string, n: nat, lo: nat, hi: nat)
    requires n <= |text| && lo <= hi <= |text[n..]|
    ensures (forall k :: lo <= k < hi ==> IsSpace(text[n..][k])) <==>
            (forall k :: n + lo <= k < n + hi ==> IsSpace(text[k]))
  {
    var rest := text[n..];
    if forall k :: lo <= k < hi ==> IsSpace(rest[k]) {
      forall k | n + lo <= k < n + hi ensures IsSpace(text[k]) { assert IsSpace(rest[k - n]); }
    }
    if forall k :: n + lo <= k < n + hi ==> IsSpace(text[k]) {
      forall k | lo <= k < hi ensures IsSpace(rest[k]) { assert IsSpace(text[n + k]); }
    }
  }

  /** ... nor on what stands before its line start at `n`. */
  lemma SepInSuffix(text: string, n: nat, i: nat)
    requires 0 < n <= |text| && text[n - 1] == '\n' && i <= |text| - n
    ensures SepEnd(text, n + i) == if SepEnd(text[n..], i).Some? then Some(n + SepEnd(text[n..], i).value) else None
  {
    SepIsBare(text[n..], i);
    SepIsBare(text, n + i);
    if SepEnd(text, n + i).Some? {
      BareShift(text, n, i, SepEnd(text, n + i).value - n);
    }
    if SepEnd(text[n..], i).Some? {
      BareShift(text, n, i, SepEnd(text[n..], i).value);
    }
  }

  lemma EndIsLast(text: string, i: nat, e: nat)
    requires i <= |text| && Bare(text, i, e) && forall k :: e < k <= |text| ==> !Bare(text, i, k)
    ensures SepEnd(text, i) == Some(e)
  {
    SepIsBare(text, i);
  }

  /** No separator starts in this stretch. */
  predicate Clear(text: string, lo: nat, hi: nat)
    requires hi <= |text| + 1
  {
    forall k :: lo <= k < hi ==> SepEnd(text, k).None?
  }

  lemma FindIs(text: string, v: nat)
    requires v <= |text| && Clear(text, 0, v) && SepEnd(text, v).Some?
    ensures FindSep(text, 0) == Some(v)
  {
    var r := FindSep(text, 0);
    assert r.Some? && !(r.value < v) && !(v < r.value);
  }

  lemma FindNone(text: string)
    requires Clear(text, 0, |text| + 1)
    ensures FindSep(text, 0).None?
  {}

  lemma FindMeans(text: string)
    ensures FindSep(text, 0).None? ==> Clear(text, 0, |text| + 1)
    ensures FindSep(text, 0).Some? ==> Clear(text, 0, FindSep(text, 0).value)
  {}

  lemma ClearFront(text: string, n: nat)
    requires n < |text| && text[n] == '\n' && Clear(text[..n], 0, n + 1)
    ensures Clear(text, 0, n + 1)
  {
    forall k | 0 <= k < n + 1
      ensures SepEnd(text, k).None?
    {
      SepInPrefix(text, n, k);
      assert SepEnd(text[..n], k).None?;
    }
  }

  lemma ClearTail(text: string, n: nat, m: nat)
    requires 0 < n <= |text| && text[n - 1] == '\n' && m <= |text| - n + 1 && Clear(text[n..], 0, m)
    ensures Clear(text, n, n + m)
  {
    forall k | n <= k < n + m
      ensures SepEnd(text, k).None?
    {
      SepInSuffix(text, n, k - n);
      assert SepEnd(text[n..], k - n).None?;
    }
  }

  lemma LineParts(line: string, rest: string)
    ensures |Line(line, rest)| == |line| + 1 + |rest|
    ensures Line(line, rest)[|line|] == '\n'
    ensures Line(line, rest)[..|line|] == line && Line(line, rest)[|line| + 1..] == rest
  {
    var text := Line(line, rest);
    assert text == (line + "\n") + rest;
    assert text[|line| + 1..] == rest;
  }

  /** Lines that are no separators can be skipped in the search. */
  lemma FindPastBreak(text: string, n: nat, front: string, rest: string)
    requires 0 < n <= |text| && text[n - 1] == '\n' && text[..n - 1] == front && text[n..] == rest
    requires NoBareFence(front)
    ensures var found := FindSep(rest, 0);
            FindSep(text, 0) == if found.Some? then Some(n + found.value) else None
  {
    FindMeans(front);
    FindMeans(rest);
    ClearFront(text, n - 1);
    var found := FindSep(rest, 0);
    if found.Some? {
      ClearTail(text, n, found.value);
      SepInSuffix(text, n, found.value);
      FindIs(text, n + found.value);
    } else {
      ClearTail(text, n, |rest| + 1);
      FindNone(text);
    }
  }

  lemma FindAfter(line: string, rest: string)
    requires NoBareFence(line)
    ensures var found := FindSep(rest, 0);
            FindSep(Line(line, rest), 0) == if found.Some? then Some(|line| + 1 + found.value) else None
  {
    LineParts(line, rest);
    FindPastBreak(Line(line, rest), |line| + 1, line, rest);
  }

  lemma SepInRest(line: string, rest: string, i: nat)
    requires i <= |rest|
    ensures var n := |line| + 1;
            SepEnd(Line(line, rest), n + i) == if SepEnd(rest, i).Some? then Some(n + SepEnd(rest, i).value) else None
  {
    LineParts(line, rest);
    SepInSuffix(Line(line, rest), |line| + 1, i);
  }

  predicate Newlines(s: string) {
    forall i :: 0 <= i < |s| ==> s[i] == '\n'
  }

  /** A fence followed by blank lines ends just before the line feed that precedes the next visible character. */
  lemma FenceEnd(nls: string, rest: string)
    requires nls != "" && Newlines(nls) && (rest != "" ==> !IsSpace(rest[0]))
    ensures FindSep("---" + (nls + rest), 0) == Some(0)
    ensures SepEnd("---" + (nls + rest), 0) == Some(if rest == "" then 3 + |nls| else 2 + |nls|)
  {
    var text := "---" + (nls + rest);
    assert Dashes(text, 0);
    assert forall k :: 3 <= k < 3 + |nls| ==> text[k] == '\n';
    if rest == "" {
      assert Bare(text, 0, |text|);
      EndIsLast(text, 0, |text|);
    } else {
      var e := 2 + |nls|;
      assert text[e + 1] == rest[0];
      assert Bare(text, 0, e);
      EndIsLast(text, 0, e);
    }
  }

  lemma {:induction false} NewlinesStrip(nls: string, rest: string)
    requires Newlines(nls) && (rest != "" ==> rest[0] != '\n')
    ensures LstripNewlines(nls + rest) == rest
  {
    if nls == "" {
      assert nls + rest == rest;
    } else {
      assert (nls + rest)[1..] == nls[1..] + rest;
      NewlinesStrip(nls[1..], rest);
    }
  }

  // ----- One entry -----

  /** A rendered entry without the blank that an empty text leaves at its end. */
  function Visible(e: TimelineEntry): string {
    Iso(e.date) + " [" + e.source + "]:" + if e.text == "" then "" else " " + e.text
  }

  lemma StripEntry(e: TimelineEntry)
    requires CanonicalEntry(e)
    ensures Strip(RenderEntry(e)) == Visible(e)
  {
    IsoRoundTrip(e.date);
    var s := Visible(e);
    assert s[0] == Iso(e.date)[0] && IsDigit(s[0]);
    if e.text == "" {
      assert s[|s| - 1] == ':';
      assert RenderEntry(e) == "" + s + " ";
      StripPadded("", s, " ");
    } else {
      assert s[|s| - 1] == e.text[|e.text| - 1];
      assert RenderEntry(e) == "" + s + "";
      StripPadded("", s, "");
    }
  }

  lemma RunIs(s: string, i: nat, j: nat)
    requires i <= j <= |s| && (forall k :: i <= k < j ==> IsSpace(s[k])) && (j < |s| ==> !IsSpace(s[j]))
    ensures SpaceRun(s, i) == j
  {
    var r := SpaceRun(s, i);
    assert !(r < j) && !(j < r);
  }

  lemma BracketIs(s: string, i: nat, j: nat)
    requires i <= j < |s| && (forall k :: i <= k < j ==> s[k] != ']') && s[j] == ']'
    ensures FirstBracket(s, i) == j
  {
    var r := FirstBracket(s, i);
    assert !(r < j) && !(j < r);
  }

  lemma VisibleShape(e: TimelineEntry)
    ensures var s, close := Visible(e), 12 + |e.source|;
            && |s| == close + 2 + (if e.text == "" then 0 else 1 + |e.text|)
            && s[..10] == Iso(e.date) && s[10] == ' ' && s[11] == '['
            && s[12..close] == e.source && s[close] == ']' && s[close + 1] == ':'
            && (e.text != "" ==> s[close + 2] == ' ' && s[close + 3..] == e.text)
  {}

  lemma MatchVisible(e: TimelineEntry)
    requires CanonicalEntry(e)
    ensures MatchEntry(Visible(e)) == Parsed(e)
  {
    IsoRoundTrip(e.date);
    VisibleShape(e);
    var s := Visible(e);
    var close := 12 + |e.source|;
    RunIs(s, 10, 11);
    forall k | 12 <= k < close
      ensures s[k] != ']'
    {
      assert s[k] == s[12..close][k - 12];
    }
    BracketIs(s, 12, close);
    if e.text == "" {
      RunIs(s, close + 2, |s|);
    } else {
      assert s[close + 3] == s[close + 3..][0];
      RunIs(s, close + 2, close + 3);
    }
  }

  lemma EntryRoundTrip(e: TimelineEntry)
    requires CanonicalEntry(e)
    ensures ParseLine(RenderEntry(e)) == Parsed(e)
  {
    StripEntry(e);
    MatchVisible(e);
    IsoRoundTrip(e.date);
    var s := Visible(e);
    assert s[0] == Iso(e.date)[0] && IsDigit(s[0]);
    assert |s| >= 2 ==> s[..2][0] == s[0];
  }

  /** Whatever stripped line is taken for an entry, the entry is canonical. */
  lemma MatchedIsCanonical(s: string)
    requires Stripped(s) && SingleLine(s) && MatchEntry(s).Parsed?
    ensures CanonicalEntry(MatchEntry(s).entry)
  {
    var close := FirstBracket(s, SpaceRun(s, 10) + 1);
    var start := SpaceRun(s, close + 2);
    var text := s[start..];
    if text != "" {
      assert text[0] == s[start] && text[|text| - 1] == s[|s| - 1];
    }
  }

  lemma ParsedIsCanonical(line: string)
    requires SingleLine(line) && ParseLine(line).Parsed?
    ensures CanonicalEntry(ParseLine(line).entry)
  {
    var s := Strip(line);
    StripIsStripped(line);
    forall i | 0 <= i < |s|
      ensures !IsBreak(s[i])
    {
      assert s[i] in line;
    }
    MatchedIsCanonical(s);
  }

  // ----- The timeline -----

  lemma {:induction false} LinesAreSingle(s: string)
    ensures forall i :: 0 <= i < |Lines(s)| ==> SingleLine(Lines(s)[i])
    decreases |s|
  {
    var j := FirstBreak(s, 0);
    if s != "" && j < |s| {
      LinesAreSingle(s[AfterBreak(s, j)..]);
    }
  }

  lemma {:induction false} CollectedWereParsed(kinds: seq<LineKind>)
    requires Collected(kinds).Ok?
    ensures forall e :: e in Collected(kinds).value ==> Parsed(e) in kinds
  {
    if kinds != [] {
      var n := |kinds| - 1;
      CollectedWereParsed(kinds[..n]);
      assert forall k :: k in kinds <==> k in kinds[..n] || k == kinds[n];
    }
  }

  lemma EntriesAreCanonical(lines: seq<string>)
    requires ParseLines(lines).Ok? && forall i :: 0 <= i < |lines| ==> SingleLine(lines[i])
    ensures forall i :: 0 <= i < |ParseLines(lines).value| ==> CanonicalEntry(ParseLines(lines).value[i])
  {
    var kinds, es := Kinds(lines), ParseLines(lines).value;
    CollectedWereParsed(kinds);
    forall i | 0 <= i < |es|
      ensures CanonicalEntry(es[i])
    {
      assert es[i] in es;
      var k :| 0 <= k < |kinds| && kinds[k] == Parsed(es[i]);
      ParsedIsCanonical(lines[k]);
    }
  }

  lemma LinesCons(line: string, rest: string)
    requires SingleLine(line)
    ensures Lines(Line(line, rest)) == [line] + Lines(rest)
  {
    var s := Line(line, rest);
    LineParts(line, rest);
    var j := FirstBreak(s, 0);
    assert IsBreak('\n') && !(j > |line|);
    assert forall k :: 0 <= k < |line| ==> s[k] == s[..|line|][k];
    assert j == |line|;
  }

  lemma EntryIsSingleLine(e: TimelineEntry)
    requires CanonicalEntry(e)
    ensures SingleLine(RenderEntry(e))
  {
    IsoRoundTrip(e.date);
    var iso, line := Iso(e.date), RenderEntry(e);
    forall i | 0 <= i < 10
      ensures !IsBreak(iso[i])
    {
      assert IsDigit(iso[i]) || iso[i] == '-';
    }
    assert SingleLine(iso);
    assert SingleLine(" [") && SingleLine("]: ");
    SingleConcat(iso, " [");
    SingleConcat(iso + " [", e.source);
    SingleConcat(iso + " [" + e.source, "]: ");
    SingleConcat(iso + " [" + e.source + "]: ", e.text);
  }

  lemma SingleConcat(a: string, b: string)
    requires SingleLine(a) && SingleLine(b)
    ensures SingleLine(a + b)
  {}

  lemma {:induction false} ClosedLines(lines: seq<string>)
    requires forall i :: 0 <= i < |lines| ==> SingleLine(lines[i])
    ensures Lines(Closed(lines)) == lines
  {
    if lines != [] {
      ClosedLines(lines[1..]);
      LinesCons(lines[0], Closed(lines[1..]));
    }
  }

  lemma EntryLines(es: seq<TimelineEntry>)
    requires forall i :: 0 <= i < |es| ==> CanonicalEntry(es[i])
    ensures Lines(RenderEntries(es)) == Rendered(es)
  {
    forall i | 0 <= i < |es|
      ensures SingleLine(Rendered(es)[i])
    {
      EntryIsSingleLine(es[i]);
    }
    ClosedLines(Rendered(es));
  }

  lemma {:induction false} IgnoredFirst(kinds: seq<LineKind>)
    ensures Collected([Ignored] + kinds) == Collected(kinds)
  {
    var all := [Ignored] + kinds;
    if kinds == [] {
      assert all[..0] == [];
    } else {
      assert all[..|all| - 1] == [Ignored] + kinds[..|kinds| - 1];
      IgnoredFirst(kinds[..|kinds| - 1]);
    }
  }

  /** A blank first line is skipped. */
  lemma BlankFirst(lines: seq<string>)
    ensures ParseLines([""] + lines) == ParseLines(lines)
  {
    assert ParseLine("") == Ignored;
    MappedCons(ParseLine, "", lines);
    IgnoredFirst(Kinds(lines));
  }

  function AllParsed(es: seq<TimelineEntry>): seq<LineKind> {
    seq(|es|, i requires 0 <= i < |es| => Parsed(es[i]))
  }

  lemma {:induction false} CollectParsed(es: seq<TimelineEntry>)
    ensures Collected(AllParsed(es)) == Ok(es)
  {
    if es != [] {
      var n := |es| - 1;
      CollectParsed(es[..n]);
      assert AllParsed(es)[..n] == AllParsed(es[..n]);
      assert es[..n] + [es[n]] == es;
    }
  }

  lemma ParseRendered(es: seq<TimelineEntry>)
    requires forall i :: 0 <= i < |es| ==> CanonicalEntry(es[i])
    ensures ParseLines(Rendered(es)) == Ok(es)
  {
    forall i | 0 <= i < |es|
      ensures ParseLine(Rendered(es)[i]) == Parsed(es[i])
    {
      EntryRoundTrip(es[i]);
    }
    assert Kinds(Rendered(es)) == AllParsed(es);
    CollectParsed(es);
  }

  lemma TimelineRoundTrip(es: seq<TimelineEntry>)
    requires forall i :: 0 <= i < |es| ==> CanonicalEntry(es[i])
    ensures ParseLines(Lines(Line("", RenderEntries(es)))) == Ok(es)
  {
    LinesCons("", RenderEntries(es));
    EntryLines(es);
    BlankFirst(Rendered(es));
    ParseRendered(es);
  }

  // ----- The body -----

  /** The body as the parser sees it once the frontmatter is split off. */
  function Body(truth: string, es: seq<TimelineEntry>): string {
    if truth != "" then Line(truth, TimelineZone(es))
    else if es == [] then ""
    else Line("---", Line("", RenderEntries(es)))
  }

  lemma EntriesStartVisible(es: seq<TimelineEntry>)
    ensures RenderEntries(es) == "" <==> es == []
    ensures es != [] ==> !IsSpace(RenderEntries(es)[0])
  {
    if es != [] {
      IsoRoundTrip(es[0].date);
      assert RenderEntries(es) == Line(RenderEntry(es[0]), Closed(Rendered(es)[1..]));
      assert RenderEntries(es)[0] == Iso(es[0].date)[0];
    }
  }

  lemma LineSlices(line: string, rest: string, v: nat, e: nat)
    requires v <= |rest| && e <= |rest|
    ensures Line(line, rest)[..|line| + 1 + v] == Line(line, rest[..v])
    ensures Line(line, rest)[|line| + 1 + e..] == rest[e..]
  {
    LineParts(line, rest);
    LineParts(line, rest[..v]);
    var text := Line(line, rest);
    assert text[|line| + 1 + e..] == text[|line| + 1..][e..];
    assert text[..|line| + 1 + v] == (line + "\n") + rest[..v];
  }

  /** A separator found in the rest is the one found in the whole, when the first line is none. */
  lemma SepAfterLine(line: string, rest: string, v: nat, e: nat)
    requires NoBareFence(line) && FindSep(rest, 0) == Some(v) && SepEnd(rest, v) == Some(e)
    ensures var whole, n := Line(line, rest), |line| + 1;
            && FindSep(whole, 0) == Some(n + v)
            && SepEnd(whole, n + v) == Some(n + e)
            && whole[..n + v] == Line(line, rest[..v])
            && whole[n + e..] == rest[e..]
  {
    FindAfter(line, rest);
    SepInRest(line, rest, v);
    LineSlices(line, rest, v, e);
  }

  /** The text opens with a fence, and what follows its blank lines is the body. */
  predicate FencedBody(fenced: string, body: string) {
    && FindSep(fenced, 0) == Some(0)
    && SepEnd(fenced, 0).Some?
    && LstripNewlines(fenced[SepEnd(fenced, 0).value..]) == body
  }

  /** Splitting at a fence leaves what follows its blank lines. */
  lemma FenceSplits(yaml: string, fenced: string, body: string)
    requires NoBareFence(yaml) && FencedBody(fenced, body)
    ensures var rest := Line(yaml, fenced);
            && FindSep(rest, 0) == Some(|yaml| + 1)
            && rest[..|yaml| + 1] == yaml + "\n"
            && LstripNewlines(rest[SepEnd(rest, |yaml| + 1).value..]) == body
  {
    SepAfterLine(yaml, fenced, 0, SepEnd(fenced, 0).value);
    assert Line(yaml, "") == yaml + "\n";
  }

  lemma FenceThenBody(nls: string, body: string)
    requires nls != "" && Newlines(nls) && (body != "" ==> !IsSpace(body[0]))
    ensures FencedBody("---" + (nls + body), body)
  {
    var fenced := "---" + (nls + body);
    FenceEnd(nls, body);
    if body == "" {
      assert fenced[|fenced|..] == "";
    } else {
      assert fenced[2 + |nls|..] == "\n" + body;
      NewlinesStrip("\n", body);
    }
  }

  /** The line feeds between the closing fence and the body. */
  function Gap(truth: string, es: seq<TimelineEntry>): string {
    if truth != "" then "\n\n" else if es == [] then "\n\n\n" else "\n\n\n\n"
  }

  lemma GapThenBody(truth: string, es: seq<TimelineEntry>)
    ensures Line("---", Line("", Line(truth, TimelineZone(es)))) == "---" + (Gap(truth, es) + Body(truth, es))
  {
    var zone := TimelineZone(es);
    assert "\n" + ("" + ("\n" + Line(truth, zone))) == "\n\n" + Line(truth, zone);
    if truth == "" {
      assert "\n\n" + ("" + ("\n" + zone)) == "\n\n\n" + zone;
      if es == [] {
        assert "\n\n\n" + "" == "\n\n\n";
      } else {
        var body := Body(truth, es);
        assert "\n\n\n" + ("" + ("\n" + body)) == "\n\n\n\n" + body;
      }
    }
  }

  /** Splitting the frontmatter off a rendered page leaves exactly its body. */
  lemma FrontmatterSplits(yaml: string, truth: string, es: seq<TimelineEntry>)
    requires NoBareFence(yaml) && Stripped(truth)
    ensures var rest := AfterFence(yaml, truth, es);
            && FindSep(rest, 0) == Some(|yaml| + 1)
            && rest[..|yaml| + 1] == yaml + "\n"
            && LstripNewlines(rest[SepEnd(rest, |yaml| + 1).value..]) == Body(truth, es)
  {
    EntriesStartVisible(es);
    FenceThenBody(Gap(truth, es), Body(truth, es));
    GapThenBody(truth, es);
    FenceSplits(yaml, Line("---", Line("", Line(truth, TimelineZone(es)))), Body(truth, es));
  }

  /** A fence line, a blank line, and text. */
  lemma FenceThenText(text: string)
    requires text != "" && !IsSpace(text[0])
    ensures var zone := Line("---", Line("", text));
            FindSep(zone, 0) == Some(0) && SepEnd(zone, 0) == Some(4) && zone[4..] == Line("", text)
  {
    var zone := "---" + ("\n\n" + text);
    assert "\n" + ("" + ("\n" + text)) == "\n\n" + text;
    FenceEnd("\n\n", text);
    assert zone[4..] == "\n" + text;
    assert "" + ("\n" + text) == "\n" + text;
  }

  lemma ZoneAfterBlank(text: string)
    requires text != "" && !IsSpace(text[0])
    ensures var zone := Line("", Line("---", Line("", text)));
            FindSep(zone, 0) == Some(1) && SepEnd(zone, 1) == Some(5) && zone[..1] == "\n"
                && zone[5..] == Line("", text)
  {
    var zone := Line("---", Line("", text));
    FenceThenText(text);
    SepAfterLine("", zone, 0, 4);
    assert Line("", zone[..0]) == "\n";
  }

  lemma TwoZones(truth: string, text: string)
    requires NoBareFence(truth) && text != "" && !IsSpace(text[0])
    ensures SplitZones(Line(truth, Line("", Line("---", Line("", text))))) == (truth + "\n\n", Line("", text))
  {
    ZoneAfterBlank(text);
    SepAfterLine(truth, Line("", Line("---", Line("", text))), 1, 5);
    assert Line(truth, "\n") == truth + "\n\n";
  }

  lemma OneZone(text: string)
    requires text != "" && !IsSpace(text[0])
    ensures SplitZones(Line("---", Line("", text))) == ("", Line("", text))
  {
    FenceThenText(text);
    assert Line("---", Line("", text))[..0] == "";
  }

  /** The zones of a body with a timeline. */
  lemma BothZonesSplit(truth: string, es: seq<TimelineEntry>)
    requires NoBareFence(truth) && es != []
    ensures SplitZones(Body(truth, es)) == (if truth == "" then "" else truth + "\n\n", Line("", RenderEntries(es)))
  {
    EntriesStartVisible(es);
    if truth == "" {
      OneZone(RenderEntries(es));
    } else {
      TwoZones(truth, RenderEntries(es));
    }
  }

  lemma StripAfter(s: string, after: string)
    requires Stripped(s) && Blank(after)
    ensures Strip(s + after) == s
  {
    StripPadded("", s, after);
    assert "" + s + after == s + after;
  }

  lemma TruthOnlySplits(truth: string)
    requires Stripped(truth) && NoBareFence(truth)
    ensures SplitZones(Body(truth, [])) == (if truth == "" then "" else truth + "\n", "")
  {
    if truth != "" {
      FindAfter(truth, "");
      assert Body(truth, []) == truth + "\n";
    }
  }

  /** The line feeds between the truth and what the parser takes for its end. */
  function PadAfter(truth: string, es: seq<TimelineEntry>): string {
    if truth == "" then "" else if es == [] then "\n" else "\n\n"
  }

  lemma PadIsBlank(truth: string, es: seq<TimelineEntry>)
    ensures Blank(PadAfter(truth, es))
  {}

  lemma BodySplits(truth: string, es: seq<TimelineEntry>)
    requires Stripped(truth) && NoBareFence(truth)
    ensures SplitZones(Body(truth, es)).0 == truth + PadAfter(truth, es)
    ensures SplitZones(Body(truth, es)).1 == if es == [] then "" else Line("", RenderEntries(es))
  {
    if es == [] {
      TruthOnlySplits(truth);
    } else {
      BothZonesSplit(truth, es);
    }
    assert truth == "" ==> truth + PadAfter(truth, es) == "";
  }

  /** What parsing makes of the two zones. */
  function ParsedZones<F>(fm: F, zones: (string, string)): Result<Page<F>, PageError> {
    var entries := ParseLines(Lines(zones.1));
    if entries.Err? then Err(entries.error) else Ok(Page(fm, Strip(zones.0), entries.value))
  }

  /** A truth with some blanks after it, and a zone that is a rendered timeline. */
  lemma ZonesParse<F>(fm: F, zones: (string, string), truth: string, pad: string, es: seq<TimelineEntry>)
    requires Stripped(truth) && Blank(pad) && zones.0 == truth + pad
    requires zones.1 == if es == [] then "" else Line("", RenderEntries(es))
    requires forall i :: 0 <= i < |es| ==> CanonicalEntry(es[i])
    ensures ParsedZones(fm, zones) == Ok(Page(fm, truth, es))
  {
    StripAfter(truth, pad);
    TimelineRoundTrip(es);
    assert Lines("") == [];
  }

  /** Splitting a body at its separator and parsing its zones gives the truth and the timeline back. */
  lemma BodyParses<F>(fm: F, truth: string, es: seq<TimelineEntry>)
    requires Stripped(truth) && NoBareFence(truth)
    requires forall i :: 0 <= i < |es| ==> CanonicalEntry(es[i])
    ensures ParsedZones(fm, SplitZones(Body(truth, es))) == Ok(Page(fm, truth, es))
  {
    PadIsBlank(truth, es);
    BodySplits(truth, es);
    ZonesParse(fm, SplitZones(Body(truth, es)), truth, PadAfter(truth, es), es);
  }

  lemma FirstLineDropped(rest: string)
    ensures AfterFirstLine(Line("---", rest)) == rest && Dashes(Line("---", rest), 0)
  {
    assert Line("---", rest)[1..] == "--" + ("\n" + rest);
    assert ("--" + ("\n" + rest))[1..] == "-" + ("\n" + rest);
    assert ("-" + ("\n" + rest))[1..] == "\n" + rest;
    assert ("\n" + rest)[1..] == rest;
    assert AfterFirstLine("\n" + rest) == rest;
    assert AfterFirstLine("-" + ("\n" + rest)) == rest;
    assert AfterFirstLine("--" + ("\n" + rest)) == rest;
  }

  /** What parsing a rendered page comes down to. */
  lemma ParseOfRender<F>(codec: Codec<F>, p: Page<F>)
    requires Faithful(codec, p.frontmatter) && Stripped(p.truth)
    ensures ParsePage(codec, RenderPage(codec, p)) == ParsedZones(p.frontmatter, SplitZones(Body(p.truth, p.timeline)))
  {
    var yaml := Rstrip(codec.dump(p.frontmatter));
    StrippedIsRstripped(p.truth);
    FirstLineDropped(AfterFence(yaml, p.truth, p.timeline));
    FrontmatterSplits(yaml, p.truth, p.timeline);
  }

  lemma StrippedIsRstripped(s: string)
    requires Stripped(s)
    ensures Rstrip(s) == s
  {}

  /** A truth with a bare fence in it is cut short. */
  lemma FenceCutsText(truth: string, rest: string)
    requires !NoBareFence(truth)
    ensures |Strip(SplitZones(Line(truth, rest)).0)| < |truth|
  {
    var v := FindSep(truth, 0).value;
    var body := Line(truth, rest);
    SepIsBare(truth, v);
    LineParts(truth, rest);
    SepInPrefix(body, |truth|, v);
    var w := FindSep(body, 0);
    assert w.Some? && w.value <= v;
    StripIsStripped(body[..w.value]);
  }

  lemma FenceCutsTruth(truth: string, es: seq<TimelineEntry>)
    requires Stripped(truth) && !NoBareFence(truth)
    ensures |Strip(SplitZones(Body(truth, es)).0)| < |truth|
  {
    FindMeans("");
    FenceCutsText(truth, TimelineZone(es));
  }

  /** Whatever was parsed has a stripped truth and canonical entries. */
  lemma ParsedPageShape<F>(codec: Codec<F>, raw: string)
    requires ParsePage(codec, raw).Ok?
    ensures Stripped(ParsePage(codec, raw).value.truth)
    ensures forall i :: 0 <= i < |ParsePage(codec, raw).value.timeline| ==>
            CanonicalEntry(ParsePage(codec, raw).value.timeline[i])
  {
    var rest := AfterFirstLine(raw);
    var sep := FindSep(rest, 0).value;
    var (truth, timeline) := SplitZones(LstripNewlines(rest[SepEnd(rest, sep).value..]));
    LinesAreSingle(timeline);
    EntriesAreCanonical(Lines(timeline));
    StripIsStripped(truth);
  }

  /** Rendering and parsing a page gives that page back if and only if its truth is stripped and has no bare fence line
      and each timeline entry is a single line with a non-empty, bracket-free source and a stripped text. */
  lemma RoundTripExact<F>(codec: Codec<F>, p: Page<F>)
    requires Faithful(codec, p.frontmatter)
    ensures ParsePage(codec, RenderPage(codec, p)) == Ok(p) <==> Canonical(p)
  {
    var raw := RenderPage(codec, p);
    if ParsePage(codec, raw).Ok? {
      ParsedPageShape(codec, raw);
    }
    if Stripped(p.truth) {
      ParseOfRender(codec, p);
      if NoBareFence(p.truth) {
        if Canonical(p) {
          BodyParses(p.frontmatter, p.truth, p.timeline);
        }
      } else {
        FenceCutsTruth(p.truth, p.timeline);
      }
    }
  }

  /** A page that came out of the parser survives rendering and parsing again if and only if its truth has no bare fence
      line: every other condition holds of whatever was parsed. */
  lemma ReparseExact<F>(codec: Codec<F>, raw: string)
    requires ParsePage(codec, raw).Ok? && Faithful(codec, ParsePage(codec, raw).value.frontmatter)
    ensures var p := ParsePage(codec, raw).value;
            ParsePage(codec, RenderPage(codec, p)) == Ok(p) <==> NoBareFence(p.truth)
  {
    ParsedPageShape(codec, raw);
    RoundTripExact(codec, ParsePage(codec, raw).value);
  }

  lemma IndentedFenceIsText()
    ensures FindSep(" ---\nx", 0).None? && Strip(" ---\nx") == "---\nx" && !NoBareFence("---\nx")
  {
    var text := " ---\nx";
    assert forall k :: 0 <= k <= |text| ==> SepEnd(text, k).None?;
    FindNone(text);
    assert text == " " + "---\nx" + "";
    StripPadded(" ", "---\nx", "");
    assert Bare("---\nx", 0, 3);
    SepIsBare("---\nx", 0);
    FindMeans("---\nx");
  }

  lemma IndentedFenceEnd()
    ensures FencedBody("---\n\n ---\nx", " ---\nx")
  {
    var fenced := "---\n\n ---\nx";
    assert fenced[4] == '\n' && fenced[5] == ' ' && fenced[6] == '-';
    assert Bare(fenced, 0, 4);
    EndIsLast(fenced, 0, 4);
    FindIs(fenced, 0);
    assert fenced[4..] == "\n" + " ---\nx";
    NewlinesStrip("\n", " ---\nx");
  }

  lemma IndentedSplits(yaml: string)
    requires NoBareFence(yaml)
    ensures var rest := Line(yaml, "---\n\n ---\nx");
            && FindSep(rest, 0) == Some(|yaml| + 1)
            && rest[..|yaml| + 1] == yaml + "\n"
            && LstripNewlines(rest[SepEnd(rest, |yaml| + 1).value..]) == " ---\nx"
  {
    IndentedFenceEnd();
    FenceSplits(yaml, "---\n\n ---\nx", " ---\nx");
  }

  /** A hand-edited page whose truth opens with an indented row of dashes is parsed into a page that does not survive:
      stripping the truth moves the dashes to the start of a line, where they read as the zone separator. */
  lemma ReparseCanLoseTruth<F>(codec: Codec<F>, fm: F) returns (raw: string)
    requires Faithful(codec, fm)
    ensures ParsePage(codec, raw) == Ok(Page(fm, "---\nx", []))
    ensures ParsePage(codec, RenderPage(codec, Page(fm, "---\nx", []))) != Ok(Page(fm, "---\nx", []))
  {
    var yaml := Rstrip(codec.dump(fm));
    var rest := Line(yaml, "---\n\n ---\nx");
    raw := Line("---", rest);
    FirstLineDropped(rest);
    IndentedSplits(yaml);
    IndentedFenceIsText();
    assert Lines("") == [];
    RoundTripExact(codec, Page(fm, "---\nx", []));
  }
}
