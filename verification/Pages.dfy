/** The on-disk page format: YAML frontmatter between `---` fences, compiled truth, a `---` line, dated timeline
    entries. Parsing a rendered page gives the page back exactly when the page is canonical. */
module Pages {
  import opened Common

  // ----- Dates -----

  datatype Day = Day(year: nat, month: nat, day: nat)

  predicate IsLeap(year: nat) {
    year % 4 == 0 && (year % 100 != 0 || year % 400 == 0)
  }

  function DaysIn(year: nat, month: nat): nat {
    if month == 2 then if IsLeap(year) then 29 else 28
    else if month in {4, 6, 9, 11} then 30
    else 31
  }

  predicate IsDay(d: Day) {
    1 <= d.year <= 9999 && 1 <= d.month <= 12 && 1 <= d.day <= DaysIn(d.year, d.month)
  }

  type Date = d: Day | IsDay(d) witness Day(1, 1, 1)

  predicate IsDigit(c: char) {
    '0' <= c <= '9'
  }

  /** The zeros of the other decimal digits of Unicode 15.0; the nine that go with each follow it. */
  const OTHER_ZEROS := [
    0x660, 0x6f0, 0x7c0, 0x966, 0x9e6, 0xa66, 0xae6, 0xb66, 0xbe6, 0xc66, 0xce6, 0xd66, 0xde6, 0xe50, 0xed0,
    0xf20, 0x1040, 0x1090, 0x17e0, 0x1810, 0x1946, 0x19d0, 0x1a80, 0x1a90, 0x1b50, 0x1bb0, 0x1c40, 0x1c50,
    0xa620, 0xa8d0, 0xa900, 0xa9d0, 0xa9f0, 0xaa50, 0xabf0, 0xff10, 0x104a0, 0x10d30, 0x11066, 0x110f0, 0x11136,
    0x111d0, 0x112f0, 0x11450, 0x114d0, 0x11650, 0x116c0, 0x11730, 0x118e0, 0x11950, 0x11c50, 0x11d50, 0x11da0,
    0x11f50, 0x16a60, 0x16ac0, 0x16b50, 0x1d7ce, 0x1d7d8, 0x1d7e2, 0x1d7ec, 0x1d7f6, 0x1e140, 0x1e2f0, 0x1e4f0,
    0x1e950, 0x1fbf0]

  /** `\d` */
  predicate IsDecimal(c: char) {
    IsDigit(c) || exists zero :: zero in OTHER_ZEROS && zero <= c as int < zero + 10
  }

  function DigitOf(n: nat): char
    requires n < 10
  {
    ('0' as int + n) as char
  }

  function Value(c: char): nat
    requires IsDigit(c)
  {
    c as int - '0' as int
  }

  function Two(n: nat): string
    requires n < 100
  {
    [DigitOf(n / 10), DigitOf(n % 10)]
  }

  function Iso(d: Date): (s: string)
    ensures |s| == 10
  {
    Two(d.year / 100) + Two(d.year % 100) + "-" + Two(d.month) + "-" + Two(d.day)
  }

  /** `\d{4}-\d{2}-\d{2}` */
  predicate LooksLikeDate(s: string) {
    |s| == 10 && s[4] == '-' && s[7] == '-' && AllButDashes(s, IsDecimal)
  }

  predicate AllButDashes(s: string, kind: char -> bool)
    requires |s| == 10
  {
    forall i :: 0 <= i < 10 && i != 4 && i != 7 ==> kind(s[i])
  }

  /** `date.fromisoformat`: an error for a digit outside ASCII, and for a day that is not in the calendar. */
  function FromIso(s: string): Option<Date>
    requires LooksLikeDate(s)
  {
    if !AllButDashes(s, IsDigit) then None
    else CalendarDay(s)
  }

  function CalendarDay(s: string): Option<Date>
    requires |s| == 10 && AllButDashes(s, IsDigit)
  {
    var d := Day(Value(s[0]) * 1000 + Value(s[1]) * 100 + Value(s[2]) * 10 + Value(s[3]),
                 Value(s[5]) * 10 + Value(s[6]), Value(s[8]) * 10 + Value(s[9]));
    if IsDay(d) then Some(d) else None
  }

  lemma DigitsOfTwo(n: nat)
    requires n < 100
    ensures IsDigit(Two(n)[0]) && IsDigit(Two(n)[1])
    ensures Value(Two(n)[0]) == n / 10 && Value(Two(n)[1]) == n % 10
  {}

  lemma TwoReadsBack(n: nat)
    requires n < 100
    ensures IsDigit(Two(n)[0]) && IsDigit(Two(n)[1])
    ensures Value(Two(n)[0]) * 10 + Value(Two(n)[1]) == n
  {
    DigitsOfTwo(n);
  }

  lemma IsoParts(d: Date)
    ensures Iso(d)[0..2] == Two(d.year / 100) && Iso(d)[2..4] == Two(d.year % 100)
    ensures Iso(d)[5..7] == Two(d.month) && Iso(d)[8..10] == Two(d.day)
    ensures Iso(d)[4] == '-' && Iso(d)[7] == '-'
  {}

  lemma IsoReads(d: Date)
    ensures AllButDashes(Iso(d), IsDigit)
    ensures Value(Iso(d)[0]) * 10 + Value(Iso(d)[1]) == d.year / 100
    ensures Value(Iso(d)[2]) * 10 + Value(Iso(d)[3]) == d.year % 100
    ensures Value(Iso(d)[5]) * 10 + Value(Iso(d)[6]) == d.month
    ensures Value(Iso(d)[8]) * 10 + Value(Iso(d)[9]) == d.day
  {
    IsoParts(d);
    TwoReadsBack(d.year / 100);
    TwoReadsBack(d.year % 100);
    TwoReadsBack(d.month);
    TwoReadsBack(d.day);
    var s := Iso(d);
    assert s[0] == s[0..2][0] && s[1] == s[0..2][1] && s[2] == s[2..4][0] && s[3] == s[2..4][1];
    assert s[5] == s[5..7][0] && s[6] == s[5..7][1] && s[8] == s[8..10][0] && s[9] == s[8..10][1];
  }

  lemma IsoRoundTrip(d: Date)
    ensures LooksLikeDate(Iso(d)) && AllButDashes(Iso(d), IsDigit) && FromIso(Iso(d)) == Some(d)
  {
    IsoParts(d);
    IsoReads(d);
    assert d.year == d.year / 100 * 100 + d.year % 100;
  }

  // ----- Timeline entries -----

  datatype TimelineEntry = TimelineEntry(date: Date, source: string, text: string)

  function RenderEntry(e: TimelineEntry): string {
    Iso(e.date) + " [" + e.source + "]: " + e.text
  }

  /** The characters `str.splitlines` breaks at. */
  predicate IsBreak(c: char) {
    '\n' <= c <= '\r' || '\U{1c}' <= c <= '\U{1e}' || c == '\U{85}' || c == '\U{2028}' || c == '\U{2029}'
  }

  predicate SingleLine(s: string) {
    forall i :: 0 <= i < |s| ==> !IsBreak(s[i])
  }

  function FirstBreak(s: string, from: nat): (j: nat)
    requires from <= |s|
    ensures from <= j <= |s| && (forall i :: from <= i < j ==> !IsBreak(s[i])) && (j < |s| ==> IsBreak(s[j]))
    decreases |s| - from
  {
    if from < |s| && !IsBreak(s[from]) then FirstBreak(s, from + 1) else from
  }

  /** Where the line after the break at `j` starts: a carriage return takes a line feed with it. */
  function AfterBreak(s: string, j: nat): (k: nat)
    requires j < |s|
    ensures j < k <= |s|
  {
    if s[j] == '\r' && j + 1 < |s| && s[j + 1] == '\n' then j + 2 else j + 1
  }

  /** `splitlines` */
  function Lines(s: string): seq<string> {
    var j := FirstBreak(s, 0);
    if s == "" then [] else if j == |s| then [s] else [s[..j]] + Lines(s[AfterBreak(s, j)..])
  }

  function FirstBracket(s: string, from: nat): (j: nat)
    requires from <= |s|
    ensures from <= j <= |s| && (forall i :: from <= i < j ==> s[i] != ']') && (j < |s| ==> s[j] == ']')
    decreases |s| - from
  {
    if from < |s| && s[from] != ']' then FirstBracket(s, from + 1) else from
  }

  /** What one line of the timeline is taken for. */
  datatype LineKind = Ignored | BadDate | Parsed(entry: TimelineEntry)

  /** The entry pattern, on a stripped line: date, blanks, a bracketed source, a colon, blanks, the text. */
  function MatchEntry(s: string): LineKind {
    if |s| < 10 || !LooksLikeDate(s[..10]) then Ignored
    else
      var open := SpaceRun(s, 10);
      if open == 10 || open == |s| || s[open] != '[' then Ignored
      else
        var close := FirstBracket(s, open + 1);
        if close == open + 1 || close + 1 >= |s| || s[close + 1] != ':' then Ignored
        else if FromIso(s[..10]).None? then BadDate
        else Parsed(TimelineEntry(FromIso(s[..10]).value, s[open + 1..close], s[SpaceRun(s, close + 2)..]))
  }

  function ParseLine(line: string): LineKind {
    var s := Strip(line);
    if s == "" || s[0] == '#' || (|s| >= 2 && s[..2] == "//") then Ignored else MatchEntry(s)
  }

  datatype PageError = NoFrontmatter | NoClosingFence | BadFrontmatter | InvalidDate

  type Entries = Result<seq<TimelineEntry>, PageError>

  function Extended(front: Entries, kind: LineKind): Entries {
    if front.Err? then front
    else
      match kind
      case Ignored => front
      case BadDate => Err(InvalidDate)
      case Parsed(e) => Ok(front.value + [e])
  }

  function Collected(kinds: seq<LineKind>): Entries {
    if kinds == [] then Ok([]) else Extended(Collected(kinds[..|kinds| - 1]), kinds[|kinds| - 1])
  }

  function Kinds(lines: seq<string>): seq<LineKind> {
    Mapped(ParseLine, lines)
  }

  function ParseLines(lines: seq<string>): Entries {
    Collected(Kinds(lines))
  }

  // ----- Zone separators -----

  /** The end of a match of `^---\s*$` that starts at `i`: the last line end within the whitespace after the dashes. */
  function SepEnd(text: string, i: nat): Option<nat>
    requires i <= |text|
  {
    if !LineStart(text, i) || !Dashes(text, i) then None
    else LastLineEnd(text, i + 3, SpaceRun(text, i + 3))
  }

  predicate Dashes(text: string, i: nat) {
    i + 3 <= |text| && text[i] == '-' && text[i + 1] == '-' && text[i + 2] == '-'
  }

  predicate LineStart(text: string, i: nat)
    requires i <= |text|
  {
    i == 0 || text[i - 1] == '\n'
  }

  predicate LineEnd(text: string, i: nat)
    requires i <= |text|
  {
    i == |text| || text[i] == '\n'
  }

  function LastLineEnd(text: string, lo: nat, hi: nat): (r: Option<nat>)
    requires lo <= hi <= |text|
    ensures r.Some? ==> lo <= r.value <= hi && LineEnd(text, r.value)
    ensures r.Some? ==> forall k :: r.value < k <= hi ==> !LineEnd(text, k)
    ensures r.None? ==> forall k :: lo <= k <= hi ==> !LineEnd(text, k)
    decreases hi - lo
  {
    if LineEnd(text, hi) then Some(hi)
    else if lo == hi then None
    else LastLineEnd(text, lo, hi - 1)
  }

  /** The first separator at or after `i`, as its start; its end is `SepEnd`. */
  function FindSep(text: string, i: nat): (r: Option<nat>)
    requires i <= |text|
    ensures r.Some? ==> i <= r.value <= |text| && SepEnd(text, r.value).Some?
    ensures r.Some? ==> forall k :: i <= k < r.value ==> SepEnd(text, k).None?
    ensures r.None? ==> forall k :: i <= k <= |text| ==> SepEnd(text, k).None?
    decreases |text| - i
  {
    if SepEnd(text, i).Some? then Some(i)
    else if i == |text| then None
    else FindSep(text, i + 1)
  }

  function LstripNewlines(s: string): string {
    if s != "" && s[0] == '\n' then LstripNewlines(s[1..]) else s
  }

  function SplitZones(body: string): (string, string) {
    var sep := FindSep(body, 0);
    if sep.None? then (body, "") else (body[..sep.value], body[SepEnd(body, sep.value).value..])
  }

  // ----- Pages -----

  datatype Page<F> = Page(frontmatter: F, truth: string, timeline: seq<TimelineEntry>)

  /** The YAML library: how it writes frontmatter, and what it reads it as, if it accepts it. */
  datatype Codec<!F> = Codec(dump: F -> string, load: string -> Option<F>)

  /** `raw.split("\n", 1)[1] if "\n" in raw else ""` */
  function AfterFirstLine(raw: string): string {
    if raw == "" then "" else if raw[0] == '\n' then raw[1..] else AfterFirstLine(raw[1..])
  }

  function ParsePage<F>(codec: Codec<F>, raw: string): Result<Page<F>, PageError> {
    if !Dashes(raw, 0) then Err(NoFrontmatter)
    else
      var rest := AfterFirstLine(raw);
      var sep := FindSep(rest, 0);
      if sep.None? then Err(NoClosingFence)
      else
        var fm := codec.load(rest[..sep.value]);
        if fm.None? then Err(BadFrontmatter)
        else
          var (truth, timeline) := SplitZones(LstripNewlines(rest[SepEnd(rest, sep.value).value..]));
          var entries := ParseLines(Lines(timeline));
          if entries.Err? then Err(entries.error)
          else Ok(Page(fm.value, Strip(truth), entries.value))
  }

  /** One line of text and what follows it. */
  function Line(line: string, rest: string): string {
    line + ("\n" + rest)
  }

  function Rendered(es: seq<TimelineEntry>): seq<string> {
    Mapped(RenderEntry, es)
  }

  /** Lines with a line feed after each. */
  function Closed(lines: seq<string>): string {
    if lines == [] then "" else Line(lines[0], Closed(lines[1..]))
  }

  function RenderEntries(es: seq<TimelineEntry>): string {
    Closed(Rendered(es))
  }

  /** What follows the compiled truth and its line feed. */
  function TimelineZone(es: seq<TimelineEntry>): string {
    if es == [] then "" else Line("", Line("---", Line("", RenderEntries(es))))
  }

  /** What follows the opening fence. */
  function AfterFence(yaml: string, truth: string, es: seq<TimelineEntry>): string {
    Line(yaml, Line("---", Line("", Line(truth, TimelineZone(es)))))
  }

  function RenderPage<F>(codec: Codec<F>, p: Page<F>): string {
    Line("---", AfterFence(Rstrip(codec.dump(p.frontmatter)), Rstrip(p.truth), p.timeline))
  }

  /** A coherence warning, its tiers by name. */
  datatype Contradiction = Contradiction(subject: string, pred: string, newObject: string, newTier: string,
                                         conflictingObject: string, conflictingTier: string)

  const CALLOUT := "> [!contradiction] Unresolved tier conflict"

  function CalloutLine(w: Contradiction): string {
    var about := "`" + w.subject + " " + w.pred + " = ";
    "> - " + about + w.newObject + "` (" + w.newTier + ") vs " + about + w.conflictingObject + "` (" +
        w.conflictingTier + ")"
  }

  function Callout(ws: seq<Contradiction>): seq<string> {
    [CALLOUT] + Mapped(CalloutLine, ws)
  }

  /** What the warnings put in front of the compiled truth. */
  function Heading(ws: seq<Contradiction>): string {
    if ws == [] then "" else Closed(Callout(ws) + [""])
  }

  function RenderWithWarnings<F>(codec: Codec<F>, p: Page<F>, ws: seq<Contradiction>): string {
    Line("---", AfterFence(Rstrip(codec.dump(p.frontmatter)), Heading(ws) + Rstrip(p.truth), p.timeline))
  }

  // ----- The methods -----

  function Join(parts: seq<string>): string {
    if parts == [] then "" else if |parts| == 1 then parts[0] else Line(parts[0], Join(parts[1..]))
  }

  lemma JoinCons(first: string, rest: seq<string>)
    requires rest != []
    ensures Join([first] + rest) == Line(first, Join(rest))
  {
    assert ([first] + rest)[1..] == rest;
  }

  method Render<F>(codec: Codec<F>, p: Page<F>, ws: seq<Contradiction>) returns (raw: string)
    ensures raw == RenderWithWarnings(codec, p, ws)
  {
    var yaml, truth := Rstrip(codec.dump(p.frontmatter)), Rstrip(p.truth);
    var parts := ["---", yaml, "---", ""];
    var callout: seq<string> := [];
    if ws != [] {
      callout := RenderCallout(ws);
      callout := callout + [""];
    }
    var zone := [""];
    if p.timeline != [] {
      var lines: seq<string> := [];
      for i := 0 to |p.timeline|
        invariant lines == Rendered(p.timeline[..i])
      {
        lines := lines + [RenderEntry(p.timeline[i])];
      }
      assert p.timeline[..|p.timeline|] == p.timeline;
      zone := zone + (["---", ""] + (lines + [""]));
    }
    ZoneJoins(p.timeline);
    BodyJoins(callout, truth, zone);
    PageJoins(yaml, callout + ([truth] + zone));
    parts := parts + (callout + ([truth] + zone));
    raw := Join(parts);
  }

  method RenderCallout(ws: seq<Contradiction>) returns (lines: seq<string>)
    ensures lines == Callout(ws)
  {
    lines := [CALLOUT];
    for i := 0 to |ws|
      invariant lines == [CALLOUT] + Mapped(CalloutLine, ws[..i])
    {
      lines := lines + [CalloutLine(ws[i])];
    }
    assert ws[..|ws|] == ws;
  }

  lemma PageJoins(yaml: string, body: seq<string>)
    requires body != []
    ensures Join(["---", yaml, "---", ""] + body) == Line("---", Line(yaml, Line("---", Line("", Join(body)))))
  {
    JoinCons("", body);
    JoinCons("---", [""] + body);
    JoinCons(yaml, ["---"] + ([""] + body));
    JoinCons("---", [yaml] + (["---"] + ([""] + body)));
    assert ["---", yaml, "---", ""] + body == ["---"] + ([yaml] + (["---"] + ([""] + body)));
  }

  lemma LineConcat(line: string, a: string, b: string)
    ensures Line(line, a + b) == Line(line, a) + b
  {
    assert "\n" + (a + b) == ("\n" + a) + b;
  }

  lemma {:induction false} ClosedThenJoin(lines: seq<string>, rest: seq<string>)
    requires rest != []
    ensures Join(lines + rest) == Closed(lines) + Join(rest)
  {
    if lines == [] {
      assert lines + rest == rest && "" + Join(rest) == Join(rest);
    } else {
      ClosedThenJoin(lines[1..], rest);
      assert lines + rest == [lines[0]] + (lines[1..] + rest);
      JoinCons(lines[0], lines[1..] + rest);
      LineConcat(lines[0], Closed(lines[1..]), Join(rest));
    }
  }

  lemma BodyJoins(callout: seq<string>, truth: string, zone: seq<string>)
    requires zone != []
    ensures Join(callout + ([truth] + zone)) == Line(Closed(callout) + truth, Join(zone))
  {
    ClosedThenJoin(callout, [truth] + zone);
    JoinCons(truth, zone);
    assert Closed(callout) + (truth + ("\n" + Join(zone))) == (Closed(callout) + truth) + ("\n" + Join(zone));
  }

  lemma {:induction false} LinesJoin(lines: seq<string>)
    ensures Join(lines + [""]) == Closed(lines)
  {
    if lines == [] {
      assert lines + [""] == [""];
    } else {
      LinesJoin(lines[1..]);
      assert lines + [""] == [lines[0]] + (lines[1..] + [""]);
      JoinCons(lines[0], lines[1..] + [""]);
    }
  }

  lemma ZoneJoins(es: seq<TimelineEntry>)
    ensures Join([""]) == ""
    ensures es != [] ==> Join([""] + (["---", ""] + (Rendered(es) + [""]))) == TimelineZone(es)
  {
    var lines := Rendered(es) + [""];
    LinesJoin(Rendered(es));
    JoinCons("", lines);
    JoinCons("---", [""] + lines);
    JoinCons("", ["---"] + ([""] + lines));
    assert ["---", ""] + lines == ["---"] + ([""] + lines);
  }

  method ParseTimeline(text: string) returns (r: Result<seq<TimelineEntry>, PageError>)
    ensures r == ParseLines(Lines(text))
  {
    var lines := Lines(text);
    ghost var kinds := Kinds(lines);
    var entries: seq<TimelineEntry> := [];
    for i := 0 to |lines|
      invariant Collected(kinds[..i]) == Ok(entries)
    {
      var kind := ParseLine(lines[i]);
      assert kind == kinds[i];
      CollectNext(kinds, i);
      if kind.BadDate? {
        ErrorStops(kinds, i + 1);
        return Err(InvalidDate);
      }
      if kind.Parsed? {
        entries := entries + [kind.entry];
      }
    }
    assert kinds[..|lines|] == kinds;
    return Ok(entries);
  }

  lemma CollectNext(kinds: seq<LineKind>, i: nat)
    requires i < |kinds|
    ensures Collected(kinds[..i + 1]) == Extended(Collected(kinds[..i]), kinds[i])
  {
    assert kinds[..i + 1][..i] == kinds[..i];
  }

  lemma {:induction false} ErrorStops(kinds: seq<LineKind>, k: nat)
    requires k <= |kinds| && Collected(kinds[..k]).Err?
    ensures Collected(kinds) == Collected(kinds[..k])
    decreases |kinds| - k
  {
    if k == |kinds| {
      assert kinds[..k] == kinds;
    } else {
      CollectNext(kinds, k);
      ErrorStops(kinds, k + 1);
    }
  }
}
