/** The entry pattern by the places of its parts: which lines of a timeline are entries, whoever wrote them, and what is
    read off them. */
module EntryLines {
  import opened Common
  import opened Pages

  predicate SpacesIn(s: string, lo: nat, hi: nat)
    requires lo <= hi <= |s|
  {
    forall k :: lo <= k < hi ==> IsSpace(s[k])
  }

  predicate NoBracketIn(s: string, lo: nat, hi: nat)
    requires lo <= hi <= |s|
  {
    forall k :: lo <= k < hi ==> s[k] != ']'
  }

  /** The line is a date of ten places, blanks, a bracketed source from `open` to `close`, a colon, blanks, and the text
      from `rest` on. */
  predicate EntryAt(s: string, open: nat, close: nat, rest: nat) {
    && 10 < open && open + 1 < close && close + 2 <= rest <= |s|
    && LooksLikeDate(s[..10]) && SpacesIn(s, 10, open)
    && s[open] == '[' && NoBracketIn(s, open + 1, close) && s[close] == ']' && s[close + 1] == ':'
    && SpacesIn(s, close + 2, rest) && (rest < |s| ==> !IsSpace(s[rest]))
  }

  lemma SpaceRunIs(s: string, i: nat, j: nat)
    requires i <= j <= |s| && SpacesIn(s, i, j) && (j < |s| ==> !IsSpace(s[j]))
    ensures SpaceRun(s, i) == j
  {
    var r := SpaceRun(s, i);
    assert !(r < j) && !(j < r);
  }

  lemma FirstBracketIs(s: string, i: nat, j: nat)
    requires i <= j < |s| && NoBracketIn(s, i, j) && s[j] == ']'
    ensures FirstBracket(s, i) == j
  {
    var r := FirstBracket(s, i);
    assert !(r < j) && !(j < r);
  }

  /** What a line in the pattern is read as; its date may not be in the calendar. */
  function Read(s: string, open: nat, close: nat, rest: nat): LineKind
    requires EntryAt(s, open, close, rest)
  {
    if FromIso(s[..10]).None? then BadDate
    else Parsed(TimelineEntry(FromIso(s[..10]).value, s[open + 1..close], s[rest..]))
  }

  lemma MatchAtPlaces(s: string, open: nat, close: nat, rest: nat)
    requires |s| >= 10 && LooksLikeDate(s[..10]) && SpaceRun(s, 10) == open
    requires 10 < open < |s| && s[open] == '[' && FirstBracket(s, open + 1) == close
    requires open + 1 < close && close + 1 < |s| && s[close + 1] == ':' && SpaceRun(s, close + 2) == rest
    ensures MatchEntry(s) == if FromIso(s[..10]).None? then BadDate
                             else Parsed(TimelineEntry(FromIso(s[..10]).value, s[open + 1..close], s[rest..]))
  {}

  lemma EntryIsRead(s: string, open: nat, close: nat, rest: nat)
    requires EntryAt(s, open, close, rest)
    ensures MatchEntry(s) == Read(s, open, close, rest)
  {
    assert s[open] == '[' && !IsSpace(s[open]);
    SpaceRunIs(s, 10, open);
    FirstBracketIs(s, open + 1, close);
    SpaceRunIs(s, close + 2, rest);
    MatchAtPlaces(s, open, close, rest);
  }

  lemma ReadIsEntry(s: string) returns (open: nat, close: nat, rest: nat)
    requires !MatchEntry(s).Ignored?
    ensures EntryAt(s, open, close, rest)
  {
    open := SpaceRun(s, 10);
    close := FirstBracket(s, open + 1);
    rest := SpaceRun(s, close + 2);
  }

  ghost predicate InPattern(s: string) {
    exists open, close, rest :: EntryAt(s, open, close, rest)
  }

  predicate IsComment(s: string) {
    s != "" && (s[0] == '#' || (|s| >= 2 && s[0] == '/' && s[1] == '/'))
  }

  /** A line of a timeline is an entry, or refused for its date, if and only if it is in the pattern once it is
      stripped, and no comment. */
  lemma ParseLineExact(line: string)
    ensures !ParseLine(line).Ignored? <==> InPattern(Strip(line)) && !IsComment(Strip(line))
  {
    var s := Strip(line);
    CommentsIgnored(line);
    if !MatchEntry(s).Ignored? {
      var open, close, rest := ReadIsEntry(s);
    }
    if InPattern(s) {
      var open, close, rest :| EntryAt(s, open, close, rest);
      EntryIsRead(s, open, close, rest);
    }
  }

  lemma CommentsIgnored(line: string)
    ensures ParseLine(line) == if IsComment(Strip(line)) then Ignored else MatchEntry(Strip(line))
  {
    var s := Strip(line);
    if |s| >= 2 {
      assert s[..2] == [s[0], s[1]];
    }
  }

  /** And it is read as its parts say. */
  lemma ParseLineReads(line: string, open: nat, close: nat, rest: nat)
    requires EntryAt(Strip(line), open, close, rest) && !IsComment(Strip(line))
    ensures ParseLine(line) == Read(Strip(line), open, close, rest)
  {
    CommentsIgnored(line);
    EntryIsRead(Strip(line), open, close, rest);
  }
}
