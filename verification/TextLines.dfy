/** Lines and blanks of text, by the characters themselves. */
module TextLines {
  import opened Common
  import opened Pages

  /** The characters that count as blank. */
  lemma SpacesAre(c: char)
    ensures IsSpace(c) <==>
            c as int in {0x09, 0x0a, 0x0b, 0x0c, 0x0d, 0x1c, 0x1d, 0x1e, 0x1f, 0x20, 0x85, 0xa0, 0x1680, 0x2000, 0x2001,
                         0x2002, 0x2003, 0x2004, 0x2005, 0x2006, 0x2007, 0x2008, 0x2009, 0x200a, 0x2028, 0x2029, 0x202f,
                         0x205f, 0x3000}
  {}

  /** The characters that end a line. */
  lemma BreaksAre(c: char)
    ensures IsBreak(c) <==> c as int in {0x0a, 0x0b, 0x0c, 0x0d, 0x1c, 0x1d, 0x1e, 0x85, 0x2028, 0x2029}
  {}

  /** The text of these lines with these ends. */
  function Glued(lines: seq<string>, ends: seq<string>): string
    requires |lines| == |ends|
  {
    if lines == [] then "" else lines[0] + (ends[0] + Glued(lines[1..], ends[1..]))
  }

  /** How one line may end: with one break character, with a carriage return and a line feed, or, if it is the last
      and not empty, with the text. A carriage return alone is not followed by a line feed. */
  predicate EndsWell(line: string, end: string, rest: string) {
    || (|end| == 1 && IsBreak(end[0]) && (end[0] == '\r' && rest != "" ==> rest[0] != '\n'))
    || end == "\r\n"
    || (end == "" && rest == "" && line != "")
  }

  /** Lines without break characters in them, each with its end. */
  predicate WellGlued(lines: seq<string>, ends: seq<string>) {
    && |lines| == |ends|
    && (lines != [] ==>
          && SingleLine(lines[0]) && EndsWell(lines[0], ends[0], Glued(lines[1..], ends[1..]))
          && WellGlued(lines[1..], ends[1..]))
  }

  lemma FirstBreakIs(s: string, j: nat)
    requires j <= |s| && SingleLine(s[..j]) && (j < |s| ==> IsBreak(s[j]))
    ensures FirstBreak(s, 0) == j
  {
    var r := FirstBreak(s, 0);
    assert forall i :: 0 <= i < j ==> s[i] == s[..j][i];
    assert !(r < j) && !(j < r);
  }

  lemma OneLine(line: string, end: string, rest: string)
    requires SingleLine(line) && EndsWell(line, end, rest)
    ensures line + (end + rest) != ""
    ensures FirstBreak(line + (end + rest), 0) == |line|
    ensures end != "" ==> AfterBreak(line + (end + rest), |line|) == |line| + |end|
    ensures end != "" ==> (line + (end + rest))[|line| + |end|..] == rest
  {
    var s := line + (end + rest);
    assert s[..|line|] == line && s[|line|..] == end + rest;
    if end != "" {
      assert s[|line|] == end[0];
      if rest != "" {
        assert s[|line| + |end|] == rest[0];
      }
      if end == "\r\n" {
        assert s[|line| + 1] == '\n';
      }
    }
    FirstBreakIs(s, |line|);
  }

  /** However a text is made of lines and their ends, those are the lines that come back. */
  lemma {:induction false} LinesOfGlued(lines: seq<string>, ends: seq<string>)
    requires WellGlued(lines, ends)
    ensures Lines(Glued(lines, ends)) == lines
    decreases |lines|
  {
    if lines != [] {
      var rest := Glued(lines[1..], ends[1..]);
      OneLine(lines[0], ends[0], rest);
      LinesOfGlued(lines[1..], ends[1..]);
      if ends[0] == "" {
        NothingGlued(lines[1..], ends[1..]);
        assert lines == [lines[0]];
        assert Glued(lines, ends) == lines[0];
      } else {
        assert lines == [lines[0]] + lines[1..];
      }
    }
  }

  lemma NothingGlued(lines: seq<string>, ends: seq<string>)
    requires WellGlued(lines, ends) && Glued(lines, ends) == ""
    ensures lines == []
  {
    if lines != [] {
      OneLine(lines[0], ends[0], Glued(lines[1..], ends[1..]));
    }
  }

  lemma UpToBreak(s: string)
    ensures SingleLine(s[..FirstBreak(s, 0)])
  {
    var j := FirstBreak(s, 0);
    assert forall i :: 0 <= i < j ==> s[..j][i] == s[i];
  }

  lemma BreakEnds(s: string, j: nat)
    requires j < |s| && IsBreak(s[j])
    ensures EndsWell(s[..j], s[j..AfterBreak(s, j)], s[AfterBreak(s, j)..])
  {
    var k := AfterBreak(s, j);
    assert s[j..k][0] == s[j];
    if k == j + 2 {
      assert s[j..k] == [s[j], s[j + 1]];
    } else if k < |s| {
      assert s[k..][0] == s[k];
    }
  }

  lemma GlueFirst(line: string, end: string, lines: seq<string>, ends: seq<string>)
    requires WellGlued(lines, ends) && SingleLine(line) && EndsWell(line, end, Glued(lines, ends))
    ensures WellGlued([line] + lines, [end] + ends)
    ensures Glued([line] + lines, [end] + ends) == line + (end + Glued(lines, ends))
  {
    assert ([line] + lines)[1..] == lines && ([end] + ends)[1..] == ends;
  }

  lemma {:induction false} SomeGlue(s: string) returns (lines: seq<string>, ends: seq<string>)
    ensures WellGlued(lines, ends) && Glued(lines, ends) == s
    decreases |s|
  {
    lines, ends := [], [];
    if s != "" {
      var j := FirstBreak(s, 0);
      UpToBreak(s);
      if j == |s| {
        assert s[..j] == s;
        GlueFirst(s, "", lines, ends);
        lines, ends := [s] + lines, [""] + ends;
      } else {
        var k := AfterBreak(s, j);
        BreakEnds(s, j);
        lines, ends := SomeGlue(s[k..]);
        GlueFirst(s[..j], s[j..k], lines, ends);
        lines, ends := [s[..j]] + lines, [s[j..k]] + ends;
        assert s == s[..j] + (s[j..k] + s[k..]);
      }
    }
  }

  /** And every text is made so. */
  lemma EveryTextIsGlued(s: string) returns (ends: seq<string>)
    ensures WellGlued(Lines(s), ends) && Glued(Lines(s), ends) == s
  {
    var lines;
    lines, ends := SomeGlue(s);
    LinesOfGlued(lines, ends);
  }

  // ----- Separator lines and refusals -----

  /** A separator may stand from i to e: a line that begins with three dashes and has nothing but blanks after them,
      which may be further empty lines, up to the end of a line. */
  predicate SeparatorFromTo(text: string, i: nat, e: nat) {
    && i + 3 <= e <= |text|
    && (i == 0 || text[i - 1] == '\n') && text[i] == '-' && text[i + 1] == '-' && text[i + 2] == '-'
    && (forall k :: i + 3 <= k < e ==> IsSpace(text[k]))
    && (e == |text| || text[e] == '\n')
  }

  predicate HasSeparator(text: string) {
    exists i, e :: 0 <= i <= e <= |text| && SeparatorFromTo(text, i, e)
  }

  /** The pattern matches at a place if a separator stands there, and takes the longest. */
  lemma SeparatorExact(text: string, i: nat, e: nat)
    requires i <= |text|
    ensures SepEnd(text, i) == Some(e) <==>
            SeparatorFromTo(text, i, e) && forall k :: e < k <= |text| ==> !SeparatorFromTo(text, i, k)
    ensures SepEnd(text, i) == None <==> forall k :: 0 <= k <= |text| ==> !SeparatorFromTo(text, i, k)
  {
    if LineStart(text, i) && Dashes(text, i) {
      var run := SpaceRun(text, i + 3);
      forall k | i + 3 <= k <= |text|
        ensures SeparatorFromTo(text, i, k) <==> k <= run && LineEnd(text, k)
      {
        if k > run {
          assert !IsSpace(text[run]);
        }
      }
      var last := LastLineEnd(text, i + 3, run);
      if SeparatorFromTo(text, i, e) && forall k :: e < k <= |text| ==> !SeparatorFromTo(text, i, k) {
        assert last.Some? && !(e < last.value);
      }
    }
  }

  lemma {:induction false} OnlyDatesFail(kinds: seq<LineKind>)
    ensures Collected(kinds).Err? ==> Collected(kinds) == Err(InvalidDate)
    decreases |kinds|
  {
    if kinds != [] {
      OnlyDatesFail(kinds[..|kinds| - 1]);
    }
  }

  lemma FoundIfAny(text: string)
    ensures FindSep(text, 0).Some? <==> HasSeparator(text)
  {
    var sep := FindSep(text, 0);
    if sep.Some? {
      var e := SepEnd(text, sep.value).value;
      SeparatorExact(text, sep.value, e);
      assert 0 <= sep.value <= e <= |text|;
    }
    if i, e :| 0 <= i <= e <= |text| && SeparatorFromTo(text, i, e) {
      SeparatorExact(text, i, e);
      assert SepEnd(text, i).Some?;
    }
  }

  lemma DashesAre(s: string)
    ensures Dashes(s, 0) <==> |s| >= 3 && s[..3] == "---"
  {
    if |s| >= 3 {
      assert s[..3] == [s[0], s[1], s[2]];
    }
  }

  lemma OtherwiseNotRefused<F>(codec: Codec<F>, raw: string)
    requires Dashes(raw, 0) && FindSep(AfterFirstLine(raw), 0).Some?
    ensures ParsePage(codec, raw).Err? ==> ParsePage(codec, raw).error in {BadFrontmatter, InvalidDate}
  {
    var rest := AfterFirstLine(raw);
    var zones := SplitZones(LstripNewlines(rest[SepEnd(rest, FindSep(rest, 0).value).value..]));
    OnlyDatesFail(Kinds(Lines(zones.1)));
  }

  /** A page is refused for its frontmatter exactly when it does not begin with three dashes, and for its closing fence
      when no separator stands in what follows its first line. */
  lemma RefusalsExact<F>(codec: Codec<F>, raw: string)
    ensures ParsePage(codec, raw) == Err(NoFrontmatter) <==> !(|raw| >= 3 && raw[..3] == "---")
    ensures ParsePage(codec, raw) == Err(NoClosingFence) <==>
            |raw| >= 3 && raw[..3] == "---" && !HasSeparator(AfterFirstLine(raw))
  {
    DashesAre(raw);
    FoundIfAny(AfterFirstLine(raw));
    if Dashes(raw, 0) && FindSep(AfterFirstLine(raw), 0).Some? {
      OtherwiseNotRefused(codec, raw);
    }
  }

  /** The calendar: months of 31 and 30 days, and a February of 29 days in the years divisible by 400, or by 4 and not
      by 100. */
  lemma CalendarMeans(d: Day)
    ensures IsDay(d) <==>
            && 1 <= d.year < 10000 && d.day >= 1
            && (|| (d.month in {1, 3, 5, 7, 8, 10, 12} && d.day <= 31)
                || (d.month in {4, 6, 9, 11} && d.day <= 30)
                || (d.month == 2 && d.day <= 28)
                || (d.month == 2 && d.day == 29 && (d.year % 400 == 0 || (d.year % 4 == 0 && d.year % 100 != 0))))
  {}

  lemma CalloutLineIs(w: Contradiction)
    ensures CalloutLine(w) == "> - `" + w.subject + " " + w.pred + " = " + w.newObject + "` (" + w.newTier + ") vs `" +
                              w.subject + " " + w.pred + " = " + w.conflictingObject + "` (" + w.conflictingTier + ")"
  {}

  /** The callout is its head line and one line per warning, in their order, that names both triples, each with its own
      tier. */
  lemma CalloutMeans(ws: seq<Contradiction>, i: nat)
    requires i < |ws|
    ensures |Callout(ws)| == |ws| + 1 && Callout(ws)[0] == "> [!contradiction] Unresolved tier conflict"
    ensures Callout(ws)[i + 1] == "> - `" + ws[i].subject + " " + ws[i].pred + " = " + ws[i].newObject + "` (" +
                                  ws[i].newTier + ") vs `" + ws[i].subject + " " + ws[i].pred + " = " +
                                  ws[i].conflictingObject + "` (" + ws[i].conflictingTier + ")"
  {
    assert Callout(ws)[i + 1] == CalloutLine(ws[i]);
    CalloutLineIs(ws[i]);
  }
}
