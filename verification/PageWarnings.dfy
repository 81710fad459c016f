/** Pages rendered with coherence warnings: no parser knows the callout, so that it comes back as compiled truth. */
module PageWarnings {
  import opened Common
  import opened Pages
  import opened PageRoundTrip

  // ----- The callout as text -----

  lemma {:induction false} ClosedSnoc(lines: seq<string>, last: string)
    ensures Closed(lines + [last]) == Closed(lines) + (last + "\n")
  {
    if lines == [] {
      assert [] + [last] == [last] && [last][1..] == [];
      assert last + ("\n" + "") == last + "\n" && "" + (last + "\n") == last + "\n";
    } else {
      ClosedSnoc(lines[1..], last);
      assert (lines + [last])[1..] == lines[1..] + [last];
      LineConcat(lines[0], Closed(lines[1..]), last + "\n");
    }
  }

  /** The callout as one text: its lines, with line feeds between them. */
  function CalloutText(ws: seq<Contradiction>): string
    requires ws != []
  {
    Closed(CalloutFront(ws)) + CalloutLine(ws[|ws| - 1])
  }

  function CalloutFront(ws: seq<Contradiction>): seq<string>
    requires ws != []
  {
    [CALLOUT] + Mapped(CalloutLine, ws[..|ws| - 1])
  }

  lemma TwoFeeds(a: string, b: string)
    ensures (a + (b + "\n")) + ("" + "\n") == (a + b) + "\n\n"
  {
    assert "" + "\n" == "\n";
    assert (a + (b + "\n")) + "\n" == ((a + b) + "\n") + "\n";
  }

  lemma HeadingIsText(ws: seq<Contradiction>)
    requires ws != []
    ensures Heading(ws) == CalloutText(ws) + "\n\n"
  {
    var last := CalloutLine(ws[|ws| - 1]);
    assert Callout(ws) == CalloutFront(ws) + [last];
    ClosedSnoc(CalloutFront(ws), last);
    ClosedSnoc(Callout(ws), "");
    TwoFeeds(Closed(CalloutFront(ws)), last);
  }

  lemma LineEnds(w: Contradiction)
    ensures CalloutLine(w) != "" && CalloutLine(w)[|CalloutLine(w)| - 1] == ')'
  {}

  lemma CalloutVisible(ws: seq<Contradiction>)
    requires ws != []
    ensures CalloutText(ws) != "" && CalloutText(ws)[0] == '>' && Stripped(CalloutText(ws))
  {
    var front, last := CalloutFront(ws), CalloutLine(ws[|ws| - 1]);
    LineEnds(ws[|ws| - 1]);
    var rest := Closed(front[1..]);
    assert front[0] == CALLOUT && Closed(front) == Line(CALLOUT, rest);
    assert Line(CALLOUT, rest)[0] == CALLOUT[0] == '>';
    var text := CalloutText(ws);
    assert text[|text| - 1] == last[|last| - 1];
  }

  // ----- With a truth -----

  /** The truth that comes back. */
  function TruthWithCallout(truth: string, ws: seq<Contradiction>): string
    requires ws != []
  {
    if Rstrip(truth) == "" then CalloutText(ws) else CalloutText(ws) + "\n\n" + Rstrip(truth)
  }

  lemma TruthGrows(truth: string, ws: seq<Contradiction>)
    requires ws != []
    ensures TruthWithCallout(truth, ws) != truth
    ensures Stripped(TruthWithCallout(truth, ws))
    ensures Rstrip(truth) != "" ==> Heading(ws) + Rstrip(truth) == TruthWithCallout(truth, ws)
  {
    HeadingIsText(ws);
    CalloutVisible(ws);
    var grown, kept := TruthWithCallout(truth, ws), Rstrip(truth);
    if kept != "" {
      assert grown[|grown| - 1] == kept[|kept| - 1];
      assert |grown| > |kept|;
    }
    StrippedIsRstripped(grown);
  }

  /** A page that has a truth, rendered with warnings, is the page with the callout written into its truth. */
  lemma WarnedRendering<F>(codec: Codec<F>, p: Page<F>, ws: seq<Contradiction>)
    requires ws != [] && Rstrip(p.truth) != ""
    ensures RenderWithWarnings(codec, p, ws) == RenderPage(codec, p.(truth := TruthWithCallout(p.truth, ws)))
  {
    TruthGrows(p.truth, ws);
    StrippedIsRstripped(TruthWithCallout(p.truth, ws));
  }

  // ----- Without one -----

  /** The text's first separator, as what stands before it and after it. */
  predicate SplitsInto(text: string, before: string, after: string) {
    && FindSep(text, 0) == Some(|before|)
    && SepEnd(text, |before|).Some?
    && text[..|before|] == before
    && text[SepEnd(text, |before|).value..] == after
  }

  lemma LineBefore(line: string, text: string, before: string, after: string)
    requires NoBareFence(line) && SplitsInto(text, before, after)
    ensures SplitsInto(Line(line, text), Line(line, before), after)
  {
    SepAfterLine(line, text, |before|, SepEnd(text, |before|).value);
    LineParts(line, before);
  }

  lemma ZoneSplits(es: seq<TimelineEntry>)
    requires es != []
    ensures SplitsInto(TimelineZone(es), "\n", Line("", RenderEntries(es)))
  {
    EntriesStartVisible(es);
    ZoneAfterBlank(RenderEntries(es));
  }

  lemma NoFenceInBlank()
    ensures NoBareFence("")
  {}

  lemma ThreeLinesBefore(text: string, zone: string, before: string, after: string)
    requires NoBareFence(text) && SplitsInto(zone, before, after)
    ensures SplitsInto(Line(text, Line("", Line("", zone))), Line(text, Line("", Line("", before))), after)
  {
    NoFenceInBlank();
    LineBefore("", zone, before, after);
    LineBefore("", Line("", zone), Line("", before), after);
    LineBefore(text, Line("", Line("", zone)), Line("", Line("", before)), after);
  }

  lemma TextBlanksZone(text: string, es: seq<TimelineEntry>)
    requires NoBareFence(text) && es != []
    ensures SplitsInto(Line(text, Line("", Line("", TimelineZone(es)))), text + "\n\n\n\n", Line("", RenderEntries(es)))
  {
    ZoneSplits(es);
    ThreeLinesBefore(text, TimelineZone(es), "\n", Line("", RenderEntries(es)));
    FourFeeds(text);
  }

  lemma FourFeeds(text: string)
    ensures Line(text, Line("", Line("", "\n"))) == text + "\n\n\n\n"
  {
    assert "" + ("\n" + "\n") == "\n\n" && "" + ("\n" + "\n\n") == "\n\n\n";
    assert "\n" + "\n\n\n" == "\n\n\n\n";
  }

  lemma TextBlanks(text: string)
    requires NoBareFence(text)
    ensures NoBareFence(Line(text, Line("", Line("", "")))) && Line(text, Line("", Line("", ""))) == text + "\n\n\n"
  {
    NoFenceInBlank();
    FindAfter("", "");
    FindAfter("", Line("", ""));
    FindAfter(text, Line("", Line("", "")));
    assert Line("", Line("", "")) == "\n\n" && Line(text, "\n\n") == text + "\n\n\n";
  }

  /** What separates the callout from what the parser takes for its end. */
  function Blanks(es: seq<TimelineEntry>): string {
    if es == [] then "\n\n\n" else "\n\n\n\n"
  }

  lemma CalloutZones(text: string, es: seq<TimelineEntry>)
    requires NoBareFence(text)
    ensures SplitZones(Line(text, Line("", Line("", TimelineZone(es))))) ==
            (text + Blanks(es), if es == [] then "" else Line("", RenderEntries(es)))
  {
    if es == [] {
      TextBlanks(text);
    } else {
      TextBlanksZone(text, es);
      var before := text + "\n\n\n\n";
      assert FindSep(Line(text, Line("", Line("", TimelineZone(es)))), 0) == Some(|before|);
    }
  }

  lemma FeedsBetween(text: string, zone: string)
    ensures Line(text + "\n\n", zone) == Line(text, Line("", Line("", zone)))
  {
    assert "" + ("\n" + zone) == "\n" + zone;
    assert "" + ("\n" + ("\n" + zone)) == "\n\n" + zone;
    assert (text + "\n\n") + ("\n" + zone) == text + ("\n" + ("\n\n" + zone));
  }

  lemma FenceGap(body: string)
    ensures Line("---", Line("", body)) == "---" + ("\n\n" + body)
  {
    assert "\n" + ("" + ("\n" + body)) == "\n\n" + body;
  }

  lemma CalloutOnlySplits(yaml: string, text: string, es: seq<TimelineEntry>)
    requires NoBareFence(yaml) && text != "" && !IsSpace(text[0])
    ensures var rest := AfterFence(yaml, text + "\n\n", es);
            && FindSep(rest, 0) == Some(|yaml| + 1)
            && rest[..|yaml| + 1] == yaml + "\n"
            && LstripNewlines(rest[SepEnd(rest, |yaml| + 1).value..]) ==
                Line(text, Line("", Line("", TimelineZone(es))))
  {
    var body := Line(text, Line("", Line("", TimelineZone(es))));
    FeedsBetween(text, TimelineZone(es));
    FenceGap(body);
    FenceThenBody("\n\n", body);
    FenceSplits(yaml, Line("---", Line("", body)), body);
  }

  lemma CalloutOnlyParses<F>(codec: Codec<F>, fm: F, text: string, es: seq<TimelineEntry>)
    requires Faithful(codec, fm) && text != "" && !IsSpace(text[0])
    ensures ParsePage(codec, Line("---", AfterFence(Rstrip(codec.dump(fm)), text + "\n\n", es))) ==
            ParsedZones(fm, SplitZones(Line(text, Line("", Line("", TimelineZone(es))))))
  {
    var yaml := Rstrip(codec.dump(fm));
    FirstLineDropped(AfterFence(yaml, text + "\n\n", es));
    CalloutOnlySplits(yaml, text, es);
  }

  lemma BlanksAreBlank(es: seq<TimelineEntry>)
    ensures Blank(Blanks(es))
  {}

  lemma WarningsAloneComeBack<F>(codec: Codec<F>, p: Page<F>, ws: seq<Contradiction>)
    requires Faithful(codec, p.frontmatter) && ws != [] && Rstrip(p.truth) == ""
    requires NoBareFence(CalloutText(ws)) && forall i :: 0 <= i < |p.timeline| ==> CanonicalEntry(p.timeline[i])
    ensures ParsePage(codec, RenderWithWarnings(codec, p, ws)) == Ok(p.(truth := CalloutText(ws)))
  {
    var text := CalloutText(ws);
    HeadingIsText(ws);
    CalloutVisible(ws);
    assert Heading(ws) + "" == text + "\n\n";
    CalloutOnlyParses(codec, p.frontmatter, text, p.timeline);
    CalloutZones(text, p.timeline);
    BlanksAreBlank(p.timeline);
    ZonesParse(p.frontmatter, SplitZones(Line(text, Line("", Line("", TimelineZone(p.timeline))))), text,
               Blanks(p.timeline), p.timeline);
  }

  lemma CalloutCutShort<F>(codec: Codec<F>, p: Page<F>, ws: seq<Contradiction>)
    requires Faithful(codec, p.frontmatter) && ws != [] && Rstrip(p.truth) == "" && !NoBareFence(CalloutText(ws))
    ensures ParsePage(codec, RenderWithWarnings(codec, p, ws)) != Ok(p.(truth := CalloutText(ws)))
  {
    var text := CalloutText(ws);
    HeadingIsText(ws);
    CalloutVisible(ws);
    assert Heading(ws) + "" == text + "\n\n";
    CalloutOnlyParses(codec, p.frontmatter, text, p.timeline);
    FenceCutsText(text, Line("", Line("", TimelineZone(p.timeline))));
  }

  // ----- Both -----

  /** A page rendered with warnings comes back as the page whose truth is the callout followed by the old truth if and
      only if that page is canonical; and then it does not come back as it was. */
  lemma WarningsBecomeTruth<F>(codec: Codec<F>, p: Page<F>, ws: seq<Contradiction>)
    requires Faithful(codec, p.frontmatter) && ws != []
    ensures var q := p.(truth := TruthWithCallout(p.truth, ws));
            && q != p
            && (ParsePage(codec, RenderWithWarnings(codec, p, ws)) == Ok(q) <==> Canonical(q))
  {
    var q := p.(truth := TruthWithCallout(p.truth, ws));
    var raw := RenderWithWarnings(codec, p, ws);
    TruthGrows(p.truth, ws);
    if Rstrip(p.truth) != "" {
      WarnedRendering(codec, p, ws);
      RoundTripExact(codec, q);
    } else {
      if ParsePage(codec, raw).Ok? {
        ParsedPageShape(codec, raw);
      }
      if !NoBareFence(q.truth) {
        CalloutCutShort(codec, p, ws);
      } else if Canonical(q) {
        WarningsAloneComeBack(codec, p, ws);
      }
    }
  }

  /** Without warnings nothing is added. */
  lemma NoWarnings<F>(codec: Codec<F>, p: Page<F>)
    ensures RenderWithWarnings(codec, p, []) == RenderPage(codec, p)
  {
    assert Heading([]) + Rstrip(p.truth) == Rstrip(p.truth);
  }
}
