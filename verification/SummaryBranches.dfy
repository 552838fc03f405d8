/** Every branch of `format_compact_summary`, for text around the tags: which drafts are
    peeled, what is left of a summary block, and what defusing changes. */
module SummaryBranches {
  import opened Wrappers
  import opened Text
  import opened CompactSummary
  import opened SummaryShapes

  // ------------------------------------------------------------ trimming around a tag

  lemma TrimStartBlank(w: string)
    requires Blank(w)
    ensures TrimStart(w) == ""
  {
    assert w + "" == w;
    TrimStartPadded(w, "");
  }

  lemma TrimStartBefore(a: string, x: string)
    requires x != [] && !IsSpace(x[0])
    ensures TrimStart(a + x) == TrimStart(a) + x
  {
    TrimStartSpec(a);
    var m := TrimStart(a);
    var l := a[..|a| - |m|];
    assert a + x == l + (m + x);
    TrimStartPadded(l, m + x);
    TrimStartDone(m + x);
  }

  lemma TrimEndBehind(x: string, b: string)
    requires x != [] && !IsSpace(x[|x| - 1])
    ensures TrimEnd(x + b) == x + TrimEnd(b)
  {
    TrimEndSpec(b);
    var m := TrimEnd(b);
    var r := b[|m|..];
    assert x + b == (x + m) + r;
    assert Blank(r);
    TrimEndPadded(x + m, r);
  }

  lemma TrimAround(a: string, x: string, b: string)
    requires x != [] && !IsSpace(x[0]) && !IsSpace(x[|x| - 1])
    ensures Trim(a + x + b) == TrimStart(a) + x + TrimEnd(b)
  {
    assert a + x + b == a + (x + b);
    TrimStartBefore(a, x + b);
    var m := TrimStart(a);
    assert m + (x + b) == (m + x) + b;
    TrimEndBehind(m + x, b);
  }

  lemma TrimOtherWay(s: string)
    ensures TrimStart(TrimEnd(s)) == Trim(s)
  {
    TrimSpec(s);
    var l, r := TrimSplit(s);
    var m := Trim(s);
    hide Trim;
    if m == [] {
      assert "" + s == s;
      TrimEndPadded("", s);
    } else {
      TrimEndPadded(l + m, r);
      TrimStartPadded(l, m);
      TrimStartDone(m);
    }
  }

  lemma TokenEnds(t: string)
    requires IsToken(t)
    ensures t != [] && !IsSpace(t[0]) && !IsSpace(t[|t| - 1])
  {
  }

  // ------------------------------------------------------------ what is left of a block

  /** A block leads with a number when only `#`, `*`, `-`, `>`, blanks and tabs stand before
      its first digit. */
  lemma LeadsWithNumberIff(s: string)
    ensures LeadsWithNumber(s) <==> exists k | 0 <= k < |s| :: NumberAt(s, k)
  {
    SkipStops(s);
    var lead := SkipDecoration(s);
    var at := |s| - |lead|;
    hide SkipDecoration;
    if LeadsWithNumber(s) {
      assert NumberAt(s, at);
    }
    if k :| 0 <= k < |s| && NumberAt(s, k) {
      assert forall i | 0 <= i < k :: IsDecoration(s[i]);
      assert !IsDecoration(s[k]);
    }
  }

  lemma {:induction false} SkipStops(s: string)
    ensures var lead := SkipDecoration(s); lead != [] ==> !IsDecoration(lead[0]) && lead[0] == s[|s| - |lead|]
  {
    hide IsDecoration;
    if s != [] && IsDecoration(s[0]) {
      SkipStops(s[1..]);
    }
  }

  ghost predicate NumberAt(s: string, k: nat)
    requires k < |s|
  {
    '0' <= s[k] <= '9' && forall i | 0 <= i < k :: s[i] in {'#', '*', '-', '>', ' ', '\t'}
  }

  /** Notes without an opening tag end at the last `</analysis>`, whatever they quote. */
  lemma NotesPeeled(notes: string, rest: string)
    requires var body := notes + ANALYSIS_CLOSE + rest; !LeadsWithNumber(Trim(body))
    requires !Contains(rest, ANALYSIS_CLOSE) && !At(Trim(rest), 0, SUMMARY_OPEN)
    ensures StripLeadingScratchpad(Trim(notes + ANALYSIS_CLOSE + rest)) == Trim(rest)
  {
    hide LeadsWithNumber, RFind, Trim, At, Contains;
    NotesEnd(notes, rest);
  }

  /** And a `<summary>` wrapper right behind them is unwrapped. */
  lemma NotesAndWrapperPeeled(notes: string, gap: string, rest: string)
    requires Blank(gap) && !Contains(rest, ANALYSIS_CLOSE)
    requires var body := notes + ANALYSIS_CLOSE + (gap + SUMMARY_OPEN + rest); !LeadsWithNumber(Trim(body))
    ensures StripLeadingScratchpad(Trim(notes + ANALYSIS_CLOSE + (gap + SUMMARY_OPEN + rest))) == Trim(rest)
  {
    var wrapped := gap + SUMMARY_OPEN + rest;
    WrapperLacks(gap, rest);
    NotesEnd(notes, wrapped);
    WrapperStart(gap, rest);
    hide LeadsWithNumber, RFind, Trim, At, Contains, TrimStart, TrimEnd;
  }

  /** A wrapper alone is unwrapped as well. */
  lemma WrapperPeeled(gap: string, rest: string)
    requires Blank(gap) && !Contains(rest, ANALYSIS_CLOSE)
    ensures StripLeadingScratchpad(Trim(gap + SUMMARY_OPEN + rest)) == Trim(rest)
  {
    var wrapped := gap + SUMMARY_OPEN + rest;
    WrapperLacks(gap, rest);
    WrapperStart(gap, rest);
    TrimTwice(wrapped);
    TrimContains(wrapped, ANALYSIS_CLOSE);
    RFindSpec(Trim(wrapped), ANALYSIS_CLOSE);
    hide LeadsWithNumber, RFind, Trim, At, Contains, TrimStart, TrimEnd;
  }

  /** A body that leads with a number, or holds neither scratchpad nor wrapper, stays whole. */
  lemma BodyKept(body: string)
    requires
      || LeadsWithNumber(Trim(body))
      || (!Contains(body, ANALYSIS_CLOSE) && !At(Trim(body), 0, SUMMARY_OPEN))
    ensures StripLeadingScratchpad(Trim(body)) == Trim(body)
  {
    TrimTwice(body);
    TrimContains(body, ANALYSIS_CLOSE);
    RFindSpec(Trim(body), ANALYSIS_CLOSE);
    hide LeadsWithNumber, RFind, Trim, At, Contains;
    if LeadsWithNumber(Trim(body)) {
      NumberedStart(Trim(body));
    }
  }

  lemma NotesEnd(notes: string, rest: string)
    requires !Contains(rest, ANALYSIS_CLOSE)
    ensures var s := Trim(notes + ANALYSIS_CLOSE + rest); var pos := RFind(s, ANALYSIS_CLOSE);
      && Trim(s) == s
      && pos.Some? && TrimStart(s[pos.value + |ANALYSIS_CLOSE|..]) == Trim(rest)
  {
    TokenShape(ANALYSIS_CLOSE);
    TokenEnds(ANALYSIS_CLOSE);
    TrimAround(notes, ANALYSIS_CLOSE, rest);
    TrimTwice(notes + ANALYSIS_CLOSE + rest);
    TrimEndSpec(rest);
    var a, b := TrimStart(notes), TrimEnd(rest);
    ContainsPrefix(rest, |b|, ANALYSIS_CLOSE);
    hide Trim, TrimStart, TrimEnd, Contains, RFind;
    RFindBefore(a, ANALYSIS_CLOSE, b);
    assert (a + ANALYSIS_CLOSE + b)[|a| + |ANALYSIS_CLOSE|..] == b;
    TrimOtherWay(rest);
  }

  lemma WrapperLacks(gap: string, rest: string)
    requires Blank(gap) && !Contains(rest, ANALYSIS_CLOSE)
    ensures !Contains(gap + SUMMARY_OPEN + rest, ANALYSIS_CLOSE)
  {
    BlankLacksOpen(gap);
    TokenShape(ANALYSIS_CLOSE);
    BehindToken(SUMMARY_OPEN, rest, ANALYSIS_CLOSE);
    hide Blank, TokenFree, Contains;
    SplitAfterPlain(gap, SUMMARY_OPEN + rest, ANALYSIS_CLOSE);
    assert gap + SUMMARY_OPEN + rest == gap + (SUMMARY_OPEN + rest);
  }

  lemma WrapperStart(gap: string, rest: string)
    requires Blank(gap)
    ensures var t := Trim(gap + SUMMARY_OPEN + rest);
      At(t, 0, SUMMARY_OPEN) && !LeadsWithNumber(t) && TrimStart(t[|SUMMARY_OPEN|..]) == Trim(rest)
  {
    TokenEnds(SUMMARY_OPEN);
    TrimAround(gap, SUMMARY_OPEN, rest);
    TrimStartBlank(gap);
    TrimOtherWay(rest);
    var b := TrimEnd(rest);
    hide Trim, TrimStart, TrimEnd;
    assert "" + SUMMARY_OPEN + b == SUMMARY_OPEN + b;
    assert (SUMMARY_OPEN + b)[|SUMMARY_OPEN|..] == b;
  }

  // ------------------------------------------------------------ the block in its text

  lemma BlockInText(before: string, body: string, after: string)
    requires !Contains(before, SUMMARY_OPEN) && !Contains(after, SUMMARY_CLOSE)
    ensures UnwrapSummary(before + SummaryBlock(body) + after)
         == before + "Summary:\n" + StripLeadingScratchpad(Trim(body)) + after
  {
    TokenShape(SUMMARY_OPEN);
    TokenShape(SUMMARY_CLOSE);
    var s, inner := before + SummaryBlock(body) + after, before + SUMMARY_OPEN + body;
    AroundSlices(before, SUMMARY_OPEN, body, SUMMARY_CLOSE, after);
    hide Find, RFind, Contains, StripLeadingScratchpad, Trim;
    FindAfter(before, SUMMARY_OPEN, body + SUMMARY_CLOSE + after);
    RFindBefore(inner, SUMMARY_CLOSE, after);
    hide SummaryBlock, IsTag;
  }

  lemma AroundSlices(a: string, o: string, b: string, c: string, d: string)
    ensures var s := a + (o + b + c) + d;
      && s == a + o + (b + c + d) && s == a + o + b + c + d && s[..|a|] == a
      && s[|a| + |o|..|a + o + b|] == b && s[|a + o + b| + |c|..] == d
  {
  }

  /** The last three stages: `kept` stands where the block stood. */
  ghost function Seed(before: string, kept: string, after: string): string {
    Trim(Squeeze(Neutralize(before + "Summary:\n" + kept + after), 0))
  }

  lemma FormatBlock(before: string, body: string, after: string)
    requires var s := before + SummaryBlock(body) + after; PeelAnalysis(s) == s
    requires !Contains(before, SUMMARY_OPEN) && !Contains(after, SUMMARY_CLOSE)
    ensures FormatCompactSummary(before + SummaryBlock(body) + after)
         == Seed(before, StripLeadingScratchpad(Trim(body)), after)
  {
    BlockInText(before, body, after);
    var s := before + SummaryBlock(body) + after;
    CollapseIsSqueeze(Neutralize(UnwrapSummary(s)));
    hide PeelAnalysis, UnwrapSummary, Neutralize, CollapseBlankLines, Trim, Squeeze, StripLeadingScratchpad, Contains, SummaryBlock;
  }

  /** The text around the outermost block, with no opening draft tag anywhere. */
  ghost predicate IsBlock(before: string, body: string, after: string) {
    && !Contains(before + SummaryBlock(body) + after, ANALYSIS_OPEN)
    && !Contains(before, SUMMARY_OPEN) && !Contains(after, SUMMARY_CLOSE)
  }

  /** A markdown scratchpad in the block is dropped up to the last orphan `</analysis>`. */
  lemma OrphanedNotes(before: string, notes: string, rest: string, after: string)
    requires IsBlock(before, notes + ANALYSIS_CLOSE + rest, after)
    requires !LeadsWithNumber(Trim(notes + ANALYSIS_CLOSE + rest))
    requires !Contains(rest, ANALYSIS_CLOSE) && !At(Trim(rest), 0, SUMMARY_OPEN)
    ensures FormatCompactSummary(before + SummaryBlock(notes + ANALYSIS_CLOSE + rest) + after)
         == Seed(before, Trim(rest), after)
  {
    hide *;
    BlockLacksOpen(before, notes + ANALYSIS_CLOSE + rest, after);
    NotesPeeled(notes, rest);
    FormatBlock(before, notes + ANALYSIS_CLOSE + rest, after);
  }

  lemma BlockLacksOpen(before: string, body: string, after: string)
    requires IsBlock(before, body, after)
    ensures var s := before + SummaryBlock(body) + after; PeelAnalysis(s) == s
    ensures !Contains(before, SUMMARY_OPEN) && !Contains(after, SUMMARY_CLOSE)
  {
    hide Contains, SummaryBlock, PeelAnalysis;
    PeelAbsent(before + SummaryBlock(body) + after);
  }

  /** The same with a second `<summary>` wrapper behind the scratchpad. */
  lemma OrphanedNotesAndWrapper(before: string, notes: string, gap: string, rest: string, after: string)
    requires Blank(gap) && !Contains(rest, ANALYSIS_CLOSE)
    requires IsBlock(before, notes + ANALYSIS_CLOSE + (gap + SUMMARY_OPEN + rest), after)
    requires !LeadsWithNumber(Trim(notes + ANALYSIS_CLOSE + (gap + SUMMARY_OPEN + rest)))
    ensures FormatCompactSummary(before + SummaryBlock(notes + ANALYSIS_CLOSE + (gap + SUMMARY_OPEN + rest)) + after)
         == Seed(before, Trim(rest), after)
  {
    hide *;
    BlockLacksOpen(before, notes + ANALYSIS_CLOSE + (gap + SUMMARY_OPEN + rest), after);
    NotesAndWrapperPeeled(notes, gap, rest);
    FormatBlock(before, notes + ANALYSIS_CLOSE + (gap + SUMMARY_OPEN + rest), after);
  }

  /** A doubled `<summary>` wrapper. */
  lemma DoubledWrapper(before: string, gap: string, rest: string, after: string)
    requires Blank(gap) && !Contains(rest, ANALYSIS_CLOSE)
    requires IsBlock(before, gap + SUMMARY_OPEN + rest, after)
    ensures FormatCompactSummary(before + SummaryBlock(gap + SUMMARY_OPEN + rest) + after)
         == Seed(before, Trim(rest), after)
  {
    hide *;
    BlockLacksOpen(before, gap + SUMMARY_OPEN + rest, after);
    WrapperPeeled(gap, rest);
    FormatBlock(before, gap + SUMMARY_OPEN + rest, after);
  }

  /** A numbered body, or one without scratchpad and wrapper, survives whole. */
  lemma WholeBody(before: string, body: string, after: string)
    requires IsBlock(before, body, after)
    requires
      || LeadsWithNumber(Trim(body))
      || (!Contains(body, ANALYSIS_CLOSE) && !At(Trim(body), 0, SUMMARY_OPEN))
    ensures FormatCompactSummary(before + SummaryBlock(body) + after) == Seed(before, Trim(body), after)
  {
    hide *;
    BlockLacksOpen(before, body, after);
    BodyKept(body);
    FormatBlock(before, body, after);
  }

  /** Token-free text behind the scratchpad is the whole result. */
  lemma NotesThenSummary(notes: string, rest: string)
    requires !Contains(notes, ANALYSIS_OPEN) && TokenFree(rest)
    requires !LeadsWithNumber(Trim(notes + ANALYSIS_CLOSE + rest))
    ensures FormatCompactSummary(SummaryBlock(notes + ANALYSIS_CLOSE + rest))
         == Trim(Squeeze("Summary:\n" + Trim(rest), 0))
  {
    NotesLackOpen(notes, rest);
    TokenFreeParts(rest);
    assert !Contains("", SUMMARY_OPEN) && !Contains("", SUMMARY_CLOSE);
    hide *;
    Alone(SummaryBlock(notes + ANALYSIS_CLOSE + rest));
    IsBlockAlone(notes + ANALYSIS_CLOSE + rest);
    OrphanedNotes("", notes, rest, "");
    SeedAlone(Trim(rest));
  }

  lemma Alone(s: string)
    ensures "" + s + "" == s
  {
  }

  lemma IsBlockAlone(body: string)
    requires !Contains(SummaryBlock(body), ANALYSIS_OPEN)
    ensures IsBlock("", body, "")
  {
    assert !Contains("", SUMMARY_OPEN) && !Contains("", SUMMARY_CLOSE);
    hide Contains, SummaryBlock;
    Alone(SummaryBlock(body));
  }

  lemma TokenFreeParts(rest: string)
    requires TokenFree(rest)
    ensures TokenFree(Trim(rest)) && !Contains(rest, ANALYSIS_CLOSE) && !At(Trim(rest), 0, SUMMARY_OPEN)
  {
    assert IsToken(ANALYSIS_CLOSE) && IsToken(SUMMARY_OPEN);
    forall t | IsToken(t) ensures !Contains(Trim(rest), t) {
      TrimContains(rest, t);
    }
    hide Trim, TokenFree;
    assert !Contains(Trim(rest), SUMMARY_OPEN);
  }

  lemma SeedAlone(kept: string)
    requires TokenFree(kept)
    ensures Seed("", kept, "") == Trim(Squeeze("Summary:\n" + kept, 0))
  {
    hide Trim, Squeeze, Neutralize, TokenFree;
    assert "" + "Summary:\n" + kept + "" == "Summary:\n" + kept;
    NeutralizedSummary(kept);
    NeutralizeTokenFree(kept);
  }

  lemma NotesLackOpen(notes: string, rest: string)
    requires !Contains(notes, ANALYSIS_OPEN) && TokenFree(rest)
    ensures !Contains(SummaryBlock(notes + ANALYSIS_CLOSE + rest), ANALYSIS_OPEN)
  {
    var body := notes + ANALYSIS_CLOSE + rest;
    assert IsToken(ANALYSIS_OPEN);
    TokenShape(ANALYSIS_OPEN);
    TokenShape(ANALYSIS_CLOSE);
    TokenShape(SUMMARY_CLOSE);
    BehindToken(ANALYSIS_CLOSE, rest, ANALYSIS_OPEN);
    TokenInToken(SUMMARY_CLOSE, ANALYSIS_OPEN);
    assert body == notes + (ANALYSIS_CLOSE + rest);
    hide Contains, TokenFree, IsToken;
    SplitAtOpen(notes, ANALYSIS_CLOSE + rest, ANALYSIS_OPEN);
    SplitBlock(body, ANALYSIS_OPEN);
    SplitAtOpen(SUMMARY_OPEN + body, SUMMARY_CLOSE, ANALYSIS_OPEN);
  }
}
