/** What `format_compact_summary` returns for the outputs a model is asked to write: drafts
    in `<analysis>` blocks, then one `<summary>` block. */
module SummaryShapes {
  import opened Wrappers
  import opened Text
  import opened CompactSummary

  /** One closed drafting block with the whitespace in front of it. */
  datatype Draft = Draft(gap: string, body: string)

  ghost predicate WellFormed(ds: seq<Draft>) {
    forall d | d in ds :: Blank(d.gap) && TokenFree(d.body)
  }

  ghost function Render(ds: seq<Draft>): string {
    if ds == [] then ""
    else ds[0].gap + ANALYSIS_OPEN + ds[0].body + ANALYSIS_CLOSE + Render(ds[1..])
  }

  ghost function Gaps(ds: seq<Draft>): (r: string)
    ensures WellFormed(ds) ==> Blank(r)
  {
    if ds == [] then "" else
      var r := Gaps(ds[1..]);
      BlankParts(ds[0].gap, r);
      ds[0].gap + r
  }

  ghost function SummaryBlock(body: string): string {
    SUMMARY_OPEN + body + SUMMARY_CLOSE
  }

  /** A body is kept whole when it quotes no control token, or when it leads with a section
      number, whatever it quotes. */
  ghost predicate KeptWhole(body: string) {
    TokenFree(body) || LeadsWithNumber(Trim(body))
  }

  // ------------------------------------------------------------ facts about blanks and tokens

  lemma BlankLacksOpen(w: string)
    requires Blank(w)
    ensures Lacks(w, '<') && TokenFree(w)
  {
    forall i | 0 <= i < |w| ensures w[i] != '<' {
      assert IsSpace(w[i]);
    }
    forall t | IsToken(t) ensures !Contains(w, t) {
      if p: nat :| p <= |w| && At(w, p, t) {
        AtChar(w, p, t, 0);
        assert false;
      }
    }
  }

  /** A token in front of a text hides no other token. */
  lemma BehindToken(t: string, body: string, u: string)
    requires IsToken(t) && IsToken(u) && t[1] != u[1]
    ensures Contains(t + body, u) ==> Contains(body, u)
  {
    TokenShape(t);
    TokenShape(u);
    if p: nat :| p <= |t + body| && At(t + body, p, u) {
      AtChar(t + body, p, u, 0);
      AtChar(t + body, p, u, 1);
      hide IsToken;
      AtRight(t, body, p, u);
    }
  }

  // ------------------------------------------------------------ peeling

  lemma FirstTokenLeads(w: string, s: string)
    requires Blank(w) && |w| <= |s| && w == s[..|w|] && At(s, |w|, ANALYSIS_OPEN)
    ensures IsLeading(s, |w|)
  {
    FindSpec(s, SUMMARY_OPEN);
    TrimSpec(s[..|w|]);
    hide Find, Trim;
    match Find(s, SUMMARY_OPEN)
    case None =>
    case Some(sp) =>
      TagsApart(s, sp, SUMMARY_OPEN, |w|, ANALYSIS_OPEN);
      BlankLacksOpen(w);
      AtChar(s, sp, SUMMARY_OPEN, 0);
      assert Lacks(s[..|w|], '<');
      assert forall i | 0 <= i < |w| :: s[i] == s[..|w|][i];
  }

  lemma Regroup(w: string, o: string, b: string, c: string, rest: string)
    ensures var s := w + o + b + c + rest;
      && s == w + o + (b + c + rest) && s[..|w|] == w
      && s[|w|..] == o + b + c + rest && s[|w| + |o + b| + |c|..] == rest
  {
  }

  lemma PeelOne(w: string, body: string, rest: string)
    requires Blank(w) && TokenFree(body)
    ensures PeelAnalysis(w + ANALYSIS_OPEN + body + ANALYSIS_CLOSE + rest) == PeelAnalysis(w + rest)
  {
    var s := w + ANALYSIS_OPEN + body + ANALYSIS_CLOSE + rest;
    var draft := ANALYSIS_OPEN + body;
    DraftTags(w, body, s, rest);
    hide Find, IsLeading, At, Contains, Blank, TokenFree, Cut;
  }

  /** Where the first draft of a text opens and closes. */
  lemma DraftTags(w: string, body: string, s: string, rest: string)
    requires Blank(w) && TokenFree(body)
    requires s == w + ANALYSIS_OPEN + body + ANALYSIS_CLOSE + rest
    ensures Find(s, ANALYSIS_OPEN) == Some(|w|) && IsLeading(s, |w|)
    ensures Find(s[|w|..], ANALYSIS_CLOSE) == Some(|ANALYSIS_OPEN + body|)
    ensures Cut(s, |w|, |w| + |ANALYSIS_OPEN + body| + |ANALYSIS_CLOSE|) == w + rest
  {
    hide Find, Contains, IsLeading;
    TokenShape(ANALYSIS_OPEN);
    TokenShape(ANALYSIS_CLOSE);
    BlankLacksOpen(w);
    Regroup(w, ANALYSIS_OPEN, body, ANALYSIS_CLOSE, rest);
    FindAfter(w, ANALYSIS_OPEN, body + ANALYSIS_CLOSE + rest);
    BehindToken(ANALYSIS_OPEN, body, ANALYSIS_CLOSE);
    FindAfter(ANALYSIS_OPEN + body, ANALYSIS_CLOSE, rest);
    FirstTokenLeads(w, s);
  }

  lemma Unroll(lead: string, d: Draft, rendered: string, gaps: string, tail: string)
    ensures lead + (d.gap + ANALYSIS_OPEN + d.body + ANALYSIS_CLOSE + rendered) + tail
         == (lead + d.gap) + ANALYSIS_OPEN + d.body + ANALYSIS_CLOSE + (rendered + tail)
    ensures lead + d.gap + (rendered + tail) == lead + d.gap + rendered + tail
    ensures lead + (d.gap + gaps) + tail == lead + d.gap + gaps + tail
  {
    Reassociate6(lead, d.gap, ANALYSIS_OPEN, d.body, ANALYSIS_CLOSE, rendered, tail);
  }

  lemma Reassociate6(a: string, b: string, c: string, d: string, e: string, f: string, g: string)
    ensures a + (b + c + d + e + f) + g == (a + b) + c + d + e + (f + g)
  {
  }

  lemma {:induction false} PeelDrafts(lead: string, ds: seq<Draft>, tail: string)
    requires Blank(lead) && WellFormed(ds)
    ensures PeelAnalysis(lead + Render(ds) + tail) == PeelAnalysis(lead + Gaps(ds) + tail)
    decreases |ds|
  {
    hide PeelAnalysis, Blank, TokenFree;
    if ds != [] {
      var d, more := ds[0], ds[1..];
      var w := lead + d.gap;
      BlankParts(lead, d.gap);
      Unroll(lead, d, Render(more), Gaps(more), tail);
      PeelOne(w, d.body, Render(more) + tail);
      PeelDrafts(w, more, tail);
    }
  }

  lemma PeelAll(ds: seq<Draft>, gap: string, tail: string)
    requires WellFormed(ds)
    ensures PeelAnalysis(Render(ds) + gap + tail) == PeelAnalysis(Gaps(ds) + gap + tail)
  {
    assert Blank("");
    PeelDrafts("", ds, gap + tail);
    hide *;
    FromNothing(Render(ds), gap, tail);
    FromNothing(Gaps(ds), gap, tail);
  }

  lemma FromNothing(a: string, b: string, c: string)
    ensures "" + a + (b + c) == a + b + c
  {
  }

  /** A draft that is never closed is dropped up to the `<summary>` tag. */
  lemma PeelUnclosed(w: string, junk: string, body: string)
    requires Blank(w) && TokenFree(junk) && TokenFree(body)
    ensures PeelAnalysis(w + ANALYSIS_OPEN + junk + SummaryBlock(body)) == w + SummaryBlock(body)
  {
    var s := w + ANALYSIS_OPEN + junk + SummaryBlock(body);
    UnclosedTags(w, junk, body, s);
    hide Find, IsLeading, At, Contains, Blank, TokenFree, SummaryBlock, Cut;
  }

  lemma UnclosedSlices(w: string, o: string, j: string, p: string, b: string, c: string)
    ensures var block := p + b + c; var s := w + o + j + block;
      && s == w + o + (j + block) && s[..|w|] == w
      && s[|w|..] == o + j + block && o + j + block == o + j + p + (b + c)
      && s[|w| + |o + j|..] == block && w + block == s[..|w|] + s[|w| + |o + j|..]
  {
  }

  lemma UnclosedTags(w: string, junk: string, body: string, s: string)
    requires Blank(w) && TokenFree(junk) && TokenFree(body)
    requires s == w + ANALYSIS_OPEN + junk + SummaryBlock(body)
    ensures Find(s, ANALYSIS_OPEN) == Some(|w|) && IsLeading(s, |w|)
    ensures Find(s[|w|..], ANALYSIS_CLOSE) == None
    ensures Find(s[|w|..], SUMMARY_OPEN) == Some(|ANALYSIS_OPEN + junk|)
    ensures Cut(s, |w|, |w| + |ANALYSIS_OPEN + junk|) == w + SummaryBlock(body)
  {
    TokenShape(ANALYSIS_OPEN);
    TokenShape(ANALYSIS_CLOSE);
    TokenShape(SUMMARY_OPEN);
    BlankLacksOpen(w);
    var draft := ANALYSIS_OPEN + junk;
    UnclosedSlices(w, ANALYSIS_OPEN, junk, SUMMARY_OPEN, body, SUMMARY_CLOSE);
    BehindToken(ANALYSIS_OPEN, junk, ANALYSIS_CLOSE);
    BehindToken(ANALYSIS_OPEN, junk, SUMMARY_OPEN);
    BlockLacks(body, ANALYSIS_CLOSE);
    FindSpec(s[|w|..], ANALYSIS_CLOSE);
    hide Contains, IsLeading, Find, Blank;
    FindAfter(w, ANALYSIS_OPEN, junk + SummaryBlock(body));
    FirstTokenLeads(w, s);
    FindAfter(draft, SUMMARY_OPEN, body + SUMMARY_CLOSE);
    SplitAtOpen(draft, SummaryBlock(body), ANALYSIS_CLOSE);
    hide SummaryBlock;
  }

  /** A summary block around a token-free body holds no analysis tag. */
  lemma BlockLacks(body: string, u: string)
    requires TokenFree(body) && (u == ANALYSIS_OPEN || u == ANALYSIS_CLOSE)
    ensures !Contains(SummaryBlock(body), u)
  {
    assert IsToken(u) && IsToken(SUMMARY_OPEN) && IsToken(SUMMARY_CLOSE);
    TokenShape(u);
    TokenShape(SUMMARY_CLOSE);
    SplitAtOpen(SUMMARY_OPEN + body, SUMMARY_CLOSE, u);
    TokenInToken(SUMMARY_CLOSE, u);
    TokenInToken(SUMMARY_OPEN, u);
    SplitBlock(body, u);
  }

  lemma TokenInToken(t: string, u: string)
    requires IsToken(t) && IsToken(u) && |t| < |u| + 2 && t[2] != u[2] && t != u
    ensures !Contains(t, u)
  {
    TokenShape(t);
    TokenShape(u);
    if p: nat :| p <= |t| && At(t, p, u) {
      AtChar(t, p, u, 0);
      AtChar(t, p, u, 2);
      assert false;
    }
  }

  lemma SplitBlock(body: string, u: string)
    requires IsToken(u) && !Contains(body, u) && (u == ANALYSIS_OPEN || u == ANALYSIS_CLOSE)
    ensures !Contains(SUMMARY_OPEN + body, u)
  {
    TokenShape(u);
    if p: nat :| p <= |SUMMARY_OPEN + body| && At(SUMMARY_OPEN + body, p, u) {
      AtChar(SUMMARY_OPEN + body, p, u, 0);
      AtChar(SUMMARY_OPEN + body, p, u, 1);
      if p < |SUMMARY_OPEN| {
        assert false;
      }
      AtRight(SUMMARY_OPEN, body, p, u);
      assert false;
    }
  }

  lemma NumberedIsNotLeading(w: string, body: string)
    requires Blank(w) && LeadsWithNumber(Trim(body))
    ensures var s := w + SummaryBlock(body); var f := Find(s, ANALYSIS_OPEN);
      f.Some? ==> At(s, f.value, ANALYSIS_OPEN) && !IsLeading(s, f.value)
  {
    FindSpec(w + SummaryBlock(body), ANALYSIS_OPEN);
    var s := w + SummaryBlock(body);
    BlockTags(w, body, s);
    var f := Find(s, ANALYSIS_OPEN);
    if f.Some? {
      NumberComesFirst(w, body, f.value);
      hide Find, Blank, At, Trim, Contains, LeadsWithNumber, SummaryBlock;
      assert |w| + |SUMMARY_OPEN| <= f.value;
    }
  }

  lemma PeelAbsent(s: string)
    requires !Contains(s, ANALYSIS_OPEN)
    ensures PeelAnalysis(s) == s
  {
    FindSpec(s, ANALYSIS_OPEN);
    hide Find, Contains;
  }

  lemma PeelStops(w: string, body: string)
    requires Blank(w) && KeptWhole(body)
    ensures PeelAnalysis(w + SummaryBlock(body)) == w + SummaryBlock(body)
  {
    if TokenFree(body) {
      BlankLacksOpen(w);
      TokenShape(ANALYSIS_OPEN);
      BlockLacks(body, ANALYSIS_OPEN);
      hide SummaryBlock, Blank, TokenFree, Contains;
      SplitAfterPlain(w, SummaryBlock(body), ANALYSIS_OPEN);
      PeelAbsent(w + SummaryBlock(body));
    } else {
      NumberedIsNotLeading(w, body);
      hide Find, SummaryBlock, Blank, TokenFree, Contains, IsLeading, At;
    }
  }

  lemma NonBlank(s: string, i: nat)
    requires i < |s| && !IsSpace(s[i])
    ensures Trim(s) != ""
  {
    TrimSpec(s);
    hide Trim;
  }

  lemma BehindSummaryTag(w: string, l: string, m: string, r: string, start: nat)
    requires Lacks(w, '<') && Lacks(l, '<') && m != [] && m[0] != '<'
    requires At(w + SummaryBlock(l + m + r), start, ANALYSIS_OPEN)
    ensures var s := w + SummaryBlock(l + m + r);
      && start > |w| + |SUMMARY_OPEN| + |l| && s[|w| + |SUMMARY_OPEN| + |l|] == m[0]
  {
    var s := w + SummaryBlock(l + m + r);
    var from := |w| + |SUMMARY_OPEN|;
    AtChar(s, start, ANALYSIS_OPEN, 0);
    AtChar(s, start, ANALYSIS_OPEN, 1);
    hide At;
    assert s == w + SUMMARY_OPEN + l + m + (r + SUMMARY_CLOSE) by {
      Regroup2(w, SUMMARY_OPEN, l, m, r, SUMMARY_CLOSE);
    }
    assert forall i | 0 <= i < |w| :: s[i] == w[i];
    assert forall i | 0 <= i < |l| :: s[from + i] == l[i];
    assert s[from + |l|] == m[0];
  }

  lemma Regroup2(w: string, o: string, l: string, m: string, r: string, c: string)
    ensures w + (o + (l + m + r) + c) == w + o + l + m + (r + c)
  {
  }

  /** Before any `<analysis>` of a numbered body there is something other than whitespace. */
  lemma NumberComesFirst(w: string, body: string, start: nat)
    requires Blank(w) && LeadsWithNumber(Trim(body))
    requires At(w + SummaryBlock(body), start, ANALYSIS_OPEN)
    ensures start > |w| + |SUMMARY_OPEN|
    ensures Trim((w + SummaryBlock(body))[|w| + |SUMMARY_OPEN|..start]) != ""
  {
    TrimSpec(body);
    hide Find, Blank, Trim;
    var s := w + SummaryBlock(body);
    var from := |w| + |SUMMARY_OPEN|;
    BlankLacksOpen(w);
    var l, r := TrimSplit(body);
    BlankLacksOpen(l);
    var m := Trim(body);
    NumberedStart(m);
    BehindSummaryTag(w, l, m, r, start);
    NonBlank(s[from..start], |l|);
  }

  // ------------------------------------------------------------ the summary block

  lemma TrimTwice(s: string)
    ensures Trim(Trim(s)) == Trim(s)
  {
    TrimSpec(s);
    TrimTrimmed(Trim(s));
  }

  lemma NumberedStart(m: string)
    requires LeadsWithNumber(m)
    ensures m != [] && m[0] != '<' && !At(m, 0, SUMMARY_OPEN)
  {
    var lead := SkipDecoration(m);
    assert m[0] == lead[0] || IsDecoration(m[0]);
    if At(m, 0, SUMMARY_OPEN) {
      AtChar(m, 0, SUMMARY_OPEN, 0);
      assert false;
    }
  }

  lemma ScratchpadFree(body: string)
    requires KeptWhole(body)
    ensures StripLeadingScratchpad(Trim(body)) == Trim(body)
  {
    RFindSpec(Trim(body), ANALYSIS_CLOSE);
    hide Find, RFind, LeadsWithNumber;
    var m := Trim(body);
    TrimTwice(body);
    hide Trim;
    if LeadsWithNumber(m) {
      NumberedStart(m);
    } else {
      assert IsToken(ANALYSIS_CLOSE) && IsToken(SUMMARY_OPEN);
      TrimContains(body, ANALYSIS_CLOSE);
      TrimContains(body, SUMMARY_OPEN);
    }
  }

  lemma BlockTags(w: string, body: string, s: string)
    requires Blank(w) && s == w + SummaryBlock(body)
    ensures var inner := w + SUMMARY_OPEN + body;
      && Find(s, SUMMARY_OPEN) == Some(|w|) && RFind(s, SUMMARY_CLOSE) == Some(|inner|)
      && s[..|w|] == w && s[|w| + |SUMMARY_OPEN|..|inner|] == body
      && s[|inner| + |SUMMARY_CLOSE|..] == ""
  {
    hide Find, RFind, Blank;
    BlankLacksOpen(w);
    TokenShape(SUMMARY_OPEN);
    TokenShape(SUMMARY_CLOSE);
    BlockSlices(w, SUMMARY_OPEN, body, SUMMARY_CLOSE);
    FindAfter(w, SUMMARY_OPEN, body + SUMMARY_CLOSE);
    RFindBefore(w + SUMMARY_OPEN + body, SUMMARY_CLOSE, "");
  }

  lemma BlockSlices(w: string, o: string, b: string, c: string)
    ensures var s := w + (o + b + c);
      && s == w + o + (b + c) && s == w + o + b + c + "" && s[..|w|] == w
      && s[|w| + |o|..|w + o + b|] == b && s[|w + o + b| + |c|..] == ""
  {
  }

  lemma NothingAfter(s: string)
    ensures s + "" == s
  {
  }

  lemma UnwrapBlock(w: string, body: string)
    requires Blank(w) && KeptWhole(body)
    ensures UnwrapSummary(w + SummaryBlock(body)) == w + "Summary:\n" + Trim(body)
  {
    var s := w + SummaryBlock(body);
    BlockTags(w, body, s);
    ScratchpadFree(body);
    NothingAfter(w + "Summary:\n" + Trim(body));
    hide Find, RFind, StripLeadingScratchpad, Trim, Blank, SummaryBlock, At;
  }

  // ------------------------------------------------------------ whitespace in front

  lemma FindAfterPlain(w: string, s: string, t: string, i: nat)
    requires IsTag(t) && Lacks(w, '<') && Find(s, t) == Some(i)
    ensures Find(w + s, t) == Some(|w| + i)
  {
    FindSpec(s, t);
    hide Find;
    forall q: nat | q < |w| + i ensures !At(w + s, q, t) {
      if At(w + s, q, t) {
        AtChar(w + s, q, t, 0);
        AtRight(w, s, q, t);
        assert false;
      }
    }
    AtRight(w, s, |w| + i, t);
    FindIs(w + s, t, |w| + i);
  }

  lemma Shifted(w: string, s: string, i: nat, n: nat, to: string, r: string)
    requires i + n <= |s|
    ensures (w + s)[..|w| + i] + to + r == w + (s[..i] + to + r)
    ensures (w + s)[|w| + i + n..] == s[i + n..]
  {
    assert (w + s)[..|w| + i] == w + s[..i];
  }

  lemma {:induction false} ReplaceAfterPlain(w: string, s: string, from: string, to: string)
    requires IsTag(from) && Lacks(w, '<')
    ensures Replace(w + s, from, to) == w + Replace(s, from, to)
  {
    FindSpec(s, from);
    hide Replace, Contains;
    match Find(s, from)
    case None =>
      SplitAfterPlain(w, s, from);
      ReplaceAbsent(s, from, to);
      ReplaceAbsent(w + s, from, to);
    case Some(i) =>
      FindAfterPlain(w, s, from, i);
      ReplaceFirst(s, from, to, i);
      ReplaceFirst(w + s, from, to, |w| + i);
      hide Find, At, Lacks, IsTag;
      Shifted(w, s, i, |from|, to, Replace(s[i + |from|..], from, to));
  }

  lemma NeutralizeAfterBlank(w: string, s: string)
    requires Blank(w)
    ensures Neutralize(w + s) == w + Neutralize(s)
  {
    hide Replace;
    BlankLacksOpen(w);
    var s1 := Replace(s, SUMMARY_CLOSE, Defused(SUMMARY_CLOSE));
    var s2 := Replace(s1, SUMMARY_OPEN, Defused(SUMMARY_OPEN));
    var s3 := Replace(s2, ANALYSIS_CLOSE, Defused(ANALYSIS_CLOSE));
    var s4 := Replace(s3, ANALYSIS_OPEN, Defused(ANALYSIS_OPEN));
    var s5 := Replace(s4, REQUEST_CLOSE, Defused(REQUEST_CLOSE));
    ReplaceAfterPlain(w, s, SUMMARY_CLOSE, Defused(SUMMARY_CLOSE));
    ReplaceAfterPlain(w, s1, SUMMARY_OPEN, Defused(SUMMARY_OPEN));
    ReplaceAfterPlain(w, s2, ANALYSIS_CLOSE, Defused(ANALYSIS_CLOSE));
    ReplaceAfterPlain(w, s3, ANALYSIS_OPEN, Defused(ANALYSIS_OPEN));
    ReplaceAfterPlain(w, s4, REQUEST_CLOSE, Defused(REQUEST_CLOSE));
    ReplaceAfterPlain(w, s5, REQUEST_OPEN, Defused(REQUEST_OPEN));
  }

  lemma {:induction false} SqueezeBlank(w: string, k: nat)
    requires Blank(w) && k <= 2
    ensures Blank(Squeeze(w, k))
  {
    if w != [] {
      assert Blank(w[1..]) by {
        assert w == w[..1] + w[1..];
        BlankParts(w[..1], w[1..]);
      }
      SqueezeBlank(w[1..], if w[0] != '\n' then 0 else if k == 2 then 2 else k + 1);
      assert IsSpace(w[0]);
    }
  }

  /** Whitespace in front of the `Summary:` line disappears. */
  lemma TidyAfterBlank(w: string, s: string)
    requires Blank(w) && s != [] && s[0] != '\n'
    ensures Trim(CollapseBlankLines(w + s)) == Trim(Squeeze(s, 0))
  {
    CollapseIsSqueeze(w + s);
    SqueezeConcat(w, s, 0);
    SqueezeBlank(w, 0);
    assert Squeeze(s, NewlinesAfter(w, 0)) == Squeeze(s, 0);
    TrimPadded(Squeeze(w, 0), Squeeze(s, 0), "");
    assert Squeeze(w, 0) + Squeeze(s, 0) + "" == Squeeze(w, 0) + Squeeze(s, 0);
  }

  // ------------------------------------------------------------ the theorems

  /** Neutralizing starts where the `Summary:` line ends. */
  lemma NeutralizedSummary(m: string)
    ensures Neutralize("Summary:\n" + m) == "Summary:\n" + Neutralize(m)
  {
    hide Replace;
    var h := "Summary:\n";
    var s1 := Replace(m, SUMMARY_CLOSE, Defused(SUMMARY_CLOSE));
    var s2 := Replace(s1, SUMMARY_OPEN, Defused(SUMMARY_OPEN));
    var s3 := Replace(s2, ANALYSIS_CLOSE, Defused(ANALYSIS_CLOSE));
    var s4 := Replace(s3, ANALYSIS_OPEN, Defused(ANALYSIS_OPEN));
    var s5 := Replace(s4, REQUEST_CLOSE, Defused(REQUEST_CLOSE));
    ReplaceAfterPlain(h, m, SUMMARY_CLOSE, Defused(SUMMARY_CLOSE));
    ReplaceAfterPlain(h, s1, SUMMARY_OPEN, Defused(SUMMARY_OPEN));
    ReplaceAfterPlain(h, s2, ANALYSIS_CLOSE, Defused(ANALYSIS_CLOSE));
    ReplaceAfterPlain(h, s3, ANALYSIS_OPEN, Defused(ANALYSIS_OPEN));
    ReplaceAfterPlain(h, s4, REQUEST_CLOSE, Defused(REQUEST_CLOSE));
    ReplaceAfterPlain(h, s5, REQUEST_OPEN, Defused(REQUEST_OPEN));
  }

  /** Any number of closed drafts, then a summary block whose body is token-free or leads
      with a section number: the drafts vanish and the body survives whole, with its echoed
      tokens defused and its newline runs squeezed. */
  lemma DraftsThenSummary(ds: seq<Draft>, gap: string, body: string)
    requires WellFormed(ds) && Blank(gap) && KeptWhole(body)
    ensures FormatCompactSummary(Render(ds) + gap + SummaryBlock(body))
         == Trim(Squeeze("Summary:\n" + Neutralize(Trim(body)), 0))
  {
    PeelAll(ds, gap, SummaryBlock(body));
    BlankParts(Gaps(ds), gap);
    PeelStops(Gaps(ds) + gap, body);
    SummaryOnly(Gaps(ds) + gap, body);
    hide PeelAnalysis, UnwrapSummary, Neutralize, CollapseBlankLines, Trim, Squeeze, Render, Gaps, SummaryBlock, KeptWhole, WellFormed, Blank, TokenFree;
  }

  lemma SummaryOnly(w: string, body: string)
    requires Blank(w) && KeptWhole(body)
    ensures Trim(CollapseBlankLines(Neutralize(UnwrapSummary(w + SummaryBlock(body)))))
         == Trim(Squeeze("Summary:\n" + Neutralize(Trim(body)), 0))
  {
    hide PeelAnalysis, UnwrapSummary, Neutralize, CollapseBlankLines, Trim, Squeeze, Render, SummaryBlock, KeptWhole, WellFormed, Blank;
    UnwrapBlock(w, body);
    assert w + "Summary:\n" + Trim(body) == w + ("Summary:\n" + Trim(body));
    NeutralizeAfterBlank(w, "Summary:\n" + Trim(body));
    NeutralizedSummary(Trim(body));
    TidyAfterBlank(w, "Summary:\n" + Neutralize(Trim(body)));
  }

  /** With a token-free body nothing is defused either. */
  lemma TokenFreeSummary(ds: seq<Draft>, gap: string, body: string)
    requires WellFormed(ds) && Blank(gap) && TokenFree(body)
    ensures FormatCompactSummary(Render(ds) + gap + SummaryBlock(body))
         == Trim(Squeeze("Summary:\n" + Trim(body), 0))
  {
    DraftsThenSummary(ds, gap, body);
    forall t | IsToken(t) ensures !Contains(Trim(body), t) {
      TrimContains(body, t);
    }
    NeutralizeTokenFree(Trim(body));
  }

  lemma BareSummary(body: string)
    requires KeptWhole(body)
    ensures FormatCompactSummary(SummaryBlock(body))
         == Trim(Squeeze("Summary:\n" + Neutralize(Trim(body)), 0))
  {
    assert WellFormed([]) && Blank("") && Render([]) == "";
    DraftsThenSummary([], "", body);
    hide *;
    assert "" + "" + SummaryBlock(body) == SummaryBlock(body);
  }

  lemma GroupBehind(a: string, b: string, c: string, d: string)
    ensures a + b + c + d == a + (b + c + d)
  {
  }

  /** A last draft that the model forgot to close costs nothing of the summary. */
  lemma UnclosedDraftThenSummary(ds: seq<Draft>, gap: string, junk: string, body: string)
    requires WellFormed(ds) && Blank(gap) && TokenFree(junk) && TokenFree(body)
    ensures FormatCompactSummary(Render(ds) + gap + ANALYSIS_OPEN + junk + SummaryBlock(body))
         == FormatCompactSummary(SummaryBlock(body))
  {
    hide PeelAnalysis, UnwrapSummary, Neutralize, CollapseBlankLines, Trim, Squeeze, Render, Gaps, SummaryBlock, WellFormed, Blank, TokenFree;
    var tail := ANALYSIS_OPEN + junk + SummaryBlock(body);
    PeelAll(ds, gap, tail);
    GroupBehind(Render(ds) + gap, ANALYSIS_OPEN, junk, SummaryBlock(body));
    GroupBehind(Gaps(ds) + gap, ANALYSIS_OPEN, junk, SummaryBlock(body));
    BlankParts(Gaps(ds), gap);
    PeelUnclosed(Gaps(ds) + gap, junk, body);
    SummaryOnly(Gaps(ds) + gap, body);
    BareSummary(body);
  }
}
