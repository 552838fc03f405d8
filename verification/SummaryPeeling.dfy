/** Which `<analysis>` drafts `format_compact_summary` drops, what it does without a summary
    block, and what defusing a token changes. */
module SummaryPeeling {
  import opened Wrappers
  import opened Text
  import opened CompactSummary
  import opened SummaryShapes

  /** A draft opens behind `w`. */
  ghost function Opened(w: string, behind: string): string {
    w + ANALYSIS_OPEN + behind
  }

  /** A draft closes and `rest` follows. */
  ghost function Closed(draft: string, rest: string): string {
    draft + ANALYSIS_CLOSE + rest
  }

  /** A summary block opens behind `v`. */
  ghost function Begun(v: string, block: string): string {
    v + SUMMARY_OPEN + block
  }

  // ------------------------------------------------------------ does a draft lead?

  lemma FirstDraft(w: string, behind: string)
    requires !Contains(w, ANALYSIS_OPEN)
    ensures var s := Opened(w, behind);
      |w| <= |s| && s[..|w|] == w && Find(s, ANALYSIS_OPEN) == Some(|w|) && At(s, |w|, ANALYSIS_OPEN)
  {
    TokenShape(ANALYSIS_OPEN);
    hide Contains, Find;
    FindAfter(w, ANALYSIS_OPEN, behind);
    assert w + ANALYSIS_OPEN + behind == w + (ANALYSIS_OPEN + behind);
  }

  /** A draft in front of the first `<summary>` leads; without one, only behind whitespace. */
  lemma LeadsAtTop(w: string, behind: string)
    requires TokenFree(w)
    ensures var s := Opened(w, behind);
      && At(s, |w|, ANALYSIS_OPEN) && Find(s, ANALYSIS_OPEN) == Some(|w|)
      && (IsLeading(s, |w|) <==> Blank(w) || Contains(behind, SUMMARY_OPEN))
  {
    var s := Opened(w, behind);
    assert IsToken(ANALYSIS_OPEN);
    hide Opened, TokenFree, Blank, Trim, Contains, IsToken, Find, At;
    FirstDraft(w, behind);
    FindSpec(s, SUMMARY_OPEN);
    TrimSpec(w);
    InWhole(w, behind);
    match Find(s, SUMMARY_OPEN)
    case None =>
    case Some(sp) =>
      AreTokens();
      TagsApart(s, sp, SUMMARY_OPEN, |w|, ANALYSIS_OPEN);
      NotBefore(w, behind, sp);
  }

  lemma AreTokens()
    ensures IsToken(ANALYSIS_OPEN) && IsToken(SUMMARY_OPEN)
  {
  }

  lemma InWhole(w: string, behind: string)
    requires TokenFree(w)
    ensures Contains(Opened(w, behind), SUMMARY_OPEN) <==> Contains(behind, SUMMARY_OPEN)
  {
    assert IsToken(SUMMARY_OPEN);
    TokenShape(SUMMARY_OPEN);
    assert w + ANALYSIS_OPEN + behind == w + (ANALYSIS_OPEN + behind);
    hide TokenFree, Contains;
    SplitAtOpen(w, ANALYSIS_OPEN + behind, SUMMARY_OPEN);
    BehindToken(ANALYSIS_OPEN, behind, SUMMARY_OPEN);
    ContainsParts(ANALYSIS_OPEN, behind, SUMMARY_OPEN);
  }

  /** No `<summary>` ends before the draft that follows a token-free text. */
  lemma NotBefore(w: string, behind: string, sp: nat)
    requires TokenFree(w) && At(Opened(w, behind), sp, SUMMARY_OPEN)
    ensures sp + |SUMMARY_OPEN| > |w|
  {
    assert IsToken(SUMMARY_OPEN);
    if sp + |SUMMARY_OPEN| <= |w| {
      assert w + ANALYSIS_OPEN + behind == w + (ANALYSIS_OPEN + behind);
      AtLeft(w, ANALYSIS_OPEN + behind, sp, SUMMARY_OPEN);
      assert Contains(w, SUMMARY_OPEN);
    }
  }

  /** A draft inside the summary block leads iff only whitespace stands in front of it. */
  lemma LeadsInBlock(v: string, gap: string, behind: string)
    requires TokenFree(v) && TokenFree(gap)
    ensures var w := Begun(v, gap); var s := Opened(w, behind);
      && Find(s, ANALYSIS_OPEN) == Some(|w|) && At(s, |w|, ANALYSIS_OPEN)
      && (IsLeading(s, |w|) <==> Blank(gap))
  {
    var w := Begun(v, gap);
    var s := Opened(w, behind);
    AreTokens();
    TokenShape(SUMMARY_OPEN);
    InFront(v, gap);
    TrimSpec(gap);
    BlockStart(v, gap, behind);
    assert !Contains(v, SUMMARY_OPEN);
    hide Opened, Begun, TokenFree, Blank, Trim, Contains, IsToken, Find, At;
    FirstDraft(w, behind);
    FindAfter(v, SUMMARY_OPEN, Opened(gap, behind));
  }

  lemma BlockStart(v: string, gap: string, behind: string)
    ensures var w := Begun(v, gap); var s := Opened(w, behind);
      && |w| <= |s| && |w| == |v| + |SUMMARY_OPEN| + |gap|
      && s == v + SUMMARY_OPEN + Opened(gap, behind) && s[|v| + |SUMMARY_OPEN|..|w|] == gap
  {
  }

  lemma InFront(v: string, gap: string)
    requires TokenFree(v) && TokenFree(gap)
    ensures !Contains(Begun(v, gap), ANALYSIS_OPEN)
  {
    AreTokens();
    TokenShape(ANALYSIS_OPEN);
    assert v + SUMMARY_OPEN + gap == v + (SUMMARY_OPEN + gap);
    hide TokenFree, Contains;
    BehindToken(SUMMARY_OPEN, gap, ANALYSIS_OPEN);
    SplitAtOpen(v, SUMMARY_OPEN + gap, ANALYSIS_OPEN);
  }

  // ------------------------------------------------------------ peeling a draft

  lemma PeelBranches(s: string, i: nat)
    requires Find(s, ANALYSIS_OPEN) == Some(i) && At(s, i, ANALYSIS_OPEN)
    ensures !IsLeading(s, i) ==> PeelAnalysis(s) == s
    ensures IsLeading(s, i) ==> var c := Find(s[i..], ANALYSIS_CLOSE);
      PeelAnalysis(s) ==
        if c.Some? then PeelAnalysis(Cut(s, i, i + c.value + |ANALYSIS_CLOSE|))
        else var o := Find(s[i..], SUMMARY_OPEN); Cut(s, i, if o.Some? then i + o.value else |s|)
  {
    hide Find, IsLeading, At, Cut;
  }

  lemma PeelClosed(w: string, draft: string, rest: string)
    requires !Contains(draft, ANALYSIS_CLOSE)
    requires var s := Opened(w, Closed(draft, rest));
      && Find(s, ANALYSIS_OPEN) == Some(|w|) && At(s, |w|, ANALYSIS_OPEN)
    ensures var s := Opened(w, Closed(draft, rest));
      PeelAnalysis(s) == if IsLeading(s, |w|) then PeelAnalysis(w + rest) else s
  {
    hide *;
    ClosedEnd(w, draft, rest);
    PeelBranches(Opened(w, Closed(draft, rest)), |w|);
  }

  lemma ClosedEnd(w: string, draft: string, rest: string)
    requires !Contains(draft, ANALYSIS_CLOSE)
    ensures var s := Opened(w, Closed(draft, rest)); var n := |ANALYSIS_OPEN + draft|;
      && |w| + n + |ANALYSIS_CLOSE| <= |s|
      && Find(s[|w|..], ANALYSIS_CLOSE) == Some(n)
      && Cut(s, |w|, |w| + n + |ANALYSIS_CLOSE|) == w + rest
  {
    TokenShape(ANALYSIS_CLOSE);
    BehindToken(ANALYSIS_OPEN, draft, ANALYSIS_CLOSE);
    hide Find, Contains;
    FindAfter(ANALYSIS_OPEN + draft, ANALYSIS_CLOSE, rest);
    ClosedSlices(w, ANALYSIS_OPEN, draft, ANALYSIS_CLOSE, rest);
  }

  lemma ClosedSlices(w: string, o: string, d: string, c: string, rest: string)
    ensures var s := w + o + (d + c + rest);
      && s[|w|..] == o + d + c + rest
      && Cut(s, |w|, |w| + |o + d| + |c|) == w + rest
  {
    var s := w + o + (d + c + rest);
    assert s == w + (o + d + c + rest) && s == (w + o + d + c) + rest;
  }

  lemma PeelToEnd(w: string, draft: string)
    requires !Contains(draft, ANALYSIS_CLOSE) && !Contains(draft, SUMMARY_OPEN)
    requires var s := Opened(w, draft);
      && Find(s, ANALYSIS_OPEN) == Some(|w|) && At(s, |w|, ANALYSIS_OPEN) && IsLeading(s, |w|)
    ensures PeelAnalysis(Opened(w, draft)) == w
  {
    hide *;
    NeverClosed(w, draft);
    CutRest(Opened(w, draft), w);
    PeelBranches(Opened(w, draft), |w|);
  }

  lemma CutRest(s: string, w: string)
    requires |w| <= |s| && s[..|w|] == w
    ensures Cut(s, |w|, |s|) == w
  {
  }

  lemma NeverClosed(w: string, draft: string)
    requires !Contains(draft, ANALYSIS_CLOSE)
    ensures var s := Opened(w, draft);
      && |w| <= |s| && s[..|w|] == w && Find(s[|w|..], ANALYSIS_CLOSE) == None
      && (!Contains(draft, SUMMARY_OPEN) ==> Find(s[|w|..], SUMMARY_OPEN) == None)
  {
    var s := Opened(w, draft);
    assert s[|w|..] == ANALYSIS_OPEN + draft;
    BehindToken(ANALYSIS_OPEN, draft, ANALYSIS_CLOSE);
    BehindToken(ANALYSIS_OPEN, draft, SUMMARY_OPEN);
    FindSpec(s[|w|..], ANALYSIS_CLOSE);
    FindSpec(s[|w|..], SUMMARY_OPEN);
    hide Find, Contains;
  }

  lemma PeelToBlock(w: string, notes: string, block: string)
    requires var draft := Begun(notes, block); var s := Opened(w, draft);
      && !Contains(draft, ANALYSIS_CLOSE) && !Contains(notes, SUMMARY_OPEN)
      && Find(s, ANALYSIS_OPEN) == Some(|w|) && At(s, |w|, ANALYSIS_OPEN) && IsLeading(s, |w|)
    ensures PeelAnalysis(Opened(w, Begun(notes, block))) == Begun(w, block)
  {
    hide *;
    NeverClosed(w, Begun(notes, block));
    NextBlock(w, notes, block);
    PeelBranches(Opened(w, Begun(notes, block)), |w|);
  }

  lemma NextBlock(w: string, notes: string, block: string)
    requires !Contains(notes, SUMMARY_OPEN)
    ensures var s := Opened(w, Begun(notes, block)); var n := |ANALYSIS_OPEN + notes|;
      && |w| + n <= |s| && Find(s[|w|..], SUMMARY_OPEN) == Some(n)
      && Cut(s, |w|, |w| + n) == Begun(w, block)
  {
    TokenShape(SUMMARY_OPEN);
    BehindToken(ANALYSIS_OPEN, notes, SUMMARY_OPEN);
    hide Find, Contains;
    FindAfter(ANALYSIS_OPEN + notes, SUMMARY_OPEN, block);
    UpToBlock(w, ANALYSIS_OPEN, notes, SUMMARY_OPEN, block);
  }

  lemma UpToBlock(w: string, o: string, n: string, p: string, b: string)
    ensures var s := w + o + (n + p + b);
      && s[|w|..] == o + n + p + b && Cut(s, |w|, |w| + |o + n|) == w + p + b
  {
    var s := w + o + (n + p + b);
    assert s == w + (o + n + p + b) && s == (w + o + n) + (p + b);
  }

  // ------------------------------------------------------------ the theorems

  /** A closed draft behind token-free text: dropped when a summary block follows or nothing
      but whitespace stands in front; else everything stays. */
  lemma DraftAtTop(w: string, draft: string, rest: string)
    requires TokenFree(w) && !Contains(draft, ANALYSIS_CLOSE)
    ensures var s := Opened(w, Closed(draft, rest));
      FormatCompactSummary(s) ==
        if Blank(w) || Contains(Closed(draft, rest), SUMMARY_OPEN) then FormatCompactSummary(w + rest)
        else Trim(Squeeze(Neutralize(s), 0))
  {
    hide *;
    var behind := Closed(draft, rest);
    LeadsAtTop(w, behind);
    PeelClosed(w, draft, rest);
    InWhole(w, behind);
    SamePeeled(Opened(w, behind), w + rest);
    NotUnwrapped(Opened(w, behind));
  }

  /** A text that is not peeled and holds no block. */
  lemma NotUnwrapped(s: string)
    ensures PeelAnalysis(s) == s && (!Contains(s, SUMMARY_OPEN) || !Contains(s, SUMMARY_CLOSE)) ==>
      FormatCompactSummary(s) == Trim(Squeeze(Neutralize(s), 0))
  {
    hide PeelAnalysis, UnwrapSummary, Trim, Neutralize, Squeeze, CollapseBlankLines, Contains;
    if PeelAnalysis(s) == s && (!Contains(s, SUMMARY_OPEN) || !Contains(s, SUMMARY_CLOSE)) {
      NothingToUnwrap(s);
      CollapseIsSqueeze(Neutralize(s));
    }
  }

  lemma NothingToUnwrap(s: string)
    requires !Contains(s, SUMMARY_OPEN) || !Contains(s, SUMMARY_CLOSE)
    ensures UnwrapSummary(s) == s
  {
    FindSpec(s, SUMMARY_OPEN);
    RFindSpec(s, SUMMARY_CLOSE);
    hide Find, RFind, Contains;
  }

  /** A closed draft inside the block: dropped when it comes first; else no draft is dropped. */
  lemma DraftInBlock(v: string, gap: string, draft: string, rest: string)
    requires TokenFree(v) && TokenFree(gap) && !Contains(draft, ANALYSIS_CLOSE)
    ensures var w := Begun(v, gap); var s := Opened(w, Closed(draft, rest));
      && (Blank(gap) ==> FormatCompactSummary(s) == FormatCompactSummary(w + rest))
      && (!Blank(gap) ==> PeelAnalysis(s) == s)
  {
    hide *;
    LeadsInBlock(v, gap, Closed(draft, rest));
    PeelClosed(Begun(v, gap), draft, rest);
    SamePeeled(Opened(Begun(v, gap), Closed(draft, rest)), Begun(v, gap) + rest);
  }

  lemma SamePeeled(s: string, t: string)
    ensures PeelAnalysis(s) == PeelAnalysis(t) ==> FormatCompactSummary(s) == FormatCompactSummary(t)
  {
    hide PeelAnalysis, UnwrapSummary, Neutralize, CollapseBlankLines, Trim;
  }

  /** A leading draft that is never closed and that no summary follows leaves nothing. */
  lemma OnlyUnclosedDraft(w: string, draft: string)
    requires Blank(w) && !Contains(draft, ANALYSIS_CLOSE) && !Contains(draft, SUMMARY_OPEN)
    ensures FormatCompactSummary(Opened(w, draft)) == ""
  {
    hide *;
    BlankLacksOpen(w);
    LeadsAtTop(w, draft);
    PeelToEnd(w, draft);
    BlankVanishes(w);
    Staged(Opened(w, draft));
  }

  lemma Staged(s: string)
    ensures FormatCompactSummary(s) == Trim(CollapseBlankLines(Neutralize(UnwrapSummary(PeelAnalysis(s)))))
  {
    hide PeelAnalysis, UnwrapSummary, Neutralize, CollapseBlankLines, Trim;
  }

  lemma BlankVanishes(w: string)
    requires Blank(w)
    ensures Trim(CollapseBlankLines(Neutralize(UnwrapSummary(w)))) == ""
  {
    BlankLacksOpen(w);
    assert IsToken(SUMMARY_OPEN);
    NothingToUnwrap(w);
    NeutralizeTokenFree(w);
    CollapseIsSqueeze(w);
    SqueezeBlank(w, 0);
    TrimSpec(Squeeze(w, 0));
    hide UnwrapSummary, Neutralize, CollapseBlankLines, Trim, Squeeze;
  }

  /** A draft that is never closed is dropped up to the next `<summary>`. */
  lemma UnclosedUpToBlock(w: string, notes: string, block: string)
    requires TokenFree(w) && !Contains(notes, SUMMARY_OPEN)
    requires !Contains(Begun(notes, block), ANALYSIS_CLOSE)
    ensures PeelAnalysis(Opened(w, Begun(notes, block))) == Begun(w, block)
  {
    HoldsBlock(notes, block);
    hide *;
    LeadsAtTop(w, Begun(notes, block));
    PeelToBlock(w, notes, block);
  }

  lemma HoldsBlock(notes: string, block: string)
    ensures Contains(Begun(notes, block), SUMMARY_OPEN)
  {
    assert At(Begun(notes, block), |notes|, SUMMARY_OPEN);
  }

  /** Without a draft and without a block: everything stays, with its tokens defused. */
  lemma NoBlock(s: string)
    requires !Contains(s, ANALYSIS_OPEN)
    requires !Contains(s, SUMMARY_OPEN) || !Contains(s, SUMMARY_CLOSE)
    ensures FormatCompactSummary(s) == Trim(Squeeze(Neutralize(s), 0))
  {
    PeelAbsent(s);
    NothingToUnwrap(s);
    CollapseIsSqueeze(Neutralize(s));
    hide PeelAnalysis, UnwrapSummary, Neutralize, CollapseBlankLines, Trim, Squeeze, Contains;
  }

  /** Closing tags in front of the first `<summary>` make no block. */
  lemma ClosedTooEarly(a: string, b: string)
    requires !Contains(a + SUMMARY_OPEN + b, ANALYSIS_OPEN)
    requires !Contains(a, SUMMARY_OPEN) && !Contains(b, SUMMARY_CLOSE)
    ensures var s := a + SUMMARY_OPEN + b; FormatCompactSummary(s) == Trim(Squeeze(Neutralize(s), 0))
  {
    var s := a + SUMMARY_OPEN + b;
    PeelAbsent(s);
    EarlyClose(a, b);
    CollapseIsSqueeze(Neutralize(s));
    hide PeelAnalysis, UnwrapSummary, Neutralize, CollapseBlankLines, Trim, Squeeze, Contains;
  }

  lemma EarlyClose(a: string, b: string)
    requires !Contains(a, SUMMARY_OPEN) && !Contains(b, SUMMARY_CLOSE)
    ensures UnwrapSummary(a + SUMMARY_OPEN + b) == a + SUMMARY_OPEN + b
  {
    var s := a + SUMMARY_OPEN + b;
    TokenShape(SUMMARY_OPEN);
    TokenShape(SUMMARY_CLOSE);
    FindAfter(a, SUMMARY_OPEN, b);
    RFindSpec(s, SUMMARY_CLOSE);
    var end := RFind(s, SUMMARY_CLOSE);
    hide Find, RFind;
    if end.Some? && end.value > |a| {
      AtChar(s, end.value, SUMMARY_CLOSE, 0);
      AtRight(a + SUMMARY_OPEN, b, end.value, SUMMARY_CLOSE);
      assert false;
    }
  }

  // ------------------------------------------------------------ defusing

  /** The text without zero-width spaces. */
  ghost function WithoutSpaces(s: string): string {
    if s == [] then []
    else if s[0] == '\U{200B}' then WithoutSpaces(s[1..])
    else [s[0]] + WithoutSpaces(s[1..])
  }

  lemma {:induction false} WithoutConcat(a: string, b: string)
    ensures WithoutSpaces(a + b) == WithoutSpaces(a) + WithoutSpaces(b)
  {
    if a == [] {
      assert a + b == b;
    } else {
      assert (a + b)[1..] == a[1..] + b;
      WithoutConcat(a[1..], b);
    }
  }

  lemma WithoutDefused(t: string)
    requires t != [] && t[0] != '\U{200B}'
    ensures WithoutSpaces(Defused(t)) == WithoutSpaces(t)
  {
    assert Defused(t)[1..] == [ZERO_WIDTH_SPACE] + t[1..];
    assert ([ZERO_WIDTH_SPACE] + t[1..])[1..] == t[1..];
  }

  lemma {:induction false} ReplaceInserts(s: string, t: string)
    requires t != [] && t[0] != '\U{200B}'
    ensures WithoutSpaces(Replace(s, t, Defused(t))) == WithoutSpaces(s)
    decreases |s|
  {
    FindSpec(s, t);
    hide Find, Replace, Contains, Spliced, WithoutSpaces, Defused;
    match Find(s, t)
    case None =>
      ReplaceAbsent(s, t, Defused(t));
    case Some(i) =>
      ReplaceFirst(s, t, Defused(t), i);
      ReplaceInserts(s[i + |t|..], t);
      SpliceInserts(s, i, t, Replace(s[i + |t|..], t, Defused(t)));
  }

  lemma SpliceInserts(s: string, i: nat, t: string, rest: string)
    requires At(s, i, t) && t != [] && t[0] != '\U{200B}'
    requires WithoutSpaces(rest) == WithoutSpaces(s[i + |t|..])
    ensures WithoutSpaces(Spliced(s, i, Defused(t), rest)) == WithoutSpaces(s)
  {
    AtSplits(s, i, t);
    var a, b := s[..i], s[i + |t|..];
    hide At, WithoutSpaces, Defused;
    WithoutConcat(a + Defused(t), rest);
    WithoutConcat(a, Defused(t));
    WithoutConcat(a + t, b);
    WithoutConcat(a, t);
    WithoutDefused(t);
  }

  /** Defusing only inserts zero-width spaces: nothing is lost or reordered. */
  lemma NeutralizeInserts(s: string)
    ensures WithoutSpaces(Neutralize(s)) == WithoutSpaces(s)
  {
    hide Replace, Defused, WithoutSpaces;
    var s1 := Replace(s, SUMMARY_CLOSE, Defused(SUMMARY_CLOSE));
    var s2 := Replace(s1, SUMMARY_OPEN, Defused(SUMMARY_OPEN));
    var s3 := Replace(s2, ANALYSIS_CLOSE, Defused(ANALYSIS_CLOSE));
    var s4 := Replace(s3, ANALYSIS_OPEN, Defused(ANALYSIS_OPEN));
    var s5 := Replace(s4, REQUEST_CLOSE, Defused(REQUEST_CLOSE));
    ReplaceInserts(s, SUMMARY_CLOSE);
    ReplaceInserts(s1, SUMMARY_OPEN);
    ReplaceInserts(s2, ANALYSIS_CLOSE);
    ReplaceInserts(s3, ANALYSIS_OPEN);
    ReplaceInserts(s4, REQUEST_CLOSE);
    ReplaceInserts(s5, REQUEST_OPEN);
  }

  lemma EndsOnce(t: string)
    requires IsToken(t)
    ensures t != [] && t[|t| - 1] == '>' && forall k | 0 <= k < |t| - 1 :: t[k] != '>'
  {
  }

  /** No token starts another. */
  lemma OtherAtStart(t: string, b: string, u: string)
    requires IsToken(t) && IsToken(u) && At(t + b, 0, u)
    ensures u == t
  {
    EndsOnce(t);
    EndsOnce(u);
    var n := if |u| < |t| then |u| else |t|;
    assert forall k | 0 <= k < n :: u[k] == t[k] by {
      forall k | 0 <= k < n ensures u[k] == t[k] {
        AtChar(t + b, 0, u, k);
      }
    }
    assert |u| == |t|;
  }

  lemma OnlyToken(a: string, t: string, b: string, u: string)
    requires IsToken(t) && IsToken(u) && TokenFree(a) && TokenFree(b) && u != t
    ensures !Contains(a + t + b, u)
  {
    TokenShape(t);
    TokenShape(u);
    assert a + t + b == a + (t + b);
    SplitAtOpen(a, t + b, u);
    hide IsToken;
    if p: nat :| p <= |t + b| && At(t + b, p, u) {
      AtChar(t + b, p, u, 0);
      if p == 0 {
        OtherAtStart(t, b, u);
        assert false;
      } else {
        AtRight(t, b, p, u);
        assert false;
      }
    }
  }

  lemma ReplaceOne(a: string, t: string, b: string, u: string)
    requires IsToken(t) && IsToken(u) && TokenFree(a) && TokenFree(b)
    ensures var s, r := a + t + b, a + Defused(t) + b;
      && Replace(s, u, Defused(u)) == (if u == t then r else s)
      && Replace(r, u, Defused(u)) == r
  {
    var s, r := a + t + b, a + Defused(t) + b;
    TokenShape(t);
    TokenShape(u);
    hide IsToken, Replace, Contains, Find, Defused;
    FindAfter(a, t, b);
    ReplaceFirst(s, t, Defused(t), |a|);
    SpliceOne(a, t, b, Defused(t));
    ReplaceAbsent(b, t, Defused(t));
    DefuseStep(s, t, u);
    if u != t {
      OnlyToken(a, t, b, u);
      ReplaceAbsent(s, u, Defused(u));
    }
    ReplaceAbsent(r, u, Defused(u));
  }

  lemma SpliceOne(a: string, t: string, b: string, to: string)
    ensures (a + t + b)[|a| + |t|..] == b && Spliced(a + t + b, |a|, to, b) == a + to + b
  {
  }

  /** A single token gets its zero-width space right behind the `<`. */
  lemma {:induction false} NeutralizeOne(a: string, t: string, b: string)
    requires IsToken(t) && TokenFree(a) && TokenFree(b)
    ensures Neutralize(a + t + b) == a + ([t[0], '\U{200B}'] + t[1..]) + b
  {
    TokenShape(t);
    assert t == ANALYSIS_OPEN || t == ANALYSIS_CLOSE || t == SUMMARY_OPEN || t == SUMMARY_CLOSE
      || t == REQUEST_OPEN || t == REQUEST_CLOSE;
    ReplaceOne(a, t, b, SUMMARY_CLOSE);
    ReplaceOne(a, t, b, SUMMARY_OPEN);
    ReplaceOne(a, t, b, ANALYSIS_CLOSE);
    ReplaceOne(a, t, b, ANALYSIS_OPEN);
    ReplaceOne(a, t, b, REQUEST_CLOSE);
    ReplaceOne(a, t, b, REQUEST_OPEN);
    hide Replace, TokenFree, IsTag, Lacks;
  }
}
