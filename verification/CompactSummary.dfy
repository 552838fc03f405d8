/** Cleaning of the compaction model's raw output (`format_compact_summary`): drafting
    scratchpad is peeled off, control tokens are defused, newline runs are collapsed. */
module CompactSummary {
  import opened Wrappers
  import opened Text

  const ANALYSIS_OPEN := "<analysis>"
  const ANALYSIS_CLOSE := "</analysis>"
  const SUMMARY_OPEN := "<summary>"
  const SUMMARY_CLOSE := "</summary>"
  const REQUEST_OPEN := "<summary_request>"
  const REQUEST_CLOSE := "</summary_request>"
  const ZERO_WIDTH_SPACE := '\U{200B}'
  const BLANK_LINES := "\n\n\n"

  ghost predicate IsToken(t: string) {
    || t == ANALYSIS_OPEN || t == ANALYSIS_CLOSE || t == SUMMARY_OPEN
    || t == SUMMARY_CLOSE || t == REQUEST_OPEN || t == REQUEST_CLOSE
  }

  /** No control token occurs in the text. */
  ghost predicate TokenFree(s: string) {
    forall t | IsToken(t) :: !Contains(s, t)
  }

  lemma TokenShape(t: string)
    requires IsToken(t)
    ensures IsTag(t) && Lacks(t, ZERO_WIDTH_SPACE) && Lacks(t, '\n')
  {
  }

  // ------------------------------------------------------------ the stages as functions

  /** Does the `<analysis>` at `start` open a top-level (or summary-leading) scratchpad? */
  predicate IsLeading(s: string, start: nat)
    requires At(s, start, ANALYSIS_OPEN)
  {
    FindSpec(s, SUMMARY_OPEN);
    match Find(s, SUMMARY_OPEN)
    case Some(sp) =>
      TagsApart(s, sp, SUMMARY_OPEN, start, ANALYSIS_OPEN);
      start < sp || Trim(s[sp + |SUMMARY_OPEN|..start]) == ""
    case None => Trim(s[..start]) == ""
  }

  /** Two different tags cannot overlap: one ends before the other starts. */
  lemma TagsApart(s: string, p: nat, t: string, q: nat, u: string)
    requires At(s, p, t) && At(s, q, u) && IsToken(t) && IsToken(u)
    requires t[1] != u[1]
    ensures p < q ==> p + |t| <= q
    ensures q < p ==> q + |u| <= p
    ensures p != q
  {
    TokenShape(t);
    TokenShape(u);
    AtChar(s, p, t, 1);
    AtChar(s, q, u, 1);
    if p < q < p + |t| {
      AtChar(s, q, u, 0);
      AtChar(s, p, t, q - p);
      assert false;
    }
    if q < p < q + |u| {
      AtChar(s, p, t, 0);
      AtChar(s, q, u, p - q);
      assert false;
    }
  }

  function PeelAnalysis(s: string): (r: string)
    decreases |s|
  {
    FindSpec(s, ANALYSIS_OPEN);
    match Find(s, ANALYSIS_OPEN)
    case None => s
    case Some(start) =>
      if !IsLeading(s, start) then s
      else
        match Find(s[start..], ANALYSIS_CLOSE)
        case Some(rel) => PeelAnalysis(Cut(s, start, start + rel + |ANALYSIS_CLOSE|))
        case None =>
          match Find(s[start..], SUMMARY_OPEN)
          case Some(rel) => Cut(s, start, start + rel)
          case None => Cut(s, start, |s|)
  }

  predicate IsDecoration(c: char) {
    c == '#' || c == '*' || c == '-' || c == '>' || c == ' ' || c == '\t'
  }

  function SkipDecoration(s: string): (r: string)
    ensures |r| <= |s| && r == s[|s| - |r|..]
    ensures forall i | 0 <= i < |s| - |r| :: IsDecoration(s[i])
  {
    if s != [] && IsDecoration(s[0]) then SkipDecoration(s[1..]) else s
  }

  /** Does the block start with a (possibly decorated) section number? */
  predicate LeadsWithNumber(s: string) {
    var lead := SkipDecoration(s);
    lead != [] && '0' <= lead[0] <= '9'
  }

  function StripLeadingScratchpad(inner: string): string {
    var s := Trim(inner);
    var t :=
      if LeadsWithNumber(s) then s
      else
        match RFind(s, ANALYSIS_CLOSE)
        case Some(pos) => TrimStart(s[pos + |ANALYSIS_CLOSE|..])
        case None => s;
    if At(t, 0, SUMMARY_OPEN) then TrimStart(t[|SUMMARY_OPEN|..]) else t
  }

  /** Replaces the outermost `<summary>` block by its cleaned body under a `Summary:` line. */
  function UnwrapSummary(s: string): string {
    match (Find(s, SUMMARY_OPEN), RFind(s, SUMMARY_CLOSE))
    case (Some(start), Some(end)) =>
      if end > start then
        FindSpec(s, SUMMARY_OPEN);
        RFindSpec(s, SUMMARY_CLOSE);
        TagsApart(s, start, SUMMARY_OPEN, end, SUMMARY_CLOSE);
        s[..start] + "Summary:\n"
        + StripLeadingScratchpad(Trim(s[start + |SUMMARY_OPEN|..end]))
        + s[end + |SUMMARY_CLOSE|..]
      else s
    case _ => s
  }

  function Defused(token: string): string
    requires token != []
  {
    [token[0], ZERO_WIDTH_SPACE] + token[1..]
  }

  function Neutralize(s: string): string {
    var s := Replace(s, SUMMARY_CLOSE, Defused(SUMMARY_CLOSE));
    var s := Replace(s, SUMMARY_OPEN, Defused(SUMMARY_OPEN));
    var s := Replace(s, ANALYSIS_CLOSE, Defused(ANALYSIS_CLOSE));
    var s := Replace(s, ANALYSIS_OPEN, Defused(ANALYSIS_OPEN));
    var s := Replace(s, REQUEST_CLOSE, Defused(REQUEST_CLOSE));
    Replace(s, REQUEST_OPEN, Defused(REQUEST_OPEN))
  }

  /** The newline loop, one replacement pass at a time. */
  function CollapseBlankLines(s: string): (r: string)
    ensures !Contains(r, BLANK_LINES)
    decreases |s|
  {
    if Contains(s, BLANK_LINES) then
      ReplaceShrinks(s, BLANK_LINES, "\n\n");
      CollapseBlankLines(Replace(s, BLANK_LINES, "\n\n"))
    else s
  }

  lemma {:induction false} ReplaceShrinks(s: string, from: string, to: string)
    requires 0 < |from| && |to| < |from|
    ensures |Replace(s, from, to)| <= |s|
    ensures Contains(s, from) ==> |Replace(s, from, to)| < |s|
    decreases |s|
  {
    FindSpec(s, from);
    hide Find, Replace, Contains, Spliced;
    match Find(s, from)
    case None =>
      ReplaceAbsent(s, from, to);
    case Some(i) =>
      ReplaceFirst(s, from, to, i);
      ReplaceShrinks(s[i + |from|..], from, to);
  }

  function FormatCompactSummary(summary: string): string {
    Trim(CollapseBlankLines(Neutralize(UnwrapSummary(PeelAnalysis(summary)))))
  }

  // ------------------------------------------------------------ the loops

  /** `format_compact_summary`. Every slice is in range and both loops terminate. */
  method FormatSummary(summary: string) returns (r: string)
    ensures r == FormatCompactSummary(summary)
  {
    hide Cut, Find, Contains, IsLeading, Neutralize, UnwrapSummary, Replace, Trim;
    var result := summary;
    while true
      invariant PeelAnalysis(result) == PeelAnalysis(summary)
      decreases |result|
    {
      var open := Find(result, ANALYSIS_OPEN);
      FindSpec(result, ANALYSIS_OPEN);
      if open.None? || !IsLeading(result, open.value) {
        break;
      }
      var start := open.value;
      var close := Find(result[start..], ANALYSIS_CLOSE);
      if close.None? {
        var next := Find(result[start..], SUMMARY_OPEN);
        var dropTo := if next.Some? then start + next.value else |result|;
        result := Cut(result, start, dropTo);
        assert result == PeelAnalysis(summary);
        break;
      }
      result := Cut(result, start, start + close.value + |ANALYSIS_CLOSE|);
    }
    assert result == PeelAnalysis(summary);
    r := Neutralize(UnwrapSummary(result));
    ghost var goal := CollapseBlankLines(r);
    while Contains(r, BLANK_LINES)
      invariant CollapseBlankLines(r) == goal
      decreases |r|
    {
      ReplaceShrinks(r, BLANK_LINES, "\n\n");
      r := Replace(r, BLANK_LINES, "\n\n");
    }
    r := Trim(r);
  }

  // ------------------------------------------------------------ cleanliness and idempotence

  lemma DefuseStep(s: string, token: string, t: string)
    requires IsToken(token) && IsToken(t)
    ensures Contains(Replace(s, token, Defused(token)), t) ==> Contains(s, t) && t != token
  {
    TokenShape(token);
    TokenShape(t);
    var to := Defused(token);
    assert to[1..] == [ZERO_WIDTH_SPACE] + token[1..];
    ReplaceRemovesTag(s, token, to);
    ReplaceMakesNoTag(s, token, to, 1, t);
  }

  lemma NeutralizeIsTokenFree(s: string)
    ensures TokenFree(Neutralize(s))
  {
    forall t | IsToken(t) ensures !Contains(Neutralize(s), t) {
      var s1 := Replace(s, SUMMARY_CLOSE, Defused(SUMMARY_CLOSE));
      var s2 := Replace(s1, SUMMARY_OPEN, Defused(SUMMARY_OPEN));
      var s3 := Replace(s2, ANALYSIS_CLOSE, Defused(ANALYSIS_CLOSE));
      var s4 := Replace(s3, ANALYSIS_OPEN, Defused(ANALYSIS_OPEN));
      var s5 := Replace(s4, REQUEST_CLOSE, Defused(REQUEST_CLOSE));
      DefuseStep(s, SUMMARY_CLOSE, t);
      DefuseStep(s1, SUMMARY_OPEN, t);
      DefuseStep(s2, ANALYSIS_CLOSE, t);
      DefuseStep(s3, ANALYSIS_OPEN, t);
      DefuseStep(s4, REQUEST_CLOSE, t);
      DefuseStep(s5, REQUEST_OPEN, t);
    }
  }

  lemma {:induction false} CollapseMakesNoToken(s: string, t: string)
    requires IsToken(t)
    ensures Contains(CollapseBlankLines(s), t) ==> Contains(s, t)
    decreases |s|
  {
    if Contains(s, BLANK_LINES) {
      TokenShape(t);
      ReplaceShrinks(s, BLANK_LINES, "\n\n");
      ReplaceMakesNoTag(s, BLANK_LINES, "\n\n", 0, t);
      CollapseMakesNoToken(Replace(s, BLANK_LINES, "\n\n"), t);
    }
  }

  /** Whatever the model wrote, the cleaned summary holds no control token, no run of three
      newlines and no surrounding whitespace. */
  lemma OutputIsClean(summary: string)
    ensures var r := FormatCompactSummary(summary);
      TokenFree(r) && !Contains(r, BLANK_LINES) && Trimmed(r)
  {
    var n := Neutralize(UnwrapSummary(PeelAnalysis(summary)));
    var c := CollapseBlankLines(n);
    NeutralizeIsTokenFree(UnwrapSummary(PeelAnalysis(summary)));
    TrimSpec(c);
    hide Trim;
    forall t | IsToken(t) ensures !Contains(Trim(c), t) {
      CollapseMakesNoToken(n, t);
      TrimContains(c, t);
    }
    TrimContains(c, BLANK_LINES);
  }

  /** The texts that cleaning leaves alone are exactly the clean ones. */
  lemma CleanIffUnchanged(s: string)
    ensures FormatCompactSummary(s) == s <==> TokenFree(s) && !Contains(s, BLANK_LINES) && Trimmed(s)
  {
    OutputIsClean(s);
    if TokenFree(s) && !Contains(s, BLANK_LINES) && Trimmed(s) {
      PeelTokenFree(s);
      NeutralizeTokenFree(s);
      CollapseAbsent(s);
      TrimTrimmed(s);
    }
    hide Trim, Neutralize, PeelAnalysis, UnwrapSummary, CollapseBlankLines, Contains, Trimmed, TokenFree;
  }

  lemma CollapseAbsent(s: string)
    requires !Contains(s, BLANK_LINES)
    ensures CollapseBlankLines(s) == s
  {
    hide Contains, Replace;
  }

  lemma PeelTokenFree(s: string)
    requires TokenFree(s)
    ensures PeelAnalysis(s) == s && UnwrapSummary(s) == s
  {
    assert IsToken(ANALYSIS_OPEN) && IsToken(SUMMARY_OPEN);
    FindSpec(s, ANALYSIS_OPEN);
    FindSpec(s, SUMMARY_OPEN);
    hide Find, Contains, IsToken, TokenFree;
  }

  lemma NeutralizeTokenFree(s: string)
    requires TokenFree(s)
    ensures Neutralize(s) == s
  {
    assert IsToken(ANALYSIS_OPEN) && IsToken(ANALYSIS_CLOSE) && IsToken(SUMMARY_OPEN);
    assert IsToken(SUMMARY_CLOSE) && IsToken(REQUEST_OPEN) && IsToken(REQUEST_CLOSE);
    hide Contains, IsToken, Replace;
    ReplaceAbsent(s, SUMMARY_CLOSE, Defused(SUMMARY_CLOSE));
    ReplaceAbsent(s, SUMMARY_OPEN, Defused(SUMMARY_OPEN));
    ReplaceAbsent(s, ANALYSIS_CLOSE, Defused(ANALYSIS_CLOSE));
    ReplaceAbsent(s, ANALYSIS_OPEN, Defused(ANALYSIS_OPEN));
    ReplaceAbsent(s, REQUEST_CLOSE, Defused(REQUEST_CLOSE));
    ReplaceAbsent(s, REQUEST_OPEN, Defused(REQUEST_OPEN));
  }

  lemma FormatIsIdempotent(summary: string)
    ensures FormatCompactSummary(FormatCompactSummary(summary)) == FormatCompactSummary(summary)
  {
    OutputIsClean(summary);
    CleanIffUnchanged(FormatCompactSummary(summary));
  }

  // ------------------------------------------------------------ newline runs

  /** What the newline loop computes, independently of replacement passes: a newline that
      follows two newlines is dropped, everything else stays. `k` counts the newlines right
      before `s`, up to two. */
  ghost function Squeeze(s: string, k: nat): string
    requires k <= 2
  {
    if s == [] then []
    else if s[0] != '\n' then [s[0]] + Squeeze(s[1..], 0)
    else if k == 2 then Squeeze(s[1..], 2)
    else [s[0]] + Squeeze(s[1..], k + 1)
  }

  ghost function NewlinesAfter(s: string, k: nat): (r: nat)
    requires k <= 2
    ensures r <= 2
  {
    if s == [] then k
    else NewlinesAfter(s[1..], if s[0] != '\n' then 0 else if k == 2 then 2 else k + 1)
  }

  lemma {:induction false} SqueezeConcat(a: string, b: string, k: nat)
    requires k <= 2
    ensures Squeeze(a + b, k) == Squeeze(a, k) + Squeeze(b, NewlinesAfter(a, k))
  {
    if a == [] {
      assert a + b == b;
    } else {
      assert (a + b)[1..] == a[1..] + b;
      SqueezeConcat(a[1..], b, if a[0] != '\n' then 0 else if k == 2 then 2 else k + 1);
    }
  }

  lemma SqueezeRun(k: nat)
    requires k <= 2
    ensures Squeeze("\n\n\n", k) == Squeeze("\n\n", k)
    ensures NewlinesAfter("\n\n\n", k) == 2 == NewlinesAfter("\n\n", k)
  {
    assert "\n\n\n"[1..] == "\n\n" && "\n\n"[1..] == "\n" && "\n"[1..] == "";
  }

  lemma SqueezeSplice(s: string, i: nat, r: string, k: nat)
    requires k <= 2 && At(s, i, BLANK_LINES) && Squeeze(r, 2) == Squeeze(s[i + |BLANK_LINES|..], 2)
    ensures Squeeze(Spliced(s, i, "\n\n", r), k) == Squeeze(s, k)
  {
    hide Squeeze, NewlinesAfter;
    AtSplits(s, i, BLANK_LINES);
    var a, rest := s[..i], s[i + |BLANK_LINES|..];
    var k1 := NewlinesAfter(a, k);
    hide At;
    SqueezeRun(k1);
    SqueezeConcat(a, BLANK_LINES, k);
    SqueezeConcat(a + BLANK_LINES, rest, k);
    SqueezeConcat(a, "\n\n", k);
    SqueezeConcat(a + "\n\n", r, k);
    NewlinesConcat(a, BLANK_LINES, k);
    NewlinesConcat(a, "\n\n", k);
  }

  lemma {:induction false} NewlinesConcat(a: string, b: string, k: nat)
    requires k <= 2
    ensures NewlinesAfter(a + b, k) == NewlinesAfter(b, NewlinesAfter(a, k))
  {
    if a == [] {
      assert a + b == b;
    } else {
      assert (a + b)[1..] == a[1..] + b;
      NewlinesConcat(a[1..], b, if a[0] != '\n' then 0 else if k == 2 then 2 else k + 1);
    }
  }

  lemma {:induction false} ReplaceKeepsSqueeze(s: string, k: nat)
    requires k <= 2
    ensures Squeeze(Replace(s, BLANK_LINES, "\n\n"), k) == Squeeze(s, k)
    decreases |s|
  {
    FindSpec(s, BLANK_LINES);
    hide Squeeze, Find, Replace, Contains, Spliced;
    match Find(s, BLANK_LINES)
    case None =>
      ReplaceAbsent(s, BLANK_LINES, "\n\n");
    case Some(i) =>
      var rest := s[i + |BLANK_LINES|..];
      ReplaceFirst(s, BLANK_LINES, "\n\n", i);
      ReplaceKeepsSqueeze(rest, 2);
      SqueezeSplice(s, i, Replace(rest, BLANK_LINES, "\n\n"), k);
  }

  lemma {:induction false} SqueezeOfCollapsed(s: string, k: nat)
    requires k <= 2 && !Contains(s, BLANK_LINES)
    requires k >= 1 && s != [] ==> s[0] != '\n' || (k == 1 && (|s| == 1 || s[1] != '\n'))
    ensures Squeeze(s, k) == s
  {
    if s != [] {
      if Contains(s[1..], BLANK_LINES) {
        assert s[1..] == s[1..|s|];
        ContainsSlice(s, 1, |s|, BLANK_LINES);
      }
      if s[0] == '\n' && |s| > 2 && s[1] == '\n' && s[2] == '\n' {
        assert At(s, 0, BLANK_LINES);
      }
      SqueezeOfCollapsed(s[1..], if s[0] != '\n' then 0 else k + 1);
    }
  }

  /** The replacement loop computes `Squeeze`. */
  lemma {:induction false} CollapseIsSqueeze(s: string)
    ensures CollapseBlankLines(s) == Squeeze(s, 0)
    decreases |s|
  {
    if Contains(s, BLANK_LINES) {
      ReplaceShrinks(s, BLANK_LINES, "\n\n");
      ReplaceKeepsSqueeze(s, 0);
      CollapseIsSqueeze(Replace(s, BLANK_LINES, "\n\n"));
    } else {
      SqueezeOfCollapsed(s, 0);
    }
  }
}
