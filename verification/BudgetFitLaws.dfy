/** What fitting to a budget returns, told from the conversation and the estimates alone. */
module BudgetFitLaws {
  import opened Wrappers
  import opened Utf8
  import opened Decimal
  import opened Conversation
  import opened Truncation
  import opened BudgetFit

  // ------------------------------------------------------------ one text

  /** The first `k` characters of `s` and the number of bytes behind them. */
  ghost predicate IsCutAt(s: string, t: string, maxBytes: nat, k: nat)
    requires k <= |s|
  {
    && t == s[..k] + "\n[... truncated " + Render(Len(s[k..])) + " bytes to fit the compaction window ...]"
    && (k > 0 ==> Len(s[..k]) + 64 <= maxBytes)
    && (k < |s| ==> Len(s[..k + 1]) + 64 > maxBytes)
  }

  /** `t` is `s` cut to `maxBytes`: a text that fits stays; of any other, as many characters
      as leave 64 bytes for the marker. */
  ghost predicate IsCut(s: string, t: string, maxBytes: nat) {
    if Len(s) <= maxBytes then t == s else exists k | 0 <= k <= |s| :: IsCutAt(s, t, maxBytes, k)
  }

  lemma LongerTakesMore(s: string, j: nat, k: nat)
    requires j <= k <= |s|
    ensures Len(s[..j]) <= Len(s[..k])
  {
    assert s[..k] == s[..j] + s[j..k];
    LenConcat(s[..j], s[j..k]);
  }

  lemma TruncationIs(s: string, maxBytes: nat)
    ensures IsCut(s, TruncatedText(s, maxBytes), maxBytes)
  {
    hide Encode, Prefix, Render, IsCharBoundary;
    if Len(s) > maxBytes {
      TruncationKeeps(s, maxBytes);
      var k := |Kept(s, maxBytes)|;
      assert s == s[..k] + s[k..];
      LenConcat(s[..k], s[k..]);
      if k < |s| {
        assert |s[..k + 1]| > k;
        LongerTakesMore(s, 0, k + 1);
        AtLeastOne(s, k);
      }
      assert IsCutAt(s, TruncatedText(s, maxBytes), maxBytes, k) by {
        if k > 0 {
          AtLeastOne(s, 0);
          LongerTakesMore(s, 1, k);
        }
      }
    }
  }

  lemma AtLeastOne(s: string, k: nat)
    requires k < |s|
    ensures Len(s[..k + 1]) > 0
  {
    EncodeCharShape(s[0]);
    assert s[..k + 1][0] == s[0];
  }

  /** The item `y` is `x` with its own text cut to four bytes a token; attachments, ids, calls
      and images stay. */
  ghost predicate IsCutItem(x: Item, y: Item, tokens: nat) {
    var maxBytes := if 4 * tokens <= 0xFFFF_FFFF_FFFF_FFFF then 4 * tokens else 0xFFFF_FFFF_FFFF_FFFF;
    match x
    case ToolResult(id, content, images) =>
      y.ToolResult? && y.callId == id && y.images == images && IsCut(content, y.content, maxBytes)
    case Assistant(content, calls) =>
      y.Assistant? && y.toolCalls == calls && IsCut(content, y.content, maxBytes)
    case User(parts, reason) =>
      y.User? && y.synthetic == reason && AreCut(parts, y.parts, maxBytes)
    case _ => y == x
  }

  ghost predicate AreCut(parts: seq<ContentPart>, cut: seq<ContentPart>, maxBytes: nat) {
    && |cut| == |parts|
    && forall i | 0 <= i < |parts| :: IsCutPart(parts[i], cut[i], maxBytes)
  }

  ghost predicate IsCutPart(p: ContentPart, q: ContentPart, maxBytes: nat) {
    match p
    case Text(t) => q.Text? && IsCut(t, q.text, maxBytes)
    case Image(_) => q == p
  }

  lemma {:induction false} PartsAreCut(parts: seq<ContentPart>, maxBytes: nat)
    ensures AreCut(parts, TruncatedParts(parts, maxBytes), maxBytes)
  {
    hide TruncatedText, IsCut, IsCutPart;
    if parts != [] {
      var cut := TruncatedParts(parts, maxBytes);
      PartsAreCut(parts[1..], maxBytes);
      PartIsCut(parts[0], cut[0], maxBytes);
      forall i | 1 <= i < |parts| ensures IsCutPart(parts[i], cut[i], maxBytes) {
        assert IsCutPart(parts[1..][i - 1], cut[1..][i - 1], maxBytes);
      }
    }
  }

  lemma PartIsCut(p: ContentPart, q: ContentPart, maxBytes: nat)
    requires match p case Text(t) => q == Text(TruncatedText(t, maxBytes)) case Image(_) => q == p
    ensures IsCutPart(p, q, maxBytes)
  {
    hide TruncatedText, IsCut;
    if p.Text? {
      TruncationIs(p.text, maxBytes);
    }
  }

  lemma ItemIsCut(x: Item, tokens: nat)
    ensures IsCutItem(x, TruncatedItem(x, tokens), tokens)
  {
    hide TruncatedText, IsCut, AreCut, TruncatedParts;
    var maxBytes := ByteBound(tokens);
    match x
    case ToolResult(_, content, _) => TruncationIs(content, maxBytes);
    case Assistant(content, _) => TruncationIs(content, maxBytes);
    case User(parts, _) => PartsAreCut(parts, maxBytes);
    case _ =>
  }

  // ------------------------------------------------------------ the conversation

  /** `head` is the leading system item of `head + body`, or nothing when there is none. */
  ghost predicate IsHead(head: seq<Item>, body: seq<Item>) {
    if head == [] then body == [] || !body[0].System? else |head| == 1 && head[0].System?
  }

  /** The tail is affordable beside the head; a tail without cost always is. */
  ghost predicate Fits(head: seq<Item>, tail: seq<Item>, est: Estimate, maxTokens: nat) {
    Cost(tail, est) == 0 || Cost(head, est) + Cost(tail, est) <= maxTokens
  }

  /** No tail that starts inside `front` is affordable. */
  ghost predicate TooDear(head: seq<Item>, front: seq<Item>, tail: seq<Item>, est: Estimate, maxTokens: nat) {
    front != [] ==> !Fits(head, [front[|front| - 1]] + tail, est, maxTokens)
  }

  lemma HeadParts(head: seq<Item>, body: seq<Item>, est: Estimate, maxTokens: nat)
    requires IsHead(head, body)
    ensures HeadOf(head + body) == head && BodyOf(head + body) == body
    ensures forall tail :: Fits(head, tail, est, maxTokens) <==> Cost(tail, est) <= Budget(head + body, est, maxTokens)
  {
    assert (head + body)[..|head|] == head && (head + body)[|head|..] == body;
    hide Cost;
  }

  /** An affordable tail behind unaffordable items is where the search ends. */
  lemma SearchEnds(head: seq<Item>, front: seq<Item>, tail: seq<Item>, est: Estimate, maxTokens: nat)
    requires IsHead(head, front + tail)
    requires Fits(head, tail, est, maxTokens) && TooDear(head, front, tail, est, maxTokens)
    ensures var body := front + tail;
      SuffixStart(body, est, Budget(head + body, est, maxTokens), |body|) == |front|
  {
    var body := front + tail;
    HeadParts(head, body, est, maxTokens);
    assert body[|front|..] == tail;
    forall k | 0 <= k < |front| ensures !Fits(head, body[k..], est, maxTokens) {
      assert body[|front| - 1..] == [front[|front| - 1]] + tail;
      CostFrom(body, est, k, |front| - 1);
    }
    hide Cost, Fits, SuffixStart, Budget;
    LongestIsUnique(body, est, Budget(head + body, est, maxTokens), |front|);
  }

  lemma CutsAt(head: seq<Item>, front: seq<Item>, results: seq<Item>, rest: seq<Item>, est: Estimate, maxTokens: nat)
    requires var tail := results + rest;
      && IsHead(head, front + tail) && Fits(head, tail, est, maxTokens) && TooDear(head, front, tail, est, maxTokens)
    requires AllResults(results) && AtBlock(rest)
    ensures var body := front + (results + rest);
      CutStart(body, est, Budget(head + body, est, maxTokens)) == |front| + |results|
  {
    var tail := results + rest;
    SearchEnds(head, front, tail, est, maxTokens);
    assert (front + tail)[|front|..] == tail;
    RunLengthIs(results, rest);
    hide SuffixStart, Budget, RunLength, Fits, TooDear, IsHead;
  }

  /** A conversation within the limit comes back as it is. */
  lemma WithinLimit(c: seq<Item>, est: Estimate, maxTokens: nat)
    requires Cost(c, est) <= maxTokens
    ensures Fitted(c, est, maxTokens) == c
  {
    hide RecoveredTail, CutStart, Cost;
  }

  /** Above the limit: the head and, of the longest affordable tail, what follows its leading
      results, unchanged. */
  lemma TailKept(head: seq<Item>, front: seq<Item>, results: seq<Item>, rest: seq<Item>, est: Estimate, maxTokens: nat)
    requires var tail := results + rest;
      && IsHead(head, front + tail) && Fits(head, tail, est, maxTokens) && TooDear(head, front, tail, est, maxTokens)
    requires AllResults(results) && rest != [] && !rest[0].ToolResult?
    requires Cost(head + (front + (results + rest)), est) > maxTokens
    ensures Fitted(head + (front + (results + rest)), est, maxTokens) == head + rest
  {
    var body := front + (results + rest);
    CutsAt(head, front, results, rest, est, maxTokens);
    HeadParts(head, body, est, maxTokens);
    Behind(front, results, rest);
    hide *;
    FittedParts(head + body, est, maxTokens);
  }

  /** Whatever affordable tail a caller knows of, if it starts with something other than a
      result, at least that much of the conversation is kept unchanged. */
  lemma KeepsAffordable(head: seq<Item>, body: seq<Item>, k: nat, est: Estimate, maxTokens: nat)
    requires IsHead(head, body) && k < |body| && !body[k].ToolResult?
    requires Fits(head, body[k..], est, maxTokens) && Cost(head + body, est) > maxTokens
    ensures exists m | 0 <= m <= k :: Fitted(head + body, est, maxTokens) == head + body[m..]
  {
    var c := head + body;
    var budget := Budget(c, est, maxTokens);
    HeadParts(head, body, est, maxTokens);
    StopsBefore(body, k, est, budget);
    FittedParts(c, est, maxTokens);
    hide Cost, CutStart, Budget, HeadOf, BodyOf, RecoveredTail, IsHead, Fits, Fitted;
    var m := CutStart(body, est, budget);
    assert m <= k;
  }

  lemma StopsBefore(body: seq<Item>, k: nat, est: Estimate, budget: nat)
    requires k < |body| && !body[k].ToolResult? && Cost(body[k..], est) <= budget
    ensures CutStart(body, est, budget) <= k
  {
    var start := SuffixStart(body, est, budget, |body|);
    SuffixIsLongest(body, est, budget, |body|);
    assert body[k..|body|] == body[k..];
    assert body[start..][k - start] == body[k];
    hide SuffixStart, Cost;
  }

  /** A system item alone is never cut. */
  lemma HeadAlone(head: seq<Item>, est: Estimate, maxTokens: nat)
    requires IsHead(head, [])
    ensures Fitted(head, est, maxTokens) == head
  {
    assert head + [] == head;
    HeadParts(head, [], est, maxTokens);
    hide Cost, CutStart, Budget, HeadOf, BodyOf, IsHead;
  }

  lemma Behind(front: seq<Item>, results: seq<Item>, rest: seq<Item>)
    ensures (front + (results + rest))[|front| + |results|..] == rest
  {
  }

  lemma FittedParts(c: seq<Item>, est: Estimate, maxTokens: nat)
    requires Cost(c, est) > maxTokens
    ensures var body, budget := BodyOf(c), Budget(c, est, maxTokens);
      var start := CutStart(body, est, budget);
      Fitted(c, est, maxTokens)
      == HeadOf(c) + (if start < |body| then body[start..] else RecoveredTail(body, est, budget))
  {
    hide CutStart, Budget, HeadOf, BodyOf, RecoveredTail, Cost;
  }

  /** A last item that is no result and does not fit is kept alone, its text cut to what the
      head leaves. */
  lemma LastItemCut(head: seq<Item>, front: seq<Item>, x: Item, est: Estimate, maxTokens: nat) returns (y: Item)
    requires IsHead(head, front + [x]) && !x.ToolResult? && !Fits(head, [x], est, maxTokens)
    ensures Fitted(head + (front + [x]), est, maxTokens) == head + [y]
    ensures IsCutItem(x, y, if Cost(head, est) > maxTokens then 0 else maxTokens - Cost(head, est))
  {
    var body := front + [x];
    var c := head + body;
    CutsAt(head, body, [], [], est, maxTokens) by {
      assert body + ([] + []) == body && [x] + [] == [x];
    }
    assert body + ([] + []) == body;
    HeadParts(head, body, est, maxTokens);
    AboveLimit(head, front, [x], est, maxTokens);
    var budget := Budget(c, est, maxTokens);
    y := TruncatedItem(x, budget);
    ItemIsCut(x, budget);
    assert TrailingRun(body) == |body|;
    hide Cost, CutStart, HeadOf, BodyOf, TruncatedItem, IsHead, Fits, IsCutItem, TrailingRun;
  }

  lemma AboveLimit(head: seq<Item>, front: seq<Item>, tail: seq<Item>, est: Estimate, maxTokens: nat)
    requires !Fits(head, tail, est, maxTokens)
    ensures Cost(head + (front + tail), est) > maxTokens
  {
    CostConcat(head, front + tail, est);
    CostConcat(front, tail, est);
    hide Cost;
  }

  lemma TrailingRunIs(lead: seq<Item>, results: seq<Item>)
    requires AllResults(results) && (lead != [] ==> !lead[|lead| - 1].ToolResult?)
    ensures TrailingRun(lead + results) == |lead|
  {
    var body := lead + results;
    assert forall i | |lead| <= i < |body| :: body[i].ToolResult?;
    assert lead != [] ==> !body[|lead| - 1].ToolResult?;
  }

  /** The search ends inside the trailing results, and skipping them leaves nothing. */
  lemma NothingLeft(head: seq<Item>, lead: seq<Item>, results: seq<Item>, est: Estimate, maxTokens: nat)
    requires IsHead(head, lead + results) && AllResults(results) && TooDear(head, lead, results, est, maxTokens)
    ensures var body := lead + results;
      CutStart(body, est, Budget(head + body, est, maxTokens)) == |body|
  {
    var body := lead + results;
    var budget := Budget(head + body, est, maxTokens);
    var start := SuffixStart(body, est, budget, |body|);
    StaysBehind(head, lead, results, est, maxTokens, start);
    OnlyResults(lead, results, start);
    hide SuffixStart, Budget, RunLength, Fits, TooDear, IsHead;
  }

  lemma OnlyResults(lead: seq<Item>, results: seq<Item>, start: nat)
    requires AllResults(results) && |lead| <= start <= |lead| + |results|
    ensures RunLength((lead + results)[start..]) == |lead| + |results| - start
  {
    var run := results[start - |lead|..];
    assert (lead + results)[start..] == run && run + [] == run;
    RunLengthIs(run, []);
  }

  lemma StaysBehind(head: seq<Item>, lead: seq<Item>, results: seq<Item>, est: Estimate, maxTokens: nat, start: nat)
    requires IsHead(head, lead + results) && TooDear(head, lead, results, est, maxTokens)
    requires var body := lead + results;
      start == SuffixStart(body, est, Budget(head + body, est, maxTokens), |body|)
    ensures |lead| <= start
  {
    var body := lead + results;
    HeadParts(head, body, est, maxTokens);
    SuffixIsLongest(body, est, Budget(head + body, est, maxTokens), |body|);
    assert body[start..|body|] == body[start..];
    hide SuffixStart, Budget, IsHead, Cost;
    if start < |lead| {
      LastOfLead(lead, results);
      CostFrom(body, est, start, |lead| - 1);
    }
  }

  lemma LastOfLead(lead: seq<Item>, tail: seq<Item>)
    requires lead != []
    ensures (lead + tail)[|lead| - 1..] == [lead[|lead| - 1]] + tail
  {
  }

  /** Each of `n` results gets `per` tokens of what `left` there is: an equal share, rounded
      down, and never none. */
  ghost predicate IsShare(per: nat, left: nat, n: nat) {
    per >= 1 && (n * per <= left < n * (per + 1) || (per == 1 && left < n))
  }

  lemma PerResultIs(budget: nat, ownerCost: nat, n: nat)
    requires n > 0
    ensures IsShare(PerResult(budget, ownerCost, n), if ownerCost > budget then 0 else budget - ownerCost, n)
  {
    var left := if ownerCost > budget then 0 else budget - ownerCost;
    var each := left / n;
    assert n * each <= left < n * (each + 1);
  }

  ghost predicate AreCutItems(c: seq<Item>, d: seq<Item>, tokens: nat) {
    |d| == |c| && forall i | 0 <= i < |c| :: IsCutItem(c[i], d[i], tokens)
  }

  lemma {:induction false} ItemsAreCut(c: seq<Item>, tokens: nat)
    ensures AreCutItems(c, TruncatedAll(c, tokens), tokens)
  {
    hide TruncatedItem, IsCutItem;
    if c != [] {
      ItemIsCut(c[0], tokens);
      ItemsAreCut(c[1..], tokens);
      var d := TruncatedAll(c, tokens);
      forall i | 1 <= i < |c| ensures IsCutItem(c[i], d[i], tokens) {
        assert IsCutItem(c[1..][i - 1], d[1..][i - 1], tokens);
      }
    }
  }

  /** `owner` is the assistant right in front of trailing results whose calls they answer, or
      nothing when the item there makes no calls. */
  ghost predicate IsOwner(front: seq<Item>, owner: seq<Item>) {
    if owner == [] then front != [] ==> !front[|front| - 1].ToolResult? && Calls(front[|front| - 1]) == []
    else |owner| == 1 && Calls(owner[0]) != []
  }

  /** Trailing results that do not fit together with the item in front of them: the head, their
      owner untouched, and every result cut to an equal share of what is left. */
  lemma ResultsCut(head: seq<Item>, front: seq<Item>, owner: seq<Item>, results: seq<Item>, est: Estimate, maxTokens: nat)
    returns (cut: seq<Item>, per: nat)
    requires var lead := front + owner;
      && IsHead(head, lead + results) && TooDear(head, lead, results, est, maxTokens)
      && Cost(head + (lead + results), est) > maxTokens
    requires IsOwner(front, owner) && results != [] && AllResults(results)
    ensures Fitted(head + ((front + owner) + results), est, maxTokens) == head + (owner + cut)
    ensures AreCutItems(results, cut, per)
    ensures var taken := Cost(head, est) + Cost(owner, est);
      IsShare(per, if taken > maxTokens then 0 else maxTokens - taken, |results|)
  {
    var lead := front + owner;
    var body := lead + results;
    var budget := Budget(head + body, est, maxTokens);
    NothingLeft(head, lead, results, est, maxTokens);
    HeadParts(head, body, est, maxTokens);
    per := PerResult(budget, Cost(owner, est), |results|);
    PerResultIs(budget, Cost(owner, est), |results|);
    cut := TruncatedAll(results, per);
    ItemsAreCut(results, per);
    OwnerIs(front, owner, results);
    assert Budget(head + body, est, maxTokens) == SaturatingSub(maxTokens, Cost(head, est));
    hide Cost, CutStart, Budget, HeadOf, BodyOf, TruncatedAll, PerResult, IsHead, Fits, TooDear, TrailingRun, OwnerOf, IsShare, Fitted;
    FittedParts(head + body, est, maxTokens);
  }

  lemma OwnerIs(front: seq<Item>, owner: seq<Item>, results: seq<Item>)
    requires IsOwner(front, owner) && AllResults(results)
    ensures var lead := front + owner;
      && TrailingRun(lead + results) == |lead| && OwnerOf(lead + results) == owner
      && (lead + results)[|lead|..] == results
  {
    var lead := front + owner;
    TrailingRunIs(lead, results);
    hide TrailingRun;
    var body := lead + results;
    assert lead != [] ==> body[|lead| - 1] == lead[|lead| - 1];
    assert owner != [] ==> body[|lead| - 1..|lead|] == owner;
  }
}
