/** `fit_conversation_to_budget`: drop the oldest whole turns, or truncate the last one. The
    per-item token estimate is an arbitrary function. */
module BudgetFit {
  import opened Wrappers
  import opened Utf8
  import opened Conversation
  import opened Truncation

  type Estimate = Item -> nat

  function Cost(c: seq<Item>, est: Estimate): nat {
    if c == [] then 0 else est(c[0]) + Cost(c[1..], est)
  }

  // ------------------------------------------------------------ specification

  /** The leading system item, if there is one. */
  function HeadOf(c: seq<Item>): seq<Item> {
    if c != [] && c[0].System? then c[..1] else []
  }

  function BodyOf(c: seq<Item>): seq<Item> {
    c[|HeadOf(c)|..]
  }

  function Budget(c: seq<Item>, est: Estimate, maxTokens: nat): nat {
    SaturatingSub(maxTokens, Cost(HeadOf(c), est))
  }

  /** Start of the affordable suffix, found from the back. */
  function SuffixStart(body: seq<Item>, est: Estimate, remaining: nat, i: nat): (start: nat)
    requires i <= |body|
    ensures start <= i
  {
    if i == 0 || est(body[i - 1]) > remaining then i
    else SuffixStart(body, est, remaining - est(body[i - 1]), i - 1)
  }

  /** The start moved past the results it would orphan. */
  function CutStart(body: seq<Item>, est: Estimate, budget: nat): (start: nat)
    ensures start <= |body| && (start < |body| ==> !body[start].ToolResult?)
  {
    var start := SuffixStart(body, est, budget, |body|);
    start + RunLength(body[start..])
  }

  /** Start of the run of results at the very end. */
  function TrailingRun(body: seq<Item>): (start: nat)
    ensures start <= |body| && (forall i | start <= i < |body| :: body[i].ToolResult?)
    ensures start > 0 ==> !body[start - 1].ToolResult?
  {
    if body != [] && body[|body| - 1].ToolResult? then TrailingRun(body[..|body| - 1]) else |body|
  }

  function TruncatedAll(c: seq<Item>, maxTokens: nat): (r: seq<Item>)
    ensures |r| == |c|
  {
    if c == [] then [] else [TruncatedItem(c[0], maxTokens)] + TruncatedAll(c[1..], maxTokens)
  }

  /** The assistant that owns the trailing results, if it is right in front of them. */
  function OwnerOf(body: seq<Item>): (owner: seq<Item>) {
    var start := TrailingRun(body);
    if start > 0 && Calls(body[start - 1]) != [] then body[start - 1..start] else []
  }

  /** Tokens for each of `n` results. */
  function PerResult(budget: nat, ownerCost: nat, n: nat): nat
    requires n > 0
  {
    var each := SaturatingSub(budget, ownerCost) / n;
    if each < 1 then 1 else each
  }

  function RecoveredTail(body: seq<Item>, est: Estimate, budget: nat): seq<Item> {
    var start := TrailingRun(body);
    if start == |body| then
      if body == [] then [] else [TruncatedItem(body[|body| - 1], budget)]
    else
      OwnerOf(body)
      + TruncatedAll(body[start..], PerResult(budget, Cost(OwnerOf(body), est), |body| - start))
  }

  function Fitted(c: seq<Item>, est: Estimate, maxTokens: nat): seq<Item> {
    var body := BodyOf(c);
    var budget := Budget(c, est, maxTokens);
    var start := CutStart(body, est, budget);
    if Cost(c, est) <= maxTokens then c
    else HeadOf(c) + (if start < |body| then body[start..] else RecoveredTail(body, est, budget))
  }

  // ------------------------------------------------------------ the loops

  method FitConversationToBudget(conversation: seq<Item>, est: Estimate, maxTokens: nat) returns (r: seq<Item>)
    ensures r == Fitted(conversation, est, maxTokens)
  {
    hide Cost, RunLength, RecoveredTail, Calls;
    var total := TotalCost(conversation, est);
    if total <= maxTokens {
      return conversation;
    }
    var head: seq<Item> := [];
    var body := conversation;
    if body != [] && body[0].System? {
      head := body[..1];
      body := body[1..];
    }
    var headCost := TotalCost(head, est);
    var budget := SaturatingSub(maxTokens, headCost);
    var start := FindSuffix(body, est, budget);
    ghost var s := start;
    while start < |body| && body[start].ToolResult?
      invariant s <= start <= |body|
      invariant start + RunLength(body[start..]) == s + RunLength(body[s..])
    {
      RunLengthStep(body, start);
      start := start + 1;
    }
    RunLengthStep(body, start);
    if start < |body| {
      r := head + body[start..];
    } else {
      var tail := RecoverTruncatedTailUnit(body, est, budget);
      r := head + tail;
    }
  }

  lemma RunLengthStep(c: seq<Item>, i: nat)
    requires i <= |c|
    ensures if i < |c| && c[i].ToolResult? then RunLength(c[i..]) == 1 + RunLength(c[i + 1..]) else RunLength(c[i..]) == 0
  {
    if i < |c| {
      assert c[i..][0] == c[i] && c[i..][1..] == c[i + 1..];
    }
  }

  method TotalCost(c: seq<Item>, est: Estimate) returns (total: nat)
    ensures total == Cost(c, est)
  {
    total := 0;
    var i := 0;
    assert c[0..] == c;
    while i < |c|
      invariant i <= |c| && total + Cost(c[i..], est) == Cost(c, est)
    {
      assert c[i..][0] == c[i] && c[i..][1..] == c[i + 1..];
      total := total + est(c[i]);
      i := i + 1;
    }
    assert c[i..] == [];
  }

  method FindSuffix(body: seq<Item>, est: Estimate, budget: nat) returns (start: nat)
    ensures start == SuffixStart(body, est, budget, |body|)
  {
    var remaining := budget;
    start := |body|;
    var i := |body|;
    while i > 0
      invariant i <= |body| && start == i
      invariant SuffixStart(body, est, remaining, i) == SuffixStart(body, est, budget, |body|)
    {
      var cost := est(body[i - 1]);
      if cost > remaining {
        break;
      }
      remaining := remaining - cost;
      i := i - 1;
      start := i;
    }
  }

  /** `recover_truncated_tail_unit`: pops the trailing results and their owner. */
  method RecoverTruncatedTailUnit(body: seq<Item>, est: Estimate, budget: nat) returns (tail: seq<Item>)
    ensures tail == RecoveredTail(body, est, budget)
  {
    hide TruncatedItem, TruncatedAll, Cost, TrailingRun, PerResult;
    var rest, results := PopResults(body);
    if results == [] {
      if rest == [] {
        return [];
      }
      return [TruncatedItem(rest[|rest| - 1], budget)];
    }
    var owner: seq<Item> := [];
    if rest != [] && Calls(rest[|rest| - 1]) != [] {
      owner := [rest[|rest| - 1]];
    }
    assert rest != [] ==> body[|rest| - 1..|rest|] == [rest[|rest| - 1]];
    assert owner == OwnerOf(body);
    var ownerCost := TotalCost(owner, est);
    var truncated := TruncateEach(results, PerResult(budget, ownerCost, |results|));
    tail := owner + truncated;
  }

  method PopResults(body: seq<Item>) returns (rest: seq<Item>, results: seq<Item>)
    ensures rest == body[..TrailingRun(body)] && results == body[TrailingRun(body)..]
  {
    rest, results := body, [];
    while rest != [] && rest[|rest| - 1].ToolResult?
      invariant |rest| <= |body| && rest == body[..|rest|] && results == body[|rest|..]
      invariant TrailingRun(rest) == TrailingRun(body)
    {
      results := [rest[|rest| - 1]] + results;
      rest := rest[..|rest| - 1];
    }
  }

  method TruncateEach(c: seq<Item>, maxTokens: nat) returns (r: seq<Item>)
    ensures r == TruncatedAll(c, maxTokens)
  {
    hide TruncatedItem;
    r := [];
    var i := 0;
    assert c[0..] == c;
    while i < |c|
      invariant i <= |c|
      invariant r + TruncatedAll(c[i..], maxTokens) == TruncatedAll(c, maxTokens)
    {
      assert c[i..][0] == c[i] && c[i..][1..] == c[i + 1..];
      r := r + [TruncatedItem(c[i], maxTokens)];
      i := i + 1;
    }
    assert c[i..] == [];
  }

  // ------------------------------------------------------------ costs

  lemma {:induction false} CostConcat(a: seq<Item>, b: seq<Item>, est: Estimate)
    ensures Cost(a + b, est) == Cost(a, est) + Cost(b, est)
  {
    if a == [] {
      assert a + b == b;
    } else {
      assert (a + b)[1..] == a[1..] + b;
      CostConcat(a[1..], b, est);
    }
  }

  lemma CostFrom(c: seq<Item>, est: Estimate, i: nat, j: nat)
    requires i <= j <= |c|
    ensures Cost(c[i..], est) == Cost(c[i..j], est) + Cost(c[j..], est)
  {
    assert c[i..] == c[i..j] + c[j..];
    CostConcat(c[i..j], c[j..], est);
  }

  /** The greedy search from the back finds the longest affordable suffix. */
  lemma {:induction false} SuffixIsLongest(body: seq<Item>, est: Estimate, remaining: nat, i: nat)
    requires i <= |body|
    ensures var start := SuffixStart(body, est, remaining, i);
      && Cost(body[start..i], est) <= remaining
      && forall k | 0 <= k < start :: Cost(body[k..i], est) > remaining
  {
    hide Cost;
    if i == 0 || est(body[i - 1]) > remaining {
      CostOfNothing(body, est, i);
      if i > 0 {
        forall k | 0 <= k < i ensures Cost(body[k..i], est) > remaining {
          CostLast(body, est, k, i);
        }
      }
    } else {
      SuffixIsLongest(body, est, remaining - est(body[i - 1]), i - 1);
      var start := SuffixStart(body, est, remaining, i);
      CostLast(body, est, start, i);
      forall k | 0 <= k < start ensures Cost(body[k..i], est) > remaining {
        CostLast(body, est, k, i);
      }
    }
  }

  lemma CostOfNothing(body: seq<Item>, est: Estimate, i: nat)
    requires i <= |body|
    ensures Cost(body[i..i], est) == 0
  {
  }

  lemma CostLast(body: seq<Item>, est: Estimate, k: nat, i: nat)
    requires k < i <= |body|
    ensures Cost(body[k..i], est) == Cost(body[k..i - 1], est) + est(body[i - 1])
  {
    assert body[k..i] == body[k..i - 1] + [body[i - 1]];
    CostConcat(body[k..i - 1], [body[i - 1]], est);
    assert [body[i - 1]][1..] == [];
  }

  /** The suffix branch: the system head and the longest affordable suffix of the body, minus
      its leading results. It never starts its body with a result, keeps the last item, and
      costs at most the budget, or the head if that alone is dearer. */
  lemma SuffixBranch(c: seq<Item>, est: Estimate, maxTokens: nat, longest: nat)
    requires Cost(c, est) > maxTokens
    requires var body := BodyOf(c); var budget := Budget(c, est, maxTokens);
      && longest <= |body| && Cost(body[longest..], est) <= budget
      && (forall k | 0 <= k < longest :: Cost(body[k..], est) > budget)
    ensures var body := BodyOf(c); var start := longest + RunLength(body[longest..]);
      start < |body| ==>
        && Fitted(c, est, maxTokens) == HeadOf(c) + body[start..]
        && !body[start].ToolResult?
        && Cost(Fitted(c, est, maxTokens), est)
           <= if Cost(HeadOf(c), est) > maxTokens then Cost(HeadOf(c), est) else maxTokens
  {
    var body := BodyOf(c);
    var budget := Budget(c, est, maxTokens);
    hide Cost, RunLength, RecoveredTail;
    LongestIsUnique(body, est, budget, longest);
    var start := CutStart(body, est, budget);
    assert start == longest + RunLength(body[longest..]);
    CostFrom(body, est, longest, start);
    CostConcat(HeadOf(c), body[start..], est);
    hide CutStart, SuffixStart, HeadOf, BodyOf;
  }

  lemma LongestIsUnique(body: seq<Item>, est: Estimate, budget: nat, longest: nat)
    requires longest <= |body| && Cost(body[longest..], est) <= budget
    requires forall k | 0 <= k < longest :: Cost(body[k..], est) > budget
    ensures SuffixStart(body, est, budget, |body|) == longest
  {
    hide Cost;
    var start := SuffixStart(body, est, budget, |body|);
    SuffixIsLongest(body, est, budget, |body|);
    assert forall k | 0 <= k <= |body| :: body[k..|body|] == body[k..];
  }

  // ------------------------------------------------------------ pairing survives

  /** The same item up to its text. */
  ghost predicate SameShape(x: Item, y: Item) {
    && (x.ToolResult? <==> y.ToolResult?)
    && (x.ToolResult? ==> x.callId == y.callId && x.images == y.images)
    && Calls(x) == Calls(y)
  }

  ghost predicate SameShapes(c: seq<Item>, d: seq<Item>) {
    |c| == |d| && forall i | 0 <= i < |c| :: SameShape(c[i], d[i])
  }

  lemma TruncatedShape(x: Item, maxTokens: nat)
    ensures SameShape(x, TruncatedItem(x, maxTokens))
  {
    hide TruncatedText, TruncatedParts;
  }

  lemma {:induction false} TruncatedShapes(c: seq<Item>, maxTokens: nat)
    ensures SameShapes(c, TruncatedAll(c, maxTokens))
  {
    hide TruncatedItem, SameShape;
    if c != [] {
      TruncatedShape(c[0], maxTokens);
      TruncatedShapes(c[1..], maxTokens);
    }
  }

  lemma {:induction false} ShapePaired(c: seq<Item>, d: seq<Item>, ids: set<string>)
    requires SameShapes(c, d)
    ensures PairedFrom(c, ids) <==> PairedFrom(d, ids)
  {
    if c != [] {
      assert SameShape(c[0], d[0]);
      assert SameShapes(c[1..], d[1..]) by {
        forall i | 0 <= i < |c| - 1 ensures SameShape(c[1..][i], d[1..][i]) {
          assert SameShape(c[i + 1], d[i + 1]);
        }
      }
      ShapePaired(c[1..], d[1..], if c[0].ToolResult? then ids else CallIds(Calls(c[0])));
    }
  }

  lemma {:induction false} ShapeRun(c: seq<Item>, d: seq<Item>)
    requires SameShapes(c, d)
    ensures RunLength(c) == RunLength(d)
  {
    if c != [] {
      assert SameShape(c[0], d[0]);
      assert SameShapes(c[1..], d[1..]) by {
        forall i | 0 <= i < |c| - 1 ensures SameShape(c[1..][i], d[1..][i]) {
          assert SameShape(c[i + 1], d[i + 1]);
        }
      }
      ShapeRun(c[1..], d[1..]);
    }
  }

  lemma {:induction false} ShapeCount(c: seq<Item>, d: seq<Item>, id: string)
    requires SameShapes(c, d) && AllResults(c) && AllResults(d)
    ensures CountId(c, id) == CountId(d, id)
  {
    if c != [] {
      assert SameShape(c[0], d[0]);
      assert SameShapes(c[1..], d[1..]) by {
        forall i | 0 <= i < |c| - 1 ensures SameShape(c[1..][i], d[1..][i]) {
          assert SameShape(c[i + 1], d[i + 1]);
        }
      }
      ShapeCount(c[1..], d[1..], id);
    }
  }

  lemma ShapeSlice(c: seq<Item>, d: seq<Item>, i: nat, j: nat)
    requires SameShapes(c, d) && i <= j <= |c|
    ensures SameShapes(c[i..j], d[i..j]) && SameShapes(c[i..], d[i..])
  {
    forall k | 0 <= k < j - i ensures SameShape(c[i..j][k], d[i..j][k]) {
      assert SameShape(c[i + k], d[i + k]);
    }
    forall k | 0 <= k < |c| - i ensures SameShape(c[i..][k], d[i..][k]) {
      assert SameShape(c[i + k], d[i + k]);
    }
  }

  lemma ShapeAnswered(c: seq<Item>, d: seq<Item>)
    requires SameShapes(c, d)
    ensures AnsweredOnce(c) ==> AnsweredOnce(d)
  {
    if AnsweredOnce(c) {
      forall o | 0 <= o < |d| ensures AnsweredOnceAt(d, o) {
        assert AnsweredOnceAt(c, o) && SameShape(c[o], d[o]);
        ShapeSlice(c, d, o + 1, |c|);
        ShapeRun(c[o + 1..], d[o + 1..]);
        ShapeSlice(c, d, o + 1, o + 1 + RunLength(c[o + 1..]));
        hide RunLength, SameShapes;
        forall k | 0 <= k < |Calls(d[o])| ensures CountId(RunAt(d, o), Calls(d[o])[k].id) == 1 {
          ShapeCount(RunAt(c, o), RunAt(d, o), Calls(d[o])[k].id);
        }
      }
    }
  }

  /** A suffix that starts with something other than a result inherits the invariants. */
  lemma {:induction false} SuffixPaired(c: seq<Item>, k: nat, ids: set<string>)
    requires k <= |c| && PairedFrom(c, ids) && AtBlock(c[k..])
    ensures PairedFrom(c[k..], {})
  {
    if k == 0 {
      assert c[0..] == c;
    } else {
      assert c[k..] == c[1..][k - 1..];
      SuffixPaired(c[1..], k - 1, if c[0].ToolResult? then ids else CallIds(Calls(c[0])));
    }
  }

  lemma SuffixAnswered(c: seq<Item>, k: nat)
    requires k <= |c| && AnsweredOnce(c)
    ensures AnsweredOnce(c[k..])
  {
    forall o | 0 <= o < |c[k..]| ensures AnsweredOnceAt(c[k..], o) {
      RunAtDrop(c, k, o);
      assert AnsweredOnceAt(c, k + o);
    }
  }

  /** Both invariants, as the scan and the counts see them. */
  ghost predicate Sound(c: seq<Item>, complete: bool) {
    PairedFrom(c, {}) && (complete ==> AnsweredOnce(c))
  }

  lemma HeadSound(head: seq<Item>, unit: seq<Item>, complete: bool)
    requires head == [] || (|head| == 1 && head[0].System?)
    requires Sound(unit, complete) && AtBlock(unit)
    ensures Sound(head + unit, complete)
  {
    if head == [] {
      assert head + unit == unit;
    } else {
      assert head + unit == Block(head[0], [], unit);
      PairedBlock(head[0], [], unit, {});
      AnsweredOnceBlock(head[0], [], unit);
      hide PairedFrom, AnsweredOnce, Block;
    }
  }

  lemma SuffixSound(c: seq<Item>, k: nat, complete: bool)
    requires k <= |c| && Sound(c, complete) && AtBlock(c[k..])
    ensures Sound(c[k..], complete)
  {
    SuffixPaired(c, k, {});
    if complete {
      SuffixAnswered(c, k);
    }
  }

  /** In front of a paired trailing run stands the owner of its results. */
  lemma TrailingOwner(body: seq<Item>)
    requires Paired(body) && TrailingRun(body) < |body|
    ensures var start := TrailingRun(body);
      start > 0 && OwnerOf(body) == [body[start - 1]] && body[start - 1..] == OwnerOf(body) + body[start..]
  {
    hide TrailingRun, Declares, Calls;
    var start := TrailingRun(body);
    assert HasOwner(body, start);
    var o: nat :| o < start && Owns(body, o, start);
    assert !body[start - 1].ToolResult?;
    DeclarerCalls(body[o], body[start].callId);
    hide HasOwner, Paired;
    SplitBefore(body, start);
  }

  lemma SplitBefore(c: seq<Item>, i: nat)
    requires 0 < i <= |c|
    ensures c[i - 1..i] == [c[i - 1]] && c[i - 1..] == [c[i - 1]] + c[i..]
  {
  }

  lemma DeclarerCalls(x: Item, id: string)
    requires Declares(x, id)
    ensures Calls(x) != []
  {
  }

  lemma TailSound(body: seq<Item>, est: Estimate, budget: nat, complete: bool)
    requires Sound(body, complete) && body != []
    ensures var tail := RecoveredTail(body, est, budget); Sound(tail, complete) && AtBlock(tail)
  {
    hide TruncatedItem, Cost;
    var start := TrailingRun(body);
    var tail := RecoveredTail(body, est, budget);
    if start == |body| {
      var u := body[|body| - 1..];
      SuffixSound(body, |body| - 1, complete);
      TruncatedShape(body[|body| - 1], budget);
      assert SameShapes(u, tail);
      ShapePaired(u, tail, {});
      ShapeAnswered(u, tail);
    } else {
      PairedScan(body);
      TrailingOwner(body);
      var per := PerResult(budget, Cost(OwnerOf(body), est), |body| - start);
      var u := body[start - 1..];
      SuffixSound(body, start - 1, complete);
      TruncatedShapes(body[start..], per);
      OwnerShapes(OwnerOf(body), body[start..], TruncatedAll(body[start..], per));
      assert SameShape(u[0], tail[0]);
      hide RecoveredTail, TrailingRun, OwnerOf;
      ShapePaired(u, tail, {});
      ShapeAnswered(u, tail);
    }
  }

  lemma OwnerShapes(owner: seq<Item>, c: seq<Item>, d: seq<Item>)
    requires SameShapes(c, d)
    ensures SameShapes(owner + c, owner + d)
  {
    forall i | 0 <= i < |owner + c| ensures SameShape((owner + c)[i], (owner + d)[i]) {
      assert i >= |owner| ==> SameShape(c[i - |owner|], d[i - |owner|]);
    }
  }

  lemma FittedSound(c: seq<Item>, est: Estimate, maxTokens: nat, complete: bool)
    requires Sound(c, complete)
    ensures Sound(Fitted(c, est, maxTokens), complete)
  {
    if Cost(c, est) > maxTokens {
      var body := BodyOf(c);
      var budget := Budget(c, est, maxTokens);
      var start := CutStart(body, est, budget);
      BodySound(c, complete);
      hide Sound, RecoveredTail, Cost;
      if start < |body| {
        SuffixSound(body, start, complete);
        HeadSound(HeadOf(c), body[start..], complete);
      } else if body != [] {
        TailSound(body, est, budget, complete);
        HeadSound(HeadOf(c), RecoveredTail(body, est, budget), complete);
      } else {
        EmptyTail(est, budget);
        assert HeadOf(c) + body == c;
        assert HeadOf(c) + [] == HeadOf(c) + body;
      }
    }
  }

  lemma EmptyTail(est: Estimate, budget: nat)
    ensures RecoveredTail([], est, budget) == []
  {
  }

  lemma NoCallsThenBlock(c: seq<Item>)
    requires c != [] && Calls(c[0]) == [] && !c[0].ToolResult? && PairedFrom(c, {})
    ensures AtBlock(c[1..])
  {
    assert CallIds(Calls(c[0])) == {};
    assert PairedFrom(c[1..], {});
  }

  lemma BodySound(c: seq<Item>, complete: bool)
    requires Sound(c, complete)
    ensures Sound(BodyOf(c), complete)
    ensures HeadOf(c) + BodyOf(c) == c
  {
    if c != [] && c[0].System? {
      NoCallsThenBlock(c);
      SuffixSound(c, 1, complete);
    } else {
      assert c[0..] == c;
    }
  }

  /** Whatever the estimate and the budget: a conversation whose results all sit behind their
      owners keeps that property, in every branch. */
  lemma FitKeepsPairing(c: seq<Item>, est: Estimate, maxTokens: nat)
    requires Paired(c)
    ensures Paired(Fitted(c, est, maxTokens))
  {
    hide Fitted, Paired, AnsweredOnce;
    PairedScan(c);
    PairedScan(Fitted(c, est, maxTokens));
    FittedSound(c, est, maxTokens, false);
  }

  /** And a complete conversation stays complete: no kept call loses its result. */
  lemma FitKeepsComplete(c: seq<Item>, est: Estimate, maxTokens: nat)
    requires Complete(c)
    ensures Complete(Fitted(c, est, maxTokens))
  {
    hide Fitted, Paired, AnsweredOnce;
    PairedScan(c);
    PairedScan(Fitted(c, est, maxTokens));
    FittedSound(c, est, maxTokens, true);
  }

  // ------------------------------------------------------------ the truncated tail

  /** Total bytes of the texts of some results. */
  function ResultBytes(c: seq<Item>): nat
    requires AllResults(c)
  {
    if c == [] then 0 else Len(c[0].content) + ResultBytes(c[1..])
  }

  /** A result cut to its share of the budget: same id, same images. */
  function TruncatedResult(x: Item, maxTokens: nat): Item
    requires x.ToolResult?
  {
    ToolResult(x.callId, TruncatedText(x.content, ByteBound(maxTokens)), x.images)
  }

  lemma {:induction false} TruncatedResults(c: seq<Item>, maxTokens: nat)
    requires AllResults(c)
    ensures var r := TruncatedAll(c, maxTokens);
      && AllResults(r)
      && forall i | 0 <= i < |c| :: r[i] == TruncatedResult(c[i], maxTokens)
  {
    hide TruncatedText;
    if c != [] {
      TruncatedResults(c[1..], maxTokens);
      var r := TruncatedAll(c, maxTokens);
      assert forall i | 1 <= i < |c| :: r[i] == r[1..][i - 1] && c[i] == c[1..][i - 1];
    }
  }

  lemma {:induction false} TruncatedBytes(c: seq<Item>, maxTokens: nat)
    requires AllResults(c) && forall i | 0 <= i < |c| :: Len(c[i].content) < 100_000_000
    ensures AllResults(TruncatedAll(c, maxTokens))
    ensures ResultBytes(TruncatedAll(c, maxTokens))
         <= |c| * (if 4 * maxTokens < MARKER_RESERVE then MARKER_RESERVE else 4 * maxTokens)
  {
    hide TruncatedText, Encode;
    TruncatedResults(c, maxTokens);
    if c != [] {
      TruncatedBytes(c[1..], maxTokens);
      TruncationBound(c[0].content, ByteBound(maxTokens));
      var r := TruncatedAll(c, maxTokens);
      assert r[1..] == TruncatedAll(c[1..], maxTokens);
    }
  }

  lemma EachShare(budget: nat, ownerCost: nat, n: nat)
    requires n > 0
    ensures var bytes := 4 * PerResult(budget, ownerCost, n);
      n * (if bytes < MARKER_RESERVE then MARKER_RESERVE else bytes)
      <= if 4 * budget < MARKER_RESERVE * n then MARKER_RESERVE * n else 4 * budget
  {
    var left := SaturatingSub(budget, ownerCost);
    var each := left / n;
    assert n * each <= left;
    assert n * (4 * each) == 4 * (n * each);
  }

  /** Token share of each trailing result. */
  function Share(body: seq<Item>, est: Estimate, budget: nat): nat
    requires TrailingRun(body) < |body|
  {
    PerResult(budget, Cost(OwnerOf(body), est), |body| - TrailingRun(body))
  }

  /** The truncated-tail branch: the owner untouched, then the trailing results with their ids,
      order and images, all cut to the same share. */
  lemma {:induction false} TailBranch(body: seq<Item>, est: Estimate, budget: nat)
    requires TrailingRun(body) < |body|
    ensures var start := TrailingRun(body);
      var results := RecoveredTail(body, est, budget)[|OwnerOf(body)|..];
      && |results| == |body| - start && AllResults(results)
      && RecoveredTail(body, est, budget) == OwnerOf(body) + results
      && forall i | 0 <= i < |results| ::
           results[i] == TruncatedResult(body[start + i], Share(body, est, budget))
  {
    hide TruncatedText, TruncatedItem, Encode, TruncatedAll, Cost, OwnerOf, TruncatedResult, PerResult;
    var c := body[TrailingRun(body)..];
    assert forall i | 0 <= i < |c| :: c[i] == body[TrailingRun(body) + i];
    hide TrailingRun;
    AfterOwner(OwnerOf(body), TruncatedAll(c, Share(body, est, budget)));
    TruncatedResults(c, Share(body, est, budget));
  }

  lemma AfterOwner(owner: seq<Item>, results: seq<Item>)
    ensures (owner + results)[|owner|..] == results
  {
  }

  /** Together those results take at most max(4 * budget, 64 * n) bytes. */
  lemma TailBytes(body: seq<Item>, est: Estimate, budget: nat)
    requires TrailingRun(body) < |body|
    requires forall i | TrailingRun(body) <= i < |body| :: Len(body[i].content) < 100_000_000
    ensures var results := RecoveredTail(body, est, budget)[|OwnerOf(body)|..];
      && AllResults(results)
      && (ResultBytes(results) <= 4 * budget || ResultBytes(results) <= MARKER_RESERVE * |results|)
  {
    hide TruncatedText, TruncatedItem, Encode, Len, RecoveredTail, TruncatedAll, OwnerOf, ResultBytes, PerResult, Cost;
    var c := body[TrailingRun(body)..];
    assert forall i | 0 <= i < |c| :: c[i] == body[TrailingRun(body) + i];
    TailIs(body, est, budget);
    hide TrailingRun;
    ShareBytes(c, budget, Cost(OwnerOf(body), est));
  }

  lemma TailIs(body: seq<Item>, est: Estimate, budget: nat)
    requires TrailingRun(body) < |body|
    ensures RecoveredTail(body, est, budget)[|OwnerOf(body)|..]
         == TruncatedAll(body[TrailingRun(body)..], Share(body, est, budget))
  {
    hide TruncatedAll, TrailingRun, OwnerOf, Cost, PerResult;
    AfterOwner(OwnerOf(body), TruncatedAll(body[TrailingRun(body)..], Share(body, est, budget)));
  }

  lemma ShareBytes(c: seq<Item>, budget: nat, ownerCost: nat)
    requires c != [] && AllResults(c) && forall i | 0 <= i < |c| :: Len(c[i].content) < 100_000_000
    ensures var r := TruncatedAll(c, PerResult(budget, ownerCost, |c|));
      AllResults(r) && |r| == |c| && (ResultBytes(r) <= 4 * budget || ResultBytes(r) <= MARKER_RESERVE * |r|)
  {
    hide TruncatedAll, ResultBytes, PerResult, Encode;
    EachShare(budget, ownerCost, |c|);
    TruncatedBytes(c, PerResult(budget, ownerCost, |c|));
  }
}
