/** The repaired history and the figures of the report, read off the positions of the input. */
module HistoryReport {
  import opened Wrappers
  import opened Conversation
  import opened HistoryRepair
  import opened HistoryPassLaws

  // ------------------------------------------------------------ one run, position by position

  /** From position `i` on, the results that are the last ones for their ids. */
  ghost function LastFrom(run: seq<Item>, i: nat): seq<Item>
    requires AllResults(run) && i <= |run|
    decreases |run| - i
  {
    if i == |run| then [] else (if LastForId(run, i) then [run[i]] else []) + LastFrom(run, i + 1)
  }

  /** From position `i` on, the last results for the ids that are called. */
  ghost function LastAnswersFrom(calls: seq<ToolCall>, run: seq<Item>, i: nat): seq<Item>
    requires AllResults(run) && i <= |run|
    decreases |run| - i
  {
    if i == |run| then []
    else (if LastForId(run, i) && run[i].callId in CallIds(calls) then [run[i]] else [])
         + LastAnswersFrom(calls, run, i + 1)
  }

  /** A text saying that the tool was not executed, for every call from `k` on without a result. */
  ghost function HaltedFrom(calls: seq<ToolCall>, run: seq<Item>, k: nat): seq<Item>
    requires AllResults(run) && k <= |calls|
    decreases |calls| - k
  {
    if k == |calls| then []
    else (if HasId(run, calls[k].id) then [] else [ToolResult(calls[k].id, HaltedText(calls[k].name), [])])
         + HaltedFrom(calls, run, k + 1)
  }

  /** The text of a synthetic answer names the tool. */
  lemma HaltedTextNames(a: string, b: string)
    ensures HaltedText(a) == HaltedText(b) ==> a == b
  {
    hide HALTED, NOT_EXECUTED;
    var before, after := HALTED, NOT_EXECUTED;
    assert HaltedText(a)[|before|..|before| + |a|] == a && |HaltedText(a)| == |before| + |a| + |after|;
    assert HaltedText(b)[|before|..|before| + |b|] == b && |HaltedText(b)| == |before| + |b| + |after|;
  }

  lemma LastOrBack(run: seq<Item>, i: nat)
    requires AllResults(run) && i < |run|
    ensures run[i..][0] == run[i] && run[i..][1..] == run[i + 1..]
    ensures LastForId(run, i) <==> !HasId(run[i + 1..], run[i].callId)
  {
    var t := run[i + 1..];
    assert forall k | i < k < |run| :: run[k] == t[k - i - 1];
  }

  /** Deduplication of a run keeps, in place, the last result of every id. */
  lemma {:induction false} KeepLastIs(run: seq<Item>, i: nat)
    requires AllResults(run) && i <= |run|
    ensures KeepLast(run[i..]) == LastFrom(run, i)
    decreases |run| - i
  {
    if i < |run| {
      LastOrBack(run, i);
      KeepLastIs(run, i + 1);
      hide LastForId, HasId;
    }
  }

  lemma {:induction false} AnswersLastIs(calls: seq<ToolCall>, run: seq<Item>, i: nat)
    requires AllResults(run) && i <= |run|
    ensures Answers(KeepLast(run[i..]), CallIds(calls)) == LastAnswersFrom(calls, run, i)
    decreases |run| - i
  {
    if i < |run| {
      LastOrBack(run, i);
      AnswersLastIs(calls, run, i + 1);
      var last := KeepLast(run[i + 1..]);
      assert ([run[i]] + last)[1..] == last;
      hide LastForId, HasId, CallIds;
    }
  }

  lemma {:induction false} SynthesizeIs(calls: seq<ToolCall>, run: seq<Item>, kept: seq<Item>, k: nat)
    requires AllResults(run) && AllResults(kept) && k <= |calls|
    requires forall j | 0 <= j < |calls| :: HasId(kept, calls[j].id) <==> HasId(run, calls[j].id)
    ensures Synthesize(calls[k..], kept) == HaltedFrom(calls, run, k)
    decreases |calls| - k
  {
    if k < |calls| {
      assert calls[k..][1..] == calls[k + 1..];
      SynthesizeIs(calls, run, kept, k + 1);
      hide HasId, HaltedText;
    }
  }

  lemma KeptHas(calls: seq<ToolCall>, run: seq<Item>, k: nat)
    requires AllResults(run) && k < |calls|
    ensures HasId(Answers(KeepLast(run), CallIds(calls)), calls[k].id) <==> HasId(run, calls[k].id)
  {
    var last := KeepLast(run);
    CountHas(Answers(last, CallIds(calls)), calls[k].id);
    CountAnswers(last, CallIds(calls), calls[k].id);
    CountKeepLast(run, calls[k].id);
  }

  /** A repaired run: the last answers in their order, then the unanswered calls in theirs. */
  lemma RepairedRunIs(calls: seq<ToolCall>, run: seq<Item>)
    requires AllResults(run)
    ensures RepairedRun(calls, run) == LastAnswersFrom(calls, run, 0) + HaltedFrom(calls, run, 0)
  {
    AnswersLastIs(calls, run, 0);
    assert run[0..] == run && calls[0..] == calls;
    forall k | 0 <= k < |calls|
      ensures HasId(Answers(KeepLast(run), CallIds(calls)), calls[k].id) <==> HasId(run, calls[k].id)
    {
      KeptHas(calls, run, k);
    }
    hide Answers, KeepLast, HasId, CallIds, Synthesize, LastAnswersFrom, HaltedFrom;
    SynthesizeIs(calls, run, Answers(KeepLast(run), CallIds(calls)), 0);
  }

  // ------------------------------------------------------------ the whole history

  /** Every item that is no result, followed by its own last answers and by a synthetic
      answer for each of its other calls. */
  ghost function OwnersWithAnswers(c: seq<Item>): seq<Item> {
    if c == [] then []
    else if c[0].ToolResult? then OwnersWithAnswers(c[1..])
    else [c[0]] + LastAnswersFrom(Calls(c[0]), RunOf(c), 0) + HaltedFrom(Calls(c[0]), RunOf(c), 0)
         + OwnersWithAnswers(c[1..])
  }

  lemma {:induction false} SkipResults(run: seq<Item>, rest: seq<Item>)
    requires AllResults(run)
    ensures OwnersWithAnswers(run + rest) == OwnersWithAnswers(rest)
  {
    if run == [] {
      assert run + rest == rest;
    } else {
      assert (run + rest)[1..] == run[1..] + rest;
      SkipResults(run[1..], rest);
    }
  }

  lemma {:induction false} RepairBlocksIs(c: seq<Item>)
    requires AtBlock(c)
    ensures RepairBlocks(c) == OwnersWithAnswers(c)
    decreases |c|
  {
    if c != [] {
      SplitsIntoBlock(c);
      RepairBlocksIs(RestOf(c));
      hide RestOf, RunOf, OwnersWithAnswers, Block, RepairedRun;
      OwnerBlock(c[0], RunOf(c), RestOf(c));
    }
  }

  lemma OwnerBlock(x: Item, run: seq<Item>, rest: seq<Item>)
    requires !x.ToolResult? && AllResults(run) && AtBlock(rest)
    ensures OwnersWithAnswers(Block(x, run, rest)) == Block(x, RepairedRun(Calls(x), run), OwnersWithAnswers(rest))
  {
    BlockParts(x, run, rest);
    assert Block(x, run, rest)[1..] == run + rest;
    RepairedRunIs(Calls(x), run);
    SkipResults(run, rest);
    hide RepairedRun, LastAnswersFrom, HaltedFrom, RunOf, Calls, Block;
    Regroup(x, LastAnswersFrom(Calls(x), run, 0), HaltedFrom(Calls(x), run, 0), OwnersWithAnswers(rest));
  }

  lemma Regroup(x: Item, a: seq<Item>, b: seq<Item>, rest: seq<Item>)
    ensures Block(x, a + b, rest) == [x] + a + b + rest
  {
  }

  /** The whole repair in terms of the input alone. */
  lemma RepairedIs(c: seq<Item>)
    ensures Repaired(c) == OwnersWithAnswers(c)
  {
    var n := RunLength(c);
    assert c == c[..n] + c[n..];
    hide OwnersWithAnswers, RepairBlocks, RunLength;
    RepairBlocksIs(c[n..]);
    SkipResults(c[..n], c[n..]);
  }

  // ------------------------------------------------------------ the figures of the report

  /** How many results from position `i` on have an id that comes back later in the run. */
  ghost function RepeatsFrom(run: seq<Item>, i: nat): nat
    requires AllResults(run) && i <= |run|
    decreases |run| - i
  {
    if i == |run| then 0 else (if LastForId(run, i) then 0 else 1) + RepeatsFrom(run, i + 1)
  }

  /** How many calls from `k` on have no result in the run. */
  ghost function UnansweredFrom(calls: seq<ToolCall>, run: seq<Item>, k: nat): nat
    requires AllResults(run) && k <= |calls|
    decreases |calls| - k
  {
    if k == |calls| then 0 else (if HasId(run, calls[k].id) then 0 else 1) + UnansweredFrom(calls, run, k + 1)
  }

  datatype Figure = Repeats | Dangling

  /** What one item and the run behind it add to a figure. */
  ghost function Share(f: Figure, x: Item, run: seq<Item>): nat
    requires AllResults(run)
  {
    match f
    case Repeats => if Calls(x) == [] then 0 else RepeatsFrom(run, 0)
    case Dangling => UnansweredFrom(Calls(x), run, 0)
  }

  /** The sum over all items. */
  ghost function Total(f: Figure, c: seq<Item>): nat {
    if c == [] then 0 else Share(f, c[0], RunOf(c)) + Total(f, c[1..])
  }

  lemma {:induction false} RepeatsLost(run: seq<Item>, i: nat)
    requires AllResults(run) && i <= |run|
    ensures |LastFrom(run, i)| + RepeatsFrom(run, i) == |run| - i
    decreases |run| - i
  {
    if i < |run| {
      RepeatsLost(run, i + 1);
    }
  }

  lemma {:induction false} HaltedCount(calls: seq<ToolCall>, run: seq<Item>, k: nat)
    requires AllResults(run) && k <= |calls|
    ensures |HaltedFrom(calls, run, k)| == UnansweredFrom(calls, run, k)
    decreases |calls| - k
  {
    if k < |calls| {
      hide HasId, HaltedText;
      HaltedCount(calls, run, k + 1);
    }
  }

  lemma {:induction false} TotalSkip(f: Figure, run: seq<Item>, rest: seq<Item>)
    requires AllResults(run)
    ensures Total(f, run + rest) == Total(f, rest)
  {
    if run == [] {
      assert run + rest == rest;
    } else {
      assert (run + rest)[1..] == run[1..] + rest;
      assert Share(f, run[0], RunOf(run + rest)) == 0;
      hide Share, RunOf;
      TotalSkip(f, run[1..], rest);
    }
  }

  lemma TotalPlain(f: Figure, x: Item, rest: seq<Item>)
    requires Calls(x) == []
    ensures Total(f, [x] + rest) == Total(f, rest)
  {
    assert ([x] + rest)[1..] == rest;
    assert Share(f, x, RunOf([x] + rest)) == 0;
  }

  lemma TotalBlock(f: Figure, x: Item, run: seq<Item>, rest: seq<Item>)
    requires AllResults(run) && AtBlock(rest)
    ensures Total(f, Block(x, run, rest)) == Share(f, x, run) + Total(f, rest)
  {
    var c := Block(x, run, rest);
    assert c[1..] == run + rest;
    BlockParts(x, run, rest);
    TotalSkip(f, run, rest);
    hide Share, RunOf, Block;
  }

  lemma DedupGap(x: Item, run: seq<Item>, rest: seq<Item>)
    requires AllResults(run) && AtBlock(rest) && Calls(x) != []
    ensures |Block(x, run, rest)| - |Dedup(Block(x, run, rest))| == RepeatsFrom(run, 0) + |rest| - |Dedup(rest)|
  {
    KeepLastIs(run, 0);
    RepeatsLost(run, 0);
    assert run[0..] == run;
    hide Dedup, KeepLast, LastFrom, RepeatsFrom, Calls;
    DedupCallBlock(x, run, rest);
  }

  lemma {:induction false} DedupLoses(c: seq<Item>)
    ensures |c| - |Dedup(c)| == Total(Repeats, c)
    decreases |c|
  {
    hide Dedup, Block, RunOf, RestOf, Total, RepeatsFrom, Calls, AtBlock, RunLength;
    if c == [] {
      NothingLost();
    } else if Calls(c[0]) == [] {
      assert c == [c[0]] + c[1..];
      DedupLoses(c[1..]);
      TotalPlain(Repeats, c[0], c[1..]);
      DedupPlain(c[0], c[1..]);
    } else {
      SplitsIntoBlock(c);
      DedupLoses(RestOf(c));
      TotalBlock(Repeats, c[0], RunOf(c), RestOf(c));
      DedupGap(c[0], RunOf(c), RestOf(c));
    }
  }

  lemma NothingLost()
    ensures Dedup([]) == [] && RepairBlocks([]) == [] && StripFrom(Dedup([]), {}) == []
    ensures forall f :: Total(f, []) == 0
  {
  }

  lemma RunGains(calls: seq<ToolCall>, run: seq<Item>)
    requires AllResults(run)
    ensures |RepairedRun(calls, run)| == |Answers(KeepLast(run), CallIds(calls))| + UnansweredFrom(calls, run, 0)
  {
    RepairedRunIs(calls, run);
    AnswersLastIs(calls, run, 0);
    HaltedCount(calls, run, 0);
    assert run[0..] == run;
    hide RepairedRun, Answers, KeepLast, LastAnswersFrom, HaltedFrom, UnansweredFrom;
  }

  lemma BackfillGap(x: Item, run: seq<Item>, rest: seq<Item>)
    requires !x.ToolResult? && AllResults(run) && AtBlock(rest)
    ensures var c := Block(x, run, rest);
      |RepairBlocks(c)| - |StripFrom(Dedup(c), {})|
      == UnansweredFrom(Calls(x), run, 0) + |RepairBlocks(rest)| - |StripFrom(Dedup(rest), {})|
  {
    BlockParts(x, run, rest);
    RunGains(Calls(x), run);
    hide StripFrom, Dedup, RepairedRun, Answers, KeepLast, UnansweredFrom, RunAt, Calls;
    StripDeduped(x, run, rest);
  }

  lemma {:induction false} BackfillGains(c: seq<Item>)
    requires AtBlock(c)
    ensures |RepairBlocks(c)| - |StripFrom(Dedup(c), {})| == Total(Dangling, c)
    decreases |c|
  {
    hide StripFrom, Dedup, Block, RunOf, RestOf, Total, RepairBlocks, UnansweredFrom, Calls, RunLength;
    if c == [] {
      NothingLost();
    } else {
      SplitsIntoBlock(c);
      BackfillGains(RestOf(c));
      TotalBlock(Dangling, c[0], RunOf(c), RestOf(c));
      BackfillGap(c[0], RunOf(c), RestOf(c));
    }
  }

  lemma StripDeduped(x: Item, run: seq<Item>, rest: seq<Item>)
    requires !x.ToolResult? && AllResults(run) && AtBlock(rest)
    ensures StripFrom(Dedup(Block(x, run, rest)), {})
         == Block(x, Answers(KeepLast(run), CallIds(Calls(x))), StripFrom(Dedup(rest), {}))
  {
    DedupStartsBlock(rest);
    if Calls(x) == [] {
      DedupPlainBlock(x, run, rest);
      AnswersNothing(run);
      AnswersNothing(KeepLast(run));
      assert CallIds(Calls(x)) == {};
    } else {
      DedupCallBlock(x, run, rest);
    }
    hide Block, Dedup, StripFrom, KeepLast, Answers, Calls, CallIds;
    StripBlock(x, if Calls(x) == [] then run else KeepLast(run), Dedup(rest), {});
  }

  /** The report, told from the input: the results whose id comes back in the run behind a
      calling assistant, the ids of the results that then have no owner, and the calls
      without a result. */
  lemma ReportIs(c: seq<Item>)
    ensures ReportOf(c) == Report(Total(Repeats, c), DisplacedFrom(Dedup(c), 0), Total(Dangling, c))
  {
    var n := RunLength(c);
    DedupLoses(c);
    StripKeepsOwned(Dedup(c));
    PassesRepair(c);
    hide Dedup, StripFrom, Backfill, Total, RepairBlocks, RunLength;
    BackfillGains(c[n..]);
    assert c == c[..n] + c[n..];
    TotalSkip(Dangling, c[..n], c[n..]);
    LeadStripped(c, n);
  }

  lemma LeadStripped(c: seq<Item>, n: nat)
    requires n == RunLength(c)
    ensures StripFrom(Dedup(c), {}) == StripFrom(Dedup(c[n..]), {})
  {
    assert c == c[..n] + c[n..];
    hide Dedup, StripFrom, RunLength;
    DedupRun(c[..n], c[n..]);
    StripRun(c[..n], Dedup(c[n..]), {});
    AnswersNothing(c[..n]);
    assert [] + StripFrom(Dedup(c[n..]), {}) == StripFrom(Dedup(c[n..]), {});
  }

  lemma {:induction false} UnansweredNone(calls: seq<ToolCall>, run: seq<Item>, k: nat)
    requires AllResults(run) && k <= |calls|
    ensures UnansweredFrom(calls, run, k) == 0 <==> forall j | k <= j < |calls| :: CountId(run, calls[j].id) > 0
    decreases |calls| - k
  {
    if k < |calls| {
      CountHas(run, calls[k].id);
      UnansweredNone(calls, run, k + 1);
      hide HasId, CountId;
    }
  }

  lemma {:induction false} DanglingNone(c: seq<Item>)
    ensures Total(Dangling, c) == 0 <==> Answered(c)
  {
    if c != [] {
      DanglingNone(c[1..]);
      UnansweredNone(Calls(c[0]), RunOf(c), 0);
      assert RunAt(c, 0) == RunOf(c);
      assert AnsweredAt(c, 0) <==> UnansweredFrom(Calls(c[0]), RunOf(c), 0) == 0;
      hide Answered, AnsweredAt, UnansweredFrom, RunOf;
      Shifted(c, 1);
    }
  }

  /** When the two counts of the report are zero: no run answers an id twice; no call of
      the input is left dangling, whatever the first two passes remove. */
  lemma {:induction false} CountsAreZero(c: seq<Item>)
    ensures ReportOf(c).duplicatesRemoved == 0 <==> AnswersUnique(c)
    ensures ReportOf(c).syntheticInserted == 0 <==> Answered(c)
  {
    ReportIs(c);
    DedupLoses(c);
    DedupSize(c);
    DedupUnchangedIff(c);
    DanglingNone(c);
    hide ReportOf, Dedup, Total, AnswersUnique, Answered;
  }
}
