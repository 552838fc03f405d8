/** `repair_history`: deduplicate results, strip displaced ones, backfill unanswered calls. */
module HistoryRepair {
  import opened Wrappers
  import opened Conversation

  // ------------------------------------------------------------ runs of results

  predicate HasId(run: seq<Item>, id: string)
    requires AllResults(run)
  {
    exists k | 0 <= k < |run| :: run[k].callId == id
  }

  /** The last result of every id. */
  function KeepLast(run: seq<Item>): (r: seq<Item>)
    requires AllResults(run)
    ensures AllResults(r) && |r| <= |run|
  {
    if run == [] then []
    else if HasId(run[1..], run[0].callId) then KeepLast(run[1..])
    else [run[0]] + KeepLast(run[1..])
  }

  /** The results that answer one of `ids`. */
  function Answers(run: seq<Item>, ids: set<string>): (r: seq<Item>)
    requires AllResults(run)
    ensures AllResults(r) && |r| <= |run|
  {
    if run == [] then []
    else if run[0].callId in ids then [run[0]] + Answers(run[1..], ids)
    else Answers(run[1..], ids)
  }

  const HALTED := "Tool execution was halted by the harness (history_repair); the tool `"
  const NOT_EXECUTED := "` was not executed."

  function HaltedText(name: string): string {
    HALTED + name + NOT_EXECUTED
  }

  function Synthetic(call: ToolCall): Item {
    ToolResult(call.id, HaltedText(call.name), [])
  }

  /** One synthetic result per call that `run` leaves unanswered, in call order. */
  function Synthesize(calls: seq<ToolCall>, run: seq<Item>): (r: seq<Item>)
    requires AllResults(run)
    ensures AllResults(r)
  {
    if calls == [] then []
    else if HasId(run, calls[0].id) then Synthesize(calls[1..], run)
    else [Synthetic(calls[0])] + Synthesize(calls[1..], run)
  }

  // ------------------------------------------------------------ the three passes

  function Dedup(c: seq<Item>): seq<Item>
    decreases |c|
  {
    if c == [] then []
    else if Calls(c[0]) == [] then [c[0]] + Dedup(c[1..])
    else Block(c[0], KeepLast(RunOf(c)), Dedup(RestOf(c)))
  }

  function StripFrom(c: seq<Item>, ids: set<string>): seq<Item> {
    if c == [] then []
    else if !c[0].ToolResult? then [c[0]] + StripFrom(c[1..], CallIds(Calls(c[0])))
    else if c[0].callId in ids then [c[0]] + StripFrom(c[1..], ids)
    else StripFrom(c[1..], ids)
  }

  function StrippedIds(c: seq<Item>, ids: set<string>): seq<string> {
    if c == [] then []
    else if !c[0].ToolResult? then StrippedIds(c[1..], CallIds(Calls(c[0])))
    else if c[0].callId in ids then StrippedIds(c[1..], ids)
    else [c[0].callId] + StrippedIds(c[1..], ids)
  }

  function Backfill(c: seq<Item>): seq<Item>
    decreases |c|
  {
    if c == [] then []
    else if Calls(c[0]) == [] then [c[0]] + Backfill(c[1..])
    else Block(c[0], RunOf(c) + Synthesize(Calls(c[0]), RunOf(c)), Backfill(RestOf(c)))
  }

  // ------------------------------------------------------------ repair in one pass

  function RepairedRun(calls: seq<ToolCall>, run: seq<Item>): (r: seq<Item>)
    requires AllResults(run)
    ensures AllResults(r)
  {
    var kept := Answers(KeepLast(run), CallIds(calls));
    kept + Synthesize(calls, kept)
  }

  function RepairBlocks(c: seq<Item>): (r: seq<Item>)
    requires AtBlock(c)
    ensures AtBlock(r)
    decreases |c|
  {
    if c == [] then []
    else Block(c[0], RepairedRun(Calls(c[0]), RunOf(c)), RepairBlocks(RestOf(c)))
  }

  /** The whole repair: orphans in front are dropped, every block is repaired. */
  function Repaired(c: seq<Item>): (r: seq<Item>)
    ensures AtBlock(r)
  {
    RepairBlocks(c[RunLength(c)..])
  }

  lemma {:induction false} DedupCallBlock(x: Item, run: seq<Item>, rest: seq<Item>)
    requires AllResults(run) && AtBlock(rest) && Calls(x) != []
    ensures Dedup(Block(x, run, rest)) == Block(x, KeepLast(run), Dedup(rest))
  {
    BlockParts(x, run, rest);
    hide Block, KeepLast, Calls;
  }

  lemma DedupPlainBlock(x: Item, run: seq<Item>, rest: seq<Item>)
    requires AllResults(run) && Calls(x) == []
    ensures Dedup(Block(x, run, rest)) == Block(x, run, Dedup(rest))
  {
    DedupPlain(x, run + rest);
    DedupRun(run, rest);
    hide Dedup, Calls;
    BlockTail(x, run, rest);
    BlockTail(x, run, Dedup(rest));
  }

  lemma BlockTail(x: Item, run: seq<Item>, rest: seq<Item>)
    ensures Block(x, run, rest) == [x] + (run + rest)
  {
  }

  lemma DedupPlain(x: Item, c: seq<Item>)
    requires Calls(x) == []
    ensures Dedup([x] + c) == [x] + Dedup(c)
  {
    hide Calls;
    assert ([x] + c)[1..] == c;
  }

  lemma {:induction false} DedupRun(run: seq<Item>, rest: seq<Item>)
    requires AllResults(run)
    ensures Dedup(run + rest) == run + Dedup(rest)
  {
    hide Dedup;
    if run == [] {
      assert run + rest == rest;
      assert run + Dedup(rest) == Dedup(rest);
    } else {
      DedupPlain(run[0], run[1..] + rest);
      DedupRun(run[1..], rest);
      FirstOff(run, rest);
      FirstOff(run, Dedup(rest));
    }
  }

  lemma FirstOff(run: seq<Item>, rest: seq<Item>)
    requires run != []
    ensures run + rest == [run[0]] + (run[1..] + rest)
  {
  }

  lemma DedupStartsBlock(c: seq<Item>)
    requires AtBlock(c)
    ensures AtBlock(Dedup(c))
  {
  }

  lemma {:induction false} StripRun(run: seq<Item>, rest: seq<Item>, ids: set<string>)
    requires AllResults(run)
    ensures StripFrom(run + rest, ids) == Answers(run, ids) + StripFrom(rest, ids)
  {
    if run == [] {
      assert run + rest == rest;
    } else {
      assert (run + rest)[1..] == run[1..] + rest;
      StripRun(run[1..], rest, ids);
    }
  }

  /** After a block ends, its ids no longer matter. */
  lemma StripBlock(x: Item, run: seq<Item>, rest: seq<Item>, ids: set<string>)
    requires !x.ToolResult? && AllResults(run) && AtBlock(rest)
    ensures StripFrom(Block(x, run, rest), ids)
         == Block(x, Answers(run, CallIds(Calls(x))), StripFrom(rest, {}))
  {
    assert Block(x, run, rest)[1..] == run + rest;
    StripRun(run, rest, CallIds(Calls(x)));
    var kept := Answers(run, CallIds(Calls(x)));
    assert [x] + (kept + StripFrom(rest, {})) == [x] + kept + StripFrom(rest, {});
  }

  lemma {:induction false} AnswersNothing(run: seq<Item>)
    requires AllResults(run)
    ensures Answers(run, {}) == []
  {
    if run != [] {
      AnswersNothing(run[1..]);
    }
  }

  lemma BackfillBlock(x: Item, run: seq<Item>, rest: seq<Item>)
    requires AllResults(run) && AtBlock(rest) && (Calls(x) == [] ==> run == [])
    ensures Backfill(Block(x, run, rest)) == Block(x, run + Synthesize(Calls(x), run), Backfill(rest))
  {
    BlockParts(x, run, rest);
    if Calls(x) == [] {
      assert Block(x, run, rest)[1..] == rest;
      assert run + Synthesize(Calls(x), run) == [];
      assert Block(x, [], Backfill(rest)) == [x] + Backfill(rest);
    }
  }

  /** The three passes compute the one-pass repair. */
  lemma {:induction false} PassesRepair(c: seq<Item>)
    ensures Backfill(StripFrom(Dedup(c), {})) == Repaired(c)
  {
    var n := RunLength(c);
    assert c == c[..n] + c[n..];
    DedupRun(c[..n], c[n..]);
    StripRun(c[..n], Dedup(c[n..]), {});
    AnswersNothing(c[..n]);
    assert [] + StripFrom(Dedup(c[n..]), {}) == StripFrom(Dedup(c[n..]), {});
    PassesRepairBlocks(c[n..]);
  }

  lemma {:induction false} PassesRepairBlocks(c: seq<Item>)
    requires AtBlock(c)
    ensures Backfill(StripFrom(Dedup(c), {})) == RepairBlocks(c)
    decreases |c|
  {
    if c != [] {
      var x, run, rest := c[0], RunOf(c), RestOf(c);
      SplitsIntoBlock(c);
      PassesRepairBlocks(rest);
      BlockPasses(x, run, rest);
      hide Block, Dedup, StripFrom, Backfill, RepairedRun;
    }
  }

  lemma BlockPasses(x: Item, run: seq<Item>, rest: seq<Item>)
    requires !x.ToolResult? && AllResults(run) && AtBlock(rest)
    ensures Backfill(StripFrom(Dedup(Block(x, run, rest)), {}))
         == Block(x, RepairedRun(Calls(x), run), Backfill(StripFrom(Dedup(rest), {})))
  {
    DedupStartsBlock(rest);
    StripStartsBlock(Dedup(rest));
    if Calls(x) == [] {
      DedupPlainBlock(x, run, rest);
      AnswersNothing(run);
      AnswersNothing(KeepLast(run));
      assert CallIds(Calls(x)) == {};
      hide Block, Dedup, Backfill, StripFrom, KeepLast, Answers, Calls, CallIds;
      StripBlock(x, run, Dedup(rest), {});
      BackfillBlock(x, [], StripFrom(Dedup(rest), {}));
    } else {
      DedupCallBlock(x, run, rest);
      hide Block, Dedup, Backfill, StripFrom, KeepLast, Answers, Calls, CallIds, Synthesize;
      StripBlock(x, KeepLast(run), Dedup(rest), {});
      BackfillBlock(x, Answers(KeepLast(run), CallIds(Calls(x))), StripFrom(Dedup(rest), {}));
    }
  }

  lemma StripStartsBlock(c: seq<Item>)
    requires AtBlock(c)
    ensures AtBlock(StripFrom(c, {}))
  {
  }

  // ------------------------------------------------------------ what one repaired run holds

  lemma {:induction false} CountHas(run: seq<Item>, id: string)
    requires AllResults(run)
    ensures HasId(run, id) <==> CountId(run, id) > 0
  {
    if run != [] {
      CountHas(run[1..], id);
      if HasId(run, id) && run[0].callId != id {
        var k :| 0 <= k < |run| && run[k].callId == id;
        assert run[1..][k - 1].callId == id;
      }
      if HasId(run[1..], id) {
        var k :| 0 <= k < |run[1..]| && run[1..][k].callId == id;
        assert run[k + 1].callId == id;
      }
    }
  }

  lemma {:induction false} CountConcat(a: seq<Item>, b: seq<Item>, id: string)
    requires AllResults(a) && AllResults(b)
    ensures CountId(a + b, id) == CountId(a, id) + CountId(b, id)
  {
    if a == [] {
      assert a + b == b;
    } else {
      assert (a + b)[1..] == a[1..] + b;
      CountConcat(a[1..], b, id);
    }
  }

  lemma {:induction false} CountKeepLast(run: seq<Item>, id: string)
    requires AllResults(run)
    ensures CountId(KeepLast(run), id) == if HasId(run, id) then 1 else 0
  {
    if run != [] {
      CountKeepLast(run[1..], id);
      CountHas(run, id);
      CountHas(run[1..], id);
      assert ([run[0]] + KeepLast(run[1..]))[1..] == KeepLast(run[1..]);
    }
  }

  lemma {:induction false} CountAnswers(run: seq<Item>, ids: set<string>, id: string)
    requires AllResults(run)
    ensures CountId(Answers(run, ids), id) == if id in ids then CountId(run, id) else 0
  {
    if run != [] {
      CountAnswers(run[1..], ids, id);
      assert ([run[0]] + Answers(run[1..], ids))[1..] == Answers(run[1..], ids);
    }
  }

  function Multiplicity(calls: seq<ToolCall>, id: string): nat {
    if calls == [] then 0 else (if calls[0].id == id then 1 else 0) + Multiplicity(calls[1..], id)
  }

  lemma {:induction false} CountSynthesize(calls: seq<ToolCall>, run: seq<Item>, id: string)
    requires AllResults(run)
    ensures CountId(Synthesize(calls, run), id) == if HasId(run, id) then 0 else Multiplicity(calls, id)
  {
    if calls != [] {
      CountSynthesize(calls[1..], run, id);
      var s := Synthesize(calls[1..], run);
      assert ([Synthetic(calls[0])] + s)[1..] == s;
    }
  }

  lemma {:induction false} MultiplicityHas(calls: seq<ToolCall>, id: string)
    ensures id in CallIds(calls) <==> Multiplicity(calls, id) > 0
  {
    if calls != [] {
      MultiplicityHas(calls[1..], id);
      assert forall k | 1 <= k < |calls| :: calls[k] == calls[1..][k - 1];
      assert CallIds(calls) == {calls[0].id} + CallIds(calls[1..]);
    }
  }

  /** How often each id is answered after the repair of a run. */
  lemma RepairedRunCount(calls: seq<ToolCall>, run: seq<Item>, id: string)
    requires AllResults(run)
    ensures CountId(RepairedRun(calls, run), id) ==
      if id !in CallIds(calls) then 0 else if HasId(run, id) then 1 else Multiplicity(calls, id)
  {
    var kept := Answers(KeepLast(run), CallIds(calls));
    CountConcat(kept, Synthesize(calls, kept), id);
    CountAnswers(KeepLast(run), CallIds(calls), id);
    CountKeepLast(run, id);
    CountSynthesize(calls, kept, id);
    CountHas(kept, id);
    MultiplicityHas(calls, id);
  }

  lemma DeclaredByCount(run: seq<Item>, ids: set<string>)
    requires AllResults(run) && forall id | id !in ids :: CountId(run, id) == 0
    ensures AllDeclared(run, ids)
  {
    forall i | 0 <= i < |run| ensures run[i].callId in ids {
      CountHas(run, run[i].callId);
    }
  }

  lemma RepairedRunDeclared(calls: seq<ToolCall>, run: seq<Item>)
    requires AllResults(run)
    ensures AllDeclared(RepairedRun(calls, run), CallIds(calls))
  {
    forall id | id !in CallIds(calls) ensures CountId(RepairedRun(calls, run), id) == 0 {
      RepairedRunCount(calls, run, id);
    }
    DeclaredByCount(RepairedRun(calls, run), CallIds(calls));
  }

  // ------------------------------------------------------------ when a run is left alone

  lemma {:induction false} KeepLastAll(run: seq<Item>)
    requires AllResults(run) && forall id :: CountId(run, id) <= 1
    ensures KeepLast(run) == run
  {
    if run != [] {
      CountHas(run[1..], run[0].callId);
      assert CountId(run, run[0].callId) <= 1;
      forall id ensures CountId(run[1..], id) <= 1 {
        assert CountId(run, id) <= 1;
      }
      KeepLastAll(run[1..]);
    }
  }

  lemma {:induction false} AnswersAll(run: seq<Item>, ids: set<string>)
    requires AllResults(run) && AllDeclared(run, ids)
    ensures Answers(run, ids) == run
  {
    if run != [] {
      assert forall i | 1 <= i < |run| :: run[i] == run[1..][i - 1];
      AnswersAll(run[1..], ids);
    }
  }

  lemma {:induction false} SynthesizeNone(calls: seq<ToolCall>, run: seq<Item>)
    requires AllResults(run) && forall k | 0 <= k < |calls| :: HasId(run, calls[k].id)
    ensures Synthesize(calls, run) == []
  {
    if calls != [] {
      assert forall k | 0 <= k < |calls[1..]| :: calls[1..][k] == calls[k + 1];
      SynthesizeNone(calls[1..], run);
    }
  }

  /** The repair leaves exactly the complete runs alone. */
  lemma {:induction false} RunUnchanged(calls: seq<ToolCall>, run: seq<Item>)
    requires AllResults(run)
    ensures RepairedRun(calls, run) == run <==> CompleteRun(calls, run)
    ensures CompleteRun(calls, run) ==>
      KeepLast(run) == run && Answers(run, CallIds(calls)) == run && Synthesize(calls, run) == []
  {
    if CompleteRun(calls, run) {
      forall id ensures CountId(run, id) <= 1 {
        CountHas(run, id);
      }
      KeepLastAll(run);
      AnswersAll(run, CallIds(calls));
      forall k | 0 <= k < |calls| ensures HasId(run, calls[k].id) {
        CountHas(run, calls[k].id);
      }
      SynthesizeNone(calls, run);
    }
    if RepairedRun(calls, run) == run {
      RepairedRunDeclared(calls, run);
      forall k | 0 <= k < |calls| ensures CountId(run, calls[k].id) == 1 {
        RepairedRunCount(calls, run, calls[k].id);
        MultiplicityHas(calls, calls[k].id);
        CountHas(run, calls[k].id);
      }
    }
  }

  // ------------------------------------------------------------ the theorems

  /** After the repair every result is in the run right behind its owner. */
  lemma {:induction false} RepairBlocksPairs(c: seq<Item>)
    requires AtBlock(c)
    ensures PairedFrom(RepairBlocks(c), {})
    decreases |c|
  {
    if c != [] {
      var x, run, rest := c[0], RunOf(c), RestOf(c);
      RepairBlocksPairs(rest);
      RepairedRunDeclared(Calls(x), run);
      hide RepairedRun;
      PairedBlock(x, RepairedRun(Calls(x), run), RepairBlocks(rest), {});
    }
  }

  lemma RepairedIsPaired(c: seq<Item>)
    ensures Paired(Repaired(c))
  {
    RepairBlocksPairs(c[RunLength(c)..]);
    PairedScan(Repaired(c));
  }

  /** Item `o` declares no id twice that the run behind it leaves unanswered. A caller can
      read this off the history before the repair. */
  ghost predicate NoDoubleDanglingAt(c: seq<Item>, o: nat)
    requires o < |c|
  {
    forall j, k | 0 <= j < k < |Calls(c[o])| && Calls(c[o])[j].id == Calls(c[o])[k].id ::
      HasId(RunAt(c, o), Calls(c[o])[k].id)
  }

  ghost predicate NoDoubleDangling(c: seq<Item>) {
    forall o | 0 <= o < |c| :: NoDoubleDanglingAt(c, o)
  }

  ghost predicate NoDoubleRun(calls: seq<ToolCall>, run: seq<Item>)
    requires AllResults(run)
  {
    forall j, k | 0 <= j < k < |calls| && calls[j].id == calls[k].id :: HasId(run, calls[k].id)
  }

  lemma {:induction false} MultiplicityTwice(calls: seq<ToolCall>, id: string)
    ensures Multiplicity(calls, id) >= 2 <==>
      exists j, k | 0 <= j < k < |calls| :: calls[j].id == calls[k].id == id
  {
    if calls != [] {
      MultiplicityTwice(calls[1..], id);
      MultiplicityHas(calls[1..], id);
      if j, k :| 0 <= j < k < |calls| && calls[j].id == calls[k].id == id {
        assert calls[1..][k - 1].id == id;
        if j > 0 {
          assert calls[1..][j - 1].id == calls[1..][k - 1].id == id;
        }
      }
      if j, k :| 0 <= j < k < |calls[1..]| && calls[1..][j].id == calls[1..][k].id == id {
        assert calls[j + 1].id == calls[k + 1].id == id;
      }
      if calls[0].id == id && id in CallIds(calls[1..]) {
        var k :| 0 <= k < |calls[1..]| && calls[1..][k].id == id;
        assert calls[0].id == calls[k + 1].id == id;
      }
    }
  }

  lemma RepairedRunAnswersOnce(calls: seq<ToolCall>, run: seq<Item>)
    requires AllResults(run)
    ensures CompleteRun(calls, RepairedRun(calls, run)) <==> NoDoubleRun(calls, run)
  {
    var r := RepairedRun(calls, run);
    RepairedRunDeclared(calls, run);
    forall k | 0 <= k < |calls|
      ensures CountId(r, calls[k].id) == 1 <==> HasId(run, calls[k].id) || Multiplicity(calls, calls[k].id) == 1
    {
      RepairedRunCount(calls, run, calls[k].id);
      MultiplicityHas(calls, calls[k].id);
    }
    hide RepairedRun, CountId, HasId, Multiplicity;
    if NoDoubleRun(calls, run) {
      forall k | 0 <= k < |calls| ensures CountId(r, calls[k].id) == 1 {
        MultiplicityTwice(calls, calls[k].id);
        MultiplicityHas(calls, calls[k].id);
      }
    }
    if CompleteRun(calls, r) {
      forall j, k | 0 <= j < k < |calls| && calls[j].id == calls[k].id
        ensures HasId(run, calls[k].id)
      {
        MultiplicityTwice(calls, calls[k].id);
        assert CountId(r, calls[k].id) == 1;
      }
    }
  }

  lemma NoDoubleBlock(x: Item, run: seq<Item>, rest: seq<Item>)
    requires AllResults(run) && AtBlock(rest)
    ensures NoDoubleDangling(Block(x, run, rest)) <==> NoDoubleRun(Calls(x), run) && NoDoubleDangling(rest)
  {
    var c := Block(x, run, rest);
    BlockParts(x, run, rest);
    assert c[1 + |run|..] == rest;
    forall o | 1 <= o < 1 + |run| ensures NoDoubleDanglingAt(c, o) {
      assert c[o] == run[o - 1];
    }
    assert NoDoubleDanglingAt(c, 0) <==> NoDoubleRun(Calls(x), run);
    NoDoubleDrop(c, 1 + |run|);
  }

  lemma NoDoubleDrop(c: seq<Item>, n: nat)
    requires n <= |c| && forall o | 1 <= o < n :: NoDoubleDanglingAt(c, o)
    ensures NoDoubleDangling(c) <==> (n > 0 ==> NoDoubleDanglingAt(c, 0)) && NoDoubleDangling(c[n..])
  {
    forall o | 0 <= o < |c[n..]| ensures NoDoubleDanglingAt(c[n..], o) <==> NoDoubleDanglingAt(c, n + o) {
      RunAtDrop(c, n, o);
    }
    if NoDoubleDangling(c[n..]) && (n > 0 ==> NoDoubleDanglingAt(c, 0)) {
      forall o | n <= o < |c| ensures NoDoubleDanglingAt(c, o) {
        assert NoDoubleDanglingAt(c[n..], o - n) <==> NoDoubleDanglingAt(c, n + (o - n));
      }
    }
  }

  lemma {:induction false} RepairBlocksCompletes(c: seq<Item>)
    requires AtBlock(c)
    ensures Complete(RepairBlocks(c)) <==> NoDoubleDangling(c)
    decreases |c|
  {
    if c != [] {
      var x, run, rest := c[0], RunOf(c), RestOf(c);
      RepairBlocksCompletes(rest);
      SplitsIntoBlock(c);
      NoDoubleBlock(x, run, rest);
      RepairedRunAnswersOnce(Calls(x), run);
      hide RepairedRun, Block, Complete, NoDoubleDangling;
      CompleteBlock(x, RepairedRun(Calls(x), run), RepairBlocks(rest));
    }
  }

  /** After the repair every call has exactly one result behind it, except that a call id
      declared twice and never answered gets one synthetic result per declaration. */
  lemma RepairCompletesIff(c: seq<Item>)
    ensures AnsweredOnce(Repaired(c)) <==> NoDoubleDangling(c)
  {
    var n := RunLength(c);
    RepairedIsPaired(c);
    RepairBlocksCompletes(c[n..]);
    forall o | 0 <= o < n ensures NoDoubleDanglingAt(c, o) {
    }
    NoDoubleDrop(c, n);
  }

  lemma {:induction false} RepairBlocksUnchanged(c: seq<Item>)
    requires AtBlock(c)
    ensures RepairBlocks(c) == c <==> Complete(c)
    decreases |c|
  {
    if c != [] {
      var x, run, rest := c[0], RunOf(c), RestOf(c);
      RepairBlocksUnchanged(rest);
      SplitsIntoBlock(c);
      CompleteBlock(x, run, rest);
      RunUnchanged(Calls(x), run);
      BlockParts(x, RepairedRun(Calls(x), run), RepairBlocks(rest));
      hide RepairedRun, Block, Complete;
    }
  }

  /** The histories that the repair leaves alone are exactly the complete ones. */
  lemma UnchangedIffComplete(c: seq<Item>)
    ensures Repaired(c) == c <==> Complete(c)
  {
    var n := RunLength(c);
    if n == 0 {
      assert c[n..] == c;
      RepairBlocksUnchanged(c);
    } else {
      if Complete(c) {
        PairedStartsBlock(c);
      }
    }
  }

  /** The documented idempotence, with the exact condition under which it holds. */
  lemma IdempotentIff(c: seq<Item>)
    ensures Repaired(Repaired(c)) == Repaired(c) <==> NoDoubleDangling(c)
  {
    UnchangedIffComplete(Repaired(c));
    RepairedIsPaired(c);
    RepairCompletesIff(c);
  }

  /** A history on which the second repair still changes something. */
  lemma NotAlwaysIdempotent()
    ensures var call := ToolCall("call_1", "bash", "{}");
      var c := [Assistant("", [call, call])];
      Repaired(Repaired(c)) != Repaired(c)
  {
    var call := ToolCall("call_1", "bash", "{}");
    var c := [Assistant("", [call, call])];
    IdempotentIff(c);
    assert RunAt(c, 0) == [];
    assert !NoDoubleDanglingAt(c, 0) by {
      assert Calls(c[0])[0].id == Calls(c[0])[1].id;
    }
  }

  // ------------------------------------------------------------ what survives

  function NonResults(c: seq<Item>): seq<Item> {
    if c == [] then []
    else if c[0].ToolResult? then NonResults(c[1..])
    else [c[0]] + NonResults(c[1..])
  }

  lemma {:induction false} NonResultsRun(run: seq<Item>, rest: seq<Item>)
    requires AllResults(run)
    ensures NonResults(run + rest) == NonResults(rest)
  {
    if run == [] {
      assert run + rest == rest;
    } else {
      assert (run + rest)[1..] == run[1..] + rest;
      NonResultsRun(run[1..], rest);
    }
  }

  lemma NonResultsBlock(x: Item, run: seq<Item>, rest: seq<Item>)
    requires !x.ToolResult? && AllResults(run)
    ensures NonResults(Block(x, run, rest)) == [x] + NonResults(rest)
  {
    assert Block(x, run, rest)[1..] == run + rest;
    NonResultsRun(run, rest);
  }

  lemma {:induction false} RepairBlocksKeepOthers(c: seq<Item>)
    requires AtBlock(c)
    ensures NonResults(RepairBlocks(c)) == NonResults(c)
    decreases |c|
  {
    if c != [] {
      var x, run, rest := c[0], RunOf(c), RestOf(c);
      SplitsIntoBlock(c);
      NonResultsBlock(x, run, rest);
      NonResultsBlock(x, RepairedRun(Calls(x), run), RepairBlocks(rest));
      hide RepairedRun, Block, NonResults;
      RepairBlocksKeepOthers(rest);
    }
  }

  /** Everything that is not a tool result survives, unchanged and in order. */
  lemma RepairKeepsOthers(c: seq<Item>)
    ensures NonResults(Repaired(c)) == NonResults(c)
  {
    var n := RunLength(c);
    var lead, blocks := c[..n], c[n..];
    assert c == lead + blocks;
    RepairBlocksKeepOthers(blocks);
    hide NonResults, RepairBlocks;
    NonResultsRun(lead, blocks);
  }

  /** Result `i` of a run is the last one for its id. */
  ghost predicate LastForId(run: seq<Item>, i: nat)
    requires AllResults(run) && i < |run|
  {
    forall k | i < k < |run| :: run[k].callId != run[i].callId
  }

  lemma {:induction false} KeepLastMembers(run: seq<Item>, y: Item)
    requires AllResults(run)
    ensures y in KeepLast(run) <==> exists i | 0 <= i < |run| :: run[i] == y && LastForId(run, i)
  {
    if run != [] {
      var t := run[1..];
      KeepLastMembers(t, y);
      forall i | 0 <= i < |t| ensures LastForId(t, i) <==> LastForId(run, i + 1) {
        assert forall k | 0 <= k < |t| :: t[k] == run[k + 1];
        assert LastForId(t, i) ==> forall k | i + 1 < k < |run| :: run[k] == t[k - 1];
      }
      assert !HasId(t, run[0].callId) <==> LastForId(run, 0) by {
        if !HasId(t, run[0].callId) {
          forall k | 0 < k < |run| ensures run[k].callId != run[0].callId {
            assert t[k - 1] == run[k];
          }
        }
      }
      if i :| 0 <= i < |run| && run[i] == y && LastForId(run, i) {
        if i > 0 {
          assert t[i - 1] == y && LastForId(t, i - 1);
        }
      }
    }
  }

  lemma {:induction false} AnswersMembers(run: seq<Item>, ids: set<string>, y: Item)
    requires AllResults(run)
    ensures y in Answers(run, ids) <==> y in run && y.ToolResult? && y.callId in ids
  {
    if run != [] {
      AnswersMembers(run[1..], ids, y);
      assert run == [run[0]] + run[1..];
    }
  }

  lemma {:induction false} SynthesizeMembers(calls: seq<ToolCall>, run: seq<Item>, y: Item)
    requires AllResults(run)
    ensures y in Synthesize(calls, run) <==>
      exists k | 0 <= k < |calls| :: y == Synthetic(calls[k]) && !HasId(run, calls[k].id)
  {
    hide HasId, Synthetic;
    if calls != [] {
      var rest := calls[1..];
      SynthesizeMembers(rest, run, y);
      assert calls == [calls[0]] + rest;
      if k :| 0 <= k < |calls| && y == Synthetic(calls[k]) && !HasId(run, calls[k].id) {
        assert k > 0 ==> rest[k - 1] == calls[k];
      }
      if k :| 0 <= k < |rest| && y == Synthetic(rest[k]) && !HasId(run, rest[k].id) {
        assert calls[k + 1] == rest[k];
      }
    }
  }

  /** A repaired run holds exactly: for every call answered in the run, the last answer; for
      every other call, a synthetic result. */
  lemma RepairedRunMembers(calls: seq<ToolCall>, run: seq<Item>, y: Item)
    requires AllResults(run)
    ensures y in RepairedRun(calls, run) <==>
      || (exists i | 0 <= i < |run| :: run[i] == y && run[i].callId in CallIds(calls) && LastForId(run, i))
      || (exists k | 0 <= k < |calls| :: y == Synthetic(calls[k]) && !HasId(run, calls[k].id))
  {
    var last := KeepLast(run);
    var kept := Answers(last, CallIds(calls));
    KeepLastMembers(run, y);
    AnswersMembers(last, CallIds(calls), y);
    SynthesizeMembers(calls, kept, y);
    forall k | 0 <= k < |calls| ensures HasId(kept, calls[k].id) <==> HasId(run, calls[k].id) {
      CountHas(kept, calls[k].id);
      CountAnswers(last, CallIds(calls), calls[k].id);
      CountKeepLast(run, calls[k].id);
    }
    hide KeepLast, Answers, Synthesize, HasId, LastForId, CallIds;
  }

  // ------------------------------------------------------------ the report

  datatype Report = Report(duplicatesRemoved: nat, strippedIds: seq<string>, syntheticInserted: nat) {
    predicate Changed() {
      duplicatesRemoved > 0 || strippedIds != [] || syntheticInserted > 0
    }
  }

  lemma {:induction false} DedupSize(c: seq<Item>)
    ensures |Dedup(c)| <= |c| && (|Dedup(c)| == |c| ==> Dedup(c) == c)
    decreases |c|
  {
    if c != [] {
      if Calls(c[0]) == [] {
        DedupSize(c[1..]);
      } else {
        DedupSize(RestOf(c));
        KeepLastSize(RunOf(c));
        SplitsIntoBlock(c);
        hide Block, KeepLast;
      }
    }
  }

  lemma {:induction false} KeepLastSize(run: seq<Item>)
    requires AllResults(run)
    ensures |KeepLast(run)| == |run| ==> KeepLast(run) == run
  {
    if run != [] {
      KeepLastSize(run[1..]);
    }
  }

  lemma {:induction false} StripSize(c: seq<Item>, ids: set<string>)
    ensures |StripFrom(c, ids)| + |StrippedIds(c, ids)| == |c|
    ensures StrippedIds(c, ids) == [] ==> StripFrom(c, ids) == c
  {
    if c != [] {
      StripSize(c[1..], if c[0].ToolResult? then ids else CallIds(Calls(c[0])));
    }
  }

  lemma {:induction false} BackfillSize(c: seq<Item>)
    ensures |Backfill(c)| >= |c| && (|Backfill(c)| == |c| ==> Backfill(c) == c)
    decreases |c|
  {
    if c != [] {
      if Calls(c[0]) == [] {
        BackfillSize(c[1..]);
      } else {
        BackfillSize(RestOf(c));
        SplitsIntoBlock(c);
        var s := Synthesize(Calls(c[0]), RunOf(c));
        assert s == [] ==> RunOf(c) + s == RunOf(c);
        hide Block, Synthesize;
      }
    }
  }

  lemma {:induction false} PassesKeepComplete(c: seq<Item>)
    requires Complete(c) && AtBlock(c)
    ensures Dedup(c) == c && StripFrom(c, {}) == c && Backfill(c) == c
    decreases |c|
  {
    if c != [] {
      var x, run, rest := c[0], RunOf(c), RestOf(c);
      SplitsIntoBlock(c);
      CompleteBlock(x, run, rest);
      PassesKeepComplete(rest);
      RunUnchanged(Calls(x), run);
      NoCallsNoRun(Calls(x), run);
      assert run + [] == run;
      if Calls(x) == [] {
        DedupPlainBlock(x, run, rest);
      } else {
        DedupCallBlock(x, run, rest);
      }
      hide Block, Dedup, Backfill, StripFrom, KeepLast, Answers, Synthesize, Complete;
      StripBlock(x, run, rest, {});
      BackfillBlock(x, run, rest);
    }
  }

  lemma NoCallsNoRun(calls: seq<ToolCall>, run: seq<Item>)
    requires AllResults(run) && CompleteRun(calls, run)
    ensures calls == [] ==> run == []
  {
    if run != [] {
      assert run[0].callId in CallIds(calls);
    }
  }

  function ReportOf(c: seq<Item>): Report {
    DedupSize(c);
    var deduped := Dedup(c);
    var stripped := StripFrom(deduped, {});
    BackfillSize(stripped);
    Report(|c| - |deduped|, StrippedIds(deduped, {}), |Backfill(stripped)| - |stripped|)
  }

  /** The report says "changed" exactly when the repair changed the history. */
  lemma ReportTellsChange(c: seq<Item>)
    ensures ReportOf(c).Changed() <==> Repaired(c) != c
  {
    var d := Dedup(c);
    DedupSize(c);
    StripSize(d, {});
    BackfillSize(StripFrom(d, {}));
    PassesRepair(c);
    UnchangedIffComplete(c);
    if Repaired(c) == c {
      PassesKeepComplete(c);
    }
    hide Dedup, StripFrom, StrippedIds, Backfill, Repaired, Complete;
  }

  // ------------------------------------------------------------ what the strict strip keeps

  /** The items from `k` on without the results that have no owner. */
  ghost function OwnedFrom(c: seq<Item>, k: nat): seq<Item>
    requires k <= |c|
    decreases |c| - k
  {
    if k == |c| then []
    else (if c[k].ToolResult? && !HasOwner(c, k) then [] else [c[k]]) + OwnedFrom(c, k + 1)
  }

  /** The call ids of the results from `k` on that have no owner. */
  ghost function DisplacedFrom(c: seq<Item>, k: nat): seq<string>
    requires k <= |c|
    decreases |c| - k
  {
    if k == |c| then []
    else (if c[k].ToolResult? && !HasOwner(c, k) then [c[k].callId] else []) + DisplacedFrom(c, k + 1)
  }

  /** `ids` are the ids that a result at position `k` may answer. */
  ghost predicate Answerable(c: seq<Item>, k: nat, ids: set<string>)
    requires k <= |c|
  {
    forall id :: id in ids <==> Owed(c, k, id)
  }

  ghost predicate Owed(c: seq<Item>, k: nat, id: string)
    requires k <= |c|
  {
    exists o | 0 <= o < k :: Declares(c[o], id) && ResultsBetween(c, o, k)
  }

  ghost predicate ResultsBetween(c: seq<Item>, o: nat, k: nat)
    requires o < k <= |c|
  {
    forall i | o < i < k :: c[i].ToolResult?
  }

  lemma OwedMeansOwner(c: seq<Item>, k: nat)
    requires k < |c| && c[k].ToolResult?
    ensures HasOwner(c, k) <==> Owed(c, k, c[k].callId)
  {
    if o: nat :| o < k && Owns(c, o, k) {
      assert ResultsBetween(c, o, k);
    }
    if Owed(c, k, c[k].callId) {
      var o :| 0 <= o < k && Declares(c[o], c[k].callId) && ResultsBetween(c, o, k);
      assert Owns(c, o, k);
    }
  }

  lemma AnswerableStep(c: seq<Item>, k: nat, ids: set<string>)
    requires k < |c| && Answerable(c, k, ids)
    ensures Answerable(c, k + 1, if c[k].ToolResult? then ids else CallIds(Calls(c[k])))
  {
    forall id ensures Owed(c, k + 1, id) <==>
      if c[k].ToolResult? then Owed(c, k, id) else Declares(c[k], id)
    {
      OwedStep(c, k, id);
    }
  }

  lemma OwedStep(c: seq<Item>, k: nat, id: string)
    requires k < |c|
    ensures Owed(c, k + 1, id) <==> if c[k].ToolResult? then Owed(c, k, id) else Declares(c[k], id)
  {
    hide Declares;
    if Owed(c, k + 1, id) {
      var o :| 0 <= o < k + 1 && Declares(c[o], id) && ResultsBetween(c, o, k + 1);
      if o < k {
        assert ResultsBetween(c, o, k);
      }
    }
    if c[k].ToolResult? && Owed(c, k, id) {
      var o :| 0 <= o < k && Declares(c[o], id) && ResultsBetween(c, o, k);
      assert ResultsBetween(c, o, k + 1);
    }
    if !c[k].ToolResult? && Declares(c[k], id) {
      assert ResultsBetween(c, k, k + 1);
    }
    if c[k].ToolResult? && Declares(c[k], id) {
      ResultDeclaresNothing(c[k], id);
    }
  }

  lemma ResultDeclaresNothing(x: Item, id: string)
    requires x.ToolResult?
    ensures !Declares(x, id)
  {
  }

  lemma {:induction false} StripFromOwned(c: seq<Item>, k: nat, ids: set<string>)
    requires k <= |c| && Answerable(c, k, ids)
    ensures StripFrom(c[k..], ids) == OwnedFrom(c, k)
    ensures StrippedIds(c[k..], ids) == DisplacedFrom(c, k)
    decreases |c| - k
  {
    hide HasOwner, Owed, Declares, CallIds, ResultsBetween;
    if k < |c| {
      assert c[k..][0] == c[k] && c[k..][1..] == c[k + 1..];
      AnswerableStep(c, k, ids);
      StripFromOwned(c, k + 1, if c[k].ToolResult? then ids else CallIds(Calls(c[k])));
      if c[k].ToolResult? {
        OwedMeansOwner(c, k);
        assert c[k].callId in ids <==> Owed(c, k, c[k].callId);
      }
      assert [] + OwnedFrom(c, k + 1) == OwnedFrom(c, k + 1);
      assert [] + DisplacedFrom(c, k + 1) == DisplacedFrom(c, k + 1);
    }
  }

  /** The strict strip keeps a result iff it has an owner, and reports the ids of the others
      in order. */
  lemma StripKeepsOwned(c: seq<Item>)
    ensures StripFrom(c, {}) == OwnedFrom(c, 0) && StrippedIds(c, {}) == DisplacedFrom(c, 0)
  {
    assert c[0..] == c;
    assert Answerable(c, 0, {});
    StripFromOwned(c, 0, {});
  }
}
