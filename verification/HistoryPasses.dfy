/** The repair passes as the code runs them: each edits the history in place. */
module HistoryPasses {
  import opened Wrappers
  import opened Conversation
  import opened HistoryRepair
  import opened HistoryReport

  /** Synthetic results to insert at a position of the scanned history. */
  datatype Patch = Patch(at: nat, results: seq<Item>)

  /** `Vec::remove`. */
  function RemoveAt(c: seq<Item>, i: nat): (r: seq<Item>)
    requires i < |c|
    ensures |r| == |c| - 1
  {
    c[..i] + c[i + 1..]
  }

  /** `Vec::splice` at an empty range. */
  function InsertAt(c: seq<Item>, at: nat, results: seq<Item>): (r: seq<Item>)
    requires at <= |c|
    ensures |r| == |c| + |results|
  {
    c[..at] + results + c[at..]
  }

  class History {
    var items: seq<Item>

    constructor (items: seq<Item>)
      ensures this.items == items
    {
      this.items := items;
    }

    /** `dedup_duplicate_tool_results`. */
    method DedupDuplicateToolResults() returns (removed: nat)
      modifies this
      ensures items == Dedup(old(items))
      ensures removed == |old(items)| - |items|
    {
      hide Dedup, Joined, KeepLast, KeptFrom, Calls, AtBlock, Stale;
      removed := 0;
      var i := 0;
      StartScan(items);
      while i < |items|
        invariant i <= |items| && removed + |items| == |old(items)|
        invariant Joined(items[..i], Dedup(items[i..])) == Dedup(old(items))
        decreases |items| - i
      {
        if Calls(items[i]) == [] {
          SkipPlain(items, i);
          i := i + 1;
        } else {
          var end := RunEnd(items, i + 1);
          var stale := FindStale(items, i + 1, end);
          if stale != {} {
            ghost var before := items;
            var n := RemoveStale(i + 1, end, stale);
            removed := removed + n;
            RescanBlock(before, items, i, end);
          } else {
            SkipCleanBlock(items, i, end);
            i := end;
          }
        }
      }
      EndScan(items, i);
    }

    /** Removes the given positions, highest first so that the lower ones stay valid. */
    method RemoveStale(start: nat, end: nat, stale: set<nat>) returns (n: nat)
      requires start <= end <= |items| && AllResults(items[start..end])
      requires stale != {} && stale == Stale(items, start, end)
      modifies this
      ensures items == KeptFrom(old(items), start, end)
      ensures n == |old(items)| - |items| && n > 0
    {
      hide KeepLast, RemoveAt, KeptFrom, Stale;
      n := 0;
      var idx := end;
      ghost var was := items;
      NothingKept(was, end);
      ghost var one := OneStale(was, start, end);
      while idx > start
        invariant start <= idx <= end && |items| + n == |was|
        invariant AllResults(was[idx..end]) && items == KeptFrom(was, idx, end)
        invariant n == 0 ==> one < idx
      {
        idx := idx - 1;
        StepBackKept(was, start, idx, end);
        if idx in stale {
          items := RemoveAt(items, idx);
          n := n + 1;
        }
      }
    }

    /** `strip_displaced_tool_results`: one pass that keeps the ids of the current run. */
    method StripDisplacedToolResults() returns (stripped: seq<string>)
      modifies this
      ensures items == StripFrom(old(items), {})
      ensures stripped == StrippedIds(old(items), {})
    {
      var runIds: set<string> := {};
      var kept: seq<Item> := [];
      stripped := [];
      var i := 0;
      assert items[0..] == items;
      while i < |items|
        invariant i <= |items| && items == old(items)
        invariant kept + StripFrom(items[i..], runIds) == StripFrom(items, {})
        invariant stripped + StrippedIds(items[i..], runIds) == StrippedIds(items, {})
      {
        var x := items[i];
        assert items[i..][0] == x && items[i..][1..] == items[i + 1..];
        if x.ToolResult? {
          if x.callId in runIds {
            kept := kept + [x];
          } else {
            stripped := stripped + [x.callId];
          }
        } else {
          runIds := CallIds(Calls(x));
          kept := kept + [x];
        }
        i := i + 1;
      }
      assert items[i..] == [];
      items := kept;
    }

    /** `repair_dangling_tool_calls`: a scan that records insertions, then the insertions
        from the back. */
    method RepairDanglingToolCalls() returns (inserted: nat)
      modifies this
      ensures items == Backfill(old(items))
      ensures inserted == |items| - |old(items)|
    {
      hide Patched, Backfill, InOrder, Joined, InsertAt;
      var c := items;
      var patches := FindPatches(c);
      var k := |patches|;
      inserted := 0;
      ghost var lim: nat, tail: seq<Item> := |c|, [];
      JoinedAll(c, Patched(c, patches, |c|));
      assert patches[..k] == patches;
      while k > 0
        invariant k <= |patches| && lim <= |c| && InOrder(patches[..k], lim)
        invariant items == Joined(c[..lim], tail) && |items| == |c| + inserted
        invariant Joined(Patched(c, patches[..k], lim), tail) == Patched(c, patches, |c|)
      {
        k := k - 1;
        var p := patches[k];
        LastPatch(c, patches, k, lim, tail);
        items := InsertAt(items, p.at, p.results);
        inserted := inserted + |p.results|;
        tail := p.results + c[p.at..lim] + tail;
        lim := p.at;
      }
      NoPatches(c, patches[..0], lim);
    }

    /** `repair_history`. */
    method RepairHistory() returns (report: Report)
      modifies this
      ensures items == Repaired(old(items))
      ensures report == ReportOf(old(items))
      ensures items == OwnersWithAnswers(old(items))
      ensures report.duplicatesRemoved == Total(Repeats, old(items))
      ensures report.strippedIds == DisplacedFrom(Dedup(old(items)), 0)
      ensures report.syntheticInserted == Total(Dangling, old(items))
    {
      var duplicatesRemoved := DedupDuplicateToolResults();
      var strippedIds := StripDisplacedToolResults();
      var syntheticInserted := RepairDanglingToolCalls();
      report := Report(duplicatesRemoved, strippedIds, syntheticInserted);
      PassesRepair(old(items));
      RepairedIs(old(items));
      ReportIs(old(items));
    }
  }

  // ------------------------------------------------------------ deduplication

  /** Positions of the results whose id comes back later in the run. */
  ghost function Stale(c: seq<Item>, start: nat, end: nat): set<nat>
    requires start <= end <= |c| && AllResults(c[start..end])
  {
    set p: nat | start <= p < end && ComesBack(c, p, end)
  }

  ghost predicate ComesBack(c: seq<Item>, p: nat, end: nat)
    requires p < end <= |c| && c[p].ToolResult?
  {
    exists q | p < q < end :: c[q].ToolResult? && c[q].callId == c[p].callId
  }

  method FindStale(c: seq<Item>, start: nat, end: nat) returns (stale: set<nat>)
    requires start <= end <= |c| && AllResults(c[start..end])
    ensures stale == Stale(c, start, end)
  {
    var seen: map<string, nat> := map[];
    stale := {};
    var idx := start;
    assert forall k | start <= k < end :: c[k] == c[start..end][k - start];
    while idx < end
      invariant start <= idx <= end
      invariant forall p | start <= p < idx :: c[p].callId in seen
      invariant forall id | id in seen :: start <= seen[id] < idx && c[seen[id]].callId == id
      invariant forall p | start <= p < idx :: p <= seen[c[p].callId]
      invariant forall p | p in stale :: start <= p < idx
      invariant forall p: nat | start <= p < idx :: p in stale <==> p != seen[c[p].callId]
    {
      var id := c[idx].callId;
      if id in seen {
        stale := stale + {seen[id]};
      }
      seen := seen[id := idx];
      idx := idx + 1;
    }
    forall p: nat | start <= p < end ensures p in stale <==> ComesBack(c, p, end) {
      if p in stale {
        assert c[seen[c[p].callId]].callId == c[p].callId;
      }
    }
  }

  /** `c` with its run from `idx` to `end` reduced to the last result of every id. */
  ghost function KeptFrom(c: seq<Item>, idx: nat, end: nat): seq<Item>
    requires idx <= end <= |c| && AllResults(c[idx..end])
  {
    c[..idx] + KeepLast(c[idx..end]) + c[end..]
  }

  lemma NothingKept(c: seq<Item>, end: nat)
    requires end <= |c|
    ensures KeptFrom(c, end, end) == c
  {
  }

  lemma StepSeq(a: seq<Item>, x: Item, last: seq<Item>, tail: seq<Item>)
    ensures a + ([] + last) + tail == RemoveAt(a + [x] + last + tail, |a|)
    ensures a + ([x] + last) + tail == a + [x] + last + tail
  {
  }

  lemma KeptStep(c: seq<Item>, idx: nat, end: nat)
    requires idx < end <= |c| && AllResults(c[idx..end]) && AllResults(c[idx + 1..end])
    requires c[idx].ToolResult?
    requires KeepLast(c[idx..end]) ==
      (if ComesBack(c, idx, end) then [] else [c[idx]]) + KeepLast(c[idx + 1..end])
    ensures KeptFrom(c, idx, end) == (var d := KeptFrom(c, idx + 1, end);
      if ComesBack(c, idx, end) then RemoveAt(d, idx) else d)
  {
    var last, tail := KeepLast(c[idx + 1..end]), c[end..];
    assert c[..idx + 1] == c[..idx] + [c[idx]];
    StepSeq(c[..idx], c[idx], last, tail);
    hide KeepLast, ComesBack, RemoveAt;
  }

  lemma StartScan(c: seq<Item>)
    ensures Joined(c[..0], Dedup(c[0..])) == Dedup(c)
  {
    assert c[0..] == c;
  }

  lemma EndScan(c: seq<Item>, i: nat)
    requires i == |c|
    ensures Joined(c[..i], Dedup(c[i..])) == c
  {
  }

  lemma OneStale(c: seq<Item>, start: nat, end: nat) returns (one: nat)
    requires start <= end <= |c| && AllResults(c[start..end]) && Stale(c, start, end) != {}
    ensures one in Stale(c, start, end) && start <= one < end
  {
    one :| one in Stale(c, start, end);
  }

  lemma StepBackKept(c: seq<Item>, start: nat, idx: nat, end: nat)
    requires start <= idx < end <= |c| && AllResults(c[start..end])
    ensures AllResults(c[idx..end]) && AllResults(c[idx + 1..end])
    ensures |KeptFrom(c, idx + 1, end)| > idx
    ensures KeptFrom(c, idx, end) == (var d := KeptFrom(c, idx + 1, end);
      if idx in Stale(c, start, end) then RemoveAt(d, idx) else d)
  {
    assert forall k | idx <= k < end :: c[k] == c[start..end][k - start];
    StepBack(c, idx, end);
    KeptStep(c, idx, end);
    hide KeepLast, RemoveAt;
  }

  lemma SkipPlain(c: seq<Item>, i: nat)
    requires i < |c| && Calls(c[i]) == []
    ensures Joined(c[..i], Dedup(c[i..])) == Joined(c[..i + 1], Dedup(c[i + 1..]))
  {
    assert c[i..] == [c[i]] + c[i + 1..];
    DedupPlain(c[i], c[i + 1..]);
    hide Dedup;
    assert c[..i + 1] == c[..i] + [c[i]];
  }

  lemma CutBlock(c: seq<Item>, i: nat, end: nat)
    requires i < end <= |c|
    ensures c[i..] == Block(c[i], c[i + 1..end], c[end..])
  {
  }

  /** Going one position back in a run keeps it iff its id does not come back. */
  lemma StepBack(c: seq<Item>, idx: nat, end: nat)
    requires idx < end <= |c| && forall k | idx <= k < end :: c[k].ToolResult?
    ensures KeepLast(c[idx..end]) ==
      (if ComesBack(c, idx, end) then [] else [c[idx]]) + KeepLast(c[idx + 1..end])
    ensures c[..idx + 1] == c[..idx] + [c[idx]]
  {
    var run := c[idx..end];
    assert run[1..] == c[idx + 1..end];
    if HasId(run[1..], c[idx].callId) {
      var k :| 0 <= k < |run[1..]| && run[1..][k].callId == c[idx].callId;
      assert c[idx + 1 + k].callId == c[idx].callId;
    }
    if q :| idx < q < end && c[q].callId == c[idx].callId {
      assert run[1..][q - idx - 1].callId == c[idx].callId;
    }
    assert [] + KeepLast(run[1..]) == KeepLast(run[1..]);
  }

  lemma {:induction false} CleanRun(c: seq<Item>, start: nat, end: nat)
    requires start <= end <= |c| && AllResults(c[start..end])
    requires forall p: nat | start <= p < end :: c[p].ToolResult? && !ComesBack(c, p, end)
    ensures KeepLast(c[start..end]) == c[start..end]
    decreases end - start
  {
    if start < end {
      StepBack(c, start, end);
      assert c[start..end][1..] == c[start + 1..end];
      CleanRun(c, start + 1, end);
      assert c[start..end] == [c[start]] + c[start + 1..end];
    }
  }

  lemma PrefixBlock(c: seq<Item>, i: nat, end: nat, run: seq<Item>, rest: seq<Item>)
    requires i < end <= |c| && run == c[i + 1..end]
    ensures c[..i] + Block(c[i], run, rest) == c[..end] + rest
  {
    assert c[..end] == c[..i] + [c[i]] + run;
  }

  lemma SkipCleanBlock(c: seq<Item>, i: nat, end: nat)
    requires i < end <= |c| && Calls(c[i]) != []
    requires forall k | i + 1 <= k < end :: c[k].ToolResult?
    requires AtBlock(c[end..]) && Stale(c, i + 1, end) == {}
    ensures Joined(c[..i], Dedup(c[i..])) == Joined(c[..end], Dedup(c[end..]))
  {
    var x, run, rest := c[i], c[i + 1..end], c[end..];
    forall p: nat | i + 1 <= p < end ensures !ComesBack(c, p, end) {
      assert p !in Stale(c, i + 1, end);
    }
    CleanRun(c, i + 1, end);
    CutBlock(c, i, end);
    DedupCallBlock(x, run, rest);
    PrefixBlock(c, i, end, run, Dedup(rest));
    hide Dedup, Block, KeepLast, Calls, Stale;
  }

  lemma RescanBlock(before: seq<Item>, after: seq<Item>, i: nat, end: nat)
    requires i < end <= |before| && Calls(before[i]) != []
    requires forall k | i + 1 <= k < end :: before[k].ToolResult?
    requires AtBlock(before[end..])
    requires after == KeptFrom(before, i + 1, end)
    ensures i < |after| && after[..i] == before[..i]
    ensures Dedup(after[i..]) == Dedup(before[i..])
  {
    var x, run, rest := before[i], before[i + 1..end], before[end..];
    var last := KeepLast(run);
    CutBlock(before, i, end);
    DedupCallBlock(x, run, rest);
    KeptBlock(before, i, end);
    hide Dedup, KeptFrom, Block, Calls, AtBlock;
    DedupCallBlock(x, last, rest);
    forall id ensures CountId(last, id) <= 1 {
      CountKeepLast(run, id);
    }
    hide KeepLast;
    KeepLastAll(last);
  }

  lemma KeptBlock(c: seq<Item>, i: nat, end: nat)
    requires i < end <= |c| && AllResults(c[i + 1..end])
    ensures var after := KeptFrom(c, i + 1, end);
      i < |after| && after[..i] == c[..i] && after[i..] == Block(c[i], KeepLast(c[i + 1..end]), c[end..])
  {
    hide KeepLast;
  }

  // ------------------------------------------------------------ backfilling

  ghost predicate InOrder(patches: seq<Patch>, lim: nat) {
    patches == [] ||
    var p := patches[|patches| - 1];
    p.at <= lim && InOrder(patches[..|patches| - 1], p.at)
  }

  /** The first `lim` items of `c` with the patches applied. */
  ghost function Patched(c: seq<Item>, patches: seq<Patch>, lim: nat): seq<Item>
    requires lim <= |c| && InOrder(patches, lim)
    decreases |patches|
  {
    if patches == [] then c[..lim]
    else
      var p := patches[|patches| - 1];
      Patched(c, patches[..|patches| - 1], p.at) + p.results + c[p.at..lim]
  }

  lemma PatchedFurther(c: seq<Item>, patches: seq<Patch>, lim: nat, lim': nat)
    requires lim <= lim' <= |c| && InOrder(patches, lim)
    ensures InOrder(patches, lim') && Patched(c, patches, lim') == Patched(c, patches, lim) + c[lim..lim']
  {
    if patches == [] {
      assert c[..lim'] == c[..lim] + c[lim..lim'];
    } else {
      var p := patches[|patches| - 1];
      Stretched(Patched(c, patches[..|patches| - 1], p.at) + p.results, c, p.at, lim, lim');
    }
  }

  lemma Stretched(front: seq<Item>, c: seq<Item>, at: nat, lim: nat, lim': nat)
    requires at <= lim <= lim' <= |c|
    ensures front + c[at..lim'] == front + c[at..lim] + c[lim..lim']
  {
  }

  lemma PatchedMore(c: seq<Item>, patches: seq<Patch>, at: nat, results: seq<Item>)
    requires at <= |c| && InOrder(patches, at)
    ensures var ps := patches + [Patch(at, results)];
      InOrder(ps, at) && Patched(c, ps, at) == Patched(c, patches, at) + results
  {
    var ps := patches + [Patch(at, results)];
    assert ps[..|ps| - 1] == patches;
    assert Patched(c, patches, at) + results + c[at..at] == Patched(c, patches, at) + results;
  }

  lemma BackfillPlain(x: Item, c: seq<Item>)
    requires Calls(x) == []
    ensures Backfill([x] + c) == [x] + Backfill(c)
  {
    hide Calls;
    assert ([x] + c)[1..] == c;
  }

  lemma WeaveOne(done: seq<Item>, c: seq<Item>, i: nat, rest: seq<Item>)
    requires i < |c|
    ensures done + ([c[i]] + rest) == done + c[i..i + 1] + rest
  {
  }

  lemma ScanPlain(c: seq<Item>, patches: seq<Patch>, i: nat)
    requires i < |c| && InOrder(patches, i) && Calls(c[i]) == []
    ensures InOrder(patches, i + 1)
    ensures Joined(Patched(c, patches, i), Backfill(c[i..])) == Joined(Patched(c, patches, i + 1), Backfill(c[i + 1..]))
  {
    PatchedFurther(c, patches, i, i + 1);
    assert c[i..] == [c[i]] + c[i + 1..];
    BackfillPlain(c[i], c[i + 1..]);
    WeaveOne(Patched(c, patches, i), c, i, Backfill(c[i + 1..]));
    hide Patched, Backfill, InOrder, Calls;
  }

  /** The insertions, found in one scan of the unmodified history. */
  method FindPatches(c: seq<Item>) returns (patches: seq<Patch>)
    ensures InOrder(patches, |c|) && Patched(c, patches, |c|) == Backfill(c)
  {
    patches := [];
    var i := 0;
    NoPatches(c, patches, 0);
    assert c[0..] == c && c[..0] == [];
    FromNothing(Backfill(c));
    hide Patched, InOrder, Synthesize, Backfill, Joined, HasId, Calls, AtBlock;
    while i < |c|
      invariant i <= |c| && InOrder(patches, i)
      invariant Joined(Patched(c, patches, i), Backfill(c[i..])) == Backfill(c)
    {
      if Calls(c[i]) == [] {
        ScanPlain(c, patches, i);
        i := i + 1;
      } else {
        var j := RunEnd(c, i + 1);
        var answered := AnsweredIds(c, i + 1, j);
        var synthetic := Missing(Calls(c[i]), c[i + 1..j], answered);
        ScanBlock(c, patches, i, j, synthetic);
        if synthetic != [] {
          patches := patches + [Patch(j, synthetic)];
        }
        i := j;
      }
    }
    assert c[i..] == [];
    BackfillNothing(Patched(c, patches, i));
  }

  /** End of the run of results that starts at `start`. */
  method RunEnd(c: seq<Item>, start: nat) returns (end: nat)
    requires start <= |c|
    ensures start <= end <= |c| && AtBlock(c[end..]) && AllResults(c[start..end])
    ensures forall k | start <= k < end :: c[k].ToolResult?
  {
    end := start;
    while end < |c| && c[end].ToolResult?
      invariant start <= end <= |c|
      invariant forall k | start <= k < end :: c[k].ToolResult?
    {
      end := end + 1;
    }
  }

  method AnsweredIds(c: seq<Item>, start: nat, end: nat) returns (answered: set<string>)
    requires start <= end <= |c| && AllResults(c[start..end])
    requires forall k | start <= k < end :: c[k].ToolResult?
    ensures forall id :: id in answered <==> HasId(c[start..end], id)
  {
    answered := {};
    var j := start;
    while j < end
      invariant start <= j <= end
      invariant answered == set k | start <= k < j :: c[k].callId
    {
      answered := answered + {c[j].callId};
      j := j + 1;
    }
    AnsweredIsRun(c, start, end, answered);
  }

  /** `has_dangling_tool_calls`: the same scan, up to the first call left unanswered. */
  method HasDanglingToolCalls(c: seq<Item>) returns (r: bool)
    ensures r <==> !Answered(c)
  {
    hide Calls, AtBlock;
    var i := 0;
    while i < |c|
      invariant i <= |c| && forall o | 0 <= o < i :: AnsweredAt(c, o)
    {
      if Calls(c[i]) != [] {
        var j := RunEnd(c, i + 1);
        var answered := AnsweredIds(c, i + 1, j);
        RunSeen(c, i, j);
        var dangling := AnyMissing(Calls(c[i]), c[i + 1..j], answered);
        if dangling {
          assert !AnsweredAt(c, i);
          return true;
        }
        ResultsCallNothing(c, i + 1, j);
        i := j;
      } else {
        i := i + 1;
      }
    }
    r := false;
  }

  method AnyMissing(calls: seq<ToolCall>, ghost run: seq<Item>, answered: set<string>) returns (r: bool)
    requires AllResults(run) && forall id :: id in answered <==> HasId(run, id)
    ensures r <==> !AllAnswered(calls, run)
  {
    hide HasId, CountId;
    var k := 0;
    while k < |calls|
      invariant k <= |calls| && forall j | 0 <= j < k :: CountId(run, calls[j].id) > 0
    {
      CountHas(run, calls[k].id);
      if calls[k].id !in answered {
        return true;
      }
      k := k + 1;
    }
    r := false;
  }

  lemma RunSeen(c: seq<Item>, i: nat, j: nat)
    requires i < j <= |c| && AllResults(c[i + 1..j]) && AtBlock(c[j..])
    ensures RunAt(c, i) == c[i + 1..j]
  {
    assert c[i + 1..] == c[i + 1..j] + c[j..];
    RunLengthIs(c[i + 1..j], c[j..]);
  }

  lemma ResultsCallNothing(c: seq<Item>, i: nat, j: nat)
    requires i <= j <= |c| && forall k | i <= k < j :: c[k].ToolResult?
    ensures forall o | i <= o < j :: AnsweredAt(c, o)
  {
  }

  method Missing(calls: seq<ToolCall>, ghost run: seq<Item>, answered: set<string>) returns (synthetic: seq<Item>)
    requires AllResults(run) && forall id :: id in answered <==> HasId(run, id)
    ensures synthetic == Synthesize(calls, run)
  {
    hide HasId, Synthetic;
    synthetic := [];
    var k := 0;
    assert calls[0..] == calls;
    while k < |calls|
      invariant k <= |calls|
      invariant synthetic + Synthesize(calls[k..], run) == Synthesize(calls, run)
    {
      assert calls[k..][1..] == calls[k + 1..];
      if calls[k].id !in answered {
        synthetic := synthetic + [Synthetic(calls[k])];
      }
      k := k + 1;
    }
    assert calls[k..] == [];
  }

  lemma AnsweredIsRun(c: seq<Item>, start: nat, end: nat, answered: set<string>)
    requires start <= end <= |c| && forall k | start <= k < end :: c[k].ToolResult?
    requires answered == set k | start <= k < end :: c[k].callId
    ensures forall id :: id in answered <==> HasId(c[start..end], id)
  {
    var run := c[start..end];
    forall id ensures id in answered <==> HasId(run, id) {
      if id in answered {
        var k :| start <= k < end && c[k].callId == id;
        assert run[k - start].callId == id;
      }
      if HasId(run, id) {
        var k :| 0 <= k < |run| && run[k].callId == id;
        assert c[start + k].callId == id;
      }
    }
  }

  lemma Weave(done: seq<Item>, c: seq<Item>, i: nat, j: nat, run: seq<Item>, synthetic: seq<Item>, rest: seq<Item>)
    requires i < j <= |c| && run == c[i + 1..j]
    ensures done + Block(c[i], run + synthetic, rest) == done + c[i..j] + synthetic + rest
    ensures synthetic == [] ==> done + c[i..j] + synthetic + rest == done + c[i..j] + rest
  {
    assert c[i..j] == [c[i]] + run;
  }

  lemma {:induction false} ScanBlock(c: seq<Item>, patches: seq<Patch>, i: nat, j: nat, synthetic: seq<Item>)
    requires i < j <= |c| && InOrder(patches, i) && Calls(c[i]) != []
    requires (forall k | i + 1 <= k < j :: c[k].ToolResult?) && AtBlock(c[j..])
    requires synthetic == Synthesize(Calls(c[i]), c[i + 1..j])
    ensures InOrder(patches, j) && InOrder(patches + [Patch(j, synthetic)], j)
    ensures var ps := if synthetic == [] then patches else patches + [Patch(j, synthetic)];
      Joined(Patched(c, patches, i), Backfill(c[i..])) == Joined(Patched(c, ps, j), Backfill(c[j..]))
  {
    var run, rest := c[i + 1..j], c[j..];
    CutBlock(c, i, j);
    BackfillBlock(c[i], run, rest);
    PatchedFurther(c, patches, i, j);
    PatchedMore(c, patches, j, synthetic);
    Weave(Patched(c, patches, i), c, i, j, run, synthetic, Backfill(rest));
    hide Patched, Backfill, InOrder, Calls, Block, Synthesize;
  }

  ghost function Joined(a: seq<Item>, b: seq<Item>): (r: seq<Item>)
    ensures |r| == |a| + |b|
  {
    a + b
  }

  lemma FromNothing(b: seq<Item>)
    ensures Joined([], b) == b
  {
  }

  lemma BackfillNothing(done: seq<Item>)
    ensures Joined(done, Backfill([])) == done
  {
  }

  lemma JoinedAll(c: seq<Item>, all: seq<Item>)
    ensures c == Joined(c[..|c|], []) && Joined(all, []) == all
  {
  }

  lemma NoPatches(c: seq<Item>, patches: seq<Patch>, lim: nat)
    requires patches == [] && lim <= |c|
    ensures InOrder(patches, lim) && Patched(c, patches, lim) == c[..lim]
  {
  }

  lemma LastPatch(c: seq<Item>, patches: seq<Patch>, k: nat, lim: nat, tail: seq<Item>)
    requires k < |patches| && lim <= |c| && InOrder(patches[..k + 1], lim)
    ensures var p := patches[k];
      && p.at <= lim && InOrder(patches[..k], p.at)
      && Joined(Patched(c, patches[..k + 1], lim), tail)
         == Joined(Patched(c, patches[..k], p.at), p.results + c[p.at..lim] + tail)
      && InsertAt(Joined(c[..lim], tail), p.at, p.results)
         == Joined(c[..p.at], p.results + c[p.at..lim] + tail)
  {
    var p := patches[k];
    assert patches[..k + 1][..k] == patches[..k] && patches[..k + 1][k] == patches[k];
    InsertSeq(c, p, lim, tail);
    var done := Patched(c, patches[..k], p.at);
    Reassociate(done, p.results, c[p.at..lim], tail);
    hide InsertAt;
  }

  lemma Reassociate(a: seq<Item>, b: seq<Item>, c: seq<Item>, d: seq<Item>)
    ensures a + b + c + d == a + (b + c + d)
  {
  }

  lemma InsertSeq(c: seq<Item>, p: Patch, lim: nat, tail: seq<Item>)
    requires p.at <= lim <= |c|
    ensures InsertAt(c[..lim] + tail, p.at, p.results) == c[..p.at] + (p.results + c[p.at..lim] + tail)
  {
    assert (c[..lim] + tail)[p.at..] == c[p.at..lim] + tail;
    assert (c[..lim] + tail)[..p.at] == c[..p.at];
  }
}
