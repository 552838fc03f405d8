/** What deduplication and backfilling each achieve on their own, and when they change nothing. */
module HistoryPassLaws {
  import opened Wrappers
  import opened Conversation
  import opened HistoryRepair

  // ------------------------------------------------------------ item by item, block by block

  lemma PlainFirst(x: Item, rest: seq<Item>)
    requires Calls(x) == []
    ensures Answered([x] + rest) <==> Answered(rest)
    ensures AnswersUnique([x] + rest) <==> AnswersUnique(rest)
  {
    var c := [x] + rest;
    assert c[1..] == rest;
    hide CountId, RunAt;
    Shifted(c, 1);
  }

  /** The predicates hold at an item iff they hold at its place behind `n` other items. */
  lemma Shifted(c: seq<Item>, n: nat)
    requires n <= |c|
    ensures forall o | 0 <= o < |c[n..]| ::
      (AnsweredAt(c[n..], o) <==> AnsweredAt(c, n + o)) && (AnswersUniqueAt(c[n..], o) <==> AnswersUniqueAt(c, n + o))
    ensures Answered(c) <==> Answered(c[n..]) && forall o | 0 <= o < n :: AnsweredAt(c, o)
    ensures AnswersUnique(c) <==> AnswersUnique(c[n..]) && forall o | 0 <= o < n :: AnswersUniqueAt(c, o)
  {
    forall o | 0 <= o < |c[n..]|
      ensures (AnsweredAt(c[n..], o) <==> AnsweredAt(c, n + o)) && (AnswersUniqueAt(c[n..], o) <==> AnswersUniqueAt(c, n + o))
    {
      RunAtDrop(c, n, o);
    }
    hide AnsweredAt, AnswersUniqueAt;
    if Answered(c[n..]) {
      forall o | n <= o < |c| ensures AnsweredAt(c, o) {
        assert AnsweredAt(c[n..], o - n);
      }
    }
    if AnswersUnique(c[n..]) {
      forall o | n <= o < |c| ensures AnswersUniqueAt(c, o) {
        assert AnswersUniqueAt(c[n..], o - n);
      }
    }
  }

  lemma ByBlock(x: Item, run: seq<Item>, rest: seq<Item>)
    requires AllResults(run) && AtBlock(rest)
    ensures var c := Block(x, run, rest);
      && (Answered(c) <==> AllAnswered(Calls(x), run) && Answered(rest))
      && (AnswersUnique(c) <==> (Calls(x) != [] ==> UniqueIds(run)) && AnswersUnique(rest))
  {
    var c, n := Block(x, run, rest), 1 + |run|;
    BlockParts(x, run, rest);
    assert c[n..] == rest;
    forall o | 1 <= o < n ensures AnsweredAt(c, o) && AnswersUniqueAt(c, o) {
      assert c[o] == run[o - 1];
    }
    assert AnsweredAt(c, 0) <==> AllAnswered(Calls(x), run);
    assert AnswersUniqueAt(c, 0) <==> (Calls(x) != [] ==> UniqueIds(run));
    hide AnsweredAt, AnswersUniqueAt, Answered, AnswersUnique, Block, UniqueIds, AllAnswered;
    Shifted(c, n);
  }

  // ------------------------------------------------------------ deduplication

  /** After deduplication no id has two results in the run behind a calling assistant. */
  lemma {:induction false} DedupLeavesUnique(c: seq<Item>)
    ensures AnswersUnique(Dedup(c))
    decreases |c|
  {
    if c != [] {
      if Calls(c[0]) == [] {
        DedupLeavesUnique(c[1..]);
        PlainFirst(c[0], Dedup(c[1..]));
      } else {
        var x, run, rest := c[0], RunOf(c), RestOf(c);
        DedupLeavesUnique(rest);
        DedupStartsBlock(rest);
        forall id ensures CountId(KeepLast(run), id) <= 1 {
          CountKeepLast(run, id);
        }
        hide AnswersUnique, KeepLast, Block, CountId;
        assert UniqueIds(KeepLast(run));
        ByBlock(x, KeepLast(run), Dedup(rest));
      }
    }
  }

  /** Deduplication changes a history iff some such run has two results for one id. */
  lemma {:induction false} DedupUnchangedIff(c: seq<Item>)
    ensures Dedup(c) == c <==> AnswersUnique(c)
    decreases |c|
  {
    if Dedup(c) == c {
      DedupLeavesUnique(c);
    }
    if AnswersUnique(c) && c != [] {
      if Calls(c[0]) == [] {
        assert c == [c[0]] + c[1..];
        PlainFirst(c[0], c[1..]);
        DedupUnchangedIff(c[1..]);
      } else {
        var x, run, rest := c[0], RunOf(c), RestOf(c);
        SplitsIntoBlock(c);
        ByBlock(x, run, rest);
        hide AnswersUnique, Block, CountId;
        DedupUnchangedIff(rest);
        KeepLastAll(run);
      }
    }
  }

  // ------------------------------------------------------------ backfilling

  lemma RunBackfilled(calls: seq<ToolCall>, run: seq<Item>)
    requires AllResults(run)
    ensures AllAnswered(calls, run + Synthesize(calls, run))
  {
    forall k | 0 <= k < |calls| ensures CountId(run + Synthesize(calls, run), calls[k].id) > 0 {
      var id := calls[k].id;
      CountConcat(run, Synthesize(calls, run), id);
      CountSynthesize(calls, run, id);
      CountHas(run, id);
      MultiplicityHas(calls, id);
      hide CountId, Synthesize, Multiplicity, HasId;
    }
  }

  lemma BackfillStartsBlock(c: seq<Item>)
    requires AtBlock(c)
    ensures AtBlock(Backfill(c))
  {
  }

  /** After the backfill no call is left dangling. */
  lemma {:induction false} BackfillAnswers(c: seq<Item>)
    ensures Answered(Backfill(c))
    decreases |c|
  {
    if c != [] {
      if Calls(c[0]) == [] {
        BackfillAnswers(c[1..]);
        PlainFirst(c[0], Backfill(c[1..]));
      } else {
        var x, run, rest := c[0], RunOf(c), RestOf(c);
        BackfillAnswers(rest);
        BackfillStartsBlock(rest);
        RunBackfilled(Calls(x), run);
        hide Answered, Synthesize, Block, CountId;
        ByBlock(x, run + Synthesize(Calls(x), run), Backfill(rest));
      }
    }
  }

  /** The backfill changes a history iff a call is left dangling in it, which is what
      `has_dangling_tool_calls` promises its callers. */
  lemma {:induction false} BackfillUnchangedIff(c: seq<Item>)
    ensures Backfill(c) == c <==> Answered(c)
    decreases |c|
  {
    if Backfill(c) == c {
      BackfillAnswers(c);
    }
    if Answered(c) && c != [] {
      if Calls(c[0]) == [] {
        assert c == [c[0]] + c[1..];
        PlainFirst(c[0], c[1..]);
        BackfillUnchangedIff(c[1..]);
      } else {
        var x, run, rest := c[0], RunOf(c), RestOf(c);
        SplitsIntoBlock(c);
        ByBlock(x, run, rest);
        forall k | 0 <= k < |Calls(x)| ensures HasId(run, Calls(x)[k].id) {
          CountHas(run, Calls(x)[k].id);
        }
        hide Answered, Block, CountId, HasId;
        BackfillUnchangedIff(rest);
        SynthesizeNone(Calls(x), run);
        assert run + [] == run;
      }
    }
  }
}
