/** Preparation of a conversation for the summarizing model call. */
module SummarizationPrep {
  import opened Wrappers
  import opened Conversation

  // ------------------------------------------------------------ flattening passes

  function JoinNames(calls: seq<ToolCall>): string {
    if calls == [] then ""
    else if |calls| == 1 then calls[0].name
    else calls[0].name + ", " + JoinNames(calls[1..])
  }

  /** `[Called tools: …]`, appended to the assistant's text on a line of its own. */
  function Flattened(x: Item): Item
    requires x.Assistant?
  {
    if x.toolCalls == [] then x
    else Assistant(x.content + "\n[Called tools: " + JoinNames(x.toolCalls) + "]", [])
  }

  /** `strip_tool_messages_for_conversation_item`. */
  function StripToolMessages(c: seq<Item>): seq<Item> {
    if c == [] then []
    else if c[0].ToolResult? then StripToolMessages(c[1..])
    else [if c[0].Assistant? then Flattened(c[0]) else c[0]] + StripToolMessages(c[1..])
  }

  /** `strip_reasoning_blocks`. */
  function StripReasoning(c: seq<Item>): seq<Item> {
    if c == [] then []
    else if c[0].Reasoning? then StripReasoning(c[1..])
    else [c[0]] + StripReasoning(c[1..])
  }

  function WithoutImages(parts: seq<ContentPart>): (r: seq<ContentPart>)
    ensures |r| == |parts| && forall i | 0 <= i < |r| :: r[i].Text?
  {
    if parts == [] then []
    else [if parts[0].Image? then Text("[image]") else parts[0]] + WithoutImages(parts[1..])
  }

  /** `strip_images`: one item in, one item out. */
  function StripImages(c: seq<Item>): (r: seq<Item>)
    ensures |r| == |c|
  {
    if c == [] then []
    else [if c[0].User? then User(WithoutImages(c[0].parts), c[0].synthetic) else c[0]] + StripImages(c[1..])
  }

  /** `prepare_conversation_for_summarization`. */
  function PrepareForSummarization(c: seq<Item>): seq<Item> {
    StripImages(StripReasoning(StripToolMessages(c)))
  }

  /** `prepare_conversation_for_segment`. */
  function PrepareForSegment(c: seq<Item>): seq<Item> {
    StripImages(StripReasoning(c))
  }

  // ------------------------------------------------------------ the verbatim preparation

  /** `truncate_trailing_incomplete_tool_call`: drops calling assistants from the end. */
  function DropTrailingCalls(c: seq<Item>): (r: seq<Item>)
    ensures |r| <= |c| && r == c[..|r|]
    ensures r == [] || Calls(r[|r| - 1]) == []
  {
    if c != [] && Calls(c[|c| - 1]) != [] then DropTrailingCalls(c[..|c| - 1]) else c
  }

  method TruncateTrailingIncompleteToolCall(conversation: seq<Item>) returns (r: seq<Item>)
    ensures r == DropTrailingCalls(conversation)
  {
    r := conversation;
    while r != [] && Calls(r[|r| - 1]) != []
      invariant DropTrailingCalls(r) == DropTrailingCalls(conversation)
      decreases |r|
    {
      r := r[..|r| - 1];
    }
  }

  /** `prepare_conversation_for_verbatim_summarization`. */
  function PrepareVerbatim(c: seq<Item>, stripReasoning: bool): seq<Item> {
    DropTrailingCalls(if stripReasoning then StripReasoning(c) else c)
  }

  // ------------------------------------------------------------ pairing

  lemma {:induction false} StripReasoningPairs(c: seq<Item>, ids: set<string>)
    requires PairedFrom(c, ids)
    ensures PairedFrom(StripReasoning(c), ids)
  {
    if c != [] {
      var ids' := if c[0].ToolResult? then ids else CallIds(Calls(c[0]));
      StripReasoningPairs(c[1..], ids');
      var r := StripReasoning(c[1..]);
      if c[0].Reasoning? {
        assert CallIds(Calls(c[0])) == {};
        MoreIds(r, {}, ids);
      } else {
        assert ([c[0]] + r)[1..] == r;
      }
    }
  }

  lemma {:induction false} MoreIds(c: seq<Item>, ids: set<string>, more: set<string>)
    requires ids <= more && PairedFrom(c, ids)
    ensures PairedFrom(c, more)
  {
    if c != [] && c[0].ToolResult? {
      MoreIds(c[1..], ids, more);
    }
  }

  lemma {:induction false} PrefixPairs(c: seq<Item>, n: nat, ids: set<string>)
    requires n <= |c| && PairedFrom(c, ids)
    ensures PairedFrom(c[..n], ids)
  {
    if n > 0 {
      assert c[..n][1..] == c[1..][..n - 1];
      PrefixPairs(c[1..], n - 1, if c[0].ToolResult? then ids else CallIds(Calls(c[0])));
    }
  }

  /** The verbatim preparation keeps every result behind its owner. */
  lemma VerbatimKeepsPairing(c: seq<Item>, stripReasoning: bool)
    requires Paired(c)
    ensures Paired(PrepareVerbatim(c, stripReasoning))
  {
    PairedScan(c);
    StripReasoningPairs(c, {});
    var d := if stripReasoning then StripReasoning(c) else c;
    PrefixPairs(d, |DropTrailingCalls(d)|, {});
    PairedScan(PrepareVerbatim(c, stripReasoning));
  }

  lemma {:induction false} SegmentPairs(c: seq<Item>, ids: set<string>)
    ensures PairedFrom(StripImages(c), ids) <==> PairedFrom(c, ids)
  {
    hide WithoutImages;
    if c != [] {
      SegmentPairs(c[1..], if c[0].ToolResult? then ids else CallIds(Calls(c[0])));
    }
  }

  /** So does the segment preparation. */
  lemma SegmentKeepsPairing(c: seq<Item>)
    requires Paired(c)
    ensures Paired(PrepareForSegment(c))
  {
    PairedScan(c);
    StripReasoningPairs(c, {});
    SegmentPairs(StripReasoning(c), {});
    PairedScan(PrepareForSegment(c));
  }

  // ------------------------------------------------------------ dangling calls at the end

  lemma RunOfPrefix(c: seq<Item>, n: nat, o: nat)
    requires o < n <= |c| && AtBlock(c[n..])
    ensures RunAt(c[..n], o) == RunAt(c, o)
  {
    var run := RunAt(c, o);
    var m := o + 1 + |run|;
    assert c[o + 1..] == run + c[m..];
    assert c[..n][o + 1..] == run + c[m..n];
    assert AtBlock(c[m..n]) by {
      assert m < n ==> c[m..n][0] == c[o + 1..][|run|];
    }
    RunLengthIs(run, c[m..n]);
  }

  /** Some item behind `o` makes no call, so the preparation does not reach `o` from the end. */
  ghost predicate Kept(c: seq<Item>, o: nat) {
    exists i | o < i < |c| :: Calls(c[i]) == []
  }

  /** The preparation drops assistants that call tools, from the end only. It leaves no dangling
      call iff every assistant with an item behind it that makes no call is answered. */
  lemma DropRemovesDangling(c: seq<Item>)
    ensures var r := DropTrailingCalls(c);
      && (Answered(r) <==> forall o | 0 <= o < |c| && Kept(c, o) :: AnsweredAt(c, o))
      && r <= c && forall o | |r| <= o < |c| :: Calls(c[o]) != []
  {
    DroppedAreCalls(c);
    PrefixAnswered(c, |DropTrailingCalls(c)|);
  }

  lemma PrefixAnswered(c: seq<Item>, n: nat)
    requires n <= |c| && (n > 0 ==> Calls(c[n - 1]) == [])
    requires forall o | n <= o < |c| :: Calls(c[o]) != []
    ensures Answered(c[..n]) <==> forall o | 0 <= o < |c| && Kept(c, o) :: AnsweredAt(c, o)
  {
    assert AtBlock(c[n..]);
    forall o | 0 <= o < n ensures AnsweredAt(c[..n], o) <==> AnsweredAt(c, o) {
      RunOfPrefix(c, n, o);
    }
    hide AnsweredAt;
    forall o | 0 <= o < |c| ensures Kept(c, o) ==> o < n {
    }
    forall o | 0 <= o < n ensures Kept(c, o) || o == n - 1 {
      assert Calls(c[n - 1]) == [];
    }
    if n > 0 {
      NoCallsAnswered(c, n - 1);
    }
    hide Kept, Calls;
  }

  lemma NoCallsAnswered(c: seq<Item>, o: nat)
    requires o < |c| && Calls(c[o]) == []
    ensures AnsweredAt(c, o)
  {
  }

  lemma {:induction false} DroppedAreCalls(c: seq<Item>)
    ensures forall o | |DropTrailingCalls(c)| <= o < |c| :: Calls(c[o]) != []
  {
    if c != [] && Calls(c[|c| - 1]) != [] {
      DroppedAreCalls(c[..|c| - 1]);
    }
  }

  /** A turn of which only some calls are answered is not dropped: its call stays dangling. */
  lemma PartlyAnsweredStays()
    ensures exists c: seq<Item> :: Paired(c) && DropTrailingCalls(c) == c && !Answered(c)
  {
    var x := Assistant("", [ToolCall("call_1", "bash", "{}"), ToolCall("call_2", "bash", "{}")]);
    var y := ToolResult("call_1", "done", []);
    var c := [x, y];
    assert Calls(x)[0].id == "call_1" && Calls(x)[1].id == "call_2";
    assert Declares(c[0], "call_1");
    assert Owns(c, 0, 1);
    assert HasOwner(c, 1);
    assert c[1..] == [y] && [y][1..] == [];
    assert RunAt(c, 0) == [y];
    assert CountId([y], "call_2") == 0 by {
      assert "call_1"[5] != "call_2"[5];
    }
    assert Calls(c[0])[1].id == "call_2";
    assert !AnsweredAt(c, 0);
    assert DropTrailingCalls(c) == c;
    assert forall i | 0 <= i < |c| && c[i].ToolResult? :: i == 1;
    assert Paired(c);
    assert !Answered(c);
  }

  // ------------------------------------------------------------ nothing left to pair

  lemma {:induction false} StripToolMessagesShape(c: seq<Item>)
    ensures forall x | x in StripToolMessages(c) :: !x.ToolResult? && Calls(x) == []
    ensures forall x | x in StripToolMessages(c) && x.Reasoning? :: x in c
  {
    if c != [] {
      StripToolMessagesShape(c[1..]);
      hide JoinNames;
      assert c == [c[0]] + c[1..];
    }
  }

  lemma {:induction false} StripReasoningShape(c: seq<Item>)
    ensures forall x :: x in StripReasoning(c) <==> x in c && !x.Reasoning?
  {
    if c != [] {
      StripReasoningShape(c[1..]);
      assert c == [c[0]] + c[1..];
    }
  }

  lemma {:induction false} StripImagesShape(c: seq<Item>)
    ensures forall i | 0 <= i < |c| :: var y := StripImages(c)[i];
      if c[i].User? then y == User(WithoutImages(c[i].parts), c[i].synthetic) else y == c[i]
  {
    hide WithoutImages;
    if c != [] {
      StripImagesShape(c[1..]);
      assert forall i | 1 <= i < |c| :: c[i] == c[1..][i - 1] && StripImages(c)[i] == StripImages(c[1..])[i - 1];
    }
  }

  /** The summarizer sees no result, no call, no reasoning and no image, so it has nothing to
      pair and no signed block over changed text. */
  lemma SummarizerSeesPlainText(c: seq<Item>)
    ensures forall i | 0 <= i < |PrepareForSummarization(c)| :: var x := PrepareForSummarization(c)[i];
      && !x.ToolResult? && !x.Reasoning? && Calls(x) == []
      && (x.User? ==> forall k | 0 <= k < |x.parts| :: x.parts[k].Text?)
  {
    var a := StripToolMessages(c);
    var b := StripReasoning(a);
    StripToolMessagesShape(c);
    StripReasoningShape(a);
    StripImagesShape(b);
    hide StripToolMessages, StripReasoning, StripImages, WithoutImages;
    forall i | 0 <= i < |b| ensures !b[i].ToolResult? && !b[i].Reasoning? && Calls(b[i]) == [] {
      assert b[i] in b;
    }
  }

  // ------------------------------------------------------------ what survives

  lemma {:induction false} StripToolMessagesConcat(a: seq<Item>, b: seq<Item>)
    ensures StripToolMessages(a + b) == StripToolMessages(a) + StripToolMessages(b)
  {
    if a == [] {
      assert a + b == b;
    } else {
      assert (a + b)[1..] == a[1..] + b;
      StripToolMessagesConcat(a[1..], b);
      hide JoinNames;
    }
  }

  lemma {:induction false} StripReasoningConcat(a: seq<Item>, b: seq<Item>)
    ensures StripReasoning(a + b) == StripReasoning(a) + StripReasoning(b)
  {
    if a == [] {
      assert a + b == b;
    } else {
      assert (a + b)[1..] == a[1..] + b;
      StripReasoningConcat(a[1..], b);
    }
  }

  lemma {:induction false} StripImagesConcat(a: seq<Item>, b: seq<Item>)
    ensures StripImages(a + b) == StripImages(a) + StripImages(b)
  {
    hide WithoutImages;
    if a == [] {
      assert a + b == b;
    } else {
      assert (a + b)[1..] == a[1..] + b;
      StripImagesConcat(a[1..], b);
    }
  }

  /** Every item is prepared on its own, and the order stays. */
  lemma PrepareConcat(a: seq<Item>, b: seq<Item>)
    ensures PrepareForSummarization(a + b) == PrepareForSummarization(a) + PrepareForSummarization(b)
    ensures PrepareForSegment(a + b) == PrepareForSegment(a) + PrepareForSegment(b)
  {
    StripToolMessagesConcat(a, b);
    StripReasoningConcat(StripToolMessages(a), StripToolMessages(b));
    StripImagesConcat(StripReasoning(StripToolMessages(a)), StripReasoning(StripToolMessages(b)));
    StripReasoningConcat(a, b);
    StripImagesConcat(StripReasoning(a), StripReasoning(b));
    hide StripToolMessages, StripReasoning, StripImages;
  }

  /** A user item with a placeholder text for each image. */
  ghost predicate ImagesReplaced(x: Item, y: Item) {
    && x.User? && y.User? && y.synthetic == x.synthetic && |y.parts| == |x.parts|
    && forall k | 0 <= k < |x.parts| ::
         y.parts[k] == (if x.parts[k].Image? then Text("[image]") else x.parts[k])
  }

  lemma {:induction false} ImagesAreReplaced(parts: seq<ContentPart>)
    ensures forall k | 0 <= k < |parts| ::
      WithoutImages(parts)[k] == if parts[k].Image? then Text("[image]") else parts[k]
  {
    if parts != [] {
      ImagesAreReplaced(parts[1..]);
      assert forall k | 1 <= k < |parts| ::
        parts[k] == parts[1..][k - 1] && WithoutImages(parts)[k] == WithoutImages(parts[1..])[k - 1];
    }
  }

  /** What one item becomes in the summarizer's prompt. */
  ghost predicate PreparedItem(x: Item, r: seq<Item>) {
    match x
    case ToolResult(_, _, _) => r == []
    case Reasoning(_) => r == []
    case User(_, _) => |r| == 1 && ImagesReplaced(x, r[0])
    case Assistant(content, calls) =>
      r == [if calls == [] then x else Assistant(content + ("\n[Called tools: " + JoinNames(calls) + "]"), [])]
    case _ => r == [x]
  }

  /** System, user and assistant items survive, an assistant with its text and the names of
      its calls; results and reasoning vanish. */
  lemma PreparedOne(x: Item)
    ensures PreparedItem(x, PrepareForSummarization([x]))
  {
    if x.User? {
      ImagesAreReplaced(x.parts);
    }
    hide WithoutImages, JoinNames;
    assert [x][1..] == [];
    StripsNothing();
    if x.Assistant? && x.toolCalls != [] {
      CalledTools(x);
    }
  }

  lemma StripsNothing()
    ensures StripToolMessages([]) == [] && StripReasoning([]) == [] && StripImages([]) == []
  {
  }

  lemma CalledTools(x: Item)
    requires x.Assistant? && x.toolCalls != []
    ensures Flattened(x) == Assistant(x.content + ("\n[Called tools: " + JoinNames(x.toolCalls) + "]"), [])
  {
    hide JoinNames;
    var a, b, c, d := x.content, "\n[Called tools: ", JoinNames(x.toolCalls), "]";
    assert a + b + c + d == a + (b + c + d);
  }

  /** The segment store keeps calls and results as they are. */
  lemma SegmentOne(x: Item)
    ensures var r := PrepareForSegment([x]);
      if x.Reasoning? then r == [] else if x.User? then |r| == 1 && ImagesReplaced(x, r[0]) else r == [x]
  {
    if x.User? {
      ImagesAreReplaced(x.parts);
    }
    hide WithoutImages;
    assert [x][1..] == [];
    StripsNothing();
  }

  /** The verbatim preparation drops calling assistants from the end and, only when asked to,
      every reasoning item. */
  lemma VerbatimKeeps(c: seq<Item>)
    ensures PrepareVerbatim(c, false) <= c
    ensures PrepareVerbatim(c, true) <= StripReasoning(c)
    ensures forall i | |PrepareVerbatim(c, false)| <= i < |c| :: Calls(c[i]) != []
    ensures forall i | |PrepareVerbatim(c, true)| <= i < |StripReasoning(c)| :: Calls(StripReasoning(c)[i]) != []
    ensures forall x | x in PrepareVerbatim(c, true) :: !x.Reasoning?
  {
    DroppedAreCalls(c);
    DroppedAreCalls(StripReasoning(c));
    StripReasoningShape(c);
    hide StripReasoning, DropTrailingCalls;
  }

  lemma ReasoningOne(x: Item)
    ensures StripReasoning([x]) == if x.Reasoning? then [] else [x]
  {
    assert [x][1..] == [];
  }

  /** The names of several calls, in order and separated by commas. */
  lemma {:induction false} NamesConcat(a: seq<ToolCall>, b: seq<ToolCall>)
    requires a != [] && b != []
    ensures JoinNames(a + b) == JoinNames(a) + ", " + JoinNames(b)
  {
    assert (a + b)[1..] == a[1..] + b;
    if |a| == 1 {
      assert (a + b)[1..] == b;
    } else {
      NamesConcat(a[1..], b);
    }
  }

  lemma NameOfOne(call: ToolCall)
    ensures JoinNames([call]) == call.name
  {
  }
}
