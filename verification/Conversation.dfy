/** Conversation items and the tool-pairing invariants that providers enforce. */
module Conversation {
  import opened Wrappers

  datatype ToolCall = ToolCall(id: string, name: string, arguments: string)

  datatype ContentPart = Text(text: string) | Image(url: string)

  datatype SyntheticReason = CompactionMeta | SystemReminder | ProjectInstructions | OtherReason(tag: string)

  datatype Item =
    | System(content: string)
    | User(parts: seq<ContentPart>, synthetic: Option<SyntheticReason>)
    | Assistant(content: string, toolCalls: seq<ToolCall>)
    | ToolResult(callId: string, content: string, images: seq<ContentPart>)
    | BackendToolCall(summary: string)
    | Reasoning(text: string)

  /** The tool calls an item makes; only assistants make any. */
  function Calls(x: Item): seq<ToolCall> {
    if x.Assistant? then x.toolCalls else []
  }

  function CallIds(calls: seq<ToolCall>): set<string> {
    set k | 0 <= k < |calls| :: calls[k].id
  }

  ghost predicate Declares(x: Item, id: string) {
    exists k | 0 <= k < |Calls(x)| :: Calls(x)[k].id == id
  }

  // ------------------------------------------------------------ the run behind an item

  /** Number of tool results at the start of `c`. */
  function RunLength(c: seq<Item>): (n: nat)
    ensures n <= |c|
    ensures forall i | 0 <= i < n :: c[i].ToolResult?
    ensures n < |c| ==> !c[n].ToolResult?
  {
    if c != [] && c[0].ToolResult? then 1 + RunLength(c[1..]) else 0
  }

  ghost predicate AllResults(c: seq<Item>) {
    forall i | 0 <= i < |c| :: c[i].ToolResult?
  }

  /** `c` starts a block: it is empty or its first item is not a tool result. */
  ghost predicate AtBlock(c: seq<Item>) {
    c == [] || !c[0].ToolResult?
  }

  lemma {:induction false} RunLengthIs(run: seq<Item>, rest: seq<Item>)
    requires AllResults(run) && AtBlock(rest)
    ensures RunLength(run + rest) == |run|
  {
    if run == [] {
      assert run + rest == rest;
    } else {
      assert (run + rest)[1..] == run[1..] + rest;
      RunLengthIs(run[1..], rest);
    }
  }

  // ------------------------------------------------------------ the provider invariant

  /** Result `i` lies in the contiguous run of results right behind its owner `o`, an
      assistant that declares its call id. */
  ghost predicate Owns(c: seq<Item>, o: nat, i: nat) {
    && o < i < |c| && c[i].ToolResult?
    && Declares(c[o], c[i].callId)
    && forall k | o < k < i :: c[k].ToolResult?
  }

  /** Every tool result lies in the run right behind its owner. */
  ghost predicate Paired(c: seq<Item>) {
    forall i | 0 <= i < |c| && c[i].ToolResult? :: HasOwner(c, i)
  }

  ghost predicate HasOwner(c: seq<Item>, i: nat) {
    exists o: nat | o < i :: Owns(c, o, i)
  }

  /** The same invariant as a left-to-right scan; `ids` are the ids that the current run
      may answer. */
  predicate PairedFrom(c: seq<Item>, ids: set<string>) {
    c == []
    || (if c[0].ToolResult? then c[0].callId in ids && PairedFrom(c[1..], ids)
        else PairedFrom(c[1..], CallIds(Calls(c[0]))))
  }

  /** Result `i` may be answered by `ids` when it lies in the leading run. */
  ghost predicate Leads(c: seq<Item>, i: nat, ids: set<string>) {
    i < |c| && c[i].ToolResult? && c[i].callId in ids && forall k | 0 <= k < i :: c[k].ToolResult?
  }

  lemma {:induction false} PairedFromIs(c: seq<Item>, ids: set<string>)
    ensures PairedFrom(c, ids) <==>
      forall i | 0 <= i < |c| && c[i].ToolResult? :: Leads(c, i, ids) || HasOwner(c, i)
  {
    if c != [] {
      var ids' := if c[0].ToolResult? then ids else CallIds(Calls(c[0]));
      PairedFromIs(c[1..], ids');
      forall i | 1 <= i < |c| && c[i].ToolResult?
        ensures Leads(c, i, ids) || HasOwner(c, i) <==> Leads(c[1..], i - 1, ids') || HasOwner(c[1..], i - 1)
      {
        ShiftOwner(c, i, ids);
      }
      if PairedFrom(c, ids) {
        forall i | 0 <= i < |c| && c[i].ToolResult?
          ensures Leads(c, i, ids) || HasOwner(c, i)
        {
          if i > 0 {
            assert c[1..][i - 1] == c[i];
          }
        }
      }
      if forall i | 0 <= i < |c| && c[i].ToolResult? :: Leads(c, i, ids) || HasOwner(c, i) {
        assert c[0].ToolResult? ==> Leads(c, 0, ids);
        forall j | 0 <= j < |c[1..]| && c[1..][j].ToolResult?
          ensures Leads(c[1..], j, ids') || HasOwner(c[1..], j)
        {
          assert c[1..][j] == c[j + 1];
        }
      }
    }
  }

  lemma ShiftOwner(c: seq<Item>, i: nat, ids: set<string>)
    requires 1 <= i < |c| && c[i].ToolResult?
    ensures var ids' := if c[0].ToolResult? then ids else CallIds(Calls(c[0]));
      Leads(c, i, ids) || HasOwner(c, i) <==> Leads(c[1..], i - 1, ids') || HasOwner(c[1..], i - 1)
  {
    var ids' := if c[0].ToolResult? then ids else CallIds(Calls(c[0]));
    assert forall k | 0 <= k < |c[1..]| :: c[1..][k] == c[k + 1];
    if Leads(c, i, ids) {
      assert c[0].ToolResult?;
      assert Leads(c[1..], i - 1, ids');
    }
    if o: nat :| o < i && Owns(c, o, i) {
      if o == 0 {
        assert Leads(c[1..], i - 1, ids');
      } else {
        assert Owns(c[1..], o - 1, i - 1);
      }
    }
    var d, j := c[1..], i - 1;
    if o: nat :| o < j && Owns(d, o, j) {
      assert Owns(c, o + 1, i);
    }
    if Leads(c[1..], i - 1, ids') {
      if c[0].ToolResult? {
        assert Leads(c, i, ids);
      } else {
        assert Owns(c, 0, i);
      }
    }
  }

  /** The scan decides the invariant. */
  lemma PairedScan(c: seq<Item>)
    ensures PairedFrom(c, {}) <==> Paired(c)
  {
    PairedFromIs(c, {});
  }

  // ------------------------------------------------------------ blocks

  /** The run of results right behind item `o`. */
  ghost function RunAt(c: seq<Item>, o: nat): (run: seq<Item>)
    requires o < |c|
    ensures AllResults(run)
  {
    c[o + 1..o + 1 + RunLength(c[o + 1..])]
  }

  /** A conversation that starts a block is an item, the run behind it, and further blocks. */
  function RunOf(c: seq<Item>): (run: seq<Item>)
    requires c != []
    ensures AllResults(run) && |run| < |c|
  {
    c[1..1 + RunLength(c[1..])]
  }

  function RestOf(c: seq<Item>): (rest: seq<Item>)
    requires c != []
    ensures AtBlock(rest) && |rest| < |c|
  {
    c[1 + RunLength(c[1..])..]
  }

  function Block(x: Item, run: seq<Item>, rest: seq<Item>): (c: seq<Item>)
    ensures |c| == 1 + |run| + |rest| && c[0] == x
  {
    [x] + run + rest
  }

  lemma SplitsIntoBlock(c: seq<Item>)
    requires c != []
    ensures c == Block(c[0], RunOf(c), RestOf(c))
  {
  }

  lemma BlockParts(x: Item, run: seq<Item>, rest: seq<Item>)
    requires AllResults(run) && AtBlock(rest)
    ensures var c := Block(x, run, rest);
      c[0] == x && RunOf(c) == run && RestOf(c) == rest && RunAt(c, 0) == run
  {
    assert Block(x, run, rest)[1..] == run + rest;
    RunLengthIs(run, rest);
  }

  lemma RunAtDrop(c: seq<Item>, n: nat, o: nat)
    requires n + o < |c|
    ensures c[n..][o] == c[n + o] && RunAt(c[n..], o) == RunAt(c, n + o)
  {
    assert c[n..][o + 1..] == c[n + o + 1..];
  }

  // ------------------------------------------------------------ complete histories

  function CountId(run: seq<Item>, id: string): nat
    requires AllResults(run)
  {
    if run == [] then 0 else (if run[0].callId == id then 1 else 0) + CountId(run[1..], id)
  }

  /** Every call of item `o` has exactly one result in the run right behind it. */
  ghost predicate AnsweredOnceAt(c: seq<Item>, o: nat)
    requires o < |c|
  {
    forall k | 0 <= k < |Calls(c[o])| :: CountId(RunAt(c, o), Calls(c[o])[k].id) == 1
  }

  ghost predicate AnsweredOnce(c: seq<Item>) {
    forall o | 0 <= o < |c| :: AnsweredOnceAt(c, o)
  }

  ghost predicate AllAnswered(calls: seq<ToolCall>, run: seq<Item>)
    requires AllResults(run)
  {
    forall k | 0 <= k < |calls| :: CountId(run, calls[k].id) > 0
  }

  ghost predicate UniqueIds(run: seq<Item>)
    requires AllResults(run)
  {
    forall id :: CountId(run, id) <= 1
  }

  /** Every call of item `o` has a result in the run right behind it. */
  ghost predicate AnsweredAt(c: seq<Item>, o: nat)
    requires o < |c|
  {
    AllAnswered(Calls(c[o]), RunAt(c, o))
  }

  /** No call of any assistant is left dangling. */
  ghost predicate Answered(c: seq<Item>) {
    forall o | 0 <= o < |c| :: AnsweredAt(c, o)
  }

  /** No id has two results in the run behind an assistant that calls tools. */
  ghost predicate AnswersUniqueAt(c: seq<Item>, o: nat)
    requires o < |c|
  {
    Calls(c[o]) != [] ==> UniqueIds(RunAt(c, o))
  }

  ghost predicate AnswersUnique(c: seq<Item>) {
    forall o | 0 <= o < |c| :: AnswersUniqueAt(c, o)
  }

  /** What strict providers accept: no stray result, and one result per call. */
  ghost predicate Complete(c: seq<Item>) {
    Paired(c) && AnsweredOnce(c)
  }

  ghost predicate AllDeclared(run: seq<Item>, ids: set<string>)
    requires AllResults(run)
  {
    forall i | 0 <= i < |run| :: run[i].callId in ids
  }

  /** A run that a complete history may have behind these calls. */
  ghost predicate CompleteRun(calls: seq<ToolCall>, run: seq<Item>)
    requires AllResults(run)
  {
    && AllDeclared(run, CallIds(calls))
    && forall k | 0 <= k < |calls| :: CountId(run, calls[k].id) == 1
  }

  lemma {:induction false} PairedRun(run: seq<Item>, rest: seq<Item>, ids: set<string>)
    requires AllResults(run)
    ensures PairedFrom(run + rest, ids) <==> AllDeclared(run, ids) && PairedFrom(rest, ids)
  {
    if run == [] {
      assert run + rest == rest;
    } else {
      assert (run + rest)[1..] == run[1..] + rest;
      PairedRun(run[1..], rest, ids);
      assert AllDeclared(run, ids) ==> AllDeclared(run[1..], ids);
      assert forall i | 1 <= i < |run| :: run[i] == run[1..][i - 1];
    }
  }

  /** The invariant holds of a conversation iff it holds block by block. */
  lemma PairedBlock(x: Item, run: seq<Item>, rest: seq<Item>, ids: set<string>)
    requires !x.ToolResult? && AllResults(run) && AtBlock(rest)
    ensures PairedFrom(Block(x, run, rest), ids) <==>
      AllDeclared(run, CallIds(Calls(x))) && PairedFrom(rest, {})
  {
    assert Block(x, run, rest)[1..] == run + rest;
    PairedRun(run, rest, CallIds(Calls(x)));
  }

  lemma AnsweredOnceBlock(x: Item, run: seq<Item>, rest: seq<Item>)
    requires AllResults(run) && AtBlock(rest)
    ensures var c := Block(x, run, rest);
      AnsweredOnce(c) <==> (forall k | 0 <= k < |Calls(x)| :: CountId(run, Calls(x)[k].id) == 1) && AnsweredOnce(rest)
  {
    var c := Block(x, run, rest);
    var n := 1 + |run|;
    BlockParts(x, run, rest);
    assert c[n..] == rest;
    forall o | 0 <= o < |rest| ensures AnsweredOnceAt(rest, o) <==> AnsweredOnceAt(c, n + o) {
      RunAtDrop(c, n, o);
    }
    forall o | 1 <= o < n ensures AnsweredOnceAt(c, o) {
      assert c[o] == run[o - 1];
    }
    if AnsweredOnce(c) {
      assert AnsweredOnceAt(c, 0);
    }
    if AnsweredOnce(rest) {
      forall o | n <= o < |c| ensures AnsweredOnceAt(c, o) <==> AnsweredOnceAt(rest, o - n) {
        RunAtDrop(c, n, o - n);
      }
    }
  }

  /** A conversation is complete iff every block is. */
  lemma CompleteBlock(x: Item, run: seq<Item>, rest: seq<Item>)
    requires !x.ToolResult? && AllResults(run) && AtBlock(rest)
    ensures Complete(Block(x, run, rest)) <==> CompleteRun(Calls(x), run) && Complete(rest)
  {
    PairedScan(Block(x, run, rest));
    PairedScan(rest);
    PairedBlock(x, run, rest, {});
    AnsweredOnceBlock(x, run, rest);
    hide Block, Paired, AnsweredOnce, PairedFrom;
  }

  lemma PairedStartsBlock(c: seq<Item>)
    requires Paired(c)
    ensures AtBlock(c)
  {
  }
}
