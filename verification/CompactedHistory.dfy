/** Extraction of the recent messages, assembly of the compacted history, and its validation
    against the lenient provider rule: a result needs its call somewhere before it. */
module CompactedHistory {
  import opened Wrappers
  import opened Conversation
  import opened UserQuery
  import opened CompactSummary
  import opened HistoryRepair

  // ------------------------------------------------------------ recent messages

  const OMITTED := "Tool call omitted..."

  /** Assistants as they are, results with a placeholder body, nothing else. */
  function Abridge(c: seq<Item>): seq<Item> {
    if c == [] then []
    else
      match c[0]
      case Assistant(_, _) => [c[0]] + Abridge(c[1..])
      case ToolResult(id, _, _) => [ToolResult(id, OMITTED, [])] + Abridge(c[1..])
      case _ => Abridge(c[1..])
  }

  /** Index right after the last real user turn, 0 if there is none. */
  function AfterLastReal(c: seq<Item>): (n: nat)
    ensures n <= |c|
  {
    if c == [] then 0
    else if IsRealUserTurn(c[|c| - 1]) then |c|
    else AfterLastReal(c[..|c| - 1])
  }

  /** Index right after the last user item of any kind, 0 if there is none. */
  function AfterLastUser(c: seq<Item>): (n: nat)
    ensures n <= |c|
  {
    if c == [] then 0
    else if c[|c| - 1].User? then |c|
    else AfterLastUser(c[..|c| - 1])
  }

  /** `extract_messages_since_last_real_user`. */
  function SinceLastReal(c: seq<Item>): seq<Item> {
    Abridge(c[AfterLastReal(c)..])
  }

  /** `extract_messages_since_last_user`. */
  function SinceLastUser(c: seq<Item>): seq<Item> {
    Abridge(c[AfterLastUser(c)..])
  }

  /** `extract_last_real_user_query`. */
  function LastRealQuery(c: seq<Item>): Option<string> {
    if c == [] then None
    else if IsRealUserTurn(c[|c| - 1]) then Some(QueryOf(c[|c| - 1]))
    else LastRealQuery(c[..|c| - 1])
  }

  lemma {:induction false} AbridgeConcat(a: seq<Item>, b: seq<Item>)
    ensures Abridge(a + b) == Abridge(a) + Abridge(b)
  {
    if a == [] {
      assert a + b == b;
    } else {
      assert (a + b)[1..] == a[1..] + b;
      AbridgeConcat(a[1..], b);
    }
  }

  lemma {:induction false} AbridgeTwice(c: seq<Item>)
    ensures Abridge(Abridge(c)) == Abridge(c)
  {
    if c != [] {
      AbridgeTwice(c[1..]);
      var y := if c[0].ToolResult? then ToolResult(c[0].callId, OMITTED, []) else c[0];
      assert ([y] + Abridge(c[1..]))[1..] == Abridge(c[1..]);
    }
  }

  lemma {:induction false} AbridgeSize(c: seq<Item>)
    ensures |Abridge(c)| <= |c|
  {
    if c != [] {
      AbridgeSize(c[1..]);
    }
  }

  /** An abridged list holds assistants and placeholder results only. */
  lemma {:induction false} AbridgedItems(c: seq<Item>)
    requires Abridge(c) == c
    ensures forall i | 0 <= i < |c| :: c[i].Assistant? || c[i].ToolResult?
  {
    if c != [] {
      AbridgeSize(c[1..]);
      assert Abridge(c)[1..] == Abridge(c[1..]);
      AbridgedItems(c[1..]);
      assert forall i | 1 <= i < |c| :: c[i] == c[1..][i - 1];
    }
  }

  /** The boundary is right behind the last real turn. */
  lemma {:induction false} AfterLastRealIs(c: seq<Item>)
    ensures var n := AfterLastReal(c);
      && (forall i | n <= i < |c| :: !IsRealUserTurn(c[i]))
      && (n > 0 ==> IsRealUserTurn(c[n - 1]))
    ensures LastRealQuery(c) ==
      if AfterLastReal(c) == 0 then None else Some(QueryOf(c[AfterLastReal(c) - 1]))
  {
    hide IsRealUserTurn, QueryOf;
    if c != [] && !IsRealUserTurn(c[|c| - 1]) {
      AfterLastRealIs(c[..|c| - 1]);
    }
  }

  /** The raw boundary is right behind the last user item. */
  lemma {:induction false} AfterLastUserIs(c: seq<Item>)
    ensures var n := AfterLastUser(c);
      && (forall i | n <= i < |c| :: !c[i].User?)
      && (n > 0 ==> c[n - 1].User?)
  {
    if c != [] && !c[|c| - 1].User? {
      AfterLastUserIs(c[..|c| - 1]);
    }
  }

  lemma {:induction false} UserAfterReal(c: seq<Item>)
    ensures AfterLastReal(c) <= AfterLastUser(c)
  {
    if c != [] {
      UserAfterReal(c[..|c| - 1]);
    }
  }

  /** The raw-user extraction is a suffix of the real-user one: it can only lose messages. */
  lemma RawIsSuffix(c: seq<Item>)
    ensures exists k | 0 <= k <= |SinceLastReal(c)| :: SinceLastUser(c) == SinceLastReal(c)[k..]
  {
    UserAfterReal(c);
    var n, m := AfterLastReal(c), AfterLastUser(c);
    assert c[n..] == c[n..m] + c[m..];
    AbridgeConcat(c[n..m], c[m..]);
    var k := |Abridge(c[n..m])|;
    assert SinceLastUser(c) == SinceLastReal(c)[k..];
  }

  // ------------------------------------------------------------ assembly

  datatype State = State(recent: seq<Item>, lastQuery: Option<string>)

  /** The part of `CompactionStateContext::build` that the assembly reads. */
  function StateOf(c: seq<Item>): State {
    State(SinceLastReal(c), LastRealQuery(c))
  }

  datatype Input = Input(
    systemMessage: Item,
    prefix: string,
    agentsMd: Option<string>,
    state: State,
    summary: string,
    hint: Option<string>,
    reminder: Option<string>)

  /** The sentence in front of every summary; any text will do for the results below. */
  const CONTINUATION_PREAMBLE: string

  /** `format_compact_summary_content`. */
  function SummaryContent(summary: string): string {
    CONTINUATION_PREAMBLE + FormatCompactSummary(summary)
  }

  function Synthetic1(text: string, reason: SyntheticReason): seq<Item> {
    [User([Text(text)], Some(reason))]
  }

  function Optional(text: Option<string>, reason: SyntheticReason): seq<Item> {
    match text
    case None => []
    case Some(t) => Synthetic1(t, reason)
  }

  function QueryItem(q: Option<string>): seq<Item> {
    match q
    case None => []
    case Some(t) => [UserText(WrapUserQuery(t))]
  }

  function Head(input: Input): seq<Item> {
    [input.systemMessage]
    + Synthetic1(input.prefix, CompactionMeta)
    + Optional(input.agentsMd, ProjectInstructions)
  }

  function Tail(input: Input): seq<Item> {
    Synthetic1(SummaryContent(input.summary) + input.hint.GetOr(""), CompactionMeta)
    + Optional(input.reminder, SystemReminder)
  }

  /** `build_compacted_history`, with the recent messages before the summary. */
  function BuildCompactedHistory(input: Input): seq<Item> {
    Head(input) + QueryItem(input.state.lastQuery) + input.state.recent + Tail(input)
  }

  /** What a compacted history holds, item by item: the system item, the prefix, the project
      instructions, the wrapped query, the recent messages, the cleaned summary with the hint
      behind it, and the reminder. */
  lemma BuiltItems(input: Input)
    ensures var built := BuildCompactedHistory(input);
      var agents := if input.agentsMd.Some? then 1 else 0;
      var query := if input.state.lastQuery.Some? then 1 else 0;
      var from := 2 + agents + query;
      var at := from + |input.state.recent|;
      && |built| == at + 1 + (if input.reminder.Some? then 1 else 0)
      && built[0] == input.systemMessage
      && built[1] == User([Text(input.prefix)], Some(CompactionMeta))
      && (input.agentsMd.Some? ==> built[2] == User([Text(input.agentsMd.value)], Some(ProjectInstructions)))
      && (input.state.lastQuery.Some? ==>
            (var q := input.state.lastQuery.value;
             built[2 + agents] == User([Text("<user_query>" + ("\n" + q + "\n") + "</user_query>")], None)))
      && built[from..at] == input.state.recent
      && built[at] == User([Text(CONTINUATION_PREAMBLE + FormatCompactSummary(input.summary)
                                 + (if input.hint.Some? then input.hint.value else ""))], Some(CompactionMeta))
      && (input.reminder.Some? ==> built[at + 1] == User([Text(input.reminder.value)], Some(SystemReminder)))
  {
    hide FormatCompactSummary;
  }

  /** No item is a call, a result or a real user turn. */
  ghost predicate Inert(c: seq<Item>) {
    forall i | 0 <= i < |c| :: !c[i].Assistant? && !c[i].ToolResult? && !IsRealUserTurn(c[i])
  }

  lemma HeadIsInert(input: Input)
    requires input.systemMessage.System?
    ensures Inert(Head(input)) && Inert(Tail(input))
  {
    hide SummaryContent;
  }

  lemma {:induction false} AbridgeInert(c: seq<Item>)
    requires forall i | 0 <= i < |c| :: !c[i].Assistant? && !c[i].ToolResult?
    ensures Abridge(c) == []
  {
    if c != [] {
      AbridgeInert(c[1..]);
    }
  }

  /** Items that are no real turns do not move the boundary. */
  lemma {:induction false} LastRealConcat(a: seq<Item>, b: seq<Item>)
    requires forall i | 0 <= i < |b| :: !IsRealUserTurn(b[i])
    ensures AfterLastReal(a + b) == AfterLastReal(a) && LastRealQuery(a + b) == LastRealQuery(a)
  {
    hide IsRealUserTurn, QueryOf;
    if b == [] {
      assert a + b == a;
    } else {
      assert (a + b)[..|a + b| - 1] == a + b[..|b| - 1];
      LastRealConcat(a, b[..|b| - 1]);
    }
  }

  lemma {:induction false} NoneReal(c: seq<Item>)
    requires forall i | 0 <= i < |c| :: !IsRealUserTurn(c[i])
    ensures AfterLastReal(c) == 0 && LastRealQuery(c) == None
  {
    hide IsRealUserTurn, QueryOf;
    AfterLastRealIs(c);
  }

  // ------------------------------------------------------------ compaction is a fixed point

  lemma BoundaryOfBuilt(input: Input)
    requires input.systemMessage.System? && Abridge(input.state.recent) == input.state.recent
    ensures var c := BuildCompactedHistory(input);
      var front := Head(input) + QueryItem(input.state.lastQuery);
      && AfterLastReal(c) == AfterLastReal(front) && LastRealQuery(c) == LastRealQuery(front)
      && c == front + (input.state.recent + Tail(input))
  {
    hide SummaryContent;
    var front := Head(input) + QueryItem(input.state.lastQuery);
    var back := input.state.recent + Tail(input);
    HeadIsInert(input);
    AbridgedItems(input.state.recent);
    assert BuildCompactedHistory(input) == front + back;
    hide Head, Tail, IsRealUserTurn, QueryItem, Abridge;
    assert forall i | 0 <= i < |back| :: !IsRealUserTurn(back[i]) by {
      forall i | 0 <= i < |back| ensures !IsRealUserTurn(back[i]) {
        if i < |input.state.recent| {
          assert back[i] == input.state.recent[i];
          NotReal(back[i]);
        } else {
          assert back[i] == Tail(input)[i - |input.state.recent|];
        }
      }
    }
    LastRealConcat(front, back);
  }

  lemma NotReal(x: Item)
    requires !x.User?
    ensures !IsRealUserTurn(x)
  {
  }

  lemma FrontHasNoCalls(input: Input)
    requires input.systemMessage.System?
    ensures var front := Head(input) + QueryItem(input.state.lastQuery);
      forall i | 0 <= i < |front| :: !front[i].Assistant? && !front[i].ToolResult?
  {
    hide SummaryContent, IsRealUserTurn;
    HeadIsInert(input);
    var front := Head(input) + QueryItem(input.state.lastQuery);
    forall i | 0 <= i < |front| ensures !front[i].Assistant? && !front[i].ToolResult? {
      assert i >= |Head(input)| ==> front[i] == QueryItem(input.state.lastQuery)[i - |Head(input)|];
      assert i < |Head(input)| ==> front[i] == Head(input)[i];
    }
  }

  lemma AbridgeFront(input: Input, n: nat)
    requires input.systemMessage.System?
    requires n <= |Head(input) + QueryItem(input.state.lastQuery)|
    ensures Abridge((Head(input) + QueryItem(input.state.lastQuery))[n..]) == []
  {
    hide SummaryContent;
    FrontHasNoCalls(input);
    hide Head, Abridge, QueryItem;
    AbridgeInert((Head(input) + QueryItem(input.state.lastQuery))[n..]);
  }

  lemma AbridgeBack(input: Input)
    requires input.systemMessage.System?
    ensures Abridge(input.state.recent + Tail(input)) == Abridge(input.state.recent)
  {
    hide SummaryContent;
    HeadIsInert(input);
    hide Tail, Abridge, IsRealUserTurn;
    AbridgeConcat(input.state.recent, Tail(input));
    AbridgeInert(Tail(input));
    assert Abridge(input.state.recent) + [] == Abridge(input.state.recent);
  }

  /** Extracting the recent messages from a compacted history returns exactly the ones it was
      built from, iff those are abridged, as every extraction's are. */
  lemma RecentIsFixedPoint(input: Input)
    requires input.systemMessage.System?
    ensures SinceLastReal(BuildCompactedHistory(input)) == input.state.recent
       <==> Abridge(input.state.recent) == input.state.recent
  {
    hide SummaryContent;
    var c := BuildCompactedHistory(input);
    AbridgeTwice(c[AfterLastReal(c)..]);
    if Abridge(input.state.recent) == input.state.recent {
      var front := Head(input) + QueryItem(input.state.lastQuery);
      BoundaryOfBuilt(input);
      AbridgeFront(input, AfterLastReal(c));
      AbridgeBack(input);
      hide Head, QueryItem, Tail, Abridge, BuildCompactedHistory, AfterLastReal;
      AbridgeSplit(c, front, input.state.recent + Tail(input), AfterLastReal(c));
    }
  }

  lemma AbridgeSplit(c: seq<Item>, front: seq<Item>, back: seq<Item>, n: nat)
    requires c == front + back && n <= |front| && Abridge(front[n..]) == []
    ensures Abridge(c[n..]) == Abridge(back)
  {
    hide Abridge;
    assert c[n..] == front[n..] + back;
    AbridgeConcat(front[n..], back);
    assert [] + Abridge(back) == Abridge(back);
  }

  lemma {:induction false} QueryOfFront(input: Input)
    requires input.systemMessage.System?
    ensures LastRealQuery(Head(input) + QueryItem(input.state.lastQuery)) ==
      match input.state.lastQuery
      case None => None
      case Some(q) =>
        var x := ExtractUserQuery(WrapUserQuery(q));
        if IsSyntheticQuery(x) then None else Some(x)
  {
    hide SummaryContent;
    HeadIsInert(input);
    hide Head, IsSyntheticQuery, ExtractUserQuery, WrapUserQuery;
    NoneReal(Head(input));
    match input.state.lastQuery
    case None =>
      assert Head(input) + [] == Head(input);
    case Some(q) =>
      UserTextQuery(WrapUserQuery(q));
      var x := UserText(WrapUserQuery(q));
      hide UserText, IsRealUserTurn;
      var c := Head(input) + [x];
      assert c[..|c| - 1] == Head(input) && c[|c| - 1] == x;
  }

  /** The last real query survives compaction iff it is extractable and not synthetic itself. */
  lemma QuerySurvivesIff(input: Input, q: string)
    requires input.systemMessage.System? && Abridge(input.state.recent) == input.state.recent
    requires input.state.lastQuery == Some(q)
    ensures LastRealQuery(BuildCompactedHistory(input)) == Some(q) <==> Extractable(q) && !IsSyntheticQuery(q)
  {
    hide SummaryContent;
    BoundaryOfBuilt(input);
    QueryOfFront(input);
    WrapRoundTrip(q);
    hide Head, QueryItem, BuildCompactedHistory, Abridge, LastRealQuery, Extractable, ExtractUserQuery, WrapUserQuery, IsSyntheticQuery;
  }

  /** Compacting a compacted history sees the same state again. */
  lemma StateIsFixedPoint(c: seq<Item>, input: Input)
    requires input.systemMessage.System? && input.state == StateOf(c)
    requires match LastRealQuery(c) case None => true case Some(q) => Extractable(q) && !IsSyntheticQuery(q)
    ensures StateOf(BuildCompactedHistory(input)) == StateOf(c)
  {
    hide SummaryContent;
    hide Extractable, IsSyntheticQuery;
    AbridgeTwice(c[AfterLastReal(c)..]);
    RecentIsFixedPoint(input);
    match LastRealQuery(c) {
      case None =>
        BoundaryOfBuilt(input);
        QueryOfFront(input);
      case Some(q) =>
        QuerySurvivesIff(input, q);
    }
    hide Head, QueryItem, BuildCompactedHistory, Abridge, LastRealQuery, AfterLastReal;
  }

  // ------------------------------------------------------------ validation and sanitizing

  /** Some assistant before position `n` declares `id`. */
  ghost predicate DeclaredBefore(c: seq<Item>, n: nat, id: string)
    requires n <= |c|
  {
    exists j | 0 <= j < n :: Declares(c[j], id)
  }

  ghost predicate Orphan(c: seq<Item>, i: nat)
    requires i < |c|
  {
    c[i].ToolResult? && !DeclaredBefore(c, i, c[i].callId)
  }

  /** The ids of the orphans among the first `n` items, in order. */
  ghost function OrphanIds(c: seq<Item>, n: nat): seq<string>
    requires n <= |c|
  {
    if n == 0 then []
    else OrphanIds(c, n - 1) + if Orphan(c, n - 1) then [c[n - 1].callId] else []
  }

  /** The first `n` items without the orphans. */
  ghost function WithoutOrphans(c: seq<Item>, n: nat): seq<Item>
    requires n <= |c|
  {
    if n == 0 then []
    else WithoutOrphans(c, n - 1) + if Orphan(c, n - 1) then [] else [c[n - 1]]
  }

  lemma DeclaresIs(x: Item, id: string)
    ensures Declares(x, id) <==> id in CallIds(Calls(x))
  {
  }

  /** The seen-id set of both scans. */
  ghost predicate SeenBefore(c: seq<Item>, n: nat, seen: set<string>)
    requires n <= |c|
  {
    forall id :: id in seen <==> DeclaredBefore(c, n, id)
  }

  lemma SeenStep(c: seq<Item>, n: nat, seen: set<string>)
    requires n < |c| && SeenBefore(c, n, seen)
    ensures SeenBefore(c, n + 1, seen + CallIds(Calls(c[n])))
  {
    hide Calls, CallIds, Declares;
    forall id ensures id in seen + CallIds(Calls(c[n])) <==> DeclaredBefore(c, n + 1, id) {
      DeclaresIs(c[n], id);
      assert id in seen <==> DeclaredBefore(c, n, id);
    }
  }

  lemma NoCallsNoIds(x: Item)
    requires !x.Assistant?
    ensures CallIds(Calls(x)) == {}
  {
  }

  /** `validate_compacted_history`: the orphan ids, in order. */
  method ValidateCompactedHistory(items: seq<Item>) returns (invalid: seq<string>)
    ensures invalid == OrphanIds(items, |items|)
  {
    hide CallIds, Declares, DeclaredBefore;
    invalid := [];
    var seen: set<string> := {};
    var i := 0;
    NothingSeen(items);
    while i < |items|
      invariant i <= |items| && SeenBefore(items, i, seen)
      invariant invalid == OrphanIds(items, i)
    {
      SeenStep(items, i, seen);
      if items[i].Assistant? {
        seen := seen + CallIds(items[i].toolCalls);
      } else {
        NoCallsNoIds(items[i]);
        assert seen + {} == seen;
        if items[i].ToolResult? && items[i].callId !in seen {
          invalid := invalid + [items[i].callId];
        }
      }
      i := i + 1;
    }
  }

  lemma NothingSeen(c: seq<Item>)
    ensures SeenBefore(c, 0, {})
  {
  }

  /** `sanitize_compacted_history`: drops exactly the orphans and reports their ids. */
  method SanitizeCompactedHistory(items: seq<Item>) returns (kept: seq<Item>, stripped: seq<string>)
    ensures kept == WithoutOrphans(items, |items|)
    ensures stripped == OrphanIds(items, |items|)
  {
    hide CallIds, Declares, DeclaredBefore;
    kept, stripped := [], [];
    var seen: set<string> := {};
    var i := 0;
    NothingSeen(items);
    while i < |items|
      invariant i <= |items| && SeenBefore(items, i, seen)
      invariant kept == WithoutOrphans(items, i) && stripped == OrphanIds(items, i)
    {
      SeenStep(items, i, seen);
      if items[i].Assistant? {
        seen := seen + CallIds(items[i].toolCalls);
        kept := kept + [items[i]];
      } else {
        NoCallsNoIds(items[i]);
        assert seen + {} == seen;
        if items[i].ToolResult? && items[i].callId !in seen {
          stripped := stripped + [items[i].callId];
        } else {
          kept := kept + [items[i]];
        }
      }
      i := i + 1;
    }
  }

  /** Dropping orphans loses no declaration. */
  lemma {:induction false} WithoutOrphansDeclares(c: seq<Item>, n: nat, id: string)
    requires n <= |c|
    ensures var r := WithoutOrphans(c, n); DeclaredBefore(r, |r|, id) <==> DeclaredBefore(c, n, id)
  {
    if n > 0 {
      WithoutOrphansDeclares(c, n - 1, id);
      var r, r' := WithoutOrphans(c, n - 1), WithoutOrphans(c, n);
      assert forall j | 0 <= j < |r| :: r'[j] == r[j];
      assert Orphan(c, n - 1) ==> !Declares(c[n - 1], id);
      hide Orphan, Declares;
      if DeclaredBefore(c, n, id) && !DeclaredBefore(c, n - 1, id) {
        assert Declares(r'[|r|], id);
      }
      if DeclaredBefore(r', |r'|, id) && !DeclaredBefore(r, |r|, id) {
        assert Declares(c[n - 1], id);
      }
      if DeclaredBefore(r, |r|, id) {
        var j :| 0 <= j < |r| && Declares(r[j], id);
        assert Declares(r'[j], id);
      }
    }
  }

  lemma {:induction false} OrphanIdsPrefix(c: seq<Item>, d: seq<Item>, n: nat)
    requires n <= |c| && n <= |d| && c[..n] == d[..n]
    ensures OrphanIds(c, n) == OrphanIds(d, n)
  {
    if n > 0 {
      assert c[..n - 1] == c[..n][..n - 1] && d[..n - 1] == d[..n][..n - 1];
      OrphanIdsPrefix(c, d, n - 1);
      assert forall k | 0 <= k < n :: c[k] == c[..n][k] && d[k] == d[..n][k];
    }
  }

  /** The sanitized history validates. */
  lemma {:induction false} SanitizedIsValid(c: seq<Item>, n: nat)
    requires n <= |c|
    ensures var r := WithoutOrphans(c, n); OrphanIds(r, |r|) == []
  {
    hide Declares, DeclaredBefore;
    if n > 0 {
      SanitizedIsValid(c, n - 1);
      var r := WithoutOrphans(c, n - 1);
      assert r + [] == r;
      if !Orphan(c, n - 1) {
        var x := c[n - 1];
        var r' := r + [x];
        assert r'[..|r|] == r[..|r|];
        OrphanIdsPrefix(r', r, |r|);
        if x.ToolResult? {
          WithoutOrphansDeclares(c, n - 1, x.callId);
          DeclaredPrefix(r', r, x.callId);
        }
      }
    }
  }

  /** The histories that sanitizing leaves alone are exactly the valid ones. */
  lemma {:induction false} UnchangedIffValid(c: seq<Item>, n: nat)
    requires n <= |c|
    ensures |WithoutOrphans(c, n)| + |OrphanIds(c, n)| == n
    ensures WithoutOrphans(c, n) == c[..n] <==> OrphanIds(c, n) == []
  {
    if n > 0 {
      UnchangedIffValid(c, n - 1);
      assert c[..n] == c[..n - 1] + [c[n - 1]];
    }
  }

  lemma SanitizeIsIdempotent(c: seq<Item>)
    ensures var r := WithoutOrphans(c, |c|); WithoutOrphans(r, |r|) == r
  {
    var r := WithoutOrphans(c, |c|);
    SanitizedIsValid(c, |c|);
    UnchangedIffValid(r, |r|);
    assert r[..|r|] == r;
  }

  lemma {:induction false} NoOrphans(c: seq<Item>, n: nat)
    requires n <= |c| && forall i | 0 <= i < n :: !Orphan(c, i)
    ensures OrphanIds(c, n) == []
  {
    hide Orphan;
    if n > 0 {
      NoOrphans(c, n - 1);
    }
  }

  /** The strict invariant implies the lenient one. */
  lemma PairedIsValid(c: seq<Item>)
    requires Paired(c)
    ensures OrphanIds(c, |c|) == []
  {
    forall i | 0 <= i < |c| ensures !Orphan(c, i) {
      if c[i].ToolResult? {
        assert HasOwner(c, i);
      }
    }
    NoOrphans(c, |c|);
  }

  lemma {:induction false} StrippedIsPaired(c: seq<Item>, ids: set<string>)
    ensures PairedFrom(StripFrom(c, ids), ids)
  {
    if c != [] {
      var ids' := if c[0].ToolResult? then ids else CallIds(Calls(c[0]));
      StrippedIsPaired(c[1..], ids');
      var r := StripFrom(c[1..], ids');
      if c[0].ToolResult? && c[0].callId !in ids {
        assert StripFrom(c, ids) == r;
      } else {
        PairedCons(c[0], r, ids);
        assert StripFrom(c, ids) == [c[0]] + r;
      }
    }
  }

  lemma PairedCons(x: Item, r: seq<Item>, ids: set<string>)
    requires if x.ToolResult? then x.callId in ids && PairedFrom(r, ids) else PairedFrom(r, CallIds(Calls(x)))
    ensures PairedFrom([x] + r, ids)
  {
    assert ([x] + r)[1..] == r;
  }

  /** After the strict strip the sanitizer finds nothing to strip. */
  lemma StripThenSanitize(c: seq<Item>)
    ensures var r := StripFrom(c, {}); Paired(r) && WithoutOrphans(r, |r|) == r && OrphanIds(r, |r|) == []
  {
    var r := StripFrom(c, {});
    StrippedIsPaired(c, {});
    PairedScan(r);
    PairedIsValid(r);
    UnchangedIffValid(r, |r|);
    assert r[..|r|] == r;
  }

  // ------------------------------------------------------------ orphans of a compacted history

  /** Inserting items that neither call nor answer changes no orphan. */
  lemma {:induction false} DeclaredInRest(a: seq<Item>, b: seq<Item>, n: nat, id: string)
    requires n <= |b| && forall i | 0 <= i < |a| :: !a[i].Assistant?
    ensures DeclaredBefore(a + b, |a| + n, id) <==> DeclaredBefore(b, n, id)
  {
    hide Declares;
    if DeclaredBefore(b, n, id) {
      var j :| 0 <= j < n && Declares(b[j], id);
      assert (a + b)[|a| + j] == b[j];
    }
    if DeclaredBefore(a + b, |a| + n, id) {
      var j :| 0 <= j < |a| + n && Declares((a + b)[j], id);
      if j < |a| {
        NonAssistantDeclares(a[j], id);
        assert false;
      }
      assert (a + b)[j] == b[j - |a|];
    }
  }

  lemma NonAssistantDeclares(x: Item, id: string)
    requires !x.Assistant?
    ensures !Declares(x, id)
  {
  }

  lemma {:induction false} OrphansInRest(a: seq<Item>, b: seq<Item>, n: nat)
    requires n <= |b| && forall i | 0 <= i < |a| :: !a[i].Assistant? && !a[i].ToolResult?
    ensures OrphanIds(a + b, |a| + n) == OrphanIds(b, n)
  {
    hide DeclaredBefore;
    if n == 0 {
      NoOrphans(a + b, |a|);
    } else {
      OrphansInRest(a, b, n - 1);
      assert (a + b)[|a| + n - 1] == b[n - 1];
      if b[n - 1].ToolResult? {
        DeclaredInRest(a, b, n - 1, b[n - 1].callId);
      }
    }
  }

  lemma {:induction false} OrphansBehind(b: seq<Item>, d: seq<Item>, n: nat)
    requires n <= |d| && forall i | 0 <= i < |d| :: !d[i].ToolResult?
    ensures OrphanIds(b + d, |b| + n) == OrphanIds(b, |b|)
  {
    if n == 0 {
      assert (b + d)[..|b|] == b[..|b|];
      OrphanIdsPrefix(b + d, b, |b|);
    } else {
      OrphansBehind(b, d, n - 1);
      assert (b + d)[|b| + n - 1] == d[n - 1];
      assert OrphanIds(b, |b|) + [] == OrphanIds(b, |b|);
    }
  }

  /** Together with `AbridgeConcat`: what an extraction keeps of each item, in order. */
  lemma AbridgeOne(x: Item)
    ensures Abridge([x]) == (match x
      case Assistant(_, _) => [x]
      case ToolResult(id, _, _) => [ToolResult(id, "Tool call omitted...", [])]
      case _ => [])
  {
    assert [x][1..] == [];
  }

  lemma AbridgeLast(c: seq<Item>, n: nat)
    requires n < |c|
    ensures Abridge(c[..n + 1]) == Abridge(c[..n]) + Abridge([c[n]])
  {
    hide Abridge;
    AbridgeConcat(c[..n], [c[n]]);
    assert c[..n + 1] == c[..n] + [c[n]];
  }

  lemma {:induction false} AbridgeDeclares(c: seq<Item>, n: nat, id: string)
    requires n <= |c|
    ensures var r := Abridge(c[..n]); DeclaredBefore(r, |r|, id) <==> DeclaredBefore(c, n, id)
  {
    hide Declares, Abridge;
    if n == 0 {
      AbridgeNothing();
    } else {
      AbridgeDeclares(c, n - 1, id);
      AbridgeLast(c, n - 1);
      AbridgeOne(c[n - 1]);
      var r, y, r' := Abridge(c[..n - 1]), Abridge([c[n - 1]]), Abridge(c[..n]);
      assert forall j | 0 <= j < |r| :: r'[j] == r[j];
      if !c[n - 1].Assistant? {
        NonAssistantDeclares(c[n - 1], id);
        if y != [] {
          NonAssistantDeclares(y[0], id);
        }
      }
      if DeclaredBefore(c, n, id) {
        var j :| 0 <= j < n && Declares(c[j], id);
        if j == n - 1 {
          assert Declares(r'[|r|], id);
        } else {
          assert DeclaredBefore(c, n - 1, id);
          var k :| 0 <= k < |r| && Declares(r[k], id);
          assert Declares(r'[k], id);
        }
      }
      if DeclaredBefore(r', |r'|, id) {
        var j :| 0 <= j < |r'| && Declares(r'[j], id);
        if j < |r| {
          assert Declares(r[j], id);
        } else {
          assert r'[j] == y[0];
          assert Declares(c[n - 1], id);
        }
      }
    }
  }

  lemma AbridgeNothing()
    ensures forall c: seq<Item> :: Abridge(c[..0]) == []
  {
  }

  /** Abridging keeps the orphans. */
  lemma {:induction false} AbridgeOrphans(c: seq<Item>, n: nat)
    requires n <= |c|
    ensures var r := Abridge(c[..n]); OrphanIds(r, |r|) == OrphanIds(c, n)
  {
    hide DeclaredBefore, Abridge;
    if n == 0 {
      AbridgeNothing();
    } else {
      AbridgeOrphans(c, n - 1);
      AbridgeLast(c, n - 1);
      AbridgeOne(c[n - 1]);
      var r, y, r' := Abridge(c[..n - 1]), Abridge([c[n - 1]]), Abridge(c[..n]);
      assert r'[..|r|] == r[..|r|];
      OrphanIdsPrefix(r', r, |r|);
      if y != [] {
        assert r'[|r|] == y[0] && |r'| == |r| + 1;
        if y[0].ToolResult? {
          AbridgeDeclares(c, n - 1, y[0].callId);
          DeclaredPrefix(r', r, y[0].callId);
        }
      }
      assert OrphanIds(c, n - 1) + [] == OrphanIds(c, n - 1);
    }
  }

  lemma DeclaredPrefix(c: seq<Item>, r: seq<Item>, id: string)
    requires |r| <= |c| && c[..|r|] == r[..|r|]
    ensures DeclaredBefore(c, |r|, id) <==> DeclaredBefore(r, |r|, id)
  {
    hide Declares;
    assert forall j | 0 <= j < |r| :: c[..|r|][j] == r[..|r|][j];
  }

  /** The orphans of the history built from a conversation are exactly the results behind its
      last real user turn whose call is not behind that turn too, however many synthetic user
      items are interleaved. */
  lemma BuiltOrphans(c: seq<Item>, input: Input)
    requires input.systemMessage.System? && input.state.recent == SinceLastReal(c)
    ensures var built := BuildCompactedHistory(input); var tail := c[AfterLastReal(c)..];
      OrphanIds(built, |built|) == OrphanIds(tail, |tail|)
  {
    hide SummaryContent;
    var tail := c[AfterLastReal(c)..];
    var front := Head(input) + QueryItem(input.state.lastQuery);
    var recent, back := input.state.recent, Tail(input);
    HeadIsInert(input);
    assert BuildCompactedHistory(input) == front + (recent + back);
    assert tail[..|tail|] == tail;
    AbridgeOrphans(tail, |tail|);
    FrontHasNoCalls(input);
    hide Abridge, Head, Tail, QueryItem, BuildCompactedHistory, IsRealUserTurn, OrphanIds, AfterLastReal;
    OrphansInRest(front, recent + back, |recent + back|);
    OrphansBehind(recent, back, |back|);
  }

  /** Result `i` has a declaring assistant before it with no real user turn in between. */
  ghost predicate DeclaredInTurn(c: seq<Item>, i: nat)
    requires i < |c| && c[i].ToolResult?
  {
    exists j | 0 <= j < i :: Declares(c[j], c[i].callId) && forall k | j < k < i :: !IsRealUserTurn(c[k])
  }

  lemma CallersAreNotReal(x: Item, id: string)
    requires Declares(x, id)
    ensures !IsRealUserTurn(x)
  {
  }

  lemma InTail(c: seq<Item>, i: nat)
    requires AfterLastReal(c) <= i < |c| && c[i].ToolResult? && DeclaredInTurn(c, i)
    ensures var n := AfterLastReal(c); !Orphan(c[n..], i - n)
  {
    hide IsRealUserTurn, Declares, AfterLastReal, LastRealQuery, QueryOf;
    var n := AfterLastReal(c);
    var tail := c[n..];
    AfterLastRealIs(c);
    var j :| 0 <= j < i && Declares(c[j], c[i].callId) && forall k | j < k < i :: !IsRealUserTurn(c[k]);
    CallersAreNotReal(c[j], c[i].callId);
    assert n > 0 ==> n - 1 < i && IsRealUserTurn(c[n - 1]);
    assert n <= j;
    assert tail[i - n] == c[i] && tail[j - n] == c[j];
    assert DeclaredBefore(tail, i - n, c[i].callId);
  }

  /** A conversation in which no real user turn stands between a call and its result builds a
      history that validates. */
  lemma BuiltHistoryValidates(c: seq<Item>, input: Input)
    requires input.systemMessage.System? && input.state.recent == SinceLastReal(c)
    requires forall i | 0 <= i < |c| && c[i].ToolResult? :: DeclaredInTurn(c, i)
    ensures var built := BuildCompactedHistory(input); OrphanIds(built, |built|) == []
  {
    var n := AfterLastReal(c);
    var tail := c[n..];
    forall i | 0 <= i < |tail| ensures !Orphan(tail, i) {
      if tail[i].ToolResult? {
        assert c[n + i] == tail[i];
        InTail(c, n + i);
      }
    }
    hide Orphan, DeclaredInTurn, AfterLastReal, BuildCompactedHistory, SinceLastReal;
    NoOrphans(tail, |tail|);
    BuiltOrphans(c, input);
  }

  /** The messages since the last real user turn are valid, those since the last user item not. */
  ghost predicate RawSplits(c: seq<Item>) {
    var tail, raw := c[AfterLastReal(c)..], SinceLastUser(c);
    OrphanIds(tail, |tail|) == [] && OrphanIds(raw, |raw|) != []
  }

  /** The raw-user extraction would split a pair that a synthetic user item interrupts. */
  lemma RawExtractionSplitsPairs()
    ensures exists c: seq<Item> :: RawSplits(c)
  {
    var x := Assistant("", [ToolCall("1", "", "")]);
    var note := User([], Some(SystemReminder));
    var y := ToolResult("1", "", []);
    OneCall(x, "1");
    hide *;
    SplitPair(x, note, y);
  }

  lemma OneCall(x: Item, id: string)
    requires x.Assistant? && |x.toolCalls| == 1 && x.toolCalls[0].id == id
    ensures Declares(x, id)
  {
    assert Calls(x)[0].id == id;
  }

  /** For any call and result with a synthetic user item between them. */
  lemma SplitPair(x: Item, note: Item, y: Item)
    requires x.Assistant? && note.User? && note.synthetic.Some? && y.ToolResult? && Declares(x, y.callId)
    ensures RawSplits([x, note, y])
  {
    var c := [x, note, y];
    assert !IsRealUserTurn(x) && !IsRealUserTurn(note) && !IsRealUserTurn(y);
    hide IsRealUserTurn, Declares;
    NoneReal(c);
    assert c[0..] == c;
    assert !Orphan(c, 0) && !Orphan(c, 1) && !Orphan(c, 2);
    NoOrphans(c, 3);
    SplitOff(x, note, y);
    hide AfterLastReal, OrphanIds, SinceLastUser, Orphan;
    SingleOrphan(ToolResult(y.callId, OMITTED, []));
  }

  lemma SplitOff(x: Item, note: Item, y: Item)
    requires x.Assistant? && note.User? && y.ToolResult?
    ensures SinceLastUser([x, note, y]) == [ToolResult(y.callId, OMITTED, [])]
  {
    var c := [x, note, y];
    assert c[..2] == [x, note] && c[..2][1] == note;
    assert AfterLastUser(c) == 2;
    assert c[2..] == [y];
    AbridgeOne(y);
  }

  lemma SingleOrphan(r: Item)
    requires r.ToolResult?
    ensures OrphanIds([r], 1) != []
  {
    assert Orphan([r], 0);
    assert OrphanIds([r], 0) == [];
  }
}
