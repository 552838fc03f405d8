/** Billing ledgers: running totals and per-model rows under saturating arithmetic. */
module UsageLedger {
  import opened Wrappers

  const U64_MAX := 0xFFFF_FFFF_FFFF_FFFF
  const I64_MAX := 0x7FFF_FFFF_FFFF_FFFF
  const I64_MIN := -0x8000_0000_0000_0000

  type U32 = n: int | 0 <= n < 0x1_0000_0000
  type U64 = n: int | 0 <= n <= U64_MAX
  type I64 = n: int | I64_MIN <= n <= I64_MAX

  /** `u64::saturating_add`. */
  function AddU(a: U64, b: U64): U64 {
    if a + b > U64_MAX then U64_MAX else a + b
  }

  function SubU(a: U64, b: U64): U64 {
    if a < b then 0 else a - b
  }

  /** `i64::saturating_add`. */
  function AddI(a: I64, b: I64): I64 {
    if a + b > I64_MAX then I64_MAX else if a + b < I64_MIN then I64_MIN else a + b
  }

  /** `merge_cost_ticks`. */
  function MergeCost(a: Option<I64>, b: Option<I64>): Option<I64> {
    if a.None? && b.None? then None else Some(AddI(a.GetOr(0), b.GetOr(0)))
  }

  // ------------------------------------------------------------ totals

  datatype Totals = Totals(
    inputTokens: U64,
    outputTokens: U64,
    cachedReadTokens: U64,
    cacheWriteTokens: U64,
    reasoningTokens: U64,
    modelCalls: U64,
    apiDurationMs: U64,
    cost: Option<I64>,
    estimatedCost: Option<I64>,
    costMissingCalls: U64)
  {
    function TotalTokens(): U64 {
      AddU(inputTokens, outputTokens)
    }

    function FreshInputTokens(): U64 {
      SubU(SubU(inputTokens, cachedReadTokens), cacheWriteTokens)
    }

    predicate CostIsPartial() {
      cost.Some? && costMissingCalls > 0
    }

    function DisplayableCost(): Option<DisplayCost> {
      if cost.None? && estimatedCost.None? then None
      else Some(DisplayCost(AddI(cost.GetOr(0), estimatedCost.GetOr(0)), estimatedCost.Some?))
    }
  }

  datatype DisplayCost = DisplayCost(ticks: I64, estimated: bool)

  const ZERO := Totals(0, 0, 0, 0, 0, 0, 0, None, None, 0)

  /** `fold_totals`. */
  function Add(a: Totals, b: Totals): Totals {
    Totals(
      AddU(a.inputTokens, b.inputTokens),
      AddU(a.outputTokens, b.outputTokens),
      AddU(a.cachedReadTokens, b.cachedReadTokens),
      AddU(a.cacheWriteTokens, b.cacheWriteTokens),
      AddU(a.reasoningTokens, b.reasoningTokens),
      AddU(a.modelCalls, b.modelCalls),
      AddU(a.apiDurationMs, b.apiDurationMs),
      MergeCost(a.cost, b.cost),
      MergeCost(a.estimatedCost, b.estimatedCost),
      AddU(a.costMissingCalls, b.costMissingCalls))
  }

  /** No cost figure is negative. */
  predicate NonNegative(t: Totals) {
    t.cost.GetOr(0) >= 0 && t.estimatedCost.GetOr(0) >= 0
  }

  lemma AddLaws(a: Totals, b: Totals, c: Totals)
    ensures Add(a, b) == Add(b, a)
    ensures Add(a, ZERO) == a == Add(ZERO, a)
    ensures NonNegative(a) && NonNegative(b) && NonNegative(c) ==>
      Add(Add(a, b), c) == Add(a, Add(b, c)) && NonNegative(Add(a, b))
  {
    AddUnits(a);
    AddCommutes(a, b);
    if NonNegative(a) && NonNegative(b) && NonNegative(c) {
      AddAssociates(a, b, c);
    }
    hide *;
  }

  lemma AddUnits(a: Totals)
    ensures Add(a, ZERO) == a == Add(ZERO, a)
  {
  }

  lemma AddCommutes(a: Totals, b: Totals)
    ensures Add(a, b) == Add(b, a)
  {
  }

  lemma AddAssociates(a: Totals, b: Totals, c: Totals)
    requires NonNegative(a) && NonNegative(b) && NonNegative(c)
    ensures Add(Add(a, b), c) == Add(a, Add(b, c)) && NonNegative(Add(a, b))
  {
  }

  // ------------------------------------------------------------ calls

  datatype TokenUsage = TokenUsage(
    promptTokens: U32,
    completionTokens: U32,
    reasoningTokens: U32,
    cachedPromptTokens: U32,
    cacheWriteTokens: U32)

  /** Local price of a call's tokens for a model: any non-negative amount. */
  type Pricing = (string, U64, U64, U64, U64) -> nat

  function Price(pricing: Pricing, model: string, usage: TokenUsage): (p: I64)
    ensures p >= 0
  {
    var p := pricing(model, usage.promptTokens, usage.completionTokens, usage.cachedPromptTokens, usage.cacheWriteTokens);
    if p > I64_MAX then I64_MAX else p
  }

  /** `from_call`: a gateway cost is kept as it is; only an unpriced call is estimated. */
  function FromCall(pricing: Pricing, model: string, usage: TokenUsage, durationMs: Option<U64>, cost: Option<I64>): Totals {
    Totals(
      usage.promptTokens, usage.completionTokens, usage.cachedPromptTokens, usage.cacheWriteTokens,
      usage.reasoningTokens, 1, durationMs.GetOr(0), cost,
      if cost.None? then Some(Price(pricing, model, usage)) else None,
      if cost.None? then 1 else 0)
  }

  // ------------------------------------------------------------ ledgers on values

  type Row = (string, Totals)

  /** An `IndexMap`: rows in insertion order, one per model. */
  type Rows = seq<Row>

  function IndexOf(rows: Rows, model: string): (r: Option<nat>)
    ensures r.Some? ==> r.value < |rows| && rows[r.value].0 == model
    ensures r.None? ==> forall i | 0 <= i < |rows| :: rows[i].0 != model
  {
    if rows == [] then None
    else if rows[0].0 == model then Some(0)
    else
      match IndexOf(rows[1..], model)
      case None => None
      case Some(i) => Some(i + 1)
  }

  function FoldRow(rows: Rows, model: string, t: Totals): Rows {
    match IndexOf(rows, model)
    case Some(i) => rows[i := (model, Add(rows[i].1, t))]
    case None => rows + [(model, Add(ZERO, t))]
  }

  datatype Ledger = Ledger(totals: Totals, rows: Rows, mainLoopCalls: U64, incomplete: bool)

  const EMPTY := Ledger(ZERO, [], 0, false)

  function FoldEntry(l: Ledger, model: string, t: Totals): Ledger {
    l.(totals := Add(l.totals, t), rows := FoldRow(l.rows, model, t))
  }

  function FoldEntries(l: Ledger, entries: seq<Row>): Ledger {
    if entries == [] then l
    else
      var last := entries[|entries| - 1];
      FoldEntry(FoldEntries(l, entries[..|entries| - 1]), last.0, last.1)
  }

  // ------------------------------------------------------------ the ledger object

  class BillingLedger {
    var totals: Totals
    var byModel: Rows
    var mainLoopCalls: U64
    var incomplete: bool

    function State(): Ledger
      reads this
    {
      Ledger(totals, byModel, mainLoopCalls, incomplete)
    }

    constructor ()
      ensures State() == EMPTY
    {
      totals, byModel, mainLoopCalls, incomplete := ZERO, [], 0, false;
    }

    method RecordMainLoopCall(pricing: Pricing, model: string, usage: TokenUsage, durationMs: Option<U64>, cost: Option<I64>)
      modifies this
      ensures State() == FoldEntry(old(State()), model, FromCall(pricing, model, usage, durationMs, cost))
        .(mainLoopCalls := AddU(old(mainLoopCalls), 1))
    {
      mainLoopCalls := AddU(mainLoopCalls, 1);
      RecordEntry(model, FromCall(pricing, model, usage, durationMs, cost));
    }

    method RecordSubagent(rows: seq<Row>, isIncomplete: bool)
      modifies this
      ensures State() == FoldEntries(old(State()), rows).(incomplete := old(incomplete) || isIncomplete)
    {
      hide FoldEntry;
      var i := 0;
      while i < |rows|
        invariant i <= |rows| && State() == FoldEntries(old(State()), rows[..i])
      {
        assert rows[..i + 1][..i] == rows[..i];
        RecordEntry(rows[i].0, rows[i].1);
        i := i + 1;
      }
      assert rows[..i] == rows;
      KeepsFlags(old(State()), rows);
      if isIncomplete {
        incomplete := true;
      }
    }

    method MarkIncomplete()
      modifies this
      ensures State() == old(State()).(incomplete := true)
    {
      incomplete := true;
    }

    /** `fold_entry`. */
    method RecordEntry(model: string, t: Totals)
      modifies this
      ensures State() == FoldEntry(old(State()), model, t)
    {
      totals := Add(totals, t);
      var i := IndexOf(byModel, model);
      if i.Some? {
        byModel := byModel[i.value := (model, Add(byModel[i.value].1, t))];
      } else {
        byModel := byModel + [(model, Add(ZERO, t))];
      }
    }
  }

  lemma {:induction false} KeepsFlags(l: Ledger, entries: seq<Row>)
    ensures var r := FoldEntries(l, entries); r.incomplete == l.incomplete && r.mainLoopCalls == l.mainLoopCalls
  {
    if entries != [] {
      KeepsFlags(l, entries[..|entries| - 1]);
    }
  }

  // ------------------------------------------------------------ sums

  /** Which entries a sum covers: all of them, or those of one model. */
  datatype Selection = All | Model(name: string) {
    predicate Picks(model: string) {
      All? || name == model
    }
  }

  /** The saturating column sums of the selected entries. */
  function Sum(entries: seq<Row>, which: Selection): Totals {
    if entries == [] then ZERO
    else
      var rest := Sum(entries[..|entries| - 1], which);
      var last := entries[|entries| - 1];
      if which.Picks(last.0) then Add(rest, last.1) else rest
  }

  predicate AllNonNegative(entries: seq<Row>) {
    forall i | 0 <= i < |entries| :: NonNegative(entries[i].1)
  }

  // ------------------------------------------------------------ rows and figures

  ghost predicate DistinctModels(rows: Rows) {
    forall i, j | 0 <= i < j < |rows| :: rows[i].0 != rows[j].0
  }

  function Models(rows: Rows): (r: seq<string>)
    ensures |r| == |rows| && forall i | 0 <= i < |rows| :: r[i] == rows[i].0
  {
    seq(|rows|, i requires 0 <= i < |rows| => rows[i].0)
  }

  /** The models of some entries, each where it appears first. */
  ghost function FirstAppearances(entries: seq<Row>): seq<string> {
    if entries == [] then []
    else
      var before := FirstAppearances(entries[..|entries| - 1]);
      var model := entries[|entries| - 1].0;
      if HasModel(entries[..|entries| - 1], model) then before else before + [model]
  }

  /** One row per recorded model, in the order in which the models first appeared. */
  lemma {:induction false} FoldedModels(entries: seq<Row>)
    ensures var rows := FoldEntries(EMPTY, entries).rows;
      && DistinctModels(rows) && Models(rows) == FirstAppearances(entries)
      && forall model :: HasModel(rows, model) <==> HasModel(entries, model)
  {
    if entries != [] {
      var init, last := entries[..|entries| - 1], entries[|entries| - 1];
      assert entries == init + [last];
      hide FoldRow, HasModel, DistinctModels, Models, Add;
      FoldedModels(init);
      FoldRowModels(FoldEntries(EMPTY, init).rows, last.0, last.1);
      hide FoldEntries;
      forall model ensures HasModel(entries, model) <==> HasModel(init, model) || model == last.0 {
        HasModelMore(init, last, model);
      }
    }
  }

  ghost predicate HasModel(rows: seq<Row>, model: string) {
    exists i | 0 <= i < |rows| :: rows[i].0 == model
  }

  lemma HasModelMore(rows: seq<Row>, row: Row, model: string)
    ensures HasModel(rows + [row], model) <==> HasModel(rows, model) || model == row.0
  {
    var all := rows + [row];
    assert forall i | 0 <= i < |rows| :: all[i] == rows[i];
    assert all[|rows|] == row;
  }

  lemma FoldRowModels(rows: Rows, model: string, t: Totals)
    requires DistinctModels(rows)
    ensures var r := FoldRow(rows, model, t);
      && DistinctModels(r) && Models(r) == Models(rows) + (if HasModel(rows, model) then [] else [model])
      && forall m :: HasModel(r, m) <==> HasModel(rows, m) || m == model
  {
    hide Add;
    var r := FoldRow(rows, model, t);
    match IndexOf(rows, model)
    case Some(k) =>
      assert forall i | 0 <= i < |rows| :: r[i].0 == rows[i].0;
    case None =>
      forall m ensures HasModel(r, m) <==> HasModel(rows, m) || m == model {
        HasModelMore(rows, (model, Add(ZERO, t)), m);
      }
  }

  /** The row of a model, `ZERO` if it has none. */
  function RowOf(rows: Rows, model: string): Totals {
    match IndexOf(rows, model) case None => ZERO case Some(i) => rows[i].1
  }

  lemma {:induction false} IndexOfSameNames(rows: Rows, rows': Rows, model: string)
    requires |rows| == |rows'| && forall i | 0 <= i < |rows| :: rows[i].0 == rows'[i].0
    ensures IndexOf(rows, model) == IndexOf(rows', model)
  {
    if rows != [] {
      IndexOfSameNames(rows[1..], rows'[1..], model);
    }
  }

  lemma {:induction false} IndexOfMore(rows: Rows, row: Row, model: string)
    ensures IndexOf(rows + [row], model) ==
      if IndexOf(rows, model).Some? then IndexOf(rows, model)
      else if row.0 == model then Some(|rows|) else None
  {
    if rows != [] {
      assert (rows + [row])[1..] == rows[1..] + [row];
      IndexOfMore(rows[1..], row, model);
    }
  }

  /** Folding one entry adds it to its model's row and leaves every other row alone. */
  lemma FoldRowOf(rows: Rows, name: string, t: Totals, model: string)
    ensures RowOf(FoldRow(rows, name, t), model) ==
      if model == name then Add(RowOf(rows, model), t) else RowOf(rows, model)
  {
    hide Add;
    match IndexOf(rows, name)
    case Some(i) =>
      IndexOfSameNames(rows, FoldRow(rows, name, t), model);
    case None =>
      IndexOfMore(rows, (name, Add(ZERO, t)), model);
  }

  /** The figures a ledger shows, for all models or for one. */
  function Shown(l: Ledger, which: Selection): Totals {
    match which case All => l.totals case Model(model) => RowOf(l.rows, model)
  }

  /** The totals are the saturating sum of all entries and each row that of its model's entries,
      in the order of recording and whatever their signs. */
  lemma {:induction false} ShownAreSums(entries: seq<Row>, which: Selection)
    ensures Shown(FoldEntries(EMPTY, entries), which) == Sum(entries, which)
  {
    hide Add, RowOf, FoldRow;
    if entries == [] {
      NoRows(which);
    } else {
      var init, last := entries[..|entries| - 1], entries[|entries| - 1];
      ShownAreSums(init, which);
      if which.Model? {
        FoldRowOf(FoldEntries(EMPTY, init).rows, last.0, last.1, which.name);
      }
    }
  }

  lemma NoRows(which: Selection)
    ensures Shown(EMPTY, which) == ZERO
  {
  }

  /** Each row is the saturating sum of its model's entries. */
  lemma {:induction false} RowsAreModelSums(entries: seq<Row>, model: string)
    ensures RowOf(FoldEntries(EMPTY, entries).rows, model) == Sum(entries, Model(model))
  {
    hide RowOf, FoldEntries, Sum;
    ShownAreSums(entries, Model(model));
  }

  lemma WithoutOne(b: seq<Row>, i: nat)
    requires i < |b|
    ensures multiset(b[..i] + b[i + 1..]) == multiset(b) - multiset{b[i]}
  {
    assert b == b[..i] + [b[i]] + b[i + 1..];
  }

  // ------------------------------------------------------------ nested runs

  /** What a ledger records: a call of its own, or the rows of a finished subagent. */
  datatype Event =
    | Call(model: string, call: Totals)
    | Subagent(run: seq<Event>, incomplete: bool)
    | Mark

  function Execute(events: seq<Event>): Ledger {
    if events == [] then EMPTY
    else
      var l := Execute(events[..|events| - 1]);
      match events[|events| - 1]
      case Call(model, call) => FoldEntry(l, model, call).(mainLoopCalls := AddU(l.mainLoopCalls, 1))
      case Subagent(run, incomplete) =>
        FoldEntries(l, Execute(run).rows).(incomplete := l.incomplete || incomplete)
      case Mark => l.(incomplete := true)
  }

  /** All calls of a run and of the runs nested in it. */
  function Flatten(events: seq<Event>): seq<Row> {
    if events == [] then []
    else
      Flatten(events[..|events| - 1]) +
        match events[|events| - 1]
        case Call(model, call) => [(model, call)]
        case Subagent(run, _) => Flatten(run)
        case Mark => []
  }

  /** Calls of the main loop itself. */
  function MainCalls(events: seq<Event>): nat {
    if events == [] then 0
    else MainCalls(events[..|events| - 1]) + if events[|events| - 1].Call? then 1 else 0
  }

  /** Something was marked incomplete, or a subagent came back incomplete. */
  ghost predicate Flagged(events: seq<Event>) {
    exists i | 0 <= i < |events| :: Flags(events[i])
  }

  ghost predicate Flags(e: Event) {
    e.Mark? || (e.Subagent? && e.incomplete)
  }

  lemma FlaggedMore(init: seq<Event>, e: Event)
    ensures Flagged(init + [e]) <==> Flagged(init) || Flags(e)
  {
    var all := init + [e];
    assert forall i | 0 <= i < |init| :: all[i] == init[i];
    assert all[|init|] == e;
  }

  lemma NothingFlagged()
    ensures !Flagged([])
  {
  }

  // ------------------------------------------------------------ exact and estimated costs

  /** The entry of one main-loop call: priced by the gateway or estimated, never both. */
  ghost predicate IsCall(t: Totals) {
    && t.modelCalls == 1 && NonNegative(t)
    && (t.cost.Some? <==> t.estimatedCost.None?)
    && t.costMissingCalls == (if t.cost.None? then 1 else 0)
  }

  lemma FromCallIsCall(pricing: Pricing, model: string, usage: TokenUsage, durationMs: Option<U64>, cost: Option<I64>)
    requires cost.GetOr(0) >= 0
    ensures IsCall(FromCall(pricing, model, usage, durationMs, cost))
    ensures FromCall(pricing, model, usage, durationMs, cost).cost == cost
  {
  }

  /** The arguments of one main-loop call. */
  datatype CallRecord = CallRecord(model: string, usage: TokenUsage, durationMs: Option<U64>, cost: Option<I64>)

  /** The entries that recording some calls makes. */
  function Entries(pricing: Pricing, calls: seq<CallRecord>): (r: seq<Row>)
    ensures |r| == |calls|
    ensures forall i | 0 <= i < |calls| ::
      r[i] == (calls[i].model, FromCall(pricing, calls[i].model, calls[i].usage, calls[i].durationMs, calls[i].cost))
  {
    seq(|calls|, i requires 0 <= i < |calls| =>
      (calls[i].model, FromCall(pricing, calls[i].model, calls[i].usage, calls[i].durationMs, calls[i].cost)))
  }

  /** The theorems about ledgers without negative figures cover every ledger of calls that the
      gateway priced at zero or more: an estimate is never negative. */
  lemma CallsAreNonNegative(pricing: Pricing, calls: seq<CallRecord>)
    ensures AllNonNegative(Entries(pricing, calls)) <==> forall i | 0 <= i < |calls| :: calls[i].cost.GetOr(0) >= 0
  {
    var entries := Entries(pricing, calls);
    forall i | 0 <= i < |calls| ensures NonNegative(entries[i].1) <==> calls[i].cost.GetOr(0) >= 0 {
      var c := calls[i];
      if c.cost.GetOr(0) >= 0 {
        FromCallIsCall(pricing, c.model, c.usage, c.durationMs, c.cost);
      }
    }
    hide FromCall, NonNegative;
  }

  ghost predicate SomePriced(calls: seq<CallRecord>, which: Selection) {
    exists i | 0 <= i < |calls| :: which.Picks(calls[i].model) && calls[i].cost.Some?
  }

  ghost predicate SomeUnpriced(calls: seq<CallRecord>, which: Selection) {
    exists i | 0 <= i < |calls| :: which.Picks(calls[i].model) && calls[i].cost.None?
  }

  lemma ExistsInLast(init: seq<CallRecord>, x: CallRecord, which: Selection)
    ensures var calls := init + [x];
      && (SomePriced(calls, which) <==> SomePriced(init, which) || (which.Picks(x.model) && x.cost.Some?))
      && (SomeUnpriced(calls, which) <==> SomeUnpriced(init, which) || (which.Picks(x.model) && x.cost.None?))
  {
    var calls := init + [x];
    assert forall i | 0 <= i < |init| :: calls[i] == init[i];
    assert calls[|init|] == x;
  }

  lemma NoneInNothing(which: Selection)
    ensures !SomePriced([], which) && !SomeUnpriced([], which)
  {
  }

  /** What a figure's cost columns say about the calls behind it. */
  ghost predicate Tells(t: Totals, priced: bool, unpriced: bool) {
    && (t.cost.Some? <==> priced)
    && (t.estimatedCost.Some? <==> unpriced)
    && (t.costMissingCalls > 0 <==> unpriced)
  }

  lemma {:induction false} SumTells(pricing: Pricing, calls: seq<CallRecord>, which: Selection)
    ensures Tells(Sum(Entries(pricing, calls), which), SomePriced(calls, which), SomeUnpriced(calls, which))
  {
    hide SomePriced, SomeUnpriced, AddI, Price;
    if calls == [] {
      NoneInNothing(which);
    } else {
      var init, last := calls[..|calls| - 1], calls[|calls| - 1];
      assert calls == init + [last];
      SumTells(pricing, init, which);
      ExistsInLast(init, last, which);
      assert Entries(pricing, calls)[..|calls| - 1] == Entries(pricing, init);
      hide Entries;
    }
  }

  /** What the totals and every row of a ledger say about the costs of the calls recorded in it:
      a gateway figure exists iff some call was priced, an estimate iff some call was not, the
      sum is partial iff both, and a displayed figure is marked as an estimate iff some call
      was not priced. */
  lemma {:induction false} CostColumns(pricing: Pricing, calls: seq<CallRecord>, which: Selection)
    ensures var t := Shown(FoldEntries(EMPTY, Entries(pricing, calls)), which);
      && (t.cost.Some? <==> SomePriced(calls, which))
      && (t.estimatedCost.Some? <==> SomeUnpriced(calls, which))
      && (t.costMissingCalls > 0 <==> SomeUnpriced(calls, which))
      && (t.CostIsPartial() <==> SomePriced(calls, which) && SomeUnpriced(calls, which))
      && (t.DisplayableCost().None? <==> !SomePriced(calls, which) && !SomeUnpriced(calls, which))
      && (t.DisplayableCost().Some? ==> (t.DisplayableCost().value.estimated <==> SomeUnpriced(calls, which)))
  {
    SumTells(pricing, calls, which);
    hide SomePriced, SomeUnpriced, AddI, FoldEntries, Sum, Shown, Entries;
    ShownAreSums(Entries(pricing, calls), which);
  }

  /** The fresh part of the prompt and the two cache buckets make up the prompt unless the
      buckets exceed it, and then nothing counts as fresh. */
  lemma FreshInputIff(t: Totals)
    ensures var read := t.FreshInputTokens();
      if t.cachedReadTokens + t.cacheWriteTokens <= t.inputTokens
      then read + t.cachedReadTokens + t.cacheWriteTokens == t.inputTokens
      else read == 0
  {
  }
}
