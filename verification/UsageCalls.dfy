/** What a ledger of calls shows, told from the recorded usage: which field feeds which column,
    and how the two costs combine. */
module UsageCalls {
  import opened Wrappers
  import opened UsageLedger
  import opened UsageOrder

  // ------------------------------------------------------------ sums over calls

  /** What a call has to count. */
  datatype Field =
    | Prompt | Completion | CachedPrompt | CacheWritten | Reasoned | Called | Took | Unpriced
    | Reported | Raised | Lowered | Guessed | Nothing

  /** The counter stops at 2^64 - 1. */
  ghost function Cap(n: int): int {
    if n > 18_446_744_073_709_551_615 then 18_446_744_073_709_551_615 else n
  }

  /** The cost counter stops at both ends of its 64 bits. */
  ghost function Bound(n: int): int {
    if n > 9_223_372_036_854_775_807 then 9_223_372_036_854_775_807
    else if n < -9_223_372_036_854_775_808 then -9_223_372_036_854_775_808 else n
  }

  /** The gateway's figure for a call, 0 if it reported none. */
  ghost function ReportOf(c: CallRecord): int {
    if c.cost.Some? then c.cost.value else 0
  }

  ghost function Worth(pricing: Pricing, c: CallRecord, field: Field): int {
    match field
    case Prompt => c.usage.promptTokens
    case Completion => c.usage.completionTokens
    case CachedPrompt => c.usage.cachedPromptTokens
    case CacheWritten => c.usage.cacheWriteTokens
    case Reasoned => c.usage.reasoningTokens
    case Called => 1
    case Took => if c.durationMs.Some? then c.durationMs.value else 0
    case Unpriced => if c.cost.None? then 1 else 0
    case Reported => ReportOf(c)
    case Raised => if ReportOf(c) > 0 then ReportOf(c) else 0
    case Lowered => if ReportOf(c) < 0 then -ReportOf(c) else 0
    // the local price, of the calls that the gateway did not price
    case Guessed =>
      if c.cost.Some? then 0
      else Bound(pricing(c.model, c.usage.promptTokens, c.usage.completionTokens, c.usage.cachedPromptTokens,
                         c.usage.cacheWriteTokens))
    case Nothing => 0
  }

  /** The exact sum of a field over the selected calls. */
  ghost function CallSum(pricing: Pricing, calls: seq<CallRecord>, which: Selection, field: Field): int {
    if calls == [] then 0
    else
      var last := calls[|calls| - 1];
      CallSum(pricing, calls[..|calls| - 1], which, field)
      + if which.Picks(last.model) then Worth(pricing, last, field) else 0
  }

  /** The field that a column adds up. */
  ghost function Source(column: Column): Field {
    match column
    case InputTokens => Prompt
    case OutputTokens => Completion
    case CachedReadTokens => CachedPrompt
    case CacheWriteTokens => CacheWritten
    case ReasoningTokens => Reasoned
    case ModelCalls => Called
    case ApiDurationMs => Took
    case CostMissingCalls => Unpriced
    case CostUp => Raised
    case CostDown => Lowered
    case EstimateUp => Guessed
    case EstimateDown => Nothing
    case _ => Nothing
  }

  ghost predicate HasSource(column: Column) {
    !column.CostSet? && !column.EstimateSet?
  }

  lemma SourceIs(pricing: Pricing, c: CallRecord, column: Column)
    requires HasSource(column)
    ensures Amount(FromCall(pricing, c.model, c.usage, c.durationMs, c.cost), column)
         == Worth(pricing, c, Source(column))
  {
  }

  lemma EntriesLast(pricing: Pricing, calls: seq<CallRecord>)
    requires calls != []
    ensures var n := |calls| - 1; var c := calls[n];
      && Entries(pricing, calls)[..n] == Entries(pricing, calls[..n])
      && Entries(pricing, calls)[n] == (c.model, FromCall(pricing, c.model, c.usage, c.durationMs, c.cost))
  {
    hide FromCall;
  }

  /** A column of the entries adds up its field of the calls. */
  lemma {:induction false} ColumnIsSum(pricing: Pricing, calls: seq<CallRecord>, which: Selection, column: Column)
    requires HasSource(column)
    ensures Total(Entries(pricing, calls), which, column) == CallSum(pricing, calls, which, Source(column))
  {
    hide FromCall, Amount, Worth, Source, HasSource;
    if calls != [] {
      EntriesLast(pricing, calls);
      hide Entries;
      SourceIs(pricing, calls[|calls| - 1], column);
      ColumnIsSum(pricing, calls[..|calls| - 1], which, column);
    }
  }

  // ------------------------------------------------------------ the counters

  ghost predicate Counts(column: Column) {
    || column.InputTokens? || column.OutputTokens? || column.CachedReadTokens? || column.CacheWriteTokens?
    || column.ReasoningTokens? || column.ModelCalls? || column.ApiDurationMs? || column.CostMissingCalls?
  }

  lemma AddCounts(a: Totals, b: Totals, column: Column)
    requires Counts(column)
    ensures Amount(Add(a, b), column) == Cap(Amount(a, column) + Amount(b, column))
    ensures Amount(ZERO, column) == 0
  {
    hide MergeCost;
  }

  /** A counter shows its exact total, clamped once, whatever the costs. */
  lemma {:induction false} CounterIsExact(entries: seq<Row>, which: Selection, column: Column)
    requires Counts(column)
    ensures Amount(Sum(entries, which), column) == Cap(Total(entries, which, column))
  {
    if entries == [] {
      AddCounts(ZERO, ZERO, column);
    } else {
      var init, last := entries[..|entries| - 1], entries[|entries| - 1];
      CounterIsExact(init, which, column);
      AddCounts(Sum(init, which), last.1, column);
      hide Counts, Amount, Add;
    }
  }

  lemma CounterOfCalls(pricing: Pricing, calls: seq<CallRecord>, which: Selection, column: Column)
    requires Counts(column)
    ensures Amount(Shown(FoldEntries(EMPTY, Entries(pricing, calls)), which), column)
         == Cap(CallSum(pricing, calls, which, Source(column)))
  {
    var entries := Entries(pricing, calls);
    assert HasSource(column);
    hide *;
    ShownAreSums(entries, which);
    CounterIsExact(entries, which, column);
    ColumnIsSum(pricing, calls, which, column);
  }

  /** Every counter of the totals and of each row is the sum of its own field over the calls,
      clamped once. */
  lemma {:induction false} CallCounters(pricing: Pricing, calls: seq<CallRecord>, which: Selection)
    ensures var t := Shown(FoldEntries(EMPTY, Entries(pricing, calls)), which);
      && t.inputTokens == Cap(CallSum(pricing, calls, which, Prompt))
      && t.outputTokens == Cap(CallSum(pricing, calls, which, Completion))
      && t.cachedReadTokens == Cap(CallSum(pricing, calls, which, CachedPrompt))
      && t.cacheWriteTokens == Cap(CallSum(pricing, calls, which, CacheWritten))
      && t.reasoningTokens == Cap(CallSum(pricing, calls, which, Reasoned))
      && t.modelCalls == Cap(CallSum(pricing, calls, which, Called))
      && t.apiDurationMs == Cap(CallSum(pricing, calls, which, Took))
      && t.costMissingCalls == Cap(CallSum(pricing, calls, which, Unpriced))
  {
    hide Shown, FoldEntries, Entries, Cap, CallSum;
    CounterOfCalls(pricing, calls, which, InputTokens);
    CounterOfCalls(pricing, calls, which, OutputTokens);
    CounterOfCalls(pricing, calls, which, CachedReadTokens);
    CounterOfCalls(pricing, calls, which, CacheWriteTokens);
    CounterOfCalls(pricing, calls, which, ReasoningTokens);
    CounterOfCalls(pricing, calls, which, ModelCalls);
    CounterOfCalls(pricing, calls, which, ApiDurationMs);
    CounterOfCalls(pricing, calls, which, CostMissingCalls);
  }

  // ------------------------------------------------------------ the costs

  lemma {:induction false} SignedSum(pricing: Pricing, calls: seq<CallRecord>, which: Selection)
    ensures CallSum(pricing, calls, which, Reported)
         == CallSum(pricing, calls, which, Raised) - CallSum(pricing, calls, which, Lowered)
    ensures CallSum(pricing, calls, which, Raised) >= 0 && CallSum(pricing, calls, which, Lowered) >= 0
    ensures CallSum(pricing, calls, which, Guessed) >= 0 && CallSum(pricing, calls, which, Nothing) == 0
  {
    if calls != [] {
      SignedSum(pricing, calls[..|calls| - 1], which);
    }
  }

  /** The gateway's figures do not saturate on the way, in whatever order. */
  ghost predicate MildReports(pricing: Pricing, calls: seq<CallRecord>, which: Selection) {
    var up, down := CallSum(pricing, calls, which, Raised), CallSum(pricing, calls, which, Lowered);
    up == 0 || down == 0 || (up <= 9_223_372_036_854_775_807 && down <= 9_223_372_036_854_775_808)
  }

  lemma CostColumnSums(pricing: Pricing, calls: seq<CallRecord>, which: Selection)
    ensures var es := Entries(pricing, calls);
      && Total(es, which, CostUp) == CallSum(pricing, calls, which, Raised)
      && Total(es, which, CostDown) == CallSum(pricing, calls, which, Lowered)
      && Total(es, which, EstimateUp) == CallSum(pricing, calls, which, Guessed)
      && Total(es, which, EstimateDown) == CallSum(pricing, calls, which, Nothing)
  {
    hide CallSum, Total, Entries, Worth;
    ColumnIsSum(pricing, calls, which, CostUp);
    ColumnIsSum(pricing, calls, which, CostDown);
    ColumnIsSum(pricing, calls, which, EstimateUp);
    ColumnIsSum(pricing, calls, which, EstimateDown);
  }

  lemma CostTotals(pricing: Pricing, calls: seq<CallRecord>, which: Selection)
    ensures var es := Entries(pricing, calls);
      && CallSum(pricing, calls, which, Reported) == Total(es, which, CostUp) - Total(es, which, CostDown)
      && CallSum(pricing, calls, which, Guessed) == Total(es, which, EstimateUp) - Total(es, which, EstimateDown)
      && (MildReports(pricing, calls, which) ==> MildCosts(es, which))
  {
    hide CallSum, Total, Entries, Worth;
    CostColumnSums(pricing, calls, which);
    SignedSum(pricing, calls, which);
  }

  /** The cost columns of a sum of mild entries. */
  lemma {:induction false} CostsOfSum(entries: seq<Row>, which: Selection)
    requires MildCosts(entries, which)
    ensures var t := Sum(entries, which);
      && (t.cost.Some? ==> t.cost.value == Bound(Total(entries, which, CostUp) - Total(entries, which, CostDown)))
      && (t.estimatedCost.Some? ==>
            t.estimatedCost.value == Bound(Total(entries, which, EstimateUp) - Total(entries, which, EstimateDown)))
  {
    SumIsClamped(entries, which);
    hide Sum, Total, MildCosts;
  }

  /** Both cost figures, and the one that is displayed: the reported costs, the local prices of
      the other calls, and the clamped sum of both. */
  lemma {:induction false} CallCosts(pricing: Pricing, calls: seq<CallRecord>, which: Selection)
    requires MildReports(pricing, calls, which)
    ensures var t := Shown(FoldEntries(EMPTY, Entries(pricing, calls)), which);
      var reported := Bound(CallSum(pricing, calls, which, Reported));
      var guessed := Bound(CallSum(pricing, calls, which, Guessed));
      && t.cost == (if SomePriced(calls, which) then Some(reported) else None)
      && t.estimatedCost == (if SomeUnpriced(calls, which) then Some(guessed) else None)
  {
    var es := Entries(pricing, calls);
    hide *;
    CostTotals(pricing, calls, which);
    CostsOfSum(es, which);
    ShownAreSums(es, which);
    CostColumns(pricing, calls, which);
  }

  lemma {:induction false} NoneReported(pricing: Pricing, calls: seq<CallRecord>, which: Selection)
    ensures !SomePriced(calls, which) ==> CallSum(pricing, calls, which, Reported) == 0
    ensures !SomeUnpriced(calls, which) ==> CallSum(pricing, calls, which, Guessed) == 0
  {
    hide SomePriced, SomeUnpriced;
    if calls != [] {
      var init, last := calls[..|calls| - 1], calls[|calls| - 1];
      assert calls == init + [last];
      ExistsInLast(init, last, which);
      NoneReported(pricing, init, which);
    }
  }

  /** The displayed figure is the clamped sum of both costs; without negative reports it is the
      exact sum, clamped once. */
  lemma {:induction false} DisplayedCost(pricing: Pricing, calls: seq<CallRecord>, which: Selection)
    requires MildReports(pricing, calls, which)
    ensures var shown := Shown(FoldEntries(EMPTY, Entries(pricing, calls)), which).DisplayableCost();
      var reported, guessed := CallSum(pricing, calls, which, Reported), CallSum(pricing, calls, which, Guessed);
      && shown == (if SomePriced(calls, which) || SomeUnpriced(calls, which)
                   then Some(DisplayCost(Bound(Bound(reported) + Bound(guessed)), SomeUnpriced(calls, which)))
                   else None)
      && (CallSum(pricing, calls, which, Lowered) == 0 ==>
            Bound(Bound(reported) + Bound(guessed)) == Bound(reported + guessed))
  {
    hide *;
    CallCosts(pricing, calls, which);
    NoneReported(pricing, calls, which);
    SignedSum(pricing, calls, which);
    OneClamp(CallSum(pricing, calls, which, Reported), CallSum(pricing, calls, which, Guessed));
    Displayed(Shown(FoldEntries(EMPTY, Entries(pricing, calls)), which));
  }

  lemma OneClamp(a: int, b: int)
    ensures a >= 0 && b >= 0 ==> Bound(Bound(a) + Bound(b)) == Bound(a + b)
    ensures Bound(0) == 0 && Bound(Bound(a)) == Bound(a)
  {
  }

  /** The displayed figure of some totals. */
  lemma Displayed(t: Totals)
    ensures var exact: int, guess: int := t.cost.GetOr(0), t.estimatedCost.GetOr(0);
      && (t.cost.Some? || t.estimatedCost.Some? ==>
            t.DisplayableCost() == Some(DisplayCost(Bound(exact + guess), t.estimatedCost.Some?)))
      && (t.cost.None? && t.estimatedCost.None? ==> t.DisplayableCost() == None)
      && exact == (if t.cost.Some? then t.cost.value else 0)
      && guess == (if t.estimatedCost.Some? then t.estimatedCost.value else 0)
  {
  }
}
