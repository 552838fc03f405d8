/** Nested ledgers: when a ledger's totals are the sums over its rows, and when folding a
    child's rows is as good as folding the child's entries. */
module UsageNesting {
  import opened Wrappers
  import opened UsageLedger
  import opened UsageOrder

  // ------------------------------------------------------------ sums of mild parts

  /** The four columns that decide whether costs are mild. */
  ghost predicate Within(part: seq<Row>, whole: seq<Row>, which: Selection) {
    && Total(part, which, CostUp) <= Total(whole, which, CostUp)
    && Total(part, which, CostDown) <= Total(whole, which, CostDown)
    && Total(part, which, EstimateUp) <= Total(whole, which, EstimateUp)
    && Total(part, which, EstimateDown) <= Total(whole, which, EstimateDown)
  }

  lemma WithinIsMild(part: seq<Row>, whole: seq<Row>, which: Selection)
    requires Within(part, whole, which) && MildCosts(whole, which)
    ensures MildCosts(part, which)
  {
  }

  lemma PartsAreWithin(a: seq<Row>, b: seq<Row>, which: Selection)
    ensures Within(a, a + b, which) && Within(b, a + b, which)
  {
    forall column ensures Total(a + b, which, column) == Total(a, which, column) + Total(b, which, column) {
      TotalConcat(a, b, which, column);
    }
    hide Total;
  }

  lemma MildOfModel(entries: seq<Row>, which: Selection)
    requires MildCosts(entries, All)
    ensures MildCosts(entries, which)
  {
    hide Total;
    ShareOfModel(entries, which, CostUp);
    ShareOfModel(entries, which, CostDown);
    ShareOfModel(entries, which, EstimateUp);
    ShareOfModel(entries, which, EstimateDown);
  }

  lemma JoinMoney(some: nat, up: nat, down: nat, some': nat, up': nat, down': nat)
    requires (some == 0 ==> up == 0 && down == 0) && (some' == 0 ==> up' == 0 && down' == 0)
    requires Mild(up + up', down + down')
    ensures MergeCost(Money(some, up, down), Money(some', up', down')) == Money(some + some', up + up', down + down')
  {
  }

  lemma JoinClamped(f: Column -> nat, g: Column -> nat, h: Column -> nat)
    requires forall column :: h(column) == f(column) + g(column)
    requires (f(CostSet) == 0 ==> f(CostUp) == 0 && f(CostDown) == 0) && (g(CostSet) == 0 ==> g(CostUp) == 0 && g(CostDown) == 0)
    requires (f(EstimateSet) == 0 ==> f(EstimateUp) == 0 && f(EstimateDown) == 0)
      && (g(EstimateSet) == 0 ==> g(EstimateUp) == 0 && g(EstimateDown) == 0)
    requires Mild(h(CostUp), h(CostDown)) && Mild(h(EstimateUp), h(EstimateDown))
    ensures Add(Clamped(f), Clamped(g)) == Clamped(h)
  {
    JoinColumns(f, g, h);
    JoinCosts(f, g, h);
    hide MergeCost, Money, Mild, AddU, ClampU;
  }

  lemma JoinCosts(f: Column -> nat, g: Column -> nat, h: Column -> nat)
    requires forall column :: h(column) == f(column) + g(column)
    requires (f(CostSet) == 0 ==> f(CostUp) == 0 && f(CostDown) == 0) && (g(CostSet) == 0 ==> g(CostUp) == 0 && g(CostDown) == 0)
    requires (f(EstimateSet) == 0 ==> f(EstimateUp) == 0 && f(EstimateDown) == 0)
      && (g(EstimateSet) == 0 ==> g(EstimateUp) == 0 && g(EstimateDown) == 0)
    requires Mild(h(CostUp), h(CostDown)) && Mild(h(EstimateUp), h(EstimateDown))
    ensures MergeCost(Money(f(CostSet), f(CostUp), f(CostDown)), Money(g(CostSet), g(CostUp), g(CostDown)))
         == Money(h(CostSet), h(CostUp), h(CostDown))
    ensures MergeCost(Money(f(EstimateSet), f(EstimateUp), f(EstimateDown)), Money(g(EstimateSet), g(EstimateUp), g(EstimateDown)))
         == Money(h(EstimateSet), h(EstimateUp), h(EstimateDown))
  {
    hide MergeCost, Money, Mild;
    JoinMoney(f(CostSet), f(CostUp), f(CostDown), g(CostSet), g(CostUp), g(CostDown));
    JoinMoney(f(EstimateSet), f(EstimateUp), f(EstimateDown), g(EstimateSet), g(EstimateUp), g(EstimateDown));
  }

  lemma JoinColumns(f: Column -> nat, g: Column -> nat, h: Column -> nat)
    requires forall column :: h(column) == f(column) + g(column)
    ensures AddU(ClampU(f(InputTokens)), ClampU(g(InputTokens))) == ClampU(h(InputTokens))
    ensures AddU(ClampU(f(OutputTokens)), ClampU(g(OutputTokens))) == ClampU(h(OutputTokens))
    ensures AddU(ClampU(f(CachedReadTokens)), ClampU(g(CachedReadTokens))) == ClampU(h(CachedReadTokens))
    ensures AddU(ClampU(f(CacheWriteTokens)), ClampU(g(CacheWriteTokens))) == ClampU(h(CacheWriteTokens))
    ensures AddU(ClampU(f(ReasoningTokens)), ClampU(g(ReasoningTokens))) == ClampU(h(ReasoningTokens))
    ensures AddU(ClampU(f(ModelCalls)), ClampU(g(ModelCalls))) == ClampU(h(ModelCalls))
    ensures AddU(ClampU(f(ApiDurationMs)), ClampU(g(ApiDurationMs))) == ClampU(h(ApiDurationMs))
    ensures AddU(ClampU(f(CostMissingCalls)), ClampU(g(CostMissingCalls))) == ClampU(h(CostMissingCalls))
  {
  }

  /** Mild entries may be summed in two parts. */
  lemma SumConcat(a: seq<Row>, b: seq<Row>, which: Selection)
    requires MildCosts(a + b, which)
    ensures Sum(a + b, which) == Add(Sum(a, which), Sum(b, which))
  {
    forall column ensures Total(a + b, which, column) == Total(a, which, column) + Total(b, which, column) {
      TotalConcat(a, b, which, column);
    }
    PartsAreWithin(a, b, which);
    SetCovers(a, which);
    SetCovers(b, which);
    hide Total, Sum, Add, Clamped, Mild;
    WithinIsMild(a, a + b, which);
    WithinIsMild(b, a + b, which);
    SumIsClamped(a, which);
    SumIsClamped(b, which);
    SumIsClamped(a + b, which);
    JoinClamped(column => Total(a, which, column), column => Total(b, which, column), column => Total(a + b, which, column));
  }

  lemma SumSame(a: seq<Row>, b: seq<Row>, which: Selection)
    requires Permuted(a, b) && MildCosts(a, which)
    ensures Sum(a, which) == Sum(b, which)
  {
    forall column ensures Total(a, which, column) == Total(b, which, column) {
      TotalPermuted(a, b, which, column);
    }
    hide Total, Permuted, Clamped, Sum;
    SumIsClamped(a, which);
    SumIsClamped(b, which);
    SameClamped(column => Total(a, which, column), column => Total(b, which, column)) by { hide *; }
  }

  /** What follows is summed onto whatever came before. */
  lemma {:induction false} SumAfter(a: seq<Row>, a': seq<Row>, b: seq<Row>, which: Selection)
    requires Sum(a, which) == Sum(a', which)
    ensures Sum(a + b, which) == Sum(a' + b, which)
  {
    hide Add, Sum;
    if b == [] {
      assert a + b == a && a' + b == a';
    } else {
      var init := b[..|b| - 1];
      assert (a + b)[..|a + b| - 1] == a + init && (a' + b)[..|a' + b| - 1] == a' + init;
      SumAfter(a, a', init, which);
      SumStep(a + b, which);
      SumStep(a' + b, which);
    }
  }

  lemma SumSnoc(a: seq<Row>, row: Row, which: Selection)
    ensures Sum(a + [row], which) == if which.Picks(row.0) then Add(Sum(a, which), row.1) else Sum(a, which)
  {
    hide Add, Sum;
    assert (a + [row])[..|a|] == a;
    SumStep(a + [row], which);
  }

  // ------------------------------------------------------------ folding into the rows

  lemma TwoRows(x: Row, t: Totals, which: Selection)
    ensures Sum([x] + [(x.0, t)], which) == if which.Picks(x.0) then Add(x.1, t) else ZERO
  {
    hide Add, Sum;
    assert [] + [x] == [x];
    SumSnoc([], x, which);
    SumSnoc([x], (x.0, t), which);
    AddUnits(x.1);
    SumOfNothing(which);
  }

  lemma SumOfNothing(which: Selection)
    ensures Sum([], which) == ZERO
  {
  }

  /** An entry may be merged into an earlier row of its model. */
  lemma MergedRow(a: seq<Row>, x: Row, b: seq<Row>, t: Totals, which: Selection)
    requires MildCosts((a + [x] + b) + [(x.0, t)], which)
    ensures Sum(a + [(x.0, Add(x.1, t))] + b, which) == Sum((a + [x] + b) + [(x.0, t)], which)
  {
    var row, merged := (x.0, t), (x.0, Add(x.1, t));
    var late, early := (a + [x] + b) + [row], (a + ([x] + [row])) + b;
    assert Permuted(late, early);
    hide Add, Sum, MildCosts, Permuted;
    SumSame(late, early, which);
    MildPermuted(late, early, which);
    PartsAreWithin(a + ([x] + [row]), b, which);
    WithinIsMild(a + ([x] + [row]), early, which);
    SumConcat(a, [x] + [row], which);
    TwoRows(x, t, which);
    SumSnoc(a, merged, which);
    AddUnits(Sum(a, which));
    SumAfter(a + ([x] + [row]), a + [merged], b, which);
  }

  lemma MildPermuted(a: seq<Row>, b: seq<Row>, which: Selection)
    requires Permuted(a, b) && MildCosts(a, which)
    ensures MildCosts(b, which)
  {
    hide Total, Permuted;
    TotalPermuted(a, b, which, CostUp);
    TotalPermuted(a, b, which, CostDown);
    TotalPermuted(a, b, which, EstimateUp);
    TotalPermuted(a, b, which, EstimateDown);
  }

  /** Folding one entry into the rows adds it to the sum over the rows, whichever row it meets. */
  lemma FoldRowSum(rows: Rows, model: string, t: Totals, which: Selection)
    requires MildCosts(rows + [(model, t)], which)
    ensures Sum(FoldRow(rows, model, t), which) ==
      if which.Picks(model) then Add(Sum(rows, which), t) else Sum(rows, which)
  {
    AddUnits(t);
    SumSnoc(rows, (model, t), which);
    hide Add, Sum, MildCosts;
    match IndexOf(rows, model)
    case None =>
      assert FoldRow(rows, model, t) == rows + [(model, t)];
    case Some(i) =>
      var a, x, b := rows[..i], rows[i], rows[i + 1..];
      assert rows == a + [x] + b;
      assert FoldRow(rows, model, t) == a + [(x.0, Add(x.1, t))] + b;
      MergedRow(a, x, b, t, which);
  }

  lemma MergedAmount(x: Totals, t: Totals)
    ensures Amount(Add(x, t), CostUp) <= Amount(x, CostUp) + Amount(t, CostUp)
    ensures Amount(Add(x, t), CostDown) <= Amount(x, CostDown) + Amount(t, CostDown)
    ensures Amount(Add(x, t), EstimateUp) <= Amount(x, EstimateUp) + Amount(t, EstimateUp)
    ensures Amount(Add(x, t), EstimateDown) <= Amount(x, EstimateDown) + Amount(t, EstimateDown)
  {
    hide AddU;
  }

  lemma MergedIsWithin(x: Row, t: Totals, which: Selection)
    ensures Within([(x.0, Add(x.1, t))], [x] + [(x.0, t)], which)
  {
    var row, merged := (x.0, t), (x.0, Add(x.1, t));
    MergedAmount(x.1, t);
    hide Total, Add, Amount;
    forall column ensures Total([x] + [row], which, column) == Share(x, which, column) + Share(row, which, column)
      && Total([merged], which, column) == Share(merged, which, column)
    {
      TotalConcat([x], [row], which, column);
      OneShare(x, which, column);
      OneShare(row, which, column);
      OneShare(merged, which, column);
    }
  }

  lemma WithinMiddle(a: seq<Row>, m: seq<Row>, m': seq<Row>, b: seq<Row>, which: Selection)
    requires Within(m, m', which)
    ensures Within(a + m + b, a + m' + b, which)
  {
    forall column
      ensures Total(a + m + b, which, column) == Total(a, which, column) + Total(m, which, column) + Total(b, which, column)
      ensures Total(a + m' + b, which, column) == Total(a, which, column) + Total(m', which, column) + Total(b, which, column)
    {
      TotalConcat(a + m, b, which, column);
      TotalConcat(a, m, which, column);
      TotalConcat(a + m', b, which, column);
      TotalConcat(a, m', which, column);
    }
    hide Total;
  }

  lemma WithinTransitive(a: seq<Row>, b: seq<Row>, c: seq<Row>, which: Selection)
    requires Within(a, b, which) && Within(b, c, which)
    ensures Within(a, c, which)
  {
    hide Total;
  }

  lemma WithinPermuted(a: seq<Row>, b: seq<Row>, which: Selection)
    requires Permuted(a, b)
    ensures Within(a, b, which)
  {
    hide Total, Permuted;
    TotalPermuted(a, b, which, CostUp);
    TotalPermuted(a, b, which, CostDown);
    TotalPermuted(a, b, which, EstimateUp);
    TotalPermuted(a, b, which, EstimateDown);
  }

  /** Merging an entry into its row makes no side of the costs larger. */
  lemma FoldRowWithin(rows: Rows, model: string, t: Totals, which: Selection)
    ensures Within(FoldRow(rows, model, t), rows + [(model, t)], which)
  {
    AddUnits(t);
    match IndexOf(rows, model)
    case None =>
      assert FoldRow(rows, model, t) == rows + [(model, t)];
    case Some(i) =>
      var a, x, b := rows[..i], rows[i], rows[i + 1..];
      var row, merged := (x.0, t), (x.0, Add(x.1, t));
      assert rows == a + [x] + b;
      assert FoldRow(rows, model, t) == a + [merged] + b;
      assert Permuted(a + ([x] + [row]) + b, rows + [row]);
      hide Add, Within, Permuted;
      MergedIsWithin(x, t, which);
      WithinMiddle(a, [merged], [x] + [row], b, which);
      WithinPermuted(a + ([x] + [row]) + b, rows + [row], which);
      WithinTransitive(a + [merged] + b, a + ([x] + [row]) + b, rows + [row], which);
  }

  // ------------------------------------------------------------ ledgers and their entries

  /** Rows that have the sum of some entries, and are no less mild. */
  ghost predicate RowsSum(rows: Rows, entries: seq<Row>, which: Selection) {
    Sum(rows, which) == Sum(entries, which) && Within(rows, entries, which)
  }

  /** A ledger shows the sums of some entries, in its totals and over its rows. */
  ghost predicate StandsFor(l: Ledger, entries: seq<Row>) {
    l.totals == Sum(entries, All) && forall which: Selection :: RowsSum(l.rows, entries, which)
  }

  lemma NothingStands()
    ensures StandsFor(EMPTY, [])
  {
  }

  lemma FoldedRowsSum(rows: Rows, entries: seq<Row>, row: Row, which: Selection)
    requires RowsSum(rows, entries, which) && MildCosts(entries + [row], which)
    ensures RowsSum(FoldRow(rows, row.0, row.1), entries + [row], which)
  {
    hide Add, Sum, FoldRow, MildCosts, Within;
    WithinLast(rows, entries, row, which);
    WithinIsMild(rows + [row], entries + [row], which);
    FoldRowSum(rows, row.0, row.1, which);
    SumSnoc(entries, row, which);
    FoldRowWithin(rows, row.0, row.1, which);
    WithinTransitive(FoldRow(rows, row.0, row.1), rows + [row], entries + [row], which);
  }

  lemma WithinLast(rows: Rows, entries: seq<Row>, row: Row, which: Selection)
    requires Within(rows, entries, which)
    ensures Within(rows + [row], entries + [row], which)
  {
    hide Within;
    WithinMiddle([], rows, entries, [row], which);
    assert [] + rows == rows && [] + entries == entries;
  }

  lemma StandsStep(l: Ledger, entries: seq<Row>, row: Row)
    requires StandsFor(l, entries) && MildCosts(entries + [row], All)
    ensures StandsFor(FoldEntry(l, row.0, row.1), entries + [row])
  {
    SumSnoc(entries, row, All);
    hide Add, Sum, FoldRow, MildCosts, RowsSum;
    forall which: Selection ensures RowsSum(FoldRow(l.rows, row.0, row.1), entries + [row], which) {
      assert RowsSum(l.rows, entries, which);
      MildOfModel(entries + [row], which);
      FoldedRowsSum(l.rows, entries, row, which);
    }
  }

  lemma {:induction false} StandsMore(l: Ledger, entries: seq<Row>, more: seq<Row>)
    requires StandsFor(l, entries) && MildCosts(entries + more, All)
    ensures StandsFor(FoldEntries(l, more), entries + more)
  {
    hide StandsFor, MildCosts, FoldEntry;
    if more == [] {
      assert entries + more == entries;
    } else {
      var init, last := more[..|more| - 1], more[|more| - 1];
      assert entries + more == (entries + init) + [last];
      PartsAreWithin(entries + init, [last], All);
      WithinIsMild(entries + init, entries + more, All);
      StandsMore(l, entries, init);
      StandsStep(FoldEntries(l, init), entries + init, last);
    }
  }

  lemma FoldedStands(entries: seq<Row>)
    requires MildCosts(entries, All)
    ensures StandsFor(FoldEntries(EMPTY, entries), entries)
  {
    hide StandsFor, FoldEntries, MildCosts;
    NothingStands();
    assert [] + entries == entries;
    StandsMore(EMPTY, [], entries);
  }

  /** With mild costs each total of a ledger is the saturating column sum over `by_model`. */
  lemma TotalsAreColumnSums(entries: seq<Row>)
    requires MildCosts(entries, All)
    ensures var l := FoldEntries(EMPTY, entries); l.totals == Sum(l.rows, All)
  {
    FoldedStands(entries);
    var l := FoldEntries(EMPTY, entries);
    hide RowsSum, Sum, FoldEntries, MildCosts;
    assert RowsSum(l.rows, entries, All);
    RowsSumMeans(l.rows, entries, All);
  }

  lemma RowsSumMeans(rows: Rows, entries: seq<Row>, which: Selection)
    requires RowsSum(rows, entries, which)
    ensures Sum(rows, which) == Sum(entries, which) && Within(rows, entries, which)
  {
  }

  // ------------------------------------------------------------ nesting

  /** Rows may stand in for the entries they sum, behind any other entries. */
  lemma RowsForEntries(front: seq<Row>, rows: Rows, entries: seq<Row>, which: Selection)
    requires RowsSum(rows, entries, which) && MildCosts(front + entries, which)
    ensures RowsSum(front + rows, front + entries, which) && MildCosts(front + rows, which)
  {
    RowsSumMeans(rows, entries, which);
    hide Sum, Add, MildCosts, Within;
    WithinMiddle(front, rows, entries, [], which);
    assert front + rows + [] == front + rows && front + entries + [] == front + entries;
    WithinIsMild(front + rows, front + entries, which);
    SumConcat(front, rows, which);
    SumConcat(front, entries, which);
  }

  /** Folding a child's rows into a parent shows the same as folding the child's entries one by
      one. */
  ghost predicate NestsFlat(parent: seq<Row>, child: seq<Row>) {
    SameFigures(parent + FoldEntries(EMPTY, child).rows, parent + child)
  }

  lemma NestingIsFlattening(parent: seq<Row>, child: seq<Row>)
    requires MildCosts(parent + child, All)
    ensures NestsFlat(parent, child)
  {
    var rows := FoldEntries(EMPTY, child).rows;
    PartsAreWithin(parent, child, All);
    WithinIsMild(child, parent + child, All);
    FoldedStands(child);
    hide RowsSum, Sum, FoldEntries, MildCosts, Shown;
    forall which: Selection
      ensures Shown(FoldEntries(EMPTY, parent + rows), which) == Shown(FoldEntries(EMPTY, parent + child), which)
    {
      assert RowsSum(rows, child, which);
      MildOfModel(parent + child, which);
      RowsForEntries(parent, rows, child, which);
      RowsSumMeans(parent + rows, parent + child, which);
      ShownAreSums(parent + rows, which);
      ShownAreSums(parent + child, which);
    }
  }

  lemma StandsNested(l: Ledger, front: seq<Row>, child: Ledger, entries: seq<Row>)
    requires StandsFor(l, front) && StandsFor(child, entries) && MildCosts(front + entries, All)
    ensures StandsFor(FoldEntries(l, child.rows), front + entries)
  {
    var rows := child.rows;
    assert RowsSum(rows, entries, All);
    hide RowsSum, Sum, FoldEntries, MildCosts;
    RowsForEntries(front, rows, entries, All);
    RowsSumMeans(front + rows, front + entries, All);
    StandsMore(l, front, rows);
    var r := FoldEntries(l, rows);
    forall which: Selection ensures RowsSum(r.rows, front + entries, which) {
      assert RowsSum(rows, entries, which) && RowsSum(r.rows, front + rows, which);
      MildOfModel(front + entries, which);
      RowsForEntries(front, rows, entries, which);
      RowsSumChain(r.rows, front + rows, front + entries, which);
    }
  }

  lemma RowsSumChain(a: Rows, b: seq<Row>, c: seq<Row>, which: Selection)
    requires RowsSum(a, b, which) && RowsSum(b, c, which)
    ensures RowsSum(a, c, which)
  {
    hide Sum, Within;
    WithinTransitive(a, b, c, which);
  }

  /** Flags do not change what a ledger stands for. */
  lemma StandsWithFlags(l: Ledger, l': Ledger, entries: seq<Row>)
    requires StandsFor(l, entries) && l'.totals == l.totals && l'.rows == l.rows
    ensures StandsFor(l', entries)
  {
    hide RowsSum, Sum;
  }

  lemma {:induction false} NestedStands(events: seq<Event>)
    requires MildCosts(Flatten(events), All)
    ensures StandsFor(Execute(events), Flatten(events))
    decreases events
  {
    hide StandsFor, FoldEntries, FoldEntry, MildCosts;
    if events == [] {
      NothingStands();
    } else {
      var init, last := events[..|events| - 1], events[|events| - 1];
      var before, l := Flatten(init), Execute(init);
      var after := if last.Call? then [(last.model, last.call)] else if last.Mark? then [] else Flatten(last.run);
      assert Flatten(events) == before + after;
      PartsAreWithin(before, after, All);
      WithinIsMild(before, before + after, All);
      WithinIsMild(after, before + after, All);
      NestedStands(init);
      match last {
        case Call(model, call) =>
          StandsStep(l, before, (model, call));
          StandsWithFlags(FoldEntry(l, model, call), Execute(events), before + after);
        case Subagent(run, _) =>
          NestedStands(run);
          StandsNested(l, before, Execute(run), after);
          StandsWithFlags(FoldEntries(l, Execute(run).rows), Execute(events), before + after);
        case Mark =>
          assert before + after == before;
          StandsWithFlags(l, Execute(events), before + after);
      }
    }
  }

  /** However deep the nesting, with mild costs a ledger's totals and rows are the saturating
      sums over every call made below it. */
  lemma NestedRun(events: seq<Event>, which: Selection)
    requires MildCosts(Flatten(events), All)
    ensures var l := Execute(events);
      && l.totals == Sum(Flatten(events), All)
      && Sum(l.rows, which) == Sum(Flatten(events), which)
  {
    NestedStands(events);
    hide RowsSum, Sum, Execute, Flatten, MildCosts;
    assert RowsSum(Execute(events).rows, Flatten(events), which);
    RowsSumMeans(Execute(events).rows, Flatten(events), which);
  }

  /** Whatever the costs, only a ledger's own calls count as turns, and it is incomplete iff it
      was marked so or a subagent of its own came back incomplete. */
  lemma {:induction false} NestedFlags(events: seq<Event>)
    ensures var l := Execute(events);
      && (l.incomplete <==> Flagged(events))
      && l.mainLoopCalls == if MainCalls(events) > U64_MAX then U64_MAX else MainCalls(events)
  {
    hide FoldEntries, Flagged, FoldRow, Add;
    if events == [] {
      NothingFlagged();
    } else {
      var init, last := events[..|events| - 1], events[|events| - 1];
      assert events == init + [last];
      FlaggedMore(init, last);
      NestedFlags(init);
      if last.Subagent? {
        KeepsFlags(Execute(init), Execute(last.run).rows);
      }
    }
  }
}
