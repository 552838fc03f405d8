/** When the order of recording matters: saturation forgets what it cuts off, so it does once
    costs of both signs are recorded and one side alone leaves the range of the counter. */
module UsageOrder {
  import opened Wrappers
  import opened UsageLedger

  // ------------------------------------------------------------ exact column totals

  datatype Column =
    | InputTokens | OutputTokens | CachedReadTokens | CacheWriteTokens | ReasoningTokens
    | ModelCalls | ApiDurationMs | CostMissingCalls
    | CostUp | CostDown | CostSet | EstimateUp | EstimateDown | EstimateSet

  function Up(c: Option<I64>): nat {
    if c.GetOr(0) > 0 then c.GetOr(0) else 0
  }

  function Down(c: Option<I64>): nat {
    var ticks: int := c.GetOr(0);
    if ticks < 0 then -ticks else 0
  }

  function Amount(t: Totals, column: Column): nat {
    match column
    case InputTokens => t.inputTokens
    case OutputTokens => t.outputTokens
    case CachedReadTokens => t.cachedReadTokens
    case CacheWriteTokens => t.cacheWriteTokens
    case ReasoningTokens => t.reasoningTokens
    case ModelCalls => t.modelCalls
    case ApiDurationMs => t.apiDurationMs
    case CostMissingCalls => t.costMissingCalls
    case CostUp => Up(t.cost)
    case CostDown => Down(t.cost)
    case CostSet => if t.cost.Some? then 1 else 0
    case EstimateUp => Up(t.estimatedCost)
    case EstimateDown => Down(t.estimatedCost)
    case EstimateSet => if t.estimatedCost.Some? then 1 else 0
  }

  function Share(row: Row, which: Selection, column: Column): nat {
    if which.Picks(row.0) then Amount(row.1, column) else 0
  }

  /** The unbounded total of one column over the selected entries. */
  function Total(entries: seq<Row>, which: Selection, column: Column): nat {
    if entries == [] then 0
    else Total(entries[..|entries| - 1], which, column) + Share(entries[|entries| - 1], which, column)
  }

  lemma {:induction false} TotalConcat(a: seq<Row>, b: seq<Row>, which: Selection, column: Column)
    ensures Total(a + b, which, column) == Total(a, which, column) + Total(b, which, column)
  {
    hide Share;
    if b == [] {
      assert a + b == a;
    } else {
      assert (a + b)[..|a + b| - 1] == a + b[..|b| - 1];
      TotalConcat(a, b[..|b| - 1], which, column);
    }
  }

  ghost predicate Permuted(a: seq<Row>, b: seq<Row>) {
    multiset(a) == multiset(b)
  }

  lemma TotalRemove(b: seq<Row>, i: nat, which: Selection, column: Column)
    requires i < |b|
    ensures Total(b, which, column) == Total(b[..i] + b[i + 1..], which, column) + Share(b[i], which, column)
  {
    var x, y := b[..i], b[i + 1..];
    assert b == x + [b[i]] + y;
    OneShare(b[i], which, column);
    hide Share, Total;
    TotalConcat(x + [b[i]], y, which, column);
    TotalConcat(x, [b[i]], which, column);
    TotalConcat(x, y, which, column);
  }

  lemma {:induction false} TotalPermuted(a: seq<Row>, b: seq<Row>, which: Selection, column: Column)
    requires Permuted(a, b)
    ensures Total(a, which, column) == Total(b, which, column)
    decreases |a|
  {
    if a == [] {
      assert |multiset(b)| == 0;
    } else {
      hide Share, Total;
      var n := |a| - 1;
      assert a[n] in multiset(a);
      var i :| 0 <= i < |b| && b[i] == a[n];
      WithoutOne(a, n);
      WithoutOne(b, i);
      TotalPermuted(a[..n] + a[n + 1..], b[..i] + b[i + 1..], which, column);
      TotalRemove(a, n, which, column);
      TotalRemove(b, i, which, column);
    }
  }

  lemma OneShare(row: Row, which: Selection, column: Column)
    ensures Total([row], which, column) == Share(row, which, column)
  {
    assert [row][..0] == [];
  }

  // ------------------------------------------------------------ sums in closed form

  /** Costs of one sign only, or so small on either side that no order saturates. */
  predicate Mild(up: nat, down: nat) {
    up == 0 || down == 0 || (up <= I64_MAX && down <= -I64_MIN)
  }

  predicate MildCosts(entries: seq<Row>, which: Selection) {
    && Mild(Total(entries, which, CostUp), Total(entries, which, CostDown))
    && Mild(Total(entries, which, EstimateUp), Total(entries, which, EstimateDown))
  }

  function ClampU(n: nat): U64 {
    if n > U64_MAX then U64_MAX else n
  }

  function ClampI(n: int): I64 {
    if n > I64_MAX then I64_MAX else if n < I64_MIN then I64_MIN else n
  }

  function Money(some: nat, up: nat, down: nat): Option<I64> {
    if some == 0 then None else Some(ClampI(up - down))
  }

  /** What the sum is if no order saturates: every column total, clamped once. */
  function Clamped(total: Column -> nat): Totals {
    Totals(
      ClampU(total(InputTokens)), ClampU(total(OutputTokens)),
      ClampU(total(CachedReadTokens)), ClampU(total(CacheWriteTokens)),
      ClampU(total(ReasoningTokens)), ClampU(total(ModelCalls)), ClampU(total(ApiDurationMs)),
      Money(total(CostSet), total(CostUp), total(CostDown)),
      Money(total(EstimateSet), total(EstimateUp), total(EstimateDown)),
      ClampU(total(CostMissingCalls)))
  }

  lemma MergeMild(some: nat, up: nat, down: nat, c: Option<I64>)
    requires some == 0 ==> up == 0 && down == 0
    requires Mild(up + Up(c), down + Down(c))
    ensures MergeCost(Money(some, up, down), c) ==
      Money(some + (if c.Some? then 1 else 0), up + Up(c), down + Down(c))
  {
  }

  lemma {:induction false} SetCovers(entries: seq<Row>, which: Selection)
    ensures Total(entries, which, CostSet) == 0 ==>
      Total(entries, which, CostUp) == 0 && Total(entries, which, CostDown) == 0
    ensures Total(entries, which, EstimateSet) == 0 ==>
      Total(entries, which, EstimateUp) == 0 && Total(entries, which, EstimateDown) == 0
  {
    if entries != [] {
      SetCovers(entries[..|entries| - 1], which);
    }
  }

  /** With mild costs every figure of a ledger is its exact column total, clamped once. */
  lemma {:induction false} SumIsClamped(entries: seq<Row>, which: Selection)
    requires MildCosts(entries, which)
    ensures Sum(entries, which) == Clamped(column => Total(entries, which, column))
  {
    if entries == [] {
      NothingClamped(which);
    } else {
      var init, last := entries[..|entries| - 1], entries[|entries| - 1];
      ForallColumns(entries, which);
      assert MildCosts(init, which);
      SumIsClamped(init, which);
      SetCovers(init, which);
      hide Total, Sum, Mild, Money;
      if which.Picks(last.0) {
        AddClamped(column => Total(init, which, column), last.1, column => Total(entries, which, column));
      } else {
        SameClamped(column => Total(init, which, column), column => Total(entries, which, column));
      }
      SumStep(entries, which);
    }
  }

  lemma SumStep(entries: seq<Row>, which: Selection)
    requires entries != []
    ensures var init, last := entries[..|entries| - 1], entries[|entries| - 1];
      Sum(entries, which) == if which.Picks(last.0) then Add(Sum(init, which), last.1) else Sum(init, which)
  {
  }

  lemma ForallColumns(entries: seq<Row>, which: Selection)
    requires entries != []
    ensures var init, last := entries[..|entries| - 1], entries[|entries| - 1];
      forall column :: Total(entries, which, column) == Total(init, which, column) + Share(last, which, column)
  {
  }

  lemma NothingClamped(which: Selection)
    ensures Sum([], which) == Clamped(column => Total([], which, column))
  {
  }

  lemma SameClamped(a: Column -> nat, b: Column -> nat)
    requires forall column :: a(column) == b(column)
    ensures Clamped(a) == Clamped(b)
  {
  }

  lemma AddClamped(a: Column -> nat, t: Totals, b: Column -> nat)
    requires forall column :: b(column) == a(column) + Amount(t, column)
    requires a(CostSet) == 0 ==> a(CostUp) == 0 && a(CostDown) == 0
    requires a(EstimateSet) == 0 ==> a(EstimateUp) == 0 && a(EstimateDown) == 0
    requires Mild(b(CostUp), b(CostDown)) && Mild(b(EstimateUp), b(EstimateDown))
    ensures Add(Clamped(a), t) == Clamped(b)
  {
    CountsClamped(a, t, b);
    CostsClamped(a, t, b);
    hide MergeCost, Money, Mild, AddU, ClampU, Amount;
  }

  lemma CountsClamped(a: Column -> nat, t: Totals, b: Column -> nat)
    requires forall column :: b(column) == a(column) + Amount(t, column)
    ensures AddU(ClampU(a(InputTokens)), t.inputTokens) == ClampU(b(InputTokens))
    ensures AddU(ClampU(a(OutputTokens)), t.outputTokens) == ClampU(b(OutputTokens))
    ensures AddU(ClampU(a(CachedReadTokens)), t.cachedReadTokens) == ClampU(b(CachedReadTokens))
    ensures AddU(ClampU(a(CacheWriteTokens)), t.cacheWriteTokens) == ClampU(b(CacheWriteTokens))
    ensures AddU(ClampU(a(ReasoningTokens)), t.reasoningTokens) == ClampU(b(ReasoningTokens))
    ensures AddU(ClampU(a(ModelCalls)), t.modelCalls) == ClampU(b(ModelCalls))
    ensures AddU(ClampU(a(ApiDurationMs)), t.apiDurationMs) == ClampU(b(ApiDurationMs))
    ensures AddU(ClampU(a(CostMissingCalls)), t.costMissingCalls) == ClampU(b(CostMissingCalls))
  {
  }

  lemma CostsClamped(a: Column -> nat, t: Totals, b: Column -> nat)
    requires forall column :: b(column) == a(column) + Amount(t, column)
    requires a(CostSet) == 0 ==> a(CostUp) == 0 && a(CostDown) == 0
    requires a(EstimateSet) == 0 ==> a(EstimateUp) == 0 && a(EstimateDown) == 0
    requires Mild(b(CostUp), b(CostDown)) && Mild(b(EstimateUp), b(EstimateDown))
    ensures MergeCost(Money(a(CostSet), a(CostUp), a(CostDown)), t.cost)
         == Money(b(CostSet), b(CostUp), b(CostDown))
    ensures MergeCost(Money(a(EstimateSet), a(EstimateUp), a(EstimateDown)), t.estimatedCost)
         == Money(b(EstimateSet), b(EstimateUp), b(EstimateDown))
  {
    hide MergeCost, Money, Up, Down, Mild;
    MergeMild(a(CostSet), a(CostUp), a(CostDown), t.cost);
    MergeMild(a(EstimateSet), a(EstimateUp), a(EstimateDown), t.estimatedCost);
  }

  lemma {:induction false} TokenColumns(entries: seq<Row>, which: Selection)
    ensures Sum(entries, which).inputTokens == ClampU(Total(entries, which, InputTokens))
    ensures Sum(entries, which).outputTokens == ClampU(Total(entries, which, OutputTokens))
  {
    hide MergeCost;
    if entries != [] {
      TokenColumns(entries[..|entries| - 1], which);
    }
  }

  /** The total tokens of a ledger or a row are those of its entries, clamped once, whatever the
      costs. */
  lemma TotalTokensAreExact(entries: seq<Row>, which: Selection)
    ensures Shown(FoldEntries(EMPTY, entries), which).TotalTokens() ==
      ClampU(Total(entries, which, InputTokens) + Total(entries, which, OutputTokens))
  {
    TokenColumns(entries, which);
    hide Total, Sum, FoldEntries, Shown;
    ShownAreSums(entries, which);
  }

  // ------------------------------------------------------------ two orders that differ

  datatype Kind = Gateway | Estimated

  function Ticks(t: Totals, kind: Kind): I64 {
    (if kind.Gateway? then t.cost else t.estimatedCost).GetOr(0)
  }

  function UpColumn(kind: Kind): Column {
    if kind.Gateway? then CostUp else EstimateUp
  }

  function DownColumn(kind: Kind): Column {
    if kind.Gateway? then CostDown else EstimateDown
  }

  /** The entries that do not lower the cost, or those that do. */
  function Side(entries: seq<Row>, kind: Kind, lowering: bool): seq<Row> {
    if entries == [] then []
    else
      var rest := Side(entries[..|entries| - 1], kind, lowering);
      var last := entries[|entries| - 1];
      if Ticks(last.1, kind) < 0 <==> lowering then rest + [last] else rest
  }

  ghost predicate OneSided(entries: seq<Row>, kind: Kind, lowering: bool) {
    forall i | 0 <= i < |entries| :: Ticks(entries[i].1, kind) < 0 <==> lowering
  }

  lemma {:induction false} SidesOneSided(entries: seq<Row>, kind: Kind, lowering: bool)
    ensures OneSided(Side(entries, kind, lowering), kind, lowering)
  {
    hide Ticks;
    if entries != [] {
      SidesOneSided(entries[..|entries| - 1], kind, lowering);
    }
  }

  lemma {:induction false} SidesPermuted(entries: seq<Row>, kind: Kind)
    ensures multiset(Side(entries, kind, false)) + multiset(Side(entries, kind, true)) == multiset(entries)
  {
    hide Ticks;
    if entries != [] {
      SidesPermuted(entries[..|entries| - 1], kind);
      assert entries == entries[..|entries| - 1] + [entries[|entries| - 1]];
    }
  }

  lemma BothOrders(entries: seq<Row>, kind: Kind)
    ensures var ups, downs := Side(entries, kind, false), Side(entries, kind, true);
      Permuted(entries, ups + downs) && Permuted(entries, downs + ups)
  {
    SidesPermuted(entries, kind);
    hide Side;
  }

  lemma TicksAdded(a: Totals, b: Totals, kind: Kind)
    ensures Ticks(Add(a, b), kind) == AddI(Ticks(a, kind), Ticks(b, kind))
  {
    hide AddU;
  }

  lemma LastTicks(entries: seq<Row>, kind: Kind)
    requires entries != []
    ensures var init, last := entries[..|entries| - 1], entries[|entries| - 1];
      Ticks(Sum(entries, All), kind) == AddI(Ticks(Sum(init, All), kind), Ticks(last.1, kind))
  {
    hide Add, AddI, Ticks;
    TicksAdded(Sum(entries[..|entries| - 1], All), entries[|entries| - 1].1, kind);
  }

  lemma ShareOfTicks(row: Row, kind: Kind)
    ensures var ticks: int := Ticks(row.1, kind);
      && Share(row, All, UpColumn(kind)) == (if ticks > 0 then ticks else 0)
      && Share(row, All, DownColumn(kind)) == (if ticks < 0 then -ticks else 0)
  {
  }

  /** Behind any entries, costs of one sign are added up and clamped at their end of the range. */
  lemma {:induction false} OneSidedTicks(front: seq<Row>, side: seq<Row>, kind: Kind, lowering: bool)
    requires OneSided(side, kind, lowering)
    ensures var start: int := Ticks(Sum(front, All), kind);
      Ticks(Sum(front + side, All), kind) ==
        if lowering then ClampI(start - Total(side, All, DownColumn(kind)))
        else ClampI(start + Total(side, All, UpColumn(kind)))
  {
    hide Ticks, Sum, Share, UpColumn, DownColumn;
    if side == [] {
      assert front + side == front;
    } else {
      var init, last := side[..|side| - 1], side[|side| - 1];
      assert (front + side)[..|front + side| - 1] == front + init;
      OneSidedTicks(front, init, kind, lowering);
      LastTicks(front + side, kind);
      ShareOfTicks(last, kind);
    }
  }

  lemma {:induction false} OtherSideAddsNothing(side: seq<Row>, kind: Kind, lowering: bool)
    requires OneSided(side, kind, lowering)
    ensures Total(side, All, if lowering then UpColumn(kind) else DownColumn(kind)) == 0
  {
    hide Ticks, Share, UpColumn, DownColumn;
    if side != [] {
      OtherSideAddsNothing(side[..|side| - 1], kind, lowering);
      ShareOfTicks(side[|side| - 1], kind);
    }
  }

  /** The sides carry the whole rise and the whole fall. */
  lemma SideTotals(entries: seq<Row>, kind: Kind)
    ensures Total(Side(entries, kind, false), All, UpColumn(kind)) == Total(entries, All, UpColumn(kind))
    ensures Total(Side(entries, kind, true), All, DownColumn(kind)) == Total(entries, All, DownColumn(kind))
  {
    var ups, downs := Side(entries, kind, false), Side(entries, kind, true);
    var u, d := UpColumn(kind), DownColumn(kind);
    SidesOneSided(entries, kind, false);
    SidesOneSided(entries, kind, true);
    BothOrders(entries, kind);
    OtherSideAddsNothing(ups, kind, false);
    OtherSideAddsNothing(downs, kind, true);
    hide Side, Total, Permuted, OneSided, UpColumn, DownColumn;
    TotalPermuted(entries, ups + downs, All, u);
    TotalPermuted(entries, ups + downs, All, d);
    TotalConcat(ups, downs, All, u);
    TotalConcat(ups, downs, All, d);
  }

  function RaisingFirst(up: int, down: int): I64 {
    ClampI(ClampI(up) - down)
  }

  function LoweringFirst(up: int, down: int): I64 {
    ClampI(ClampI(-down) + up)
  }

  lemma NoTicks(kind: Kind)
    ensures Ticks(Sum([], All), kind) == 0
  {
  }

  lemma SideAlone(side: seq<Row>, kind: Kind, lowering: bool)
    requires OneSided(side, kind, lowering)
    ensures Ticks(Sum(side, All), kind) ==
      if lowering then ClampI(-(Total(side, All, DownColumn(kind)) as int)) else ClampI(Total(side, All, UpColumn(kind)))
  {
    hide *;
    NoTicks(kind);
    assert [] + side == side;
    OneSidedTicks([], side, kind, lowering);
  }

  lemma TwoSidesTicks(ups: seq<Row>, downs: seq<Row>, kind: Kind)
    requires OneSided(ups, kind, false) && OneSided(downs, kind, true)
    ensures var up, down := Total(ups, All, UpColumn(kind)), Total(downs, All, DownColumn(kind));
      && Ticks(Sum(ups + downs, All), kind) == RaisingFirst(up, down)
      && Ticks(Sum(downs + ups, All), kind) == LoweringFirst(up, down)
  {
    hide Ticks, Sum, Total, OneSided, UpColumn, DownColumn, ClampI;
    SideAlone(ups, kind, false);
    SideAlone(downs, kind, true);
    OneSidedTicks(ups, downs, kind, true);
    OneSidedTicks(downs, ups, kind, false);
  }

  /** What the cost is with the raising entries first, and with the lowering ones first. */
  lemma SortedTicks(entries: seq<Row>, kind: Kind)
    ensures var ups, downs := Side(entries, kind, false), Side(entries, kind, true);
      var up, down := Total(entries, All, UpColumn(kind)), Total(entries, All, DownColumn(kind));
      && Ticks(Sum(ups + downs, All), kind) == RaisingFirst(up, down)
      && Ticks(Sum(downs + ups, All), kind) == LoweringFirst(up, down)
  {
    hide Ticks, Sum, Side, Total, OneSided, UpColumn, DownColumn, RaisingFirst, LoweringFirst;
    SidesOneSided(entries, kind, false);
    SidesOneSided(entries, kind, true);
    SideTotals(entries, kind);
    TwoSidesTicks(Side(entries, kind, false), Side(entries, kind, true), kind);
  }

  lemma MildIff(up: nat, down: nat)
    ensures Mild(up, down) <==> RaisingFirst(up, down) == LoweringFirst(up, down)
  {
  }

  // ------------------------------------------------------------ the theorem

  ghost predicate SameFigures(a: seq<Row>, b: seq<Row>) {
    forall which: Selection :: Shown(FoldEntries(EMPTY, a), which) == Shown(FoldEntries(EMPTY, b), which)
  }

  lemma {:induction false} ShareOfModel(entries: seq<Row>, which: Selection, column: Column)
    ensures Total(entries, which, column) <= Total(entries, All, column)
  {
    hide Amount;
    if entries != [] {
      ShareOfModel(entries[..|entries| - 1], which, column);
    }
  }

  lemma MildMeansSame(a: seq<Row>, b: seq<Row>, which: Selection)
    requires Permuted(a, b) && MildCosts(a, All)
    ensures Shown(FoldEntries(EMPTY, a), which) == Shown(FoldEntries(EMPTY, b), which)
  {
    forall column ensures Total(a, which, column) == Total(b, which, column) {
      TotalPermuted(a, b, which, column);
    }
    ShareOfModel(a, which, CostUp);
    ShareOfModel(a, which, CostDown);
    ShareOfModel(a, which, EstimateUp);
    ShareOfModel(a, which, EstimateDown);
    hide Total, Permuted, Clamped, Shown, FoldEntries, Sum;
    SumIsClamped(a, which);
    SumIsClamped(b, which);
    SameClamped(column => Total(a, which, column), column => Total(b, which, column)) by { hide *; }
    ShownAreSums(a, which);
    ShownAreSums(b, which);
  }

  lemma SameMeansMild(entries: seq<Row>, kind: Kind)
    requires forall b | Permuted(entries, b) :: SameFigures(entries, b)
    ensures Mild(Total(entries, All, UpColumn(kind)), Total(entries, All, DownColumn(kind)))
  {
    var ups, downs := Side(entries, kind, false), Side(entries, kind, true);
    BothOrders(entries, kind);
    SameTotals(entries, ups + downs);
    SameTotals(entries, downs + ups);
    hide Permuted, SameFigures, Side, Total, Sum, UpColumn, DownColumn, Mild, RaisingFirst, LoweringFirst, Ticks;
    SortedTicks(entries, kind);
    MildIff(Total(entries, All, UpColumn(kind)), Total(entries, All, DownColumn(kind)));
  }

  lemma SameTotals(a: seq<Row>, b: seq<Row>)
    requires SameFigures(a, b)
    ensures Sum(a, All) == Sum(b, All)
  {
    hide Sum, FoldEntries, Shown;
    ShownAreSums(a, All);
    ShownAreSums(b, All);
  }

  /** The order of recording matters for no figure, neither a total nor a row, when no cost is
      negative or, more generally, when the costs are mild. */
  lemma {:induction false} OrderDoesNotMatter(a: seq<Row>, b: seq<Row>)
    requires Permuted(a, b) && (AllNonNegative(a) || MildCosts(a, All))
    ensures SameFigures(a, b)
  {
    if AllNonNegative(a) {
      NonNegativeIsMild(a, All);
    }
    hide AllNonNegative;
    forall which: Selection ensures Shown(FoldEntries(EMPTY, a), which) == Shown(FoldEntries(EMPTY, b), which) {
      MildMeansSame(a, b, which);
    }
  }

  lemma {:induction false} NonNegativeIsMild(entries: seq<Row>, which: Selection)
    requires AllNonNegative(entries)
    ensures Total(entries, which, CostDown) == 0 && Total(entries, which, EstimateDown) == 0
    ensures MildCosts(entries, which)
  {
    if entries != [] {
      NonNegativeIsMild(entries[..|entries| - 1], which);
      assert NonNegative(entries[|entries| - 1].1);
    }
  }

  /** The order of recording changes no figure of a ledger, neither a total nor a row, if and
      only if, for gateway costs and for estimates, all have one sign or neither the positive
      nor the negative ones alone leave the range of the counter. */
  lemma OrderIrrelevantIff(entries: seq<Row>)
    ensures (forall b | Permuted(entries, b) :: SameFigures(entries, b)) <==> MildCosts(entries, All)
  {
    if MildCosts(entries, All) {
      forall b | Permuted(entries, b) ensures SameFigures(entries, b) {
        forall which: Selection
          ensures Shown(FoldEntries(EMPTY, entries), which) == Shown(FoldEntries(EMPTY, b), which)
        {
          MildMeansSame(entries, b, which);
        }
      }
    }
    if forall b | Permuted(entries, b) :: SameFigures(entries, b) {
      SameMeansMild(entries, Gateway);
      SameMeansMild(entries, Estimated);
    }
  }

  function CostRow(cost: I64): Row {
    ("model", ZERO.(cost := Some(cost)))
  }

  /** With a negative cost it does: saturation forgets what it cut off. */
  lemma OrderMattersForNegativeCosts()
    ensures var x, y, z := CostRow(I64_MAX), CostRow(1), CostRow(-1);
      && multiset([x, y, z]) == multiset([y, z, x])
      && FoldEntries(EMPTY, [x, y, z]).totals != FoldEntries(EMPTY, [y, z, x]).totals
  {
    var x, y, z := CostRow(I64_MAX), CostRow(1), CostRow(-1);
    assert x.1.cost == Some(I64_MAX) && y.1.cost == Some(1) && z.1.cost == Some(-1);
    hide FoldEntries, CostRow, FoldRow, Add, MergeCost;
    ThreeEntries(x, y, z);
    ThreeEntries(y, z, x);
    Saturates();
  }

  lemma Saturates()
    ensures MergeCost(MergeCost(MergeCost(None, Some(I64_MAX)), Some(1)), Some(-1)) == Some(I64_MAX - 1)
    ensures MergeCost(MergeCost(MergeCost(None, Some(1)), Some(-1)), Some(I64_MAX)) == Some(I64_MAX)
  {
  }

  lemma ThreeEntries(x: Row, y: Row, z: Row)
    ensures FoldEntries(EMPTY, [x, y, z]).totals.cost
         == MergeCost(MergeCost(MergeCost(None, x.1.cost), y.1.cost), z.1.cost)
  {
    hide FoldRow;
    assert [x, y, z][..2] == [x, y] && [x, y][..1] == [x] && [x][..0] == [];
    assert FoldEntries(EMPTY, [x]).totals == Add(ZERO, x.1);
    assert FoldEntries(EMPTY, [x, y]).totals == Add(Add(ZERO, x.1), y.1);
  }
}
