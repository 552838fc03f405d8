/** Mild costs are exactly what column sums and nesting need: with other costs both fail for
    some order of recording and some spread of the entries over models. */
module UsageLimits {
  import opened Wrappers
  import opened UsageLedger
  import opened UsageOrder
  import opened UsageNesting

  // ------------------------------------------------------------ spreading entries over models

  function Labelled(entries: seq<Row>, model: string): (r: seq<Row>)
    ensures |r| == |entries| && forall i | 0 <= i < |r| :: r[i] == (model, entries[i].1)
  {
    seq(|entries|, i requires 0 <= i < |entries| => (model, entries[i].1))
  }

  /** The same figures, in any order and under any models. */
  ghost predicate Spread(a: seq<Row>, b: seq<Row>) {
    Permuted(Labelled(a, ""), Labelled(b, ""))
  }

  ghost predicate SameSeconds(a: seq<Row>, b: seq<Row>) {
    |a| == |b| && forall i | 0 <= i < |a| :: a[i].1 == b[i].1
  }

  lemma {:induction false} NamesDoNotCount(a: seq<Row>, b: seq<Row>, column: Column)
    requires SameSeconds(a, b)
    ensures Total(a, All, column) == Total(b, All, column) && Sum(a, All) == Sum(b, All)
  {
    hide Amount, Add;
    if a != [] {
      NamesDoNotCount(a[..|a| - 1], b[..|b| - 1], column);
    }
  }

  lemma SpreadTotals(a: seq<Row>, b: seq<Row>, column: Column)
    requires Spread(a, b)
    ensures Total(a, All, column) == Total(b, All, column)
  {
    hide Total, Permuted;
    NamesDoNotCount(a, Labelled(a, ""), column);
    NamesDoNotCount(b, Labelled(b, ""), column);
    TotalPermuted(Labelled(a, ""), Labelled(b, ""), All, column);
  }

  lemma SpreadIsMild(a: seq<Row>, b: seq<Row>)
    requires Spread(a, b) && MildCosts(a, All)
    ensures MildCosts(b, All)
  {
    hide Total, Spread;
    SpreadTotals(a, b, CostUp);
    SpreadTotals(a, b, CostDown);
    SpreadTotals(a, b, EstimateUp);
    SpreadTotals(a, b, EstimateDown);
  }

  // ------------------------------------------------------------ a front, one entry, and a back

  function Signed(entries: seq<Row>, kind: Kind): int {
    Total(entries, All, UpColumn(kind)) - Total(entries, All, DownColumn(kind))
  }

  lemma SignedConcat(a: seq<Row>, b: seq<Row>, kind: Kind)
    ensures Signed(a + b, kind) == Signed(a, kind) + Signed(b, kind)
  {
    hide Total;
    TotalConcat(a, b, All, UpColumn(kind));
    TotalConcat(a, b, All, DownColumn(kind));
  }

  lemma SignedOne(row: Row, kind: Kind)
    ensures Signed([row], kind) == Ticks(row.1, kind)
  {
    OneShare(row, All, UpColumn(kind));
    OneShare(row, All, DownColumn(kind));
    hide Total, Ticks, UpColumn, DownColumn, Share;
    ShareOfTicks(row, kind);
  }

  lemma SignedSide(side: seq<Row>, kind: Kind, lowering: bool)
    requires OneSided(side, kind, lowering)
    ensures if lowering then Signed(side, kind) <= 0 else Signed(side, kind) >= 0
  {
    hide Total, OneSided;
    OtherSideAddsNothing(side, kind, lowering);
  }

  lemma SidedTicks(front: seq<Row>, side: seq<Row>, kind: Kind, lowering: bool)
    requires OneSided(side, kind, lowering)
    ensures var start: int := Ticks(Sum(front, All), kind);
      Ticks(Sum(front + side, All), kind) == ClampI(start + Signed(side, kind))
  {
    hide Total, Ticks, Sum, OneSided, ClampI;
    OneSidedTicks(front, side, kind, lowering);
    OtherSideAddsNothing(side, kind, lowering);
  }

  /** Costs of one sign, `x` among them, leave the range together; `n` has the other sign. */
  predicate Wild(p: int, x: int, n: int) {
    || (p + x > I64_MAX && p >= 0 && 0 < x <= I64_MAX && n < 0)
    || (p + x < I64_MIN && p <= 0 && I64_MIN <= x < 0 && n > 0)
  }

  ghost predicate WildSplit(front: seq<Row>, u: Row, back: seq<Row>, kind: Kind, lowering: bool) {
    && OneSided(front, kind, lowering) && OneSided([u], kind, lowering) && OneSided(back, kind, !lowering)
    && Wild(Signed(front, kind), Ticks(u.1, kind), Signed(back, kind))
  }

  lemma WildFigures(p: int, x: int, n: int)
    requires Wild(p, x, n)
    ensures ClampI(ClampI(p + x) + n) != ClampI(ClampI(ClampI(p) + n) + x)
    ensures ClampI(ClampI(p + x) + n) != ClampI(ClampI(p) + ClampI(x + n))
  {
  }

  lemma SideJoin(a: seq<Row>, b: seq<Row>, kind: Kind, lowering: bool)
    requires OneSided(a, kind, lowering) && OneSided(b, kind, lowering)
    ensures OneSided(a + b, kind, lowering)
  {
  }

  /** What the entries come to when they are recorded front, single entry, back. */
  lemma FlatTicks(front: seq<Row>, u: Row, back: seq<Row>, kind: Kind, lowering: bool)
    requires WildSplit(front, u, back, kind, lowering)
    ensures var p, x: int, n := Signed(front, kind), Ticks(u.1, kind), Signed(back, kind);
      Ticks(Sum(front + [u] + back, All), kind) == ClampI(ClampI(p + x) + n)
  {
    SideJoin(front, [u], kind, lowering);
    hide Signed, Ticks, Sum, OneSided, ClampI, Wild;
    NoTicks(kind);
    assert [] + (front + [u]) == front + [u];
    SidedTicks([], front + [u], kind, lowering);
    SignedConcat(front, [u], kind);
    SignedOne(u, kind);
    SidedTicks(front + [u], back, kind, !lowering);
  }

  lemma FrontTicks(front: seq<Row>, kind: Kind, lowering: bool)
    requires OneSided(front, kind, lowering)
    ensures Ticks(Sum(front, All), kind) == ClampI(Signed(front, kind))
  {
    hide *;
    NoTicks(kind);
    assert [] + front == front;
    SidedTicks([], front, kind, lowering);
  }

  // ------------------------------------------------------------ rows of such ledgers

  lemma {:induction false} OneModelRows(entries: seq<Row>, model: string)
    requires entries != [] && forall i | 0 <= i < |entries| :: entries[i].0 == model
    ensures FoldEntries(EMPTY, entries).rows == [(model, Sum(entries, All))]
  {
    hide Add;
    if |entries| > 1 {
      OneModelRows(entries[..|entries| - 1], model);
    } else {
      assert entries[..0] == [];
    }
  }

  lemma {:induction false} TwoModelRows(front: seq<Row>, u: Row, back: seq<Row>)
    requires front != [] && u.0 == "b"
    requires (forall i | 0 <= i < |front| :: front[i].0 == "a") && (forall i | 0 <= i < |back| :: back[i].0 == "a")
    ensures FoldEntries(EMPTY, front + [u] + back).rows == [("a", Sum(front + back, All)), ("b", u.1)]
  {
    AddUnits(u.1);
    if back == [] {
      assert front + [u] + back == front + [u] && front + back == front;
      assert (front + [u])[..|front|] == front;
      OneModelRows(front, "a");
      hide Add, Sum;
    } else {
      var init, last := back[..|back| - 1], back[|back| - 1];
      assert front + [u] + back == (front + [u] + init) + [last];
      assert front + back == (front + init) + [last];
      TwoModelRows(front, u, init);
      hide Add, Sum;
      SumSnoc(front + init, last, All);
      FoldSnoc(front + [u] + init, last);
    }
  }

  lemma FoldSnoc(entries: seq<Row>, row: Row)
    ensures FoldEntries(EMPTY, entries + [row]).rows == FoldRow(FoldEntries(EMPTY, entries).rows, row.0, row.1)
  {
    assert (entries + [row])[..|entries|] == entries;
    hide FoldRow, Add;
  }

  lemma TwoRowsTicks(s: Totals, u: Totals, kind: Kind)
    ensures Ticks(Sum([("a", s), ("b", u)], All), kind) == AddI(Ticks(s, kind), Ticks(u, kind))
  {
    assert [("a", s), ("b", u)] == [("a", s)] + [("b", u)] && [] + [("a", s)] == [("a", s)];
    hide Sum, Add, Ticks, AddI;
    SumOfNothing(All);
    SumSnoc([], ("a", s), All);
    SumSnoc([("a", s)], ("b", u), All);
    AddUnits(s);
    TicksAdded(s, u, kind);
  }

  lemma SplitParts(front: seq<Row>, u: Row, back: seq<Row>, kind: Kind, lowering: bool)
    requires WildSplit(front, u, back, kind, lowering)
    ensures OneSided(front, kind, lowering) && OneSided(back, kind, !lowering)
    ensures Wild(Signed(front, kind), Ticks(u.1, kind), Signed(back, kind))
  {
  }

  /** The entries spread over two models: the front and the back under one, the single entry
      under the other. */
  function TwoModels(front: seq<Row>, u: Row, back: seq<Row>): seq<Row> {
    Labelled(front, "a") + [("b", u.1)] + Labelled(back, "a")
  }

  lemma TwoModelLedger(front: seq<Row>, u: Row, back: seq<Row>)
    requires front != []
    ensures var l := FoldEntries(EMPTY, TwoModels(front, u, back));
      l.totals == Sum(front + [u] + back, All) && l.rows == [("a", Sum(front + back, All)), ("b", u.1)]
  {
    var a, v, d := Labelled(front, "a"), ("b", u.1), Labelled(back, "a");
    assert SameSeconds(a + [v] + d, front + [u] + back) && SameSeconds(a + d, front + back);
    TwoModelRows(a, v, d);
    hide Labelled, Sum, FoldEntries;
    NamesDoNotCount(a + [v] + d, front + [u] + back, CostUp);
    NamesDoNotCount(a + d, front + back, CostUp);
    FoldTotals(a + [v] + d);
  }

  /** So spread, such entries break the column sums. */
  lemma ColumnSumsFail(front: seq<Row>, u: Row, back: seq<Row>, kind: Kind, lowering: bool)
    requires WildSplit(front, u, back, kind, lowering) && front != []
    ensures var l := FoldEntries(EMPTY, TwoModels(front, u, back)); l.totals != Sum(l.rows, All)
  {
    hide *;
    TwoModelLedger(front, u, back);
    SplitParts(front, u, back, kind, lowering);
    FlatTicks(front, u, back, kind, lowering);
    FrontTicks(front, kind, lowering);
    SidedTicks(front, back, kind, !lowering);
    TwoRowsTicks(Sum(front + back, All), u.1, kind);
    AddIsClamp(Ticks(Sum(front + back, All), kind), Ticks(u.1, kind));
    WildFigures(Signed(front, kind), Ticks(u.1, kind), Signed(back, kind));
  }

  lemma AddIsClamp(a: I64, b: I64)
    ensures AddI(a, b) == ClampI(a as int + b as int)
  {
  }

  lemma FoldTotals(entries: seq<Row>)
    ensures FoldEntries(EMPTY, entries).totals == Sum(entries, All)
  {
    hide FoldEntries, Sum;
    ShownAreSums(entries, All);
  }

  lemma OneModelChild(front: seq<Row>, u: Row, back: seq<Row>)
    requires forall row | row in [u] + back :: row.0 == ""
    ensures FoldEntries(EMPTY, [u] + back).rows == [("", Sum([u] + back, All))]
    ensures front + ([u] + back) == front + [u] + back
  {
    var child := [u] + back;
    assert forall i | 0 <= i < |child| :: child[i] in child;
    OneModelRows(child, "");
  }

  /** What the parent shows after folding the child's one row. */
  lemma NestedTicks(front: seq<Row>, u: Row, back: seq<Row>, kind: Kind, lowering: bool)
    requires WildSplit(front, u, back, kind, lowering)
    ensures Ticks(Sum(front + [("", Sum([u] + back, All))], All), kind) ==
      ClampI(ClampI(Signed(front, kind)) + ClampI(Ticks(u.1, kind) as int + Signed(back, kind)))
  {
    var row := ("", Sum([u] + back, All));
    assert All.Picks(row.0);
    hide *;
    SplitParts(front, u, back, kind, lowering);
    FrontTicks(front, kind, lowering);
    SingleTicks(u, kind);
    SidedTicks([u], back, kind, !lowering);
    SumSnoc(front, row, All);
    TicksAdded(Sum(front, All), row.1, kind);
    AddIsClamp(Ticks(Sum(front, All), kind), Ticks(row.1, kind));
  }

  /** Under one model, such entries break nesting. */
  lemma NestingFails(front: seq<Row>, u: Row, back: seq<Row>, kind: Kind, lowering: bool)
    requires WildSplit(front, u, back, kind, lowering)
    requires forall row | row in [u] + back :: row.0 == ""
    ensures !NestsFlat(front, [u] + back)
  {
    var child := [u] + back;
    OneModelChild(front, u, back);
    if NestsFlat(front, child) {
      assert SameFigures(front + [("", Sum(child, All))], front + child);
      hide *;
      SameTotals(front + [("", Sum(child, All))], front + child);
      NestedTicks(front, u, back, kind, lowering);
      FlatTicks(front, u, back, kind, lowering);
      SplitParts(front, u, back, kind, lowering);
      WildFigures(Signed(front, kind), Ticks(u.1, kind), Signed(back, kind));
    }
  }

  lemma SingleTicks(u: Row, kind: Kind)
    ensures Ticks(Sum([u], All), kind) == Ticks(u.1, kind)
  {
    assert [] + [u] == [u];
    hide Sum, Add, Ticks;
    SumSnoc([], u, All);
    SumOfNothing(All);
    AddUnits(u.1);
  }

  // ------------------------------------------------------------ finding the split

  lemma {:induction false} SomeTicks(side: seq<Row>, kind: Kind, lowering: bool) returns (i: nat)
    requires OneSided(side, kind, lowering) && Signed(side, kind) != 0
    ensures i < |side| && Ticks(side[i].1, kind) != 0
  {
    hide Ticks;
    var init, last := side[..|side| - 1], side[|side| - 1];
    assert side == init + [last] by { NotEmpty(side, kind); }
    if Ticks(last.1, kind) != 0 {
      i := |side| - 1;
    } else {
      SignedConcat(init, [last], kind);
      SignedOne(last, kind);
      hide Signed;
      i := SomeTicks(init, kind, lowering);
    }
  }

  lemma NotEmpty(side: seq<Row>, kind: Kind)
    requires Signed(side, kind) != 0
    ensures side != []
  {
  }

  lemma SideSigned(entries: seq<Row>, kind: Kind)
    ensures Signed(Side(entries, kind, false), kind) == Total(entries, All, UpColumn(kind))
    ensures Signed(Side(entries, kind, true), kind) == -(Total(entries, All, DownColumn(kind)) as int)
  {
    hide Total, Side, UpColumn, DownColumn;
    SideTotals(entries, kind);
    SidesOneSided(entries, kind, false);
    SidesOneSided(entries, kind, true);
    OtherSideAddsNothing(Side(entries, kind, false), kind, false);
    OtherSideAddsNothing(Side(entries, kind, true), kind, true);
  }

  /** A side without one of its entries. */
  lemma TakeOut(side: seq<Row>, i: nat, kind: Kind, lowering: bool)
    requires OneSided(side, kind, lowering) && i < |side|
    ensures var front := side[..i] + side[i + 1..];
      && OneSided(front, kind, lowering) && OneSided([side[i]], kind, lowering)
      && Signed(side, kind) == Signed(front, kind) + Ticks(side[i].1, kind)
      && multiset(front) + multiset{side[i]} == multiset(side)
  {
    var a, u, b := side[..i], side[i], side[i + 1..];
    assert side == a + [u] + b;
    hide Ticks, Signed;
    SignedConcat(a + [u], b, kind);
    SignedConcat(a, [u], kind);
    SignedConcat(a, b, kind);
    SignedOne(u, kind);
  }

  lemma EmptySigned(kind: Kind)
    ensures Signed([], kind) == 0
  {
  }

  /** Costs that are not mild can be reordered into a front, one entry and a back of which the
      front and the entry leave the range together. */
  lemma FindSplit(r: seq<Row>, kind: Kind) returns (front: seq<Row>, u: Row, back: seq<Row>, lowering: bool)
    requires !Mild(Total(r, All, UpColumn(kind)), Total(r, All, DownColumn(kind)))
    ensures WildSplit(front, u, back, kind, lowering) && front != []
    ensures Permuted(r, front + [u] + back)
  {
    lowering := Total(r, All, UpColumn(kind)) <= I64_MAX;
    var side := Side(r, kind, lowering);
    back := Side(r, kind, !lowering);
    SideSigned(r, kind);
    SidesOneSided(r, kind, lowering);
    SidesOneSided(r, kind, !lowering);
    SidesPermuted(r, kind);
    hide Total, Side, UpColumn, DownColumn, Signed, Ticks;
    var i := SomeTicks(side, kind, lowering);
    TakeOut(side, i, kind, lowering);
    front, u := side[..i] + side[i + 1..], side[i];
    SignedSide(front, kind, lowering);
    EmptySigned(kind);
    assert OneSided([u], kind, lowering) ==> (Ticks([u][0].1, kind) < 0 <==> lowering);
  }

  lemma PermutedMembers(a: seq<Row>, b: seq<Row>, row: Row)
    requires Permuted(a, b) && row in b
    ensures row in a
  {
    assert row in multiset(b);
    assert row in multiset(a);
  }

  /** The split of entries without models, and the two ways of recording it. */
  lemma SplitOf(entries: seq<Row>, kind: Kind) returns (front: seq<Row>, u: Row, back: seq<Row>)
    requires !Mild(Total(entries, All, UpColumn(kind)), Total(entries, All, DownColumn(kind)))
    ensures Spread(entries, TwoModels(front, u, back)) && Spread(entries, front + ([u] + back))
    ensures var l := FoldEntries(EMPTY, TwoModels(front, u, back)); l.totals != Sum(l.rows, All)
    ensures !NestsFlat(front, [u] + back)
  {
    var r := Labelled(entries, "");
    NamesDoNotCount(entries, r, UpColumn(kind));
    NamesDoNotCount(entries, r, DownColumn(kind));
    hide Total, FoldEntries, Sum, UpColumn, DownColumn, WildSplit, Mild, NestsFlat;
    var lowering: bool;
    front, u, back, lowering := FindSplit(r, kind);
    forall row | row in front + [u] + back ensures row.0 == "" {
      PermutedMembers(r, front + [u] + back, row);
    }
    UnlabelledSplit(front, u, back);
    ColumnSumsFail(front, u, back, kind, lowering);
    forall row | row in [u] + back ensures row.0 == "" {
      assert row in front + [u] + back;
    }
    NestingFails(front, u, back, kind, lowering);
  }

  lemma UnlabelledSplit(front: seq<Row>, u: Row, back: seq<Row>)
    requires forall row | row in front + [u] + back :: row.0 == ""
    ensures Labelled(TwoModels(front, u, back), "") == front + [u] + back
    ensures Labelled(front + ([u] + back), "") == front + [u] + back
  {
    var all := front + [u] + back;
    assert forall i | 0 <= i < |all| :: all[i] in all;
    assert |TwoModels(front, u, back)| == |all|;
    forall i | 0 <= i < |all| ensures TwoModels(front, u, back)[i].1 == all[i].1 {
    }
  }

  // ------------------------------------------------------------ the theorems

  ghost predicate ColumnsAdd(entries: seq<Row>) {
    var l := FoldEntries(EMPTY, entries); l.totals == Sum(l.rows, All)
  }

  /** However some figures are ordered and spread over models, the ledger's totals are the column
      sums over its rows, if and only if their costs are mild. */
  lemma ColumnSumsIff(entries: seq<Row>)
    ensures (forall b | Spread(entries, b) :: ColumnsAdd(b)) <==> MildCosts(entries, All)
  {
    hide Total, FoldEntries, Sum, Spread, TwoModels, NestsFlat, Mild;
    if MildCosts(entries, All) {
      forall b | Spread(entries, b) ensures ColumnsAdd(b) {
        SpreadIsMild(entries, b);
        TotalsAreColumnSums(b);
      }
    } else {
      var kind := WildKind(entries);
      var front, u, back := SplitOf(entries, kind);
      assert !ColumnsAdd(TwoModels(front, u, back));
    }
  }

  lemma WildKind(entries: seq<Row>) returns (kind: Kind)
    requires !MildCosts(entries, All)
    ensures !Mild(Total(entries, All, UpColumn(kind)), Total(entries, All, DownColumn(kind)))
  {
    hide Total, Mild;
    kind := if Mild(Total(entries, All, CostUp), Total(entries, All, CostDown)) then Estimated else Gateway;
  }

  /** However some figures are ordered, spread over models and divided between a parent and a
      child, folding the child's rows is folding its entries, if and only if their costs are
      mild. */
  lemma NestingIff(entries: seq<Row>)
    ensures (forall parent, child | Spread(entries, parent + child) :: NestsFlat(parent, child)) <==>
      MildCosts(entries, All)
  {
    hide Total, FoldEntries, Sum, Spread, TwoModels, NestsFlat, Mild;
    if MildCosts(entries, All) {
      forall parent, child | Spread(entries, parent + child) ensures NestsFlat(parent, child) {
        SpreadIsMild(entries, parent + child);
        NestingIsFlattening(parent, child);
      }
    } else {
      var kind := WildKind(entries);
      var front, u, back := SplitOf(entries, kind);
      assert Spread(entries, front + ([u] + back)) && !NestsFlat(front, [u] + back);
    }
  }

  function CostOf(model: string, cost: I64): Row {
    (model, ZERO.(cost := Some(cost)))
  }

  /** Three entries, one of them negative, whose totals are not the sums over the rows, and which
      a parent and a child cannot share. */
  lemma NegativeCostsBreakSums()
    ensures !ColumnsAdd([CostOf("a", I64_MAX), CostOf("b", 1), CostOf("a", -1)])
    ensures !NestsFlat([CostOf("", I64_MAX)], [CostOf("", 1), CostOf("", -1)])
  {
    var x, u, y := CostOf("", I64_MAX), CostOf("", 1), CostOf("", -1);
    ThreeSplit(x, u, y);
    assert TwoModels([x], u, [y]) == [CostOf("a", I64_MAX), CostOf("b", 1), CostOf("a", -1)];
    assert [u] + [y] == [u, y];
    hide *;
    ColumnSumsFail([x], u, [y], Gateway, false);
    assert forall row | row in [u, y] :: row.0 == "" by { Unnamed(u, y); }
    NestingFails([x], u, [y], Gateway, false);
  }

  lemma Unnamed(u: Row, y: Row)
    requires u == CostOf("", 1) && y == CostOf("", -1)
    ensures forall row | row in [u, y] :: row.0 == ""
  {
  }

  lemma ThreeSplit(x: Row, u: Row, y: Row)
    requires Ticks(x.1, Gateway) == I64_MAX && Ticks(u.1, Gateway) == 1 && Ticks(y.1, Gateway) == -1
    ensures WildSplit([x], u, [y], Gateway, false)
  {
    hide Signed, Ticks;
    SignedOne(x, Gateway);
    SignedOne(y, Gateway);
  }
}
