/** The daily and the period view of one operations list, compared column by column and unit by unit. */
module FinanceReconciliation {
  import opened Dicts
  import opened Keys
  import opened FinanceRows
  import opened FinanceFold
  import opened FinanceAllocation
  import opened FinanceReport

  /** A column restricted to operations that have a date. */
  function Dated(h: Operation -> int): Operation -> int {
    (op: Operation) => if op.day.Some? then h(op) else 0
  }

  /** A column restricted to operations without one: no day can show them. */
  function Undated(h: Operation -> int): Operation -> int {
    (op: Operation) => if op.day.None? then h(op) else 0
  }

  function DaySum(rows: seq<Operation>, h: Operation -> int): int -> int {
    (day: int) => Sum(OnDay(rows, day), h)
  }

  /** Days partition the dated operations. */
  lemma {:induction false} DaysPartition(rows: seq<Operation>, days: seq<int>, h: Operation -> int)
    requires Distinct(days) && forall op :: op in rows && op.day.Some? ==> op.day.value in days
    ensures Sum(days, DaySum(rows, h)) == Sum(rows, Dated(h))
  {
    if rows == [] {
      SumBounds(days, DaySum(rows, h), 0, 0);
    } else {
      var front, op := rows[..|rows| - 1], rows[|rows| - 1];
      assert rows == front + [op];
      DaysPartition(front, days, h);
      forall day ensures DaySum(rows, h)(day) ==
        DaySum(front, h)(day) + if op.day == Some(day) then h(op) else 0
      {
        OnDayStep(front, op, day, h);
      }
      if op.day.Some? {
        SumChange(days, op.day.value, DaySum(front, h), DaySum(rows, h));
      } else {
        SumSame(days, DaySum(front, h), DaySum(rows, h));
      }
    }
  }

  lemma OnDayStep(front: seq<Operation>, op: Operation, day: int, h: Operation -> int)
    ensures OnDay(front + [op], day) == OnDay(front, day) + if op.day == Some(day) then [op] else []
    ensures Sum(OnDay(front + [op], day), h) ==
      Sum(OnDay(front, day), h) + if op.day == Some(day) then h(op) else 0
  {
    assert (front + [op])[..|front|] == front;
    SumAppend(OnDay(front, day), op, h);
    assert OnDay(front, day) + [] == OnDay(front, day);
  }

  lemma DatedSplit(rows: seq<Operation>, h: Operation -> int)
    ensures Sum(rows, h) == Sum(rows, Dated(h)) + Sum(rows, Undated(h))
  {
    SumPlus(rows, Dated(h), Undated(h), h);
  }

  lemma {:induction false} OnDayMembers(rows: seq<Operation>, day: int)
    ensures forall op :: op in OnDay(rows, day) <==> op in rows && op.day == Some(day)
  {
    if rows != [] {
      var front, last := rows[..|rows| - 1], rows[|rows| - 1];
      assert rows == front + [last];
      OnDayMembers(front, day);
    }
  }

  /** The sum of a column over all days of the daily report. */
  function DailyTotal(rows: seq<Operation>, p: Period, g: SkuRow -> int): int {
    Total(DailyReport(rows, p), (d: Aggregates) => Total(d, g))
  }

  /** The sum over all days of one article's column. */
  function DailyAt(rows: seq<Operation>, p: Period, k: NmId, g: SkuRow -> int): int {
    Total(DailyReport(rows, p), (d: Aggregates) => At(d, k, g))
  }

  // ---- Costs ----

  lemma PeriodReportValid(rows: seq<Operation>, p: Period)
    ensures PeriodReport(rows, p).Valid()
    ensures PeriodReport(rows, p).order != [] <==> HasArticle(rows)
  {
    var d := Fold(rows, p);
    PeriodOrder(rows, p);
    AllocatedTotal(d, Globals(rows), NO_AGGREGATES, Penalty);
    AllocatedOrder(d, Globals(rows), NO_AGGREGATES);
    FinalizeTotal(Allocated(d, Globals(rows), NO_AGGREGATES), 1, CostOf(Penalty));
  }

  /** Each single day is conserved too, even one that has account-level rows only. */
  lemma DayConserves(rows: seq<Operation>, p: Period, day: int, f: Field)
    ensures Total(DayReport(rows, p, day), CostOf(f)) ==
      if HasArticle(rows) then RawTotal(OnDay(rows, day), f) else 0
  {
    PeriodReportValid(rows, p);
    OnDayMembers(rows, day);
    ReportTotal(OnDay(rows, day), p, PeriodReport(rows, p), f);
  }

  lemma DailyCosts(rows: seq<Operation>, p: Period, f: Field)
    ensures DailyTotal(rows, p, CostOf(f)) == if HasArticle(rows) then Sum(rows, Dated(CostIn(f))) else 0
  {
    var daily, g := DailyReport(rows, p), CostOf(f);
    var total := (d: Aggregates) => Total(d, g);
    DailyReportAt(rows, p, 0);
    DaysCovered(rows, p);
    forall day | day in daily.order
      ensures At(daily, day, total) == if HasArticle(rows) then DaySum(rows, CostIn(f))(day) else 0
    {
      DailyReportAt(rows, p, day);
      DayConserves(rows, p, day, f);
    }
    if HasArticle(rows) {
      SumSame(daily.order, day => At(daily, day, total), DaySum(rows, CostIn(f)));
      DaysPartition(rows, daily.order, CostIn(f));
    } else {
      SumBounds(daily.order, day => At(daily, day, total), 0, 0);
    }
  }

  /**
   * Account totals of a cost agree between the two views exactly when no cost of that kind is undated
   * (or there is no article, and both views are empty).
   */
  lemma CostsReconcile(rows: seq<Operation>, p: Period, f: Field)
    ensures DailyTotal(rows, p, CostOf(f)) == Total(PeriodReport(rows, p), CostOf(f)) <==>
      !HasArticle(rows) || Sum(rows, Undated(CostIn(f))) == 0
  {
    DailyCosts(rows, p, f);
    ReportTotal(rows, p, NO_AGGREGATES, f);
    DatedSplit(rows, CostIn(f));
  }

  // ---- Seller revenue ----

  function SignedRevenue(p: Period): Operation -> int {
    (op: Operation) =>
      if op.document.Sale? then RevenueInPeriod(op, p)
      else if op.document.Return? then -RevenueInPeriod(op, p)
      else 0
  }

  /** A column that operations move by h, and neither account-level costs nor the commission. */
  ghost predicate OwnColumn(g: SkuRow -> int, h: Operation -> int, p: Period) {
    Additive(g, h, p) && FinalizeKeeps(g) && forall f :: Moves(Crediter(f), g, false)
  }

  /** In any report of rows, period or day, such a column holds the sum over the article's operations. */
  lemma ColumnAt(
    rows: seq<Operation>, p: Period, fallback: Aggregates, k: NmId, g: SkuRow -> int, h: Operation -> int)
    requires OwnColumn(g, h, p)
    ensures At(FinalizeAll(Allocated(Fold(rows, p), Globals(rows), fallback)), k, g) == Sum(rows, OfArticle(k, h))
  {
    var d := Fold(rows, p);
    FoldAt(rows, p, k, g, h);
    FoldValid(rows, p);
    AllocatedUntouched(d, Globals(rows), fallback, k, g);
    FinalizeTotal(Allocated(d, Globals(rows), fallback), k, g);
  }

  /** Over all days it holds the sum over the article's dated operations. */
  lemma ColumnOverDays(rows: seq<Operation>, p: Period, k: NmId, g: SkuRow -> int, h: Operation -> int)
    requires OwnColumn(g, h, p)
    ensures DailyAt(rows, p, k, g) == Sum(rows, Dated(OfArticle(k, h)))
  {
    var daily, own := DailyReport(rows, p), OfArticle(k, h);
    var at := (d: Aggregates) => At(d, k, g);
    DailyReportAt(rows, p, 0);
    DaysCovered(rows, p);
    forall day | day in daily.order ensures At(daily, day, at) == DaySum(rows, own)(day) {
      DailyReportAt(rows, p, day);
      ColumnAt(OnDay(rows, day), p, PeriodReport(rows, p), k, g, h);
    }
    SumSame(daily.order, day => At(daily, day, at), DaySum(rows, own));
    DaysPartition(rows, daily.order, own);
  }

  /** Every article's seller revenue over all days is its revenue for the period, dated or not. */
  lemma SellerRevenueReconciles(rows: seq<Operation>, p: Period, k: NmId)
    ensures DailyAt(rows, p, k, SellerRevenue()) == At(PeriodReport(rows, p), k, SellerRevenue())
  {
    var g, h := SellerRevenue(), SignedRevenue(p);
    assert Additive(g, h, p);
    ColumnOverDays(rows, p, k, g, h);
    ColumnAt(rows, p, NO_AGGREGATES, k, g, h);
    DatedSplit(rows, OfArticle(k, h));
    SumBounds(rows, Undated(OfArticle(k, h)), 0, 0);
  }
}
