/**
 * `aggregate_finance_report_rows`: the same operations folded once for the period and once per day. Days are
 * rebuilt from operations, never from rounded period rows, so the two views have to agree by themselves.
 */
module FinanceReport {
  import opened Dicts
  import opened Keys
  import opened FinanceRows
  import opened FinanceFold
  import opened FinanceAllocation

  type Daily = Dict<int, Aggregates>

  function FinalizeAll(d: Aggregates): Aggregates {
    Dict(d.order, map k | k in d.at :: Finalize(d.at[k]))
  }

  function PeriodReport(rows: seq<Operation>, p: Period): Aggregates {
    FinalizeAll(Allocated(Fold(rows, p), Globals(rows), NO_AGGREGATES))
  }

  function DailyFold(rows: seq<Operation>, p: Period): Daily {
    if rows == [] then Dict([], map[])
    else DailyFoldOne(DailyFold(rows[..|rows| - 1], p), rows[|rows| - 1], p)
  }

  function DailyFoldOne(d: Daily, op: Operation, p: Period): Daily {
    if op.day.None? || op.nmId <= 0 then d
    else d.Put(op.day.value, FoldOne(d.GetOr(op.day.value, NO_AGGREGATES), op, p))
  }

  function DailyGlobals(rows: seq<Operation>): Dict<int, seq<Operation>> {
    if rows == [] then Dict([], map[])
    else DailyGlobalsOne(DailyGlobals(rows[..|rows| - 1]), rows[|rows| - 1])
  }

  function DailyGlobalsOne(d: Dict<int, seq<Operation>>, op: Operation): Dict<int, seq<Operation>> {
    if op.day.None? || op.nmId > 0 then d
    else d.Put(op.day.value, d.GetOr(op.day.value, []) + [op])
  }

  /** Account-level rows of each day in `days` are charged to that day's articles, or to the period's. */
  function ChargeDays(daily: Daily, globals: Dict<int, seq<Operation>>, period: Aggregates, days: seq<int>): Daily {
    if days == [] then daily else
      var before, day := ChargeDays(daily, globals, period, days[..|days| - 1]), days[|days| - 1];
      before.Put(day, Allocated(before.GetOr(day, NO_AGGREGATES), globals.GetOr(day, []), period))
  }

  function FinalizeDays(d: Daily): Daily {
    Dict(d.order, map day | day in d.at :: FinalizeAll(d.at[day]))
  }

  function DailyReport(rows: seq<Operation>, p: Period): Daily {
    var globals := DailyGlobals(rows);
    FinalizeDays(ChargeDays(DailyFold(rows, p), globals, PeriodReport(rows, p), globals.order))
  }

  // ---- What one day of the daily report is ----

  function OnDay(rows: seq<Operation>, day: int): seq<Operation> {
    if rows == [] then [] else
      OnDay(rows[..|rows| - 1], day) + (if rows[|rows| - 1].day == Some(day) then [rows[|rows| - 1]] else [])
  }

  /** The report one would make of that day's operations alone. */
  function DayReport(rows: seq<Operation>, p: Period, day: int): Aggregates {
    var today := OnDay(rows, day);
    FinalizeAll(Allocated(Fold(today, p), Globals(today), PeriodReport(rows, p)))
  }

  lemma {:induction false} DailyFoldAt(rows: seq<Operation>, p: Period, day: int)
    ensures DailyFold(rows, p).Valid() && DailyGlobals(rows).Valid()
    ensures DailyFold(rows, p).GetOr(day, NO_AGGREGATES) == Fold(OnDay(rows, day), p)
    ensures DailyGlobals(rows).GetOr(day, []) == Globals(OnDay(rows, day))
  {
    if rows != [] {
      var front, op := rows[..|rows| - 1], rows[|rows| - 1];
      DailyFoldAt(front, p, day);
      var today := OnDay(front, day);
      if op.day == Some(day) {
        assert (today + [op])[..|today|] == today;
        assert Globals(today + [op]) == Globals(today) + GlobalsOf(op);
        assert Globals(today) + [] == Globals(today);
      } else {
        assert OnDay(rows, day) == today;
      }
    }
  }

  lemma {:induction false} ChargeDaysAt(
    daily: Daily, globals: Dict<int, seq<Operation>>, period: Aggregates, days: seq<int>, day: int)
    requires daily.Valid() && Distinct(days)
    ensures ChargeDays(daily, globals, period, days).Valid()
    ensures ChargeDays(daily, globals, period, days).GetOr(day, NO_AGGREGATES) ==
      if day in days then Allocated(daily.GetOr(day, NO_AGGREGATES), globals.GetOr(day, []), period)
      else daily.GetOr(day, NO_AGGREGATES)
  {
    if days != [] {
      var front, last := days[..|days| - 1], days[|days| - 1];
      assert days == front + [last];
      ChargeDaysAt(daily, globals, period, front, day);
    }
  }

  /** Every day of the daily report is the report of that day's operations alone. */
  lemma DailyReportAt(rows: seq<Operation>, p: Period, day: int)
    ensures DailyReport(rows, p).Valid()
    ensures DailyReport(rows, p).GetOr(day, NO_AGGREGATES) == DayReport(rows, p, day)
  {
    var globals := DailyGlobals(rows);
    DailyFoldAt(rows, p, day);
    ChargeDaysAt(DailyFold(rows, p), globals, PeriodReport(rows, p), globals.order, day);
  }

  lemma {:induction false} DayPresent(rows: seq<Operation>, p: Period, op: Operation)
    requires op in rows && op.day.Some?
    ensures op.day.value in DailyFold(rows, p).at || op.day.value in DailyGlobals(rows).at
  {
    var front, last := rows[..|rows| - 1], rows[|rows| - 1];
    assert rows == front + [last];
    if op != last {
      DayPresent(front, p, op);
    }
  }

  lemma {:induction false} ChargeDaysKeeps(
    daily: Daily, globals: Dict<int, seq<Operation>>, period: Aggregates, days: seq<int>, day: int)
    requires day in daily.at || day in days
    ensures day in ChargeDays(daily, globals, period, days).at
  {
    if days != [] {
      var front, last := days[..|days| - 1], days[|days| - 1];
      assert days == front + [last];
      if day != last {
        ChargeDaysKeeps(daily, globals, period, front, day);
      }
    }
  }

  /** No dated operation falls outside the days of the report. */
  lemma DaysCovered(rows: seq<Operation>, p: Period)
    ensures forall op :: op in rows && op.day.Some? ==> op.day.value in DailyReport(rows, p).order
  {
    forall op | op in rows && op.day.Some? ensures op.day.value in DailyReport(rows, p).order {
      DayPresent(rows, p, op);
      DailyFoldAt(rows, p, op.day.value);
      var globals := DailyGlobals(rows);
      ChargeDaysKeeps(DailyFold(rows, p), globals, PeriodReport(rows, p), globals.order, op.day.value);
      DailyReportAt(rows, p, op.day.value);
    }
  }

  // ---- Totals ----

  ghost predicate FinalizeKeeps(g: SkuRow -> int) {
    forall row :: g(Finalize(row)) == g(row)
  }

  lemma FinalizeTotal(d: Aggregates, k: NmId, g: SkuRow -> int)
    requires FinalizeKeeps(g)
    ensures At(FinalizeAll(d), k, g) == At(d, k, g) && Total(FinalizeAll(d), g) == Total(d, g)
    ensures d.Valid() ==> FinalizeAll(d).Valid()
  {
    forall j ensures At(FinalizeAll(d), j, g) == At(d, j, g) {
      if j in d.at {
        var row: SkuRow := d.at[j];
        assert g(Finalize(row)) == g(row);
      }
    }
    SumSame(d.order, j => At(FinalizeAll(d), j, g), j => At(d, j, g));
  }

  ghost predicate HasArticle(rows: seq<Operation>) {
    exists op :: op in rows && op.nmId > 0
  }

  lemma PeriodOrder(rows: seq<Operation>, p: Period)
    ensures Fold(rows, p).Valid()
    ensures Fold(rows, p).order != [] <==> HasArticle(rows)
  {
    FoldValid(rows, p);
    FoldEmpty(rows, p);
  }

  lemma NoArticles(rows: seq<Operation>, p: Period, f: Field)
    requires !HasArticle(rows)
    ensures Total(Fold(rows, p), CostOf(f)) == 0
  {
    PeriodOrder(rows, p);
    var d := Fold(rows, p);
    SumBounds(d.order, k => At(d, k, CostOf(f)), 0, 0);
  }

  lemma ChargedTotal(rows: seq<Operation>, p: Period, fallback: Aggregates, f: Field)
    requires fallback.Valid()
    ensures Total(Allocated(Fold(rows, p), Globals(rows), fallback), CostOf(f)) ==
      if HasArticle(rows) || fallback.order != [] then RawTotal(rows, f) else 0
  {
    PeriodOrder(rows, p);
    CostAdditive(f, p);
    FoldTotal(rows, p, CostOf(f), CostIn(f));
    SplitGlobals(rows, CostIn(f));
    AllocatedTotal(Fold(rows, p), Globals(rows), fallback, f);
    if !HasArticle(rows) {
      NoArticles(rows, p, f);
    }
  }

  /** What a report of `rows` holds in one cost column, given some article to charge. */
  lemma ReportTotal(rows: seq<Operation>, p: Period, fallback: Aggregates, f: Field)
    requires fallback.Valid()
    ensures Total(FinalizeAll(Allocated(Fold(rows, p), Globals(rows), fallback)), CostOf(f)) ==
      if HasArticle(rows) || fallback.order != [] then RawTotal(rows, f) else 0
  {
    ChargedTotal(rows, p, fallback, f);
    var charged, g := Allocated(Fold(rows, p), Globals(rows), fallback), CostOf(f);
    assert FinalizeKeeps(g);
    FinalizeTotal(charged, 1, g);
  }

  /**
   * Conservation for the period: the articles' rows hold every kopeck of every cost, exactly when there is an
   * article to charge or there is nothing to lose.
   */
  lemma PeriodConserves(rows: seq<Operation>, p: Period, f: Field)
    ensures Total(PeriodReport(rows, p), CostOf(f)) == RawTotal(rows, f) <==>
      HasArticle(rows) || RawTotal(rows, f) == 0
  {
    ReportTotal(rows, p, NO_AGGREGATES, f);
  }

  // ---- The loops of the program ----

  /** `for row in result.values(): ... _finalize_finance_commission(row)` */
  method FinalizeRows(d: Aggregates) returns (result: Aggregates)
    requires d.Valid()
    ensures result == FinalizeAll(d)
  {
    var at := d.at;
    for i := 0 to |d.order|
      invariant at.Keys == d.at.Keys
      invariant forall k :: k in d.at ==> at[k] == if k in d.order[..i] then Finalize(d.at[k]) else d.at[k]
    {
      var nmId := d.order[i];
      TakenOnce(d.order, i);
      assert nmId in d.at;
      var row: SkuRow := at[nmId];
      at := at[nmId := Finalize(row)];
    }
    assert d.order[..|d.order|] == d.order;
    forall k | k in d.at ensures at[k] == Finalize(d.at[k]) {
      assert k in d.order;
    }
    result := Dict(d.order, at);
  }

  method FoldPeriod(rows: seq<Operation>, p: Period) returns (result: Aggregates, globals: seq<Operation>)
    ensures result == Fold(rows, p) && globals == Globals(rows)
  {
    result, globals := Dict([], map[]), [];
    for i := 0 to |rows|
      invariant result == Fold(rows[..i], p) && globals == Globals(rows[..i])
    {
      var item := rows[i];
      assert rows[..i + 1][..i] == rows[..i] && rows[..i + 1][i] == item;
      if item.nmId <= 0 {
        globals := globals + [item];
      } else {
        assert Globals(rows[..i + 1]) == globals + [] == globals;
        var row: SkuRow := result.GetOr(item.nmId, EMPTY_ROW);
        result := result.Put(item.nmId, Absorb(row, item, p));
      }
    }
    assert rows[..|rows|] == rows;
  }

  method FoldDays(rows: seq<Operation>, p: Period)
    returns (daily: Daily, globals: Dict<int, seq<Operation>>)
    ensures daily == DailyFold(rows, p) && globals == DailyGlobals(rows)
  {
    daily, globals := Dict([], map[]), Dict([], map[]);
    for i := 0 to |rows|
      invariant daily == DailyFold(rows[..i], p) && globals == DailyGlobals(rows[..i])
    {
      var item := rows[i];
      assert rows[..i + 1][..i] == rows[..i] && rows[..i + 1][i] == item;
      if item.day.Some? {
        var day := item.day.value;
        if item.nmId <= 0 {
          globals := globals.Put(day, globals.GetOr(day, []) + [item]);
        } else {
          var today := daily.GetOr(day, NO_AGGREGATES);
          var row: SkuRow := today.GetOr(item.nmId, EMPTY_ROW);
          daily := daily.Put(day, today.Put(item.nmId, Absorb(row, item, p)));
        }
      }
    }
    assert rows[..|rows|] == rows;
  }

  /** The whole function: both views of one list of operations. */
  method AggregateFinanceReportRows(rows: seq<Operation>, p: Period) returns (period: Aggregates, daily: Daily)
    ensures period == PeriodReport(rows, p)
    ensures daily == DailyReport(rows, p)
  {
    var folded, globals := FoldPeriod(rows, p);
    PeriodOrder(rows, p);
    AllocatedTotal(folded, globals, NO_AGGREGATES, Penalty);
    period := AllocateGlobalFinanceCosts(folded, globals, NO_AGGREGATES);
    period := FinalizeRows(period);
    FinalizeTotal(Allocated(folded, globals, NO_AGGREGATES), 1, CostOf(Penalty));

    var dailyGlobals;
    daily, dailyGlobals := FoldDays(rows, p);
    daily := ChargeEachDay(rows, p, daily, dailyGlobals, period);
    daily := FinalizeEachDay(daily);
  }

  ghost predicate AllValid(daily: Daily) {
    daily.Valid() && forall day :: day in daily.at ==> daily.at[day].Valid()
  }

  lemma DaysValid(rows: seq<Operation>, p: Period)
    ensures AllValid(DailyFold(rows, p))
  {
    DailyFoldAt(rows, p, 0);
    forall day | day in DailyFold(rows, p).at ensures DailyFold(rows, p).at[day].Valid() {
      DailyFoldAt(rows, p, day);
      FoldValid(OnDay(rows, day), p);
    }
  }

  lemma OneMoreDay(
    folded: Daily, globals: Dict<int, seq<Operation>>, period: Aggregates, days: seq<int>, i: nat, before: Daily)
    requires i < |days| && before == ChargeDays(folded, globals, period, days[..i])
    ensures ChargeDays(folded, globals, period, days[..i + 1]) == before.Put(days[i],
      Allocated(before.GetOr(days[i], NO_AGGREGATES), globals.GetOr(days[i], []), period))
  {
    assert days[..i + 1][..i] == days[..i];
  }

  lemma ChargedDayValid(daily: Daily, day: int, today: Aggregates, globals: seq<Operation>, period: Aggregates)
    requires AllValid(daily) && today.Valid() && period.Valid()
    ensures AllValid(daily.Put(day, Allocated(today, globals, period)))
  {
    AllocatedTotal(today, globals, period, Penalty);
    PutValid(daily, day, Allocated(today, globals, period));
  }

  lemma PutValid(daily: Daily, day: int, rows: Aggregates)
    requires AllValid(daily) && rows.Valid()
    ensures AllValid(daily.Put(day, rows))
  {
  }

  /** `for day_key, global_rows_for_day in daily_global_rows.items()` */
  method ChargeEachDay(
    rows: seq<Operation>, p: Period, folded: Daily, globals: Dict<int, seq<Operation>>, period: Aggregates)
    returns (daily: Daily)
    requires folded == DailyFold(rows, p) && globals == DailyGlobals(rows) && period.Valid()
    ensures daily == ChargeDays(folded, globals, period, globals.order)
    ensures forall day :: day in daily.at ==> daily.at[day].Valid()
    ensures daily.Valid()
  {
    daily := folded;
    DaysValid(rows, p);
    for i := 0 to |globals.order|
      invariant daily == ChargeDays(folded, globals, period, globals.order[..i]) && AllValid(daily)
    {
      var day := globals.order[i];
      OneMoreDay(folded, globals, period, globals.order, i, daily);
      var today := daily.GetOr(day, NO_AGGREGATES);
      ChargedDayValid(daily, day, today, globals.GetOr(day, []), period);
      var charged := AllocateGlobalFinanceCosts(today, globals.GetOr(day, []), period);
      daily := daily.Put(day, charged);
    }
    assert globals.order[..|globals.order|] == globals.order;
  }

  /** `for rows_by_nm in daily_result.values()` */
  method FinalizeEachDay(d: Daily) returns (daily: Daily)
    requires d.Valid() && forall day :: day in d.at ==> d.at[day].Valid()
    ensures daily == FinalizeDays(d)
  {
    var at := d.at;
    for i := 0 to |d.order|
      invariant at.Keys == d.at.Keys
      invariant forall day :: day in d.at ==>
        at[day] == if day in d.order[..i] then FinalizeAll(d.at[day]) else d.at[day]
    {
      var day := d.order[i];
      TakenOnce(d.order, i);
      assert day in d.at;
      var today := FinalizeRows(at[day]);
      at := at[day := today];
    }
    assert d.order[..|d.order|] == d.order;
    forall day | day in d.at ensures at[day] == FinalizeAll(d.at[day]) {
      assert day in d.order;
    }
    daily := Dict(d.order, at);
  }
}
