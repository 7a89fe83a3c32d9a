/**
 * What every column of a report is, in terms of the operations of the article alone: sums over its sales, its returns
 * and its other documents. The same for a period, for a day, and over all days.
 */
module FinanceColumns {
  import opened Dicts
  import opened Keys
  import opened Allocator
  import opened FinanceRows
  import opened FinanceFold
  import opened FinanceAllocation
  import opened FinanceReport
  import opened FinanceReconciliation
  import opened FinanceSettlement

  // ---- Amounts of one operation, and the operations that carry them ----

  type Amount = Operation -> int

  function BuyersPaid(): Amount {
    (op: Operation) => op.buyerRevenue
  }

  /** Dated from the first to the last day of the period. */
  function Earned(p: Period): Amount {
    (op: Operation) =>
      if op.day.Some? && p.first <= op.day.value && op.day.value <= p.last then op.sellerRevenue else 0
  }

  function Tariff(): Amount {
    (op: Operation) => if op.commissionFormula.Some? then op.commissionFormula.value else 0
  }

  function Claimed(): Amount {
    (op: Operation) => if op.reportedCommission.Some? then op.reportedCommission.value else 0
  }

  function Paid(): Amount {
    (op: Operation) => if op.payable.Some? then op.payable.value else 0
  }

  /** An amount on the article's sales only. */
  function OnSales(k: NmId, b: Amount): Amount {
    (op: Operation) => if op.nmId == k && op.document == Sale then b(op) else 0
  }

  function OnReturns(k: NmId, b: Amount): Amount {
    (op: Operation) => if op.nmId == k && op.document == Return then b(op) else 0
  }

  /** An amount on all of its documents but returns. */
  function OffReturns(k: NmId, b: Amount): Amount {
    (op: Operation) => if op.nmId == k && op.document != Return then b(op) else 0
  }

  /** The article's operations that satisfy a condition. */
  function Counting(k: NmId, c: Operation -> bool): Amount {
    (op: Operation) => if op.nmId == k && c(op) then 1 else 0
  }

  /** A sale or return with buyer revenue, or with seller revenue in the period. */
  function NeedsSettling(p: Period): Operation -> bool {
    (op: Operation) => op.document != Other && (op.buyerRevenue != 0 || Earned(p)(op) != 0)
  }

  function Any(): Operation -> bool {
    (op: Operation) => true
  }

  function HasPayable(): Operation -> bool {
    (op: Operation) => op.payable.Some?
  }

  function HasClaim(): Operation -> bool {
    (op: Operation) => op.reportedCommission.Some?
  }

  // ---- A report row of either kind ----

  /** A report of some rows: for the period without a fallback, for a day with the period's articles behind it. */
  function Charged(rows: seq<Operation>, p: Period, fallback: Aggregates): Aggregates {
    Allocated(Fold(rows, p), Globals(rows), fallback)
  }

  function RowOf(d: Aggregates, k: NmId): SkuRow {
    d.GetOr(k, EMPTY_ROW)
  }

  /** Before the commission is settled: what an additive column holds. */
  lemma ChargedColumn(
    rows: seq<Operation>, p: Period, fallback: Aggregates, k: NmId, g: SkuRow -> int, h: Amount)
    requires Additive(g, h, p) && forall f :: Moves(Crediter(f), g, false)
    ensures g(RowOf(Charged(rows, p, fallback), k)) == Sum(rows, OfArticle(k, h))
  {
    FoldAt(rows, p, k, g, h);
    FoldValid(rows, p);
    AllocatedUntouched(Fold(rows, p), Globals(rows), fallback, k, g);
  }

  /** Signed by the document: sales count up, returns down, others not at all. */
  lemma SalesLessReturns(rows: seq<Operation>, k: NmId, b: Amount, h: Amount)
    requires forall op :: h(op) == if op.document == Sale then b(op) else if op.document == Return then -b(op) else 0
    ensures Sum(rows, OfArticle(k, h)) == Sum(rows, OnSales(k, b)) - Sum(rows, OnReturns(k, b))
  {
    SumPlus(rows, OfArticle(k, h), OnReturns(k, b), OnSales(k, b));
  }

  /** Others count like sales. */
  lemma AllLessReturns(rows: seq<Operation>, k: NmId, b: Amount, h: Amount)
    requires forall op :: h(op) == if op.document == Return then -b(op) else b(op)
    ensures Sum(rows, OfArticle(k, h)) == Sum(rows, OffReturns(k, b)) - Sum(rows, OnReturns(k, b))
  {
    SumPlus(rows, OfArticle(k, h), OnReturns(k, b), OffReturns(k, b));
  }

  lemma Counted(rows: seq<Operation>, k: NmId, c: Operation -> bool, h: Amount)
    requires forall op :: h(op) == if c(op) then 1 else 0
    ensures Sum(rows, OfArticle(k, h)) == Sum(rows, Counting(k, c))
  {
    SumSame(rows, OfArticle(k, h), Counting(k, c));
  }

  // ---- Revenue, payable and the commission by formula and by report ----

  /** The columns that no account-level cost touches. */
  ghost predicate HoldsTrade(row: SkuRow, rows: seq<Operation>, p: Period, k: NmId) {
    && row.rowsCount == Sum(rows, Counting(k, Any()))
    && row.buyerRevenue == Sum(rows, OnSales(k, BuyersPaid())) - Sum(rows, OnReturns(k, BuyersPaid()))
    && row.sellerRevenue == Sum(rows, OnSales(k, Earned(p))) - Sum(rows, OnReturns(k, Earned(p)))
    && row.grossSales == Sum(rows, OnSales(k, Earned(p)))
    && row.returned == Sum(rows, OnReturns(k, Earned(p)))
    && row.commissionFormula == Sum(rows, OnSales(k, Tariff())) - Sum(rows, OnReturns(k, Tariff()))
    && row.payable == Sum(rows, OffReturns(k, Paid())) - Sum(rows, OnReturns(k, Paid()))
  }

  function BuyerRevenue(): SkuRow -> int {
    (row: SkuRow) => row.buyerRevenue
  }

  function FormulaCommission(): SkuRow -> int {
    (row: SkuRow) => row.commissionFormula
  }

  function Signed(b: Amount): Amount {
    (op: Operation) => if op.document == Sale then b(op) else if op.document == Return then -b(op) else 0
  }

  function Unsigned(b: Amount): Amount {
    (op: Operation) => if op.document == Return then -b(op) else b(op)
  }

  function If(b: Amount, document: Document): Amount {
    (op: Operation) => if op.document == document then b(op) else 0
  }

  lemma BuyerColumn(rows: seq<Operation>, p: Period, fallback: Aggregates, k: NmId)
    ensures RowOf(Charged(rows, p, fallback), k).buyerRevenue ==
      Sum(rows, OnSales(k, BuyersPaid())) - Sum(rows, OnReturns(k, BuyersPaid()))
  {
    ChargedColumn(rows, p, fallback, k, BuyerRevenue(), Signed(BuyersPaid()));
    SalesLessReturns(rows, k, BuyersPaid(), Signed(BuyersPaid()));
  }

  lemma FormulaColumn(rows: seq<Operation>, p: Period, fallback: Aggregates, k: NmId)
    ensures RowOf(Charged(rows, p, fallback), k).commissionFormula ==
      Sum(rows, OnSales(k, Tariff())) - Sum(rows, OnReturns(k, Tariff()))
  {
    ChargedColumn(rows, p, fallback, k, FormulaCommission(), Signed(Tariff()));
    SalesLessReturns(rows, k, Tariff(), Signed(Tariff()));
  }

  lemma SellerColumns(rows: seq<Operation>, p: Period, fallback: Aggregates, k: NmId)
    ensures var row := RowOf(Charged(rows, p, fallback), k);
      && row.grossSales == Sum(rows, OnSales(k, Earned(p))) && row.returned == Sum(rows, OnReturns(k, Earned(p)))
      && row.sellerRevenue == Sum(rows, OnSales(k, Earned(p))) - Sum(rows, OnReturns(k, Earned(p)))
  {
    var b := Earned(p);
    ChargedColumn(rows, p, fallback, k, SellerRevenue(), Signed(b));
    SalesLessReturns(rows, k, b, Signed(b));
    GrossColumns(rows, p, fallback, k);
  }

  lemma GrossColumns(rows: seq<Operation>, p: Period, fallback: Aggregates, k: NmId)
    ensures var row := RowOf(Charged(rows, p, fallback), k);
      row.grossSales == Sum(rows, OnSales(k, Earned(p))) && row.returned == Sum(rows, OnReturns(k, Earned(p)))
  {
    var b := Earned(p);
    ChargedColumn(rows, p, fallback, k, (row: SkuRow) => row.grossSales, If(b, Sale));
    SumSame(rows, OfArticle(k, If(b, Sale)), OnSales(k, b));
    ChargedColumn(rows, p, fallback, k, (row: SkuRow) => row.returned, If(b, Return));
    SumSame(rows, OfArticle(k, If(b, Return)), OnReturns(k, b));
  }

  lemma PayableColumn(rows: seq<Operation>, p: Period, fallback: Aggregates, k: NmId)
    ensures RowOf(Charged(rows, p, fallback), k).payable ==
      Sum(rows, OffReturns(k, Paid())) - Sum(rows, OnReturns(k, Paid()))
  {
    ChargedColumn(rows, p, fallback, k, Payable(), Unsigned(Paid()));
    AllLessReturns(rows, k, Paid(), Unsigned(Paid()));
  }

  lemma ClaimColumn(rows: seq<Operation>, p: Period, fallback: Aggregates, k: NmId)
    ensures RowOf(Charged(rows, p, fallback), k).commission ==
      Sum(rows, OffReturns(k, Claimed())) - Sum(rows, OnReturns(k, Claimed()))
  {
    ChargedColumn(rows, p, fallback, k, (row: SkuRow) => row.commission, Unsigned(Claimed()));
    AllLessReturns(rows, k, Claimed(), Unsigned(Claimed()));
  }

  lemma Counters(rows: seq<Operation>, p: Period, fallback: Aggregates, k: NmId)
    ensures var row := RowOf(Charged(rows, p, fallback), k);
      && row.settlementRows == Sum(rows, Counting(k, NeedsSettling(p)))
      && row.payableRows == Sum(rows, Counting(k, HasPayable()))
      && row.reportedCommissionRows == Sum(rows, Counting(k, HasClaim()))
  {
    SettlementCounter(rows, p, fallback, k);
    CounterColumn(rows, p, fallback, k, (row: SkuRow) => row.payableRows, HasPayable());
    ClaimCounter(rows, p, fallback, k);
  }

  lemma ClaimCounter(rows: seq<Operation>, p: Period, fallback: Aggregates, k: NmId)
    ensures RowOf(Charged(rows, p, fallback), k).reportedCommissionRows == Sum(rows, Counting(k, HasClaim()))
  {
    CounterColumn(rows, p, fallback, k, (row: SkuRow) => row.reportedCommissionRows, HasClaim());
  }

  lemma SettlementCounter(rows: seq<Operation>, p: Period, fallback: Aggregates, k: NmId)
    ensures RowOf(Charged(rows, p, fallback), k).settlementRows == Sum(rows, Counting(k, NeedsSettling(p)))
  {
    var g, c := (row: SkuRow) => row.settlementRows as int, NeedsSettling(p);
    forall row, op ensures g(Absorb(row, op, p)) == g(row) + if c(op) then 1 else 0 {
      assert Earned(p)(op) == RevenueInPeriod(op, p);
    }
    CounterColumn(rows, p, fallback, k, g, c);
  }

  lemma CounterColumn(
    rows: seq<Operation>, p: Period, fallback: Aggregates, k: NmId, g: SkuRow -> int, c: Operation -> bool)
    requires g(EMPTY_ROW) == 0 && forall row, op :: g(Absorb(row, op, p)) == g(row) + if c(op) then 1 else 0
    requires forall f :: Moves(Crediter(f), g, false)
    ensures g(RowOf(Charged(rows, p, fallback), k)) == Sum(rows, Counting(k, c))
  {
    var h := (op: Operation) => if c(op) then 1 else 0;
    ChargedColumn(rows, p, fallback, k, g, h);
    Counted(rows, k, c, h);
  }

  lemma RowsColumn(rows: seq<Operation>, p: Period, fallback: Aggregates, k: NmId)
    ensures RowOf(Charged(rows, p, fallback), k).rowsCount == Sum(rows, Counting(k, Any()))
  {
    CounterColumn(rows, p, fallback, k, (row: SkuRow) => row.rowsCount, Any());
  }

  lemma FinalRow(d: Aggregates, k: NmId)
    requires k in d.at
    ensures RowOf(FinalizeAll(d), k) == Finalize(d.at[k])
  {
  }

  lemma TradeColumns(rows: seq<Operation>, p: Period, fallback: Aggregates, k: NmId)
    requires k in Charged(rows, p, fallback).at
    ensures HoldsTrade(FinalizeAll(Charged(rows, p, fallback)).at[k], rows, p, k)
  {
    RowsColumn(rows, p, fallback, k);
    BuyerColumn(rows, p, fallback, k);
    FormulaColumn(rows, p, fallback, k);
    SellerColumns(rows, p, fallback, k);
    PayableColumn(rows, p, fallback, k);
    FinalRow(Charged(rows, p, fallback), k);
  }

  /** Revenue, payable and formula commission of an article in the period report. */
  lemma PeriodTrade(rows: seq<Operation>, p: Period, k: NmId)
    requires k in PeriodReport(rows, p).at
    ensures HoldsTrade(PeriodReport(rows, p).at[k], rows, p, k)
  {
    TradeColumns(rows, p, NO_AGGREGATES, k);
  }

  /** And on one day. */
  lemma DayTrade(rows: seq<Operation>, p: Period, day: int, k: NmId)
    requires k in DayReport(rows, p, day).at
    ensures HoldsTrade(DayReport(rows, p, day).at[k], OnDay(rows, day), p, k)
  {
    TradeColumns(OnDay(rows, day), p, PeriodReport(rows, p), k);
  }

  lemma SignedOverDays(rows: seq<Operation>, p: Period, k: NmId, g: SkuRow -> int, b: Amount)
    requires OwnColumn(g, Signed(b), p)
    ensures DailyAt(rows, p, k, g) == Sum(rows, Dated(OnSales(k, b))) - Sum(rows, Dated(OnReturns(k, b)))
  {
    ColumnOverDays(rows, p, k, g, Signed(b));
    SumPlus(rows, Dated(OfArticle(k, Signed(b))), Dated(OnReturns(k, b)), Dated(OnSales(k, b)));
  }

  lemma BuyersOverDays(rows: seq<Operation>, p: Period, k: NmId)
    ensures DailyAt(rows, p, k, BuyerRevenue()) ==
      Sum(rows, Dated(OnSales(k, BuyersPaid()))) - Sum(rows, Dated(OnReturns(k, BuyersPaid())))
  {
    SignedOverDays(rows, p, k, BuyerRevenue(), BuyersPaid());
  }

  lemma FormulaOverDays(rows: seq<Operation>, p: Period, k: NmId)
    ensures DailyAt(rows, p, k, FormulaCommission()) ==
      Sum(rows, Dated(OnSales(k, Tariff()))) - Sum(rows, Dated(OnReturns(k, Tariff())))
  {
    SignedOverDays(rows, p, k, FormulaCommission(), Tariff());
  }

  lemma PayableOverDays(rows: seq<Operation>, p: Period, k: NmId)
    ensures DailyAt(rows, p, k, Payable()) ==
      Sum(rows, Dated(OffReturns(k, Paid()))) - Sum(rows, Dated(OnReturns(k, Paid())))
  {
    var h := Unsigned(Paid());
    ColumnOverDays(rows, p, k, Payable(), h);
    SumPlus(rows, Dated(OfArticle(k, h)), Dated(OnReturns(k, Paid())), Dated(OffReturns(k, Paid())));
  }

  /** Over all days: the same differences over the dated operations. */
  lemma TradeOverDays(rows: seq<Operation>, p: Period, k: NmId)
    ensures DailyAt(rows, p, k, BuyerRevenue()) ==
      Sum(rows, Dated(OnSales(k, BuyersPaid()))) - Sum(rows, Dated(OnReturns(k, BuyersPaid())))
    ensures DailyAt(rows, p, k, FormulaCommission()) ==
      Sum(rows, Dated(OnSales(k, Tariff()))) - Sum(rows, Dated(OnReturns(k, Tariff())))
    ensures DailyAt(rows, p, k, Payable()) ==
      Sum(rows, Dated(OffReturns(k, Paid()))) - Sum(rows, Dated(OnReturns(k, Paid())))
  {
    BuyersOverDays(rows, p, k);
    FormulaOverDays(rows, p, k);
    PayableOverDays(rows, p, k);
  }

  // ---- The commission ----

  /**
   * Enough payables for the documents that need settling: what buyers paid, less the payable, less acquiring.
   * Otherwise what was reported, if anything was, and the formula if nothing was.
   */
  ghost predicate HoldsCommission(row: SkuRow, rows: seq<Operation>, p: Period, k: NmId) {
    var trades := Sum(rows, Counting(k, NeedsSettling(p)));
    if 0 < trades <= Sum(rows, Counting(k, HasPayable())) then
      && row.commissionSource == Settlement
      && row.commission == (Sum(rows, OnSales(k, BuyersPaid())) - Sum(rows, OnReturns(k, BuyersPaid())))
           - (Sum(rows, OffReturns(k, Paid())) - Sum(rows, OnReturns(k, Paid()))) - Cost(row, Acquiring)
    else if Sum(rows, Counting(k, HasClaim())) > 0 then
      && row.commissionSource == Reported
      && row.commission == Sum(rows, OffReturns(k, Claimed())) - Sum(rows, OnReturns(k, Claimed()))
    else
      && row.commissionSource == Formula
      && row.commission == Sum(rows, OnSales(k, Tariff())) - Sum(rows, OnReturns(k, Tariff()))
  }

  lemma CommissionColumn(rows: seq<Operation>, p: Period, fallback: Aggregates, k: NmId)
    requires k in Charged(rows, p, fallback).at
    ensures HoldsCommission(FinalizeAll(Charged(rows, p, fallback)).at[k], rows, p, k)
  {
    BuyerColumn(rows, p, fallback, k);
    FormulaColumn(rows, p, fallback, k);
    PayableColumn(rows, p, fallback, k);
    ClaimColumn(rows, p, fallback, k);
    Counters(rows, p, fallback, k);
    FinalRow(Charged(rows, p, fallback), k);
  }

  /** The commission of a finished row of the period, by its source. */
  lemma PeriodCommission(rows: seq<Operation>, p: Period, k: NmId)
    requires k in PeriodReport(rows, p).at
    ensures HoldsCommission(PeriodReport(rows, p).at[k], rows, p, k)
  {
    CommissionColumn(rows, p, NO_AGGREGATES, k);
  }

  /** And of a day. */
  lemma DayCommission(rows: seq<Operation>, p: Period, day: int, k: NmId)
    requires k in DayReport(rows, p, day).at
    ensures HoldsCommission(DayReport(rows, p, day).at[k], OnDay(rows, day), p, k)
  {
    CommissionColumn(OnDay(rows, day), p, PeriodReport(rows, p), k);
  }

  // ---- Costs ----

  function Deductions(promotion: bool): Amount {
    (op: Operation) => if op.isPromotion == promotion then op.deduction else 0
  }

  function Fees(returned: bool): Amount {
    (op: Operation) => if (op.document == Return) == returned then op.acquiringFee else 0
  }

  /** The cost totals of some operations: deductions for promotion are advertising, fees of returns come back. */
  ghost predicate HoldsCosts(total: Field -> int, rows: seq<Operation>) {
    && total(AdSpend) == Sum(rows, Deductions(true)) && total(Deduction) == Sum(rows, Deductions(false))
    && total(Acquiring) == Sum(rows, Fees(false)) - Sum(rows, Fees(true))
    && total(AdditionalPayment) == -total(PaymentSchedule) - total(RewardAdjustment)
    && total(LoyaltyCost) == total(CashbackAmount) + total(CashbackCommissionChange)
    && HoldsServices(total, rows) && HoldsPayments(total, rows)
  }

  ghost predicate HoldsServices(total: Field -> int, rows: seq<Operation>) {
    && total(Logistics) == Sum(rows, (op: Operation) => op.logistics)
    && total(Storage) == Sum(rows, (op: Operation) => op.storage)
    && total(Acceptance) == Sum(rows, (op: Operation) => op.acceptance)
    && total(Penalty) == Sum(rows, (op: Operation) => op.penalty)
  }

  ghost predicate HoldsPayments(total: Field -> int, rows: seq<Operation>) {
    && total(RewardAdjustment) == Sum(rows, (op: Operation) => op.additionalPaymentRaw)
    && total(PaymentSchedule) == Sum(rows, (op: Operation) => op.paymentSchedule)
    && total(CashbackAmount) == Sum(rows, (op: Operation) => op.cashbackAmount)
    && total(CashbackDiscount) == Sum(rows, (op: Operation) => op.cashbackDiscount)
    && total(CashbackCommissionChange) == Sum(rows, (op: Operation) => op.cashbackCommissionChange)
  }

  function RawTotals(rows: seq<Operation>): Field -> int {
    (f: Field) => RawTotal(rows, f)
  }

  lemma CostIs(rows: seq<Operation>, f: Field, b: Amount)
    requires forall op :: OperationCost(op, f) == b(op)
    ensures RawTotals(rows)(f) == Sum(rows, b)
  {
    SumSame(rows, CostIn(f), b);
  }

  lemma RawServices(rows: seq<Operation>)
    ensures HoldsServices(RawTotals(rows), rows)
  {
    CostIs(rows, Logistics, (op: Operation) => op.logistics);
    CostIs(rows, Storage, (op: Operation) => op.storage);
    CostIs(rows, Acceptance, (op: Operation) => op.acceptance);
    CostIs(rows, Penalty, (op: Operation) => op.penalty);
  }

  lemma RawPayments(rows: seq<Operation>)
    ensures HoldsPayments(RawTotals(rows), rows)
  {
    CostIs(rows, RewardAdjustment, (op: Operation) => op.additionalPaymentRaw);
    CostIs(rows, PaymentSchedule, (op: Operation) => op.paymentSchedule);
    CostIs(rows, CashbackAmount, (op: Operation) => op.cashbackAmount);
    CostIs(rows, CashbackDiscount, (op: Operation) => op.cashbackDiscount);
    CostIs(rows, CashbackCommissionChange, (op: Operation) => op.cashbackCommissionChange);
  }

  lemma RawCosts(rows: seq<Operation>)
    ensures HoldsCosts(RawTotals(rows), rows)
  {
    CostIs(rows, AdSpend, Deductions(true));
    CostIs(rows, Deduction, Deductions(false));
    SumPlus(rows, CostIn(Acquiring), Fees(true), Fees(false));
    RawServices(rows);
    RawPayments(rows);
    RawIdentities(rows);
  }

  function CostTotals(d: Aggregates): Field -> int {
    (f: Field) => Total(d, CostOf(f))
  }

  /** As soon as some operation names an article, the rows of the period hold these totals, kopeck by kopeck. */
  lemma PeriodCosts(rows: seq<Operation>, p: Period)
    requires HasArticle(rows)
    ensures HoldsCosts(CostTotals(PeriodReport(rows, p)), rows)
  {
    var total := CostTotals(PeriodReport(rows, p));
    RawCosts(rows);
    forall f ensures total(f) == RawTotals(rows)(f) {
      ReportTotal(rows, p, NO_AGGREGATES, f);
    }
    SameCosts(total, RawTotals(rows), rows);
  }

  lemma SameCosts(total: Field -> int, same: Field -> int, rows: seq<Operation>)
    requires HoldsCosts(same, rows) && forall f :: total(f) == same(f)
    ensures HoldsCosts(total, rows)
  {
  }

  /** The operations of one article. */
  function OwnRows(rows: seq<Operation>, k: NmId): seq<Operation> {
    if rows == [] then [] else
      OwnRows(rows[..|rows| - 1], k) + if rows[|rows| - 1].nmId == k then [rows[|rows| - 1]] else []
  }

  lemma {:induction false} OwnSum(rows: seq<Operation>, k: NmId, h: Amount)
    ensures Sum(rows, OfArticle(k, h)) == Sum(OwnRows(rows, k), h)
  {
    if rows != [] {
      var front, op := rows[..|rows| - 1], rows[|rows| - 1];
      OwnSum(front, k, h);
      if op.nmId == k {
        SumAppend(OwnRows(front, k), op, h);
      } else {
        assert OwnRows(front, k) + [] == OwnRows(front, k);
      }
    }
  }

  /** What an article bears beyond its own operations. */
  function Charge(d: Aggregates, rows: seq<Operation>, k: NmId, f: Field): int {
    At(d, k, CostOf(f)) - RawTotal(OwnRows(rows, k), f)
  }

  lemma ReportCharge(rows: seq<Operation>, p: Period, fallback: Aggregates, k: NmId, f: Field)
    ensures Charge(FinalizeAll(Charged(rows, p, fallback)), rows, k, f) ==
      At(Charged(rows, p, fallback), k, CostOf(f)) - At(Fold(rows, p), k, CostOf(f))
  {
    OwnCosts(rows, p, k, f);
    CostStays(Charged(rows, p, fallback), k, f);
  }

  lemma OwnCosts(rows: seq<Operation>, p: Period, k: NmId, f: Field)
    ensures At(Fold(rows, p), k, CostOf(f)) == RawTotal(OwnRows(rows, k), f)
  {
    CostAdditive(f, p);
    FoldAt(rows, p, k, CostOf(f), CostIn(f));
    OwnSum(rows, k, CostIn(f));
  }

  lemma CostStays(d: Aggregates, k: NmId, f: Field)
    ensures At(FinalizeAll(d), k, CostOf(f)) == At(d, k, CostOf(f))
  {
    assert FinalizeKeeps(CostOf(f));
    FinalizeTotal(d, k, CostOf(f));
  }

  // ---- Charges and refunds, penalty by penalty ----

  function Above(): int -> int {
    (x: int) => if x > 0 then x else 0
  }

  function Beneath(): int -> int {
    (x: int) => if x < 0 then -x else 0
  }

  function Penalties(): Amount {
    (op: Operation) => op.penalty
  }

  /** The part of an amount above or below zero, operation by operation. */
  function PartOf(b: Amount, c: int -> int): Amount {
    (op: Operation) => c(b(op))
  }

  lemma BreakdownColumn(
    rows: seq<Operation>, p: Period, fallback: Aggregates, k: NmId, f: Field, g: SkuRow -> int, b: Amount,
    c: int -> int, charge: int)
    requires fallback.Valid() && FollowsShare(g, f, c) && Additive(g, PartOf(b, c), p) && FinalizeKeeps(g)
    requires charge == Charge(FinalizeAll(Charged(rows, p, fallback)), rows, k, f)
    ensures At(FinalizeAll(Charged(rows, p, fallback)), k, g) == Sum(OwnRows(rows, k), PartOf(b, c)) + c(charge)
  {
    FoldValid(rows, p);
    ReportCharge(rows, p, fallback, k, f);
    ChargedBreakdown(Fold(rows, p), Globals(rows), fallback, k, f, g, c, charge);
    FoldAt(rows, p, k, g, PartOf(b, c));
    OwnSum(rows, k, PartOf(b, c));
    FinalizeTotal(Charged(rows, p, fallback), k, g);
  }

  /** Four columns that keep charges and refunds apart, of own operations and of the article's charge. */
  ghost predicate HoldsBreakdown(row: SkuRow, own: seq<Operation>, penalty: int, deduction: int) {
    && row.penaltyCharged == Sum(own, PartOf(Penalties(), Above())) + Above()(penalty)
    && row.penaltyReturned == Sum(own, PartOf(Penalties(), Beneath())) + Beneath()(penalty)
    && row.deductionCharged == Sum(own, PartOf(Deductions(false), Above())) + Above()(deduction)
    && row.deductionCompensation == Sum(own, PartOf(Deductions(false), Beneath())) + Beneath()(deduction)
  }

  lemma PenaltyColumns(rows: seq<Operation>, p: Period, fallback: Aggregates, k: NmId, charge: int)
    requires fallback.Valid() && charge == Charge(FinalizeAll(Charged(rows, p, fallback)), rows, k, Penalty)
    ensures var row := RowOf(FinalizeAll(Charged(rows, p, fallback)), k);
      && row.penaltyCharged == Sum(OwnRows(rows, k), PartOf(Penalties(), Above())) + Above()(charge)
      && row.penaltyReturned == Sum(OwnRows(rows, k), PartOf(Penalties(), Beneath())) + Beneath()(charge)
  {
    var charged, returned := (row: SkuRow) => row.penaltyCharged, (row: SkuRow) => row.penaltyReturned;
    PenaltyFollows(charged, returned, p);
    BreakdownColumn(rows, p, fallback, k, Penalty, charged, Penalties(), Above(), charge);
    BreakdownColumn(rows, p, fallback, k, Penalty, returned, Penalties(), Beneath(), charge);
  }

  lemma PenaltyFollows(charged: SkuRow -> int, returned: SkuRow -> int, p: Period)
    requires forall row :: charged(row) == row.penaltyCharged && returned(row) == row.penaltyReturned
    ensures FollowsShare(charged, Penalty, Above()) && FollowsShare(returned, Penalty, Beneath())
    ensures Additive(charged, PartOf(Penalties(), Above()), p) && FinalizeKeeps(charged)
    ensures Additive(returned, PartOf(Penalties(), Beneath()), p) && FinalizeKeeps(returned)
  {
    PenaltiesAdd(charged, returned, p);
  }

  lemma PenaltiesAdd(charged: SkuRow -> int, returned: SkuRow -> int, p: Period)
    requires forall row :: charged(row) == row.penaltyCharged && returned(row) == row.penaltyReturned
    ensures Additive(charged, PartOf(Penalties(), Above()), p)
    ensures Additive(returned, PartOf(Penalties(), Beneath()), p)
  {
  }

  lemma DeductionColumns(rows: seq<Operation>, p: Period, fallback: Aggregates, k: NmId, charge: int)
    requires fallback.Valid() && charge == Charge(FinalizeAll(Charged(rows, p, fallback)), rows, k, Deduction)
    ensures var row := RowOf(FinalizeAll(Charged(rows, p, fallback)), k);
      && row.deductionCharged == Sum(OwnRows(rows, k), PartOf(Deductions(false), Above())) + Above()(charge)
      && row.deductionCompensation == Sum(OwnRows(rows, k), PartOf(Deductions(false), Beneath())) + Beneath()(charge)
  {
    var charged, returned := (row: SkuRow) => row.deductionCharged, (row: SkuRow) => row.deductionCompensation;
    DeductionFollows(charged, returned, p);
    BreakdownColumn(rows, p, fallback, k, Deduction, charged, Deductions(false), Above(), charge);
    BreakdownColumn(rows, p, fallback, k, Deduction, returned, Deductions(false), Beneath(), charge);
  }

  lemma DeductionFollows(charged: SkuRow -> int, returned: SkuRow -> int, p: Period)
    requires forall row :: charged(row) == row.deductionCharged && returned(row) == row.deductionCompensation
    ensures FollowsShare(charged, Deduction, Above()) && FollowsShare(returned, Deduction, Beneath())
    ensures Additive(charged, PartOf(Deductions(false), Above()), p) && FinalizeKeeps(charged)
    ensures Additive(returned, PartOf(Deductions(false), Beneath()), p) && FinalizeKeeps(returned)
  {
    DeductionsAdd(charged, returned, p);
    DeductionsShared(charged, returned);
  }

  lemma DeductionsShared(charged: SkuRow -> int, returned: SkuRow -> int)
    requires forall row :: charged(row) == row.deductionCharged && returned(row) == row.deductionCompensation
    ensures FollowsShare(charged, Deduction, Above()) && FollowsShare(returned, Deduction, Beneath())
  {
  }

  lemma DeductionsAdd(charged: SkuRow -> int, returned: SkuRow -> int, p: Period)
    requires forall row :: charged(row) == row.deductionCharged && returned(row) == row.deductionCompensation
    ensures Additive(charged, PartOf(Deductions(false), Above()), p)
    ensures Additive(returned, PartOf(Deductions(false), Beneath()), p)
  {
  }

  /** In the period report. */
  lemma PeriodBreakdown(rows: seq<Operation>, p: Period, k: NmId)
    requires k in PeriodReport(rows, p).at
    ensures HoldsBreakdown(PeriodReport(rows, p).at[k], OwnRows(rows, k),
      Charge(PeriodReport(rows, p), rows, k, Penalty), Charge(PeriodReport(rows, p), rows, k, Deduction))
  {
    PenaltyColumns(rows, p, NO_AGGREGATES, k, Charge(PeriodReport(rows, p), rows, k, Penalty));
    DeductionColumns(rows, p, NO_AGGREGATES, k, Charge(PeriodReport(rows, p), rows, k, Deduction));
  }

  /** And on a day. */
  lemma DayBreakdown(rows: seq<Operation>, p: Period, day: int, k: NmId)
    requires k in DayReport(rows, p, day).at
    ensures HoldsBreakdown(DayReport(rows, p, day).at[k], OwnRows(OnDay(rows, day), k),
      Charge(DayReport(rows, p, day), OnDay(rows, day), k, Penalty),
      Charge(DayReport(rows, p, day), OnDay(rows, day), k, Deduction))
  {
    var today, period, report := OnDay(rows, day), PeriodReport(rows, p), DayReport(rows, p, day);
    PeriodReportValid(rows, p);
    PenaltyColumns(today, p, period, k, Charge(report, today, k, Penalty));
    DeductionColumns(today, p, period, k, Charge(report, today, k, Deduction));
  }

  // ---- Whose revenue decides ----

  /** Revenue is what it was before anything was charged. */
  lemma RevenueStays(rows: seq<Operation>, p: Period, fallback: Aggregates, k: NmId)
    requires Fold(rows, p).order != [] || fallback.order == []
    ensures var d, report := Fold(rows, p), FinalizeAll(Charged(rows, p, fallback));
      && report.order == d.order && report.at.Keys == d.at.Keys
      && Total(report, PositiveRevenue()) == Total(d, PositiveRevenue())
      && At(report, k, PositiveRevenue()) == At(d, k, PositiveRevenue())
  {
    var d, g := Fold(rows, p), PositiveRevenue();
    FoldValid(rows, p);
    AllocatedOrder(d, Globals(rows), fallback);
    RevenueKept(d, Globals(rows), fallback, k, g);
  }

  lemma RevenueKept(d: Aggregates, globals: seq<Operation>, fallback: Aggregates, k: NmId, g: SkuRow -> int)
    requires d.Valid() && g == PositiveRevenue()
    ensures var report := FinalizeAll(Allocated(d, globals, fallback));
      Total(report, g) == Total(d, g) && At(report, k, g) == At(d, k, g)
  {
    assert forall f :: Moves(Crediter(f), g, false);
    assert FinalizeKeeps(g);
    AllocatedUntouched(d, globals, fallback, k, g);
    FinalizeTotal(Allocated(d, globals, fallback), k, g);
  }

  /** Account-level costs charged to one article of a report, by the revenue of the rows in `source`. */
  ghost predicate ChargedBy(charge: int, rows: seq<Operation>, source: Aggregates, k: NmId, f: Field) {
    FairCharge(charge, RawTotal(Globals(rows), f), At(source, k, PositiveRevenue()), Total(source, PositiveRevenue()),
      |source.order|)
  }

  lemma OwnRevenueDecides(rows: seq<Operation>, p: Period, fallback: Aggregates, k: NmId, f: Field, charge: int)
    requires k in Fold(rows, p).at && fallback.Valid()
    requires charge == Charge(FinalizeAll(Charged(rows, p, fallback)), rows, k, f)
    ensures ChargedBy(charge, rows, FinalizeAll(Charged(rows, p, fallback)), k, f)
  {
    FoldValid(rows, p);
    assert k in Fold(rows, p).order;
    ReportCharge(rows, p, fallback, k, f);
    RevenueStays(rows, p, fallback, k);
    ChargedBySellerRevenue(Fold(rows, p), Globals(rows), fallback, k, f, charge);
  }

  /** In the period every account-level cost is charged to an article by its seller revenue in the period. */
  lemma PeriodCharge(rows: seq<Operation>, p: Period, k: NmId, f: Field, charge: int)
    requires k in PeriodReport(rows, p).at && charge == Charge(PeriodReport(rows, p), rows, k, f)
    ensures ChargedBy(charge, rows, PeriodReport(rows, p), k, f)
  {
    FoldValid(rows, p);
    AllocatedOrder(Fold(rows, p), Globals(rows), NO_AGGREGATES);
    OwnRevenueDecides(rows, p, NO_AGGREGATES, k, f, charge);
  }

  /**
   * On a day with operations of articles it is charged by their revenue of that day, on any other day to the articles
   * of the period by their revenue in the period.
   */
  lemma DayCharge(rows: seq<Operation>, p: Period, day: int, k: NmId, f: Field, charge: int)
    requires charge == Charge(DayReport(rows, p, day), OnDay(rows, day), k, f)
    ensures HasArticle(OnDay(rows, day)) && k in DayReport(rows, p, day).at ==>
      ChargedBy(charge, OnDay(rows, day), DayReport(rows, p, day), k, f)
    ensures !HasArticle(OnDay(rows, day)) && k in PeriodReport(rows, p).at ==>
      ChargedBy(charge, OnDay(rows, day), PeriodReport(rows, p), k, f)
  {
    var today, period := OnDay(rows, day), PeriodReport(rows, p);
    PeriodReportValid(rows, p);
    PeriodOrder(today, p);
    if HasArticle(today) && k in DayReport(rows, p, day).at {
      AllocatedOrder(Fold(today, p), Globals(today), period);
      OwnRevenueDecides(today, p, period, k, f, charge);
    }
    if !HasArticle(today) && k in period.at {
      ReportCharge(today, p, period, k, f);
      ChargedBySellerRevenue(Fold(today, p), Globals(today), period, k, f, charge);
    }
  }

  // ---- Which payables are confirmed ----

  /**
   * A payout is known for exactly the articles with operations of their own whose documents are all settled, or that
   * sold, returned, paid and cost nothing.
   */
  lemma PayoutKnownExactly(rows: seq<Operation>, p: Period, k: NmId)
    requires k in PeriodReport(rows, p).at
    ensures var row, trades := PeriodReport(rows, p).at[k], Sum(rows, Counting(k, NeedsSettling(p)));
      FinalPayout(row).Some? <==>
        && Sum(rows, Counting(k, Any())) > 0
        && (|| 0 < trades <= Sum(rows, Counting(k, HasPayable()))
            || (row.salesUnits == 0 && row.returnsUnits == 0 && row.buyerRevenue == 0 && row.payable == 0
                && row.commission == 0 && Cost(row, Acquiring) == 0))
  {
    PeriodCommission(rows, p, k);
    PeriodTrade(rows, p, k);
  }
}
