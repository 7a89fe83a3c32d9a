/** `settlement_profit_metrics` over a finished report: what the marketplace finally pays out per article. */
module FinanceSettlement {
  import opened Dicts
  import opened Keys
  import opened FinanceRows
  import opened FinanceFold
  import opened FinanceAllocation
  import opened FinanceReport
  import opened FinanceReconciliation

  // ---- What holds of every row a report contains ----

  lemma FinalizeRowKeeps(row: SkuRow)
    ensures Balanced(row) ==> Balanced(Finalize(row))
    ensures PaymentDrift(Finalize(row)) == PaymentDrift(row) && LoyaltyDrift(Finalize(row)) == LoyaltyDrift(row)
    ensures Finalize(row).rowsCount == row.rowsCount
  {
  }

  function IsBalanced(): SkuRow -> bool {
    (row: SkuRow) => Balanced(row)
  }

  lemma CreditKeepsBalance(f: Field)
    ensures Preserves(Crediter(f), IsBalanced())
  {
  }

  lemma CreditsKeepBalance()
    ensures forall f :: Preserves(Crediter(f), IsBalanced())
  {
    forall f ensures Preserves(Crediter(f), IsBalanced()) { CreditKeepsBalance(f); }
  }

  lemma FoldBalanced(rows: seq<Operation>, p: Period, k: NmId, row: SkuRow)
    requires row == Fold(rows, p).GetOr(k, EMPTY_ROW)
    ensures Balanced(row)
  {
    if k in Fold(rows, p).at {
      FoldExact(rows, p, k);
    } else {
      BlankExact(row);
    }
  }

  lemma ChargingKeepsBalance(
    d: Aggregates, globals: seq<Operation>, fallback: Aggregates, k: NmId, inv: SkuRow -> bool)
    requires inv == IsBalanced() && inv(d.GetOr(k, EMPTY_ROW))
    ensures inv(Allocated(d, globals, fallback).GetOr(k, EMPTY_ROW))
  {
    CreditsKeepBalance();
    AllocatedPreserves(d, globals, fallback, k, inv);
  }

  lemma ReportRowBalanced(
    d: Aggregates, globals: seq<Operation>, fallback: Aggregates, k: NmId, before: SkuRow, after: SkuRow)
    requires before == d.GetOr(k, EMPTY_ROW) && Balanced(before)
    requires after == Allocated(d, globals, fallback).GetOr(k, EMPTY_ROW)
    ensures Balanced(after)
  {
    var inv := IsBalanced();
    assert inv(before);
    ChargingKeepsBalance(d, globals, fallback, k, inv);
    assert inv(after);
  }

  lemma ReportRowIsBalanced(rows: seq<Operation>, p: Period, fallback: Aggregates, k: NmId, row: SkuRow)
    requires row == Allocated(Fold(rows, p), Globals(rows), fallback).GetOr(k, EMPTY_ROW)
    ensures Balanced(Finalize(row))
  {
    var before: SkuRow := Fold(rows, p).GetOr(k, EMPTY_ROW);
    FoldBalanced(rows, p, k, before);
    ReportRowBalanced(Fold(rows, p), Globals(rows), fallback, k, before, row);
    FinalizeRowKeeps(row);
  }

  lemma ReportRowIsNearlyExact(rows: seq<Operation>, p: Period, fallback: Aggregates, k: NmId, row: SkuRow)
    requires fallback.Valid() && k in Allocated(Fold(rows, p), Globals(rows), fallback).at
    requires row == Allocated(Fold(rows, p), Globals(rows), fallback).at[k]
    ensures NearlyExact(Finalize(row))
  {
    FoldValid(rows, p);
    if k in Fold(rows, p).at {
      FoldExact(rows, p, k);
    }
    AllocatedDrift(Fold(rows, p), Globals(rows), fallback, k);
    FinalizeRowKeeps(row);
  }

  /**
   * In every row of the period report charges minus refunds give the penalty and deduction exactly, and the two
   * derived columns miss their definitions by at most one kopeck.
   */
  lemma PeriodRow(rows: seq<Operation>, p: Period, k: NmId)
    requires k in PeriodReport(rows, p).at
    ensures Balanced(PeriodReport(rows, p).at[k]) && NearlyExact(PeriodReport(rows, p).at[k])
  {
    var row: SkuRow := Allocated(Fold(rows, p), Globals(rows), NO_AGGREGATES).at[k];
    ReportRowIsBalanced(rows, p, NO_AGGREGATES, k, row);
    ReportRowIsNearlyExact(rows, p, NO_AGGREGATES, k, row);
  }

  /** The same in every row of every day. */
  lemma DayRow(rows: seq<Operation>, p: Period, day: int, k: NmId)
    requires k in DayReport(rows, p, day).at
    ensures Balanced(DayReport(rows, p, day).at[k]) && NearlyExact(DayReport(rows, p, day).at[k])
  {
    PeriodReportValid(rows, p);
    var today := OnDay(rows, day);
    var row: SkuRow := Allocated(Fold(today, p), Globals(today), PeriodReport(rows, p)).at[k];
    ReportRowIsBalanced(today, p, PeriodReport(rows, p), k, row);
    ReportRowIsNearlyExact(today, p, PeriodReport(rows, p), k, row);
  }

  /** In account totals the rounding cancels out and both derived columns are exact. */
  lemma AccountIdentities(rows: seq<Operation>, p: Period)
    ensures var d := PeriodReport(rows, p);
      && Total(d, CostOf(AdditionalPayment)) == -Total(d, CostOf(PaymentSchedule)) - Total(d, CostOf(RewardAdjustment))
      && Total(d, CostOf(LoyaltyCost)) == Total(d, CostOf(CashbackAmount)) + Total(d, CostOf(CashbackCommissionChange))
  {
    forall f ensures Total(PeriodReport(rows, p), CostOf(f)) == if HasArticle(rows) then RawTotal(rows, f) else 0 {
      ReportTotal(rows, p, NO_AGGREGATES, f);
    }
    RawIdentities(rows);
  }

  // ---- Payout ----

  /** `settlement_payable_confirmed`; rows without operations carry no payable at all. */
  predicate PayableConfirmed(row: SkuRow) {
    row.rowsCount > 0 && (
      row.commissionSource.Settlement? ||
      (row.salesUnits == 0 && row.returnsUnits == 0 && row.buyerRevenue == 0 && row.payable == 0
        && row.commission == 0 && Cost(row, Acquiring) == 0))
  }

  function Payout(row: SkuRow): int {
    row.payable - Cost(row, Logistics) - Cost(row, Storage) - Cost(row, Acceptance) - Cost(row, Penalty)
    - Cost(row, Deduction) - Cost(row, LoyaltyCost) - Cost(row, AdSpend) + Cost(row, AdditionalPayment)
  }

  /** `finalPayoutKopecks` */
  function FinalPayout(row: SkuRow): Option<int> {
    if PayableConfirmed(row) then Some(Payout(row)) else None
  }

  /** `expensesWithoutTaxKopecks` of `_finance_expense_diagnostic` */
  function ExpensesWithoutTax(row: SkuRow): int {
    row.commission + Cost(row, Logistics) + Cost(row, Storage) + Cost(row, Acceptance) + Cost(row, Penalty)
    + Cost(row, Deduction) + Cost(row, Acquiring) + Cost(row, LoyaltyCost) - Cost(row, AdditionalPayment)
  }

  /** The two accounts of one article agree: what is paid out is what buyers paid less expenses and advertising. */
  lemma PayoutIsRevenueLessExpenses(rows: seq<Operation>, p: Period, k: NmId)
    requires k in PeriodReport(rows, p).at && FinalPayout(PeriodReport(rows, p).at[k]).Some?
    ensures var row := PeriodReport(rows, p).at[k];
      FinalPayout(row) == Some(row.buyerRevenue - ExpensesWithoutTax(row) - Cost(row, AdSpend))
  {
    var before := Allocated(Fold(rows, p), Globals(rows), NO_AGGREGATES).at[k];
    FinalizedPayout(before);
  }

  lemma FinalizedPayout(before: SkuRow)
    requires PayableConfirmed(Finalize(before))
    ensures var row := Finalize(before);
      Payout(row) == row.buyerRevenue - ExpensesWithoutTax(row) - Cost(row, AdSpend)
  {
  }

  function PayoutColumn(): SkuRow -> int {
    (row: SkuRow) => Payout(row)
  }

  lemma {:induction false} PayoutTotal(d: Aggregates, order: seq<NmId>)
    ensures Sum(order, k => At(d, k, PayoutColumn())) ==
      Sum(order, k => At(d, k, Payable()))
      - Sum(order, k => At(d, k, CostOf(Logistics))) - Sum(order, k => At(d, k, CostOf(Storage)))
      - Sum(order, k => At(d, k, CostOf(Acceptance))) - Sum(order, k => At(d, k, CostOf(Penalty)))
      - Sum(order, k => At(d, k, CostOf(Deduction))) - Sum(order, k => At(d, k, CostOf(LoyaltyCost)))
      - Sum(order, k => At(d, k, CostOf(AdSpend))) + Sum(order, k => At(d, k, CostOf(AdditionalPayment)))
  {
    if order != [] {
      PayoutTotal(d, order[..|order| - 1]);
    }
  }

  function SignedPayables(): Operation -> int {
    (op: Operation) => SignedPayable(op)
  }

  lemma PayableTotal(rows: seq<Operation>, p: Period)
    ensures Total(PeriodReport(rows, p), Payable()) == Sum(rows, OfArticles(SignedPayables()))
  {
    var d, g := Fold(rows, p), Payable();
    FoldValid(rows, p);
    assert Additive(g, SignedPayables(), p);
    FoldTotal(rows, p, g, SignedPayables());
    assert forall f :: Moves(Crediter(f), g, false);
    AllocatedUntouched(d, Globals(rows), NO_AGGREGATES, 1, g);
    FinalizeTotal(Allocated(d, Globals(rows), NO_AGGREGATES), 1, g);
  }

  function FinalPayouts(): SkuRow -> int {
    (row: SkuRow) => if FinalPayout(row).Some? then FinalPayout(row).value else 0
  }

  /**
   * When every article's payable is confirmed, the payouts add up to the signed payable of the articles' rows,
   * minus every raw cost of the account, plus its raw additional payments: however the kopecks were split.
   */
  lemma PayoutConserves(rows: seq<Operation>, p: Period)
    requires HasArticle(rows)
    requires forall k :: k in PeriodReport(rows, p).at ==> FinalPayout(PeriodReport(rows, p).at[k]).Some?
    ensures Total(PeriodReport(rows, p), FinalPayouts()) == Sum(rows, OfArticles(SignedPayables()))
      - RawTotal(rows, Logistics) - RawTotal(rows, Storage) - RawTotal(rows, Acceptance) - RawTotal(rows, Penalty)
      - RawTotal(rows, Deduction) - RawTotal(rows, LoyaltyCost) - RawTotal(rows, AdSpend)
      + RawTotal(rows, AdditionalPayment)
  {
    var d := PeriodReport(rows, p);
    PeriodReportValid(rows, p);
    SumSame(d.order, k => At(d, k, FinalPayouts()), k => At(d, k, PayoutColumn()));
    PayoutTotal(d, d.order);
    PayableTotal(rows, p);
    forall f ensures Total(d, CostOf(f)) == RawTotal(rows, f) {
      ReportTotal(rows, p, NO_AGGREGATES, f);
    }
  }
}
