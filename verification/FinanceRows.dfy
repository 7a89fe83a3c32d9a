/** One operation of the sales report, the costs read off it, and the row it is added to. Money is in kopecks. */
module FinanceRows {
  import opened Dicts

  datatype Field =
    | AdSpend | Logistics | Storage | Acceptance | Penalty | Deduction | RewardAdjustment | PaymentSchedule
    | AdditionalPayment | CashbackAmount | CashbackDiscount | CashbackCommissionChange | LoyaltyCost | Acquiring

  /** The keys of `_finance_row_costs`, in the order in which the totals are spread. */
  const FIELDS: seq<Field> :=
    [AdSpend, Logistics, Storage, Acceptance, Penalty, Deduction, RewardAdjustment, PaymentSchedule,
     AdditionalPayment, CashbackAmount, CashbackDiscount, CashbackCommissionChange, LoyaltyCost, Acquiring]

  lemma FieldsComplete()
    ensures Distinct(FIELDS) && forall f: Field :: f in FIELDS
  {
    forall f: Field ensures f in FIELDS {
      match f
      case AdSpend => assert FIELDS[0] == f;
      case Logistics => assert FIELDS[1] == f;
      case Storage => assert FIELDS[2] == f;
      case Acceptance => assert FIELDS[3] == f;
      case Penalty => assert FIELDS[4] == f;
      case Deduction => assert FIELDS[5] == f;
      case RewardAdjustment => assert FIELDS[6] == f;
      case PaymentSchedule => assert FIELDS[7] == f;
      case AdditionalPayment => assert FIELDS[8] == f;
      case CashbackAmount => assert FIELDS[9] == f;
      case CashbackDiscount => assert FIELDS[10] == f;
      case CashbackCommissionChange => assert FIELDS[11] == f;
      case LoyaltyCost => assert FIELDS[12] == f;
      case Acquiring => assert FIELDS[13] == f;
    }
  }

  datatype Document = Sale | Return | Other

  /**
   * A report row after its texts were parsed. `day` is the operation date, `sellerRevenue` and
   * `commissionFormula` are already rounded at the operation; a missing number is None.
   */
  datatype Operation = Operation(
    nmId: int, day: Option<int>, document: Document, quantity: int, unitKey: Option<string>,
    buyerRevenue: int, sellerRevenue: int, commissionFormula: Option<int>,
    reportedCommission: Option<int>, payable: Option<int>,
    isPromotion: bool, deduction: int, logistics: int, storage: int, acceptance: int, penalty: int,
    additionalPaymentRaw: int, paymentSchedule: int,
    cashbackAmount: int, cashbackDiscount: int, cashbackCommissionChange: int, acquiringFee: int)

  datatype Period = Period(first: int, last: int)

  /** `_finance_row_costs` */
  function OperationCost(op: Operation, f: Field): int {
    match f
    case AdSpend => if op.isPromotion then op.deduction else 0
    case Logistics => op.logistics
    case Storage => op.storage
    case Acceptance => op.acceptance
    case Penalty => op.penalty
    case Deduction => if op.isPromotion then 0 else op.deduction
    case RewardAdjustment => op.additionalPaymentRaw
    case PaymentSchedule => op.paymentSchedule
    case AdditionalPayment => -op.paymentSchedule - op.additionalPaymentRaw
    case CashbackAmount => op.cashbackAmount
    case CashbackDiscount => op.cashbackDiscount
    case CashbackCommissionChange => op.cashbackCommissionChange
    case LoyaltyCost => op.cashbackAmount + op.cashbackCommissionChange
    case Acquiring => if op.document.Return? then -op.acquiringFee else op.acquiringFee
  }

  datatype CommissionSource = Pending | Reported | Formula | Settlement

  datatype SkuRow = SkuRow(
    rowsCount: nat, salesUnits: int, returnsUnits: int,
    buyerRevenue: int, sellerRevenue: int, grossSales: int, returned: int,
    commissionFormula: int, commission: int, reportedCommissionRows: nat,
    costs: map<Field, int>,
    penaltyCharged: int, penaltyReturned: int, deductionCharged: int, deductionCompensation: int,
    payable: int, payableRows: nat, settlementRows: nat,
    saleUnitKeys: set<string>, returnUnitKeys: set<string>, commissionSource: CommissionSource)

  const EMPTY_ROW :=
    SkuRow(0, 0, 0, 0, 0, 0, 0, 0, 0, 0, map[], 0, 0, 0, 0, 0, 0, 0, {}, {}, Pending)

  /** `_finance_int(row.get(key))` */
  function Cost(row: SkuRow, f: Field): int {
    if f in row.costs then row.costs[f] else 0
  }

  function CostOf(f: Field): SkuRow -> int {
    (row: SkuRow) => Cost(row, f)
  }

  function Payable(): SkuRow -> int {
    (row: SkuRow) => row.payable
  }

  function SellerRevenue(): SkuRow -> int {
    (row: SkuRow) => row.sellerRevenue
  }

  /** Seller revenue above zero. */
  function PositiveRevenue(): SkuRow -> int {
    (row: SkuRow) => if row.sellerRevenue > 0 then row.sellerRevenue else 0
  }

  /** Revenue counts only when the operation is dated inside the requested period. */
  function RevenueInPeriod(op: Operation, p: Period): int {
    if op.day.Some? && p.first <= op.day.value <= p.last then op.sellerRevenue else 0
  }

  function UnitsOf(op: Operation): int {
    if op.unitKey.None? then op.quantity else if op.quantity > 1 then op.quantity else 1
  }

  predicate FreshUnit(keys: set<string>, op: Operation) {
    op.unitKey.None? || op.unitKey.value !in keys
  }

  function WithUnit(keys: set<string>, op: Operation): set<string> {
    if op.unitKey.None? then keys else keys + {op.unitKey.value}
  }

  /** The sale and return branches: units are counted once per unit key, revenue on every row. */
  function AbsorbTrade(row: SkuRow, op: Operation, seller: int): SkuRow {
    var formula := if op.commissionFormula.None? then 0 else op.commissionFormula.value;
    var settled := if op.buyerRevenue != 0 || seller != 0 then 1 else 0;
    match op.document
    case Sale => row.(
      salesUnits := row.salesUnits + (if FreshUnit(row.saleUnitKeys, op) then UnitsOf(op) else 0),
      saleUnitKeys := WithUnit(row.saleUnitKeys, op),
      buyerRevenue := row.buyerRevenue + op.buyerRevenue,
      sellerRevenue := row.sellerRevenue + seller,
      grossSales := row.grossSales + seller,
      commissionFormula := row.commissionFormula + formula,
      settlementRows := row.settlementRows + settled)
    case Return => row.(
      returnsUnits := row.returnsUnits + (if FreshUnit(row.returnUnitKeys, op) then UnitsOf(op) else 0),
      returnUnitKeys := WithUnit(row.returnUnitKeys, op),
      buyerRevenue := row.buyerRevenue - op.buyerRevenue,
      sellerRevenue := row.sellerRevenue - seller,
      returned := row.returned + seller,
      commissionFormula := row.commissionFormula - formula,
      settlementRows := row.settlementRows + settled)
    case Other => row
  }

  function DocumentSign(op: Operation, amount: int): int {
    if op.document.Return? then -amount else amount
  }

  function SignedPayable(op: Operation): int {
    if op.payable.None? then 0 else DocumentSign(op, op.payable.value)
  }

  function AbsorbSettlement(row: SkuRow, op: Operation): SkuRow {
    var reported := if op.reportedCommission.None? then 0 else DocumentSign(op, op.reportedCommission.value);
    row.(
      reportedCommissionRows := row.reportedCommissionRows + (if op.reportedCommission.Some? then 1 else 0),
      commission := row.commission + reported,
      payableRows := row.payableRows + (if op.payable.Some? then 1 else 0),
      payable := row.payable + SignedPayable(op))
  }

  function Positive(amount: int): int {
    if amount >= 0 then amount else 0
  }

  function Negative(amount: int): int {
    if amount < 0 then -amount else 0
  }

  function AbsorbCosts(row: SkuRow, op: Operation): SkuRow {
    row.(
      costs := map f: Field | true :: Cost(row, f) + OperationCost(op, f),
      penaltyCharged := row.penaltyCharged + Positive(OperationCost(op, Penalty)),
      penaltyReturned := row.penaltyReturned + Negative(OperationCost(op, Penalty)),
      deductionCharged := row.deductionCharged + Positive(OperationCost(op, Deduction)),
      deductionCompensation := row.deductionCompensation + Negative(OperationCost(op, Deduction)))
  }

  /** One pass of the loop body, for a row that belongs to an article. */
  function Absorb(row: SkuRow, op: Operation, p: Period): SkuRow {
    var counted := row.(rowsCount := row.rowsCount + 1);
    AbsorbCosts(AbsorbSettlement(AbsorbTrade(counted, op, RevenueInPeriod(op, p)), op), op)
  }

  /** One share of an account-level cost: `row[key] += amount`, with the penalty and deduction breakdowns. */
  function Credit(row: SkuRow, f: Field, amount: int): SkuRow {
    var paid := row.(costs := row.costs[f := Cost(row, f) + amount]);
    match f
    case Penalty => paid.(
      penaltyCharged := paid.penaltyCharged + Positive(amount),
      penaltyReturned := paid.penaltyReturned + Negative(amount))
    case Deduction => paid.(
      deductionCharged := paid.deductionCharged + Positive(amount),
      deductionCompensation := paid.deductionCompensation + Negative(amount))
    case _ => paid
  }

  /** `_finalize_finance_commission` */
  function Finalize(row: SkuRow): SkuRow {
    if row.settlementRows <= 0 || row.payableRows < row.settlementRows then
      if row.reportedCommissionRows != 0 then row.(commissionSource := Reported)
      else row.(commission := row.commissionFormula, commissionSource := Formula)
    else
      row.(commission := row.buyerRevenue - row.payable - Cost(row, Acquiring), commissionSource := Settlement)
  }

  /** The breakdowns of penalty and deduction, and of revenue, always explain their balance. */
  predicate Balanced(row: SkuRow) {
    && Cost(row, Penalty) == row.penaltyCharged - row.penaltyReturned
    && Cost(row, Deduction) == row.deductionCharged - row.deductionCompensation
    && row.sellerRevenue == row.grossSales - row.returned
  }

  /** How far a row is from additionalPayment = -paymentSchedule - rewardAdjustment. */
  function PaymentDrift(row: SkuRow): int {
    Cost(row, AdditionalPayment) + Cost(row, PaymentSchedule) + Cost(row, RewardAdjustment)
  }

  /** How far a row is from loyaltyCost = cashbackAmount + cashbackCommissionChange. */
  function LoyaltyDrift(row: SkuRow): int {
    Cost(row, LoyaltyCost) - Cost(row, CashbackAmount) - Cost(row, CashbackCommissionChange)
  }

  lemma AbsorbCost(row: SkuRow, op: Operation, p: Period, f: Field)
    ensures Cost(Absorb(row, op, p), f) == Cost(row, f) + OperationCost(op, f)
  {
  }

  /** What holds of a row as long as only its own operations were added to it. */
  predicate Exact(row: SkuRow) {
    Balanced(row) && PaymentDrift(row) == 0 && LoyaltyDrift(row) == 0
  }

  lemma BlankExact(row: SkuRow)
    requires row.costs == map[] && row.penaltyCharged == row.penaltyReturned
    requires row.deductionCharged == row.deductionCompensation && row.sellerRevenue == row.grossSales - row.returned
    ensures Exact(row)
  {
  }

  lemma AbsorbExact(row: SkuRow, op: Operation, p: Period)
    requires Exact(row)
    ensures Exact(Absorb(row, op, p)) && Absorb(row, op, p).rowsCount > 0
  {
    forall f ensures Cost(Absorb(row, op, p), f) == Cost(row, f) + OperationCost(op, f) {
      AbsorbCost(row, op, p, f);
    }
  }
}
