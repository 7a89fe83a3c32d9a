/** `_allocate_global_finance_costs`: account-level rows are charged to articles by seller revenue. */
module FinanceAllocation {
  import opened Arith
  import opened Dicts
  import opened Keys
  import opened Allocator
  import opened AllocationDrift
  import opened FinanceRows
  import opened FinanceFold

  /** An article with refunds above its sales weighs nothing. */
  function RevenueWeights(source: Aggregates): Weights {
    Dict(source.order, map k | k in source.at :: Max(0, source.at[k].sellerRevenue))
  }

  type Crediting = (SkuRow, int) -> SkuRow

  function Crediter(f: Field): Crediting {
    (row: SkuRow, amount: int) => Credit(row, f, amount)
  }

  /** The dict after the shares of `keys` were credited. */
  function Spread(d: Aggregates, credit: Crediting, share: NmId -> int, keys: seq<NmId>): Aggregates {
    if keys == [] then d else
      var before, k := Spread(d, credit, share, keys[..|keys| - 1]), keys[|keys| - 1];
      var row := before.GetOr(k, EMPTY_ROW);
      before.Put(k, credit(row, share(k)))
  }

  function ShareOf(shares: Weights): NmId -> int {
    (k: NmId) => shares.GetOr(k, 0)
  }

  /** One cost: a total of zero is skipped. */
  function SpreadField(d: Aggregates, f: Field, total: int, w: Weights): Aggregates {
    if total == 0 then d else Spread(d, Crediter(f), ShareOf(Allocation(total, w)), w.order)
  }

  /** The dict after the costs `fields` were spread. */
  function SpreadFields(d: Aggregates, globals: seq<Operation>, w: Weights, fields: seq<Field>): Aggregates {
    if fields == [] then d else
      var f := fields[|fields| - 1];
      SpreadField(SpreadFields(d, globals, w, fields[..|fields| - 1]), f, RawTotal(globals, f), w)
  }

  /** Revenue of the dict itself decides, or of the fallback when the dict is still empty. */
  function WeightSource(d: Aggregates, fallback: Aggregates): Aggregates {
    if d.order != [] then d else fallback
  }

  function Allocated(d: Aggregates, globals: seq<Operation>, fallback: Aggregates): Aggregates {
    var w := RevenueWeights(WeightSource(d, fallback));
    if globals == [] || w.order == [] then d else SpreadFields(d, globals, w, FIELDS)
  }

  /** Crediting a share moves the column g by that share, or leaves it alone. */
  ghost predicate Moves(credit: Crediting, g: SkuRow -> int, hit: bool) {
    && g(EMPTY_ROW) == 0
    && forall row, amount :: g(credit(row, amount)) == g(row) + if hit then amount else 0
  }

  ghost predicate Preserves(credit: Crediting, inv: SkuRow -> bool) {
    forall row, amount :: inv(row) ==> inv(credit(row, amount))
  }

  // ---- One cost ----

  lemma {:induction false} SpreadValid(d: Aggregates, credit: Crediting, share: NmId -> int, keys: seq<NmId>)
    requires d.Valid()
    ensures Spread(d, credit, share, keys).Valid()
  {
    if keys != [] {
      SpreadValid(d, credit, share, keys[..|keys| - 1]);
    }
  }

  lemma {:induction false} SpreadTotal(
    d: Aggregates, credit: Crediting, share: NmId -> int, keys: seq<NmId>, g: SkuRow -> int, hit: bool)
    requires d.Valid() && Moves(credit, g, hit)
    ensures Total(Spread(d, credit, share, keys), g) == Total(d, g) + if hit then Sum(keys, share) else 0
  {
    if keys != [] {
      var front, k := keys[..|keys| - 1], keys[|keys| - 1];
      SpreadTotal(d, credit, share, front, g, hit);
      SpreadValid(d, credit, share, front);
      var before := Spread(d, credit, share, front);
      var row: SkuRow := before.GetOr(k, EMPTY_ROW);
      var amount: int := share(k);
      assert g(credit(row, amount)) == g(row) + if hit then amount else 0;
      TotalPut(before, k, credit(row, share(k)), g);
    }
  }

  lemma {:induction false} SpreadAt(
    d: Aggregates, credit: Crediting, share: NmId -> int, keys: seq<NmId>, k: NmId, g: SkuRow -> int, hit: bool)
    requires Moves(credit, g, hit)
    ensures At(Spread(d, credit, share, keys), k, g) ==
      At(d, k, g) + if hit then Sum(keys, j => if j == k then share(k) else 0) else 0
  {
    if keys != [] {
      var front, j := keys[..|keys| - 1], keys[|keys| - 1];
      SpreadAt(d, credit, share, front, k, g, hit);
      var row: SkuRow := Spread(d, credit, share, front).GetOr(j, EMPTY_ROW);
      var amount: int := share(j);
      assert g(credit(row, amount)) == g(row) + if hit then amount else 0;
    }
  }

  lemma {:induction false} SpreadPreserves(
    d: Aggregates, credit: Crediting, share: NmId -> int, keys: seq<NmId>, k: NmId, inv: SkuRow -> bool)
    requires Preserves(credit, inv) && inv(d.GetOr(k, EMPTY_ROW))
    ensures inv(Spread(d, credit, share, keys).GetOr(k, EMPTY_ROW))
  {
    if keys != [] {
      var front, j := keys[..|keys| - 1], keys[|keys| - 1];
      SpreadPreserves(d, credit, share, front, k, inv);
      var row: SkuRow := Spread(d, credit, share, front).GetOr(j, EMPTY_ROW);
      var amount: int := share(j);
      assert inv(row) ==> inv(credit(row, amount));
    }
  }

  // ---- One cost, then all costs ----

  lemma CrediterMoves(f: Field, f': Field)
    ensures Moves(Crediter(f), CostOf(f'), f == f')
  {
  }

  lemma FieldTotal(d: Aggregates, f: Field, total: int, w: Weights, f': Field)
    requires d.Valid() && w.Valid() && w.order != []
    ensures SpreadField(d, f, total, w).Valid()
    ensures Total(SpreadField(d, f, total, w), CostOf(f')) == Total(d, CostOf(f')) + if f == f' then total else 0
  {
    CrediterMoves(f, f');
    var a := Allocation(total, w);
    SharesSum(total, w);
    SumSame(w.order, k => a.GetOr(k, 0), ShareOf(a));
    SpreadTotal(d, Crediter(f), ShareOf(a), w.order, CostOf(f'), f == f');
    SpreadValid(d, Crediter(f), ShareOf(a), w.order);
  }

  lemma FieldAt(d: Aggregates, f: Field, total: int, w: Weights, k: NmId, f': Field)
    requires w.Valid()
    ensures At(SpreadField(d, f, total, w), k, CostOf(f')) ==
      At(d, k, CostOf(f')) + if f == f' then ShareOf(Allocation(total, w))(k) else 0
  {
    CrediterMoves(f, f');
    var share := ShareOf(Allocation(total, w));
    SumPick(w.order, k, share(k), j => if j == k then share(k) else 0);
    SpreadAt(d, Crediter(f), share, w.order, k, CostOf(f'), f == f');
  }

  lemma {:induction false} FieldsTotal(
    d: Aggregates, globals: seq<Operation>, w: Weights, fields: seq<Field>, f: Field)
    requires d.Valid() && w.Valid() && w.order != [] && Distinct(fields)
    ensures SpreadFields(d, globals, w, fields).Valid()
    ensures Total(SpreadFields(d, globals, w, fields), CostOf(f)) ==
      Total(d, CostOf(f)) + if f in fields then RawTotal(globals, f) else 0
  {
    if fields != [] {
      var front, last := fields[..|fields| - 1], fields[|fields| - 1];
      assert fields == front + [last];
      FieldsTotal(d, globals, w, front, f);
      FieldTotal(SpreadFields(d, globals, w, front), last, RawTotal(globals, last), w, f);
    }
  }

  lemma {:induction false} FieldsAt(
    d: Aggregates, globals: seq<Operation>, w: Weights, fields: seq<Field>, k: NmId, f: Field)
    requires w.Valid() && Distinct(fields)
    ensures At(SpreadFields(d, globals, w, fields), k, CostOf(f)) ==
      At(d, k, CostOf(f)) + if f in fields then ShareOf(Allocation(RawTotal(globals, f), w))(k) else 0
  {
    if fields != [] {
      var front, last := fields[..|fields| - 1], fields[|fields| - 1];
      assert fields == front + [last];
      FieldsAt(d, globals, w, front, k, f);
      FieldAt(SpreadFields(d, globals, w, front), last, RawTotal(globals, last), w, k, f);
    }
  }

  lemma NothingShared(w: Weights, k: NmId)
    ensures ShareOf(Allocation(0, w))(k) == 0
  {
  }

  /** A column that crediting the cost f moves by a function of the share, and no other cost moves. */
  ghost predicate FollowsShare(g: SkuRow -> int, f: Field, c: int -> int) {
    && c(0) == 0 && MovesBy(Crediter(f), g, c)
    && forall other: Field :: other != f ==> MovesBy(Crediter(other), g, x => 0)
  }

  ghost predicate MovesBy(credit: Crediting, g: SkuRow -> int, c: int -> int) {
    g(EMPTY_ROW) == 0 && forall row, amount :: g(credit(row, amount)) == g(row) + c(amount)
  }

  lemma {:induction false} SpreadBy(
    d: Aggregates, credit: Crediting, share: NmId -> int, keys: seq<NmId>, k: NmId, g: SkuRow -> int, c: int -> int)
    requires MovesBy(credit, g, c)
    ensures At(Spread(d, credit, share, keys), k, g) == At(d, k, g) + Sum(keys, j => if j == k then c(share(k)) else 0)
  {
    if keys != [] {
      var front, j := keys[..|keys| - 1], keys[|keys| - 1];
      SpreadBy(d, credit, share, front, k, g, c);
      var row: SkuRow := Spread(d, credit, share, front).GetOr(j, EMPTY_ROW);
      var amount: int := share(j);
      assert g(credit(row, amount)) == g(row) + c(amount);
    }
  }

  lemma FieldBy(
    d: Aggregates, f: Field, total: int, w: Weights, k: NmId, g: SkuRow -> int, c: int -> int)
    requires w.Valid() && c(0) == 0 && MovesBy(Crediter(f), g, c)
    ensures At(SpreadField(d, f, total, w), k, g) == At(d, k, g) + c(ShareOf(Allocation(total, w))(k))
  {
    var share := ShareOf(Allocation(total, w));
    if total == 0 {
      NothingShared(w, k);
    } else {
      SpreadBy(d, Crediter(f), share, w.order, k, g, c);
      SumPick(w.order, k, c(share(k)), j => if j == k then c(share(k)) else 0);
      NoShareOutside(total, w, k);
    }
  }

  lemma NoShareOutside(total: int, w: Weights, k: NmId)
    requires w.Valid()
    ensures k !in w.order ==> ShareOf(Allocation(total, w))(k) == 0
  {
  }

  lemma {:induction false} FieldsBy(
    d: Aggregates, globals: seq<Operation>, w: Weights, fields: seq<Field>, k: NmId, f: Field,
    g: SkuRow -> int, c: int -> int)
    requires w.Valid() && Distinct(fields) && FollowsShare(g, f, c)
    ensures At(SpreadFields(d, globals, w, fields), k, g) ==
      At(d, k, g) + if f in fields then c(ShareOf(Allocation(RawTotal(globals, f), w))(k)) else 0
  {
    if fields != [] {
      var front, last := fields[..|fields| - 1], fields[|fields| - 1];
      assert fields == front + [last];
      FieldsBy(d, globals, w, front, k, f, g, c);
      FieldBy(SpreadFields(d, globals, w, front), last, RawTotal(globals, last), w, k, g, if last == f then c else x => 0);
    }
  }

  /** A column no share touches keeps its values and its total. */
  lemma {:induction false} FieldsUntouched(
    d: Aggregates, globals: seq<Operation>, w: Weights, fields: seq<Field>, k: NmId, g: SkuRow -> int)
    requires d.Valid() && forall f :: Moves(Crediter(f), g, false)
    ensures var r := SpreadFields(d, globals, w, fields);
      r.Valid() && At(r, k, g) == At(d, k, g) && Total(r, g) == Total(d, g)
  {
    if fields != [] {
      var front, f := fields[..|fields| - 1], fields[|fields| - 1];
      FieldsUntouched(d, globals, w, front, k, g);
      var before, share := SpreadFields(d, globals, w, front), ShareOf(Allocation(RawTotal(globals, f), w));
      SpreadValid(before, Crediter(f), share, w.order);
      SpreadAt(before, Crediter(f), share, w.order, k, g, false);
      SpreadTotal(before, Crediter(f), share, w.order, g, false);
    }
  }

  lemma {:induction false} FieldsPreserve(
    d: Aggregates, globals: seq<Operation>, w: Weights, fields: seq<Field>, k: NmId, inv: SkuRow -> bool)
    requires forall f :: Preserves(Crediter(f), inv)
    requires inv(d.GetOr(k, EMPTY_ROW))
    ensures inv(SpreadFields(d, globals, w, fields).GetOr(k, EMPTY_ROW))
  {
    if fields != [] {
      var front, f := fields[..|fields| - 1], fields[|fields| - 1];
      FieldsPreserve(d, globals, w, front, k, inv);
      SpreadPreserves(SpreadFields(d, globals, w, front), Crediter(f),
        ShareOf(Allocation(RawTotal(globals, f), w)), w.order, k, inv);
    }
  }

  // ---- The whole call ----

  lemma RevenueWeightsValid(source: Aggregates)
    requires source.Valid()
    ensures RevenueWeights(source).Valid()
  {
  }

  /** Either every kopeck of every account-level cost lands on some article, or there is no article at all. */
  lemma AllocatedTotal(d: Aggregates, globals: seq<Operation>, fallback: Aggregates, f: Field)
    requires d.Valid() && fallback.Valid()
    ensures Allocated(d, globals, fallback).Valid()
    ensures Total(Allocated(d, globals, fallback), CostOf(f)) == Total(d, CostOf(f)) +
      if WeightSource(d, fallback).order != [] then RawTotal(globals, f) else 0
  {
    var w := RevenueWeights(WeightSource(d, fallback));
    RevenueWeightsValid(WeightSource(d, fallback));
    FieldsComplete();
    if w.order != [] {
      FieldsTotal(d, globals, w, FIELDS, f);
    }
  }

  lemma {:induction false} SpreadOrder(d: Aggregates, credit: Crediting, share: NmId -> int, keys: seq<NmId>)
    requires forall k :: k in keys ==> k in d.at
    ensures Spread(d, credit, share, keys).order == d.order
    ensures Spread(d, credit, share, keys).at.Keys == d.at.Keys
  {
    if keys != [] {
      SpreadOrder(d, credit, share, keys[..|keys| - 1]);
    }
  }

  lemma {:induction false} FieldsOrder(d: Aggregates, globals: seq<Operation>, w: Weights, fields: seq<Field>)
    requires forall k :: k in w.order ==> k in d.at
    ensures SpreadFields(d, globals, w, fields).order == d.order
    ensures SpreadFields(d, globals, w, fields).at.Keys == d.at.Keys
  {
    if fields != [] {
      var front, f := fields[..|fields| - 1], fields[|fields| - 1];
      FieldsOrder(d, globals, w, front);
      var share := ShareOf(Allocation(RawTotal(globals, f), w));
      SpreadOrder(SpreadFields(d, globals, w, front), Crediter(f), share, w.order);
    }
  }

  /** Without a fallback, charging introduces no article and moves none. */
  lemma AllocatedOrder(d: Aggregates, globals: seq<Operation>, fallback: Aggregates)
    requires d.Valid() && (d.order != [] || fallback.order == [])
    ensures Allocated(d, globals, fallback).order == d.order
    ensures Allocated(d, globals, fallback).at.Keys == d.at.Keys
  {
    if d.order != [] {
      FieldsOrder(d, globals, RevenueWeights(d), FIELDS);
    }
  }

  lemma AllocatedUntouched(d: Aggregates, globals: seq<Operation>, fallback: Aggregates, k: NmId, g: SkuRow -> int)
    requires d.Valid() && forall f :: Moves(Crediter(f), g, false)
    ensures At(Allocated(d, globals, fallback), k, g) == At(d, k, g)
    ensures Total(Allocated(d, globals, fallback), g) == Total(d, g)
  {
    FieldsUntouched(d, globals, RevenueWeights(WeightSource(d, fallback)), FIELDS, k, g);
  }

  lemma AllocatedPreserves(d: Aggregates, globals: seq<Operation>, fallback: Aggregates, k: NmId, inv: SkuRow -> bool)
    requires forall f :: Preserves(Crediter(f), inv)
    requires inv(d.GetOr(k, EMPTY_ROW))
    ensures inv(Allocated(d, globals, fallback).GetOr(k, EMPTY_ROW))
  {
    FieldsPreserve(d, globals, RevenueWeights(WeightSource(d, fallback)), FIELDS, k, inv);
  }

  // ---- Whose revenue decides ----

  lemma RevenueWeightSum(source: Aggregates)
    requires source.Valid()
    ensures WeightSum(RevenueWeights(source)) == Total(source, PositiveRevenue())
  {
    var w := RevenueWeights(source);
    SumSame(source.order, k => w.GetOr(k, 0), k => At(source, k, PositiveRevenue()));
  }

  lemma FairShare(total: int, source: Aggregates, k: NmId, share: int)
    requires source.Valid() && k in source.at && share == ShareOf(Allocation(total, RevenueWeights(source)))(k)
    ensures FairCharge(share, total, PositiveRevenue()(source.at[k]), Total(source, PositiveRevenue()),
      |source.order|)
  {
    RevenueWeightsValid(source);
    RevenueWeightSum(source);
    ShareIsFair(total, RevenueWeights(source), k);
  }

  /** What a charge is, apart from what it amounts to. */
  lemma ChargeIsShare(d: Aggregates, globals: seq<Operation>, fallback: Aggregates, k: NmId, f: Field)
    requires d.Valid() && fallback.Valid()
    ensures var source := if d.order != [] then d else fallback;
      At(Allocated(d, globals, fallback), k, CostOf(f)) - At(d, k, CostOf(f)) ==
        if k in source.at then ShareOf(Allocation(Sum(globals, CostIn(f)), RevenueWeights(source)))(k) else 0
  {
    var source := if d.order != [] then d else fallback;
    var w, total := RevenueWeights(source), RawTotal(globals, f);
    RevenueWeightsValid(source);
    if globals == [] {
      NothingShared(w, k);
    } else if w.order != [] {
      FieldsComplete();
      FieldsAt(d, globals, w, FIELDS, k, f);
    } else {
      assert k !in source.at;
    }
  }

  /** Such a column grows by what the share amounts to. */
  lemma ChargedBreakdown(
    d: Aggregates, globals: seq<Operation>, fallback: Aggregates, k: NmId, f: Field, g: SkuRow -> int, c: int -> int,
    charge: int)
    requires d.Valid() && fallback.Valid() && FollowsShare(g, f, c)
    requires charge == At(Allocated(d, globals, fallback), k, CostOf(f)) - At(d, k, CostOf(f))
    ensures At(Allocated(d, globals, fallback), k, g) == At(d, k, g) + c(charge)
  {
    var w := RevenueWeights(WeightSource(d, fallback));
    RevenueWeightsValid(WeightSource(d, fallback));
    if globals != [] && w.order != [] {
      var share := ShareMoves(d, globals, w, k, f, g, c);
      assert share == charge;
    }
  }

  lemma ShareMoves(
    d: Aggregates, globals: seq<Operation>, w: Weights, k: NmId, f: Field, g: SkuRow -> int, c: int -> int)
    returns (share: int)
    requires w.Valid() && FollowsShare(g, f, c)
    ensures At(SpreadFields(d, globals, w, FIELDS), k, CostOf(f)) == At(d, k, CostOf(f)) + share
    ensures At(SpreadFields(d, globals, w, FIELDS), k, g) == At(d, k, g) + c(share)
  {
    share := ShareOf(Allocation(RawTotal(globals, f), w))(k);
    FieldsComplete();
    FieldsAt(d, globals, w, FIELDS, k, f);
    FieldsBy(d, globals, w, FIELDS, k, f, g, c);
  }

  /**
   * Every cost of the account-level rows is charged by seller revenue: an article's column grows by its part of the
   * total, in proportion to its own positive revenue, to within one kopeck; by an equal part when no article has
   * positive revenue. Articles outside the weight source are charged nothing.
   */
  lemma ChargedBySellerRevenue(
    d: Aggregates, globals: seq<Operation>, fallback: Aggregates, k: NmId, f: Field, charge: int)
    requires d.Valid() && fallback.Valid()
    requires charge == At(Allocated(d, globals, fallback), k, CostOf(f)) - At(d, k, CostOf(f))
    ensures var source := if d.order != [] then d else fallback;
      if k in source.at then
        FairCharge(charge, Sum(globals, CostIn(f)), PositiveRevenue()(source.at[k]),
          Total(source, PositiveRevenue()), |source.order|)
      else charge == 0
  {
    var source := if d.order != [] then d else fallback;
    ChargeIsShare(d, globals, fallback, k, f);
    if k in source.at {
      FairShare(Sum(globals, CostIn(f)), source, k, charge);
    }
  }

  // ---- Identities between columns survive the rounding up to one kopeck ----

  lemma {:induction false} RawIdentities(rows: seq<Operation>)
    ensures RawTotal(rows, AdditionalPayment) == -RawTotal(rows, PaymentSchedule) - RawTotal(rows, RewardAdjustment)
    ensures RawTotal(rows, LoyaltyCost) == RawTotal(rows, CashbackAmount) + RawTotal(rows, CashbackCommissionChange)
  {
    if rows != [] {
      RawIdentities(rows[..|rows| - 1]);
    }
  }

  lemma ShareFlip(total: int, w: Weights, k: NmId)
    ensures ShareOf(Allocation(-total, w))(k) == -ShareOf(Allocation(total, w))(k)
  {
    if k in w.at {
      NegatedTotal(total, w, k);
    }
  }

  /** What account-level shares add to the payment identity of a row. */
  lemma PaymentSharesDrift(globals: seq<Operation>, w: Weights, k: NmId)
    requires w.Valid()
    ensures -1 <= ShareOf(Allocation(RawTotal(globals, AdditionalPayment), w))(k)
      + ShareOf(Allocation(RawTotal(globals, PaymentSchedule), w))(k)
      + ShareOf(Allocation(RawTotal(globals, RewardAdjustment), w))(k) <= 1
  {
    RawIdentities(globals);
    SharesCancel(w, k, RawTotal(globals, AdditionalPayment), RawTotal(globals, PaymentSchedule),
      RawTotal(globals, RewardAdjustment));
  }

  /** What account-level shares add to the loyalty identity of a row. */
  lemma LoyaltySharesDrift(globals: seq<Operation>, w: Weights, k: NmId)
    requires w.Valid()
    ensures -1 <= ShareOf(Allocation(RawTotal(globals, LoyaltyCost), w))(k)
      - ShareOf(Allocation(RawTotal(globals, CashbackAmount), w))(k)
      - ShareOf(Allocation(RawTotal(globals, CashbackCommissionChange), w))(k) <= 1
  {
    RawIdentities(globals);
    SharesOfSum(w, k, RawTotal(globals, LoyaltyCost), RawTotal(globals, CashbackAmount),
      RawTotal(globals, CashbackCommissionChange));
  }

  /** One article's share as a function of the total. */
  function SharesOf(w: Weights, k: NmId): int -> int {
    (total: int) => ShareOf(Allocation(total, w))(k)
  }

  ghost predicate Odd(share: int -> int) {
    forall x :: Flips(share, x)
  }

  ghost predicate Flips(share: int -> int, x: int) {
    share(-x) == -share(x)
  }

  ghost predicate NearlyCancels(share: int -> int) {
    forall x, y, z :: x + y + z == 0 ==> -1 <= share(x) + share(y) + share(z) <= 1
  }

  lemma SharesAreOdd(w: Weights, k: NmId)
    ensures Odd(SharesOf(w, k))
  {
    forall x ensures Flips(SharesOf(w, k), x) {
      ShareFlip(x, w, k);
    }
  }

  lemma SharesNearlyCancel(w: Weights, k: NmId)
    requires w.Valid()
    ensures NearlyCancels(SharesOf(w, k))
  {
    forall x, y, z | x + y + z == 0 ensures -1 <= SharesOf(w, k)(x) + SharesOf(w, k)(y) + SharesOf(w, k)(z) <= 1 {
      SharesCancel(w, k, x, y, z);
    }
  }

  lemma SharesCancel(w: Weights, k: NmId, x: int, y: int, z: int)
    requires w.Valid() && x + y + z == 0
    ensures -1 <= ShareOf(Allocation(x, w))(k) + ShareOf(Allocation(y, w))(k) + ShareOf(Allocation(z, w))(k) <= 1
  {
    if k in w.at {
      CancellingShares(w, k, x, y, z);
    }
  }

  lemma NearlyAdditive(share: int -> int, total: int, a: int, b: int)
    requires Odd(share) && NearlyCancels(share) && total == a + b
    ensures -1 <= share(total) - share(a) - share(b) <= 1
  {
    assert Flips(share, a) && Flips(share, b);
    assert -1 <= share(total) + share(-a) + share(-b) <= 1;
  }

  lemma SharesOfSum(w: Weights, k: NmId, total: int, a: int, b: int)
    requires w.Valid() && total == a + b
    ensures -1 <= ShareOf(Allocation(total, w))(k) - ShareOf(Allocation(a, w))(k) - ShareOf(Allocation(b, w))(k) <= 1
  {
    SharesAreOdd(w, k);
    SharesNearlyCancel(w, k);
    NearlyAdditive(SharesOf(w, k), total, a, b);
  }

  ghost predicate NearlyExact(row: SkuRow) {
    -1 <= PaymentDrift(row) <= 1 && -1 <= LoyaltyDrift(row) <= 1
  }

  /** Three roundings meet in each identity, and still no article is off by more than one kopeck. */
  lemma AllocatedDrift(d: Aggregates, globals: seq<Operation>, fallback: Aggregates, k: NmId)
    requires d.Valid() && fallback.Valid() && k in Allocated(d, globals, fallback).at
    requires k in d.at ==> Exact(d.at[k])
    ensures NearlyExact(Allocated(d, globals, fallback).at[k])
  {
    var w := RevenueWeights(WeightSource(d, fallback));
    RevenueWeightsValid(WeightSource(d, fallback));
    if globals != [] && w.order != [] {
      FieldsComplete();
      forall f ensures At(Allocated(d, globals, fallback), k, CostOf(f)) ==
        At(d, k, CostOf(f)) + ShareOf(Allocation(RawTotal(globals, f), w))(k)
      {
        FieldsAt(d, globals, w, FIELDS, k, f);
      }
      PaymentSharesDrift(globals, w, k);
      LoyaltySharesDrift(globals, w, k);
    }
  }

  // ---- The loops of the program ----

  /** `totals`: one pass over the account-level rows, adding up every cost. */
  method TotalCosts(rows: seq<Operation>) returns (totals: map<Field, int>)
    ensures totals == map f: Field | true :: RawTotal(rows, f)
  {
    totals := map f: Field | true :: RawTotal([], f);
    for i := 0 to |rows|
      invariant totals == map f: Field | true :: RawTotal(rows[..i], f)
    {
      assert rows[..i + 1][..i] == rows[..i];
      totals := map f: Field | true :: totals[f] + OperationCost(rows[i], f);
    }
    assert rows[..|rows|] == rows;
  }

  lemma OneMoreField(d: Aggregates, globals: seq<Operation>, w: Weights, fields: seq<Field>, i: nat)
    requires i < |fields|
    ensures SpreadFields(d, globals, w, fields[..i + 1]) ==
      SpreadField(SpreadFields(d, globals, w, fields[..i]), fields[i], RawTotal(globals, fields[i]), w)
  {
    assert fields[..i + 1][..i] == fields[..i];
  }

  method AllocateGlobalFinanceCosts(d: Aggregates, globals: seq<Operation>, fallback: Aggregates)
    returns (result: Aggregates)
    requires d.Valid() && fallback.Valid()
    ensures result == Allocated(d, globals, fallback)
  {
    result := d;
    var source := if |d.order| > 0 then d else fallback;
    var weights := RevenueWeights(source);
    if |globals| == 0 || |weights.order| == 0 {
      return;
    }
    RevenueWeightsValid(source);
    var totals := TotalCosts(globals);
    for i := 0 to |FIELDS|
      invariant result == SpreadFields(d, globals, weights, FIELDS[..i])
    {
      OneMoreField(d, globals, weights, FIELDS, i);
      var key := FIELDS[i];
      if totals[key] != 0 {
        result := CreditShares(result, key, totals[key], weights);
      }
    }
    assert FIELDS[..|FIELDS|] == FIELDS;
  }

  method CreditShares(d: Aggregates, key: Field, total: int, weights: Weights) returns (result: Aggregates)
    requires weights.Valid()
    ensures result == Spread(d, Crediter(key), ShareOf(Allocation(total, weights)), weights.order)
  {
    var shares := AllocateSignedTotal(total, weights);
    var share := ShareOf(shares);
    result := d;
    for j := 0 to |shares.order|
      invariant result == Spread(d, Crediter(key), share, shares.order[..j])
    {
      assert shares.order[..j + 1][..j] == shares.order[..j];
      var nmId, amount := shares.order[j], share(shares.order[j]);
      var row: SkuRow := result.GetOr(nmId, EMPTY_ROW);
      result := result.Put(nmId, Credit(row, key, amount));
    }
    assert shares.order[..|shares.order|] == shares.order;
  }
}
