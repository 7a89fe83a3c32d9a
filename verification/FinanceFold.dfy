/** The per-article fold of report rows and the conservation laws of any additive column. */
module FinanceFold {
  import opened Dicts
  import opened Keys
  import opened FinanceRows

  type Aggregates = Dict<NmId, SkuRow>

  const NO_AGGREGATES: Aggregates := Dict([], map[])

  /** The dict after the first pass over `rows`; account-level rows (no article) are set aside. */
  function Fold(rows: seq<Operation>, p: Period): Aggregates {
    if rows == [] then NO_AGGREGATES
    else FoldOne(Fold(rows[..|rows| - 1], p), rows[|rows| - 1], p)
  }

  function FoldOne(d: Aggregates, op: Operation, p: Period): Aggregates {
    if op.nmId <= 0 then d else d.Put(op.nmId, Absorb(d.GetOr(op.nmId, EMPTY_ROW), op, p))
  }

  /** The rows that belong to the account and not to an article. */
  function Globals(rows: seq<Operation>): seq<Operation> {
    if rows == [] then [] else Globals(rows[..|rows| - 1]) + GlobalsOf(rows[|rows| - 1])
  }

  function GlobalsOf(op: Operation): seq<Operation> {
    if op.nmId <= 0 then [op] else []
  }

  function CostIn(f: Field): Operation -> int {
    (op: Operation) => OperationCost(op, f)
  }

  /** A column restricted to the rows of one article. */
  function OfArticle(k: NmId, h: Operation -> int): Operation -> int {
    (op: Operation) => if op.nmId == k then h(op) else 0
  }

  /** A column restricted to the rows that name an article. */
  function OfArticles(h: Operation -> int): Operation -> int {
    (op: Operation) => if op.nmId > 0 then h(op) else 0
  }

  /** `_finance_raw_expense_totals` for one key. */
  function RawTotal(rows: seq<Operation>, f: Field): int {
    Sum(rows, CostIn(f))
  }

  /** A column of the row that every operation moves by its own amount. */
  ghost predicate Additive(g: SkuRow -> int, h: Operation -> int, p: Period) {
    && g(EMPTY_ROW) == 0
    && forall row, op :: g(Absorb(row, op, p)) == g(row) + h(op)
  }

  lemma CostAdditive(f: Field, p: Period)
    ensures Additive(CostOf(f), CostIn(f), p)
  {
    forall row, op ensures CostOf(f)(Absorb(row, op, p)) == CostOf(f)(row) + OperationCost(op, f) {
      AbsorbCost(row, op, p, f);
    }
  }

  lemma {:induction false} FoldValid(rows: seq<Operation>, p: Period)
    ensures Fold(rows, p).Valid()
  {
    if rows != [] {
      FoldValid(rows[..|rows| - 1], p);
    }
  }

  /** What one article's row holds is the sum over that article's operations. */
  lemma {:induction false} FoldAt(rows: seq<Operation>, p: Period, k: NmId, g: SkuRow -> int, h: Operation -> int)
    requires Additive(g, h, p)
    ensures At(Fold(rows, p), k, g) == Sum(rows, OfArticle(k, h))
  {
    if rows != [] {
      FoldAt(rows[..|rows| - 1], p, k, g, h);
    }
  }

  /** Nothing is lost between articles: the column total is the sum over all operations with an article. */
  lemma {:induction false} FoldTotal(rows: seq<Operation>, p: Period, g: SkuRow -> int, h: Operation -> int)
    requires Additive(g, h, p)
    ensures Total(Fold(rows, p), g) == Sum(rows, OfArticles(h))
  {
    if rows != [] {
      var front, op := rows[..|rows| - 1], rows[|rows| - 1];
      FoldTotal(front, p, g, h);
      FoldValid(front, p);
      if op.nmId > 0 {
        var d := Fold(front, p);
        TotalPut(d, op.nmId, Absorb(d.GetOr(op.nmId, EMPTY_ROW), op, p), g);
      }
    }
  }

  /** Before account-level costs arrive every row satisfies its identities exactly. */
  lemma {:induction false} FoldExact(rows: seq<Operation>, p: Period, k: NmId)
    requires k in Fold(rows, p).at
    ensures Exact(Fold(rows, p).at[k]) && Fold(rows, p).at[k].rowsCount > 0
  {
    var front, op := rows[..|rows| - 1], rows[|rows| - 1];
    if k in Fold(front, p).at {
      FoldExact(front, p, k);
    }
    if op.nmId == k {
      var row := Fold(front, p).GetOr(k, EMPTY_ROW);
      if k !in Fold(front, p).at {
        BlankExact(row);
      }
      AbsorbExact(row, op, p);
    }
  }

  /** Rows of articles and rows of the account together are all rows. */
  lemma {:induction false} SplitGlobals(rows: seq<Operation>, h: Operation -> int)
    ensures Sum(rows, h) == Sum(rows, OfArticles(h)) + Sum(Globals(rows), h)
  {
    if rows != [] {
      var front, op := rows[..|rows| - 1], rows[|rows| - 1];
      SplitGlobals(front, h);
      if op.nmId <= 0 {
        SumAppend(Globals(front), op, h);
      } else {
        assert Globals(rows) == Globals(front) + [] == Globals(front);
      }
    }
  }

  lemma {:induction false} FoldEmpty(rows: seq<Operation>, p: Period)
    ensures Fold(rows, p).order == [] <==> forall op :: op in rows ==> op.nmId <= 0
    ensures Globals(rows) == [] <==> forall op :: op in rows ==> op.nmId > 0
  {
    if rows != [] {
      var front, op := rows[..|rows| - 1], rows[|rows| - 1];
      assert rows == front + [op];
      FoldEmpty(front, p);
      FoldValid(front, p);
      assert forall o :: o in rows <==> o in front || o == op;
    }
  }
}
