/**
 * Units are counted once per unit key, per period in one view and per day in the other. The daily counts can
 * only be larger, and they are equal exactly when no unit shows up on two days.
 */
module FinanceUnits {
  import opened Dicts
  import opened Keys
  import opened FinanceRows
  import opened FinanceFold
  import opened FinanceAllocation
  import opened FinanceReport
  import opened FinanceReconciliation

  /** Sold or returned units, by the document that counts them. */
  function Units(doc: Document): SkuRow -> int {
    (row: SkuRow) => if doc.Sale? then row.salesUnits else row.returnsUnits
  }

  function UnitKeys(row: SkuRow, doc: Document): set<string> {
    if doc.Sale? then row.saleUnitKeys else row.returnUnitKeys
  }

  predicate Counts(op: Operation, doc: Document, k: NmId) {
    op.nmId == k && op.document == doc
  }

  /** The unit keys seen so far on one article's documents of one kind. */
  function SeenKeys(rows: seq<Operation>, doc: Document, k: NmId): set<string> {
    if rows == [] then {} else
      var seen, op := SeenKeys(rows[..|rows| - 1], doc, k), rows[|rows| - 1];
      if Counts(op, doc, k) then WithUnit(seen, op) else seen
  }

  function NewUnits(seen: set<string>, op: Operation, doc: Document, k: NmId): int {
    if Counts(op, doc, k) && FreshUnit(seen, op) then UnitsOf(op) else 0
  }

  function CountedUnits(rows: seq<Operation>, doc: Document, k: NmId): int {
    if rows == [] then 0 else
      var front, op := rows[..|rows| - 1], rows[|rows| - 1];
      CountedUnits(front, doc, k) + NewUnits(SeenKeys(front, doc, k), op, doc, k)
  }

  lemma {:induction false} FoldUnits(rows: seq<Operation>, p: Period, doc: Document, k: NmId)
    requires doc.Sale? || doc.Return?
    ensures At(Fold(rows, p), k, Units(doc)) == CountedUnits(rows, doc, k)
    ensures UnitKeys(Fold(rows, p).GetOr(k, EMPTY_ROW), doc) == SeenKeys(rows, doc, k)
  {
    if rows != [] {
      FoldUnits(rows[..|rows| - 1], p, doc, k);
    }
  }

  /** Account-level costs and commissions leave unit counts alone. */
  lemma ReportUnits(
    rows: seq<Operation>, p: Period, globals: seq<Operation>, fallback: Aggregates, doc: Document, k: NmId)
    requires doc.Sale? || doc.Return?
    ensures At(FinalizeAll(Allocated(Fold(rows, p), globals, fallback)), k, Units(doc)) == CountedUnits(rows, doc, k)
  {
    var d, g := Fold(rows, p), Units(doc);
    FoldUnits(rows, p, doc, k);
    FoldValid(rows, p);
    assert forall f :: Moves(Crediter(f), g, false);
    AllocatedUntouched(d, globals, fallback, k, g);
    FinalizeTotal(Allocated(d, globals, fallback), k, g);
  }

  // ---- What counts as a unit, document by document ----

  function Indices(n: nat): seq<nat> {
    if n == 0 then [] else Indices(n - 1) + [n - 1]
  }

  /** Document i is of this kind and article, and no earlier one carries its unit key. */
  ghost predicate FirstOfUnit(rows: seq<Operation>, doc: Document, k: NmId, i: nat) {
    && i < |rows| && rows[i].nmId == k && rows[i].document == doc
    && forall j :: 0 <= j < i && rows[j].nmId == k && rows[j].document == doc && rows[i].unitKey.Some? ==>
         rows[j].unitKey != rows[i].unitKey
  }

  /** A document without a key counts its quantity, the first one with a key at least one unit. */
  ghost function UnitsAt(rows: seq<Operation>, doc: Document, k: NmId): nat -> int {
    (i: nat) =>
      if !FirstOfUnit(rows, doc, k, i) then 0
      else if rows[i].unitKey.Some? && rows[i].quantity < 1 then 1
      else rows[i].quantity
  }

  lemma {:induction false} IndicesBelow(n: nat)
    ensures forall i :: i in Indices(n) <==> 0 <= i < n
  {
    if n > 0 {
      IndicesBelow(n - 1);
    }
  }

  lemma {:induction false} CountedIsSum(rows: seq<Operation>, doc: Document, k: NmId)
    ensures CountedUnits(rows, doc, k) == Sum(Indices(|rows|), UnitsAt(rows, doc, k))
  {
    if rows != [] {
      var n := |rows| - 1;
      var front, op := rows[..n], rows[n];
      CountedIsSum(front, doc, k);
      IndicesBelow(n);
      forall i | i in Indices(n) ensures UnitsAt(front, doc, k)(i) == UnitsAt(rows, doc, k)(i) {
        UnitsAtFront(rows, doc, k, i);
      }
      SumSame(Indices(n), UnitsAt(front, doc, k), UnitsAt(rows, doc, k));
      LastUnit(rows, doc, k);
    }
  }

  lemma UnitsAtFront(rows: seq<Operation>, doc: Document, k: NmId, i: nat)
    requires i < |rows| - 1
    ensures UnitsAt(rows[..|rows| - 1], doc, k)(i) == UnitsAt(rows, doc, k)(i)
  {
    var front := rows[..|rows| - 1];
    assert forall j :: 0 <= j <= i ==> front[j] == rows[j];
    assert FirstOfUnit(front, doc, k, i) <==> FirstOfUnit(rows, doc, k, i);
  }

  lemma LastUnit(rows: seq<Operation>, doc: Document, k: NmId)
    requires rows != []
    ensures UnitsAt(rows, doc, k)(|rows| - 1) ==
      NewUnits(SeenKeys(rows[..|rows| - 1], doc, k), rows[|rows| - 1], doc, k)
  {
    var n := |rows| - 1;
    var front, op := rows[..n], rows[n];
    if op.unitKey.Some? {
      SeenKeysMembers(front, doc, k, op.unitKey.value);
      if o :| o in front && Counts(o, doc, k) && o.unitKey == op.unitKey {
        var j :| 0 <= j < n && front[j] == o;
        assert rows[j] == o;
      }
      forall j | 0 <= j < n && rows[j].nmId == k && rows[j].document == doc && rows[j].unitKey == op.unitKey
        ensures op.unitKey.value in SeenKeys(front, doc, k)
      {
        assert front[j] in front;
      }
    }
  }

  /** The sold (or returned) units of an article in the period report. */
  lemma PeriodUnits(rows: seq<Operation>, p: Period, doc: Document, k: NmId)
    requires doc.Sale? || doc.Return?
    ensures At(PeriodReport(rows, p), k, Units(doc)) == Sum(Indices(|rows|), UnitsAt(rows, doc, k))
  {
    ReportUnits(rows, p, Globals(rows), NO_AGGREGATES, doc, k);
    CountedIsSum(rows, doc, k);
  }

  /** And on one day, from that day's documents alone. */
  lemma UnitsOnDay(rows: seq<Operation>, p: Period, day: int, doc: Document, k: NmId)
    requires doc.Sale? || doc.Return?
    ensures At(DayReport(rows, p, day), k, Units(doc)) ==
      Sum(Indices(|OnDay(rows, day)|), UnitsAt(OnDay(rows, day), doc, k))
  {
    var today := OnDay(rows, day);
    ReportUnits(today, p, Globals(today), PeriodReport(rows, p), doc, k);
    CountedIsSum(today, doc, k);
  }

  /** Two documents of one article carry the same unit key. */
  predicate SameUnit(a: Operation, b: Operation, doc: Document, k: NmId) {
    Counts(a, doc, k) && Counts(b, doc, k) && a.unitKey.Some? && a.unitKey == b.unitKey
  }

  ghost predicate SpansDays(rows: seq<Operation>, doc: Document, k: NmId) {
    exists a, b :: a in rows && b in rows && SameUnit(a, b, doc, k) && a.day != b.day
  }

  lemma {:induction false} SeenKeysMembers(rows: seq<Operation>, doc: Document, k: NmId, key: string)
    ensures key in SeenKeys(rows, doc, k) <==>
      exists op :: op in rows && Counts(op, doc, k) && op.unitKey == Some(key)
  {
    if rows != [] {
      var front, last := rows[..|rows| - 1], rows[|rows| - 1];
      assert rows == front + [last];
      SeenKeysMembers(front, doc, k, key);
      if Counts(last, doc, k) && last.unitKey == Some(key) {
        assert last in rows;
      }
    }
  }

  function DayUnits(rows: seq<Operation>, doc: Document, k: NmId): int -> int {
    (day: int) => CountedUnits(OnDay(rows, day), doc, k)
  }

  lemma DayUnitsStep(front: seq<Operation>, op: Operation, doc: Document, k: NmId, day: int)
    ensures DayUnits(front + [op], doc, k)(day) == DayUnits(front, doc, k)(day) +
      if op.day == Some(day) then NewUnits(SeenKeys(OnDay(front, day), doc, k), op, doc, k) else 0
  {
    var today := OnDay(front, day);
    assert (front + [op])[..|front|] == front;
    assert (today + [op])[..|today|] == today;
    assert today + [] == today;
  }

  /** One more document: the day counts it at least when the period does, and more only for a repeated unit. */
  lemma OneMoreDocument(front: seq<Operation>, op: Operation, doc: Document, k: NmId)
    requires op.day.Some?
    ensures var today := NewUnits(SeenKeys(OnDay(front, op.day.value), doc, k), op, doc, k);
      var ever := NewUnits(SeenKeys(front, doc, k), op, doc, k);
      && ever <= today
      && (ever < today <==>
           (&& Counts(op, doc, k) && op.unitKey.Some?
            && (exists a :: a in front && SameUnit(a, op, doc, k))
            && (forall a :: a in front && SameUnit(a, op, doc, k) ==> a.day != op.day)))
  {
    OnDayMembers(front, op.day.value);
    if op.unitKey.Some? {
      SeenKeysMembers(front, doc, k, op.unitKey.value);
      SeenKeysMembers(OnDay(front, op.day.value), doc, k, op.unitKey.value);
    }
  }

  lemma {:induction false} UnitsGap(rows: seq<Operation>, days: seq<int>, doc: Document, k: NmId)
    requires Distinct(days) && forall op :: op in rows && op.day.Some? ==> op.day.value in days
    requires forall op :: op in rows && Counts(op, doc, k) ==> op.day.Some?
    ensures Sum(days, DayUnits(rows, doc, k)) >= CountedUnits(rows, doc, k)
    ensures Sum(days, DayUnits(rows, doc, k)) == CountedUnits(rows, doc, k) <==> !SpansDays(rows, doc, k)
  {
    if rows == [] {
      SumBounds(days, DayUnits(rows, doc, k), 0, 0);
    } else {
      var front, op := rows[..|rows| - 1], rows[|rows| - 1];
      assert rows == front + [op];
      UnitsGap(front, days, doc, k);
      forall day ensures DayUnits(rows, doc, k)(day) == DayUnits(front, doc, k)(day) +
        if op.day == Some(day) then NewUnits(SeenKeys(OnDay(front, day), doc, k), op, doc, k) else 0
      {
        DayUnitsStep(front, op, doc, k, day);
      }
      if op.day.None? {
        SumSame(days, DayUnits(front, doc, k), DayUnits(rows, doc, k));
      } else {
        SumChange(days, op.day.value, DayUnits(front, doc, k), DayUnits(rows, doc, k));
        OneMoreDocument(front, op, doc, k);
      }
      SpansDaysStep(front, op, doc, k);
    }
  }

  /** A unit spans two days when it did before, or when the last document repeats one seen on another day. */
  lemma SpansDaysStep(front: seq<Operation>, op: Operation, doc: Document, k: NmId)
    ensures SpansDays(front + [op], doc, k) <==>
      (SpansDays(front, doc, k) || exists a :: a in front && SameUnit(a, op, doc, k) && a.day != op.day)
    ensures !SpansDays(front, doc, k) && (exists a :: a in front && SameUnit(a, op, doc, k) && a.day != op.day) ==>
      forall a :: a in front && SameUnit(a, op, doc, k) ==> a.day != op.day
  {
    var rows := front + [op];
    assert forall a :: a in rows <==> a in front || a == op;
    forall a, b | a in front && SameUnit(a, op, doc, k) && a.day != op.day && b in front && SameUnit(b, op, doc, k)
      ensures SpansDays(front, doc, k) || b.day != op.day
    {
      assert SameUnit(a, b, doc, k);
    }
    forall a | a in front && SameUnit(a, op, doc, k) && a.day != op.day ensures SpansDays(rows, doc, k) {
      assert a in rows && op in rows;
    }
    if SpansDays(rows, doc, k) {
      var a, b :| a in rows && b in rows && SameUnit(a, b, doc, k) && a.day != b.day;
      if b in front && a !in front {
        assert SameUnit(b, op, doc, k);
      }
    }
  }

  /**
   * With every sale (or return) of an article dated, its units over all days are at least its units for the
   * period, and equal exactly when no unit key of that article appears on two days.
   */
  lemma UnitsReconcile(rows: seq<Operation>, p: Period, doc: Document, k: NmId)
    requires doc.Sale? || doc.Return?
    requires forall op :: op in rows && Counts(op, doc, k) ==> op.day.Some?
    ensures DailyAt(rows, p, k, Units(doc)) >= At(PeriodReport(rows, p), k, Units(doc))
    ensures DailyAt(rows, p, k, Units(doc)) == At(PeriodReport(rows, p), k, Units(doc)) <==> !SpansDays(rows, doc, k)
  {
    var daily, g := DailyReport(rows, p), Units(doc);
    var at := (d: Aggregates) => At(d, k, g);
    DailyReportAt(rows, p, 0);
    DaysCovered(rows, p);
    forall day | day in daily.order ensures At(daily, day, at) == DayUnits(rows, doc, k)(day) {
      DailyReportAt(rows, p, day);
      ReportUnits(OnDay(rows, day), p, Globals(OnDay(rows, day)), PeriodReport(rows, p), doc, k);
    }
    SumSame(daily.order, day => At(daily, day, at), DayUnits(rows, doc, k));
    UnitsGap(rows, daily.order, doc, k);
    ReportUnits(rows, p, Globals(rows), NO_AGGREGATES, doc, k);
  }
}
