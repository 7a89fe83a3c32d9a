/**
 * `fetch_finance_report_aggregates`: operations are paged by a cursor over their ids; after every page the rows
 * and the cursor are saved, so that a killed run can be resumed. Pages are validated row by row.
 */
module FinanceCursor {
  import opened Dicts
  import opened Keys

  datatype RawId = Whole(n: int) | Text(s: string) | Unusable

  /** The field a row's id was found under: "rrdId", or "rrd_id" when that is missing or empty. */
  datatype IdKey = RrdId | SnakeRrdId

  /** A row of a page; `content` stands for all of its other fields. */
  datatype Row = Row(key: IdKey, rawId: RawId, isTrade: bool, revenueFinite: bool, priceFinite: bool, content: string)

  datatype Failure = InvalidRowId | ConflictingRows | CursorStalled | InvalidTradeRevenue | InvalidSellerPrice
    | IdUnreadable

  datatype Result<+T> = Ok(value: T) | Err(failure: Failure)

  /** What a checkpoint holds; the index of seen ids is rebuilt from the rows. */
  datatype Progress = Progress(rows: seq<Row>, cursor: int, pages: nat)

  const NOTHING := Progress([], 0, 0)

  /** The id of a row, 0 when it has none that is acceptable. */
  function RowId(row: Row): int {
    match row.rawId
    case Whole(n) => n
    case Text(s) => if s != [] && AllDigits(s) && s[0] != '0' then Number(s) else 0
    case Unusable => 0
  }

  /** `{int(row["rrdId"]): row for row in rows}` */
  function Seen(rows: seq<Row>): map<int, Row> {
    if rows == [] then map[] else Seen(rows[..|rows| - 1])[RowId(rows[|rows| - 1]) := rows[|rows| - 1]]
  }

  /** `int(row["rrdId"])` succeeds for every saved row. */
  predicate Restarts(rows: seq<Row>) {
    forall row <- rows :: row.key.RrdId?
  }

  /** One row of a page: repeated rows are skipped, anything suspicious stops the run. */
  function AbsorbRow(rows: seq<Row>, cursor: int, item: Row): Result<seq<Row>> {
    var id := RowId(item);
    if id <= 0 then Err(InvalidRowId)
    else if id in Seen(rows) then if Seen(rows)[id] != item then Err(ConflictingRows) else Ok(rows)
    else if id <= cursor then Err(CursorStalled)
    else if item.isTrade && !item.revenueFinite then Err(InvalidTradeRevenue)
    else if item.isTrade && !item.priceFinite then Err(InvalidSellerPrice)
    else Ok(rows + [item])
  }

  function AbsorbRows(rows: seq<Row>, cursor: int, page: seq<Row>): Result<seq<Row>> {
    if page == [] then Ok(rows) else
      match AbsorbRows(rows, cursor, page[..|page| - 1])
      case Err(e) => Err(e)
      case Ok(before) => AbsorbRow(before, cursor, page[|page| - 1])
  }

  /** A whole page: the cursor moves to its last row, and must move forward. */
  function AbsorbPage(s: Progress, page: seq<Row>): Result<Progress>
    requires page != []
  {
    match AbsorbRows(s.rows, s.cursor, page)
    case Err(e) => Err(e)
    case Ok(rows) =>
      var last := RowId(page[|page| - 1]);
      if last <= s.cursor then Err(CursorStalled) else Ok(Progress(rows, last, s.pages + 1))
  }

  /** The collector of the program, with the dict and the counters it updates in place. */
  class Collector {
    var rows: seq<Row>
    var seen: map<int, Row>
    var cursor: int
    var pages: nat
    var duplicates: nat

    ghost predicate Valid()
      reads this
    {
      seen == Seen(rows)
    }

    ghost function Saved(): Progress
      reads this
    {
      Progress(rows, cursor, pages)
    }

    constructor ()
      ensures Valid() && Saved() == NOTHING && duplicates == 0
    {
      rows, seen, cursor, pages, duplicates := [], map[], 0, 0, 0;
    }

    /** Take over a checkpoint. The index is rebuilt from "rrdId" alone, which a row that was accepted may lack. */
    method Resume(checkpoint: Progress) returns (failure: Option<Failure>)
      modifies this
      ensures failure.None? <==> Restarts(checkpoint.rows)
      ensures failure.None? ==> Valid() && Saved() == checkpoint && duplicates == old(duplicates)
    {
      rows := checkpoint.rows;
      var index: map<int, Row> := map[];
      for i := 0 to |rows|
        invariant rows == checkpoint.rows && duplicates == old(duplicates)
        invariant index == Seen(rows[..i]) && Restarts(rows[..i])
      {
        if rows[i].key != RrdId {
          return Some(IdUnreadable);
        }
        assert rows[..i + 1][..i] == rows[..i];
        index := index[RowId(rows[i]) := rows[i]];
      }
      assert rows[..|rows|] == rows;
      seen, cursor, pages := index, checkpoint.cursor, checkpoint.pages;
      return None;
    }

    /** The body of the inner loop. */
    method AbsorbItem(item: Row) returns (failure: Option<Failure>)
      requires Valid()
      modifies this
      ensures cursor == old(cursor) && pages == old(pages)
      ensures match AbsorbRow(old(rows), cursor, item)
        case Ok(after) => failure == None && Valid() && rows == after
          && duplicates == old(duplicates) + if rows == old(rows) then 1 else 0
        case Err(e) => failure == Some(e)
    {
      var id := RowId(item);
      if id <= 0 {
        return Some(InvalidRowId);
      }
      if id in seen {
        if seen[id] != item {
          return Some(ConflictingRows);
        }
        duplicates := duplicates + 1;
        return None;
      }
      if id <= cursor {
        return Some(CursorStalled);
      }
      if item.isTrade {
        if !item.revenueFinite {
          return Some(InvalidTradeRevenue);
        }
        if !item.priceFinite {
          return Some(InvalidSellerPrice);
        }
      }
      seen := seen[id := item];
      assert (rows + [item])[..|rows|] == rows;
      rows := rows + [item];
      return None;
    }

    /** One page of the outer loop. A failure is an exception: the state is then abandoned. */
    method AbsorbPageInPlace(page: seq<Row>) returns (failure: Option<Failure>)
      requires Valid() && page != []
      modifies this
      ensures match AbsorbPage(old(Saved()), page)
        case Ok(s) => failure == None && Valid() && Saved() == s
        case Err(e) => failure == Some(e)
    {
      ghost var start := rows;
      for i := 0 to |page|
        invariant Valid() && cursor == old(cursor) && pages == old(pages)
        invariant AbsorbRows(start, cursor, page[..i]) == Ok(rows)
      {
        AbsorbOneMore(start, cursor, page, i);
        FailureStops(start, cursor, page, i + 1);
        failure := AbsorbItem(page[i]);
        if failure.Some? {
          return;
        }
      }
      assert page[..|page|] == page;
      var last := RowId(page[|page| - 1]);
      if last <= cursor {
        return Some(CursorStalled);
      }
      pages := pages + 1;
      cursor := last;
      return None;
    }
  }

  lemma AbsorbOneMore(rows: seq<Row>, cursor: int, page: seq<Row>, i: nat)
    requires i < |page| && AbsorbRows(rows, cursor, page[..i]).Ok?
    ensures AbsorbRows(rows, cursor, page[..i + 1]) ==
      AbsorbRow(AbsorbRows(rows, cursor, page[..i]).value, cursor, page[i])
  {
    assert page[..i + 1][..i] == page[..i];
  }

  /** The first failure of a page is the failure of the page. */
  lemma {:induction false} FailureStops(rows: seq<Row>, cursor: int, page: seq<Row>, n: nat)
    requires n <= |page|
    ensures AbsorbRows(rows, cursor, page[..n]).Err? ==>
      AbsorbRows(rows, cursor, page) == AbsorbRows(rows, cursor, page[..n])
  {
    if n < |page| {
      var front := page[..|page| - 1];
      FailureStops(rows, cursor, front, n);
      assert front[..n] == page[..n];
    } else {
      assert page[..n] == page;
    }
  }

  // ---- Any server ----

  /** The rows of a log, each id at its first occurrence. */
  function FirstOccurrences(log: seq<Row>): seq<Row> {
    if log == [] then [] else
      var before, item := FirstOccurrences(log[..|log| - 1]), log[|log| - 1];
      if RowId(item) in Seen(before) then before else before + [item]
  }

  /** Ids are positive and distinct, and the revenue and price of every trade are finite. */
  ghost predicate CleanRows(rows: seq<Row>) {
    && (forall i :: 0 <= i < |rows| ==> 0 < RowId(rows[i]))
    && (forall i, j :: 0 <= i < j < |rows| ==> RowId(rows[i]) != RowId(rows[j]))
    && (forall i :: 0 <= i < |rows| && rows[i].isTrade ==> rows[i].revenueFinite && rows[i].priceFinite)
  }

  lemma {:induction false} SeenRows(rows: seq<Row>)
    ensures forall id :: id in Seen(rows) ==> Seen(rows)[id] in rows && RowId(Seen(rows)[id]) == id
    ensures forall row :: row in rows ==> RowId(row) in Seen(rows)
  {
    if rows != [] {
      var front, last := rows[..|rows| - 1], rows[|rows| - 1];
      assert rows == front + [last];
      SeenRows(front);
    }
  }

  /** `rows` is what a run should have after the server sent `log`: nothing lost, nothing merged, nothing twice. */
  ghost predicate Faithful(rows: seq<Row>, log: seq<Row>) {
    && CleanRows(rows)
    && rows == FirstOccurrences(log)
    && forall item :: item in log <==> item in rows
  }

  lemma AbsorbRowFaithful(rows: seq<Row>, cursor: int, item: Row, log: seq<Row>, longer: seq<Row>)
    requires Faithful(rows, log) && AbsorbRow(rows, cursor, item).Ok? && longer == log + [item]
    ensures Faithful(AbsorbRow(rows, cursor, item).value, longer)
  {
    assert longer[..|log|] == log;
    AbsorbedMembers(rows, cursor, item);
  }

  lemma AbsorbedMembers(rows: seq<Row>, cursor: int, item: Row)
    requires CleanRows(rows) && AbsorbRow(rows, cursor, item).Ok?
    ensures var after := AbsorbRow(rows, cursor, item).value;
      && CleanRows(after)
      && (after == if RowId(item) in Seen(rows) then rows else rows + [item])
      && forall row :: row in after <==> row in rows || row == item
  {
    SeenRows(rows);
    if RowId(item) !in Seen(rows) {
      forall i | 0 <= i < |rows| ensures RowId(rows[i]) != RowId(item) {
        assert rows[i] in rows;
      }
    }
  }

  /** A text is an id exactly when it is the decimal form of a positive number. */
  lemma TextIdExactly(row: Row, s: string, n: nat)
    requires row.rawId == Text(s) && n > 0
    ensures RowId(row) == n <==> s == Decimal(n)
  {
    NumberOfDecimal(n);
    if s != [] && AllDigits(s) && s[0] != '0' {
      DecimalOfNumber(s);
    }
  }

  ghost predicate SharesId(rows: seq<Row>, item: Row) {
    exists row :: row in rows && RowId(row) == RowId(item)
  }

  /**
   * What becomes of one row, among rows that are clean: it is refused for its id, for other content under a known id,
   * for an id that is new but not above the cursor, for a trade without finite revenue or price, in this order;
   * a row that is already there changes nothing, any other is appended.
   */
  lemma AbsorbsExactly(rows: seq<Row>, cursor: int, item: Row)
    requires CleanRows(rows)
    ensures AbsorbRow(rows, cursor, item) ==
      if RowId(item) <= 0 then Err(InvalidRowId)
      else if item in rows then Ok(rows)
      else if SharesId(rows, item) then Err(ConflictingRows)
      else if RowId(item) <= cursor then Err(CursorStalled)
      else if item.isTrade && !item.revenueFinite then Err(InvalidTradeRevenue)
      else if item.isTrade && !item.priceFinite then Err(InvalidSellerPrice)
      else Ok(rows + [item])
  {
    SeenRows(rows);
    if RowId(item) in Seen(rows) {
      var known := Seen(rows)[RowId(item)];
      assert known in rows && RowId(known) == RowId(item);
      if item in rows {
        assert known == item;
      }
    }
  }

  /** Every row that a page adds lies above the cursor the page was asked with. */
  lemma {:induction false} AddedAboveCursor(rows: seq<Row>, cursor: int, page: seq<Row>)
    requires AbsorbRows(rows, cursor, page).Ok?
    ensures forall row :: row in AbsorbRows(rows, cursor, page).value && row !in rows ==> RowId(row) > cursor
  {
    if page != [] {
      AbsorbedLast(rows, cursor, page);
      AddedAboveCursor(rows, cursor, page[..|page| - 1]);
    }
  }

  /** Whatever every accepted row keeps, an accepted page keeps. */
  lemma {:induction false} AbsorbRowsKeep(
    rows: seq<Row>, cursor: int, page: seq<Row>, n: nat, inv: (nat, seq<Row>) -> bool)
    requires n <= |page| && AbsorbRows(rows, cursor, page[..n]).Ok? && inv(0, rows)
    requires forall i: nat, r: seq<Row> :: i < n && inv(i, r) && AbsorbRow(r, cursor, page[i]).Ok? ==>
      inv(i + 1, AbsorbRow(r, cursor, page[i]).value)
    ensures inv(n, AbsorbRows(rows, cursor, page[..n]).value)
  {
    if n > 0 {
      AbsorbedLast(rows, cursor, page[..n]);
      assert page[..n][..n - 1] == page[..n - 1] && page[..n][n - 1] == page[n - 1];
      AbsorbRowsKeep(rows, cursor, page, n - 1, inv);
    }
  }

  /** After i rows of a page the rows are those of the log and of that part of the page. */
  ghost predicate FaithfulUpTo(log: seq<Row>, page: seq<Row>, i: nat, rows: seq<Row>) {
    i <= |page| && Faithful(rows, log + page[..i])
  }

  lemma FaithfulStep(log: seq<Row>, page: seq<Row>, i: nat, rows: seq<Row>, cursor: int)
    requires i < |page| && FaithfulUpTo(log, page, i, rows) && AbsorbRow(rows, cursor, page[i]).Ok?
    ensures FaithfulUpTo(log, page, i + 1, AbsorbRow(rows, cursor, page[i]).value)
  {
    assert log + page[..i + 1] == (log + page[..i]) + [page[i]];
    AbsorbRowFaithful(rows, cursor, page[i], log + page[..i], log + page[..i + 1]);
  }

  lemma AbsorbRowsFaithful(rows: seq<Row>, cursor: int, page: seq<Row>, log: seq<Row>)
    requires Faithful(rows, log) && AbsorbRows(rows, cursor, page).Ok?
    ensures Faithful(AbsorbRows(rows, cursor, page).value, log + page)
  {
    assert log + page[..0] == log && page[..|page|] == page;
    FaithfulPage(rows, cursor, page, log);
  }

  lemma FaithfulPage(rows: seq<Row>, cursor: int, page: seq<Row>, log: seq<Row>)
    requires FaithfulUpTo(log, page, 0, rows) && AbsorbRows(rows, cursor, page[..|page|]).Ok?
    ensures FaithfulUpTo(log, page, |page|, AbsorbRows(rows, cursor, page[..|page|]).value)
  {
    var inv := (i: nat, r: seq<Row>) => FaithfulUpTo(log, page, i, r);
    forall i: nat, r: seq<Row> | i < |page| && inv(i, r) && AbsorbRow(r, cursor, page[i]).Ok?
      ensures inv(i + 1, AbsorbRow(r, cursor, page[i]).value)
    {
      FaithfulStep(log, page, i, r, cursor);
    }
    AbsorbRowsKeep(rows, cursor, page, |page|, inv);
  }

  lemma AbsorbedLast(rows: seq<Row>, cursor: int, page: seq<Row>)
    requires page != [] && AbsorbRows(rows, cursor, page).Ok?
    ensures var before := AbsorbRows(rows, cursor, page[..|page| - 1]);
      before.Ok? && AbsorbRows(rows, cursor, page) == AbsorbRow(before.value, cursor, page[|page| - 1])
  {
  }

  // ---- A finite ledger served in ascending pages ----

  ghost predicate Ledger(ledger: seq<Row>) {
    && (forall i :: 0 <= i < |ledger| ==> 0 < RowId(ledger[i]))
    && (forall i, j :: 0 <= i < j < |ledger| ==> RowId(ledger[i]) < RowId(ledger[j]))
    && (forall i :: 0 <= i < |ledger| && ledger[i].isTrade ==> ledger[i].revenueFinite && ledger[i].priceFinite)
  }

  /** The cursor after the first k rows of the ledger. */
  function CursorAt(ledger: seq<Row>, k: nat): int
    requires k <= |ledger|
  {
    if k == 0 then 0 else RowId(ledger[k - 1])
  }

  /** The state of a run that has the first k rows of the ledger. */
  ghost predicate HasPrefix(s: Progress, ledger: seq<Row>, k: nat) {
    k <= |ledger| && s.rows == ledger[..k] && s.cursor == CursorAt(ledger, k)
  }

  /** The server answers with between 1 and limit rows, the next ones above the cursor; with none at the end. */
  ghost predicate Serves(ledger: seq<Row>, cursor: int, page: seq<Row>) {
    exists k: nat, n: nat :: ServesAt(ledger, cursor, page, k, n)
  }

  ghost predicate ServesAt(ledger: seq<Row>, cursor: int, page: seq<Row>, k: nat, n: nat) {
    k + n <= |ledger| && cursor == CursorAt(ledger, k) && page == ledger[k..k + n] && (n == 0 ==> k == |ledger|)
  }

  lemma CursorGrows(ledger: seq<Row>, j: nat, k: nat)
    requires Ledger(ledger) && j < k <= |ledger|
    ensures CursorAt(ledger, j) < CursorAt(ledger, k)
  {
  }

  lemma CursorAtInjective(ledger: seq<Row>, j: nat, k: nat)
    requires Ledger(ledger) && j <= |ledger| && k <= |ledger| && CursorAt(ledger, j) == CursorAt(ledger, k)
    ensures j == k
  {
    if j < k {
      CursorGrows(ledger, j, k);
    } else if k < j {
      CursorGrows(ledger, k, j);
    }
  }

  lemma {:induction false} NotSeen(rows: seq<Row>, id: int)
    requires forall i :: 0 <= i < |rows| ==> RowId(rows[i]) != id
    ensures id !in Seen(rows)
  {
    if rows != [] {
      NotSeen(rows[..|rows| - 1], id);
    }
  }

  /** The next row of the ledger passes every check. */
  lemma AbsorbNext(ledger: seq<Row>, k: nat, m: nat)
    requires Ledger(ledger) && k <= m < |ledger|
    ensures AbsorbRow(ledger[..m], CursorAt(ledger, k), ledger[m]) == Ok(ledger[..m + 1])
  {
    var item := ledger[m];
    CursorGrows(ledger, k, m + 1);
    NotSeen(ledger[..m], RowId(item));
    assert ledger[..m + 1] == ledger[..m] + [item];
  }

  lemma AbsorbAppended(
    rows: seq<Row>, cursor: int, page: seq<Row>, front: seq<Row>, item: Row, before: seq<Row>, after: seq<Row>)
    requires page == front + [item]
    requires AbsorbRows(rows, cursor, front) == Ok(before) && AbsorbRow(before, cursor, item) == Ok(after)
    ensures AbsorbRows(rows, cursor, page) == Ok(after)
  {
    assert page[..|page| - 1] == front;
  }

  ghost predicate RowsAbsorbable(ledger: seq<Row>, cursor: int, k: nat, n: nat) {
    forall m :: k <= m < n && m < |ledger| ==> RowAbsorbable(ledger, cursor, m)
  }

  ghost predicate RowAbsorbable(ledger: seq<Row>, cursor: int, m: nat)
    requires m < |ledger|
  {
    AbsorbRow(ledger[..m], cursor, ledger[m]) == Ok(ledger[..m + 1])
  }

  lemma OneMoreRow(ledger: seq<Row>, k: nat, m: nat)
    requires k <= m < |ledger|
    ensures ledger[k..m + 1] == ledger[k..m] + [ledger[m]]
  {
  }

  lemma {:induction false} AbsorbInOrder(ledger: seq<Row>, cursor: int, k: nat, n: nat)
    requires k + n <= |ledger| && RowsAbsorbable(ledger, cursor, k, k + n)
    ensures AbsorbRows(ledger[..k], cursor, ledger[k..k + n]) == Ok(ledger[..k + n])
  {
    if n == 0 {
      assert ledger[k..k + n] == [];
    } else {
      var m := k + n - 1;
      AbsorbInOrder(ledger, cursor, k, n - 1);
      assert RowAbsorbable(ledger, cursor, m);
      OneMoreRow(ledger, k, m);
      AbsorbAppended(ledger[..k], cursor, ledger[k..m + 1], ledger[k..m], ledger[m], ledger[..m], ledger[..m + 1]);
    }
  }

  lemma AbsorbLedgerRows(ledger: seq<Row>, k: nat, n: nat)
    requires Ledger(ledger) && k + n <= |ledger|
    ensures AbsorbRows(ledger[..k], CursorAt(ledger, k), ledger[k..k + n]) == Ok(ledger[..k + n])
  {
    var cursor := CursorAt(ledger, k);
    assert RowsAbsorbable(ledger, cursor, k, k + n) by {
      forall m | k <= m < k + n ensures RowAbsorbable(ledger, cursor, m) {
        AbsorbNext(ledger, k, m);
      }
    }
    AbsorbInOrder(ledger, cursor, k, n);
  }

  lemma AbsorbLedgerPage(s: Progress, ledger: seq<Row>, k: nat, page: seq<Row>)
    requires Ledger(ledger) && HasPrefix(s, ledger, k) && Serves(ledger, s.cursor, page) && page != []
    ensures AbsorbPage(s, page).Ok?
    ensures k + |page| <= |ledger| && HasPrefix(AbsorbPage(s, page).value, ledger, k + |page|)
  {
    var n := ServedPage(ledger, k, page);
    AbsorbLedgerRows(ledger, k, n);
    CursorGrows(ledger, k, k + n);
    AbsorbedPage(s, page, ledger[..k + n]);
  }

  lemma ServedPage(ledger: seq<Row>, k: nat, page: seq<Row>) returns (n: nat)
    requires Ledger(ledger) && k <= |ledger| && Serves(ledger, CursorAt(ledger, k), page) && page != []
    ensures n == |page| && k + n <= |ledger| && page == ledger[k..k + n] && page[|page| - 1] == ledger[k + n - 1]
  {
    var j: nat;
    j, n :| ServesAt(ledger, CursorAt(ledger, k), page, j, n);
    CursorAtInjective(ledger, j, k);
  }

  lemma AbsorbedPage(s: Progress, page: seq<Row>, rows: seq<Row>)
    requires page != [] && AbsorbRows(s.rows, s.cursor, page) == Ok(rows) && RowId(page[|page| - 1]) > s.cursor
    ensures AbsorbPage(s, page) == Ok(Progress(rows, RowId(page[|page| - 1]), s.pages + 1))
  {
  }

  // ---- Runs with crashes ----

  /**
   * A page may be lost when the process dies after handling it and before saving. A start that cannot rebuild its
   * index raises and changes nothing; one whose checkpoint cannot be read takes it for missing.
   */
  datatype Event = Start(read: bool) | PageSaved(page: seq<Row>) | PageLost(page: seq<Row>) | Crash | Finish

  /** A progress, and every row the server sent for it since it was nothing. */
  datatype Held = Held(progress: Progress, sent: seq<Row>)

  /** The memory of the process, what storage holds, and the outcome of the last complete run. */
  datatype Machine = Machine(running: Option<Held>, checkpoint: Option<Held>, collected: Option<Held>)

  const FRESH := Held(NOTHING, [])

  const IDLE := Machine(None, None, None)

  function Stored(m: Machine): Held {
    if m.checkpoint.Some? then m.checkpoint.value else FRESH
  }

  function Saved(m: Machine): Progress {
    Stored(m).progress
  }

  ghost predicate Enabled(m: Machine, e: Event) {
    match e
    case Start(_) => m.running.None?
    case PageSaved(page) => m.running.Some? && page != [] && AbsorbPage(m.running.value.progress, page).Ok?
    case PageLost(page) => m.running.Some? && page != []
    case Crash => m.running.Some?
    case Finish => m.running.Some?
  }

  ghost function Step(m: Machine, e: Event): Machine
    requires Enabled(m, e)
  {
    match e
    case Start(read) =>
      if !read then m.(running := Some(FRESH))
      else if Restarts(Saved(m).rows) then m.(running := Some(Stored(m))) else m
    case PageSaved(page) =>
      var h := Held(AbsorbPage(m.running.value.progress, page).value, m.running.value.sent + page);
      m.(running := Some(h), checkpoint := Some(h))
    case PageLost(_) => m.(running := None)
    case Crash => m.(running := None)
    case Finish => Machine(None, None, m.running)
  }

  /** `run` is possible from the idle state and ends in `m`. */
  ghost predicate Reaches(run: seq<Event>, m: Machine) {
    if run == [] then m == IDLE else
      var front, e := run[..|run| - 1], run[|run| - 1];
      exists before :: Reaches(front, before) && Enabled(before, e) && Step(before, e) == m
  }

  /** Against any server, memory, storage and a finished run hold exactly what was sent for them. */
  ghost predicate Sound(m: Machine) {
    SoundPart(m.running) && SoundPart(m.checkpoint) && SoundPart(m.collected)
  }

  ghost predicate SoundPart(h: Option<Held>) {
    h.Some? ==> Faithful(h.value.progress.rows, h.value.sent)
  }

  lemma StepSound(m: Machine, e: Event)
    requires Sound(m) && Enabled(m, e)
    ensures Sound(Step(m, e))
    ensures e.PageSaved? ==>
      var before, after := m.running.value.progress, Saved(Step(m, e));
      && before.cursor < after.cursor == RowId(e.page[|e.page| - 1]) && after.pages == before.pages + 1
      && forall row :: row in after.rows && row !in before.rows ==> RowId(row) > before.cursor
  {
    if e.PageSaved? {
      var s := m.running.value.progress;
      AbsorbRowsFaithful(s.rows, s.cursor, e.page, m.running.value.sent);
      AddedAboveCursor(s.rows, s.cursor, e.page);
    }
  }

  /**
   * Any run against any server: ids are positive and distinct, every row the server sent in a saved page, since the
   * run began from nothing, is kept verbatim and once, so no two different rows were ever merged, and a finished run
   * returns exactly that.
   */
  lemma {:induction false} AnyServer(run: seq<Event>, m: Machine)
    requires Reaches(run, m)
    ensures Sound(m)
  {
    if run != [] {
      var front, e := run[..|run| - 1], run[|run| - 1];
      var before :| Reaches(front, before) && Enabled(before, e) && Step(before, e) == m;
      AnyServer(front, before);
      StepSound(before, e);
    }
  }

  /** The server behind a run answers every request from one ledger; it is asked again only while more is left. */
  ghost predicate HonestStep(ledger: seq<Row>, m: Machine, e: Event) {
    match e
    case PageSaved(page) => m.running.Some? && page != [] && Serves(ledger, m.running.value.progress.cursor, page)
    case PageLost(page) => m.running.Some? && page != [] && Serves(ledger, m.running.value.progress.cursor, page)
    case Finish => m.running.Some? && Serves(ledger, m.running.value.progress.cursor, [])
    case Start(_) => m.running.None?
    case Crash => m.running.Some?
  }

  /** `run` leads from `start` to `m` against the ledger; validation is not assumed to succeed. */
  ghost predicate Leads(ledger: seq<Row>, start: Machine, run: seq<Event>, m: Machine) {
    if run == [] then m == start else
      var front, e := run[..|run| - 1], run[|run| - 1];
      exists before :: Leads(ledger, start, front, before) && HonestStep(ledger, before, e)
        && (Enabled(before, e) ==> m == Step(before, e))
  }

  ghost predicate ReachesHonestly(ledger: seq<Row>, run: seq<Event>, m: Machine) {
    Leads(ledger, IDLE, run, m)
  }

  lemma LeadsOn(ledger: seq<Row>, start: Machine, run: seq<Event>, m: Machine, e: Event)
    requires Leads(ledger, start, run, m) && HonestStep(ledger, m, e) && Enabled(m, e)
    ensures Leads(ledger, start, run + [e], Step(m, e))
  {
    assert (run + [e])[..|run|] == run;
  }

  /** Storage has the first k rows of the ledger, a running process the first r, a finished run all of them. */
  ghost predicate Resumable(ledger: seq<Row>, m: Machine, k: nat, r: nat) {
    && HasPrefix(Saved(m), ledger, k)
    && (m.running.Some? ==> HasPrefix(m.running.value.progress, ledger, r))
    && (m.collected.Some? ==> m.collected.value.progress.rows == ledger)
  }

  lemma HonestStepKeeps(ledger: seq<Row>, m: Machine, e: Event, k: nat, r: nat) returns (k': nat, r': nat)
    requires Ledger(ledger) && Resumable(ledger, m, k, r) && HonestStep(ledger, m, e)
    ensures Enabled(m, e) && Resumable(ledger, Step(m, e), k', r')
    ensures k' == if e.PageSaved? then r + |e.page| else if e.Finish? then 0 else k
    ensures r' == if e.PageSaved? then r + |e.page| else if e == Start(true) then k else 0
    ensures e.Finish? ==> r == |ledger| && Step(m, e).collected.value.progress.rows == ledger
  {
    k', r' := k, 0;
    match e
    case Start(read) =>
      r' := if read then k else 0;
    case PageSaved(page) =>
      AbsorbLedgerPage(m.running.value.progress, ledger, r, page);
      k', r' := r + |page|, r + |page|;
    case Finish =>
      var j: nat, n: nat :| ServesAt(ledger, m.running.value.progress.cursor, [], j, n);
      assert |ledger[j..j + n]| == n;
      CursorAtInjective(ledger, j, r);
      assert ledger[..|ledger|] == ledger;
      k' := 0;
    case _ =>
  }

  function SavedPages(run: seq<Event>): nat {
    if run == [] then 0 else SavedPages(run[..|run| - 1]) + if run[|run| - 1].PageSaved? then 1 else 0
  }

  /** How often the collection has begun anew: a run has finished, or a start could not read its checkpoint. */
  function Renewals(run: seq<Event>): nat {
    if run == [] then 0 else
      var e := run[|run| - 1];
      Renewals(run[..|run| - 1]) + if e.Finish? || e == Start(false) then 1 else 0
  }

  lemma OneMoreRenewal(n: nat, size: nat)
    ensures (n + 1) * size == n * size + size
  {
  }

  /**
   * A finite ledger, served in ascending pages of any sizes, with the process killed at any time and checkpoints that
   * cannot always be read: no page is ever refused, storage always holds a prefix of the ledger, whoever finishes has
   * collected the ledger, every row once and in order, and until the collection begins anew no more pages can be saved
   * than there are rows in storage. Whether a killed run can be started again is another question, answered below.
   */
  lemma {:induction false} CrashesLoseNothing(ledger: seq<Row>, run: seq<Event>, m: Machine) returns (k: nat, r: nat)
    requires Ledger(ledger) && ReachesHonestly(ledger, run, m)
    ensures Resumable(ledger, m, k, r)
    ensures SavedPages(run) <= Renewals(run) * |ledger| + k
    ensures m.running.Some? ==> SavedPages(run) <= Renewals(run) * |ledger| + r
  {
    if run == [] {
      k, r := 0, 0;
    } else {
      var front, e := run[..|run| - 1], run[|run| - 1];
      var before :| ReachesHonestly(ledger, front, before) && HonestStep(ledger, before, e)
        && (Enabled(before, e) ==> m == Step(before, e));
      var j, q := CrashesLoseNothing(ledger, front, before);
      k, r := HonestStepKeeps(ledger, before, e, j, q);
      OneMoreRenewal(Renewals(front), |ledger|);
    }
  }

  // ---- Starting again ----

  predicate AllRead(run: seq<Event>) {
    Start(false) !in run
  }

  /** A start that raises will raise again: nothing else can happen while checkpoints can be read. */
  lemma {:induction false} StuckWhileRead(ledger: seq<Row>, start: Machine, run: seq<Event>, m: Machine)
    requires start.running.None? && !Restarts(Saved(start).rows)
    requires Leads(ledger, start, run, m) && AllRead(run)
    ensures m == start
  {
    if run != [] {
      var front, e := run[..|run| - 1], run[|run| - 1];
      var before :| Leads(ledger, start, front, before) && HonestStep(ledger, before, e)
        && (Enabled(before, e) ==> m == Step(before, e));
      assert e in run && forall f :: f in front ==> f in run;
      StuckWhileRead(ledger, start, front, before);
    }
  }

  /** Nothing changes before the first start that cannot read its checkpoint, and that one begins from nothing. */
  lemma StuckExactlyUntilUnread(ledger: seq<Row>, start: Machine, run: seq<Event>, e: Event, m: Machine)
    requires start.running.None? && !Restarts(Saved(start).rows)
    requires AllRead(run) && Leads(ledger, start, run + [e], m)
    ensures m != start <==> e == Start(false)
    ensures m != start ==> m == start.(running := Some(FRESH))
  {
    var before :| Leads(ledger, start, (run + [e])[..|run|], before) && HonestStep(ledger, before, e)
      && (Enabled(before, e) ==> m == Step(before, e));
    assert (run + [e])[..|run|] == run;
    StuckWhileRead(ledger, start, run, before);
  }

  /** A start from nothing, and a first page of j rows. */
  lemma FirstPage(ledger: seq<Row>, start: Machine, run: seq<Event>, m: Machine, read: bool, j: nat)
    returns (after: Machine)
    requires Ledger(ledger) && Leads(ledger, start, run, m) && m.running.None? && 0 < j <= |ledger|
    requires read ==> m.checkpoint.None?
    ensures Leads(ledger, start, run + [Start(read)] + [PageSaved(ledger[..j])], after)
    ensures after.running.Some? && after.running.value == Stored(after) && after.collected == m.collected
    ensures HasPrefix(Saved(after), ledger, j)
  {
    var started, page := m.(running := Some(FRESH)), ledger[..j];
    LeadsOn(ledger, start, run, m, Start(read));
    assert page == ledger[0..j] && ServesAt(ledger, 0, page, 0, j) && HasPrefix(NOTHING, ledger, 0);
    AbsorbLedgerPage(NOTHING, ledger, 0, page);
    LeadsOn(ledger, start, run + [Start(read)], started, PageSaved(page));
    after := Step(started, PageSaved(page));
  }

  /**
   * After a start that cannot read its checkpoint, and a first page of j rows, storage holds those rows and no more,
   * whatever it held before.
   */
  lemma UnreadStartOverwrites(ledger: seq<Row>, run: seq<Event>, m: Machine, j: nat) returns (after: Machine)
    requires Ledger(ledger) && ReachesHonestly(ledger, run, m) && m.running.None? && 0 < j <= |ledger|
    ensures ReachesHonestly(ledger, run + [Start(false)] + [PageSaved(ledger[..j])], after)
    ensures HasPrefix(Saved(after), ledger, j)
  {
    after := FirstPage(ledger, IDLE, run, m, false, j);
  }

  /** So a collection that is stuck can be completed after all. */
  lemma UnreadStartCollects(ledger: seq<Row>, start: Machine) returns (m: Machine)
    requires Ledger(ledger) && ledger != [] && start.running.None?
    ensures Leads(ledger, start, [Start(false), PageSaved(ledger), Finish], m)
    ensures m.collected.Some? && m.collected.value.progress.rows == ledger
  {
    var saved := FirstPage(ledger, start, [], start, false, |ledger|);
    assert ledger[..|ledger|] == ledger;
    assert [] + [Start(false)] + [PageSaved(ledger)] == [Start(false), PageSaved(ledger)];
    assert ServesAt(ledger, Saved(saved).cursor, [], |ledger|, 0);
    LeadsOn(ledger, start, [Start(false), PageSaved(ledger)], saved, Finish);
    assert [Start(false), PageSaved(ledger)] + [Finish] == [Start(false), PageSaved(ledger), Finish];
    m := Step(saved, Finish);
  }

  /** A page with the whole ledger, and a crash: storage then holds the whole ledger. */
  lemma WholeLedgerSaved(ledger: seq<Row>) returns (run: seq<Event>, m: Machine)
    requires Ledger(ledger) && ledger != []
    ensures ReachesHonestly(ledger, run, m) && AllRead(run)
    ensures m.running.None? && m.collected.None? && Saved(m).rows == ledger
  {
    var saved := FirstPage(ledger, IDLE, [], IDLE, true, |ledger|);
    run := [] + [Start(true)] + [PageSaved(ledger[..|ledger|])];
    assert ledger[..|ledger|] == ledger;
    LeadsOn(ledger, IDLE, run, saved, Crash);
    run, m := run + [Crash], Step(saved, Crash);
  }

  ghost predicate AlwaysRestarts(ledger: seq<Row>) {
    forall run, m :: ReachesHonestly(ledger, run, m) && m.running.None? ==> Restarts(Saved(m).rows)
  }

  /**
   * Every killed run of a ledger can be started again from its checkpoint exactly when every row of the ledger has its
   * id under "rrdId". Rows with "rrd_id" are accepted and saved all the same.
   */
  lemma RestartsExactlyWithRrdId(ledger: seq<Row>)
    requires Ledger(ledger)
    ensures AlwaysRestarts(ledger) <==> Restarts(ledger)
  {
    if Restarts(ledger) {
      forall run, m | ReachesHonestly(ledger, run, m) && m.running.None? ensures Restarts(Saved(m).rows) {
        var k, r := CrashesLoseNothing(ledger, run, m);
        assert forall row <- ledger[..k] :: row in ledger;
      }
    } else {
      var run, m := WholeLedgerSaved(ledger);
      assert !Restarts(Saved(m).rows);
    }
  }

  /**
   * One row with "rrd_id" is enough: killed after its page, the collection does not go on while its checkpoint can be
   * read. A start that cannot read it collects the row.
   */
  lemma OneRowStuck(row: Row, later: seq<Event>, m: Machine)
    returns (run: seq<Event>, killed: Machine, freed: Machine)
    requires row.key.SnakeRrdId? && RowId(row) > 0 && (row.isTrade ==> row.revenueFinite && row.priceFinite)
    ensures ReachesHonestly([row], run, killed) && AllRead(run)
    ensures killed.collected.None? && Saved(killed).rows == [row]
    ensures Leads([row], killed, later, m) && AllRead(later) ==> m == killed
    ensures Leads([row], killed, [Start(false), PageSaved([row]), Finish], freed)
    ensures freed.collected.Some? && freed.collected.value.progress.rows == [row]
  {
    run, killed := WholeLedgerSaved([row]);
    freed := UnreadStartCollects([row], killed);
    if Leads([row], killed, later, m) && AllRead(later) {
      assert !Restarts(Saved(killed).rows);
      StuckWhileRead([row], killed, later, m);
    }
  }
}
