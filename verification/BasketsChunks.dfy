/**
 * `fetch_baskets_daily_detail`: a report is collected day by day and chunk by chunk. A ledger of chunks records
 * what is done and what failed; feeding a result back in resumes the collection.
 */
module BasketsChunks {
  import opened Dicts

  /** Products of one day by article. */
  type Rows = map<int, string>

  datatype Chunk = Chunk(day: int, index: nat)

  datatype Status = Done | Failed

  /** Ledger entries of other kinds are carried along untouched. */
  datatype Entry = Daily(day: int, index: nat, status: Status) | Foreign(note: string)

  /** The pages the server has for a chunk, and for each chunk the number of pages after which a request fails. */
  type Server = Chunk -> seq<Rows>

  type Faults = Chunk -> Option<nat>

  /** What a run is given: results of earlier runs, and the ledger if one exists. */
  datatype Input = Input(daily: map<int, Rows>, chunks: Option<seq<Entry>>)

  /** The variables of a run. `requested` is the history of requests. */
  datatype Run = Run(
    daily: map<int, Rows>, chunks: seq<Entry>, done: set<Chunk>,
    completed: nat, requested: seq<Chunk>, failed: seq<Chunk>)

  function EntriesOf(input: Input): seq<Entry> {
    if input.chunks.None? then [] else input.chunks.value
  }

  function DoneIn(chunks: seq<Entry>): set<Chunk> {
    set e | e in chunks && e.Daily? && e.status.Done? :: Chunk(e.day, e.index)
  }

  predicate HasEntryFor(chunks: seq<Entry>, day: int) {
    exists e :: e in chunks && e.Daily? && e.day == day
  }

  /** A day collected before ledgers existed is taken as it is. */
  predicate Legacy(input: Input, day: int) {
    day in input.daily && (input.chunks.None? || !HasEntryFor(input.chunks.value, day))
  }

  function Begin(input: Input): Run {
    Run(input.daily, EntriesOf(input), DoneIn(EntriesOf(input)), 0, [], [])
  }

  predicate Same(e: Entry, day: int, index: nat) {
    e.Daily? && e.day == day && e.index == index
  }

  function Without(chunks: seq<Entry>, day: int, index: nat): seq<Entry> {
    if chunks == [] then [] else
      var rest, e := Without(chunks[..|chunks| - 1], day, index), chunks[|chunks| - 1];
      if Same(e, day, index) then rest else rest + [e]
  }

  function MergeAll(rows: Rows, pages: seq<Rows>): Rows {
    if pages == [] then rows else MergeAll(rows, pages[..|pages| - 1]) + pages[|pages| - 1]
  }

  /** The pages that arrive before a request fails, or all of them. */
  function Arrived(pages: seq<Rows>, fault: Option<nat>): seq<Rows> {
    if fault.Some? && fault.value < |pages| then pages[..fault.value] else pages
  }

  /** A day in the making: its rows so far and the run. */
  datatype DayRun = DayRun(rows: Rows, run: Run)

  function RunChunk(server: Server, faults: Faults, s: DayRun, day: int, index: nat): DayRun {
    var chunk, run := Chunk(day, index), s.run;
    if chunk in run.done then s else
      var fault := faults(chunk);
      DayRun(
        MergeAll(s.rows, Arrived(server(chunk), fault)),
        run.(
          chunks := Without(run.chunks, day, index) + [Daily(day, index, if fault.None? then Done else Failed)],
          done := if fault.None? then run.done + {chunk} else run.done,
          completed := run.completed + 1,
          requested := run.requested + [chunk],
          failed := if fault.None? then run.failed else run.failed + [chunk]))
  }

  function RunChunks(server: Server, faults: Faults, s: DayRun, day: int, n: nat): DayRun {
    if n == 0 then s else RunChunk(server, faults, RunChunks(server, faults, s, day, n - 1), day, n - 1)
  }

  predicate AllDone(done: set<Chunk>, day: int, batches: nat) {
    forall i: nat :: i < batches ==> Chunk(day, i) in done
  }

  /** `bool(done_chunks) and all(...)` */
  predicate DayDone(done: set<Chunk>, day: int, batches: nat) {
    done != {} && AllDone(done, day, batches)
  }

  function RowsOf(daily: map<int, Rows>, day: int): Rows {
    if day in daily then daily[day] else map[]
  }

  function RunDay(server: Server, faults: Faults, input: Input, run: Run, day: int, batches: nat): Run {
    if Legacy(input, day) || DayDone(run.done, day, batches) then run else
      var s := RunChunks(server, faults, DayRun(RowsOf(run.daily, day), run), day, batches);
      s.run.(daily := s.run.daily[day := s.rows])
  }

  /** A run over `days`, each of `batches` chunks. */
  function RunDays(server: Server, faults: Faults, input: Input, days: seq<int>, batches: nat): Run {
    if days == [] then Begin(input) else
      RunDay(server, faults, input, RunDays(server, faults, input, days[..|days| - 1], batches),
        days[|days| - 1], batches)
  }

  // ---- What is requested ----

  /** The chunks of a day that are not done, in order. */
  function Missing(done: set<Chunk>, day: int, n: nat): seq<Chunk> {
    if n == 0 then [] else
      Missing(done, day, n - 1) + if Chunk(day, n - 1) in done then [] else [Chunk(day, n - 1)]
  }

  /** The requests a run has to make; their number is `requestsTotal`. */
  function Plan(input: Input, days: seq<int>, batches: nat): seq<Chunk> {
    if days == [] then [] else
      var day := days[|days| - 1];
      Plan(input, days[..|days| - 1], batches) +
        if Legacy(input, day) then [] else Missing(DoneIn(EntriesOf(input)), day, batches)
  }

  function FailedOf(requests: seq<Chunk>, faults: Faults): seq<Chunk> {
    if requests == [] then [] else
      var c := requests[|requests| - 1];
      FailedOf(requests[..|requests| - 1], faults) + if faults(c).Some? then [c] else []
  }

  lemma {:induction false} FailedOfConcat(a: seq<Chunk>, b: seq<Chunk>, faults: Faults)
    ensures FailedOf(a + b, faults) == FailedOf(a, faults) + FailedOf(b, faults)
  {
    if b == [] {
      assert a + b == a;
    } else {
      FailedOfConcat(a, b[..|b| - 1], faults);
      assert (a + b)[..|a + b| - 1] == a + b[..|b| - 1];
    }
  }

  lemma {:induction false} WithoutMembers(chunks: seq<Entry>, day: int, index: nat)
    ensures forall e :: e in Without(chunks, day, index) <==> e in chunks && !Same(e, day, index)
  {
    if chunks != [] {
      var front, last := chunks[..|chunks| - 1], chunks[|chunks| - 1];
      assert chunks == front + [last];
      WithoutMembers(front, day, index);
    }
  }

  /** The in-memory set of done chunks is always what the ledger says. */
  ghost predicate InStep(run: Run) {
    run.done == DoneIn(run.chunks)
  }

  lemma RunChunkInStep(server: Server, faults: Faults, s: DayRun, day: int, index: nat)
    requires InStep(s.run)
    ensures var r := RunChunk(server, faults, s, day, index).run;
      && InStep(r) && HasEntryFor(r.chunks, day)
      && forall e :: e in r.chunks && !Same(e, day, index) <==> e in s.run.chunks && !Same(e, day, index)
  {
    var run, after, chunk := s.run, RunChunk(server, faults, s, day, index).run, Chunk(day, index);
    WithoutMembers(run.chunks, day, index);
    if chunk in run.done {
      var e :| e in run.chunks && e.Daily? && e.status.Done? && Chunk(e.day, e.index) == chunk;
    } else {
      var entry := after.chunks[|after.chunks| - 1];
      assert entry in after.chunks && Same(entry, day, index);
      forall c ensures c in after.done <==> c in DoneIn(after.chunks) {
        if c in run.done {
          var e :| e in run.chunks && e.Daily? && e.status.Done? && Chunk(e.day, e.index) == c;
          assert e in after.chunks;
        }
      }
    }
  }

  lemma ChunkInStep(server: Server, faults: Faults, s: DayRun, day: int, index: nat)
    requires InStep(s.run)
    ensures InStep(RunChunk(server, faults, s, day, index).run)
    ensures HasEntryFor(RunChunk(server, faults, s, day, index).run.chunks, day)
  {
    RunChunkInStep(server, faults, s, day, index);
  }

  lemma FailedOfOne(m: seq<Chunk>, c: Chunk, faults: Faults)
    ensures FailedOf(m + [c], faults) == FailedOf(m, faults) + if faults(c).Some? then [c] else []
  {
    assert (m + [c])[..|m|] == m;
  }

  /** A property of the loop that its step for chunk i keeps. */
  ghost predicate KeptBy(server: Server, faults: Faults, day: int, i: nat, inv: (nat, DayRun) -> bool) {
    forall t: DayRun :: inv(i, t) ==> inv(i + 1, RunChunk(server, faults, t, day, i))
  }

  /** Whatever every chunk keeps, the loop over a day's chunks keeps. */
  lemma {:induction false} RunChunksKeep(
    server: Server, faults: Faults, s: DayRun, day: int, n: nat, inv: (nat, DayRun) -> bool)
    requires inv(0, s) && forall i: nat :: i < n ==> KeptBy(server, faults, day, i, inv)
    ensures inv(n, RunChunks(server, faults, s, day, n))
  {
    if n > 0 {
      RunChunksKeep(server, faults, s, day, n - 1, inv);
      assert KeptBy(server, faults, day, n - 1, inv);
    }
  }

  lemma RunChunksInStep(server: Server, faults: Faults, s: DayRun, day: int, n: nat)
    requires InStep(s.run)
    ensures InStep(RunChunks(server, faults, s, day, n).run)
    ensures n > 0 ==> HasEntryFor(RunChunks(server, faults, s, day, n).run.chunks, day)
  {
    var inv := (i: nat, t: DayRun) => InStep(t.run) && (i > 0 ==> HasEntryFor(t.run.chunks, day));
    forall i: nat | i < n ensures KeptBy(server, faults, day, i, inv) {
      forall t: DayRun | inv(i, t) ensures inv(i + 1, RunChunk(server, faults, t, day, i)) {
        ChunkInStep(server, faults, t, day, i);
      }
    }
    RunChunksKeep(server, faults, s, day, n, inv);
  }

  /** Which chunks a day's loop leaves done. */
  lemma {:induction false} RunChunksDone(server: Server, faults: Faults, s: DayRun, day: int, n: nat)
    ensures var r := RunChunks(server, faults, s, day, n).run;
      && r.daily == s.run.daily
      && forall c :: c in r.done <==> c in s.run.done || (c.day == day && c.index < n && faults(c).None?)
  {
    if n > 0 {
      RunChunksDone(server, faults, s, day, n - 1);
    }
  }

  lemma RunChunksOtherDays(server: Server, faults: Faults, s: DayRun, day: int, n: nat, d: int)
    requires InStep(s.run) && d != day
    ensures HasEntryFor(RunChunks(server, faults, s, day, n).run.chunks, d) <==> HasEntryFor(s.run.chunks, d)
  {
    var inv := (i: nat, t: DayRun) => InStep(t.run) && HasEntryFor(t.run.chunks, d) == HasEntryFor(s.run.chunks, d);
    forall i: nat | i < n ensures KeptBy(server, faults, day, i, inv) {
      forall t: DayRun | inv(i, t) ensures inv(i + 1, RunChunk(server, faults, t, day, i)) {
        ChunkInStep(server, faults, t, day, i);
        RunChunkOtherDays(server, faults, t, day, i, d);
      }
    }
    RunChunksKeep(server, faults, s, day, n, inv);
  }

  lemma RunChunkOtherDays(server: Server, faults: Faults, s: DayRun, day: int, index: nat, d: int)
    requires InStep(s.run) && d != day
    ensures HasEntryFor(RunChunk(server, faults, s, day, index).run.chunks, d) <==> HasEntryFor(s.run.chunks, d)
  {
    RunChunkInStep(server, faults, s, day, index);
    var before, after := s.run.chunks, RunChunk(server, faults, s, day, index).run.chunks;
    if HasEntryFor(after, d) {
      var e :| e in after && e.Daily? && e.day == d;
      assert !Same(e, day, index) && e in before;
    }
    if HasEntryFor(before, d) {
      var e :| e in before && e.Daily? && e.day == d;
      assert !Same(e, day, index) && e in after;
    }
  }

  /** A run whose requests and failures are those of `base` followed by `missing` and its failures. */
  ghost predicate Extends(base: Run, missing: seq<Chunk>, faults: Faults, r: Run) {
    && r.requested == base.requested + missing
    && r.completed == base.completed + |missing|
    && r.failed == base.failed + FailedOf(missing, faults)
  }

  lemma ExtendByOne(server: Server, faults: Faults, base: Run, missing: seq<Chunk>, s: DayRun, day: int, index: nat)
    requires Extends(base, missing, faults, s.run)
    ensures var more := if Chunk(day, index) in s.run.done then missing else missing + [Chunk(day, index)];
      Extends(base, more, faults, RunChunk(server, faults, s, day, index).run)
  {
    var c := Chunk(day, index);
    if c !in s.run.done {
      FailedOfOne(missing, c, faults);
      Regroup(base.requested, missing, [c]);
      if faults(c).Some? {
        Regroup(base.failed, FailedOf(missing, faults), [c]);
      } else {
        assert FailedOf(missing, faults) + [] == FailedOf(missing, faults);
      }
    }
  }

  /** The loop has requested what was missing of the first n chunks, and not looked at the others. */
  ghost predicate RequestedSoFar(s: DayRun, faults: Faults, day: int, n: nat, t: DayRun) {
    && Extends(s.run, Missing(s.run.done, day, n), faults, t.run)
    && forall i: nat :: i >= n ==> (Chunk(day, i) in t.run.done <==> Chunk(day, i) in s.run.done)
  }

  lemma RunChunkRequests(server: Server, faults: Faults, s: DayRun, day: int, n: nat, t: DayRun)
    requires RequestedSoFar(s, faults, day, n, t)
    ensures RequestedSoFar(s, faults, day, n + 1, RunChunk(server, faults, t, day, n))
  {
    var missing := Missing(s.run.done, day, n);
    ExtendByOne(server, faults, s.run, missing, t, day, n);
    assert Missing(s.run.done, day, n + 1) ==
      if Chunk(day, n) in t.run.done then missing else missing + [Chunk(day, n)];
  }

  /** What a day's loop requests: the chunks that were missing when the day began. */
  lemma RunChunksRequests(server: Server, faults: Faults, s: DayRun, day: int, n: nat)
    ensures RequestedSoFar(s, faults, day, n, RunChunks(server, faults, s, day, n))
  {
    var inv := (i: nat, t: DayRun) => RequestedSoFar(s, faults, day, i, t);
    forall i: nat | i < n ensures KeptBy(server, faults, day, i, inv) {
      forall t: DayRun | inv(i, t) ensures inv(i + 1, RunChunk(server, faults, t, day, i)) {
        RunChunkRequests(server, faults, s, day, i, t);
      }
    }
    RunChunksKeep(server, faults, s, day, n, inv);
  }

  lemma {:induction false} MissingSame(done: set<Chunk>, done': set<Chunk>, day: int, n: nat)
    requires forall i: nat :: i < n ==> (Chunk(day, i) in done <==> Chunk(day, i) in done')
    ensures Missing(done, day, n) == Missing(done', day, n)
  {
    if n > 0 {
      MissingSame(done, done', day, n - 1);
    }
  }

  lemma {:induction false} NothingMissing(done: set<Chunk>, day: int, n: nat)
    ensures Missing(done, day, n) == [] <==> forall i: nat :: i < n ==> Chunk(day, i) in done
  {
    if n > 0 {
      NothingMissing(done, day, n - 1);
    }
  }

  /** The ledger after a run over `days`: who is done, who has an entry. */
  ghost predicate LedgerAfter(input: Input, days: seq<int>, batches: nat, faults: Faults, r: Run) {
    && InStep(r)
    && (forall c :: c in r.done <==>
         (c in DoneIn(EntriesOf(input))
          || (c.day in days && !Legacy(input, c.day) && c.index < batches && faults(c).None?)))
    && (forall d :: HasEntryFor(r.chunks, d) <==>
         (HasEntryFor(EntriesOf(input), d) || (d in days && !Legacy(input, d))))
    && (forall d :: d in input.daily ==> d in r.daily)
  }

  lemma {:induction false} RunDaysEffect(
    server: Server, faults: Faults, input: Input, days: seq<int>, batches: nat)
    requires Distinct(days) && batches > 0
    ensures var r, plan := RunDays(server, faults, input, days, batches), Plan(input, days, batches);
      r.requested == plan && r.completed == |plan| && r.failed == FailedOf(plan, faults)
    ensures LedgerAfter(input, days, batches, faults, RunDays(server, faults, input, days, batches))
  {
    if days != [] {
      var front, day := days[..|days| - 1], days[|days| - 1];
      assert days == front + [day];
      RunDaysEffect(server, faults, input, front, batches);
      var run := RunDays(server, faults, input, front, batches);
      LastDayEffect(server, faults, input, front, day, batches, run);
      var missing := if Legacy(input, day) then [] else Missing(DoneIn(EntriesOf(input)), day, batches);
      FailedOfConcat(Plan(input, front, batches), missing, faults);
    }
  }

  lemma LastDayEffect(
    server: Server, faults: Faults, input: Input, front: seq<int>, day: int, batches: nat, run: Run)
    requires batches > 0 && day !in front && LedgerAfter(input, front, batches, faults, run)
    ensures var r, done0 := RunDay(server, faults, input, run, day, batches), DoneIn(EntriesOf(input));
      var missing := if Legacy(input, day) then [] else Missing(done0, day, batches);
      && r.requested == run.requested + missing && r.completed == run.completed + |missing|
      && r.failed == run.failed + FailedOf(missing, faults)
    ensures LedgerAfter(input, front + [day], batches, faults, RunDay(server, faults, input, run, day, batches))
  {
    var done0 := DoneIn(EntriesOf(input));
    assert forall d :: d in front + [day] <==> d in front || d == day;
    assert forall i: nat :: Chunk(day, i) in run.done <==> Chunk(day, i) in done0;
    if !Legacy(input, day) {
      MissingSame(run.done, done0, day, batches);
      NothingMissing(run.done, day, batches);
      if DayDone(run.done, day, batches) {
        assert Chunk(day, 0) in run.done;
        var e :| e in run.chunks && e.Daily? && e.status.Done? && Chunk(e.day, e.index) == Chunk(day, 0);
        assert HasEntryFor(run.chunks, day);
      } else {
        RunChunksRequests(server, faults, DayRun(RowsOf(run.daily, day), run), day, batches);
        RunChunksInStep(server, faults, DayRun(RowsOf(run.daily, day), run), day, batches);
        RunChunksDone(server, faults, DayRun(RowsOf(run.daily, day), run), day, batches);
        forall d | d != day
          ensures HasEntryFor(RunDay(server, faults, input, run, day, batches).chunks, d) <==>
            HasEntryFor(run.chunks, d)
        {
          RunChunksOtherDays(server, faults, DayRun(RowsOf(run.daily, day), run), day, batches, d);
        }
      }
    }
  }

  /** After a run those days have rows, if only an empty collection, that had some or had a chunk that was not done. */
  lemma {:induction false} DaysAfterRun(
    server: Server, faults: Faults, input: Input, days: seq<int>, batches: nat)
    requires Distinct(days) && batches > 0
    ensures forall d :: d in RunDays(server, faults, input, days, batches).daily <==>
      d in input.daily || (d in days && !AllDone(DoneIn(EntriesOf(input)), d, batches))
  {
    if days != [] {
      var front, day := days[..|days| - 1], days[|days| - 1];
      assert days == front + [day];
      DaysAfterRun(server, faults, input, front, batches);
      RunDaysEffect(server, faults, input, front, batches);
      var run := RunDays(server, faults, input, front, batches);
      assert forall i: nat :: Chunk(day, i) in run.done <==> Chunk(day, i) in DoneIn(EntriesOf(input));
      DayDoneIsAllDone(run.done, day, batches);
      RunChunksDone(server, faults, DayRun(RowsOf(run.daily, day), run), day, batches);
    }
  }

  /** A run that returns has made exactly the requests it announced, each chunk that was missing once and in order. */
  lemma RequestsAsPlanned(server: Server, faults: Faults, input: Input, days: seq<int>, batches: nat)
    requires Distinct(days) && batches > 0
    ensures var r := RunDays(server, faults, input, days, batches);
      r.requested == Plan(input, days, batches) && r.completed == |Plan(input, days, batches)|
  {
    RunDaysEffect(server, faults, input, days, batches);
  }

  lemma {:induction false} MissingExactly(done: set<Chunk>, day: int, n: nat)
    ensures forall c: Chunk :: c in Missing(done, day, n) <==> c.day == day && c.index < n && c !in done
    ensures Distinct(Missing(done, day, n))
  {
    if n > 0 {
      MissingExactly(done, day, n - 1);
      var before := Missing(done, day, n - 1);
      if Chunk(day, n - 1) !in done {
        assert Chunk(day, n - 1) !in before;
      }
    }
  }

  /** Not called done by the ledger, and not of a day that has rows without a single entry. */
  ghost predicate Wanted(input: Input, c: Chunk) {
    var ledger := if input.chunks.Some? then input.chunks.value else [];
    && Daily(c.day, c.index, Done) !in ledger
    && (c.day in input.daily ==> exists i: nat, status :: Daily(c.day, i, status) in ledger)
  }

  lemma WantedInDay(input: Input, c: Chunk)
    ensures Wanted(input, c) <==> !Legacy(input, c.day) && c !in DoneIn(EntriesOf(input))
  {
    var ledger := EntriesOf(input);
    if c in DoneIn(ledger) {
      var e :| e in ledger && e.Daily? && e.status.Done? && Chunk(e.day, e.index) == c;
      assert e == Daily(c.day, c.index, Done);
    }
    if HasEntryFor(ledger, c.day) {
      var e :| e in ledger && e.Daily? && e.day == c.day;
      assert Daily(c.day, e.index, e.status) in ledger;
    }
  }

  lemma {:induction false} PlanExactly(input: Input, days: seq<int>, batches: nat)
    requires Distinct(days)
    ensures forall c: Chunk :: c in Plan(input, days, batches) <==> c.day in days && c.index < batches && Wanted(input, c)
    ensures Distinct(Plan(input, days, batches))
  {
    if days != [] {
      var front, day := days[..|days| - 1], days[|days| - 1];
      assert days == front + [day];
      PlanExactly(input, front, batches);
      MissingExactly(DoneIn(EntriesOf(input)), day, batches);
      var before := Plan(input, front, batches);
      var mine := if Legacy(input, day) then [] else Missing(DoneIn(EntriesOf(input)), day, batches);
      assert Plan(input, days, batches) == before + mine;
      forall c: Chunk ensures c in before + mine <==> c.day in days && c.index < batches && Wanted(input, c) {
        WantedInDay(input, c);
      }
      forall i, j | 0 <= i < |before| && 0 <= j < |mine| ensures before[i] != mine[j] {
        assert before[i] in before && mine[j] in mine;
      }
    }
  }

  /** A run requests exactly the wanted chunks of its days, and none of them twice. */
  lemma RequestedExactly(server: Server, faults: Faults, input: Input, days: seq<int>, batches: nat, c: Chunk)
    requires Distinct(days) && batches > 0
    ensures var requested := RunDays(server, faults, input, days, batches).requested;
      && (c in requested <==> c.day in days && c.index < batches && Wanted(input, c))
      && Distinct(requested)
  {
    RunDaysEffect(server, faults, input, days, batches);
    PlanExactly(input, days, batches);
  }

  // ---- Resuming ----

  function Output(r: Run): Input {
    Input(r.daily, Some(r.chunks))
  }

  lemma {:induction false} MissingAfter(done: set<Chunk>, after: set<Chunk>, day: int, n: nat, faults: Faults)
    requires forall i: nat :: i < n ==>
      (Chunk(day, i) in after <==> Chunk(day, i) in done || faults(Chunk(day, i)).None?)
    ensures Missing(after, day, n) == FailedOf(Missing(done, day, n), faults)
  {
    if n > 0 {
      MissingAfter(done, after, day, n - 1, faults);
      var missing := Missing(done, day, n - 1);
      if Chunk(day, n - 1) in done {
        assert missing + [] == missing;
        assert FailedOf(missing, faults) + [] == FailedOf(missing, faults);
      } else {
        FailedOfOne(missing, Chunk(day, n - 1), faults);
      }
    }
  }

  lemma {:induction false} PlanAfter(
    input: Input, days: seq<int>, batches: nat, faults: Faults, r: Run, part: seq<int>)
    requires LedgerAfter(input, days, batches, faults, r)
    requires forall d :: d in part ==> d in days
    ensures Plan(Output(r), part, batches) == FailedOf(Plan(input, part, batches), faults)
  {
    if part != [] {
      var front, day := part[..|part| - 1], part[|part| - 1];
      assert part == front + [day];
      PlanAfter(input, days, batches, faults, r, front);
      assert Legacy(Output(r), day) <==> Legacy(input, day);
      var mine := if Legacy(input, day) then [] else Missing(DoneIn(EntriesOf(input)), day, batches);
      if !Legacy(input, day) {
        MissingAfter(DoneIn(EntriesOf(input)), r.done, day, batches, faults);
      }
      FailedOfConcat(Plan(input, front, batches), mine, faults);
    }
  }

  /** Feeding a result back requests exactly the chunks that failed, in the order in which they failed. */
  lemma ResumeRequestsFailures(
    server: Server, faults: Faults, input: Input, days: seq<int>, batches: nat, server': Server, faults': Faults)
    requires Distinct(days) && batches > 0
    ensures var r := RunDays(server, faults, input, days, batches);
      RunDays(server', faults', Output(r), days, batches).requested == r.failed
  {
    var r := RunDays(server, faults, input, days, batches);
    RunDaysEffect(server, faults, input, days, batches);
    RunDaysEffect(server', faults', Output(r), days, batches);
    PlanAfter(input, days, batches, faults, r, days);
  }

  // ---- One entry per chunk ----

  ghost predicate OnePerChunk(chunks: seq<Entry>) {
    forall i, j :: 0 <= i < j < |chunks| && chunks[i].Daily? ==> !Same(chunks[j], chunks[i].day, chunks[i].index)
  }

  lemma {:induction false} WithoutOnePerChunk(chunks: seq<Entry>, day: int, index: nat)
    requires OnePerChunk(chunks)
    ensures OnePerChunk(Without(chunks, day, index))
  {
    if chunks != [] {
      var front, last := chunks[..|chunks| - 1], chunks[|chunks| - 1];
      WithoutOnePerChunk(front, day, index);
      WithoutMembers(front, day, index);
      var rest := Without(front, day, index);
      forall i | 0 <= i < |rest| && rest[i].Daily? ensures !Same(last, rest[i].day, rest[i].index) {
        assert rest[i] in rest && rest[i] in front;
        var j :| 0 <= j < |front| && front[j] == rest[i];
        assert chunks[j] == rest[i];
      }
    }
  }

  lemma {:induction false} RunChunksOnePerChunk(server: Server, faults: Faults, s: DayRun, day: int, n: nat)
    requires OnePerChunk(s.run.chunks)
    ensures OnePerChunk(RunChunks(server, faults, s, day, n).run.chunks)
  {
    if n > 0 {
      RunChunksOnePerChunk(server, faults, s, day, n - 1);
      var chunks := RunChunks(server, faults, s, day, n - 1).run.chunks;
      WithoutOnePerChunk(chunks, day, n - 1);
      WithoutMembers(chunks, day, n - 1);
      var rest := Without(chunks, day, n - 1);
      forall i | 0 <= i < |rest| && rest[i].Daily? ensures !Same(rest[i], day, n - 1) {
        assert rest[i] in rest;
      }
    }
  }

  /** A run never leaves two entries for one chunk, if its input had none. */
  lemma {:induction false} RunDaysOnePerChunk(
    server: Server, faults: Faults, input: Input, days: seq<int>, batches: nat)
    requires OnePerChunk(EntriesOf(input))
    ensures OnePerChunk(RunDays(server, faults, input, days, batches).chunks)
  {
    if days != [] {
      var front, day := days[..|days| - 1], days[|days| - 1];
      RunDaysOnePerChunk(server, faults, input, front, batches);
      var run := RunDays(server, faults, input, front, batches);
      RunChunksOnePerChunk(server, faults, DayRun(RowsOf(run.daily, day), run), day, batches);
    }
  }

  // ---- What is collected, when the chunks of a day agree on the articles they share ----

  ghost predicate Agrees(rows: Rows, truth: Rows) {
    forall k :: k in rows ==> k in truth && rows[k] == truth[k]
  }

  /** All pages of a chunk; where they differ the last one counts. */
  function InFull(server: Server, c: Chunk): Rows {
    MergeAll(map[], server(c))
  }

  ghost predicate DayAgrees(server: Server, truth: Rows, day: int, batches: nat) {
    forall i: nat :: i < batches ==> Agrees(InFull(server, Chunk(day, i)), truth)
  }

  ghost predicate Deterministic(server: Server, truth: int -> Rows, days: seq<int>, batches: nat) {
    forall d :: d in days ==> DayAgrees(server, truth(d), d, batches)
  }

  function KeysOf(pages: seq<Rows>): set<int> {
    if pages == [] then {} else KeysOf(pages[..|pages| - 1]) + pages[|pages| - 1].Keys
  }

  /** The articles of those chunks of a day that are not in `done`. */
  function MissingKeys(server: Server, done: set<Chunk>, day: int, n: nat): set<int> {
    if n == 0 then {} else
      MissingKeys(server, done, day, n - 1)
      + (if Chunk(day, n - 1) in done then {} else KeysOf(server(Chunk(day, n - 1))))
  }

  lemma {:induction false} MissingKeysHas(server: Server, done: set<Chunk>, day: int, n: nat)
    ensures forall i: nat :: i < n && Chunk(day, i) !in done ==>
      KeysOf(server(Chunk(day, i))) <= MissingKeys(server, done, day, n)
    ensures forall k :: k in MissingKeys(server, done, day, n) ==> MissesKey(server, done, day, n, k)
  {
    if n > 0 {
      MissingKeysHas(server, done, day, n - 1);
      forall k | k in MissingKeys(server, done, day, n) ensures MissesKey(server, done, day, n, k) {
        if k in MissingKeys(server, done, day, n - 1) {
          assert MissesKey(server, done, day, n - 1, k);
        } else {
          assert Chunk(day, n - 1) !in done && k in KeysOf(server(Chunk(day, n - 1)));
        }
      }
    }
  }

  ghost predicate MissesKey(server: Server, done: set<Chunk>, day: int, n: nat, k: int) {
    exists i: nat :: i < n && Chunk(day, i) !in done && k in KeysOf(server(Chunk(day, i)))
  }

  lemma {:induction false} MissingKeysSame(server: Server, a: set<Chunk>, b: set<Chunk>, day: int, n: nat)
    requires forall c: Chunk :: c.day == day ==> (c in a <==> c in b)
    ensures MissingKeys(server, a, day, n) == MissingKeys(server, b, day, n)
  {
    if n > 0 {
      MissingKeysSame(server, a, b, day, n - 1);
    }
  }

  lemma AddedInTurn(a: Rows, b: Rows, c: Rows)
    ensures (a + b) + c == a + (b + c)
  {
  }

  /** Merged pages lie over the rows. */
  lemma {:induction false} MergeOverlays(rows: Rows, pages: seq<Rows>)
    ensures MergeAll(rows, pages) == rows + MergeAll(map[], pages)
    ensures MergeAll(map[], pages).Keys == KeysOf(pages)
  {
    if pages != [] {
      var front := pages[..|pages| - 1];
      MergeOverlays(rows, front);
      AddedInTurn(rows, MergeAll(map[], front), pages[|pages| - 1]);
    }
  }

  /** Of several pages with an article the last one counts. */
  lemma {:induction false} LastPageWins(pages: seq<Rows>, k: int) returns (i: nat)
    requires k in MergeAll(map[], pages)
    ensures i < |pages| && k in pages[i] && MergeAll(map[], pages)[k] == pages[i][k]
    ensures forall j :: i < j < |pages| ==> k !in pages[j]
  {
    var last := |pages| - 1;
    if k in pages[last] {
      i := last;
    } else {
      i := LastPageWins(pages[..last], k);
    }
  }

  lemma {:induction false} KeysOfPrefix(pages: seq<Rows>, n: nat)
    requires n <= |pages|
    ensures KeysOf(pages[..n]) <= KeysOf(pages)
  {
    if n < |pages| {
      KeysOfPrefix(pages[..|pages| - 1], n);
      assert pages[..|pages| - 1][..n] == pages[..n];
    } else {
      assert pages[..n] == pages;
    }
  }

  /** A day as a chain of runs finds it: its stored rows, and the chunks the ledger calls done. */
  datatype Base = Base(rows: Rows, done: set<Chunk>)

  /** The articles of a chunk are as the server has them, but for those that an open chunk may still overwrite. */
  ghost predicate Fetched(server: Server, truth: Rows, c: Chunk, rows: Rows, open: set<int>) {
    forall k :: k in KeysOf(server(c)) ==> k in rows && (k in open || (k in truth && rows[k] == truth[k]))
  }

  /**
   * The rows of a day in the course of a chain: the base, overlaid with what arrived of the chunks missing from the
   * base; a chunk done since then has arrived completely.
   */
  ghost predicate Overlaid(
    server: Server, truth: Rows, day: int, batches: nat, base: Base, rows: Rows, done: set<Chunk>) {
    && base.rows.Keys <= rows.Keys
    && (forall k :: k in rows ==>
         k in MissingKeys(server, base.done, day, batches) || (k in base.rows && rows[k] == base.rows[k]))
    && (forall i: nat :: i < batches && Chunk(day, i) in done && Chunk(day, i) !in base.done ==>
         Fetched(server, truth, Chunk(day, i), rows, MissingKeys(server, done, day, batches)))
    && (forall i: nat :: i < batches && Chunk(day, i) in base.done ==> Chunk(day, i) in done)
  }

  /** Some pages of a chunk that is not done. */
  lemma PagesOverlay(
    server: Server, truth: Rows, day: int, batches: nat, base: Base, rows: Rows, done: set<Chunk>,
    index: nat, pages: seq<Rows>)
    requires Overlaid(server, truth, day, batches, base, rows, done)
    requires index < batches && Chunk(day, index) !in done && KeysOf(pages) <= KeysOf(server(Chunk(day, index)))
    ensures Overlaid(server, truth, day, batches, base, MergeAll(rows, pages), done)
  {
    MergeOverlays(rows, pages);
    MissingKeysHas(server, base.done, day, batches);
    MissingKeysHas(server, done, day, batches);
    var merged, open := MergeAll(rows, pages), MissingKeys(server, done, day, batches);
    forall i: nat | i < batches && Chunk(day, i) in done && Chunk(day, i) !in base.done
      ensures Fetched(server, truth, Chunk(day, i), merged, open)
    {
      assert Fetched(server, truth, Chunk(day, i), rows, open);
    }
  }

  /** What a chunk that gets done leaves open. */
  lemma OpenAfter(server: Server, done: set<Chunk>, day: int, batches: nat, index: nat)
    ensures var open, after := MissingKeys(server, done, day, batches),
        MissingKeys(server, done + {Chunk(day, index)}, day, batches);
      after <= open && forall k :: k in open && k !in after ==> k in KeysOf(server(Chunk(day, index)))
  {
    var open, now := MissingKeys(server, done, day, batches), done + {Chunk(day, index)};
    var after := MissingKeys(server, now, day, batches);
    MissingKeysHas(server, done, day, batches);
    MissingKeysHas(server, now, day, batches);
    forall k | k in after ensures k in open {
      assert MissesKey(server, now, day, batches, k);
    }
    forall k | k in open && k !in after ensures k in KeysOf(server(Chunk(day, index))) {
      assert MissesKey(server, done, day, batches, k);
    }
  }

  /** A chunk of which all pages have arrived is done. */
  lemma DoneOverlays(
    server: Server, truth: Rows, day: int, batches: nat, base: Base, rows: Rows, done: set<Chunk>, index: nat)
    requires Overlaid(server, truth, day, batches, base, rows, done)
    requires forall k :: k in KeysOf(server(Chunk(day, index))) ==> k in rows && k in truth && rows[k] == truth[k]
    ensures Overlaid(server, truth, day, batches, base, rows, done + {Chunk(day, index)})
  {
    var open, after := MissingKeys(server, done, day, batches),
      MissingKeys(server, done + {Chunk(day, index)}, day, batches);
    OpenAfter(server, done, day, batches, index);
    forall i: nat | i < batches && Chunk(day, i) in done + {Chunk(day, index)} && Chunk(day, i) !in base.done
      ensures Fetched(server, truth, Chunk(day, i), rows, after)
    {
      assert i != index ==> Fetched(server, truth, Chunk(day, i), rows, open);
    }
  }

  lemma RunChunkOverlays(
    server: Server, truth: int -> Rows, faults: Faults, s: DayRun, day: int, index: nat, batches: nat, base: Base)
    requires DayAgrees(server, truth(day), day, batches) && index < batches
    requires Overlaid(server, truth(day), day, batches, base, s.rows, s.run.done)
    ensures var r := RunChunk(server, faults, s, day, index);
      Overlaid(server, truth(day), day, batches, base, r.rows, r.run.done)
  {
    var chunk, t := Chunk(day, index), truth(day);
    if chunk !in s.run.done {
      var pages, fault := server(chunk), faults(chunk);
      var arrived := Arrived(pages, fault);
      assert arrived == pages[..|arrived|] && pages[..|pages|] == pages;
      KeysOfPrefix(pages, |arrived|);
      PagesOverlay(server, t, day, batches, base, s.rows, s.run.done, index, arrived);
      if fault.None? {
        MergeOverlays(s.rows, pages);
        assert Agrees(InFull(server, chunk), t);
        DoneOverlays(server, t, day, batches, base, MergeAll(s.rows, arrived), s.run.done, index);
      }
    }
  }

  lemma RunChunksOverlay(
    server: Server, truth: int -> Rows, faults: Faults, s: DayRun, day: int, n: nat, batches: nat, base: Base)
    requires DayAgrees(server, truth(day), day, batches) && n <= batches
    requires Overlaid(server, truth(day), day, batches, base, s.rows, s.run.done)
    ensures var r := RunChunks(server, faults, s, day, n);
      Overlaid(server, truth(day), day, batches, base, r.rows, r.run.done)
  {
    var inv := (i: nat, t: DayRun) => Overlaid(server, truth(day), day, batches, base, t.rows, t.run.done);
    forall i: nat | i < n ensures KeptBy(server, faults, day, i, inv) {
      forall t: DayRun | inv(i, t) ensures inv(i + 1, RunChunk(server, faults, t, day, i)) {
        RunChunkOverlays(server, truth, faults, t, day, i, batches, base);
      }
    }
    RunChunksKeep(server, faults, s, day, n, inv);
  }

  /** Once every chunk is done nothing depends on how it came to be so. */
  lemma OverlaidIsDetermined(
    server: Server, truth: Rows, day: int, batches: nat, base: Base,
    a: Rows, b: Rows, done: set<Chunk>, done': set<Chunk>)
    requires Overlaid(server, truth, day, batches, base, a, done) && AllDone(done, day, batches)
    requires Overlaid(server, truth, day, batches, base, b, done') && AllDone(done', day, batches)
    ensures a == b
  {
    FinishedRows(server, truth, day, batches, base, a, done);
    FinishedRows(server, truth, day, batches, base, b, done');
    assert a.Keys == b.Keys;
    forall k | k in a ensures a[k] == b[k] {
      assert k in b;
    }
  }

  lemma FinishedRows(
    server: Server, truth: Rows, day: int, batches: nat, base: Base, rows: Rows, done: set<Chunk>)
    requires Overlaid(server, truth, day, batches, base, rows, done) && AllDone(done, day, batches)
    ensures rows.Keys == base.rows.Keys + MissingKeys(server, base.done, day, batches)
    ensures forall k :: k in rows ==>
      if k in MissingKeys(server, base.done, day, batches) then k in truth && rows[k] == truth[k]
      else k in base.rows && rows[k] == base.rows[k]
  {
    MissingKeysHas(server, base.done, day, batches);
    MissingKeysHas(server, done, day, batches);
    var missing, open := MissingKeys(server, base.done, day, batches), MissingKeys(server, done, day, batches);
    forall k | k in missing ensures k in rows && k in truth && rows[k] == truth[k] {
      assert MissesKey(server, base.done, day, batches, k);
      var i: nat :| i < batches && Chunk(day, i) !in base.done && k in KeysOf(server(Chunk(day, i)));
      assert Fetched(server, truth, Chunk(day, i), rows, open);
    }
    assert forall k :: k in rows.Keys <==> k in base.rows.Keys + missing;
  }

  // ---- Chains of runs ----

  /**
   * A run that returns hands back rows and ledger. A run that is aborted, by an error or by a request limit, leaves
   * what the callbacks saved: all of the days before, and the chunks of one more day.
   */
  datatype Attempt = Returned(faults: Faults) | Aborted(faults: Faults, fullDays: nat, chunks: nat)

  /** What `save_baskets_detail_chunk` has saved after the first n chunks of a day; skipped chunks save nothing. */
  function SavedChunks(server: Server, faults: Faults, run: Run, day: int, n: nat): Input {
    if Missing(run.done, day, n) == [] then Output(run) else
      var s := RunChunks(server, faults, DayRun(RowsOf(run.daily, day), run), day, n);
      Output(s.run.(daily := s.run.daily[day := s.rows]))
  }

  /** What the next run is given. */
  function LeftBy(server: Server, attempt: Attempt, input: Input, days: seq<int>, batches: nat): Input {
    match attempt
    case Returned(faults) => Output(RunDays(server, faults, input, days, batches))
    case Aborted(faults, k, n) =>
      if k >= |days| then Output(RunDays(server, faults, input, days, batches)) else
        var run := RunDays(server, faults, input, days[..k], batches);
        if Legacy(input, days[k]) || DayDone(run.done, days[k], batches) then Output(run)
        else SavedChunks(server, faults, run, days[k], if n < batches then n else batches)
  }

  /** What is stored after several attempts, each resuming the one before it. */
  function StoredAfter(server: Server, start: Input, attempts: seq<Attempt>, days: seq<int>, batches: nat): Input {
    if attempts == [] then start else
      LeftBy(server, attempts[|attempts| - 1],
        StoredAfter(server, start, attempts[..|attempts| - 1], days, batches), days, batches)
  }

  function BaseOf(start: Input, day: int): Base {
    Base(RowsOf(start.daily, day), DoneIn(EntriesOf(start)))
  }

  /** What a chain from `start` has made of one of its days, unless that day is taken as it is. */
  ghost predicate DayFollows(server: Server, truth: int -> Rows, start: Input, day: int, batches: nat, now: Input) {
    var base, done := BaseOf(start, day), DoneIn(EntriesOf(now));
    && Overlaid(server, truth(day), day, batches, base, RowsOf(now.daily, day), done)
    && (day in start.daily ==> day in now.daily)
    && (day in now.daily ==> day in start.daily || !AllDone(base.done, day, batches))
    && (forall i: nat :: i < batches && Chunk(day, i) in done && Chunk(day, i) !in base.done ==> day in now.daily)
  }

  ghost predicate Follows(
    server: Server, truth: int -> Rows, start: Input, days: seq<int>, batches: nat, now: Input) {
    && (forall d :: d in days ==> (Legacy(now, d) <==> Legacy(start, d)))
    && (forall d :: d in days && !Legacy(start, d) ==> DayFollows(server, truth, start, d, batches, now))
    && (forall d :: d !in days || Legacy(start, d) ==>
         (d in now.daily <==> d in start.daily) && RowsOf(now.daily, d) == RowsOf(start.daily, d))
  }

  lemma DayDoneIsAllDone(done: set<Chunk>, day: int, batches: nat)
    requires batches > 0
    ensures DayDone(done, day, batches) <==> AllDone(done, day, batches)
  {
    if AllDone(done, day, batches) {
      assert Chunk(day, 0) in done;
    }
  }

  /** Some chunks of one more day. */
  lemma ChunksFollow(
    server: Server, truth: int -> Rows, faults: Faults, start: Input, days: seq<int>, batches: nat,
    run: Run, day: int, n: nat)
    requires Deterministic(server, truth, days, batches) && 0 < n <= batches && InStep(run)
    requires Follows(server, truth, start, days, batches, Output(run))
    requires day in days && !Legacy(start, day) && !DayDone(run.done, day, batches)
    ensures var s := RunChunks(server, faults, DayRun(RowsOf(run.daily, day), run), day, n);
      && InStep(s.run)
      && Follows(server, truth, start, days, batches, Output(s.run.(daily := s.run.daily[day := s.rows])))
  {
    var before := DayRun(RowsOf(run.daily, day), run);
    var s := RunChunks(server, faults, before, day, n);
    DayDoneIsAllDone(run.done, day, batches);
    assert DayFollows(server, truth, start, day, batches, Output(run));
    RunChunksOverlay(server, truth, faults, before, day, n, batches, BaseOf(start, day));
    RunChunksDone(server, faults, before, day, n);
    RunChunksInStep(server, faults, before, day, n);
    forall d | d != day ensures HasEntryFor(s.run.chunks, d) <==> HasEntryFor(run.chunks, d) {
      RunChunksOtherDays(server, faults, before, day, n, d);
    }
    OneDayFollows(server, truth, start, days, batches, run, day, s);
  }

  /** If only `day` has changed, and has changed as it should, everything is as it should be. */
  lemma OneDayFollows(
    server: Server, truth: int -> Rows, start: Input, days: seq<int>, batches: nat, run: Run, day: int, s: DayRun)
    requires InStep(run) && InStep(s.run) && s.run.daily == run.daily
    requires Follows(server, truth, start, days, batches, Output(run))
    requires day in days && !Legacy(start, day) && !AllDone(run.done, day, batches)
    requires HasEntryFor(s.run.chunks, day)
    requires forall d :: d != day ==> (HasEntryFor(s.run.chunks, d) <==> HasEntryFor(run.chunks, d))
    requires forall c: Chunk :: c.day != day ==> (c in s.run.done <==> c in run.done)
    requires Overlaid(server, truth(day), day, batches, BaseOf(start, day), s.rows, s.run.done)
    ensures Follows(server, truth, start, days, batches, Output(s.run.(daily := s.run.daily[day := s.rows])))
  {
    var now := Output(s.run.(daily := s.run.daily[day := s.rows]));
    assert DayFollows(server, truth, start, day, batches, Output(run));
    forall d | d in days && !Legacy(start, d) ensures DayFollows(server, truth, start, d, batches, now) {
      if d != day {
        OtherDayFollows(server, truth, start, d, batches, Output(run), now);
      }
    }
  }

  lemma OtherDayFollows(
    server: Server, truth: int -> Rows, start: Input, d: int, batches: nat, before: Input, now: Input)
    requires DayFollows(server, truth, start, d, batches, before)
    requires d in before.daily <==> d in now.daily
    requires RowsOf(before.daily, d) == RowsOf(now.daily, d)
    requires forall c: Chunk :: c.day == d ==> (c in DoneIn(EntriesOf(before)) <==> c in DoneIn(EntriesOf(now)))
    ensures DayFollows(server, truth, start, d, batches, now)
  {
    MissingKeysSame(server, DoneIn(EntriesOf(before)), DoneIn(EntriesOf(now)), d, batches);
  }

  lemma {:induction false} RunDaysFollow(
    server: Server, truth: int -> Rows, faults: Faults, start: Input, days: seq<int>, batches: nat,
    input: Input, part: seq<int>)
    requires Deterministic(server, truth, days, batches) && Distinct(part) && batches > 0
    requires Follows(server, truth, start, days, batches, input) && forall d :: d in part ==> d in days
    ensures InStep(RunDays(server, faults, input, part, batches))
    ensures Follows(server, truth, start, days, batches, Output(RunDays(server, faults, input, part, batches)))
  {
    if part == [] {
      BeginFollows(server, truth, start, days, batches, input);
    } else {
      var front, day := part[..|part| - 1], part[|part| - 1];
      RunDaysFollow(server, truth, faults, start, days, batches, input, front);
      var run := RunDays(server, faults, input, front, batches);
      if !Legacy(input, day) && !DayDone(run.done, day, batches) {
        ChunksFollow(server, truth, faults, start, days, batches, run, day, batches);
      }
    }
  }

  /** A ledger that does not exist is as good as an empty one. */
  lemma BeginFollows(server: Server, truth: int -> Rows, start: Input, days: seq<int>, batches: nat, input: Input)
    requires Follows(server, truth, start, days, batches, input)
    ensures Follows(server, truth, start, days, batches, Output(Begin(input)))
  {
    var now := Output(Begin(input));
    assert EntriesOf(now) == EntriesOf(input) && now.daily == input.daily;
    assert forall d :: Legacy(now, d) <==> Legacy(input, d);
  }

  /** An abort after some chunks of one more day. */
  lemma AbortFollows(
    server: Server, truth: int -> Rows, faults: Faults, start: Input, days: seq<int>, batches: nat,
    run: Run, day: int, n: nat)
    requires Deterministic(server, truth, days, batches) && n <= batches && InStep(run)
    requires Follows(server, truth, start, days, batches, Output(run))
    requires day in days && !Legacy(start, day) && !DayDone(run.done, day, batches)
    ensures Follows(server, truth, start, days, batches, SavedChunks(server, faults, run, day, n))
  {
    if Missing(run.done, day, n) != [] {
      ChunksFollow(server, truth, faults, start, days, batches, run, day, n);
    }
  }

  lemma AttemptFollows(
    server: Server, truth: int -> Rows, attempt: Attempt, start: Input, days: seq<int>, batches: nat, input: Input)
    requires Deterministic(server, truth, days, batches) && Distinct(days) && batches > 0
    requires Follows(server, truth, start, days, batches, input)
    ensures Follows(server, truth, start, days, batches, LeftBy(server, attempt, input, days, batches))
  {
    var faults := attempt.faults;
    if attempt.Aborted? && attempt.fullDays < |days| {
      var k, day := attempt.fullDays, days[attempt.fullDays];
      RunDaysFollow(server, truth, faults, start, days, batches, input, days[..k]);
      var run := RunDays(server, faults, input, days[..k], batches);
      if !Legacy(input, day) && !DayDone(run.done, day, batches) {
        AbortFollows(server, truth, faults, start, days, batches, run, day,
          if attempt.chunks < batches then attempt.chunks else batches);
      }
    } else {
      RunDaysFollow(server, truth, faults, start, days, batches, input, days);
    }
  }

  lemma StartFollows(server: Server, truth: int -> Rows, start: Input, days: seq<int>, batches: nat)
    ensures Follows(server, truth, start, days, batches, start)
  {
    forall d | d in days && !Legacy(start, d) ensures DayFollows(server, truth, start, d, batches, start) {
    }
  }

  /** Whatever the attempts were, what is stored has followed from the start. */
  lemma {:induction false} StoredFollows(
    server: Server, truth: int -> Rows, start: Input, attempts: seq<Attempt>, days: seq<int>, batches: nat)
    requires Deterministic(server, truth, days, batches) && Distinct(days) && batches > 0
    ensures Follows(server, truth, start, days, batches, StoredAfter(server, start, attempts, days, batches))
  {
    if attempts == [] {
      StartFollows(server, truth, start, days, batches);
    } else {
      var front := attempts[..|attempts| - 1];
      StoredFollows(server, truth, start, front, days, batches);
      AttemptFollows(server, truth, attempts[|attempts| - 1], start, days, batches,
        StoredAfter(server, start, front, days, batches));
    }
  }

  lemma {:induction false} PlanEmpty(input: Input, days: seq<int>, batches: nat, day: int)
    requires Plan(input, days, batches) == [] && day in days && !Legacy(input, day)
    ensures Missing(DoneIn(EntriesOf(input)), day, batches) == []
  {
    var front, last := days[..|days| - 1], days[|days| - 1];
    assert days == front + [last];
    if day != last {
      PlanEmpty(input, front, batches, day);
    }
  }

  /** A run without a failure leaves every day followed to its end. */
  ghost predicate Finished(
    server: Server, truth: int -> Rows, start: Input, days: seq<int>, batches: nat, now: Input) {
    && Follows(server, truth, start, days, batches, now)
    && forall d :: d in days && !Legacy(start, d) ==> AllDone(DoneIn(EntriesOf(now)), d, batches)
  }

  lemma NoFailureFinishes(
    server: Server, truth: int -> Rows, faults: Faults, start: Input, days: seq<int>, batches: nat, input: Input)
    requires Deterministic(server, truth, days, batches) && Distinct(days) && batches > 0
    requires Follows(server, truth, start, days, batches, input)
    requires RunDays(server, faults, input, days, batches).failed == []
    ensures Finished(server, truth, start, days, batches, Output(RunDays(server, faults, input, days, batches)))
  {
    var r := RunDays(server, faults, input, days, batches);
    RunDaysFollow(server, truth, faults, start, days, batches, input, days);
    RunDaysEffect(server, faults, input, days, batches);
    PlanAfter(input, days, batches, faults, r, days);
    forall d | d in days && !Legacy(start, d) ensures AllDone(r.done, d, batches) {
      PlanEmpty(Output(r), days, batches, d);
      NothingMissing(r.done, d, batches);
    }
  }

  lemma FinishedIsDetermined(
    server: Server, truth: int -> Rows, start: Input, days: seq<int>, batches: nat, a: Input, b: Input)
    requires Finished(server, truth, start, days, batches, a) && Finished(server, truth, start, days, batches, b)
    ensures a.daily == b.daily
  {
    forall d ensures (d in a.daily <==> d in b.daily) && RowsOf(a.daily, d) == RowsOf(b.daily, d) {
      if d in days && !Legacy(start, d) {
        assert DayFollows(server, truth, start, d, batches, a) && DayFollows(server, truth, start, d, batches, b);
        OverlaidIsDetermined(server, truth(d), d, batches, BaseOf(start, d), RowsOf(a.daily, d), RowsOf(b.daily, d),
          DoneIn(EntriesOf(a)), DoneIn(EntriesOf(b)));
      }
    }
    SameDaily(a.daily, b.daily);
  }

  lemma SameDaily(a: map<int, Rows>, b: map<int, Rows>)
    requires forall d :: (d in a <==> d in b) && RowsOf(a, d) == RowsOf(b, d)
    ensures a == b
  {
    forall d ensures (d in a <==> d in b) && (d in a ==> a[d] == b[d]) {
      assert RowsOf(a, d) == RowsOf(b, d);
    }
    assert a.Keys == b.Keys;
  }

  const NO_FAULTS: Faults := (c: Chunk) => None

  lemma {:induction false} NoFaultsNoFailures(requests: seq<Chunk>)
    ensures FailedOf(requests, NO_FAULTS) == []
  {
    if requests != [] {
      NoFaultsNoFailures(requests[..|requests| - 1]);
    }
  }

  /** Everything the server has for a day: its chunks over one another. */
  function AllRows(server: Server, day: int, n: nat): Rows {
    if n == 0 then map[] else AllRows(server, day, n - 1) + InFull(server, Chunk(day, n - 1))
  }

  /** Different chunks of a day say the same of an article that is in both. Pages of one chunk may differ. */
  ghost predicate ChunksAgree(server: Server, day: int, batches: nat) {
    forall i: nat, j: nat, k :: i < j < batches && InBoth(server, day, i, j, k) ==>
      InFull(server, Chunk(day, i))[k] == InFull(server, Chunk(day, j))[k]
  }

  ghost predicate InBoth(server: Server, day: int, i: nat, j: nat, k: int) {
    k in InFull(server, Chunk(day, i)) && k in InFull(server, Chunk(day, j))
  }

  lemma {:induction false} AllRowsAgree(server: Server, day: int, n: nat)
    requires ChunksAgree(server, day, n)
    ensures DayAgrees(server, AllRows(server, day, n), day, n)
    ensures AllRows(server, day, n).Keys == MissingKeys(server, {}, day, n)
  {
    if n > 0 {
      AllRowsAgree(server, day, n - 1);
      MergeOverlays(map[], server(Chunk(day, n - 1)));
      forall i: nat | i < n ensures Agrees(InFull(server, Chunk(day, i)), AllRows(server, day, n)) {
        forall k | k in InFull(server, Chunk(day, i)) && k in InFull(server, Chunk(day, n - 1))
          ensures InFull(server, Chunk(day, i))[k] == InFull(server, Chunk(day, n - 1))[k]
        {
          assert InBoth(server, day, i, n - 1, k);
        }
      }
    }
  }

  ghost predicate DaysAgree(server: Server, days: seq<int>, batches: nat) {
    forall d :: d in days ==> ChunksAgree(server, d, batches)
  }

  lemma Truth(server: Server, days: seq<int>, batches: nat) returns (truth: int -> Rows)
    requires DaysAgree(server, days, batches)
    ensures forall d :: truth(d) == AllRows(server, d, batches)
    ensures Deterministic(server, truth, days, batches)
  {
    truth := d => AllRows(server, d, batches);
    forall d | d in days ensures DayAgrees(server, truth(d), d, batches) {
      AllRowsAgree(server, d, batches);
    }
  }

  /**
   * From whatever rows and ledger were stored, through whatever attempts, returned or aborted at any chunk: once a
   * run finishes without a failure, the daily rows are those of a single run in which nothing ever failed.
   */
  lemma ConvergesToCleanRun(
    server: Server, start: Input, attempts: seq<Attempt>, faults: Faults, days: seq<int>, batches: nat)
    requires DaysAgree(server, days, batches) && Distinct(days) && batches > 0
    requires RunDays(server, faults, StoredAfter(server, start, attempts, days, batches), days, batches).failed == []
    ensures RunDays(server, faults, StoredAfter(server, start, attempts, days, batches), days, batches).daily
         == RunDays(server, NO_FAULTS, start, days, batches).daily
  {
    var truth := Truth(server, days, batches);
    var input := StoredAfter(server, start, attempts, days, batches);
    StoredFollows(server, truth, start, attempts, days, batches);
    StartFollows(server, truth, start, days, batches);
    CleanRunSucceeds(server, start, days, batches);
    NoFailureFinishes(server, truth, faults, start, days, batches, input);
    NoFailureFinishes(server, truth, NO_FAULTS, start, days, batches, start);
    FinishedIsDetermined(server, truth, start, days, batches,
      Output(RunDays(server, faults, input, days, batches)), Output(RunDays(server, NO_FAULTS, start, days, batches)));
  }

  lemma CleanRunSucceeds(server: Server, input: Input, days: seq<int>, batches: nat)
    requires Distinct(days) && batches > 0
    ensures RunDays(server, NO_FAULTS, input, days, batches).failed == []
  {
    RunDaysEffect(server, NO_FAULTS, input, days, batches);
    NoFaultsNoFailures(Plan(input, days, batches));
  }

  // ---- What a run brings ----

  /** What comes in of a chunk: all its pages, or those before the page at which the request fails. */
  function CameIn(server: Server, faults: Faults, c: Chunk): Rows {
    var pages, fault := server(c), faults(c);
    MergeAll(map[], if fault.None? || fault.value >= |pages| then pages else pages[..fault.value])
  }

  /** The chunks of a day that are not in `done`, over one another. */
  function RestRows(server: Server, faults: Faults, done: set<Chunk>, day: int, n: nat): Rows {
    if n == 0 then map[] else
      RestRows(server, faults, done, day, n - 1)
      + if Chunk(day, n - 1) in done then map[] else CameIn(server, faults, Chunk(day, n - 1))
  }

  lemma ChunkRows(server: Server, faults: Faults, s: DayRun, day: int, index: nat)
    ensures RunChunk(server, faults, s, day, index).rows ==
      s.rows + if Chunk(day, index) in s.run.done then map[] else CameIn(server, faults, Chunk(day, index))
  {
    MergeOverlays(s.rows, Arrived(server(Chunk(day, index)), faults(Chunk(day, index))));
  }

  ghost predicate LoopAt(server: Server, faults: Faults, s: DayRun, day: int, i: nat, t: DayRun) {
    && t.rows == s.rows + RestRows(server, faults, s.run.done, day, i)
    && forall j: nat :: j >= i ==> (Chunk(day, j) in t.run.done <==> Chunk(day, j) in s.run.done)
  }

  lemma LoopOn(server: Server, faults: Faults, s: DayRun, day: int, i: nat, t: DayRun)
    requires LoopAt(server, faults, s, day, i, t)
    ensures LoopAt(server, faults, s, day, i + 1, RunChunk(server, faults, t, day, i))
  {
    ChunkRows(server, faults, t, day, i);
    AddedInTurn(s.rows, RestRows(server, faults, s.run.done, day, i),
      if Chunk(day, i) in s.run.done then map[] else CameIn(server, faults, Chunk(day, i)));
  }

  lemma LoopRows(server: Server, faults: Faults, s: DayRun, day: int, n: nat)
    ensures RunChunks(server, faults, s, day, n).rows == s.rows + RestRows(server, faults, s.run.done, day, n)
  {
    var inv := (i: nat, t: DayRun) => LoopAt(server, faults, s, day, i, t);
    forall i: nat | i < n ensures KeptBy(server, faults, day, i, inv) {
      forall t: DayRun | inv(i, t) ensures inv(i + 1, RunChunk(server, faults, t, day, i)) {
        LoopOn(server, faults, s, day, i, t);
      }
    }
    RunChunksKeep(server, faults, s, day, n, inv);
  }

  lemma {:induction false} RestSame(
    server: Server, faults: Faults, done: set<Chunk>, done': set<Chunk>, day: int, n: nat)
    requires forall i: nat :: i < n ==> (Chunk(day, i) in done <==> Chunk(day, i) in done')
    ensures RestRows(server, faults, done, day, n) == RestRows(server, faults, done', day, n)
  {
    if n > 0 {
      RestSame(server, faults, done, done', day, n - 1);
    }
  }

  lemma {:induction false} RestIsNothing(server: Server, faults: Faults, done: set<Chunk>, day: int, n: nat)
    requires forall j: nat :: j < n ==> Chunk(day, j) in done
    ensures RestRows(server, faults, done, day, n) == map[]
  {
    if n > 0 {
      RestIsNothing(server, faults, done, day, n - 1);
    }
  }

  /**
   * The rows of a day after a run: those before it, overlaid with what came in of the missing chunks in their order,
   * of failed requests too. A day that is taken as it is, or not asked for, keeps its rows.
   */
  lemma {:induction false} RowsAfterRun(
    server: Server, faults: Faults, input: Input, days: seq<int>, batches: nat, d: int)
    requires Distinct(days) && batches > 0
    ensures RowsOf(RunDays(server, faults, input, days, batches).daily, d) ==
      if d in days && !Legacy(input, d) then
        RowsOf(input.daily, d) + RestRows(server, faults, DoneIn(EntriesOf(input)), d, batches)
      else RowsOf(input.daily, d)
  {
    if days != [] {
      var front, day := days[..|days| - 1], days[|days| - 1];
      assert days == front + [day];
      RowsAfterRun(server, faults, input, front, batches, d);
      RunDaysEffect(server, faults, input, front, batches);
      var run := RunDays(server, faults, input, front, batches);
      if d == day && !Legacy(input, day) {
        RestSame(server, faults, run.done, DoneIn(EntriesOf(input)), day, batches);
        RowsAfterDay(server, faults, input, run, day, batches);
      } else if d != day {
        OtherDayKept(server, faults, input, run, day, batches, d);
      }
    }
  }

  lemma RowsAfterDay(server: Server, faults: Faults, input: Input, run: Run, day: int, batches: nat)
    requires !Legacy(input, day)
    ensures RowsOf(RunDay(server, faults, input, run, day, batches).daily, day) ==
      RowsOf(run.daily, day) + RestRows(server, faults, run.done, day, batches)
  {
    if DayDone(run.done, day, batches) {
      RestIsNothing(server, faults, run.done, day, batches);
      assert RowsOf(run.daily, day) + map[] == RowsOf(run.daily, day);
    } else {
      LoopRows(server, faults, DayRun(RowsOf(run.daily, day), run), day, batches);
    }
  }

  lemma OtherDayKept(server: Server, faults: Faults, input: Input, run: Run, day: int, batches: nat, d: int)
    requires d != day
    ensures RowsOf(RunDay(server, faults, input, run, day, batches).daily, d) == RowsOf(run.daily, d)
  {
    RunChunksDone(server, faults, DayRun(RowsOf(run.daily, day), run), day, batches);
  }

  const SCRATCH: Input := Input(map[], None)

  lemma FinishedFromNothing(server: Server, truth: Rows, day: int, batches: nat, rows: Rows, done: set<Chunk>)
    requires Overlaid(server, truth, day, batches, Base(map[], {}), rows, done) && AllDone(done, day, batches)
    requires truth.Keys == MissingKeys(server, {}, day, batches)
    ensures rows == truth
  {
    FinishedRows(server, truth, day, batches, Base(map[], {}), rows, done);
    assert rows.Keys == truth.Keys;
    forall k | k in rows ensures rows[k] == truth[k] {
      assert k in MissingKeys(server, {}, day, batches);
    }
  }

  /** From nothing, every day then holds every article of its chunks, as the server has it, and nothing else. */
  lemma CollectsEverything(
    server: Server, attempts: seq<Attempt>, faults: Faults, days: seq<int>, batches: nat)
    requires DaysAgree(server, days, batches) && Distinct(days) && batches > 0
    requires RunDays(server, faults, StoredAfter(server, SCRATCH, attempts, days, batches), days, batches).failed == []
    ensures var input := StoredAfter(server, SCRATCH, attempts, days, batches);
      var daily := RunDays(server, faults, input, days, batches).daily;
      && (forall d :: d in daily <==> d in days)
      && forall d :: d in days ==> daily[d] == AllRows(server, d, batches)
  {
    var truth := Truth(server, days, batches);
    var input := StoredAfter(server, SCRATCH, attempts, days, batches);
    var now := Output(RunDays(server, faults, input, days, batches));
    StoredFollows(server, truth, SCRATCH, attempts, days, batches);
    NoFailureFinishes(server, truth, faults, SCRATCH, days, batches, input);
    forall d | d in days ensures d in now.daily && now.daily[d] == AllRows(server, d, batches) {
      assert DayFollows(server, truth, SCRATCH, d, batches, now);
      assert BaseOf(SCRATCH, d) == Base(map[], {});
      assert Chunk(d, 0) in DoneIn(EntriesOf(now));
      AllRowsAgree(server, d, batches);
      FinishedFromNothing(server, truth(d), d, batches, RowsOf(now.daily, d), DoneIn(EntriesOf(now)));
    }
  }

  // ---- Chunks that do not agree ----

  /** What one chunk has is overwritten by no other if all others are done. */
  lemma {:induction false} RestIsOne(server: Server, done: set<Chunk>, day: int, n: nat, i: nat)
    requires i < n && forall j: nat :: j < n ==> (Chunk(day, j) in done <==> j != i)
    ensures RestRows(server, NO_FAULTS, done, day, n) == InFull(server, Chunk(day, i))
  {
    if i < n - 1 {
      RestIsOne(server, done, day, n - 1, i);
    } else {
      RestIsNothing(server, NO_FAULTS, done, day, n - 1);
    }
  }

  lemma {:induction false} RestIsAll(server: Server, done: set<Chunk>, day: int, n: nat)
    requires forall j: nat :: j < n ==> Chunk(day, j) !in done
    ensures RestRows(server, NO_FAULTS, done, day, n) == AllRows(server, day, n)
  {
    if n > 0 {
      RestIsAll(server, done, day, n - 1);
    }
  }

  lemma OneDay(server: Server, faults: Faults, input: Input, day: int, batches: nat)
    ensures RunDays(server, faults, input, [day], batches) == RunDay(server, faults, input, Begin(input), day, batches)
  {
    assert [day][..|[day]| - 1] == [];
    assert RunDays(server, faults, input, [], batches) == Begin(input);
  }

  lemma OneAttempt(server: Server, start: Input, attempt: Attempt, days: seq<int>, batches: nat)
    ensures StoredAfter(server, start, [attempt], days, batches) == LeftBy(server, attempt, start, days, batches)
  {
    assert [attempt][..|[attempt]| - 1] == [];
    assert StoredAfter(server, start, [], days, batches) == start;
  }

  /** Only the given chunk fails, before its first page. */
  function Failing(c: Chunk): Faults {
    (d: Chunk) => if d == c then Some(0) else None
  }

  /** A first run in which only chunk i fails. */
  lemma OneFailure(server: Server, day: int, batches: nat, i: nat)
    requires i < batches
    ensures var first := RunDays(server, Failing(Chunk(day, i)), SCRATCH, [day], batches);
      && InStep(first) && HasEntryFor(first.chunks, day)
      && forall j: nat :: j < batches ==> (Chunk(day, j) in first.done <==> j != i)
  {
    var fault, begin := Failing(Chunk(day, i)), DayRun(map[], Begin(SCRATCH));
    OneDay(server, fault, SCRATCH, day, batches);
    RunChunksDone(server, fault, begin, day, batches);
    RunChunksInStep(server, fault, begin, day, batches);
  }

  /** The chunk that failed is fetched last, and its articles are then as it has them. */
  lemma FailedChunkWins(server: Server, day: int, batches: nat, i: nat, input: Input)
    requires i < batches
    requires input == StoredAfter(server, SCRATCH, [Returned(Failing(Chunk(day, i)))], [day], batches)
    ensures var r := RunDays(server, NO_FAULTS, input, [day], batches);
      r.failed == [] && day in r.daily && Agrees(InFull(server, Chunk(day, i)), r.daily[day])
  {
    var first := RunDays(server, Failing(Chunk(day, i)), SCRATCH, [day], batches);
    OneAttempt(server, SCRATCH, Returned(Failing(Chunk(day, i))), [day], batches);
    OneFailure(server, day, batches, i);
    assert !Legacy(input, day) && Begin(input).done == first.done;
    OneDay(server, NO_FAULTS, input, day, batches);
    CleanRunSucceeds(server, input, [day], batches);
    LoopRows(server, NO_FAULTS, DayRun(RowsOf(input.daily, day), Begin(input)), day, batches);
    RestIsOne(server, first.done, day, batches, i);
  }

  lemma CleanDay(server: Server, day: int, batches: nat)
    requires batches > 0
    ensures RunDays(server, NO_FAULTS, SCRATCH, [day], batches).daily == map[day := AllRows(server, day, batches)]
  {
    var begin := DayRun(map[], Begin(SCRATCH));
    var s := RunChunks(server, NO_FAULTS, begin, day, batches);
    assert s.rows == AllRows(server, day, batches) by {
      LoopRows(server, NO_FAULTS, begin, day, batches);
      assert begin.run.done == {} && begin.rows + AllRows(server, day, batches) == AllRows(server, day, batches);
      RestIsAll(server, {}, day, batches);
    }
    assert s.run.daily == map[] by {
      RunChunksDone(server, NO_FAULTS, begin, day, batches);
    }
    OneDay(server, NO_FAULTS, SCRATCH, day, batches);
    assert Begin(SCRATCH).done == {} && !Legacy(SCRATCH, day);
    assert RunDay(server, NO_FAULTS, SCRATCH, Begin(SCRATCH), day, batches) ==
      s.run.(daily := s.run.daily[day := s.rows]);
  }

  /** However a collection of one day is interrupted, it ends with the rows of a single clean run. */
  ghost predicate Converges(server: Server, day: int, batches: nat) {
    forall attempts, faults :: ConvergesFrom(server, day, batches, attempts, faults)
  }

  ghost predicate ConvergesFrom(server: Server, day: int, batches: nat, attempts: seq<Attempt>, faults: Faults) {
    var r := RunDays(server, faults, StoredAfter(server, SCRATCH, attempts, [day], batches), [day], batches);
    r.failed == [] ==> r.daily == RunDays(server, NO_FAULTS, SCRATCH, [day], batches).daily
  }

  /** Interruptions leave no trace exactly when the chunks of the day agree on the articles they share. */
  lemma ConvergesExactlyWhenChunksAgree(server: Server, day: int, batches: nat)
    requires batches > 0
    ensures Converges(server, day, batches) <==> ChunksAgree(server, day, batches)
  {
    if ChunksAgree(server, day, batches) {
      forall attempts, faults ensures ConvergesFrom(server, day, batches, attempts, faults) {
        var r := RunDays(server, faults, StoredAfter(server, SCRATCH, attempts, [day], batches), [day], batches);
        if r.failed == [] {
          ConvergesToCleanRun(server, SCRATCH, attempts, faults, [day], batches);
        }
      }
    }
    if Converges(server, day, batches) {
      CleanDay(server, day, batches);
      forall i: nat | i < batches ensures Agrees(InFull(server, Chunk(day, i)), AllRows(server, day, batches)) {
        var input := StoredAfter(server, SCRATCH, [Returned(Failing(Chunk(day, i)))], [day], batches);
        FailedChunkWins(server, day, batches, i, input);
        assert ConvergesFrom(server, day, batches, [Returned(Failing(Chunk(day, i)))], NO_FAULTS);
      }
      forall i: nat, j: nat, k | i < j < batches && InBoth(server, day, i, j, k)
        ensures InFull(server, Chunk(day, i))[k] == InFull(server, Chunk(day, j))[k]
      {
        assert Agrees(InFull(server, Chunk(day, i)), AllRows(server, day, batches));
        assert Agrees(InFull(server, Chunk(day, j)), AllRows(server, day, batches));
      }
    }
  }

  // ---- The loops of the program ----

  method MergePages(rows: Rows, pages: seq<Rows>) returns (merged: Rows)
    ensures merged == MergeAll(rows, pages) && rows.Keys <= merged.Keys
  {
    merged := rows;
    for i := 0 to |pages|
      invariant merged == MergeAll(rows, pages[..i]) && rows.Keys <= merged.Keys
    {
      assert pages[..i + 1][..i] == pages[..i];
      merged := merged + pages[i];
    }
    assert pages[..|pages|] == pages;
  }

  method RemoveEntries(chunks: seq<Entry>, day: int, index: nat) returns (rest: seq<Entry>)
    ensures rest == Without(chunks, day, index)
  {
    rest := [];
    for i := 0 to |chunks|
      invariant rest == Without(chunks[..i], day, index)
    {
      assert chunks[..i + 1][..i] == chunks[..i];
      if !Same(chunks[i], day, index) {
        rest := rest + [chunks[i]];
      }
    }
    assert chunks[..|chunks|] == chunks;
  }

  /** `save_baskets_detail_chunk`: rows of the chunk's day are merged, its ledger entry is replaced. */
  method SaveChunk(payload: Input, day: int, index: nat, rows: Rows, status: Status) returns (saved: Input)
    requires payload.chunks.Some?
    ensures saved == Input(
      payload.daily[day := RowsOf(payload.daily, day) + rows],
      Some(Without(payload.chunks.value, day, index) + [Daily(day, index, status)]))
  {
    var chunks := RemoveEntries(payload.chunks.value, day, index);
    saved := Input(payload.daily[day := RowsOf(payload.daily, day) + rows], Some(chunks + [Daily(day, index, status)]));
  }

  /** One request of one chunk, and what its callback saves. */
  method CollectChunk(
    server: Server, faults: Faults, before: Run, known: Rows, day: int, i: nat, found: Input)
    returns (rows: Rows, run: Run, payload: Input)
    requires Chunk(day, i) !in before.done
    requires found.chunks == Some(before.chunks) && RowsOf(found.daily, day).Keys <= known.Keys
    ensures DayRun(rows, run) == RunChunk(server, faults, DayRun(known, before), day, i)
    ensures payload == Input(found.daily[day := rows], Some(run.chunks))
  {
    var chunk := Chunk(day, i);
    var fault := faults(chunk);
    rows := MergePages(known, Arrived(server(chunk), fault));
    var chunks := RemoveEntries(before.chunks, day, i);
    if fault.Some? {
      run := before.(
        completed := before.completed + 1, requested := before.requested + [chunk], failed := before.failed + [chunk],
        chunks := chunks + [Daily(day, i, Failed)]);
    } else {
      run := before.(
        completed := before.completed + 1, requested := before.requested + [chunk], done := before.done + {chunk},
        chunks := chunks + [Daily(day, i, Done)]);
    }
    assert RowsOf(found.daily, day) + rows == rows;
    payload := SaveChunk(found, day, i, rows, if fault.Some? then Failed else Done);
  }

  /** The variables of a day's loop after i chunks. */
  ghost predicate InLoop(
    server: Server, faults: Faults, before: Run, day: int, i: nat, rows: Rows, run: Run, payload: Input) {
    && DayRun(rows, run) == RunChunks(server, faults, DayRun(RowsOf(before.daily, day), before), day, i)
    && payload == SavedChunks(server, faults, before, day, i)
    && run.daily == before.daily && payload.chunks == Some(run.chunks) && RowsOf(payload.daily, day) == rows
    && (Missing(before.done, day, i) == [] ==> run == before && payload.daily == before.daily)
    && (forall j: nat :: j >= i ==> (Chunk(day, j) in run.done <==> Chunk(day, j) in before.done))
  }

  lemma ChunkSkipped(
    server: Server, faults: Faults, before: Run, day: int, i: nat, rows: Rows, run: Run, payload: Input)
    requires InLoop(server, faults, before, day, i, rows, run, payload) && Chunk(day, i) in run.done
    ensures InLoop(server, faults, before, day, i + 1, rows, run, payload)
  {
    assert Missing(before.done, day, i + 1) == Missing(before.done, day, i);
  }

  lemma ChunkCollected(
    server: Server, faults: Faults, before: Run, day: int, i: nat, rows: Rows, run: Run, payload: Input,
    rows': Rows, run': Run, payload': Input)
    requires InLoop(server, faults, before, day, i, rows, run, payload) && Chunk(day, i) !in run.done
    requires DayRun(rows', run') == RunChunk(server, faults, DayRun(rows, run), day, i)
    requires payload' == Input(payload.daily[day := rows'], Some(run'.chunks))
    ensures InLoop(server, faults, before, day, i + 1, rows', run', payload')
  {
    assert Missing(before.done, day, i + 1) == Missing(before.done, day, i) + [Chunk(day, i)];
    assert payload.daily[day := rows'] == run'.daily[day := rows'];
  }

  /** The loop over the first n chunks of a day, and what its callback has saved. */
  method CollectChunks(server: Server, faults: Faults, before: Run, day: int, n: nat)
    returns (rows: Rows, run: Run, payload: Input)
    ensures DayRun(rows, run) == RunChunks(server, faults, DayRun(RowsOf(before.daily, day), before), day, n)
    ensures payload == SavedChunks(server, faults, before, day, n)
  {
    rows, run, payload := RowsOf(before.daily, day), before, Output(before);
    for i := 0 to n
      invariant InLoop(server, faults, before, day, i, rows, run, payload)
    {
      if Chunk(day, i) in run.done {
        ChunkSkipped(server, faults, before, day, i, rows, run, payload);
        continue;
      }
      var rows', run', payload' := CollectChunk(server, faults, run, rows, day, i, payload);
      ChunkCollected(server, faults, before, day, i, rows, run, payload, rows', run', payload');
      rows, run, payload := rows', run', payload';
    }
  }

  method FetchBasketsDailyDetail(server: Server, faults: Faults, input: Input, days: seq<int>, batches: nat)
    returns (run: Run)
    ensures run == RunDays(server, faults, input, days, batches)
  {
    run := Begin(input);
    for i := 0 to |days|
      invariant run == RunDays(server, faults, input, days[..i], batches)
    {
      var day := days[i];
      assert days[..i + 1][..i] == days[..i];
      if !Legacy(input, day) && !DayDone(run.done, day, batches) {
        var rows, payload;
        rows, run, payload := CollectChunks(server, faults, run, day, batches);
        run := run.(daily := run.daily[day := rows]);
      }
    }
    assert days[..|days|] == days;
  }

  /** A call that raises after n chunks of day k: what its callbacks leave behind. */
  method AbortedFetch(server: Server, faults: Faults, input: Input, days: seq<int>, batches: nat, k: nat, n: nat)
    returns (payload: Input)
    requires k < |days| && n <= batches
    ensures payload == LeftBy(server, Aborted(faults, k, n), input, days, batches)
  {
    var run := FetchBasketsDailyDetail(server, faults, input, days[..k], batches);
    payload := Output(run);
    if !Legacy(input, days[k]) && !DayDone(run.done, days[k], batches) {
      var rows;
      rows, run, payload := CollectChunks(server, faults, run, days[k], n);
    }
  }
}
