/**
 * Versioned notification preferences. `replace` is a compare-and-set on one locked row, and any call to the
 * database or to the guard may fail, the commit even after its effect is durable. A run interleaves any number of
 * calls; one event is one database or guard call of one of them.
 */
module Preferences {
  import opened Dicts
  import opened Keys
  import opened PreferenceVersions

  // ---- The stored row ----

  datatype Flags = Flags(email: bool, dailyDigest: bool, criticalAlerts: bool, telegram: bool)

  datatype Settings = Malformed | Settings(flags: Flags, chatId: Option<string>)

  datatype Stored = NoRow | Row(version: int, settings: Settings)

  datatype View = View(version: string, flags: Flags)

  predicate ValidVersion(version: int) {
    0 < version <= MAX_VERSION
  }

  function ViewOf(version: int, flags: Flags): View
    requires ValidVersion(version)
  {
    View(Decimal(version), flags)
  }

  predicate Readable(row: Stored) {
    row.Row? && row.settings.Settings? && ValidVersion(row.version)
  }

  predicate Expects(row: Stored, expected: int) {
    Readable(row) && row.version == expected < MAX_VERSION
  }

  // ---- One call ----

  datatype Request = Read | Replace(expected: int, flags: Flags)

  datatype Code = Denied | Conflict | Unavailable | ReadbackRequired

  datatype Lock = Free | Shared | Exclusive

  /** The next database or guard call. */
  datatype Point =
    | Opening       // session, tenant context, membership, guard
    | Locking       // SELECT ... FOR UPDATE or FOR SHARE
    | Revalidating  // guard, before the write
    | Updating      // UPDATE ... WHERE version = expected, audit row, flush
    | Fencing       // guard, before the commit
    | Committing
    | RollingBack
    | Closing
    | Ended

  /** How that call ends; `Lost` is an error after the call took effect. */
  datatype Reply = Fine | NoMember | Refused(denied: bool) | Broken | Lost

  /**
   * The locals of `_execute` and its transaction. `landed` is history: whether this call's write is durable.
   */
  datatype Session = Session(
    request: Request, point: Point, lock: Lock, pending: Option<Stored>,
    code: Option<Code>, result: Option<View>, committing: bool, failed: bool, landed: bool)

  predicate Writing(s: Session) {
    s.request.Replace?
  }

  /** The catch-all: an error once the commit was sent proves nothing about a write. */
  function Uncertain(s: Session): Code {
    if Writing(s) && s.committing then ReadbackRequired else Unavailable
  }

  function CodeFor(s: Session, reply: Reply): Code {
    match reply
    case NoMember => Denied
    case Refused(denied) => if denied then Denied else Unavailable
    case _ => Uncertain(s)
  }

  function Fail(s: Session, code: Code): Session {
    s.(code := Some(code), point := RollingBack)
  }

  /** A call that was answered leads on, an error to the handlers. */
  function Answered(s: Session, reply: Reply, next: Session): Session {
    if reply.Fine? then next else Fail(s, CodeFor(s, reply))
  }

  /** What is decided about the row once it is locked. */
  function Inspected(s: Session, row: Stored): Session {
    var locked := s.(lock := if Writing(s) then Exclusive else Shared);
    if !Readable(row) then Fail(locked, Unavailable)
    else if !Writing(s) then locked.(result := Some(ViewOf(row.version, row.settings.flags)), point := Fencing)
    else if row.version != s.request.expected then Fail(locked, Conflict)
    else if s.request.expected >= MAX_VERSION then Fail(locked, Unavailable)
    else locked.(result := Some(ViewOf(row.version + 1, s.request.flags)), point := Revalidating)
  }

  /** The new row: requested flags, the version after, and the destination it had. */
  function Replaced(row: Stored, expected: int, flags: Flags): Stored
    requires Expects(row, expected)
  {
    Row(expected + 1, Settings(flags, row.settings.chatId))
  }

  /** The UPDATE, which affects no row when the version has moved. */
  function Updated(s: Session, row: Stored): Session
    requires Writing(s)
  {
    if Expects(row, s.request.expected) then
      s.(pending := Some(Replaced(row, s.request.expected, s.request.flags)), point := Fencing)
    else Fail(s, Conflict)
  }

  /** The commit takes effect: locks go, and a pending row is durable. */
  function Committed(s: Session, code: Option<Code>): Session {
    s.(code := code, point := RollingBack, lock := Free, pending := None,
       landed := s.landed || (Writing(s) && s.pending.Some?))
  }

  function Closed(s: Session, reply: Reply): Session {
    s.(lock := Free, pending := None, point := Ended,
       code := if s.failed || !reply.Fine? then Some(Uncertain(s)) else s.code)
  }

  /** The call in progress ends with a reply; a session that is not granted its lock waits where it is. */
  function Next(s: Session, reply: Reply, row: Stored, granted: bool): Session {
    match s.point
    case Opening => Answered(s, reply, s.(point := Locking))
    case Locking => if reply.Fine? && !granted then s else Answered(s, reply, Inspected(s, row))
    case Revalidating => Answered(s, reply, s.(point := Updating))
    case Updating => if Writing(s) then Answered(s, reply, Updated(s, row)) else s
    case Fencing => Answered(s, reply, s.(committing := true, point := Committing))
    case Committing =>
      if reply.Fine? then Committed(s, None)
      else if reply.Lost? then Committed(s, Some(Uncertain(s)))
      else Answered(s, reply, s)
    case RollingBack =>
      if reply.Fine? then s.(lock := Free, pending := None, point := Closing) else s.(failed := true, point := Closing)
    case Closing => Closed(s, reply)
    case Ended => s
  }

  /** The reply that makes a write durable. */
  predicate Lands(s: Session, reply: Reply) {
    s.point.Committing? && (reply.Fine? || reply.Lost?) && Writing(s) && s.pending.Some?
  }

  // ---- Runs ----

  datatype Replacement = Replacement(session: nat, expected: int, flags: Flags)

  /** The durable row, the calls, and the history of durable replaces. */
  datatype World = World(stored: Stored, sessions: seq<Session>, log: seq<Replacement>)

  function Called(request: Request): Session {
    Session(request, Opening, Free, None, None, None, false, false, false)
  }

  ghost predicate Initial(w: World) {
    w.log == [] && forall s <- w.sessions ::
      s == Called(s.request) && (s.request.Replace? ==> ValidVersion(s.request.expected))
  }

  predicate Grantable(w: World, i: nat)
    requires i < |w.sessions|
  {
    forall j :: 0 <= j < |w.sessions| && j != i ==>
      w.sessions[j].lock.Free? || (w.sessions[j].lock.Shared? && !Writing(w.sessions[i]))
  }

  function Step(w: World, i: nat, reply: Reply): World {
    if i >= |w.sessions| then w else
      var s := w.sessions[i];
      var sessions := w.sessions[i := Next(s, reply, w.stored, Grantable(w, i))];
      if Lands(s, reply) then
        World(s.pending.value, sessions, w.log + [Replacement(i, s.request.expected, s.request.flags)])
      else w.(sessions := sessions)
  }

  datatype Event = Event(session: nat, reply: Reply)

  function Run(w: World, events: seq<Event>): World {
    if events == [] then w else
      Step(Run(w, events[..|events| - 1]), events[|events| - 1].session, events[|events| - 1].reply)
  }

  // ---- The sequential history ----

  /** The row after replaces that run one after another, each of which finds the version it expects. */
  ghost predicate Sequential(initial: Stored, log: seq<Replacement>, row: Stored) {
    if log == [] then row == initial else
      var front, last := log[..|log| - 1], log[|log| - 1];
      exists before :: Sequential(initial, front, before) && Follows(before, last, row)
  }

  ghost predicate Follows(before: Stored, r: Replacement, row: Stored) {
    Expects(before, r.expected) && row == Replaced(before, r.expected, r.flags)
  }

  lemma {:induction false} SequentialFacts(initial: Stored, log: seq<Replacement>, row: Stored)
    requires Sequential(initial, log, row)
    ensures log != [] ==> Readable(initial) && Readable(row)
    ensures log != [] ==> row.version == initial.version + |log| && row.settings.chatId == initial.settings.chatId
    ensures log != [] ==> row.settings.flags == log[|log| - 1].flags
    ensures forall k :: 0 <= k < |log| ==> log[k].expected == initial.version + k
  {
    if log != [] {
      var front := log[..|log| - 1];
      var before :| Sequential(initial, front, before) && Follows(before, log[|log| - 1], row);
      SequentialFacts(initial, front, before);
      assert forall k :: 0 <= k < |front| ==> log[k] == front[k];
    }
  }

  // ---- What every session keeps ----

  predicate Early(s: Session) {
    s.point in {Opening, Locking, Revalidating, Updating, Fencing, Committing}
  }

  /** Before the transaction ends nothing is decided, and reads have nothing to write. */
  ghost predicate Undecided(s: Session) {
    Early(s) ==>
      && s.code.None? && !s.landed && !s.failed
      && (s.committing <==> s.point.Committing?)
      && (s.point in {Opening, Locking} ==> s.pending.None?)
      && (!Writing(s) ==> s.pending.None? && s.point !in {Revalidating, Updating})
      && (!Writing(s) && s.point in {Fencing, Committing} ==> s.result.Some?)
  }

  /** A writer past its lock holds the row it expects, and knows what it will write and return. */
  ghost predicate Prepared(stored: Stored, s: Session) {
    Early(s) && Writing(s) && s.point !in {Opening, Locking} ==>
      && s.lock.Exclusive? && Expects(stored, s.request.expected)
      && s.result == Some(ViewOf(s.request.expected + 1, s.request.flags))
      && (s.point in {Fencing, Committing} ==>
           s.pending == Some(Replaced(stored, s.request.expected, s.request.flags)))
  }

  ghost predicate EarlyOk(stored: Stored, s: Session) {
    Undecided(s) && Prepared(stored, s)
  }

  /** Once it is ending, or has ended. */
  ghost predicate LateOk(s: Session) {
    !Early(s) ==>
      && (s.landed ==> Writing(s) && s.committing && ValidVersion(s.request.expected + 1))
      && (s.code.None? && !s.failed && Writing(s) ==>
           s.landed && s.result == Some(ViewOf(s.request.expected + 1, s.request.flags)))
      && (s.code.None? && !s.failed && !Writing(s) ==> s.result.Some?)
      && (s.code == Some(ReadbackRequired) ==> Writing(s) && s.committing)
      && (s.code.Some? && s.code != Some(ReadbackRequired) ==> !s.landed)
      && (s.point.Ended? && s.failed ==> s.code.Some?)
  }

  ghost predicate Locks(w: World) {
    forall i, j :: 0 <= i < |w.sessions| && 0 <= j < |w.sessions| && i != j && w.sessions[i].lock.Exclusive? ==>
      w.sessions[j].lock.Free?
  }

  ghost predicate Kept(w: World) {
    && Locks(w)
    && (forall s <- w.sessions :: EarlyOk(w.stored, s) && LateOk(s))
  }

  lemma NextRequest(s: Session, reply: Reply, row: Stored, granted: bool)
    ensures Next(s, reply, row, granted).request == s.request
  {
  }

  lemma StepLeavesOthers(w: World, i: nat, reply: Reply)
    ensures |Step(w, i, reply).sessions| == |w.sessions|
    ensures forall j :: 0 <= j < |w.sessions| && j != i ==> Step(w, i, reply).sessions[j] == w.sessions[j]
    ensures i < |w.sessions| ==> Step(w, i, reply).sessions[i].request == w.sessions[i].request
  {
    if i < |w.sessions| {
      NextRequest(w.sessions[i], reply, w.stored, Grantable(w, i));
    }
  }

  lemma NextLock(s: Session, reply: Reply, row: Stored, granted: bool)
    ensures var lock := Next(s, reply, row, granted).lock;
      || lock == s.lock || lock == Free || (granted && lock == if Writing(s) then Exclusive else Shared)
  {
  }

  lemma StepLocks(w: World, i: nat, reply: Reply)
    requires Locks(w)
    ensures Locks(Step(w, i, reply))
  {
    StepLeavesOthers(w, i, reply);
    if i < |w.sessions| {
      NextLock(w.sessions[i], reply, w.stored, Grantable(w, i));
    }
  }

  lemma NextUndecided(s: Session, reply: Reply, row: Stored, granted: bool)
    requires Undecided(s)
    ensures Undecided(Next(s, reply, row, granted))
    ensures Lands(s, reply) ==> !Early(Next(s, reply, row, granted))
  {
  }

  lemma NextPrepared(s: Session, reply: Reply, row: Stored, granted: bool)
    requires EarlyOk(row, s)
    ensures Prepared(row, Next(s, reply, row, granted))
  {
  }

  lemma NextLate(s: Session, reply: Reply, row: Stored, granted: bool)
    requires EarlyOk(row, s) && LateOk(s)
    ensures LateOk(Next(s, reply, row, granted))
  {
  }

  /** A row only changes under an exclusive lock, so no other writer is past its own lock. */
  lemma OthersKept(w: World, i: nat, reply: Reply, j: nat)
    requires Kept(w) && i < |w.sessions| && j < |w.sessions| && i != j
    ensures var after := Step(w, i, reply);
      after.sessions[j] == w.sessions[j] && EarlyOk(after.stored, w.sessions[j])
  {
    assert w.sessions[i] in w.sessions && w.sessions[j] in w.sessions;
    if Step(w, i, reply).stored != w.stored {
      assert w.sessions[i].lock.Exclusive?;
      assert w.sessions[j].lock.Free?;
    }
  }

  lemma StepKept(w: World, i: nat, reply: Reply)
    requires Kept(w)
    ensures Kept(Step(w, i, reply))
  {
    StepLocks(w, i, reply);
    if i < |w.sessions| {
      var after := Step(w, i, reply);
      forall s | s in after.sessions ensures EarlyOk(after.stored, s) && LateOk(s) {
        var j :| 0 <= j < |after.sessions| && after.sessions[j] == s;
        assert w.sessions[i] in w.sessions && w.sessions[j] in w.sessions;
        if j == i {
          NextUndecided(w.sessions[i], reply, w.stored, Grantable(w, i));
          NextPrepared(w.sessions[i], reply, w.stored, Grantable(w, i));
          NextLate(w.sessions[i], reply, w.stored, Grantable(w, i));
        } else {
          OthersKept(w, i, reply, j);
        }
      }
    }
  }

  /** A step either leaves row and history alone, or appends the one replace that the acting session had pending. */
  lemma StepHistory(w: World, i: nat, reply: Reply)
    requires Kept(w)
    ensures var after := Step(w, i, reply);
      || (after.stored == w.stored && after.log == w.log
          && (i < |w.sessions| ==> after.sessions[i].landed == w.sessions[i].landed))
      || (i < |w.sessions| && Writing(w.sessions[i]) && !w.sessions[i].landed && after.sessions[i].landed
          && var r := Replacement(i, w.sessions[i].request.expected, w.sessions[i].request.flags);
             after.log == w.log + [r] && Follows(w.stored, r, after.stored))
  {
    if i < |w.sessions| {
      assert w.sessions[i] in w.sessions;
    }
  }

  /** The history lists exactly the sessions whose write is durable. */
  ghost predicate Linked(w: World) {
    && (forall r <- w.log :: r.session < |w.sessions| && w.sessions[r.session].landed
                             && w.sessions[r.session].request == Replace(r.expected, r.flags))
    && (forall j :: 0 <= j < |w.sessions| && w.sessions[j].landed ==> InLog(w.log, j))
  }

  ghost predicate InLog(log: seq<Replacement>, session: nat) {
    exists r :: r in log && r.session == session
  }

  lemma StepLinked(w: World, i: nat, reply: Reply)
    requires Kept(w) && Linked(w)
    ensures Linked(Step(w, i, reply))
  {
    var after := Step(w, i, reply);
    StepHistory(w, i, reply);
    StepLeavesOthers(w, i, reply);
    forall j | 0 <= j < |after.sessions| && after.sessions[j].landed ensures InLog(after.log, j) {
      if w.sessions[j].landed {
        var r :| r in w.log && r.session == j;
        assert r in after.log;
      } else {
        assert after.log[|w.log|] in after.log;
      }
    }
  }

  lemma StepSequential(initial: Stored, w: World, i: nat, reply: Reply)
    requires Kept(w) && Sequential(initial, w.log, w.stored)
    ensures Sequential(initial, Step(w, i, reply).log, Step(w, i, reply).stored)
  {
    StepHistory(w, i, reply);
    var after := Step(w, i, reply);
    if after.log != w.log {
      assert after.log[..|w.log|] == w.log;
    }
  }

  /** A read saw the row after some prefix of the history. */
  ghost predicate ReadOk(initial: Stored, log: seq<Replacement>, s: Session) {
    !Writing(s) && s.result.Some? ==> exists k: nat, row :: Seen(initial, log, k, row, s.result.value)
  }

  ghost predicate Seen(initial: Stored, log: seq<Replacement>, k: nat, row: Stored, view: View) {
    k <= |log| && Sequential(initial, log[..k], row) && Readable(row) && view == ViewOf(row.version, row.settings.flags)
  }

  lemma StepRead(initial: Stored, w: World, i: nat, reply: Reply, j: nat)
    requires Kept(w) && Sequential(initial, w.log, w.stored)
    requires j < |w.sessions| && ReadOk(initial, w.log, w.sessions[j])
    ensures j < |Step(w, i, reply).sessions| && ReadOk(initial, Step(w, i, reply).log, Step(w, i, reply).sessions[j])
  {
    var after := Step(w, i, reply);
    StepHistory(w, i, reply);
    StepLeavesOthers(w, i, reply);
    var s := w.sessions[j];
    if !Writing(s) && after.sessions[j].result.Some? {
      if after.sessions[j].result == s.result {
        var k: nat, row :| Seen(initial, w.log, k, row, s.result.value);
        assert after.log[..k] == w.log[..k];
        assert Seen(initial, after.log, k, row, s.result.value);
      } else {
        NewlyRead(w, i, reply);
        assert w.log[..|w.log|] == w.log;
        assert Seen(initial, after.log, |w.log|, w.stored, after.sessions[j].result.value);
      }
    }
  }

  lemma NewlyRead(w: World, i: nat, reply: Reply)
    requires i < |w.sessions| && !Writing(w.sessions[i])
    requires EarlyOk(w.stored, w.sessions[i])
    requires Step(w, i, reply).sessions[i].result != w.sessions[i].result
    ensures Step(w, i, reply).log == w.log && Readable(w.stored)
    ensures Step(w, i, reply).sessions[i].result == Some(ViewOf(w.stored.version, w.stored.settings.flags))
  {
  }

  lemma {:induction false} RunKept(w: World, events: seq<Event>)
    requires Initial(w)
    ensures var after := Run(w, events);
      && |after.sessions| == |w.sessions|
      && Kept(after) && Linked(after) && Sequential(w.stored, after.log, after.stored)
      && (forall j :: 0 <= j < |w.sessions| ==>
           after.sessions[j].request == w.sessions[j].request && ReadOk(w.stored, after.log, after.sessions[j]))
  {
    if events != [] {
      var front, last := events[..|events| - 1], events[|events| - 1];
      RunKept(w, front);
      var before := Run(w, front);
      StepKept(before, last.session, last.reply);
      StepLinked(before, last.session, last.reply);
      StepSequential(w.stored, before, last.session, last.reply);
      StepLeavesOthers(before, last.session, last.reply);
      forall j | 0 <= j < |w.sessions| ensures ReadOk(w.stored, Run(w, events).log, Run(w, events).sessions[j]) {
        StepRead(w.stored, before, last.session, last.reply, j);
      }
    }
  }

  // ---- What callers may conclude ----

  /**
   * The row after any run is the one that the durable replaces make one after another: the version counts them,
   * the destination is never touched, and no version is replaced twice.
   */
  lemma DurableReplacesAreSequential(w: World, events: seq<Event>)
    requires Initial(w)
    ensures var after := Run(w, events);
      && Sequential(w.stored, after.log, after.stored)
      && (after.log == [] ==> after.stored == w.stored)
      && (after.log != [] ==>
           && Readable(w.stored) && Readable(after.stored)
           && after.stored.version == w.stored.version + |after.log|
           && after.stored.settings.flags == after.log[|after.log| - 1].flags
           && after.stored.settings.chatId == w.stored.settings.chatId)
      && (forall k, l :: 0 <= k < l < |after.log| ==> after.log[k].expected != after.log[l].expected)
  {
    RunKept(w, events);
    SequentialFacts(w.stored, Run(w, events).log, Run(w, events).stored);
  }

  /** Two replaces that expect the same version never both take effect. */
  lemma NoSharedVersion(w: World, events: seq<Event>, i: nat, j: nat)
    requires Initial(w) && i < |w.sessions| && j < |w.sessions| && i != j
    ensures var after := Run(w, events);
      && |after.sessions| == |w.sessions|
      && (after.sessions[i].landed && after.sessions[j].landed ==>
           && w.sessions[i].request.Replace? && w.sessions[j].request.Replace?
           && w.sessions[i].request.expected != w.sessions[j].request.expected)
  {
    RunKept(w, events);
    var after := Run(w, events);
    if after.sessions[i].landed && after.sessions[j].landed {
      DurableReplacesAreSequential(w, events);
      var r :| r in after.log && r.session == i;
      var t :| t in after.log && t.session == j;
      assert r != t;
    }
  }

  /**
   * A returned result is committed: a write under the next version with the flags asked for, a read of a row that
   * some replace left. Every error but READBACK_REQUIRED means that this call changed nothing, and only writes get
   * that one.
   */
  lemma OutcomesAreSound(w: World, events: seq<Event>, i: nat)
    requires Initial(w) && i < |w.sessions|
    ensures var after := Run(w, events);
      && |after.sessions| == |w.sessions|
      && var s := after.sessions[i];
      && s.request == w.sessions[i].request
      && (s.landed <==> InLog(after.log, i))
      && (s.point.Ended? && s.code.None? && Writing(s) ==>
           s.landed && ValidVersion(s.request.expected + 1)
           && s.result == Some(ViewOf(s.request.expected + 1, s.request.flags)))
      && (s.point.Ended? && s.code.None? && !Writing(s) ==>
           s.result.Some? && exists k: nat, row :: Seen(w.stored, after.log, k, row, s.result.value))
      && (s.point.Ended? && s.code.Some? && s.code != Some(ReadbackRequired) ==> !s.landed)
      && (s.point.Ended? && s.code == Some(ReadbackRequired) ==> Writing(s))
      && (!Writing(s) ==> !s.landed)
  {
    RunKept(w, events);
    assert Run(w, events).sessions[i] in Run(w, events).sessions;
  }

  // ---- An undisturbed replace ----

  /** The first calls of the only session, all answered. */
  function Fines(n: nat): seq<Event> {
    if n == 0 then [] else Fines(n - 1) + [Event(0, Fine)]
  }

  function Alone(row: Stored, request: Request): World {
    World(row, [Called(request)], [])
  }

  lemma RunAppend(w: World, events: seq<Event>, e: Event)
    ensures Run(w, events + [e]) == Step(Run(w, events), e.session, e.reply)
  {
    assert (events + [e])[..|events|] == events;
  }

  /** The session of a replace whose commit was sent. */
  function Sent(row: Stored, expected: int, flags: Flags): Session
    requires Expects(row, expected)
  {
    Called(Replace(expected, flags)).(
      point := Committing, lock := Exclusive, committing := true,
      result := Some(ViewOf(expected + 1, flags)), pending := Some(Replaced(row, expected, flags)))
  }

  lemma AloneUntilLocked(row: Stored, expected: int, flags: Flags)
    requires Expects(row, expected)
    ensures Run(Alone(row, Replace(expected, flags)), Fines(2))
         == World(row, [Sent(row, expected, flags).(point := Revalidating, committing := false, pending := None)], [])
  {
    var w := Alone(row, Replace(expected, flags));
    RunAppend(w, Fines(0), Event(0, Fine));
    assert Run(w, Fines(1)) == World(row, [w.sessions[0].(point := Locking)], []);
    RunAppend(w, Fines(1), Event(0, Fine));
  }

  lemma AloneUntilSent(row: Stored, expected: int, flags: Flags)
    requires Expects(row, expected)
    ensures Run(Alone(row, Replace(expected, flags)), Fines(5)) == World(row, [Sent(row, expected, flags)], [])
  {
    var w := Alone(row, Replace(expected, flags));
    var sent := Sent(row, expected, flags);
    AloneUntilLocked(row, expected, flags);
    RunAppend(w, Fines(2), Event(0, Fine));
    assert Run(w, Fines(3)) == World(row, [sent.(point := Updating, committing := false, pending := None)], []);
    RunAppend(w, Fines(3), Event(0, Fine));
    assert Run(w, Fines(4)) == World(row, [sent.(point := Fencing, committing := false)], []);
    RunAppend(w, Fines(4), Event(0, Fine));
  }

  function Script(commit: Reply): seq<Event> {
    Fines(5) + [Event(0, commit)] + [Event(0, Fine)] + [Event(0, Fine)]
  }

  /** The commit is answered. */
  lemma CommitAnswered(row: Stored, expected: int, flags: Flags, commit: Reply)
    requires Expects(row, expected) && !commit.NoMember?
    ensures var w, s := Alone(row, Replace(expected, flags)), Sent(row, expected, flags);
      Run(w, Fines(5) + [Event(0, commit)]) ==
        if commit.Fine? || commit.Lost? then
          World(Replaced(row, expected, flags), [Committed(s, CommitCode(commit))], [Replacement(0, expected, flags)])
        else World(row, [s.(code := CommitCode(commit), point := RollingBack)], [])
  {
    AloneUntilSent(row, expected, flags);
    RunAppend(Alone(row, Replace(expected, flags)), Fines(5), Event(0, commit));
  }

  function CommitCode(commit: Reply): Option<Code> {
    match commit
    case Fine => None
    case Refused(denied) => Some(if denied then Denied else Unavailable)
    case _ => Some(ReadbackRequired)
  }

  /** The transaction ends without further faults. */
  lemma Ending(w: World, s: Session, closed: Session)
    requires w.sessions == [s] && s.point.RollingBack? && !s.failed
    requires closed == s.(lock := Free, pending := None, point := Ended)
    ensures Step(Step(w, 0, Fine), 0, Fine) == w.(sessions := [closed])
  {
    assert Step(w, 0, Fine) == w.(sessions := [s.(lock := Free, pending := None, point := Closing)]);
  }

  /**
   * A replace that finds its version and meets no fault before the commit: what the commit answers decides whether
   * the row changed and what the caller learns, and READBACK_REQUIRED covers both.
   */
  lemma CommitDecides(row: Stored, expected: int, flags: Flags, commit: Reply)
    requires Expects(row, expected) && !commit.NoMember?
    ensures var after := Run(Alone(row, Replace(expected, flags)), Script(commit));
      && after.stored == (if commit.Fine? || commit.Lost? then Replaced(row, expected, flags) else row)
      && |after.sessions| == 1 && after.sessions[0].point.Ended?
      && after.sessions[0].code == (
           match commit
           case Fine => None
           case Refused(denied) => Some(if denied then Denied else Unavailable)
           case _ => Some(ReadbackRequired))
  {
    var w, sent := Alone(row, Replace(expected, flags)), Fines(5) + [Event(0, commit)];
    CommitAnswered(row, expected, flags, commit);
    var s := Run(w, sent).sessions[0];
    Ending(Run(w, sent), s, s.(lock := Free, pending := None, point := Ended));
    RunAppend(w, sent, Event(0, Fine));
    RunAppend(w, sent + [Event(0, Fine)], Event(0, Fine));
  }

  // ---- A call without any fault ----

  /** What the caller learns, and the row afterwards. */
  datatype Answer = Answer(code: Option<Code>, view: Option<View>, stored: Stored)

  /** A row is there, was written by this service, and has a version that can be shown. */
  predicate Legible(row: Stored) {
    row.Row? && row.settings != Malformed && 0 < row.version && row.version <= MAX_VERSION
  }

  /**
   * A read shows version and flags. A replace of the version that is there stores the flags under the next version and
   * shows that; of another version it is a conflict. A row that cannot be read, or is at the last version, is
   * unavailable, and nothing changes.
   */
  function Expected(row: Stored, request: Request): Answer {
    if !Legible(row) then Answer(Some(Unavailable), None, row)
    else
      match request
      case Read => Answer(None, Some(View(Decimal(row.version), row.settings.flags)), row)
      case Replace(expected, flags) =>
        if expected != row.version then Answer(Some(Conflict), None, row)
        else if row.version == MAX_VERSION then Answer(Some(Unavailable), None, row)
        else Answer(None, Some(View(Decimal(row.version + 1), flags)),
          Row(row.version + 1, Settings(flags, row.settings.chatId)))
  }

  lemma OneMoreFine(w: World, n: nat)
    requires n > 0
    ensures Run(w, Fines(n)) == Step(Run(w, Fines(n - 1)), 0, Fine)
  {
    RunAppend(w, Fines(n - 1), Event(0, Fine));
  }

  lemma AloneInspected(row: Stored, request: Request)
    ensures Run(Alone(row, request), Fines(2)) ==
      World(row, [Inspected(Called(request).(point := Locking), row)], [])
  {
    var w := Alone(row, request);
    OneMoreFine(w, 1);
    assert Run(w, Fines(1)) == World(row, [Called(request).(point := Locking)], []);
    OneMoreFine(w, 2);
  }

  /** From the end of the transaction on, further replies only end the call. */
  lemma AloneEnds(w: World, n: nat, before: World, s: Session, last: nat)
    requires before == Run(w, Fines(n)) && before.sessions == [s] && s.point.RollingBack? && !s.failed
    requires n + 2 <= last
    ensures Run(w, Fines(last)) == before.(sessions := [s.(lock := Free, pending := None, point := Ended)])
  {
    var closed := s.(lock := Free, pending := None, point := Ended);
    TwoMoreFines(w, n);
    Ending(before, s, closed);
    StaysEnded(w, n + 2, before.(sessions := [closed]), last);
  }

  lemma TwoMoreFines(w: World, n: nat)
    ensures Run(w, Fines(n + 2)) == Step(Step(Run(w, Fines(n)), 0, Fine), 0, Fine)
  {
    OneMoreFine(w, n + 1);
    OneMoreFine(w, n + 2);
  }

  lemma {:induction false} StaysEnded(w: World, n: nat, ended: World, last: nat)
    requires n <= last && Run(w, Fines(n)) == ended && |ended.sessions| == 1 && ended.sessions[0].point.Ended?
    ensures Run(w, Fines(last)) == ended
    decreases last - n
  {
    if n < last {
      OneMoreFine(w, n + 1);
      EndedStays(ended);
      StaysEnded(w, n + 1, ended, last);
    }
  }

  lemma EndedStays(w: World)
    requires |w.sessions| == 1 && w.sessions[0].point.Ended?
    ensures Step(w, 0, Fine) == w
  {
    assert w.sessions[0 := w.sessions[0]] == w.sessions;
  }

  /** One more answered call of the only session, when it makes nothing durable. */
  lemma AloneAdvances(w: World, n: nat, before: World, s: Session, next: Session)
    requires before == Run(w, Fines(n)) && before.sessions == [s] && !Lands(s, Fine)
    requires next == Next(s, Fine, before.stored, true)
    ensures Run(w, Fines(n + 1)) == before.(sessions := [next])
  {
    OneMoreFine(w, n + 1);
    assert Grantable(before, 0);
  }

  lemma AloneRead(row: Stored, read: Session)
    requires Readable(row)
    requires read == Called(Read).(lock := Shared, result := Some(ViewOf(row.version, row.settings.flags)),
      committing := true, point := Committing)
    ensures Run(Alone(row, Read), Fines(4)) == World(row, [Committed(read, None)], [])
  {
    var w, before := Alone(row, Read), read.(committing := false, point := Fencing);
    AloneInspected(row, Read);
    AloneAdvances(w, 2, World(row, [before], []), before, read);
    AloneAdvances(w, 3, World(row, [read], []), read, Committed(read, None));
  }

  lemma AloneReplaced(row: Stored, expected: int, flags: Flags)
    requires Expects(row, expected)
    ensures Run(Alone(row, Replace(expected, flags)), Fines(6)) ==
      World(Replaced(row, expected, flags), [Committed(Sent(row, expected, flags), None)],
        [Replacement(0, expected, flags)])
  {
    CommitAnswered(row, expected, flags, Fine);
    OneMoreFine(Alone(row, Replace(expected, flags)), 6);
  }

  /** A call that ended with a code and a row. */
  ghost predicate EndsAs(after: World, answer: Answer) {
    && |after.sessions| == 1 && after.sessions[0].point.Ended?
    && after.stored == answer.stored && after.sessions[0].code == answer.code
    && (answer.code.None? ==> after.sessions[0].result == answer.view)
  }

  lemma RefusedInspection(row: Stored, request: Request, s: Session)
    requires s == Inspected(Called(request).(point := Locking), row) && s.point.RollingBack?
    ensures !s.failed && s.code.Some? && Expected(row, request) == Answer(s.code, None, row)
  {
  }

  lemma UndisturbedFailure(row: Stored, request: Request, s: Session)
    requires s == Inspected(Called(request).(point := Locking), row) && s.point.RollingBack?
    ensures EndsAs(Run(Alone(row, request), Fines(8)), Expected(row, request))
  {
    var w := Alone(row, request);
    AloneInspected(row, request);
    RefusedInspection(row, request, s);
    AloneEnds(w, 2, World(row, [s], []), s, 8);
  }

  lemma UndisturbedRead(row: Stored)
    requires Readable(row)
    ensures EndsAs(Run(Alone(row, Read), Fines(8)), Expected(row, Read))
  {
    var read := Called(Read).(lock := Shared, result := Some(ViewOf(row.version, row.settings.flags)),
      committing := true, point := Committing);
    AloneRead(row, read);
    AloneEnds(Alone(row, Read), 4, World(row, [Committed(read, None)], []), Committed(read, None), 8);
  }

  lemma UndisturbedReplace(row: Stored, expected: int, flags: Flags)
    requires Expects(row, expected)
    ensures EndsAs(Run(Alone(row, Replace(expected, flags)), Fines(8)), Expected(row, Replace(expected, flags)))
  {
    var w := Alone(row, Replace(expected, flags));
    AloneReplaced(row, expected, flags);
    AloneEnds(w, 6, Run(w, Fines(6)), Committed(Sent(row, expected, flags), None), 8);
  }

  /** Alone and without faults a call ends as expected. */
  lemma UndisturbedCall(row: Stored, request: Request)
    ensures EndsAs(Run(Alone(row, request), Fines(8)), Expected(row, request))
  {
    var s := Inspected(Called(request).(point := Locking), row);
    if s.point.RollingBack? {
      UndisturbedFailure(row, request, s);
    } else {
      match request
      case Read => UndisturbedRead(row);
      case Replace(expected, flags) => UndisturbedReplace(row, expected, flags);
    }
  }

  // ---- Faults ----

  /** The code for a fault before the transaction ends: of the commit, or of a call before it. */
  function FaultCode(request: Request, commit: bool, reply: Reply): Code {
    if Denies(reply) then Denied
    else if commit && request.Replace? && !reply.Refused? then ReadbackRequired
    else Unavailable
  }

  predicate Denies(reply: Reply) {
    reply == NoMember || reply == Refused(true)
  }

  lemma {:induction false} SessionsKept(w: World, events: seq<Event>)
    ensures |Run(w, events).sessions| == |w.sessions|
  {
    if events != [] {
      SessionsKept(w, events[..|events| - 1]);
    }
  }

  /** A session after the first k events. */
  function SessionAt(w: World, events: seq<Event>, i: nat, k: nat): Session
    requires i < |w.sessions| && k <= |events|
  {
    SessionsKept(w, events[..k]);
    Run(w, events[..k]).sessions[i]
  }

  /** In event k a call of session i fails before its transaction ends. */
  ghost predicate FaultAt(w: World, events: seq<Event>, i: nat, k: nat)
    requires i < |w.sessions|
  {
    k < |events| && events[k].session == i && !events[k].reply.Fine? && Early(SessionAt(w, events, i, k))
  }

  /** In event k the session ends its transaction or closes, and that fails. */
  ghost predicate UntidyAt(w: World, events: seq<Event>, i: nat, k: nat)
    requires i < |w.sessions|
  {
    k < |events| && events[k].session == i && !events[k].reply.Fine? && !Early(SessionAt(w, events, i, k))
  }

  ghost predicate Tidy(w: World, events: seq<Event>, i: nat)
    requires i < |w.sessions|
  {
    forall k: nat :: k < |events| ==> !UntidyAt(w, events, i, k)
  }

  /** What a reply does to the code of a session, early and late. */
  ghost predicate Coded(s: Session, reply: Reply, next: Session) {
    && (Early(s) && !reply.Fine? ==>
         !Early(next) && !next.failed && next.code == Some(FaultCode(s.request, s.point.Committing?, reply)))
    && (Early(s) && reply.Fine? ==> next.code != Some(Denied))
    && (!Early(s) ==> !Early(next) && (next.code == Some(Denied) ==> s.code == Some(Denied)))
    && (!Early(s) && reply.Fine? && !s.failed ==> !next.failed && next.code == s.code)
  }

  lemma NextCoded(s: Session, reply: Reply, row: Stored, granted: bool)
    requires Undecided(s)
    ensures Coded(s, reply, Next(s, reply, row, granted))
  {
  }

  /** What the last event does to a session. */
  lemma LastEvent(w: World, events: seq<Event>, i: nat)
    requires Initial(w) && i < |w.sessions| && events != []
    ensures var n := |events| - 1;
      var s, after := SessionAt(w, events, i, n), SessionAt(w, events, i, |events|);
      && s.request == after.request == w.sessions[i].request
      && if events[n].session == i then Coded(s, events[n].reply, after) else after == s
  {
    var n := |events| - 1;
    var before, last := Run(w, events[..n]), events[n];
    RunKept(w, events[..n]);
    assert events[..|events|] == events;
    StepLeavesOthers(before, last.session, last.reply);
    if last.session == i {
      assert before.sessions[i] in before.sessions;
      NextCoded(before.sessions[i], last.reply, before.stored, Grantable(before, i));
    }
  }

  /** What a shorter run did is part of the longer one. */
  lemma Earlier(w: World, events: seq<Event>, i: nat, k: nat)
    requires i < |w.sessions| && k < |events| - 1
    ensures var front := events[..|events| - 1];
      FaultAt(w, front, i, k) == FaultAt(w, events, i, k) && UntidyAt(w, front, i, k) == UntidyAt(w, events, i, k)
  {
    assert events[..|events| - 1][..k] == events[..k];
  }

  lemma TidyBefore(w: World, events: seq<Event>, i: nat)
    requires i < |w.sessions| && events != [] && Tidy(w, events, i)
    ensures Tidy(w, events[..|events| - 1], i) && !UntidyAt(w, events, i, |events| - 1)
  {
    var front := events[..|events| - 1];
    forall k: nat | k < |front| ensures !UntidyAt(w, front, i, k) {
      Earlier(w, events, i, k);
    }
  }

  /**
   * In every interleaving the first fault of a call decides what its caller learns: no membership and a refusal of the
   * guard are DENIED, a lost commit of a write READBACK_REQUIRED, everything else UNAVAILABLE, as long as ending
   * the transaction and closing do not fail as well.
   */
  lemma {:induction false} FaultDecides(w: World, events: seq<Event>, i: nat, k: nat)
    requires Initial(w) && i < |w.sessions| && FaultAt(w, events, i, k)
    ensures var s := SessionAt(w, events, i, |events|);
      && !Early(s)
      && (Tidy(w, events, i) ==> !s.failed)
      && (Tidy(w, events, i) ==>
           s.code == Some(FaultCode(s.request, SessionAt(w, events, i, k).point.Committing?, events[k].reply)))
  {
    var n := |events| - 1;
    LastEvent(w, events, i);
    if k < n {
      Earlier(w, events, i, k);
      assert events[..n][..n] == events[..n] && events[..n][..k] == events[..k];
      FaultDecides(w, events[..n], i, k);
      if Tidy(w, events, i) {
        TidyBefore(w, events, i);
      }
    }
  }

  lemma StartedWithoutCode(w: World, events: seq<Event>, i: nat)
    requires Initial(w) && i < |w.sessions|
    ensures events == [] ==> SessionAt(w, events, i, |events|).code.None?
  {
    assert w.sessions[i] in w.sessions;
  }

  /** Only a call that was denied ends as DENIED. */
  lemma {:induction false} DeniedWasRefused(w: World, events: seq<Event>, i: nat) returns (k: nat)
    requires Initial(w) && i < |w.sessions| && SessionAt(w, events, i, |events|).code == Some(Denied)
    ensures FaultAt(w, events, i, k) && Denies(events[k].reply)
  {
    StartedWithoutCode(w, events, i);
    if events != [] {
      k := |events| - 1;
      LastEvent(w, events, i);
      var s := SessionAt(w, events, i, k);
      if s.code == Some(Denied) {
        assert events[..k][..k] == events[..k];
        k := DeniedWasRefused(w, events[..k], i);
        Earlier(w, events, i, k);
      }
    }
  }
}
