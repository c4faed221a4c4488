/** The published index of one dataset: a writer that replaces the dataset without taking any
    lock, materialisers that build the index file of a dataset version under a lock file, and
    the query threads of any number of store processes, which reach an index file through their
    process's timed snapshot cache and their own connection.

    One `Act` event is one file-system, clock or cache access of one thread, so any other thread
    can run between two of them. A request that raises or times out leaves its thread idle; a
    thread can also crash at any point, and whatever lock it held then stays taken. */
module IndexProtocol {
  import opened Wrappers
  import ReadModel
  import Sorting

  /******* State *******/

  // A thread of a process. The store processes' threads share their process's snapshot cache.
  datatype Tid = Tid(process: nat, thread: nat)

  // A dataset file as published at the instant `since`.
  datatype Version = Version(mtime: nat, content: ReadModel.Payload, since: nat)

  datatype Snapshot = Snapshot(mtime: nat, checkedAt: nat)

  // A connection keeps reading the file it was made on, even once that file is unlinked.
  datatype Connection = Connection(mtime: nat, rows: seq<ReadModel.Row>, open: bool)

  // Where a materialisation returns to: a plain caller, or the store thread that asked for a
  // snapshot of `mtime` when its clock showed `start`.
  datatype Caller = Plain | ForQuery(start: nat, mtime: nat)

  datatype Pc =
    | Idle
    // _ensure_snapshot
    | GotCached(cached: Option<Snapshot>)
    | NeedStat(start: nat)
    | WantStoreLock(start: nat, mtime: nat)
    | CheckCache(start: nat, mtime: nat)
    | CheckIndex(start: nat, mtime: nat)
    | StoreSnapshot(start: nat, mtime: nat)
    // materialize_dataset_read_model
    | StatOutside(caller: Caller)
    | CheckOutside(caller: Caller, seen: nat)
    | WantFileLock(caller: Caller, since: nat)
    | StatInside(caller: Caller)
    | CheckInside(caller: Caller, seen: nat)
    | ReadDataset(caller: Caller, seen: nat)
    | Insert(caller: Caller, seen: nat, todo: seq<ReadModel.Row>, temp: seq<ReadModel.Row>)
    | Publish(caller: Caller, seen: nat, temp: seq<ReadModel.Row>)
    | Cleanup(caller: Caller, seen: nat)
    | Release(caller: Caller, failed: bool)
    // _connection_for, and the SELECT
    | HaveSnapshot(start: nat, snapshot: Snapshot)
    | Select(start: nat, snapshot: Snapshot)
    // `holding`: whether the thread died inside the file lock
    | Dead(holding: bool)

  datatype Thread = Thread(pc: Pc, connection: Option<Connection>)

  datatype Store = Store(cache: Option<Snapshot>, holder: Option<Tid>)

  // An answered query: when its clock was read, when it was answered, and from which rows.
  datatype Answer = Answer(start: nat, finish: nat, rows: seq<ReadModel.Row>)

  datatype State = State(
    clock: nat,
    history: seq<Version>,
    index: map<nat, seq<ReadModel.Row>>,
    fileLock: Option<Tid>,
    stores: map<nat, Store>,
    threads: map<Tid, Thread>,
    answers: seq<Answer>)

  datatype Config = Config(recheck: nat, lockTimeout: nat)

  datatype Event =
    | Tick(ns: nat)
    | Rewrite(mtime: nat, content: ReadModel.Payload)
    | StartQuery(t: Tid)
    | StartMaterialize(t: Tid)
    | Act(t: Tid)
    | RemoveOld(t: Tid, mtime: nat)
    | Crash(t: Tid)

  const INIT := State(0, [], map[], None, map[], map[], [])

  function ThreadOf(s: State, t: Tid): Thread {
    if t in s.threads then s.threads[t] else Thread(Idle, None)
  }

  function StoreOf(s: State, process: nat): Store {
    if process in s.stores then s.stores[process] else Store(None, None)
  }

  function Goto(s: State, t: Tid, pc: Pc): State {
    s.(threads := s.threads[t := ThreadOf(s, t).(pc := pc)])
  }

  function SetStore(s: State, process: nat, store: Store): State {
    s.(stores := s.stores[process := store])
  }

  /******* Steps *******/

  // Rows inserted one by one; a repeated id violates the primary key.
  predicate InsertFails(temp: seq<ReadModel.Row>, row: ReadModel.Row) {
    exists i :: 0 <= i < |temp| && temp[i].id == row.id
  }

  // The end of a materialisation: a plain caller is done, a query caches its snapshot.
  function Return(s: State, t: Tid, caller: Caller): State {
    match caller
    case Plain => Goto(s, t, Idle)
    case ForQuery(start, mtime) => Goto(s, t, StoreSnapshot(start, mtime))
  }

  // An exception: leaving the `with` block gives the process's snapshot lock back.
  function Raise(s: State, t: Tid, caller: Caller): State {
    var s' := Goto(s, t, Idle);
    if caller.Plain? then s' else SetStore(s', t.process, StoreOf(s, t.process).(holder := None))
  }

  function ActSnapshot(s: State, t: Tid, c: Config): State {
    var store := StoreOf(s, t.process);
    match ThreadOf(s, t).pc
    case GotCached(cached) =>
      if cached.Some? && s.clock <= cached.value.checkedAt + c.recheck
      then Goto(s, t, HaveSnapshot(s.clock, cached.value))
      else Goto(s, t, NeedStat(s.clock))
    case NeedStat(start) =>
      if s.history == [] then Goto(s, t, Idle)
      else Goto(s, t, WantStoreLock(start, s.history[|s.history| - 1].mtime))
    case WantStoreLock(start, mtime) =>
      if store.holder.Some? then s
      else Goto(SetStore(s, t.process, store.(holder := Some(t))), t, CheckCache(start, mtime))
    case CheckCache(start, mtime) =>
      if store.cache.Some? && store.cache.value.mtime == mtime && mtime in s.index
         && start <= store.cache.value.checkedAt + c.recheck
      then Goto(SetStore(s, t.process, store.(holder := None)), t, HaveSnapshot(start, store.cache.value))
      else Goto(s, t, CheckIndex(start, mtime))
    case CheckIndex(start, mtime) =>
      if mtime in s.index then Goto(s, t, StoreSnapshot(start, mtime))
      else Goto(s, t, StatOutside(ForQuery(start, mtime)))
    case StoreSnapshot(start, mtime) =>
      var snapshot := Snapshot(mtime, start);
      Goto(SetStore(s, t.process, Store(Some(snapshot), None)), t, HaveSnapshot(start, snapshot))
    case _ => s
  }

  function ActLocking(s: State, t: Tid, c: Config): State {
    match ThreadOf(s, t).pc
    case StatOutside(caller) =>
      if s.history == [] then Raise(s, t, caller)
      else Goto(s, t, CheckOutside(caller, s.history[|s.history| - 1].mtime))
    case CheckOutside(caller, seen) =>
      if seen in s.index then Return(s, t, caller) else Goto(s, t, WantFileLock(caller, s.clock))
    case WantFileLock(caller, since) =>
      if s.fileLock.None? then Goto(s.(fileLock := Some(t)), t, StatInside(caller))
      else if since + c.lockTimeout <= s.clock then Raise(s, t, caller)
      else s
    case Release(caller, failed) =>
      var s' := s.(fileLock := None);
      if failed then Raise(s', t, caller) else Return(s', t, caller)
    case _ => s
  }

  function ActBuilding(s: State, t: Tid): State {
    match ThreadOf(s, t).pc
    case StatInside(caller) =>
      if s.history == [] then Goto(s, t, Release(caller, true))
      else Goto(s, t, CheckInside(caller, s.history[|s.history| - 1].mtime))
    case CheckInside(caller, seen) =>
      Goto(s, t, if seen in s.index then Release(caller, false) else ReadDataset(caller, seen))
    case ReadDataset(caller, seen) =>
      if s.history == [] || s.history[|s.history| - 1].content.Malformed? then Goto(s, t, Release(caller, true))
      else Goto(s, t, Insert(caller, seen, ReadModel.RowsOf(s.history[|s.history| - 1].content.gyms), []))
    case Insert(caller, seen, todo, temp) =>
      if todo == [] then Goto(s, t, Publish(caller, seen, temp))
      else if InsertFails(temp, todo[0]) then Goto(s, t, Release(caller, true))
      else Goto(s, t, Insert(caller, seen, todo[1..], temp + [todo[0]]))
    case Publish(caller, seen, temp) =>
      Goto(s.(index := s.index[seen := temp]), t, Cleanup(caller, seen))
    case Cleanup(caller, _) => Goto(s, t, Release(caller, false))
    case _ => s
  }

  function SetConnection(s: State, t: Tid, connection: Connection, pc: Pc): State {
    s.(threads := s.threads[t := Thread(pc, Some(connection))])
  }

  function ActQuery(s: State, t: Tid): State {
    var connection := ThreadOf(s, t).connection;
    match ThreadOf(s, t).pc
    case HaveSnapshot(start, snapshot) =>
      if connection.Some? && connection.value.mtime == snapshot.mtime
      then Goto(s, t, Select(start, snapshot))
      else if snapshot.mtime in s.index
      then SetConnection(s, t, Connection(snapshot.mtime, s.index[snapshot.mtime], true), Select(start, snapshot))
      // the old connection is closed but stays registered under its old path
      else if connection.Some? then SetConnection(s, t, connection.value.(open := false), Idle)
      else Goto(s, t, Idle)
    case Select(start, snapshot) =>
      if connection.Some? && connection.value.open
      then Goto(s, t, Idle).(answers := s.answers + [Answer(start, s.clock, connection.value.rows)])
      else Goto(s, t, Idle)
    case _ => s
  }

  predicate IsSnapshotPc(pc: Pc) {
    pc.GotCached? || pc.NeedStat? || pc.WantStoreLock? || pc.CheckCache? || pc.CheckIndex? || pc.StoreSnapshot?
  }

  predicate IsLockingPc(pc: Pc) { pc.StatOutside? || pc.CheckOutside? || pc.WantFileLock? || pc.Release? }

  // Inside the file lock.
  predicate Inside(pc: Pc) {
    pc.StatInside? || pc.CheckInside? || pc.ReadDataset? || pc.Insert? || pc.Publish? || pc.Cleanup? || pc.Release?
  }

  function Step(s: State, e: Event, c: Config): State {
    match e
    case Tick(ns) => s.(clock := s.clock + ns)
    case Rewrite(mtime, content) =>
      if exists i :: 0 <= i < |s.history| && s.history[i].mtime == mtime then s
      else s.(history := s.history + [Version(mtime, content, s.clock)])
    case StartQuery(t) =>
      if ThreadOf(s, t).pc.Idle? then Goto(s, t, GotCached(StoreOf(s, t.process).cache)) else s
    case StartMaterialize(t) => if ThreadOf(s, t).pc.Idle? then Goto(s, t, StatOutside(Plain)) else s
    case Act(t) =>
      var pc := ThreadOf(s, t).pc;
      if IsSnapshotPc(pc) then ActSnapshot(s, t, c)
      else if IsLockingPc(pc) then ActLocking(s, t, c)
      else if Inside(pc) then ActBuilding(s, t)
      else ActQuery(s, t)
    case RemoveOld(t, mtime) =>
      var pc := ThreadOf(s, t).pc;
      if pc.Cleanup? && mtime != pc.seen then s.(index := s.index - {mtime}) else s
    case Crash(t) =>
      if ThreadOf(s, t).pc.Dead? then s else Goto(s, t, Dead(Inside(ThreadOf(s, t).pc)))
  }

  function Run(events: seq<Event>, c: Config): State {
    if events == [] then INIT else Step(Run(events[..|events| - 1], c), events[|events| - 1], c)
  }

  /******* What every reachable state satisfies *******/

  ghost predicate HistoryOk(s: State) {
    && (forall i, j :: 0 <= i < j < |s.history| ==> s.history[i].mtime != s.history[j].mtime)
    && (forall i, j :: 0 <= i <= j < |s.history| ==> s.history[i].since <= s.history[j].since)
    && (forall i :: 0 <= i < |s.history| ==> s.history[i].since <= s.clock)
  }

  // Version i carries this mtime and was still current at `time`.
  ghost predicate SnappedAt(h: seq<Version>, mtime: nat, time: nat, i: nat) {
    i < |h| && h[i].mtime == mtime && (i + 1 < |h| ==> time <= h[i + 1].since)
  }

  ghost predicate Snapped(h: seq<Version>, mtime: nat, time: nat) {
    exists i :: SnappedAt(h, mtime, time, i)
  }

  ghost predicate Seen(h: seq<Version>, mtime: nat) { Snapped(h, mtime, 0) }

  /** The complete table of a dataset: one row per gym with an id, no id twice. */
  ghost predicate IsTable(content: ReadModel.Payload, rows: seq<ReadModel.Row>) {
    content.Results? && rows == ReadModel.RowsOf(content.gyms) && ReadModel.DistinctIds(rows)
  }

  // Built after a stat that saw version i from a read that saw version j, which may be later.
  ghost predicate IndexedAt(h: seq<Version>, mtime: nat, rows: seq<ReadModel.Row>, i: nat, j: nat) {
    i <= j < |h| && h[i].mtime == mtime && IsTable(h[j].content, rows)
  }

  ghost predicate Indexed(h: seq<Version>, mtime: nat, rows: seq<ReadModel.Row>) {
    exists i, j :: IndexedAt(h, mtime, rows, i, j)
  }

  ghost predicate InsertingAt(h: seq<Version>, mtime: nat, todo: seq<ReadModel.Row>, temp: seq<ReadModel.Row>,
                              i: nat, j: nat) {
    && i <= j < |h| && h[i].mtime == mtime
    && h[j].content.Results? && temp + todo == ReadModel.RowsOf(h[j].content.gyms)
    && ReadModel.DistinctIds(temp)
  }

  ghost predicate Inserting(h: seq<Version>, mtime: nat, todo: seq<ReadModel.Row>, temp: seq<ReadModel.Row>) {
    exists i, j :: InsertingAt(h, mtime, todo, temp, i, j)
  }

  ghost predicate SnapshotOk(h: seq<Version>, clock: nat, snapshot: Snapshot) {
    snapshot.checkedAt <= clock && Snapped(h, snapshot.mtime, snapshot.checkedAt)
  }

  ghost predicate CallerOk(h: seq<Version>, clock: nat, caller: Caller) {
    caller.ForQuery? ==> SnapshotOk(h, clock, Snapshot(caller.mtime, caller.start))
  }

  ghost predicate QueryOk(h: seq<Version>, clock: nat, c: Config, start: nat, snapshot: Snapshot) {
    SnapshotOk(h, clock, snapshot) && start <= clock && start <= snapshot.checkedAt + c.recheck
  }

  ghost predicate PcOk(h: seq<Version>, clock: nat, c: Config, pc: Pc) {
    match pc
    case Idle => true
    case Dead(_) => true
    case GotCached(cached) => cached.Some? ==> SnapshotOk(h, clock, cached.value)
    case NeedStat(start) => start <= clock
    case WantStoreLock(start, mtime) => SnapshotOk(h, clock, Snapshot(mtime, start))
    case CheckCache(start, mtime) => SnapshotOk(h, clock, Snapshot(mtime, start))
    case CheckIndex(start, mtime) => SnapshotOk(h, clock, Snapshot(mtime, start))
    case StoreSnapshot(start, mtime) => SnapshotOk(h, clock, Snapshot(mtime, start))
    case StatOutside(caller) => CallerOk(h, clock, caller)
    case CheckOutside(caller, _) => CallerOk(h, clock, caller)
    case WantFileLock(caller, _) => CallerOk(h, clock, caller)
    case StatInside(caller) => CallerOk(h, clock, caller)
    case CheckInside(caller, seen) => CallerOk(h, clock, caller) && Seen(h, seen)
    case ReadDataset(caller, seen) => CallerOk(h, clock, caller) && Seen(h, seen)
    case Insert(caller, seen, todo, temp) => CallerOk(h, clock, caller) && Inserting(h, seen, todo, temp)
    case Publish(caller, seen, temp) => CallerOk(h, clock, caller) && Indexed(h, seen, temp)
    case Cleanup(caller, _) => CallerOk(h, clock, caller)
    case Release(caller, _) => CallerOk(h, clock, caller)
    case HaveSnapshot(start, snapshot) => QueryOk(h, clock, c, start, snapshot)
    case Select(start, snapshot) => QueryOk(h, clock, c, start, snapshot)
  }

  ghost predicate ThreadOk(h: seq<Version>, clock: nat, c: Config, th: Thread) {
    && PcOk(h, clock, c, th.pc)
    && (th.connection.Some? ==> Indexed(h, th.connection.value.mtime, th.connection.value.rows))
    && (th.pc.Select? ==> th.connection.Some? && th.connection.value.mtime == th.pc.snapshot.mtime)
  }

  ghost predicate CurrentAt(h: seq<Version>, j: nat, time: nat) {
    j < |h| && h[j].since <= time && (j + 1 < |h| ==> time <= h[j + 1].since)
  }

  // The rows are the whole of version j, which was current at `time`: no earlier than the
  // recheck interval before the query began, no later than its answer.
  ghost predicate FreshAt(h: seq<Version>, c: Config, a: Answer, j: nat, time: nat) {
    CurrentAt(h, j, time) && IsTable(h[j].content, a.rows) && a.start <= time + c.recheck && time <= a.finish
  }

  ghost predicate AnswerOk(s: State, c: Config, a: Answer) {
    a.start <= a.finish <= s.clock && exists j, time :: FreshAt(s.history, c, a, j, time)
  }

  ghost predicate ThreadsOk(s: State, c: Config) {
    forall t :: t in s.threads ==> ThreadOk(s.history, s.clock, c, s.threads[t])
  }

  ghost predicate StoresOk(s: State) {
    forall p :: p in s.stores && s.stores[p].cache.Some? ==> SnapshotOk(s.history, s.clock, s.stores[p].cache.value)
  }

  ghost predicate IndexOk(s: State) {
    forall m :: m in s.index ==> Indexed(s.history, m, s.index[m])
  }

  ghost predicate AnswersOk(s: State, c: Config) {
    forall i :: 0 <= i < |s.answers| ==> AnswerOk(s, c, s.answers[i])
  }

  predicate Holds(pc: Pc) { Inside(pc) || pc == Dead(true) }

  ghost predicate LockOk(s: State) {
    forall t :: s.fileLock == Some(t) <==> Holds(ThreadOf(s, t).pc)
  }

  ghost predicate Inv(s: State, c: Config) {
    HistoryOk(s) && ThreadsOk(s, c) && StoresOk(s) && IndexOk(s) && AnswersOk(s, c) && LockOk(s)
  }

  /******* Facts survive a later clock and a later dataset version *******/

  ghost predicate Later(h: seq<Version>, clock: nat, h': seq<Version>, clock': nat) {
    && clock <= clock'
    && (h' == h || (|h'| == |h| + 1 && h'[..|h|] == h && h'[|h|].since == clock'))
  }

  lemma SnappedLater(h: seq<Version>, clock: nat, h': seq<Version>, clock': nat, mtime: nat, time: nat)
    requires Later(h, clock, h', clock') && time <= clock
    requires Snapped(h, mtime, time)
    ensures Snapped(h', mtime, time)
  {
    var i: nat :| SnappedAt(h, mtime, time, i);
    assert h[i] == h'[i];
    assert i + 1 < |h| ==> h[i + 1] == h'[i + 1];
    assert SnappedAt(h', mtime, time, i);
  }

  lemma IndexedLater(h: seq<Version>, clock: nat, h': seq<Version>, clock': nat, mtime: nat, rows: seq<ReadModel.Row>)
    requires Later(h, clock, h', clock')
    requires Indexed(h, mtime, rows)
    ensures Indexed(h', mtime, rows)
  {
    var i: nat, j: nat :| IndexedAt(h, mtime, rows, i, j);
    assert h[i] == h'[i] && h[j] == h'[j];
    assert IndexedAt(h', mtime, rows, i, j);
  }

  lemma InsertingLater(h: seq<Version>, clock: nat, h': seq<Version>, clock': nat, mtime: nat,
                       todo: seq<ReadModel.Row>, temp: seq<ReadModel.Row>)
    requires Later(h, clock, h', clock')
    requires Inserting(h, mtime, todo, temp)
    ensures Inserting(h', mtime, todo, temp)
  {
    var i: nat, j: nat :| InsertingAt(h, mtime, todo, temp, i, j);
    assert h[i] == h'[i] && h[j] == h'[j];
    assert InsertingAt(h', mtime, todo, temp, i, j);
  }

  lemma CallerLater(h: seq<Version>, clock: nat, h': seq<Version>, clock': nat, caller: Caller)
    requires Later(h, clock, h', clock')
    requires CallerOk(h, clock, caller)
    ensures CallerOk(h', clock', caller)
  {
    if caller.ForQuery? {
      SnappedLater(h, clock, h', clock', caller.mtime, caller.start);
    }
  }

  lemma BuildingPcLater(h: seq<Version>, clock: nat, h': seq<Version>, clock': nat, c: Config, pc: Pc)
    requires Later(h, clock, h', clock')
    requires IsLockingPc(pc) || Inside(pc)
    requires PcOk(h, clock, c, pc)
    ensures PcOk(h', clock', c, pc)
  {
    CallerLater(h, clock, h', clock', pc.caller);
    match pc
    case CheckInside(_, seen) => SnappedLater(h, clock, h', clock', seen, 0);
    case ReadDataset(_, seen) => SnappedLater(h, clock, h', clock', seen, 0);
    case Insert(_, seen, todo, temp) => InsertingLater(h, clock, h', clock', seen, todo, temp);
    case Publish(_, seen, temp) => IndexedLater(h, clock, h', clock', seen, temp);
    case _ =>
  }

  lemma PcLater(h: seq<Version>, clock: nat, h': seq<Version>, clock': nat, c: Config, pc: Pc)
    requires Later(h, clock, h', clock')
    requires PcOk(h, clock, c, pc)
    ensures PcOk(h', clock', c, pc)
  {
    if IsLockingPc(pc) || Inside(pc) {
      BuildingPcLater(h, clock, h', clock', c, pc);
    } else {
      match pc
      case GotCached(cached) =>
        if cached.Some? {
          SnappedLater(h, clock, h', clock', cached.value.mtime, cached.value.checkedAt);
        }
      case WantStoreLock(start, mtime) => SnappedLater(h, clock, h', clock', mtime, start);
      case CheckCache(start, mtime) => SnappedLater(h, clock, h', clock', mtime, start);
      case CheckIndex(start, mtime) => SnappedLater(h, clock, h', clock', mtime, start);
      case StoreSnapshot(start, mtime) => SnappedLater(h, clock, h', clock', mtime, start);
      case HaveSnapshot(_, snapshot) => SnappedLater(h, clock, h', clock', snapshot.mtime, snapshot.checkedAt);
      case Select(_, snapshot) => SnappedLater(h, clock, h', clock', snapshot.mtime, snapshot.checkedAt);
      case _ =>
    }
  }

  lemma ThreadLater(h: seq<Version>, clock: nat, h': seq<Version>, clock': nat, c: Config, th: Thread)
    requires Later(h, clock, h', clock')
    requires ThreadOk(h, clock, c, th)
    ensures ThreadOk(h', clock', c, th)
  {
    PcLater(h, clock, h', clock', c, th.pc);
    if th.connection.Some? {
      IndexedLater(h, clock, h', clock', th.connection.value.mtime, th.connection.value.rows);
    }
  }

  lemma AnswerLater(s: State, s': State, c: Config, a: Answer)
    requires Later(s.history, s.clock, s'.history, s'.clock)
    requires AnswerOk(s, c, a)
    ensures AnswerOk(s', c, a)
  {
    var j: nat, time: nat :| FreshAt(s.history, c, a, j, time);
    var h, h' := s.history, s'.history;
    assert h[j] == h'[j];
    assert j + 1 < |h| ==> h[j + 1] == h'[j + 1];
    assert FreshAt(h', c, a, j, time);
  }

  lemma EnvironmentKeepsInv(s: State, s': State, c: Config)
    requires Inv(s, c)
    requires s' == s.(clock := s'.clock, history := s'.history)
    requires Later(s.history, s.clock, s'.history, s'.clock)
    requires HistoryOk(s')
    ensures Inv(s', c)
  {
    forall t | t in s'.threads
      ensures ThreadOk(s'.history, s'.clock, c, s'.threads[t])
    {
      ThreadLater(s.history, s.clock, s'.history, s'.clock, c, s.threads[t]);
    }
    forall p | p in s'.stores && s'.stores[p].cache.Some?
      ensures SnapshotOk(s'.history, s'.clock, s'.stores[p].cache.value)
    {
      var cached := s.stores[p].cache.value;
      SnappedLater(s.history, s.clock, s'.history, s'.clock, cached.mtime, cached.checkedAt);
    }
    forall m | m in s'.index
      ensures Indexed(s'.history, m, s'.index[m])
    {
      IndexedLater(s.history, s.clock, s'.history, s'.clock, m, s.index[m]);
    }
    forall i | 0 <= i < |s'.answers|
      ensures AnswerOk(s', c, s'.answers[i])
    {
      AnswerLater(s, s', c, s.answers[i]);
    }
    assert forall t :: ThreadOf(s', t) == ThreadOf(s, t);
  }

  /******* Thread steps *******/

  // A thread step that keeps everything it does not own, and leaves what it owns in order.
  ghost predicate Moved(s: State, s': State, t: Tid, c: Config) {
    && s'.clock == s.clock && s'.history == s.history
    && t in s'.threads
    && s'.threads == s.threads[t := s'.threads[t]]
    && ThreadOk(s.history, s.clock, c, s'.threads[t])
    && (s'.stores == s.stores || (t.process in s'.stores && s'.stores == s.stores[t.process := s'.stores[t.process]]
        && (s'.stores[t.process].cache.Some? ==> SnapshotOk(s.history, s.clock, s'.stores[t.process].cache.value))))
  }

  ghost predicate LockMoved(s: State, s': State, t: Tid) {
    var before, after := ThreadOf(s, t).pc, ThreadOf(s', t).pc;
    if Holds(before) == Holds(after) then s'.fileLock == s.fileLock
    else if Holds(after) then s.fileLock == None && s'.fileLock == Some(t)
    else s'.fileLock == None
  }

  lemma MovedKeepsInv(s: State, s': State, t: Tid, c: Config)
    requires Inv(s, c)
    requires Moved(s, s', t, c) && LockMoved(s, s', t)
    requires IndexOk(s') && AnswersOk(s', c)
    ensures Inv(s', c)
  {
    assert HistoryOk(s');
    assert ThreadsOk(s', c);
    assert StoresOk(s');
    LockMovedKeepsLock(s, s', t);
  }

  lemma LockMovedKeepsLock(s: State, s': State, t: Tid)
    requires LockOk(s) && LockMoved(s, s', t)
    requires t in s'.threads && s'.threads == s.threads[t := s'.threads[t]]
    ensures LockOk(s')
  {
    forall u
      ensures s'.fileLock == Some(u) <==> Holds(ThreadOf(s', u).pc)
    {
      assert u != t ==> ThreadOf(s', u) == ThreadOf(s, u);
      assert s.fileLock == Some(u) <==> Holds(ThreadOf(s, u).pc);
      assert s.fileLock == Some(t) <==> Holds(ThreadOf(s, t).pc);
    }
  }

  // The version a stat sees is current at any instant up to now.
  lemma StatSnaps(s: State, time: nat)
    requires s.history != []
    ensures Snapped(s.history, s.history[|s.history| - 1].mtime, time)
  {
    assert SnappedAt(s.history, s.history[|s.history| - 1].mtime, time, |s.history| - 1);
  }

  lemma ThreadOkNow(s: State, c: Config, t: Tid)
    requires ThreadsOk(s, c)
    ensures ThreadOk(s.history, s.clock, c, ThreadOf(s, t))
  {
  }

  lemma StoreOkNow(s: State, p: nat)
    requires StoresOk(s)
    ensures StoreOf(s, p).cache.Some? ==> SnapshotOk(s.history, s.clock, StoreOf(s, p).cache.value)
  {
  }

  // A thread step that touches neither the index nor the answers nor the file lock.
  ghost predicate MovedOnly(s: State, s': State, t: Tid, c: Config) {
    Moved(s, s', t, c) && LockMoved(s, s', t) && s'.index == s.index && s'.answers == s.answers
  }

  lemma GotoMoves(s: State, t: Tid, c: Config, pc: Pc)
    requires ThreadsOk(s, c)
    requires PcOk(s.history, s.clock, c, pc) && !pc.Select?
    requires Holds(pc) == Holds(ThreadOf(s, t).pc)
    ensures MovedOnly(s, Goto(s, t, pc), t, c)
  {
    ThreadOkNow(s, c, t);
  }

  lemma StoreGotoMoves(s: State, t: Tid, c: Config, store: Store, pc: Pc)
    requires ThreadsOk(s, c)
    requires PcOk(s.history, s.clock, c, pc) && !pc.Select?
    requires Holds(pc) == Holds(ThreadOf(s, t).pc)
    requires store.cache.Some? ==> SnapshotOk(s.history, s.clock, store.cache.value)
    ensures MovedOnly(s, Goto(SetStore(s, t.process, store), t, pc), t, c)
  {
    ThreadOkNow(s, c, t);
  }

  lemma BeforeStoreLockMoves(s: State, t: Tid, c: Config)
    requires ThreadsOk(s, c)
    requires ThreadOf(s, t).pc.GotCached? || ThreadOf(s, t).pc.NeedStat?
    ensures MovedOnly(s, ActSnapshot(s, t, c), t, c)
  {
    ThreadOkNow(s, c, t);
    match ThreadOf(s, t).pc
    case GotCached(cached) =>
      GotoMoves(s, t, c, if cached.Some? && s.clock <= cached.value.checkedAt + c.recheck
                         then HaveSnapshot(s.clock, cached.value) else NeedStat(s.clock));
    case NeedStat(start) =>
      if s.history == [] {
        GotoMoves(s, t, c, Idle);
      } else {
        StatSnaps(s, start);
        GotoMoves(s, t, c, WantStoreLock(start, s.history[|s.history| - 1].mtime));
      }
  }

  lemma CheckCacheMoves(s: State, t: Tid, c: Config)
    requires ThreadsOk(s, c) && StoresOk(s)
    requires ThreadOf(s, t).pc.CheckCache?
    ensures MovedOnly(s, ActSnapshot(s, t, c), t, c)
  {
    ThreadOkNow(s, c, t);
    StoreOkNow(s, t.process);
    var store, pc := StoreOf(s, t.process), ThreadOf(s, t).pc;
    GotoMoves(s, t, c, CheckIndex(pc.start, pc.mtime));
    if store.cache.Some? && pc.start <= store.cache.value.checkedAt + c.recheck {
      StoreGotoMoves(s, t, c, store.(holder := None), HaveSnapshot(pc.start, store.cache.value));
    }
  }

  lemma ActSnapshotMoves(s: State, t: Tid, c: Config)
    requires ThreadsOk(s, c) && StoresOk(s)
    requires IsSnapshotPc(ThreadOf(s, t).pc)
    ensures ActSnapshot(s, t, c) == s || MovedOnly(s, ActSnapshot(s, t, c), t, c)
  {
    ThreadOkNow(s, c, t);
    StoreOkNow(s, t.process);
    match ThreadOf(s, t).pc
    case WantStoreLock(start, mtime) =>
      StoreGotoMoves(s, t, c, StoreOf(s, t.process).(holder := Some(t)), CheckCache(start, mtime));
    case CheckCache(_, _) => CheckCacheMoves(s, t, c);
    case CheckIndex(start, mtime) =>
      GotoMoves(s, t, c, if mtime in s.index then StoreSnapshot(start, mtime) else StatOutside(ForQuery(start, mtime)));
    case StoreSnapshot(start, mtime) =>
      StoreGotoMoves(s, t, c, Store(Some(Snapshot(mtime, start)), None), HaveSnapshot(start, Snapshot(mtime, start)));
    case _ => BeforeStoreLockMoves(s, t, c);
  }

  lemma ReturnMoves(s: State, t: Tid, c: Config, caller: Caller)
    requires ThreadsOk(s, c) && CallerOk(s.history, s.clock, caller)
    requires !Holds(ThreadOf(s, t).pc)
    ensures MovedOnly(s, Return(s, t, caller), t, c)
  {
    match caller
    case Plain => GotoMoves(s, t, c, Idle);
    case ForQuery(start, mtime) => GotoMoves(s, t, c, StoreSnapshot(start, mtime));
  }

  lemma RaiseMoves(s: State, t: Tid, c: Config, caller: Caller)
    requires ThreadsOk(s, c) && StoresOk(s)
    requires !Holds(ThreadOf(s, t).pc)
    ensures MovedOnly(s, Raise(s, t, caller), t, c)
  {
    StoreOkNow(s, t.process);
    GotoMoves(s, t, c, Idle);
    StoreGotoMoves(s, t, c, StoreOf(s, t.process).(holder := None), Idle);
    assert Goto(SetStore(s, t.process, StoreOf(s, t.process).(holder := None)), t, Idle)
        == SetStore(Goto(s, t, Idle), t.process, StoreOf(s, t.process).(holder := None));
  }

  lemma WaitingMoves(s: State, t: Tid, c: Config)
    requires ThreadsOk(s, c) && StoresOk(s)
    requires IsLockingPc(ThreadOf(s, t).pc) && !ThreadOf(s, t).pc.Release?
    ensures ActLocking(s, t, c) == s || MovedOnly(s, ActLocking(s, t, c), t, c)
  {
    ThreadOkNow(s, c, t);
    match ThreadOf(s, t).pc
    case StatOutside(caller) =>
      RaiseMoves(s, t, c, caller);
      if s.history != [] {
        GotoMoves(s, t, c, CheckOutside(caller, s.history[|s.history| - 1].mtime));
      }
    case CheckOutside(caller, seen) =>
      ReturnMoves(s, t, c, caller);
      GotoMoves(s, t, c, WantFileLock(caller, s.clock));
    case WantFileLock(caller, since) =>
      RaiseMoves(s, t, c, caller);
  }

  // Leaving the lock is leaving it first and then returning or raising outside it.
  lemma ReleaseMoves(s: State, t: Tid, c: Config)
    requires ThreadsOk(s, c) && StoresOk(s) && LockOk(s)
    requires ThreadOf(s, t).pc.Release?
    ensures MovedOnly(s, ActLocking(s, t, c), t, c)
  {
    ThreadOkNow(s, c, t);
    var pc := ThreadOf(s, t).pc;
    var out := Goto(s.(fileLock := None), t, Idle);
    assert ThreadOk(s.history, s.clock, c, out.threads[t]);
    assert ThreadsOk(out, c) && StoresOk(out);
    if pc.failed {
      RaiseMoves(out, t, c, pc.caller);
      assert Raise(out, t, pc.caller) == Raise(s.(fileLock := None), t, pc.caller) by {
        SameAfterGoto(s.(fileLock := None), t, Idle, Idle);
      }
    } else {
      ReturnMoves(out, t, c, pc.caller);
      SameAfterGoto(s.(fileLock := None), t, Idle, Idle);
      if pc.caller.ForQuery? {
        SameAfterGoto(s.(fileLock := None), t, Idle, StoreSnapshot(pc.caller.start, pc.caller.mtime));
      }
    }
    LeavingMoves(s, out, ActLocking(s, t, c), t, c);
  }

  lemma SameAfterGoto(s: State, t: Tid, a: Pc, b: Pc)
    ensures Goto(Goto(s, t, a), t, b) == Goto(s, t, b)
  {
  }

  lemma LeavingMoves(s: State, out: State, s': State, t: Tid, c: Config)
    requires LockOk(s) && Holds(ThreadOf(s, t).pc)
    requires out == Goto(s.(fileLock := None), t, Idle)
    requires MovedOnly(out, s', t, c) && !Holds(ThreadOf(s', t).pc)
    ensures MovedOnly(s, s', t, c)
  {
    assert s'.threads == s.threads[t := s'.threads[t]];
  }

  lemma ReadStarts(s: State, seen: nat)
    requires s.history != [] && s.history[|s.history| - 1].content.Results?
    requires Seen(s.history, seen)
    ensures Inserting(s.history, seen, ReadModel.RowsOf(s.history[|s.history| - 1].content.gyms), [])
  {
    var i: nat :| SnappedAt(s.history, seen, 0, i);
    var j := |s.history| - 1;
    var rows := ReadModel.RowsOf(s.history[j].content.gyms);
    assert [] + rows == rows;
    assert InsertingAt(s.history, seen, rows, [], i, j);
  }

  lemma InsertGoesOn(h: seq<Version>, seen: nat, todo: seq<ReadModel.Row>, temp: seq<ReadModel.Row>)
    requires Inserting(h, seen, todo, temp)
    requires todo != [] && !InsertFails(temp, todo[0])
    ensures Inserting(h, seen, todo[1..], temp + [todo[0]])
  {
    var i: nat, j: nat :| InsertingAt(h, seen, todo, temp, i, j);
    assert temp + [todo[0]] + todo[1..] == temp + todo;
    assert InsertingAt(h, seen, todo[1..], temp + [todo[0]], i, j);
  }

  lemma InsertEnds(h: seq<Version>, seen: nat, temp: seq<ReadModel.Row>)
    requires Inserting(h, seen, [], temp)
    ensures Indexed(h, seen, temp)
  {
    var i: nat, j: nat :| InsertingAt(h, seen, [], temp, i, j);
    assert temp + [] == temp;
    assert IndexedAt(h, seen, temp, i, j);
  }

  lemma ActBuildingMoves(s: State, t: Tid, c: Config)
    requires ThreadsOk(s, c)
    requires Inside(ThreadOf(s, t).pc) && !ThreadOf(s, t).pc.Publish?
    ensures ActBuilding(s, t) == s || MovedOnly(s, ActBuilding(s, t), t, c)
  {
    ThreadOkNow(s, c, t);
    var h := s.history;
    match ThreadOf(s, t).pc
    case StatInside(caller) =>
      GotoMoves(s, t, c, Release(caller, true));
      if h != [] {
        StatSnaps(s, 0);
        GotoMoves(s, t, c, CheckInside(caller, h[|h| - 1].mtime));
      }
    case CheckInside(caller, seen) =>
      GotoMoves(s, t, c, if seen in s.index then Release(caller, false) else ReadDataset(caller, seen));
    case ReadDataset(caller, seen) =>
      GotoMoves(s, t, c, Release(caller, true));
      if h != [] && h[|h| - 1].content.Results? {
        ReadStarts(s, seen);
        GotoMoves(s, t, c, Insert(caller, seen, ReadModel.RowsOf(h[|h| - 1].content.gyms), []));
      }
    case Insert(caller, seen, todo, temp) =>
      GotoMoves(s, t, c, Release(caller, true));
      if todo == [] {
        InsertEnds(h, seen, temp);
        GotoMoves(s, t, c, Publish(caller, seen, temp));
      } else if !InsertFails(temp, todo[0]) {
        InsertGoesOn(h, seen, todo, temp);
        GotoMoves(s, t, c, Insert(caller, seen, todo[1..], temp + [todo[0]]));
      }
    case Cleanup(caller, _) => GotoMoves(s, t, c, Release(caller, false));
    case Release(_, _) =>
  }

  lemma PublishMoves(s: State, t: Tid, c: Config)
    requires ThreadsOk(s, c) && IndexOk(s)
    requires ThreadOf(s, t).pc.Publish?
    ensures var s' := ActBuilding(s, t);
            Moved(s, s', t, c) && LockMoved(s, s', t) && IndexOk(s') && s'.answers == s.answers
  {
    ThreadOkNow(s, c, t);
    var pc := ThreadOf(s, t).pc;
    GotoMoves(s, t, c, Cleanup(pc.caller, pc.seen));
  }

  /** The heart of bounded staleness: a snapshot that was good at `checkedAt` leads to rows that
      are the whole of some version current between then and now, even when the file named
      after the snapshot's version was read from a later one. */
  lemma SnapshotRowsAreFresh(s: State, c: Config, start: nat, snapshot: Snapshot, rows: seq<ReadModel.Row>)
    requires HistoryOk(s)
    requires QueryOk(s.history, s.clock, c, start, snapshot)
    requires Indexed(s.history, snapshot.mtime, rows)
    ensures AnswerOk(s, c, Answer(start, s.clock, rows))
  {
    var h := s.history;
    var k: nat :| SnappedAt(h, snapshot.mtime, snapshot.checkedAt, k);
    var i: nat, j: nat :| IndexedAt(h, snapshot.mtime, rows, i, j);
    assert i == k;
    var time := if snapshot.checkedAt < h[j].since then h[j].since else snapshot.checkedAt;
    assert i < j ==> h[i + 1].since <= h[j].since;
    assert j + 1 < |h| ==> h[j].since <= h[j + 1].since && h[i + 1].since <= h[j + 1].since;
    assert FreshAt(h, c, Answer(start, s.clock, rows), j, time);
  }

  lemma SetConnectionMoves(s: State, t: Tid, c: Config, connection: Connection, pc: Pc)
    requires !Holds(pc) && !Holds(ThreadOf(s, t).pc)
    requires ThreadOk(s.history, s.clock, c, Thread(pc, Some(connection)))
    ensures MovedOnly(s, SetConnection(s, t, connection, pc), t, c)
  {
  }

  lemma ConnectMoves(s: State, t: Tid, c: Config)
    requires ThreadsOk(s, c) && IndexOk(s)
    requires ThreadOf(s, t).pc.HaveSnapshot?
    ensures MovedOnly(s, ActQuery(s, t), t, c)
  {
    ThreadOkNow(s, c, t);
    var pc, connection := ThreadOf(s, t).pc, ThreadOf(s, t).connection;
    if connection.Some? && connection.value.mtime == pc.snapshot.mtime {
      SetConnectionMoves(s, t, c, connection.value, Select(pc.start, pc.snapshot));
    } else if pc.snapshot.mtime in s.index {
      var viaIndex := Connection(pc.snapshot.mtime, s.index[pc.snapshot.mtime], true);
      SetConnectionMoves(s, t, c, viaIndex, Select(pc.start, pc.snapshot));
    } else if connection.Some? {
      SetConnectionMoves(s, t, c, connection.value.(open := false), Idle);
    } else {
      GotoMoves(s, t, c, Idle);
    }
  }

  lemma SelectMoves(s: State, t: Tid, c: Config)
    requires HistoryOk(s) && ThreadsOk(s, c) && AnswersOk(s, c)
    requires ThreadOf(s, t).pc.Select?
    ensures var s' := ActQuery(s, t);
            Moved(s, s', t, c) && LockMoved(s, s', t) && s'.index == s.index && AnswersOk(s', c)
  {
    ThreadOkNow(s, c, t);
    GotoMoves(s, t, c, Idle);
    var th := ThreadOf(s, t);
    var s' := ActQuery(s, t);
    if th.connection.value.open {
      SnapshotRowsAreFresh(s, c, th.pc.start, th.pc.snapshot, th.connection.value.rows);
      var a := Answer(th.pc.start, s.clock, th.connection.value.rows);
      AnswerSameState(s, s', c, a);
    }
    forall i | 0 <= i < |s'.answers|
      ensures AnswerOk(s', c, s'.answers[i])
    {
      if i < |s.answers| {
        AnswerSameState(s, s', c, s.answers[i]);
      }
    }
  }

  lemma AnswerSameState(s: State, s': State, c: Config, a: Answer)
    requires s'.history == s.history && s'.clock == s.clock
    requires AnswerOk(s, c, a)
    ensures AnswerOk(s', c, a)
  {
  }

  /******* All steps *******/

  lemma ActKeepsInv(s: State, t: Tid, c: Config)
    requires Inv(s, c)
    ensures Inv(Step(s, Act(t), c), c)
  {
    var s' := Step(s, Act(t), c);
    if s' != s {
      ActMoves(s, t, c);
      MovedKeepsInv(s, s', t, c);
    }
  }

  lemma ActMoves(s: State, t: Tid, c: Config)
    requires Inv(s, c)
    ensures var s' := Step(s, Act(t), c);
            s' == s || (Moved(s, s', t, c) && LockMoved(s, s', t) && IndexOk(s') && AnswersOk(s', c))
  {
    var pc := ThreadOf(s, t).pc;
    var s' := Step(s, Act(t), c);
    if IsSnapshotPc(pc) {
      ActSnapshotMoves(s, t, c);
    } else if pc.Release? {
      ReleaseMoves(s, t, c);
    } else if IsLockingPc(pc) {
      WaitingMoves(s, t, c);
    } else if pc.Publish? {
      PublishMoves(s, t, c);
    } else if Inside(pc) {
      ActBuildingMoves(s, t, c);
    } else if pc.HaveSnapshot? {
      ConnectMoves(s, t, c);
    } else if pc.Select? {
      SelectMoves(s, t, c);
    }
    if s' != s && s'.answers == s.answers {
      forall i | 0 <= i < |s'.answers|
        ensures AnswerOk(s', c, s'.answers[i])
      {
        AnswerSameState(s, s', c, s.answers[i]);
      }
    }
  }

  lemma RewriteKeepsInv(s: State, mtime: nat, content: ReadModel.Payload, c: Config)
    requires Inv(s, c)
    ensures Inv(Step(s, Rewrite(mtime, content), c), c)
  {
    var s' := Step(s, Rewrite(mtime, content), c);
    if s' != s {
      var h, h' := s.history, s'.history;
      assert h' == h + [Version(mtime, content, s.clock)];
      assert HistoryOk(s');
      EnvironmentKeepsInv(s, s', c);
    }
  }

  lemma StartKeepsInv(s: State, t: Tid, pc: Pc, c: Config)
    requires Inv(s, c)
    requires ThreadOf(s, t).pc.Idle? && !Holds(pc) && !pc.Select?
    requires PcOk(s.history, s.clock, c, pc)
    ensures Inv(Goto(s, t, pc), c)
  {
    GotoMoves(s, t, c, pc);
    OnlyMovedKeepsInv(s, Goto(s, t, pc), t, c);
  }

  lemma OnlyMovedKeepsInv(s: State, s': State, t: Tid, c: Config)
    requires Inv(s, c)
    requires MovedOnly(s, s', t, c)
    ensures Inv(s', c)
  {
    forall i | 0 <= i < |s'.answers|
      ensures AnswerOk(s', c, s'.answers[i])
    {
      AnswerSameState(s, s', c, s.answers[i]);
    }
    MovedKeepsInv(s, s', t, c);
  }

  lemma StartsKeepInv(s: State, t: Tid, c: Config)
    requires Inv(s, c)
    ensures Inv(Step(s, StartQuery(t), c), c) && Inv(Step(s, StartMaterialize(t), c), c)
  {
    if ThreadOf(s, t).pc.Idle? {
      StoreOkNow(s, t.process);
      StartKeepsInv(s, t, GotCached(StoreOf(s, t.process).cache), c);
      StartKeepsInv(s, t, StatOutside(Plain), c);
    }
  }

  lemma CrashKeepsInv(s: State, t: Tid, c: Config)
    requires Inv(s, c)
    ensures Inv(Step(s, Crash(t), c), c)
  {
    var pc := ThreadOf(s, t).pc;
    if !pc.Dead? {
      GotoMoves(s, t, c, Dead(Inside(pc)));
      OnlyMovedKeepsInv(s, Goto(s, t, Dead(Inside(pc))), t, c);
    }
  }

  lemma RemoveKeepsInv(s: State, t: Tid, mtime: nat, c: Config)
    requires Inv(s, c)
    ensures Inv(Step(s, RemoveOld(t, mtime), c), c)
  {
    var s' := Step(s, RemoveOld(t, mtime), c);
    assert forall u :: ThreadOf(s', u) == ThreadOf(s, u);
    forall i | 0 <= i < |s'.answers|
      ensures AnswerOk(s', c, s'.answers[i])
    {
      AnswerSameState(s, s', c, s.answers[i]);
    }
  }

  lemma StepKeepsInv(s: State, e: Event, c: Config)
    requires Inv(s, c)
    ensures Inv(Step(s, e, c), c)
  {
    match e
    case Tick(ns) => EnvironmentKeepsInv(s, s.(clock := s.clock + ns), c);
    case Rewrite(mtime, content) => RewriteKeepsInv(s, mtime, content, c);
    case StartQuery(t) => StartsKeepInv(s, t, c);
    case StartMaterialize(t) => StartsKeepInv(s, t, c);
    case Act(t) => ActKeepsInv(s, t, c);
    case RemoveOld(t, mtime) => RemoveKeepsInv(s, t, mtime, c);
    case Crash(t) => CrashKeepsInv(s, t, c);
  }

  lemma {:induction false} RunKeepsInv(events: seq<Event>, c: Config)
    ensures Inv(Run(events, c), c)
    decreases |events|
  {
    if events != [] {
      RunKeepsInv(events[..|events| - 1], c);
      StepKeepsInv(Run(events[..|events| - 1], c), events[|events| - 1], c);
    }
  }

  /******* Main results *******/

  /** Over every interleaving of dataset replacements, materialisations, cleanups, crashes and
      queries, every answer is drawn from the complete table of one dataset version, and that
      version was current at some instant no earlier than the recheck interval before the query
      read its clock and no later than the answer. */
  lemma BoundedStaleness(events: seq<Event>, c: Config, i: nat) returns (j: nat, time: nat)
    requires i < |Run(events, c).answers|
    ensures var s := Run(events, c);
            var a := s.answers[i];
            && CurrentAt(s.history, j, time)
            && a.start <= time + c.recheck && time <= a.finish
            && IsTable(s.history[j].content, a.rows)
  {
    RunKeepsInv(events, c);
    var s := Run(events, c);
    j, time :| FreshAt(s.history, c, s.answers[i], j, time);
  }

  /** At most one thread of any process is inside the dataset lock. */
  lemma MutualExclusion(events: seq<Event>, c: Config, t: Tid, u: Tid)
    requires Inside(ThreadOf(Run(events, c), t).pc) && Inside(ThreadOf(Run(events, c), u).pc)
    ensures t == u
  {
    RunKeepsInv(events, c);
    assert Run(events, c).fileLock == Some(t) && Run(events, c).fileLock == Some(u);
  }

  /** The lock file is removed only by the thread that created it, on its way out: not by a
      thread that timed out waiting, not by a crash, not by a cleanup. */
  lemma OnlyTheHolderUnlocks(events: seq<Event>, e: Event, c: Config, t: Tid)
    requires Run(events, c).fileLock == Some(t)
    requires Step(Run(events, c), e, c).fileLock != Some(t)
    ensures e == Act(t) && ThreadOf(Run(events, c), t).pc.Release? && Step(Run(events, c), e, c).fileLock == None
  {
    RunKeepsInv(events, c);
    LockChangesHands(Run(events, c), e, c, t);
  }

  lemma LockChangesHands(s: State, e: Event, c: Config, t: Tid)
    requires Inv(s, c)
    requires s.fileLock == Some(t) && Step(s, e, c).fileLock != Some(t)
    ensures e == Act(t) && ThreadOf(s, t).pc.Release? && Step(s, e, c).fileLock == None
  {
    assert e.Act?;
    if e.t != t {
      OthersLeaveTheLock(s, e.t, c);
    } else {
      OwnLockChange(s, t, c);
    }
  }

  lemma OwnLockChange(s: State, t: Tid, c: Config)
    requires LockOk(s) && s.fileLock == Some(t)
    requires Step(s, Act(t), c).fileLock != Some(t)
    ensures ThreadOf(s, t).pc.Release? && Step(s, Act(t), c).fileLock == None
  {
    assert Holds(ThreadOf(s, t).pc);
  }

  lemma OthersLeaveTheLock(s: State, u: Tid, c: Config)
    requires Inv(s, c)
    requires s.fileLock.Some? && s.fileLock != Some(u)
    ensures Step(s, Act(u), c).fileLock == s.fileLock
  {
    assert !Holds(ThreadOf(s, u).pc);
    ActMoves(s, u, c);
  }

  ghost predicate CleanupOk(s: State) {
    forall t :: ThreadOf(s, t).pc.Cleanup? ==> ThreadOf(s, t).pc.seen in s.index
  }

  // What an Act does to the index and to the acting thread's claim on it.
  ghost predicate IndexMoved(s: State, s': State, t: Tid) {
    && (forall m :: m in s.index ==> m in s'.index)
    && (forall u :: u != t ==> ThreadOf(s', u) == ThreadOf(s, u))
    && (ThreadOf(s', t).pc.Cleanup? ==> ThreadOf(s', t) == ThreadOf(s, t) || ThreadOf(s', t).pc.seen in s'.index)
  }

  lemma SnapshotIndex(s: State, t: Tid, c: Config)
    requires IsSnapshotPc(ThreadOf(s, t).pc)
    ensures IndexMoved(s, ActSnapshot(s, t, c), t)
  {
  }

  lemma LockingIndex(s: State, t: Tid, c: Config)
    requires IsLockingPc(ThreadOf(s, t).pc)
    ensures IndexMoved(s, ActLocking(s, t, c), t)
  {
  }

  lemma BuildingIndex(s: State, t: Tid)
    ensures IndexMoved(s, ActBuilding(s, t), t)
  {
  }

  lemma QueryIndex(s: State, t: Tid)
    ensures IndexMoved(s, ActQuery(s, t), t)
  {
  }

  lemma ActMovesIndex(s: State, t: Tid, c: Config)
    ensures IndexMoved(s, Step(s, Act(t), c), t)
  {
    var pc := ThreadOf(s, t).pc;
    if IsSnapshotPc(pc) {
      SnapshotIndex(s, t, c);
    } else if IsLockingPc(pc) {
      LockingIndex(s, t, c);
    } else if Inside(pc) {
      BuildingIndex(s, t);
    } else {
      QueryIndex(s, t);
    }
  }

  lemma IndexMovedKeepsCleanup(s: State, s': State, t: Tid)
    requires CleanupOk(s) && IndexMoved(s, s', t)
    ensures CleanupOk(s')
  {
    forall u | ThreadOf(s', u).pc.Cleanup?
      ensures ThreadOf(s', u).pc.seen in s'.index
    {
      assert ThreadOf(s, u).pc.Cleanup? ==> ThreadOf(s, u).pc.seen in s.index;
    }
  }

  lemma RemoveKeepsCleanup(s: State, t: Tid, mtime: nat, c: Config)
    requires Inv(s, c) && CleanupOk(s)
    ensures CleanupOk(Step(s, RemoveOld(t, mtime), c))
  {
    var s' := Step(s, RemoveOld(t, mtime), c);
    forall u | ThreadOf(s', u).pc.Cleanup?
      ensures ThreadOf(s', u).pc.seen in s'.index
    {
      assert ThreadOf(s', u) == ThreadOf(s, u);
      assert s.fileLock == Some(u);
      assert Holds(ThreadOf(s, t).pc) ==> s.fileLock == Some(t);
    }
  }

  lemma StepKeepsCleanup(s: State, e: Event, c: Config)
    requires Inv(s, c) && CleanupOk(s)
    ensures CleanupOk(Step(s, e, c))
  {
    match e
    case Act(t) =>
      ActMovesIndex(s, t, c);
      IndexMovedKeepsCleanup(s, Step(s, e, c), t);
    case RemoveOld(t, mtime) => RemoveKeepsCleanup(s, t, mtime, c);
    case _ =>
      var s' := Step(s, e, c);
      forall u | ThreadOf(s', u).pc.Cleanup?
        ensures ThreadOf(s', u).pc.seen in s'.index
      {
        assert ThreadOf(s', u) == ThreadOf(s, u);
      }
  }

  /** While a materialiser is still cleaning up, the index it has just published stays visible:
      only it can be removing files, and it spares its own. */
  lemma CleanupSparesThePublished(events: seq<Event>, c: Config, t: Tid)
    requires ThreadOf(Run(events, c), t).pc.Cleanup?
    ensures ThreadOf(Run(events, c), t).pc.seen in Run(events, c).index
  {
    RunKeepsCleanup(events, c);
  }

  lemma {:induction false} RunKeepsCleanup(events: seq<Event>, c: Config)
    ensures CleanupOk(Run(events, c))
    decreases |events|
  {
    if events != [] {
      var init := events[..|events| - 1];
      RunKeepsCleanup(init, c);
      RunKeepsInv(init, c);
      StepKeepsCleanup(Run(init, c), events[|events| - 1], c);
    }
  }

  /** Every index file visible under its final name holds the complete table of a dataset
      version at least as new as the one it is named after. */
  lemma VisibleIndexIsComplete(events: seq<Event>, c: Config, mtime: nat) returns (i: nat, j: nat)
    requires mtime in Run(events, c).index
    ensures var s := Run(events, c);
            && i <= j < |s.history|
            && s.history[i].mtime == mtime
            && IsTable(s.history[j].content, s.index[mtime])
  {
    RunKeepsInv(events, c);
    var s := Run(events, c);
    i, j :| IndexedAt(s.history, mtime, s.index[mtime], i, j);
  }

  /** End to end, for the rows of an answer in whatever order SQLite delivers them: if the box
      covers the disc, a nearby query finds the gyms, and position by position the distances, of
      a plain scan of that same current dataset version; and the very page of the plain scan when
      the rows come in dataset order or no two gyms in range are at one distance. */
  lemma AnsweredNearbyIsNaivePage(events: seq<Event>, c: Config, i: nat, scan: seq<ReadModel.Row>,
                                  q: ReadModel.NearbyQuery,
                                  dist: ReadModel.Distance, limit: nat, offset: nat)
    returns (j: nat, time: nat)
    requires i < |Run(events, c).answers|
    requires multiset(scan) == multiset(Run(events, c).answers[i].rows)
    ensures var s := Run(events, c);
            var a := s.answers[i];
            && CurrentAt(s.history, j, time)
            && a.start <= time + c.recheck && time <= a.finish
            && s.history[j].content.Results?
            && var gyms := s.history[j].content.gyms;
               (ReadModel.Published(gyms) && ReadModel.AllLocated(gyms) && ReadModel.BoxCoversDisc(gyms, q, dist)
                ==> NearbyAgrees(gyms, scan, q, dist, limit, offset))
  {
    j, time := BoundedStaleness(events, c, i);
    var s := Run(events, c);
    var gyms := s.history[j].content.gyms;
    if ReadModel.Published(gyms) && ReadModel.AllLocated(gyms) && ReadModel.BoxCoversDisc(gyms, q, dist) {
      ReadModel.NearbyDistancesAnyScan(gyms, scan, q, dist);
      if ReadModel.OrderDoesNotMatter(gyms, scan, q, dist) {
        ReadModel.NearbyIsNaivePage(gyms, scan, q, dist, limit, offset);
      }
    }
  }

  ghost predicate NearbyAgrees(gyms: seq<ReadModel.GymDoc>, scan: seq<ReadModel.Row>, q: ReadModel.NearbyQuery,
                               dist: ReadModel.Distance, limit: nat, offset: nat)
    requires ReadModel.AllLocated(gyms)
  {
    var found := Sorting.Sort(ReadModel.Nearer, ReadModel.Candidates(scan, q, dist));
    var naive := Sorting.Sort(ReadModel.Nearer, ReadModel.NaiveCandidates(gyms, q, dist));
    && multiset(found) == multiset(naive)
    && ReadModel.Distances(found) == ReadModel.Distances(naive)
    && (ReadModel.OrderDoesNotMatter(gyms, scan, q, dist)
        ==> NearbyPage(scan, q, dist, limit, offset) == NaivePage(gyms, q, dist, limit, offset))
  }

  function NearbyPage(rows: seq<ReadModel.Row>, q: ReadModel.NearbyQuery, dist: ReadModel.Distance, limit: nat,
                      offset: nat)
    : seq<ReadModel.GymDoc>
  {
    Sorting.Page(ReadModel.Gyms(Sorting.Sort(ReadModel.Nearer, ReadModel.Candidates(rows, q, dist))), offset, limit)
  }

  function NaivePage(gyms: seq<ReadModel.GymDoc>, q: ReadModel.NearbyQuery, dist: ReadModel.Distance, limit: nat,
                     offset: nat)
    : seq<ReadModel.GymDoc>
    requires ReadModel.AllLocated(gyms)
  {
    Sorting.Page(ReadModel.Gyms(Sorting.Sort(ReadModel.Nearer, ReadModel.NaiveCandidates(gyms, q, dist))),
                 offset, limit)
  }

  /******* The per-process snapshot lock *******/

  predicate HoldsStore(pc: Pc) {
    || pc.CheckCache? || pc.CheckIndex? || pc.StoreSnapshot?
    || ((IsLockingPc(pc) || Inside(pc)) && pc.caller.ForQuery?)
  }

  ghost predicate StoreLockOk(s: State) {
    forall t :: HoldsStore(ThreadOf(s, t).pc) ==> StoreOf(s, t.process).holder == Some(t)
  }

  ghost predicate StoreLockMoved(s: State, s': State, t: Tid) {
    && (forall u :: u != t ==> ThreadOf(s', u) == ThreadOf(s, u))
    && (forall p :: p != t.process ==> StoreOf(s', p) == StoreOf(s, p))
    && var before, after := StoreOf(s, t.process).holder, StoreOf(s', t.process).holder;
       if HoldsStore(ThreadOf(s', t).pc)
       then (after == before && HoldsStore(ThreadOf(s, t).pc)) || (before == None && after == Some(t))
       else after == before || HoldsStore(ThreadOf(s, t).pc)
  }

  lemma StoreLockMovedKeeps(s: State, s': State, t: Tid)
    requires StoreLockOk(s) && StoreLockMoved(s, s', t)
    ensures StoreLockOk(s')
  {
    forall u | HoldsStore(ThreadOf(s', u).pc)
      ensures StoreOf(s', u.process).holder == Some(u)
    {
      assert HoldsStore(ThreadOf(s, t).pc) ==> StoreOf(s, t.process).holder == Some(t);
      if u != t {
        assert HoldsStore(ThreadOf(s, u).pc);
      }
    }
  }

  lemma SnapshotStoreLock(s: State, t: Tid, c: Config)
    requires IsSnapshotPc(ThreadOf(s, t).pc)
    ensures StoreLockMoved(s, ActSnapshot(s, t, c), t)
  {
  }

  lemma RaiseStoreLock(s: State, t: Tid, caller: Caller)
    requires HoldsStore(ThreadOf(s, t).pc) == caller.ForQuery?
    ensures StoreLockMoved(s, Raise(s, t, caller), t)
  {
  }

  lemma ReturnStoreLock(s: State, t: Tid, caller: Caller)
    requires HoldsStore(ThreadOf(s, t).pc) == caller.ForQuery?
    ensures StoreLockMoved(s, Return(s, t, caller), t)
  {
  }

  lemma LockingStoreLock(s: State, t: Tid, c: Config)
    requires IsLockingPc(ThreadOf(s, t).pc)
    ensures StoreLockMoved(s, ActLocking(s, t, c), t)
  {
    var s' := s.(fileLock := None);
    match ThreadOf(s, t).pc
    case StatOutside(caller) => RaiseStoreLock(s, t, caller);
    case CheckOutside(caller, _) => ReturnStoreLock(s, t, caller);
    case WantFileLock(caller, _) => RaiseStoreLock(s, t, caller);
    case Release(caller, _) =>
      RaiseStoreLock(s', t, caller);
      ReturnStoreLock(s', t, caller);
  }

  lemma BuildingStoreLock(s: State, t: Tid)
    requires Inside(ThreadOf(s, t).pc) && !IsLockingPc(ThreadOf(s, t).pc)
    ensures StoreLockMoved(s, ActBuilding(s, t), t)
  {
  }

  lemma QueryStoreLock(s: State, t: Tid)
    requires !HoldsStore(ThreadOf(s, t).pc)
    ensures StoreLockMoved(s, ActQuery(s, t), t)
  {
  }

  lemma ActKeepsStoreLock(s: State, t: Tid, c: Config)
    ensures StoreLockMoved(s, Step(s, Act(t), c), t)
  {
    var pc := ThreadOf(s, t).pc;
    if IsSnapshotPc(pc) {
      SnapshotStoreLock(s, t, c);
    } else if IsLockingPc(pc) {
      LockingStoreLock(s, t, c);
    } else if Inside(pc) {
      BuildingStoreLock(s, t);
    } else {
      QueryStoreLock(s, t);
    }
  }

  lemma GotoFromIdleStoreLock(s: State, t: Tid, pc: Pc)
    requires !HoldsStore(pc)
    requires HoldsStore(ThreadOf(s, t).pc) ==> pc.Dead?
    ensures StoreLockMoved(s, Goto(s, t, pc), t)
  {
  }

  // A thread that starts something, or dies, takes no store lock.
  lemma GotoKeepsStoreLock(s: State, t: Tid, pc: Pc)
    requires StoreLockOk(s) && !HoldsStore(pc)
    requires HoldsStore(ThreadOf(s, t).pc) ==> pc.Dead?
    ensures StoreLockOk(Goto(s, t, pc))
  {
    GotoFromIdleStoreLock(s, t, pc);
    StoreLockMovedKeeps(s, Goto(s, t, pc), t);
  }

  lemma StepKeepsStoreLock(s: State, e: Event, c: Config)
    requires StoreLockOk(s)
    ensures StoreLockOk(Step(s, e, c))
  {
    match e
    case Act(t) =>
      ActKeepsStoreLock(s, t, c);
      StoreLockMovedKeeps(s, Step(s, e, c), t);
    case StartQuery(t) =>
      if ThreadOf(s, t).pc.Idle? {
        GotoKeepsStoreLock(s, t, GotCached(StoreOf(s, t.process).cache));
      }
    case StartMaterialize(t) =>
      if ThreadOf(s, t).pc.Idle? {
        GotoKeepsStoreLock(s, t, StatOutside(Plain));
      }
    case Crash(t) =>
      if !ThreadOf(s, t).pc.Dead? {
        GotoKeepsStoreLock(s, t, Dead(Inside(ThreadOf(s, t).pc)));
      }
    case _ => SameStoresAndThreads(s, Step(s, e, c));
  }

  lemma SameStoresAndThreads(s: State, s': State)
    requires StoreLockOk(s)
    requires s'.stores == s.stores && s'.threads == s.threads
    ensures StoreLockOk(s')
  {
    forall t | HoldsStore(ThreadOf(s', t).pc)
      ensures StoreOf(s', t.process).holder == Some(t)
    {
      assert HoldsStore(ThreadOf(s, t).pc);
    }
  }

  lemma {:induction false} RunKeepsStoreLock(events: seq<Event>, c: Config)
    ensures StoreLockOk(Run(events, c))
    decreases |events|
  {
    if events != [] {
      RunKeepsStoreLock(events[..|events| - 1], c);
      StepKeepsStoreLock(Run(events[..|events| - 1], c), events[|events| - 1], c);
    }
  }

  /** At most one thread of a store process is refreshing that process's snapshot. */
  lemma OneRefreshPerProcess(events: seq<Event>, c: Config, t: Tid, u: Tid)
    requires t.process == u.process
    requires HoldsStore(ThreadOf(Run(events, c), t).pc) && HoldsStore(ThreadOf(Run(events, c), u).pc)
    ensures t == u
  {
    RunKeepsStoreLock(events, c);
  }

  /******* Progress of an undisturbed thread *******/

  function Acts(s: State, t: Tid, n: nat, c: Config): State
    decreases n
  {
    if n == 0 then s else Acts(Step(s, Act(t), c), t, n - 1, c)
  }

  lemma {:induction false} InsertsRun(s: State, t: Tid, c: Config)
    requires ThreadOf(s, t).pc.Insert?
    ensures var pc := ThreadOf(s, t).pc;
            var rows := pc.temp + pc.todo;
            ReadModel.DistinctIds(rows) ==> Acts(s, t, |pc.todo|, c) == Goto(s, t, Insert(pc.caller, pc.seen, [], rows))
    decreases |ThreadOf(s, t).pc.todo|
  {
    var pc := ThreadOf(s, t).pc;
    var rows := pc.temp + pc.todo;
    if pc.todo == [] {
      assert rows == pc.temp;
      GotoSame(s, t);
    } else if ReadModel.DistinctIds(rows) {
      assert rows[|pc.temp|] == pc.todo[0];
      assert !InsertFails(pc.temp, pc.todo[0]) by {
        assert forall i :: 0 <= i < |pc.temp| ==> rows[i] == pc.temp[i];
      }
      var s1 := Step(s, Act(t), c);
      assert pc.temp + [pc.todo[0]] + pc.todo[1..] == rows;
      InsertsRun(s1, t, c);
      SameAfterGoto(s, t, Insert(pc.caller, pc.seen, pc.todo[1..], pc.temp + [pc.todo[0]]),
                    Insert(pc.caller, pc.seen, [], rows));
    }
  }

  lemma GotoSame(s: State, t: Tid)
    requires t in s.threads
    ensures Goto(s, t, ThreadOf(s, t).pc) == s
  {
    assert s.threads[t := s.threads[t]] == s.threads;
  }

  lemma {:induction false} ActsSplit(s: State, t: Tid, m: nat, n: nat, c: Config)
    ensures Acts(s, t, m + n, c) == Acts(Acts(s, t, m, c), t, n, c)
    decreases m
  {
    if m > 0 {
      ActsSplit(Step(s, Act(t), c), t, m - 1, n, c);
    }
  }

  /** A materialiser that has found no index and runs undisturbed publishes the complete table
      of the dataset as it stands, provided the dataset parses and no id repeats. */
  lemma QuietBuildPublishes(s: State, t: Tid, c: Config)
    requires ThreadOf(s, t).pc.ReadDataset?
    requires s.history != [] && s.history[|s.history| - 1].content.Results?
    requires ReadModel.DistinctIds(ReadModel.RowsOf(s.history[|s.history| - 1].content.gyms))
    ensures var rows := ReadModel.RowsOf(s.history[|s.history| - 1].content.gyms);
            Acts(s, t, |rows| + 3, c).index == s.index[ThreadOf(s, t).pc.seen := rows]
  {
    var rows := ReadModel.RowsOf(s.history[|s.history| - 1].content.gyms);
    var s1 := ReadRuns(s, t, c);
    assert [] + rows == rows;
    InsertAndPublish(s1, t, c);
  }

  lemma InsertAndPublish(s: State, t: Tid, c: Config)
    requires ThreadOf(s, t).pc.Insert?
    requires ReadModel.DistinctIds(ThreadOf(s, t).pc.temp + ThreadOf(s, t).pc.todo)
    ensures var pc := ThreadOf(s, t).pc;
            Acts(s, t, |pc.todo| + 2, c).index == s.index[pc.seen := pc.temp + pc.todo]
  {
    var pc := ThreadOf(s, t).pc;
    InsertsRun(s, t, c);
    ActsSplit(s, t, |pc.todo|, 2, c);
    PublishRuns(Goto(s, t, Insert(pc.caller, pc.seen, [], pc.temp + pc.todo)), t, c);
  }

  lemma ReadRuns(s: State, t: Tid, c: Config) returns (s1: State)
    requires ThreadOf(s, t).pc.ReadDataset?
    requires s.history != [] && s.history[|s.history| - 1].content.Results?
    ensures s1 == Step(s, Act(t), c)
    ensures var pc := ThreadOf(s, t).pc;
            ThreadOf(s1, t).pc
            == Insert(pc.caller, pc.seen, ReadModel.RowsOf(s.history[|s.history| - 1].content.gyms), [])
    ensures s1.index == s.index
  {
    s1 := Step(s, Act(t), c);
  }

  lemma PublishRuns(s: State, t: Tid, c: Config)
    requires ThreadOf(s, t).pc.Insert? && ThreadOf(s, t).pc.todo == []
    ensures Acts(s, t, 2, c).index == s.index[ThreadOf(s, t).pc.seen := ThreadOf(s, t).pc.temp]
  {
    var s1 := Step(s, Act(t), c);
    assert ThreadOf(s1, t).pc.Publish?;
    assert Acts(s, t, 2, c) == Step(s1, Act(t), c) by {
      ActsSplit(s, t, 1, 1, c);
      OneAct(s, t, c);
      OneAct(s1, t, c);
    }
  }

  lemma OneAct(s: State, t: Tid, c: Config)
    ensures Acts(s, t, 1, c) == Step(s, Act(t), c)
  {
    assert Acts(Step(s, Act(t), c), t, 0, c) == Step(s, Act(t), c);
  }
}
