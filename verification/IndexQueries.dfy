/** What one query or materialisation does when no other thread moves, exactly. The sequential
    reading of the code, as functions on what the thread can see, is the specification; the
    step-by-step protocol ends where it says, on every branch: fresh and stale snapshots, a
    missing, malformed or repetitive dataset, an index that is there, is built, or turned up
    while the thread waited for a lock, and connections that fit, do not fit or are closed. */
module IndexQueries {
  import opened Wrappers
  import opened IndexProtocol
  import opened IndexRuns
  import ReadModel

  type Files = map<nat, seq<ReadModel.Row>>

  /******* The sequential reading *******/

  // What a thread reads under one name, and the connection it is left with.
  function Reads(connection: Option<Connection>, files: Files, mtime: nat)
    : (Option<seq<ReadModel.Row>>, Option<Connection>)
  {
    if connection.Some? && connection.value.mtime == mtime then
      (if connection.value.open then Some(connection.value.rows) else None, connection)
    else if mtime in files then (Some(files[mtime]), Some(Connection(mtime, files[mtime], true)))
    else (None, if connection.Some? then Some(connection.value.(open := false)) else None)
  }

  // The index files after a materialisation; `None` if it raises.
  ghost function Materialized(history: seq<Version>, files: Files): Option<Files> {
    if history == [] then None
    else
      var latest := history[|history| - 1];
      if latest.mtime in files then Some(files)
      else if latest.content.Malformed? then None
      else
        var rows := ReadModel.RowsOf(latest.content.gyms);
        if ReadModel.DistinctIds(rows) then Some(files[latest.mtime := rows]) else None
  }

  // A query that has its snapshot connects and answers, or raises.
  function WithSnapshot(l: Local, start: nat, snapshot: Snapshot): Local {
    var (rows, connection) := Reads(l.connection, l.index, snapshot.mtime);
    l.(pc := Idle, connection := connection,
       answers := l.answers + if rows.Some? then [Answer(start, l.clock, rows.value)] else [])
  }

  // A query that has looked for its index: it raises, or caches a snapshot and gives the lock back.
  ghost function WithFiles(l: Local, files: Option<Files>, start: nat, mtime: nat): Local {
    match files
    case None => l.(pc := Idle, store := l.store.(holder := None))
    case Some(files) =>
      var snapshot := Snapshot(mtime, start);
      WithSnapshot(l.(index := files, store := Store(Some(snapshot), None)), start, snapshot)
  }

  // From taking the process's snapshot lock on.
  ghost function UnderStoreLock(l: Local, start: nat, mtime: nat, c: Config): Local {
    var cache := l.store.cache;
    if cache.Some? && cache.value.mtime == mtime && mtime in l.index && start <= cache.value.checkedAt + c.recheck
    then WithSnapshot(l.(store := Store(cache, None)), start, cache.value)
    else WithFiles(l, if mtime in l.index then Some(l.index) else Materialized(l.history, l.index), start, mtime)
  }

  ghost function Queried(l: Local, c: Config): Local {
    if !Due(l, c) then WithSnapshot(l, l.clock, l.store.cache.value)
    else if l.history == [] then l
    else UnderStoreLock(l, l.clock, Latest(l).mtime, c)
  }

  /******* From the snapshot to the answer *******/

  lemma ConnectionFits(s: State, t: Tid, c: Config) returns (s': State)
    requires ThreadOf(s, t).pc.HaveSnapshot? && ThreadOf(s, t).connection.Some?
    requires ThreadOf(s, t).connection.value.mtime == ThreadOf(s, t).pc.snapshot.mtime
    ensures Leads(s, s', t, c)
    ensures var l := LocalOf(s, t);
            LocalOf(s', t) == WithSnapshot(l, l.pc.start, l.pc.snapshot)
  {
    LeadsTwo(s, t, c);
    var s1 := Step(s, Act(t), c);
    s' := Step(s1, Act(t), c);
    assert LocalOf(s1, t) == LocalOf(s, t).(pc := Select(LocalOf(s, t).pc.start, LocalOf(s, t).pc.snapshot));
  }

  lemma NoFile(s: State, t: Tid, c: Config) returns (s': State)
    requires ThreadOf(s, t).pc.HaveSnapshot?
    requires var th := ThreadOf(s, t);
             th.pc.snapshot.mtime !in s.index
             && (th.connection.None? || th.connection.value.mtime != th.pc.snapshot.mtime)
    ensures Leads(s, s', t, c)
    ensures var l := LocalOf(s, t);
            LocalOf(s', t) == WithSnapshot(l, l.pc.start, l.pc.snapshot)
  {
    LeadsOne(s, t, c);
    s' := Step(s, Act(t), c);
    assert s.answers + [] == s.answers;
  }

  lemma NewConnection(s: State, t: Tid, c: Config) returns (s': State)
    requires ThreadOf(s, t).pc.HaveSnapshot?
    requires var th := ThreadOf(s, t);
             th.pc.snapshot.mtime in s.index
             && (th.connection.None? || th.connection.value.mtime != th.pc.snapshot.mtime)
    ensures Leads(s, s', t, c)
    ensures var l := LocalOf(s, t);
            LocalOf(s', t) == WithSnapshot(l, l.pc.start, l.pc.snapshot)
  {
    LeadsTwo(s, t, c);
    var s1 := Step(s, Act(t), c);
    s' := Step(s1, Act(t), c);
    Connects(s, t, c);
    Answers(s1, t, c);
  }

  lemma SnapshotEnds(s: State, t: Tid, c: Config) returns (s': State)
    requires ThreadOf(s, t).pc.HaveSnapshot?
    ensures Leads(s, s', t, c)
    ensures var l := LocalOf(s, t);
            LocalOf(s', t) == WithSnapshot(l, l.pc.start, l.pc.snapshot)
  {
    var th := ThreadOf(s, t);
    if th.connection.Some? && th.connection.value.mtime == th.pc.snapshot.mtime {
      s' := ConnectionFits(s, t, c);
    } else if th.pc.snapshot.mtime in s.index {
      s' := NewConnection(s, t, c);
    } else {
      s' := NoFile(s, t, c);
    }
  }

  lemma StoreSnapshotEnds(s: State, t: Tid, c: Config) returns (s': State)
    requires ThreadOf(s, t).pc.StoreSnapshot?
    ensures Leads(s, s', t, c)
    ensures var l := LocalOf(s, t);
            LocalOf(s', t) == WithFiles(l, Some(l.index), l.pc.start, l.pc.mtime)
  {
    var s1 := CachesSnapshot(s, t, c);
    s' := SnapshotEnds(s1, t, c);
    LeadsOn(s, s1, s', t, c);
  }

  /******* Inside the dataset lock *******/

  // The end of a materialisation, for either kind of caller; a query's snapshot is still to come.
  function Leaves(l: Local, caller: Caller, raised: bool): Local {
    if caller.Plain? then l.(pc := Idle, lock := None)
    else if raised then l.(pc := Idle, lock := None, store := l.store.(holder := None))
    else l.(pc := StoreSnapshot(caller.start, caller.mtime), lock := None)
  }

  lemma ReleaseLeaves(s: State, t: Tid, c: Config)
    requires ThreadOf(s, t).pc.Release?
    ensures var l := LocalOf(s, t);
            LocalOf(Step(s, Act(t), c), t) == Leaves(l, l.pc.caller, l.pc.failed)
  {
  }

  lemma MoreToInsert(temp: seq<ReadModel.Row>, todo: seq<ReadModel.Row>)
    requires ReadModel.DistinctIds(temp) && !ReadModel.DistinctIds(temp + todo)
    ensures todo != []
  {
    assert temp + [] == temp;
  }

  // The first repeated id ends the insertion.
  lemma {:induction false} InsertsFail(s: State, t: Tid, c: Config) returns (s': State)
    requires ThreadOf(s, t).pc.Insert?
    requires var pc := ThreadOf(s, t).pc;
             ReadModel.DistinctIds(pc.temp) && !ReadModel.DistinctIds(pc.temp + pc.todo)
    ensures Leads(s, s', t, c)
    ensures var l := LocalOf(s, t);
            LocalOf(s', t) == l.(pc := Release(l.pc.caller, true))
    decreases |ThreadOf(s, t).pc.todo|
  {
    var pc := ThreadOf(s, t).pc;
    MoreToInsert(pc.temp, pc.todo);
    LeadsOne(s, t, c);
    var s1 := Step(s, Act(t), c);
    if InsertFails(pc.temp, pc.todo[0]) {
      s' := s1;
    } else {
      assert pc.temp + [pc.todo[0]] + pc.todo[1..] == pc.temp + pc.todo;
      s' := InsertsFail(s1, t, c);
      LeadsOn(s, s1, s', t, c);
    }
  }

  // A dataset that does not parse, or repeats an id, ends the materialisation without a file.
  lemma BuildFails(s: State, t: Tid, c: Config) returns (s': State)
    requires ThreadOf(s, t).pc.ReadDataset? && !Indexable(LocalOf(s, t))
    ensures Leads(s, s', t, c)
    ensures var l := LocalOf(s, t);
            LocalOf(s', t) == l.(pc := Release(l.pc.caller, true))
  {
    LeadsOne(s, t, c);
    var s1 := Step(s, Act(t), c);
    if s.history == [] || s.history[|s.history| - 1].content.Malformed? {
      s' := s1;
    } else {
      var rows := CurrentRows(LocalOf(s, t));
      assert [] + rows == rows;
      ReadLocal(s, t, c);
      s' := InsertsFail(s1, t, c);
      LeadsOn(s, s1, s', t, c);
    }
  }

  lemma BuildSucceeds(s: State, t: Tid, c: Config) returns (s': State)
    requires ThreadOf(s, t).pc.ReadDataset? && Indexable(LocalOf(s, t))
    ensures Leads(s, s', t, c)
    ensures var l := LocalOf(s, t);
            LocalOf(s', t) == l.(pc := Release(l.pc.caller, false), index := l.index[l.pc.seen := CurrentRows(l)])
  {
    var s1 := ReadsAndInserts(s, t, c);
    var s2 := Publishes(s1, t, c);
    LeadsOne(s2, t, c);
    s' := Step(s2, Act(t), c);
    LeadsOn(s, s1, s2, t, c);
    LeadsOn(s, s2, s', t, c);
  }

  lemma FindsIndex(s: State, t: Tid, c: Config) returns (s': State)
    requires ThreadOf(s, t).pc.StatInside? && s.history != [] && s.history[|s.history| - 1].mtime in s.index
    ensures Leads(s, s', t, c)
    ensures var l := LocalOf(s, t);
            LocalOf(s', t) == l.(pc := Release(l.pc.caller, false))
  {
    LeadsTwo(s, t, c);
    s' := Step(Step(s, Act(t), c), Act(t), c);
  }

  // From entering the dataset lock to the decision how to leave it.
  lemma WorksInside(s: State, t: Tid, c: Config) returns (s': State)
    requires ThreadOf(s, t).pc.StatInside?
    ensures Leads(s, s', t, c)
    ensures var l := LocalOf(s, t);
            var files := Materialized(l.history, l.index);
            LocalOf(s', t) == l.(pc := Release(l.pc.caller, files.None?), index := files.GetOr(l.index))
  {
    if s.history == [] {
      LeadsOne(s, t, c);
      s' := Step(s, Act(t), c);
    } else if s.history[|s.history| - 1].mtime in s.index {
      s' := FindsIndex(s, t, c);
    } else {
      var s1 := LooksInside(s, t, c);
      if Indexable(LocalOf(s, t)) {
        s' := BuildSucceeds(s1, t, c);
      } else {
        s' := BuildFails(s1, t, c);
      }
      LeadsOn(s, s1, s', t, c);
    }
  }

  lemma LocksAndWorks(s: State, t: Tid, c: Config) returns (s': State)
    requires ThreadOf(s, t).pc.WantFileLock? && s.fileLock.None?
    ensures Leads(s, s', t, c)
    ensures var l := LocalOf(s, t);
            var files := Materialized(l.history, l.index);
            LocalOf(s', t) == Leaves(l.(index := files.GetOr(l.index)), l.pc.caller, files.None?)
  {
    LeadsOne(s, t, c);
    var s1 := Step(s, Act(t), c);
    var s2 := WorksInside(s1, t, c);
    LeadsOn(s, s1, s2, t, c);
    LeadsOne(s2, t, c);
    ReleaseLeaves(s2, t, c);
    s' := Step(s2, Act(t), c);
    LeadsOn(s, s2, s', t, c);
  }

  // Before the lock: a missing dataset raises, an index that is there ends the materialisation.
  lemma StatsOutside(s: State, t: Tid, c: Config)
    requires ThreadOf(s, t).pc.StatOutside?
    ensures var l := LocalOf(s, t);
            LocalOf(Step(s, Act(t), c), t)
            == if l.history != [] then l.(pc := CheckOutside(l.pc.caller, Latest(l).mtime))
               else l.(pc := Idle, store := if l.pc.caller.Plain? then l.store else l.store.(holder := None))
  {
  }

  lemma ChecksOutside(s: State, t: Tid, c: Config)
    requires ThreadOf(s, t).pc.CheckOutside? && s.fileLock.None?
    ensures var l := LocalOf(s, t);
            LocalOf(Step(s, Act(t), c), t)
            == if l.pc.seen in l.index then Leaves(l, l.pc.caller, false)
               else l.(pc := WantFileLock(l.pc.caller, l.clock))
  {
  }

  lemma LooksOutside(s: State, t: Tid, c: Config) returns (s': State)
    requires ThreadOf(s, t).pc.StatOutside? && s.fileLock.None?
    ensures Leads(s, s', t, c)
    ensures var l := LocalOf(s, t);
            LocalOf(s', t) == if l.history == [] then Leaves(l, l.pc.caller, true)
                              else if Latest(l).mtime in l.index then Leaves(l, l.pc.caller, false)
                              else l.(pc := WantFileLock(l.pc.caller, l.clock))
  {
    var s1 := Step(s, Act(t), c);
    StatsOutside(s, t, c);
    LeadsOne(s, t, c);
    if s.history == [] {
      s' := s1;
    } else {
      assert LocalOf(s1, t).lock == s1.fileLock && LocalOf(s1, t).pc == ThreadOf(s1, t).pc;
      ChecksOutside(s1, t, c);
      LeadsOne(s1, t, c);
      s' := Step(s1, Act(t), c);
      LeadsOn(s, s1, s', t, c);
    }
  }

  lemma MaterializesAlone(s: State, t: Tid, c: Config) returns (s': State)
    requires ThreadOf(s, t).pc.StatOutside? && s.fileLock.None?
    ensures Leads(s, s', t, c)
    ensures var l := LocalOf(s, t);
            var files := Materialized(l.history, l.index);
            LocalOf(s', t) == Leaves(l.(index := files.GetOr(l.index)), l.pc.caller, files.None?)
  {
    var s1 := LooksOutside(s, t, c);
    if s.history == [] || s.history[|s.history| - 1].mtime in s.index {
      s' := s1;
    } else {
      s' := LocksAndWorks(s1, t, c);
      LeadsOn(s, s1, s', t, c);
    }
  }

  /******* Main results *******/

  /** A materialisation that runs alone leaves the complete table of the current dataset under its
      name, whether it was there or had to be built; a missing dataset, one that does not parse and
      one that repeats an id leave every file as it was. No lock stays taken. */
  lemma MaterializationAlone(s: State, t: Tid, c: Config) returns (s': State)
    requires ThreadOf(s, t).pc.Idle? && s.fileLock.None?
    ensures Leads(Step(s, StartMaterialize(t), c), s', t, c)
    ensures var l := LocalOf(s, t);
            LocalOf(s', t) == l.(index := Materialized(l.history, l.index).GetOr(l.index))
  {
    s' := MaterializesAlone(Step(s, StartMaterialize(t), c), t, c);
  }

  lemma MaterializedEnds(s: State, s1: State, t: Tid, c: Config, l: Local, start: nat, mtime: nat) returns (s': State)
    requires l.lock.None? && Leads(s, s1, t, c)
    requires var files := Materialized(l.history, l.index);
             LocalOf(s1, t) == Leaves(l.(index := files.GetOr(l.index)), ForQuery(start, mtime), files.None?)
    ensures Leads(s, s', t, c)
    ensures LocalOf(s', t) == WithFiles(l, Materialized(l.history, l.index), start, mtime)
  {
    if Materialized(l.history, l.index).None? {
      s' := s1;
    } else {
      s' := StoreSnapshotEnds(s1, t, c);
      LeadsOn(s, s1, s', t, c);
    }
  }

  /** A query that waited for the dataset lock and finds it free: it looks again, answers from an
      index that turned up while it waited, builds one otherwise, or raises; both locks are free
      afterwards. */
  lemma QueryAfterFileLock(s: State, t: Tid, c: Config) returns (s': State)
    requires ThreadOf(s, t).pc.WantFileLock? && ThreadOf(s, t).pc.caller.ForQuery? && s.fileLock.None?
    ensures Leads(s, s', t, c)
    ensures var l := LocalOf(s, t);
            LocalOf(s', t) == WithFiles(l, Materialized(l.history, l.index), l.pc.caller.start, l.pc.caller.mtime)
  {
    var l := LocalOf(s, t);
    var s1 := LocksAndWorks(s, t, c);
    s' := MaterializedEnds(s, s1, t, c, l, l.pc.caller.start, l.pc.caller.mtime);
  }

  /** The waiter whose index was built by another thread meanwhile answers with its rows. */
  lemma WaiterAnswers(s: State, t: Tid, c: Config) returns (s': State)
    requires ThreadOf(s, t).pc.WantFileLock? && ThreadOf(s, t).pc.caller.ForQuery? && s.fileLock.None?
    requires var l := LocalOf(s, t);
             && l.history != [] && Latest(l).mtime == l.pc.caller.mtime && l.pc.caller.mtime in l.index
             && Connectable(l, l.pc.caller.mtime)
    ensures Leads(s, s', t, c)
    ensures var l := LocalOf(s, t);
            && s'.answers == s.answers + [Answer(l.pc.caller.start, s.clock, RowsFor(l, l.pc.caller.mtime))]
            && s'.index == s.index && s'.fileLock == None
  {
    s' := QueryAfterFileLock(s, t, c);
    assert LocalOf(s', t).answers == s'.answers && LocalOf(s', t).index == s'.index;
    assert LocalOf(s', t).lock == s'.fileLock;
  }

  /** While another thread of the process holds the snapshot lock, a query neither proceeds nor
      fails: it waits for as long as that takes. */
  lemma StoreWaiterWaits(s: State, t: Tid, n: nat, c: Config)
    requires ThreadOf(s, t).pc.WantStoreLock? && StoreOf(s, t.process).holder.Some?
    ensures Acts(s, t, n, c) == s
  {
    if n > 0 {
      StoreWaiterWaits(s, t, n - 1, c);
    }
  }

  lemma CacheHit(s: State, t: Tid, c: Config) returns (s': State)
    requires ThreadOf(s, t).pc.CheckCache?
    requires var (pc, cache) := (ThreadOf(s, t).pc, StoreOf(s, t.process).cache);
             cache.Some? && cache.value.mtime == pc.mtime && pc.mtime in s.index
             && pc.start <= cache.value.checkedAt + c.recheck
    ensures Leads(s, s', t, c)
    ensures var l := LocalOf(s, t);
            LocalOf(s', t) == WithSnapshot(l.(store := l.store.(holder := None)), l.pc.start, l.store.cache.value)
  {
    LeadsOne(s, t, c);
    var s1 := Step(s, Act(t), c);
    s' := SnapshotEnds(s1, t, c);
    LeadsOn(s, s1, s', t, c);
  }

  lemma CacheMiss(s: State, t: Tid, c: Config) returns (s': State)
    requires ThreadOf(s, t).pc.CheckCache? && s.fileLock.None?
    requires var (pc, cache) := (ThreadOf(s, t).pc, StoreOf(s, t.process).cache);
             !(cache.Some? && cache.value.mtime == pc.mtime && pc.mtime in s.index
               && pc.start <= cache.value.checkedAt + c.recheck)
    ensures Leads(s, s', t, c)
    ensures var l := LocalOf(s, t);
            var files := if l.pc.mtime in l.index then Some(l.index) else Materialized(l.history, l.index);
            LocalOf(s', t) == WithFiles(l, files, l.pc.start, l.pc.mtime)
  {
    var l := LocalOf(s, t);
    LeadsTwo(s, t, c);
    var s1 := Step(Step(s, Act(t), c), Act(t), c);
    if l.pc.mtime in l.index {
      s' := StoreSnapshotEnds(s1, t, c);
      LeadsOn(s, s1, s', t, c);
    } else {
      var s2 := MaterializesAlone(s1, t, c);
      LeadsOn(s, s1, s2, t, c);
      s' := MaterializedEnds(s, s2, t, c, l, l.pc.start, l.pc.mtime);
    }
  }

  /** A query that waited for its process's snapshot lock and finds it free looks at the cache again
      and takes a snapshot that another thread has refreshed meanwhile. */
  lemma QueryAfterStoreLock(s: State, t: Tid, c: Config) returns (s': State)
    requires ThreadOf(s, t).pc.WantStoreLock? && StoreOf(s, t.process).holder.None? && s.fileLock.None?
    ensures Leads(s, s', t, c)
    ensures var l := LocalOf(s, t);
            LocalOf(s', t) == UnderStoreLock(l, l.pc.start, l.pc.mtime, c)
  {
    LeadsOne(s, t, c);
    var l, s1 := LocalOf(s, t), Step(s, Act(t), c);
    var cache := l.store.cache;
    if cache.Some? && cache.value.mtime == l.pc.mtime && l.pc.mtime in l.index
       && l.pc.start <= cache.value.checkedAt + c.recheck {
      s' := CacheHit(s1, t, c);
    } else {
      s' := CacheMiss(s1, t, c);
    }
    LeadsOn(s, s1, s', t, c);
  }

  lemma FreshQueryAlone(s: State, t: Tid, c: Config) returns (s': State)
    requires ThreadOf(s, t).pc.Idle? && !Due(LocalOf(s, t), c)
    ensures Leads(Step(s, StartQuery(t), c), s', t, c)
    ensures LocalOf(s', t) == Queried(LocalOf(s, t), c)
  {
    var s1 := Step(s, StartQuery(t), c);
    LeadsOne(s1, t, c);
    var s2 := StartsFresh(s, t, c);
    s' := SnapshotEnds(s2, t, c);
    LeadsOn(s1, s2, s', t, c);
  }

  // A query with a stale snapshot stats the dataset; a missing one ends it.
  lemma StatsDataset(s: State, t: Tid, c: Config) returns (s': State)
    requires ThreadOf(s, t).pc.Idle? && Due(LocalOf(s, t), c)
    ensures Leads(Step(s, StartQuery(t), c), s', t, c)
    ensures var l := LocalOf(s, t);
            LocalOf(s', t) == if l.history == [] then l else l.(pc := WantStoreLock(l.clock, Latest(l).mtime))
  {
    var s1 := Step(s, StartQuery(t), c);
    LeadsOne(s1, t, c);
    var s2 := StartsStale(s, t, c);
    LeadsOne(s2, t, c);
    s' := Step(s2, Act(t), c);
    LeadsOn(s1, s2, s', t, c);
  }

  /** A query that runs alone, with both locks free, from any state and on every branch: it ends
      idle with the answer, snapshot, connection and index files of the sequential reading. */
  lemma QueryAlone(s: State, t: Tid, c: Config) returns (s': State)
    requires ThreadOf(s, t).pc.Idle? && StoreOf(s, t.process).holder.None? && s.fileLock.None?
    ensures Leads(Step(s, StartQuery(t), c), s', t, c)
    ensures LocalOf(s', t) == Queried(LocalOf(s, t), c)
  {
    var l, s1 := LocalOf(s, t), Step(s, StartQuery(t), c);
    if !Due(l, c) {
      s' := FreshQueryAlone(s, t, c);
    } else {
      var s2 := StatsDataset(s, t, c);
      if l.history == [] {
        s' := s2;
      } else {
        assert LocalOf(s2, t).lock == s2.fileLock && LocalOf(s2, t).store == StoreOf(s2, t.process);
        s' := QueryAfterStoreLock(s2, t, c);
        LeadsOn(s1, s2, s', t, c);
      }
    }
  }

  /******* Cleaning up *******/

  // Removing files one by one.
  function Removals(t: Tid, mtimes: seq<nat>): seq<Event> {
    if mtimes == [] then [] else Removals(t, mtimes[..|mtimes| - 1]) + [RemoveOld(t, mtimes[|mtimes| - 1])]
  }

  // The files without the listed ones, except the one to keep.
  function Kept(files: Files, mtimes: seq<nat>, keep: nat): Files {
    map m | m in files && (m !in mtimes || m == keep) :: files[m]
  }

  lemma RemovesOne(s: State, t: Tid, mtimes: seq<nat>, last: nat, files: Files, c: Config)
    requires ThreadOf(s, t).pc.Cleanup? && s.index == Kept(files, mtimes, ThreadOf(s, t).pc.seen)
    ensures Step(s, RemoveOld(t, last), c).index == Kept(files, mtimes + [last], ThreadOf(s, t).pc.seen)
  {
  }

  /** A cleanup that removes every older file it lists leaves exactly the unlisted files and the one
      just published. */
  lemma {:induction false} CleanupRemoves(events: seq<Event>, t: Tid, mtimes: seq<nat>, c: Config)
    requires ThreadOf(Run(events, c), t).pc.Cleanup?
    ensures var s, s' := Run(events, c), Run(events + Removals(t, mtimes), c);
            && ThreadOf(s', t) == ThreadOf(s, t)
            && s'.index == Kept(s.index, mtimes, ThreadOf(s, t).pc.seen)
  {
    if mtimes == [] {
      assert events + [] == events;
    } else {
      var init, last := mtimes[..|mtimes| - 1], mtimes[|mtimes| - 1];
      CleanupRemoves(events, t, init, c);
      RunOne(events + Removals(t, init), RemoveOld(t, last), c);
      RemovesOne(Run(events + Removals(t, init), c), t, init, last, Run(events, c).index, c);
      assert events + Removals(t, init) + [RemoveOld(t, last)] == events + Removals(t, mtimes);
      assert mtimes == init + [last];
    }
  }
}
