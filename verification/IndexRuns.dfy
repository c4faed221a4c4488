/** Particular runs of the index protocol: what an undisturbed query does from its first access to
    its answer, what happens when the dataset is replaced in the middle of one, and what a crash
    inside the dataset lock leaves behind. */
module IndexRuns {
  import opened Wrappers
  import opened IndexProtocol
  import ReadModel

  /******* What one thread sees *******/

  // Everything that a step of a thread reads or writes.
  datatype Local = Local(
    pc: Pc,
    connection: Option<Connection>,
    store: Store,
    lock: Option<Tid>,
    index: map<nat, seq<ReadModel.Row>>,
    answers: seq<Answer>,
    clock: nat,
    history: seq<Version>)

  function LocalOf(s: State, t: Tid): Local {
    Local(ThreadOf(s, t).pc, ThreadOf(s, t).connection, StoreOf(s, t.process),
          s.fileLock, s.index, s.answers, s.clock, s.history)
  }

  function Latest(l: Local): Version
    requires l.history != []
  {
    l.history[|l.history| - 1]
  }

  // The current dataset parses and repeats no id.
  ghost predicate Indexable(l: Local) {
    l.history != [] && Latest(l).content.Results? && ReadModel.DistinctIds(ReadModel.RowsOf(Latest(l).content.gyms))
  }

  function CurrentRows(l: Local): seq<ReadModel.Row>
    requires l.history != [] && Latest(l).content.Results?
  {
    ReadModel.RowsOf(Latest(l).content.gyms)
  }

  ghost predicate LeadsIn(s: State, s': State, t: Tid, n: nat, c: Config) { Acts(s, t, n, c) == s' }

  // Some accesses of t alone lead from one state to another.
  ghost predicate Leads(s: State, s': State, t: Tid, c: Config) { exists n: nat :: LeadsIn(s, s', t, n, c) }

  lemma LeadsOn(s: State, s1: State, s2: State, t: Tid, c: Config)
    requires Leads(s, s1, t, c) && Leads(s1, s2, t, c)
    ensures Leads(s, s2, t, c)
  {
    var m: nat :| LeadsIn(s, s1, t, m, c);
    var n: nat :| LeadsIn(s1, s2, t, n, c);
    ActsSplit(s, t, m, n, c);
    assert LeadsIn(s, s2, t, m + n, c);
  }

  lemma LeadsOne(s: State, t: Tid, c: Config)
    ensures Leads(s, Step(s, Act(t), c), t, c)
  {
    OneAct(s, t, c);
    assert LeadsIn(s, Step(s, Act(t), c), t, 1, c);
  }

  lemma LeadsTwo(s: State, t: Tid, c: Config)
    ensures Leads(s, Step(Step(s, Act(t), c), Act(t), c), t, c)
  {
    LeadsOne(s, t, c);
    LeadsOne(Step(s, Act(t), c), t, c);
    LeadsOn(s, Step(s, Act(t), c), Step(Step(s, Act(t), c), Act(t), c), t, c);
  }

  /******* From the first access to the dataset *******/

  // No fresh snapshot: the query has to look at the dataset.
  predicate Due(l: Local, c: Config) { l.store.cache.None? || l.store.cache.value.checkedAt + c.recheck < l.clock }

  lemma StartsStale(s: State, t: Tid, c: Config) returns (s': State)
    requires ThreadOf(s, t).pc.Idle? && Due(LocalOf(s, t), c)
    ensures s' == Step(Step(s, StartQuery(t), c), Act(t), c)
    ensures LocalOf(s', t) == LocalOf(s, t).(pc := NeedStat(s.clock))
  {
    s' := Step(Step(s, StartQuery(t), c), Act(t), c);
  }

  lemma TakesStoreLock(s: State, t: Tid, c: Config) returns (s': State)
    requires ThreadOf(s, t).pc.NeedStat? && s.history != [] && StoreOf(s, t.process).holder.None?
    ensures Leads(s, s', t, c)
    ensures var l := LocalOf(s, t);
            LocalOf(s', t) == l.(pc := CheckCache(l.pc.start, Latest(l).mtime), store := l.store.(holder := Some(t)))
  {
    LeadsTwo(s, t, c);
    s' := Step(Step(s, Act(t), c), Act(t), c);
  }

  // A stale snapshot stays stale at the second look.
  lemma LooksForIndex(s: State, t: Tid, c: Config) returns (s': State)
    requires ThreadOf(s, t).pc.CheckCache?
    requires var cache := StoreOf(s, t.process).cache;
             cache.None? || cache.value.checkedAt + c.recheck < ThreadOf(s, t).pc.start
    ensures Leads(s, s', t, c)
    ensures var l := LocalOf(s, t);
            var (start, mtime) := (l.pc.start, l.pc.mtime);
            LocalOf(s', t) == l.(pc := if mtime in l.index then StoreSnapshot(start, mtime)
                                       else StatOutside(ForQuery(start, mtime)))
  {
    LeadsTwo(s, t, c);
    s' := Step(Step(s, Act(t), c), Act(t), c);
  }

  // The way of a due query to the decision whether an index has to be built.
  lemma ReachesDecision(s: State, t: Tid, c: Config) returns (s1: State, s': State)
    requires ThreadOf(s, t).pc.Idle? && Due(LocalOf(s, t), c)
    requires s.history != [] && StoreOf(s, t.process).holder.None?
    ensures s1 == Step(s, StartQuery(t), c) && Leads(s1, s', t, c)
    ensures var l := LocalOf(s, t);
            var mtime := Latest(l).mtime;
            LocalOf(s', t) == l.(
              pc := if mtime in l.index then StoreSnapshot(l.clock, mtime) else StatOutside(ForQuery(l.clock, mtime)),
              store := l.store.(holder := Some(t)))
  {
    s1 := Step(s, StartQuery(t), c);
    var s2 := StartsStale(s, t, c);
    LeadsOne(s1, t, c);
    var s3 := TakesStoreLock(s2, t, c);
    s' := LooksForIndex(s3, t, c);
    LeadsOn(s1, s2, s3, t, c);
    LeadsOn(s1, s3, s', t, c);
  }

  lemma TakesFileLock(s: State, t: Tid, c: Config) returns (s': State)
    requires ThreadOf(s, t).pc.StatOutside? && s.history != [] && s.fileLock.None?
    requires s.history[|s.history| - 1].mtime !in s.index
    ensures Leads(s, s', t, c)
    ensures LocalOf(s', t) == LocalOf(s, t).(pc := StatInside(ThreadOf(s, t).pc.caller), lock := Some(t))
  {
    LeadsTwo(s, t, c);
    var s2 := Step(Step(s, Act(t), c), Act(t), c);
    LeadsOne(s2, t, c);
    s' := Step(s2, Act(t), c);
    LeadsOn(s, s2, s', t, c);
  }

  lemma LooksInside(s: State, t: Tid, c: Config) returns (s': State)
    requires ThreadOf(s, t).pc.StatInside? && s.history != []
    requires s.history[|s.history| - 1].mtime !in s.index
    ensures Leads(s, s', t, c)
    ensures var l := LocalOf(s, t);
            LocalOf(s', t) == l.(pc := ReadDataset(l.pc.caller, Latest(l).mtime))
  {
    LeadsTwo(s, t, c);
    s' := Step(Step(s, Act(t), c), Act(t), c);
  }

  // With no index of the current version, the query is about to read the dataset.
  lemma ReachesDataset(s: State, t: Tid, c: Config) returns (s1: State, s': State)
    requires ThreadOf(s, t).pc.Idle? && Due(LocalOf(s, t), c)
    requires s.history != [] && StoreOf(s, t.process).holder.None? && s.fileLock.None?
    requires s.history[|s.history| - 1].mtime !in s.index
    ensures s1 == Step(s, StartQuery(t), c) && Leads(s1, s', t, c)
    ensures var l := LocalOf(s, t);
            var mtime := Latest(l).mtime;
            LocalOf(s', t) == l.(pc := ReadDataset(ForQuery(l.clock, mtime), mtime),
                                 store := l.store.(holder := Some(t)), lock := Some(t))
  {
    var s2;
    s1, s2 := ReachesDecision(s, t, c);
    var s3 := TakesFileLock(s2, t, c);
    s' := LooksInside(s3, t, c);
    LeadsOn(s1, s2, s3, t, c);
    LeadsOn(s1, s3, s', t, c);
  }

  /******* From the dataset to the answer *******/

  lemma ReadsAndInserts(s: State, t: Tid, c: Config) returns (s': State)
    requires ThreadOf(s, t).pc.ReadDataset? && Indexable(LocalOf(s, t))
    ensures Leads(s, s', t, c)
    ensures var l := LocalOf(s, t);
            LocalOf(s', t) == l.(pc := Insert(l.pc.caller, l.pc.seen, [], CurrentRows(l)))
  {
    var rows := CurrentRows(LocalOf(s, t));
    var s1 := ReadRuns(s, t, c);
    LeadsOne(s, t, c);
    assert [] + rows == rows;
    InsertsRun(s1, t, c);
    s' := Acts(s1, t, |rows|, c);
    assert LeadsIn(s1, s', t, |rows|, c);
    LeadsOn(s, s1, s', t, c);
    ReadLocal(s, t, c);
  }

  lemma ReadLocal(s: State, t: Tid, c: Config)
    requires ThreadOf(s, t).pc.ReadDataset? && s.history != [] && s.history[|s.history| - 1].content.Results?
    ensures var l := LocalOf(s, t);
            LocalOf(Step(s, Act(t), c), t) == l.(pc := Insert(l.pc.caller, l.pc.seen, CurrentRows(l), []))
  {
  }

  lemma PublishesAndLeaves(s: State, t: Tid, c: Config) returns (s': State)
    requires ThreadOf(s, t).pc.Insert? && ThreadOf(s, t).pc.todo == [] && ThreadOf(s, t).pc.caller.ForQuery?
    ensures Leads(s, s', t, c)
    ensures var l := LocalOf(s, t);
            LocalOf(s', t) == l.(pc := StoreSnapshot(l.pc.caller.start, l.pc.caller.mtime), lock := None,
                                 index := l.index[l.pc.seen := l.pc.temp])
  {
    var s2 := Publishes(s, t, c);
    LeadsTwo(s2, t, c);
    s' := Step(Step(s2, Act(t), c), Act(t), c);
    LeadsOn(s, s2, s', t, c);
  }

  lemma Publishes(s: State, t: Tid, c: Config) returns (s': State)
    requires ThreadOf(s, t).pc.Insert? && ThreadOf(s, t).pc.todo == []
    ensures Leads(s, s', t, c)
    ensures var l := LocalOf(s, t);
            LocalOf(s', t) == l.(pc := Cleanup(l.pc.caller, l.pc.seen), index := l.index[l.pc.seen := l.pc.temp])
  {
    LeadsTwo(s, t, c);
    s' := Step(Step(s, Act(t), c), Act(t), c);
  }

  // The rows a thread with this snapshot reads.
  function RowsFor(l: Local, mtime: nat): seq<ReadModel.Row>
    requires mtime in l.index
  {
    if l.connection.Some? && l.connection.value.mtime == mtime then l.connection.value.rows else l.index[mtime]
  }

  // No closed connection to this index is left over.
  predicate Connectable(l: Local, mtime: nat) {
    l.connection.None? || l.connection.value.open || l.connection.value.mtime != mtime
  }

  lemma CachesSnapshot(s: State, t: Tid, c: Config) returns (s': State)
    requires ThreadOf(s, t).pc.StoreSnapshot?
    ensures Leads(s, s', t, c)
    ensures var l := LocalOf(s, t);
            var snapshot := Snapshot(l.pc.mtime, l.pc.start);
            LocalOf(s', t) == l.(pc := HaveSnapshot(l.pc.start, snapshot), store := Store(Some(snapshot), None))
  {
    LeadsOne(s, t, c);
    s' := Step(s, Act(t), c);
  }

  lemma Connects(s: State, t: Tid, c: Config)
    requires ThreadOf(s, t).pc.HaveSnapshot?
    requires var mtime := ThreadOf(s, t).pc.snapshot.mtime;
             mtime in s.index && Connectable(LocalOf(s, t), mtime)
    ensures var l := LocalOf(s, t);
            var mtime := l.pc.snapshot.mtime;
            LocalOf(Step(s, Act(t), c), t) == l.(pc := Select(l.pc.start, l.pc.snapshot),
                                                 connection := Some(Connection(mtime, RowsFor(l, mtime), true)))
  {
  }

  lemma Answers(s: State, t: Tid, c: Config)
    requires ThreadOf(s, t).pc.Select? && ThreadOf(s, t).connection.Some? && ThreadOf(s, t).connection.value.open
    ensures var l := LocalOf(s, t);
            LocalOf(Step(s, Act(t), c), t) == l.(pc := Idle,
                                                 answers := l.answers +
                                                            [Answer(l.pc.start, l.clock, l.connection.value.rows)])
  {
  }

  lemma ConnectsAndAnswers(s: State, t: Tid, c: Config) returns (s': State)
    requires ThreadOf(s, t).pc.HaveSnapshot?
    requires var mtime := ThreadOf(s, t).pc.snapshot.mtime;
             mtime in s.index && Connectable(LocalOf(s, t), mtime)
    ensures Leads(s, s', t, c)
    ensures var l := LocalOf(s, t);
            s'.answers == l.answers + [Answer(l.pc.start, l.clock, RowsFor(l, l.pc.snapshot.mtime))]
    ensures s'.index == s.index && s'.history == s.history && s'.fileLock == s.fileLock
  {
    LeadsTwo(s, t, c);
    var s1 := Step(s, Act(t), c);
    s' := Step(s1, Act(t), c);
    Connects(s, t, c);
    Answers(s1, t, c);
    assert LocalOf(s', t).answers == s'.answers;
  }

  lemma SnapshotToAnswer(s: State, t: Tid, c: Config) returns (s': State)
    requires ThreadOf(s, t).pc.StoreSnapshot?
    requires ThreadOf(s, t).pc.mtime in s.index && Connectable(LocalOf(s, t), ThreadOf(s, t).pc.mtime)
    ensures Leads(s, s', t, c)
    ensures var l := LocalOf(s, t);
            s'.answers == l.answers + [Answer(l.pc.start, l.clock, RowsFor(l, l.pc.mtime))]
    ensures s'.index == s.index && s'.history == s.history && s'.fileLock == s.fileLock
  {
    var s1 := CachesSnapshot(s, t, c);
    s' := ConnectsAndAnswers(s1, t, c);
    LeadsOn(s, s1, s', t, c);
  }

  // What a query that is about to read the dataset answers, if nothing else happens.
  lemma DatasetToAnswer(s: State, t: Tid, c: Config) returns (s': State)
    requires ThreadOf(s, t).pc.ReadDataset? && Indexable(LocalOf(s, t))
    requires var pc := ThreadOf(s, t).pc;
             pc.caller.ForQuery? && pc.caller.mtime == pc.seen && Connectable(LocalOf(s, t), pc.seen)
    ensures Leads(s, s', t, c)
    ensures var l := LocalOf(s, t);
            && s'.index == l.index[l.pc.seen := CurrentRows(l)] && s'.history == l.history && s'.fileLock == None
            && s'.answers == l.answers + [Answer(l.pc.caller.start, l.clock,
                                                 if l.connection.Some? && l.connection.value.mtime == l.pc.seen
                                                 then l.connection.value.rows else CurrentRows(l))]
  {
    var s1 := ReadsAndInserts(s, t, c);
    var s2 := PublishesAndLeaves(s1, t, c);
    LeadsOn(s, s1, s2, t, c);
    s' := SnapshotToAnswer(s2, t, c);
    LeadsOn(s, s2, s', t, c);
  }

  /******* An undisturbed query *******/

  // Rows indexed under the latest version's name are the latest version's rows.
  lemma LatestRows(s: State, rows: seq<ReadModel.Row>)
    requires HistoryOk(s) && s.history != []
    requires Indexed(s.history, s.history[|s.history| - 1].mtime, rows)
    ensures IsTable(s.history[|s.history| - 1].content, rows)
  {
    var i: nat, j: nat :| IndexedAt(s.history, s.history[|s.history| - 1].mtime, rows, i, j);
  }

  /** Progress, from the first access to the answer: in any reachable state, a query that finds
      its snapshot due and both locks free, and that nothing disturbs, answers, and with exactly
      the rows of the dataset as it stands, whether it has to build the index or not. */
  lemma DueQueryAnswers(s: State, t: Tid, c: Config) returns (s': State)
    requires Inv(s, c)
    requires ThreadOf(s, t).pc.Idle? && Due(LocalOf(s, t), c) && Indexable(LocalOf(s, t))
    requires StoreOf(s, t.process).holder.None? && s.fileLock.None?
    requires Connectable(LocalOf(s, t), Latest(LocalOf(s, t)).mtime)
    ensures Leads(Step(s, StartQuery(t), c), s', t, c)
    ensures s'.answers == s.answers + [Answer(s.clock, s.clock, CurrentRows(LocalOf(s, t)))]
  {
    var l := LocalOf(s, t);
    var mtime := Latest(l).mtime;
    ConnectionRows(s, t, c);
    if mtime in s.index {
      var s1, s2 := ReachesDecision(s, t, c);
      s' := SnapshotToAnswer(s2, t, c);
      LeadsOn(s1, s2, s', t, c);
      LatestRows(s, s.index[mtime]);
    } else {
      var s1, s2 := ReachesDataset(s, t, c);
      s' := DatasetToAnswer(s2, t, c);
      LeadsOn(s1, s2, s', t, c);
    }
  }

  lemma StartsFresh(s: State, t: Tid, c: Config) returns (s': State)
    requires ThreadOf(s, t).pc.Idle? && !Due(LocalOf(s, t), c)
    ensures s' == Step(Step(s, StartQuery(t), c), Act(t), c)
    ensures LocalOf(s', t) == LocalOf(s, t).(pc := HaveSnapshot(s.clock, StoreOf(s, t.process).cache.value))
  {
    s' := Step(Step(s, StartQuery(t), c), Act(t), c);
  }

  /** An undisturbed query with a fresh snapshot, whose index is visible, answers from it without
      looking at the dataset. */
  lemma FreshQueryAnswers(s: State, t: Tid, c: Config) returns (s': State)
    requires ThreadOf(s, t).pc.Idle? && !Due(LocalOf(s, t), c)
    requires var mtime := StoreOf(s, t.process).cache.value.mtime;
             mtime in s.index && Connectable(LocalOf(s, t), mtime)
    ensures Leads(Step(s, StartQuery(t), c), s', t, c)
    ensures s'.answers == s.answers +
                        [Answer(s.clock, s.clock, RowsFor(LocalOf(s, t), StoreOf(s, t.process).cache.value.mtime))]
  {
    var s1 := Step(s, StartQuery(t), c);
    var s2 := StartsFresh(s, t, c);
    LeadsOne(s1, t, c);
    s' := ConnectsAndAnswers(s2, t, c);
    LeadsOn(s1, s2, s', t, c);
  }

  // A connection to the latest version's index reads the latest version's rows.
  lemma ConnectionRows(s: State, t: Tid, c: Config)
    requires Inv(s, c) && Indexable(LocalOf(s, t))
    ensures var l := LocalOf(s, t);
            l.connection.Some? && l.connection.value.mtime == Latest(l).mtime
            ==> l.connection.value.rows == CurrentRows(l)
  {
    ThreadOkNow(s, c, t);
    var l := LocalOf(s, t);
    if l.connection.Some? && l.connection.value.mtime == Latest(l).mtime {
      LatestRows(s, l.connection.value.rows);
    }
  }

  /******* Replacing the dataset in the middle *******/

  lemma {:induction false} ActsAreARun(events: seq<Event>, t: Tid, n: nat, c: Config) returns (more: seq<Event>)
    ensures Run(events + more, c) == Acts(Run(events, c), t, n, c)
    decreases n
  {
    if n == 0 {
      more := [];
      assert events + more == events;
    } else {
      RunOne(events, Act(t), c);
      var rest := ActsAreARun(events + [Act(t)], t, n - 1, c);
      more := [Act(t)] + rest;
      assert events + more == events + [Act(t)] + rest;
    }
  }

  lemma RunOne(events: seq<Event>, e: Event, c: Config)
    ensures Run(events + [e], c) == Step(Run(events, c), e, c)
  {
    assert (events + [e])[..|events|] == events;
  }

  lemma LeadsToRun(events: seq<Event>, s': State, t: Tid, c: Config) returns (more: seq<Event>)
    requires Leads(Run(events, c), s', t, c)
    ensures Run(events + more, c) == s'
  {
    var n: nat :| LeadsIn(Run(events, c), s', t, n, c);
    more := ActsAreARun(events, t, n, c);
  }

  // A query that is reading the only dataset version there is.
  lemma ReadingFirst(c: Config, t: Tid, mtime: nat, content: ReadModel.Payload) returns (events: seq<Event>)
    ensures LocalOf(Run(events, c), t) == Local(
              ReadDataset(ForQuery(0, mtime), mtime), None, Store(None, Some(t)), Some(t), map[], [], 0,
              [Version(mtime, content, 0)])
  {
    RunOne([], Rewrite(mtime, content), c);
    var s0 := Run([] + [Rewrite(mtime, content)], c);
    FirstVersion(mtime, content, c);
    RunOne([] + [Rewrite(mtime, content)], StartQuery(t), c);
    var s1, s2 := ReachesDataset(s0, t, c);
    var more := LeadsToRun([] + [Rewrite(mtime, content)] + [StartQuery(t)], s2, t, c);
    events := [] + [Rewrite(mtime, content)] + [StartQuery(t)] + more;
  }

  lemma FirstVersion(mtime: nat, content: ReadModel.Payload, c: Config)
    ensures Step(Run([], c), Rewrite(mtime, content), c) == INIT.(history := [Version(mtime, content, 0)])
  {
  }

  lemma Replaced(s: State, t: Tid, c: Config, d: nat, mtime: nat, content: ReadModel.Payload)
    requires forall i :: 0 <= i < |s.history| ==> s.history[i].mtime != mtime
    ensures var l := LocalOf(s, t);
            LocalOf(Step(Step(s, Tick(d), c), Rewrite(mtime, content), c), t)
            == l.(clock := l.clock + d, history := l.history + [Version(mtime, content, l.clock + d)])
  {
  }

  lemma RunReplaced(events: seq<Event>, t: Tid, c: Config, d: nat, mtime: nat, content: ReadModel.Payload)
    requires forall i :: 0 <= i < |Run(events, c).history| ==> Run(events, c).history[i].mtime != mtime
    ensures var l := LocalOf(Run(events, c), t);
            LocalOf(Run(events + [Tick(d)] + [Rewrite(mtime, content)], c), t)
            == l.(clock := l.clock + d, history := l.history + [Version(mtime, content, l.clock + d)])
  {
    RunOne(events, Tick(d), c);
    RunOne(events + [Tick(d)], Rewrite(mtime, content), c);
    Replaced(Run(events, c), t, c, d, mtime, content);
  }

  /** The dataset is replaced between the `stat` that names the index and the read that fills it.
      From every reachable state with a query about to read, and for every new version and delay,
      the query goes on to publish the new content under the old version's name; without a
      connection of its own to that name it also answers from the version published after it
      began. */
  lemma ReplacedUnderReader(events: seq<Event>, t: Tid, c: Config, d: nat, mtime: nat, content: ReadModel.Payload)
    returns (more: seq<Event>)
    requires var l := LocalOf(Run(events, c), t);
             && l.pc.ReadDataset? && l.pc.caller.ForQuery? && l.pc.caller.mtime == l.pc.seen
             && Connectable(l, l.pc.seen) && forall i :: 0 <= i < |l.history| ==> l.history[i].mtime != mtime
    requires content.Results? && ReadModel.DistinctIds(ReadModel.RowsOf(content.gyms))
    ensures var l := LocalOf(Run(events, c), t);
            var s' := Run(events + more, c);
            var rows := ReadModel.RowsOf(content.gyms);
            && s'.history == l.history + [Version(mtime, content, l.clock + d)]
            && s'.index == l.index[l.pc.seen := rows]
            && s'.answers == l.answers + [Answer(l.pc.caller.start, l.clock + d,
                                                 if l.connection.Some? && l.connection.value.mtime == l.pc.seen
                                                 then l.connection.value.rows else rows)]
  {
    RunReplaced(events, t, c, d, mtime, content);
    var replaced := events + [Tick(d)] + [Rewrite(mtime, content)];
    var s' := DatasetToAnswer(Run(replaced, c), t, c);
    var rest := LeadsToRun(replaced, s', t, c);
    more := [Tick(d)] + [Rewrite(mtime, content)] + rest;
    assert events + more == replaced + rest;
  }

  /** An instance from the start: for any two versions there is a run after which the file named
      after the old one holds the new content, and a query has answered from a version published
      after it began. */
  lemma OldNameNewContent(c: Config, t: Tid, before: (nat, ReadModel.Payload), after: (nat, ReadModel.Payload), d: nat)
    returns (events: seq<Event>)
    requires before.0 != after.0 && after.1.Results? && ReadModel.DistinctIds(ReadModel.RowsOf(after.1.gyms))
    ensures var s, rows := Run(events, c), ReadModel.RowsOf(after.1.gyms);
            && s.history == [Version(before.0, before.1, 0), Version(after.0, after.1, d)]
            && s.index == map[before.0 := rows]
            && s.answers == [Answer(0, d, rows)]
  {
    var reading := ReadingFirst(c, t, before.0, before.1);
    var more := ReplacedUnderReader(reading, t, c, d, after.0, after.1);
    events := reading + more;
    assert [Version(before.0, before.1, 0)] + [Version(after.0, after.1, d)]
        == [Version(before.0, before.1, 0), Version(after.0, after.1, d)];
  }

  // Version j was current at some instant no later than `start` and no earlier than the recheck
  // interval before it.
  ghost predicate CurrentByStart(h: seq<Version>, j: nat, start: nat, c: Config) {
    exists u: nat :: CurrentAt(h, j, u) && u <= start <= u + c.recheck
  }

  // No version was published between the start of a query and its answer.
  ghost predicate Undisturbed(h: seq<Version>, a: Answer) {
    forall k :: 0 <= k < |h| ==> h[k].since <= a.start || a.finish < h[k].since
  }

  /** When staleness is bounded from the start of the query: the version an answer is drawn from
      was current within the recheck interval before the query began exactly when it had been
      published by then, as it has whenever no replacement falls inside the query. */
  lemma StalenessFromStart(events: seq<Event>, c: Config, i: nat) returns (j: nat, time: nat)
    requires i < |Run(events, c).answers|
    ensures var s := Run(events, c);
            var a := s.answers[i];
            && CurrentAt(s.history, j, time) && IsTable(s.history[j].content, a.rows)
            && a.start <= time + c.recheck && time <= a.finish
            && (CurrentByStart(s.history, j, a.start, c) <==> s.history[j].since <= a.start)
            && (Undisturbed(s.history, a) ==> s.history[j].since <= a.start)
  {
    j, time := BoundedStaleness(events, c, i);
    var s := Run(events, c);
    var a := s.answers[i];
    if s.history[j].since <= a.start {
      assert CurrentAt(s.history, j, if time <= a.start then time else a.start);
    }
  }

  /******* A crash inside the lock *******/

  ghost predicate Stuck(s: State, t: Tid) { ThreadOf(s, t).pc == Dead(true) }

  lemma StuckIsAlone(s: State, t: Tid, c: Config)
    requires Inv(s, c) && Stuck(s, t)
    ensures s.fileLock == Some(t)
    ensures forall u :: !Inside(ThreadOf(s, u).pc)
  {
    assert s.fileLock == Some(t) <==> Holds(ThreadOf(s, t).pc);
    forall u
      ensures !Inside(ThreadOf(s, u).pc)
    {
      assert s.fileLock == Some(u) <==> Holds(ThreadOf(s, u).pc);
    }
  }

  lemma NotInsideKeepsIndex(s: State, u: Tid, c: Config)
    requires !Inside(ThreadOf(s, u).pc)
    ensures Step(s, Act(u), c).index == s.index
  {
  }

  lemma StuckAct(s: State, u: Tid, t: Tid, c: Config)
    requires Inv(s, c) && Stuck(s, t)
    ensures Stuck(Step(s, Act(u), c), t) && Step(s, Act(u), c).index == s.index
  {
    StuckIsAlone(s, t, c);
    NotInsideKeepsIndex(s, u, c);
    if u != t {
      ActKeepsStoreLock(s, u, c);
    }
  }

  lemma StuckStep(s: State, e: Event, t: Tid, c: Config)
    requires Inv(s, c) && Stuck(s, t)
    ensures Stuck(Step(s, e, c), t) && Step(s, e, c).index == s.index
  {
    if e.Act? {
      StuckAct(s, e.t, t, c);
    } else {
      StuckIsAlone(s, t, c);
    }
  }

  /** A thread that dies inside the dataset lock leaves it taken for ever: over every continuation
      no materialiser is inside it again and the set of index files never changes. */
  lemma {:induction false} CrashInsideIsForever(events: seq<Event>, more: seq<Event>, t: Tid, c: Config)
    requires Stuck(Run(events, c), t)
    ensures var s, s' := Run(events, c), Run(events + more, c);
            && Stuck(s', t) && s'.fileLock == Some(t) && s'.index == s.index
            && forall u :: !Inside(ThreadOf(s', u).pc)
    decreases |more|
  {
    if more == [] {
      assert events + more == events;
    } else {
      var init, e := more[..|more| - 1], more[|more| - 1];
      CrashInsideIsForever(events, init, t, c);
      RunKeepsInv(events + init, c);
      StuckStep(Run(events + init, c), e, t, c);
      RunOne(events + init, e, c);
      assert events + init + [e] == events + more;
    }
    RunKeepsInv(events + more, c);
    StuckIsAlone(Run(events + more, c), t, c);
  }

  /** From then on every thread that needs an index built waits for the lock until its timeout and
      raises, answering nothing; a query gives its process's snapshot lock back. */
  lemma WaitersTimeOut(events: seq<Event>, more: seq<Event>, t: Tid, u: Tid, c: Config, ns: nat)
    requires Stuck(Run(events, c), t)
    requires ThreadOf(Run(events + more, c), u).pc.WantFileLock?
    ensures var s := Run(events + more, c);
            var s' := Step(Step(s, Tick(ns), c), Act(u), c);
            && s'.answers == s.answers
            && (ThreadOf(s', u).pc.Idle? <==> ThreadOf(s, u).pc.since + c.lockTimeout <= s.clock + ns)
            && (ThreadOf(s', u).pc.Idle? && ThreadOf(s, u).pc.caller.ForQuery?
                ==> StoreOf(s', u.process).holder == None)
            && (!ThreadOf(s', u).pc.Idle? ==> ThreadOf(s', u) == ThreadOf(s, u))
  {
    CrashInsideIsForever(events, more, t, c);
  }

  // How far a thread inside the lock is from giving it back.
  function Stage(pc: Pc): nat {
    match pc
    case StatInside(_) => 6
    case CheckInside(_, _) => 5
    case ReadDataset(_, _) => 4
    case Insert(_, _, _, _) => 3
    case Publish(_, _, _) => 2
    case Cleanup(_, _) => 1
    case _ => 0
  }

  function ToInsert(pc: Pc): nat { if pc.Insert? then |pc.todo| else 0 }

  lemma ComesNearer(s: State, t: Tid, c: Config)
    requires Inside(ThreadOf(s, t).pc) && !ThreadOf(s, t).pc.Release?
    ensures var pc, pc' := ThreadOf(s, t).pc, ThreadOf(Step(s, Act(t), c), t).pc;
            Inside(pc') && (Stage(pc') < Stage(pc) || (Stage(pc') == Stage(pc) && ToInsert(pc') < ToInsert(pc)))
  {
  }

  lemma ReleaseFrees(s: State, t: Tid, c: Config)
    requires ThreadOf(s, t).pc.Release?
    ensures Step(s, Act(t), c).fileLock == None
  {
  }

  // A live holder that nothing disturbs gives the lock back.
  lemma {:induction false} FreesLock(s: State, t: Tid, c: Config) returns (s': State)
    requires Inside(ThreadOf(s, t).pc)
    ensures Leads(s, s', t, c) && s'.fileLock == None
    decreases Stage(ThreadOf(s, t).pc), ToInsert(ThreadOf(s, t).pc)
  {
    var s1 := Step(s, Act(t), c);
    LeadsOne(s, t, c);
    if ThreadOf(s, t).pc.Release? {
      ReleaseFrees(s, t, c);
      s' := s1;
    } else {
      ComesNearer(s, t, c);
      s' := FreesLock(s1, t, c);
      LeadsOn(s, s1, s', t, c);
    }
  }

  lemma LockCanBeFreed(events: seq<Event>, c: Config) returns (more: seq<Event>)
    requires !Broken(Run(events, c))
    ensures Run(events + more, c).fileLock == None
  {
    var s := Run(events, c);
    if s.fileLock == None {
      more := [];
      assert events + more == events;
    } else {
      RunKeepsInv(events, c);
      var t := s.fileLock.value;
      assert !Stuck(s, t) && Holds(ThreadOf(s, t).pc);
      var s' := FreesLock(s, t, c);
      more := LeadsToRun(events, s', t, c);
    }
  }

  // Some thread has died inside the lock.
  ghost predicate Broken(s: State) { exists t :: Stuck(s, t) }

  ghost predicate FreedAfter(events: seq<Event>, more: seq<Event>, c: Config) {
    Run(events + more, c).fileLock == None
  }

  /** When the dataset lock comes back: from a reachable state some continuation frees it exactly
      when no thread has died inside it. */
  lemma LockFreedIffNotStuck(events: seq<Event>, c: Config)
    ensures (exists more :: FreedAfter(events, more, c)) <==> !Broken(Run(events, c))
  {
    if Broken(Run(events, c)) {
      var t :| Stuck(Run(events, c), t);
      forall more
        ensures !FreedAfter(events, more, c)
      {
        CrashInsideIsForever(events, more, t, c);
      }
    } else {
      var more := LockCanBeFreed(events, c);
      assert FreedAfter(events, more, c);
    }
  }

  /** Such a crash can happen: after one in the very first build no index is ever published. */
  lemma CrashInFirstBuild(c: Config, t: Tid, mtime: nat, content: ReadModel.Payload) returns (events: seq<Event>)
    ensures Stuck(Run(events, c), t)
    ensures forall more :: Run(events + more, c).index == map[]
  {
    var reading := ReadingFirst(c, t, mtime, content);
    RunOne(reading, Crash(t), c);
    assert LocalOf(Run(reading, c), t).index == Run(reading, c).index;
    assert LocalOf(Run(reading, c), t).pc == ThreadOf(Run(reading, c), t).pc;
    events := reading + [Crash(t)];
    forall more
      ensures Run(events + more, c).index == map[]
    {
      CrashInsideIsForever(events, more, t, c);
    }
  }
}
