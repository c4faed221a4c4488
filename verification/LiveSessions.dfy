/** The live-search session protocol: one request creates a session file, one background task
    may replace it once, any number of clients poll it, and whoever loads it after its expiry
    deletes it.

    A load is two steps, reading the file and then judging the copy against the clock, so
    writes, deletions and ticks can fall between them. Every file write is a rename, hence one
    step. `R` is the type of the search response, which the protocol never inspects. */
module LiveSessions {
  import opened Wrappers

  const ENRICHING := "enriching"
  const READY := "ready"
  const PENDING := "pending"
  const COMPLETED := "completed"
  const FAILED := "failed"
  const SKIPPED := "skipped"

  /******* Sessions *******/

  datatype Session<R> = Session(
    searchId: string,
    owner: string,
    status: string,
    enrichment: string,
    revision: int,
    createdAt: int,
    updatedAt: int,
    expiresAt: int,
    response: R)
  {
    predicate Expired(now: int) { expiresAt <= now }
  }

  function Create<R>(searchId: string, owner: string, response: R, cacheIsFresh: bool, now: int, ttl: int)
    : (s: Session<R>)
    ensures Fresh(s) && s.expiresAt - s.createdAt == ttl
  {
    Session(searchId, owner,
            if cacheIsFresh then READY else ENRICHING,
            if cacheIsFresh then SKIPPED else PENDING,
            0, now, now, now + ttl, response)
  }

  function Replace<R>(s: Session<R>, response: Option<R>, enrichment: string, now: int): Session<R> {
    s.(status := READY, enrichment := enrichment, revision := s.revision + 1, updatedAt := now,
       response := response.GetOr(s.response))
  }

  // What a client sees.
  datatype View<R> = View(
    searchId: string,
    status: string,
    enrichment: string,
    revision: int,
    updatedAt: int,
    expiresAt: int,
    pollAfterMs: Option<int>,
    response: R)

  function ToApi<R>(s: Session<R>, pollAfterMs: int): View<R> {
    View(s.searchId, s.status, s.enrichment, s.revision, s.updatedAt, s.expiresAt,
         if s.status == ENRICHING then Some(pollAfterMs) else None, s.response)
  }

  /******* The stored form *******/

  // isoformat, and fromisoformat, which rejects some texts; timestamps are microseconds of UTC.
  datatype Iso = Iso(write: int -> string, read: string -> Option<int>)

  predicate ReadsBack(iso: Iso, at: int) { iso.read(iso.write(at)) == Some(at) }

  // A JSON object whose members may be absent or of the wrong type.
  datatype Payload<R> = Payload(
    searchId: Option<string>,
    owner: Option<string>,
    status: Option<string>,
    enrichment: Option<string>,
    revision: Option<int>,
    createdAt: Option<string>,
    updatedAt: Option<string>,
    expiresAt: Option<string>,
    response: Option<R>)

  function Serialize<R>(s: Session<R>, iso: Iso): Payload<R> {
    Payload(Some(s.searchId), Some(s.owner), Some(s.status), Some(s.enrichment), Some(s.revision),
            Some(iso.write(s.createdAt)), Some(iso.write(s.updatedAt)), Some(iso.write(s.expiresAt)), Some(s.response))
  }

  function NonEmpty(s: Option<string>): bool { s.Some? && s.value != "" }

  function CoerceTime(text: Option<string>, iso: Iso): Option<int> {
    if text.None? then None else iso.read(text.value)
  }

  function Parse<R>(p: Payload<R>, iso: Iso): Option<Session<R>> {
    var createdAt, updatedAt := CoerceTime(p.createdAt, iso), CoerceTime(p.updatedAt, iso);
    var expiresAt := CoerceTime(p.expiresAt, iso);
    if !NonEmpty(p.searchId) || !NonEmpty(p.owner) || !NonEmpty(p.status) || !NonEmpty(p.enrichment) then None
    else if p.revision.None? || p.revision.value < 0 then None
    else if createdAt.None? || updatedAt.None? || expiresAt.None? then None
    else if p.response.None? then None
    else Some(Session(p.searchId.value, p.owner.value, p.status.value, p.enrichment.value, p.revision.value,
                      createdAt.value, updatedAt.value, expiresAt.value, p.response.value))
  }

  /** A written session reads back as itself exactly when its names are non-empty, its revision is
      not negative and its three timestamps read back as written. */
  lemma ParseInvertsSerialize<R>(s: Session<R>, iso: Iso)
    ensures Parse(Serialize(s, iso), iso) == Some(s)
            <==> s.searchId != "" && s.owner != "" && s.status != "" && s.enrichment != "" && 0 <= s.revision
                 && ReadsBack(iso, s.createdAt) && ReadsBack(iso, s.updatedAt) && ReadsBack(iso, s.expiresAt)
  {
    var parsed := Parse(Serialize(s, iso), iso);
    if parsed.Some? {
      assert iso.read(iso.write(s.createdAt)) == Some(parsed.value.createdAt);
      assert iso.read(iso.write(s.updatedAt)) == Some(parsed.value.updatedAt);
      assert iso.read(iso.write(s.expiresAt)) == Some(parsed.value.expiresAt);
    }
  }

  /** Whatever text a stored file spells its timestamps in, if it reads at all then writing what
      was read and reading again gives the same session. */
  lemma RewritingKeepsTheSession<R>(p: Payload<R>, iso: Iso)
    requires forall at :: ReadsBack(iso, at)
    ensures Parse(p, iso).Some? ==> Parse(Serialize(Parse(p, iso).value, iso), iso) == Parse(p, iso)
  {
    if Parse(p, iso).Some? {
      ParseInvertsSerialize(Parse(p, iso).value, iso);
    }
  }

  /******* The protocol *******/

  // Why the background task is loading the session: to store enriched results, or to record
  // that enrichment failed.
  datatype Purpose = ToEnrich | ToFail

  datatype Task<R> =
    | NoTask
    | Fetching
    | Reading(why: Purpose)
    | Judging(why: Purpose, copy: Option<Session<R>>)
    | Holding(why: Purpose, session: Session<R>)
    | Finished

  // A poll in progress: who asks, when the copy was read, what was read.
  datatype Poll<R> = Poll(sub: string, readNo: nat, faulted: bool, copy: Option<Session<R>>)

  // A poll that was answered; `None` is the 404 reply.
  datatype Answer<R> = Answer(sub: string, readNo: nat, doneNo: nat, at: int, faulted: bool, reply: Option<View<R>>)

  datatype State<R> = State(
    clock: int,
    file: Option<Session<R>>,
    task: Task<R>,
    polls: map<nat, Poll<R>>,
    answers: seq<Answer<R>>,
    step: nat,
    // The step at which the task replaced the file, and with what.
    replaced: Option<(nat, Session<R>)>)

  datatype Write<R> = BadResponse | Enriched(response: R) | Throws

  datatype Event<R> =
    | Tick(ms: nat)
    | FetchEnds(ok: bool)
    | TaskReads(fault: bool)
    | TaskJudges(unlinkFails: bool)
    | TaskWrites(outcome: Write<R>)
    | TaskDies
    | PollReads(poll: nat, sub: string, fault: bool)
    | PollAnswers(poll: nat, unlinkFails: bool)

  function Init<R>(s: Session<R>): State<R> {
    State(s.createdAt, Some(s), if s.status == ENRICHING then Fetching else NoTask, map[], [], 0, None)
  }

  function Read<R>(s: State<R>, fault: bool): Option<Session<R>> {
    if fault then None else s.file
  }

  // The file after a loader found its copy expired.
  function Unlink<R>(s: State<R>, copy: Option<Session<R>>, unlinkFails: bool): Option<Session<R>> {
    if copy.Some? && copy.value.Expired(s.clock) && !unlinkFails then None else s.file
  }

  function Loaded<R>(s: State<R>, copy: Option<Session<R>>): Option<Session<R>> {
    if copy.Some? && !copy.value.Expired(s.clock) then copy else None
  }

  function WriteFile<R>(s: State<R>, updated: Session<R>): State<R> {
    s.(file := Some(updated), task := Finished, replaced := Some((s.step, updated)))
  }

  function StepLoad<R>(s: State<R>, e: Event<R>): State<R> {
    match (s.task, e)
    case (Reading(why), TaskReads(fault)) => s.(task := Judging(why, Read(s, fault)))
    case (Judging(why, copy), TaskJudges(unlinkFails)) =>
      var loaded := Loaded(s, copy);
      var next := if loaded.Some? && loaded.value.status == ENRICHING then Holding(why, loaded.value) else Finished;
      s.(file := Unlink(s, copy, unlinkFails), task := next)
    case _ => s
  }

  // Storing the enriched results falls back to recording a failure when it throws; recording
  // a failure that throws ends the task.
  function StepWrite<R>(s: State<R>, outcome: Write<R>): State<R> {
    match s.task
    case Holding(ToEnrich, session) =>
      (match outcome
       case BadResponse => WriteFile(s, Replace(session, None, FAILED, s.clock))
       case Enriched(response) => WriteFile(s, Replace(session, Some(response), COMPLETED, s.clock))
       case Throws => s.(task := Reading(ToFail)))
    case Holding(ToFail, session) =>
      if outcome.Throws? then s.(task := Finished) else WriteFile(s, Replace(session, None, FAILED, s.clock))
    case _ => s
  }

  function StepTask<R>(s: State<R>, e: Event<R>): State<R> {
    match e
    case FetchEnds(ok) => if s.task.Fetching? then s.(task := Reading(if ok then ToEnrich else ToFail)) else s
    case TaskReads(_) => StepLoad(s, e)
    case TaskJudges(_) => StepLoad(s, e)
    case TaskWrites(outcome) => StepWrite(s, outcome)
    case TaskDies => if s.task.NoTask? then s else s.(task := Finished)
    case _ => s
  }

  function StepPoll<R>(s: State<R>, e: Event<R>, pollAfterMs: int): State<R> {
    match e
    case PollReads(p, sub, fault) =>
      s.(polls := s.polls[p := Poll(sub, s.step, fault, Read(s, fault))])
    case PollAnswers(p, unlinkFails) =>
      if p !in s.polls then s
      else
        var poll := s.polls[p];
        var loaded := Loaded(s, poll.copy);
        var reply := if loaded.Some? && loaded.value.owner == poll.sub
                     then Some(ToApi(loaded.value, pollAfterMs)) else None;
        s.(file := Unlink(s, poll.copy, unlinkFails),
           polls := s.polls - {p},
           answers := s.answers + [Answer(poll.sub, poll.readNo, s.step, s.clock, poll.faulted, reply)])
    case _ => s
  }

  // Disabled events change nothing but the step number.
  function Step<R>(s: State<R>, e: Event<R>, pollAfterMs: int): State<R> {
    var next :=
      match e
      case Tick(ms) => s.(clock := s.clock + ms)
      case PollReads(_, _, _) => StepPoll(s, e, pollAfterMs)
      case PollAnswers(_, _) => StepPoll(s, e, pollAfterMs)
      case _ => StepTask(s, e);
    next.(step := s.step + 1)
  }

  function Run<R>(first: Session<R>, events: seq<Event<R>>, pollAfterMs: int): State<R> {
    if events == [] then Init(first)
    else Step(Run(first, events[..|events| - 1], pollAfterMs), events[|events| - 1], pollAfterMs)
  }

  /******* The invariant *******/

  ghost predicate Fresh<R>(first: Session<R>) {
    && first.revision == 0
    && ((first.status == ENRICHING && first.enrichment == PENDING)
        || (first.status == READY && first.enrichment == SKIPPED))
  }

  // `second` is what the task may turn `first` into.
  ghost predicate Successor<R>(first: Session<R>, second: Session<R>) {
    && first.status == ENRICHING
    && second.status == READY
    && second.revision == 1
    && (second.enrichment == COMPLETED || (second.enrichment == FAILED && second.response == first.response))
    && second.searchId == first.searchId
    && second.owner == first.owner
    && second.createdAt == first.createdAt
    && second.expiresAt == first.expiresAt
  }

  // The session on file for a read at step `readNo`.
  function Version<R>(first: Session<R>, s: State<R>, readNo: nat): Session<R> {
    if s.replaced.Some? && s.replaced.value.0 < readNo then s.replaced.value.1 else first
  }

  ghost predicate FileOk<R>(first: Session<R>, s: State<R>) {
    && (s.replaced.Some? ==> s.replaced.value.0 < s.step && Successor(first, s.replaced.value.1) && s.task.Finished?)
    && (s.file.Some? ==> s.file.value == Version(first, s, s.step))
    && (s.file.None? ==> first.Expired(s.clock))
  }

  ghost predicate TaskOk<R>(first: Session<R>, s: State<R>) {
    match s.task
    case NoTask => first.status == READY
    case Judging(_, copy) => first.status == ENRICHING && (copy.Some? ==> copy.value == first)
    case Holding(_, session) => first.status == ENRICHING && session == first
    case _ => first.status == ENRICHING
  }

  ghost predicate PollOk<R>(first: Session<R>, s: State<R>, p: Poll<R>) {
    && p.readNo < s.step
    && (p.copy.Some? ==> p.copy.value == Version(first, s, p.readNo))
    && (p.copy.None? ==> p.faulted || first.Expired(s.clock))
  }

  ghost predicate AnswerOk<R>(first: Session<R>, s: State<R>, a: Answer<R>, pollAfterMs: int) {
    && a.readNo < a.doneNo < s.step
    && a.at <= s.clock
    && (a.reply.Some? ==> a.reply.value == ToApi(Version(first, s, a.readNo), pollAfterMs) && a.sub == first.owner)
    && (first.Expired(a.at) ==> a.reply.None?)
    && (a.reply.None? ==> a.faulted || a.sub != first.owner || first.Expired(a.at))
  }

  ghost predicate AllOk<R>(first: Session<R>, s: State<R>, pollAfterMs: int) {
    && FileOk(first, s)
    && TaskOk(first, s)
    && (forall p :: p in s.polls ==> PollOk(first, s, s.polls[p]))
    && (forall i :: 0 <= i < |s.answers| ==> AnswerOk(first, s, s.answers[i], pollAfterMs))
    // answers appear in the order they were given
    && (forall i, j :: 0 <= i < j < |s.answers| ==>
          s.answers[i].doneNo < s.answers[j].doneNo && s.answers[i].at <= s.answers[j].at)
  }

  ghost predicate ReplacedAtMostNow<R>(s: State<R>, s': State<R>) {
    s'.replaced == s.replaced || (s.replaced.None? && s'.replaced.Some? && s'.replaced.value.0 == s.step)
  }

  // A read that happened before the replacement still saw the first version.
  lemma VersionStable<R>(first: Session<R>, s: State<R>, s': State<R>, readNo: nat)
    requires FileOk(first, s)
    requires readNo < s.step
    requires ReplacedAtMostNow(s, s')
    ensures Version(first, s', readNo) == Version(first, s, readNo)
  {
  }

  lemma StepKeepsOld<R>(first: Session<R>, s: State<R>, s': State<R>, pollAfterMs: int)
    requires AllOk(first, s, pollAfterMs)
    requires ReplacedAtMostNow(s, s')
    requires s'.step == s.step + 1 && s.clock <= s'.clock
    ensures forall p :: p in s.polls ==> PollOk(first, s', s.polls[p])
    ensures forall i :: 0 <= i < |s.answers| ==> AnswerOk(first, s', s.answers[i], pollAfterMs)
  {
    forall p | p in s.polls
      ensures PollOk(first, s', s.polls[p])
    {
      VersionStable(first, s, s', s.polls[p].readNo);
    }
    forall i | 0 <= i < |s.answers|
      ensures AnswerOk(first, s', s.answers[i], pollAfterMs)
    {
      VersionStable(first, s, s', s.answers[i].readNo);
    }
  }

  ghost predicate TaskMoved<R>(first: Session<R>, s: State<R>, s': State<R>) {
    && FileOk(first, s')
    && TaskOk(first, s')
    && s'.polls == s.polls
    && s'.answers == s.answers
    && s'.clock == s.clock
    && s'.step == s.step + 1
    && ReplacedAtMostNow(s, s')
  }

  lemma WriteOk<R>(first: Session<R>, s: State<R>, outcome: Write<R>)
    requires Fresh(first) && FileOk(first, s) && TaskOk(first, s)
    ensures TaskMoved(first, s, StepWrite(s, outcome).(step := s.step + 1))
  {
  }

  lemma LoadOk<R>(first: Session<R>, s: State<R>, e: Event<R>)
    requires FileOk(first, s) && TaskOk(first, s)
    ensures TaskMoved(first, s, StepLoad(s, e).(step := s.step + 1))
  {
  }

  lemma TaskStepOk<R>(first: Session<R>, s: State<R>, e: Event<R>)
    requires Fresh(first) && FileOk(first, s) && TaskOk(first, s)
    ensures TaskMoved(first, s, StepTask(s, e).(step := s.step + 1))
  {
    match e
    case TaskReads(_) => LoadOk(first, s, e);
    case TaskJudges(_) => LoadOk(first, s, e);
    case TaskWrites(outcome) => WriteOk(first, s, outcome);
    case _ =>
  }

  lemma MovedOk<R>(first: Session<R>, s: State<R>, s': State<R>, pollAfterMs: int)
    requires AllOk(first, s, pollAfterMs)
    requires TaskMoved(first, s, s')
    ensures AllOk(first, s', pollAfterMs)
  {
    StepKeepsOld(first, s, s', pollAfterMs);
  }

  lemma TickOk<R>(first: Session<R>, s: State<R>, ms: nat, pollAfterMs: int)
    requires AllOk(first, s, pollAfterMs)
    ensures AllOk(first, s.(clock := s.clock + ms, step := s.step + 1), pollAfterMs)
  {
    StepKeepsOld(first, s, s.(clock := s.clock + ms, step := s.step + 1), pollAfterMs);
  }

  lemma PollReadOk<R>(first: Session<R>, s: State<R>, p: nat, sub: string, fault: bool, pollAfterMs: int)
    requires AllOk(first, s, pollAfterMs)
    ensures AllOk(first, StepPoll(s, PollReads(p, sub, fault), pollAfterMs).(step := s.step + 1), pollAfterMs)
  {
    StepKeepsOld(first, s, StepPoll(s, PollReads(p, sub, fault), pollAfterMs).(step := s.step + 1), pollAfterMs);
  }

  lemma PollAnswerOk<R>(first: Session<R>, s: State<R>, p: nat, unlinkFails: bool, pollAfterMs: int)
    requires AllOk(first, s, pollAfterMs)
    ensures AllOk(first, StepPoll(s, PollAnswers(p, unlinkFails), pollAfterMs).(step := s.step + 1), pollAfterMs)
  {
    var s' := StepPoll(s, PollAnswers(p, unlinkFails), pollAfterMs).(step := s.step + 1);
    StepKeepsOld(first, s, s', pollAfterMs);
    if p in s.polls {
      assert PollOk(first, s, s.polls[p]);
      var a := s'.answers[|s.answers|];
      VersionStable(first, s, s', a.readNo);
      assert AnswerOk(first, s', a, pollAfterMs);
    }
  }

  lemma StepByKind<R>(s: State<R>, e: Event<R>, pollAfterMs: int)
    ensures e.Tick? ==> Step(s, e, pollAfterMs) == s.(clock := s.clock + e.ms, step := s.step + 1)
    ensures e.PollReads? || e.PollAnswers? ==>
              Step(s, e, pollAfterMs) == StepPoll(s, e, pollAfterMs).(step := s.step + 1)
    ensures !e.Tick? && !e.PollReads? && !e.PollAnswers? ==>
              Step(s, e, pollAfterMs) == StepTask(s, e).(step := s.step + 1)
  {
  }

  lemma TaskEventOk<R>(first: Session<R>, s: State<R>, e: Event<R>, pollAfterMs: int)
    requires Fresh(first)
    requires AllOk(first, s, pollAfterMs)
    ensures AllOk(first, StepTask(s, e).(step := s.step + 1), pollAfterMs)
  {
    TaskStepOk(first, s, e);
    MovedOk(first, s, StepTask(s, e).(step := s.step + 1), pollAfterMs);
  }

  lemma StepOk<R>(first: Session<R>, s: State<R>, e: Event<R>, pollAfterMs: int)
    requires Fresh(first)
    requires AllOk(first, s, pollAfterMs)
    ensures AllOk(first, Step(s, e, pollAfterMs), pollAfterMs)
  {
    StepByKind(s, e, pollAfterMs);
    if e.Tick? {
      TickOk(first, s, e.ms, pollAfterMs);
    } else if e.PollReads? {
      PollReadOk(first, s, e.poll, e.sub, e.fault, pollAfterMs);
    } else if e.PollAnswers? {
      PollAnswerOk(first, s, e.poll, e.unlinkFails, pollAfterMs);
    } else {
      TaskEventOk(first, s, e, pollAfterMs);
    }
  }

  lemma {:induction false} RunOk<R>(first: Session<R>, events: seq<Event<R>>, pollAfterMs: int)
    requires Fresh(first)
    ensures AllOk(first, Run(first, events, pollAfterMs), pollAfterMs)
    decreases |events|
  {
    if events != [] {
      var init := events[..|events| - 1];
      RunOk(first, init, pollAfterMs);
      StepOk(first, Run(first, init, pollAfterMs), events[|events| - 1], pollAfterMs);
    }
  }

  /******* What clients can rely on *******/

  ghost predicate ValidView<R>(first: Session<R>, v: View<R>, pollAfterMs: int) {
    && (v.revision == 0 || v.revision == 1)
    && v.searchId == first.searchId
    && v.expiresAt == first.expiresAt
    && (v.status == READY || v.status == ENRICHING)
    && v.pollAfterMs == (if v.status == ENRICHING then Some(pollAfterMs) else None)
    && (v.status == ENRICHING <==> v.revision == 0 && v.enrichment == PENDING)
    && (v.enrichment == SKIPPED ==> v.revision == 0)
    && (v.enrichment == COMPLETED || v.enrichment == FAILED ==> v.revision == 1)
    // A failed follow-up keeps showing the snapshot the search returned.
    && (v.enrichment != COMPLETED ==> v.response == first.response)
  }

  /** Every single reply, in every interleaving, goes to the owner and shows one of the documented
      states of the one session. */
  lemma EveryReplyIsDocumented<R>(first: Session<R>, events: seq<Event<R>>, pollAfterMs: int, i: nat)
    requires Fresh(first)
    requires i < |Run(first, events, pollAfterMs).answers|
    ensures var a := Run(first, events, pollAfterMs).answers[i];
            a.reply.Some? ==> a.sub == first.owner && ValidView(first, a.reply.value, pollAfterMs)
  {
    RunOk(first, events, pollAfterMs);
    var s := Run(first, events, pollAfterMs);
    assert AnswerOk(first, s, s.answers[i], pollAfterMs);
  }

  /** Whatever the interleaving of the task, the polls, the deletions and the clock: replies go
      to the owner only, every reply is one of the documented states of the one session, and
      between two answered polls the revision never falls and a `ready` reply never changes. */
  lemma RepliesNeverRegress<R>(first: Session<R>, events: seq<Event<R>>, pollAfterMs: int, i: nat, j: nat)
    requires Fresh(first)
    requires var answers := Run(first, events, pollAfterMs).answers;
             && i < |answers| && j < |answers|
             && answers[i].reply.Some? && answers[j].reply.Some?
             && answers[i].readNo < answers[j].readNo
    ensures var answers := Run(first, events, pollAfterMs).answers;
            var before, after := answers[i].reply.value, answers[j].reply.value;
            && answers[i].sub == answers[j].sub == first.owner
            && ValidView(first, before, pollAfterMs)
            && ValidView(first, after, pollAfterMs)
            && before.revision <= after.revision
            && (before.status == READY ==> after == before)
  {
    RunOk(first, events, pollAfterMs);
    var s := Run(first, events, pollAfterMs);
    assert AnswerOk(first, s, s.answers[i], pollAfterMs) && AnswerOk(first, s, s.answers[j], pollAfterMs);
  }

  /** The owner's poll is told the session is missing exactly when it has expired, unless the
      read itself failed. */
  lemma MissingExactlyWhenExpired<R>(first: Session<R>, events: seq<Event<R>>, pollAfterMs: int, i: nat)
    requires Fresh(first)
    requires i < |Run(first, events, pollAfterMs).answers|
    ensures var a := Run(first, events, pollAfterMs).answers[i];
            a.sub == first.owner && !a.faulted ==> (a.reply.None? <==> first.expiresAt <= a.at)
  {
    RunOk(first, events, pollAfterMs);
  }

  /** Once an answer has come at or after the expiry every later answer is missing, even if the
      task rewrites the file after the expiry deleted it. */
  lemma ExpiredStaysMissing<R>(first: Session<R>, events: seq<Event<R>>, pollAfterMs: int, i: nat, j: nat)
    requires Fresh(first)
    requires i < j < |Run(first, events, pollAfterMs).answers|
    requires var a := Run(first, events, pollAfterMs).answers[i];
             a.sub == first.owner && a.reply.None? && !a.faulted
    ensures Run(first, events, pollAfterMs).answers[j].reply.None?
  {
    RunOk(first, events, pollAfterMs);
  }

  lemma Extend<R>(first: Session<R>, events: seq<Event<R>>, e: Event<R>, pollAfterMs: int) returns (s: State<R>)
    ensures s == Step(Run(first, events, pollAfterMs), e, pollAfterMs)
    ensures s == Run(first, events + [e], pollAfterMs)
  {
    s := Step(Run(first, events, pollAfterMs), e, pollAfterMs);
    assert (events + [e])[..|events|] == events;
  }

  ghost predicate MissingAfter<R>(first: Session<R>, events: seq<Event<R>>, more: seq<Event<R>>, pollAfterMs: int) {
    var before, after := Run(first, events, pollAfterMs), Run(first, events + more, pollAfterMs);
    forall j :: |before.answers| <= j < |after.answers| ==> after.answers[j].reply.None?
  }

  /** A missing reply to the owner is final exactly when the session had expired by then; one
      caused by a failed read is not. */
  lemma MissingIsFinalIffExpired<R>(first: Session<R>, events: seq<Event<R>>, pollAfterMs: int)
    requires Fresh(first)
    requires var s := Run(first, events, pollAfterMs);
             && s.answers != []
             && s.answers[|s.answers| - 1].at == s.clock
             && s.answers[|s.answers| - 1].sub == first.owner
             && s.answers[|s.answers| - 1].reply.None?
    ensures var s := Run(first, events, pollAfterMs);
            (forall more :: MissingAfter(first, events, more, pollAfterMs))
            <==> first.expiresAt <= s.answers[|s.answers| - 1].at
  {
    var s := Run(first, events, pollAfterMs);
    if first.Expired(s.clock) {
      forall more
        ensures MissingAfter(first, events, more, pollAfterMs)
      {
        ExpiredForGood(first, events, more, pollAfterMs);
      }
    } else {
      var more := UnexpiredIsFound(first, events, pollAfterMs);
    }
  }

  lemma ExpiredForGood<R>(first: Session<R>, events: seq<Event<R>>, more: seq<Event<R>>, pollAfterMs: int)
    requires Fresh(first)
    requires var answers := Run(first, events, pollAfterMs).answers;
             answers != [] && first.Expired(answers[|answers| - 1].at)
    ensures MissingAfter(first, events, more, pollAfterMs)
  {
    RunOk(first, events + more, pollAfterMs);
    AnswersOnlyGrow(first, events, more, pollAfterMs);
  }

  lemma UnexpiredIsFound<R>(first: Session<R>, events: seq<Event<R>>, pollAfterMs: int) returns (more: seq<Event<R>>)
    requires Fresh(first)
    requires !first.Expired(Run(first, events, pollAfterMs).clock)
    ensures !MissingAfter(first, events, more, pollAfterMs)
  {
    var e1, e2 := PollReads(0, first.owner, false), PollAnswers(0, false);
    more := [e1, e2];
    var s := Run(first, events, pollAfterMs);
    RunOk(first, events, pollAfterMs);
    var s1 := Extend(first, events, e1, pollAfterMs);
    var s2 := Extend(first, events + [e1], e2, pollAfterMs);
    assert events + [e1] + [e2] == events + more;
    FoundNow(first, s, pollAfterMs);
  }

  lemma FoundNow<R>(first: Session<R>, s: State<R>, pollAfterMs: int)
    requires FileOk(first, s) && !first.Expired(s.clock)
    ensures var s1 := Step(s, PollReads(0, first.owner, false), pollAfterMs);
            var s2 := Step(s1, PollAnswers(0, false), pollAfterMs);
            |s2.answers| == |s.answers| + 1 && s2.answers[|s.answers|].reply.Some?
  {
  }

  lemma StepGrows<R>(s: State<R>, e: Event<R>, pollAfterMs: int)
    ensures s.answers <= Step(s, e, pollAfterMs).answers
  {
  }

  lemma {:induction false} AnswersOnlyGrow<R>(first: Session<R>, events: seq<Event<R>>, more: seq<Event<R>>,
                                              pollAfterMs: int)
    ensures Run(first, events, pollAfterMs).answers <= Run(first, events + more, pollAfterMs).answers
    decreases |more|
  {
    if more == [] {
      assert events + more == events;
    } else {
      var init, last := more[..|more| - 1], more[|more| - 1];
      AnswersOnlyGrow(first, events, init, pollAfterMs);
      var s := Extend(first, events + init, last, pollAfterMs);
      assert events + init + [last] == events + more;
      StepGrows(Run(first, events + init, pollAfterMs), last, pollAfterMs);
    }
  }

  /******* How the task ends *******/

  lemma {:induction false} StepsCounted<R>(first: Session<R>, events: seq<Event<R>>, pollAfterMs: int)
    ensures Run(first, events, pollAfterMs).step == |events|
    decreases |events|
  {
    if events != [] {
      StepsCounted(first, events[..|events| - 1], pollAfterMs);
    }
  }

  // What the task stores: the enriched response, or the first one marked as failed.
  function Outcome<R>(first: Session<R>, ok: bool, write: Write<R>, now: int): Session<R> {
    if ok && write.Enriched? then Replace(first, Some(write.response), COMPLETED, now)
    else Replace(first, None, FAILED, now)
  }

  // What a write changes of a session besides its enrichment and response.
  ghost predicate Stored<R>(first: Session<R>, now: Session<R>, at: int) {
    now == first.(status := "ready", revision := 1, updatedAt := at, enrichment := now.enrichment,
                  response := now.response)
  }

  lemma TaskSteps<R>(first: Session<R>, s: State<R>, ok: bool, write: Write<R>, pollAfterMs: int)
    requires s.task.Fetching? && s.file == Some(first) && first.status == ENRICHING && !first.Expired(s.clock)
    requires !write.Throws?
    ensures var s1 := Step(s, FetchEnds(ok), pollAfterMs);
            var s2 := Step(s1, TaskReads(false), pollAfterMs);
            var s3 := Step(s2, TaskJudges(false), pollAfterMs);
            var s4 := Step(s3, TaskWrites(write), pollAfterMs);
            s4.task.Finished? && s4.file == Some(Outcome(first, ok, write, s.clock)) && s4.clock == s.clock
  {
  }

  /** Progress: from any reachable state in which the task is fetching and the session has not
      expired, a task that runs undisturbed, and whose write does not throw, makes the session
      `ready` at revision 1: completed with the enriched response, or failed with the first one. */
  lemma TaskMakesReady<R>(first: Session<R>, events: seq<Event<R>>, ok: bool, write: Write<R>, pollAfterMs: int)
    requires Fresh(first)
    requires var s := Run(first, events, pollAfterMs);
             s.task.Fetching? && !first.Expired(s.clock) && !write.Throws?
    ensures var s := Run(first, events, pollAfterMs);
            var s' := Run(first, events + [FetchEnds(ok)] + [TaskReads(false)] + [TaskJudges(false)]
                                 + [TaskWrites(write)], pollAfterMs);
            && s'.task.Finished? && s'.file.Some?
            && Stored(first, s'.file.value, s.clock)
            && s'.file.value.enrichment == (if ok && write.Enriched? then "completed" else "failed")
            && s'.file.value.response == if ok && write.Enriched? then write.response else first.response
  {
    var s := Run(first, events, pollAfterMs);
    RunOk(first, events, pollAfterMs);
    TaskSteps(first, s, ok, write, pollAfterMs);
    var s1 := Extend(first, events, FetchEnds(ok), pollAfterMs);
    var s2 := Extend(first, events + [FetchEnds(ok)], TaskReads(false), pollAfterMs);
    var s3 := Extend(first, events + [FetchEnds(ok)] + [TaskReads(false)], TaskJudges(false), pollAfterMs);
    var s4 := Extend(first, events + [FetchEnds(ok)] + [TaskReads(false)] + [TaskJudges(false)], TaskWrites(write),
                     pollAfterMs);
  }

  lemma FinishedStays<R>(s: State<R>, e: Event<R>, pollAfterMs: int)
    requires s.task.Finished?
    ensures Step(s, e, pollAfterMs).task.Finished? && Step(s, e, pollAfterMs).replaced == s.replaced
  {
  }

  lemma {:induction false} FinishedForGood<R>(first: Session<R>, events: seq<Event<R>>, more: seq<Event<R>>,
                                              pollAfterMs: int)
    requires Run(first, events, pollAfterMs).task.Finished?
    ensures var s, s' := Run(first, events, pollAfterMs), Run(first, events + more, pollAfterMs);
            s'.task.Finished? && s'.replaced == s.replaced
    decreases |more|
  {
    if more == [] {
      assert events + more == events;
    } else {
      var init, last := more[..|more| - 1], more[|more| - 1];
      FinishedForGood(first, events, init, pollAfterMs);
      var s := Extend(first, events + init, last, pollAfterMs);
      assert events + init + [last] == events + more;
      FinishedStays(Run(first, events + init, pollAfterMs), last, pollAfterMs);
    }
  }

  /** Once the task is over the session's status is settled: over every continuation it is
      `enriching`, on file and in every reply read from then on, exactly when the task wrote
      nothing. */
  lemma EnrichingIffNothingWritten<R>(first: Session<R>, events: seq<Event<R>>, more: seq<Event<R>>, pollAfterMs: int)
    requires Fresh(first) && Run(first, events, pollAfterMs).task.Finished?
    ensures var s, s' := Run(first, events, pollAfterMs), Run(first, events + more, pollAfterMs);
            && (s'.file.Some? ==> (s'.file.value.status == ENRICHING <==> s.replaced.None?))
            && forall i :: 0 <= i < |s'.answers| && |events| <= s'.answers[i].readNo && s'.answers[i].reply.Some? ==>
                 (s'.answers[i].reply.value.status == ENRICHING <==> s.replaced.None?)
  {
    var s, s' := Run(first, events, pollAfterMs), Run(first, events + more, pollAfterMs);
    RunOk(first, events, pollAfterMs);
    RunOk(first, events + more, pollAfterMs);
    FinishedForGood(first, events, more, pollAfterMs);
    StepsCounted(first, events, pollAfterMs);
    forall i | 0 <= i < |s'.answers| && |events| <= s'.answers[i].readNo && s'.answers[i].reply.Some?
      ensures s'.answers[i].reply.value.status == ENRICHING <==> s.replaced.None?
    {
      assert AnswerOk(first, s', s'.answers[i], pollAfterMs);
    }
  }

  /** A write that throws is not the end: the task loads the session again and records the failure,
      which shows the first response. */
  lemma ThrowingWriteFails<R>(first: Session<R>, s: State<R>, write: Write<R>, pollAfterMs: int)
    requires Fresh(first) && s.task == Holding(ToEnrich, first) && s.file == Some(first) && !first.Expired(s.clock)
    requires first.status == "enriching"
    ensures var s1 := Step(s, TaskWrites(Throws), pollAfterMs);
            var s2 := Step(s1, TaskReads(false), pollAfterMs);
            var s3 := Step(s2, TaskJudges(false), pollAfterMs);
            var s4 := Step(s3, TaskWrites(write), pollAfterMs);
            && s1.file == Some(first) && s4.task.Finished? && s4.file.Some?
            && if write.Throws? then s4.file.value == first
               else Stored(first, s4.file.value, s.clock) && s4.file.value.enrichment == "failed"
                    && s4.file.value.response == first.response
  {
  }

  /******* Where a stored response comes from *******/

  // The event at step k wrote this session.
  ghost predicate WrittenBy<R>(first: Session<R>, events: seq<Event<R>>, k: nat, now: Session<R>, pollAfterMs: int) {
    && k < |events| && events[k].TaskWrites?
    && Stored(first, now, Run(first, events[..k], pollAfterMs).clock)
    && ((now.enrichment == "completed" && events[k].outcome == Enriched(now.response))
        || (now.enrichment == "failed" && !events[k].outcome.Throws? && now.response == first.response))
  }

  lemma WritesNow<R>(first: Session<R>, s: State<R>, e: Event<R>, pollAfterMs: int)
    requires Fresh(first) && FileOk(first, s) && TaskOk(first, s)
    ensures var s' := Step(s, e, pollAfterMs);
            s'.replaced != s.replaced ==>
              && s'.replaced.Some? && s'.replaced.value.0 == s.step && e.TaskWrites?
              && var now := s'.replaced.value.1;
                 && Stored(first, now, s.clock)
                 && ((now.enrichment == "completed" && e.outcome == Enriched(now.response))
                     || (now.enrichment == "failed" && !e.outcome.Throws? && now.response == first.response))
  {
  }

  lemma {:induction false} WrittenByEvent<R>(first: Session<R>, events: seq<Event<R>>, pollAfterMs: int)
    requires Fresh(first)
    ensures var s := Run(first, events, pollAfterMs);
            s.replaced.Some? ==> WrittenBy(first, events, s.replaced.value.0, s.replaced.value.1, pollAfterMs)
    decreases |events|
  {
    if events != [] {
      var init, e := events[..|events| - 1], events[|events| - 1];
      var before, after := Run(first, init, pollAfterMs), Run(first, events, pollAfterMs);
      WrittenByEvent(first, init, pollAfterMs);
      RunOk(first, init, pollAfterMs);
      StepsCounted(first, init, pollAfterMs);
      WritesNow(first, before, e, pollAfterMs);
      if after.replaced == before.replaced {
        if after.replaced.Some? {
          assert init[..after.replaced.value.0] == events[..after.replaced.value.0];
        }
      } else {
        assert events[..|init|] == init;
      }
    }
  }

  /** Every completed reply, in every interleaving, shows the response that a write of this run
      delivered, and every failed one the response the search returned; both were written before
      the reply was read, at the time they show. */
  lemma RepliesShowWhatWasWritten<R>(first: Session<R>, events: seq<Event<R>>, pollAfterMs: int, i: nat)
    returns (k: nat)
    requires Fresh(first) && i < |Run(first, events, pollAfterMs).answers|
    ensures var a := Run(first, events, pollAfterMs).answers[i];
            a.reply.Some? && a.reply.value.status == "ready" && first.status == "enriching" ==>
              var v := a.reply.value;
              && k < |events| && k < a.readNo && events[k].TaskWrites?
              && v.updatedAt == Run(first, events[..k], pollAfterMs).clock
              && (v.enrichment == "completed" || v.enrichment == "failed")
              && (v.enrichment == "completed" ==> events[k].outcome == Enriched(v.response))
              && (v.enrichment == "failed" ==> v.response == first.response)
  {
    RunOk(first, events, pollAfterMs);
    WrittenByEvent(first, events, pollAfterMs);
    var s := Run(first, events, pollAfterMs);
    assert AnswerOk(first, s, s.answers[i], pollAfterMs);
    k := if s.replaced.Some? then s.replaced.value.0 else 0;
  }

  /******* A session's life without the task *******/

  /** A poll of a session just created: the owner sees it, with the response and status it was
      created with, until its time to live is over; nobody else sees it. */
  lemma CreatedIsServed<R>(searchId: string, owner: string, response: R, cacheIsFresh: bool, now: int, ttl: int,
                           ms: nat, sub: string, pollAfterMs: int)
    ensures var s0 := Init(Create(searchId, owner, response, cacheIsFresh, now, ttl));
            var s1 := Step(s0, Tick(ms), pollAfterMs);
            var s2 := Step(s1, PollReads(0, sub, false), pollAfterMs);
            var s3 := Step(s2, PollAnswers(0, false), pollAfterMs);
            && |s3.answers| == 1 && (s3.file.None? <==> ttl <= ms)
            && s3.answers[0].reply
               == if sub == owner && ms < ttl
                  then Some(View(searchId, if cacheIsFresh then "ready" else "enriching",
                                 if cacheIsFresh then "skipped" else "pending", 0, now, now + ttl,
                                 if cacheIsFresh then None else Some(pollAfterMs), response))
                  else None
  {
    var s0 := Init(Create(searchId, owner, response, cacheIsFresh, now, ttl));
    var s1 := Step(s0, Tick(ms), pollAfterMs);
    var s2 := Step(s1, PollReads(0, sub, false), pollAfterMs);
    assert s2.polls[0] == Poll(sub, 1, false, s0.file);
  }

  /** Whoever judges an expired copy deletes the file, unless the deletion itself fails. */
  lemma ExpiredIsDeleted<R>(s: State<R>, p: nat, unlinkFails: bool, pollAfterMs: int)
    requires p in s.polls && s.polls[p].copy.Some?
    ensures var s' := Step(s, PollAnswers(p, unlinkFails), pollAfterMs);
            s'.file == if s.polls[p].copy.value.expiresAt <= s.clock && !unlinkFails then None else s.file
    ensures var task := s.(task := Judging(ToEnrich, s.polls[p].copy));
            Step(task, TaskJudges(unlinkFails), pollAfterMs).file
            == Step(s, PollAnswers(p, unlinkFails), pollAfterMs).file
  {
  }

  /** A read that fails reports a session as missing although it lives on: the owner's next poll, of
      the same file, finds it; and a poll is answered once. */
  lemma FaultedReadIsMissing<R>(first: Session<R>, s: State<R>, p: nat, pollAfterMs: int)
    requires FileOk(first, s) && !first.Expired(s.clock)
    ensures var s1 := Step(s, PollReads(p, first.owner, true), pollAfterMs);
            var s2 := Step(s1, PollAnswers(p, false), pollAfterMs);
            var s3 := Step(s2, PollAnswers(p, false), pollAfterMs);
            && s2.file == s.file && |s2.answers| == |s.answers| + 1 && s2.answers[|s.answers|].reply == None
            && s3.answers == s2.answers
            && var s4 := Step(s2, PollReads(p, first.owner, false), pollAfterMs);
               var s5 := Step(s4, PollAnswers(p, false), pollAfterMs);
               s5.answers[|s2.answers|].reply.Some?
  {
  }

  /** A task that dies, at whatever point, is over: what is on file then stays, over every
      continuation, until it is deleted. */
  lemma DeadTaskWritesNothing<R>(first: Session<R>, events: seq<Event<R>>, more: seq<Event<R>>, pollAfterMs: int)
    requires Fresh(first) && first.status == "enriching"
    ensures var s, s' := Run(first, events, pollAfterMs), Run(first, events + [TaskDies] + more, pollAfterMs);
            && s'.task.Finished? && s'.replaced == s.replaced
            && (s'.file.Some? && s.file.Some? ==> s'.file == s.file)
  {
    RunOk(first, events, pollAfterMs);
    var s1 := Extend(first, events, TaskDies, pollAfterMs);
    FinishedForGood(first, events + [TaskDies], more, pollAfterMs);
    RunOk(first, events + [TaskDies] + more, pollAfterMs);
    StepsCounted(first, events, pollAfterMs);
    StepsCounted(first, events + [TaskDies] + more, pollAfterMs);
  }

  /** A task that loads a session which is no longer `enriching` stops there, and no write of it
      follows. */
  lemma ReadySessionIsLeft<R>(s: State<R>, copy: Session<R>, write: Write<R>, pollAfterMs: int)
    requires s.task.Judging? && s.task.copy == Some(copy) && copy.status != "enriching" && s.clock < copy.expiresAt
    ensures var s1 := Step(s, TaskJudges(false), pollAfterMs);
            var s2 := Step(s1, TaskWrites(write), pollAfterMs);
            s1.task.Finished? && s2.file == s.file && s2.replaced == s.replaced
  {
  }
}
