/** The live-search rate limiter: a sliding window kept once as rows of a SQL table and
    once as in-memory deques that take over whenever the store call fails.

    Clock readings and store failures are inputs. Times are `real` seconds; limits and
    windows are the configured integers. */
module RateLimiting {

  datatype Key = Key(scope: string, bucket: string)

  datatype Event = Event(key: Key, at: real)

  // `Raised` is the exception both versions throw when they look for the oldest entry of
  // an empty bucket, which needs a limit of zero or less.
  datatype Decision = Allowed | Denied(retryAfter: int) | Raised

  // A decision before the wait is rounded to whole seconds.
  datatype Verdict = Admitted | Blocked(wait: real) | Failed

  datatype Outcome = Outcome(verdict: Verdict, times: seq<real>)

  /******* Arithmetic *******/

  function Ceil(x: real): (c: int)
    ensures c as real - 1.0 < x <= c as real
  {
    -((-x).Floor)
  }

  function RetryAfter(wait: real): int {
    var whole := Ceil(wait);
    if whole < 1 then 1 else whole
  }

  function Answer(v: Verdict): Decision {
    match v
    case Admitted => Allowed
    case Blocked(wait) => Denied(RetryAfter(wait))
    case Failed => Raised
  }

  /******* The table: SQL statements as operations on rows *******/

  // SELECT observed_at WHERE scope = ? AND bucket_key = ?
  function TimesOf(events: seq<Event>, key: Key): seq<real> {
    if events == [] then []
    else if events[0].key == key then [events[0].at] + TimesOf(events[1..], key)
    else TimesOf(events[1..], key)
  }

  // DELETE WHERE scope = ? AND bucket_key = ? AND observed_at <= cutoff
  function DeleteExpired(events: seq<Event>, key: Key, cutoff: real): seq<Event> {
    if events == [] then []
    else if events[0].key == key && events[0].at <= cutoff then DeleteExpired(events[1..], key, cutoff)
    else [events[0]] + DeleteExpired(events[1..], key, cutoff)
  }

  // ORDER BY observed_at ASC LIMIT 1
  function Oldest(times: seq<real>): real
    requires times != []
  {
    if |times| == 1 then times[0]
    else
      var rest := Oldest(times[1..]);
      if times[0] <= rest then times[0] else rest
  }

  function Live(times: seq<real>, cutoff: real): seq<real>
  {
    if times == [] then []
    else if times[0] <= cutoff then Live(times[1..], cutoff)
    else [times[0]] + Live(times[1..], cutoff)
  }

  /** One bucket's sliding window, stated without a table or a deque: forget what is at
      least `window` old, admit while fewer than `limit` remain, otherwise say how long the
      oldest survivor still blocks. */
  function Admit(times: seq<real>, limit: int, window: real, now: real): Outcome {
    var live := Live(times, now - window);
    if |live| < limit then Outcome(Admitted, live + [now])
    else if live == [] then Outcome(Failed, times)
    else Outcome(Blocked(window - (now - Oldest(live))), live)
  }

  /** The whole table after one request. */
  function StoreServe(events: seq<Event>, key: Key, limit: int, window: real, now: real): (Verdict, seq<Event>) {
    var verdict := Admit(TimesOf(events, key), limit, window, now).verdict;
    var kept := DeleteExpired(events, key, now - window);
    match verdict
    case Admitted => (verdict, kept + [Event(key, now)])
    case Blocked(_) => (verdict, kept)
    case Failed => (verdict, events)
  }

  class OpsStateStore {
    var events: seq<Event>

    constructor ()
      ensures events == []
    {
      events := [];
    }

    // One BEGIN IMMEDIATE transaction; an exception rolls the DELETE back.
    method ConsumeRateLimitToken(key: Key, limit: int, windowSeconds: int, now: real) returns (decision: Decision)
      modifies this
      ensures var (verdict, after) := StoreServe(old(events), key, limit, windowSeconds as real, now);
              decision == Answer(verdict) && events == after
      ensures decision.Raised? ==> events == old(events)
    {
      var window := windowSeconds as real;
      var before := events;
      var cutoff := now - window;
      events := DeleteExpired(events, key, cutoff);
      DeleteLeavesLive(before, key, key, cutoff);
      var active := TimesOf(events, key);
      if |active| >= limit {
        if active == [] {
          events := before;
          return Raised;
        }
        return Denied(RetryAfter(window - (now - Oldest(active))));
      }
      events := events + [Event(key, now)];
      return Allowed;
    }
  }

  lemma LiveCons(t: real, times: seq<real>, cutoff: real)
    ensures Live([t] + times, cutoff) == if t <= cutoff then Live(times, cutoff) else [t] + Live(times, cutoff)
  {
    assert ([t] + times)[1..] == times;
  }

  lemma {:induction false} DeleteLeavesLive(events: seq<Event>, key: Key, k: Key, cutoff: real)
    ensures TimesOf(DeleteExpired(events, key, cutoff), k)
            == if k == key then Live(TimesOf(events, k), cutoff) else TimesOf(events, k)
  {
    if events != [] {
      var e := events[0];
      var rest := DeleteExpired(events[1..], key, cutoff);
      DeleteLeavesLive(events[1..], key, k, cutoff);
      if !(e.key == key && e.at <= cutoff) {
        assert DeleteExpired(events, key, cutoff) == [e] + rest;
        assert ([e] + rest)[1..] == rest;
      }
      if e.key == k {
        LiveCons(e.at, TimesOf(events[1..], k), cutoff);
      }
    }
  }

  lemma {:induction false} TimesOfAppend(events: seq<Event>, e: Event, k: Key)
    ensures TimesOf(events + [e], k) == TimesOf(events, k) + if e.key == k then [e.at] else []
  {
    if events == [] {
      assert events + [e] == [e];
    } else {
      assert (events + [e])[1..] == events[1..] + [e];
      TimesOfAppend(events[1..], e, k);
    }
  }

  /** The table meets the one-bucket specification, and no request touches another key. */
  lemma StoreMeetsSpecification(events: seq<Event>, key: Key, k: Key, limit: int, window: real, now: real)
    ensures var (verdict, after) := StoreServe(events, key, limit, window, now);
            var spec := Admit(TimesOf(events, key), limit, window, now);
            && verdict == spec.verdict
            && TimesOf(after, k) == if k == key then spec.times else TimesOf(events, k)
  {
    var cutoff := now - window;
    var kept := DeleteExpired(events, key, cutoff);
    DeleteLeavesLive(events, key, k, cutoff);
    TimesOfAppend(kept, Event(key, now), k);
    var (verdict, after) := StoreServe(events, key, limit, window, now);
    match verdict
    case Admitted => assert after == kept + [Event(key, now)];
    case Blocked(_) => assert after == kept;
    case Failed => assert after == events;
  }

  /******* The deques *******/

  function DropFront(times: seq<real>, cutoff: real): seq<real> {
    if times != [] && times[0] <= cutoff then DropFront(times[1..], cutoff) else times
  }

  function DequeAdmit(times: seq<real>, limit: int, window: real, now: real): Outcome {
    var live := DropFront(times, now - window);
    if |live| < limit then Outcome(Admitted, live + [now])
    else if live == [] then Outcome(Failed, live)
    else Outcome(Blocked(window - (now - live[0])), live)
  }

  function BucketOf(buckets: map<Key, seq<real>>, key: Key): seq<real> {
    if key in buckets then buckets[key] else []
  }

  function FallbackServe(buckets: map<Key, seq<real>>, key: Key, limit: int, window: real, now: real)
    : (Verdict, map<Key, seq<real>>)
  {
    var o := DequeAdmit(BucketOf(buckets, key), limit, window, now);
    (o.verdict, buckets[key := o.times])
  }

  class FallbackBuckets {
    var buckets: map<Key, seq<real>>

    constructor ()
      ensures buckets == map[]
    {
      buckets := map[];
    }

    method ConsumeFallbackToken(key: Key, limit: int, windowSeconds: int, now: real) returns (decision: Decision)
      modifies this
      ensures var (verdict, after) := FallbackServe(old(buckets), key, limit, windowSeconds as real, now);
              decision == Answer(verdict) && buckets == after
    {
      var window := windowSeconds as real;
      ghost var before := buckets;
      if key !in buckets {
        buckets := buckets[key := []];
      }
      ghost var start := buckets[key];
      var windowStart := now - window;
      while buckets[key] != [] && buckets[key][0] <= windowStart
        invariant key in buckets
        invariant DropFront(buckets[key], windowStart) == DropFront(start, windowStart)
        invariant buckets == before[key := buckets[key]]
        decreases |buckets[key]|
      {
        buckets := buckets[key := buckets[key][1..]];
      }
      var bucket := buckets[key];
      if |bucket| >= limit {
        if bucket == [] {
          return Raised;
        }
        return Denied(RetryAfter(window - (now - bucket[0])));
      }
      buckets := buckets[key := bucket + [now]];
      return Allowed;
    }
  }

  ghost predicate Sorted(times: seq<real>) {
    forall i, j :: 0 <= i <= j < |times| ==> times[i] <= times[j]
  }

  lemma {:induction false} DropFrontIsLive(times: seq<real>, cutoff: real)
    requires Sorted(times)
    ensures DropFront(times, cutoff) == Live(times, cutoff)
    ensures |Live(times, cutoff)| <= |times|
    ensures Live(times, cutoff) == times[|times| - |Live(times, cutoff)|..]
  {
    if times != [] {
      DropFrontIsLive(times[1..], cutoff);
      if cutoff < times[0] {
        AllLive(times, cutoff);
      }
    }
  }

  lemma {:induction false} AllLive(times: seq<real>, cutoff: real)
    requires forall i :: 0 <= i < |times| ==> cutoff < times[i]
    ensures Live(times, cutoff) == times
  {
    if times != [] {
      AllLive(times[1..], cutoff);
    }
  }

  /** Whatever order a bucket's rows come in, the wait is counted from the earliest of them. */
  lemma {:induction false} OldestIsLeast(times: seq<real>, i: nat)
    requires i < |times|
    ensures Oldest(times) in times && Oldest(times) <= times[i]
  {
    if |times| > 1 {
      OldestIsLeast(times[1..], if i > 0 then i - 1 else 0);
      assert times == [times[0]] + times[1..];
    }
  }

  lemma {:induction false} OldestOfSorted(times: seq<real>)
    requires Sorted(times) && times != []
    ensures Oldest(times) == times[0]
  {
    if |times| > 1 {
      OldestOfSorted(times[1..]);
    }
  }

  /** On a bucket in time order the deque loop and the SQL transaction decide alike, give the
      same retry time and remember the same times. */
  lemma DequeMeetsSpecification(times: seq<real>, limit: int, window: real, now: real)
    requires Sorted(times)
    requires 1 <= limit
    ensures DequeAdmit(times, limit, window, now) == Admit(times, limit, window, now)
  {
    var cutoff := now - window;
    DropFrontIsLive(times, cutoff);
    var live := Live(times, cutoff);
    if live != [] {
      OldestOfSorted(live);
    }
  }

  /******* What one bucket remembers of everything it ever accepted *******/

  ghost predicate Spaced(accepted: seq<real>, limit: int, window: real)
    requires 0 <= limit
  {
    forall i, j :: 0 <= i && j == i + limit && j < |accepted| ==> accepted[i] + window <= accepted[j]
  }

  // `times` is the part of `accepted` that can still matter at `now`.
  ghost predicate Remembers(accepted: seq<real>, times: seq<real>, limit: int, window: real, now: real) {
    && 1 <= limit
    && Sorted(accepted)
    && (forall i :: 0 <= i < |accepted| ==> accepted[i] <= now)
    && |times| <= |accepted|
    && |times| <= limit
    && times == accepted[|accepted| - |times|..]
    && (forall i :: 0 <= i < |accepted| - |times| ==> accepted[i] <= now - window)
    && Spaced(accepted, limit, window)
  }

  // The number of entries a sorted bucket keeps is where its live part starts.
  lemma {:induction false} LiveStart(times: seq<real>, cutoff: real, i: nat)
    requires Sorted(times)
    requires |Live(times, cutoff)| <= |times|
    requires i < |times| - |Live(times, cutoff)|
    ensures times[i] <= cutoff
  {
    if times[0] <= cutoff {
      if i > 0 {
        DropFrontIsLive(times[1..], cutoff);
        LiveStart(times[1..], cutoff, i - 1);
      }
    } else {
      AllLive(times, cutoff);
    }
  }

  lemma {:induction false} LiveStartsAfter(times: seq<real>, cutoff: real)
    requires Live(times, cutoff) != []
    ensures cutoff < Live(times, cutoff)[0]
  {
    if times[0] <= cutoff {
      LiveStartsAfter(times[1..], cutoff);
    }
  }

  lemma LiveRemembers(accepted: seq<real>, times: seq<real>, limit: int, window: real, now: real)
    requires Remembers(accepted, times, limit, window, now)
    ensures Remembers(accepted, Live(times, now - window), limit, window, now)
    ensures Sorted(times)
  {
    var cutoff := now - window;
    DropFrontIsLive(times, cutoff);
    var live := Live(times, cutoff);
    var gone := |accepted| - |times|;
    forall i | 0 <= i < |accepted| - |live|
      ensures accepted[i] <= cutoff
    {
      if gone <= i {
        LiveStart(times, cutoff, i - gone);
      }
    }
  }

  lemma AcceptRemembers(accepted: seq<real>, live: seq<real>, limit: int, window: real, now: real)
    requires Remembers(accepted, live, limit, window, now)
    requires |live| < limit
    ensures Remembers(accepted + [now], live + [now], limit, window, now)
  {
    var grown := accepted + [now];
    assert live + [now] == grown[|grown| - (|live| + 1)..];
    forall i, j | 0 <= i && j == i + limit && j < |grown|
      ensures grown[i] + window <= grown[j]
    {
      if j == |accepted| {
        assert i < |accepted| - |live|;
      }
    }
  }

  // What an outcome adds to the accepted times.
  function Gain(o: Outcome, now: real): seq<real> {
    if o.verdict.Admitted? then [now] else []
  }

  lemma AdmitRemembers(accepted: seq<real>, times: seq<real>, limit: int, window: real, now: real)
    requires Remembers(accepted, times, limit, window, now)
    ensures var o := Admit(times, limit, window, now);
            && !o.verdict.Failed?
            && Remembers(accepted + Gain(o, now), o.times, limit, window, now)
  {
    LiveRemembers(accepted, times, limit, window, now);
    var live := Live(times, now - window);
    if |live| < limit {
      AcceptRemembers(accepted, live, limit, window, now);
    } else {
      assert accepted + [] == accepted;
    }
  }

  /******* Whole runs *******/

  // The window is a whole number of seconds; only Retry-After depends on that.
  datatype Config = Config(limit: int, window: real, skew: real)

  // `storeFails`: the store call raised and the deques answered.
  datatype Request = Request(key: Key, now: real, storeFails: bool)

  datatype Limiter = Limiter(events: seq<Event>, buckets: map<Key, seq<real>>)

  // The deques read the monotonic clock, the store the wall clock; they differ by `skew`.
  function Serve(l: Limiter, r: Request, c: Config): (Verdict, Limiter) {
    if r.storeFails then
      var (d, buckets) := FallbackServe(l.buckets, r.key, c.limit, c.window, r.now - c.skew);
      (d, l.(buckets := buckets))
    else
      var (d, events) := StoreServe(l.events, r.key, c.limit, c.window, r.now);
      (d, l.(events := events))
  }

  function After(reqs: seq<Request>, c: Config): Limiter {
    if reqs == [] then Limiter([], map[])
    else Serve(After(reqs[..|reqs| - 1], c), reqs[|reqs| - 1], c).1
  }

  // The i-th request's decision.
  function DecisionAt(reqs: seq<Request>, c: Config, i: nat): Decision
    requires i < |reqs|
  {
    Answer(Serve(After(reqs[..i], c), reqs[i], c).0)
  }

  ghost predicate NonDecreasing(reqs: seq<Request>) {
    forall i, j :: 0 <= i <= j < |reqs| ==> reqs[i].now <= reqs[j].now
  }

  // Clock readings at which requests for `key` were admitted, by the store on the wall clock
  // or by the deques on the monotonic one.
  function Accepted(reqs: seq<Request>, c: Config, key: Key, byDeque: bool): seq<real> {
    if reqs == [] then []
    else
      var init := reqs[..|reqs| - 1];
      var r := reqs[|reqs| - 1];
      Accepted(init, c, key, byDeque) + AcceptedNow(After(init, c), r, c, key, byDeque)
  }

  function AcceptedNow(l: Limiter, r: Request, c: Config, key: Key, byDeque: bool): seq<real> {
    if r.key == key && r.storeFails == byDeque && Serve(l, r, c).0.Admitted? then [ClockOf(r.now, c, byDeque)] else []
  }

  function CountIn(times: seq<real>, lo: real, hi: real): nat {
    if times == [] then 0
    else CountIn(times[..|times| - 1], lo, hi) + if lo <= times[|times| - 1] < hi then 1 else 0
  }

  // What one key's table rows, or deque, hold.
  function Remembered(l: Limiter, key: Key, byDeque: bool): seq<real> {
    if byDeque then BucketOf(l.buckets, key) else TimesOf(l.events, key)
  }

  function ClockOf(now: real, c: Config, byDeque: bool): real {
    if byDeque then now - c.skew else now
  }

  lemma ServeAdmits(l: Limiter, r: Request, c: Config)
    requires 1 <= c.limit
    requires Sorted(Remembered(l, r.key, r.storeFails))
    ensures var o := Admit(Remembered(l, r.key, r.storeFails), c.limit, c.window, ClockOf(r.now, c, r.storeFails));
            && Serve(l, r, c).0 == o.verdict
            && Remembered(Serve(l, r, c).1, r.key, r.storeFails) == o.times
  {
    if r.storeFails {
      DequeMeetsSpecification(BucketOf(l.buckets, r.key), c.limit, c.window, r.now - c.skew);
    } else {
      StoreMeetsSpecification(l.events, r.key, r.key, c.limit, c.window, r.now);
    }
  }

  lemma RemembersSorted(accepted: seq<real>, times: seq<real>, limit: int, window: real, now: real)
    requires Remembers(accepted, times, limit, window, now)
    ensures Sorted(times)
  {
  }

  /** A request for one key leaves every other key's rows and deque alone, and a request the
      store answers leaves every deque alone, and the other way round. */
  lemma OthersUnaffected(l: Limiter, r: Request, c: Config, key: Key, byDeque: bool)
    requires key != r.key || byDeque != r.storeFails
    ensures Remembered(Serve(l, r, c).1, key, byDeque) == Remembered(l, key, byDeque)
  {
    StoreMeetsSpecification(l.events, r.key, key, c.limit, c.window, r.now);
  }

  lemma ServeRemembers(l: Limiter, r: Request, c: Config, key: Key, byDeque: bool, accepted: seq<real>)
    requires Remembers(accepted, Remembered(l, key, byDeque), c.limit, c.window, ClockOf(r.now, c, byDeque))
    ensures Remembers(accepted + AcceptedNow(l, r, c, key, byDeque), Remembered(Serve(l, r, c).1, key, byDeque),
                      c.limit, c.window, ClockOf(r.now, c, byDeque))
  {
    if key != r.key || byDeque != r.storeFails {
      OthersUnaffected(l, r, c, key, byDeque);
      assert accepted + AcceptedNow(l, r, c, key, byDeque) == accepted;
    } else {
      ServeRemembersOwn(l, r, c, accepted);
    }
  }

  lemma ServeRemembersOwn(l: Limiter, r: Request, c: Config, accepted: seq<real>)
    requires Remembers(accepted, Remembered(l, r.key, r.storeFails), c.limit, c.window, ClockOf(r.now, c, r.storeFails))
    ensures Remembers(accepted + AcceptedNow(l, r, c, r.key, r.storeFails),
                      Remembered(Serve(l, r, c).1, r.key, r.storeFails),
                      c.limit, c.window, ClockOf(r.now, c, r.storeFails))
  {
    var times, now := Remembered(l, r.key, r.storeFails), ClockOf(r.now, c, r.storeFails);
    RemembersSorted(accepted, times, c.limit, c.window, now);
    ServeAdmits(l, r, c);
    AdmitRemembers(accepted, times, c.limit, c.window, now);
    assert AcceptedNow(l, r, c, r.key, r.storeFails) == Gain(Admit(times, c.limit, c.window, now), now);
  }

  lemma StillRemembers(accepted: seq<real>, times: seq<real>, limit: int, window: real, before: real, now: real)
    requires Remembers(accepted, times, limit, window, before)
    requires before <= now
    ensures Remembers(accepted, times, limit, window, now)
  {
  }

  lemma {:induction false} RunRemembers(reqs: seq<Request>, c: Config, key: Key, byDeque: bool, now: real)
    requires 1 <= c.limit
    requires NonDecreasing(reqs)
    requires reqs == [] || reqs[|reqs| - 1].now <= now
    ensures Remembers(Accepted(reqs, c, key, byDeque), Remembered(After(reqs, c), key, byDeque),
                      c.limit, c.window, ClockOf(now, c, byDeque))
    decreases |reqs|
  {
    if reqs != [] {
      var init, r := reqs[..|reqs| - 1], reqs[|reqs| - 1];
      RunRemembers(init, c, key, byDeque, r.now);
      var accepted := Accepted(init, c, key, byDeque);
      ServeRemembers(After(init, c), r, c, key, byDeque, accepted);
      StillRemembers(Accepted(reqs, c, key, byDeque), Remembered(After(reqs, c), key, byDeque), c.limit, c.window,
                     ClockOf(r.now, c, byDeque), ClockOf(now, c, byDeque));
    }
  }

  lemma RunSpaced(reqs: seq<Request>, c: Config, key: Key, byDeque: bool)
    requires 1 <= c.limit
    requires NonDecreasing(reqs)
    ensures Sorted(Accepted(reqs, c, key, byDeque)) && Spaced(Accepted(reqs, c, key, byDeque), c.limit, c.window)
  {
    RunRemembers(reqs, c, key, byDeque, if reqs == [] then 0.0 else reqs[|reqs| - 1].now);
  }

  lemma {:induction false} CountIsSlice(times: seq<real>, lo: real, hi: real) returns (i: nat)
    requires Sorted(times)
    ensures i + CountIn(times, lo, hi) <= |times|
    ensures forall j :: i <= j < i + CountIn(times, lo, hi) ==> lo <= times[j] < hi
    ensures CountIn(times, lo, hi) == 0 || i + CountIn(times, lo, hi) == |times| || hi <= times[|times| - 1]
    decreases |times|
  {
    if times == [] {
      i := 0;
    } else {
      var init, last := times[..|times| - 1], times[|times| - 1];
      i := CountIsSlice(init, lo, hi);
      if lo <= last < hi && CountIn(init, lo, hi) == 0 {
        i := |init|;
      }
    }
  }

  lemma WindowSpread(accepted: seq<real>, limit: int, window: real, i: nat, j: nat)
    requires 1 <= limit && Spaced(accepted, limit, window)
    requires j == i + limit && j < |accepted|
    ensures accepted[i] + window <= accepted[j]
  {
  }

  lemma SpacedBoundsWindow(accepted: seq<real>, limit: int, window: real, start: real)
    requires 1 <= limit
    requires Sorted(accepted) && Spaced(accepted, limit, window)
    ensures CountIn(accepted, start, start + window) <= limit
  {
    var i := CountIsSlice(accepted, start, start + window);
    var n := CountIn(accepted, start, start + window);
    if limit < n {
      WindowSpread(accepted, limit, window, i, i + limit);
    }
  }

  // How many requests for a key one version admitted in the window that starts at `start`.
  function AdmittedIn(reqs: seq<Request>, c: Config, key: Key, byDeque: bool, start: real): nat {
    CountIn(Accepted(reqs, c, key, byDeque), start, start + c.window)
  }

  lemma WindowBoundOne(reqs: seq<Request>, c: Config, key: Key, byDeque: bool, start: real)
    requires 1 <= c.limit
    requires NonDecreasing(reqs)
    ensures AdmittedIn(reqs, c, key, byDeque, start) <= c.limit
  {
    RunSpaced(reqs, c, key, byDeque);
    SpacedBoundsWindow(Accepted(reqs, c, key, byDeque), c.limit, c.window, start);
  }

  /** Over any run with non-decreasing clock readings, every half-open window holds at most
      `limit` requests for a key admitted by the store, at most `limit` admitted by the deques,
      and so at most twice the limit however the store's failures fall. */
  lemma WindowBound(reqs: seq<Request>, c: Config, key: Key, start: real)
    requires 1 <= c.limit
    requires NonDecreasing(reqs)
    ensures var byStore, byDeque := AdmittedIn(reqs, c, key, false, start),
                                       AdmittedIn(reqs, c, key, true, start - c.skew);
            byStore <= c.limit && byDeque <= c.limit && byStore + byDeque <= 2 * c.limit
  {
    WindowBoundOne(reqs, c, key, false, start);
    WindowBoundOne(reqs, c, key, true, start - c.skew);
  }

  /******* The two versions side by side *******/

  function Shift(times: seq<real>, delta: real): seq<real> {
    if times == [] then [] else [times[0] - delta] + Shift(times[1..], delta)
  }

  lemma {:induction false} ShiftAppend(times: seq<real>, t: real, delta: real)
    ensures Shift(times + [t], delta) == Shift(times, delta) + [t - delta]
  {
    if times == [] {
      assert times + [t] == [t];
    } else {
      assert (times + [t])[1..] == times[1..] + [t];
      ShiftAppend(times[1..], t, delta);
    }
  }

  function WithStore(reqs: seq<Request>, fails: bool): (r: seq<Request>)
    ensures |r| == |reqs| && forall i :: 0 <= i < |r| ==> r[i] == reqs[i].(storeFails := fails)
  {
    seq(|reqs|, i requires 0 <= i < |reqs| => reqs[i].(storeFails := fails))
  }

  lemma {:induction false} LiveShifted(times: seq<real>, cutoff: real, delta: real)
    ensures Live(Shift(times, delta), cutoff - delta) == Shift(Live(times, cutoff), delta)
  {
    if times != [] {
      LiveShifted(times[1..], cutoff, delta);
      LiveCons(times[0] - delta, Shift(times[1..], delta), cutoff - delta);
      var live := Live(times[1..], cutoff);
      assert ([times[0]] + live)[1..] == live;
    }
  }

  lemma {:induction false} OldestShifted(times: seq<real>, delta: real)
    requires times != []
    ensures Shift(times, delta) != []
    ensures Oldest(Shift(times, delta)) == Oldest(times) - delta
  {
    var rest := Shift(times[1..], delta);
    assert ([times[0] - delta] + rest)[1..] == rest;
    if |times| > 1 {
      OldestShifted(times[1..], delta);
    }
  }

  lemma {:induction false} ShiftLength(times: seq<real>, delta: real)
    ensures |Shift(times, delta)| == |times|
  {
    if times != [] {
      ShiftLength(times[1..], delta);
    }
  }

  // Only differences of clock readings matter.
  lemma AdmitShifted(times: seq<real>, limit: int, window: real, now: real, delta: real)
    requires 1 <= limit
    ensures var o := Admit(times, limit, window, now);
            Admit(Shift(times, delta), limit, window, now - delta) == Outcome(o.verdict, Shift(o.times, delta))
  {
    var cutoff := now - window;
    LiveShifted(times, cutoff, delta);
    assert now - delta - window == cutoff - delta;
    var live := Live(times, cutoff);
    ShiftLength(live, delta);
    if limit <= |live| {
      OldestShifted(live, delta);
    } else {
      ShiftAppend(live, now, delta);
    }
  }

  // The run with the store down, and the same run with it up, for one key.
  ghost predicate Alike(down: Limiter, up: Limiter, key: Key, c: Config) {
    Remembered(down, key, true) == Shift(Remembered(up, key, false), c.skew)
  }

  lemma ServeAlike(down: Limiter, up: Limiter, r: Request, c: Config, key: Key)
    requires 1 <= c.limit
    requires Alike(down, up, key, c)
    requires Sorted(Remembered(up, key, false)) && Sorted(Remembered(down, key, true))
    ensures var d := Serve(down, r.(storeFails := true), c);
            var u := Serve(up, r.(storeFails := false), c);
            Alike(d.1, u.1, key, c) && (r.key == key ==> d.0 == u.0)
  {
    if r.key == key {
      ServeAdmits(down, r.(storeFails := true), c);
      ServeAdmits(up, r.(storeFails := false), c);
      AdmitShifted(Remembered(up, key, false), c.limit, c.window, r.now, c.skew);
    } else {
      OthersUnaffected(down, r.(storeFails := true), c, key, true);
      OthersUnaffected(up, r.(storeFails := false), c, key, false);
    }
  }

  lemma RunSorted(reqs: seq<Request>, c: Config, key: Key, byDeque: bool)
    requires 1 <= c.limit
    requires NonDecreasing(reqs)
    ensures Sorted(Remembered(After(reqs, c), key, byDeque))
  {
    var now := if reqs == [] then 0.0 else reqs[|reqs| - 1].now;
    RunRemembers(reqs, c, key, byDeque, now);
  }

  lemma {:induction false} RunsAlike(reqs: seq<Request>, c: Config, key: Key)
    requires 1 <= c.limit
    requires NonDecreasing(reqs)
    ensures Alike(After(WithStore(reqs, true), c), After(WithStore(reqs, false), c), key, c)
    decreases |reqs|
  {
    if reqs != [] {
      var init, r := reqs[..|reqs| - 1], reqs[|reqs| - 1];
      var down, up := WithStore(init, true), WithStore(init, false);
      assert WithStore(reqs, true)[..|init|] == down && WithStore(reqs, false)[..|init|] == up;
      RunsAlike(init, c, key);
      RunSorted(down, c, key, true);
      RunSorted(up, c, key, false);
      ServeAlike(After(down, c), After(up, c), r, c, key);
    }
  }

  /** The SQL transaction and the deque loop return the same decisions and the same retry times
      on every run of requests with non-decreasing clock readings. */
  lemma VersionsAgree(reqs: seq<Request>, c: Config, i: nat)
    requires 1 <= c.limit
    requires NonDecreasing(reqs)
    requires i < |reqs|
    ensures DecisionAt(WithStore(reqs, true), c, i) == DecisionAt(WithStore(reqs, false), c, i)
  {
    var init, r := reqs[..i], reqs[i];
    var down, up := WithStore(init, true), WithStore(init, false);
    assert WithStore(reqs, true)[..i] == down && WithStore(reqs, false)[..i] == up;
    RunsAlike(init, c, r.key);
    RunSorted(down, c, r.key, true);
    RunSorted(up, c, r.key, false);
    ServeAlike(After(down, c), After(up, c), r, c, r.key);
  }

  /******* Retry-After *******/

  lemma RetryAfterIsLeast(wait: real, windowSeconds: int, k: nat)
    requires 0.0 < wait <= windowSeconds as real
    ensures 1 <= RetryAfter(wait) <= windowSeconds
    ensures RetryAfter(wait) <= k <==> wait <= k as real
  {
  }

  // A full bucket lets the next request in exactly when its oldest entry has expired.
  lemma FullBucketAdmits(live: seq<real>, limit: int, window: real, now: real)
    requires Sorted(live) && |live| == limit && 1 <= limit
    ensures Admit(live, limit, window, now).verdict.Admitted? <==> live[0] <= now - window
  {
    var cutoff := now - window;
    DropFrontIsLive(live, cutoff);
    if cutoff < live[0] {
      AllLive(live, cutoff);
    } else {
      assert DropFront(live, cutoff) == DropFront(live[1..], cutoff);
      DropFrontIsLive(live[1..], cutoff);
    }
  }

  // A blocked bucket is full of live entries, and waits for the oldest of them.
  lemma BlockedLive(accepted: seq<real>, times: seq<real>, limit: int, window: real, now: real)
    requires Remembers(accepted, times, limit, window, now)
    requires limit <= |Live(times, now - window)|
    ensures var live := Live(times, now - window);
            && |live| == limit && Sorted(live) && Oldest(live) == live[0]
            && now - window < live[0] <= now
  {
    LiveRemembers(accepted, times, limit, window, now);
    var live := Live(times, now - window);
    RemembersSorted(accepted, live, limit, window, now);
    OldestOfSorted(live);
    LiveStartsAfter(times, now - window);
    assert live[0] == accepted[|accepted| - |live|];
  }

  lemma BlockedWait(accepted: seq<real>, times: seq<real>, limit: int, window: real, now: real, later: real)
    requires 0.0 < window
    requires Remembers(accepted, times, limit, window, now)
    requires Admit(times, limit, window, now).verdict.Blocked?
    ensures var o := Admit(times, limit, window, now);
            && 0.0 < o.verdict.wait <= window
            && (Admit(o.times, limit, window, now + later).verdict.Admitted? <==> o.verdict.wait <= later)
  {
    BlockedLive(accepted, times, limit, window, now);
    FullBucketAdmits(Live(times, now - window), limit, window, now + later);
  }

  lemma ServeBlocked(before: Limiter, c: Config, r: Request, later: real, accepted: seq<real>)
    requires 0.0 < c.window && 0.0 <= later
    requires Remembers(accepted, Remembered(before, r.key, r.storeFails),
                       c.limit, c.window, ClockOf(r.now, c, r.storeFails))
    requires Serve(before, r, c).0.Blocked?
    ensures var (verdict, l) := Serve(before, r, c);
            && 0.0 < verdict.wait <= c.window
            && (Serve(l, r.(now := r.now + later), c).0.Admitted? <==> verdict.wait <= later)
  {
    var times, now := Remembered(before, r.key, r.storeFails), ClockOf(r.now, c, r.storeFails);
    RemembersSorted(accepted, times, c.limit, c.window, now);
    ServeAdmits(before, r, c);
    BlockedWait(accepted, times, c.limit, c.window, now, later);
    AdmitRemembers(accepted, times, c.limit, c.window, now);
    var o := Admit(times, c.limit, c.window, now);
    RemembersSorted(accepted + Gain(o, now), o.times, c.limit, c.window, now);
    ServeAdmits(Serve(before, r, c).1, r.(now := r.now + later), c);
    assert ClockOf(r.now + later, c, r.storeFails) == now + later;
  }

  lemma BlockedInRun(reqs: seq<Request>, c: Config, r: Request, later: real)
    requires 1 <= c.limit && 0.0 < c.window && 0.0 <= later
    requires NonDecreasing(reqs)
    requires reqs == [] || reqs[|reqs| - 1].now <= r.now
    requires Serve(After(reqs, c), r, c).0.Blocked?
    ensures var (verdict, l) := Serve(After(reqs, c), r, c);
            && 0.0 < verdict.wait <= c.window
            && (Serve(l, r.(now := r.now + later), c).0.Admitted? <==> verdict.wait <= later)
  {
    RunRemembers(reqs, c, r.key, r.storeFails, r.now);
    ServeBlocked(After(reqs, c), c, r, later, Accepted(reqs, c, r.key, r.storeFails));
  }

  /** A denied caller's retry value lies between one second and the window, and a lone retry
      after k whole seconds is admitted exactly when k has reached it: it is the least wait. */
  lemma RetryIsExact(reqs: seq<Request>, c: Config, windowSeconds: int, r: Request, k: nat)
    requires 1 <= c.limit && 1 <= windowSeconds && c.window == windowSeconds as real
    requires NonDecreasing(reqs)
    requires reqs == [] || reqs[|reqs| - 1].now <= r.now
    requires Answer(Serve(After(reqs, c), r, c).0).Denied?
    ensures var (verdict, l) := Serve(After(reqs, c), r, c);
            var retryAfter := Answer(verdict).retryAfter;
            && 1 <= retryAfter <= windowSeconds
            && (Answer(Serve(l, r.(now := r.now + k as real), c).0) == Allowed <==> retryAfter <= k)
  {
    BlockedInRun(reqs, c, r, k as real);
    RetryAfterIsLeast(Serve(After(reqs, c), r, c).0.wait, windowSeconds, k);
  }
}
