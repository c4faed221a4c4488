/** How good the sliding-window bound is. Both versions together reach twice the limit for every
    configuration, and keep to it exactly in windows no longer than the time between their
    answers. Each version alone, when clock readings may run backwards by up to `d` seconds, keeps
    to it exactly in windows shorter by `d`, or in all of them if the limit is 1. Both read the
    clock before they take their lock, so a little disorder is the normal case. */
module RateLimitBounds {
  import opened RateLimiting

  /******* Bounded disorder *******/

  // No clock reading is more than d seconds below an earlier one.
  ghost predicate Disorder(reqs: seq<Request>, d: real) {
    forall i, j :: 0 <= i <= j < |reqs| ==> reqs[i].now - d <= reqs[j].now
  }

  // Above `cutoff`, a bucket holds everything its version ever admitted.
  ghost predicate Holds(accepted: seq<real>, times: seq<real>, cutoff: real) {
    forall lo, hi :: cutoff < lo ==> CountIn(accepted, lo, hi) <= CountIn(times, lo, hi)
  }

  lemma CountAppend(times: seq<real>, t: real, lo: real, hi: real)
    ensures CountIn(times + [t], lo, hi) == CountIn(times, lo, hi) + if lo <= t < hi then 1 else 0
  {
    assert (times + [t])[..|times|] == times;
  }

  lemma {:induction false} CountCons(t: real, times: seq<real>, lo: real, hi: real)
    ensures CountIn([t] + times, lo, hi) == (if lo <= t < hi then 1 else 0) + CountIn(times, lo, hi)
  {
    if times == [] {
      assert [t] + times == [] + [t];
      CountAppend([], t, lo, hi);
    } else {
      var init, last := times[..|times| - 1], times[|times| - 1];
      CountCons(t, init, lo, hi);
      CountAppend([t] + init, last, lo, hi);
      assert [t] + times == [t] + init + [last];
    }
  }

  lemma {:induction false} CountAtMostLength(times: seq<real>, lo: real, hi: real)
    ensures CountIn(times, lo, hi) <= |times|
  {
    if times != [] {
      CountAtMostLength(times[..|times| - 1], lo, hi);
    }
  }

  lemma {:induction false} LiveCounts(times: seq<real>, cutoff: real, lo: real, hi: real)
    requires cutoff < lo
    ensures CountIn(Live(times, cutoff), lo, hi) == CountIn(times, lo, hi)
  {
    if times != [] {
      LiveCounts(times[1..], cutoff, lo, hi);
      assert times == [times[0]] + times[1..];
      CountCons(times[0], times[1..], lo, hi);
      CountCons(times[0], Live(times[1..], cutoff), lo, hi);
    }
  }

  lemma {:induction false} DropFrontCounts(times: seq<real>, cutoff: real, lo: real, hi: real)
    requires cutoff < lo
    ensures CountIn(DropFront(times, cutoff), lo, hi) == CountIn(times, lo, hi)
  {
    if times != [] && times[0] <= cutoff {
      DropFrontCounts(times[1..], cutoff, lo, hi);
      assert times == [times[0]] + times[1..];
      CountCons(times[0], times[1..], lo, hi);
    }
  }

  // What is left of a bucket when its expired entries are gone; a deque only drops from the front.
  function Left(times: seq<real>, cutoff: real, byDeque: bool): seq<real> {
    if byDeque then DropFront(times, cutoff) else Live(times, cutoff)
  }

  lemma LeftCounts(times: seq<real>, cutoff: real, byDeque: bool, lo: real, hi: real)
    requires cutoff < lo
    ensures CountIn(Left(times, cutoff, byDeque), lo, hi) == CountIn(times, lo, hi)
  {
    if byDeque {
      DropFrontCounts(times, cutoff, lo, hi);
    } else {
      LiveCounts(times, cutoff, lo, hi);
    }
  }

  // One request at its own bucket, whatever the order of the bucket's entries.
  lemma ServeOwn(l: Limiter, r: Request, c: Config)
    requires 1 <= c.limit
    ensures var clock := ClockOf(r.now, c, r.storeFails);
            var left := Left(Remembered(l, r.key, r.storeFails), clock - c.window, r.storeFails);
            var (verdict, after) := Serve(l, r, c);
            && (verdict.Admitted? <==> |left| < c.limit)
            && Remembered(after, r.key, r.storeFails) == if verdict.Admitted? then left + [clock] else left
  {
    StoreMeetsSpecification(l.events, r.key, r.key, c.limit, c.window, r.now);
  }

  lemma HoldsAppend(accepted: seq<real>, times: seq<real>, cutoff: real, t: real)
    requires Holds(accepted, times, cutoff)
    ensures Holds(accepted + [t], times + [t], cutoff)
  {
    forall lo, hi | cutoff < lo
      ensures CountIn(accepted + [t], lo, hi) <= CountIn(times + [t], lo, hi)
    {
      CountAppend(accepted, t, lo, hi);
      CountAppend(times, t, lo, hi);
    }
  }

  lemma HoldsLeft(accepted: seq<real>, times: seq<real>, cutoff: real, expired: real, byDeque: bool)
    requires Holds(accepted, times, cutoff) && expired <= cutoff
    ensures Holds(accepted, Left(times, expired, byDeque), cutoff)
  {
    forall lo, hi | cutoff < lo
      ensures CountIn(accepted, lo, hi) <= CountIn(Left(times, expired, byDeque), lo, hi)
    {
      LeftCounts(times, expired, byDeque, lo, hi);
    }
  }

  // A request at its own bucket keeps what the bucket has to hold.
  lemma OwnHolds(accepted: seq<real>, times: seq<real>, clock: real, window: real, byDeque: bool, admitted: bool,
                 peak: real)
    requires Holds(accepted, times, peak - window) && clock <= peak
    ensures var left := Left(times, clock - window, byDeque);
            Holds(accepted + if admitted then [clock] else [], if admitted then left + [clock] else left, peak - window)
  {
    assert accepted + [] == accepted;
    HoldsLeft(accepted, times, peak - window, clock - window, byDeque);
    HoldsAppend(accepted, Left(times, clock - window, byDeque), peak - window, clock);
  }

  lemma ServeHolds(l: Limiter, r: Request, c: Config, key: Key, byDeque: bool, accepted: seq<real>, peak: real)
    requires 1 <= c.limit && ClockOf(r.now, c, byDeque) <= peak
    requires Holds(accepted, Remembered(l, key, byDeque), peak - c.window)
    ensures Holds(accepted + AcceptedNow(l, r, c, key, byDeque),
                  Remembered(Serve(l, r, c).1, key, byDeque), peak - c.window)
  {
    if key != r.key || byDeque != r.storeFails {
      assert accepted + [] == accepted;
      OthersUnaffected(l, r, c, key, byDeque);
    } else {
      var clock := ClockOf(r.now, c, byDeque);
      ServeOwn(l, r, c);
      OwnHolds(accepted, Remembered(l, key, byDeque), clock, c.window, byDeque, Serve(l, r, c).0.Admitted?, peak);
    }
  }

  /** Over any run at all: what a version admitted within the window before the highest reading is
      still in its bucket. */
  lemma {:induction false} RunHolds(reqs: seq<Request>, c: Config, key: Key, byDeque: bool, peak: real)
    requires 1 <= c.limit
    requires forall i :: 0 <= i < |reqs| ==> ClockOf(reqs[i].now, c, byDeque) <= peak
    ensures Holds(Accepted(reqs, c, key, byDeque), Remembered(After(reqs, c), key, byDeque), peak - c.window)
    decreases |reqs|
  {
    if reqs != [] {
      var init, r := reqs[..|reqs| - 1], reqs[|reqs| - 1];
      RunHolds(init, c, key, byDeque, peak);
      ServeHolds(After(init, c), r, c, key, byDeque, Accepted(init, c, key, byDeque), peak);
    }
  }

  // A request admitted inside a window finds every earlier one of that window in its bucket.
  lemma AdmittedFindsRoom(l: Limiter, r: Request, c: Config, accepted: seq<real>, d: real, start: real, w: real)
    requires 1 <= c.limit && w <= c.window - d
    requires Serve(l, r, c).0.Admitted? && start <= ClockOf(r.now, c, r.storeFails) < start + w
    requires Holds(accepted, Remembered(l, r.key, r.storeFails), ClockOf(r.now, c, r.storeFails) + d - c.window)
    requires 0.0 <= d
    ensures CountIn(accepted, start, start + w) < c.limit
  {
    var times, clock := Remembered(l, r.key, r.storeFails), ClockOf(r.now, c, r.storeFails);
    ServeOwn(l, r, c);
    LeftCounts(times, clock - c.window, r.storeFails, start, start + w);
    CountAtMostLength(Left(times, clock - c.window, r.storeFails), start, start + w);
  }

  // One request more keeps the bound.
  lemma BoundGoesOn(l: Limiter, r: Request, c: Config, key: Key, byDeque: bool, accepted: seq<real>, d: real,
                    start: real,
                    w: real)
    requires 1 <= c.limit && 0.0 <= d && w <= c.window - d
    requires Holds(accepted, Remembered(l, key, byDeque), ClockOf(r.now, c, byDeque) + d - c.window)
    requires CountIn(accepted, start, start + w) <= c.limit
    ensures CountIn(accepted + AcceptedNow(l, r, c, key, byDeque), start, start + w) <= c.limit
  {
    var clock := ClockOf(r.now, c, byDeque);
    assert accepted + [] == accepted;
    CountAppend(accepted, clock, start, start + w);
    if AcceptedNow(l, r, c, key, byDeque) != [] && start <= clock < start + w {
      AdmittedFindsRoom(l, r, c, accepted, d, start, w);
    }
  }

  lemma {:induction false} DisorderlyBound(reqs: seq<Request>, c: Config, key: Key, byDeque: bool, d: real, start: real,
                                           w: real)
    requires 1 <= c.limit && 0.0 <= d && Disorder(reqs, d) && w <= c.window - d
    ensures CountIn(Accepted(reqs, c, key, byDeque), start, start + w) <= c.limit
    decreases |reqs|
  {
    if reqs != [] {
      var init, r := reqs[..|reqs| - 1], reqs[|reqs| - 1];
      DisorderlyBound(init, c, key, byDeque, d, start, w);
      RunHolds(init, c, key, byDeque, ClockOf(r.now, c, byDeque) + d);
      BoundGoesOn(After(init, c), r, c, key, byDeque, Accepted(init, c, key, byDeque), d, start, w);
    }
  }

  /******* Runs that fill a window *******/

  // What one version holds and has admitted for a key.
  ghost predicate Reached(reqs: seq<Request>, c: Config, key: Key, byDeque: bool, times: seq<real>,
                          accepted: seq<real>) {
    Remembered(After(reqs, c), key, byDeque) == times && Accepted(reqs, c, key, byDeque) == accepted
  }

  // The request that shows a version the clock reading `clock`.
  function At(key: Key, clock: real, c: Config, byDeque: bool): Request {
    Request(key, if byDeque then clock + c.skew else clock, byDeque)
  }

  lemma Extend(reqs: seq<Request>, r: Request, c: Config, key: Key, byDeque: bool)
    ensures Accepted(reqs + [r], c, key, byDeque)
            == Accepted(reqs, c, key, byDeque) + AcceptedNow(After(reqs, c), r, c, key, byDeque)
    ensures After(reqs + [r], c) == Serve(After(reqs, c), r, c).1
  {
    assert (reqs + [r])[..|reqs|] == reqs;
  }

  // One more request at a bucket that has room for it.
  lemma Next(reqs: seq<Request>, c: Config, key: Key, byDeque: bool, clock: real, times: seq<real>, accepted: seq<real>)
    requires Reached(reqs, c, key, byDeque, times, accepted)
    requires 1 <= c.limit && |Left(times, clock - c.window, byDeque)| < c.limit
    ensures Reached(reqs + [At(key, clock, c, byDeque)], c, key, byDeque,
                    Left(times, clock - c.window, byDeque) + [clock], accepted + [clock])
  {
    var r := At(key, clock, c, byDeque);
    Extend(reqs, r, c, key, byDeque);
    NextState(After(reqs, c), r, c, key, byDeque, clock, times);
  }

  lemma NextState(l: Limiter, r: Request, c: Config, key: Key, byDeque: bool, clock: real, times: seq<real>)
    requires Remembered(l, key, byDeque) == times && r == At(key, clock, c, byDeque)
    requires 1 <= c.limit && |Left(times, clock - c.window, byDeque)| < c.limit
    ensures AcceptedNow(l, r, c, key, byDeque) == [clock]
    ensures Remembered(Serve(l, r, c).1, key, byDeque) == Left(times, clock - c.window, byDeque) + [clock]
  {
    ServeOwn(l, r, c);
  }

  // The other version does not notice.
  lemma NextLeavesOther(reqs: seq<Request>, c: Config, key: Key, byDeque: bool, clock: real, times: seq<real>,
                        accepted: seq<real>)
    requires Reached(reqs, c, key, !byDeque, times, accepted)
    ensures Reached(reqs + [At(key, clock, c, byDeque)], c, key, !byDeque, times, accepted)
  {
    var r := At(key, clock, c, byDeque);
    Extend(reqs, r, c, key, !byDeque);
    OthersUnaffected(After(reqs, c), r, c, key, !byDeque);
    assert accepted + [] == accepted;
  }

  function Copies(t: real, n: nat): seq<real> { if n == 0 then [] else Copies(t, n - 1) + [t] }

  lemma {:induction false} CopiesCount(t: real, n: nat, lo: real, hi: real)
    requires lo <= t < hi
    ensures |Copies(t, n)| == n && CountIn(Copies(t, n), lo, hi) == n
  {
    if n > 0 {
      CopiesCount(t, n - 1, lo, hi);
      CountAppend(Copies(t, n - 1), t, lo, hi);
    }
  }

  lemma CopiesAllLive(t: real, n: nat, cutoff: real, byDeque: bool)
    requires cutoff < t
    ensures Left(Copies(t, n), cutoff, byDeque) == Copies(t, n)
  {
    CopiesAre(t, n);
    AllLive(Copies(t, n), cutoff);
  }

  lemma {:induction false} CopiesAre(t: real, n: nat)
    ensures |Copies(t, n)| == n && forall i :: 0 <= i < n ==> Copies(t, n)[i] == t
  {
    if n > 0 {
      CopiesAre(t, n - 1);
    }
  }

  // n requests at one instant have filled a bucket of one version and left the other's alone.
  ghost predicate Filled(reqs: seq<Request>, c: Config, key: Key, byDeque: bool, clock: real, n: nat,
                         other: seq<real>) {
    && Reached(reqs, c, key, byDeque, Copies(clock, n), Copies(clock, n))
    && Reached(reqs, c, key, !byDeque, other, other)
  }

  lemma FillOne(reqs: seq<Request>, c: Config, key: Key, byDeque: bool, clock: real, n: nat, other: seq<real>)
    requires 0.0 < c.window && n < c.limit && Filled(reqs, c, key, byDeque, clock, n, other)
    ensures Filled(reqs + [At(key, clock, c, byDeque)], c, key, byDeque, clock, n + 1, other)
  {
    var copies := Copies(clock, n);
    CopiesAllLive(clock, n, clock - c.window, byDeque);
    CopiesAre(clock, n);
    Next(reqs, c, key, byDeque, clock, copies, copies);
    NextLeavesOther(reqs, c, key, byDeque, clock, other, other);
    assert Copies(clock, n + 1) == copies + [clock];
  }

  // `reqs` continues `start` with n requests that read `clock`.
  ghost predicate Continues(reqs: seq<Request>, start: seq<Request>, key: Key, clock: real, c: Config, byDeque: bool,
                            n: nat) {
    && |reqs| == |start| + n && reqs[..|start|] == start
    && forall i :: |start| <= i < |reqs| ==> reqs[i] == At(key, clock, c, byDeque)
  }

  function Repeat(start: seq<Request>, r: Request, n: nat): seq<Request> {
    if n == 0 then start else Repeat(start, r, n - 1) + [r]
  }

  lemma {:induction false} RepeatContinues(start: seq<Request>, c: Config, key: Key, byDeque: bool, clock: real, n: nat)
    ensures Continues(Repeat(start, At(key, clock, c, byDeque), n), start, key, clock, c, byDeque, n)
  {
    if n > 0 {
      RepeatContinues(start, c, key, byDeque, clock, n - 1);
    }
  }

  lemma RepeatOne(start: seq<Request>, c: Config, key: Key, byDeque: bool, clock: real, n: nat, other: seq<real>)
    requires 0.0 < c.window && n < c.limit
    requires Filled(Repeat(start, At(key, clock, c, byDeque), n), c, key, byDeque, clock, n, other)
    ensures Filled(Repeat(start, At(key, clock, c, byDeque), n + 1), c, key, byDeque, clock, n + 1, other)
  {
    FillOne(Repeat(start, At(key, clock, c, byDeque), n), c, key, byDeque, clock, n, other);
  }

  lemma {:induction false} RepeatFills(start: seq<Request>, c: Config, key: Key, byDeque: bool, clock: real, n: nat,
                                       other: seq<real>)
    requires 0.0 < c.window && n <= c.limit && Filled(start, c, key, byDeque, clock, 0, other)
    ensures Filled(Repeat(start, At(key, clock, c, byDeque), n), c, key, byDeque, clock, n, other)
  {
    if n > 0 {
      RepeatFills(start, c, key, byDeque, clock, n - 1, other);
      RepeatOne(start, c, key, byDeque, clock, n - 1, other);
    }
  }

  lemma Fill(start: seq<Request>, c: Config, key: Key, byDeque: bool, clock: real, n: nat, other: seq<real>)
    returns (reqs: seq<Request>)
    requires 0.0 < c.window && n <= c.limit && Filled(start, c, key, byDeque, clock, 0, other)
    ensures Continues(reqs, start, key, clock, c, byDeque, n)
    ensures Filled(reqs, c, key, byDeque, clock, n, other)
  {
    reqs := Repeat(start, At(key, clock, c, byDeque), n);
    RepeatContinues(start, c, key, byDeque, clock, n);
    RepeatFills(start, c, key, byDeque, clock, n, other);
  }

  lemma FillStore(c: Config, key: Key, now: real) returns (reqs: seq<Request>)
    requires 1 <= c.limit && 0.0 < c.window
    ensures Continues(reqs, [], key, now, c, false, c.limit) && Filled(reqs, c, key, false, now, c.limit, [])
  {
    reqs := Fill([], c, key, false, now, c.limit, []);
  }

  // A bucket that one version has filled is the other's business no longer.
  lemma FilledOther(reqs: seq<Request>, c: Config, key: Key, now: real, clock: real, n: nat)
    requires Filled(reqs, c, key, false, now, n, [])
    ensures Filled(reqs, c, key, true, clock, 0, Copies(now, n))
  {
  }

  lemma FillDeque(byStore: seq<Request>, c: Config, key: Key, now: real, later: real) returns (reqs: seq<Request>)
    requires 1 <= c.limit && 0.0 < c.window && Filled(byStore, c, key, false, now, c.limit, [])
    ensures Continues(reqs, byStore, key, later, c, true, c.limit)
    ensures Filled(reqs, c, key, true, later, c.limit, Copies(now, c.limit))
  {
    FilledOther(byStore, c, key, now, later, c.limit);
    reqs := Fill(byStore, c, key, true, later, c.limit, Copies(now, c.limit));
  }

  // `limit` requests by the store at one instant, then `limit` by the deques `gap` seconds later.
  lemma TwoBursts(c: Config, key: Key, now: real, gap: real) returns (reqs: seq<Request>)
    requires 1 <= c.limit && 0.0 < c.window && 0.0 <= gap
    ensures NonDecreasing(reqs) && Apart(reqs, key, gap)
    ensures Admitted(reqs, c, key) == Admissions(Copies(now, c.limit), Copies(now + gap - c.skew, c.limit))
  {
    var byStore := FillStore(c, key, now);
    reqs := FillDeque(byStore, c, key, now, now + gap - c.skew);
    BurstsAreApart(reqs, byStore, c, key, now, gap);
  }

  lemma BurstsAreApart(reqs: seq<Request>, byStore: seq<Request>, c: Config, key: Key, now: real, gap: real)
    requires 0.0 <= gap && 1 <= c.limit
    requires Continues(byStore, [], key, now, c, false, c.limit)
    requires Continues(reqs, byStore, key, now + gap - c.skew, c, true, c.limit)
    ensures NonDecreasing(reqs) && Apart(reqs, key, gap)
  {
    forall i | 0 <= i < |reqs|
      ensures reqs[i] == if i < |byStore| then Request(key, now, false) else Request(key, now + gap, true)
    {
      assert i < |byStore| ==> reqs[i] == byStore[i];
    }
  }

  /******* Both versions together *******/

  // Requests for the key that different versions answer are at least g seconds apart.
  ghost predicate Apart(reqs: seq<Request>, key: Key, g: real) {
    forall i, j :: 0 <= i < j < |reqs| && reqs[i].key == key == reqs[j].key && reqs[i].storeFails != reqs[j].storeFails
      ==> reqs[i].now + g <= reqs[j].now
  }

  // The clock readings that the two versions admitted, each on its own clock.
  datatype Admissions = Admissions(byStore: seq<real>, byDeque: seq<real>)

  function Admitted(reqs: seq<Request>, c: Config, key: Key): Admissions {
    Admissions(Accepted(reqs, c, key, false), Accepted(reqs, c, key, true))
  }

  // What both versions admitted in one window on the wall clock.
  function Total(a: Admissions, skew: real, start: real, w: real): nat {
    CountIn(a.byStore, start, start + w) + CountIn(a.byDeque, start - skew, start - skew + w)
  }

  lemma BurstsCount(limit: nat, skew: real, now: real, gap: real, w: real)
    requires 0.0 <= gap < w
    ensures Total(Admissions(Copies(now, limit), Copies(now + gap - skew, limit)), skew, now, w) == 2 * limit
  {
    CopiesCount(now, limit, now, now + w);
    CopiesCount(now + gap - skew, limit, now - skew, now - skew + w);
  }

  /** Twice the limit is reached for every limit, window and skew of the clocks: `limit` requests
      admitted by the store and, at the same instant, `limit` by the deques while the store fails. */
  lemma TwiceTheLimitIsReached(c: Config, key: Key, now: real) returns (reqs: seq<Request>)
    requires 1 <= c.limit && 0.0 < c.window
    ensures NonDecreasing(reqs)
    ensures Total(Admitted(reqs, c, key), c.skew, now, c.window) == 2 * c.limit
  {
    reqs := TwoBursts(c, key, now, 0.0);
    BurstsCount(c.limit, c.skew, now, 0.0, c.window);
  }

  lemma {:induction false} CountWider(times: seq<real>, lo: real, hi: real, wider: real)
    requires hi <= wider
    ensures CountIn(times, lo, hi) <= CountIn(times, lo, wider)
  {
    if times != [] {
      CountWider(times[..|times| - 1], lo, hi, wider);
    }
  }

  ghost predicate Requested(reqs: seq<Request>, c: Config, key: Key, byDeque: bool, lo: real, hi: real) {
    exists i :: 0 <= i < |reqs| && reqs[i].key == key && reqs[i].storeFails == byDeque
                && lo <= ClockOf(reqs[i].now, c, byDeque) < hi
  }

  // A new admission in a window is a request in that window.
  lemma CountedNow(accepted: seq<real>, l: Limiter, r: Request, c: Config, key: Key, byDeque: bool, lo: real, hi: real)
    requires CountIn(accepted, lo, hi) == 0 < CountIn(accepted + AcceptedNow(l, r, c, key, byDeque), lo, hi)
    ensures r.key == key && r.storeFails == byDeque && lo <= ClockOf(r.now, c, byDeque) < hi
  {
    assert accepted + [] == accepted;
    CountAppend(accepted, ClockOf(r.now, c, byDeque), lo, hi);
  }

  // Requested only grows.
  lemma StillRequested(init: seq<Request>, r: Request, c: Config, key: Key, byDeque: bool, lo: real, hi: real)
    requires Requested(init, c, key, byDeque, lo, hi)
             || (r.key == key && r.storeFails == byDeque && lo <= ClockOf(r.now, c, byDeque) < hi)
    ensures Requested(init + [r], c, key, byDeque, lo, hi)
  {
    if Requested(init, c, key, byDeque, lo, hi) {
      var i :| 0 <= i < |init| && init[i].key == key && init[i].storeFails == byDeque
               && lo <= ClockOf(init[i].now, c, byDeque) < hi;
      assert (init + [r])[i] == init[i];
    } else {
      assert (init + [r])[|init|] == r;
    }
  }

  lemma {:induction false} CountedRequest(reqs: seq<Request>, c: Config, key: Key, byDeque: bool, lo: real, hi: real)
    requires 0 < CountIn(Accepted(reqs, c, key, byDeque), lo, hi)
    ensures Requested(reqs, c, key, byDeque, lo, hi)
    decreases |reqs|
  {
    var init, r := reqs[..|reqs| - 1], reqs[|reqs| - 1];
    var accepted := Accepted(init, c, key, byDeque);
    assert reqs == init + [r];
    if 0 < CountIn(accepted, lo, hi) {
      CountedRequest(init, c, key, byDeque, lo, hi);
    } else {
      CountedNow(accepted, After(init, c), r, c, key, byDeque, lo, hi);
    }
    StillRequested(init, r, c, key, byDeque, lo, hi);
  }

  // Admissions that come from requests, no more than the limit in any window.
  ghost predicate Orderly(reqs: seq<Request>, c: Config, key: Key, byDeque: bool, accepted: seq<real>) {
    && (forall lo, hi :: 0 < CountIn(accepted, lo, hi) ==> Requested(reqs, c, key, byDeque, lo, hi))
    && (forall lo, hi :: hi <= lo + c.window ==> CountIn(accepted, lo, hi) <= c.limit)
  }

  lemma RunIsOrderly(reqs: seq<Request>, c: Config, key: Key, byDeque: bool)
    requires 1 <= c.limit && NonDecreasing(reqs)
    ensures Orderly(reqs, c, key, byDeque, Accepted(reqs, c, key, byDeque))
  {
    var accepted := Accepted(reqs, c, key, byDeque);
    forall lo, hi | 0 < CountIn(accepted, lo, hi)
      ensures Requested(reqs, c, key, byDeque, lo, hi)
    {
      CountedRequest(reqs, c, key, byDeque, lo, hi);
    }
    RunSpaced(reqs, c, key, byDeque);
    SpacedWithin(accepted, c.limit, c.window);
  }

  lemma SpacedWithin(accepted: seq<real>, limit: int, window: real)
    requires 1 <= limit && Sorted(accepted) && Spaced(accepted, limit, window)
    ensures forall lo, hi :: hi <= lo + window ==> CountIn(accepted, lo, hi) <= limit
  {
    forall lo, hi | hi <= lo + window
      ensures CountIn(accepted, lo, hi) <= limit
    {
      SpacedBoundsWindow(accepted, limit, window, lo);
      CountWider(accepted, lo, hi, lo + window);
    }
  }

  lemma NotBothRequested(reqs: seq<Request>, c: Config, key: Key, start: real, w: real)
    requires Apart(reqs, key, w)
    ensures !Requested(reqs, c, key, false, start, start + w)
            || !Requested(reqs, c, key, true, start - c.skew, start - c.skew + w)
  {
    forall i, j | 0 <= i < |reqs| && 0 <= j < |reqs| && reqs[i].key == key == reqs[j].key
                  && !reqs[i].storeFails && reqs[j].storeFails && start <= ClockOf(reqs[i].now, c, false) < start + w
      ensures !(start - c.skew <= ClockOf(reqs[j].now, c, true) < start - c.skew + w)
    {
      assert i < j || j < i;
    }
  }

  // In runs with answers that far apart only one version has admissions in a window.
  lemma OrderlyTotal(reqs: seq<Request>, c: Config, key: Key, a: Admissions, start: real, w: real)
    requires 1 <= c.limit && w <= c.window && Apart(reqs, key, w)
    requires Orderly(reqs, c, key, false, a.byStore) && Orderly(reqs, c, key, true, a.byDeque)
    ensures Total(a, c.skew, start, w) <= c.limit
  {
    NotBothRequested(reqs, c, key, start, w);
  }

  lemma ApartBound(reqs: seq<Request>, c: Config, key: Key, start: real, w: real)
    requires 1 <= c.limit && w <= c.window && NonDecreasing(reqs) && Apart(reqs, key, w)
    ensures Total(Admitted(reqs, c, key), c.skew, start, w) <= c.limit
  {
    RunIsOrderly(reqs, c, key, false);
    RunIsOrderly(reqs, c, key, true);
    OrderlyTotal(reqs, c, key, Admitted(reqs, c, key), start, w);
  }

  ghost predicate TogetherWithin(c: Config, g: real, w: real) {
    forall reqs, key, start :: NonDecreasing(reqs) && Apart(reqs, key, g)
                               ==> Total(Admitted(reqs, c, key), c.skew, start, w) <= c.limit
  }

  /** When both versions together keep the limit, for every limit, window and skew: over all runs
      in which answers of different versions are at least g seconds apart, exactly the windows of
      length up to g hold at most `limit` requests in total. */
  lemma TogetherIffApart(c: Config, g: real, w: real)
    requires 1 <= c.limit && 0.0 < w <= c.window
    ensures TogetherWithin(c, g, w) <==> w <= g
  {
    if w <= g {
      forall reqs, key, start | NonDecreasing(reqs) && Apart(reqs, key, g)
        ensures Total(Admitted(reqs, c, key), c.skew, start, w) <= c.limit
      {
        assert Apart(reqs, key, w);
        ApartBound(reqs, c, key, start, w);
      }
    } else {
      var gap := if g < 0.0 then 0.0 else g;
      var reqs := TwoBursts(c, Key("", ""), 0.0, gap);
      BurstsCount(c.limit, c.skew, 0.0, gap, w);
      assert Apart(reqs, Key("", ""), g);
    }
  }

  /******* One version under disorder, exactly *******/

  // With a limit of 1 a bucket holds the last admission, whatever the clock reads.
  ghost predicate LastOnly(accepted: seq<real>, times: seq<real>, window: real) {
    && times == (if accepted == [] then [] else [accepted[|accepted| - 1]])
    && Sorted(accepted) && Spaced(accepted, 1, window)
  }

  lemma OwnLast(accepted: seq<real>, times: seq<real>, clock: real, window: real, byDeque: bool)
    requires 0.0 < window && LastOnly(accepted, times, window)
    ensures var left := Left(times, clock - window, byDeque);
            if |left| < 1 then LastOnly(accepted + [clock], left + [clock], window)
            else LastOnly(accepted, left, window)
  {
    if accepted != [] {
      OneLeft(accepted[|accepted| - 1], clock - window, byDeque);
    }
    assert [] + [clock] == [clock];
  }

  lemma ServeLast(l: Limiter, r: Request, c: Config, key: Key, byDeque: bool, accepted: seq<real>)
    requires c.limit == 1 && 0.0 < c.window && LastOnly(accepted, Remembered(l, key, byDeque), c.window)
    ensures LastOnly(accepted + AcceptedNow(l, r, c, key, byDeque),
                     Remembered(Serve(l, r, c).1, key, byDeque), c.window)
  {
    assert accepted + [] == accepted;
    if key != r.key || byDeque != r.storeFails {
      OthersUnaffected(l, r, c, key, byDeque);
    } else {
      ServeOwn(l, r, c);
      OwnLast(accepted, Remembered(l, key, byDeque), ClockOf(r.now, c, byDeque), c.window, byDeque);
    }
  }

  lemma {:induction false} RunLast(reqs: seq<Request>, c: Config, key: Key, byDeque: bool)
    requires c.limit == 1 && 0.0 < c.window
    ensures LastOnly(Accepted(reqs, c, key, byDeque), Remembered(After(reqs, c), key, byDeque), c.window)
    decreases |reqs|
  {
    if reqs != [] {
      var init, r := reqs[..|reqs| - 1], reqs[|reqs| - 1];
      RunLast(init, c, key, byDeque);
      ServeLast(After(init, c), r, c, key, byDeque, Accepted(init, c, key, byDeque));
    }
  }

  lemma LimitOneBound(reqs: seq<Request>, c: Config, key: Key, byDeque: bool, start: real, w: real)
    requires c.limit == 1 && 0.0 < c.window && w <= c.window
    ensures CountIn(Accepted(reqs, c, key, byDeque), start, start + w) <= 1
  {
    var accepted := Accepted(reqs, c, key, byDeque);
    RunLast(reqs, c, key, byDeque);
    SpacedWithin(accepted, 1, c.window);
  }

  // `limit` requests at 0, and one at `peak` for which they have expired.
  lemma BurstThenPeak(c: Config, key: Key, byDeque: bool, peak: real) returns (reqs: seq<Request>)
    requires 1 <= c.limit && 0.0 < c.window <= peak
    ensures |reqs| == c.limit + 1 && forall i :: 0 <= i < c.limit ==> reqs[i] == At(key, 0.0, c, byDeque)
    ensures reqs[c.limit] == At(key, peak, c, byDeque)
    ensures Reached(reqs, c, key, byDeque, [peak], Copies(0.0, c.limit) + [peak])
  {
    var zeros := Fill([], c, key, byDeque, 0.0, c.limit, []);
    PeakForgets(zeros, c, key, byDeque, peak);
    reqs := zeros + [At(key, peak, c, byDeque)];
  }

  lemma PeakForgets(zeros: seq<Request>, c: Config, key: Key, byDeque: bool, peak: real)
    requires 1 <= c.limit && 0.0 < c.window <= peak
    requires Reached(zeros, c, key, byDeque, Copies(0.0, c.limit), Copies(0.0, c.limit))
    ensures Reached(zeros + [At(key, peak, c, byDeque)], c, key, byDeque, [peak], Copies(0.0, c.limit) + [peak])
  {
    CopiesExpire(c.limit, peak - c.window, byDeque);
    Next(zeros, c, key, byDeque, peak, Copies(0.0, c.limit), Copies(0.0, c.limit));
    assert [] + [peak] == [peak];
  }

  lemma CopiesExpire(n: nat, cutoff: real, byDeque: bool)
    requires 0.0 <= cutoff
    ensures Left(Copies(0.0, n), cutoff, byDeque) == []
  {
    CopiesAre(0.0, n);
    AllExpire(Copies(0.0, n), cutoff, byDeque);
  }

  lemma {:induction false} AllExpire(times: seq<real>, cutoff: real, byDeque: bool)
    requires forall i :: 0 <= i < |times| ==> times[i] <= cutoff
    ensures Left(times, cutoff, byDeque) == []
  {
    if times != [] {
      AllExpire(times[1..], cutoff, byDeque);
    }
  }

  lemma OneLeft(t: real, cutoff: real, byDeque: bool)
    ensures Left([t], cutoff, byDeque) == if t <= cutoff then [] else [t]
  {
    var none: seq<real> := [t][1..];
    assert none == [];
    assert Live(none, cutoff) == [] && DropFront(none, cutoff) == [];
  }

  // With room for two, a reading below the peak is admitted beside it.
  lemma ForgetfulRun(c: Config, key: Key, byDeque: bool, peak: real, late: real) returns (reqs: seq<Request>)
    requires 2 <= c.limit && 0.0 < c.window <= peak
    ensures |reqs| == c.limit + 2 && forall i :: 0 <= i < c.limit ==> reqs[i] == At(key, 0.0, c, byDeque)
    ensures reqs[c.limit] == At(key, peak, c, byDeque) && reqs[c.limit + 1] == At(key, late, c, byDeque)
    ensures Accepted(reqs, c, key, byDeque) == Copies(0.0, c.limit) + [peak] + [late]
  {
    var before := BurstThenPeak(c, key, byDeque, peak);
    OneLeft(peak, late - c.window, byDeque);
    Next(before, c, key, byDeque, late, [peak], Copies(0.0, c.limit) + [peak]);
    reqs := before + [At(key, late, c, byDeque)];
  }

  ghost predicate Within(accepted: seq<real>, limit: int, start: real, w: real) {
    CountIn(accepted, start, start + w) <= limit
  }

  lemma CountBurst(n: nat, peak: real, late: real, w: real)
    requires 0.0 <= late < w
    ensures !Within(Copies(0.0, n) + [peak] + [late], n, 0.0, w)
  {
    CopiesCount(0.0, n, 0.0, w);
    CountAppend(Copies(0.0, n), peak, 0.0, w);
    CountAppend(Copies(0.0, n) + [peak], late, 0.0, w);
    assert 0.0 + w == w;
  }

  /** One version's promise, for one configuration, on windows of length w under disorder d: no
      run and no key ever sees more than the limit admitted in one of them. */
  ghost predicate Bounds(c: Config, byDeque: bool, d: real, w: real) {
    forall reqs, key, start :: Disorder(reqs, d) ==> Within(Accepted(reqs, c, key, byDeque), c.limit, start, w)
  }

  // The longest window the promise covers.
  function Covered(c: Config, d: real): real { if c.limit == 1 then c.window else c.window - d }

  /** The bound under disorder, exactly, for every configuration and for the SQL transaction and
      the deque loop alike: when readings run backwards by at most d, it holds for the windows of
      length up to `window - d` and for no longer ones; with a limit of 1, up to the whole window. */
  lemma BoundIffCovered(c: Config, byDeque: bool, d: real, w: real)
    requires 1 <= c.limit && 0.0 < c.window && 0.0 <= d && 0.0 < w
    ensures Bounds(c, byDeque, d, w) <==> w <= Covered(c, d)
  {
    if w <= Covered(c, d) {
      forall reqs, key, start | Disorder(reqs, d)
        ensures Within(Accepted(reqs, c, key, byDeque), c.limit, start, w)
      {
        if c.limit == 1 {
          LimitOneBound(reqs, c, key, byDeque, start, w);
        } else {
          DisorderlyBound(reqs, c, key, byDeque, d, start, w);
        }
      }
    } else {
      var reqs := Overfull(c, byDeque, d, w);
      assert !Within(Accepted(reqs, c, Key("", ""), byDeque), c.limit, 0.0, w);
    }
  }

  lemma Overfull(c: Config, byDeque: bool, d: real, w: real) returns (reqs: seq<Request>)
    requires 1 <= c.limit && 0.0 < c.window && 0.0 <= d && 0.0 < w && Covered(c, d) < w
    ensures Disorder(reqs, d) && !Within(Accepted(reqs, c, Key("", ""), byDeque), c.limit, 0.0, w)
  {
    if c.limit == 1 {
      CountPair(c.window, w);
      reqs := BurstThenPeak(c, Key("", ""), byDeque, c.window);
    } else {
      var late := if d <= c.window then c.window - d else 0.0;
      CountBurst(c.limit, c.window, late, w);
      reqs := ForgetfulRun(c, Key("", ""), byDeque, c.window, late);
      DropsBy(reqs, c, byDeque, late, d);
    }
  }

  lemma DropsBy(reqs: seq<Request>, c: Config, byDeque: bool, late: real, d: real)
    requires 1 <= c.limit && |reqs| == c.limit + 2 && 0.0 <= late <= c.window && 0.0 <= d && c.window - d <= late
    requires forall i :: 0 <= i < c.limit ==> reqs[i] == At(Key("", ""), 0.0, c, byDeque)
    requires reqs[c.limit] == At(Key("", ""), c.window, c, byDeque)
    requires reqs[c.limit + 1] == At(Key("", ""), late, c, byDeque)
    ensures Disorder(reqs, d)
  {
  }

  lemma CountPair(window: real, w: real)
    requires 0.0 < window < w
    ensures !Within(Copies(0.0, 1) + [window], 1, 0.0, w)
  {
    CopiesCount(0.0, 1, 0.0, w);
    CountAppend(Copies(0.0, 1), window, 0.0, w);
    assert 0.0 + w == w;
  }

  /** An instance: with a window of ten seconds and limit 2, readings of 0, 0, 20 and then 5 put
      three admissions into one window, since the reading of 20 has forgotten the first two. */
  lemma FifteenSecondsBack(key: Key, byDeque: bool) returns (reqs: seq<Request>)
    ensures Disorder(reqs, 15.0)
    ensures !Within(Accepted(reqs, Config(2, 10.0, 0.0), key, byDeque), 2, 0.0, 10.0)
  {
    reqs := ForgetfulRun(Config(2, 10.0, 0.0), key, byDeque, 20.0, 5.0);
    CountBurst(2, 20.0, 5.0, 10.0);
  }
}
