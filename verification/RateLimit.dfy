/** The web server's counter of failed attempts per address, and the log of failures it stands for. */
module RateLimit {

  type Address = string

  /** Times in nanoseconds of a clock that never goes back. */
  type Time = nat

  const MAX_FAILED_ATTEMPTS: nat := 5
  const RATE_LIMIT_WINDOW: nat := 60_000_000_000
  const BLOCK_DURATION: nat := 300_000_000_000

  datatype Count = Count(count: nat, lastFail: Time)

  datatype Failure = Failure(address: Address, at: Time)

  // ----- What the log says -----

  /** The times of one address's failures, oldest first. */
  function TimesOf(log: seq<Failure>, a: Address): seq<Time> {
    if log == [] then []
    else
      var last := log[|log| - 1];
      TimesOf(log[..|log| - 1], a) + if last.address == a then [last.at] else []
  }

  /** Failures from the `k`-th on follow each other within the window. */
  predicate CloseFrom(times: seq<Time>, k: nat) {
    forall i :: k < i < |times| ==> times[i] <= times[i - 1] + RATE_LIMIT_WINDOW
  }

  /** The length of the last run of failures that follow each other within the window. */
  function Streak(times: seq<Time>): (n: nat)
    ensures n <= |times|
    ensures n == 0 <==> times == []
  {
    var last := |times| - 1;
    if last < 0 then 0
    else if last == 0 || times[last] > times[last - 1] + RATE_LIMIT_WINDOW then 1
    else Streak(times[..last]) + 1
  }

  /** It is the longest such suffix. */
  lemma {:induction false} StreakIsLongest(times: seq<Time>, k: nat)
    requires k < |times|
    ensures CloseFrom(times, k) <==> |times| - k <= Streak(times)
  {
    var last := |times| - 1;
    if k < last {
      StreakIsLongest(times[..last], k);
      assert CloseFrom(times, k) ==> CloseFrom(times[..last], k);
    }
  }

  /** The address failed too often in a row, and not long ago. */
  predicate Blocked(times: seq<Time>, now: Time) {
    Streak(times) >= MAX_FAILED_ATTEMPTS && now < times[|times| - 1] + BLOCK_DURATION
  }

  // ----- The counter -----

  /** The entry of one address, if there is one, agrees with its failures; it may be dropped only when the block is over. */
  ghost predicate Agrees(entry: map<Address, Count>, a: Address, times: seq<Time>, now: Time) {
    if a in entry then
      times != [] && entry[a] == Count(Streak(times), times[|times| - 1])
    else
      times == [] || now >= times[|times| - 1] + BLOCK_DURATION
  }

  lemma StreakGrows(times: seq<Time>, at: Time)
    ensures Streak(times + [at])
         == if times == [] || at > times[|times| - 1] + RATE_LIMIT_WINDOW then 1 else Streak(times) + 1
  {
    assert (times + [at])[..|times|] == times;
  }

  /** The new entry is the streak of the log with the new failure. */
  lemma RecordingAgrees(failed: map<Address, Count>, log: seq<Failure>, now: Time, a: Address, at: Time, entry: Count)
    requires (forall b :: Agrees(failed, b, TimesOf(log, b), now)) && (forall f <- log :: f.at <= now) && now <= at
    requires if a in failed && at <= failed[a].lastFail + RATE_LIMIT_WINDOW then entry == Count(failed[a].count + 1, at)
             else entry == Count(1, at)
    ensures forall b :: Agrees(failed[a := entry], b, TimesOf(log + [Failure(a, at)], b), at)
  {
    var log' := log + [Failure(a, at)];
    assert log'[..|log|] == log;
    forall b ensures Agrees(failed[a := entry], b, TimesOf(log', b), at) {
      var times := TimesOf(log, b);
      assert Agrees(failed, b, times, now);
      StreakGrows(times, at);
      if b == a {
        assert TimesOf(log', b) == times + [at];
      } else {
        assert TimesOf(log', b) == times;
      }
    }
  }

  lemma {:induction false} TimesAreLogged(log: seq<Failure>, a: Address, now: Time)
    requires forall f <- log :: f.at <= now
    ensures forall t <- TimesOf(log, a) :: t <= now
  {
    if log != [] {
      TimesAreLogged(log[..|log| - 1], a, now);
      assert log[|log| - 1] in log;
    }
  }

  lemma LaterStillAgrees(failed: map<Address, Count>, log: seq<Failure>, now: Time, later: Time)
    requires (forall a :: Agrees(failed, a, TimesOf(log, a), now)) && now <= later
    requires forall f <- log :: f.at <= now
    ensures forall a :: Agrees(failed, a, TimesOf(log, a), later)
    ensures forall a :: a in failed ==> failed[a].lastFail <= now
  {
    forall a ensures Agrees(failed, a, TimesOf(log, a), later) && (a in failed ==> failed[a].lastFail <= now) {
      assert Agrees(failed, a, TimesOf(log, a), now);
      TimesAreLogged(log, a, now);
      var times := TimesOf(log, a);
      assert times != [] ==> times[|times| - 1] in times;
    }
  }

  class FailureCounter {
    var failed: map<Address, Count>
    ghost var log: seq<Failure>
    ghost var now: Time

    ghost predicate Valid()
      reads this
    {
      && (forall f <- log :: f.at <= now)
      && (forall a :: Agrees(failed, a, TimesOf(log, a), now))
    }

    constructor ()
      ensures Valid() && log == [] && now == 0
    {
      failed, log, now := map[], [], 0;
    }

    /** The check at the start of a connection: refused exactly while the log says so. */
    method Admit(a: Address, at: Time) returns (ok: bool)
      requires Valid() && now <= at
      modifies this
      ensures Valid() && log == old(log) && now == at
      ensures ok <==> !Blocked(TimesOf(log, a), at)
    {
      assert Agrees(failed, a, TimesOf(log, a), now);
      LaterStillAgrees(failed, log, now, at);
      now := at;
      ok := true;
      if a in failed && failed[a].count >= MAX_FAILED_ATTEMPTS {
        if at - failed[a].lastFail < BLOCK_DURATION {
          ok := false;
        } else {
          ghost var before := failed;
          failed := failed - {a};
          forall b ensures Agrees(failed, b, TimesOf(log, b), now) {
            assert Agrees(before, b, TimesOf(log, b), now);
          }
        }
      }
    }

    /** Recording a failure keeps the counter in step with the log. */
    method RecordFailure(a: Address, at: Time)
      requires Valid() && now <= at
      modifies this
      ensures Valid() && log == old(log) + [Failure(a, at)] && now == at
    {
      LaterStillAgrees(failed, log, now, at);
      var entry := if a in failed then failed[a] else Count(0, at);
      if at - entry.lastFail > RATE_LIMIT_WINDOW {
        entry := Count(1, at);
      } else {
        entry := Count(entry.count + 1, at);
      }
      RecordingAgrees(failed, log, now, a, at, entry);
      failed := failed[a := entry];
      log := log + [Failure(a, at)];
      now := at;
    }
  }

  // ----- Overlapping connections -----

  /** Connections open, fail or leave at any time and in any interleaving; `Pass` lets time go by. */
  datatype Event = Open(address: Address) | Fail(address: Address) | Leave(address: Address) | Pass(time: nat)

  /** The failures so far, the connections that were let in and are not over, and the time. */
  datatype Server = Server(log: seq<Failure>, connections: multiset<Address>, now: Time)

  function Step(s: Server, e: Event): Server {
    match e
    case Open(a) => if Blocked(TimesOf(s.log, a), s.now) then s else s.(connections := s.connections + multiset{a})
    case Fail(a) =>
      if a !in s.connections then s
      else s.(log := s.log + [Failure(a, s.now)], connections := s.connections - multiset{a})
    case Leave(a) => s.(connections := s.connections - multiset{a})
    case Pass(time) => s.(now := s.now + time)
  }

  function Execute(events: seq<Event>): Server {
    if events == [] then Server([], multiset{}, 0) else Step(Execute(events[..|events| - 1]), events[|events| - 1])
  }

  /** At no time are more than `c` connections of the address open at once. */
  predicate OverlapWithin(events: seq<Event>, a: Address, c: nat) {
    Execute(events).connections[a] <= c && (events != [] ==> OverlapWithin(events[..|events| - 1], a, c))
  }

  /** The server's counter, driven by the events, leaves exactly that log. */
  method Serve(events: seq<Event>, counter: FailureCounter)
    requires counter.Valid() && counter.log == [] && counter.now == 0
    modifies counter
    ensures counter.Valid() && counter.log == Execute(events).log
  {
    var connections, now: Time := multiset{}, 0;
    for i := 0 to |events|
      invariant counter.Valid() && counter.now <= now && Execute(events[..i]) == Server(counter.log, connections, now)
    {
      assert events[..i + 1][..i] == events[..i];
      match events[i] {
        case Open(a) =>
          var ok := counter.Admit(a, now);
          if ok {
            connections := connections + multiset{a};
          }
        case Fail(a) =>
          if a in connections {
            counter.RecordFailure(a, now);
            connections := connections - multiset{a};
          }
        case Leave(a) => connections := connections - multiset{a};
        case Pass(time) => now := now + time;
      }
    }
    assert events[..|events|] == events;
  }

  /** No streak was ever longer than the bound. */
  predicate ShortStreaks(times: seq<Time>, bound: nat) {
    forall n :: 0 <= n <= |times| ==> Streak(times[..n]) <= bound
  }

  lemma OneMoreFailure(times: seq<Time>, at: Time, bound: nat)
    requires ShortStreaks(times, bound) && Streak(times + [at]) <= bound
    ensures ShortStreaks(times + [at], bound)
  {
    forall n | 0 <= n <= |times + [at]| ensures Streak((times + [at])[..n]) <= bound {
      if n <= |times| {
        assert (times + [at])[..n] == times[..n];
      } else {
        assert (times + [at])[..n] == times + [at];
      }
    }
  }

  lemma TimesOfSnoc(log: seq<Failure>, f: Failure, a: Address)
    ensures TimesOf(log + [f], a) == if f.address == a then TimesOf(log, a) + [f.at] else TimesOf(log, a)
  {
    assert (log + [f])[..|log|] == log;
  }

  /** Once an address is blocked, only the connections that are already open can lengthen its streak. */
  predicate Contained(s: Server, a: Address, c: nat) {
    var times := TimesOf(s.log, a);
    && (forall t <- times :: t <= s.now)
    && ShortStreaks(times, 4 + c)
    && (Blocked(times, s.now) ==> Streak(times) + s.connections[a] <= 4 + c)
  }

  lemma StepStaysContained(s: Server, e: Event, a: Address, c: nat)
    requires Contained(s, a, c) && s.connections[a] <= c
    ensures Contained(Step(s, e), a, c)
  {
    var times := TimesOf(s.log, a);
    assert times[..|times|] == times;
    if e.Fail? && e.address in s.connections {
      TimesOfSnoc(s.log, Failure(e.address, s.now), a);
      if e.address == a {
        assert times != [] ==> times[|times| - 1] in times;
        StreakGrows(times, s.now);
        OneMoreFailure(times, s.now, 4 + c);
      }
    }
  }

  lemma {:induction false} StreaksStayShort(events: seq<Event>, a: Address, c: nat)
    requires OverlapWithin(events, a, c)
    ensures Contained(Execute(events), a, c)
  {
    if events != [] {
      StreaksStayShort(events[..|events| - 1], a, c);
      StepStaysContained(Execute(events[..|events| - 1]), events[|events| - 1], a, c);
    }
  }

  /**
    * With at most `c` connections of an address open at once, any `c + 5` consecutive failures of it contain a gap over
    * the window.
    */
  lemma OverlapBoundsFailures(events: seq<Event>, a: Address, c: nat, k: nat)
    requires OverlapWithin(events, a, c) && k + c + 5 <= |TimesOf(Execute(events).log, a)|
    ensures var times := TimesOf(Execute(events).log, a);
            exists i :: k < i < k + c + 5 && times[i] > times[i - 1] + RATE_LIMIT_WINDOW
  {
    var times := TimesOf(Execute(events).log, a);
    StreaksStayShort(events, a, c);
    assert times[..|times|] == times;
    StreakIsLongest(times[..k + c + 5], k);
    assert !CloseFrom(times[..k + c + 5], k);
  }

  /** With requests one after the other, any six consecutive failures of an address contain a gap over the window. */
  lemma SixFailuresHaveAGap(events: seq<Event>, a: Address, k: nat)
    requires OverlapWithin(events, a, 1) && k + 6 <= |TimesOf(Execute(events).log, a)|
    ensures var times := TimesOf(Execute(events).log, a);
            exists i :: k < i < k + 6 && times[i] > times[i - 1] + RATE_LIMIT_WINDOW
  {
    OverlapBoundsFailures(events, a, 1, k);
  }

  // ----- The bound is reached -----

  /** A server at time zero whose address `a` has failed `fails` times and has `open` connections. */
  predicate AtZero(s: Server, a: Address, fails: nat, open: nat) {
    && s.now == 0 && s.connections[a] == open && |TimesOf(s.log, a)| == fails
    && Streak(TimesOf(s.log, a)) == fails && forall t <- TimesOf(s.log, a) :: t == 0
  }

  lemma OpenOne(events: seq<Event>, a: Address, fails: nat, open: nat, c: nat) returns (events': seq<Event>)
    requires OverlapWithin(events, a, c) && AtZero(Execute(events), a, fails, open) && fails < 5 && open < c
    ensures OverlapWithin(events', a, c) && AtZero(Execute(events'), a, fails, open + 1)
  {
    events' := events + [Open(a)];
    assert events'[..|events|] == events;
  }

  lemma FailOne(events: seq<Event>, a: Address, fails: nat, open: nat, c: nat) returns (events': seq<Event>)
    requires OverlapWithin(events, a, c) && AtZero(Execute(events), a, fails, open) && open > 0
    ensures OverlapWithin(events', a, c) && AtZero(Execute(events'), a, fails + 1, open - 1)
  {
    events' := events + [Fail(a)];
    assert events'[..|events|] == events;
    var s := Execute(events);
    TimesOfSnoc(s.log, Failure(a, 0), a);
    StreakGrows(TimesOf(s.log, a), 0);
  }

  /** Four connections one after the other, then `c` at once: all of them fail in one streak. */
  lemma OverlapIsReached(a: Address, c: nat) returns (events: seq<Event>)
    requires c >= 1
    ensures OverlapWithin(events, a, c) && Streak(TimesOf(Execute(events).log, a)) == c + 4
  {
    events := [];
    for i := 0 to 4
      invariant OverlapWithin(events, a, c) && AtZero(Execute(events), a, i, 0)
    {
      events := OpenOne(events, a, i, 0, c);
      events := FailOne(events, a, i, 1, c);
    }
    for i := 0 to c
      invariant OverlapWithin(events, a, c) && AtZero(Execute(events), a, 4, i)
    {
      events := OpenOne(events, a, 4, i, c);
    }
    for i := 0 to c
      invariant OverlapWithin(events, a, c) && AtZero(Execute(events), a, 4 + i, c - i)
    {
      events := FailOne(events, a, 4 + i, c - i, c);
    }
  }

  /** The longest streak that overlapping makes possible, exactly: four more than the connections open at once. */
  lemma LongestStreak(a: Address, c: nat)
    requires c >= 1
    ensures forall events | OverlapWithin(events, a, c) :: Streak(TimesOf(Execute(events).log, a)) <= c + 4
    ensures exists events :: OverlapWithin(events, a, c) && Streak(TimesOf(Execute(events).log, a)) == c + 4
  {
    forall events | OverlapWithin(events, a, c) ensures Streak(TimesOf(Execute(events).log, a)) <= c + 4 {
      StreaksStayShort(events, a, c);
      var times := TimesOf(Execute(events).log, a);
      assert times[..|times|] == times;
    }
    var events := OverlapIsReached(a, c);
  }

  /** In every run with at most `c` connections of the address open at once, its streak stays within the limit of five. */
  ghost predicate LimitHolds(a: Address, c: nat) {
    forall events | OverlapWithin(events, a, c) :: Streak(TimesOf(Execute(events).log, a)) <= MAX_FAILED_ATTEMPTS
  }

  /** That is so exactly if connections do not overlap. */
  lemma LimitHoldsIff(a: Address, c: nat)
    requires c >= 1
    ensures LimitHolds(a, c) <==> c == 1
  {
    LongestStreak(a, c);
  }
}
