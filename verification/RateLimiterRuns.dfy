/** What the limiter admits over whole runs of checks, calls and statistics reads. */
module RateLimiterRuns {
  import opened RateLimiter

  /** A `Call` is a check followed at once by a consume when it is allowed; a `Check` is not followed by one. */
  datatype Kind = Check | Call | Stats

  datatype Event = Event(time: int, kind: Kind)

  function Admits(b: Bucket, e: Event): bool {
    e.kind.Call? && Judge(Checked(b, e.time), e.time).Allowed?
  }

  function Step(b: Bucket, e: Event): Bucket {
    match e.kind
    case Stats => Refill(b, e.time)
    case Check => Checked(b, e.time)
    case Call => if Admits(b, e) then Consumed(Checked(b, e.time)) else Checked(b, e.time)
  }

  function Run(b: Bucket, events: seq<Event>): Bucket {
    if events == [] then b else Step(Run(b, events[..|events| - 1]), events[|events| - 1])
  }

  /** The calls admitted at times between `from` and `to`, both included. */
  function Admitted(b: Bucket, events: seq<Event>, from: int, to: int): nat {
    if events == [] then 0
    else
      var before, e := events[..|events| - 1], events[|events| - 1];
      Admitted(b, before, from, to) + if Admits(Run(b, before), e) && from <= e.time <= to then 1 else 0
  }

  ghost predicate Ordered(start: int, events: seq<Event>) {
    && (forall i :: 0 <= i < |events| ==> start <= events[i].time)
    && (forall i, j :: 0 <= i < j < |events| ==> events[i].time <= events[j].time)
  }

  lemma EventAppended(b: Bucket, events: seq<Event>, e: Event, from: int, to: int)
    ensures Run(b, events + [e]) == Step(Run(b, events), e)
    ensures Admitted(b, events + [e], from, to)
            == Admitted(b, events, from, to) + if Admits(Run(b, events), e) && from <= e.time <= to then 1 else 0
    ensures Ordered(b.lastRefill, events) && b.lastRefill <= e.time
            && (forall k :: 0 <= k < |events| ==> events[k].time <= e.time)
            ==> Ordered(b.lastRefill, events + [e])
  {
    assert (events + [e])[..|events|] == events;
  }

  /** The limits of a bucket never change, and its clock is that of the last event. */
  lemma {:induction false} RunClock(b: Bucket, events: seq<Event>)
    requires Ordered(b.lastRefill, events)
    ensures var c := Run(b, events);
            && c.maxTokens == b.maxTokens && c.maxPerMinute == b.maxPerMinute && c.maxPerHour == b.maxPerHour
            && c.lastRefill == if events == [] then b.lastRefill else events[|events| - 1].time
  {
    if events != [] {
      RunClock(b, events[..|events| - 1]);
    }
  }

  lemma LaterThanRun(b: Bucket, events: seq<Event>)
    requires events != [] && Ordered(b.lastRefill, events)
    ensures Ordered(b.lastRefill, events[..|events| - 1])
    ensures Run(b, events[..|events| - 1]).lastRefill <= events[|events| - 1].time
  {
    RunClock(b, events[..|events| - 1]);
  }

  // ---- Tokens ----

  /** The tokens that time brings between two instants, before the cap. */
  function Earned(rate: real, from: int, to: int): real {
    (to - from) as real / 1000.0 * rate
  }

  lemma EarnedIsMonotone(rate: real, from: int, to: int)
    requires from <= to && rate >= 0.0
    ensures Earned(rate, from, to) >= 0.0
  {
    var x := (to - from) as real / 1000.0;
    assert x * rate >= 0.0;
  }

  lemma RefillGrows(b: Bucket, now: int)
    requires b.lastRefill <= now && b.tokens <= b.maxTokens
    ensures b.tokens <= Refill(b, now).tokens <= b.maxTokens
    ensures Refill(b, now).tokens <= b.tokens + Earned(b.RefillRate(), b.lastRefill, now)
  {
    EarnedIsMonotone(b.RefillRate(), b.lastRefill, now);
  }

  /** Tokens stay within the bucket, and an admitted call always finds a whole token to take. */
  lemma {:induction false} TokensInRange(b: Bucket, events: seq<Event>)
    requires 0.0 <= b.tokens <= b.maxTokens && Ordered(b.lastRefill, events)
    ensures 0.0 <= Run(b, events).tokens <= b.maxTokens
    ensures events != [] && Admits(Run(b, events[..|events| - 1]), events[|events| - 1]) ==>
              Run(b, events).tokens ==
                Refill(Run(b, events[..|events| - 1]), events[|events| - 1].time).tokens - 1.0
  {
    if events != [] {
      TokensInRange(b, events[..|events| - 1]);
      LaterThanRun(b, events);
      RunClock(b, events[..|events| - 1]);
      RefillGrows(Run(b, events[..|events| - 1]), events[|events| - 1].time);
    }
  }

  lemma EarnedAdds(rate: real, s: int, t: int, u: int)
    ensures Earned(rate, s, u) == Earned(rate, s, t) + Earned(rate, t, u)
  {
    var x, y := (t - s) as real / 1000.0, (u - t) as real / 1000.0;
    assert (u - s) as real / 1000.0 == x + y;
    assert (x + y) * rate == x * rate + y * rate;
  }

  /** `count` calls admitted in the interval so far, seen from the bucket they left. */
  ghost predicate Spent(c: Bucket, count: nat, from: int, to: int) {
    && 0.0 <= c.tokens <= c.maxTokens
    && count as real <= c.maxTokens + Earned(c.RefillRate(), from, to)
    && (c.lastRefill < from ==> count == 0)
    && (from <= c.lastRefill <= to ==>
        count as real + c.tokens <= c.maxTokens + Earned(c.RefillRate(), from, c.lastRefill))
  }

  lemma SpentInside(max: real, r: real, last: int, tokens: real, refilled: real, count: nat, from: int, t: int, to: int)
    requires r >= 0.0 && from <= t <= to && last <= t && 0.0 <= tokens <= refilled <= max
    requires refilled <= tokens + Earned(r, last, t)
    requires last < from ==> count == 0
    requires from <= last ==> count as real + tokens <= max + Earned(r, from, last)
    ensures count as real + refilled <= max + Earned(r, from, t)
    ensures Earned(r, from, t) <= Earned(r, from, to)
  {
    EarnedIsMonotone(r, from, t);
    EarnedAdds(r, from, t, to);
    EarnedIsMonotone(r, t, to);
    EarnedAdds(r, from, last, t);
  }

  lemma SpentStep(c: Bucket, e: Event, count: nat, from: int, to: int)
    requires Spent(c, count, from, to) && c.lastRefill <= e.time && from <= to
    ensures Spent(Step(c, e), count + if Admits(c, e) && from <= e.time <= to then 1 else 0, from, to)
  {
    var d, r := Step(c, e), c.RefillRate();
    assert d.RefillRate() == r && d.maxTokens == c.maxTokens && d.lastRefill == e.time;
    RefillGrows(c, e.time);
    var refilled := Refill(c, e.time).tokens;
    assert d.tokens == if Admits(c, e) then refilled - 1.0 else refilled;
    if from <= e.time <= to {
      SpentInside(c.maxTokens, r, c.lastRefill, c.tokens, refilled, count, from, e.time, to);
    }
  }

  lemma {:induction false} RunSpent(b: Bucket, events: seq<Event>, from: int, to: int)
    requires 0.0 <= b.tokens <= b.maxTokens && Ordered(b.lastRefill, events) && from <= to
    ensures Spent(Run(b, events), Admitted(b, events, from, to), from, to)
  {
    if events == [] {
      EarnedIsMonotone(b.RefillRate(), from, to);
      if from <= b.lastRefill {
        EarnedIsMonotone(b.RefillRate(), from, b.lastRefill);
      }
    } else {
      LaterThanRun(b, events);
      RunSpent(b, events[..|events| - 1], from, to);
      SpentStep(Run(b, events[..|events| - 1]), events[|events| - 1],
                Admitted(b, events[..|events| - 1], from, to), from, to);
    }
  }

  /** In any interval, no more calls are admitted than the burst and what the interval earns. */
  lemma BurstBound(b: Bucket, events: seq<Event>, from: int, to: int)
    requires 0.0 <= b.tokens <= b.maxTokens && Ordered(b.lastRefill, events) && from <= to
    ensures Admitted(b, events, from, to) as real <= b.maxTokens + Earned(b.RefillRate(), from, to)
  {
    RunSpent(b, events, from, to);
    RunClock(b, events);
    assert Run(b, events).RefillRate() == b.RefillRate();
  }

  // ---- Windows ----

  /** `count` calls of the interval of length `width` from `from`, seen from the window open since `start`. */
  ghost predicate WindowBound(count: nat, used: nat, start: int, max: nat, from: int, width: nat) {
    && used <= max
    && (start < from ==> count <= used)
    && (from <= start <= from + width ==> count <= max + used)
    && count <= 2 * max
  }

  /** The windows of a bucket against the calls admitted since `from`. */
  ghost predicate Windowed(c: Bucket, minute: nat, hour: nat, from: int) {
    && WindowBound(minute, c.minuteCount, c.minuteStart, c.maxPerMinute, from, MINUTE)
    && WindowBound(hour, c.hourCount, c.hourStart, c.maxPerHour, from, HOUR)
    && c.minuteStart <= c.lastRefill && c.hourStart <= c.lastRefill
    && (c.lastRefill < from ==> minute == hour == 0)
  }

  lemma WindowBoundStep(count: nat, used: nat, start: int, max: nat, from: int, width: nat, last: int, t: int,
                        admitted: bool)
    requires WindowBound(count, used, start, max, from, width) && start <= last <= t
    requires last < from ==> count == 0
    requires admitted ==> (if t - start > width then 0 < max else used < max)
    ensures var n := if admitted then 1 else 0;
            WindowBound(if from <= t <= from + width then count + n else count,
                        if t - start > width then n else used + n,
                        if t - start > width then t else start, max, from, width)
  {
  }

  lemma StepWindows(c: Bucket, e: Event)
    ensures var d := Step(c, e);
            var minuteOver := !e.kind.Stats? && e.time - c.minuteStart > MINUTE;
            var hourOver := !e.kind.Stats? && e.time - c.hourStart > HOUR;
            var n := if Admits(c, e) then 1 else 0;
            && d.minuteCount == (if minuteOver then n else c.minuteCount + n)
            && d.minuteStart == (if minuteOver then e.time else c.minuteStart)
            && d.hourCount == (if hourOver then n else c.hourCount + n)
            && d.hourStart == (if hourOver then e.time else c.hourStart)
            && d.maxPerMinute == c.maxPerMinute && d.maxPerHour == c.maxPerHour && d.lastRefill == e.time
            && (Admits(c, e) ==>
                  && (if minuteOver then 0 else c.minuteCount) < c.maxPerMinute
                  && (if hourOver then 0 else c.hourCount) < c.maxPerHour)
  {
  }

  lemma WindowedStep(c: Bucket, e: Event, minute: nat, hour: nat, from: int)
    requires Windowed(c, minute, hour, from) && c.lastRefill <= e.time
    ensures Windowed(Step(c, e),
                     minute + if Admits(c, e) && from <= e.time <= from + MINUTE then 1 else 0,
                     hour + if Admits(c, e) && from <= e.time <= from + HOUR then 1 else 0, from)
  {
    StepWindows(c, e);
    if !e.kind.Stats? {
      WindowBoundStep(minute, c.minuteCount, c.minuteStart, c.maxPerMinute, from, MINUTE, c.lastRefill, e.time,
                      Admits(c, e));
      WindowBoundStep(hour, c.hourCount, c.hourStart, c.maxPerHour, from, HOUR, c.lastRefill, e.time, Admits(c, e));
    }
  }

  /** Each window admits at most its maximum, and an interval no longer than a window meets at most two. */
  lemma {:induction false} RunWindowed(b: Bucket, events: seq<Event>, from: int)
    requires b.minuteCount == 0 && b.hourCount == 0 && b.minuteStart == b.hourStart == b.lastRefill
    requires Ordered(b.lastRefill, events)
    ensures Windowed(Run(b, events), Admitted(b, events, from, from + MINUTE),
                     Admitted(b, events, from, from + HOUR), from)
  {
    if events != [] {
      LaterThanRun(b, events);
      RunWindowed(b, events[..|events| - 1], from);
      WindowedStep(Run(b, events[..|events| - 1]), events[|events| - 1],
                   Admitted(b, events[..|events| - 1], from, from + MINUTE),
                   Admitted(b, events[..|events| - 1], from, from + HOUR), from);
    }
  }

  /** At most twice the minute limit in any minute, and at most twice the hour limit in any hour. */
  lemma AtMostTwicePerWindow(events: seq<Event>, maxPerMinute: nat, maxPerHour: nat, burst: real, now: int, from: int)
    requires Ordered(now, events)
    ensures var b := Configured(maxPerMinute, maxPerHour, burst, now);
            && Admitted(b, events, from, from + 60 * 1000) <= 2 * maxPerMinute
            && Admitted(b, events, from, from + 60 * 60 * 1000) <= 2 * maxPerHour
  {
    RunWindowed(Configured(maxPerMinute, maxPerHour, burst, now), events, from);
    RunClock(Configured(maxPerMinute, maxPerHour, burst, now), events);
  }

  /** While a window is not reset, the calls it admits are the ones it counts, and so within the plain limit. */
  lemma {:induction false} PlainLimitWithoutReset(b: Bucket, events: seq<Event>, from: int, to: int)
    requires Ordered(b.lastRefill, events)
    requires b.minuteStart <= b.lastRefill && b.hourStart <= b.lastRefill
    ensures var c := Run(b, events);
            && b.minuteStart <= c.minuteStart <= c.lastRefill && b.hourStart <= c.hourStart <= c.lastRefill
            && (c.minuteStart == b.minuteStart && b.minuteCount <= b.maxPerMinute ==>
                  b.minuteCount + Admitted(b, events, from, to) <= c.minuteCount <= b.maxPerMinute)
            && (c.hourStart == b.hourStart && b.hourCount <= b.maxPerHour ==>
                  b.hourCount + Admitted(b, events, from, to) <= c.hourCount <= b.maxPerHour)
  {
    if events != [] {
      var before, e := events[..|events| - 1], events[|events| - 1];
      LaterThanRun(b, events);
      PlainLimitWithoutReset(b, before, from, to);
      RunClock(b, before);
      StepWindows(Run(b, before), e);
    }
  }

  // ---- When the factor two is reached ----

  lemma {:induction false} AdmittedGrows(b: Bucket, events: seq<Event>, from: int, to: int, later: int)
    requires to <= later
    ensures Admitted(b, events, from, to) <= Admitted(b, events, from, later)
  {
    if events != [] {
      AdmittedGrows(b, events[..|events| - 1], from, to, later);
    }
  }

  function Calls(t: int, k: nat): seq<Event> {
    seq(k, _ => Event(t, Call))
  }

  function Used(c: Bucket, k: nat): Bucket {
    c.(tokens := c.tokens - k as real, minuteCount := c.minuteCount + k, hourCount := c.hourCount + k)
  }

  /** Brought up to date at `t`, with room for `k` more calls. */
  predicate HasRoom(c: Bucket, t: int, k: nat) {
    && c.lastRefill == t && t - c.minuteStart <= MINUTE && t - c.hourStart <= HOUR
    && k as real <= c.tokens <= c.maxTokens
    && c.minuteCount + k <= c.maxPerMinute && c.hourCount + k <= c.maxPerHour
  }

  lemma UpToDate(c: Bucket, t: int)
    requires HasRoom(c, t, 0)
    ensures Checked(c, t) == c
  {
  }

  lemma OneCall(s: Bucket, t: int)
    requires HasRoom(Checked(s, t), t, 1)
    ensures Admits(s, Event(t, Call)) && Step(s, Event(t, Call)) == Used(Checked(s, t), 1)
  {
  }

  lemma RoomLeft(c: Bucket, t: int, k: nat)
    requires HasRoom(c, t, k + 1)
    ensures HasRoom(c, t, k) && HasRoom(Used(c, k), t, 1) && Used(Used(c, k), 1) == Used(c, k + 1)
    ensures Checked(Used(c, k + 1), t) == Used(c, k + 1)
  {
    UpToDate(Used(c, k + 1), t);
  }

  lemma CallAppended(b: Bucket, events: seq<Event>, c: Bucket, t: int, from: int, to: int)
    requires c == Checked(Run(b, events), t) && HasRoom(c, t, 1) && from <= t <= to
    ensures Admitted(b, events + [Event(t, Call)], from, to) == Admitted(b, events, from, to) + 1
    ensures Run(b, events + [Event(t, Call)]) == Used(c, 1)
  {
    OneCall(Run(b, events), t);
    EventAppended(b, events, Event(t, Call), from, to);
  }

  lemma CallsAppended(events: seq<Event>, t: int, k: nat)
    requires k > 0
    ensures events + Calls(t, k) == events + Calls(t, k - 1) + [Event(t, Call)]
  {
  }

  /** As many calls at one time as there is room for are all admitted. */
  lemma {:induction false} CallsAdmitted(b: Bucket, events: seq<Event>, c: Bucket, t: int, k: nat, from: int, to: int)
    requires c == Checked(Run(b, events), t) && HasRoom(c, t, k) && from <= t <= to
    ensures Admitted(b, events + Calls(t, k), from, to) == Admitted(b, events, from, to) + k
    ensures Checked(Run(b, events + Calls(t, k)), t) == Used(c, k)
    ensures k > 0 ==> Run(b, events + Calls(t, k)) == Used(c, k)
  {
    if k == 0 {
      assert events + Calls(t, k) == events;
    } else {
      RoomLeft(c, t, k - 1);
      CallsAdmitted(b, events, c, t, k - 1, from, to);
      CallAppended(b, events + Calls(t, k - 1), Used(c, k - 1), t, from, to);
      CallsAppended(events, t, k);
    }
  }

  /** A check that opens a minute window, so that it ends with the hour; calls at its end, and after both are reset. */
  function Straddling(m: nat, d: int): seq<Event> {
    [Event(HOUR - MINUTE, Check)] + Calls(HOUR, m) + Calls(HOUR + d, m)
  }

  lemma StraddlingIsOrdered(m: nat, d: int)
    requires d >= 0
    ensures Ordered(0, Straddling(m, d))
  {
  }

  lemma AtTheEnd(m: nat, h: nat, burst: real)
    requires burst >= 0.0
    ensures var c := Run(Configured(m, h, burst, 0), [Event(HOUR - MINUTE, Check)]);
            && c == Bucket(burst, burst, m, h, HOUR - MINUTE, 0, 0, HOUR - MINUTE, 0)
            && Checked(c, HOUR) == c.(lastRefill := HOUR)
  {
    var b := Configured(m, h, burst, 0);
    assert [Event(HOUR - MINUTE, Check)][..0] == [];
    assert Run(b, []) == b;
    RefillGrows(b, HOUR - MINUTE);
    RefillGrows(b.(lastRefill := HOUR - MINUTE), HOUR);
  }

  /** The bucket after as many calls as the minute admits, at the end of both windows. */
  function AllUsed(m: nat, h: nat, burst: real): Bucket {
    Bucket(burst - m as real, burst, m, h, HOUR, m, m, HOUR - MINUTE, 0)
  }

  lemma EarnedInMinute(m: nat, d: int)
    requires 0 <= d <= MINUTE
    ensures 0.0 <= Earned(m as real / 60.0, 0, d) <= m as real
  {
    var rate := m as real / 60.0;
    EarnedIsMonotone(rate, 0, d);
    EarnedIsMonotone(rate, d, MINUTE);
    EarnedAdds(rate, 0, d, MINUTE);
    assert Earned(rate, 0, MINUTE) == 60.0 * rate;
  }

  lemma AfterBoth(m: nat, h: nat, burst: real, d: int, earned: real)
    requires m <= h && 1 <= d <= MINUTE && burst >= m as real
    requires earned == Earned(m as real / 60.0, 0, d) >= 0.0 && burst + earned >= (2 * m) as real
    ensures HasRoom(Checked(AllUsed(m, h, burst), HOUR + d), HOUR + d, m)
  {
    var c := AllUsed(m, h, burst);
    assert c.RefillRate() == m as real / 60.0;
    assert Refill(c, HOUR + d).tokens == Min(burst, burst - m as real + earned);
  }

  lemma AtOnce(m: nat, h: nat, burst: real, d: int)
    requires 1 <= m <= h && d >= 0 && burst >= m as real
    ensures var b, events := Configured(m, h, burst, 0), [Event(HOUR - MINUTE, Check)] + Calls(HOUR, m);
            Run(b, events) == AllUsed(m, h, burst) && Admitted(b, events, HOUR, HOUR + d) == m
  {
    var b, first := Configured(m, h, burst, 0), [Event(HOUR - MINUTE, Check)];
    AtTheEnd(m, h, burst);
    assert first[..0] == [];
    assert Admitted(b, first, HOUR, HOUR + d) == 0;
    CallsAdmitted(b, first, Checked(Run(b, first), HOUR), HOUR, m, HOUR, HOUR + d);
  }

  lemma StraddlingIsAdmitted(m: nat, h: nat, burst: real, d: int)
    requires 1 <= m <= h && 1 <= d <= MINUTE && burst + Earned(m as real / 60.0, 0, d) >= (2 * m) as real
    ensures Admitted(Configured(m, h, burst, 0), Straddling(m, d), HOUR, HOUR + d) == 2 * m
  {
    var b, events := Configured(m, h, burst, 0), [Event(HOUR - MINUTE, Check)] + Calls(HOUR, m);
    EarnedInMinute(m, d);
    AtOnce(m, h, burst, d);
    AfterBoth(m, h, burst, d, Earned(m as real / 60.0, 0, d));
    CallsAdmitted(b, events, Checked(AllUsed(m, h, burst), HOUR + d), HOUR + d, m, HOUR, HOUR + d);
  }

  ghost predicate AdmitsTwice(m: nat, h: nat, burst: real, d: int, events: seq<Event>, from: int) {
    Ordered(0, events) && Admitted(Configured(m, h, burst, 0), events, from, from + d) == 2 * m
  }

  /** Some run admits twice the minute limit within `d` milliseconds. */
  ghost predicate TwiceWithin(m: nat, h: nat, burst: real, d: int) {
    exists events, from :: AdmitsTwice(m, h, burst, d, events, from)
  }

  lemma EarnedMoves(rate: real, from: int, d: int)
    ensures Earned(rate, from, from + d) == Earned(rate, 0, d)
  {
  }

  lemma {:induction false} NothingAdmitted(b: Bucket, events: seq<Event>, from: int, to: int)
    requires b.maxTokens < 1.0 && Ordered(b.lastRefill, events)
    ensures Admitted(b, events, from, to) == 0
  {
    if events != [] {
      LaterThanRun(b, events);
      NothingAdmitted(b, events[..|events| - 1], from, to);
      RunClock(b, events[..|events| - 1]);
    }
  }

  lemma TwiceNeeds(m: nat, h: nat, burst: real, d: int, events: seq<Event>, from: int)
    requires m >= 1 && 1 <= d <= MINUTE && AdmitsTwice(m, h, burst, d, events, from)
    ensures m <= h && burst + Earned(m as real / 60.0, 0, d) >= (2 * m) as real
  {
    var b := Configured(m, h, burst, 0);
    assert b.RefillRate() == m as real / 60.0;
    if burst < 1.0 {
      NothingAdmitted(b, events, from, from + d);
    } else {
      BurstBound(b, events, from, from + d);
    }
    EarnedMoves(m as real / 60.0, from, d);
    AtMostTwicePerWindow(events, m, h, burst, 0, from);
    AdmittedGrows(b, events, from, from + d, from + HOUR);
  }

  /**
   The factor two is reached within an interval no longer than a minute if and only if the burst and what the
   interval earns suffice for it, and the hour admits at least one minute's calls.
   */
  lemma TwicePerWindowIff(m: nat, h: nat, burst: real, d: int)
    requires m >= 1 && 1 <= d <= MINUTE
    ensures TwiceWithin(m, h, burst, d) <==> m <= h && burst + Earned(m as real / 60.0, 0, d) >= (2 * m) as real
  {
    if events, from :| AdmitsTwice(m, h, burst, d, events, from) {
      TwiceNeeds(m, h, burst, d, events, from);
    }
    if m <= h && burst + Earned(m as real / 60.0, 0, d) >= (2 * m) as real {
      StraddlingIsOrdered(m, d);
      StraddlingIsAdmitted(m, h, burst, d);
      assert AdmitsTwice(m, h, burst, d, Straddling(m, d), HOUR);
    }
  }

  /** So one call per minute is allowed, and two pass within a millisecond. */
  lemma TwicePerWindowHappens()
    ensures TwiceWithin(1, 600, 2.0, 1)
  {
    TwicePerWindowIff(1, 600, 2.0, 1);
    EarnedIsMonotone(1.0 / 60.0, 0, 1);
  }

  // ---- Waiting ----

  ghost predicate NoCalls(events: seq<Event>) {
    forall i :: 0 <= i < |events| ==> !events[i].kind.Call?
  }

  /** Refilling in two steps is refilling once. */
  lemma RefillComposes(b: Bucket, t: int, u: int)
    requires b.lastRefill <= t <= u && b.tokens <= b.maxTokens
    ensures Refill(Refill(b, t), u) == Refill(b, u)
  {
    EarnedAdds(b.RefillRate(), b.lastRefill, t, u);
    EarnedIsMonotone(b.RefillRate(), b.lastRefill, t);
    EarnedIsMonotone(b.RefillRate(), t, u);
    assert Refill(b, t).tokens == Min(b.maxTokens, b.tokens + Earned(b.RefillRate(), b.lastRefill, t));
    assert Refill(b, u).tokens == Min(b.maxTokens, b.tokens + Earned(b.RefillRate(), b.lastRefill, u));
    assert Refill(Refill(b, t), u).tokens == Min(b.maxTokens, Refill(b, t).tokens + Earned(b.RefillRate(), t, u));
  }

  lemma IdleStep(c: Bucket, e: Event, t: int)
    requires c.tokens <= c.maxTokens && c.lastRefill <= e.time <= t && !e.kind.Call?
    ensures Step(c, e).tokens <= c.maxTokens
    ensures Refill(Step(c, e), t).tokens == Refill(c, t).tokens
  {
    RefillComposes(c, e.time, t);
    var d, r := Step(c, e), Refill(c, e.time);
    assert d.tokens == r.tokens && d.lastRefill == r.lastRefill && d.maxTokens == r.maxTokens;
    assert d.RefillRate() == r.RefillRate();
  }

  /** Checks and statistics reads in between leave the tokens of a later moment as they were. */
  lemma {:induction false} IdleTokens(b: Bucket, events: seq<Event>, t: int)
    requires Ordered(b.lastRefill, events) && NoCalls(events) && b.tokens <= b.maxTokens
    requires b.lastRefill <= t && forall i :: 0 <= i < |events| ==> events[i].time <= t
    ensures Run(b, events).tokens <= b.maxTokens
    ensures Refill(Run(b, events), t).tokens == Refill(b, t).tokens
  {
    if events != [] {
      IdleTokens(b, events[..|events| - 1], t);
      LaterThanRun(b, events);
      RunClock(b, events[..|events| - 1]);
      IdleStep(Run(b, events[..|events| - 1]), events[|events| - 1], t);
    }
  }

  lemma ScaleBack(need: real, rate: real, ms: int)
    requires rate > 0.0
    ensures need / rate * 1000.0 <= ms as real <==> need <= ms as real / 1000.0 * rate
  {
    var x := need / rate;
    assert need == x * rate;
    var y := ms as real / 1000.0;
    assert x * 1000.0 <= ms as real <==> x <= y;
    if x <= y {
      assert x * rate <= y * rate;
    } else {
      assert y * rate < x * rate;
    }
  }

  lemma CeilingIsLeast(x: real, n: int)
    ensures x <= n as real <==> Ceiling(x) <= n
  {
  }

  lemma BurstWaitReaches(c: Bucket, t: int)
    requires c.tokens < 1.0 <= c.maxTokens && c.lastRefill <= t && c.maxPerMinute > 0
    ensures Refill(c, t).tokens >= 1.0 <==> t - c.lastRefill >= BurstWait(c)
  {
    ScaleBack(1.0 - c.tokens, c.RefillRate(), t - c.lastRefill);
    CeilingIsLeast((1.0 - c.tokens) / c.RefillRate() * 1000.0, t - c.lastRefill);
    assert Refill(c, t).tokens == Min(c.maxTokens, c.tokens + Earned(c.RefillRate(), c.lastRefill, t));
  }

  /** After a burst refusal a token is there exactly from the announced wait on, or never if the bucket cannot hold
      one. */
  lemma BurstWaitIsExact(b: Bucket, now: int, w: int, events: seq<Event>, t: int)
    requires b.tokens <= b.maxTokens && b.lastRefill <= now
    requires Judge(Checked(b, now), now) == Refused(w, Burst)
    requires Ordered(now, events) && NoCalls(events)
    requires now <= t && forall i :: 0 <= i < |events| ==> events[i].time <= t
    ensures Checked(Run(Checked(b, now), events), t).tokens >= 1.0 <==> b.maxTokens >= 1.0 && t - now >= w
  {
    var c := Checked(b, now);
    RefillGrows(b, now);
    if b.maxTokens >= 1.0 {
      BurstWaitReaches(c, t);
    }
    IdleTokens(c, events, t);
    assert Checked(Run(c, events), t).tokens == Refill(Run(c, events), t).tokens;
  }

  /** Without calls a window keeps its start until more than its width has passed, and is empty once reset. */
  lemma {:induction false} IdleWindows(b: Bucket, events: seq<Event>)
    requires Ordered(b.lastRefill, events) && NoCalls(events)
    ensures var c := Run(b, events);
            && ((c.minuteCount == b.minuteCount && c.minuteStart == b.minuteStart) ||
                (c.minuteCount == 0 && c.minuteStart - b.minuteStart > MINUTE))
            && ((c.hourCount == b.hourCount && c.hourStart == b.hourStart) ||
                (c.hourCount == 0 && c.hourStart - b.hourStart > HOUR))
            && (c.minuteStart == b.minuteStart || c.minuteStart <= c.lastRefill)
            && (c.hourStart == b.hourStart || c.hourStart <= c.lastRefill)
  {
    if events != [] {
      IdleWindows(b, events[..|events| - 1]);
      LaterThanRun(b, events);
      RunClock(b, events[..|events| - 1]);
    }
  }

  /** A minute refusal persists through the announced wait and ends strictly after it. */
  lemma MinuteWaitIsExact(b: Bucket, now: int, w: int, events: seq<Event>, t: int)
    requires b.lastRefill <= now && b.maxPerMinute > 0
    requires Judge(Checked(b, now), now) == Refused(w, PerMinute)
    requires Ordered(now, events) && NoCalls(events)
    requires now <= t && forall i :: 0 <= i < |events| ==> events[i].time <= t
    ensures var c := Checked(Run(Checked(b, now), events), t);
            Judge(c, t).Refused? && Judge(c, t).reason == PerMinute <==> t - now <= w
  {
    RunClock(Checked(b, now), events);
    IdleWindows(Checked(b, now), events);
  }

  /** An hour refusal likewise, unless the minute limit speaks first. */
  lemma HourWaitIsExact(b: Bucket, now: int, w: int, events: seq<Event>, t: int)
    requires b.lastRefill <= now && b.maxPerHour > 0
    requires Judge(Checked(b, now), now) == Refused(w, PerHour)
    requires Ordered(now, events) && NoCalls(events)
    requires now <= t && forall i :: 0 <= i < |events| ==> events[i].time <= t
    ensures var c := Checked(Run(Checked(b, now), events), t);
            c.hourCount >= c.maxPerHour <==> t - now <= w
  {
    RunClock(Checked(b, now), events);
    IdleWindows(Checked(b, now), events);
  }

  // ---- Observation ----

  function Unobserved(events: seq<Event>): seq<Event> {
    if events == [] then []
    else
      var before, e := events[..|events| - 1], events[|events| - 1];
      if e.kind.Stats? then Unobserved(before) else Unobserved(before) + [e]
  }

  /** The answers given to checks and calls, in order. */
  function Verdicts(b: Bucket, events: seq<Event>): seq<Verdict> {
    if events == [] then []
    else
      var before, e := events[..|events| - 1], events[|events| - 1];
      if e.kind.Stats? then Verdicts(b, before)
      else Verdicts(b, before) + [Judge(Checked(Run(b, before), e.time), e.time)]
  }

  /** The same bucket, up to a refill that only statistics reads have done. */
  ghost predicate RefilledFrom(c: Bucket, plain: Bucket) {
    && plain.lastRefill <= c.lastRefill && plain.tokens <= plain.maxTokens
    && (c == plain || c == Refill(plain, c.lastRefill))
  }

  lemma RefilledStep(c: Bucket, plain: Bucket, e: Event)
    requires RefilledFrom(c, plain) && c.lastRefill <= e.time
    ensures Refill(c, e.time) == Refill(plain, e.time)
    ensures Checked(c, e.time) == Checked(plain, e.time)
    ensures RefilledFrom(Step(c, e), if e.kind.Stats? then plain else Step(plain, e))
  {
    RefillComposes(plain, c.lastRefill, e.time);
    RefillGrows(plain, e.time);
  }

  lemma VerdictsSnoc(b: Bucket, events: seq<Event>, e: Event)
    requires !e.kind.Stats?
    ensures Verdicts(b, events + [e]) == Verdicts(b, events) + [Judge(Checked(Run(b, events), e.time), e.time)]
    ensures Run(b, events + [e]) == Step(Run(b, events), e)
  {
    assert (events + [e])[..|events|] == events;
  }

  /** Reading statistics, though it refills the bucket, never changes an answer. */
  lemma {:induction false} StatsAreInvisible(b: Bucket, events: seq<Event>)
    requires 0.0 <= b.tokens <= b.maxTokens && Ordered(b.lastRefill, events)
    ensures Verdicts(b, events) == Verdicts(b, Unobserved(events))
    ensures RefilledFrom(Run(b, events), Run(b, Unobserved(events)))
  {
    if events != [] {
      var before, e := events[..|events| - 1], events[|events| - 1];
      StatsAreInvisible(b, before);
      LaterThanRun(b, events);
      RefilledStep(Run(b, before), Run(b, Unobserved(before)), e);
      if !e.kind.Stats? {
        VerdictsSnoc(b, Unobserved(before), e);
      }
    }
  }
}
