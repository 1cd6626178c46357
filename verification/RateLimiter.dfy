/** The in-process request limiter (`backend/app/services/abuse_limits.py`): one counter per
    operator, restarted when its window has run out. */
module RateLimiter {

  type OperatorId = string

  datatype Entry = Entry(count: nat, resetAt: real)

  type Memory = map<OperatorId, Entry>

  datatype Settings = Settings(limit: nat, window: nat)

  type ValidSettings = s: Settings | s.limit >= 1 && s.window >= 1 witness Settings(60, 60)

  datatype Verdict = Verdict(allowed: bool, limit: nat, remaining: nat, retryAfterSeconds: int, resetAt: int)

  /** `int` of a float, which cuts towards zero. */
  function Truncate(x: real): int {
    if x >= 0.0 then x.Floor else -(-x).Floor
  }

  function Least(a: nat, b: nat): nat {
    if a < b then a else b
  }

  predicate Expired(memory: Memory, operator: OperatorId, now: real) {
    operator !in memory || now >= memory[operator].resetAt
  }

  /** The counter a request at `now` is counted on. */
  function CountedOn(settings: ValidSettings, memory: Memory, operator: OperatorId, now: real): Entry {
    if Expired(memory, operator, now) then Entry(1, now + settings.window as real)
    else memory[operator].(count := memory[operator].count + 1)
  }

  /** The wait of a refusal: whole seconds, at least one. */
  function RetryAfter(entry: Entry, now: real): int {
    var wait := Truncate(entry.resetAt - now);
    if wait > 1 then wait else 1
  }

  // ---- whole histories of requests ------------------------------------------------------

  /** One request that was counted, with the clock it was counted at. */
  datatype Call = Call(operator: OperatorId, now: real)

  function Served(settings: ValidSettings, calls: seq<Call>): Memory {
    if calls == [] then map[]
    else
      var n := |calls| - 1;
      var memory := Served(settings, calls[..n]);
      memory[calls[n].operator := CountedOn(settings, memory, calls[n].operator, calls[n].now)]
  }

  /** Whether the last request of a history was let through. */
  predicate LastAllowed(settings: ValidSettings, calls: seq<Call>)
    requires calls != []
  {
    Served(settings, calls)[calls[|calls| - 1].operator].count <= settings.limit
  }

  class RateGuard {
    const settings: ValidSettings
    var memory: Memory
    /** Every request counted so far. */
    ghost var calls: seq<Call>

    ghost predicate Valid()
      reads this
    {
      memory == Served(settings, calls)
    }

    constructor (settings: ValidSettings)
      ensures Valid() && this.settings == settings && calls == []
    {
      this.settings := settings;
      memory := map[];
      calls := [];
    }

    method MemoryHit(operator: OperatorId, now: real) returns (v: Verdict)
      requires Valid()
      modifies this
      ensures Valid() && calls == old(calls) + [Call(operator, now)]
      ensures v.allowed <==> LastAllowed(settings, calls)
      ensures v.limit == settings.limit && v.resetAt == Truncate(memory[operator].resetAt)
      ensures v.allowed ==> v.remaining + memory[operator].count == settings.limit && v.retryAfterSeconds == 0
      ensures !v.allowed ==> v.remaining == 0 && v.retryAfterSeconds == RetryAfter(memory[operator], now)
      ensures now < memory[operator].resetAt
    {
      var entry := if operator in memory then memory[operator] else Entry(0, now);
      if operator !in memory || now >= entry.resetAt {
        entry := Entry(0, now + settings.window as real);
        memory := memory[operator := entry];
      }
      entry := entry.(count := entry.count + 1);
      memory := memory[operator := entry];
      calls := calls + [Call(operator, now)];
      assert calls[..|calls| - 1] == old(calls);
      var remaining := if settings.limit > entry.count then settings.limit - entry.count else 0;
      var allowed := entry.count <= settings.limit;
      var wait := Truncate(entry.resetAt - now);
      var retryAfter := if allowed then 0 else if wait > 1 then wait else 1;
      return Verdict(allowed, settings.limit, if allowed then remaining else 0, retryAfter, Truncate(entry.resetAt));
    }

    /** A peek answers what an immediate request would be told, and counts nothing. */
    method MemoryPeek(operator: OperatorId, now: real) returns (v: Verdict)
      requires Valid()
      ensures v.allowed <==> LastAllowed(settings, calls + [Call(operator, now)])
      ensures v.limit == settings.limit
      ensures v.resetAt == Truncate(CountedOn(settings, memory, operator, now).resetAt)
      ensures v.allowed ==>
        && v.remaining + CountedOn(settings, memory, operator, now).count == settings.limit + 1
        && v.retryAfterSeconds == 0
      ensures !v.allowed ==>
        v.remaining == 0 && v.retryAfterSeconds == RetryAfter(CountedOn(settings, memory, operator, now), now)
    {
      ghost var next := calls + [Call(operator, now)];
      assert next[..|next| - 1] == calls;
      if operator !in memory || now >= memory[operator].resetAt {
        return Verdict(true, settings.limit, settings.limit, 0, Truncate(now + settings.window as real));
      }
      var entry := memory[operator];
      var remaining := if settings.limit > entry.count then settings.limit - entry.count else 0;
      var allowed := entry.count < settings.limit;
      var wait := Truncate(entry.resetAt - now);
      var retryAfter := if allowed then 0 else if wait > 1 then wait else 1;
      return Verdict(allowed, settings.limit, remaining, retryAfter, Truncate(entry.resetAt));
    }
  }

  // ---- how many requests pass -------------------------------------------------------------

  datatype Span = Closed(from: real, to: real) | HalfOpen(from: real, to: real)

  predicate Within(span: Span, now: real) {
    span.from <= now && (now < span.to || (span.Closed? && now == span.to))
  }

  /** How many of an operator's requests inside `span` were let through. */
  function Passed(settings: ValidSettings, calls: seq<Call>, operator: OperatorId, span: Span): nat {
    if calls == [] then 0
    else
      var n := |calls| - 1;
      Passed(settings, calls[..n], operator, span)
      + (if calls[n].operator == operator && Within(span, calls[n].now) && LastAllowed(settings, calls) then 1 else 0)
  }

  ghost predicate ClockRises(calls: seq<Call>) {
    forall i, j :: 0 <= i < j < |calls| ==> calls[i].now <= calls[j].now
  }

  lemma ClockRoseBefore(calls: seq<Call>)
    requires ClockRises(calls) && calls != []
    ensures ClockRises(calls[..|calls| - 1])
    ensures |calls| >= 2 ==> calls[|calls| - 2].now <= calls[|calls| - 1].now
  {
  }

  /** No counter began after the last request. */
  lemma {:induction false} CountersHaveBegun(
    settings: ValidSettings, calls: seq<Call>, operator: OperatorId, now: real)
    requires ClockRises(calls) && (calls != [] ==> calls[|calls| - 1].now <= now)
    ensures var memory := Served(settings, calls);
      operator in memory ==> memory[operator].resetAt - settings.window as real <= now
  {
    if calls != [] {
      ClockRoseBefore(calls);
      CountersHaveBegun(settings, calls[..|calls| - 1], operator, now);
    }
  }

  /** How many of a span's requests a counter that began at `start` can account for. */
  ghost predicate Bounded(settings: ValidSettings, entry: Entry, span: Span, passed: nat) {
    var start := entry.resetAt - settings.window as real;
    var current := Least(entry.count, settings.limit);
    var lost := if span.HalfOpen? then 1 else 0;
    && entry.count >= 1
    && (entry.resetAt <= span.from ==> passed == 0)
    && (start < span.from ==> passed <= current - lost)
    && (start <= span.from ==> passed <= current)
    && (Within(span, start) ==> passed <= settings.limit - lost + current)
    && passed <= 2 * settings.limit - lost
  }

  /** One more counted request keeps the bound. */
  lemma BoundedNext(settings: ValidSettings, entry: Entry, span: Span, passed: nat, now: real)
    requires span.to == span.from + settings.window as real && Bounded(settings, entry, span, passed)
    requires entry.resetAt - settings.window as real <= now
    ensures var next := if now >= entry.resetAt then Entry(1, now + settings.window as real)
                        else entry.(count := entry.count + 1);
      Bounded(settings, next, span, passed + (if Within(span, now) && next.count <= settings.limit then 1 else 0))
  {
  }

  lemma BoundedFirst(settings: ValidSettings, span: Span, now: real)
    requires span.to == span.from + settings.window as real
    ensures Bounded(settings, Entry(1, now + settings.window as real), span, if Within(span, now) then 1 else 0)
  {
  }

  /** A span as long as the window meets at most two counters. */
  lemma {:induction false} SpanMeetsTwoCounters(
    settings: ValidSettings, calls: seq<Call>, operator: OperatorId, span: Span)
    requires span.to == span.from + settings.window as real && ClockRises(calls)
    ensures var memory := Served(settings, calls); var passed := Passed(settings, calls, operator, span);
      if operator in memory then Bounded(settings, memory[operator], span, passed) else passed == 0
  {
    hide Bounded, ClockRises, Within;
    if calls != [] {
      var n := |calls| - 1;
      ClockRoseBefore(calls);
      var memory := Served(settings, calls[..n]);
      SpanMeetsTwoCounters(settings, calls[..n], operator, span);
      if operator in memory {
        CountersHaveBegun(settings, calls[..n], operator, calls[n].now);
        BoundedNext(settings, memory[operator], span, Passed(settings, calls[..n], operator, span), calls[n].now);
      } else {
        BoundedFirst(settings, span, calls[n].now);
      }
    }
  }

  /** While the clock does not go back, a closed interval as long as the window lets through at most
      twice the limit, and one without its right end at most one fewer. */
  lemma SlidingWindowBound(settings: ValidSettings, calls: seq<Call>, operator: OperatorId, from: real)
    requires ClockRises(calls)
    ensures var to := from + settings.window as real;
      && Passed(settings, calls, operator, Closed(from, to)) <= 2 * settings.limit
      && Passed(settings, calls, operator, HalfOpen(from, to)) <= 2 * settings.limit - 1
  {
    var to := from + settings.window as real;
    SpanMeetsTwoCounters(settings, calls, operator, Closed(from, to));
    SpanMeetsTwoCounters(settings, calls, operator, HalfOpen(from, to));
  }

  // ---- both bounds are reached --------------------------------------------------------------

  function Burst(operator: OperatorId, now: real, n: nat): (calls: seq<Call>)
    ensures |calls| == n
  {
    seq(n, _ => Call(operator, now))
  }

  /** What a burst of at most `limit` requests at one moment adds. */
  lemma {:induction false} BurstPasses(
    settings: ValidSettings, before: seq<Call>, operator: OperatorId, now: real, n: nat, span: Span)
    requires Expired(Served(settings, before), operator, now) && n <= settings.limit
    ensures var calls := before + Burst(operator, now, n);
      && Passed(settings, calls, operator, span)
         == Passed(settings, before, operator, span) + (if Within(span, now) then n else 0)
      && (n >= 1 ==> operator in Served(settings, calls)
                     && Served(settings, calls)[operator] == Entry(n, now + settings.window as real))
  {
    if n == 0 {
      assert before + Burst(operator, now, 0) == before;
    } else {
      BurstPasses(settings, before, operator, now, n - 1, span);
      var calls := before + Burst(operator, now, n);
      assert calls[..|calls| - 1] == before + Burst(operator, now, n - 1);
    }
  }

  /** Two full bursts one window apart both pass, so the closed bound cannot be lowered. */
  lemma ClosedBoundIsReached(settings: ValidSettings, operator: OperatorId, from: real) returns (calls: seq<Call>)
    ensures Passed(settings, calls, operator, Closed(from, from + settings.window as real)) == 2 * settings.limit
    ensures ClockRises(calls)
  {
    var to := from + settings.window as real;
    var first := [] + Burst(operator, from, settings.limit);
    BurstPasses(settings, [], operator, from, settings.limit, Closed(from, to));
    BurstPasses(settings, first, operator, to, settings.limit, Closed(from, to));
    calls := first + Burst(operator, to, settings.limit);
  }

  /** A burst that the running counter still has room for. */
  lemma {:induction false} BurstContinues(
    settings: ValidSettings, before: seq<Call>, operator: OperatorId, now: real, n: nat, span: Span)
    requires var memory := Served(settings, before);
      operator in memory && now < memory[operator].resetAt && memory[operator].count + n <= settings.limit
    ensures var calls := before + Burst(operator, now, n);
      && Passed(settings, calls, operator, span)
         == Passed(settings, before, operator, span) + (if Within(span, now) then n else 0)
      && operator in Served(settings, calls)
      && Served(settings, calls)[operator]
         == Entry(Served(settings, before)[operator].count + n, Served(settings, before)[operator].resetAt)
  {
    if n == 0 {
      assert before + Burst(operator, now, 0) == before;
    } else {
      BurstContinues(settings, before, operator, now, n - 1, span);
      var calls := before + Burst(operator, now, n);
      assert calls[..|calls| - 1] == before + Burst(operator, now, n - 1);
    }
  }

  lemma NothingServed(settings: ValidSettings, operator: OperatorId)
    ensures Served(settings, []) == map[] && forall span :: Passed(settings, [], operator, span) == 0
  {
  }

  /** A counter started half a window early with one request lets the rest of its limit through, and the
      counter after it a full burst, so the half-open bound cannot be lowered either. */
  lemma HalfOpenBoundIsReached(settings: ValidSettings, operator: OperatorId, from: real) returns (calls: seq<Call>)
    ensures Passed(settings, calls, operator, HalfOpen(from, from + settings.window as real)) == 2 * settings.limit - 1
    ensures ClockRises(calls)
  {
    hide Served, Passed;
    assert Served(settings, []) == map[] && forall span :: Passed(settings, [], operator, span) == 0 by {
      NothingServed(settings, operator);
    }
    var half := settings.window as real / 2.0;
    var span := HalfOpen(from, from + settings.window as real);
    var one := [] + Burst(operator, from - half, 1);
    BurstPasses(settings, [], operator, from - half, 1, span);
    var full := one + Burst(operator, from, settings.limit - 1);
    BurstContinues(settings, one, operator, from, settings.limit - 1, span);
    calls := full + Burst(operator, from + half, settings.limit);
    BurstPasses(settings, full, operator, from + half, settings.limit, span);
  }

  // ---- one counter's lifetime -----------------------------------------------------------------

  /** How often an operator's counter was started. */
  function Epoch(settings: ValidSettings, calls: seq<Call>, operator: OperatorId): nat {
    if calls == [] then 0
    else
      var n := |calls| - 1;
      Epoch(settings, calls[..n], operator)
      + (if calls[n].operator == operator
          && Expired(Served(settings, calls[..n]), operator, calls[n].now) then 1 else 0)
  }

  function PassedInEpoch(settings: ValidSettings, calls: seq<Call>, operator: OperatorId, epoch: nat): nat {
    if calls == [] then 0
    else
      var n := |calls| - 1;
      PassedInEpoch(settings, calls[..n], operator, epoch)
      + (if calls[n].operator == operator && Epoch(settings, calls, operator) == epoch && LastAllowed(settings, calls)
         then 1 else 0)
  }

  /** Each counter lets through its first `limit` requests and no others. */
  lemma {:induction false} EpochPassesTheLimit(
    settings: ValidSettings, calls: seq<Call>, operator: OperatorId, epoch: nat)
    ensures PassedInEpoch(settings, calls, operator, epoch) <= settings.limit
    ensures var memory := Served(settings, calls); var current := Epoch(settings, calls, operator);
      && (operator in memory <==> current >= 1)
      && (epoch > current || epoch == 0 ==> PassedInEpoch(settings, calls, operator, epoch) == 0)
      && (operator in memory && epoch == current ==>
            PassedInEpoch(settings, calls, operator, epoch) == Least(memory[operator].count, settings.limit))
  {
    if calls != [] {
      EpochPassesTheLimit(settings, calls[..|calls| - 1], operator, epoch);
    }
  }

  // ---- operators do not affect each other -------------------------------------------------------

  function Mine(calls: seq<Call>, operator: OperatorId): seq<Call> {
    if calls == [] then []
    else
      var n := |calls| - 1;
      Mine(calls[..n], operator) + (if calls[n].operator == operator then [calls[n]] else [])
  }

  lemma {:induction false} OwnCounter(settings: ValidSettings, calls: seq<Call>, operator: OperatorId)
    ensures var all := Served(settings, calls); var own := Served(settings, Mine(calls, operator));
      && (operator in all <==> operator in own)
      && (operator in all ==> all[operator] == own[operator])
  {
    if calls != [] {
      var n := |calls| - 1;
      OwnCounter(settings, calls[..n], operator);
      var own := Mine(calls, operator);
      if calls[n].operator == operator {
        assert own[..|own| - 1] == Mine(calls[..n], operator) && own[|own| - 1] == calls[n];
      } else {
        assert own == Mine(calls[..n], operator);
      }
    }
  }

  /** What an operator is told depends on that operator's own requests alone. */
  lemma {:induction false} OperatorsAreIndependent(
    settings: ValidSettings, calls: seq<Call>, operator: OperatorId, span: Span)
    ensures operator in Served(settings, calls) <==> operator in Served(settings, Mine(calls, operator))
    ensures operator in Served(settings, calls) ==>
      Served(settings, calls)[operator] == Served(settings, Mine(calls, operator))[operator]
    ensures Passed(settings, calls, operator, span) == Passed(settings, Mine(calls, operator), operator, span)
  {
    hide Served, Within;
    OwnCounter(settings, calls, operator);
    if calls != [] {
      var n := |calls| - 1;
      OperatorsAreIndependent(settings, calls[..n], operator, span);
      var own := Mine(calls, operator);
      if calls[n].operator == operator {
        assert own[..|own| - 1] == Mine(calls[..n], operator) && own[|own| - 1] == calls[n];
        LastIsServed(settings, calls);
        LastIsServed(settings, own);
      } else {
        assert own == Mine(calls[..n], operator);
      }
    }
  }

  lemma LastIsServed(settings: ValidSettings, calls: seq<Call>)
    requires calls != []
    ensures calls[|calls| - 1].operator in Served(settings, calls)
  {
  }

  // ---- what a refused operator is told ------------------------------------------------------------

  /** An operator that is refused and waits as long as it was told to is let through exactly when less
      than a second of the window was left, or a whole number of seconds. Otherwise the truncation
      sends it back too early. */
  lemma WaitSufficesExactly(settings: ValidSettings, calls: seq<Call>, operator: OperatorId, now: real)
    requires var next := calls + [Call(operator, now)]; !LastAllowed(settings, next)
    ensures var next := calls + [Call(operator, now)];
      var entry := Served(settings, next)[operator];
      var left := entry.resetAt - now;
      LastAllowed(settings, next + [Call(operator, now + RetryAfter(entry, now) as real)])
      <==> left <= 1.0 || left == left.Floor as real
  {
    var next := calls + [Call(operator, now)];
    var entry := Served(settings, next)[operator];
    assert next[..|next| - 1] == calls;
    var again := next + [Call(operator, now + RetryAfter(entry, now) as real)];
    assert again[..|again| - 1] == next;
  }

  /** One request an operator every two seconds: refused half a second in, with a second and a half left,
      it is told to wait one second and is refused again. */
  lemma WaitFallsShort(operator: OperatorId)
    ensures var settings := Settings(1, 2);
      var refused := [Call(operator, 0.0), Call(operator, 0.5)];
      && !LastAllowed(settings, refused)
      && RetryAfter(Served(settings, refused)[operator], 0.5) == 1
      && !LastAllowed(settings, refused + [Call(operator, 1.5)])
  {
    var settings: ValidSettings := Settings(1, 2);
    var first := [Call(operator, 0.0)];
    var refused := [Call(operator, 0.0), Call(operator, 0.5)];
    var again := refused + [Call(operator, 1.5)];
    assert first[..0] == [] && refused[..1] == first && again[..2] == refused;
    assert Served(settings, first)[operator] == Entry(1, 2.0);
    assert Served(settings, refused)[operator] == Entry(2, 2.0);
    assert 1.5.Floor == 1;
    assert Served(settings, again)[operator] == Entry(3, 2.0);
  }
}
