/** SlidingWindowLimiter (api-gateway/rate_limiter.py): a log
    of admitted times per key, from which each call first evicts what has left the
    window. */
module SlidingWindow {
  import opened RateLimiting

  datatype Verdict = Admitted | Refused(retryAfter: real) | IndexError

  datatype Config = Config(maxEvents: int, window: real)

  // --- the specification: the admitted times of one key -------------------------------------------

  /** The times in h not before `from`, in order. */
  function Since(h: seq<real>, from: real): seq<real> {
    if h == [] then []
    else
      var front, t := Since(h[..|h| - 1], from), h[|h| - 1];
      if t >= from then front + [t] else front
  }

  /** The admitted calls among h: each had room in the window that it ended. */
  function AdmittedTimes(cfg: Config, h: seq<real>): seq<real> {
    if h == [] then []
    else
      var t := h[|h| - 1];
      var before := AdmittedTimes(cfg, h[..|h| - 1]);
      if |Since(before, t - cfg.window)| < cfg.maxEvents then before + [t] else before
  }

  /** The events in the window of a call at `now` after the calls h of its key. */
  function InWindow(cfg: Config, h: seq<real>, now: real): seq<real> {
    Since(AdmittedTimes(cfg, h), now - cfg.window)
  }

  predicate Admits(cfg: Config, h: seq<real>, now: real) {
    |InWindow(cfg, h, now)| < cfg.maxEvents
  }

  function Max(a: real, b: real): real {
    if a >= b then a else b
  }

  function VerdictOf(cfg: Config, events: seq<real>, now: real): Verdict {
    if |events| < cfg.maxEvents then Admitted
    else if events == [] then IndexError
    else Refused(Max(events[0] + cfg.window - now, 0.0))
  }

  /** The verdict on a key's call at `now`, after its calls so far. */
  function Answer(cfg: Config, h: seq<real>, now: real): Verdict {
    VerdictOf(cfg, InWindow(cfg, h, now), now)
  }

  /** The times of the calls among h that were answered Admitted. */
  function AnsweredAdmitted(cfg: Config, h: seq<real>): seq<real> {
    if h == [] then []
    else
      var front, t := h[..|h| - 1], h[|h| - 1];
      if Answer(cfg, front, t).Admitted? then AnsweredAdmitted(cfg, front) + [t] else AnsweredAdmitted(cfg, front)
  }

  /** What a call leaves in the deque it finds. */
  function Kept(cfg: Config, deque: seq<real>, now: real): seq<real> {
    Append(cfg, Since(deque, now - cfg.window), now)
  }

  function Append(cfg: Config, rest: seq<real>, now: real): seq<real> {
    if |rest| < cfg.maxEvents then rest + [now] else rest
  }

  /** The deque after the calls h of its key. */
  function DequeAfter(cfg: Config, h: seq<real>): seq<real> {
    if h == [] then [] else Kept(cfg, DequeAfter(cfg, h[..|h| - 1]), h[|h| - 1])
  }

  // --- the class ------------------------------------------------------------------------------------

  class SlidingWindowLimiter {
    const cfg: Config
    var events: map<string, seq<real>>
    ghost var calls: seq<Call>

    ghost predicate Valid()
      reads this
    {
      forall key: string :: Holds(cfg, events, key, TimesOf(calls, key))
    }

    static ghost predicate Holds(cfg: Config, events: map<string, seq<real>>, key: string, times: seq<real>) {
      DequeAfter(cfg, times) == if key in events then events[key] else []
    }

    constructor (maxEvents: int, window: real)
      ensures Valid() && calls == [] && cfg == Config(maxEvents, window)
    {
      cfg := Config(maxEvents, window);
      events, calls := map[], [];
    }

    method Allow(key: string, now: real) returns (verdict: Verdict)
      requires Valid() && cfg.window >= 0.0
      requires Monotone(TimesOf(calls, key)) && NotBefore(TimesOf(calls, key), now)
      modifies this
      ensures Valid() && calls == old(calls) + [Call(key, now)]
      ensures verdict == Answer(cfg, TimesOf(old(calls), key), now)
      ensures verdict.Admitted? <==>
              Within(AnsweredAdmitted(cfg, TimesOf(old(calls), key)), now - cfg.window, now) < cfg.maxEvents
      ensures verdict.IndexError? <==> cfg.maxEvents <= 0
    {
      assert Holds(cfg, events, key, TimesOf(calls, key));
      var deque := Fetch(key, now, TimesOf(calls, key));
      verdict := Decide(deque, now, TimesOf(calls, key));
      if |deque| < cfg.maxEvents {
        deque := deque + [now];
      }
      Store(key, now, deque);
    }

    method Decide(deque: seq<real>, now: real, ghost times: seq<real>) returns (verdict: Verdict)
      requires Monotone(times) && NotBefore(times, now) && deque == InWindow(cfg, times, now)
      ensures verdict == Answer(cfg, times, now)
      ensures verdict.Admitted? <==> Within(AnsweredAdmitted(cfg, times), now - cfg.window, now) < cfg.maxEvents
      ensures verdict.IndexError? <==> cfg.maxEvents <= 0
    {
      AnswerCounts(cfg, times, now);
      verdict := VerdictOf(cfg, deque, now);
    }

    /** The key's deque, empty at first, after eviction. */
    method Fetch(key: string, now: real, ghost times: seq<real>) returns (deque: seq<real>)
      requires Holds(cfg, events, key, times) && cfg.window >= 0.0
      requires Monotone(times) && NotBefore(times, now)
      ensures deque == InWindow(cfg, times, now)
      ensures deque == Since(DequeAfter(cfg, times), now - cfg.window)
    {
      DequeIsWindow(cfg, times, now);
      deque := if key in events then events[key] else [];
      deque := Evict(deque, now - cfg.window);
    }

    /** The eviction loop: pop what is older than the window from the left. */
    method Evict(deque: seq<real>, from: real) returns (rest: seq<real>)
      requires Monotone(deque)
      ensures rest == Since(deque, from)
    {
      rest := deque;
      while |rest| > 0 && rest[0] < from
        invariant Monotone(rest)
        invariant Since(rest, from) == Since(deque, from)
      {
        SincePop(rest, from);
        rest := rest[1..];
      }
      SinceAll(rest, from);
    }

    method Store(key: string, now: real, deque: seq<real>)
      requires Valid() && deque == Kept(cfg, DequeAfter(cfg, TimesOf(calls, key)), now)
      modifies this
      ensures Valid() && calls == old(calls) + [Call(key, now)]
    {
      ghost var before, kept := calls, events;
      calls := calls + [Call(key, now)];
      events := events[key := deque];
      forall other: string
        ensures Holds(cfg, events, other, TimesOf(calls, other))
      {
        assert Holds(cfg, kept, other, TimesOf(before, other));
        TimesSnoc(before, Call(key, now), other);
        DequeSnoc(cfg, TimesOf(before, key), now);
      }
    }
  }

  lemma {:induction false} AdmittedSnoc(cfg: Config, h: seq<real>, now: real)
    ensures AdmittedTimes(cfg, h + [now]) ==
            if Admits(cfg, h, now) then AdmittedTimes(cfg, h) + [now] else AdmittedTimes(cfg, h)
  {
    assert (h + [now])[..|h|] == h;
  }

  lemma {:induction false} DequeSnoc(cfg: Config, h: seq<real>, now: real)
    ensures DequeAfter(cfg, h + [now]) == Append(cfg, Since(DequeAfter(cfg, h), now - cfg.window), now)
  {
    assert (h + [now])[..|h|] == h;
  }

  // --- filtering by time --------------------------------------------------------------------------------

  lemma {:induction false} SinceSnoc(h: seq<real>, t: real, from: real)
    ensures Since(h + [t], from) == if t >= from then Since(h, from) + [t] else Since(h, from)
  {
    assert (h + [t])[..|h|] == h;
  }

  lemma {:induction false} SinceBounds(h: seq<real>, from: real)
    ensures |Since(h, from)| <= |h|
    ensures forall i :: 0 <= i < |Since(h, from)| ==> Since(h, from)[i] >= from
  {
    if h == [] {
    } else {
      SinceBounds(h[..|h| - 1], from);
    }
  }

  lemma {:induction false} SinceTwice(h: seq<real>, from: real, later: real)
    requires from <= later
    ensures Since(Since(h, from), later) == Since(h, later)
  {
    if h == [] {
    } else {
      var front, t := h[..|h| - 1], h[|h| - 1];
      SinceTwice(front, from, later);
      SinceSnoc(Since(front, from), t, later);
    }
  }

  lemma {:induction false} SincePop(h: seq<real>, from: real)
    requires h != [] && h[0] < from
    ensures Since(h[1..], from) == Since(h, from)
  {
    if |h| > 1 {
      var n := |h| - 1;
      assert h[1..][..n - 1] == h[..n][1..];
      SincePop(h[..n], from);
    } else {
      assert h[..0] == [] && h[1..] == [];
    }
  }

  lemma {:induction false} SinceAll(h: seq<real>, from: real)
    requires Monotone(h) && (h != [] ==> h[0] >= from)
    ensures Since(h, from) == h
  {
    if h == [] {
    } else {
      SinceAll(h[..|h| - 1], from);
    }
  }

  lemma {:induction false} SinceMonotone(h: seq<real>, from: real, now: real)
    requires Monotone(h) && NotBefore(h, now)
    ensures Monotone(Since(h, from)) && NotBefore(Since(h, from), now)
  {
    if h == [] {
    } else {
      SinceMonotone(h[..|h| - 1], from, h[|h| - 1]);
    }
  }

  lemma {:induction false} AdmittedMonotone(cfg: Config, h: seq<real>, now: real)
    requires Monotone(h) && NotBefore(h, now)
    ensures Monotone(AdmittedTimes(cfg, h)) && NotBefore(AdmittedTimes(cfg, h), now)
  {
    if h == [] {
    } else {
      AdmittedMonotone(cfg, h[..|h| - 1], h[|h| - 1]);
    }
  }

  /** What one window kept is enough to know a later one. */
  lemma LaterWindow(cfg: Config, h: seq<real>, last: real, now: real)
    requires Monotone(h) && NotBefore(h, last) && last <= now
    ensures Monotone(InWindow(cfg, h, last)) && Since(InWindow(cfg, h, last), now - cfg.window) == InWindow(cfg, h, now)
  {
    AdmittedMonotone(cfg, h, last);
    SinceMonotone(AdmittedTimes(cfg, h), last - cfg.window, last);
    SinceTwice(AdmittedTimes(cfg, h), last - cfg.window, now - cfg.window);
  }

  lemma {:induction false} WindowSnoc(cfg: Config, h: seq<real>, t: real)
    requires cfg.window >= 0.0
    ensures InWindow(cfg, h + [t], t) == Append(cfg, InWindow(cfg, h, t), t)
  {
    AdmittedSnoc(cfg, h, t);
    SinceSnoc(AdmittedTimes(cfg, h), t, t - cfg.window);
  }

  lemma DequeStep(cfg: Config, h: seq<real>, front: seq<real>, t: real)
    requires cfg.window >= 0.0 && h == front + [t]
    requires Since(DequeAfter(cfg, front), t - cfg.window) == InWindow(cfg, front, t)
    ensures DequeAfter(cfg, h) == InWindow(cfg, h, t)
  {
    DequeSnoc(cfg, front, t);
    WindowSnoc(cfg, front, t);
  }

  /** After any history, the deque is exactly the admitted times in the window of the
      last call, in order; and evicting from it tells what is in any later window. */
  lemma {:induction false} DequeIsWindow(cfg: Config, h: seq<real>, now: real)
    requires cfg.window >= 0.0 && Monotone(h) && NotBefore(h, now)
    ensures h != [] ==> DequeAfter(cfg, h) == InWindow(cfg, h, h[|h| - 1])
    ensures Monotone(DequeAfter(cfg, h)) && Since(DequeAfter(cfg, h), now - cfg.window) == InWindow(cfg, h, now)
  {
    if h == [] {
    } else {
      var k := |h| - 1;
      DequeIsWindow(cfg, h[..k], h[k]);
      DequeStep(cfg, h, h[..k], h[k]);
      LaterWindow(cfg, h, h[k], now);
    }
  }

  // --- what the policy promises ----------------------------------------------------------------------------

  /** Times in h within [from, to]. */
  function Within(h: seq<real>, from: real, to: real): nat {
    if h == [] then 0
    else Within(h[..|h| - 1], from, to) + if from <= h[|h| - 1] <= to then 1 else 0
  }

  lemma {:induction false} WithinIsSince(h: seq<real>, from: real, to: real)
    ensures Within(h, from, to) <= |Since(h, from)|
  {
    if h == [] {
    } else {
      WithinIsSince(h[..|h| - 1], from, to);
    }
  }

  lemma {:induction false} SinceIsWithin(h: seq<real>, from: real, to: real)
    requires NotBefore(h, to)
    ensures |Since(h, from)| == Within(h, from, to)
  {
    if h == [] {
    } else {
      SinceIsWithin(h[..|h| - 1], from, to);
    }
  }

  lemma {:induction false} NoneAdmitted(cfg: Config, h: seq<real>)
    requires cfg.maxEvents <= 0
    ensures AdmittedTimes(cfg, h) == []
  {
    if h == [] {
    } else {
      NoneAdmitted(cfg, h[..|h| - 1]);
    }
  }

  lemma {:induction false} AnsweredIsAdmitted(cfg: Config, h: seq<real>)
    ensures AnsweredAdmitted(cfg, h) == AdmittedTimes(cfg, h)
  {
    if h == [] {
    } else {
      AnsweredIsAdmitted(cfg, h[..|h| - 1]);
    }
  }

  /** A call is answered Admitted exactly when fewer than maxEvents of the calls answered
      so before it lie in the closed window that it ends. */
  lemma {:induction false} AnswerCounts(cfg: Config, h: seq<real>, now: real)
    requires Monotone(h) && NotBefore(h, now)
    ensures Answer(cfg, h, now).Admitted? <==>
            Within(AnsweredAdmitted(cfg, h), now - cfg.window, now) < cfg.maxEvents
    ensures Answer(cfg, h, now).Admitted? <==> Admits(cfg, h, now)
    ensures Answer(cfg, h, now).IndexError? <==> cfg.maxEvents <= 0
  {
    if cfg.maxEvents <= 0 {
      NoneAdmitted(cfg, h);
    }
    AnsweredIsAdmitted(cfg, h);
    AdmittedMonotone(cfg, h, now);
    SinceIsWithin(AdmittedTimes(cfg, h), now - cfg.window, now);
  }

  lemma {:induction false} SinceShrinks(h: seq<real>, from: real, later: real)
    requires from <= later
    ensures |Since(h, later)| <= |Since(h, from)|
  {
    if h == [] {
    } else {
      SinceShrinks(h[..|h| - 1], from, later);
    }
  }

  /** Every closed interval as long as the window, anywhere in any history, holds at
      most maxEvents admissions of a key. */
  lemma {:induction false} IntervalBound(cfg: Config, h: seq<real>, from: real)
    requires cfg.maxEvents >= 0 && cfg.window >= 0.0 && Monotone(h)
    ensures Within(AnsweredAdmitted(cfg, h), from, from + cfg.window) <= cfg.maxEvents
  {
    AnsweredIsAdmitted(cfg, h);
    IntervalBoundTimes(cfg, h, from);
  }

  lemma {:induction false} IntervalBoundTimes(cfg: Config, h: seq<real>, from: real)
    requires cfg.maxEvents >= 0 && cfg.window >= 0.0 && Monotone(h)
    ensures Within(AdmittedTimes(cfg, h), from, from + cfg.window) <= cfg.maxEvents
  {
    if h == [] {
    } else {
      var front, t := h[..|h| - 1], h[|h| - 1];
      IntervalBoundTimes(cfg, front, from);
      var a := AdmittedTimes(cfg, front);
      if Admits(cfg, front, t) {
        assert (a + [t])[..|a|] == a && AdmittedTimes(cfg, h) == a + [t];
        if from <= t <= from + cfg.window {
          WithinIsSince(a, from, from + cfg.window);
          SinceShrinks(a, t - cfg.window, from);
        }
      }
    }
  }

  lemma {:induction false} WindowBound(cfg: Config, h: seq<real>, now: real)
    requires cfg.maxEvents >= 0 && cfg.window >= 0.0 && Monotone(h) && NotBefore(h, now)
    ensures |InWindow(cfg, h, now)| <= cfg.maxEvents
  {
    if h == [] {
    } else {
      var front, t := h[..|h| - 1], h[|h| - 1];
      WindowBound(cfg, front, t);
      WindowBound(cfg, front, now);
      var a := AdmittedTimes(cfg, front);
      if Admits(cfg, front, t) {
        SinceSnoc(a, t, now - cfg.window);
        SinceShrinks(a, t - cfg.window, now - cfg.window);
      }
    }
  }

  /** A call is refused exactly when its window already holds maxEvents admissions,
      and never more than that. */
  lemma {:induction false} WindowNeverOverfull(cfg: Config, h: seq<real>, now: real)
    requires cfg.maxEvents >= 0 && cfg.window >= 0.0 && Monotone(h) && NotBefore(h, now)
    ensures |InWindow(cfg, h, now)| <= cfg.maxEvents
    ensures !Answer(cfg, h, now).Admitted? <==> |InWindow(cfg, h, now)| == cfg.maxEvents
  {
    WindowBound(cfg, h, now);
  }

  /** Each of these calls, made in turn after h, is refused. */
  predicate AllRefused(cfg: Config, h: seq<real>, refused: seq<real>) {
    refused == [] ||
    (var front := refused[..|refused| - 1];
     AllRefused(cfg, h, front) && !Answer(cfg, h + front, refused[|refused| - 1]).Admitted?)
  }

  lemma {:induction false} RefusedSnoc(cfg: Config, h: seq<real>, now: real, longer: seq<real>)
    requires !Admits(cfg, h, now) && longer == h + [now]
    ensures AdmittedTimes(cfg, longer) == AdmittedTimes(cfg, h)
  {
    AdmittedSnoc(cfg, h, now);
  }

  lemma {:induction false} RefusalsLeaveAdmitted(cfg: Config, h: seq<real>, refused: seq<real>)
    requires AllRefused(cfg, h, refused)
    ensures AdmittedTimes(cfg, h + refused) == AdmittedTimes(cfg, h)
  {
    if refused == [] {
      assert h + refused == h;
    } else {
      var front, last := refused[..|refused| - 1], refused[|refused| - 1];
      RefusalsLeaveAdmitted(cfg, h, front);
      RefusedSnoc(cfg, h + front, last, h + refused);
    }
  }

  /** Refused calls change nothing: however many are made, at whatever times, the next
      verdict is the one they would not have delayed. */
  lemma RefusalsNeverExtend(cfg: Config, h: seq<real>, refused: seq<real>, now: real)
    requires AllRefused(cfg, h, refused)
    ensures Answer(cfg, h + refused, now) == Answer(cfg, h, now)
  {
    RefusalsLeaveAdmitted(cfg, h, refused);
  }

  /** The oldest event of a full window leaves it just after retry_after. */
  lemma {:induction false} OldestLeaves(cfg: Config, h: seq<real>, now: real, d: real)
    requires cfg.maxEvents >= 1 && cfg.window >= 0.0 && Monotone(h) && NotBefore(h, now) && d >= 0.0
    requires !Admits(cfg, h, now)
    ensures var events := InWindow(cfg, h, now);
            && |events| >= 1
            && var retry := events[0] + cfg.window - now;
            && retry >= 0.0
            && (Admits(cfg, h, now + d) <==> d > retry)
  {
    var a, events := AdmittedTimes(cfg, h), InWindow(cfg, h, now);
    WindowBound(cfg, h, now);
    AdmittedMonotone(cfg, h, now);
    SinceMonotone(a, now - cfg.window, now);
    var later := now + d - cfg.window;
    SinceTwice(a, now - cfg.window, later);
    SinceBounds(a, now - cfg.window);
    SinceBounds(events[1..], later);
    if events[0] < later {
      SincePop(events, later);
    } else {
      SinceAll(events, later);
    }
  }

  lemma AnswerAdmits(cfg: Config, h: seq<real>, now: real)
    ensures Answer(cfg, h, now).Admitted? <==> Admits(cfg, h, now)
    ensures var events := InWindow(cfg, h, now);
            !Admits(cfg, h, now) && events != [] ==>
              Answer(cfg, h, now) == Refused(Max(events[0] + cfg.window - now, 0.0))
  {
  }

  /** retry_after is exact and never negative: without an admission between, a call
      delayed by d is refused up to and including d = retry_after, and admitted after. */
  lemma {:induction false} RetryAfterExact(cfg: Config, h: seq<real>, now: real, d: real)
    requires cfg.maxEvents >= 1 && cfg.window >= 0.0 && Monotone(h) && NotBefore(h, now) && d >= 0.0
    requires !Answer(cfg, h, now).Admitted?
    ensures var verdict := Answer(cfg, h, now);
            && verdict.Refused? && verdict.retryAfter >= 0.0
            && (Answer(cfg, h, now + d).Admitted? <==> d > verdict.retryAfter)
  {
    AnswerAdmits(cfg, h, now);
    AnswerAdmits(cfg, h, now + d);
    OldestLeaves(cfg, h, now, d);
  }

  // --- the Retry-After header ----------------------------------------------------------------------------------

  /** A client that waits as the header says is admitted, unless retry_after was itself
      a positive whole number: then it comes exactly at the instant still refused. */
  lemma {:induction false} HeaderSuffices(cfg: Config, h: seq<real>, now: real)
    requires cfg.maxEvents >= 1 && cfg.window >= 0.0 && Monotone(h) && NotBefore(h, now)
    requires !Answer(cfg, h, now).Admitted?
    ensures Answer(cfg, h, now).Refused?
    ensures var retry := Answer(cfg, h, now).retryAfter;
            Answer(cfg, h, now + RetryAfterSeconds(retry) as real).Admitted? <==> !(IsWhole(retry) && retry > 0.0)
  {
    RetryAfterExact(cfg, h, now, 0.0);
    var retry := Answer(cfg, h, now).retryAfter;
    var wait: real :| wait == RetryAfterSeconds(retry) as real;
    RetryAfterExact(cfg, h, now, wait);
    SecondsExceed(retry);
  }

  /** An instant short: one event a minute, one admission at 0 s. A call at 59 s is
      refused with retry_after 1, its header says 1, and at 60 s it is refused again. */
  lemma {:induction false} HeaderTooShort()
    ensures var cfg, h := Config(1, 60.0), [0.0];
            && Answer(cfg, [], 0.0) == Admitted
            && Answer(cfg, h, 59.0) == Refused(1.0)
            && RetryAfterSeconds(1.0) == 1
            && Answer(cfg, h, 60.0) == Refused(0.0)
  {
    var cfg, h := Config(1, 60.0), [0.0];
    var front := h[..0];
    assert front == [] && AdmittedTimes(cfg, front) == [];
    assert AdmittedTimes(cfg, h) == [0.0];
    assert Since(h, -1.0) == [0.0] && Since(h, 0.0) == [0.0];
  }
}
