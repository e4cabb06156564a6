/** The circuit breaker of the reservation service (mi-servicio/circuitbreaker.go).
    allow and record* are separate critical sections, so a call admitted in one
    episode may complete in any later one: histories are arbitrary sequences of
    admission requests and outcomes. Times are nanoseconds of a monotone clock. */
module Breaker {

  datatype CircuitState = Closed | Open | HalfOpen

  datatype Config = Config(failureThreshold: int, openDuration: int)

  datatype Snapshot = Snapshot(state: CircuitState, failures: int, openedAt: int, inFlight: bool)

  datatype Event = Allow(now: int) | Success(now: int) | Failure(now: int)

  const FRESH := Snapshot(Closed, 0, 0, false)

  // --- the specification: a fold over the history ---------------------------------------------

  function Transition(s: Snapshot, to: CircuitState, now: int): Snapshot {
    s.(state := to,
       openedAt := if to == Open then now else s.openedAt,
       failures := if to == Closed then 0 else s.failures)
  }

  predicate Admits(cfg: Config, s: Snapshot, now: int) {
    match s.state
    case Closed => true
    case Open => now - s.openedAt >= cfg.openDuration
    case HalfOpen => !s.inFlight
  }

  function Next(cfg: Config, s: Snapshot, e: Event): Snapshot {
    match e
    case Allow(now) =>
      if !Admits(cfg, s, now) || s.state == Closed then s
      else if s.state == Open then Transition(s, HalfOpen, now).(inFlight := true)
      else s.(inFlight := true)
    case Success(now) =>
      if s.state == Closed then s.(inFlight := false) else Transition(s.(inFlight := false), Closed, now)
    case Failure(now) =>
      if s.state == HalfOpen then Transition(s.(inFlight := false), Open, now)
      else
        var t := s.(inFlight := false, failures := s.failures + 1);
        if t.state == Closed && t.failures >= cfg.failureThreshold then Transition(t, Open, now) else t
  }

  function From(cfg: Config, s: Snapshot, h: seq<Event>): Snapshot {
    if h == [] then s else Next(cfg, From(cfg, s, h[..|h| - 1]), h[|h| - 1])
  }

  function After(cfg: Config, h: seq<Event>): Snapshot {
    From(cfg, FRESH, h)
  }

  lemma {:induction false} FromSnoc(cfg: Config, s: Snapshot, h: seq<Event>, e: Event)
    ensures From(cfg, s, h + [e]) == Next(cfg, From(cfg, s, h), e)
  {
    assert (h + [e])[..|h|] == h;
  }

  predicate Admitted(cfg: Config, h: seq<Event>, k: nat)
    requires k < |h|
  {
    h[k].Allow? && Admits(cfg, After(cfg, h[..k]), h[k].now)
  }

  // --- the class -------------------------------------------------------------------------------------

  datatype Outcome<+T> = Returned(value: T) | Raised(error: string)

  datatype Answer<+T> = Result(value: T) | Error(error: string) | CircuitOpen

  class CircuitBreaker {
    const cfg: Config
    var state: CircuitState
    var consecutiveFailures: int
    var openedAt: int
    var halfOpenInFlight: bool
    ghost var history: seq<Event>

    ghost function Now(): Snapshot
      reads this
    {
      Snapshot(state, consecutiveFailures, openedAt, halfOpenInFlight)
    }

    ghost predicate Valid()
      reads this
    {
      Now() == After(cfg, history)
    }

    constructor (cfg: Config)
      ensures Valid() && this.cfg == cfg && history == []
    {
      this.cfg := cfg;
      state, consecutiveFailures, openedAt, halfOpenInFlight := Closed, 0, 0, false;
      history := [];
    }

    method Allow(now: int) returns (ok: bool)
      requires Valid()
      modifies this
      ensures Valid() && history == old(history) + [Event.Allow(now)]
      ensures ok == Admits(cfg, old(Now()), now)
      ensures ok <==> (old(state) == Open ==> now - old(openedAt) >= cfg.openDuration)
                      && (old(state) == HalfOpen ==> !old(halfOpenInFlight))
      ensures state == if ok && old(state) == Open then HalfOpen else old(state)
      ensures halfOpenInFlight == (old(halfOpenInFlight) || (ok && old(state) != Closed))
      ensures consecutiveFailures == old(consecutiveFailures) && openedAt == old(openedAt)
    {
      FromSnoc(cfg, FRESH, history, Event.Allow(now));
      history := history + [Event.Allow(now)];
      match state {
        case Closed => ok := true;
        case Open =>
          if now - openedAt < cfg.openDuration {
            return false;
          }
          TransitionLocked(HalfOpen, now);
          halfOpenInFlight := true;
          ok := true;
        case HalfOpen =>
          if halfOpenInFlight {
            return false;
          }
          halfOpenInFlight := true;
          ok := true;
      }
    }

    method RecordSuccess(now: int)
      requires Valid()
      modifies this
      ensures Valid() && history == old(history) + [Success(now)]
      ensures state == Closed && !halfOpenInFlight && openedAt == old(openedAt)
      ensures consecutiveFailures == if old(state) == Closed then old(consecutiveFailures) else 0
    {
      FromSnoc(cfg, FRESH, history, Success(now));
      history := history + [Success(now)];
      halfOpenInFlight := false;
      if state != Closed {
        TransitionLocked(Closed, now);
      }
    }

    method RecordFailure(now: int)
      requires Valid()
      modifies this
      ensures Valid() && history == old(history) + [Failure(now)]
      ensures !halfOpenInFlight
      ensures consecutiveFailures == old(consecutiveFailures) + if old(state) == HalfOpen then 0 else 1
      ensures state == (if old(state) == HalfOpen || consecutiveFailures >= cfg.failureThreshold then Open
                        else old(state))
      ensures openedAt == if state == Open && old(state) != Open then now else old(openedAt)
    {
      FromSnoc(cfg, FRESH, history, Failure(now));
      history := history + [Failure(now)];
      halfOpenInFlight := false;
      if state == HalfOpen {
        TransitionLocked(Open, now);
        return;
      }
      consecutiveFailures := consecutiveFailures + 1;
      if state == Closed && consecutiveFailures >= cfg.failureThreshold {
        TransitionLocked(Open, now);
      }
    }

    method TransitionLocked(to: CircuitState, now: int)
      modifies `state, `openedAt, `consecutiveFailures
      ensures Now() == Transition(old(Now()), to, now)
    {
      state := to;
      if to == Open {
        openedAt := now;
      }
      if to == Closed {
        consecutiveFailures := 0;
      }
    }

    /** Execute, when no other call comes between its two critical sections; any
        error at all, business errors included, is recorded as a failure. */
    method Execute<T>(outcome: Outcome<T>, now: int, done: int) returns (answer: Answer<T>)
      requires Valid()
      modifies this
      ensures Valid()
      ensures answer == if !Admits(cfg, old(Now()), now) then CircuitOpen
                        else if outcome.Returned? then Result(outcome.value) else Error(outcome.error)
      ensures history == old(history) + [Event.Allow(now)] +
                         if answer.CircuitOpen? then []
                         else if outcome.Returned? then [Success(done)] else [Failure(done)]
      ensures InFlight(cfg, history) == old(InFlight(cfg, history))
    {
      ghost var before := history;
      var ok := Allow(now);
      InFlightSnoc(cfg, before, Event.Allow(now));
      if !ok {
        return CircuitOpen;
      }
      ghost var admitted := history;
      if outcome.Raised? {
        RecordFailure(done);
        InFlightSnoc(cfg, admitted, Failure(done));
        return Error(outcome.error);
      }
      RecordSuccess(done);
      InFlightSnoc(cfg, admitted, Success(done));
      return Result(outcome.value);
    }
  }

  // --- invariants under arbitrary late completions -------------------------------------------------------

  /** The failures it takes to open: a threshold below one acts as one. */
  function Needed(cfg: Config): int {
    if cfg.failureThreshold < 1 then 1 else cfg.failureThreshold
  }

  predicate Coherent(cfg: Config, s: Snapshot) {
    && (s.inFlight <==> s.state == HalfOpen)
    && (s.state == Closed <==> s.failures < Needed(cfg))
    && s.failures >= 0
  }

  lemma {:induction false} AlwaysCoherent(cfg: Config, h: seq<Event>)
    ensures Coherent(cfg, After(cfg, h))
    ensures After(cfg, h).inFlight <==> After(cfg, h).state == HalfOpen
    ensures cfg.failureThreshold >= 1 ==>
              (After(cfg, h).state == Closed <==> After(cfg, h).failures < cfg.failureThreshold)
    ensures cfg.failureThreshold < 1 ==> (After(cfg, h).state == Closed <==> After(cfg, h).failures == 0)
  {
    if h == [] {
    } else {
      AlwaysCoherent(cfg, h[..|h| - 1]);
    }
  }

  /** One call is admitted per HALF_OPEN episode: the one that starts it. The first
      outcome recorded, of whatever call, ends it. */
  lemma OneProbePerEpisode(cfg: Config, h: seq<Event>, i: nat, j: nat)
    requires i < j <= |h|
    requires After(cfg, h[..i]).state != HalfOpen
    requires forall k :: i < k <= j ==> After(cfg, h[..k]).state == HalfOpen
    ensures Admitted(cfg, h, i)
    ensures forall k :: i < k < j ==> !Admitted(cfg, h, k) && h[k].Allow?
    ensures j < |h| && !h[j].Allow? ==>
              After(cfg, h[..j + 1]).state == (if h[j].Success? then Closed else Open)
  {
    assert h[..i + 1][..i] == h[..i];
    forall k | i < k < j
      ensures !Admitted(cfg, h, k) && h[k].Allow?
    {
      AlwaysCoherent(cfg, h[..k]);
      assert h[..k + 1][..k] == h[..k];
      assert After(cfg, h[..k + 1]).state == HalfOpen;
    }
    if j < |h| {
      assert h[..j + 1][..j] == h[..j];
    }
  }

  // --- fail fast ------------------------------------------------------------------------------------------------

  predicate Monotone(h: seq<Event>) {
    forall i, j :: 0 <= i < j < |h| ==> h[i].now <= h[j].now
  }

  predicate OpenSince(s: Snapshot, t: int) {
    s.state == Open && s.openedAt == t
  }

  /** Once open at t, the breaker stays so, with openedAt unmoved by any failure,
      until openDuration has passed or a call admitted earlier records a success; in
      that time every call is refused. The first call after it is admitted. */
  lemma {:induction false} FailFast(cfg: Config, h: seq<Event>, i: nat, j: nat, t: int)
    requires i <= j < |h| && Monotone(h) && OpenSince(After(cfg, h[..i]), t)
    requires forall k :: i <= k < j ==> !h[k].Success?
    requires forall k :: i <= k < j && h[k].Allow? ==> h[k].now < t + cfg.openDuration
    ensures OpenSince(After(cfg, h[..j]), t)
    ensures h[j].Allow? ==> (Admitted(cfg, h, j) <==> h[j].now >= t + cfg.openDuration)
    decreases j
  {
    if i < j {
      FailFast(cfg, h, i, j - 1, t);
      assert h[..j][..j - 1] == h[..j - 1];
      assert h[j - 1].Allow? ==> !Admitted(cfg, h, j - 1);
    }
  }

  /** So of any attempts made while it is open, however many events of other calls come
      between them, none is admitted until the duration has passed or a success comes. */
  lemma {:induction false} RefusedUntil(cfg: Config, h: seq<Event>, i: nat, j: nat, t: int)
    requires i <= j < |h| && Monotone(h) && OpenSince(After(cfg, h[..i]), t)
    requires forall k :: i <= k < j ==> !h[k].Success?
    requires h[j].now < t + cfg.openDuration
    ensures forall k :: i <= k <= j && h[k].Allow? ==> !Admitted(cfg, h, k)
  {
    forall k | i <= k <= j && h[k].Allow?
      ensures !Admitted(cfg, h, k)
    {
      FailFast(cfg, h, i, k, t);
    }
  }

  /** Event i opens the breaker, from CLOSED or from HALF_OPEN. */
  predicate Opens(cfg: Config, h: seq<Event>, i: nat)
    requires i < |h|
  {
    After(cfg, h[..i]).state != Open && After(cfg, h[..i + 1]).state == Open
  }

  /** Opening and reopening are stamped alike, with the time of the event, a failure. */
  lemma {:induction false} OpenedThen(cfg: Config, h: seq<Event>, i: nat)
    requires i < |h| && Opens(cfg, h, i)
    ensures h[i].Failure? && After(cfg, h[..i + 1]).openedAt == h[i].now
  {
    assert h[..i + 1][..i] == h[..i];
  }

  /** Fail fast from the event that opened the breaker: until openDuration has passed since
      then, or a success is recorded, no call is admitted; the first call after is. */
  lemma {:induction false} FailFastSinceOpening(cfg: Config, h: seq<Event>, i: nat, j: nat)
    requires i < j < |h| && Monotone(h) && Opens(cfg, h, i)
    requires forall k :: i < k < j ==> !h[k].Success?
    requires forall k :: i < k < j && h[k].Allow? ==> h[k].now - h[i].now < cfg.openDuration
    ensures h[j].Allow? ==> (Admitted(cfg, h, j) <==> h[j].now - h[i].now >= cfg.openDuration)
    ensures After(cfg, h[..j]).state == Open && After(cfg, h[..j]).openedAt == h[i].now
  {
    OpenedThen(cfg, h, i);
    FailFast(cfg, h, i + 1, j, h[i].now);
  }

  lemma {:induction false} RefusedSinceOpening(cfg: Config, h: seq<Event>, i: nat, j: nat)
    requires i < j < |h| && Monotone(h) && Opens(cfg, h, i)
    requires forall k :: i < k < j ==> !h[k].Success?
    requires h[j].now - h[i].now < cfg.openDuration
    ensures forall k :: i < k <= j && h[k].Allow? ==> !Admitted(cfg, h, k)
  {
    OpenedThen(cfg, h, i);
    RefusedUntil(cfg, h, i + 1, j, h[i].now);
  }

  /** A closed breaker admits every call. */
  lemma {:induction false} ClosedAdmits(cfg: Config, h: seq<Event>, j: nat)
    requires j < |h| && h[j].Allow? && After(cfg, h[..j]).state == Closed
    ensures Admitted(cfg, h, j) && After(cfg, h[..j + 1]) == After(cfg, h[..j])
  {
    assert h[..j + 1][..j] == h[..j];
  }

  /** Calls admitted and not yet completed. */
  function InFlight(cfg: Config, h: seq<Event>): int {
    if h == [] then 0
    else
      var front, e := h[..|h| - 1], h[|h| - 1];
      InFlight(cfg, front) +
      if e.Allow? then (if Admits(cfg, After(cfg, front), e.now) then 1 else 0) else -1
  }

  lemma {:induction false} InFlightSnoc(cfg: Config, h: seq<Event>, e: Event)
    ensures InFlight(cfg, h + [e]) ==
            InFlight(cfg, h) + if e.Allow? then (if Admits(cfg, After(cfg, h), e.now) then 1 else 0) else -1
  {
    assert (h + [e])[..|h|] == h;
  }

  /** Every outcome belongs to a call that was admitted before it. */
  predicate WellFormed(cfg: Config, h: seq<Event>) {
    forall k :: 0 <= k <= |h| ==> InFlight(cfg, h[..k]) >= 0
  }

  /** If no call is in flight when the breaker is open - always so when calls do not
      overlap, since Execute leaves their number as it was - the whole openDuration
      is refused, whatever else happens. */
  lemma {:induction false} WholeDurationRefused(cfg: Config, h: seq<Event>, i: nat, j: nat, t: int)
    requires i <= j < |h| && Monotone(h) && WellFormed(cfg, h)
    requires OpenSince(After(cfg, h[..i]), t) && InFlight(cfg, h[..i]) == 0
    requires h[j].now < t + cfg.openDuration
    ensures OpenSince(After(cfg, h[..j]), t) && InFlight(cfg, h[..j]) == 0
    ensures h[j].Allow? && !Admitted(cfg, h, j)
    decreases j
  {
    if i < j {
      WholeDurationRefused(cfg, h, i, j - 1, t);
      assert h[..j][..j - 1] == h[..j - 1];
    }
    assert h[..j + 1][..j] == h[..j];
    assert InFlight(cfg, h[..j + 1]) >= 0;
  }

  // --- what consecutiveFailures counts ------------------------------------------------------------------------------

  /** The index just after the event that last closed the breaker, or 0. */
  function LastClose(cfg: Config, h: seq<Event>): (c: nat)
    ensures c <= |h|
    ensures c > 0 ==> h[c - 1].Success? && After(cfg, h[..c - 1]).state != Closed
    ensures forall k :: c <= k < |h| && h[k].Success? ==> After(cfg, h[..k]).state == Closed
  {
    if h == [] then 0
    else
      var front := h[..|h| - 1];
      if h[|h| - 1].Success? && After(cfg, front).state != Closed then |h|
      else
        var c := LastClose(cfg, front);
        assert forall k :: 0 <= k <= |front| ==> front[..k] == h[..k];
        c
  }

  /** Failures recorded outside HALF_OPEN from index c on. */
  function FailuresOutside(cfg: Config, h: seq<Event>, c: nat): nat {
    if |h| <= c then 0
    else
      var front := h[..|h| - 1];
      FailuresOutside(cfg, front, c) +
      if h[|h| - 1].Failure? && After(cfg, front).state != HalfOpen then 1 else 0
  }

  /** Failures that end the history from index c on, calls still asking left aside. */
  function Trailing(h: seq<Event>, c: nat): nat {
    if |h| <= c then 0
    else if h[|h| - 1].Failure? then Trailing(h[..|h| - 1], c) + 1
    else if h[|h| - 1].Success? then 0
    else Trailing(h[..|h| - 1], c)
  }

  /** consecutiveFailures is the number of failures recorded outside HALF_OPEN since
      the last close, whatever successes came between ... */
  lemma {:induction false} FailuresSinceClose(cfg: Config, h: seq<Event>)
    ensures After(cfg, h).failures == FailuresOutside(cfg, h, LastClose(cfg, h))
  {
    if h == [] {
    } else {
      FailuresSinceClose(cfg, h[..|h| - 1]);
    }
  }

  lemma {:induction false} TrailingIsLess(cfg: Config, h: seq<Event>, c: nat)
    requires forall k :: c <= k <= |h| ==> After(cfg, h[..k]).state == Closed
    ensures Trailing(h, c) <= FailuresOutside(cfg, h, c)
  {
    if |h| > c {
      var front := h[..|h| - 1];
      assert forall k :: c <= k <= |front| ==> front[..k] == h[..k];
      TrailingIsLess(cfg, front, c);
      assert After(cfg, h[..|front|]).state == Closed;
    }
  }

  lemma {:induction false} ClosedSince(cfg: Config, h: seq<Event>, k: nat)
    requires After(cfg, h).state == Closed && LastClose(cfg, h) <= k <= |h|
    ensures After(cfg, h[..k]).state == Closed
    decreases |h|
  {
    if k < |h| {
      var front := h[..|h| - 1];
      assert h[..k] == front[..k];
      assert After(cfg, front).state == Closed;
      ClosedSince(cfg, front, k);
    } else {
      assert h[..k] == h;
    }
  }

  /** ... so the last failureThreshold outcomes since closing are never all failures
      while the breaker is closed. */
  lemma {:induction false} EnoughFailuresOpen(cfg: Config, h: seq<Event>)
    requires Trailing(h, LastClose(cfg, h)) >= cfg.failureThreshold && Trailing(h, LastClose(cfg, h)) >= 1
    ensures After(cfg, h).state != Closed
  {
    if After(cfg, h).state == Closed {
      forall k | LastClose(cfg, h) <= k <= |h|
        ensures After(cfg, h[..k]).state == Closed
      {
        ClosedSince(cfg, h, k);
      }
      TrailingIsLess(cfg, h, LastClose(cfg, h));
      FailuresSinceClose(cfg, h);
      AlwaysCoherent(cfg, h);
    }
  }

  /** The converse, which the class comment promises, fails: two failures with a
      success between them open a breaker of threshold two. */
  lemma NotConsecutive()
    ensures var h := [Failure(1), Success(2), Failure(3)];
            && After(Config(2, 10), h).state == Open
            && Trailing(h, LastClose(Config(2, 10), h)) == 1
  {
    var cfg := Config(2, 10);
    var h1, h2 := [Failure(1)], [Failure(1), Success(2)];
    var h3 := [Failure(1), Success(2), Failure(3)];
    assert h1[..0] == [] && h2[..1] == h1 && h3[..2] == h2;
    assert After(cfg, []) == FRESH;
    assert After(cfg, h1) == Snapshot(Closed, 1, 0, false);
    assert After(cfg, h2) == Snapshot(Closed, 1, 0, false);
    assert LastClose(cfg, h1) == 0 && LastClose(cfg, h2) == 0;
  }

  function Failures(h: seq<Event>): nat {
    if h == [] then 0 else Failures(h[..|h| - 1]) + if h[|h| - 1].Failure? then 1 else 0
  }

  /** The breaker is closed after every prefix of h. */
  predicate ClosedThroughout(cfg: Config, s: Snapshot, h: seq<Event>) {
    From(cfg, s, h).state == Closed && (h != [] ==> ClosedThroughout(cfg, s, h[..|h| - 1]))
  }

  predicate JustClosed(s: Snapshot) {
    s.state == Closed && s.failures == 0
  }

  /** A breaker just closed stays closed exactly while the failures number less than
      the threshold, in whatever order they come. */
  lemma {:induction false} TripsOnTotal(cfg: Config, s: Snapshot, h: seq<Event>)
    requires JustClosed(s)
    ensures cfg.failureThreshold >= 1 ==> (ClosedThroughout(cfg, s, h) <==> Failures(h) < cfg.failureThreshold)
    ensures cfg.failureThreshold < 1 ==> (ClosedThroughout(cfg, s, h) <==> Failures(h) == 0)
    ensures ClosedThroughout(cfg, s, h) ==> From(cfg, s, h).failures == Failures(h)
  {
    if h == [] {
    } else {
      TripsOnTotal(cfg, s, h[..|h| - 1]);
    }
  }

  /** No success comes after a failure. */
  predicate FailuresLast(h: seq<Event>) {
    forall i, j :: 0 <= i < j < |h| && h[i].Failure? ==> !h[j].Success?
  }

  lemma {:induction false} NoFailures(h: seq<Event>)
    ensures Failures(h) == 0 <==> forall i :: 0 <= i < |h| ==> !h[i].Failure?
  {
    if h == [] {
    } else {
      NoFailures(h[..|h| - 1]);
    }
  }

  lemma {:induction false} FailuresLastSnoc(front: seq<Event>, e: Event)
    ensures FailuresLast(front + [e]) <==> FailuresLast(front) && (e.Success? ==> Failures(front) == 0)
  {
    var h := front + [e];
    NoFailures(front);
    if FailuresLast(h) {
      forall i, j | 0 <= i < j < |front| && front[i].Failure?
        ensures !front[j].Success?
      {
        assert h[i].Failure? && !h[j].Success?;
      }
      forall i | 0 <= i < |front| && e.Success?
        ensures !front[i].Failure?
      {
        assert h[|front|] == e && h[i] == front[i];
      }
    }
  }

  /** After every prefix of h the counter is the length of the run of failures that ends it. */
  predicate CountsConsecutive(cfg: Config, s: Snapshot, h: seq<Event>) {
    From(cfg, s, h).failures == Trailing(h, 0) && (h != [] ==> CountsConsecutive(cfg, s, h[..|h| - 1]))
  }

  /** While it is closed, the counter is what its name says exactly when no success came
      after a failure. */
  lemma {:induction false} ConsecutiveExactly(cfg: Config, s: Snapshot, h: seq<Event>)
    requires JustClosed(s) && ClosedThroughout(cfg, s, h)
    ensures CountsConsecutive(cfg, s, h) <==> FailuresLast(h)
  {
    if h == [] {
    } else {
      var front, e := h[..|h| - 1], h[|h| - 1];
      assert h == front + [e];
      ConsecutiveExactly(cfg, s, front);
      TripsOnTotal(cfg, s, front);
      FailuresLastSnoc(front, e);
    }
  }
}
