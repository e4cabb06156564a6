/** Compensation while the shared breaker is open, whatever the other handlers do. */
module OpenBreaker {
  import opened Saga
  import opened Reservations
  import opened Conservation
  import opened Breaker
  import opened SharedBreaker

  /** Moves of one kind that were legal when they were made. */
  function Made(cfg: Config, g: Guarded, ms: seq<Move>, kind: Move -> bool): nat {
    if ms == [] then 0
    else
      var front, m := ms[..|ms| - 1], ms[|ms| - 1];
      Made(cfg, g, front, kind) + if kind(m) && Legal(PlayAll(cfg, g, front), m) then 1 else 0
  }

  function AskBy(who: nat): Move -> bool { (m: Move) => m.Ask? && m.who == who }

  function ServeFor(who: nat): Move -> bool { (m: Move) => m.Serve? && m.who == who }

  predicate IsOf(m: Move, who: nat) {
    match m
    case Other(a) => a.Act? && a.who == who
    case Tick(_) => false
    case Ask(w, _) => w == who
    case Serve(w, _, _) => w == who
    case Settle(w) => w == who
  }

  lemma OthersLeave(cfg: Config, g: Guarded, m: Move, who: nat)
    requires Aligned(g) && who < |g.phases| && !IsOf(m, who)
    ensures var q := Play(cfg, g, m);
            && Aligned(q) && |g.phases| <= |q.phases|
            && q.sys.sessions[who] == g.sys.sessions[who]
            && q.phases[who] == g.phases[who] && q.wake[who] == g.wake[who]
  {
  }

  ghost predicate NoSuccess(g: Guarded, q: Guarded) {
    forall k :: |g.events| <= k < |q.events| ==> !q.events[k].Success?
  }

  lemma {:induction false} OpenStays(cfg: Config, g: Guarded, m: Move, t: int)
    requires OpenSince(After(cfg, g.events), t) && g.clock < t + cfg.openDuration
    requires NoSuccess(g, Play(cfg, g, m))
    ensures OpenSince(After(cfg, Play(cfg, g, m).events), t)
  {
    var q := Play(cfg, g, m);
    if q.events != g.events {
      var e := q.events[|g.events|];
      assert q.events == g.events + [e];
      FromSnoc(cfg, FRESH, g.events, e);
    }
  }

  // --- a compensation that the breaker refuses --------------------------------------------------

  const GAVE_UP := [Bad(CompensationFailed, ReleaseGaveUp), Bad(SagaFailed, NotPersisted)]

  /** What handler h0, at its first release, has become after n refusals. */
  predicate AfterRefusals(h0: Handler, h: Handler, n: nat) {
    if n < ATTEMPTS then
      h.point == Release(n + 1) && Owed(h) == Owed(h0) && h.response == h0.response
    else
      && n == ATTEMPTS && h.point == Done
      && Owed(h) == Owed(h0) + GAVE_UP && h.response == Some(Refused(Internal))
  }

  lemma RefusalStep(h0: Handler, h: Handler, n: nat, message: string)
    requires AfterRefusals(h0, h, n) && h.pending == [] && n < ATTEMPTS
    ensures AfterRefusals(h0, Advance(h, CallFailed(true, message)), n + 1)
  {
    assert Owed(h) == h.trace;
  }

  lemma RecordedStep(h0: Handler, h: Handler, n: nat)
    requires AfterRefusals(h0, h, n) && h.pending != []
    ensures AfterRefusals(h0, Advance(h, Recorded), n)
  {
    assert Owed(Advance(h, Recorded)) == Owed(h);
  }

  /** Session `who`, after n refusals since time c: it is not in a call, its ledger has
      not moved, and it has paused as it must. */
  ghost predicate Waits(g: Guarded, who: nat, x: Session, n: nat, c: int) {
    && Aligned(g) && who < |g.phases| && g.phases[who].Free?
    && AfterRefusals(x.h, g.sys.sessions[who].h, n)
    && g.sys.sessions[who].ledger == x.ledger
    && g.clock >= c + PauseBefore(n)
    && (0 < n < ATTEMPTS ==> g.wake[who] >= c + PauseBefore(n + 1))
  }

  lemma AskedAgain(cfg: Config, g: Guarded, m: Move, who: nat, x: Session, n: nat, c: int, t: int)
    requires Waits(g, who, x, n, c) && m.Ask? && m.who == who && Legal(g, m)
    requires OpenSince(After(cfg, g.events), t) && g.clock < t + cfg.openDuration
    ensures n < ATTEMPTS && Waits(Play(cfg, g, m), who, x, n + 1, c)
  {
    var h := g.sys.sessions[who].h;
    RefusalStep(x.h, h, n, m.message);
    assert Play(cfg, g, m).sys.sessions[who].h == Advance(h, CallFailed(true, m.message));
  }

  lemma RecordedMove(cfg: Config, g: Guarded, m: Move, who: nat, x: Session, n: nat, c: int)
    requires Waits(g, who, x, n, c) && m.Other? && IsOf(m, who) && Legal(g, m)
    ensures Waits(Play(cfg, g, m), who, x, n, c)
  {
    var h := g.sys.sessions[who].h;
    assert h.pending != [];
    RecordedStep(x.h, h, n);
    assert Play(cfg, g, m).sys.sessions[who].h == Advance(h, Recorded);
  }

  lemma WaitsStep(cfg: Config, g: Guarded, m: Move, who: nat, x: Session, n: nat, c: int, t: int)
    requires Waits(g, who, x, n, c) && EventsOk(cfg, g)
    requires OpenSince(After(cfg, g.events), t) && g.clock < t + cfg.openDuration
    ensures Waits(Play(cfg, g, m), who, x, n + (if AskBy(who)(m) && Legal(g, m) then 1 else 0), c)
    ensures !(ServeFor(who)(m) && Legal(g, m))
  {
    if !IsOf(m, who) {
      OthersLeave(cfg, g, m, who);
      EventsOkStep(cfg, g, m);
    } else if Legal(g, m) {
      match m {
        case Ask(_, _) => AskedAgain(cfg, g, m, who, x, n, c, t);
        case Other(_) => RecordedMove(cfg, g, m, who, x, n, c);
        case Serve(_, _, _) => assert false;
        case Settle(_) => assert false;
      }
    }
  }

  lemma {:induction false} NoSuccessFront(cfg: Config, g: Guarded, ms: seq<Move>)
    requires ms != [] && Aligned(g) && EventsOk(cfg, g) && NoSuccess(g, PlayAll(cfg, g, ms))
    ensures var front := ms[..|ms| - 1];
            var before := PlayAll(cfg, g, front);
            && NoSuccess(g, before) && NoSuccess(before, PlayAll(cfg, g, ms))
            && Aligned(before) && EventsOk(cfg, before) && before.clock <= PlayAll(cfg, g, ms).clock
  {
    var front := ms[..|ms| - 1];
    var before := PlayAll(cfg, g, front);
    EventsOkRun(cfg, g, front);
    EventsOkStep(cfg, before, ms[|ms| - 1]);
    assert before.events <= PlayAll(cfg, g, ms).events;
  }

  /** In every interleaving: while the breaker stays open and nobody records a success,
      a saga that has to release asks at most three times, nothing at all is sent for it,
      and after the third refusal it gives up and answers Internal. */
  lemma {:induction false} OpenBreakerStrands(cfg: Config, g: Guarded, who: nat, ms: seq<Move>, t: int)
    requires Aligned(g) && EventsOk(cfg, g) && who < |g.phases| && g.phases[who].Free?
    requires g.sys.sessions[who].h.point == Release(1)
    requires OpenSince(After(cfg, g.events), t)
    requires NoSuccess(g, PlayAll(cfg, g, ms)) && PlayAll(cfg, g, ms).clock < t + cfg.openDuration
    ensures var q := PlayAll(cfg, g, ms);
            && OpenSince(After(cfg, q.events), t)
            && Waits(q, who, g.sys.sessions[who], Made(cfg, g, ms, AskBy(who)), g.clock)
            && Made(cfg, g, ms, ServeFor(who)) == 0
  {
    if ms == [] {
    } else {
      var front, m := ms[..|ms| - 1], ms[|ms| - 1];
      NoSuccessFront(cfg, g, ms);
      OpenBreakerStrands(cfg, g, who, front, t);
      var before := PlayAll(cfg, g, front);
      OpenStays(cfg, before, m, t);
      WaitsStep(cfg, before, m, who, g.sys.sessions[who], Made(cfg, g, front, AskBy(who)), g.clock, t);
    }
  }

  lemma StrandedPath(h0: Handler, h: Handler)
    requires OnPath(h0) && h0.point == Release(1) && AfterRefusals(h0, h, ATTEMPTS)
    ensures States(Owed(h)) == Path(NotPersistedStranded)
    ensures Finished(h) ==> States(h.trace) == Path(NotPersistedStranded)
  {
    StatesConcat(Owed(h0), GAVE_UP);
    assert States(GAVE_UP) == [CompensationFailed, SagaFailed];
    assert Finished(h) ==> Owed(h) == h.trace;
  }

  /** What giving up means: the saga's whole trace ends COMPENSATION_FAILED, FAILED, and
      more than 1.5 s of the open duration were left when the compensation began. */
  lemma {:induction false} GaveUp(cfg: Config, g: Guarded, who: nat, ms: seq<Move>, t: int)
    requires Aligned(g) && EventsOk(cfg, g) && who < |g.phases| && g.phases[who].Free?
    requires g.sys.sessions[who].h.point == Release(1) && OnPath(g.sys.sessions[who].h)
    requires OpenSince(After(cfg, g.events), t)
    requires NoSuccess(g, PlayAll(cfg, g, ms)) && PlayAll(cfg, g, ms).clock < t + cfg.openDuration
    requires Made(cfg, g, ms, AskBy(who)) >= ATTEMPTS
    ensures var q := PlayAll(cfg, g, ms);
            && who < |q.sys.sessions|
            && var x := q.sys.sessions[who];
            && x.h.point == Done && x.h.response == Some(Refused(Internal))
            && States(Owed(x.h)) == Path(NotPersistedStranded)
            && (Finished(x.h) ==> States(x.h.trace) == Path(NotPersistedStranded))
            && x.ledger == g.sys.sessions[who].ledger
            && g.clock + 1500 <= q.clock < t + cfg.openDuration
  {
    OpenBreakerStrands(cfg, g, who, ms, t);
    StrandedPath(g.sys.sessions[who].h, PlayAll(cfg, g, ms).sys.sessions[who].h);
    PauseTotal(2);
  }

  /** The same over whole runs, from any initial stock and with any moves before and after:
      the saga's unit was blocked, is never given back, and the saga says so. */
  lemma {:induction false} RefusedCompensation(cfg: Config, stock: map<string, int>, before: seq<Move>,
                                               after: seq<Move>, who: nat, t: int)
    requires GoodStock(stock)
    requires var g := PlayAll(cfg, AtRest(stock), before);
             && Aligned(g) && who < |g.phases| && g.phases[who].Free?
             && g.sys.sessions[who].h.point == Release(1)
             && OpenSince(After(cfg, g.events), t)
             && NoSuccess(g, PlayAll(cfg, g, after)) && PlayAll(cfg, g, after).clock < t + cfg.openDuration
             && Made(cfg, g, after, AskBy(who)) >= ATTEMPTS
    ensures var q := PlayAll(cfg, PlayAll(cfg, AtRest(stock), before), after);
            && who < |q.sys.sessions|
            && var x := q.sys.sessions[who];
            && x.h.response == Some(Refused(Internal))
            && States(Owed(x.h)) == Path(NotPersistedStranded)
            && x.ledger.blocks == 1 && x.ledger.releases == 0
  {
    var g := PlayAll(cfg, AtRest(stock), before);
    ProbeIsInFlight(cfg, stock, before);
    GuardedSessionOk(cfg, stock, before, who);
    GaveUp(cfg, g, who, after, t);
  }

  lemma GuardedSessionOk(cfg: Config, stock: map<string, int>, ms: seq<Move>, who: nat)
    requires GoodStock(stock) && who < |PlayAll(cfg, AtRest(stock), ms).sys.sessions|
    ensures var s := PlayAll(cfg, AtRest(stock), ms).sys;
            SessionOk(s.sessions[who], s.stock)
  {
    var actions := PlayIsRun(cfg, stock, ms);
    RunOk(stock, actions);
  }

  /** And it is final: whatever comes later, no call is sent for a saga that is done. */
  lemma {:induction false} DoneForGood(cfg: Config, g: Guarded, who: nat, ms: seq<Move>)
    requires Aligned(g) && who < |g.phases| && g.phases[who].Free? && g.sys.sessions[who].h.point == Done
    ensures var q := PlayAll(cfg, g, ms);
            && Aligned(q) && who < |q.phases| && q.phases[who].Free?
            && var x, y := g.sys.sessions[who], q.sys.sessions[who];
            && y.h.point == Done && y.ledger == x.ledger
            && Owed(y.h) == Owed(x.h) && y.h.response == x.h.response
    ensures Made(cfg, g, ms, ServeFor(who)) == 0
  {
    if ms == [] {
    } else {
      var front, m := ms[..|ms| - 1], ms[|ms| - 1];
      DoneForGood(cfg, g, who, front);
      DoneStep(cfg, PlayAll(cfg, g, front), m, who);
    }
  }

  lemma DoneStep(cfg: Config, g: Guarded, m: Move, who: nat)
    requires Aligned(g) && who < |g.phases| && g.phases[who].Free? && g.sys.sessions[who].h.point == Done
    ensures var q := Play(cfg, g, m);
            && Aligned(q) && who < |q.phases| && q.phases[who].Free?
            && var x, y := g.sys.sessions[who], q.sys.sessions[who];
            && y.h.point == Done && y.ledger == x.ledger
            && Owed(y.h) == Owed(x.h) && y.h.response == x.h.response
    ensures !(ServeFor(who)(m) && Legal(g, m))
  {
    if !IsOf(m, who) {
      OthersLeave(cfg, g, m, who);
    } else if Legal(g, m) {
      assert m.Other? && m.a.input.WriteIn?;
      var h := g.sys.sessions[who].h;
      assert Owed(Advance(h, Recorded)) == Owed(h);
    }
  }

  // --- when nobody is in a call -------------------------------------------------------------------

  /** With no call in flight when the breaker is open, no success can come: until the
      open duration has passed nothing is sent for anybody. */
  lemma {:induction false} QuietStays(cfg: Config, g: Guarded, ms: seq<Move>, t: int)
    requires Aligned(g) && EventsOk(cfg, g) && Busy(g.phases) == 0 && OpenSince(After(cfg, g.events), t)
    requires PlayAll(cfg, g, ms).clock < t + cfg.openDuration
    ensures var q := PlayAll(cfg, g, ms);
            Aligned(q) && Busy(q.phases) == 0 && OpenSince(After(cfg, q.events), t) && NoSuccess(g, q)
    ensures Made(cfg, g, ms, (m: Move) => m.Serve?) == 0
  {
    if ms == [] {
    } else {
      var front, m := ms[..|ms| - 1], ms[|ms| - 1];
      var before := PlayAll(cfg, g, front);
      EventsOkRun(cfg, g, front);
      EventsOkStep(cfg, before, m);
      QuietStays(cfg, g, front, t);
      QuietStep(cfg, before, m, t);
    }
  }

  lemma {:induction false} QuietStep(cfg: Config, g: Guarded, m: Move, t: int)
    requires Aligned(g) && Busy(g.phases) == 0 && OpenSince(After(cfg, g.events), t)
    requires g.clock < t + cfg.openDuration
    ensures var q := Play(cfg, g, m);
            && Aligned(q) && Busy(q.phases) == 0 && OpenSince(After(cfg, q.events), t)
            && g.events <= q.events && NoSuccess(g, q)
    ensures !(m.Serve? && Legal(g, m))
  {
    AllFree(g.phases);
    AllFree(Play(cfg, g, m).phases);
    OpenStays(cfg, g, m, t);
  }
}
