/** The reservation system with the inventory breaker that its handlers share. A call to
    inventory is three moves of its handler, between which any other handler may move:
    ask the breaker, have the call served, record the outcome. Times are milliseconds. */
module SharedBreaker {
  import opened Network
  import opened Saga
  import opened Reservations
  import opened Conservation
  import opened Breaker

  /** Where a handler stands in a call to inventory. */
  datatype Phase = Free | Calling | Heard(ok: bool)

  /** The system, the history of its inventory breaker, and for each session its phase
      and the time it has to pause until. */
  datatype Guarded = Guarded(sys: System, events: seq<Event>, phases: seq<Phase>, wake: seq<int>, clock: int)

  datatype Move =
    | Other(a: Action)
    | Tick(elapsed: nat)
    | Ask(who: nat, message: string)
    | Serve(who: nat, d: Delivery, message: string)
    | Settle(who: nat)

  function AtRest(stock: map<string, int>): Guarded {
    Guarded(Initial(stock), [], [], [], 0)
  }

  predicate Aligned(g: Guarded) {
    |g.phases| == |g.wake| == |g.sys.sessions|
  }

  predicate WantsStock(h: Handler) {
    h.pending == [] && (h.point == LockStock || h.point.Release?)
  }

  predicate Legal(g: Guarded, m: Move) {
    && Aligned(g)
    && match m
       case Other(a) => a.Arrive? || (Fits(g.sys, a) && g.phases[a.who].Free? && !a.input.StockIn?)
       case Tick(_) => true
       case Ask(who, _) =>
         who < |g.phases| && g.phases[who].Free? && WantsStock(g.sys.sessions[who].h) && g.wake[who] <= g.clock
       case Serve(who, _, _) => who < |g.phases| && g.phases[who].Calling? && WantsStock(g.sys.sessions[who].h)
       case Settle(who) => who < |g.phases| && g.phases[who].Heard?
  }

  /** The sleep that follows failed attempt k comes before attempt k + 1. */
  function PauseOf(h: Handler): int {
    if h.point.Release? then (h.point.attempt - 1) * PAUSE else 0
  }

  function Refusal(message: string): Input {
    StockIn(NotApplied, true, message)
  }

  /** The next state; a move that is not legal changes nothing. */
  function Play(cfg: Config, g: Guarded, m: Move): Guarded {
    if !Legal(g, m) then g
    else match m
      case Other(a) =>
        if a.Arrive? then
          g.(sys := Step(g.sys, a), phases := g.phases + [Free], wake := g.wake + [g.clock])
        else g.(sys := Step(g.sys, a))
      case Tick(elapsed) => g.(clock := g.clock + elapsed)
      case Ask(who, message) =>
        var events := g.events + [Allow(g.clock)];
        if Admits(cfg, After(cfg, g.events), g.clock) then g.(events := events, phases := g.phases[who := Calling])
        else
          var sys := Step(g.sys, Act(who, Refusal(message)));
          g.(sys := sys, events := events, wake := g.wake[who := g.clock + PauseOf(sys.sessions[who].h)])
      case Serve(who, d, message) =>
        var input := StockIn(d, false, message);
        g.(sys := Step(g.sys, Act(who, input)),
           phases := g.phases[who := Heard(StockAnswer(g.sys, g.sys.sessions[who].h, input).seen.StockStatus?)])
      case Settle(who) =>
        g.(events := g.events + [if g.phases[who].ok then Success(g.clock) else Failure(g.clock)],
           phases := g.phases[who := Free],
           wake := g.wake[who := g.clock + PauseOf(g.sys.sessions[who].h)])
  }

  function PlayAll(cfg: Config, g: Guarded, ms: seq<Move>): Guarded {
    if ms == [] then g else Play(cfg, PlayAll(cfg, g, ms[..|ms| - 1]), ms[|ms| - 1])
  }

  lemma {:induction false} PlayAllSnoc(cfg: Config, g: Guarded, ms: seq<Move>, m: Move)
    ensures PlayAll(cfg, g, ms + [m]) == Play(cfg, PlayAll(cfg, g, ms), m)
  {
    assert (ms + [m])[..|ms|] == ms;
  }

  /** What the breaker is told of a call: any status is a success, true or false, and any
      error a failure, whatever was done to the stock. */
  lemma ToldExactly(cfg: Config, g: Guarded, who: nat, d: Delivery, message: string)
    requires Legal(g, Serve(who, d, message)) && GoodStock(g.sys.stock)
    ensures var h := g.sys.sessions[who].h;
            var q := Play(cfg, g, Serve(who, d, message));
            var room := h.req.room;
            && Legal(q, Settle(who))
            && (q.phases[who] == Heard(true) <==>
                d == Acked && if h.point == LockStock then room in g.sys.stock && g.sys.stock[room] >= 1
                              else room !in g.sys.stock || g.sys.stock[room] < 0x7fff_ffff)
            && Play(cfg, q, Settle(who)).events ==
               q.events + [if q.phases[who] == Heard(true) then Success(q.clock) else Failure(q.clock)]
            && Play(cfg, q, Settle(who)).phases[who] == Free
  {
    CallExactly(g.sys.stock, g.sys.sessions[who].h.req.room, g.sys.sessions[who].h.point == LockStock,
                StockIn(d, false, message));
  }

  // --- it is the reservation system, so it keeps all that keeps -----------------------------

  /** What a move does to the tables and handlers: one action, or none. */
  function Effect(cfg: Config, g: Guarded, m: Move): seq<Action> {
    if !Legal(g, m) then []
    else match m
      case Other(a) => [a]
      case Tick(_) => []
      case Ask(who, message) =>
        if Admits(cfg, After(cfg, g.events), g.clock) then [] else [Act(who, Refusal(message))]
      case Serve(who, d, message) => [Act(who, StockIn(d, false, message))]
      case Settle(_) => []
  }

  lemma PlayEffect(cfg: Config, g: Guarded, m: Move)
    ensures var e := Effect(cfg, g, m);
            Play(cfg, g, m).sys == if e == [] then g.sys else Step(g.sys, e[0])
    ensures |Effect(cfg, g, m)| <= 1
    ensures Aligned(g) ==> Aligned(Play(cfg, g, m))
  {
  }

  /** Every interleaving under the shared breaker is a run of the reservation system. */
  lemma {:induction false} PlayIsRun(cfg: Config, stock: map<string, int>, ms: seq<Move>) returns (actions: seq<Action>)
    ensures PlayAll(cfg, AtRest(stock), ms).sys == Run(Initial(stock), actions)
    ensures Aligned(PlayAll(cfg, AtRest(stock), ms))
  {
    if ms == [] {
      actions := [];
    } else {
      var front, m := ms[..|ms| - 1], ms[|ms| - 1];
      var before := PlayIsRun(cfg, stock, front);
      var g := PlayAll(cfg, AtRest(stock), front);
      PlayEffect(cfg, g, m);
      var e := Effect(cfg, g, m);
      if e == [] {
        actions := before;
      } else {
        actions := before + [e[0]];
        assert actions[..|before|] == before;
      }
    }
  }

  /** ... so with the shared breaker, too, every unit is accounted for. */
  lemma {:induction false} GuardedConserves(cfg: Config, stock: map<string, int>, ms: seq<Move>, room: string)
    requires GoodStock(stock) && room in stock
    ensures var s := PlayAll(cfg, AtRest(stock), ms).sys;
            room in s.stock && Accountable(s, room) == stock[room] + Drift(s, room)
  {
    var actions := PlayIsRun(cfg, stock, ms);
    ExactConservation(stock, actions, room);
  }

  // --- the breaker's history in every run ------------------------------------------------------

  function Busy(phases: seq<Phase>): nat {
    if phases == [] then 0 else Busy(phases[..|phases| - 1]) + if phases[|phases| - 1].Free? then 0 else 1
  }

  lemma {:induction false} BusyUpdate(phases: seq<Phase>, i: nat, p: Phase)
    requires i < |phases|
    ensures Busy(phases[i := p]) ==
            Busy(phases) + (if p.Free? then 0 else 1) - (if phases[i].Free? then 0 else 1)
  {
    var n := |phases| - 1;
    if i == n {
      assert phases[i := p][..n] == phases[..n];
    } else {
      assert phases[i := p][..n] == phases[..n][i := p];
      BusyUpdate(phases[..n], i, p);
    }
  }

  /** The breaker's times never pass the clock or go back, and its calls in flight are
      exactly the handlers in a call. */
  ghost predicate EventsOk(cfg: Config, g: Guarded) {
    && Monotone(g.events)
    && (forall k :: 0 <= k < |g.events| ==> g.events[k].now <= g.clock)
    && WellFormed(cfg, g.events)
    && InFlight(cfg, g.events) == Busy(g.phases)
  }

  lemma {:induction false} WellFormedSnoc(cfg: Config, h: seq<Event>, e: Event)
    requires WellFormed(cfg, h) && InFlight(cfg, h + [e]) >= 0
    ensures WellFormed(cfg, h + [e])
  {
    forall k | 0 <= k <= |h + [e]|
      ensures InFlight(cfg, (h + [e])[..k]) >= 0
    {
      if k <= |h| {
        assert (h + [e])[..k] == h[..k];
      } else {
        assert (h + [e])[..k] == h + [e];
      }
    }
  }

  lemma {:induction false} EventAdded(cfg: Config, g: Guarded, q: Guarded, e: Event)
    requires EventsOk(cfg, g) && q.events == g.events + [e] && e.now == g.clock == q.clock
    requires Busy(q.phases) == Busy(g.phases) +
                               if e.Allow? then (if Admits(cfg, After(cfg, g.events), e.now) then 1 else 0) else -1
    ensures EventsOk(cfg, q)
  {
    InFlightSnoc(cfg, g.events, e);
    WellFormedSnoc(cfg, g.events, e);
  }

  lemma {:induction false} EventsOkStep(cfg: Config, g: Guarded, m: Move)
    requires EventsOk(cfg, g)
    ensures EventsOk(cfg, Play(cfg, g, m))
    ensures g.clock <= Play(cfg, g, m).clock && g.events <= Play(cfg, g, m).events
  {
    var q := Play(cfg, g, m);
    if Legal(g, m) {
      match m {
        case Other(a) => assert (g.phases + [Free])[..|g.phases|] == g.phases;
        case Tick(_) =>
        case Ask(who, _) =>
          BusyUpdate(g.phases, who, Calling);
          EventAdded(cfg, g, q, Allow(g.clock));
        case Serve(who, _, _) => BusyUpdate(g.phases, who, q.phases[who]);
        case Settle(who) =>
          BusyUpdate(g.phases, who, Free);
          EventAdded(cfg, g, q, if g.phases[who].ok then Success(g.clock) else Failure(g.clock));
      }
    }
  }

  lemma {:induction false} EventsOkRun(cfg: Config, g: Guarded, ms: seq<Move>)
    requires EventsOk(cfg, g) && Aligned(g)
    ensures EventsOk(cfg, PlayAll(cfg, g, ms)) && Aligned(PlayAll(cfg, g, ms))
    ensures g.clock <= PlayAll(cfg, g, ms).clock && g.events <= PlayAll(cfg, g, ms).events
  {
    if ms == [] {
    } else {
      var front := ms[..|ms| - 1];
      EventsOkRun(cfg, g, front);
      EventsOkStep(cfg, PlayAll(cfg, g, front), ms[|ms| - 1]);
      PlayEffect(cfg, PlayAll(cfg, g, front), ms[|ms| - 1]);
    }
  }

  lemma {:induction false} AllFree(phases: seq<Phase>)
    ensures Busy(phases) == 0 <==> forall i :: 0 <= i < |phases| ==> phases[i].Free?
  {
    if phases == [] {
    } else {
      AllFree(phases[..|phases| - 1]);
    }
  }

  /** In every run, when the breaker is half open some handler is in the middle of a call;
      a handler that asks then is not in one, so it is refused on account of another. */
  lemma {:induction false} ProbeIsInFlight(cfg: Config, stock: map<string, int>, ms: seq<Move>)
    ensures var g := PlayAll(cfg, AtRest(stock), ms);
            && EventsOk(cfg, g)
            && (After(cfg, g.events).state == HalfOpen ==>
                  && (exists i :: 0 <= i < |g.phases| && !g.phases[i].Free?)
                  && forall who, message :: Legal(g, Ask(who, message)) ==>
                       exists i :: 0 <= i < |g.phases| && i != who && !g.phases[i].Free?)
  {
    assert EventsOk(cfg, AtRest(stock)) by {
      assert AtRest(stock).events == [];
    }
    EventsOkRun(cfg, AtRest(stock), ms);
    ProbeCounted(cfg, PlayAll(cfg, AtRest(stock), ms).events);
    AllFree(PlayAll(cfg, AtRest(stock), ms).phases);
  }

  lemma {:induction false} ProbeCounted(cfg: Config, h: seq<Event>)
    requires WellFormed(cfg, h)
    ensures After(cfg, h).state == HalfOpen ==> InFlight(cfg, h) >= 1
  {
    if h == [] {
    } else {
      var front := h[..|h| - 1];
      assert forall k :: 0 <= k <= |front| ==> front[..k] == h[..k];
      assert front == h[..|front|];
      ProbeCounted(cfg, front);
      AlwaysCoherent(cfg, front);
      assert InFlight(cfg, h[..|front|]) >= 0;
    }
  }
}
