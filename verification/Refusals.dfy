/** When a compensation succeeds: in every run in which no call to inventory fails, a saga
    keeps its unit exactly when the shared breaker refuses all of its releases. */
module Refusals {
  import Inventory
  import opened Network
  import opened Saga
  import opened Reservations
  import opened Conservation
  import opened Breaker
  import opened SharedBreaker
  import opened OpenBreaker

  /** Inventory serves every call it is sent, and every reply arrives. */
  predicate Clean(ms: seq<Move>) {
    forall i :: 0 <= i < |ms| ==> CleanMove(ms[i])
  }

  predicate CleanMove(m: Move) {
    m.Serve? ==> m.d == Acked
  }

  // --- a release that is served succeeds --------------------------------------------------------

  /** The replies to releases that each session lost. */
  ghost predicate NoneLost(s: System) {
    forall i :: 0 <= i < |s.sessions| ==> s.sessions[i].ledger.lostReleases == 0
  }

  lemma NoneLostStep(s: System, a: Action)
    requires NoneLost(s)
    requires a.Act? && a.input.StockIn? ==> a.input.d != LostReply
    ensures NoneLost(Step(s, a))
  {
    if Fits(s, a) && a.Act? {
      FitsAccepts(s, a.who, a.input);
    }
  }

  lemma {:induction false} CleanLosesNothing(cfg: Config, stock: map<string, int>, ms: seq<Move>)
    requires Clean(ms)
    ensures NoneLost(PlayAll(cfg, AtRest(stock), ms).sys)
  {
    if ms == [] {
    } else {
      var front, m := ms[..|ms| - 1], ms[|ms| - 1];
      CleanLosesNothing(cfg, stock, front);
      var g := PlayAll(cfg, AtRest(stock), front);
      PlayEffect(cfg, g, m);
      var e := Effect(cfg, g, m);
      assert CleanMove(m);
      if e != [] {
        NoneLostStep(g.sys, e[0]);
      }
    }
  }

  lemma {:induction false} SumAtLeast(q: Quantity, xs: seq<Session>, sel: Request -> bool, i: nat)
    requires i < |xs| && sel(xs[i].h.req)
    ensures Sum(q, xs, sel) >= Amount(q, xs[i])
  {
    if i < |xs| - 1 {
      SumAtLeast(q, xs[..|xs| - 1], sel, i);
    }
  }

  lemma AccountHolds(x: Session)
    requires Accounted(x) && x.ledger.lostReleases == 0
    ensures Amount(Releases, x) + Amount(Held, x) <= Amount(Blocks, x)
  {
  }

  /** Units released and units held never outnumber the units blocked. */
  lemma {:induction false} HeldIsBlocked(xs: seq<Session>, sel: Request -> bool)
    requires forall i :: 0 <= i < |xs| ==> Accounted(xs[i]) && xs[i].ledger.lostReleases == 0
    ensures Sum(Releases, xs, sel) + Sum(Held, xs, sel) <= Sum(Blocks, xs, sel)
  {
    if xs == [] {
    } else {
      var front, last := xs[..|xs| - 1], xs[|xs| - 1];
      HeldIsBlocked(front, sel);
      AccountHolds(last);
      assert xs == front + [last];
      SumLast(Releases, xs, front, last, sel);
      SumLast(Held, xs, front, last, sel);
      SumLast(Blocks, xs, front, last, sel);
    }
  }

  /** While a saga holds its unit there is room for it in the stock, so its release is
      confirmed. */
  lemma {:induction false} RoomToRelease(stock: map<string, int>, actions: seq<Action>, who: nat)
    requires GoodStock(stock) && who < |Run(Initial(stock), actions).sessions|
    requires NoneLost(Run(Initial(stock), actions))
    requires Run(Initial(stock), actions).sessions[who].h.point.Release?
    ensures var s := Run(Initial(stock), actions);
            var room := s.sessions[who].h.req.room;
            room in s.stock && 0 <= s.stock[room] < Inventory.INT4_MAX
  {
    RunOk(stock, actions);
    var s := Run(Initial(stock), actions);
    var x := s.sessions[who];
    assert SessionOk(x, s.stock);
    StockIsLedger(stock, actions, x.h.req.room);
    assert forall i :: 0 <= i < |s.sessions| ==> SessionOk(s.sessions[i], s.stock);
    HeldIsBlocked(s.sessions, InRoom(x.h.req.room));
    SumAtLeast(Held, s.sessions, InRoom(x.h.req.room), who);
  }

  lemma ServedRelease(s: System, h: Handler, message: string)
    requires h.point.Release? && h.req.room in s.stock && 0 <= s.stock[h.req.room] < Inventory.INT4_MAX
    ensures StockAnswer(s, h, StockIn(Acked, false, message)).seen == StockStatus(true)
    ensures StockAnswer(s, h, StockIn(Acked, false, message)).applied
  {
  }

  // --- counting the refusals --------------------------------------------------------------------

  /** The move is a release of this session that the breaker refuses. */
  predicate RefusedRelease(cfg: Config, g: Guarded, m: Move, who: nat) {
    && m.Ask? && m.who == who && Legal(g, m)
    && g.sys.sessions[who].h.point.Release?
    && !Admits(cfg, After(cfg, g.events), g.clock)
  }

  function Refusals(cfg: Config, g: Guarded, ms: seq<Move>, who: nat): nat {
    if ms == [] then 0
    else
      var front, m := ms[..|ms| - 1], ms[|ms| - 1];
      Refusals(cfg, g, front, who) + if RefusedRelease(cfg, PlayAll(cfg, g, front), m, who) then 1 else 0
  }

  /** What a session is after n of its releases were refused and no call of it failed. */
  predicate Tally(x: Session, n: nat) {
    && x.ledger.releases == (if GaveBack(x.h) then 1 else 0)
    && match x.h.point
       case Release(k) => n + 1 == k
       case Done => n <= ATTEMPTS && (Abandoned(x.h) <==> n == ATTEMPTS)
       case _ => n == 0
  }

  lemma TallyElsewhere(x: Session, o: Observation, y: Session, n: nat)
    requires OnPath(x.h) && Tally(x, n) && Accepts(x.h, o) && y.h == Advance(x.h, o)
    requires x.h.pending != [] || !x.h.point.Release?
    requires y.ledger.releases == x.ledger.releases
    ensures Tally(y, n)
  {
    AdvanceMarks(x.h, o);
    AdvanceGivesBack(x.h, o);
    AdvanceGoesOn(x.h, o);
  }

  lemma TallyRefused(x: Session, message: string, y: Session, n: nat)
    requires OnPath(x.h) && Tally(x, n) && x.h.pending == [] && x.h.point.Release?
    requires y.h == Advance(x.h, CallFailed(true, message)) && y.ledger == x.ledger
    ensures Tally(y, n + 1)
  {
    AdvanceMarks(x.h, CallFailed(true, message));
    AdvanceGivesBack(x.h, CallFailed(true, message));
    AdvanceGoesOn(x.h, CallFailed(true, message));
  }

  lemma TallyReleased(x: Session, y: Session, n: nat)
    requires OnPath(x.h) && Tally(x, n) && x.h.pending == [] && x.h.point.Release?
    requires y.h == Advance(x.h, StockStatus(true)) && y.ledger.releases == x.ledger.releases + 1
    ensures Tally(y, n)
  {
    AdvanceMarks(x.h, StockStatus(true));
    AdvanceGivesBack(x.h, StockStatus(true));
    AdvanceGoesOn(x.h, StockStatus(true));
  }

  /** Room for the unit of every saga that is about to release. */
  ghost predicate Roomy(g: Guarded, who: nat) {
    who < |g.sys.sessions| && g.sys.sessions[who].h.point.Release? ==>
      var room := g.sys.sessions[who].h.req.room;
      room in g.sys.stock && 0 <= g.sys.stock[room] < Inventory.INT4_MAX
  }

  lemma TallyOther(cfg: Config, g: Guarded, a: Action, who: nat, n: nat)
    requires Legal(g, Other(a)) && a.Act? && a.who == who
    requires OnPath(g.sys.sessions[who].h) && Tally(g.sys.sessions[who], n)
    ensures Tally(Play(cfg, g, Other(a)).sys.sessions[who], n)
  {
    var x := g.sys.sessions[who];
    FitsAccepts(g.sys, who, a.input);
    TallyElsewhere(x, Observe(g.sys, x.h, a.input), SessionAfter(g.sys, x, a.input), n);
  }

  lemma TallyAsk(cfg: Config, g: Guarded, m: Move, who: nat, n: nat)
    requires Legal(g, m) && m.Ask? && m.who == who
    requires OnPath(g.sys.sessions[who].h) && Tally(g.sys.sessions[who], n)
    ensures Tally(Play(cfg, g, m).sys.sessions[who], n + if RefusedRelease(cfg, g, m, who) then 1 else 0)
  {
    if !Admits(cfg, After(cfg, g.events), g.clock) {
      var x, input := g.sys.sessions[who], Refusal(m.message);
      assert Fits(g.sys, Act(who, input));
      FitsAccepts(g.sys, who, input);
      var y := SessionAfter(g.sys, x, input);
      assert Play(cfg, g, m).sys.sessions[who] == y;
      if x.h.point.Release? {
        TallyRefused(x, m.message, y, n);
      } else {
        TallyElsewhere(x, CallFailed(true, m.message), y, n);
      }
    }
  }

  lemma TallyServe(cfg: Config, g: Guarded, m: Move, who: nat, n: nat)
    requires Legal(g, m) && m.Serve? && m.who == who && m.d == Acked && Roomy(g, who)
    requires OnPath(g.sys.sessions[who].h) && Tally(g.sys.sessions[who], n)
    ensures Tally(Play(cfg, g, m).sys.sessions[who], n)
  {
    var x, input := g.sys.sessions[who], StockIn(Acked, false, m.message);
    assert Fits(g.sys, Act(who, input));
    FitsAccepts(g.sys, who, input);
    var y := SessionAfter(g.sys, x, input);
    assert Play(cfg, g, m).sys.sessions[who] == y;
    if x.h.point.Release? {
      ServedRelease(g.sys, x.h, m.message);
      TallyReleased(x, y, n);
    } else {
      TallyElsewhere(x, Observe(g.sys, x.h, input), y, n);
    }
  }

  lemma TallyStep(cfg: Config, g: Guarded, m: Move, who: nat, n: nat)
    requires Aligned(g) && who < |g.phases| && CleanMove(m) && Roomy(g, who)
    requires OnPath(g.sys.sessions[who].h) && Tally(g.sys.sessions[who], n)
    ensures Aligned(Play(cfg, g, m)) && who < |Play(cfg, g, m).phases|
    ensures Tally(Play(cfg, g, m).sys.sessions[who], n + if RefusedRelease(cfg, g, m, who) then 1 else 0)
  {
    PlayEffect(cfg, g, m);
    if !IsOf(m, who) {
      OthersLeave(cfg, g, m, who);
    } else if Legal(g, m) {
      match m {
        case Other(a) => TallyOther(cfg, g, a, who, n);
        case Ask(_, _) => TallyAsk(cfg, g, m, who, n);
        case Serve(_, _, _) => TallyServe(cfg, g, m, who, n);
        case Settle(_) =>
      }
    }
  }

  /** A session that a move brings has nothing behind it. */
  lemma TallyNew(cfg: Config, g: Guarded, m: Move, who: nat)
    requires Aligned(g) && |g.phases| <= who
    ensures Aligned(Play(cfg, g, m))
    ensures who < |Play(cfg, g, m).phases| ==> Tally(Play(cfg, g, m).sys.sessions[who], 0)
    ensures !RefusedRelease(cfg, g, m, who)
  {
    PlayEffect(cfg, g, m);
    if who < |Play(cfg, g, m).phases| {
      assert m.Other? && m.a.Arrive?;
      BeginOnPath(m.a.req);
      PathUnmarked(Begin(m.a.req).point, States(Owed(Begin(m.a.req))));
    }
  }

  lemma RoomyRun(cfg: Config, stock: map<string, int>, ms: seq<Move>, who: nat)
    requires GoodStock(stock) && Clean(ms)
    ensures Roomy(PlayAll(cfg, AtRest(stock), ms), who)
  {
    CleanLosesNothing(cfg, stock, ms);
    var actions := PlayIsRun(cfg, stock, ms);
    var g := PlayAll(cfg, AtRest(stock), ms);
    if who < |g.sys.sessions| && g.sys.sessions[who].h.point.Release? {
      RoomToRelease(stock, actions, who);
    }
  }

  lemma {:induction false} TallyRun(cfg: Config, stock: map<string, int>, ms: seq<Move>, who: nat)
    requires GoodStock(stock) && Clean(ms)
    ensures var g := PlayAll(cfg, AtRest(stock), ms);
            var n := Refusals(cfg, AtRest(stock), ms, who);
            && Aligned(g)
            && if who < |g.phases| then Tally(g.sys.sessions[who], n) else n == 0
  {
    if ms == [] {
    } else {
      var front, m := ms[..|ms| - 1], ms[|ms| - 1];
      TallyRun(cfg, stock, front, who);
      RoomyRun(cfg, stock, front, who);
      var g := PlayAll(cfg, AtRest(stock), front);
      assert CleanMove(m);
      if who < |g.phases| {
        GuardedSessionOk(cfg, stock, front, who);
        TallyStep(cfg, g, m, who, Refusals(cfg, AtRest(stock), front, who));
      } else {
        TallyNew(cfg, g, m, who);
      }
    }
  }

  /** In every run in which inventory serves every call it is sent and every reply
      arrives, a saga gives up exactly when the breaker, which all handlers share,
      refused all three of its releases ... */
  lemma {:induction false} AbandonedExactly(cfg: Config, stock: map<string, int>, ms: seq<Move>, who: nat)
    requires GoodStock(stock) && Clean(ms) && who < |PlayAll(cfg, AtRest(stock), ms).sys.sessions|
    ensures var h := PlayAll(cfg, AtRest(stock), ms).sys.sessions[who].h;
            Abandoned(h) <==> Refusals(cfg, AtRest(stock), ms, who) == ATTEMPTS
  {
    TallyRun(cfg, stock, ms, who);
    GuardedSessionOk(cfg, stock, ms, who);
    var h := PlayAll(cfg, AtRest(stock), ms).sys.sessions[who].h;
    if h.point != Done {
      PathUnmarked(h.point, States(Owed(h)));
    }
  }

  /** ... and a saga that is done after a failed insert has given its unit back, once,
      exactly when the breaker admitted one of them. */
  lemma {:induction false} GivenBackExactly(cfg: Config, stock: map<string, int>, ms: seq<Move>, who: nat)
    requires GoodStock(stock) && Clean(ms) && who < |PlayAll(cfg, AtRest(stock), ms).sys.sessions|
    requires var h := PlayAll(cfg, AtRest(stock), ms).sys.sessions[who].h;
             h.point == Done && InsertFailed(h)
    ensures var x := PlayAll(cfg, AtRest(stock), ms).sys.sessions[who];
            && x.ledger.releases <= 1
            && (GaveBack(x.h) <==> x.ledger.releases == 1)
            && (GaveBack(x.h) <==> Refusals(cfg, AtRest(stock), ms, who) < ATTEMPTS)
  {
    TallyRun(cfg, stock, ms, who);
    GuardedSessionOk(cfg, stock, ms, who);
    DoneAfterFailedInsert(PlayAll(cfg, AtRest(stock), ms).sys.sessions[who].h);
  }
}
