/** A run in which no call to inventory fails, and yet a unit is stranded: sold-out answers
    are errors, errors open the shared breaker, and the breaker refuses the releases. */
module SoldOut {
  import opened Network
  import opened Saga
  import opened Reservations
  import opened Conservation
  import opened Breaker
  import opened SharedBreaker
  import opened OpenBreaker
  import opened Refusals

  /** A run, built one move at a time. */
  lemma {:induction false} Take(cfg: Config, g: Guarded, ms: seq<Move>, m: Move) returns (longer: seq<Move>, q: Guarded)
    requires Clean(ms) && (m.Serve? ==> m.d == Acked)
    ensures Clean(longer) && q == PlayAll(cfg, g, longer) == Play(cfg, PlayAll(cfg, g, ms), m)
  {
    PlayAllSnoc(cfg, g, ms, m);
    longer := ms + [m];
    q := PlayAll(cfg, g, longer);
  }

  /** Session n is free, has so many transitions to record, and then acts at a point. */
  predicate At(q: Guarded, n: nat, p: Point, pending: nat, req: Request) {
    && Aligned(q) && |q.phases| == n + 1 && q.phases[n].Free? && q.wake[n] <= q.clock
    && var h := q.sys.sessions[n].h;
    && h.req == req && h.point == p && |h.pending| == pending
  }

  /** Nothing but the last session, its saga and the ids in use has moved. */
  predicate Kept(g: Guarded, q: Guarded, n: nat) {
    && q.sys.stock == g.sys.stock && q.sys.rows == g.sys.rows
    && q.events == g.events && q.clock == g.clock
    && (0 < n <= |g.phases| && n <= |g.wake| && n <= |g.sys.sessions| ==> SameFirst(g, q))
  }

  /** Session 0 is as it was. */
  predicate SameFirst(g: Guarded, q: Guarded) {
    && g.phases != [] && g.wake != [] && g.sys.sessions != []
    && q.phases != [] && q.wake != [] && q.sys.sessions != []
    && q.sys.sessions[0] == g.sys.sessions[0] && q.phases[0] == g.phases[0] && q.wake[0] == g.wake[0]
  }

  function Name(k: nat): (s: string)
    ensures |s| == k
  {
    seq(k, _ => 'x')
  }

  ghost predicate NamesBelow(g: Guarded, k: nat) {
    forall id :: id in g.sys.sagas ==> |id| < k
  }

  // --- single moves ---------------------------------------------------------------------------

  lemma ArriveMove(cfg: Config, g: Guarded, req: Request)
    requires Aligned(g) && req.key == ""
    ensures var q := Play(cfg, g, Other(Arrive(req)));
            && At(q, |g.phases|, Start, 0, req) && Kept(g, q, |g.phases|) && q.sys.sagas == g.sys.sagas
  {
  }

  lemma StartMove(cfg: Config, g: Guarded, n: nat, req: Request)
    requires At(g, n, Start, 0, req) && NamesBelow(g, n)
    ensures var q := Play(cfg, g, Other(Act(n, StartIn(Name(n), Name(n), Acked))));
            At(q, n, ValidateUser, 1, req) && Kept(g, q, n) && NamesBelow(q, n + 1)
  {
  }

  lemma WriteMove(cfg: Config, g: Guarded, n: nat, p: Point, pending: nat, req: Request)
    requires At(g, n, p, pending, req) && pending > 0
    ensures var q := Play(cfg, g, Other(Act(n, WriteIn(true, true))));
            At(q, n, p, pending - 1, req) && Kept(g, q, n) && q.sys.sagas.Keys == g.sys.sagas.Keys
  {
  }

  lemma UserMove(cfg: Config, g: Guarded, n: nat, req: Request)
    requires At(g, n, ValidateUser, 0, req)
    ensures var q := Play(cfg, g, Other(Act(n, UserIn(UserFound(req.user)))));
            At(q, n, LockStock, 1, req) && Kept(g, q, n) && q.sys.sagas == g.sys.sagas
  {
  }

  /** A request brought to its lock. */
  lemma NewcomerAtLock(cfg: Config, g: Guarded, ms: seq<Move>, n: nat, req: Request)
    returns (longer: seq<Move>, q: Guarded)
    requires Clean(ms) && req.key == ""
    requires var u := PlayAll(cfg, g, ms);
             Aligned(u) && |u.phases| == n && NamesBelow(u, n)
    ensures Clean(longer) && q == PlayAll(cfg, g, longer)
    ensures At(q, n, LockStock, 0, req) && Kept(PlayAll(cfg, g, ms), q, n) && NamesBelow(q, n + 1)
  {
    var u := PlayAll(cfg, g, ms);
    ArriveMove(cfg, u, req);
    longer, q := Take(cfg, g, ms, Other(Arrive(req)));
    StartMove(cfg, q, n, req);
    longer, q := Take(cfg, g, longer, Other(Act(n, StartIn(Name(n), Name(n), Acked))));
    WriteMove(cfg, q, n, ValidateUser, 1, req);
    longer, q := Take(cfg, g, longer, Other(Act(n, WriteIn(true, true))));
    UserMove(cfg, q, n, req);
    longer, q := Take(cfg, g, longer, Other(Act(n, UserIn(UserFound(req.user)))));
    WriteMove(cfg, q, n, LockStock, 1, req);
    longer, q := Take(cfg, g, longer, Other(Act(n, WriteIn(true, true))));
  }

  // --- the saga that gets the last unit and cannot insert its row -----------------------------

  lemma AdmittedAsk(cfg: Config, g: Guarded, n: nat, req: Request)
    requires At(g, n, LockStock, 0, req) && After(cfg, g.events).state == Closed
    ensures Play(cfg, g, Ask(n, "")) == g.(events := g.events + [Allow(g.clock)], phases := g.phases[n := Calling])
  {
  }

  lemma LastUnit(cfg: Config, g: Guarded, req: Request)
    requires Aligned(g) && |g.phases| == 1 && g.phases[0].Calling?
    requires var h := g.sys.sessions[0].h;
             h.req == req && h.point == LockStock && h.pending == []
    requires g.sys.stock == map[req.room := 1]
    ensures var q := Play(cfg, g, Serve(0, Acked, ""));
            && Aligned(q) && q.phases == [Heard(true)] && q.events == g.events && q.clock == g.clock
            && q.sys.stock == map[req.room := 0] && q.sys.rows == g.sys.rows && q.sys.sagas == g.sys.sagas
            && var h := q.sys.sessions[0].h;
            h.req == req && h.point == InsertRow && |h.pending| == 1
  {
  }

  lemma LastUnitHeard(cfg: Config, g: Guarded, req: Request)
    requires Aligned(g) && g.phases == [Heard(true)]
    requires var h := g.sys.sessions[0].h;
             h.req == req && h.point == InsertRow && |h.pending| == 1
    ensures var q := Play(cfg, g, Settle(0));
            At(q, 0, InsertRow, 1, req) && q.sys == g.sys && q.clock == g.clock
                && q.events == g.events + [Success(g.clock)]
  {
  }

  lemma FailedInsert(cfg: Config, g: Guarded, req: Request)
    requires At(g, 0, InsertRow, 0, req)
    ensures var q := Play(cfg, g, Other(Act(0, RowIn(NotApplied, ""))));
            At(q, 0, Release(1), 2, req) && Kept(g, q, 0) && q.sys.sagas == g.sys.sagas
  {
  }

  lemma ClosedAgain(cfg: Config, h: seq<Event>, now: int)
    requires After(cfg, h) == FRESH
    ensures After(cfg, h + [Allow(now)] + [Success(now)]) == FRESH
  {
    FromSnoc(cfg, FRESH, h, Allow(now));
    FromSnoc(cfg, FRESH, h + [Allow(now)], Success(now));
  }

  /** Session 0 takes the last unit ... */
  lemma LocksLast(cfg: Config, req: Request) returns (ms: seq<Move>, q: Guarded)
    requires req.key == ""
    ensures Clean(ms) && q == PlayAll(cfg, AtRest(map[req.room := 1]), ms)
    ensures At(q, 0, InsertRow, 1, req) && NamesBelow(q, 1) && After(cfg, q.events) == FRESH
    ensures q.sys.stock == map[req.room := 0] && q.sys.rows == []
  {
    var g := AtRest(map[req.room := 1]);
    assert PlayAll(cfg, g, []) == g;
    ms, q := NewcomerAtLock(cfg, g, [], 0, req);
    AdmittedAsk(cfg, q, 0, req);
    ms, q := Take(cfg, g, ms, Ask(0, ""));
    LastUnit(cfg, q, req);
    ms, q := Take(cfg, g, ms, Serve(0, Acked, ""));
    LastUnitHeard(cfg, q, req);
    ms, q := Take(cfg, g, ms, Settle(0));
    ClosedAgain(cfg, [], 0);
  }

  /** ... and must give it back. */
  lemma MustRelease(cfg: Config, req: Request) returns (ms: seq<Move>, q: Guarded)
    requires req.key == ""
    ensures Clean(ms) && q == PlayAll(cfg, AtRest(map[req.room := 1]), ms)
    ensures At(q, 0, Release(1), 0, req) && NamesBelow(q, 1) && After(cfg, q.events) == FRESH
    ensures q.sys.stock == map[req.room := 0] && q.sys.rows == []
  {
    var g := AtRest(map[req.room := 1]);
    ms, q := LocksLast(cfg, req);
    WriteMove(cfg, q, 0, InsertRow, 1, req);
    ms, q := Take(cfg, g, ms, Other(Act(0, WriteIn(true, true))));
    FailedInsert(cfg, q, req);
    ms, q := Take(cfg, g, ms, Other(Act(0, RowIn(NotApplied, ""))));
    WriteMove(cfg, q, 0, Release(1), 2, req);
    ms, q := Take(cfg, g, ms, Other(Act(0, WriteIn(true, true))));
    WriteMove(cfg, q, 0, Release(1), 1, req);
    ms, q := Take(cfg, g, ms, Other(Act(0, WriteIn(true, true))));
  }

  // --- the requests that find the room sold out -------------------------------------------------

  predicate SoldOut(g: Guarded, room: string) {
    room in g.sys.stock && g.sys.stock[room] == 0
  }

  lemma SoldOutServe(cfg: Config, g: Guarded, n: nat, req: Request)
    requires Aligned(g) && 0 < n && |g.phases| == n + 1 && g.phases[n].Calling? && SoldOut(g, req.room)
    requires var h := g.sys.sessions[n].h;
             h.req == req && h.point == LockStock && h.pending == []
    ensures var q := Play(cfg, g, Serve(n, Acked, ""));
            && Aligned(q) && |q.phases| == n + 1 && q.phases[n] == Heard(false)
            && q.sys.sagas == g.sys.sagas && Kept(g, q, n)
  {
  }

  lemma SoldOutHeard(cfg: Config, g: Guarded, n: nat)
    requires Aligned(g) && 0 < n && |g.phases| == n + 1 && g.phases[n] == Heard(false)
    ensures var q := Play(cfg, g, Settle(n));
            && Aligned(q) && |q.phases| == n + 1
            && q.sys == g.sys && q.clock == g.clock && q.events == g.events + [Failure(g.clock)] && SameFirst(g, q)
  {
  }

  /** One request for a room that is sold out: served, refused, and counted as a failure. */
  lemma OneSoldOut(cfg: Config, g: Guarded, ms: seq<Move>, n: nat, req: Request) returns (longer: seq<Move>, q: Guarded)
    requires Clean(ms) && req.key == "" && 0 < n
    requires var u := PlayAll(cfg, g, ms);
             && Aligned(u) && |u.phases| == n && NamesBelow(u, n)
             && SoldOut(u, req.room) && After(cfg, u.events).state == Closed
    ensures Clean(longer) && q == PlayAll(cfg, g, longer)
    ensures var u := PlayAll(cfg, g, ms);
            && Aligned(q) && |q.phases| == n + 1 && NamesBelow(q, n + 1)
            && q.sys.stock == u.sys.stock && q.sys.rows == u.sys.rows && q.clock == u.clock && SameFirst(u, q)
            && q.events == u.events + [Allow(u.clock)] + [Failure(u.clock)]
  {
    longer, q := NewcomerAtLock(cfg, g, ms, n, req);
    AdmittedAsk(cfg, q, n, req);
    longer, q := Take(cfg, g, longer, Ask(n, ""));
    SoldOutServe(cfg, q, n, req);
    longer, q := Take(cfg, g, longer, Serve(n, Acked, ""));
    SoldOutHeard(cfg, q, n);
    longer, q := Take(cfg, g, longer, Settle(n));
  }

  /** A closed breaker that has counted so many failures, or has opened on the last. */
  predicate Counted(cfg: Config, s: Snapshot, failures: nat, now: int) {
    && s.failures == failures
    && if failures < Needed(cfg) then s.state == Closed else OpenSince(s, now)
  }

  lemma {:induction false} CountsOneMore(cfg: Config, s: Snapshot, failures: nat, now: int)
    requires Counted(cfg, s, failures, now) && failures < Needed(cfg)
    ensures Counted(cfg, Next(cfg, Next(cfg, s, Allow(now)), Failure(now)), failures + 1, now)
  {
  }

  lemma {:induction false} CountsOne(cfg: Config, h: seq<Event>, failures: nat, now: int)
    requires Counted(cfg, After(cfg, h), failures, now) && failures < Needed(cfg)
    ensures Counted(cfg, After(cfg, h + [Allow(now)] + [Failure(now)]), failures + 1, now)
  {
    FromSnoc(cfg, FRESH, h, Allow(now));
    FromSnoc(cfg, FRESH, h + [Allow(now)], Failure(now));
    CountsOneMore(cfg, After(cfg, h), failures, now);
  }

  lemma {:induction false} ManySoldOut(cfg: Config, g: Guarded, ms: seq<Move>, req: Request, k: nat)
    returns (longer: seq<Move>, q: Guarded)
    requires Clean(ms) && req.key == "" && k <= Needed(cfg)
    requires var u := PlayAll(cfg, g, ms);
             && Aligned(u) && |u.phases| == 1 && NamesBelow(u, 1)
             && SoldOut(u, req.room) && After(cfg, u.events) == FRESH
    ensures Clean(longer) && q == PlayAll(cfg, g, longer)
    ensures var u := PlayAll(cfg, g, ms);
            && Aligned(q) && |q.phases| == k + 1 && NamesBelow(q, k + 1)
            && q.sys.stock == u.sys.stock && q.sys.rows == u.sys.rows && q.clock == u.clock && SameFirst(u, q)
            && Counted(cfg, After(cfg, q.events), k, u.clock)
  {
    if k == 0 {
      longer, q := ms, PlayAll(cfg, g, ms);
    } else {
      longer, q := ManySoldOut(cfg, g, ms, req, k - 1);
      CountsOne(cfg, q.events, k - 1, q.clock);
      longer, q := OneSoldOut(cfg, g, longer, k, req);
    }
  }

  // --- the releases the breaker refuses ------------------------------------------------------------

  /** Session 0 has been refused n times, the breaker open since t. */
  ghost predicate RefusedSoFar(cfg: Config, q: Guarded, x: Session, n: nat, pending: nat, wake: int, t: int) {
    && Waits(q, 0, x, n, t) && OpenSince(After(cfg, q.events), t)
    && |q.sys.sessions[0].h.pending| == pending
    && q.wake[0] <= wake
  }

  lemma RefusedAsk(cfg: Config, g: Guarded, x: Session, n: nat, t: int)
    requires RefusedSoFar(cfg, g, x, n, 0, g.clock, t) && n < ATTEMPTS && g.clock < t + cfg.openDuration
    ensures var q := Play(cfg, g, Ask(0, ""));
            && RefusedSoFar(cfg, q, x, n + 1, if n + 1 < ATTEMPTS then 0 else 2, g.clock + (n + 1) * PAUSE, t)
            && q.clock == g.clock && q.sys.stock == g.sys.stock && q.sys.rows == g.sys.rows
  {
    AskedAgain(cfg, g, Ask(0, ""), 0, x, n, t, t);
    FromSnoc(cfg, FRESH, g.events, Allow(g.clock));
  }

  lemma PauseMove(cfg: Config, g: Guarded, x: Session, n: nat, wake: int, t: int, elapsed: nat)
    requires RefusedSoFar(cfg, g, x, n, 0, wake, t) && wake <= g.clock + elapsed
    ensures var q := Play(cfg, g, Tick(elapsed));
            && RefusedSoFar(cfg, q, x, n, 0, q.clock, t)
            && q.clock == g.clock + elapsed && q.sys == g.sys
  {
  }

  lemma LastWrite(cfg: Config, g: Guarded, x: Session, pending: nat, wake: int, t: int)
    requires RefusedSoFar(cfg, g, x, ATTEMPTS, pending, wake, t) && pending > 0
    ensures var q := Play(cfg, g, Other(Act(0, WriteIn(true, true))));
            && RefusedSoFar(cfg, q, x, ATTEMPTS, pending - 1, wake, t)
            && q.sys.stock == g.sys.stock && q.sys.rows == g.sys.rows
  {
    RecordedMove(cfg, g, Other(Act(0, WriteIn(true, true))), 0, x, ATTEMPTS, t);
  }

  /** A refusal and the pause after it. */
  lemma {:induction false} RefusedAndPaused(cfg: Config, g: Guarded, ms: seq<Move>, x: Session, n: nat, t: int)
    returns (longer: seq<Move>, q: Guarded)
    requires Clean(ms) && n + 1 < ATTEMPTS
    requires var u := PlayAll(cfg, g, ms);
             RefusedSoFar(cfg, u, x, n, 0, u.clock, t) && u.clock < t + cfg.openDuration
    ensures Clean(longer) && q == PlayAll(cfg, g, longer)
    ensures var u := PlayAll(cfg, g, ms);
            && q.sys.stock == u.sys.stock && q.sys.rows == u.sys.rows && q.clock == u.clock + (n + 1) * PAUSE
            && RefusedSoFar(cfg, q, x, n + 1, 0, q.clock, t)
  {
    var u := PlayAll(cfg, g, ms);
    RefusedAsk(cfg, u, x, n, t);
    longer, q := Take(cfg, g, ms, Ask(0, ""));
    PauseMove(cfg, q, x, n + 1, u.clock + (n + 1) * PAUSE, t, (n + 1) * PAUSE);
    longer, q := Take(cfg, g, longer, Tick((n + 1) * PAUSE));
  }

  lemma {:induction false} ThreeRefusals(cfg: Config, g: Guarded, ms: seq<Move>, x: Session, t: int)
    returns (longer: seq<Move>, q: Guarded)
    requires Clean(ms) && cfg.openDuration > 1500
    requires var u := PlayAll(cfg, g, ms);
             u.clock == t && RefusedSoFar(cfg, u, x, 0, 0, t, t)
    ensures Clean(longer) && q == PlayAll(cfg, g, longer)
    ensures var u := PlayAll(cfg, g, ms);
            q.sys.stock == u.sys.stock && q.sys.rows == u.sys.rows && RefusedSoFar(cfg, q, x, ATTEMPTS, 2, t + 3000, t)
  {
    longer, q := RefusedAndPaused(cfg, g, ms, x, 0, t);
    longer, q := RefusedAndPaused(cfg, g, longer, x, 1, t);
    RefusedAsk(cfg, q, x, 2, t);
    longer, q := Take(cfg, g, longer, Ask(0, ""));
  }

  /** For every breaker whose open duration exceeds 1.5 s, and any threshold: a run in
      which inventory serves every call it is sent and every reply arrives, one insert
      fails, and the unit it had locked is lost for good. The sold-out answers of other
      requests open the breaker, all three releases are refused, and the saga ends
      COMPENSATION_FAILED over an empty stock and an empty table. */
  lemma SoldOutStrands(cfg: Config, req: Request) returns (ms: seq<Move>)
    requires cfg.openDuration > 1500 && req.key == ""
    ensures Clean(ms)
    ensures var q := PlayAll(cfg, AtRest(map[req.room := 1]), ms);
            && q.sys.stock == map[req.room := 0] && q.sys.rows == []
            && q.sys.sessions != []
            && var h := q.sys.sessions[0].h;
            && Finished(h) && h.response == Some(Refused(Internal))
            && States(h.trace) == Path(NotPersistedStranded)
  {
    var g := AtRest(map[req.room := 1]);
    var q: Guarded;
    ms, q := MustRelease(cfg, req);
    var x := q.sys.sessions[0];
    GuardedSessionOk(cfg, map[req.room := 1], ms, 0);
    ms, q := ManySoldOut(cfg, g, ms, req, Needed(cfg));
    var t := q.clock;
    ms, q := ThreeRefusals(cfg, g, ms, x, t);
    LastWrite(cfg, q, x, 2, t + 3000, t);
    ms, q := Take(cfg, g, ms, Other(Act(0, WriteIn(true, true))));
    LastWrite(cfg, q, x, 1, t + 3000, t);
    ms, q := Take(cfg, g, ms, Other(Act(0, WriteIn(true, true))));
    StrandedPath(x.h, q.sys.sessions[0].h);
  }
}
