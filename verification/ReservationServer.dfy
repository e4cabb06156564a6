/** The reservation server as code: tables updated in place, calls sent through the
    inventory breaker, a clock that deadlines and sleeps advance. Each database
    statement and each call is one method, one action of the reservation system; the
    handlers below them are sequential programs over those methods. The ghost program
    counters in `sessions` make every handler record, in order, exactly what the
    automaton of module Saga says. */
module ReservationServer {
  import Inventory
  import opened Network
  import opened Saga
  import opened Reservations
  import opened Conservation
  import opened Idempotency
  import opened Breaker

  /** What the network does to one call, and how long it would take (milliseconds). */
  datatype Net = Net(d: Delivery, message: string, took: nat)

  /** Everything CreateReservation does not decide itself. */
  datatype Env = Env(
    lookupWorks: bool,
    sagaId: string,
    newId: string,
    start: Delivery,
    user: Observation,
    block: Net,
    insert: Net,
    release: nat -> Net,
    notify: Observation,
    rowWritten: nat -> bool,
    eventWritten: nat -> bool)

  const LOCK_DEADLINE: nat := 5000
  const RELEASE_DEADLINE: nat := 3000

  /** The one stock action that a call through the breaker amounts to. */
  function CallInput(net: Net, deadline: nat, sent: bool): Input {
    if !sent then StockIn(NotApplied, true, net.message)
    else StockIn(if net.took > deadline && net.d == Acked then LostReply else net.d, false, net.message)
  }

  /** A release acknowledged within its deadline. */
  predicate InTime(net: Net) {
    net.d == Acked && net.took <= RELEASE_DEADLINE
  }

  /** One of the attempts that were sent was. */
  predicate AnyInTime(env: Env, sentAt: seq<nat>) {
    exists i :: 0 <= i < |sentAt| && InTime(env.release(sentAt[i]))
  }

  lemma SentOne(env: Env, sentAt: seq<nat>, attempt: nat)
    ensures AnyInTime(env, sentAt + [attempt]) <==> AnyInTime(env, sentAt) || InTime(env.release(attempt))
  {
    var more := sentAt + [attempt];
    assert more[|sentAt|] == attempt;
    if AnyInTime(env, sentAt) {
      var i :| 0 <= i < |sentAt| && InTime(env.release(sentAt[i]));
      assert more[i] == sentAt[i];
    }
  }

  /** Room for so many units in the column of a room. */
  predicate Space(stock: map<string, int>, room: string, units: nat) {
    room in stock && stock[room] + units <= Inventory.INT4_MAX
  }

  /** A release that is sent has status true exactly when it is acknowledged in time, and
      uses up the room for one unit. */
  predicate ReleaseDone(stock: map<string, int>, later: map<string, int>, room: string, sent: bool, net: Net,
                        ok: bool)
  {
    && (ok ==> sent && InTime(net))
    && (Space(stock, room, 1) ==> (ok <==> sent && InTime(net)))
    && (room in stock ==> room in later && later[room] <= stock[room] + 1)
  }

  lemma ReleaseSeen(stock: map<string, int>, room: string, sent: bool, net: Net)
    requires GoodStock(stock)
    ensures var call := CallInventory(stock, room, false, CallInput(net, RELEASE_DEADLINE, sent));
            ReleaseDone(stock, call.stock, room, sent, net, call.seen == StockStatus(true))
  {
  }

  /** What the UPDATE of recordSagaTransition leaves in a row, column by column. */
  predicate WritesRow(before: SagaRow, after: SagaRow, state: State, failed: bool, detail: Detail, written: bool) {
    if !written then after == before
    else
      && after.reservationId == before.reservationId
      && after.status == state && after.currentStep == state
      && after.error == (if failed then detail else before.error)
      && after.compensation == (if state == Compensating then Running
                                else if state == Compensated then CompensationDone
                                else if state == CompensationFailed then CompensationGaveUp
                                else before.compensation)
  }

  // --- the answers, from what the handler observes ------------------------------------------------

  /** No row has the id, and none has the key, unless the key is empty. */
  predicate NoSuch(rows: seq<Row>, id: string, key: string) {
    forall k :: 0 <= k < |rows| ==> rows[k].reservationId != id && (key == "" || rows[k].req.key != key)
  }

  /** What a response to the request means, given the tables it found, what its calls met
      and whether the breaker admitted its lock. */
  predicate Means(stock: map<string, int>, rows: seq<Row>, sagas: map<string, SagaRecord>, req: Saga.Request, env: Env,
                  admitted: bool, response: Response)
  {
    var known := req.key != "" && env.lookupWorks && exists k :: 0 <= k < |rows| && rows[k].req.key == req.key;
    var started := env.start == Acked && env.sagaId !in sagas;
    var answered := admitted && env.block.d == Acked && env.block.took <= 5000;
    var locked := answered && req.room in stock && stock[req.room] >= 1;
    if known then
      response.Confirmed?
      && exists k :: 0 <= k < |rows| && rows[k].req.key == req.key && rows[k].reservationId == response.reservationId
    else if !started then response == Refused(Internal)
    else if env.user.CallFailed? then response == Refused(if env.user.circuitOpen then Unavailable else Unauthenticated)
    else if !admitted then response == Refused(Unavailable)
    else if !locked then response == Refused(ResourceExhausted)
    else if env.insert.d == Acked && NoSuch(rows, env.newId, req.key) then response == Confirmed(env.newId)
    else response == Refused(Internal)
  }

  lemma LockSeenExactly(stock: map<string, int>, room: string, env: Env, admitted: bool)
    requires GoodStock(stock)
    ensures var seen := LockSeen(stock, room, env, admitted);
            && (seen == StockStatus(true) <==>
                admitted && env.block.d == Acked && env.block.took <= 5000 && room in stock && stock[room] >= 1)
            && (seen != StockStatus(true) ==> seen.CallFailed? && seen.circuitOpen == !admitted)
  {
    CallExactly(stock, room, true, CallInput(env.block, LOCK_DEADLINE, admitted));
  }

  /** One unit of the room is gone, and nothing else. */
  predicate TookOne(before: map<string, int>, after: map<string, int>, room: string) {
    room in before && after == before[room := before[room] - 1]
  }

  lemma LockTakes(stock: map<string, int>, room: string, env: Env, admitted: bool)
    requires GoodStock(stock)
    ensures var call := CallInventory(stock, room, true, CallInput(env.block, LOCK_DEADLINE, admitted));
            call.seen == StockStatus(true) ==> TookOne(stock, call.stock, room)
  {
    CallExactly(stock, room, true, CallInput(env.block, LOCK_DEADLINE, admitted));
  }

  lemma InTimeExactly(net: Net)
    ensures InTime(net) <==> net.d == Acked && net.took <= 3000
  {
  }

  lemma AnswerMeans(stock: map<string, int>, rows: seq<Row>, sagas: map<string, SagaRecord>, req: Saga.Request,
                    env: Env, admitted: bool)
    requires GoodStock(stock)
    ensures Means(stock, rows, sagas, req, env, admitted,
                  AnswerTo(LockSeen(stock, req.room, env, admitted), rows, sagas, req, env))
  {
    LockSeenExactly(stock, req.room, env, admitted);
    FreeExactly(rows, Row(env.newId, env.sagaId, req));
    var found := FindKey(rows, req.key);
  }

  function AnswerInsert(rows: seq<Row>, row: Row, env: Env): Response {
    if env.insert.d == Acked && !Clashes(rows, row) then Confirmed(row.reservationId) else Refused(Internal)
  }

  /** What the lock observes. */
  function LockSeen(stock: map<string, int>, room: string, env: Env, sent: bool): Observation {
    CallInventory(stock, room, true, CallInput(env.block, LOCK_DEADLINE, sent)).seen
  }

  /** The codes of a lock that did not succeed. */
  function LockRefusal(seen: Observation): Response {
    Refused(if seen.CallFailed? && seen.circuitOpen then Unavailable else ResourceExhausted)
  }

  function AnswerLock(seen: Observation, rows: seq<Row>, row: Row, env: Env): Response {
    if seen == StockStatus(true) then AnswerInsert(rows, row, env) else LockRefusal(seen)
  }

  /** The codes of a user that could not be validated. */
  function UserRefusal(user: Observation): Response {
    Refused(if user.CallFailed? && user.circuitOpen then Unavailable else Unauthenticated)
  }

  function AnswerUser(seen: Observation, rows: seq<Row>, row: Row, env: Env): Response {
    if env.user.CallFailed? then UserRefusal(env.user) else AnswerLock(seen, rows, row, env)
  }

  function AnswerStart(seen: Observation, rows: seq<Row>, sagas: map<string, SagaRecord>, req: Saga.Request,
                       env: Env): Response {
    if env.start != Acked || env.sagaId in sagas then Refused(Internal)
    else AnswerUser(seen, rows, Row(env.newId, env.sagaId, req), env)
  }

  /** The response to a request, given the tables it finds, what its calls meet, and what
      its lock would observe. */
  function AnswerTo(seen: Observation, rows: seq<Row>, sagas: map<string, SagaRecord>, req: Saga.Request,
                    env: Env): Response {
    var found := if req.key != "" && env.lookupWorks then FindKey(rows, req.key) else None;
    if found.Some? then Confirmed(found.value) else AnswerStart(seen, rows, sagas, req, env)
  }

  /** What the attempts of a compensation meet: the breaker, the time, the stock. */
  datatype Scene = Scene(breaker: Snapshot, clock: int, stock: map<string, int>)

  /** Before attempt k of a compensation that began at o: the clock shows the pauses and
      at most a deadline per call sent; while nothing was sent, the breaker is untouched
      and refused the attempt before this one. */
  predicate Paced(cfg: Config, o: Scene, k: nat, now: Scene, sent: nat) {
    && sent < k
    && o.clock + PauseBefore(k) <= now.clock <= o.clock + PauseBefore(k) + RELEASE_DEADLINE * sent
    && (sent == 0 ==>
          now.breaker == o.breaker && (k > 1 ==> !Admits(cfg, o.breaker, o.clock + PauseBefore(k - 1))))
    && (sent > 0 ==> Admits(cfg, o.breaker, o.clock + 1500))
  }

  /** ... and no attempt sent so far was acknowledged in time, if the stock had room. */
  predicate Fruitless(env: Env, room: string, o: Scene, k: nat, now: Scene, sentAt: seq<nat>) {
    Space(o.stock, room, ATTEMPTS) ==>
      k <= ATTEMPTS + 1 && Space(now.stock, room, ATTEMPTS + 1 - k) && !AnyInTime(env, sentAt)
  }

  predicate Progress(env: Env, cfg: Config, room: string, o: Scene, k: nat, now: Scene, sentAt: seq<nat>) {
    Paced(cfg, o, k, now, |sentAt|) && Fruitless(env, room, o, k, now, sentAt)
  }

  /** An attempt of a compensation has succeeded. */
  predicate Succeeded(env: Env, cfg: Config, o: Scene, now: Scene, sentAt: seq<nat>) {
    && 0 < |sentAt| <= ATTEMPTS && AnyInTime(env, sentAt) && Admits(cfg, o.breaker, o.clock + 1500)
    && now.clock <= o.clock + PauseBefore(ATTEMPTS + 1) + RELEASE_DEADLINE * |sentAt|
  }

  predicate AttemptClocked(cfg: Config, k: nat, now: Scene, asked: bool, later: Scene, released: bool) {
    && asked == Admits(cfg, now.breaker, now.clock) && (!asked ==> later.breaker == now.breaker)
    && now.clock <= later.clock - (if released then 0 else k * PAUSE)
    && later.clock - (if released then 0 else k * PAUSE) <= now.clock + (if asked then RELEASE_DEADLINE else 0)
  }

  lemma AttemptPaced(cfg: Config, o: Scene, k: nat, now: Scene, sent: nat, asked: bool, later: Scene, released: bool)
    requires Paced(cfg, o, k, now, sent) && 1 <= k <= ATTEMPTS && AttemptClocked(cfg, k, now, asked, later, released)
    ensures var total := sent + if asked then 1 else 0;
            && (total > 0 ==> Admits(cfg, o.breaker, o.clock + 1500))
            && (!released ==> Paced(cfg, o, k + 1, later, total))
            && (released ==> later.clock <= o.clock + PauseBefore(k) + RELEASE_DEADLINE * total)
  {
    assert PauseBefore(1) == 0 && PauseBefore(2) == 500 && PauseBefore(3) == 1500 && PauseBefore(4) == 3000;
  }

  lemma AttemptMade(env: Env, cfg: Config, room: string, o: Scene, k: nat, now: Scene, sentAt: seq<nat>,
                    asked: bool, later: Scene, released: bool)
    requires Progress(env, cfg, room, o, k, now, sentAt) && 1 <= k <= ATTEMPTS
    requires AttemptClocked(cfg, k, now, asked, later, released)
    requires ReleaseDone(now.stock, later.stock, room, asked, env.release(k), released)
    ensures var more := if asked then sentAt + [k] else sentAt;
            if released then Succeeded(env, cfg, o, later, more) else Progress(env, cfg, room, o, k + 1, later, more)
  {
    AttemptPaced(cfg, o, k, now, |sentAt|, asked, later, released);
    SentOne(env, sentAt, k);
    assert PauseBefore(k) <= PauseBefore(ATTEMPTS + 1) by {
      assert PauseBefore(1) == 0 && PauseBefore(2) == 500 && PauseBefore(3) == 1500 && PauseBefore(4) == 3000;
    }
  }

  /** How a compensation that began at o, with no probe in flight, has ended. */
  predicate Settled(env: Env, cfg: Config, room: string, o: Scene, clock: int, sentAt: seq<nat>, released: bool) {
    && |sentAt| <= ATTEMPTS && (released ==> AnyInTime(env, sentAt))
    && (Space(o.stock, room, ATTEMPTS) ==> (released <==> AnyInTime(env, sentAt)))
    && clock - o.clock <= RELEASE_DEADLINE * |sentAt| + 3000 <= 12000
    && (!released ==> clock - o.clock >= 3000)
    && (sentAt == [] <==> o.breaker.state == Open && o.clock + 1500 < o.breaker.openedAt + cfg.openDuration)
  }

  lemma AttemptsOver(env: Env, cfg: Config, room: string, o: Scene, now: Scene, sentAt: seq<nat>, released: bool)
    requires o.breaker.state != HalfOpen
    requires if released then Succeeded(env, cfg, o, now, sentAt)
             else Progress(env, cfg, room, o, ATTEMPTS + 1, now, sentAt)
    ensures Settled(env, cfg, room, o, now.clock, sentAt, released)
  {
    assert PauseBefore(1) == 0 && PauseBefore(2) == 500 && PauseBefore(3) == 1500 && PauseBefore(4) == 3000;
  }

  class Server {
    const inventory: Inventory.RoomTypes
    const inventoryBreaker: CircuitBreaker
    var rows: seq<Row>
    var sagas: map<string, SagaRecord>
    var clock: int
    ghost const start: map<string, int>
    ghost var sessions: seq<Session>
    ghost var history: seq<Action>

    ghost function State(): System
      reads this, inventory
    {
      System(inventory.stock, rows, sagas, sessions)
    }

    /** The tables are those of the reservation system after the actions so far. One
        handler runs at a time, so between its methods no probe is in flight. */
    ghost predicate Valid()
      reads this, inventory, inventoryBreaker
    {
      && GoodStock(start)
      && inventoryBreaker.Valid()
      && inventoryBreaker.state != HalfOpen
      && State() == Run(Initial(start), history)
    }

    constructor (stock: map<string, int>, cfg: Config)
      requires GoodStock(stock)
      ensures Valid() && fresh(inventory) && fresh(inventoryBreaker)
      ensures start == stock == inventory.stock && inventoryBreaker.cfg == cfg && history == [] && sessions == []
                && clock == 0
    {
      inventory := new Inventory.RoomTypes(stock);
      inventoryBreaker := new CircuitBreaker(cfg);
      rows, sagas, clock := [], map[], 0;
      start, sessions, history := stock, [], [];
    }

    ghost predicate Acting(who: nat, p: Point)
      reads this
    {
      who < |sessions| && sessions[who].h.point == p && sessions[who].h.pending == []
    }

    /** Handler `who` moved as it does on observing o, and no other handler moved. */
    twostate predicate Advanced(who: nat, o: Observation)
      reads this
    {
      && who < old(|sessions|) == |sessions|
      && Accepts(old(sessions[who].h), o)
      && sessions[who].h == Advance(old(sessions[who].h), o)
      && forall j :: 0 <= j < |sessions| && j != who ==> sessions[j] == old(sessions[j])
    }

    // --- single statements and calls ----------------------------------------------------------

    ghost method Commit(a: Action, before: System)
      requires before == Run(Initial(start), history)
      modifies `history
      ensures history == old(history) + [a] && Step(before, a) == Run(Initial(start), history)
    {
      Extend(Initial(start), history, a);
      history := history + [a];
    }

    ghost method Accept(req: Saga.Request) returns (who: nat)
      requires Valid()
      modifies this`sessions, this`history
      ensures Valid() && history == old(history) + [Arrive(req)]
      ensures who == |old(sessions)| && sessions == old(sessions) + [Arrived(req)]
    {
      Commit(Arrive(req), State());
      who := |sessions|;
      sessions := sessions + [Arrived(req)];
    }

    method LookupKey(ghost who: nat, key: string, works: bool) returns (found: Option<string>)
      requires Valid() && Acting(who, Lookup) && key == sessions[who].h.req.key
      modifies this`sessions, this`history
      ensures Valid() && history == old(history) + [Act(who, LookupIn(works))]
      ensures Advanced(who, if !works then LookupError else if found.Some? then Found(found.value) else NoRow)
      ensures !works ==> found.None?
    {
      ghost var before := State();
      if works {
        found := FindKey(rows, key);
      } else {
        found := None;
      }
      Commit(Act(who, LookupIn(works)), before);
      sessions := sessions[who := SessionAfter(before, sessions[who], LookupIn(works))];
    }

    /** The INSERT of startSaga. */
    method InsertSaga(ghost who: nat, sagaId: string, newId: string, d: Delivery) returns (ok: bool)
      requires Valid() && Acting(who, Start)
      modifies this`sagas, this`sessions, this`history
      ensures Valid() && history == old(history) + [Act(who, StartIn(sagaId, newId, d))]
      ensures Advanced(who, if ok then SagaInserted(sagaId, newId) else SagaRejected)
      ensures ok <==> d == Acked && sagaId !in old(sagas)
      ensures sagas == if d == NotApplied || sagaId in old(sagas) then old(sagas)
                       else old(sagas)[sagaId :=
                              SagaRecord(SagaRow(newId, Started, Started, NoCompensation, Empty), [])]
    {
      ghost var before := State();
      ok := d == Acked && sagaId !in sagas;
      if d != NotApplied && sagaId !in sagas {
        sagas := sagas[sagaId := SagaRecord(FreshRow(newId), [])];
      }
      Commit(Act(who, StartIn(sagaId, newId, d)), before);
      sessions := sessions[who := SessionAfter(before, sessions[who], StartIn(sagaId, newId, d))];
    }

    /** The UPDATE and the INSERT of recordSagaTransition. */
    method WriteTransition(sagaId: string, state: State, failed: bool, detail: Detail, rowWritten: bool,
                           eventWritten: bool)
      modifies this`sagas
      ensures sagas == Write(old(sagas), sagaId, Entry(state, failed, detail), rowWritten, eventWritten)
      ensures sagaId in old(sagas) ==>
                && sagas.Keys == old(sagas).Keys
                && WritesRow(old(sagas)[sagaId].row, sagas[sagaId].row, state, failed, detail, rowWritten)
                && sagas[sagaId].log ==
                   if eventWritten then old(sagas)[sagaId].log + [Entry(state, failed, detail)]
                   else old(sagas)[sagaId].log
    {
      var compensation := NoCompensation;
      if state == Compensating {
        compensation := Running;
      } else if state == Compensated {
        compensation := CompensationDone;
      } else if state == CompensationFailed {
        compensation := CompensationGaveUp;
      }
      if sagaId in sagas {
        var row, log := sagas[sagaId].row, sagas[sagaId].log;
        if rowWritten {
          row := SagaRow(row.reservationId, state, state,
                         if compensation != NoCompensation then compensation else row.compensation,
                         if failed then detail else row.error);
        }
        if eventWritten {
          log := log + [Entry(state, failed, detail)];
        }
        sagas := sagas[sagaId := SagaRecord(row, log)];
      }
    }

    method RecordSagaTransition(ghost who: nat, sagaId: string, state: State, failed: bool, detail: Detail,
                                rowWritten: bool, eventWritten: bool)
      requires Valid() && who < |sessions| && sagaId == sessions[who].h.sagaId
      requires sessions[who].h.pending != [] && sessions[who].h.pending[0] == Entry(state, failed, detail)
      modifies this`sagas, this`sessions, this`history
      ensures Valid() && history == old(history) + [Act(who, WriteIn(rowWritten, eventWritten))]
      ensures Advanced(who, Recorded)
    {
      ghost var before := State();
      WriteTransition(sagaId, state, failed, detail, rowWritten, eventWritten);
      Commit(Act(who, WriteIn(rowWritten, eventWritten)), before);
      sessions := sessions[who := SessionAfter(before, sessions[who], WriteIn(rowWritten, eventWritten))];
    }

    /** The user and notification calls touch no table of this service. */
    ghost method CallElsewhere(who: nat, o: Observation)
      requires Valid() && (Acting(who, Point.ValidateUser) || Acting(who, Notify)) && Accepts(sessions[who].h, o)
      modifies this`sessions, this`history
      ensures Valid() && old(history) < history && Advanced(who, o)
    {
      var before := State();
      var input := if sessions[who].h.point == Point.ValidateUser then UserIn(o) else NotifyIn(o);
      Commit(Act(who, input), before);
      sessions := sessions[who := SessionAfter(before, sessions[who], input)];
    }

    method InsertReservation(ghost who: nat, row: Row, net: Net) returns (ok: bool)
      requires Valid() && Acting(who, InsertRow) && row == NewRow(sessions[who].h)
      modifies this`rows, this`sessions, this`history
      ensures Valid() && history == old(history) + [Act(who, RowIn(net.d, net.message))]
      ensures Advanced(who, if ok then RowInserted else RowRejected(net.message))
      ensures ok <==> net.d == Acked && NoSuch(old(rows), row.reservationId, row.req.key)
      ensures rows == if net.d != NotApplied && NoSuch(old(rows), row.reservationId, row.req.key) then old(rows) + [row]
                      else old(rows)
    {
      ghost var before := State();
      var applied := net.d != NotApplied && !Clashes(rows, row);
      ok := applied && net.d == Acked;
      FreeExactly(rows, row);
      if applied {
        rows := rows + [row];
      }
      Commit(Act(who, RowIn(net.d, net.message)), before);
      sessions := sessions[who := SessionAfter(before, sessions[who], RowIn(net.d, net.message))];
    }

    /** One UpdateStock call of one unit through the breaker: refused at once while it
        is open, given up at the deadline although it may have taken effect. */
    method Send(room: string, blocking: bool, net: Net, deadline: nat)
      returns (seen: Observation, sent: bool)
      requires inventoryBreaker.Valid() && inventoryBreaker.state != HalfOpen && GoodStock(inventory.stock)
      modifies inventory, inventoryBreaker, this`clock
      ensures inventoryBreaker.Valid() && inventoryBreaker.state != HalfOpen
      ensures var call := CallInventory(old(inventory.stock), room, blocking, CallInput(net, deadline, sent));
              inventory.stock == call.stock && seen == call.seen
      ensures sent == Admits(inventoryBreaker.cfg, old(inventoryBreaker.Now()), old(clock))
      ensures old(clock) <= clock <= old(clock) + (if sent then deadline else 0)
      ensures !sent ==> seen == CallFailed(true, net.message) && inventoryBreaker.Now() == old(inventoryBreaker.Now())
      ensures sent ==> inventoryBreaker.Now() ==
                       Next(inventoryBreaker.cfg,
                            Next(inventoryBreaker.cfg, old(inventoryBreaker.Now()), Event.Allow(old(clock))),
                            if seen.StockStatus? then Success(clock) else Failure(clock))
    {
      sent := AskBreaker();
      if !sent {
        return CallFailed(true, net.message), sent;
      }
      var late := net.took > deadline;
      seen := Exchange(room, blocking, if late && net.d == Acked then LostReply else net.d, net.message);
      clock := clock + if late then deadline else net.took;
      TellBreaker(seen.StockStatus?);
    }

    /** The first critical section of Execute. */
    method AskBreaker() returns (ok: bool)
      requires inventoryBreaker.Valid()
      modifies inventoryBreaker
      ensures inventoryBreaker.Valid()
      ensures ok == Admits(inventoryBreaker.cfg, old(inventoryBreaker.Now()), clock)
      ensures inventoryBreaker.Now() ==
              Next(inventoryBreaker.cfg, old(inventoryBreaker.Now()), Event.Allow(clock))
    {
      FromSnoc(inventoryBreaker.cfg, FRESH, inventoryBreaker.history, Event.Allow(clock));
      ok := inventoryBreaker.Allow(clock);
    }

    /** The second critical section: whatever the first one left, no probe is in flight. */
    method TellBreaker(success: bool)
      requires inventoryBreaker.Valid()
      modifies inventoryBreaker
      ensures inventoryBreaker.Valid() && inventoryBreaker.state != HalfOpen
      ensures inventoryBreaker.Now() ==
              Next(inventoryBreaker.cfg, old(inventoryBreaker.Now()),
                   if success then Success(clock) else Failure(clock))
    {
      if success {
        FromSnoc(inventoryBreaker.cfg, FRESH, inventoryBreaker.history, Success(clock));
        inventoryBreaker.RecordSuccess(clock);
      } else {
        FromSnoc(inventoryBreaker.cfg, FRESH, inventoryBreaker.history, Failure(clock));
        inventoryBreaker.RecordFailure(clock);
      }
    }

    /** The call itself: only an acknowledged status is seen. */
    method Exchange(room: string, blocking: bool, d: Delivery, message: string) returns (seen: Observation)
      requires GoodStock(inventory.stock)
      modifies inventory
      ensures var call := CallInventory(old(inventory.stock), room, blocking, StockIn(d, false, message));
              inventory.stock == call.stock && seen == call.seen
    {
      seen := CallFailed(false, message);
      if d != NotApplied {
        var reply := Ask(room, blocking);
        if d == Acked && reply.Status? {
          seen := StockStatus(reply.ok);
        }
      }
    }

    /** The inventory server's side of the call. */
    method Ask(room: string, blocking: bool) returns (reply: Inventory.Reply)
      requires GoodStock(inventory.stock)
      modifies inventory
      ensures Inventory.Result(reply, inventory.stock) ==
              if blocking then Inventory.Block(old(inventory.stock), room, 1, true)
              else Inventory.Release(old(inventory.stock), room, 1, true)
    {
      Inventory.SagaRequests(inventory.stock, room, true);
      reply := inventory.UpdateStock(
        Inventory.Request(room, 1, if blocking then Inventory.BLOQUEAR else Inventory.LIBERAR), true);
    }

    method UpdateStock(ghost who: nat, room: string, blocking: bool, net: Net, deadline: nat)
      returns (seen: Observation, ghost sent: bool)
      requires Valid() && who < |sessions| && room == sessions[who].h.req.room && sessions[who].h.pending == []
      requires if blocking then sessions[who].h.point == LockStock else sessions[who].h.point.Release?
      modifies inventory, inventoryBreaker, this`clock, this`sessions, this`history
      ensures Valid() && Advanced(who, seen)
      ensures history == old(history) + [Act(who, CallInput(net, deadline, sent))]
      ensures var call := CallInventory(old(inventory.stock), room, blocking, CallInput(net, deadline, sent));
              inventory.stock == call.stock && seen == call.seen
      ensures sent == Admits(inventoryBreaker.cfg, old(inventoryBreaker.Now()), old(clock))
      ensures old(clock) <= clock <= old(clock) + (if sent then deadline else 0)
      ensures !sent ==> seen == CallFailed(true, net.message) && inventoryBreaker.Now() == old(inventoryBreaker.Now())
    {
      RunOk(start, history);
      ghost var before := State();
      seen, sent := Send(room, blocking, net, deadline);
      ghost var input := CallInput(net, deadline, sent);
      Commit(Act(who, input), before);
      sessions := sessions[who := SessionAfter(before, sessions[who], input)];
    }

    /** What the lock of a request for the room would observe now. */
    ghost function Lock(room: string, env: Env): Observation
      reads this, inventory, inventoryBreaker
    {
      LockSeen(inventory.stock, room, env, Admits(inventoryBreaker.cfg, inventoryBreaker.Now(), clock))
    }

    method AskLock(ghost who: nat, room: string, env: Env) returns (seen: Observation)
      requires Valid() && Acting(who, LockStock) && room == sessions[who].h.req.room
      modifies inventory, inventoryBreaker, this`clock, this`sessions, this`history
      ensures Valid() && old(history) < history && Advanced(who, seen)
      ensures seen == old(Lock(room, env))
      ensures seen == StockStatus(true) ==> TookOne(old(inventory.stock), inventory.stock, room)
    {
      RunOk(start, history);
      LockTakes(inventory.stock, room, env, Admits(inventoryBreaker.cfg, inventoryBreaker.Now(), clock));
      ghost var sent;
      seen, sent := UpdateStock(who, room, true, env.block, LOCK_DEADLINE);
    }

    method AskRelease(ghost who: nat, room: string, net: Net) returns (seen: Observation, ghost asked: bool)
      requires Valid() && who < |sessions| && room == sessions[who].h.req.room
      requires sessions[who].h.pending == [] && sessions[who].h.point.Release?
      modifies inventory, inventoryBreaker, this`clock, this`sessions, this`history
      ensures Valid() && old(history) < history && Advanced(who, seen)
      ensures asked == Admits(inventoryBreaker.cfg, old(inventoryBreaker.Now()), old(clock))
      ensures old(clock) <= clock <= old(clock) + (if asked then RELEASE_DEADLINE else 0)
      ensures !asked ==> seen.CallFailed? && inventoryBreaker.Now() == old(inventoryBreaker.Now())
      ensures ReleaseDone(old(inventory.stock), inventory.stock, room, asked, net, seen == StockStatus(true))
    {
      RunOk(start, history);
      ReleaseSeen(inventory.stock, room, Admits(inventoryBreaker.cfg, inventoryBreaker.Now(), clock), net);
      seen, asked := UpdateStock(who, room, false, net, RELEASE_DEADLINE);
    }

    // --- the handlers ---------------------------------------------------------------------------

    method FailSaga(ghost who: nat, sagaId: string, state: State, detail: Detail, env: Env, k: nat)
      requires Valid() && who < |sessions| && sagaId == sessions[who].h.sagaId
      requires sessions[who].h.pending == Saga.FailSaga(state, detail)
      modifies this`sagas, this`sessions, this`history
      ensures Valid() && OnlyTouched(who)
      ensures sessions[who].h ==
                old(sessions[who].h).(pending := [], trace := old(sessions[who].h.trace + sessions[who].h.pending))
    {
      RecordSagaTransition(who, sagaId, state, true, detail, env.rowWritten(k), env.eventWritten(k));
      RecordSagaTransition(who, sagaId, SagaFailed, true, detail, env.rowWritten(k + 1), env.eventWritten(k + 1));
    }

    twostate predicate OnlyTouched(who: nat)
      reads this
    {
      && old(history) <= history
      && who < old(|sessions|) == |sessions|
      && sessions[who].h.req == old(sessions[who].h.req)
      && forall j :: 0 <= j < |sessions| && j != who ==> sessions[j] == old(sessions[j])
    }

    /** The saga stands just before release attempt k, or has used up its attempts. */
    ghost predicate Releasing(who: nat, sagaId: string, k: nat)
      reads this
    {
      && who < |sessions| && sessions[who].h.sagaId == sagaId
      && if k <= ATTEMPTS then
           sessions[who].h.point == Release(k) && sessions[who].h.pending == []
         else
           && sessions[who].h.point == Done && sessions[who].h.response == Some(Refused(Internal))
           && sessions[who].h.pending == [Bad(CompensationFailed, ReleaseGaveUp), Bad(SagaFailed, NotPersisted)]
    }

    /** The compensation is over, its result recorded, and FAILED is still to be recorded. */
    ghost predicate CompensationOver(who: nat, sagaId: string, released: bool)
      reads this
    {
      && who < |sessions|
      && var h := sessions[who].h;
      && h.sagaId == sagaId && h.point == Done && h.response == Some(Refused(Internal))
      && h.pending == [Bad(SagaFailed, NotPersisted)]
      && h.trace != []
      && h.trace[|h.trace| - 1].state == if released then Compensated else CompensationFailed
    }

    method AttemptRelease(ghost who: nat, sagaId: string, room: string, attempt: nat, env: Env)
      returns (released: bool, ghost asked: bool)
      requires Valid() && 1 <= attempt <= ATTEMPTS && Releasing(who, sagaId, attempt)
                 && room == sessions[who].h.req.room
      modifies inventory, inventoryBreaker, this`clock, this`sagas, this`sessions, this`history
      ensures Valid() && OnlyTouched(who)
      ensures if released then asked && CompensationOver(who, sagaId, true) else Releasing(who, sagaId, attempt + 1)
      ensures AttemptClocked(inventoryBreaker.cfg, attempt, old(Now()), asked, Now(), released)
      ensures ReleaseDone(old(inventory.stock), inventory.stock, room, asked, env.release(attempt), released)
    {
      var seen;
      seen, asked := AskRelease(who, room, env.release(attempt));
      released := seen == StockStatus(true);
      if released {
        RecordSagaTransition(who, sagaId, Compensated, false, ReleasedOnAttempt(attempt),
                             env.rowWritten(5), env.eventWritten(5));
      } else {
        clock := clock + attempt * PAUSE;
      }
    }

    ghost function Now(): Scene
      reads this, inventory, inventoryBreaker
    {
      Scene(inventoryBreaker.Now(), clock, inventory.stock)
    }

    /** One attempt of the loop, in the account of the compensation that began at o. */
    method CountedRelease(ghost who: nat, sagaId: string, room: string, attempt: nat, env: Env,
                          ghost o: Scene, ghost sentAt: seq<nat>)
      returns (released: bool, ghost more: seq<nat>)
      requires Valid() && 1 <= attempt <= ATTEMPTS && Releasing(who, sagaId, attempt)
      requires room == sessions[who].h.req.room
      requires Progress(env, inventoryBreaker.cfg, room, o, attempt, Now(), sentAt)
      modifies inventory, inventoryBreaker, this`clock, this`sagas, this`sessions, this`history
      ensures Valid() && OnlyTouched(who)
      ensures if released then CompensationOver(who, sagaId, true) else Releasing(who, sagaId, attempt + 1)
      ensures if released then Succeeded(env, inventoryBreaker.cfg, o, Now(), more)
              else Progress(env, inventoryBreaker.cfg, room, o, attempt + 1, Now(), more)
    {
      ghost var now := Now();
      ghost var asked;
      released, asked := AttemptRelease(who, sagaId, room, attempt, env);
      AttemptMade(env, inventoryBreaker.cfg, room, o, attempt, now, sentAt, asked, Now(), released);
      more := if asked then sentAt + [attempt] else sentAt;
    }

    /** The loop of compensateInventory: three attempts, each failure followed by a pause. */
    method AttemptReleases(ghost who: nat, sagaId: string, room: string, env: Env)
      returns (released: bool, ghost sentAt: seq<nat>)
      requires Valid() && Releasing(who, sagaId, 1) && room == sessions[who].h.req.room
      modifies inventory, inventoryBreaker, this`clock, this`sagas, this`sessions, this`history
      ensures Valid() && OnlyTouched(who)
      ensures if released then CompensationOver(who, sagaId, true) else Releasing(who, sagaId, ATTEMPTS + 1)
      ensures if released then Succeeded(env, inventoryBreaker.cfg, old(Now()), Now(), sentAt)
              else Progress(env, inventoryBreaker.cfg, room, old(Now()), ATTEMPTS + 1, Now(), sentAt)
    {
      ghost var cfg, o := inventoryBreaker.cfg, Now();
      sentAt := [];
      var attempt := 1;
      while attempt <= ATTEMPTS
        invariant 1 <= attempt <= ATTEMPTS + 1
        invariant Valid() && OnlyTouched(who) && Releasing(who, sagaId, attempt)
        invariant Progress(env, cfg, room, o, attempt, Now(), sentAt)
      {
        released, sentAt := CountedRelease(who, sagaId, room, attempt, env, o, sentAt);
        if released {
          return;
        }
        attempt := attempt + 1;
      }
      released := false;
    }

    /** compensateInventory: pauses of 0.5, 1 and 1.5 s, no attempt longer than its
        deadline, so at most 12 s. With no other call in flight, nothing at all is sent
        exactly when the breaker is open for more than another 1.5 s, and the unit is given
        back exactly when some attempt that was sent is acknowledged in time, the column
        having room. Modules OpenBreaker and Refusals say what holds while others move. */
    method CompensateInventory(ghost who: nat, sagaId: string, room: string, env: Env)
      returns (released: bool, ghost sentAt: seq<nat>)
      requires Valid() && who < |sessions| && sagaId == sessions[who].h.sagaId && room == sessions[who].h.req.room
      requires sessions[who].h.point == Release(1) && sessions[who].h.pending == [Ok(Compensating, Detail.Releasing)]
      modifies inventory, inventoryBreaker, this`clock, this`sagas, this`sessions, this`history
      ensures Valid() && OnlyTouched(who) && CompensationOver(who, sagaId, released)
      ensures Settled(env, inventoryBreaker.cfg, room, old(Now()), clock, sentAt, released)
    {
      RecordSagaTransition(who, sagaId, Compensating, false, Detail.Releasing, env.rowWritten(4), env.eventWritten(4));
      released, sentAt := ReleaseOrGiveUp(who, sagaId, room, env);
    }

    /** The attempts, and COMPENSATION_FAILED when none succeeds. */
    method ReleaseOrGiveUp(ghost who: nat, sagaId: string, room: string, env: Env)
      returns (released: bool, ghost sentAt: seq<nat>)
      requires Valid() && Releasing(who, sagaId, 1) && room == sessions[who].h.req.room
      modifies inventory, inventoryBreaker, this`clock, this`sagas, this`sessions, this`history
      ensures Valid() && OnlyTouched(who) && CompensationOver(who, sagaId, released)
      ensures Settled(env, inventoryBreaker.cfg, room, old(Now()), clock, sentAt, released)
    {
      released, sentAt := AttemptReleases(who, sagaId, room, env);
      AttemptsOver(env, inventoryBreaker.cfg, room, old(Now()), Now(), sentAt, released);
      if !released {
        RecordSagaTransition(who, sagaId, CompensationFailed, true, ReleaseGaveUp,
                             env.rowWritten(5), env.eventWritten(5));
      }
    }

    /** The handler has ended with this response, and its session says so. */
    ghost predicate Answered(who: nat, response: Response)
      reads this
    {
      who < |sessions| && Finished(sessions[who].h) && sessions[who].h.response == Some(response)
    }

    /** The insert failed: compensate, then close the saga. */
    method UndoReservation(ghost who: nat, row: Row, env: Env)
      requires Valid() && who < |sessions| && row == NewRow(sessions[who].h) && sessions[who].h.point == Release(1)
      requires sessions[who].h.pending ==
               [Bad(ReservationInsertFailed, ServiceError(env.insert.message)), Ok(Compensating, Detail.Releasing)]
      modifies inventory, inventoryBreaker, this`clock, this`sagas, this`sessions, this`history
      ensures Valid() && OnlyTouched(who) && Answered(who, Refused(Internal))
    {
      RecordSagaTransition(who, row.sagaId, ReservationInsertFailed, true, ServiceError(env.insert.message),
                           env.rowWritten(3), env.eventWritten(3));
      var released, sentAt := CompensateInventory(who, row.sagaId, row.req.room, env);
      RecordSagaTransition(who, row.sagaId, SagaFailed, true, NotPersisted, env.rowWritten(6), env.eventWritten(6));
    }

    /** From the insert on: confirm and notify, or compensate. */
    method ConfirmReservation(ghost who: nat, row: Row, env: Env) returns (response: Response)
      requires Valid() && Acting(who, InsertRow) && row == NewRow(sessions[who].h)
      requires env.notify.NotificationSent? || env.notify.CallFailed?
      modifies inventory, inventoryBreaker, this`clock, this`rows, this`sagas, this`sessions, this`history
      ensures Valid() && OnlyTouched(who) && Answered(who, response)
      ensures response == AnswerInsert(old(rows), row, env)
      ensures rows == if env.insert.d != NotApplied && NoSuch(old(rows), row.reservationId, row.req.key)
                      then old(rows) + [row] else old(rows)
      ensures response.Confirmed? ==> inventory.stock == old(inventory.stock)
    {
      var ok := InsertReservation(who, row, env.insert);
      if !ok {
        UndoReservation(who, row, env);
        return Refused(Internal);
      }
      CompleteReservation(who, row, env);
      return Confirmed(row.reservationId);
    }

    /** What follows the acknowledged insert. */
    method CompleteReservation(ghost who: nat, row: Row, env: Env)
      requires Valid() && who < |sessions| && row == NewRow(sessions[who].h) && sessions[who].h.point == Notify
      requires sessions[who].h.pending ==
               [Ok(ReservationCreated, Created(row.reservationId)), Ok(NotificationDispatching, Detail.Dispatching)]
      requires env.notify.NotificationSent? || env.notify.CallFailed?
      modifies this`sagas, this`sessions, this`history
      ensures Valid() && OnlyTouched(who) && Finished(sessions[who].h)
      ensures sessions[who].h.response == old(sessions[who].h.response)
    {
      RecordSagaTransition(who, row.sagaId, ReservationCreated, false, Created(row.reservationId),
                           env.rowWritten(3), env.eventWritten(3));
      RecordSagaTransition(who, row.sagaId, NotificationDispatching, false, Detail.Dispatching,
                           env.rowWritten(4), env.eventWritten(4));
      NotifyUser(who, row.sagaId, env);
    }

    /** The goroutine that follows a confirmed reservation. */
    method NotifyUser(ghost who: nat, sagaId: string, env: Env)
      requires Valid() && Acting(who, Notify) && sagaId == sessions[who].h.sagaId
      requires env.notify.NotificationSent? || env.notify.CallFailed?
      modifies this`sagas, this`sessions, this`history
      ensures Valid() && OnlyTouched(who) && Finished(sessions[who].h)
      ensures sessions[who].h.response == old(sessions[who].h.response)
    {
      CallElsewhere(who, env.notify);
      if env.notify.CallFailed? {
        RecordSagaTransition(who, sagaId, CompletedWithNotificationFailure, true, ServiceError(env.notify.message),
                             env.rowWritten(5), env.eventWritten(5));
      } else {
        RecordSagaTransition(who, sagaId, Completed, false, Processed, env.rowWritten(5), env.eventWritten(5));
      }
    }

    /** The lock: its three refusals end the saga. */
    method LockUnit(ghost who: nat, row: Row, env: Env) returns (seen: Observation)
      requires Valid() && Acting(who, LockStock) && row == NewRow(sessions[who].h)
      modifies inventory, inventoryBreaker, this`clock, this`sagas, this`sessions, this`history
      ensures Valid() && OnlyTouched(who) && seen == old(Lock(row.req.room, env))
      ensures seen == StockStatus(true) ==> TookOne(old(inventory.stock), inventory.stock, row.req.room)
      ensures seen == StockStatus(true) ==> Acting(who, InsertRow) && row == NewRow(sessions[who].h)
      ensures seen != StockStatus(true) ==> Answered(who, LockRefusal(seen))
    {
      seen := AskLock(who, row.req.room, env);
      if seen.CallFailed? {
        FailSaga(who, row.sagaId, StockLockFailed, ServiceError(seen.message), env, 2);
      } else if !seen.ok {
        FailSaga(who, row.sagaId, StockUnavailable, StatusFalse, env, 2);
      } else {
        RecordSagaTransition(who, row.sagaId, StockLocked, false, RoomLocked(row.req.room),
                             env.rowWritten(2), env.eventWritten(2));
      }
    }

    /** From the lock on. */
    method LockAndConfirm(ghost who: nat, row: Row, env: Env) returns (response: Response)
      requires Valid() && Acting(who, LockStock) && row == NewRow(sessions[who].h)
      requires env.notify.NotificationSent? || env.notify.CallFailed?
      modifies inventory, inventoryBreaker, this`clock, this`rows, this`sagas, this`sessions, this`history
      ensures Valid() && OnlyTouched(who) && Answered(who, response)
      ensures response == AnswerLock(old(Lock(row.req.room, env)), old(rows), row, env)
      ensures response.Confirmed? ==>
                TookOne(old(inventory.stock), inventory.stock, row.req.room) && rows == old(rows) + [row]
    {
      var seen := LockUnit(who, row, env);
      if seen != StockStatus(true) {
        return LockRefusal(seen);
      }
      response := ConfirmReservation(who, row, env);
    }

    /** The user validation: a failure ends the saga. */
    method ValidateUser(ghost who: nat, row: Row, env: Env) returns (ok: bool)
      requires Valid() && Acting(who, Point.ValidateUser) && row == NewRow(sessions[who].h)
      requires env.user.UserFound? || env.user.CallFailed?
      modifies this`sagas, this`sessions, this`history
      ensures Valid() && OnlyTouched(who) && ok == env.user.UserFound?
      ensures ok ==> Acting(who, LockStock) && row == NewRow(sessions[who].h)
      ensures !ok ==> Answered(who, UserRefusal(env.user))
    {
      CallElsewhere(who, env.user);
      ok := env.user.UserFound?;
      if ok {
        RecordSagaTransition(who, row.sagaId, UserValidated, false, ValidatedUser(env.user.name),
                             env.rowWritten(1), env.eventWritten(1));
      } else {
        FailSaga(who, row.sagaId, UserValidationFailed, ServiceError(env.user.message), env, 1);
      }
    }

    /** From the user validation on. */
    method ValidateAndBook(ghost who: nat, row: Row, env: Env) returns (response: Response)
      requires Valid() && Acting(who, Point.ValidateUser) && row == NewRow(sessions[who].h)
      requires env.user.UserFound? || env.user.CallFailed?
      requires env.notify.NotificationSent? || env.notify.CallFailed?
      modifies inventory, inventoryBreaker, this`clock, this`rows, this`sagas, this`sessions, this`history
      ensures Valid() && OnlyTouched(who) && Answered(who, response)
      ensures response == AnswerUser(old(Lock(row.req.room, env)), old(rows), row, env)
      ensures response.Confirmed? ==>
                TookOne(old(inventory.stock), inventory.stock, row.req.room) && rows == old(rows) + [row]
    {
      var ok := ValidateUser(who, row, env);
      if !ok {
        return UserRefusal(env.user);
      }
      response := LockAndConfirm(who, row, env);
    }

    /** CreateReservation, run without interference: it leaves the tables in a state the
        reservation system can reach, ends its saga, answers what the saga says, touches
        no other request, and confirms only a reservation that is in the table under
        the request's key. */
    method CreateReservation(req: Saga.Request, env: Env) returns (response: Response, ghost who: nat)
      requires Valid()
      requires env.user.UserFound? || env.user.CallFailed?
      requires env.notify.NotificationSent? || env.notify.CallFailed?
      modifies inventory, inventoryBreaker, this`clock, this`rows, this`sagas, this`sessions, this`history
      ensures Valid() && old(history) <= history && who == old(|sessions|) && |sessions| == who + 1
      ensures forall j :: 0 <= j < who ==> sessions[j] == old(sessions[j])
      ensures sessions[who].h.req == req && Answered(who, response)
      ensures response == AnswerTo(old(Lock(req.room, env)), old(rows), old(sagas), req, env)
      ensures Means(old(inventory.stock), old(rows), old(sagas), req, env,
                    Admits(inventoryBreaker.cfg, old(inventoryBreaker.Now()), old(clock)), response)
      ensures response.Confirmed? ==>
                || (inventory.stock == old(inventory.stock) && rows == old(rows))
                || (TookOne(old(inventory.stock), inventory.stock, req.room)
                    && rows == old(rows) + [Row(env.newId, env.sagaId, req)])
      ensures response.Confirmed? ==> HasRow(rows, response.reservationId, req.key)
    {
      RunOk(start, history);
      AnswerMeans(inventory.stock, rows, sagas, req, env, Admits(inventoryBreaker.cfg, inventoryBreaker.Now(), clock));
      who := Accept(req);
      response := Serve(who, req, env);
      RunUnique(start, history);
      assert Backed(sessions[who].h, rows);
    }

    method Serve(ghost who: nat, req: Saga.Request, env: Env) returns (response: Response)
      requires Valid() && who < |sessions| && sessions[who].h == Begin(req)
      requires env.user.UserFound? || env.user.CallFailed?
      requires env.notify.NotificationSent? || env.notify.CallFailed?
      modifies inventory, inventoryBreaker, this`clock, this`rows, this`sagas, this`sessions, this`history
      ensures Valid() && OnlyTouched(who) && Answered(who, response)
      ensures response == AnswerTo(old(Lock(req.room, env)), old(rows), old(sagas), req, env)
      ensures response.Confirmed? ==>
                || (inventory.stock == old(inventory.stock) && rows == old(rows))
                || (TookOne(old(inventory.stock), inventory.stock, req.room)
                    && rows == old(rows) + [Row(env.newId, env.sagaId, req)])
    {
      if req.key != "" {
        var found := LookupKey(who, req.key, env.lookupWorks);
        if found.Some? {
          return Confirmed(found.value);
        }
      }
      response := StartAndBook(who, req, env);
    }

    /** startSaga: the insert and the first transition. */
    method StartSaga(ghost who: nat, env: Env) returns (ok: bool)
      requires Valid() && Acting(who, Start)
      modifies this`sagas, this`sessions, this`history
      ensures Valid() && OnlyTouched(who)
      ensures ok <==> env.start == Acked && env.sagaId !in old(sagas)
      ensures ok ==>
                && Acting(who, Point.ValidateUser)
                && NewRow(sessions[who].h) == Row(env.newId, env.sagaId, sessions[who].h.req)
      ensures !ok ==> Answered(who, Refused(Internal))
    {
      ok := InsertSaga(who, env.sagaId, env.newId, env.start);
      if ok {
        RecordSagaTransition(who, env.sagaId, Started, false, Begun, env.rowWritten(0), env.eventWritten(0));
      }
    }

    /** From startSaga on. */
    method StartAndBook(ghost who: nat, req: Saga.Request, env: Env) returns (response: Response)
      requires Valid() && Acting(who, Start) && sessions[who].h.req == req
      requires env.user.UserFound? || env.user.CallFailed?
      requires env.notify.NotificationSent? || env.notify.CallFailed?
      modifies inventory, inventoryBreaker, this`clock, this`rows, this`sagas, this`sessions, this`history
      ensures Valid() && OnlyTouched(who) && Answered(who, response)
      ensures response == AnswerStart(old(Lock(req.room, env)), old(rows), old(sagas), req, env)
      ensures response.Confirmed? ==>
                && TookOne(old(inventory.stock), inventory.stock, req.room)
                && rows == old(rows) + [Row(env.newId, env.sagaId, req)]
    {
      var ok := StartSaga(who, env);
      if !ok {
        return Refused(Internal);
      }
      response := ValidateAndBook(who, Row(env.newId, env.sagaId, req), env);
    }
  }

  /** So the server, at any moment, accounts for every unit it started with. */
  lemma ServerConserves(server: Server, room: string)
    requires server.Valid() && room in server.start
    ensures room in server.inventory.stock
    ensures Accountable(server.State(), room) == server.start[room] + Drift(server.State(), room)
  {
    ExactConservation(server.start, server.history, room);
  }
}
