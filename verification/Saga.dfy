/** The control flow of CreateReservation and compensateInventory
    (mi-servicio/main.go) as an automaton over what the handler observes, whatever
    the other services answer; and the saga row as recordSagaTransition keeps it. */
module Saga {

  datatype Option<+T> = None | Some(value: T)

  // --- the saga tables ----------------------------------------------------------

  datatype State =
    | Started | UserValidated | StockLocked | ReservationCreated | NotificationDispatching
    | Completed | CompletedWithNotificationFailure
    | Compensating | Compensated | CompensationFailed | SagaFailed
    | UserValidationFailed | StockLockFailed | StockUnavailable | ReservationInsertFailed

  /** The detail column: which message it is and what is interpolated in it. */
  datatype Detail =
    | Empty
    | Begun
    | ValidatedUser(name: string)
    | ServiceError(message: string)
    | RoomLocked(room: string)
    | StatusFalse
    | Created(reservationId: string)
    | Dispatching
    | Processed
    | Releasing
    | ReleasedOnAttempt(attempt: nat)
    | ReleaseGaveUp
    | NotPersisted

  datatype Entry = Entry(state: State, failed: bool, detail: Detail)

  datatype Compensation = NoCompensation | Running | CompensationDone | CompensationGaveUp

  /** A row of reservation_sagas; status and current_step are always written together. */
  datatype SagaRow = SagaRow(
    reservationId: string,
    status: State,
    currentStep: State,
    compensation: Compensation,
    error: Detail)

  function FreshRow(reservationId: string): SagaRow {
    SagaRow(reservationId, Started, Started, NoCompensation, Empty)
  }

  function CompensationOf(s: State): Compensation {
    match s
    case Compensating => Running
    case Compensated => CompensationDone
    case CompensationFailed => CompensationGaveUp
    case _ => NoCompensation
  }

  /** The UPDATE of recordSagaTransition, with its two CASE expressions. */
  function UpdateRow(row: SagaRow, e: Entry): SagaRow {
    row.(status := e.state,
         currentStep := e.state,
         compensation :=
           if CompensationOf(e.state) != NoCompensation then CompensationOf(e.state) else row.compensation,
         error := if e.failed then e.detail else row.error)
  }

  function Replay(reservationId: string, log: seq<Entry>): SagaRow {
    if log == [] then FreshRow(reservationId)
    else UpdateRow(Replay(reservationId, log[..|log| - 1]), log[|log| - 1])
  }

  /** x is the value of the last entry of the log that has one, or the default. */
  ghost predicate IsLatest<T(!new)>(log: seq<Entry>, has: Entry -> bool, value: Entry -> T, default: T, x: T) {
    || (x == default && forall i :: 0 <= i < |log| ==> !has(log[i]))
    || exists i :: 0 <= i < |log| && has(log[i]) && x == value(log[i]) && forall j :: i < j < |log| ==> !has(log[j])
  }

  /** A replayed row says: the last step, the detail of the last failed event, and
      the last compensation value other than NONE. */
  lemma {:induction false} ReplayedRow(id: string, log: seq<Entry>)
    ensures
      var row := Replay(id, log);
      && row.reservationId == id
      && row.status == row.currentStep == (if log == [] then Started else log[|log| - 1].state)
      && IsLatest(log, (e: Entry) => e.failed, (e: Entry) => e.detail, Empty, row.error)
      && IsLatest(log, (e: Entry) => CompensationOf(e.state) != NoCompensation, (e: Entry) => CompensationOf(e.state),
           NoCompensation, row.compensation)
  {
    if log == [] {
    } else {
      var front, last := log[..|log| - 1], log[|log| - 1];
      ReplayedRow(id, front);
      LatestOfSnoc(front, last, (e: Entry) => e.failed, (e: Entry) => e.detail, Empty, Replay(id, front).error);
      LatestOfSnoc(front, last, (e: Entry) => CompensationOf(e.state) != NoCompensation,
                   (e: Entry) => CompensationOf(e.state), NoCompensation, Replay(id, front).compensation);
      assert front + [last] == log;
    }
  }

  lemma {:induction false} LatestOfSnoc<T(!new)>(front: seq<Entry>, last: Entry, has: Entry -> bool,
                                                 value: Entry -> T, default: T, x: T)
    requires IsLatest(front, has, value, default, x)
    ensures IsLatest(front + [last], has, value, default, if has(last) then value(last) else x)
  {
    var log := front + [last];
    if has(last) {
      assert has(log[|front|]) && value(last) == value(log[|front|]);
    } else if exists i :: 0 <= i < |front| && has(front[i]) {
      var i :| 0 <= i < |front| && has(front[i]) && x == value(front[i])
               && forall j :: i < j < |front| ==> !has(front[j]);
      assert has(log[i]) && x == value(log[i]);
    }
  }

  // --- the handler -----------------------------------------------------------------

  datatype Request = Request(user: string, room: string, key: string)

  datatype Code = Internal | Unauthenticated | Unavailable | ResourceExhausted

  /** The answer of CreateReservation; a success always reads CONFIRMADA, 150.50. */
  datatype Response = Confirmed(reservationId: string) | Refused(code: Code)

  datatype Point =
    | Lookup | Start | ValidateUser | LockStock | InsertRow | Release(attempt: nat) | Notify | Done

  /** A running handler: the transitions it has still to record before it acts at
      `point`, those it has recorded, and the response it has settled on. */
  datatype Handler = Handler(
    req: Request,
    point: Point,
    pending: seq<Entry>,
    trace: seq<Entry>,
    sagaId: string,
    reservationId: string,
    response: Option<Response>)

  datatype Observation =
    | Found(reservationId: string) | NoRow | LookupError
    | SagaInserted(sagaId: string, newId: string) | SagaRejected
    | UserFound(name: string)
    | CallFailed(circuitOpen: bool, message: string)
    | StockStatus(ok: bool)
    | RowInserted | RowRejected(message: string)
    | NotificationSent
    | Recorded

  /** A stock call answered with status = true. */
  predicate Granted(o: Observation) {
    o.StockStatus? && o.ok
  }

  predicate Denied(o: Observation) {
    o.StockStatus? && !o.ok
  }

  const ATTEMPTS: nat := 3

  const PAUSE: nat := 500

  /** The pauses, in milliseconds, before release attempt k: PAUSE times j after each
      failed attempt j. */
  function PauseBefore(k: nat): nat {
    if k <= 1 then 0 else PauseBefore(k - 1) + (k - 1) * PAUSE
  }

  /** Failing n attempts takes 250 n (n + 1) ms of pauses, whatever n. */
  lemma {:induction false} PauseTotal(n: nat)
    ensures PauseBefore(n + 1) == 250 * n * (n + 1)
  {
    if n == 0 {
    } else {
      PauseTotal(n - 1);
    }
  }

  function Begin(req: Request): Handler {
    Handler(req, if req.key == "" then Start else Lookup, [], [], "", "", None)
  }

  predicate Finished(h: Handler) {
    h.point == Done && h.pending == []
  }

  predicate Accepts(h: Handler, o: Observation) {
    if h.pending != [] then o == Recorded
    else match h.point
      case Lookup => o.Found? || o.NoRow? || o.LookupError?
      case Start => o.SagaInserted? || o.SagaRejected?
      case ValidateUser => o.UserFound? || o.CallFailed?
      case LockStock => o.StockStatus? || o.CallFailed?
      case InsertRow => o.RowInserted? || o.RowRejected?
      case Release(_) => o.StockStatus? || o.CallFailed?
      case Notify => o.NotificationSent? || o.CallFailed?
      case Done => false
  }

  function Ok(s: State, d: Detail): Entry { Entry(s, false, d) }

  function Bad(s: State, d: Detail): Entry { Entry(s, true, d) }

  /** failSaga: the failing step, then FAILED, both with the same detail. */
  function FailSaga(s: State, d: Detail): seq<Entry> { [Bad(s, d), Bad(SagaFailed, d)] }

  function Advance(h: Handler, o: Observation): Handler
    requires Accepts(h, o)
  {
    if h.pending != [] then
      h.(trace := h.trace + [h.pending[0]], pending := h.pending[1..])
    else match h.point
      case Lookup =>
        if o.Found? then h.(point := Done, response := Some(Confirmed(o.reservationId)))
        else h.(point := Start)
      case Start =>
        if o.SagaRejected? then h.(point := Done, response := Some(Refused(Internal)))
        else h.(point := ValidateUser, sagaId := o.sagaId, reservationId := o.newId, pending := [Ok(Started, Begun)])
      case ValidateUser =>
        if o.CallFailed? then
          h.(point := Done, pending := FailSaga(UserValidationFailed, ServiceError(o.message)),
             response := Some(Refused(if o.circuitOpen then Unavailable else Unauthenticated)))
        else h.(point := LockStock, pending := [Ok(UserValidated, ValidatedUser(o.name))])
      case LockStock =>
        if o.CallFailed? then
          h.(point := Done, pending := FailSaga(StockLockFailed, ServiceError(o.message)),
             response := Some(Refused(if o.circuitOpen then Unavailable else ResourceExhausted)))
        else if !o.ok then
          h.(point := Done, pending := FailSaga(StockUnavailable, StatusFalse),
             response := Some(Refused(ResourceExhausted)))
        else h.(point := InsertRow, pending := [Ok(StockLocked, RoomLocked(h.req.room))])
      case InsertRow =>
        if o.RowRejected? then
          h.(point := Release(1),
             pending := [Bad(ReservationInsertFailed, ServiceError(o.message)), Ok(Compensating, Releasing)])
        else
          h.(point := Notify, response := Some(Confirmed(h.reservationId)),
             pending := [Ok(ReservationCreated, Created(h.reservationId)), Ok(NotificationDispatching, Dispatching)])
      case Release(k) =>
        if Granted(o) then
          h.(point := Done, response := Some(Refused(Internal)),
             pending := [Ok(Compensated, ReleasedOnAttempt(k)), Bad(SagaFailed, NotPersisted)])
        else if k < ATTEMPTS then h.(point := Release(k + 1))
        else
          h.(point := Done, response := Some(Refused(Internal)),
             pending := [Bad(CompensationFailed, ReleaseGaveUp), Bad(SagaFailed, NotPersisted)])
      case Notify =>
        h.(point := Done,
           pending := if o.NotificationSent? then [Ok(Completed, Processed)]
                      else [Bad(CompletedWithNotificationFailure, ServiceError(o.message))])
  }

  /** A handler driven by any observations at all; one it does not wait for is skipped. */
  function Drive(h: Handler, os: seq<Observation>): Handler {
    if os == [] then h
    else
      var g := Drive(h, os[..|os| - 1]);
      if Accepts(g, os[|os| - 1]) then Advance(g, os[|os| - 1]) else g
  }

  // --- the shape of every trace --------------------------------------------------------

  function States(log: seq<Entry>): (s: seq<State>)
    ensures |s| == |log|
  {
    seq(|log|, i requires 0 <= i < |log| => log[i].state)
  }

  lemma {:induction false} StatesConcat(a: seq<Entry>, b: seq<Entry>)
    ensures States(a + b) == States(a) + States(b)
  {
  }

  datatype Shape =
    | UserRefused | LockRefused | NoStock
    | NotPersistedReleased | NotPersistedStranded
    | Notified | NotNotified

  function Path(s: Shape): seq<State> {
    match s
    case UserRefused => [Started, UserValidationFailed, SagaFailed]
    case LockRefused => [Started, UserValidated, StockLockFailed, SagaFailed]
    case NoStock => [Started, UserValidated, StockUnavailable, SagaFailed]
    case NotPersistedReleased =>
      [Started, UserValidated, StockLocked, ReservationInsertFailed, Compensating, Compensated, SagaFailed]
    case NotPersistedStranded =>
      [Started, UserValidated, StockLocked, ReservationInsertFailed, Compensating, CompensationFailed, SagaFailed]
    case Notified => [Started, UserValidated, StockLocked, ReservationCreated, NotificationDispatching, Completed]
    case NotNotified =>
      [Started, UserValidated, StockLocked, ReservationCreated, NotificationDispatching,
       CompletedWithNotificationFailure]
  }

  /** The states a handler has recorded once it is about to act at a point. */
  ghost predicate PathTo(p: Point, path: seq<State>) {
    match p
    case Lookup => path == []
    case Start => path == []
    case ValidateUser => path == [Started]
    case LockStock => path == [Started, UserValidated]
    case InsertRow => path == [Started, UserValidated, StockLocked]
    case Release(k) =>
      && 1 <= k <= ATTEMPTS
      && path == [Started, UserValidated, StockLocked, ReservationInsertFailed, Compensating]
    case Notify => path == [Started, UserValidated, StockLocked, ReservationCreated, NotificationDispatching]
    case Done => path == [] || exists s: Shape :: path == Path(s)
  }

  /** Everything the handler will have recorded when it next acts. */
  function Owed(h: Handler): seq<Entry> {
    h.trace + h.pending
  }

  ghost predicate OnPath(h: Handler) {
    && PathTo(h.point, States(Owed(h)))
    && (h.response.Some? <==> h.point == Notify || h.point == Done)
    && (h.pending != [] ==> States(Owed(h)) != [])
  }

  lemma BeginOnPath(req: Request)
    ensures OnPath(Begin(req))
  {
  }

  lemma AdvanceOnPath(h: Handler, o: Observation)
    requires OnPath(h) && Accepts(h, o)
    ensures OnPath(Advance(h, o))
    ensures h.pending != [] ==> Owed(Advance(h, o)) == Owed(h)
  {
    var g := Advance(h, o);
    if h.pending != [] {
      assert Owed(g) == Owed(h);
    } else {
      assert Owed(h) == h.trace && Owed(g) == h.trace + g.pending;
      StatesConcat(h.trace, g.pending);
      assert g.point == Done ==> PathTo(Done, States(Owed(g))) by {
        if g.point == Done && g.pending != [] {
          DonePath(h, o);
        }
      }
    }
  }

  /** The states a handler owes after its last act: those recorded, then those it adds. */
  lemma OwedAfter(trace: seq<Entry>, added: seq<Entry>)
    requires |added| == 1 || |added| == 2
    ensures States(trace + added) ==
            States(trace) + if |added| == 1 then [added[0].state] else [added[0].state, added[1].state]
  {
    StatesConcat(trace, added);
  }

  lemma DonePath(h: Handler, o: Observation)
    requires OnPath(h) && Accepts(h, o) && h.pending == [] && Advance(h, o).point == Done
    ensures PathTo(Done, States(Owed(Advance(h, o))))
  {
    var g := Advance(h, o);
    assert Owed(h) == h.trace && Owed(g) == h.trace + g.pending;
    if h.point == Lookup || h.point == Start {
      assert Owed(g) == h.trace;
    } else {
      OwedAfter(h.trace, g.pending);
      assert States(Owed(g)) == Path(ShapeOf(h.point, o));
    }
  }

  /** The path that a handler's last act, at p, observing o, ends. */
  function ShapeOf(p: Point, o: Observation): Shape {
    match p
    case ValidateUser => UserRefused
    case LockStock => if o.CallFailed? then LockRefused else NoStock
    case Release(_) => if Granted(o) then NotPersistedReleased else NotPersistedStranded
    case _ => if o.NotificationSent? then Notified else NotNotified
  }

  lemma {:induction false} DriveOnPath(req: Request, os: seq<Observation>)
    ensures OnPath(Drive(Begin(req), os))
  {
    if os == [] {
      BeginOnPath(req);
    } else {
      DriveOnPath(req, os[..|os| - 1]);
      var g := Drive(Begin(req), os[..|os| - 1]);
      if Accepts(g, os[|os| - 1]) {
        AdvanceOnPath(g, os[|os| - 1]);
      }
    }
  }

  /** The saga has given up, or is about to record that it gives up, on its lock. */
  predicate Abandoned(h: Handler) {
    CompensationFailed in States(Owed(h))
  }

  predicate SawNoStock(h: Handler) {
    StockUnavailable in States(Owed(h))
  }

  /** The saga gave its unit back, or is about to record that it did. */
  predicate GaveBack(h: Handler) {
    Compensated in States(Owed(h))
  }

  predicate InsertFailed(h: Handler) {
    ReservationInsertFailed in States(Owed(h))
  }

  lemma PathUnmarked(p: Point, path: seq<State>)
    requires PathTo(p, path) && p != Done
    ensures CompensationFailed !in path && StockUnavailable !in path && Compensated !in path
  {
  }

  /** Membership in the states of a log that grew by at most two entries. */
  lemma InStates(a: seq<Entry>, b: seq<Entry>, s: State)
    requires |b| <= 2
    ensures s in States(a + b) <==> s in States(a) || (|b| > 0 && b[0].state == s) || (|b| > 1 && b[1].state == s)
  {
    StatesConcat(a, b);
    assert |b| > 0 ==> States(b)[0] == b[0].state;
    assert |b| > 1 ==> States(b)[1] == b[1].state;
  }

  lemma AdvanceMarks(h: Handler, o: Observation)
    requires OnPath(h) && Accepts(h, o)
    ensures Abandoned(Advance(h, o)) <==>
            Abandoned(h) || (h.pending == [] && h.point == Release(ATTEMPTS) && !Granted(o))
    ensures SawNoStock(Advance(h, o)) <==>
            SawNoStock(h) || (h.pending == [] && h.point == LockStock && Denied(o))
    ensures h.point != Done ==> !Abandoned(h) && !SawNoStock(h)
  {
    if h.point != Done {
      PathUnmarked(h.point, States(Owed(h)));
    }
    if h.pending != [] {
      AdvanceOnPath(h, o);
    } else {
      assert Owed(h) == h.trace;
      InStates(h.trace, Advance(h, o).pending, CompensationFailed);
      InStates(h.trace, Advance(h, o).pending, StockUnavailable);
    }
  }

  lemma AdvanceGivesBack(h: Handler, o: Observation)
    requires OnPath(h) && Accepts(h, o)
    ensures GaveBack(Advance(h, o)) <==>
            GaveBack(h) || (h.pending == [] && h.point.Release? && Granted(o))
    ensures h.point != Done ==> !GaveBack(h)
  {
    if h.point != Done {
      PathUnmarked(h.point, States(Owed(h)));
    }
    if h.pending != [] {
      AdvanceOnPath(h, o);
    } else {
      assert Owed(h) == h.trace;
      InStates(h.trace, Advance(h, o).pending, Compensated);
    }
  }

  /** A saga that is done after a failed insert gave its unit back or gave up, never both. */
  lemma DoneAfterFailedInsert(h: Handler)
    requires OnPath(h) && h.point == Done && InsertFailed(h)
    ensures GaveBack(h) <==> !Abandoned(h)
  {
    var s: Shape :| States(Owed(h)) == Path(s);
    PathCompensation(s);
    assert s.NotPersistedReleased? || s.NotPersistedStranded?;
  }

  lemma TraceShape(h: Handler)
    requires OnPath(h)
    ensures exists s: Shape :: States(h.trace) <= Path(s)
    ensures Finished(h) && h.trace != [] ==> exists s: Shape :: States(h.trace) == Path(s)
  {
    var path := States(Owed(h));
    StatesConcat(h.trace, h.pending);
    assert States(h.trace) <= path;
    var s: Shape :| path <= Path(s) by {
      match h.point {
        case Lookup => assert path <= Path(Notified);
        case Start => assert path <= Path(Notified);
        case ValidateUser => assert path <= Path(Notified);
        case LockStock => assert path <= Path(Notified);
        case InsertRow => assert path <= Path(Notified);
        case Release(_) => assert path <= Path(NotPersistedReleased);
        case Notify => assert path <= Path(Notified);
        case Done => if path == [] { assert path <= Path(Notified); }
      }
    }
    assert States(h.trace) <= Path(s);
    if Finished(h) {
      assert Owed(h) == h.trace;
    }
  }

  /** Whatever the services answer, the recorded states are at every moment a prefix
      of one of the fixed paths, and a finished saga has recorded one of them whole
      (or nothing, when the request was a replay or could not start). */
  lemma DrivenTrace(req: Request, os: seq<Observation>)
    ensures exists s: Shape :: States(Drive(Begin(req), os).trace) <= Path(s)
    ensures Finished(Drive(Begin(req), os)) && Drive(Begin(req), os).trace != [] ==>
              exists s: Shape :: States(Drive(Begin(req), os).trace) == Path(s)
  {
    DriveOnPath(req, os);
    TraceShape(Drive(Begin(req), os));
  }

  /** A saga that was never told there is no stock is on one of the other paths. */
  lemma OtherShape(h: Handler)
    requires OnPath(h) && StockUnavailable !in States(h.trace)
    ensures exists s: Shape :: States(h.trace) <= Path(s) && s != NoStock
    ensures Finished(h) && h.trace != [] ==> exists s: Shape :: States(h.trace) == Path(s) && s != NoStock
  {
    TraceShape(h);
    if |h.trace| >= 3 {
      assert States(h.trace)[2] in States(h.trace);
    } else {
      var s: Shape :| States(h.trace) <= Path(s);
      if s == NoStock {
        assert States(h.trace) <= Path(Notified);
      }
    }
  }

  lemma LatestIsAt<T(!new)>(log: seq<Entry>, has: Entry -> bool, value: Entry -> T, default: T, x: T, k: nat)
    requires IsLatest(log, has, value, default, x)
    requires k < |log| && has(log[k]) && forall j :: k < j < |log| ==> !has(log[j])
    ensures x == value(log[k])
  {
  }

  lemma LatestIsNone<T(!new)>(log: seq<Entry>, has: Entry -> bool, value: Entry -> T, default: T, x: T)
    requires IsLatest(log, has, value, default, x)
    requires forall j :: 0 <= j < |log| ==> !has(log[j])
    ensures x == default
  {
  }

  /** What compensation a path ends with, and where it says so. */
  lemma PathCompensation(s: Shape)
    ensures Compensated in Path(s) <==> s.NotPersistedReleased?
    ensures CompensationFailed in Path(s) <==> s.NotPersistedStranded?
    ensures s.NotPersistedReleased? ==> Path(s)[5] == Compensated
    ensures s.NotPersistedStranded? ==> Path(s)[5] == CompensationFailed
    ensures forall i :: 0 <= i < |Path(s)| && i > 5 ==> CompensationOf(Path(s)[i]) == NoCompensation
    ensures !s.NotPersistedReleased? && !s.NotPersistedStranded? ==>
              forall i :: 0 <= i < |Path(s)| ==> CompensationOf(Path(s)[i]) == NoCompensation
  {
    assert s.NotPersistedReleased? || s.NotPersistedStranded? ==> Path(s)[5] in Path(s);
  }

  /** The final row of a saga all of whose writes took effect: DONE exactly when the
      stock was given back, FAILED exactly when giving it back was abandoned, and the
      closing FAILED event erases neither. */
  lemma FinalCompensation(h: Handler)
    requires OnPath(h) && Finished(h) && h.trace != []
    ensures
      var row := Replay(h.reservationId, h.trace);
      && (row.compensation == CompensationDone <==> Compensated in States(h.trace))
      && (row.compensation == CompensationGaveUp <==> CompensationFailed in States(h.trace))
      && row.compensation != Running
      && (row.compensation != NoCompensation ==> row.status == SagaFailed)
  {
    TraceShape(h);
    var s: Shape :| States(h.trace) == Path(s);
    FinalCompensationOf(h.reservationId, h.trace, s);
    PathCompensation(s);
  }

  lemma FinalCompensationOf(id: string, log: seq<Entry>, s: Shape)
    requires States(log) == Path(s)
    ensures Replay(id, log).status == Path(s)[|Path(s)| - 1]
    ensures Replay(id, log).compensation ==
            if s.NotPersistedReleased? then CompensationDone
            else if s.NotPersistedStranded? then CompensationGaveUp
            else NoCompensation
  {
    ReplayedRow(id, log);
    PathCompensation(s);
    assert forall i :: 0 <= i < |log| ==> log[i].state == Path(s)[i];
    if s.NotPersistedReleased? || s.NotPersistedStranded? {
      LatestIsAt(log, (e: Entry) => CompensationOf(e.state) != NoCompensation,
                 (e: Entry) => CompensationOf(e.state), NoCompensation, Replay(id, log).compensation, 5);
    } else {
      LatestIsNone(log, (e: Entry) => CompensationOf(e.state) != NoCompensation,
                   (e: Entry) => CompensationOf(e.state), NoCompensation, Replay(id, log).compensation);
    }
  }

  /** The compensation column, told from the states recorded alone. */
  predicate ColumnSays(log: seq<State>, c: Compensation) {
    && (c == CompensationDone <==> Compensated in log)
    && (c == CompensationGaveUp <==> CompensationFailed in log)
    && (c == Running <==> Compensating in log && Compensated !in log && CompensationFailed !in log)
  }

  /** The column after so many states of a path. */
  function ColumnAfter(s: Shape, n: nat): Compensation {
    if n <= 4 then NoCompensation
    else if n == 5 then (if s.NotPersistedReleased? || s.NotPersistedStranded? then Running else NoCompensation)
    else if s.NotPersistedReleased? then CompensationDone
    else if s.NotPersistedStranded? then CompensationGaveUp
    else NoCompensation
  }

  /** One state more of a path, and the CASE of the compensation column. */
  lemma ColumnStep(s: Shape, n: nat)
    requires n < |Path(s)|
    ensures var c := CompensationOf(Path(s)[n]);
            ColumnAfter(s, n + 1) == if c != NoCompensation then c else ColumnAfter(s, n)
  {
  }

  lemma {:induction false} PrefixSnoc(front: seq<Entry>, last: Entry, path: seq<State>)
    requires States(front + [last]) <= path
    ensures States(front) <= path && |front| < |path| && last.state == path[|front|]
  {
    StatesConcat(front, [last]);
    assert States(front + [last])[|front|] == last.state;
  }

  lemma {:induction false} ReplayOnPath(id: string, log: seq<Entry>, s: Shape)
    requires States(log) <= Path(s)
    ensures Replay(id, log).compensation == ColumnAfter(s, |log|)
  {
    if log == [] {
    } else {
      var front, last := log[..|log| - 1], log[|log| - 1];
      assert log == front + [last];
      PrefixSnoc(front, last, Path(s));
      ReplayOnPath(id, front, s);
      ColumnStep(s, |front|);
    }
  }

  lemma InPrefix(path: seq<State>, log: seq<State>, k: nat, state: State)
    requires log <= path && k < |path| && path[k] == state
    requires forall i :: 0 <= i < |path| && path[i] == state ==> i == k
    ensures state in log <==> k < |log|
  {
    if k < |log| {
      assert log[k] == state;
    }
  }

  lemma ColumnOnPath(s: Shape, log: seq<State>)
    requires log <= Path(s)
    ensures ColumnSays(log, ColumnAfter(s, |log|))
  {
    if s.NotPersistedReleased? {
      InPrefix(Path(s), log, 4, Compensating);
      InPrefix(Path(s), log, 5, Compensated);
    } else if s.NotPersistedStranded? {
      InPrefix(Path(s), log, 4, Compensating);
      InPrefix(Path(s), log, 5, CompensationFailed);
    }
  }

  /** At every moment of a saga whose writes took effect, its row reads DONE exactly when
      the stock was given back, FAILED exactly when that was abandoned, RUNNING exactly
      while a compensation has begun and done neither, and NONE otherwise. */
  lemma CompensationColumn(id: string, log: seq<Entry>, s: Shape)
    requires States(log) <= Path(s)
    ensures ColumnSays(States(log), Replay(id, log).compensation)
  {
    ReplayOnPath(id, log, s);
    ColumnOnPath(s, States(log));
  }

  // --- what is recorded, and what is answered ------------------------------------------------

  /** The result and the detail that go with each state. */
  predicate SaysWell(h: Handler, e: Entry) {
    match e.state
    case Started => !e.failed && e.detail == Begun
    case UserValidated => !e.failed && e.detail.ValidatedUser?
    case StockLocked => !e.failed && e.detail == RoomLocked(h.req.room)
    case ReservationCreated => !e.failed && e.detail == Created(h.reservationId)
    case NotificationDispatching => !e.failed && e.detail == Dispatching
    case Completed => !e.failed && e.detail == Processed
    case CompletedWithNotificationFailure => e.failed && e.detail.ServiceError?
    case Compensating => !e.failed && e.detail == Releasing
    case Compensated => !e.failed && e.detail.ReleasedOnAttempt? && 1 <= e.detail.attempt <= 3
    case CompensationFailed => e.failed && e.detail == ReleaseGaveUp
    case SagaFailed => e.failed
    case UserValidationFailed => e.failed && e.detail.ServiceError?
    case StockLockFailed => e.failed && e.detail.ServiceError?
    case StockUnavailable => e.failed && e.detail == StatusFalse
    case ReservationInsertFailed => e.failed && e.detail.ServiceError?
  }

  /** FAILED repeats the detail of the step that failed, or says what a compensation means. */
  predicate ClosesWell(log: seq<Entry>) {
    forall i :: 0 <= i < |log| && log[i].state == SagaFailed ==>
      && i > 0
      && log[i].detail == (if log[i - 1].state == Compensated || log[i - 1].state == CompensationFailed
                           then NotPersisted else log[i - 1].detail)
  }

  /** The answer fits what the saga recorded. */
  predicate AnswersWell(h: Handler) {
    h.response.Some? ==>
      var states := States(Owed(h));
      match h.response.value
      case Confirmed(id) => states == [] || (ReservationCreated in states && id == h.reservationId)
      case Refused(Internal) => states == [] || ReservationInsertFailed in states
      case Refused(Unauthenticated) => UserValidationFailed in states
      case Refused(ResourceExhausted) => StockLockFailed in states || StockUnavailable in states
      case Refused(Unavailable) => UserValidationFailed in states || StockLockFailed in states
  }

  predicate RecordsWell(h: Handler) {
    && (forall i :: 0 <= i < |Owed(h)| ==> SaysWell(h, Owed(h)[i]))
    && ClosesWell(Owed(h))
  }

  lemma RecordsAfter(h: Handler, g: Handler)
    requires RecordsWell(h) && Owed(g) == Owed(h) + g.pending && g.req == h.req
    requires Owed(h) == [] || g.reservationId == h.reservationId
    requires forall i :: 0 <= i < |g.pending| ==> SaysWell(g, g.pending[i])
    requires ClosesWell(g.pending)
    ensures RecordsWell(g)
  {
    var n := |Owed(h)|;
    forall i | 0 <= i < |Owed(g)|
      ensures SaysWell(g, Owed(g)[i])
    {
      if i < n {
        assert SaysWell(h, Owed(h)[i]);
      }
    }
    forall i | 0 <= i < |Owed(g)| && Owed(g)[i].state == SagaFailed
      ensures i > 0
      ensures Owed(g)[i].detail == (if Owed(g)[i - 1].state == Compensated || Owed(g)[i - 1].state == CompensationFailed
                                    then NotPersisted else Owed(g)[i - 1].detail)
    {
      if i < n {
        assert Owed(h)[i].state == SagaFailed;
      } else {
        assert g.pending[i - n].state == SagaFailed;
      }
    }
  }

  lemma AddsWell(h: Handler, o: Observation)
    requires OnPath(h) && Accepts(h, o) && h.pending == []
    ensures var g := Advance(h, o);
            && |g.pending| <= 2
            && (|g.pending| > 0 ==> SaysWell(g, g.pending[0]))
            && (|g.pending| > 1 ==> SaysWell(g, g.pending[1]))
  {
  }

  lemma AddsClosing(h: Handler, o: Observation)
    requires OnPath(h) && Accepts(h, o) && h.pending == []
    ensures ClosesWell(Advance(h, o).pending)
  {
  }

  lemma KeepsId(h: Handler, o: Observation)
    requires OnPath(h) && Accepts(h, o)
    ensures Owed(h) == [] || Advance(h, o).reservationId == h.reservationId
  {
    if h.point == Start {
      assert |States(Owed(h))| == 0;
    }
  }

  lemma AdvanceRecordsWell(h: Handler, o: Observation)
    requires OnPath(h) && Accepts(h, o) && RecordsWell(h)
    ensures RecordsWell(Advance(h, o))
  {
    var g := Advance(h, o);
    if h.pending != [] {
      assert Owed(g) == Owed(h);
      forall i | 0 <= i < |Owed(g)|
        ensures SaysWell(g, Owed(g)[i])
      {
        assert SaysWell(h, Owed(h)[i]);
      }
    } else {
      AddsWell(h, o);
      AddsClosing(h, o);
      KeepsId(h, o);
      assert Owed(h) == h.trace;
      RecordsAfter(h, g);
    }
  }

  lemma AdvanceAnswersWell(h: Handler, o: Observation)
    requires OnPath(h) && Accepts(h, o) && AnswersWell(h)
    ensures AnswersWell(Advance(h, o))
  {
    if h.pending != [] {
      AdvanceOnPath(h, o);
    } else {
      SettlesWell(h, o);
    }
  }

  lemma SettlesWell(h: Handler, o: Observation)
    requires OnPath(h) && Accepts(h, o) && h.pending == [] && AnswersWell(h)
    ensures AnswersWell(Advance(h, o))
  {
    var g := Advance(h, o);
    if h.point == Lookup || h.point == Start {
      assert |States(Owed(h))| == 0;
    } else {
      assert Owed(h) == h.trace && Owed(g) == h.trace + g.pending;
      StatesConcat(h.trace, g.pending);
      if |g.pending| == 1 || |g.pending| == 2 {
        OwedAfter(h.trace, g.pending);
      }
      if h.point.Release? {
        assert States(Owed(h))[3] == ReservationInsertFailed;
        assert States(Owed(g))[3] == ReservationInsertFailed;
      }
      if h.point == Notify {
        assert States(Owed(h))[3] == ReservationCreated == States(Owed(g))[3];
      }
    }
  }

  /** Whatever the services answer: every entry carries the result and the detail of its
      state, FAILED repeats what failed, and the answer fits what was recorded. */
  lemma {:induction false} DrivenRecords(req: Request, os: seq<Observation>)
    ensures RecordsWell(Drive(Begin(req), os)) && AnswersWell(Drive(Begin(req), os))
  {
    if os == [] {
    } else {
      var front := os[..|os| - 1];
      DrivenRecords(req, front);
      DriveOnPath(req, front);
      var g := Drive(Begin(req), front);
      if Accepts(g, os[|os| - 1]) {
        AdvanceRecordsWell(g, os[|os| - 1]);
        AdvanceAnswersWell(g, os[|os| - 1]);
      }
    }
  }

  /** Which way a handler goes: on exactly when what it asked for succeeded, and otherwise
      to the answer that the failure calls for. */
  lemma TurnsExactly(h: Handler, o: Observation)
    requires OnPath(h) && Accepts(h, o) && h.pending == []
    ensures var g := Advance(h, o);
            && (h.point == Lookup ==>
                  if o.Found? then g.point == Done && g.response == Some(Confirmed(o.reservationId)) && g.pending == []
                  else g.point == Start)
            && (h.point == Start ==>
                  if o.SagaInserted? then g.point == ValidateUser && g.sagaId == o.sagaId && g.reservationId == o.newId
                  else g.point == Done && g.response == Some(Refused(Internal)) && g.pending == [])
            && (h.point == ValidateUser ==>
                  if o.UserFound? then
                    g.point == LockStock && g.pending == [Entry(UserValidated, false, ValidatedUser(o.name))]
                  else
                    && g.point == Done
                    && g.response == Some(Refused(if o.circuitOpen then Unavailable else Unauthenticated))
                    && g.pending[0] == Entry(UserValidationFailed, true, ServiceError(o.message)))
            && (h.point == LockStock ==>
                  if o.StockStatus? && o.ok then g.point == InsertRow
                  else
                    && g.point == Done
                    && g.response ==
                       Some(Refused(if o.CallFailed? && o.circuitOpen then Unavailable else ResourceExhausted))
                    && g.pending[0] == if o.CallFailed? then Entry(StockLockFailed, true, ServiceError(o.message))
                                       else Entry(StockUnavailable, true, StatusFalse))
            && (h.point == InsertRow ==>
                  if o.RowInserted? then g.point == Notify && g.response == Some(Confirmed(h.reservationId))
                  else
                    && g.point == Release(1) && g.response == None
                    && g.pending[0] == Entry(ReservationInsertFailed, true, ServiceError(o.message)))
            && (h.point.Release? ==>
                  if o.StockStatus? && o.ok then
                    g.point == Done && g.pending[0] == Entry(Compensated, false, ReleasedOnAttempt(h.point.attempt))
                  else if h.point.attempt < 3 then g.point == Release(h.point.attempt + 1) && g.pending == []
                  else g.point == Done && g.pending[0].state == CompensationFailed)
            && (h.point == Notify ==>
                  && g.point == Done && |g.pending| == 1
                  && g.pending[0] == if o.NotificationSent? then Entry(Completed, false, Processed)
                                     else Entry(CompletedWithNotificationFailure, true, ServiceError(o.message)))
  {
    if h.point.Release? {
      assert h.point.attempt <= 3;
    }
  }

  // --- every saga ends ------------------------------------------------------------------

  function PointRank(p: Point): nat {
    match p
    case Lookup => 15
    case Start => 14
    case ValidateUser => 12
    case LockStock => 10
    case InsertRow => 8
    case Release(k) => if k <= ATTEMPTS then ATTEMPTS - k + 3 else 0
    case Notify => 2
    case Done => 0
  }

  /** Steps the handler can still take at most. */
  function Rank(h: Handler): nat {
    PointRank(h.point) + |h.pending|
  }

  const MAX_STEPS := 15

  lemma {:induction false} AdvanceDescends(h: Handler, o: Observation)
    requires OnPath(h) && Accepts(h, o)
    ensures Rank(Advance(h, o)) < Rank(h)
  {
  }
}
