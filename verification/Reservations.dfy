/** The reservation service as a system: any number of CreateReservation handlers
    interleaved over the stock of the deployed inventory server, the reservations
    table and the saga tables. Every call and every statement may take effect and be
    acknowledged, take effect while its reply is lost, or not take effect. */
module Reservations {
  import Inventory
  import opened Network
  import opened Saga

  /** A row of reservations (status is always CONFIRMADA). */
  datatype Row = Row(reservationId: string, sagaId: string, req: Request)

  datatype SagaRecord = SagaRecord(row: SagaRow, log: seq<Entry>)

  /** What a handler's calls really did, and how often it was not told. */
  datatype Ledger = Ledger(
    blocks: nat,
    releases: nat,
    inserted: nat,
    lostBlocks: nat,
    lostReleases: nat,
    lostInserts: nat)

  /** A handler with its account: `paired` while each recorded transition wrote both
      tables or neither, `complete` while each wrote both. */
  datatype Session = Session(h: Handler, ledger: Ledger, paired: bool, complete: bool)

  datatype System = System(
    stock: map<string, int>,
    rows: seq<Row>,
    sagas: map<string, SagaRecord>,
    sessions: seq<Session>)

  datatype Input =
    | LookupIn(works: bool)
    | StartIn(sagaId: string, newId: string, d: Delivery)
    | UserIn(o: Observation)
    | StockIn(d: Delivery, circuitOpen: bool, message: string)
    | RowIn(d: Delivery, message: string)
    | NotifyIn(o: Observation)
    | WriteIn(rowWritten: bool, eventWritten: bool)

  datatype Action = Arrive(req: Request) | Act(who: nat, input: Input)

  ghost predicate GoodStock(stock: map<string, int>) {
    forall r :: r in stock ==> 0 <= stock[r] <= Inventory.INT4_MAX
  }

  function Initial(stock: map<string, int>): System {
    System(stock, [], map[], [])
  }

  function Arrived(req: Request): Session {
    Session(Begin(req), Ledger(0, 0, 0, 0, 0, 0), true, true)
  }

  /** SELECT ... WHERE idempotency_key = key */
  function FindKey(rows: seq<Row>, key: string): (id: Option<string>)
    ensures id.Some? ==> exists k :: 0 <= k < |rows| && rows[k].req.key == key && rows[k].reservationId == id.value
    ensures id.None? ==> forall k :: 0 <= k < |rows| ==> rows[k].req.key != key
  {
    if rows == [] then None
    else if rows[|rows| - 1].req.key == key then Some(rows[|rows| - 1].reservationId)
    else FindKey(rows[..|rows| - 1], key)
  }

  /** The primary key, and the unique index on the keys that are not empty. */
  predicate Clashes(rows: seq<Row>, row: Row) {
    exists k :: 0 <= k < |rows| &&
      (rows[k].reservationId == row.reservationId || (row.req.key != "" && rows[k].req.key == row.req.key))
  }

  predicate Fits(s: System, a: Action) {
    a.Act? ==>
      && a.who < |s.sessions|
      && var h := s.sessions[a.who].h;
      if h.pending != [] then a.input.WriteIn?
      else match h.point
        case Lookup => a.input.LookupIn?
        case Start => a.input.StartIn?
        case ValidateUser => a.input.UserIn? && (a.input.o.UserFound? || a.input.o.CallFailed?)
        case LockStock => a.input.StockIn?
        case InsertRow => a.input.RowIn?
        case Release(_) => a.input.StockIn?
        case Notify => a.input.NotifyIn? && (a.input.o.NotificationSent? || a.input.o.CallFailed?)
        case Done => false
  }

  /** One UpdateStock call of one unit, to block it or to release it, as the client lives it. */
  datatype StockCall = StockCall(stock: map<string, int>, applied: bool, seen: Observation)

  function CallInventory(stock: map<string, int>, room: string, blocking: bool, input: Input): StockCall
    requires input.StockIn?
  {
    var r := if blocking then Inventory.Block(stock, room, 1, true) else Inventory.Release(stock, room, 1, true);
    if input.d == NotApplied then StockCall(stock, false, CallFailed(input.circuitOpen, input.message))
    else StockCall(
           r.stock,
           Inventory.Success(r.reply),
           if input.d == Acked && r.reply.Status? then StockStatus(r.reply.ok) else CallFailed(false, input.message))
  }

  /** A call takes effect exactly when it gets through and the column allows it, and its
      status is seen exactly when the reply gets back, too. */
  lemma CallExactly(stock: map<string, int>, room: string, blocking: bool, input: Input)
    requires input.StockIn? && GoodStock(stock)
    ensures var c := CallInventory(stock, room, blocking, input);
            && (c.applied <==> input.d != NotApplied && room in stock && if blocking then stock[room] >= 1
                                                                         else stock[room] < 0x7fff_ffff)
            && c.stock == (if !c.applied then stock
                           else stock[room := if blocking then stock[room] - 1 else stock[room] + 1])
            && (c.applied && input.d == Acked <==> c.seen == StockStatus(true))
            && (c.seen == StockStatus(false) <==> input.d == Acked && !blocking && room !in stock)
            && (c.seen.CallFailed? ==> c.seen.circuitOpen == (input.d == NotApplied && input.circuitOpen))
  {
  }

  function Lost(d: Delivery): nat { if d == LostReply then 1 else 0 }

  function Blocked(l: Ledger, d: Delivery): Ledger {
    l.(blocks := l.blocks + 1, lostBlocks := l.lostBlocks + Lost(d))
  }

  function Released(l: Ledger, d: Delivery): Ledger {
    l.(releases := l.releases + 1, lostReleases := l.lostReleases + Lost(d))
  }

  function Inserted(l: Ledger, d: Delivery): Ledger {
    l.(inserted := l.inserted + 1, lostInserts := l.lostInserts + Lost(d))
  }

  /** recordSagaTransition: an UPDATE and an INSERT, each of which may fail alone. */
  function Write(sagas: map<string, SagaRecord>, id: string, e: Entry, rowWritten: bool, eventWritten: bool)
    : map<string, SagaRecord>
  {
    if id !in sagas then sagas
    else
      var rec := sagas[id];
      sagas[id := SagaRecord(if rowWritten then UpdateRow(rec.row, e) else rec.row,
                             if eventWritten then rec.log + [e] else rec.log)]
  }

  function NewRow(h: Handler): Row {
    Row(h.reservationId, h.sagaId, h.req)
  }

  /** The INSERT of startSaga takes effect unless it is lost or the key is taken. */
  predicate Starts(s: System, input: Input)
    requires input.StartIn?
  {
    input.d != NotApplied && input.sagaId !in s.sagas
  }

  /** The INSERT of the reservation takes effect unless it is lost or a unique key refuses it. */
  predicate Confirms(s: System, h: Handler, input: Input)
    requires input.RowIn?
  {
    input.d != NotApplied && !Clashes(s.rows, NewRow(h))
  }

  function StockAnswer(s: System, h: Handler, input: Input): StockCall
    requires input.StockIn?
  {
    CallInventory(s.stock, h.req.room, h.point == LockStock, input)
  }

  /** What the handler is told. */
  function Observe(s: System, h: Handler, input: Input): Observation {
    match input
    case WriteIn(_, _) => Recorded
    case LookupIn(works) =>
      if !works then LookupError
      else
        var found := FindKey(s.rows, h.req.key);
        if found.Some? then Found(found.value) else NoRow
    case StartIn(sagaId, newId, d) =>
      if Starts(s, input) && d == Acked then SagaInserted(sagaId, newId) else SagaRejected
    case UserIn(o) => o
    case NotifyIn(o) => o
    case StockIn(_, _, _) => StockAnswer(s, h, input).seen
    case RowIn(d, message) => if Confirms(s, h, input) && d == Acked then RowInserted else RowRejected(message)
  }

  function LedgerAfter(s: System, x: Session, input: Input): Ledger {
    match input
    case StockIn(d, _, _) =>
      if !StockAnswer(s, x.h, input).applied then x.ledger
      else if x.h.point == LockStock then Blocked(x.ledger, d) else Released(x.ledger, d)
    case RowIn(d, _) => if Confirms(s, x.h, input) then Inserted(x.ledger, d) else x.ledger
    case _ => x.ledger
  }

  function SessionAfter(s: System, x: Session, input: Input): Session
    requires Accepts(x.h, Observe(s, x.h, input))
  {
    Session(
      Advance(x.h, Observe(s, x.h, input)),
      LedgerAfter(s, x, input),
      x.paired && (input.WriteIn? ==> input.rowWritten == input.eventWritten),
      x.complete && (input.WriteIn? ==> input.rowWritten && input.eventWritten))
  }

  function StockAfter(s: System, h: Handler, input: Input): map<string, int> {
    if input.StockIn? then StockAnswer(s, h, input).stock else s.stock
  }

  function RowsAfter(s: System, h: Handler, input: Input): seq<Row> {
    if input.RowIn? && Confirms(s, h, input) then s.rows + [NewRow(h)] else s.rows
  }

  function SagasAfter(s: System, h: Handler, input: Input): map<string, SagaRecord> {
    match input
    case WriteIn(rowWritten, eventWritten) =>
      if h.pending == [] then s.sagas else Write(s.sagas, h.sagaId, h.pending[0], rowWritten, eventWritten)
    case StartIn(sagaId, newId, _) =>
      if Starts(s, input) then s.sagas[sagaId := SagaRecord(FreshRow(newId), [])] else s.sagas
    case _ => s.sagas
  }

  /** Whatever the network and the database do with what a handler asks for may happen. */
  lemma AnythingMayHappen(s: System, i: nat, input: Input)
    requires i < |s.sessions|
    ensures var h := s.sessions[i].h;
            && (h.pending != [] && input.WriteIn? ==> Fits(s, Act(i, input)))
            && (h.pending == [] && h.point == Lookup && input.LookupIn? ==> Fits(s, Act(i, input)))
            && (h.pending == [] && h.point == Start && input.StartIn? ==> Fits(s, Act(i, input)))
            && (h.pending == [] && (h.point == LockStock || h.point.Release?) && input.StockIn? ==>
                  Fits(s, Act(i, input)))
            && (h.pending == [] && h.point == InsertRow && input.RowIn? ==> Fits(s, Act(i, input)))
            && (h.pending == [] && h.point == ValidateUser && input.UserIn? ==>
                  (input.o.UserFound? || input.o.CallFailed? ==> Fits(s, Act(i, input))))
            && (h.pending == [] && h.point == Notify && input.NotifyIn? ==>
                  (input.o.NotificationSent? || input.o.CallFailed? ==> Fits(s, Act(i, input))))
  {
  }

  lemma FitsAccepts(s: System, i: nat, input: Input)
    requires Fits(s, Act(i, input))
    ensures Accepts(s.sessions[i].h, Observe(s, s.sessions[i].h, input))
  {
  }

  /** The next system state; an action that does not fit changes nothing. */
  function Step(s: System, a: Action): System {
    if !Fits(s, a) then s
    else match a
      case Arrive(req) => s.(sessions := s.sessions + [Arrived(req)])
      case Act(i, input) =>
        FitsAccepts(s, i, input);
        var x := s.sessions[i];
        System(
          StockAfter(s, x.h, input),
          RowsAfter(s, x.h, input),
          SagasAfter(s, x.h, input),
          s.sessions[i := SessionAfter(s, x, input)])
  }

  function Run(s: System, actions: seq<Action>): System {
    if actions == [] then s else Step(Run(s, actions[..|actions| - 1]), actions[|actions| - 1])
  }

  // --- sums over sessions and rows ------------------------------------------------------

  datatype Quantity = Blocks | Releases | Inserts | Held | Stranded | LostBlocks | LostReleases | LostInserts | Ranks

  /** A saga believes it holds a unit from its acknowledged block to the end of the insert or of the releases. */
  function HeldAt(p: Point): nat {
    if p == InsertRow || p.Release? then 1 else 0
  }

  function Amount(q: Quantity, x: Session): nat {
    match q
    case Blocks => x.ledger.blocks
    case Releases => x.ledger.releases
    case Inserts => x.ledger.inserted
    case Held => HeldAt(x.h.point)
    case Stranded => if Abandoned(x.h) then 1 else 0
    case LostBlocks => x.ledger.lostBlocks
    case LostReleases => x.ledger.lostReleases
    case LostInserts => x.ledger.lostInserts
    case Ranks => Rank(x.h)
  }

  /** A quantity summed over the sessions whose request is selected. */
  function Sum(q: Quantity, xs: seq<Session>, sel: Request -> bool): nat {
    if xs == [] then 0
    else
      var last := xs[|xs| - 1];
      Sum(q, xs[..|xs| - 1], sel) + if sel(last.h.req) then Amount(q, last) else 0
  }

  function Count(rows: seq<Row>, sel: Request -> bool): nat {
    if rows == [] then 0
    else Count(rows[..|rows| - 1], sel) + if sel(rows[|rows| - 1].req) then 1 else 0
  }

  function InRoom(room: string): Request -> bool { (r: Request) => r.room == room }

  function WithKey(key: string): Request -> bool { (r: Request) => r.key == key }

  lemma {:induction false} SumUpdate(q: Quantity, xs: seq<Session>, sel: Request -> bool, i: nat, x: Session)
    requires i < |xs| && x.h.req == xs[i].h.req
    ensures Sum(q, xs[i := x], sel) ==
            Sum(q, xs, sel) + if sel(x.h.req) then Amount(q, x) - Amount(q, xs[i]) else 0
  {
    var n := |xs| - 1;
    if i < n {
      assert xs[i := x][..n] == xs[..n][i := x];
      SumUpdate(q, xs[..n], sel, i, x);
    } else {
      assert xs[i := x][..n] == xs[..n];
    }
  }

  lemma {:induction false} SumSnoc(q: Quantity, xs: seq<Session>, sel: Request -> bool, x: Session)
    ensures Sum(q, xs + [x], sel) == Sum(q, xs, sel) + if sel(x.h.req) then Amount(q, x) else 0
  {
    assert (xs + [x])[..|xs|] == xs;
  }

  lemma SessionAfterFits(s: System, i: nat, input: Input)
    requires Fits(s, Act(i, input))
    ensures Accepts(s.sessions[i].h, Observe(s, s.sessions[i].h, input))
    ensures SessionAfter(s, s.sessions[i], input).h.req == s.sessions[i].h.req
  {
    FitsAccepts(s, i, input);
  }

  /** How a step of session i moves a sum over all sessions. */
  lemma {:induction false} SumStep(q: Quantity, s: System, i: nat, input: Input, sel: Request -> bool)
    requires Fits(s, Act(i, input))
    ensures Accepts(s.sessions[i].h, Observe(s, s.sessions[i].h, input))
    ensures var x := s.sessions[i];
            Sum(q, Step(s, Act(i, input)).sessions, sel) ==
            Sum(q, s.sessions, sel) + if sel(x.h.req) then Amount(q, SessionAfter(s, x, input)) - Amount(q, x) else 0
  {
    SessionAfterFits(s, i, input);
    SumUpdate(q, s.sessions, sel, i, SessionAfter(s, s.sessions[i], input));
  }

  lemma {:induction false} CountSnoc(rows: seq<Row>, sel: Request -> bool, row: Row)
    ensures Count(rows + [row], sel) == Count(rows, sel) + if sel(row.req) then 1 else 0
  {
    assert (rows + [row])[..|rows|] == rows;
  }
}
