/** Where every unit of stock is, in every reachable state of the reservation system. */
module Conservation {
  import opened Network
  import opened Saga
  import opened Reservations

  // --- one session's account --------------------------------------------------------------

  /** What a session took and did not give back or turn into a row is what its saga
      believes it holds, up to the replies that were lost. */
  predicate AccountOf(p: Point, abandoned: bool, l: Ledger) {
    && l.blocks - l.releases - l.inserted
       == HeldAt(p) + (if abandoned then 1 else 0) + l.lostBlocks - l.lostReleases - l.lostInserts
    && l.lostBlocks <= l.blocks <= 1
    && l.lostReleases <= l.releases
    && l.lostInserts <= l.inserted <= 1
    && match p
       case InsertRow => l == Ledger(1, 0, 0, 0, 0, 0)
       case Notify => l == Ledger(1, 0, 1, 0, 0, 0)
       case Release(k) =>
         && l.blocks == 1 && l.lostBlocks == 0
         && l.releases == l.lostReleases < k
         && l.inserted == l.lostInserts
       case Done => l.releases <= ATTEMPTS && (l.releases > 0 ==> l.blocks == 1 && l.lostBlocks == 0)
       case _ => l == Ledger(0, 0, 0, 0, 0, 0)
  }

  predicate Accounted(x: Session) {
    AccountOf(x.h.point, Abandoned(x.h), x.ledger)
  }

  ghost predicate SessionOk(x: Session, stock: map<string, int>) {
    && OnPath(x.h)
    && Accounted(x)
    && !SawNoStock(x.h)
    && (x.ledger.blocks > 0 ==> x.h.req.room in stock)
  }

  ghost predicate SystemOk(s: System) {
    && GoodStock(s.stock)
    && forall i :: 0 <= i < |s.sessions| ==> SessionOk(s.sessions[i], s.stock)
  }

  /** How a ledger may move with what its handler observes of a lock, an insert, a release. */
  predicate LockMove(l: Ledger, o: Observation, m: Ledger) {
    || (Granted(o) && m == Blocked(l, Acked))
    || (o.CallFailed? && (m == l || m == Blocked(l, LostReply)))
  }

  predicate InsertMove(l: Ledger, o: Observation, m: Ledger) {
    || (o.RowInserted? && m == Inserted(l, Acked))
    || (o.RowRejected? && (m == l || m == Inserted(l, LostReply)))
  }

  predicate ReleaseMove(l: Ledger, o: Observation, m: Ledger) {
    || (Granted(o) && m == Released(l, Acked))
    || (o.CallFailed? && (m == l || m == Released(l, LostReply)))
  }

  predicate PointMove(p: Point, l: Ledger, o: Observation, m: Ledger) {
    match p
    case LockStock => LockMove(l, o, m)
    case InsertRow => InsertMove(l, o, m)
    case Release(_) => ReleaseMove(l, o, m)
    case _ => m == l
  }

  predicate LedgerMove(x: Session, o: Observation, l: Ledger) {
    if x.h.pending != [] then l == x.ledger else PointMove(x.h.point, x.ledger, o, l)
  }

  /** Where a handler that acts at p goes on observing o. */
  function NextPoint(p: Point, o: Observation): Point {
    match p
    case Lookup => if o.Found? then Done else Start
    case Start => if o.SagaRejected? then Done else ValidateUser
    case ValidateUser => if o.CallFailed? then Done else LockStock
    case LockStock => if Granted(o) then InsertRow else Done
    case InsertRow => if o.RowRejected? then Release(1) else Notify
    case Release(k) => if !Granted(o) && k < ATTEMPTS then Release(k + 1) else Done
    case Notify => Done
    case Done => Done
  }

  lemma AdvanceGoesOn(h: Handler, o: Observation)
    requires Accepts(h, o)
    ensures Advance(h, o).point == if h.pending != [] then h.point else NextPoint(h.point, o)
  {
  }

  lemma AccountLock(o: Observation, l: Ledger, m: Ledger)
    requires AccountOf(LockStock, false, l) && LockMove(l, o, m)
    ensures AccountOf(NextPoint(LockStock, o), false, m)
  {
    assert l == Ledger(0, 0, 0, 0, 0, 0);
    if Granted(o) {
      assert m == Ledger(1, 0, 0, 0, 0, 0);
    } else if m != l {
      assert m == Ledger(1, 0, 0, 1, 0, 0);
    }
  }

  /** The ledgers an insert can leave, and with what the handler was told. */
  predicate InsertLedger(o: Observation, m: Ledger) {
    || (o.RowInserted? && m == Ledger(1, 0, 1, 0, 0, 0))
    || (o.RowRejected? && (m == Ledger(1, 0, 0, 0, 0, 0) || m == Ledger(1, 0, 1, 0, 0, 1)))
  }

  lemma InsertLedgers(o: Observation, l: Ledger, m: Ledger)
    requires l == Ledger(1, 0, 0, 0, 0, 0) && InsertMove(l, o, m)
    ensures InsertLedger(o, m)
  {
  }

  lemma AccountInserted(o: Observation, m: Ledger)
    requires InsertLedger(o, m)
    ensures AccountOf(NextPoint(InsertRow, o), false, m)
  {
  }

  lemma AccountInsert(o: Observation, l: Ledger, m: Ledger)
    requires l == Ledger(1, 0, 0, 0, 0, 0) && InsertMove(l, o, m)
    ensures AccountOf(NextPoint(InsertRow, o), false, m)
  {
    InsertLedgers(o, l, m);
    AccountInserted(o, m);
  }

  lemma AccountRelease(k: nat, o: Observation, l: Ledger, m: Ledger)
    requires AccountOf(Release(k), false, l) && ReleaseMove(l, o, m) && k <= ATTEMPTS
    ensures AccountOf(NextPoint(Release(k), o), k == ATTEMPTS && !Granted(o), m)
  {
  }

  lemma AccountAdvance(p: Point, o: Observation, l: Ledger, m: Ledger, before: bool, after: bool)
    requires AccountOf(p, before, l) && PointMove(p, l, o, m)
    requires p != Done ==> !before
    requires p.Release? ==> p.attempt <= ATTEMPTS
    requires after <==> before || (p == Release(ATTEMPTS) && !Granted(o))
    ensures AccountOf(NextPoint(p, o), after, m)
  {
    match p {
      case LockStock => AccountLock(o, l, m);
      case InsertRow => AccountInsert(o, l, m);
      case Release(k) => AccountRelease(k, o, l, m);
      case _ =>
    }
  }

  /** The deployed inventory server, seen through one call. */
  lemma CallFacts(stock: map<string, int>, room: string, blocking: bool, input: Input)
    requires input.StockIn? && GoodStock(stock)
    ensures var c := CallInventory(stock, room, blocking, input);
            && GoodStock(c.stock) && c.stock.Keys == stock.Keys
            && (c.applied ==>
                  && room in stock
                  && c.stock == stock[room := if blocking then stock[room] - 1 else stock[room] + 1])
            && (!c.applied ==> c.stock == stock)
            && (Granted(c.seen) <==> c.applied && input.d == Acked)
            && (Denied(c.seen) ==> !blocking && room !in stock)
            && (c.seen.StockStatus? || c.seen.CallFailed?)
  {
  }

  lemma LedgerMoves(s: System, i: nat, input: Input)
    requires Fits(s, Act(i, input)) && GoodStock(s.stock)
    ensures var x := s.sessions[i];
            var o := Observe(s, x.h, input);
            var l := LedgerAfter(s, x, input);
            && (Denied(o) ==> x.h.point.Release? && x.h.req.room !in s.stock)
            && (!Denied(o) ==> LedgerMove(x, o, l))
            && (l.blocks > x.ledger.blocks ==> x.h.req.room in s.stock)
  {
    var h := s.sessions[i].h;
    if input.StockIn? {
      CallFacts(s.stock, h.req.room, h.point == LockStock, input);
    }
  }

  /** A step moves the stock of a room by what its session's ledger says. */
  lemma StockMoves(s: System, i: nat, input: Input)
    requires Fits(s, Act(i, input)) && GoodStock(s.stock)
    ensures var x := s.sessions[i];
            var stock := StockAfter(s, x.h, input);
            var l := LedgerAfter(s, x, input);
            && GoodStock(stock) && stock.Keys == s.stock.Keys
            && forall room :: room in s.stock ==>
                 stock[room] == s.stock[room] +
                 if x.h.req.room == room then l.releases - x.ledger.releases - (l.blocks - x.ledger.blocks) else 0
  {
    var h := s.sessions[i].h;
    if input.StockIn? {
      CallFacts(s.stock, h.req.room, h.point == LockStock, input);
    }
  }

  lemma SessionAdvance(x: Session, o: Observation, y: Session)
    requires OnPath(x.h) && Accounted(x) && !SawNoStock(x.h) && Accepts(x.h, o)
    requires !Denied(o) && LedgerMove(x, o, y.ledger) && y.h == Advance(x.h, o)
    ensures OnPath(y.h) && Accounted(y) && !SawNoStock(y.h)
  {
    var before, after := Abandoned(x.h), Abandoned(y.h);
    AdvanceMarks(x.h, o);
    AdvanceGoesOn(x.h, o);
    assert AccountOf(y.h.point, after, y.ledger) by {
      if x.h.pending == [] {
        AccountAdvance(x.h.point, o, x.ledger, y.ledger, before, after);
      }
    }
    assert OnPath(y.h) by {
      AdvanceOnPath(x.h, o);
    }
  }

  lemma SessionStep(s: System, i: nat, input: Input)
    requires Fits(s, Act(i, input)) && GoodStock(s.stock) && SessionOk(s.sessions[i], s.stock)
    ensures Accepts(s.sessions[i].h, Observe(s, s.sessions[i].h, input))
    ensures SessionOk(SessionAfter(s, s.sessions[i], input), s.stock)
  {
    var x := s.sessions[i];
    FitsAccepts(s, i, input);
    LedgerMoves(s, i, input);
    var o, y := Observe(s, x.h, input), SessionAfter(s, x, input);
    assert x.h.point.Release? ==> x.ledger.blocks == 1;
    SessionAdvance(x, o, y);
  }

  lemma StepOk(s: System, a: Action)
    requires SystemOk(s)
    ensures SystemOk(Step(s, a))
    ensures Step(s, a).stock.Keys == s.stock.Keys
  {
    if Fits(s, a) {
      match a {
        case Arrive(req) =>
          BeginOnPath(req);
          PathUnmarked(Begin(req).point, States(Owed(Begin(req))));
        case Act(i, input) =>
          assert SessionOk(s.sessions[i], s.stock);
          SessionStep(s, i, input);
          StockMoves(s, i, input);
      }
    }
  }

  lemma {:induction false} RunOk(stock: map<string, int>, actions: seq<Action>)
    requires GoodStock(stock)
    ensures SystemOk(Run(Initial(stock), actions))
    ensures Run(Initial(stock), actions).stock.Keys == stock.Keys
  {
    if actions == [] {
    } else {
      RunOk(stock, actions[..|actions| - 1]);
      StepOk(Run(Initial(stock), actions[..|actions| - 1]), actions[|actions| - 1]);
    }
  }

  // --- the stock and the rows as sums over the sessions --------------------------------------

  ghost predicate StockLaw(stock: map<string, int>, s: System, room: string) {
    room in stock && room in s.stock ==>
      s.stock[room] == stock[room] - Sum(Blocks, s.sessions, InRoom(room)) + Sum(Releases, s.sessions, InRoom(room))
  }

  ghost predicate RowsLaw(s: System, sel: Request -> bool) {
    Count(s.rows, sel) == Sum(Inserts, s.sessions, sel)
  }

  lemma StockLawAct(stock: map<string, int>, s: System, i: nat, input: Input, room: string)
    requires GoodStock(s.stock) && StockLaw(stock, s, room) && Fits(s, Act(i, input))
    ensures StockLaw(stock, Step(s, Act(i, input)), room)
  {
    SumStep(Blocks, s, i, input, InRoom(room));
    SumStep(Releases, s, i, input, InRoom(room));
    StockMoves(s, i, input);
  }

  lemma StockLawStep(stock: map<string, int>, s: System, a: Action, room: string)
    requires SystemOk(s) && StockLaw(stock, s, room)
    ensures StockLaw(stock, Step(s, a), room)
  {
    if Fits(s, a) {
      match a {
        case Arrive(req) =>
          SumSnoc(Blocks, s.sessions, InRoom(room), Arrived(req));
          SumSnoc(Releases, s.sessions, InRoom(room), Arrived(req));
        case Act(i, input) =>
          StockLawAct(stock, s, i, input, room);
      }
    }
  }

  /** A step adds a row exactly when its session's ledger says so. */
  lemma RowsMove(s: System, i: nat, input: Input, sel: Request -> bool)
    requires Fits(s, Act(i, input))
    ensures var x := s.sessions[i];
            Count(RowsAfter(s, x.h, input), sel) ==
            Count(s.rows, sel) + if sel(x.h.req) then LedgerAfter(s, x, input).inserted - x.ledger.inserted else 0
  {
    var x := s.sessions[i];
    if input.RowIn? && Confirms(s, x.h, input) {
      CountSnoc(s.rows, sel, NewRow(x.h));
      assert NewRow(x.h).req == x.h.req;
      assert RowsAfter(s, x.h, input) == s.rows + [NewRow(x.h)];
    } else {
      assert RowsAfter(s, x.h, input) == s.rows && LedgerAfter(s, x, input).inserted == x.ledger.inserted;
    }
  }

  /** Whatever rows there were, a step adds as many as it adds inserts. */
  lemma RowsLawStep(s: System, a: Action, sel: Request -> bool)
    ensures Count(Step(s, a).rows, sel) - Sum(Inserts, Step(s, a).sessions, sel) ==
            Count(s.rows, sel) - Sum(Inserts, s.sessions, sel)
  {
    if Fits(s, a) {
      match a {
        case Arrive(req) => SumSnoc(Inserts, s.sessions, sel, Arrived(req));
        case Act(i, input) =>
          SumStep(Inserts, s, i, input, sel);
          RowsMove(s, i, input, sel);
      }
    }
  }

  /** With lost replies allowed: the stock of a room is never negative, and always the
      initial stock less the blocks plus the releases that took effect. */
  lemma {:induction false} StockIsLedger(stock: map<string, int>, actions: seq<Action>, room: string)
    requires GoodStock(stock) && room in stock
    ensures var s := Run(Initial(stock), actions);
            && room in s.stock
            && 0 <= s.stock[room]
                 == stock[room] - Sum(Blocks, s.sessions, InRoom(room)) + Sum(Releases, s.sessions, InRoom(room))
  {
    RunOk(stock, actions);
    if actions != [] {
      var front := actions[..|actions| - 1];
      StockIsLedger(stock, front, room);
      RunOk(stock, front);
      StockLawStep(stock, Run(Initial(stock), front), actions[|actions| - 1], room);
    }
  }

  /** Every confirmed row was inserted by one session, for any selection of requests. */
  lemma {:induction false} RowsAreInserts(stock: map<string, int>, actions: seq<Action>, sel: Request -> bool)
    ensures RowsLaw(Run(Initial(stock), actions), sel)
  {
    if actions == [] {
    } else {
      var front := actions[..|actions| - 1];
      RowsAreInserts(stock, front, sel);
      RowsLawStep(Run(Initial(stock), front), actions[|actions| - 1], sel);
    }
  }

  /** In every run, one saga blocks at most once, comes to send a release only after its
      block was acknowledged, releases at most three times, and so moves a room's stock by
      between -1 and +2 in all. */
  lemma SessionNet(stock: map<string, int>, actions: seq<Action>, i: nat)
    requires GoodStock(stock) && i < |Run(Initial(stock), actions).sessions|
    ensures var l := Run(Initial(stock), actions).sessions[i].ledger;
            && l.blocks <= 1
            && (Run(Initial(stock), actions).sessions[i].h.point.Release? ==> l.blocks == 1 && l.lostBlocks == 0)
            && (l.releases > 0 ==> l.blocks == 1 && l.lostBlocks == 0)
            && -1 <= l.releases - l.blocks <= 2
  {
    RunOk(stock, actions);
    assert SessionOk(Run(Initial(stock), actions).sessions[i], Run(Initial(stock), actions).stock);
  }

  // --- conservation -------------------------------------------------------------------------

  /** One session's part in the sums. */
  lemma AccountAmounts(x: Session)
    requires Accounted(x)
    ensures Amount(Blocks, x) - Amount(Releases, x) - Amount(Inserts, x)
            == Amount(Held, x) + Amount(Stranded, x)
               + Amount(LostBlocks, x) - Amount(LostReleases, x) - Amount(LostInserts, x)
  {
  }

  /** A sum with one more session, its amount given by name. */
  lemma {:induction false} SumLast(q: Quantity, xs: seq<Session>, front: seq<Session>, last: Session,
                                   sel: Request -> bool)
    requires xs == front + [last]
    ensures Sum(q, xs, sel) == Sum(q, front, sel) + if sel(last.h.req) then Amount(q, last) else 0
  {
    SumSnoc(q, front, sel, last);
  }

  lemma {:induction false} SumAccounts(xs: seq<Session>, sel: Request -> bool)
    requires forall i :: 0 <= i < |xs| ==> Accounted(xs[i])
    ensures Sum(Blocks, xs, sel) - Sum(Releases, xs, sel) - Sum(Inserts, xs, sel)
            == Sum(Held, xs, sel) + Sum(Stranded, xs, sel)
               + Sum(LostBlocks, xs, sel) - Sum(LostReleases, xs, sel) - Sum(LostInserts, xs, sel)
  {
    if xs == [] {
    } else {
      var front, last := xs[..|xs| - 1], xs[|xs| - 1];
      SumAccounts(front, sel);
      AccountAmounts(last);
      forall q: Quantity
        ensures Sum(q, xs, sel) == Sum(q, front, sel) + if sel(last.h.req) then Amount(q, last) else 0
      {
        SumLast(q, xs, front, last, sel);
      }
    }
  }

  /** Units blocked, released and confirmed, for any selection of requests: the rows,
      the locks still held, the locks abandoned, and the replies that were lost. */
  lemma UnitsTaken(stock: map<string, int>, actions: seq<Action>, sel: Request -> bool)
    requires GoodStock(stock)
    ensures var s := Run(Initial(stock), actions);
            var xs := s.sessions;
            Sum(Blocks, xs, sel) - Sum(Releases, xs, sel)
            == Count(s.rows, sel) + Sum(Held, xs, sel) + Sum(Stranded, xs, sel)
               + Sum(LostBlocks, xs, sel) - Sum(LostReleases, xs, sel) - Sum(LostInserts, xs, sel)
  {
    RunOk(stock, actions);
    RowsAreInserts(stock, actions, sel);
    var s := Run(Initial(stock), actions);
    assert forall i :: 0 <= i < |s.sessions| ==> SessionOk(s.sessions[i], s.stock);
    SumAccounts(s.sessions, sel);
  }

  /** stock + confirmed + held + stranded: where the initial stock should be. */
  function Accountable(s: System, room: string): int
    requires room in s.stock
  {
    s.stock[room] + Count(s.rows, InRoom(room))
    + Sum(Held, s.sessions, InRoom(room)) + Sum(Stranded, s.sessions, InRoom(room))
  }

  function Drift(s: System, room: string): int {
    Sum(LostReleases, s.sessions, InRoom(room)) + Sum(LostInserts, s.sessions, InRoom(room))
    - Sum(LostBlocks, s.sessions, InRoom(room))
  }

  /** The exact law, with every failure mode allowed: what the room accounts for is
      its initial stock plus the lost acknowledgements of releases and inserts, minus
      those of blocks. */
  lemma ExactConservation(stock: map<string, int>, actions: seq<Action>, room: string)
    requires GoodStock(stock) && room in stock
    ensures var s := Run(Initial(stock), actions);
            room in s.stock && Accountable(s, room) == stock[room] + Drift(s, room)
  {
    StockIsLedger(stock, actions, room);
    UnitsTaken(stock, actions, InRoom(room));
  }

  predicate Definite(a: Action) {
    match a
    case Arrive(_) => true
    case Act(_, StockIn(d, _, _)) => d != LostReply
    case Act(_, RowIn(d, _)) => d != LostReply
    case Act(_, _) => true
  }

  predicate AllDefinite(actions: seq<Action>) {
    forall i :: 0 <= i < |actions| ==> Definite(actions[i])
  }

  predicate NothingLost(x: Session) {
    x.ledger.lostBlocks == 0 && x.ledger.lostReleases == 0 && x.ledger.lostInserts == 0
  }

  lemma {:induction false} DefiniteLosesNothing(stock: map<string, int>, actions: seq<Action>)
    requires AllDefinite(actions)
    ensures forall i :: 0 <= i < |Run(Initial(stock), actions).sessions| ==>
              NothingLost(Run(Initial(stock), actions).sessions[i])
  {
    if actions == [] {
    } else {
      var front, a := actions[..|actions| - 1], actions[|actions| - 1];
      DefiniteLosesNothing(stock, front);
      var s := Run(Initial(stock), front);
      assert Definite(a);
      if Fits(s, a) && a.Act? {
        assert NothingLost(s.sessions[a.who]);
      }
    }
  }

  lemma {:induction false} NoLossNoSum(xs: seq<Session>, sel: Request -> bool)
    requires forall i :: 0 <= i < |xs| ==> NothingLost(xs[i])
    ensures Sum(LostBlocks, xs, sel) == Sum(LostReleases, xs, sel) == Sum(LostInserts, xs, sel) == 0
  {
    if xs == [] {
    } else {
      assert NothingLost(xs[|xs| - 1]);
      NoLossNoSum(xs[..|xs| - 1], sel);
    }
  }

  /** When every error means "not applied": initial stock = current stock + confirmed
      rows + locks held by unfinished sagas + locks of sagas that gave up; so a room
      is never oversold. */
  lemma DefiniteConservation(stock: map<string, int>, actions: seq<Action>, room: string)
    requires GoodStock(stock) && room in stock && AllDefinite(actions)
    ensures var s := Run(Initial(stock), actions);
            && room in s.stock
            && Accountable(s, room) == stock[room]
            && Count(s.rows, InRoom(room)) <= stock[room]
  {
    ExactConservation(stock, actions, room);
    StockIsLedger(stock, actions, room);
    DefiniteLosesNothing(stock, actions);
    NoLossNoSum(Run(Initial(stock), actions).sessions, InRoom(room));
  }

  /** Conservation holds in a state exactly when the lost replies cancel out, and a room
      is oversold exactly when they outweigh the units that are not in rows. */
  lemma ConservedExactly(stock: map<string, int>, actions: seq<Action>, room: string)
    requires GoodStock(stock) && room in stock
    ensures var s := Run(Initial(stock), actions);
            var xs := s.sessions;
            && room in s.stock
            && (Accountable(s, room) == stock[room] <==>
                Sum(LostBlocks, xs, InRoom(room)) ==
                Sum(LostReleases, xs, InRoom(room)) + Sum(LostInserts, xs, InRoom(room)))
            && (Count(s.rows, InRoom(room)) > stock[room] <==>
                Drift(s, room) > s.stock[room] + Sum(Held, xs, InRoom(room)) + Sum(Stranded, xs, InRoom(room)))
            && Count(s.rows, InRoom(room)) <=
               stock[room] + Sum(LostReleases, xs, InRoom(room)) + Sum(LostInserts, xs, InRoom(room))
  {
    ExactConservation(stock, actions, room);
    StockIsLedger(stock, actions, room);
  }

  // --- what the deployed inventory server rules out ----------------------------------------------

  /** With the deployed inventory server, no saga of any run records STOCK_UNAVAILABLE,
      and its trace is a prefix of one of the other paths. */
  lemma DeployedShapes(stock: map<string, int>, actions: seq<Action>, i: nat)
    requires GoodStock(stock) && i < |Run(Initial(stock), actions).sessions|
    ensures var h := Run(Initial(stock), actions).sessions[i].h;
            && StockUnavailable !in States(h.trace)
            && (exists p: Shape :: States(h.trace) <= Path(p) && p != NoStock)
            && (Finished(h) && h.trace != [] ==> exists p: Shape :: States(h.trace) == Path(p) && p != NoStock)
  {
    RunOk(stock, actions);
    var s := Run(Initial(stock), actions);
    assert SessionOk(s.sessions[i], s.stock);
    var h := s.sessions[i].h;
    StatesConcat(h.trace, h.pending);
    forall k | 0 <= k < |h.trace|
      ensures States(h.trace)[k] != StockUnavailable
    {
      assert States(Owed(h))[k] == States(h.trace)[k];
    }
    OtherShape(h);
  }

  /** A release reaches the server only for a room it knows: status=false is never seen. */
  lemma ReleaseNeverRefused(stock: map<string, int>, actions: seq<Action>, i: nat, input: Input)
    requires GoodStock(stock)
    requires var s := Run(Initial(stock), actions);
             Fits(s, Act(i, input)) && s.sessions[i].h.point.Release? && input.StockIn?
    ensures var s := Run(Initial(stock), actions);
            Observe(s, s.sessions[i].h, input) != StockStatus(false)
  {
    RunOk(stock, actions);
    var s := Run(Initial(stock), actions);
    assert SessionOk(s.sessions[i], s.stock);
    LedgerMoves(s, i, input);
  }
}
