/** The saga tables in every reachable state, and that every saga ends. */
module SagaTables {
  import opened Network
  import opened Saga
  import opened Reservations
  import opened Conservation

  // --- the saga row is the fold of its event log ------------------------------------------

  /** The handler's saga row exists: its startSaga was acknowledged. */
  predicate Begun(h: Handler) {
    Owed(h) != []
  }

  ghost predicate Filed(x: Session, sagas: map<string, SagaRecord>) {
    Begun(x.h) ==>
      && x.h.sagaId in sagas
      && var rec := sagas[x.h.sagaId];
      && rec.row.reservationId == x.h.reservationId
      && (x.paired ==> rec.row == Replay(x.h.reservationId, rec.log))
      && (x.complete ==> rec.log == x.h.trace)
  }

  ghost predicate OwnSagas(s: System) {
    && (forall i :: 0 <= i < |s.sessions| ==> Filed(s.sessions[i], s.sagas))
    && (forall i, j :: 0 <= i < j < |s.sessions| && Begun(s.sessions[i].h) && Begun(s.sessions[j].h) ==>
          s.sessions[i].h.sagaId != s.sessions[j].h.sagaId)
  }

  lemma {:induction false} ReplaySnoc(id: string, log: seq<Entry>, e: Entry)
    ensures Replay(id, log + [e]) == UpdateRow(Replay(id, log), e)
  {
    assert (log + [e])[..|log|] == log;
  }

  /** How one step moves the saga of its own handler. */
  lemma OwnStep(s: System, i: nat, input: Input)
    requires Fits(s, Act(i, input)) && OnPath(s.sessions[i].h) && Filed(s.sessions[i], s.sagas)
    ensures Accepts(s.sessions[i].h, Observe(s, s.sessions[i].h, input))
    ensures var x := s.sessions[i];
            var y := SessionAfter(s, x, input);
            && Filed(y, SagasAfter(s, x.h, input))
            && (Begun(x.h) ==> y.h.sagaId == x.h.sagaId && Begun(y.h))
            && (!Begun(x.h) && Begun(y.h) ==> y.h.sagaId !in s.sagas)
  {
    FitsAccepts(s, i, input);
    if input.WriteIn? {
      OwnWrite(s, i, input);
    } else if input.StartIn? {
      OwnStart(s, i, input);
    }
  }

  lemma OwnWrite(s: System, i: nat, input: Input)
    requires Fits(s, Act(i, input)) && OnPath(s.sessions[i].h) && Filed(s.sessions[i], s.sagas) && input.WriteIn?
    ensures Accepts(s.sessions[i].h, Observe(s, s.sessions[i].h, input))
    ensures Filed(SessionAfter(s, s.sessions[i], input), SagasAfter(s, s.sessions[i].h, input))
    ensures Begun(s.sessions[i].h) && Begun(SessionAfter(s, s.sessions[i], input).h)
  {
    var h := s.sessions[i].h;
    AdvanceOnPath(h, Recorded);
    ReplaySnoc(h.reservationId, s.sagas[h.sagaId].log, h.pending[0]);
  }

  lemma OwnStart(s: System, i: nat, input: Input)
    requires Fits(s, Act(i, input)) && OnPath(s.sessions[i].h) && input.StartIn?
    ensures Accepts(s.sessions[i].h, Observe(s, s.sessions[i].h, input))
    ensures var y := SessionAfter(s, s.sessions[i], input);
            && Filed(y, SagasAfter(s, s.sessions[i].h, input))
            && !Begun(s.sessions[i].h)
            && (Begun(y.h) ==> y.h.sagaId !in s.sagas)
  {
    var h := s.sessions[i].h;
    assert h.point == Start && Owed(h) == [] by {
      assert |States(Owed(h))| == 0;
    }
  }

  /** ... and leaves every other saga alone. */
  lemma OthersKept(s: System, i: nat, input: Input)
    requires Fits(s, Act(i, input)) && OnPath(s.sessions[i].h) && Filed(s.sessions[i], s.sagas)
    ensures var h := s.sessions[i].h;
            forall id :: id in s.sagas && (id != h.sagaId || !Begun(h)) ==>
              id in SagasAfter(s, h, input) && SagasAfter(s, h, input)[id] == s.sagas[id]
  {
    if input.WriteIn? {
      assert Begun(s.sessions[i].h);
    }
  }

  lemma OtherStep(s: System, i: nat, j: nat, input: Input)
    requires Fits(s, Act(i, input)) && OnPath(s.sessions[i].h) && OwnSagas(s)
    requires j < |s.sessions| && j != i
    ensures Filed(s.sessions[j], SagasAfter(s, s.sessions[i].h, input))
    ensures var y := SessionAfter(s, s.sessions[i], input);
            Accepts(s.sessions[i].h, Observe(s, s.sessions[i].h, input)) &&
            (Begun(y.h) && Begun(s.sessions[j].h) ==> y.h.sagaId != s.sessions[j].h.sagaId)
  {
    assert Filed(s.sessions[i], s.sagas) && Filed(s.sessions[j], s.sagas);
    OwnStep(s, i, input);
    OthersKept(s, i, input);
  }

  lemma OwnSagasStep(s: System, a: Action)
    requires SystemOk(s) && OwnSagas(s)
    ensures OwnSagas(Step(s, a))
  {
    if Fits(s, a) && a.Act? {
      var i, t := a.who, Step(s, a);
      assert OnPath(s.sessions[i].h) by {
        assert SessionOk(s.sessions[i], s.stock);
      }
      assert Filed(s.sessions[i], s.sagas);
      MovedOwnSagas(s, i, a.input);
    } else if Fits(s, a) {
      assert Owed(Begin(a.req)) == [];
    }
  }

  lemma MovedOwnSagas(s: System, i: nat, input: Input)
    requires Fits(s, Act(i, input)) && OnPath(s.sessions[i].h) && OwnSagas(s)
    ensures OwnSagas(Step(s, Act(i, input)))
  {
    var t := Step(s, Act(i, input));
    assert Filed(s.sessions[i], s.sagas);
    OwnStep(s, i, input);
    forall j | 0 <= j < |t.sessions| && j != i
      ensures Filed(t.sessions[j], t.sagas)
      ensures Begun(t.sessions[i].h) && Begun(t.sessions[j].h) ==> t.sessions[i].h.sagaId != t.sessions[j].h.sagaId
    {
      OtherStep(s, i, j, input);
    }
  }

  lemma {:induction false} RunOwnsSagas(stock: map<string, int>, actions: seq<Action>)
    requires GoodStock(stock)
    ensures OwnSagas(Run(Initial(stock), actions))
  {
    if actions == [] {
    } else {
      var front := actions[..|actions| - 1];
      RunOwnsSagas(stock, front);
      RunOk(stock, front);
      OwnSagasStep(Run(Initial(stock), front), actions[|actions| - 1]);
    }
  }

  /** In every run, as long as each recorded transition wrote both tables or neither,
      the saga's row is the fold of its event log; once they all wrote both, the log
      is the whole trace. The row then reads: last step, detail of the last failed
      event, last compensation status other than NONE. */
  lemma RowIsFoldOfLog(stock: map<string, int>, actions: seq<Action>, i: nat)
    requires GoodStock(stock) && i < |Run(Initial(stock), actions).sessions|
    requires Begun(Run(Initial(stock), actions).sessions[i].h) && Run(Initial(stock), actions).sessions[i].paired
    ensures var s := Run(Initial(stock), actions);
            var x := s.sessions[i];
            && x.h.sagaId in s.sagas
            && var row, log := s.sagas[x.h.sagaId].row, s.sagas[x.h.sagaId].log;
            && row.status == row.currentStep == (if log == [] then Started else log[|log| - 1].state)
            && IsLatest(log, (e: Entry) => e.failed, (e: Entry) => e.detail, Empty, row.error)
            && IsLatest(log, (e: Entry) => CompensationOf(e.state) != NoCompensation,
                 (e: Entry) => CompensationOf(e.state), NoCompensation, row.compensation)
            && (x.complete ==> log == x.h.trace)
  {
    RunOwnsSagas(stock, actions);
    var s := Run(Initial(stock), actions);
    assert Filed(s.sessions[i], s.sagas);
    ReplayedRow(s.sessions[i].h.reservationId, s.sagas[s.sessions[i].h.sagaId].log);
  }

  /** A finished saga whose writes all took effect is filed as DONE exactly when its
      stock was given back, and as FAILED exactly when that was abandoned. */
  lemma FiledCompensation(stock: map<string, int>, actions: seq<Action>, i: nat)
    requires GoodStock(stock) && i < |Run(Initial(stock), actions).sessions|
    requires var x := Run(Initial(stock), actions).sessions[i];
             Begun(x.h) && Finished(x.h) && x.complete
    ensures var s := Run(Initial(stock), actions);
            var id := s.sessions[i].h.sagaId;
            && id in s.sagas
            && var row, log := s.sagas[id].row, s.sagas[id].log;
            && (row.compensation == CompensationDone <==> Compensated in States(log))
            && (row.compensation == CompensationGaveUp <==> CompensationFailed in States(log))
            && (row.compensation != NoCompensation ==> row.compensation != Running && row.status == SagaFailed)
  {
    RunOk(stock, actions);
    RunOwnsSagas(stock, actions);
    PairedIfComplete(stock, actions, i);
    var s := Run(Initial(stock), actions);
    var x := s.sessions[i];
    assert SessionOk(x, s.stock) && Filed(x, s.sagas);
    assert Owed(x.h) == x.h.trace;
    FinalCompensation(x.h);
  }

  /** The same at every moment of every run: while all its writes took effect, the column
      reads DONE, FAILED, RUNNING or NONE as the saga's log says. */
  lemma ColumnAlways(stock: map<string, int>, actions: seq<Action>, i: nat)
    requires GoodStock(stock) && i < |Run(Initial(stock), actions).sessions|
    requires var x := Run(Initial(stock), actions).sessions[i];
             Begun(x.h) && x.complete
    ensures var s := Run(Initial(stock), actions);
            var id := s.sessions[i].h.sagaId;
            && id in s.sagas
            && var c, states := s.sagas[id].row.compensation, States(s.sagas[id].log);
            && (c == CompensationDone <==> Compensated in states)
            && (c == CompensationGaveUp <==> CompensationFailed in states)
            && (c == Running <==> Compensating in states && Compensated !in states && CompensationFailed !in states)
  {
    RunOk(stock, actions);
    RunOwnsSagas(stock, actions);
    PairedIfComplete(stock, actions, i);
    var s := Run(Initial(stock), actions);
    var x := s.sessions[i];
    assert SessionOk(x, s.stock) && Filed(x, s.sagas);
    TraceShape(x.h);
    var shape: Shape :| States(x.h.trace) <= Path(shape);
    CompensationColumn(x.h.reservationId, x.h.trace, shape);
  }

  lemma {:induction false} PairedIfComplete(stock: map<string, int>, actions: seq<Action>, i: nat)
    requires i < |Run(Initial(stock), actions).sessions|
    ensures Run(Initial(stock), actions).sessions[i].complete ==> Run(Initial(stock), actions).sessions[i].paired
  {
    if actions == [] {
    } else {
      var front, a := actions[..|actions| - 1], actions[|actions| - 1];
      var s := Run(Initial(stock), front);
      if i < |s.sessions| {
        PairedIfComplete(stock, front, i);
      }
    }
  }

  // --- every saga ends -------------------------------------------------------------------------

  function Everyone(): Request -> bool { (r: Request) => true }

  predicate Moves(s: System, a: Action) {
    a.Act? && Fits(s, a)
  }

  /** Steps of handlers in a run, and requests that arrived in it. */
  function StepsTaken(s: System, actions: seq<Action>): nat {
    if actions == [] then 0
    else
      var front := actions[..|actions| - 1];
      StepsTaken(s, front) + if Moves(Run(s, front), actions[|actions| - 1]) then 1 else 0
  }

  function Arrivals(actions: seq<Action>): nat {
    if actions == [] then 0
    else Arrivals(actions[..|actions| - 1]) + if actions[|actions| - 1].Arrive? then 1 else 0
  }

  lemma SessionDescends(s: System, i: nat, input: Input)
    requires SystemOk(s) && Fits(s, Act(i, input))
    ensures Accepts(s.sessions[i].h, Observe(s, s.sessions[i].h, input))
    ensures var y := SessionAfter(s, s.sessions[i], input);
            Amount(Ranks, y) < Amount(Ranks, s.sessions[i])
  {
    FitsAccepts(s, i, input);
    assert SessionOk(s.sessions[i], s.stock);
    AdvanceDescends(s.sessions[i].h, Observe(s, s.sessions[i].h, input));
  }

  lemma {:induction false} RankAct(s: System, i: nat, input: Input)
    requires SystemOk(s) && Fits(s, Act(i, input))
    ensures Sum(Ranks, Step(s, Act(i, input)).sessions, Everyone()) < Sum(Ranks, s.sessions, Everyone())
  {
    SessionDescends(s, i, input);
    SumStep(Ranks, s, i, input, Everyone());
  }

  lemma {:induction false} RankStep(s: System, a: Action)
    requires SystemOk(s)
    ensures Sum(Ranks, Step(s, a).sessions, Everyone()) + (if Moves(s, a) then 1 else 0)
            <= Sum(Ranks, s.sessions, Everyone()) + if a.Arrive? then MAX_STEPS else 0
  {
    if Fits(s, a) {
      match a {
        case Arrive(req) => SumSnoc(Ranks, s.sessions, Everyone(), Arrived(req));
        case Act(i, input) => RankAct(s, i, input);
      }
    }
  }

  /** Whatever fails, n requests take at most 15 n steps between them, so no run of
      finitely many requests goes on forever ... */
  lemma {:induction false} StepsBounded(stock: map<string, int>, actions: seq<Action>)
    requires GoodStock(stock)
    ensures StepsTaken(Initial(stock), actions) + Sum(Ranks, Run(Initial(stock), actions).sessions, Everyone())
            <= 15 * Arrivals(actions)
  {
    if actions == [] {
    } else {
      var front := actions[..|actions| - 1];
      StepsBounded(stock, front);
      RunOk(stock, front);
      RankStep(Run(Initial(stock), front), actions[|actions| - 1]);
    }
  }

  /** ... and none stops before every saga has ended: an unfinished handler can step. */
  lemma UnfinishedCanStep(stock: map<string, int>, actions: seq<Action>, i: nat) returns (input: Input)
    requires GoodStock(stock) && i < |Run(Initial(stock), actions).sessions|
    requires !Finished(Run(Initial(stock), actions).sessions[i].h)
    ensures Moves(Run(Initial(stock), actions), Act(i, input))
  {
    var h := Run(Initial(stock), actions).sessions[i].h;
    if h.pending != [] {
      input := WriteIn(true, true);
    } else {
      match h.point {
        case Lookup => input := LookupIn(true);
        case Start => input := StartIn("", "", Acked);
        case ValidateUser => input := UserIn(CallFailed(false, ""));
        case LockStock => input := StockIn(Acked, false, "");
        case InsertRow => input := RowIn(Acked, "");
        case Release(_) => input := StockIn(Acked, false, "");
        case Notify => input := NotifyIn(Saga.NotificationSent);
      }
    }
  }
}
