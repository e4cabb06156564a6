/** One reservation per idempotency key, for any interleaving of attempts. */
module Idempotency {
  import Inventory
  import opened Network
  import opened Saga
  import opened Reservations
  import opened Conservation

  ghost predicate UniqueRows(rows: seq<Row>) {
    forall i, j :: 0 <= i < j < |rows| ==>
      && rows[i].reservationId != rows[j].reservationId
      && (rows[i].req.key != "" ==> rows[i].req.key != rows[j].req.key)
  }

  ghost predicate HasRow(rows: seq<Row>, id: string, key: string) {
    exists k :: 0 <= k < |rows| && rows[k].reservationId == id && rows[k].req.key == key
  }

  /** A confirmation names a row with the key of its request. */
  ghost predicate Backed(h: Handler, rows: seq<Row>) {
    h.response.Some? && h.response.value.Confirmed? ==> HasRow(rows, h.response.value.reservationId, h.req.key)
  }

  ghost predicate AnswersBacked(s: System) {
    forall i :: 0 <= i < |s.sessions| ==> Backed(s.sessions[i].h, s.rows)
  }

  lemma UniqueRowsStep(s: System, a: Action)
    requires UniqueRows(s.rows)
    ensures UniqueRows(Step(s, a).rows) && s.rows <= Step(s, a).rows
  {
  }

  lemma HasRowGrows(rows: seq<Row>, more: seq<Row>, id: string, key: string)
    requires rows <= more && HasRow(rows, id, key)
    ensures HasRow(more, id, key)
  {
    var k :| 0 <= k < |rows| && rows[k].reservationId == id && rows[k].req.key == key;
    assert more[k] == rows[k];
  }

  lemma BackedStep(s: System, i: nat, input: Input)
    requires Fits(s, Act(i, input)) && Backed(s.sessions[i].h, s.rows)
    ensures Accepts(s.sessions[i].h, Observe(s, s.sessions[i].h, input))
    ensures Backed(SessionAfter(s, s.sessions[i], input).h, RowsAfter(s, s.sessions[i].h, input))
  {
    FitsAccepts(s, i, input);
    var h := s.sessions[i].h;
    var rows := RowsAfter(s, h, input);
    if input.RowIn? && Confirms(s, h, input) {
      assert rows[|s.rows|] == NewRow(h);
      assert HasRow(rows, h.reservationId, h.req.key);
    }
    if h.response.Some? && h.response.value.Confirmed? {
      HasRowGrows(s.rows, rows, h.response.value.reservationId, h.req.key);
    }
  }

  lemma AnswersBackedStep(s: System, a: Action)
    requires AnswersBacked(s) && UniqueRows(s.rows)
    ensures AnswersBacked(Step(s, a))
  {
    if Fits(s, a) && a.Act? {
      var t := Step(s, a);
      BackedStep(s, a.who, a.input);
      UniqueRowsStep(s, a);
      forall j | 0 <= j < |t.sessions| && j != a.who
        ensures Backed(t.sessions[j].h, t.rows)
      {
        var h := s.sessions[j].h;
        assert Backed(h, s.rows);
        if h.response.Some? && h.response.value.Confirmed? {
          HasRowGrows(s.rows, t.rows, h.response.value.reservationId, h.req.key);
        }
      }
    }
  }

  lemma {:induction false} RunUnique(stock: map<string, int>, actions: seq<Action>)
    ensures UniqueRows(Run(Initial(stock), actions).rows) && AnswersBacked(Run(Initial(stock), actions))
  {
    if actions == [] {
    } else {
      var front := actions[..|actions| - 1];
      RunUnique(stock, front);
      UniqueRowsStep(Run(Initial(stock), front), actions[|actions| - 1]);
      AnswersBackedStep(Run(Initial(stock), front), actions[|actions| - 1]);
    }
  }

  lemma {:induction false} UniqueCount(rows: seq<Row>, key: string)
    requires UniqueRows(rows) && key != ""
    ensures Count(rows, WithKey(key)) <= 1
    ensures Count(rows, WithKey(key)) == 0 <==> forall k :: 0 <= k < |rows| ==> rows[k].req.key != key
  {
    if rows == [] {
    } else {
      UniqueCount(rows[..|rows| - 1], key);
    }
  }

  /** One row carries the key at most, and all successes under it report one reservation. */
  ghost predicate OneAnswer(s: System, key: string) {
    && Count(s.rows, WithKey(key)) <= 1
    && forall i, j, a, b ::
         && 0 <= i < |s.sessions| && 0 <= j < |s.sessions|
         && s.sessions[i].h.req.key == key && s.sessions[j].h.req.key == key
         && s.sessions[i].h.response == Some(Confirmed(a)) && s.sessions[j].h.response == Some(Confirmed(b))
         ==> a == b
  }

  lemma OneAnswerHere(s: System, key: string)
    requires UniqueRows(s.rows) && AnswersBacked(s) && key != ""
    ensures OneAnswer(s, key)
  {
    UniqueCount(s.rows, key);
    forall i, j, a, b |
      && 0 <= i < |s.sessions| && 0 <= j < |s.sessions|
      && s.sessions[i].h.req.key == key && s.sessions[j].h.req.key == key
      && s.sessions[i].h.response == Some(Confirmed(a)) && s.sessions[j].h.response == Some(Confirmed(b))
      ensures a == b
    {
      assert Backed(s.sessions[i].h, s.rows) && Backed(s.sessions[j].h, s.rows);
      var k :| 0 <= k < |s.rows| && s.rows[k].reservationId == a && s.rows[k].req.key == key;
      var l :| 0 <= l < |s.rows| && s.rows[l].reservationId == b && s.rows[l].req.key == key;
      assert k == l;
    }
  }

  /** However many attempts carry a key, and even when lookups fail and the code goes
      on, at most one row carries it and every success reports that row's id. */
  lemma {:induction false} OneReservationPerKey(stock: map<string, int>, actions: seq<Action>, key: string)
    requires key != ""
    ensures OneAnswer(Run(Initial(stock), actions), key)
  {
    RunUnique(stock, actions);
    OneAnswerHere(Run(Initial(stock), actions), key);
  }

  lemma {:induction false} RunGrows(s: System, actions: seq<Action>, more: seq<Action>)
    ensures Run(s, actions).rows <= Run(s, actions + more).rows
  {
    if more == [] {
      assert actions + more == actions;
    } else {
      var front := more[..|more| - 1];
      RunGrows(s, actions, front);
      assert (actions + more)[..|actions + more| - 1] == actions + front;
    }
  }

  /** A confirmation is for good: its row is there in every later state. */
  lemma ConfirmedForGood(stock: map<string, int>, actions: seq<Action>, more: seq<Action>, i: nat, id: string)
    requires i < |Run(Initial(stock), actions).sessions|
    requires Run(Initial(stock), actions).sessions[i].h.response == Some(Confirmed(id))
    ensures HasRow(Run(Initial(stock), actions + more).rows, id, Run(Initial(stock), actions).sessions[i].h.req.key)
  {
    RunUnique(stock, actions);
    var s := Run(Initial(stock), actions);
    assert Backed(s.sessions[i].h, s.rows);
    RunGrows(Initial(stock), actions, more);
    HasRowGrows(s.rows, Run(Initial(stock), actions + more).rows, id, s.sessions[i].h.req.key);
  }

  lemma AnswerStaysStep(s: System, a: Action, i: nat)
    requires SystemOk(s) && i < |s.sessions| && s.sessions[i].h.response.Some?
    ensures i < |Step(s, a).sessions| && Step(s, a).sessions[i].h.response == s.sessions[i].h.response
  {
    if Fits(s, a) && a.Act? && a.who == i {
      assert SessionOk(s.sessions[i], s.stock);
      FitsAccepts(s, i, a.input);
    }
  }

  /** An answer, once settled, is the answer for good. */
  lemma {:induction false} AnswerStays(stock: map<string, int>, actions: seq<Action>, more: seq<Action>, i: nat)
    requires GoodStock(stock) && i < |Run(Initial(stock), actions).sessions|
    requires Run(Initial(stock), actions).sessions[i].h.response.Some?
    ensures i < |Run(Initial(stock), actions + more).sessions|
    ensures Run(Initial(stock), actions + more).sessions[i].h.response ==
            Run(Initial(stock), actions).sessions[i].h.response
  {
    if more == [] {
      assert actions + more == actions;
    } else {
      var front := more[..|more| - 1];
      AnswerStays(stock, actions, front, i);
      assert (actions + more)[..|actions + more| - 1] == actions + front;
      RunOk(stock, actions + front);
      AnswerStaysStep(Run(Initial(stock), actions + front), more[|more| - 1], i);
    }
  }

  /** The units the attempts under one key took and did not give back, exactly; when
      errors are definite that is at most one, besides the locks of attempts still
      running or given up. */
  lemma KeyTakesOneUnit(stock: map<string, int>, actions: seq<Action>, key: string)
    requires GoodStock(stock) && key != ""
    ensures var s := Run(Initial(stock), actions);
            var xs, sel := s.sessions, WithKey(key);
            && Sum(Blocks, xs, sel) - Sum(Releases, xs, sel)
               == Count(s.rows, sel) + Sum(Held, xs, sel) + Sum(Stranded, xs, sel)
                  + Sum(LostBlocks, xs, sel) - Sum(LostReleases, xs, sel) - Sum(LostInserts, xs, sel)
            && Count(s.rows, sel) <= 1
            && (AllDefinite(actions) && Sum(Held, xs, sel) == Sum(Stranded, xs, sel) == 0 ==>
                  0 <= Sum(Blocks, xs, sel) - Sum(Releases, xs, sel) <= 1)
  {
    UnitsTaken(stock, actions, WithKey(key));
    OneReservationPerKey(stock, actions, key);
    if AllDefinite(actions) {
      DefiniteLosesNothing(stock, actions);
      NoLossNoSum(Run(Initial(stock), actions).sessions, WithKey(key));
    }
  }

  /** A retry that looks the key up is answered with the existing row, and neither
      stock nor tables move. */
  lemma RetryReplays(stock: map<string, int>, actions: seq<Action>, i: nat, k: nat)
    requires var s := Run(Initial(stock), actions);
             && i < |s.sessions| && k < |s.rows|
             && s.sessions[i].h.point == Lookup && s.sessions[i].h.pending == []
             && s.rows[k].req.key == s.sessions[i].h.req.key != ""
    ensures var s := Run(Initial(stock), actions);
            var t := Step(s, Act(i, LookupIn(true)));
            && t.sessions[i].h.response == Some(Confirmed(s.rows[k].reservationId))
            && Finished(t.sessions[i].h)
            && t.stock == s.stock && t.rows == s.rows && t.sagas == s.sagas
  {
    RunUnique(stock, actions);
    var s := Run(Initial(stock), actions);
    var found := FindKey(s.rows, s.sessions[i].h.req.key);
    if found.Some? {
      var j :| 0 <= j < |s.rows| && s.rows[j].req.key == s.sessions[i].h.req.key
          && s.rows[j].reservationId == found.value;
      assert j == k;
    }
  }

  /** In every reachable state, a reservation is inserted exactly when the statement gets
      through and no row has its id nor, unless it is empty, its key; and the request is
      confirmed exactly when the acknowledgement gets back, too. */
  lemma InsertedExactly(stock: map<string, int>, actions: seq<Action>, i: nat, d: Delivery, message: string)
    requires GoodStock(stock) && i < |Run(Initial(stock), actions).sessions|
    requires var h := Run(Initial(stock), actions).sessions[i].h;
             h.point == InsertRow && h.pending == []
    ensures var s := Run(Initial(stock), actions);
            var h := s.sessions[i].h;
            var t := Step(s, Act(i, RowIn(d, message)));
            var free := forall k :: 0 <= k < |s.rows| ==>
                          && s.rows[k].reservationId != h.reservationId
                          && (h.req.key == "" || s.rows[k].req.key != h.req.key);
            && t.rows == (if d != NotApplied && free then s.rows + [Row(h.reservationId, h.sagaId, h.req)] else s.rows)
            && |t.sessions| == |s.sessions|
            && (t.sessions[i].h.response == Some(Confirmed(h.reservationId)) <==> d == Acked && free)
            && (t.sessions[i].h.point == Release(1) <==> !(d == Acked && free))
  {
    RunOk(stock, actions);
    var s := Run(Initial(stock), actions);
    assert SessionOk(s.sessions[i], s.stock);
    FreeExactly(s.rows, NewRow(s.sessions[i].h));
  }

  /** What the primary key and the unique index refuse, and no more. */
  lemma FreeExactly(rows: seq<Row>, row: Row)
    ensures !Clashes(rows, row) <==>
            forall k :: 0 <= k < |rows| ==>
              rows[k].reservationId != row.reservationId && (row.req.key == "" || rows[k].req.key != row.req.key)
  {
  }

  // --- where the promises stop: concrete runs -----------------------------------------------

  lemma Extend(s: System, actions: seq<Action>, a: Action)
    ensures Run(s, actions + [a]) == Step(Run(s, actions), a)
  {
    assert (actions + [a])[..|actions|] == actions;
  }

  /** Replies lost in a run. */
  function Losses(actions: seq<Action>): nat {
    if actions == [] then 0
    else Losses(actions[..|actions| - 1]) + if Definite(actions[|actions| - 1]) then 0 else 1
  }

  /** A run, built one action at a time. */
  lemma Take(s: System, actions: seq<Action>, a: Action) returns (longer: seq<Action>, t: System)
    ensures longer == actions + [a] && t == Run(s, longer) == Step(Run(s, actions), a)
    ensures Losses(longer) == Losses(actions) + if Definite(a) then 0 else 1
  {
    Extend(s, actions, a);
    longer := actions + [a];
    t := Run(s, longer);
    assert longer[..|longer| - 1] == actions;
  }

  /** The last session, n, is about to act at a point. */
  predicate At(s: System, n: nat, p: Point, req: Request, sagaId: string, id: string) {
    && |s.sessions| == n + 1
    && var h := s.sessions[n].h;
    && h.req == req && h.point == p && h.pending == []
    && h.sagaId == sagaId && h.reservationId == id
  }

  /** No row carries the key; the empty key never does harm. */
  predicate Unused(rows: seq<Row>, key: string) {
    key == "" || forall k :: 0 <= k < |rows| ==> rows[k].req.key != key
  }

  /** Has the last session so many transitions still to record before it acts at a point? */
  predicate Recording(s: System, n: nat, p: Point, count: nat, req: Request, sagaId: string, id: string) {
    && |s.sessions| == n + 1
    && var h := s.sessions[n].h;
    && h.req == req && h.point == p && |h.pending| == count
    && h.sagaId == sagaId && h.reservationId == id
  }

  /** Recording a transition moves no stock and no reservation. */
  lemma WriteOne(s: System, actions: seq<Action>, n: nat, p: Point, count: nat, req: Request, sagaId: string,
                 id: string)
    returns (longer: seq<Action>, t: System)
    requires Recording(Run(s, actions), n, p, count, req, sagaId, id) && count > 0
    ensures actions <= longer
    ensures Losses(longer) == Losses(actions)
    ensures t == Run(s, longer) && Recording(t, n, p, count - 1, req, sagaId, id)
    ensures var u := Run(s, actions);
            t.stock == u.stock && t.rows == u.rows && t.sagas.Keys == u.sagas.Keys
  {
    longer, t := Take(s, actions, Act(n, WriteIn(true, true)));
  }

  /** A request at the start of its saga: a working lookup finds nothing. */
  lemma ArrivedRequest(s: System, actions: seq<Action>, req: Request) returns (longer: seq<Action>, t: System)
    requires Unused(Run(s, actions).rows, req.key)
    ensures actions <= longer
    ensures Losses(longer) == Losses(actions)
    ensures t == Run(s, longer) && At(t, |Run(s, actions).sessions|, Start, req, "", "")
    ensures var u := Run(s, actions);
            t.stock == u.stock && t.rows == u.rows && t.sagas == u.sagas
  {
    var n := |Run(s, actions).sessions|;
    longer, t := Take(s, actions, Arrive(req));
    if req.key != "" {
      longer, t := Take(s, longer, Act(n, LookupIn(true)));
    }
  }

  lemma StartedRequest(s: System, actions: seq<Action>, req: Request, sagaId: string, id: string)
    returns (longer: seq<Action>, t: System)
    requires sagaId !in Run(s, actions).sagas && Unused(Run(s, actions).rows, req.key)
    ensures actions <= longer
    ensures Losses(longer) == Losses(actions)
    ensures t == Run(s, longer) && At(t, |Run(s, actions).sessions|, ValidateUser, req, sagaId, id)
    ensures var u := Run(s, actions);
            t.stock == u.stock && t.rows == u.rows && t.sagas.Keys == u.sagas.Keys + {sagaId}
  {
    var n := |Run(s, actions).sessions|;
    longer, t := ArrivedRequest(s, actions, req);
    longer, t := Take(s, longer, Act(n, StartIn(sagaId, id, Acked)));
    longer, t := WriteOne(s, longer, n, ValidateUser, 1, req, sagaId, id);
  }

  lemma ValidatedRequest(s: System, actions: seq<Action>, n: nat, req: Request, sagaId: string, id: string)
    returns (longer: seq<Action>, t: System)
    requires At(Run(s, actions), n, ValidateUser, req, sagaId, id)
    ensures actions <= longer
    ensures Losses(longer) == Losses(actions)
    ensures t == Run(s, longer) && At(t, n, LockStock, req, sagaId, id)
    ensures var u := Run(s, actions);
            t.stock == u.stock && t.rows == u.rows && t.sagas.Keys == u.sagas.Keys
  {
    longer, t := Take(s, actions, Act(n, UserIn(UserFound(req.user))));
    longer, t := WriteOne(s, longer, n, LockStock, 1, req, sagaId, id);
  }

  lemma BlockedRequest(s: System, actions: seq<Action>, n: nat, req: Request, sagaId: string, id: string)
    returns (longer: seq<Action>, t: System)
    requires At(Run(s, actions), n, LockStock, req, sagaId, id)
    requires var stock := Run(s, actions).stock;
             req.room in stock && 1 <= stock[req.room] <= Inventory.INT4_MAX
    ensures actions <= longer
    ensures Losses(longer) == Losses(actions)
    ensures t == Run(s, longer) && At(t, n, InsertRow, req, sagaId, id)
    ensures var u := Run(s, actions);
            t.stock == u.stock[req.room := u.stock[req.room] - 1] && t.rows == u.rows && t.sagas.Keys == u.sagas.Keys
  {
    longer, t := Take(s, actions, Act(n, StockIn(Acked, false, "")));
    longer, t := WriteOne(s, longer, n, InsertRow, 1, req, sagaId, id);
  }

  /** A request brought to its insert, its unit locked. */
  lemma LockedRequest(s: System, actions: seq<Action>, req: Request, sagaId: string, id: string)
    returns (longer: seq<Action>, t: System)
    requires var u := Run(s, actions);
             && req.room in u.stock && 1 <= u.stock[req.room] <= Inventory.INT4_MAX
             && sagaId !in u.sagas && Unused(u.rows, req.key)
    ensures actions <= longer
    ensures Losses(longer) == Losses(actions)
    ensures t == Run(s, longer) && At(t, |Run(s, actions).sessions|, InsertRow, req, sagaId, id)
    ensures var u := Run(s, actions);
            && t.stock == u.stock[req.room := u.stock[req.room] - 1]
            && t.rows == u.rows && t.sagas.Keys == u.sagas.Keys + {sagaId}
  {
    var n := |Run(s, actions).sessions|;
    longer, t := StartedRequest(s, actions, req, sagaId, id);
    longer, t := ValidatedRequest(s, longer, n, req, sagaId, id);
    longer, t := BlockedRequest(s, longer, n, req, sagaId, id);
  }

  /** The insert is not acknowledged: the saga has two transitions to record. */
  lemma UnacknowledgedStep(u: System, d: Delivery, req: Request, sagaId: string, id: string)
    requires At(u, 0, InsertRow, req, sagaId, id) && u.rows == [] && d != Acked
    ensures var t := Step(u, Act(0, RowIn(d, "")));
            && Recording(t, 0, Release(1), 2, req, sagaId, id)
            && t.stock == u.stock && t.sagas == u.sagas
            && t.rows == if d == LostReply then [Row(id, sagaId, req)] else []
  {
  }

  /** ... and turns to compensation. */
  lemma InsertUnacknowledged(s: System, actions: seq<Action>, d: Delivery, req: Request, sagaId: string, id: string)
    returns (longer: seq<Action>, t: System)
    requires At(Run(s, actions), 0, InsertRow, req, sagaId, id) && Run(s, actions).rows == [] && d != Acked
    ensures actions + [Act(0, RowIn(d, ""))] <= longer
    ensures Losses(longer) == Losses(actions) + Lost(d)
    ensures t == Run(s, longer) && At(t, 0, Release(1), req, sagaId, id)
    ensures var u := Run(s, actions);
            && t.stock == u.stock && t.sagas.Keys == u.sagas.Keys
            && t.rows == if d == LostReply then [Row(id, sagaId, req)] else []
  {
    UnacknowledgedStep(Run(s, actions), d, req, sagaId, id);
    longer, t := Take(s, actions, Act(0, RowIn(d, "")));
    longer, t := WriteTwo(s, longer, 0, Release(1), req, sagaId, id);
  }

  lemma WriteTwo(s: System, actions: seq<Action>, n: nat, p: Point, req: Request, sagaId: string, id: string)
    returns (longer: seq<Action>, t: System)
    requires Recording(Run(s, actions), n, p, 2, req, sagaId, id)
    ensures actions <= longer
    ensures Losses(longer) == Losses(actions)
    ensures t == Run(s, longer) && At(t, n, p, req, sagaId, id)
    ensures var u := Run(s, actions);
            t.stock == u.stock && t.rows == u.rows && t.sagas.Keys == u.sagas.Keys
  {
    longer, t := WriteOne(s, actions, n, p, 2, req, sagaId, id);
    longer, t := WriteOne(s, longer, n, p, 1, req, sagaId, id);
  }

  /** A release that takes effect; it is attempted again if its reply was lost. */
  lemma ReleaseOne(s: System, actions: seq<Action>, d: Delivery, k: nat, req: Request, sagaId: string, id: string)
    returns (longer: seq<Action>, t: System)
    requires At(Run(s, actions), 0, Release(k), req, sagaId, id) && d != NotApplied
    requires var stock := Run(s, actions).stock;
             req.room in stock && 0 <= stock[req.room] < Inventory.INT4_MAX
    ensures actions <= longer
    ensures Losses(longer) == Losses(actions) + Lost(d)
    ensures t == Run(s, longer) && |t.sessions| == 1
    ensures d == LostReply && k < ATTEMPTS ==> At(t, 0, Release(k + 1), req, sagaId, id)
    ensures var u := Run(s, actions);
            t.stock == u.stock[req.room := u.stock[req.room] + 1] && t.rows == u.rows && t.sagas.Keys == u.sagas.Keys
  {
    ReleaseStep(Run(s, actions), d, k, req, sagaId, id);
    longer, t := Take(s, actions, Act(0, StockIn(d, false, "")));
  }

  lemma ReleaseStep(u: System, d: Delivery, k: nat, req: Request, sagaId: string, id: string)
    requires At(u, 0, Release(k), req, sagaId, id) && d != NotApplied
    requires req.room in u.stock && 0 <= u.stock[req.room] < Inventory.INT4_MAX
    ensures var t := Step(u, Act(0, StockIn(d, false, "")));
            && |t.sessions| == 1
            && (d == LostReply && k < ATTEMPTS ==> At(t, 0, Release(k + 1), req, sagaId, id))
            && t.stock == u.stock[req.room := u.stock[req.room] + 1] && t.rows == u.rows && t.sagas == u.sagas
  {
  }

  lemma ThreeLostReleases(s: System, actions: seq<Action>, req: Request, sagaId: string, id: string)
    returns (longer: seq<Action>)
    requires At(Run(s, actions), 0, Release(1), req, sagaId, id)
    requires var stock := Run(s, actions).stock;
             req.room in stock && 0 <= stock[req.room] < Inventory.INT4_MAX - 2
    ensures Losses(longer) == Losses(actions) + 3
    ensures Run(s, longer).stock == Run(s, actions).stock[req.room := Run(s, actions).stock[req.room] + 3]
  {
    var t: System;
    longer, t := ReleaseOne(s, actions, LostReply, 1, req, sagaId, id);
    longer, t := ReleaseOne(s, longer, LostReply, 2, req, sagaId, id);
    longer, t := ReleaseOne(s, longer, LostReply, 3, req, sagaId, id);
  }

  /** An acknowledged insert adds its row and confirms it. */
  lemma InsertedStep(u: System, n: nat, req: Request, sagaId: string, id: string)
    requires At(u, n, InsertRow, req, sagaId, id) && Unused(u.rows, req.key)
    requires forall k :: 0 <= k < |u.rows| ==> u.rows[k].reservationId != id
    ensures var t := Step(u, Act(n, RowIn(Acked, "")));
            && t.rows == u.rows + [Row(id, sagaId, req)] && t.stock == u.stock && t.sagas == u.sagas
            && |t.sessions| == n + 1 && t.sessions[n].h.response == Some(Confirmed(id))
  {
    var h := u.sessions[n].h;
    assert NewRow(h) == Row(id, sagaId, req);
    assert Confirms(u, h, RowIn(Acked, ""));
  }

  lemma SecondInsert(s: System, actions: seq<Action>, first: Row, req: Request, sagaId: string, id: string)
    requires At(Run(s, actions), 1, InsertRow, req, sagaId, id) && req.key == ""
    requires Run(s, actions).rows == [first] && first.req.room == req.room && first.reservationId != id
    ensures Count(Run(s, actions + [Act(1, RowIn(Acked, ""))]).rows, InRoom(req.room)) == 2
  {
    Extend(s, actions, Act(1, RowIn(Acked, "")));
    InsertedStep(Run(s, actions), 1, req, sagaId, id);
    CountTwo(first, Row(id, sagaId, req), InRoom(req.room));
    assert [first] + [Row(id, sagaId, req)] == [first, Row(id, sagaId, req)];
  }

  lemma CountTwo(a: Row, b: Row, sel: Request -> bool)
    requires sel(a.req) && sel(b.req)
    ensures Count([a, b], sel) == 2
  {
    CountSnoc([a], sel, b);
    assert [a][..0] == [] && [a] + [b] == [a, b];
  }

  /** A request brought to its confirmation. */
  lemma {:induction false} BookedRequest(s: System, actions: seq<Action>, req: Request, sagaId: string, id: string)
    returns (longer: seq<Action>, t: System)
    requires var u := Run(s, actions);
             && req.room in u.stock && 1 <= u.stock[req.room] <= Inventory.INT4_MAX
             && sagaId !in u.sagas && Unused(u.rows, req.key)
             && forall k :: 0 <= k < |u.rows| ==> u.rows[k].reservationId != id
    ensures actions <= longer && t == Run(s, longer)
    ensures var u := Run(s, actions);
            && t.rows == u.rows + [Row(id, sagaId, req)]
            && t.stock == u.stock[req.room := u.stock[req.room] - 1]
            && t.sagas.Keys == u.sagas.Keys + {sagaId}
            && |t.sessions| == |u.sessions| + 1
            && t.sessions[|u.sessions|].h.response == Some(Confirmed(id))
  {
    var n := |Run(s, actions).sessions|;
    longer, t := LockedRequest(s, actions, req, sagaId, id);
    InsertedStep(t, n, req, sagaId, id);
    longer, t := Take(s, longer, Act(n, RowIn(Acked, "")));
  }

  /** Two requests with different keys, or none, are both confirmed, whatever else they
      have in common. */
  lemma {:induction false} TwoKeysBothBook(a: Request, b: Request) returns (actions: seq<Action>)
    requires a.key != b.key || a.key == ""
    ensures var s := Run(Initial(map[a.room := 2, b.room := 2]), actions);
            && s.rows == [Row("1", "1", a), Row("2", "2", b)]
            && |s.sessions| == 2
            && s.sessions[0].h.response == Some(Confirmed("1")) && s.sessions[1].h.response == Some(Confirmed("2"))
  {
    var stock := map[a.room := 2, b.room := 2];
    var one, two := "1", "2";
    assert one[0] != two[0];
    assert Run(Initial(stock), []) == Initial(stock);
    var first, t := BookedRequest(Initial(stock), [], a, one, one);
    actions, t := BookedRequest(Initial(stock), first, b, two, two);
    AnswerStays(stock, first, actions[|first|..], 0);
    assert first + actions[|first|..] == actions;
  }

  /** A single lost reply to the insert is enough to oversell: the first saga gives
      its unit back although its row stands, and a second request takes the unit. */
  lemma {:induction false} LostInsertOversells(req: Request) returns (actions: seq<Action>)
    requires req.key == ""
    ensures Losses(actions) == 1
    ensures Count(Run(Initial(map[req.room := 1]), actions).rows, InRoom(req.room)) == 2
  {
    var s0 := Initial(map[req.room := 1]);
    var one, two := "1", "2";
    assert one[0] != two[0];
    var t: System;
    assert Run(s0, []) == s0;
    actions, t := LockedRequest(s0, [], req, one, one);
    actions, t := InsertUnacknowledged(s0, actions, LostReply, req, one, one);
    actions, t := ReleaseOne(s0, actions, Acked, 1, req, one, one);
    actions, t := LockedRequest(s0, actions, req, two, two);
    SecondInsert(s0, actions, Row(one, one, req), req, two, two);
    actions, t := Take(s0, actions, Act(1, RowIn(Acked, "")));
  }

  /** A request whose unit is locked and whose insert fails. */
  lemma {:induction false} MustGiveBack(req: Request, units: nat) returns (actions: seq<Action>, t: System)
    requires 1 <= units <= Inventory.INT4_MAX && req.key == ""
    ensures Losses(actions) == 0
    ensures t == Run(Initial(map[req.room := units]), actions) && At(t, 0, Release(1), req, "", "")
    ensures t.stock == map[req.room := units - 1]
  {
    var s0 := Initial(map[req.room := units]);
    assert Run(s0, []) == s0;
    actions, t := LockedRequest(s0, [], req, "", "");
    actions, t := InsertUnacknowledged(s0, actions, NotApplied, req, "", "");
  }

  /** Three lost replies to the releases of one saga give back one unit three times:
      the stock ends two above what there was, the most SessionNet allows. */
  lemma {:induction false} LostReleasesInflate(req: Request, units: nat) returns (actions: seq<Action>)
    requires 1 <= units <= Inventory.INT4_MAX - 2 && req.key == ""
    ensures Losses(actions) == 3
    ensures Run(Initial(map[req.room := units]), actions).stock == map[req.room := units + 2]
  {
    var t: System;
    actions, t := MustGiveBack(req, units);
    actions := ThreeLostReleases(Initial(map[req.room := units]), actions, req, "", "");
  }
}
