/** The reservation system when a call given up as not applied may still take effect, at
    any later moment, or never: the laws of stock, rows and keys with such effects. */
module LateEffects {
  import Inventory
  import opened Network
  import opened Saga
  import opened Reservations
  import opened Conservation
  import opened Idempotency

  datatype Effect = LateBlock(room: string) | LateRelease(room: string) | LateInsert(row: Row)

  /** The system, the effects still under way, and those that have come about. */
  datatype Late = Late(sys: System, pending: seq<Effect>, happened: seq<Effect>)

  datatype Event = Now(a: Action) | Arrives(k: nat)

  /** What a call that failed without effect may still do. A call the breaker refused was
      never sent. */
  function LeftBehind(s: System, a: Action): seq<Effect> {
    if !Fits(s, a) || a.Arrive? then []
    else
      var h := s.sessions[a.who].h;
      match a.input
      case StockIn(d, circuitOpen, _) =>
        if d != NotApplied || circuitOpen then []
        else if h.point == LockStock then [LateBlock(h.req.room)] else [LateRelease(h.req.room)]
      case RowIn(d, _) => if d != NotApplied then [] else [LateInsert(NewRow(h))]
      case _ => []
  }

  /** Does the statement change anything in the table it now finds? */
  predicate Takes(s: System, e: Effect) {
    match e
    case LateBlock(room) => Inventory.Success(Inventory.Block(s.stock, room, 1, true).reply)
    case LateRelease(room) => Inventory.Success(Inventory.Release(s.stock, room, 1, true).reply)
    case LateInsert(row) => !Clashes(s.rows, row)
  }

  function Apply(s: System, e: Effect): System {
    match e
    case LateBlock(room) => s.(stock := Inventory.Block(s.stock, room, 1, true).stock)
    case LateRelease(room) => s.(stock := Inventory.Release(s.stock, room, 1, true).stock)
    case LateInsert(row) => if Clashes(s.rows, row) then s else s.(rows := s.rows + [row])
  }

  function Go(l: Late, ev: Event): Late {
    match ev
    case Now(a) => Late(Step(l.sys, a), l.pending + LeftBehind(l.sys, a), l.happened)
    case Arrives(k) =>
      if k >= |l.pending| then l
      else
        var e := l.pending[k];
        Late(Apply(l.sys, e), l.pending[..k] + l.pending[k + 1..],
             if Takes(l.sys, e) then l.happened + [e] else l.happened)
  }

  function GoAll(stock: map<string, int>, evs: seq<Event>): Late {
    if evs == [] then Late(Initial(stock), [], [])
    else Go(GoAll(stock, evs[..|evs| - 1]), evs[|evs| - 1])
  }

  // --- counting what came late ----------------------------------------------------------------

  function LateBlocks(es: seq<Effect>, room: string): nat {
    if es == [] then 0
    else LateBlocks(es[..|es| - 1], room) + if es[|es| - 1] == LateBlock(room) then 1 else 0
  }

  function LateReleases(es: seq<Effect>, room: string): nat {
    if es == [] then 0
    else LateReleases(es[..|es| - 1], room) + if es[|es| - 1] == LateRelease(room) then 1 else 0
  }

  function LateInserts(es: seq<Effect>, sel: Request -> bool): nat {
    if es == [] then 0
    else
      var e := es[|es| - 1];
      LateInserts(es[..|es| - 1], sel) + if e.LateInsert? && sel(e.row.req) then 1 else 0
  }

  lemma {:induction false} LateSnoc(es: seq<Effect>, e: Effect, room: string, sel: Request -> bool)
    ensures LateBlocks(es + [e], room) == LateBlocks(es, room) + if e == LateBlock(room) then 1 else 0
    ensures LateReleases(es + [e], room) == LateReleases(es, room) + if e == LateRelease(room) then 1 else 0
    ensures LateInserts(es + [e], sel) == LateInserts(es, sel) + if e.LateInsert? && sel(e.row.req) then 1 else 0
  {
    assert (es + [e])[..|es|] == es;
  }

  // --- what an effect keeps, whenever it comes ------------------------------------------------

  lemma ApplyFacts(s: System, e: Effect, room: string)
    requires GoodStock(s.stock)
    ensures var t := Apply(s, e);
            && GoodStock(t.stock) && t.stock.Keys == s.stock.Keys && t.sessions == s.sessions && s.rows <= t.rows
            && (!Takes(s, e) ==> t == s)
            && (room in s.stock ==>
                  t.stock[room] == s.stock[room] - (if Takes(s, e) && e == LateBlock(room) then 1 else 0)
                                   + if Takes(s, e) && e == LateRelease(room) then 1 else 0)
            && t.rows == if Takes(s, e) && e.LateInsert? then s.rows + [e.row] else s.rows
  {
  }

  lemma ApplyOk(s: System, e: Effect)
    requires SystemOk(s)
    ensures SystemOk(Apply(s, e))
  {
    ApplyFacts(s, e, "");
    var t := Apply(s, e);
    forall i | 0 <= i < |t.sessions|
      ensures SessionOk(t.sessions[i], t.stock)
    {
      assert SessionOk(s.sessions[i], s.stock);
    }
  }

  lemma ApplyUnique(s: System, e: Effect)
    requires GoodStock(s.stock) && UniqueRows(s.rows) && AnswersBacked(s)
    ensures UniqueRows(Apply(s, e).rows) && AnswersBacked(Apply(s, e))
  {
    ApplyFacts(s, e, "");
    var t := Apply(s, e);
    forall i | 0 <= i < |t.sessions|
      ensures Backed(t.sessions[i].h, t.rows)
    {
      var h := s.sessions[i].h;
      assert Backed(h, s.rows);
      if h.response.Some? && h.response.value.Confirmed? {
        HasRowGrows(s.rows, t.rows, h.response.value.reservationId, h.req.key);
      }
    }
  }

  // --- the laws over all runs -----------------------------------------------------------------

  ghost predicate LateOk(l: Late) {
    SystemOk(l.sys) && UniqueRows(l.sys.rows) && AnswersBacked(l.sys)
  }

  lemma LateOkStep(l: Late, ev: Event)
    requires LateOk(l)
    ensures LateOk(Go(l, ev))
    ensures Go(l, ev).sys.stock.Keys == l.sys.stock.Keys && l.sys.rows <= Go(l, ev).sys.rows
  {
    match ev {
      case Now(a) =>
        StepOk(l.sys, a);
        UniqueRowsStep(l.sys, a);
        AnswersBackedStep(l.sys, a);
      case Arrives(k) =>
        if k < |l.pending| {
          ApplyOk(l.sys, l.pending[k]);
          ApplyUnique(l.sys, l.pending[k]);
          ApplyFacts(l.sys, l.pending[k], "");
        }
    }
  }

  lemma {:induction false} LateRunOk(stock: map<string, int>, evs: seq<Event>)
    requires GoodStock(stock)
    ensures LateOk(GoAll(stock, evs)) && GoAll(stock, evs).sys.stock.Keys == stock.Keys
  {
    if evs == [] {
    } else {
      LateRunOk(stock, evs[..|evs| - 1]);
      LateOkStep(GoAll(stock, evs[..|evs| - 1]), evs[|evs| - 1]);
    }
  }

  /** With late effects, too: one reservation per key. */
  lemma {:induction false} LateOnePerKey(stock: map<string, int>, evs: seq<Event>, key: string)
    requires GoodStock(stock) && key != ""
    ensures OneAnswer(GoAll(stock, evs).sys, key)
  {
    LateRunOk(stock, evs);
    OneAnswerHere(GoAll(stock, evs).sys, key);
  }

  function StockBalance(s: System, room: string): int
    requires room in s.stock
  {
    s.stock[room] + Sum(Blocks, s.sessions, InRoom(room)) - Sum(Releases, s.sessions, InRoom(room))
  }

  lemma StockBalanceStep(s: System, a: Action, room: string)
    requires SystemOk(s) && room in s.stock
    ensures room in Step(s, a).stock && StockBalance(Step(s, a), room) == StockBalance(s, room)
  {
    StepOk(s, a);
    StockLawStep(map[room := StockBalance(s, room)], s, a, room);
  }

  ghost predicate LateLaws(stock: map<string, int>, l: Late, room: string) {
    && room in stock && room in l.sys.stock
    && StockBalance(l.sys, room) == stock[room] - LateBlocks(l.happened, room) + LateReleases(l.happened, room)
    && Count(l.sys.rows, InRoom(room)) ==
       Sum(Inserts, l.sys.sessions, InRoom(room)) + LateInserts(l.happened, InRoom(room))
  }

  lemma LateLawsStep(stock: map<string, int>, l: Late, ev: Event, room: string)
    requires LateOk(l) && LateLaws(stock, l, room)
    ensures LateLaws(stock, Go(l, ev), room)
  {
    match ev {
      case Now(a) =>
        StockBalanceStep(l.sys, a, room);
        RowsLawStep(l.sys, a, InRoom(room));
      case Arrives(k) =>
        if k < |l.pending| {
          LateLawsArrive(stock, l, l.pending[k], Go(l, ev), room);
        }
    }
  }

  lemma LateLawsArrive(stock: map<string, int>, l: Late, e: Effect, m: Late, room: string)
    requires LateOk(l) && LateLaws(stock, l, room)
    requires m.sys == Apply(l.sys, e) && m.happened == if Takes(l.sys, e) then l.happened + [e] else l.happened
    ensures LateLaws(stock, m, room)
  {
    ApplyFacts(l.sys, e, room);
    LateSnoc(l.happened, e, room, InRoom(room));
    if e.LateInsert? {
      CountSnoc(l.sys.rows, InRoom(room), e.row);
    }
  }

  lemma {:induction false} LateRunLaws(stock: map<string, int>, evs: seq<Event>, room: string)
    requires GoodStock(stock) && room in stock
    ensures LateLaws(stock, GoAll(stock, evs), room)
  {
    if evs == [] {
    } else {
      LateRunLaws(stock, evs[..|evs| - 1], room);
      LateRunOk(stock, evs[..|evs| - 1]);
      LateLawsStep(stock, GoAll(stock, evs[..|evs| - 1]), evs[|evs| - 1], room);
    }
  }

  /** The stock of a room is never negative, and always its initial stock less the blocks
      plus the releases that took effect, in time or late. */
  lemma {:induction false} LateStockIsLedger(stock: map<string, int>, evs: seq<Event>, room: string)
    requires GoodStock(stock) && room in stock
    ensures var l := GoAll(stock, evs);
            && room in l.sys.stock
            && 0 <= l.sys.stock[room]
            && l.sys.stock[room] ==
               stock[room]
               - (Sum(Blocks, l.sys.sessions, InRoom(room)) + LateBlocks(l.happened, room))
               + (Sum(Releases, l.sys.sessions, InRoom(room)) + LateReleases(l.happened, room))
  {
    LateRunLaws(stock, evs, room);
    LateRunOk(stock, evs);
  }

  /** The exact law with late effects: what the room accounts for drifts by the lost
      acknowledgements and, in the same directions, by the effects that came late. */
  lemma {:induction false} LateConservation(stock: map<string, int>, evs: seq<Event>, room: string)
    requires GoodStock(stock) && room in stock
    ensures var l := GoAll(stock, evs);
            && room in l.sys.stock
            && Accountable(l.sys, room) ==
               stock[room] + Drift(l.sys, room)
               + LateReleases(l.happened, room) + LateInserts(l.happened, InRoom(room)) - LateBlocks(l.happened, room)
  {
    LateRunLaws(stock, evs, room);
    LateRunOk(stock, evs);
    var s := GoAll(stock, evs).sys;
    assert forall i :: 0 <= i < |s.sessions| ==> SessionOk(s.sessions[i], s.stock);
    SumAccounts(s.sessions, InRoom(room));
  }

  // --- what may come late, and that it matters -------------------------------------------------

  /** Exactly the calls that were sent and failed without effect leave something behind. */
  lemma LeftBehindExactly(s: System, i: nat, input: Input)
    requires Fits(s, Act(i, input))
    ensures var h := s.sessions[i].h;
            LeftBehind(s, Act(i, input)) ==
            if input.StockIn? && input.d == NotApplied && !input.circuitOpen then
              [if h.point == LockStock then LateBlock(h.req.room) else LateRelease(h.req.room)]
            else if input.RowIn? && input.d == NotApplied then [LateInsert(Row(h.reservationId, h.sagaId, h.req))]
            else []
  {
  }

  /** All that was left behind in a run. */
  function AllLeft(stock: map<string, int>, evs: seq<Event>): seq<Effect> {
    if evs == [] then []
    else
      var front, ev := evs[..|evs| - 1], evs[|evs| - 1];
      AllLeft(stock, front) + if ev.Now? then LeftBehind(GoAll(stock, front).sys, ev.a) else []
  }

  lemma PickOne(es: seq<Effect>, k: nat)
    requires k < |es|
    ensures multiset(es) == multiset(es[..k] + es[k + 1..]) + multiset{es[k]}
  {
    assert es == es[..k] + [es[k]] + es[k + 1..];
  }

  /** An effect that arrives moves at most from the pending ones to those that happened. */
  lemma ArrivalKeeps(l: Late, k: nat)
    ensures var t := Go(l, Arrives(k));
            multiset(t.happened) + multiset(t.pending) <= multiset(l.happened) + multiset(l.pending)
  {
    if k < |l.pending| {
      var e, t := l.pending[k], Go(l, Arrives(k));
      PickOne(l.pending, k);
      assert multiset(t.pending) + multiset{e} == multiset(l.pending);
      assert multiset(t.happened) <= multiset(l.happened) + multiset{e} by {
        assert multiset(l.happened + [e]) == multiset(l.happened) + multiset{e};
      }
    }
  }

  /** Each comes about once at most: what happened late and what may still happen are
      among what was left behind, counted with repetitions. */
  lemma {:induction false} ArrivesOnce(stock: map<string, int>, evs: seq<Event>)
    ensures var l := GoAll(stock, evs);
            multiset(l.happened) + multiset(l.pending) <= multiset(AllLeft(stock, evs))
  {
    if evs != [] {
      var front, ev := evs[..|evs| - 1], evs[|evs| - 1];
      ArrivesOnce(stock, front);
      if ev.Arrives? {
        ArrivalKeeps(GoAll(stock, front), ev.k);
      }
    }
  }

  /** When it arrives it does what the statement then does. */
  lemma TakesExactly(s: System, e: Effect)
    requires GoodStock(s.stock)
    ensures e.LateBlock? ==> (Takes(s, e) <==> e.room in s.stock && s.stock[e.room] >= 1)
    ensures e.LateRelease? ==> (Takes(s, e) <==> e.room in s.stock && s.stock[e.room] < 0x7fff_ffff)
    ensures e.LateInsert? ==>
              (Takes(s, e) <==>
               forall k :: 0 <= k < |s.rows| ==>
                 && s.rows[k].reservationId != e.row.reservationId
                 && (e.row.req.key == "" || s.rows[k].req.key != e.row.req.key))
  {
    if e.LateInsert? {
      FreeExactly(s.rows, e.row);
    }
  }

  /** A run in which nothing comes late, as events. */
  function Nows(actions: seq<Action>): (evs: seq<Event>)
    ensures |evs| == |actions|
  {
    if actions == [] then [] else Nows(actions[..|actions| - 1]) + [Now(actions[|actions| - 1])]
  }

  lemma {:induction false} NowsAreRun(stock: map<string, int>, actions: seq<Action>)
    ensures GoAll(stock, Nows(actions)).sys == Run(Initial(stock), actions)
    ensures GoAll(stock, Nows(actions)).happened == []
  {
    if actions == [] {
    } else {
      var front := actions[..|actions| - 1];
      NowsAreRun(stock, front);
      assert Nows(actions)[..|front|] == Nows(front);
    }
  }

  lemma {:induction false} PendingGrows(stock: map<string, int>, actions: seq<Action>, longer: seq<Action>)
    requires actions <= longer
    ensures GoAll(stock, Nows(actions)).pending <= GoAll(stock, Nows(longer)).pending
  {
    if actions == longer {
    } else {
      var front := longer[..|longer| - 1];
      PendingGrows(stock, actions, front);
      assert Nows(longer)[..|front|] == Nows(front);
    }
  }

  /** An insert that failed is still under way in every longer run. */
  lemma {:induction false} InsertPending(stock: map<string, int>, actions: seq<Action>, longer: seq<Action>,
                                         req: Request, sagaId: string, id: string) returns (k: nat)
    requires At(Run(Initial(stock), actions), 0, InsertRow, req, sagaId, id)
    requires actions + [Act(0, RowIn(NotApplied, ""))] <= longer
    ensures k < |GoAll(stock, Nows(longer)).pending|
    ensures GoAll(stock, Nows(longer)).pending[k] == LateInsert(Row(id, sagaId, req))
  {
    var a := Act(0, RowIn(NotApplied, ""));
    var one := actions + [a];
    assert one[..|actions|] == actions;
    assert Nows(one)[..|actions|] == Nows(actions);
    NowsAreRun(stock, actions);
    var l := GoAll(stock, Nows(actions));
    LeftBehindExactly(l.sys, 0, RowIn(NotApplied, ""));
    k := |l.pending|;
    assert GoAll(stock, Nows(one)).pending == l.pending + [LateInsert(Row(id, sagaId, req))];
    PendingGrows(stock, one, longer);
  }

  /** A unit given back after a failed insert, and sold to a second request. */
  lemma {:induction false} SoldAgain(req: Request, one: string, two: string)
    returns (locked: seq<Action>, booked: seq<Action>)
    requires req.key == "" && one != two
    ensures At(Run(Initial(map[req.room := 1]), locked), 0, InsertRow, req, one, one)
    ensures locked + [Act(0, RowIn(NotApplied, ""))] <= booked
    ensures Run(Initial(map[req.room := 1]), booked).rows == [Row(two, two, req)]
    ensures GoodStock(Run(Initial(map[req.room := 1]), booked).stock)
  {
    var s0 := Initial(map[req.room := 1]);
    assert Run(s0, []) == s0;
    var failed, released, t;
    locked, t := LockedRequest(s0, [], req, one, one);
    failed, t := InsertUnacknowledged(s0, locked, NotApplied, req, one, one);
    released, t := ReleaseOne(s0, failed, Acked, 1, req, one, one);
    booked, t := BookedRequest(s0, released, req, two, two);
  }

  /** No reply is lost, and yet: an insert that failed arrives after its saga gave the unit
      back and another request took it, and the room is sold twice. */
  lemma {:induction false} LateInsertOversells(req: Request) returns (evs: seq<Event>)
    requires req.key == ""
    ensures var l := GoAll(map[req.room := 1], evs);
            && l.sys.rows == [Row("2", "2", req), Row("1", "1", req)]
            && l.happened == [LateInsert(Row("1", "1", req))]
  {
    var stock := map[req.room := 1];
    var one, two := "1", "2";
    assert one[0] != two[0];
    assert Run(Initial(stock), []) == Initial(stock);
    var locked, booked := SoldAgain(req, one, two);
    var k := InsertPending(stock, locked, booked, req, one, one);
    NowsAreRun(stock, booked);
    evs := Nows(booked) + [Arrives(k)];
    assert evs[..|booked|] == Nows(booked);
    TakesExactly(GoAll(stock, Nows(booked)).sys, LateInsert(Row(one, one, req)));
  }
}
