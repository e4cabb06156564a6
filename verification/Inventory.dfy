/** The stock side of the system: the deployed inventory server
    (inventario-service/main.go) and the layered second implementation
    (internal/transport/grpc/handler.go over internal/repository).

    Both run single SQL statements against room_types.stock_total, an int4
    column, so a statement whose result leaves the int4 range is refused by the
    database. `up` says whether the database executes statements at all. */
module Inventory {

  const INT4_MIN := -0x8000_0000
  const INT4_MAX := 0x7fff_ffff

  const BLOQUEAR := "BLOQUEAR"
  const LIBERAR := "LIBERAR"

  type Stock = map<string, int>

  datatype Request = Request(room: string, quantity: int, action: string)

  datatype Code = InvalidArgument | Internal | ResourceExhausted | NotFound

  datatype Reply = Status(ok: bool) | Failed(code: Code)

  datatype Result = Result(reply: Reply, stock: Stock)

  /** What the client is told: only `status = true` is a success. */
  predicate Success(r: Reply) {
    r == Status(true)
  }

  predicate IsBlock(action: string) {
    action == BLOQUEAR || action == "0"
  }

  predicate IsRelease(action: string) {
    action == LIBERAR || action == "1"
  }

  predicate Recognised(action: string) {
    IsBlock(action) || IsRelease(action)
  }

  predicate InInt4(n: int) {
    INT4_MIN <= n <= INT4_MAX
  }

  /** The outcome of one UPDATE: rows affected, or an error that changes nothing. */
  datatype Sql = SqlError | Affected(rows: nat)

  /** The WHERE clause of the blocking update. */
  predicate Covers(stock: Stock, room: string, quantity: int) {
    room in stock && stock[room] >= quantity
  }

  /** The deployed server's block and release, as functions of the table they find. */
  function Block(stock: Stock, room: string, quantity: int, up: bool): Result {
    if !up then Result(Failed(Internal), stock)
    else if !Covers(stock, room, quantity) then Result(Failed(ResourceExhausted), stock)
    else if !InInt4(stock[room] - quantity) then Result(Failed(Internal), stock)
    else Result(Status(true), stock[room := stock[room] - quantity])
  }

  function Release(stock: Stock, room: string, quantity: int, up: bool): Result {
    if !up then Result(Failed(Internal), stock)
    else if room !in stock then Result(Status(false), stock)
    else if !InInt4(stock[room] + quantity) then Result(Failed(Internal), stock)
    else Result(Status(true), stock[room := stock[room] + quantity])
  }

  function Deployed(stock: Stock, req: Request, up: bool): Result {
    if IsBlock(req.action) then Block(stock, req.room, req.quantity, up)
    else if IsRelease(req.action) then Release(stock, req.room, req.quantity, up)
    else Result(Failed(InvalidArgument), stock)
  }

  /** Layered implementation: every action that is not a release is taken for a
      block, and a quantity that is not positive is refused before the database. */
  function Layered(stock: Stock, req: Request, up: bool): Result {
    if req.quantity <= 0 then Result(Failed(InvalidArgument), stock)
    else if !up then Result(Failed(Internal), stock)
    else if req.room !in stock then Result(Failed(NotFound), stock)
    else if IsRelease(req.action) then
      if !InInt4(stock[req.room] + req.quantity) then Result(Failed(Internal), stock)
      else Result(Status(true), stock[req.room := stock[req.room] + req.quantity])
    else if stock[req.room] < req.quantity then Result(Failed(ResourceExhausted), stock)
    else if !InInt4(stock[req.room] - req.quantity) then Result(Failed(Internal), stock)
    else Result(Status(true), stock[req.room := stock[req.room] - req.quantity])
  }

  /** The room_types table, updated in place. */
  class RoomTypes {
    var stock: Stock

    constructor (initial: Stock)
      ensures stock == initial
    {
      stock := initial;
    }

    /** UPDATE room_types SET stock_total = stock_total + delta WHERE id = room AND stock_total >= floor */
    method Update(room: string, delta: int, floor: int, up: bool) returns (res: Sql)
      modifies this
      ensures res == SqlError <==>
              !up || (room in old(stock) && old(stock[room]) >= floor && !InInt4(old(stock[room]) + delta))
      ensures res != SqlError ==>
                res == Affected(if room in old(stock) && old(stock[room]) >= floor then 1 else 0)
      ensures stock == if res == Affected(1) then old(stock)[room := old(stock[room]) + delta] else old(stock)
    {
      if !up {
        return SqlError;
      }
      if room !in stock || stock[room] < floor {
        return Affected(0);
      }
      if !InInt4(stock[room] + delta) {
        return SqlError;
      }
      stock := stock[room := stock[room] + delta];
      return Affected(1);
    }

    /** inventoryServer.UpdateStock of the deployed server. */
    method UpdateStock(req: Request, up: bool) returns (reply: Reply)
      requires InInt4(req.quantity)
      requires forall r :: r in stock ==> InInt4(stock[r])
      modifies this
      ensures Result(reply, stock) == Deployed(old(stock), req, up)
      ensures forall r :: r in stock ==> InInt4(stock[r])
    {
      var res: Sql;
      if IsBlock(req.action) {
        res := Update(req.room, -req.quantity, req.quantity, up);
      } else if IsRelease(req.action) {
        // no floor in the releasing statement: any int4 value passes
        res := Update(req.room, req.quantity, INT4_MIN, up);
      } else {
        return Failed(InvalidArgument);
      }
      if res == SqlError {
        return Failed(Internal);
      }
      if res.rows == 0 && IsBlock(req.action) {
        return Failed(ResourceExhausted);
      }
      return Status(res.rows > 0);
    }

    /** postgresInventoryRepository.UpdateStock: one transaction, with a second
        look at the table to tell a missing room type from missing stock. */
    method RepositoryUpdateStock(room: string, quantity: int, release: bool, up: bool) returns (reply: Reply)
      requires forall r :: r in stock ==> InInt4(stock[r])
      modifies this
      ensures Result(reply, stock) ==
              Layered(old(stock), Request(room, quantity, if release then LIBERAR else BLOQUEAR), up)
    {
      if quantity <= 0 {
        return Failed(InvalidArgument);
      }
      var res: Sql;
      if release {
        res := Update(room, quantity, INT4_MIN, up);
        if res == Affected(0) {
          return Failed(NotFound);
        }
      } else {
        res := Update(room, -quantity, quantity, up);
        if res == Affected(0) {
          return Failed(if room in stock then ResourceExhausted else NotFound);
        }
      }
      if res == SqlError {
        return Failed(Internal);
      }
      return Status(true);
    }

    /** InventoryHandler.UpdateStock: action normalisation, then the repository. */
    method HandlerUpdateStock(req: Request, up: bool) returns (reply: Reply)
      requires forall r :: r in stock ==> InInt4(stock[r])
      modifies this
      ensures Result(reply, stock) == Layered(old(stock), req, up)
    {
      reply := RepositoryUpdateStock(req.room, req.quantity, IsRelease(req.action), up);
    }
  }

  // --- what one call promises -----------------------------------------------

  /** A unit blocked and then released leaves the table as it was, and the release
      of a successful block cannot be refused by a working database. */
  lemma ReleaseUndoesBlock(stock: Stock, room: string, quantity: int)
    requires forall r :: r in stock ==> InInt4(stock[r])
    requires Success(Deployed(stock, Request(room, quantity, BLOQUEAR), true).reply)
    ensures
      var locked := Deployed(stock, Request(room, quantity, BLOQUEAR), true).stock;
      Deployed(locked, Request(room, quantity, LIBERAR), true) == Result(Status(true), stock)
  {
  }

  /** The two calls a saga makes are a block and a release of one unit. */
  lemma SagaRequests(stock: Stock, room: string, up: bool)
    ensures Deployed(stock, Request(room, 1, BLOQUEAR), up) == Block(stock, room, 1, up)
    ensures Deployed(stock, Request(room, 1, LIBERAR), up) == Release(stock, room, 1, up)
  {
    assert |LIBERAR| == 7 && |BLOQUEAR| == 8 && |"0"| == 1;
  }

  /** Every answer of the deployed server, label by label. */
  lemma DeployedExactly(stock: Stock, req: Request, up: bool)
    requires forall r :: r in stock ==> InInt4(stock[r])
    requires -0x8000_0000 < req.quantity <= 0x7fff_ffff
    ensures var r := Deployed(stock, req, up);
            var block := req.action == "BLOQUEAR" || req.action == "0";
            var release := req.action == "LIBERAR" || req.action == "1";
            && !(block && release)
            && (!block && !release ==> r == Result(Failed(InvalidArgument), stock))
            && ((block || release) && !up ==> r == Result(Failed(Internal), stock))
            && (block && up && (req.room !in stock || stock[req.room] < req.quantity) ==>
                  r == Result(Failed(ResourceExhausted), stock))
            && (block && up && req.room in stock && stock[req.room] >= req.quantity > 0 ==>
                  r == Result(Status(true), stock[req.room := stock[req.room] - req.quantity]))
            && (release && up && req.room !in stock ==> r == Result(Status(false), stock))
            && (release && up && req.room in stock && 0 < req.quantity <= 0x7fff_ffff - stock[req.room] ==>
                  r == Result(Status(true), stock[req.room := stock[req.room] + req.quantity]))
            && (release && up && req.room in stock && stock[req.room] + req.quantity > 0x7fff_ffff ==>
                  r == Result(Failed(Internal), stock))
  {
    assert |LIBERAR| == 7 && |BLOQUEAR| == 8 && "0"[0] != "1"[0];
    if req.room in stock {
      assert InInt4(stock[req.room]);
    }
  }

  /** Every answer of the layered implementation. */
  lemma LayeredExactly(stock: Stock, req: Request, up: bool)
    requires forall r :: r in stock ==> InInt4(stock[r])
    ensures var r := Layered(stock, req, up);
            var release := req.action == "LIBERAR" || req.action == "1";
            && (req.quantity <= 0 ==> r == Result(Failed(InvalidArgument), stock))
            && (req.quantity > 0 && !up ==> r == Result(Failed(Internal), stock))
            && (req.quantity > 0 && up && req.room !in stock ==> r == Result(Failed(NotFound), stock))
            && (req.quantity > 0 && up && req.room in stock && !release ==>
                  if stock[req.room] < req.quantity then r == Result(Failed(ResourceExhausted), stock)
                  else stock[req.room] - req.quantity >= -0x8000_0000 ==>
                    r == Result(Status(true), stock[req.room := stock[req.room] - req.quantity]))
            && (req.quantity > 0 && up && req.room in stock && release ==>
                  if stock[req.room] + req.quantity > 0x7fff_ffff then r == Result(Failed(Internal), stock)
                  else r == Result(Status(true), stock[req.room := stock[req.room] + req.quantity]))
  {
    if req.room in stock {
      assert InInt4(stock[req.room]);
    }
  }

  // --- the two implementations compared ---------------------------------------

  predicate Agree(a: Result, b: Result) {
    a.stock == b.stock && (Success(a.reply) <==> Success(b.reply))
  }

  /** The requests on which the implementations can part: a label that only one of
      them takes for a block, or a quantity that only one of them refuses. */
  predicate Diverges(stock: Stock, req: Request) {
    if req.quantity > 0 then
      !Recognised(req.action) && Covers(stock, req.room, req.quantity)
    else
      && Recognised(req.action)
      && req.room in stock
      && (if IsBlock(req.action)
          then stock[req.room] >= req.quantity && InInt4(stock[req.room] - req.quantity)
          else InInt4(stock[req.room] + req.quantity))
  }

  /** On any table and any request, they agree exactly outside that guard. */
  lemma AgreeExactly(stock: Stock, req: Request, up: bool)
    requires forall r :: r in stock ==> InInt4(stock[r])
    ensures Agree(Deployed(stock, req, up), Layered(stock, req, up)) <==> !(up && Diverges(stock, req))
  {
  }

  /** They do part: a label neither knows, for one unit of a covered room, is refused by
      the deployed server and blocks a unit in the layered one. */
  lemma UnknownLabelDiverges(room: string)
    ensures var stock, req := map[room := 1], Request(room, 1, "RESERVAR");
            && Diverges(stock, req)
            && Deployed(stock, req, true) == Result(Failed(InvalidArgument), stock)
            && Layered(stock, req, true) == Result(Status(true), map[room := 0])
  {
    assert "RESERVAR"[0] != BLOQUEAR[0] && |"RESERVAR"| != |LIBERAR| && |"RESERVAR"| != 1;
  }

  /** A call as one of the implementations receives it. */
  datatype Call = Call(req: Request, up: bool)

  function RunDeployed(stock: Stock, calls: seq<Call>): (Stock, seq<Reply>) {
    if calls == [] then (stock, [])
    else
      var (s, rs) := RunDeployed(stock, calls[..|calls| - 1]);
      var c := calls[|calls| - 1];
      var r := Deployed(s, c.req, c.up);
      (r.stock, rs + [r.reply])
  }

  function RunLayered(stock: Stock, calls: seq<Call>): (Stock, seq<Reply>) {
    if calls == [] then (stock, [])
    else
      var (s, rs) := RunLayered(stock, calls[..|calls| - 1]);
      var c := calls[|calls| - 1];
      var r := Layered(s, c.req, c.up);
      (r.stock, rs + [r.reply])
  }

  predicate WellFormed(calls: seq<Call>) {
    forall i :: 0 <= i < |calls| ==> calls[i].req.quantity > 0 && Recognised(calls[i].req.action)
  }

  /** The replies that may differ: how a missing room type is reported. */
  predicate SameButMissing(a: Reply, b: Reply) {
    || a == b
    || (b == Failed(NotFound) && (a == Failed(ResourceExhausted) || a == Status(false)))
  }

  lemma DeployedKeepsRange(stock: Stock, req: Request, up: bool)
    requires forall r :: r in stock ==> InInt4(stock[r])
    ensures forall r :: r in Deployed(stock, req, up).stock ==> InInt4(Deployed(stock, req, up).stock[r])
  {
  }

  /** Over any sequence of well-formed requests the two leave the same table and
      give the same verdicts, whenever the database is up or down for both. */
  lemma {:induction false} ImplementationsAgree(stock: Stock, calls: seq<Call>)
    requires forall r :: r in stock ==> InInt4(stock[r])
    requires WellFormed(calls)
    ensures RunDeployed(stock, calls).0 == RunLayered(stock, calls).0
    ensures |RunDeployed(stock, calls).1| == |RunLayered(stock, calls).1| == |calls|
    ensures forall i :: 0 <= i < |calls| ==>
              && (Success(RunDeployed(stock, calls).1[i]) <==> Success(RunLayered(stock, calls).1[i]))
              && SameButMissing(RunDeployed(stock, calls).1[i], RunLayered(stock, calls).1[i])
    ensures forall r :: r in RunDeployed(stock, calls).0 ==> InInt4(RunDeployed(stock, calls).0[r])
  {
    if calls == [] {
    } else {
      var front, c := calls[..|calls| - 1], calls[|calls| - 1];
      ImplementationsAgree(stock, front);
      var s := RunDeployed(stock, front).0;
      AgreeExactly(s, c.req, c.up);
      DeployedKeepsRange(s, c.req, c.up);
    }
  }

  /** Units the answered calls took from a room, net of those they gave back. */
  function NetTaken(calls: seq<Call>, replies: seq<Reply>, room: string): int
    requires |calls| == |replies|
  {
    if calls == [] then 0
    else
      var k := |calls| - 1;
      NetTaken(calls[..k], replies[..k], room) +
      (if calls[k].req.room != room || !Success(replies[k]) then 0
       else if IsBlock(calls[k].req.action) then calls[k].req.quantity
       else -calls[k].req.quantity)
  }

  /** The table is determined by what was answered: for every request sequence,
      stock = initial - successful blocks + successful releases, room by room. */
  lemma {:induction false} AnswersDetermineStock(stock: Stock, calls: seq<Call>, room: string)
    ensures RunDeployed(stock, calls).0.Keys == stock.Keys
    ensures |RunDeployed(stock, calls).1| == |calls|
    ensures room in stock ==>
              RunDeployed(stock, calls).0[room] == stock[room] - NetTaken(calls, RunDeployed(stock, calls).1, room)
  {
    if calls == [] {
    } else {
      var k := |calls| - 1;
      AnswersDetermineStock(stock, calls[..k], room);
      var rs := RunDeployed(stock, calls).1;
      assert rs[..k] == RunDeployed(stock, calls[..k]).1;
      assert !(IsBlock(calls[k].req.action) && IsRelease(calls[k].req.action)) by {
        assert |LIBERAR| == 7 && |BLOQUEAR| == 8 && "0"[0] != "1"[0];
      }
    }
  }
}
