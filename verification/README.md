# Verification model of the hotel reservation services

This project models the reservation saga and the resilience code around it and proves properties of
the model in Dafny 4.11: the saga handler of the reservation service with the inventory server it calls,
the circuit breaker, the two rate limiters and the retry loop of the gateway, and the deduplication of
notifications by the gRPC servicer and the Kafka worker.

`dafny verify dfyconfig.toml` checks the whole project.

## How the model is laid out

| file | module | content |
|---|---|---|
| `Inventory.dfy` | `Inventory` | the room_types table, the deployed `UpdateStock` and the layered second implementation |
| `Saga.dfy` | `Saga` | the saga row and event log; `CreateReservation` and `compensateInventory` as an automaton over what they observe |
| `Reservations.dfy` | `Reservations` | any number of handlers interleaved over shared stock and tables; every call and statement applied and acknowledged, applied with its reply lost, or not applied |
| `Conservation.dfy`, `SagaTables.dfy`, `Idempotency.dfy` | same names | what holds in every reachable state of that system |
| `SharedBreaker.dfy` | `SharedBreaker` | the same system with the inventory breaker its handlers share and a clock: asking the breaker, the call, and recording its outcome are separate moves |
| `OpenBreaker.dfy`, `Refusals.dfy`, `SoldOut.dfy` | same names | compensation while that breaker is open, in every interleaving; exactly when it succeeds; a run in which sold-out answers alone open the breaker |
| `LateEffects.dfy` | `LateEffects` | the system when a call given up as failed may still take effect at any later moment |
| `CircuitBreaker.dfy` | `Breaker` | the breaker as a class, its meaning as a fold over the history of admissions and outcomes |
| `ReservationServer.dfy` | `ReservationServer` | the handlers as code over tables updated in place, the breaker and a clock; each statement is one action of the system of `Reservations` |
| `Network.dfy` | `Network` | what can become of one call or statement |
| `RateLimiting.dfy`, `TokenBucket.dfy`, `SlidingWindow.dfy` | same names | both limiters as classes over per-key dictionaries, each against a specification over the key's whole call history |
| `Retry.dfy` | `Retry` | the retry loop |
| `Notifications.dfy`, `Worker.dfy` | `Notifications`, `Worker` | the servicer and the Kafka worker as classes, and the interleaving of their calls |

Mutable objects of the services are classes whose methods are proved against functions of the old state;
the theorems are then proved about those functions. Concurrency is a state machine: a run is any sequence
of actions, and an action that does not fit the state changes nothing, so a statement about all action
sequences is a statement about all interleavings, with all failures. `Server.Valid` of `ReservationServer`
says that the tables of the code are those of the state machine after the actions so far, so the code inherits
every theorem about all runs; `SharedBreaker.PlayIsRun` does the same for the system with the shared breaker, and
`Worker.WorkerIsRun` for the Kafka worker.

## Where the code and its documentation differ

The model follows the code.

* The breaker's comment (mi-servicio/circuitbreaker.go:70-72) speaks of consecutive failures, but a success recorded
  while CLOSED does not reset the counter (lines 126-133). `Breaker.NotConsecutive` is a history that opens the breaker with
  one trailing failure; `Breaker.TripsOnTotal` says what opens it instead, and `Breaker.ConsecutiveExactly` when the counter
  means what the comment says.
* "No stock" is an error, and every error counts as a failure (mi-servicio/circuitbreaker.go:176-179): `SoldOut.SoldOutStrands` is,
  for every threshold and every open duration above 1.5 s, a run in which inventory serves every call and every reply
  arrives, and yet sold-out answers open the shared breaker and a saga whose insert failed loses its unit. Under those
  conditions a saga gives up if and only if the breaker refused all three of its releases (`Refusals.AbandonedExactly`), and
  gives its unit back, once, if and only if the breaker admitted one (`Refusals.GivenBackExactly`).
* Stock is conserved only while no reply is lost. `Conservation.ExactConservation` is the law with lost replies,
  `Conservation.ConservedExactly` says when plain conservation holds in a state, and `Idempotency.LostInsertOversells` is a run in which one lost
  reply to the insert sells one room twice.
* An insert reported as failed may still arrive: `LateEffects.LateInsertOversells` sells one unit twice without any lost reply.
* The gateway's Retry-After for the sliding window is too short by an instant exactly when retry_after is a positive
  whole number (`SlidingWindow.HeaderSuffices`); `SlidingWindow.HeaderTooShort` is such a case.
* The comment above the gateway's idempotency key (api-gateway/main.py:170-172) promises no duplicate reservation: proved, with lookups
  failing and any number of attempts (`Idempotency.OneReservationPerKey`).
* The two `UpdateStock` implementations agree on well-formed requests only; `Inventory.AgreeExactly` gives the exact guard and
  `Inventory.UnknownLabelDiverges` a request on which they part.
* The notification read looks at one user's rows while the key of the table has no user, so one publication per
  reservation needs one user per reservation (`Notifications.TwoUsersPublishTwice`).
* A confirmation whose handling failed is committed like any other (notification_service/src/kafka_events/worker.py:147-148). `Worker.CommittedNotStored`
  is a run in which it is never stored, whatever sessions follow; `Worker.CommittedStored` says which committed confirmations are.
* A message that is not a JSON object raises outside the handler's try (notification_service/src/kafka_events/worker.py:127, 192) and is never committed:
  `Worker.UnreadableBlocks` says that no session ever gets past it, `Worker.UnreadableReached` that everything before it is handled.

## Model

| member | source | states |
|---|---|---|
| Inventory.RoomTypes.Update | inventario-service/main.go:207-212 | the conditional UPDATE: error, rows affected and the whole new table, one room changed by delta or nothing changed |
| Inventory.RoomTypes.UpdateStock | inventario-service/main.go:197-258 | the deployed server's statement-and-branch code has exactly the replies and table of the case-by-case specification, and stays in the column's range |
| Inventory.RoomTypes.RepositoryUpdateStock | inventario-service/internal/repository/postgres_inventory_repository.go:52-103 | the transaction, with its second look for a missing room, refines the layered specification |
| Inventory.RoomTypes.HandlerUpdateStock | inventario-service/internal/transport/grpc/handler.go:52-78 | every label that is not a release is taken for a block; replies and table are those of the layered specification |
| Inventory.ReleaseUndoesBlock | inventario-service/main.go:203-258 | releasing what was successfully blocked succeeds and restores the table exactly |
| Inventory.DeployedExactly | inventario-service/main.go:203-258 | for each label, quantity, room and state of the database: which code or status is answered, and the table left |
| Inventory.LayeredExactly | inventario-service/internal/repository/postgres_inventory_repository.go:52-103 | the same for the layered implementation |
| Inventory.AgreeExactly | inventario-service/internal/repository/postgres_inventory_repository.go:52-103 | on any table and any request the two implementations agree on table and success if and only if the request is outside an explicit guard |
| Inventory.UnknownLabelDiverges | inventario-service/internal/transport/grpc/handler.go:57-60 | an unknown label on a covered room is refused by one implementation and blocks a unit in the other |
| Inventory.ImplementationsAgree | inventario-service/internal/transport/grpc/handler.go:52-78 | over every sequence of requests with positive quantity and known label: same table, same verdicts, and replies that differ only in how a missing room is reported |
| Inventory.AnswersDetermineStock | inventario-service/main.go:197-258 | over every request sequence the stock of a room is its initial stock less the successful blocks plus the successful releases |
| Saga.ReplayedRow | mi-servicio/main.go:275-301 | a saga row fed by an event log reads: last step, detail of the last failed event, last compensation status other than NONE |
| Saga.DrivenTrace | mi-servicio/main.go:435-535 | whatever the services answer, the recorded states are at every moment a prefix of one of the fixed paths, and a finished saga recorded one of them whole |
| Saga.DriveOnPath | mi-servicio/main.go:396-543 | at each point of the handler, what it has recorded or still owes is determined, and a response is settled exactly from the notification on or at the end |
| Saga.AdvanceMarks | mi-servicio/main.go:313-340 | COMPENSATION_FAILED enters the trace exactly when the third release attempt is not confirmed; STOCK_UNAVAILABLE exactly on a status=false lock |
| Saga.FinalCompensation | mi-servicio/main.go:504-507 | the closing FAILED event erases neither DONE nor FAILED: DONE at the end if and only if COMPENSATED is in the log, FAILED if and only if COMPENSATION_FAILED is |
| Saga.CompensationColumn | mi-servicio/main.go:275-289 | for any log on a path: DONE exactly if COMPENSATED is in it, FAILED exactly if COMPENSATION_FAILED is, RUNNING exactly if COMPENSATING is and neither of those |
| Saga.DrivenRecords | mi-servicio/main.go:267-341 | whatever is observed: every entry has the result and detail of its state, FAILED repeats the detail of what failed, and the answer fits the states recorded |
| Saga.TurnsExactly | mi-servicio/main.go:396-543 | at each point the handler goes on exactly if what it asked for succeeded, and otherwise answers and records what that failure calls for |
| Saga.AdvanceDescends | mi-servicio/main.go:396-543 | a measure of at most 15 decreases at every step of a handler |
| Saga.PauseTotal | mi-servicio/main.go:335 | n failed attempts pause 250 n (n + 1) ms, whatever n |
| Reservations.CallExactly | mi-servicio/main.go:462-471 | a stock call takes effect exactly if it gets through and the column allows it, and its status is seen exactly if the reply gets back |
| Reservations.AnythingMayHappen | mi-servicio/main.go:396-543 | no outcome of a call or statement is ruled out in any state |
| Reservations.FindKey | mi-servicio/main.go:400-418 | the lookup returns a row with the key if there is one, and none only if no row has it |
| Conservation.RunOk | mi-servicio/main.go:396-543 | in every reachable state: stock within range, every session on its path, and its ledger of real effects tied to what its saga believes |
| Conservation.StockIsLedger | inventario-service/main.go:203-258 | with lost replies allowed, stock is never negative and equals initial minus applied blocks plus applied releases |
| Conservation.RowsAreInserts | mi-servicio/main.go:491-508 | in every run the rows matching any selection number exactly the inserts that took effect |
| Conservation.SessionNet | mi-servicio/main.go:309-341 | in every run a saga blocks at most once, is at a release, where LIBERAR is sent, only after an acknowledged block, and moves stock by between -1 and +2 |
| Conservation.UnitsTaken | mi-servicio/main.go:462-512 | for any selection of requests, units taken and not given back = rows + held + stranded, corrected by lost replies |
| Conservation.ExactConservation | mi-servicio/main.go:462-512 | in every run, with every failure: stock + rows + held + stranded = initial + lost releases + lost inserts - lost blocks |
| Conservation.DefiniteConservation | mi-servicio/main.go:309-341 | when every error means not applied: initial = stock + rows + locks of unfinished sagas + locks given up, and rows never exceed the initial stock |
| Conservation.ConservedExactly | mi-servicio/main.go:462-512 | plain conservation holds in a state if and only if lost blocks equal lost releases plus lost inserts; a room is oversold if and only if lost releases and inserts outweigh lost blocks by more than its stock, held and stranded units |
| Conservation.DeployedShapes | mi-servicio/main.go:483-488 | with the deployed inventory server no run records STOCK_UNAVAILABLE; traces are prefixes of the other paths |
| Conservation.ReleaseNeverRefused | inventario-service/main.go:241-258 | in every run a release of the saga is never answered status=false |
| SagaTables.RunOwnsSagas | mi-servicio/main.go:259-302 | in every run each begun session has a saga of its own, and its record follows that session alone |
| SagaTables.RowIsFoldOfLog | mi-servicio/main.go:284-301 | in every run, while both writes of each transition succeed or fail together, the saga row is the fold of its event log; with all writes the log is the trace |
| SagaTables.FiledCompensation | mi-servicio/main.go:501-508 | a finished saga with all writes is filed DONE or FAILED exactly as its log says, never RUNNING |
| SagaTables.ColumnAlways | mi-servicio/main.go:275-301 | at every moment of every run, while all its writes took effect, a saga's column reads DONE, FAILED, RUNNING or NONE exactly as its log says |
| SagaTables.StepsBounded | mi-servicio/main.go:396-543 | in every run n requests take at most 15 n handler steps in all |
| SagaTables.UnfinishedCanStep | mi-servicio/main.go:396-543 | in every reachable state an unfinished handler can step, so a run stops only when all sagas ended |
| Idempotency.OneReservationPerKey | mi-servicio/main.go:213 | in every run, lookups failing or not: at most one row per non-empty key, and all successes under the key report the same reservation |
| Idempotency.InsertedExactly | mi-servicio/main.go:491-512 | in every reachable state a row is inserted if and only if the statement gets through and no row has its id nor its non-empty key, and confirmed if and only if it is acknowledged, too |
| Idempotency.TwoKeysBothBook | mi-servicio/main.go:213 | for any two requests with different keys, or none, a run in which both are confirmed |
| Idempotency.AnswerStays | mi-servicio/main.go:538-542 | in every run an answer once settled never changes |
| Idempotency.ConfirmedForGood | mi-servicio/main.go:491-512 | a confirmation names a row under the request's key that is there in every later state |
| Idempotency.KeyTakesOneUnit | api-gateway/main.py:173-185 | exactly how many units the attempts under one key keep; with definite errors and nothing held or given up, at most one |
| Idempotency.RetryReplays | mi-servicio/main.go:400-414 | a working lookup of a confirmed key answers that reservation and changes neither stock nor tables |
| Idempotency.LostInsertOversells | mi-servicio/main.go:501-508 | a run in which one lost insert reply gives two confirmed rows for one unit |
| Idempotency.LostReleasesInflate | mi-servicio/main.go:313-336 | a run in which three lost release replies leave two units more than there were |
| Breaker.CircuitBreaker.constructor | mi-servicio/circuitbreaker.go:86-94 | a new breaker is closed with an empty history |
| Breaker.CircuitBreaker.Allow | mi-servicio/circuitbreaker.go:98-124 | admits exactly as the history of events prescribes: always when closed, when open once the duration has passed, when half open if no probe is in flight; each field it leaves |
| Breaker.CircuitBreaker.RecordSuccess | mi-servicio/circuitbreaker.go:126-133 | the state is the fold of the history with one more success: closed, no probe, the counter cleared only on closing |
| Breaker.CircuitBreaker.RecordFailure | mi-servicio/circuitbreaker.go:135-149 | the state is the fold of the history with one more failure: a failed probe reopens, the threshold opens, and either stamps openedAt with now |
| Breaker.CircuitBreaker.TransitionLocked | mi-servicio/circuitbreaker.go:152-164 | opening stamps openedAt, closing clears the counter, nothing else moves |
| Breaker.CircuitBreaker.Execute | mi-servicio/circuitbreaker.go:169-184 | when no other call comes between its two critical sections: refused calls are not made, any error at all is a failure, and the number of calls in flight is as before |
| Breaker.AlwaysCoherent | mi-servicio/circuitbreaker.go:98-164 | after any history: a probe is in flight if and only if HALF_OPEN, and CLOSED if and only if the counter is below the threshold |
| Breaker.OneProbePerEpisode | mi-servicio/circuitbreaker.go:106-119 | exactly one call, the first, is admitted per HALF_OPEN episode, although outcomes of earlier calls may end it |
| Breaker.FailFast | mi-servicio/circuitbreaker.go:106-149 | once open at t, failures never move openedAt and every call is refused until the duration has passed or a success is recorded; then the first call is admitted |
| Breaker.RefusedUntil | mi-servicio/circuitbreaker.go:106-112 | of any attempts made while it is open, with any events of other calls between them, none is admitted before the duration has passed or a success comes |
| Breaker.OpenedThen | mi-servicio/circuitbreaker.go:140-157 | whichever event opens or reopens the breaker is a failure, and openedAt is its time |
| Breaker.FailFastSinceOpening | mi-servicio/circuitbreaker.go:106-157 | fail fast from that event on, from CLOSED and from HALF_OPEN alike: a call is admitted if and only if openDuration has passed since it |
| Breaker.RefusedSinceOpening | mi-servicio/circuitbreaker.go:106-157 | none of any attempts among any other events is admitted within openDuration of that event |
| Breaker.ClosedAdmits | mi-servicio/circuitbreaker.go:102-104 | a closed breaker admits every call and is left as it was |
| Breaker.WholeDurationRefused | mi-servicio/circuitbreaker.go:169-184 | if nothing is in flight when open, as when calls do not overlap, the whole duration is refused |
| Breaker.FailuresSinceClose | mi-servicio/circuitbreaker.go:126-160 | the counter is the number of failures recorded outside HALF_OPEN since the last close |
| Breaker.EnoughFailuresOpen | mi-servicio/circuitbreaker.go:135-149 | if the last threshold outcomes since closing are all failures, the breaker is not CLOSED |
| Breaker.NotConsecutive | mi-servicio/circuitbreaker.go:70-72 | the converse fails: failure, success, failure opens a breaker of threshold two |
| Breaker.TripsOnTotal | mi-servicio/circuitbreaker.go:126-149 | a breaker just closed stays closed if and only if the failures, in any order with successes, number less than the threshold |
| Breaker.ConsecutiveExactly | mi-servicio/circuitbreaker.go:70-72 | while closed, the counter is the length of the trailing run of failures if and only if no success comes after a failure |
| ReservationServer.Server.constructor | mi-servicio/main.go:246-257 | a new server is the initial state of the reservation system |
| ReservationServer.Server.LookupKey | mi-servicio/main.go:400-418 | one lookup action of the system; a failed lookup goes on without a reservation |
| ReservationServer.Server.InsertSaga | mi-servicio/main.go:259-266 | one insert of a saga: acknowledged exactly when delivered and its primary key is free, and the fresh row it leaves |
| ReservationServer.Server.WriteTransition | mi-servicio/main.go:275-301 | the two statements, each of which may fail alone, column by column |
| ReservationServer.Server.RecordSagaTransition | mi-servicio/main.go:271-302 | records exactly the transition the automaton owes next |
| ReservationServer.Server.FailSaga | mi-servicio/main.go:304-307 | records the failing step and then FAILED, nothing else, and moves no other session |
| ReservationServer.Server.InsertReservation | mi-servicio/main.go:491-501 | acknowledged exactly when delivered and no row has its id nor its non-empty key |
| ReservationServer.Server.StartSaga | mi-servicio/main.go:259-269 | the insert and then STARTED; goes on exactly when the insert is acknowledged, and otherwise ends the request with Internal |
| ReservationServer.Server.Send | mi-servicio/main.go:313-322 | one call through the breaker: what is done to stock, what is seen, how long it may take, and how the breaker moves |
| ReservationServer.Server.UpdateStock | mi-servicio/main.go:462-471 | exactly one stock action of the system, which one being determined by the breaker and the network; nothing sent if and only if the breaker refuses |
| ReservationServer.Server.AttemptReleases | mi-servicio/main.go:313-336 | the three-attempt loop, no other call in flight: on success some attempt sent was acknowledged in time; on failure all pauses were made and, the column having room, none was; something sent if and only if the breaker admits 1.5 s after the start |
| ReservationServer.Server.CompensateInventory | mi-servicio/main.go:309-341 | no other call in flight: ends COMPENSATED or COMPENSATION_FAILED within 12 s; no LIBERAR is sent if and only if the breaker is open for more than another 1.5 s, and then it gives up; the unit is given back if and only if some attempt sent is acknowledged in time, the column having room for three |
| ReservationServer.Server.ConfirmReservation | mi-servicio/main.go:491-543 | Confirmed if and only if the insert is acknowledged and no row has its id nor its key, Internal otherwise; the row is in the table if and only if the insert took effect |
| ReservationServer.Server.NotifyUser | mi-servicio/main.go:513-535 | the notification ends the saga and cannot change the response |
| ReservationServer.Server.ValidateUser | mi-servicio/main.go:442-460 | goes on if and only if the user is found; else the saga ends, Unavailable exactly when the user breaker refused and Unauthenticated otherwise |
| ReservationServer.Server.LockUnit | mi-servicio/main.go:462-489 | goes on if and only if the lock is confirmed; else the saga ends, Unavailable exactly when the breaker refused and ResourceExhausted otherwise |
| ReservationServer.Server.LockAndConfirm | mi-servicio/main.go:462-543 | the response is a function of what the lock observed and of the insert |
| ReservationServer.Server.CreateReservation | mi-servicio/main.go:396-543 | run without interference: leaves a reachable state of the system, ends its saga with the answer returned, touches no other request; the response is spelled out for every table found and every outcome of each call, and a new confirmation takes exactly one unit of the room and adds exactly its row |
| ReservationServer.AnswerMeans | mi-servicio/main.go:400-543 | which of replay, Internal, Unauthenticated, Unavailable, ResourceExhausted and Confirmed is answered, in every case |
| ReservationServer.LockSeenExactly | mi-servicio/main.go:463-471 | a lock is confirmed if and only if the breaker admits it, it is acknowledged within 5 s and a unit is there |
| ReservationServer.InTimeExactly | mi-servicio/main.go:314 | a release counts if and only if it is acknowledged within 3 s |
| ReservationServer.ServerConserves | mi-servicio/main.go:462-512 | the server in any state accounts for every unit it started with, by the exact law |
| SharedBreaker.PlayIsRun | mi-servicio/circuitbreaker.go:169-184 | every interleaving under the shared breaker, with the three parts of each call apart, is a run of the reservation system |
| SharedBreaker.ToldExactly | mi-servicio/circuitbreaker.go:176-183 | the breaker is told a success exactly for an acknowledged status, true or false, and a failure for every error |
| SharedBreaker.GuardedConserves | mi-servicio/main.go:462-512 | so the exact conservation law holds in it |
| SharedBreaker.EventsOkRun | mi-servicio/circuitbreaker.go:98-149 | in every run the breaker's history is in time order, and its calls in flight are exactly the handlers in a call |
| SharedBreaker.ProbeIsInFlight | mi-servicio/circuitbreaker.go:106-119 | in every run, when the breaker is half open some handler is in the middle of a call, and it is another one than any handler free to ask |
| OpenBreaker.OpenBreakerStrands | mi-servicio/main.go:313-340 | in every interleaving, while the breaker stays open and nobody records a success: a compensation asks at most three times, pauses as it must, and no LIBERAR is sent for it |
| OpenBreaker.GaveUp | mi-servicio/main.go:338-340 | after the third refusal its whole trace ends COMPENSATION_FAILED, FAILED, the answer is Internal, and more than 1.5 s of the open duration were left when it began |
| OpenBreaker.RefusedCompensation | mi-servicio/main.go:501-508 | the same in every run from any stock, with any moves of all handlers before and after: the unit was blocked and none is released |
| OpenBreaker.DoneForGood | mi-servicio/main.go:501-508 | and nothing that comes later changes it: no call is ever sent again for that saga |
| OpenBreaker.QuietStays | mi-servicio/circuitbreaker.go:106-112 | with no call in flight when the breaker is open, no success can come and nothing is sent for anybody until the duration has passed |
| Refusals.RoomToRelease | inventario-service/main.go:208-212 | in every run without lost release replies the stock column has room for the unit of a saga that must release it |
| Refusals.AbandonedExactly | mi-servicio/main.go:313-340 | in every interleaving in which inventory serves every call it is sent and every reply arrives: a saga ends COMPENSATION_FAILED if and only if the shared breaker refused all three of its releases |
| Refusals.GivenBackExactly | mi-servicio/main.go:324-328 | and after a failed insert its unit is given back, once, if and only if the breaker admitted one of them |
| LateEffects.LateStockIsLedger | inventario-service/main.go:203-258 | with effects of failed calls that arrive at any later time: stock is never negative and equals initial minus blocks plus releases that took effect, in time or late |
| LateEffects.LateConservation | mi-servicio/main.go:462-512 | the exact law with such effects: late releases and inserts add to the drift, late blocks subtract |
| LateEffects.LateOnePerKey | mi-servicio/main.go:213 | with such effects, too, one row per key and one reservation reported |
| LateEffects.LeftBehindExactly | mi-servicio/main.go:498-501 | exactly the calls that were sent and failed without effect may come late |
| LateEffects.TakesExactly | inventario-service/main.go:207-212 | and do then what the statement does in the table it finds |
| LateEffects.ArrivesOnce | mi-servicio/main.go:498-501 | each once at most |
| LateEffects.LateInsertOversells | mi-servicio/main.go:501-508 | a run without any lost reply in which a late insert sells one unit twice |
| SoldOut.SoldOutStrands | mi-servicio/circuitbreaker.go:176-179 | for every threshold and open duration above 1.5 s, a run with every inventory call served and answered in which a saga ends COMPENSATION_FAILED and its unit is lost |
| RateLimiting.RetryAfterSeconds | api-gateway/rate_limiter.py:84-90 | the header is the least whole number of seconds, at least one, not below retry_after |
| RateLimiting.SecondsExceed | api-gateway/main.py:39-46 | the header strictly exceeds retry_after if and only if that is not a positive whole number |
| TokenBucket.TokenBucketLimiter.Allow | api-gateway/rate_limiter.py:32-49 | the verdict depends on the calling key's own history only, and is Admitted if and only if every window that ends now has room; each key's entries stay its own bucket |
| TokenBucket.LevelIsLeastAllowance | api-gateway/rate_limiter.py:34-38 | the tokens found are the minimum, over all windows that end now, of what the window still allows, attained in the window that begins when the bucket was last full |
| TokenBucket.AdmittedExactly | api-gateway/rate_limiter.py:32-49 | a call is answered Admitted if and only if no window ending with it would then hold more than capacity + refill * length calls so answered |
| TokenBucket.IntervalBound | api-gateway/rate_limiter.py:32-49 | in every interval of every history at most capacity + refill * length calls of a key are admitted |
| TokenBucket.RefusalJustified | api-gateway/rate_limiter.py:40-49 | a refusal implies more than capacity + refill * time - 1 admissions since the last moment the bucket was full |
| TokenBucket.RefusedCallsLeaveNoTrace | api-gateway/rate_limiter.py:46-49 | lazy refill is a continuous bucket: the level is that of the admitted calls alone |
| TokenBucket.SameAdmissionsSameDecision | api-gateway/rate_limiter.py:34-49 | histories with the same admissions decide every later call alike, whatever was refused between |
| TokenBucket.RetryAfterExact | api-gateway/rate_limiter.py:48-49 | after a refusal the next call is admitted if and only if capacity is at least one and it waits at least retry_after |
| TokenBucket.HeaderSuffices | api-gateway/rate_limiter.py:84-90 | waiting as the header says always suffices for the bucket |
| SlidingWindow.SlidingWindowLimiter.Allow | api-gateway/rate_limiter.py:61-74 | the verdict is Admitted if and only if fewer than max_events of the key's own calls so answered lie in the closed window that ends now |
| SlidingWindow.AnswerCounts | api-gateway/rate_limiter.py:61-74 | the same for every history, and the index error exactly for a limit of zero or less |
| SlidingWindow.SlidingWindowLimiter.Evict | api-gateway/rate_limiter.py:66-67 | the pop-left loop leaves exactly the events not older than the window |
| SlidingWindow.DequeIsWindow | api-gateway/rate_limiter.py:61-74 | after any history the deque is the admitted times in the last call's window, in order, and determines every later window |
| SlidingWindow.IntervalBound | api-gateway/rate_limiter.py:69-74 | every closed interval of window length, anywhere in any history, holds at most max_events admissions |
| SlidingWindow.WindowNeverOverfull | api-gateway/rate_limiter.py:69-71 | a call is refused if and only if its window holds max_events admissions, and never more |
| SlidingWindow.RefusalsNeverExtend | api-gateway/rate_limiter.py:69-71 | any sequence of refused calls leaves every later verdict as it was |
| SlidingWindow.RetryAfterExact | api-gateway/rate_limiter.py:70-71 | retry_after is not negative, and a call delayed by d is admitted if and only if d exceeds it |
| SlidingWindow.HeaderSuffices | api-gateway/main.py:39-46 | waiting as the header says is enough if and only if retry_after is not a positive whole number |
| SlidingWindow.HeaderTooShort | api-gateway/main.py:39-46 | one event a minute, refused at 59 s with header 1, refused again at 60 s |
| Retry.CallWithRetry | api-gateway/resilience.py:31-52 | for every stream of outcomes and every limit: the first outcome among those allowed that is neither UNAVAILABLE nor DEADLINE_EXCEEDED, or the last of those errors, with exactly that many calls and both bounds of the total pause |
| Retry.DeployedRetry | api-gateway/resilience.py:31-52 | with three attempts: 0.25 to 0.35 s of pause for one retry, 0.75 to 0.95 s for two, and UNAVAILABLE or DEADLINE_EXCEEDED if and only if all three attempts met one of them |
| Notifications.NotificationService.GetByUser | notification_service/src/infrastructure/postgres_repository.py:45-67 | the user's rows and no others, newest first |
| Notifications.NotificationService.IsDuplicate | notification_service/src/grpc_interface/server.py:112-116 | found if and only if the table holds a row with the key and the user |
| Notifications.NotificationService.ProcessConfirmation | notification_service/src/grpc_interface/server.py:72-110 | outcome, table and sends of one call, for every failure of the read and the insert; a new pair of reservation and tipo is stored and sent |
| Notifications.NotificationService.SendConfirmation | notification_service/src/grpc_interface/server.py:41-70 | success if and only if the call was active and the notification is a duplicate or was stored; an inactive call does nothing |
| Notifications.KeyExactly | notification_service/src/infrastructure/postgres_repository.py:19-35 | reservation and tipo together are the key: another tipo is stored; the read asks for the user, too |
| Notifications.NewestComesFirst | notification_service/src/infrastructure/postgres_repository.py:46-51 | a later row of the user precedes the earlier ones in the list |
| Notifications.FirstRowStays | notification_service/src/infrastructure/postgres_repository.py:31-43 | in every interleaving at most one row per (reservation, tipo), and a row stays unchanged in every continuation |
| Notifications.RunOk | notification_service/src/grpc_interface/server.py:72-110 | in every interleaving, one user per reservation: of two calls that exclude each other, at most one gets past its insert |
| Notifications.SentAndPublished | notification_service/src/kafka_events/worker.py:191-235 | in every interleaving at most one NotificationSent per key, and at most one send more than there were gRPC calls |
| Notifications.AtomicSendsOnce | notification_service/src/grpc_interface/server.py:72-110 | were process_confirmation atomic, at most one send per key, whatever the number of calls |
| Notifications.BothSend | notification_service/src/grpc_interface/server.py:80-104 | a run with one gRPC call and one message that stores one row and sends twice |
| Notifications.TwoUsersPublishTwice | notification_service/src/grpc_interface/server.py:112-116 | a run with two users for one reservation that publishes twice |
| Worker.KafkaWorker.HandleEvent | notification_service/src/kafka_events/worker.py:191-235 | table, sends, publications and result of one message, for every failure |
| Worker.KafkaWorker.ConsumeUntilStopped | notification_service/src/kafka_events/worker.py:138-162 | from the committed offset to the stop flag, the end, or the first message that cannot be read, every message is handled once in order, and the offset committed is the last whose commit worked |
| Worker.AtLeastOnce | notification_service/src/kafka_events/worker.py:138-162 | over any sessions with crashes and failed commits, every message below the committed offset was handled, and nothing but messages of the topic |
| Worker.ResumeContinues | notification_service/src/kafka_events/worker.py:75-109 | resuming after the last working commit is one session more of the same history |
| Worker.UnreadableBlocks | notification_service/src/kafka_events/worker.py:191-197 | in whatever sessions, the committed offset never passes a message that is not a JSON object, and nothing from it on is handled |
| Worker.UnreadableReached | notification_service/src/kafka_events/worker.py:138-148 | a session not stopped earlier ends at the first such message, with everything before it handled, and committed if the last commit works |
| Worker.StoredExactly | notification_service/src/kafka_events/worker.py:224-235 | a confirmation has its row if and only if some delivery of its key got through read and insert |
| Worker.FailuresAreTold | notification_service/src/kafka_events/worker.py:224-235 | over any deliveries NotificationFailed is published once per failed handling when the producer works, and not otherwise |
| Worker.CommittedStored | notification_service/src/kafka_events/worker.py:147-148 | over any sessions a confirmation below the committed offset was handled, and has its row if and only if one of the deliveries of its key got through |
| Worker.NothingLeft | notification_service/src/kafka_events/worker.py:138-162 | once everything is committed no session handles anything again |
| Worker.CommittedNotStored | notification_service/src/kafka_events/worker.py:224-235 | a confirmation whose read failed once and whose commit worked has no row, whatever sessions follow |
| Worker.RedeliveryHarmless | notification_service/src/kafka_events/worker.py:142-148 | redelivering stored messages, in any order, number and with any failures, adds no row, no send and no NotificationSent |
| Worker.WorkerIsRun | notification_service/src/kafka_events/worker.py:191-235 | the worker's code refines the interleaving machine: some run of it has the same table and the same publications, and no fewer sends |
| Worker.SessionsSendOnce | notification_service/src/kafka_events/worker.py:138-162 | over any sessions with crashes, lost commits and redelivery, each confirmation is sent at most once and announced at most once |

## Left out

* Room search, hotel data, migrations, `GetReservation`, `ListReservations`: filters and reads without further logic.
* The user service, tokens and sessions; the frontend; delivery of mail: the model counts invocations of the sender only, and the interleaving machine assumes a sender is configured.
* gRPC and protobuf plumbing, configuration, metrics, tracing, logging, and the texts of messages, which are a datatype of which message it is and what it interpolates.
* Kafka producers and event envelopes of the other services; of the worker's own events only which kind was published.
* SQL text, transactions and isolation: a table is a map or sequence with its unique keys, and a statement is atomic. Ids are arbitrary parameters checked against the primary keys.
* In `Reservations` a call takes effect before its handler's next step or not at all; stock updates and inserts that take effect later are module `LateEffects`. Late writes to the saga tables are not modelled.
* The fixed status CONFIRMADA, amount 150.50, hotel and dates of a reservation; a nil user in a successful user reply, which would end the handler in a panic.
* The breakers of the user and notification services: their refusals are an observation any call may make.
* `SharedBreaker` bounds the time between attempts from below, by the pauses; how long a call or a wait for the processor takes is arbitrary there.
* Breaker.CircuitBreaker.Execute: joins its two critical sections; other calls between them are the histories of `Breaker` and the moves of `SharedBreaker`.
* ReservationServer.Server.CompensateInventory: no other call is in flight; other handlers using the breaker meanwhile are module `OpenBreaker`. What it promises of success when the stock column is within three units of its limit is only that some attempt was acknowledged in time. Its 12 s count calls and pauses: writes to the saga tables, which have no deadline, take no time.
* ReservationServer.Server.AttemptReleases: no other call is in flight, as above.
* ReservationServer.Server.CreateReservation: runs without interference and notifies before it returns; interleavings, with the notification after the response, are those of `Reservations`.
* ReservationServer.Server.Send: the inventory database is up when asked; a database error is the delivery that is not applied.
* Floating point: times and tokens are exact reals, counters and nanoseconds unbounded integers. The int4 range of stock_total is modelled.
* Wall-clock adjustments: the limiters' theorems ask for the monotone clock the code uses.
* SlidingWindow.SlidingWindowLimiter.Allow: asks for a window of at least zero and a monotone clock, as deployed; a limit of zero or less, where the code fails on an empty deque, is a verdict of its own.
* TokenBucket.AdmittedExactly: asks for a refill rate of at least zero; a rate of zero, where a refusal divides by zero, is a verdict of its own.
* Several partitions: the reservations topic is one sequence with one committed offset.
* How the Kafka client groups messages into batches: each message is decoded when its turn comes.
* The reconnect loop of the Kafka worker with its doubling pause: connecting is not modelled, its effect is a session that ends and resumes.
* `new_idempotency_key` and `client_key`: one library call each.
