/** Notification deduplication (notification_service): the gRPC threads and the Kafka
    worker race through read, insert and send on a table whose key is (reservation_id,
    tipo). The code of one call comes first, then any number of interleaved calls. */
module Notifications {
  import opened Network

  datatype Notification = Notification(user: string, reservationId: string, tipo: string, email: string)

  const CONFIRMACION := "CONFIRMACION"

  // --- the table -----------------------------------------------------------------------------------

  predicate SameKey(a: Notification, b: Notification) {
    a.reservationId == b.reservationId && a.tipo == b.tipo
  }

  predicate HasKey(rows: seq<Notification>, n: Notification) {
    exists i :: 0 <= i < |rows| && SameKey(rows[i], n)
  }

  /** INSERT ... ON CONFLICT (reservation_id, tipo) DO NOTHING */
  function SaveRow(rows: seq<Notification>, n: Notification): seq<Notification> {
    if HasKey(rows, n) then rows else rows + [n]
  }

  /** What _is_duplicate can see: only the rows of the same user. */
  predicate Duplicate(rows: seq<Notification>, n: Notification) {
    exists i :: 0 <= i < |rows| && SameKey(rows[i], n) && rows[i].user == n.user
  }

  /** The SELECT of get_by_user: the user's rows, newest first. */
  function NewestFirst(rows: seq<Notification>, user: string): (list: seq<Notification>)
    ensures forall n :: n in list <==> n in rows && n.user == user
  {
    if rows == [] then []
    else
      var front, last := rows[..|rows| - 1], rows[|rows| - 1];
      assert rows == front + [last];
      if last.user == user then [last] + NewestFirst(front, user) else NewestFirst(front, user)
  }

  /** The key of the table is the reservation with the tipo; the read asks for the user, too. */
  lemma KeyExactly(rows: seq<Notification>, n: Notification)
    ensures HasKey(rows, n) <==>
            exists i :: 0 <= i < |rows| && rows[i].reservationId == n.reservationId && rows[i].tipo == n.tipo
    ensures Duplicate(rows, n) <==>
            exists i :: 0 <= i < |rows| && rows[i].reservationId == n.reservationId && rows[i].tipo == n.tipo
                        && rows[i].user == n.user
    ensures (forall i :: 0 <= i < |rows| ==> rows[i].reservationId != n.reservationId || rows[i].tipo != n.tipo) ==>
              SaveRow(rows, n) == rows + [n]
    ensures (exists i :: 0 <= i < |rows| && rows[i].reservationId == n.reservationId && rows[i].tipo == n.tipo) ==>
              SaveRow(rows, n) == rows
  {
    if HasKey(rows, n) {
      var i :| 0 <= i < |rows| && SameKey(rows[i], n);
      assert rows[i].reservationId == n.reservationId;
    }
    if i :| 0 <= i < |rows| && rows[i].reservationId == n.reservationId && rows[i].tipo == n.tipo {
      assert SameKey(rows[i], n);
    }
    if Duplicate(rows, n) {
      var i :| 0 <= i < |rows| && SameKey(rows[i], n) && rows[i].user == n.user;
      assert rows[i].reservationId == n.reservationId;
    }
    if i :| 0 <= i < |rows| && rows[i].reservationId == n.reservationId && rows[i].tipo == n.tipo
            && rows[i].user == n.user {
      assert SameKey(rows[i], n);
    }
  }

  /** A later row comes first. */
  lemma {:induction false} NewestComesFirst(rows: seq<Notification>, n: Notification, user: string)
    ensures NewestFirst(rows + [n], user) ==
            (if n.user == user then [n] else []) + NewestFirst(rows, user)
  {
    assert (rows + [n])[..|rows|] == rows;
  }

  datatype Outcome = Processed | AlreadyThere | Raised

  class NotificationService {
    var rows: seq<Notification>
    const hasSender: bool
    var sends: seq<Notification>

    constructor (hasSender: bool)
      ensures rows == [] && sends == [] && this.hasSender == hasSender
    {
      this.hasSender := hasSender;
      rows, sends := [], [];
    }

    method GetByUser(user: string) returns (list: seq<Notification>)
      ensures list == NewestFirst(rows, user)
    {
      list := [];
      var i := |rows|;
      assert rows[..i] == rows;
      while i > 0
        invariant 0 <= i <= |rows|
        invariant list + NewestFirst(rows[..i], user) == NewestFirst(rows, user)
      {
        assert rows[..i][..i - 1] == rows[..i - 1];
        i := i - 1;
        if rows[i].user == user {
          list := list + [rows[i]];
        }
      }
    }

    method IsDuplicate(n: Notification) returns (found: bool)
      ensures found <==> Duplicate(rows, n)
    {
      var list := GetByUser(n.user);
      found := false;
      for i := 0 to |list|
        invariant !found && forall k :: 0 <= k < i ==> !SameKey(list[k], n)
      {
        if SameKey(list[i], n) {
          assert list[i] in rows;
          return true;
        }
      }
      assert forall i :: 0 <= i < |rows| && rows[i].user == n.user ==> rows[i] in list;
    }

    /** process_confirmation, run without interference. An error of the database is
        raised; an error of the sender is not. */
    method ProcessConfirmation(n: Notification, readWorks: bool, save: Delivery) returns (outcome: Outcome)
      modifies `rows, `sends
      ensures var m := n.(tipo := if n.tipo == "" then CONFIRMACION else n.tipo);
              && (outcome == AlreadyThere <==> readWorks && Duplicate(old(rows), m))
              && (outcome == Processed <==> readWorks && !Duplicate(old(rows), m) && save == Acked)
              && rows == (if readWorks && !Duplicate(old(rows), m) && save != NotApplied
                          then SaveRow(old(rows), m) else old(rows))
              && sends == (if outcome == Processed && hasSender then old(sends) + [m] else old(sends))
      ensures n.tipo == "" ==> outcome == Processed && hasSender ==> sends[|sends| - 1] == n.(tipo := "CONFIRMACION")
      ensures n.tipo != "" && readWorks && save == Acked &&
              (forall i :: 0 <= i < |old(rows)| ==>
                 old(rows)[i].reservationId != n.reservationId || old(rows)[i].tipo != n.tipo) ==>
                && outcome == Processed && rows == old(rows) + [n]
                && sends == if hasSender then old(sends) + [n] else old(sends)
      ensures n.tipo != "" && readWorks &&
              (exists i :: 0 <= i < |old(rows)| && old(rows)[i].reservationId == n.reservationId
                           && old(rows)[i].tipo == n.tipo && old(rows)[i].user == n.user) ==>
                outcome == AlreadyThere && rows == old(rows) && sends == old(sends)
    {
      if n.tipo != "" {
        KeyExactly(rows, n);
      }
      var m := n.(tipo := if n.tipo == "" then CONFIRMACION else n.tipo);
      if !readWorks {
        return Raised;
      }
      var found := IsDuplicate(m);
      if found {
        return AlreadyThere;
      }
      if save != NotApplied && !HasKey(rows, m) {
        rows := rows + [m];
      }
      if save != Acked {
        return Raised;
      }
      if hasSender {
        sends := sends + [m];
      }
      return Processed;
    }

    /** SendConfirmation: a duplicate is a success too; a call no longer active does nothing. */
    method SendConfirmation(n: Notification, active: bool, readWorks: bool, save: Delivery) returns (success: bool)
      modifies `rows, `sends
      ensures var m := n.(tipo := if n.tipo == "" then CONFIRMACION else n.tipo);
              && (success <==> active && readWorks && (Duplicate(old(rows), m) || save == Acked))
              && rows == (if active && readWorks && !Duplicate(old(rows), m) && save != NotApplied
                          then SaveRow(old(rows), m) else old(rows))
              && sends == (if success && !Duplicate(old(rows), m) && hasSender then old(sends) + [m] else old(sends))
    {
      if !active {
        return false;
      }
      var outcome := ProcessConfirmation(n, readWorks, save);
      return outcome != Raised;
    }
  }

  // --- any number of calls, interleaved -------------------------------------------------------------------

  datatype Origin = Grpc | Kafka

  datatype Stage = Read | Insert | Send | Publish | Over

  /** A call of process_confirmation under way, with what it has done to the outside. */
  datatype Job = Job(origin: Origin, n: Notification, stage: Stage, sent: bool, published: bool)

  datatype System = System(rows: seq<Notification>, jobs: seq<Job>)

  datatype Action =
    | Arrive(origin: Origin, n: Notification)
    | ReadRows(j: nat, works: bool)
    | SaveIt(j: nat, d: Delivery)
    | SendIt(j: nat)
    | PublishIt(j: nat, works: bool)

  /** Which calls exclude each other between their read and their send: those of the
      single Kafka worker, or, if `atomic`, all calls. */
  predicate Exclusive(atomic: bool, job: Job) {
    atomic || job.origin == Kafka
  }

  predicate Inside(job: Job) {
    job.stage == Insert || job.stage == Send
  }

  predicate MayRead(atomic: bool, s: System, j: nat)
    requires j < |s.jobs|
  {
    Exclusive(atomic, s.jobs[j]) ==>
      forall i :: 0 <= i < |s.jobs| && i != j && Exclusive(atomic, s.jobs[i]) ==> !Inside(s.jobs[i])
  }

  /** One step; an action that does not fit changes nothing. Messages may be delivered
      again at any time: each delivery is a call of its own. */
  function Step(atomic: bool, s: System, a: Action): System {
    match a
    case Arrive(origin, n) => s.(jobs := s.jobs + [Job(origin, n, Read, false, false)])
    case ReadRows(j, works) =>
      if j >= |s.jobs| || s.jobs[j].stage != Read || !MayRead(atomic, s, j) then s
      else
        s.(jobs := s.jobs[j := s.jobs[j].(stage := if !works || Duplicate(s.rows, s.jobs[j].n) then Over else Insert)])
    case SaveIt(j, d) =>
      if j >= |s.jobs| || s.jobs[j].stage != Insert then s
      else System(
             if d == NotApplied then s.rows else SaveRow(s.rows, s.jobs[j].n),
             s.jobs[j := s.jobs[j].(stage := if d == Acked then Send else Over)])
    case SendIt(j) =>
      if j >= |s.jobs| || s.jobs[j].stage != Send then s
      else
        s.(jobs := s.jobs[j := s.jobs[j].(sent := true,
                                          stage := if s.jobs[j].origin == Kafka then Publish else Over)])
    case PublishIt(j, works) =>
      if j >= |s.jobs| || s.jobs[j].stage != Publish then s
      else s.(jobs := s.jobs[j := s.jobs[j].(published := works, stage := Over)])
  }

  function Run(atomic: bool, actions: seq<Action>): System {
    if actions == [] then System([], [])
    else Step(atomic, Run(atomic, actions[..|actions| - 1]), actions[|actions| - 1])
  }

  /** The reservation service sends one user per reservation. */
  predicate OwnedBy(owner: string -> string, a: Action) {
    a.Arrive? ==> a.n.user == owner(a.n.reservationId)
  }

  predicate AllOwned(owner: string -> string, actions: seq<Action>) {
    forall i :: 0 <= i < |actions| ==> OwnedBy(owner, actions[i])
  }

  // --- the table keeps its first rows ------------------------------------------------------------------------

  ghost predicate UniqueKeys(rows: seq<Notification>) {
    forall i, j :: 0 <= i < j < |rows| ==> !SameKey(rows[i], rows[j])
  }

  lemma RowsStep(atomic: bool, s: System, a: Action)
    requires UniqueKeys(s.rows)
    ensures UniqueKeys(Step(atomic, s, a).rows) && s.rows <= Step(atomic, s, a).rows
  {
  }

  lemma {:induction false} RunUnique(atomic: bool, actions: seq<Action>)
    ensures UniqueKeys(Run(atomic, actions).rows)
  {
    if actions == [] {
    } else {
      RunUnique(atomic, actions[..|actions| - 1]);
      RowsStep(atomic, Run(atomic, actions[..|actions| - 1]), actions[|actions| - 1]);
    }
  }

  /** In every interleaving there is at most one row per key, and a row once there is
      there unchanged in every continuation. */
  lemma {:induction false} FirstRowStays(atomic: bool, actions: seq<Action>, more: seq<Action>)
    ensures UniqueKeys(Run(atomic, actions + more).rows)
    ensures Run(atomic, actions).rows <= Run(atomic, actions + more).rows
  {
    RunUnique(atomic, actions + more);
    if more == [] {
      assert actions + more == actions;
    } else {
      var front := more[..|more| - 1];
      FirstRowStays(atomic, actions, front);
      assert (actions + more)[..|actions + more| - 1] == actions + front;
      RowsStep(atomic, Run(atomic, actions + front), more[|more| - 1]);
    }
  }

  // --- at most one winner among calls that exclude each other ----------------------------------------------------

  /** The call got past its insert. */
  predicate Won(job: Job) {
    job.stage == Send || job.stage == Publish || job.sent || job.published
  }

  predicate JobOk(owner: string -> string, rows: seq<Notification>, job: Job) {
    && job.n.user == owner(job.n.reservationId)
    && (Won(job) ==> HasKey(rows, job.n))
    && (job.stage == Read || job.stage == Insert ==> !job.sent && !job.published)
    && (job.published ==> job.origin == Kafka)
    && (job.stage == Publish ==> job.origin == Kafka)
  }

  /** Two calls that exclude each other are never both inside, and when one has won,
      the other has not and is not about to insert. */
  predicate Apart(a: Job, b: Job) {
    && !(Inside(a) && Inside(b))
    && (SameKey(a.n, b.n) && Won(a) ==> b.stage != Insert && !Won(b))
    && (SameKey(a.n, b.n) && Won(b) ==> a.stage != Insert && !Won(a))
  }

  ghost predicate SystemOk(atomic: bool, owner: string -> string, s: System) {
    && (forall i :: 0 <= i < |s.rows| ==> s.rows[i].user == owner(s.rows[i].reservationId))
    && (forall j :: 0 <= j < |s.jobs| ==> JobOk(owner, s.rows, s.jobs[j]))
    && (forall i, j :: 0 <= i < j < |s.jobs| && Exclusive(atomic, s.jobs[i]) && Exclusive(atomic, s.jobs[j]) ==>
          Apart(s.jobs[i], s.jobs[j]))
  }

  lemma HasKeyGrows(rows: seq<Notification>, more: seq<Notification>, n: Notification)
    requires rows <= more && HasKey(rows, n)
    ensures HasKey(more, n)
  {
    var i :| 0 <= i < |rows| && SameKey(rows[i], n);
    assert SameKey(more[i], n);
  }

  /** With one user per reservation, the read sees every row of the key. */
  lemma ReadSees(owner: string -> string, rows: seq<Notification>, n: Notification)
    requires forall i :: 0 <= i < |rows| ==> rows[i].user == owner(rows[i].reservationId)
    requires n.user == owner(n.reservationId)
    ensures Duplicate(rows, n) <==> HasKey(rows, n)
  {
  }

  lemma SavedHasKey(rows: seq<Notification>, n: Notification)
    ensures HasKey(SaveRow(rows, n), n) && rows <= SaveRow(rows, n)
  {
    if !HasKey(rows, n) {
      assert SameKey((rows + [n])[|rows|], n);
    }
  }

  /** The index of the call an action moves, if it moves one. */
  function Mover(a: Action): nat {
    match a
    case Arrive(_, _) => 0
    case ReadRows(j, _) => j
    case SaveIt(j, _) => j
    case SendIt(j) => j
    case PublishIt(j, _) => j
  }

  lemma JobStep(atomic: bool, owner: string -> string, s: System, a: Action)
    requires SystemOk(atomic, owner, s) && !a.Arrive? && Mover(a) < |s.jobs|
    ensures var t := Step(atomic, s, a);
            && s.rows <= t.rows && |t.jobs| == |s.jobs|
            && (forall i :: 0 <= i < |t.rows| ==> t.rows[i].user == owner(t.rows[i].reservationId))
            && (forall i :: 0 <= i < |s.jobs| && i != Mover(a) ==> t.jobs[i] == s.jobs[i])
            && JobOk(owner, t.rows, t.jobs[Mover(a)])
  {
    var job := s.jobs[Mover(a)];
    assert JobOk(owner, s.rows, job);
    SavedHasKey(s.rows, job.n);
  }

  lemma ApartStep(atomic: bool, owner: string -> string, s: System, a: Action, i: nat)
    requires SystemOk(atomic, owner, s) && !a.Arrive? && Mover(a) < |s.jobs|
    requires i < |s.jobs| && i != Mover(a) && Exclusive(atomic, s.jobs[i]) && Exclusive(atomic, s.jobs[Mover(a)])
    ensures Apart(Step(atomic, s, a).jobs[Mover(a)], s.jobs[i])
  {
    var job, other := s.jobs[Mover(a)], s.jobs[i];
    assert Apart(job, other) by {
      if i < Mover(a) {
        assert Apart(other, job);
      }
    }
    assert JobOk(owner, s.rows, job) && JobOk(owner, s.rows, other);
    if a.ReadRows? {
      ReadSees(owner, s.rows, job.n);
      if Won(other) && SameKey(other.n, job.n) {
        var k :| 0 <= k < |s.rows| && SameKey(s.rows[k], other.n);
        assert SameKey(s.rows[k], job.n);
      }
    }
  }

  lemma StepOk(atomic: bool, owner: string -> string, s: System, a: Action)
    requires SystemOk(atomic, owner, s) && OwnedBy(owner, a)
    ensures SystemOk(atomic, owner, Step(atomic, s, a))
  {
    var t := Step(atomic, s, a);
    if !a.Arrive? && Mover(a) < |s.jobs| {
      var m := Mover(a);
      JobStep(atomic, owner, s, a);
      forall j | 0 <= j < |t.jobs|
        ensures JobOk(owner, t.rows, t.jobs[j])
      {
        if j != m {
          assert JobOk(owner, s.rows, s.jobs[j]);
          if Won(s.jobs[j]) {
            HasKeyGrows(s.rows, t.rows, s.jobs[j].n);
          }
        }
      }
      forall i, j | 0 <= i < j < |t.jobs| && Exclusive(atomic, t.jobs[i]) && Exclusive(atomic, t.jobs[j])
        ensures Apart(t.jobs[i], t.jobs[j])
      {
        if i == m {
          ApartStep(atomic, owner, s, a, j);
        } else if j == m {
          ApartStep(atomic, owner, s, a, i);
        }
      }
    }
  }

  lemma {:induction false} RunOk(atomic: bool, owner: string -> string, actions: seq<Action>)
    requires AllOwned(owner, actions)
    ensures SystemOk(atomic, owner, Run(atomic, actions))
  {
    if actions == [] {
    } else {
      RunOk(atomic, owner, actions[..|actions| - 1]);
      assert OwnedBy(owner, actions[|actions| - 1]);
      StepOk(atomic, owner, Run(atomic, actions[..|actions| - 1]), actions[|actions| - 1]);
    }
  }

  // --- how often a notification goes out -----------------------------------------------------------------------------

  /** Sends for the key of n by calls that exclude each other, or by the others. */
  function Sends(atomic: bool, exclusive: bool, jobs: seq<Job>, n: Notification): nat {
    if jobs == [] then 0
    else
      var last := jobs[|jobs| - 1];
      Sends(atomic, exclusive, jobs[..|jobs| - 1], n) +
      if SameKey(last.n, n) && last.sent && Exclusive(atomic, last) == exclusive then 1 else 0
  }

  function Publications(jobs: seq<Job>, n: Notification): nat {
    if jobs == [] then 0
    else
      Publications(jobs[..|jobs| - 1], n) +
      if SameKey(jobs[|jobs| - 1].n, n) && jobs[|jobs| - 1].published then 1 else 0
  }

  /** Calls over gRPC for the key of n. */
  function GrpcCalls(jobs: seq<Job>, n: Notification): nat {
    if jobs == [] then 0
    else
      GrpcCalls(jobs[..|jobs| - 1], n) +
      if SameKey(jobs[|jobs| - 1].n, n) && jobs[|jobs| - 1].origin == Grpc then 1 else 0
  }

  lemma {:induction false} AtMostOneWinner(atomic: bool, jobs: seq<Job>, n: Notification)
    requires forall i, j :: 0 <= i < j < |jobs| && Exclusive(atomic, jobs[i]) && Exclusive(atomic, jobs[j]) ==>
               Apart(jobs[i], jobs[j])
    requires forall j :: 0 <= j < |jobs| && jobs[j].published ==> jobs[j].origin == Kafka
    ensures Sends(atomic, true, jobs, n) <= 1 && Publications(jobs, n) <= 1
    ensures (Sends(atomic, true, jobs, n) == 0 && Publications(jobs, n) == 0) ||
            exists k :: 0 <= k < |jobs| && Exclusive(atomic, jobs[k]) && SameKey(jobs[k].n, n) && Won(jobs[k])
  {
    if jobs == [] {
    } else {
      var front, last := jobs[..|jobs| - 1], jobs[|jobs| - 1];
      AtMostOneWinner(atomic, front, n);
      if SameKey(last.n, n) && Won(last) && Exclusive(atomic, last) {
        forall k | 0 <= k < |front| && Exclusive(atomic, front[k])
          ensures !(SameKey(front[k].n, n) && Won(front[k]))
        {
          assert Apart(jobs[k], jobs[|jobs| - 1]);
        }
        assert Won(jobs[|jobs| - 1]);
      } else if exists k :: 0 <= k < |front| && Exclusive(atomic, front[k]) && SameKey(front[k].n, n) && Won(front[k]) {
        var k :| 0 <= k < |front| && Exclusive(atomic, front[k]) && SameKey(front[k].n, n) && Won(front[k]);
        assert Won(jobs[k]);
      }
    }
  }

  lemma {:induction false} GrpcSends(jobs: seq<Job>, n: Notification)
    ensures Sends(false, false, jobs, n) <= GrpcCalls(jobs, n)
  {
    if jobs == [] {
    } else {
      GrpcSends(jobs[..|jobs| - 1], n);
    }
  }

  lemma {:induction false} AllExclusive(jobs: seq<Job>, n: Notification)
    ensures Sends(true, false, jobs, n) == 0
  {
    if jobs == [] {
    } else {
      AllExclusive(jobs[..|jobs| - 1], n);
    }
  }

  function AllSends(atomic: bool, jobs: seq<Job>, n: Notification): nat {
    Sends(atomic, true, jobs, n) + Sends(atomic, false, jobs, n)
  }

  /** In every interleaving of the Kafka worker, with any redelivery, and any number of
      gRPC threads, one user per reservation: NotificationSent is published at most
      once per key, and the notification is sent at most once more than there were
      gRPC calls for it - at most twice when there was one. */
  lemma SentAndPublished(owner: string -> string, actions: seq<Action>, n: Notification)
    requires AllOwned(owner, actions)
    ensures var jobs := Run(false, actions).jobs;
            && Publications(jobs, n) <= 1
            && AllSends(false, jobs, n) <= 1 + GrpcCalls(jobs, n)
  {
    RunOk(false, owner, actions);
    var s := Run(false, actions);
    assert forall j :: 0 <= j < |s.jobs| ==> JobOk(owner, s.rows, s.jobs[j]);
    AtMostOneWinner(false, s.jobs, n);
    GrpcSends(s.jobs, n);
  }

  /** Were process_confirmation atomic, no notification would be sent twice, however
      many calls of either kind there are. */
  lemma AtomicSendsOnce(owner: string -> string, actions: seq<Action>, n: Notification)
    requires AllOwned(owner, actions)
    ensures AllSends(true, Run(true, actions).jobs, n) <= 1
  {
    RunOk(true, owner, actions);
    var s := Run(true, actions);
    assert forall j :: 0 <= j < |s.jobs| ==> JobOk(owner, s.rows, s.jobs[j]);
    AtMostOneWinner(true, s.jobs, n);
    AllExclusive(s.jobs, n);
  }

  // --- the bounds are reached: concrete runs -----------------------------------------------------

  /** A run, built one action at a time. */
  lemma Take(atomic: bool, actions: seq<Action>, a: Action) returns (longer: seq<Action>)
    ensures longer == actions + [a] && Run(atomic, longer) == Step(atomic, Run(atomic, actions), a)
  {
    longer := actions + [a];
    assert longer[..|longer| - 1] == actions;
  }

  /** Two deliveries for one reservation, both at their read. */
  lemma TwoArrive(first: Origin, a: Notification, b: Notification) returns (actions: seq<Action>)
    ensures actions == [Arrive(first, a), Arrive(Kafka, b)]
    ensures Run(false, actions) == System([], [Job(first, a, Read, false, false), Job(Kafka, b, Read, false, false)])
  {
    assert Run(false, []) == System([], []);
    actions := Take(false, [], Arrive(first, a));
    actions := Take(false, actions, Arrive(Kafka, b));
  }

  lemma {:induction false} CountTwo(a: Job, b: Job, n: Notification)
    ensures Publications([a, b], n) ==
            (if SameKey(a.n, n) && a.published then 1 else 0) + if SameKey(b.n, n) && b.published then 1 else 0
    ensures AllSends(false, [a, b], n) ==
            (if SameKey(a.n, n) && a.sent then 1 else 0) + if SameKey(b.n, n) && b.sent then 1 else 0
    ensures GrpcCalls([a, b], n) ==
            (if SameKey(a.n, n) && a.origin == Grpc then 1 else 0) +
            (if SameKey(b.n, n) && b.origin == Grpc then 1 else 0)
  {
    var one, two := [a], [a, b];
    assert one[..0] == [] && two[..1] == one;
    assert Publications(one, n) == if SameKey(a.n, n) && a.published then 1 else 0;
    assert GrpcCalls(one, n) == if SameKey(a.n, n) && a.origin == Grpc then 1 else 0;
    forall exclusive: bool
      ensures Sends(false, exclusive, two, n) ==
              (if SameKey(a.n, n) && a.sent && Exclusive(false, a) == exclusive then 1 else 0) +
              (if SameKey(b.n, n) && b.sent && Exclusive(false, b) == exclusive then 1 else 0)
    {
      assert Sends(false, exclusive, one, n) ==
             if SameKey(a.n, n) && a.sent && Exclusive(false, a) == exclusive then 1 else 0;
    }
  }

  function Race(n: Notification): seq<Action> {
    [Arrive(Grpc, n), Arrive(Kafka, n), ReadRows(0, true), ReadRows(1, true),
     SaveIt(0, Acked), SaveIt(1, Acked), SendIt(0), SendIt(1)]
  }

  lemma BothRead(n: Notification) returns (actions: seq<Action>)
    ensures actions == [Arrive(Grpc, n), Arrive(Kafka, n), ReadRows(0, true), ReadRows(1, true)]
    ensures Run(false, actions) == System([], [Job(Grpc, n, Insert, false, false), Job(Kafka, n, Insert, false, false)])
  {
    actions := TwoArrive(Grpc, n, n);
    actions := Take(false, actions, ReadRows(0, true));
    actions := Take(false, actions, ReadRows(1, true));
  }

  lemma BothSave(n: Notification, before: seq<Action>) returns (actions: seq<Action>)
    requires Run(false, before) == System([], [Job(Grpc, n, Insert, false, false), Job(Kafka, n, Insert, false, false)])
    ensures actions == before + [SaveIt(0, Acked), SaveIt(1, Acked)]
    ensures Run(false, actions) == System([n], [Job(Grpc, n, Send, false, false), Job(Kafka, n, Send, false, false)])
  {
    actions := Take(false, before, SaveIt(0, Acked));
    assert SameKey(Run(false, actions).rows[0], n);
    actions := Take(false, actions, SaveIt(1, Acked));
  }

  lemma {:induction false} RaceEnds(n: Notification)
    ensures Run(false, Race(n)) == System([n], [Job(Grpc, n, Over, true, false), Job(Kafka, n, Publish, true, false)])
  {
    var actions := BothRead(n);
    actions := BothSave(n, actions);
    actions := Take(false, actions, SendIt(0));
    actions := Take(false, actions, SendIt(1));
    assert actions == Race(n);
  }

  /** One gRPC call and one Kafka message that read before either inserts: one row, two
      sends, so the bound of SentAndPublished is exact. */
  lemma {:induction false} BothSend(n: Notification)
    ensures AllOwned((r: string) => n.user, Race(n))
    ensures Run(false, Race(n)).rows == [n] && GrpcCalls(Run(false, Race(n)).jobs, n) == 1
    ensures AllSends(false, Run(false, Race(n)).jobs, n) == 2
  {
    RaceEnds(n);
    CountTwo(Job(Grpc, n, Over, true, false), Job(Kafka, n, Publish, true, false), n);
  }

  /** The second message is read only when the first is over. */
  function OneAfterTheOther(a: Notification, b: Notification): seq<Action> {
    [Arrive(Kafka, a), Arrive(Kafka, b),
     ReadRows(0, true), SaveIt(0, Acked), SendIt(0), PublishIt(0, true),
     ReadRows(1, true), SaveIt(1, Acked), SendIt(1), PublishIt(1, true)]
  }

  lemma FirstOver(a: Notification, b: Notification) returns (actions: seq<Action>)
    ensures actions ==
            [Arrive(Kafka, a), Arrive(Kafka, b), ReadRows(0, true), SaveIt(0, Acked), SendIt(0), PublishIt(0, true)]
    ensures Run(false, actions) == System([a], [Job(Kafka, a, Over, true, true), Job(Kafka, b, Read, false, false)])
  {
    actions := TwoArrive(Kafka, a, b);
    actions := Take(false, actions, ReadRows(0, true));
    actions := Take(false, actions, SaveIt(0, Acked));
    actions := Take(false, actions, SendIt(0));
    actions := Take(false, actions, PublishIt(0, true));
  }

  lemma SecondOver(a: Notification, b: Notification, before: seq<Action>) returns (actions: seq<Action>)
    requires SameKey(a, b) && a.user != b.user
    requires Run(false, before) == System([a], [Job(Kafka, a, Over, true, true), Job(Kafka, b, Read, false, false)])
    ensures actions == before + [ReadRows(1, true), SaveIt(1, Acked), SendIt(1), PublishIt(1, true)]
    ensures Run(false, actions) == System([a], [Job(Kafka, a, Over, true, true), Job(Kafka, b, Over, true, true)])
  {
    actions := Take(false, before, ReadRows(1, true));
    actions := Take(false, actions, SaveIt(1, Acked));
    assert SameKey([a][0], b);
    actions := Take(false, actions, SendIt(1));
    actions := Take(false, actions, PublishIt(1, true));
  }

  /** One user per reservation is needed: two messages for one reservation that name
      different users publish twice, even one after the other, because the read looks
      only at the rows of its own user. */
  lemma {:induction false} TwoUsersPublishTwice(a: Notification, b: Notification)
    requires SameKey(a, b) && a.user != b.user
    ensures Run(false, OneAfterTheOther(a, b)).rows == [a]
    ensures Publications(Run(false, OneAfterTheOther(a, b)).jobs, a) == 2
  {
    var actions := FirstOver(a, b);
    actions := SecondOver(a, b, actions);
    assert actions == OneAfterTheOther(a, b);
    CountTwo(Job(Kafka, a, Over, true, true), Job(Kafka, b, Over, true, true), a);
  }
}
