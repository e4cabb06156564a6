/** The Kafka worker (notification_service/src/kafka_events/worker.py): handle a message,
    then commit, whatever came of it; and resume after the last commit that worked. */
module Worker {
  import opened Network
  import opened Notifications

  /** A message of the reservations topic, as the worker reads it. One that is not a JSON
      object raises outside the handler's try: it ends the session, uncommitted. */
  datatype Event =
    | Confirmation(user: string, reservationId: string, email: string)
    | Malformed
    | OtherType
    | Unreadable

  /** What happens around the handling of one message. */
  datatype Luck = Luck(readWorks: bool, save: Delivery, producerWorks: bool, commitWorks: bool)

  datatype Delivered = Delivered(event: Event, luck: Luck)

  datatype Published = NotificationSent(reservationId: string) | NotificationFailed

  datatype Handled = Ignored | Done | WasDuplicate | HandlingFailed | Escaped

  datatype Effects = Effects(rows: seq<Notification>, sends: seq<Notification>, published: seq<Published>)

  function Wanted(e: Event): Notification
    requires e.Confirmation?
  {
    Notification(e.user, e.reservationId, CONFIRMACION, e.email)
  }

  function Tell(published: seq<Published>, p: Published, works: bool): seq<Published> {
    if works then published + [p] else published
  }

  /** One message: a failure is told and forgotten, even after a row was written. */
  function Handle(hasSender: bool, t: Effects, d: Delivered): Effects {
    match d.event
    case OtherType => t
    case Unreadable => t
    case Malformed => t.(published := Tell(t.published, NotificationFailed, d.luck.producerWorks))
    case Confirmation(_, reservationId, _) =>
      var n := Wanted(d.event);
      if !d.luck.readWorks then t.(published := Tell(t.published, NotificationFailed, d.luck.producerWorks))
      else if Duplicate(t.rows, n) then t
      else if d.luck.save == Acked then
        Effects(SaveRow(t.rows, n), if hasSender then t.sends + [n] else t.sends,
                Tell(t.published, NotificationSent(reservationId), d.luck.producerWorks))
      else
        Effects(if d.luck.save == NotApplied then t.rows else SaveRow(t.rows, n), t.sends,
                Tell(t.published, NotificationFailed, d.luck.producerWorks))
  }

  function HandleAll(hasSender: bool, t: Effects, ds: seq<Delivered>): Effects {
    if ds == [] then t else Handle(hasSender, HandleAll(hasSender, t, ds[..|ds| - 1]), ds[|ds| - 1])
  }

  /** The messages at offsets from .. to, each with its luck. */
  function Stretch(topic: seq<Event>, luck: nat -> Luck, from: nat, to: nat): (ds: seq<Delivered>)
    requires from <= to <= |topic|
    ensures |ds| == to - from
    ensures forall k :: 0 <= k < |ds| ==> ds[k] == Delivered(topic[from + k], luck(from + k))
  {
    if from == to then [] else Stretch(topic, luck, from, to - 1) + [Delivered(topic[to - 1], luck(to - 1))]
  }

  /** The offset committed once the messages from .. to have been handled. */
  function CommittedTo(luck: nat -> Luck, from: nat, to: nat): (offset: nat)
    requires from <= to
    ensures from <= offset <= to
    ensures offset > from ==> luck(offset - 1).commitWorks
    ensures forall k: nat :: offset <= k < to ==> !luck(k).commitWorks
  {
    if from == to then from
    else if luck(to - 1).commitWorks then to
    else CommittedTo(luck, from, to - 1)
  }

  /** Where a session that resumes at `from` and finds the stop flag set at `stop` ends:
      there, at the end of the topic, or at a message it cannot read. */
  function End(topic: seq<Event>, from: nat, stop: nat): (to: nat)
    requires from <= |topic|
    ensures from <= to <= |topic|
    ensures from < to ==> to <= stop
    ensures forall k :: from <= k < to ==> !topic[k].Unreadable?
    ensures to < |topic| && to < stop ==> topic[to].Unreadable?
    decreases |topic| - from
  {
    if from == |topic| || from >= stop || topic[from].Unreadable? then from else End(topic, from + 1, stop)
  }

  class KafkaWorker {
    const service: NotificationService
    var published: seq<Published>
    var committed: nat

    constructor (service: NotificationService)
      ensures this.service == service && published == [] && committed == 0
    {
      this.service, published, committed := service, [], 0;
    }

    ghost function Now(): Effects
      reads this, service
    {
      Effects(service.rows, service.sends, published)
    }

    method HandleEvent(d: Delivered) returns (handled: Handled)
      modifies this`published, service
      ensures Now() == Handle(service.hasSender, old(Now()), d)
      ensures handled == Ignored <==> d.event.OtherType?
      ensures handled == Escaped <==> d.event.Unreadable?
      ensures handled == HandlingFailed <==>
              d.event.Malformed? ||
              (d.event.Confirmation?
                  && !(d.luck.readWorks && (Duplicate(old(service.rows), Wanted(d.event)) || d.luck.save == Acked)))
      ensures handled == Done <==>
              && d.event.Confirmation? && d.luck.readWorks
              && !Duplicate(old(service.rows), Wanted(d.event)) && d.luck.save == Acked
      ensures published ==
              if !d.luck.producerWorks then old(published)
              else if handled == HandlingFailed then old(published) + [NotificationFailed]
              else if handled == Done then old(published) + [NotificationSent(d.event.reservationId)]
              else old(published)
      ensures service.sends ==
              if handled == Done && service.hasSender
              then old(service.sends)
                   + [Notification(d.event.user, d.event.reservationId, "CONFIRMACION", d.event.email)]
              else old(service.sends)
    {
      match d.event {
        case OtherType =>
          return Ignored;
        case Unreadable =>
          return Escaped;
        case Malformed =>
          Publish(NotificationFailed, d.luck.producerWorks);
          return HandlingFailed;
        case Confirmation(_, reservationId, _) =>
          var outcome := service.ProcessConfirmation(Wanted(d.event), d.luck.readWorks, d.luck.save);
          if outcome == AlreadyThere {
            return WasDuplicate;
          }
          if outcome == Raised {
            Publish(NotificationFailed, d.luck.producerWorks);
            return HandlingFailed;
          }
          Publish(NotificationSent(reservationId), d.luck.producerWorks);
          return Done;
      }
    }

    method Publish(p: Published, works: bool)
      modifies this`published
      ensures published == Tell(old(published), p, works)
    {
      if works {
        published := published + [p];
      }
    }

    /** _consume_until_stopped, from the committed offset on; the exception of a message
        that cannot be read leaves the loop. */
    method ConsumeUntilStopped(topic: seq<Event>, luck: nat -> Luck, stop: nat) returns (next: nat, raised: bool)
      requires committed <= |topic|
      modifies this, service
      ensures next == End(topic, old(committed), stop)
      ensures raised <==> next < |topic| && next < stop
      ensures Now() == HandleAll(service.hasSender, old(Now()), Stretch(topic, luck, old(committed), next))
      ensures committed == CommittedTo(luck, old(committed), next)
    {
      next, raised := committed, false;
      ghost var start, from := Now(), committed;
      while next < |topic| && next < stop && !raised
        invariant from <= next <= |topic|
        invariant End(topic, next, stop) == End(topic, from, stop)
        invariant raised ==> next < |topic| && next < stop && topic[next].Unreadable?
        invariant Now() == HandleAll(service.hasSender, start, Stretch(topic, luck, from, next))
        invariant committed == CommittedTo(luck, from, next)
        decreases |topic| - next, !raised
      {
        StretchSnoc(service.hasSender, start, topic, luck, from, next);
        raised := HandleAndCommit(topic[next], luck(next), next + 1);
        if !raised {
          next := next + 1;
        }
      }
    }

    method HandleAndCommit(event: Event, luck: Luck, offset: nat) returns (raised: bool)
      modifies this, service
      ensures raised <==> event.Unreadable?
      ensures Now() == Handle(service.hasSender, old(Now()), Delivered(event, luck))
      ensures committed == if !raised && luck.commitWorks then offset else old(committed)
      ensures raised ==> Now() == old(Now())
    {
      var handled := HandleEvent(Delivered(event, luck));
      raised := handled == Escaped;
      if !raised && luck.commitWorks {
        committed := offset;
      }
    }
  }

  lemma {:induction false} StretchSnoc(hasSender: bool, t: Effects, topic: seq<Event>, luck: nat -> Luck, from: nat,
                                       next: nat)
    requires from <= next < |topic|
    ensures HandleAll(hasSender, t, Stretch(topic, luck, from, next + 1)) ==
            Handle(hasSender, HandleAll(hasSender, t, Stretch(topic, luck, from, next)),
                Delivered(topic[next], luck(next)))
    ensures CommittedTo(luck, from, next + 1) ==
            if luck(next).commitWorks then next + 1 else CommittedTo(luck, from, next)
  {
    HandleAllSnoc(hasSender, t, Stretch(topic, luck, from, next), Delivered(topic[next], luck(next)));
  }

  lemma {:induction false} HandleAllSnoc(hasSender: bool, t: Effects, ds: seq<Delivered>, d: Delivered)
    ensures HandleAll(hasSender, t, ds + [d]) == Handle(hasSender, HandleAll(hasSender, t, ds), d)
  {
    assert (ds + [d])[..|ds|] == ds;
  }

  // --- any number of sessions: crashes, rebalances, restarts --------------------------------------------

  /** A session of the worker; a crash is a stop, with the last commits not working. */
  datatype Session = Session(luck: nat -> Luck, stop: nat)

  datatype Progress = Progress(committed: nat, delivered: seq<Delivered>)

  function Sessions(topic: seq<Event>, ss: seq<Session>): (p: Progress)
    ensures p.committed <= |topic|
  {
    if ss == [] then Progress(0, [])
    else
      var p, s := Sessions(topic, ss[..|ss| - 1]), ss[|ss| - 1];
      var to := End(topic, p.committed, s.stop);
      Progress(CommittedTo(s.luck, p.committed, to), p.delivered + Stretch(topic, s.luck, p.committed, to))
  }

  /** What one session more adds. */
  lemma {:induction false} SessionSnoc(topic: seq<Event>, ss: seq<Session>, s: Session)
    ensures var p := Sessions(topic, ss);
            var to := End(topic, p.committed, s.stop);
            Sessions(topic, ss + [s]) ==
            Progress(CommittedTo(s.luck, p.committed, to), p.delivered + Stretch(topic, s.luck, p.committed, to))
  {
    assert (ss + [s])[..|ss|] == ss;
  }

  lemma {:induction false} HandleAllConcat(hasSender: bool, t: Effects, a: seq<Delivered>, b: seq<Delivered>)
    ensures HandleAll(hasSender, t, a + b) == HandleAll(hasSender, HandleAll(hasSender, t, a), b)
  {
    if b == [] {
      assert a + b == a;
    } else {
      assert (a + b)[..|a + b| - 1] == a + b[..|b| - 1];
      HandleAllConcat(hasSender, t, a, b[..|b| - 1]);
    }
  }

  /** ConsumeUntilStopped, begun where the sessions so far left worker and offset, is one
      session more. */
  lemma ResumeContinues(hasSender: bool, t: Effects, topic: seq<Event>, ss: seq<Session>, s: Session)
    ensures var p, q := Sessions(topic, ss), Sessions(topic, ss + [s]);
            var to := End(topic, p.committed, s.stop);
            && q.committed == CommittedTo(s.luck, p.committed, to)
            && HandleAll(hasSender, t, q.delivered) ==
               HandleAll(hasSender, HandleAll(hasSender, t, p.delivered), Stretch(topic, s.luck, p.committed, to))
  {
    SessionSnoc(topic, ss, s);
    var p := Sessions(topic, ss);
    HandleAllConcat(hasSender, t, p.delivered, Stretch(topic, s.luck, p.committed, End(topic, p.committed, s.stop)));
  }

  predicate Covers(delivered: seq<Delivered>, e: Event) {
    exists i :: 0 <= i < |delivered| && delivered[i].event == e
  }

  lemma {:induction false} CoversConcat(a: seq<Delivered>, b: seq<Delivered>, e: Event)
    ensures Covers(a + b, e) <==> Covers(a, e) || Covers(b, e)
  {
    var ab := a + b;
    if Covers(a, e) {
      var i :| 0 <= i < |a| && a[i].event == e;
      assert ab[i].event == e;
    }
    if Covers(b, e) {
      var i :| 0 <= i < |b| && b[i].event == e;
      assert ab[|a| + i].event == e;
    }
  }

  /** Nothing is skipped and nothing made up: every message below the committed offset
      was handled at least once, and only messages of the topic were. */
  lemma {:induction false} AtLeastOnce(topic: seq<Event>, ss: seq<Session>, k: nat)
    ensures k < Sessions(topic, ss).committed ==> Covers(Sessions(topic, ss).delivered, topic[k])
    ensures k < |Sessions(topic, ss).delivered| ==> Sessions(topic, ss).delivered[k].event in topic
  {
    if ss == [] {
    } else {
      var before, s := Sessions(topic, ss[..|ss| - 1]), ss[|ss| - 1];
      var to := End(topic, before.committed, s.stop);
      var stretch := Stretch(topic, s.luck, before.committed, to);
      AtLeastOnce(topic, ss[..|ss| - 1], k);
      if before.committed <= k < to {
        assert stretch[k - before.committed].event == topic[k];
        CoversConcat(before.delivered, stretch, topic[k]);
      } else if k < before.committed {
        CoversConcat(before.delivered, stretch, topic[k]);
      }
    }
  }

  /** The messages a session hands over lie before any that it cannot pass. */
  lemma StretchWithin(topic: seq<Event>, luck: nat -> Luck, from: nat, to: nat, p: nat, i: nat)
    requires from <= to <= p <= |topic| && i < to - from
    ensures Stretch(topic, luck, from, to)[i].event in topic[..p]
  {
    assert topic[..p][from + i] == topic[from + i];
  }

  /** A message that cannot be read stops the worker for good: in whatever sessions, the
      committed offset never passes it and no message from it on is ever handled. */
  lemma {:induction false} UnreadableBlocks(topic: seq<Event>, ss: seq<Session>, p: nat, i: nat)
    requires p < |topic| && topic[p].Unreadable?
    ensures Sessions(topic, ss).committed <= p
    ensures i < |Sessions(topic, ss).delivered| ==> Sessions(topic, ss).delivered[i].event in topic[..p]
  {
    if ss == [] {
    } else {
      var front, s := ss[..|ss| - 1], ss[|ss| - 1];
      var before := Sessions(topic, front);
      UnreadableBlocks(topic, front, p, i);
      var to := End(topic, before.committed, s.stop);
      var n := |before.delivered|;
      if n <= i < n + (to - before.committed) {
        StretchWithin(topic, s.luck, before.committed, to, p, i - n);
      }
    }
  }

  lemma {:induction false} EndsAt(topic: seq<Event>, from: nat, stop: nat, p: nat)
    requires from <= p < |topic| && topic[p].Unreadable? && p < stop
    requires forall k :: 0 <= k < p ==> !topic[k].Unreadable?
    ensures End(topic, from, stop) == p
  {
  }

  /** Up to the first such message nothing is lost: a session not stopped before it ends
      there, everything before it has been handled, and everything before it is committed
      if the last commit works. */
  lemma {:induction false} UnreadableReached(topic: seq<Event>, ss: seq<Session>, s: Session, p: nat)
    requires p < |topic| && topic[p].Unreadable? && p < s.stop
    requires forall k :: 0 <= k < p ==> !topic[k].Unreadable?
    ensures End(topic, Sessions(topic, ss).committed, s.stop) == p
    ensures forall k :: 0 <= k < p ==> Covers(Sessions(topic, ss + [s]).delivered, topic[k])
    ensures p == 0 || s.luck(p - 1).commitWorks ==> Sessions(topic, ss + [s]).committed == p
  {
    var before := Sessions(topic, ss);
    UnreadableBlocks(topic, ss, p, 0);
    EndsAt(topic, before.committed, s.stop, p);
    SessionSnoc(topic, ss, s);
    forall k | 0 <= k < p
      ensures Covers(Sessions(topic, ss + [s]).delivered, topic[k])
    {
      SessionCovers(topic, ss, s.luck, p, k);
    }
  }

  lemma SessionCovers(topic: seq<Event>, ss: seq<Session>, luck: nat -> Luck, to: nat, k: nat)
    requires Sessions(topic, ss).committed <= to <= |topic| && k < to
    ensures var p := Sessions(topic, ss);
            Covers(p.delivered + Stretch(topic, luck, p.committed, to), topic[k])
  {
    var p := Sessions(topic, ss);
    var stretch := Stretch(topic, luck, p.committed, to);
    CoversConcat(p.delivered, stretch, topic[k]);
    if k < p.committed {
      AtLeastOnce(topic, ss, k);
    } else {
      assert stretch[k - p.committed].event == topic[k];
    }
  }

  // --- what is stored ---------------------------------------------------------------------------------------

  /** This delivery makes sure of a row for the key of n. */
  predicate Stores(d: Delivered, n: Notification) {
    d.event.Confirmation? && SameKey(Wanted(d.event), n) && d.luck.readWorks && d.luck.save != NotApplied
  }

  lemma HandleStores(hasSender: bool, t: Effects, d: Delivered, n: Notification)
    ensures HasKey(Handle(hasSender, t, d).rows, n) <==> HasKey(t.rows, n) || Stores(d, n)
  {
    var after := Handle(hasSender, t, d).rows;
    if HasKey(t.rows, n) {
      HasKeyGrows(t.rows, after, n);
    }
    if d.event.Confirmation? {
      SavedHasKey(t.rows, Wanted(d.event));
      if Stores(d, n) {
        assert HasKey(after, Wanted(d.event));
        var i :| 0 <= i < |after| && SameKey(after[i], Wanted(d.event));
        assert SameKey(after[i], n);
      }
    }
  }

  /** A confirmation has its row exactly when some delivery of its key got through the
      read and the insert. A message all of whose deliveries failed before that has
      none, although its offset is committed like any other. */
  lemma {:induction false} StoredExactly(hasSender: bool, t: Effects, ds: seq<Delivered>, n: Notification)
    ensures HasKey(HandleAll(hasSender, t, ds).rows, n) <==>
            HasKey(t.rows, n) || exists k :: 0 <= k < |ds| && Stores(ds[k], n)
  {
    if ds == [] {
    } else {
      var front, last := ds[..|ds| - 1], ds[|ds| - 1];
      StoredExactly(hasSender, t, front, n);
      HandleStores(hasSender, HandleAll(hasSender, t, front), last, n);
      assert forall k :: 0 <= k < |front| ==> front[k] == ds[k];
    }
  }

  const NOTHING := Effects([], [], [])

  /** Over any sessions: every confirmation below the committed offset was handled, and it
      has its row exactly when one of the deliveries of its key got through. */
  lemma CommittedStored(hasSender: bool, topic: seq<Event>, ss: seq<Session>, k: nat)
    requires k < Sessions(topic, ss).committed && topic[k].Confirmation?
    ensures var delivered := Sessions(topic, ss).delivered;
            && Covers(delivered, topic[k])
            && (HasKey(HandleAll(hasSender, NOTHING, delivered).rows, Wanted(topic[k])) <==>
                exists i :: 0 <= i < |delivered| && Stores(delivered[i], Wanted(topic[k])))
  {
    AtLeastOnce(topic, ss, k);
    StoredExactly(hasSender, NOTHING, Sessions(topic, ss).delivered, Wanted(topic[k]));
  }

  /** The read fails while the commit works. */
  function Unlucky(offset: nat): Luck {
    Luck(false, NotApplied, true, true)
  }

  lemma {:induction false} UnluckyOnce(hasSender: bool, e: Event)
    requires e.Confirmation?
    ensures Sessions([e], [Session(Unlucky, 1)]) == Progress(1, [Delivered(e, Unlucky(0))])
    ensures HandleAll(hasSender, NOTHING, [Delivered(e, Unlucky(0))]).rows == []
  {
    SessionSnoc([e], [], Session(Unlucky, 1));
    assert [] + [Session(Unlucky, 1)] == [Session(Unlucky, 1)];
    assert End([e], 1, 1) == 1;
    assert Stretch([e], Unlucky, 0, 1) == [Delivered(e, Unlucky(0))];
    HandleAllSnoc(hasSender, NOTHING, [], Delivered(e, Unlucky(0)));
  }

  lemma {:induction false} NothingMore(topic: seq<Event>, before: seq<Session>, s: Session, after: seq<Session>)
    requires Sessions(topic, before).committed == |topic| && after == before + [s]
    ensures Sessions(topic, after) == Sessions(topic, before)
  {
    SessionSnoc(topic, before, s);
  }

  /** Once everything is committed, no session handles anything again. */
  lemma {:induction false} NothingLeft(topic: seq<Event>, ss: seq<Session>, more: seq<Session>)
    requires Sessions(topic, ss).committed == |topic|
    ensures Sessions(topic, ss + more) == Sessions(topic, ss)
  {
    if more == [] {
      assert ss + more == ss;
    } else {
      var front, last := more[..|more| - 1], more[|more| - 1];
      NothingLeft(topic, ss, front);
      assert ss + more == ss + front + [last];
      NothingMore(topic, ss + front, last, ss + more);
    }
  }

  /** Committed and never stored: one failed read, and no later session, however many and
      however lucky, handles the confirmation again. */
  lemma {:induction false} CommittedNotStored(hasSender: bool, e: Event, more: seq<Session>)
    requires e.Confirmation?
    ensures Sessions([e], [Session(Unlucky, 1)] + more) == Progress(1, [Delivered(e, Unlucky(0))])
    ensures HandleAll(hasSender, NOTHING, Sessions([e], [Session(Unlucky, 1)] + more).delivered).rows == []
  {
    UnluckyOnce(hasSender, e);
    NothingLeft([e], [Session(Unlucky, 1)], more);
  }

  /** The handling of this message fails, on the rows it finds. */
  predicate Fails(rows: seq<Notification>, d: Delivered) {
    || d.event.Malformed?
    || (d.event.Confirmation? && !d.luck.readWorks)
    || (d.event.Confirmation? && d.luck.save != Acked && !Duplicate(rows, Wanted(d.event)))
  }

  /** Failed handlings that the producer could tell. */
  function FailuresTold(hasSender: bool, t: Effects, ds: seq<Delivered>): nat {
    if ds == [] then 0
    else
      var front, d := ds[..|ds| - 1], ds[|ds| - 1];
      FailuresTold(hasSender, t, front) +
      if Fails(HandleAll(hasSender, t, front).rows, d) && d.luck.producerWorks then 1 else 0
  }

  function CountFailed(ps: seq<Published>): nat {
    if ps == [] then 0 else CountFailed(ps[..|ps| - 1]) + if ps[|ps| - 1].NotificationFailed? then 1 else 0
  }

  lemma {:induction false} FailedSnoc(ps: seq<Published>, p: Published, works: bool)
    ensures CountFailed(Tell(ps, p, works)) == CountFailed(ps) + if works && p.NotificationFailed? then 1 else 0
  {
    assert (ps + [p])[..|ps|] == ps;
  }

  /** Every failed handling publishes one NotificationFailed when the producer works, and
      nothing else does. */
  lemma {:induction false} FailuresAreTold(hasSender: bool, t: Effects, ds: seq<Delivered>)
    ensures CountFailed(HandleAll(hasSender, t, ds).published) ==
            CountFailed(t.published) + FailuresTold(hasSender, t, ds)
  {
    if ds == [] {
    } else {
      var front, d := ds[..|ds| - 1], ds[|ds| - 1];
      FailuresAreTold(hasSender, t, front);
      var u := HandleAll(hasSender, t, front);
      FailedSnoc(u.published, NotificationFailed, d.luck.producerWorks);
      if d.event.Confirmation? {
        FailedSnoc(u.published, NotificationSent(d.event.reservationId), d.luck.producerWorks);
      }
    }
  }

  // --- redelivery ---------------------------------------------------------------------------------------------

  predicate Owned(owner: string -> string, ds: seq<Delivered>) {
    forall k :: 0 <= k < |ds| && ds[k].event.Confirmation? ==> ds[k].event.user == owner(ds[k].event.reservationId)
  }

  ghost predicate RowsOwned(owner: string -> string, rows: seq<Notification>) {
    forall i :: 0 <= i < |rows| ==> rows[i].user == owner(rows[i].reservationId)
  }

  /** All of t but the failures it told. */
  function Lasting(t: Effects): (seq<Notification>, seq<Notification>, seq<Published>) {
    (t.rows, t.sends, OnlySent(t.published))
  }

  function OnlySent(ps: seq<Published>): seq<Published> {
    if ps == [] then []
    else
      var front, p := OnlySent(ps[..|ps| - 1]), ps[|ps| - 1];
      if p.NotificationSent? then front + [p] else front
  }

  lemma TellFailure(ps: seq<Published>, works: bool)
    ensures OnlySent(Tell(ps, NotificationFailed, works)) == OnlySent(ps)
  {
    assert (ps + [NotificationFailed])[..|ps|] == ps;
  }

  /** Messages whose rows are there may be delivered again, in any order, any number of
      times and with any failures: no row, no send and no NotificationSent is added. */
  lemma {:induction false} RedeliveryHarmless(hasSender: bool, owner: string -> string, t: Effects,
                                              again: seq<Delivered>)
    requires RowsOwned(owner, t.rows) && Owned(owner, again)
    requires forall k :: 0 <= k < |again| && again[k].event.Confirmation? ==> HasKey(t.rows, Wanted(again[k].event))
    ensures Lasting(HandleAll(hasSender, t, again)) == Lasting(t)
  {
    if again == [] {
    } else {
      var front, last := again[..|again| - 1], again[|again| - 1];
      RedeliveryHarmless(hasSender, owner, t, front);
      var u := HandleAll(hasSender, t, front);
      TellFailure(u.published, last.luck.producerWorks);
      if last.event.Confirmation? {
        ReadSees(owner, u.rows, Wanted(last.event));
      }
    }
  }

  // --- the worker's code is a run of the interleaving machine ----------------------------------------------------

  ghost predicate Idle(jobs: seq<Job>) {
    forall j :: 0 <= j < |jobs| ==> jobs[j].stage == Over && jobs[j].origin == Kafka
  }

  function At(n: Notification, stage: Stage): Job {
    Job(Kafka, n, stage, false, false)
  }

  lemma ReadLast(rows: seq<Notification>, jobs: seq<Job>, n: Notification, works: bool)
    requires Idle(jobs)
    ensures Step(false, System(rows, jobs + [At(n, Read)]), ReadRows(|jobs|, works)) ==
            System(rows, jobs + [At(n, if !works || Duplicate(rows, n) then Over else Insert)])
  {
    var s := System(rows, jobs + [At(n, Read)]);
    assert MayRead(false, s, |jobs|);
  }

  lemma SaveLast(rows: seq<Notification>, jobs: seq<Job>, n: Notification, d: Delivery)
    ensures Step(false, System(rows, jobs + [At(n, Insert)]), SaveIt(|jobs|, d)) ==
            System(if d == NotApplied then rows else SaveRow(rows, n),
                jobs + [At(n, if d == Acked then Send else Over)])
  {
  }

  lemma FinishLast(rows: seq<Notification>, jobs: seq<Job>, n: Notification, works: bool)
    ensures Step(false, Step(false, System(rows, jobs + [At(n, Send)]), SendIt(|jobs|)), PublishIt(|jobs|, works)) ==
            System(rows, jobs + [Job(Kafka, n, Over, true, works)])
  {
    var s := Step(false, System(rows, jobs + [At(n, Send)]), SendIt(|jobs|));
    assert s == System(rows, jobs + [Job(Kafka, n, Publish, true, false)]);
  }

  /** The job that handling a confirmation amounts to. */
  function JobOf(rows: seq<Notification>, n: Notification, luck: Luck): Job {
    var through := luck.readWorks && !Duplicate(rows, n) && luck.save == Acked;
    Job(Kafka, n, Over, through, through && luck.producerWorks)
  }

  lemma TakeOwned(owner: string -> string, actions: seq<Action>, a: Action) returns (longer: seq<Action>)
    requires AllOwned(owner, actions) && OwnedBy(owner, a)
    ensures AllOwned(owner, longer) && Run(false, longer) == Step(false, Run(false, actions), a)
  {
    longer := Take(false, actions, a);
  }

  lemma ReadIsRun(owner: string -> string, actions: seq<Action>, n: Notification, works: bool)
    returns (longer: seq<Action>)
    requires AllOwned(owner, actions) && n.user == owner(n.reservationId) && Idle(Run(false, actions).jobs)
    ensures AllOwned(owner, longer)
    ensures var s := Run(false, actions);
            Run(false, longer) ==
                System(s.rows, s.jobs + [At(n, if !works || Duplicate(s.rows, n) then Over else Insert)])
  {
    var s := Run(false, actions);
    longer := TakeOwned(owner, actions, Arrive(Kafka, n));
    longer := TakeOwned(owner, longer, ReadRows(|s.jobs|, works));
    ReadLast(s.rows, s.jobs, n, works);
  }

  lemma SaveIsRun(owner: string -> string, actions: seq<Action>, rows: seq<Notification>, jobs: seq<Job>,
                  n: Notification, d: Delivery)
    returns (longer: seq<Action>)
    requires AllOwned(owner, actions) && Run(false, actions) == System(rows, jobs + [At(n, Insert)])
    ensures AllOwned(owner, longer)
    ensures Run(false, longer) ==
            System(if d == NotApplied then rows else SaveRow(rows, n),
                jobs + [At(n, if d == Acked then Send else Over)])
  {
    longer := TakeOwned(owner, actions, SaveIt(|jobs|, d));
    SaveLast(rows, jobs, n, d);
  }

  lemma FinishIsRun(owner: string -> string, actions: seq<Action>, rows: seq<Notification>, jobs: seq<Job>,
                    n: Notification, works: bool)
    returns (longer: seq<Action>)
    requires AllOwned(owner, actions) && Run(false, actions) == System(rows, jobs + [At(n, Send)])
    ensures AllOwned(owner, longer)
    ensures Run(false, longer) == System(rows, jobs + [Job(Kafka, n, Over, true, works)])
  {
    longer := TakeOwned(owner, actions, SendIt(|jobs|));
    longer := TakeOwned(owner, longer, PublishIt(|jobs|, works));
    FinishLast(rows, jobs, n, works);
  }

  lemma ConfirmationIsRun(hasSender: bool, owner: string -> string, t: Effects, d: Delivered, actions: seq<Action>,
                          jobs: seq<Job>)
    returns (longer: seq<Action>)
    requires d.event.Confirmation? && d.event.user == owner(d.event.reservationId) && AllOwned(owner, actions)
    requires Run(false, actions) == System(t.rows, jobs) && Idle(jobs)
    ensures AllOwned(owner, longer)
    ensures Run(false, longer) == System(Handle(hasSender, t, d).rows, jobs + [JobOf(t.rows, Wanted(d.event), d.luck)])
  {
    var n := Wanted(d.event);
    longer := ReadIsRun(owner, actions, n, d.luck.readWorks);
    if d.luck.readWorks && !Duplicate(t.rows, n) {
      longer := SaveIsRun(owner, longer, t.rows, jobs, n, d.luck.save);
      if d.luck.save == Acked {
        longer := FinishIsRun(owner, longer, SaveRow(t.rows, n), jobs, n, d.luck.producerWorks);
      }
    }
  }

  function CountKey(ns: seq<Notification>, n: Notification): nat {
    if ns == [] then 0 else CountKey(ns[..|ns| - 1], n) + if SameKey(ns[|ns| - 1], n) then 1 else 0
  }

  function CountSent(ps: seq<Published>, reservationId: string): nat {
    if ps == [] then 0
    else CountSent(ps[..|ps| - 1], reservationId) + if ps[|ps| - 1] == NotificationSent(reservationId) then 1 else 0
  }

  /** The machine's state accounts for all the worker did. */
  ghost predicate Accounts(t: Effects, s: System, n: Notification) {
    && s.rows == t.rows && Idle(s.jobs) && GrpcCalls(s.jobs, n) == 0
    && Publications(s.jobs, n) == CountSent(t.published, n.reservationId)
    && AllSends(false, s.jobs, n) >= CountKey(t.sends, n)
  }

  lemma {:induction false} CountsSnoc(jobs: seq<Job>, job: Job, n: Notification)
    requires job.origin == Kafka
    ensures GrpcCalls(jobs + [job], n) == GrpcCalls(jobs, n)
    ensures Publications(jobs + [job], n) == Publications(jobs, n) + if SameKey(job.n, n) && job.published then 1 else 0
    ensures AllSends(false, jobs + [job], n) ==
            AllSends(false, jobs, n) + if SameKey(job.n, n) && job.sent then 1 else 0
  {
    assert (jobs + [job])[..|jobs|] == jobs;
  }

  lemma TellCounts(ps: seq<Published>, p: Published, works: bool, reservationId: string)
    ensures CountSent(Tell(ps, p, works), reservationId) ==
            CountSent(ps, reservationId) + if works && p == NotificationSent(reservationId) then 1 else 0
  {
    assert (ps + [p])[..|ps|] == ps;
  }

  lemma {:induction false} KeySnoc(ns: seq<Notification>, last: Notification, n: Notification)
    ensures CountKey(ns + [last], n) == CountKey(ns, n) + if SameKey(last, n) then 1 else 0
  {
    assert (ns + [last])[..|ns|] == ns;
  }

  /** What one confirmation adds to the counts, on either side. */
  predicate Gains(t: Effects, u: Effects, job: Job, n: Notification) {
    && CountSent(u.published, n.reservationId) ==
       CountSent(t.published, n.reservationId) + (if SameKey(job.n, n) && job.published then 1 else 0)
    && CountKey(u.sends, n) <= CountKey(t.sends, n) + if SameKey(job.n, n) && job.sent then 1 else 0
  }

  lemma HandleGains(hasSender: bool, t: Effects, d: Delivered, n: Notification)
    requires d.event.Confirmation? && n.tipo == CONFIRMACION
    ensures Gains(t, Handle(hasSender, t, d), JobOf(t.rows, Wanted(d.event), d.luck), n)
  {
    TellCounts(t.published, NotificationFailed, d.luck.producerWorks, n.reservationId);
    TellCounts(t.published, NotificationSent(d.event.reservationId), d.luck.producerWorks, n.reservationId);
    KeySnoc(t.sends, Wanted(d.event), n);
  }

  lemma AccountsGain(t: Effects, u: Effects, s: System, job: Job, n: Notification)
    requires Accounts(t, s, n) && Gains(t, u, job, n) && job.stage == Over && job.origin == Kafka
    ensures Accounts(u, System(u.rows, s.jobs + [job]), n)
  {
    CountsSnoc(s.jobs, job, n);
  }

  lemma AccountsStep(hasSender: bool, t: Effects, d: Delivered, s: System, n: Notification)
    requires Accounts(t, s, n) && n.tipo == CONFIRMACION
    ensures d.event.Confirmation? ==>
              Accounts(Handle(hasSender, t, d),
                       System(Handle(hasSender, t, d).rows, s.jobs + [JobOf(t.rows, Wanted(d.event), d.luck)]), n)
    ensures !d.event.Confirmation? ==> Accounts(Handle(hasSender, t, d), s, n)
  {
    if d.event.Confirmation? {
      HandleGains(hasSender, t, d, n);
      AccountsGain(t, Handle(hasSender, t, d), s, JobOf(t.rows, Wanted(d.event), d.luck), n);
    } else {
      TellCounts(t.published, NotificationFailed, d.luck.producerWorks, n.reservationId);
    }
  }

  lemma {:induction false} WorkerIsRun(hasSender: bool, owner: string -> string, ds: seq<Delivered>, n: Notification)
    returns (actions: seq<Action>)
    requires Owned(owner, ds) && n.tipo == CONFIRMACION
    ensures AllOwned(owner, actions)
    ensures Accounts(HandleAll(hasSender, NOTHING, ds), Run(false, actions), n)
  {
    if ds == [] {
      actions := [];
    } else {
      var front, last := ds[..|ds| - 1], ds[|ds| - 1];
      assert forall k :: 0 <= k < |front| ==> front[k] == ds[k];
      actions := WorkerIsRun(hasSender, owner, front, n);
      var t := HandleAll(hasSender, NOTHING, front);
      AccountsStep(hasSender, t, last, Run(false, actions), n);
      if last.event.Confirmation? {
        actions := ConfirmationIsRun(hasSender, owner, t, last, actions, Run(false, actions).jobs);
      }
    }
  }

  /** Whatever crashes, lost commits and redeliveries the worker lives through, it sends
      a confirmation at most once and publishes NotificationSent at most once. */
  lemma SessionsSendOnce(hasSender: bool, owner: string -> string, topic: seq<Event>, ss: seq<Session>, n: Notification)
    requires n.tipo == CONFIRMACION
    requires forall k :: 0 <= k < |topic| && topic[k].Confirmation? ==> topic[k].user == owner(topic[k].reservationId)
    ensures var t := HandleAll(hasSender, NOTHING, Sessions(topic, ss).delivered);
            CountKey(t.sends, n) <= 1 && CountSent(t.published, n.reservationId) <= 1
  {
    var delivered := Sessions(topic, ss).delivered;
    forall k | 0 <= k < |delivered|
      ensures delivered[k].event in topic
    {
      AtLeastOnce(topic, ss, k);
    }
    var actions := WorkerIsRun(hasSender, owner, delivered, n);
    SentAndPublished(owner, actions, n);
  }
}
