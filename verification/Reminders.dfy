/**
 Reminders follow their reservation: a change of time supersedes the reminder before.
 */
module Reminders {
  import opened Prelude
  import B = Booking
  import S = Safety
  import F = Backfill
  import opened Messages
  import opened System
  import opened Protocol

  predicate IsReminderOf(row: Row, reservation: int) {
    row.kind == ReminderMsg && row.reservation == Some(reservation)
  }

  /** A reminder that has not been tried yet. */
  predicate Untried(row: Row) {
    row.kind == ReminderMsg && row.status == Pending && row.attempts == 0
  }

  ghost predicate RemindersLinked(f: B.Floor, q: Queue) {
    forall id :: id in q.rows && q.rows[id].kind == ReminderMsg ==>
      q.rows[id].reservation.Some? && q.rows[id].reservation.value in f.reservations
  }

  /** An untried reminder is set for the reservation's present time, and is its last reminder. */
  ghost predicate Current(cfg: Config, f: B.Floor, q: Queue, id: int, reservation: int)
    requires id in q.rows && reservation in f.reservations
  {
    && q.rows[id].at == ReminderTime(cfg, f.reservations[reservation].at, q.rows[id].queued)
    && forall j :: j in q.rows && IsReminderOf(q.rows[j], reservation) ==> j <= id
  }

  ghost predicate RemindersSound(cfg: Config, f: B.Floor, q: Queue) {
    && RemindersLinked(f, q)
    && forall id, r :: id in q.rows && r in f.reservations && Untried(q.rows[id]) && IsReminderOf(q.rows[id], r)
         ==> Current(cfg, f, q, id, r)
  }

  // ----- the three hooks

  lemma {:induction false} MessageKeepsSound(cfg: Config, f: B.Floor, q: Queue, reservation: Option<int>,
        kind: Kind, phone: string, at: int, now: int)
    requires RemindersSound(cfg, f, q) && RowsSound(cfg, q) && kind != ReminderMsg
    ensures RemindersSound(cfg, f, Enqueue(cfg, q, reservation, kind, phone, at, now))
  {
    var q' := Enqueue(cfg, q, reservation, kind, phone, at, now);
    forall id, r | id in q'.rows && r in f.reservations && Untried(q'.rows[id]) && IsReminderOf(q'.rows[id], r)
      ensures Current(cfg, f, q', id, r)
    {
      assert id in q.rows && q.rows[id] == q'.rows[id];
      assert Current(cfg, f, q, id, r);
    }
  }

  lemma {:induction false} DropKeepsSound(cfg: Config, f: B.Floor, q: Queue, reservation: int)
    requires RemindersSound(cfg, f, q)
    ensures RemindersSound(cfg, f, DropReminders(q, reservation))
    ensures forall id :: id in q.rows && IsReminderOf(q.rows[id], reservation)
              ==> DropReminders(q, reservation).rows[id].status != Pending
  {
    var q' := DropReminders(q, reservation);
    forall id, r | id in q'.rows && r in f.reservations && Untried(q'.rows[id]) && IsReminderOf(q'.rows[id], r)
      ensures Current(cfg, f, q', id, r)
    {
      assert Current(cfg, f, q, id, r);
    }
  }

  /** Without untried reminders a reservation's time may change, and gets a new reminder. */
  lemma {:induction false} AddReminderKeepsSound(cfg: Config, f: B.Floor, g: B.Floor, q: Queue, id: int, now: int)
    requires RemindersSound(cfg, f, q) && RowsSound(cfg, q)
    requires id in g.reservations
    requires forall i :: i in f.reservations && i != id ==>
               i in g.reservations && g.reservations[i].at == f.reservations[i].at
    requires forall i :: i in g.reservations && i != id ==> i in f.reservations
    requires forall j :: j in q.rows && IsReminderOf(q.rows[j], id) ==> !Untried(q.rows[j])
    ensures RemindersSound(cfg, g, AddReminder(cfg, q, id, g.reservations[id], now))
  {
    var q' := AddReminder(cfg, q, id, g.reservations[id], now);
    forall j, r | j in q'.rows && r in g.reservations && Untried(q'.rows[j]) && IsReminderOf(q'.rows[j], r)
      ensures Current(cfg, g, q', j, r)
    {
      if j in q.rows && r != id {
        assert Current(cfg, f, q, j, r);
      }
    }
  }

  /** Only a reservation's time matters to its reminders. */
  lemma {:induction false} SameTimesKeepSound(cfg: Config, f: B.Floor, g: B.Floor, q: Queue)
    requires RemindersSound(cfg, f, q)
    requires g.reservations.Keys == f.reservations.Keys
    requires forall i :: i in f.reservations ==> g.reservations[i].at == f.reservations[i].at
    ensures RemindersSound(cfg, g, q)
  {
    forall id, r | id in q.rows && r in g.reservations && Untried(q.rows[id]) && IsReminderOf(q.rows[id], r)
      ensures Current(cfg, g, q, id, r)
    {
      assert Current(cfg, f, q, id, r);
    }
  }

  // ----- steps

  lemma {:induction false} BookKeepsSound(cfg: Config, s: State, step: Step)
    requires SystemInv(cfg, s) && RemindersSound(cfg, s.floor, s.queue)
    requires cfg.maxAttempts >= 1 && step.Book? && Enabled(cfg, s, step)
    ensures RemindersSound(cfg, Apply(cfg, s, step).floor, Apply(cfg, s, step).queue)
  {
    var f, id := s.floor, s.floor.nextReservation;
    if B.Create(f, step.data, step.draws).Ok? {
      S.CreateKeepsInv(f, step.data, step.draws);
      var g := B.Create(f, step.data, step.draws).value;
      var r := g.reservations[id];
      MessageKeepsSound(cfg, f, s.queue, Some(id), CreatedMsg, r.phone, step.n1, step.n1);
      EnqueueEffect(cfg, s.queue, Some(id), CreatedMsg, r.phone, step.n1, step.n1);
      AddReminderKeepsSound(cfg, f, g, Enqueue(cfg, s.queue, Some(id), CreatedMsg, r.phone, step.n1, step.n1),
                            id, step.n2);
    }
  }

  lemma {:induction false} ChangeKeepsSound(cfg: Config, s: State, step: Step)
    requires SystemInv(cfg, s) && RemindersSound(cfg, s.floor, s.queue)
    requires cfg.maxAttempts >= 1 && step.Change? && Enabled(cfg, s, step)
    ensures RemindersSound(cfg, Apply(cfg, s, step).floor, Apply(cfg, s, step).queue)
  {
    var f, id, patch := s.floor, step.id, step.patch;
    if id in f.reservations && B.Update(f, id, patch).Ok? {
      var g := B.Update(f, id, patch).value;
      var r := g.reservations[id];
      var told := if patch.Moves() then Enqueue(cfg, s.queue, Some(id), UpdatedMsg, r.phone, step.n1, step.n1)
                  else s.queue;
      MessageKeepsSound(cfg, f, s.queue, Some(id), UpdatedMsg, r.phone, step.n1, step.n1);
      EnqueueEffect(cfg, s.queue, Some(id), UpdatedMsg, r.phone, step.n1, step.n1);
      if patch.at.Set? {
        DropKeepsSound(cfg, f, told, id);
        DropEffect(told, id);
        AddReminderKeepsSound(cfg, f, g, DropReminders(told, id), id, step.n2);
      } else {
        SameTimesKeepSound(cfg, f, g, told);
      }
    }
  }

  lemma {:induction false} CancelKeepsSound(cfg: Config, s: State, step: Step)
    requires SystemInv(cfg, s) && RemindersSound(cfg, s.floor, s.queue)
    requires step.CancelBooking? && Enabled(cfg, s, step)
    ensures RemindersSound(cfg, Apply(cfg, s, step).floor, Apply(cfg, s, step).queue)
  {
    var f, id := s.floor, step.id;
    if id in f.reservations && f.reservations[id].status == B.Confirmed {
      var r := f.reservations[id];
      var told := Enqueue(cfg, s.queue, Some(id), CancelledMsg, r.phone, step.n1, step.n1);
      MessageKeepsSound(cfg, f, s.queue, Some(id), CancelledMsg, r.phone, step.n1, step.n1);
      DropKeepsSound(cfg, f, told, id);
      SameTimesKeepSound(cfg, f, B.Cancel(f, id), DropReminders(told, id));
    }
  }

  lemma {:induction false} WorkerKeepsSound(cfg: Config, s: State, step: Step)
    requires SystemInv(cfg, s) && RemindersSound(cfg, s.floor, s.queue)
    requires step.Claiming? || step.Ack? || step.Send? || step.Crash?
    requires Enabled(cfg, s, step)
    ensures RemindersSound(cfg, Apply(cfg, s, step).floor, Apply(cfg, s, step).queue)
  {
    var f, q, q' := s.floor, s.queue, Apply(cfg, s, step).queue;
    if step.Ack? {
      assert AttemptsFit(cfg, q.rows[s.worker.batch[0]]);
    }
    forall id, r | id in q'.rows && r in f.reservations && Untried(q'.rows[id]) && IsReminderOf(q'.rows[id], r)
      ensures Current(cfg, f, q', id, r)
    {
      StepMoves(cfg, s, step, id);
      assert Current(cfg, f, q, id, r);
    }
  }

  lemma {:induction false} StepKeepsSound(cfg: Config, s: State, step: Step)
    requires SystemInv(cfg, s) && RemindersSound(cfg, s.floor, s.queue)
    requires cfg.maxAttempts >= 1 && Enabled(cfg, s, step)
    ensures RemindersSound(cfg, Apply(cfg, s, step).floor, Apply(cfg, s, step).queue)
  {
    match step {
      case Book(_, _, _, _) => BookKeepsSound(cfg, s, step);
      case Change(_, _, _, _) => ChangeKeepsSound(cfg, s, step);
      case CancelBooking(_, _) => CancelKeepsSound(cfg, s, step);
      case Assign(unassigned) =>
        F.BackfillTouchesOnly(s.floor, unassigned);
        SameTimesKeepSound(cfg, s.floor, Apply(cfg, s, step).floor, s.queue);
      case Post(reservation, phone, when, n1) =>
        MessageKeepsSound(cfg, s.floor, s.queue, reservation, CustomMsg, phone,
                          if when.Some? then when.value else n1, n1);
      case Claiming(_, _) => WorkerKeepsSound(cfg, s, step);
      case Ack(_) => WorkerKeepsSound(cfg, s, step);
      case Send(_) => WorkerKeepsSound(cfg, s, step);
      case Crash => WorkerKeepsSound(cfg, s, step);
      case _ => SameTimesKeepSound(cfg, s.floor, Apply(cfg, s, step).floor, s.queue);
    }
  }

  // ----- runs

  lemma {:induction false} RunKeepsSound(cfg: Config, s: State, steps: seq<Step>)
    requires cfg.maxAttempts >= 1
    requires Initial(s) && Legal(cfg, s, steps)
    ensures RemindersSound(cfg, Run(cfg, s, steps).floor, Run(cfg, s, steps).queue)
  {
    if steps != [] {
      var init := steps[..|steps| - 1];
      RunKeepsSound(cfg, s, init);
      RunKeepsInv(cfg, s, init);
      StepKeepsSound(cfg, Run(cfg, s, init), steps[|steps| - 1]);
    }
  }

  /** A reservation has at most one untried reminder; it is set for the present time and is the last one made. */
  lemma {:induction false} OneCurrentReminder(cfg: Config, s: State, steps: seq<Step>,
        reservation: int, id: int, other: int)
    requires cfg.maxAttempts >= 1
    requires Initial(s) && Legal(cfg, s, steps)
    requires var q := Run(cfg, s, steps).queue;
      && id in q.rows && Untried(q.rows[id]) && IsReminderOf(q.rows[id], reservation)
      && other in q.rows && IsReminderOf(q.rows[other], reservation)
    ensures var t := Run(cfg, s, steps);
      && reservation in t.floor.reservations
      && t.queue.rows[id].at == Max(t.floor.reservations[reservation].at - cfg.lead, t.queue.rows[id].queued)
      && other <= id
      && (Untried(t.queue.rows[other]) ==> other == id)
  {
    RunKeepsSound(cfg, s, steps);
    var t := Run(cfg, s, steps);
    assert Current(cfg, t.floor, t.queue, id, reservation);
    if Untried(t.queue.rows[other]) {
      assert Current(cfg, t.floor, t.queue, other, reservation);
    }
  }

  /** No reminder goes out for the first time before the lead time of the reservation as it stands then. */
  lemma {:induction false} FirstReminderNotEarly(cfg: Config, s: State, steps: seq<Step>, claim: Step, id: int)
    requires cfg.maxAttempts >= 1
    requires Initial(s) && Legal(cfg, s, steps)
    requires claim.Claiming? && Enabled(cfg, Run(cfg, s, steps), claim) && id in claim.order
    requires id in Run(cfg, s, steps).queue.rows
    requires Run(cfg, s, steps).queue.rows[id].kind == ReminderMsg && Run(cfg, s, steps).queue.rows[id].attempts == 0
    ensures var t := Run(cfg, s, steps);
      var r := t.queue.rows[id].reservation;
      && r.Some? && r.value in t.floor.reservations
      && claim.n1 >= t.floor.reservations[r.value].at - cfg.lead
      && claim.n1 >= t.queue.rows[id].queued
  {
    var t := Run(cfg, s, steps);
    RunKeepsSound(cfg, s, steps);
    ClaimTakesDueRows(cfg, t, claim.order, claim.n1);
    OneCurrentReminder(cfg, s, steps, t.queue.rows[id].reservation.value, id, id);
  }

  // ----- cancelled reservations

  predicate ReminderPending(q: Queue, reservation: int) {
    exists id :: id in q.rows && PendingReminder(q.rows[id], reservation)
  }

  /** Cancelling a confirmed reservation leaves it without a pending reminder. */
  lemma {:induction false} CancelSilencesReminders(cfg: Config, s: State, step: Step)
    requires step.CancelBooking? && step.id in s.floor.reservations
    requires s.floor.reservations[step.id].status == B.Confirmed
    ensures !ReminderPending(Apply(cfg, s, step).queue, step.id)
  {
  }

  /** The steps that give a silent reservation a pending reminder again. */
  ghost predicate Revives(cfg: Config, s: State, step: Step, reservation: int) {
    || (&& step.Change? && step.id == reservation && step.patch.at.Set? && !cfg.suppress
        && reservation in s.floor.reservations && B.Update(s.floor, reservation, step.patch).Ok?)
    || (&& step.Ack? && s.worker.sent == Some(false) && s.worker.batch != []
        && s.worker.batch[0] in s.queue.rows
        && IsReminderOf(s.queue.rows[s.worker.batch[0]], reservation)
        && s.queue.rows[s.worker.batch[0]].attempts < cfg.maxAttempts)
  }

  lemma {:induction false} EnqueueRevives(cfg: Config, q: Queue, reservation: Option<int>, kind: Kind,
        phone: string, at: int, now: int, r: int)
    requires forall id :: id in q.rows ==> id < q.next
    ensures ReminderPending(Enqueue(cfg, q, reservation, kind, phone, at, now), r)
      <==> (ReminderPending(q, r) || (kind == ReminderMsg && reservation == Some(r) && !cfg.suppress))
  {
    var q' := Enqueue(cfg, q, reservation, kind, phone, at, now);
    if id :| id in q.rows && PendingReminder(q.rows[id], r) {
      assert id in q'.rows && q'.rows[id] == q.rows[id];
    }
    if kind == ReminderMsg && reservation == Some(r) && !cfg.suppress {
      assert q.next in q'.rows && PendingReminder(q'.rows[q.next], r);
    }
    if id :| id in q'.rows && PendingReminder(q'.rows[id], r) {
      assert id == q.next || (id in q.rows && q'.rows[id] == q.rows[id]);
    }
  }

  lemma {:induction false} DropRevives(q: Queue, reservation: int, r: int)
    ensures ReminderPending(DropReminders(q, reservation), r) <==> (ReminderPending(q, r) && r != reservation)
  {
    var q' := DropReminders(q, reservation);
    if id :| id in q.rows && PendingReminder(q.rows[id], r) {
      assert id in q'.rows;
      assert r != reservation ==> q'.rows[id] == q.rows[id];
    }
    if id :| id in q'.rows && PendingReminder(q'.rows[id], r) {
      assert id in q.rows && q'.rows[id] == q.rows[id];
    }
  }

  lemma {:induction false} ChangeRevives(cfg: Config, q: Queue, id: int, r: B.Reservation,
        patch: B.ReservationPatch, n1: int, n2: int, reservation: int)
    requires RowsSound(cfg, q)
    ensures ReminderPending(AfterChange(cfg, q, id, r, patch, n1, n2), reservation)
      <==> if patch.at.Set? && id == reservation then !cfg.suppress else ReminderPending(q, reservation)
  {
    var told := if patch.Moves() then Enqueue(cfg, q, Some(id), UpdatedMsg, r.phone, n1, n1) else q;
    EnqueueEffect(cfg, q, Some(id), UpdatedMsg, r.phone, n1, n1);
    EnqueueRevives(cfg, q, Some(id), UpdatedMsg, r.phone, n1, n1, reservation);
    DropEffect(told, id);
    DropRevives(told, id, reservation);
    EnqueueRevives(cfg, DropReminders(told, id), Some(id), ReminderMsg, r.phone, ReminderTime(cfg, r.at, n2), n2,
                   reservation);
  }

  lemma {:induction false} BookingRevives(cfg: Config, q: Queue, id: int, r: B.Reservation,
        n1: int, n2: int, reservation: int)
    requires RowsSound(cfg, q) && id != reservation
    ensures ReminderPending(AfterBooking(cfg, q, id, r, n1, n2), reservation) <==> ReminderPending(q, reservation)
  {
    EnqueueEffect(cfg, q, Some(id), CreatedMsg, r.phone, n1, n1);
    EnqueueRevives(cfg, q, Some(id), CreatedMsg, r.phone, n1, n1, reservation);
    EnqueueRevives(cfg, Enqueue(cfg, q, Some(id), CreatedMsg, r.phone, n1, n1), Some(id), ReminderMsg, r.phone,
                   ReminderTime(cfg, r.at, n2), n2, reservation);
  }

  lemma {:induction false} CancelRevives(cfg: Config, q: Queue, id: int, r: B.Reservation, n1: int, reservation: int)
    requires RowsSound(cfg, q)
    ensures ReminderPending(AfterCancel(cfg, q, id, r, n1), reservation)
      <==> (ReminderPending(q, reservation) && id != reservation)
  {
    EnqueueRevives(cfg, q, Some(id), CancelledMsg, r.phone, n1, n1, reservation);
    DropRevives(Enqueue(cfg, q, Some(id), CancelledMsg, r.phone, n1, n1), id, reservation);
  }

  lemma {:induction false} CrudRevives(cfg: Config, s: State, step: Step, reservation: int)
    requires SystemInv(cfg, s) && Enabled(cfg, s, step) && IsCrud(step)
    requires reservation in s.floor.reservations && !ReminderPending(s.queue, reservation)
    ensures ReminderPending(Apply(cfg, s, step).queue, reservation) <==> Revives(cfg, s, step, reservation)
  {
    match step {
      case Book(data, draws, n1, n2) =>
        if B.Create(s.floor, data, draws).Ok? {
          var id := s.floor.nextReservation;
          BookingRevives(cfg, s.queue, id, B.Create(s.floor, data, draws).value.reservations[id], n1, n2, reservation);
        }
      case Change(id, patch, n1, n2) =>
        if id in s.floor.reservations && B.Update(s.floor, id, patch).Ok? {
          ChangeRevives(cfg, s.queue, id, B.Update(s.floor, id, patch).value.reservations[id], patch, n1, n2,
                        reservation);
        }
      case CancelBooking(id, n1) =>
        if id in s.floor.reservations {
          CancelRevives(cfg, s.queue, id, B.Cancel(s.floor, id).reservations[id], n1, reservation);
        }
      case Post(r, phone, when, n1) =>
        EnqueueRevives(cfg, s.queue, r, CustomMsg, phone, if when.Some? then when.value else n1, n1, reservation);
      case _ =>
    }
  }

  lemma {:induction false} AckRevives(cfg: Config, s: State, step: Step, reservation: int)
    requires WorkerSound(s.queue, s.worker) && Enabled(cfg, s, step) && step.Ack?
    requires !ReminderPending(s.queue, reservation)
    ensures ReminderPending(Apply(cfg, s, step).queue, reservation) <==> Revives(cfg, s, step, reservation)
  {
    var q, q' := s.queue, Apply(cfg, s, step).queue;
    var head := s.worker.batch[0];
    assert head in q.rows;
    forall id | id in q'.rows && id != head ensures !PendingReminder(q'.rows[id], reservation) {
      assert !PendingReminder(q.rows[id], reservation);
    }
    assert ReminderPending(q', reservation) <==> PendingReminder(q'.rows[head], reservation);
    assert q.rows[head].status == InFlight;
    assert s.worker.sent == Some(s.worker.sent.value);
    if s.worker.sent.value {
      assert q'.rows[head].status == Sent;
    } else {
      assert q' == MarkFailedOrRetry(q, head, cfg.maxAttempts, step.n1);
    }
  }

  /**
   A cancelled reservation does not stay silent for ever: what revives its reminder is a patch of
   its time, or the failure of a reminder that was in flight, and nothing else.
   */
  lemma {:induction false} RevivedExactlyBy(cfg: Config, s: State, step: Step, reservation: int)
    requires SystemInv(cfg, s) && Enabled(cfg, s, step)
    requires reservation in s.floor.reservations && !ReminderPending(s.queue, reservation)
    ensures ReminderPending(Apply(cfg, s, step).queue, reservation) <==> Revives(cfg, s, step, reservation)
  {
    if IsCrud(step) {
      CrudRevives(cfg, s, step, reservation);
    } else if step.Ack? {
      AckRevives(cfg, s, step, reservation);
    } else {
      var q, q' := s.queue, Apply(cfg, s, step).queue;
      forall id | id in q'.rows ensures !PendingReminder(q'.rows[id], reservation) {
        assert !PendingReminder(q.rows[id], reservation);
      }
    }
  }
}
