/**
 Who is told what: over any run the queue gets exactly one message for every event that
 calls for one, and the newest reminder of a confirmed reservation is never a cancelled one.
 */
module Announcements {
  import opened Prelude
  import B = Booking
  import F = Backfill
  import opened Messages
  import opened System
  import opened Protocol
  import opened Reminders

  // ----- events

  ghost predicate Books(s: State, step: Step, reservation: int) {
    step.Book? && reservation == s.floor.nextReservation && B.Create(s.floor, step.data, step.draws).Ok?
  }

  ghost predicate Patches(s: State, step: Step, reservation: int) {
    && step.Change? && step.id == reservation && reservation in s.floor.reservations
    && B.Update(s.floor, reservation, step.patch).Ok?
  }

  predicate Cancels(s: State, step: Step, reservation: int) {
    && step.CancelBooking? && step.id == reservation && reservation in s.floor.reservations
    && s.floor.reservations[reservation].status == B.Confirmed
  }

  /** What happens to the reservation in this step calls for a message of this kind. */
  ghost predicate Calls(s: State, step: Step, reservation: int, kind: Kind) {
    match kind
    case CreatedMsg => Books(s, step, reservation)
    case UpdatedMsg =>
      Patches(s, step, reservation) && (step.patch.party.Set? || step.patch.at.Set? || step.patch.table.Set?)
    case CancelledMsg => Cancels(s, step, reservation)
    case ReminderMsg => Books(s, step, reservation) || (Patches(s, step, reservation) && step.patch.at.Set?)
    case CustomMsg => step.Post? && step.reservation == Some(reservation) && reservation in s.floor.reservations
  }

  /** How many messages of this kind the run calls for. */
  ghost function Owed(cfg: Config, s: State, steps: seq<Step>, reservation: int, kind: Kind): nat {
    if steps == [] || (cfg.suppress && kind != CustomMsg) then 0
    else
      var init, last := steps[..|steps| - 1], steps[|steps| - 1];
      Owed(cfg, s, init, reservation, kind) + if Calls(Run(cfg, s, init), last, reservation, kind) then 1 else 0
  }

  // ----- one message for each event

  /** The messages of one kind that a reservation has had, whatever became of them. */
  function MessagesOf(q: Queue, reservation: int, kind: Kind): set<int> {
    set id | id in q.rows && q.rows[id].reservation == Some(reservation) && q.rows[id].kind == kind
  }

  lemma {:induction false} EnqueueAdds(cfg: Config, q: Queue, about: Option<int>, of: Kind, phone: string,
        at: int, now: int, reservation: int, kind: Kind)
    requires forall id :: id in q.rows ==> id < q.next
    ensures MessagesOf(Enqueue(cfg, q, about, of, phone, at, now), reservation, kind)
      == MessagesOf(q, reservation, kind)
         + if !Suppressed(cfg, of) && of == kind && about == Some(reservation) then {q.next} else {}
    ensures q.next !in MessagesOf(q, reservation, kind)
  {
  }

  lemma {:induction false} EnqueueAddsOne(cfg: Config, q: Queue, about: Option<int>, of: Kind, phone: string,
        at: int, now: int, reservation: int, kind: Kind)
    requires forall id :: id in q.rows ==> id < q.next
    ensures |MessagesOf(Enqueue(cfg, q, about, of, phone, at, now), reservation, kind)|
      == |MessagesOf(q, reservation, kind)|
         + if !Suppressed(cfg, of) && of == kind && about == Some(reservation) then 1 else 0
  {
    EnqueueAdds(cfg, q, about, of, phone, at, now, reservation, kind);
    var had := MessagesOf(q, reservation, kind);
    assert |had + {q.next}| == |had| + 1;
    assert had + {} == had;
  }

  lemma {:induction false} DropAddsNone(q: Queue, dropped: int, reservation: int, kind: Kind)
    ensures MessagesOf(DropReminders(q, dropped), reservation, kind) == MessagesOf(q, reservation, kind)
  {
  }

  lemma {:induction false} BookingAdds(cfg: Config, q: Queue, id: int, r: B.Reservation, n1: int,
        n2: int, reservation: int, kind: Kind)
    requires RowsSound(cfg, q)
    ensures |MessagesOf(AfterBooking(cfg, q, id, r, n1, n2), reservation, kind)|
      == |MessagesOf(q, reservation, kind)|
         + if !Suppressed(cfg, kind) && kind in {CreatedMsg, ReminderMsg} && id == reservation then 1 else 0
  {
    EnqueueEffect(cfg, q, Some(id), CreatedMsg, r.phone, n1, n1);
    EnqueueAddsOne(cfg, q, Some(id), CreatedMsg, r.phone, n1, n1, reservation, kind);
    EnqueueAddsOne(cfg, Enqueue(cfg, q, Some(id), CreatedMsg, r.phone, n1, n1), Some(id), ReminderMsg, r.phone,
                   ReminderTime(cfg, r.at, n2), n2, reservation, kind);
  }

  lemma {:induction false} ChangeAdds(cfg: Config, q: Queue, id: int, r: B.Reservation, patch: B.ReservationPatch,
        n1: int, n2: int, reservation: int, kind: Kind)
    requires RowsSound(cfg, q)
    ensures |MessagesOf(AfterChange(cfg, q, id, r, patch, n1, n2), reservation, kind)|
      == |MessagesOf(q, reservation, kind)|
         + if !Suppressed(cfg, kind) && id == reservation
              && ((kind == UpdatedMsg && patch.Moves()) || (kind == ReminderMsg && patch.at.Set?)) then 1 else 0
  {
    var told := if patch.Moves() then Enqueue(cfg, q, Some(id), UpdatedMsg, r.phone, n1, n1) else q;
    EnqueueEffect(cfg, q, Some(id), UpdatedMsg, r.phone, n1, n1);
    EnqueueAddsOne(cfg, q, Some(id), UpdatedMsg, r.phone, n1, n1, reservation, kind);
    DropEffect(told, id);
    DropAddsNone(told, id, reservation, kind);
    EnqueueAddsOne(cfg, DropReminders(told, id), Some(id), ReminderMsg, r.phone, ReminderTime(cfg, r.at, n2), n2,
                   reservation, kind);
  }

  lemma {:induction false} CancelAdds(cfg: Config, q: Queue, id: int, r: B.Reservation,
        n1: int, reservation: int, kind: Kind)
    requires RowsSound(cfg, q)
    ensures |MessagesOf(AfterCancel(cfg, q, id, r, n1), reservation, kind)|
      == |MessagesOf(q, reservation, kind)|
         + if !Suppressed(cfg, kind) && kind == CancelledMsg && id == reservation then 1 else 0
  {
    EnqueueAddsOne(cfg, q, Some(id), CancelledMsg, r.phone, n1, n1, reservation, kind);
    DropAddsNone(Enqueue(cfg, q, Some(id), CancelledMsg, r.phone, n1, n1), id, reservation, kind);
  }

  lemma {:induction false} CrudAddsWhatIsCalledFor(cfg: Config, s: State, step: Step, reservation: int, kind: Kind)
    requires RowsSound(cfg, s.queue) && IsCrud(step)
    ensures |MessagesOf(Apply(cfg, s, step).queue, reservation, kind)| == |MessagesOf(s.queue, reservation, kind)|
      + if !Suppressed(cfg, kind) && Calls(s, step, reservation, kind) then 1 else 0
  {
    match step {
      case Book(data, draws, n1, n2) =>
        if B.Create(s.floor, data, draws).Ok? {
          var id := s.floor.nextReservation;
          BookingAdds(cfg, s.queue, id, B.Create(s.floor, data, draws).value.reservations[id], n1, n2,
                      reservation, kind);
        }
      case Change(id, patch, n1, n2) =>
        if id in s.floor.reservations && B.Update(s.floor, id, patch).Ok? {
          ChangeAdds(cfg, s.queue, id, B.Update(s.floor, id, patch).value.reservations[id], patch, n1, n2,
                     reservation, kind);
        }
      case CancelBooking(id, n1) =>
        if id in s.floor.reservations {
          CancelAdds(cfg, s.queue, id, B.Cancel(s.floor, id).reservations[id], n1, reservation, kind);
        }
      case Post(about, phone, when, n1) =>
        EnqueueAddsOne(cfg, s.queue, about, CustomMsg, phone, if when.Some? then when.value else n1, n1,
                       reservation, kind);
      case _ =>
    }
  }

  lemma {:induction false} StepAddsWhatIsCalledFor(cfg: Config, s: State, step: Step, reservation: int, kind: Kind)
    requires RowsSound(cfg, s.queue) && WorkerSound(s.queue, s.worker) && Enabled(cfg, s, step)
    ensures |MessagesOf(Apply(cfg, s, step).queue, reservation, kind)| == |MessagesOf(s.queue, reservation, kind)|
      + if !Suppressed(cfg, kind) && Calls(s, step, reservation, kind) then 1 else 0
  {
    if IsCrud(step) {
      CrudAddsWhatIsCalledFor(cfg, s, step, reservation, kind);
    } else {
      assert MessagesOf(Apply(cfg, s, step).queue, reservation, kind) == MessagesOf(s.queue, reservation, kind);
    }
  }

  /** Over any run a reservation gets exactly one message for each event that calls for one. */
  lemma {:induction false} OneMessagePerEvent(cfg: Config, s: State, steps: seq<Step>, reservation: int, kind: Kind)
    requires cfg.maxAttempts >= 1
    requires SystemInv(cfg, s) && Legal(cfg, s, steps)
    ensures |MessagesOf(Run(cfg, s, steps).queue, reservation, kind)|
      == |MessagesOf(s.queue, reservation, kind)| + Owed(cfg, s, steps, reservation, kind)
  {
    if steps != [] {
      var init := steps[..|steps| - 1];
      OneMessagePerEvent(cfg, s, init, reservation, kind);
      RunKeepsInv(cfg, s, init);
      StepAddsWhatIsCalledFor(cfg, Run(cfg, s, init), steps[|steps| - 1], reservation, kind);
    }
  }

  lemma {:induction false} ChangeAddresses(cfg: Config, q: Queue, about: int, r: B.Reservation,
        patch: B.ReservationPatch, n1: int, n2: int, id: int)
    requires RowsSound(cfg, q)
    requires id in AfterChange(cfg, q, about, r, patch, n1, n2).rows && id !in q.rows
    ensures var row := AfterChange(cfg, q, about, r, patch, n1, n2).rows[id];
      && row.reservation == Some(about) && row.phone == r.phone && row.status == Pending && row.attempts == 0
      && ((row.kind == UpdatedMsg && patch.Moves() && row.at == row.queued == n1)
          || (row.kind == ReminderMsg && patch.at.Set? && row.at == ReminderTime(cfg, r.at, n2) && row.queued == n2))
  {
  }

  /**
   A message about a reservation goes to the phone it has after the event, at the time of the event,
   or, if a reminder, the lead time ahead of the reservation, if that is still to come.
   */
  lemma {:induction false} MessagesAreAddressed(cfg: Config, s: State, step: Step, id: int)
    requires SystemInv(cfg, s) && Enabled(cfg, s, step)
    requires id in Apply(cfg, s, step).queue.rows && id !in s.queue.rows
    ensures var t := Apply(cfg, s, step);
      var row := t.queue.rows[id];
      && s.now <= row.queued <= t.now && row.status == Pending && row.attempts == 0
      && (row.kind != CustomMsg ==>
            && row.reservation.Some? && row.reservation.value in t.floor.reservations
            && Calls(s, step, row.reservation.value, row.kind)
            && var r := t.floor.reservations[row.reservation.value];
               row.phone == r.phone
               && row.at == if row.kind == ReminderMsg then Max(r.at - cfg.lead, row.queued) else row.queued)
  {
    if step.Change? && step.id in s.floor.reservations && B.Update(s.floor, step.id, step.patch).Ok? {
      var r := B.Update(s.floor, step.id, step.patch).value.reservations[step.id];
      ChangeAddresses(cfg, s.queue, step.id, r, step.patch, step.n1, step.n2, id);
    }
  }

  // ----- the two events that happen once

  predicate IsCancelled(f: B.Floor, reservation: int) {
    reservation in f.reservations && f.reservations[reservation].status == B.Cancelled
  }

  /** What a step does to the existence and the cancellation of a reservation. */
  ghost predicate Lives(s: State, step: Step, after: B.Floor, reservation: int) {
    && (reservation in after.reservations <==> reservation in s.floor.reservations || Books(s, step, reservation))
    && (IsCancelled(after, reservation) <==> IsCancelled(s.floor, reservation) || Cancels(s, step, reservation))
  }

  lemma {:induction false} BookLife(cfg: Config, s: State, step: Step, reservation: int)
    requires step.Book? && s.floor.nextReservation !in s.floor.reservations
    ensures Lives(s, step, Apply(cfg, s, step).floor, reservation)
  {
  }

  lemma {:induction false} ChangeLife(cfg: Config, s: State, step: Step, reservation: int)
    requires step.Change?
    ensures Lives(s, step, Apply(cfg, s, step).floor, reservation)
  {
  }

  lemma {:induction false} CancelLife(cfg: Config, s: State, step: Step, reservation: int)
    requires step.CancelBooking?
    ensures Lives(s, step, Apply(cfg, s, step).floor, reservation)
  {
  }

  lemma {:induction false} AssignLife(cfg: Config, s: State, step: Step, reservation: int)
    requires step.Assign?
    ensures Lives(s, step, Apply(cfg, s, step).floor, reservation)
  {
    F.BackfillTouchesOnly(s.floor, step.unassigned);
  }

  lemma {:induction false} OtherLife(cfg: Config, s: State, step: Step, reservation: int)
    requires !step.Book? && !step.Change? && !step.CancelBooking? && !step.Assign?
    ensures Lives(s, step, Apply(cfg, s, step).floor, reservation)
  {
    assert Apply(cfg, s, step).floor.reservations == s.floor.reservations;
  }

  /** A reservation exists from its booking on, and is cancelled from its cancellation on. */
  lemma {:induction false} LifeStep(cfg: Config, s: State, step: Step, reservation: int)
    requires SystemInv(cfg, s) && Enabled(cfg, s, step)
    ensures Lives(s, step, Apply(cfg, s, step).floor, reservation)
    ensures !(reservation in s.floor.reservations && Books(s, step, reservation))
  {
    assert s.floor.nextReservation !in s.floor.reservations;
    match step {
      case Book(_, _, _, _) => BookLife(cfg, s, step, reservation);
      case Change(_, _, _, _) => ChangeLife(cfg, s, step, reservation);
      case CancelBooking(_, _) => CancelLife(cfg, s, step, reservation);
      case Assign(_) => AssignLife(cfg, s, step, reservation);
      case _ => OtherLife(cfg, s, step, reservation);
    }
  }

  lemma {:induction false} LifeSoFar(cfg: Config, s: State, steps: seq<Step>, reservation: int)
    requires cfg.maxAttempts >= 1 && !cfg.suppress
    requires SystemInv(cfg, s) && Legal(cfg, s, steps)
    ensures var f, g := s.floor, Run(cfg, s, steps).floor;
      && (reservation in f.reservations ==> reservation in g.reservations)
      && (IsCancelled(f, reservation) ==> IsCancelled(g, reservation))
      && Owed(cfg, s, steps, reservation, CreatedMsg)
           == (if reservation in g.reservations && reservation !in f.reservations then 1 else 0)
      && Owed(cfg, s, steps, reservation, CancelledMsg)
           == (if IsCancelled(g, reservation) && !IsCancelled(f, reservation) then 1 else 0)
  {
    if steps != [] {
      var init := steps[..|steps| - 1];
      LifeSoFar(cfg, s, init, reservation);
      RunKeepsInv(cfg, s, init);
      LifeStep(cfg, Run(cfg, s, init), steps[|steps| - 1], reservation);
    }
  }

  /** A customer is told once that the table is booked and, if it comes to that, once that it is cancelled. */
  lemma {:induction false} BookedAndCancelledOnce(cfg: Config, s: State, steps: seq<Step>, reservation: int)
    requires cfg.maxAttempts >= 1 && !cfg.suppress
    requires Initial(s) && Legal(cfg, s, steps)
    ensures var t := Run(cfg, s, steps);
      && |MessagesOf(t.queue, reservation, CreatedMsg)|
           == (if reservation in t.floor.reservations && reservation !in s.floor.reservations then 1 else 0)
      && |MessagesOf(t.queue, reservation, CancelledMsg)|
           == (if IsCancelled(t.floor, reservation) && !IsCancelled(s.floor, reservation) then 1 else 0)
  {
    LifeSoFar(cfg, s, steps, reservation);
    OneMessagePerEvent(cfg, s, steps, reservation, CreatedMsg);
    OneMessagePerEvent(cfg, s, steps, reservation, CancelledMsg);
    assert forall kind :: MessagesOf(s.queue, reservation, kind) == {};
  }

  // ----- no confirmed reservation is without a reminder

  /** Row `id` is the newest reminder of the reservation, and has not been cancelled. */
  ghost predicate Reminds(q: Queue, reservation: int, id: int) {
    && id in q.rows && IsReminderOf(q.rows[id], reservation) && q.rows[id].status != Dropped
    && forall j :: j in q.rows && IsReminderOf(q.rows[j], reservation) ==> j <= id
  }

  /** The newest reminder is waiting, on its way, sent, or given up: anything but cancelled. */
  ghost predicate HasReminder(q: Queue, reservation: int) {
    exists id :: Reminds(q, reservation, id)
  }

  ghost predicate Covered(f: B.Floor, q: Queue) {
    forall r :: r in f.reservations && f.reservations[r].status == B.Confirmed ==> HasReminder(q, r)
  }

  lemma {:induction false} EnqueueCovers(cfg: Config, q: Queue, about: Option<int>, kind: Kind,
        phone: string, at: int, now: int, reservation: int)
    requires forall id :: id in q.rows ==> id < q.next
    ensures var q' := Enqueue(cfg, q, about, kind, phone, at, now);
      HasReminder(q', reservation)
      <==> HasReminder(q, reservation) || (!cfg.suppress && kind == ReminderMsg && about == Some(reservation))
  {
    var q' := Enqueue(cfg, q, about, kind, phone, at, now);
    if !cfg.suppress && kind == ReminderMsg && about == Some(reservation) {
      assert Reminds(q', reservation, q.next);
    } else {
      forall id ensures Reminds(q', reservation, id) <==> Reminds(q, reservation, id) {
        assert forall j :: j in q'.rows && IsReminderOf(q'.rows[j], reservation)
                       <==> j in q.rows && IsReminderOf(q.rows[j], reservation);
      }
    }
  }

  lemma {:induction false} DropSparesOthers(q: Queue, dropped: int, reservation: int)
    requires dropped != reservation && HasReminder(q, reservation)
    ensures HasReminder(DropReminders(q, dropped), reservation)
  {
    var id :| Reminds(q, reservation, id);
    assert Reminds(DropReminders(q, dropped), reservation, id);
  }

  lemma {:induction false} BookingCovers(cfg: Config, q: Queue, id: int, r: B.Reservation,
        n1: int, n2: int, reservation: int)
    requires RowsSound(cfg, q) && !cfg.suppress
    requires id == reservation || HasReminder(q, reservation)
    ensures HasReminder(AfterBooking(cfg, q, id, r, n1, n2), reservation)
  {
    EnqueueEffect(cfg, q, Some(id), CreatedMsg, r.phone, n1, n1);
    EnqueueCovers(cfg, q, Some(id), CreatedMsg, r.phone, n1, n1, reservation);
    EnqueueCovers(cfg, Enqueue(cfg, q, Some(id), CreatedMsg, r.phone, n1, n1), Some(id), ReminderMsg, r.phone,
                  ReminderTime(cfg, r.at, n2), n2, reservation);
  }

  lemma {:induction false} ChangeCovers(cfg: Config, q: Queue, id: int, r: B.Reservation,
        patch: B.ReservationPatch, n1: int, n2: int, reservation: int)
    requires RowsSound(cfg, q) && !cfg.suppress
    requires HasReminder(q, reservation)
    ensures HasReminder(AfterChange(cfg, q, id, r, patch, n1, n2), reservation)
  {
    var told := if patch.Moves() then Enqueue(cfg, q, Some(id), UpdatedMsg, r.phone, n1, n1) else q;
    EnqueueEffect(cfg, q, Some(id), UpdatedMsg, r.phone, n1, n1);
    EnqueueCovers(cfg, q, Some(id), UpdatedMsg, r.phone, n1, n1, reservation);
    DropEffect(told, id);
    if id != reservation {
      DropSparesOthers(told, id, reservation);
    }
    EnqueueCovers(cfg, DropReminders(told, id), Some(id), ReminderMsg, r.phone, ReminderTime(cfg, r.at, n2), n2,
                  reservation);
  }

  lemma {:induction false} CancelCovers(cfg: Config, q: Queue, id: int, r: B.Reservation, n1: int, reservation: int)
    requires RowsSound(cfg, q) && id != reservation && HasReminder(q, reservation)
    ensures HasReminder(AfterCancel(cfg, q, id, r, n1), reservation)
  {
    EnqueueCovers(cfg, q, Some(id), CancelledMsg, r.phone, n1, n1, reservation);
    DropSparesOthers(Enqueue(cfg, q, Some(id), CancelledMsg, r.phone, n1, n1), id, reservation);
  }

  lemma {:induction false} CrudCovers(cfg: Config, s: State, step: Step, reservation: int)
    requires SystemInv(cfg, s) && IsCrud(step) && !cfg.suppress
    requires Books(s, step, reservation) || (HasReminder(s.queue, reservation) && !Cancels(s, step, reservation))
    ensures HasReminder(Apply(cfg, s, step).queue, reservation)
  {
    match step {
      case Book(data, draws, n1, n2) =>
        if B.Create(s.floor, data, draws).Ok? {
          var id := s.floor.nextReservation;
          BookingCovers(cfg, s.queue, id, B.Create(s.floor, data, draws).value.reservations[id], n1, n2, reservation);
        }
      case Change(id, patch, n1, n2) =>
        if id in s.floor.reservations && B.Update(s.floor, id, patch).Ok? {
          ChangeCovers(cfg, s.queue, id, B.Update(s.floor, id, patch).value.reservations[id], patch, n1, n2,
                       reservation);
        }
      case CancelBooking(id, n1) =>
        if id in s.floor.reservations && s.floor.reservations[id].status == B.Confirmed {
          CancelCovers(cfg, s.queue, id, B.Cancel(s.floor, id).reservations[id], n1, reservation);
        }
      case Post(about, phone, when, n1) =>
        EnqueueCovers(cfg, s.queue, about, CustomMsg, phone, if when.Some? then when.value else n1, n1, reservation);
      case _ =>
    }
  }

  lemma {:induction false} WorkerCovers(cfg: Config, s: State, step: Step, reservation: int)
    requires SystemInv(cfg, s) && Enabled(cfg, s, step) && !IsCrud(step)
    requires HasReminder(s.queue, reservation)
    ensures HasReminder(Apply(cfg, s, step).queue, reservation)
  {
    var q := Apply(cfg, s, step).queue;
    var id :| Reminds(s.queue, reservation, id);
    StepMoves(cfg, s, step, id);
    forall j | j in q.rows && IsReminderOf(q.rows[j], reservation) ensures j <= id {
      assert j in s.queue.rows && IsReminderOf(s.queue.rows[j], reservation);
    }
    assert Reminds(q, reservation, id);
  }

  lemma {:induction false} StepKeepsCovered(cfg: Config, s: State, step: Step)
    requires SystemInv(cfg, s) && Enabled(cfg, s, step) && !cfg.suppress
    requires Covered(s.floor, s.queue)
    ensures Covered(Apply(cfg, s, step).floor, Apply(cfg, s, step).queue)
  {
    var t := Apply(cfg, s, step);
    forall r | r in t.floor.reservations && t.floor.reservations[r].status == B.Confirmed
      ensures HasReminder(t.queue, r)
    {
      LifeStep(cfg, s, step, r);
      assert !IsCancelled(t.floor, r);
      if IsCrud(step) {
        CrudCovers(cfg, s, step, r);
      } else {
        WorkerCovers(cfg, s, step, r);
      }
    }
  }

  /** Whatever happens, the newest reminder of every confirmed reservation has not been cancelled. */
  lemma {:induction false} ConfirmedAreReminded(cfg: Config, s: State, steps: seq<Step>)
    requires cfg.maxAttempts >= 1 && !cfg.suppress
    requires SystemInv(cfg, s) && Covered(s.floor, s.queue) && Legal(cfg, s, steps)
    ensures Covered(Run(cfg, s, steps).floor, Run(cfg, s, steps).queue)
  {
    if steps != [] {
      var init := steps[..|steps| - 1];
      ConfirmedAreReminded(cfg, s, init);
      RunKeepsInv(cfg, s, init);
      StepKeepsCovered(cfg, Run(cfg, s, init), steps[|steps| - 1]);
    }
  }
}
