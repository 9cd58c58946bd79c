/**
 The running system: CRUD calls, the agent's messages, the worker and its crashes,
 interleaved in any order.

 A CRUD call and a claim are one step each. The worker holds its batch outside any
 transaction: it hands the head of the batch to the notifier (`Send`), and records the
 outcome in a later step (`Ack`); anything may happen in between. `Crash` loses the
 batch, as a process stop or an exception in the middle of a tick does. Every clock
 reading a call takes is part of its step.
 */
module System {
  import opened Prelude
  import opened Ordering
  import Codes
  import B = Booking
  import F = Backfill
  import opened Messages

  /** `batch`: claimed rows not yet acknowledged. `sent`: how the notifier dealt with the head. */
  datatype Worker = Worker(batch: seq<int>, sent: Option<bool>)

  const IDLE := Worker([], None)

  datatype State = State(floor: B.Floor, queue: Queue, now: int, worker: Worker)

  datatype Step =
    | Book(data: B.NewReservation, draws: seq<string>, n1: int, n2: int)
    | Change(id: int, patch: B.ReservationPatch, n1: int, n2: int)
    | CancelBooking(id: int, n1: int)
    | AddTable(table: B.NewTable)
    | ChangeTable(t: int, tablePatch: B.TablePatch)
    | DropTable(t: int)
    | AddRoom(name: string)
    | DropRoom(room: int)
    | Assign(unassigned: seq<int>)
    | Post(reservation: Option<int>, phone: string, when: Option<int>, n1: int)
    | Claiming(order: seq<int>, n1: int)
    | Send(ok: bool)
    | Ack(n1: int)
    | Crash

  // ----- messages that the CRUD calls send

  /** Reservation time minus the lead, but not before now. */
  function ReminderTime(cfg: Config, at: int, now: int): int {
    Max(at - cfg.lead, now)
  }

  function AddReminder(cfg: Config, q: Queue, id: int, r: B.Reservation, now: int): Queue {
    Enqueue(cfg, q, Some(id), ReminderMsg, r.phone, ReminderTime(cfg, r.at, now), now)
  }

  function AfterBooking(cfg: Config, q: Queue, id: int, r: B.Reservation, n1: int, n2: int): Queue {
    AddReminder(cfg, Enqueue(cfg, q, Some(id), CreatedMsg, r.phone, n1, n1), id, r, n2)
  }

  function AfterChange(cfg: Config, q: Queue, id: int, r: B.Reservation,
        patch: B.ReservationPatch, n1: int, n2: int): Queue
  {
    var told := if patch.Moves() then Enqueue(cfg, q, Some(id), UpdatedMsg, r.phone, n1, n1) else q;
    if patch.at.Set? then AddReminder(cfg, DropReminders(told, id), id, r, n2) else told
  }

  function AfterCancel(cfg: Config, q: Queue, id: int, r: B.Reservation, n1: int): Queue {
    DropReminders(Enqueue(cfg, q, Some(id), CancelledMsg, r.phone, n1, n1), id)
  }

  // ----- steps

  predicate Enabled(cfg: Config, s: State, step: Step) {
    match step
    case Book(_, draws, n1, n2) =>
      && s.now <= n1 <= n2
      && |draws| == B.CODE_TRIES && (forall k | 0 <= k < |draws| :: Codes.IsCode(draws[k]))
    case Change(_, _, n1, n2) => s.now <= n1 <= n2
    case CancelBooking(_, n1) => s.now <= n1
    case Assign(unassigned) => Distinct(unassigned) && Elements(unassigned) == F.Unassigned(s.floor)
    case Post(_, _, _, n1) => s.now <= n1
    case Claiming(order, n1) =>
      && s.now <= n1 && s.worker == IDLE
      && Distinct(order) && Elements(order) == Claimable(s.queue, n1, OnlyKind(cfg), BATCH)
    case Send(_) => s.worker.batch != [] && s.worker.sent == None
    case Ack(n1) => s.now <= n1 && s.worker.batch != [] && s.worker.sent.Some?
    case _ => true
  }

  /** The floor that an operation leaves: a failed one leaves it as it was. */
  function Left(f: B.Floor, outcome: Result<B.Floor, B.Error>): B.Floor {
    match outcome
    case Ok(g) => g
    case Err(_) => f
  }

  ghost function Apply(cfg: Config, s: State, step: Step): State {
    match step
    case Book(data, draws, n1, n2) =>
      (match B.Create(s.floor, data, draws)
       case Err(_) => s.(now := n2)
       case Ok(g) =>
         var id := s.floor.nextReservation;
         State(g, AfterBooking(cfg, s.queue, id, g.reservations[id], n1, n2), n2, s.worker))
    case Change(id, patch, n1, n2) =>
      if id !in s.floor.reservations then s.(now := n2)
      else
        (match B.Update(s.floor, id, patch)
         case Err(_) => s.(now := n2)
         case Ok(g) =>
           State(g, AfterChange(cfg, s.queue, id, g.reservations[id], patch, n1, n2), n2, s.worker))
    case CancelBooking(id, n1) =>
      if id !in s.floor.reservations || s.floor.reservations[id].status == B.Cancelled then s.(now := n1)
      else
        var g := B.Cancel(s.floor, id);
        State(g, AfterCancel(cfg, s.queue, id, g.reservations[id], n1), n1, s.worker)
    case AddTable(table) => s.(floor := Left(s.floor, B.CreateTable(s.floor, table)))
    case ChangeTable(t, patch) =>
      if t !in s.floor.tables then s
      else s.(floor := Left(s.floor, B.UpdateTable(s.floor, t, patch)))
    case DropTable(t) =>
      if t !in s.floor.tables then s else s.(floor := Left(s.floor, B.DeleteTable(s.floor, t)))
    case AddRoom(name) => s.(floor := Left(s.floor, B.CreateRoom(s.floor, name)))
    case DropRoom(room) =>
      if room !in s.floor.rooms then s else s.(floor := Left(s.floor, B.DeleteRoom(s.floor, room)))
    case Assign(unassigned) => s.(floor := F.BackfillAll(s.floor, unassigned))
    case Post(reservation, phone, when, n1) =>
      if reservation.Some? && reservation.value !in s.floor.reservations then s.(now := n1)
      else s.(queue := Enqueue(cfg, s.queue, reservation, CustomMsg, phone,
                               if when.Some? then when.value else n1, n1),
              now := n1)
    case Claiming(order, n1) =>
      s.(queue := Claim(s.queue, Elements(order)), now := n1, worker := Worker(order, None))
    case Send(ok) => s.(worker := s.worker.(sent := Some(ok)))
    case Ack(n1) =>
      if s.worker.batch == [] then s
      else
        var id := s.worker.batch[0];
        s.(queue := if s.worker.sent == Some(true) then MarkSent(s.queue, id)
                    else MarkFailedOrRetry(s.queue, id, cfg.maxAttempts, n1),
           now := n1,
           worker := Worker(s.worker.batch[1..], None))
    case Crash => s.(worker := IDLE)
  }

  // ----- runs

  ghost function Run(cfg: Config, s: State, steps: seq<Step>): State {
    if steps == [] then s
    else Apply(cfg, Run(cfg, s, steps[..|steps| - 1]), steps[|steps| - 1])
  }

  ghost predicate Legal(cfg: Config, s: State, steps: seq<Step>) {
    steps != [] ==>
      && Legal(cfg, s, steps[..|steps| - 1])
      && Enabled(cfg, Run(cfg, s, steps[..|steps| - 1]), steps[|steps| - 1])
  }

  lemma {:induction false} OneMoreStep(cfg: Config, s: State, steps: seq<Step>, step: Step)
    ensures Run(cfg, s, steps + [step]) == Apply(cfg, Run(cfg, s, steps), step)
    ensures Legal(cfg, s, steps + [step]) <==> Legal(cfg, s, steps) && Enabled(cfg, Run(cfg, s, steps), step)
  {
    assert (steps + [step])[..|steps|] == steps;
  }
}
