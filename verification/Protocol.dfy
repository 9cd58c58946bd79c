/**
 What every run of the system keeps: the allocator's promise, the status machine of
 the queue, and the worker's claim on the rows of its batch.
 */
module Protocol {
  import opened Prelude
  import opened Ordering
  import B = Booking
  import S = Safety
  import F = Backfill
  import opened Messages
  import opened System

  // ----- invariants

  /** How many attempts a row of each status may show. */
  predicate AttemptsFit(cfg: Config, row: Row) {
    match row.status
    case Pending => row.attempts < cfg.maxAttempts
    case InFlight => 1 <= row.attempts <= cfg.maxAttempts
    case Sent => 1 <= row.attempts <= cfg.maxAttempts
    case Failed => row.attempts == cfg.maxAttempts
    case Dropped => row.attempts < cfg.maxAttempts
  }

  ghost predicate RowsSound(cfg: Config, q: Queue) {
    forall id :: id in q.rows ==> id < q.next && AttemptsFit(cfg, q.rows[id])
  }

  /** Every id the worker still holds is in flight. */
  ghost predicate WorkerSound(q: Queue, w: Worker) {
    && Distinct(w.batch)
    && (forall k | 0 <= k < |w.batch| :: w.batch[k] in q.rows && q.rows[w.batch[k]].status == InFlight)
    && (w.sent.Some? ==> w.batch != [])
  }

  ghost predicate SystemInv(cfg: Config, s: State) {
    S.Inv(s.floor) && RowsSound(cfg, s.queue) && WorkerSound(s.queue, s.worker)
  }

  /** A start: a sound floor (an empty database is one), no messages, an idle worker. */
  ghost predicate Initial(s: State) {
    S.Inv(s.floor) && s.queue == NO_MESSAGES && s.worker == IDLE
  }

  // ----- what a CRUD call may do to the queue

  /** A CRUD call leaves a row as it is, or drops it if it is a pending reminder. */
  predicate KeptOrDropped(row: Row, row': Row) {
    row' == row || (row.status == Pending && row.kind == ReminderMsg && row' == row.(status := Dropped))
  }

  predicate IsNew(row: Row) {
    row.status == Pending && row.attempts == 0
  }

  ghost predicate CrudEffect(q: Queue, q': Queue) {
    && q.next <= q'.next
    && (forall id :: id in q.rows ==> id in q'.rows && KeptOrDropped(q.rows[id], q'.rows[id]))
    && (forall id :: id in q'.rows && id !in q.rows ==> q.next <= id < q'.next && IsNew(q'.rows[id]))
  }

  lemma {:induction false} EnqueueEffect(cfg: Config, q: Queue, reservation: Option<int>,
        kind: Kind, phone: string, at: int, now: int)
    requires forall id :: id in q.rows ==> id < q.next
    ensures var q' := Enqueue(cfg, q, reservation, kind, phone, at, now);
      CrudEffect(q, q') && forall id :: id in q'.rows ==> id < q'.next
  {
  }

  lemma {:induction false} DropEffect(q: Queue, reservation: int)
    requires forall id :: id in q.rows ==> id < q.next
    ensures var q' := DropReminders(q, reservation);
      CrudEffect(q, q') && forall id :: id in q'.rows ==> id < q'.next
  {
  }

  /** CRUD effects in a row are one CRUD effect, as new rows are not dropped in between. */
  lemma {:induction false} EffectsCompose(q: Queue, m: Queue, q': Queue)
    requires CrudEffect(q, m) && CrudEffect(m, q')
    requires forall id :: id in m.rows && id !in q.rows ==> id in q'.rows && q'.rows[id] == m.rows[id]
    ensures CrudEffect(q, q')
  {
  }

  lemma {:induction false} BookingEffect(cfg: Config, q: Queue, id: int, r: B.Reservation, n1: int, n2: int)
    requires forall id :: id in q.rows ==> id < q.next
    ensures CrudEffect(q, AfterBooking(cfg, q, id, r, n1, n2))
  {
    var m := Enqueue(cfg, q, Some(id), CreatedMsg, r.phone, n1, n1);
    EnqueueEffect(cfg, q, Some(id), CreatedMsg, r.phone, n1, n1);
    EnqueueEffect(cfg, m, Some(id), ReminderMsg, r.phone, ReminderTime(cfg, r.at, n2), n2);
  }

  lemma {:induction false} ChangeEffect(cfg: Config, q: Queue, id: int, r: B.Reservation,
        patch: B.ReservationPatch, n1: int, n2: int)
    requires forall id :: id in q.rows ==> id < q.next
    ensures CrudEffect(q, AfterChange(cfg, q, id, r, patch, n1, n2))
  {
    EnqueueEffect(cfg, q, Some(id), UpdatedMsg, r.phone, n1, n1);
    var told := if patch.Moves() then Enqueue(cfg, q, Some(id), UpdatedMsg, r.phone, n1, n1) else q;
    if patch.at.Set? {
      var dropped := DropReminders(told, id);
      DropEffect(told, id);
      EffectsCompose(q, told, dropped);
      EnqueueEffect(cfg, dropped, Some(id), ReminderMsg, r.phone, ReminderTime(cfg, r.at, n2), n2);
      EffectsCompose(q, dropped, AddReminder(cfg, dropped, id, r, n2));
    }
  }

  lemma {:induction false} CancelEffect(cfg: Config, q: Queue, id: int, r: B.Reservation, n1: int)
    requires forall id :: id in q.rows ==> id < q.next
    ensures CrudEffect(q, AfterCancel(cfg, q, id, r, n1))
  {
    var m := Enqueue(cfg, q, Some(id), CancelledMsg, r.phone, n1, n1);
    EnqueueEffect(cfg, q, Some(id), CancelledMsg, r.phone, n1, n1);
    DropEffect(m, id);
    EffectsCompose(q, m, DropReminders(m, id));
  }

  predicate IsCrud(step: Step) {
    !step.Claiming? && !step.Send? && !step.Ack? && !step.Crash?
  }

  /** Seen from the queue, every CRUD call is a CRUD effect, and it never touches the worker. */
  lemma {:induction false} CrudStepEffect(cfg: Config, s: State, step: Step)
    requires RowsSound(cfg, s.queue) && IsCrud(step)
    ensures CrudEffect(s.queue, Apply(cfg, s, step).queue)
    ensures Apply(cfg, s, step).worker == s.worker
  {
    var t := Apply(cfg, s, step);
    match step {
      case Book(data, draws, n1, n2) =>
        if B.Create(s.floor, data, draws).Ok? {
          BookingEffect(cfg, s.queue, s.floor.nextReservation, t.floor.reservations[s.floor.nextReservation], n1, n2);
        }
      case Change(id, patch, n1, n2) =>
        if id in s.floor.reservations {
          ChangeEffect(cfg, s.queue, id, t.floor.reservations[id], patch, n1, n2);
        }
      case CancelBooking(id, n1) =>
        if id in s.floor.reservations {
          CancelEffect(cfg, s.queue, id, t.floor.reservations[id], n1);
        }
      case Post(reservation, phone, when, n1) =>
        EnqueueEffect(cfg, s.queue, reservation, CustomMsg, phone, if when.Some? then when.value else n1, n1);
      case _ =>
    }
  }

  // ----- the claim

  lemma {:induction false} ClaimTakesDueRows(cfg: Config, s: State, order: seq<int>, n1: int)
    requires Enabled(cfg, s, Claiming(order, n1))
    ensures forall id :: id in order ==>
              id in s.queue.rows && Due(s.queue.rows[id], n1, OnlyKind(cfg))
  {
    forall id | id in order ensures id in DueKeys(s.queue, n1, OnlyKind(cfg)) {
      assert id in Elements(order);
    }
  }

  // ----- preservation

  lemma {:induction false} FloorStep(cfg: Config, s: State, step: Step)
    requires S.Inv(s.floor) && Enabled(cfg, s, step)
    ensures S.Inv(Apply(cfg, s, step).floor)
  {
    match step {
      case Book(data, draws, _, _) => S.CreateKeepsInv(s.floor, data, draws);
      case Change(id, patch, _, _) => if id in s.floor.reservations { S.UpdateKeepsInv(s.floor, id, patch); }
      case CancelBooking(id, _) => if id in s.floor.reservations { S.CancelKeepsInv(s.floor, id); }
      case AddTable(table) => S.CreateTableKeepsInv(s.floor, table);
      case ChangeTable(t, patch) => if t in s.floor.tables { S.UpdateTableKeepsInv(s.floor, t, patch); }
      case DropTable(t) => if t in s.floor.tables { S.DeleteTableKeepsInv(s.floor, t); }
      case AddRoom(name) => S.CreateRoomKeepsInv(s.floor, name);
      case DropRoom(room) => if room in s.floor.rooms { S.DeleteRoomKeepsInv(s.floor, room); }
      case Assign(unassigned) =>
        forall k | 0 <= k < |unassigned| ensures unassigned[k] in F.Unassigned(s.floor) {
          assert unassigned[k] in Elements(unassigned);
        }
        F.BackfillKeepsInv(s.floor, unassigned);
      case _ =>
    }
  }

  lemma {:induction false} RowsStep(cfg: Config, s: State, step: Step)
    requires cfg.maxAttempts >= 1
    requires RowsSound(cfg, s.queue) && WorkerSound(s.queue, s.worker) && Enabled(cfg, s, step)
    ensures RowsSound(cfg, Apply(cfg, s, step).queue)
  {
    if IsCrud(step) {
      CrudStepEffect(cfg, s, step);
    } else if step.Claiming? {
      ClaimTakesDueRows(cfg, s, step.order, step.n1);
    }
  }

  lemma {:induction false} WorkerStep(cfg: Config, s: State, step: Step)
    requires RowsSound(cfg, s.queue) && WorkerSound(s.queue, s.worker) && Enabled(cfg, s, step)
    ensures var t := Apply(cfg, s, step);
      WorkerSound(t.queue, t.worker)
  {
    if IsCrud(step) {
      CrudStepEffect(cfg, s, step);
    } else if step.Claiming? {
      ClaimTakesDueRows(cfg, s, step.order, step.n1);
      forall k | 0 <= k < |step.order| ensures step.order[k] in Elements(step.order) {
      }
    } else if step.Ack? {
      var t := Apply(cfg, s, step);
      forall k | 0 <= k < |t.worker.batch|
        ensures t.worker.batch[k] in t.queue.rows && t.queue.rows[t.worker.batch[k]].status == InFlight
      {
        assert t.worker.batch[k] == s.worker.batch[k + 1];
        assert s.worker.batch[0] != s.worker.batch[k + 1];
      }
    }
  }

  /** Every step of the system keeps all of it. */
  lemma {:induction false} StepKeepsInv(cfg: Config, s: State, step: Step)
    requires cfg.maxAttempts >= 1
    requires SystemInv(cfg, s) && Enabled(cfg, s, step)
    ensures SystemInv(cfg, Apply(cfg, s, step))
  {
    FloorStep(cfg, s, step);
    RowsStep(cfg, s, step);
    WorkerStep(cfg, s, step);
  }

  /** Safety over whole runs, from any sound state; an empty database is one. */
  lemma {:induction false} RunKeepsInv(cfg: Config, s: State, steps: seq<Step>)
    requires cfg.maxAttempts >= 1
    requires SystemInv(cfg, s) && Legal(cfg, s, steps)
    ensures SystemInv(cfg, Run(cfg, s, steps))
  {
    if steps != [] {
      var init := steps[..|steps| - 1];
      RunKeepsInv(cfg, s, init);
      StepKeepsInv(cfg, Run(cfg, s, init), steps[|steps| - 1]);
    }
  }

  lemma {:induction false} EmptyDatabaseIsInitial(t0: int)
    ensures Initial(State(B.EMPTY, NO_MESSAGES, t0, IDLE))
  {
    S.EmptySound();
  }

  /** The promise in figures: two hours are 7,200 seconds, and a party has a seat each. */
  lemma {:induction false} PromiseInFigures(f: B.Floor, i: int, j: int)
    requires S.Inv(f) && i in f.reservations && f.reservations[i].status == B.Confirmed
    ensures var r := f.reservations[i];
      && (r.table.Some? ==> r.table.value in f.tables && r.party <= f.tables[r.table.value].capacity)
      && (r.table.Some? && j in f.reservations && j != i && f.reservations[j].status == B.Confirmed
          && f.reservations[j].table == r.table
          ==> f.reservations[j].at - r.at >= 7_200_000_000 || r.at - f.reservations[j].at >= 7_200_000_000)
  {
    var r := f.reservations[i];
    assert S.Seated(f, r);
    if j in f.reservations && j != i && S.SameTable(r, f.reservations[j]) {
      assert Abs(r.at - f.reservations[j].at) >= B.CONFLICT_WINDOW;
    }
  }

  /** From an empty database, no run double-books a table or seats a party that does not fit. */
  lemma {:induction false} AllocatorSafety(cfg: Config, t0: int, steps: seq<Step>, i: int, j: int)
    requires cfg.maxAttempts >= 1
    requires Legal(cfg, State(B.EMPTY, NO_MESSAGES, t0, IDLE), steps)
    ensures var f := Run(cfg, State(B.EMPTY, NO_MESSAGES, t0, IDLE), steps).floor;
      && S.Inv(f)
      && (i in f.reservations && f.reservations[i].status == B.Confirmed && f.reservations[i].table.Some? ==>
            var r := f.reservations[i];
            && r.table.value in f.tables && r.party <= f.tables[r.table.value].capacity
            && (j in f.reservations && j != i && f.reservations[j].status == B.Confirmed
                && f.reservations[j].table == r.table
                ==> f.reservations[j].at - r.at >= 7_200_000_000 || r.at - f.reservations[j].at >= 7_200_000_000))
  {
    EmptyDatabaseIsInitial(t0);
    RunKeepsInv(cfg, State(B.EMPTY, NO_MESSAGES, t0, IDLE), steps);
    var f := Run(cfg, State(B.EMPTY, NO_MESSAGES, t0, IDLE), steps).floor;
    if i in f.reservations && f.reservations[i].status == B.Confirmed {
      PromiseInFigures(f, i, j);
    }
  }

  // ----- the status machine

  predicate Final(status: Status) {
    status == Sent || status == Failed || status == Dropped
  }

  /** The moves a row may make in one step. */
  predicate Moves(row: Row, row': Row) {
    || row' == row
    || (row.status == Pending && row' == row.(status := InFlight, attempts := row.attempts + 1))
    || (row.status == Pending && row.kind == ReminderMsg && row' == row.(status := Dropped))
    || (row.status == InFlight && (row' == row.(status := Sent) || row' == row.(status := Failed)))
    || (row.status == InFlight && row' == row.(status := Pending, at := row'.at))
  }

  /** The unguarded updates of the worker only ever move rows that are in flight. */
  lemma {:induction false} StepMoves(cfg: Config, s: State, step: Step, id: int)
    requires RowsSound(cfg, s.queue) && WorkerSound(s.queue, s.worker) && Enabled(cfg, s, step)
    requires id in s.queue.rows
    ensures var t := Apply(cfg, s, step);
      id in t.queue.rows && Moves(s.queue.rows[id], t.queue.rows[id])
  {
    if IsCrud(step) {
      CrudStepEffect(cfg, s, step);
    } else if step.Claiming? {
      ClaimTakesDueRows(cfg, s, step.order, step.n1);
    }
  }

  /** sent, failed and cancelled are final: such a row never changes again. */
  lemma {:induction false} FinalRowsStay(cfg: Config, s: State, steps: seq<Step>, id: int)
    requires cfg.maxAttempts >= 1
    requires SystemInv(cfg, s) && Legal(cfg, s, steps)
    requires id in s.queue.rows && Final(s.queue.rows[id].status)
    ensures var t := Run(cfg, s, steps);
      id in t.queue.rows && t.queue.rows[id] == s.queue.rows[id]
  {
    if steps != [] {
      var init := steps[..|steps| - 1];
      FinalRowsStay(cfg, s, init, id);
      RunKeepsInv(cfg, s, init);
      StepMoves(cfg, Run(cfg, s, init), steps[|steps| - 1], id);
    }
  }

  // ----- delivery

  /** In this step the notifier is handed row `id`. */
  predicate Hands(s: State, step: Step, id: int) {
    step.Send? && s.worker.batch != [] && s.worker.batch[0] == id
  }

  /** How often, in a run, the notifier was handed row `id` and returned normally. */
  ghost function Deliveries(cfg: Config, s: State, steps: seq<Step>, id: int): nat {
    if steps == [] then 0
    else
      var init, last := steps[..|steps| - 1], steps[|steps| - 1];
      Deliveries(cfg, s, init, id) + if Hands(Run(cfg, s, init), last, id) && last.ok then 1 else 0
  }

  /** How often, in a run, the notifier was handed row `id` at all. */
  ghost function Dispatches(cfg: Config, s: State, steps: seq<Step>, id: int): nat {
    if steps == [] then 0
    else
      var init, last := steps[..|steps| - 1], steps[|steps| - 1];
      Dispatches(cfg, s, init, id) + if Hands(Run(cfg, s, init), last, id) then 1 else 0
  }

  /** The worker has lost row `id`: it is in flight and in nobody's batch. */
  ghost predicate Stranded(s: State, id: int) {
    id in s.queue.rows && s.queue.rows[id].status == InFlight && id !in s.worker.batch
  }

  /** Where a delivered row can be: sent, about to be marked sent, or stranded. */
  ghost predicate Delivered(s: State, id: int) {
    && id in s.queue.rows
    && (|| s.queue.rows[id].status == Sent
        || Stranded(s, id)
        || (s.worker.batch != [] && s.worker.batch[0] == id && s.worker.sent == Some(true)))
  }

  lemma {:induction false} StrandedStep(cfg: Config, s: State, step: Step, id: int)
    requires RowsSound(cfg, s.queue) && WorkerSound(s.queue, s.worker) && Enabled(cfg, s, step)
    requires Stranded(s, id)
    ensures Stranded(Apply(cfg, s, step), id)
    ensures Apply(cfg, s, step).queue.rows[id] == s.queue.rows[id]
    ensures !Hands(s, step, id)
  {
    if IsCrud(step) {
      CrudStepEffect(cfg, s, step);
    } else if step.Claiming? {
      ClaimTakesDueRows(cfg, s, step.order, step.n1);
      assert id !in Elements(step.order);
    }
  }

  /** A row stranded by a crash stays in flight for ever and is never handed over again. */
  lemma {:induction false} StrandedForever(cfg: Config, s: State, steps: seq<Step>, id: int)
    requires cfg.maxAttempts >= 1
    requires SystemInv(cfg, s) && Legal(cfg, s, steps)
    requires Stranded(s, id)
    ensures var t := Run(cfg, s, steps);
      && Stranded(t, id)
      && t.queue.rows[id] == s.queue.rows[id]
      && Dispatches(cfg, s, steps, id) == 0
  {
    if steps != [] {
      var init := steps[..|steps| - 1];
      StrandedForever(cfg, s, init, id);
      RunKeepsInv(cfg, s, init);
      StrandedStep(cfg, Run(cfg, s, init), steps[|steps| - 1], id);
    }
  }

  /** A row is stranded by nothing but a crash of the worker that holds it. */
  lemma {:induction false} StrandedExactlyByCrash(cfg: Config, s: State, step: Step, id: int)
    requires RowsSound(cfg, s.queue) && WorkerSound(s.queue, s.worker) && Enabled(cfg, s, step)
    requires !Stranded(s, id)
    ensures Stranded(Apply(cfg, s, step), id) <==> step.Crash? && id in s.worker.batch
  {
    var t := Apply(cfg, s, step);
    if IsCrud(step) {
      CrudStepEffect(cfg, s, step);
    } else if step.Claiming? {
      ClaimTakesDueRows(cfg, s, step.order, step.n1);
      assert id in step.order <==> id in Elements(step.order);
    } else if step.Ack? && id in s.worker.batch && id != s.worker.batch[0] {
      var k :| 0 <= k < |s.worker.batch| && s.worker.batch[k] == id;
      assert t.worker.batch[k - 1] == id;
    }
  }

  /** While the worker does not crash no message is lost. */
  lemma {:induction false} NothingStrandedWithoutCrash(cfg: Config, s: State, steps: seq<Step>, id: int)
    requires cfg.maxAttempts >= 1
    requires SystemInv(cfg, s) && Legal(cfg, s, steps)
    requires !Stranded(s, id)
    requires forall k | 0 <= k < |steps| :: !steps[k].Crash?
    ensures !Stranded(Run(cfg, s, steps), id)
  {
    if steps != [] {
      var init := steps[..|steps| - 1];
      NothingStrandedWithoutCrash(cfg, s, init, id);
      RunKeepsInv(cfg, s, init);
      StrandedExactlyByCrash(cfg, Run(cfg, s, init), steps[|steps| - 1], id);
    }
  }

  lemma {:induction false} DeliveredStep(cfg: Config, s: State, step: Step, id: int)
    requires RowsSound(cfg, s.queue) && WorkerSound(s.queue, s.worker) && Enabled(cfg, s, step)
    requires Delivered(s, id)
    ensures Delivered(Apply(cfg, s, step), id)
    ensures !Hands(s, step, id)
  {
    if Stranded(s, id) {
      StrandedStep(cfg, s, step, id);
    } else {
      StepMoves(cfg, s, step, id);
      if IsCrud(step) {
        CrudStepEffect(cfg, s, step);
      }
    }
  }

  lemma {:induction false} DeliveredOnceHelper(cfg: Config, s: State, steps: seq<Step>, id: int)
    requires cfg.maxAttempts >= 1
    requires SystemInv(cfg, s) && Legal(cfg, s, steps)
    ensures var n := Deliveries(cfg, s, steps, id);
      n <= 1 && (n == 1 ==> Delivered(Run(cfg, s, steps), id))
  {
    if steps != [] {
      var init, last := steps[..|steps| - 1], steps[|steps| - 1];
      var before := Run(cfg, s, init);
      DeliveredOnceHelper(cfg, s, init, id);
      RunKeepsInv(cfg, s, init);
      if Deliveries(cfg, s, init, id) == 1 {
        DeliveredStep(cfg, before, last, id);
      } else if Hands(before, last, id) && last.ok {
        assert before.worker.batch[0] in before.queue.rows;
      }
    }
  }

  /** Whatever interleaves and crashes, no message is accepted twice by the notifier. */
  lemma {:induction false} DeliveredAtMostOnce(cfg: Config, s: State, steps: seq<Step>, id: int)
    requires cfg.maxAttempts >= 1
    requires Initial(s) && Legal(cfg, s, steps)
    ensures Deliveries(cfg, s, steps, id) <= 1
    ensures Deliveries(cfg, s, steps, id) == 1 ==> Delivered(Run(cfg, s, steps), id)
  {
    DeliveredOnceHelper(cfg, s, steps, id);
  }
}
