/**
 process_batch of app/notifications/worker.py, with everything that may happen around it.

 The tick claims in one transaction and records each outcome in another, so other calls run
 in between, and the process may die at any of these points. A `script` says what happens;
 whatever it says, the tick is a run of the system.
 */
module WorkerTick {
  import opened Prelude
  import B = Booking
  import S = Safety
  import F = Backfill
  import opened Messages
  import opened System
  import opened Protocol
  import opened Storage
  import opened TickScript
  import Q = NotificationQueue
  import C = Crud
  import T = SeedTables

  function Snapshot(conn: Database, now: int, worker: Worker): State
    reads conn
  {
    State(conn.Floor(), conn.Queue(), now, worker)
  }

  // ----- other calls

  lemma {:induction false} NoTablesNoBackfill(f: B.Floor, ids: seq<int>)
    requires f.tables == map[]
    ensures F.BackfillAll(f, ids) == f
  {
    if ids != [] {
      NoTablesNoBackfill(f, ids[..|ids| - 1]);
    }
  }

  lemma {:induction false} NoTablesOrNot(f: B.Floor, ids: seq<int>)
    ensures f.tables == map[] ==> F.BackfillAll(f, ids) == f
  {
    if f.tables == map[] {
      NoTablesNoBackfill(f, ids);
    }
  }

  /** Carries out one CRUD call of any kind. */
  method Call(conn: Database, cfg: Config, step: Step, now: int, ghost worker: Worker) returns (now': int)
    requires IsCrud(step) && Enabled(cfg, Snapshot(conn, now, worker), step)
    requires S.AllSeated(conn.Floor())
    modifies conn
    ensures Snapshot(conn, now', worker) == Apply(cfg, old(Snapshot(conn, now, worker)), step)
  {
    now' := now;
    match step {
      case Book(data, draws, n1, n2) =>
        var _ := C.CreateReservation(conn, cfg, data, draws, n1, n2);
        now' := n2;
      case Change(id, patch, n1, n2) =>
        var _ := C.UpdateReservation(conn, cfg, id, patch, n1, n2);
        now' := n2;
      case CancelBooking(id, n1) =>
        var _ := C.CancelReservation(conn, cfg, id, n1);
        now' := n1;
      case AddTable(table) => var _ := C.CreateTableRow(conn, table);
      case ChangeTable(t, patch) => var _ := C.UpdateTableRow(conn, t, patch);
      case DropTable(t) => var _ := C.DeleteTableRow(conn, t);
      case AddRoom(name) => var _ := C.CreateRoomRow(conn, name);
      case DropRoom(room) => var _ := C.DeleteRoomRow(conn, room);
      case Assign(unassigned) =>
        NoTablesOrNot(conn.Floor(), unassigned);
        var _ := T.BackfillAssignments(conn, unassigned);
      case Post(reservation, phone, when, n1) =>
        if reservation.None? || reservation.value in conn.reservations {
          var _ := Q.EnqueueRow(conn, cfg, reservation, CustomMsg, phone, if when.Some? then when.value else n1, n1);
        }
        now' := n1;
    }
  }

  /** The run so far, from `s`, has led to the present state. */
  ghost predicate Led(cfg: Config, s: State, steps: seq<Step>, t: State) {
    Legal(cfg, s, steps) && Run(cfg, s, steps) == t && SystemInv(cfg, t)
  }

  lemma {:induction false} LedOn(cfg: Config, s: State, steps: seq<Step>, t: State, step: Step)
    requires cfg.maxAttempts >= 1
    requires Led(cfg, s, steps, t) && Enabled(cfg, t, step)
    ensures Led(cfg, s, steps + [step], Apply(cfg, t, step))
  {
    OneMoreStep(cfg, s, steps, step);
    StepKeepsInv(cfg, t, step);
  }

  /** One call of another client, if it is possible now. */
  method CallIfPossible(conn: Database, cfg: Config, call: Step, now: int,
        ghost worker: Worker, ghost s: State, ghost steps: seq<Step>)
    returns (now': int)
    requires cfg.maxAttempts >= 1
    requires Led(cfg, s, steps, Snapshot(conn, now, worker))
    modifies conn
    ensures Led(cfg, s, WithCall(cfg, s, steps, call), Snapshot(conn, now', worker))
  {
    now' := now;
    if IsCrud(call) && Enabled(cfg, Snapshot(conn, now, IDLE), call) {
      LedOn(cfg, s, steps, Snapshot(conn, now, worker), call);
      now' := Call(conn, cfg, call, now, worker);
    }
  }

  lemma {:induction false} OneMoreCall(cfg: Config, s: State, steps: seq<Step>, calls: seq<Step>, k: nat)
    requires k < |calls|
    ensures WithCalls(cfg, s, steps, calls[..k + 1])
         == WithCall(cfg, s, WithCalls(cfg, s, steps, calls[..k]), calls[k])
  {
    assert calls[..k + 1][..k] == calls[..k];
  }

  /** Other clients' calls; one that is not possible when its turn comes is left out. */
  method Meanwhile(conn: Database, cfg: Config, calls: seq<Step>, now: int,
        ghost worker: Worker, ghost s: State, ghost steps: seq<Step>)
    returns (now': int)
    requires cfg.maxAttempts >= 1
    requires Led(cfg, s, steps, Snapshot(conn, now, worker))
    modifies conn
    ensures Led(cfg, s, WithCalls(cfg, s, steps, calls), Snapshot(conn, now', worker))
  {
    now' := now;
    for k := 0 to |calls|
      invariant Led(cfg, s, WithCalls(cfg, s, steps, calls[..k]), Snapshot(conn, now', worker))
    {
      OneMoreCall(cfg, s, steps, calls, k);
      now' := CallIfPossible(conn, cfg, calls[k], now', worker, s, WithCalls(cfg, s, steps, calls[..k]));
    }
    assert calls[..|calls|] == calls;
  }

  // ----- the tick

  /** Records the outcome for the row at the head of the batch. */
  method Acknowledge(conn: Database, cfg: Config, batch: seq<int>, ok: bool, now: int,
        ghost before: int, ghost s: State, ghost steps: seq<Step>)
    requires cfg.maxAttempts >= 1 && batch != []
    requires before <= now && Led(cfg, s, steps, Snapshot(conn, before, Worker(batch, Some(ok))))
    modifies conn`notifications
    ensures Led(cfg, s, steps + [Ack(now)], Snapshot(conn, now, Worker(batch[1..], None)))
  {
    LedOn(cfg, s, steps, Snapshot(conn, before, Worker(batch, Some(ok))), Ack(now));
    if ok {
      Q.MarkRowSent(conn, batch[0]);
    } else {
      Q.MarkRowFailedOrRetry(conn, batch[0], cfg.maxAttempts, now);
    }
  }

  /** Dispatches the head of the batch and records the outcome; answers whether the worker lives through it. */
  method DispatchRow(conn: Database, cfg: Config, batch: seq<int>, moment: Moment,
        now: int, ghost s: State, ghost steps: seq<Step>)
    returns (alive: bool, now': int)
    requires cfg.maxAttempts >= 1 && batch != []
    requires Led(cfg, s, steps, Snapshot(conn, now, Worker(batch, None)))
    modifies conn
    ensures alive <==> Survives(moment)
    ensures Led(cfg, s, WithRow(cfg, s, steps, moment),
                Snapshot(conn, now', if alive then Worker(batch[1..], None) else IDLE))
  {
    now' := Meanwhile(conn, cfg, moment.before, now, Worker(batch, None), s, steps);
    ghost var more := WithCalls(cfg, s, steps, moment.before);
    if moment.fate.Lost? {
      LedOn(cfg, s, more, Snapshot(conn, now', Worker(batch, None)), Crash);
      return false, now';
    }
    var ok := moment.fate.ok;
    LedOn(cfg, s, more, Snapshot(conn, now', Worker(batch, None)), Send(ok));
    now' := Meanwhile(conn, cfg, moment.fate.between, now', Worker(batch, Some(ok)), s, more + [Send(ok)]);
    more := WithCalls(cfg, s, more + [Send(ok)], moment.fate.between);
    if moment.fate.ackAt.None? {
      LedOn(cfg, s, more, Snapshot(conn, now', Worker(batch, Some(ok))), Crash);
      return false, now';
    }
    ghost var before := now';
    now' := Max(now', moment.fate.ackAt.value);
    Acknowledge(conn, cfg, batch, ok, now', before, s, more);
    alive := true;
  }

  /** One turn of the loop. */
  method DispatchNext(conn: Database, cfg: Config, due: seq<int>,
        script: nat -> Moment, k: nat, now: int, ghost s: State, ghost steps: seq<Step>)
    returns (alive: bool, now': int)
    requires cfg.maxAttempts >= 1 && k < |due| && Reached(script, k) == k
    requires Led(cfg, s, WithRows(cfg, s, steps, script, k), Snapshot(conn, now, Worker(due[k..], None)))
    modifies conn
    ensures alive <==> Survives(script(k))
    ensures Led(cfg, s, WithRows(cfg, s, steps, script, k + 1),
                Snapshot(conn, now', if alive then Worker(due[k + 1..], None) else IDLE))
  {
    assert due[k..][1..] == due[k + 1..];
    NextTurn(cfg, s, steps, script, k);
    alive, now' := DispatchRow(conn, cfg, due[k..], script(k), now, s, WithRows(cfg, s, steps, script, k));
  }

  /** The loop over the claimed rows. */
  method DispatchAll(conn: Database, cfg: Config, due: seq<int>,
        script: nat -> Moment, now: int, ghost s: State, ghost steps: seq<Step>)
    returns (sent: Option<nat>, ghost now': int)
    requires cfg.maxAttempts >= 1
    requires Led(cfg, s, WithRows(cfg, s, steps, script, 0), Snapshot(conn, now, Worker(due[0..], None)))
    modifies conn
    ensures Led(cfg, s, WithRows(cfg, s, steps, script, |due|), Snapshot(conn, now', IDLE))
    ensures sent == if Reached(script, |due|) == |due| then Some(Taken(script, |due|)) else None
  {
    var count, clock := 0, now;
    for k := 0 to |due|
      invariant Reached(script, k) == k && count == Taken(script, k)
      invariant Led(cfg, s, WithRows(cfg, s, steps, script, k), Snapshot(conn, clock, Worker(due[k..], None)))
    {
      var alive;
      alive, clock := DispatchNext(conn, cfg, due, script, k, clock, s, steps);
      NextTurn(cfg, s, steps, script, k);
      if !alive {
        NothingAfterDeath(cfg, s, steps, script, k, |due|);
        return None, clock;
      }
      if script(k).fate.ok {
        count := count + 1;
      }
    }
    assert due[|due|..] == [];
    return Some(count), clock;
  }

  /** One tick of the worker: the number of rows sent, or None if it dies before the end. */
  method ProcessBatch(conn: Database, cfg: Config, claimAt: int, script: nat -> Moment, ghost start: int)
    returns (sent: Option<nat>, ghost due: seq<int>, ghost now: int)
    requires cfg.maxAttempts >= 1 && claimAt >= start
    requires SystemInv(cfg, Snapshot(conn, start, IDLE))
    modifies conn
    ensures Ticks(cfg, old(Snapshot(conn, start, IDLE)), due, claimAt, script, Snapshot(conn, now, IDLE))
    ensures sent.Some? <==> Reached(script, |due|) == |due|
    ensures sent.Some? ==> sent.value == |SentOf(conn.Queue(), due)|
  {
    ghost var s := Snapshot(conn, start, IDLE);
    var batch := Q.PickDue(conn, BATCH, OnlyKind(cfg), claimAt);
    LedOn(cfg, s, [], s, Claiming(batch, claimAt));
    assert [] + [Claiming(batch, claimAt)] == [Claiming(batch, claimAt)];
    TickOutcome(cfg, s, batch, claimAt, script);
    due := batch;
    assert due[0..] == due;
    sent, now := DispatchAll(conn, cfg, batch, script, claimAt, s, [Claiming(batch, claimAt)]);
    if sent.Some? {
      AnswerIsSent(cfg, s, Apply(cfg, s, Claiming(due, claimAt)), due, script,
                   TickSteps(cfg, s, due, claimAt, script));
    }
  }
}
