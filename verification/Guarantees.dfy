/** What holds of every state a run can reach, in the terms of the restaurant and its customers. */
module Guarantees {
  import opened Prelude
  import B = Booking
  import F = Backfill
  import A = Assignment
  import P = Packing
  import Codes
  import opened Messages
  import opened System
  import opened Protocol
  import R = Reminders

  // ----- the floor

  /** At any moment of any run, the parties of any two hours fit into the seats there are. */
  lemma {:induction false} SeatsSuffice(cfg: Config, s: State, steps: seq<Step>, from: int)
    requires cfg.maxAttempts >= 1
    requires SystemInv(cfg, s) && Legal(cfg, s, steps)
    ensures var f := Run(cfg, s, steps).floor;
      P.Sum(P.Parties(f), P.Sitting(f, from)) <= P.Sum(P.Capacities(f), f.tables.Keys)
  {
    RunKeepsInv(cfg, s, steps);
    P.SeatingBound(Run(cfg, s, steps).floor, from);
  }

  /** At any moment of any run, n confirmed reservations of one table take up at least (n-1) * 2h. */
  lemma {:induction false} TablesAreNotPacked(cfg: Config, s: State, steps: seq<Step>, t: int,
        ids: set<int>, lo: int, hi: int)
    requires cfg.maxAttempts >= 1
    requires SystemInv(cfg, s) && Legal(cfg, s, steps)
    requires ids != {}
    requires forall i :: i in ids ==> P.OnTableWithin(Run(cfg, s, steps).floor, t, lo, hi, i)
    ensures (|ids| - 1) * 7_200_000_000 <= hi - lo
  {
    RunKeepsInv(cfg, s, steps);
    P.PackingBound(Run(cfg, s, steps).floor, t, ids, lo, hi);
  }

  // ----- confirmation codes

  lemma {:induction false} StepKeepsCode(cfg: Config, s: State, step: Step, id: int)
    requires SystemInv(cfg, s) && Enabled(cfg, s, step)
    requires id in s.floor.reservations
    ensures var g := Apply(cfg, s, step).floor;
      id in g.reservations && g.reservations[id].code == s.floor.reservations[id].code
  {
    if step.Assign? {
      F.BackfillTouchesOnly(s.floor, step.unassigned);
    }
  }

  /** A reservation is never deleted and its code never changes. */
  lemma {:induction false} CodesLast(cfg: Config, s: State, steps: seq<Step>, id: int)
    requires cfg.maxAttempts >= 1
    requires SystemInv(cfg, s) && Legal(cfg, s, steps)
    requires id in s.floor.reservations
    ensures var g := Run(cfg, s, steps).floor;
      id in g.reservations && g.reservations[id].code == s.floor.reservations[id].code
  {
    if steps != [] {
      var init := steps[..|steps| - 1];
      CodesLast(cfg, s, init, id);
      RunKeepsInv(cfg, s, init);
      StepKeepsCode(cfg, Run(cfg, s, init), steps[|steps| - 1], id);
    }
  }

  /** The code a customer once got finds the reservation ever after, however it is typed, and nothing else does. */
  lemma {:induction false} CodeFindsReservationEverAfter(cfg: Config, s: State,
        steps: seq<Step>, id: int, typed: string)
    requires cfg.maxAttempts >= 1
    requires SystemInv(cfg, s) && Legal(cfg, s, steps)
    requires id in s.floor.reservations
    ensures B.ByCode(Run(cfg, s, steps).floor, typed) == Some(id)
      <==> Codes.Variant(typed, s.floor.reservations[id].code)
    ensures B.ByCode(Run(cfg, s, steps).floor, Codes.Printed(s.floor.reservations[id].code)) == Some(id)
  {
    CodesLast(cfg, s, steps, id);
    RunKeepsInv(cfg, s, steps);
    A.LookupFindsExactlyVariants(Run(cfg, s, steps).floor, typed, id);
    A.LookupFindsPrinted(Run(cfg, s, steps).floor, id);
  }

  // ----- the kill switch

  lemma {:induction false} StepKeepsCustom(cfg: Config, s: State, step: Step, id: int)
    requires cfg.suppress && SystemInv(cfg, s) && Enabled(cfg, s, step)
    requires forall j :: j in s.queue.rows ==> s.queue.rows[j].kind == CustomMsg
    requires id in Apply(cfg, s, step).queue.rows
    ensures Apply(cfg, s, step).queue.rows[id].kind == CustomMsg
  {
    if id in s.queue.rows {
      StepMoves(cfg, s, step, id);
    } else if IsCrud(step) {
      CrudStepEffect(cfg, s, step);
    }
  }

  /** While messages are suppressed only the agent's own ones ever enter the queue. */
  lemma {:induction false} KillSwitch(cfg: Config, s: State, steps: seq<Step>, id: int)
    requires cfg.maxAttempts >= 1 && cfg.suppress
    requires Initial(s) && Legal(cfg, s, steps)
    requires id in Run(cfg, s, steps).queue.rows
    ensures Run(cfg, s, steps).queue.rows[id].kind == CustomMsg
  {
    if steps != [] {
      var init := steps[..|steps| - 1];
      RunKeepsInv(cfg, s, init);
      forall j | j in Run(cfg, s, init).queue.rows
        ensures Run(cfg, s, init).queue.rows[j].kind == CustomMsg
      {
        KillSwitch(cfg, s, init, j);
      }
      StepKeepsCustom(cfg, Run(cfg, s, init), steps[|steps| - 1], id);
    }
  }

  // ----- a cancelled reservation that is reminded

  /** No state of the run, first and last included, has a pending reminder for the reservation. */
  ghost predicate SilentThroughout(cfg: Config, s: State, steps: seq<Step>, reservation: int) {
    && !R.ReminderPending(Run(cfg, s, steps).queue, reservation)
    && (steps != [] ==> SilentThroughout(cfg, s, steps[..|steps| - 1], reservation))
  }

  /** No step of the run patches the reservation's time or fails on a reminder of it that has tries left. */
  ghost predicate NeverRevived(cfg: Config, s: State, steps: seq<Step>, reservation: int) {
    steps != [] ==>
      && NeverRevived(cfg, s, steps[..|steps| - 1], reservation)
      && !R.Revives(cfg, Run(cfg, s, steps[..|steps| - 1]), steps[|steps| - 1], reservation)
  }

  /** Once without a pending reminder, a reservation stays so exactly as long as no step revives one. */
  lemma {:induction false} SilentUntilRevived(cfg: Config, s: State, steps: seq<Step>, reservation: int)
    requires cfg.maxAttempts >= 1
    requires SystemInv(cfg, s) && Legal(cfg, s, steps)
    requires reservation in s.floor.reservations && !R.ReminderPending(s.queue, reservation)
    ensures SilentThroughout(cfg, s, steps, reservation) <==> NeverRevived(cfg, s, steps, reservation)
  {
    if steps != [] {
      var init := steps[..|steps| - 1];
      SilentUntilRevived(cfg, s, init, reservation);
      if SilentThroughout(cfg, s, init, reservation) {
        assert !R.ReminderPending(Run(cfg, s, init).queue, reservation);
        RunKeepsInv(cfg, s, init);
        CodesLast(cfg, s, init, reservation);
        R.RevivedExactlyBy(cfg, Run(cfg, s, init), steps[|steps| - 1], reservation);
      }
    }
  }

  // ----- superseded reminders

  /** The step records a failure of row `id` while it has tries left. */
  predicate Retries(cfg: Config, s: State, step: Step, id: int) {
    && step.Ack? && s.worker.sent == Some(false) && s.worker.batch != [] && s.worker.batch[0] == id
    && id in s.queue.rows && s.queue.rows[id].attempts < cfg.maxAttempts
  }

  predicate IsPending(s: State, id: int) {
    id in s.queue.rows && s.queue.rows[id].status == Pending
  }

  /** A row becomes pending again by nothing but a failure while it was in flight. */
  lemma {:induction false} PendingExactlyByRetry(cfg: Config, s: State, step: Step, id: int)
    requires SystemInv(cfg, s) && Enabled(cfg, s, step)
    requires id in s.queue.rows && !IsPending(s, id)
    ensures IsPending(Apply(cfg, s, step), id) <==> Retries(cfg, s, step, id)
    ensures Retries(cfg, s, step, id) ==> s.queue.rows[id].status == InFlight
  {
    if IsCrud(step) {
      CrudStepEffect(cfg, s, step);
    } else if step.Ack? {
      assert s.worker.sent == Some(s.worker.sent.value);
      if s.worker.sent.value {
        assert s.worker.sent == Some(true);
      } else {
        assert s.worker.sent == Some(false);
      }
    }
  }

  /** Row `id` is pending in no state of the run. */
  ghost predicate NeverPending(cfg: Config, s: State, steps: seq<Step>, id: int) {
    && !IsPending(Run(cfg, s, steps), id)
    && (steps != [] ==> NeverPending(cfg, s, steps[..|steps| - 1], id))
  }

  ghost predicate NeverRetried(cfg: Config, s: State, steps: seq<Step>, id: int) {
    steps != [] ==>
      && NeverRetried(cfg, s, steps[..|steps| - 1], id)
      && !Retries(cfg, Run(cfg, s, steps[..|steps| - 1]), steps[|steps| - 1], id)
  }

  lemma {:induction false} RowStays(cfg: Config, s: State, steps: seq<Step>, id: int)
    requires cfg.maxAttempts >= 1
    requires SystemInv(cfg, s) && Legal(cfg, s, steps)
    requires id in s.queue.rows
    ensures id in Run(cfg, s, steps).queue.rows
  {
    if steps != [] {
      var init := steps[..|steps| - 1];
      RowStays(cfg, s, init, id);
      RunKeepsInv(cfg, s, init);
      StepMoves(cfg, Run(cfg, s, init), steps[|steps| - 1], id);
    }
  }

  lemma {:induction false} PendingOnlyByRetry(cfg: Config, s: State, steps: seq<Step>, id: int)
    requires cfg.maxAttempts >= 1
    requires SystemInv(cfg, s) && Legal(cfg, s, steps)
    requires id in s.queue.rows && !IsPending(s, id)
    ensures NeverPending(cfg, s, steps, id) <==> NeverRetried(cfg, s, steps, id)
  {
    if steps != [] {
      var init := steps[..|steps| - 1];
      PendingOnlyByRetry(cfg, s, init, id);
      if NeverPending(cfg, s, init, id) {
        assert !IsPending(Run(cfg, s, init), id);
        RunKeepsInv(cfg, s, init);
        RowStays(cfg, s, init, id);
        PendingExactlyByRetry(cfg, Run(cfg, s, init), steps[|steps| - 1], id);
      }
    }
  }

  /** A row that has come to its end is retried in no run. */
  lemma {:induction false} FinalNeverRetried(cfg: Config, s: State, steps: seq<Step>, id: int)
    requires cfg.maxAttempts >= 1
    requires SystemInv(cfg, s) && Legal(cfg, s, steps)
    requires id in s.queue.rows && Final(s.queue.rows[id].status)
    ensures NeverRetried(cfg, s, steps, id)
  {
    if steps != [] {
      var init := steps[..|steps| - 1];
      FinalNeverRetried(cfg, s, init, id);
      RunKeepsInv(cfg, s, init);
      FinalRowsStay(cfg, s, init, id);
    }
  }

  lemma {:induction false} SupersededNow(cfg: Config, s: State, change: Step, id: int)
    requires SystemInv(cfg, s) && change.Change? && change.patch.at.Set? && Enabled(cfg, s, change)
    requires change.id in s.floor.reservations && B.Update(s.floor, change.id, change.patch).Ok?
    requires id in s.queue.rows && R.IsReminderOf(s.queue.rows[id], change.id)
    ensures var t := Apply(cfg, s, change);
      && id in t.queue.rows && !IsPending(t, id)
      && (t.queue.rows[id].status == InFlight <==> s.queue.rows[id].status == InFlight)
  {
    CrudStepEffect(cfg, s, change);
    var r := B.Update(s.floor, change.id, change.patch).value.reservations[change.id];
    var told := if change.patch.Moves() then
                  Enqueue(cfg, s.queue, Some(change.id), UpdatedMsg, r.phone, change.n1, change.n1)
                else s.queue;
    assert told.rows[id] == s.queue.rows[id];
  }

  /**
   After a successful patch of a reservation's time none of its earlier reminders is pending, and
   one becomes pending again in a later run exactly if it was in flight at the patch and a
   failure is recorded for it while it has tries left.
   */
  lemma {:induction false} SupersededReminders(cfg: Config, s: State, change: Step, steps: seq<Step>, id: int)
    requires cfg.maxAttempts >= 1
    requires SystemInv(cfg, s) && change.Change? && change.patch.at.Set? && Enabled(cfg, s, change)
    requires change.id in s.floor.reservations && B.Update(s.floor, change.id, change.patch).Ok?
    requires id in s.queue.rows && R.IsReminderOf(s.queue.rows[id], change.id)
    requires Legal(cfg, Apply(cfg, s, change), steps)
    ensures var t := Apply(cfg, s, change);
      && NeverPending(cfg, t, [], id)
      && (!NeverPending(cfg, t, steps, id)
          <==> s.queue.rows[id].status == InFlight && !NeverRetried(cfg, t, steps, id))
  {
    var t := Apply(cfg, s, change);
    StepKeepsInv(cfg, s, change);
    SupersededNow(cfg, s, change, id);
    PendingOnlyByRetry(cfg, t, steps, id);
    if s.queue.rows[id].status != InFlight {
      FinalNeverRetried(cfg, t, steps, id);
    }
  }

  // ----- a run that ends with a cancelled reservation and its reminder

  const DEFAULTS := Config(24 * B.HOUR, 5, false)
  const CODE: string := "ACDEFG"

  /** One table is added, booked, given up, and the booking then moved by an hour. */
  function LateStep(k: nat): Step {
    if k == 0 then AddTable(B.NewTable("T01", 2, None))
    else if k == 1 then
      Book(B.NewReservation("+34911234567", "Ana", None, 2, 0, Some(1)), seq(B.CODE_TRIES, i => CODE), 0, 0)
    else if k == 2 then CancelBooking(1, 0)
    else Change(1, B.ReservationPatch(Keep, Keep, Keep, Keep, Set(B.HOUR), Keep), 0, 0)
  }

  function LateSteps(n: nat): seq<Step> {
    if n == 0 then [] else LateSteps(n - 1) + [LateStep(n - 1)]
  }

  function Start(): State {
    State(B.EMPTY, NO_MESSAGES, 0, IDLE)
  }

  lemma {:induction false} LateNext(n: nat)
    requires Legal(DEFAULTS, Start(), LateSteps(n))
    requires Enabled(DEFAULTS, Run(DEFAULTS, Start(), LateSteps(n)), LateStep(n))
    ensures Legal(DEFAULTS, Start(), LateSteps(n + 1))
    ensures Run(DEFAULTS, Start(), LateSteps(n + 1))
         == Apply(DEFAULTS, Run(DEFAULTS, Start(), LateSteps(n)), LateStep(n))
  {
    OneMoreStep(DEFAULTS, Start(), LateSteps(n), LateStep(n));
  }

  lemma {:induction false} OneTable()
    ensures Legal(DEFAULTS, Start(), LateSteps(1))
    ensures Run(DEFAULTS, Start(), LateSteps(1))
         == State(B.EMPTY.(tables := map[1 := B.Table("T01", 2, None)], nextTable := 2), NO_MESSAGES, 0, IDLE)
  {
    assert LateSteps(0) == [];
    LateNext(0);
  }

  lemma {:induction false} OneBooking()
    ensures Legal(DEFAULTS, Start(), LateSteps(2))
    ensures var t := Run(DEFAULTS, Start(), LateSteps(2));
      && t.now == 0 && t.floor.reservations.Keys == {1} && t.floor.reservations[1].status == B.Confirmed
      && t.floor.tables == map[1 := B.Table("T01", 2, None)] && t.floor.reservations[1].party == 2
      && t.floor.reservations[1].table == Some(1)
  {
    OneTable();
    var s := Run(DEFAULTS, Start(), LateSteps(1));
    var step := LateStep(1);
    assert Codes.IsCode(CODE);
    assert Enabled(DEFAULTS, s, step);
    assert B.Resolve(s.floor, Some(1), 2, 0, None) == Ok(1);
    assert step.draws[0] == CODE && B.CodesInUse(s.floor) == {};
    LateNext(1);
  }

  lemma {:induction false} OneCancelled()
    ensures Legal(DEFAULTS, Start(), LateSteps(3))
    ensures var t := Run(DEFAULTS, Start(), LateSteps(3));
      && t.now == 0 && t.floor.reservations.Keys == {1} && t.floor.reservations[1].status == B.Cancelled
      && t.floor.tables == map[1 := B.Table("T01", 2, None)] && t.floor.reservations[1].party == 2
      && t.floor.reservations[1].table == Some(1)
      && !R.ReminderPending(t.queue, 1)
  {
    OneBooking();
    var s := Run(DEFAULTS, Start(), LateSteps(2));
    var step := LateStep(2);
    LateNext(2);
    R.CancelSilencesReminders(DEFAULTS, s, step);
  }

  lemma {:induction false} CancelledMoves(f: B.Floor)
    requires f.reservations.Keys == {1} && f.tables == map[1 := B.Table("T01", 2, None)]
    requires f.reservations[1].party == 2 && f.reservations[1].table == Some(1)
    ensures B.Update(f, 1, B.ReservationPatch(Keep, Keep, Keep, Keep, Set(B.HOUR), Keep)).Ok?
  {
    assert !B.HasConflict(f, 1, B.HOUR, Some(1));
  }

  lemma {:induction false} OneReminded()
    ensures Legal(DEFAULTS, Start(), LateSteps(4))
    ensures var t := Run(DEFAULTS, Start(), LateSteps(4));
      && 1 in t.floor.reservations && t.floor.reservations[1].status == B.Cancelled
      && R.ReminderPending(t.queue, 1)
  {
    OneCancelled();
    EmptyDatabaseIsInitial(0);
    var s, step := Run(DEFAULTS, Start(), LateSteps(3)), LateStep(3);
    RunKeepsInv(DEFAULTS, Start(), LateSteps(3));
    LateNext(3);
    CancelledMoves(s.floor);
    R.RevivedExactlyBy(DEFAULTS, s, step, 1);
  }

  /** A cancelled reservation whose time is patched is reminded again: a run that starts from nothing. */
  lemma {:induction false} CancelledYetReminded()
    ensures exists cfg: Config, t0: int, steps: seq<Step>, id: int ::
      && cfg.maxAttempts >= 1 && Legal(cfg, State(B.EMPTY, NO_MESSAGES, t0, IDLE), steps)
      && var t := Run(cfg, State(B.EMPTY, NO_MESSAGES, t0, IDLE), steps);
         && id in t.floor.reservations && t.floor.reservations[id].status == B.Cancelled
         && R.ReminderPending(t.queue, id)
  {
    OneReminded();
    assert Start() == State(B.EMPTY, NO_MESSAGES, 0, IDLE);
    assert Legal(DEFAULTS, State(B.EMPTY, NO_MESSAGES, 0, IDLE), LateSteps(4));
  }
}
