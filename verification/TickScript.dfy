/**
 What one tick of the worker does, given everything that happens around it.

 A `script` tells, for each row of the claimed batch, which calls other clients make before and
 after it is handed to the notifier, how the notifier deals with it, and whether the worker dies.
 The functions below give the steps of the tick; `TickOutcome` says what has become of every row.
 */
module TickScript {
  import opened Prelude
  import opened Ordering
  import opened Messages
  import opened System
  import opened Protocol
  import opened Attempts

  /** What becomes of the row at the head of the batch. */
  datatype Fate =
    | Lost
    | Dispatched(ok: bool, between: seq<Step>, ackAt: Option<int>)

  /** The calls that come before a row is dispatched, and its fate. */
  datatype Moment = Moment(before: seq<Step>, fate: Fate)

  /** The notifier takes the row. */
  predicate IsOk(moment: Moment) {
    moment.fate.Dispatched? && moment.fate.ok
  }

  /** The worker lives to record the outcome for this row. */
  predicate Survives(moment: Moment) {
    moment.fate.Dispatched? && moment.fate.ackAt.Some?
  }

  /** How many of the first `n` rows the worker gets through before it dies, if it dies. */
  function Reached(script: nat -> Moment, n: nat): (r: nat)
    ensures r <= n
  {
    if n == 0 then 0
    else
      var r := Reached(script, n - 1);
      if r == n - 1 && Survives(script(n - 1)) then n else r
  }

  /** How many of the first `n` rows the notifier takes. */
  function Taken(script: nat -> Moment, n: nat): nat {
    if n == 0 then 0
    else Taken(script, n - 1) + if IsOk(script(n - 1)) then 1 else 0
  }

  // ----- the steps of a tick

  /** The run `steps`, followed by the call if it is possible now. */
  ghost function WithCall(cfg: Config, s: State, steps: seq<Step>, call: Step): seq<Step> {
    if IsCrud(call) && Enabled(cfg, Run(cfg, s, steps), call) then steps + [call] else steps
  }

  /** The run `steps`, followed by those of the calls that are possible when their turn comes. */
  ghost function WithCalls(cfg: Config, s: State, steps: seq<Step>, calls: seq<Step>): seq<Step> {
    if calls == [] then steps
    else WithCall(cfg, s, WithCalls(cfg, s, steps, calls[..|calls| - 1]), calls[|calls| - 1])
  }

  /** Every call is possible when its turn comes. */
  ghost predicate AllPossible(cfg: Config, s: State, steps: seq<Step>, calls: seq<Step>) {
    calls != [] ==>
      var init, last := calls[..|calls| - 1], calls[|calls| - 1];
      AllPossible(cfg, s, steps, init) && IsCrud(last) && Enabled(cfg, Run(cfg, s, steps + init), last)
  }

  lemma {:induction false} PossibleCallIsMade(cfg: Config, s: State, steps: seq<Step>, call: Step)
    requires IsCrud(call) && Enabled(cfg, Run(cfg, s, steps), call)
    ensures WithCall(cfg, s, steps, call) == steps + [call]
  {
  }

  /** Calls that are all possible are all made, in order. */
  lemma {:induction false} PossibleCallsAreMade(cfg: Config, s: State, steps: seq<Step>, calls: seq<Step>)
    requires AllPossible(cfg, s, steps, calls)
    ensures WithCalls(cfg, s, steps, calls) == steps + calls
  {
    if calls == [] {
      assert steps + calls == steps;
    } else {
      var init, last := calls[..|calls| - 1], calls[|calls| - 1];
      PossibleCallsAreMade(cfg, s, steps, init);
      PossibleCallIsMade(cfg, s, steps + init, last);
      assert steps + calls == (steps + init) + [last];
    }
  }

  /** The run `steps`, followed by what happens around the row at the head of the batch. */
  ghost function WithRow(cfg: Config, s: State, steps: seq<Step>, moment: Moment): seq<Step> {
    var before := WithCalls(cfg, s, steps, moment.before);
    match moment.fate
    case Lost => before + [Crash]
    case Dispatched(ok, between, ackAt) =>
      var after := WithCalls(cfg, s, before + [Send(ok)], between);
      match ackAt
      case None => after + [Crash]
      case Some(at) => after + [Ack(Max(Run(cfg, s, after).now, at))]
  }

  /** The run `steps`, followed by what happens around the first `n` rows of the batch, as far as the worker lives. */
  ghost function WithRows(cfg: Config, s: State, steps: seq<Step>, script: nat -> Moment, n: nat): seq<Step> {
    if n == 0 then steps
    else
      var more := WithRows(cfg, s, steps, script, n - 1);
      if Reached(script, n - 1) == n - 1 then WithRow(cfg, s, more, script(n - 1)) else more
  }

  /** The steps of a whole tick that claims the rows `due`. */
  ghost function TickSteps(cfg: Config, s: State, due: seq<int>, claimAt: int, script: nat -> Moment): seq<Step> {
    WithRows(cfg, s, [Claiming(due, claimAt)], script, |due|)
  }

  lemma {:induction false} NextTurn(cfg: Config, s: State, steps: seq<Step>, script: nat -> Moment, k: nat)
    requires Reached(script, k) == k
    ensures WithRows(cfg, s, steps, script, k + 1) == WithRow(cfg, s, WithRows(cfg, s, steps, script, k), script(k))
    ensures Reached(script, k + 1) == if Survives(script(k)) then k + 1 else k
    ensures Taken(script, k + 1) == Taken(script, k) + if IsOk(script(k)) then 1 else 0
  {
  }

  /** After the worker's death nothing more happens in its tick. */
  lemma {:induction false} NothingAfterDeath(cfg: Config, s: State, steps: seq<Step>,
        script: nat -> Moment, k: nat, n: nat)
    requires k < n && Reached(script, k + 1) == k
    ensures Reached(script, n) == k
    ensures WithRows(cfg, s, steps, script, n) == WithRows(cfg, s, steps, script, k + 1)
  {
    if k + 1 < n {
      NothingAfterDeath(cfg, s, steps, script, k, n - 1);
    }
  }

  // ----- where every row stands

  predicate RecordsFor(s: State, step: Step, id: int) {
    step.Ack? && s.worker.batch != [] && s.worker.batch[0] == id
  }

  /** How often, in a run, an outcome was recorded for row `id`. */
  ghost function Records(cfg: Config, s: State, steps: seq<Step>, id: int): nat {
    if steps == [] then 0
    else
      var init, last := steps[..|steps| - 1], steps[|steps| - 1];
      Records(cfg, s, init, id) + if RecordsFor(Run(cfg, s, init), last, id) then 1 else 0
  }

  /** When an outcome was last recorded for row `id`, by the clock of the record. */
  ghost function RecordedAt(cfg: Config, s: State, steps: seq<Step>, id: int): int {
    if steps == [] then 0
    else
      var init, last := steps[..|steps| - 1], steps[|steps| - 1];
      if RecordsFor(Run(cfg, s, init), last, id) then last.n1 else RecordedAt(cfg, s, init, id)
  }

  /**
   What a claimed row has become once its outcome is recorded, at clock reading `at`. A reminder that
   is to be tried again may since have been cancelled by a call.
   */
  predicate Settled(cfg: Config, claimed: Row, at: int, ok: bool, row: Row) {
    if ok then row == claimed.(status := Sent)
    else if claimed.attempts >= cfg.maxAttempts then row == claimed.(status := Failed)
    else
      var again := claimed.(status := Pending, at := at + Min(60 * Pow2(claimed.attempts), 3600) * SECOND);
      row == again || (claimed.kind == ReminderMsg && row == again.(status := Dropped))
  }

  /** The first `k` rows are settled, the others are as the claim `c` left them. */
  ghost predicate Stand(cfg: Config, s: State, c: State, due: seq<int>,
        script: nat -> Moment, k: nat, steps: seq<Step>)
  {
    var t := Run(cfg, s, steps);
    forall j | 0 <= j < |due| ::
      && due[j] in c.queue.rows && due[j] in t.queue.rows
      && c.queue.rows[due[j]].status == InFlight
      && if j < k then
           var at := RecordedAt(cfg, s, steps, due[j]);
           && Survives(script(j)) && c.now <= at <= t.now && script(j).fate.ackAt.value <= at
           && Settled(cfg, c.queue.rows[due[j]], at, IsOk(script(j)), t.queue.rows[due[j]])
         else t.queue.rows[due[j]] == c.queue.rows[due[j]]
  }

  /** `k` rows have been recorded, `h` handed over, each of them once, and no other of the batch. */
  ghost predicate Counted(cfg: Config, s: State, due: seq<int>,
        script: nat -> Moment, k: nat, h: nat, steps: seq<Step>)
  {
    forall j | 0 <= j < |due| ::
      && Dispatches(cfg, s, steps, due[j]) == (if j < h then 1 else 0)
      && Deliveries(cfg, s, steps, due[j]) == (if j < h && IsOk(script(j)) then 1 else 0)
      && Records(cfg, s, steps, due[j]) == (if j < k then 1 else 0)
  }

  ghost predicate Progress(cfg: Config, s: State, c: State, due: seq<int>,
        script: nat -> Moment, k: nat, h: nat, steps: seq<Step>, worker: Worker)
  {
    var t := Run(cfg, s, steps);
    && Legal(cfg, s, steps) && SystemInv(cfg, t) && t.worker == worker && t.now >= c.now
    && Crash !in steps
    && Stand(cfg, s, c, due, script, k, steps)
    && Counted(cfg, s, due, script, k, h, steps)
  }

  lemma {:induction false} CountsNext(cfg: Config, s: State, steps: seq<Step>, step: Step, id: int)
    ensures var t := Run(cfg, s, steps);
      && Dispatches(cfg, s, steps + [step], id) == Dispatches(cfg, s, steps, id) + (if Hands(t, step, id) then 1 else 0)
      && Deliveries(cfg, s, steps + [step], id)
           == Deliveries(cfg, s, steps, id) + (if Hands(t, step, id) && step.ok then 1 else 0)
      && Records(cfg, s, steps + [step], id) == Records(cfg, s, steps, id) + (if RecordsFor(t, step, id) then 1 else 0)
      && RecordedAt(cfg, s, steps + [step], id)
           == (if RecordsFor(t, step, id) then step.n1 else RecordedAt(cfg, s, steps, id))
  {
    assert (steps + [step])[..|steps|] == steps;
  }

  lemma {:induction false} SettledStays(cfg: Config, claimed: Row, at: int, ok: bool, row: Row, row': Row)
    requires claimed.status == InFlight && Settled(cfg, claimed, at, ok, row) && KeptOrDropped(row, row')
    ensures Settled(cfg, claimed, at, ok, row')
  {
  }

  lemma {:induction false} CrudKeepsRow(q: Queue, q': Queue, id: int)
    requires CrudEffect(q, q') && id in q.rows
    ensures id in q'.rows && KeptOrDropped(q.rows[id], q'.rows[id])
  {
  }

  /** A step that records nothing leaves every row of the batch where it stands. */
  lemma {:induction false} StandStays(cfg: Config, s: State, c: State, due: seq<int>,
        script: nat -> Moment, k: nat, steps: seq<Step>, step: Step)
    requires !step.Ack? && Enabled(cfg, Run(cfg, s, steps), step)
    requires CrudEffect(Run(cfg, s, steps).queue, Apply(cfg, Run(cfg, s, steps), step).queue)
    requires Stand(cfg, s, c, due, script, k, steps)
    ensures Stand(cfg, s, c, due, script, k, steps + [step])
  {
    var t := Run(cfg, s, steps);
    var t' := Apply(cfg, t, step);
    OneMoreStep(cfg, s, steps, step);
    ClockNeverTurnsBack(cfg, t, step);
    forall j | 0 <= j < |due|
      ensures due[j] in t'.queue.rows && KeptOrDropped(t.queue.rows[due[j]], t'.queue.rows[due[j]])
      ensures RecordedAt(cfg, s, steps + [step], due[j]) == RecordedAt(cfg, s, steps, due[j])
      ensures j < k ==> Settled(cfg, c.queue.rows[due[j]], RecordedAt(cfg, s, steps, due[j]), IsOk(script(j)),
                                t'.queue.rows[due[j]])
    {
      CrudKeepsRow(t.queue, t'.queue, due[j]);
      CountsNext(cfg, s, steps, step, due[j]);
      if j < k {
        SettledStays(cfg, c.queue.rows[due[j]], RecordedAt(cfg, s, steps, due[j]), IsOk(script(j)),
                     t.queue.rows[due[j]], t'.queue.rows[due[j]]);
      }
    }
  }

  lemma {:induction false} CrudIsNotCounted(cfg: Config, s: State, due: seq<int>,
        script: nat -> Moment, k: nat, h: nat, steps: seq<Step>, step: Step)
    requires Counted(cfg, s, due, script, k, h, steps) && IsCrud(step)
    ensures Counted(cfg, s, due, script, k, h, steps + [step])
  {
    forall j | 0 <= j < |due| {
      CountsNext(cfg, s, steps, step, due[j]);
    }
  }

  lemma {:induction false} CallProgress(cfg: Config, s: State, c: State, due: seq<int>,
        script: nat -> Moment, k: nat, h: nat, steps: seq<Step>, worker: Worker, step: Step)
    requires cfg.maxAttempts >= 1 && Progress(cfg, s, c, due, script, k, h, steps, worker)
    requires IsCrud(step) && Enabled(cfg, Run(cfg, s, steps), step)
    ensures Progress(cfg, s, c, due, script, k, h, steps + [step], worker)
  {
    var t := Run(cfg, s, steps);
    OneMoreStep(cfg, s, steps, step);
    StepKeepsInv(cfg, t, step);
    CrudStepEffect(cfg, t, step);
    StandStays(cfg, s, c, due, script, k, steps, step);
    CrudIsNotCounted(cfg, s, due, script, k, h, steps, step);
  }

  lemma {:induction false} CallsProgress(cfg: Config, s: State, c: State, due: seq<int>,
        script: nat -> Moment, k: nat, h: nat, steps: seq<Step>, worker: Worker, calls: seq<Step>)
    requires cfg.maxAttempts >= 1 && Progress(cfg, s, c, due, script, k, h, steps, worker)
    ensures Progress(cfg, s, c, due, script, k, h, WithCalls(cfg, s, steps, calls), worker)
  {
    if calls != [] {
      var init, last := calls[..|calls| - 1], calls[|calls| - 1];
      CallsProgress(cfg, s, c, due, script, k, h, steps, worker, init);
      var more := WithCalls(cfg, s, steps, init);
      if IsCrud(last) && Enabled(cfg, Run(cfg, s, more), last) {
        CallProgress(cfg, s, c, due, script, k, h, more, worker, last);
      }
    }
  }

  lemma {:induction false} SendProgress(cfg: Config, s: State, c: State, due: seq<int>,
        script: nat -> Moment, k: nat, steps: seq<Step>)
    requires cfg.maxAttempts >= 1 && k < |due| && Distinct(due) && script(k).fate.Dispatched?
    requires Progress(cfg, s, c, due, script, k, k, steps, Worker(due[k..], None))
    ensures var ok := script(k).fate.ok;
      Progress(cfg, s, c, due, script, k, k + 1, steps + [Send(ok)], Worker(due[k..], Some(ok)))
  {
    var step := Send(script(k).fate.ok);
    OneMoreStep(cfg, s, steps, step);
    StepKeepsInv(cfg, Run(cfg, s, steps), step);
    StandStays(cfg, s, c, due, script, k, steps, step);
    assert due[k..][0] == due[k];
    forall j | 0 <= j < |due|
      ensures Hands(Run(cfg, s, steps), step, due[j]) <==> j == k
      ensures !RecordsFor(Run(cfg, s, steps), step, due[j])
    {
      CountsNext(cfg, s, steps, step, due[j]);
    }
    forall j | 0 <= j < |due| {
      CountsNext(cfg, s, steps, step, due[j]);
    }
  }

  lemma {:induction false} AckSettlesRow(cfg: Config, q: Queue, id: int, ok: bool, at: int)
    requires id in q.rows && q.rows[id].status == InFlight
    ensures var q' := if ok then MarkSent(q, id) else MarkFailedOrRetry(q, id, cfg.maxAttempts, at);
      id in q'.rows && Settled(cfg, q.rows[id], at, ok, q'.rows[id])
  {
  }

  lemma {:induction false} AckSettles(cfg: Config, s: State, c: State, due: seq<int>,
        script: nat -> Moment, k: nat, steps: seq<Step>, at: int)
    requires k < |due| && Distinct(due)
    requires c.now <= Run(cfg, s, steps).now <= at && Survives(script(k)) && script(k).fate.ackAt.value <= at
    requires Stand(cfg, s, c, due, script, k, steps)
    requires Run(cfg, s, steps).worker == Worker(due[k..], Some(IsOk(script(k))))
    ensures Stand(cfg, s, c, due, script, k + 1, steps + [Ack(at)])
  {
    var t := Run(cfg, s, steps);
    var q := Apply(cfg, t, Ack(at)).queue;
    OneMoreStep(cfg, s, steps, Ack(at));
    assert due[k..][0] == due[k];
    forall j | 0 <= j < |due|
      ensures j != k ==> due[j] in t.queue.rows && q.rows[due[j]] == t.queue.rows[due[j]]
      ensures RecordedAt(cfg, s, steps + [Ack(at)], due[j])
           == if j == k then at else RecordedAt(cfg, s, steps, due[j])
    {
      CountsNext(cfg, s, steps, Ack(at), due[j]);
    }
    AckSettlesRow(cfg, t.queue, due[k], IsOk(script(k)), at);
  }

  lemma {:induction false} AckProgress(cfg: Config, s: State, c: State, due: seq<int>,
        script: nat -> Moment, k: nat, steps: seq<Step>, at: int)
    requires cfg.maxAttempts >= 1 && k < |due| && Distinct(due)
    requires Progress(cfg, s, c, due, script, k, k + 1, steps, Worker(due[k..], Some(IsOk(script(k)))))
    requires at >= Run(cfg, s, steps).now && Survives(script(k)) && script(k).fate.ackAt.value <= at
    ensures Progress(cfg, s, c, due, script, k + 1, k + 1, steps + [Ack(at)], Worker(due[k + 1..], None))
  {
    var t, step := Run(cfg, s, steps), Ack(at);
    OneMoreStep(cfg, s, steps, step);
    StepKeepsInv(cfg, t, step);
    AckSettles(cfg, s, c, due, script, k, steps, at);
    assert due[k..][0] == due[k] && due[k..][1..] == due[k + 1..];
    forall j | 0 <= j < |due|
      ensures RecordsFor(t, step, due[j]) <==> j == k
      ensures !Hands(t, step, due[j])
    {
    }
    forall j | 0 <= j < |due| {
      CountsNext(cfg, s, steps, step, due[j]);
    }
  }

  /** Up to the moment at which the outcome is known. */
  lemma {:induction false} HandOverProgress(cfg: Config, s: State, c: State, due: seq<int>,
        script: nat -> Moment, k: nat, steps: seq<Step>)
    requires cfg.maxAttempts >= 1 && k < |due| && Distinct(due) && script(k).fate.Dispatched?
    requires Progress(cfg, s, c, due, script, k, k, steps, Worker(due[k..], None))
    ensures var fate := script(k).fate;
      var sent := WithCalls(cfg, s, steps, script(k).before) + [Send(fate.ok)];
      Progress(cfg, s, c, due, script, k, k + 1, WithCalls(cfg, s, sent, fate.between), Worker(due[k..], Some(fate.ok)))
  {
    var fate, before := script(k).fate, WithCalls(cfg, s, steps, script(k).before);
    CallsProgress(cfg, s, c, due, script, k, k, steps, Worker(due[k..], None), script(k).before);
    SendProgress(cfg, s, c, due, script, k, before);
    CallsProgress(cfg, s, c, due, script, k, k + 1, before + [Send(fate.ok)], Worker(due[k..], Some(fate.ok)),
                  fate.between);
  }

  /** A row that the worker survives is handed over, recorded and settled. */
  lemma {:induction false} RowProgress(cfg: Config, s: State, c: State, due: seq<int>,
        script: nat -> Moment, k: nat, steps: seq<Step>)
    requires cfg.maxAttempts >= 1 && k < |due| && Distinct(due) && Survives(script(k))
    requires Progress(cfg, s, c, due, script, k, k, steps, Worker(due[k..], None))
    ensures Progress(cfg, s, c, due, script, k + 1, k + 1, WithRow(cfg, s, steps, script(k)),
                     Worker(due[k + 1..], None))
  {
    var fate := script(k).fate;
    var sent := WithCalls(cfg, s, steps, script(k).before) + [Send(fate.ok)];
    var after := WithCalls(cfg, s, sent, fate.between);
    HandOverProgress(cfg, s, c, due, script, k, steps);
    AckProgress(cfg, s, c, due, script, k, after, Max(Run(cfg, s, after).now, fate.ackAt.value));
  }

  // ----- the end of the tick

  /**
   The outcome of a tick in which the worker gets through `d` rows of its batch: these are settled,
   each handed over and recorded once; if the worker dies, all others are stranded, and at most
   the first of them has been handed over.
   */
  ghost predicate Outcome(cfg: Config, s: State, c: State, due: seq<int>,
        script: nat -> Moment, d: nat, steps: seq<Step>)
  {
    var t := Run(cfg, s, steps);
    && Legal(cfg, s, steps) && SystemInv(cfg, t) && t.worker == IDLE
    && (Crash in steps <==> d < |due|)
    && Stand(cfg, s, c, due, script, d, steps)
    && Counted(cfg, s, due, script, d, if d < |due| && script(d).fate.Dispatched? then d + 1 else d, steps)
    && forall j | d <= j < |due| :: Stranded(t, due[j])
  }

  lemma {:induction false} DeathOutcome(cfg: Config, s: State, c: State, due: seq<int>,
        script: nat -> Moment, k: nat, steps: seq<Step>, worker: Worker)
    requires cfg.maxAttempts >= 1 && k < |due|
    requires Progress(cfg, s, c, due, script, k, if script(k).fate.Dispatched? then k + 1 else k, steps, worker)
    ensures Outcome(cfg, s, c, due, script, k, steps + [Crash])
  {
    var t := Run(cfg, s, steps);
    OneMoreStep(cfg, s, steps, Crash);
    StepKeepsInv(cfg, t, Crash);
    StandStays(cfg, s, c, due, script, k, steps, Crash);
    forall j | 0 <= j < |due| {
      CountsNext(cfg, s, steps, Crash, due[j]);
    }
    assert (steps + [Crash])[|steps|] == Crash;
  }

  lemma {:induction false} RowDies(cfg: Config, s: State, c: State, due: seq<int>,
        script: nat -> Moment, k: nat, steps: seq<Step>)
    requires cfg.maxAttempts >= 1 && k < |due| && Distinct(due) && !Survives(script(k))
    requires Progress(cfg, s, c, due, script, k, k, steps, Worker(due[k..], None))
    ensures Outcome(cfg, s, c, due, script, k, WithRow(cfg, s, steps, script(k)))
  {
    var fate, before := script(k).fate, WithCalls(cfg, s, steps, script(k).before);
    if fate.Lost? {
      CallsProgress(cfg, s, c, due, script, k, k, steps, Worker(due[k..], None), script(k).before);
      DeathOutcome(cfg, s, c, due, script, k, before, Worker(due[k..], None));
    } else {
      HandOverProgress(cfg, s, c, due, script, k, steps);
      DeathOutcome(cfg, s, c, due, script, k, WithCalls(cfg, s, before + [Send(fate.ok)], fate.between),
                   Worker(due[k..], Some(fate.ok)));
    }
  }

  lemma {:induction false} ClaimProgress(cfg: Config, s: State, due: seq<int>, claimAt: int, script: nat -> Moment)
    requires cfg.maxAttempts >= 1 && SystemInv(cfg, s)
    requires Enabled(cfg, s, Claiming(due, claimAt))
    ensures var claim := Claiming(due, claimAt);
      Progress(cfg, s, Apply(cfg, s, claim), due, script, 0, 0, [claim], Worker(due[0..], None))
  {
    var claim := Claiming(due, claimAt);
    OneMoreStep(cfg, s, [], claim);
    assert [] + [claim] == [claim] && due[0..] == due;
    StepKeepsInv(cfg, s, claim);
    forall j | 0 <= j < |due| {
      CountsNext(cfg, s, [], claim, due[j]);
    }
  }

  /** Where a tick is after the first `n` rows of its batch. */
  ghost predicate After(cfg: Config, s: State, c: State, due: seq<int>, script: nat -> Moment, n: nat, steps: seq<Step>)
    requires n <= |due|
  {
    if Reached(script, n) == n then Progress(cfg, s, c, due, script, n, n, steps, Worker(due[n..], None))
    else Outcome(cfg, s, c, due, script, Reached(script, n), steps)
  }

  lemma {:induction false} NextRow(cfg: Config, s: State, c: State, due: seq<int>,
        script: nat -> Moment, n: nat, steps: seq<Step>)
    requires cfg.maxAttempts >= 1 && n < |due| && Distinct(due) && Reached(script, n) == n
    requires Progress(cfg, s, c, due, script, n, n, steps, Worker(due[n..], None))
    ensures After(cfg, s, c, due, script, n + 1, WithRow(cfg, s, steps, script(n)))
  {
    if Survives(script(n)) {
      RowProgress(cfg, s, c, due, script, n, steps);
    } else {
      RowDies(cfg, s, c, due, script, n, steps);
    }
  }

  lemma {:induction false} OneMoreRow(cfg: Config, s: State, c: State, due: seq<int>,
        script: nat -> Moment, n: nat, steps: seq<Step>)
    requires cfg.maxAttempts >= 1 && n < |due| && Distinct(due)
    requires After(cfg, s, c, due, script, n, WithRows(cfg, s, steps, script, n))
    ensures After(cfg, s, c, due, script, n + 1, WithRows(cfg, s, steps, script, n + 1))
  {
    if Reached(script, n) == n {
      NextRow(cfg, s, c, due, script, n, WithRows(cfg, s, steps, script, n));
    }
  }

  lemma {:induction false} RowsProgress(cfg: Config, s: State, c: State, due: seq<int>,
        script: nat -> Moment, n: nat, steps: seq<Step>)
    requires cfg.maxAttempts >= 1 && n <= |due| && Distinct(due)
    requires After(cfg, s, c, due, script, 0, WithRows(cfg, s, steps, script, 0))
    ensures After(cfg, s, c, due, script, n, WithRows(cfg, s, steps, script, n))
  {
    if n > 0 {
      RowsProgress(cfg, s, c, due, script, n - 1, steps);
      OneMoreRow(cfg, s, c, due, script, n - 1, steps);
    }
  }

  /** `t` is the state after a tick that claims the rows `due` of `s`. */
  ghost predicate Ticks(cfg: Config, s: State, due: seq<int>, claimAt: int, script: nat -> Moment, t: State) {
    var steps := TickSteps(cfg, s, due, claimAt, script);
    && Enabled(cfg, s, Claiming(due, claimAt))
    && t == Run(cfg, s, steps)
    && Outcome(cfg, s, Apply(cfg, s, Claiming(due, claimAt)), due, script, Reached(script, |due|), steps)
  }

  /** What a tick does with every row of its batch, whatever happens around it. */
  lemma {:induction false} TickOutcome(cfg: Config, s: State, due: seq<int>, claimAt: int, script: nat -> Moment)
    requires cfg.maxAttempts >= 1 && SystemInv(cfg, s)
    requires Enabled(cfg, s, Claiming(due, claimAt))
    ensures Outcome(cfg, s, Apply(cfg, s, Claiming(due, claimAt)), due, script, Reached(script, |due|),
                    TickSteps(cfg, s, due, claimAt, script))
  {
    var claim := Claiming(due, claimAt);
    ClaimProgress(cfg, s, due, claimAt, script);
    RowsProgress(cfg, s, Apply(cfg, s, claim), due, script, |due|, [claim]);
    assert due[|due|..] == [];
  }

  // ----- the answer

  /** The rows of the batch whose message has gone out. */
  function SentOf(q: Queue, due: seq<int>): set<int> {
    set id | id in due && id in q.rows && q.rows[id].status == Sent
  }

  lemma {:induction false} OneMoreSent(q: Queue, due: seq<int>, id: int)
    requires id !in due
    ensures |SentOf(q, due + [id])|
         == |SentOf(q, due)| + if id in q.rows && q.rows[id].status == Sent then 1 else 0
  {
    var had := SentOf(q, due);
    assert SentOf(q, due + [id]) == had + if id in q.rows && q.rows[id].status == Sent then {id} else {};
    assert |had + {id}| == |had| + 1;
  }

  /** Row `due[j]` is sent exactly if the notifier took it. */
  predicate SentAsTaken(q: Queue, due: seq<int>, script: nat -> Moment, j: nat)
    requires j < |due|
  {
    due[j] in q.rows && (q.rows[due[j]].status == Sent <==> IsOk(script(j)))
  }

  lemma {:induction false} TakenAreSent(q: Queue, due: seq<int>, script: nat -> Moment, n: nat)
    requires n <= |due| && Distinct(due)
    requires forall j | 0 <= j < n :: SentAsTaken(q, due, script, j)
    ensures |SentOf(q, due[..n])| == Taken(script, n)
  {
    if n == 0 {
      assert SentOf(q, due[..0]) == {};
    } else {
      TakenAreSent(q, due, script, n - 1);
      assert due[..n] == due[..n - 1] + [due[n - 1]];
      assert SentAsTaken(q, due, script, n - 1);
      OneMoreSent(q, due[..n - 1], due[n - 1]);
    }
  }

  lemma {:induction false} SettledAsTaken(cfg: Config, s: State, c: State, due: seq<int>,
        script: nat -> Moment, k: nat, steps: seq<Step>, j: nat)
    requires Stand(cfg, s, c, due, script, k, steps)
    requires j < k && j < |due|
    ensures SentAsTaken(Run(cfg, s, steps).queue, due, script, j)
  {
  }

  /** If the worker lives through its tick, the rows the notifier took are the rows of the batch that are sent. */
  lemma {:induction false} AnswerIsSent(cfg: Config, s: State, c: State, due: seq<int>,
        script: nat -> Moment, steps: seq<Step>)
    requires Distinct(due) && Stand(cfg, s, c, due, script, |due|, steps)
    ensures |SentOf(Run(cfg, s, steps).queue, due)| == Taken(script, |due|)
  {
    forall j | 0 <= j < |due| ensures SentAsTaken(Run(cfg, s, steps).queue, due, script, j) {
      SettledAsTaken(cfg, s, c, due, script, |due|, steps, j);
    }
    assert due[..|due|] == due;
    TakenAreSent(Run(cfg, s, steps).queue, due, script, |due|);
  }
}
