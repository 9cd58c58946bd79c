/**
 Nobody waits for ever: a due row is claimed after a number of claims that the rows
 ahead of it bound, whatever CRUD calls, failures and retries come in between.
 */
module Starvation {
  import opened Prelude
  import opened Ordering
  import opened Messages
  import opened System
  import opened Protocol

  /** A pending row that the worker would take if it were due. */
  predicate Eligible(cfg: Config, row: Row) {
    row.status == Pending && !Suppressed(cfg, row.kind)
  }

  predicate Earlier(row: Row, id: int, row': Row, id': int) {
    row.at < row'.at || (row.at == row'.at && id < id')
  }

  /** The rows that the worker takes before row `id`, were they all due. */
  function Rivals(cfg: Config, q: Queue, id: int): set<int>
    requires id in q.rows
  {
    set j | j in q.rows && Eligible(cfg, q.rows[j]) && Earlier(q.rows[j], j, q.rows[id], id)
  }

  /** Row `id` waits, and its time has come. */
  predicate Waits(cfg: Config, s: State, id: int) {
    id in s.queue.rows && Eligible(cfg, s.queue.rows[id]) && s.queue.rows[id].at <= s.now
  }

  /** An agent enters a message with a time ahead of the waiting row `id`. */
  predicate Overtakes(cfg: Config, s: State, step: Step, id: int) {
    && step.Post? && step.when.Some?
    && Waits(cfg, s, id) && step.when.value < s.queue.rows[id].at
    && (step.reservation.Some? ==> step.reservation.value in s.floor.reservations)
  }

  ghost function Overtakers(cfg: Config, s: State, steps: seq<Step>, id: int): nat {
    if steps == [] then 0
    else
      var init, last := steps[..|steps| - 1], steps[|steps| - 1];
      Overtakers(cfg, s, init, id) + if Overtakes(cfg, Run(cfg, s, init), last, id) then 1 else 0
  }

  /** How many claims (worker ticks that looked for work) a run has. */
  function Claims(steps: seq<Step>): nat {
    if steps == [] then 0
    else Claims(steps[..|steps| - 1]) + if steps[|steps| - 1].Claiming? then 1 else 0
  }

  /** Row `id` waits after every step of the run, so it is neither claimed nor cancelled. */
  ghost predicate WaitsThroughout(cfg: Config, s: State, steps: seq<Step>, id: int) {
    && Waits(cfg, Run(cfg, s, steps), id)
    && (steps != [] ==> WaitsThroughout(cfg, s, steps[..|steps| - 1], id))
  }

  // ----- one step

  /** Rows that CRUD calls enter are not scheduled before the call, unless an agent asked for it. */
  lemma {:induction false} NewRowsAreLate(cfg: Config, s: State, step: Step, j: int)
    requires RowsSound(cfg, s.queue) && IsCrud(step) && Enabled(cfg, s, step)
    requires j in Apply(cfg, s, step).queue.rows && j !in s.queue.rows
    ensures j >= s.queue.next
    ensures Apply(cfg, s, step).queue.rows[j].at >= s.now || (step.Post? && j == s.queue.next
              && step.when.Some? && Apply(cfg, s, step).queue.rows[j].at == step.when.value
              && (step.reservation.Some? ==> step.reservation.value in s.floor.reservations))
  {
    CrudStepEffect(cfg, s, step);
  }

  lemma {:induction false} CrudKeepsRivals(cfg: Config, s: State, step: Step, id: int)
    requires RowsSound(cfg, s.queue) && IsCrud(step) && Enabled(cfg, s, step)
    requires Waits(cfg, s, id) && Waits(cfg, Apply(cfg, s, step), id)
    ensures Rivals(cfg, Apply(cfg, s, step).queue, id)
              <= Rivals(cfg, s.queue, id) + if Overtakes(cfg, s, step, id) then {s.queue.next} else {}
  {
    var t := Apply(cfg, s, step);
    CrudStepEffect(cfg, s, step);
    forall j | j in Rivals(cfg, t.queue, id)
      ensures j in Rivals(cfg, s.queue, id) || (Overtakes(cfg, s, step, id) && j == s.queue.next)
    {
      if j !in s.queue.rows {
        NewRowsAreLate(cfg, s, step, j);
      }
    }
  }

  lemma {:induction false} Pow2Positive(n: nat)
    ensures Pow2(n) >= 1
  {
    if n > 0 {
      Pow2Positive(n - 1);
    }
  }

  /** A retry goes behind every row that is due. */
  lemma {:induction false} AckKeepsRivals(cfg: Config, s: State, step: Step, id: int)
    requires WorkerSound(s.queue, s.worker) && step.Ack? && Enabled(cfg, s, step)
    requires Waits(cfg, s, id)
    ensures id in Apply(cfg, s, step).queue.rows
    ensures Rivals(cfg, Apply(cfg, s, step).queue, id) <= Rivals(cfg, s.queue, id)
  {
    Pow2Positive(s.queue.rows[s.worker.batch[0]].attempts);
  }

  /** The rows of a claim that passes a waiting row by are twenty, all ahead of it. */
  lemma {:induction false} ClaimedAreRivals(cfg: Config, q: Queue, now: int, id: int)
    requires id in q.rows && Eligible(cfg, q.rows[id]) && q.rows[id].at <= now
    requires id !in Claimable(q, now, OnlyKind(cfg), BATCH)
    ensures Claimable(q, now, OnlyKind(cfg), BATCH) <= Rivals(cfg, q, id)
    ensures |Claimable(q, now, OnlyKind(cfg), BATCH)| == BATCH
  {
    var keys := DueKeys(q, now, OnlyKind(cfg));
    assert id in keys;
    assert Ahead(keys, id) == Rivals(cfg, q, id);
    forall j | j in Claimable(q, now, OnlyKind(cfg), BATCH) ensures j in Ahead(keys, id) {
      LowRanksAreAhead(keys, BATCH, id, j);
    }
    LowRankCount(keys, BATCH);
    SubsetSize(Ahead(keys, id), keys.Keys);
  }

  /** A claim that passes a waiting row by takes twenty of the rows ahead of it. */
  lemma {:induction false} ClaimTakesTwenty(cfg: Config, s: State, step: Step, id: int)
    requires step.Claiming? && Enabled(cfg, s, step)
    requires Waits(cfg, s, id) && Waits(cfg, Apply(cfg, s, step), id)
    ensures |Rivals(cfg, Apply(cfg, s, step).queue, id)| + BATCH <= |Rivals(cfg, s.queue, id)|
  {
    var t := Apply(cfg, s, step);
    var taken := Claimable(s.queue, step.n1, OnlyKind(cfg), BATCH);
    var rivals := Rivals(cfg, s.queue, id);
    ClaimedAreRivals(cfg, s.queue, step.n1, id);
    assert Rivals(cfg, t.queue, id) == rivals - taken;
    assert |rivals - taken| + |taken| == |rivals| by {
      assert rivals == (rivals - taken) + taken;
    }
  }

  lemma {:induction false} StepCutsRivals(cfg: Config, s: State, step: Step, id: int)
    requires RowsSound(cfg, s.queue) && WorkerSound(s.queue, s.worker) && Enabled(cfg, s, step)
    requires Waits(cfg, s, id) && Waits(cfg, Apply(cfg, s, step), id)
    ensures |Rivals(cfg, Apply(cfg, s, step).queue, id)| + (if step.Claiming? then BATCH else 0)
              <= |Rivals(cfg, s.queue, id)| + if Overtakes(cfg, s, step, id) then 1 else 0
  {
    var now, after := Rivals(cfg, s.queue, id), Rivals(cfg, Apply(cfg, s, step).queue, id);
    if step.Claiming? {
      ClaimTakesTwenty(cfg, s, step, id);
    } else if step.Ack? {
      AckKeepsRivals(cfg, s, step, id);
      SubsetSize(after, now);
    } else if IsCrud(step) {
      CrudKeepsRivals(cfg, s, step, id);
      var more := if Overtakes(cfg, s, step, id) then {s.queue.next} else {};
      SubsetSize(after, now + more);
    }
  }

  /** A waiting row stops waiting only by being claimed or, if a reminder, cancelled. */
  lemma {:induction false} WaitEndsByClaimOrCancel(cfg: Config, s: State, step: Step, id: int)
    requires RowsSound(cfg, s.queue) && WorkerSound(s.queue, s.worker) && Enabled(cfg, s, step)
    requires Waits(cfg, s, id) && !Waits(cfg, Apply(cfg, s, step), id)
    ensures id in Apply(cfg, s, step).queue.rows
    ensures var status := Apply(cfg, s, step).queue.rows[id].status;
      (step.Claiming? && id in step.order && status == InFlight) || (IsCrud(step) && status == Dropped)
  {
    StepMoves(cfg, s, step, id);
    if IsCrud(step) {
      CrudStepEffect(cfg, s, step);
    } else if step.Claiming? {
      assert id in step.order <==> id in Elements(step.order);
    }
  }

  // ----- whole runs

  /** While a row waits, every claim in the run uses up twenty of the rows that are or come ahead of it. */
  lemma {:induction false} ClaimsUseUpRivals(cfg: Config, s: State, steps: seq<Step>, id: int)
    requires cfg.maxAttempts >= 1
    requires SystemInv(cfg, s) && Legal(cfg, s, steps)
    requires WaitsThroughout(cfg, s, steps, id)
    ensures Waits(cfg, s, id)
    ensures BATCH * Claims(steps) + |Rivals(cfg, Run(cfg, s, steps).queue, id)|
              <= |Rivals(cfg, s.queue, id)| + Overtakers(cfg, s, steps, id)
  {
    if steps != [] {
      var init := steps[..|steps| - 1];
      ClaimsUseUpRivals(cfg, s, init, id);
      RunKeepsInv(cfg, s, init);
      StepCutsRivals(cfg, Run(cfg, s, init), steps[|steps| - 1], id);
    }
  }

  /** The step at which the wait ends. */
  ghost predicate WaitEndsAt(cfg: Config, s: State, steps: seq<Step>, id: int, m: nat)
    requires m < |steps|
  {
    var before, step := Run(cfg, s, steps[..m]), steps[m];
    var after := Apply(cfg, before, step);
    && Waits(cfg, before, id)
    && id in after.queue.rows
    && var status := after.queue.rows[id].status;
      ((step.Claiming? && id in step.order && status == InFlight) || (IsCrud(step) && status == Dropped))
  }

  lemma {:induction false} WaitEnds(cfg: Config, s: State, steps: seq<Step>, id: int) returns (m: nat)
    requires cfg.maxAttempts >= 1
    requires SystemInv(cfg, s) && Legal(cfg, s, steps)
    requires Waits(cfg, s, id) && !WaitsThroughout(cfg, s, steps, id)
    ensures m < |steps| && WaitEndsAt(cfg, s, steps, id, m)
  {
    var init := steps[..|steps| - 1];
    if WaitsThroughout(cfg, s, init, id) {
      m := |steps| - 1;
      RunKeepsInv(cfg, s, init);
      WaitEndsByClaimOrCancel(cfg, Run(cfg, s, init), steps[m], id);
    } else {
      m := WaitEnds(cfg, s, init, id);
      assert init[..m] == steps[..m];
    }
  }

  /**
   Starvation bound: a due row with k rows ahead of it, and p more put ahead of it during the
   run by agents who ask for a time already past, is claimed or cancelled before the run has
   had (k + p) / 20 + 1 claims.
   */
  lemma {:induction false} NobodyStarves(cfg: Config, s: State, steps: seq<Step>, id: int) returns (m: nat)
    requires cfg.maxAttempts >= 1
    requires SystemInv(cfg, s) && Legal(cfg, s, steps)
    requires Waits(cfg, s, id)
    requires Claims(steps) >= (|Rivals(cfg, s.queue, id)| + Overtakers(cfg, s, steps, id)) / 20 + 1
    ensures m < |steps| && WaitEndsAt(cfg, s, steps, id, m)
  {
    if WaitsThroughout(cfg, s, steps, id) {
      ClaimsUseUpRivals(cfg, s, steps, id);
      assert false;
    }
    m := WaitEnds(cfg, s, steps, id);
  }

  predicate InThePast(step: Step) {
    step.Post? && step.when.Some? && step.when.value < step.n1
  }

  lemma {:induction false} NoneOvertake(cfg: Config, s: State, steps: seq<Step>, id: int)
    requires Legal(cfg, s, steps)
    requires forall k | 0 <= k < |steps| :: !InThePast(steps[k])
    ensures Overtakers(cfg, s, steps, id) == 0
  {
    if steps != [] {
      NoneOvertake(cfg, s, steps[..|steps| - 1], id);
    }
  }

  /** If no message is entered with a past time, k rows ahead mean at most k / 20 + 1 claims. */
  lemma {:induction false} NobodyStarvesWithoutPastPosts(cfg: Config, s: State, steps: seq<Step>, id: int)
    returns (m: nat)
    requires cfg.maxAttempts >= 1
    requires SystemInv(cfg, s) && Legal(cfg, s, steps)
    requires Waits(cfg, s, id)
    requires forall k | 0 <= k < |steps| :: !InThePast(steps[k])
    requires Claims(steps) >= |Rivals(cfg, s.queue, id)| / 20 + 1
    ensures m < |steps| && WaitEndsAt(cfg, s, steps, id, m)
  {
    NoneOvertake(cfg, s, steps, id);
    m := NobodyStarves(cfg, s, steps, id);
  }
}
