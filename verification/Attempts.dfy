/**
 Attempts and back-off over whole runs: how often a row is tried, and how long apart.
 */
module Attempts {
  import opened Prelude
  import opened Ordering
  import opened Messages
  import opened System
  import opened Protocol

  /** The clock readings of the claims that took row `id`, in order. */
  ghost function ClaimTimes(cfg: Config, s: State, steps: seq<Step>, id: int): seq<int> {
    if steps == [] then []
    else
      var init, last := steps[..|steps| - 1], steps[|steps| - 1];
      ClaimTimes(cfg, s, init, id) + if last.Claiming? && id in last.order then [last.n1] else []
  }

  /** Claim k+1 keeps the back-off after claim k. */
  predicate KeepsGap(times: seq<int>, k: nat)
    requires 1 <= k < |times|
  {
    times[k] - times[k - 1] >= Backoff(k)
  }

  predicate Spaced(times: seq<int>) {
    forall k | 1 <= k < |times| :: KeepsGap(times, k)
  }

  /** What the queue remembers of a row's claims. */
  ghost predicate Remembers(s: State, id: int, times: seq<int>) {
    && Spaced(times)
    && (times != [] ==> times[|times| - 1] <= s.now)
    && if id !in s.queue.rows then times == []
       else
         && |times| == s.queue.rows[id].attempts
         && (s.queue.rows[id].status == Pending && times != [] ==>
               s.queue.rows[id].at >= times[|times| - 1] + Backoff(|times|))
  }

  lemma {:induction false} ClockNeverTurnsBack(cfg: Config, s: State, step: Step)
    requires Enabled(cfg, s, step)
    ensures Apply(cfg, s, step).now >= s.now
  {
  }

  lemma {:induction false} ClaimRemembered(cfg: Config, s: State, step: Step, id: int, times: seq<int>)
    requires Enabled(cfg, s, step) && step.Claiming? && Remembers(s, id, times)
    ensures Remembers(Apply(cfg, s, step), id, times + if id in step.order then [step.n1] else [])
  {
    ClaimTakesDueRows(cfg, s, step.order, step.n1);
    assert id in step.order <==> id in Elements(step.order);
    if id in step.order {
      var more := times + [step.n1];
      forall k | 1 <= k < |more| ensures KeepsGap(more, k) {
        if k < |times| {
          assert KeepsGap(times, k);
        }
      }
    } else {
      assert times + [] == times;
    }
  }

  lemma {:induction false} AckRemembered(cfg: Config, s: State, step: Step, id: int, times: seq<int>)
    requires WorkerSound(s.queue, s.worker)
    requires Enabled(cfg, s, step) && step.Ack? && Remembers(s, id, times)
    ensures Remembers(Apply(cfg, s, step), id, times)
  {
  }

  lemma {:induction false} StepRemembered(cfg: Config, s: State, step: Step, id: int, times: seq<int>)
    requires RowsSound(cfg, s.queue) && WorkerSound(s.queue, s.worker)
    requires Enabled(cfg, s, step) && Remembers(s, id, times)
    ensures Remembers(Apply(cfg, s, step), id, times + if step.Claiming? && id in step.order then [step.n1] else [])
  {
    ClockNeverTurnsBack(cfg, s, step);
    if step.Claiming? {
      ClaimRemembered(cfg, s, step, id, times);
    } else {
      assert times + [] == times;
      if step.Ack? {
        AckRemembered(cfg, s, step, id, times);
      } else if IsCrud(step) {
        CrudStepEffect(cfg, s, step);
      }
    }
  }

  lemma {:induction false} RunRemembered(cfg: Config, s: State, steps: seq<Step>, id: int)
    requires cfg.maxAttempts >= 1
    requires Initial(s) && Legal(cfg, s, steps)
    ensures Remembers(Run(cfg, s, steps), id, ClaimTimes(cfg, s, steps, id))
  {
    if steps != [] {
      var init := steps[..|steps| - 1];
      RunRemembered(cfg, s, init, id);
      RunKeepsInv(cfg, s, init);
      StepRemembered(cfg, Run(cfg, s, init), steps[|steps| - 1], id, ClaimTimes(cfg, s, init, id));
    }
  }

  /** A row is tried at most maxAttempts times; one still pending has tries left, one failed has none. */
  lemma {:induction false} AttemptsBounded(cfg: Config, s: State, steps: seq<Step>, id: int)
    requires cfg.maxAttempts >= 1
    requires Initial(s) && Legal(cfg, s, steps)
    ensures var t, n := Run(cfg, s, steps), |ClaimTimes(cfg, s, steps, id)|;
      && n <= cfg.maxAttempts
      && (n > 0 ==> id in t.queue.rows)
      && (id in t.queue.rows && t.queue.rows[id].status == Pending ==> n < cfg.maxAttempts)
      && (id in t.queue.rows && t.queue.rows[id].status == Failed ==> n == cfg.maxAttempts)
  {
    RunRemembered(cfg, s, steps, id);
    RunKeepsInv(cfg, s, steps);
    var t := Run(cfg, s, steps);
    if id in t.queue.rows {
      assert AttemptsFit(cfg, t.queue.rows[id]);
    }
  }

  /** Claim k+1 of a row comes at least min(60 * 2^k, 3600) seconds after claim k. */
  lemma {:induction false} ClaimsKeepBackoff(cfg: Config, s: State, steps: seq<Step>, id: int, k: nat)
    requires cfg.maxAttempts >= 1
    requires Initial(s) && Legal(cfg, s, steps)
    requires 1 <= k < |ClaimTimes(cfg, s, steps, id)|
    ensures var times := ClaimTimes(cfg, s, steps, id);
      times[k] - times[k - 1] >= Min(60 * Pow2(k), 3600) * SECOND
  {
    RunRemembered(cfg, s, steps, id);
    assert KeepsGap(ClaimTimes(cfg, s, steps, id), k);
  }

  function TotalBackoff(n: nat): int {
    if n == 0 then 0 else TotalBackoff(n - 1) + Backoff(n)
  }

  lemma {:induction false} SpacedSpan(times: seq<int>, n: nat)
    requires Spaced(times) && n < |times|
    ensures times[n] - times[0] >= TotalBackoff(n)
  {
    if n > 0 {
      SpacedSpan(times, n - 1);
      assert KeepsGap(times, n);
    }
  }

  lemma {:induction false} Pow2Grows(m: nat, n: nat)
    requires m <= n
    ensures Pow2(m) <= Pow2(n)
    decreases n - m
  {
    if m < n {
      Pow2Grows(m + 1, n);
    }
  }

  /** While the hour's cap is not reached the delays add up to a geometric sum; beyond, to an hour each. */
  lemma {:induction false} TotalBackoffClosedForm(n: nat)
    ensures n <= 5 ==> TotalBackoff(n) == 120 * (Pow2(n) - 1) * SECOND
    ensures n > 5 ==> TotalBackoff(n) == (3720 + 3600 * (n - 5)) * SECOND
  {
    assert Pow2(2) == 4;
    assert Pow2(3) == 8;
    assert Pow2(4) == 16;
    assert Pow2(5) == 32;
    assert Pow2(6) == 64;
    if n > 5 {
      Pow2Grows(6, n);
      TotalBackoffClosedForm(n - 1);
    } else if n > 0 {
      Pow2Grows(n, 5);
      TotalBackoffClosedForm(n - 1);
    }
  }

  /** From its first to its n-th try a row takes at least the sum of the delays. */
  lemma {:induction false} FirstToNthTry(cfg: Config, s: State, steps: seq<Step>, id: int, n: nat)
    requires cfg.maxAttempts >= 1
    requires Initial(s) && Legal(cfg, s, steps)
    requires 1 <= n <= |ClaimTimes(cfg, s, steps, id)|
    ensures var times := ClaimTimes(cfg, s, steps, id);
      times[n - 1] - times[0] >=
        if n <= 6 then 120 * (Pow2(n - 1) - 1) * SECOND else (3720 + 3600 * (n - 6)) * SECOND
  {
    RunRemembered(cfg, s, steps, id);
    SpacedSpan(ClaimTimes(cfg, s, steps, id), n - 1);
    TotalBackoffClosedForm(n - 1);
  }
}
