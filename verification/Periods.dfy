/** `DelayUntil`: a task that runs once a period, by a tick count that wraps. */
module Periods {
  import opened Basics
  import opened Rings
  import opened KernelModel
  import opened KernelSteps
  import opened KernelApi
  import opened KernelInvariant
  import opened KernelRuns
  import opened KernelTheorems

  /** `xShouldDelay`. */
  predicate ShouldDelay(previous: nat, wake: nat, now: nat) {
    if now < previous then wake < previous && wake > now else wake < previous || wake > now
  }

  lemma SomeTicks(previous: nat, wake: nat, now: nat)
    requires previous < M && wake < M && now < M && ShouldDelay(previous, wake, now)
    ensures 0 < Minus(wake, now) < M
  {
  }

  /** The part of `DelayUntil` that runs with the scheduler suspended. */
  function DelayUntil(k: K, previous: nat, increment: nat): K
    requires k.current in k.tcb && k.tick < M
  {
    var wake := Wrap(previous + increment);
    if ShouldDelay(previous, wake, k.tick) then DelayCurrent(k, Minus(wake, k.tick), false) else k
  }

  /** A call so late that the tick count has come round to the previous wake time, and stands less than
      a period behind it. */
  predicate ComeRound(P: nat, previous: nat, N: nat, now: nat, increment: nat)
    requires previous < M && now < M
  {
    P + M <= N && Minus(now, previous) < increment
  }

  /** With the previous wake time P and the time of the call N as true times: the task is delayed if
      its period has not passed yet, and not otherwise, exactly if the tick count has not come round. */
  lemma DelaysIfDue(e: nat, previous: nat, epoch: nat, now: nat, increment: nat)
    requires previous < M && now < M && increment < M && e * M + previous <= epoch * M + now
    ensures var P, N, wake := e * M + previous, epoch * M + now, Wrap(previous + increment);
            && ((ShouldDelay(previous, wake, now) <==> N < P + increment) <==>
               !ComeRound(P, previous, N, now, increment))
            && (N < P + increment && ShouldDelay(previous, wake, now) ==> Minus(wake, now) == P + increment - N)
  {
  }

  /** A task with a period of one tick that calls a whole overflow late, and is delayed. */
  lemma DelaysThoughLate() returns (previous: nat, epoch: nat, now: nat, increment: nat)
    ensures previous < M && now < M && increment < M && ComeRound(previous, previous, epoch * M + now, now, increment)
    ensures epoch * M + now >= previous + increment && ShouldDelay(previous, Wrap(previous + increment), now)
  {
    previous, epoch, now, increment := 0, 1, 0, 1;
  }

  /** Whatever else happens, a task that calls `DelayUntil` before its period has passed runs again from
      the tick at which it does pass; a task that is late is not delayed at all. */
  lemma PeriodIsKept(k: K, e: nat, previous: nat, increment: nat, k1: K, steps: seq<Step>, k': K)
    requires Inv(k) && Runs(k) && previous < M && increment < M
    requires e * M + previous <= k.clock < e * M + previous + M
    requires k1 == DelayUntil(k, previous, increment) && Run(k1, steps, k') && Undisturbed(k1, steps, k.current)
    ensures var due := e * M + previous + increment;
            if due <= k.clock then k1 == k
            else k.current in k'.tcb && (if k'.clock < due then Blocked(k', k.current) else IsReady(k', k.current))
  {
    hide Core, Bitmap, NoneOverdue, Undisturbed, Run, DelayCurrent;
    var due := e * M + previous + increment;
    ClockDigits(k);
    DelaysFor(k, e, previous, increment, due);
    if due > k.clock {
      DelayEndsAtItsTick(k, due - k.clock, k1, steps, k');
    }
  }

  lemma ClockDigits(k: K)
    requires Inv(k)
    ensures k.current in k.tcb && k.tick < M && k.clock == k.nOverflows * M + k.tick
  {
  }

  lemma DelaysFor(k: K, e: nat, previous: nat, increment: nat, due: nat)
    requires k.current in k.tcb && k.tick < M && k.clock == k.nOverflows * M + k.tick && previous < M && increment < M
    requires e * M + previous <= k.clock < e * M + previous + M && due == e * M + previous + increment
    ensures DelayUntil(k, previous, increment) == if due <= k.clock then k else DelayCurrent(k, due - k.clock, false)
  {
    DelaysIfDue(e, previous, k.nOverflows, k.tick, increment);
  }

  /** `*PreviousWakeTime` after n calls. */
  function Stored(previous: nat, increment: nat, n: nat): nat {
    if n == 0 then previous else Wrap(Stored(previous, increment, n - 1) + increment)
  }

  lemma Successor(n: nat, increment: nat)
    requires n > 0
    ensures n * increment == (n - 1) * increment + increment
  {
  }

  /** Periods do not drift: however late the calls come, after n of them the stored time is that of the
      start plus n periods. */
  lemma {:induction false} NoDrift(e: nat, previous: nat, increment: nat, n: nat) returns (e': nat)
    requires previous < M && increment < M
    ensures Stored(previous, increment, n) < M
    ensures e' * M + Stored(previous, increment, n) == e * M + previous + n * increment
  {
    if n == 0 {
      e' := e;
    } else {
      e' := NoDrift(e, previous, increment, n - 1);
      Successor(n, increment);
      if Stored(previous, increment, n - 1) + increment >= M {
        e' := e' + 1;
      }
    }
  }
}
