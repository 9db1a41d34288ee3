/** The timer daemon of `timers.cpp`: two lists of timers, one for the expiries of this epoch of the
    tick count and one for those of the next, and the loops that catch up with missed periods. */
module Timers {
  import opened Basics
  import opened Rings
  import opened Arithmetic

  type Id = nat

  // ----- the decision of `InsertTimerInActiveList`

  datatype Outcome = Fire | ToCurrent | ToOverflow

  function Decide(next: nat, now: nat, commandTime: nat, period: nat): Outcome
    requires next < M && now < M && commandTime < M
  {
    if next <= now then
      if Minus(now, commandTime) >= period then Fire else ToOverflow
    else if now < commandTime && next >= commandTime then Fire
    else ToCurrent
  }

  /** For a command given at the true time C and seen at the true time N, less than 2^32 ticks later: the
      timer fires at once exactly if its true expiry C + period has come; otherwise it is filed by the
      epoch of that expiry. */
  lemma DecisionIsRight(epoch: nat, now: nat, C: nat, commandEpoch: nat, commandTime: nat, period: nat)
    requires now < M && commandTime < M && C == commandEpoch * M + commandTime && period < M
    requires C <= epoch * M + now < C + M
    ensures var N, expiry, next := epoch * M + now, C + period, Plus(commandTime, period);
            var outcome := Decide(next, now, commandTime, period);
            && (outcome.Fire? <==> expiry <= N)
            && (outcome.ToCurrent? ==> N < expiry == epoch * M + next)
            && (outcome.ToOverflow? ==> N < expiry == (epoch + 1) * M + next)
  {
  }

  /** Whether the loop of `ReloadTimer` goes round once more after k rounds. */
  predicate GoesOn(expired: nat, now: nat, period: nat, k: nat)
    requires expired < M && now < M && period < M
    decreases k
  {
    if k == 0 then Decide(Plus(expired, period), now, expired, period).Fire?
    else GoesOn(Plus(expired, period), now, period, k - 1)
  }

  /** It ends, whatever the times, if and only if the period is not 0. */
  lemma ReloadEndsIff(expired: nat, now: nat, period: nat)
    requires expired < M && now < M && period < M
    ensures (exists k :: !GoesOn(expired, now, period, k)) <==> period > 0
  {
    if period > 0 {
      var k := LastRound(if expired <= now then 1 else 0, expired, 1, now, period);
    } else {
      forall k ensures GoesOn(expired, now, 0, k) {
        NeverEnds(expired, now, k);
      }
    }
  }

  lemma {:induction false} NeverEnds(expired: nat, now: nat, k: nat)
    requires expired < M && now < M
    ensures GoesOn(expired, now, 0, k)
    decreases k
  {
    if k > 0 {
      NeverEnds(expired, now, k - 1);
    }
  }

  /** The round in which the expiry, at the true time `e` * 2^32 + `expired`, has caught up. */
  lemma {:induction false} LastRound(e: nat, expired: nat, epoch: nat, now: nat, period: nat) returns (k: nat)
    requires expired < M && now < M && 0 < period < M
    requires e * M + expired <= epoch * M + now < e * M + expired + M
    ensures !GoesOn(expired, now, period, k)
    decreases epoch * M + now - (e * M + expired)
  {
    DecisionIsRight(epoch, now, e * M + expired, e, expired, period);
    if e * M + expired + period > epoch * M + now {
      k := 0;
    } else {
      var j := LastRound(if expired + period < M then e else e + 1, Plus(expired, period), epoch, now, period);
      k := j + 1;
    }
  }

  /** `SampleTimeNow` sees a wrap of the tick count in what is at most one change of the epoch. That is
      right exactly if less than 2^32 ticks have passed since the last sample. */
  lemma WrapSeen(lastEpoch: nat, last: nat, epoch: nat, now: nat)
    requires last < M && now < M && lastEpoch * M + last <= epoch * M + now
    ensures epoch == lastEpoch + (if now < last then 1 else 0) <==> epoch * M + now < lastEpoch * M + last + M
  {
  }

  /** One sample in each epoch is not often enough: two samples a whole epoch apart look as if no wrap
      had happened. */
  lemma OnceAnEpochIsTooSeldom(epoch: nat) returns (last: nat, now: nat)
    ensures last < M && now < M && epoch * M + last < (epoch + 1) * M + now && !(now < last)
  {
    last, now := 0, M - 1;
  }

  // ----- callbacks

  /** The callback of timer t for the expiry at a true time. */
  datatype Event = Event(t: Id, due: nat)

  /** The expiries of an auto-reload timer from x on, up to the time n. */
  function Expiries(t: Id, x: nat, period: nat, n: nat): seq<Event>
    requires period > 0
    decreases n + 1 - x
  {
    if x > n then [] else [Event(t, x)] + Expiries(t, x + period, period, n)
  }

  /** The first expiry after n. */
  function NextDue(x: nat, period: nat, n: nat): (d: nat)
    requires period > 0
    ensures d > n && (x <= n ==> d <= n + period) && (x > n ==> d == x)
    decreases n + 1 - x
  {
    if x > n then x else NextDue(x + period, period, n)
  }

  lemma OnePeriodMore(a: nat, period: nat)
    requires 0 < period
    ensures (a + period) / period == a / period + 1
    ensures a < period ==> a / period == 0
  {
    assert (a / period + 1) * period == a / period * period + period;
    DivModUnique(a + period, a / period + 1, a % period, period);
    if a < period {
      DivModUnique(a, 0, a, period);
    }
  }

  lemma Successor(k: nat, period: nat)
    ensures (k + 1) * period == k * period + period
  {
  }

  /** There are as many as periods fit in, and one. */
  lemma {:induction false} CatchUpCount(t: Id, x: nat, period: nat, n: nat) returns (count: nat)
    requires period > 0 && x <= n
    ensures count == |Expiries(t, x, period, n)| == (n - x) / period + 1
    ensures NextDue(x, period, n) == x + count * period
    decreases n - x
  {
    if x + period > n {
      OnePeriodMore(n - x, period);
      assert Expiries(t, x + period, period, n) == [];
      count := 1;
    } else {
      var k := CatchUpCount(t, x + period, period, n);
      OnePeriodMore(n - (x + period), period);
      Successor(k, period);
      count := k + 1;
    }
  }
}
