/** `SetTimeOutState` and `CheckForTimeOut`: a finite budget of ticks, checked by polling a clock
    that wraps. */
module Timeouts {
  import opened Basics
  /** `NOverflows` and `TickCount`, the two digits of the true time. */
  datatype Clock = Clock(overflows: nat, tick: nat) {
    predicate Valid() {
      tick < M
    }

    function Time(): nat {
      overflows * M + tick
    }
  }

  /** `TimeOut_t` together with the caller's `ticksToWait`. */
  datatype Budget = Budget(overflowCount: nat, timeOnEntering: nat, ticks: nat) {
    predicate Valid() {
      timeOnEntering < M && ticks < M
    }

    /** The true time the budget was last counted from. */
    function Entered(): nat {
      overflowCount * M + timeOnEntering
    }
  }

  datatype Check = Check(budget: Budget, expired: bool)

  function Start(now: Clock, ticks: nat): Budget {
    Budget(now.overflows, now.tick, ticks)
  }

  /** `CheckForTimeOut`, when the wait was not aborted. */
  function CheckBudget(b: Budget, now: Clock): Check
    requires b.Valid() && now.Valid()
  {
    var elapsed := Minus(now.tick, b.timeOnEntering);
    if b.ticks == MAX_DELAY then Check(b, false)
    else if now.overflows != b.overflowCount && now.tick >= b.timeOnEntering then Check(b.(ticks := 0), true)
    else if elapsed < b.ticks then Check(Start(now, b.ticks - elapsed), false)
    else Check(b.(ticks := 0), true)
  }

  class TimeOut {
    var OverflowCount: nat
    var TimeOnEntering: nat
    var ticksToWait: nat

    ghost function Value(): Budget
      reads this
    {
      Budget(OverflowCount, TimeOnEntering, ticksToWait)
    }

    constructor (now: Clock, ticks: nat)
      ensures Value() == Start(now, ticks)
    {
      OverflowCount, TimeOnEntering, ticksToWait := now.overflows, now.tick, ticks;
    }

    method SetTimeOutState(now: Clock)
      modifies this`OverflowCount, this`TimeOnEntering
      ensures Value() == Start(now, old(ticksToWait))
    {
      OverflowCount := now.overflows;
      TimeOnEntering := now.tick;
    }

    /** An aborted wait expires at once, uses its mark up and leaves the budget alone. */
    method CheckForTimeOut(now: Clock, delayAborted: bool) returns (expired: bool, stillAborted: bool)
      requires Value().Valid() && now.Valid()
      modifies this
      ensures !stillAborted
      ensures if delayAborted then expired && Value() == old(Value())
              else Check(Value(), expired) == CheckBudget(old(Value()), now)
      ensures var was := old(Value());
              !delayAborted && was.ticks != MAX_DELAY && was.Entered() <= now.Time() && !Confusable(was, now) ==>
                && (expired <==> now.Time() >= was.Entered() + was.ticks)
                && ticksToWait == (if expired then 0 else was.ticks - (now.Time() - was.Entered()))
                && (!expired ==> Value().Entered() == now.Time())
      ensures !delayAborted && old(ticksToWait) == MAX_DELAY ==> !expired && Value() == old(Value())
    {
      ghost var was := Value();
      if was.ticks != MAX_DELAY && was.Entered() <= now.Time() {
        PollIsExact(was, now);
        if !Confusable(was, now) && !CheckBudget(was, now).expired {
          PollRemains(was, now);
        }
      }
      var elapsed := Minus(now.tick, TimeOnEntering);
      stillAborted := false;
      if delayAborted {
        return true, false;
      }
      if ticksToWait == MAX_DELAY {
        return false, false;
      }
      if now.overflows != OverflowCount && now.tick >= TimeOnEntering {
        ticksToWait := 0;
        return true, false;
      }
      if elapsed < ticksToWait {
        ticksToWait := ticksToWait - elapsed;
        SetTimeOutState(now);
        return false, false;
      }
      ticksToWait := 0;
      return true, false;
    }
  }

  // ----- one poll

  /** The polls that the 32-bit comparison cannot tell from an early one: the clock has wrapped more
      than once since the last poll and stands a little before where it stood. */
  predicate Confusable(b: Budget, now: Clock)
    requires b.Valid() && now.Valid()
  {
    now.overflows >= b.overflowCount + 2 && now.tick < b.timeOnEntering && Minus(now.tick, b.timeOnEntering) < b.ticks
  }

  /** A poll of a finite budget answers whether the true time elapsed has used it up, exactly when
      the poll is not confusable; polling at least once per overflow suffices. */
  lemma PollIsExact(b: Budget, now: Clock)
    requires b.Valid() && now.Valid() && b.ticks != MAX_DELAY && b.Entered() <= now.Time()
    ensures (CheckBudget(b, now).expired <==> now.Time() - b.Entered() >= b.ticks) <==> !Confusable(b, now)
    ensures now.overflows <= b.overflowCount + 1 ==> !Confusable(b, now)
  {
  }

  /** A poll almost two overflows after a budget of less than one was started, which does not expire. */
  lemma PollMissesDeadline() returns (b: Budget, now: Clock)
    ensures b.Valid() && now.Valid() && b.ticks != MAX_DELAY && Confusable(b, now)
    ensures now.Time() - b.Entered() >= b.ticks && !CheckBudget(b, now).expired
  {
    b, now := Budget(0, 10, MAX_DELAY - 1), Clock(2, 5);
  }

  /** A poll that does not expire moves the mark to now and takes off exactly the time elapsed. */
  lemma PollRemains(b: Budget, now: Clock)
    requires b.Valid() && now.Valid() && b.ticks != MAX_DELAY && b.Entered() <= now.Time()
    requires !CheckBudget(b, now).expired && !Confusable(b, now)
    ensures var b' := CheckBudget(b, now).budget;
            b'.Valid() && b'.Entered() == now.Time() && b'.ticks == b.ticks - (now.Time() - b.Entered()) &&
                b'.ticks != MAX_DELAY
  {
  }

  // ----- any number of polls

  /** The number of polls that do not expire before the first that does. */
  function PollsHeld(b: Budget, polls: seq<Clock>): (n: nat)
    requires b.Valid() && forall p :: p in polls ==> p.Valid()
    ensures n <= |polls|
    decreases |polls|
  {
    if polls == [] then 0
    else
      var c := CheckBudget(b, polls[0]);
      if c.expired then 0 else 1 + PollsHeld(c.budget, polls[1..])
  }

  /** The budget after n polls that did not expire. */
  function After(b: Budget, polls: seq<Clock>, n: nat): Budget
    requires b.Valid() && (forall p :: p in polls ==> p.Valid()) && n <= PollsHeld(b, polls)
    decreases n
  {
    if n == 0 then b else After(CheckBudget(b, polls[0]).budget, polls[1..], n - 1)
  }

  /** The number of polls before the first at or after the deadline. */
  function PollsBefore(polls: seq<Clock>, deadline: nat): (n: nat)
    ensures n <= |polls| && (n < |polls| ==> polls[n].Time() >= deadline) &&
            forall i :: 0 <= i < n ==> polls[i].Time() < deadline
  {
    if polls == [] || polls[0].Time() >= deadline then 0 else 1 + PollsBefore(polls[1..], deadline)
  }

  /** Time goes on, and the clock overflows at most once from one poll to the next. */
  predicate Frequent(from: Clock, polls: seq<Clock>)
    decreases |polls|
  {
    polls == [] || (polls[0].Valid() && from.Time() <= polls[0].Time() && polls[0].overflows <= from.overflows + 1 &&
        Frequent(polls[0], polls[1..]))
  }

  lemma {:induction false} FrequentValid(from: Clock, polls: seq<Clock>)
    requires Frequent(from, polls)
    ensures forall p :: p in polls ==> p.Valid()
    decreases |polls|
  {
    if polls != [] {
      FrequentValid(polls[0], polls[1..]);
      assert forall p :: p in polls ==> p == polls[0] || p in polls[1..];
    }
  }

  /** However many polls there are, the wait expires at the first poll at or after the moment the
      budget is used up, and until then what remains is the budget minus the time elapsed. */
  lemma {:induction false} PollsTelescope(start: Clock, ticks: nat, polls: seq<Clock>)
    requires start.Valid() && ticks < MAX_DELAY && Frequent(start, polls)
    ensures forall p :: p in polls ==> p.Valid()
    ensures PollsHeld(Start(start, ticks), polls) == PollsBefore(polls, start.Time() + ticks)
    ensures forall n :: 0 < n <= PollsHeld(Start(start, ticks), polls) ==>
              After(Start(start, ticks), polls, n) == Start(polls[n - 1], start.Time() + ticks - polls[n - 1].Time())
    decreases |polls|
  {
    FrequentValid(start, polls);
    if polls != [] {
      var b, now := Start(start, ticks), polls[0];
      PollIsExact(b, now);
      if now.Time() < start.Time() + ticks {
        PollRemains(b, now);
        var left := start.Time() + ticks - now.Time();
        assert CheckBudget(b, now).budget == Start(now, left);
        PollsTelescope(now, left, polls[1..]);
        forall n | 0 < n <= PollsHeld(b, polls)
          ensures After(b, polls, n) == Start(polls[n - 1], start.Time() + ticks - polls[n - 1].Time())
        {
          assert After(b, polls, n) == After(Start(now, left), polls[1..], n - 1);
        }
      }
    }
  }
}
