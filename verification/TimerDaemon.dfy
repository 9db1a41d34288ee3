/** The timer service task: its lists, its loops, and what they do to the timers. */
module TimerDaemon {
  import opened Basics
  import opened Rings
  import opened Timers

  datatype Timer = Timer(Period: nat, autoReload: bool, active: bool, isStatic: bool, Value: nat)

  datatype Command = StartOrReset(commandTime: nat) | Stop | ChangePeriod(period: nat) | Delete

  datatype Rest = NoRest | Block(ticks: nat, indefinitely: bool)

  /** The due times of the callbacks of one timer. */
  function Of(log: seq<Event>, t: Id): seq<nat> {
    if log == [] then [] else (if log[0].t == t then [log[0].due] else []) + Of(log[1..], t)
  }

  lemma {:induction false} OfSum(a: seq<Event>, b: seq<Event>, t: Id)
    ensures Of(a + b, t) == Of(a, t) + Of(b, t)
  {
    if a == [] {
      assert a + b == b;
    } else {
      OfSum(a[1..], b, t);
      OfFront(a, t);
      OfFront(a + b, t);
      assert (a + b)[1..] == a[1..] + b && (a + b)[0] == a[0];
      hide Of;
    }
  }

  lemma OfFront(log: seq<Event>, t: Id)
    requires log != []
    ensures Of(log, t) == (if log[0].t == t then [log[0].due] else []) + Of(log[1..], t)
  {
  }

  lemma {:induction false} OfOthers(t: Id, x: nat, period: nat, n: nat, u: Id)
    requires period > 0 && u != t
    ensures Of(Expiries(t, x, period, n), u) == []
    decreases n + 1 - x
  {
    if x <= n {
      OfOthers(t, x + period, period, n, u);
      assert Expiries(t, x, period, n)[1..] == Expiries(t, x + period, period, n);
    }
  }

  /** The daemon does not come back from an auto-reload timer of period 0. */
  predicate Reloadable(timer: Timer) {
    timer.autoReload ==> timer.Period > 0
  }

  /** The callbacks a timer that is due at x owes at the time n. */
  function Owed(timer: Timer, t: Id, x: nat, n: nat): seq<Event>
    requires Reloadable(timer)
  {
    if timer.autoReload then Expiries(t, x, timer.Period, n) else if x <= n then [Event(t, x)] else []
  }

  lemma {:induction false} OwedToOthers(timer: Timer, t: Id, x: nat, n: nat, u: Id)
    requires Reloadable(timer) && u != t
    ensures Of(Owed(timer, t, x, n), u) == []
  {
    if timer.autoReload {
      OfOthers(t, x, timer.Period, n, u);
    }
  }

  // ----- the lists and the timers on them, as a value

  /** `due` and `busy` belong to the specification: the true expiry of each timer that has been filed, and
      the timer whose command is being processed. */
  datatype State = State(timers: map<Id, Timer>, current: seq<Id>, overflow: seq<Id>, epoch: nat, due: map<Id, nat>,
      busy: set<Id>)

  predicate Linked(s: State, t: Id) {
    t in s.current || t in s.overflow
  }

  /** Each list is sorted and holds timers that expire in one epoch only: the current epoch, or the next. */
  ghost predicate Filed(s: State) {
    && (forall t :: t in s.timers ==> s.timers[t].Period < M && s.timers[t].Value < M)
    && ListOk(s, s.current, s.epoch) && ListOk(s, s.overflow, s.epoch + 1)
    && (forall t :: t in s.current ==> t !in s.overflow)
  }

  ghost predicate ListOk(s: State, list: seq<Id>, e: nat) {
    && NoDup(list)
    && (forall t :: t in list ==> t in s.timers && s.timers[t].Period > 0 && t in s.due &&
                                  s.due[t] == e * M + s.timers[t].Value)
    && (forall i, j :: 0 <= i < j < |list| ==> s.timers[list[i]].Value <= s.timers[list[j]].Value)
  }

  /** A timer is active exactly if it is on a list, but for one of period 0, and for one that is being worked
      on, which is on none. */
  ghost predicate ActiveIffLinked(s: State) {
    && (forall t :: t in s.timers && t !in s.busy && s.timers[t].Period > 0 ==> (s.timers[t].active <==> Linked(s, t)))
    && (forall t :: t in s.busy ==> !Linked(s, t))
  }

  /** Everything about the other timers is as it was. */
  ghost predicate OnlyAbout(s: State, s': State, t: Id) {
    && s'.timers.Keys == s.timers.Keys && s'.epoch == s.epoch && s'.busy == s.busy
    && (forall u :: u in s.timers && u != t ==> s'.timers[u] == s.timers[u])
    && (forall u :: u != t ==> (u in s'.current <==> u in s.current) && (u in s'.overflow <==> u in s.overflow))
    && (forall u :: u != t && u in s.due ==> u in s'.due && s'.due[u] == s.due[u])
  }

  /** The same, if the timer itself may have been given back. */
  ghost predicate OthersKept(s: State, s': State, t: Id) {
    && s'.epoch == s.epoch && s'.busy == s.busy
    && (forall u :: u != t ==> (u in s'.timers <==> u in s.timers))
    && (forall u :: u in s.timers && u != t ==> s'.timers[u] == s.timers[u])
    && (forall u :: u != t ==> (u in s'.current <==> u in s.current) && (u in s'.overflow <==> u in s.overflow))
    && (forall u :: u != t && u in s.due ==> u in s'.due && s'.due[u] == s.due[u])
  }

  lemma OnlyAboutTrans(s: State, s1: State, s2: State, t: Id)
    requires OnlyAbout(s, s1, t) && OnlyAbout(s1, s2, t)
    ensures OnlyAbout(s, s2, t)
  {
  }

  function Values(timers: map<Id, Timer>, list: seq<Id>): (v: seq<nat>)
    ensures |v| == |list|
  {
    seq(|list|, i requires 0 <= i < |list| => if list[i] in timers then timers[list[i]].Value else 0)
  }

  /** `List_t::insert`. */
  function InsertSorted(timers: map<Id, Timer>, list: seq<Id>, t: Id): seq<Id>
    requires t in timers
  {
    InsertAt(list, InsertPos(Values(timers, list), timers[t].Value), t)
  }

  lemma InsertSortedOk(s: State, list: seq<Id>, t: Id, e: nat)
    requires ListOk(s, list, e) && t in s.timers && t !in list && s.timers[t].Period > 0 && t in s.due &&
             s.due[t] == e * M + s.timers[t].Value
    ensures ListOk(s, InsertSorted(s.timers, list, t), e)
    ensures forall u :: u in InsertSorted(s.timers, list, t) <==> u in list || u == t
  {
    InsertAtMembers(list, InsertPos(Values(s.timers, list), s.timers[t].Value), t);
    InsertKeepsOrder(s, list, t, e);
  }

  lemma ValuesSorted(s: State, list: seq<Id>, e: nat)
    requires ListOk(s, list, e)
    ensures Sorted(Values(s.timers, list)) && forall i :: 0 <= i < |list| ==> list[i] in s.timers
  {
    assert forall i :: 0 <= i < |list| ==> list[i] in list;
  }

  lemma InsertKeepsOrder(s: State, list: seq<Id>, t: Id, e: nat)
    requires ListOk(s, list, e) && t in s.timers
    ensures var now := InsertSorted(s.timers, list, t);
            forall i, j :: 0 <= i < j < |now| ==>
                    now[i] in s.timers && now[j] in s.timers && s.timers[now[i]].Value <= s.timers[now[j]].Value
  {
    hide ListOk;
    var v, value := Values(s.timers, list), s.timers[t].Value;
    var k, now := InsertPos(v, value), InsertSorted(s.timers, list, t);
    ValuesSorted(s, list, e);
    InsertIsStableSorted(v, value);
    forall i | 0 <= i < |now| ensures now[i] in s.timers && s.timers[now[i]].Value == InsertAt(v, k, value)[i] {
      assert now[i] == if i < k then list[i] else if i == k then t else list[i - 1];
    }
  }

  /** A list does not depend on timers that are not on it. */
  lemma ListFrame(s: State, s': State, list: seq<Id>, e: nat)
    requires ListOk(s, list, e)
    requires forall t :: t in list ==> t in s'.timers && t in s'.due && s'.timers[t].Value == s.timers[t].Value &&
                                       s'.due[t] == s.due[t] && s'.timers[t].Period == s.timers[t].Period
    ensures ListOk(s', list, e)
  {
    assert forall i :: 0 <= i < |list| ==> list[i] in list;
  }

  /** A timer that is on no list gets a value and a true expiry. */
  function Dated(s: State, t: Id, value: nat, expiry: nat): State
    requires t in s.timers
  {
    s.(timers := s.timers[t := s.timers[t].(Value := value)], due := s.due[t := expiry])
  }

  lemma DatedOk(s: State, t: Id, value: nat, expiry: nat)
    requires Filed(s) && t in s.timers && !Linked(s, t) && value < M
    ensures Filed(Dated(s, t, value, expiry)) && OnlyAbout(s, Dated(s, t, value, expiry), t)
  {
    ListFrame(s, Dated(s, t, value, expiry), s.current, s.epoch);
    ListFrame(s, Dated(s, t, value, expiry), s.overflow, s.epoch + 1);
  }

  function Enlist(s: State, t: Id, outcome: Outcome): State
    requires t in s.timers
  {
    match outcome
    case Fire => s
    case ToCurrent => s.(current := InsertSorted(s.timers, s.current, t))
    case ToOverflow => s.(overflow := InsertSorted(s.timers, s.overflow, t))
  }

  lemma EnlistOk(s: State, t: Id, outcome: Outcome)
    requires Filed(s) && t in s.timers && !Linked(s, t) && t in s.due
    requires !outcome.Fire? ==> s.timers[t].Period > 0
    requires outcome.ToCurrent? ==> s.due[t] == s.epoch * M + s.timers[t].Value
    requires outcome.ToOverflow? ==> s.due[t] == (s.epoch + 1) * M + s.timers[t].Value
    ensures Filed(Enlist(s, t, outcome)) && OnlyAbout(s, Enlist(s, t, outcome), t)
    ensures Linked(Enlist(s, t, outcome), t) <==> !outcome.Fire?
    ensures t in Enlist(s, t, outcome).current <==> outcome.ToCurrent?
  {
    var s' := Enlist(s, t, outcome);
    if outcome.ToCurrent? {
      InsertSortedOk(s, s.current, t, s.epoch);
    } else if outcome.ToOverflow? {
      InsertSortedOk(s, s.overflow, t, s.epoch + 1);
    }
    ListFrame(s, s', s'.current, s.epoch);
    ListFrame(s, s', s'.overflow, s.epoch + 1);
  }

  /** The outcome of an insertion for a command given at the true time C and seen at n. */
  ghost predicate Inserted(s: State, s': State, t: Id, fired: bool, expiry: nat, n: nat)
    requires t in s.timers
  {
    && Filed(s') && OnlyAbout(s, s', t)
    && t in s'.timers && s'.timers[t] == s.timers[t].(Value := s'.timers[t].Value)
    && (fired <==> expiry <= n)
    && (Linked(s', t) <==> !fired)
    && (fired ==> s'.current == s.current && s'.overflow == s.overflow)
    && (!fired ==> t in s'.due && s'.due[t] == expiry)
    && (if t in s'.current then expiry < (s'.epoch + 1) * M else s'.current == s.current)
  }

  lemma InsertOk(s: State, t: Id, now: nat, commandTime: nat, commandEpoch: nat) returns (s': State)
    requires Filed(s) && t in s.timers && !Linked(s, t) && now < M && commandTime < M
    requires commandEpoch * M + commandTime <= s.epoch * M + now < commandEpoch * M + commandTime + M
    ensures var next := Plus(commandTime, s.timers[t].Period);
            var expiry := commandEpoch * M + commandTime + s.timers[t].Period;
            var outcome := Decide(next, now, commandTime, s.timers[t].Period);
            && s' == Enlist(Dated(s, t, next, expiry), t, outcome)
            && Inserted(s, s', t, outcome.Fire?, expiry, s.epoch * M + now)
  {
    var next := Plus(commandTime, s.timers[t].Period);
    var expiry := commandEpoch * M + commandTime + s.timers[t].Period;
    var outcome := Decide(next, now, commandTime, s.timers[t].Period);
    DecisionIsRight(s.epoch, now, commandEpoch * M + commandTime, commandEpoch, commandTime, s.timers[t].Period);
    hide Decide, Filed, Inserted;
    s' := FiledFor(s, t, outcome, next, expiry, s.epoch * M + now);
  }

  /** A timer that is filed, or not, as its true expiry demands. */
  lemma FiledFor(s: State, t: Id, outcome: Outcome, next: nat, expiry: nat, n: nat) returns (s': State)
    requires Filed(s) && t in s.timers && !Linked(s, t) && next < M && (outcome.Fire? <==> expiry <= n)
    requires outcome.ToCurrent? ==> n < expiry == s.epoch * M + next
    requires outcome.ToOverflow? ==> n < expiry == (s.epoch + 1) * M + next
    requires !outcome.Fire? ==> s.timers[t].Period > 0
    ensures s' == Enlist(Dated(s, t, next, expiry), t, outcome) && Inserted(s, s', t, outcome.Fire?, expiry, n)
  {
    hide Filed;
    DatedOk(s, t, next, expiry);
    var s1 := Dated(s, t, next, expiry);
    EnlistOk(s1, t, outcome);
    s' := Enlist(s1, t, outcome);
    OnlyAboutTrans(s, s1, s', t);
  }

  class Daemon {
    var timers: map<Id, Timer>
    var CurrentTimerList: seq<Id>
    var OverflowTimerList: seq<Id>
    var xLastTime: nat
    ghost var epoch: nat
    ghost var due: map<Id, nat>
    ghost var busy: set<Id>
    /** The callbacks made so far. */
    ghost var log: seq<Event>

    ghost function Abs(): State
      reads this
    {
      State(timers, CurrentTimerList, OverflowTimerList, epoch, due, busy)
    }

    ghost predicate Valid()
      reads this
    {
      xLastTime < M && Filed(Abs()) && ActiveIffLinked(Abs()) && busy == {}
    }

    /** The true time of the last sample. */
    ghost function LastSample(): nat
      reads this
    {
      epoch * M + xLastTime
    }

    constructor ()
      ensures Valid() && timers == map[] && log == [] && LastSample() == 0
    {
      timers, CurrentTimerList, OverflowTimerList, xLastTime := map[], [], [], 0;
      epoch, due, log, busy := 0, map[], [], {};
    }

    /** `InsertTimerInActiveList`, for a command given at the true time C and seen at the true time n. */
    method InsertTimerInActiveList(t: Id, next: nat, now: nat, commandTime: nat, ghost C: nat, ghost commandEpoch: nat,
        ghost n: nat)
      returns (processNow: bool)
      requires Filed(Abs()) && t in timers && !Linked(Abs(), t) && now < M && n == epoch * M + now
      requires At(commandTime, C, commandEpoch, n) && next == Plus(commandTime, timers[t].Period)
      modifies this`timers, this`CurrentTimerList, this`OverflowTimerList, this`due
      ensures Inserted(old(Abs()), Abs(), t, processNow, C + old(timers)[t].Period, n)
    {
      hide Filed, OnlyAbout, Inserted;
      ghost var s := Abs();
      ghost var s' := InsertOk(s, t, now, commandTime, commandEpoch);
      processNow := FileTimer(t, next, now, commandTime, C + s.timers[t].Period);
      assert Abs() == s';
    }

    method FileTimer(t: Id, next: nat, now: nat, commandTime: nat, ghost expiry: nat) returns (processNow: bool)
      requires t in timers && next < M && now < M && commandTime < M
      modifies this`timers, this`CurrentTimerList, this`OverflowTimerList, this`due
      ensures var outcome := Decide(next, now, commandTime, old(timers)[t].Period);
              && Abs() == Enlist(Dated(old(Abs()), t, next, expiry), t, outcome)
              && processNow == outcome.Fire?
    {
      processNow := false;
      timers := timers[t := timers[t].(Value := next)];
      due := due[t := expiry];
      if next <= now {
        if Minus(now, commandTime) >= timers[t].Period {
          processNow := true;
        } else {
          OverflowTimerList := InsertSorted(timers, OverflowTimerList, t);
        }
      } else {
        if now < commandTime && next >= commandTime {
          processNow := true;
        } else {
          CurrentTimerList := InsertSorted(timers, CurrentTimerList, t);
        }
      }
    }

    // ----- expiry

    /** `ReloadTimer`, for a timer that expired at the true time x, not after now: all callbacks it owes but
        the last, which is left to the caller. */
    method ReloadTimer(t: Id, firstExpired: nat, now: nat, ghost first: nat, ghost firstEpoch: nat, ghost n: nat)
      requires Filed(Abs()) && t in timers && !Linked(Abs(), t) && now < M && n == epoch * M + now
      requires timers[t].Period > 0 && At(firstExpired, first, firstEpoch, n)
      modifies this`timers, this`CurrentTimerList, this`OverflowTimerList, this`due, this`log
      ensures Reloaded(old(Abs()), Abs(), t, first, n)
      ensures log + [Event(t, due[t] - old(timers)[t].Period)] == old(log) +
              Expiries(t, first, old(timers)[t].Period, n)
    {
      hide OnlyAbout, Expiries, NextDue, Reloaded;
      ghost var s, p, x, e := Abs(), timers[t].Period, first, firstEpoch;
      ghost var goal, target := log + Expiries(t, x, p, n), NextDue(x, p, n);
      var expired: nat := firstExpired;
      var again := InsertTimerInActiveList(t, Plus(expired, timers[t].Period), now, expired, x, e, n);
      while again
        invariant At(expired, x, e, n)
        invariant Inserted(s, Abs(), t, again, x + p, n)
        invariant Owing(log, t, x, p, n, goal, target)
        decreases n - x
      {
        expired, again, e, x := NextRound(t, now, expired, e, s, x, p, n, goal, target);
      }
      LastExpiry(log, t, x, p, n, goal, target);
      ReloadDone(s, Abs(), t, first, x, p, n);
    }

    /** One round of the loop of `ReloadTimer`: a callback, and another try to file the timer. */
    method NextRound(t: Id, now: nat, expired: nat, ghost e: nat, ghost s: State, ghost x: nat, ghost p: nat,
        ghost n: nat,
                     ghost goal: seq<Event>, ghost target: nat)
      returns (nextExpired: nat, again: bool, ghost e': nat, ghost x': nat)
      requires t in s.timers && s.timers[t].Period == p && 0 < p < M && n == epoch * M + now && now < M
      requires At(expired, x, e, n) && Inserted(s, Abs(), t, true, x + p, n) && Owing(log, t, x, p, n, goal, target)
      modifies this`timers, this`CurrentTimerList, this`OverflowTimerList, this`due, this`log
      ensures x' == x + p && At(nextExpired, x', e', n)
      ensures Inserted(s, Abs(), t, again, x' + p, n)
      ensures Owing(log, t, x', p, n, goal, target)
    {
      x' := x + p;
      CallbackEvent(log, t, x, p, n, goal, target);
      log := log + [Event(t, x)];
      e' := NextExpiry(e, expired, p);
      nextExpired := Plus(expired, timers[t].Period);
      ghost var s1 := Abs();
      again := InsertTimerInActiveList(t, Plus(nextExpired, timers[t].Period), now, nextExpired, x', e', n);
      InsertedTrans(s, s1, Abs(), t, again, x' + p, n);
    }

    /** `ReloadTimer` and the last callback. */
    method ReloadAndCall(t: Id, expired: nat, now: nat, ghost x: nat, ghost e: nat, ghost n: nat)
      requires Filed(Abs()) && t in timers && timers[t].Period > 0 && !Linked(Abs(), t) && now < M &&
               n == epoch * M + now && At(expired, x, e, n)
      modifies this`timers, this`CurrentTimerList, this`OverflowTimerList, this`due, this`log
      ensures Reloaded(old(Abs()), Abs(), t, x, n)
      ensures log == old(log) + Expiries(t, x, old(timers)[t].Period, n)
    {
      ghost var p := timers[t].Period;
      ReloadTimer(t, expired, now, x, e, n);
      log := log + [Event(t, due[t] - p)];
    }

    /** `ProcessExpiredTimer`: take the first timer off the current list, and make all callbacks it owes. */
    method ProcessExpiredTimer(nextExpire: nat, now: nat)
      requires Filed(Abs()) && ActiveIffLinked(Abs()) && CurrentTimerList != [] && now < M
      requires nextExpire == timers[CurrentTimerList[0]].Value <= now
      modifies this`timers, this`CurrentTimerList, this`OverflowTimerList, this`due, this`log
      ensures Filed(Abs()) && ActiveIffLinked(Abs())
      ensures var t := old(CurrentTimerList)[0];
              && Serviced(old(Abs()), Abs(), t, epoch * M + now)
              && log == old(log) + Owed(old(timers)[t], t, old(due)[t], epoch * M + now)
    {
      hide Filed, ActiveIffLinked, Serviced, Expiries, Reloaded, OnlyAbout, Linked;
      var t := CurrentTimerList[0];
      ghost var s, n := Abs(), epoch * M + now;
      TakeFirst(s);
      ghost var x := due[t];
      CurrentTimerList := CurrentTimerList[1..];
      ghost var s1 := Abs();
      if timers[t].autoReload {
        ReloadAndCall(t, nextExpire, now, x, epoch, n);
        ServicedBy(s, s1, Abs(), t, n);
      } else {
        timers := timers[t := timers[t].(active := false)];
        log := log + [Event(t, x)];
        StoppedBy(s, s1, Abs(), t, n);
      }
    }

    /** `SwitchTimerLists`: every timer that expires in the epoch that ends is serviced up to its last tick.
        The loop ends because none of them goes back on the current list. */
    method SwitchTimerLists()
      requires Filed(Abs()) && ActiveIffLinked(Abs())
      modifies this`timers, this`CurrentTimerList, this`OverflowTimerList, this`due, this`log, this`epoch
      ensures Filed(Abs()) && ActiveIffLinked(Abs()) && epoch == old(epoch) + 1 && OverflowTimerList == []
      ensures AllServiced(old(Abs()), Abs(), old(CurrentTimerList), EndOf(old(epoch)))
      ensures OwedIsPaid(old(Abs()), old(log), log, old(CurrentTimerList))
      ensures old(CurrentTimerList) == [] ==> CurrentTimerList == old(OverflowTimerList)
    {
      hide Filed, ActiveIffLinked, AllServiced, OwedIsPaid;
      ghost var s, log0, done := Abs(), log, 0;
      ProgressStart(s, log);
      while |CurrentTimerList| > 0
        invariant Progress(s, Abs(), log0, log, done)
        decreases |CurrentTimerList|
      {
        ghost var s1, log1 := Abs(), log;
        ServiceFirst();
        ProgressStep(s, s1, Abs(), log0, log1, log, done);
        done := done + 1;
      }
      ghost var s2 := ProgressEnd(s, Abs(), log0, log, done);
      CurrentTimerList, OverflowTimerList := OverflowTimerList, CurrentTimerList;
      epoch := epoch + 1;
      assert Abs() == s2;
    }

    method ServiceFirst()
      requires Filed(Abs()) && ActiveIffLinked(Abs()) && CurrentTimerList != []
      modifies this`timers, this`CurrentTimerList, this`OverflowTimerList, this`due, this`log
      ensures Filed(Abs()) && ActiveIffLinked(Abs())
      ensures Serviced(old(Abs()), Abs(), old(CurrentTimerList)[0], EndOf(epoch)) &&
              CurrentTimerList == old(CurrentTimerList)[1..]
      ensures log == old(log) + Service(old(Abs()), old(CurrentTimerList)[0])
    {
      ghost var s := Abs();
      HeadFacts(s);
      var nextExpire := timers[CurrentTimerList[0]].Value;
      ProcessExpiredTimer(nextExpire, M - 1);
      NotBack(s, Abs(), s.current[0], EndOf(epoch));
    }

    // ----- the main loop

    /** `SampleTimeNow` at the true time `nowEpoch` * 2^32 + `now`: at most one change of the lists, which is
        right if less than 2^32 ticks have passed since the last sample, or if no timer is linked. */
    method SampleTimeNow(now: nat, ghost nowEpoch: nat) returns (switched: bool)
      requires xLastTime < M && Filed(Abs()) && ActiveIffLinked(Abs()) && InTime(now, nowEpoch)
      modifies this`timers, this`CurrentTimerList, this`OverflowTimerList, this`due, this`log
      modifies this`epoch, this`xLastTime
      ensures Filed(Abs()) && ActiveIffLinked(Abs()) && xLastTime == now && epoch == nowEpoch
      ensures Sampled(old(Abs()), Abs(), switched, old(log), log) && (switched <==> now < old(xLastTime))
    {
      hide ServicedTimer, ListOk;
      ghost var idle, before := CurrentTimerList == [] && OverflowTimerList == [], epoch;
      WrapSeen(epoch, xLastTime, nowEpoch, now);
      switched := now < xLastTime;
      if switched {
        SwitchTimerLists();
      } else {
        NotSwitched(Abs(), log);
      }
      xLastTime := now;
      if idle {
        Rebased(Abs(), nowEpoch);
        epoch := nowEpoch;
      }
    }

    ghost predicate InTime(now: nat, nowEpoch: nat)
      reads this
    {
      && now < M && LastSample() <= nowEpoch * M + now
      && (nowEpoch * M + now < LastSample() + M || (CurrentTimerList == [] && OverflowTimerList == []))
    }

    /** `GetNextExpireTime`. */
    method GetNextExpireTime() returns (nextExpire: nat, listWasEmpty: bool)
      requires Filed(Abs())
      ensures listWasEmpty <==> CurrentTimerList == []
      ensures nextExpire == if listWasEmpty || CurrentTimerList[0] !in timers then 0
              else timers[CurrentTimerList[0]].Value
    {
      listWasEmpty := |CurrentTimerList| == 0;
      nextExpire := 0;
      if !listWasEmpty {
        HeadFacts(Abs());
        nextExpire := timers[CurrentTimerList[0]].Value;
      }
    }

    /** `ProcessTimerOrBlockTask`, right after `GetNextExpireTime`. If the tick count has wrapped, the timers of
        the past epoch are serviced; otherwise the first timer is, if it is due. Exactly if neither is so the
        task blocks, and then no timer expires before it wakes up: it waits until the first timer of the
        current list expires, or the tick count wraps; only if no timer is linked it waits for ever. */
    method ProcessTimerOrBlockTask(nextExpire: nat, listWasEmpty: bool, now: nat, ghost nowEpoch: nat)
        returns (rest: Rest)
      requires Valid() && InTime(now, nowEpoch) && (listWasEmpty <==> CurrentTimerList == [])
      requires nextExpire == if listWasEmpty || CurrentTimerList[0] !in timers then 0
               else timers[CurrentTimerList[0]].Value
      modifies this
      ensures Valid() && LastSample() == nowEpoch * M + now
      ensures now < old(xLastTime) ==> Sampled(old(Abs()), Abs(), true, old(log), log)
      ensures now >= old(xLastTime) && FirstIsDue(old(Abs()), nowEpoch * M + now) ==>
                ServicedFirst(old(Abs()), Abs(), nowEpoch * M + now, old(log), log)
      ensures rest.Block? <==> now >= old(xLastTime) && !FirstIsDue(old(Abs()), nowEpoch * M + now)
      ensures rest.Block? ==>
                && Abs() == old(Abs()).(epoch := nowEpoch) && log == old(log)
                && Waits(Abs(), nowEpoch * M + now, rest.ticks)
                && (rest.indefinitely <==> CurrentTimerList == [] && OverflowTimerList == [])
    {
      hide Filed, ActiveIffLinked, AllServiced, OwedIsPaid, Serviced, FirstIsDue, ServicedFirst;
      rest := NoRest;
      ghost var s := Abs();
      if !listWasEmpty {
        HeadFacts(s);
      }
      WrapSeen(epoch, xLastTime, nowEpoch, now);
      var switched := SampleTimeNow(now, nowEpoch);
      if !switched {
        FirstByValue(s, nowEpoch, now);
        if !listWasEmpty && nextExpire <= now {
          ghost var log0 := log;
          ProcessExpiredTimer(nextExpire, now);
          ServicedOne(s, Abs(), nowEpoch * M + now, log0, log);
        } else {
          rest := Block(Minus(nextExpire, now), listWasEmpty && OverflowTimerList == []);
          WaitsForHead(Abs(), nowEpoch * M + now, now);
        }
      }
    }

    // ----- commands

    /** `TimerCreate`. */
    method Create(t: Id, period: nat, autoReload: bool, isStatic: bool)
      requires Valid() && t !in timers && period < M
      modifies this`timers
      ensures Valid() && timers == old(timers)[t := Timer(period, autoReload, false, isStatic, 0)]
    {
      CreateOk(Abs(), t, Timer(period, autoReload, false, isStatic, 0));
      timers := timers[t := Timer(period, autoReload, false, isStatic, 0)];
    }

    /** One round of `ProcessReceivedCommands`, at the true time `nowEpoch` * 2^32 + `now`; a start or reset was
        sent at the true time C, less than 2^32 ticks ago. The timer is taken off its list before the time
        is sampled; `sampled` and `logged` are the state and the log after that. */
    method ProcessCommand(t: Id, command: Command, now: nat, ghost nowEpoch: nat, ghost C: nat, ghost commandEpoch: nat)
      returns (ghost sampled: State, ghost logged: seq<Event>, switched: bool)
      requires Valid() && t in timers && InTime(now, nowEpoch) &&
               Proper(timers[t], command, C, commandEpoch, nowEpoch * M + now)
      modifies this
      ensures Valid() && LastSample() == nowEpoch * M + now
      ensures Sampled(Unlinked(old(Abs()), t), sampled, switched, old(log), logged)
      ensures OthersKept(sampled.(busy := {}), Abs(), t) && (forall u :: u != t ==> Of(log, u) == Of(logged, u))
      ensures Obeyed(old(timers)[t], t, command, C, nowEpoch * M + now, Abs(), Of(old(log), t), Of(log, t))
    {
      hide Filed, ActiveIffLinked, Sampled, OthersKept, Obeyed, Unlinked, Linked, Of;
      ghost var timer, was := timers[t], Of(log, t);
      switched := TakeAndSample(t, now, nowEpoch);
      sampled, logged := Abs(), log;
      Obey(t, command, now, C, commandEpoch, nowEpoch * M + now);
      ghost var s' := CommandDone(sampled, Abs(), timer, t, command, C, nowEpoch * M + now, was, Of(log, t));
      busy := {};
      assert Abs() == s';
    }

    method TakeAndSample(t: Id, now: nat, ghost nowEpoch: nat) returns (switched: bool)
      requires Valid() && t in timers && InTime(now, nowEpoch)
      modifies this
      ensures Sampled(Unlinked(old(Abs()), t), Abs(), switched, old(log), log)
      ensures Filed(Abs()) && ActiveIffLinked(Abs()) && busy == {t} && xLastTime == now < M && epoch == nowEpoch
      ensures t in timers && timers[t] == old(timers)[t] && !Linked(Abs(), t) && Of(log, t) == Of(old(log), t)
    {
      hide AllServiced, OwedIsPaid, Of;
      ghost var s, log0 := Abs(), log;
      UnlinkedOk(s, t);
      Unlink(t);
      ghost var s1 := Abs();
      switched := SampleTimeNow(now, nowEpoch);
      SampledElsewhere(s1, Abs(), switched, log0, log, t);
    }

    /** The command itself, for a timer that is on no list. */
    method Obey(t: Id, command: Command, now: nat, ghost C: nat, ghost commandEpoch: nat, ghost n: nat)
      requires Filed(Abs()) && t in timers && !Linked(Abs(), t) && now < M && n == epoch * M + now &&
               Proper(timers[t], command, C, commandEpoch, n)
      modifies this`timers, this`CurrentTimerList, this`OverflowTimerList, this`due, this`log
      ensures Filed(Abs()) && OthersKept(old(Abs()), Abs(), t) && (forall u :: u != t ==> Of(log, u) == Of(old(log), u))
      ensures Obeyed(old(timers)[t], t, command, C, n, Abs(), Of(old(log), t), Of(log, t))
    {
      hide Filed, Of, Owed;
      match command {
        case StartOrReset(commandTime) =>
          ghost var log0, owed := log, Owed(timers[t], t, C + timers[t].Period, n);
          LogOfOthers(log0, timers[t], t, C + timers[t].Period, n);
          StartTimer(t, commandTime, now, C, commandEpoch, n);
        case Stop => SetActiveState(t, false);
        case ChangePeriod(period) => ChangeTimerPeriod(t, period, now, n);
        case Delete =>
          if !timers[t].isStatic {
            ForgetTimer(t);
          } else {
            SetActiveState(t, false);
          }
      }
    }

    method Unlink(t: Id)
      modifies this`CurrentTimerList, this`OverflowTimerList, this`busy
      ensures Abs() == Unlinked(old(Abs()), t)
    {
      if t in CurrentTimerList {
        CurrentTimerList := DropAt(CurrentTimerList, IndexOf(CurrentTimerList, t));
      } else if t in OverflowTimerList {
        OverflowTimerList := DropAt(OverflowTimerList, IndexOf(OverflowTimerList, t));
      }
      busy := {t};
    }

    method SetActiveState(t: Id, active: bool)
      requires Filed(Abs()) && t in timers && !Linked(Abs(), t)
      modifies this`timers
      ensures timers == old(timers)[t := old(timers)[t].(active := active)]
      ensures Filed(Abs()) && OnlyAbout(old(Abs()), Abs(), t)
    {
      FlaggedOk(Abs(), t, timers[t].(active := active));
      timers := timers[t := timers[t].(active := active)];
    }

    method ForgetTimer(t: Id)
      requires Filed(Abs()) && t in timers && !Linked(Abs(), t)
      modifies this`timers
      ensures timers == old(timers) - {t} && Filed(Abs())
    {
      ForgottenOk(Abs(), t);
      timers := timers - {t};
    }

    method StartTimer(t: Id, commandTime: nat, now: nat, ghost C: nat, ghost commandEpoch: nat, ghost n: nat)
      requires Filed(Abs()) && t in timers && Reloadable(timers[t]) && !Linked(Abs(), t) && now < M &&
               n == epoch * M + now && At(commandTime, C, commandEpoch, n)
      modifies this`timers, this`CurrentTimerList, this`OverflowTimerList, this`due, this`log
      ensures Filed(Abs()) && OnlyAbout(old(Abs()), Abs(), t)
      ensures log == old(log) + Owed(old(timers)[t], t, C + old(timers)[t].Period, n)
      ensures var timer := old(timers)[t];
              var x := C + timer.Period;
              if timer.Period > 0 && (timer.autoReload || n < x) then
                  LinkedAt(Abs(), t, timer.Period, NextDue(x, timer.Period, n)) else Off(Abs(), t)
    {
      hide OnlyAbout, Expiries, NextDue, ListOk;
      ghost var s, p := Abs(), timers[t].Period;
      SetActiveState(t, true);
      ghost var s1 := Abs();
      var fired := InsertTimerInActiveList(t, Plus(commandTime, timers[t].Period), now, commandTime, C, commandEpoch,
          n);
      ghost var s2 := Abs();
      OnlyAboutTrans(s, s1, s2, t);
      if !fired {
        NothingOwed(s.timers[t], t, C + p, n);
      } else {
        Catchup(t, Plus(commandTime, timers[t].Period), now, C + p, NextExpiry(commandEpoch, commandTime, p), n);
        OnlyAboutTrans(s, s2, Abs(), t);
      }
    }

    /** A start whose expiry has come before it was seen. */
    method Catchup(t: Id, expired: nat, now: nat, ghost x: nat, ghost e: nat, ghost n: nat)
      requires Filed(Abs()) && t in timers && Reloadable(timers[t]) && timers[t].active && !Linked(Abs(), t) &&
               now < M && n == epoch * M + now && At(expired, x, e, n)
      modifies this`timers, this`CurrentTimerList, this`OverflowTimerList, this`due, this`log
      ensures Filed(Abs()) && OnlyAbout(old(Abs()), Abs(), t)
      ensures log == old(log) + Owed(old(timers)[t], t, x, n)
      ensures if old(timers)[t].autoReload then
              LinkedAt(Abs(), t, old(timers)[t].Period, NextDue(x, old(timers)[t].Period, n)) else Off(Abs(), t)
    {
      if timers[t].autoReload {
        ReloadAndCall(t, expired, now, x, e, n);
      } else {
        SetActiveState(t, false);
        log := log + [Event(t, x)];
      }
    }

    /** `tmrCOMMAND_CHANGE_PERIOD`: the result of the insertion is not looked at, because it cannot fire. */
    method ChangeTimerPeriod(t: Id, period: nat, now: nat, ghost n: nat)
      requires Filed(Abs()) && t in timers && !Linked(Abs(), t) && now < M && n == epoch * M + now && period < M
      modifies this`timers, this`CurrentTimerList, this`OverflowTimerList, this`due
      ensures Filed(Abs()) && OnlyAbout(old(Abs()), Abs(), t)
      ensures if period > 0 then LinkedAt(Abs(), t, period, n + period) else Lost(Abs(), t)
    {
      ghost var s := Abs();
      FlaggedOk(s, t, timers[t].(active := true, Period := period));
      timers := timers[t := timers[t].(active := true, Period := period)];
      ghost var s1 := Abs();
      var fired := InsertTimerInActiveList(t, Plus(now, timers[t].Period), now, now, n, epoch, n);
      OnlyAboutTrans(s, s1, Abs(), t);
    }
  }

  // ----- what the loops rely on

  /** The tick count of an expiry at the true time x, less than 2^32 ticks ago. */
  predicate At(expired: nat, x: nat, e: nat, n: nat) {
    expired < M && x == e * M + expired && x <= n < x + M
  }

  /** What is still to be called back for the expiries from x on. */
  ghost predicate Owing(log: seq<Event>, t: Id, x: nat, p: nat, n: nat, goal: seq<Event>, target: nat) {
    p > 0 && log + Expiries(t, x, p, n) == goal && NextDue(x, p, n) == target
  }

  lemma NothingOwed(timer: Timer, t: Id, x: nat, n: nat)
    requires Reloadable(timer) && x > n
    ensures Owed(timer, t, x, n) == [] && (timer.Period > 0 ==> NextDue(x, timer.Period, n) == x)
  {
  }

  lemma CallbackEvent(log: seq<Event>, t: Id, x: nat, p: nat, n: nat, goal: seq<Event>, target: nat)
    requires x <= n && Owing(log, t, x, p, n, goal, target)
    ensures Owing(log + [Event(t, x)], t, x + p, p, n, goal, target)
  {
  }

  /** The epoch of the next expiry, whose tick count has been added up in 32 bits. */
  ghost function NextExpiry(e: nat, expired: nat, p: nat): (e': nat)
    requires expired < M && p < M
    ensures e' * M + Plus(expired, p) == e * M + expired + p
  {
    if expired + p < M then e else e + 1
  }

  lemma LastExpiry(log: seq<Event>, t: Id, x: nat, p: nat, n: nat, goal: seq<Event>, target: nat)
    requires x <= n < x + p && Owing(log, t, x, p, n, goal, target)
    ensures log + [Event(t, x)] == goal && target == x + p
  {
    assert Expiries(t, x + p, p, n) == [];
  }

  lemma InsertedTrans(s: State, s1: State, s2: State, t: Id, fired: bool, expiry: nat, n: nat)
    requires t in s.timers && t in s1.timers && s1.timers[t] == s.timers[t].(Value := s1.timers[t].Value)
    requires OnlyAbout(s, s1, t) && s1.current == s.current && s1.overflow == s.overflow &&
             Inserted(s1, s2, t, fired, expiry, n)
    ensures Inserted(s, s2, t, fired, expiry, n)
  {
    OnlyAboutTrans(s, s1, s2, t);
  }

  /** Filed again, for its first expiry after n. */
  ghost predicate Reloaded(s: State, s': State, t: Id, x: nat, n: nat)
    requires t in s.timers && s.timers[t].Period > 0
  {
    && Filed(s') && OnlyAbout(s, s', t)
    && t in s'.timers && s'.timers[t] == s.timers[t].(Value := s'.timers[t].Value)
    && Linked(s', t) && t in s'.due && s'.due[t] == NextDue(x, s.timers[t].Period, n) && s'.due[t] >= s.timers[t].Period
    && (if t in s'.current then s'.due[t] < (s'.epoch + 1) * M else s'.current == s.current)
  }

  lemma ReloadDone(s: State, s': State, t: Id, first: nat, x: nat, p: nat, n: nat)
    requires t in s.timers && s.timers[t].Period == p && p > 0 && Inserted(s, s', t, false, x + p, n)
    requires NextDue(first, p, n) == x + p
    ensures Reloaded(s, s', t, first, n) && s'.due[t] - p == x
  {
  }

  /** A timer has made the callbacks it owed at n: an auto-reload timer is filed for its first expiry after
      n, another one is neither active nor linked. */
  ghost predicate ServicedTimer(s: State, s': State, t: Id, n: nat) {
    && t in s.timers && t in s.due && t in s'.timers && s.timers[t].Period > 0
    && (if s.timers[t].autoReload then
          && s'.timers[t] == s.timers[t].(Value := s'.timers[t].Value)
          && Linked(s', t) && t in s'.due && s'.due[t] == NextDue(s.due[t], s.timers[t].Period, n)
        else s'.timers[t] == s.timers[t].(active := false) && !Linked(s', t))
  }

  ghost predicate Serviced(s: State, s': State, t: Id, n: nat) {
    ServicedTimer(s, s', t, n) && OnlyAbout(s, s', t)
    && s.current != [] && t == s.current[0]
    && (if t in s'.current then t in s'.due && s'.due[t] < (s'.epoch + 1) * M else s'.current == s.current[1..])
  }

  lemma TakeFirst(s: State)
    requires Filed(s) && s.current != []
    ensures var t, s1 := s.current[0], s.(current := s.current[1..]);
            Filed(s1) && !Linked(s1, t) && OnlyAbout(s, s1, t) && t in s.timers && t in s.due &&
                s.due[t] == s.epoch * M + s.timers[t].Value
    ensures 0 < s.timers[s.current[0]].Period < M && s.timers[s.current[0]].Value < M
  {
    var t, s1 := s.current[0], s.(current := s.current[1..]);
    assert t in s.current;
    assert forall u :: u in s.current <==> u == t || u in s.current[1..];
    assert forall i :: 0 <= i < |s.current[1..]| ==> s.current[1..][i] == s.current[i + 1];
    ListFrame(s, s1, s.overflow, s.epoch + 1);
  }

  lemma ServicedBy(s: State, s1: State, s2: State, t: Id, n: nat)
    requires Filed(s) && ActiveIffLinked(s) && s.current != [] && t == s.current[0] && t in s.timers && t in s.due &&
             s.timers[t].autoReload
    requires s1 == s.(current := s.current[1..]) && OnlyAbout(s, s1, t) && Reloaded(s1, s2, t, s.due[t], n)
    ensures ActiveIffLinked(s2) && Serviced(s, s2, t, n)
  {
    OnlyAboutTrans(s, s1, s2, t);
    assert t in s.current;
  }

  lemma StoppedBy(s: State, s1: State, s2: State, t: Id, n: nat)
    requires Filed(s) && Filed(s1) && ActiveIffLinked(s) && s.current != [] && t == s.current[0] &&
             !s.timers[t].autoReload
    requires s1 == s.(current := s.current[1..]) && OnlyAbout(s, s1, t) && !Linked(s1, t)
    requires s2 == s1.(timers := s1.timers[t := s1.timers[t].(active := false)])
    ensures Filed(s2) && ActiveIffLinked(s2) && Serviced(s, s2, t, n)
  {
    assert t in s.current;
    StillFiled(s1, s2);
    hide Filed, ListOk;
  }

  /** The lists do not depend on which timers are active. */
  lemma StillFiled(s: State, s': State)
    requires Filed(s) && s' == s.(timers := s'.timers) && s'.timers.Keys == s.timers.Keys
    requires forall t :: t in s.timers ==> s'.timers[t] == s.timers[t].(active := s'.timers[t].active)
    ensures Filed(s')
  {
    ListFrame(s, s', s'.current, s'.epoch);
    ListFrame(s, s', s'.overflow, s'.epoch + 1);
  }

  // ----- all timers of an epoch

  ghost predicate AllServiced(s: State, s': State, ts: seq<Id>, n: nat) {
    && s'.timers.Keys == s.timers.Keys
    && (forall t :: t in ts ==> ServicedTimer(s, s', t, n))
    && (forall t :: t in s.timers && t !in ts ==> s'.timers[t] == s.timers[t] && (Linked(s', t) <==> Linked(s, t)))
    && (forall t :: t in s.due && t !in ts ==> t in s'.due && s'.due[t] == s.due[t])
  }

  /** What a timer owes at n if it is one of `ts`. */
  ghost function OwedBy(s: State, t: Id, ts: seq<Id>, n: nat): seq<nat> {
    if t in ts && t in s.timers && t in s.due &&
        s.timers[t].Period > 0 then Of(Owed(s.timers[t], t, s.due[t], n), t) else []
  }

  function EndOf(epoch: nat): nat {
    epoch * M + M - 1
  }

  /** `SwitchTimerLists` under way: the first `done` timers of the list have been serviced. */
  ghost predicate Progress(s: State, s1: State, log0: seq<Event>, log1: seq<Event>, done: nat) {
    && Filed(s1) && ActiveIffLinked(s1) && s1.epoch == s.epoch
    && s1.busy == s.busy && done <= |s.current| && s1.current == s.current[done..] && (done == 0 ==> s1 == s)
    && AllServiced(s, s1, s.current[..done], EndOf(s.epoch))
    && log1 == log0 + Services(s, s.current[..done])
  }

  /** What one timer owes at the end of the epoch, and what some owe together. */
  ghost function Service(s: State, t: Id): seq<Event> {
    if t in s.timers && t in s.due && s.timers[t].Period > 0 then Owed(s.timers[t], t, s.due[t], EndOf(s.epoch)) else []
  }

  ghost function Services(s: State, ts: seq<Id>): seq<Event> {
    if ts == [] then [] else Services(s, ts[..|ts| - 1]) + Service(s, ts[|ts| - 1])
  }

  ghost predicate OwedIsPaid(s: State, log0: seq<Event>, log1: seq<Event>, ts: seq<Id>) {
    forall t :: Of(log1, t) == Of(log0, t) + OwedBy(s, t, ts, EndOf(s.epoch))
  }

  lemma ProgressStart(s: State, log: seq<Event>)
    requires Filed(s) && ActiveIffLinked(s)
    ensures Progress(s, s, log, log, 0)
  {
  }

  lemma ProgressStep(s: State, s1: State, s2: State, log0: seq<Event>, log1: seq<Event>, log2: seq<Event>, done: nat)
    requires Filed(s) && Progress(s, s1, log0, log1, done) && done < |s.current| && s1.current != []
    requires Filed(s2) && ActiveIffLinked(s2) && Serviced(s1, s2, s1.current[0], EndOf(s.epoch)) && s2.epoch == s.epoch
    requires log2 == log1 + Service(s1, s1.current[0])
    ensures Progress(s, s2, log0, log2, done + 1)
  {
    hide Filed, ActiveIffLinked, Service;
    NotYet(s, s1, done);
    NextServiced(s, s1, s2, done, EndOf(s.epoch));
    LogStep(s, log0, log1, log2, s.current[..done], s.current[done]);
    assert s.current[..done] + [s.current[done]] == s.current[..done + 1];
  }

  lemma {:induction false} LogStep(s: State, log0: seq<Event>, log1: seq<Event>, log2: seq<Event>, most: seq<Id>, u: Id)
    requires log1 == log0 + Services(s, most) && log2 == log1 + Service(s, u)
    ensures log2 == log0 + Services(s, most + [u])
  {
    ServicesSnoc(s, most, u);
    Associates(log0, Services(s, most), Service(s, u));
  }

  lemma Associates(a: seq<Event>, b: seq<Event>, c: seq<Event>)
    ensures (a + b) + c == a + (b + c)
  {
  }

  /** The next timer is as it was at the start. */
  lemma NotYet(s: State, s1: State, done: nat)
    requires Filed(s) && done < |s.current| && s1.current == s.current[done..] && s1.epoch == s.epoch
    requires AllServiced(s, s1, s.current[..done], EndOf(s.epoch))
    ensures s1.current[0] == s.current[done] && Service(s1, s.current[done]) == Service(s, s.current[done])
  {
    var u := s.current[done];
    assert u in s.current && u !in s.current[..done];
  }

  lemma ServicesSnoc(s: State, most: seq<Id>, u: Id)
    ensures Services(s, most + [u]) == Services(s, most) + Service(s, u)
  {
    assert (most + [u])[..|most|] == most;
  }

  lemma ProgressEnd(s: State, s1: State, log0: seq<Event>, log1: seq<Event>, done: nat) returns (s2: State)
    requires Filed(s) && Progress(s, s1, log0, log1, done) && s1.current == []
    ensures s2 == State(s1.timers, s1.overflow, s1.current, s1.epoch + 1, s1.due, s1.busy) && s1.epoch == s.epoch
    ensures Filed(s2) && ActiveIffLinked(s2) && AllServiced(s, s2, s.current, EndOf(s.epoch))
    ensures OwedIsPaid(s, log0, log1, s.current) && (s.current == [] ==> s1 == s)
  {
    s2 := State(s1.timers, s1.overflow, s1.current, s1.epoch + 1, s1.due, s1.busy);
    assert s.current[..done] == s.current;
    SwapOk(s, s1, EndOf(s.epoch));
    ServicesPaid(s, log0, s.current);
  }

  lemma HeadFacts(s: State)
    requires Filed(s) && s.current != []
    ensures s.current[0] in s.timers && s.current[0] in s.due && 0 < s.timers[s.current[0]].Period &&
            s.timers[s.current[0]].Value < M
  {
    assert s.current[0] in s.current;
  }

  /** What has been serviced up to the end of an epoch expires in a later one. */
  lemma NotBack(s1: State, s2: State, t: Id, n: nat)
    requires Serviced(s1, s2, t, n) && n == s2.epoch * M + M - 1
    ensures t !in s2.current && s2.current == s1.current[1..]
  {
  }

  lemma NextServiced(s: State, s1: State, s2: State, done: nat, n: nat)
    requires Filed(s) && Filed(s1) && done < |s.current| && s1.current == s.current[done..] &&
             s1.epoch == s.epoch == s2.epoch
    requires n == s.epoch * M + M - 1 && AllServiced(s, s1, s.current[..done], n)
    requires Serviced(s1, s2, s.current[done], n)
    ensures AllServiced(s, s2, s.current[..done + 1], n)
    ensures s2.current == s.current[done + 1..]
  {
    var u := s.current[done];
    NotBack(s1, s2, u, n);
    assert s1.current[1..] == s.current[done + 1..];
    assert u in s.current && u !in s.current[..done];
    assert forall t :: t in s.current[..done + 1] <==> t in s.current[..done] || t == u;
    OneMoreServiced(s, s1, s2, s.current[..done], u, s.current[..done + 1], n);
  }

  lemma OneMoreServiced(s: State, s1: State, s2: State, ts: seq<Id>, u: Id, ts': seq<Id>, n: nat)
    requires AllServiced(s, s1, ts, n) && ServicedTimer(s1, s2, u, n) && OnlyAbout(s1, s2, u)
    requires u !in ts && u in s.due && (forall t :: t in ts' <==> t in ts || t == u)
    ensures AllServiced(s, s2, ts', n)
  {
    forall t | t in ts ensures ServicedTimer(s, s2, t, n) {
      assert ServicedTimer(s, s1, t, n);
    }
  }

  lemma SwapOk(s: State, s2: State, n: nat)
    requires Filed(s2) && ActiveIffLinked(s2) && s2.current == [] && AllServiced(s, s2, s.current, n)
    ensures var s3 := State(s2.timers, s2.overflow, s2.current, s2.epoch + 1, s2.due, s2.busy);
            Filed(s3) && ActiveIffLinked(s3) && AllServiced(s, s3, s.current, n)
  {
    var s3 := State(s2.timers, s2.overflow, s2.current, s2.epoch + 1, s2.due, s2.busy);
    ListFrame(s2, s3, s3.current, s3.epoch);
    forall t | t in s.current ensures ServicedTimer(s, s3, t, n) {
      assert ServicedTimer(s, s2, t, n);
    }
  }

  /** Every timer of a list gets what it owes, and no other timer a callback. */
  lemma {:induction false} ServicesPaid(s: State, log0: seq<Event>, ts: seq<Id>)
    requires NoDup(ts)
    ensures OwedIsPaid(s, log0, log0 + Services(s, ts), ts)
    decreases |ts|
  {
    if ts == [] {
      assert log0 + [] == log0;
    } else {
      var most, u := ts[..|ts| - 1], ts[|ts| - 1];
      ServicesPaid(s, log0, most);
      forall t ensures Of(log0 + Services(s, ts), t) == Of(log0, t) + OwedBy(s, t, ts, EndOf(s.epoch)) {
        OneMorePaid(s, log0, most, u, ts, t);
      }
    }
  }

  lemma {:induction false} OneMorePaid(s: State, log0: seq<Event>, most: seq<Id>, u: Id, ts: seq<Id>, t: Id)
    requires ts == most + [u] && u !in most
    requires Of(log0 + Services(s, most), t) == Of(log0, t) + OwedBy(s, t, most, EndOf(s.epoch))
    ensures Of(log0 + Services(s, ts), t) == Of(log0, t) + OwedBy(s, t, ts, EndOf(s.epoch))
  {
    ServicesSnoc(s, most, u);
    OfThree(log0, Services(s, most), Service(s, u), t);
    OwedSnoc(s, most, u, t);
  }

  lemma {:induction false} OfThree(a: seq<Event>, b: seq<Event>, c: seq<Event>, t: Id)
    ensures Of(a + (b + c), t) == Of(a + b, t) + Of(c, t)
  {
    assert a + (b + c) == (a + b) + c;
    OfSum(a + b, c, t);
  }

  lemma {:induction false} OwedSnoc(s: State, most: seq<Id>, u: Id, t: Id)
    requires u !in most
    ensures OwedBy(s, t, most + [u], EndOf(s.epoch)) == OwedBy(s, t, most, EndOf(s.epoch)) + Of(Service(s, u), t)
  {
    assert t in most + [u] <==> t in most || t == u;
    if t != u && u in s.timers && u in s.due && s.timers[u].Period > 0 {
      OwedToOthers(s.timers[u], u, s.due[u], EndOf(s.epoch), t);
    }
  }

  // ----- sampling the time

  /** What a sample does: nothing, or the service of all timers of the epoch that has ended. */
  ghost predicate Sampled(s: State, s': State, switched: bool, log: seq<Event>, log': seq<Event>) {
    if switched then AllServiced(s, s', s.current, EndOf(s.epoch)) && OwedIsPaid(s, log, log', s.current)
    else s' == s.(epoch := s'.epoch) && log' == log
  }

  lemma NotSwitched(s: State, log: seq<Event>)
    ensures Sampled(s, s, false, log, log)
  {
  }

  /** With no timer linked, any epoch will do. */
  lemma Rebased(s: State, e: nat)
    requires Filed(s) && s.current == [] && s.overflow == []
    ensures Filed(s.(epoch := e))
  {
  }

  /** No linked timer expires earlier than after that many ticks; and if the current list is not empty, its
      first one then. A wait across the wrap of the tick count ends at the wrap. */
  ghost predicate Waits(s: State, n: nat, ticks: nat) {
    && (forall t :: t in s.current ==> t in s.due && n + ticks <= s.due[t])
    && (s.current != [] ==> s.current[0] in s.due && s.due[s.current[0]] == n + ticks)
    && (s.current == [] ==> forall t :: t in s.overflow ==> t in s.due && n + ticks <= s.due[t])
  }

  /** Some timer that is linked for this epoch is due at n. */
  ghost predicate FirstIsDue(s: State, n: nat) {
    exists t :: t in s.current && t in s.due && s.due[t] <= n
  }

  /** The first timer has all the callbacks it owes at n, and no other timer any. */
  ghost predicate ServicedFirst(s: State, s': State, n: nat, log: seq<Event>, log': seq<Event>) {
    && s.current != [] && s.current[0] in s.timers && s.current[0] in s.due && Reloadable(s.timers[s.current[0]])
    && Serviced(s, s', s.current[0], n)
    && log' == log + Owed(s.timers[s.current[0]], s.current[0], s.due[s.current[0]], n)
  }

  /** In the epoch of the list, some timer is due exactly if the first one is, and that is when its 32-bit
      expiry has come. */
  lemma FirstByValue(s: State, nowEpoch: nat, now: nat)
    requires Filed(s) && now < M && (s.current != [] ==> nowEpoch == s.epoch)
    ensures s.current != [] ==> s.current[0] in s.timers
    ensures FirstIsDue(s, nowEpoch * M + now) <==> s.current != [] && s.timers[s.current[0]].Value <= now
  {
    if s.current != [] {
      assert s.current[0] in s.current;
      forall t | t in s.current ensures t in s.due && s.due[s.current[0]] <= s.due[t] {
        var i :| 0 <= i < |s.current| && s.current[i] == t;
        assert s.timers[s.current[0]].Value <= s.timers[s.current[i]].Value;
      }
    }
  }

  lemma ServicedOne(s: State, s': State, n: nat, log: seq<Event>, log': seq<Event>)
    requires Filed(s) && s.current != [] && s.current[0] in s.timers && s.current[0] in s.due &&
             Serviced(s, s', s.current[0], n)
    requires Reloadable(s.timers[s.current[0]]) &&
             log' == log + Owed(s.timers[s.current[0]], s.current[0], s.due[s.current[0]], n)
    ensures ServicedFirst(s, s', n, log, log')
  {
  }

  lemma WaitsForHead(s: State, n: nat, now: nat)
    requires Filed(s) && now < M && n == s.epoch * M + now
    requires s.current != [] ==> s.current[0] in s.timers && now < s.timers[s.current[0]].Value < M
    ensures Waits(s, n, Minus(if s.current == [] then 0 else s.timers[s.current[0]].Value, now))
  {
    if s.current != [] {
      assert s.current[0] in s.current;
      forall t | t in s.current ensures t in s.due && s.due[s.current[0]] <= s.due[t] {
        var i :| 0 <= i < |s.current| && s.current[i] == t;
        assert s.timers[s.current[0]].Value <= s.timers[s.current[i]].Value;
      }
    }
  }

  // ----- commands

  lemma CreateOk(s: State, t: Id, timer: Timer)
    requires Filed(s) && ActiveIffLinked(s) && t !in s.timers && timer.Period < M && timer.Value < M && !timer.active &&
             t !in s.busy
    ensures var s' := s.(timers := s.timers[t := timer]); Filed(s') && ActiveIffLinked(s')
  {
    var s' := s.(timers := s.timers[t := timer]);
    ListFrame(s, s', s.current, s.epoch);
    ListFrame(s, s', s.overflow, s.epoch + 1);
  }

  function Unlinked(s: State, t: Id): State {
    s.(current := if t in s.current then DropAt(s.current, IndexOf(s.current, t)) else s.current,
       overflow := if t !in s.current && t in s.overflow then DropAt(s.overflow, IndexOf(s.overflow, t))
           else s.overflow,
       busy := {t})
  }

  lemma DropOk(s: State, list: seq<Id>, t: Id, e: nat)
    requires ListOk(s, list, e) && t in list
    ensures ListOk(s, DropAt(list, IndexOf(list, t)), e)
    ensures forall u :: u in DropAt(list, IndexOf(list, t)) <==> u in list && u != t
  {
    var i := IndexOf(list, t);
    DropAtMembers(list, i);
    DroppedInOrder(s, list, i);
    hide NoDup, IndexOf, DropAt;
  }

  lemma DroppedInOrder(s: State, list: seq<Id>, i: nat)
    requires i < |list| && forall j :: 0 <= j < |list| ==> list[j] in s.timers
    requires forall j, k :: 0 <= j < k < |list| ==> s.timers[list[j]].Value <= s.timers[list[k]].Value
    ensures var r := DropAt(list, i);
            && (forall j :: 0 <= j < |r| ==> r[j] in s.timers)
            && forall j, k :: 0 <= j < k < |r| ==> s.timers[r[j]].Value <= s.timers[r[k]].Value
  {
    var r := DropAt(list, i);
    assert forall j :: 0 <= j < |r| ==> r[j] == list[if j < i then j else j + 1];
  }

  lemma UnlinkedOk(s: State, t: Id)
    requires Filed(s) && ActiveIffLinked(s) && s.busy == {} && t in s.timers
    ensures var s' := Unlinked(s, t); Filed(s') && ActiveIffLinked(s') && !Linked(s', t)
    ensures OnlyAbout(s, Unlinked(s, t).(busy := {}), t)
  {
    var s' := Unlinked(s, t);
    if t in s.current {
      DropOk(s, s.current, t, s.epoch);
    } else if t in s.overflow {
      DropOk(s, s.overflow, t, s.epoch + 1);
    }
    ListFrame(s, s', s'.current, s.epoch);
    ListFrame(s, s', s'.overflow, s.epoch + 1);
  }

  /** What has become of the timer, and which callbacks it has had. */
  ghost predicate Obeyed(timer: Timer, t: Id, command: Command, C: nat, n: nat, s: State, was: seq<nat>,
      now: seq<nat>) {
    match command
    case StartOrReset(_) =>
      var x := C + timer.Period;
      && Reloadable(timer) && now == was + Of(Owed(timer, t, x, n), t)
      && (if timer.Period > 0 && (timer.autoReload || n < x) then
         LinkedAt(s, t, timer.Period, NextDue(x, timer.Period, n)) else Off(s, t))
    case Stop => now == was && Off(s, t)
    case ChangePeriod(p) => now == was && (if p > 0 then LinkedAt(s, t, p, n + p) else Lost(s, t))
    case Delete => now == was && !Linked(s, t) && (t in s.timers <==> timer.isStatic) && (timer.isStatic ==> Off(s, t))
  }

  /** A start or reset was sent less than 2^32 ticks ago, and the daemon comes back from it. */
  ghost predicate Proper(timer: Timer, command: Command, C: nat, commandEpoch: nat, n: nat) {
    match command
    case StartOrReset(commandTime) => Reloadable(timer) && At(commandTime, C, commandEpoch, n)
    case ChangePeriod(period) => period < M
    case _ => true
  }

  lemma CommandDone(s: State, s1: State, timer: Timer, t: Id, command: Command, C: nat, n: nat, was: seq<nat>,
      now: seq<nat>)
    returns (s': State)
    requires ActiveIffLinked(s) && s.busy == {t} && OthersKept(s, s1, t)
    requires Filed(s1) && Obeyed(timer, t, command, C, n, s1, was, now)
    ensures s' == s1.(busy := {}) && Filed(s') && ActiveIffLinked(s') && OthersKept(s.(busy := {}), s', t)
    ensures Obeyed(timer, t, command, C, n, s', was, now)
  {
    s' := s1.(busy := {});
  }

  /** A callback of one timer is in the log of no other. */
  lemma LogOfOthers(log: seq<Event>, timer: Timer, t: Id, x: nat, n: nat)
    requires Reloadable(timer)
    ensures forall u :: Of(log + Owed(timer, t, x, n), u) == Of(log, u) + if u == t then Of(Owed(timer, t, x, n), t)
                else []
  {
    forall u ensures Of(log + Owed(timer, t, x, n), u) == Of(log, u) + if u == t then Of(Owed(timer, t, x, n), t)
        else [] {
      OfSum(log, Owed(timer, t, x, n), u);
      if u != t {
        OwedToOthers(timer, t, x, n, u);
      }
    }
  }

  ghost predicate LinkedAt(s: State, t: Id, period: nat, due: nat) {
    t in s.timers && s.timers[t].active && s.timers[t].Period == period && Linked(s, t) && t in s.due && s.due[t] == due
  }

  /** Active, but on no list, and never called back again: what a change of the period to 0 leaves. */
  ghost predicate Lost(s: State, t: Id) {
    t in s.timers && s.timers[t].active && s.timers[t].Period == 0 && !Linked(s, t)
  }

  ghost predicate Off(s: State, t: Id) {
    t in s.timers && !s.timers[t].active && !Linked(s, t)
  }

  lemma FlaggedOk(s: State, t: Id, timer: Timer)
    requires Filed(s) && t in s.timers && !Linked(s, t) && timer.Period < M && timer.Value < M
    ensures var s' := s.(timers := s.timers[t := timer]); Filed(s') && OnlyAbout(s, s', t)
  {
    var s' := s.(timers := s.timers[t := timer]);
    ListFrame(s, s', s.current, s.epoch);
    ListFrame(s, s', s.overflow, s.epoch + 1);
  }

  lemma ForgottenOk(s: State, t: Id)
    requires Filed(s) && t in s.timers && !Linked(s, t)
    ensures Filed(s.(timers := s.timers - {t}))
  {
    var s' := s.(timers := s.timers - {t});
    ListFrame(s, s', s.current, s.epoch);
    ListFrame(s, s', s.overflow, s.epoch + 1);
  }

  /** Sampling the time does nothing to a timer that is on no list. */
  lemma SampledElsewhere(s: State, s': State, switched: bool, log: seq<Event>, log': seq<Event>, t: Id)
    requires t in s.timers && !Linked(s, t) && Sampled(s, s', switched, log, log')
    ensures t in s'.timers && s'.timers[t] == s.timers[t] && !Linked(s', t) && Of(log', t) == Of(log, t)
  {
  }
}
