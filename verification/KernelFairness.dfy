/** How often a task of the highest ready priority can be passed over, in any run of the kernel. */
module KernelFairness {
  import opened Basics
  import opened Rings
  import opened ReadyTurns
  import opened KernelModel
  import opened KernelSteps
  import opened KernelApi
  import opened KernelInvariant
  import opened KernelRuns
  import opened KernelSwitches
  import opened KernelTheorems
  import opened KernelTurns

  /** The number of tasks of t's priority that are to be chosen before it. */
  function TasksAhead(k: K, t: Task): nat
    requires t in k.tcb && t in Items(k, Ready(k.tcb[t].prio))
  {
    Ahead(ReadyList(k, k.tcb[t].prio), t)
  }

  /** The cursor of t's ready list has still to come to t before it is back at the sentinel. */
  predicate CursorComing(k: K, t: Task)
    requires t in k.tcb && t in Items(k, Ready(k.tcb[t].prio))
  {
    Coming(ReadyList(k, k.tcb[t].prio), t)
  }

  lemma Listed(k: K, t: Task)
    requires Inv(k) && IsReady(k, t)
    ensures t in k.tcb && t in Items(k, Ready(k.tcb[t].prio)) && NoDup(Items(k, Ready(k.tcb[t].prio)))
    ensures forall u :: u in Items(k, Ready(k.tcb[t].prio)) ==> u in k.tcb
  {
    DelayedMembers(k, t);
  }

  lemma {:induction false} SomeTasks(k: K, steps: seq<Step>, k': K) returns (all: set<Task>)
    requires Run(k, steps, k')
    ensures TasksFrom(k, steps, all)
    decreases |steps|
  {
    all := k.tcb.Keys;
    if steps != [] {
      var rest := SomeTasks(Do(k, steps[0]), steps[1..], k');
      all := all + rest;
      Wider(Do(k, steps[0]), steps[1..], rest, all);
    }
  }

  lemma {:induction false} Wider(k: K, steps: seq<Step>, all: set<Task>, more: set<Task>)
    requires TasksFrom(k, steps, all) && all <= more
    ensures TasksFrom(k, steps, more)
    decreases |steps|
  {
    if steps != [] {
      Wider(Do(k, steps[0]), steps[1..], all, more);
    }
  }

  /** If the cursor is coming to a ready task, nobody overtakes it: in whatever run, it is passed over at most as
      often as there were tasks ahead of it, whoever becomes ready in the meantime. */
  lemma TurnComes(k: K, steps: seq<Step>, k': K, t: Task)
    requires Inv(k) && IsReady(k, t) && PassedOver(k, steps, k', t)
    ensures t in k.tcb && t in Items(k, Ready(k.tcb[t].prio))
    ensures CursorComing(k, t) ==> SwitchesAt(k, steps, k.tcb[t].prio) <= TasksAhead(k, t)
  {
    var all := SomeTasks(k, steps, k');
    Listed(k, t);
    var es := RunTurns(k, steps, k', t, all);
    if CursorComing(k, t) {
      NobodyOvertakes(ReadyList(k, k.tcb[t].prio), es, t);
    }
  }

  /** No ready task starves: in a run among n tasks it is passed over fewer than 2n times by tasks of its
      priority. */
  lemma NoTaskStarves(k: K, steps: seq<Step>, k': K, t: Task, all: set<Task>)
    requires Inv(k) && IsReady(k, t) && PassedOver(k, steps, k', t) && TasksFrom(k, steps, all)
    ensures IsReady(k', t) && SwitchesAt(k, steps, k.tcb[t].prio) < 2 * |all|
  {
    var r := ReadyList(k, k.tcb[t].prio);
    Listed(k, t);
    var es := RunTurns(k, steps, k', t, all);
    AtMostAll(r.items, all);
    NobodyStarves(r, es, t, all);
  }

  // ----- a run in which a task is overtaken

  lemma Prepend(k: K, s: Step, steps: seq<Step>, k': K, t: Task)
    requires Enabled(k, s) && !Concerns(k, s, t) && !Chooses(k, s, t) && PassedOver(Do(k, s), steps, k', t)
    ensures PassedOver(k, [s] + steps, k', t)
    ensures forall p :: SwitchesAt(k, [s] + steps, p) ==
              (if ServesFrom(k, s, p) then 1 else 0) + SwitchesAt(Do(k, s), steps, p)
  {
    assert ([s] + steps)[1..] == steps;
  }

  /** A running kernel in which t is ready and no ready task outranks it. */
  ghost predicate Top(k: K, t: Task) {
    Inv(k) && k.suspended == 0 && HighestReady(k, t)
  }

  lemma TopListed(k: K, t: Task)
    requires Top(k, t)
    ensures t in k.tcb && t in Items(k, Ready(k.tcb[t].prio)) && NoDup(Items(k, Ready(k.tcb[t].prio)))
    ensures forall u :: u in Items(k, Ready(k.tcb[t].prio)) ==> u in k.tcb && u in Items(k, Ready(k.tcb[t].prio))
    ensures SomeReady(k) && (exists b :: b in k.top && b < MAX_PRIORITIES) && TopList(k) == Ready(k.tcb[t].prio)
    ensures k.tcb[t].prio < MAX_PRIORITIES
  {
    Listed(k, t);
    SomeBit(k);
    TopMembers(k);
    OnReadyList(k, TopList(k), t);
    assert PriorityOk(k.tcb[t]);
  }

  /** Tasks ahead of t can all be chosen before it. */
  lemma {:induction false} SwitchesAhead(k: K, t: Task, n: nat) returns (steps: seq<Step>, k': K)
    requires Top(k, t) && t in Items(k, Ready(k.tcb[t].prio)) && n <= TasksAhead(k, t)
    ensures PassedOver(k, steps, k', t) && SwitchesAt(k, steps, k.tcb[t].prio) == n
    decreases n
  {
    if n == 0 {
      steps, k' := [], k;
    } else {
      var k1 := SwitchPast(k, t);
      steps, k' := SwitchesAhead(k1, t, n - 1);
      Prepend(k, SwitchContext, steps, k', t);
      steps := [SwitchContext] + steps;
    }
  }

  lemma SwitchPast(k: K, t: Task) returns (k1: K)
    requires Top(k, t) && t in Items(k, Ready(k.tcb[t].prio)) && TasksAhead(k, t) > 0
    ensures Enabled(k, SwitchContext) && k1 == Do(k, SwitchContext) && Top(k1, t) && k1.tcb == k.tcb
    ensures t in Items(k1, Ready(k.tcb[t].prio)) && TasksAhead(k1, t) == TasksAhead(k, t) - 1
    ensures !Chooses(k, SwitchContext, t) && ServesFrom(k, SwitchContext, k.tcb[t].prio)
  {
    hide Links, Epochs, NoneOverdue, Priorities, Bitmap;
    TopListed(k, t);
    k1 := SwitchedOnce(k);
    hide Inv, Switch;
    ServedLessAhead(ReadyList(k, k.tcb[t].prio), t);
    AdvanceRotates(ReadyList(k, k.tcb[t].prio));
  }

  lemma FreshTask(tasks: set<Task>) returns (u: Task)
    ensures forall t :: t in tasks ==> t < u
    decreases |tasks|
  {
    if tasks == {} {
      u := 0;
    } else {
      var t :| t in tasks;
      var v := FreshTask(tasks - {t});
      u := if t < v then v else t + 1;
      assert tasks == tasks - {t} + {t};
    }
  }

  /** With the cursor on t, a task that is created joins ahead of it. */
  lemma CreateBefore(k: K, t: Task, u: Task) returns (k1: K)
    requires Top(k, t) && t in Items(k, Ready(k.tcb[t].prio)) && u !in k.tcb
    requires ReadyList(k, k.tcb[t].prio).cursor == IndexOf(Items(k, Ready(k.tcb[t].prio)), t) + 1
    ensures Enabled(k, Create(u, k.tcb[t].prio)) && k1 == Do(k, Create(u, k.tcb[t].prio)) && Top(k1, t)
    ensures k1.tcb[t] == k.tcb[t] && u != t
    ensures t in Items(k1, Ready(k.tcb[t].prio)) && TasksAhead(k1, t) == TasksAhead(k, t) + 1
  {
    var p := k.tcb[t].prio;
    TopListed(k, t);
    k1 := CreateTaskInv(k, u, p);
    assert Links(k);
    CreateTurns(k, u, p, p);
    JoinsBefore(ReadyList(k, p), u, t);
    hide Inv, CreateTask;
    NewIsNoHigher(k, u, k1, t);
  }

  lemma NewIsNoHigher(k: K, u: Task, k1: K, t: Task)
    requires HighestReady(k, t) && Created(k, u, k1) && IsNew(k1.tcb[u], k.tcb[t].prio)
    ensures HighestReady(k1, t) && k1.tcb[t] == k.tcb[t]
  {
  }

  /** If the cursor is past t, the task under it can leave. */
  lemma SuspendPast(k: K, t: Task) returns (u: Task, k1: K)
    requires Top(k, t) && t in Items(k, Ready(k.tcb[t].prio))
    requires ReadyList(k, k.tcb[t].prio).cursor > IndexOf(Items(k, Ready(k.tcb[t].prio)), t) + 1
    ensures u != t && Enabled(k, Suspend(u)) && k1 == Do(k, Suspend(u)) && Top(k1, t) && k1.tcb[t] == k.tcb[t]
    ensures t in Items(k1, Ready(k.tcb[t].prio)) && TasksAhead(k1, t) == TasksAhead(k, t) && !CursorComing(k1, t)
    ensures ReadyList(k1, k.tcb[t].prio).cursor == ReadyList(k, k.tcb[t].prio).cursor - 1
  {
    hide Links, Epochs, NoneOverdue, Priorities, Bitmap, SuspendTask;
    var p := k.tcb[t].prio;
    TopListed(k, t);
    u := StepsBack(ReadyList(k, p), t);
    k1 := LeavesList(k, u, p);
    FewerReady(k, u, k1, t);
    hide Remove, HighestReady;
  }

  lemma LeavesList(k: K, u: Task, p: nat) returns (k1: K)
    requires Inv(k) && u in Items(k, Ready(p))
    ensures u in k.tcb && Enabled(k, Suspend(u)) && k1 == SuspendTask(k, u) && Inv(k1)
    ensures Changed(k, u, SuspendedTcb(k.tcb[u]), k1) && ReadyList(k1, p) == Remove(ReadyList(k, p), u)
  {
    assert Links(k) && k.tcb[u].Container(KindOf(Ready(p))) == Some(Ready(p));
    k1 := SuspendTaskInv(k, u);
    DeleteTurns(k, u, p);
    MovesAfter(ReadyList(k, p), u, false);
  }

  lemma FewerReady(k: K, u: Task, k1: K, t: Task)
    requires HighestReady(k, t) && u in k.tcb && u != t && Changed(k, u, SuspendedTcb(k.tcb[u]), k1)
    ensures HighestReady(k1, t) && k1.tcb[t] == k.tcb[t]
  {
  }

  /** The tasks between t and the cursor leave, another is created, and then all that are ahead of t are
      chosen: one more than there were. */
  lemma {:induction false} OvertakingRun(k: K, t: Task) returns (steps: seq<Step>, k': K)
    requires Top(k, t) && t in Items(k, Ready(k.tcb[t].prio)) && !CursorComing(k, t)
    ensures PassedOver(k, steps, k', t) && SwitchesAt(k, steps, k.tcb[t].prio) == TasksAhead(k, t) + 1
    decreases ReadyList(k, k.tcb[t].prio).cursor
  {
    hide Epochs;
    if ReadyList(k, k.tcb[t].prio).cursor == IndexOf(Items(k, Ready(k.tcb[t].prio)), t) + 1 {
      var u := FreshTask(k.tcb.Keys);
      var k1 := CreateBefore(k, t, u);
      steps, k' := SwitchesAhead(k1, t, TasksAhead(k1, t));
      Prepend(k, Create(u, k.tcb[t].prio), steps, k', t);
      steps := [Create(u, k.tcb[t].prio)] + steps;
    } else {
      var u, k1 := SuspendPast(k, t);
      steps, k' := OvertakingRun(k1, t);
      Prepend(k, Suspend(u), steps, k', t);
      steps := [Suspend(u)] + steps;
    }
  }

  /** A ready task of the highest priority is passed over at most as often as there are tasks ahead of it, in
      every run, if and only if the cursor of its list is coming to it. Otherwise tasks that are served and
      leave step the cursor back onto it, and whoever joins then is served first. */
  lemma OvertakenIff(k: K, t: Task)
    requires Inv(k) && k.suspended == 0 && HighestReady(k, t)
    ensures t in k.tcb && t in Items(k, Ready(k.tcb[t].prio))
    ensures (forall steps, k' :: PassedOver(k, steps, k', t) ==>
                SwitchesAt(k, steps, k.tcb[t].prio) <= TasksAhead(k, t))
            <==> CursorComing(k, t)
  {
    Listed(k, t);
    if CursorComing(k, t) {
      forall steps, k' | PassedOver(k, steps, k', t)
        ensures SwitchesAt(k, steps, k.tcb[t].prio) <= TasksAhead(k, t)
      {
        TurnComes(k, steps, k', t);
      }
    } else {
      var steps, k' := OvertakingRun(k, t);
    }
  }
}
