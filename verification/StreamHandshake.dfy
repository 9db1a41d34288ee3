/** How the writer and the reader of a stream buffer wait for each other (`stream_buffer.cpp` over the task
    notifications of `tasks.cpp`). The bytes themselves are the subject of `StreamProtocol`; here only
    their number counts. The notification index is used for nothing else. */
module StreamHandshake {
  import opened Basics

  datatype Notify = NotWaiting | Waiting | Received

  /** `len` is the length of the data of the call; `space` the space seen last. */
  datatype Sender =
    | SOut
    | SLooping(len: nat)
    | SArmed(len: nat, space: nat)
    | SWaiting(len: nat, space: nat)
    | SReturning(len: nat, space: nat)
    | SDisarming(len: nat, space: nat)
    | SWriting(len: nat, space: nat)
    | SPublished
    | SCompleting

  datatype Receiver =
    | ROut
    | RArmed
    | RWaiting
    | RReturning
    | RDisarming
    | RRecounting
    | RCounted(available: nat)
    | RPublished

  /** `header` is 0 for a stream and the size of a length for a message buffer; `cap` is `xLength - 1`. */
  datatype S = S(
    cap: nat, trigger: nat, header: nat, n: nat,
    toSend: bool, toReceive: bool, notifyS: Notify, notifyR: Notify,
    sender: Sender, receiver: Receiver)

  /** `xRequiredSpace`. */
  function Required(s: S, len: nat): nat {
    if s.header > 0 then len + s.header else Min(len, s.cap)
  }

  /** What `WriteMessageToBuffer` puts into the buffer. */
  function Amount(s: S, len: nat, space: nat): nat {
    if s.header > 0 then (if len > 0 && len + s.header <= space then len + s.header else 0) else Min(len, space)
  }

  datatype Step =
    | CallSend(len: nat, waits: bool)
    | CheckSpace
    | SendWait
    | SendWake(timeout: bool)
    | SendReturn
    | SendDisarm(expired: bool)
    | Write
    | CheckTrigger
    | SendCompleted
    | CallReceive(waits: bool)
    | ReceiveWait
    | ReceiveWake(timeout: bool)
    | ReceiveReturn
    | ReceiveDisarm
    | Recount
    | Read(k: nat)
    | ReceiveCompleted

  predicate Enabled(s: S, step: Step) {
    match step
    case CallSend(len, waits) => s.sender.SOut? && s.n <= s.cap && (waits ==> Required(s, len) <= s.cap)
    case CheckSpace => s.sender.SLooping? && s.n <= s.cap
    case SendWait => s.sender.SArmed?
    case SendWake(timeout) => s.sender.SWaiting? && (timeout || s.notifyS.Received?)
    case SendReturn => s.sender.SReturning?
    case SendDisarm(_) => s.sender.SDisarming? && s.n <= s.cap
    case Write => s.sender.SWriting?
    case CheckTrigger => s.sender.SPublished?
    case SendCompleted => s.sender.SCompleting?
    case CallReceive(_) => s.receiver.ROut?
    case ReceiveWait => s.receiver.RArmed?
    case ReceiveWake(timeout) => s.receiver.RWaiting? && (timeout || s.notifyR.Received?)
    case ReceiveReturn => s.receiver.RReturning?
    case ReceiveDisarm => s.receiver.RDisarming?
    case Recount => s.receiver.RRecounting?
    case Read(k) =>
      s.receiver.RCounted? && k <= s.n && k <= s.receiver.available
      && (s.receiver.available <= s.header ==> k == 0)
      // a message buffer holds whole messages, none of them empty (`StreamFrames.MoreThanAHeader`)
      && (s.header > 0 ==> s.n - k == 0 || s.n - k > s.header)
    case ReceiveCompleted => s.receiver.RPublished?
  }

  /** `TaskNotifyStateClear`. */
  function Cleared(notify: Notify): Notify {
    if notify.Received? then NotWaiting else notify
  }

  /** The first critical section of `GenericNotifyWait`: blocks unless already notified. */
  function Asleep(notify: Notify): Notify {
    if notify.Received? then notify else Waiting
  }

  function Do(s: S, step: Step): S
    requires Enabled(s, step)
  {
    match step
    case CallSend(len, waits) => s.(sender := if waits then SLooping(len) else SWriting(len, s.cap - s.n))
    case CheckSpace =>
      var len, space := s.sender.len, s.cap - s.n;
      if space < Required(s, len) then s.(notifyS := Cleared(s.notifyS), toSend := true, sender := SArmed(len, space))
      else s.(sender := SWriting(len, space))
    case SendWait =>
      s.(notifyS := Asleep(s.notifyS),
         sender := if s.notifyS.Received? then SReturning(s.sender.len, s.sender.space)
             else SWaiting(s.sender.len, s.sender.space))
    case SendWake(_) => s.(sender := SReturning(s.sender.len, s.sender.space))
    case SendReturn => s.(notifyS := NotWaiting, sender := SDisarming(s.sender.len, s.sender.space))
    case SendDisarm(expired) =>
      var len, space := s.sender.len, s.sender.space;
      s.(toSend := false,
         sender := if !expired then SLooping(len) else SWriting(len, if space == 0 then s.cap - s.n else space))
    case Write =>
      var k := Amount(s, s.sender.len, s.sender.space);
      if k == 0 then s.(sender := SOut) else s.(n := s.n + k, sender := SPublished)
    case CheckTrigger => s.(sender := if s.n >= s.trigger then SCompleting else SOut)
    case SendCompleted =>
      if s.toReceive then s.(notifyR := Received, toReceive := false, sender := SOut) else s.(sender := SOut)
    case CallReceive(waits) =>
      if waits && s.n <= s.header then s.(notifyR := Cleared(s.notifyR), toReceive := true, receiver := RArmed)
      else s.(receiver := RCounted(s.n))
    case ReceiveWait =>
      s.(notifyR := Asleep(s.notifyR), receiver := if s.notifyR.Received? then RReturning else RWaiting)
    case ReceiveWake(_) => s.(receiver := RReturning)
    case ReceiveReturn => s.(notifyR := NotWaiting, receiver := RDisarming)
    case ReceiveDisarm => s.(toReceive := false, receiver := RRecounting)
    case Recount => s.(receiver := RCounted(s.n))
    case Read(k) => if k == 0 then s.(receiver := ROut) else s.(n := s.n - k, receiver := RPublished)
    case ReceiveCompleted =>
      if s.toSend then s.(notifyS := Received, toSend := false, receiver := ROut) else s.(receiver := ROut)
  }

  /** Blocked in the notify wait and not woken. */
  predicate SenderBlocked(s: S) {
    s.sender.SWaiting? && s.notifyS.Waiting?
  }

  predicate ReceiverBlocked(s: S) {
    s.receiver.RWaiting? && s.notifyR.Waiting?
  }

  // ----- the invariant

  /** There is too little room, or a reader that has just made some has yet to say so. */
  predicate SenderJustified(s: S, len: nat) {
    s.n + Required(s, len) > s.cap || s.receiver.RPublished?
  }

  predicate ReceiverJustified(s: S) {
    s.n < s.trigger || s.sender.SPublished? || s.sender.SCompleting?
  }

  /** A task that is about to wait, or waits, is registered and waits for good reason; or it has been
      notified. */
  predicate SenderOk(s: S) {
    match s.sender
    case SArmed(len, space) =>
      && s.n + space <= s.cap && !s.notifyS.Waiting?
      && (if s.toSend then !s.notifyS.Received? && SenderJustified(s, len) else s.notifyS.Received?)
    case SWaiting(len, space) =>
      && s.n + space <= s.cap && !s.notifyS.NotWaiting?
      && (if s.toSend then !s.notifyS.Received? && SenderJustified(s, len) else s.notifyS.Received?)
    case SReturning(_, space) => s.n + space <= s.cap
    case SDisarming(_, space) => s.n + space <= s.cap && !s.notifyS.Waiting?
    case SWriting(_, space) => s.n + space <= s.cap && !s.notifyS.Waiting? && !s.toSend
    case _ => !s.notifyS.Waiting? && !s.toSend
  }

  predicate ReceiverOk(s: S) {
    match s.receiver
    case RArmed =>
      && !s.notifyR.Waiting?
      && (if s.toReceive then !s.notifyR.Received? && ReceiverJustified(s) else s.notifyR.Received?)
    case RWaiting =>
      && !s.notifyR.NotWaiting?
      && (if s.toReceive then !s.notifyR.Received? && ReceiverJustified(s) else s.notifyR.Received?)
    case RReturning => true
    case RDisarming => !s.notifyR.Waiting?
    case RCounted(available) => available <= s.n && !s.notifyR.Waiting? && !s.toReceive
    case _ => !s.notifyR.Waiting? && !s.toReceive
  }

  predicate Inv(s: S) {
    && s.n <= s.cap && s.trigger > 0 && (s.header > 0 ==> s.n == 0 || s.n > s.header)
    && SenderOk(s) && ReceiverOk(s)
  }

  lemma SenderStepInv(s: S, step: Step)
    requires Inv(s) && Enabled(s, step)
    requires step.CallSend? || step.CheckSpace? || step.SendWait? || step.SendWake? || step.SendReturn?
             || step.SendDisarm? || step.Write? || step.CheckTrigger? || step.SendCompleted?
    ensures Inv(Do(s, step))
  {
  }

  lemma ReceiverStepInv(s: S, step: Step)
    requires Inv(s) && Enabled(s, step)
    requires step.CallReceive? || step.ReceiveWait? || step.ReceiveWake? || step.ReceiveReturn?
             || step.ReceiveDisarm? || step.Recount? || step.Read? || step.ReceiveCompleted?
    ensures Inv(Do(s, step))
  {
  }

  // ----- runs

  ghost predicate Run(s: S, steps: seq<Step>, s': S)
    decreases |steps|
  {
    if steps == [] then s' == s else Enabled(s, steps[0]) && Run(Do(s, steps[0]), steps[1..], s')
  }

  function Start(cap: nat, trigger: nat, header: nat): S {
    S(cap, trigger, header, 0, false, false, NotWaiting, NotWaiting, SOut, ROut)
  }

  predicate SameBuffer(s: S, s': S) {
    s'.cap == s.cap && s'.trigger == s.trigger && s'.header == s.header
  }

  lemma {:induction false} RunInv(s: S, steps: seq<Step>, s': S)
    requires Inv(s) && Run(s, steps, s')
    ensures Inv(s') && SameBuffer(s, s')
    decreases |steps|
  {
    if steps != [] {
      var step := steps[0];
      if step.CallReceive? || step.ReceiveWait? || step.ReceiveWake? || step.ReceiveReturn?
         || step.ReceiveDisarm? || step.Recount? || step.Read? || step.ReceiveCompleted? {
        ReceiverStepInv(s, step);
      } else {
        SenderStepInv(s, step);
      }
      RunInv(Do(s, step), steps[1..], s');
    }
  }

  /** No wake-up is lost in any run. A blocked sender has too little room, or the receiver is between
      storing the tail and its completion step; a blocked receiver has fewer bytes than the trigger
      level, or the sender is between storing the head and its completion step. */
  lemma NoLostWakeup(cap: nat, trigger: nat, header: nat, steps: seq<Step>, s: S)
    requires trigger > 0 && Run(Start(cap, trigger, header), steps, s)
    ensures SenderBlocked(s) ==> s.toSend && (s.cap - s.n < Required(s, s.sender.len) || s.receiver.RPublished?)
    ensures ReceiverBlocked(s) ==> s.toReceive && (s.n < s.trigger || s.sender.SPublished? || s.sender.SCompleting?)
  {
    RunInv(Start(cap, trigger, header), steps, s);
  }

  // ----- who waits, and who looks again

  /** A reader that may wait does so exactly if there is not even one message, or one byte; a writer exactly
      if there is less room than its data needs. Otherwise each goes on with what it has seen. */
  lemma WaitsIff(s: S, waits: bool)
    ensures Enabled(s, CallReceive(waits)) ==>
              Do(s, CallReceive(waits)).receiver == if waits && s.n <= s.header then RArmed else RCounted(s.n)
    ensures Enabled(s, CheckSpace) ==>
              var len, s' := s.sender.len, Do(s, CheckSpace);
              if s.cap < s.n + Required(s, len) then s'.sender.SArmed? && s'.toSend
              else s'.sender == SWriting(len, s.cap - s.n)
  {
  }

  /** On an empty buffer nobody waits to write: a stream takes as much as it holds, a message that it can hold
      at all fits. */
  lemma EmptyTakesAll(s: S)
    requires Enabled(s, CheckSpace) && s.n == 0 && (s.header > 0 ==> s.sender.len + s.header <= s.cap)
    ensures var s' := Do(s, CheckSpace);
            && s'.sender == SWriting(s.sender.len, s.cap)
            && Amount(s', s.sender.len, s.cap) ==
               if s.header == 0 then Min(s.sender.len, s.cap)
                   else if s.sender.len == 0 then 0 else s.sender.len + s.header
  {
  }

  /** A writer whose time is up and that has seen no room looks once more; one that has seen some goes by that,
      and there still is as much. A reader that has been woken, or whose time is up, counts again. */
  lemma LooksAgain(s: S)
    requires Inv(s)
    ensures Enabled(s, SendDisarm(true)) ==>
              var s' := Do(s, SendDisarm(true));
              && s'.sender.SWriting? && s'.sender.len == s.sender.len && s'.sender.space <= s'.cap - s'.n
              && (s'.sender.space == 0 ==> s'.n == s'.cap)
    ensures Enabled(s, SendDisarm(false)) ==> Do(s, SendDisarm(false)).sender == SLooping(s.sender.len)
    ensures Enabled(s, SendReturn) ==> Do(s, SendReturn).notifyS.NotWaiting?
    ensures Enabled(s, ReceiveReturn) ==> Do(s, ReceiveReturn).notifyR.NotWaiting?
    ensures Enabled(s, ReceiveDisarm) ==> Do(s, ReceiveDisarm).receiver.RRecounting?
    ensures Enabled(s, Recount) ==> Do(s, Recount).receiver == RCounted(s.n)
  {
  }

  /** A write puts in whole messages or as many bytes as there was room for, and a reader is told of it
      exactly if the trigger level is reached; a read always tells the writer. */
  lemma TellsIff(s: S)
    requires Inv(s)
    ensures Enabled(s, Write) ==>
              var s', len, space := Do(s, Write), s.sender.len, s.sender.space;
              && s'.n == s.n + (if s.header > 0 && len + s.header > space then 0
                                else if len == 0 then 0 else Min(s.header + len, space))
              && (s'.sender.SPublished? <==> s'.n > s.n)
    ensures Enabled(s, CheckTrigger) ==> (Do(s, CheckTrigger).sender.SCompleting? <==> s.trigger <= s.n)
    ensures Enabled(s, SendCompleted) && s.toReceive ==> Do(s, SendCompleted).notifyR.Received?
    ensures Enabled(s, ReceiveCompleted) && s.toSend ==> Do(s, ReceiveCompleted).notifyS.Received?
  {
  }

  // ----- can both be blocked?

  predicate BothBlocked(s: S, required: nat) {
    SenderBlocked(s) && ReceiverBlocked(s) && Required(s, s.sender.len) == required
  }

  ghost predicate Deadlocks(cap: nat, trigger: nat, required: nat, steps: seq<Step>, s: S) {
    Run(Start(cap, trigger, 0), steps, s) && BothBlocked(s, required)
  }

  lemma RunOne(s: S, step: Step, steps: seq<Step>, s': S)
    requires Enabled(s, step) && Run(Do(s, step), steps, s')
    ensures Run(s, [step] + steps, s')
  {
    assert ([step] + steps)[1..] == steps;
  }

  /** A writer that wants more room than is left may end up waiting for it. */
  lemma WriterWaits(s: S, required: nat) returns (steps: seq<Step>, s': S)
    requires s.sender.SOut? && s.header == 0 && s.cap - s.n < required <= s.cap && s.n <= s.cap
    ensures Run(s, steps, s') && SenderBlocked(s') && s'.sender.len == required
    ensures s'.cap == s.cap && s'.header == 0 && s'.receiver == s.receiver && s'.notifyR == s.notifyR
  {
    var s1 := Do(s, CallSend(required, true));
    var s2 := Do(s1, CheckSpace);
    s' := Do(s2, SendWait);
    assert Run(s', [], s');
    hide Run;
    RunOne(s2, SendWait, [], s');
    RunOne(s1, CheckSpace, [SendWait], s');
    steps := [CallSend(required, true)] + [CheckSpace, SendWait];
    RunOne(s, CallSend(required, true), [CheckSpace, SendWait], s');
  }

  /** The reader waits at an empty buffer; the writer adds fewer bytes than the trigger level, and then
      wants room for more than is left. */
  lemma Deadlock(cap: nat, trigger: nat, required: nat) returns (steps: seq<Step>, s: S)
    requires 0 < trigger && 0 < required <= cap && cap + 1 < trigger + required
    ensures Deadlocks(cap, trigger, required, steps, s)
  {
    var k := cap + 1 - required;
    var s0 := Start(cap, trigger, 0);
    var s1 := Do(s0, CallReceive(true));
    var s2 := Do(s1, ReceiveWait);
    var s3 := Do(s2, CallSend(k, false));
    var s4 := Do(s3, Write);
    var s5 := Do(s4, CheckTrigger);
    steps, s := WriterWaits(s5, required);
    hide Run;
    RunOne(s4, CheckTrigger, steps, s);
    steps := [CheckTrigger] + steps;
    RunOne(s3, Write, steps, s);
    steps := [Write] + steps;
    RunOne(s2, CallSend(k, false), steps, s);
    steps := [CallSend(k, false)] + steps;
    RunOne(s1, ReceiveWait, steps, s);
    steps := [ReceiveWait] + steps;
    RunOne(s0, CallReceive(true), steps, s);
    steps := [CallReceive(true)] + steps;
  }

  /** On a stream of length cap + 1 the two can be blocked on each other exactly if the trigger level and
      the room asked for together exceed that length. */
  lemma DeadlockIff(cap: nat, trigger: nat, required: nat)
    requires 0 < trigger && 0 < required <= cap
    ensures (exists steps, s :: Deadlocks(cap, trigger, required, steps, s)) <==> cap + 1 < trigger + required
  {
    if cap + 1 < trigger + required {
      var steps, s := Deadlock(cap, trigger, required);
    } else {
      forall steps, s | Deadlocks(cap, trigger, required, steps, s) ensures false {
        RunInv(Start(cap, trigger, 0), steps, s);
      }
    }
  }
}
