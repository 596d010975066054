/**
What every step of the supervisor keeps about who holds the slot, whose request is
recorded, who is counted as waiting, and whose call is whose.
*/
module SupervisorLocks {
  import opened Bytes
  import opened Frames
  import opened Supervisor
  import opened Sums

  /** Where a thread holds the slot's lock. */
  predicate InLock(pc: Pc) {
    !(pc.Idle? || pc.Asking? || pc.Admitted? || pc.Waiting?
      || pc.StartWaiting? || pc.RestartWaiting? || pc.Handing? || pc.Sleeping?)
  }

  /** What a thread under the lock may count on about the slot. */
  predicate Slotted(s: State, pc: Pc) {
    && (pc.Writing? || pc.Reading? ==> pc.p < |s.procs| && s.slot == if pc.job.Request? then Some(pc.p) else None)
    && (pc.Polling? ==> s.slot.Some?)
    && (pc.Halted? ==> s.slot.None? && s.exited)
  }

  /** How often a thread is counted as waiting. */
  function Waits(th: Thread): nat {
    if th.pc.Waiting? || th.pc.Entered? then 1 else 0
  }

  // ----- the lock, the slot and the count of waiters

  /** Past the admission check, counted yet or not. */
  predicate InLine(pc: Pc) {
    pc.Admitted? || pc.Waiting? || pc.Entered?
  }

  predicate Joins(before: Pc, now: Pc) {
    InLine(now) && !InLine(before)
  }

  predicate Control(s: State, t: nat) {
    && t < |s.threads|
    && (InLock(s.threads[t].pc) <==> s.lock == Some(t))
    && (s.slot.Some? ==> s.slot.value < |s.procs|)
    && Slotted(s, s.threads[t].pc)
  }

  /** What a thread's step may do to what the others see. */
  predicate ControlEffect(s: State, r: State, t: nat) {
    && t < |s.threads| == |r.threads| && r.threads == s.threads[t := r.threads[t]]
    && Control(r, t)
    && (r.lock == s.lock || (s.lock.None? && r.lock == Some(t)) || (s.lock == Some(t) && r.lock.None?))
    && |s.procs| <= |r.procs| && (s.exited ==> r.exited)
    && (r.slot == s.slot || InLock(s.threads[t].pc))
    && r.waiting == (s.waiting + Waits(r.threads[t]) - Waits(s.threads[t])) % U32_SIZE
    && (Joins(s.threads[t].pc, r.threads[t].pc) ==> s.threads[t].pc.Asking?)
  }

  lemma BeginControl(cfg: Config, s: State, a: Action, t: nat)
    requires Control(s, t) && Enabled(s, a) && Actor(a) == Some(t)
    requires a.Begin? || a.BeginStart? || a.BeginRestart? || a.SpawnFails?
    ensures ControlEffect(s, Next(cfg, s, a), t)
  {
    hide StepOf, MoveOf, FailOf, CanMove, CanStep, CanFail;
  }

  lemma QueueControl(cfg: Config, s: State, t: nat)
    requires Control(s, t) && CanStep(s, t) && InQueue(s.threads[t].pc)
    ensures ControlEffect(s, QueueStep(cfg, s, t), t)
  {
  }

  lemma BooksControl(s: State, t: nat)
    requires Control(s, t) && CanStep(s, t) && InBooks(s.threads[t].pc)
    ensures ControlEffect(s, BooksStep(s, t), t)
  {
  }

  lemma SlotControl(s: State, t: nat)
    requires Control(s, t) && CanStep(s, t) && InSlot(s.threads[t].pc)
    ensures ControlEffect(s, SlotStep(s, t), t)
  {
  }

  lemma StartControl(s: State, t: nat)
    requires Control(s, t) && CanStep(s, t) && InStart(s.threads[t].pc)
    ensures ControlEffect(s, StartStep(s, t), t)
  {
  }

  lemma RestartControl(s: State, t: nat)
    requires Control(s, t) && CanStep(s, t) && InRestart(s.threads[t].pc)
    ensures ControlEffect(s, RestartStep(s, t), t)
  {
  }

  lemma DropControl(s: State, t: nat)
    requires Control(s, t) && Grounded(s, t) && (s.threads[t].pc.Writing? || s.threads[t].pc.Reading?)
    ensures ControlEffect(s, Drop(s, t, s.threads[t].pc.job, s.threads[t].pc.p), t)
  {
  }

  lemma FinishControl(s: State, t: nat)
    requires Control(s, t) && CanStep(s, t) && s.threads[t].pc.Reading?
    ensures ControlEffect(s, Finish(s, t, s.threads[t].pc.job, s.threads[t].pc.p, s.threads[t].pc.got), t)
  {
    hide Accepts, Want, Drop;
    DropControl(s, t);
  }

  lemma MoveControl(s: State, t: nat, n: nat)
    requires Control(s, t) && CanMove(s, t, n)
    ensures ControlEffect(s, MoveOf(s, t, n), t)
  {
    hide EncodeFrame, Want;
  }

  lemma FailControl(s: State, t: nat)
    requires Control(s, t) && CanFail(s, t)
    ensures ControlEffect(s, FailOf(s, t), t)
  {
    hide Drop;
    if s.threads[t].pc.Writing? || s.threads[t].pc.Reading? {
      DropControl(s, t);
    }
  }

  lemma ControlStep(cfg: Config, s: State, a: Action, t: nat)
    requires Control(s, t) && Enabled(s, a) && Actor(a) == Some(t)
    ensures ControlEffect(s, Next(cfg, s, a), t)
  {
    hide Control, ControlEffect, QueueStep, BooksStep, SlotStep, StartStep, RestartStep, Finish, MoveOf, FailOf,
      CanMove, CanFail, SetPc;
    match a
    case Step(_) =>
      if InQueue(s.threads[t].pc) {
        QueueControl(cfg, s, t);
      } else if InBooks(s.threads[t].pc) {
        BooksControl(s, t);
      } else if InSlot(s.threads[t].pc) {
        SlotControl(s, t);
      } else if s.threads[t].pc.Reading? {
        FinishControl(s, t);
      } else if InStart(s.threads[t].pc) {
        StartControl(s, t);
      } else {
        RestartControl(s, t);
      }
    case Move(_, n) => MoveControl(s, t, n);
    case Fail(_) => FailControl(s, t);
    case _ => BeginControl(cfg, s, a, t);
  }

  /** A process's own step changes nothing but the process. */
  lemma ProcessStep(cfg: Config, s: State, a: Action)
    requires Enabled(s, a) && Actor(a).None?
    ensures var r := Next(cfg, s, a);
      && a.p < |s.procs| == |r.procs| && r == s.(procs := s.procs[a.p := r.procs[a.p]])
      && r.procs[a.p].sent == s.procs[a.p].sent && s.procs[a.p].taken <= r.procs[a.p].taken
  {
    hide Front;
  }

  // ----- whose call is whose, and which is recorded

  /** The steps of a request, with the start of a process it may have to make. */
  predicate CallPc(pc: Pc) {
    || NeedsCall(pc)
    || ((pc.Writing? || pc.Reading?) && pc.job.Probe? && pc.job.why.ForCall?)
    || (pc.Halted? && pc.why.ForCall?)
  }

  /** The frame of the call is on its way to a process, or went. */
  predicate Committed(pc: Pc) {
    pc.Leaving? || pc.Halted? || (pc.Writing? && pc.job.Request? && pc.off > 0) || (pc.Reading? && pc.job.Request?)
  }

  /** A thread's call is its own, has a result only once it is leaving, and no spot before its first byte. */
  predicate OwnCall(s: State, t: nat, th: Thread) {
    && (th.call.Some? <==> CallPc(th.pc))
    && (th.call.Some? ==>
          && th.call.value < |s.calls| && s.calls[th.call.value].owner == t
          && (Committed(th.pc) || s.calls[th.call.value].spot.None?)
          && (th.pc.Leaving? <==> s.calls[th.call.value].result.Some?))
  }

  /** The request a thread has recorded as the current one. */
  function Recorded(s: State, th: Thread): Option<Current> {
    if th.call.Some? && th.call.value < |s.calls| && !th.pc.Entered? && !th.pc.Uncounted?
    then Some(Current(s.calls[th.call.value].id, s.calls[th.call.value].opcode))
    else None
  }

  predicate Calling(s: State, t: nat) {
    && t < |s.threads|
    && OwnCall(s, t, s.threads[t])
    && (InLock(s.threads[t].pc) ==> s.current == Recorded(s, s.threads[t]))
  }

  /** A call keeps its owner and its request. */
  predicate SameCall(c: CallRecord, d: CallRecord) {
    d == c.(spot := d.spot, result := d.result)
  }

  /** A step adds a call of its own, or changes its own, or none. */
  predicate CallsChange(s: State, r: State, t: nat, th: Thread) {
    || (r.calls == s.calls && r.nextId == s.nextId)
    || (|r.calls| == |s.calls| + 1 && r.calls == s.calls + [r.calls[|s.calls|]] && r.calls[|s.calls|].owner == t
        && r.calls[|s.calls|].id == s.nextId && r.nextId == Up(s.nextId))
    || (r.nextId == s.nextId && th.call.Some? && th.call.value < |s.calls| == |r.calls|
        && r.calls == s.calls[th.call.value := r.calls[th.call.value]]
        && SameCall(s.calls[th.call.value], r.calls[th.call.value]))
  }

  predicate CallingEffect(s: State, r: State, t: nat) {
    && t < |s.threads| == |r.threads|
    && Calling(r, t)
    && CallsChange(s, r, t, s.threads[t])
    && (!InLock(r.threads[t].pc) ==> r.current == if InLock(s.threads[t].pc) then None else s.current)
  }

  lemma BeginCalling(cfg: Config, s: State, a: Action, t: nat)
    requires Calling(s, t) && Enabled(s, a) && Actor(a) == Some(t)
    requires a.Begin? || a.BeginStart? || a.BeginRestart? || a.SpawnFails?
    ensures CallingEffect(s, Next(cfg, s, a), t)
  {
    hide StepOf, MoveOf, FailOf, CanMove, CanStep, CanFail;
  }

  lemma QueueCalling(cfg: Config, s: State, t: nat)
    requires Calling(s, t) && CanStep(s, t) && InQueue(s.threads[t].pc)
    requires s.lock.None? ==> s.current.None?
    ensures CallingEffect(s, QueueStep(cfg, s, t), t)
  {
  }

  lemma BooksCalling(s: State, t: nat)
    requires Calling(s, t) && CanStep(s, t) && InBooks(s.threads[t].pc)
    ensures CallingEffect(s, BooksStep(s, t), t)
  {
  }

  lemma SlotCalling(s: State, t: nat)
    requires Calling(s, t) && CanStep(s, t) && InSlot(s.threads[t].pc)
    ensures CallingEffect(s, SlotStep(s, t), t)
  {
  }

  lemma StartCalling(s: State, t: nat)
    requires Calling(s, t) && CanStep(s, t) && InStart(s.threads[t].pc)
    requires s.lock.None? ==> s.current.None?
    ensures CallingEffect(s, StartStep(s, t), t)
  {
  }

  lemma RestartCalling(s: State, t: nat)
    requires Calling(s, t) && CanStep(s, t) && InRestart(s.threads[t].pc)
    requires s.lock.None? ==> s.current.None?
    ensures CallingEffect(s, RestartStep(s, t), t)
  {
  }

  lemma DropCalling(s: State, t: nat)
    requires Calling(s, t) && Grounded(s, t) && (s.threads[t].pc.Writing? || s.threads[t].pc.Reading?)
    ensures CallingEffect(s, Drop(s, t, s.threads[t].pc.job, s.threads[t].pc.p), t)
  {
  }

  lemma FinishCalling(s: State, t: nat)
    requires Calling(s, t) && CanStep(s, t) && s.threads[t].pc.Reading?
    ensures CallingEffect(s, Finish(s, t, s.threads[t].pc.job, s.threads[t].pc.p, s.threads[t].pc.got), t)
  {
    hide Accepts, Want, Drop;
    DropCalling(s, t);
  }

  lemma MoveCalling(s: State, t: nat, n: nat)
    requires Calling(s, t) && CanMove(s, t, n)
    ensures CallingEffect(s, MoveOf(s, t, n), t)
  {
    hide EncodeFrame, Want;
  }

  lemma FailCalling(s: State, t: nat)
    requires Calling(s, t) && CanFail(s, t)
    ensures CallingEffect(s, FailOf(s, t), t)
  {
    hide Drop;
    if s.threads[t].pc.Writing? || s.threads[t].pc.Reading? {
      DropCalling(s, t);
    }
  }

  lemma CallingStep(cfg: Config, s: State, a: Action, t: nat)
    requires Calling(s, t) && Enabled(s, a) && Actor(a) == Some(t)
    requires s.lock.None? ==> s.current.None?
    ensures CallingEffect(s, Next(cfg, s, a), t)
  {
    hide Calling, CallingEffect, QueueStep, BooksStep, SlotStep, StartStep, RestartStep, Finish, MoveOf, FailOf,
      CanMove, CanFail, SetPc;
    match a
    case Step(_) =>
      if InQueue(s.threads[t].pc) {
        QueueCalling(cfg, s, t);
      } else if InBooks(s.threads[t].pc) {
        BooksCalling(s, t);
      } else if InSlot(s.threads[t].pc) {
        SlotCalling(s, t);
      } else if s.threads[t].pc.Reading? {
        FinishCalling(s, t);
      } else if InStart(s.threads[t].pc) {
        StartCalling(s, t);
      } else {
        RestartCalling(s, t);
      }
    case Move(_, n) => MoveCalling(s, t, n);
    case Fail(_) => FailCalling(s, t);
    case _ => BeginCalling(cfg, s, a, t);
  }

  // ----- the invariant

  /** Exactly the thread under the lock is its holder. */
  ghost predicate Locking(s: State) {
    && (s.lock.Some? ==> s.lock.value < |s.threads|)
    && (s.slot.Some? ==> s.slot.value < |s.procs|)
    && forall t | 0 <= t < |s.threads| :: Control(s, t)
  }

  /** Every thread's call is its own; the record is that of the lock's holder. */
  ghost predicate Owned(s: State) {
    && (s.lock.None? ==> s.current.None?)
    && forall t | 0 <= t < |s.threads| :: Calling(s, t)
  }

  /** The count is that of the threads between joining the queue and leaving it. */
  ghost predicate Counted(s: State) {
    s.waiting == Sum(Map(Waits, s.threads)) % U32_SIZE
  }

  lemma ActorThere(s: State, a: Action, t: nat)
    requires Enabled(s, a) && Actor(a) == Some(t)
    ensures t < |s.threads|
  {
    hide Want, Front;
  }

  lemma SameControl(s: State, r: State, u: nat)
    requires Control(s, u) && |r.procs| == |s.procs| && r.exited == s.exited
    requires r.threads == s.threads && r.lock == s.lock && r.slot == s.slot
    ensures Control(r, u)
  {
  }

  lemma OthersControl(s: State, r: State, t: nat, u: nat)
    requires Control(s, t) && Control(s, u) && u != t && ControlEffect(s, r, t)
    ensures Control(r, u)
  {
  }

  lemma ActorControl(s: State, r: State, t: nat)
    requires Locking(s) && ControlEffect(s, r, t)
    ensures |r.threads| == |s.threads| && Control(r, t)
    ensures r.lock.Some? ==> r.lock.value < |r.threads|
    ensures r.slot.Some? ==> r.slot.value < |r.procs|
  {
    hide Slotted;
  }

  lemma LockingKept(cfg: Config, s: State, a: Action)
    requires Locking(s) && Enabled(s, a)
    ensures Locking(Next(cfg, s, a))
  {
    hide Enabled, Next, Control, ControlEffect;
    var r := Next(cfg, s, a);
    if Actor(a).Some? {
      var t := Actor(a).value;
      ActorThere(s, a, t);
      ControlStep(cfg, s, a, t);
      ActorControl(s, r, t);
      forall u: nat | u < |r.threads| ensures Control(r, u) {
        if u != t {
          OthersControl(s, r, t, u);
        }
      }
    } else {
      ProcessStep(cfg, s, a);
      forall u: nat | u < |r.threads| ensures Control(r, u) {
        SameControl(s, r, u);
      }
    }
  }

  lemma OthersCalling(s: State, r: State, t: nat, u: nat)
    requires Control(s, t) && Control(s, u) && u != t && ControlEffect(s, r, t)
    requires Calling(s, t) && Calling(s, u) && CallingEffect(s, r, t)
    ensures Calling(r, u)
  {
    hide Slotted;
    assert r.threads[u] == s.threads[u];
    assert Recorded(r, r.threads[u]) == Recorded(s, r.threads[u]);
  }

  lemma OwnedKept(cfg: Config, s: State, a: Action)
    requires Locking(s) && Owned(s) && Enabled(s, a)
    ensures Owned(Next(cfg, s, a))
  {
    hide Enabled, Next, Control, ControlEffect, Calling, CallingEffect;
    var r := Next(cfg, s, a);
    if Actor(a).Some? {
      var t := Actor(a).value;
      ActorThere(s, a, t);
      ControlStep(cfg, s, a, t);
      CallingStep(cfg, s, a, t);
      FreeUnrecorded(s, r, t);
      forall u: nat | u < |r.threads| ensures Calling(r, u) {
        if u != t {
          OthersCalling(s, r, t, u);
        }
      }
    } else {
      ProcessStep(cfg, s, a);
      forall u: nat | u < |r.threads| ensures Calling(r, u) {
        SameCalling(s, r, u);
      }
    }
  }

  lemma SameCalling(s: State, r: State, u: nat)
    requires Calling(s, u) && r.threads == s.threads && r.calls == s.calls && r.current == s.current
    ensures Calling(r, u)
  {
  }

  lemma FreeUnrecorded(s: State, r: State, t: nat)
    requires Control(s, t) && ControlEffect(s, r, t) && CallingEffect(s, r, t)
    requires s.lock.None? ==> s.current.None?
    ensures r.lock.None? ==> r.current.None?
    ensures |r.threads| == |s.threads| && Calling(r, t)
  {
    hide Slotted, Calling, CallsChange;
  }

  lemma CountedKept(cfg: Config, s: State, a: Action)
    requires Locking(s) && Counted(s) && Enabled(s, a)
    ensures Counted(Next(cfg, s, a))
  {
    hide Enabled, Next, Control, ControlEffect, Sum, Waits;
    var r := Next(cfg, s, a);
    if Actor(a).Some? {
      var t := Actor(a).value;
      ActorThere(s, a, t);
      ControlStep(cfg, s, a, t);
      CountMoves(s, r, t);
    } else {
      ProcessStep(cfg, s, a);
    }
  }

  lemma CountMoves(s: State, r: State, t: nat)
    requires ControlEffect(s, r, t) && Counted(s)
    ensures Counted(r)
  {
    hide Control, Sum, Waits;
    MapUpdate(Waits, s.threads, t, r.threads[t]);
  }

  /** Calls are numbered from one, in the order they began, by a counter of 32 bits. */
  ghost predicate Numbered(s: State) {
    && s.nextId == (1 + |s.calls|) % U32_SIZE
    && forall k | 0 <= k < |s.calls| :: s.calls[k].id == (1 + k) % U32_SIZE
  }

  lemma NumberMoves(s: State, r: State, t: nat)
    requires CallingEffect(s, r, t) && Numbered(s)
    ensures Numbered(r)
  {
    hide Calling;
  }

  lemma NumberedKept(cfg: Config, s: State, a: Action)
    requires Owned(s) && Numbered(s) && Enabled(s, a)
    ensures Numbered(Next(cfg, s, a))
  {
    hide Enabled, Next, Calling, CallingEffect;
    if Actor(a).Some? {
      var t := Actor(a).value;
      ActorThere(s, a, t);
      CallingStep(cfg, s, a, t);
      NumberMoves(s, Next(cfg, s, a), t);
    } else {
      ProcessStep(cfg, s, a);
    }
  }
}
