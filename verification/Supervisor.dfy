/**
The supervisor: any number of threads share one worker process over a pair of
pipes, with no multiplexing. One step of a thread is what no other thread can see
the middle of; bytes move in any portions; a call can give up at any point after
it queued; a process can die at any moment.
*/
module Supervisor {
  import opened Bytes
  import opened Frames
  import opened WorkerLoop

  // ----- a worker process and its two pipes

  /** Whose request a frame is. */
  datatype Tag = ProbeTag | CallTag(k: nat)

  datatype Sent = Sent(tag: Tag, frame: Frame)

  /**
  `inbuf` was written to the process and not taken yet, `outq` is the part of its
  latest answer it has not put out yet, `outbuf` was put out and not read yet.
  `sent` are the requests of which a first byte was written, `taken` the frames it took.
  */
  datatype Proc = Proc(
    alive: bool, inbuf: seq<byte>, outq: seq<byte>, outbuf: seq<byte>, sent: seq<Sent>, taken: seq<Frame>)

  const NEW_PROC := Proc(true, [], [], [], [], [])

  /** The frame at the front of the input, once all of it is there and within the cap. */
  function Front(b: seq<byte>): Option<Frame> {
    if |b| >= HEADER && GoodHeader(b[..HEADER]) then
      var len := ReadU32(b, 16);
      if len <= MAX_PAYLOAD && HEADER + len <= |b|
      then Some(Decode(b[..HEADER], b[HEADER..HEADER + len]))
      else None
    else None
  }

  function Serve(h: Handler, q: Proc): Proc
    requires Front(q.inbuf).Some?
  {
    var f := Front(q.inbuf).value;
    var taken := q.taken + [f];
    q.(
      taken := taken,
      inbuf := q.inbuf[HEADER + |f.payload|..],
      outq := if Answered(f) then EncodeFrame(Respond(f, h(taken))) else [])
  }

  // ----- what a thread is doing

  /** Why a process is being started. `recheck`: the slot was empty, so the new process is polled too. */
  datatype Why = ForCall(recheck: bool) | ForStart | ForRestart

  datatype Job = Request | Probe(why: Why)

  datatype Pc =
    | Idle
    // a request, in the order of its steps
    | Asking
    | Admitted
    | Waiting
    | Entered
    | Uncounted
    | Looking
    | Polling
    | Leaving
    | Unlocking
    // a frame exchange, for a request or for the readiness probe
    | Writing(job: Job, p: nat, off: nat)
    | Reading(job: Job, p: nat, got: seq<byte>)
    | Halted(why: Why)
    // starting the worker ahead of any request
    | StartWaiting
    | Starting
    // a restart on the worker's own demand
    | RestartWaiting(again: bool)
    | Taking
    | Handing(held: Option<nat>)
    | Sleeping
    | Restarting

  /** A thread, with the serial number of the call it is in. */
  datatype Thread = Thread(call: Option<nat>, pc: Pc)

  const IDLE := Thread(None, Idle)

  datatype Result = Done(frame: Frame) | Failed

  /** A call, from its first step to its result; `spot` is where its frame went. */
  datatype CallRecord = CallRecord(
    owner: nat, id: u32, opcode: u16, payload: seq<byte>, spot: Option<(nat, nat)>, result: Option<Result>)

  datatype Current = Current(id: u32, opcode: u16)

  /** `cleanup` counts the times a process was handed to be killed, `reaped` the times its exit was seen. */
  datatype State = State(
    exited: bool,
    nextId: u32,
    waiting: u32,
    lock: Option<nat>,
    slot: Option<nat>,
    current: Option<Current>,
    threads: seq<Thread>,
    procs: seq<Proc>,
    calls: seq<CallRecord>,
    cleanup: multiset<nat>,
    reaped: multiset<nat>)

  /** What the processes compute, each from the frames it has taken, and the admission limit. */
  datatype Config = Config(maxWaiters: nat, handlers: nat -> Handler)

  /** No answer outgrows the length field. */
  ghost predicate Conforming(cfg: Config) {
    forall p: nat, fs :: |cfg.handlers(p)(fs).body| < U32_SIZE
  }

  datatype Action =
    | Begin(t: nat, opcode: u16, payload: seq<byte>)
    | BeginStart(t: nat)
    | BeginRestart(t: nat)
    | Step(t: nat)
    | Move(t: nat, n: nat)
    | Fail(t: nat)
    | SpawnFails(t: nat)
    | Dispatch(p: nat)
    | Emit(p: nat, n: nat)
    | Kill(p: nat)

  // ----- pieces of steps

  function RequestOf(c: CallRecord): Frame {
    Frame(KIND_REQUEST, c.id, c.opcode, 0, c.payload)
  }

  const PROBE_FRAME := Frame(KIND_REQUEST, 0, OP_HEALTH, 0, [])

  /** The call a thread is in exists. */
  predicate InCall(s: State, t: nat) {
    t < |s.threads| && s.threads[t].call.Some? && s.threads[t].call.value < |s.calls|
  }

  /** The request of an exchange. */
  function SentOf(s: State, t: nat, job: Job): Sent
    requires job.Request? ==> InCall(s, t)
  {
    if job.Request?
    then Sent(CallTag(s.threads[t].call.value), RequestOf(s.calls[s.threads[t].call.value]))
    else Sent(ProbeTag, PROBE_FRAME)
  }

  function FrameOf(s: State, t: nat, job: Job): Frame
    requires job.Request? ==> InCall(s, t)
  {
    SentOf(s, t, job).frame
  }

  function SetPc(s: State, t: nat, pc: Pc): State
    requires t < |s.threads|
  {
    s.(threads := s.threads[t := s.threads[t].(pc := pc)])
  }

  /** The thread is done with its call. */
  function Return(s: State, t: nat, pc: Pc): State
    requires t < |s.threads|
  {
    s.(threads := s.threads[t := Thread(None, pc)])
  }

  function SetResult(s: State, t: nat, r: Result): State
    requires InCall(s, t)
  {
    var k := s.threads[t].call.value;
    s.(calls := s.calls[k := s.calls[k].(result := Some(r))])
  }

  function SetProc(s: State, p: nat, q: Proc): State
    requires p < |s.procs|
  {
    s.(procs := s.procs[p := q])
  }

  function Up(n: u32): u32 { (n + 1) % U32_SIZE }

  function Down(n: u32): u32 { (n + U32_SIZE - 1) % U32_SIZE }

  /** How many more bytes the reader asks for: up to the header's end, then up to the payload's. */
  function Want(got: seq<byte>): nat {
    if |got| < HEADER then HEADER - |got|
    else if GoodHeader(got[..HEADER]) && HEADER + ReadU32(got, 16) > |got| then HEADER + ReadU32(got, 16) - |got|
    else 0
  }

  function Spawn(s: State, t: nat, why: Why): State
    requires t < |s.threads|
  {
    SetPc(s, t, Writing(Probe(why), |s.procs|, 0)).(procs := s.procs + [NEW_PROC])
  }

  /** A process seen to have exited makes way; its handle is let go of under the lock. */
  function Reap(s: State): State
    requires s.slot.Some?
  {
    s.(slot := None, reaped := s.reaped + multiset{s.slot.value})
  }

  /** `abandon_locked_worker` */
  function Abandon(s: State, t: nat, p: nat): State
    requires InCall(s, t)
  {
    SetPc(SetResult(s, t, Failed), t, Leaving).(slot := None, cleanup := s.cleanup + multiset{p})
  }

  function Halt(s: State, t: nat, why: Why, p: nat): State
    requires t < |s.threads|
  {
    SetPc(s, t, Halted(why)).(exited := true, cleanup := s.cleanup + multiset{p})
  }

  /** A failed exchange costs the process, and a failed probe the supervisor. */
  function Drop(s: State, t: nat, job: Job, p: nat): State
    requires t < |s.threads| && (job.Request? ==> InCall(s, t))
  {
    if job.Request? then Abandon(s, t, p) else Halt(s, t, job.why, p)
  }

  /** The response check of `request` and of `probe_ready`; only the former looks at the id. */
  predicate Accepts(req: Frame, job: Job, got: seq<byte>) {
    && |got| >= HEADER && GoodHeader(got[..HEADER])
    && var f := Decode(got[..HEADER], got[HEADER..]);
    && f.kind == KIND_RESPONSE && f.opcode == req.opcode
    && (job.Request? ==> f.id == req.id)
  }

  /** After the probe's answer. */
  function Ready(s: State, t: nat, why: Why, p: nat): State
    requires t < |s.threads|
  {
    var next := if !why.ForCall? then Unlocking else if why.recheck then Polling else Writing(Request, p, 0);
    SetPc(s, t, next).(slot := Some(p))
  }

  function Finish(s: State, t: nat, job: Job, p: nat, got: seq<byte>): State
    requires t < |s.threads| && (job.Request? ==> InCall(s, t))
  {
    if !Accepts(FrameOf(s, t, job), job, got) then Drop(s, t, job, p)
    else if job.Request? then SetPc(SetResult(s, t, Done(Decode(got[..HEADER], got[HEADER..]))), t, Leaving)
    else Ready(s, t, job.why, p)
  }

  // ----- the steps

  /** The steps of a request proper, between which a thread is in its call. */
  predicate NeedsCall(pc: Pc) {
    pc.Asking? || pc.Admitted? || pc.Waiting? || pc.Entered? || pc.Uncounted? || pc.Looking? || pc.Polling?
    || pc.Leaving? || ((pc.Writing? || pc.Reading?) && pc.job.Request?)
  }

  /** The indices a thread and the slot mention exist. */
  predicate Grounded(s: State, t: nat) {
    && t < |s.threads|
    && (NeedsCall(s.threads[t].pc) ==> InCall(s, t))
    && (s.slot.Some? ==> s.slot.value < |s.procs|)
    && (s.threads[t].pc.Writing? || s.threads[t].pc.Reading? ==> s.threads[t].pc.p < |s.procs|)
  }

  predicate CanStep(s: State, t: nat) {
    Grounded(s, t) &&
    match s.threads[t].pc
    case Idle => false
    case Waiting => s.lock.None?
    case StartWaiting => s.lock.None?
    case RestartWaiting(_) => s.lock.None?
    case Polling => s.slot.Some?
    case Writing(_, _, _) => false
    case Reading(_, _, got) => Want(got) == 0
    case Halted(_) => false
    case _ => true
  }

  predicate InQueue(pc: Pc) {
    pc.Asking? || pc.Admitted? || pc.Waiting?
  }

  predicate InBooks(pc: Pc) {
    pc.Entered? || pc.Uncounted? || pc.Leaving? || pc.Unlocking?
  }

  predicate InSlot(pc: Pc) {
    pc.Looking? || pc.Polling?
  }

  predicate InStart(pc: Pc) {
    pc.StartWaiting? || pc.Starting?
  }

  function StepOf(cfg: Config, s: State, t: nat): State
    requires CanStep(s, t)
  {
    if InQueue(s.threads[t].pc) then QueueStep(cfg, s, t)
    else if InBooks(s.threads[t].pc) then BooksStep(s, t)
    else if InSlot(s.threads[t].pc) then SlotStep(s, t)
    else if s.threads[t].pc.Reading? then Finish(s, t, s.threads[t].pc.job, s.threads[t].pc.p, s.threads[t].pc.got)
    else if InStart(s.threads[t].pc) then StartStep(s, t)
    else RestartStep(s, t)
  }

  /** `request` up to the lock. */
  function QueueStep(cfg: Config, s: State, t: nat): State
    requires CanStep(s, t) && InQueue(s.threads[t].pc)
  {
    match s.threads[t].pc
    case Asking =>
      if s.waiting >= cfg.maxWaiters then Return(SetResult(s, t, Failed), t, Idle) else SetPc(s, t, Admitted)
    case Admitted => SetPc(s, t, Waiting).(waiting := Up(s.waiting))
    case Waiting => SetPc(s, t, Entered).(lock := Some(t))
  }

  /** What `request` records and drops under the lock. */
  function BooksStep(s: State, t: nat): State
    requires CanStep(s, t) && InBooks(s.threads[t].pc)
  {
    match s.threads[t].pc
    case Entered => SetPc(s, t, Uncounted).(waiting := Down(s.waiting))
    case Uncounted =>
      var c := s.calls[s.threads[t].call.value];
      SetPc(s, t, Looking).(current := Some(Current(c.id, c.opcode)))
    case Leaving =>
      var c := s.calls[s.threads[t].call.value];
      Return(s, t, Unlocking).(current := if s.current.Some? && s.current.value.id == c.id then None else s.current)
    case Unlocking => SetPc(s, t, Idle).(lock := None)
  }

  /** How `request` comes by a process. */
  function SlotStep(s: State, t: nat): State
    requires CanStep(s, t) && InSlot(s.threads[t].pc)
  {
    match s.threads[t].pc
    case Looking => if s.slot.None? then Spawn(s, t, ForCall(true)) else SetPc(s, t, Polling)
    case Polling =>
      if s.procs[s.slot.value].alive
      then SetPc(s, t, Writing(Request, s.slot.value, 0))
      else Spawn(Reap(s), t, ForCall(false))
  }

  /** `ensure_started` */
  function StartStep(s: State, t: nat): State
    requires CanStep(s, t) && InStart(s.threads[t].pc)
  {
    match s.threads[t].pc
    case StartWaiting => SetPc(s, t, Starting).(lock := Some(t))
    case Starting =>
      if s.slot.None? then Spawn(s, t, ForStart)
      else if s.procs[s.slot.value].alive then SetPc(s, t, Unlocking)
      else Spawn(Reap(s), t, ForStart)
  }

  predicate InRestart(pc: Pc) {
    pc.RestartWaiting? || pc.Taking? || pc.Handing? || pc.Sleeping? || pc.Restarting?
  }

  /** `restart_after_delay` */
  function RestartStep(s: State, t: nat): State
    requires CanStep(s, t) && InRestart(s.threads[t].pc)
  {
    match s.threads[t].pc
    case RestartWaiting(again) => SetPc(s, t, if again then Restarting else Taking).(lock := Some(t))
    case Taking => SetPc(s, t, Handing(s.slot)).(lock := None, slot := None)
    case Handing(held) =>
      SetPc(s, t, Sleeping).(cleanup := if held.Some? then s.cleanup + multiset{held.value} else s.cleanup)
    case Sleeping => SetPc(s, t, RestartWaiting(true))
    case Restarting => if s.slot.None? then Spawn(s, t, ForRestart) else SetPc(s, t, Unlocking)
  }

  predicate CanMove(s: State, t: nat, n: nat) {
    Grounded(s, t) && n > 0 &&
    match s.threads[t].pc
    case Writing(job, p, off) => Sized(FrameOf(s, t, job)) && off + n <= |EncodeFrame(FrameOf(s, t, job))|
    case Reading(job, p, got) => n <= Want(got) && n <= |s.procs[p].outbuf|
    case _ => false
  }

  /** The first byte of a request commits it to its process. */
  function Commit(s: State, t: nat, job: Job, p: nat): State
    requires (job.Request? ==> InCall(s, t)) && p < |s.procs|
  {
    var q := s.procs[p];
    var m := SetProc(s, p, q.(sent := q.sent + [SentOf(s, t, job)]));
    if job.Request? then
      var k := s.threads[t].call.value;
      m.(calls := s.calls[k := s.calls[k].(spot := Some((p, |q.sent|)))])
    else m
  }

  function MoveOf(s: State, t: nat, n: nat): State
    requires CanMove(s, t, n)
  {
    match s.threads[t].pc
    case Writing(job, p, off) =>
      var bytes := EncodeFrame(FrameOf(s, t, job));
      var m := if off == 0 then Commit(s, t, job, p) else s;
      var q := m.procs[p];
      SetPc(SetProc(m, p, q.(inbuf := q.inbuf + bytes[off..off + n])), t,
        if off + n == |bytes| then Reading(job, p, []) else Writing(job, p, off + n))
    case Reading(job, p, got) =>
      var q := s.procs[p];
      SetPc(SetProc(s, p, q.(outbuf := q.outbuf[n..])), t, Reading(job, p, got + q.outbuf[..n]))
  }

  /** A time-out or an error of the call in progress. */
  predicate CanFail(s: State, t: nat) {
    Grounded(s, t) &&
    match s.threads[t].pc
    case Waiting => true
    case Polling => true
    case Starting => s.slot.Some?
    case Writing(_, _, _) => true
    case Reading(_, _, _) => true
    case _ => false
  }

  function FailOf(s: State, t: nat): State
    requires CanFail(s, t)
  {
    var pc := s.threads[t].pc;
    if pc.Writing? || pc.Reading? then Drop(s, t, pc.job, pc.p) else GiveUp(s, t)
  }

  /** Before any byte was written the process stays. */
  function GiveUp(s: State, t: nat): State
    requires CanFail(s, t) && !s.threads[t].pc.Writing? && !s.threads[t].pc.Reading?
  {
    match s.threads[t].pc
    case Waiting => Return(SetResult(s, t, Failed), t, Idle).(waiting := Down(s.waiting))
    case Polling => SetPc(SetResult(s, t, Failed), t, Leaving)
    case Starting => SetPc(s, t, Unlocking)
  }

  /** Where a process is about to be started. */
  predicate CanSpawn(s: State, t: nat) {
    Grounded(s, t) &&
    match s.threads[t].pc
    case Looking => s.slot.None?
    case Polling => s.slot.Some? && !s.procs[s.slot.value].alive
    case Starting => s.slot.None? || !s.procs[s.slot.value].alive
    case Restarting => s.slot.None?
    case _ => false
  }

  predicate IsIdle(s: State, t: nat) {
    t < |s.threads| && s.threads[t].pc.Idle?
  }

  predicate Enabled(s: State, a: Action) {
    && !s.exited
    && match a
       case Begin(t, _, _) => IsIdle(s, t)
       case BeginStart(t) => IsIdle(s, t)
       case BeginRestart(t) => IsIdle(s, t)
       case Step(t) => CanStep(s, t)
       case Move(t, n) => CanMove(s, t, n)
       case Fail(t) => CanFail(s, t)
       case SpawnFails(t) => CanSpawn(s, t)
       case Dispatch(p) =>
         && p < |s.procs| && s.procs[p].alive && s.procs[p].outq == []
         && Front(s.procs[p].inbuf).Some? && !Shutdown(Front(s.procs[p].inbuf).value)
       case Emit(p, n) => p < |s.procs| && s.procs[p].alive && 0 < n <= |s.procs[p].outq|
       case Kill(p) => p < |s.procs| && s.procs[p].alive
  }

  function Next(cfg: Config, s: State, a: Action): State
    requires Enabled(s, a)
  {
    match a
    case Begin(t, opcode, payload) =>
      s.(
        threads := s.threads[t := Thread(Some(|s.calls|), Asking)],
        nextId := Up(s.nextId),
        calls := s.calls + [CallRecord(t, s.nextId, opcode, payload, None, None)])
    case BeginStart(t) => SetPc(s, t, StartWaiting)
    case BeginRestart(t) => SetPc(s, t, RestartWaiting(false))
    case Step(t) => StepOf(cfg, s, t)
    case Move(t, n) => MoveOf(s, t, n)
    case Fail(t) => FailOf(s, t)
    case SpawnFails(t) => s.(exited := true)
    case Dispatch(p) => SetProc(s, p, Serve(cfg.handlers(p), s.procs[p]))
    case Emit(p, n) =>
      var q := s.procs[p];
      SetProc(s, p, q.(outq := q.outq[n..], outbuf := q.outbuf + q.outq[..n]))
    case Kill(p) => SetProc(s, p, s.procs[p].(alive := false))
  }

  /** The thread whose step it is, if a thread's. */
  function Actor(a: Action): Option<nat> {
    match a
    case Dispatch(_) => None
    case Emit(_, _) => None
    case Kill(_) => None
    case _ => Some(a.t)
  }

  predicate Init(s: State) {
    && s == State(false, 1, 0, None, None, None, s.threads, [], [], multiset{}, multiset{})
    && forall t | 0 <= t < |s.threads| :: s.threads[t] == IDLE
  }

  ghost predicate Runs(cfg: Config, s: State, acts: seq<Action>, r: State)
    decreases |acts|
  {
    if acts == [] then r == s else Enabled(s, acts[0]) && Runs(cfg, Next(cfg, s, acts[0]), acts[1..], r)
  }
}
