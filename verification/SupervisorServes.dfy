/**
Runs in which things work out: from any state of the supervisor a thread that holds
the slot gets its call answered, by the worker in the slot or, if that one is dead or
there is none, by a new one; and workers are started and replaced on demand.
*/
module SupervisorServes {
  import opened Bytes
  import opened Frames
  import opened WorkerLoop
  import opened Supervisor
  import opened SupervisorLocks
  import opened SupervisorPlaces
  import opened SupervisorPipes
  import opened SupervisorCalls
  import opened SupervisorLaws

  /** Some run leads from one state to the other. */
  ghost predicate Leads(cfg: Config, s: State, r: State) {
    exists acts :: Runs(cfg, s, acts, r)
  }

  /** A state that can be got to, with all that holds of such states. */
  ghost predicate Comes(cfg: Config, from: State, s: State) {
    Conforming(cfg) && Inv(cfg, s) && Leads(cfg, from, s)
  }

  lemma Start(cfg: Config, s: State)
    requires Conforming(cfg) && Inv(cfg, s)
    ensures Comes(cfg, s, s)
  {
    hide Conforming, Inv;
    assert Runs(cfg, s, [], s);
  }

  lemma Go(cfg: Config, from: State, s: State, a: Action)
    requires Comes(cfg, from, s) && Enabled(s, a)
    ensures Comes(cfg, from, Next(cfg, s, a))
  {
    hide Conforming, Inv, Runs, Enabled, Next;
    StepInv(cfg, s, a);
    var acts :| Runs(cfg, from, acts, s);
    RunSnoc(cfg, from, acts, s, a);
  }

  // ----- an exchange, from its first byte to the last of its answer

  /** The request of the exchange is one the process takes. */
  predicate Servable(s: State, t: nat, job: Job) {
    && (job.Request? ==> InCall(s, t))
    && |FrameOf(s, t, job).payload| <= MAX_PAYLOAD && Answered(FrameOf(s, t, job))
  }

  /** The thread is about to write to a living process. */
  predicate Writes(s: State, t: nat, job: Job, p: nat) {
    && !s.exited && t < |s.threads| && s.threads[t].pc == Writing(job, p, 0)
    && p < |s.procs| && s.procs[p].alive && Servable(s, t, job)
  }

  /** `s` with the exchange under way: nothing but its thread and its process has moved. */
  predicate Under(s: State, m: State, t: nat, job: Job, p: nat, got: seq<byte>) {
    && Writes(s, t, job, p) && |m.procs| == |s.procs|
    && var c := Commit(s, t, job, p);
    && m == SetPc(SetProc(c, p, m.procs[p]), t, Reading(job, p, got))
    && m.procs[p].alive && m.procs[p].sent == c.procs[p].sent
  }

  /** `s` with the whole answer in hand. */
  function Exchanged(s: State, t: nat, job: Job, p: nat, got: seq<byte>): State
    requires Writes(s, t, job, p)
  {
    var q := Commit(s, t, job, p).procs[p];
    SetPc(
      SetProc(Commit(s, t, job, p), p, q.(taken := q.taken + [FrameOf(s, t, job)])),
      t, Reading(job, p, got))
  }

  lemma BeforeWriting(cfg: Config, s: State, t: nat, job: Job, p: nat)
    requires Inv(cfg, s) && Writes(s, t, job, p)
    ensures Grounded(s, t) && AtRest(s.procs[p]) && ProcOk(s.procs[p])
  {
    assert Control(s, t) && Calling(s, t) && Piped(cfg, s, t);
    hide Numbered, Counted, Placed, Attributed, Recorded, AtRest;
  }

  lemma InReading(cfg: Config, s: State, m: State, t: nat, job: Job, p: nat, got: seq<byte>)
    requires Inv(cfg, m) && Under(s, m, t, job, p, got)
    ensures Grounded(m, t) && ProcOk(m.procs[p]) && Servable(m, t, job)
    ensures SentOf(m, t, job) == SentOf(s, t, job)
    ensures InRead(cfg.handlers(p), m.procs[p], SentOf(s, t, job), got)
    ensures |m.procs[p].taken| <= |m.procs[p].sent| <= |m.procs[p].taken| + 1
  {
    assert Control(m, t) && Calling(m, t) && Piped(cfg, m, t);
    hide Numbered, Counted, Placed, Attributed, InRead, Recorded;
  }

  lemma WritesWhole(cfg: Config, s: State, t: nat, job: Job, p: nat)
    requires Inv(cfg, s) && Writes(s, t, job, p)
    ensures var n := |EncodeFrame(FrameOf(s, t, job))|;
      Enabled(s, Move(t, n)) && Under(s, Next(cfg, s, Move(t, n)), t, job, p, [])
  {
    BeforeWriting(cfg, s, t, job, p);
    FrameLength(FrameOf(s, t, job));
    hide EncodeFrame, Want, Inv, AtRest;
  }

  /** A whole request within the cap is at the front. */
  lemma FrontWhole(f: Frame)
    requires |f.payload| <= MAX_PAYLOAD
    ensures Front(EncodeFrame(f)) == Some(f)
  {
    var b, n := EncodeFrame(f), HEADER + |f.payload|;
    HeaderFields(f);
    HeadOfPrefix(b, f);
    hide Header, Decode, GoodHeader, ReadU32;
    assert b[HEADER..n] == f.payload;
  }

  /** A process with the whole request in its input takes it. */
  lemma TakesWhole(h: Handler, q: Proc, m: Sent, got: seq<byte>)
    requires ProcOk(q) && InRead(h, q, m, got) && q.alive && |q.sent| == |q.taken| + 1
    requires |m.frame.payload| <= MAX_PAYLOAD && Answered(m.frame)
    ensures CanDispatch(q)
    ensures var r := Serve(h, q); r.alive && r.sent == q.sent && |r.sent| == |r.taken|
  {
    FrontWhole(m.frame);
    hide EncodeFrame, Front, Respond;
    assert q.sent[|q.taken|] == m;
    DispatchTakes(h, q);
  }

  /** Whatever its process does meanwhile. */
  lemma StillUnder(s: State, m: State, t: nat, job: Job, p: nat, got: seq<byte>, q: Proc)
    requires Under(s, m, t, job, p, got) && q.alive && q.sent == m.procs[p].sent
    ensures Under(s, SetProc(m, p, q), t, job, p, got)
  {
    hide EncodeFrame, Answered;
  }

  lemma NextServes(cfg: Config, m: State, p: nat)
    requires p < |m.procs| && !m.exited && CanDispatch(m.procs[p])
    ensures Enabled(m, Dispatch(p))
    ensures Next(cfg, m, Dispatch(p)) == SetProc(m, p, Serve(cfg.handlers(p), m.procs[p]))
  {
    hide StepOf, MoveOf, FailOf, CanStep, CanMove, CanFail, CanSpawn, Front, Serve;
  }

  lemma Dispatches(cfg: Config, s: State, m: State, t: nat, job: Job, p: nat, got: seq<byte>)
    requires Inv(cfg, m) && Under(s, m, t, job, p, got)
    requires |m.procs[p].sent| == |m.procs[p].taken| + 1
    ensures Enabled(m, Dispatch(p))
    ensures var r := Next(cfg, m, Dispatch(p));
      Under(s, r, t, job, p, got) && |r.procs[p].sent| == |r.procs[p].taken|
  {
    InReading(cfg, s, m, t, job, p, got);
    TakesWhole(cfg.handlers(p), m.procs[p], SentOf(s, t, job), got);
    StillUnder(s, m, t, job, p, got, Serve(cfg.handlers(p), m.procs[p]));
    hide Inv, EncodeFrame, Serve, InRead, ProcOk, CanDispatch, Enabled, Next;
    NextServes(cfg, m, p);
  }

  lemma EmitsAll(cfg: Config, s: State, m: State, t: nat, job: Job, p: nat, got: seq<byte>)
    requires Under(s, m, t, job, p, got) && m.procs[p].outq != []
    ensures var a := Emit(p, |m.procs[p].outq|);
      && Enabled(m, a)
      && var r := Next(cfg, m, a);
      && Under(s, r, t, job, p, got) && r.procs[p].taken == m.procs[p].taken && r.procs[p].outq == []
  {
    var q := m.procs[p];
    StillUnder(s, m, t, job, p, got, q.(outq := [], outbuf := q.outbuf + q.outq));
    hide EncodeFrame, Want;
    assert q.outq[..|q.outq|] == q.outq && q.outq[|q.outq|..] == [];
  }

  lemma ReadsMore(cfg: Config, s: State, m: State, t: nat, job: Job, p: nat, got: seq<byte>)
    requires Under(s, m, t, job, p, got) && Grounded(m, t) && 0 < Want(got) <= |m.procs[p].outbuf|
    ensures var a, n := Move(t, Want(got)), Want(got);
      && Enabled(m, a)
      && var r, q := Next(cfg, m, a), m.procs[p];
      && Under(s, r, t, job, p, got + q.outbuf[..n]) && r.procs[p] == q.(outbuf := q.outbuf[n..])
  {
    hide EncodeFrame, Want;
  }

  /** With the whole answer in the pipe, the reader can have what it asks for. */
  lemma WantFits(h: Handler, q: Proc, m: Sent, got: seq<byte>)
    requires InRead(h, q, m, got) && |q.sent| == |q.taken| && q.outq == []
    requires |h(q.taken).body| < U32_SIZE
    ensures Want(got) <= |q.outbuf|
  {
    var a := Respond(m.frame, h(q.taken));
    assert Sized(a);
    assert got + q.outbuf + [] == got + q.outbuf == EncodeFrame(a);
    HeaderFields(a);
    if |got| >= HEADER {
      HeadOfPrefix(got, a);
    } else {
      FrameLength(a);
    }
  }

  lemma ReplyFits(cfg: Config, p: nat, fs: seq<Frame>)
    requires Conforming(cfg)
    ensures |cfg.handlers(p)(fs).body| < U32_SIZE
  {
  }

  /** From the last byte of a request, process and reader come to the whole answer. */
  lemma {:induction false} ReadsWhole(cfg: Config, from: State, s: State, m: State, t: nat, job: Job, p: nat,
      got: seq<byte>)
    returns (r: State, all: seq<byte>)
    requires Comes(cfg, from, m) && Under(s, m, t, job, p, got)
    ensures Comes(cfg, from, r) && Under(s, r, t, job, p, all) && Want(all) == 0
    decreases |m.procs[p].sent| - |m.procs[p].taken|, |m.procs[p].outq|, |m.procs[p].outbuf|
  {
    hide Leads, Enabled, Next, Inv, Want, InRead, ProcOk, EncodeFrame, Conforming, Commit;
    InReading(cfg, s, m, t, job, p, got);
    if Want(got) == 0 {
      r, all := m, got;
      return;
    }
    var q := m.procs[p];
    var a, now := Move(t, Want(got)), got;
    if |q.sent| == |q.taken| + 1 {
      a := Dispatch(p);
      Dispatches(cfg, s, m, t, job, p, got);
    } else if q.outq != [] {
      a := Emit(p, |q.outq|);
      EmitsAll(cfg, s, m, t, job, p, got);
    } else {
      ReplyFits(cfg, p, q.taken);
      WantFits(cfg.handlers(p), q, SentOf(s, t, job), got);
      ReadsMore(cfg, s, m, t, job, p, got);
      now := got + q.outbuf[..Want(got)];
    }
    Go(cfg, from, m, a);
    r, all := ReadsWhole(cfg, from, s, Next(cfg, m, a), t, job, p, now);
  }

  /** What the whole answer leaves behind. */
  lemma WholeAnswer(cfg: Config, s: State, m: State, t: nat, job: Job, p: nat, got: seq<byte>)
    requires Conforming(cfg) && Inv(cfg, s) && Inv(cfg, m) && Under(s, m, t, job, p, got) && Want(got) == 0
    ensures m == Exchanged(s, t, job, p, got)
    ensures Grounded(m, t) && Accepts(FrameOf(s, t, job), job, got)
    ensures Decode(got[..HEADER], got[HEADER..])
      == Respond(FrameOf(s, t, job), cfg.handlers(p)(s.procs[p].taken + [FrameOf(s, t, job)]))
  {
    BeforeWriting(cfg, s, t, job, p);
    InReading(cfg, s, m, t, job, p, got);
    var q := m.procs[p];
    ReplyFits(cfg, p, q.taken);
    hide Inv, Want, InRead, Accepts, Decode, GoodHeader, Respond, EncodeFrame, Conforming;
    AnswerAccepted(cfg.handlers(p), q, SentOf(s, t, job), job, got);
    assert q.taken == s.procs[p].taken + [FrameOf(s, t, job)];
  }

  lemma ExchangeRuns(cfg: Config, from: State, s: State, t: nat, job: Job, p: nat) returns (got: seq<byte>)
    requires Comes(cfg, from, s) && Writes(s, t, job, p)
    ensures Want(got) == 0 && Comes(cfg, from, Exchanged(s, t, job, p, got))
    ensures Grounded(Exchanged(s, t, job, p, got), t) && Accepts(FrameOf(s, t, job), job, got)
    ensures Decode(got[..HEADER], got[HEADER..])
      == Respond(FrameOf(s, t, job), cfg.handlers(p)(s.procs[p].taken + [FrameOf(s, t, job)]))
  {
    hide Leads, Enabled, Next, Inv, Want, EncodeFrame, Conforming, Under, Accepts, Decode, Respond, Grounded,
      Exchanged;
    WritesWhole(cfg, s, t, job, p);
    var a := Move(t, |EncodeFrame(FrameOf(s, t, job))|);
    Go(cfg, from, s, a);
    var r;
    r, got := ReadsWhole(cfg, from, s, Next(cfg, s, a), t, job, p, []);
    WholeAnswer(cfg, s, r, t, job, p, got);
  }

  // ----- a new worker

  /** A process that was started and answered its probe. */
  const PROBED := NEW_PROC.(sent := [Sent(ProbeTag, PROBE_FRAME)], taken := [PROBE_FRAME])

  /** `s` with a new worker in the slot, started and probed by thread `t`. */
  function Renewed(s: State, t: nat, why: Why): State
    requires t < |s.threads|
  {
    Ready(s, t, why, |s.procs|).(procs := s.procs + [PROBED])
  }

  lemma ProbeEnds(cfg: Config, s: State, t: nat, why: Why, got: seq<byte>)
    requires t < |s.threads| && !s.exited && Want(got) == 0
    requires var n := Spawn(s, t, why);
      && Writes(n, t, Probe(why), |s.procs|)
      && Grounded(Exchanged(n, t, Probe(why), |s.procs|, got), t)
      && Accepts(PROBE_FRAME, Probe(why), got)
    ensures var m := Exchanged(Spawn(s, t, why), t, Probe(why), |s.procs|, got);
      Enabled(m, Step(t)) && Next(cfg, m, Step(t)) == Renewed(s, t, why)
  {
    hide Accepts, Want, EncodeFrame, Drop;
    var n, p := Spawn(s, t, why), |s.procs|;
    var m := Exchanged(n, t, Probe(why), p, got);
    assert PROBED.sent == [] + [Sent(ProbeTag, PROBE_FRAME)] && PROBED.taken == [] + [PROBE_FRAME];
    assert m.procs == s.procs + [PROBED];
    assert m.threads == s.threads[t := s.threads[t].(pc := Reading(Probe(why), p, got))];
    assert Next(cfg, m, Step(t)).threads == Ready(s, t, why, p).threads;
  }

  /** A worker just started is probed and put into the slot. */
  lemma ProbeRuns(cfg: Config, from: State, s: State, t: nat, why: Why)
    requires t < |s.threads| && !s.exited && Comes(cfg, from, Spawn(s, t, why))
    ensures Comes(cfg, from, Renewed(s, t, why))
  {
    var n, p := Spawn(s, t, why), |s.procs|;
    assert Writes(n, t, Probe(why), p);
    hide Comes, Enabled, Next, Want, Writes, Accepts, Exchanged, Grounded, Respond, Decode;
    var got := ExchangeRuns(cfg, from, n, t, Probe(why), p);
    ProbeEnds(cfg, s, t, why, got);
    Go(cfg, from, Exchanged(n, t, Probe(why), p, got), Step(t));
  }

  // ----- a call under the lock

  /** A call that holds the slot and has no process yet, and is not one to shut the worker down. */
  predicate Seeks(s: State, t: nat) {
    && !s.exited && InCall(s, t) && (s.threads[t].pc.Looking? || s.threads[t].pc.Polling?)
    && |s.calls[s.threads[t].call.value].payload| <= MAX_PAYLOAD
    && s.calls[s.threads[t].call.value].opcode != OP_SHUTDOWN
  }

  /** The slot holds a worker that lives. */
  predicate Manned(s: State) {
    s.slot.Some? && s.slot.value < |s.procs| && s.procs[s.slot.value].alive
  }

  /** The state in which the call begins to write: the worker that lives, or a new one, has the slot. */
  function Found(s: State, t: nat): State
    requires t < |s.threads|
  {
    if Manned(s) then SetPc(s, t, Writing(Request, s.slot.value, 0))
    else SetPc(Renewed(if s.slot.Some? then Reap(s) else s, t, ForCall(false)), t, Writing(Request, |s.procs|, 0))
  }

  lemma UnderLock(cfg: Config, s: State, t: nat)
    requires Inv(cfg, s) && InCall(s, t) && (s.threads[t].pc.Looking? || s.threads[t].pc.Polling?)
    ensures Grounded(s, t) && (s.threads[t].pc.Polling? ==> s.slot.Some?)
    ensures s.slot.Some? ==> s.slot.value < |s.procs|
  {
    assert Control(s, t) && Calling(s, t);
    hide Numbered, Counted, Placed, AllPiped, Attributed, Recorded;
  }

  /** A call looks at the slot, and polls what it finds there. */
  lemma LooksUp(cfg: Config, s: State, t: nat)
    requires Seeks(s, t) && Grounded(s, t) && (s.threads[t].pc.Polling? ==> s.slot.Some?)
    ensures Enabled(s, Step(t))
    ensures s.threads[t].pc.Looking? ==>
      Next(cfg, s, Step(t)) == if s.slot.None? then Spawn(s, t, ForCall(true)) else SetPc(s, t, Polling)
    ensures s.threads[t].pc.Polling? ==>
      Next(cfg, s, Step(t)) == if Manned(s) then SetPc(s, t, Writing(Request, s.slot.value, 0))
                               else Spawn(Reap(s), t, ForCall(false))
  {
    hide Finish, Want;
  }

  lemma FindsPolling(cfg: Config, from: State, s: State, t: nat)
    requires Comes(cfg, from, s) && Seeks(s, t) && s.threads[t].pc.Polling?
    ensures Comes(cfg, from, Found(s, t))
  {
    hide Leads, Enabled, Next, Inv, Conforming, Grounded, Reap;
    UnderLock(cfg, s, t);
    LooksUp(cfg, s, t);
    Go(cfg, from, s, Step(t));
    if !Manned(s) {
      ReapedStill(s, t);
      ProbeRuns(cfg, from, Reap(s), t, ForCall(false));
      SamePc(Reap(s), t, ForCall(false), Writing(Request, |s.procs|, 0));
    }
  }

  lemma ReapedStill(s: State, t: nat)
    requires t < |s.threads| && s.slot.Some?
    ensures Reap(s).threads == s.threads && Reap(s).exited == s.exited && Reap(s).procs == s.procs
  {
  }

  lemma SamePc(s: State, t: nat, why: Why, pc: Pc)
    requires t < |s.threads| && Renewed(s, t, why).threads[t].pc == pc
    ensures SetPc(Renewed(s, t, why), t, pc) == Renewed(s, t, why)
  {
  }

  lemma FindsLooking(cfg: Config, from: State, s: State, t: nat)
    requires Comes(cfg, from, s) && Seeks(s, t) && s.threads[t].pc.Looking?
    ensures Comes(cfg, from, Found(s, t))
  {
    hide Leads, Enabled, Next, Inv, Conforming, Grounded;
    UnderLock(cfg, s, t);
    LooksUp(cfg, s, t);
    Go(cfg, from, s, Step(t));
    if s.slot.Some? {
      var m := SetPc(s, t, Polling);
      FindsPolling(cfg, from, m, t);
      assert Found(m, t) == Found(s, t);
    } else {
      ProbeRuns(cfg, from, s, t, ForCall(true));
      var m := Renewed(s, t, ForCall(true));
      UnderLock(cfg, m, t);
      LooksUp(cfg, m, t);
      Go(cfg, from, m, Step(t));
      assert SetPc(m, t, Writing(Request, |s.procs|, 0)) == Found(s, t);
    }
  }

  /** A call finds a worker: the one in the slot if that lives, a new one otherwise. */
  lemma FindsWorker(cfg: Config, from: State, s: State, t: nat)
    requires Comes(cfg, from, s) && Seeks(s, t)
    ensures Comes(cfg, from, Found(s, t))
  {
    hide Comes;
    if s.threads[t].pc.Polling? {
      FindsPolling(cfg, from, s, t);
    } else {
      FindsLooking(cfg, from, s, t);
    }
  }

  // ----- the call is answered

  /** The worker the call gets, and the frames that one has taken when the call is answered. */
  function WorkerOf(s: State): nat {
    if Manned(s) then s.slot.value else |s.procs|
  }

  function TakenBy(s: State, req: Frame): seq<Frame> {
    (if Manned(s) then s.procs[s.slot.value].taken else [PROBE_FRAME]) + [req]
  }

  lemma FoundWrites(s: State, t: nat)
    requires Seeks(s, t)
    ensures Writes(Found(s, t), t, Request, WorkerOf(s))
    ensures var n := Found(s, t);
      && FrameOf(n, t, Request) == RequestOf(s.calls[s.threads[t].call.value])
      && n.procs[WorkerOf(s)].taken + [FrameOf(n, t, Request)] == TakenBy(s, FrameOf(n, t, Request))
      && n.calls == s.calls && n.lock == s.lock && n.slot == Some(WorkerOf(s))
      && n.threads == s.threads[t := s.threads[t].(pc := Writing(Request, WorkerOf(s), 0))]
  {
  }

  lemma RequestEnds(cfg: Config, n: State, t: nat, p: nat, got: seq<byte>)
    requires Writes(n, t, Request, p) && Want(got) == 0
    requires Grounded(Exchanged(n, t, Request, p, got), t) && Accepts(FrameOf(n, t, Request), Request, got)
    ensures var m, f := Exchanged(n, t, Request, p, got), Decode(got[..HEADER], got[HEADER..]);
      && Enabled(m, Step(t)) && InCall(m, t)
      && Next(cfg, m, Step(t)) == SetPc(SetResult(m, t, Done(f)), t, Leaving)
  {
    hide Accepts, Want, EncodeFrame, Drop, Decode;
    var m := Exchanged(n, t, Request, p, got);
    assert FrameOf(m, t, Request) == FrameOf(n, t, Request);
  }

  /**
  From every state of the supervisor, with any worker in the slot or none, dead or
  alive: a call that holds the slot is answered, in some run, by the worker that lives
  there or by a new one, with what its handler makes of the request.
  */
  lemma CallIsServed(cfg: Config, from: State, s: State, t: nat) returns (r: State)
    requires Comes(cfg, from, s) && Seeks(s, t)
    ensures Comes(cfg, from, r) && !r.exited && r.lock == s.lock && r.slot == Some(WorkerOf(s))
    ensures r.threads == s.threads[t := s.threads[t].(pc := Leaving)] && r.current == s.current
    ensures var k := s.threads[t].call.value;
      var req := RequestOf(s.calls[k]);
      && |r.calls| == |s.calls| && RequestOf(r.calls[k]) == req && r.calls[k].owner == s.calls[k].owner
      && WorkerOf(s) < |r.procs| && r.procs[WorkerOf(s)].taken == TakenBy(s, req)
      && r.calls[k].result.Some? && r.calls[k].result.value.Done?
      && Carries(r.calls[k].result.value.frame, req, cfg.handlers(WorkerOf(s))(TakenBy(s, req)))
  {
    var n, p := Found(s, t), WorkerOf(s);
    FindsWorker(cfg, from, s, t);
    FoundWrites(s, t);
    hide Comes, Found, Enabled, Next, Want, Accepts, Grounded, Decode, TakenBy, EncodeFrame;
    var got := ExchangeRuns(cfg, from, n, t, Request, p);
    var m := Exchanged(n, t, Request, p, got);
    RequestEnds(cfg, n, t, p, got);
    r := SetPc(SetResult(m, t, Done(Decode(got[..HEADER], got[HEADER..]))), t, Leaving);
    Go(cfg, from, m, Step(t));
  }

  // ----- a whole call, from an idle thread to an idle thread

  /** `s` with a call of thread `t` under way, on its way to the slot. */
  function Asked(s: State, t: nat, opcode: u16, payload: seq<byte>, pc: Pc): State
    requires t < |s.threads|
  {
    s.(
      threads := s.threads[t := Thread(Some(|s.calls|), pc)],
      nextId := Up(s.nextId),
      calls := s.calls + [CallRecord(t, s.nextId, opcode, payload, None, None)],
      waiting := if pc.Waiting? || pc.Entered? then Up(s.waiting) else s.waiting,
      lock := if pc.Entered? || pc.Uncounted? || pc.Looking? then Some(t) else s.lock,
      current := if pc.Looking? then Some(Current(s.nextId, opcode)) else s.current)
  }

  /** A thread may call: it does nothing else, the slot is free, and the queue has room. */
  predicate MayCall(cfg: Config, s: State, t: nat) {
    && !s.exited && t < |s.threads| && s.threads[t] == IDLE
    && s.lock.None? && s.waiting < cfg.maxWaiters
  }

  function Later(pc: Pc): Pc {
    match pc
    case Asking => Admitted
    case Admitted => Waiting
    case Waiting => Entered
    case Entered => Uncounted
    case _ => Looking
  }

  lemma AskStep(cfg: Config, s: State, t: nat, opcode: u16, payload: seq<byte>, pc: Pc)
    requires MayCall(cfg, s, t) && Grounded(Asked(s, t, opcode, payload, pc), t)
    requires InQueue(pc) || pc.Entered? || pc.Uncounted?
    ensures var m := Asked(s, t, opcode, payload, pc);
      Enabled(m, Step(t)) && Next(cfg, m, Step(t)) == Asked(s, t, opcode, payload, Later(pc))
  {
    hide Finish, StartStep, RestartStep, SlotStep, Want;
    var m := Asked(s, t, opcode, payload, pc);
    assert Next(cfg, m, Step(t)).threads == Asked(s, t, opcode, payload, Later(pc)).threads;
  }

  lemma AskBegins(cfg: Config, s: State, t: nat, opcode: u16, payload: seq<byte>)
    requires MayCall(cfg, s, t)
    ensures Enabled(s, Begin(t, opcode, payload))
    ensures Next(cfg, s, Begin(t, opcode, payload)) == Asked(s, t, opcode, payload, Asking)
  {
  }

  lemma AskGrounded(cfg: Config, s: State, t: nat, opcode: u16, payload: seq<byte>, pc: Pc)
    requires t < |s.threads| && Inv(cfg, Asked(s, t, opcode, payload, pc))
    requires NeedsCall(pc) && !pc.Writing? && !pc.Reading?
    ensures Grounded(Asked(s, t, opcode, payload, pc), t)
  {
    assert Control(Asked(s, t, opcode, payload, pc), t);
    hide Owned, Numbered, Counted, Placed, AllPiped, Attributed;
  }

  /** The call gets to the slot. */
  lemma GetsThere(cfg: Config, from: State, s: State, t: nat, opcode: u16, payload: seq<byte>, pc: Pc)
    requires MayCall(cfg, s, t) && Comes(cfg, from, Asked(s, t, opcode, payload, pc))
    requires InQueue(pc) || pc.Entered? || pc.Uncounted? || pc.Looking?
    ensures Comes(cfg, from, Asked(s, t, opcode, payload, Looking))
    decreases match pc
      case Asking => 5
      case Admitted => 4
      case Waiting => 3
      case Entered => 2
      case Uncounted => 1
      case _ => 0
  {
    hide Leads, Inv, Conforming, Enabled, Next, Grounded, Asked;
    if pc.Looking? {
    } else {
      AskGrounded(cfg, s, t, opcode, payload, pc);
      AskStep(cfg, s, t, opcode, payload, pc);
      Go(cfg, from, Asked(s, t, opcode, payload, pc), Step(t));
      GetsThere(cfg, from, s, t, opcode, payload, Later(pc));
    }
  }

  /** The thread leaves, and the slot is free again. */
  lemma Leaves(cfg: Config, from: State, s: State, t: nat) returns (r: State)
    requires Comes(cfg, from, s) && !s.exited && InCall(s, t) && s.threads[t].pc.Leaving? && s.slot.Some?
    ensures Comes(cfg, from, r) && r.threads == s.threads[t := IDLE] && r.lock.None?
    ensures r.calls == s.calls && r.procs == s.procs && r.slot == s.slot && !r.exited
  {
    assert Control(s, t);
    hide Leads, Owned, Numbered, Counted, Placed, AllPiped, Attributed, Inv, Conforming, Finish, StartStep, RestartStep,
      SlotStep, QueueStep, Want;
    var m := StepOf(cfg, s, t);
    Go(cfg, from, s, Step(t));
    r := StepOf(cfg, m, t);
    Go(cfg, from, m, Step(t));
  }

  /**
  A call is answered: from every state in which a thread may call, whatever the opcode
  but a shutdown and whatever the payload within the cap, some run takes the thread
  through a call of its own that is answered by the worker that lives in the slot, or
  by a new one, and leaves the slot free.
  */
  lemma CallAnswered(cfg: Config, s: State, t: nat, opcode: u16, payload: seq<byte>)
    returns (acts: seq<Action>, r: State)
    requires Conforming(cfg) && Inv(cfg, s) && MayCall(cfg, s, t)
    requires |payload| <= MAX_PAYLOAD && opcode != OP_SHUTDOWN
    ensures Runs(cfg, s, acts, r)
    ensures !r.exited && r.lock.None? && r.threads == s.threads && r.slot == Some(WorkerOf(s))
    ensures |r.calls| == |s.calls| + 1
    ensures var c, req := r.calls[|s.calls|], Frame(KIND_REQUEST, s.nextId, opcode, 0, payload);
      && RequestOf(c) == req && c.owner == t
      && WorkerOf(s) < |r.procs| && r.procs[WorkerOf(s)].taken == TakenBy(s, req)
      && c.result.Some? && c.result.value.Done?
      && Carries(c.result.value.frame, req, cfg.handlers(WorkerOf(s))(TakenBy(s, req)))
  {
    var m := Asked(s, t, opcode, payload, Looking);
    assert m.threads[t] == Thread(Some(|s.calls|), Looking) && m.calls[|s.calls|].owner == t;
    assert Seeks(m, t) && WorkerOf(m) == WorkerOf(s);
    Start(cfg, s);
    AskBegins(cfg, s, t, opcode, payload);
    Go(cfg, s, s, Begin(t, opcode, payload));
    GetsThere(cfg, s, s, t, opcode, payload, Asking);
    hide Leads, Inv, Conforming, Enabled, Next, Seeks, Carries;
    var n := CallIsServed(cfg, s, m, t);
    r := Leaves(cfg, s, n, t);
    assert r.threads == s.threads;
    acts := RunTo(cfg, s, r);
  }

  lemma RunTo(cfg: Config, s: State, r: State) returns (acts: seq<Action>)
    requires Leads(cfg, s, r)
    ensures Runs(cfg, s, acts, r)
  {
    hide Runs;
    acts :| Runs(cfg, s, acts, r);
  }

  // ----- never a dead worker, if it can be helped

  lemma OnlyStepsBegin(cfg: Config, s: State, a: Action, t: nat, p: nat)
    requires Enabled(s, a) && Actor(a) == Some(t) && t < |s.threads| && t < |Next(cfg, s, a).threads|
    requires Next(cfg, s, a).threads[t].pc == Writing(Request, p, 0)
    ensures a == Step(t)
  {
    hide StepOf, CanStep, Want, EncodeFrame, Front;
  }

  lemma StepBegins(cfg: Config, s: State, t: nat, p: nat)
    requires CanStep(s, t) && t < |StepOf(cfg, s, t).threads|
    requires StepOf(cfg, s, t).threads[t].pc == Writing(Request, p, 0)
    ensures s.threads[t].pc.Polling? || s.threads[t].pc == Reading(Probe(ForCall(false)), p, s.threads[t].pc.got)
    ensures s.threads[t].pc.Polling? ==> p < |s.procs| && s.slot == Some(p) && s.procs[p].alive
  {
    hide Want, Accepts;
  }

  /**
  A call begins to write only to a worker it has just seen alive, or to the new one it
  has just probed because the other was dead.
  */
  lemma NeverToTheDead(cfg: Config, s: State, a: Action, t: nat, p: nat)
    requires Enabled(s, a) && Actor(a) == Some(t) && t < |s.threads| && t < |Next(cfg, s, a).threads|
    requires Next(cfg, s, a).threads[t].pc == Writing(Request, p, 0)
    ensures s.threads[t].pc.Polling? || s.threads[t].pc == Reading(Probe(ForCall(false)), p, s.threads[t].pc.got)
    ensures s.threads[t].pc.Polling? ==> p < |s.procs| && s.slot == Some(p) && s.procs[p].alive
  {
    OnlyStepsBegin(cfg, s, a, t, p);
    hide StepOf, CanStep;
    StepBegins(cfg, s, t, p);
  }

  /** And a poll that finds the worker dead starts another. */
  lemma PollsTheDead(cfg: Config, s: State, a: Action, t: nat)
    requires Enabled(s, a) && Actor(a) == Some(t) && t < |s.threads| && t < |Next(cfg, s, a).threads|
    requires s.threads[t].pc.Polling? && Exchanging(Next(cfg, s, a).threads[t].pc)
    ensures var r, p := Next(cfg, s, a), Next(cfg, s, a).threads[t].pc.p;
      && p < |r.procs| && r.procs[p].alive
      && (s.slot.value < |s.procs| && !s.procs[s.slot.value].alive ==> p == |s.procs|)
  {
  }

  // ----- what a call is told, and what a failure costs

  /** The call has come to a result by a frame. */
  predicate Told(s: State, r: State, k: nat) {
    && k < |s.calls| && k < |r.calls|
    && s.calls[k].result.None? && r.calls[k].result.Some? && r.calls[k].result.value.Done?
  }

  predicate Matching(f: Frame, c: CallRecord) {
    f.kind == KIND_RESPONSE && f.id == c.id && f.opcode == c.opcode
  }

  lemma FinishTells(s: State, t: nat, k: nat)
    requires CanStep(s, t) && s.threads[t].pc.Reading?
    requires Told(s, Finish(s, t, s.threads[t].pc.job, s.threads[t].pc.p, s.threads[t].pc.got), k)
    ensures Matching(
      Finish(s, t, s.threads[t].pc.job, s.threads[t].pc.p, s.threads[t].pc.got).calls[k].result.value.frame, s.calls[k])
  {
    hide Want;
  }

  lemma OthersTellNothing(cfg: Config, s: State, a: Action, k: nat)
    requires Enabled(s, a) && Told(s, Next(cfg, s, a), k)
    ensures a.Step? && s.threads[a.t].pc.Reading?
  {
    hide Want, EncodeFrame, Front, Serve, Finish;
  }

  /** A call is only ever told of a response under its own id and opcode, whatever its process puts out. */
  lemma OnlyMatching(cfg: Config, s: State, a: Action, k: nat)
    requires Enabled(s, a) && Told(s, Next(cfg, s, a), k)
    ensures Matching(Next(cfg, s, a).calls[k].result.value.frame, s.calls[k])
  {
    OthersTellNothing(cfg, s, a, k);
    hide Want, EncodeFrame, Finish, Matching, Told;
    FinishTells(s, a.t, k);
  }

  /**
  A failure before the first byte costs the call and nothing else; one in an exchange
  costs the process too, which is handed to cleanup, and in a probe the supervisor.
  */
  lemma FailureCosts(cfg: Config, s: State, t: nat)
    requires Enabled(s, Fail(t)) && Control(s, t)
    ensures var r, pc := Next(cfg, s, Fail(t)), s.threads[t].pc;
      && r.procs == s.procs && r.reaped == s.reaped
      && (if Exchanging(pc) then r.slot.None? && r.cleanup == s.cleanup + multiset{pc.p}
          else r.slot == s.slot && r.cleanup == s.cleanup)
      && (r.exited <==> Exchanging(pc) && pc.job.Probe?)
      && (NeedsCall(pc) ==> InCall(s, t) && r.calls[s.threads[t].call.value].result == Some(Failed))
  {
    hide Want, EncodeFrame, Front, Serve, MoveOf, StepOf;
  }

  /**
  Nothing is taken for granted: a process can die at any moment, bytes move in any
  portions there is room for, a thread can give up wherever it waits or exchanges, and
  a worker that is about to be started may not start.
  */
  lemma AnythingCanHappen(s: State, t: nat, p: nat, n: nat)
    requires !s.exited && n > 0
    ensures p < |s.procs| && s.procs[p].alive ==> Enabled(s, Kill(p))
    ensures p < |s.procs| && s.procs[p].alive && n <= |s.procs[p].outq| ==> Enabled(s, Emit(p, n))
    ensures Grounded(s, t) && s.threads[t].pc.Reading? ==>
      var pc := s.threads[t].pc;
      n <= Want(pc.got) && n <= |s.procs[pc.p].outbuf| ==> Enabled(s, Move(t, n))
    ensures Grounded(s, t) && s.threads[t].pc.Writing? && (s.threads[t].pc.job.Request? ==> InCall(s, t)) ==>
      var f := FrameOf(s, t, s.threads[t].pc.job);
      Frames.Sized(f) && s.threads[t].pc.off + n <= |EncodeFrame(f)| ==> Enabled(s, Move(t, n))
    ensures Grounded(s, t) && (s.threads[t].pc.Waiting? || s.threads[t].pc.Polling? || Exchanging(s.threads[t].pc)) ==>
      Enabled(s, Fail(t))
    ensures Grounded(s, t) && s.threads[t].pc.Starting? && s.slot.Some? ==> Enabled(s, Fail(t))
    ensures Grounded(s, t) && (s.threads[t].pc.Looking? || s.threads[t].pc.Restarting?) && s.slot.None? ==>
      Enabled(s, SpawnFails(t))
    ensures Grounded(s, t) && s.threads[t].pc.Polling? && s.slot.Some? && !Manned(s) ==> Enabled(s, SpawnFails(t))
    ensures Grounded(s, t) && s.threads[t].pc.Starting? && !Manned(s) ==> Enabled(s, SpawnFails(t))
  {
    hide EncodeFrame, Want, Front, CanStep;
  }

  // ----- workers on demand

  /** `ensure_started` leaves the slot with a worker that lives: the one there, or a new one. */
  lemma StartFills(cfg: Config, from: State, s: State, t: nat) returns (r: State)
    requires Comes(cfg, from, s) && !s.exited && t < |s.threads| && s.threads[t].pc.Starting?
    ensures Comes(cfg, from, r) && t < |r.threads| && r.threads[t].pc.Unlocking? && !r.exited
    ensures Manned(s) ==> r == SetPc(s, t, Unlocking)
    ensures !Manned(s) ==>
      && r.slot == Some(|s.procs|) && r.procs == s.procs + [PROBED] && r.calls == s.calls
      && r.reaped == s.reaped + if s.slot.Some? then multiset{s.slot.value} else multiset{}
  {
    assert Control(s, t);
    hide Leads, Owned, Numbered, Counted, Placed, AllPiped, Attributed, Inv, Conforming, Finish, RestartStep, SlotStep,
      QueueStep, BooksStep, Want;
    Go(cfg, from, s, Step(t));
    if Manned(s) {
      r := SetPc(s, t, Unlocking);
    } else {
      var left := if s.slot.Some? then Reap(s) else s;
      ProbeRuns(cfg, from, left, t, ForStart);
      r := Renewed(left, t, ForStart);
    }
  }

  /** `s` with the worker taken out of the slot by thread `t`, which goes on to start another. */
  function Emptied(s: State, t: nat, pc: Pc): State
    requires t < |s.threads|
  {
    SetPc(s, t, pc).(
      slot := None,
      lock := if pc.Restarting? then Some(t) else None,
      cleanup := if pc.Handing? || s.slot.None? then s.cleanup else s.cleanup + multiset{s.slot.value})
  }

  function Afterwards(pc: Pc): Pc {
    match pc
    case Handing(_) => Sleeping
    case Sleeping => RestartWaiting(true)
    case _ => Restarting
  }

  lemma EmptiedStep(cfg: Config, s: State, t: nat, pc: Pc)
    requires t < |s.threads| && !s.exited && (pc == Handing(s.slot) || pc.Sleeping? || pc == RestartWaiting(true))
    ensures var m := Emptied(s, t, pc);
      Enabled(m, Step(t)) && Next(cfg, m, Step(t)) == Emptied(s, t, Afterwards(pc))
  {
    hide Finish, StartStep, SlotStep, QueueStep, BooksStep, Want;
    var m := Emptied(s, t, pc);
    assert Next(cfg, m, Step(t)).threads == Emptied(s, t, Afterwards(pc)).threads;
  }

  lemma TakesOut(cfg: Config, s: State, t: nat)
    requires Control(s, t) && !s.exited && s.threads[t].pc.Taking?
    ensures Enabled(s, Step(t)) && Next(cfg, s, Step(t)) == Emptied(s, t, Handing(s.slot))
  {
    hide Finish, StartStep, SlotStep, QueueStep, BooksStep, Want;
  }

  lemma StartsAnew(cfg: Config, s: State, t: nat)
    requires t < |s.threads| && !s.exited
    ensures var m := Emptied(s, t, Restarting);
      Enabled(m, Step(t)) && Next(cfg, m, Step(t)) == Spawn(m, t, ForRestart)
  {
    hide Finish, StartStep, SlotStep, QueueStep, BooksStep, Want;
  }

  /** `restart_after_delay` hands over the worker it finds and leaves a new one in its place. */
  lemma RestartReplaces(cfg: Config, from: State, s: State, t: nat) returns (r: State)
    requires Comes(cfg, from, s) && !s.exited && t < |s.threads| && s.threads[t].pc.Taking?
    ensures Comes(cfg, from, r) && t < |r.threads| && r.threads[t].pc.Unlocking? && !r.exited
    ensures r.slot == Some(|s.procs|) && r.procs == s.procs + [PROBED] && r.calls == s.calls
    ensures r.cleanup == s.cleanup + if s.slot.Some? then multiset{s.slot.value} else multiset{}
  {
    hide Comes, Control, Enabled, Next, Spawn, Inv;
    UnderControl(cfg, from, s, t);
    TakesOut(cfg, s, t);
    Go(cfg, from, s, Step(t));
    EmptiedStep(cfg, s, t, Handing(s.slot));
    Go(cfg, from, Emptied(s, t, Handing(s.slot)), Step(t));
    EmptiedStep(cfg, s, t, Sleeping);
    Go(cfg, from, Emptied(s, t, Sleeping), Step(t));
    EmptiedStep(cfg, s, t, RestartWaiting(true));
    Go(cfg, from, Emptied(s, t, RestartWaiting(true)), Step(t));
    StartsAnew(cfg, s, t);
    var m := Emptied(s, t, Restarting);
    Go(cfg, from, m, Step(t));
    ProbeRuns(cfg, from, m, t, ForRestart);
    r := Renewed(m, t, ForRestart);
  }

  lemma UnderControl(cfg: Config, from: State, s: State, t: nat)
    requires Comes(cfg, from, s) && t < |s.threads|
    ensures Control(s, t)
  {
    hide Control, Owned, Numbered, Counted, Placed, AllPiped, Attributed, Conforming, Leads;
  }

  /** A thread with nothing to do, and the slot free. */
  predicate Free(s: State, t: nat) {
    !s.exited && t < |s.threads| && s.threads[t] == IDLE && s.lock.None?
  }

  lemma BeginsStart(cfg: Config, s: State, t: nat)
    requires Free(s, t) && (s.slot.Some? ==> s.slot.value < |s.procs|)
    ensures var m, n := SetPc(s, t, StartWaiting), SetPc(s, t, Starting).(lock := Some(t));
      && Enabled(s, BeginStart(t)) && Next(cfg, s, BeginStart(t)) == m
      && Enabled(m, Step(t)) && Next(cfg, m, Step(t)) == n
  {
    hide Finish, RestartStep, SlotStep, QueueStep, BooksStep, Want;
    var m := SetPc(s, t, StartWaiting);
    assert Next(cfg, m, Step(t)).threads == SetPc(s, t, Starting).threads;
  }

  lemma BeginsRestart(cfg: Config, s: State, t: nat)
    requires Free(s, t) && (s.slot.Some? ==> s.slot.value < |s.procs|)
    ensures var m, n := SetPc(s, t, RestartWaiting(false)), SetPc(s, t, Taking).(lock := Some(t));
      && Enabled(s, BeginRestart(t)) && Next(cfg, s, BeginRestart(t)) == m
      && Enabled(m, Step(t)) && Next(cfg, m, Step(t)) == n
  {
    hide Finish, StartStep, SlotStep, QueueStep, BooksStep, Want;
    var m := SetPc(s, t, RestartWaiting(false));
    assert Next(cfg, m, Step(t)).threads == SetPc(s, t, Taking).threads;
  }

  /** The thread lets go of the slot. */
  lemma Unlocks(cfg: Config, from: State, s: State, t: nat)
    requires Comes(cfg, from, s) && !s.exited && t < |s.threads| && s.threads[t].pc.Unlocking?
    ensures Comes(cfg, from, SetPc(s, t, Idle).(lock := None))
  {
    UnderControl(cfg, from, s, t);
    hide Leads, Inv, Conforming, Finish, StartStep, RestartStep, SlotStep, QueueStep, Want;
    Go(cfg, from, s, Step(t));
  }

  /** A whole `ensure_started`: afterwards a worker that lives has the slot, the one there or a new one. */
  lemma Starts(cfg: Config, s: State, t: nat) returns (acts: seq<Action>, r: State)
    requires Conforming(cfg) && Inv(cfg, s) && Free(s, t)
    ensures Runs(cfg, s, acts, r) && !r.exited && r.lock.None? && r.slot == Some(WorkerOf(s)) && r.calls == s.calls
    ensures r.procs == if Manned(s) then s.procs else s.procs + [PROBED]
  {
    Start(cfg, s);
    UnderControl(cfg, s, s, t);
    BeginsStart(cfg, s, t);
    hide Leads, Inv, Conforming, Enabled, Next, Runs;
    Go(cfg, s, s, BeginStart(t));
    Go(cfg, s, SetPc(s, t, StartWaiting), Step(t));
    var n := SetPc(s, t, Starting).(lock := Some(t));
    r := StartFills(cfg, s, n, t);
    Unlocks(cfg, s, r, t);
    r := SetPc(r, t, Idle).(lock := None);
    acts := RunTo(cfg, s, r);
  }

  /** A whole `restart_after_delay`: afterwards a new worker has the slot, and the one there before went to cleanup. */
  lemma Restarts(cfg: Config, s: State, t: nat) returns (acts: seq<Action>, r: State)
    requires Conforming(cfg) && Inv(cfg, s) && Free(s, t)
    ensures Runs(cfg, s, acts, r) && !r.exited && r.lock.None? && r.slot == Some(|s.procs|) && r.calls == s.calls
    ensures r.procs == s.procs + [PROBED]
    ensures r.cleanup == s.cleanup + if s.slot.Some? then multiset{s.slot.value} else multiset{}
  {
    Start(cfg, s);
    UnderControl(cfg, s, s, t);
    BeginsRestart(cfg, s, t);
    hide Leads, Inv, Conforming, Enabled, Next, Runs;
    Go(cfg, s, s, BeginRestart(t));
    Go(cfg, s, SetPc(s, t, RestartWaiting(false)), Step(t));
    var n := SetPc(s, t, Taking).(lock := Some(t));
    r := RestartReplaces(cfg, s, n, t);
    Unlocks(cfg, s, r, t);
    r := SetPc(r, t, Idle).(lock := None);
    acts := RunTo(cfg, s, r);
  }
}
