/**
What every step of the supervisor keeps about the pipes: between exchanges they are
empty on both sides, and during one they hold nothing but it.
*/
module SupervisorPipes {
  import opened Bytes
  import opened Frames
  import opened WorkerLoop
  import opened Supervisor
  import opened SupervisorLocks

  // ----- frames cut anywhere

  /** A beginning of a frame holds a whole frame only if it is that frame. */
  lemma FrontOfPrefix(b: seq<byte>, f: Frame)
    requires Sized(f) && b <= EncodeFrame(f) && Front(b).Some?
    ensures Front(b) == Some(f) && b == EncodeFrame(f)
  {
    HeaderFields(f);
    HeadOfPrefix(b, f);
    hide Header, Decode, GoodHeader, ReadU32, EncodeFrame;
    FrameCut(f, [], EncodeFrame(f) + [], HEADER + |f.payload|);
    assert EncodeFrame(f) + [] == EncodeFrame(f);
  }

  lemma HeadOfPrefix(b: seq<byte>, f: Frame)
    requires b <= EncodeFrame(f) && |b| >= HEADER
    ensures b[..HEADER] == Header(f) && ReadU32(b, 16) == ReadU32(Header(f), 16)
    ensures |EncodeFrame(f)| == HEADER + |f.payload|
    ensures |b| == |EncodeFrame(f)| ==> b == EncodeFrame(f) && b[HEADER..] == f.payload
  {
    hide Header;
    assert forall i | 0 <= i < HEADER :: b[i] == Header(f)[i];
  }

  /** The reader is done exactly when it has the whole frame, and then takes it for what it is. */
  lemma WantOfPrefix(b: seq<byte>, f: Frame)
    requires Sized(f) && b <= EncodeFrame(f)
    ensures Want(b) == 0 <==> b == EncodeFrame(f)
    ensures Want(b) == 0 ==> GoodHeader(b[..HEADER]) && Decode(b[..HEADER], b[HEADER..]) == f
  {
    HeaderFields(f);
    hide Header, Decode, GoodHeader, ReadU32, EncodeFrame;
    if |b| >= HEADER {
      HeadOfPrefix(b, f);
    } else {
      FrameLength(f);
    }
  }

  // ----- one process

  /**
  What holds of every process, whoever abandoned it when: it took whole requests,
  in order, and the rest of its input is part of the next.
  */
  predicate ProcOk(q: Proc) {
    && |q.taken| <= |q.sent| <= |q.taken| + 1
    && (forall i | 0 <= i < |q.sent| :: Sized(q.sent[i].frame) && q.sent[i].frame.kind == KIND_REQUEST)
    && (forall i | 0 <= i < |q.taken| :: q.taken[i] == q.sent[i].frame)
    && q.inbuf <= if |q.sent| == |q.taken| then [] else EncodeFrame(q.sent[|q.taken|].frame)
  }

  /** Nothing unanswered, nothing unread, nothing half written. */
  predicate AtRest(q: Proc) {
    |q.sent| == |q.taken| && q.inbuf == [] && q.outq == [] && q.outbuf == []
  }

  /** `off` bytes of the frame are written, and nothing else is under way. */
  predicate InWrite(q: Proc, m: Sent, off: nat) {
    if off == 0 then AtRest(q)
    else
      && |q.sent| == |q.taken| + 1 && q.sent[|q.taken|] == m
      && off < |EncodeFrame(m.frame)| && q.inbuf == EncodeFrame(m.frame)[..off]
      && q.outq == [] && q.outbuf == []
  }

  /** The frame is written; its answer is not begun, or split between reader, pipe and process. */
  predicate InRead(h: Handler, q: Proc, m: Sent, got: seq<byte>) {
    && 0 < |q.sent| && q.sent[|q.sent| - 1] == m
    && (|| (|q.sent| == |q.taken| + 1 && q.inbuf == EncodeFrame(m.frame) && got == [] && q.outq == [] && q.outbuf == [])
        || (|q.sent| == |q.taken| && q.inbuf == []
            && got + q.outbuf + q.outq == EncodeFrame(Respond(m.frame, h(q.taken)))))
  }

  predicate CanDispatch(q: Proc) {
    q.alive && q.outq == [] && Front(q.inbuf).Some? && !Shutdown(Front(q.inbuf).value)
  }

  /** A process with a whole request takes that request, and its input is empty again. */
  lemma DispatchTakes(h: Handler, q: Proc)
    requires ProcOk(q) && CanDispatch(q)
    ensures |q.sent| == |q.taken| + 1
    ensures var f := q.sent[|q.taken|].frame;
      && q.inbuf == EncodeFrame(f) && Answered(f)
      && Serve(h, q)
        == q.(taken := q.taken + [f], inbuf := [], outq := EncodeFrame(Respond(f, h(q.taken + [f]))))
  {
    assert Front([]).None?;
    var f := q.sent[|q.taken|].frame;
    FrontOfPrefix(q.inbuf, f);
    FrameLength(f);
    assert q.inbuf[HEADER + |f.payload|..] == [];
  }

  lemma DispatchKeeps(h: Handler, q: Proc)
    requires ProcOk(q) && CanDispatch(q)
    ensures ProcOk(Serve(h, q)) && !AtRest(q)
    ensures forall m, off | InWrite(q, m, off) :: false
    ensures forall m, got | InRead(h, q, m, got) :: InRead(h, Serve(h, q), m, got)
  {
    DispatchTakes(h, q);
    hide EncodeFrame, Respond, Front;
    var r := Serve(h, q);
    var e := EncodeFrame(Respond(q.sent[|q.taken|].frame, h(r.taken)));
    assert [] + [] + e == e;
  }

  // ----- the thread at work on one

  predicate Exchanging(pc: Pc) { pc.Writing? || pc.Reading? }

  /** A thread in an exchange has its process where it left it. */
  predicate Busy(cfg: Config, s: State, t: nat) {
    && t < |s.threads|
    && var pc := s.threads[t].pc;
      Exchanging(pc) ==>
        && pc.p < |s.procs| && (pc.job.Request? ==> InCall(s, t))
        && var q, m := s.procs[pc.p], SentOf(s, t, pc.job);
           if pc.Writing? then InWrite(q, m, pc.off) else InRead(cfg.handlers(pc.p), q, m, pc.got)
  }

  /** Out of an exchange, the process in the slot is at rest. */
  predicate Rested(s: State, pc: Pc) {
    s.slot.Some? && !Exchanging(pc) ==> s.slot.value < |s.procs| && AtRest(s.procs[s.slot.value])
  }

  /** A thread's step starts a process, or changes the one it exchanges with, or none. */
  predicate ProcsChange(s: State, r: State, pc: Pc) {
    || r.procs == s.procs
    || r.procs == s.procs + [NEW_PROC]
    || (Exchanging(pc) && pc.p < |s.procs| == |r.procs| && r.procs == s.procs[pc.p := r.procs[pc.p]]
        && (ProcOk(s.procs[pc.p]) ==> ProcOk(r.procs[pc.p])))
  }

  /** What a thread may count on: only under a foreign lock may the slot's process be at work. */
  predicate Piped(cfg: Config, s: State, t: nat) {
    Busy(cfg, s, t) && (s.lock.None? || InLock(s.threads[t].pc) ==> Rested(s, s.threads[t].pc))
  }

  predicate PipedEffect(cfg: Config, s: State, r: State, t: nat) {
    && t < |s.threads| == |r.threads|
    && Piped(cfg, r, t)
    && (s.lock.None? || InLock(s.threads[t].pc) ==> Rested(r, r.threads[t].pc))
    && ProcsChange(s, r, s.threads[t].pc)
    && (r.procs == s.procs || InLock(s.threads[t].pc))
  }

  lemma BeginPiped(cfg: Config, s: State, a: Action, t: nat)
    requires Piped(cfg, s, t) && Control(s, t) && Enabled(s, a) && Actor(a) == Some(t)
    requires a.Begin? || a.BeginStart? || a.BeginRestart? || a.SpawnFails?
    ensures PipedEffect(cfg, s, Next(cfg, s, a), t)
  {
    hide StepOf, MoveOf, FailOf, CanMove, CanStep, CanFail, InWrite, InRead, AtRest;
  }

  lemma QueuePiped(cfg: Config, s: State, t: nat)
    requires Piped(cfg, s, t) && Control(s, t) && CanStep(s, t) && InQueue(s.threads[t].pc)
    ensures PipedEffect(cfg, s, QueueStep(cfg, s, t), t)
  {
    hide InWrite, InRead, AtRest;
  }

  lemma BooksPiped(cfg: Config, s: State, t: nat)
    requires Piped(cfg, s, t) && Control(s, t) && CanStep(s, t) && InBooks(s.threads[t].pc)
    ensures PipedEffect(cfg, s, BooksStep(s, t), t)
  {
    hide InWrite, InRead, AtRest;
  }

  lemma SlotPiped(cfg: Config, s: State, t: nat)
    requires Piped(cfg, s, t) && Control(s, t) && CanStep(s, t) && InSlot(s.threads[t].pc)
    ensures PipedEffect(cfg, s, SlotStep(s, t), t)
  {
    hide InRead;
  }

  lemma StartPiped(cfg: Config, s: State, t: nat)
    requires Piped(cfg, s, t) && Control(s, t) && CanStep(s, t) && InStart(s.threads[t].pc)
    ensures PipedEffect(cfg, s, StartStep(s, t), t)
  {
    hide InRead;
  }

  lemma RestartPiped(cfg: Config, s: State, t: nat)
    requires Piped(cfg, s, t) && Control(s, t) && CanStep(s, t) && InRestart(s.threads[t].pc)
    ensures PipedEffect(cfg, s, RestartStep(s, t), t)
  {
    hide InRead;
  }

  lemma DropPiped(cfg: Config, s: State, t: nat)
    requires Piped(cfg, s, t) && Control(s, t) && Grounded(s, t) && Exchanging(s.threads[t].pc)
    ensures PipedEffect(cfg, s, Drop(s, t, s.threads[t].pc.job, s.threads[t].pc.p), t)
  {
    hide InRead, InWrite, AtRest;
  }

  lemma GiveUpPiped(cfg: Config, s: State, t: nat)
    requires Piped(cfg, s, t) && Control(s, t) && CanFail(s, t) && !Exchanging(s.threads[t].pc)
    ensures PipedEffect(cfg, s, GiveUp(s, t), t)
  {
    hide InRead, InWrite, AtRest;
  }

  /** A reader that has all it asked for has exactly the answer to its own request, and left nothing behind. */
  lemma AnswerRead(h: Handler, q: Proc, m: Sent, got: seq<byte>)
    requires InRead(h, q, m, got) && Want(got) == 0
    requires |h(q.taken).body| < U32_SIZE
    ensures AtRest(q)
    ensures |got| >= HEADER && GoodHeader(got[..HEADER])
    ensures Decode(got[..HEADER], got[HEADER..]) == Respond(m.frame, h(q.taken))
  {
    assert Want([]) == HEADER;
    var a := Respond(m.frame, h(q.taken));
    hide Respond, Want, Decode, GoodHeader;
    assert got <= got + q.outbuf + q.outq;
    WantOfPrefix(got, a);
    FrameLength(a);
  }

  lemma AnswerAccepted(h: Handler, q: Proc, m: Sent, job: Job, got: seq<byte>)
    requires InRead(h, q, m, got) && Want(got) == 0
    requires |h(q.taken).body| < U32_SIZE
    ensures AtRest(q) && Accepts(m.frame, job, got)
    ensures Decode(got[..HEADER], got[HEADER..]) == Respond(m.frame, h(q.taken))
  {
    AnswerRead(h, q, m, got);
    hide Respond, Want, Decode, GoodHeader, InRead, AtRest;
  }

  lemma FinishPiped(cfg: Config, s: State, t: nat)
    requires Conforming(cfg) && Calling(s, t)
    requires Piped(cfg, s, t) && Control(s, t) && CanStep(s, t) && s.threads[t].pc.Reading?
    ensures PipedEffect(cfg, s, Finish(s, t, s.threads[t].pc.job, s.threads[t].pc.p, s.threads[t].pc.got), t)
  {
    hide InRead, Accepts, Want, Drop;
    var pc := s.threads[t].pc;
    var h, q := cfg.handlers(pc.p), s.procs[pc.p];
    AnswerAccepted(h, q, SentOf(s, t, pc.job), pc.job, pc.got);
    hide AtRest;
  }

  // ----- bytes on the move

  /** More of the request goes in. */
  lemma WriteMore(q: Proc, m: Sent, off: nat, n: nat, r: Proc)
    requires ProcOk(q) && InWrite(q, m, off) && n > 0 && Sized(m.frame) && m.frame.kind == KIND_REQUEST
    requires var bytes := EncodeFrame(m.frame);
      && off + n <= |bytes|
      && r == q.(inbuf := q.inbuf + bytes[off..off + n], sent := if off == 0 then q.sent + [m] else q.sent)
    ensures ProcOk(r)
    ensures off + n < |EncodeFrame(m.frame)| ==> InWrite(r, m, off + n)
    ensures forall h :: off + n == |EncodeFrame(m.frame)| ==> InRead(h, r, m, [])
  {
    hide EncodeFrame, Respond;
    var bytes := EncodeFrame(m.frame);
    assert bytes[..off] + bytes[off..off + n] == bytes[..off + n];
    assert bytes[..|bytes|] == bytes;
    assert off == 0 ==> bytes[..off] == [];
  }

  /** More of the answer comes out. */
  lemma ReadMore(h: Handler, q: Proc, m: Sent, got: seq<byte>, n: nat)
    requires ProcOk(q) && InRead(h, q, m, got) && 0 < n <= |q.outbuf|
    ensures var r := q.(outbuf := q.outbuf[n..]);
      ProcOk(r) && InRead(h, r, m, got + q.outbuf[..n])
  {
    hide EncodeFrame, Respond;
    assert got + q.outbuf[..n] + q.outbuf[n..] == got + q.outbuf;
  }

  lemma MovePiped(cfg: Config, s: State, t: nat, n: nat)
    requires Piped(cfg, s, t) && Control(s, t) && CanMove(s, t, n) && ProcOk(s.procs[s.threads[t].pc.p])
    ensures PipedEffect(cfg, s, MoveOf(s, t, n), t)
  {
    hide InWrite, InRead, EncodeFrame, Want, ProcOk, AtRest;
    var pc, r := s.threads[t].pc, MoveOf(s, t, n);
    var q, m := s.procs[pc.p], SentOf(s, t, pc.job);
    if pc.Writing? {
      WriteMore(q, m, pc.off, n, r.procs[pc.p]);
      assert SentOf(r, t, pc.job) == m;
      assert r.procs == s.procs[pc.p := r.procs[pc.p]];
    } else {
      ReadMore(cfg.handlers(pc.p), q, m, pc.got, n);
    }
  }

  // ----- the invariant

  ghost predicate AllPiped(cfg: Config, s: State) {
    && (forall p | 0 <= p < |s.procs| :: ProcOk(s.procs[p]))
    && (s.lock.None? && s.slot.Some? ==> s.slot.value < |s.procs| && AtRest(s.procs[s.slot.value]))
    && forall t | 0 <= t < |s.threads| :: Piped(cfg, s, t)
  }

  lemma PipedStep(cfg: Config, s: State, a: Action, t: nat)
    requires Conforming(cfg) && AllPiped(cfg, s) && Locking(s) && Owned(s)
    requires Enabled(s, a) && Actor(a) == Some(t)
    ensures PipedEffect(cfg, s, Next(cfg, s, a), t)
  {
    hide Piped, PipedEffect, Control, Calling, QueueStep, BooksStep, SlotStep, StartStep, RestartStep, Finish,
      MoveOf, GiveUp, Drop, SetPc,
      ProcOk, AtRest, Want, EncodeFrame;
    match a
    case Step(_) =>
      if InQueue(s.threads[t].pc) {
        QueuePiped(cfg, s, t);
      } else if InBooks(s.threads[t].pc) {
        BooksPiped(cfg, s, t);
      } else if InSlot(s.threads[t].pc) {
        SlotPiped(cfg, s, t);
      } else if s.threads[t].pc.Reading? {
        FinishPiped(cfg, s, t);
      } else if InStart(s.threads[t].pc) {
        StartPiped(cfg, s, t);
      } else {
        RestartPiped(cfg, s, t);
      }
    case Move(_, n) => MovePiped(cfg, s, t, n);
    case Fail(_) =>
      if Exchanging(s.threads[t].pc) {
        DropPiped(cfg, s, t);
      } else {
        GiveUpPiped(cfg, s, t);
      }
    case _ => BeginPiped(cfg, s, a, t);
  }

  lemma OthersPiped(cfg: Config, s: State, r: State, t: nat, u: nat)
    requires Control(s, t) && Control(s, u) && u != t && Calling(s, u)
    requires ControlEffect(s, r, t) && CallingEffect(s, r, t) && PipedEffect(cfg, s, r, t)
    requires OthersCall(s, r, t, u)
    requires Piped(cfg, s, u)
    ensures Piped(cfg, r, u)
  {
    hide Slotted, InWrite, InRead, ProcOk, Recorded, CallsChange;
  }

  /** A call in the hands of another thread stays as it is. */
  predicate OthersCall(s: State, r: State, t: nat, u: nat) {
    && u < |s.threads| == |r.threads|
    && (InCall(s, u) ==>
          && r.threads[u].call == s.threads[u].call && InCall(r, u)
          && RequestOf(r.calls[r.threads[u].call.value]) == RequestOf(s.calls[s.threads[u].call.value]))
  }

  lemma OthersCallKept(s: State, r: State, t: nat, u: nat)
    requires Control(s, t) && Control(s, u) && u != t && Calling(s, t) && Calling(s, u)
    requires ControlEffect(s, r, t) && CallingEffect(s, r, t)
    ensures OthersCall(s, r, t, u)
  {
    hide Slotted, Recorded, CallPc;
  }

  lemma ActorPiped(cfg: Config, s: State, r: State, t: nat)
    requires AllPiped(cfg, s) && Control(s, t) && ControlEffect(s, r, t) && PipedEffect(cfg, s, r, t)
    ensures |r.threads| == |s.threads| && Piped(cfg, r, t)
    ensures forall p | 0 <= p < |r.procs| :: ProcOk(r.procs[p])
    ensures r.lock.None? && r.slot.Some? ==> r.slot.value < |r.procs| && AtRest(r.procs[r.slot.value])
  {
    assert ProcOk(NEW_PROC);
    hide Slotted, InWrite, InRead, ProcOk, AtRest, Busy;
  }

  /** What a process does on its own leaves a finished exchange finished, and moves an unfinished one along. */
  lemma ProcessMoves(cfg: Config, s: State, a: Action)
    requires Enabled(s, a) && Actor(a).None?
    ensures a.p < |s.procs| && a.p < |Next(cfg, s, a).procs|
    ensures var h, q, r := cfg.handlers(a.p), s.procs[a.p], Next(cfg, s, a).procs[a.p];
      ProcOk(q) ==>
        && ProcOk(r)
        && (AtRest(q) ==> AtRest(r))
        && (forall m, off | InWrite(q, m, off) :: InWrite(r, m, off))
        && (forall m, got | InRead(h, q, m, got) :: InRead(h, r, m, got))
  {
    hide Front, Shutdown, EncodeFrame, Respond, Serve;
    var h, q, r := cfg.handlers(a.p), s.procs[a.p], Next(cfg, s, a).procs[a.p];
    if ProcOk(q) {
      match a
      case Dispatch(_) => DispatchKeeps(h, q);
      case Emit(_, n) => EmitKeeps(h, q, n);
      case Kill(_) =>
    }
  }

  lemma EmitKeeps(h: Handler, q: Proc, n: nat)
    requires ProcOk(q) && 0 < n <= |q.outq|
    ensures var r := q.(outq := q.outq[n..], outbuf := q.outbuf + q.outq[..n]);
      && ProcOk(r) && !AtRest(q)
      && (forall m, off | InWrite(q, m, off) :: InWrite(r, m, off))
      && (forall m, got | InRead(h, q, m, got) :: InRead(h, r, m, got))
  {
    hide EncodeFrame, Respond;
    var r := q.(outq := q.outq[n..], outbuf := q.outbuf + q.outq[..n]);
    forall got: seq<byte> ensures got + r.outbuf + r.outq == got + q.outbuf + q.outq {
      assert q.outq == q.outq[..n] + q.outq[n..];
    }
  }

  lemma ProcessPiped(cfg: Config, s: State, r: State, p: nat, u: nat)
    requires p < |s.procs| == |r.procs| && r == s.(procs := s.procs[p := r.procs[p]])
    requires ProcOk(s.procs[p]) && Piped(cfg, s, u)
    requires AtRest(s.procs[p]) ==> AtRest(r.procs[p])
    requires forall m, off | InWrite(s.procs[p], m, off) :: InWrite(r.procs[p], m, off)
    requires forall m, got | InRead(cfg.handlers(p), s.procs[p], m, got) :: InRead(cfg.handlers(p), r.procs[p], m, got)
    ensures Piped(cfg, r, u)
  {
    hide InWrite, InRead, AtRest, ProcOk;
  }

  lemma PipedKept(cfg: Config, s: State, a: Action)
    requires Conforming(cfg) && AllPiped(cfg, s) && Locking(s) && Owned(s) && Enabled(s, a)
    ensures AllPiped(cfg, Next(cfg, s, a))
  {
    hide Enabled, Next, Control, ControlEffect, Calling, CallingEffect, Piped, PipedEffect, Conforming, ProcOk,
      AtRest, OthersCall,
      InWrite, InRead;
    var r := Next(cfg, s, a);
    if Actor(a).Some? {
      var t := Actor(a).value;
      ActorThere(s, a, t);
      ControlStep(cfg, s, a, t);
      CallingStep(cfg, s, a, t);
      PipedStep(cfg, s, a, t);
      ActorPiped(cfg, s, r, t);
      forall u: nat | u < |r.threads| ensures Piped(cfg, r, u) {
        if u != t {
          OthersCallKept(s, r, t, u);
          OthersPiped(cfg, s, r, t, u);
        }
      }
    } else {
      ProcessStep(cfg, s, a);
      ProcessMoves(cfg, s, a);
      forall u: nat | u < |r.threads| ensures Piped(cfg, r, u) {
        ProcessPiped(cfg, s, r, a.p, u);
      }
    }
  }
}
