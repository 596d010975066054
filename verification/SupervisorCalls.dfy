/**
What every step of the supervisor keeps about calls: each call's frame goes to one
process at most, and an answer is that process's answer to it.
*/
module SupervisorCalls {
  import opened Bytes
  import opened Frames
  import opened WorkerLoop
  import opened Supervisor
  import opened SupervisorLocks
  import opened SupervisorPipes

  /** The spot a call remembers is where its request stands. */
  predicate SpotOk(s: State, k: nat) {
    && k < |s.calls|
    && var c := s.calls[k];
    c.spot.Some? ==>
      && c.spot.value.0 < |s.procs|
      && c.spot.value.1 < |s.procs[c.spot.value.0].sent|
      && s.procs[c.spot.value.0].sent[c.spot.value.1] == Sent(CallTag(k), RequestOf(c))
  }

  /** And no other place holds a request of that call. */
  predicate TagOk(s: State, p: nat, i: nat) {
    && p < |s.procs| && i < |s.procs[p].sent|
    && var m := s.procs[p].sent[i];
    m.tag.CallTag? ==> m.tag.k < |s.calls| && s.calls[m.tag.k].spot == Some((p, i))
  }

  /**
  A call that got an answer got it from the process its frame went to, which took
  exactly that frame at that point and answered just that.
  */
  predicate ResultOk(cfg: Config, s: State, k: nat) {
    && k < |s.calls|
    && var c := s.calls[k];
    c.result.Some? && c.result.value.Done? ==>
      && c.spot.Some?
      && var (p, i) := c.spot.value;
      && p < |s.procs| && i < |s.procs[p].taken|
      && s.procs[p].taken[i] == RequestOf(c)
      && c.result.value.frame == Respond(RequestOf(c), cfg.handlers(p)(s.procs[p].taken[..i + 1]))
  }

  ghost predicate Attributed(cfg: Config, s: State) {
    && (forall k: nat | k < |s.calls| :: SpotOk(s, k) && ResultOk(cfg, s, k))
    && (forall p: nat, i: nat | p < |s.procs| && i < |s.procs[p].sent| :: TagOk(s, p, i))
  }

  // ----- steps that write nothing

  /** The reader's whole answer. */
  predicate Answer(pc: Pc, r: Option<Result>) {
    && pc.Reading? && pc.job.Request? && Want(pc.got) == 0 && |pc.got| >= HEADER
    && r == Some(Done(Decode(pc.got[..HEADER], pc.got[HEADER..])))
  }

  /** No request is committed; the thread's own call may get a result. */
  predicate Quiet(s: State, r: State, t: nat) {
    && t < |s.threads|
    && (r.procs == s.procs || r.procs == s.procs + [NEW_PROC])
    && (|| r.calls == s.calls
        || (|r.calls| == |s.calls| + 1 && r.calls[..|s.calls|] == s.calls
            && r.calls[|s.calls|].spot.None? && r.calls[|s.calls|].result.None?)
        || (InCall(s, t) && |r.calls| == |s.calls|
            && var k := s.threads[t].call.value;
            && r.calls == s.calls[k := s.calls[k].(result := r.calls[k].result)]
            && (r.calls[k].result == Some(Failed) || Answer(s.threads[t].pc, r.calls[k].result))))
  }

  lemma BeginQuiet(cfg: Config, s: State, a: Action, t: nat)
    requires Enabled(s, a) && Actor(a) == Some(t)
    requires a.Begin? || a.BeginStart? || a.BeginRestart? || a.SpawnFails?
    ensures Quiet(s, Next(cfg, s, a), t)
  {
    hide StepOf, MoveOf, FailOf, CanMove, CanStep, CanFail, Answer;
  }

  /** Every step of a thread but the end of an exchange. */
  lemma StepQuiet(cfg: Config, s: State, t: nat)
    requires CanStep(s, t) && !s.threads[t].pc.Reading?
    ensures Quiet(s, StepOf(cfg, s, t), t)
  {
    hide Finish, Accepts, Want, Answer;
  }

  lemma DropQuiet(s: State, t: nat)
    requires Grounded(s, t) && Exchanging(s.threads[t].pc)
    ensures Quiet(s, Drop(s, t, s.threads[t].pc.job, s.threads[t].pc.p), t)
  {
    hide Answer;
  }

  lemma GiveUpQuiet(s: State, t: nat)
    requires CanFail(s, t) && !Exchanging(s.threads[t].pc)
    ensures Quiet(s, GiveUp(s, t), t)
  {
    hide Answer;
  }

  lemma FinishQuiet(s: State, t: nat)
    requires CanStep(s, t) && s.threads[t].pc.Reading?
    ensures Quiet(s, Finish(s, t, s.threads[t].pc.job, s.threads[t].pc.p, s.threads[t].pc.got), t)
  {
    hide Want, Drop;
    DropQuiet(s, t);
  }

  lemma QuietStep(cfg: Config, s: State, a: Action, t: nat)
    requires Enabled(s, a) && Actor(a) == Some(t) && !a.Move?
    ensures Quiet(s, Next(cfg, s, a), t)
  {
    hide Quiet, QueueStep, BooksStep, SlotStep, StartStep, RestartStep, Finish, MoveOf, GiveUp, Drop, SetPc, Want,
      EncodeFrame;
    match a
    case Step(_) =>
      if s.threads[t].pc.Reading? {
        FinishQuiet(s, t);
      } else {
        StepQuiet(cfg, s, t);
      }
    case Fail(_) =>
      if Exchanging(s.threads[t].pc) {
        DropQuiet(s, t);
      } else {
        GiveUpQuiet(s, t);
      }
    case _ => BeginQuiet(cfg, s, a, t);
  }

  // ----- attribution, step by step

  /** Processes only ever send and take more; calls keep their requests and spots. */
  ghost predicate Grown(s: State, r: State) {
    && |s.procs| <= |r.procs| && |s.calls| <= |r.calls|
    && (forall p | 0 <= p < |s.procs| :: r.procs[p].sent == s.procs[p].sent && s.procs[p].taken <= r.procs[p].taken)
    && (forall p | |s.procs| <= p < |r.procs| :: r.procs[p].sent == [])
    && (forall k | 0 <= k < |s.calls| :: r.calls[k] == s.calls[k].(result := r.calls[k].result))
    && (forall k | |s.calls| <= k < |r.calls| :: r.calls[k].spot.None?)
  }

  lemma GrownSpot(cfg: Config, s: State, r: State, k: nat)
    requires Grown(s, r) && SpotOk(s, k)
    ensures SpotOk(r, k)
    ensures r.calls[k].result == s.calls[k].result && ResultOk(cfg, s, k) ==> ResultOk(cfg, r, k)
  {
    hide Respond;
    if s.calls[k].spot.Some? {
      var (p, i) := s.calls[k].spot.value;
      assert r.procs[p].sent == s.procs[p].sent;
      if i < |s.procs[p].taken| {
        assert r.procs[p].taken[..i + 1] == s.procs[p].taken[..i + 1];
      }
    }
  }

  lemma GrownTag(s: State, r: State, p: nat, i: nat)
    requires Grown(s, r) && p < |r.procs| && i < |r.procs[p].sent|
    requires p < |s.procs| && i < |s.procs[p].sent| ==> TagOk(s, p, i)
    ensures TagOk(r, p, i)
  {
  }

  /** A whole answer is the answer to the reader's own call. */
  lemma AnswerIsOwn(cfg: Config, s: State, t: nat, f: Frame)
    requires Conforming(cfg) && Piped(cfg, s, t) && InCall(s, t) && Attributed(cfg, s)
    requires Answer(s.threads[t].pc, Some(Done(f)))
    requires s.threads[t].pc.p < |s.procs| && ProcOk(s.procs[s.threads[t].pc.p])
    ensures var k := s.threads[t].call.value;
      && s.calls[k].spot.Some?
      && var (p, i) := s.calls[k].spot.value;
      && p < |s.procs| && i < |s.procs[p].taken| && s.procs[p].taken[i] == RequestOf(s.calls[k])
      && f == Respond(RequestOf(s.calls[k]), cfg.handlers(p)(s.procs[p].taken[..i + 1]))
  {
    hide Want, Respond, AtRest;
    var pc := s.threads[t].pc;
    var h, q, m := cfg.handlers(pc.p), s.procs[pc.p], SentOf(s, t, pc.job);
    AnswerRead(h, q, m, pc.got);
    var i := |q.sent| - 1;
    assert TagOk(s, pc.p, i);
    assert q.taken[..i + 1] == q.taken;
  }

  lemma QuietKept(cfg: Config, s: State, r: State, t: nat)
    requires Conforming(cfg) && AllPiped(cfg, s) && Attributed(cfg, s)
    requires t < |s.threads| && Quiet(s, r, t)
    ensures Attributed(cfg, r)
  {
    hide TagOk, SpotOk, Answer, Conforming, ProcOk, AtRest, Respond;
    forall p: nat, i: nat | p < |r.procs| && i < |r.procs[p].sent| ensures TagOk(r, p, i) {
      GrownTag(s, r, p, i);
    }
    forall k: nat | k < |r.calls| ensures SpotOk(r, k) && ResultOk(cfg, r, k) {
      if k < |s.calls| {
        GrownSpot(cfg, s, r, k);
        if r.calls[k].result != s.calls[k].result {
          OwnResult(cfg, s, r, t, k);
        }
      } else {
        FreshCall(cfg, s, r, t, k);
      }
    }
  }

  lemma FreshCall(cfg: Config, s: State, r: State, t: nat, k: nat)
    requires Quiet(s, r, t) && |s.calls| <= k < |r.calls|
    ensures SpotOk(r, k) && ResultOk(cfg, r, k)
  {
    hide Answer;
  }

  lemma OwnResult(cfg: Config, s: State, r: State, t: nat, k: nat)
    requires Conforming(cfg) && AllPiped(cfg, s) && Attributed(cfg, s)
    requires t < |s.threads| && Quiet(s, r, t)
    requires k < |s.calls| && k < |r.calls| && r.calls[k].result != s.calls[k].result
    ensures ResultOk(cfg, r, k)
  {
    hide SpotOk, Conforming, ProcOk, AtRest, Respond, Answer, InRead, InWrite, Want;
    assert |r.calls| >= |s.calls|;
    assert forall j | 0 <= j < |s.calls| :: r.calls[..|s.calls|][j] == r.calls[j];
    assert InCall(s, t) && k == s.threads[t].call.value;
    assert Piped(cfg, s, t);
    if r.calls[k].result != Some(Failed) {
      ReaderGrounded(s, t, r.calls[k].result, cfg);
      var p := s.threads[t].pc.p;
      assert ProcOk(s.procs[p]);
      AnswerIsOwn(cfg, s, t, r.calls[k].result.value.frame);
    }
  }

  lemma ReaderGrounded(s: State, t: nat, x: Option<Result>, cfg: Config)
    requires Piped(cfg, s, t) && Answer(s.threads[t].pc, x)
    ensures x.Some? && x.value.Done? && s.threads[t].pc.Reading? && s.threads[t].pc.p < |s.procs|
  {
  }

  // ----- the step that commits

  /** A request is sent to a process under its tag, and its call, if any, remembers where. */
  predicate Commits(s: State, r: State, p: nat, m: Sent) {
    && p < |s.procs| == |r.procs|
    && r.procs == s.procs[p := r.procs[p]]
    && r.procs[p].sent == s.procs[p].sent + [m] && r.procs[p].taken == s.procs[p].taken
    && match m.tag
       case ProbeTag => r.calls == s.calls
       case CallTag(k) =>
         && k < |s.calls| && m.frame == RequestOf(s.calls[k])
         && s.calls[k].spot.None? && s.calls[k].result.None?
         && r.calls == s.calls[k := s.calls[k].(spot := Some((p, |s.procs[p].sent|)))]
  }

  lemma CommitTag(s: State, r: State, p: nat, m: Sent, x: nat, i: nat)
    requires Commits(s, r, p, m) && x < |r.procs| && i < |r.procs[x].sent|
    requires i < |s.procs[x].sent| ==> TagOk(s, x, i)
    ensures TagOk(r, x, i)
  {
  }

  lemma CommitSpot(cfg: Config, s: State, r: State, p: nat, m: Sent, k: nat)
    requires Commits(s, r, p, m) && k < |s.calls| && SpotOk(s, k) && ResultOk(cfg, s, k)
    ensures SpotOk(r, k) && ResultOk(cfg, r, k)
  {
    hide Respond;
  }

  lemma CommitKept(cfg: Config, s: State, r: State, p: nat, m: Sent)
    requires Commits(s, r, p, m) && Attributed(cfg, s)
    ensures Attributed(cfg, r)
  {
    hide TagOk, SpotOk, ResultOk;
    forall x: nat, i: nat | x < |r.procs| && i < |r.procs[x].sent| ensures TagOk(r, x, i) {
      CommitTag(s, r, p, m, x, i);
    }
    forall k: nat | k < |r.calls| ensures SpotOk(r, k) && ResultOk(cfg, r, k) {
      CommitSpot(cfg, s, r, p, m, k);
    }
  }

  lemma FirstWrite(s: State, t: nat, n: nat)
    requires Calling(s, t) && CanMove(s, t, n) && s.threads[t].pc.Writing? && s.threads[t].pc.off == 0
    ensures var pc := s.threads[t].pc; Commits(s, MoveOf(s, t, n), pc.p, SentOf(s, t, pc.job))
  {
    hide EncodeFrame, Want, Recorded;
  }

  lemma LaterMove(s: State, t: nat, n: nat)
    requires CanMove(s, t, n) && !(s.threads[t].pc.Writing? && s.threads[t].pc.off == 0)
    ensures Grown(s, MoveOf(s, t, n)) && MoveOf(s, t, n).calls == s.calls && |MoveOf(s, t, n).procs| == |s.procs|
  {
    hide EncodeFrame, Want;
  }

  lemma GrownKept(cfg: Config, s: State, r: State)
    requires Grown(s, r) && r.calls == s.calls && |r.procs| == |s.procs| && Attributed(cfg, s)
    ensures Attributed(cfg, r)
  {
    hide TagOk, SpotOk, ResultOk;
    forall p: nat, i: nat | p < |r.procs| && i < |r.procs[p].sent| ensures TagOk(r, p, i) {
      GrownTag(s, r, p, i);
    }
    forall k: nat | k < |r.calls| ensures SpotOk(r, k) && ResultOk(cfg, r, k) {
      GrownSpot(cfg, s, r, k);
    }
  }

  lemma AttributedKept(cfg: Config, s: State, a: Action)
    requires Conforming(cfg) && Owned(s) && AllPiped(cfg, s) && Attributed(cfg, s) && Enabled(s, a)
    ensures Attributed(cfg, Next(cfg, s, a))
  {
    hide Enabled, Calling, AllPiped, Attributed, Quiet, Commits, Grown, MoveOf, CanMove, Conforming, StepOf,
      FailOf, Serve;
    var r := Next(cfg, s, a);
    if Actor(a).None? {
      ProcessStep(cfg, s, a);
      ProcessGrows(s, r, a.p);
      GrownKept(cfg, s, r);
    } else {
      var t := Actor(a).value;
      ActorThere(s, a, t);
      if !a.Move? {
        QuietStep(cfg, s, a, t);
        QuietKept(cfg, s, r, t);
      } else {
        MoveGrounded(s, a);
        assert Calling(s, t);
        var pc := s.threads[t].pc;
        if pc.Writing? && pc.off == 0 {
          FirstWrite(s, t, a.n);
          CommitKept(cfg, s, r, pc.p, SentOf(s, t, pc.job));
        } else {
          LaterMove(s, t, a.n);
          GrownKept(cfg, s, r);
        }
      }
    }
  }

  lemma MoveGrounded(s: State, a: Action)
    requires Enabled(s, a) && a.Move?
    ensures CanMove(s, a.t, a.n) && Grounded(s, a.t)
    ensures var pc := s.threads[a.t].pc; Exchanging(pc) && (pc.job.Request? ==> InCall(s, a.t))
  {
    hide EncodeFrame, Want;
  }

  lemma ProcessGrows(s: State, r: State, p: nat)
    requires p < |s.procs| == |r.procs| && r == s.(procs := s.procs[p := r.procs[p]])
    requires r.procs[p].sent == s.procs[p].sent && s.procs[p].taken <= r.procs[p].taken
    ensures Grown(s, r)
  {
  }
}
