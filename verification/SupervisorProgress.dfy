/** Every call comes to its result: it can always go on, and cannot go on for ever. */
module SupervisorProgress {
  import opened Bytes
  import opened Frames
  import opened WorkerLoop
  import opened Supervisor
  import opened SupervisorLocks
  import opened SupervisorPlaces
  import opened SupervisorPipes
  import opened SupervisorCalls
  import opened SupervisorLaws

  /**
  Whatever the processes and the other threads do, a call can take a step of its own,
  if only to give up.
  */
  lemma CallCanGoOn(cfg: Config, s: State, acts: seq<Action>, r: State, t: nat)
    requires Reachable(cfg, s, acts, r) && !r.exited && InCall(r, t)
    ensures Enabled(r, Step(t)) || Enabled(r, Fail(t))
  {
    hide Reachable, Inv, Enabled;
    ReachableInv(cfg, s, acts, r);
    OwnStep(cfg, r, t);
  }

  /** How far a call is from its end: its stage, the part of an exchange it is in, and the bytes of that part. */
  function Stage(pc: Pc): nat {
    match pc
    case Asking => 12
    case Admitted => 11
    case Waiting => 10
    case Entered => 9
    case Uncounted => 8
    case Looking => 7
    case Polling => 5
    case Leaving => 1
    case Writing(job, _, _) => if job.Request? then 2 else if job.why == ForCall(true) then 6 else 4
    case Reading(job, _, _) => if job.Request? then 2 else if job.why == ForCall(true) then 6 else 4
    case _ => 0
  }

  function Part(pc: Pc): nat {
    match pc
    case Writing(_, _, _) => 2
    case Reading(_, _, got) => if |got| < HEADER then 1 else 0
    case _ => 0
  }

  function BytesLeft(s: State, t: nat): int
    requires InCall(s, t)
  {
    match s.threads[t].pc
    case Writing(job, _, off) => |EncodeFrame(FrameOf(s, t, job))| - off
    case Reading(_, _, got) => Want(got)
    case _ => 0
  }

  /** The call is nearer its end in `r` than in `s`. */
  predicate Nearer(s: State, r: State, t: nat)
    requires InCall(s, t) && InCall(r, t)
  {
    var a, b := s.threads[t].pc, r.threads[t].pc;
    || Stage(b) < Stage(a)
    || (Stage(b) == Stage(a) && Part(b) < Part(a))
    || (Stage(b) == Stage(a) && Part(b) == Part(a) && 0 <= BytesLeft(r, t) < BytesLeft(s, t))
  }

  /** The call goes on towards its end, or is over with a result, or the supervisor is. */
  predicate GoesOn(s: State, r: State, t: nat)
    requires InCall(s, t)
  {
    && t < |r.threads| && s.threads[t].call.value < |r.calls|
    && if r.threads[t].call == s.threads[t].call then r.exited || Nearer(s, r, t)
       else r.calls[s.threads[t].call.value].result.Some?
  }

  lemma QueueGoesOn(cfg: Config, s: State, t: nat)
    requires InCall(s, t) && CanStep(s, t) && InQueue(s.threads[t].pc)
    ensures GoesOn(s, QueueStep(cfg, s, t), t)
  {
    hide EncodeFrame, Want;
  }

  lemma BooksGoesOn(s: State, t: nat)
    requires InCall(s, t) && Calling(s, t) && CanStep(s, t) && InBooks(s.threads[t].pc)
    ensures GoesOn(s, BooksStep(s, t), t)
  {
    hide EncodeFrame, Want;
  }

  lemma SlotGoesOn(s: State, t: nat)
    requires InCall(s, t) && CanStep(s, t) && InSlot(s.threads[t].pc)
    ensures GoesOn(s, SlotStep(s, t), t)
  {
    hide EncodeFrame, Want;
  }

  lemma DropGoesOn(s: State, t: nat)
    requires InCall(s, t) && Calling(s, t) && Grounded(s, t) && Exchanging(s.threads[t].pc)
    ensures GoesOn(s, Drop(s, t, s.threads[t].pc.job, s.threads[t].pc.p), t)
  {
    hide EncodeFrame, Want;
  }

  lemma FinishGoesOn(s: State, t: nat)
    requires InCall(s, t) && Calling(s, t) && CanStep(s, t) && s.threads[t].pc.Reading?
    ensures GoesOn(s, Finish(s, t, s.threads[t].pc.job, s.threads[t].pc.p, s.threads[t].pc.got), t)
  {
    hide EncodeFrame, Want, Accepts, Drop;
    DropGoesOn(s, t);
  }

  lemma WantLess(got: seq<byte>, more: seq<byte>)
    requires 0 < |more| <= Want(got)
    ensures |got| < HEADER <= |got + more|
      || ((|got| < HEADER <==> |got + more| < HEADER) && Want(got + more) < Want(got))
  {
    if |got| >= HEADER {
      assert (got + more)[..HEADER] == got[..HEADER];
    }
  }

  lemma MoveGoesOn(s: State, t: nat, n: nat)
    requires InCall(s, t) && Calling(s, t) && CanMove(s, t, n)
    ensures GoesOn(s, MoveOf(s, t, n), t)
  {
    hide EncodeFrame, Want;
    var pc := s.threads[t].pc;
    if pc.Reading? {
      WantLess(pc.got, s.procs[pc.p].outbuf[..n]);
    } else {
      assert FrameOf(MoveOf(s, t, n), t, pc.job) == FrameOf(s, t, pc.job);
    }
  }

  /** Every step of its own, the last aside, brings a call nearer its end. */
  lemma OwnStepsEnd(cfg: Config, s: State, a: Action, t: nat)
    requires Owned(s) && Enabled(s, a) && Actor(a) == Some(t) && InCall(s, t)
    ensures GoesOn(s, Next(cfg, s, a), t)
  {
    assert Calling(s, t);
    hide Calling, GoesOn, QueueStep, BooksStep, SlotStep, StartStep, RestartStep, Finish, MoveOf, GiveUp, Drop,
      CanMove, SetPc;
    match a
    case Step(_) =>
      if InQueue(s.threads[t].pc) {
        QueueGoesOn(cfg, s, t);
      } else if InBooks(s.threads[t].pc) {
        BooksGoesOn(s, t);
      } else if InSlot(s.threads[t].pc) {
        SlotGoesOn(s, t);
      } else {
        FinishGoesOn(s, t);
      }
    case Move(_, n) => MoveGoesOn(s, t, n);
    case Fail(_) =>
      if Exchanging(s.threads[t].pc) {
        DropGoesOn(s, t);
      }
    case _ => ExitGoesOn(cfg, s, a, t);
  }

  lemma ExitGoesOn(cfg: Config, s: State, a: Action, t: nat)
    requires InCall(s, t) && Calling(s, t) && Enabled(s, a) && Actor(a) == Some(t)
    requires !a.Step? && !a.Move? && !a.Fail?
    ensures a.SpawnFails? && GoesOn(s, Next(cfg, s, a), t)
  {
    hide StepOf, MoveOf, FailOf, CanMove, CanStep, CanFail;
  }

  /**
  Every call comes back: from any reachable state in which it has no result yet, its
  own thread's steps alone lead it to one, unless they end the supervisor.
  */
  lemma {:induction false} CallComesBack(cfg: Config, s: State, t: nat) returns (acts: seq<Action>, r: State)
    requires Conforming(cfg) && Inv(cfg, s) && InCall(s, t) && !s.exited
    ensures Runs(cfg, s, acts, r) && forall a | a in acts :: Actor(a) == Some(t)
    ensures r.exited || (s.threads[t].call.value < |r.calls| && r.calls[s.threads[t].call.value].result.Some?)
    decreases Stage(s.threads[t].pc), Part(s.threads[t].pc), BytesLeft(s, t)
  {
    hide Conforming, Enabled, Next, Stage, Part, BytesLeft;
    var k := s.threads[t].call.value;
    if s.calls[k].result.Some? {
      acts, r := [], s;
    } else {
      OwnStep(cfg, s, t);
      var a := if Enabled(s, Step(t)) then Step(t) else Fail(t);
      var m := Next(cfg, s, a);
      OwnStepsEnd(cfg, s, a, t);
      StepInv(cfg, s, a);
      if m.exited || m.threads[t].call != s.threads[t].call {
        acts, r := [a], m;
        assert [a][1..] == [];
      } else {
        var more;
        more, r := CallComesBack(cfg, m, t);
        acts := [a] + more;
        assert acts[1..] == more;
      }
    }
  }

  lemma OwnStep(cfg: Config, s: State, t: nat)
    requires Inv(cfg, s) && InCall(s, t) && !s.exited
    ensures Enabled(s, Step(t)) || Enabled(s, Fail(t))
  {
    assert Control(s, t) && Calling(s, t);
    hide Numbered, Counted, Placed, AllPiped, Attributed, Want;
  }
}
