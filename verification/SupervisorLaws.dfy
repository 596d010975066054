/** What holds in every state the supervisor can get to. */
module SupervisorLaws {
  import opened Bytes
  import opened Frames
  import opened WorkerLoop
  import opened Sums
  import opened Supervisor
  import opened SupervisorLocks
  import opened SupervisorPlaces
  import opened SupervisorPipes
  import opened SupervisorCalls

  ghost predicate Inv(cfg: Config, s: State) {
    Locking(s) && Owned(s) && Numbered(s) && Counted(s) && Placed(s) && AllPiped(cfg, s) && Attributed(cfg, s)
  }

  lemma {:induction false} NobodyWaits(ths: seq<Thread>)
    requires forall t | 0 <= t < |ths| :: ths[t] == IDLE
    ensures Sum(Map(Waits, ths)) == 0
    ensures forall p: nat :: Sum(Map(InHand(p), ths)) == 0
    decreases |ths|
  {
    if ths == [] {
    } else {
      var n := |ths| - 1;
      NobodyWaits(ths[..n]);
      assert Map(Waits, ths)[..n] == Map(Waits, ths[..n]);
      forall p: nat ensures Sum(Map(InHand(p), ths)) == 0 {
        assert Map(InHand(p), ths)[..n] == Map(InHand(p), ths[..n]);
      }
    }
  }

  lemma InitInv(cfg: Config, s: State)
    requires Init(s)
    ensures Inv(cfg, s)
  {
    NobodyWaits(s.threads);
    hide Sum;
  }

  lemma StepInv(cfg: Config, s: State, a: Action)
    requires Conforming(cfg) && Inv(cfg, s) && Enabled(s, a)
    ensures Inv(cfg, Next(cfg, s, a))
  {
    hide Locking, Owned, Numbered, Counted, Placed, AllPiped, Attributed, Enabled, Next, Conforming;
    LockingKept(cfg, s, a);
    OwnedKept(cfg, s, a);
    NumberedKept(cfg, s, a);
    CountedKept(cfg, s, a);
    PlacedKept(cfg, s, a);
    PipedKept(cfg, s, a);
    AttributedKept(cfg, s, a);
  }

  lemma {:induction false} RunInv(cfg: Config, s: State, acts: seq<Action>, r: State)
    requires Conforming(cfg) && Inv(cfg, s) && Runs(cfg, s, acts, r)
    ensures Inv(cfg, r)
    decreases |acts|
  {
    hide Inv, Enabled, Next, Conforming;
    if acts == [] {
    } else {
      StepInv(cfg, s, acts[0]);
      RunInv(cfg, Next(cfg, s, acts[0]), acts[1..], r);
    }
  }

  ghost predicate Reachable(cfg: Config, s: State, acts: seq<Action>, r: State) {
    Conforming(cfg) && Init(s) && Runs(cfg, s, acts, r)
  }

  lemma ReachableInv(cfg: Config, s: State, acts: seq<Action>, r: State)
    requires Reachable(cfg, s, acts, r)
    ensures Inv(cfg, r)
  {
    hide Inv, Conforming, Init;
    InitInv(cfg, s);
    RunInv(cfg, s, acts, r);
  }

  /**
  Pipe synchronisation: whenever nobody holds the slot, the process in it has no
  unanswered request and no byte half written or unread on either pipe.
  */
  lemma PipesAtRest(cfg: Config, s: State, acts: seq<Action>, r: State)
    requires Reachable(cfg, s, acts, r)
    requires r.lock.None? && r.slot.Some?
    ensures r.slot.value < |r.procs| && AtRest(r.procs[r.slot.value])
  {
    hide AtRest, Locking, Owned, Counted, Placed, Attributed, Conforming, Init, Runs;
    ReachableInv(cfg, s, acts, r);
  }

  /**
  The mismatch branch is never taken: a frame that was read in full, by a call or by
  the probe, is the answer to the reader's own request.
  */
  lemma NeverMismatched(cfg: Config, s: State, acts: seq<Action>, r: State, t: nat)
    requires Reachable(cfg, s, acts, r)
    requires t < |r.threads| && r.threads[t].pc.Reading? && CanStep(r, t)
    ensures var pc := r.threads[t].pc;
      && Accepts(FrameOf(r, t, pc.job), pc.job, pc.got)
      && (pc.job.Request? ==> StepOf(cfg, r, t).threads[t].pc == Leaving && StepOf(cfg, r, t).slot == r.slot)
      && StepOf(cfg, r, t).exited == r.exited
  {
    ReachableInv(cfg, s, acts, r);
    assert Piped(cfg, r, t);
    hide Locking, Owned, Counted, Placed, Attributed, Init, Runs, InRead, Want, Accepts, AtRest;
    var pc := r.threads[t].pc;
    AnswerAccepted(cfg.handlers(pc.p), r.procs[pc.p], SentOf(r, t, pc.job), pc.job, pc.got);
  }

  /**
  At-most-once: over any run, whatever the ids have wrapped around to, a call's frame
  is on one process at most, at one place.
  */
  lemma AtMostOnce(cfg: Config, s: State, acts: seq<Action>, r: State, k: nat, p: nat, i: nat, q: nat, j: nat)
    requires Reachable(cfg, s, acts, r)
    requires p < |r.procs| && i < |r.procs[p].sent| && r.procs[p].sent[i].tag == CallTag(k)
    requires q < |r.procs| && j < |r.procs[q].sent| && r.procs[q].sent[j].tag == CallTag(k)
    ensures p == q && i == j && k < |r.calls| && r.procs[p].sent[i].frame == RequestOf(r.calls[k])
  {
    hide Locking, Owned, Counted, Placed, AllPiped, Init, Runs, Conforming;
    ReachableInv(cfg, s, acts, r);
    assert TagOk(r, p, i) && TagOk(r, q, j) && SpotOk(r, k);
  }

  /** An answer is the answer of the one process that took exactly this call's opcode and payload. */
  lemma AnswersAreOwn(cfg: Config, s: State, acts: seq<Action>, r: State, k: nat) returns (p: nat, i: nat)
    requires Reachable(cfg, s, acts, r)
    requires k < |r.calls| && r.calls[k].result.Some? && r.calls[k].result.value.Done?
    ensures p < |r.procs| && i < |r.procs[p].taken| && i < |r.procs[p].sent|
    ensures r.procs[p].sent[i] == Sent(CallTag(k), r.procs[p].taken[i])
    ensures r.procs[p].taken[i] == Frame(KIND_REQUEST, r.calls[k].id, r.calls[k].opcode, 0, r.calls[k].payload)
    ensures Carries(r.calls[k].result.value.frame, r.procs[p].taken[i], cfg.handlers(p)(r.procs[p].taken[..i + 1]))
  {
    hide Locking, Owned, Counted, Placed, Init, Runs, Conforming, Piped;
    ReachableInv(cfg, s, acts, r);
    assert SpotOk(r, k) && ResultOk(cfg, r, k);
    p, i := r.calls[k].spot.value.0, r.calls[k].spot.value.1;
    assert ProcOk(r.procs[p]);
  }

  /** Two answered calls never share an answer. */
  lemma AnswersAreDistinct(cfg: Config, s: State, acts: seq<Action>, r: State, k: nat, l: nat)
    requires Reachable(cfg, s, acts, r)
    requires k < |r.calls| && r.calls[k].spot.Some? && l < |r.calls| && r.calls[l].spot.Some? && k != l
    ensures r.calls[k].spot != r.calls[l].spot
  {
    hide Locking, Owned, Counted, Placed, AllPiped, Init, Runs, Conforming;
    ReachableInv(cfg, s, acts, r);
    assert SpotOk(r, k) && SpotOk(r, l);
  }

  /** Two calls share an id only when a multiple of 2^32 calls lies between them. */
  lemma IdsRepeatRarely(cfg: Config, s: State, acts: seq<Action>, r: State, k: nat, l: nat)
    requires Reachable(cfg, s, acts, r) && k < l < |r.calls|
    ensures r.calls[k].id == r.calls[l].id <==> (l - k) % U32_SIZE == 0
  {
    hide Locking, Owned, Counted, Placed, AllPiped, Attributed, Init, Runs, Conforming;
    ReachableInv(cfg, s, acts, r);
  }

  /**
  Conservation: every process ever started is in exactly one place: under a probe,
  in the slot, taken out for replacement, handed to cleanup once, or seen to have exited.
  */
  lemma OnePlaceEach(cfg: Config, s: State, acts: seq<Action>, r: State, p: nat)
    requires Reachable(cfg, s, acts, r) && p < |r.procs|
    ensures Sum(Map(InHand(p), r.threads)) + (if r.slot == Some(p) then 1 else 0) + r.cleanup[p] + r.reaped[p] == 1
  {
    hide Locking, Owned, Counted, AllPiped, Attributed, Init, Runs, Conforming, Sum;
    ReachableInv(cfg, s, acts, r);
    assert Sum(Map(InHand(p), r.threads)) + Elsewhere(r, p) == Started(r, p);
  }

  lemma {:induction false} FewWait(ths: seq<Thread>)
    ensures Sum(Map(Waits, ths)) <= |ths|
    decreases |ths|
  {
    if ths == [] {
    } else {
      var n := |ths| - 1;
      FewWait(ths[..n]);
      assert Map(Waits, ths)[..n] == Map(Waits, ths[..n]);
    }
  }

  /** The waiting count is the number of threads in the queue; it never wraps below zero. */
  lemma WaitingIsExact(cfg: Config, s: State, acts: seq<Action>, r: State)
    requires Reachable(cfg, s, acts, r) && |r.threads| < U32_SIZE
    ensures r.waiting == Sum(Map(Waits, r.threads))
  {
    hide Locking, Owned, Placed, AllPiped, Attributed, Init, Runs, Conforming, Sum;
    ReachableInv(cfg, s, acts, r);
    FewWait(r.threads);
  }

  /** A recorded request is the lock holder's own. */
  lemma RecordedHoldsLock(cfg: Config, s: State, acts: seq<Action>, r: State) returns (t: nat)
    requires Reachable(cfg, s, acts, r) && r.current.Some?
    ensures r.lock == Some(t) && InCall(r, t)
    ensures r.current == Some(Current(r.calls[r.threads[t].call.value].id, r.calls[r.threads[t].call.value].opcode))
    ensures r.calls[r.threads[t].call.value].owner == t
  {
    hide Counted, Placed, AllPiped, Attributed, Init, Runs, Conforming, Slotted;
    ReachableInv(cfg, s, acts, r);
    t := r.lock.value;
    assert Control(r, t) && Calling(r, t);
  }

  // ----- runs step by step

  /** One more step of a run. */
  lemma {:induction false} RunSnoc(cfg: Config, s: State, acts: seq<Action>, m: State, a: Action)
    requires Runs(cfg, s, acts, m) && Enabled(m, a)
    ensures Runs(cfg, s, acts + [a], Next(cfg, m, a))
    decreases |acts|
  {
    hide Enabled, Next;
    if acts == [] {
      assert acts + [a] == [a] && [a][1..] == [];
      assert Runs(cfg, Next(cfg, m, a), [], Next(cfg, m, a));
    } else {
      RunSnoc(cfg, Next(cfg, s, acts[0]), acts[1..], m, a);
      assert (acts + [a])[0] == acts[0] && (acts + [a])[1..] == acts[1..] + [a];
    }
  }

  lemma Take(cfg: Config, s: State, acts: seq<Action>, m: State, a: Action) returns (more: seq<Action>, r: State)
    requires Runs(cfg, s, acts, m) && Enabled(m, a)
    ensures more == acts + [a] && r == Next(cfg, m, a) && Runs(cfg, s, more, r)
  {
    hide Enabled, Next, Runs;
    RunSnoc(cfg, s, acts, m, a);
    more, r := acts + [a], Next(cfg, m, a);
  }
}
