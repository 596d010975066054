/** `run_all` always returns. */
module PoolReturns {
  import opened Sums
  import opened DecryptPool

  function WorkerWeight(callers: nat): Worker -> nat {
    (w: Worker) =>
      match w
      case Blocked => 0
      case Ready => 1
      case Notifying => 2 + callers
      case Retiring(_) => 3 + callers
      case Running(_) => 4 + callers
  }

  function CallerWeight(workers: nat): Caller -> nat {
    (c: Caller) =>
      match c
      case Checking(_, _) => 1
      case Pushed(_, _) => 2 + workers
      case _ => 0
  }

  function Weight(s: Pool): nat {
    Sum(Map(WorkerWeight(|s.callers|), s.workers))
    + Sum(Map(CallerWeight(|s.workers|), s.callers))
    + (4 + |s.callers|) * |s.shared.queue|
  }

  /** Neither a new batch nor a spurious wake-up. */
  predicate Ordinary(a: Action) {
    !a.Push? && !a.WakeWorker? && !a.WakeCaller?
  }

  lemma NotifyWorkersWeighs(s: Pool, c: nat)
    requires Enabled(s, NotifyWorkers(c))
    ensures Weight(Next(s, NotifyWorkers(c))) < Weight(s)
  {
    var t := Next(s, NotifyWorkers(c));
    var fw, fc := WorkerWeight(|s.callers|), CallerWeight(|s.workers|);
    MapUpdate(fc, s.callers, c, t.callers[c]);
    forall i | 0 <= i < |s.workers| ensures Map(fw, t.workers)[i] <= Map(fw, s.workers)[i] + 1 {
      assert fw(t.workers[i]) <= fw(s.workers[i]) + 1;
    }
    SumAtMost(Map(fw, s.workers), Map(fw, t.workers));
  }

  lemma NotifyDoneWeighs(s: Pool, w: nat)
    requires Enabled(s, NotifyDone(w))
    ensures Weight(Next(s, NotifyDone(w))) < Weight(s)
  {
    var t := Next(s, NotifyDone(w));
    var fw, fc := WorkerWeight(|s.callers|), CallerWeight(|s.workers|);
    MapUpdate(fw, s.workers, w, t.workers[w]);
    forall i | 0 <= i < |s.callers| ensures Map(fc, t.callers)[i] <= Map(fc, s.callers)[i] + 1 {
      assert fc(t.callers[i]) <= fc(s.callers[i]) + 1;
    }
    SumAtMost(Map(fc, s.callers), Map(fc, t.callers));
  }

  lemma ClaimWeighs(s: Pool, w: nat)
    requires Enabled(s, Claim(w))
    ensures Weight(Next(s, Claim(w))) < Weight(s)
  {
    var t := Next(s, Claim(w));
    MapUpdate(WorkerWeight(|s.callers|), s.workers, w, t.workers[w]);
    if s.shared.queue != [] {
    }
  }

  /** Ordinary steps cannot go on for ever. */
  lemma OrdinaryStepsEnd(s: Pool, a: Action)
    requires Enabled(s, a) && Ordinary(a)
    ensures Weight(Next(s, a)) < Weight(s)
  {
    hide Sum, Map;
    var t := Next(s, a);
    match a
    case NotifyWorkers(c) => NotifyWorkersWeighs(s, c);
    case Test(c) => MapUpdate(CallerWeight(|s.workers|), s.callers, c, t.callers[c]);
    case NotifyDone(w) => NotifyDoneWeighs(s, w);
    case Claim(w) => ClaimWeighs(s, w);
    case Finish(w) => MapUpdate(WorkerWeight(|s.callers|), s.workers, w, t.workers[w]);
    case Retire(w) => MapUpdate(WorkerWeight(|s.callers|), s.workers, w, t.workers[w]);
  }

  /** While some caller has not returned, some ordinary step can be taken. */
  lemma NeverStuck(s: Pool, c: nat) returns (a: Action)
    requires Inv(s) && c < |s.callers| && !s.callers[c].Idle? && !s.callers[c].Returned?
    ensures Enabled(s, a) && Ordinary(a)
  {
    if s.callers[c].Pushed? {
      return NotifyWorkers(c);
    }
    if s.callers[c].Checking? {
      return Test(c);
    }
    if w: nat :| w < |s.workers| && !s.workers[w].Blocked? {
      a := MoveWorker(s, w);
      return;
    }
    if !Drained(s.shared) && s.shared.queue == [] {
      SomeoneBusy(s);
    }
    assert s.workers[0].Blocked?;
    var p :| 0 <= p < |s.callers| && s.callers[p].Pushed?;
    a := NotifyWorkers(p);
  }

  lemma MoveWorker(s: Pool, w: nat) returns (a: Action)
    requires Inv(s) && w < |s.workers| && !s.workers[w].Blocked?
    ensures Enabled(s, a) && Ordinary(a)
  {
    match s.workers[w]
    case Ready => a := Claim(w);
    case Running(_) => a := Finish(w);
    case Retiring(_) =>
      MapUpdate(Busy, s.workers, w, Ready);
      a := Retire(w);
    case Notifying => a := NotifyDone(w);
  }

  lemma SomeoneBusy(s: Pool)
    requires Conserved(s) && s.shared.active > 0
    ensures exists w | 0 <= w < |s.workers| :: !s.workers[w].Blocked?
  {
    if forall w | 0 <= w < |s.workers| :: s.workers[w].Blocked? {
      forall i | 0 <= i < |s.workers| ensures Map(Busy, s.workers)[i] == 0 {
        assert Busy(s.workers[i]) == 0;
      }
      AllZero(Map(Busy, s.workers));
    }
  }

  /** An ordinary step leaves a caller with the tasks it has. */
  predicate SameTasks(a: Caller, b: Caller) {
    !a.Idle? && !b.Idle? && b.lo == a.lo && b.hi == a.hi
  }

  lemma CallerStays(s: Pool, a: Action, c: nat)
    requires Enabled(s, a) && Ordinary(a) && c < |s.callers| && !s.callers[c].Idle?
    ensures |Next(s, a).callers| == |s.callers| && SameTasks(s.callers[c], Next(s, a).callers[c])
  {
  }

  /**
  `run_all` returns: short of new batches and spurious wake-ups no run is longer than
  the weight of its start, and one that cannot go on has every caller returned, with
  the tasks it came with.
  */
  lemma {:induction false} RunAllReturns(s: Pool, acts: seq<Action>, t: Pool, c: nat)
    requires Inv(s) && Runs(s, acts, t) && forall a | a in acts :: Ordinary(a)
    requires c < |s.callers| && !s.callers[c].Idle?
    ensures |acts| + Weight(t) <= Weight(s)
    ensures |t.callers| == |s.callers| && SameTasks(s.callers[c], t.callers[c])
    ensures (forall a | Ordinary(a) :: !Enabled(t, a)) ==> t.callers[c].Returned?
    decreases |acts|
  {
    hide Weight, Inv, Enabled, Next, Ordinary;
    if acts == [] {
      if !t.callers[c].Returned? {
        var a := NeverStuck(t, c);
      }
    } else {
      assert acts[0] in acts;
      OrdinaryStepsEnd(s, acts[0]);
      StepInv(s, acts[0]);
      CallerStays(s, acts[0], c);
      RunAllReturns(Next(s, acts[0]), acts[1..], t, c);
    }
  }
}
