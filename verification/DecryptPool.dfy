/**
The decrypt thread pool: one mutex, two condition variables. Each region that
holds the mutex is one step, and so is each notification, which comes after the
mutex is released. Tasks are numbered in the order they are pushed.
*/
module DecryptPool {
  import opened Sums

  /** What the mutex protects. */
  datatype Shared = Shared(queue: seq<nat>, active: nat)

  datatype Worker =
    | Ready               // about to take the mutex and look at the queue
    | Blocked             // in `cv`
    | Running(task: nat)
    | Retiring(task: nat) // the task returned; about to take the mutex
    | Notifying           // `active` is down again; about to notify `done_cv`

  /** A caller of `run_all` with tasks `lo..hi`. */
  datatype Caller =
    | Idle
    | Pushed(lo: nat, hi: nat)   // about to notify `cv`
    | Checking(lo: nat, hi: nat) // about to take the mutex and test
    | Parked(lo: nat, hi: nat)   // in `done_cv`
    | Returned(lo: nat, hi: nat)

  datatype Pool = Pool(shared: Shared, workers: seq<Worker>, callers: seq<Caller>, pushed: nat, finished: set<nat>)

  datatype Action =
    | Push(c: nat, n: nat)
    | NotifyWorkers(c: nat)
    | Test(c: nat)
    | Claim(w: nat)
    | Finish(w: nat)
    | Retire(w: nat)
    | NotifyDone(w: nat)
    | WakeWorker(w: nat)  // a spurious wake-up
    | WakeCaller(c: nat)  // a spurious wake-up

  // ----- the regions that hold the mutex

  function PushAll(s: Shared, from: nat, n: nat): Shared {
    s.(queue := s.queue + seq(n, i requires 0 <= i < n => from + i))
  }

  predicate Drained(s: Shared) {
    s.queue == [] && s.active == 0
  }

  function Pop(s: Shared): Shared
    requires s.queue != []
  {
    Shared(s.queue[1..], s.active + 1)
  }

  function Drop(s: Shared): Shared
    requires s.active > 0
  {
    s.(active := s.active - 1)
  }

  /** The pool's fields, and the bodies of its mutex-held regions. */
  class DecryptThreadPool {
    var queue: seq<nat>
    var active: nat

    function View(): Shared
      reads this
    {
      Shared(queue, active)
    }

    constructor ()
      ensures View() == Shared([], 0)
    {
      queue, active := [], 0;
    }

    method Enqueue(from: nat, n: nat)
      modifies this
      ensures View() == PushAll(old(View()), from, n)
    {
      var before := queue;
      for i := 0 to n
        invariant queue == before + seq(i, j requires 0 <= j < i => from + j)
        invariant active == old(active)
      {
        queue := queue + [from + i];
      }
    }

    method TryClaim() returns (claimed: bool, task: nat)
      modifies this
      ensures claimed <==> old(queue) != []
      ensures claimed ==> task == old(queue)[0] && View() == Pop(old(View()))
      ensures !claimed ==> View() == old(View())
    {
      if queue == [] {
        return false, 0;
      }
      claimed, task := true, queue[0];
      queue := queue[1..];
      active := active + 1;
    }

    method Release()
      requires active > 0
      modifies this
      ensures View() == Drop(old(View()))
    {
      active := active - 1;
    }

    method TestDone() returns (done: bool)
      ensures done <==> Drained(View())
    {
      done := queue == [] && active == 0;
    }
  }

  // ----- the steps

  function WakeWorkers(ws: seq<Worker>): (r: seq<Worker>)
    ensures |r| == |ws|
  {
    seq(|ws|, i requires 0 <= i < |ws| => if ws[i].Blocked? then Ready else ws[i])
  }

  function WakeCallers(cs: seq<Caller>): (r: seq<Caller>)
    ensures |r| == |cs|
  {
    seq(|cs|, i requires 0 <= i < |cs| => if cs[i].Parked? then Checking(cs[i].lo, cs[i].hi) else cs[i])
  }

  predicate Enabled(s: Pool, a: Action) {
    match a
    case Push(c, _) => c < |s.callers| && (s.callers[c].Idle? || s.callers[c].Returned?)
    case NotifyWorkers(c) => c < |s.callers| && s.callers[c].Pushed?
    case Test(c) => c < |s.callers| && s.callers[c].Checking?
    case WakeCaller(c) => c < |s.callers| && s.callers[c].Parked?
    case Claim(w) => w < |s.workers| && s.workers[w].Ready?
    case Finish(w) => w < |s.workers| && s.workers[w].Running?
    case Retire(w) => w < |s.workers| && s.workers[w].Retiring? && s.shared.active > 0
    case NotifyDone(w) => w < |s.workers| && s.workers[w].Notifying?
    case WakeWorker(w) => w < |s.workers| && s.workers[w].Blocked?
  }

  function Next(s: Pool, a: Action): Pool
    requires Enabled(s, a)
  {
    match a
    case Push(c, n) =>
      s.(shared := PushAll(s.shared, s.pushed, n), pushed := s.pushed + n,
         callers := s.callers[c := Pushed(s.pushed, s.pushed + n)])
    case NotifyWorkers(c) =>
      s.(workers := WakeWorkers(s.workers), callers := s.callers[c := Checking(s.callers[c].lo, s.callers[c].hi)])
    case Test(c) =>
      var me := s.callers[c];
      s.(callers := s.callers[c := if Drained(s.shared) then Returned(me.lo, me.hi) else Parked(me.lo, me.hi)])
    case WakeCaller(c) => s.(callers := s.callers[c := Checking(s.callers[c].lo, s.callers[c].hi)])
    case Claim(w) =>
      if s.shared.queue == [] then s.(workers := s.workers[w := Blocked])
      else s.(shared := Pop(s.shared), workers := s.workers[w := Running(s.shared.queue[0])])
    case Finish(w) => s.(workers := s.workers[w := Retiring(s.workers[w].task)])
    case Retire(w) =>
      s.(shared := Drop(s.shared), workers := s.workers[w := Notifying], finished := s.finished + {s.workers[w].task})
    case NotifyDone(w) => s.(workers := s.workers[w := Ready], callers := WakeCallers(s.callers))
    case WakeWorker(w) => s.(workers := s.workers[w := Ready])
  }

  function Init(workers: nat, callers: nat): Pool {
    Pool(Shared([], 0), seq(workers, i => Ready), seq(callers, i => Idle), 0, {})
  }

  ghost predicate Runs(s: Pool, acts: seq<Action>, t: Pool)
    decreases |acts|
  {
    if acts == [] then t == s else Enabled(s, acts[0]) && Runs(Next(s, acts[0]), acts[1..], t)
  }

  // ----- conservation

  predicate Holds(w: Worker) { w.Running? || w.Retiring? }

  function Busy(w: Worker): nat { if Holds(w) then 1 else 0 }

  /** The queue is the tail of the tasks pushed; the others were claimed. */
  ghost predicate Queued(s: Pool) {
    && |s.shared.queue| <= s.pushed
    && forall k | 0 <= k < |s.shared.queue| :: s.shared.queue[k] == s.pushed - |s.shared.queue| + k
  }

  function Claimed(s: Pool): int { s.pushed - |s.shared.queue| }

  ghost predicate Held(s: Pool, t: nat) {
    exists w | 0 <= w < |s.workers| :: Holds(s.workers[w]) && s.workers[w].task == t
  }

  /** Queued, running and finished tasks partition the tasks pushed, and `active` counts the running ones. */
  ghost predicate Conserved(s: Pool) {
    && Queued(s)
    && s.shared.active == Sum(Map(Busy, s.workers))
    && (forall v, w | 0 <= v < w < |s.workers| && Holds(s.workers[v]) && Holds(s.workers[w]) ::
          s.workers[v].task != s.workers[w].task)
    && (forall w | 0 <= w < |s.workers| && Holds(s.workers[w]) ::
          s.workers[w].task < Claimed(s) && s.workers[w].task !in s.finished)
    && (forall t: nat | t in s.finished :: t < Claimed(s))
    && (forall t: nat | t < Claimed(s) && t !in s.finished :: Held(s, t))
  }

  // ----- no wake-up is lost

  ghost predicate NoLostWakeUp(s: Pool) {
    && (s.shared.queue != [] && (exists w | 0 <= w < |s.workers| :: s.workers[w].Blocked?)
        ==> exists c | 0 <= c < |s.callers| :: s.callers[c].Pushed?)
    && (Drained(s.shared) && (exists c | 0 <= c < |s.callers| :: s.callers[c].Parked?)
        ==> exists w | 0 <= w < |s.workers| :: s.workers[w].Notifying?)
  }

  /** A caller that returned did so when every task it pushed was finished. */
  ghost predicate SafeReturn(s: Pool) {
    forall c | 0 <= c < |s.callers| && !s.callers[c].Idle? ::
      && s.callers[c].lo <= s.callers[c].hi <= s.pushed
      && (s.callers[c].Returned? ==> forall t: nat | s.callers[c].lo <= t < s.callers[c].hi :: t in s.finished)
  }

  ghost predicate Inv(s: Pool) {
    |s.workers| > 0 && Conserved(s) && NoLostWakeUp(s) && SafeReturn(s)
  }

  lemma InitInv(workers: nat, callers: nat)
    requires workers > 0
    ensures Inv(Init(workers, callers))
  {
    var s := Init(workers, callers);
    forall i | 0 <= i < workers ensures Map(Busy, s.workers)[i] == 0 {
      assert Busy(s.workers[i]) == 0;
    }
    AllZero(Map(Busy, s.workers));
  }

  lemma {:induction false} AllZero(xs: seq<nat>)
    requires forall i | 0 <= i < |xs| :: xs[i] == 0
    ensures Sum(xs) == 0
  {
    if xs == [] {
    } else {
      AllZero(xs[..|xs| - 1]);
    }
  }

  lemma PushConserved(s: Pool, c: nat, n: nat)
    requires Conserved(s) && Enabled(s, Push(c, n))
    ensures Conserved(Next(s, Push(c, n)))
  {
    var t := Next(s, Push(c, n));
    assert t.workers == s.workers && Claimed(t) == Claimed(s);
    forall i: nat | i < Claimed(t) && i !in t.finished ensures Held(t, i) {
      assert Held(s, i);
    }
  }

  lemma HeldElsewhere(s: Pool, t: Pool, w: nat, i: nat)
    requires w < |s.workers| == |t.workers|
    requires t.workers == s.workers[w := t.workers[w]]
    requires Held(s, i) && !(Holds(s.workers[w]) && s.workers[w].task == i)
    ensures Held(t, i)
  {
    var v :| 0 <= v < |s.workers| && Holds(s.workers[v]) && s.workers[v].task == i;
    assert Holds(t.workers[v]) && t.workers[v].task == i;
  }

  /** A step that moves one worker without changing what it holds. */
  lemma MoveConserved(s: Pool, t: Pool, w: nat)
    requires Conserved(s) && w < |s.workers|
    requires t.shared == s.shared && t.pushed == s.pushed && t.finished == s.finished
    requires |t.workers| == |s.workers| && t.workers == s.workers[w := t.workers[w]]
    requires Holds(s.workers[w]) <==> Holds(t.workers[w])
    requires Holds(s.workers[w]) ==> s.workers[w].task == t.workers[w].task
    ensures Conserved(t)
  {
    MapUpdate(Busy, s.workers, w, t.workers[w]);
    hide Sum, Map;
    forall i: nat | i < Claimed(t) && i !in t.finished ensures Held(t, i) {
      assert Held(s, i);
      if Holds(s.workers[w]) && s.workers[w].task == i {
        assert Holds(t.workers[w]) && t.workers[w].task == i;
      } else {
        HeldElsewhere(s, t, w, i);
      }
    }
  }

  /** Waking workers changes nothing that they hold. */
  lemma WakeConserved(s: Pool, c: nat)
    requires Conserved(s) && Enabled(s, NotifyWorkers(c))
    ensures Conserved(Next(s, NotifyWorkers(c)))
  {
    var t := Next(s, NotifyWorkers(c));
    assert Map(Busy, t.workers) == Map(Busy, s.workers);
    hide Sum, Map;
    forall i: nat | i < Claimed(t) && i !in t.finished ensures Held(t, i) {
      assert Held(s, i);
      var v :| 0 <= v < |s.workers| && Holds(s.workers[v]) && s.workers[v].task == i;
      assert Holds(t.workers[v]) && t.workers[v].task == i;
    }
  }

  lemma ClaimConserved(s: Pool, w: nat)
    requires Conserved(s) && Enabled(s, Claim(w)) && s.shared.queue != []
    ensures Conserved(Next(s, Claim(w)))
  {
    var t, task := Next(s, Claim(w)), s.shared.queue[0];
    MapUpdate(Busy, s.workers, w, Running(task));
    hide Sum, Map;
    assert task == Claimed(s) && Claimed(t) == Claimed(s) + 1;
    forall i: nat | i < Claimed(t) && i !in t.finished ensures Held(t, i) {
      if i == task {
        assert Holds(t.workers[w]) && t.workers[w].task == i;
      } else {
        assert Held(s, i);
        HeldElsewhere(s, t, w, i);
      }
    }
  }

  lemma RetireConserved(s: Pool, w: nat)
    requires Conserved(s) && Enabled(s, Retire(w))
    ensures Conserved(Next(s, Retire(w)))
  {
    var t, task := Next(s, Retire(w)), s.workers[w].task;
    MapUpdate(Busy, s.workers, w, Notifying);
    hide Sum, Map;
    forall i: nat | i < Claimed(t) && i !in t.finished ensures Held(t, i) {
      assert Held(s, i);
      HeldElsewhere(s, t, w, i);
    }
  }

  lemma StepConserved(s: Pool, a: Action)
    requires Conserved(s) && Enabled(s, a)
    ensures Conserved(Next(s, a))
  {
    match a
    case Push(c, n) => PushConserved(s, c, n);
    case NotifyWorkers(c) => WakeConserved(s, c);
    case Test(c) => SharedOnly(s, Next(s, a));
    case WakeCaller(c) => SharedOnly(s, Next(s, a));
    case Claim(w) =>
      if s.shared.queue == [] { MoveConserved(s, Next(s, a), w); } else { ClaimConserved(s, w); }
    case Finish(w) => MoveConserved(s, Next(s, a), w);
    case Retire(w) => RetireConserved(s, w);
    case NotifyDone(w) => MoveConserved(s, Next(s, a), w);
    case WakeWorker(w) => MoveConserved(s, Next(s, a), w);
  }

  lemma SharedOnly(s: Pool, t: Pool)
    requires Conserved(s)
    requires t.shared == s.shared && t.pushed == s.pushed && t.finished == s.finished && t.workers == s.workers
    ensures Conserved(t)
  {
    forall i: nat | i < Claimed(t) && i !in t.finished ensures Held(t, i) {
      assert Held(s, i);
    }
  }

  lemma StepNoLostWakeUp(s: Pool, a: Action)
    requires NoLostWakeUp(s) && Enabled(s, a)
    ensures NoLostWakeUp(Next(s, a))
  {
    var t := Next(s, a);
    if t.shared.queue != [] && exists w | 0 <= w < |t.workers| :: t.workers[w].Blocked? {
      var w :| 0 <= w < |t.workers| && t.workers[w].Blocked?;
      PusherPending(s, a, w);
    }
    if Drained(t.shared) && exists c | 0 <= c < |t.callers| :: t.callers[c].Parked? {
      var c :| 0 <= c < |t.callers| && t.callers[c].Parked?;
      NotifierPending(s, a, c);
    }
  }

  lemma PusherPending(s: Pool, a: Action, w: nat)
    requires NoLostWakeUp(s) && Enabled(s, a)
    requires w < |s.workers| && Next(s, a).workers[w].Blocked? && Next(s, a).shared.queue != []
    ensures exists c | 0 <= c < |Next(s, a).callers| :: Next(s, a).callers[c].Pushed?
  {
    var t := Next(s, a);
    if a.Push? {
      assert t.callers[a.c].Pushed?;
    } else {
      assert s.workers[w].Blocked?;
      var c :| 0 <= c < |s.callers| && s.callers[c].Pushed?;
      assert t.callers[c].Pushed?;
    }
  }

  lemma NotifierPending(s: Pool, a: Action, c: nat)
    requires NoLostWakeUp(s) && Enabled(s, a)
    requires c < |s.callers| && Next(s, a).callers[c].Parked? && Drained(Next(s, a).shared)
    ensures exists w | 0 <= w < |Next(s, a).workers| :: Next(s, a).workers[w].Notifying?
  {
    var t := Next(s, a);
    if a.Retire? {
      assert t.workers[a.w].Notifying?;
    } else {
      assert s.callers[c].Parked?;
      var w :| 0 <= w < |s.workers| && s.workers[w].Notifying?;
      assert t.workers[w].Notifying?;
    }
  }

  lemma NoneHeld(s: Pool)
    requires Sum(Map(Busy, s.workers)) == 0
    ensures forall w | 0 <= w < |s.workers| :: !Holds(s.workers[w])
  {
    SumZero(Map(Busy, s.workers));
    forall w | 0 <= w < |s.workers| ensures !Holds(s.workers[w]) {
      assert Map(Busy, s.workers)[w] == Busy(s.workers[w]);
    }
  }

  /** With nothing queued and nothing active, every task pushed is finished. */
  lemma DrainedMeansFinished(s: Pool, t: nat)
    requires Conserved(s) && Drained(s.shared) && t < s.pushed
    ensures t in s.finished
  {
    NoneHeld(s);
    assert !Held(s, t);
  }

  lemma StepSafeReturn(s: Pool, a: Action)
    requires Conserved(s) && SafeReturn(s) && Enabled(s, a)
    ensures SafeReturn(Next(s, a))
  {
    var t := Next(s, a);
    assert s.finished <= t.finished && s.pushed <= t.pushed;
    if a.Test? && Drained(s.shared) {
      forall k: nat | k < s.pushed ensures k in s.finished {
        DrainedMeansFinished(s, k);
      }
    }
  }

  lemma StepInv(s: Pool, a: Action)
    requires Inv(s) && Enabled(s, a)
    ensures Inv(Next(s, a))
  {
    StepConserved(s, a);
    StepNoLostWakeUp(s, a);
    StepSafeReturn(s, a);
  }

  lemma {:induction false} RunInv(s: Pool, acts: seq<Action>, t: Pool)
    requires Inv(s) && Runs(s, acts, t)
    ensures Inv(t)
    decreases |acts|
  {
    if acts == [] {
    } else {
      StepInv(s, acts[0]);
      RunInv(Next(s, acts[0]), acts[1..], t);
    }
  }

  /** Whatever the schedule, and whoever else uses the pool: a caller gets back only with all its tasks finished. */
  lemma RunAllIsSafe(workers: nat, callers: nat, acts: seq<Action>, t: Pool, c: nat)
    requires workers > 0 && Runs(Init(workers, callers), acts, t)
    requires c < |t.callers| && t.callers[c].Returned?
    ensures forall k: nat | t.callers[c].lo <= k < t.callers[c].hi :: k in t.finished
  {
    InitInv(workers, callers);
    RunInv(Init(workers, callers), acts, t);
  }
}
