/** A batch's striped tasks on the thread pool, every step of both interleaved. */
module BatchRun {
  import opened Bytes
  import opened Sums
  import P = DecryptPool
  import R = PoolReturns
  import S = Stripes

  /** The pool runs the batch's task `t` as its own task `lo + t`. */
  datatype Joint = Joint(pool: P.Pool, batch: S.Batch, lo: nat)

  datatype Action =
    | Pooled(a: P.Action)
    | Body(w: nat) // worker `w` takes a step inside its task

  function Hi(s: Joint): nat { s.lo + |s.batch.pcs| }

  /** The worker is inside a task of this batch. */
  predicate InBatch(s: Joint, w: nat) {
    w < |s.pool.workers| && s.pool.workers[w].Running? && s.lo <= s.pool.workers[w].task < Hi(s)
  }

  predicate Enabled(s: Joint, a: Action) {
    && |s.batch.plain| == |s.batch.chunks|
    && match a
       case Body(w) => InBatch(s, w) && !s.batch.pcs[s.pool.workers[w].task - s.lo].Done?
       case Pooled(p) =>
         && P.Enabled(s.pool, p)
         // a task of the batch ends when its loop does
         && (p.Finish? && InBatch(s, p.w) ==> s.batch.pcs[s.pool.workers[p.w].task - s.lo].Done?)
  }

  function Next(op: S.Op, s: Joint, a: Action): Joint
    requires Enabled(s, a)
  {
    match a
    case Body(w) => s.(batch := S.Step(op, s.batch, s.pool.workers[w].task - s.lo))
    case Pooled(p) => s.(pool := P.Next(s.pool, p))
  }

  ghost predicate Runs(op: S.Op, s: Joint, acts: seq<Action>, t: Joint)
    decreases |acts|
  {
    if acts == [] then t == s else Enabled(s, acts[0]) && Runs(op, Next(op, s, acts[0]), acts[1..], t)
  }

  /** A task of the batch that left its worker's hands has run its loop to the end. */
  ghost predicate Ended(s: Joint) {
    && (forall k: nat | s.lo <= k < Hi(s) && k in s.pool.finished :: s.batch.pcs[k - s.lo].Done?)
    && (forall w | 0 <= w < |s.pool.workers| && s.pool.workers[w].Retiring? ::
          s.lo <= s.pool.workers[w].task < Hi(s) ==> s.batch.pcs[s.pool.workers[w].task - s.lo].Done?)
  }

  ghost predicate Inv(op: S.Op, s: Joint) {
    P.Inv(s.pool) && S.Inv(op, s.batch) && Ended(s)
  }

  lemma StepInv(op: S.Op, s: Joint, a: Action)
    requires Inv(op, s) && Enabled(s, a)
    ensures Inv(op, Next(op, s, a)) && |Next(op, s, a).batch.pcs| == |s.batch.pcs|
    ensures Next(op, s, a).batch.chunks == s.batch.chunks
  {
    hide P.Conserved, P.NoLostWakeUp, P.SafeReturn, S.TaskInv, Ended;
    match a
    case Body(w) =>
      S.StepInv(op, s.batch, s.pool.workers[w].task - s.lo);
      BodyEnded(op, s, w);
    case Pooled(p) =>
      P.StepInv(s.pool, p);
      PooledEnded(op, s, p);
  }

  lemma BodyEnded(op: S.Op, s: Joint, w: nat)
    requires Ended(s) && Enabled(s, Body(w))
    ensures Ended(Next(op, s, Body(w)))
  {
  }

  lemma PooledEnded(op: S.Op, s: Joint, p: P.Action)
    requires Ended(s) && Enabled(s, Pooled(p))
    ensures Ended(Next(op, s, Pooled(p)))
  {
  }

  lemma {:induction false} RunInv(op: S.Op, s: Joint, acts: seq<Action>, t: Joint)
    requires Inv(op, s) && Runs(op, s, acts, t)
    ensures Inv(op, t) && |t.batch.pcs| == |s.batch.pcs| && t.batch.chunks == s.batch.chunks && t.lo == s.lo
    decreases |acts|
  {
    if acts == [] {
    } else {
      StepInv(op, s, acts[0]);
      RunInv(op, Next(op, s, acts[0]), acts[1..], t);
    }
  }

  /** The error recorded first is the one reported, whatever happens after it. */
  lemma {:induction false} ErrorStays(op: S.Op, s: Joint, acts: seq<Action>, t: Joint)
    requires Runs(op, s, acts, t) && s.batch.flag
    ensures t.batch.flag && t.batch.error == s.batch.error
    decreases |acts|
  {
    hide P.Enabled, P.Next, S.Step;
    if acts == [] {
    } else {
      if acts[0].Body? {
        S.FirstErrorStays(op, s.batch, s.pool.workers[acts[0].w].task - s.lo);
      }
      ErrorStays(op, Next(op, s, acts[0]), acts[1..], t);
    }
  }

  /** The batch as `run_all` gets it: none of its tasks is in the pool yet. */
  function Submit(pool: P.Pool, chunks: seq<S.Sample>, tasks: nat): Joint
    requires tasks > 0
  {
    Joint(pool, S.Start(chunks, tasks), pool.pushed)
  }

  /**
  Whatever the pool was doing, however its threads interleave with the batch's
  tasks and with other callers: when the caller that pushed the batch returns,
  the batch has the outcome of the sequential loop.
  */
  lemma BatchOutcome(op: S.Op, pool: P.Pool, chunks: seq<S.Sample>, tasks: nat, acts: seq<Action>, t: Joint, c: nat)
    requires P.Inv(pool) && tasks > 0
    requires Runs(op, Submit(pool, chunks, tasks), acts, t)
    requires c < |t.pool.callers| && t.pool.callers[c] == P.Returned(t.lo, Hi(t))
    ensures S.Outcome(t.batch) == if S.AllGood(op, chunks) then Some(S.Sequential(op, chunks)) else None
    ensures t.batch.flag ==> t.batch.error < |chunks| && !S.Good(op, chunks[t.batch.error])
  {
    var s := Submit(pool, chunks, tasks);
    S.StartInv(op, chunks, tasks);
    RunInv(op, s, acts, t);
    forall i | 0 <= i < |t.batch.pcs| ensures t.batch.pcs[i].Done? {
      assert t.lo + i in t.pool.finished;
    }
    S.ScheduleIndependent(op, t.batch);
  }

  // ----- the caller does return

  function Left(b: S.Batch): nat {
    Sum(seq(|b.pcs|, t requires 0 <= t < |b.pcs| => S.Remaining(b, t)))
  }

  lemma BodyUses(op: S.Op, b: S.Batch, t: nat)
    requires S.Inv(op, b) && t < |b.pcs| && !b.pcs[t].Done?
    ensures Left(S.Step(op, b, t)) < Left(b)
  {
    var c := S.Step(op, b, t);
    S.StepUses(op, b, t);
    var xs := seq(|b.pcs|, u requires 0 <= u < |b.pcs| => S.Remaining(b, u));
    var ys := seq(|c.pcs|, u requires 0 <= u < |c.pcs| => S.Remaining(c, u));
    assert ys == xs[t := S.Remaining(c, t)];
    SumUpdate(xs, t, S.Remaining(c, t));
  }

  predicate Ordinary(a: Action) { a.Pooled? ==> R.Ordinary(a.a) }

  /** Ordinary steps of pool and tasks together cannot go on for ever. */
  lemma OrdinaryStepsEnd(op: S.Op, s: Joint, a: Action)
    requires Inv(op, s) && Enabled(s, a) && Ordinary(a)
    ensures var t := Next(op, s, a);
      || R.Weight(t.pool) < R.Weight(s.pool)
      || (t.pool == s.pool && Left(t.batch) < Left(s.batch))
  {
    match a
    case Body(w) => BodyUses(op, s.batch, s.pool.workers[w].task - s.lo);
    case Pooled(p) => R.OrdinaryStepsEnd(s.pool, p);
  }

  /** Until the caller is back, something ordinary can happen. */
  lemma NeverStuck(op: S.Op, s: Joint, c: nat) returns (a: Action)
    requires Inv(op, s) && c < |s.pool.callers| && !s.pool.callers[c].Idle? && !s.pool.callers[c].Returned?
    ensures Enabled(s, a) && Ordinary(a)
  {
    var p := R.NeverStuck(s.pool, c);
    if p.Finish? && InBatch(s, p.w) && !s.batch.pcs[s.pool.workers[p.w].task - s.lo].Done? {
      a := Body(p.w);
    } else {
      a := Pooled(p);
    }
  }

  /**
  The caller comes back: from any state of pool and batch, ordinary steps lead to
  its return, with the tasks it came with.
  */
  lemma {:induction false} BatchReturns(op: S.Op, s: Joint, c: nat) returns (acts: seq<Action>, t: Joint)
    requires Inv(op, s) && c < |s.pool.callers| && !s.pool.callers[c].Idle?
    ensures Runs(op, s, acts, t) && forall a | a in acts :: Ordinary(a)
    ensures c < |t.pool.callers| && t.pool.callers[c] == P.Returned(s.pool.callers[c].lo, s.pool.callers[c].hi)
    ensures t.lo == s.lo && |t.batch.pcs| == |s.batch.pcs|
    decreases R.Weight(s.pool), Left(s.batch)
  {
    hide Inv, Enabled, Next, Ordinary, Left, R.Weight;
    if s.pool.callers[c].Returned? {
      acts, t := [], s;
    } else {
      var a := NeverStuck(op, s, c);
      var m := Next(op, s, a);
      OrdinaryStepsEnd(op, s, a);
      StepInv(op, s, a);
      CallerStays(op, s, a, c);
      var more;
      more, t := BatchReturns(op, m, c);
      acts := [a] + more;
      assert acts[1..] == more;
    }
  }

  lemma CallerStays(op: S.Op, s: Joint, a: Action, c: nat)
    requires Enabled(s, a) && Ordinary(a) && c < |s.pool.callers| && !s.pool.callers[c].Idle?
    ensures var m := Next(op, s, a);
      && |m.pool.callers| == |s.pool.callers| && R.SameTasks(s.pool.callers[c], m.pool.callers[c])
      && m.lo == s.lo
  {
    if a.Pooled? {
      R.CallerStays(s.pool, a.a, c);
    }
  }

  /** A caller that has nothing under way can have a batch run to its end. */
  lemma BatchCompletes(op: S.Op, pool: P.Pool, chunks: seq<S.Sample>, tasks: nat, c: nat)
    returns (acts: seq<Action>, t: Joint)
    requires P.Inv(pool) && tasks > 0
    requires c < |pool.callers| && (pool.callers[c].Idle? || pool.callers[c].Returned?)
    ensures Runs(op, Submit(pool, chunks, tasks), acts, t)
    ensures c < |t.pool.callers| && t.pool.callers[c] == P.Returned(t.lo, Hi(t))
  {
    var s, push := Submit(pool, chunks, tasks), Pooled(P.Push(c, tasks));
    S.StartInv(op, chunks, tasks);
    StepInv(op, s, push);
    var m := Next(op, s, push);
    assert m.pool.callers[c] == P.Pushed(s.lo, Hi(s));
    hide Inv, Next, Left, R.Weight;
    var more;
    more, t := BatchReturns(op, m, c);
    acts := [push] + more;
    assert acts[1..] == more;
  }
}
