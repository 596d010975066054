/** The admission limit: when it is kept, and when it is overrun. */
module SupervisorLimit {
  import opened Bytes
  import opened Sums
  import opened Supervisor
  import opened SupervisorLocks
  import opened SupervisorPlaces
  import opened SupervisorPipes
  import opened SupervisorCalls
  import opened SupervisorLaws

  function Lines(th: Thread): nat {
    if InLine(th.pc) then 1 else 0
  }

  /** A call checks the limit while another has checked it and not been counted yet. */
  ghost predicate Overlaps(s: State, a: Action) {
    && a.Step? && a.t < |s.threads| && s.threads[a.t].pc.Asking?
    && exists u | 0 <= u < |s.threads| :: s.threads[u].pc.Admitted?
  }

  ghost predicate NoOverlap(cfg: Config, s: State, acts: seq<Action>)
    decreases |acts|
  {
    acts != [] && Enabled(s, acts[0]) ==> !Overlaps(s, acts[0]) && NoOverlap(cfg, Next(cfg, s, acts[0]), acts[1..])
  }

  lemma JoinIsAdmission(cfg: Config, s: State, a: Action, t: nat)
    requires Enabled(s, a) && Actor(a) == Some(t) && t < |s.threads| && s.threads[t].pc.Asking?
    requires t < |Next(cfg, s, a).threads| && InLine(Next(cfg, s, a).threads[t].pc)
    ensures a == Step(t) && s.waiting < cfg.maxWaiters
  {
    hide Finish, MoveOf, BooksStep, SlotStep, StartStep, RestartStep, Serve, Front, Want;
  }

  lemma {:induction false} LineIsCount(ths: seq<Thread>)
    ensures Sum(Map(Waits, ths)) <= Sum(Map(Lines, ths))
    ensures (forall u | 0 <= u < |ths| :: !ths[u].pc.Admitted?) ==> Sum(Map(Lines, ths)) == Sum(Map(Waits, ths))
    decreases |ths|
  {
    if ths == [] {
    } else {
      var n := |ths| - 1;
      LineIsCount(ths[..n]);
      assert Map(Waits, ths)[..n] == Map(Waits, ths[..n]) && Map(Lines, ths)[..n] == Map(Lines, ths[..n]);
    }
  }

  /** Short of an overlapping check, or with a limit of zero, a step lets the line grow only below the limit. */
  lemma LineKept(cfg: Config, s: State, a: Action)
    requires Locking(s) && Counted(s) && Enabled(s, a) && |s.threads| < U32_SIZE
    requires cfg.maxWaiters == 0 || !Overlaps(s, a)
    requires Sum(Map(Lines, s.threads)) <= cfg.maxWaiters
    ensures Sum(Map(Lines, Next(cfg, s, a).threads)) <= cfg.maxWaiters
    ensures |Next(cfg, s, a).threads| == |s.threads|
  {
    hide Enabled, Next, Control, Sum;
    var r := Next(cfg, s, a);
    if Actor(a).Some? {
      var t := Actor(a).value;
      ActorThere(s, a, t);
      ControlStep(cfg, s, a, t);
      MapUpdate(Lines, s.threads, t, r.threads[t]);
      if Joins(s.threads[t].pc, r.threads[t].pc) {
        JoinIsAdmission(cfg, s, a, t);
        LineIsCount(s.threads);
        FewWait(s.threads);
      }
    } else {
      ProcessStep(cfg, s, a);
    }
  }

  lemma {:induction false} LineStays(cfg: Config, s: State, acts: seq<Action>, r: State)
    requires Locking(s) && Counted(s) && Runs(cfg, s, acts, r)
    requires cfg.maxWaiters == 0 || NoOverlap(cfg, s, acts)
    requires |s.threads| < U32_SIZE && Sum(Map(Lines, s.threads)) <= cfg.maxWaiters
    ensures Sum(Map(Lines, r.threads)) <= cfg.maxWaiters
    decreases |acts|
  {
    hide Enabled, Next, Overlaps, Locking, Counted, Sum;
    if acts == [] {
    } else {
      LineKept(cfg, s, acts[0]);
      LockingKept(cfg, s, acts[0]);
      CountedKept(cfg, s, acts[0]);
      LineStays(cfg, Next(cfg, s, acts[0]), acts[1..], r);
    }
  }

  lemma {:induction false} NobodyInLine(ths: seq<Thread>)
    requires forall t | 0 <= t < |ths| :: ths[t] == IDLE
    ensures Sum(Map(Lines, ths)) == 0
    decreases |ths|
  {
    if ths == [] {
    } else {
      var n := |ths| - 1;
      NobodyInLine(ths[..n]);
      assert Map(Lines, ths)[..n] == Map(Lines, ths[..n]);
    }
  }

  lemma LimitKept(cfg: Config, s: State, acts: seq<Action>, r: State)
    requires Reachable(cfg, s, acts, r) && |s.threads| < U32_SIZE
    requires cfg.maxWaiters == 0 || NoOverlap(cfg, s, acts)
    ensures r.waiting <= cfg.maxWaiters
  {
    hide Locking, Owned, Numbered, Placed, AllPiped, Attributed, Runs, Conforming, Sum, NoOverlap;
    InitInv(cfg, s);
    NobodyInLine(s.threads);
    LineStays(cfg, s, acts, r);
    ReachableInv(cfg, s, acts, r);
    LineIsCount(r.threads);
  }

  /** In a run in which no two calls are between check and count at once, the limit holds. */
  lemma LimitHolds(cfg: Config, s: State, acts: seq<Action>, r: State)
    requires Reachable(cfg, s, acts, r) && NoOverlap(cfg, s, acts) && |s.threads| < U32_SIZE
    ensures r.waiting <= cfg.maxWaiters
  {
    hide Reachable, NoOverlap;
    LimitKept(cfg, s, acts, r);
  }

  // ----- exactly when it holds of every run

  /** A supervisor with `n` threads, before any of them did anything. */
  function Fresh(n: nat): (s: State)
    ensures Init(s) && |s.threads| == n
  {
    State(false, 1, 0, None, None, None, seq(n, _ => IDLE), [], [], multiset{}, multiset{})
  }

  /** Whatever `n` threads do, no more than `cfg.maxWaiters` of them are ever counted as waiting. */
  ghost predicate WithinLimit(cfg: Config, n: nat) {
    forall acts, r | Runs(cfg, Fresh(n), acts, r) :: r.waiting <= cfg.maxWaiters
  }

  lemma {:induction false} ThreadsStay(cfg: Config, s: State, acts: seq<Action>, r: State)
    requires Locking(s) && Runs(cfg, s, acts, r)
    ensures |r.threads| == |s.threads|
    decreases |acts|
  {
    hide Enabled, Next, Control;
    if acts == [] {
    } else {
      var a := acts[0];
      if Actor(a).Some? {
        ActorThere(s, a, Actor(a).value);
        ControlStep(cfg, s, a, Actor(a).value);
      } else {
        ProcessStep(cfg, s, a);
      }
      LockingKept(cfg, s, a);
      ThreadsStay(cfg, Next(cfg, s, a), acts[1..], r);
    }
  }

  /** Of `n` threads, each in its own first call, the first `i` are at `done` and the others at `todo`. */
  predicate Queueing(s: State, n: nat, i: nat, done: Pc, todo: Pc, waiting: nat) {
    && |s.threads| == n && i <= n
    && (forall t | 0 <= t < n ::
          s.threads[t] == if t < i then Thread(Some(t), done) else if todo.Idle? then IDLE else Thread(Some(t), todo))
    && s.waiting == waiting && |s.calls| == (if todo.Idle? then i else n) && s.slot.None? && !s.exited
  }

  lemma AdmitOne(cfg: Config, s: State, n: nat, i: nat)
    requires i < n && Queueing(s, n, i, Admitted, Asking, 0) && cfg.maxWaiters > 0
    ensures Enabled(s, Step(i)) && Queueing(Next(cfg, s, Step(i)), n, i + 1, Admitted, Asking, 0)
  {
    hide Finish, BooksStep, SlotStep, StartStep, RestartStep, Want;
  }

  lemma CountOne(cfg: Config, s: State, n: nat, i: nat)
    requires i < n < U32_SIZE && Queueing(s, n, i, Waiting, Admitted, i)
    ensures Enabled(s, Step(i)) && Queueing(Next(cfg, s, Step(i)), n, i + 1, Waiting, Admitted, i + 1)
  {
    hide Finish, BooksStep, SlotStep, StartStep, RestartStep, Want;
  }

  lemma {:induction false} AllBegin(cfg: Config, n: nat, i: nat) returns (acts: seq<Action>, r: State)
    requires i <= n
    ensures Runs(cfg, Fresh(n), acts, r) && Queueing(r, n, i, Asking, Idle, 0)
    decreases i
  {
    if i == 0 {
      acts, r := [], Fresh(n);
    } else {
      hide Enabled, Next, Runs, Queueing;
      acts, r := AllBegin(cfg, n, i - 1);
      acts, r := Take(cfg, Fresh(n), acts, r, Begin(i - 1, 1, []));
    }
  }

  lemma {:induction false} AllPass(cfg: Config, n: nat, i: nat) returns (acts: seq<Action>, r: State)
    requires i <= n && cfg.maxWaiters > 0
    ensures Runs(cfg, Fresh(n), acts, r) && Queueing(r, n, i, Admitted, Asking, 0)
    decreases i
  {
    hide Enabled, Next, Runs;
    if i == 0 {
      acts, r := AllBegin(cfg, n, n);
    } else {
      hide Queueing;
      acts, r := AllPass(cfg, n, i - 1);
      AdmitOne(cfg, r, n, i - 1);
      acts, r := Take(cfg, Fresh(n), acts, r, Step(i - 1));
    }
  }

  lemma {:induction false} AllCount(cfg: Config, n: nat, i: nat) returns (acts: seq<Action>, r: State)
    requires i <= n < U32_SIZE && cfg.maxWaiters > 0
    ensures Runs(cfg, Fresh(n), acts, r) && Queueing(r, n, i, Waiting, Admitted, i)
    decreases i
  {
    hide Enabled, Next, Runs;
    if i == 0 {
      acts, r := AllPass(cfg, n, n);
    } else {
      hide Queueing;
      acts, r := AllCount(cfg, n, i - 1);
      CountOne(cfg, r, n, i - 1);
      acts, r := Take(cfg, Fresh(n), acts, r, Step(i - 1));
    }
  }

  /**
  The limit is checked before the count goes up, so any number of calls can pass it
  together: it is kept in all runs exactly when nobody passes or there are too few
  threads to overrun it.
  */
  lemma LimitExactly(cfg: Config, n: nat)
    requires Conforming(cfg) && n < U32_SIZE
    ensures WithinLimit(cfg, n) <==> cfg.maxWaiters == 0 || n <= cfg.maxWaiters
  {
    hide Conforming, Runs, Sum, NoOverlap, Owned, Numbered, Counted, Placed, AllPiped, Attributed, Locking;
    if cfg.maxWaiters == 0 || n <= cfg.maxWaiters {
      forall acts, r | Runs(cfg, Fresh(n), acts, r) ensures r.waiting <= cfg.maxWaiters {
        if cfg.maxWaiters == 0 {
          LimitKept(cfg, Fresh(n), acts, r);
        } else {
          InitInv(cfg, Fresh(n));
          ThreadsStay(cfg, Fresh(n), acts, r);
          WaitingIsExact(cfg, Fresh(n), acts, r);
          FewWait(r.threads);
        }
      }
    } else {
      var acts, r := AllCount(cfg, n, n);
    }
  }
}
