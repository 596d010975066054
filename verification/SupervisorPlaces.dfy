/** Where each process is: in one place at any time, from its start to the end of the run. */
module SupervisorPlaces {
  import opened Bytes
  import opened Frames
  import opened Supervisor
  import opened SupervisorLocks
  import opened Sums

  /** Whether a thread has the process in hand: it probes it, or took it out to be replaced. */
  function Has(th: Thread, p: nat): nat {
    if (th.pc.Writing? || th.pc.Reading?) && th.pc.job.Probe? && th.pc.p == p then 1
    else if th.pc.Handing? && th.pc.held == Some(p) then 1
    else 0
  }

  function InHand(p: nat): Thread -> nat {
    (th: Thread) => Has(th, p)
  }

  /** In the slot, handed to cleanup, or seen to have exited; each hand-over counts. */
  function Elsewhere(s: State, p: nat): nat {
    (if s.slot == Some(p) then 1 else 0) + s.cleanup[p] + s.reaped[p]
  }

  function Started(s: State, p: nat): nat {
    if p < |s.procs| then 1 else 0
  }

  /** Every process started is in exactly one place, exactly once, and no other process is anywhere. */
  ghost predicate Placed(s: State) {
    forall p: nat :: Sum(Map(InHand(p), s.threads)) + Elsewhere(s, p) == Started(s, p)
  }

  predicate PlaceEffect(s: State, r: State, t: nat, p: nat) {
    && t < |s.threads| == |r.threads|
    && Has(r.threads[t], p) + Elsewhere(r, p) + Started(s, p) == Has(s.threads[t], p) + Elsewhere(s, p) + Started(r, p)
  }

  lemma BeginPlace(cfg: Config, s: State, a: Action, t: nat, p: nat)
    requires Enabled(s, a) && Actor(a) == Some(t)
    requires a.Begin? || a.BeginStart? || a.BeginRestart? || a.SpawnFails?
    ensures PlaceEffect(s, Next(cfg, s, a), t, p)
  {
    hide StepOf, MoveOf, FailOf, CanMove, CanStep, CanFail;
  }

  lemma QueuePlace(cfg: Config, s: State, t: nat, p: nat)
    requires CanStep(s, t) && InQueue(s.threads[t].pc)
    ensures PlaceEffect(s, QueueStep(cfg, s, t), t, p)
  {
  }

  lemma BooksPlace(s: State, t: nat, p: nat)
    requires CanStep(s, t) && InBooks(s.threads[t].pc)
    ensures PlaceEffect(s, BooksStep(s, t), t, p)
  {
  }

  lemma SlotPlace(s: State, t: nat, p: nat)
    requires CanStep(s, t) && InSlot(s.threads[t].pc)
    ensures PlaceEffect(s, SlotStep(s, t), t, p)
  {
  }

  lemma StartPlace(s: State, t: nat, p: nat)
    requires CanStep(s, t) && InStart(s.threads[t].pc)
    ensures PlaceEffect(s, StartStep(s, t), t, p)
  {
  }

  lemma RestartPlace(s: State, t: nat, p: nat)
    requires CanStep(s, t) && InRestart(s.threads[t].pc)
    ensures PlaceEffect(s, RestartStep(s, t), t, p)
  {
  }

  lemma DropPlace(s: State, t: nat, p: nat)
    requires Control(s, t) && Grounded(s, t) && (s.threads[t].pc.Writing? || s.threads[t].pc.Reading?)
    ensures PlaceEffect(s, Drop(s, t, s.threads[t].pc.job, s.threads[t].pc.p), t, p)
  {
  }

  lemma FinishPlace(s: State, t: nat, p: nat)
    requires Control(s, t) && CanStep(s, t) && s.threads[t].pc.Reading?
    ensures PlaceEffect(s, Finish(s, t, s.threads[t].pc.job, s.threads[t].pc.p, s.threads[t].pc.got), t, p)
  {
    hide Accepts, Want, Drop;
    DropPlace(s, t, p);
  }

  lemma MovePlace(s: State, t: nat, n: nat, p: nat)
    requires CanMove(s, t, n)
    ensures PlaceEffect(s, MoveOf(s, t, n), t, p)
  {
    hide EncodeFrame, Want;
  }

  lemma FailPlace(s: State, t: nat, p: nat)
    requires Control(s, t) && CanFail(s, t)
    ensures PlaceEffect(s, FailOf(s, t), t, p)
  {
    hide Drop;
    if s.threads[t].pc.Writing? || s.threads[t].pc.Reading? {
      DropPlace(s, t, p);
    }
  }

  lemma PlaceStep(cfg: Config, s: State, a: Action, t: nat, p: nat)
    requires Control(s, t) && Enabled(s, a) && Actor(a) == Some(t)
    ensures PlaceEffect(s, Next(cfg, s, a), t, p)
  {
    hide Control, PlaceEffect, QueueStep, BooksStep, SlotStep, StartStep, RestartStep, Finish, MoveOf, FailOf,
      CanMove, CanFail, SetPc;
    match a
    case Step(_) =>
      if InQueue(s.threads[t].pc) {
        QueuePlace(cfg, s, t, p);
      } else if InBooks(s.threads[t].pc) {
        BooksPlace(s, t, p);
      } else if InSlot(s.threads[t].pc) {
        SlotPlace(s, t, p);
      } else if s.threads[t].pc.Reading? {
        FinishPlace(s, t, p);
      } else if InStart(s.threads[t].pc) {
        StartPlace(s, t, p);
      } else {
        RestartPlace(s, t, p);
      }
    case Move(_, n) => MovePlace(s, t, n, p);
    case Fail(_) => FailPlace(s, t, p);
    case _ => BeginPlace(cfg, s, a, t, p);
  }

  lemma PlacedKept(cfg: Config, s: State, a: Action)
    requires Locking(s) && Placed(s) && Enabled(s, a)
    ensures Placed(Next(cfg, s, a))
  {
    hide Enabled, Next, Control, ControlEffect, Sum, PlaceEffect, Elsewhere, Started;
    var r := Next(cfg, s, a);
    if Actor(a).Some? {
      var t := Actor(a).value;
      ActorThere(s, a, t);
      ControlStep(cfg, s, a, t);
      forall p: nat ensures Sum(Map(InHand(p), r.threads)) + Elsewhere(r, p) == Started(r, p) {
        PlaceStep(cfg, s, a, t, p);
        PlaceMoves(s, r, t, p);
      }
    } else {
      ProcessStep(cfg, s, a);
      forall p: nat ensures Sum(Map(InHand(p), r.threads)) + Elsewhere(r, p) == Started(r, p) {
        SamePlace(s, r, p);
      }
    }
  }

  lemma SamePlace(s: State, r: State, p: nat)
    requires |r.procs| == |s.procs| && r.slot == s.slot && r.cleanup == s.cleanup && r.reaped == s.reaped
    ensures Elsewhere(r, p) == Elsewhere(s, p) && Started(r, p) == Started(s, p)
  {
  }

  lemma PlaceMoves(s: State, r: State, t: nat, p: nat)
    requires ControlEffect(s, r, t) && PlaceEffect(s, r, t, p)
    requires Sum(Map(InHand(p), s.threads)) + Elsewhere(s, p) == Started(s, p)
    ensures Sum(Map(InHand(p), r.threads)) + Elsewhere(r, p) == Started(r, p)
  {
    hide Control, Sum, Elsewhere, Started;
    MapUpdate(InHand(p), s.threads, t, r.threads[t]);
  }
}
