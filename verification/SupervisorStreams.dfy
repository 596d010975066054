/** A process of the supervisor is the worker loop: the same frames taken, the same bytes put out. */
module SupervisorStreams {
  import opened Bytes
  import opened Frames
  import IO = FrameIo
  import opened WorkerLoop
  import opened Supervisor
  import opened SupervisorLocks
  import opened SupervisorPipes
  import opened SupervisorCalls

  /** What a step writes into the input of process `p`. */
  function FedIn(s: State, a: Action, p: nat): seq<byte>
    requires Enabled(s, a)
  {
    if a.Move? && s.threads[a.t].pc.Writing? && s.threads[a.t].pc.p == p then
      var pc := s.threads[a.t].pc;
      EncodeFrame(FrameOf(s, a.t, pc.job))[pc.off..pc.off + a.n]
    else []
  }

  /** What process `p` puts out in a step. */
  function PutIn(s: State, a: Action, p: nat): seq<byte>
    requires Enabled(s, a)
  {
    if a.Emit? && a.p == p then s.procs[p].outq[..a.n] else []
  }

  /** All that was written to process `p` in a run. */
  ghost function Fed(cfg: Config, s: State, acts: seq<Action>, p: nat): seq<byte>
    decreases |acts|
  {
    if acts != [] && Enabled(s, acts[0]) then FedIn(s, acts[0], p) + Fed(cfg, Next(cfg, s, acts[0]), acts[1..], p)
    else []
  }

  /** All that process `p` put out in a run. */
  ghost function Put(cfg: Config, s: State, acts: seq<Action>, p: nat): seq<byte>
    decreases |acts|
  {
    if acts != [] && Enabled(s, acts[0]) then PutIn(s, acts[0], p) + Put(cfg, Next(cfg, s, acts[0]), acts[1..], p)
    else []
  }

  /** The input is the frames taken and what waits; the output, with what is still owed, the answers to them. */
  ghost predicate Served(h: Handler, q: Proc, fed: seq<byte>, put: seq<byte>) {
    && fed == EncodeAll(q.taken) + q.inbuf
    && put + q.outq == EncodeAll(Answers(q.taken, h))
    && forall f | f in q.taken :: |f.payload| <= MAX_PAYLOAD && !Shutdown(f)
  }

  ghost predicate Streams(cfg: Config, s: State, p: nat, fed: seq<byte>, put: seq<byte>) {
    if p < |s.procs| then Served(cfg.handlers(p), s.procs[p], fed, put) else fed == [] && put == []
  }

  lemma FrontIs(b: seq<byte>)
    requires Front(b).Some?
    ensures var f := Front(b).value;
      && |f.payload| <= MAX_PAYLOAD && HEADER + |f.payload| <= |b|
      && b == EncodeFrame(f) + b[HEADER + |f.payload|..]
  {
    var len := ReadU32(b, 16);
    var h, payload, rest := b[..HEADER], b[HEADER..HEADER + len], b[HEADER + len..];
    IO.FrameFromParts(b, h, payload, rest);
  }

  lemma ServeServed(h: Handler, q: Proc, fed: seq<byte>, put: seq<byte>)
    requires Served(h, q, fed, put) && CanDispatch(q)
    ensures Served(h, Serve(h, q), fed, put)
  {
    FrontIs(q.inbuf);
    hide EncodeFrame, EncodeAll, Answers, Front, Respond;
    var f := Front(q.inbuf).value;
    var rest := q.inbuf[HEADER + |f.payload|..];
    EncodeAllSnoc(q.taken, f);
    AnswersSnoc(q.taken, f, h);
    Regroup(EncodeAll(q.taken), EncodeFrame(f), rest);
    assert put + [] == put;
    if Answered(f) {
      EncodeAllSnoc(Answers(q.taken, h), Respond(f, h(q.taken + [f])));
    }
  }

  lemma EmitServed(h: Handler, q: Proc, n: nat, fed: seq<byte>, put: seq<byte>)
    requires Served(h, q, fed, put) && n <= |q.outq|
    ensures Served(h, q.(outq := q.outq[n..], outbuf := q.outbuf + q.outq[..n]), fed, put + q.outq[..n])
  {
    Regroup(put, q.outq[..n], q.outq[n..]);
  }

  lemma FeedServed(h: Handler, q: Proc, r: Proc, more: seq<byte>, fed: seq<byte>, put: seq<byte>)
    requires Served(h, q, fed, put)
    requires r.taken == q.taken && r.outq == q.outq && r.inbuf == q.inbuf + more
    ensures Served(h, r, fed + more, put)
  {
    Regroup(EncodeAll(q.taken), q.inbuf, more);
  }

  /** A thread's move feeds its process, or only reads from it. */
  lemma MoveFeeds(s: State, t: nat, n: nat, p: nat)
    requires Enabled(s, Move(t, n))
    ensures |MoveOf(s, t, n).procs| == |s.procs|
    ensures p < |s.procs| ==>
      var q, r := s.procs[p], MoveOf(s, t, n).procs[p];
      r.taken == q.taken && r.outq == q.outq && r.inbuf == q.inbuf + FedIn(s, Move(t, n), p)
    ensures p >= |s.procs| ==> FedIn(s, Move(t, n), p) == []
  {
    hide EncodeFrame, Want;
  }

  lemma StreamsKept(cfg: Config, s: State, a: Action, p: nat, fed: seq<byte>, put: seq<byte>)
    requires Streams(cfg, s, p, fed, put) && Enabled(s, a)
    ensures Streams(cfg, Next(cfg, s, a), p, fed + FedIn(s, a, p), put + PutIn(s, a, p))
  {
    hide Served, EncodeFrame, Front, Shutdown, MoveOf, CanMove, StepOf, FailOf, Serve;
    assert fed + [] == fed && put + [] == put;
    match a
    case Move(t, n) =>
      MoveFeeds(s, t, n, p);
      if p < |s.procs| {
        FeedServed(cfg.handlers(p), s.procs[p], MoveOf(s, t, n).procs[p], FedIn(s, a, p), fed, put);
      }
    case Dispatch(x) =>
      if x == p {
        ServeServed(cfg.handlers(p), s.procs[p], fed, put);
      }
    case Emit(x, n) =>
      if x == p {
        EmitServed(cfg.handlers(p), s.procs[p], n, fed, put);
      }
    case Kill(x) =>
      if x == p {
        FeedServed(cfg.handlers(p), s.procs[p], s.procs[p].(alive := false), [], fed, put);
      }
    case _ =>
      QuietStep(cfg, s, a, a.t);
      NewServed(cfg.handlers(p));
  }

  lemma NewServed(h: Handler)
    ensures Served(h, NEW_PROC, [], [])
  {
  }

  lemma {:induction false} StreamsRun(cfg: Config, s: State, acts: seq<Action>, r: State, p: nat,
      fed: seq<byte>, put: seq<byte>)
    requires Streams(cfg, s, p, fed, put) && Runs(cfg, s, acts, r)
    ensures Streams(cfg, r, p, fed + Fed(cfg, s, acts, p), put + Put(cfg, s, acts, p))
    decreases |acts|
  {
    hide Enabled, Next, Streams, FedIn, PutIn;
    if acts == [] {
      assert fed + [] == fed && put + [] == put;
    } else {
      var n, f, o := Next(cfg, s, acts[0]), FedIn(s, acts[0], p), PutIn(s, acts[0], p);
      StreamsKept(cfg, s, acts[0], p, fed, put);
      StreamsRun(cfg, n, acts[1..], r, p, fed + f, put + o);
      Regroup(fed, f, Fed(cfg, n, acts[1..], p));
      Regroup(put, o, Put(cfg, n, acts[1..], p));
    }
  }

  /**
  Over any run, what a process took is whole frames of what was written to it, in
  order, and what it put out begins the answers to them.
  */
  lemma PutAnswers(cfg: Config, s: State, acts: seq<Action>, r: State, p: nat)
    requires Init(s) && Runs(cfg, s, acts, r) && p < |r.procs|
    ensures Served(cfg.handlers(p), r.procs[p], Fed(cfg, s, acts, p), Put(cfg, s, acts, p))
    ensures Put(cfg, s, acts, p) <= EncodeAll(Answers(r.procs[p].taken, cfg.handlers(p)))
  {
    StreamsRun(cfg, s, acts, r, p, [], []);
    hide Runs, EncodeAll, Answers;
    var f, o := Fed(cfg, s, acts, p), Put(cfg, s, acts, p);
    assert [] + f == f && [] + o == o;
  }

  lemma LoopPuts(o: Origin, served: seq<Frame>, exit: Exit, rs: seq<Frame>, written: seq<byte>)
    requires Ended(o, served, exit, rs, written) && o.output == []
    ensures written <= EncodeAll(rs)
  {
    hide EncodeAll, Stuck, Shutdown;
    assert o.output + EncodeAll(rs) == EncodeAll(rs);
  }

  lemma AnswersBegin(fs: seq<Frame>, gs: seq<Frame>, h: Handler)
    requires fs <= gs
    ensures EncodeAll(Answers(fs, h)) <= EncodeAll(Answers(gs, h))
  {
    hide EncodeAll, Answers, EncodeFrame;
    AnswersGrow(gs, |fs|, h);
    assert gs[..|fs|] == fs;
    var few, all := Answers(fs, h), Answers(gs, h);
    assert all == few + all[|few|..];
    EncodeAllAppend(few, all[|few|..]);
  }

  /** The loop on the input of a served process. */
  lemma LoopMeets(h: Handler, q: Proc, put: seq<byte>, o: Origin, served: seq<Frame>, exit: Exit, written: seq<byte>)
    requires Served(h, q, o.input, put) && o.output == []
    requires Ended(o, served, exit, Answers(served, h), written)
    ensures served <= q.taken || q.taken <= served
    ensures written <= put || put <= written
  {
    LoopPuts(o, served, exit, Answers(served, h), written);
    hide EncodeAll, Answers, GivenShort, Stuck, Shutdown;
    var rest := o.input[|EncodeAll(served)|..];
    assert EncodeAll(served) + rest == o.input;
    assert forall f | f in served + q.taken :: Sized(f);
    StreamsAgree(served, rest, q.taken, q.inbuf);
    if served <= q.taken {
      AnswersBegin(served, q.taken, h);
    } else {
      AnswersBegin(q.taken, served, h);
    }
    BothBegin(written, put, EncodeAll(Answers(served, h)), EncodeAll(Answers(q.taken, h)));
  }

  lemma BothBegin(a: seq<byte>, b: seq<byte>, x: seq<byte>, y: seq<byte>)
    requires a <= x && b <= y && (x <= y || y <= x)
    ensures a <= b || b <= a
  {
  }

  /**
  The worker loop on what a process was fed, over pipes of its own, takes the frames
  the process took and puts out the bytes the process put out, as far as either got.
  */
  lemma ProcessIsTheLoop(cfg: Config, s: State, acts: seq<Action>, r: State, p: nat,
      o: Origin, served: seq<Frame>, exit: Exit, written: seq<byte>)
    requires Init(s) && Runs(cfg, s, acts, r) && p < |r.procs|
    requires o.input == Fed(cfg, s, acts, p) && o.output == []
    requires Ended(o, served, exit, Answers(served, cfg.handlers(p)), written)
    ensures served <= r.procs[p].taken || r.procs[p].taken <= served
    ensures written <= Put(cfg, s, acts, p) || Put(cfg, s, acts, p) <= written
  {
    hide Runs, Served, Fed, Put, Ended, EncodeAll;
    PutAnswers(cfg, s, acts, r, p);
    LoopMeets(cfg.handlers(p), r.procs[p], Put(cfg, s, acts, p), o, served, exit, written);
  }

  /** So it is with the loop run beside the supervisor, whatever the schedules of its pipes. */
  method RunBeside(cfg: Config, ghost s: State, ghost acts: seq<Action>, ghost r: State, p: nat,
      fed: seq<byte>, input: seq<IO.Event>, output: seq<IO.Event>)
    returns (served: seq<Frame>, written: seq<byte>)
    requires Init(s) && Runs(cfg, s, acts, r) && p < |r.procs| && fed == Fed(cfg, s, acts, p)
    ensures served <= r.procs[p].taken || r.procs[p].taken <= served
    ensures written <= Put(cfg, s, acts, p) || Put(cfg, s, acts, p) <= written
    ensures written <= EncodeAll(Answers(served, cfg.handlers(p)))
  {
    hide Runs, Served, Fed, Put, Ended, EncodeAll, Answers;
    var source := new IO.Source(fed, input);
    var sink := new IO.Sink(output);
    var exit;
    served, exit := RunIpcWorker(source, sink, cfg.handlers(p));
    written := sink.written;
    ghost var o := Origin(fed, [], IO.Moves(input), IO.Moves(output));
    ProcessIsTheLoop(cfg, s, acts, r, p, o, served, exit, written);
    LoopPuts(o, served, exit, Answers(served, cfg.handlers(p)), written);
  }
}
