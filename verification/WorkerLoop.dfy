/** The worker's request loop: one answer to each request frame, in order, under its id and opcode. */
module WorkerLoop {
  import opened Bytes
  import opened Frames
  import opened FrameIo

  /** What a handler decides about the latest of the frames the worker has read so far. */
  datatype Reply = Json(body: seq<byte>) | Binary(body: seq<byte>)

  type Handler = seq<Frame> -> Reply

  /** `json_response` and `binary_response`. */
  function Respond(req: Frame, reply: Reply): Frame {
    match reply
    case Json(body) => Frame(KIND_RESPONSE, req.id, req.opcode, 0, body)
    case Binary(body) => Frame(KIND_RESPONSE, req.id, req.opcode, FLAG_BINARY, body)
  }

  /** An answer to the request: a response under its id and opcode with what the handler replied. */
  predicate Carries(a: Frame, req: Frame, reply: Reply) {
    && a.kind == KIND_RESPONSE && a.id == req.id && a.opcode == req.opcode
    && a.payload == reply.body && (a.flags % 2 == 1 <==> reply.Binary?)
  }

  /** The worker answers requests, skips other frames, and exits on a shutdown request. */
  predicate Answered(f: Frame) {
    f.kind == KIND_REQUEST && f.opcode != OP_SHUTDOWN
  }

  predicate Shutdown(f: Frame) {
    f.kind == KIND_REQUEST && f.opcode == OP_SHUTDOWN
  }

  /** The answers to `fs[..n]`, where `fs` is everything read so far. */
  function Answers(fs: seq<Frame>, handler: Handler): (rs: seq<Frame>) {
    if fs == [] then []
    else
      var before := Answers(fs[..|fs| - 1], handler);
      var f := fs[|fs| - 1];
      if Answered(f) then before + [Respond(f, handler(fs))] else before
  }

  /** The requests among the frames. */
  function Requests(fs: seq<Frame>): seq<Frame> {
    if fs == [] then []
    else Requests(fs[..|fs| - 1]) + if Answered(fs[|fs| - 1]) then [fs[|fs| - 1]] else []
  }

  lemma {:induction false} AsManyAnswers(fs: seq<Frame>, handler: Handler)
    ensures |Answers(fs, handler)| == |Requests(fs)|
    decreases |fs|
  {
    if fs == [] {
    } else {
      AsManyAnswers(fs[..|fs| - 1], handler);
    }
  }

  /**
  Exactly one answer to each request, in order: a response with the request's id and
  opcode, and with the body of what the handler replied, flagged if that is binary.
  */
  lemma {:induction false} OneAnswerEach(fs: seq<Frame>, k: nat, handler: Handler)
    requires k < |fs| && Answered(fs[k])
    ensures |Answers(fs, handler)| == |Requests(fs)|
    ensures var i, reply := |Requests(fs[..k])|, handler(fs[..k + 1]);
      && i < |Requests(fs)| && Requests(fs)[i] == fs[k]
      && Carries(Answers(fs, handler)[i], fs[k], reply)
    decreases |fs|
  {
    AsManyAnswers(fs, handler);
    var init := fs[..|fs| - 1];
    AsManyAnswers(init, handler);
    if k == |init| {
      assert fs[..k + 1] == fs;
    } else {
      assert init[..k] == fs[..k] && init[..k + 1] == fs[..k + 1];
      hide Respond;
      OneAnswerEach(init, k, handler);
    }
  }

  lemma AnswersSnoc(fs: seq<Frame>, f: Frame, handler: Handler)
    ensures Answers(fs + [f], handler)
      == if Answered(f) then Answers(fs, handler) + [Respond(f, handler(fs + [f]))] else Answers(fs, handler)
  {
    assert (fs + [f])[..|fs|] == fs;
  }

  /** How the loop ends. */
  datatype Exit = InputClosed | OutputClosed | ShutDown

  /** Where a run of the loop began: its input, what was put out before, and how often either pipe will move. */
  datatype Origin = Origin(input: seq<byte>, output: seq<byte>, inMoves: nat, outMoves: nat)

  /** The frames taken are the input so far, within the cap, and none but the latest a shutdown. */
  ghost predicate Taken(o: Origin, served: seq<Frame>, pending: seq<byte>, inMoves: nat) {
    && o.input == EncodeAll(served) + pending
    && (forall f | f in served :: |f.payload| <= MAX_PAYLOAD)
    && o.inMoves <= inMoves + |EncodeAll(served)|
    && (forall i | 0 <= i < |served| - 1 :: !Shutdown(served[i]))
  }

  /** The answers are the output so far. */
  ghost predicate Given(o: Origin, rs: seq<Frame>, written: seq<byte>, outMoves: nat) {
    written == o.output + EncodeAll(rs) && o.outMoves <= outMoves + |EncodeAll(rs)|
  }

  /** The answers but the last are out, and a beginning of the last; the pipe moved less than they take. */
  ghost predicate GivenShort(o: Origin, rs: seq<Frame>, written: seq<byte>) {
    && rs != []
    && o.output + EncodeAll(rs[..|rs| - 1]) <= written < o.output + EncodeAll(rs)
    && o.outMoves < |EncodeAll(rs)|
  }

  lemma TakesFrame(o: Origin, served: seq<Frame>, f: Frame, pending: seq<byte>, rest: seq<byte>,
      inMoves: nat, left: nat)
    requires Taken(o, served, pending, inMoves) && (served != [] ==> !Shutdown(served[|served| - 1]))
    requires pending == EncodeFrame(f) + rest && |f.payload| <= MAX_PAYLOAD
    requires inMoves <= left + HEADER + |f.payload|
    ensures Taken(o, served + [f], rest, left) && |rest| < |pending|
  {
    TookFrame(o.input, served, f, pending, rest);
    hide EncodeFrame, EncodeAll, Shutdown;
    assert forall i | 0 <= i < |served| :: (served + [f])[i] == served[i];
  }

  lemma Starves(o: Origin, served: seq<Frame>, pending: seq<byte>, inMoves: nat)
    requires Taken(o, served, pending, inMoves)
    requires forall g, rest | StartsWith(pending, g, rest) && |g.payload| <= MAX_PAYLOAD ::
      inMoves < HEADER + |g.payload|
    ensures Stuck(o.input, |EncodeAll(served)|, o.inMoves)
  {
    hide EncodeFrame, EncodeAll;
    assert o.input[|EncodeAll(served)|..] == pending;
  }

  lemma GivesAnswer(o: Origin, rs: seq<Frame>, resp: Frame, written: seq<byte>, outMoves: nat,
      done: nat, now: seq<byte>, left: nat)
    requires Given(o, rs, written, outMoves)
    requires done <= |EncodeFrame(resp)| && now == written + EncodeFrame(resp)[..done] && outMoves <= left + done
    requires done < |EncodeFrame(resp)| ==> outMoves <= done
    ensures done == |EncodeFrame(resp)| ==> Given(o, rs + [resp], now, left)
    ensures done < |EncodeFrame(resp)| ==> GivenShort(o, rs + [resp], now)
  {
    hide EncodeFrame, EncodeAll;
    PutFrame(o.output, rs, resp, done);
    assert (rs + [resp])[..|rs|] == rs;
  }

  /**
  How a run of the loop may have ended. The frames it served are what it took from
  its input; what it put out is the answers `rs` to them, the last one possibly cut
  short. It stops for input only when no whole frame within the cap can be had, and
  for output only when its pipe stops moving.
  */
  ghost predicate Ended(o: Origin, served: seq<Frame>, exit: Exit, rs: seq<Frame>, written: seq<byte>) {
    && EncodeAll(served) <= o.input
    && (forall f | f in served :: |f.payload| <= MAX_PAYLOAD)
    && (forall i | 0 <= i < |served| - 1 :: !Shutdown(served[i]))
    && (exit == ShutDown <==> served != [] && Shutdown(served[|served| - 1]))
    && match exit
       case InputClosed =>
         && written == o.output + EncodeAll(rs)
         && Stuck(o.input, |EncodeAll(served)|, o.inMoves)
       case ShutDown => written == o.output + EncodeAll(rs)
       case OutputClosed => GivenShort(o, rs, written)
  }

  lemma EndsStarved(o: Origin, served: seq<Frame>, rs: seq<Frame>, pending: seq<byte>, inMoves: nat,
      written: seq<byte>, outMoves: nat)
    requires Taken(o, served, pending, inMoves) && Given(o, rs, written, outMoves)
    requires served != [] ==> !Shutdown(served[|served| - 1])
    requires forall g, rest | StartsWith(pending, g, rest) && |g.payload| <= MAX_PAYLOAD ::
      inMoves < HEADER + |g.payload|
    ensures Ended(o, served, InputClosed, rs, written)
  {
    hide EncodeAll, Shutdown, GivenShort, Stuck;
    Starves(o, served, pending, inMoves);
  }

  lemma EndsShutDown(o: Origin, served: seq<Frame>, rs: seq<Frame>, pending: seq<byte>, inMoves: nat,
      written: seq<byte>, outMoves: nat)
    requires Taken(o, served, pending, inMoves) && Given(o, rs, written, outMoves)
    requires served != [] && Shutdown(served[|served| - 1])
    ensures Ended(o, served, ShutDown, rs, written)
  {
    hide EncodeAll, Shutdown, GivenShort, Stuck;
  }

  lemma EndsCut(o: Origin, served: seq<Frame>, rs: seq<Frame>, pending: seq<byte>, inMoves: nat, written: seq<byte>)
    requires Taken(o, served, pending, inMoves) && GivenShort(o, rs, written)
    requires served != [] && Answered(served[|served| - 1])
    ensures Ended(o, served, OutputClosed, rs, written)
  {
    hide EncodeAll, GivenShort, Stuck;
  }

  /** `run_ipc_worker` */
  method RunIpcWorker(input: Source, output: Sink, handler: Handler) returns (served: seq<Frame>, exit: Exit)
    modifies input, output
    ensures Ended(
      old(Origin(input.pending, output.written, Moves(input.script), Moves(output.script))),
      served, exit, Answers(served, handler), output.written)
  {
    ghost var o := Origin(input.pending, output.written, Moves(input.script), Moves(output.script));
    ghost var answers: seq<Frame> := [];
    served := [];
    while true
      invariant Taken(o, served, input.pending, Moves(input.script))
      invariant Given(o, answers, output.written, Moves(output.script)) && answers == Answers(served, handler)
      invariant served != [] ==> !Shutdown(served[|served| - 1])
      decreases |input.pending|
    {
      hide EncodeFrame, EncodeAll, Answers, Moves, Respond, Taken, Given, GivenShort, Ended;
      ghost var before, pending, inMoves := served, input.pending, Moves(input.script);
      ghost var written, outMoves := output.written, Moves(output.script);
      var req := input.ReadFrame(MAX_PAYLOAD);
      if req.None? {
        EndsStarved(o, served, answers, pending, inMoves, written, outMoves);
        return served, InputClosed;
      }
      var f := req.value;
      served := served + [f];
      TakesFrame(o, before, f, pending, input.pending, inMoves, Moves(input.script));
      AnswersSnoc(before, f, handler);
      if Answered(f) {
        var resp := Respond(f, handler(served));
        ghost var done;
        var ok;
        ok, done := output.WriteFrameTwice(resp);
        GivesAnswer(o, answers, resp, written, outMoves, done, output.written, Moves(output.script));
        answers := answers + [resp];
        if !ok {
          EndsCut(o, served, answers, input.pending, Moves(input.script), output.written);
          return served, OutputClosed;
        }
      } else if f.kind == KIND_REQUEST {
        EndsShutDown(o, served, answers, input.pending, Moves(input.script), written, outMoves);
        return served, ShutDown;
      }
    }
  }

  lemma TookFrame(start: seq<byte>, fs: seq<Frame>, f: Frame, pending: seq<byte>, rest: seq<byte>)
    requires start == EncodeAll(fs) + pending && pending == EncodeFrame(f) + rest
    ensures start == EncodeAll(fs + [f]) + rest
    ensures EncodeAll(fs + [f]) <= start
    ensures |EncodeAll(fs + [f])| == |EncodeAll(fs)| + HEADER + |f.payload|
    ensures |pending| == HEADER + |f.payload| + |rest|
  {
    FrameLength(f);
    hide EncodeFrame, EncodeAll;
    EncodeAllSnoc(fs, f);
    Regroup(EncodeAll(fs), EncodeFrame(f), rest);
  }

  lemma PutFrame(out: seq<byte>, rs: seq<Frame>, resp: Frame, done: nat)
    requires done <= |EncodeFrame(resp)|
    ensures var now := out + EncodeAll(rs) + EncodeFrame(resp)[..done];
      if done == |EncodeFrame(resp)|
      then now == out + EncodeAll(rs + [resp])
      else out + EncodeAll(rs) <= now < out + EncodeAll(rs + [resp])
    ensures |EncodeAll(rs + [resp])| == |EncodeAll(rs)| + |EncodeFrame(resp)|
  {
    hide EncodeFrame, EncodeAll;
    EncodeAllSnoc(rs, resp);
    var whole := EncodeFrame(resp);
    Regroup(out, EncodeAll(rs), whole);
    if done == |whole| {
      assert whole[..done] == whole;
    }
  }

  /** No whole frame within the cap can be read past the first `n` bytes. */
  ghost predicate Stuck(start: seq<byte>, n: nat, moves: nat) {
    n <= |start| && forall g, rest | StartsWith(start[n..], g, rest) && |g.payload| <= MAX_PAYLOAD ::
      moves < n + HEADER + |g.payload|
  }

  lemma FrameLength(f: Frame)
    ensures |EncodeFrame(f)| == HEADER + |f.payload|
  {
  }

  /** Two lists of frames that start the same byte string agree as far as the shorter goes. */
  lemma {:induction false} StreamsAgree(fs: seq<Frame>, r: seq<byte>, gs: seq<Frame>, q: seq<byte>)
    requires forall f | f in fs + gs :: Sized(f)
    requires EncodeAll(fs) + r == EncodeAll(gs) + q
    ensures fs <= gs || gs <= fs
    decreases |fs|
  {
    if fs == [] || gs == [] {
    } else {
      hide EncodeFrame, EncodeAll;
      FirstFrame(fs, r);
      FirstFrame(gs, q);
      assert fs[0] in fs + gs && gs[0] in fs + gs;
      FramePrefixUnique(fs[0], EncodeAll(fs[1..]) + r, gs[0], EncodeAll(gs[1..]) + q);
      assert forall f | f in fs[1..] + gs[1..] :: f in fs + gs;
      StreamsAgree(fs[1..], r, gs[1..], q);
    }
  }

  lemma FirstFrame(fs: seq<Frame>, r: seq<byte>)
    requires fs != []
    ensures EncodeAll(fs) + r == EncodeFrame(fs[0]) + (EncodeAll(fs[1..]) + r)
  {
    hide EncodeFrame, EncodeAll;
    EncodeAllCons(fs[0], fs[1..]);
    assert fs == [fs[0]] + fs[1..];
    Regroup(EncodeFrame(fs[0]), EncodeAll(fs[1..]), r);
  }

  /** Frames whose encoding begins that of others begin them. */
  lemma ServedPrefix(fs: seq<Frame>, served: seq<Frame>, rest: seq<byte>)
    requires forall f | f in fs + served :: |f.payload| <= MAX_PAYLOAD
    requires EncodeAll(served) + rest == EncodeAll(fs) + []
    ensures served <= fs
  {
    hide EncodeFrame, EncodeAll;
    assert forall f | f in served + fs :: f in fs + served;
    StreamsAgree(served, rest, fs, []);
    if |served| > |fs| {
      var g, more := served[|fs|], served[|fs| + 1..];
      assert served == fs + ([g] + more);
      EncodeAllAppend(fs, [g] + more);
      EncodeAllCons(g, more);
      FrameLength(g);
    }
  }

  /**
  Delivery: if the input is exactly a list of frames within the cap, and its pipe
  moves at least as often as there are bytes, then a loop that ended for lack of
  input has served that very list, nothing more or less.
  */
  lemma StreamDelivered(fs: seq<Frame>, served: seq<Frame>, rest: seq<byte>, moves: nat)
    requires forall f | f in fs + served :: |f.payload| <= MAX_PAYLOAD
    requires EncodeAll(served) + rest == EncodeAll(fs) + []
    requires moves >= |EncodeAll(fs)|
    requires forall g, more | StartsWith(rest, g, more) && |g.payload| <= MAX_PAYLOAD ::
      moves < |EncodeAll(served)| + HEADER + |g.payload|
    ensures served == fs
  {
    hide EncodeFrame, EncodeAll;
    ServedPrefix(fs, served, rest);
    if |served| < |fs| {
      var g, more := fs[|served|], fs[|served| + 1..];
      assert fs == served + ([g] + more);
      EncodeAllAppend(served, [g] + more);
      EncodeAllCons(g, more);
      SameRest(EncodeAll(served), rest, EncodeFrame(g) + EncodeAll(more), EncodeAll(fs));
      assert StartsWith(rest, g, EncodeAll(more));
      assert g in fs + served;
      FrameLength(g);
    }
  }

  lemma SameRest(a: seq<byte>, r: seq<byte>, q: seq<byte>, all: seq<byte>)
    requires a + r == all + [] && a + q == all
    ensures r == q
  {
    assert all + [] == all;
    assert r == (a + r)[|a|..] && q == (a + q)[|a|..];
  }

  lemma {:induction false} AnswersGrow(fs: seq<Frame>, n: nat, handler: Handler)
    requires n <= |fs|
    ensures Answers(fs[..n], handler) <= Answers(fs, handler)
    decreases |fs|
  {
    if n == |fs| {
      assert fs[..n] == fs;
    } else {
      hide Respond;
      var init := fs[..|fs| - 1];
      assert fs[..n] == init[..n];
      AnswersGrow(init, n, handler);
    }
  }

  lemma EncodeAllGrows(rs: seq<Frame>, all: seq<Frame>)
    requires rs <= all
    ensures |EncodeAll(rs)| <= |EncodeAll(all)|
  {
    hide EncodeFrame, EncodeAll;
    assert all == rs + all[|rs|..];
    EncodeAllAppend(rs, all[|rs|..]);
  }

  lemma StuckAfter(start: seq<byte>, n: nat, moves: nat)
    requires Stuck(start, n, moves)
    ensures n <= |start| && forall g, more | StartsWith(start[n..], g, more) && |g.payload| <= MAX_PAYLOAD ::
      moves < n + HEADER + |g.payload|
  {
  }

  /** Over pipes that keep moving, a run of the loop on a list of frames ends for lack of input, all of them served. */
  lemma AllServed(fs: seq<Frame>, all: seq<Frame>, o: Origin, served: seq<Frame>, exit: Exit, rs: seq<Frame>,
      written: seq<byte>)
    requires forall f | f in fs :: |f.payload| <= MAX_PAYLOAD && !Shutdown(f)
    requires o.input == EncodeAll(fs) && o.inMoves >= |o.input| && o.outMoves >= |EncodeAll(all)|
    requires Ended(o, served, exit, rs, written) && (served <= fs ==> rs <= all)
    ensures served == fs && written == o.output + EncodeAll(rs)
  {
    hide EncodeFrame, EncodeAll, Stuck, Shutdown;
    assert forall f | f in fs + served :: |f.payload| <= MAX_PAYLOAD;
    var rest := o.input[|EncodeAll(served)|..];
    assert EncodeAll(served) + rest == o.input == EncodeAll(fs) + [];
    ServedPrefix(fs, served, rest);
    assert fs[..|served|] == served;
    EncodeAllGrows(rs, all);
    assert served != [] ==> served[|served| - 1] in fs;
    if exit == InputClosed {
      StuckAfter(o.input, |EncodeAll(served)|, o.inMoves);
      StreamDelivered(fs, served, rest, o.inMoves);
    }
  }

  /** A peer that sends a list of frames over a pipe that keeps moving has every one of them served. */
  method ServeAll(fs: seq<Frame>, input: seq<Event>, output: seq<Event>, handler: Handler)
    returns (served: seq<Frame>, out: seq<byte>)
    requires forall f | f in fs :: |f.payload| <= MAX_PAYLOAD && !Shutdown(f)
    requires Moves(input) >= |EncodeAll(fs)| && Moves(output) >= |EncodeAll(Answers(fs, handler))|
    ensures served == fs && out == EncodeAll(Answers(fs, handler))
  {
    hide EncodeFrame, EncodeAll, Answers, Ended;
    var source := new Source(EncodeAll(fs), input);
    var sink := new Sink(output);
    var exit;
    served, exit := RunIpcWorker(source, sink, handler);
    if served <= fs {
      AnswersGrow(fs, |served|, handler);
      assert fs[..|served|] == served;
    }
    AllServed(fs, Answers(fs, handler), Origin(EncodeAll(fs), [], Moves(input), Moves(output)), served, exit,
      Answers(served, handler), sink.written);
    out := sink.written;
  }
}
