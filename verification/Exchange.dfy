/** One exchange of `request` under the lock, on the pipes themselves. */
module Exchange {
  import opened Bytes
  import opened Frames
  import opened FrameIo
  import opened WorkerLoop
  import V = Supervisor

  datatype Process = Process(pid: nat, stdin: Sink, stdout: Source)

  /** A response to this request: kind, id and opcode. */
  predicate Matches(f: Frame, req: Frame) {
    f.kind == KIND_RESPONSE && f.id == req.id && f.opcode == req.opcode
  }

  /** What the worker mutex guards, and the processes handed over to be killed. */
  class Slot {
    var proc: Option<Process>
    var cleanup: seq<nat>

    constructor ()
      ensures proc == None && cleanup == []
    {
      proc, cleanup := None, [];
    }

    /** `abandon_locked_worker` */
    method Abandon()
      modifies this
      ensures proc == None
      ensures cleanup == old(cleanup) + if old(proc).Some? then [old(proc).value.pid] else []
    {
      if proc.Some? {
        cleanup := cleanup + [proc.value.pid];
      }
      proc := None;
    }

    /**
    From the first byte of the request on, the process is either left with both pipes
    advanced by exactly one request and one matching answer, or given up for good.
    Given pipes that move and a matching answer to come, it is the former.
    */
    method Request(req: Frame) returns (r: V.Result)
      requires proc.Some?
      modifies this, proc.value.stdin, proc.value.stdout
      ensures r.Failed? ==> proc == None && cleanup == old(cleanup) + [old(proc).value.pid]
      ensures r.Done? ==> proc == old(proc) && cleanup == old(cleanup)
      ensures r.Done? ==> r.frame.kind == KIND_RESPONSE && r.frame.id == req.id && r.frame.opcode == req.opcode
      ensures var p := old(proc).value;
        r.Done? ==>
          && p.stdin.written == old(proc.value.stdin.written) + EncodeFrame(req)
          && old(proc.value.stdout.pending) == EncodeFrame(r.frame) + p.stdout.pending
      ensures forall g, rest |
        && Sized(req) && old(Moves(proc.value.stdin.script)) >= |EncodeFrame(req)|
        && Sized(g) && StartsWith(old(proc.value.stdout.pending), g, rest)
        && g.kind == KIND_RESPONSE && g.id == req.id && g.opcode == req.opcode
        && old(Moves(proc.value.stdout.script)) >= |EncodeFrame(g)| :: r == V.Done(g)
    {
      var p := proc.value;
      ghost var pending := p.stdout.pending;
      forall g: Frame ensures |EncodeFrame(g)| == HEADER + |g.payload| {
        FrameLength(g);
      }
      hide EncodeFrame, Moves;
      var ok;
      ghost var done;
      ok, done := p.stdin.WriteFrameOnce(req);
      if !ok {
        Abandon();
        return V.Failed;
      }
      var resp := p.stdout.ReadFrame(U32_SIZE - 1);
      if resp.None? {
        Abandon();
        return V.Failed;
      }
      forall g, rest | Sized(g) && StartsWith(pending, g, rest) ensures g == resp.value {
        FramePrefixUnique(g, rest, resp.value, p.stdout.pending);
      }
      if !Matches(resp.value, req) {
        Abandon();
        return V.Failed;
      }
      r := V.Done(resp.value);
    }
  }
}
