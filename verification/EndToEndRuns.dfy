/** Runs in which batches do come back, and the TCP client at the far end of them. */
module EndToEndRuns {
  import opened Bytes
  import opened Layout
  import opened BatchCodec
  import opened BatchAgreement
  import opened Frames
  import opened KdCache
  import W = WorkerLoop
  import E = Engine
  import S = Stripes
  import N = Session
  import opened Supervisor
  import opened SupervisorLaws
  import opened SupervisorServes
  import opened EndToEnd

  /** The reply to a batch that can be served. */
  lemma RepliesPlaintexts(ops: E.Ops, f: Fifo<seq<byte>>, turn: Turn, b: Batch, ps: seq<S.Sample>)
    requires WorkerAccepts(b) && turn.open && E.Serve(ops, f, RequestFor(turn, b)) == Some(ps)
    ensures ReplyTo(ops, f, turn, EncodeBatch(b)) == W.Binary(EncodeSamples(ps))
  {
    hide EncodeBatch, EncodeSamples, E.Serve, WorkerAccepts;
    ParsedIs(EncodeBatch(b), b);
  }

  /** What the worker that gets a call from `s` has taken before it. */
  function Before(s: State): seq<Frame> {
    if Manned(s) then s.procs[s.slot.value].taken else [PROBE_FRAME]
  }

  /**
  Batches do come back: from every state in which a thread may call, whatever went
  before, a batch that the worker in the slot, or a new one, can serve is decrypted in
  some run, and `decrypt_batch` returns its plaintexts.
  */
  lemma BatchComesBack(cfg: Config, w: World, s: State, t: nat, b: Batch, ps: seq<S.Sample>)
    returns (acts: seq<Action>, r: State)
    requires Conforming(cfg) && Inv(cfg, s) && MayCall(cfg, s, t) && Decrypts(w, cfg.handlers(WorkerOf(s)))
    requires WorkerAccepts(b) && |EncodeBatch(b)| <= MAX_PAYLOAD
    requires var turn := w.turns(|Before(s)|);
      turn.open && E.Serve(w.ops, CacheAt(w, Before(s)), RequestFor(turn, b)) == Some(ps)
    ensures Runs(cfg, s, acts, r) && !r.exited && r.lock.None? && r.threads == s.threads
    ensures Decrypted(r, |s.calls|, b, ps)
  {
    var n := |Before(s)|;
    BuilderToo(b);
    RepliesPlaintexts(w.ops, CacheAt(w, Before(s)), w.turns(n), b, ps);
    hide Conforming, EncodeBatch, EncodeSamples, WorkerAccepts, BuilderAccepts, Inv, E.Serve, ReplyTo, CacheAt, Runs,
      Decrypts, Decrypted, MayCall;
    acts, r := CallAnswered(cfg, s, t, OP_DECRYPT_BATCH, EncodeBatch(b));
    var req, h := RequestOf(r.calls[|s.calls|]), cfg.handlers(WorkerOf(s));
    RepliesAfter(w, h, Before(s), req);
    IsDecrypted(r, |s.calls|, b, ps, h(Before(s) + [req]));
  }

  lemma RepliesAfter(w: World, h: W.Handler, before: seq<Frame>, req: Frame)
    requires Decrypts(w, h) && req.opcode == OP_DECRYPT_BATCH
    ensures h(before + [req]) == ReplyTo(w.ops, CacheAt(w, before), w.turns(|before|), req.payload)
  {
    hide ReplyTo, CacheAt;
    var fs := before + [req];
    assert fs[..|before|] == before && fs[|before|] == req;
    assert h(fs) == ReplyTo(w.ops, CacheAt(w, fs[..|before|]), w.turns(|before|), req.payload);
  }

  lemma IsDecrypted(r: State, k: nat, b: Batch, ps: seq<S.Sample>, reply: W.Reply)
    requires k < |r.calls| && r.calls[k].opcode == OP_DECRYPT_BATCH
    requires BuilderAccepts(b) && r.calls[k].payload == EncodeBatch(b)
    requires reply == W.Binary(EncodeSamples(ps))
    requires r.calls[k].result.Some? && r.calls[k].result.value.Done?
    requires W.Carries(r.calls[k].result.value.frame, RequestOf(r.calls[k]), reply)
    ensures Decrypted(r, k, b, ps)
  {
    hide EncodeBatch, EncodeSamples, BuilderAccepts;
  }

  lemma BuilderToo(b: Batch)
    requires WorkerAccepts(b)
    ensures BuilderAccepts(b)
  {
    hide Flatten;
  }

  // ----- the TCP client

  /** Some call of some run asked for the batch and came back with the samples. */
  ghost predicate CameBack(cfg: Config, b: Batch, ps: seq<S.Sample>) {
    exists s, acts, r, k :: Reachable(cfg, s, acts, r) && Decrypted(r, k, b, ps)
  }

  /** Whatever the session got for a batch, a call got by asking for that very batch. */
  ghost predicate ServedBy(service: N.Service, cfg: Config) {
    forall bs | bs != [] && service.decrypt(bs).Some? :: CameBack(cfg, bs[|bs| - 1], service.decrypt(bs).value)
  }

  /**
  From the client's frame to the client's frame: the answer to a frame whose batch was
  decrypted is, under the frame's id, one plaintext for each sample of that batch, in
  order and of equal length, each the sample operation on that sample.
  */
  lemma ClientGetsPlaintexts(cfg: Config, worlds: nat -> World, service: N.Service, fs: seq<N.ClientFrame>,
      f: N.ClientFrame)
    returns (b: Batch, ps: seq<S.Sample>, p: nat, kd: Kd)
    requires ServedBy(service, cfg)
    requires forall p: nat :: Decrypts(worlds(p), cfg.handlers(p)) && LengthPreserving(worlds(p).ops)
    requires N.Plaintexts(service, fs + [f]).Some?
    ensures N.TcpBatch(f.payload) == Some(b) && PlaintextsOf(worlds(p).ops(kd), b, ps)
    ensures N.AnswerTo(service, fs + [f]) == [N.ClientFrame(N.KIND_OK, f.id, EncodeSamples(ps))]
  {
    hide CameBack, EncodeSamples, PlaintextsOf, Decrypts, LengthPreserving, N.TcpBatch;
    b, ps := N.TcpBatch(f.payload).value, N.Plaintexts(service, fs + [f]).value;
    var bs := N.Batches(fs + [f]);
    assert bs[|bs| - 1] == b && service.decrypt(bs) == Some(ps);
    p, kd := CameBackRight(cfg, worlds, b, ps);
  }

  lemma CameBackRight(cfg: Config, worlds: nat -> World, b: Batch, ps: seq<S.Sample>) returns (p: nat, kd: Kd)
    requires CameBack(cfg, b, ps)
    requires forall p: nat :: Decrypts(worlds(p), cfg.handlers(p)) && LengthPreserving(worlds(p).ops)
    ensures PlaintextsOf(worlds(p).ops(kd), b, ps)
  {
    hide Reachable, Decrypted, PlaintextsOf, Decrypts, LengthPreserving;
    var s, acts, r, k :| Reachable(cfg, s, acts, r) && Decrypted(r, k, b, ps);
    var i;
    p, i, kd := BatchesComeBackRight(cfg, worlds, s, acts, r, k, b, ps);
  }
}
