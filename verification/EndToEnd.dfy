/**
A decrypt request from a supervisor thread, over the pipe, through the worker's
parser, cache and thread pool, and back.
*/
module EndToEnd {
  import opened Bytes
  import opened Layout
  import opened BatchCodec
  import opened BatchParsers
  import opened BatchAgreement
  import opened Frames
  import opened KdCache
  import W = WorkerLoop
  import E = Engine
  import P = DecryptPool
  import S = Stripes
  import opened Supervisor
  import opened SupervisorLaws

  // ----- the worker's handler

  /**
  What the environment does in one call: whether the runtime is up and the account
  signed in, what the native chain and the key derivation yield, and the text of any
  answer that is not a batch.
  */
  datatype Turn = Turn(open: bool, loaded: bool, ready: bool, derived: Option<Kd>, text: seq<byte>)

  function RequestFor(turn: Turn, b: Batch): E.Request {
    E.Request(turn.loaded, turn.ready, Pair(b.adam, b.uri), b.samples, turn.derived)
  }

  /** The batch a payload stands for, if any. */
  ghost function Parsed(payload: seq<byte>): (r: Option<Batch>)
    ensures r.Some? ==> WorkerAccepts(r.value) && payload == EncodeBatch(r.value)
    ensures r.None? ==> forall b | WorkerAccepts(b) :: payload != EncodeBatch(b)
  {
    if b: Batch :| WorkerAccepts(b) && payload == EncodeBatch(b) then Some(b) else None
  }

  ghost function ReplyTo(ops: E.Ops, f: Fifo<seq<byte>>, turn: Turn, payload: seq<byte>): W.Reply {
    if turn.open && Parsed(payload).Some? && E.Serve(ops, f, RequestFor(turn, Parsed(payload).value)).Some?
    then W.Binary(EncodeSamples(E.Serve(ops, f, RequestFor(turn, Parsed(payload).value)).value))
    else W.Json(turn.text)
  }

  ghost function CacheAfter(ops: E.Ops, f: Fifo<seq<byte>>, turn: Turn, payload: seq<byte>): Fifo<seq<byte>> {
    if turn.open && Parsed(payload).Some? then E.After(ops, f, RequestFor(turn, Parsed(payload).value)) else f
  }

  /** `handle_decrypt_batch` */
  method HandleDecryptBatch(cache: Cache, ops: E.Ops, turn: Turn, payload: seq<byte>, pool: P.Pool,
      runs: E.Schedule)
    returns (reply: W.Reply)
    requires cache.Valid() && P.Inv(pool) && |payload| <= MAX_SLICE
    requires forall chunks: seq<S.Sample>, kd | chunks != [] ::
      E.Complete(ops(kd), pool, chunks, E.Tasks(pool, |chunks|), runs(chunks, kd))
    modifies cache
    ensures cache.Valid()
    ensures cache.View() == CacheAfter(ops, old(cache.View()), turn, payload)
    ensures reply == ReplyTo(ops, old(cache.View()), turn, payload)
  {
    hide E.Complete, EncodeBatch, EncodeSamples, E.After, S.AllGood;
    if !turn.open {
      return W.Json(turn.text);
    }
    var batch := ParseDecryptPayload(payload);
    if batch.None? {
      return W.Json(turn.text);
    }
    var b := batch.value;
    ParsedIs(payload, b);
    var expected := |b.samples|;
    var result := E.DecryptSamples(cache, ops, RequestFor(turn, b), pool, (kd: Kd) => runs(b.samples, kd));
    if result.Failed? || |result.samples| != expected {
      return W.Json(turn.text);
    }
    var body := BuildDecryptResponse(result.samples);
    reply := W.Binary(body);
  }

  /** The handler answers a batch, and the cache follows; to anything else it answers an error and nothing changes. */
  lemma HandlerAnswers(ops: E.Ops, f: Fifo<seq<byte>>, turn: Turn, b: Batch, junk: seq<byte>)
    requires WorkerAccepts(b) && forall c | WorkerAccepts(c) :: junk != EncodeBatch(c)
    ensures var r := E.Request(turn.loaded, turn.ready, Pair(b.adam, b.uri), b.samples, turn.derived);
      && ReplyTo(ops, f, turn, EncodeBatch(b)) ==
           (if turn.open && E.Serve(ops, f, r).Some? then W.Binary(EncodeSamples(E.Serve(ops, f, r).value))
            else W.Json(turn.text))
      && CacheAfter(ops, f, turn, EncodeBatch(b)) == if turn.open then E.After(ops, f, r) else f
    ensures ReplyTo(ops, f, turn, junk) == W.Json(turn.text) && CacheAfter(ops, f, turn, junk) == f
  {
    hide EncodeBatch, EncodeSamples, E.Serve, E.After, WorkerAccepts;
    ParsedIs(EncodeBatch(b), b);
  }

  lemma ParsedIs(payload: seq<byte>, b: Batch)
    requires WorkerAccepts(b) && payload == EncodeBatch(b)
    ensures Parsed(payload) == Some(b)
  {
    hide EncodeBatch, Flatten;
    EncodeBatchInjective(Parsed(payload).value, b);
  }

  // ----- a worker process over its life

  datatype World = World(ops: E.Ops, turns: nat -> Turn)

  /** The requests that got as far as `decrypt_samples`, of the frames a process has taken. */
  ghost function Batches(w: World, fs: seq<Frame>): seq<E.Request> {
    if fs == [] then []
    else
      var n := |fs| - 1;
      Batches(w, fs[..n]) +
        if fs[n].opcode == OP_DECRYPT_BATCH && w.turns(n).open && Parsed(fs[n].payload).Some?
        then [RequestFor(w.turns(n), Parsed(fs[n].payload).value)]
        else []
  }

  ghost function CacheAt(w: World, fs: seq<Frame>): Fifo<seq<byte>> {
    E.RunAll(w.ops, Batches(w, fs))
  }

  /** A handler that answers decrypt requests as `handle_decrypt_batch` does, call after call. */
  ghost predicate Decrypts(w: World, h: W.Handler) {
    forall fs: seq<Frame> | fs != [] && fs[|fs| - 1].opcode == OP_DECRYPT_BATCH ::
      var n := |fs| - 1;
      h(fs) == ReplyTo(w.ops, CacheAt(w, fs[..n]), w.turns(n), fs[n].payload)
  }

  /** The cache a process ends up with is the handler's own, step by step. */
  lemma CacheFollows(w: World, fs: seq<Frame>, f: Frame)
    ensures CacheAt(w, fs + [f]) ==
      if f.opcode == OP_DECRYPT_BATCH then CacheAfter(w.ops, CacheAt(w, fs), w.turns(|fs|), f.payload)
      else CacheAt(w, fs)
  {
    hide E.After, EncodeBatch, WorkerAccepts;
    var all, rs := fs + [f], Batches(w, fs);
    assert all[..|fs|] == fs && all[|fs|] == f;
    assert rs + [] == rs;
    forall q: E.Request ensures E.RunAll(w.ops, rs + [q]) == E.After(w.ops, E.RunAll(w.ops, rs), q) {
      assert (rs + [q])[..|rs|] == rs;
    }
  }

  /** The native operation works in place. */
  ghost predicate LengthPreserving(ops: E.Ops) {
    forall kd, x :: |ops(kd)(x).1| == |x|
  }

  lemma ServedFits(ops: E.Ops, f: Fifo<seq<byte>>, r: E.Request)
    requires LengthPreserving(ops) && E.Serve(ops, f, r).Some? && Fits(r.chunks)
    ensures var ps := E.Serve(ops, f, r).value;
      Fits(ps) && |ps| == |r.chunks| && forall i | 0 <= i < |ps| :: |ps[i]| == |r.chunks[i]|
  {
    hide S.AllGood, Find;
    var ps := E.Serve(ops, f, r).value;
    var op := ops(E.KdFor(f, r).value);
    forall i | 0 <= i < |ps| ensures |ps[i]| == |r.chunks[i]| {
      assert ps[i] == op(r.chunks[i]).1;
    }
  }

  /** A batch the worker accepts is far below the length field's limit, and so is its answer. */
  lemma BatchSize(b: Batch)
    requires WorkerAccepts(b)
    ensures |EncodeBatch(b)| < U32_SIZE && Fits(b.samples)
  {
    FlattenLength(b.samples);
    ManySamples(b.samples);
    hide Flatten;
  }

  lemma {:induction false} ManySamples(samples: seq<seq<byte>>)
    requires forall i | 0 <= i < |samples| :: 0 < |samples[i]|
    ensures |samples| <= |Flatten(samples)|
    decreases |samples|
  {
    if samples == [] {
    } else {
      ManySamples(samples[..|samples| - 1]);
    }
  }

  /** So every answer fits in a frame, whatever the request was. */
  lemma RepliesFit(ops: E.Ops, f: Fifo<seq<byte>>, turn: Turn, payload: seq<byte>)
    requires LengthPreserving(ops) && |turn.text| < U32_SIZE
    ensures |ReplyTo(ops, f, turn, payload).body| < U32_SIZE
  {
    hide E.Serve, EncodeBatch, EncodeSamples, WorkerAccepts, LengthPreserving;
    if turn.open && Parsed(payload).Some? && E.Serve(ops, f, RequestFor(turn, Parsed(payload).value)).Some? {
      var b := Parsed(payload).value;
      var r := RequestFor(turn, b);
      BatchSize(b);
      ServedFits(ops, f, r);
      AnswerNoLonger(b, E.Serve(ops, f, r).value);
    }
  }

  // ----- the whole way

  /** What `decrypt_batch` makes of the frame `request` returned: the flag says whether it is a batch. */
  method BatchOf(frame: Frame) returns (r: Option<seq<S.Sample>>)
    requires |frame.payload| <= MAX_SLICE
    ensures forall ps | Fits(ps) :: r == Some(ps) <==> BatchAnswer(frame, ps)
    ensures r.Some? ==> Fits(r.value) && BatchAnswer(frame, r.value)
  {
    hide EncodeSamples;
    r := None;
    if frame.flags % 2 == 1 {
      r := ParseSamples(frame.payload);
      forall ps | Fits(ps) ensures r == Some(ps) <==> BatchAnswer(frame, ps) {
        if r.Some? && frame.payload == EncodeSamples(ps) {
          EncodeSamplesInjective(r.value, ps);
        }
      }
    }
  }

  ghost predicate BatchAnswer(frame: Frame, ps: seq<S.Sample>) {
    frame.flags % 2 == 1 && frame.payload == EncodeSamples(ps)
  }

  /** Call `k` of a run asked for batch `b` to be decrypted, and `decrypt_batch` came back with `ps`. */
  ghost predicate Decrypted(r: State, k: nat, b: Batch, ps: seq<S.Sample>) {
    && k < |r.calls| && r.calls[k].opcode == OP_DECRYPT_BATCH
    && BuilderAccepts(b) && r.calls[k].payload == EncodeBatch(b)
    && r.calls[k].result.Some? && r.calls[k].result.value.Done?
    && BatchAnswer(r.calls[k].result.value.frame, ps)
  }

  /** Each plaintext is the operation under `kd` on the caller's own sample in that place. */
  ghost predicate PlaintextsOf(op: S.Op, b: Batch, ps: seq<S.Sample>) {
    && |ps| == |b.samples|
    && forall i | 0 <= i < |ps| ::
         op(b.samples[i]).0 >= 0 && ps[i] == op(b.samples[i]).1 && |ps[i]| == |b.samples[i]|
  }

  /** Samples that come in one frame fit their fields. */
  lemma OneFrameFits(ps: seq<S.Sample>)
    ensures |ps| <= |EncodeSamples(ps)|
    ensures forall i | 0 <= i < |ps| :: |ps[i]| <= |EncodeSamples(ps)|
  {
    forall i | 0 <= i < |ps| ensures |ps[i]| <= |Flatten(ps)| {
      PartOfAll(ps, i);
    }
  }

  lemma {:induction false} PartOfAll(ps: seq<S.Sample>, i: nat)
    requires i < |ps|
    ensures |ps[i]| <= |Flatten(ps)|
    decreases |ps|
  {
    if i == |ps| - 1 {
    } else {
      PartOfAll(ps[..|ps| - 1], i);
    }
  }

  /** What the reply to one batch tells the caller. */
  lemma ReplyMeans(ops: E.Ops, f: Fifo<seq<byte>>, turn: Turn, b: Batch, req: Frame, a: Frame, ps: seq<S.Sample>)
    returns (kd: Kd)
    requires LengthPreserving(ops) && BuilderAccepts(b)
    requires BatchAnswer(a, ps) && W.Carries(a, req, ReplyTo(ops, f, turn, EncodeBatch(b)))
    ensures turn.open && Parsed(EncodeBatch(b)) == Some(b)
    ensures E.KdFor(f, RequestFor(turn, b)) == Some(kd) && E.Serve(ops, f, RequestFor(turn, b)).Some?
    ensures PlaintextsOf(ops(kd), b, ps)
  {
    hide EncodeBatch, EncodeSamples, Find, Flatten;
    var c := Parsed(EncodeBatch(b)).value;
    EncodeBatchInjective(c, b);
    var r := RequestFor(turn, b);
    BatchSize(b);
    ServedFits(ops, f, r);
    AnswerNoLonger(b, E.Serve(ops, f, r).value);
    OneFrameFits(ps);
    EncodeSamplesInjective(ps, E.Serve(ops, f, r).value);
    kd := E.KdFor(f, r).value;
  }

  /**
  End to end: in any run of any number of threads, whatever else goes on, times out or
  dies, a batch that comes back is one plaintext for each sample the caller submitted,
  in order and of equal length, each the sample operation on that very sample, under
  one context: the one its process had for the track at that point.
  */
  lemma BatchesComeBackRight(cfg: Config, worlds: nat -> World, s: State, acts: seq<Action>, r: State,
      k: nat, b: Batch, ps: seq<S.Sample>)
    returns (p: nat, i: nat, kd: Kd)
    requires Reachable(cfg, s, acts, r) && Decrypted(r, k, b, ps)
    requires forall p: nat :: Decrypts(worlds(p), cfg.handlers(p)) && LengthPreserving(worlds(p).ops)
    ensures p < |r.procs| && i < |r.procs[p].taken|
    ensures var w, before := worlds(p), r.procs[p].taken[..i];
      && E.KdFor(CacheAt(w, before), RequestFor(w.turns(i), b)) == Some(kd)
      && PlaintextsOf(w.ops(kd), b, ps)
      && Batches(w, r.procs[p].taken[..i + 1]) == Batches(w, before) + [RequestFor(w.turns(i), b)]
  {
    hide Reachable, EncodeBatch, LengthPreserving, PlaintextsOf, BuilderAccepts, Parsed, BatchAnswer, E.KdFor,
      E.Serve, ReplyTo, RequestFor;
    p, i := AnswersAreOwn(cfg, s, acts, r, k);
    var w, fs := worlds(p), r.procs[p].taken[..i + 1];
    assert fs[..i] == r.procs[p].taken[..i] && fs[i] == r.procs[p].taken[i];
    assert Decrypts(w, cfg.handlers(p)) && LengthPreserving(w.ops);
    kd := ReplyMeans(w.ops, CacheAt(w, fs[..i]), w.turns(i), b, fs[i], r.calls[k].result.value.frame, ps);
  }

  /**
  And unless the process was asked for another track that has the same key, that
  context was derived for this very track by the same process: by this request, or by
  an earlier one with no failure of the track since.
  */
  lemma ContextIsTheTracks(w: World, before: seq<Frame>, turn: Turn, b: Batch, kd: Kd) returns (j: nat)
    requires E.KdFor(CacheAt(w, before), RequestFor(turn, b)) == Some(kd)
    requires E.Alone(Batches(w, before), Pair(b.adam, b.uri))
    ensures Find(CacheAt(w, before), Key(Pair(b.adam, b.uri))) == Some(kd) ==>
      E.DerivedAt(w.ops, Batches(w, before), Pair(b.adam, b.uri), kd, j)
    ensures Find(CacheAt(w, before), Key(Pair(b.adam, b.uri))) == None ==>
      turn.derived == Some(kd) && b.adam != PREFETCH
  {
    hide Find, Key, E.Alone, E.DerivedAt;
    var f := CacheAt(w, before);
    j := 0;
    if Find(f, Key(Pair(b.adam, b.uri))) == Some(kd) {
      j := E.Coherent(w.ops, Batches(w, before), Pair(b.adam, b.uri), kd);
    }
  }
}
