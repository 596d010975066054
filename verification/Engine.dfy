/** `decrypt_samples`: the cache, the key derivation and the thread pool, request after request. */
module Engine {
  import opened Bytes
  import opened KdCache
  import opened KdCacheLaws
  import P = DecryptPool
  import S = Stripes
  import B = BatchRun

  /** The sample operation under each key-derivation context. */
  type Ops = Kd -> S.Op

  /**
  One call, with what its environment does: whether the native chain is loaded and
  ready, and what a key derivation would yield.
  */
  datatype Request = Request(loaded: bool, ready: bool, pair: Pair, chunks: seq<S.Sample>, derived: Option<Kd>)

  datatype Failure = NotLoaded | NotReady | MissingId | NoSamples | PrefetchNotCached | KeyFailed | BadSample(i: nat)

  datatype Result = Plaintexts(samples: seq<S.Sample>) | Failed(why: Failure)

  /** Past the guards: the call gets as far as `decrypt_once`. */
  predicate Entered(r: Request) {
    r.loaded && r.ready && r.pair.adam != [] && r.pair.uri != [] && r.chunks != []
  }

  /** The context the request is served with, if any. */
  function KdFor(f: Fifo<seq<byte>>, r: Request): Option<Kd> {
    var cached := Find(f, Key(r.pair));
    if cached.Some? then cached else if r.pair.adam == PREFETCH then None else r.derived
  }

  /** What the caller gets: every sample's plaintext, or nothing. */
  function Serve(ops: Ops, f: Fifo<seq<byte>>, r: Request): Option<seq<S.Sample>> {
    if Entered(r) && KdFor(f, r).Some? && S.AllGood(ops(KdFor(f, r).value), r.chunks)
    then Some(S.Sequential(ops(KdFor(f, r).value), r.chunks))
    else None
  }

  function Learn(f: Fifo<seq<byte>>, r: Request): Fifo<seq<byte>> {
    if Find(f, Key(r.pair)).None? && KdFor(f, r).Some?
    then Store(f, Key(r.pair), KdFor(f, r).value, false)
    else f
  }

  /** The cache afterwards: a derived context is kept, and any failure drops the pair's entry. */
  function After(ops: Ops, f: Fifo<seq<byte>>, r: Request): Fifo<seq<byte>> {
    if !Entered(r) then f
    else if Serve(ops, f, r).Some? then Learn(f, r)
    else Erase(Learn(f, r), Key(r.pair))
  }

  // ----- the call itself

  /** One interleaving of the pool with a batch, up to the caller's return. */
  datatype Run = Run(acts: seq<B.Action>, end: B.Joint, caller: nat)

  ghost predicate Complete(op: S.Op, pool: P.Pool, chunks: seq<S.Sample>, tasks: nat, run: Run) {
    && tasks > 0
    && B.Runs(op, B.Submit(pool, chunks, tasks), run.acts, run.end)
    && run.caller < |run.end.pool.callers|
    && run.end.pool.callers[run.caller] == P.Returned(run.end.lo, B.Hi(run.end))
  }

  /** Such a run exists, whatever the operation and the samples, as long as one caller has nothing under way. */
  lemma CanComplete(op: S.Op, pool: P.Pool, chunks: seq<S.Sample>, tasks: nat, c: nat) returns (run: Run)
    requires P.Inv(pool) && tasks > 0
    requires c < |pool.callers| && (pool.callers[c].Idle? || pool.callers[c].Returned?)
    ensures Complete(op, pool, chunks, tasks, run)
  {
    hide P.Inv, B.Runs;
    var acts, end := B.BatchCompletes(op, pool, chunks, tasks, c);
    run := Run(acts, end, c);
  }

  ghost function AnyRun(op: S.Op, pool: P.Pool, chunks: seq<S.Sample>, tasks: nat): (run: Run)
    ensures (exists r :: Complete(op, pool, chunks, tasks, r)) ==> Complete(op, pool, chunks, tasks, run)
  {
    if r :| Complete(op, pool, chunks, tasks, r) then r else Run([], B.Joint(pool, S.Start(chunks, 1), 0), 0)
  }

  /** A run for every batch under every context. */
  type Schedule = (seq<S.Sample>, Kd) -> Run

  /** There is one, from any pool in which some caller has nothing under way. */
  lemma SchedulesExist(ops: Ops, pool: P.Pool, c: nat) returns (runs: Schedule)
    requires P.Inv(pool) && c < |pool.callers| && (pool.callers[c].Idle? || pool.callers[c].Returned?)
    ensures forall chunks: seq<S.Sample>, kd | chunks != [] ::
      Complete(ops(kd), pool, chunks, Tasks(pool, |chunks|), runs(chunks, kd))
  {
    hide P.Conserved, P.NoLostWakeUp, P.SafeReturn, Complete;
    runs := (chunks: seq<S.Sample>, kd: Kd) => AnyRun(ops(kd), pool, chunks, Tasks(pool, |chunks|));
    forall chunks: seq<S.Sample>, kd: Kd | chunks != []
      ensures Complete(ops(kd), pool, chunks, Tasks(pool, |chunks|), runs(chunks, kd))
    {
      var run := CanComplete(ops(kd), pool, chunks, Tasks(pool, |chunks|), c);
    }
  }

  /** No more tasks than samples. */
  function Tasks(pool: P.Pool, n: nat): (k: nat)
    ensures k <= n && k <= |pool.workers| && (k == n || k == |pool.workers|)
  {
    if |pool.workers| > n then n else |pool.workers|
  }

  method DecryptSamples(cache: Cache, ops: Ops, r: Request, pool: P.Pool, runs: Kd -> Run) returns (result: Result)
    requires cache.Valid() && P.Inv(pool)
    requires r.chunks != [] ==> forall kd :: Complete(ops(kd), pool, r.chunks, Tasks(pool, |r.chunks|), runs(kd))
    modifies cache
    ensures cache.Valid()
    ensures cache.View() == After(ops, old(cache.View()), r)
    ensures match Serve(ops, old(cache.View()), r)
      case Some(samples) => result == Plaintexts(samples)
      case None => result.Failed?
    ensures result.Failed? && result.why.BadSample? ==>
      var kd := KdFor(old(cache.View()), r);
      kd.Some? && result.why.i < |r.chunks| && !S.Good(ops(kd.value), r.chunks[result.why.i])
  {
    ghost var before := cache.View();
    if !r.loaded {
      return Failed(NotLoaded);
    }
    if !r.ready {
      return Failed(NotReady);
    }
    if r.pair.adam == [] || r.pair.uri == [] {
      return Failed(MissingId);
    }
    if r.chunks == [] {
      return Failed(NoSamples);
    }
    result := DecryptOnce(cache, ops, r, pool, runs);
    if result.Failed? {
      cache.Remove(r.pair);
    }
  }

  method DecryptOnce(cache: Cache, ops: Ops, r: Request, pool: P.Pool, runs: Kd -> Run) returns (result: Result)
    requires cache.Valid() && P.Inv(pool) && Entered(r)
    requires forall kd :: Complete(ops(kd), pool, r.chunks, Tasks(pool, |r.chunks|), runs(kd))
    modifies cache
    ensures cache.Valid()
    ensures cache.View() == Learn(old(cache.View()), r)
    ensures match Serve(ops, old(cache.View()), r)
      case Some(samples) => result == Plaintexts(samples)
      case None => result.Failed?
    ensures result.Failed? && result.why.BadSample? ==>
      var kd := KdFor(old(cache.View()), r);
      kd.Some? && result.why.i < |r.chunks| && !S.Good(ops(kd.value), r.chunks[result.why.i])
  {
    var kd := cache.Lookup(r.pair);
    if kd.None? && r.pair.adam == PREFETCH {
      return Failed(PrefetchNotCached);
    }
    if kd.None? {
      kd := r.derived;
      if kd.None? {
        return Failed(KeyFailed);
      }
      cache.Insert(r.pair, kd.value);
    }
    var run := runs(kd.value);
    ghost var tasks := Tasks(pool, |r.chunks|);
    assert Complete(ops(kd.value), pool, r.chunks, tasks, runs(kd.value));
    B.BatchOutcome(ops(kd.value), pool, r.chunks, tasks, run.acts, run.end, run.caller);
    var batch := run.end.batch;
    if batch.flag {
      return Failed(BadSample(batch.error));
    }
    return Plaintexts(batch.plain);
  }

  // ----- runs of requests

  function RunAll(ops: Ops, rs: seq<Request>): Fifo<seq<byte>> {
    if rs == [] then Fifo([], map[])
    else After(ops, RunAll(ops, rs[..|rs| - 1]), rs[|rs| - 1])
  }

  /** Nothing is ever pinned; the window is bounded and names each key once. */
  ghost predicate Tidy(f: Fifo<seq<byte>>) {
    f.pinned == map[] && |f.recent| <= MAX_ENTRIES && DistinctKeys(f.recent)
  }

  lemma StoreTidy(f: Fifo<seq<byte>>, k: seq<byte>, kd: Kd)
    requires Tidy(f) && IndexOf(f.recent, k) == |f.recent|
    ensures Tidy(Store(f, k, kd, false))
  {
    hide DistinctKeys, IndexOf;
    var all := f.recent + [Entry(k, kd)];
    AppendDistinct(f.recent, Entry(k, kd));
    SuffixDistinct(all, |all| - |Store(f, k, kd, false).recent|);
  }

  /** A fresh entry is found, and storing it only ever takes others away. */
  lemma StoreFinds(f: Fifo<seq<byte>>, k: seq<byte>, kd: Kd)
    requires DistinctKeys(f.recent) && IndexOf(f.recent, k) == |f.recent| && f.pinned == map[]
    ensures var g := Store(f, k, kd, false);
      && Find(g, k) == Some(kd)
      && forall x | x != k && Find(g, x).Some? :: Find(g, x) == Find(f, x)
  {
    hide DistinctKeys;
    var e, all := Entry(k, kd), f.recent + [Entry(k, kd)];
    var g := Store(f, k, kd, false);
    var d := |all| - |g.recent|;
    assert g.recent == all[d..];
    hide Store, LastN;
    AppendDistinct(f.recent, e);
    IndexAt(all, k, |all| - 1);
    IndexSuffix(all, k, |all| - 1, d);
    hide IndexOf;
    forall x | x != k && Find(g, x).Some? ensures Find(g, x) == Find(f, x) {
      InitFind(f.recent, e, x);
    }
  }

  lemma EraseTidy(f: Fifo<seq<byte>>, k: seq<byte>)
    requires Tidy(f)
    ensures Tidy(Erase(f, k))
    ensures Find(Erase(f, k), k) == None
    ensures forall x | x != k :: Find(Erase(f, k), x) == Find(f, x)
  {
    hide DistinctKeys, IndexOf;
    var n := IndexOf(f.recent, k);
    if n < |f.recent| {
      WithoutDistinct(f.recent, n);
      forall x | x != k ensures Find(Erase(f, k), x) == Find(f, x) {
        WithoutFind(f.recent, n, x);
      }
    }
  }

  lemma NotFound(f: Fifo<seq<byte>>, k: seq<byte>)
    requires Find(f, k).None?
    ensures IndexOf(f.recent, k) == |f.recent|
  {
  }

  /** What one request does to the entries of the cache. */
  lemma AfterEffect(ops: Ops, f: Fifo<seq<byte>>, r: Request)
    requires Tidy(f)
    ensures Tidy(After(ops, f, r))
    ensures Entered(r) && Serve(ops, f, r).None? ==> Find(After(ops, f, r), Key(r.pair)) == None
    ensures Serve(ops, f, r).Some? ==> Find(After(ops, f, r), Key(r.pair)) == KdFor(f, r)
    ensures forall x | x != Key(r.pair) && Find(After(ops, f, r), x).Some? ::
      Find(After(ops, f, r), x) == Find(f, x)
  {
    hide Key, Find, Store, Erase;
    var k := Key(r.pair);
    if Entered(r) {
      if Find(f, k).None? && KdFor(f, r).Some? {
        NotFound(f, k);
        StoreTidy(f, k, KdFor(f, r).value);
        StoreFinds(f, k, KdFor(f, r).value);
      }
      if Serve(ops, f, r).None? {
        EraseTidy(Learn(f, r), k);
      }
    }
  }

  lemma {:induction false} RunTidy(ops: Ops, rs: seq<Request>)
    ensures Tidy(RunAll(ops, rs))
    decreases |rs|
  {
    if rs == [] {
    } else {
      var n := |rs| - 1;
      RunTidy(ops, rs[..n]);
      AfterEffect(ops, RunAll(ops, rs[..n]), rs[n]);
      assert rs == rs[..n] + [rs[n]];
    }
  }

  /** The whole map stays within its bound: the pinned entry is never there. */
  lemma NothingPinned(ops: Ops, rs: seq<Request>)
    ensures RunAll(ops, rs).pinned == map[] && |RunAll(ops, rs).recent| <= MAX_ENTRIES
  {
    RunTidy(ops, rs);
  }

  /** A request that is not let in fails, and leaves the cache as it was. */
  lemma NotLetIn(ops: Ops, f: Fifo<seq<byte>>, r: Request)
    requires !r.loaded || !r.ready || r.pair.adam == [] || r.pair.uri == [] || r.chunks == []
    ensures Serve(ops, f, r).None? && After(ops, f, r) == f
  {
  }

  /** Exactly when a request is served, and with what. */
  lemma ServedExactly(ops: Ops, f: Fifo<seq<byte>>, r: Request)
    ensures Serve(ops, f, r).Some? <==>
      && r.loaded && r.ready && r.pair.adam != [] && r.pair.uri != [] && r.chunks != []
      && (Find(f, Key(r.pair)).Some? || (r.derived.Some? && r.pair.adam != PREFETCH))
      && forall i | 0 <= i < |r.chunks| :: r.chunks[i] != [] && ops(KdFor(f, r).value)(r.chunks[i]).0 >= 0
    ensures Serve(ops, f, r).Some? ==>
      var kd := if Find(f, Key(r.pair)).Some? then Find(f, Key(r.pair)).value else r.derived.value;
      && |Serve(ops, f, r).value| == |r.chunks|
      && forall i | 0 <= i < |r.chunks| :: Serve(ops, f, r).value[i] == ops(kd)(r.chunks[i]).1
  {
    hide Find, Key;
  }

  /** A batch that fails past the guards leaves no context for its pair. */
  lemma FailureForgets(ops: Ops, rs: seq<Request>, r: Request)
    requires Entered(r) && Serve(ops, RunAll(ops, rs), r).None?
    ensures Find(RunAll(ops, rs + [r]), Key(r.pair)) == None
  {
    RunTidy(ops, rs);
    assert (rs + [r])[..|rs|] == rs;
    AfterEffect(ops, RunAll(ops, rs), r);
  }

  /**
  Request `i` found no context for `p` and derived `kd`, which it was served with,
  and no request for `p` has failed since.
  */
  ghost predicate DerivedAt(ops: Ops, rs: seq<Request>, p: Pair, kd: Kd, i: nat) {
    && i < |rs| && rs[i].pair == p && rs[i].derived == Some(kd)
    && Entered(rs[i]) && p.adam != PREFETCH && Find(RunAll(ops, rs[..i]), Key(p)).None?
    && (forall j | i <= j < |rs| && rs[j].pair == p && Entered(rs[j]) ::
          Serve(ops, RunAll(ops, rs[..j]), rs[j]).Some?)
  }

  lemma DerivedStill(ops: Ops, rs: seq<Request>, r: Request, p: Pair, kd: Kd, i: nat)
    requires DerivedAt(ops, rs, p, kd, i)
    requires r.pair == p && Entered(r) ==> Serve(ops, RunAll(ops, rs), r).Some?
    ensures DerivedAt(ops, rs + [r], p, kd, i)
  {
    hide Serve, Entered;
    var more := rs + [r];
    assert forall j | 0 <= j < |rs| :: more[j] == rs[j] && more[..j] == rs[..j];
    assert more[|rs|] == r && more[..|rs|] == rs;
  }

  /** A request for the pair can leave a context in the cache. */
  predicate Servable(p: Pair) {
    p.adam != [] && p.uri != [] && p.adam != PREFETCH
  }

  /** No request of the run can leave a context under the key of `p` but those for `p`. */
  ghost predicate Alone(rs: seq<Request>, p: Pair) {
    forall q | q in rs && q.pair != p && Key(q.pair) == Key(p) :: !Servable(q.pair)
  }

  lemma PlainAlone(rs: seq<Request>, p: Pair)
    requires Plain(p) && forall q | q in rs :: Plain(q.pair)
    ensures Alone(rs, p)
  {
    hide Key, Plain;
    forall q | q in rs && Key(q.pair) == Key(p) ensures q.pair == p {
      KeyInjective(q.pair, p);
    }
  }

  /** A request for another pair leaves a context under the key of `p` only if it was there. */
  lemma StrangerKeeps(ops: Ops, f: Fifo<seq<byte>>, r: Request, p: Pair)
    requires Tidy(f) && Key(r.pair) == Key(p) && !Servable(r.pair)
    requires Find(After(ops, f, r), Key(p)).Some?
    ensures Find(After(ops, f, r), Key(p)) == Find(f, Key(p))
  {
    AfterEffect(ops, f, r);
    hide Find, Key, Learn, Erase;
  }

  /**
  Cache coherence: where no other pair of the run can take its key, a cached context
  was derived for that very pair, after the pair's latest failure.
  */
  lemma {:induction false} Coherent(ops: Ops, rs: seq<Request>, p: Pair, kd: Kd) returns (i: nat)
    requires Alone(rs, p)
    requires Find(RunAll(ops, rs), Key(p)) == Some(kd)
    ensures DerivedAt(ops, rs, p, kd, i)
    decreases |rs|
  {
    RunTidy(ops, rs);
    if rs == [] {
      assert false;
    }
    var n := |rs| - 1;
    var init, r := rs[..n], rs[n];
    assert rs == init + [r] && r in rs;
    var f := RunAll(ops, init);
    RunTidy(ops, init);
    AfterEffect(ops, f, r);
    if r.pair == p && Entered(r) && Find(f, Key(p)).None? {
      i := n;
      assert rs[..n] == init;
    } else {
      if r.pair != p && Key(r.pair) == Key(p) {
        StrangerKeeps(ops, f, r, p);
      }
      assert forall q | q in init :: q in rs;
      i := Coherent(ops, init, p, kd);
      DerivedStill(ops, init, r, p, kd, i);
    }
  }

  // ----- when a track is only ever served with its own context

  /** Whatever was asked for before, a context cached for `p` was derived for `p`. */
  ghost predicate AlwaysOwn(p: Pair) {
    forall ops, rs, kd | Find(RunAll(ops, rs), Key(p)) == Some(kd) :: exists i :: DerivedAt(ops, rs, p, kd, i)
  }

  /** The pair whose ids are the key up to a newline and what follows it. */
  function SplitAt(k: seq<byte>, m: nat): Pair
    requires m < |k|
  {
    Pair(k[..m], k[m + 1..])
  }

  /** No newline inside the ids can be taken for the one between those of a track. */
  predicate NamedAlone(p: Pair) {
    forall m | 0 <= m < |Key(p)| && m != |p.adam| && Key(p)[m] == NEWLINE :: !Servable(SplitAt(Key(p), m))
  }

  lemma KeySplits(q: Pair)
    ensures |q.adam| < |Key(q)| && Key(q)[|q.adam|] == NEWLINE && SplitAt(Key(q), |q.adam|) == q
  {
  }

  lemma SplitKey(k: seq<byte>, m: nat)
    requires m < |k| && k[m] == NEWLINE
    ensures Key(SplitAt(k, m)) == k && |SplitAt(k, m).adam| == m
  {
  }

  lemma NoStranger(p: Pair, q: Pair)
    requires NamedAlone(p) && q != p && Key(q) == Key(p)
    ensures !Servable(q)
  {
    hide Key, SplitAt, Servable;
    KeySplits(q);
    KeySplits(p);
  }

  /** One served request leaves its context. */
  lemma FirstContext(ops: Ops, r: Request, kd: Kd)
    requires Entered(r) && Servable(r.pair) && r.derived == Some(kd) && S.AllGood(ops(kd), r.chunks)
    ensures Find(RunAll(ops, [r]), Key(r.pair)) == Some(kd)
  {
    RunTidy(ops, []);
    AfterEffect(ops, RunAll(ops, []), r);
    hide After, Key;
    assert [r][..0] == [] && RunAll(ops, [r]) == After(ops, RunAll(ops, []), r);
  }

  /** One request for the other pair is enough. */
  lemma StrangerServes(p: Pair, q: Pair)
    requires q != p && Key(q) == Key(p) && Servable(q)
    ensures !AlwaysOwn(p)
  {
    var kd: Kd, ops: Ops := 0, (kd: Kd) => (x: S.Sample) => (0, x);
    var r := Request(true, true, q, [[0]], Some(kd));
    FirstContext(ops, r, kd);
    hide Key, Find, RunAll, Servable;
    assert Find(RunAll(ops, [r]), Key(p)) == Some(kd);
    assert forall i | 0 <= i < |[r]| :: [r][i].pair == q;
    assert forall i: nat :: !DerivedAt(ops, [r], p, kd, i);
  }

  /**
  A track is served with contexts derived for it, in all runs, exactly when no other
  track has its key: no newline inside its ids leaves non-empty ids on both sides,
  the first of them not the prefetch id.
  */
  lemma CoherentExactly(p: Pair)
    ensures AlwaysOwn(p) <==> NamedAlone(p)
    ensures NamedAlone(p) <==> forall q | q != p && Key(q) == Key(p) :: !Servable(q)
  {
    hide Key, Find, RunAll, DerivedAt, SplitAt, Servable;
    if NamedAlone(p) {
      forall q | q != p && Key(q) == Key(p) ensures !Servable(q) {
        NoStranger(p, q);
      }
      forall ops, rs, kd | Find(RunAll(ops, rs), Key(p)) == Some(kd) ensures exists i :: DerivedAt(ops, rs, p, kd, i) {
        var i := Coherent(ops, rs, p, kd);
      }
    } else {
      var m: nat :| m < |Key(p)| && m != |p.adam| && Key(p)[m] == NEWLINE && Servable(SplitAt(Key(p), m));
      SplitKey(Key(p), m);
      StrangerServes(p, SplitAt(Key(p), m));
    }
  }

  /** The prefetch id "0" is not served after any run in which no track can have its key. */
  lemma PrefetchNeverServed(ops: Ops, rs: seq<Request>, r: Request)
    requires Alone(rs, r.pair) && r.pair.adam == PREFETCH
    ensures Serve(ops, RunAll(ops, rs), r) == None
  {
    hide Find, RunAll, Key, S.AllGood;
    var cached := Find(RunAll(ops, rs), Key(r.pair));
    if cached.Some? {
      var i := Coherent(ops, rs, r.pair, cached.value);
      assert false;
    }
  }

  /** It is never served at all exactly when no track has its key. */
  lemma PrefetchServedExactly(uri: seq<byte>)
    requires uri != []
    ensures (forall ops, rs, r: Request | r.pair == Pair(PREFETCH, uri) :: Serve(ops, RunAll(ops, rs), r).None?)
      <==> NamedAlone(Pair(PREFETCH, uri))
  {
    var p := Pair(PREFETCH, uri);
    CoherentExactly(p);
    if NamedAlone(p) {
      forall ops, rs, r: Request | r.pair == p ensures Serve(ops, RunAll(ops, rs), r).None? {
        PrefetchNeverServed(ops, rs, r);
      }
    } else {
      var q :| q != p && Key(q) == Key(p) && Servable(q);
      var ops: Ops := (kd: Kd) => (x: S.Sample) => (0, x);
      var first := Request(true, true, q, [[0]], Some(0));
      FirstContext(ops, first, 0);
      hide RunAll, Key;
      assert Serve(ops, RunAll(ops, [first]), first.(pair := p)).Some?;
    }
  }

  /** Two pairs that share a key share a context: the second is served with what the first derived. */
  lemma SharedKeyServesWrongTrack(ops: Ops, rs: seq<Request>, first: Request, second: Request)
    requires Key(first.pair) == Key(second.pair) && first.pair != second.pair
    requires Serve(ops, RunAll(ops, rs), first).Some?
    ensures KdFor(RunAll(ops, rs + [first]), second) == KdFor(RunAll(ops, rs), first)
    ensures !Plain(first.pair) || !Plain(second.pair)
  {
    RunTidy(ops, rs);
    assert (rs + [first])[..|rs|] == rs;
    AfterEffect(ops, RunAll(ops, rs), first);
    if Plain(first.pair) && Plain(second.pair) {
      KeyInjective(first.pair, second.pair);
      assert false;
    }
  }
}
