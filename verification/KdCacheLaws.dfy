/** What the cache promises over runs: which entries stay, and when a key names one track only. */
module KdCacheLaws {
  import opened Bytes
  import opened KdCache

  predicate Plain(p: Pair) { NEWLINE !in p.adam }

  lemma KeyInjective(p: Pair, q: Pair)
    requires Plain(p) && Plain(q) && Key(p) == Key(q)
    ensures p == q
  {
    var s := Key(p);
    assert s[|p.adam|] == NEWLINE && Key(q)[|q.adam|] == NEWLINE;
    assert p.adam == s[..|p.adam|] && q.adam == s[..|q.adam|];
    assert p.uri == s[|p.adam| + 1..] && q.uri == s[|q.adam| + 1..];
  }

  /** Some other pair with the same key, when there is a newline to move the boundary to. */
  lemma Collision(p: Pair, i: nat, inAdam: bool) returns (q: Pair)
    requires inAdam ==> i < |p.adam| && p.adam[i] == NEWLINE
    requires !inAdam ==> i < |p.uri| && p.uri[i] == NEWLINE
    ensures q != p && Key(q) == Key(p)
  {
    if inAdam {
      q := Pair(p.adam[..i], p.adam[i + 1..] + [NEWLINE] + p.uri);
      assert p.adam == p.adam[..i] + [NEWLINE] + p.adam[i + 1..];
    } else {
      q := Pair(p.adam + [NEWLINE] + p.uri[..i], p.uri[i + 1..]);
      assert p.uri == p.uri[..i] + [NEWLINE] + p.uri[i + 1..];
    }
  }

  /** A key names a single pair exactly when neither of its parts holds a newline. */
  lemma KeyUnambiguous(p: Pair)
    ensures (forall q | Key(q) == Key(p) :: q == p) <==> NEWLINE !in p.adam && NEWLINE !in p.uri
  {
    if NEWLINE in p.adam {
      var i :| 0 <= i < |p.adam| && p.adam[i] == NEWLINE;
      var q := Collision(p, i, true);
    } else if NEWLINE in p.uri {
      var i :| 0 <= i < |p.uri| && p.uri[i] == NEWLINE;
      var q := Collision(p, i, false);
    } else {
      forall q | Key(q) == Key(p) ensures q == p {
        PlainToo(p, q);
        KeyInjective(p, q);
      }
    }
  }

  lemma PlainToo(p: Pair, q: Pair)
    requires NEWLINE !in p.adam && NEWLINE !in p.uri && Key(q) == Key(p)
    ensures Plain(q)
  {
    var s, n := Key(p), |p.adam|;
    assert forall j | 0 <= j < n :: s[j] == p.adam[j];
    assert forall j | n < j < |s| :: s[j] == p.uri[j - n - 1];
    forall i | 0 <= i < |q.adam| ensures q.adam[i] != NEWLINE {
      assert s[i] == q.adam[i];
      assert s[|q.adam|] == NEWLINE;
    }
  }

  // ----- runs of cache operations

  datatype CacheOp<K> = Put(k: K, kd: Kd, pin: bool) | Del(k: K)

  function Apply<K(==)>(f: Fifo<K>, op: CacheOp<K>): Fifo<K> {
    match op
    case Put(k, kd, pin) => Store(f, k, kd, pin)
    case Del(k) => Erase(f, k)
  }

  function ApplyAll<K(==)>(f: Fifo<K>, ops: seq<CacheOp<K>>): Fifo<K>
    decreases |ops|
  {
    if ops == [] then f else ApplyAll(Apply(f, ops[0]), ops[1..])
  }

  function Puts<K>(ops: seq<CacheOp<K>>): nat {
    if ops == [] then 0 else (if ops[0].Put? then 1 else 0) + Puts(ops[1..])
  }

  /** Room left behind an entry before it is pushed out. */
  function Younger<K(==)>(f: Fifo<K>, k: K): int {
    |f.recent| - 1 - IndexOf(f.recent, k)
  }

  lemma IndexAt<K>(es: seq<Entry<K>>, k: K, i: nat)
    requires i < |es| && es[i].key == k && forall j | 0 <= j < i :: es[j].key != k
    ensures IndexOf(es, k) == i
  {
  }

  lemma DelOther<K>(f: Fifo<K>, x: K, k: K)
    requires IndexOf(f.recent, k) < |f.recent| && x != k
    ensures var g := Erase(f, x);
      IndexOf(g.recent, k) < |g.recent| && Find(g, k) == Find(f, k) && Younger(g, k) <= Younger(f, k)
  {
    var i, n := IndexOf(f.recent, k), IndexOf(f.recent, x);
    if n < |f.recent| {
      IndexWithout(f.recent, k, i, n);
    }
  }

  lemma IndexWithout<K>(es: seq<Entry<K>>, k: K, i: nat, n: nat)
    requires i == IndexOf(es, k) < |es| && n < |es| && n != i
    ensures var rest, at := es[..n] + es[n + 1..], if n < i then i - 1 else i;
      IndexOf(rest, k) == at && rest[at] == es[i]
  {
    hide IndexOf;
    var rest, at := es[..n] + es[n + 1..], if n < i then i - 1 else i;
    forall j | 0 <= j < at ensures rest[j].key != k {
      var was := if j < n then j else j + 1;
      assert rest[j] == es[was] && was < i;
    }
    IndexAt(rest, k, at);
  }

  lemma FreshOther<K>(f: Fifo<K>, e: Entry<K>, k: K)
    requires IndexOf(f.recent, k) < |f.recent| && e.key != k && Younger(f, k) < MAX_ENTRIES - 1
    ensures var g := f.(recent := LastN(f.recent + [e], MAX_ENTRIES));
      IndexOf(g.recent, k) < |g.recent| && Find(g, k) == Find(f, k) && Younger(g, k) <= Younger(f, k) + 1
  {
    var i, all := IndexOf(f.recent, k), f.recent + [e];
    var window := LastN(all, MAX_ENTRIES);
    var dropped := |all| - |window|;
    IndexAt(all, k, i);
    IndexSuffix(all, k, i, dropped);
  }

  lemma IndexSuffix<K>(es: seq<Entry<K>>, k: K, i: nat, d: nat)
    requires i == IndexOf(es, k) < |es| && d <= i
    ensures IndexOf(es[d..], k) == i - d && es[d..][i - d] == es[i]
  {
    hide IndexOf;
    forall j | 0 <= j < i - d ensures es[d..][j].key != k {
      assert es[d..][j] == es[j + d];
    }
    IndexAt(es[d..], k, i - d);
  }

  /** An operation on another key leaves an entry its value, and pushes it back by one place at most. */
  lemma OtherOp<K>(f: Fifo<K>, op: CacheOp<K>, k: K)
    requires IndexOf(f.recent, k) < |f.recent| && op.k != k
    requires op.Put? ==> Younger(f, k) < MAX_ENTRIES - 1
    ensures var g := Apply(f, op);
      && IndexOf(g.recent, k) < |g.recent|
      && Find(g, k) == Find(f, k)
      && Younger(g, k) <= Younger(f, k) + (if op.Put? then 1 else 0)
  {
    match op
    case Del(x) => DelOther(f, x, k);
    case Put(x, kd, pin) =>
      var n := IndexOf(f.recent, x);
      if n < |f.recent| {
        IndexAt(f.recent[n := Entry(x, kd)], k, IndexOf(f.recent, k));
      } else if x !in f.pinned && !pin {
        FreshOther(f, Entry(x, kd), k);
      }
  }

  /**
  Retention: an entry with `y` younger ones survives, with its value, any run of
  operations on other keys that stores fewer than 128 - y times.
  */
  lemma {:induction false} Retained<K>(f: Fifo<K>, ops: seq<CacheOp<K>>, k: K)
    requires IndexOf(f.recent, k) < |f.recent|
    requires forall op | op in ops :: op.k != k
    requires Younger(f, k) + Puts(ops) < MAX_ENTRIES
    ensures Find(ApplyAll(f, ops), k) == Find(f, k)
    decreases |ops|
  {
    if ops == [] {
    } else {
      assert ops[0] in ops;
      OtherOp(f, ops[0], k);
      Retained(Apply(f, ops[0]), ops[1..], k);
    }
  }

  /** What was stored is found, under its own key, pinned or not, known before or not. */
  lemma StoredIsFound<K>(f: Fifo<K>, k: K, kd: Kd, pin: bool)
    ensures Find(Store(f, k, kd, pin), k) == Some(kd)
  {
    var i, g := IndexOf(f.recent, k), Store(f, k, kd, pin);
    if i < |f.recent| {
      IndexAt(g.recent, k, i);
    } else if k !in f.pinned && !pin {
      var e := Entry(k, kd);
      assert forall j | 0 <= j < |g.recent| - 1 :: g.recent[j] in f.recent;
      IndexAt(g.recent, k, |g.recent| - 1);
    }
  }

  /** What was erased is gone. */
  lemma ErasedIsGone<K>(f: Fifo<K>, k: K)
    requires DistinctKeys(f.recent) && (IndexOf(f.recent, k) < |f.recent| ==> k !in f.pinned)
    ensures Find(Erase(f, k), k) == None
  {
    var n := IndexOf(f.recent, k);
    if n < |f.recent| {
      WithoutDistinct(f.recent, n);
    }
  }

  lemma PinnedStep<K>(f: Fifo<K>, op: CacheOp<K>, k: K)
    requires IndexOf(f.recent, k) == |f.recent| && k in f.pinned && op.k != k
    ensures var g := Apply(f, op);
      IndexOf(g.recent, k) == |g.recent| && k in g.pinned && g.pinned[k] == f.pinned[k]
  {
    var g := Apply(f, op);
    assert forall n | 0 <= n < |f.recent| :: f.recent[n].key != k;
    assert forall e | e in g.recent :: e in f.recent || e.key == op.k;
    assert forall e | e in g.recent :: e.key != k;
    assert forall n | 0 <= n < |g.recent| :: g.recent[n] in g.recent;
  }

  /** A pinned entry stays, with its value, through any run of operations on other keys. */
  lemma {:induction false} PinnedStays<K>(f: Fifo<K>, ops: seq<CacheOp<K>>, k: K)
    requires IndexOf(f.recent, k) == |f.recent| && k in f.pinned
    requires forall op | op in ops :: op.k != k
    ensures Find(ApplyAll(f, ops), k) == Some(f.pinned[k])
    decreases |ops|
  {
    if ops == [] {
    } else {
      assert ops[0] in ops;
      PinnedStep(f, ops[0], k);
      PinnedStays(Apply(f, ops[0]), ops[1..], k);
    }
  }

  function FreshPuts<K>(es: seq<Entry<K>>): (ops: seq<CacheOp<K>>)
    ensures |ops| == |es|
  {
    seq(|es|, i requires 0 <= i < |es| => Put(es[i].key, es[i].kd, false))
  }

  /** Stores of new keys slide the window, and do nothing else. */
  lemma {:induction false} WindowSlides<K>(f: Fifo<K>, es: seq<Entry<K>>)
    requires |f.recent| <= MAX_ENTRIES
    requires forall i | 0 <= i < |es| :: es[i].key !in f.pinned
    requires forall i, j | 0 <= i < |es| && 0 <= j < |f.recent| :: es[i].key != f.recent[j].key
    requires forall i, j | 0 <= i < j < |es| :: es[i].key != es[j].key
    ensures ApplyAll(f, FreshPuts(es)) == f.(recent := LastN(f.recent + es, MAX_ENTRIES))
    decreases |es|
  {
    if es == [] {
      assert f.recent + es == f.recent;
    } else {
      var ops := FreshPuts(es);
      var g := Apply(f, ops[0]);
      assert g.recent == LastN(f.recent + [es[0]], MAX_ENTRIES);
      assert forall j | 0 <= j < |g.recent| :: g.recent[j] in f.recent + [es[0]];
      assert ops[1..] == FreshPuts(es[1..]);
      WindowSlides(g, es[1..]);
      LastNAppend(f.recent + [es[0]], es[1..], MAX_ENTRIES);
      assert f.recent + [es[0]] + es[1..] == f.recent + es;
    }
  }

  lemma LastNAppend<T>(s: seq<T>, t: seq<T>, n: nat)
    ensures LastN(LastN(s, n) + t, n) == LastN(s + t, n)
  {
  }

  lemma WindowHolds<K>(all: seq<Entry<K>>, window: seq<Entry<K>>, k: K, i: nat, dropped: nat)
    requires i < |all| && all[i].key == k && forall j | 0 <= j < |all| && j != i :: all[j].key != k
    requires dropped <= |all| && window == all[dropped..]
    ensures IndexOf(window, k) < |window| <==> dropped <= i
  {
    if dropped <= i {
      assert window[i - dropped].key == k;
    }
  }

  /** Eviction is exact: after `n` fresh stores an entry with `y` younger ones is there if and only if y + n < 128. */
  lemma EvictedExactly<K>(f: Fifo<K>, es: seq<Entry<K>>, k: K)
    requires |f.recent| <= MAX_ENTRIES
    requires forall i | 0 <= i < |es| :: es[i].key !in f.pinned
    requires forall i, j | 0 <= i < |es| && 0 <= j < |f.recent| :: es[i].key != f.recent[j].key
    requires forall i, j | 0 <= i < j < |es| :: es[i].key != es[j].key
    requires DistinctKeys(f.recent)
    requires IndexOf(f.recent, k) < |f.recent| && k !in f.pinned
    ensures Find(ApplyAll(f, FreshPuts(es)), k).Some? <==> Younger(f, k) + |es| < MAX_ENTRIES
  {
    WindowSlides(f, es);
    var i, all := IndexOf(f.recent, k), f.recent + es;
    var window := LastN(all, MAX_ENTRIES);
    var dropped := |all| - |window|;
    assert forall j | 0 <= j < |all| && j != i :: all[j].key != k;
    WindowHolds(all, window, k, i, dropped);
  }

  // ----- windows that name each key once

  ghost predicate DistinctKeys<K>(es: seq<Entry<K>>) {
    forall i, j | 0 <= i < j < |es| :: es[i].key != es[j].key
  }

  lemma AppendDistinct<K>(es: seq<Entry<K>>, e: Entry<K>)
    requires DistinctKeys(es) && IndexOf(es, e.key) == |es|
    ensures DistinctKeys(es + [e])
  {
  }

  lemma SuffixDistinct<K>(es: seq<Entry<K>>, d: nat)
    requires DistinctKeys(es) && d <= |es|
    ensures DistinctKeys(es[d..])
  {
  }

  lemma WithoutDistinct<K>(es: seq<Entry<K>>, n: nat)
    requires DistinctKeys(es) && n < |es|
    ensures var rest := es[..n] + es[n + 1..];
      DistinctKeys(rest) && IndexOf(rest, es[n].key) == |rest|
  {
    var rest := es[..n] + es[n + 1..];
    forall j | 0 <= j < |rest| ensures rest[j] == es[if j < n then j else j + 1] {
    }
  }

  lemma WithoutFind<K>(es: seq<Entry<K>>, n: nat, x: K)
    requires n < |es| && es[n].key != x
    ensures var rest, i := es[..n] + es[n + 1..], IndexOf(es, x);
      && (IndexOf(rest, x) < |rest| <==> i < |es|)
      && (i < |es| ==> rest[IndexOf(rest, x)] == es[i])
  {
    var rest, i := es[..n] + es[n + 1..], IndexOf(es, x);
    if i < |es| {
      IndexWithout(es, x, i, n);
    } else {
      forall j | 0 <= j < |rest| ensures rest[j].key != x {
        assert rest[j] == es[if j < n then j else j + 1];
      }
    }
  }

  lemma InitFind<K>(es: seq<Entry<K>>, e: Entry<K>, x: K)
    requires x != e.key
    ensures IndexOf(es + [e], x) < |es| + 1 ==> IndexOf(es, x) == IndexOf(es + [e], x) < |es|
  {
    var i := IndexOf(es + [e], x);
    if i <= |es| {
      assert (es + [e])[i].key == x;
      assert forall j | 0 <= j < i :: es[j] == (es + [e])[j];
      IndexAt(es, x, i);
    }
  }

  // ----- newline-free ids: the string-keyed cache is the cache of pairs

  /** The same window, entry by entry, and the same pinned tracks. */
  ghost predicate Same(f: Fifo<Pair>, g: Fifo<seq<byte>>) {
    && |f.recent| == |g.recent|
    && (forall i | 0 <= i < |f.recent| ::
          Plain(f.recent[i].key) && g.recent[i] == Entry(Key(f.recent[i].key), f.recent[i].kd))
    && (forall p | Plain(p) :: p in f.pinned <==> Key(p) in g.pinned)
    && (forall p | Plain(p) && p in f.pinned :: f.pinned[p] == g.pinned[Key(p)])
  }

  lemma SameIndex(f: Fifo<Pair>, g: Fifo<seq<byte>>, p: Pair)
    requires Same(f, g) && Plain(p)
    ensures IndexOf(g.recent, Key(p)) == IndexOf(f.recent, p)
  {
    hide Key, Plain;
    var i := IndexOf(f.recent, p);
    forall j | 0 <= j < |f.recent| && f.recent[j].key != p ensures g.recent[j].key != Key(p) {
      if Key(f.recent[j].key) == Key(p) {
        KeyInjective(f.recent[j].key, p);
      }
    }
    if i < |f.recent| {
      assert g.recent[i].key == Key(p);
      IndexAt(g.recent, Key(p), i);
    }
  }

  lemma SameFind(f: Fifo<Pair>, g: Fifo<seq<byte>>, p: Pair)
    requires Same(f, g) && Plain(p)
    ensures Find(g, Key(p)) == Find(f, p)
  {
    SameIndex(f, g, p);
  }

  function Lift(op: CacheOp<Pair>): CacheOp<seq<byte>> {
    match op
    case Put(p, kd, pin) => Put(Key(p), kd, pin)
    case Del(p) => Del(Key(p))
  }

  function SetPin<K>(m: map<K, Kd>, k: K, kd: Option<Kd>): map<K, Kd> {
    if kd.Some? then m[k := kd.value] else m - {k}
  }

  lemma SamePinned(f: Fifo<Pair>, g: Fifo<seq<byte>>, p: Pair, kd: Option<Kd>)
    requires Same(f, g) && Plain(p)
    ensures Same(f.(pinned := SetPin(f.pinned, p, kd)), g.(pinned := SetPin(g.pinned, Key(p), kd)))
  {
    hide Key, Plain;
    forall q | Plain(q) ensures Key(q) == Key(p) <==> q == p {
      if Key(q) == Key(p) {
        KeyInjective(p, q);
      }
    }
  }

  lemma SameUpdated(f: Fifo<Pair>, g: Fifo<seq<byte>>, p: Pair, i: nat, kd: Kd)
    requires Same(f, g) && Plain(p) && i < |f.recent|
    ensures Same(f.(recent := f.recent[i := Entry(p, kd)]), g.(recent := g.recent[i := Entry(Key(p), kd)]))
  {
    hide Key, Plain;
  }

  lemma SameErased(f: Fifo<Pair>, g: Fifo<seq<byte>>, i: nat)
    requires Same(f, g) && i < |f.recent|
    ensures Same(f.(recent := f.recent[..i] + f.recent[i + 1..]), g.(recent := g.recent[..i] + g.recent[i + 1..]))
  {
    hide Key, Plain;
  }

  lemma SameFresh(f: Fifo<Pair>, g: Fifo<seq<byte>>, p: Pair, kd: Kd)
    requires Same(f, g) && Plain(p)
    ensures Same(
      f.(recent := LastN(f.recent + [Entry(p, kd)], MAX_ENTRIES)),
      g.(recent := LastN(g.recent + [Entry(Key(p), kd)], MAX_ENTRIES)))
  {
    hide Key, Plain;
  }

  lemma SameApply(f: Fifo<Pair>, g: Fifo<seq<byte>>, op: CacheOp<Pair>)
    requires Same(f, g) && Plain(op.k)
    ensures Same(Apply(f, op), Apply(g, Lift(op)))
  {
    SameIndex(f, g, op.k);
    hide Same, Key, Plain, LastN, IndexOf;
    var i := IndexOf(f.recent, op.k);
    var known := i < |f.recent|;
    assert |f.recent| == |g.recent| && (op.k in f.pinned <==> Key(op.k) in g.pinned) by {
    }
    match op
    case Del(p) =>
      if known { SameErased(f, g, i); } else { SamePinned(f, g, p, None); }
    case Put(p, kd, pin) =>
      if known { SameUpdated(f, g, p, i, kd); }
      else if p in f.pinned || pin { SamePinned(f, g, p, Some(kd)); }
      else { SameFresh(f, g, p, kd); }
  }

  function LiftAll(ops: seq<CacheOp<Pair>>): (ls: seq<CacheOp<seq<byte>>>)
    ensures |ls| == |ops|
  {
    if ops == [] then [] else [Lift(ops[0])] + LiftAll(ops[1..])
  }

  /** After any run on newline-free ids, every lookup answers as the window of pairs does. */
  lemma {:induction false} LookupsAgree(f: Fifo<Pair>, g: Fifo<seq<byte>>, ops: seq<CacheOp<Pair>>, p: Pair)
    requires Same(f, g) && Plain(p) && forall op | op in ops :: Plain(op.k)
    ensures Find(ApplyAll(g, LiftAll(ops)), Key(p)) == Find(ApplyAll(f, ops), p)
    decreases |ops|
  {
    if ops == [] {
      SameFind(f, g, p);
    } else {
      assert ops[0] in ops;
      SameApply(f, g, ops[0]);
      assert LiftAll(ops)[1..] == LiftAll(ops[1..]);
      LookupsAgree(Apply(f, ops[0]), Apply(g, Lift(ops[0])), ops[1..], p);
    }
  }
}
