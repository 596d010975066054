/** The cache of key-derivation contexts: a map, and a queue of insertion order that bounds it. */
module KdCache {
  import opened Bytes

  const NEWLINE: byte := 10
  const PREFETCH: seq<byte> := [48] // "0"
  const MAX_ENTRIES := 128

  /** What identifies a track's key. */
  datatype Pair = Pair(adam: seq<byte>, uri: seq<byte>)

  /** A handle to a derived context, never null. */
  type Kd = nat

  function Key(p: Pair): seq<byte> {
    p.adam + [NEWLINE] + p.uri
  }

  // ----- the reference: recent insertions, oldest first, and pinned entries apart

  datatype Entry<K> = Entry(key: K, kd: Kd)

  datatype Fifo<K> = Fifo(recent: seq<Entry<K>>, pinned: map<K, Kd>)

  function IndexOf<K(==)>(es: seq<Entry<K>>, k: K): (i: nat)
    ensures i <= |es|
    ensures i < |es| ==> es[i].key == k
    ensures forall j | 0 <= j < i :: es[j].key != k
  {
    if es == [] || es[0].key == k then 0 else 1 + IndexOf(es[1..], k)
  }

  function Find<K(==)>(f: Fifo<K>, k: K): Option<Kd> {
    var i := IndexOf(f.recent, k);
    if i < |f.recent| then Some(f.recent[i].kd)
    else if k in f.pinned then Some(f.pinned[k])
    else None
  }

  function LastN<T>(s: seq<T>, n: nat): seq<T> {
    if |s| <= n then s else s[|s| - n..]
  }

  /** A known key gets a new value where it is; a fresh one is pinned, or joins the most recent 128. */
  function Store<K(==)>(f: Fifo<K>, k: K, kd: Kd, pin: bool): Fifo<K> {
    var i := IndexOf(f.recent, k);
    if i < |f.recent| then f.(recent := f.recent[i := Entry(k, kd)])
    else if k in f.pinned || pin then f.(pinned := f.pinned[k := kd])
    else f.(recent := LastN(f.recent + [Entry(k, kd)], MAX_ENTRIES))
  }

  function Erase<K(==)>(f: Fifo<K>, k: K): Fifo<K> {
    var i := IndexOf(f.recent, k);
    if i < |f.recent| then f.(recent := f.recent[..i] + f.recent[i + 1..])
    else f.(pinned := f.pinned - {k})
  }

  // ----- the cache itself

  /** The keys of `order` with their values in `entries`. */
  function Recent(entries: map<seq<byte>, Kd>, order: seq<seq<byte>>): (es: seq<Entry<seq<byte>>>)
    requires forall k | k in order :: k in entries
    ensures |es| == |order|
    ensures forall i | 0 <= i < |es| :: es[i] == Entry(order[i], entries[order[i]])
  {
    seq(|order|, i requires 0 <= i < |order| => Entry(order[i], entries[order[i]]))
  }

  ghost predicate NoDup<T>(s: seq<T>) {
    forall i, j | 0 <= i < j < |s| :: s[i] != s[j]
  }

  /** What every operation keeps, whatever the ids. */
  ghost predicate Ok(entries: map<seq<byte>, Kd>, order: seq<seq<byte>>) {
    && NoDup(order)
    && (forall k | k in order :: k in entries)
    && |order| <= MAX_ENTRIES
    && (forall k | k in entries && k !in order :: PREFETCH + [NEWLINE] <= k)
  }

  ghost function Abs(entries: map<seq<byte>, Kd>, order: seq<seq<byte>>): Fifo<seq<byte>>
    requires forall k | k in order :: k in entries
  {
    Fifo(Recent(entries, order), map k | k in entries && k !in order :: entries[k])
  }

  lemma RecentIndex(m: map<seq<byte>, Kd>, o: seq<seq<byte>>, k: seq<byte>)
    requires forall x | x in o :: x in m
    ensures var i := IndexOf(Recent(m, o), k);
      (i < |o| <==> k in o) && (i < |o| ==> o[i] == k)
  {
    var i := IndexOf(Recent(m, o), k);
    if k in o {
      var j :| 0 <= j < |o| && o[j] == k;
      assert Recent(m, o)[j].key == k;
    }
  }

  lemma StoreKnown(m: map<seq<byte>, Kd>, o: seq<seq<byte>>, k: seq<byte>, kd: Kd, pin: bool)
    requires Ok(m, o) && (k in m || (pin && PREFETCH + [NEWLINE] <= k))
    ensures Ok(m[k := kd], o)
    ensures Abs(m[k := kd], o) == Store(Abs(m, o), k, kd, pin)
  {
    RecentIndex(m, o, k);
    var i := IndexOf(Recent(m, o), k);
    var n := m[k := kd];
    if i < |o| {
      assert Recent(n, o) == Recent(m, o)[i := Entry(k, kd)];
      assert Abs(n, o).pinned == Abs(m, o).pinned;
    } else {
      assert Recent(n, o) == Recent(m, o);
      assert Abs(n, o).pinned == Abs(m, o).pinned[k := kd];
    }
  }

  lemma StoreFresh(m: map<seq<byte>, Kd>, o: seq<seq<byte>>, k: seq<byte>, kd: Kd)
    requires Ok(m, o) && k !in m && |o| < MAX_ENTRIES
    ensures Ok(m[k := kd], o + [k])
    ensures Abs(m[k := kd], o + [k]) == Store(Abs(m, o), k, kd, false)
  {
    RecentIndex(m, o, k);
    var n, q := m[k := kd], o + [k];
    assert Recent(n, q) == Recent(m, o) + [Entry(k, kd)];
    assert Abs(n, q).pinned == Abs(m, o).pinned;
  }

  lemma StoreEvicting(m: map<seq<byte>, Kd>, o: seq<seq<byte>>, k: seq<byte>, kd: Kd)
    requires Ok(m, o) && k !in m && |o| == MAX_ENTRIES
    ensures Ok(m[k := kd] - {o[0]}, o[1..] + [k])
    ensures Abs(m[k := kd] - {o[0]}, o[1..] + [k]) == Store(Abs(m, o), k, kd, false)
  {
    RecentIndex(m, o, k);
    var n, q := m[k := kd] - {o[0]}, o[1..] + [k];
    var es := Recent(m, o) + [Entry(k, kd)];
    assert LastN(es, MAX_ENTRIES) == es[1..];
    assert Recent(n, q) == es[1..];
    assert Abs(n, q).pinned == Abs(m, o).pinned;
  }

  function Without<T>(s: seq<T>, i: nat): seq<T>
    requires i < |s|
  {
    s[..i] + s[i + 1..]
  }

  lemma RecentWithout(m: map<seq<byte>, Kd>, o: seq<seq<byte>>, k: seq<byte>, i: nat)
    requires Ok(m, o) && i < |o| && o[i] == k
    requires forall x | x in Without(o, i) :: x in m - {k}
    ensures Recent(m - {k}, Without(o, i)) == Without(Recent(m, o), i)
  {
    forall j | 0 <= j < |o| - 1 ensures Recent(m - {k}, Without(o, i))[j] == Without(Recent(m, o), i)[j] {
      assert Without(o, i)[j] == o[if j < i then j else j + 1];
    }
  }

  lemma EraseQueued(m: map<seq<byte>, Kd>, o: seq<seq<byte>>, k: seq<byte>, i: nat)
    requires Ok(m, o) && i < |o| && o[i] == k && i == IndexOf(Recent(m, o), k)
    ensures Ok(m - {k}, Without(o, i)) && Abs(m - {k}, Without(o, i)) == Erase(Abs(m, o), k)
  {
    var q, n := Without(o, i), m - {k};
    RecentWithout(m, o, k, i);
    hide Without, NoDup;
    assert Abs(n, q).pinned == Abs(m, o).pinned;
  }

  lemma EraseOther(m: map<seq<byte>, Kd>, o: seq<seq<byte>>, k: seq<byte>)
    requires Ok(m, o) && k !in o
    ensures Ok(m - {k}, o) && Abs(m - {k}, o) == Erase(Abs(m, o), k)
  {
    RecentIndex(m, o, k);
    assert Recent(m - {k}, o) == Recent(m, o);
    assert Abs(m - {k}, o).pinned == Abs(m, o).pinned - {k};
  }

  class Cache {
    var entries: map<seq<byte>, Kd>
    var order: seq<seq<byte>>

    ghost predicate Valid()
      reads this
    {
      Ok(entries, order)
    }

    ghost function View(): Fifo<seq<byte>>
      requires Valid()
      reads this
    {
      Abs(entries, order)
    }

    constructor ()
      ensures Valid() && View() == Fifo([], map[])
    {
      entries, order := map[], [];
    }

    /** `find_cached_kd` */
    method Lookup(p: Pair) returns (r: Option<Kd>)
      requires Valid()
      ensures r == Find(View(), Key(p))
    {
      r := if Key(p) in entries then Some(entries[Key(p)]) else None;
    }

    /** `store_cached_kd` */
    method Insert(p: Pair, kd: Kd)
      requires Valid()
      modifies this
      ensures Valid() && View() == Store(old(View()), Key(p), kd, p.adam == PREFETCH)
    {
      var key := Key(p);
      ghost var m, o := entries, order;
      var inserted := key !in entries;
      entries := entries[key := kd];
      if !inserted || p.adam == PREFETCH {
        StoreKnown(m, o, key, kd, p.adam == PREFETCH);
        return;
      }
      order := order + [key];
      if |o| < MAX_ENTRIES {
        StoreFresh(m, o, key, kd);
      } else {
        StoreEvicting(m, o, key, kd);
        assert (o + [key])[1..] == o[1..] + [key];
      }
      while |order| > MAX_ENTRIES
        invariant |order| <= MAX_ENTRIES + 1
        invariant |order| == MAX_ENTRIES + 1 ==> entries == m[key := kd] && order == o + [key]
        invariant |order| <= MAX_ENTRIES ==> Valid() && View() == Store(Abs(m, o), key, kd, false)
      {
        var oldest := order[0];
        entries := entries - {oldest};
        order := order[1..];
      }
    }

    /** `erase_cached_kd` */
    method Remove(p: Pair)
      requires Valid()
      modifies this
      ensures Valid() && View() == Erase(old(View()), Key(p))
    {
      var key := Key(p);
      ghost var m, o := entries, order;
      RecentIndex(m, o, key);
      if key !in o {
        EraseOther(m, o, key);
      }
      if key !in entries {
        assert m - {key} == m;
        return;
      }
      entries := entries - {key};
      var i := 0;
      while i < |order| && order[i] != key
        invariant i <= |order|
        invariant forall j | 0 <= j < i :: order[j] != key
      {
        i := i + 1;
      }
      if i < |order| {
        assert i == IndexOf(Recent(m, o), key);
        EraseQueued(m, o, key, i);
        order := order[..i] + order[i + 1..];
      }
    }
  }
}
