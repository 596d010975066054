/**
The shape every decrypt payload shares: a head that ends in a sample count, one
32-bit length per sample, a middle part (the ids, or nothing), then the samples
end to end.
*/
module Layout {
  import opened Bytes
  import opened Sums

  /** 32-bit words, big-endian, end to end. */
  function Words(ws: seq<u32>): (t: seq<byte>)
    ensures |t| == 4 * |ws|
  {
    if ws == [] then [] else Words(ws[..|ws| - 1]) + Be32(ws[|ws| - 1])
  }

  function ReadWords(data: seq<byte>, base: nat, n: nat): (ws: seq<u32>)
    requires base + 4 * n <= |data|
    ensures |ws| == n
  {
    if n == 0 then [] else ReadWords(data, base, n - 1) + [ReadU32(data, base + 4 * (n - 1))]
  }

  function Flatten(samples: seq<seq<byte>>): seq<byte> {
    if samples == [] then [] else Flatten(samples[..|samples| - 1]) + samples[|samples| - 1]
  }

  /** The lengths as the writers emit them: cast to 32 bits. */
  function Lengths(samples: seq<seq<byte>>): (ws: seq<u32>)
    ensures |ws| == |samples|
  {
    seq(|samples|, i requires 0 <= i < |samples| => |samples[i]| % U32_SIZE)
  }

  function Payload(head: seq<byte>, mid: seq<byte>, samples: seq<seq<byte>>): seq<byte> {
    head + Words(Lengths(samples)) + mid + Flatten(samples)
  }

  /** Every length survives the cast to 32 bits. */
  predicate Fits(samples: seq<seq<byte>>) {
    |samples| < U32_SIZE && forall i | 0 <= i < |samples| :: |samples[i]| < U32_SIZE
  }

  lemma {:induction false} SumMonotone(ws: seq<u32>, n: nat)
    requires n <= |ws|
    ensures Sum(ws[..n]) <= Sum(ws)
    decreases |ws|
  {
    if n < |ws| {
      SumMonotone(ws[..|ws| - 1], n);
      assert ws[..|ws| - 1][..n] == ws[..n];
    } else {
      assert ws[..n] == ws;
    }
  }

  lemma AppendSlices(data: seq<byte>, i: nat, j: nat, k: nat)
    requires i <= j <= k <= |data|
    ensures data[i..k] == data[i..j] + data[j..k]
  {
  }

  lemma WordsSnoc(ws: seq<u32>, w: u32)
    ensures Words(ws + [w]) == Words(ws) + Be32(w)
  {
    assert (ws + [w])[..|ws|] == ws;
  }

  lemma WordRead(data: seq<byte>, base: nat, at: nat, end: nat, before: seq<u32>)
    requires base <= at && end == at + 4 && end <= |data| && Words(before) == data[base..at]
    ensures Words(before + [ReadU32(data, at)]) == data[base..end]
  {
    hide Be32, ReadU32, Words;
    WordsSnoc(before, ReadU32(data, at));
    BeRead32(data, at);
    AppendSlices(data, base, at, end);
  }

  lemma {:induction false} WordsRead(data: seq<byte>, base: nat, n: nat, end: nat)
    requires end == base + 4 * n && end <= |data|
    ensures Words(ReadWords(data, base, n)) == data[base..end]
    decreases n
  {
    hide Be32, ReadU32;
    if n == 0 {
      assert data[base..end] == [];
    } else {
      var at := end - 4;
      hide Words;
      WordsRead(data, base, n - 1, at);
      WordRead(data, base, at, end, ReadWords(data, base, n - 1));
    }
  }

  lemma {:induction false} ReadWordsPrefix(data: seq<byte>, base: nat, k: nat, n: nat)
    requires k <= n && base + 4 * n <= |data|
    ensures ReadWords(data, base, n)[..k] == ReadWords(data, base, k)
    ensures k < n ==> ReadWords(data, base, n)[k] == ReadU32(data, base + 4 * k)
    decreases n
  {
    hide ReadU32;
    if k == n {
    } else {
      ReadWordsPrefix(data, base, k, n - 1);
      assert ReadWords(data, base, n)[..k] == ReadWords(data, base, n - 1)[..k];
    }
  }

  lemma {:induction false} WordsInjective(a: seq<u32>, b: seq<u32>)
    requires |a| == |b| && Words(a) == Words(b)
    ensures a == b
    decreases |a|
  {
    if a == [] {
    } else {
      var n := |a| - 1;
      var init := Words(a[..n]);
      LastWord(init, a[n], Words(b[..n]), b[n]);
      WordsInjective(a[..n], b[..n]);
      assert a == a[..n] + [a[n]] && b == b[..n] + [b[n]];
    }
  }

  lemma LastWord(s: seq<byte>, v: u32, t: seq<byte>, w: u32)
    requires |s| == |t| && s + Be32(v) == t + Be32(w)
    ensures s == t && v == w
  {
    var n := |s|;
    assert s == (s + Be32(v))[..n] && t == (t + Be32(w))[..n];
    assert Be32(v) == (s + Be32(v))[n..] && Be32(w) == (t + Be32(w))[n..];
    ReadBe32(Be32(v), 0, v);
    ReadBe32(Be32(w), 0, w);
  }

  lemma CutInFour(s: seq<byte>, i: nat, j: nat, k: nat)
    requires i <= j <= k <= |s|
    ensures s == s[..i] + s[i..j] + s[j..k] + s[k..]
  {
  }

  lemma {:induction false} FlattenLength(samples: seq<seq<byte>>)
    requires Fits(samples)
    ensures |Flatten(samples)| == Sum(Lengths(samples))
    decreases |samples|
  {
    if samples == [] {
    } else {
      var init := samples[..|samples| - 1];
      FlattenLength(init);
      assert Lengths(samples)[..|init|] == Lengths(init);
    }
  }

  /** What a reader finds in a payload, field by field. */
  lemma PayloadShape(data: seq<byte>, head: seq<byte>, mid: seq<byte>, samples: seq<seq<byte>>, h: nat, i: nat, j: nat)
    requires Fits(samples)
    requires data == Payload(head, mid, samples)
    requires h == |head| && i == h + 4 * |samples| && j == i + |mid|
    ensures |data| == j + Sum(Lengths(samples))
    ensures data[..h] == head && data[i..j] == mid && data[j..] == Flatten(samples)
    ensures ReadWords(data, h, |samples|) == Lengths(samples)
  {
    hide Words, Flatten, ReadWords, Lengths, Sum;
    FlattenLength(samples);
    WordsRead(data, h, |samples|, i);
    WordsInjective(ReadWords(data, h, |samples|), Lengths(samples));
  }

  /** Reading the fields of a payload and writing them back restores it. */
  lemma PayloadFromFields(data: seq<byte>, samples: seq<seq<byte>>, h: nat, i: nat, j: nat)
    requires i == h + 4 * |samples| && i <= j <= |data|
    requires ReadWords(data, h, |samples|) == Lengths(samples)
    requires data[j..] == Flatten(samples)
    ensures data == Payload(data[..h], data[i..j], samples)
  {
    hide Words, Flatten, ReadWords, Lengths;
    WordsRead(data, h, |samples|, i);
    CutInFour(data, h, i, j);
  }

  /** Two sample lists with the same lengths and the same bytes are the same list. */
  lemma {:induction false} FlattenInjective(a: seq<seq<byte>>, b: seq<seq<byte>>)
    requires |a| == |b| && forall i | 0 <= i < |a| :: |a[i]| == |b[i]|
    requires Flatten(a) == Flatten(b)
    ensures a == b
    decreases |a|
  {
    if a == [] {
    } else {
      var n := |a| - 1;
      var k := |Flatten(a)| - |a[n]|;
      assert Flatten(a[..n]) == Flatten(a)[..k] && a[n] == Flatten(a)[k..];
      assert Flatten(b[..n]) == Flatten(b)[..k] && b[n] == Flatten(b)[k..];
      FlattenInjective(a[..n], b[..n]);
      assert a == a[..n] + [a[n]] && b == b[..n] + [b[n]];
    }
  }

  lemma SameLengths(a: seq<seq<byte>>, b: seq<seq<byte>>)
    requires Fits(a) && Fits(b) && Lengths(a) == Lengths(b)
    ensures |a| == |b| && forall k | 0 <= k < |a| :: |a[k]| == |b[k]|
  {
    assert |a| == |Lengths(a)| == |b|;
    forall k | 0 <= k < |a| ensures |a[k]| == |b[k]| {
      assert Lengths(a)[k] == Lengths(b)[k];
    }
  }

  /** A payload determines its head, its middle and its samples, once their sizes are known. */
  lemma PayloadInjective(data: seq<byte>, h1: seq<byte>, m1: seq<byte>, a: seq<seq<byte>>,
      h2: seq<byte>, m2: seq<byte>, b: seq<seq<byte>>)
    requires Fits(a) && Fits(b)
    requires |h1| == |h2| && |a| == |b| && |m1| == |m2|
    requires data == Payload(h1, m1, a) && data == Payload(h2, m2, b)
    ensures h1 == h2 && m1 == m2 && a == b
  {
    hide Payload, Words, Flatten, ReadWords, Lengths, Fits;
    var h, i := |h1|, |h1| + 4 * |a|;
    var j := i + |m1|;
    PayloadShape(data, h1, m1, a, h, i, j);
    PayloadShape(data, h2, m2, b, h, i, j);
    SameLengths(a, b);
    FlattenInjective(a, b);
  }
}
