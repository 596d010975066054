/**
The parsers and builders themselves, loop by loop. Each parser's contract says it
accepts exactly the encodings of the batches its caps allow, and returns the
batch that was encoded.
*/
module BatchParsers {
  import opened Bytes
  import opened Layout
  import opened Sums
  import opened BatchCodec
  import opened Unicode

  // ----- field-level acceptance, and why it is the right notion

  ghost predicate WorkerParses(data: seq<byte>) {
    && 8 <= |data|
    && var a, u, n := ReadU16(data, 0), ReadU16(data, 2), ReadU32(data, 4);
    && 0 < a && 0 < u && 0 < n
    && Tiles(data, 8, n, a + u)
    && AllWithin(ReadWords(data, 8, n), U32_SIZE - 1)
    && Sum(ReadWords(data, 8, n)) <= MAX_BATCH_BYTES
  }

  ghost predicate TcpParses(data: seq<byte>) {
    && 8 <= |data|
    && var a, u, n := ReadU16(data, 0), ReadU16(data, 2), ReadU32(data, 4);
    && 0 < a && 0 < u && 0 < n
    && Tiles(data, 8, n, a + u)
    && AllWithin(ReadWords(data, 8, n), MAX_SAMPLE_BYTES)
    && Text(data[8 + 4 * n..8 + 4 * n + a]) && Text(data[8 + 4 * n + a..8 + 4 * n + a + u])
  }

  ghost predicate HttpParses(data: seq<byte>) {
    && 12 <= |data|
    && var a, u, n := ReadU32(data, 0), ReadU32(data, 4), ReadU32(data, 8);
    && 0 < a && 0 < u && 0 < n
    && Tiles(data, 12, n, a + u)
    && AllWithin(ReadWords(data, 12, n), MAX_SAMPLE_BYTES)
    && Text(data[12 + 4 * n..12 + 4 * n + a]) && Text(data[12 + 4 * n + a..12 + 4 * n + a + u])
  }

  lemma SplitIds(data: seq<byte>, i: nat, a: seq<byte>, u: seq<byte>, j: nat, k: nat)
    requires j == i + |a| && k == i + (|a| + |u|) && k <= |data|
    ensures data[i..k] == a + u <==> data[i..j] == a && data[j..k] == u
  {
    AppendSlices(data, i, j, k);
    if data[i..k] == a + u {
      assert data[i..j] == data[i..k][..|a|] && data[j..k] == data[i..k][|a|..];
    }
  }

  lemma WorkerComplete(data: seq<byte>, b: Batch)
    requires WorkerAccepts(b) && data == EncodeBatch(b)
    ensures WorkerParses(data)
  {
    hide Flatten, Lengths, Words, WorkerHead, ReadU16, ReadU32, Payload, ReadWords, Sum;
    EncodedFields(data, WorkerHead(b), b);
    WorkerHeadFields(data, b);
    LengthsWithin(b.samples, U32_SIZE - 1);
    FlattenLength(b.samples);
  }

  lemma TcpComplete(data: seq<byte>, b: Batch)
    requires TcpAccepts(b) && data == EncodeBatch(b)
    ensures TcpParses(data)
  {
    hide Flatten, Lengths, Words, WorkerHead, ReadU16, ReadU32, Payload, Text, ReadWords, Sum;
    EncodedFields(data, WorkerHead(b), b);
    WorkerHeadFields(data, b);
    LengthsWithin(b.samples, MAX_SAMPLE_BYTES);
    var i := 8 + 4 * |b.samples|;
    SplitIds(data, i, b.adam, b.uri, i + |b.adam|, i + (|b.adam| + |b.uri|));
  }

  lemma HttpComplete(data: seq<byte>, b: Batch)
    requires HttpAccepts(b) && data == EncodeHttpBatch(b)
    ensures HttpParses(data)
  {
    hide Flatten, Lengths, Words, HttpHead, ReadU16, ReadU32, Payload, Text, ReadWords, Sum;
    EncodedFields(data, HttpHead(b), b);
    HttpHeadFields(data, b);
    LengthsWithin(b.samples, MAX_SAMPLE_BYTES);
    var i := 12 + 4 * |b.samples|;
    SplitIds(data, i, b.adam, b.uri, i + |b.adam|, i + (|b.adam| + |b.uri|));
  }

  // ----- loops the Rust parsers share

  /** Cuts `data[start..]` into samples of the given lengths; fails unless they fill it exactly. */
  method CutSamples(data: seq<byte>, start: nat, lengths: seq<u32>) returns (r: Option<seq<seq<byte>>>)
    requires start <= |data| <= MAX_SLICE
    ensures r.Some? <==> start + Sum(lengths) == |data|
    ensures r.Some? ==> Lengths(r.value) == lengths && Flatten(r.value) == data[start..]
    ensures r.Some? ==> |r.value| == |lengths| && forall i | 0 <= i < |lengths| :: |r.value[i]| == lengths[i]
  {
    var offset, out := start, [];
    for i := 0 to |lengths|
      invariant start <= offset <= |data| && offset == start + Sum(lengths[..i])
      invariant |out| == i && forall k | 0 <= k < i :: |out[k]| == lengths[k]
      invariant Lengths(out) == lengths[..i]
      invariant Flatten(out) == data[start..offset]
    {
      CutStep(data, start, offset, lengths, i, out);
      var end := CheckedAdd(offset, lengths[i]);
      if end.None? || end.value > |data| {
        SumMonotone(lengths, i + 1);
        return None;
      }
      out := out + [data[offset..end.value]];
      offset := end.value;
    }
    assert lengths[..|lengths|] == lengths;
    if offset != |data| {
      return None;
    }
    return Some(out);
  }

  lemma CutStep(data: seq<byte>, start: nat, offset: nat, lengths: seq<u32>, i: nat, out: seq<seq<byte>>)
    requires i < |lengths| && start <= offset <= |data|
    requires Lengths(out) == lengths[..i] && Flatten(out) == data[start..offset]
    ensures Sum(lengths[..i + 1]) == Sum(lengths[..i]) + lengths[i]
    ensures offset + lengths[i] <= |data| ==>
      var next := out + [data[offset..offset + lengths[i]]];
      Lengths(next) == lengths[..i + 1] && Flatten(next) == data[start..offset + lengths[i]]
  {
    assert lengths[..i + 1][..i] == lengths[..i];
    if offset + lengths[i] <= |data| {
      var end := offset + lengths[i];
      var next := out + [data[offset..end]];
      assert next[..|out|] == out;
      AppendSlices(data, start, offset, end);
      assert Lengths(next) == Lengths(out) + [lengths[i]];
    }
  }

  /** Reads a length table, refusing a zero length and one above the per-sample cap. */
  method ReadTable(data: seq<byte>, base: nat, n: nat) returns (r: Option<seq<u32>>)
    requires base + 4 * n <= |data|
    ensures r.Some? <==> AllWithin(ReadWords(data, base, n), MAX_SAMPLE_BYTES)
    ensures r.Some? ==> r.value == ReadWords(data, base, n)
  {
    hide ReadU32;
    var lengths := [];
    for i := 0 to n
      invariant lengths == ReadWords(data, base, i)
      invariant AllWithin(lengths, MAX_SAMPLE_BYTES)
    {
      ReadWordsPrefix(data, base, i, n);
      var len := ReadU32(data, base + i * 4);
      if len == 0 || len > MAX_SAMPLE_BYTES {
        return None;
      }
      lengths := lengths + [len];
    }
    return Some(lengths);
  }

  // ----- the four parsers

  /** src/daemon/ipc.cpp: what the worker makes of a decrypt request. */
  method ParseDecryptPayload(data: seq<byte>) returns (r: Option<Batch>)
    requires |data| <= MAX_SLICE
    ensures r.Some? ==> WorkerAccepts(r.value) && data == EncodeBatch(r.value)
    ensures r.None? ==> forall b | WorkerAccepts(b) :: data != EncodeBatch(b)
  {
    hide Flatten, Lengths, Words, WorkerHead, EncodeBatch, ReadU16, ReadU32, Sum, ReadWords;
    forall b | WorkerAccepts(b) && data == EncodeBatch(b) ensures WorkerParses(data) {
      WorkerComplete(data, b);
    }
    if |data| < 8 {
      return None;
    }
    var adamLen: nat, uriLen: nat, count: nat := ReadU16(data, 0), ReadU16(data, 2), ReadU32(data, 4);
    if adamLen == 0 || uriLen == 0 || count == 0 {
      return None;
    }
    var tableEnd := 8 + count * 4;
    var fixed := tableEnd + adamLen + uriLen;
    assert fixed < U64_SIZE;
    if fixed > |data| {
      return None;
    }
    var lengths := ReadCappedTable(data, count);
    if lengths.None? || fixed + Sum(lengths.value) != |data| {
      return None;
    }
    var samples := CutSamples(data, fixed, lengths.value);
    var uriStart := tableEnd + adamLen;
    var b := Batch(data[tableEnd..uriStart], data[uriStart..fixed], samples.value);
    WorkerBytes(data, b, tableEnd, uriStart, fixed);
    FlattenLength(b.samples);
    return Some(b);
  }

  /** The worker's table loop: no zero length, at most 256 MiB in all. */
  method ReadCappedTable(data: seq<byte>, count: nat) returns (r: Option<seq<u32>>)
    requires 8 + 4 * count <= |data|
    ensures r.Some? <==>
      AllWithin(ReadWords(data, 8, count), U32_SIZE - 1) && Sum(ReadWords(data, 8, count)) <= MAX_BATCH_BYTES
    ensures r.Some? ==> r.value == ReadWords(data, 8, count)
  {
    var lengths, sampleBytes := [], 0;
    assert Sum(lengths) == 0;
    hide ReadU32, Sum;
    for i := 0 to count
      invariant lengths == ReadWords(data, 8, i)
      invariant AllWithin(lengths, U32_SIZE - 1)
      invariant sampleBytes == Sum(lengths) <= MAX_BATCH_BYTES
    {
      ReadWordsPrefix(data, 8, i, count);
      ReadWordsPrefix(data, 8, i + 1, count);
      SumMonotone(ReadWords(data, 8, count), i + 1);
      var n := ReadU32(data, 8 + i * 4);
      assert ReadWords(data, 8, i + 1) == lengths + [n];
      if n == 0 {
        return None;
      }
      SumSnoc(lengths, n);
      sampleBytes := sampleBytes + n;
      if sampleBytes > MAX_BATCH_BYTES {
        return None;
      }
      lengths := lengths + [n];
    }
    return Some(lengths);
  }

  lemma WorkerBytes(data: seq<byte>, b: Batch, i: nat, j: nat, k: nat)
    requires 8 <= |data| && i == 8 + 4 * |b.samples| && j == i + |b.adam| && k == j + |b.uri| && k <= |data|
    requires ReadU16(data, 0) == |b.adam| && ReadU16(data, 2) == |b.uri| && ReadU32(data, 4) == |b.samples|
    requires b.adam == data[i..j] && b.uri == data[j..k]
    requires Lengths(b.samples) == ReadWords(data, 8, |b.samples|) && Flatten(b.samples) == data[k..]
    ensures data == EncodeBatch(b)
  {
    hide Flatten, Lengths, ReadU16, ReadU32, Payload, ReadWords, WorkerHead;
    WorkerHeadBytes(data, b);
    AppendSlices(data, i, j, k);
    PayloadFromFields(data, b.samples, 8, i, k);
  }

  lemma HttpBytes(data: seq<byte>, b: Batch, i: nat, j: nat, k: nat)
    requires 12 <= |data| && i == 12 + 4 * |b.samples| && j == i + |b.adam| && k == j + |b.uri| && k <= |data|
    requires ReadU32(data, 0) == |b.adam| && ReadU32(data, 4) == |b.uri| && ReadU32(data, 8) == |b.samples|
    requires b.adam == data[i..j] && b.uri == data[j..k]
    requires Lengths(b.samples) == ReadWords(data, 12, |b.samples|) && Flatten(b.samples) == data[k..]
    ensures data == EncodeHttpBatch(b)
  {
    hide Flatten, Lengths, ReadU32, Payload, ReadWords, HttpHead;
    HttpHeadBytes(data, b);
    AppendSlices(data, i, j, k);
    PayloadFromFields(data, b.samples, 12, i, k);
  }

  /** src/rust/main.rs: the batch of one TCP frame. */
  method ParseTcpBatch(data: seq<byte>) returns (r: Option<Batch>)
    requires |data| <= MAX_SLICE
    ensures r.Some? ==> TcpAccepts(r.value) && data == EncodeBatch(r.value)
    ensures r.None? ==> forall b | TcpAccepts(b) :: data != EncodeBatch(b)
  {
    hide Flatten, Lengths, Words, WorkerHead, EncodeBatch, ReadU16, ReadU32, Text, Sum, ReadWords;
    forall b | TcpAccepts(b) && data == EncodeBatch(b) ensures TcpParses(data) {
      TcpComplete(data, b);
    }
    if |data| < 8 {
      return None;
    }
    var adamLen: nat, uriLen: nat, count: nat := ReadU16(data, 0), ReadU16(data, 2), ReadU32(data, 4);
    if adamLen == 0 || uriLen == 0 || count == 0 {
      return None;
    }
    var tableEnd := 8 + count * 4;
    var uriStart := tableEnd + adamLen;
    var fixedEnd := uriStart + uriLen;
    assert fixedEnd < U64_SIZE;
    if |data| < fixedEnd {
      return None;
    }
    var lengths := ReadTable(data, 8, count);
    if lengths.None? {
      return None;
    }
    var adam, uri := data[tableEnd..uriStart], data[uriStart..fixedEnd];
    if !IsText(adam) || !IsText(uri) {
      return None;
    }
    var samples := CutSamples(data, fixedEnd, lengths.value);
    if samples.None? {
      return None;
    }
    var b := Batch(adam, uri, samples.value);
    WorkerBytes(data, b, tableEnd, uriStart, fixedEnd);
    return Some(b);
  }

  /** src/rust/protocol.rs: the batch of one HTTP body. */
  method ParseHttpBatch(data: seq<byte>) returns (r: Option<Batch>)
    requires |data| <= MAX_SLICE
    ensures r.Some? ==> HttpAccepts(r.value) && data == EncodeHttpBatch(r.value)
    ensures r.None? ==> forall b | HttpAccepts(b) :: data != EncodeHttpBatch(b)
  {
    hide Flatten, Lengths, Words, HttpHead, EncodeHttpBatch, ReadU32, Text, Sum, ReadWords;
    forall b | HttpAccepts(b) && data == EncodeHttpBatch(b) ensures HttpParses(data) {
      HttpComplete(data, b);
    }
    if |data| < 12 {
      return None;
    }
    var adamLen: nat, uriLen: nat, count: nat := ReadU32(data, 0), ReadU32(data, 4), ReadU32(data, 8);
    if adamLen == 0 || uriLen == 0 || count == 0 {
      return None;
    }
    var tableEnd := 12 + count * 4;
    var uriStart := tableEnd + adamLen;
    var fixedEnd := uriStart + uriLen;
    assert fixedEnd < U64_SIZE;
    if |data| < fixedEnd {
      return None;
    }
    var lengths := ReadTable(data, 12, count);
    if lengths.None? {
      return None;
    }
    var adam, uri := data[tableEnd..uriStart], data[uriStart..fixedEnd];
    if !IsText(adam) || !IsText(uri) {
      return None;
    }
    var samples := CutSamples(data, fixedEnd, lengths.value);
    if samples.None? {
      return None;
    }
    var b := Batch(adam, uri, samples.value);
    HttpBytes(data, b, tableEnd, uriStart, fixedEnd);
    return Some(b);
  }

  /** src/rust/protocol.rs: the samples of a worker's answer. */
  method ParseSamples(data: seq<byte>) returns (r: Option<seq<seq<byte>>>)
    requires |data| <= MAX_SLICE
    ensures r.Some? ==> Fits(r.value) && data == EncodeSamples(r.value)
    ensures r.None? ==> forall samples | Fits(samples) :: data != EncodeSamples(samples)
  {
    hide Flatten, Lengths, Words, ReadU32, Sum, EncodeSamples;
    forall samples | Fits(samples) && data == EncodeSamples(samples)
      ensures 4 <= |data| && Tiles(data, 4, ReadU32(data, 0), 0)
    {
      SamplesComplete(data, samples);
    }
    if |data| < 4 {
      return None;
    }
    var count: nat := ReadU32(data, 0);
    var tableEnd := 4 + count * 4;
    assert tableEnd < U64_SIZE;
    if |data| < tableEnd {
      return None;
    }
    var lengths := [];
    for i := 0 to count
      invariant lengths == ReadWords(data, 4, i)
    {
      lengths := lengths + [ReadU32(data, 4 + i * 4)];
    }
    var samples := CutSamples(data, tableEnd, lengths);
    if samples.None? {
      return None;
    }
    SamplesBytes(data, samples.value, tableEnd);
    return samples;
  }

  lemma SamplesComplete(data: seq<byte>, samples: seq<seq<byte>>)
    requires Fits(samples) && data == EncodeSamples(samples)
    ensures 4 <= |data| && Tiles(data, 4, ReadU32(data, 0), 0)
  {
    hide Flatten, Lengths, ReadU32, Be32, Payload, ReadWords, Sum;
    var i := 4 + 4 * |samples|;
    PayloadShape(data, Be32(|samples|), [], samples, 4, i, i);
    assert data[0..4] == data[..4];
    ReadBe32(data, 0, |samples|);
  }

  lemma HeadOnly(data: seq<byte>, i: nat)
    requires 4 <= i <= |data|
    ensures data[..4] == data[0..4] && data[i..i] == []
  {
  }

  lemma SamplesBytes(data: seq<byte>, samples: seq<seq<byte>>, i: nat)
    requires 4 <= |data| && i == 4 + 4 * |samples| && i <= |data|
    requires ReadU32(data, 0) == |samples|
    requires Lengths(samples) == ReadWords(data, 4, |samples|) && Flatten(samples) == data[i..]
    ensures data == EncodeSamples(samples)
  {
    hide Flatten, Lengths, ReadU32, Be32, Payload, ReadWords;
    BeRead32(data, 0);
    HeadOnly(data, i);
    PayloadFromFields(data, samples, 4, i, i);
  }

  // ----- the builders

  /** One past the bytes of a payload with `fixed` bytes before its samples. */
  method CheckedSize(fixed: nat, samples: seq<seq<byte>>, allowEmpty: bool) returns (size: Option<nat>)
    requires fixed < U64_SIZE
    ensures size.Some? <==>
      && (forall i | 0 <= i < |samples| :: (allowEmpty || 0 < |samples[i]|) && |samples[i]| < U32_SIZE)
      && fixed + |Flatten(samples)| < U64_SIZE
    ensures size.Some? ==> size.value == fixed + |Flatten(samples)|
  {
    var n := fixed;
    for i := 0 to |samples|
      invariant n == fixed + |Flatten(samples[..i])| < U64_SIZE
      invariant forall k | 0 <= k < i :: (allowEmpty || 0 < |samples[k]|) && |samples[k]| < U32_SIZE
    {
      if (!allowEmpty && samples[i] == []) || |samples[i]| > U32_SIZE - 1 {
        return None;
      }
      FlattenPrefix(samples, i);
      var next := CheckedAdd(n, |samples[i]|);
      if next.None? {
        return None;
      }
      n := next.value;
    }
    assert samples[..|samples|] == samples;
    return Some(n);
  }

  lemma {:induction false} FlattenPrefix(samples: seq<seq<byte>>, i: nat)
    requires i < |samples|
    ensures Flatten(samples[..i + 1]) == Flatten(samples[..i]) + samples[i]
    ensures |Flatten(samples[..i + 1])| <= |Flatten(samples)|
    decreases |samples|
  {
    var init := samples[..|samples| - 1];
    assert samples[..i + 1][..i] == samples[..i];
    if i + 1 < |samples| {
      FlattenPrefix(init, i);
      assert init[..i + 1] == samples[..i + 1];
    } else {
      assert samples[..i + 1] == samples;
    }
  }

  /** The two loops every builder ends with: the length table, then (after `mid`) the samples. */
  method AppendTable(out: seq<byte>, samples: seq<seq<byte>>) returns (r: seq<byte>)
    ensures r == out + Words(Lengths(samples))
  {
    r := out;
    for i := 0 to |samples|
      invariant r == out + Words(Lengths(samples)[..i])
    {
      assert Lengths(samples)[..i + 1][..i] == Lengths(samples)[..i];
      r := r + Be32(|samples[i]| % U32_SIZE);
    }
    assert Lengths(samples)[..|samples|] == Lengths(samples);
  }

  method AppendSamples(out: seq<byte>, samples: seq<seq<byte>>) returns (r: seq<byte>)
    ensures r == out + Flatten(samples)
  {
    r := out;
    for i := 0 to |samples|
      invariant r == out + Flatten(samples[..i])
    {
      FlattenPrefix(samples, i);
      r := r + samples[i];
    }
    assert samples[..|samples|] == samples;
  }

  /** src/rust/protocol.rs: the payload sent to the worker. */
  method BuildBatch(b: Batch) returns (r: Option<seq<byte>>)
    ensures r.Some? <==> BuilderAccepts(b) && |EncodeBatch(b)| < U64_SIZE
    ensures r.Some? ==> r.value == EncodeBatch(b)
  {
    hide Flatten, Lengths, Words, Be16, Be32;
    if |b.adam| > U16_SIZE - 1 || |b.uri| > U16_SIZE - 1 || |b.samples| > U32_SIZE - 1 {
      return None;
    }
    if |b.samples| == 0 {
      return None;
    }
    var size := CheckedSize(8 + |b.samples| * 4 + |b.adam| + |b.uri|, b.samples, false);
    if size.None? {
      return None;
    }
    var out := Be16(|b.adam|) + Be16(|b.uri|) + Be32(|b.samples|);
    out := AppendTable(out, b.samples);
    out := out + b.adam + b.uri;
    assert out == WorkerHead(b) + Words(Lengths(b.samples)) + (b.adam + b.uri);
    out := AppendSamples(out, b.samples);
    return Some(out);
  }

  /** src/daemon/ipc.cpp: the worker's answer; every count is cast to 32 bits. */
  method BuildDecryptResponse(samples: seq<seq<byte>>) returns (out: seq<byte>)
    ensures out == EncodeSamples(samples)
  {
    hide Flatten, Lengths, Words, Be32;
    out := Be32(|samples| % U32_SIZE);
    out := AppendTable(out, samples);
    assert out == Be32(|samples| % U32_SIZE) + Words(Lengths(samples)) + [];
    out := AppendSamples(out, samples);
  }

  /** src/rust/main.rs and src/rust/protocol.rs: the answer to a TCP or an HTTP client. */
  method BuildSamples(samples: seq<seq<byte>>) returns (r: Option<seq<byte>>)
    ensures r.Some? <==> Fits(samples) && |EncodeSamples(samples)| < U64_SIZE
    ensures r.Some? ==> r.value == EncodeSamples(samples)
  {
    hide Flatten, Lengths, Words, Be32;
    if |samples| > U32_SIZE - 1 {
      return None;
    }
    var size := CheckedSize(4 + |samples| * 4, samples, true);
    if size.None? {
      return None;
    }
    var out := Be32(|samples|);
    out := AppendTable(out, samples);
    assert out == Be32(|samples|) + Words(Lengths(samples)) + [];
    out := AppendSamples(out, samples);
    return Some(out);
  }
}
