/**
The decrypt batch formats. Two builders and four parsers, written independently
in Rust and C++, all proved against the same encoders.
*/
module BatchCodec {
  import opened Bytes
  import opened Layout
  import opened Sums
  import opened Unicode

  datatype Batch = Batch(adam: seq<byte>, uri: seq<byte>, samples: seq<seq<byte>>)

  const MAX_BATCH_BYTES := 256 * 1024 * 1024
  const MAX_SAMPLE_BYTES := 64 * 1024 * 1024

  // ----- the encodings

  function WorkerHead(b: Batch): (h: seq<byte>)
    ensures |h| == 8
  {
    Be16(|b.adam| % U16_SIZE) + Be16(|b.uri| % U16_SIZE) + Be32(|b.samples| % U32_SIZE)
  }

  function HttpHead(b: Batch): (h: seq<byte>)
    ensures |h| == 12
  {
    Be32(|b.adam| % U32_SIZE) + Be32(|b.uri| % U32_SIZE) + Be32(|b.samples| % U32_SIZE)
  }

  /** The batch format of the TCP port and of the pipe to the worker. */
  function EncodeBatch(b: Batch): seq<byte> {
    Payload(WorkerHead(b), b.adam + b.uri, b.samples)
  }

  /** The batch format of the HTTP port: the same with 32-bit id lengths. */
  function EncodeHttpBatch(b: Batch): seq<byte> {
    Payload(HttpHead(b), b.adam + b.uri, b.samples)
  }

  /** The answer format. */
  function EncodeSamples(samples: seq<seq<byte>>): seq<byte> {
    Payload(Be32(|samples| % U32_SIZE), [], samples)
  }

  // ----- what each parser accepts

  predicate Lens(samples: seq<seq<byte>>, cap: nat) {
    0 < |samples| < U32_SIZE && forall i | 0 <= i < |samples| :: 0 < |samples[i]| <= cap
  }

  predicate Ids(b: Batch, size: nat) {
    0 < |b.adam| < size && 0 < |b.uri| < size
  }

  predicate WorkerAccepts(b: Batch) {
    Ids(b, U16_SIZE) && Lens(b.samples, U32_SIZE - 1) && |Flatten(b.samples)| <= MAX_BATCH_BYTES
  }

  ghost predicate TcpAccepts(b: Batch) {
    Ids(b, U16_SIZE) && Lens(b.samples, MAX_SAMPLE_BYTES) && Text(b.adam) && Text(b.uri)
  }

  ghost predicate HttpAccepts(b: Batch) {
    Ids(b, U32_SIZE) && Lens(b.samples, MAX_SAMPLE_BYTES) && Text(b.adam) && Text(b.uri)
  }

  /** What the Rust builder accepts: it does not look for empty ids. */
  predicate BuilderAccepts(b: Batch) {
    |b.adam| < U16_SIZE && |b.uri| < U16_SIZE && Lens(b.samples, U32_SIZE - 1)
  }

  // ----- fields found in a byte string

  /** Head, table, ids and samples tile the input exactly. */
  ghost predicate Tiles(data: seq<byte>, h: nat, n: nat, m: nat) {
    h + 4 * n + m <= |data| && h + 4 * n + m + Sum(ReadWords(data, h, n)) == |data|
  }

  predicate AllWithin(ws: seq<u32>, cap: nat) {
    forall i | 0 <= i < |ws| :: 0 < ws[i] <= cap
  }

  lemma WorkerHeadFields(data: seq<byte>, b: Batch)
    requires 8 <= |data| && data[..8] == WorkerHead(b)
    requires |b.adam| < U16_SIZE && |b.uri| < U16_SIZE && |b.samples| < U32_SIZE
    ensures ReadU16(data, 0) == |b.adam| && ReadU16(data, 2) == |b.uri| && ReadU32(data, 4) == |b.samples|
  {
    hide ReadU16, ReadU32, Be16, Be32;
    var h := WorkerHead(b);
    assert data[0..2] == h[0..2] && data[2..4] == h[2..4] && data[4..8] == h[4..8];
    ReadBe16(data, 0, |b.adam|);
    ReadBe16(data, 2, |b.uri|);
    ReadBe32(data, 4, |b.samples|);
  }

  lemma HttpHeadFields(data: seq<byte>, b: Batch)
    requires 12 <= |data| && data[..12] == HttpHead(b)
    requires |b.adam| < U32_SIZE && |b.uri| < U32_SIZE && |b.samples| < U32_SIZE
    ensures ReadU32(data, 0) == |b.adam| && ReadU32(data, 4) == |b.uri| && ReadU32(data, 8) == |b.samples|
  {
    hide ReadU16, ReadU32, Be16, Be32;
    var h := HttpHead(b);
    assert data[0..4] == h[0..4] && data[4..8] == h[4..8] && data[8..12] == h[8..12];
    ReadBe32(data, 0, |b.adam|);
    ReadBe32(data, 4, |b.uri|);
    ReadBe32(data, 8, |b.samples|);
  }

  lemma WorkerHeadBytes(data: seq<byte>, b: Batch)
    requires 8 <= |data|
    requires ReadU16(data, 0) == |b.adam| && ReadU16(data, 2) == |b.uri| && ReadU32(data, 4) == |b.samples|
    ensures data[..8] == WorkerHead(b)
  {
    hide ReadU16, ReadU32, Be16, Be32;
    BeRead16(data, 0);
    BeRead16(data, 2);
    BeRead32(data, 4);
    assert data[..8] == data[0..2] + data[2..4] + data[4..8];
  }

  lemma HttpHeadBytes(data: seq<byte>, b: Batch)
    requires 12 <= |data|
    requires ReadU32(data, 0) == |b.adam| && ReadU32(data, 4) == |b.uri| && ReadU32(data, 8) == |b.samples|
    ensures data[..12] == HttpHead(b)
  {
    hide ReadU16, ReadU32, Be16, Be32;
    BeRead32(data, 0);
    BeRead32(data, 4);
    BeRead32(data, 8);
    assert data[..12] == data[0..4] + data[4..8] + data[8..12];
  }

  lemma LengthsWithin(samples: seq<seq<byte>>, cap: nat)
    requires cap < U32_SIZE && Fits(samples)
    ensures Lens(samples, cap) <==> 0 < |samples| && AllWithin(Lengths(samples), cap)
  {
    if AllWithin(Lengths(samples), cap) {
      forall i | 0 <= i < |samples| ensures 0 < |samples[i]| <= cap {
        assert 0 < Lengths(samples)[i] <= cap;
      }
    }
  }

  /** The fields of a worker batch, as any parser must find them. */
  ghost predicate BatchFields(data: seq<byte>, h: nat, adamLen: nat, uriLen: nat, n: nat, b: Batch) {
    && adamLen == |b.adam| && uriLen == |b.uri| && n == |b.samples|
    && Tiles(data, h, n, adamLen + uriLen)
    && ReadWords(data, h, n) == Lengths(b.samples)
    && data[h + 4 * n..h + 4 * n + (adamLen + uriLen)] == b.adam + b.uri
    && data[h + 4 * n + (adamLen + uriLen)..] == Flatten(b.samples)
  }

  lemma EncodedFields(data: seq<byte>, head: seq<byte>, b: Batch)
    requires Fits(b.samples)
    requires data == Payload(head, b.adam + b.uri, b.samples)
    ensures BatchFields(data, |head|, |b.adam|, |b.uri|, |b.samples|, b)
    ensures data[..|head|] == head
  {
    hide Payload, Lengths, ReadWords, Flatten, Sum;
    var mid := b.adam + b.uri;
    var h, n, m := |head|, |b.samples|, |b.adam| + |b.uri|;
    PayloadShape(data, head, mid, b.samples, h, h + 4 * n, h + 4 * n + m);
  }
}
