/**
What the independent implementations of the batch formats owe each other.
*/
module BatchAgreement {
  import opened Bytes
  import opened Layout
  import opened Sums
  import opened BatchCodec
  import opened Unicode
  import opened BatchParsers

  lemma EncodeBatchInjective(a: Batch, b: Batch)
    requires BuilderAccepts(a) && BuilderAccepts(b) && EncodeBatch(a) == EncodeBatch(b)
    ensures a == b
  {
    hide Payload, Flatten, Words, ReadWords, Lengths, WorkerHead, ReadU16, ReadU32, Sum;
    var data := EncodeBatch(a);
    EncodedFields(data, WorkerHead(a), a);
    EncodedFields(data, WorkerHead(b), b);
    WorkerHeadFields(data, a);
    WorkerHeadFields(data, b);
    PayloadInjective(data, WorkerHead(a), a.adam + a.uri, a.samples, WorkerHead(b), b.adam + b.uri, b.samples);
    SameIds(a, b);
  }

  lemma EncodeHttpInjective(a: Batch, b: Batch)
    requires HttpAccepts(a) && HttpAccepts(b) && EncodeHttpBatch(a) == EncodeHttpBatch(b)
    ensures a == b
  {
    hide Payload, Flatten, Words, ReadWords, Lengths, HttpHead, ReadU16, ReadU32, Sum, Text;
    var data := EncodeHttpBatch(a);
    EncodedFields(data, HttpHead(a), a);
    EncodedFields(data, HttpHead(b), b);
    HttpHeadFields(data, a);
    HttpHeadFields(data, b);
    PayloadInjective(data, HttpHead(a), a.adam + a.uri, a.samples, HttpHead(b), b.adam + b.uri, b.samples);
    SameIds(a, b);
  }

  lemma SameIds(a: Batch, b: Batch)
    requires |a.adam| == |b.adam| && a.adam + a.uri == b.adam + b.uri
    ensures a.adam == b.adam && a.uri == b.uri
  {
    assert a.adam == (a.adam + a.uri)[..|a.adam|] && b.adam == (b.adam + b.uri)[..|a.adam|];
    assert a.uri == (a.adam + a.uri)[|a.adam|..] && b.uri == (b.adam + b.uri)[|a.adam|..];
  }

  lemma EncodeSamplesInjective(a: seq<seq<byte>>, b: seq<seq<byte>>)
    requires Fits(a) && Fits(b) && EncodeSamples(a) == EncodeSamples(b)
    ensures a == b
  {
    hide Payload, Flatten, Words, ReadWords, Lengths, ReadU32, Sum, Be32;
    var data := EncodeSamples(a);
    var i, j := 4 + 4 * |a|, 4 + 4 * |b|;
    PayloadShape(data, Be32(|a|), [], a, 4, i, i);
    PayloadShape(data, Be32(|b|), [], b, 4, j, j);
    ReadBe32(Be32(|a|), 0, |a|);
    ReadBe32(Be32(|b|), 0, |b|);
    PayloadInjective(data, Be32(|a|), [], a, Be32(|b|), [], b);
  }

  /** The Rust builder and the worker's parser, back to back, on any batch whatever. */
  method SendToWorker(b: Batch) returns (payload: Option<seq<byte>>, got: Option<Batch>)
    requires |EncodeBatch(b)| <= MAX_SLICE
    ensures payload == if BuilderAccepts(b) then Some(EncodeBatch(b)) else None
    ensures got.Some? <==> BuilderAccepts(b) && b.adam != [] && b.uri != [] && |Flatten(b.samples)| <= MAX_BATCH_BYTES
    ensures got.Some? ==> got.value == b
  {
    hide EncodeBatch, Flatten;
    payload := BuildBatch(b);
    got := None;
    if payload.Some? {
      got := ParseDecryptPayload(payload.value);
      if got.Some? {
        EncodeBatchInjective(got.value, b);
      }
    }
  }

  /**
  A TCP frame's payload goes through the supervisor to the worker: it is parsed,
  rebuilt and parsed again. The bytes do not change on the way, and the worker
  turns down what the supervisor took only for being over 256 MiB in all.
  */
  method RelayTcpBatch(data: seq<byte>) returns (b: Option<Batch>, payload: Option<seq<byte>>, got: Option<Batch>)
    requires |data| <= MAX_SLICE
    ensures b.Some? ==> payload == Some(data)
    ensures b.Some? ==> (got == b <==> |Flatten(b.value.samples)| <= MAX_BATCH_BYTES)
    ensures b.Some? ==> (got == None <==> |Flatten(b.value.samples)| > MAX_BATCH_BYTES)
  {
    hide EncodeBatch, Flatten, Text;
    b := ParseTcpBatch(data);
    payload, got := None, None;
    if b.Some? {
      payload, got := SendToWorker(b.value);
    }
  }

  /** The same for an HTTP body, whose ids may be longer than the worker's format can say. */
  method RelayHttpBatch(data: seq<byte>) returns (b: Option<Batch>, got: Option<Batch>)
    requires |data| <= MAX_SLICE
    ensures b.Some? ==> (got.Some? <==>
      && |b.value.adam| < U16_SIZE && |b.value.uri| < U16_SIZE && |Flatten(b.value.samples)| <= MAX_BATCH_BYTES)
    ensures got.Some? ==> got == b
  {
    hide EncodeBatch, EncodeHttpBatch, Flatten, Text;
    b := ParseHttpBatch(data);
    got := None;
    if b.Some? {
      HttpNoShorter(b.value);
      var payload;
      payload, got := SendToWorker(b.value);
    }
  }

  lemma HttpNoShorter(b: Batch)
    ensures |EncodeBatch(b)| <= |EncodeHttpBatch(b)|
  {
  }

  /** The two parsers of the one format, on the same bytes: they differ by their caps and by UTF-8 alone. */
  method ParseTwice(data: seq<byte>) returns (tcp: Option<Batch>, worker: Option<Batch>)
    requires |data| <= MAX_SLICE
    ensures tcp.Some? && worker.Some? ==> tcp == worker
    ensures tcp.Some? ==> (worker.None? <==> |Flatten(tcp.value.samples)| > MAX_BATCH_BYTES)
    ensures worker.Some? ==> (tcp.None? <==>
      || !Text(worker.value.adam) || !Text(worker.value.uri)
      || exists i | 0 <= i < |worker.value.samples| :: |worker.value.samples[i]| > MAX_SAMPLE_BYTES)
  {
    hide EncodeBatch, Flatten, Text;
    tcp := ParseTcpBatch(data);
    worker := ParseDecryptPayload(data);
    if tcp.Some? && worker.Some? {
      EncodeBatchInjective(tcp.value, worker.value);
    }
  }

  /** A batch with text ids and samples within the cap is read back from either port. */
  method ReadsTextBatch(b: Batch) returns (tcp: Option<Batch>, http: Option<Batch>)
    requires Text(b.adam) && Text(b.uri) && 0 < |b.adam| < U16_SIZE && 0 < |b.uri| < U16_SIZE
    requires 0 < |b.samples| < U32_SIZE && forall i | 0 <= i < |b.samples| :: 0 < |b.samples[i]| <= MAX_SAMPLE_BYTES
    requires |EncodeHttpBatch(b)| <= MAX_SLICE
    ensures tcp == Some(b) && http == Some(b)
  {
    hide EncodeBatch, EncodeHttpBatch, Text;
    HttpNoShorter(b);
    tcp := ParseTcpBatch(EncodeBatch(b));
    http := ParseHttpBatch(EncodeHttpBatch(b));
    EncodeBatchInjective(tcp.value, b);
    EncodeHttpInjective(http.value, b);
  }

  /** ASCII ids, such as track numbers, are text. */
  method ReadsAsciiBatch(b: Batch) returns (tcp: Option<Batch>, http: Option<Batch>)
    requires Ascii(b.adam) && Ascii(b.uri) && 0 < |b.adam| < U16_SIZE && 0 < |b.uri| < U16_SIZE
    requires 0 < |b.samples| < U32_SIZE && forall i | 0 <= i < |b.samples| :: 0 < |b.samples[i]| <= MAX_SAMPLE_BYTES
    requires |EncodeHttpBatch(b)| <= MAX_SLICE
    ensures tcp == Some(b) && http == Some(b)
  {
    hide EncodeHttpBatch, Text, Ascii;
    AsciiIsText(b.adam);
    AsciiIsText(b.uri);
    tcp, http := ReadsTextBatch(b);
  }

  /** The worker's answer and the supervisor's parser, back to back. */
  method AnswerToSupervisor(samples: seq<seq<byte>>) returns (got: Option<seq<seq<byte>>>)
    requires Fits(samples) && |EncodeSamples(samples)| <= MAX_SLICE
    ensures got == Some(samples)
  {
    hide EncodeSamples;
    var payload := BuildDecryptResponse(samples);
    got := ParseSamples(payload);
    EncodeSamplesInjective(got.value, samples);
  }

  /** A length-preserving answer is no longer than its request, so it fits in a frame. */
  lemma AnswerNoLonger(b: Batch, answer: seq<seq<byte>>)
    requires Fits(b.samples) && |answer| == |b.samples|
    requires forall i | 0 <= i < |answer| :: |answer[i]| == |b.samples[i]|
    ensures |EncodeSamples(answer)| <= |EncodeBatch(b)|
  {
    FlattenLength(b.samples);
    FlattenLength(answer);
    assert Lengths(answer) == Lengths(b.samples);
  }
}
