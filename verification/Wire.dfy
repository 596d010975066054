/** The formats byte by byte: what anyone on the other end of a pipe or socket can rely on. */
module Wire {
  import opened Bytes
  import opened Frames
  import opened Layout
  import opened Sums
  import opened BatchCodec
  import N = Session

  /** The big-endian number of 16 bits at `at`. */
  predicate At16(e: seq<byte>, at: nat, v: nat) {
    at + 2 <= |e| && v == 0x100 * (e[at] as int) + e[at + 1] as int
  }

  /** The big-endian number of 32 bits at `at`. */
  predicate At32(e: seq<byte>, at: nat, v: nat) {
    at + 4 <= |e| &&
    v == 0x100_0000 * (e[at] as int) + 0x1_0000 * (e[at + 1] as int) + 0x100 * (e[at + 2] as int) + e[at + 3] as int
  }

  lemma Read16(e: seq<byte>, at: nat)
    requires at + 2 <= |e|
    ensures At16(e, at, ReadU16(e, at))
  {
  }

  lemma Read32(e: seq<byte>, at: nat)
    requires at + 4 <= |e|
    ensures At32(e, at, ReadU32(e, at))
  {
  }

  /** A frame of the pipe. */
  lemma FrameOnTheWire(f: Frame)
    requires Sized(f)
    ensures var e := EncodeFrame(f);
      && |e| == 20 + |f.payload| && e[20..] == f.payload
      && At32(e, 0, 0x57563249) && At16(e, 4, 1) && At16(e, 6, f.kind) && At32(e, 8, f.id)
      && At16(e, 12, f.opcode) && At16(e, 14, f.flags) && At32(e, 16, |f.payload|)
  {
    var e := EncodeFrame(f);
    HeaderFields(f);
    var h := Header(f);
    assert e[..20] == h;
    hide At16, At32, ReadU16, ReadU32, Header;
    Head16(e, h, 4);
    Head16(e, h, 6);
    Head16(e, h, 12);
    Head16(e, h, 14);
    Head32(e, h, 0);
    Head32(e, h, 8);
    Head32(e, h, 16);
  }

  lemma Head16(e: seq<byte>, h: seq<byte>, at: nat)
    requires h <= e && at + 2 <= |h|
    ensures At16(e, at, ReadU16(h, at))
  {
    assert e[at] == h[at] && e[at + 1] == h[at + 1];
    Read16(h, at);
  }

  lemma Head32(e: seq<byte>, h: seq<byte>, at: nat)
    requires h <= e && at + 4 <= |h|
    ensures At32(e, at, ReadU32(h, at))
  {
    assert e[at] == h[at] && e[at + 1] == h[at + 1] && e[at + 2] == h[at + 2] && e[at + 3] == h[at + 3];
    Read32(h, at);
  }

  /** The readiness probe: a health request with id 0. */
  lemma ProbeOnTheWire()
    ensures EncodeFrame(Frame(KIND_REQUEST, 0, OP_HEALTH, 0, []))
      == [0x57, 0x56, 0x32, 0x49, 0, 1, 0, 1, 0, 0, 0, 0, 0, 1, 0, 0, 0, 0, 0, 0]
  {
  }

  /** A frame of the TCP port. */
  lemma ClientFrameOnTheWire(f: N.ClientFrame)
    requires N.Sized(f)
    ensures var e := N.EncodeClient(f);
      && |e| == 16 + |f.payload| && e[16..] == f.payload
      && At32(e, 0, 0x57563244) && At16(e, 4, 1) && At16(e, 6, f.kind) && At32(e, 8, f.id)
      && At32(e, 12, |f.payload|)
  {
    var e := N.EncodeClient(f);
    N.ClientHeadFields(f);
    var h := N.ClientHead(f);
    assert e[..16] == h;
    hide At16, At32, ReadU16, ReadU32, N.ClientHead;
    Head16(e, h, 4);
    Head16(e, h, 6);
    Head32(e, h, 0);
    Head32(e, h, 8);
    Head32(e, h, 12);
  }

  /** Where sample `i` starts among the samples. */
  function StartOf(samples: seq<seq<byte>>, i: nat): nat
    requires i <= |samples|
  {
    if i == 0 then 0 else StartOf(samples, i - 1) + |samples[i - 1]|
  }

  lemma {:induction false} FlattenStart(samples: seq<seq<byte>>, i: nat)
    requires i <= |samples|
    ensures |Flatten(samples[..i])| == StartOf(samples, i)
    decreases i
  {
    if i == 0 {
    } else {
      FlattenStart(samples, i - 1);
      assert samples[..i][..i - 1] == samples[..i - 1];
    }
  }

  lemma {:induction false} FlattenAt(samples: seq<seq<byte>>, i: nat)
    requires i < |samples|
    ensures StartOf(samples, i) + |samples[i]| <= |Flatten(samples)|
    ensures Flatten(samples)[StartOf(samples, i)..StartOf(samples, i) + |samples[i]|] == samples[i]
    decreases |samples|
  {
    var n := |samples| - 1;
    var init := samples[..n];
    if i == n {
      FlattenStart(samples, n);
    } else {
      FlattenAt(init, i);
      SameStart(samples, init, i);
    }
  }

  lemma {:induction false} SameStart(samples: seq<seq<byte>>, init: seq<seq<byte>>, i: nat)
    requires init <= samples && i <= |init|
    ensures StartOf(samples, i) == StartOf(init, i)
    decreases i
  {
    if i == 0 {
    } else {
      SameStart(samples, init, i - 1);
    }
  }

  /** The lengths stand at `h`, one after the other. */
  predicate Table(e: seq<byte>, h: nat, samples: seq<seq<byte>>) {
    forall i | 0 <= i < |samples| :: At32(e, h + 4 * i, |samples[i]|)
  }

  /** The samples stand at `k`, one after the other, and end the payload. */
  predicate Tail(e: seq<byte>, k: nat, samples: seq<seq<byte>>) {
    && |e| == k + StartOf(samples, |samples|)
    && forall i | 0 <= i < |samples| :: Stands(e, k + StartOf(samples, i), samples[i])
  }

  predicate Stands(e: seq<byte>, at: nat, part: seq<byte>) {
    at + |part| <= |e| && e[at..at + |part|] == part
  }

  /** Head, lengths, middle part and samples, one after the other. */
  predicate Laid(e: seq<byte>, h: nat, mid: seq<byte>, samples: seq<seq<byte>>) {
    Table(e, h, samples) && Stands(e, h + 4 * |samples|, mid) && Tail(e, h + 4 * |samples| + |mid|, samples)
  }

  lemma TableLaid(e: seq<byte>, h: nat, samples: seq<seq<byte>>)
    requires Fits(samples) && h + 4 * |samples| <= |e| && ReadWords(e, h, |samples|) == Lengths(samples)
    ensures Table(e, h, samples)
  {
    hide ReadWords, At32, ReadU32;
    forall i | 0 <= i < |samples| ensures At32(e, h + 4 * i, |samples[i]|) {
      ReadWordsPrefix(e, h, i, |samples|);
      Read32(e, h + 4 * i);
    }
  }

  lemma TailLaid(e: seq<byte>, k: nat, samples: seq<seq<byte>>)
    requires k <= |e| && e[k..] == Flatten(samples)
    ensures Tail(e, k, samples)
  {
    hide Flatten;
    assert samples[..|samples|] == samples;
    FlattenStart(samples, |samples|);
    forall i | 0 <= i < |samples| ensures Stands(e, k + StartOf(samples, i), samples[i]) {
      FlattenAt(samples, i);
      var a := StartOf(samples, i);
      assert e[k + a..k + a + |samples[i]|] == e[k..][a..a + |samples[i]|];
    }
  }

  lemma PayloadLaid(e: seq<byte>, head: seq<byte>, mid: seq<byte>, samples: seq<seq<byte>>)
    requires Fits(samples) && e == Payload(head, mid, samples)
    ensures head <= e && Laid(e, |head|, mid, samples)
  {
    var h, n := |head|, |samples|;
    var j := h + 4 * n;
    hide Payload, Words, Flatten, Sum, Lengths, ReadWords, Table, Tail;
    PayloadShape(e, head, mid, samples, h, j, j + |mid|);
    TableLaid(e, h, samples);
    TailLaid(e, j + |mid|, samples);
  }

  /** A batch, as the TCP port and the worker take it. */
  lemma BatchOnTheWire(b: Batch)
    requires BuilderAccepts(b)
    ensures var e := EncodeBatch(b);
      && At16(e, 0, |b.adam|) && At16(e, 2, |b.uri|) && At32(e, 4, |b.samples|)
      && Laid(e, 8, b.adam + b.uri, b.samples)
  {
    var e, h := EncodeBatch(b), WorkerHead(b);
    hide WorkerHead, Payload, Laid, At16, At32, ReadU16, ReadU32;
    PayloadLaid(e, h, b.adam + b.uri, b.samples);
    WorkerHeadFields(h, b);
    Head16(e, h, 0);
    Head16(e, h, 2);
    Head32(e, h, 4);
  }

  /** A batch, as the HTTP port takes it. */
  lemma HttpBatchOnTheWire(b: Batch)
    requires |b.adam| < U32_SIZE && |b.uri| < U32_SIZE && Fits(b.samples)
    ensures var e := EncodeHttpBatch(b);
      && At32(e, 0, |b.adam|) && At32(e, 4, |b.uri|) && At32(e, 8, |b.samples|)
      && Laid(e, 12, b.adam + b.uri, b.samples)
  {
    var e, h := EncodeHttpBatch(b), HttpHead(b);
    hide HttpHead, Payload, Laid, At16, At32, ReadU16, ReadU32;
    PayloadLaid(e, h, b.adam + b.uri, b.samples);
    HttpHeadFields(h, b);
    Head32(e, h, 0);
    Head32(e, h, 4);
    Head32(e, h, 8);
  }

  /** An answer. */
  lemma SamplesOnTheWire(samples: seq<seq<byte>>)
    requires Fits(samples)
    ensures var e := EncodeSamples(samples); At32(e, 0, |samples|) && Laid(e, 4, [], samples)
  {
    var e, h := EncodeSamples(samples), Be32(|samples|);
    assert e == Payload(h, [], samples);
    hide EncodeSamples, Payload, Laid, Be32;
    PayloadLaid(e, h, [], samples);
    CountFirst(e, |samples|);
  }

  lemma CountFirst(e: seq<byte>, n: u32)
    requires Be32(n) <= e
    ensures At32(e, 0, n)
  {
    hide At32, ReadU32, Be32;
    ReadBe32(Be32(n), 0, n);
    Head32(e, Be32(n), 0);
  }
}
