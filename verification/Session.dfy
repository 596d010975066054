/** The TCP decrypt session: batches in, plaintexts out, one answer each, under the client's own ids. */
module Session {
  import opened Bytes
  import opened Layout
  import opened BatchCodec
  import opened Unicode
  import opened BatchParsers
  import opened BatchAgreement
  import opened FrameIo
  import W = WorkerLoop

  const CLIENT_MAGIC: u32 := 0x57563244
  const CLIENT_VERSION: u16 := 1
  const KIND_BATCH: u16 := 1
  const KIND_OK: u16 := 2
  const KIND_ERROR: u16 := 3
  const KIND_CLOSE: u16 := 9
  const CLIENT_HEADER := 16

  datatype ClientFrame = ClientFrame(kind: u16, id: u32, payload: seq<byte>)

  // ----- the client's frames

  function ClientHead(f: ClientFrame): (h: seq<byte>)
    ensures |h| == CLIENT_HEADER
  {
    Be32(CLIENT_MAGIC) + Be16(CLIENT_VERSION) + Be16(f.kind) + Be32(f.id) + Be32(|f.payload| % U32_SIZE)
  }

  function EncodeClient(f: ClientFrame): seq<byte> {
    ClientHead(f) + f.payload
  }

  function EncodeClients(fs: seq<ClientFrame>): seq<byte> {
    if fs == [] then [] else EncodeClients(fs[..|fs| - 1]) + EncodeClient(fs[|fs| - 1])
  }

  predicate GoodClientHead(h: seq<byte>)
    requires |h| == CLIENT_HEADER
  {
    ReadU32(h, 0) == CLIENT_MAGIC && ReadU16(h, 4) == CLIENT_VERSION
  }

  function DecodeClient(h: seq<byte>, payload: seq<byte>): ClientFrame
    requires |h| == CLIENT_HEADER
  {
    ClientFrame(ReadU16(h, 6), ReadU32(h, 8), payload)
  }

  predicate Sized(f: ClientFrame) { |f.payload| < U32_SIZE }

  lemma ClientHeadCut(f: ClientFrame)
    ensures var h := ClientHead(f);
      && h[0..4] == Be32(CLIENT_MAGIC) && h[4..6] == Be16(CLIENT_VERSION) && h[6..8] == Be16(f.kind)
      && h[8..12] == Be32(f.id) && h[12..16] == Be32(|f.payload| % U32_SIZE)
  {
    hide Be16, Be32;
  }

  lemma ClientHeadFields(f: ClientFrame)
    requires Sized(f)
    ensures GoodClientHead(ClientHead(f)) && ReadU32(ClientHead(f), 12) == |f.payload|
    ensures DecodeClient(ClientHead(f), f.payload) == f
  {
    hide Be16, Be32, ReadU16, ReadU32, ClientHead;
    var h := ClientHead(f);
    ClientHeadCut(f);
    ReadBe32(h, 0, CLIENT_MAGIC);
    ReadBe16(h, 4, CLIENT_VERSION);
    ReadBe16(h, 6, f.kind);
    ReadBe32(h, 8, f.id);
    ReadBe32(h, 12, |f.payload|);
  }

  lemma ClientHeadBytes(h: seq<byte>, payload: seq<byte>)
    requires |h| == CLIENT_HEADER && GoodClientHead(h) && ReadU32(h, 12) == |payload|
    ensures ClientHead(DecodeClient(h, payload)) == h
  {
    hide Be16, Be32, ReadU16, ReadU32;
    BeRead32(h, 0);
    BeRead16(h, 4);
    BeRead16(h, 6);
    BeRead32(h, 8);
    BeRead32(h, 12);
  }

  lemma ClientCut(s: seq<byte>, f: ClientFrame, rest: seq<byte>)
    requires s == EncodeClient(f) + rest
    ensures |s| == CLIENT_HEADER + |f.payload| + |rest| && s[..CLIENT_HEADER] == ClientHead(f)
  {
    hide ClientHead;
  }

  /** `read_decrypt_frame` */
  method ReadClientFrame(input: Source) returns (f: Option<ClientFrame>)
    modifies input
    ensures f.Some? ==> Sized(f.value) && old(input.pending) == EncodeClient(f.value) + input.pending
    ensures f.Some? ==> Moves(old(input.script)) <= Moves(input.script) + CLIENT_HEADER + |f.value.payload|
    ensures f.None? ==> forall g, rest | Sized(g) && old(input.pending) == EncodeClient(g) + rest ::
      Moves(old(input.script)) < CLIENT_HEADER + |g.payload|
  {
    ghost var start := input.pending;
    forall g, rest | Sized(g) && start == EncodeClient(g) + rest
      ensures CLIENT_HEADER + |g.payload| <= |start| && start[..CLIENT_HEADER] == ClientHead(g)
      ensures GoodClientHead(ClientHead(g)) && ReadU32(ClientHead(g), 12) == |g.payload|
    {
      ClientCut(start, g, rest);
      ClientHeadFields(g);
    }
    hide ClientHead, ReadU16, ReadU32, DecodeClient, EncodeClient, GoodClientHead;
    var ok, h := input.ReadFull(CLIENT_HEADER);
    if !ok {
      return None;
    }
    assert start[..CLIENT_HEADER] == h;
    if !GoodClientHead(h) {
      return None;
    }
    var len := ReadU32(h, 12);
    var payload;
    ok, payload := input.ReadFull(len);
    if !ok {
      return None;
    }
    f := Some(DecodeClient(h, payload));
    ClientFromParts(start, h, payload, input.pending);
  }

  lemma ClientFromParts(s: seq<byte>, h: seq<byte>, payload: seq<byte>, rest: seq<byte>)
    requires |h| == CLIENT_HEADER && GoodClientHead(h) && ReadU32(h, 12) == |payload|
    requires s == h + (payload + rest)
    ensures s == EncodeClient(DecodeClient(h, payload)) + rest && Sized(DecodeClient(h, payload))
  {
    ClientHeadBytes(h, payload);
    hide ClientHead, ReadU32, GoodClientHead, Be16, Be32, ReadU16;
    assert h + (payload + rest) == (h + payload) + rest;
  }

  /** `write_decrypt_frame` */
  method WriteClientFrame(output: Sink, f: ClientFrame) returns (ok: bool, ghost done: nat)
    modifies output
    ensures done <= |EncodeClient(f)| && output.written == old(output.written) + EncodeClient(f)[..done]
    ensures ok <==> Sized(f) && done == |EncodeClient(f)|
    ensures !Sized(f) ==> done == 0
    ensures Sized(f) && !ok ==> Moves(old(output.script)) <= done
    ensures Moves(old(output.script)) <= Moves(output.script) + done
  {
    hide Be16, Be32;
    if |f.payload| > U32_SIZE - 1 {
      return false, 0;
    }
    var bytes := Be32(CLIENT_MAGIC) + Be16(CLIENT_VERSION) + Be16(f.kind) + Be32(f.id) + Be32(|f.payload|) + f.payload;
    ok, done := output.WriteFull(bytes);
  }

  // ----- the session

  /** What the worker makes of the session's batches, each given the ones before it; and the texts of errors. */
  datatype Service = Service(decrypt: seq<Batch> -> Option<seq<seq<byte>>>, text: seq<byte>)

  /** The batch a client's payload stands for, if any. */
  ghost function TcpBatch(payload: seq<byte>): (r: Option<Batch>)
    ensures r.Some? ==> TcpAccepts(r.value) && payload == EncodeBatch(r.value)
    ensures r.None? ==> forall b | TcpAccepts(b) :: payload != EncodeBatch(b)
  {
    if b: Batch :| TcpAccepts(b) && payload == EncodeBatch(b) then Some(b) else None
  }

  /** The batches of a session so far. */
  ghost function Batches(fs: seq<ClientFrame>): seq<Batch> {
    if fs == [] then []
    else
      var f := fs[|fs| - 1];
      Batches(fs[..|fs| - 1]) +
        if f.kind == KIND_BATCH && TcpBatch(f.payload).Some? then [TcpBatch(f.payload).value] else []
  }

  /** The plaintexts of the session's latest frame, if it is a batch that was decrypted. */
  ghost function Plaintexts(service: Service, fs: seq<ClientFrame>): Option<seq<seq<byte>>>
    requires fs != []
  {
    var f := fs[|fs| - 1];
    if f.kind == KIND_BATCH && TcpBatch(f.payload).Some? then service.decrypt(Batches(fs)) else None
  }

  /** The answer to the latest frame: its plaintexts under its id, or an error under its id, or nothing to a close. */
  ghost function AnswerTo(service: Service, fs: seq<ClientFrame>): seq<ClientFrame>
    requires fs != []
  {
    var f := fs[|fs| - 1];
    if f.kind == KIND_CLOSE then []
    else match Plaintexts(service, fs)
      case Some(ps) => [ClientFrame(KIND_OK, f.id, EncodeSamples(ps))]
      case None => [ClientFrame(KIND_ERROR, f.id, service.text)]
  }

  ghost function AnswersTo(service: Service, fs: seq<ClientFrame>): seq<ClientFrame> {
    if fs == [] then [] else AnswersTo(service, fs[..|fs| - 1]) + AnswerTo(service, fs)
  }

  /** The first `n` frames were batches that were decrypted. */
  ghost predicate WentOn(service: Service, fs: seq<ClientFrame>, n: nat) {
    n <= |fs| && forall i | 0 < i <= n :: Plaintexts(service, fs[..i]).Some?
  }

  lemma SessionSnoc(service: Service, fs: seq<ClientFrame>, f: ClientFrame)
    ensures EncodeClients(fs + [f]) == EncodeClients(fs) + EncodeClient(f)
    ensures AnswersTo(service, fs + [f]) == AnswersTo(service, fs) + AnswerTo(service, fs + [f])
    ensures Batches(fs + [f]) ==
      Batches(fs) + if f.kind == KIND_BATCH && TcpBatch(f.payload).Some? then [TcpBatch(f.payload).value] else []
  {
    hide EncodeClient, EncodeSamples, AnswerTo;
    assert (fs + [f])[..|fs|] == fs;
  }

  lemma WentOnSnoc(service: Service, fs: seq<ClientFrame>, f: ClientFrame)
    requires WentOn(service, fs, |fs|)
    ensures WentOn(service, fs + [f], |fs|)
    ensures Plaintexts(service, fs + [f]).Some? ==> WentOn(service, fs + [f], |fs| + 1)
  {
    hide Plaintexts;
    var more := fs + [f];
    assert forall i | 0 < i <= |fs| :: more[..i] == fs[..i];
    assert more[..|fs| + 1] == more;
  }

  lemma BatchIs(f: ClientFrame, b: Option<Batch>)
    requires b.Some? ==> TcpAccepts(b.value) && f.payload == EncodeBatch(b.value)
    requires b.None? ==> forall c | TcpAccepts(c) :: f.payload != EncodeBatch(c)
    ensures TcpBatch(f.payload) == b
  {
    hide EncodeBatch, Flatten, Text;
    if b.Some? {
      EncodeBatchInjective(TcpBatch(f.payload).value, b.value);
    }
  }

  lemma ClientsSnoc(rs: seq<ClientFrame>, a: ClientFrame)
    ensures EncodeClients(rs + [a]) == EncodeClients(rs) + EncodeClient(a)
  {
    assert (rs + [a])[..|rs|] == rs;
  }

  /** The frames read are the input so far. */
  ghost predicate Read(o: W.Origin, fs: seq<ClientFrame>, pending: seq<byte>, inMoves: nat) {
    o.input == EncodeClients(fs) + pending && o.inMoves <= inMoves + |EncodeClients(fs)|
  }

  /** The answers are the output so far. */
  ghost predicate Wrote(o: W.Origin, rs: seq<ClientFrame>, written: seq<byte>, outMoves: nat) {
    written == o.output + EncodeClients(rs) && o.outMoves <= outMoves + |EncodeClients(rs)|
  }

  /** The answers but the last are out, and a beginning of the last; the pipe moved less than they take. */
  ghost predicate WroteShort(o: W.Origin, rs: seq<ClientFrame>, written: seq<byte>) {
    && rs != []
    && o.output + EncodeClients(rs[..|rs| - 1]) <= written < o.output + EncodeClients(rs)
    && o.outMoves < |EncodeClients(rs)|
  }

  /** No whole client frame can be read past the first `n` bytes. */
  ghost predicate Stuck(start: seq<byte>, n: nat, moves: nat) {
    n <= |start| && forall g, rest | Sized(g) && start[n..] == EncodeClient(g) + rest ::
      moves < n + CLIENT_HEADER + |g.payload|
  }

  datatype Exit = InputEnded | Closed | Refused | OutputStopped

  /**
  How a session may have ended. What it wrote is the answers `rs` to the frames it read,
  in order, the last one possibly cut short. It went on past decrypted batches only,
  and ends on a close, on a frame it answers with an error, when no whole frame can
  be had, or when its output stops moving.
  */
  ghost predicate Ended(o: W.Origin, service: Service, fs: seq<ClientFrame>, exit: Exit, rs: seq<ClientFrame>,
      written: seq<byte>)
  {
    && EncodeClients(fs) <= o.input
    && match exit
       case InputEnded =>
         && WentOn(service, fs, |fs|)
         && written == o.output + EncodeClients(rs)
         && Stuck(o.input, |EncodeClients(fs)|, o.inMoves)
       case Closed =>
         && fs != [] && WentOn(service, fs, |fs| - 1) && fs[|fs| - 1].kind == KIND_CLOSE
         && written == o.output + EncodeClients(rs)
       case Refused =>
         && fs != [] && WentOn(service, fs, |fs| - 1)
         && fs[|fs| - 1].kind != KIND_CLOSE && Plaintexts(service, fs).None?
         && written == o.output + EncodeClients(rs)
       case OutputStopped =>
         && fs != [] && WentOn(service, fs, |fs| - 1) && fs[|fs| - 1].kind != KIND_CLOSE
         && WroteShort(o, rs, written)
  }

  lemma ReadsOn(o: W.Origin, fs: seq<ClientFrame>, f: ClientFrame, pending: seq<byte>, rest: seq<byte>,
      inMoves: nat, left: nat)
    requires Read(o, fs, pending, inMoves) && pending == EncodeClient(f) + rest
    requires inMoves <= left + CLIENT_HEADER + |f.payload|
    ensures Read(o, fs + [f], rest, left)
    ensures |rest| < |pending| && |f.payload| <= |o.input|
  {
    ClientCut(pending, f, rest);
    hide EncodeClient, EncodeClients;
    ClientsSnoc(fs, f);
    Regroup(EncodeClients(fs), EncodeClient(f), rest);
  }

  /** One more answer, whole or cut. */
  lemma WritesOn(o: W.Origin, rs: seq<ClientFrame>, a: ClientFrame, written: seq<byte>, outMoves: nat,
      done: nat, now: seq<byte>, left: nat)
    requires Wrote(o, rs, written, outMoves)
    requires done <= |EncodeClient(a)| && now == written + EncodeClient(a)[..done] && outMoves <= left + done
    requires done < |EncodeClient(a)| ==> outMoves <= done
    ensures done == |EncodeClient(a)| ==> Wrote(o, rs + [a], now, left)
    ensures done < |EncodeClient(a)| ==> WroteShort(o, rs + [a], now)
  {
    hide EncodeClient, EncodeClients;
    var whole := EncodeClient(a);
    assert (rs + [a])[..|rs|] == rs;
    ClientsSnoc(rs, a);
    if done == |whole| {
      assert whole[..done] == whole;
      Regroup(o.output, EncodeClients(rs), whole);
    }
  }

  lemma EndsStarved(o: W.Origin, service: Service, fs: seq<ClientFrame>, rs: seq<ClientFrame>,
      pending: seq<byte>, inMoves: nat, written: seq<byte>, outMoves: nat)
    requires Read(o, fs, pending, inMoves) && Wrote(o, rs, written, outMoves)
    requires WentOn(service, fs, |fs|)
    requires forall g, rest | Sized(g) && pending == EncodeClient(g) + rest :: inMoves < CLIENT_HEADER + |g.payload|
    ensures Ended(o, service, fs, InputEnded, rs, written)
  {
    hide EncodeClient, EncodeClients, WentOn;
    assert o.input[|EncodeClients(fs)|..] == pending;
  }

  lemma EndsClosed(o: W.Origin, service: Service, fs: seq<ClientFrame>, rs: seq<ClientFrame>,
      pending: seq<byte>, inMoves: nat, written: seq<byte>, outMoves: nat)
    requires Read(o, fs, pending, inMoves) && Wrote(o, rs, written, outMoves)
    requires fs != [] && WentOn(service, fs, |fs| - 1) && fs[|fs| - 1].kind == KIND_CLOSE
    ensures Ended(o, service, fs, Closed, rs, written)
  {
    hide EncodeClient, EncodeClients, WentOn;
  }

  lemma EndsRefused(o: W.Origin, service: Service, fs: seq<ClientFrame>, rs: seq<ClientFrame>,
      pending: seq<byte>, inMoves: nat, written: seq<byte>, outMoves: nat)
    requires Read(o, fs, pending, inMoves) && Wrote(o, rs, written, outMoves)
    requires fs != [] && WentOn(service, fs, |fs| - 1)
    requires fs[|fs| - 1].kind != KIND_CLOSE && Plaintexts(service, fs).None?
    ensures Ended(o, service, fs, Refused, rs, written)
  {
    hide EncodeClient, EncodeClients, WentOn, Plaintexts;
  }

  lemma EndsShort(o: W.Origin, service: Service, fs: seq<ClientFrame>, rs: seq<ClientFrame>,
      pending: seq<byte>, inMoves: nat, written: seq<byte>)
    requires Read(o, fs, pending, inMoves) && WroteShort(o, rs, written)
    requires fs != [] && WentOn(service, fs, |fs| - 1) && fs[|fs| - 1].kind != KIND_CLOSE
    ensures Ended(o, service, fs, OutputStopped, rs, written)
  {
    hide EncodeClient, EncodeClients, WentOn, WroteShort;
  }

  /** `handle_decrypt_client` */
  method HandleDecryptClient(input: Source, output: Sink, service: Service)
    returns (ghost fs: seq<ClientFrame>, exit: Exit)
    requires |input.pending| <= MAX_SLICE && |service.text| < U32_SIZE
    requires forall bs :: service.decrypt(bs).Some? ==>
      Fits(service.decrypt(bs).value) && |EncodeSamples(service.decrypt(bs).value)| < U32_SIZE
    modifies input, output
    ensures Ended(
      old(W.Origin(input.pending, output.written, Moves(input.script), Moves(output.script))),
      service, fs, exit, AnswersTo(service, fs), output.written)
  {
    ghost var o := W.Origin(input.pending, output.written, Moves(input.script), Moves(output.script));
    ghost var answers: seq<ClientFrame> := [];
    var batches := [];
    fs := [];
    while true
      invariant Read(o, fs, input.pending, Moves(input.script)) && |o.input| <= MAX_SLICE
      invariant Wrote(o, answers, output.written, Moves(output.script)) && answers == AnswersTo(service, fs)
      invariant WentOn(service, fs, |fs|) && batches == Batches(fs)
      decreases |input.pending|
    {
      hide EncodeClient, EncodeClients, AnswersTo, WentOn, Batches, EncodeBatch, EncodeSamples, TcpAccepts, Moves,
        Read, Wrote, WroteShort, Ended;
      ghost var before, pending, inMoves := fs, input.pending, Moves(input.script);
      ghost var written, outMoves := output.written, Moves(output.script);
      var frame := ReadClientFrame(input);
      if frame.None? {
        EndsStarved(o, service, fs, answers, pending, inMoves, written, outMoves);
        return fs, InputEnded;
      }
      var f := frame.value;
      fs := fs + [f];
      SessionSnoc(service, before, f);
      ReadsOn(o, before, f, pending, input.pending, inMoves, Moves(input.script));
      WentOnSnoc(service, before, f);
      var reply := ClientFrame(KIND_ERROR, f.id, service.text);
      if f.kind == KIND_CLOSE {
        assert answers + [] == answers;
        EndsClosed(o, service, fs, answers, input.pending, Moves(input.script), written, outMoves);
        return fs, Closed;
      }
      if f.kind == KIND_BATCH {
        var b := ParseTcpBatch(f.payload);
        BatchIs(f, b);
        if b.Some? {
          batches := batches + [b.value];
          var plain := service.decrypt(batches);
          if plain.Some? {
            var payload := BuildSamples(plain.value);
            reply := ClientFrame(KIND_OK, f.id, payload.value);
          }
        }
      }
      assert AnswerTo(service, fs) == [reply];
      var ok;
      ghost var done;
      ok, done := WriteClientFrame(output, reply);
      WritesOn(o, answers, reply, written, outMoves, done, output.written, Moves(output.script));
      answers := answers + [reply];
      if !ok {
        EndsShort(o, service, fs, answers, input.pending, Moves(input.script), output.written);
        return fs, OutputStopped;
      }
      if reply.kind != KIND_OK {
        EndsRefused(o, service, fs, answers, input.pending, Moves(input.script), output.written,
          Moves(output.script));
        return fs, Refused;
      }
    }
  }

  /** One answer to every frame but a close, in order, under the client's own id. */
  lemma {:induction false} AnsweredInOrder(service: Service, fs: seq<ClientFrame>)
    requires forall i | 0 <= i < |fs| :: fs[i].kind != KIND_CLOSE
    ensures |AnswersTo(service, fs)| == |fs|
    ensures forall i | 0 <= i < |fs| ::
      var a := AnswersTo(service, fs)[i];
      && a.id == fs[i].id
      && (a.kind == KIND_OK <==> Plaintexts(service, fs[..i + 1]).Some?)
      && (a.kind == KIND_OK ==> a.payload == EncodeSamples(Plaintexts(service, fs[..i + 1]).value))
    decreases |fs|
  {
    hide EncodeSamples, Plaintexts;
    if fs == [] {
    } else {
      var n := |fs| - 1;
      AnsweredInOrder(service, fs[..n]);
      assert fs[..n + 1] == fs;
      assert forall j | 0 < j <= n :: fs[..n][..j] == fs[..j];
    }
  }

  /** The frame is not one of a batch the port accepts. */
  ghost predicate NoBatch(f: ClientFrame) {
    f.kind == KIND_BATCH ==> forall b | TcpAccepts(b) :: f.payload != EncodeBatch(b)
  }

  /**
  What a frame is answered with: a batch that parses, the plaintexts the service makes
  of it after the batches before it, or an error; anything else but a close, an error;
  a close, nothing.
  */
  lemma NextAnswer(service: Service, fs: seq<ClientFrame>, f: ClientFrame)
    ensures f.kind == KIND_CLOSE ==> AnswersTo(service, fs + [f]) == AnswersTo(service, fs)
    ensures forall b | f.kind == KIND_BATCH && TcpAccepts(b) && f.payload == EncodeBatch(b) ::
      && Batches(fs + [f]) == Batches(fs) + [b]
      && AnswersTo(service, fs + [f]) == AnswersTo(service, fs) +
           match service.decrypt(Batches(fs) + [b])
           case Some(ps) => [ClientFrame(KIND_OK, f.id, EncodeSamples(ps))]
           case None => [ClientFrame(KIND_ERROR, f.id, service.text)]
    ensures f.kind != KIND_CLOSE && NoBatch(f) ==>
      && Batches(fs + [f]) == Batches(fs)
      && AnswersTo(service, fs + [f]) == AnswersTo(service, fs) + [ClientFrame(KIND_ERROR, f.id, service.text)]
  {
    SessionSnoc(service, fs, f);
    hide EncodeBatch, EncodeSamples, Text, AnswersTo, EncodeClients, EncodeClient;
    forall b | TcpAccepts(b) && f.payload == EncodeBatch(b) ensures TcpBatch(f.payload) == Some(b) {
      EncodeBatchInjective(TcpBatch(f.payload).value, b);
    }
    assert AnswersTo(service, fs) + [] == AnswersTo(service, fs) && Batches(fs) + [] == Batches(fs);
  }
}
