/**
Frames over a pipe that moves bytes as it likes: short reads and writes,
interrupts, would-blocks, deadlines and closed ends, in any order.
*/
module FrameIo {
  import opened Bytes
  import opened Frames

  /** How one system call on a pipe goes: up to `n` bytes move, it asks to be called again, or it fails for good. */
  datatype Event = Move(n: nat) | Again | Stop

  /** The calls that move something before the first that ends the transfer. */
  function Moves(script: seq<Event>): nat {
    if script == [] then 0
    else match script[0]
      case Move(n) => if n == 0 then 0 else 1 + Moves(script[1..])
      case Again => Moves(script[1..])
      case Stop => 0
  }

  datatype Call = Got(chunk: seq<byte>) | Retry | Fail

  /** The reading end of a pipe: `pending` is every byte that will ever arrive and was not read yet. */
  class Source {
    var pending: seq<byte>
    var script: seq<Event>

    constructor (pending: seq<byte>, script: seq<Event>)
      ensures this.pending == pending && this.script == script
    {
      this.pending := pending;
      this.script := script;
    }

    method Read(max: nat) returns (r: Call)
      requires 0 < max && script != []
      modifies this
      ensures script == old(script)[1..]
      ensures r.Got? ==> 0 < |r.chunk| <= max && old(pending) == r.chunk + pending
      ensures r.Got? ==> Moves(old(script)) == Moves(script) + 1
      ensures r.Retry? ==> pending == old(pending) && Moves(old(script)) == Moves(script)
      ensures r.Fail? ==> pending == old(pending) && (pending == [] || Moves(old(script)) == 0)
    {
      var e := script[0];
      script := script[1..];
      match e
      case Again => r := Retry;
      case Stop => r := Fail;
      case Move(n) =>
        var k := if n < max then n else max;
        k := if k < |pending| then k else |pending|;
        r := if k == 0 then Fail else Got(pending[..k]);
        pending := pending[k..];
    }

    /** `read_full` and `read_exact_timeout`. */
    method ReadFull(len: nat) returns (ok: bool, buf: seq<byte>)
      modifies this
      ensures |buf| <= len && old(pending) == buf + pending
      ensures ok <==> |buf| == len
      ensures ok ==> Moves(old(script)) <= Moves(script) + |buf|
      ensures !ok ==> old(pending) == buf || Moves(old(script)) <= |buf|
    {
      buf := [];
      while |buf| < len
        invariant |buf| <= len && old(pending) == buf + pending
        invariant Moves(old(script)) <= Moves(script) + |buf|
        decreases |script|
      {
        if script == [] {
          return false, buf;
        }
        var r := Read(len - |buf|);
        match r
        case Got(chunk) => buf := buf + chunk;
        case Retry =>
        case Fail => return false, buf;
      }
      ok := true;
    }

    /**
    `read_frame` of the worker (with its cap) and `read_frame_timeout` of the
    supervisor (with none but the field's width).
    */
    method ReadFrame(cap: nat) returns (f: Option<Frame>)
      requires cap < U32_SIZE
      modifies this
      ensures f.Some? ==> |f.value.payload| <= cap && old(pending) == EncodeFrame(f.value) + pending
      ensures f.Some? ==> Moves(old(script)) <= Moves(script) + HEADER + |f.value.payload|
      ensures f.None? ==> forall g, rest | StartsWith(old(pending), g, rest) && |g.payload| <= cap ::
        Moves(old(script)) < HEADER + |g.payload|
    {
      ghost var start := pending;
      forall g, rest | StartsWith(start, g, rest) && |g.payload| <= cap
        ensures HEADER + |g.payload| <= |start| && start[..HEADER] == Header(g)
        ensures GoodHeader(Header(g)) && ReadU32(Header(g), 16) == |g.payload|
      {
        FrameCut(g, rest, start, HEADER + |g.payload|);
        HeaderFields(g);
      }
      hide Header, ReadU16, ReadU32, Decode, EncodeFrame, GoodHeader;
      var ok, h := ReadFull(HEADER);
      if !ok {
        return None;
      }
      assert start[..HEADER] == h;
      if !GoodHeader(h) {
        return None;
      }
      var len := ReadU32(h, 16);
      if len > cap {
        return None;
      }
      var payload;
      ok, payload := ReadFull(len);
      if !ok {
        return None;
      }
      f := Some(Decode(h, payload));
      FrameFromParts(start, h, payload, pending);
    }
  }

  ghost predicate StartsWith(s: seq<byte>, f: Frame, rest: seq<byte>) {
    s == EncodeFrame(f) + rest
  }

  lemma FrameFromParts(s: seq<byte>, h: seq<byte>, payload: seq<byte>, rest: seq<byte>)
    requires |h| == HEADER && GoodHeader(h) && ReadU32(h, 16) == |payload|
    requires s == h + (payload + rest)
    ensures s == EncodeFrame(Decode(h, payload)) + rest
    ensures Decode(h, payload).payload == payload
  {
    HeaderBytes(h, payload);
    hide Header, ReadU32, GoodHeader, Be16, Be32, ReadU16;
    assert h + (payload + rest) == (h + payload) + rest;
  }

  /** The writing end of a pipe: `written` is every byte that went in. */
  class Sink {
    var written: seq<byte>
    var script: seq<Event>

    constructor (script: seq<Event>)
      ensures written == [] && this.script == script
    {
      this.written := [];
      this.script := script;
    }

    method Write(bytes: seq<byte>) returns (r: Call)
      requires bytes != [] && script != []
      modifies this
      ensures script == old(script)[1..]
      ensures r.Got? ==> r.chunk != [] && r.chunk <= bytes && written == old(written) + r.chunk
      ensures r.Got? ==> Moves(old(script)) == Moves(script) + 1
      ensures r.Retry? ==> written == old(written) && Moves(old(script)) == Moves(script)
      ensures r.Fail? ==> written == old(written) && Moves(old(script)) == 0
    {
      var e := script[0];
      script := script[1..];
      match e
      case Again => r := Retry;
      case Stop => r := Fail;
      case Move(n) =>
        var k := if n < |bytes| then n else |bytes|;
        r := if k == 0 then Fail else Got(bytes[..k]);
        written := written + bytes[..k];
    }

    /** `write_full` and `write_all_timeout`: what was written is a prefix, and all of it on success. */
    method WriteFull(bytes: seq<byte>) returns (ok: bool, ghost done: nat)
      modifies this
      ensures done <= |bytes| && written == old(written) + bytes[..done]
      ensures ok <==> done == |bytes|
      ensures Moves(old(script)) <= Moves(script) + done
      ensures !ok ==> Moves(old(script)) <= done
    {
      var left := bytes;
      done := 0;
      while left != []
        invariant done <= |bytes| && left == bytes[done..]
        invariant written == old(written) + bytes[..done]
        invariant Moves(old(script)) <= Moves(script) + done
        decreases |script|
      {
        if script == [] {
          return false, done;
        }
        var r := Write(left);
        match r
        case Got(chunk) =>
          assert bytes[..done] + chunk == bytes[..done + |chunk|];
          left := left[|chunk|..];
          done := done + |chunk|;
        case Retry =>
        case Fail => return false, done;
      }
      ok := true;
    }

    /** `write_frame_timeout` of the supervisor: header and payload in one buffer. */
    method WriteFrameOnce(f: Frame) returns (ok: bool, ghost done: nat)
      modifies this
      ensures done <= |EncodeFrame(f)| && written == old(written) + EncodeFrame(f)[..done]
      ensures ok <==> Sized(f) && done == |EncodeFrame(f)|
      ensures !Sized(f) ==> done == 0
      ensures Sized(f) && !ok ==> Moves(old(script)) <= done
      ensures Moves(old(script)) <= Moves(script) + done
    {
      hide Be16, Be32;
      if |f.payload| > U32_SIZE - 1 {
        return false, 0;
      }
      var bytes := Be32(MAGIC) + Be16(VERSION) + Be16(f.kind) + Be32(f.id) + Be16(f.opcode) + Be16(f.flags)
        + Be32(|f.payload|) + f.payload;
      ok, done := WriteFull(bytes);
    }

    /** `write_frame` of the worker: the header, then the payload if there is one. */
    method WriteFrameTwice(f: Frame) returns (ok: bool, ghost done: nat)
      modifies this
      ensures done <= |EncodeFrame(f)| && written == old(written) + EncodeFrame(f)[..done]
      ensures ok <==> done == |EncodeFrame(f)|
      ensures !ok ==> Moves(old(script)) <= done
      ensures Moves(old(script)) <= Moves(script) + done
    {
      hide Be16, Be32;
      var h := Be32(MAGIC) + Be16(VERSION) + Be16(f.kind) + Be32(f.id) + Be16(f.opcode) + Be16(f.flags)
        + Be32(|f.payload| % U32_SIZE);
      assert h == Header(f);
      hide Header;
      ghost var whole := EncodeFrame(f);
      ok, done := WriteFull(h);
      assert h[..done] == whole[..done];
      if ok && f.payload != [] {
        ghost var more;
        ok, more := WriteFull(f.payload);
        assert h + f.payload[..more] == whole[..HEADER + more];
        done := HEADER + more;
      }
    }
  }
}
