/** The frames of the pipe between the supervisor and its worker. */
module Frames {
  import opened Bytes

  const MAGIC: u32 := 0x57563249
  const VERSION: u16 := 1
  const KIND_REQUEST: u16 := 1
  const KIND_RESPONSE: u16 := 2
  const OP_HEALTH: u16 := 1
  const OP_DECRYPT_BATCH: u16 := 7
  const OP_SHUTDOWN: u16 := 8
  const FLAG_BINARY: u16 := 1
  const HEADER := 20
  const MAX_PAYLOAD := 256 * 1024 * 1024

  datatype Frame = Frame(kind: u16, id: u32, opcode: u16, flags: u16, payload: seq<byte>)

  function Header(f: Frame): (h: seq<byte>)
    ensures |h| == HEADER
  {
    Be32(MAGIC) + Be16(VERSION) + Be16(f.kind) + Be32(f.id) + Be16(f.opcode) + Be16(f.flags)
    + Be32(|f.payload| % U32_SIZE)
  }

  function EncodeFrame(f: Frame): seq<byte> {
    Header(f) + f.payload
  }

  function EncodeAll(fs: seq<Frame>): seq<byte> {
    if fs == [] then [] else EncodeAll(fs[..|fs| - 1]) + EncodeFrame(fs[|fs| - 1])
  }

  /** The length of a frame fits its field. */
  predicate Sized(f: Frame) { |f.payload| < U32_SIZE }

  predicate GoodHeader(h: seq<byte>)
    requires |h| == HEADER
  {
    ReadU32(h, 0) == MAGIC && ReadU16(h, 4) == VERSION
  }

  /** The frame a header and a payload make. */
  function Decode(h: seq<byte>, payload: seq<byte>): Frame
    requires |h| == HEADER
  {
    Frame(ReadU16(h, 6), ReadU32(h, 8), ReadU16(h, 12), ReadU16(h, 14), payload)
  }

  lemma HeaderCut(f: Frame)
    ensures var h := Header(f);
      && h[0..4] == Be32(MAGIC) && h[4..6] == Be16(VERSION) && h[6..8] == Be16(f.kind)
      && h[8..12] == Be32(f.id) && h[12..14] == Be16(f.opcode) && h[14..16] == Be16(f.flags)
      && h[16..20] == Be32(|f.payload| % U32_SIZE)
  {
    hide Be16, Be32;
  }

  lemma HeaderFields(f: Frame)
    requires Sized(f)
    ensures GoodHeader(Header(f)) && ReadU32(Header(f), 16) == |f.payload|
    ensures Decode(Header(f), f.payload) == f
  {
    hide Be16, Be32, ReadU16, ReadU32, Header;
    var h := Header(f);
    HeaderCut(f);
    ReadBe32(h, 0, MAGIC);
    ReadBe16(h, 4, VERSION);
    ReadBe16(h, 6, f.kind);
    ReadBe32(h, 8, f.id);
    ReadBe16(h, 12, f.opcode);
    ReadBe16(h, 14, f.flags);
    ReadBe32(h, 16, |f.payload|);
  }

  lemma HeaderBytes(h: seq<byte>, payload: seq<byte>)
    requires |h| == HEADER && GoodHeader(h) && ReadU32(h, 16) == |payload|
    ensures Header(Decode(h, payload)) == h
  {
    hide Be16, Be32, ReadU16, ReadU32;
    BeRead32(h, 0);
    BeRead16(h, 4);
    BeRead16(h, 6);
    BeRead32(h, 8);
    BeRead16(h, 12);
    BeRead16(h, 14);
    BeRead32(h, 16);
  }

  lemma FrameCut(f: Frame, rest: seq<byte>, s: seq<byte>, n: nat)
    requires s == EncodeFrame(f) + rest && n == HEADER + |f.payload|
    ensures |s| == n + |rest|
    ensures s[..HEADER] == Header(f) && s[HEADER..n] == f.payload && s[n..] == rest
  {
    hide Header;
  }

  /** A byte string starts with at most one frame. */
  lemma FramePrefixUnique(f: Frame, r: seq<byte>, g: Frame, q: seq<byte>)
    requires Sized(f) && Sized(g)
    requires EncodeFrame(f) + r == EncodeFrame(g) + q
    ensures f == g && r == q
  {
    hide Header, EncodeFrame, Decode, GoodHeader, ReadU32;
    var s := EncodeFrame(f) + r;
    FrameCut(f, r, s, HEADER + |f.payload|);
    FrameCut(g, q, s, HEADER + |g.payload|);
    HeaderFields(f);
    HeaderFields(g);
  }

  lemma EncodeAllSnoc(fs: seq<Frame>, f: Frame)
    ensures EncodeAll(fs + [f]) == EncodeAll(fs) + EncodeFrame(f)
  {
    assert (fs + [f])[..|fs|] == fs;
  }

  lemma {:induction false} EncodeAllCons(f: Frame, fs: seq<Frame>)
    ensures EncodeAll([f] + fs) == EncodeFrame(f) + EncodeAll(fs)
    decreases |fs|
  {
    hide EncodeFrame;
    if fs == [] {
      assert [f] + fs == [] + [f];
      EncodeAllSnoc([], f);
    } else {
      var init, last := fs[..|fs| - 1], fs[|fs| - 1];
      EncodeAllCons(f, init);
      assert [f] + fs == ([f] + init) + [last];
      EncodeAllSnoc([f] + init, last);
    }
  }

  lemma {:induction false} EncodeAllAppend(fs: seq<Frame>, gs: seq<Frame>)
    ensures EncodeAll(fs + gs) == EncodeAll(fs) + EncodeAll(gs)
    decreases |gs|
  {
    hide EncodeFrame;
    if gs == [] {
      assert fs + gs == fs;
    } else {
      var init, last := gs[..|gs| - 1], gs[|gs| - 1];
      EncodeAllAppend(fs, init);
      assert fs + gs == (fs + init) + [last];
      EncodeAllSnoc(fs + init, last);
    }
  }
}
