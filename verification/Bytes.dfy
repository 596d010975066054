/** Bytes, fixed-width unsigned integers and their big-endian layout. */
module Bytes {
  datatype Option<+T> = None | Some(value: T)

  type byte = x: int | 0 <= x < 0x100
  type u16 = x: int | 0 <= x < 0x1_0000
  type u32 = x: int | 0 <= x < 0x1_0000_0000

  const U16_SIZE := 0x1_0000
  const U32_SIZE := 0x1_0000_0000
  const U64_SIZE := 0x1_0000_0000_0000_0000

  // The largest number of bytes a slice can have on a 64-bit target.
  const MAX_SLICE := 0x7FFF_FFFF_FFFF_FFFF

  function Be16(v: u16): (s: seq<byte>)
    ensures |s| == 2
  {
    [v / 0x100, v % 0x100]
  }

  function Be32(v: u32): (s: seq<byte>)
    ensures |s| == 4
  {
    [v / 0x100_0000, v / 0x1_0000 % 0x100, v / 0x100 % 0x100, v % 0x100]
  }

  function ReadU16(s: seq<byte>, at: nat): u16
    requires at + 2 <= |s|
  {
    s[at] as int * 0x100 + s[at + 1]
  }

  function ReadU32(s: seq<byte>, at: nat): u32
    requires at + 4 <= |s|
  {
    s[at] as int * 0x100_0000 + s[at + 1] as int * 0x1_0000 + s[at + 2] as int * 0x100 + s[at + 3]
  }

  lemma ReadBe16(s: seq<byte>, at: nat, v: u16)
    requires at + 2 <= |s| && s[at..at + 2] == Be16(v)
    ensures ReadU16(s, at) == v
  {
    assert s[at] == s[at..at + 2][0] && s[at + 1] == s[at..at + 2][1];
  }

  lemma ReadBe32(s: seq<byte>, at: nat, v: u32)
    requires at + 4 <= |s| && s[at..at + 4] == Be32(v)
    ensures ReadU32(s, at) == v
  {
    var t := s[at..at + 4];
    assert s[at] == t[0] && s[at + 1] == t[1] && s[at + 2] == t[2] && s[at + 3] == t[3];
    assert v / 0x100 == v / 0x1_0000 * 0x100 + v / 0x100 % 0x100;
    assert v / 0x1_0000 == v / 0x100_0000 * 0x100 + v / 0x1_0000 % 0x100;
  }

  lemma BeRead16(s: seq<byte>, at: nat)
    requires at + 2 <= |s|
    ensures Be16(ReadU16(s, at)) == s[at..at + 2]
  {
  }

  lemma BeRead32(s: seq<byte>, at: nat)
    requires at + 4 <= |s|
    ensures Be32(ReadU32(s, at)) == s[at..at + 4]
  {
    var v := ReadU32(s, at);
    assert v / 0x100_0000 == s[at];
    assert v / 0x1_0000 == s[at] as int * 0x100 + s[at + 1];
    assert v / 0x100 == (s[at] as int * 0x100 + s[at + 1]) * 0x100 + s[at + 2];
  }

  /** `usize::checked_add` on a 64-bit target. */
  function CheckedAdd(a: nat, b: nat): Option<nat> {
    if a + b < U64_SIZE then Some(a + b) else None
  }

  lemma Regroup<T>(a: seq<T>, b: seq<T>, c: seq<T>)
    ensures a + b + c == a + (b + c)
  {
  }
}
