/**
The base64 accumulators against sections 4 and 5 of RFC 4648, where the text is
the input's bit string, most significant bit first, cut into groups of six.
*/
module Base64 {
  import opened Bytes

  // ----- numbers as bit strings

  function Pow2(n: nat): (p: nat)
    ensures p > 0
  {
    if n == 0 then 1 else 2 * Pow2(n - 1)
  }

  function Num(b: seq<bool>): nat {
    if b == [] then 0 else 2 * Num(b[..|b| - 1]) + if b[|b| - 1] then 1 else 0
  }

  /** The low `w` bits of `v`. */
  function Digits(v: nat, w: nat): (b: seq<bool>)
    ensures |b| == w
  {
    if w == 0 then [] else Digits(v / 2, w - 1) + [v % 2 == 1]
  }

  function Zeros(n: nat): (b: seq<bool>)
    ensures |b| == n
  {
    seq(n, _ => false)
  }

  /** Numbers of `w` bits, one after the other. */
  function Stream(vs: seq<nat>, w: nat): seq<bool> {
    if vs == [] then [] else Stream(vs[..|vs| - 1], w) + Digits(vs[|vs| - 1], w)
  }

  predicate Below(vs: seq<nat>, w: nat) {
    forall i | 0 <= i < |vs| :: vs[i] < Pow2(w)
  }

  /** The groups of `w` bits, without what is left at the end. */
  function Cut(b: seq<bool>, w: nat): (vs: seq<nat>)
    requires w > 0
    decreases |b|
  {
    if |b| < w then [] else [Num(b[..w])] + Cut(b[w..], w)
  }

  lemma {:induction false} NumDigits(v: nat, w: nat)
    requires v < Pow2(w)
    ensures Num(Digits(v, w)) == v
  {
    if w == 0 {
    } else {
      NumDigits(v / 2, w - 1);
      assert Digits(v, w)[..w - 1] == Digits(v / 2, w - 1);
    }
  }

  lemma {:induction false} DigitsNum(b: seq<bool>)
    ensures Num(b) < Pow2(|b|) && Digits(Num(b), |b|) == b
    decreases |b|
  {
    if b == [] {
    } else {
      var n := |b| - 1;
      DigitsNum(b[..n]);
      assert b == b[..n] + [b[n]];
    }
  }

  lemma Doubled(x: nat, p: nat)
    ensures 2 * (x * p) == x * (2 * p)
  {
  }

  lemma NumSnoc(b: seq<bool>, c: bool)
    ensures Num(b + [c]) == 2 * Num(b) + if c then 1 else 0
  {
    assert (b + [c])[..|b|] == b;
  }

  lemma {:induction false} NumAppend(a: seq<bool>, b: seq<bool>)
    ensures Num(a + b) == Num(a) * Pow2(|b|) + Num(b)
    decreases |b|
  {
    if b == [] {
      assert a + b == a;
    } else {
      hide Num;
      var init, c := b[..|b| - 1], b[|b| - 1];
      NumAppend(a, init);
      NumSnoc(a + init, c);
      NumSnoc(init, c);
      assert b == init + [c] && a + b == a + init + [c];
      Doubled(Num(a), Pow2(|init|));
    }
  }

  lemma {:induction false} StreamLength(vs: seq<nat>, w: nat)
    ensures |Stream(vs, w)| == |vs| * w
    decreases |vs|
  {
    if vs == [] {
    } else {
      StreamLength(vs[..|vs| - 1], w);
      assert |vs| * w == (|vs| - 1) * w + w;
    }
  }

  lemma StreamSnoc(vs: seq<nat>, v: nat, w: nat)
    ensures Stream(vs + [v], w) == Stream(vs, w) + Digits(v, w)
  {
    assert (vs + [v])[..|vs|] == vs;
  }

  lemma {:induction false} StreamCons(v: nat, vs: seq<nat>, w: nat)
    ensures Stream([v] + vs, w) == Digits(v, w) + Stream(vs, w)
    decreases |vs|
  {
    hide Digits;
    if vs == [] {
      assert [v] + vs == [] + [v];
      StreamSnoc([], v, w);
    } else {
      var init, last := vs[..|vs| - 1], vs[|vs| - 1];
      StreamCons(v, init, w);
      assert [v] + vs == ([v] + init) + [last] && vs == init + [last];
      StreamSnoc([v] + init, last, w);
      StreamSnoc(init, last, w);
      hide Stream;
      Regroup(Digits(v, w), Stream(init, w), Digits(last, w));
    }
  }

  /** Cutting gives back the numbers that were strung together. */
  lemma {:induction false} CutStream(vs: seq<nat>, w: nat, rest: seq<bool>)
    requires w > 0 && |rest| < w && Below(vs, w)
    ensures Cut(Stream(vs, w) + rest, w) == vs
    decreases |vs|
  {
    if vs == [] {
      assert Stream(vs, w) + rest == rest;
    } else {
      hide Num, Stream, Digits, Pow2, Cut;
      var head, more := Digits(vs[0], w), Stream(vs[1..], w) + rest;
      assert vs == [vs[0]] + vs[1..];
      StreamCons(vs[0], vs[1..], w);
      Regroup(head, Stream(vs[1..], w), rest);
      NumDigits(vs[0], w);
      CutStream(vs[1..], w, rest);
    }
  }

  /** Stringing the groups together gives back the bits, up to the last whole group. */
  lemma {:induction false} StreamCut(b: seq<bool>, w: nat)
    requires w > 0
    ensures Stream(Cut(b, w), w) <= b && |b| - |Stream(Cut(b, w), w)| < w
    ensures Below(Cut(b, w), w)
    decreases |b|
  {
    if |b| < w {
    } else {
      var head, more := b[..w], b[w..];
      assert b == head + more;
      hide Num, Digits, Stream, Cut, Pow2;
      StreamCut(more, w);
      DigitsNum(head);
      StreamCons(Num(head), Cut(more, w), w);
    }
  }

  // ----- section 4 and section 5 of RFC 4648

  const UPPER: string := "ABCDEFGHIJKLMNOPQRSTUVWXYZ"
  const LOWER: string := "abcdefghijklmnopqrstuvwxyz"
  const DIGITS: string := "0123456789"
  const STANDARD: string := UPPER + LOWER + DIGITS + "+/"
  const URL_SAFE: string := UPPER + LOWER + DIGITS + "-_"

  /** The bits of `s`, with zero bits on the right up to a whole number of groups. */
  function Padded(s: seq<byte>): seq<bool> {
    Stream(s, 8) + Zeros((6 - 8 * |s| % 6) % 6)
  }

  predicate Small(vs: seq<nat>) {
    forall i | 0 <= i < |vs| :: vs[i] < 64
  }

  function Sextets(s: seq<byte>): (vs: seq<nat>)
    ensures Small(vs)
  {
    SmallPowers();
    StreamCut(Padded(s), 6);
    Cut(Padded(s), 6)
  }

  /** The groups leave nothing over. */
  lemma SextetsStream(s: seq<byte>)
    ensures Stream(Sextets(s), 6) == Padded(s)
  {
    StreamLength(s, 8);
    StreamLength(Sextets(s), 6);
    hide Stream, Cut;
    StreamCut(Padded(s), 6);
    WholeGroups(8 * |s|, |Sextets(s)|);
  }

  /** What is missing to a multiple of six. */
  lemma UpToSix(m: nat, q: nat, r: nat)
    requires m == 6 * q + r && r < 6
    ensures (6 - m % 6) % 6 == if r == 0 then 0 else 6 - r
  {
    assert m % 6 == r;
  }

  lemma WholeGroups(m: nat, k: nat)
    ensures (m + (6 - m % 6) % 6) % 6 == 0
    ensures k * 6 <= m + (6 - m % 6) % 6 < k * 6 + 6 ==> k * 6 == m + (6 - m % 6) % 6
  {
    var q, r := m / 6, m % 6;
    UpToSix(m, q, r);
    var whole := if r == 0 then q else q + 1;
    assert m + (6 - m % 6) % 6 == 6 * whole;
  }

  function Spell(alphabet: string, vs: seq<nat>): (t: string)
    requires |alphabet| == 64 && Small(vs)
    ensures |t| == |vs| && forall i | 0 <= i < |vs| :: t[i] == alphabet[vs[i]]
  {
    seq(|vs|, i requires 0 <= i < |vs| => alphabet[vs[i]])
  }

  function Equals(n: nat): string {
    seq(n, _ => '=')
  }

  /** Up to a multiple of four characters. */
  function FilledUp(t: string): string {
    t + Equals((4 - |t| % 4) % 4)
  }

  /** Section 4 of RFC 4648. */
  function Text(alphabet: string, s: seq<byte>): string
    requires |alphabet| == 64
  {
    FilledUp(Spell(alphabet, Sextets(s)))
  }

  /** Section 5 of RFC 4648 without padding. */
  function Unpadded(s: seq<byte>): string {
    Spell(URL_SAFE, Sextets(s))
  }

  // ----- a register that is shifted and never masked

  lemma AtLeast(d: int, m: int)
    requires m > 0
    ensures d == 0 || d * m >= m || d * m <= -m
  {
    if d > 0 {
      assert (d - 1) * m >= 0;
    } else if d < 0 {
      assert (-d - 1) * m >= 0;
    }
  }

  lemma Remainder(x: int, a: int, m: nat, r: nat)
    requires r < m && x == a * m + r
    ensures x % m == r && x / m == a
  {
    var q, t := x / m, x % m;
    assert x == q * m + t && 0 <= t < m;
    AtLeast(q - a, m);
  }

  lemma {:induction false} Pow2Add(a: nat, b: nat)
    ensures Pow2(a + b) == Pow2(a) * Pow2(b)
  {
    if a == 0 {
    } else {
      Pow2Add(a - 1, b);
    }
  }

  /** `val` ends in the bits `q`. */
  ghost predicate Holds(val: int, q: seq<bool>) {
    val % Pow2(|q|) == Num(q)
  }

  lemma High(val: int, q: seq<bool>)
    requires Holds(val, q)
    ensures val == (val / Pow2(|q|)) * Pow2(|q|) + Num(q)
  {
  }

  lemma HoldsIf(val: int, high: int, q: seq<bool>)
    requires val == high * Pow2(|q|) + Num(q)
    ensures Holds(val, q) && val / Pow2(|q|) == high
  {
    DigitsNum(q);
    Remainder(val, high, Pow2(|q|), Num(q));
  }

  /** Shifting `d` in keeps the tail, however many times the register wraps around. */
  lemma ShiftIn(val: int, q: seq<bool>, d: nat, w: nat, now: int, wraps: int)
    requires Holds(val, q) && d < Pow2(w) && |q| + w <= 32
    requires now == val * Pow2(w) + d - wraps * U32_SIZE
    ensures Holds(now, q + Digits(d, w))
  {
    hide Holds, Num, Digits, Pow2;
    var more := Digits(d, w);
    var all, n := q + more, |q| + w;
    var high, k := val / Pow2(|q|), Pow2(32 - n);
    High(val, q);
    NumAppend(q, more);
    NumDigits(d, w);
    Pow2Add(|q|, w);
    Pow2Add(32 - n, n);
    SmallPowers();
    Shifted(now, val, high, Pow2(|q|), Num(q), Pow2(w), d, wraps, k, Pow2(n), Num(all));
    HoldsIf(now, high - wraps * k, all);
  }

  lemma SmallPowers()
    ensures Pow2(6) == 0x40 && Pow2(8) == 0x100 && Pow2(32) == U32_SIZE
  {
    Pow2Add(8, 8);
    Pow2Add(16, 16);
  }

  lemma Shifted(now: int, val: int, high: int, p: nat, low: nat, w: nat, d: nat, wraps: int, k: nat, pw: nat, lows: nat)
    requires val == high * p + low && pw == p * w && U32_SIZE == k * pw && lows == low * w + d
    requires now == val * w + d - wraps * U32_SIZE
    ensures now == (high - wraps * k) * pw + lows
  {
    assert val * w == high * (p * w) + low * w;
    assert wraps * (k * pw) == (wraps * k) * pw;
  }

  /** Shifting right by `k` leaves the bits in front of the last `k` at the bottom. */
  lemma TakeOut(val: int, q: seq<bool>, w: nat, k: nat)
    requires Holds(val, q) && |q| == w + k
    ensures val / Pow2(k) % Pow2(w) == Num(q[..w]) && Holds(val, q[w..])
  {
    hide Holds, Num, Pow2;
    var high := val / Pow2(|q|);
    High(val, q);
    var front, back := q[..w], q[w..];
    assert q == front + back;
    NumAppend(front, back);
    Pow2Add(w, k);
    var up := high * Pow2(w) + Num(front);
    assert val == up * Pow2(k) + Num(back);
    HoldsIf(val, up, back);
    HoldsIf(up, high, front);
    assert up % Pow2(w) == Num(front) by {
      DigitsNum(front);
      Remainder(up, high, Pow2(w), Num(front));
    }
  }

  /** What both loops keep: what was put out and what is queued is what was read. */
  ghost predicate Queued(vs: seq<nat>, w: nat, q: seq<bool>, read: seq<nat>, u: nat, val: int) {
    Stream(vs, w) + q == Stream(read, u) && Holds(val, q)
  }

  lemma TakeIn(vs: seq<nat>, w: nat, q: seq<bool>, read: seq<nat>, u: nat, val: int, d: nat, now: int, wraps: int)
    requires Queued(vs, w, q, read, u, val) && |q| + u <= 32 && d < Pow2(u)
    requires now == val * Pow2(u) + d - wraps * U32_SIZE
    ensures Queued(vs, w, q + Digits(d, u), read + [d], u, now)
  {
    hide Holds, Digits, Stream, Pow2;
    ShiftIn(val, q, d, u, now, wraps);
    StreamSnoc(read, d, u);
    Regroup(Stream(vs, w), q, Digits(d, u));
  }

  lemma PutOut(vs: seq<nat>, w: nat, q: seq<bool>, read: seq<nat>, u: nat, val: int, k: nat) returns (v: nat)
    requires Queued(vs, w, q, read, u, val) && |q| == w + k
    ensures v == val / Pow2(k) % Pow2(w) < Pow2(w) && Queued(vs + [v], w, q[w..], read, u, val)
  {
    hide Holds, Digits, Num, Stream, Pow2;
    TakeOut(val, q, w, k);
    var front, back := q[..w], q[w..];
    v := Num(front);
    DigitsNum(front);
    StreamSnoc(vs, v, w);
    assert q == front + back;
    Regroup(Stream(vs, w), front, back);
  }

  // ----- the encoder

  /** An unsigned 32-bit register shifted left by a byte. */
  function Shl8(val: nat): (r: nat)
    requires val < U32_SIZE
    ensures r == val * 0x100 - val / 0x100_0000 * U32_SIZE && r < U32_SIZE
  {
    val * 0x100 % U32_SIZE
  }

  function Shl8Add(val: nat, d: byte): (r: nat)
    requires val < U32_SIZE
    ensures r < U32_SIZE
  {
    (Shl8(val) + d) % U32_SIZE
  }

  /** The six bits of a register above its last `k`. */
  function Six(val: nat, k: nat): (v: nat)
    ensures v < 64
  {
    val / Pow2(k) % 0x40
  }

  lemma ReadByte(vs: seq<nat>, q: seq<bool>, read: seq<byte>, val: nat, d: byte)
    requires Queued(vs, 6, q, read, 8, val) && |q| < 6 && val < U32_SIZE
    ensures Queued(vs, 6, q + Digits(d, 8), read + [d], 8, Shl8Add(val, d))
  {
    var wraps := val / 0x100_0000 + (Shl8(val) + d) / U32_SIZE;
    hide Queued, Digits;
    SmallPowers();
    hide Pow2;
    TakeIn(vs, 6, q, read, 8, val, d, Shl8Add(val, d), wraps);
  }

  lemma SpellOne(vs: seq<nat>, q: seq<bool>, read: seq<byte>, val: nat, k: nat)
    requires Queued(vs, 6, q, read, 8, val) && |q| == 6 + k
    ensures Queued(vs + [Six(val, k)], 6, q[6..], read, 8, val)
  {
    hide Queued;
    SmallPowers();
    hide Pow2;
    var v := PutOut(vs, 6, q, read, 8, val, k);
  }

  lemma {:induction false} DigitsZero(w: nat)
    ensures Digits(0, w) == Zeros(w)
  {
    if w == 0 {
    } else {
      DigitsZero(w - 1);
    }
  }

  /** The last group, filled up with zero bits. */
  lemma SpellLast(vs: seq<nat>, q: seq<bool>, read: seq<byte>, val: nat)
    requires Queued(vs, 6, q, read, 8, val) && 0 < |q| < 6 && val < U32_SIZE
    ensures Stream(vs + [Six(Shl8(val), |q| + 2)], 6) == Stream(read, 8) + Zeros(6 - |q|)
  {
    hide Holds, Digits, Num, Stream;
    SmallPowers();
    hide Pow2;
    var now := Shl8(val);
    ShiftIn(val, q, 0, 8, now, val / 0x100_0000);
    DigitsZero(8);
    var long, front := q + Zeros(8), q + Zeros(6 - |q|);
    TakeOut(now, long, 6, |q| + 2);
    assert long[..6] == front;
    DigitsNum(front);
    StreamSnoc(vs, Num(front), 6);
    Regroup(Stream(vs, 6), q, Zeros(6 - |q|));
  }

  lemma PaddedIs(s: seq<byte>, fill: nat)
    requires fill == (6 - 8 * |s| % 6) % 6
    ensures Padded(s) == Stream(s, 8) + Zeros(fill)
  {
  }

  lemma Filled(m: nat, k: nat, fill: nat)
    requires k * 6 == m + fill && fill < 6
    ensures fill == (6 - m % 6) % 6
  {
    UpToSix(m, if fill == 0 then k else k - 1, if fill == 0 then 0 else 6 - fill);
  }

  lemma CutAll(vs: seq<nat>)
    requires Small(vs)
    ensures Cut(Stream(vs, 6), 6) == vs
  {
    SmallPowers();
    hide Pow2, Stream, Cut;
    CutStream(vs, 6, []);
    var b := Stream(vs, 6);
    assert b + [] == b;
  }

  /** Groups that string together to the padded bits are the sextets. */
  lemma SextetsAre(s: seq<byte>, vs: seq<nat>, fill: nat)
    requires Stream(vs, 6) == Stream(s, 8) + Zeros(fill) && fill < 6
    requires Small(vs)
    ensures vs == Sextets(s)
  {
    hide Small, Stream, Cut, Zeros, Padded;
    StreamLength(vs, 6);
    StreamLength(s, 8);
    Filled(8 * |s|, |vs|, fill);
    PaddedIs(s, fill);
    CutAll(vs);
  }

  lemma SpellSnoc(tbl: string, vs: seq<nat>, v: nat)
    requires |tbl| == 64 && v < 64 && Small(vs)
    ensures Small(vs + [v])
    ensures Spell(tbl, vs + [v]) == Spell(tbl, vs) + [tbl[v]]
  {
  }

  lemma NothingQueued(vs: seq<nat>, q: seq<bool>, read: seq<byte>, val: int)
    requires Queued(vs, 6, q, read, 8, val) && q == []
    ensures Stream(vs, 6) == Stream(read, 8) + Zeros(0)
  {
    assert Stream(vs, 6) + q == Stream(vs, 6);
    assert Stream(read, 8) + Zeros(0) == Stream(read, 8);
  }

  /** The text so far spells the groups taken, and the register holds the bits still queued. */
  ghost predicate Spelling(tbl: string, ret: string, vs: seq<nat>, q: seq<bool>, read: seq<byte>, val: nat, valb: int) {
    && |tbl| == 64 && Small(vs) && ret == Spell(tbl, vs)
    && Queued(vs, 6, q, read, 8, val) && val < U32_SIZE && valb == |q| - 6
  }

  lemma SpellingStarts(tbl: string)
    requires |tbl| == 64
    ensures Spelling(tbl, "", [], [], [], 0, -6)
  {
  }

  lemma SpellingReads(tbl: string, ret: string, vs: seq<nat>, q: seq<bool>, read: seq<byte>,
      val: nat, valb: int, d: byte)
    requires Spelling(tbl, ret, vs, q, read, val, valb) && valb < 0
    ensures Spelling(tbl, ret, vs, q + Digits(d, 8), read + [d], Shl8Add(val, d), valb + 8)
  {
    hide Queued, Shl8Add, Spell, Small;
    ReadByte(vs, q, read, val, d);
  }

  lemma SpellingPuts(tbl: string, ret: string, vs: seq<nat>, q: seq<bool>, read: seq<byte>, val: nat, valb: int)
    requires Spelling(tbl, ret, vs, q, read, val, valb) && valb >= 0
    ensures Spelling(tbl, ret + [tbl[Six(val, valb)]], vs + [Six(val, valb)], q[6..], read, val, valb - 6)
  {
    hide Queued, Six, Spell, Small;
    SpellOne(vs, q, read, val, valb);
    SpellSnoc(tbl, vs, Six(val, valb));
  }

  lemma SpellingEnds(tbl: string, ret: string, vs: seq<nat>, q: seq<bool>, data: seq<byte>, val: nat, valb: int)
    requires Spelling(tbl, ret, vs, q, data, val, valb) && valb < 0
    ensures valb == -6 ==> ret == Spell(tbl, Sextets(data))
    ensures -6 < valb ==> ret + [tbl[Six(Shl8(val), valb + 8)]] == Spell(tbl, Sextets(data))
  {
    hide Queued, Stream, Sextets, Six, Shl8, Spell, Small;
    if q == [] {
      NothingQueued(vs, q, data, val);
      SextetsAre(data, vs, 0);
    } else {
      var v := Six(Shl8(val), |q| + 2);
      SpellLast(vs, q, data, val);
      SpellSnoc(tbl, vs, v);
      SextetsAre(data, vs + [v], 6 - |q|);
    }
  }

  /** The loop of `base64_encode` and what follows it, up to the padding. */
  method SpellOut(tbl: string, data: seq<byte>) returns (ret: string)
    requires |tbl| == 64
    ensures ret == Spell(tbl, Sextets(data))
  {
    hide Spelling, Digits, Sextets, Spell, Six, Shl8, Shl8Add;
    var val: nat, valb := 0, -6;
    ghost var vs: seq<nat>, q: seq<bool> := [], [];
    ret := "";
    SpellingStarts(tbl);
    assert data[..0] == [];
    for i := 0 to |data|
      invariant -6 <= valb < 0 && valb == |q| - 6 && val < U32_SIZE
      invariant Spelling(tbl, ret, vs, q, data[..i], val, valb)
    {
      SpellingReads(tbl, ret, vs, q, data[..i], val, valb, data[i]);
      ghost var read := data[..i] + [data[i]];
      assert data[..i + 1] == read;
      q := q + Digits(data[i], 8);
      val := Shl8Add(val, data[i]);
      valb := valb + 8;
      while valb >= 0
        invariant -6 <= valb < 8 && valb == |q| - 6
        invariant Spelling(tbl, ret, vs, q, read, val, valb)
      {
        SpellingPuts(tbl, ret, vs, q, read, val, valb);
        vs, q := vs + [Six(val, valb)], q[6..];
        ret := ret + [tbl[Six(val, valb)]];
        valb := valb - 6;
      }
    }
    assert data[..|data|] == data;
    SpellingEnds(tbl, ret, vs, q, data, val, valb);
    if valb > -6 {
      ret := ret + [tbl[Six(Shl8(val), valb + 8)]];
    }
  }

  method FillUp(t: string) returns (ret: string)
    ensures ret == FilledUp(t)
  {
    ret := t;
    ghost var n := 0;
    while |ret| % 4 != 0
      invariant ret == t + Equals(n) && n <= (4 - |t| % 4) % 4
      decreases (4 - |t| % 4) % 4 - n
    {
      ret := ret + "=";
      n := n + 1;
    }
  }

  /** `base64_encode` */
  method Encode(data: seq<byte>) returns (ret: string)
    ensures ret == Text(STANDARD, data)
  {
    hide Sextets, Spell, FilledUp;
    ret := SpellOut(STANDARD, data);
    ret := FillUp(ret);
  }

  // ----- the decoder

  /** What a character stands for, with the two that depend on the alphabet. */
  function ValueOf(c: char, plus: char, slash: char): int {
    if 'A' <= c <= 'Z' then c as int - 'A' as int
    else if 'a' <= c <= 'z' then c as int - 'a' as int + 26
    else if '0' <= c <= '9' then c as int - '0' as int + 52
    else if c == plus then 62
    else if c == slash then 63
    else -1
  }

  /** The table of `base64url_decode`: the padding character stands for zero. */
  function Table(c: char): (v: int)
    ensures v < 64
  {
    if c == '=' then 0 else ValueOf(c, '-', '_')
  }

  predicate Break(c: char) { c == '\r' || c == '\n' }

  predicate Legal(t: string) {
    forall c | c in t :: Table(c) >= 0 || Break(c)
  }

  function Values(t: string): (vs: seq<nat>)
    ensures Small(vs)
  {
    if t == "" then []
    else Values(t[..|t| - 1]) + if Table(t[|t| - 1]) >= 0 then [Table(t[|t| - 1])] else []
  }

  /** The whole bytes of the characters' bits, or nothing if there is any other character. */
  function Decoded(t: string): seq<nat> {
    if Legal(t) then Cut(Stream(Values(t), 6), 8) else []
  }

  const I32_HALF := 0x8000_0000

  /** A signed 32-bit register shifted left by six, in two's complement, with `v` put in. */
  function Shl6Or(val: int, v: nat): (r: int)
    requires v < 64
    ensures -I32_HALF <= r < I32_HALF && r == val * 0x40 + v - (val * 0x40 + I32_HALF) / U32_SIZE * U32_SIZE
  {
    (val * 0x40 + I32_HALF) % U32_SIZE - I32_HALF + v
  }

  /** The byte of a signed register above its last `k` bits; the right shift keeps the sign. */
  function Octet(val: int, k: nat): byte {
    val / Pow2(k) % 0x100
  }

  lemma ReadSextet(out: seq<byte>, q: seq<bool>, read: seq<nat>, val: int, v: nat)
    requires Queued(out, 8, q, read, 6, val) && |q| < 8 && v < 64
    ensures Queued(out, 8, q + Digits(v, 6), read + [v], 6, Shl6Or(val, v))
  {
    hide Queued, Digits;
    SmallPowers();
    hide Pow2;
    TakeIn(out, 8, q, read, 6, val, v, Shl6Or(val, v), (val * 0x40 + I32_HALF) / U32_SIZE);
  }

  lemma PutOctet(out: seq<byte>, q: seq<bool>, read: seq<nat>, val: int, k: nat)
    requires Queued(out, 8, q, read, 6, val) && |q| == 8 + k
    ensures Queued(out + [Octet(val, k)], 8, q[8..], read, 6, val)
  {
    hide Queued;
    SmallPowers();
    hide Pow2;
    var v := PutOut(out, 8, q, read, 6, val, k);
  }

  lemma ValuesSnoc(t: string, i: nat)
    requires i < |t|
    ensures Values(t[..i + 1]) == Values(t[..i]) + if Table(t[i]) >= 0 then [Table(t[i])] else []
  {
    assert t[..i + 1][..i] == t[..i];
  }

  /** The bytes so far are the whole ones of what was read, and the register holds the rest. */
  ghost predicate Decoding(out: seq<byte>, q: seq<bool>, t: string, i: nat, val: int, bits: int) {
    && i <= |t| && bits == |q| && Queued(out, 8, q, Values(t[..i]), 6, val)
    && forall j | 0 <= j < i :: Table(t[j]) >= 0 || Break(t[j])
  }

  lemma DecodingStarts(t: string)
    ensures Decoding([], [], t, 0, 0, 0)
  {
  }

  lemma DecodingSkips(out: seq<byte>, q: seq<bool>, t: string, i: nat, val: int, bits: int)
    requires Decoding(out, q, t, i, val, bits) && i < |t| && Table(t[i]) < 0 && Break(t[i])
    ensures Decoding(out, q, t, i + 1, val, bits)
  {
    hide Queued, Values, Table;
    ValuesSnoc(t, i);
    assert Values(t[..i]) + [] == Values(t[..i]);
  }

  lemma DecodingReads(out: seq<byte>, q: seq<bool>, t: string, i: nat, val: int, bits: int)
    requires Decoding(out, q, t, i, val, bits) && bits < 8 && i < |t| && Table(t[i]) >= 0
    ensures Decoding(out, q + Digits(Table(t[i]), 6), t, i + 1, Shl6Or(val, Table(t[i])), bits + 6)
  {
    hide Queued, Values, Table, Shl6Or;
    ValuesSnoc(t, i);
    ReadSextet(out, q, Values(t[..i]), val, Table(t[i]));
  }

  lemma DecodingPuts(out: seq<byte>, q: seq<bool>, t: string, i: nat, val: int, bits: int)
    requires Decoding(out, q, t, i, val, bits) && bits >= 8
    ensures Decoding(out + [Octet(val, bits - 8)], q[8..], t, i, val, bits - 8)
  {
    hide Queued, Values, Table, Octet;
    PutOctet(out, q, Values(t[..i]), val, bits - 8);
  }

  lemma DecodingEnds(out: seq<byte>, q: seq<bool>, t: string, val: int, bits: int)
    requires Decoding(out, q, t, |t|, val, bits) && bits < 8
    ensures out == Decoded(t)
  {
    hide Values, Stream, Cut, Num;
    SmallPowers();
    hide Pow2, Table;
    assert t[..|t|] == t;
    CutStream(out, 8, q);
  }

  /** `base64url_decode` */
  method Decode(t: string) returns (out: seq<byte>)
    ensures out == Decoded(t)
  {
    hide Decoding, Digits, Octet, Shl6Or, Values, Table, Stream, Cut;
    out := [];
    var bits, val := 0, 0;
    ghost var q: seq<bool> := [];
    DecodingStarts(t);
    for i := 0 to |t|
      invariant 0 <= bits < 8 && bits == |q|
      invariant Decoding(out, q, t, i, val, bits)
    {
      var c := t[i];
      var v := Table(c);
      if v < 0 {
        if c == '=' || c == '\r' || c == '\n' {
          EqualsIsZero();
          DecodingSkips(out, q, t, i, val, bits);
          continue;
        }
        return [];
      }
      DecodingReads(out, q, t, i, val, bits);
      q := q + Digits(v, 6);
      val := Shl6Or(val, v);
      bits := bits + 6;
      if bits >= 8 {
        DecodingPuts(out, q, t, i + 1, val, bits);
        q := q[8..];
        bits := bits - 8;
        out := out + [Octet(val, bits)];
      }
    }
    DecodingEnds(out, q, t, val, bits);
  }

  /** The padding branch of the loop is never reached. */
  lemma EqualsIsZero()
    ensures Table('=') == 0
  {
  }

  // ----- laws

  /** The first three ranges of either alphabet. */
  lemma AlphaNumeric(v: nat)
    requires v < 62
    ensures var c := (UPPER + LOWER + DIGITS)[v];
      c != '=' && forall plus, slash :: ValueOf(c, plus, slash) == v
  {
    assert UPPER == seq(26, i requires 0 <= i < 26 => (65 + i) as char);
    assert LOWER == seq(26, i requires 0 <= i < 26 => (97 + i) as char);
    assert DIGITS == seq(10, i requires 0 <= i < 10 => (48 + i) as char);
  }

  lemma AlphabetValue(alphabet: string, plus: char, slash: char, v: nat)
    requires alphabet == UPPER + LOWER + DIGITS + [plus, slash] && v < 64
    requires (plus == '+' && slash == '/') || (plus == '-' && slash == '_')
    ensures |alphabet| == 64 && ValueOf(alphabet[v], plus, slash) == v && alphabet[v] != '='
  {
    if v < 62 {
      AlphaNumeric(v);
    }
  }

  lemma UrlValue(v: nat)
    requires v < 64
    ensures Table(URL_SAFE[v]) == v
  {
    AlphabetValue(URL_SAFE, '-', '_', v);
  }

  lemma {:induction false} ValuesAppend(t: string, u: string)
    ensures Values(t + u) == Values(t) + Values(u)
    decreases |u|
  {
    hide Table;
    if u == "" {
      assert t + u == t;
    } else {
      assert (t + u)[..|t + u| - 1] == t + u[..|u| - 1];
      ValuesAppend(t, u[..|u| - 1]);
    }
  }

  lemma ValuesMore(t: string, c: char)
    ensures Values(t + [c]) == Values(t) + if Table(c) >= 0 then [Table(c)] else []
  {
    assert (t + [c])[..|t|] == t;
  }

  /** One more character that stands for a group. */
  lemma ValuesSpell(t: string, c: char, vs: seq<nat>, v: nat)
    requires Values(t) == vs && Legal(t) && Table(c) == v
    ensures Values(t + [c]) == vs + [v] && Legal(t + [c])
  {
    hide Table, Values;
    ValuesMore(t, c);
  }

  /** A table that undoes an alphabet undoes its spelling. */
  lemma {:induction false} ValuesOfSpelling(tbl: string, vs: seq<nat>)
    requires |tbl| == 64 && forall v | 0 <= v < 64 :: Table(tbl[v]) == v
    requires Small(vs)
    ensures Values(Spell(tbl, vs)) == vs && Legal(Spell(tbl, vs))
    decreases |vs|
  {
    hide Table, Break;
    if vs == [] {
    } else {
      var n := |vs| - 1;
      ValuesOfSpelling(tbl, vs[..n]);
      assert vs == vs[..n] + [vs[n]];
      SpellSnoc(tbl, vs[..n], vs[n]);
      ValuesSpell(Spell(tbl, vs[..n]), tbl[vs[n]], vs[..n], vs[n]);
    }
  }

  lemma UrlSpelling(vs: seq<nat>)
    requires Small(vs)
    ensures |URL_SAFE| == 64
    ensures Values(Spell(URL_SAFE, vs)) == vs && Legal(Spell(URL_SAFE, vs))
  {
    hide Table, Values, Legal, Spell;
    forall v | 0 <= v < 64 ensures Table(URL_SAFE[v]) == v {
      UrlValue(v);
    }
    ValuesOfSpelling(URL_SAFE, vs);
  }

  function WithoutBreaks(t: string): string {
    if t == "" then ""
    else WithoutBreaks(t[..|t| - 1]) + if Break(t[|t| - 1]) then "" else [t[|t| - 1]]
  }

  /** Line breaks make no difference, wherever they stand. */
  lemma {:induction false} BreaksIgnored(t: string)
    ensures Values(WithoutBreaks(t)) == Values(t)
    ensures Legal(WithoutBreaks(t)) <==> Legal(t)
    decreases |t|
  {
    if t == "" {
    } else {
      var init, c := t[..|t| - 1], t[|t| - 1];
      BreaksIgnored(init);
      var u := WithoutBreaks(init);
      assert t == init + [c];
      assert Break(c) ==> Table(c) < 0;
      hide Table, Break, Legal, Values;
      ValuesMore(init, c);
      ValuesMore(u, c);
      assert u + [] == u;
    }
  }

  lemma EndIgnored(t: string, b: string, u: string)
    requires WithoutBreaks(b) == ""
    ensures Decoded(t + b + u) == Decoded(t + u)
  {
    hide Cut, Stream, Values, Table, Legal, WithoutBreaks;
    BreaksIgnored(t + b + u);
    BreaksIgnored(t + u);
    WithoutBreaksAppend(t, b);
    WithoutBreaksAppend(t + b, u);
    WithoutBreaksAppend(t, u);
    var w := WithoutBreaks(t);
    assert w + "" == w;
  }

  /** In particular ends of lines, with or without a carriage return. */
  lemma LineEndsIgnored(t: string, u: string)
    ensures Decoded(t + "\n" + u) == Decoded(t + u) && Decoded(t + "\r\n" + u) == Decoded(t + u)
  {
    assert "\n"[..0] == "" && "\r\n"[..1] == "\r" && "\r"[..0] == "";
    assert WithoutBreaks("\r") == "";
    EndIgnored(t, "\n", u);
    EndIgnored(t, "\r\n", u);
  }

  lemma {:induction false} WithoutBreaksAppend(t: string, u: string)
    ensures WithoutBreaks(t + u) == WithoutBreaks(t) + WithoutBreaks(u)
    decreases |u|
  {
    if u == "" {
      assert t + u == t;
    } else {
      var n := |u| - 1;
      assert (t + u)[..|t| + n] == t + u[..n];
      WithoutBreaksAppend(t, u[..n]);
    }
  }

  /** Any character but letters, digits, "-", "_", "=" and ends of lines leaves nothing. */
  lemma IllegalLeavesNothing(t: string, c: char)
    requires c in t && !('A' <= c <= 'Z' || 'a' <= c <= 'z' || '0' <= c <= '9')
    requires c != '-' && c != '_' && c != '=' && c != '\r' && c != '\n'
    ensures Decoded(t) == []
  {
  }

  /** Zero bits short of a byte do not show. */
  lemma BitsBack(s: seq<byte>, fill: nat)
    requires fill < 8
    ensures Cut(Stream(s, 8) + Zeros(fill), 8) == s
  {
    SmallPowers();
    hide Pow2;
    CutStream(s, 8, Zeros(fill));
  }

  /**
  `base64url_decode` undoes unpadded base64url (section 2 of RFC 7515), with line
  breaks anywhere, for byte strings of any length.
  */
  lemma UrlRoundTrip(t: string, s: seq<byte>)
    requires WithoutBreaks(t) == Unpadded(s)
    ensures Decoded(t) == s
  {
    hide Values, Table, Spell, Legal, Stream, Cut, Zeros, WithoutBreaks, Sextets;
    BreaksIgnored(t);
    UrlSpelling(Sextets(s));
    SextetsStream(s);
    BitsBack(s, (6 - 8 * |s| % 6) % 6);
  }

  function NoBytes(n: nat): (z: seq<byte>)
    ensures |z| == n
  {
    seq(n, _ => 0)
  }

  lemma {:induction false} StreamNoBytes(s: seq<byte>, n: nat)
    ensures Stream(s + NoBytes(n), 8) == Stream(s, 8) + Zeros(8 * n)
  {
    hide Stream, Digits;
    if n == 0 {
      assert s + NoBytes(0) == s && Zeros(0) == [];
      var b := Stream(s, 8);
      assert b + [] == b;
    } else {
      assert s + NoBytes(n) == (s + NoBytes(n - 1)) + [0];
      hide Zeros, NoBytes;
      StreamNoBytes(s, n - 1);
      StreamSnoc(s + NoBytes(n - 1), 0, 8);
      DigitsZero(8);
      ZerosAppend(8 * n - 8, 8);
      Regroup(Stream(s, 8), Zeros(8 * n - 8), Zeros(8));
    }
  }

  lemma {:induction false} ValuesOfPadding(n: nat)
    ensures Stream(Values(Equals(n)), 6) == Zeros(6 * n)
  {
    if n == 0 {
      assert Equals(n) == "" && Values("") == [];
    } else {
      assert Equals(n) == Equals(n - 1) + ['='];
      ValuesOfPadding(n - 1);
      OneMorePadding(Equals(n - 1), 6 * n - 6);
    }
  }

  lemma OneMorePadding(t: string, z: nat)
    requires Stream(Values(t), 6) == Zeros(z)
    ensures Stream(Values(t + ['=']), 6) == Zeros(z + 6)
  {
    EqualsIsZero();
    hide *;
    ValuesMore(t, '=');
    StreamSnoc(Values(t), 0, 6);
    DigitsZero(6);
    ZerosAppend(z, 6);
  }

  lemma ZerosAppend(m: nat, n: nat)
    ensures Zeros(m) + Zeros(n) == Zeros(m + n)
  {
  }

  lemma {:induction false} StreamAppend(vs: seq<nat>, us: seq<nat>, w: nat)
    ensures Stream(vs + us, w) == Stream(vs, w) + Stream(us, w)
    decreases |us|
  {
    if us == [] {
      assert vs + us == vs;
      assert Stream(vs, w) + [] == Stream(vs, w);
    } else {
      var n := |us| - 1;
      StreamAppend(vs, us[..n], w);
      assert vs + us == (vs + us[..n]) + [us[n]];
      StreamSnoc(vs + us[..n], us[n], w);
      Regroup(Stream(vs, w), Stream(us[..n], w), Digits(us[n], w));
    }
  }

  /** How many characters of padding a text takes. */
  function Missing(n: nat): (p: nat)
    ensures p < 3
  {
    (3 - n % 3) % 3
  }

  /** The length of unpadded base64. */
  lemma SextetCount(s: seq<byte>)
    ensures |Sextets(s)| * 6 == 8 * |s| + (6 - 8 * |s| % 6) % 6
    ensures |Sextets(s)| + Missing(|s|) == 4 * ((|s| + 2) / 3)
    ensures (6 - 8 * |s| % 6) % 6 + 6 * Missing(|s|) == 8 * Missing(|s|)
  {
    SextetsStream(s);
    StreamLength(s, 8);
    StreamLength(Sextets(s), 6);
    hide Stream, Cut, Sextets;
    Counted(|s|, |Sextets(s)|);
  }

  lemma Counted(n: nat, k: nat)
    requires k * 6 == 8 * n + (6 - 8 * n % 6) % 6
    ensures k + Missing(n) == 4 * ((n + 2) / 3)
    ensures (6 - 8 * n % 6) % 6 + 6 * Missing(n) == 8 * Missing(n)
  {
    var q, r := n / 3, n % 3;
    assert n == 3 * q + r && 8 * n == 6 * (4 * q) + 8 * r;
  }

  lemma PaddedShape(t: string, s: seq<byte>)
    requires |t| == |Sextets(s)|
    ensures FilledUp(t) == t + Equals(Missing(|s|))
    ensures |FilledUp(t)| == 4 * ((|s| + 2) / 3)
  {
    hide Sextets;
    SextetCount(s);
  }

  lemma PaddedBits(t: string, s: seq<byte>, p: nat)
    requires Values(t) == Sextets(s) && p == Missing(|s|)
    ensures Stream(Values(t + Equals(p)), 6) == Stream(s + NoBytes(p), 8)
  {
    var fill, vs := (6 - 8 * |s| % 6) % 6, Sextets(s);
    SextetCount(s);
    SextetsStream(s);
    hide Values, Table, Stream, Cut, Missing, Sextets, Zeros, Small, NoBytes, Equals;
    ValuesOfPadding(p);
    ValuesAppend(t, Equals(p));
    StreamAppend(vs, Values(Equals(p)), 6);
    ZerosAppend(fill, 6 * p);
    Regroup(Stream(s, 8), Zeros(fill), Zeros(6 * p));
    StreamNoBytes(s, p);
  }

  lemma PaddedDecodes(t: string, s: seq<byte>, p: nat)
    requires Legal(t) && Values(t) == Sextets(s) && p == Missing(|s|)
    ensures Decoded(t + Equals(p)) == s + NoBytes(p)
  {
    EqualsIsZero();
    hide Values, Table, Stream, Cut, Missing, Sextets, Zeros, NoBytes;
    assert forall c | c in t + Equals(p) :: c in t || c == '=';
    var padded := s + NoBytes(p);
    PaddedBits(t, s, p);
    BitsBack(padded, 0);
    assert Stream(padded, 8) + Zeros(0) == Stream(padded, 8);
  }

  /**
  Padded base64url is accepted too, but each padding character adds a zero byte:
  the bytes come back exactly when there is no padding.
  */
  lemma PaddingAddsZeros(s: seq<byte>)
    ensures Decoded(FilledUp(Unpadded(s))) == s + NoBytes(Missing(|s|))
    ensures Decoded(FilledUp(Unpadded(s))) == s <==> |s| % 3 == 0
  {
    hide Decoded, Sextets, Spell, FilledUp, Values, Legal;
    PaddedShape(Unpadded(s), s);
    UrlSpelling(Sextets(s));
    PaddedDecodes(Unpadded(s), s, Missing(|s|));
  }

  // ----- a reference decoder for padded base64

  /** The text up to its padding. */
  function BeforePadding(t: string): string
    decreases |t|
  {
    if t != "" && t[|t| - 1] == '=' then BeforePadding(t[..|t| - 1]) else t
  }

  function Meaning(t: string): seq<nat> {
    Cut(Stream(Digested(BeforePadding(t)), 6), 8)
  }

  function Digested(t: string): (vs: seq<nat>) {
    if t == "" then []
    else
      var v := ValueOf(t[|t| - 1], '+', '/');
      Digested(t[..|t| - 1]) + if v >= 0 then [v] else []
  }

  lemma {:induction false} DigestedSpelling(vs: seq<nat>)
    requires Small(vs)
    ensures Digested(Spell(STANDARD, vs)) == vs
    decreases |vs|
  {
    hide ValueOf;
    if vs == [] {
    } else {
      var n := |vs| - 1;
      DigestedSpelling(vs[..n]);
      assert Spell(STANDARD, vs)[..n] == Spell(STANDARD, vs[..n]);
      AlphabetValue(STANDARD, '+', '/', vs[n]);
      assert vs == vs[..n] + [vs[n]];
    }
  }

  lemma {:induction false} PaddingComesOff(t: string, n: nat)
    requires t != "" ==> t[|t| - 1] != '='
    ensures BeforePadding(t + Equals(n)) == t
    decreases n
  {
    if n == 0 {
      assert t + Equals(0) == t;
    } else {
      assert (t + Equals(n))[..|t| + n - 1] == t + Equals(n - 1);
      PaddingComesOff(t, n - 1);
    }
  }

  lemma MeaningOf(t: string, s: seq<byte>, n: nat)
    requires Digested(t) == Sextets(s) && (t != "" ==> t[|t| - 1] != '=')
    ensures Meaning(t + Equals(n)) == s
  {
    hide Sextets, Stream, Cut, Digested, BeforePadding, Zeros;
    PaddingComesOff(t, n);
    SextetsStream(s);
    BitsBack(s, (6 - 8 * |s| % 6) % 6);
  }

  lemma SpellingEndsPlain(vs: seq<nat>)
    requires Small(vs)
    ensures var t := Spell(STANDARD, vs); t != "" ==> t[|t| - 1] != '='
  {
    if vs != [] {
      AlphabetValue(STANDARD, '+', '/', vs[|vs| - 1]);
    }
  }

  /**
  `base64_encode` at any length: four characters for every three bytes begun, the
  last one or two of them padding, and the bytes can be had back.
  */
  lemma EncodedText(s: seq<byte>)
    ensures |Text(STANDARD, s)| == 4 * ((|s| + 2) / 3)
    ensures Text(STANDARD, s) == Spell(STANDARD, Sextets(s)) + Equals(Missing(|s|))
    ensures Meaning(Text(STANDARD, s)) == s
  {
    hide Sextets, Spell, FilledUp, Meaning, Digested, Small;
    var t := Spell(STANDARD, Sextets(s));
    DigestedSpelling(Sextets(s));
    SpellingEndsPlain(Sextets(s));
    PaddedShape(t, s);
    MeaningOf(t, s, Missing(|s|));
  }
}
