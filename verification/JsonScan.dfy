/**
The scanner that cuts the first balanced object out of a response body. Each
`char` of a string here stands for one byte.
*/
module JsonScan {

  datatype Scan = Scan(depth: int, inStr: bool, esc: bool)

  const START := Scan(0, false, false)

  function Feed(s: Scan, c: char): Scan {
    if s.inStr then
      if s.esc then s.(esc := false)
      else if c == '\\' then s.(esc := true)
      else if c == '"' then s.(inStr := false)
      else s
    else
      if c == '"' then s.(inStr := true)
      else if c == '{' then s.(depth := s.depth + 1)
      else if c == '}' then s.(depth := s.depth - 1)
      else s
  }

  function End(s: Scan, t: string): Scan
    decreases |t|
  {
    if t == "" then s else End(Feed(s, t[0]), t[1..])
  }

  /** The text from `i` up to `j` opens and closes every brace outside its strings. */
  predicate Balanced(s: string, i: nat, j: nat) {
    i < j <= |s| && End(START, s[i..j]) == START
  }

  predicate FirstBrace(s: string, i: nat) {
    i < |s| && s[i] == '{' && '{' !in s[..i]
  }

  ghost predicate Shortest(s: string, i: nat, j: nat) {
    Balanced(s, i, j) && forall k: nat | k < j :: !Balanced(s, i, k)
  }

  ghost predicate NoneEndsBy(s: string, i: nat, j: nat) {
    forall k: nat | k <= j :: !Balanced(s, i, k)
  }

  lemma OneMore(s: string, i: nat, j: nat)
    requires i <= j < |s| && NoneEndsBy(s, i, j)
    ensures NoneEndsBy(s, i, j + 1) <==> End(START, s[i..j + 1]) != START
    ensures Shortest(s, i, j + 1) <==> End(START, s[i..j + 1]) == START
  {
    assert Balanced(s, i, j + 1) <==> End(START, s[i..j + 1]) == START;
  }

  /** `r` is the shortest balanced slice from the first brace, or empty when there is none. */
  ghost predicate IsFirstObject(s: string, r: string) {
    if exists i: nat, j: nat :: FirstBrace(s, i) && Balanced(s, i, j)
    then exists i: nat, j: nat :: FirstBrace(s, i) && Shortest(s, i, j) && r == s[i..j]
    else r == ""
  }

  lemma EndSnoc(s: Scan, t: string, c: char)
    ensures End(s, t + [c]) == Feed(End(s, t), c)
    decreases |t|
  {
    if t == "" {
    } else {
      assert (t + [c])[1..] == t[1..] + [c];
      EndSnoc(Feed(s, t[0]), t[1..], c);
    }
  }

  lemma {:induction false} EndAppend(s: Scan, t: string, u: string)
    ensures End(s, t + u) == End(End(s, t), u)
    decreases |t|
  {
    if t == "" {
      assert t + u == u;
    } else {
      assert (t + u)[1..] == t[1..] + u;
      EndAppend(Feed(s, t[0]), t[1..], u);
    }
  }

  lemma FeedSlice(s: string, i: nat, j: nat)
    requires i <= j < |s|
    ensures End(START, s[i..j + 1]) == Feed(End(START, s[i..j]), s[j])
  {
    assert s[i..j + 1] == s[i..j] + [s[j]];
    EndSnoc(START, s[i..j], s[j]);
  }

  /** The loop stands at `j`, past the first brace at `i`, with no balanced slice so far. */
  ghost predicate Walking(s: string, i: nat, j: nat, now: Scan) {
    && FirstBrace(s, i) && i <= j <= |s|
    && now == End(START, s[i..j]) && (now.esc ==> now.inStr)
    && (if j == i then now == START else 0 < now.depth <= j - i)
    && NoneEndsBy(s, i, j)
  }

  lemma WalkingStarts(s: string, i: nat)
    requires FirstBrace(s, i)
    ensures Walking(s, i, i, START)
  {
    assert s[i..i] == "";
  }

  /** A character that leaves a brace open. */
  lemma WalkingOn(s: string, i: nat, j: nat, now: Scan)
    requires Walking(s, i, j, now) && j < |s| && Feed(now, s[j]).depth > 0
    ensures Walking(s, i, j + 1, Feed(now, s[j]))
  {
    hide FirstBrace, End, Balanced, NoneEndsBy, Shortest;
    FeedSlice(s, i, j);
    OneMore(s, i, j);
  }

  /** A character that closes the last one. */
  lemma WalkingEnds(s: string, i: nat, j: nat, now: Scan)
    requires Walking(s, i, j, now) && j < |s| && Feed(now, s[j]).depth == 0
    ensures IsFirstObject(s, s[i..j + 1])
  {
    assert s[i] == '{';
    hide FirstBrace, End, Balanced, NoneEndsBy, Shortest, IsFirstObject;
    FeedSlice(s, i, j);
    OneMore(s, i, j);
    FoundIs(s, i, j + 1);
  }

  lemma NothingFound(s: string, i: nat, now: Scan)
    requires Walking(s, i, |s|, now)
    ensures IsFirstObject(s, "")
  {
    OnlyFirst(s, i);
    hide FirstBrace;
  }

  /** `first_json_object` */
  method FirstJsonObject(s: string) returns (r: string)
    ensures IsFirstObject(s, r)
  {
    var start := 0;
    while start < |s| && s[start] != '{'
      invariant start <= |s| && '{' !in s[..start]
    {
      start := start + 1;
    }
    if start == |s| {
      assert s[..start] == s;
      return "";
    }
    WalkingStarts(s, start);
    var depth, inStr, esc := 0, false, false;
    for j := start to |s|
      invariant Walking(s, start, j, Scan(depth, inStr, esc))
    {
      hide FirstBrace, End, Balanced, NoneEndsBy, Shortest, IsFirstObject;
      ghost var now := Scan(depth, inStr, esc);
      var c := s[j];
      if inStr {
        if esc {
          esc := false;
        } else if c == '\\' {
          esc := true;
        } else if c == '"' {
          inStr := false;
        }
      } else {
        if c == '"' {
          inStr := true;
        } else if c == '{' {
          depth := depth + 1;
        } else if c == '}' {
          depth := depth - 1;
          if depth == 0 {
            WalkingEnds(s, start, j, now);
            return s[start..j + 1];
          }
        }
      }
      WalkingOn(s, start, j, now);
    }
    NothingFound(s, start, Scan(depth, inStr, esc));
    r := "";
  }

  lemma FoundIs(s: string, i: nat, j: nat)
    requires FirstBrace(s, i) && Shortest(s, i, j)
    ensures IsFirstObject(s, s[i..j])
  {
    assert Balanced(s, i, j);
  }

  lemma OnlyFirst(s: string, i: nat)
    requires FirstBrace(s, i)
    ensures forall k: nat | FirstBrace(s, k) :: k == i
  {
    assert forall k: nat | i < k <= |s| :: s[..k][i] == '{';
    assert forall k: nat | k < i :: s[..i][k] == s[k];
  }

  lemma Determined(s: string, i: nat, j: nat, r: string)
    requires FirstBrace(s, i) && Shortest(s, i, j) && IsFirstObject(s, r)
    ensures r == s[i..j]
  {
    OnlyFirst(s, i);
    var i': nat, j': nat :| FirstBrace(s, i') && Shortest(s, i', j') && r == s[i'..j'];
    assert i' == i && !(j' < j) && !(j < j');
  }

  /** Scanning a result again gives it back. */
  lemma Idempotent(s: string, r: string)
    requires IsFirstObject(s, r) && r != ""
    ensures IsFirstObject(r, r)
  {
    var i: nat, j: nat :| FirstBrace(s, i) && Shortest(s, i, j) && r == s[i..j];
    assert r[0] == '{' && r[..0] == "";
    forall k: nat | k <= |r| ensures Balanced(r, 0, k) <==> Balanced(s, i, i + k) {
      assert r[0..k] == s[i..i + k];
    }
    assert r[0..|r|] == r;
    assert FirstBrace(r, 0) && Shortest(r, 0, |r|);
  }

  // ----- printed JSON (sections 2 to 7 of RFC 8259)

  /** A character of a string as it is printed: itself, or behind a backslash. */
  datatype Piece = Raw(c: char) | Escaped(c: char)

  /**
  A JSON text down to its bytes. `Plain` is a number or a literal name; the hex
  digits of a `\\u` escape are raw characters after it. `Spaced` adds whitespace.
  */
  datatype Json =
    | Plain(text: string)
    | Str(pieces: seq<Piece>)
    | Arr(items: Items)
    | Obj(members: Members)
    | Spaced(before: string, value: Json, after: string)

  datatype Items = Nothing(pad: string) | Item(head: Json, tail: Items)

  datatype Members =
    | NoMember(pad: string)
    | Member(before: string, key: seq<Piece>, after: string, value: Json, tail: Members)

  /** Neither quotes nor braces: what the scanner walks over. */
  predicate Quiet(t: string) {
    forall c | c in t :: c != '"' && c != '{' && c != '}'
  }

  predicate PlainPieces(ps: seq<Piece>) {
    forall p | p in ps :: p.Raw? ==> p.c != '"' && p.c != '\\'
  }

  predicate Valid(v: Json) {
    match v
    case Plain(text) => Quiet(text)
    case Str(ps) => PlainPieces(ps)
    case Arr(items) => ValidItems(items)
    case Obj(members) => ValidMembers(members)
    case Spaced(before, w, after) => Quiet(before) && Valid(w) && Quiet(after)
  }

  predicate ValidItems(its: Items) {
    match its
    case Nothing(pad) => Quiet(pad)
    case Item(head, tail) => Valid(head) && ValidItems(tail)
  }

  predicate ValidMembers(ms: Members) {
    match ms
    case NoMember(pad) => Quiet(pad)
    case Member(before, key, after, value, tail) =>
      Quiet(before) && PlainPieces(key) && Quiet(after) && Valid(value) && ValidMembers(tail)
  }

  function PrintPieces(ps: seq<Piece>): string {
    if ps == [] then ""
    else (if ps[0].Raw? then [ps[0].c] else ['\\', ps[0].c]) + PrintPieces(ps[1..])
  }

  function PrintString(ps: seq<Piece>): string {
    "\"" + PrintPieces(ps) + "\""
  }

  function Print(v: Json): string {
    match v
    case Plain(text) => text
    case Str(ps) => PrintString(ps)
    case Arr(items) => "[" + PrintItems(items) + "]"
    case Obj(members) => "{" + PrintMembers(members) + "}"
    case Spaced(before, w, after) => before + Print(w) + after
  }

  function PrintItems(its: Items): string {
    match its
    case Nothing(pad) => pad
    case Item(head, Nothing(pad)) => Print(head) + pad
    case Item(head, tail) => Print(head) + "," + PrintItems(tail)
  }

  function PrintMembers(ms: Members): string {
    match ms
    case NoMember(pad) => pad
    case Member(before, key, after, value, tail) =>
      var me := before + PrintString(key) + after + ":" + Print(value);
      if tail.NoMember? then me + tail.pad else me + "," + PrintMembers(tail)
  }

  // ----- how printed text moves the scanner

  /** Outside strings at depth `d`. */
  function Out(d: int): Scan { Scan(d, false, false) }

  /** Feeding `t` from `s`, the depth never goes below `d`. */
  ghost predicate Above(s: Scan, t: string, d: int)
    decreases |t|
  {
    s.depth >= d && (t != "" ==> Above(Feed(s, t[0]), t[1..], d))
  }

  lemma {:induction false} AboveAppend(s: Scan, t: string, u: string, d: int)
    requires Above(s, t, d) && Above(End(s, t), u, d)
    ensures Above(s, t + u, d)
    decreases |t|
  {
    if t == "" {
      assert t + u == u;
    } else {
      assert (t + u)[1..] == t[1..] + u;
      AboveAppend(Feed(s, t[0]), t[1..], u, d);
    }
  }

  lemma {:induction false} AbovePrefix(s: Scan, t: string, d: int, k: nat)
    requires Above(s, t, d) && k <= |t|
    ensures End(s, t[..k]).depth >= d
    decreases |t|
  {
    if k == 0 {
    } else {
      assert t[..k][1..] == t[1..][..k - 1];
      AbovePrefix(Feed(s, t[0]), t[1..], d, k - 1);
    }
  }

  lemma {:induction false} AboveLess(s: Scan, t: string, d: int, e: int)
    requires Above(s, t, d) && e <= d
    ensures Above(s, t, e)
    decreases |t|
  {
    if t == "" {
    } else {
      AboveLess(Feed(s, t[0]), t[1..], d, e);
    }
  }

  /** Feeding `t` leads from `s` to `e` and never below `d`. */
  ghost predicate Walk(s: Scan, t: string, e: Scan, d: int) {
    End(s, t) == e && Above(s, t, d)
  }

  lemma WalkOn(s: Scan, t: string, m: Scan, u: string, e: Scan, d: int)
    requires Walk(s, t, m, d) && Walk(m, u, e, d)
    ensures Walk(s, t + u, e, d)
  {
    EndAppend(s, t, u);
    AboveAppend(s, t, u, d);
  }

  lemma WalkOne(s: Scan, c: char, d: int)
    requires s.depth >= d && Feed(s, c).depth >= d
    ensures Walk(s, [c], Feed(s, c), d)
  {
    assert [c][1..] == "";
    assert Above(Feed(s, c), "", d);
  }

  lemma WalkNone(s: Scan, d: int)
    requires s.depth >= d
    ensures Walk(s, "", s, d)
  {
  }

  lemma {:induction false} WalkQuiet(t: string, d: int)
    requires Quiet(t)
    ensures Walk(Out(d), t, Out(d), d)
    decreases |t|
  {
    if t == "" {
    } else {
      assert t[0] in t;
      assert forall c | c in t[1..] :: c in t;
      WalkQuiet(t[1..], d);
    }
  }

  /** Printed pieces do not end the string they are in. */
  lemma {:induction false} WalkPieces(ps: seq<Piece>, d: int)
    requires PlainPieces(ps)
    ensures Walk(Scan(d, true, false), PrintPieces(ps), Scan(d, true, false), d)
    decreases |ps|
  {
    hide Walk;
    var s := Scan(d, true, false);
    if ps == [] {
      WalkNone(s, d);
    } else {
      var c := ps[0].c;
      assert ps[0] in ps;
      assert forall p | p in ps[1..] :: p in ps;
      WalkPieces(ps[1..], d);
      if ps[0].Raw? {
        WalkOne(s, c, d);
        WalkOn(s, [c], s, PrintPieces(ps[1..]), s, d);
      } else {
        WalkOne(s, '\\', d);
        WalkOne(Scan(d, true, true), c, d);
        WalkOn(s, ['\\'], Scan(d, true, true), [c], s, d);
        assert ['\\'] + [c] == ['\\', c];
        WalkOn(s, ['\\', c], s, PrintPieces(ps[1..]), s, d);
      }
    }
  }

  lemma WalkString(ps: seq<Piece>, d: int)
    requires PlainPieces(ps)
    ensures Walk(Out(d), PrintString(ps), Out(d), d)
  {
    hide Walk;
    var s := Scan(d, true, false);
    WalkOne(Out(d), '"', d);
    WalkPieces(ps, d);
    WalkOn(Out(d), "\"", s, PrintPieces(ps), s, d);
    WalkOne(s, '"', d);
    WalkOn(Out(d), "\"" + PrintPieces(ps), s, "\"", Out(d), d);
  }

  /** A printed value brings the scanner back to where it was, and never below. */
  lemma {:induction false} WalkValue(v: Json, d: int)
    requires Valid(v)
    ensures Walk(Out(d), Print(v), Out(d), d)
    decreases v, 1
  {
    hide Walk;
    match v
    case Plain(text) => WalkQuiet(text, d);
    case Str(ps) => WalkString(ps, d);
    case Arr(items) =>
      WalkOne(Out(d), '[', d);
      WalkItems(items, d);
      WalkOn(Out(d), "[", Out(d), PrintItems(items), Out(d), d);
      WalkOne(Out(d), ']', d);
      WalkOn(Out(d), "[" + PrintItems(items), Out(d), "]", Out(d), d);
    case Obj(members) =>
      WalkMembers(members, d + 1);
      WalkBraces(PrintMembers(members), d);
    case Spaced(before, w, after) =>
      WalkQuiet(before, d);
      WalkValue(w, d);
      WalkOn(Out(d), before, Out(d), Print(w), Out(d), d);
      WalkQuiet(after, d);
      WalkOn(Out(d), before + Print(w), Out(d), after, Out(d), d);
  }

  lemma WalkBraces(t: string, d: int)
    requires Walk(Out(d + 1), t, Out(d + 1), d + 1)
    ensures Walk(Out(d), "{" + t + "}", Out(d), d)
  {
    AboveLess(Out(d + 1), t, d + 1, d);
    WalkOne(Out(d), '{', d);
    WalkOn(Out(d), "{", Out(d + 1), t, Out(d + 1), d);
    WalkOne(Out(d + 1), '}', d);
    WalkOn(Out(d), "{" + t, Out(d + 1), "}", Out(d), d);
  }

  lemma {:induction false} WalkItems(its: Items, d: int)
    requires ValidItems(its)
    ensures Walk(Out(d), PrintItems(its), Out(d), d)
    decreases its, 0
  {
    hide Walk;
    match its
    case Nothing(pad) => WalkQuiet(pad, d);
    case Item(head, tail) =>
      WalkValue(head, d);
      WalkItems(tail, d);
      if tail.Nothing? {
        WalkOn(Out(d), Print(head), Out(d), tail.pad, Out(d), d);
      } else {
        WalkOne(Out(d), ',', d);
        WalkOn(Out(d), Print(head), Out(d), ",", Out(d), d);
        WalkOn(Out(d), Print(head) + ",", Out(d), PrintItems(tail), Out(d), d);
      }
  }

  lemma {:induction false} WalkMembers(ms: Members, d: int)
    requires ValidMembers(ms)
    ensures Walk(Out(d), PrintMembers(ms), Out(d), d)
    decreases ms, 0
  {
    hide Walk;
    match ms
    case NoMember(pad) => WalkQuiet(pad, d);
    case Member(before, key, after, value, tail) =>
      var o := Out(d);
      WalkQuiet(before, d);
      WalkString(key, d);
      WalkOn(o, before, o, PrintString(key), o, d);
      WalkQuiet(after, d);
      WalkOn(o, before + PrintString(key), o, after, o, d);
      WalkOne(o, ':', d);
      WalkOn(o, before + PrintString(key) + after, o, ":", o, d);
      WalkValue(value, d);
      WalkOn(o, before + PrintString(key) + after + ":", o, Print(value), o, d);
      var me := before + PrintString(key) + after + ":" + Print(value);
      WalkMembers(tail, d);
      if tail.NoMember? {
        WalkOn(o, me, o, tail.pad, o, d);
      } else {
        WalkOne(o, ',', d);
        WalkOn(o, me, o, ",", o, d);
        WalkOn(o, me + ",", o, PrintMembers(tail), o, d);
      }
  }

  /** A printed object is a shortest balanced slice wherever it stands. */
  lemma ObjectIsShortest(prefix: string, members: Members, suffix: string)
    requires ValidMembers(members)
    ensures var text := Print(Obj(members));
      Shortest(prefix + text + suffix, |prefix|, |prefix| + |text|)
  {
    var text, inner := Print(Obj(members)), PrintMembers(members);
    var s, i := prefix + text + suffix, |prefix|;
    WalkValue(Obj(members), 0);
    assert s[i..i + |text|] == text;
    WalkMembers(members, 1);
    forall k: nat | i < k < i + |text| ensures !Balanced(s, i, k) {
      var n := k - i;
      assert s[i..k] == text[..n] == "{" + inner[..n - 1];
      WalkOne(Out(0), '{', 0);
      EndAppend(Out(0), "{", inner[..n - 1]);
      AbovePrefix(Out(1), inner, 1, n - 1);
    }
  }

  /**
  Whatever surrounds a printed object, as long as no brace comes before it, the
  scanner returns exactly the object's text.
  */
  lemma FindsPrintedObject(prefix: string, members: Members, suffix: string, r: string)
    requires ValidMembers(members) && '{' !in prefix
    requires IsFirstObject(prefix + Print(Obj(members)) + suffix, r)
    ensures r == Print(Obj(members))
  {
    var text := Print(Obj(members));
    var s := prefix + text + suffix;
    ObjectIsShortest(prefix, members, suffix);
    assert s[..|prefix|] == prefix && s[|prefix|] == '{';
    Determined(s, |prefix|, |prefix| + |text|, r);
    assert s[|prefix|..|prefix| + |text|] == text;
  }

  // ----- the whole of response normalisation

  const BOM: string := "\U{EF}\U{BB}\U{BF}"
  const GUARD := ")]}'"

  /** The position of the first newline, or the length. */
  function NewlineAt(s: string): (n: nat)
    ensures n <= |s| && '\n' !in s[..n] && (n < |s| ==> s[n] == '\n')
  {
    if s == "" || s[0] == '\n' then 0
    else
      var n := NewlineAt(s[1..]);
      assert s[..n + 1] == [s[0]] + s[1..][..n];
      n + 1
  }

  /** The body without a byte order mark. */
  function WithoutBom(s: string): string {
    if BOM <= s then s[3..] else s
  }

  /** The body without an anti-hijacking guard and the rest of its line. */
  function WithoutGuard(s: string): string {
    if GUARD <= s then
      var n := NewlineAt(s);
      if n < |s| then s[n + 1..] else s[4..]
    else s
  }

  /** `normalize_apple_json_body` */
  method Normalize(raw: string) returns (s: string)
    ensures s == WithoutGuard(WithoutBom(raw))
  {
    s := raw;
    if |s| >= 3 && s[0] == BOM[0] && s[1] == BOM[1] && s[2] == BOM[2] {
      s := s[3..];
    }
    if |s| >= 4 && s[0] == ')' && s[1] == ']' && s[2] == '}' && s[3] == '\'' {
      var nl := 0;
      while nl < |s| && s[nl] != '\n'
        invariant nl <= |s| && '\n' !in s[..nl]
      {
        nl := nl + 1;
      }
      NewlineIs(s, nl);
      if nl < |s| {
        s := s[nl + 1..];
      } else {
        s := s[4..];
      }
    }
  }

  lemma NewlineIs(s: string, n: nat)
    requires n <= |s| && '\n' !in s[..n] && (n < |s| ==> s[n] == '\n')
    ensures NewlineAt(s) == n
  {
    var m := NewlineAt(s);
    assert forall k | 0 <= k < n :: s[..n][k] == s[k];
    assert forall k | 0 <= k < m :: s[..m][k] == s[k];
  }

  /** A guard on a line of its own, with or without a byte order mark, comes off whole. */
  lemma UnwrapsBody(bom: string, line: string, text: string)
    requires bom == "" || bom == BOM
    requires GUARD <= line && '\n' !in line
    ensures WithoutGuard(WithoutBom(bom + line + "\n" + text)) == text
  {
    hide NewlineAt, WithoutBom;
    var s, n := line + "\n" + text, |line|;
    assert bom + line + "\n" + text == bom + s;
    assert line[0] == ')' && line[1] == ']' && line[2] == '}' && line[3] == '\'';
    BomComesOff(bom, s);
    assert s[..n] == line && s[n] == '\n' && s[n + 1..] == text;
    NewlineIs(s, n);
  }

  lemma BomComesOff(bom: string, s: string)
    requires bom == "" || bom == BOM
    requires s != "" && s[0] == ')'
    ensures WithoutBom(bom + s) == s
  {
    assert (bom + s)[|bom|..] == s;
  }

  /**
  A guard on the same line as the text comes off cleanly exactly when the text is
  all on that line; otherwise the text's own first line is lost with it.
  */
  lemma SameLineGuard(text: string)
    ensures WithoutGuard(WithoutBom(GUARD + text)) == text <==> '\n' !in text
  {
    var s := GUARD + text;
    assert s[0] == ')' && WithoutBom(s) == s;
    var n := NewlineAt(s);
    if '\n' in text {
      var i :| 0 <= i < |text| && text[i] == '\n';
      assert s[4 + i] == '\n';
      assert forall k | 0 <= k < n :: s[..n][k] == s[k];
      assert |s[n + 1..]| < |text| by {
        assert s[0] != '\n' && s[1] != '\n' && s[2] != '\n' && s[3] != '\n';
      }
    } else {
      assert forall i | 0 <= i < |s| :: s[i] != '\n';
    }
  }

  /** Without a mark or a guard in front nothing comes off, and after a mark alone nothing else. */
  lemma PlainBodyStays(bom: string, text: string)
    requires bom == "" || bom == BOM
    requires !(GUARD <= text) && (bom == "" ==> !(BOM <= text))
    ensures WithoutGuard(WithoutBom(bom + text)) == text
  {
    assert (bom + text)[|bom|..] == text;
  }

  /** What stands before an object does not take part of it along. */
  predicate Clean(prefix: string) {
    GUARD <= WithoutBom(prefix) ==> '\n' in prefix
  }

  lemma StartsAlike(mark: string, prefix: string, text: string, rest: string)
    requires text != "" && text[0] == '{' && '{' !in mark
    ensures mark <= prefix + text + rest <==> mark <= prefix
  {
    var s := prefix + text + rest;
    var n := |prefix|;
    assert s[n] == '{' && s[..n] == prefix;
    assert mark <= s ==> forall m | 0 <= m < |mark| :: mark[m] == s[m];
  }

  lemma BomOff(prefix: string, text: string, rest: string)
    requires text != "" && text[0] == '{'
    ensures WithoutBom(prefix + text + rest) == WithoutBom(prefix) + text + rest
  {
    StartsAlike(BOM, prefix, text, rest);
    if BOM <= prefix {
      assert (prefix + text + rest)[3..] == prefix[3..] + text + rest;
    }
  }

  lemma NewlineIn(p: string, rest: string)
    requires '\n' in p
    ensures NewlineAt(p + rest) == NewlineAt(p) < |p|
  {
    var n := NewlineAt(p);
    assert p[..|p|] == p;
    assert (p + rest)[..n] == p[..n] && (n < |p| ==> (p + rest)[n] == p[n]);
    NewlineIs(p + rest, n);
  }

  lemma GuardOff(prefix: string, text: string, rest: string)
    requires text != "" && text[0] == '{' && (GUARD <= prefix ==> '\n' in prefix)
    ensures WithoutGuard(prefix + text + rest) == WithoutGuard(prefix) + text + rest
  {
    StartsAlike(GUARD, prefix, text, rest);
    if GUARD <= prefix {
      NewlineIn(prefix, text + rest);
      assert prefix + text + rest == prefix + (text + rest);
      var n := NewlineAt(prefix);
      assert (prefix + text + rest)[n + 1..] == prefix[n + 1..] + text + rest;
    }
  }

  /** What comes off a clean prefix leaves the object, and what follows it, alone. */
  lemma CleanOff(prefix: string, text: string, rest: string) returns (left: string)
    requires text != "" && text[0] == '{' && '{' !in prefix && Clean(prefix)
    ensures WithoutGuard(WithoutBom(prefix + text + rest)) == left + text + rest && '{' !in left
  {
    BomOff(prefix, text, rest);
    var p := WithoutBom(prefix);
    assert '\n' in prefix ==> '\n' in p by {
      assert BOM <= prefix ==> prefix == BOM + p;
    }
    assert '{' !in p;
    GuardOff(p, text, rest);
    left := WithoutGuard(p);
    assert '{' !in left;
  }

  /** `r` is the first object of the normalised body. */
  ghost predicate Extracted(body: string, r: string) {
    IsFirstObject(WithoutGuard(WithoutBom(body)), r)
  }

  /** A printed object comes out whole, whatever clean text without a brace stands before it and whatever follows it. */
  lemma ExtractsObject(prefix: string, members: Members, suffix: string, r: string)
    requires ValidMembers(members) && '{' !in prefix && Clean(prefix)
    requires Extracted(prefix + Print(Obj(members)) + suffix, r)
    ensures r == Print(Obj(members))
  {
    hide PrintMembers, WithoutGuard, WithoutBom, IsFirstObject, ValidMembers;
    var left := CleanOff(prefix, Print(Obj(members)), suffix);
    FindsPrintedObject(left, members, suffix, r);
  }

  lemma {:induction false} SomeShortest(s: string, i: nat, j: nat) returns (k: nat)
    requires Balanced(s, i, j)
    ensures Shortest(s, i, k)
    decreases j
  {
    hide Balanced;
    if n: nat :| n < j && Balanced(s, i, n) {
      k := SomeShortest(s, i, n);
    } else {
      k := j;
    }
  }

  lemma SomeObject(s: string) returns (r: string)
    ensures IsFirstObject(s, r) && |r| <= |s|
  {
    hide FirstBrace;
    r := "";
    if i: nat, j: nat :| FirstBrace(s, i) && Balanced(s, i, j) {
      var k := SomeShortest(s, i, j);
      r := s[i..k];
    }
  }

  /** A guard takes its whole line, and the line is the object's own. */
  lemma GuardTakesMore(prefix: string, text: string)
    requires text != "" && text[0] == '{' && !Clean(prefix)
    ensures |WithoutGuard(WithoutBom(prefix + text + "\n"))| < |text|
  {
    BomOff(prefix, text, "\n");
    var p := WithoutBom(prefix);
    var s := p + text + "\n";
    StartsAlike(GUARD, p, text, "\n");
    assert s[|s| - 1] == '\n';
    var n := NewlineAt(s);
    assert forall k | 0 <= k <= |p| :: s[k] != '\n' by {
      assert s[..|p|] == p && s[|p|] == '{';
    }
    assert |p| < n < |s|;
  }

  /** Whatever follows, the object is what comes out. */
  ghost predicate AlwaysFound(prefix: string, text: string) {
    forall suffix, r | Extracted(prefix + text + suffix, r) :: r == text
  }

  /**
  The extraction is right for every text that follows exactly when the text before
  the object is clean: no guard, or one with its line ended.
  */
  lemma ExtractsExactly(prefix: string, members: Members)
    requires ValidMembers(members) && '{' !in prefix
    ensures AlwaysFound(prefix, Print(Obj(members))) <==> Clean(prefix)
  {
    var text := Print(Obj(members));
    assert text[0] == '{';
    if Clean(prefix) {
      hide Print, ValidMembers, Extracted, Clean;
      forall suffix, r | Extracted(prefix + text + suffix, r) ensures r == text {
        ExtractsObject(prefix, members, suffix, r);
      }
    } else {
      NotAlwaysFound(prefix, text);
    }
  }

  lemma NotAlwaysFound(prefix: string, text: string)
    requires text != "" && text[0] == '{' && !Clean(prefix)
    ensures !AlwaysFound(prefix, text)
  {
    GuardTakesMore(prefix, text);
    hide WithoutGuard, WithoutBom, IsFirstObject, Clean;
    var r := SomeObject(WithoutGuard(WithoutBom(prefix + text + "\n")));
    assert Extracted(prefix + text + "\n", r);
  }

  /** The first half of `parse_apple_response_json`: the text handed to the JSON parser. */
  method ExtractObject(body: string) returns (r: string)
    ensures Extracted(body, r)
  {
    var s := Normalize(body);
    r := FirstJsonObject(s);
  }
}
