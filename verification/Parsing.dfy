/** Byte parsers, the encoders they invert, and the fields of the Bitcoin wire format. */
module Parsing {
  import opened Common

  datatype Parse<+T> = Parsed(value: T, rest: Bytes) | Refused

  /** The parser p accepts exactly the encodings of the values in dom, whatever
      follows them, and consumes exactly their bytes. */
  ghost predicate Inverts<T(!new)>(p: Bytes -> Parse<T>, enc: T -> Bytes, dom: T -> bool) {
    && (forall x, tail :: dom(x) ==> p(enc(x) + tail) == Parsed(x, tail))
    && (forall b :: p(b).Parsed? ==> dom(p(b).value) && b == enc(p(b).value) + p(b).rest)
  }

  lemma Assoc(a: Bytes, b: Bytes, c: Bytes)
    ensures (a + b) + c == a + (b + c)
  {
  }

  // ---------------------------------------------------------------------
  // Fixed-width fields
  // ---------------------------------------------------------------------

  function Pow256(k: nat): (n: nat)
    ensures n > 0
  {
    if k == 0 then 1 else 256 * Pow256(k - 1)
  }

  function LittleEndian(k: nat, v: nat): (b: Bytes)
    ensures |b| == k
  {
    if k == 0 then [] else [v % 256] + LittleEndian(k - 1, v / 256)
  }

  function FromLittleEndian(b: Bytes): nat {
    if b == [] then 0 else b[0] + 256 * FromLittleEndian(b[1..])
  }

  lemma {:induction false} LittleEndianInverse(k: nat, v: nat)
    requires v < Pow256(k)
    ensures FromLittleEndian(LittleEndian(k, v)) == v
  {
    if k > 0 {
      LittleEndianInverse(k - 1, v / 256);
      assert LittleEndian(k, v)[1..] == LittleEndian(k - 1, v / 256);
    }
  }

  lemma LowByte(low: byte, v: nat)
    ensures (low + 256 * v) % 256 == low && (low + 256 * v) / 256 == v
  {
  }

  lemma {:induction false} FromLittleEndianInverse(b: Bytes)
    ensures FromLittleEndian(b) < Pow256(|b|)
    ensures LittleEndian(|b|, FromLittleEndian(b)) == b
  {
    if b != [] {
      FromLittleEndianInverse(b[1..]);
      LowByte(b[0], FromLittleEndian(b[1..]));
      assert b == [b[0]] + b[1..];
    }
  }

  function ParseBytes(n: nat, b: Bytes): Parse<Bytes> {
    if |b| < n then Refused else Parsed(b[..n], b[n..])
  }

  function ParseInt(k: nat, b: Bytes): Parse<nat> {
    if |b| < k then Refused else Parsed(FromLittleEndian(b[..k]), b[k..])
  }

  lemma ParseIntForward(k: nat, v: nat, tail: Bytes)
    requires v < Pow256(k)
    ensures ParseInt(k, LittleEndian(k, v) + tail) == Parsed(v, tail)
  {
    var b := LittleEndian(k, v) + tail;
    assert b[..k] == LittleEndian(k, v) && b[k..] == tail;
    LittleEndianInverse(k, v);
  }

  lemma ParseIntBackward(k: nat, b: Bytes)
    requires ParseInt(k, b).Parsed?
    ensures ParseInt(k, b).value < Pow256(k)
    ensures b == LittleEndian(k, ParseInt(k, b).value) + ParseInt(k, b).rest
  {
    FromLittleEndianInverse(b[..k]);
    assert b == b[..k] + b[k..];
  }

  lemma ParseBytesForward(s: Bytes, tail: Bytes)
    ensures ParseBytes(|s|, s + tail) == Parsed(s, tail)
  {
    assert (s + tail)[..|s|] == s && (s + tail)[|s|..] == tail;
  }

  // ---------------------------------------------------------------------
  // Compact sizes: one, three, five or nine bytes, always the shortest
  // ---------------------------------------------------------------------

  predicate IsU64(v: nat) { v < Pow256(8) }

  lemma Widths()
    ensures Pow256(1) == 0x100 && Pow256(2) == 0x1_0000 && Pow256(4) == 0x1_0000_0000
    ensures Pow256(8) == 0x1_0000_0000_0000_0000
  {
    assert Pow256(3) == 256 * Pow256(2);
    assert Pow256(5) == 256 * Pow256(4);
    assert Pow256(7) == 256 * (256 * Pow256(5));
  }

  function EncodeVarInt(v: nat): Bytes {
    if v < 0xFD then [v]
    else if v < 0x1_0000 then [0xFD] + LittleEndian(2, v)
    else if v < 0x1_0000_0000 then [0xFE] + LittleEndian(4, v)
    else [0xFF] + LittleEndian(8, v)
  }

  function AtLeast(p: Parse<nat>, least: nat): Parse<nat> {
    if p.Parsed? && p.value < least then Refused else p
  }

  function ParseVarInt(b: Bytes): Parse<nat> {
    if b == [] then Refused
    else if b[0] < 0xFD then Parsed(b[0], b[1..])
    else if b[0] == 0xFD then AtLeast(ParseInt(2, b[1..]), 0xFD)
    else if b[0] == 0xFE then AtLeast(ParseInt(4, b[1..]), 0x1_0000)
    else AtLeast(ParseInt(8, b[1..]), 0x1_0000_0000)
  }

  lemma VarIntForward(v: nat, tail: Bytes)
    requires IsU64(v)
    ensures ParseVarInt(EncodeVarInt(v) + tail) == Parsed(v, tail)
  {
    Widths();
    var k := if v < 0xFD then 0 else if v < 0x1_0000 then 2 else if v < 0x1_0000_0000 then 4 else 8;
    if k == 0 {
      assert ([v] + tail)[1..] == tail;
    } else {
      assert (EncodeVarInt(v) + tail)[1..] == LittleEndian(k, v) + tail;
      ParseIntForward(k, v, tail);
    }
  }

  lemma VarIntBackward(b: Bytes)
    requires ParseVarInt(b).Parsed?
    ensures IsU64(ParseVarInt(b).value)
    ensures b == EncodeVarInt(ParseVarInt(b).value) + ParseVarInt(b).rest
  {
    Widths();
    assert b == [b[0]] + b[1..];
    if b[0] >= 0xFD {
      var k := if b[0] == 0xFD then 2 else if b[0] == 0xFE then 4 else 8;
      ParseIntBackward(k, b[1..]);
      var p := ParseInt(k, b[1..]);
      assert EncodeVarInt(p.value) == [b[0]] + LittleEndian(k, p.value);
    }
  }

  // ---------------------------------------------------------------------
  // Length-prefixed byte strings and vectors
  // ---------------------------------------------------------------------

  function EncodeString(s: Bytes): Bytes {
    EncodeVarInt(|s|) + s
  }

  function ParseString(b: Bytes): Parse<Bytes> {
    match ParseVarInt(b)
    case Refused => Refused
    case Parsed(n, rest) => ParseBytes(n, rest)
  }

  predicate Short<T>(s: seq<T>) { IsU64(|s|) }

  lemma StringForward(s: Bytes, tail: Bytes)
    requires Short(s)
    ensures ParseString(EncodeString(s) + tail) == Parsed(s, tail)
  {
    assert EncodeString(s) + tail == EncodeVarInt(|s|) + (s + tail);
    VarIntForward(|s|, s + tail);
    ParseBytesForward(s, tail);
  }

  lemma StringBackward(b: Bytes)
    requires ParseString(b).Parsed?
    ensures Short(ParseString(b).value) && b == EncodeString(ParseString(b).value) + ParseString(b).rest
  {
    VarIntBackward(b);
    var n, rest := ParseVarInt(b).value, ParseVarInt(b).rest;
    var s := ParseString(b);
    assert rest == rest[..n] + rest[n..] == s.value + s.rest;
    assert b == EncodeVarInt(n) + rest == EncodeVarInt(n) + s.value + s.rest;
  }

  lemma StringInverts()
    ensures Inverts(ParseString, EncodeString, Short)
  {
    forall s: Bytes, tail | Short(s) ensures ParseString(EncodeString(s) + tail) == Parsed(s, tail) {
      StringForward(s, tail);
    }
    forall b | ParseString(b).Parsed?
      ensures Short(ParseString(b).value) && b == EncodeString(ParseString(b).value) + ParseString(b).rest
    {
      StringBackward(b);
    }
  }

  function ParseMany<T>(p: Bytes -> Parse<T>, n: nat, b: Bytes): (r: Parse<seq<T>>)
    ensures r.Parsed? ==> |r.value| == n
  {
    if n == 0 then Parsed([], b)
    else match p(b)
      case Refused => Refused
      case Parsed(x, rest) =>
        match ParseMany(p, n - 1, rest)
        case Refused => Refused
        case Parsed(xs, rest') => Parsed([x] + xs, rest')
  }

  /** The first n elements parse as xs and leave rest. */
  ghost predicate ParsesFirst<T>(p: Bytes -> Parse<T>, n: nat, b: Bytes, xs: seq<T>, rest: Bytes) {
    ParseMany(p, n, b) == Parsed(xs, rest)
  }

  /** What one more element makes of them. */
  lemma {:induction false} NextFirst<T>(p: Bytes -> Parse<T>, n: nat, b: Bytes, xs: seq<T>, rest: Bytes)
    requires ParsesFirst(p, n, b, xs, rest)
    ensures p(rest).Refused? ==> ParseMany(p, n + 1, b).Refused?
    ensures p(rest).Parsed? ==> ParsesFirst(p, n + 1, b, xs + [p(rest).value], p(rest).rest)
    decreases n
  {
    if n == 0 {
      assert rest == b && xs == [];
      if p(b).Parsed? {
        assert ParseMany(p, 0, p(b).rest) == Parsed([], p(b).rest);
        assert [p(b).value] + [] == xs + [p(b).value];
      }
    } else {
      var x := p(b);
      var more := ParseMany(p, n - 1, x.rest).value;
      assert xs == [x.value] + more;
      NextFirst(p, n - 1, x.rest, more, rest);
      if p(rest).Parsed? {
        assert [x.value] + (more + [p(rest).value]) == xs + [p(rest).value];
      }
    }
  }

  lemma {:induction false} RefusedStays<T>(p: Bytes -> Parse<T>, k: nat, n: nat, b: Bytes)
    requires k <= n && ParseMany(p, k, b).Refused?
    ensures ParseMany(p, n, b).Refused?
    decreases k
  {
    if p(b).Parsed? {
      RefusedStays(p, k - 1, n - 1, p(b).rest);
    }
  }

  function EncodeMany<T>(enc: T -> Bytes, xs: seq<T>): Bytes {
    if xs == [] then [] else enc(xs[0]) + EncodeMany(enc, xs[1..])
  }

  predicate All<T>(dom: T -> bool, xs: seq<T>) {
    forall i :: 0 <= i < |xs| ==> dom(xs[i])
  }

  lemma {:induction false} ManyForward<T(!new)>(p: Bytes -> Parse<T>, enc: T -> Bytes, dom: T -> bool,
                                                 xs: seq<T>, tail: Bytes)
    requires Inverts(p, enc, dom) && All(dom, xs)
    ensures ParseMany(p, |xs|, EncodeMany(enc, xs) + tail) == Parsed(xs, tail)
    decreases |xs|
  {
    if xs == [] {
      assert EncodeMany(enc, xs) + tail == tail;
    } else {
      var more := EncodeMany(enc, xs[1..]) + tail;
      assert EncodeMany(enc, xs) + tail == enc(xs[0]) + more;
      assert dom(xs[0]);
      ManyForward(p, enc, dom, xs[1..], tail);
      assert xs == [xs[0]] + xs[1..];
    }
  }

  lemma {:induction false} ManyBackward<T(!new)>(p: Bytes -> Parse<T>, enc: T -> Bytes, dom: T -> bool,
                                                  n: nat, b: Bytes)
    requires Inverts(p, enc, dom) && ParseMany(p, n, b).Parsed?
    ensures All(dom, ParseMany(p, n, b).value)
    ensures b == EncodeMany(enc, ParseMany(p, n, b).value) + ParseMany(p, n, b).rest
    decreases n
  {
    if n > 0 {
      ManyBackward(p, enc, dom, n - 1, p(b).rest);
      var more := ParseMany(p, n - 1, p(b).rest);
      assert ParseMany(p, n, b).value[1..] == more.value;
    }
  }

  function EncodeVec<T>(enc: T -> Bytes, xs: seq<T>): Bytes {
    EncodeVarInt(|xs|) + EncodeMany(enc, xs)
  }

  function ParseVec<T>(p: Bytes -> Parse<T>, b: Bytes): Parse<seq<T>> {
    match ParseVarInt(b)
    case Refused => Refused
    case Parsed(n, rest) => ParseMany(p, n, rest)
  }

  lemma VecForward<T(!new)>(p: Bytes -> Parse<T>, enc: T -> Bytes, dom: T -> bool, xs: seq<T>, tail: Bytes)
    requires Inverts(p, enc, dom) && All(dom, xs) && Short(xs)
    ensures ParseVec(p, EncodeVec(enc, xs) + tail) == Parsed(xs, tail)
  {
    assert EncodeVec(enc, xs) + tail == EncodeVarInt(|xs|) + (EncodeMany(enc, xs) + tail);
    VarIntForward(|xs|, EncodeMany(enc, xs) + tail);
    ManyForward(p, enc, dom, xs, tail);
  }

  lemma VecBackward<T(!new)>(p: Bytes -> Parse<T>, enc: T -> Bytes, dom: T -> bool, b: Bytes)
    requires Inverts(p, enc, dom) && ParseVec(p, b).Parsed?
    ensures All(dom, ParseVec(p, b).value) && Short(ParseVec(p, b).value)
    ensures b == EncodeVec(enc, ParseVec(p, b).value) + ParseVec(p, b).rest
  {
    VarIntBackward(b);
    ManyBackward(p, enc, dom, ParseVarInt(b).value, ParseVarInt(b).rest);
  }
}
