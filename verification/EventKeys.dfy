/** The event IDs of the EVM detectors (src/ethereum.rs:981, 1112-1117, 1200-1205,
    2717-2725, 2865-2870). */
module EventKeys {
  import opened Common

  /** A transfer as its ID names it. Hashes and addresses are written in hex. */
  datatype Transfer =
    | Native(hash: string, to: string)
    | Erc20(token: string, hash: string, logIndex: nat)
    | Internal(hash: string, traceId: string, to: string)

  const U64 := 0x1_0000_0000_0000_0000

  predicate IsHex(s: string, digits: nat) {
    |s| == digits + 2 && s[..2] == "0x"
    && forall i :: 2 <= i < |s| ==> '0' <= s[i] <= '9' || 'a' <= s[i] <= 'f' || 'A' <= s[i] <= 'F'
  }

  predicate IsHash(s: string) { IsHex(s, 64) }

  predicate IsAddress(s: string) { IsHex(s, 40) }

  /** A trace ID may be any text at all. */
  predicate WellFormed(x: Transfer) {
    match x
    case Native(h, to) => IsHash(h) && IsAddress(to)
    case Erc20(token, h, n) => IsAddress(token) && IsHash(h) && n < 0x1_0000_0000_0000_0000
    case Internal(h, _, to) => IsHash(h) && IsAddress(to)
  }

  function EventId(x: Transfer): string {
    match x
    case Native(h, to) => "native:" + h + ":" + to
    case Erc20(token, h, n) => "erc20:" + token + ":" + h + ":" + Decimal(n)
    case Internal(h, trace, to) => "internal:" + h + ":" + trace + ":" + to
  }

  // ---------------------------------------------------------------------
  // Decimal numbers
  // ---------------------------------------------------------------------

  function Digit(n: nat): char
    requires n < 10
  {
    '0' + n as char
  }

  predicate IsDigit(c: char) { '0' <= c <= '9' }

  function Decimal(n: nat): (s: string)
    ensures s != "" && forall i :: 0 <= i < |s| ==> IsDigit(s[i])
  {
    if n < 10 then [Digit(n)] else Decimal(n / 10) + [Digit(n % 10)]
  }

  function DigitsValue(s: string): nat
    requires forall i :: 0 <= i < |s| ==> IsDigit(s[i])
  {
    if s == "" then 0 else assert IsDigit(s[|s| - 1]); DigitsValue(s[..|s| - 1]) * 10 + (s[|s| - 1] as int - '0' as int)
  }

  /** `str::parse::<u64>`: digits, perhaps after a plus sign, that fit. */
  function ParseU64(s: string): Option<nat> {
    var d := if s != "" && s[0] == '+' then s[1..] else s;
    if d != "" && (forall i :: 0 <= i < |d| ==> IsDigit(d[i])) && DigitsValue(d) < U64 then Some(DigitsValue(d)) else None
  }

  lemma {:induction false} DecimalRoundTrip(n: nat)
    ensures DigitsValue(Decimal(n)) == n
  {
    var s := Decimal(n);
    if n < 10 {
      assert s[..0] == "";
    } else {
      DecimalRoundTrip(n / 10);
      assert s[..|s| - 1] == Decimal(n / 10);
    }
  }

  lemma ParsePrinted(n: nat)
    ensures ParseU64(Decimal(n)) == if n < U64 then Some(n) else None
  {
    DecimalRoundTrip(n);
    assert IsDigit(Decimal(n)[0]);
  }

  // ---------------------------------------------------------------------
  // The log index
  // ---------------------------------------------------------------------

  /** `rsplit(':').next()`: what follows the last colon. */
  function LastField(s: string): (r: string)
    ensures |r| <= |s| && s[|s| - |r|..] == r && forall i :: 0 <= i < |r| ==> r[i] != ':'
    ensures |r| == |s| || s[|s| - |r| - 1] == ':'
  {
    if s == "" || s[|s| - 1] == ':' then ""
    else
      var r := LastField(s[..|s| - 1]);
      assert s == s[..|s| - 1] + [s[|s| - 1]];
      r + [s[|s| - 1]]
  }

  function EventLogIndex(id: string): Option<nat> {
    if "erc20:" <= id then ParseU64(LastField(id)) else None
  }

  lemma {:induction false} LastFieldIs(s: string, head: string, tail: string)
    requires s == head + ":" + tail && forall i :: 0 <= i < |tail| ==> tail[i] != ':'
    ensures LastField(s) == tail
    decreases |tail|
  {
    if tail == "" {
      assert s[|s| - 1] == ':';
    } else {
      var t := tail[..|tail| - 1];
      assert s[..|s| - 1] == head + ":" + t && s[|s| - 1] == tail[|tail| - 1];
      LastFieldIs(s[..|s| - 1], head, t);
    }
  }

  /** The printed log index is read back from an ERC-20 ID, and nothing from the others. */
  lemma LogIndexExact(x: Transfer)
    requires WellFormed(x)
    ensures EventLogIndex(EventId(x)) == if x.Erc20? then Some(x.logIndex) else None
  {
    var id := EventId(x);
    match x
    case Native(h, to) => assert id[0] == 'n';
    case Internal(h, trace, to) => assert id[0] == 'i';
    case Erc20(token, h, n) =>
      assert id[..6] == "erc20:";
      LastFieldIs(id, "erc20:" + token + ":" + h, Decimal(n));
      ParsePrinted(n);
  }

  // ---------------------------------------------------------------------
  // Injectivity
  // ---------------------------------------------------------------------

  /** Fields of fixed width in front of and behind a free one. */
  lemma FieldsAreUnique(p: string, a: string, m: string, z: string, a': string, m': string, z': string)
    requires |a| == |a'| && |z| == |z'|
    requires p + a + ":" + m + ":" + z == p + a' + ":" + m' + ":" + z'
    ensures a == a' && m == m' && z == z'
  {
    var s := p + a + ":" + m + ":" + z;
    var s' := p + a' + ":" + m' + ":" + z';
    var i, j := |p|, |p| + |a|;
    assert s[i..j] == a && s'[i..j] == a';
    assert |m| == |m'|;
    assert s[j + 1..j + 1 + |m|] == m && s'[j + 1..j + 1 + |m|] == m';
    assert s[|s| - |z|..] == z && s'[|s'| - |z|..] == z';
  }

  lemma TwoFieldsAreUnique(p: string, a: string, z: string, a': string, z': string)
    requires |a| == |a'| && p + a + ":" + z == p + a' + ":" + z'
    ensures a == a' && z == z'
  {
    var s := p + a + ":" + z;
    var s' := p + a' + ":" + z';
    var i, j := |p|, |p| + |a|;
    assert s[i..j] == a && s'[i..j] == a';
    assert s[j + 1..] == z && s'[j + 1..] == z';
  }

  lemma SameKind(x: Transfer, y: Transfer)
    requires EventId(x) == EventId(y)
    ensures (x.Native? <==> y.Native?) && (x.Erc20? <==> y.Erc20?)
  {
    assert EventId(x)[0] == (if x.Native? then 'n' else if x.Erc20? then 'e' else 'i');
    assert EventId(y)[0] == (if y.Native? then 'n' else if y.Erc20? then 'e' else 'i');
  }

  lemma HeadIsUnique(a: string, z: string, a': string, z': string)
    requires |a| == |a'| && a + z == a' + z'
    ensures a == a'
  {
    assert a == (a + z)[..|a|] && a' == (a' + z')[..|a|];
  }

  lemma Erc20Fields(token: string, h: string, d: string, token': string, h': string, d': string)
    requires |token| == |token'| && |h| == |h'|
    requires "erc20:" + token + ":" + h + ":" + d == "erc20:" + token' + ":" + h' + ":" + d'
    ensures token == token' && h == h'
  {
    var z, z' := h + (":" + d), h' + (":" + d');
    assert "erc20:" + token + ":" + h + ":" + d == "erc20:" + token + ":" + z;
    assert "erc20:" + token' + ":" + h' + ":" + d' == "erc20:" + token' + ":" + z';
    TwoFieldsAreUnique("erc20:", token, z, token', z');
    HeadIsUnique(h, ":" + d, h', ":" + d');
  }

  /** Distinct transfers have distinct IDs, even with colons inside a trace ID. */
  lemma EventIdInjective(x: Transfer, y: Transfer)
    requires WellFormed(x) && WellFormed(y)
    ensures EventId(x) == EventId(y) <==> x == y
  {
    if EventId(x) == EventId(y) {
      SameKind(x, y);
      match x
      case Native(h, to) => TwoFieldsAreUnique("native:", h, to, y.hash, y.to);
      case Erc20(token, h, n) =>
        LogIndexExact(x);
        LogIndexExact(y);
        Erc20Fields(token, h, Decimal(n), y.token, y.hash, Decimal(y.logIndex));
      case Internal(h, trace, to) => FieldsAreUnique("internal:", h, trace, to, y.hash, y.traceId, y.to);
    }
  }
}
