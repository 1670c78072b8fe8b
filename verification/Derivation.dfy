/** Base58Check and the Litecoin "Ltub" normalisation of extended public keys
    (src/derivation.rs). */
module Derivation {
  import opened Common
  import opened Radix

  /** Double SHA-256, left uninterpreted: any total function with 32-byte results. */
  type Sha256d = f: Bytes -> Bytes | forall p :: |f(p)| == 32
    witness (_: Bytes) => seq(32, _ => 0)

  const LTC_XPUB_VERSION: Bytes := [0x01, 0x9D, 0xA4, 0x62] // Ltub
  const BTC_XPUB_VERSION: Bytes := [0x04, 0x88, 0xB2, 0x1E] // xpub

  // ---------------------------------------------------------------------
  // The alphabet
  // ---------------------------------------------------------------------

  /** The Base58 alphabet, "1-9A-HJ-NP-Za-km-z", by index. */
  function Symbol(i: nat): (c: char)
    requires i < 58
  {
    if i < 9 then ('1' as int + i) as char
    else if i < 17 then ('A' as int + i - 9) as char
    else if i < 22 then ('J' as int + i - 17) as char
    else if i < 33 then ('P' as int + i - 22) as char
    else if i < 44 then ('a' as int + i - 33) as char
    else ('m' as int + i - 44) as char
  }

  predicate IsSymbol(c: char) {
    && ('0' <= c <= '9' || 'A' <= c <= 'Z' || 'a' <= c <= 'z')
    && c != '0' && c != 'O' && c != 'I' && c != 'l'
  }

  /** `alphabet.iter().position(..)`: the index of c, or 58. */
  function Position(c: char, from: nat := 0): (i: nat)
    requires from <= 58
    ensures from <= i <= 58
    ensures i < 58 ==> Symbol(i) == c
    ensures forall j :: from <= j < i ==> Symbol(j) != c
    decreases 58 - from
  {
    if from == 58 || Symbol(from) == c then from else Position(c, from + 1)
  }

  lemma SymbolsAscend(i: nat, j: nat)
    requires i < j < 58
    ensures Symbol(i) < Symbol(j)
  {
  }

  /** The index of a symbol, in closed form. */
  function SymbolIndex(c: char): (k: nat)
    requires IsSymbol(c)
    ensures k < 58 && Symbol(k) == c
  {
    var n := c as int;
    if c <= '9' then n - '1' as int
    else if c <= 'H' then n - 'A' as int + 9
    else if c <= 'N' then n - 'J' as int + 17
    else if c <= 'Z' then n - 'P' as int + 22
    else if c <= 'k' then n - 'a' as int + 33
    else n - 'm' as int + 44
  }

  lemma IndexOfSymbol(i: nat)
    requires i < 58
    ensures IsSymbol(Symbol(i)) && SymbolIndex(Symbol(i)) == i
  {
  }

  /** The search finds exactly the letters and digits other than 0, O, I and l, each
      at its own index. */
  lemma PositionFinds(c: char)
    ensures Position(c) < 58 <==> IsSymbol(c)
    ensures forall i :: 0 <= i < 58 && Symbol(i) == c ==> Position(c) == i
  {
    var p := Position(c);
    assert IsSymbol(c) ==> Symbol(SymbolIndex(c)) == c;
    if p < 58 {
      assert IsSymbol(Symbol(p));
      forall i | 0 <= i < 58 && Symbol(i) == c ensures p == i {
        if i < p { SymbolsAscend(i, p); }
        if p < i { SymbolsAscend(p, i); }
      }
    }
  }

  // ---------------------------------------------------------------------
  // What the codec means
  // ---------------------------------------------------------------------

  predicate IsBase58(s: string) {
    forall i :: 0 <= i < |s| ==> IsSymbol(s[i])
  }

  function DigitsOf(s: string): (d: seq<nat>)
    requires IsBase58(s)
    ensures |d| == |s| && forall i :: 0 <= i < |d| ==> d[i] < 58 && Symbol(d[i]) == s[i]
  {
    seq(|s|, i requires 0 <= i < |s| => SymbolIndex(s[i]))
  }

  function CharsOf(d: seq<nat>): (s: string)
    requires forall i :: 0 <= i < |d| ==> d[i] < 58
    ensures |s| == |d| && forall i :: 0 <= i < |s| ==> s[i] == Symbol(d[i])
  {
    seq(|d|, i requires 0 <= i < |d| => Symbol(d[i]))
  }

  /** The bytes as plain numbers, and back. */
  function Nats(b: Bytes): (s: seq<nat>)
    ensures |s| == |b| && forall i :: 0 <= i < |s| ==> s[i] == b[i]
  {
    seq(|b|, i requires 0 <= i < |b| => b[i])
  }

  function AsBytes(s: seq<nat>): (b: Bytes)
    requires forall i :: 0 <= i < |s| ==> s[i] < 256
    ensures |b| == |s| && forall i :: 0 <= i < |b| ==> b[i] == s[i]
  {
    seq(|s|, i requires 0 <= i < |s| => s[i])
  }

  /** The string that Base58Check assigns to a payload. */
  ghost function EncodedForm(h: Sha256d, payload: Bytes): string {
    var data := payload + h(payload)[..4];
    ConvertInverse(256, 58, Nats(data));
    CharsOf(Convert(256, 58, Nats(data)))
  }

  /** The byte string behind a Base58 string, checksum included. */
  ghost function RawBytes(s: string): Bytes
    requires IsBase58(s)
  {
    ConvertInverse(58, 256, DigitsOf(s));
    AsBytes(Convert(58, 256, DigitsOf(s)))
  }

  /** Which strings decode, and to what: Base58 characters, at least four bytes, and
      the last four bytes are the checksum of the others. */
  ghost predicate DecodesTo(h: Sha256d, s: string, payload: Bytes) {
    IsBase58(s) && RawBytes(s) == payload + h(payload)[..4]
  }

  lemma {:induction false} DecodeInvertsEncode(h: Sha256d, payload: Bytes)
    ensures DecodesTo(h, EncodedForm(h, payload), payload)
  {
    var data := payload + h(payload)[..4];
    var digits := Convert(256, 58, Nats(data));
    ConvertInverse(256, 58, Nats(data));
    var s := CharsOf(digits);
    forall i | 0 <= i < |s| ensures DigitsOf(s)[i] == digits[i] {
      IndexOfSymbol(digits[i]);
    }
    assert DigitsOf(s) == digits;
    assert RawBytes(s) == data;
  }

  lemma {:induction false} EncodeInvertsDecode(h: Sha256d, s: string, payload: Bytes)
    requires DecodesTo(h, s, payload)
    ensures EncodedForm(h, payload) == s
  {
    var data := RawBytes(s);
    ConvertInverse(58, 256, DigitsOf(s));
    assert Nats(data) == Convert(58, 256, DigitsOf(s));
  }

  /** Payloads and accepted strings correspond one to one. */
  lemma Base58CheckIsBijection(h: Sha256d, s: string, payload: Bytes)
    ensures DecodesTo(h, s, payload) <==> s == EncodedForm(h, payload)
  {
    if DecodesTo(h, s, payload) {
      EncodeInvertsDecode(h, s, payload);
    }
    DecodeInvertsEncode(h, payload);
  }

  // ---------------------------------------------------------------------
  // The loops
  // ---------------------------------------------------------------------

  /** `base58_decode_check`. */
  method Base58DecodeCheck(h: Sha256d, input: string) returns (r: Result<Bytes>)
    ensures r.Ok? ==> DecodesTo(h, input, r.value)
    ensures r.Err? ==> forall p :: !DecodesTo(h, input, p)
  {
    var number := DecodeNumber(input);
    if number.Err? {
      return Err(number.error);
    }
    var result := KeepLeadingOnes(input, number.value);
    if |result| < 4 {
      return Err("Decoded data too short for checksum");
    }
    var data := AsBytes(result);
    assert data == RawBytes(input);
    var payload := data[..|data| - 4];
    var checksum := data[|data| - 4..];
    assert data == payload + checksum;
    if checksum != h(payload)[..4] {
      forall p ensures !DecodesTo(h, input, p) {
        ChecksumSplit(h, data, p);
      }
      return Err("Checksum mismatch");
    }
    return Ok(payload);
  }

  lemma ChecksumSplit(h: Sha256d, data: Bytes, p: Bytes)
    requires |data| >= 4
    ensures data == p + h(p)[..4] ==> p == data[..|data| - 4] && h(p)[..4] == data[|data| - 4..]
  {
  }

  /** The first loop of the decoder: the number the input spells in base 58. */
  method DecodeNumber(input: string) returns (r: Result<seq<nat>>)
    ensures r.Ok? <==> IsBase58(input)
    ensures r.Ok? ==> InRange(256, r.value) && r.value == Digits(256, Value(58, DigitsOf(input)))
  {
    var result: seq<nat> := [];
    var k := 0;
    while k < |input|
      invariant k <= |input|
      invariant IsBase58(input[..k])
      invariant InRange(256, result)
      invariant result == Digits(256, Value(58, DigitsOf(input[..k])))
    {
      var pos := Position(input[k]);
      PositionFinds(input[k]);
      if pos == 58 {
        return Err("Invalid base58 character");
      }
      ghost var before := result;
      result := AccumulateDigit(result, pos);
      IndexOfSymbol(pos);
      NextDigit(input, k, before, result, pos);
      k := k + 1;
    }
    assert input[..|input|] == input;
    return Ok(result);
  }

  /** The second loop of the decoder: a zero byte for every leading '1'. */
  method KeepLeadingOnes(input: string, digits: seq<nat>) returns (result: seq<nat>)
    requires IsBase58(input) && digits == Digits(256, Value(58, DigitsOf(input)))
    ensures result == Convert(58, 256, DigitsOf(input)) && InRange(256, result)
  {
    result := digits;
    var j := 0;
    while j < |input| && input[j] == '1'
      invariant j <= |input|
      invariant forall i :: 0 <= i < j ==> input[i] == '1'
      invariant result == Zeros(j) + digits
    {
      OneZeroMore(j, digits);
      result := [0] + result;
      j := j + 1;
    }
    LeadingOnesDone(input, j);
  }

  /** The carry loop of the decoder: times 58 plus pos, most significant byte first. */
  method AccumulateDigit(before: seq<nat>, pos: nat) returns (result: seq<nat>)
    requires InRange(256, before) && pos < 58
    ensures result == MulAdd(256, 58, before, pos)
    ensures InRange(256, result)
  {
    result := before;
    var carry := pos;
    var i := |result|;
    assert before[..i] == before;
    while i > 0
      invariant 0 <= i <= |result| == |before| && carry < 58 && InRange(256, result)
      invariant Carried(256, 58, before, pos, result, i, carry)
    {
      i := i - 1;
      CarryDigit(before, pos, result, i, carry);
      carry := carry + result[i] * 58;
      result := result[i := carry % 256];
      carry := carry / 256;
    }
    assert before[..0] == [] && result[0..] == result;
    while carry > 0
      invariant 0 <= carry < 58
      invariant InRange(256, result)
      invariant MulAdd(256, 58, before, pos) == Digits(256, carry) + result
    {
      assert Digits(256, carry) + result == Digits(256, carry / 256) + ([carry % 256] + result);
      result := [carry % 256] + result;
      carry := carry / 256;
    }
  }

  /** The carry has passed the digits from i on; those before are untouched. */
  ghost predicate Carried(b: nat, m: nat, before: seq<nat>, c: nat, result: seq<nat>, i: nat, carry: nat)
    requires b >= 2
  {
    && i <= |result| == |before| && result[..i] == before[..i]
    && MulAdd(b, m, before, c) == MulAdd(b, m, before[..i], carry) + result[i..]
  }

  lemma CarryDigit(before: seq<nat>, pos: nat, result: seq<nat>, i: nat, carry: nat)
    requires InRange(256, result) && carry < 58 && i < |result| && Carried(256, 58, before, pos, result, i + 1, carry)
    ensures var c := carry + result[i] * 58; var r := result[i := c % 256];
            c / 256 < 58 && InRange(256, r) && Carried(256, 58, before, pos, r, i, c / 256)
  {
    var c := carry + result[i] * 58;
    assert result[i] == result[..i + 1][i] == before[i];
    MulAddStep(256, 58, before, i, carry);
    assert result[..i] == result[..i + 1][..i] == before[..i];
    assert result[i := c % 256][i..] == [c % 256] + result[i + 1..];
  }

  lemma MulAddStep(b: nat, m: nat, s: seq<nat>, i: nat, c: nat)
    requires b >= 2 && i < |s|
    ensures var carry := c + s[i] * m;
            MulAdd(b, m, s[..i + 1], c) == MulAdd(b, m, s[..i], carry / b) + [carry % b]
  {
    assert s[..i + 1][..i] == s[..i];
  }

  /** One input character extends the number read so far by one digit. */
  lemma NextDigit(input: string, k: nat, before: seq<nat>, after: seq<nat>, pos: nat)
    requires k < |input| && IsBase58(input[..k])
    requires IsSymbol(input[k]) && pos == SymbolIndex(input[k])
    requires before == Digits(256, Value(58, DigitsOf(input[..k])))
    requires after == MulAdd(256, 58, before, pos)
    ensures IsBase58(input[..k + 1])
    ensures after == Digits(256, Value(58, DigitsOf(input[..k + 1])))
  {
    assert input[..k + 1] == input[..k] + [input[k]];
    var n := Value(58, DigitsOf(input[..k]));
    DigitsCanonical(256, n);
    MulAddCanonical(256, 58, before, pos);
    assert DigitsOf(input[..k + 1]) == DigitsOf(input[..k]) + [pos];
    ValueAppend(58, DigitsOf(input[..k]), pos);
  }

  lemma OneZeroMore(j: nat, s: seq<nat>)
    ensures [0] + (Zeros(j) + s) == Zeros(j + 1) + s
  {
  }

  lemma LeadingOnesDone(input: string, j: nat)
    requires IsBase58(input) && j <= |input|
    requires forall i :: 0 <= i < j ==> input[i] == '1'
    requires j < |input| ==> input[j] != '1'
    ensures var c := Convert(58, 256, DigitsOf(input));
            c == Zeros(j) + Digits(256, Value(58, DigitsOf(input))) && InRange(256, c)
  {
    LeadingOnes(input, j);
    ConvertInverse(58, 256, DigitsOf(input));
  }

  lemma LeadingOnes(input: string, j: nat)
    requires IsBase58(input) && j <= |input|
    requires forall i :: 0 <= i < j ==> input[i] == '1'
    requires j < |input| ==> input[j] != '1'
    ensures LeadingZeros(DigitsOf(input)) == j
  {
    IndexOfSymbol(0);
    var d := DigitsOf(input);
    assert forall i :: 0 <= i < j ==> d[i] == 0;
    assert j < |input| ==> d[j] != 0;
    assert d == Zeros(j) + d[j..];
    LeadingZerosUnique(j, d[j..]);
  }

  /** `base58_encode_check`; `num` holds its digits least significant first. */
  method Base58EncodeCheck(h: Sha256d, payload: Bytes) returns (result: string)
    ensures result == EncodedForm(h, payload)
  {
    var data := payload + h(payload)[..4];
    var num: seq<nat> := [];
    var k := 0;
    while k < |data|
      invariant k <= |data|
      invariant InRange(58, num)
      invariant Reversed(num) == Digits(58, Value(256, Nats(data[..k])))
    {
      ghost var before := num;
      num := AccumulateByte(num, data[k]);
      NextByte(data, k, Reversed(before), Reversed(num));
      k := k + 1;
    }
    assert data[..|data|] == data;

    result := SpellNumber(data, num);
  }

  /** The last two loops of the encoder: a '1' for every leading zero byte, then the
      digits, most significant first. */
  method SpellNumber(data: Bytes, num: seq<nat>) returns (result: string)
    requires InRange(58, num) && Reversed(num) == Digits(58, Value(256, Nats(data)))
    ensures InRange(58, Convert(256, 58, Nats(data)))
    ensures result == CharsOf(Convert(256, 58, Nats(data)))
  {
    result := "";
    var j := 0;
    while j < |data| && data[j] == 0
      invariant j <= |data| && |result| == j
      invariant forall i :: 0 <= i < j ==> data[i] == 0 && result[i] == '1'
    {
      result := result + ['1'];
      j := j + 1;
    }
    LeadingZeroBytes(data, j, num);
    result := AppendSymbols(result, num, Convert(256, 58, Nats(data)));
  }

  lemma LeadingZeroBytes(data: Bytes, j: nat, num: seq<nat>)
    requires InRange(58, num) && Reversed(num) == Digits(58, Value(256, Nats(data)))
    requires j <= |data| && (forall i :: 0 <= i < j ==> data[i] == 0) && (j < |data| ==> data[j] != 0)
    ensures Convert(256, 58, Nats(data)) == Zeros(j) + Reversed(num) && InRange(58, Zeros(j) + Reversed(num))
  {
    assert Nats(data) == Zeros(j) + Nats(data)[j..];
    LeadingZerosUnique(j, Nats(data)[j..]);
  }

  method AppendSymbols(ones: string, num: seq<nat>, ghost full: seq<nat>) returns (result: string)
    requires InRange(58, num) && full == Zeros(|ones|) + Reversed(num) && InRange(58, full)
    requires forall i :: 0 <= i < |ones| ==> ones[i] == '1'
    ensures result == CharsOf(full)
  {
    result := ones;
    var i := |num|;
    while i > 0
      invariant 0 <= i <= |num| && |result| == |ones| + |num| - i
      invariant forall k :: 0 <= k < |result| ==> result[k] == Symbol(full[k])
    {
      i := i - 1;
      assert full[|ones| + |num| - 1 - i] == Reversed(num)[|num| - 1 - i] == num[i];
      result := result + [Symbol(num[i])];
    }
  }

  /** The carry loop of the encoder: times 256 plus the byte, least significant
      digit first. */
  method AccumulateByte(before: seq<nat>, next: byte) returns (num: seq<nat>)
    requires InRange(58, before)
    ensures Reversed(num) == MulAdd(58, 256, Reversed(before), next)
    ensures InRange(58, num)
  {
    num := before;
    var carry: nat := next;
    var i := 0;
    assert before[0..] == before;
    while i < |num|
      invariant 0 <= i <= |num| == |before| && carry < 256 && InRange(58, num)
      invariant CarriedUp(before, next, num, i, carry)
    {
      CarryByte(before, next, num, i, carry);
      carry := carry + num[i] * 256;
      num := num[i := carry % 58];
      carry := carry / 58;
      i := i + 1;
    }
    assert before[|before|..] == [] && num[..|num|] == num;
    num := AppendCarry(num, carry);
  }

  /** The digits that the last carry adds. */
  method AppendCarry(before: seq<nat>, last: nat) returns (num: seq<nat>)
    requires InRange(58, before)
    ensures Reversed(num) == Digits(58, last) + Reversed(before) && InRange(58, num)
  {
    num := before;
    var carry := last;
    while carry > 0
      invariant InRange(58, num) && Digits(58, last) + Reversed(before) == Digits(58, carry) + Reversed(num)
    {
      ReversedAppend(num, carry % 58);
      assert Digits(58, carry) + Reversed(num) == Digits(58, carry / 58) + ([carry % 58] + Reversed(num));
      num := num + [carry % 58];
      carry := carry / 58;
    }
  }

  /** The carry has passed the digits before i; those from i on are untouched. */
  ghost predicate CarriedUp(before: seq<nat>, next: nat, num: seq<nat>, i: nat, carry: nat) {
    && i <= |num| == |before| && num[i..] == before[i..]
    && MulAdd(58, 256, Reversed(before), next) == MulAdd(58, 256, Reversed(before[i..]), carry) + Reversed(num[..i])
  }

  lemma CarryByte(before: seq<nat>, next: nat, num: seq<nat>, i: nat, carry: nat)
    requires InRange(58, num) && carry < 256 && i < |num| && CarriedUp(before, next, num, i, carry)
    ensures var c := carry + num[i] * 256; var r := num[i := c % 58];
            c / 58 < 256 && InRange(58, r) && CarriedUp(before, next, r, i + 1, c / 58)
  {
    var c := carry + num[i] * 256;
    var r := num[i := c % 58];
    assert num[i] == num[i..][0] == before[i];
    ReversedSplit(before[i..]);
    assert before[i..][1..] == before[i + 1..];
    assert r[i + 1..] == num[i..][1..];
    assert r[..i + 1] == num[..i] + [c % 58];
    ReversedAppend(num[..i], c % 58);
  }

  function Reversed(s: seq<nat>): (r: seq<nat>)
    ensures |r| == |s| && forall i :: 0 <= i < |s| ==> r[i] == s[|s| - 1 - i]
  {
    seq(|s|, i requires 0 <= i < |s| => s[|s| - 1 - i])
  }

  lemma ReversedAppend(s: seq<nat>, d: nat)
    ensures Reversed(s + [d]) == [d] + Reversed(s)
  {
  }

  lemma ReversedSplit(s: seq<nat>)
    requires s != []
    ensures Reversed(s)[..|s| - 1] == Reversed(s[1..]) && Reversed(s)[|s| - 1] == s[0]
  {
  }

  lemma NextByte(data: Bytes, k: nat, before: seq<nat>, after: seq<nat>)
    requires k < |data|
    requires before == Digits(58, Value(256, Nats(data[..k])))
    requires after == MulAdd(58, 256, before, data[k])
    ensures after == Digits(58, Value(256, Nats(data[..k + 1])))
  {
    DigitsCanonical(58, Value(256, Nats(data[..k])));
    MulAddCanonical(58, 256, before, data[k]);
    assert Nats(data[..k + 1]) == Nats(data[..k]) + [data[k]];
    ValueAppend(256, Nats(data[..k]), data[k]);
  }

  // ---------------------------------------------------------------------
  // Ltub normalisation
  // ---------------------------------------------------------------------

  predicate AcceptedKey(p: Bytes) {
    4 <= |p| && (p[..4] == [0x04, 0x88, 0xB2, 0x1E] || p[..4] == [0x01, 0x9D, 0xA4, 0x62])
  }

  function WithBitcoinVersion(p: Bytes): (q: Bytes)
    requires AcceptedKey(p)
    ensures |q| == |p| && q[..4] == [0x04, 0x88, 0xB2, 0x1E] && q[4..] == p[4..]
    ensures AcceptedKey(q) && (p[..4] == [0x04, 0x88, 0xB2, 0x1E] ==> q == p)
  {
    BTC_XPUB_VERSION + p[4..]
  }

  /** out is the Bitcoin form of the key: on Litecoin both strings decode, the first
      to an Ltub or xpub payload p, the second to p with the xpub version. */
  ghost predicate Normalizes(h: Sha256d, xpub: string, chain: Chain, out: string) {
    match chain
    case Bitcoin => out == xpub
    case Litecoin =>
      exists p :: AcceptedKey(p) && DecodesTo(h, xpub, p) && DecodesTo(h, out, WithBitcoinVersion(p))
    case _ => false
  }

  /** Which error the key meets. */
  ghost predicate Refused(h: Sha256d, xpub: string, chain: Chain, error: string) {
    match chain
    case Bitcoin => false
    case Litecoin =>
      if error == "Failed to decode Ltub" then forall p :: !DecodesTo(h, xpub, p)
      else if error == "Extended key too short" then exists p :: DecodesTo(h, xpub, p) && |p| < 4
      else error == "Expected Ltub or xpub prefix" && exists p :: DecodesTo(h, xpub, p) && |p| >= 4 && !AcceptedKey(p)
    case Solana => error == "Solana does not use xpub/Ltub derivation"
    case Ethereum => error == "Ethereum uses the managed wallet pool"
    case Base => error == "Base uses the managed wallet pool"
  }

  /** `normalize_xpub_to_bitcoin`. */
  method NormalizeXpubToBitcoin(h: Sha256d, xpub: string, chain: Chain) returns (r: Result<string>)
    ensures r.Ok? ==> Normalizes(h, xpub, chain, r.value)
    ensures r.Err? ==> (forall out :: !Normalizes(h, xpub, chain, out)) && Refused(h, xpub, chain, r.error)
  {
    match chain
    case Bitcoin =>
      return Ok(xpub);
    case Litecoin =>
      var d := Base58DecodeCheck(h, xpub);
      if d.Err? {
        return Err("Failed to decode Ltub");
      }
      var decoded := d.value;
      forall p | DecodesTo(h, xpub, p) ensures p == decoded {
        DecodedOnce(h, xpub, p, decoded);
      }
      if |decoded| < 4 {
        return Err("Extended key too short");
      }
      if decoded[..4] == BTC_XPUB_VERSION {
        return Ok(xpub);
      }
      if decoded[..4] != LTC_XPUB_VERSION {
        return Err("Expected Ltub or xpub prefix");
      }
      var converted := BTC_XPUB_VERSION + decoded[4..];
      var out := Base58EncodeCheck(h, converted);
      DecodeInvertsEncode(h, converted);
      return Ok(out);
    case Solana =>
      return Err("Solana does not use xpub/Ltub derivation");
    case Ethereum =>
      return Err("Ethereum uses the managed wallet pool");
    case Base =>
      return Err("Base uses the managed wallet pool");
  }

  lemma DecodedOnce(h: Sha256d, s: string, p: Bytes, q: Bytes)
    requires DecodesTo(h, s, p) && DecodesTo(h, s, q)
    ensures p == q
  {
    ChecksumSplit(h, RawBytes(s), p);
    ChecksumSplit(h, RawBytes(s), q);
  }

  lemma NormalFormUnique(h: Sha256d, xpub: string, p: Bytes, out: string)
    requires AcceptedKey(p) && DecodesTo(h, xpub, p)
    ensures Normalizes(h, xpub, Litecoin, out) <==> out == EncodedForm(h, WithBitcoinVersion(p))
  {
    if Normalizes(h, xpub, Litecoin, out) {
      var p' :| AcceptedKey(p') && DecodesTo(h, xpub, p') && DecodesTo(h, out, WithBitcoinVersion(p'));
      DecodedOnce(h, xpub, p, p');
      EncodeInvertsDecode(h, out, WithBitcoinVersion(p));
    }
    DecodeInvertsEncode(h, WithBitcoinVersion(p));
  }

  /** The normal form of a key is unique and is its own, only, normal form. */
  lemma NormalizationIsIdempotent(h: Sha256d, xpub: string, chain: Chain, out: string, again: string)
    requires Normalizes(h, xpub, chain, out)
    ensures Normalizes(h, xpub, chain, again) <==> again == out
    ensures Normalizes(h, out, chain, again) <==> again == out
  {
    if chain.Litecoin? {
      var p :| AcceptedKey(p) && DecodesTo(h, xpub, p) && DecodesTo(h, out, WithBitcoinVersion(p));
      NormalFormUnique(h, xpub, p, out);
      NormalFormUnique(h, xpub, p, again);
      NormalFormUnique(h, out, WithBitcoinVersion(p), again);
    }
  }
}
