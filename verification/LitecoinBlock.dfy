/** The MWEB-tolerant Litecoin block parser (src/litecoin_block.rs): BIP144 section
    "Serialization" plus the 0x08 flag of LIP-0002/LIP-0003. */
module LitecoinBlock {
  import opened Common
  import opened Parsing

  const FLAG_WITNESS: byte := 0x01
  const FLAG_MWEB: byte := 0x08

  datatype Header = Header(version: nat, prev: Bytes, merkleRoot: Bytes, time: nat, bits: nat, nonce: nat)

  datatype TxIn = TxIn(prevTxid: Bytes, vout: nat, script: Bytes, sequence: nat, wit: seq<Bytes>)

  datatype TxOut = TxOut(value: nat, script: Bytes)

  datatype Transaction = Transaction(version: nat, input: seq<TxIn>, output: seq<TxOut>, lockTime: nat)

  datatype Block = Block(header: Header, txdata: seq<Transaction>)

  // ---------------------------------------------------------------------
  // Encoders: the wire format
  // ---------------------------------------------------------------------

  function EncodeHeader(h: Header): Bytes {
    LittleEndian(4, h.version) + h.prev + h.merkleRoot
    + LittleEndian(4, h.time) + LittleEndian(4, h.bits) + LittleEndian(4, h.nonce)
  }

  predicate IsU32(v: nat) { v < Pow256(4) }

  predicate WellFormedHeader(h: Header) {
    IsU32(h.version) && |h.prev| == 32 && |h.merkleRoot| == 32 && IsU32(h.time) && IsU32(h.bits) && IsU32(h.nonce)
  }

  /** An input without its witness, which BIP144 keeps apart. */
  function EncodeTxIn(i: TxIn): Bytes {
    i.prevTxid + (LittleEndian(4, i.vout) + (EncodeString(i.script) + LittleEndian(4, i.sequence)))
  }

  predicate BareTxIn(i: TxIn) {
    |i.prevTxid| == 32 && IsU32(i.vout) && Short(i.script) && IsU32(i.sequence) && i.wit == []
  }

  function EncodeTxOut(o: TxOut): Bytes {
    LittleEndian(8, o.value) + EncodeString(o.script)
  }

  predicate WellFormedTxOut(o: TxOut) {
    IsU64(o.value) && Short(o.script)
  }

  function EncodeWitness(w: seq<Bytes>): Bytes {
    EncodeVec(EncodeString, w)
  }

  predicate WellFormedWitness(w: seq<Bytes>) {
    Short(w) && All(Short, w)
  }

  function Bare(i: TxIn): TxIn { i.(wit := []) }

  function BareInputs(ins: seq<TxIn>): (r: seq<TxIn>)
    ensures |r| == |ins| && forall k :: 0 <= k < |ins| ==> r[k] == Bare(ins[k])
  {
    seq(|ins|, k requires 0 <= k < |ins| => Bare(ins[k]))
  }

  function EncodeWitnesses(ins: seq<TxIn>): Bytes {
    if ins == [] then [] else EncodeWitness(ins[0].wit) + EncodeWitnesses(ins[1..])
  }

  /** How a transaction is framed: plain, or with the marker and a flag byte. */
  datatype Form = Legacy | Flagged(flags: byte)

  datatype Framed = Framed(tx: Transaction, form: Form)

  predicate HasFlag(flags: byte, flag: byte)
    requires flag == FLAG_WITNESS || flag == FLAG_MWEB
  {
    flags / flag % 2 == 1
  }

  predicate KnownFlags(flags: byte) {
    flags in {FLAG_WITNESS, FLAG_MWEB, FLAG_WITNESS + FLAG_MWEB}
  }

  predicate NoWitness(ins: seq<TxIn>) {
    forall i :: 0 <= i < |ins| ==> ins[i].wit == []
  }

  /** Which framings a transaction may have: the plain one needs an input (no input
      reads as the marker), no flag other than witness and MWEB exists, and the
      witness flag is set exactly when some input has a witness, or no input exists. */
  predicate FitsForm(tx: Transaction, form: Form) {
    match form
    case Legacy => tx.input != [] && NoWitness(tx.input)
    case Flagged(flags) =>
      flags in {1, 8, 9}
      && if flags != 8 then tx.input == [] || !NoWitness(tx.input) else NoWitness(tx.input)
  }

  /** The bits of the flag bytes that exist. */
  lemma FlagBits(flags: byte)
    ensures KnownFlags(flags) <==> flags in {1, 8, 9}
    ensures KnownFlags(flags) ==> (HasFlag(flags, FLAG_WITNESS) <==> flags != 8) && (HasFlag(flags, FLAG_MWEB) <==> flags != 1)
  {
  }

  predicate WellFormedInput(i: TxIn) {
    BareTxIn(Bare(i)) && WellFormedWitness(i.wit)
  }

  predicate WellFormed(f: Framed) {
    && IsU32(f.tx.version) && IsU32(f.tx.lockTime)
    && Short(f.tx.input) && All(WellFormedInput, f.tx.input)
    && Short(f.tx.output) && All(WellFormedTxOut, f.tx.output)
    && FitsForm(f.tx, f.form)
  }

  function EncodeBody(tx: Transaction): Bytes {
    EncodeVec(EncodeTxIn, BareInputs(tx.input)) + EncodeVec(EncodeTxOut, tx.output)
  }

  function WitnessPart(tx: Transaction, flags: byte): Bytes {
    if flags == 1 || flags == 9 then EncodeWitnesses(tx.input) else []
  }

  function MwebPart(flags: byte): Bytes {
    if flags == 8 || flags == 9 then [0] else []
  }

  /** The bytes of a framed transaction, followed by more bytes. */
  function EncodeThen(f: Framed, tail: Bytes): Bytes {
    var lock := LittleEndian(4, f.tx.lockTime) + tail;
    LittleEndian(4, f.tx.version)
    + match f.form
      case Legacy => EncodeBody(f.tx) + lock
      case Flagged(flags) =>
        [0] + ([flags] + (EncodeBody(f.tx) + (WitnessPart(f.tx, flags) + (MwebPart(flags) + lock))))
  }

  function EncodeFramed(f: Framed): Bytes { EncodeThen(f, []) }

  lemma EncodeThenAppends(f: Framed, tail: Bytes)
    ensures EncodeFramed(f) + tail == EncodeThen(f, tail)
  {
    var lock := LittleEndian(4, f.tx.lockTime);
    assert lock + [] == lock;
    match f.form
    case Legacy =>
      Assoc(LittleEndian(4, f.tx.version), EncodeBody(f.tx) + lock, tail);
      Assoc(EncodeBody(f.tx), lock, tail);
    case Flagged(flags) =>
      var b4 := MwebPart(flags) + lock;
      var b3 := WitnessPart(f.tx, flags) + b4;
      var b2 := EncodeBody(f.tx) + b3;
      Assoc(LittleEndian(4, f.tx.version), [0] + ([flags] + b2), tail);
      Assoc([0], [flags] + b2, tail);
      Assoc([flags], b2, tail);
      Assoc(EncodeBody(f.tx), b3, tail);
      Assoc(WitnessPart(f.tx, flags), b4, tail);
      Assoc(MwebPart(flags), lock, tail);
  }

  // ---------------------------------------------------------------------
  // Library parsers
  // ---------------------------------------------------------------------

  function ParseU8(b: Bytes): Parse<byte> {
    if b == [] then Refused else Parsed(b[0], b[1..])
  }

  function ParseU32(b: Bytes): Parse<nat> { ParseInt(4, b) }

  function ParseHash(b: Bytes): Parse<Bytes> { ParseBytes(32, b) }

  function ParseHeader(b: Bytes): Parse<Header> {
    if |b| < 80 then Refused else
      Parsed(Header(FromLittleEndian(b[..4]), b[4..36], b[36..68], FromLittleEndian(b[68..72]),
                    FromLittleEndian(b[72..76]), FromLittleEndian(b[76..80])), b[80..])
  }

  function ParseTxIn(b: Bytes): Parse<TxIn> {
    match ParseHash(b)
    case Refused => Refused
    case Parsed(txid, b) =>
      match ParseU32(b)
      case Refused => Refused
      case Parsed(vout, b) =>
        match ParseString(b)
        case Refused => Refused
        case Parsed(script, b) =>
          match ParseU32(b)
          case Refused => Refused
          case Parsed(sequence, b) => Parsed(TxIn(txid, vout, script, sequence, []), b)
  }

  function ParseTxOut(b: Bytes): Parse<TxOut> {
    match ParseInt(8, b)
    case Refused => Refused
    case Parsed(value, b) =>
      match ParseString(b)
      case Refused => Refused
      case Parsed(script, b) => Parsed(TxOut(value, script), b)
  }

  function ParseInputs(b: Bytes): Parse<seq<TxIn>> { ParseVec(ParseTxIn, b) }

  function ParseOutputs(b: Bytes): Parse<seq<TxOut>> { ParseVec(ParseTxOut, b) }

  function ParseWitness(b: Bytes): Parse<seq<Bytes>> { ParseVec(ParseString, b) }

  // ---------------------------------------------------------------------
  // The transaction parser as a function
  // ---------------------------------------------------------------------

  /** One witness per input, in order. */
  function FillWitnesses(ins: seq<TxIn>, b: Bytes): (r: Parse<seq<TxIn>>)
    ensures r.Parsed? ==> |r.value| == |ins|
  {
    if ins == [] then Parsed([], b)
    else match ParseWitness(b)
      case Refused => Refused
      case Parsed(w, rest) =>
        match FillWitnesses(ins[1..], rest)
        case Refused => Refused
        case Parsed(more, rest') => Parsed([ins[0].(wit := w)] + more, rest')
  }

  function SkipMweb(b: Bytes): Parse<()> {
    match ParseU8(b)
    case Refused => Refused
    case Parsed(present, rest) => if present != 0 then Refused else Parsed((), rest)
  }

  /** What follows the outputs of a flagged transaction. */
  function FinishFlagged(version: nat, flags: byte, input: seq<TxIn>, output: seq<TxOut>, b: Bytes): Parse<Framed> {
    match (if HasFlag(flags, FLAG_WITNESS) then FillWitnesses(input, b) else Parsed(input, b))
    case Refused => Refused
    case Parsed(input, b) =>
      if HasFlag(flags, FLAG_WITNESS) && input != [] && NoWitness(input) then Refused else
      match (if HasFlag(flags, FLAG_MWEB) then SkipMweb(b) else Parsed((), b))
      case Refused => Refused
      case Parsed(_, b) =>
        match ParseU32(b)
        case Refused => Refused
        case Parsed(lockTime, b) =>
          Parsed(Framed(Transaction(version, input, output, lockTime), Flagged(flags)), b)
  }

  function ParseFlagged(version: nat, b: Bytes): Parse<Framed> {
    match ParseU8(b)
    case Refused => Refused
    case Parsed(flags, b) =>
      if !KnownFlags(flags) then Refused else
      match ParseInputs(b)
      case Refused => Refused
      case Parsed(input, b) =>
        match ParseOutputs(b)
        case Refused => Refused
        case Parsed(output, b) => FinishFlagged(version, flags, input, output, b)
  }

  function ParsePlain(version: nat, input: seq<TxIn>, b: Bytes): Parse<Framed> {
    match ParseOutputs(b)
    case Refused => Refused
    case Parsed(output, b) =>
      match ParseU32(b)
      case Refused => Refused
      case Parsed(lockTime, b) => Parsed(Framed(Transaction(version, input, output, lockTime), Legacy), b)
  }

  function ParseTransaction(b: Bytes): Parse<Framed> {
    match ParseU32(b)
    case Refused => Refused
    case Parsed(version, b) =>
      match ParseInputs(b)
      case Refused => Refused
      case Parsed(input, b) =>
        if input != [] then ParsePlain(version, input, b) else ParseFlagged(version, b)
  }

  // ---------------------------------------------------------------------
  // Field lemmas
  // ---------------------------------------------------------------------

  lemma TxInForward(i: TxIn, tail: Bytes)
    requires BareTxIn(i)
    ensures ParseTxIn(EncodeTxIn(i) + tail) == Parsed(i, tail)
  {
    var vout, script, sequence := LittleEndian(4, i.vout), EncodeString(i.script), LittleEndian(4, i.sequence);
    Assoc(i.prevTxid, vout + (script + sequence), tail);
    Assoc(vout, script + sequence, tail);
    Assoc(script, sequence, tail);
    ParseBytesForward(i.prevTxid, vout + (script + (sequence + tail)));
    ParseIntForward(4, i.vout, script + (sequence + tail));
    StringForward(i.script, sequence + tail);
    ParseIntForward(4, i.sequence, tail);
  }

  lemma TxInBackward(b: Bytes)
    requires ParseTxIn(b).Parsed?
    ensures BareTxIn(ParseTxIn(b).value)
    ensures b == EncodeTxIn(ParseTxIn(b).value) + ParseTxIn(b).rest
  {
    var i, rest := ParseTxIn(b).value, ParseTxIn(b).rest;
    var b1 := ParseHash(b).rest;
    var b2 := ParseU32(b1).rest;
    var b3 := ParseString(b2).rest;
    assert b == i.prevTxid + b1;
    ParseIntBackward(4, b1);
    StringBackward(b2);
    ParseIntBackward(4, b3);
    var vout, script, sequence := LittleEndian(4, i.vout), EncodeString(i.script), LittleEndian(4, i.sequence);
    Assoc(i.prevTxid, vout + (script + sequence), rest);
    Assoc(vout, script + sequence, rest);
    Assoc(script, sequence, rest);
  }

  lemma TxInInverts()
    ensures Inverts(ParseTxIn, EncodeTxIn, BareTxIn)
  {
    forall i, tail | BareTxIn(i) ensures ParseTxIn(EncodeTxIn(i) + tail) == Parsed(i, tail) {
      TxInForward(i, tail);
    }
    forall b | ParseTxIn(b).Parsed?
      ensures BareTxIn(ParseTxIn(b).value) && b == EncodeTxIn(ParseTxIn(b).value) + ParseTxIn(b).rest
    {
      TxInBackward(b);
    }
  }

  lemma TxOutForward(o: TxOut, tail: Bytes)
    requires WellFormedTxOut(o)
    ensures ParseTxOut(EncodeTxOut(o) + tail) == Parsed(o, tail)
  {
    Assoc(LittleEndian(8, o.value), EncodeString(o.script), tail);
    ParseIntForward(8, o.value, EncodeString(o.script) + tail);
    StringForward(o.script, tail);
  }

  lemma TxOutBackward(b: Bytes)
    requires ParseTxOut(b).Parsed?
    ensures WellFormedTxOut(ParseTxOut(b).value)
    ensures b == EncodeTxOut(ParseTxOut(b).value) + ParseTxOut(b).rest
  {
    var o, rest := ParseTxOut(b).value, ParseTxOut(b).rest;
    ParseIntBackward(8, b);
    StringBackward(ParseInt(8, b).rest);
    Assoc(LittleEndian(8, o.value), EncodeString(o.script), rest);
  }

  lemma TxOutInverts()
    ensures Inverts(ParseTxOut, EncodeTxOut, WellFormedTxOut)
  {
    forall o, tail | WellFormedTxOut(o) ensures ParseTxOut(EncodeTxOut(o) + tail) == Parsed(o, tail) {
      TxOutForward(o, tail);
    }
    forall b | ParseTxOut(b).Parsed?
      ensures WellFormedTxOut(ParseTxOut(b).value) && b == EncodeTxOut(ParseTxOut(b).value) + ParseTxOut(b).rest
    {
      TxOutBackward(b);
    }
  }

  lemma InputsForward(ins: seq<TxIn>, tail: Bytes)
    requires Short(ins) && All(WellFormedInput, ins)
    ensures ParseInputs(EncodeVec(EncodeTxIn, BareInputs(ins)) + tail) == Parsed(BareInputs(ins), tail)
  {
    TxInInverts();
    forall i | 0 <= i < |ins| ensures BareTxIn(BareInputs(ins)[i]) {
      assert WellFormedInput(ins[i]);
    }
    VecForward(ParseTxIn, EncodeTxIn, BareTxIn, BareInputs(ins), tail);
  }

  lemma BodyForward(tx: Transaction, tail: Bytes)
    requires Short(tx.input) && All(WellFormedInput, tx.input)
    requires Short(tx.output) && All(WellFormedTxOut, tx.output)
    ensures var p := ParseInputs(EncodeBody(tx) + tail);
            p.Parsed? && p.value == BareInputs(tx.input) && ParseOutputs(p.rest) == Parsed(tx.output, tail)
  {
    var outs := EncodeVec(EncodeTxOut, tx.output) + tail;
    assert EncodeBody(tx) + tail == EncodeVec(EncodeTxIn, BareInputs(tx.input)) + outs;
    InputsForward(tx.input, outs);
    TxOutInverts();
    VecForward(ParseTxOut, EncodeTxOut, WellFormedTxOut, tx.output, tail);
  }

  lemma BodyBackward(b: Bytes)
    requires ParseInputs(b).Parsed? && ParseOutputs(ParseInputs(b).rest).Parsed?
    ensures var ins, outs := ParseInputs(b).value, ParseOutputs(ParseInputs(b).rest);
            && Short(ins) && All(BareTxIn, ins) && Short(outs.value) && All(WellFormedTxOut, outs.value)
            && b == EncodeVec(EncodeTxIn, ins) + EncodeVec(EncodeTxOut, outs.value) + outs.rest
  {
    TxInInverts();
    TxOutInverts();
    VecBackward(ParseTxIn, EncodeTxIn, BareTxIn, b);
    VecBackward(ParseTxOut, EncodeTxOut, WellFormedTxOut, ParseInputs(b).rest);
  }

  lemma {:induction false} WitnessesForward(ins: seq<TxIn>, tail: Bytes)
    requires forall i :: 0 <= i < |ins| ==> WellFormedWitness(ins[i].wit)
    ensures FillWitnesses(BareInputs(ins), EncodeWitnesses(ins) + tail) == Parsed(ins, tail)
  {
    if ins == [] {
      assert EncodeWitnesses(ins) + tail == tail;
    } else {
      var more := EncodeWitnesses(ins[1..]) + tail;
      assert EncodeWitnesses(ins) + tail == EncodeWitness(ins[0].wit) + more;
      StringInverts();
      VecForward(ParseString, EncodeString, Short, ins[0].wit, more);
      assert BareInputs(ins)[1..] == BareInputs(ins[1..]);
      WitnessesForward(ins[1..], tail);
      assert ins == [BareInputs(ins)[0].(wit := ins[0].wit)] + ins[1..];
    }
  }

  lemma {:induction false} WitnessesBackward(bare: seq<TxIn>, b: Bytes)
    requires NoWitness(bare) && FillWitnesses(bare, b).Parsed?
    ensures var ins := FillWitnesses(bare, b).value;
            && BareInputs(ins) == bare
            && (forall i :: 0 <= i < |ins| ==> WellFormedWitness(ins[i].wit))
            && b == EncodeWitnesses(ins) + FillWitnesses(bare, b).rest
    decreases |bare|
  {
    if bare != [] {
      StringInverts();
      VecBackward(ParseString, EncodeString, Short, b);
      var rest := ParseWitness(b).rest;
      WitnessesBackward(bare[1..], rest);
      var more := FillWitnesses(bare[1..], rest).value;
      var ins := FillWitnesses(bare, b).value;
      var first := bare[0].(wit := ParseWitness(b).value);
      assert ins == [first] + more && ins[1..] == more;
      Assoc(EncodeWitness(first.wit), EncodeWitnesses(more), FillWitnesses(bare, b).rest);
    }
  }

  // ---------------------------------------------------------------------
  // Parsing a transaction inverts every framing of it, and nothing else
  // ---------------------------------------------------------------------

  lemma NoInputsIsMarker(rest: Bytes)
    ensures ParseInputs([0] + rest) == Parsed([], rest)
  {
    assert ([0] + rest)[1..] == rest;
  }

  lemma WitnessPartForward(tx: Transaction, flags: byte, rest: Bytes)
    requires WellFormed(Framed(tx, Flagged(flags)))
    ensures var ins, b := BareInputs(tx.input), WitnessPart(tx, flags) + rest;
            (if HasFlag(flags, FLAG_WITNESS) then FillWitnesses(ins, b) else Parsed(ins, b)) == Parsed(tx.input, rest)
  {
    FlagBits(flags);
    if HasFlag(flags, FLAG_WITNESS) {
      forall i | 0 <= i < |tx.input| ensures WellFormedWitness(tx.input[i].wit) {
        assert WellFormedInput(tx.input[i]);
      }
      WitnessesForward(tx.input, rest);
    } else {
      assert BareInputs(tx.input) == tx.input;
      assert WitnessPart(tx, flags) + rest == rest;
    }
  }

  /** The MWEB byte and the lock time. */
  lemma TailForward(flags: byte, lockTime: nat, tail: Bytes)
    requires flags in {1, 8, 9} && IsU32(lockTime)
    ensures var b := MwebPart(flags) + (LittleEndian(4, lockTime) + tail);
            && (HasFlag(flags, FLAG_MWEB) ==> SkipMweb(b).Parsed?)
            && ParseU32(if HasFlag(flags, FLAG_MWEB) then SkipMweb(b).rest else b) == Parsed(lockTime, tail)
  {
    FlagBits(flags);
    var lock := LittleEndian(4, lockTime) + tail;
    if flags == 1 {
      assert MwebPart(flags) + lock == lock;
    } else {
      assert (MwebPart(flags) + lock)[1..] == lock;
    }
    ParseIntForward(4, lockTime, tail);
  }

  lemma FinishForward(tx: Transaction, flags: byte, tail: Bytes)
    requires WellFormed(Framed(tx, Flagged(flags)))
    ensures FinishFlagged(tx.version, flags, BareInputs(tx.input), tx.output,
                          WitnessPart(tx, flags) + (MwebPart(flags) + (LittleEndian(4, tx.lockTime) + tail)))
         == Parsed(Framed(tx, Flagged(flags)), tail)
  {
    FlagBits(flags);
    WitnessPartForward(tx, flags, MwebPart(flags) + (LittleEndian(4, tx.lockTime) + tail));
    TailForward(flags, tx.lockTime, tail);
  }

  lemma TransactionForward(f: Framed, tail: Bytes)
    requires WellFormed(f)
    ensures ParseTransaction(EncodeThen(f, tail)) == Parsed(f, tail)
  {
    var tx := f.tx;
    var lock := LittleEndian(4, tx.lockTime) + tail;
    match f.form
    case Legacy =>
      ParseIntForward(4, tx.version, EncodeBody(tx) + lock);
      BodyForward(tx, lock);
      assert BareInputs(tx.input) == tx.input;
      ParseIntForward(4, tx.lockTime, tail);
    case Flagged(flags) =>
      var finish := WitnessPart(tx, flags) + (MwebPart(flags) + lock);
      var body := EncodeBody(tx) + finish;
      ParseIntForward(4, tx.version, [0] + ([flags] + body));
      NoInputsIsMarker([flags] + body);
      assert ([flags] + body)[1..] == body;
      BodyForward(tx, finish);
      FinishForward(tx, flags, tail);
  }

  lemma PlainBackward(version: nat, b0: Bytes, input: seq<TxIn>, b: Bytes)
    requires ParseInputs(b0) == Parsed(input, b) && input != [] && IsU32(version)
    requires ParsePlain(version, input, b).Parsed?
    ensures var p := ParsePlain(version, input, b);
            WellFormed(p.value) && LittleEndian(4, version) + b0 == EncodeThen(p.value, p.rest)
  {
    BodyBackward(b0);
    ParseIntBackward(4, ParseOutputs(b).rest);
    BareIsPlain(input);
  }

  lemma BareIsPlain(input: seq<TxIn>)
    requires All(BareTxIn, input)
    ensures BareInputs(input) == input && NoWitness(input) && All(WellFormedInput, input)
  {
    forall i | 0 <= i < |input| ensures input[i].wit == [] && WellFormedInput(input[i]) {
      assert BareTxIn(input[i]);
    }
  }

  lemma FilledBackward(bare: seq<TxIn>, b: Bytes)
    requires All(BareTxIn, bare) && NoWitness(bare) && FillWitnesses(bare, b).Parsed?
    ensures var ins := FillWitnesses(bare, b).value;
            BareInputs(ins) == bare && All(WellFormedInput, ins) && b == EncodeWitnesses(ins) + FillWitnesses(bare, b).rest
  {
    var ins := FillWitnesses(bare, b).value;
    WitnessesBackward(bare, b);
    forall i | 0 <= i < |bare| ensures WellFormedInput(ins[i]) {
      assert BareTxIn(bare[i]) && BareInputs(ins)[i] == bare[i];
    }
  }

  lemma FinishBackward(version: nat, flags: byte, bare: seq<TxIn>, output: seq<TxOut>, b: Bytes)
    requires KnownFlags(flags) && All(BareTxIn, bare)
    requires FinishFlagged(version, flags, bare, output, b).Parsed?
    ensures var p := FinishFlagged(version, flags, bare, output, b); var tx := p.value.tx;
            && p.value == Framed(Transaction(version, tx.input, output, tx.lockTime), Flagged(flags))
            && IsU32(tx.lockTime) && FitsForm(tx, Flagged(flags))
            && BareInputs(tx.input) == bare && All(WellFormedInput, tx.input)
            && b == WitnessPart(tx, flags) + (MwebPart(flags) + (LittleEndian(4, tx.lockTime) + p.rest))
  {
    FlagBits(flags);
    BareIsPlain(bare);
    var tx := FinishFlagged(version, flags, bare, output, b).value.tx;
    var b4 := if HasFlag(flags, FLAG_WITNESS) then FillWitnesses(bare, b).rest else b;
    if HasFlag(flags, FLAG_WITNESS) {
      FilledBackward(bare, b);
    } else {
      assert b == [] + b4;
    }
    TailBackward(flags, b4);
  }

  lemma TailBackward(flags: byte, b: Bytes)
    requires KnownFlags(flags) && (HasFlag(flags, FLAG_MWEB) ==> SkipMweb(b).Parsed?)
    requires ParseU32(if HasFlag(flags, FLAG_MWEB) then SkipMweb(b).rest else b).Parsed?
    ensures var p := ParseU32(if HasFlag(flags, FLAG_MWEB) then SkipMweb(b).rest else b);
            IsU32(p.value) && b == MwebPart(flags) + (LittleEndian(4, p.value) + p.rest)
  {
    FlagBits(flags);
    var rest := if HasFlag(flags, FLAG_MWEB) then b[1..] else b;
    assert b == MwebPart(flags) + rest;
    ParseIntBackward(4, rest);
  }

  lemma FlaggedBackward(version: nat, b: Bytes)
    requires ParseFlagged(version, b).Parsed? && IsU32(version)
    ensures var p := ParseFlagged(version, b);
            WellFormed(p.value) && LittleEndian(4, version) + ([0] + b) == EncodeThen(p.value, p.rest)
  {
    var flags, b1 := b[0], b[1..];
    assert b == [flags] + b1;
    BodyBackward(b1);
    var bare, outs := ParseInputs(b1).value, ParseOutputs(ParseInputs(b1).rest);
    FinishBackward(version, flags, bare, outs.value, outs.rest);
  }

  lemma TransactionBackward(b: Bytes)
    requires ParseTransaction(b).Parsed?
    ensures WellFormed(ParseTransaction(b).value)
    ensures b == EncodeThen(ParseTransaction(b).value, ParseTransaction(b).rest)
  {
    ParseIntBackward(4, b);
    var version, b1 := ParseU32(b).value, ParseU32(b).rest;
    var p := ParseInputs(b1);
    if p.value != [] {
      PlainBackward(version, b1, p.value, p.rest);
    } else {
      TxInInverts();
      VecBackward(ParseTxIn, EncodeTxIn, BareTxIn, b1);
      assert b1 == [0] + p.rest;
      FlaggedBackward(version, p.rest);
    }
  }

  /** The transaction parser accepts exactly the framings that fit their flags, for
      any bytes that follow, and consumes exactly the bytes of one transaction. */
  lemma TransactionInverts()
    ensures Inverts(ParseTransaction, EncodeFramed, WellFormed)
  {
    forall f, tail | WellFormed(f) ensures ParseTransaction(EncodeFramed(f) + tail) == Parsed(f, tail) {
      EncodeThenAppends(f, tail);
      TransactionForward(f, tail);
    }
    forall b | ParseTransaction(b).Parsed?
      ensures WellFormed(ParseTransaction(b).value)
      ensures b == EncodeFramed(ParseTransaction(b).value) + ParseTransaction(b).rest
    {
      TransactionBackward(b);
      EncodeThenAppends(ParseTransaction(b).value, ParseTransaction(b).rest);
    }
  }

  // ---------------------------------------------------------------------
  // Blocks
  // ---------------------------------------------------------------------

  lemma HeaderForward(h: Header, tail: Bytes)
    requires WellFormedHeader(h)
    ensures ParseHeader(EncodeHeader(h) + tail) == Parsed(h, tail)
  {
    var b := EncodeHeader(h) + tail;
    assert b[..4] == LittleEndian(4, h.version) && b[4..36] == h.prev && b[36..68] == h.merkleRoot;
    assert b[68..72] == LittleEndian(4, h.time) && b[72..76] == LittleEndian(4, h.bits);
    assert b[76..80] == LittleEndian(4, h.nonce) && b[80..] == tail;
    LittleEndianInverse(4, h.version);
    LittleEndianInverse(4, h.time);
    LittleEndianInverse(4, h.bits);
    LittleEndianInverse(4, h.nonce);
  }

  lemma HeaderBackward(b: Bytes)
    requires ParseHeader(b).Parsed?
    ensures WellFormedHeader(ParseHeader(b).value)
    ensures b == EncodeHeader(ParseHeader(b).value) + ParseHeader(b).rest
  {
    FromLittleEndianInverse(b[..4]);
    FromLittleEndianInverse(b[68..72]);
    FromLittleEndianInverse(b[72..76]);
    FromLittleEndianInverse(b[76..80]);
    assert b == b[..4] + b[4..36] + b[36..68] + b[68..72] + b[72..76] + b[76..80] + b[80..];
  }

  function Txs(fs: seq<Framed>): (r: seq<Transaction>)
    ensures |r| == |fs| && forall i :: 0 <= i < |fs| ==> r[i] == fs[i].tx
  {
    seq(|fs|, i requires 0 <= i < |fs| => fs[i].tx)
  }

  function EncodeBlock(h: Header, fs: seq<Framed>): Bytes {
    EncodeHeader(h) + EncodeVec(EncodeFramed, fs)
  }

  /** The bytes are this block in some framing, with anything after it. */
  ghost predicate Serializes(bytes: Bytes, block: Block) {
    exists fs, tail ::
      && WellFormedHeader(block.header) && Short(fs) && All(WellFormed, fs)
      && block.txdata == Txs(fs) && bytes == EncodeBlock(block.header, fs) + tail
  }

  function ParseBlock(b: Bytes): Parse<Block> {
    match ParseHeader(b)
    case Refused => Refused
    case Parsed(header, b) =>
      match ParseVec(ParseTransaction, b)
      case Refused => Refused
      case Parsed(fs, rest) => Parsed(Block(header, Txs(fs)), rest)
  }

  lemma BlockForward(h: Header, fs: seq<Framed>, tail: Bytes)
    requires WellFormedHeader(h) && Short(fs) && All(WellFormed, fs)
    ensures ParseBlock(EncodeBlock(h, fs) + tail) == Parsed(Block(h, Txs(fs)), tail)
  {
    var b := EncodeVec(EncodeFramed, fs) + tail;
    assert EncodeBlock(h, fs) + tail == EncodeHeader(h) + b;
    HeaderForward(h, b);
    TransactionInverts();
    VecForward(ParseTransaction, EncodeFramed, WellFormed, fs, tail);
  }

  /** The block parser accepts a byte string exactly when it serializes some block,
      and returns that block; whatever follows the transactions is ignored. */
  lemma BlockParserIsExact(bytes: Bytes, block: Block)
    ensures Serializes(bytes, block) <==> ParseBlock(bytes).Parsed? && ParseBlock(bytes).value == block
  {
    if Serializes(bytes, block) {
      var fs, tail :| WellFormedHeader(block.header) && Short(fs) && All(WellFormed, fs)
                   && block.txdata == Txs(fs) && bytes == EncodeBlock(block.header, fs) + tail;
      BlockForward(block.header, fs, tail);
    }
    if ParseBlock(bytes).Parsed? && ParseBlock(bytes).value == block {
      HeaderBackward(bytes);
      var b := ParseHeader(bytes).rest;
      TransactionInverts();
      VecBackward(ParseTransaction, EncodeFramed, WellFormed, b);
      var fs := ParseVec(ParseTransaction, b).value;
      assert bytes == EncodeBlock(block.header, fs) + ParseBlock(bytes).rest;
    }
  }

  /** An unknown flag byte is refused whatever follows. */
  lemma UnknownFlagRefused(version: nat, flags: byte, rest: Bytes)
    requires IsU32(version) && flags != 1 && flags != 8 && flags != 9
    ensures ParseTransaction(LittleEndian(4, version) + [0, flags] + rest).Refused?
  {
    FlagBits(flags);
    var b := [flags] + rest;
    assert LittleEndian(4, version) + [0, flags] + rest == LittleEndian(4, version) + ([0] + b);
    ParseIntForward(4, version, [0] + b);
    NoInputsIsMarker(b);
  }

  /** An inline MWEB payload is refused: in place of the zero byte that a flagged
      transaction has for it, no other byte is accepted, whatever follows. */
  lemma InlineMwebRefused(tx: Transaction, flags: byte, present: byte, rest: Bytes)
    requires WellFormed(Framed(tx, Flagged(flags))) && flags != 1 && present != 0
    ensures ParseTransaction(LittleEndian(4, tx.version)
                             + ([0] + ([flags] + (EncodeBody(tx) + (WitnessPart(tx, flags) + ([present] + rest)))))).Refused?
  {
    FlagBits(flags);
    var finish := WitnessPart(tx, flags) + ([present] + rest);
    var body := EncodeBody(tx) + finish;
    ParseIntForward(4, tx.version, [0] + ([flags] + body));
    NoInputsIsMarker([flags] + body);
    assert ([flags] + body)[1..] == body;
    BodyForward(tx, finish);
    if HasFlag(flags, FLAG_WITNESS) {
      forall i | 0 <= i < |tx.input| ensures WellFormedWitness(tx.input[i].wit) {
        assert WellFormedInput(tx.input[i]);
      }
      WitnessesForward(tx.input, [present] + rest);
    } else {
      assert finish == [present] + rest;
    }
  }

  // ---------------------------------------------------------------------
  // The reader
  // ---------------------------------------------------------------------

  /** A byte slice that every read advances. */
  class Reader {
    var rest: Bytes

    constructor (bytes: Bytes)
      ensures rest == bytes
    {
      rest := bytes;
    }

    /** `T::consensus_decode_from_finite_reader`. */
    method Decode<T>(p: Bytes -> Parse<T>) returns (r: Option<T>)
      modifies this
      ensures match p(old(rest))
              case Parsed(v, b) => r == Some(v) && rest == b
              case Refused => r == None
    {
      match p(rest)
      case Parsed(v, b) =>
        rest := b;
        return Some(v);
      case Refused =>
        return None;
    }

    /** `skip_mweb_payload`. */
    method SkipMwebPayload() returns (r: Option<()>)
      modifies this
      ensures match SkipMweb(old(rest))
              case Parsed(v, b) => r == Some(v) && rest == b
              case Refused => r == None
    {
      var present := Decode(ParseU8);
      if present.None? || present.value != 0 {
        return None;
      }
      return Some(());
    }

    /** The witness loop of `decode_transaction`, filling each input in place. */
    method ReadWitnesses(bare: seq<TxIn>) returns (r: Option<seq<TxIn>>)
      modifies this
      ensures match FillWitnesses(bare, old(rest))
              case Parsed(ins, b) => r == Some(ins) && rest == b
              case Refused => r == None
    {
      var input := bare;
      var i := 0;
      assert bare[0..] == bare;
      PrependNothing(FillWitnesses(bare, rest));
      while i < |input|
        invariant 0 <= i <= |input| == |bare| && input[i..] == bare[i..]
        invariant FillWitnesses(bare, old(rest)) == Prepend(input[..i], FillWitnesses(bare[i..], rest))
      {
        ghost var before := rest;
        var w := Decode(ParseWitness);
        if w.None? {
          return None;
        }
        assert input[i] == input[i..][0] == bare[i];
        assert bare[i..][1..] == bare[i + 1..];
        ghost var done := input[..i];
        input := input[i := input[i].(wit := w.value)];
        assert input[..i + 1] == done + [bare[i].(wit := w.value)];
        PrependTwice(done, bare[i].(wit := w.value), FillWitnesses(bare[i + 1..], rest));
        i := i + 1;
      }
      assert input[..i] == input && bare[i..] == [] && input + [] == input;
      return Some(input);
    }

    /** `decode_transaction`. */
    method DecodeTransaction() returns (r: Option<Transaction>)
      modifies this
      ensures TxRead(old(rest), r, rest)
    {
      var version := Decode(ParseU32);
      if version.None? { return None; }
      var vin := Decode(ParseInputs);
      if vin.None? { return None; }

      // A non-empty vin means there was no marker byte: plain legacy transaction.
      if vin.value != [] {
        var output := Decode(ParseOutputs);
        if output.None? { return None; }
        var lockTime := Decode(ParseU32);
        if lockTime.None? { return None; }
        return Some(Transaction(version.value, vin.value, output.value, lockTime.value));
      }
      r := DecodeFlagged(version.value);
    }

    /** After the marker byte: flags, and what they announce. */
    method DecodeFlagged(version: nat) returns (r: Option<Transaction>)
      modifies this
      ensures match ParseFlagged(version, old(rest))
              case Parsed(f, b) => r == Some(f.tx) && rest == b
              case Refused => r == None
    {
      var flags := Decode(ParseU8);
      if flags.None? || !KnownFlags(flags.value) { return None; }
      var vin := Decode(ParseInputs);
      if vin.None? { return None; }
      var output := Decode(ParseOutputs);
      if output.None? { return None; }
      r := FinishTransaction(version, flags.value, vin.value, output.value);
    }

    method FinishTransaction(version: nat, flags: byte, vin: seq<TxIn>, output: seq<TxOut>) returns (r: Option<Transaction>)
      requires KnownFlags(flags)
      modifies this
      ensures match FinishFlagged(version, flags, vin, output, old(rest))
              case Parsed(f, b) => r == Some(f.tx) && rest == b
              case Refused => r == None
    {
      var input := vin;
      if HasFlag(flags, FLAG_WITNESS) {
        var filled := ReadWitnesses(input);
        if filled.None? { return None; }
        input := filled.value;
        if input != [] && NoWitness(input) { return None; }
      }
      if HasFlag(flags, FLAG_MWEB) {
        var skipped := SkipMwebPayload();
        if skipped.None? { return None; }
      }
      var lockTime := Decode(ParseU32);
      if lockTime.None? { return None; }
      return Some(Transaction(version, input, output, lockTime.value));
    }
  }

  /** What reading one transaction from b yields and leaves. */
  predicate TxRead(b: Bytes, r: Option<Transaction>, rest: Bytes) {
    match ParseTransaction(b)
    case Parsed(f, b') => r == Some(f.tx) && rest == b'
    case Refused => r == None
  }

  /** The first n transactions of b are these, and this is left. */
  ghost predicate ReadSoFar(b: Bytes, n: nat, txs: seq<Transaction>, rest: Bytes) {
    exists fs :: ParsesFirst(ParseTransaction, n, b, fs, rest) && txs == Txs(fs)
  }

  lemma ReadNext(b: Bytes, n: nat, txs: seq<Transaction>, rest: Bytes, r: Option<Transaction>, rest': Bytes)
    requires ReadSoFar(b, n, txs, rest) && TxRead(rest, r, rest')
    ensures r.None? ==> ParseMany(ParseTransaction, n + 1, b).Refused?
    ensures r.Some? ==> ReadSoFar(b, n + 1, txs + [r.value], rest')
  {
    var fs :| ParsesFirst(ParseTransaction, n, b, fs, rest) && txs == Txs(fs);
    NextFirst(ParseTransaction, n, b, fs, rest);
    var p := ParseTransaction(rest);
    if p.Parsed? {
      assert Txs(fs + [p.value]) == Txs(fs) + [p.value.tx];
    }
  }

  function Prepend<T>(front: seq<T>, p: Parse<seq<T>>): Parse<seq<T>> {
    match p
    case Refused => Refused
    case Parsed(back, rest) => Parsed(front + back, rest)
  }

  lemma PrependNothing<T>(p: Parse<seq<T>>)
    ensures Prepend([], p) == p
  {
    if p.Parsed? {
      assert [] + p.value == p.value;
    }
  }

  lemma PrependTwice<T>(front: seq<T>, x: T, p: Parse<seq<T>>)
    ensures Prepend(front, Prepend([x], p)) == Prepend(front + [x], p)
  {
    if p.Parsed? {
      assert front + ([x] + p.value) == front + [x] + p.value;
    }
  }

  /** One turn of the transaction loop. */
  method DecodeNext(reader: Reader, ghost b: Bytes, ghost index: nat, ghost txdata: seq<Transaction>) returns (tx: Option<Transaction>)
    requires ReadSoFar(b, index, txdata, reader.rest)
    modifies reader
    ensures tx.None? ==> ParseMany(ParseTransaction, index + 1, b).Refused?
    ensures tx.Some? ==> ReadSoFar(b, index + 1, txdata + [tx.value], reader.rest)
  {
    ghost var rest := reader.rest;
    tx := reader.DecodeTransaction();
    ReadNext(b, index, txdata, rest, tx, reader.rest);
  }

  /** The transaction loop of `deserialize_litecoin_block`. */
  method DecodeTransactions(reader: Reader, count: nat) returns (r: Option<seq<Transaction>>)
    modifies reader
    ensures match ParseMany(ParseTransaction, count, old(reader.rest))
            case Parsed(fs, b) => r == Some(Txs(fs)) && reader.rest == b
            case Refused => r == None
  {
    var txdata := [];
    var index := 0;
    assert ParsesFirst(ParseTransaction, 0, reader.rest, [], reader.rest) && Txs([]) == txdata;
    while index < count
      invariant 0 <= index <= count && ReadSoFar(old(reader.rest), index, txdata, reader.rest)
    {
      var tx := DecodeNext(reader, old(reader.rest), index, txdata);
      if tx.None? {
        RefusedStays(ParseTransaction, index + 1, count, old(reader.rest));
        return None;
      }
      txdata := txdata + [tx.value];
      index := index + 1;
    }
    return Some(txdata);
  }

  /** `deserialize_litecoin_block`. */
  method DeserializeLitecoinBlock(bytes: Bytes) returns (r: Option<Block>)
    ensures r.Some? ==> Serializes(bytes, r.value)
    ensures r.None? ==> forall block :: !Serializes(bytes, block)
  {
    forall block ensures Serializes(bytes, block) <==> ParseBlock(bytes).Parsed? && ParseBlock(bytes).value == block {
      BlockParserIsExact(bytes, block);
    }
    var reader := new Reader(bytes);
    var header := reader.Decode(ParseHeader);
    if header.None? { return None; }
    var count := reader.Decode(ParseVarInt);
    if count.None? { return None; }
    var txdata := DecodeTransactions(reader, count.value);
    if txdata.None? { return None; }
    return Some(Block(header.value, txdata.value));
  }
}
