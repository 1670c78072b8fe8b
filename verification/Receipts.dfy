/** Block receipts as a substitute for eth_getLogs
    (src/ethereum.rs:518-580, 1016-1126, 2872-2897). */
module Receipts {
  import opened Common
  import Parsing

  type Hash = string
  type Address = a: Bytes | |a| == 20 witness seq(20, _ => 0)
  type Topic = t: Bytes | |t| == 32 witness seq(32, _ => 0)

  datatype Log = Log(
    address: Address, topics: seq<Topic>, data: Bytes,
    txHash: Option<Hash>, index: Option<nat>, block: Option<nat>, removed: Option<bool>)

  datatype Receipt = Receipt(txHash: Hash, blockNumber: Option<nat>, blockHash: Option<Hash>, status: Option<nat>, logs: seq<Log>)

  datatype Block = Block(number: Option<nat>, hash: Option<Hash>, txs: seq<Hash>)

  /** A provider's answer. Unsupported errors make the code try another way. */
  datatype Answer<+T> = Ok(value: T) | Unsupported | Failed

  function Hashes(rs: seq<Receipt>): (r: seq<Hash>)
    ensures |r| == |rs| && forall i :: 0 <= i < |rs| ==> r[i] == rs[i].txHash
  {
    seq(|rs|, i requires 0 <= i < |rs| => rs[i].txHash)
  }

  predicate Distinct(s: seq<Hash>) {
    forall i, j :: 0 <= i < j < |s| ==> s[i] != s[j]
  }

  function ToSet(s: seq<Hash>): (r: set<Hash>)
    ensures forall x :: x in r <==> x in s
  {
    set x | x in s
  }

  /** `validate_receipt`. */
  predicate Validates(r: Receipt, number: nat, hash: Hash) {
    r.blockNumber == Some(number) && r.blockHash == Some(hash)
  }

  // ---------------------------------------------------------------------
  // Pigeonholes
  // ---------------------------------------------------------------------

  lemma {:induction false} SizeOfSet(s: seq<Hash>)
    ensures |ToSet(s)| <= |s|
    ensures |ToSet(s)| == |s| <==> Distinct(s)
  {
    if s == [] {
    } else {
      var front, last := s[..|s| - 1], s[|s| - 1];
      SizeOfSet(front);
      assert s == front + [last];
      assert ToSet(s) == ToSet(front) + {last};
      if last in front {
        assert ToSet(s) == ToSet(front);
        var k :| 0 <= k < |front| && front[k] == last;
        assert s[k] == s[|s| - 1];
      } else if Distinct(front) {
        assert Distinct(s);
      } else {
        var i, j :| 0 <= i < j < |front| && front[i] == front[j];
        assert s[i] == s[j];
      }
    }
  }

  lemma SubsetOfSize(a: set<Hash>, b: set<Hash>)
    requires a <= b && |a| >= |b|
    ensures a == b
  {
    if x :| x in b && x !in a {
      assert a <= b - {x};
      SubsetSize(a, b - {x});
    }
  }

  lemma {:induction false} SubsetSize(a: set<Hash>, b: set<Hash>)
    requires a <= b
    ensures |a| <= |b|
  {
    if a != {} {
      var x :| x in a;
      SubsetSize(a - {x}, b - {x});
    }
  }

  /** As many distinct hashes as the list is long, all from the list: then it is the whole
      list, and has no duplicates either. */
  lemma Pigeonhole(hs: seq<Hash>, txs: seq<Hash>)
    requires |hs| == |txs| && Distinct(hs) && forall h :: h in hs ==> h in txs
    ensures ToSet(hs) == ToSet(txs) && Distinct(txs)
  {
    SizeOfSet(hs);
    SizeOfSet(txs);
    SubsetOfSize(ToSet(hs), ToSet(txs));
  }

  // ---------------------------------------------------------------------
  // Receipts of a block
  // ---------------------------------------------------------------------

  /** Each receipt is of one transaction of the block, each transaction has one receipt. */
  ghost predicate OneToOne(rs: seq<Receipt>, txs: seq<Hash>) {
    |rs| == |txs| && Distinct(Hashes(rs)) && Distinct(txs) && ToSet(Hashes(rs)) == ToSet(txs)
  }

  ghost predicate Acceptable(block: Block, number: nat, rs: seq<Receipt>) {
    && block.hash.Some? && block.number == Some(number) && OneToOne(rs, block.txs)
    && forall r :: r in rs ==> r.blockNumber == Some(number) && r.blockHash == block.hash
  }

  /** The node's receipt of a transaction, in its block. */
  predicate Serves(p: Provider, h: Hash, number: nat, hash: Option<Hash>) {
    var r := p.single(h);
    r.Some? && r.value.txHash == h && r.value.blockNumber == Some(number) && r.value.blockHash == hash && hash.Some?
  }

  /** The provider has the block and all of its receipts, at once or, if it does not support
      that, one by one. */
  ghost predicate Served(p: Provider, number: nat) {
    var b := p.block(number);
    && b.Some? && b.value.hash.Some? && b.value.number == Some(number)
    && (b.value.txs == []
        || match p.batch(number)
           case Failed => false
           case Ok(rs) => rs.Some? && Acceptable(b.value, number, rs.value)
           case Unsupported => Distinct(b.value.txs) && forall h :: h in b.value.txs ==> Serves(p, h, number, b.value.hash))
  }

  /** The checks at the end of `block_receipts`: they pass exactly if the set is complete. */
  method CheckReceipts(receipts: seq<Receipt>, block: Block, number: nat) returns (ok: bool)
    requires block.hash.Some? && block.number == Some(number)
    ensures ok <==> Acceptable(block, number, receipts)
  {
    if |receipts| != |block.txs| {
      return false;
    }
    var expected := ToSet(block.txs);
    var seen: set<Hash> := {};
    var i := 0;
    while i < |receipts|
      invariant i <= |receipts|
      invariant seen == ToSet(Hashes(receipts[..i])) && Distinct(Hashes(receipts[..i]))
      invariant forall k :: 0 <= k < i ==> receipts[k].txHash in expected && Validates(receipts[k], number, block.hash.value)
    {
      var h := receipts[i].txHash;
      assert Hashes(receipts[..i + 1]) == Hashes(receipts[..i]) + [h];
      if h !in expected || h in seen {
        Refused(receipts, block.txs, i);
        return false;
      }
      if !Validates(receipts[i], number, block.hash.value) {
        assert receipts[i] in receipts;
        return false;
      }
      seen := seen + {h};
      i := i + 1;
    }
    assert receipts[..i] == receipts;
    var hs := Hashes(receipts);
    forall h | h in hs ensures h in block.txs {
      var k :| 0 <= k < |hs| && hs[k] == h;
      assert receipts[k].txHash in expected;
    }
    Pigeonhole(hs, block.txs);
    return true;
  }

  lemma Refused(rs: seq<Receipt>, txs: seq<Hash>, i: nat)
    requires i < |rs| && (rs[i].txHash !in ToSet(txs) || rs[i].txHash in ToSet(Hashes(rs[..i])))
    ensures !OneToOne(rs, txs)
  {
    var hs := Hashes(rs);
    assert hs[i] in ToSet(hs);
    if hs[i] in ToSet(Hashes(rs[..i])) {
      var k :| 0 <= k < i && Hashes(rs[..i])[k] == hs[i];
      assert hs[k] == hs[i];
    }
  }

  /** What a provider answers; None is an error or a missing block or receipt. */
  datatype Provider = Provider(
    block: nat -> Option<Block>,
    batch: nat -> Answer<Option<seq<Receipt>>>,
    single: Hash -> Option<Receipt>,
    logs: (nat, nat) -> Answer<seq<Log>>)

  /** `transaction_receipt`. */
  function TransactionReceipt(p: Provider, h: Hash): Option<Receipt> {
    var r := p.single(h);
    if r.Some? && r.value.txHash == h && r.value.blockHash.Some? && r.value.blockNumber.Some? then r else None
  }

  /** A receipt some answer of the provider contained. */
  ghost predicate FromProvider(p: Provider, r: Receipt) {
    || (exists n :: p.batch(n).Ok? && p.batch(n).value.Some? && r in p.batch(n).value.value)
    || (exists h :: p.single(h) == Some(r))
  }

  method SingleReceipts(txs: seq<Hash>, p: Provider) returns (r: Option<seq<Receipt>>)
    ensures r.Some? ==> forall x :: x in r.value ==> FromProvider(p, x)
    ensures r.Some? ==> |r.value| == |txs| && forall i :: 0 <= i < |txs| ==> p.single(txs[i]) == Some(r.value[i]) && r.value[i].txHash == txs[i]
    ensures r.None? ==> exists h :: h in txs && forall number, hash :: !Serves(p, h, number, hash)
  {
    var receipts, i := [], 0;
    while i < |txs|
      invariant i <= |txs| && |receipts| == i
      invariant forall x :: x in receipts ==> FromProvider(p, x)
      invariant forall k :: 0 <= k < i ==> p.single(txs[k]) == Some(receipts[k]) && receipts[k].txHash == txs[k]
    {
      var one := TransactionReceipt(p, txs[i]);
      if one.None? {
        assert txs[i] in txs && forall number, hash :: !Serves(p, txs[i], number, hash);
        return None;
      }
      assert p.single(txs[i]) == Some(one.value);
      receipts := receipts + [one.value];
      i := i + 1;
    }
    return Some(receipts);
  }

  /** `block_receipts`. */
  method BlockReceipts(number: nat, p: Provider) returns (r: Option<seq<Receipt>>)
    ensures r.Some? ==> p.block(number).Some? && Acceptable(p.block(number).value, number, r.value)
    ensures r.Some? <==> Served(p, number)
    ensures r.Some? ==> forall x :: x in r.value ==> FromProvider(p, x)
  {
    var block := p.block(number);
    if block.None? || block.value.hash.None? || block.value.number != Some(number) {
      return None;
    }
    if block.value.txs == [] {
      assert ToSet([]) == {};
      return Some([]);
    }
    var batch := p.batch(number);
    match batch {
      case Failed => return None;
      case Unsupported =>
        r := SingleReceipts(block.value.txs, p);
        if r.Some? {
          SinglesAreServed(p, number, block.value, r.value);
        }
      case Ok(receipts) => r := receipts;
    }
    if r.Some? {
      var ok := CheckReceipts(r.value, block.value, number);
      if !ok {
        r := None;
      }
    }
  }

  lemma SinglesAreServed(p: Provider, number: nat, block: Block, rs: seq<Receipt>)
    requires block.hash.Some? && block.number == Some(number) && |rs| == |block.txs|
    requires forall i :: 0 <= i < |rs| ==> p.single(block.txs[i]) == Some(rs[i]) && rs[i].txHash == block.txs[i]
    ensures Acceptable(block, number, rs) <==> Distinct(block.txs) && forall h :: h in block.txs ==> Serves(p, h, number, block.hash)
  {
    assert Hashes(rs) == block.txs;
    if Acceptable(block, number, rs) {
      forall h | h in block.txs ensures Serves(p, h, number, block.hash) {
        var i :| 0 <= i < |rs| && block.txs[i] == h;
        assert rs[i] in rs;
      }
    }
    if forall h :: h in block.txs ==> Serves(p, h, number, block.hash) {
      forall r | r in rs ensures r.blockNumber == Some(number) && r.blockHash == block.hash {
        var i :| 0 <= i < |rs| && rs[i] == r;
        assert block.txs[i] in block.txs;
      }
    }
  }

  // ---------------------------------------------------------------------
  // Token transfers
  // ---------------------------------------------------------------------

  datatype Config = Config(transfer: Topic, tokens: set<Address>, reserved: set<Address>)

  datatype Payment = Payment(token: Address, txHash: Hash, index: nat, block: nat, to: Address, amount: nat)

  datatype Reading = Skip | Bad | Paid(payment: Payment)

  function AddressFromTopic(t: Topic): Address { t[12..] }

  function AddressToTopic(a: Address): Topic { seq(12, _ => 0) + a }

  function BigEndian(d: Bytes): nat {
    if d == [] then 0 else BigEndian(d[..|d| - 1]) * 256 + d[|d| - 1]
  }

  /** `payment_from_log`. */
  function PaymentFromLog(cfg: Config, l: Log, from: nat, to: nat): Reading {
    if l.removed == Some(true) || |l.topics| != 3 || |l.data| != 32 || l.topics[0] != cfg.transfer then Skip
    else if l.address !in cfg.tokens then Skip
    else if AddressFromTopic(l.topics[2]) !in cfg.reserved then Skip
    else if l.txHash.None? || l.index.None? || l.block.None? then Bad
    else if !(from <= l.block.value <= to) then Bad
    else if BigEndian(l.data) == 0 then Skip
    else Paid(Payment(l.address, l.txHash.value, l.index.value, l.block.value, AddressFromTopic(l.topics[2]), BigEndian(l.data)))
  }

  /** v as contracts encode it, in k bytes. */
  function Word(k: nat, v: nat): Bytes {
    if k == 0 then [] else Word(k - 1, v / 256) + [v % 256]
  }

  lemma {:induction false} BigEndianInverse(d: Bytes)
    ensures BigEndian(d) < Parsing.Pow256(|d|) && Word(|d|, BigEndian(d)) == d
  {
    if d != [] {
      var front, last := d[..|d| - 1], d[|d| - 1];
      BigEndianInverse(front);
      assert BigEndian(d) / 256 == BigEndian(front) && BigEndian(d) % 256 == last;
      assert d == front + [last];
    }
  }

  /** A transfer of one of the tokens to a reserved address. */
  predicate IsTransfer(cfg: Config, l: Log) {
    && l.removed != Some(true) && |l.topics| == 3 && |l.data| == 32 && l.topics[0] == cfg.transfer
    && l.address in cfg.tokens && l.topics[2][12..] in cfg.reserved
  }

  predicate PaidBy(cfg: Config, l: Log, from: nat, to: nat, x: Payment) {
    && IsTransfer(cfg, l) && l.txHash == Some(x.txHash) && l.index == Some(x.index) && l.block == Some(x.block)
    && from <= x.block <= to && x.token == l.address && x.to == l.topics[2][12..]
    && x.amount > 0 && x.amount == BigEndian(l.data)
  }

  /** A transfer that does not say where it belongs, or belongs to another block. */
  predicate Misplaced(cfg: Config, l: Log, from: nat, to: nat) {
    IsTransfer(cfg, l) && (l.txHash.None? || l.index.None? || l.block.None? || l.block.value < from || l.block.value > to)
  }

  lemma ReadingIsRight(cfg: Config, l: Log, from: nat, to: nat)
    ensures forall x :: PaymentFromLog(cfg, l, from, to) == Paid(x) <==> PaidBy(cfg, l, from, to, x)
    ensures PaymentFromLog(cfg, l, from, to).Bad? <==> Misplaced(cfg, l, from, to)
  {
  }

  /** The filter sent with eth_getLogs. */
  predicate Matches(cfg: Config, l: Log) {
    && l.address in cfg.tokens && |l.topics| >= 3 && l.topics[0] == cfg.transfer
    && exists a :: a in cfg.reserved && l.topics[2] == AddressToTopic(a)
  }

  predicate Padded(l: Log) {
    |l.topics| == 3 ==> l.topics[2] == AddressToTopic(AddressFromTopic(l.topics[2]))
  }

  /** A log that is not skipped is found by the filter exactly if its receiver is padded with
      zeros. */
  lemma FilterFindsPadded(cfg: Config, l: Log)
    requires IsTransfer(cfg, l)
    ensures Matches(cfg, l) <==> Padded(l)
  {
    if Matches(cfg, l) {
      var a :| a in cfg.reserved && l.topics[2] == AddressToTopic(a);
      assert AddressFromTopic(l.topics[2]) == a;
    }
  }

  /** What really happened in the blocks. */
  datatype Truth = Truth(hash: nat -> Hash, txs: nat -> seq<Hash>, succeeded: Hash -> bool, logs: Hash -> seq<Log>)

  ghost predicate TrueLog(t: Truth, from: nat, to: nat, l: Log) {
    exists n, h :: Emits(t, from, to, n, h, l)
  }

  ghost predicate EmittedBefore(t: Truth, from: nat, to: nat, n: nat, l: Log) {
    exists m: nat, h: Hash :: m < n && Emits(t, from, to, m, h, l)
  }

  ghost predicate Emits(t: Truth, from: nat, to: nat, n: nat, h: Hash, l: Log) {
    from <= n <= to && h in t.txs(n) && t.succeeded(h) && l in t.logs(h)
  }

  /** Answers that name a block by its hash are about that block. */
  ghost predicate Consistent(p: Provider, t: Truth, cfg: Config) {
    && (forall n :: p.block(n).Some? ==> p.block(n).value.hash == Some(t.hash(n)) && p.block(n).value.txs == t.txs(n))
    && (forall r, n :: FromProvider(p, r) && r.blockNumber == Some(n) && r.blockHash == Some(t.hash(n)) && r.txHash in t.txs(n) ==>
          r.logs == t.logs(r.txHash) && (r.status == Some(1) ==> t.succeeded(r.txHash)) && (r.status == Some(0) ==> !t.succeeded(r.txHash)))
    && (forall a, b :: p.logs(a, b).Ok? ==> forall l :: l in p.logs(a, b).value <==> TrueLog(t, a, b, l) && Matches(cfg, l))
  }

  /** The logs of the successful receipts, or an error for a status that is neither 0 nor 1. */
  method CollectLogs(receipts: seq<Receipt>) returns (r: Option<seq<Log>>)
    ensures r.Some? <==> forall x :: x in receipts ==> x.status in {Some(0), Some(1)}
    ensures r.Some? ==> forall l :: l in r.value <==> exists i :: 0 <= i < |receipts| && receipts[i].status == Some(1) && l in receipts[i].logs
  {
    var logs, i := [], 0;
    while i < |receipts|
      invariant i <= |receipts| && forall k :: 0 <= k < i ==> receipts[k].status in {Some(0), Some(1)}
      invariant forall l :: l in logs <==> exists k :: 0 <= k < i && receipts[k].status == Some(1) && l in receipts[k].logs
    {
      if receipts[i].status !in {Some(0), Some(1)} {
        assert receipts[i] in receipts;
        return None;
      }
      if receipts[i].status == Some(1) {
        logs := logs + receipts[i].logs;
      }
      i := i + 1;
    }
    return Some(logs);
  }

  /** A complete set of receipts holds exactly the logs of the block. */
  lemma ReceiptsHoldTheLogs(p: Provider, t: Truth, cfg: Config, n: nat, rs: seq<Receipt>, l: Log)
    requires Consistent(p, t, cfg) && p.block(n).Some? && Acceptable(p.block(n).value, n, rs)
    requires forall x :: x in rs ==> FromProvider(p, x) && x.status in {Some(0), Some(1)}
    ensures (exists i :: 0 <= i < |rs| && rs[i].status == Some(1) && l in rs[i].logs) <==> TrueLog(t, n, n, l)
  {
    var hs := Hashes(rs);
    if i :| 0 <= i < |rs| && rs[i].status == Some(1) && l in rs[i].logs {
      assert rs[i] in rs && hs[i] in ToSet(hs);
      assert Emits(t, n, n, n, rs[i].txHash, l);
    }
    if TrueLog(t, n, n, l) {
      var m, h :| Emits(t, n, n, m, h, l);
      assert h in ToSet(hs);
      var i :| 0 <= i < |hs| && hs[i] == h;
      assert rs[i] in rs;
    }
  }

  /** All receipts of the block are served, and say whether their transactions succeeded. */
  ghost predicate Readable(p: Provider, n: nat) {
    Served(p, n) && forall x :: FromProvider(p, x) && x.blockNumber == Some(n) ==> x.status in {Some(0), Some(1)}
  }

  /** The fallback: the receipts of every block of the range. */
  method LogsFromReceipts(from: nat, to: nat, p: Provider, ghost t: Truth, ghost cfg: Config) returns (r: Option<seq<Log>>)
    requires from <= to && Consistent(p, t, cfg)
    ensures r.Some? ==> forall l :: l in r.value <==> TrueLog(t, from, to, l)
    ensures r.None? ==> exists n :: from <= n <= to && !Readable(p, n)
  {
    var logs, n := [], from;
    while n <= to
      invariant from <= n <= to + 1
      invariant forall l :: l in logs <==> EmittedBefore(t, from, to, n, l)
    {
      var receipts := BlockReceipts(n, p);
      if receipts.None? {
        assert !Readable(p, n);
        return None;
      }
      var more := CollectLogs(receipts.value);
      if more.None? {
        assert !Readable(p, n);
        return None;
      }
      forall l ensures l in logs + more.value <==> EmittedBefore(t, from, to, n + 1, l) {
        ReceiptsHoldTheLogs(p, t, cfg, n, receipts.value, l);
        OneMoreBlock(t, from, to, n, l);
      }
      logs := logs + more.value;
      n := n + 1;
    }
    return Some(logs);
  }

  lemma OneMoreBlock(t: Truth, from: nat, to: nat, n: nat, l: Log)
    requires from <= n <= to
    ensures EmittedBefore(t, from, to, n + 1, l) <==> EmittedBefore(t, from, to, n, l) || TrueLog(t, n, n, l)
  {
    if m: nat, h :| m < n + 1 && Emits(t, from, to, m, h, l) {
      if m == n {
        assert Emits(t, n, n, n, h, l);
      }
    }
    if TrueLog(t, n, n, l) {
      var m, h :| Emits(t, n, n, m, h, l);
      assert n < n + 1 && Emits(t, from, to, n, h, l);
    }
  }

  /** `scan_erc20_logs`, before known events are left out. By either way, the payments are
      those of the transfer logs that were really emitted. */
  method ScanErc20Logs(from: nat, to: nat, p: Provider, cfg: Config, ghost t: Truth) returns (r: Option<seq<Payment>>)
    requires from <= to && Consistent(p, t, cfg) && forall l :: TrueLog(t, from, to, l) ==> Padded(l)
    ensures r.Some? ==> forall x :: x in r.value <==> exists l :: TrueLog(t, from, to, l) && PaidBy(cfg, l, from, to, x)
    ensures r.None? ==>
      || p.logs(from, to).Failed? || (p.logs(from, to).Unsupported? && exists n :: from <= n <= to && !Readable(p, n))
      || exists l :: TrueLog(t, from, to, l) && Misplaced(cfg, l, from, to)
  {
    var logs: seq<Log>;
    var answer := p.logs(from, to);
    match answer {
      case Failed => return None;
      case Ok(found) => logs := found;
      case Unsupported =>
        var found := LogsFromReceipts(from, to, p, t, cfg);
        if found.None? {
          return None;
        }
        logs := found.value;
    }
    forall l ensures IsTransfer(cfg, l) ==> (l in logs <==> TrueLog(t, from, to, l)) {
      if IsTransfer(cfg, l) {
        FilterFindsPadded(cfg, l);
      }
    }
    r := ReadLogs(logs, from, to, cfg);
  }

  method ReadLogs(logs: seq<Log>, from: nat, to: nat, cfg: Config) returns (r: Option<seq<Payment>>)
    ensures r.Some? <==> forall l :: l in logs ==> !Misplaced(cfg, l, from, to)
    ensures r.Some? ==> forall x :: x in r.value <==> exists l :: l in logs && PaidBy(cfg, l, from, to, x)
  {
    var detected, i := [], 0;
    while i < |logs|
      invariant i <= |logs| && forall k :: 0 <= k < i ==> !Misplaced(cfg, logs[k], from, to)
      invariant forall x :: x in detected <==> exists k :: 0 <= k < i && PaidBy(cfg, logs[k], from, to, x)
    {
      ReadingIsRight(cfg, logs[i], from, to);
      match PaymentFromLog(cfg, logs[i], from, to) {
        case Bad =>
          assert logs[i] in logs;
          return None;
        case Skip =>
        case Paid(x) => detected := detected + [x];
      }
      i := i + 1;
    }
    forall x ensures x in detected <==> exists l :: l in logs && PaidBy(cfg, l, from, to, x) {
      if l :| l in logs && PaidBy(cfg, l, from, to, x) {
        var k :| 0 <= k < |logs| && logs[k] == l;
        assert PaidBy(cfg, logs[k], from, to, x);
      }
    }
    return Some(detected);
  }
}
