/** Payments of a block: one per (transaction, address), summed over its outputs
    (src/blockstream.rs:671-752, 1043-1066, 1453-1476). */
module UtxoPayments {
  import opened Common

  const U64 := 0x1_0000_0000_0000_0000

  datatype Output = Output(txid: string, address: string, value: nat)

  predicate IsTxid(s: string) {
    |s| == 64 && forall i :: 0 <= i < |s| ==> '0' <= s[i] <= '9' || 'a' <= s[i] <= 'f'
  }

  /** `utxo_payment_key`. */
  function PaymentKey(ticker: string, txid: string, address: string): string {
    ticker + ":" + txid + ":" + address
  }

  lemma PaymentKeyInjective(ticker: string, t: string, a: string, t': string, a': string)
    requires IsTxid(t) && IsTxid(t')
    ensures PaymentKey(ticker, t, a) == PaymentKey(ticker, t', a') <==> t == t' && a == a'
    ensures PaymentKey(ticker, t, a) != t'
  {
    var k, k', n := PaymentKey(ticker, t, a), PaymentKey(ticker, t', a'), |ticker| + 1;
    assert k[n..n + 64] == t && k'[n..n + 64] == t';
    assert k[n + 65..] == a && k'[n + 65..] == a';
    assert |k| > 64;
  }

  // ---------------------------------------------------------------------
  // Totals
  // ---------------------------------------------------------------------

  predicate Pays(o: Output, txid: string, address: string) {
    o.txid == txid && o.address == address
  }

  function Total(outs: seq<Output>, txid: string, address: string): nat {
    if outs == [] then 0
    else Total(outs[..|outs| - 1], txid, address)
         + if Pays(outs[|outs| - 1], txid, address) then outs[|outs| - 1].value else 0
  }

  lemma {:induction false} TotalConcat(a: seq<Output>, b: seq<Output>, txid: string, address: string)
    ensures Total(a + b, txid, address) == Total(a, txid, address) + Total(b, txid, address)
    decreases |b|
  {
    if b == [] {
      assert a + b == a;
    } else {
      TotalConcat(a, b[..|b| - 1], txid, address);
      assert (a + b)[..|a + b| - 1] == a + b[..|b| - 1];
    }
  }

  /** The total of a payment does not depend on the order in which outputs are found. */
  lemma {:induction false} TotalIgnoresOrder(a: seq<Output>, b: seq<Output>, txid: string, address: string)
    requires multiset(a) == multiset(b)
    ensures Total(a, txid, address) == Total(b, txid, address)
    decreases |a|
  {
    if a == [] {
      assert |multiset(b)| == 0;
    } else {
      var last := a[|a| - 1];
      assert last in multiset(b);
      var i :| 0 <= i < |b| && b[i] == last;
      TakeOut(a, |a| - 1, txid, address);
      TakeOut(b, i, txid, address);
      TotalIgnoresOrder(a[..|a| - 1] + a[|a|..], b[..i] + b[i + 1..], txid, address);
    }
  }

  lemma TakeOut(b: seq<Output>, i: nat, txid: string, address: string)
    requires i < |b|
    ensures var rest := b[..i] + b[i + 1..];
            && multiset(rest) == multiset(b) - multiset{b[i]} && |rest| == |b| - 1
            && Total(b, txid, address) == Total(rest, txid, address) + if Pays(b[i], txid, address) then b[i].value else 0
  {
    var left, right, o := b[..i], b[i + 1..], b[i];
    assert b == left + ([o] + right);
    TotalConcat(left, [o] + right, txid, address);
    TotalConcat([o], right, txid, address);
    TotalConcat(left, right, txid, address);
    assert [o][..0] == [];
  }

  lemma {:induction false} TotalPositive(outs: seq<Output>, txid: string, address: string)
    ensures Total(outs, txid, address) > 0 <==> exists o :: o in outs && Pays(o, txid, address) && o.value > 0
  {
    if outs != [] {
      var front, last := outs[..|outs| - 1], outs[|outs| - 1];
      assert outs == front + [last];
      TotalPositive(front, txid, address);
    }
  }

  // ---------------------------------------------------------------------
  // Aggregation
  // ---------------------------------------------------------------------

  /** The payments are the positive totals of the outputs, modulo 2^64, once each. */
  ghost predicate Aggregates(ps: seq<Output>, outs: seq<Output>) {
    && (forall i, j :: 0 <= i < j < |ps| ==> !Pays(ps[i], ps[j].txid, ps[j].address))
    && (forall p :: p in ps ==> Total(outs, p.txid, p.address) > 0 && p == Payment(outs, p.txid, p.address))
    && (forall t, a :: Total(outs, t, a) > 0 ==> Payment(outs, t, a) in ps)
  }

  /** What one transaction pays one address: a u64, so the sum wraps. */
  function Payment(outs: seq<Output>, txid: string, address: string): Output {
    Output(txid, address, Total(outs, txid, address) % 0x1_0000_0000_0000_0000)
  }

  /** Any order of the same outputs aggregates to the same payments. */
  lemma AggregationIgnoresOrder(ps: seq<Output>, qs: seq<Output>, a: seq<Output>, b: seq<Output>)
    requires multiset(a) == multiset(b) && Aggregates(ps, a) && Aggregates(qs, b)
    ensures forall p :: p in ps <==> p in qs
  {
    forall t, ad ensures Total(a, t, ad) == Total(b, t, ad) {
      TotalIgnoresOrder(a, b, t, ad);
    }
    forall p | p in ps ensures p in qs {
      assert p == Payment(a, p.txid, p.address) == Payment(b, p.txid, p.address);
    }
    forall q | q in qs ensures q in ps {
      assert q == Payment(b, q.txid, q.address) == Payment(a, q.txid, q.address);
    }
  }

  /** One turn of the loop: skip a zero, else `entry(..).and_modify(..).or_insert(..)`. */
  method AddOutput(ticker: string, totals: map<string, Output>, payment: Output, ghost outs: seq<Output>)
    returns (r: map<string, Output>)
    requires TotalsOf(ticker, totals, outs) && IsTxid(payment.txid) && payment.value < U64
    ensures TotalsOf(ticker, r, outs + [payment])
  {
    if payment.value == 0 {
      NothingToAdd(ticker, totals, outs, payment);
      return totals;
    }
    var key := PaymentKey(ticker, payment.txid, payment.address);
    AddToTotals(ticker, totals, outs, payment);
    if key in totals {
      r := totals[key := payment.(value := (totals[key].value + payment.value) % U64)];
    } else {
      r := totals[key := payment];
    }
  }

  /** `aggregate_utxo_payments`; amounts are u64 and wrap. */
  method AggregateUtxoPayments(ticker: string, payments: seq<Output>) returns (r: seq<Output>)
    requires forall o :: o in payments ==> IsTxid(o.txid) && o.value < 0x1_0000_0000_0000_0000
    ensures Aggregates(r, payments)
  {
    var totals: map<string, Output> := map[];
    var n := 0;
    while n < |payments|
      invariant n <= |payments| && TotalsOf(ticker, totals, payments[..n])
    {
      var payment := payments[n];
      assert payments[..n + 1] == payments[..n] + [payment];
      assert payment in payments;
      totals := AddOutput(ticker, totals, payment, payments[..n]);
      n := n + 1;
    }
    assert payments[..n] == payments;
    r := IntoValues(ticker, totals, payments);
  }

  /** The map holds, under its key, every payment with a positive total so far. */
  ghost predicate TotalsOf(ticker: string, m: map<string, Output>, outs: seq<Output>) {
    && (forall k :: k in m ==>
          && IsTxid(m[k].txid) && k == PaymentKey(ticker, m[k].txid, m[k].address)
          && Total(outs, m[k].txid, m[k].address) > 0)
    && (forall t, a :: Total(outs, t, a) > 0 ==>
          PaymentKey(ticker, t, a) in m && m[PaymentKey(ticker, t, a)] == Payment(outs, t, a))
  }

  lemma NothingToAdd(ticker: string, m: map<string, Output>, outs: seq<Output>, o: Output)
    requires TotalsOf(ticker, m, outs) && o.value == 0
    ensures TotalsOf(ticker, m, outs + [o])
  {
    forall t, a ensures Total(outs + [o], t, a) == Total(outs, t, a) {
      assert (outs + [o])[..|outs|] == outs;
    }
  }

  lemma AddToTotals(ticker: string, m: map<string, Output>, outs: seq<Output>, o: Output)
    requires TotalsOf(ticker, m, outs) && IsTxid(o.txid) && 0 < o.value < U64
    ensures var key := PaymentKey(ticker, o.txid, o.address);
            var sum := if key in m then (m[key].value + o.value) % U64 else o.value;
            TotalsOf(ticker, m[key := o.(value := sum)], outs + [o])
  {
    var key := PaymentKey(ticker, o.txid, o.address);
    var sum := if key in m then (m[key].value + o.value) % U64 else o.value;
    var m' := m[key := o.(value := sum)];
    forall t, a ensures Total(outs + [o], t, a) == Total(outs, t, a) + if Pays(o, t, a) then o.value else 0 {
      assert (outs + [o])[..|outs|] == outs;
    }
    if key in m {
      PaymentKeyInjective(ticker, o.txid, o.address, m[key].txid, m[key].address);
      ModSum(Total(outs, o.txid, o.address), o.value);
    } else {
      assert Total(outs, o.txid, o.address) == 0;
    }
    forall k | k in m' && k != key ensures !Pays(o, m'[k].txid, m'[k].address) {
    }
    forall t, a | Total(outs + [o], t, a) > 0
      ensures PaymentKey(ticker, t, a) in m' && m'[PaymentKey(ticker, t, a)] == Payment(outs + [o], t, a)
    {
      if !Pays(o, t, a) {
        var x := m[PaymentKey(ticker, t, a)];
        PaymentKeyInjective(ticker, o.txid, o.address, x.txid, x.address);
      }
    }
  }

  lemma ModSum(total: nat, v: nat)
    ensures (total % U64 + v) % U64 == (total + v) % U64
  {
    var q := total / U64;
    assert total == q * U64 + total % U64;
    ModPlus(total % U64 + v, q);
  }

  lemma {:induction false} ModPlus(x: nat, q: nat)
    ensures (x + q * U64) % U64 == x % U64
  {
    if q > 0 {
      ModPlus(x, q - 1);
      assert (x + (q - 1) * U64 + U64) % U64 == (x + (q - 1) * U64) % U64;
    }
  }

  /** `totals.into_values().collect()`. */
  method IntoValues(ticker: string, totals: map<string, Output>, ghost outs: seq<Output>) returns (r: seq<Output>)
    requires TotalsOf(ticker, totals, outs)
    ensures Aggregates(r, outs)
  {
    r := [];
    var keys := totals.Keys;
    while keys != {}
      invariant keys <= totals.Keys
      invariant forall p :: p in r ==> PaymentKey(ticker, p.txid, p.address) in totals.Keys - keys
      invariant forall p :: p in r ==> totals[PaymentKey(ticker, p.txid, p.address)] == p
      invariant forall k :: k in totals.Keys - keys ==> totals[k] in r
      invariant forall i, j :: 0 <= i < j < |r| ==> !Pays(r[i], r[j].txid, r[j].address)
      decreases keys
    {
      var k :| k in keys;
      r := r + [totals[k]];
      keys := keys - {k};
    }
  }

  // ---------------------------------------------------------------------
  // Recovery of one transaction
  // ---------------------------------------------------------------------

  /** The summing loop of `recover_txid`, which saturates. */
  method RecoveredAmount(txid: string, vouts: seq<Output>, expected: string) returns (amount: nat)
    requires forall o :: o in vouts ==> o.txid == txid && o.value < 0x1_0000_0000_0000_0000
    ensures amount == if Total(vouts, txid, expected) < 0x1_0000_0000_0000_0000 then Total(vouts, txid, expected) else 0xFFFF_FFFF_FFFF_FFFF
  {
    amount := 0;
    var n := 0;
    while n < |vouts|
      invariant n <= |vouts|
      invariant amount == if Total(vouts[..n], txid, expected) < U64 then Total(vouts[..n], txid, expected) else U64 - 1
    {
      assert vouts[..n + 1][..n] == vouts[..n];
      assert vouts[n] in vouts;
      if vouts[n].address == expected {
        amount := if amount + vouts[n].value < U64 then amount + vouts[n].value else U64 - 1;
      }
      n := n + 1;
    }
    assert vouts[..n] == vouts;
  }

  // ---------------------------------------------------------------------
  // Blocks
  // ---------------------------------------------------------------------

  type Hash = string

  /** The chain as hashes name it: the parent and the transactions of a block, the outputs
      of a transaction, and the addresses derived from our key. */
  datatype ChainData = ChainData(
    ticker: string,
    parent: Hash -> Hash,
    txs: Hash -> seq<string>,
    outs: string -> seq<Output>,
    watched: set<string>)

  ghost predicate GoodChain(cd: ChainData) {
    && (forall h, i :: 0 <= i < |cd.txs(h)| ==> IsTxid(cd.txs(h)[i]))
    && (forall h, i, j :: 0 <= i < j < |cd.txs(h)| ==> cd.txs(h)[i] != cd.txs(h)[j])
    && (forall t, o :: o in cd.outs(t) ==> o.txid == t && o.value < 0x1_0000_0000_0000_0000)
    && (forall t, a :: Total(cd.outs(t), t, a) < 0x1_0000_0000_0000_0000)
  }

  ghost function Amount(cd: ChainData, t: string, a: string): nat { Total(cd.outs(t), t, a) }

  /** A payment the detector must not lose once it has recorded the block. */
  ghost predicate Due(cd: ChainData, h: Hash, t: string, a: string) {
    t in cd.txs(h) && a in cd.watched && Amount(cd, t, a) > 0
  }

  function OutputsOf(cd: ChainData, txids: seq<string>): seq<Output> {
    if txids == [] then [] else OutputsOf(cd, txids[..|txids| - 1]) + Watched(cd, cd.outs(txids[|txids| - 1]))
  }

  function Watched(cd: ChainData, outs: seq<Output>): (r: seq<Output>)
    ensures forall o :: o in r <==> o in outs && o.address in cd.watched
  {
    if outs == [] then []
    else Watched(cd, outs[..|outs| - 1])
         + if outs[|outs| - 1].address in cd.watched then [outs[|outs| - 1]] else []
  }

  lemma {:induction false} WatchedTotal(cd: ChainData, outs: seq<Output>, t: string, a: string)
    ensures Total(Watched(cd, outs), t, a) == if a in cd.watched then Total(outs, t, a) else 0
  {
    if outs != [] {
      var front, last := outs[..|outs| - 1], outs[|outs| - 1];
      WatchedTotal(cd, front, t, a);
      assert Total([last], t, a) == if Pays(last, t, a) then last.value else 0 by {
        assert [last][..0] == [];
      }
      TotalConcat(Watched(cd, front), if last.address in cd.watched then [last] else [], t, a);
    }
  }

  lemma {:induction false} ForeignTotal(outs: seq<Output>, t: string, u: string, a: string)
    requires t != u && forall o :: o in outs ==> o.txid == u
    ensures Total(outs, t, a) == 0
  {
    if outs != [] {
      assert outs[|outs| - 1] in outs;
      ForeignTotal(outs[..|outs| - 1], t, u, a);
    }
  }

  lemma {:induction false} BlockTotal(cd: ChainData, txids: seq<string>, t: string, a: string)
    requires GoodChain(cd) && forall i, j :: 0 <= i < j < |txids| ==> txids[i] != txids[j]
    ensures Total(OutputsOf(cd, txids), t, a) == if t in txids && a in cd.watched then Amount(cd, t, a) else 0
    decreases |txids|
  {
    if txids != [] {
      var front, last := txids[..|txids| - 1], txids[|txids| - 1];
      assert txids == front + [last];
      BlockTotal(cd, front, t, a);
      WatchedTotal(cd, cd.outs(last), t, a);
      TotalConcat(OutputsOf(cd, front), Watched(cd, cd.outs(last)), t, a);
      if t != last {
        ForeignTotal(cd.outs(last), t, last, a);
      }
    }
  }

  /** `scan_raw_block_parallel`, over the outputs of the block in the order found. */
  method ScanRawBlock(cd: ChainData, h: Hash) returns (ps: seq<Output>)
    requires GoodChain(cd)
    ensures forall p :: p in ps ==> Due(cd, h, p.txid, p.address) && p.value == Amount(cd, p.txid, p.address)
    ensures forall t, a :: Due(cd, h, t, a) ==> exists p :: p in ps && Pays(p, t, a)
  {
    var outs := OutputsOf(cd, cd.txs(h));
    forall o | o in outs ensures IsTxid(o.txid) && o.value < U64 {
      OutputOfBlock(cd, cd.txs(h), o);
    }
    forall t, a ensures Total(outs, t, a) == if t in cd.txs(h) && a in cd.watched then Amount(cd, t, a) else 0 {
      BlockTotal(cd, cd.txs(h), t, a);
    }
    ps := AggregateUtxoPayments(cd.ticker, outs);
  }

  /** The block scan finds a payment with the very key and amount that the recovery of its
      transaction computes. */
  lemma RecoveryAgreesWithScan(cd: ChainData, h: Hash, ps: seq<Output>, t: string, a: string)
    requires GoodChain(cd) && Aggregates(ps, OutputsOf(cd, cd.txs(h))) && Due(cd, h, t, a)
    ensures Output(t, a, Total(cd.outs(t), t, a)) in ps
    ensures forall p :: p in ps && Pays(p, t, a) ==> p.value == Total(cd.outs(t), t, a)
  {
    BlockTotal(cd, cd.txs(h), t, a);
    assert Payment(OutputsOf(cd, cd.txs(h)), t, a) == Output(t, a, Amount(cd, t, a));
  }

  lemma {:induction false} OutputOfBlock(cd: ChainData, txids: seq<string>, o: Output)
    requires GoodChain(cd) && o in OutputsOf(cd, txids)
    ensures o.txid in txids && o.value < U64
  {
    if o in OutputsOf(cd, txids[..|txids| - 1]) {
      OutputOfBlock(cd, txids[..|txids| - 1], o);
    } else {
      assert o in cd.outs(txids[|txids| - 1]);
    }
  }
}
