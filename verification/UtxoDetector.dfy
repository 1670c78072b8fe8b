/** The Bitcoin and Litecoin detector as it changes its state in place
    (src/blockstream.rs:754-951, 1310-1435). */
module UtxoDetector {
  import opened Common
  import opened Outbox
  import opened Ledger
  import opened UtxoScan
  import P = UtxoPayments

  // ---------------------------------------------------------------------
  // What crediting keeps
  // ---------------------------------------------------------------------

  /** The scan position is untouched, and every pending payment is still pending or now
      credited. */
  ghost predicate Keeps(cd: ChainData, b: Book<Scan>, b': Book<Scan>) {
    b'.scan == b.scan && b.credited <= b'.credited && forall p :: p in b.pending ==> Kept(cd, b', p)
  }

  lemma KeepsThen(cd: ChainData, b: Book<Scan>, b1: Book<Scan>, b2: Book<Scan>)
    requires Keeps(cd, b, b1) && Keeps(cd, b1, b2)
    ensures Keeps(cd, b, b2)
  {
    forall p | p in b.pending ensures Kept(cd, b2, p) {
      var q := p.(notified := true);
      if p in b1.pending {
        assert Kept(cd, b2, p);
      } else if q in b1.pending {
        assert Kept(cd, b2, q) && q.(notified := true) == q;
      }
    }
  }

  /** Nothing is pending that was not, but for notified flags. */
  ghost predicate NoneNew(b: Book<Scan>, b': Book<Scan>) {
    forall p :: p in b'.pending ==> p in b.pending || p.(notified := false) in b.pending
  }

  lemma NoneNewThen(b: Book<Scan>, b1: Book<Scan>, b2: Book<Scan>)
    requires NoneNew(b, b1) && NoneNew(b1, b2)
    ensures NoneNew(b, b2)
  {
    forall p | p in b2.pending ensures p in b.pending || p.(notified := false) in b.pending {
      var q := p.(notified := false);
      assert q.(notified := false) == q;
    }
  }

  /** The entry of a watched payment of the block. */
  ghost predicate DueEntry(cd: ChainData, e: Entry, hash: Hash, height: nat) {
    P.Due(cd, hash, e.txid, e.address) && IsEntryOf(cd, e, P.Output(e.txid, e.address, P.Amount(cd, e.txid, e.address)), height)
  }

  /** Nothing is newly pending but payments of the block. */
  ghost predicate OnlyDue(cd: ChainData, b: Book<Scan>, b': Book<Scan>, hash: Hash) {
    forall p :: p in b'.pending ==>
      p in b.pending || p.(notified := false) in b.pending || DueEntry(cd, p.(notified := false), hash, b.scan.next)
  }

  lemma ListedIsDue(cd: ChainData, b: Book<Scan>, b1: Book<Scan>, b2: Book<Scan>, ps: seq<P.Output>, hash: Hash)
    requires OnlyListed(cd, b, b1, ps) && NoneNew(b1, b2)
    requires forall p :: p in ps ==> P.Due(cd, hash, p.txid, p.address) && p.value == P.Amount(cd, p.txid, p.address)
    ensures OnlyDue(cd, b, b2, hash)
  {
    forall e | e in b1.pending && e !in b.pending ensures !e.notified && DueEntry(cd, e, hash, b.scan.next) {
      var i :| 0 <= i < |b1.pending| && b1.pending[i] == e;
      assert forall j :: 0 <= j < |b.pending| ==> b.pending[j] == b1.pending[j];
      var k :| 0 <= k < |ps| && IsEntryOf(cd, e, ps[k], b.scan.next);
      assert ps[k] in ps;
    }
    forall p | p in b2.pending
      ensures p in b.pending || p.(notified := false) in b.pending || DueEntry(cd, p.(notified := false), hash, b.scan.next)
    {
      if p in b1.pending && p !in b.pending {
        assert p.(notified := false) == p;
      }
    }
  }

  /** More payments at the end of pending. */
  ghost predicate Grows(b: Book<Scan>, b': Book<Scan>) {
    b'.scan == b.scan && b'.credited == b.credited && b.pending <= b'.pending
  }

  lemma GrowsKeeps(cd: ChainData, b: Book<Scan>, b': Book<Scan>)
    requires Grows(b, b')
    ensures Keeps(cd, b, b')
  {
    forall p | p in b.pending ensures p in b'.pending {
      var i :| 0 <= i < |b.pending| && b.pending[i] == p;
      assert b'.pending[i] == p;
    }
  }

  lemma KeepsHeld(cd: ChainData, b: Book<Scan>, b': Book<Scan>, t: string, a: string, h: nat)
    requires Keeps(cd, b, b') && Held(cd, b, t, a, h)
    ensures Held(cd, b', t, a, h)
  {
    if !CreditedPayment(cd, b, t, a) {
      var p :| p in b.pending && p.txid == t && p.address == a && p.height <= h;
      assert Kept(cd, b', p);
    }
  }

  ghost predicate HeldAll(cd: ChainData, b: Book<Scan>, ps: seq<P.Output>) {
    forall p :: p in ps ==> Held(cd, b, p.txid, p.address, b.scan.next)
  }

  function EntryOf(cd: ChainData, p: P.Output, height: nat): Entry {
    Entry(P.PaymentKey(cd.ticker, p.txid, p.address), p.txid, p.txid, p.address, p.value, height, false)
  }

  /** A payment still to be detected and credited: under the key of this release, and the
      transaction's ID for older ones. */
  predicate IsEntryOf(cd: ChainData, e: Entry, p: P.Output, height: nat) {
    && e.id == cd.ticker + ":" + p.txid + ":" + p.address && e.alias == p.txid
    && e.txid == p.txid && e.address == p.address && e.amount == p.value && e.height == height && !e.notified
  }

  predicate ForListed(cd: ChainData, e: Entry, ps: seq<P.Output>, height: nat) {
    exists k :: 0 <= k < |ps| && IsEntryOf(cd, e, ps[k], height)
  }

  /** What was added to pending are entries of the listed payments at the scanned height. */
  ghost predicate OnlyListed(cd: ChainData, b: Book<Scan>, b': Book<Scan>, ps: seq<P.Output>) {
    && b.pending <= b'.pending && b'.scan == b.scan
    && forall i :: |b.pending| <= i < |b'.pending| ==> ForListed(cd, b'.pending[i], ps, b.scan.next)
  }

  lemma OnlyListedThen(cd: ChainData, b: Book<Scan>, b1: Book<Scan>, b2: Book<Scan>, ps: seq<P.Output>, n: nat)
    requires OnlyListed(cd, b, b1, ps) && n < |ps|
    requires b2 == b1 || AddedOf(cd, b1, b2, ps[n])
    ensures OnlyListed(cd, b, b2, ps)
  {
  }

  ghost predicate AddedOf(cd: ChainData, b: Book<Scan>, b': Book<Scan>, p: P.Output) {
    exists e :: AddedUnless(false, b, b', e) && IsEntryOf(cd, e, p, b.scan.next)
  }

  ghost predicate HeldUpTo(cd: ChainData, b: Book<Scan>, ps: seq<P.Output>, n: nat)
    requires n <= |ps|
  {
    n == 0 || (HeldUpTo(cd, b, ps, n - 1) && Held(cd, b, ps[n - 1].txid, ps[n - 1].address, b.scan.next))
  }

  lemma {:induction false} HeldUpToAll(cd: ChainData, b: Book<Scan>, ps: seq<P.Output>, n: nat)
    requires n <= |ps| && HeldUpTo(cd, b, ps, n)
    ensures HeldAll(cd, b, ps[..n])
    decreases n
  {
    if n > 0 {
      HeldUpToAll(cd, b, ps, n - 1);
      assert ps[..n] == ps[..n - 1] + [ps[n - 1]];
    }
  }

  lemma {:induction false} HeldUpToGrows(cd: ChainData, b: Book<Scan>, b': Book<Scan>, ps: seq<P.Output>, n: nat)
    requires Grows(b, b') && n <= |ps| && HeldUpTo(cd, b, ps, n)
    ensures HeldUpTo(cd, b', ps, n)
    decreases n
  {
    if n > 0 {
      HeldUpToGrows(cd, b, b', ps, n - 1);
      GrowsKeeps(cd, b, b');
      KeepsHeld(cd, b, b', ps[n - 1].txid, ps[n - 1].address, b.scan.next);
    }
  }

  lemma ConcernKeeps(cd: ChainData, s: State<Scan>, s': State<Scan>, e: Entry)
    requires OnlyConcerns(s, s', e) && Keyed(cd, e) && forall p :: p in s.mem.pending ==> Keyed(cd, p)
    ensures Keeps(cd, s.mem, s'.mem)
  {
    forall p | p in s.mem.pending ensures Kept(cd, s'.mem, p) {
      if p.id == e.id {
        P.PaymentKeyInjective(cd.ticker, p.txid, p.address, e.txid, e.address);
        assert StaysOrCredited(s'.mem, p, e);
      }
    }
  }

  /** The credits sent since are for payments of ps with enough confirmations, not
      credited before. */
  ghost predicate CreditsConfirmed(s: State<Scan>, s': State<Scan>, ps: seq<Entry>, tip: nat, minConfirmations: nat) {
    && s.credits <= s'.credits
    && forall i :: |s.credits| <= i < |s'.credits| ==> SomeCreditDue(s, s'.credits[i], ps, tip, minConfirmations)
  }

  ghost predicate SomeCreditDue(s: State<Scan>, c: Credit, ps: seq<Entry>, tip: nat, minConfirmations: nat) {
    exists p :: p in ps && CreditDue(s, c, p, tip, minConfirmations)
  }

  ghost predicate CreditDue(s: State<Scan>, c: Credit, p: Entry, tip: nat, minConfirmations: nat) {
    Buried(p.height, tip, minConfirmations) && !Credited(s.mem, p) && c == Credit(p.id, p.amount)
  }

  lemma CreditsConfirmedThen(s: State<Scan>, s1: State<Scan>, s2: State<Scan>, ps: seq<Entry>, tip: nat, m: nat)
    requires CreditsConfirmed(s, s1, ps, tip, m) && CreditsConfirmed(s1, s2, ps, tip, m)
    requires s.mem.credited <= s1.mem.credited
    ensures CreditsConfirmed(s, s2, ps, tip, m)
  {
    forall i | |s.credits| <= i < |s2.credits| ensures SomeCreditDue(s, s2.credits[i], ps, tip, m) {
      if i < |s1.credits| {
        assert s2.credits[i] == s1.credits[i];
      } else {
        assert SomeCreditDue(s1, s2.credits[i], ps, tip, m);
        var p :| p in ps && CreditDue(s1, s2.credits[i], p, tip, m);
        assert CreditDue(s, s2.credits[i], p, tip, m);
      }
    }
  }

  /** The first n payments of ps are credited, if they have enough confirmations. */
  predicate AllCredited(b: Book<Scan>, ps: seq<Entry>, n: nat, tip: nat, minConfirmations: nat)
    requires n <= |ps|
  {
    n == 0 || (AllCredited(b, ps, n - 1, tip, minConfirmations)
               && (Buried(ps[n - 1].height, tip, minConfirmations) ==> Credited(b, ps[n - 1])))
  }

  lemma {:induction false} AllCreditedStays(b: Book<Scan>, b': Book<Scan>, ps: seq<Entry>, n: nat, tip: nat, m: nat)
    requires n <= |ps| && b.credited <= b'.credited
    ensures AllCredited(b, ps, n, tip, m) ==> AllCredited(b', ps, n, tip, m)
    decreases n
  {
    if n > 0 {
      AllCreditedStays(b, b', ps, n - 1, tip, m);
    }
  }

  lemma {:induction false} AllCreditedAt(b: Book<Scan>, ps: seq<Entry>, n: nat, i: nat, tip: nat, m: nat)
    requires i < n <= |ps| && AllCredited(b, ps, n, tip, m) && Buried(ps[i].height, tip, m)
    ensures Credited(b, ps[i])
    decreases n
  {
    if i < n - 1 {
      AllCreditedAt(b, ps, n - 1, i, tip, m);
    }
  }

  lemma {:induction false} AllCreditedBefore(b: Book<Scan>, ps: seq<Entry>, qs: seq<Entry>, n: nat, tip: nat, m: nat)
    requires n <= |ps| && ps <= qs && AllCredited(b, qs, |qs|, tip, m)
    ensures AllCredited(b, ps, n, tip, m)
    decreases n
  {
    if n > 0 {
      AllCreditedBefore(b, ps, qs, n - 1, tip, m);
      if Buried(ps[n - 1].height, tip, m) {
        AllCreditedAt(b, qs, |qs|, n - 1, tip, m);
      }
    }
  }

  /** The payments of the block are credited, if that many confirmations are enough. */
  ghost predicate DueCredited(cd: ChainData, b: Book<Scan>, hash: Hash, h: nat, tip: nat, m: nat) {
    forall t, a :: P.Due(cd, hash, t, a) && Buried(h, tip, m) ==> CreditedPayment(cd, b, t, a)
  }

  lemma HeldIsCredited(cd: ChainData, b: Book<Scan>, b': Book<Scan>, hash: Hash, tip: nat, m: nat)
    requires Covers(cd, b) && AllHeld(cd, b, hash, b.scan.next) && b.credited <= b'.credited
    requires AllCredited(b', b.pending, |b.pending|, tip, m)
    ensures DueCredited(cd, b', hash, b.scan.next, tip, m)
  {
    forall t, a | P.Due(cd, hash, t, a) && Buried(b.scan.next, tip, m) ensures CreditedPayment(cd, b', t, a) {
      assert Held(cd, b, t, a, b.scan.next);
      if !CreditedPayment(cd, b, t, a) {
        var p :| p in b.pending && p.txid == t && p.address == a && p.height <= b.scan.next;
        var i :| 0 <= i < |b.pending| && b.pending[i] == p;
        AllCreditedAt(b', b.pending, |b.pending|, i, tip, m);
      }
    }
  }

  // ---------------------------------------------------------------------
  // The detector
  // ---------------------------------------------------------------------

  datatype Outcome = Scanned | ReorgedFrom(height: nat) | Unanswered | NotSaved

  class ChainDetector {
    const ledger: Ledger<Scan>
    const cd: ChainData
    const minConfirmations: nat

    constructor (ledger: Ledger<Scan>, cd: ChainData, minConfirmations: nat)
      requires ledger.Valid() && ledger.rules == UtxoRules(cd, minConfirmations)
      requires CoverInv(cd, ledger.start) && P.GoodChain(cd)
      ensures Valid() && this.ledger == ledger && this.cd == cd && this.minConfirmations == minConfirmations
    {
      this.ledger, this.cd, this.minConfirmations := ledger, cd, minConfirmations;
    }

    ghost predicate Valid()
      reads this, ledger
    {
      && ledger.Valid() && ledger.rules == UtxoRules(cd, minConfirmations)
      && CoverInv(cd, ledger.start) && P.GoodChain(cd)
    }

    lemma Covered()
      requires Valid()
      ensures CoverInv(cd, ledger.state)
    {
      ledger.IsLegal();
      CoverRun(cd, minConfirmations, ledger.start, ledger.trace);
    }

    /** `detect_reorg`: walk down from the newest record while it differs from the chain. */
    method DetectReorg(view: View) returns (depth: nat)
      requires Valid()
      ensures ReorgDepth(ledger.scan.known, view, ledger.scan.next, depth)
    {
      Covered();
      var known, next := ledger.scan.known, ledger.scan.next;
      depth := 0;
      var checkHeight := SatSub(next, 1);
      while true
        invariant depth <= next && checkHeight == SatSub(next, depth + 1)
        invariant depth == next ==> next == 0
        invariant forall h :: next - depth <= h < next ==> Mismatch(known, view, h)
        decreases next - depth
      {
        if checkHeight !in known {
          break;
        }
        var chainHash := view(checkHeight);
        if chainHash.None? || known[checkHeight] == chainHash.value {
          break;
        }
        depth := depth + 1;
        if checkHeight == 0 {
          break;
        }
        checkHeight := checkHeight - 1;
      }
    }

    /** `enqueue_or_confirm`: push what is neither credited nor pending, then snapshot. */
    method EnqueueOrConfirm(payments: seq<P.Output>) returns (ok: bool)
      requires Valid() && ledger.scan.last.Some?
      requires forall p :: p in payments ==> P.IsTxid(p.txid) && p.value == P.Amount(cd, p.txid, p.address)
      modifies ledger
      ensures Valid() && old(ledger.trace) <= ledger.trace && ledger.state.credits == old(ledger.state.credits)
      ensures Grows(old(ledger.Mem()), ledger.Mem()) && HeldAll(cd, ledger.Mem(), payments)
      ensures OnlyListed(cd, old(ledger.Mem()), ledger.Mem(), payments)
      ensures ok ==> ledger.disk == ledger.Mem()
      ensures ok <==> ledger.failures == old(ledger.failures)
      ensures ledger.failures >= old(ledger.failures)
    {
      var n := 0;
      while n < |payments|
        invariant n <= |payments| && ledger.failures == old(ledger.failures)
        invariant Valid() && old(ledger.trace) <= ledger.trace && ledger.state.credits == old(ledger.state.credits)
        invariant Grows(old(ledger.Mem()), ledger.Mem()) && HeldUpTo(cd, ledger.Mem(), payments, n)
        invariant OnlyListed(cd, old(ledger.Mem()), ledger.Mem(), payments)
      {
        ghost var b := ledger.Mem();
        assert payments[n] in payments;
        EnqueuePayment(payments[n]);
        HeldUpToGrows(cd, b, ledger.Mem(), payments, n);
        OnlyListedThen(cd, old(ledger.Mem()), b, ledger.Mem(), payments, n);
        n := n + 1;
      }
      HeldUpToAll(cd, ledger.Mem(), payments, n);
      assert payments[..n] == payments;
      ok := ledger.PersistState();
    }

    method EnqueuePayment(p: P.Output)
      requires Valid() && ledger.scan.last.Some? && P.IsTxid(p.txid) && p.value == P.Amount(cd, p.txid, p.address)
      modifies ledger
      ensures Valid() && old(ledger.trace) <= ledger.trace && ledger.state.credits == old(ledger.state.credits)
      ensures Grows(old(ledger.Mem()), ledger.Mem())
      ensures ledger.Mem() == old(ledger.Mem()) || AddedOf(cd, old(ledger.Mem()), ledger.Mem(), p)
      ensures Held(cd, ledger.Mem(), p.txid, p.address, ledger.scan.next) && ledger.failures == old(ledger.failures)
    {
      Covered();
      var key := P.PaymentKey(cd.ticker, p.txid, p.address);
      if key in ledger.credited || p.txid in ledger.credited {
        return;
      }
      if i :| 0 <= i < |ledger.pending| && ledger.pending[i].txid == p.txid && ledger.pending[i].address == p.address {
        assert ledger.pending[i] in ledger.pending;
        return;
      }
      var entry := EntryOf(cd, p, ledger.scan.next);
      AmountOfKey(cd, p.txid, p.address);
      NotPending(ledger.Mem(), p.txid, p.address);
      assert Guard(cd, minConfirmations, ledger.state, Queue(entry));
      ledger.Push(entry);
      assert ledger.pending[|ledger.pending| - 1] == entry;
      assert AddedUnless(false, old(ledger.Mem()), ledger.Mem(), entry) && IsEntryOf(cd, entry, p, old(ledger.scan.next));
    }

    lemma NotPending(b: Book<Scan>, t: string, a: string)
      requires Covers(cd, b) && P.IsTxid(t)
      requires forall i :: 0 <= i < |b.pending| ==> !(b.pending[i].txid == t && b.pending[i].address == a)
      ensures !Pending(b, P.PaymentKey(cd.ticker, t, a))
    {
      forall i | 0 <= i < |b.pending| ensures b.pending[i].id != P.PaymentKey(cd.ticker, t, a) {
        assert b.pending[i] in b.pending;
        P.PaymentKeyInjective(cd.ticker, t, a, b.pending[i].txid, b.pending[i].address);
      }
    }

    /** `process_pending_payment`; deferred says whether its sweep is. */
    method ProcessPendingPayment(p: Entry, tip: nat, deferred: bool) returns (ok: bool)
      requires Valid() && Workable(ledger.rules, ledger.state, [p])
      modifies ledger
      ensures Valid() && old(ledger.trace) <= ledger.trace && old(ledger.state.detected) <= ledger.state.detected
      ensures Keeps(cd, old(ledger.Mem()), ledger.Mem())
      ensures CreditsConfirmed(old(ledger.state), ledger.state, [p], tip, minConfirmations) && NoneNew(old(ledger.Mem()), ledger.Mem())
      ensures ok ==> Credited(old(ledger.Mem()), p) || p.id in ledger.state.detected
      ensures ok && Buried(p.height, tip, minConfirmations) ==> Credited(ledger.Mem(), p) && (deferred || !Pending(ledger.Mem(), p.id))
      ensures ok && !p.notified && !Credited(old(ledger.Mem()), p) ==> Told(ledger.Mem(), p.id) && ledger.disk == ledger.Mem()
      ensures ledger.told == old(ledger.told) + if p.notified || Credited(old(ledger.Mem()), p) then 0 else 1
      ensures ok <==> ledger.failures == old(ledger.failures)
      ensures ledger.failures >= old(ledger.failures)
    {
      ghost var s := ledger.state;
      assert p in [p];
      Covered();
      ok := Process(p, tip, deferred);
      ConcernKeeps(cd, s, ledger.state, p);
    }

    method Process(p: Entry, tip: nat, deferred: bool) returns (ok: bool)
      requires Valid() && Proper(ledger.rules, p) && (p.notified ==> p.id in ledger.state.detected)
      modifies ledger
      ensures Valid() && old(ledger.trace) <= ledger.trace && OnlyConcerns(old(ledger.state), ledger.state, p)
      ensures ledger.state.credits != old(ledger.state.credits) ==> Buried(p.height, tip, minConfirmations)
      ensures ok ==> Credited(old(ledger.Mem()), p) || p.id in ledger.state.detected
      ensures ok && Buried(p.height, tip, minConfirmations) ==> Credited(ledger.Mem(), p) && (deferred || !Pending(ledger.Mem(), p.id))
      ensures ok && !p.notified && !Credited(old(ledger.Mem()), p) ==> Told(ledger.Mem(), p.id) && ledger.disk == ledger.Mem()
      ensures ledger.told == old(ledger.told) + if p.notified || Credited(old(ledger.Mem()), p) then 0 else 1
      ensures ok <==> ledger.failures == old(ledger.failures)
      ensures ledger.failures >= old(ledger.failures)
    {
      ghost var s := ledger.state;
      ok := true;
      var alreadyCredited := p.id in ledger.credited || p.alias in ledger.credited;
      if !p.notified && !alreadyCredited {
        ok := ledger.NotifyDetection(p);
        if !ok {
          return;
        }
      }
      ghost var s1 := ledger.state;
      var confirmations := if tip >= p.height then tip - p.height + 1 else 0;
      if confirmations < if minConfirmations > 1 then minConfirmations else 1 {
        return;
      }
      ok := ledger.CreditAndRetire(p, alreadyCredited, deferred);
      OnlyConcernsThen(s, s1, ledger.state, p);
    }

    /** `process_confirmed`: one attempt at every pending payment. What fails is left for the
        next round; if nothing fails, every confirmed payment is credited. */
    method ProcessConfirmed(tip: nat, deferred: Id -> bool) returns (ok: bool)
      requires Valid()
      modifies ledger
      ensures Valid() && old(ledger.trace) <= ledger.trace
      ensures Keeps(cd, old(ledger.Mem()), ledger.Mem())
      ensures CreditsConfirmed(old(ledger.state), ledger.state, old(ledger.pending), tip, minConfirmations)
      ensures NoneNew(old(ledger.Mem()), ledger.Mem()) && ledger.told <= old(ledger.told) + Untold(old(ledger.pending))
      ensures ledger.failures >= old(ledger.failures) && (ledger.failures == old(ledger.failures) ==> ok)
      ensures ledger.failures == old(ledger.failures) ==> AllCredited(ledger.Mem(), old(ledger.pending), |old(ledger.pending)|, tip, minConfirmations)
    {
      ok := ledger.PersistState();
      if !ok {
        return;
      }
      var pending, n := ledger.pending, 0;
      ledger.Credits();
      while n < |pending|
        invariant n <= |pending| && Valid() && old(ledger.trace) <= ledger.trace && ledger.failures >= old(ledger.failures)
        invariant ledger.failures == old(ledger.failures) ==> AllCredited(ledger.Mem(), pending, n, tip, minConfirmations)
        invariant Workable(ledger.rules, ledger.state, pending)
        invariant Keeps(cd, old(ledger.Mem()), ledger.Mem())
        invariant CreditsConfirmed(old(ledger.state), ledger.state, pending, tip, minConfirmations)
        invariant NoneNew(old(ledger.Mem()), ledger.Mem()) && ledger.told <= old(ledger.told) + Untold(pending[..n])
      {
        ghost var s := ledger.state;
        assert pending[..n + 1][..n] == pending[..n];
        Attempt(pending, n, tip, deferred(pending[n].id), old(ledger.state));
        AllCreditedStays(s.mem, ledger.Mem(), pending, n, tip, minConfirmations);
        n := n + 1;
      }
      assert pending[..n] == pending;
    }

    /** One turn of the loop over pending payments; start is where the loop began. */
    method Attempt(pending: seq<Entry>, n: nat, tip: nat, deferred: bool, ghost start: State<Scan>)
      requires Valid() && n < |pending| && Workable(ledger.rules, ledger.state, pending)
      requires Keeps(cd, start.mem, ledger.Mem()) && NoneNew(start.mem, ledger.Mem())
      requires CreditsConfirmed(start, ledger.state, pending, tip, minConfirmations)
      modifies ledger
      ensures Valid() && old(ledger.trace) <= ledger.trace && Workable(ledger.rules, ledger.state, pending)
      ensures Keeps(cd, start.mem, ledger.Mem()) && NoneNew(start.mem, ledger.Mem())
      ensures CreditsConfirmed(start, ledger.state, pending, tip, minConfirmations)
      ensures old(ledger.credited) <= ledger.credited && ledger.failures >= old(ledger.failures)
      ensures ledger.told <= old(ledger.told) + if pending[n].notified then 0 else 1
      ensures ledger.failures == old(ledger.failures) && Buried(pending[n].height, tip, minConfirmations) ==>
                Credited(ledger.Mem(), pending[n])
    {
      ghost var s := ledger.state;
      var p := pending[n];
      assert p in pending;
      var done := ProcessPendingPayment(p, tip, deferred);
      KeepsThen(cd, start.mem, s.mem, ledger.Mem());
      NoneNewThen(start.mem, s.mem, ledger.Mem());
      CreditsConfirmedThen(start, s, ledger.state, pending, tip, minConfirmations);
    }

    /** The head of `run_block_scan_loop`: find the first height, and forget the recorded
        hashes if the initial sync is skipped. An unanswered tip is an error. Nothing asks
        whether the start is safe; if it is, everything else holds on from there. */
    method StartLoop(startHeight: Option<nat>, skipInitialSync: bool, tip: Option<nat>) returns (started: bool)
      requires Valid()
      modifies ledger
      ensures ledger.pending == old(ledger.pending) && ledger.credited == old(ledger.credited)
      ensures var st := ChosenStart(old(ledger.scan), startHeight, skipInitialSync, tip);
              if st.Some? then ledger.scan == Restarted(old(ledger.scan), st.value)
              else !started && ledger.scan == old(ledger.scan)
      ensures var st := ChosenStart(old(ledger.scan), startHeight, skipInitialSync, tip);
              (st.Some? ==> SafeStart(cd, old(ledger.Mem()), st.value)) ==> Valid() && old(ledger.trace) <= ledger.trace
      ensures started <==>
        ChosenStart(old(ledger.scan), startHeight, skipInitialSync, tip).Some? && ledger.failures == old(ledger.failures)
      ensures started && skipInitialSync ==> ledger.disk == ledger.Mem()
    {
      ghost var st := ChosenStart(ledger.scan, startHeight, skipInitialSync, tip);
      var sc := ledger.scan;
      if startHeight.Some? {
        sc := sc.(next := startHeight.value);
      } else if skipInitialSync {
        if tip.None? {
          return false;
        }
        sc := sc.(known := map[], next := tip.value + 1);
      } else if sc.last.Some? {
        sc := sc.(next := sc.last.value + 1);
      } else {
        if tip.None? {
          return false;
        }
        sc := sc.(next := tip.value);
      }
      sc := sc.(last := Some(SatSub(sc.next, 1)));
      assert sc == Restarted(ledger.scan, st.value);
      assert SafeStart(cd, ledger.Mem(), st.value) ==> Guard(cd, minConfirmations, ledger.state, Advance(sc));
      started := ledger.StartAt(sc, skipInitialSync);
    }

    /** One turn of the inner loop. The hash to record is asked for after the check for a
        reorganisation, so it is a separate answer. */
    method ScanStep(tip: nat, view: View, hash: Option<Hash>, fetched: bool) returns (r: Outcome)
      requires Valid() && ledger.scan.last.Some?
      modifies ledger
      ensures Valid() && old(ledger.trace) <= ledger.trace && ledger.scan.last.Some?
      ensures Stepped(cd, minConfirmations, old(ledger.Mem()), ledger.Mem(), view, hash, fetched, r)
      ensures Turned(old(ledger.Mem()), ledger.Mem(), hash, minConfirmations, r)
      ensures r.Scanned? && ledger.failures == old(ledger.failures) ==>
        && AllCredited(ledger.Mem(), old(ledger.pending), |old(ledger.pending)|, tip, minConfirmations)
        && DueCredited(cd, ledger.Mem(), hash.value, old(ledger.scan.next), tip, minConfirmations)
      ensures r.Scanned? ==> OnlyDue(cd, old(ledger.Mem()), ledger.Mem(), hash.value)
      ensures r.Scanned? ==> ledger.disk == ledger.Mem()
      ensures ledger.failures >= old(ledger.failures) && (r.NotSaved? ==> ledger.failures > old(ledger.failures))
    {
      ghost var b := ledger.Mem();
      var depth := DetectReorg(view);
      if depth > 0 {
        r := RollBackTo(view, depth, hash, fetched);
      } else if hash.None? || !fetched {
        r := Unanswered;
      } else {
        r := ScanBlock(tip, view, hash.value);
      }
      SteppedTurns(cd, minConfirmations, b, ledger.Mem(), view, hash, fetched, r);
    }

    method RollBackTo(view: View, depth: nat, ghost hash: Option<Hash>, ghost fetched: bool) returns (r: Outcome)
      requires Valid() && depth > 0 && ReorgDepth(ledger.scan.known, view, ledger.scan.next, depth)
      modifies ledger
      ensures Valid() && old(ledger.trace) <= ledger.trace && ledger.scan.last.Some? && r.ReorgedFrom?
      ensures ledger.failures == old(ledger.failures)
      ensures Stepped(cd, minConfirmations, old(ledger.Mem()), ledger.Mem(), view, hash, fetched, r)
    {
      var from := ledger.scan.next - depth;
      MayRollBack(cd, minConfirmations, ledger.state, view, depth);
      ledger.RollBack(from, RolledBack(ledger.scan, from));
      r := ReorgedFrom(from);
    }

    /** Hold the payments of the block, then record it. */
    method ScanBlock(tip: nat, view: View, hash: Hash) returns (r: Outcome)
      requires Valid() && ledger.scan.last.Some? && ReorgDepth(ledger.scan.known, view, ledger.scan.next, 0)
      modifies ledger
      ensures Valid() && old(ledger.trace) <= ledger.trace && ledger.scan.last.Some?
      ensures Stepped(cd, minConfirmations, old(ledger.Mem()), ledger.Mem(), view, Some(hash), true, r)
      ensures r.Scanned? && ledger.failures == old(ledger.failures) ==>
        && AllCredited(ledger.Mem(), old(ledger.pending), |old(ledger.pending)|, tip, minConfirmations)
        && DueCredited(cd, ledger.Mem(), hash, old(ledger.scan.next), tip, minConfirmations)
      ensures r.Scanned? ==> OnlyDue(cd, old(ledger.Mem()), ledger.Mem(), hash)
      ensures r.Scanned? ==> ledger.disk == ledger.Mem()
      ensures ledger.failures >= old(ledger.failures) && (r.NotSaved? ==> ledger.failures > old(ledger.failures))
    {
      var held := HoldPayments(hash, tip);
      if !held {
        return NotSaved;
      }
      ghost var b := ledger.Mem();
      var saved := RecordBlock(hash);
      AllHeldElsewhere(cd, b, ledger.Mem(), hash, b.scan.next);
      AllCreditedStays(b, ledger.Mem(), old(ledger.pending), |old(ledger.pending)|, tip, minConfirmations);
      r := if saved then Scanned else NotSaved;
    }

    method RecordBlock(hash: Hash) returns (saved: bool)
      requires Valid() && AllHeld(cd, ledger.Mem(), hash, ledger.scan.next)
      modifies ledger
      ensures Valid() && old(ledger.trace) <= ledger.trace
      ensures ledger.Mem() == old(ledger.Mem()).(scan := Recorded(old(ledger.scan), hash, minConfirmations))
      ensures saved ==> ledger.disk == ledger.Mem()
      ensures ledger.failures >= old(ledger.failures) && (saved <==> ledger.failures == old(ledger.failures))
    {
      assert ledger.state.mem == ledger.Mem();
      MayRecord(cd, minConfirmations, ledger.state, hash);
      ledger.MoveTo(Recorded(ledger.scan, hash, minConfirmations));
      saved := ledger.PersistState();
    }

    /** Queue the payments of the block and work on everything pending; false if the queue
        could not be written. */
    method HoldPayments(hash: Hash, tip: nat) returns (held: bool)
      requires Valid() && ledger.scan.last.Some?
      modifies ledger
      ensures Valid() && old(ledger.trace) <= ledger.trace && Keeps(cd, old(ledger.Mem()), ledger.Mem())
      ensures AllHeld(cd, ledger.Mem(), hash, ledger.scan.next) && OnlyDue(cd, old(ledger.Mem()), ledger.Mem(), hash)
      ensures ledger.failures == old(ledger.failures) ==>
        AllCredited(ledger.Mem(), old(ledger.pending), |old(ledger.pending)|, tip, minConfirmations)
      ensures ledger.failures == old(ledger.failures) ==>
        DueCredited(cd, ledger.Mem(), hash, old(ledger.scan.next), tip, minConfirmations)
      ensures ledger.failures >= old(ledger.failures) && (!held ==> ledger.failures > old(ledger.failures))
    {
      ghost var b := ledger.Mem();
      var payments := P.ScanRawBlock(cd, hash);
      held := true;
      if payments != [] {
        held := EnqueueOrConfirm(payments);
      }
      ghost var b1 := ledger.Mem();
      GrowsKeeps(cd, b, b1);
      BlockHeld(cd, b1, hash, payments);
      Covered();
      ListedIsDue(cd, b, b1, b1, payments, hash);
      if held {
        var deferred: Id -> bool := *;
        var done := ProcessConfirmed(tip, deferred);
        KeepsThen(cd, b, b1, ledger.Mem());
        ListedIsDue(cd, b, b1, ledger.Mem(), payments, hash);
        if ledger.failures == old(ledger.failures) {
          AllCreditedBefore(ledger.Mem(), b.pending, b1.pending, |b.pending|, tip, minConfirmations);
          HeldIsCredited(cd, b1, ledger.Mem(), hash, tip, minConfirmations);
        }
        forall t, a | P.Due(cd, hash, t, a) ensures Held(cd, ledger.Mem(), t, a, ledger.scan.next) {
          KeepsHeld(cd, b1, ledger.Mem(), t, a, b1.scan.next);
        }
      }
    }

    /** A turn that is not the last brings the batch forward. */
    method ScanTurn(tip: nat, view: View, fetches: Hash -> bool, ghost low: nat) returns (r: Outcome)
      requires Valid() && ledger.scan.last.Some? && ledger.scan.next <= tip
      modifies ledger
      ensures Valid() && old(ledger.trace) <= ledger.trace && ledger.scan.last.Some?
      ensures r.ReorgedFrom? || r.Scanned? ==> Forward(cd, old(ledger.Mem()), ledger.Mem(), view, tip, r)
      ensures Chained(cd, old(ledger.Mem())) && WholeChain(cd, view, tip) && Mendable(old(ledger.Mem()), view, low, minConfirmations)
              ==> r.Unanswered? || r.NotSaved? || Mends(ledger.Mem(), view, low, minConfirmations, r)
      ensures r.Scanned? ==> ledger.disk == ledger.Mem()
      ensures r.Unanswered? ==> Silent(view, fetches, ledger.scan.next)
      ensures ledger.failures >= old(ledger.failures) && (r.NotSaved? ==> ledger.failures > old(ledger.failures))
    {
      ghost var b := ledger.Mem();
      Covered();
      var hash := view(ledger.scan.next);
      r := ScanStep(tip, view, hash, hash.Some? && fetches(hash.value));
      if r.ReorgedFrom? || r.Scanned? {
        StepProgress(cd, minConfirmations, b, ledger.Mem(), view, tip, r);
      }
      if Chained(cd, b) && WholeChain(cd, view, tip) && Mendable(b, view, low, minConfirmations) {
        StepMends(cd, minConfirmations, b, ledger.Mem(), view, tip, low, r);
      }
    }

    /** The inner loop for answers that do not change: it ends, because a rollback removes
        mismatching records and a scan adds a matching one. When it ends with everything
        scanned, the records agree with the chain; and if the record at height low was still
        that of the chain, and none above it missing, all blocks of the chain from there on
        have been recorded, however many of the old ones were replaced. */
    method ScanBatch(tip: nat, view: View, fetches: Hash -> bool, ghost low: nat) returns (r: Outcome)
      requires Valid() && ledger.scan.last.Some? && ledger.scan.next <= tip
      modifies ledger
      ensures Valid() && old(ledger.trace) <= ledger.trace
      ensures r.Scanned? ==> ledger.scan.next == tip + 1 && ledger.disk == ledger.Mem()
      ensures r.Scanned? && old(Chained(cd, ledger.Mem())) && WholeChain(cd, view, tip) ==> Agrees(ledger.scan.known, view)
      ensures r.Scanned? && old(Chained(cd, ledger.Mem())) && WholeChain(cd, view, tip) && old(Anchored(ledger.Mem(), view, low))
              ==> ChainRecorded(cd, ledger.Mem(), view, low, tip, minConfirmations)
      ensures r.Unanswered? ==> Silent(view, fetches, ledger.scan.next)
      ensures r.Scanned? || r.Unanswered? || (r.NotSaved? && ledger.failures > old(ledger.failures))
    {
      ghost var whole := Chained(cd, ledger.Mem()) && WholeChain(cd, view, tip);
      ghost var anchored := whole && Anchored(ledger.Mem(), view, low);
      r := ReorgedFrom(ledger.scan.next);
      while ledger.scan.next <= tip
        invariant Valid() && old(ledger.trace) <= ledger.trace && ledger.scan.last.Some?
        invariant MidBatch(ledger.Mem(), ledger.disk, view, tip, r)
        invariant whole ==> Chained(cd, ledger.Mem())
        invariant anchored ==> Mends(ledger.Mem(), view, low, minConfirmations, r)
        invariant ledger.failures >= old(ledger.failures)
        decreases Mismatches(ledger.scan.known, view), tip + 1 - ledger.scan.next
      {
        r := ScanTurn(tip, view, fetches, low);
        if r.Unanswered? || r.NotSaved? {
          return;
        }
      }
      if whole {
        Covered();
        UnseenMismatchMeansTorn(cd, ledger.scan.known, view, ledger.scan.next);
        if anchored {
          AllRecorded(cd, ledger.Mem(), view, low, tip, minConfirmations);
        }
      }
    }
  }

  // ---------------------------------------------------------------------
  // One turn of the scan loop
  // ---------------------------------------------------------------------

  function ChosenStart(sc: Scan, startHeight: Option<nat>, skipInitialSync: bool, tip: Option<nat>): Option<Start> {
    if startHeight.Some? then Some(Override(startHeight.value))
    else if skipInitialSync then if tip.Some? then Some(SkipSync(tip.value)) else None
    else if sc.last.Some? then Some(FromFile(0))
    else if tip.Some? then Some(FromFile(tip.value)) else None
  }

  /** Block n is remembered under this hash, besides the records of the minConfirmations + 10
      heights before it; all others are forgotten. */
  ghost predicate Remembers(sc: Scan, sc': Scan, hash: Hash, m: nat) {
    && (forall h :: h in sc'.known <==> h == sc.next || (h in sc.known && h + m + 10 >= sc.next))
    && (forall h :: h in sc'.known ==> sc'.known[h] == if h == sc.next then hash else sc.known[h])
    && sc'.last == Some(sc.next) && sc'.next == sc.next + 1 && sc'.log == sc.log[sc.next := hash]
  }

  /** The scan goes on at this height; nothing from there up to the old one is remembered. */
  ghost predicate GoesBack(sc: Scan, sc': Scan, from: nat) {
    && (forall h :: h in sc'.known <==> h in sc.known && (h < from || h >= sc.next))
    && (forall h :: h in sc'.known ==> sc'.known[h] == sc.known[h])
    && sc'.last == Some(if from > 0 then from - 1 else 0) && sc'.next == from
  }

  /** Where a turn leaves the scan, and which payments a rollback drops. */
  ghost predicate Turned(b: Book<Scan>, b': Book<Scan>, hash: Option<Hash>, m: nat, r: Outcome) {
    match r
    case Scanned => hash.Some? && Remembers(b.scan, b'.scan, hash.value, m)
    case ReorgedFrom(from) => GoesBack(b.scan, b'.scan, from) && forall p :: p in b'.pending <==> p in b.pending && p.height < from
    case Unanswered => b'.scan == b.scan
    case NotSaved => b'.scan == b.scan || (hash.Some? && Remembers(b.scan, b'.scan, hash.value, m))
  }

  ghost predicate Stepped(cd: ChainData, m: nat, b: Book<Scan>, b': Book<Scan>, view: View, hash: Option<Hash>, fetched: bool, r: Outcome) {
    match r
    case ReorgedFrom(from) =>
      from < b.scan.next && ReorgDepth(b.scan.known, view, b.scan.next, b.scan.next - from)
      && b' == b.(pending := Below(b.pending, from), scan := RolledBack(b.scan, from))
    case Scanned =>
      ReorgDepth(b.scan.known, view, b.scan.next, 0) && hash.Some? && fetched
      && b'.scan == Recorded(b.scan, hash.value, m) && AllHeld(cd, b', hash.value, b.scan.next)
    case Unanswered => b' == b && (hash.None? || !fetched)
    case NotSaved => b.credited <= b'.credited && (b'.scan == b.scan || (hash.Some? && b'.scan == Recorded(b.scan, hash.value, m)))
  }

  lemma SteppedTurns(cd: ChainData, m: nat, b: Book<Scan>, b': Book<Scan>, view: View, hash: Option<Hash>, fetched: bool, r: Outcome)
    requires Stepped(cd, m, b, b', view, hash, fetched, r)
    ensures Turned(b, b', hash, m, r)
  {
  }

  lemma MayRollBack(cd: ChainData, m: nat, s: State<Scan>, view: View, depth: nat)
    requires depth > 0 && ReorgDepth(s.mem.scan.known, view, s.mem.scan.next, depth)
    ensures var from: nat := s.mem.scan.next - depth; Guard(cd, m, s, Rollback(from, RolledBack(s.mem.scan, from)))
  {
    var from: nat := s.mem.scan.next - depth;
    forall h: nat | from <= h < s.mem.scan.next ensures h in s.mem.scan.known {
      assert Mismatch(s.mem.scan.known, view, h);
    }
    assert Guard(cd, m, s, Rollback(from, RolledBack(s.mem.scan, from)));
  }

  lemma MayRecord(cd: ChainData, m: nat, s: State<Scan>, hash: Hash)
    requires AllHeld(cd, s.mem, hash, s.mem.scan.next)
    ensures Guard(cd, m, s, Advance(Recorded(s.mem.scan, hash, m)))
  {
    var c := Recorded(s.mem.scan, hash, m);
    assert c == Recorded(s.mem.scan, hash, m) && AllHeld(cd, s.mem, hash, s.mem.scan.next);
  }

  lemma AllHeldElsewhere(cd: ChainData, b: Book<Scan>, b': Book<Scan>, hash: Hash, h: nat)
    requires AllHeld(cd, b, hash, h) && b'.pending == b.pending && b'.credited == b.credited
    ensures AllHeld(cd, b', hash, h)
  {
    forall t, a | P.Due(cd, hash, t, a) ensures Held(cd, b', t, a, h) {
      assert Held(cd, b, t, a, h);
    }
  }

  lemma BlockHeld(cd: ChainData, b: Book<Scan>, hash: Hash, payments: seq<P.Output>)
    requires HeldAll(cd, b, payments)
    requires forall t, a :: P.Due(cd, hash, t, a) ==> exists p :: p in payments && P.Pays(p, t, a)
    ensures AllHeld(cd, b, hash, b.scan.next)
  {
    forall t, a | P.Due(cd, hash, t, a) ensures Held(cd, b, t, a, b.scan.next) {
      var p :| p in payments && P.Pays(p, t, a);
      assert Held(cd, b, p.txid, p.address, b.scan.next);
    }
  }

  /** The explorer answers every height up to the tip, from one chain. */
  ghost predicate WholeChain(cd: ChainData, view: View, tip: nat) {
    && (forall h: nat :: h <= tip ==> view(h).Some?)
    && (forall h: nat, k: nat :: k == h + 1 <= tip ==> cd.parent(view(k).value) == view(h).value)
  }

  /** The record at height low is that of the chain, and none above it is missing. */
  ghost predicate Anchored(b: Book<Scan>, view: View, low: nat) {
    low < b.scan.next ==> (forall h :: low <= h < b.scan.next ==> h in b.scan.known) && view(low) == Some(b.scan.known[low])
  }

  /** From height low on, the blocks recorded are those of the chain. */
  ghost predicate ScannedFrom(b: Book<Scan>, view: View, low: nat, m: nat) {
    forall h :: low <= h < b.scan.next ==>
      h in b.scan.log && view(h) == Some(b.scan.log[h]) && (h + m + 11 >= b.scan.next ==> h in b.scan.known)
  }

  ghost predicate Mendable(b: Book<Scan>, view: View, low: nat, m: nat) {
    Anchored(b, view, low) || (NewestMatches(b.scan.known, view, b.scan.next) && ScannedFrom(b, view, low, m))
  }

  ghost predicate Mends(b: Book<Scan>, view: View, low: nat, m: nat, r: Outcome) {
    Mendable(b, view, low, m) && (r.Scanned? ==> ScannedFrom(b, view, low, m))
  }

  /** Every block of the chain from low up to the tip is recorded and what it pays is held,
      and the hashes of the newest minConfirmations + 11 of them are remembered. */
  ghost predicate ChainRecorded(cd: ChainData, b: Book<Scan>, view: View, low: nat, tip: nat, m: nat) {
    forall h :: low <= h <= tip ==>
      && h in b.scan.log && view(h) == Some(b.scan.log[h]) && AllHeld(cd, b, view(h).value, h)
      && (h + m + 10 >= tip ==> h in b.scan.known)
  }

  lemma AllRecorded(cd: ChainData, b: Book<Scan>, view: View, low: nat, tip: nat, m: nat)
    requires Covers(cd, b) && ScannedFrom(b, view, low, m) && b.scan.next == tip + 1
    ensures ChainRecorded(cd, b, view, low, tip, m)
  {
  }

  lemma AnchoredAgrees(cd: ChainData, b: Book<Scan>, view: View, tip: nat, low: nat)
    requires Covers(cd, b) && Chained(cd, b) && WholeChain(cd, view, tip) && Anchored(b, view, low)
    requires b.scan.next <= tip && ReorgDepth(b.scan.known, view, b.scan.next, 0)
    ensures forall h :: low <= h < b.scan.next ==> h in b.scan.log && view(h) == Some(b.scan.log[h])
  {
    if low < b.scan.next {
      var newest: nat := b.scan.next - 1;
      assert !Mismatch(b.scan.known, view, newest) && view(newest).Some?;
      forall h: nat | low <= h < b.scan.next ensures h in b.scan.log && view(h) == Some(b.scan.log[h]) {
        LinkedAgree(cd, b.scan.known, view, b.scan.next, h, newest);
      }
    }
  }

  lemma RollbackKeepsAnchor(b: Book<Scan>, b': Book<Scan>, view: View, low: nat, m: nat, from: nat)
    requires Mendable(b, view, low, m) && from < b.scan.next && GoesBack(b.scan, b'.scan, from)
    requires ReorgDepth(b.scan.known, view, b.scan.next, b.scan.next - from)
    ensures Anchored(b', view, low)
  {
    var newest: nat := b.scan.next - 1;
    assert Mismatch(b.scan.known, view, newest);
    assert Anchored(b, view, low);
    assert low < b.scan.next ==> !Mismatch(b.scan.known, view, low);
  }

  lemma RecordScansOn(b: Book<Scan>, b': Book<Scan>, view: View, low: nat, m: nat)
    requires view(b.scan.next).Some? && Remembers(b.scan, b'.scan, view(b.scan.next).value, m)
    requires forall h :: low <= h < b.scan.next ==> h in b.scan.log && view(h) == Some(b.scan.log[h])
    requires forall h :: low <= h < b.scan.next && h + m + 11 >= b.scan.next ==> h in b.scan.known
    ensures NewestMatches(b'.scan.known, view, b'.scan.next) && ScannedFrom(b', view, low, m)
  {
  }

  lemma StepMends(cd: ChainData, m: nat, b: Book<Scan>, b': Book<Scan>, view: View, tip: nat, low: nat, r: Outcome)
    requires b.scan.next <= tip && Covers(cd, b) && Chained(cd, b) && WholeChain(cd, view, tip) && Mendable(b, view, low, m)
    requires Turned(b, b', view(b.scan.next), m, r) && (r.Scanned? ==> ReorgDepth(b.scan.known, view, b.scan.next, 0))
    requires r.ReorgedFrom? ==> r.height < b.scan.next && ReorgDepth(b.scan.known, view, b.scan.next, b.scan.next - r.height)
    ensures r.Scanned? || r.ReorgedFrom? ==> Mends(b', view, low, m, r)
  {
    if r.Scanned? {
      if Anchored(b, view, low) {
        AnchoredAgrees(cd, b, view, tip, low);
      }
      RecordScansOn(b, b', view, low, m);
    } else if r.ReorgedFrom? {
      RollbackKeepsAnchor(b, b', view, low, m, r.height);
    }
  }

  ghost function Mismatches(known: map<nat, Hash>, view: View): set<nat> {
    set h | h in known && Mismatch(known, view, h)
  }

  /** No hash for the next block, or the block cannot be fetched. */
  predicate Silent(view: View, fetches: Hash -> bool, next: nat) {
    view(next).None? || !fetches(view(next).value)
  }

  ghost predicate MidBatch(b: Book<Scan>, disk: Book<Scan>, view: View, tip: nat, r: Outcome) {
    || (r.ReorgedFrom? && b.scan.next <= tip)
    || (r.Scanned? && b.scan.next <= tip + 1 && NewestMatches(b.scan.known, view, b.scan.next) && disk == b)
  }

  /** Fewer mismatching records, or no more of them and one block further. */
  ghost predicate Forward(cd: ChainData, b: Book<Scan>, b': Book<Scan>, view: View, tip: nat, r: Outcome) {
    && (if r.Scanned? then
          Mismatches(b'.scan.known, view) <= Mismatches(b.scan.known, view)
          && b'.scan.next == b.scan.next + 1 && NewestMatches(b'.scan.known, view, b'.scan.next)
        else
          Mismatches(b'.scan.known, view) < Mismatches(b.scan.known, view) && b'.scan.next <= tip)
    && (Chained(cd, b) && WholeChain(cd, view, tip) ==> Chained(cd, b'))
  }

  lemma FewerMismatches(cd: ChainData, b: Book<Scan>, b': Book<Scan>, view: View, tip: nat, from: nat)
    requires b.scan.next <= tip && from < b.scan.next && GoesBack(b.scan, b'.scan, from)
    requires ReorgDepth(b.scan.known, view, b.scan.next, b.scan.next - from)
    ensures Mismatches(b'.scan.known, view) < Mismatches(b.scan.known, view) && b'.scan.next <= tip
    ensures Chained(cd, b) ==> Chained(cd, b')
  {
    var newest: nat := b.scan.next - 1;
    assert Mismatch(b.scan.known, view, newest);
    assert newest in Mismatches(b.scan.known, view) && newest !in b'.scan.known;
  }

  lemma NoMoreMismatches(m: nat, b: Book<Scan>, b': Book<Scan>, view: View)
    requires view(b.scan.next).Some? && Remembers(b.scan, b'.scan, view(b.scan.next).value, m)
    ensures Mismatches(b'.scan.known, view) <= Mismatches(b.scan.known, view)
    ensures b'.scan.next == b.scan.next + 1 && NewestMatches(b'.scan.known, view, b'.scan.next)
  {
  }

  lemma StaysChained(cd: ChainData, m: nat, b: Book<Scan>, b': Book<Scan>, view: View, tip: nat)
    requires b.scan.next <= tip && view(b.scan.next).Some? && b'.scan == Recorded(b.scan, view(b.scan.next).value, m)
    requires ReorgDepth(b.scan.known, view, b.scan.next, 0) && Chained(cd, b) && WholeChain(cd, view, tip)
    ensures Chained(cd, b')
  {
    var n := b.scan.next;
    if n > 0 && n - 1 in b.scan.known {
      var newest: nat := n - 1;
      assert !Mismatch(b.scan.known, view, newest) && view(newest).Some?;
    }
    ChainedRecord(cd, b.scan, view(n).value, m);
  }

  lemma StepProgress(cd: ChainData, m: nat, b: Book<Scan>, b': Book<Scan>, view: View, tip: nat, r: Outcome)
    requires b.scan.next <= tip && (r.ReorgedFrom? || r.Scanned?)
    requires Stepped(cd, m, b, b', view, view(b.scan.next), true, r) && Turned(b, b', view(b.scan.next), m, r)
    ensures Forward(cd, b, b', view, tip, r)
  {
    if r.ReorgedFrom? {
      FewerMismatches(cd, b, b', view, tip, r.height);
    } else {
      NoMoreMismatches(m, b, b', view);
      if Chained(cd, b) && WholeChain(cd, view, tip) {
        StaysChained(cd, m, b, b', view, tip);
      }
    }
  }
}
