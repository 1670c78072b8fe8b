/** The Solana detector as it changes its state in place
    (src/solana.rs:1166-1664, 2455-2470, 2700-2714). */
module SolanaDetector {
  import opened Common
  import opened Outbox
  import opened Ledger
  import opened SolanaSignatures
  import opened SolanaScan

  /** Only the payments of one account were queued, and nothing else happened to them. */
  ghost predicate OnlyQueues(s: State<Scan>, s': State<Scan>) {
    && s'.mem.credited == s.mem.credited && s'.mem.ignored == s.mem.ignored && s.mem.pending <= s'.mem.pending
    && s'.credits == s.credits && s'.detected == s.detected
  }

  predicate Confirmed(slot: nat, current: nat, minConfirmations: nat) {
    var confirmations := if current >= slot then current - slot + 1 else 0;
    confirmations >= if minConfirmations > 1 then minConfirmations else 1
  }

  /** Who holds the address now, as far as Redis can tell; an unreachable Redis and a missing
      assignment do not stop the credit. */
  datatype OwnerCheck = Same | Other | Unassigned | Unreachable

  class SolanaDetector {
    const ledger: Ledger<Scan>
    const ch: SolanaChain
    const minConfirmations: nat
    ghost const begin: Scan

    constructor (ledger: Ledger<Scan>, ch: SolanaChain, minConfirmations: nat)
      requires ledger.Valid() && ledger.rules == SolanaRules(ch) && GoodChain(ch)
      requires ledger.start.mem.scan == ledger.start.disk.scan
      ensures Valid() && this.ledger == ledger && this.ch == ch && this.minConfirmations == minConfirmations
    {
      this.ledger, this.ch, this.minConfirmations := ledger, ch, minConfirmations;
      begin := ledger.start.mem.scan;
    }

    ghost predicate Valid()
      reads this, ledger
    {
      && ledger.Valid() && ledger.rules == SolanaRules(ch) && GoodChain(ch)
      && ledger.start.mem.scan == begin && ledger.start.disk.scan == begin
    }

    /** `queue_payment`. */
    method QueuePayment(x: Account, i: nat, slot: nat) returns (ok: bool)
      requires Valid() && i < |ch.history(x)| && AmountAt(ch, x, i).Some?
      modifies ledger
      ensures Valid() && old(ledger.trace) <= ledger.trace && OnlyQueues(old(ledger.state), ledger.state)
      ensures var key := ch.history(x)[i] + "|" + ch.owner(x).address + "|" + if ch.owner(x).asset.Some? then ch.owner(x).asset.value else "SOL";
        AddedUnless(key in old(ledger.credited) || Pending(old(ledger.Mem()), key), old(ledger.Mem()), ledger.Mem(),
                    Entry(key, key, ch.history(x)[i], ch.owner(x).address, ch.amount(x, ch.history(x)[i]).value, slot, false))
      ensures Accounted(ledger.Mem(), KeyAt(ch, x, i)) && (ok ==> ledger.disk == ledger.Mem())
      ensures ok <==> ledger.failures == old(ledger.failures)
      ensures ledger.failures >= old(ledger.failures)
    {
      var key := KeyAt(ch, x, i);
      if key !in ledger.credited && !exists k :: 0 <= k < |ledger.pending| && ledger.pending[k].id == key {
        var entry := EntryAt(ch, x, i, slot);
        AmountOfKey(ch, x, i);
        assert Guard(ch, ledger.state, Queue(entry));
        ledger.Push(entry);
        assert ledger.pending[|ledger.pending| - 1] == entry;
      }
      ok := ledger.PersistState();
    }

    /** `update_last_processed_signature`; dust says whether the deposit was found too small. */
    method UpdateLastProcessedSignature(x: Account, i: nat, dust: bool) returns (ok: bool)
      requires Valid() && MayMark(ch, ledger.Mem(), x, i, dust)
      modifies ledger
      ensures Valid() && old(ledger.trace) <= ledger.trace && OnlyQueues(old(ledger.state), ledger.state)
      ensures ledger.scan.cursors == old(ledger.scan).cursors[x := ch.history(x)[i]] && At(ch, ledger.scan, x) == i + 1
      ensures ledger.scan.dust == old(ledger.scan).dust + if dust then {KeyAt(ch, x, i)} else {}
      ensures ledger.pending == old(ledger.pending)
      ensures ok <==> ledger.failures == old(ledger.failures)
      ensures ledger.failures >= old(ledger.failures)
    {
      var c := Marked(ch, ledger.scan, x, i, dust);
      MayPass(ch, ledger.state, x, i, dust);
      ledger.MoveTo(c);
      ok := ledger.PersistState();
    }

    /** One signature of `process_native_for_reservation` and `process_token_for_reservation`;
        fetched is whether the transaction could be loaded, tooSmall the dust filter. */
    method ProcessSignature(x: Account, i: nat, fetched: bool, tooSmall: bool, slot: nat) returns (ok: bool)
      requires Valid() && i < |ch.history(x)|
      requires i <= At(ch, ledger.scan, x) && (tooSmall ==> ch.small(x, ch.history(x)[i]))
      modifies ledger
      ensures Valid() && old(ledger.trace) <= ledger.trace
      ensures SignatureScanned(ch, old(ledger.state), ledger.state, x, i, tooSmall)
      ensures NewDeposit(ch, old(ledger.pending), ledger.pending, x, i, tooSmall, slot)
      ensures ok ==> At(ch, ledger.scan, x) == i + 1 && Handled(ch, ledger.Mem(), x, i, tooSmall)
      ensures ledger.failures >= old(ledger.failures) && (ok <==> fetched && ledger.failures == old(ledger.failures))
    {
      if !fetched {
        return false;
      }
      if AmountAt(ch, x, i).None? {
        ok := UpdateLastProcessedSignature(x, i, false);
        return;
      }
      if tooSmall {
        ok := UpdateLastProcessedSignature(x, i, true);
        return;
      }
      ok := QueuePayment(x, i, slot);
      if !ok {
        return;
      }
      ok := UpdateLastProcessedSignature(x, i, false);
    }

    /** The scan of one account: everything newer than its cursor, oldest first, up to the
        first failure. A node that does not know the cursor is read from the beginning. */
    method ProcessAccount(x: Account, known: nat -> Option<nat>, fetches: Sig -> bool, tooSmall: Sig -> bool, slot: nat) returns (ok: bool)
      requires Valid() && Grows(ch.history(x), known) && forall sig :: tooSmall(sig) ==> ch.small(x, sig)
      modifies ledger
      ensures Valid() && old(ledger.trace) <= ledger.trace
      ensures AccountScanned(ch, old(ledger.state), ledger.state, x, tooSmall)
      ensures OnlyDeposits(ch, old(ledger.pending), ledger.pending, x, tooSmall, slot)
      ensures ok && known(0).Some? && known(0).value > 0 ==> At(ch, ledger.scan, x) == known(0).value
      ensures ok ==> known(0).Some?
      ensures ledger.failures >= old(ledger.failures)
      ensures ledger.failures == old(ledger.failures) && (forall n :: known(n).Some?) && (forall s :: fetches(s)) ==> ok
    {
      var l := ch.history(x);
      assert Distinct(l);
      var signatures := GetNewSignatures(l, Cursor(ledger.scan, x), known);
      if signatures.None? {
        return false;
      }
      var view := known(0).value;
      var first := Position(l[..view], Cursor(ledger.scan, x));
      PositionInView(l, view, Cursor(ledger.scan, x));
      var n := 0;
      ScannedNone(ch, ledger.state, x, first, tooSmall);
      while n < |signatures.value|
        invariant n <= |signatures.value| == view - first && Valid() && old(ledger.trace) <= ledger.trace
        invariant ScannedTo(ch, old(ledger.state), ledger.state, x, first, n, tooSmall) && ledger.failures >= old(ledger.failures)
        invariant OnlyDeposits(ch, old(ledger.pending), ledger.pending, x, tooSmall, slot)
      {
        ok := ProcessNext(x, first, n, fetches(signatures.value[n]), tooSmall, slot, old(ledger.state));
        if !ok {
          return;
        }
        n := n + 1;
      }
      ScannedSoFar(ch, old(ledger.state), ledger.state, x, first, n, tooSmall);
      ok := true;
    }

    /** One turn of the loop over new signatures; start is where the loop began. */
    method ProcessNext(x: Account, first: nat, n: nat, fetched: bool, tooSmall: Sig -> bool, slot: nat, ghost start: State<Scan>) returns (ok: bool)
      requires Valid() && first + n < |ch.history(x)| && ScannedTo(ch, start, ledger.state, x, first, n, tooSmall)
      requires OnlyDeposits(ch, start.mem.pending, ledger.pending, x, tooSmall, slot)
      requires tooSmall(ch.history(x)[first + n]) ==> ch.small(x, ch.history(x)[first + n])
      modifies ledger
      ensures Valid() && old(ledger.trace) <= ledger.trace
      ensures if ok then ScannedTo(ch, start, ledger.state, x, first, n + 1, tooSmall) else AccountScanned(ch, start, ledger.state, x, tooSmall)
      ensures OnlyDeposits(ch, start.mem.pending, ledger.pending, x, tooSmall, slot)
      ensures ledger.failures >= old(ledger.failures) && (ok <==> fetched && ledger.failures == old(ledger.failures))
    {
      ghost var s := ledger.state;
      ScannedSoFar(ch, start, s, x, first, n, tooSmall);
      ok := ProcessSignature(x, first + n, fetched, tooSmall(ch.history(x)[first + n]), slot);
      ScannedStep(ch, start, s, ledger.state, x, first, n, tooSmall, ok);
      OnlyDepositsThen(ch, start.mem.pending, s.mem.pending, ledger.pending, x, first + n, tooSmall, slot);
    }

    /** `process_credit_entry`: detection, confirmations, owner, sweep, credit, removal. The
        sweep fails or says whether it is deferred. */
    method ProcessCreditEntry(p: Entry, current: nat, owner: OwnerCheck, sweep: Option<bool>) returns (ok: bool)
      requires Valid() && Workable(ledger.rules, ledger.state, [p])
      modifies ledger
      ensures Valid() && old(ledger.trace) <= ledger.trace && OnlyConcerns(old(ledger.state), ledger.state, p)
      ensures ledger.state.credits != old(ledger.state.credits) ==>
                Buried(p.height, current, minConfirmations) && !owner.Other? && sweep.Some?
      ensures ledger.failures >= old(ledger.failures) && (ledger.failures == old(ledger.failures) && sweep.Some? ==> ok)
      ensures ok ==> p.id in ledger.state.detected
      ensures ok && !p.notified ==> Told(ledger.Mem(), p.id) && ledger.disk == ledger.Mem()
      ensures ledger.told == old(ledger.told) + if p.notified then 0 else 1
      ensures ok && Buried(p.height, current, minConfirmations) && !owner.Other? ==>
                p.id in ledger.credited && (sweep == Some(true) || !Pending(ledger.Mem(), p.id))
      ensures owner.Other? && p.id !in old(ledger.credited) ==>
                && ledger.credited == old(ledger.credited) && ledger.state.credits == old(ledger.state.credits)
                && (Pending(old(ledger.Mem()), p.id) ==> Pending(ledger.Mem(), p.id))
    {
      assert p in [p];
      ghost var s := ledger.state;
      ok := true;
      if !p.notified {
        ok := ledger.NotifyDetection(p);
        NotCreditedStays(s, ledger.state, p);
        if !ok {
          return;
        }
      }
      ghost var s1 := ledger.state;
      if !Confirmed(p.height, current, minConfirmations) {
        return;
      }
      ok := CreditConfirmed(p, owner, sweep);
      OnlyConcernsThen(s, s1, ledger.state, p);
    }

    method CreditConfirmed(p: Entry, owner: OwnerCheck, sweep: Option<bool>) returns (ok: bool)
      requires Valid() && Proper(ledger.rules, p) && (p.id !in ledger.credited ==> p.id in ledger.state.detected)
      modifies ledger
      ensures Valid() && old(ledger.trace) <= ledger.trace && OnlyConcerns(old(ledger.state), ledger.state, p)
      ensures ledger.state.credits != old(ledger.state.credits) ==> !owner.Other? && sweep.Some?
      ensures ok && !owner.Other? ==> p.id in ledger.credited && (sweep == Some(true) || !Pending(ledger.Mem(), p.id))
      ensures owner.Other? && p.id !in old(ledger.credited) ==> ledger.state == old(ledger.state)
      ensures ledger.told == old(ledger.told) && (ok && old(Told(ledger.Mem(), p.id)) ==> Told(ledger.Mem(), p.id))
      ensures ok && old(ledger.disk) == old(ledger.Mem()) ==> ledger.disk == ledger.Mem()
      ensures ledger.failures >= old(ledger.failures) && (ledger.failures == old(ledger.failures) && sweep.Some? ==> ok)
    {
      var alreadyCredited := p.id in ledger.credited;
      if !alreadyCredited && owner.Other? {
        return true;
      }
      if sweep.None? {
        return false;
      }
      ok := ledger.CreditAndRetire(p, alreadyCredited, sweep.value);
    }

    /** `process_credits`: a payment that fails does not hold up the others; if nothing fails,
        every confirmed payment whose address kept its owner is credited. */
    method ProcessCredits(current: nat, owners: Id -> OwnerCheck, sweeps: Id -> Option<bool>) returns (ok: bool)
      requires Valid()
      modifies ledger
      ensures Valid() && old(ledger.trace) <= ledger.trace && ledger.scan == old(ledger.scan)
      ensures CreditedFrom(old(ledger.state), ledger.state, old(ledger.pending), current, minConfirmations)
      ensures ledger.told <= old(ledger.told) + Untold(old(ledger.pending))
      ensures ledger.failures >= old(ledger.failures) && (ledger.failures == old(ledger.failures) ==> ok)
      ensures ledger.failures == old(ledger.failures) ==>
                AllCredited(ledger.Mem(), old(ledger.pending), |old(ledger.pending)|, current, minConfirmations, owners, sweeps)
    {
      ok := ledger.PersistState();
      if !ok {
        return;
      }
      var pending, n := ledger.pending, 0;
      ledger.Credits();
      while n < |pending|
        invariant n <= |pending| && Valid() && old(ledger.trace) <= ledger.trace && ledger.failures >= old(ledger.failures)
        invariant Workable(ledger.rules, ledger.state, pending)
        invariant CreditedFrom(old(ledger.state), ledger.state, pending, current, minConfirmations)
        invariant ledger.told <= old(ledger.told) + Untold(pending[..n])
        invariant ledger.failures == old(ledger.failures) ==>
                    AllCredited(ledger.Mem(), pending, n, current, minConfirmations, owners, sweeps)
      {
        ghost var s := ledger.state;
        assert pending[..n + 1][..n] == pending[..n];
        Attempt(pending, n, current, owners(pending[n].id), sweeps(pending[n].id), old(ledger.state));
        AllCreditedStays(s.mem, ledger.Mem(), pending, n, current, minConfirmations, owners, sweeps);
        n := n + 1;
      }
      assert pending[..n] == pending;
    }

    /** One turn of the loop over pending payments; start is where the loop began. */
    method Attempt(pending: seq<Entry>, n: nat, current: nat, owner: OwnerCheck, sweep: Option<bool>, ghost start: State<Scan>)
      requires Valid() && n < |pending| && Workable(ledger.rules, ledger.state, pending)
      requires CreditedFrom(start, ledger.state, pending, current, minConfirmations)
      modifies ledger
      ensures Valid() && old(ledger.trace) <= ledger.trace && Workable(ledger.rules, ledger.state, pending)
      ensures CreditedFrom(start, ledger.state, pending, current, minConfirmations)
      ensures old(ledger.credited) <= ledger.credited && ledger.failures >= old(ledger.failures)
      ensures ledger.told == old(ledger.told) + if pending[n].notified then 0 else 1
      ensures ledger.failures == old(ledger.failures) && sweep.Some? && !owner.Other? && Buried(pending[n].height, current, minConfirmations) ==>
                pending[n].id in ledger.credited
    {
      ghost var s := ledger.state;
      var p := pending[n];
      assert p in pending;
      var done := ProcessCreditEntry(p, current, owner, sweep);
      CreditedFromThen(start, s, ledger.state, pending, p, current, minConfirmations);
    }
  }

  /** The first n payments of ps are credited, if they are confirmed, their addresses kept
      their owners, and their sweeps were answered. */
  predicate AllCredited(b: Book<Scan>, ps: seq<Entry>, n: nat, current: nat, m: nat, owners: Id -> OwnerCheck, sweeps: Id -> Option<bool>)
    requires n <= |ps|
  {
    n == 0 || (AllCredited(b, ps, n - 1, current, m, owners, sweeps)
               && var p := ps[n - 1];
                  (Buried(p.height, current, m) && !owners(p.id).Other? && sweeps(p.id).Some? ==> p.id in b.credited))
  }

  lemma {:induction false} AllCreditedStays(b: Book<Scan>, b': Book<Scan>, ps: seq<Entry>, n: nat, current: nat, m: nat,
                                           owners: Id -> OwnerCheck, sweeps: Id -> Option<bool>)
    requires n <= |ps| && b.credited <= b'.credited
    ensures AllCredited(b, ps, n, current, m, owners, sweeps) ==> AllCredited(b', ps, n, current, m, owners, sweeps)
    decreases n
  {
    if n > 0 {
      AllCreditedStays(b, b', ps, n - 1, current, m, owners, sweeps);
    }
  }

  function EntryAt(ch: SolanaChain, x: Account, i: nat, slot: nat): Entry
    requires i < |ch.history(x)| && AmountAt(ch, x, i).Some?
  {
    Entry(KeyAt(ch, x, i), KeyAt(ch, x, i), ch.history(x)[i], ch.owner(x).address, AmountAt(ch, x, i).value, slot, false)
  }

  /** The entry of the i-th deposit to the account. */
  predicate IsDeposit(ch: SolanaChain, e: Entry, x: Account, i: nat, slot: nat)
    requires i < |ch.history(x)|
  {
    var sig, owner := ch.history(x)[i], ch.owner(x);
    var key := PaymentKey(sig, owner.address, owner.asset);
    ch.amount(x, sig).Some? && e == Entry(key, key, sig, owner.address, ch.amount(x, sig).value, slot, false)
  }

  /** Nothing was added to pending but this deposit, unless it is too small. */
  predicate NewDeposit(ch: SolanaChain, ps: seq<Entry>, ps': seq<Entry>, x: Account, i: nat, tooSmall: bool, slot: nat)
    requires i < |ch.history(x)|
  {
    ps' == ps || (!tooSmall && |ps'| == |ps| + 1 && ps'[..|ps|] == ps && IsDeposit(ch, ps'[|ps|], x, i, slot))
  }

  /** Nothing was added to pending but deposits to the account that are not too small. */
  ghost predicate OnlyDeposits(ch: SolanaChain, ps: seq<Entry>, ps': seq<Entry>, x: Account, tooSmall: Sig -> bool, slot: nat) {
    ps <= ps' && forall k :: |ps| <= k < |ps'| ==> SomeDeposit(ch, ps'[k], x, tooSmall, slot)
  }

  ghost predicate SomeDeposit(ch: SolanaChain, e: Entry, x: Account, tooSmall: Sig -> bool, slot: nat) {
    exists i :: 0 <= i < |ch.history(x)| && !tooSmall(ch.history(x)[i]) && IsDeposit(ch, e, x, i, slot)
  }

  lemma OnlyDepositsThen(ch: SolanaChain, ps: seq<Entry>, ps1: seq<Entry>, ps2: seq<Entry>, x: Account, i: nat, tooSmall: Sig -> bool, slot: nat)
    requires OnlyDeposits(ch, ps, ps1, x, tooSmall, slot) && i < |ch.history(x)|
    requires NewDeposit(ch, ps1, ps2, x, i, tooSmall(ch.history(x)[i]), slot)
    ensures OnlyDeposits(ch, ps, ps2, x, tooSmall, slot)
  {
    forall k | |ps| <= k < |ps2| ensures SomeDeposit(ch, ps2[k], x, tooSmall, slot) {
      if k < |ps1| {
        assert ps2[k] == ps2[..|ps1|][k] || ps2 == ps1;
      }
    }
  }

  /** The i-th signature deposited nothing, or too little, or its deposit is held. */
  ghost predicate Handled(ch: SolanaChain, b: Book<Scan>, x: Account, i: nat, tooSmall: bool)
    requires i < |ch.history(x)|
  {
    ch.amount(x, ch.history(x)[i]).None? || tooSmall || Accounted(b, KeyAt(ch, x, i))
  }

  ghost predicate AllHandled(ch: SolanaChain, b: Book<Scan>, x: Account, from: nat, end: nat, tooSmall: Sig -> bool)
    requires end <= |ch.history(x)|
  {
    forall i :: from <= i < end ==> Handled(ch, b, x, i, tooSmall(ch.history(x)[i]))
  }

  lemma HandledStays(ch: SolanaChain, s: State<Scan>, s': State<Scan>, x: Account, from: nat, end: nat, tooSmall: Sig -> bool)
    requires end <= |ch.history(x)| && AllHandled(ch, s.mem, x, from, end, tooSmall) && OnlyQueues(s, s')
    ensures AllHandled(ch, s'.mem, x, from, end, tooSmall)
  {
    forall i | from <= i < end && Accounted(s.mem, KeyAt(ch, x, i)) ensures Accounted(s'.mem, KeyAt(ch, x, i)) {
      QueuesKeep(s, s', KeyAt(ch, x, i));
    }
  }

  lemma QueuesKeep(s: State<Scan>, s': State<Scan>, id: Id)
    requires OnlyQueues(s, s') && Accounted(s.mem, id)
    ensures Accounted(s'.mem, id)
  {
    if Pending(s.mem, id) {
      var k :| 0 <= k < |s.mem.pending| && s.mem.pending[k].id == id;
      assert s'.mem.pending[k].id == id;
    }
  }

  /** Nothing but this deposit, found too small, was added to the dust. */
  predicate NewDust(ch: SolanaChain, sc: Scan, sc': Scan, x: Account, i: nat, tooSmall: bool)
    requires i < |ch.history(x)|
  {
    sc'.dust == sc.dust || (tooSmall && AmountAt(ch, x, i).Some? && sc'.dust == sc.dust + {KeyAt(ch, x, i)})
  }

  ghost predicate DustOf(ch: SolanaChain, id: Id, x: Account, tooSmall: Sig -> bool) {
    exists i :: 0 <= i < |ch.history(x)| && tooSmall(ch.history(x)[i]) && AmountAt(ch, x, i).Some? && id == KeyAt(ch, x, i)
  }

  ghost predicate OnlyDust(ch: SolanaChain, sc: Scan, sc': Scan, x: Account, tooSmall: Sig -> bool) {
    sc.dust <= sc'.dust && forall id :: id in sc'.dust && id !in sc.dust ==> DustOf(ch, id, x, tooSmall)
  }

  ghost predicate OthersStay(sc: Scan, sc': Scan, x: Account) {
    forall y :: y != x ==> Cursor(sc', y) == Cursor(sc, y)
  }

  /** The cursor of x stayed or passed the i-th signature, which was then dealt with. */
  ghost predicate SignatureScanned(ch: SolanaChain, s: State<Scan>, s': State<Scan>, x: Account, i: nat, tooSmall: bool)
    requires i < |ch.history(x)|
  {
    && OnlyQueues(s, s') && OthersStay(s.mem.scan, s'.mem.scan, x) && NewDust(ch, s.mem.scan, s'.mem.scan, x, i, tooSmall)
    && (s'.mem.scan != s.mem.scan ==> At(ch, s'.mem.scan, x) == i + 1 && Handled(ch, s'.mem, x, i, tooSmall))
  }

  /** Everything the cursor of x newly passed was dealt with: it deposited nothing, was
      found too small, or is held; and only what was found too small became dust. */
  ghost predicate AccountScanned(ch: SolanaChain, s: State<Scan>, s': State<Scan>, x: Account, tooSmall: Sig -> bool) {
    && OnlyQueues(s, s') && OthersStay(s.mem.scan, s'.mem.scan, x) && OnlyDust(ch, s.mem.scan, s'.mem.scan, x, tooSmall)
    && AllHandled(ch, s'.mem, x, At(ch, s.mem.scan, x), At(ch, s'.mem.scan, x), tooSmall)
  }

  /** n signatures from the first one on have been dealt with. */
  ghost predicate ScannedTo(ch: SolanaChain, s: State<Scan>, s': State<Scan>, x: Account, first: nat, n: nat, tooSmall: Sig -> bool) {
    forall here :: Unfolded(here) ==> ScannedToHere(ch, s, s', x, first, n, tooSmall)
  }

  ghost predicate ScannedToHere(ch: SolanaChain, s: State<Scan>, s': State<Scan>, x: Account, first: nat, n: nat, tooSmall: Sig -> bool) {
    && OnlyQueues(s, s') && OthersStay(s.mem.scan, s'.mem.scan, x) && OnlyDust(ch, s.mem.scan, s'.mem.scan, x, tooSmall)
    && first <= At(ch, s.mem.scan, x) && first + n <= |ch.history(x)| && AllHandled(ch, s'.mem, x, first, first + n, tooSmall)
    && if n == 0 then s'.mem.scan == s.mem.scan && (first > 0 ==> At(ch, s.mem.scan, x) == first)
       else At(ch, s'.mem.scan, x) == first + n
  }

  lemma ScannedSoFar(ch: SolanaChain, s: State<Scan>, s': State<Scan>, x: Account, first: nat, n: nat, tooSmall: Sig -> bool)
    requires ScannedTo(ch, s, s', x, first, n, tooSmall)
    ensures AccountScanned(ch, s, s', x, tooSmall) && first + n <= At(ch, s'.mem.scan, x)
    ensures first + n > 0 ==> At(ch, s'.mem.scan, x) == first + n
  {
    assert Unfolded(true);
  }

  lemma ScannedNone(ch: SolanaChain, s: State<Scan>, x: Account, first: nat, tooSmall: Sig -> bool)
    requires first <= At(ch, s.mem.scan, x) && (first > 0 ==> At(ch, s.mem.scan, x) == first)
    ensures ScannedTo(ch, s, s, x, first, 0, tooSmall)
  {
  }

  lemma ScannedStep(ch: SolanaChain, s: State<Scan>, s1: State<Scan>, s2: State<Scan>, x: Account, first: nat, n: nat, tooSmall: Sig -> bool, ok: bool)
    requires ScannedTo(ch, s, s1, x, first, n, tooSmall) && first + n < |ch.history(x)|
    requires SignatureScanned(ch, s1, s2, x, first + n, tooSmall(ch.history(x)[first + n]))
    requires ok ==> At(ch, s2.mem.scan, x) == first + n + 1 && Handled(ch, s2.mem, x, first + n, tooSmall(ch.history(x)[first + n]))
    ensures AccountScanned(ch, s, s2, x, tooSmall) && (ok ==> ScannedTo(ch, s, s2, x, first, n + 1, tooSmall))
  {
    ScannedCarry(ch, s, s1, s2, x, first, n, tooSmall);
    if ok || s2.mem.scan != s1.mem.scan {
      HandledMore(ch, s2.mem, x, first, first + n, tooSmall);
      ScannedUpTo(ch, s, s2, x, first, first + n + 1, tooSmall);
    } else {
      ScannedUpTo(ch, s, s2, x, first, first + n, tooSmall);
    }
  }

  lemma ScannedCarry(ch: SolanaChain, s: State<Scan>, s1: State<Scan>, s2: State<Scan>, x: Account, first: nat, n: nat, tooSmall: Sig -> bool)
    requires ScannedTo(ch, s, s1, x, first, n, tooSmall) && first + n < |ch.history(x)|
    requires OnlyQueues(s1, s2) && OthersStay(s1.mem.scan, s2.mem.scan, x)
    requires NewDust(ch, s1.mem.scan, s2.mem.scan, x, first + n, tooSmall(ch.history(x)[first + n]))
    ensures OnlyQueues(s, s2) && OthersStay(s.mem.scan, s2.mem.scan, x) && OnlyDust(ch, s.mem.scan, s2.mem.scan, x, tooSmall)
    ensures first <= At(ch, s.mem.scan, x) && AllHandled(ch, s2.mem, x, first, first + n, tooSmall)
    ensures At(ch, s1.mem.scan, x) == first + n || (n == 0 && s1.mem.scan == s.mem.scan)
  {
    assert Unfolded(true);
    HandledStays(ch, s1, s2, x, first, first + n, tooSmall);
    OnlyDustThen(ch, s.mem.scan, s1.mem.scan, s2.mem.scan, x, first + n, tooSmall);
  }

  lemma HandledMore(ch: SolanaChain, b: Book<Scan>, x: Account, from: nat, end: nat, tooSmall: Sig -> bool)
    requires end < |ch.history(x)| && AllHandled(ch, b, x, from, end, tooSmall)
    requires Handled(ch, b, x, end, tooSmall(ch.history(x)[end]))
    ensures AllHandled(ch, b, x, from, end + 1, tooSmall)
  {
  }

  lemma ScannedUpTo(ch: SolanaChain, s: State<Scan>, s': State<Scan>, x: Account, first: nat, end: nat, tooSmall: Sig -> bool)
    requires OnlyQueues(s, s') && OthersStay(s.mem.scan, s'.mem.scan, x) && OnlyDust(ch, s.mem.scan, s'.mem.scan, x, tooSmall)
    requires first <= At(ch, s.mem.scan, x) && end <= |ch.history(x)| && AllHandled(ch, s'.mem, x, first, end, tooSmall)
    requires At(ch, s'.mem.scan, x) == end || s'.mem.scan == s.mem.scan
    ensures AccountScanned(ch, s, s', x, tooSmall)
    ensures first < end == At(ch, s'.mem.scan, x) ==> ScannedTo(ch, s, s', x, first, end - first, tooSmall)
  {
  }

  lemma OnlyDustThen(ch: SolanaChain, sc: Scan, sc1: Scan, sc2: Scan, x: Account, i: nat, tooSmall: Sig -> bool)
    requires OnlyDust(ch, sc, sc1, x, tooSmall) && i < |ch.history(x)|
    requires NewDust(ch, sc1, sc2, x, i, tooSmall(ch.history(x)[i]))
    ensures OnlyDust(ch, sc, sc2, x, tooSmall)
  {
  }

  /** The cursor at the i-th signature. */
  function Marked(ch: SolanaChain, sc: Scan, x: Account, i: nat, dust: bool): Scan
    requires i < |ch.history(x)|
  {
    Scan(sc.cursors[x := ch.history(x)[i]], if dust then sc.dust + {KeyAt(ch, x, i)} else sc.dust)
  }

  ghost predicate MayMark(ch: SolanaChain, b: Book<Scan>, x: Account, i: nat, dust: bool) {
    && i < |ch.history(x)| && i <= At(ch, b.scan, x)
    && if dust then SmallAt(ch, x, i) else AmountAt(ch, x, i).None? || Accounted(b, KeyAt(ch, x, i))
  }

  lemma MayPass(ch: SolanaChain, s: State<Scan>, x: Account, i: nat, dust: bool)
    requires GoodChain(ch) && MayMark(ch, s.mem, x, i, dust)
    ensures var c := Marked(ch, s.mem.scan, x, i, dust); Guard(ch, s, Advance(c)) && At(ch, c, x) == i + 1
  {
    var c := Marked(ch, s.mem.scan, x, i, dust);
    assert Accounted(s.mem, KeyAt(ch, x, i)) ==> Accounted(s.mem.(scan := c), KeyAt(ch, x, i));
    assert Passes(ch, s.mem, c, x, i);
    assert Distinct(ch.history(x));
    PositionIs(ch.history(x), i);
  }

  lemma NotCreditedStays(s: State<Scan>, s': State<Scan>, p: Entry)
    requires OnlyConcerns(s, s', p)
    ensures !Credited(s'.mem, p) && Pending(s.mem, p.id) ==> Pending(s'.mem, p.id)
  {
    if !Credited(s'.mem, p) && Pending(s.mem, p.id) {
      var i :| 0 <= i < |s.mem.pending| && s.mem.pending[i].id == p.id;
      var q := s.mem.pending[i];
      assert StaysOrCredited(s'.mem, q, p);
      var j :| 0 <= j < |s'.mem.pending| && (s'.mem.pending[j] == q || s'.mem.pending[j] == q.(notified := true));
      assert s'.mem.pending[j].id == p.id;
    }
  }

  lemma PositionInView(l: seq<Sig>, view: nat, cursor: Option<Sig>)
    requires Distinct(l) && view <= |l|
    ensures Position(l[..view], cursor) <= Position(l, cursor)
    ensures Position(l[..view], cursor) > 0 ==> Position(l, cursor) == Position(l[..view], cursor)
  {
    var p := Position(l[..view], cursor);
    if p > 0 {
      PositionIs(l, p - 1);
    }
  }

  /** Every new credit is of a listed payment, confirmed, and not credited before. */
  ghost predicate CreditedFrom(s: State<Scan>, s': State<Scan>, ps: seq<Entry>, current: nat, minConfirmations: nat) {
    && s'.mem.scan == s.mem.scan && s.mem.credited <= s'.mem.credited && s.credits <= s'.credits
    && forall c :: c in s'.credits[|s.credits|..] ==> c.id !in s.mem.credited && Listed(ps, c, current, minConfirmations)
  }

  predicate Listed(ps: seq<Entry>, c: Credit, current: nat, minConfirmations: nat) {
    exists i :: 0 <= i < |ps| && c == Credit(ps[i].id, ps[i].amount) && Buried(ps[i].height, current, minConfirmations)
  }

  lemma CreditedFromThen(s: State<Scan>, s1: State<Scan>, s2: State<Scan>, ps: seq<Entry>, e: Entry, current: nat, m: nat)
    requires CreditedFrom(s, s1, ps, current, m) && OnlyConcerns(s1, s2, e) && e in ps
    requires s2.credits != s1.credits ==> Buried(e.height, current, m)
    ensures CreditedFrom(s, s2, ps, current, m)
  {
    if s2.credits != s1.credits {
      var n := |s.credits|;
      assert s2.credits[n..] == s1.credits[n..] + [Credit(e.id, e.amount)];
    }
  }
}
