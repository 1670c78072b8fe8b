/** The EVM detectors as they change their state in place
    (src/ethereum.rs:801-930, 946-1014, 1100-1110, 1143-1433, 2154-2176, 2529-2558). */
module EvmDetector {
  import opened Common
  import opened Outbox
  import opened Ledger
  import opened EvmScan

  /** What the providers answer; None is an error. receipt says whether the transaction of
      a transfer succeeded. */
  datatype Provider = Provider(
    block: nat -> Option<seq<Transfer>>,
    receipt: Transfer -> Option<bool>,
    logs: (nat, nat) -> Option<seq<Transfer>>,
    internals: (Address, nat, nat) -> Option<seq<Transfer>>)

  datatype Query = OfBlock(n: nat) | OfReceipt(x: Transfer) | OfLogs(from: nat, to: nat) | OfInternals(a: Address, from: nat, to: nat)

  predicate Priced(amount: Id -> nat, xs: seq<Transfer>) {
    forall x :: x in xs ==> x.amount == amount(x.id)
  }

  /** An event ID stands for one amount, and receipts tell the truth. */
  predicate HonestAt(p: Provider, amount: Id -> nat, q: Query) {
    match q
    case OfBlock(n) => p.block(n).Some? ==> Priced(amount, p.block(n).value)
    case OfReceipt(x) => p.receipt(x).Some? ==> p.receipt(x).value == !x.failed
    case OfLogs(a, b) => p.logs(a, b).Some? ==> Priced(amount, p.logs(a, b).value)
    case OfInternals(x, a, b) => p.internals(x, a, b).Some? ==> Priced(amount, p.internals(x, a, b).value)
  }

  /** Whatever the providers answer for a range is what they may answer. */
  predicate TellsOf(p: Provider, told: Chunk -> bool, kind: Kind, from: nat, end: nat, lookup: seq<Address>) {
    from < end && Answered(p, kind, from, end, lookup) ==>
      told(Chunk(kind, from, end - 1, ToSet(lookup), AnswerOf(p, kind, from, end, lookup)))
  }

  ghost predicate Honest(p: Provider, w: World) {
    && (forall q :: HonestAt(p, w.amount, q))
    && forall kind: Kind, from: nat, end: nat, lookup :: TellsOf(p, w.told, kind, from, end, lookup)
  }

  predicate AnswersAt(p: Provider, q: Query) {
    match q
    case OfBlock(n) => p.block(n).Some?
    case OfReceipt(x) => p.receipt(x).Some?
    case OfLogs(a, b) => p.logs(a, b).Some?
    case OfInternals(w, a, b) => p.internals(w, a, b).Some?
  }

  /** Nothing asked of the providers fails. */
  ghost predicate AnswersAll(p: Provider) {
    forall q :: AnswersAt(p, q)
  }

  function ToSet(s: seq<Address>): (r: set<Address>)
    ensures forall a :: a in r <==> a in s
  {
    set a | a in s
  }

  function Incoming(xs: seq<Transfer>, a: Address): (r: seq<Transfer>)
    ensures forall x :: x in r <==> x in xs && x.to == Some(a)
  {
    if xs == [] then []
    else Incoming(xs[..|xs| - 1], a) + if xs[|xs| - 1].to == Some(a) then [xs[|xs| - 1]] else []
  }

  // ---------------------------------------------------------------------
  // What a source was answered for a range of blocks
  // ---------------------------------------------------------------------

  /** Blocks from up to, but not including, end. */
  function BlocksAnswer(p: Provider, from: nat, end: nat): (r: seq<Transfer>)
    requires from <= end && forall n :: from <= n < end ==> p.block(n).Some?
    ensures forall x :: x in r <==> exists n :: from <= n < end && x in p.block(n).value
    decreases end - from
  {
    if from == end then [] else BlocksAnswer(p, from, end - 1) + p.block(end - 1).value
  }

  function InternalsAnswer(p: Provider, from: nat, to: nat, lookup: seq<Address>): (r: seq<Transfer>)
    requires forall a :: a in lookup ==> p.internals(a, from, to).Some?
    ensures forall x :: x in r <==> exists a :: a in lookup && x in p.internals(a, from, to).value && x.to == Some(a)
  {
    if lookup == [] then []
    else
      var n := |lookup| - 1;
      InternalsAnswer(p, from, to, lookup[..n]) + Incoming(p.internals(lookup[n], from, to).value, lookup[n])
  }

  predicate Answered(p: Provider, kind: Kind, from: nat, end: nat, lookup: seq<Address>)
    requires from <= end
  {
    match kind
    case Native => forall n :: from <= n < end ==> p.block(n).Some?
    case Erc20 => end > 0 && p.logs(from, end - 1).Some?
    case Internal => end > 0 && forall a :: a in lookup ==> p.internals(a, from, end - 1).Some?
  }

  /** The transfer was reported for one of the blocks, or for one of the addresses. */
  predicate Reported(p: Provider, kind: Kind, from: nat, end: nat, lookup: seq<Address>, x: Transfer)
    requires from < end && Answered(p, kind, from, end, lookup)
  {
    match kind
    case Native => exists n :: from <= n < end && x in p.block(n).value
    case Erc20 => x in p.logs(from, end - 1).value
    case Internal => exists a :: a in lookup && x in p.internals(a, from, end - 1).value && x.to == Some(a)
  }

  function AnswerOf(p: Provider, kind: Kind, from: nat, end: nat, lookup: seq<Address>): (r: seq<Transfer>)
    requires from < end && Answered(p, kind, from, end, lookup)
    ensures forall x :: x in r <==> Reported(p, kind, from, end, lookup, x)
  {
    match kind
    case Native => BlocksAnswer(p, from, end)
    case Erc20 => p.logs(from, end - 1).value
    case Internal => InternalsAnswer(p, from, end - 1, lookup)
  }

  /** The chunk that a scan of blocks from up to, but not including, end completes. */
  predicate IsChunkOf(c: Chunk, p: Provider, kind: Kind, from: nat, end: nat, lookup: seq<Address>) {
    && from < end && c.kind == kind && c.from == from && c.to == end - 1 && c.lookup == ToSet(lookup)
    && Answered(p, kind, from, end, lookup) && c.answered == AnswerOf(p, kind, from, end, lookup)
  }

  // ---------------------------------------------------------------------
  // The detector
  // ---------------------------------------------------------------------

  predicate Known(b: Book<EvmScan>, id: Id) {
    id in b.credited || id in b.ignored || Pending(b, id)
  }

  /** Every qualifying transfer of xs is known or about to be queued. */
  ghost predicate Caught(cfg: Config, b: Book<EvmScan>, kind: Kind, lookup: set<Address>, xs: seq<Transfer>, detected: seq<Transfer>) {
    forall x :: x in xs && Qualifies(cfg, kind, x, lookup) ==> Known(b, x.id) || x in detected
  }

  function EntryOf(x: Transfer): Entry
    requires x.to.Some?
  {
    Entry(x.id, x.id, x.txid, x.to.value, x.amount, x.block, false)
  }

  /** Transfers that can be queued. */
  ghost predicate Queueable(amount: Id -> nat, xs: seq<Transfer>) {
    forall x :: x in xs ==> x.amount == amount(x.id) && x.to.Some?
  }

  /** A provider reported the transfer. */
  ghost predicate Seen(p: Provider, kind: Kind, x: Transfer) {
    match kind
    case Native => exists n :: p.block(n).Some? && x in p.block(n).value
    case Erc20 => exists a, b :: p.logs(a, b).Some? && x in p.logs(a, b).value
    case Internal => exists w, a, b :: p.internals(w, a, b).Some? && x in p.internals(w, a, b).value
  }

  /** Transfers that qualify and that a provider reported. */
  ghost predicate Genuinely(cfg: Config, p: Provider, kind: Kind, lookup: set<Address>, xs: seq<Transfer>) {
    forall x :: x in xs ==> Seen(p, kind, x) && Qualifies(cfg, kind, x, lookup)
  }

  predicate IsEntryOf(e: Entry, x: Transfer) {
    x.to.Some? && e == Entry(x.id, x.id, x.txid, x.to.value, x.amount, x.block, false)
  }

  /** A payment that stands for such a transfer. */
  ghost predicate Warranted(cfg: Config, p: Provider, lookup: set<Address>, e: Entry) {
    exists kind: Kind, x: Transfer :: Seen(p, kind, x) && Qualifies(cfg, kind, x, lookup) && IsEntryOf(e, x)
  }

  /** What was added to pending are such payments. */
  ghost predicate OnlyWarranted(cfg: Config, p: Provider, lookup: set<Address>, ps: seq<Entry>, ps': seq<Entry>) {
    ps <= ps' && forall i :: |ps| <= i < |ps'| ==> Warranted(cfg, p, lookup, ps'[i])
  }

  lemma OnlyWarrantedThen(cfg: Config, p: Provider, lookup: set<Address>, ps: seq<Entry>, ps1: seq<Entry>, ps2: seq<Entry>)
    requires OnlyWarranted(cfg, p, lookup, ps, ps1) && OnlyWarranted(cfg, p, lookup, ps1, ps2)
    ensures OnlyWarranted(cfg, p, lookup, ps, ps2)
  {
  }

  ghost predicate OnlyOf(xs: seq<Transfer>, ps: seq<Entry>, ps': seq<Entry>) {
    ps <= ps' && forall i :: |ps| <= i < |ps'| ==> exists x :: x in xs && IsEntryOf(ps'[i], x)
  }

  lemma OnlyOfThen(xs: seq<Transfer>, x: Transfer, ps: seq<Entry>, ps1: seq<Entry>, ps2: seq<Entry>)
    requires OnlyOf(xs, ps, ps1) && x in xs && x.to.Some?
    requires ps2 == ps1 || ps2 == ps1 + [Entry(x.id, x.id, x.txid, x.to.value, x.amount, x.block, false)]
    ensures OnlyOf(xs, ps, ps2)
  {
    forall i | |ps| <= i < |ps2| ensures exists y :: y in xs && IsEntryOf(ps2[i], y) {
      if i == |ps1| {
        assert IsEntryOf(ps2[i], x);
      } else {
        assert ps2[i] == ps1[i];
      }
    }
  }

  lemma OnlyOfWarranted(cfg: Config, p: Provider, kind: Kind, lookup: set<Address>, xs: seq<Transfer>, ps: seq<Entry>, ps': seq<Entry>)
    requires Genuinely(cfg, p, kind, lookup, xs) && OnlyOf(xs, ps, ps')
    ensures OnlyWarranted(cfg, p, lookup, ps, ps')
  {
  }

  /** Nothing but new pending payments. */
  ghost predicate Queued(s: State<EvmScan>, s': State<EvmScan>) {
    && s'.mem.scan == s.mem.scan && s'.mem.credited == s.mem.credited && s'.mem.ignored == s.mem.ignored
    && s.mem.pending <= s'.mem.pending && s'.credits == s.credits && s'.detected == s.detected
  }

  ghost predicate AllKnown(b: Book<EvmScan>, xs: seq<Transfer>, n: nat)
    requires n <= |xs|
  {
    n == 0 || (AllKnown(b, xs, n - 1) && Known(b, xs[n - 1].id))
  }

  lemma {:induction false} AllKnownAt(b: Book<EvmScan>, xs: seq<Transfer>, n: nat, x: Transfer)
    requires n <= |xs| && AllKnown(b, xs, n) && x in xs[..n]
    ensures Known(b, x.id)
    decreases n
  {
    if x != xs[n - 1] {
      AllKnownAt(b, xs, n - 1, x);
    }
  }

  lemma {:induction false} QueuedKnowsAll(s: State<EvmScan>, s': State<EvmScan>, xs: seq<Transfer>, n: nat)
    requires Queued(s, s') && n <= |xs| && AllKnown(s.mem, xs, n)
    ensures AllKnown(s'.mem, xs, n)
    decreases n
  {
    if n > 0 {
      QueuedKnowsAll(s, s', xs, n - 1);
    }
  }

  class EthereumDetector {
    const ledger: Ledger<EvmScan>
    const cfg: Config
    const hasTokens: bool
    const hasEtherscan: bool
    ghost const w: World

    constructor (ledger: Ledger<EvmScan>, cfg: Config, hasTokens: bool, hasEtherscan: bool, ghost w: World)
      requires ledger.Valid() && ledger.rules == EvmRules(cfg, w) && Loaded(ledger.start)
      ensures Valid() && this.ledger == ledger && this.cfg == cfg && this.w == w
      ensures this.hasTokens == hasTokens && this.hasEtherscan == hasEtherscan
    {
      this.ledger, this.cfg, this.w := ledger, cfg, w;
      this.hasTokens, this.hasEtherscan := hasTokens, hasEtherscan;
    }

    ghost predicate Valid()
      reads this, ledger
    {
      ledger.Valid() && ledger.rules == EvmRules(cfg, w) && Loaded(ledger.start)
    }

    lemma Covered()
      requires Valid()
      ensures EvmInv(cfg, w, ledger.state)
    {
      LoadedInv(cfg, w, ledger.start);
      ledger.IsLegal();
      EvmRun(cfg, w, ledger.start, ledger.trace);
    }

    function IsKnownEvent(id: Id): (r: bool)
      reads ledger
      ensures r == Known(ledger.Mem(), id)
    {
      id in ledger.credited || id in ledger.ignored || exists i :: 0 <= i < |ledger.pending| && ledger.pending[i].id == id
    }

    /** `scan_native_eth`; the receipt is fetched for unknown events only. */
    method ScanNativeEth(from: nat, end: nat, lookup: seq<Address>, p: Provider) returns (r: Option<seq<Transfer>>)
      requires Valid() && from <= end && Honest(p, w)
      ensures r.Some? ==> Answered(p, Native, from, end, lookup) && Queueable(w.amount, r.value)
      ensures r.Some? ==> Caught(cfg, ledger.Mem(), Native, ToSet(lookup), BlocksAnswer(p, from, end), r.value)
      ensures r.Some? ==> Genuinely(cfg, p, Native, ToSet(lookup), r.value)
      ensures AnswersAll(p) ==> r.Some?
    {
      var detected, n := [], from;
      while n < end
        invariant from <= n <= end && (forall k :: from <= k < n ==> p.block(k).Some?)
        invariant Queueable(w.amount, detected)
        invariant Caught(cfg, ledger.Mem(), Native, ToSet(lookup), BlocksAnswer(p, from, n), detected)
        invariant Genuinely(cfg, p, Native, ToSet(lookup), detected)
      {
        assert HonestAt(p, w.amount, OfBlock(n)) && (AnswersAll(p) ==> AnswersAt(p, OfBlock(n)));
        var block := p.block(n);
        if block.None? {
          return None;
        }
        var more := ScanBlock(block.value, lookup, p);
        if more.None? {
          return None;
        }
        detected := detected + more.value;
        n := n + 1;
      }
      return Some(detected);
    }

    method ScanBlock(txs: seq<Transfer>, lookup: seq<Address>, p: Provider) returns (r: Option<seq<Transfer>>)
      requires Valid() && Honest(p, w) && Priced(w.amount, txs)
      ensures r.Some? ==> Queueable(w.amount, r.value) && Caught(cfg, ledger.Mem(), Native, ToSet(lookup), txs, r.value)
      ensures r.Some? ==> forall x :: x in r.value ==> x in txs && Qualifies(cfg, Native, x, ToSet(lookup))
      ensures AnswersAll(p) ==> r.Some?
    {
      var detected, i := [], 0;
      while i < |txs|
        invariant i <= |txs| && Queueable(w.amount, detected)
        invariant Caught(cfg, ledger.Mem(), Native, ToSet(lookup), txs[..i], detected)
        invariant forall x :: x in detected ==> x in txs && Qualifies(cfg, Native, x, ToSet(lookup))
      {
        var x := txs[i];
        assert txs[..i + 1] == txs[..i] + [x];
        if x.amount != 0 && x.to.Some? && x.to.value in lookup && !IsGasTankTopUp(x.sender, x.to.value, cfg.gasTank)
           && !IsKnownEvent(x.id) {
          assert HonestAt(p, w.amount, OfReceipt(x)) && (AnswersAll(p) ==> AnswersAt(p, OfReceipt(x)));
          var succeeded := p.receipt(x);
          if succeeded.None? {
            return None;
          }
          if succeeded.value {
            detected := detected + [x];
          }
        }
        i := i + 1;
      }
      assert txs[..i] == txs;
      return Some(detected);
    }

    /** The filter of `scan_erc20_logs`. */
    method ScanErc20Logs(from: nat, end: nat, lookup: seq<Address>, p: Provider) returns (r: Option<seq<Transfer>>)
      requires Valid() && from < end && Honest(p, w)
      ensures r.Some? ==> Answered(p, Erc20, from, end, lookup) && Queueable(w.amount, r.value)
      ensures r.Some? ==> Caught(cfg, ledger.Mem(), Erc20, ToSet(lookup), p.logs(from, end - 1).value, r.value)
      ensures r.Some? ==> Genuinely(cfg, p, Erc20, ToSet(lookup), r.value)
      ensures AnswersAll(p) ==> r.Some?
    {
      assert HonestAt(p, w.amount, OfLogs(from, end - 1)) && (AnswersAll(p) ==> AnswersAt(p, OfLogs(from, end - 1)));
      var logs := p.logs(from, end - 1);
      if logs.None? {
        return None;
      }
      var xs, detected, i := logs.value, [], 0;
      while i < |xs|
        invariant i <= |xs| && Queueable(w.amount, detected)
        invariant Caught(cfg, ledger.Mem(), Erc20, ToSet(lookup), xs[..i], detected)
        invariant Genuinely(cfg, p, Erc20, ToSet(lookup), detected)
      {
        var x := xs[i];
        assert xs[..i + 1] == xs[..i] + [x];
        if !x.failed && x.to.Some? && x.to.value in lookup && x.amount != 0 && !IsKnownEvent(x.id) {
          detected := detected + [x];
        }
        i := i + 1;
      }
      assert xs[..i] == xs;
      return Some(detected);
    }

    /** `scan_internal_calls` up to its error path: an address that fails does not stop the
        others, but fails the scan. */
    method ScanInternalCalls(from: nat, end: nat, lookup: seq<Address>, p: Provider) returns (detected: seq<Transfer>, failed: bool)
      requires Valid() && from < end && Honest(p, w)
      ensures Queueable(w.amount, detected) && Genuinely(cfg, p, Internal, ToSet(lookup), detected)
      ensures !failed ==> Answered(p, Internal, from, end, lookup)
      ensures !failed ==> Caught(cfg, ledger.Mem(), Internal, ToSet(lookup), InternalsAnswer(p, from, end - 1, lookup), detected)
      ensures AnswersAll(p) ==> !failed
    {
      detected, failed := [], false;
      var i := 0;
      while i < |lookup|
        invariant i <= |lookup| && Queueable(w.amount, detected) && (AnswersAll(p) ==> !failed)
        invariant Genuinely(cfg, p, Internal, ToSet(lookup), detected)
        invariant !failed ==> forall a :: a in lookup[..i] ==> p.internals(a, from, end - 1).Some?
        invariant !failed ==> Caught(cfg, ledger.Mem(), Internal, ToSet(lookup), InternalsAnswer(p, from, end - 1, lookup[..i]), detected)
      {
        ghost var q := OfInternals(lookup[i], from, end - 1);
        assert HonestAt(p, w.amount, q) && (AnswersAll(p) ==> AnswersAt(p, q));
        var list := p.internals(lookup[i], from, end - 1);
        assert lookup[..i + 1] == lookup[..i] + [lookup[i]] && lookup[i] in lookup;
        assert lookup[..i + 1][..i] == lookup[..i];
        if list.None? {
          failed := true;
        } else {
          var more := ScanIncoming(list.value, lookup[i], ToSet(lookup));
          assert Genuinely(cfg, p, Internal, ToSet(lookup), more);
          detected := detected + more;
        }
        i := i + 1;
      }
      assert lookup[..i] == lookup;
    }

    method ScanIncoming(xs: seq<Transfer>, a: Address, lookup: set<Address>) returns (detected: seq<Transfer>)
      requires Valid() && a in lookup && Priced(w.amount, xs)
      ensures Queueable(w.amount, detected) && forall x :: x in detected ==> x in xs && Qualifies(cfg, Internal, x, lookup)
      ensures Caught(cfg, ledger.Mem(), Internal, lookup, Incoming(xs, a), detected)
    {
      detected := [];
      var i := 0;
      while i < |xs|
        invariant i <= |xs| && Queueable(w.amount, detected)
        invariant forall x :: x in detected ==> x in xs && Qualifies(cfg, Internal, x, lookup)
        invariant Caught(cfg, ledger.Mem(), Internal, lookup, Incoming(xs[..i], a), detected)
      {
        var x := xs[i];
        assert xs[..i + 1] == xs[..i] + [x];
        if !x.failed && x.amount != 0 && x.to == Some(a) && !IsGasTankTopUp(x.sender, a, cfg.gasTank) && !IsKnownEvent(x.id) {
          detected := detected + [x];
        }
        i := i + 1;
      }
      assert xs[..i] == xs;
    }

    /** `emit_detected_and_enqueue`. */
    method EmitDetectedAndEnqueue(x: Transfer) returns (ok: bool)
      requires Valid() && x.amount == w.amount(x.id) && x.to.Some?
      modifies ledger
      ensures Valid() && old(ledger.trace) <= ledger.trace
      ensures AddedUnless(Known(old(ledger.Mem()), x.id), old(ledger.Mem()), ledger.Mem(),
                          Entry(x.id, x.id, x.txid, x.to.value, x.amount, x.block, false))
      ensures Queued(old(ledger.state), ledger.state) && Known(ledger.state.mem, x.id)
      ensures ok && !Known(old(ledger.Mem()), x.id) ==> ledger.disk == ledger.Mem()
      ensures ok <==> ledger.failures == old(ledger.failures)
      ensures ledger.failures >= old(ledger.failures)
    {
      if IsKnownEvent(x.id) {
        return true;
      }
      var entry := EntryOf(x);
      assert Guard(cfg, w, ledger.state, Queue(entry));
      ledger.Push(entry);
      assert ledger.pending[|ledger.pending| - 1] == entry;
      ok := ledger.PersistState();
    }

    method EmitAll(xs: seq<Transfer>) returns (ok: bool)
      requires Valid() && Queueable(w.amount, xs)
      modifies ledger
      ensures Valid() && old(ledger.trace) <= ledger.trace && Queued(old(ledger.state), ledger.state)
      ensures ok ==> AllKnown(ledger.state.mem, xs, |xs|)
      ensures OnlyOf(xs, old(ledger.pending), ledger.pending)
      ensures ok <==> ledger.failures == old(ledger.failures)
      ensures ledger.failures >= old(ledger.failures)
    {
      var i := 0;
      while i < |xs|
        invariant i <= |xs| && Valid() && old(ledger.trace) <= ledger.trace && Queued(old(ledger.state), ledger.state)
        invariant AllKnown(ledger.state.mem, xs, i) && ledger.failures == old(ledger.failures)
        invariant OnlyOf(xs, old(ledger.pending), ledger.pending)
      {
        ghost var s := ledger.state;
        assert xs[i] in xs;
        ok := EmitDetectedAndEnqueue(xs[i]);
        OnlyOfThen(xs, xs[i], old(ledger.pending), s.mem.pending, ledger.pending);
        QueuedKnowsAll(s, ledger.state, xs, i);
        if !ok {
          return;
        }
        i := i + 1;
      }
      ok := true;
    }

    /** One chunk of a source: scan, then queue what was found, before the cursor moves. */
    method ScanChunk(kind: Kind, from: nat, end: nat, lookup: seq<Address>, p: Provider) returns (done: Option<Chunk>)
      requires Valid() && from < end && Honest(p, w)
      modifies ledger
      ensures Valid() && old(ledger.trace) <= ledger.trace && Queued(old(ledger.state), ledger.state)
      ensures done.Some? ==> IsChunkOf(done.value, p, kind, from, end, lookup)
      ensures OnlyWarranted(cfg, p, ToSet(lookup), old(ledger.pending), ledger.pending)
      ensures done.Some? ==> Genuine(w, done.value)
      ensures done.Some? ==> AllAccounted(cfg, ledger.Mem(), done.value)
      ensures ledger.failures >= old(ledger.failures)
      ensures AnswersAll(p) && ledger.failures == old(ledger.failures) ==> done.Some?
    {
      var detected, failed := [], false;
      match kind {
        case Native =>
          var r := ScanNativeEth(from, end, lookup, p);
          if r.None? {
            return None;
          }
          detected := r.value;
        case Erc20 =>
          var r := ScanErc20Logs(from, end, lookup, p);
          if r.None? {
            return None;
          }
          detected := r.value;
        case Internal =>
          detected, failed := ScanInternalCalls(from, end, lookup, p);
      }
      ghost var s := ledger.state;
      var ok := EmitAll(detected);
      OnlyOfWarranted(cfg, p, kind, ToSet(lookup), detected, s.mem.pending, ledger.pending);
      if !ok || failed {
        return None;
      }
      var c := Chunk(kind, from, end - 1, ToSet(lookup), AnswerOf(p, kind, from, end, lookup));
      assert TellsOf(p, w.told, kind, from, end, lookup);
      CaughtIsAccounted(cfg, s, ledger.state, c, detected);
      return Some(c);
    }

    /** `set_scan_cursor`; history says which chunk this completes, if any. */
    method SetScanCursor(kind: Kind, block: nat, history: Option<Chunk>) returns (ok: bool)
      requires Valid() && ledger.scan.cursors.Some?
      requires var cursor := ledger.scan.cursors.value.Get(kind);
        if history.None? then cursor.Some? && block <= cursor.value
        else history.value.kind == kind && history.value.to == block && MayComplete(cfg, w, ledger.Mem(), history.value)
      modifies ledger
      ensures Valid() && old(ledger.trace) <= ledger.trace
      ensures ledger.Mem() == old(ledger.Mem()).(
        scan := if history.None? then Moved(old(ledger.scan), kind, block) else Scanned(old(ledger.scan), history.value))
      ensures OnlyScans(old(ledger.state), ledger.state)
      ensures ledger.state.credits == old(ledger.state.credits) && ledger.state.detected == old(ledger.state.detected)
      ensures ok ==> ledger.disk == ledger.Mem()
      ensures ok <==> ledger.failures == old(ledger.failures)
      ensures ledger.failures >= old(ledger.failures)
    {
      var cursors := ledger.scan.cursors.value.Set(kind, block);
      var c := ledger.scan.(cursors := Some(cursors), last := cursors.CommonHeight());
      if history.Some? {
        c := c.(log := c.log + [history.value]);
      }
      MayMove(cfg, w, ledger.state, kind, block, history, c);
      ledger.MoveTo(c);
      ok := ledger.PersistState();
    }

    /** `scan_source`: the window after the cursor, chunk by chunk. */
    method ScanSource(kind: Kind, lookup: seq<Address>, safe: nat, p: Provider) returns (ok: bool)
      requires Valid() && ledger.scan.cursors.Some? && Honest(p, w)
      modifies ledger
      ensures Valid() && old(ledger.trace) <= ledger.trace && OnlyScans(old(ledger.state), ledger.state)
      ensures Progress(cfg, p, old(ledger.scan), ledger.scan, kind, lookup)
      ensures ok ==> CycleTakes(cfg, old(ledger.scan).cursors.value.Get(kind), ledger.scan.cursors.value.Get(kind), safe)
      ensures OnlyWarranted(cfg, p, ToSet(lookup), old(ledger.pending), ledger.pending)
      ensures ledger.failures >= old(ledger.failures) && (AnswersAll(p) && ledger.failures == old(ledger.failures) ==> ok)
    {
      var cursor := ledger.scan.cursors.value.Get(kind);
      var from := FirstBlock(cfg, cursor, safe);
      var end := LastBlock(cfg, cursor, safe) + 1;
      ok := true;
      while from < end
        invariant Valid() && old(ledger.trace) <= ledger.trace && OnlyScans(old(ledger.state), ledger.state)
        invariant Progress(cfg, p, old(ledger.scan), ledger.scan, kind, lookup)
        invariant ledger.failures >= old(ledger.failures) && ok
        invariant OnlyWarranted(cfg, p, ToSet(lookup), old(ledger.pending), ledger.pending)
        invariant Positioned(cfg, cursor, ledger.scan.cursors.value.Get(kind), from, safe)
      {
        var chunkEnd := if from + ChunkSize(cfg, kind) < end then from + ChunkSize(cfg, kind) else end;
        ghost var ps := ledger.pending;
        ok := CompleteChunk(kind, from, chunkEnd, lookup, p);
        OnlyWarrantedThen(cfg, p, ToSet(lookup), old(ledger.pending), ps, ledger.pending);
        if !ok {
          return;
        }
        from := chunkEnd;
      }
      FinishedTakes(cfg, cursor, ledger.scan.cursors.value.Get(kind), safe);
    }

    /** Scan a chunk and, if that went well, move the cursor past it. */
    method CompleteChunk(kind: Kind, from: nat, end: nat, lookup: seq<Address>, p: Provider) returns (ok: bool)
      requires Valid() && ledger.scan.cursors.Some? && Honest(p, w) && from < end <= from + ChunkSize(cfg, kind)
      requires MayStart(ledger.scan.cursors.value.Get(kind), cfg.startBlock, from)
      modifies ledger
      ensures Valid() && old(ledger.trace) <= ledger.trace && OnlyScans(old(ledger.state), ledger.state)
      ensures Progress(cfg, p, old(ledger.scan), ledger.scan, kind, lookup)
      ensures ok ==> ledger.scan.cursors.value.Get(kind) == Some(end - 1)
      ensures OnlyWarranted(cfg, p, ToSet(lookup), old(ledger.pending), ledger.pending)
      ensures ledger.failures >= old(ledger.failures) && (AnswersAll(p) && ledger.failures == old(ledger.failures) ==> ok)
    {
      var done := ScanChunk(kind, from, end, lookup, p);
      if done.None? {
        return false;
      }
      ok := SetScanCursor(kind, end - 1, done);
    }

    /** A source with nothing to look up goes straight to the safe block. */
    method SkipSource(kind: Kind, safe: nat) returns (ok: bool)
      requires Valid() && ledger.scan.cursors.Some?
      modifies ledger
      ensures Valid() && old(ledger.trace) <= ledger.trace && OnlyScans(old(ledger.state), ledger.state)
      ensures OthersStay(old(ledger.scan), ledger.scan, kind)
      ensures Passed(old(ledger.scan).cursors.value.Get(kind), ledger.scan.cursors.value.Get(kind), safe)
      ensures ledger.pending == old(ledger.pending)
      ensures ledger.scan.last == ledger.scan.cursors.value.CommonHeight()
      ensures Skipped(old(ledger.scan), ledger.scan, kind)
      ensures ok <==> ledger.failures == old(ledger.failures)
      ensures ledger.failures >= old(ledger.failures)
    {
      var cursor := ledger.scan.cursors.value.Get(kind);
      var history := None;
      if cursor.None? || cursor.value < safe {
        var from := if cursor.Some? then cursor.value + 1
                    else if cfg.startBlock.Some? && cfg.startBlock.value < safe then cfg.startBlock.value else safe;
        history := Some(Chunk(kind, from, safe, {}, []));
      }
      ok := SetScanCursor(kind, safe, history);
    }

    /** The head of `scan_new_blocks`: old state has one cursor for all sources. */
    method BeginScan(safe: nat) returns (ok: bool)
      requires Valid()
      modifies ledger
      ensures Valid() && old(ledger.trace) <= ledger.trace && OnlyScans(old(ledger.state), ledger.state)
      ensures ledger.scan == Start(old(ledger.scan), safe) && Inherits(cfg, old(ledger.scan), ledger.scan, safe)
      ensures ok ==> ledger.disk == ledger.Mem()
      ensures ledger.pending == old(ledger.pending)
      ensures ok <==> ledger.failures == old(ledger.failures)
      ensures ledger.failures >= old(ledger.failures)
    {
      Covered();
      if ledger.scan.cursors.None? {
        var initial := InitialHeight(cfg, ledger.scan, safe);
        var c := Begun(ledger.scan, initial);
        assert Guard(cfg, w, ledger.state, Advance(c));
        ledger.MoveTo(c);
      }
      ok := ledger.PersistState();
    }

    /** One source's share of a cycle. */
    method RunSource(kind: Kind, lookup: seq<Address>, safe: nat, p: Provider) returns (r: Cycle)
      requires Valid() && ledger.scan.cursors.Some? && Honest(p, w)
      modifies ledger
      ensures Valid() && old(ledger.trace) <= ledger.trace && OnlyScans(old(ledger.state), ledger.state)
      ensures OthersStay(old(ledger.scan), ledger.scan, kind) && Cycled(p, lookup, old(ledger.scan), ledger.scan)
      ensures r.Ran? ==> kind in r.paused || Done(old(ledger.scan), ledger.scan, kind, lookup, safe)
      ensures OnlyWarranted(cfg, p, ToSet(lookup), old(ledger.pending), ledger.pending)
      ensures Smooth(p, old(ledger.failures), ledger.failures, r)
    {
      if Skips(kind, lookup) {
        var saved := SkipSource(kind, safe);
        return if saved then Ran({}) else NotSaved;
      }
      var scanned := ScanSource(kind, lookup, safe, p);
      return Ran(if scanned then {} else {kind});
    }

    /** `scan_new_blocks`: a source that fails is paused, the others still run. */
    method ScanNewBlocks(lookup: seq<Address>, safe: nat, p: Provider) returns (r: Cycle)
      requires Valid() && Honest(p, w)
      modifies ledger
      ensures Valid() && old(ledger.trace) <= ledger.trace && OnlyScans(old(ledger.state), ledger.state)
      ensures ledger.scan.cursors.Some? && Cycled(p, lookup, Start(old(ledger.scan), safe), ledger.scan)
      ensures Inherits(cfg, old(ledger.scan), Start(old(ledger.scan), safe), safe)
      ensures Searched(p, lookup, Start(old(ledger.scan), safe), ledger.Mem())
      ensures OnlyWarranted(cfg, p, ToSet(lookup), old(ledger.pending), ledger.pending)
      ensures r.Ran? ==> forall k: Kind :: k in r.paused || Done(Start(old(ledger.scan), safe), ledger.scan, k, lookup, safe)
      ensures r.Ran? ==> ledger.disk.scan.cursors.Some?
      ensures Smooth(p, old(ledger.failures), ledger.failures, r)
    {
      var saved := BeginScan(safe);
      Covered();
      ghost var sc, book, trace := ledger.scan, ledger.disk, ledger.trace;
      ledger.IsLegal();
      if !saved {
        NowSearched(p, lookup, sc);
        return NotSaved;
      }
      var kinds, i := [Native, Erc20, Internal], 0;
      r := Ran({});
      while i < |kinds| && r.Ran?
        invariant i <= 3 && Valid() && old(ledger.trace) <= ledger.trace && OnlyScans(old(ledger.state), ledger.state)
        invariant trace <= ledger.trace
        invariant r.Ran? ==> AllDone(sc, ledger.scan, r.paused, lookup, safe, i)
        invariant Cycled(p, lookup, sc, ledger.scan)
        invariant OnlyWarranted(cfg, p, ToSet(lookup), old(ledger.pending), ledger.pending)
        invariant Smooth(p, old(ledger.failures), ledger.failures, r)
      {
        assert Rank(kinds[i]) == i;
        ghost var ps := ledger.pending;
        r := RunNext(kinds[i], r.paused, lookup, safe, p, sc);
        OnlyWarrantedThen(cfg, p, ToSet(lookup), old(ledger.pending), ps, ledger.pending);
        i := i + 1;
      }
      NowSearched(p, lookup, sc);
      StaysSaved(trace, book);
    }

    /** What the file has of the cursors stays there. */
    lemma StaysSaved(trace: seq<Event<EvmScan>>, book: Book<EvmScan>)
      requires Valid() && trace <= ledger.trace && book == Run(ledger.start, trace).disk
      ensures CursorsLe(book.scan.cursors, ledger.disk.scan.cursors)
    {
      ledger.IsLegal();
      LoadedInv(cfg, w, ledger.start);
      assert ledger.trace[..|trace|] == trace;
      FileNeverGoesBack(cfg, w, ledger.start, ledger.trace, |trace|);
    }

    /** One turn of the loop over the sources; sc is where the cycle began. */
    method RunNext(kind: Kind, paused: set<Kind>, lookup: seq<Address>, safe: nat, p: Provider, ghost sc: EvmScan) returns (r: Cycle)
      requires Valid() && Honest(p, w) && Cycled(p, lookup, sc, ledger.scan)
      requires AllDone(sc, ledger.scan, paused, lookup, safe, Rank(kind))
      modifies ledger
      ensures Valid() && old(ledger.trace) <= ledger.trace && OnlyScans(old(ledger.state), ledger.state)
      ensures Cycled(p, lookup, sc, ledger.scan)
      ensures r.Ran? ==> AllDone(sc, ledger.scan, r.paused, lookup, safe, Rank(kind) + 1)
      ensures OnlyWarranted(cfg, p, ToSet(lookup), old(ledger.pending), ledger.pending)
      ensures paused == {} ==> Smooth(p, old(ledger.failures), ledger.failures, r)
      ensures ledger.failures >= old(ledger.failures)
    {
      ghost var now := ledger.scan;
      r := RunSource(kind, lookup, safe, p);
      CycledThen(p, lookup, sc, now, ledger.scan);
      if r.Ran? {
        r := Ran(paused + r.paused);
      }
    }

    lemma NowSearched(p: Provider, lookup: seq<Address>, sc: EvmScan)
      requires Valid() && Tiled(cfg, sc) && Cycled(p, lookup, sc, ledger.scan)
      ensures Searched(p, lookup, sc, ledger.Mem())
    {
      Covered();
      CycleSearched(p, lookup, sc, ledger.Mem());
    }

    /** There is something to look for: addresses, and for two of the sources the means. */
    predicate Works(kind: Kind, lookup: seq<Address>) {
      lookup != [] && (kind.Erc20? ==> hasTokens) && (kind.Internal? ==> hasEtherscan)
    }

    /** A chunk of this cycle: skipped, or answered by these providers. */
    predicate OfCycle(p: Provider, lookup: seq<Address>, c: Chunk) {
      if Works(c.kind, lookup) then WholeChunk(cfg, p, c, c.kind, lookup) else c.lookup == {}
    }

    ghost predicate Cycled(p: Provider, lookup: seq<Address>, sc: EvmScan, sc': EvmScan) {
      && sc.cursors.Some? && sc'.cursors.Some? && sc'.base == sc.base && sc.log <= sc'.log
      && forall i :: |sc.log| <= i < |sc'.log| ==> OfCycle(p, lookup, sc'.log[i])
    }

    lemma CycledThen(p: Provider, lookup: seq<Address>, sc: EvmScan, sc1: EvmScan, sc2: EvmScan)
      requires Cycled(p, lookup, sc, sc1) && Cycled(p, lookup, sc1, sc2)
      ensures Cycled(p, lookup, sc, sc2)
    {
    }

    /** The block lies between the old and the new cursor of the source. */
    predicate NewlyPassed(sc: EvmScan, sc': EvmScan, k: Kind, h: nat) {
      && sc.cursors.Some? && sc'.cursors.Some? && InScope(sc.cursors.value.Get(k), cfg.startBlock, h)
      && sc'.cursors.value.Get(k).Some? && h <= sc'.cursors.value.Get(k).value
    }

    /** Every block that a cursor passed was asked for, together with the addresses looked
        up, and everything that qualifies in the answer is accounted for. */
    ghost predicate Searched(p: Provider, lookup: seq<Address>, sc: EvmScan, b: Book<EvmScan>) {
      forall k: Kind, h: nat :: Works(k, lookup) && NewlyPassed(sc, b.scan, k, h) ==> SearchedAt(p, lookup, sc, b, k, h)
    }

    ghost predicate SearchedAt(p: Provider, lookup: seq<Address>, sc: EvmScan, b: Book<EvmScan>, k: Kind, h: nat) {
      exists i :: |sc.log| <= i < |b.scan.log| && InChunk(b.scan.log[i], k, h)
                  && WholeChunk(cfg, p, b.scan.log[i], k, lookup) && AllAccounted(cfg, b, b.scan.log[i])
    }

    lemma CycleSearched(p: Provider, lookup: seq<Address>, sc: EvmScan, b: Book<EvmScan>)
      requires Tiled(cfg, sc) && Covers(cfg, w, b) && Cycled(p, lookup, sc, b.scan)
      ensures Searched(p, lookup, sc, b)
    {
      forall k: Kind, h: nat | Works(k, lookup) && NewlyPassed(sc, b.scan, k, h) ensures SearchedAt(p, lookup, sc, b, k, h) {
        assert b.scan.log[..|sc.log|] == sc.log;
        assert sc.cursors.value.Get(k) == Reached(sc.log, k, sc.base.Get(k));
        NewlyReached(b.scan.log, |sc.log|, k, sc.base.Get(k), cfg.startBlock, h);
        var i :| |sc.log| <= i < |b.scan.log| && InChunk(b.scan.log[i], k, h);
        assert OfCycle(p, lookup, b.scan.log[i]) && b.scan.log[i] in b.scan.log;
      }
    }

    /** The polling loop, turned n times while the safe block stays where it is. */
    method ScanCycles(lookup: seq<Address>, safe: nat, p: Provider, n: nat) returns (smooth: bool)
      requires Valid() && Honest(p, w)
      modifies ledger
      ensures Valid() && old(ledger.trace) <= ledger.trace && OnlyScans(old(ledger.state), ledger.state)
      ensures AnswersAll(p) && ledger.failures == old(ledger.failures) ==> smooth
      ensures smooth && n > 0 ==> AllTurned(Start(old(ledger.scan), safe), ledger.scan, safe, n)
      ensures ledger.failures >= old(ledger.failures)
    {
      ghost var sc := Start(ledger.scan, safe);
      var i := 0;
      while i < n
        invariant i <= n && Valid() && old(ledger.trace) <= ledger.trace && OnlyScans(old(ledger.state), ledger.state)
        invariant AllTurned(sc, Start(ledger.scan, safe), safe, i) && (i > 0 ==> ledger.scan.cursors.Some?)
        invariant ledger.failures >= old(ledger.failures)
      {
        ghost var now := Start(ledger.scan, safe);
        var r := ScanNewBlocks(lookup, safe, p);
        if r != Ran({}) {
          return false;
        }
        AllTurnedStep(sc, now, ledger.scan, lookup, safe, i);
        i := i + 1;
      }
      smooth := true;
    }

    ghost predicate AllTurned(sc: EvmScan, sc': EvmScan, safe: nat, n: nat) {
      sc.cursors.Some? && sc'.cursors.Some?
      && forall k: Kind :: TurnsTake(cfg, sc.cursors.value.Get(k), sc'.cursors.value.Get(k), safe, n)
    }

    lemma AllTurnedStep(sc: EvmScan, sc1: EvmScan, sc2: EvmScan, lookup: seq<Address>, safe: nat, n: nat)
      requires AllTurned(sc, sc1, safe, n) && sc2.cursors.Some? && forall k: Kind :: Done(sc1, sc2, k, lookup, safe)
      ensures AllTurned(sc, sc2, safe, n + 1)
    {
      forall k: Kind ensures TurnsTake(cfg, sc.cursors.value.Get(k), sc2.cursors.value.Get(k), safe, n + 1) {
        assert Done(sc1, sc2, k, lookup, safe);
        assert TurnsTake(cfg, sc.cursors.value.Get(k), sc1.cursors.value.Get(k), safe, n);
      }
    }

    function Start(sc: EvmScan, safe: nat): (r: EvmScan)
      ensures r.cursors.Some?
    {
      if sc.cursors.Some? then sc else Begun(sc, InitialHeight(cfg, sc, safe))
    }

    /** The source has done its share of the cycle. */
    predicate Done(sc: EvmScan, sc': EvmScan, kind: Kind, lookup: seq<Address>, safe: nat) {
      sc.cursors.Some? && sc'.cursors.Some? &&
      var before, after := sc.cursors.value.Get(kind), sc'.cursors.value.Get(kind);
      if Works(kind, lookup) then CycleTakes(cfg, before, after, safe) else Passed(before, after, safe)
    }

    /** The first n sources have run or are paused, the others have not moved. */
    ghost predicate AllDone(sc: EvmScan, sc': EvmScan, paused: set<Kind>, lookup: seq<Address>, safe: nat, n: nat) {
      sc.cursors.Some? && sc'.cursors.Some? && forall k: Kind ::
        if Rank(k) < n then k in paused || Done(sc, sc', k, lookup, safe)
        else sc'.cursors.value.Get(k) == sc.cursors.value.Get(k)
    }

    predicate Skips(kind: Kind, lookup: seq<Address>) {
      lookup == [] || (kind.Erc20? && !hasTokens) || (kind.Internal? && !hasEtherscan)
    }

    /** `process_credit_entry`. Answers that may be missing are errors: the receipt, whether
        it is a top-up from the gas tank (asked for native value only), and the sweep, which
        says whether it is deferred. */
    method ProcessCreditEntry(p: Entry, current: nat, receipt: Option<Receipt>, gasTankTopUp: Option<bool>, sweep: Option<bool>)
      returns (ok: bool)
      requires Valid() && Workable(ledger.rules, ledger.state, [p])
      modifies ledger
      ensures Valid() && old(ledger.trace) <= ledger.trace && Concerned(old(ledger.state), ledger.state, p)
      ensures receipt.Some? && receipt.value.status == Some(false) ==>
                p.id in ledger.ignored && !Pending(ledger.Mem(), p.id) && ledger.state.credits == old(ledger.state.credits)
      ensures ledger.failures >= old(ledger.failures)
      ensures ledger.failures == old(ledger.failures) && receipt.Some? && receipt.value.status.Some? && gasTankTopUp.Some? && sweep.Some? ==> ok
      ensures ledger.state.credits != old(ledger.state.credits) ==>
                && receipt.Some? && receipt.value.status == Some(true) && gasTankTopUp == Some(false) && sweep.Some?
                && Buried(receipt.value.minedAt, current, cfg.minConfirmations)
      ensures ok ==> receipt.Some?
      ensures ledger.ignored != old(ledger.ignored) ==> Dismissed(receipt, gasTankTopUp)
      ensures ok ==> p.id in ledger.ignored || p.id in ledger.state.detected
      ensures ok && !p.notified ==> Told(ledger.Mem(), p.id) && ledger.disk == ledger.Mem()
      ensures old(ledger.told) <= ledger.told <= old(ledger.told) + if p.notified then 0 else 1
      ensures ok && receipt.value.minedAt != p.height ==>
                MinedAt(ledger.Mem(), p.id, receipt.value.minedAt) && ledger.disk == ledger.Mem()
      ensures ok ==>
        if Dismissed(receipt, gasTankTopUp) then p.id in ledger.ignored
        else p.id in ledger.credited || !Buried(receipt.value.minedAt, current, cfg.minConfirmations)
      ensures ok && sweep == Some(false) && Buried(receipt.value.minedAt, current, cfg.minConfirmations) ==> !Pending(ledger.Mem(), p.id)
    {
      assert p in [p];
      if receipt.None? || receipt.value.status.None? {
        return false;
      }
      if !receipt.value.status.value {
        ok := Dismiss(p);
        return;
      }
      ok := true;
      var minedAt := receipt.value.minedAt;
      if minedAt != p.height {
        ok := MoveTo(p, minedAt);
        if !ok {
          return;
        }
      }
      if gasTankTopUp.None? {
        return false;
      }
      if gasTankTopUp.value {
        ok := Dismiss(p);
        return;
      }
      ok := CreditEntry(p, current, minedAt, sweep);
    }

    method Dismiss(p: Entry) returns (ok: bool)
      requires Valid()
      modifies ledger
      ensures Valid() && old(ledger.trace) <= ledger.trace && Concerned(old(ledger.state), ledger.state, p)
      ensures ledger.ignored == old(ledger.ignored) + {p.id} && !Pending(ledger.Mem(), p.id)
      ensures ledger.state.credits == old(ledger.state.credits)
      ensures Told(ledger.Mem(), p.id) && (forall h :: MinedAt(ledger.Mem(), p.id, h)) && (ok ==> ledger.disk == ledger.Mem())
      ensures ledger.told == old(ledger.told)
      ensures ok <==> ledger.failures == old(ledger.failures)
      ensures ledger.failures >= old(ledger.failures)
    {
      assert Guard(cfg, w, ledger.state, Ignore(p.id));
      ok := ledger.MarkIgnored(p.id);
      WithoutIsGone(ledger.Mem(), old(ledger.pending), p.id);
      NotPendingTells(ledger.Mem(), p.id);
    }

    method MoveTo(p: Entry, height: nat) returns (ok: bool)
      requires Valid()
      modifies ledger
      ensures Valid() && old(ledger.trace) <= ledger.trace && Concerned(old(ledger.state), ledger.state, p)
      ensures ledger.state.credits == old(ledger.state.credits) && ledger.state.detected == old(ledger.state.detected)
      ensures ledger.credited == old(ledger.credited) && ledger.ignored == old(ledger.ignored)
      ensures MinedAt(ledger.Mem(), p.id, height) && (ok ==> ledger.disk == ledger.Mem()) && ledger.told == old(ledger.told)
      ensures ok <==> ledger.failures == old(ledger.failures)
      ensures ledger.failures >= old(ledger.failures)
    {
      assert Guard(cfg, w, ledger.state, Remine(p.id, height));
      ok := ledger.MoveEntry(p.id, height);
    }

    /** Detection, confirmations, sweep, credit, removal. */
    method CreditEntry(p: Entry, current: nat, minedAt: nat, sweep: Option<bool>) returns (ok: bool)
      requires Valid() && Proper(ledger.rules, p) && (p.notified ==> p.id in ledger.state.detected)
      modifies ledger
      ensures Valid() && old(ledger.trace) <= ledger.trace && Concerned(old(ledger.state), ledger.state, p)
      ensures ledger.state.credits != old(ledger.state.credits) ==> sweep.Some? && Buried(minedAt, current, cfg.minConfirmations)
      ensures ledger.ignored == old(ledger.ignored) && (ok ==> p.id in ledger.state.detected)
      ensures ok && !p.notified ==> Told(ledger.Mem(), p.id) && ledger.disk == ledger.Mem()
      ensures ledger.told == old(ledger.told) + if p.notified then 0 else 1
      ensures ok && old(MinedAt(ledger.Mem(), p.id, minedAt)) ==> MinedAt(ledger.Mem(), p.id, minedAt)
      ensures ok && old(ledger.disk) == old(ledger.Mem()) ==> ledger.disk == ledger.Mem()
      ensures ok && Buried(minedAt, current, cfg.minConfirmations) ==> p.id in ledger.credited && (sweep == Some(true) || !Pending(ledger.Mem(), p.id))
      ensures ledger.failures >= old(ledger.failures) && (ledger.failures == old(ledger.failures) && sweep.Some? ==> ok)
    {
      ghost var s := ledger.state;
      ok := true;
      if !p.notified {
        ok := ledger.NotifyDetection(p);
        if !ok {
          return;
        }
      }
      ghost var s1 := ledger.state;
      if !Confirmed(cfg, minedAt, current) {
        return;
      }
      if sweep.None? {
        return false;
      }
      var alreadyCredited := p.id in ledger.credited;
      ok := ledger.CreditAndRetire(p, alreadyCredited, sweep.value);
      OnlyConcernsThen(s, s1, ledger.state, p);
    }

    /** `process_credits`: one attempt at every pending payment. What fails is left for the
        next cycle; if nothing fails, every payment is credited, ignored or waits for
        confirmations. */
    method ProcessCredits(current: nat, answers: Id -> Answers) returns (ok: bool)
      requires Valid()
      modifies ledger
      ensures Valid() && old(ledger.trace) <= ledger.trace && ledger.scan == old(ledger.scan)
      ensures old(ledger.credited) <= ledger.credited && old(ledger.ignored) <= ledger.ignored
      ensures old(ledger.state.credits) <= ledger.state.credits
      ensures forall c :: c in ledger.state.credits[|old(ledger.state.credits)|..] ==> c.id !in old(ledger.credited) && Listed(old(ledger.pending), c)
      ensures OnlyDismissed(old(ledger.Mem()), ledger.Mem(), old(ledger.pending), answers)
      ensures ledger.told <= old(ledger.told) + Untold(old(ledger.pending))
      ensures ledger.failures >= old(ledger.failures) && (ledger.failures == old(ledger.failures) ==> ok)
      ensures ledger.failures == old(ledger.failures) ==> AllSettled(cfg, ledger.Mem(), old(ledger.pending), |old(ledger.pending)|, current, answers)
    {
      ok := ledger.PersistState();
      if !ok {
        return;
      }
      var pending, n := ledger.pending, 0;
      ledger.Credits();
      while n < |pending|
        invariant n <= |pending| && Valid() && old(ledger.trace) <= ledger.trace && ledger.failures >= old(ledger.failures)
        invariant Workable(ledger.rules, ledger.state, pending) && CreditedFrom(old(ledger.state), ledger.state, pending)
        invariant OnlyDismissed(old(ledger.Mem()), ledger.Mem(), pending, answers)
        invariant ledger.told <= old(ledger.told) + Untold(pending[..n])
        invariant ledger.failures == old(ledger.failures) ==> AllSettled(cfg, ledger.Mem(), pending, n, current, answers)
      {
        ghost var s := ledger.state;
        assert pending[n] in pending && pending[..n + 1][..n] == pending[..n];
        var a := answers(pending[n].id);
        var done := ProcessCreditEntry(pending[n], current, a.receipt, a.gasTankTopUp, a.sweep);
        AllSettledStays(cfg, s.mem, ledger.Mem(), pending, n, current, answers);
        CreditedFromThen(old(ledger.state), s, ledger.state, pending, pending[n]);
        n := n + 1;
      }
      assert pending[..n] == pending;
    }
  }

  // ---------------------------------------------------------------------
  // Crediting one payment
  // ---------------------------------------------------------------------

  /** status is missing for receipts without a valid execution status. */
  datatype Receipt = Receipt(status: Option<bool>, minedAt: nat)

  /** What is answered while one payment is worked on; None is an error. */
  datatype Answers = Answers(receipt: Option<Receipt>, gasTankTopUp: Option<bool>, sweep: Option<bool>) {
    predicate Complete() {
      receipt.Some? && receipt.value.status.Some? && gasTankTopUp.Some? && sweep.Some?
    }
  }

  /** Its transaction failed, or it only fills up an address from the gas tank. */
  predicate Dismissed(receipt: Option<Receipt>, gasTankTopUp: Option<bool>) {
    receipt.Some? && receipt.value.status.Some? && (receipt.value.status.value ==> gasTankTopUp == Some(true))
  }

  predicate Settled(cfg: Config, b: Book<EvmScan>, p: Entry, current: nat, a: Answers) {
    a.Complete() ==>
      if Dismissed(a.receipt, a.gasTankTopUp) then p.id in b.ignored
      else p.id in b.credited || !Buried(a.receipt.value.minedAt, current, cfg.minConfirmations)
  }

  /** Only payments of ps that the answers dismiss were ignored since. */
  ghost predicate OnlyDismissed(b: Book<EvmScan>, b': Book<EvmScan>, ps: seq<Entry>, answers: Id -> Answers) {
    forall id :: id in b'.ignored && id !in b.ignored ==>
      Dismissed(answers(id).receipt, answers(id).gasTankTopUp) && exists i :: 0 <= i < |ps| && ps[i].id == id
  }

  /** The first n payments of ps are dealt with, if everything asked for them was answered. */
  predicate AllSettled(cfg: Config, b: Book<EvmScan>, ps: seq<Entry>, n: nat, current: nat, answers: Id -> Answers)
    requires n <= |ps|
  {
    n == 0 || (AllSettled(cfg, b, ps, n - 1, current, answers) && Settled(cfg, b, ps[n - 1], current, answers(ps[n - 1].id)))
  }

  lemma {:induction false} AllSettledStays(cfg: Config, b: Book<EvmScan>, b': Book<EvmScan>, ps: seq<Entry>, n: nat, current: nat, answers: Id -> Answers)
    requires n <= |ps| && b.credited <= b'.credited && b.ignored <= b'.ignored
    ensures AllSettled(cfg, b, ps, n, current, answers) ==> AllSettled(cfg, b', ps, n, current, answers)
    decreases n
  {
    if n > 0 {
      AllSettledStays(cfg, b, b', ps, n - 1, current, answers);
    }
  }

  predicate Confirmed(cfg: Config, minedAt: nat, current: nat) {
    var confirmations := if current >= minedAt then current - minedAt + 1 else 0;
    confirmations >= if cfg.minConfirmations > 1 then cfg.minConfirmations else 1
  }

  /** Nothing changed but this payment: at most one credit of it, if it had none before. */
  ghost predicate Concerned(s: State<EvmScan>, s': State<EvmScan>, e: Entry) {
    && s'.mem.scan == s.mem.scan && s.detected <= s'.detected
    && s.mem.credited <= s'.mem.credited <= s.mem.credited + {e.id}
    && s.mem.ignored <= s'.mem.ignored <= s.mem.ignored + {e.id}
    && (forall p: Entry :: p.id != e.id ==> (p in s.mem.pending <==> p in s'.mem.pending))
    && (s'.credits == s.credits || (s'.credits == s.credits + [Credit(e.id, e.amount)] && e.id !in s.mem.credited))
  }

  predicate Listed(ps: seq<Entry>, c: Credit) {
    exists i :: 0 <= i < |ps| && c == Credit(ps[i].id, ps[i].amount)
  }

  ghost predicate CreditedFrom(s: State<EvmScan>, s': State<EvmScan>, ps: seq<Entry>) {
    && s'.mem.scan == s.mem.scan && s.mem.credited <= s'.mem.credited && s.mem.ignored <= s'.mem.ignored
    && s.credits <= s'.credits
    && forall c :: c in s'.credits[|s.credits|..] ==> c.id !in s.mem.credited && Listed(ps, c)
  }

  lemma CreditedFromThen(s: State<EvmScan>, s1: State<EvmScan>, s2: State<EvmScan>, ps: seq<Entry>, e: Entry)
    requires CreditedFrom(s, s1, ps) && Concerned(s1, s2, e) && e in ps
    ensures CreditedFrom(s, s2, ps)
  {
    if s2.credits != s1.credits {
      var n := |s.credits|;
      assert s2.credits[n..] == s1.credits[n..] + [Credit(e.id, e.amount)];
    }
  }

  // ---------------------------------------------------------------------
  // Windows and progress
  // ---------------------------------------------------------------------

  /** The order in which `scan_new_blocks` visits the sources. */
  function Rank(k: Kind): nat {
    match k
    case Native => 0
    case Erc20 => 1
    case Internal => 2
  }

  /** paused: the sources that failed. */
  datatype Cycle = Ran(paused: set<Kind>) | NotSaved

  /** When nothing fails, every source runs to its end. */
  ghost predicate Smooth(p: Provider, before: nat, after: nat, r: Cycle) {
    after >= before && (AnswersAll(p) && after == before ==> r == Ran({}))
  }

  function InitialHeight(cfg: Config, sc: EvmScan, safe: nat): Option<nat> {
    if sc.last.Some? then sc.last else if cfg.startBlock.None? then Some(safe) else None
  }

  function ChunkSize(cfg: Config, kind: Kind): (n: nat)
    ensures n > 0
  {
    match kind
    case Native => 1
    case Erc20 => 25
    case Internal => if cfg.maxBlocks > 1 then cfg.maxBlocks else 1
  }

  function FirstBlock(cfg: Config, cursor: Option<nat>, safe: nat): nat {
    if cursor.Some? then cursor.value + 1 else if cfg.startBlock.Some? then cfg.startBlock.value else safe
  }

  function LastBlock(cfg: Config, cursor: Option<nat>, safe: nat): nat {
    var last := FirstBlock(cfg, cursor, safe) + (if cfg.maxBlocks > 1 then cfg.maxBlocks else 1) - 1;
    if safe < last then safe else last
  }

  predicate Finished(cfg: Config, before: Option<nat>, after: Option<nat>, safe: nat) {
    if FirstBlock(cfg, before, safe) <= LastBlock(cfg, before, safe) then after == Some(LastBlock(cfg, before, safe))
    else after == before
  }

  /** Where a source gets to in one cycle that succeeds: as many blocks further as a cycle
      takes at most, but not past the safe block. */
  predicate CycleTakes(cfg: Config, before: Option<nat>, after: Option<nat>, safe: nat) {
    var blocks := if cfg.maxBlocks > 1 then cfg.maxBlocks else 1;
    match (before, cfg.startBlock)
    case (Some(n), _) =>
      after == if n >= safe then before else if n + blocks < safe then Some(n + blocks) else Some(safe)
    case (None, Some(s)) =>
      after == if s > safe then None else if s + blocks - 1 < safe then Some(s + blocks - 1) else Some(safe)
    case (None, None) => after == Some(safe)
  }

  /** A cursor at the safe block, if it was not further already. */
  predicate Passed(before: Option<nat>, after: Option<nat>, safe: nat) {
    after == if before.Some? && before.value > safe then before else Some(safe)
  }

  lemma FinishedTakes(cfg: Config, before: Option<nat>, after: Option<nat>, safe: nat)
    requires Finished(cfg, before, after, safe)
    ensures CycleTakes(cfg, before, after, safe)
  {
  }

  /** After n cycles that succeed a source is at the safe block, or at least n blocks further. */
  predicate TurnsTake(cfg: Config, before: Option<nat>, after: Option<nat>, safe: nat, n: nat) {
    (n == 0 ==> after == before) &&
    match (before, cfg.startBlock)
    case (Some(b), _) =>
      after.Some? && if b >= safe then after == before else after == Some(safe) || b + n <= after.value < safe
    case (None, Some(s)) => n > 0 && s <= safe ==> after.Some? && (after == Some(safe) || s + n - 1 <= after.value < safe)
    case (None, None) => n > 0 ==> after == Some(safe)
  }

  /** The first scan of an old state begins all sources where it left off; a new one begins
      at the safe block, or with no cursor at the operator's start block. */
  predicate Inherits(cfg: Config, sc: EvmScan, sc': EvmScan, safe: nat) {
    if sc.cursors.Some? then sc' == sc
    else
      && sc'.cursors.Some? && sc'.log == sc.log
      && var begin := if sc.last.Some? then sc.last else if cfg.startBlock.None? then Some(safe) else None;
         sc'.last == begin && sc'.cursors.value.native == begin && sc'.cursors.value.erc20 == begin && sc'.cursors.value.internal == begin
  }

  ghost predicate OthersStay(sc: EvmScan, sc': EvmScan, kind: Kind) {
    sc.cursors.Some? && sc'.cursors.Some? && forall k: Kind :: k != kind ==> sc'.cursors.value.Get(k) == sc.cursors.value.Get(k)
  }

  /** A source that began at before is about to scan block from. */
  predicate Positioned(cfg: Config, before: Option<nat>, now: Option<nat>, from: nat, safe: nat) {
    var first := FirstBlock(cfg, before, safe);
    if from == first then now == before
    else now == Some(from - 1) && first < from <= LastBlock(cfg, before, safe) + 1
  }

  /** Only the one source moved, by whole chunks of its size. */
  ghost predicate Progress(cfg: Config, p: Provider, sc: EvmScan, sc': EvmScan, kind: Kind, lookup: seq<Address>) {
    && OthersStay(sc, sc', kind) && sc'.base == sc.base && sc.log <= sc'.log
    && forall i :: |sc.log| <= i < |sc'.log| ==> WholeChunk(cfg, p, sc'.log[i], kind, lookup)
  }

  /** The source went ahead without looking at anything. */
  ghost predicate Skipped(sc: EvmScan, sc': EvmScan, kind: Kind) {
    && sc'.base == sc.base && sc.log <= sc'.log
    && forall i :: |sc.log| <= i < |sc'.log| ==> sc'.log[i].kind == kind && sc'.log[i].lookup == {}
  }

  /** No larger than the chunks of its source, and with what the providers answered for it. */
  predicate WholeChunk(cfg: Config, p: Provider, c: Chunk, kind: Kind, lookup: seq<Address>) {
    && IsChunkOf(c, p, kind, c.from, c.to + 1, lookup)
    && match kind
       case Native => c.to == c.from
       case Erc20 => c.to < c.from + 25
       case Internal => c.to == c.from || c.to < c.from + cfg.maxBlocks
  }

  /** Nothing was credited, ignored or dropped. */
  ghost predicate OnlyScans(s: State<EvmScan>, s': State<EvmScan>) {
    && s'.mem.credited == s.mem.credited && s'.mem.ignored == s.mem.ignored
    && s.mem.pending <= s'.mem.pending && s'.credits == s.credits && s'.detected == s.detected
  }

  lemma CaughtIsAccounted(cfg: Config, s: State<EvmScan>, s': State<EvmScan>, c: Chunk, detected: seq<Transfer>)
    requires Caught(cfg, s.mem, c.kind, c.lookup, c.answered, detected) && Queued(s, s')
    requires AllKnown(s'.mem, detected, |detected|)
    ensures AllAccounted(cfg, s'.mem, c)
  {
    forall x | x in c.answered && Qualifies(cfg, c.kind, x, c.lookup) ensures Accounted(s'.mem, x.id) {
      if x in detected {
        assert detected[..|detected|] == detected;
        AllKnownAt(s'.mem, detected, |detected|, x);
      } else {
      }
    }
  }

  lemma MayMove(cfg: Config, w: World, s: State<EvmScan>, kind: Kind, block: nat, history: Option<Chunk>, c: EvmScan)
    requires s.mem.scan.cursors.Some?
    requires var cursor := s.mem.scan.cursors.value.Get(kind);
      if history.None? then cursor.Some? && block <= cursor.value
      else history.value.kind == kind && history.value.to == block && MayComplete(cfg, w, s.mem, history.value)
    requires c == if history.None? then Moved(s.mem.scan, kind, block) else Scanned(s.mem.scan, history.value)
    ensures Guard(cfg, w, s, Advance(c))
  {
    if history.None? {
      assert Stays(s.mem.scan, c);
    } else {
      assert Completes(cfg, w, s.mem, c);
    }
  }
}
