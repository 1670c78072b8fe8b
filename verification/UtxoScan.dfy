/** The block scan position of the Bitcoin and Litecoin detectors and what it promises
    about payments, over scans, credits, rollbacks, crashes and restarts
    (src/blockstream.rs:754-951, 1241-1435). */
module UtxoScan {
  import opened Common
  import opened Outbox
  import P = UtxoPayments

  type Hash = P.Hash
  type ChainData = P.ChainData

  /** known and last are in the state file, next is the scan loop's own height. log is
      history: every block recorded and not rolled back, pruned or not. */
  datatype Scan = Scan(known: map<nat, Hash>, last: Option<nat>, next: nat, log: map<nat, Hash>)

  function SatSub(a: nat, b: nat): nat { if a >= b then a - b else 0 }

  // ---------------------------------------------------------------------
  // The moves of the scan loop
  // ---------------------------------------------------------------------

  function From(m: map<nat, Hash>, low: nat): (r: map<nat, Hash>)
    ensures forall h :: h in r <==> h in m && low <= h
    ensures forall h :: h in r ==> r[h] == m[h]
  {
    map h | h in m && low <= h :: m[h]
  }

  function Outside(m: map<nat, Hash>, low: nat, high: nat): (r: map<nat, Hash>)
    ensures forall h :: h in r <==> h in m && !(low <= h < high)
    ensures forall h :: h in r ==> r[h] == m[h]
  {
    map h | h in m && !(low <= h < high) :: m[h]
  }

  function Till(m: map<nat, Hash>, high: nat): (r: map<nat, Hash>)
    ensures forall h :: h in r <==> h in m && h < high
    ensures forall h :: h in r ==> r[h] == m[h]
  {
    map h | h in m && h < high :: m[h]
  }

  /** Record the block at next. */
  function Recorded(sc: Scan, hash: Hash, minConfirmations: nat): Scan {
    Scan(From(sc.known[sc.next := hash], SatSub(sc.next, minConfirmations + 10)), Some(sc.next), sc.next + 1,
         sc.log[sc.next := hash])
  }

  function RolledBack(sc: Scan, from: nat): Scan {
    Scan(Outside(sc.known, from, sc.next), Some(SatSub(from, 1)), from, Till(sc.log, from))
  }

  /** How a process finds its first height: told by the operator, after the tip, or from
      the file and else at the tip. */
  datatype Start = Override(height: nat) | SkipSync(tip: nat) | FromFile(tip: nat)

  function Restarted(sc: Scan, st: Start): Scan {
    var next := match st
      case Override(h) => h
      case SkipSync(tip) => tip + 1
      case FromFile(tip) => if sc.last.Some? then sc.last.value + 1 else tip;
    Scan(if st.SkipSync? then map[] else sc.known, Some(SatSub(next, 1)), next, sc.log)
  }

  // ---------------------------------------------------------------------
  // The detector as an outbox
  // ---------------------------------------------------------------------

  ghost predicate Names(cd: ChainData, id: Id, t: string, a: string) {
    P.IsTxid(t) && id == P.PaymentKey(cd.ticker, t, a)
  }

  ghost function AmountOf(cd: ChainData, id: Id): nat {
    if exists t, a :: Names(cd, id, t, a) then var t, a :| Names(cd, id, t, a); P.Amount(cd, t, a) else 0
  }

  lemma AmountOfKey(cd: ChainData, t: string, a: string)
    requires P.IsTxid(t)
    ensures AmountOf(cd, P.PaymentKey(cd.ticker, t, a)) == P.Amount(cd, t, a)
  {
    var id := P.PaymentKey(cd.ticker, t, a);
    assert Names(cd, id, t, a);
    forall t', a' | Names(cd, id, t', a') ensures t' == t && a' == a {
      P.PaymentKeyInjective(cd.ticker, t, a, t', a');
    }
  }

  /** Payments are keyed by ticker, transaction and address, and known to older releases
      by their transaction alone. */
  predicate Keyed(cd: ChainData, p: Entry) {
    P.IsTxid(p.txid) && p.id == P.PaymentKey(cd.ticker, p.txid, p.address) && p.alias == p.txid
  }

  ghost predicate CreditedPayment(cd: ChainData, b: Book<Scan>, t: string, a: string) {
    P.PaymentKey(cd.ticker, t, a) in b.credited || t in b.credited
  }

  /** Credited, or pending since height h or before. */
  ghost predicate Held(cd: ChainData, b: Book<Scan>, t: string, a: string, h: nat) {
    CreditedPayment(cd, b, t, a) || exists p :: p in b.pending && p.txid == t && p.address == a && p.height <= h
  }

  ghost predicate AllHeld(cd: ChainData, b: Book<Scan>, hash: Hash, h: nat) {
    forall t, a :: P.Due(cd, hash, t, a) ==> Held(cd, b, t, a, h)
  }

  /** Credited, or pending since whatever height: all that the code asks for. */
  ghost predicate Present(cd: ChainData, b: Book<Scan>, t: string, a: string) {
    CreditedPayment(cd, b, t, a) || exists p :: p in b.pending && p.txid == t && p.address == a
  }

  ghost predicate AllPresent(cd: ChainData, b: Book<Scan>, hash: Hash) {
    forall t, a :: P.Due(cd, hash, t, a) ==> Present(cd, b, t, a)
  }

  /** Whether a process may start at a height: no payment is pending above it only, and of
      the hashes remembered below it none lies above the last scanned height (as can be
      after an operator has gone back). At height 0 none may be remembered for it: the walk
      of `detect_reorg` would count a mismatch there, and the height cannot go below 0. */
  ghost predicate SafeStart(cd: ChainData, b: Book<Scan>, st: Start) {
    var sc := Restarted(b.scan, st);
    && (forall p :: p in b.pending ==> Held(cd, b, p.txid, p.address, sc.next))
    && (forall h :: h in sc.known && h < sc.next ==> h < b.scan.next)
    && (sc.next == 0 ==> 0 !in sc.known)
  }

  /** What the scan loop does on its own account: queue payments of the block it is
      reading, record a block whose payments are all there, roll back, start. The loop also
      starts again within the process, from memory, after a failed write. */
  ghost predicate CodeGuard(cd: ChainData, minConfirmations: nat, s: State<Scan>, e: Event<Scan>) {
    match e
    case Queue(p) => p.height == s.mem.scan.next && s.mem.scan.last.Some?
    case Advance(c) =>
      || (exists hash :: c == Recorded(s.mem.scan, hash, minConfirmations) && AllPresent(cd, s.mem, hash))
      || (exists st :: c == Restarted(s.mem.scan, st))
    case Rollback(from, c) =>
      from < s.mem.scan.next && c == RolledBack(s.mem.scan, from)
      && forall h :: from <= h < s.mem.scan.next ==> h in s.mem.scan.known
    case Crash(c) => exists st :: c == Restarted(s.disk.scan, st)
    case Ignore(_) => false
    case Remine(_, _) => false
    case _ => true
  }

  ghost function CodeRules(cd: ChainData, minConfirmations: nat): Rules<Scan> {
    Rules(id => AmountOf(cd, id), p => Keyed(cd, p), (s: State<Scan>, e: Event<Scan>) => CodeGuard(cd, minConfirmations, s, e))
  }

  /** The same with safe starts only; then a recorded block's payments are held. */
  ghost predicate Guard(cd: ChainData, minConfirmations: nat, s: State<Scan>, e: Event<Scan>) {
    match e
    case Queue(p) => p.height == s.mem.scan.next && s.mem.scan.last.Some?
    case Advance(c) =>
      || (exists hash :: c == Recorded(s.mem.scan, hash, minConfirmations) && AllHeld(cd, s.mem, hash, s.mem.scan.next))
      || (exists st :: c == Restarted(s.mem.scan, st) && SafeStart(cd, s.mem, st))
    case Rollback(from, c) =>
      from < s.mem.scan.next && c == RolledBack(s.mem.scan, from)
      && forall h :: from <= h < s.mem.scan.next ==> h in s.mem.scan.known
    case Crash(c) => exists st :: c == Restarted(s.disk.scan, st) && SafeStart(cd, s.disk, st)
    case Ignore(_) => false
    case Remine(_, _) => false
    case _ => true
  }

  ghost function UtxoRules(cd: ChainData, minConfirmations: nat): Rules<Scan> {
    Rules(id => AmountOf(cd, id), p => Keyed(cd, p), (s: State<Scan>, e: Event<Scan>) => Guard(cd, minConfirmations, s, e))
  }

  // ---------------------------------------------------------------------
  // Coverage
  // ---------------------------------------------------------------------

  /** Every watched payment of every recorded block is credited or pending since that block
      or an earlier one; the hashes remembered for scanned heights are those recorded. */
  ghost predicate Covers(cd: ChainData, b: Book<Scan>) {
    && (forall h :: h in b.scan.known && h < b.scan.next ==> h in b.scan.log && b.scan.known[h] == b.scan.log[h])
    && (b.scan.next == 0 ==> 0 !in b.scan.known)
    && (forall p :: p in b.pending ==> Keyed(cd, p) && Held(cd, b, p.txid, p.address, b.scan.next))
    && (b.scan.last.Some? ==> b.scan.last.value == SatSub(b.scan.next, 1))
    && (b.scan.last.None? ==> b.scan.known == map[] && b.pending == [])
    && (forall h :: h in b.scan.log ==> AllHeld(cd, b, b.scan.log[h], h))
  }

  ghost predicate CoverInv(cd: ChainData, s: State<Scan>) {
    Covers(cd, s.mem) && Covers(cd, s.disk)
  }

  /** Held payments stay held while pending keeps its entries, or credits them. */
  lemma HeldStays(cd: ChainData, b: Book<Scan>, b': Book<Scan>, hash: Hash, h: nat)
    requires AllHeld(cd, b, hash, h) && b.credited <= b'.credited
    requires forall p :: p in b.pending && p.height <= h ==> Kept(cd, b', p)
    ensures AllHeld(cd, b', hash, h)
  {
    forall t, a | P.Due(cd, hash, t, a) ensures Held(cd, b', t, a, h) {
      OneHeldStays(cd, b, b', t, a, h);
    }
  }

  lemma OneHeldStays(cd: ChainData, b: Book<Scan>, b': Book<Scan>, t: string, a: string, h: nat)
    requires Held(cd, b, t, a, h) && b.credited <= b'.credited
    requires forall p :: p in b.pending && p.height <= h ==> Kept(cd, b', p)
    ensures Held(cd, b', t, a, h)
  {
    if !CreditedPayment(cd, b, t, a) {
      var p :| p in b.pending && p.txid == t && p.address == a && p.height <= h;
      assert Kept(cd, b', p);
    }
  }

  ghost predicate PendingFor(b: Book<Scan>, p: Entry) {
    exists q :: q in b.pending && q.txid == p.txid && q.address == p.address
  }

  /** p is still pending, but for its notified flag, or was credited. */
  ghost predicate Kept(cd: ChainData, b: Book<Scan>, p: Entry) {
    p in b.pending || p.(notified := true) in b.pending || CreditedPayment(cd, b, p.txid, p.address)
  }

  lemma SameScanStays(cd: ChainData, b: Book<Scan>, b': Book<Scan>)
    requires Covers(cd, b) && b'.scan == b.scan && b.credited <= b'.credited
    requires forall p :: p in b.pending ==> Kept(cd, b', p)
    requires forall p :: p in b'.pending ==> Keyed(cd, p) && (PendingFor(b, p) || p.height <= b.scan.next)
    requires b.scan.last.Some? || b'.pending == []
    ensures Covers(cd, b')
  {
    forall p | p in b'.pending ensures Held(cd, b', p.txid, p.address, b.scan.next) {
      if PendingFor(b, p) {
        var q :| q in b.pending && q.txid == p.txid && q.address == p.address;
        OneHeldStays(cd, b, b', p.txid, p.address, b.scan.next);
      }
    }
    forall h | h in b.scan.log ensures AllHeld(cd, b', b.scan.log[h], h) {
      HeldStays(cd, b, b', b.scan.log[h], h);
    }
  }

  lemma NotifyKeeps(cd: ChainData, b: Book<Scan>, b': Book<Scan>, id: Id)
    requires Covers(cd, b) && b' == b.(pending := Update(b.pending, id, SetNotified))
    ensures Covers(cd, b')
  {
    var ps, qs := b.pending, b'.pending;
    forall p | p in ps ensures Kept(cd, b', p) {
      var i :| 0 <= i < |ps| && ps[i] == p;
      assert qs[i] in qs;
    }
    forall q | q in qs ensures Keyed(cd, q) && PendingFor(b, q) {
      var i :| 0 <= i < |qs| && qs[i] == q;
      assert ps[i] in ps;
    }
    SameScanStays(cd, b, b');
  }

  lemma RetireKeeps(cd: ChainData, b: Book<Scan>, b': Book<Scan>, e: Entry)
    requires Covers(cd, b) && b' == b.(pending := Without(b.pending, e.id))
    requires Keyed(cd, e) && Credited(b, e)
    ensures Covers(cd, b')
  {
    forall p | p in b.pending ensures Kept(cd, b', p) {
      if p.id == e.id {
        P.PaymentKeyInjective(cd.ticker, p.txid, p.address, e.txid, e.address);
      }
    }
    SameScanStays(cd, b, b');
  }

  lemma AdvanceKeeps(cd: ChainData, b: Book<Scan>, b': Book<Scan>, hash: Hash, minConfirmations: nat)
    requires Covers(cd, b) && AllHeld(cd, b, hash, b.scan.next)
    requires b' == b.(scan := Recorded(b.scan, hash, minConfirmations))
    ensures Covers(cd, b')
  {
    forall h | h in b'.scan.log ensures AllHeld(cd, b', b'.scan.log[h], h) {
      HeldStays(cd, b, b', b'.scan.log[h], h);
    }
    forall p | p in b'.pending ensures Held(cd, b', p.txid, p.address, b'.scan.next) {
      assert Held(cd, b, p.txid, p.address, b.scan.next);
    }
  }

  lemma RollbackKeeps(cd: ChainData, b: Book<Scan>, b': Book<Scan>, from: nat)
    requires Covers(cd, b) && from <= b.scan.next
    requires b' == b.(pending := Below(b.pending, from), scan := RolledBack(b.scan, from))
    ensures Covers(cd, b')
  {
    forall h | h in b'.scan.log ensures AllHeld(cd, b', b'.scan.log[h], h) {
      HeldStays(cd, b, b', b.scan.log[h], h);
    }
  }

  lemma RestartKeeps(cd: ChainData, b: Book<Scan>, b': Book<Scan>, st: Start)
    requires Covers(cd, b) && SafeStart(cd, b, st) && b' == b.(scan := Restarted(b.scan, st))
    ensures Covers(cd, b')
  {
    forall h | h in b'.scan.log ensures AllHeld(cd, b', b'.scan.log[h], h) {
      HeldStays(cd, b, b', b.scan.log[h], h);
    }
    forall p | p in b'.pending ensures Held(cd, b', p.txid, p.address, b'.scan.next) {
      assert Held(cd, b, p.txid, p.address, b'.scan.next);
    }
  }

  lemma CoverStep(cd: ChainData, m: nat, s: State<Scan>, e: Event<Scan>)
    requires CoverInv(cd, s) && Enabled(UtxoRules(cd, m), s, e)
    ensures CoverInv(cd, Apply(s, e))
  {
    var b, b' := s.mem, Apply(s, e).mem;
    match e
    case Queue(p) => SameScanStays(cd, b, b');
    case Notify(id) => NotifyKeeps(cd, b, b', id);
    case Record(id) => SameScanStays(cd, b, b');
    case Retire(p) => RetireKeeps(cd, b, b', p);
    case Advance(c) =>
      assert Guard(cd, m, s, e);
      if st :| c == Restarted(b.scan, st) && SafeStart(cd, b, st) {
        RestartKeeps(cd, b, b', st);
      } else {
        var hash :| c == Recorded(b.scan, hash, m) && AllHeld(cd, b, hash, b.scan.next);
        AdvanceKeeps(cd, b, b', hash, m);
      }
    case Rollback(from, c) =>
      assert Guard(cd, m, s, e);
      RollbackKeeps(cd, b, b', from);
    case Crash(c) =>
      assert Guard(cd, m, s, e);
      var st :| c == Restarted(s.disk.scan, st) && SafeStart(cd, s.disk, st);
      RestartKeeps(cd, s.disk, b', st);
    case _ =>
  }

  lemma {:induction false} CoverRun(cd: ChainData, m: nat, s: State<Scan>, es: seq<Event<Scan>>)
    requires CoverInv(cd, s) && Legal(UtxoRules(cd, m), s, es)
    ensures CoverInv(cd, Run(s, es))
    decreases |es|
  {
    if es != [] {
      CoverRun(cd, m, s, es[..|es| - 1]);
      CoverStep(cd, m, Run(s, es[..|es| - 1]), es[|es| - 1]);
    }
  }

  /** The event is no start, or a safe one. */
  ghost predicate StartsSafely(cd: ChainData, m: nat, s: State<Scan>, e: Event<Scan>) {
    match e
    case Advance(c) =>
      || (exists hash :: c == Recorded(s.mem.scan, hash, m) && AllPresent(cd, s.mem, hash))
      || (exists st :: c == Restarted(s.mem.scan, st) && SafeStart(cd, s.mem, st))
    case Crash(c) => exists st :: c == Restarted(s.disk.scan, st) && SafeStart(cd, s.disk, st)
    case _ => true
  }

  ghost predicate AllStartSafely(cd: ChainData, m: nat, s: State<Scan>, es: seq<Event<Scan>>) {
    es == [] || (AllStartSafely(cd, m, s, es[..|es| - 1]) && StartsSafely(cd, m, Run(s, es[..|es| - 1]), es[|es| - 1]))
  }

  /** While no payment is pending above the next height only, what is there is held. */
  lemma PresentIsHeld(cd: ChainData, b: Book<Scan>, hash: Hash)
    requires Covers(cd, b) && AllPresent(cd, b, hash)
    ensures AllHeld(cd, b, hash, b.scan.next)
  {
    forall t, a | P.Due(cd, hash, t, a) ensures Held(cd, b, t, a, b.scan.next) {
      assert Present(cd, b, t, a);
      if !CreditedPayment(cd, b, t, a) {
        var p :| p in b.pending && p.txid == t && p.address == a;
        assert Held(cd, b, p.txid, p.address, b.scan.next);
      }
    }
  }

  lemma SafeCodeStep(cd: ChainData, m: nat, s: State<Scan>, e: Event<Scan>)
    requires CoverInv(cd, s) && Enabled(CodeRules(cd, m), s, e) && StartsSafely(cd, m, s, e)
    ensures Enabled(UtxoRules(cd, m), s, e)
  {
    assert Governed(e) ==> CodeGuard(cd, m, s, e);
    if e.Advance? && !exists st :: e.scan == Restarted(s.mem.scan, st) && SafeStart(cd, s.mem, st) {
      var hash :| e.scan == Recorded(s.mem.scan, hash, m) && AllPresent(cd, s.mem, hash);
      PresentIsHeld(cd, s.mem, hash);
    }
    assert Governed(e) ==> Guard(cd, m, s, e);
  }

  lemma {:induction false} CodeRun(cd: ChainData, m: nat, s: State<Scan>, es: seq<Event<Scan>>)
    requires CoverInv(cd, s) && Legal(CodeRules(cd, m), s, es) && AllStartSafely(cd, m, s, es)
    ensures CoverInv(cd, Run(s, es))
    decreases |es|
  {
    if es != [] {
      var s1 := Run(s, es[..|es| - 1]);
      CodeRun(cd, m, s, es[..|es| - 1]);
      SafeCodeStep(cd, m, s1, es[|es| - 1]);
      CoverStep(cd, m, s1, es[|es| - 1]);
    }
  }

  /** Whatever happens, if every start is safe: in memory and in the file every watched
      payment of every recorded block is credited, or pending from that block or an earlier
      one, and the hashes remembered for scanned heights are those of the recorded blocks. */
  lemma NothingRecordedIsLost(cd: ChainData, m: nat, s: State<Scan>, es: seq<Event<Scan>>, b: Book<Scan>, h: nat, t: string, a: string)
    requires CoverInv(cd, s) && Legal(CodeRules(cd, m), s, es) && AllStartSafely(cd, m, s, es)
    requires b in {Run(s, es).mem, Run(s, es).disk}
    ensures h in b.scan.log && P.Due(cd, b.scan.log[h], t, a) ==> Held(cd, b, t, a, h)
    ensures h in b.scan.known && h < b.scan.next ==> h in b.scan.log && b.scan.known[h] == b.scan.log[h]
  {
    CodeRun(cd, m, s, es);
  }

  // ---------------------------------------------------------------------
  // Which starts are safe
  // ---------------------------------------------------------------------

  /** A process that goes on after its last scanned height is safe. */
  lemma FileStartIsSafe(cd: ChainData, s: State<Scan>, tip: nat)
    requires CoverInv(cd, s)
    ensures SafeStart(cd, s.disk, FromFile(tip)) && SafeStart(cd, s.mem, FromFile(tip))
  {
    forall b | b in {s.disk, s.mem} ensures SafeStart(cd, b, FromFile(tip)) {
      forall p | p in b.pending ensures Held(cd, b, p.txid, p.address, Restarted(b.scan, FromFile(tip)).next) {
        assert Held(cd, b, p.txid, p.address, b.scan.next);
      }
    }
  }

  /** Nothing is lost: every payment of a block recorded for a scanned height is there; and
      the walk of `detect_reorg` stops in time. */
  ghost predicate Lossless(cd: ChainData, b: Book<Scan>) {
    && (forall h :: h in b.scan.known && h < b.scan.next ==> AllPresent(cd, b, b.scan.known[h]))
    && (b.scan.next == 0 ==> 0 !in b.scan.known)
  }

  lemma CoversIsLossless(cd: ChainData, b: Book<Scan>)
    requires Covers(cd, b)
    ensures Lossless(cd, b)
  {
    forall h, t, a | h in b.scan.known && h < b.scan.next && P.Due(cd, b.scan.known[h], t, a) ensures Present(cd, b, t, a) {
      assert AllHeld(cd, b, b.scan.log[h], h);
      assert Held(cd, b, t, a, h);
    }
  }

  /** The process goes on: no event is a start. */
  ghost predicate GoesOn(cd: ChainData, m: nat, s: State<Scan>, e: Event<Scan>) {
    match e
    case Advance(c) => exists hash :: c == Recorded(s.mem.scan, hash, m) && AllPresent(cd, s.mem, hash)
    case Crash(_) => false
    case _ => true
  }

  ghost predicate AllGoOn(cd: ChainData, m: nat, s: State<Scan>, es: seq<Event<Scan>>) {
    es == [] || (AllGoOn(cd, m, s, es[..|es| - 1]) && GoesOn(cd, m, Run(s, es[..|es| - 1]), es[|es| - 1]))
  }

  lemma {:induction false} GoingOnIsSafe(cd: ChainData, m: nat, s: State<Scan>, es: seq<Event<Scan>>)
    requires AllGoOn(cd, m, s, es)
    ensures AllStartSafely(cd, m, s, es)
    decreases |es|
  {
    if es != [] {
      GoingOnIsSafe(cd, m, s, es[..|es| - 1]);
    }
  }

  /** A process started below a pending payment scans a block that has the payment, where it
      is passed over as pending already; then a block on top, which is reorganised away, and
      with it goes the payment. */
  ghost function LosingRun(sc: Scan, m: nat, again: Hash, quiet: Hash): seq<Event<Scan>> {
    var c1 := Recorded(sc, again, m);
    var c2 := Recorded(c1, quiet, m);
    [Advance(c1), Advance(c2), Rollback(c1.next, RolledBack(c2, c1.next))]
  }

  ghost predicate MayReturn(cd: ChainData, b: Book<Scan>, p: Entry, again: Hash) {
    P.Due(cd, again, p.txid, p.address) && AllPresent(cd, b, again)
  }

  lemma StartBelowPendingLoses(cd: ChainData, m: nat, s: State<Scan>, p: Entry, again: Hash, quiet: Hash)
    requires p in s.mem.pending && !Held(cd, s.mem, p.txid, p.address, s.mem.scan.next)
    requires MayReturn(cd, s.mem, p, again) && cd.txs(quiet) == []
    ensures var es := LosingRun(s.mem.scan, m, again, quiet); var b := Run(s, es).mem;
      && Legal(CodeRules(cd, m), s, es) && AllGoOn(cd, m, s, es)
      && s.mem.scan.next in b.scan.known && b.scan.known[s.mem.scan.next] == again && s.mem.scan.next < b.scan.next
      && P.Due(cd, again, p.txid, p.address) && !Present(cd, b, p.txid, p.address)
  {
    LosingRunIsLegal(cd, m, s, again, quiet);
  }

  lemma LosingRunIsLegal(cd: ChainData, m: nat, s: State<Scan>, again: Hash, quiet: Hash)
    requires AllPresent(cd, s.mem, again) && cd.txs(quiet) == []
    ensures var es := LosingRun(s.mem.scan, m, again, quiet); var c := Recorded(Recorded(s.mem.scan, again, m), quiet, m);
      var from := s.mem.scan.next + 1;
      && Legal(CodeRules(cd, m), s, es) && AllGoOn(cd, m, s, es)
      && Run(s, es).mem == s.mem.(pending := Below(s.mem.pending, from), scan := RolledBack(c, from))
  {
    var c1 := Recorded(s.mem.scan, again, m);
    var c2 := Recorded(c1, quiet, m);
    var e1, e2, e3 := Advance(c1), Advance(c2), Rollback(c1.next, RolledBack(c2, c1.next));
    var s1 := s.(mem := s.mem.(scan := c1));
    var s2 := s.(mem := s.mem.(scan := c2));
    assert AllPresent(cd, s1.mem, quiet);
    assert CodeGuard(cd, m, s, e1) && CodeGuard(cd, m, s1, e2) && CodeGuard(cd, m, s2, e3);
    RunTwo(CodeRules(cd, m), s, e1, e2);
    RunAppend(CodeRules(cd, m), s, [e1, e2], e3);
    assert LosingRun(s.mem.scan, m, again, quiet) == [e1, e2] + [e3];
    ThreeGoOn(cd, m, s, e1, e2, e3);
  }

  lemma ThreeGoOn(cd: ChainData, m: nat, s: State<Scan>, e1: Event<Scan>, e2: Event<Scan>, e3: Event<Scan>)
    requires GoesOn(cd, m, s, e1) && GoesOn(cd, m, Apply(s, e1), e2) && GoesOn(cd, m, Apply(Apply(s, e1), e2), e3)
    ensures AllGoOn(cd, m, s, [e1, e2] + [e3])
  {
    var es := [e1, e2] + [e3];
    assert es[..2] == [e1, e2] && [e1, e2][..1] == [e1] && [e1][..0] == [];
    assert Run(s, [e1]) == Apply(s, e1);
    assert Run(s, [e1, e2]) == Apply(Run(s, [e1]), e2);
    assert AllGoOn(cd, m, s, [e1]) && AllGoOn(cd, m, s, [e1, e2]);
  }

  /** No hash is remembered above the last scanned height: so it is in every file unless an
      operator has gone back. */
  predicate Settled(b: Book<Scan>) {
    forall h :: h in b.scan.known ==> h < b.scan.next
  }

  /** What the chain may have: a block that pays nobody, and for each pending payment a block
      that has it and no payment unknown so far. */
  ghost predicate Capable(cd: ChainData, b: Book<Scan>) {
    (exists quiet :: cd.txs(quiet) == []) && forall p :: p in b.pending ==> exists again :: MayReturn(cd, b, p, again)
  }

  ghost function Started(s: State<Scan>, st: Start): State<Scan> {
    Apply(s, Crash(Restarted(s.disk.scan, st)))
  }

  ghost predicate NeverLoses(cd: ChainData, m: nat, s: State<Scan>) {
    forall es :: Legal(CodeRules(cd, m), s, es) && AllGoOn(cd, m, s, es) ==> Lossless(cd, Run(s, es).mem)
  }

  /** A start is safe exactly if no run from it loses anything. (A height given by an operator
      is judged here for settled files; otherwise the condition still suffices.) */
  lemma StartIsSafeExactly(cd: ChainData, m: nat, s: State<Scan>, st: Start)
    requires CoverInv(cd, s) && (st.Override? ==> Settled(s.disk)) && Capable(cd, s.disk)
    ensures SafeStart(cd, s.disk, st) <==> NeverLoses(cd, m, Started(s, st))
  {
    if SafeStart(cd, s.disk, st) {
      RestartKeeps(cd, s.disk, Started(s, st).mem, st);
      forall es | Legal(CodeRules(cd, m), Started(s, st), es) && AllGoOn(cd, m, Started(s, st), es)
        ensures Lossless(cd, Run(Started(s, st), es).mem)
      {
        GoingOnIsSafe(cd, m, Started(s, st), es);
        CodeRun(cd, m, Started(s, st), es);
        CoversIsLossless(cd, Run(Started(s, st), es).mem);
      }
    } else {
      UnsafeStartLoses(cd, m, s, st);
    }
  }

  lemma UnsafeStartLoses(cd: ChainData, m: nat, s: State<Scan>, st: Start)
    requires CoverInv(cd, s) && (st.Override? ==> Settled(s.disk)) && Capable(cd, s.disk) && !SafeStart(cd, s.disk, st)
    ensures !NeverLoses(cd, m, Started(s, st))
  {
    var s1 := Started(s, st);
    if s1.mem.scan.next == 0 && 0 in s1.mem.scan.known {
      assert Legal(CodeRules(cd, m), s1, []) && AllGoOn(cd, m, s1, []) && !Lossless(cd, Run(s1, []).mem);
    } else {
      var p := WhyUnsafe(cd, s.disk, st);
      StartedBelowLoses(cd, m, s, st, p);
    }
  }

  lemma WhyUnsafe(cd: ChainData, b: Book<Scan>, st: Start) returns (p: Entry)
    requires Covers(cd, b) && (st.Override? ==> Settled(b)) && !SafeStart(cd, b, st)
    requires var sc := Restarted(b.scan, st); !(sc.next == 0 && 0 in sc.known)
    ensures p in b.pending && !Held(cd, b, p.txid, p.address, Restarted(b.scan, st).next)
  {
    p :| p in b.pending && !Held(cd, b, p.txid, p.address, Restarted(b.scan, st).next);
  }

  lemma StartedBelowLoses(cd: ChainData, m: nat, s: State<Scan>, st: Start, p: Entry)
    requires Capable(cd, s.disk) && p in s.disk.pending
    requires !Held(cd, s.disk, p.txid, p.address, Restarted(s.disk.scan, st).next)
    ensures !NeverLoses(cd, m, Started(s, st))
  {
    var s1 := Started(s, st);
    var quiet :| cd.txs(quiet) == [];
    var again :| MayReturn(cd, s.disk, p, again);
    forall t, a | P.Due(cd, again, t, a) ensures Present(cd, s1.mem, t, a) {
      assert Present(cd, s.disk, t, a);
    }
    StartBelowPendingLoses(cd, m, s1, p, again, quiet);
  }

  /** A block without watched payments can always be recorded. */
  lemma QuietAdvance(cd: ChainData, m: nat, s: State<Scan>, hash: Hash)
    requires cd.txs(hash) == []
    ensures var c := Recorded(s.mem.scan, hash, m);
            Enabled(UtxoRules(cd, m), s, Advance(c)) && Apply(s, Advance(c)) == s.(mem := s.mem.(scan := c))
  {
    assert AllHeld(cd, s.mem, hash, s.mem.scan.next);
    assert Guard(cd, m, s, Advance(Recorded(s.mem.scan, hash, m)));
  }

  // ---------------------------------------------------------------------
  // Reorganisations
  // ---------------------------------------------------------------------

  /** What an explorer answers for the hash at a height. */
  type View = nat -> Option<Hash>

  predicate Mismatch(known: map<nat, Hash>, view: View, h: nat) {
    h in known && view(h).Some? && view(h).value != known[h]
  }

  /** The mismatching records right below next, and no more. */
  ghost predicate ReorgDepth(known: map<nat, Hash>, view: View, next: nat, depth: nat) {
    && depth <= next
    && (forall h :: next - depth <= h < next ==> Mismatch(known, view, h))
    && (depth < next ==> !Mismatch(known, view, next - depth - 1))
  }

  lemma NotDeeper(known: map<nat, Hash>, view: View, next: nat, d: nat, d': nat)
    requires ReorgDepth(known, view, next, d) && ReorgDepth(known, view, next, d')
    ensures d' <= d
  {
    if d < next {
      var h: nat := next - d - 1;
      assert next - d' <= h ==> Mismatch(known, view, h);
    }
  }

  lemma ReorgDepthIsUnique(known: map<nat, Hash>, view: View, next: nat, d: nat, d': nat)
    requires ReorgDepth(known, view, next, d) && ReorgDepth(known, view, next, d')
    ensures d == d'
  {
    NotDeeper(known, view, next, d, d');
    NotDeeper(known, view, next, d', d);
  }

  ghost predicate Answers(known: map<nat, Hash>, view: View) {
    forall h :: h in known ==> view(h).Some?
  }

  ghost predicate Agrees(known: map<nat, Hash>, view: View) {
    forall h :: h in known ==> view(h) == Some(known[h])
  }

  /** The records are consecutive, up to next. */
  ghost predicate Contiguous(known: map<nat, Hash>, next: nat) {
    (forall h :: h in known ==> h < next) && (forall h, k :: h in known && h <= k < next ==> k in known)
  }

  /** Each record is the parent of the one above. */
  ghost predicate Linked(cd: ChainData, known: map<nat, Hash>) {
    forall h, k :: h in known && k in known && k == h + 1 ==> cd.parent(known[k]) == known[h]
  }

  /** The explorer answers from one chain. */
  ghost predicate OneChain(cd: ChainData, known: map<nat, Hash>, view: View) {
    Answers(known, view) && forall h, k :: h in known && k in known && k == h + 1 ==> cd.parent(view(k).value) == view(h).value
  }

  /** A rollback leaves only agreeing records exactly if no mismatching record lay below a
      matching one. */
  lemma RollbackAgreesExactly(sc: Scan, view: View, depth: nat)
    requires Contiguous(sc.known, sc.next) && Answers(sc.known, view) && ReorgDepth(sc.known, view, sc.next, depth)
    ensures Agrees(RolledBack(sc, sc.next - depth).known, view)
            <==> forall h, k :: Mismatch(sc.known, view, h) && h <= k && k in sc.known ==> Mismatch(sc.known, view, k)
  {
    var left, from := RolledBack(sc, sc.next - depth).known, sc.next - depth;
    if Agrees(left, view) {
      forall h: nat, k: nat | Mismatch(sc.known, view, h) && h <= k && k in sc.known ensures Mismatch(sc.known, view, k) {
        assert h < from ==> h in left;
      }
    }
    if forall h, k :: Mismatch(sc.known, view, h) && h <= k && k in sc.known ==> Mismatch(sc.known, view, k) {
      forall h | h in left ensures view(h) == Some(left[h]) {
        assert 0 <= h < from;
        var top: nat := from - 1;
        assert top in sc.known;
        assert Mismatch(sc.known, view, h) ==> Mismatch(sc.known, view, top);
      }
    }
  }

  /** Linked records agree with one chain from any matching record down. */
  lemma {:induction false} LinkedAgree(cd: ChainData, known: map<nat, Hash>, view: View, next: nat, h: nat, k: nat)
    requires Contiguous(known, next) && Linked(cd, known) && OneChain(cd, known, view)
    requires h <= k && h in known && k in known && view(k) == Some(known[k])
    ensures view(h) == Some(known[h])
    decreases k - h
  {
    if h < k {
      LinkedAgree(cd, known, view, next, h + 1, k);
    }
  }

  /** So if the records are linked and one still matches, everything a rollback leaves
      agrees with the chain. */
  lemma RollbackFindsTheFork(cd: ChainData, sc: Scan, view: View, depth: nat)
    requires Contiguous(sc.known, sc.next) && Linked(cd, sc.known) && OneChain(cd, sc.known, view)
    requires ReorgDepth(sc.known, view, sc.next, depth)
    ensures Agrees(RolledBack(sc, sc.next - depth).known, view)
  {
    forall h: nat, k: nat | Mismatch(sc.known, view, h) && h <= k && k in sc.known ensures Mismatch(sc.known, view, k) {
      if view(k) == Some(sc.known[k]) {
        LinkedAgree(cd, sc.known, view, sc.next, h, k);
      }
    }
    RollbackAgreesExactly(sc, view, depth);
  }

  ghost predicate NewestMatches(known: map<nat, Hash>, view: View, next: nat) {
    next > 0 && next - 1 in known && view(next - 1) == Some(known[next - 1])
  }

  /** Once the newest record matches the chain, no reorganisation is seen; then the records
      agree with the chain exactly if they are linked. */
  lemma UnseenMismatchMeansTorn(cd: ChainData, known: map<nat, Hash>, view: View, next: nat)
    requires Contiguous(known, next) && OneChain(cd, known, view)
    requires NewestMatches(known, view, next)
    ensures ReorgDepth(known, view, next, 0)
    ensures Agrees(known, view) <==> Linked(cd, known)
  {
    if Linked(cd, known) {
      forall h | h in known ensures view(h) == Some(known[h]) {
        LinkedAgree(cd, known, view, next, h, next - 1);
      }
    }
  }

  /** Linked records of which the one below f still matches, and the one at f does not, are
      a reorganisation of exactly the blocks from f on: the rollback goes to f. */
  lemma ForkIsFound(cd: ChainData, known: map<nat, Hash>, view: View, next: nat, f: nat)
    requires Contiguous(known, next) && Linked(cd, known) && OneChain(cd, known, view)
    requires 0 < f < next && f - 1 in known && view(f - 1) == Some(known[f - 1]) && Mismatch(known, view, f)
    ensures ReorgDepth(known, view, next, next - f)
  {
    forall h: nat | f <= h < next ensures Mismatch(known, view, h) {
      assert h in known && view(h).Some?;
      if view(h) == Some(known[h]) {
        LinkedAgree(cd, known, view, next, f, h);
      }
    }
  }

  /** How long a record stays: all of the last minConfirmations + 11 heights below top. */
  predicate Remembered(sc: Scan, low: nat, top: nat, m: nat) {
    forall h :: low <= h < sc.next && h + m + 11 >= top ==> h in sc.known
  }

  ghost predicate NeverAbove(s: State<Scan>, es: seq<Event<Scan>>, top: nat) {
    Run(s, es).mem.scan.next <= top && (es == [] || NeverAbove(s, es[..|es| - 1], top))
  }

  lemma RememberedStep(cd: ChainData, m: nat, s: State<Scan>, e: Event<Scan>, low: nat, top: nat)
    requires Remembered(s.mem.scan, low, top, m) && GoesOn(cd, m, s, e)
    requires Enabled(UtxoRules(cd, m), s, e) && Apply(s, e).mem.scan.next <= top
    ensures Remembered(Apply(s, e).mem.scan, low, top, m)
  {
    assert Governed(e) ==> Guard(cd, m, s, e);
  }

  /** While the process goes on, and its next height is never above top, it keeps the records
      of the last minConfirmations + 11 heights below top, as far as they go back. */
  lemma {:induction false} RecordsStay(cd: ChainData, m: nat, s: State<Scan>, es: seq<Event<Scan>>, low: nat, top: nat)
    requires Remembered(s.mem.scan, low, top, m) && NeverAbove(s, es, top)
    requires Legal(UtxoRules(cd, m), s, es) && AllGoOn(cd, m, s, es)
    ensures Remembered(Run(s, es).mem.scan, low, top, m)
    decreases |es|
  {
    if es != [] {
      var front := es[..|es| - 1];
      RecordsStay(cd, m, s, front, low, top);
      RememberedStep(cd, m, Run(s, front), es[|es| - 1], low, top);
    }
  }

  // ---------------------------------------------------------------------
  // Runs that keep the records linked
  // ---------------------------------------------------------------------

  ghost predicate Chained(cd: ChainData, b: Book<Scan>) {
    Contiguous(b.scan.known, b.scan.next) && Linked(cd, b.scan.known)
  }

  /** The recorded block is a child of the last record, and no operator picks a height. */
  ghost predicate Untorn(cd: ChainData, s: State<Scan>, e: Event<Scan>) {
    match e
    case Advance(c) =>
      var known, n := s.mem.scan.known, s.mem.scan.next;
      && (n > 0 && n - 1 in known && n in c.known ==> cd.parent(c.known[n]) == known[n - 1])
      && (n !in c.known ==> exists st: Start :: c == Restarted(s.mem.scan, st) && !st.Override?)
    case Crash(c) => exists st: Start :: c == Restarted(s.disk.scan, st) && !st.Override?
    case _ => true
  }

  ghost predicate AllUntorn(cd: ChainData, s: State<Scan>, es: seq<Event<Scan>>) {
    es == [] || (AllUntorn(cd, s, es[..|es| - 1]) && Untorn(cd, Run(s, es[..|es| - 1]), es[|es| - 1]))
  }

  lemma ChainedRecord(cd: ChainData, sc: Scan, hash: Hash, m: nat)
    requires Contiguous(sc.known, sc.next) && Linked(cd, sc.known)
    requires sc.next > 0 && sc.next - 1 in sc.known ==> cd.parent(hash) == sc.known[sc.next - 1]
    ensures var c := Recorded(sc, hash, m); Contiguous(c.known, c.next) && Linked(cd, c.known)
  {
  }

  lemma ChainedRestart(cd: ChainData, b: Book<Scan>, st: Start)
    requires Covers(cd, b) && Chained(cd, b) && !st.Override?
    ensures var c := Restarted(b.scan, st); Contiguous(c.known, c.next) && Linked(cd, c.known)
  {
  }

  lemma ChainedStep(cd: ChainData, m: nat, s: State<Scan>, e: Event<Scan>)
    requires CoverInv(cd, s) && Chained(cd, s.mem) && Chained(cd, s.disk)
    requires Enabled(UtxoRules(cd, m), s, e) && Untorn(cd, s, e)
    ensures Chained(cd, Apply(s, e).mem) && Chained(cd, Apply(s, e).disk)
  {
    match e
    case Advance(c) =>
      assert Guard(cd, m, s, e);
      if s.mem.scan.next in c.known {
        var hash :| c == Recorded(s.mem.scan, hash, m);
        ChainedRecord(cd, s.mem.scan, hash, m);
      } else {
        var st: Start :| c == Restarted(s.mem.scan, st) && !st.Override?;
        ChainedRestart(cd, s.mem, st);
      }
    case Rollback(from, c) =>
      assert Guard(cd, m, s, e);
    case Crash(c) =>
      var st: Start :| c == Restarted(s.disk.scan, st) && !st.Override?;
      ChainedRestart(cd, s.disk, st);
    case _ =>
  }

  lemma {:induction false} ChainedRun(cd: ChainData, m: nat, s: State<Scan>, es: seq<Event<Scan>>)
    requires CoverInv(cd, s) && Chained(cd, s.mem) && Chained(cd, s.disk)
    requires Legal(UtxoRules(cd, m), s, es) && AllUntorn(cd, s, es)
    ensures CoverInv(cd, Run(s, es)) && Chained(cd, Run(s, es).mem) && Chained(cd, Run(s, es).disk)
    decreases |es|
  {
    if es != [] {
      ChainedRun(cd, m, s, es[..|es| - 1]);
      ChainedStep(cd, m, Run(s, es[..|es| - 1]), es[|es| - 1]);
      CoverStep(cd, m, Run(s, es[..|es| - 1]), es[|es| - 1]);
    }
  }

  /** One of the last minConfirmations + 11 heights of a process that goes on, and no lower
      than its records went at the beginning. */
  ghost predicate InWindow(cd: ChainData, m: nat, s: State<Scan>, es: seq<Event<Scan>>, low: nat, top: nat, h: nat) {
    && AllGoOn(cd, m, s, es) && NeverAbove(s, es, top) && Remembered(s.mem.scan, low, top, m)
    && low <= h < Run(s, es).mem.scan.next && h + m + 11 >= top
  }

  /** Over runs that record children of their last record: as soon as the newest record
      matches the chain, every watched payment of the chain's own blocks in the recorded
      window is credited or pending. */
  lemma ChainWindowIsCovered(cd: ChainData, m: nat, s: State<Scan>, es: seq<Event<Scan>>, view: View, low: nat, top: nat, h: nat, t: string, a: string)
    requires CoverInv(cd, s) && Chained(cd, s.mem) && Chained(cd, s.disk)
    requires Legal(UtxoRules(cd, m), s, es) && AllUntorn(cd, s, es)
    requires OneChain(cd, Run(s, es).mem.scan.known, view)
    requires NewestMatches(Run(s, es).mem.scan.known, view, Run(s, es).mem.scan.next)
    requires h in Run(s, es).mem.scan.known || InWindow(cd, m, s, es, low, top, h)
    ensures view(h).Some? && (P.Due(cd, view(h).value, t, a) ==> Held(cd, Run(s, es).mem, t, a, h))
  {
    ChainedRun(cd, m, s, es);
    var b := Run(s, es).mem;
    if InWindow(cd, m, s, es, low, top, h) {
      RecordsStay(cd, m, s, es, low, top);
    }
    UnseenMismatchMeansTorn(cd, b.scan.known, view, b.scan.next);
    assert AllHeld(cd, b, b.scan.log[h], h);
  }

  lemma RecordTwoQuietBlocks(cd: ChainData, m: nat, s: State<Scan>, x: Hash, y: Hash)
    requires CoverInv(cd, s) && cd.txs(x) == [] && cd.txs(y) == []
    ensures var c1 := Recorded(s.mem.scan, x, m);
            var c2 := Recorded(c1, y, m);
            var es := [Advance(c1), Advance(c2)];
            Legal(UtxoRules(cd, m), s, es) && Run(s, es) == s.(mem := s.mem.(scan := c2)) && CoverInv(cd, Run(s, es))
  {
    var c1 := Recorded(s.mem.scan, x, m);
    var c2 := Recorded(c1, y, m);
    QuietAdvance(cd, m, s, x);
    QuietAdvance(cd, m, s.(mem := s.mem.(scan := c1)), y);
    RunTwo(UtxoRules(cd, m), s, Advance(c1), Advance(c2));
    CoverRun(cd, m, s, [Advance(c1), Advance(c2)]);
  }

  lemma TwoRecords(cd: ChainData, sc: Scan, x: Hash, y: Hash, m: nat, view: View)
    requires sc.known == map[] && view(sc.next) == Some(cd.parent(y)) && view(sc.next + 1) == Some(y)
    ensures var c := Recorded(Recorded(sc, x, m), y, m);
            && c.known == map[sc.next := x, sc.next + 1 := y]
            && OneChain(cd, c.known, view) && ReorgDepth(c.known, view, c.next, 0)
  {
    var n, c1 := sc.next, Recorded(sc, x, m);
    var c2 := Recorded(c1, y, m);
    assert c1.known == map[n := x];
    assert c2.known == map[n := x, n + 1 := y];
    assert !Mismatch(c2.known, view, n + 1);
  }

  /** The scan loop reads the hash to record after it has checked the last record. If the
      chain changes in between, the new record is no child of the old one, and a watched
      payment of the block that replaced the old one is missed for good: it is neither
      pending nor credited, and no reorganisation is seen. */
  lemma TornRecordMissesPayment(cd: ChainData, m: nat, s: State<Scan>, stale: Hash, newer: Hash, view: View, t: string, a: string)
    requires CoverInv(cd, s) && s.mem.scan.known == map[] && s.mem.pending == [] && !CreditedPayment(cd, s.mem, t, a)
    requires cd.txs(stale) == [] && cd.txs(newer) == [] && cd.parent(newer) != stale
    requires view(s.mem.scan.next) == Some(cd.parent(newer)) && view(s.mem.scan.next + 1) == Some(newer)
    requires P.Due(cd, cd.parent(newer), t, a)
    ensures var n := s.mem.scan.next;
            var c1 := Recorded(s.mem.scan, stale, m);
            var es := [Advance(c1), Advance(Recorded(c1, newer, m))];
            var b := Run(s, es).mem;
            && Legal(UtxoRules(cd, m), s, es) && CoverInv(cd, Run(s, es))
            && OneChain(cd, b.scan.known, view) && ReorgDepth(b.scan.known, view, b.scan.next, 0)
            && n in b.scan.known && view(n) == Some(cd.parent(newer))
            && b.pending == [] && !CreditedPayment(cd, b, t, a)
  {
    RecordTwoQuietBlocks(cd, m, s, stale, newer);
    TwoRecords(cd, s.mem.scan, stale, newer, m, view);
  }
}
