/** The scan cursors of the EVM detectors and what they promise about payments, over scans,
    failures, credits, crashes and restarts
    (src/ethereum.rs:112-133, 801-930, 1233-1432, 2154-2176). */
module EvmScan {
  import opened Common
  import opened Outbox

  type Address = string

  datatype Kind = Native | Erc20 | Internal

  /** A movement of value as a provider reports it. A contract creation has no receiver;
      failed marks a reverted transaction or call. */
  datatype Transfer = Transfer(id: Id, txid: string, block: nat, sender: Address, to: Option<Address>, amount: nat, failed: bool)

  // ---------------------------------------------------------------------
  // Cursors
  // ---------------------------------------------------------------------

  datatype Cursors = Cursors(native: Option<nat>, erc20: Option<nat>, internal: Option<nat>) {
    function Get(k: Kind): Option<nat> {
      match k
      case Native => native
      case Erc20 => erc20
      case Internal => internal
    }

    /** `set`: never backwards. */
    function Set(k: Kind, height: nat): (r: Cursors)
      ensures r.Get(k) == if Get(k).Some? && Get(k).value > height then Get(k) else Some(height)
      ensures forall j: Kind :: j != k ==> r.Get(j) == Get(j)
    {
      match k
      case Native => this.(native := Some(AtLeast(native, height)))
      case Erc20 => this.(erc20 := Some(AtLeast(erc20, height)))
      case Internal => this.(internal := Some(AtLeast(internal, height)))
    }

    /** `common_height`: what all three sources have reached. */
    function CommonHeight(): (r: Option<nat>)
      ensures r.Some? <==> forall k: Kind :: Get(k).Some?
      ensures r.Some? ==> (forall k: Kind :: r.value <= Get(k).value) && exists k: Kind :: r.value == Get(k).value
    {
      if native.None? || erc20.None? || internal.None? then
        assert Get(Native) == native && Get(Erc20) == erc20 && Get(Internal) == internal; None
      else
        assert Get(Native) == native && Get(Erc20) == erc20 && Get(Internal) == internal;
        var m := if native.value <= erc20.value then native.value else erc20.value;
        Some(if m <= internal.value then m else internal.value)
    }
  }

  function AtLeast(cursor: Option<nat>, height: nat): nat {
    if cursor.Some? && cursor.value > height then cursor.value else height
  }

  /** A completed scan of blocks from..=to: who was looked up, and what was answered. A
      source without addresses to look up skips blocks. */
  datatype Chunk = Chunk(kind: Kind, from: nat, to: nat, lookup: set<Address>, answered: seq<Transfer>)

  /** What the detector is up against: the amount each event ID stands for, and the answers
      the providers may give: told(c) if, asked for the blocks and the addresses of c, they
      may answer c.answered. */
  datatype World = World(amount: Id -> nat, told: Chunk -> bool)

  predicate Genuine(w: World, c: Chunk) {
    c.lookup == {} || w.told(c)
  }

  /** cursors and last are in the state file. base, where the scans started from, and log,
      the chunks completed since, are history. */
  datatype EvmScan = EvmScan(cursors: Option<Cursors>, last: Option<nat>, base: Cursors, log: seq<Chunk>)

  datatype Config = Config(gasTank: Address, startBlock: Option<nat>, minConfirmations: nat, maxBlocks: nat)

  /** A transfer the detector must not lose: value that reached an address looked up, and
      no top-up from our own gas tank. */
  predicate Qualifies(cfg: Config, kind: Kind, x: Transfer, lookup: set<Address>) {
    && x.amount != 0 && !x.failed && x.to.Some? && x.to.value in lookup
    && (kind.Erc20? || x.sender != cfg.gasTank || x.to.value == cfg.gasTank)
  }

  predicate IsGasTankTopUp(from: Address, to: Address, gasTank: Address) {
    from == gasTank && to != gasTank
  }

  // ---------------------------------------------------------------------
  // The detector as an outbox
  // ---------------------------------------------------------------------

  function Begun(sc: EvmScan, initial: Option<nat>): EvmScan {
    var all := Cursors(initial, initial, initial);
    EvmScan(Some(all), initial, all, sc.log)
  }

  function Moved(sc: EvmScan, kind: Kind, height: nat): EvmScan
    requires sc.cursors.Some?
  {
    var cs := sc.cursors.value.Set(kind, height);
    sc.(cursors := Some(cs), last := cs.CommonHeight())
  }

  function Scanned(sc: EvmScan, chunk: Chunk): EvmScan
    requires sc.cursors.Some?
  {
    Moved(sc, chunk.kind, chunk.to).(log := sc.log + [chunk])
  }

  ghost predicate AllAccounted(cfg: Config, b: Book<EvmScan>, chunk: Chunk) {
    forall x :: x in chunk.answered && Qualifies(cfg, chunk.kind, x, chunk.lookup) ==> Accounted(b, x.id)
  }

  ghost predicate Guard(cfg: Config, w: World, s: State<EvmScan>, e: Event<EvmScan>) {
    match e
    case Queue(p) => p.id !in s.mem.ignored
    case Advance(c) =>
      || (s.mem.scan.cursors.None? && s.mem.scan.log == [] && exists initial :: c == Begun(s.mem.scan, initial))
      || Stays(s.mem.scan, c)
      || Completes(cfg, w, s.mem, c)
    case Rollback(_, _) => false
    case Crash(c) => c == s.disk.scan
    case _ => true
  }

  /** A cursor told a height it has already passed. */
  ghost predicate Stays(sc: EvmScan, c: EvmScan) {
    sc.cursors.Some? && exists kind: Kind, height: nat ::
      c == Moved(sc, kind, height) && sc.cursors.value.Get(kind).Some? && height <= sc.cursors.value.Get(kind).value
  }

  ghost predicate Completes(cfg: Config, w: World, b: Book<EvmScan>, c: EvmScan) {
    b.scan.cursors.Some? && exists chunk: Chunk ::
      c == Scanned(b.scan, chunk) && MayComplete(cfg, w, b, chunk)
  }

  /** The chunk comes next, was answered as recorded, and what it holds is accounted for. */
  ghost predicate MayComplete(cfg: Config, w: World, b: Book<EvmScan>, chunk: Chunk)
    requires b.scan.cursors.Some?
  {
    && Adjoins(b.scan.cursors.value.Get(chunk.kind), cfg.startBlock, chunk)
    && Genuine(w, chunk) && AllAccounted(cfg, b, chunk)
  }

  ghost function EvmRules(cfg: Config, w: World): Rules<EvmScan> {
    Rules(w.amount, (p: Entry) => p.alias == p.id, (s: State<EvmScan>, e: Event<EvmScan>) => Guard(cfg, w, s, e))
  }

  // ---------------------------------------------------------------------
  // The chunks tile the scanned window
  // ---------------------------------------------------------------------

  function Reached(log: seq<Chunk>, k: Kind, base: Option<nat>): Option<nat> {
    if log == [] then base
    else if log[|log| - 1].kind == k then Some(log[|log| - 1].to)
    else Reached(log[..|log| - 1], k, base)
  }

  /** Each chunk of k starts where the one before ended; the first one after the base, or
      if there is none, no later than the operator's start block. */
  ghost predicate Gapless(log: seq<Chunk>, k: Kind, base: Option<nat>, start: Option<nat>) {
    log == [] ||
    var front, c := log[..|log| - 1], log[|log| - 1];
    Gapless(front, k, base, start) && (c.kind == k ==> Adjoins(Reached(front, k, base), start, c))
  }

  predicate Adjoins(cursor: Option<nat>, start: Option<nat>, c: Chunk) {
    c.from <= c.to && MayStart(cursor, start, c.from)
  }

  predicate MayStart(cursor: Option<nat>, start: Option<nat>, from: nat) {
    if cursor.Some? then from == cursor.value + 1 else start.Some? ==> from <= start.value
  }

  ghost predicate InChunk(c: Chunk, k: Kind, h: nat) {
    c.kind == k && c.from <= h <= c.to
  }

  /** The blocks a source is to scan. */
  predicate InScope(base: Option<nat>, start: Option<nat>, h: nat) {
    if base.Some? then base.value < h else start.Some? && start.value <= h
  }

  /** Every block between where a source started and where it has got to lies in exactly
      one of its chunks, and no chunk of it reaches outside. */
  lemma {:induction false} ChunksTile(log: seq<Chunk>, k: Kind, base: Option<nat>, start: Option<nat>, h: nat)
    requires Gapless(log, k, base, start)
    ensures InScope(base, start, h) && Reached(log, k, base).Some? && h <= Reached(log, k, base).value
            ==> exists i :: 0 <= i < |log| && InChunk(log[i], k, h)
    ensures forall i, j :: 0 <= i < j < |log| && InChunk(log[i], k, h) ==> !InChunk(log[j], k, h)
    ensures (exists i :: 0 <= i < |log| && InChunk(log[i], k, h))
            ==> Reached(log, k, base).Some? && h <= Reached(log, k, base).value && (base.Some? ==> base.value < h)
    ensures base.Some? ==> Reached(log, k, base).Some? && base.value <= Reached(log, k, base).value
  {
    if log != [] {
      var front, c := log[..|log| - 1], log[|log| - 1];
      assert log == front + [c];
      ChunksTile(front, k, base, start, h);
      forall i | 0 <= i < |log| ensures log[i] == if i < |front| then front[i] else c {
      }
    }
  }

  /** Likewise for what was reached since the first n chunks. */
  lemma {:induction false} NewlyReached(log: seq<Chunk>, n: nat, k: Kind, base: Option<nat>, start: Option<nat>, h: nat)
    requires n <= |log| && Gapless(log, k, base, start)
    ensures Reached(log[..n], k, base).Some? ==> Reached(log, k, base).Some?
    ensures InScope(Reached(log[..n], k, base), start, h) && Reached(log, k, base).Some? && h <= Reached(log, k, base).value
            ==> exists i :: n <= i < |log| && InChunk(log[i], k, h)
    decreases |log|
  {
    if n == |log| {
      assert log[..n] == log;
    } else {
      var front, c := log[..|log| - 1], log[|log| - 1];
      assert front[..n] == log[..n];
      NewlyReached(front, n, k, base, start, h);
      assert forall i :: 0 <= i < |front| ==> front[i] == log[i];
    }
  }

  // ---------------------------------------------------------------------
  // Coverage
  // ---------------------------------------------------------------------

  ghost predicate Tiled(cfg: Config, sc: EvmScan) {
    && (sc.cursors.None? ==> sc.log == [])
    && (sc.cursors.Some? ==> forall k: Kind ::
          Gapless(sc.log, k, sc.base.Get(k), cfg.startBlock) && sc.cursors.value.Get(k) == Reached(sc.log, k, sc.base.Get(k)))
    && (sc.log != [] ==> sc.cursors.Some? && sc.last == sc.cursors.value.CommonHeight())
  }

  ghost predicate Covers(cfg: Config, w: World, b: Book<EvmScan>) {
    Tiled(cfg, b.scan) && forall c :: c in b.scan.log ==> Genuine(w, c) && AllAccounted(cfg, b, c)
  }

  ghost predicate CursorsLe(a: Option<Cursors>, b: Option<Cursors>) {
    a.Some? ==> b.Some? && forall k: Kind :: a.value.Get(k).Some? ==> b.value.Get(k).Some? && a.value.Get(k).value <= b.value.Get(k).value
  }

  /** Nothing moved backwards and nothing accounted for was forgotten. */
  ghost predicate Ahead(b: Book<EvmScan>, b': Book<EvmScan>) {
    && CursorsLe(b.scan.cursors, b'.scan.cursors) && b.scan.log <= b'.scan.log
    && forall id :: Accounted(b, id) ==> Accounted(b', id)
  }

  ghost predicate EvmInv(cfg: Config, w: World, s: State<EvmScan>) {
    Covers(cfg, w, s.mem) && Covers(cfg, w, s.disk) && Ahead(s.disk, s.mem)
  }

  /** A process that has just loaded its state file. */
  ghost predicate Loaded(s: State<EvmScan>) {
    && s.mem == s.disk && s.mem.scan.log == []
    && (s.mem.scan.cursors.Some? ==> s.mem.scan.base == s.mem.scan.cursors.value)
  }

  lemma LoadedInv(cfg: Config, w: World, s: State<EvmScan>)
    requires Loaded(s)
    ensures EvmInv(cfg, w, s)
  {
  }

  lemma AccountedMonotone(cfg: Config, w: World, b: Book<EvmScan>, b': Book<EvmScan>)
    requires Covers(cfg, w, b) && b'.scan == b.scan && forall id :: Accounted(b, id) ==> Accounted(b', id)
    ensures Covers(cfg, w, b') && Ahead(b, b')
  {
  }

  lemma CompletesKeeps(cfg: Config, w: World, b: Book<EvmScan>, chunk: Chunk)
    requires Covers(cfg, w, b) && b.scan.cursors.Some? && MayComplete(cfg, w, b, chunk)
    ensures var b' := b.(scan := Scanned(b.scan, chunk)); Covers(cfg, w, b') && Ahead(b, b')
  {
    var sc, sc' := b.scan, Scanned(b.scan, chunk);
    assert sc'.log[..|sc.log|] == sc.log;
    forall k: Kind ensures Gapless(sc'.log, k, sc.base.Get(k), cfg.startBlock) && sc'.cursors.value.Get(k) == Reached(sc'.log, k, sc.base.Get(k)) {
      assert sc.cursors.value.Get(k) == Reached(sc.log, k, sc.base.Get(k));
    }
    var b' := b.(scan := sc');
    forall c | c in sc'.log ensures Genuine(w, c) && AllAccounted(cfg, b', c) {
      assert c in sc.log || c == chunk;
      assert AllAccounted(cfg, b, c);
    }
  }

  lemma BegunKeeps(cfg: Config, w: World, b: Book<EvmScan>, initial: Option<nat>)
    requires b.scan.cursors.None? && b.scan.log == []
    ensures var b' := b.(scan := Begun(b.scan, initial)); Covers(cfg, w, b') && Ahead(b, b')
  {
  }

  lemma AheadThen(b: Book<EvmScan>, b1: Book<EvmScan>, b2: Book<EvmScan>)
    requires Ahead(b, b1) && Ahead(b1, b2)
    ensures Ahead(b, b2)
  {
  }

  /** Unless the process crashes, memory only moves ahead. */
  lemma EvmStep(cfg: Config, w: World, s: State<EvmScan>, e: Event<EvmScan>)
    requires EvmInv(cfg, w, s) && Enabled(EvmRules(cfg, w), s, e)
    ensures EvmInv(cfg, w, Apply(s, e)) && Ahead(s.disk, Apply(s, e).disk)
    ensures !e.Crash? ==> Ahead(s.mem, Apply(s, e).mem)
  {
    var b, b' := s.mem, Apply(s, e).mem;
    if e.Advance? {
      AdvanceKeeps(cfg, w, s, e);
      AheadThen(s.disk, b, b');
    } else if !e.Crash? {
      forall id | Accounted(b, id) ensures Accounted(b', id) {
        AccountedStays(EvmRules(cfg, w), s, e, id);
      }
      AccountedMonotone(cfg, w, b, b');
      AheadThen(s.disk, b, b');
    }
  }

  lemma AdvanceKeeps(cfg: Config, w: World, s: State<EvmScan>, e: Event<EvmScan>)
    requires Covers(cfg, w, s.mem) && e.Advance? && Enabled(EvmRules(cfg, w), s, e)
    ensures Covers(cfg, w, Apply(s, e).mem) && Ahead(s.mem, Apply(s, e).mem)
  {
    var b, c := s.mem, e.scan;
    assert Guard(cfg, w, s, e);
    if Stays(b.scan, c) {
      var kind: Kind, height: nat :| c == Moved(b.scan, kind, height)
        && b.scan.cursors.value.Get(kind).Some? && height <= b.scan.cursors.value.Get(kind).value;
    } else if Completes(cfg, w, b, c) {
      var chunk: Chunk :| c == Scanned(b.scan, chunk) && MayComplete(cfg, w, b, chunk);
      CompletesKeeps(cfg, w, b, chunk);
    } else {
      var initial :| c == Begun(b.scan, initial);
      BegunKeeps(cfg, w, b, initial);
    }
  }

  lemma {:induction false} EvmRun(cfg: Config, w: World, s: State<EvmScan>, es: seq<Event<EvmScan>>)
    requires EvmInv(cfg, w, s) && Legal(EvmRules(cfg, w), s, es)
    ensures EvmInv(cfg, w, Run(s, es)) && Ahead(s.disk, Run(s, es).disk)
    ensures (forall i :: 0 <= i < |es| ==> !es[i].Crash?) ==> Ahead(s.mem, Run(s, es).mem)
    decreases |es|
  {
    if es != [] {
      var s1 := Run(s, es[..|es| - 1]);
      EvmRun(cfg, w, s, es[..|es| - 1]);
      EvmStep(cfg, w, s1, es[|es| - 1]);
      AheadThen(s.disk, s1.disk, Run(s, es).disk);
      if forall i :: 0 <= i < |es| ==> !es[i].Crash? {
        AheadThen(s.mem, s1.mem, Run(s, es).mem);
      }
    }
  }

  // ---------------------------------------------------------------------
  // Main results
  // ---------------------------------------------------------------------

  /** Whatever fails or crashes: if source k has reached height h, then, in memory and in
      the file, h lies in exactly one chunk of k, the providers answered what is recorded for
      it (unless it was skipped, with no address looked up), and every qualifying transfer in
      that answer is pending, credited or ignored. */
  lemma NothingScannedIsLost(cfg: Config, w: World, s: State<EvmScan>, es: seq<Event<EvmScan>>, b: Book<EvmScan>, k: Kind, h: nat)
    requires EvmInv(cfg, w, s) && Legal(EvmRules(cfg, w), s, es) && b in {Run(s, es).mem, Run(s, es).disk}
    requires b.scan.cursors.Some? && b.scan.cursors.value.Get(k).Some? && h <= b.scan.cursors.value.Get(k).value
    requires InScope(b.scan.base.Get(k), cfg.startBlock, h)
    ensures exists i :: 0 <= i < |b.scan.log| && InChunk(b.scan.log[i], k, h) && Genuine(w, b.scan.log[i]) && AllAccounted(cfg, b, b.scan.log[i])
    ensures forall i, j :: 0 <= i < j < |b.scan.log| && InChunk(b.scan.log[i], k, h) ==> !InChunk(b.scan.log[j], k, h)
  {
    EvmRun(cfg, w, s, es);
    ChunksTile(b.scan.log, k, b.scan.base.Get(k), cfg.startBlock, h);
    var i :| 0 <= i < |b.scan.log| && InChunk(b.scan.log[i], k, h);
    assert b.scan.log[i] in b.scan.log;
  }

  /** The cursors and the payments accounted for in the file never go back, and memory is
      never behind them; the published height is what all three sources have reached. */
  lemma FileNeverGoesBack(cfg: Config, w: World, s: State<EvmScan>, es: seq<Event<EvmScan>>, k: nat)
    requires EvmInv(cfg, w, s) && Legal(EvmRules(cfg, w), s, es) && k <= |es|
    ensures Ahead(Run(s, es[..k]).disk, Run(s, es).disk) && Ahead(Run(s, es[..k]).disk, Run(s, es).mem)
    ensures var sc := Run(s, es).mem.scan; sc.log != [] ==> sc.cursors.Some? && sc.last == sc.cursors.value.CommonHeight()
  {
    LegalPrefix(EvmRules(cfg, w), s, es, k);
    EvmRun(cfg, w, s, es[..k]);
    LegalSuffix(EvmRules(cfg, w), s, es, k);
    EvmRun(cfg, w, Run(s, es[..k]), es[k..]);
    AheadThen(Run(s, es[..k]).disk, Run(s, es).disk, Run(s, es).mem);
  }

  /** Credited and ignored are not disjoint: a payment that was credited and still waits for
      its sweep is ignored when its receipt turns out to have failed. */
  lemma CreditedCanBeIgnored(cfg: Config, w: World, s: State<EvmScan>, p: Entry)
    requires p in s.mem.pending && p.id in s.mem.credited
    ensures Enabled(EvmRules(cfg, w), s, Ignore(p.id))
    ensures var b := Apply(s, Ignore(p.id)).mem; p.id in b.credited && p.id in b.ignored && !Pending(b, p.id)
  {
    var ps := Without(s.mem.pending, p.id);
    assert forall i :: 0 <= i < |ps| ==> ps[i] in ps;
    assert Guard(cfg, w, s, Ignore(p.id));
  }
}
