/** The reset protocol under interleaving: one exclusive reset at a time, any number of
    daemons with shared guards, crashes between any two durable actions, and retries
    with any operation ID (src/reset.rs). */
module ResetProtocol {
  import opened Common
  import opened ResetJournal

  type Daemon = nat

  const MAX_GENERATION := 0x8000_0000

  /** The deployment: which chains are configured and where they keep their files. */
  datatype Config = Config(
    requested: set<Chain>,
    stateFile: Chain -> Path,
    poolFile: Chain -> Path,
    inRedis: Chain -> bool)

  predicate HasGeneration(c: Chain) { c.Bitcoin? || c.Litecoin? }

  function GenerationPath(state: Path): Path { state + ".wallet-generation.json" }

  /** Where a chain keeps its generation, or its wallets. */
  function SecondFile(cfg: Config, c: Chain): (p: Path)
    ensures p == if c.Bitcoin? || c.Litecoin? then cfg.stateFile(c) + ".wallet-generation.json" else cfg.poolFile(c)
  {
    if HasGeneration(c) then GenerationPath(cfg.stateFile(c)) else cfg.poolFile(c)
  }

  ghost predicate IsGenerationPath(cfg: Config, p: Path) {
    exists c :: c in cfg.requested && (c.Bitcoin? || c.Litecoin?) && p == cfg.stateFile(c) + ".wallet-generation.json"
  }

  /** The generation a file stands for; a missing file is generation 0. */
  function GenerationOf(c: Option<Content>): nat {
    if c.Some? && c.value.Generation? then c.value.generation else 0
  }

  predicate ValidGeneration(c: Option<Content>) {
    c.Some? ==> c.value.Generation? && c.value.version == 1 && 0 < c.value.generation < 0x8000_0000
  }

  /** The journal entry of a generation file moves it on by one. */
  predicate MovesGeneration(f: FileChange) {
    && ValidGeneration(f.before)
    && GenerationOf(f.before) + 1 < 0x8000_0000
    && f.after == Generation(1, GenerationOf(f.before) + 1)
  }

  predicate ValidId(id: Id) {
    && 12 <= |id| <= 64
    && forall i :: 0 <= i < |id| ==> '0' <= id[i] <= '9' || 'a' <= id[i] <= 'f' || 'A' <= id[i] <= 'F'
  }

  ghost predicate Selects(cfg: Config, sel: Selection, c: Chain) {
    match sel
    case All => c in cfg.requested
    case One(d) => c == d
  }

  ghost predicate PreparedFile(cfg: Config, w: World, sel: Selection, f: FileChange) {
    && f.before == Lookup(w.files, f.path)
    && (IsGenerationPath(cfg, f.path) ==> MovesGeneration(f))
    && exists c :: Selects(cfg, sel, c) && (f.path == cfg.stateFile(c) || f.path == SecondFile(cfg, c))
  }

  ghost predicate Covers(files: seq<FileChange>, p: Path) {
    exists f :: f in files && f.path == p
  }

  ghost predicate Clears(redis: seq<RedisChange>, c: Chain) {
    exists r :: r in redis && r.chain == c
  }

  /** Every selected chain is in the journal, with its two files and its Redis keys. */
  ghost predicate Complete(cfg: Config, sel: Selection, j: Journal) {
    forall c :: Selects(cfg, sel, c) ==>
      && Covers(j.files, cfg.stateFile(c)) && Covers(j.files, SecondFile(cfg, c))
      && ((c.Ethereum? || c.Solana? || c.Base?) && cfg.inRedis(c) ==> Clears(j.redis, c))
  }

  ghost predicate PreparedChange(cfg: Config, w: World, sel: Selection, r: RedisChange) {
    && Selects(cfg, sel, r.chain) && cfg.inRedis(r.chain)
    && (forall k :: k in r.keys ==> Lookup(w.redis, k.key) == Some(k.dump))
    && (forall k :: k in w.redis && k.chain == r.chain ==> Archived(r, k))
  }

  /** What `prepare` archives: for each selected chain its two files as they are now,
      and every Redis key under its prefixes with its value. */
  ghost predicate Prepared(cfg: Config, w: World, sel: Selection, id: Id, j: Journal) {
    && WellFormed(j) && j.id == id && j.selection == sel && j.files != []
    && (forall f :: f in j.files ==> PreparedFile(cfg, w, sel, f))
    && (forall c :: Selects(cfg, sel, c) ==> c in cfg.requested) && Complete(cfg, sel, j)
    && (forall r :: r in j.redis ==> PreparedChange(cfg, w, sel, r))
  }

  ghost predicate GoodJournal(cfg: Config, j: Journal) {
    && WellFormed(j) && Complete(cfg, j.selection, j)
    && forall f :: f in j.files && IsGenerationPath(cfg, f.path) ==> MovesGeneration(f)
  }

  /** The journal holds this key with this value. */
  ghost predicate Archives(j: Journal, k: Key, dump: Bytes) {
    exists c :: c in j.redis && RedisKey(k, dump) in c.keys
  }

  lemma PreparedArchives(cfg: Config, w: World, sel: Selection, id: Id, j: Journal, k: Key)
    requires Prepared(cfg, w, sel, id, j) && k in w.redis
    requires Selects(cfg, sel, k.chain) && (k.chain.Ethereum? || k.chain.Solana? || k.chain.Base?) && cfg.inRedis(k.chain)
    ensures Archives(j, k, w.redis[k])
  {
    assert Clears(j.redis, k.chain);
    var c :| c in j.redis && c.chain == k.chain;
    assert PreparedChange(cfg, w, sel, c) && Archived(c, k);
    var i :| 0 <= i < |c.keys| && c.keys[i].key == k;
    assert c.keys[i] in c.keys && c.keys[i] == RedisKey(k, w.redis[k]);
  }

  /** A fresh journal can be committed at once. */
  lemma PreparedIsCommittable(cfg: Config, w: World, sel: Selection, id: Id, j: Journal)
    requires Prepared(cfg, w, sel, id, j)
    ensures Committable(j, w)
  {
    forall i | 0 <= i < |Program(j)| ensures Passes(Program(j)[i], w) {
      ProgramParts(j, i);
      match Program(j)[i]
      case Check(f) => assert PreparedFile(cfg, w, sel, f);
      case Scan(c) =>
        assert PreparedChange(cfg, w, sel, c);
      case Delete(k) =>
        var c :| 0 <= c < |j.redis| && InChange(Program(j)[i], j.redis[c]);
        assert PreparedChange(cfg, w, sel, j.redis[c]);
      case Write(_) =>
    }
  }

  /** The reset of these chains is done: the journal's files hold their new content, among
      them both files of each chain, and no key of a chain kept in Redis is left. */
  ghost predicate Finished(cfg: Config, sel: Selection, j: Journal, w: World) {
    && (forall f :: f in j.files ==> Lookup(w.files, f.path) == Some(f.after))
    && (forall c :: Selects(cfg, sel, c) ==> Covers(j.files, cfg.stateFile(c)) && Covers(j.files, SecondFile(cfg, c)))
    && NoneAssigned(cfg, sel, w)
  }

  /** No assignment is left in Redis of the selected chains that keep theirs there. */
  ghost predicate NoneAssigned(cfg: Config, sel: Selection, w: World) {
    forall k :: k in w.redis && Selects(cfg, sel, k.chain) && cfg.inRedis(k.chain) ==> k.chain.Bitcoin? || k.chain.Litecoin?
  }

  // ---------------------------------------------------------------------
  // The machine
  // ---------------------------------------------------------------------

  datatype Stage =
    | Locked                                  // nothing looked at yet
    | Marking(journal: Journal)               // manifest durable, marker not yet
    | Committing(journal: Journal, done: nat) // marker durable, so many instructions done
    | Clearing(journal: Journal)              // receipt durable, marker to be removed

  datatype Proc = Proc(selection: Selection, id: Id, stage: Stage)

  /** The durable world, the exclusive lock holder, the shared guards (true once
      admitted), and a record of what resets have done: the deletes and writes of each
      operation, the generation files it really changed, and those that no longer held
      their archived content when its marker was first placed. */
  datatype State = State(
    world: World,
    reset: Option<Proc>,
    guards: map<Daemon, bool>,
    did: map<Id, set<Instr>>,
    moved: set<(Id, Path)>,
    stale: set<(Id, Path)>)

  datatype Event =
    | Lock(selection: Selection, id: Id)
    | Prepare(journal: Journal)
    | Reuse
    | Recognise
    | Mark
    | Do
    | Seal
    | Clear
    | Release                                 // success, error return or crash
    | GuardTry(daemon: Daemon)
    | GuardAdmit(daemon: Daemon)
    | GuardDrop(daemon: Daemon)
    | DaemonWrite(daemon: Daemon, path: Path, content: Content)
    | DaemonSet(daemon: Daemon, key: Key, value: Bytes)
    | DaemonDelete(daemon: Daemon, key: Key)
    | Expire(key: Key)                        // a Redis TTL runs out

  function Did(s: State, id: Id): set<Instr> {
    if id in s.did then s.did[id] else {}
  }

  predicate Admitted(s: State, d: Daemon) { d in s.guards && s.guards[d] }

  ghost predicate Enabled(cfg: Config, s: State, e: Event) {
    var w := s.world;
    match e
    case Lock(_, id) => s.reset.None? && s.guards == map[] && ValidId(id)
    case Prepare(j) =>
      && s.reset.Some? && s.reset.value.stage.Locked?
      && var p := s.reset.value;
         w.pending.None? && p.id !in w.receipts && p.id !in w.manifests && Prepared(cfg, w, p.selection, p.id, j)
    case Reuse =>
      && s.reset.Some? && s.reset.value.stage.Locked?
      && var p := s.reset.value;
         && (w.pending.None? || w.pending == Some(p.id)) && p.id !in w.receipts
         && p.id in w.manifests && w.manifests[p.id].selection == p.selection
    case Recognise =>
      && s.reset.Some? && s.reset.value.stage.Locked?
      && var p := s.reset.value;
         && (w.pending.None? || w.pending == Some(p.id)) && p.id in w.receipts
         && p.id in w.manifests && w.manifests[p.id].selection == p.selection
    case Mark => s.reset.Some? && s.reset.value.stage.Marking?
    case Do =>
      && s.reset.Some? && s.reset.value.stage.Committing?
      && var st := s.reset.value.stage;
         st.done < |Program(st.journal)| && Passes(Program(st.journal)[st.done], w)
    case Seal => s.reset.Some? && s.reset.value.stage.Committing?
                 && s.reset.value.stage.done == |Program(s.reset.value.stage.journal)|
    case Clear => s.reset.Some? && s.reset.value.stage.Clearing?
    case Release => s.reset.Some?
    case GuardTry(d) => s.reset.None? && d !in s.guards
    case GuardAdmit(d) => d in s.guards && w.pending.None?
    case GuardDrop(d) => d in s.guards
    case DaemonWrite(d, path, _) => Admitted(s, d) && !IsGenerationPath(cfg, path)
    case DaemonSet(d, _, _) => Admitted(s, d)
    case DaemonDelete(d, _) => Admitted(s, d)
    case Expire(_) => true
  }

  function AtNewStage(s: State, stage: Stage): State
    requires s.reset.Some?
  {
    s.(reset := Some(s.reset.value.(stage := stage)))
  }

  ghost function GenerationEntries(cfg: Config, j: Journal): set<FileChange> {
    set f | f in j.files && IsGenerationPath(cfg, f.path)
  }

  ghost function Apply(cfg: Config, s: State, e: Event): State
    requires Enabled(cfg, s, e)
  {
    var w := s.world;
    match e
    case Lock(sel, id) => s.(reset := Some(Proc(sel, id, Locked)))
    case Prepare(j) => AtNewStage(s, Marking(j)).(world := w.(manifests := w.manifests[j.id := j]))
    case Reuse => AtNewStage(s, Marking(w.manifests[s.reset.value.id]))
    case Recognise => AtNewStage(s, Clearing(w.manifests[s.reset.value.id]))
    case Mark =>
      var j := s.reset.value.stage.journal;
      var late := set f | f in GenerationEntries(cfg, j) && Lookup(w.files, f.path) != f.before :: (j.id, f.path);
      AtNewStage(s, Committing(j, 0)).(
        world := w.(pending := Some(j.id)),
        stale := if w.pending.None? then s.stale + late else s.stale)
    case Do =>
      var Committing(j, n) := s.reset.value.stage;
      var i := Program(j)[n];
      var next := AtNewStage(s, Committing(j, n + 1)).(world := Effect(i, w));
      if !Mutates(i) then next else
        next.(
          did := s.did[j.id := Did(s, j.id) + {i}],
          moved := if i.Write? && IsGenerationPath(cfg, i.file.path) && Lookup(w.files, i.file.path) != Some(i.file.after)
                   then s.moved + {(j.id, i.file.path)} else s.moved)
    case Seal =>
      var j := s.reset.value.stage.journal;
      AtNewStage(s, Clearing(j)).(world := w.(receipts := w.receipts + {j.id}))
    case Clear => s.(world := w.(pending := None))
    case Release => s.(reset := None)
    case GuardTry(d) => s.(guards := s.guards[d := false])
    case GuardAdmit(d) => s.(guards := s.guards[d := true])
    case GuardDrop(d) => s.(guards := s.guards - {d})
    case DaemonWrite(_, path, content) => s.(world := w.(files := w.files[path := content]))
    case DaemonSet(_, key, value) => s.(world := w.(redis := w.redis[key := value]))
    case DaemonDelete(_, key) => s.(world := w.(redis := w.redis - {key}))
    case Expire(key) => s.(world := w.(redis := w.redis - {key}))
  }

  ghost predicate Legal(cfg: Config, s: State, es: seq<Event>)
    decreases |es|, 0
  {
    es == [] || (Legal(cfg, s, es[..|es| - 1]) && Enabled(cfg, Run(cfg, s, es[..|es| - 1]), es[|es| - 1]))
  }

  ghost function Run(cfg: Config, s: State, es: seq<Event>): State
    requires Legal(cfg, s, es)
    decreases |es|, 1
  {
    if es == [] then s else Apply(cfg, Run(cfg, s, es[..|es| - 1]), es[|es| - 1])
  }

  /** Before the first reset: no journal, marker, receipt, lock or guard, and sound
      generation files. */
  ghost predicate Initial(cfg: Config, s: State) {
    && s.world.manifests == map[] && s.world.pending.None? && s.world.receipts == {}
    && s.reset.None? && s.guards == map[] && s.did == map[] && s.moved == {} && s.stale == {}
    && forall p :: IsGenerationPath(cfg, p) ==> ValidGeneration(Lookup(s.world.files, p))
  }

  // ---------------------------------------------------------------------
  // Invariants
  // ---------------------------------------------------------------------

  ghost function Mutations(j: Journal): set<Instr> {
    set i | i in Program(j) && Mutates(i)
  }

  ghost predicate LockInv(s: State) {
    && (s.reset.Some? ==> s.guards == map[])
    && (forall d :: Admitted(s, d) ==> s.world.pending.None?)
  }

  ghost predicate ManifestInv(cfg: Config, s: State) {
    && (forall id :: id in s.world.manifests ==> GoodJournal(cfg, s.world.manifests[id]) && s.world.manifests[id].id == id)
    && s.world.receipts <= s.world.manifests.Keys
    && (s.world.pending.Some? ==> s.world.pending.value in s.world.manifests)
  }

  /** What the lock holder knows at each stage. */
  ghost predicate StageInv(s: State) {
    s.reset.Some? ==>
      var p, w := s.reset.value, s.world;
      match p.stage
      case Locked => true
      case Marking(j) =>
        Lookup(w.manifests, p.id) == Some(j) && p.id !in w.receipts && (w.pending.None? || w.pending == Some(p.id))
        && j.selection == p.selection
      case Committing(j, n) =>
        && j.selection == p.selection && Lookup(w.manifests, p.id) == Some(j) && p.id !in w.receipts && w.pending == Some(p.id)
        && n <= |Program(j)| && forall i :: 0 <= i < n ==> Holds(Program(j)[i], w)
      case Clearing(j) =>
        Lookup(w.manifests, p.id) == Some(j) && p.id in w.receipts && (w.pending.None? || w.pending == Some(p.id))
        && j.selection == p.selection
  }

  /** What stays true once an instruction of the running commit has been executed. */
  ghost predicate Holds(i: Instr, w: World) {
    match i
    case Check(f) => Lookup(w.files, f.path) == f.before || Lookup(w.files, f.path) == Some(f.after)
    case Scan(c) => forall k :: k in w.redis && k.chain == c.chain ==> Archived(c, k)
    case Delete(k) => k.key !in w.redis
    case Write(f) => Lookup(w.files, f.path) == Some(f.after)
  }

  ghost predicate ProgressInv(s: State) {
    && (forall id :: Did(s, id) != {} ==>
          && id in s.world.manifests && Did(s, id) <= Mutations(s.world.manifests[id])
          && (id in s.world.receipts || s.world.pending == Some(id)))
    && (forall id :: id in s.world.receipts && id in s.world.manifests ==>
          Did(s, id) == Mutations(s.world.manifests[id]))
    && (s.reset.Some? && s.reset.value.stage.Committing? ==>
          var p := s.reset.value;
          forall i :: 0 <= i < p.stage.done <= |Program(p.stage.journal)| && Mutates(Program(p.stage.journal)[i]) ==>
            Program(p.stage.journal)[i] in Did(s, p.id))
  }

  ghost predicate Inv(cfg: Config, s: State) {
    LockInv(s) && ManifestInv(cfg, s) && StageInv(s) && ProgressInv(s)
  }

  lemma LockStep(cfg: Config, s: State, e: Event)
    requires Inv(cfg, s) && Enabled(cfg, s, e)
    ensures LockInv(Apply(cfg, s, e))
  {
    var s' := Apply(cfg, s, e);
    forall d | Admitted(s', d) ensures s'.world.pending.None? {
      assert Admitted(s, d) || e == GuardAdmit(d);
      assert d in s.guards;
    }
  }

  /** What is archived and received stays so. */
  ghost predicate Durable(w: World, w': World) {
    w.receipts <= w'.receipts && forall id :: id in w.manifests ==> id in w'.manifests && w'.manifests[id] == w.manifests[id]
  }

  lemma StaysDurable(cfg: Config, s: State, e: Event)
    requires Inv(cfg, s) && Enabled(cfg, s, e)
    ensures Durable(s.world, Apply(cfg, s, e).world)
  {
  }

  lemma ManifestStep(cfg: Config, s: State, e: Event)
    requires Inv(cfg, s) && Enabled(cfg, s, e)
    ensures ManifestInv(cfg, Apply(cfg, s, e)) && Durable(s.world, Apply(cfg, s, e).world)
  {
    StaysDurable(cfg, s, e);
  }

  lemma HoldsAfter(j: Journal, n: nat, w: World)
    requires WellFormed(j) && n < |Program(j)| && Passes(Program(j)[n], w)
    requires forall i :: 0 <= i < n ==> Holds(Program(j)[i], w)
    ensures forall i :: 0 <= i <= n ==> Holds(Program(j)[i], Effect(Program(j)[n], w))
  {
    var p := Program(j);
    ProgramOrderly(j);
    forall i | 0 <= i <= n ensures Holds(p[i], Effect(p[n], w)) {
      assert i < n ==> InOrder(p[i], p[n]);
    }
  }

  lemma StageStep(cfg: Config, s: State, e: Event)
    requires Inv(cfg, s) && Enabled(cfg, s, e)
    ensures StageInv(Apply(cfg, s, e))
  {
    if e.Do? {
      var j, n, i, s' := DoFacts(cfg, s);
      HoldsAfter(j, n, s.world);
    }
  }

  /** What executing one instruction changes. */
  lemma DoFacts(cfg: Config, s: State) returns (j: Journal, n: nat, i: Instr, s': State)
    requires Inv(cfg, s) && Enabled(cfg, s, Do)
    ensures s' == Apply(cfg, s, Do) && n < |Program(j)| && i == Program(j)[n]
    ensures s.reset == Some(Proc(s.reset.value.selection, j.id, Committing(j, n)))
    ensures s'.reset == Some(Proc(s.reset.value.selection, j.id, Committing(j, n + 1)))
    ensures Lookup(s.world.manifests, j.id) == Some(j) && j.id !in s.world.receipts && s.world.pending == Some(j.id)
    ensures s'.world == Effect(i, s.world) && Passes(i, s.world)
    ensures s'.guards == s.guards && s'.stale == s.stale
    ensures s'.did == if Mutates(i) then s.did[j.id := Did(s, j.id) + {i}] else s.did
    ensures forall k :: 0 <= k < n ==> Holds(Program(j)[k], s.world)
    ensures GoodJournal(cfg, j)
  {
    j, n := s.reset.value.stage.journal, s.reset.value.stage.done;
    i, s' := Program(j)[n], Apply(cfg, s, Do);
  }

  lemma ProgressOfInstr(s: State, s': State, j: Journal, n: nat)
    requires ProgressInv(s) && n < |Program(j)|
    requires s.reset.Some? && s.reset.value.id == j.id && s.reset.value.stage == Committing(j, n)
    requires s'.reset == Some(s.reset.value.(stage := Committing(j, n + 1)))
    requires Lookup(s.world.manifests, j.id) == Some(j) && j.id !in s.world.receipts && s.world.pending == Some(j.id)
    requires s'.world.manifests == s.world.manifests && s'.world.receipts == s.world.receipts
    requires s'.world.pending == s.world.pending
    requires s'.did == if Mutates(Program(j)[n]) then s.did[j.id := Did(s, j.id) + {Program(j)[n]}] else s.did
    ensures ProgressInv(s')
  {
    var i := Program(j)[n];
    assert i in Program(j);
    assert Did(s', j.id) == if Mutates(i) then Did(s, j.id) + {i} else Did(s, j.id);
    assert forall id :: id != j.id ==> Did(s', id) == Did(s, id);
  }

  lemma ProgressOfDo(cfg: Config, s: State)
    requires Inv(cfg, s) && Enabled(cfg, s, Do)
    ensures ProgressInv(Apply(cfg, s, Do))
  {
    var j, n, i, s' := DoFacts(cfg, s);
    ProgressOfInstr(s, s', j, n);
  }

  lemma ProgressOfSeal(cfg: Config, s: State)
    requires Inv(cfg, s) && Enabled(cfg, s, Seal)
    ensures ProgressInv(Apply(cfg, s, Seal))
  {
    var p := s.reset.value;
    var program := Program(p.stage.journal);
    forall i | i in Mutations(p.stage.journal) ensures i in Did(s, p.id) {
      var n :| 0 <= n < |program| && program[n] == i;
      assert Mutates(program[n]);
    }
    assert forall id :: Did(Apply(cfg, s, Seal), id) == Did(s, id);
  }

  lemma ProgressStep(cfg: Config, s: State, e: Event)
    requires Inv(cfg, s) && Enabled(cfg, s, e)
    ensures ProgressInv(Apply(cfg, s, e))
  {
    if e.Do? {
      ProgressOfDo(cfg, s);
    } else if e.Seal? {
      ProgressOfSeal(cfg, s);
    } else {
      ProgressOfOther(cfg, s, e);
    }
  }

  /** What the events that record nothing leave of the progress. */
  lemma QuietFacts(cfg: Config, s: State, e: Event)
    requires Inv(cfg, s) && Enabled(cfg, s, e) && !e.Do? && !e.Seal?
    ensures var s' := Apply(cfg, s, e);
      && s'.did == s.did && s'.world.receipts == s.world.receipts
      && (s'.world.pending == s.world.pending || s.world.pending.None? || s.world.pending.value in s.world.receipts)
      && (s'.reset.Some? && s'.reset.value.stage.Committing? ==> s'.reset == s.reset || s'.reset.value.stage.done == 0)
  {
  }

  lemma ProgressOfOther(cfg: Config, s: State, e: Event)
    requires Inv(cfg, s) && Enabled(cfg, s, e) && !e.Do? && !e.Seal?
    ensures ProgressInv(Apply(cfg, s, e))
  {
    QuietFacts(cfg, s, e);
    StaysDurable(cfg, s, e);
    ProgressStays(s, Apply(cfg, s, e));
  }

  lemma ProgressStays(s: State, s': State)
    requires ProgressInv(s) && s'.did == s.did && s'.world.receipts == s.world.receipts && Durable(s.world, s'.world)
    requires s.world.receipts <= s.world.manifests.Keys
    requires s'.world.pending == s.world.pending || s.world.pending.None? || s.world.pending.value in s.world.receipts
    requires s'.reset.Some? && s'.reset.value.stage.Committing? ==> s'.reset == s.reset || s'.reset.value.stage.done == 0
    ensures ProgressInv(s')
  {
    assert forall id :: Did(s', id) == Did(s, id);
  }

  lemma InvStep(cfg: Config, s: State, e: Event)
    requires Inv(cfg, s) && Enabled(cfg, s, e)
    ensures Inv(cfg, Apply(cfg, s, e))
  {
    LockStep(cfg, s, e);
    ManifestStep(cfg, s, e);
    StageStep(cfg, s, e);
    ProgressStep(cfg, s, e);
  }

  lemma {:induction false} InvRun(cfg: Config, s: State, es: seq<Event>)
    requires Inv(cfg, s) && Legal(cfg, s, es)
    ensures Inv(cfg, Run(cfg, s, es))
    decreases |es|
  {
    if es != [] {
      InvRun(cfg, s, es[..|es| - 1]);
      InvStep(cfg, Run(cfg, s, es[..|es| - 1]), es[|es| - 1]);
    }
  }

  // ---------------------------------------------------------------------
  // Theorems over every run
  // ---------------------------------------------------------------------

  /** Atomicity: whenever a daemon has been admitted, no marker exists and every
      operation has done none of its deletes and writes, or all of them; and a partly
      applied operation is the one that the marker names. */
  lemma DaemonsNeverSeeHalfAReset(cfg: Config, s0: State, es: seq<Event>, d: Daemon, id: Id)
    requires Initial(cfg, s0) && Legal(cfg, s0, es)
    ensures var s := Run(cfg, s0, es); var w := s.world;
      && (Admitted(s, d) ==> w.pending.None? && s.reset.None?)
      && (Admitted(s, d) ==> Did(s, id) == {} || (id in w.manifests && Did(s, id) == Mutations(w.manifests[id])))
      && (Did(s, id) != {} && id !in w.receipts ==> w.pending == Some(id))
      && (id in w.receipts ==> id in w.manifests && Did(s, id) == Mutations(w.manifests[id]))
  {
    InvRun(cfg, s0, es);
  }

  /** A receipt is written only over a finished reset: both files of every chain that the
      operator selected hold their new content, and none of its Redis keys is left. */
  lemma ReceiptMeansFinished(cfg: Config, s0: State, es: seq<Event>)
    requires Initial(cfg, s0) && Legal(cfg, s0, es) && Enabled(cfg, Run(cfg, s0, es), Seal)
    ensures var s := Run(cfg, s0, es); var j := s.reset.value.stage.journal;
      Lookup(s.world.manifests, s.reset.value.id) == Some(j) && Finished(cfg, s.reset.value.selection, j, s.world)
    ensures var s := Run(cfg, s0, es); NoneAssigned(cfg, s.reset.value.selection, s.world)
  {
    InvRun(cfg, s0, es);
    SealedFiles(cfg, Run(cfg, s0, es));
    SealedRedis(cfg, Run(cfg, s0, es));
    NoneLeft(cfg, Run(cfg, s0, es).reset.value.stage.journal, Run(cfg, s0, es).world);
  }

  lemma NoneLeft(cfg: Config, j: Journal, w: World)
    requires Complete(cfg, j.selection, j) && forall c, k :: c in j.redis && k in w.redis ==> k.chain != c.chain
    ensures NoneAssigned(cfg, j.selection, w)
  {
    forall k | k in w.redis && Selects(cfg, j.selection, k.chain) && cfg.inRedis(k.chain)
      ensures k.chain.Bitcoin? || k.chain.Litecoin?
    {
      assert k.chain.Bitcoin? || k.chain.Litecoin? || Clears(j.redis, k.chain);
    }
  }

  lemma SealedFiles(cfg: Config, s: State)
    requires Inv(cfg, s) && Enabled(cfg, s, Seal)
    ensures forall f :: f in s.reset.value.stage.journal.files ==> Lookup(s.world.files, f.path) == Some(f.after)
  {
    var j := s.reset.value.stage.journal;
    var p := Program(j);
    forall f | f in j.files ensures Lookup(s.world.files, f.path) == Some(f.after) {
      var i :| 0 <= i < |j.files| && j.files[i] == f;
      var n := |j.files| + |ChangeProgram(j.redis)| + i;
      assert p[n] == Write(f);
      assert Holds(p[n], s.world);
    }
  }

  lemma SealedRedis(cfg: Config, s: State)
    requires Inv(cfg, s) && Enabled(cfg, s, Seal)
    ensures forall c, k :: c in s.reset.value.stage.journal.redis && k in s.world.redis ==> k.chain != c.chain
  {
    var j := s.reset.value.stage.journal;
    var p := Program(j);
    forall c, k: Key | c in j.redis && k.chain == c.chain ensures k !in s.world.redis {
      var ci :| 0 <= ci < |j.redis| && j.redis[ci] == c;
      if Archived(c, k) {
        var ki :| 0 <= ki < |c.keys| && c.keys[ki].key == k;
        var m := DeleteIsThere(j.redis, ci, ki);
        assert p[|j.files| + m] == Delete(c.keys[ki]);
      }
      var n := ScanIsThere(j.redis, ci);
      assert p[|j.files| + n] == Scan(c);
    }
  }

  /** An instruction about to be executed archives what it removes. */
  ghost predicate RemovesOnlyArchived(j: Journal, w: World, w': World) {
    && (forall x :: Lookup(w.files, x) != Lookup(w'.files, x) ==>
          exists f :: f in j.files && f.path == x && f.before == Lookup(w.files, x))
    && (forall k :: k in w.redis && k !in w'.redis ==>
          exists c :: c in j.redis && RedisKey(k, w.redis[k]) in c.keys)
  }

  lemma InstrRemovesOnlyArchived(j: Journal, n: nat, w: World)
    requires WellFormed(j) && n < |Program(j)| && Passes(Program(j)[n], w)
    requires forall k :: 0 <= k < n ==> Holds(Program(j)[k], w)
    ensures RemovesOnlyArchived(j, w, Effect(Program(j)[n], w))
  {
    var p := Program(j);
    ProgramParts(j, n);
    if p[n].Write? {
      var i :| 0 <= i < |j.files| && j.files[i] == p[n].file;
      assert p[i] == Check(p[n].file);
      ProgramOrderly(j);
      assert i < n;
      assert Holds(p[i], w);
    } else if p[n].Delete? {
      var c :| 0 <= c < |j.redis| && InChange(p[n], j.redis[c]);
      assert p[n].key in j.redis[c].keys;
    }
  }

  /** The archive is append-only, and whatever a reset takes out of a file or of Redis
      is in its manifest: the replaced content as `before`, the deleted value as `dump`. */
  lemma ResetsLoseNothing(cfg: Config, s0: State, es: seq<Event>, e: Event)
    requires Initial(cfg, s0) && Legal(cfg, s0, es) && Enabled(cfg, Run(cfg, s0, es), e)
    ensures var s, s' := Run(cfg, s0, es), Apply(cfg, Run(cfg, s0, es), e); var w, w' := s.world, s'.world;
      && w.receipts <= w'.receipts
      && (forall id :: id in w.manifests ==> id in w'.manifests && w'.manifests[id] == w.manifests[id])
      && (e.Do? ==> s.reset.value.id in w.manifests && RemovesOnlyArchived(w.manifests[s.reset.value.id], w, w'))
      && (!e.Do? && !e.DaemonWrite? ==> w'.files == w.files)
      && (!e.Do? && !e.DaemonSet? && !e.DaemonDelete? && !e.Expire? ==> w'.redis == w.redis)
  {
    InvRun(cfg, s0, es);
    var s := Run(cfg, s0, es);
    ManifestStep(cfg, s, e);
    if e.Do? {
      var j, n, i, s' := DoFacts(cfg, s);
      InstrRemovesOnlyArchived(j, n, s.world);
    }
  }

  ghost predicate ByReset(e: Event) {
    e.Prepare? || e.Reuse? || e.Recognise? || e.Mark? || e.Do? || e.Seal? || e.Clear? || e.Release?
  }

  /** Once an operation has its receipt, running it again changes no file and no key,
      whatever was written since. */
  lemma CompletedResetIsInert(cfg: Config, s0: State, es: seq<Event>, e: Event)
    requires Initial(cfg, s0) && Legal(cfg, s0, es) && Enabled(cfg, Run(cfg, s0, es), e)
    requires ByReset(e) && Run(cfg, s0, es).reset.Some?
    requires Run(cfg, s0, es).reset.value.id in Run(cfg, s0, es).world.receipts
    ensures var w, w' := Run(cfg, s0, es).world, Apply(cfg, Run(cfg, s0, es), e).world;
            w'.files == w.files && w'.redis == w.redis && w'.manifests == w.manifests && w'.receipts == w.receipts
  {
    InvRun(cfg, s0, es);
  }

  // ---------------------------------------------------------------------
  // Retries of one operation
  // ---------------------------------------------------------------------

  /** Nobody else writes, and only this operation is retried; it may crash anywhere, daemons
      may come and go, and Redis keys may expire. */
  predicate OnlyRetries(e: Event, id: Id) {
    match e
    case Lock(_, other) => other == id
    case DaemonWrite(_, _, _) => false
    case DaemonSet(_, _, _) => false
    case DaemonDelete(_, _) => false
    case _ => true
  }

  function Expired(es: seq<Event>): set<Key> {
    set e | e in es && e.Expire? :: e.key
  }

  /** The world w is somewhere between w0 and what the journal makes of it, but for some
      expired keys; with the receipt it has got there. */
  ghost predicate OnTheWay(j: Journal, w0: World, gone: set<Key>, s: State) {
    var w, p := s.world, Program(j);
    && Lookup(w.manifests, j.id) == Some(j) && (s.reset.Some? ==> s.reset.value.id == j.id)
    && Committable(j, w)
    && After(p, w).files == After(p, w0).files && After(p, w).redis == After(p, w0).redis - gone
    && (j.id in w.receipts ==> w.files == After(p, w).files && w.redis == After(p, w).redis)
  }

  lemma EffectOnTheWay(j: Journal, n: nat, w: World)
    requires WellFormed(j) && Committable(j, w) && n < |Program(j)|
    ensures var w', p := Effect(Program(j)[n], w), Program(j);
            Committable(j, w') && After(p, w').files == After(p, w).files && After(p, w').redis == After(p, w).redis
  {
    var p := Program(j);
    var w' := Effect(p[n], w);
    forall k | 0 <= k < |p| ensures Passes(p[k], w') {
      StillPasses(j, k, n, w);
    }
    match p[n]
    case Write(f) =>
      WrittenAt(p, f.path);
      assert w'.files + Written(p) == w.files + Written(p);
    case Delete(x) =>
      DeletedAt(p, x.key);
      assert w'.redis - Deleted(p) == w.redis - Deleted(p);
    case _ =>
  }

  lemma StillPasses(j: Journal, k: nat, n: nat, w: World)
    requires WellFormed(j) && k < |Program(j)| && n < |Program(j)| && Passes(Program(j)[k], w)
    ensures Passes(Program(j)[k], Effect(Program(j)[n], w))
  {
    var p := Program(j);
    ProgramOrderly(j);
    if k < n {
      assert InOrder(p[k], p[n]);
    } else if n < k {
      assert InOrder(p[n], p[k]);
    }
  }

  /** Once every instruction holds, there is nothing left to do. */
  lemma HoldsIsAfter(j: Journal, w: World)
    requires forall i :: 0 <= i < |Program(j)| ==> Holds(Program(j)[i], w)
    ensures w.files == After(Program(j), w).files && w.redis == After(Program(j), w).redis
  {
    var p := Program(j);
    forall x | x in Written(p) ensures Lookup(w.files, x) == Some(Written(p)[x]) {
      WrittenAt(p, x);
      var i :| 0 <= i < |p| && p[i].Write? && p[i].file.path == x && Written(p)[x] == p[i].file.after;
      assert Holds(p[i], w);
    }
    assert w.files + Written(p) == w.files;
    forall k | k in Deleted(p) ensures k !in w.redis {
      DeletedAt(p, k);
      var i :| 0 <= i < |p| && p[i].Delete? && p[i].key.key == k;
      assert Holds(p[i], w);
    }
    assert w.redis - Deleted(p) == w.redis;
  }

  lemma ExpiryOnTheWay(j: Journal, w: World, k: Key)
    requires Committable(j, w)
    ensures var w' := w.(redis := w.redis - {k});
            Committable(j, w') && After(Program(j), w').redis == After(Program(j), w).redis - {k}
  {
    var p, w' := Program(j), w.(redis := w.redis - {k});
    forall i | 0 <= i < |p| ensures Passes(p[i], w') {
      assert Passes(p[i], w);
    }
    assert w'.redis - Deleted(p) == w.redis - Deleted(p) - {k};
  }

  lemma StepOnTheWay(cfg: Config, s: State, e: Event, j: Journal, w0: World, gone: set<Key>)
    requires Inv(cfg, s) && Enabled(cfg, s, e) && OnlyRetries(e, j.id) && OnTheWay(j, w0, gone, s)
    ensures OnTheWay(j, w0, if e.Expire? then gone + {e.key} else gone, Apply(cfg, s, e))
  {
    StaysDurable(cfg, s, e);
    var w, w' := s.world, Apply(cfg, s, e).world;
    if e.Do? {
      var j', n, i, s' := DoFacts(cfg, s);
      EffectOnTheWay(j, n, w);
    } else if e.Expire? {
      ExpiryOnTheWay(j, w, e.key);
    } else {
      if e.Seal? {
        HoldsIsAfter(j, w);
      }
      RetryFacts(cfg, s, e, j.id);
      SameVerdicts(j, w, w');
    }
  }

  lemma RetryFacts(cfg: Config, s: State, e: Event, id: Id)
    requires Enabled(cfg, s, e) && OnlyRetries(e, id) && !e.Do? && !e.Expire? && (s.reset.Some? ==> s.reset.value.id == id)
    ensures var s' := Apply(cfg, s, e);
      && s'.world.files == s.world.files && s'.world.redis == s.world.redis && (s'.reset.Some? ==> s'.reset.value.id == id)
      && (!e.Seal? ==> s'.world.receipts == s.world.receipts)
  {
  }

  /** Manifests, marker and receipts do not enter the verdicts. */
  lemma SameVerdicts(j: Journal, w1: World, w2: World)
    requires w1.files == w2.files && w1.redis == w2.redis
    ensures Committable(j, w1) <==> Committable(j, w2)
    ensures After(Program(j), w1).files == After(Program(j), w2).files
    ensures After(Program(j), w1).redis == After(Program(j), w2).redis
  {
    assert forall i :: 0 <= i < |Program(j)| ==> Passes(Program(j)[i], w1) == Passes(Program(j)[i], w2);
  }

  /** Resumption: once the manifest exists, whatever number of crashes and retries of the
      operation follow, the journal stays committable and leads to the files and keys of one
      uninterrupted commit from the first state, but for keys that have expired since; with
      the receipt these are the files and keys. */
  lemma {:induction false} RetriesEndAlike(cfg: Config, s: State, es: seq<Event>, id: Id)
    requires Inv(cfg, s) && Legal(cfg, s, es) && forall e :: e in es ==> OnlyRetries(e, id)
    requires id in s.world.manifests && id !in s.world.receipts && (s.reset.Some? ==> s.reset.value.id == id)
    requires Committable(s.world.manifests[id], s.world)
    ensures OnTheWay(s.world.manifests[id], s.world, Expired(es), Run(cfg, s, es))
    decreases |es|
  {
    var j := s.world.manifests[id];
    if es == [] {
      assert After(Program(j), s.world).redis - {} == After(Program(j), s.world).redis;
    } else {
      var prev, e := es[..|es| - 1], es[|es| - 1];
      assert es == prev + [e];
      RetriesEndAlike(cfg, s, prev, id);
      InvRun(cfg, s, prev);
      StepOnTheWay(cfg, Run(cfg, s, prev), e, j, s.world, Expired(prev));
      ExpiredThen(prev, e);
    }
  }

  lemma ExpiredThen(es: seq<Event>, e: Event)
    ensures Expired(es + [e]) == if e.Expire? then Expired(es) + {e.key} else Expired(es)
  {
    forall x | x in Expired(es) ensures x in Expired(es + [e]) {
      var y :| y in es && y.Expire? && y.key == x;
      assert y in es + [e];
    }
    assert e in es + [e];
  }

  // ---------------------------------------------------------------------
  // A marker that cannot be cleared
  // ---------------------------------------------------------------------

  /** The marked operation has a journal file that is neither archived nor replaced. */
  ghost predicate Stuck(s: State, id: Id, f: FileChange) {
    && s.world.pending == Some(id) && id !in s.world.receipts
    && id in s.world.manifests && f in s.world.manifests[id].files
    && Lookup(s.world.files, f.path) != f.before && Lookup(s.world.files, f.path) != Some(f.after)
  }

  /** From then on no run of resets, crashes and daemons ever clears the marker, admits
      a daemon or changes that file. */
  lemma {:induction false} StuckForever(cfg: Config, s: State, es: seq<Event>, id: Id, f: FileChange)
    requires Inv(cfg, s) && Stuck(s, id, f) && Legal(cfg, s, es)
    ensures var s' := Run(cfg, s, es);
            Stuck(s', id, f) && Lookup(s'.world.files, f.path) == Lookup(s.world.files, f.path) && forall d :: !Admitted(s', d)
    decreases |es|
  {
    if es != [] {
      var prev, e := es[..|es| - 1], es[|es| - 1];
      StuckForever(cfg, s, prev, id, f);
      InvRun(cfg, s, prev);
      StuckStep(cfg, Run(cfg, s, prev), e, id, f);
      InvRun(cfg, s, es);
    }
  }

  lemma StuckStep(cfg: Config, s: State, e: Event, id: Id, f: FileChange)
    requires Inv(cfg, s) && Stuck(s, id, f) && Enabled(cfg, s, e)
    ensures Stuck(Apply(cfg, s, e), id, f)
    ensures Lookup(Apply(cfg, s, e).world.files, f.path) == Lookup(s.world.files, f.path)
  {
    if e.Do? {
      var j, n, i, s' := DoFacts(cfg, s);
      StuckBefore(s.world, j, n, f);
    } else {
      if e.Seal? {
        StuckBefore(s.world, s.reset.value.stage.journal, s.reset.value.stage.done, f);
      }
      StaysDurable(cfg, s, e);
      StuckMarker(cfg, s, e, id);
    }
  }

  /** A commit stops at the check of that file at the latest, before any write. */
  lemma StuckBefore(w: World, j: Journal, n: nat, f: FileChange)
    requires f in j.files && n <= |Program(j)| && forall i :: 0 <= i < n ==> Holds(Program(j)[i], w)
    requires Lookup(w.files, f.path) != f.before && Lookup(w.files, f.path) != Some(f.after)
    ensures n < |j.files| && Program(j)[n].Check?
  {
    var k :| 0 <= k < |j.files| && j.files[k] == f;
    assert Program(j)[k] == Check(f) && !Holds(Check(f), w);
  }

  lemma StuckMarker(cfg: Config, s: State, e: Event, id: Id)
    requires Inv(cfg, s) && Enabled(cfg, s, e) && !e.Do? && !e.Seal? && s.world.pending == Some(id) && id !in s.world.receipts
    ensures var w := Apply(cfg, s, e).world;
      w.pending == Some(id) && id !in w.receipts && w.files == s.world.files
  {
  }
}
