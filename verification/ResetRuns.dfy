/** Two concrete runs of the reset protocol that its own comments do not expect
    (src/reset.rs:645-663). */
module ResetRuns {
  import opened Common
  import opened ResetJournal
  import opened ResetProtocol
  import opened ResetGeneration

  ghost predicate Reaches(cfg: Config, s0: State, s: State) {
    exists es :: Legal(cfg, s0, es) && Run(cfg, s0, es) == s
  }

  lemma Then(cfg: Config, s0: State, s: State, e: Event) returns (s': State)
    requires Reaches(cfg, s0, s) && Enabled(cfg, s, e)
    ensures s' == Apply(cfg, s, e) && Reaches(cfg, s0, s')
  {
    var es :| Legal(cfg, s0, es) && Run(cfg, s0, es) == s;
    s' := Apply(cfg, s, e);
    assert (es + [e])[..|es|] == es;
    assert Run(cfg, s0, es + [e]) == s';
  }

  const STATE := "btc.json"

  function SoleChain(): Config {
    Config({Bitcoin}, _ => STATE, _ => "pool.json", _ => false)
  }

  /** The journal that `prepare` writes while the tip is at the same height. */
  function SameTipJournal(id: Id): Journal {
    Journal(id, One(Bitcoin),
            [FileChange(GenerationPath(STATE), None, Generation(1, 1)),
             FileChange(STATE, Some(Data([0])), Data([1]))], [])
  }

  lemma ThenDo(cfg: Config, s0: State, s: State, j: Journal, n: nat, i: Instr) returns (s': State)
    requires Reaches(cfg, s0, s) && n < |Program(j)| && Program(j)[n] == i && Passes(i, s.world)
    requires s.reset.Some? && s.reset.value.stage == Committing(j, n)
    ensures Reaches(cfg, s0, s') && s'.world == Effect(i, s.world) && s'.guards == s.guards
    ensures s'.reset == Some(s.reset.value.(stage := Committing(j, n + 1)))
  {
    s' := Then(cfg, s0, s, Do);
  }

  lemma RunReset(cfg: Config, s0: State, s: State, j: Journal) returns (s': State)
    requires Reaches(cfg, s0, s) && j == SameTipJournal(j.id)
    requires s.reset.Some? && s.reset.value.stage == Marking(j)
    requires Passes(Check(j.files[0]), s.world) && Passes(Check(j.files[1]), s.world)
    ensures Reaches(cfg, s0, s') && s'.reset.None? && s'.guards == s.guards
    ensures s'.world == World(s.world.files[GenerationPath(STATE) := Generation(1, 1)][STATE := Data([1])],
                              s.world.redis, s.world.manifests, None, s.world.receipts + {j.id})
  {
    assert ChangeProgram([]) == [];
    assert Program(j) == [Check(j.files[0]), Check(j.files[1]), Write(j.files[0]), Write(j.files[1])];
    s' := CheckBoth(cfg, s0, s, j);
    s' := ThenDo(cfg, s0, s', j, 2, Write(j.files[0]));
    s' := ThenDo(cfg, s0, s', j, 3, Write(j.files[1]));
    s' := Finish(cfg, s0, s', j);
  }

  lemma CheckBoth(cfg: Config, s0: State, s: State, j: Journal) returns (s': State)
    requires Reaches(cfg, s0, s) && s.reset.Some? && s.reset.value.stage == Marking(j)
    requires |j.files| == 2 && |Program(j)| == 4 && Program(j)[0] == Check(j.files[0]) && Program(j)[1] == Check(j.files[1])
    requires Passes(Program(j)[0], s.world) && Passes(Program(j)[1], s.world)
    ensures Reaches(cfg, s0, s') && s'.reset == Some(s.reset.value.(stage := Committing(j, 2))) && s'.guards == s.guards
    ensures s'.world == s.world.(pending := Some(j.id))
  {
    s' := Then(cfg, s0, s, Mark);
    s' := ThenDo(cfg, s0, s', j, 0, Program(j)[0]);
    s' := ThenDo(cfg, s0, s', j, 1, Program(j)[1]);
  }

  lemma Finish(cfg: Config, s0: State, s: State, j: Journal) returns (s': State)
    requires Reaches(cfg, s0, s) && s.reset.Some? && s.reset.value.stage == Committing(j, |Program(j)|)
    ensures Reaches(cfg, s0, s') && s'.reset.None? && s'.guards == s.guards
    ensures s'.world == s.world.(receipts := s.world.receipts + {j.id}, pending := None)
  {
    s' := Then(cfg, s0, s, Seal);
    s' := Then(cfg, s0, s', Clear);
    s' := Then(cfg, s0, s', Release);
  }

  /** Taking the lock and archiving. */
  lemma Archive(cfg: Config, s0: State, s: State, sel: Selection, id: Id, j: Journal) returns (s': State)
    requires Reaches(cfg, s0, s) && s.reset.None? && s.guards == map[] && ValidId(id) && s.world.pending.None?
    requires id !in s.world.receipts && id !in s.world.manifests && Prepared(cfg, s.world, sel, id, j)
    ensures Reaches(cfg, s0, s') && s'.guards == map[]
    ensures s'.reset == Some(Proc(sel, id, Marking(j)))
    ensures s'.world == s.world.(manifests := s.world.manifests[id := j])
  {
    s' := Then(cfg, s0, s, Lock(sel, id));
    s' := Then(cfg, s0, s', Prepare(j));
  }

  /** Taking the lock again and finding the archive. */
  lemma Retry(cfg: Config, s0: State, s: State, id: Id, j: Journal) returns (s': State)
    requires Reaches(cfg, s0, s) && s.reset.None? && s.guards == map[] && ValidId(id) && s.world.pending.None?
    requires id !in s.world.receipts && Lookup(s.world.manifests, id) == Some(j)
    ensures Reaches(cfg, s0, s') && s'.guards == map[] && s'.world == s.world
    ensures s'.reset == Some(Proc(j.selection, id, Marking(j)))
  {
    s' := Then(cfg, s0, s, Lock(j.selection, id));
    s' := Then(cfg, s0, s', Reuse);
  }

  lemma Crash(cfg: Config, s0: State, s: State) returns (s': State)
    requires Reaches(cfg, s0, s) && s.reset.Some?
    ensures Reaches(cfg, s0, s') && s'.reset.None? && s'.guards == s.guards && s'.world == s.world
  {
    s' := Then(cfg, s0, s, Release);
  }

  ghost function SoleStart(): State {
    State(World(map[STATE := Data([0])], map[], map[], None, {}), None, map[], map[], {}, {})
  }

  lemma ArchiveBoth(a: Id, b: Id) returns (s: State)
    requires ValidId(a) && ValidId(b) && a != b
    ensures Reaches(SoleChain(), SoleStart(), s) && s.guards == map[]
    ensures s.reset == Some(Proc(One(Bitcoin), b, Marking(SameTipJournal(b))))
    ensures s.world == World(map[STATE := Data([0])], map[], map[a := SameTipJournal(a)][b := SameTipJournal(b)], None, {})
  {
    var cfg, s0 := SoleChain(), SoleStart();
    SoleGenerationPath(cfg);
    assert Legal(cfg, s0, []) && Run(cfg, s0, []) == s0;
    CanPrepare(cfg, s0.world, a);
    s := Archive(cfg, s0, s0, One(Bitcoin), a, SameTipJournal(a));
    s := Crash(cfg, s0, s);
    CanPrepare(cfg, s.world, b);
    s := Archive(cfg, s0, s, One(Bitcoin), b, SameTipJournal(b));
  }

  lemma FreshPasses(j: Journal, w: World)
    requires j == SameTipJournal(j.id) && GenerationPath(STATE) != STATE
    requires w.files == map[STATE := Data([0])] || w.files == map[GenerationPath(STATE) := Generation(1, 1), STATE := Data([1])]
    ensures Passes(Check(j.files[0]), w) && Passes(Check(j.files[1]), w)
    ensures w.files[GenerationPath(STATE) := Generation(1, 1)][STATE := Data([1])]
         == map[GenerationPath(STATE) := Generation(1, 1), STATE := Data([1])]
  {
  }

  /** Operation a crashes after its manifest, operation b then completes at the same
      tip, and a is retried: two receipts, but the generation has moved once. */
  lemma TwoReceiptsOneGeneration(a: Id, b: Id) returns (s: State)
    requires ValidId(a) && ValidId(b) && a != b
    ensures Initial(SoleChain(), SoleStart()) && Reaches(SoleChain(), SoleStart(), s) && s.world.pending.None?
    ensures CompletedFor(s, GenerationPath(STATE)) == {a, b}
    ensures GenerationAt(SoleStart().world, GenerationPath(STATE)) == 0
    ensures GenerationAt(s.world, GenerationPath(STATE)) == 1
  {
    var cfg, s0 := SoleChain(), SoleStart();
    SoleGenerationPath(cfg);
    s := ArchiveBoth(a, b);
    FreshPasses(SameTipJournal(b), s.world);
    s := RunReset(cfg, s0, s, SameTipJournal(b));
    s := Retry(cfg, s0, s, a, SameTipJournal(a));
    FreshPasses(SameTipJournal(a), s.world);
    s := RunReset(cfg, s0, s, SameTipJournal(a));
    BothCovered(s, a, b);
  }

  lemma BothCovered(s: State, a: Id, b: Id)
    requires s.world.manifests == map[a := SameTipJournal(a)][b := SameTipJournal(b)]
    requires s.world.receipts == {a, b}
    ensures CompletedFor(s, GenerationPath(STATE)) == {a, b}
  {
    assert SameTipJournal(a).files[0].path == GenerationPath(STATE);
    assert SameTipJournal(b).files[0].path == GenerationPath(STATE);
    assert Covers(SameTipJournal(a).files, GenerationPath(STATE)) && Covers(SameTipJournal(b).files, GenerationPath(STATE));
  }

  lemma SoleGenerationPath(cfg: Config)
    requires cfg == SoleChain()
    ensures forall p :: IsGenerationPath(cfg, p) <==> p == GenerationPath(STATE)
    ensures GenerationPath(STATE) != STATE
  {
    assert |GenerationPath(STATE)| != |STATE|;
    assert HasGeneration(Bitcoin) && cfg.stateFile(Bitcoin) == STATE;
  }

  lemma CanPrepare(cfg: Config, w: World, id: Id)
    requires cfg == SoleChain() && w.files == map[STATE := Data([0])]
    ensures Prepared(cfg, w, One(Bitcoin), id, SameTipJournal(id))
  {
    var j := SameTipJournal(id);
    SoleGenerationPath(cfg);
    assert cfg.stateFile(Bitcoin) == STATE && SecondFile(cfg, Bitcoin) == GenerationPath(STATE);
    assert j.files[0].path == SecondFile(cfg, Bitcoin) && j.files[1].path == cfg.stateFile(Bitcoin);
    assert Selects(cfg, One(Bitcoin), Bitcoin);
    assert MovesGeneration(j.files[0]);
    assert PreparedFile(cfg, w, One(Bitcoin), j.files[0]) && PreparedFile(cfg, w, One(Bitcoin), j.files[1]);
    assert Covers(j.files, cfg.stateFile(Bitcoin)) && Covers(j.files, SecondFile(cfg, Bitcoin));
  }

  /** A crash between manifest and marker lets a daemon in; it rewrites its state file;
      the retry places the marker and is then stuck for good. */
  lemma DaemonWriteBlocksTheRetry(a: Id) returns (s: State)
    requires ValidId(a)
    ensures Reaches(SoleChain(), SoleStart(), s)
    ensures Stuck(s, a, SameTipJournal(a).files[1])
  {
    var cfg, s0, j := SoleChain(), SoleStart(), SameTipJournal(a);
    SoleGenerationPath(cfg);
    assert Legal(cfg, s0, []) && Run(cfg, s0, []) == s0;
    CanPrepare(cfg, s0.world, a);
    s := Archive(cfg, s0, s0, One(Bitcoin), a, j);
    s := Crash(cfg, s0, s);
    s := DaemonRewrites(cfg, s0, s, STATE, Data([7]));
    s := Retry(cfg, s0, s, a, j);
    s := Then(cfg, s0, s, Mark);
  }

  lemma DaemonRewrites(cfg: Config, s0: State, s: State, path: Path, content: Content) returns (s': State)
    requires Reaches(cfg, s0, s) && s.reset.None? && s.guards == map[] && s.world.pending.None?
    requires !IsGenerationPath(cfg, path)
    ensures Reaches(cfg, s0, s') && s'.reset.None? && s'.guards == map[]
    ensures s'.world == s.world.(files := s.world.files[path := content])
  {
    s' := Admit(cfg, s0, s);
    s' := Then(cfg, s0, s', DaemonWrite(0, path, content));
    s' := Then(cfg, s0, s', GuardDrop(0));
  }

  lemma Admit(cfg: Config, s0: State, s: State) returns (s': State)
    requires Reaches(cfg, s0, s) && s.reset.None? && s.guards == map[] && s.world.pending.None?
    ensures Reaches(cfg, s0, s') && s' == s.(guards := map[0 := true])
  {
    s' := Then(cfg, s0, s, GuardTry(0));
    s' := Then(cfg, s0, s', GuardAdmit(0));
  }
}
