/** The persisted wallet generation over runs of the reset protocol, and the derivation
    paths it leads to (src/reset.rs:101-157, 384-420). */
module ResetGeneration {
  import opened Common
  import opened ResetJournal
  import opened ResetProtocol

  /** The operations that really changed the generation file p. */
  ghost function MovedBy(s: State, p: Path): set<Id> {
    set x | x in s.moved && x.1 == p :: x.0
  }

  /** The completed operations whose journal covers the generation file p. */
  ghost function CompletedFor(s: State, p: Path): set<Id> {
    set id | id in s.world.receipts && id in s.world.manifests && Covers(s.world.manifests[id].files, p)
  }

  function GenerationAt(w: World, p: Path): nat { GenerationOf(Lookup(w.files, p)) }

  ghost predicate CountInv(cfg: Config, s0: State, s: State) {
    forall p :: IsGenerationPath(cfg, p) ==>
      && ValidGeneration(Lookup(s.world.files, p))
      && GenerationAt(s.world, p) == GenerationAt(s0.world, p) + |MovedBy(s, p)|
  }

  /** An operation leaves traces only after its marker was placed. */
  ghost predicate TraceInv(s: State) {
    forall x :: x in s.moved || x in s.stale ==>
      x.0 in s.world.manifests && (x.0 in s.world.receipts || s.world.pending == Some(x.0))
  }

  ghost predicate EntryInv(cfg: Config, s: State) {
    forall id, f :: id in s.world.manifests && f in s.world.manifests[id].files && IsGenerationPath(cfg, f.path) ==>
      EntryState(s, id, f)
  }

  /** Where the generation file stands relative to one journal entry. */
  ghost predicate EntryState(s: State, id: Id, f: FileChange) {
    var now, moved, stale := Lookup(s.world.files, f.path), (id, f.path) in s.moved, (id, f.path) in s.stale;
    if id in s.world.receipts then moved <==> !stale
    else if s.world.pending == Some(id) then
      && (moved ==> now == Some(f.after) && !stale)
      && (stale ==> now != f.before)
      && (!stale && !moved ==> now == f.before)
    else !moved && !stale
  }

  ghost predicate GenInv(cfg: Config, s0: State, s: State) {
    Inv(cfg, s) && CountInv(cfg, s0, s) && TraceInv(s) && EntryInv(cfg, s)
  }

  lemma SameEntry(j: Journal, f: FileChange, g: FileChange)
    requires WellFormed(j) && f in j.files && g in j.files && f.path == g.path
    ensures f == g
  {
    var a :| 0 <= a < |j.files| && j.files[a] == f;
    var b :| 0 <= b < |j.files| && j.files[b] == g;
    assert a == b;
  }

  /** Nothing that concerns generation files has changed. */
  lemma EntryFrame(cfg: Config, s0: State, s: State, s': State)
    requires GenInv(cfg, s0, s) && Inv(cfg, s')
    requires s'.moved == s.moved && s'.stale == s.stale
    requires forall p :: IsGenerationPath(cfg, p) ==> Lookup(s'.world.files, p) == Lookup(s.world.files, p)
    requires forall id :: id in s.world.manifests ==> id in s'.world.manifests
    requires s'.world.receipts == s.world.receipts
    requires s'.world.pending == s.world.pending || (s'.world.pending.None? && s.world.pending.value in s.world.receipts)
    requires forall id :: id in s'.world.manifests && id !in s.world.manifests ==> id !in s.world.receipts && s'.world.pending != Some(id)
    requires forall id :: id in s.world.manifests ==> s'.world.manifests[id] == s.world.manifests[id]
    ensures GenInv(cfg, s0, s')
  {
    assert forall p :: MovedBy(s', p) == MovedBy(s, p);
    forall x, g | x in s'.world.manifests && g in s'.world.manifests[x].files && IsGenerationPath(cfg, g.path)
      ensures EntryState(s', x, g)
    {
      if x in s.world.manifests {
        assert EntryState(s, x, g);
      }
    }
  }

  /** The file written next is one of the journal's, is still in one of its two states,
      and its entry is in order. */
  lemma NextWrite(cfg: Config, s0: State, s: State) returns (j: Journal, f: FileChange)
    requires GenInv(cfg, s0, s) && Enabled(cfg, s, Do)
    requires var st := s.reset.value.stage; var i := Program(st.journal)[st.done];
             i.Write? && IsGenerationPath(cfg, i.file.path)
    ensures var st := s.reset.value.stage; j == st.journal && f == Program(j)[st.done].file
    ensures f in j.files && MovesGeneration(f) && EntryState(s, j.id, f) && j.id == s.reset.value.id
    ensures Lookup(s.world.files, f.path) == f.before || Lookup(s.world.files, f.path) == Some(f.after)
  {
    var n := s.reset.value.stage.done;
    j := s.reset.value.stage.journal;
    f := Program(j)[n].file;
    ProgramParts(j, n);
    var k :| 0 <= k < |j.files| && j.files[k] == f;
    assert Program(j)[k] == Check(f);
    ProgramOrderly(j);
    assert k < n && Holds(Program(j)[k], s.world);
  }

  /** Executing the write of a generation file: either it moves the file from the
      archived generation to the next, once, or it rewrites what is there. */
  lemma GenerationWrite(cfg: Config, s0: State, s: State)
    requires GenInv(cfg, s0, s) && Enabled(cfg, s, Do)
    requires var st := s.reset.value.stage; var i := Program(st.journal)[st.done];
             i.Write? && IsGenerationPath(cfg, i.file.path)
    ensures GenInv(cfg, s0, Apply(cfg, s, Do))
  {
    var j, f := NextWrite(cfg, s0, s);
    var id, p, s' := j.id, f.path, Apply(cfg, s, Do);
    InvStep(cfg, s, Do);
    assert s'.world == s.world.(files := s.world.files[p := f.after]) && s'.stale == s.stale;
    if Lookup(s.world.files, p) == Some(f.after) {
      assert s'.moved == s.moved;
      EntryFrame(cfg, s0, s, s');
    } else {
      assert s'.moved == s.moved + {(id, p)} && (id, p) !in s.moved;
      FirstMove(cfg, s0, s, s', j, f);
    }
  }

  lemma FirstMove(cfg: Config, s0: State, s: State, s': State, j: Journal, f: FileChange)
    requires GenInv(cfg, s0, s) && Inv(cfg, s') && IsGenerationPath(cfg, f.path)
    requires s'.world == s.world.(files := s.world.files[f.path := f.after]) && s'.stale == s.stale
    requires s'.moved == s.moved + {(j.id, f.path)} && (j.id, f.path) !in s.moved
    requires Lookup(s.world.manifests, j.id) == Some(j) && f in j.files && MovesGeneration(f)
    requires s.world.pending == Some(j.id) && j.id !in s.world.receipts
    requires Lookup(s.world.files, f.path) == f.before
    ensures GenInv(cfg, s0, s')
  {
    MovedByOne(s, s', j.id, f.path);
    MovedEntries(cfg, s, s', j, f);
  }

  lemma MovedEntries(cfg: Config, s: State, s': State, j: Journal, f: FileChange)
    requires EntryInv(cfg, s) && TraceInv(s) && IsGenerationPath(cfg, f.path) && WellFormed(j)
    requires s'.world == s.world.(files := s.world.files[f.path := f.after]) && s'.stale == s.stale
    requires s'.moved == s.moved + {(j.id, f.path)} && (j.id, f.path) !in s.moved
    requires Lookup(s.world.manifests, j.id) == Some(j) && f in j.files && MovesGeneration(f)
    requires s.world.pending == Some(j.id) && j.id !in s.world.receipts
    requires Lookup(s.world.files, f.path) == f.before
    ensures EntryInv(cfg, s')
  {
    var id, p := j.id, f.path;
    assert EntryState(s, id, f);
    forall x, g | x in s'.world.manifests && g in s'.world.manifests[x].files && IsGenerationPath(cfg, g.path)
      ensures EntryState(s', x, g)
    {
      assert EntryState(s, x, g);
      if x == id && g.path == p {
        SameEntry(j, f, g);
      }
    }
  }

  lemma MovedByOne(s: State, s': State, id: Id, p: Path)
    requires s'.moved == s.moved + {(id, p)} && (id, p) !in s.moved
    ensures |MovedBy(s', p)| == |MovedBy(s, p)| + 1
    ensures forall q :: q != p ==> MovedBy(s', q) == MovedBy(s, q)
  {
    assert (id, p) in s'.moved;
    assert MovedBy(s', p) == MovedBy(s, p) + {id};
    assert id !in MovedBy(s, p);
    forall q | q != p ensures MovedBy(s', q) == MovedBy(s, q) {
      assert forall x :: x in s'.moved && x.1 == q <==> x in s.moved && x.1 == q;
    }
  }

  lemma MarkStep(cfg: Config, s0: State, s: State)
    requires GenInv(cfg, s0, s) && Enabled(cfg, s, Mark)
    ensures GenInv(cfg, s0, Apply(cfg, s, Mark))
  {
    InvStep(cfg, s, Mark);
    var s' := Apply(cfg, s, Mark);
    var j := s.reset.value.stage.journal;
    assert forall p :: MovedBy(s', p) == MovedBy(s, p);
    forall x, g | x in s'.world.manifests && g in s'.world.manifests[x].files && IsGenerationPath(cfg, g.path)
      ensures EntryState(s', x, g)
    {
      assert EntryState(s, x, g);
      if x == j.id && s.world.pending.None? {
        if (x, g.path) in s'.stale {
          var f :| f in GenerationEntries(cfg, j) && Lookup(s.world.files, f.path) != f.before && (j.id, f.path) == (x, g.path);
          SameEntry(j, f, g);
        } else {
          assert g in GenerationEntries(cfg, j);
        }
      }
    }
  }

  lemma SealEntry(cfg: Config, s0: State, s: State, x: Id, g: FileChange)
    requires GenInv(cfg, s0, s) && Enabled(cfg, s, Seal)
    requires x in s.world.manifests && g in s.world.manifests[x].files && IsGenerationPath(cfg, g.path)
    ensures EntryState(Apply(cfg, s, Seal), x, g)
  {
    assert EntryState(s, x, g);
    if x == s.reset.value.id {
      SealedFiles(cfg, s);
      assert MovesGeneration(g) && g.before != Some(g.after);
    }
  }

  lemma SealStep(cfg: Config, s0: State, s: State)
    requires GenInv(cfg, s0, s) && Enabled(cfg, s, Seal)
    ensures GenInv(cfg, s0, Apply(cfg, s, Seal))
  {
    InvStep(cfg, s, Seal);
    var s' := Apply(cfg, s, Seal);
    assert forall p :: MovedBy(s', p) == MovedBy(s, p);
    forall x, g | x in s'.world.manifests && g in s'.world.manifests[x].files && IsGenerationPath(cfg, g.path)
      ensures EntryState(s', x, g)
    {
      SealEntry(cfg, s0, s, x, g);
    }
  }

  lemma GenStep(cfg: Config, s0: State, s: State, e: Event)
    requires GenInv(cfg, s0, s) && Enabled(cfg, s, e)
    ensures GenInv(cfg, s0, Apply(cfg, s, e))
  {
    if e.Mark? {
      MarkStep(cfg, s0, s);
    } else if e.Seal? {
      SealStep(cfg, s0, s);
    } else if e.Do? && (var st := s.reset.value.stage; var i := Program(st.journal)[st.done];
                        i.Write? && IsGenerationPath(cfg, i.file.path)) {
      GenerationWrite(cfg, s0, s);
    } else {
      OtherStep(cfg, s0, s, e);
    }
  }

  lemma OtherStep(cfg: Config, s0: State, s: State, e: Event)
    requires GenInv(cfg, s0, s) && Enabled(cfg, s, e) && !e.Mark? && !e.Seal?
    requires e.Do? ==> var st := s.reset.value.stage; var i := Program(st.journal)[st.done];
             !(i.Write? && IsGenerationPath(cfg, i.file.path))
    ensures GenInv(cfg, s0, Apply(cfg, s, e))
  {
    InvStep(cfg, s, e);
    ManifestStep(cfg, s, e);
    if e.Do? {
      var j, n, i, s' := DoFacts(cfg, s);
      assert s'.moved == s.moved;
      EntryFrame(cfg, s0, s, s');
    } else {
      EntryFrame(cfg, s0, s, Apply(cfg, s, e));
    }
  }

  lemma {:induction false} GenRun(cfg: Config, s0: State, es: seq<Event>)
    requires Initial(cfg, s0) && Legal(cfg, s0, es)
    ensures GenInv(cfg, s0, Run(cfg, s0, es))
    decreases |es|
  {
    if es != [] {
      GenRun(cfg, s0, es[..|es| - 1]);
      GenStep(cfg, s0, Run(cfg, s0, es[..|es| - 1]), es[|es| - 1]);
    }
  }

  /** The generation never runs backwards or out of range, moves at most once for each
      operation, and with no reset pending it equals the initial one plus the completed
      resets exactly when, for each of them, the generation file still held the archived
      content when its marker was first placed. */
  lemma GenerationCountsResets(cfg: Config, s0: State, es: seq<Event>, p: Path)
    requires Initial(cfg, s0) && Legal(cfg, s0, es) && IsGenerationPath(cfg, p)
    ensures var s := Run(cfg, s0, es); var g, g0 := GenerationAt(s.world, p), GenerationAt(s0.world, p);
      && g < MAX_GENERATION
      && g == g0 + |MovedBy(s, p)|
      && (s.world.pending.None? ==>
            && g0 <= g <= g0 + |CompletedFor(s, p)|
            && (g == g0 + |CompletedFor(s, p)| <==> forall id :: id in CompletedFor(s, p) ==> (id, p) !in s.stale))
  {
    GenRun(cfg, s0, es);
    var s := Run(cfg, s0, es);
    if s.world.pending.None? {
      var done := CompletedFor(s, p);
      forall id | id in MovedBy(s, p) ensures id in done {
        MovedCovers(cfg, s0, es, id, p);
      }
      forall id | id in done ensures id in MovedBy(s, p) <==> (id, p) !in s.stale {
        var f :| f in s.world.manifests[id].files && f.path == p;
        assert EntryState(s, id, f);
      }
      SubsetSize(MovedBy(s, p), done);
    }
  }

  lemma SubsetSize(a: set<Id>, b: set<Id>)
    requires a <= b
    ensures |a| <= |b| && (|a| == |b| <==> a == b)
  {
    assert b == a + (b - a) && a !! (b - a);
  }

  lemma {:induction false} MovedCovers(cfg: Config, s0: State, es: seq<Event>, id: Id, p: Path)
    requires Initial(cfg, s0) && Legal(cfg, s0, es) && (id, p) in Run(cfg, s0, es).moved
    ensures id in Run(cfg, s0, es).world.manifests && Covers(Run(cfg, s0, es).world.manifests[id].files, p)
    decreases |es|
  {
    var prev, e := es[..|es| - 1], es[|es| - 1];
    var s := Run(cfg, s0, prev);
    InvRun(cfg, s0, prev);
    ManifestStep(cfg, s, e);
    if (id, p) in s.moved {
      MovedCovers(cfg, s0, prev, id, p);
    } else {
      var Committing(j, n) := s.reset.value.stage;
      ProgramParts(j, n);
    }
  }

  // ---------------------------------------------------------------------
  // Derivation paths
  // ---------------------------------------------------------------------

  /** `rotate` followed by `derive_address`: the path from the master key. */
  function DerivationPath(generation: nat, user: nat): seq<nat> {
    (if generation == 0 then [] else [1, generation]) + [0, user]
  }

  /** No two (generation, user) pairs share a derivation path. */
  lemma DerivationPathsAreFresh(g: nat, u: nat, g': nat, u': nat)
    ensures DerivationPath(g, u) == DerivationPath(g', u') <==> g == g' && u == u'
  {
    var p, q := DerivationPath(g, u), DerivationPath(g', u');
    assert p[|p| - 1] == u && q[|q| - 1] == u';
    assert (g == 0 <==> |p| == 2) && (g' == 0 <==> |q| == 2);
    assert g != 0 ==> p[1] == g;
    assert g' != 0 ==> q[1] == g';
  }
}
