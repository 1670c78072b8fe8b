/** `prepare`, `commit` and `execute_at` as they act on the durable state, each tied to
    the protocol's events (src/reset.rs). */
module ResetMaintenance {
  import opened Common
  import opened ResetJournal
  import opened ResetProtocol

  predicate IsHexDigit(c: char) {
    '0' <= c <= '9' || 'a' <= c <= 'f' || 'A' <= c <= 'F'
  }

  const TICKERS: seq<Chain> := [Ethereum, Solana, Base, Bitcoin, Litecoin]

  /** No two of the files of these chains share a path. */
  ghost predicate DistinctStorage(cfg: Config, cs: set<Chain>) {
    forall c, d :: c in cs && d in cs ==>
      && cfg.stateFile(c) != SecondFile(cfg, d)
      && (c != d ==> cfg.stateFile(c) != cfg.stateFile(d) && SecondFile(cfg, c) != SecondFile(cfg, d))
  }

  lemma AllTickers(c: Chain)
    ensures c in TICKERS
  {
    match c
    case Ethereum => assert TICKERS[0] == c;
    case Solana => assert TICKERS[1] == c;
    case Base => assert TICKERS[2] == c;
    case Bitcoin => assert TICKERS[3] == c;
    case Litecoin => assert TICKERS[4] == c;
  }

  /** What a fresh chain starts from; it depends on tips and on generated wallets. */
  type Clean = Chain -> (Content, Content)

  ghost predicate GoodFile(cfg: Config, w: World, f: FileChange, c: Chain) {
    && c in cfg.requested && (f.path == cfg.stateFile(c) || f.path == SecondFile(cfg, c))
    && f.before == Lookup(w.files, f.path)
    && (IsGenerationPath(cfg, f.path) ==> MovesGeneration(f))
  }

  predicate Renews(changes: seq<FileChange>, p: Path, content: Content) {
    changes != [] &&
    var n := |changes| - 1;
    ((changes[n].path == p && changes[n].after == content) || Renews(changes[..n], p, content))
  }

  lemma {:induction false} RenewsCovers(changes: seq<FileChange>, p: Path, content: Content)
    requires Renews(changes, p, content)
    ensures Covers(changes, p)
  {
    var n := |changes| - 1;
    if changes[n].path != p || changes[n].after != content {
      RenewsCovers(changes[..n], p, content);
      var f :| f in changes[..n] && f.path == p;
      assert f in changes;
    }
  }

  lemma {:induction false} RenewsStays(before: seq<FileChange>, changes: seq<FileChange>, p: Path, content: Content)
    requires Renews(before, p, content) && before <= changes
    ensures Renews(changes, p, content)
    decreases |changes|
  {
    if |before| < |changes| {
      RenewsStays(before, changes[..|changes| - 1], p, content);
    } else {
      assert before == changes;
    }
  }

  /** What the second file of a chain is reset to: the next generation, or a new pool. */
  function SecondContent(cfg: Config, w: World, c: Chain, clean: (Content, Content)): Content {
    if c.Bitcoin? || c.Litecoin? then Generation(1, GenerationOf(Lookup(w.files, SecondFile(cfg, c))) + 1) else clean.1
  }

  /** Both files of a chain are in the journal, with what a fresh chain starts from. */
  predicate RenewsChain(cfg: Config, w: World, changes: seq<FileChange>, c: Chain, clean: (Content, Content)) {
    Renews(changes, cfg.stateFile(c), clean.0) && Renews(changes, SecondFile(cfg, c), SecondContent(cfg, w, c, clean))
  }

  ghost predicate RenewsAll(cfg: Config, w: World, sel: Selection, clean: Clean, changes: seq<FileChange>, done: seq<Chain>) {
    forall c :: c in done && Selects(cfg, sel, c) ==> RenewsChain(cfg, w, changes, c, clean(c))
  }

  ghost predicate FilesSoFar(cfg: Config, w: World, sel: Selection, clean: Clean, changes: seq<FileChange>, done: seq<Chain>) {
    && DistinctPaths(changes) && RenewsAll(cfg, w, sel, clean, changes, done)
    && forall f :: f in changes ==> exists c :: c in done && Selects(cfg, sel, c) && GoodFile(cfg, w, f, c)
  }

  /** The generation of a chain that has one can be moved on. */
  predicate MayRenew(cfg: Config, w: World, c: Chain) {
    c.Bitcoin? || c.Litecoin? ==>
      var g := Lookup(w.files, SecondFile(cfg, c));
      ValidGeneration(g) && GenerationOf(g) + 1 < 0x8000_0000
  }

  /** When a reset can be prepared: no storage is shared, every request was answered, a chain
      is selected, the selected chains are configured, and their generations can be moved on. */
  ghost predicate Preparable(cfg: Config, w: World, sel: Selection, clean: Option<Clean>) {
    && DistinctStorage(cfg, cfg.requested) && clean.Some?
    && (exists c :: Selects(cfg, sel, c))
    && (forall c :: Selects(cfg, sel, c) ==> c in cfg.requested && MayRenew(cfg, w, c))
  }

  ghost predicate GoodSnapshot(cfg: Config, w: World, sel: Selection, r: RedisChange) {
    WellFormedChange(r) && PreparedChange(cfg, w, sel, r)
  }

  ghost predicate KeysSoFar(cfg: Config, w: World, sel: Selection, keys: seq<RedisChange>, done: seq<Chain>) {
    && (forall i :: 0 <= i < |keys| ==> GoodSnapshot(cfg, w, sel, keys[i]) && keys[i].chain in done)
    && (forall i, k :: 0 <= i < k < |keys| ==> keys[i].chain != keys[k].chain)
    && (forall c :: c in done && Selects(cfg, sel, c) && (c.Ethereum? || c.Solana? || c.Base?) && cfg.inRedis(c) ==> Clears(keys, c))
  }

  lemma FilesExtended(cfg: Config, w: World, sel: Selection, clean: Clean, before: seq<FileChange>, changes: seq<FileChange>,
                      done: seq<Chain>, c: Chain)
    requires FilesSoFar(cfg, w, sel, clean, before, done) && Selects(cfg, sel, c) && DistinctPaths(changes)
    requires |before| <= |changes| && changes[..|before|] == before
    requires forall f :: f in changes[|before|..] ==> GoodFile(cfg, w, f, c)
    requires RenewsChain(cfg, w, changes, c, clean(c))
    ensures FilesSoFar(cfg, w, sel, clean, changes, done + [c])
  {
    assert changes == before + changes[|before|..];
    RenewedAlso(cfg, w, sel, clean, before, changes, done, c);
  }

  lemma RenewedAlso(cfg: Config, w: World, sel: Selection, clean: Clean, before: seq<FileChange>, changes: seq<FileChange>, done: seq<Chain>, c: Chain)
    requires RenewsAll(cfg, w, sel, clean, before, done) && RenewsChain(cfg, w, changes, c, clean(c)) && before <= changes
    ensures RenewsAll(cfg, w, sel, clean, changes, done + [c])
  {
    forall d | d in done && Selects(cfg, sel, d) ensures RenewsChain(cfg, w, changes, d, clean(d)) {
      RenewsStays(before, changes, cfg.stateFile(d), clean(d).0);
      RenewsStays(before, changes, SecondFile(cfg, d), SecondContent(cfg, w, d, clean(d)));
    }
  }

  /** The files of a chain that is not done are not in the journal yet. */
  lemma NotYetThere(cfg: Config, w: World, sel: Selection, clean: Clean, changes: seq<FileChange>, done: seq<Chain>, c: Chain)
    requires DistinctStorage(cfg, cfg.requested) && FilesSoFar(cfg, w, sel, clean, changes, done)
    requires c in cfg.requested && c !in done
    ensures forall f :: f in changes ==> f.path != cfg.stateFile(c) && f.path != SecondFile(cfg, c)
  {
    forall f | f in changes ensures f.path != cfg.stateFile(c) && f.path != SecondFile(cfg, c) {
      var d :| d in done && Selects(cfg, sel, d) && GoodFile(cfg, w, f, d);
      assert d in cfg.requested;
    }
  }

  lemma FilesArePrepared(cfg: Config, w: World, sel: Selection, clean: Clean, changes: seq<FileChange>, done: seq<Chain>, f: FileChange)
    requires FilesSoFar(cfg, w, sel, clean, changes, done) && f in changes
    ensures PreparedFile(cfg, w, sel, f)
  {
    var c :| c in done && Selects(cfg, sel, c) && GoodFile(cfg, w, f, c);
  }

  lemma JournalIsPrepared(cfg: Config, w: World, sel: Selection, id: Id, clean: Clean, changes: seq<FileChange>,
                          keys: seq<RedisChange>, done: seq<Chain>)
    requires FilesSoFar(cfg, w, sel, clean, changes, done) && KeysSoFar(cfg, w, sel, keys, done) && changes != []
    requires forall c :: Selects(cfg, sel, c) ==> c in cfg.requested && c in done
    ensures Prepared(cfg, w, sel, id, Journal(id, sel, changes, keys))
  {
    forall f | f in changes ensures PreparedFile(cfg, w, sel, f) {
      FilesArePrepared(cfg, w, sel, clean, changes, done, f);
    }
    forall c | Selects(cfg, sel, c) ensures Covers(changes, cfg.stateFile(c)) && Covers(changes, SecondFile(cfg, c)) {
      assert RenewsChain(cfg, w, changes, c, clean(c));
      RenewsCovers(changes, cfg.stateFile(c), clean(c).0);
      RenewsCovers(changes, SecondFile(cfg, c), SecondContent(cfg, w, c, clean(c)));
    }
    forall i | 0 <= i < |keys| ensures WellFormedChange(keys[i]) && PreparedChange(cfg, w, sel, keys[i]) {
      assert GoodSnapshot(cfg, w, sel, keys[i]);
    }
  }

  lemma NothingSelected(cfg: Config, w: World, sel: Selection, clean: Clean, changes: seq<FileChange>, done: seq<Chain>)
    requires FilesSoFar(cfg, w, sel, clean, changes, done) && forall c :: Selects(cfg, sel, c) ==> c in done
    ensures changes == [] <==> forall c :: !Selects(cfg, sel, c)
  {
    if changes != [] {
      assert changes[0] in changes;
    }
    if c :| Selects(cfg, sel, c) {
      assert RenewsChain(cfg, w, changes, c, clean(c));
    }
  }

  /** The loop of `prepare` after its first t chains. */
  ghost predicate PreparedTo(cfg: Config, w: World, sel: Selection, clean: Clean, changes: seq<FileChange>, keys: seq<RedisChange>, t: nat) {
    forall here :: Unfolded(here) ==> PreparedToHere(cfg, w, sel, clean, changes, keys, t)
  }

  ghost predicate PreparedToHere(cfg: Config, w: World, sel: Selection, clean: Clean, changes: seq<FileChange>, keys: seq<RedisChange>, t: nat) {
    && t <= |TICKERS| && FilesSoFar(cfg, w, sel, clean, changes, TICKERS[..t]) && KeysSoFar(cfg, w, sel, keys, TICKERS[..t])
    && forall c :: c in TICKERS[..t] && Selects(cfg, sel, c) ==> MayRenew(cfg, w, c)
  }

  lemma AllDone(c: Chain)
    ensures c in TICKERS[..|TICKERS|]
  {
    AllTickers(c);
  }

  lemma PreparedIfPreparable(cfg: Config, w: World, sel: Selection, clean: Clean, changes: seq<FileChange>, keys: seq<RedisChange>)
    requires PreparedTo(cfg, w, sel, clean, changes, keys, |TICKERS|)
    requires DistinctStorage(cfg, cfg.requested) && (sel.One? ==> sel.chain in cfg.requested)
    ensures Preparable(cfg, w, sel, Some(clean)) <==> changes != []
    ensures RenewsSelected(cfg, w, sel, clean, changes)
  {
    assert Unfolded(true);
    forall c: Chain ensures c in TICKERS[..|TICKERS|] {
      AllDone(c);
    }
    NothingSelected(cfg, w, sel, clean, changes, TICKERS[..|TICKERS|]);
  }

  lemma PreparedAtEnd(cfg: Config, w: World, sel: Selection, id: Id, clean: Clean, changes: seq<FileChange>, keys: seq<RedisChange>)
    requires PreparedTo(cfg, w, sel, clean, changes, keys, |TICKERS|) && changes != []
    requires sel.One? ==> sel.chain in cfg.requested
    ensures Prepared(cfg, w, sel, id, Journal(id, sel, changes, keys))
  {
    assert Unfolded(true);
    forall c: Chain ensures c in TICKERS[..|TICKERS|] {
      AllDone(c);
    }
    JournalIsPrepared(cfg, w, sel, id, clean, changes, keys, TICKERS[..|TICKERS|]);
  }

  lemma AllArchived(cfg: Config, w: World, sel: Selection, id: Id, j: Journal)
    requires Prepared(cfg, w, sel, id, j)
    ensures forall k :: k in w.redis && Selects(cfg, sel, k.chain) && (k.chain.Ethereum? || k.chain.Solana? || k.chain.Base?) ==>
              cfg.inRedis(k.chain) ==> Archives(j, k, w.redis[k])
  {
    forall k | k in w.redis && Selects(cfg, sel, k.chain)
               && (k.chain.Ethereum? || k.chain.Solana? || k.chain.Base?) && cfg.inRedis(k.chain)
      ensures Archives(j, k, w.redis[k])
    {
      PreparedArchives(cfg, w, sel, id, j, k);
    }
  }

  ghost predicate RenewsSelected(cfg: Config, w: World, sel: Selection, clean: Clean, changes: seq<FileChange>) {
    forall c :: Selects(cfg, sel, c) ==> RenewsChain(cfg, w, changes, c, clean(c))
  }

  class Maintenance {
    const cfg: Config
    var files: map<Path, Content>
    var redis: map<Key, Bytes>
    var manifests: map<Id, Journal>
    var pending: Option<Id>
    var receipts: set<Id>

    constructor (cfg: Config, w: World)
      ensures this.cfg == cfg && W() == w
    {
      this.cfg := cfg;
      files, redis, manifests, pending, receipts := w.files, w.redis, w.manifests, w.pending, w.receipts;
    }

    ghost function W(): World
      reads this
    {
      World(files, redis, manifests, pending, receipts)
    }

    // -------------------------------------------------------------------
    // prepare
    // -------------------------------------------------------------------

    /** `validate_storage_paths`. */
    method ValidateStoragePaths() returns (ok: bool)
      ensures ok <==> DistinctStorage(cfg, cfg.requested)
    {
      var paths: set<Path> := {};
      ghost var seen: set<Chain> := {};
      var t := 0;
      while t < |TICKERS|
        invariant t <= |TICKERS|
        invariant seen <= cfg.requested && forall c :: c in TICKERS[..t] && c in cfg.requested ==> c in seen
        invariant forall c :: c in seen ==> c in TICKERS[..t]
        invariant DistinctStorage(cfg, seen)
        invariant forall p :: p in paths <==> exists c :: c in seen && (p == cfg.stateFile(c) || p == SecondFile(cfg, c))
      {
        var c := TICKERS[t];
        assert TICKERS[..t + 1] == TICKERS[..t] + [c];
        if c in cfg.requested {
          var state, second := cfg.stateFile(c), SecondFile(cfg, c);
          assert c !in seen;
          if state in paths || second in paths || state == second {
            return false;
          }
          assert forall d :: d in seen ==> cfg.stateFile(d) in paths && SecondFile(cfg, d) in paths;
          paths := paths + {state, second};
          seen := seen + {c};
        }
        t := t + 1;
      }
      assert TICKERS[..t] == TICKERS;
      forall c | c in cfg.requested ensures c in seen { AllTickers(c); }
      assert seen == cfg.requested;
      return true;
    }

    /** `generation`. */
    method ReadGeneration(state: Path) returns (r: Option<nat>)
      ensures r.Some? <==> ValidGeneration(Lookup(files, state + ".wallet-generation.json"))
      ensures r.Some? ==> r.value == GenerationOf(Lookup(files, state + ".wallet-generation.json"))
    {
      var path := GenerationPath(state);
      if path !in files {
        return Some(0);
      }
      match files[path]
      case Data(_) => return None;
      case Generation(version, g) =>
        if version != 1 || g == 0 || g >= MAX_GENERATION {
          return None;
        }
        return Some(g);
    }

    /** `add_file`. */
    method AddFile(changes: seq<FileChange>, path: Path, after: Content) returns (r: Option<seq<FileChange>>)
      requires DistinctPaths(changes)
      ensures r.None? <==> exists f :: f in changes && f.path == path
      ensures r.Some? ==> r.value == changes + [FileChange(path, Lookup(files, path), after)] && DistinctPaths(r.value)
    {
      if exists f :: f in changes && f.path == path {
        return None;
      }
      return Some(changes + [FileChange(path, Lookup(files, path), after)]);
    }

    /** `snapshot_redis`. */
    method SnapshotRedis(c: Chain) returns (r: RedisChange)
      ensures r.chain == c && WellFormedChange(r)
      ensures forall k :: k in r.keys ==> Lookup(redis, k.key) == Some(k.dump)
      ensures forall k :: k in redis && k.chain == c ==> Archived(r, k)
    {
      var found := set k | k in redis && k.chain == c;
      var keys: seq<RedisKey> := [];
      while found != {}
        invariant forall k :: k in found ==> k in redis && k.chain == c
        invariant WellFormedChange(RedisChange(c, keys))
        invariant forall i :: 0 <= i < |keys| ==> keys[i].key !in found && Lookup(redis, keys[i].key) == Some(keys[i].dump)
        invariant forall k :: k in redis && k.chain == c ==> k in found || Archived(RedisChange(c, keys), k)
        decreases found
      {
        var k :| k in found;
        ghost var before := RedisChange(c, keys);
        keys := keys + [RedisKey(k, redis[k])];
        found := found - {k};
        forall x | x in redis && x.chain == c && x !in found ensures Archived(RedisChange(c, keys), x) {
          if Archived(before, x) {
            var i :| 0 <= i < |before.keys| && before.keys[i].key == x;
            assert keys[i].key == x;
          } else {
            assert keys[|keys| - 1].key == x;
          }
        }
      }
      return RedisChange(c, keys);
    }

    /** The two files of one chain. */
    method AddChain(changes: seq<FileChange>, c: Chain, clean: (Content, Content)) returns (r: Option<seq<FileChange>>)
      requires c in cfg.requested && DistinctPaths(changes) && DistinctStorage(cfg, cfg.requested)
      requires forall f :: f in changes ==> f.path != cfg.stateFile(c) && f.path != SecondFile(cfg, c)
      ensures r.Some? <==> MayRenew(cfg, W(), c)
      ensures r.Some? ==>
        && DistinctPaths(r.value) && |r.value| == |changes| + 2 && r.value[..|changes|] == changes
        && (forall f :: f in r.value[|changes|..] ==> GoodFile(cfg, W(), f, c))
        && RenewsChain(cfg, W(), r.value, c, clean)
    {
      var state, second := cfg.stateFile(c), SecondFile(cfg, c);
      if HasGeneration(c) {
        var g := ReadGeneration(state);
        if g.None? || g.value + 1 >= MAX_GENERATION {
          return None;
        }
        r := AddTwo(changes, c, second, Generation(1, g.value + 1), state, clean.0);
      } else {
        r := AddTwo(changes, c, state, clean.0, second, clean.1);
      }
    }

    method AddTwo(changes: seq<FileChange>, ghost c: Chain, p1: Path, c1: Content, p2: Path, c2: Content) returns (r: Option<seq<FileChange>>)
      requires DistinctPaths(changes) && p1 != p2 && forall f :: f in changes ==> f.path != p1 && f.path != p2
      requires forall f: FileChange :: f.path == p1 && f.before == Lookup(files, p1) && f.after == c1 ==> GoodFile(cfg, W(), f, c)
      requires forall f: FileChange :: f.path == p2 && f.before == Lookup(files, p2) && f.after == c2 ==> GoodFile(cfg, W(), f, c)
      ensures r.Some? && DistinctPaths(r.value) && |r.value| == |changes| + 2 && r.value[..|changes|] == changes
      ensures forall f :: f in r.value[|changes|..] ==> GoodFile(cfg, W(), f, c)
      ensures Renews(r.value, p1, c1) && Renews(r.value, p2, c2)
    {
      var one := AddFile(changes, p1, c1);
      if one.None? { return None; }
      r := AddFile(one.value, p2, c2);
      if r.None? { return; }
      assert r.value == changes + r.value[|changes|..];
      assert r.value[..|r.value| - 1] == one.value;
    }

    /** The files of the next chain, if it is selected. */
    method PrepareFiles(sel: Selection, c: Chain, clean: Clean, changes: seq<FileChange>, ghost done: seq<Chain>)
      returns (r: Option<seq<FileChange>>)
      requires DistinctStorage(cfg, cfg.requested) && (sel.One? ==> sel.chain in cfg.requested) && c !in done
      requires FilesSoFar(cfg, W(), sel, clean, changes, done)
      ensures r.Some? <==> Selects(cfg, sel, c) ==> MayRenew(cfg, W(), c)
      ensures r.Some? ==> FilesSoFar(cfg, W(), sel, clean, r.value, done + [c])
    {
      if (sel.All? && c in cfg.requested) || sel == One(c) {
        NotYetThere(cfg, W(), sel, clean, changes, done, c);
        r := AddChain(changes, c, clean(c));
        if r.Some? {
          FilesExtended(cfg, W(), sel, clean, changes, r.value, done, c);
        }
      } else {
        assert !Selects(cfg, sel, c);
        r := Some(changes);
      }
    }

    /** The Redis keys of the next chain, if it is selected and uses Redis. */
    method PrepareKeys(sel: Selection, c: Chain, keys: seq<RedisChange>, ghost done: seq<Chain>)
      returns (r: seq<RedisChange>)
      requires KeysSoFar(cfg, W(), sel, keys, done) && c !in done
      ensures KeysSoFar(cfg, W(), sel, r, done + [c])
    {
      r := keys;
      if ((sel.All? && c in cfg.requested) || sel == One(c)) && !HasGeneration(c) && cfg.inRedis(c) {
        var snapshot := SnapshotRedis(c);
        assert GoodSnapshot(cfg, W(), sel, snapshot);
        r := keys + [snapshot];
      }
    }

    /** One turn of the loop of `prepare`. */
    method PrepareNext(sel: Selection, clean: Clean, changes: seq<FileChange>, keys: seq<RedisChange>, t: nat)
      returns (r: Option<seq<FileChange>>, r': seq<RedisChange>)
      requires DistinctStorage(cfg, cfg.requested) && (sel.One? ==> sel.chain in cfg.requested)
      requires PreparedTo(cfg, W(), sel, clean, changes, keys, t) && t < |TICKERS|
      ensures r.Some? ==> PreparedTo(cfg, W(), sel, clean, r.value, r', t + 1)
      ensures r.None? ==> !Preparable(cfg, W(), sel, Some(clean))
    {
      assert Unfolded(true);
      ghost var done := TICKERS[..t];
      var c := TICKERS[t];
      assert TICKERS[..t + 1] == done + [c] && c !in done;
      r' := keys;
      r := PrepareFiles(sel, c, clean, changes, done);
      if r.Some? {
        r' := PrepareKeys(sel, c, keys, done);
      }
    }

    /** `prepare`. clean is missing if a tip or a wallet could not be had. */
    method PrepareJournal(sel: Selection, id: Id, clean: Option<Clean>) returns (r: Option<Journal>)
      ensures r.Some? <==> Preparable(cfg, W(), sel, clean)
      ensures r.Some? ==> Prepared(cfg, W(), sel, id, r.value) && RenewsSelected(cfg, W(), sel, clean.value, r.value.files)
      ensures r.Some? ==> forall k :: k in redis && Selects(cfg, sel, k.chain) && (k.chain.Ethereum? || k.chain.Solana? || k.chain.Base?) ==>
                            cfg.inRedis(k.chain) ==> Archives(r.value, k, redis[k])
    {
      var valid := ValidateStoragePaths();
      if !valid || clean.None? { return None; }
      if sel.One? && sel.chain !in cfg.requested {
        assert Selects(cfg, sel, sel.chain);
        return None;
      }
      var changes: seq<FileChange> := [];
      var keys: seq<RedisChange> := [];
      var t := 0;
      while t < |TICKERS|
        invariant t <= |TICKERS| && PreparedTo(cfg, W(), sel, clean.value, changes, keys, t)
      {
        var added;
        added, keys := PrepareNext(sel, clean.value, changes, keys, t);
        if added.None? { return None; }
        changes := added.value;
        t := t + 1;
      }
      PreparedIfPreparable(cfg, W(), sel, clean.value, changes, keys);
      if changes == [] { return None; }
      PreparedAtEnd(cfg, W(), sel, id, clean.value, changes, keys);
      AllArchived(cfg, W(), sel, id, Journal(id, sel, changes, keys));
      return Some(Journal(id, sel, changes, keys));
    }

    // -------------------------------------------------------------------
    // commit
    // -------------------------------------------------------------------

    /** The first loop of `commit`: refuse a file that someone else has changed. */
    method CheckFiles(fs: seq<FileChange>, ghost p: seq<Instr>, ghost later: seq<Instr>, ghost w0: World)
      returns (ok: bool, ghost k: nat)
      requires CommitAt(p, 0, Checks(fs) + later, w0, W())
      ensures Goes(ok, p, k, later, w0, W())
    {
      k := 0;
      var i := 0;
      assert fs[0..] == fs;
      while i < |fs|
        invariant k == i <= |fs| && CommitAt(p, k, Checks(fs[i..]) + later, w0, W())
      {
        NextCheck(p, k, w0, W(), fs, i, later);
        var f := fs[i];
        var current := Lookup(files, f.path);
        if current != f.before && current != Some(f.after) {
          return false, k;
        }
        i, k := i + 1, k + 1;
      }
      assert Checks(fs[i..]) + later == later;
      return true, k;
    }

    /** The compare-and-delete script, atomic in Redis. */
    method CompareAndDelete(key: RedisKey) returns (ok: bool)
      modifies this
      ensures ok <==> Passes(Delete(key), old(W()))
      ensures W() == if ok then Effect(Delete(key), old(W())) else old(W())
    {
      if key.key in redis && redis[key.key] != key.dump {
        return false;
      }
      redis := redis - {key.key};
      return true;
    }

    /** The compare-and-delete loop over one chain's keys. */
    method DeleteKeys(ks: seq<RedisKey>, ghost p: seq<Instr>, ghost from: nat, ghost later: seq<Instr>, ghost w0: World)
      returns (ok: bool, ghost k: nat)
      requires CommitAt(p, from, Deletes(ks) + later, w0, W())
      modifies this
      ensures Goes(ok, p, k, later, w0, W())
    {
      k := from;
      var n := 0;
      assert ks[0..] == ks;
      while n < |ks|
        invariant n <= |ks| && CommitAt(p, k, Deletes(ks[n..]) + later, w0, W())
      {
        NextDelete(p, k, w0, W(), ks, n, later);
        ok := CompareAndDelete(ks[n]);
        if !ok {
          return false, k;
        }
        n, k := n + 1, k + 1;
      }
      assert Deletes(ks[n..]) + later == later;
      return true, k;
    }

    /** One Redis store: refuse keys that are not archived, then delete those that are. */
    method ClearChain(c: RedisChange, ghost p: seq<Instr>, ghost from: nat, ghost later: seq<Instr>, ghost w0: World)
      returns (ok: bool, ghost k: nat)
      requires CommitAt(p, from, [Scan(c)] + (Deletes(c.keys) + later), w0, W())
      modifies this
      ensures Goes(ok, p, k, later, w0, W())
    {
      Next(p, from, w0, W(), Scan(c), Deletes(c.keys) + later);
      if exists key :: key in redis && key.chain == c.chain && !Archived(c, key) {
        return false, from;
      }
      ok, k := DeleteKeys(c.keys, p, from + 1, later, w0);
    }

    /** The loop over the Redis stores. */
    method ClearRedis(cs: seq<RedisChange>, ghost p: seq<Instr>, ghost from: nat, ghost later: seq<Instr>, ghost w0: World)
      returns (ok: bool, ghost k: nat)
      requires CommitAt(p, from, ChangeProgram(cs) + later, w0, W())
      modifies this
      ensures Goes(ok, p, k, later, w0, W())
    {
      k := from;
      var i := 0;
      assert cs[0..] == cs;
      while i < |cs|
        invariant i <= |cs| && CommitAt(p, k, ChangeProgram(cs[i..]) + later, w0, W())
      {
        FirstChange(cs, i, later);
        ok, k := ClearChain(cs[i], p, k, ChangeProgram(cs[i + 1..]) + later, w0);
        if !ok {
          return false, k;
        }
        i := i + 1;
      }
      assert ChangeProgram(cs[i..]) + later == later;
      return true, k;
    }

    /** The last loop of `commit`. */
    method WriteFiles(fs: seq<FileChange>, ghost p: seq<Instr>, ghost from: nat, ghost w0: World)
      requires CommitAt(p, from, Writes(fs), w0, W())
      modifies this
      ensures Exec(p, w0) == Some(W())
    {
      ghost var k: nat := from;
      var i := 0;
      assert fs[0..] == fs;
      while i < |fs|
        invariant i <= |fs| && CommitAt(p, k, Writes(fs[i..]), w0, W())
      {
        NextWrite(p, k, w0, W(), fs, i);
        files := files[fs[i].path := fs[i].after];
        i, k := i + 1, k + 1;
      }
      CommitEnds(p, k, w0, W());
    }

    /** `commit`. Configuration and keys may have changed since the archive was made;
        otherwise the outcome depends on the durable state alone. */
    method Commit(j: Journal, sameConfig: bool) returns (ok: bool)
      requires WellFormed(j)
      modifies this
      ensures ok <==> sameConfig && Committable(j, old(W()))
      ensures ok ==> Exec(Program(j), old(W())) == Some(W())
      ensures !ok ==> exists k :: 0 <= k <= |Program(j)| && Exec(Program(j)[..k], old(W())) == Some(W())
    {
      ghost var w0, p := W(), Program(j);
      assert p[..0] == [];
      if !sameConfig {
        return false;
      }
      CommitStarts(j, w0);
      CommitSucceedsIff(j, w0);
      ghost var k;
      ok, k := CheckFiles(j.files, p, ChangeProgram(j.redis) + Writes(j.files), w0);
      if !ok {
        return false;
      }
      ok, k := ClearRedis(j.redis, p, k, Writes(j.files), w0);
      if !ok {
        return false;
      }
      WriteFiles(j.files, p, k, w0);
      return true;
    }

    // -------------------------------------------------------------------
    // execute_at
    // -------------------------------------------------------------------

    /** The check of an operation ID. */
    method ValidateId(id: Id) returns (ok: bool)
      ensures ok <==> ValidId(id)
    {
      if |id| < 12 || |id| > 64 {
        return false;
      }
      var i := 0;
      while i < |id|
        invariant i <= |id| && forall k :: 0 <= k < i ==> IsHexDigit(id[k])
      {
        if !IsHexDigit(id[i]) {
          return false;
        }
        i := i + 1;
      }
      return true;
    }

    /** `execute_at` under the exclusive lock. The trace names the protocol events it
        went through, so whatever holds in every run of the protocol holds at each of
        its durable actions. */
    method ExecuteAt(sel: Selection, id: Id, clean: Option<Clean>, sameConfig: bool, ghost s0: State)
      returns (ok: bool, ghost trace: seq<Event>)
      requires Inv(cfg, s0) && s0.world == W() && s0.reset.None? && s0.guards == map[]
      modifies this
      ensures Legal(cfg, s0, trace) && Run(cfg, s0, trace).world == W() && Run(cfg, s0, trace).reset.None?
      ensures old(id in receipts) ==> files == old(files) && redis == old(redis) && receipts == old(receipts)
      ensures ok ==> pending.None?
      ensures old(id in manifests) ==>
        (ok <==> ValidId(id) && (old(pending).None? || old(pending) == Some(id)) && old(manifests[id]).selection == sel
                 && (old(id in receipts) || (sameConfig && Committable(old(manifests[id]), old(W())))))
      ensures old(id !in manifests) ==>
        (ok <==> ValidId(id) && old(pending).None? && Preparable(cfg, old(W()), sel, clean) && sameConfig)
      ensures old(id !in manifests) && ok ==> id in manifests && Prepared(cfg, old(W()), sel, id, manifests[id])
      ensures old(id !in receipts) && ok ==>
        && id in manifests && id in receipts && pending.None?
        && files == After(Program(manifests[id]), old(W())).files
        && redis == After(Program(manifests[id]), old(W())).redis
        && Finished(cfg, sel, manifests[id], W())
      ensures old(id !in receipts) && ok ==> NoneAssigned(cfg, sel, W())
    {
      trace := [];
      ok := false;
      var valid := ValidateId(id);
      if !valid {
        return;
      }
      trace := Extend(cfg, s0, trace, Lock(sel, id));
      if pending.Some? && pending.value != id {
        trace := Extend(cfg, s0, trace, Release);
        return;
      }
      if id in receipts {
        ok, trace := RecogniseReset(sel, id, s0, trace);
        return;
      }
      ok, trace := FindAndComplete(sel, id, clean, sameConfig, s0, trace);
    }

    /** An operation without a receipt: find its journal, and complete it. */
    method FindAndComplete(sel: Selection, id: Id, clean: Option<Clean>, sameConfig: bool, ghost s0: State, ghost before: seq<Event>)
      returns (ok: bool, ghost trace: seq<Event>)
      requires Inv(cfg, s0) && Legal(cfg, s0, before) && Run(cfg, s0, before).world == W()
      requires Run(cfg, s0, before).reset == Some(Proc(sel, id, Locked))
      requires id !in receipts && (pending.None? || pending == Some(id))
      modifies this
      ensures Legal(cfg, s0, trace) && Run(cfg, s0, trace).world == W() && Run(cfg, s0, trace).reset.None?
      ensures old(id in manifests) ==>
        (ok <==> old(manifests[id]).selection == sel && sameConfig && Committable(old(manifests[id]), old(W())))
      ensures old(id !in manifests) ==> (ok <==> old(pending).None? && Preparable(cfg, old(W()), sel, clean) && sameConfig)
      ensures old(id !in manifests) && ok ==> id in manifests && Prepared(cfg, old(W()), sel, id, manifests[id])
      ensures ok ==>
        && id in manifests && id in receipts && pending.None?
        && files == After(Program(manifests[id]), old(W())).files
        && redis == After(Program(manifests[id]), old(W())).redis
        && Finished(cfg, sel, manifests[id], W())
    {
      var found;
      found, trace := FindJournal(sel, id, clean, s0, before);
      if found.None? {
        trace := Extend(cfg, s0, trace, Release);
        return false, trace;
      }
      SameVerdict(found.value, old(W()), W());
      ok, trace := CompleteReset(found.value, sameConfig, s0, trace);
    }

    /** An operation with a receipt: nothing but its marker is left to remove. */
    method RecogniseReset(sel: Selection, id: Id, ghost s0: State, ghost before: seq<Event>) returns (ok: bool, ghost trace: seq<Event>)
      requires Inv(cfg, s0) && Legal(cfg, s0, before) && Run(cfg, s0, before).world == W()
      requires Run(cfg, s0, before).reset == Some(Proc(sel, id, Locked))
      requires id in receipts && id in manifests && (pending.None? || pending == Some(id))
      modifies this`pending
      ensures Legal(cfg, s0, trace) && Run(cfg, s0, trace).world == W() && Run(cfg, s0, trace).reset.None?
      ensures ok <==> manifests[id].selection == sel
      ensures ok ==> pending.None?
    {
      trace := before;
      ok := manifests[id].selection == sel;
      if ok {
        trace := Extend(cfg, s0, trace, Recognise);
        trace := ClearMarker(manifests[id], s0, trace);
      } else {
        trace := Extend(cfg, s0, trace, Release);
      }
    }

    /** The end of a completed operation: its marker goes. */
    method ClearMarker(ghost j: Journal, ghost s0: State, ghost before: seq<Event>) returns (ghost trace: seq<Event>)
      requires Legal(cfg, s0, before) && Run(cfg, s0, before).world == W()
      requires var r := Run(cfg, s0, before).reset; r.Some? && r.value.stage == Clearing(j)
      modifies this`pending
      ensures Legal(cfg, s0, trace) && Run(cfg, s0, trace).world == W() && Run(cfg, s0, trace).reset.None?
      ensures pending.None?
    {
      pending := None;
      trace := Extend(cfg, s0, before, Clear);
      trace := Extend(cfg, s0, trace, Release);
    }

    /** Marker, commit, receipt, and removal of the marker. */
    method CompleteReset(j: Journal, sameConfig: bool, ghost s0: State, ghost before: seq<Event>)
      returns (ok: bool, ghost trace: seq<Event>)
      requires Legal(cfg, s0, before) && Run(cfg, s0, before).world == W() && GoodJournal(cfg, j)
      requires var r := Run(cfg, s0, before).reset; r.Some? && r.value.id == j.id && r.value.stage == Marking(j)
      modifies this
      ensures Legal(cfg, s0, trace) && Run(cfg, s0, trace).world == W() && Run(cfg, s0, trace).reset.None?
      ensures ok <==> sameConfig && Committable(j, old(W()))
      ensures ok ==> Finished(cfg, j.selection, j, W())
      ensures ok ==>
        && receipts == old(receipts) + {j.id} && pending.None? && manifests == old(manifests)
        && files == After(Program(j), old(W())).files && redis == After(Program(j), old(W())).redis
    {
      ghost var w1 := W();
      pending := Some(j.id);
      trace := Extend(cfg, s0, before, Mark);
      ghost var w2 := W();
      SameVerdict(j, w1, w2);
      ok := Commit(j, sameConfig);
      if !ok {
        ghost var k :| 0 <= k <= |Program(j)| && Exec(Program(j)[..k], w2) == Some(W());
        trace := DoTrace(cfg, s0, trace, j, k, W());
        trace := Extend(cfg, s0, trace, Release);
        return;
      }
      assert Program(j)[..|Program(j)|] == Program(j);
      trace := DoTrace(cfg, s0, trace, j, |Program(j)|, W());
      ExecIsAfter(Program(j), w2);
      trace := SealReset(j, s0, trace);
      AfterIsFinished(cfg, j, w1, W());
    }

    /** Receipt, and removal of the marker. */
    method SealReset(j: Journal, ghost s0: State, ghost before: seq<Event>) returns (ghost trace: seq<Event>)
      requires Legal(cfg, s0, before) && Run(cfg, s0, before).world == W()
      requires var r := Run(cfg, s0, before).reset; r.Some? && r.value.id == j.id && r.value.stage == Committing(j, |Program(j)|)
      modifies this`receipts, this`pending
      ensures Legal(cfg, s0, trace) && Run(cfg, s0, trace).world == W() && Run(cfg, s0, trace).reset.None?
      ensures receipts == old(receipts) + {j.id} && pending.None?
    {
      receipts := receipts + {j.id};
      trace := Extend(cfg, s0, before, Seal);
      trace := ClearMarker(j, s0, trace);
    }

    /** The journal of the operation: the archived one, or a new one made durable. */
    method FindJournal(sel: Selection, id: Id, clean: Option<Clean>, ghost s0: State, ghost before: seq<Event>)
      returns (r: Option<Journal>, ghost trace: seq<Event>)
      requires Inv(cfg, s0) && Legal(cfg, s0, before) && Run(cfg, s0, before).world == W()
      requires Run(cfg, s0, before).reset == Some(Proc(sel, id, Locked))
      requires id !in receipts && (pending.None? || pending == Some(id))
      modifies this
      ensures Legal(cfg, s0, trace) && Run(cfg, s0, trace).world == W() && Run(cfg, s0, trace).reset.Some?
      ensures r.Some? ==> Run(cfg, s0, trace).reset == Some(Proc(sel, id, Marking(r.value)))
      ensures r.Some? ==> GoodJournal(cfg, r.value) && r.value.id == id && r.value.selection == sel && Lookup(manifests, id) == r
      ensures old(id !in manifests) ==> (r.Some? <==> old(pending).None? && Preparable(cfg, old(W()), sel, clean))
      ensures old(id !in manifests) && r.Some? ==> Committable(r.value, old(W()))
      ensures old(id in manifests) ==> W() == old(W()) && r == if manifests[id].selection == sel then Some(manifests[id]) else None
      ensures old(id !in manifests) && r.Some? ==>
        Prepared(cfg, old(W()), sel, id, r.value) && W() == old(W()).(manifests := old(manifests)[id := r.value])
      ensures r.None? ==> W() == old(W())
    {
      InvRun(cfg, s0, before);
      trace := before;
      if id in manifests {
        if manifests[id].selection != sel {
          return None, trace;
        }
        trace := Extend(cfg, s0, trace, Reuse);
        return Some(manifests[id]), trace;
      }
      if pending.Some? {
        return None, trace;
      }
      r := PrepareJournal(sel, id, clean);
      if r.Some? {
        PreparedIsCommittable(cfg, W(), sel, id, r.value);
        manifests := manifests[id := r.value];
        trace := Extend(cfg, s0, trace, Prepare(r.value));
        InvRun(cfg, s0, trace);
      }
    }
  }

  lemma Extend(cfg: Config, s0: State, es: seq<Event>, e: Event) returns (es': seq<Event>)
    requires Legal(cfg, s0, es) && Enabled(cfg, Run(cfg, s0, es), e)
    ensures es' == es + [e] && Legal(cfg, s0, es') && Run(cfg, s0, es') == Apply(cfg, Run(cfg, s0, es), e)
  {
    es' := es + [e];
    assert es'[..|es|] == es;
  }

  lemma AfterIsFinished(cfg: Config, j: Journal, w0: World, w: World)
    requires GoodJournal(cfg, j) && Committable(j, w0)
    requires w.files == After(Program(j), w0).files && w.redis == After(Program(j), w0).redis
    ensures Finished(cfg, j.selection, j, w)
  {
    CommitOutcome(j, w0);
    forall c, k: Key | c in j.redis && k in w.redis ensures k.chain != c.chain {
    }
    NoneLeft(cfg, j, w);
  }

  lemma LastInstruction(j: Journal, k: nat, w0: World, w: World) returns (w1: World)
    requires 0 < k <= |Program(j)| && Exec(Program(j)[..k], w0) == Some(w)
    ensures Exec(Program(j)[..k - 1], w0) == Some(w1) && Passes(Program(j)[k - 1], w1) && w == Effect(Program(j)[k - 1], w1)
  {
    assert Program(j)[..k][..k - 1] == Program(j)[..k - 1] && Program(j)[..k][k - 1] == Program(j)[k - 1];
    w1 := Exec(Program(j)[..k - 1], w0).value;
  }

  lemma DoOne(cfg: Config, s: State, j: Journal, k: nat)
    requires k < |Program(j)| && Passes(Program(j)[k], s.world)
    requires s.reset.Some? && s.reset.value.stage == Committing(j, k)
    ensures Enabled(cfg, s, Do)
    ensures var s' := Apply(cfg, s, Do);
            && s'.world == Effect(Program(j)[k], s.world) && s'.guards == s.guards
            && s'.reset == Some(s.reset.value.(stage := Committing(j, k + 1)))
  {
  }

  /** A prefix of the commit, as protocol events. */
  lemma {:induction false} DoTrace(cfg: Config, s0: State, es: seq<Event>, j: Journal, k: nat, w: World)
    returns (es': seq<Event>)
    requires Legal(cfg, s0, es) && k <= |Program(j)|
    requires var s := Run(cfg, s0, es);
             s.reset.Some? && s.reset.value.stage == Committing(j, 0) && Exec(Program(j)[..k], s.world) == Some(w)
    ensures Legal(cfg, s0, es')
    ensures var s, s' := Run(cfg, s0, es), Run(cfg, s0, es');
            s'.world == w && s'.guards == s.guards && s'.reset == Some(s.reset.value.(stage := Committing(j, k)))
    decreases k
  {
    if k == 0 {
      es' := es;
    } else {
      var w1 := LastInstruction(j, k, Run(cfg, s0, es).world, w);
      es' := DoTrace(cfg, s0, es, j, k - 1, w1);
      DoOne(cfg, Run(cfg, s0, es'), j, k - 1);
      es' := Extend(cfg, s0, es', Do);
    }
  }

  /** The marker and the archive do not enter the verdict of a commit. */
  lemma SameVerdict(j: Journal, w1: World, w2: World)
    requires w1.files == w2.files && w1.redis == w2.redis
    ensures Committable(j, w1) <==> Committable(j, w2)
    ensures After(Program(j), w1).files == After(Program(j), w2).files
    ensures After(Program(j), w1).redis == After(Program(j), w2).redis
  {
    assert forall i :: 0 <= i < |Program(j)| ==> Passes(Program(j)[i], w1) == Passes(Program(j)[i], w2);
  }

  /** The commit p, begun in w0, has got to w; rest is still to be done. */
  ghost predicate CommitAt(p: seq<Instr>, k: nat, rest: seq<Instr>, w0: World, w: World) {
    forall here :: Unfolded(here) ==> Orderly(p) && k <= |p| && p[k..] == rest && Exec(p[..k], w0) == Some(w)
  }

  /** The commit goes on with rest, or stops at an instruction that refuses. */
  ghost predicate Goes(ok: bool, p: seq<Instr>, k: nat, rest: seq<Instr>, w0: World, w: World) {
    if ok then CommitAt(p, k, rest, w0, w) else k < |p| && !Passes(p[k], w0) && Exec(p[..k], w0) == Some(w)
  }

  lemma CommitStarts(j: Journal, w: World)
    requires WellFormed(j)
    ensures CommitAt(Program(j), 0, Checks(j.files) + (ChangeProgram(j.redis) + Writes(j.files)), w, w)
  {
    ProgramOrderly(j);
    assert Program(j)[..0] == [] && Program(j)[0..] == Program(j);
  }

  lemma CommitEnds(p: seq<Instr>, k: nat, w0: World, w: World)
    requires CommitAt(p, k, [], w0, w)
    ensures Exec(p, w0) == Some(w)
  {
    assert Unfolded(true);
    assert p[..k] == p;
  }

  /** The next instruction of a running commit: if it passes, the run goes on; if it
      refuses, it would have refused from the start. */
  lemma Next(p: seq<Instr>, k: nat, w0: World, w: World, i: Instr, later: seq<Instr>)
    requires CommitAt(p, k, [i] + later, w0, w)
    ensures if Passes(i, w) then CommitAt(p, k + 1, later, w0, Effect(i, w)) else Goes(false, p, k, later, w0, w)
  {
    assert Unfolded(true);
    assert p[k] == p[k..][0] && p[k + 1..] == p[k..][1..];
    assert p[..k + 1][..k] == p[..k];
    ExecIsAfter(p[..k], w0);
    VerdictIsStable(p, k, w0);
  }

  lemma NextCheck(p: seq<Instr>, k: nat, w0: World, w: World, fs: seq<FileChange>, n: nat, later: seq<Instr>)
    requires n < |fs| && CommitAt(p, k, Checks(fs[n..]) + later, w0, w)
    ensures if Passes(Check(fs[n]), w) then CommitAt(p, k + 1, Checks(fs[n + 1..]) + later, w0, w) else Goes(false, p, k, later, w0, w)
  {
    assert Checks(fs[n..]) == [Check(fs[n])] + Checks(fs[n + 1..]);
    assert Checks(fs[n..]) + later == [Check(fs[n])] + (Checks(fs[n + 1..]) + later);
    Next(p, k, w0, w, Check(fs[n]), Checks(fs[n + 1..]) + later);
  }

  lemma NextDelete(p: seq<Instr>, k: nat, w0: World, w: World, ks: seq<RedisKey>, n: nat, later: seq<Instr>)
    requires n < |ks| && CommitAt(p, k, Deletes(ks[n..]) + later, w0, w)
    ensures var i := Delete(ks[n]);
      if Passes(i, w) then CommitAt(p, k + 1, Deletes(ks[n + 1..]) + later, w0, Effect(i, w)) else Goes(false, p, k, later, w0, w)
  {
    assert Deletes(ks[n..]) == [Delete(ks[n])] + Deletes(ks[n + 1..]);
    assert Deletes(ks[n..]) + later == [Delete(ks[n])] + (Deletes(ks[n + 1..]) + later);
    Next(p, k, w0, w, Delete(ks[n]), Deletes(ks[n + 1..]) + later);
  }

  lemma FirstChange(cs: seq<RedisChange>, n: nat, later: seq<Instr>)
    requires n < |cs|
    ensures ChangeProgram(cs[n..]) + later == [Scan(cs[n])] + (Deletes(cs[n].keys) + (ChangeProgram(cs[n + 1..]) + later))
  {
    assert cs[n..][0] == cs[n] && cs[n..][1..] == cs[n + 1..];
  }

  lemma NextWrite(p: seq<Instr>, k: nat, w0: World, w: World, fs: seq<FileChange>, n: nat)
    requires n < |fs| && CommitAt(p, k, Writes(fs[n..]), w0, w)
    ensures CommitAt(p, k + 1, Writes(fs[n + 1..]), w0, Effect(Write(fs[n]), w))
  {
    assert Writes(fs[n..]) == [Write(fs[n])] + Writes(fs[n + 1..]);
    Next(p, k, w0, w, Write(fs[n]), Writes(fs[n + 1..]));
  }
}
