/** The data of a journaled wallet reset (src/reset.rs) and the meaning of its commit:
    the journal read as a program of checks, deletes and writes. */
module ResetJournal {
  import opened Common

  type Id = string
  type Path = string

  /** What a file holds, as far as the reset reads it. */
  datatype Content = Generation(version: nat, generation: nat) | Data(bytes: Bytes)

  /** A Redis key; the chain stands for the key prefixes that belong to it. */
  datatype Key = Key(chain: Chain, name: string)

  datatype Selection = All | One(chain: Chain)

  datatype FileChange = FileChange(path: Path, before: Option<Content>, after: Content)

  datatype RedisKey = RedisKey(key: Key, dump: Bytes)

  datatype RedisChange = RedisChange(chain: Chain, keys: seq<RedisKey>)

  datatype Journal = Journal(id: Id, selection: Selection, files: seq<FileChange>, redis: seq<RedisChange>)

  /** The durable state: the files and Redis keys a reset may touch, the archive of
      manifests, the pending marker and the receipts. */
  datatype World = World(
    files: map<Path, Content>,
    redis: map<Key, Bytes>,
    manifests: map<Id, Journal>,
    pending: Option<Id>,
    receipts: set<Id>)

  function Lookup<K, V>(m: map<K, V>, k: K): Option<V> {
    if k in m then Some(m[k]) else None
  }

  // ---------------------------------------------------------------------
  // Well-formed journals
  // ---------------------------------------------------------------------

  predicate Archived(change: RedisChange, k: Key) {
    exists i :: 0 <= i < |change.keys| && change.keys[i].key == k
  }

  predicate DistinctPaths(files: seq<FileChange>) {
    forall i, j :: 0 <= i < j < |files| ==> files[i].path != files[j].path
  }

  predicate WellFormedChange(c: RedisChange) {
    && (forall i :: 0 <= i < |c.keys| ==> c.keys[i].key.chain == c.chain)
    && (forall i, j :: 0 <= i < j < |c.keys| ==> c.keys[i].key != c.keys[j].key)
  }

  predicate WellFormed(j: Journal) {
    && DistinctPaths(j.files)
    && (forall i :: 0 <= i < |j.redis| ==> WellFormedChange(j.redis[i]))
    && (forall i, k :: 0 <= i < k < |j.redis| ==> j.redis[i].chain != j.redis[k].chain)
  }

  // ---------------------------------------------------------------------
  // The commit as a program
  // ---------------------------------------------------------------------

  datatype Instr =
    | Check(file: FileChange)     // refuse a file that is neither before nor after
    | Scan(change: RedisChange)   // refuse a key that was not archived
    | Delete(key: RedisKey)       // compare-and-delete
    | Write(file: FileChange)

  function Checks(fs: seq<FileChange>): (p: seq<Instr>)
    ensures |p| == |fs| && forall i :: 0 <= i < |fs| ==> p[i] == Check(fs[i])
  {
    seq(|fs|, i requires 0 <= i < |fs| => Check(fs[i]))
  }

  function Writes(fs: seq<FileChange>): (p: seq<Instr>)
    ensures |p| == |fs| && forall i :: 0 <= i < |fs| ==> p[i] == Write(fs[i])
  {
    seq(|fs|, i requires 0 <= i < |fs| => Write(fs[i]))
  }

  function Deletes(ks: seq<RedisKey>): (p: seq<Instr>)
    ensures |p| == |ks| && forall i :: 0 <= i < |ks| ==> p[i] == Delete(ks[i])
  {
    seq(|ks|, i requires 0 <= i < |ks| => Delete(ks[i]))
  }

  function ChangeProgram(cs: seq<RedisChange>): seq<Instr> {
    if cs == [] then [] else [Scan(cs[0])] + (Deletes(cs[0].keys) + ChangeProgram(cs[1..]))
  }

  /** `commit`, in the order in which it acts. */
  function Program(j: Journal): seq<Instr> {
    Checks(j.files) + (ChangeProgram(j.redis) + Writes(j.files))
  }

  predicate Mutates(i: Instr) { i.Delete? || i.Write? }

  predicate Passes(i: Instr, w: World) {
    match i
    case Check(f) => Lookup(w.files, f.path) == f.before || Lookup(w.files, f.path) == Some(f.after)
    case Scan(c) => forall k :: k in w.redis && k.chain == c.chain ==> Archived(c, k)
    case Delete(k) => k.key in w.redis ==> w.redis[k.key] == k.dump
    case Write(_) => true
  }

  function Effect(i: Instr, w: World): World {
    match i
    case Delete(k) => w.(redis := w.redis - {k.key})
    case Write(f) => w.(files := w.files[f.path := f.after])
    case _ => w
  }

  /** Run a program from w; None when an instruction refuses. */
  function Exec(p: seq<Instr>, w: World): Option<World> {
    if p == [] then Some(w)
    else match Exec(p[..|p| - 1], w)
      case None => None
      case Some(w') => if Passes(p[|p| - 1], w') then Some(Effect(p[|p| - 1], w')) else None
  }

  // ---------------------------------------------------------------------
  // The world after a prefix, in closed form
  // ---------------------------------------------------------------------

  function Written(p: seq<Instr>): map<Path, Content> {
    if p == [] then map[]
    else
      var m := Written(p[..|p| - 1]);
      match p[|p| - 1]
      case Write(f) => m[f.path := f.after]
      case _ => m
  }

  function Deleted(p: seq<Instr>): set<Key> {
    if p == [] then {}
    else
      var s := Deleted(p[..|p| - 1]);
      match p[|p| - 1]
      case Delete(k) => s + {k.key}
      case _ => s
  }

  function After(p: seq<Instr>, w: World): World {
    w.(files := w.files + Written(p), redis := w.redis - Deleted(p))
  }

  lemma {:induction false} ExecIsAfter(p: seq<Instr>, w: World)
    ensures Exec(p, w).Some? ==> Exec(p, w).value == After(p, w)
  {
    if p != [] {
      var q, i := p[..|p| - 1], p[|p| - 1];
      ExecIsAfter(q, w);
      match i
      case Delete(k) => assert (w.redis - Deleted(q)) - {k.key} == w.redis - (Deleted(q) + {k.key});
      case Write(f) => assert (w.files + Written(q))[f.path := f.after] == w.files + Written(q)[f.path := f.after];
      case _ =>
    }
  }

  lemma {:induction false} WrittenAt(p: seq<Instr>, path: Path)
    ensures path in Written(p) ==> exists i :: 0 <= i < |p| && p[i].Write? && p[i].file.path == path && Written(p)[path] == p[i].file.after
    ensures path !in Written(p) ==> forall i :: 0 <= i < |p| && p[i].Write? ==> p[i].file.path != path
  {
    if p != [] {
      WrittenAt(p[..|p| - 1], path);
    }
  }

  lemma {:induction false} DeletedAt(p: seq<Instr>, k: Key)
    ensures k in Deleted(p) <==> exists i :: 0 <= i < |p| && p[i].Delete? && p[i].key.key == k
  {
    if p != [] {
      var q := p[..|p| - 1];
      DeletedAt(q, k);
      if k in Deleted(p) && k !in Deleted(q) {
        assert p[|p| - 1].Delete? && p[|p| - 1].key.key == k;
      }
      if i :| 0 <= i < |p| && p[i].Delete? && p[i].key.key == k {
        assert i < |q| ==> q[i] == p[i];
      }
    }
  }

  // ---------------------------------------------------------------------
  // Order facts of a commit program
  // ---------------------------------------------------------------------

  /** What holds of an instruction a and a later instruction b: no check follows a
      write, one change per path and per key, and a deleted key is archived under its
      chain's change. */
  predicate InOrder(a: Instr, b: Instr) {
    match (a, b)
    case (Write(_), Check(_)) => false
    case (Write(f), Write(g)) => f.path != g.path
    case (Check(f), Write(g)) => f.path == g.path ==> f == g
    case (Delete(x), Delete(y)) => x.key != y.key
    case (Delete(x), Scan(c)) => x.key.chain == c.chain ==> Archived(c, x.key)
    case (Scan(c), Delete(x)) => x.key.chain == c.chain ==> Archived(c, x.key)
    case _ => true
  }

  ghost predicate Orderly(p: seq<Instr>) {
    forall i, k :: 0 <= i < k < |p| ==> InOrder(p[i], p[k])
  }

  lemma OrderlyConcat(p: seq<Instr>, q: seq<Instr>)
    requires Orderly(p) && Orderly(q)
    requires forall i, k :: 0 <= i < |p| && 0 <= k < |q| ==> InOrder(p[i], q[k])
    ensures Orderly(p + q)
  {
  }

  /** The instruction belongs to one of the changes. */
  ghost predicate ChangeOf(i: Instr, cs: seq<RedisChange>) {
    exists c :: 0 <= c < |cs| && InChange(i, cs[c])
  }

  ghost predicate InChange(i: Instr, c: RedisChange) {
    match i
    case Scan(c') => c' == c
    case Delete(k) => k in c.keys && k.key.chain == c.chain
    case _ => false
  }

  lemma {:induction false} ChangeProgramParts(cs: seq<RedisChange>, i: nat)
    requires i < |ChangeProgram(cs)|
    requires forall i :: 0 <= i < |cs| ==> WellFormedChange(cs[i])
    ensures ChangeOf(ChangeProgram(cs)[i], cs)
  {
    var p, rest, n := ChangeProgram(cs), ChangeProgram(cs[1..]), 1 + |cs[0].keys|;
    if i == 0 {
      assert InChange(p[i], cs[0]);
    } else if i < n {
      assert p[i] == Delete(cs[0].keys[i - 1]);
      assert InChange(p[i], cs[0]);
    } else {
      assert p[i] == rest[i - n];
      ChangeProgramParts(cs[1..], i - n);
      var c :| 0 <= c < |cs[1..]| && InChange(rest[i - n], cs[1..][c]);
      assert InChange(p[i], cs[c + 1]);
    }
  }

  lemma {:induction false} ChangeProgramOrderly(cs: seq<RedisChange>)
    requires forall i :: 0 <= i < |cs| ==> WellFormedChange(cs[i])
    requires forall i, k :: 0 <= i < k < |cs| ==> cs[i].chain != cs[k].chain
    ensures Orderly(ChangeProgram(cs))
  {
    if cs != [] {
      var c, rest := cs[0], ChangeProgram(cs[1..]);
      ChangeProgramOrderly(cs[1..]);
      forall a, k | InChange(a, c) && 0 <= k < |rest| ensures InOrder(a, rest[k]) {
        ChangeProgramParts(cs[1..], k);
        var o :| 0 <= o < |cs[1..]| && InChange(rest[k], cs[1..][o]);
        assert cs[1..][o] == cs[o + 1];
      }
      assert forall i :: 0 <= i < |c.keys| ==> InChange(Delete(c.keys[i]), c);
      OrderlyConcat(Deletes(c.keys), rest);
      assert InChange(Scan(c), c);
      OrderlyConcat([Scan(c)], Deletes(c.keys) + rest);
    }
  }

  ghost predicate InstrOf(i: Instr, j: Journal) {
    match i
    case Check(f) => f in j.files
    case Write(f) => f in j.files
    case _ => ChangeOf(i, j.redis)
  }

  lemma ProgramOrderly(j: Journal)
    requires WellFormed(j)
    ensures Orderly(Program(j))
  {
    var change := ChangeProgram(j.redis);
    ChangeProgramOrderly(j.redis);
    forall i | 0 <= i < |change| ensures change[i].Scan? || change[i].Delete? {
      ChangeProgramParts(j.redis, i);
    }
    OrderlyConcat(change, Writes(j.files));
    OrderlyConcat(Checks(j.files), change + Writes(j.files));
  }

  lemma ProgramParts(j: Journal, i: nat)
    requires WellFormed(j) && i < |Program(j)|
    ensures InstrOf(Program(j)[i], j)
  {
    var n, m, p := |j.files|, |ChangeProgram(j.redis)|, Program(j);
    if i < n {
      assert p[i] == Check(j.files[i]);
    } else if i < n + m {
      assert p[i] == ChangeProgram(j.redis)[i - n];
      ChangeProgramParts(j.redis, i - n);
    } else {
      assert p[i] == Write(j.files[i - n - m]);
    }
  }

  // ---------------------------------------------------------------------
  // When a commit succeeds, and resuming it
  // ---------------------------------------------------------------------

  /** Every file is as archived or already replaced, every Redis key of a selected
      chain is archived, and every archived key is unchanged or gone. */
  ghost predicate Committable(j: Journal, w: World) {
    forall i :: 0 <= i < |Program(j)| ==> Passes(Program(j)[i], w)
  }

  /** What a prefix has done cannot change the verdict of the next instruction. */
  lemma VerdictIsStable(p: seq<Instr>, k: nat, w: World)
    requires Orderly(p) && k < |p|
    ensures Passes(p[k], After(p[..k], w)) <==> Passes(p[k], w)
  {
    var w' := After(p[..k], w);
    match p[k]
    case Check(f) =>
      WrittenAt(p[..k], f.path);
    case Scan(c) =>
      forall x | x in w.redis && x.chain == c.chain && x !in w'.redis ensures Archived(c, x) {
        DeletedAt(p[..k], x);
      }
    case Delete(x) =>
      DeletedAt(p[..k], x.key);
    case Write(_) =>
  }

  lemma {:induction false} ExecSucceedsIff(p: seq<Instr>, k: nat, w: World)
    requires Orderly(p) && k <= |p|
    ensures Exec(p[..k], w).Some? <==> forall i :: 0 <= i < k ==> Passes(p[i], w)
  {
    if k > 0 {
      ExecSucceedsIff(p, k - 1, w);
      assert p[..k][..k - 1] == p[..k - 1];
      ExecIsAfter(p[..k - 1], w);
      VerdictIsStable(p, k - 1, w);
    }
  }

  /** A commit that is not interfered with succeeds exactly when the journal is
      committable, and its result is then known in advance. */
  lemma CommitSucceedsIff(j: Journal, w: World)
    requires WellFormed(j)
    ensures Exec(Program(j), w).Some? <==> Committable(j, w)
    ensures Committable(j, w) ==> Exec(Program(j), w) == Some(After(Program(j), w))
  {
    ProgramOrderly(j);
    var p := Program(j);
    assert p[..|p|] == p;
    ExecSucceedsIff(p, |p|, w);
    ExecIsAfter(p, w);
  }

  lemma {:induction false} AfterTwice(p: seq<Instr>, k: nat, w: World)
    requires Orderly(p) && k <= |p|
    ensures After(p, After(p[..k], w)) == After(p, w)
  {
    forall x | x in Written(p[..k]) ensures x in Written(p) {
      WrittenAt(p[..k], x);
      WrittenAt(p, x);
      var i :| 0 <= i < k && p[..k][i].Write? && p[..k][i].file.path == x;
      assert p[i].Write? && p[i].file.path == x;
    }
    forall x | x in Deleted(p[..k]) ensures x in Deleted(p) {
      DeletedAt(p[..k], x);
      DeletedAt(p, x);
      var i :| 0 <= i < k && p[..k][i].Delete? && p[..k][i].key.key == x;
      assert p[i].Delete? && p[i].key.key == x;
    }
    assert w.files + Written(p[..k]) + Written(p) == w.files + Written(p);
    assert w.redis - Deleted(p[..k]) - Deleted(p) == w.redis - Deleted(p);
  }

  /** Resumption: wherever an interrupted commit stopped, running the same journal
      again succeeds and ends in the files and keys of an uninterrupted commit. */
  lemma ResumedCommitIsSameCommit(j: Journal, k: nat, w: World)
    requires WellFormed(j) && Committable(j, w) && k <= |Program(j)|
    ensures Exec(Program(j)[..k], w) == Some(After(Program(j)[..k], w))
    ensures Committable(j, After(Program(j)[..k], w))
    ensures Exec(Program(j), After(Program(j)[..k], w)) == Exec(Program(j), w)
  {
    var p := Program(j);
    var w' := After(p[..k], w);
    ProgramOrderly(j);
    ExecSucceedsIff(p, k, w);
    ExecIsAfter(p[..k], w);
    forall i | 0 <= i < |p| ensures Passes(p[i], w') {
      assert Passes(p[i], w);
      match p[i]
      case Check(f) =>
        WrittenAt(p[..k], f.path);
      case Delete(x) =>
        DeletedAt(p[..k], x.key);
      case _ =>
    }
    AfterTwice(p, k, w);
    CommitSucceedsIff(j, w);
    CommitSucceedsIff(j, w');
  }

  lemma CommitWritesFiles(j: Journal, w: World)
    requires WellFormed(j)
    ensures forall f :: f in j.files ==> Lookup(After(Program(j), w).files, f.path) == Some(f.after)
    ensures forall x :: (forall f :: f in j.files ==> f.path != x) ==>
              Lookup(After(Program(j), w).files, x) == Lookup(w.files, x)
  {
    var p := Program(j);
    forall f | f in j.files ensures Lookup(After(p, w).files, f.path) == Some(f.after) {
      var i :| 0 <= i < |j.files| && j.files[i] == f;
      assert p[|j.files| + |ChangeProgram(j.redis)| + i] == Write(f);
      WrittenAt(p, f.path);
      var k :| 0 <= k < |p| && p[k].Write? && p[k].file.path == f.path && Written(p)[f.path] == p[k].file.after;
      ProgramParts(j, k);
    }
    forall x | forall f :: f in j.files ==> f.path != x
      ensures Lookup(After(p, w).files, x) == Lookup(w.files, x)
    {
      WrittenAt(p, x);
      if x in Written(p) {
        var k :| 0 <= k < |p| && p[k].Write? && p[k].file.path == x;
        ProgramParts(j, k);
      }
    }
  }

  lemma CommitClearsRedis(j: Journal, w: World, c: RedisChange, k: Key)
    requires WellFormed(j) && Committable(j, w) && c in j.redis && k.chain == c.chain
    ensures k !in After(Program(j), w).redis
  {
    var p, n := Program(j), |j.files|;
    if k in w.redis {
      var ci :| 0 <= ci < |j.redis| && j.redis[ci] == c;
      var s := ScanIsThere(j.redis, ci);
      assert p[n + s] == Scan(c);
      assert Passes(p[n + s], w) && Archived(c, k);
      var ki :| 0 <= ki < |c.keys| && c.keys[ki].key == k;
      var d := DeleteIsThere(j.redis, ci, ki);
      assert p[n + d] == Delete(c.keys[ki]);
      DeletedAt(p, k);
    }
  }

  lemma CommitKeepsOtherKeys(j: Journal, w: World, k: Key)
    requires WellFormed(j) && forall c :: c in j.redis ==> k.chain != c.chain
    ensures Lookup(After(Program(j), w).redis, k) == Lookup(w.redis, k)
  {
    var p := Program(j);
    DeletedAt(p, k);
    if k in Deleted(p) {
      var i :| 0 <= i < |p| && p[i].Delete? && p[i].key.key == k;
      ProgramParts(j, i);
    }
  }

  /** What a complete commit leaves: each journal file holds its new content, no Redis
      key of a selected chain is left, and nothing else has changed. */
  lemma CommitOutcome(j: Journal, w: World)
    requires WellFormed(j) && Committable(j, w)
    ensures var w' := After(Program(j), w);
      && (forall f :: f in j.files ==> Lookup(w'.files, f.path) == Some(f.after))
      && (forall c, k :: c in j.redis && k in w'.redis ==> k.chain != c.chain)
      && (forall x :: (forall f :: f in j.files ==> f.path != x) ==> Lookup(w'.files, x) == Lookup(w.files, x))
      && (forall k: Key :: (forall c :: c in j.redis ==> k.chain != c.chain) ==> Lookup(w'.redis, k) == Lookup(w.redis, k))
  {
    CommitWritesFiles(j, w);
    forall c, k: Key | c in j.redis && k.chain == c.chain ensures k !in After(Program(j), w).redis {
      CommitClearsRedis(j, w, c, k);
    }
    forall k: Key | forall c :: c in j.redis ==> k.chain != c.chain
      ensures Lookup(After(Program(j), w).redis, k) == Lookup(w.redis, k)
    {
      CommitKeepsOtherKeys(j, w, k);
    }
  }

  lemma {:induction false} ScanIsThere(cs: seq<RedisChange>, ci: nat) returns (s: nat)
    requires ci < |cs|
    ensures s < |ChangeProgram(cs)| && ChangeProgram(cs)[s] == Scan(cs[ci])
  {
    if ci == 0 {
      s := 0;
    } else {
      s := ScanIsThere(cs[1..], ci - 1);
      s := s + 1 + |cs[0].keys|;
    }
  }

  lemma {:induction false} DeleteIsThere(cs: seq<RedisChange>, ci: nat, ki: nat) returns (d: nat)
    requires ci < |cs| && ki < |cs[ci].keys|
    ensures d < |ChangeProgram(cs)| && ChangeProgram(cs)[d] == Delete(cs[ci].keys[ki])
  {
    if ci == 0 {
      d := 1 + ki;
    } else {
      d := DeleteIsThere(cs[1..], ci - 1, ki);
      d := d + 1 + |cs[0].keys|;
    }
  }

  /** Nothing a commit removes is lost: a removed Redis value is the archived dump, and
      a replaced content is the archived one, or the new one being written again. */
  lemma CommitArchivesWhatItRemoves(j: Journal, k: nat, w: World)
    requires WellFormed(j) && k < |Program(j)| && Exec(Program(j)[..k + 1], w).Some?
    ensures var w0, w1 := After(Program(j)[..k], w), After(Program(j)[..k + 1], w);
      && (forall x :: x in w0.redis && x !in w1.redis ==>
            exists c, i :: c in j.redis && 0 <= i < |c.keys| && c.keys[i] == RedisKey(x, w0.redis[x]))
      && (forall x :: Lookup(w0.files, x) != Lookup(w1.files, x) ==>
            exists f :: f in j.files && f.path == x && Lookup(w0.files, x) == f.before)
  {
    var p := Program(j);
    ProgramOrderly(j);
    assert p[..k + 1][..k] == p[..k];
    ExecIsAfter(p[..k], w);
    var w0, w1 := After(p[..k], w), After(p[..k + 1], w);
    ExecIsAfter(p[..k + 1], w);
    ProgramParts(j, k);
    if p[k].Write? {
      var f := p[k].file;
      var i :| 0 <= i < |j.files| && j.files[i] == f;
      assert p[i] == Check(f);
      assert i < k;
      ExecSucceedsIff(p, k, w);
      WrittenAt(p[..k], f.path);
    } else if p[k].Delete? {
      var ci :| 0 <= ci < |j.redis| && InChange(p[k], j.redis[ci]);
      assert p[k].key in j.redis[ci].keys;
    }
  }
}
