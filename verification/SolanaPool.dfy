/** The Redis protocol that gives each Solana user a wallet: any number of clients assign
    and rotate at once, one Redis command at a time
    (src/solana_pool.rs:501-696, 889-1006). */
module SolanaPool {
  import opened Common

  type User = string
  type Address = string

  datatype Assignment = Assignment(user: User, address: Address, reservedAt: int, dormant: bool)

  /** Where a client stands, and what it has read. Everything from LockedIndex to Release
      runs under the user's lock. */
  datatype Pc =
    | FastIndex
    | FastPayload(address: Address)
    | FastDrop
    | TryLock(tries: nat, rotating: bool)
    | WaitIndex(tries: nat)
    | WaitPayload(tries: nat, address: Address)
    | LockedIndex
    | LockedPayload(address: Address)
    | RotateIndex
    | RotatePayload(address: Address)
    | Archive(current: Assignment)
    | DropIndex
    | ReadPool
    | Claim(candidates: seq<Address>, now: int)
    | Grow(now: int)
    | ClaimNew(address: Address, now: int)
    | Publish(address: Address)
    | Release(result: Option<Address>)
    | Done(result: Option<Address>)

  datatype Client = Client(user: User, pc: Pc)

  /** Redis holds wallets, index and locks; file is the wallet pool file. */
  datatype State = State(
    wallets: map<Address, Assignment>,
    index: map<User, Address>,
    locks: set<User>,
    file: set<Address>,
    clients: map<nat, Client>)

  /** What a client takes from outside: the clock, its process's copy of the pool, whether
      the pool may grow, and the key it would grow by. */
  datatype Input = Input(now: int, pool: seq<Address>, mayGrow: bool, newAddress: Address)

  datatype Event =
    | Begin(client: nat, user: User, rotating: bool)
    | Act(client: nat, input: Input)
    | Fail(client: nat)      // an error after which the lock is still released
    | Abort(client: nat)     // an error that leaves the lock, or a crash of the process
    | Expire(user: User)     // the lock's time to live runs out

  const MAX_TRIES := 30

  predicate Locked(pc: Pc) {
    !(pc.FastIndex? || pc.FastPayload? || pc.FastDrop? || pc.TryLock? || pc.WaitIndex? || pc.WaitPayload? || pc.Done?)
  }

  function Get<K, V>(m: map<K, V>, k: K): Option<V> {
    if k in m then Some(m[k]) else None
  }

  /** `SET key value NX` of a fresh assignment. */
  function Register(s: State, user: User, a: Address, now: int): State {
    if a in s.wallets then s else s.(wallets := s.wallets[a := Assignment(user, a, now, false)])
  }

  /** The next command of a client: what it does to Redis and the file, and where the
      client goes. */
  function Command(s: State, user: User, pc: Pc, i: Input): (State, Pc) {
    match pc
    case FastIndex =>
      var r := Get(s.index, user);
      (s, if r.Some? then FastPayload(r.value) else TryLock(0, false))
    case FastPayload(a) => (s, if a in s.wallets then Done(Some(a)) else FastDrop)
    case FastDrop => (s.(index := s.index - {user}), TryLock(0, false))
    case TryLock(n, rotating) =>
      if n >= MAX_TRIES then (s, Done(None))
      else if user !in s.locks then (s.(locks := s.locks + {user}), if rotating then RotateIndex else LockedIndex)
      else (s, if rotating then TryLock(n + 1, true) else WaitIndex(n))
    case WaitIndex(n) =>
      var r := Get(s.index, user);
      (s, if r.Some? then WaitPayload(n, r.value) else TryLock(n + 1, false))
    case WaitPayload(n, a) => (s, if a in s.wallets then Done(Some(a)) else TryLock(n + 1, false))
    case LockedIndex =>
      var r := Get(s.index, user);
      (s, if r.Some? then LockedPayload(r.value) else ReadPool)
    case LockedPayload(a) => (s, if a in s.wallets then Release(Some(a)) else ReadPool)
    case RotateIndex =>
      var r := Get(s.index, user);
      (s, if r.Some? then RotatePayload(r.value) else Release(None))
    case RotatePayload(a) =>
      (s, if a in s.wallets && !s.wallets[a].dormant then Archive(s.wallets[a]) else Release(None))
    case Archive(current) => (s.(wallets := s.wallets[current.address := current.(dormant := true)]), DropIndex)
    case DropIndex => (s.(index := s.index - {user}), ReadPool)
    case ReadPool => (s, Claim(i.pool, i.now))
    case Claim(candidates, now) =>
      if candidates == [] then (s, Grow(now))
      else (Register(s, user, candidates[0], now),
            if candidates[0] !in s.wallets then Publish(candidates[0]) else Claim(candidates[1..], now))
    case Grow(now) =>
      if i.mayGrow then (s.(file := s.file + {i.newAddress}), ClaimNew(i.newAddress, now)) else (s, Release(None))
    case ClaimNew(a, now) => (Register(s, user, a, now), if a !in s.wallets then Publish(a) else Release(None))
    case Publish(a) => (s.(index := s.index[user := a]), Release(Some(a)))
    case Release(r) => (s.(locks := s.locks - {user}), Done(r))
    case Done(r) => (s, pc)
  }

  predicate Enabled(s: State, e: Event) {
    match e
    case Begin(c, _, _) => c !in s.clients
    case Act(c, i) => c in s.clients && forall k :: 0 <= k < |i.pool| ==> i.pool[k] in s.file
    case Fail(c) => c in s.clients && Locked(s.clients[c].pc)
    case Abort(c) => c in s.clients
    case Expire(u) => true
  }

  function Apply(s: State, e: Event): State
    requires Enabled(s, e)
  {
    match e
    case Begin(c, u, rotating) => s.(clients := s.clients[c := Client(u, if rotating then TryLock(0, true) else FastIndex)])
    case Act(c, i) =>
      var (s', pc) := Command(s, s.clients[c].user, s.clients[c].pc, i);
      s'.(clients := s.clients[c := Client(s.clients[c].user, pc)])
    case Fail(c) => s.(clients := s.clients[c := s.clients[c].(pc := Release(None))])
    case Abort(c) => s.(clients := s.clients - {c})
    case Expire(u) => s.(locks := s.locks - {u})
  }

  /** The state after a run, if every event of it could happen. */
  ghost function Run(s: State, es: seq<Event>): Option<State> {
    if es == [] then Some(s)
    else
      var r := Run(s, es[..|es| - 1]);
      if r.Some? && Enabled(r.value, es[|es| - 1]) then Some(Apply(r.value, es[|es| - 1])) else None
  }

  // ---------------------------------------------------------------------
  // Ownership
  // ---------------------------------------------------------------------

  predicate Owns(s: State, u: User, a: Address) {
    a in s.wallets && s.wallets[a].user == u
  }

  /** An address keeps its owner and its date forever, and never wakes up again. */
  ghost predicate Permanent(s: State, s': State) {
    forall a :: a in s.wallets ==> a in s'.wallets && OnlyAges(s.wallets[a], s'.wallets[a])
  }

  predicate OnlyAges(x: Assignment, y: Assignment) {
    y.user == x.user && y.address == x.address && y.reservedAt == x.reservedAt && (x.dormant ==> y.dormant)
  }

  lemma PermanentThen(s: State, s1: State, s2: State)
    requires Permanent(s, s1) && Permanent(s1, s2)
    ensures Permanent(s, s2)
  {
  }

  /** What a client has read or written is its user's. */
  predicate ClientOk(s: State, k: Client) {
    match k.pc
    case FastPayload(a) => Owns(s, k.user, a)
    case FastDrop => false
    case WaitPayload(_, a) => Owns(s, k.user, a)
    case LockedPayload(a) => Owns(s, k.user, a)
    case RotatePayload(a) => Owns(s, k.user, a)
    case Archive(x) => x.user == k.user && x.address in s.wallets && OnlyAges(x, s.wallets[x.address])
    case Claim(cs, _) => forall i :: 0 <= i < |cs| ==> cs[i] in s.file
    case ClaimNew(a, _) => a in s.file
    case Publish(a) => Owns(s, k.user, a)
    case Release(r) => r.Some? ==> Owns(s, k.user, r.value)
    case Done(r) => r.Some? ==> Owns(s, k.user, r.value)
    case _ => true
  }

  ghost predicate IndexOk(s: State) {
    forall u :: u in s.index ==> Owns(s, u, s.index[u])
  }

  ghost predicate WalletsOk(s: State) {
    forall a :: a in s.wallets ==> s.wallets[a].address == a && a in s.file
  }

  ghost predicate OwnershipInv(s: State) {
    && IndexOk(s) && WalletsOk(s)
    && (forall c :: c in s.clients ==> ClientOk(s, s.clients[c]))
  }

  lemma PermanentKeeps(s: State, s': State, k: Client)
    requires Permanent(s, s') && s.file <= s'.file && ClientOk(s, k)
    ensures ClientOk(s', k)
  {
  }

  lemma CommandKeeps(s: State, k: Client, i: Input)
    requires OwnershipInv(s) && ClientOk(s, k) && forall j :: 0 <= j < |i.pool| ==> i.pool[j] in s.file
    ensures var (s', pc) := Command(s, k.user, k.pc, i);
            && Permanent(s, s') && s.file <= s'.file && s'.clients == s.clients && ClientOk(s', Client(k.user, pc))
            && IndexOk(s') && WalletsOk(s')
  {
    CommandKeepsWallets(s, k, i);
  }

  lemma CommandKeepsWallets(s: State, k: Client, i: Input)
    requires OwnershipInv(s) && ClientOk(s, k)
    ensures var s' := Command(s, k.user, k.pc, i).0; Permanent(s, s') && s.file <= s'.file && WalletsOk(s')
  {
  }

  lemma OwnershipStep(s: State, e: Event)
    requires OwnershipInv(s) && Enabled(s, e)
    ensures OwnershipInv(Apply(s, e)) && Permanent(s, Apply(s, e))
  {
    if e.Act? {
      var c, k := e.client, s.clients[e.client];
      CommandKeeps(s, k, e.input);
      var s' := Apply(s, e);
      forall d | d in s'.clients && d != c ensures ClientOk(s', s'.clients[d]) {
        PermanentKeeps(s, s', s.clients[d]);
      }
      var (s1, pc) := Command(s, k.user, k.pc, e.input);
      PermanentKeeps(s1, s', Client(k.user, pc));
    } else {
      forall d: nat | d in s.clients ensures ClientOk(Apply(s, e), s.clients[d]) {
        PermanentKeeps(s, Apply(s, e), s.clients[d]);
      }
    }
  }

  /** Whatever the interleaving, the crashes and the expired locks: an assigned address
      keeps its owner, a dormant one stays dormant, the index names the user's own
      addresses, every assigned address has its key in the pool file, and what a call
      returned belongs to its user. */
  lemma {:induction false} AddressesArePermanent(s: State, es: seq<Event>)
    requires OwnershipInv(s) && Run(s, es).Some?
    ensures OwnershipInv(Run(s, es).value) && Permanent(s, Run(s, es).value)
    decreases |es|
  {
    if es != [] {
      AddressesArePermanent(s, es[..|es| - 1]);
      OwnershipStep(Run(s, es[..|es| - 1]).value, es[|es| - 1]);
    }
  }

  // ---------------------------------------------------------------------
  // One active address
  // ---------------------------------------------------------------------

  predicate Active(s: State, u: User, a: Address) {
    Owns(s, u, a) && !s.wallets[a].dormant
  }

  ghost predicate NoneActive(s: State, u: User) {
    forall a :: !Active(s, u, a)
  }

  ghost predicate OnlyActive(s: State, u: User, a: Address) {
    forall b :: Active(s, u, b) ==> b == a
  }

  /** The user's active address, if any, is the one in the index. */
  ghost predicate Indexed(s: State, u: User) {
    if u in s.index then OnlyActive(s, u, s.index[u]) else NoneActive(s, u)
  }

  ghost predicate LockedOk(s: State, k: Client) {
    match k.pc
    case RotatePayload(a) => Indexed(s, k.user) && PointsAt(s, k.user, a)
    case Archive(x) => Indexed(s, k.user) && PointsAt(s, k.user, x.address) && x.address in s.wallets && s.wallets[x.address] == x
    case DropIndex => NoneActive(s, k.user)
    case ReadPool => NoneActive(s, k.user)
    case Claim(_, _) => NoneActive(s, k.user)
    case Grow(_) => NoneActive(s, k.user)
    case ClaimNew(_, _) => NoneActive(s, k.user)
    case Publish(a) => OnlyActive(s, k.user, a)
    case _ => Indexed(s, k.user)
  }

  predicate PointsAt(s: State, u: User, a: Address) {
    u in s.index && s.index[u] == a
  }

  ghost predicate Holds(s: State, c: nat, u: User) {
    c in s.clients && s.clients[c].user == u && Locked(s.clients[c].pc)
  }

  ghost predicate LockInv(s: State) {
    && (forall u, c, d :: Holds(s, c, u) && Holds(s, d, u) ==> c == d)
    && (forall u, c :: Holds(s, c, u) ==> u in s.locks && LockedOk(s, s.clients[c]))
    && (forall u :: (forall c :: !Holds(s, c, u)) ==> Indexed(s, u))
  }

  /** No lock runs out while its holder is still at work, and no error falls between
      claiming an address and publishing it. */
  ghost predicate Careful(s: State, e: Event) {
    match e
    case Expire(u) => forall c :: !Holds(s, c, u)
    case Fail(c) => c in s.clients ==> !s.clients[c].pc.Publish?
    case Abort(c) => c in s.clients ==> !s.clients[c].pc.Publish?
    case _ => true
  }

  ghost predicate AllCareful(s: State, es: seq<Event>) {
    es == [] || (AllCareful(s, es[..|es| - 1])
      && var r := Run(s, es[..|es| - 1]); r.Some? ==> Careful(r.value, es[|es| - 1]))
  }

  /** What a user's addresses and index look like is the same in both states. */
  ghost predicate SameFor(s: State, s': State, u: User) {
    && (u in s.index <==> u in s'.index) && (u in s.index ==> s.index[u] == s'.index[u])
    && (forall a :: Owns(s, u, a) <==> Owns(s', u, a))
    && (forall a :: Owns(s, u, a) ==> s.wallets[a] == s'.wallets[a])
  }

  lemma SameForKeeps(s: State, s': State, k: Client)
    requires SameFor(s, s', k.user) && OwnershipInv(s)
    requires k.pc.Archive? ==> Owns(s, k.user, k.pc.current.address)
    ensures Indexed(s, k.user) ==> Indexed(s', k.user)
    ensures LockedOk(s, k) ==> LockedOk(s', k)
  {
    assert forall a :: Active(s', k.user, a) ==> Active(s, k.user, a);
  }

  /** A client's command leaves other users alone. */
  lemma CommandIsLocal(s: State, k: Client, i: Input, u: User)
    requires OwnershipInv(s) && ClientOk(s, k) && u != k.user
    ensures var s' := Command(s, k.user, k.pc, i).0; SameFor(s, s', u) && (u in s.locks <==> u in s'.locks)
  {
  }

  lemma LockedCommand(s: State, k: Client, i: Input)
    requires OwnershipInv(s) && ClientOk(s, k) && Locked(k.pc) && LockedOk(s, k) && k.user in s.locks
    ensures var (s', pc) := Command(s, k.user, k.pc, i);
            if Locked(pc) then LockedOk(s', Client(k.user, pc)) && k.user in s'.locks else Indexed(s', k.user)
  {
    var u := k.user;
    var (s', pc) := Command(s, u, k.pc, i);
    assert forall a :: Active(s', u, a) && !Active(s, u, a) ==> pc == Publish(a);
  }

  lemma UnlockedCommand(s: State, k: Client, i: Input)
    requires OwnershipInv(s) && ClientOk(s, k) && !Locked(k.pc)
    ensures var (s', pc) := Command(s, k.user, k.pc, i);
            && s'.wallets == s.wallets && s'.index == s.index && s'.file == s.file
            && if Locked(pc) then k.user !in s.locks && s'.locks == s.locks + {k.user} && (pc.LockedIndex? || pc.RotateIndex?)
               else s'.locks == s.locks
  {
  }

  lemma ReleasedIsIndexed(s: State, k: Client)
    requires LockedOk(s, k) && !k.pc.Publish?
    ensures Indexed(s, k.user)
  {
  }

  /** After one client's command, everyone else's part of the invariant still stands. */
  lemma OthersStand(s: State, s': State, c: nat, d: nat, u: User)
    requires OwnershipInv(s) && LockInv(s) && c in s.clients && d != c && Holds(s, d, u)
    requires s'.clients.Keys == s.clients.Keys && forall x: nat :: x in s.clients && x != c ==> s'.clients[x] == s.clients[x]
    requires SameFor(s, s', u) && u in s'.locks
    ensures Holds(s', d, u) && LockedOk(s', s'.clients[d])
  {
    var k := s.clients[d];
    assert ClientOk(s, k);
    SameForKeeps(s, s', k);
  }

  lemma ActExcludes(s: State, c: nat, i: Input, v: User, d: nat, x: nat)
    requires OwnershipInv(s) && LockInv(s) && Enabled(s, Act(c, i))
    requires Holds(Apply(s, Act(c, i)), d, v) && Holds(Apply(s, Act(c, i)), x, v)
    ensures d == x
  {
    var k := s.clients[c];
    assert ClientOk(s, k);
    assert d != c ==> Holds(s, d, v);
    assert x != c ==> Holds(s, x, v);
    if Locked(k.pc) {
      assert Holds(s, c, k.user);
    } else {
      UnlockedCommand(s, k, i);
    }
  }

  lemma ActStep(s: State, c: nat, i: Input)
    requires OwnershipInv(s) && LockInv(s) && Enabled(s, Act(c, i))
    ensures LockInv(Apply(s, Act(c, i)))
  {
    var k, s' := s.clients[c], Apply(s, Act(c, i));
    var u, k' := k.user, s'.clients[c];
    var s1 := Command(s, u, k.pc, i).0;
    assert ClientOk(s, k);
    if Locked(k.pc) {
      assert Holds(s, c, u);
      LockedCommand(s, k, i);
      assert SameFor(s1, s', u);
      CommandKeeps(s, k, i);
      LockedCommandAgain(s1, s', k');
    } else {
      UnlockedCommand(s, k, i);
      assert forall x :: Holds(s, x, u) ==> u in s.locks;
      if Indexed(s, u) {
        assert SameFor(s, s', u);
        SameForKeeps(s, s', Client(u, LockedIndex));
      }
    }
    forall v | v != u ensures SameFor(s, s', v) && (v in s.locks <==> v in s'.locks) {
      CommandIsLocal(s, k, i, v);
    }
    forall v, d, x | Holds(s', d, v) && Holds(s', x, v) ensures d == x {
      ActExcludes(s, c, i, v, d, x);
    }
    forall v, d | Holds(s', d, v) ensures v in s'.locks && LockedOk(s', s'.clients[d]) {
      if d != c {
        assert Holds(s, d, v);
        if v == u {
          assert !Locked(k.pc);
          assert SameFor(s, s', u);
        }
        OthersStand(s, s', c, d, v);
      }
    }
    forall v | forall d :: !Holds(s', d, v) ensures Indexed(s', v) {
      if v != u {
        forall d ensures !Holds(s, d, v) {
          assert !Holds(s', d, v);
        }
        SameForKeeps(s, s', Client(v, LockedIndex));
      } else if !Locked(k.pc) {
        forall d ensures !Holds(s, d, u) {
          assert !Holds(s', d, u);
        }
      } else {
        assert !Holds(s', c, u);
      }
    }
  }

  lemma LockedCommandAgain(s1: State, s': State, k: Client)
    requires s'.wallets == s1.wallets && s'.index == s1.index
    ensures LockedOk(s1, k) ==> LockedOk(s', k)
    ensures Indexed(s1, k.user) ==> Indexed(s', k.user)
  {
    assert forall a :: Active(s', k.user, a) <==> Active(s1, k.user, a);
  }

  lemma LockStep(s: State, e: Event)
    requires OwnershipInv(s) && LockInv(s) && Enabled(s, e) && Careful(s, e)
    ensures LockInv(Apply(s, e))
  {
    var s' := Apply(s, e);
    if e.Act? {
      ActStep(s, e.client, e.input);
    } else {
      assert forall v, d :: Holds(s', d, v) ==> Holds(s, d, v);
      forall v, d | Holds(s', d, v) ensures v in s'.locks && LockedOk(s', s'.clients[d]) {
        LockedCommandAgain(s, s', s.clients[d]);
        if e.Fail? && e.client == d {
          ReleasedIsIndexed(s, s.clients[d]);
          LockedCommandAgain(s, s', s'.clients[d]);
        }
      }
      forall v | forall d :: !Holds(s', d, v) ensures Indexed(s', v) {
        LockedCommandAgain(s, s', Client(v, LockedIndex));
        if d :| Holds(s, d, v) {
          assert !Holds(s', d, v);
          ReleasedIsIndexed(s, s.clients[d]);
        }
      }
    }
  }

  /** As long as no lock runs out under its holder and no error falls between claiming and
      publishing, each user has at most one active address, at every moment. */
  lemma {:induction false} OneActiveAddress(s: State, es: seq<Event>, u: User, a: Address, b: Address)
    requires OwnershipInv(s) && LockInv(s) && Run(s, es).Some? && AllCareful(s, es)
    ensures LockInv(Run(s, es).value)
    ensures Active(Run(s, es).value, u, a) && Active(Run(s, es).value, u, b) ==> a == b
    decreases |es|
  {
    if es != [] {
      var s1 := Run(s, es[..|es| - 1]).value;
      OneActiveAddress(s, es[..|es| - 1], u, a, b);
      AddressesArePermanent(s, es[..|es| - 1]);
      LockStep(s1, es[|es| - 1]);
    }
    var t := Run(s, es).value;
    if c :| Holds(t, c, u) {
      assert LockedOk(t, t.clients[c]);
    } else {
      assert Indexed(t, u);
    }
  }

  // ---------------------------------------------------------------------
  // The index at a live address
  // ---------------------------------------------------------------------

  predicate Live(s: State, u: User) {
    u in s.index ==> Active(s, u, s.index[u])
  }

  /** Under the lock the index is at a live address too, except between archiving an address
      and dropping it from the index. */
  predicate LiveOk(s: State, k: Client) {
    match k.pc
    case DropIndex => true
    case ReadPool => k.user !in s.index
    case Claim(_, _) => k.user !in s.index
    case Grow(_) => k.user !in s.index
    case ClaimNew(_, _) => k.user !in s.index
    case Publish(a) => k.user !in s.index && Active(s, k.user, a)
    case _ => Live(s, k.user)
  }

  ghost predicate LiveInv(s: State) {
    && (forall u, c :: Holds(s, c, u) ==> LiveOk(s, s.clients[c]))
    && (forall u :: (forall c :: !Holds(s, c, u)) ==> Live(s, u))
  }

  /** No error falls between archiving an address and dropping it from the index. */
  predicate Tidy(s: State, e: Event) {
    match e
    case Fail(c) => c in s.clients ==> !s.clients[c].pc.DropIndex?
    case Abort(c) => c in s.clients ==> !s.clients[c].pc.DropIndex?
    case _ => true
  }

  ghost predicate AllTidy(s: State, es: seq<Event>) {
    es == [] || (AllTidy(s, es[..|es| - 1])
      && var r := Run(s, es[..|es| - 1]); r.Some? ==> Tidy(r.value, es[|es| - 1]))
  }

  lemma LiveCommand(s: State, k: Client, i: Input)
    requires OwnershipInv(s) && ClientOk(s, k) && Locked(k.pc) && LockedOk(s, k) && LiveOk(s, k)
    ensures var (s', pc) := Command(s, k.user, k.pc, i);
            if Locked(pc) then LiveOk(s', Client(k.user, pc)) else Live(s', k.user)
  {
  }

  lemma LiveSame(s: State, s': State, k: Client)
    requires SameFor(s, s', k.user) && (LiveOk(s, k) || Live(s, k.user)) && IndexOk(s)
    ensures LiveOk(s, k) ==> LiveOk(s', k)
    ensures Live(s, k.user) ==> Live(s', k.user)
  {
  }

  lemma LiveAct(s: State, c: nat, i: Input)
    requires OwnershipInv(s) && LockInv(s) && LiveInv(s) && Enabled(s, Act(c, i))
    ensures LiveInv(Apply(s, Act(c, i)))
  {
    var k, s' := s.clients[c], Apply(s, Act(c, i));
    assert ClientOk(s, k);
    forall v, d | Holds(s', d, v) ensures LiveOk(s', s'.clients[d]) {
      LiveActHolder(s, c, i, v, d);
    }
    forall v | forall d :: !Holds(s', d, v) ensures Live(s', v) {
      LiveActFree(s, c, i, v);
    }
  }

  lemma LiveActHolder(s: State, c: nat, i: Input, v: User, d: nat)
    requires OwnershipInv(s) && LockInv(s) && LiveInv(s) && Enabled(s, Act(c, i)) && ClientOk(s, s.clients[c])
    requires Holds(Apply(s, Act(c, i)), d, v)
    ensures LiveOk(Apply(s, Act(c, i)), Apply(s, Act(c, i)).clients[d])
  {
    var k, s' := s.clients[c], Apply(s, Act(c, i));
    if k.user != v {
      CommandIsLocal(s, k, i, v);
      assert Holds(s, d, v);
      assert SameFor(s, s', v);
      LiveSame(s, s', s.clients[d]);
    } else if Locked(k.pc) {
      assert Holds(s, c, v);
      ActExcludes(s, c, i, v, d, d);
      assert d != c ==> Holds(s, d, v);
      LiveCommand(s, k, i);
    } else {
      UnlockedCommand(s, k, i);
      if d != c {
        assert Holds(s, d, v);
      } else {
        assert forall x :: Holds(s, x, v) ==> v in s.locks;
        assert Live(s, v);
      }
    }
  }

  lemma LiveActFree(s: State, c: nat, i: Input, v: User)
    requires OwnershipInv(s) && LockInv(s) && LiveInv(s) && Enabled(s, Act(c, i)) && ClientOk(s, s.clients[c])
    requires forall d :: !Holds(Apply(s, Act(c, i)), d, v)
    ensures Live(Apply(s, Act(c, i)), v)
  {
    var k, s' := s.clients[c], Apply(s, Act(c, i));
    if k.user == v && Locked(k.pc) {
      assert Holds(s, c, v) && !Holds(s', c, v);
      LiveCommand(s, k, i);
    } else {
      forall d ensures !Holds(s, d, v) {
        assert !Holds(s', d, v);
      }
      assert Live(s, v);
      if k.user == v {
        UnlockedCommand(s, k, i);
      } else {
        CommandIsLocal(s, k, i, v);
        assert SameFor(s, s', v);
        LiveSame(s, s', Client(v, FastIndex));
      }
    }
  }

  /** An error, the end of a process or of a lock leaves addresses and index alone. */
  lemma LiveQuiet(s: State, e: Event)
    requires LockInv(s) && LiveInv(s) && Enabled(s, e) && Careful(s, e) && Tidy(s, e) && !e.Act?
    ensures LiveInv(Apply(s, e))
  {
    var s' := Apply(s, e);
    forall v, d | Holds(s', d, v) ensures LiveOk(s', s'.clients[d]) {
      assert Holds(s, d, v);
    }
    forall v | forall d :: !Holds(s', d, v) ensures Live(s', v) {
      if d :| Holds(s, d, v) {
        assert !Holds(s', d, v) && LiveOk(s, s.clients[d]);
      } else {
        assert Live(s, v);
      }
    }
  }

  lemma LiveStep(s: State, e: Event)
    requires OwnershipInv(s) && LockInv(s) && LiveInv(s) && Enabled(s, e) && Careful(s, e) && Tidy(s, e)
    ensures LiveInv(Apply(s, e))
  {
    if e.Act? {
      LiveAct(s, e.client, e.input);
    } else {
      LiveQuiet(s, e);
    }
  }

  /** If moreover no error falls between archiving an address and dropping it from the index,
      the index is at a live address whenever no one holds the user's lock. */
  lemma {:induction false} IndexStaysLive(s: State, es: seq<Event>, u: User)
    requires OwnershipInv(s) && LockInv(s) && LiveInv(s) && Run(s, es).Some? && AllCareful(s, es) && AllTidy(s, es)
    ensures var t := Run(s, es).value;
      LiveInv(t) && ((forall c :: !Holds(t, c, u)) && u in t.index ==> Active(t, u, t.index[u]))
    decreases |es|
  {
    if es != [] {
      var front := es[..|es| - 1];
      IndexStaysLive(s, front, u);
      AddressesArePermanent(s, front);
      OneActiveAddress(s, front, u, "", "");
      LiveStep(Run(s, front).value, es[|es| - 1]);
    }
    if forall c :: !Holds(Run(s, es).value, c, u) {
      assert Live(Run(s, es).value, u);
    }
  }

  // ---------------------------------------------------------------------
  // Why the care is needed
  // ---------------------------------------------------------------------

  lemma RunAppend(s: State, es: seq<Event>, e: Event)
    requires Run(s, es).Some? && Enabled(Run(s, es).value, e)
    ensures Run(s, es + [e]) == Some(Apply(Run(s, es).value, e))
  {
    assert (es + [e])[..|es|] == es;
  }

  ghost predicate LeadsTo(start: State, trace: seq<Event>, s: State) {
    forall here :: Unfolded(here) ==> Run(start, trace) == Some(s)
  }

  lemma LeadsOn(start: State, trace: seq<Event>, s: State, e: Event)
    requires LeadsTo(start, trace, s) && Enabled(s, e)
    ensures LeadsTo(start, trace + [e], Apply(s, e))
  {
    assert Unfolded(true);
    RunAppend(start, trace, e);
  }

  /** Some run goes from s to t. */
  ghost predicate Reaches(s: State, t: State) {
    exists es :: LeadsTo(s, es, t)
  }

  lemma Stays(s: State)
    ensures Reaches(s, s)
  {
    assert LeadsTo(s, [], s);
  }

  lemma Then(s: State, t: State, e: Event) returns (t': State)
    requires Reaches(s, t) && Enabled(t, e)
    ensures t' == Apply(t, e) && Reaches(s, t')
  {
    var es :| LeadsTo(s, es, t);
    LeadsOn(s, es, t, e);
    t' := Apply(t, e);
  }

  const IDLE := Input(0, [], false, "")

  /** A client that finds no index and no lock goes on to the pool. */
  lemma ReachPool(s: State, t: State, d: nat, u: User) returns (t': State)
    requires Reaches(s, t) && d !in t.clients && u !in t.index && u !in t.locks
    ensures Reaches(s, t') && t' == t.(locks := t.locks + {u}, clients := t.clients[d := Client(u, ReadPool)])
  {
    t' := Then(s, t, Begin(d, u, false));
    t' := Then(s, t', Act(d, IDLE));
    t' := Then(s, t', Act(d, IDLE));
    t' := Then(s, t', Act(d, IDLE));
  }

  /** It has seen the pool, in which there is the address b. */
  lemma ReachClaim(s: State, t: State, d: nat, u: User, b: Address) returns (t': State)
    requires Reaches(s, t) && d !in t.clients && u !in t.index && u !in t.locks && b in t.file
    ensures Reaches(s, t') && t' == t.(locks := t.locks + {u}, clients := t.clients[d := Client(u, Claim([b], 0))])
  {
    t' := ReachPool(s, t, d, u);
    t' := Then(s, t', Act(d, Input(0, [b], false, "")));
  }

  lemma ClaimIt(s: State, t: State, d: nat, u: User, b: Address) returns (t': State)
    requires Reaches(s, t) && d in t.clients && t.clients[d] == Client(u, Claim([b], 0)) && b !in t.wallets
    ensures Reaches(s, t')
    ensures t' == t.(wallets := t.wallets[b := Assignment(u, b, 0, false)], clients := t.clients[d := Client(u, Publish(b))])
  {
    t' := Then(s, t, Act(d, IDLE));
  }

  /** No client is at work, the user has no wallet and no lock, and a and b are free. */
  predicate NewUser(s: State, u: User, a: Address, b: Address) {
    && s.clients == map[] && u !in s.index && u !in s.locks
    && a != b && a in s.file && b in s.file && a !in s.wallets && b !in s.wallets
  }

  /** An error right after an address was claimed, before it is published, leaves it out of
      the index. Once the lock has run out the user is given a second active address. */
  lemma FailedPublishMakesTwo(s: State, u: User, a: Address, b: Address) returns (t: State)
    requires NewUser(s, u, a, b)
    ensures Reaches(s, t) && Active(t, u, a) && Active(t, u, b)
  {
    Stays(s);
    t := ReachClaim(s, s, 0, u, a);
    t := ClaimIt(s, t, 0, u, a);
    t := Then(s, t, Abort(0));
    t := Then(s, t, Expire(u));
    t := ReachClaim(s, t, 1, u, b);
    t := ClaimIt(s, t, 1, u, b);
  }

  /** A lock that runs out while its holder is about to claim lets a second client in, and
      both claim an address. */
  lemma ExpiredLockMakesTwo(s: State, u: User, a: Address, b: Address) returns (t: State)
    requires NewUser(s, u, a, b)
    ensures Reaches(s, t) && Active(t, u, a) && Active(t, u, b)
  {
    Stays(s);
    t := ReachClaim(s, s, 0, u, a);
    t := Then(s, t, Expire(u));
    t := ReachClaim(s, t, 1, u, b);
    t := ClaimIt(s, t, 1, u, b);
    t := ClaimIt(s, t, 0, u, a);
  }

  /** An error right after a rotation has archived the address leaves the index at it. */
  lemma HalfRotationHappens(s: State, u: User, a: Address) returns (t: State)
    requires OwnershipInv(s) && s.clients == map[] && u !in s.locks && PointsAt(s, u, a) && Active(s, u, a)
    ensures Reaches(s, t) && OwnershipInv(t) && StuckAt(t, u, a)
  {
    Stays(s);
    t := ReachArchive(s, u, a);
    t := Then(s, t, Act(0, IDLE));
    t := Then(s, t, Fail(0));
    ReachedIsOwned(s, t);
  }

  lemma ReachArchive(s: State, u: User, a: Address) returns (t: State)
    requires s.clients == map[] && u !in s.locks && PointsAt(s, u, a) && Active(s, u, a)
    ensures Reaches(s, t) && t == s.(locks := s.locks + {u}, clients := map[0 := Client(u, Archive(s.wallets[a]))])
  {
    Stays(s);
    t := Then(s, s, Begin(0, u, true));
    t := Then(s, t, Act(0, IDLE));
    t := Then(s, t, Act(0, IDLE));
    t := Then(s, t, Act(0, IDLE));
  }

  lemma ReachedIsOwned(s: State, t: State)
    requires OwnershipInv(s) && Reaches(s, t)
    ensures OwnershipInv(t)
  {
    var es :| LeadsTo(s, es, t);
    assert Unfolded(true);
    AddressesArePermanent(s, es);
  }

  /** Where a client that started after the half rotation can be. */
  predicate Stuck(s: State, k: Client) {
    var u := k.user;
    u in s.index &&
    match k.pc
    case FastIndex => true
    case FastPayload(a) => a == s.index[u]
    case TryLock(n, rotating) => true
    case WaitIndex(_) => true
    case WaitPayload(_, a) => a == s.index[u]
    case LockedIndex => true
    case LockedPayload(a) => a == s.index[u]
    case RotateIndex => true
    case RotatePayload(a) => a == s.index[u]
    case Release(r) => r.Some? ==> r.value == s.index[u]
    case Done(r) => r.Some? ==> r.value == s.index[u]
    case _ => false
  }

  /** The index of u is at a dormant address a, and no client knows better. */
  ghost predicate StuckAt(s: State, u: User, a: Address) {
    && PointsAt(s, u, a) && Owns(s, u, a) && s.wallets[a].dormant
    && forall c :: c in s.clients && s.clients[c].user == u ==> Stuck(s, s.clients[c])
  }

  predicate HandsOut(s: State, c: nat, u: User) {
    c in s.clients && s.clients[c].user == u && s.clients[c].pc.Done? && s.clients[c].pc.result.Some?
  }

  lemma StuckStep(s: State, e: Event, u: User, a: Address)
    requires OwnershipInv(s) && Enabled(s, e) && StuckAt(s, u, a)
    ensures StuckAt(Apply(s, e), u, a)
  {
    if e.Act? {
      var k := s.clients[e.client];
      assert ClientOk(s, k);
      if k.user != u {
        CommandIsLocal(s, k, e.input, u);
      }
    }
  }

  /** An error in the middle of a rotation can leave the index at a dormant address. From
      then on, in every run, that is the address each assignment hands out, and the index
      stays there: no rotation goes through. */
  lemma {:induction false} HalfRotationSticks(s: State, es: seq<Event>, u: User, a: Address, c: nat)
    requires OwnershipInv(s) && StuckAt(s, u, a) && Run(s, es).Some?
    ensures StuckAt(Run(s, es).value, u, a)
    ensures HandsOut(Run(s, es).value, c, u) ==> Run(s, es).value.clients[c].pc.result.value == a
    decreases |es|
  {
    if es != [] {
      HalfRotationSticks(s, es[..|es| - 1], u, a, c);
      AddressesArePermanent(s, es[..|es| - 1]);
      StuckStep(Run(s, es[..|es| - 1]).value, es[|es| - 1], u, a);
    }
  }
}
