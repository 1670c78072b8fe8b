/** Assigning and rotating wallets as the code does it, command by command, while other
    clients run in between (src/solana_pool.rs:501-696, 889-1006). */
module SolanaWallets {
  import opened Common
  import opened SolanaPool

  /** What a read of the user's index leads to. */
  function IndexRead(pc: Pc, r: Option<Address>): Pc
    requires pc.FastIndex? || pc.WaitIndex? || pc.LockedIndex? || pc.RotateIndex?
  {
    match pc
    case FastIndex => if r.Some? then FastPayload(r.value) else TryLock(0, false)
    case WaitIndex(n) => if r.Some? then WaitPayload(n, r.value) else TryLock(n + 1, false)
    case LockedIndex => if r.Some? then LockedPayload(r.value) else ReadPool
    case RotateIndex => if r.Some? then RotatePayload(r.value) else Release(None)
  }

  class Pool {
    var wallets: map<Address, Assignment>
    var index: map<User, Address>
    var locks: set<User>
    var file: set<Address>
    var memory: seq<Address>
    const maxPoolSize: nat
    ghost const start: State
    ghost var clients: map<nat, Client>
    ghost var trace: seq<Event>
    ghost var refusals: nat  // attempts to lock that found the user locked

    constructor (ghost start: State, wallets: map<Address, Assignment>, index: map<User, Address>, locks: set<User>,
                 file: set<Address>, memory: seq<Address>, maxPoolSize: nat)
      requires OwnershipInv(start) && start == State(wallets, index, locks, file, map[])
      requires forall i :: 0 <= i < |memory| ==> memory[i] in file
      ensures Valid() && Now() == start && trace == []
    {
      this.start, this.wallets, this.index, this.locks := start, wallets, index, locks;
      this.file, this.memory, this.maxPoolSize := file, memory, maxPoolSize;
      clients, trace, refusals := map[], [], 0;
    }

    ghost function Now(): State
      reads this
    {
      State(wallets, index, locks, file, clients)
    }

    ghost predicate Valid()
      reads this
    {
      && OwnershipInv(start) && LeadsTo(start, trace, Now())
      && forall i :: 0 <= i < |memory| ==> memory[i] in file
    }

    ghost predicate At(c: nat, user: User, pc: Pc)
      reads this
    {
      c in clients && clients[c] == Client(user, pc)
    }

    lemma Owned()
      requires Valid()
      ensures OwnershipInv(Now())
    {
      Reached(Now());
    }

    lemma Reached(s: State)
      requires OwnershipInv(start) && LeadsTo(start, trace, s)
      ensures OwnershipInv(s)
    {
      assert Unfolded(true);
      AddressesArePermanent(start, trace);
    }

    /** Anything the other clients, processes and clocks may do between two commands. The
        process's copy of the pool only ever grows. */
    method Others(c: nat)
      requires Valid()
      modifies this
      ensures Valid() && old(trace) <= trace && Permanent(old(Now()), Now()) && old(memory) <= memory
      ensures refusals == old(refusals)
      ensures c in old(clients) ==> c in clients && clients[c] == old(clients[c])
      ensures c !in old(clients) ==> c !in clients
    {
    }

    /** The command just executed was the next one of client c. */
    ghost method Acted(c: nat, i: Input, was: State)
      requires OwnershipInv(start) && LeadsTo(start, trace, was) && Enabled(was, Act(c, i))
      requires Apply(was, Act(c, i)) == Now().(clients := Apply(was, Act(c, i)).clients)
      requires forall i :: 0 <= i < |memory| ==> memory[i] in file
      modifies this`trace, this`clients
      ensures Valid() && Now() == Apply(was, Act(c, i)) && trace == old(trace) + [Act(c, i)]
      ensures Permanent(was, Now())
    {
      LeadsOn(start, trace, was, Act(c, i));
      Reached(was);
      OwnershipStep(was, Act(c, i));
      trace := trace + [Act(c, i)];
      clients := Apply(was, Act(c, i)).clients;
    }

    method ReadIndex(c: nat, user: User, ghost pc: Pc) returns (r: Option<Address>)
      requires Valid() && At(c, user, pc) && (pc.FastIndex? || pc.WaitIndex? || pc.LockedIndex? || pc.RotateIndex?)
      modifies this
      ensures Valid() && old(trace) <= trace && Permanent(old(Now()), Now()) && old(memory) <= memory && At(c, user, IndexRead(pc, r))
      ensures refusals == old(refusals)
      ensures r.Some? ==> Owns(Now(), user, r.value)
      ensures if user in index then r == Some(index[user]) else r == None
    {
      Others(c);
      ghost var was := Now();
      r := if user in index then Some(index[user]) else None;
      Acted(c, Input(0, [], false, ""), was);
      Owned();
    }

    /** Reads the payload of an address the client knows to be assigned. */
    method ReadPayload(c: nat, user: User, ghost pc: Pc, address: Address) returns (r: Option<Assignment>)
      requires Valid() && At(c, user, pc)
      requires pc == FastPayload(address) || (pc.WaitPayload? && pc.address == address)
               || pc == LockedPayload(address) || pc == RotatePayload(address)
      modifies this
      ensures Valid() && old(trace) <= trace && Permanent(old(Now()), Now()) && old(memory) <= memory
      ensures refusals == old(refusals)
      ensures Owns(Now(), user, address) && r == Some(wallets[address])
      ensures At(c, user,
        if pc.LockedPayload? then Release(Some(address))
        else if pc.RotatePayload? then (if r.value.dormant then Release(None) else Archive(r.value))
        else Done(Some(address)))
    {
      Others(c);
      Owned();
      assert ClientOk(Now(), clients[c]);
      ghost var was := Now();
      r := if address in wallets then Some(wallets[address]) else None;
      Acted(c, Input(0, [], false, ""), was);
    }

    /** `SET lock 1 NX EX`. */
    method TryLockUser(c: nat, user: User, tries: nat, rotating: bool) returns (won: bool)
      requires Valid() && At(c, user, TryLock(tries, rotating)) && tries < MAX_TRIES
      modifies this
      ensures Valid() && old(trace) <= trace && Permanent(old(Now()), Now()) && old(memory) <= memory
      ensures user in locks && refusals == old(refusals) + if won then 0 else 1
      ensures At(c, user,
        if won then (if rotating then RotateIndex else LockedIndex)
        else if rotating then TryLock(tries + 1, true) else WaitIndex(tries))
    {
      Others(c);
      ghost var was := Now();
      won := user !in locks;
      if won {
        locks := locks + {user};
      } else {
        refusals := refusals + 1;
      }
      Acted(c, Input(0, [], false, ""), was);
    }

    ghost method GiveUp(c: nat, user: User, rotating: bool)
      requires Valid() && At(c, user, TryLock(MAX_TRIES, rotating))
      modifies this`trace, this`clients
      ensures Valid() && old(trace) <= trace && Permanent(old(Now()), Now()) && old(memory) <= memory && At(c, user, Done(None))
      ensures refusals == old(refusals)
    {
      Acted(c, Input(0, [], false, ""), Now());
    }

    method ReleaseUserLock(c: nat, user: User, ghost result: Option<Address>)
      requires Valid() && At(c, user, Release(result))
      modifies this
      ensures Valid() && old(trace) <= trace && Permanent(old(Now()), Now()) && old(memory) <= memory && At(c, user, Done(result))
      ensures refusals == old(refusals)
    {
      Others(c);
      ghost var was := Now();
      locks := locks - {user};
      Acted(c, Input(0, [], false, ""), was);
    }

    /** `SET assignment NX`, for a candidate or for a new wallet. */
    method RegisterWallet(c: nat, user: User, ghost pc: Pc, address: Address, now: int) returns (won: bool)
      requires Valid() && At(c, user, pc)
      requires (pc.Claim? && pc.candidates != [] && pc.candidates[0] == address && pc.now == now) || pc == ClaimNew(address, now)
      modifies this
      ensures Valid() && old(trace) <= trace && Permanent(old(Now()), Now()) && old(memory) <= memory
      ensures refusals == old(refusals)
      ensures won ==> address !in old(wallets)
      ensures address in wallets && (won ==> wallets[address] == Assignment(user, address, now, false))
      ensures At(c, user, if won then Publish(address) else if pc.Claim? then Claim(pc.candidates[1..], now) else Release(None))
    {
      Others(c);
      ghost var was := Now();
      won := address !in wallets;
      if won {
        wallets := wallets[address := Assignment(user, address, now, false)];
      }
      Acted(c, Input(0, [], false, ""), was);
    }

    /** The copy of the pool, and the clock. */
    method ReadCandidates(c: nat, user: User, now: int) returns (candidates: seq<Address>)
      requires Valid() && At(c, user, ReadPool)
      modifies this
      ensures Valid() && old(trace) <= trace && Permanent(old(Now()), Now()) && old(memory) <= memory && At(c, user, Claim(candidates, now))
      ensures refusals == old(refusals) && old(memory) <= candidates
    {
      Others(c);
      ghost var was := Now();
      candidates := memory;
      Acted(c, Input(now, memory, false, ""), was);
    }

    /** Under the pool's write lock: refuse, or generate a key, append it to the file, and
        then add it to memory. */
    method GrowPool(c: nat, user: User, now: int, newAddress: Address) returns (grown: bool)
      requires Valid() && At(c, user, Claim([], now))
      modifies this
      ensures Valid() && old(trace) <= trace && Permanent(old(Now()), Now()) && old(memory) <= memory
      ensures refusals == old(refusals)
      ensures if grown then newAddress in file && newAddress in memory else |memory| >= maxPoolSize
      ensures At(c, user, if grown then ClaimNew(newAddress, now) else Release(None))
    {
      Others(c);
      Acted(c, Input(now, [], false, newAddress), Now());
      ghost var was := Now();
      grown := AppendWallet(newAddress);
      Acted(c, Input(now, [], grown, newAddress), was);
    }

    /** What happens under the write lock: a pool that is not full gains exactly the one
        address, in the file and in memory. */
    method AppendWallet(newAddress: Address) returns (grown: bool)
      modifies this`file, this`memory
      ensures grown <==> |old(memory)| < maxPoolSize
      ensures file == if grown then old(file) + {newAddress} else old(file)
      ensures memory == if grown then old(memory) + [newAddress] else old(memory)
    {
      grown := |memory| < maxPoolSize;
      if grown {
        file := file + {newAddress};
        memory := memory + [newAddress];
      }
    }

    /** `SET index address`. */
    method PublishIndex(c: nat, user: User, address: Address)
      requires Valid() && At(c, user, Publish(address))
      modifies this
      ensures Valid() && old(trace) <= trace && Permanent(old(Now()), Now()) && old(memory) <= memory && At(c, user, Release(Some(address)))
      ensures refusals == old(refusals)
    {
      Others(c);
      ghost var was := Now();
      index := index[user := address];
      Acted(c, Input(0, [], false, ""), was);
    }

    /** `claim_first_unassigned_wallet`: the first free candidate, else a new wallet. */
    method ClaimFirstUnassignedWallet(c: nat, user: User, now: int, newAddress: Address) returns (r: Option<Address>)
      requires Valid() && At(c, user, ReadPool)
      modifies this
      ensures Valid() && old(trace) <= trace && Permanent(old(Now()), Now()) && old(memory) <= memory
      ensures refusals == old(refusals)
      ensures At(c, user, if r.Some? then Publish(r.value) else Release(None))
      ensures r.Some? ==> Owns(Now(), user, r.value) && wallets[r.value].reservedAt == now && r.value !in old(wallets)
      ensures r.None? ==> Exhausted(old(memory), wallets, |memory|, maxPoolSize, newAddress)
    {
      r := ClaimCandidate(c, user, now);
      if r.Some? {
        return;
      }
      ghost var s1 := Now();
      var grown := GrowPool(c, user, now, newAddress);
      ghost var s2 := Now();
      PermanentThen(old(Now()), s1, s2);
      if !grown {
        return;
      }
      var won := RegisterWallet(c, user, ClaimNew(newAddress, now), newAddress, now);
      PermanentThen(old(Now()), s2, Now());
      if won {
        r := Some(newAddress);
      }
    }

    method ClaimCandidate(c: nat, user: User, now: int) returns (r: Option<Address>)
      requires Valid() && At(c, user, ReadPool)
      modifies this
      ensures Valid() && old(trace) <= trace && Permanent(old(Now()), Now()) && old(memory) <= memory
      ensures refusals == old(refusals)
      ensures At(c, user, if r.Some? then Publish(r.value) else Claim([], now))
      ensures r.Some? ==> Owns(Now(), user, r.value) && wallets[r.value].reservedAt == now && r.value !in old(wallets)
      ensures r.None? ==> forall a :: a in old(memory) ==> a in wallets
    {
      var candidates := ReadCandidates(c, user, now);
      var i := 0;
      while i < |candidates|
        invariant i <= |candidates| && Valid() && old(trace) <= trace && Permanent(old(Now()), Now()) && old(memory) <= memory
        invariant At(c, user, Claim(candidates[i..], now))
        invariant refusals == old(refusals) && old(memory) <= candidates
        invariant forall j :: 0 <= j < i ==> candidates[j] in wallets
      {
        ghost var s := Now();
        var won := RegisterWallet(c, user, Claim(candidates[i..], now), candidates[i], now);
        PermanentThen(old(Now()), s, Now());
        if won {
          return Some(candidates[i]);
        }
        assert candidates[i..][1..] == candidates[i + 1..];
        i := i + 1;
      }
      assert candidates[i..] == [];
      return None;
    }

    ghost method Start(c: nat, user: User, rotating: bool)
      requires Valid() && c !in clients
      modifies this`trace, this`clients
      ensures Valid() && old(trace) <= trace && Permanent(old(Now()), Now()) && old(memory) <= memory
      ensures refusals == old(refusals)
      ensures At(c, user, if rotating then TryLock(0, true) else FastIndex)
    {
      var e := Begin(c, user, rotating);
      LeadsOn(start, trace, Now(), e);
      trace, clients := trace + [e], Apply(Now(), e).clients;
    }

    /** The assignment named by the index, if there is one. */
    method ReadAssignment(c: nat, user: User, ghost pc: Pc) returns (r: Option<Assignment>)
      requires Valid() && At(c, user, pc) && (pc.FastIndex? || pc.WaitIndex? || pc.LockedIndex?)
      modifies this
      ensures Valid() && old(trace) <= trace && Permanent(old(Now()), Now()) && old(memory) <= memory
      ensures refusals == old(refusals)
      ensures r.Some? ==> r.value.address in wallets && wallets[r.value.address] == r.value && r.value.user == user
      ensures At(c, user, if r.None? then IndexRead(pc, None) else if pc.LockedIndex? then Release(Some(r.value.address)) else Done(Some(r.value.address)))
    {
      r := None;
      var address := ReadIndex(c, user, pc);
      ghost var s1 := Now();
      if address.Some? {
        r := ReadPayload(c, user, IndexRead(pc, address), address.value);
        PermanentThen(old(Now()), s1, Now());
        Owned();
      }
    }

    /** `assign_wallet_for_user`. A client never finds the payload of an indexed address
        missing, so the code's branches for that case are not taken. A user is refused only
        if the lock was taken at each of the 30 attempts, or the pool is exhausted. */
    method AssignWalletForUser(c: nat, user: User, now: int, newAddress: Address) returns (r: Option<Address>)
      requires Valid() && c !in clients
      modifies this
      ensures Valid() && old(trace) <= trace && Permanent(old(Now()), Now()) && old(memory) <= memory
      ensures user == "" ==> r.None? && trace == old(trace)
      ensures user != "" ==> At(c, user, Done(r))
      ensures r.Some? ==> Owns(Now(), user, r.value) && r.value in file
      ensures user != "" && r.None? ==>
                refusals == old(refusals) + 30 || Exhausted(old(memory), wallets, |memory|, maxPoolSize, newAddress)
    {
      if user == "" {
        return None;
      }
      Start(c, user, false);
      ghost var s1 := Now();
      var known := ReadAssignment(c, user, FastIndex);
      ghost var s2 := Now();
      PermanentThen(s1, s2, s2);
      if known.Some? {
        r := Some(known.value.address);
      } else {
        ghost var pool := memory;
        r := AssignLocked(c, user, now, newAddress);
        if r.None? && refusals != old(refusals) + 30 {
          ExhaustedStays(old(memory), pool, Now(), Now(), |memory|, |memory|, maxPoolSize, newAddress);
        }
      }
      Owned();
      assert ClientOk(Now(), clients[c]);
    }

    method AssignLocked(c: nat, user: User, now: int, newAddress: Address) returns (r: Option<Address>)
      requires Valid() && At(c, user, TryLock(0, false))
      modifies this
      ensures Valid() && old(trace) <= trace && Permanent(old(Now()), Now()) && old(memory) <= memory && At(c, user, Done(r))
      ensures r.None? ==> refusals == old(refusals) + 30 || Exhausted(old(memory), wallets, |memory|, maxPoolSize, newAddress)
    {
      var tries := 0;
      while tries < MAX_TRIES
        invariant tries <= MAX_TRIES && Valid() && old(trace) <= trace && Permanent(old(Now()), Now()) && old(memory) <= memory
        invariant At(c, user, TryLock(tries, false)) && refusals == old(refusals) + tries
      {
        ghost var s := Now();
        var acquired := TryLockUser(c, user, tries, false);
        PermanentThen(old(Now()), s, Now());
        s := Now();
        if acquired {
          ghost var pool := memory;
          r := AssignUnderLock(c, user, now, newAddress);
          PermanentThen(old(Now()), s, Now());
          if r.None? {
            ExhaustedStays(old(memory), pool, Now(), Now(), |memory|, |memory|, maxPoolSize, newAddress);
          }
          return;
        }
        var known := ReadAssignment(c, user, WaitIndex(tries));
        PermanentThen(old(Now()), s, Now());
        if known.Some? {
          return Some(known.value.address);
        }
        tries := tries + 1;
      }
      ghost var s := Now();
      GiveUp(c, user, false);
      PermanentThen(old(Now()), s, Now());
      return None;
    }

    method AssignUnderLock(c: nat, user: User, now: int, newAddress: Address) returns (r: Option<Address>)
      requires Valid() && At(c, user, LockedIndex)
      modifies this
      ensures Valid() && old(trace) <= trace && Permanent(old(Now()), Now()) && old(memory) <= memory && At(c, user, Done(r))
      ensures refusals == old(refusals)
      ensures r.None? ==> Exhausted(old(memory), wallets, |memory|, maxPoolSize, newAddress)
    {
      var known := ReadAssignment(c, user, LockedIndex);
      ghost var s, pool := Now(), memory;
      if known.Some? {
        r := Some(known.value.address);
        ReleaseUserLock(c, user, r);
        PermanentThen(old(Now()), s, Now());
        return;
      }
      r := ClaimFirstUnassignedWallet(c, user, now, newAddress);
      PermanentThen(old(Now()), s, Now());
      s := Now();
      if r.Some? {
        PublishIndex(c, user, r.value);
        PermanentThen(old(Now()), s, Now());
        s := Now();
      }
      ghost var size := |memory|;
      ReleaseUserLock(c, user, r);
      PermanentThen(old(Now()), s, Now());
      if r.None? {
        ExhaustedStays(old(memory), pool, s, Now(), size, |memory|, maxPoolSize, newAddress);
      }
    }

    /** `SET assignment` with the payload read before, now dormant. */
    method ArchiveCurrent(c: nat, user: User, current: Assignment)
      requires Valid() && At(c, user, Archive(current))
      modifies this
      ensures Valid() && old(trace) <= trace && Permanent(old(Now()), Now()) && old(memory) <= memory && At(c, user, DropIndex)
      ensures refusals == old(refusals)
      ensures Owns(Now(), user, current.address) && wallets[current.address].dormant
    {
      Others(c);
      Owned();
      assert ClientOk(Now(), clients[c]);
      ghost var was := Now();
      wallets := wallets[current.address := current.(dormant := true)];
      Acted(c, Input(0, [], false, ""), was);
    }

    method DropUserIndex(c: nat, user: User)
      requires Valid() && At(c, user, DropIndex)
      modifies this
      ensures Valid() && old(trace) <= trace && Permanent(old(Now()), Now()) && old(memory) <= memory && At(c, user, ReadPool)
      ensures refusals == old(refusals)
    {
      Others(c);
      ghost var was := Now();
      index := index - {user};
      Acted(c, Input(0, [], false, ""), was);
    }

    /** `rotate_assignment`: returns the retired address and the new one. It fails only if
        the lock was taken at each of the 30 attempts, there was nothing to rotate when the
        index was read, or the pool is exhausted. */
    method RotateAssignment(c: nat, user: User, now: int, newAddress: Address)
      returns (r: Option<(Address, Address)>, ghost seen: State)
      requires Valid() && c !in clients
      modifies this
      ensures Valid() && old(trace) <= trace && Permanent(old(Now()), Now()) && old(memory) <= memory
      ensures user == "" ==> r.None? && trace == old(trace)
      ensures r.Some? ==> Rotated(old(Now()), Now(), user, r.value.0, r.value.1)
      ensures user != "" ==> At(c, user, Done(if r.Some? then Some(r.value.1) else None))
      ensures user != "" && r.None? ==>
                || refusals == old(refusals) + 30
                || (Visited(old(trace), seen) && NothingToRotate(seen, wallets, user))
                || Exhausted(old(memory), wallets, |memory|, maxPoolSize, newAddress)
    {
      seen := Now();
      if user == "" {
        return None, seen;
      }
      Start(c, user, true);
      ghost var s := Now();
      var tries := 0;
      while tries < MAX_TRIES
        invariant tries <= MAX_TRIES && Valid() && old(trace) <= trace && Permanent(old(Now()), Now()) && old(memory) <= memory
        invariant At(c, user, TryLock(tries, true)) && refusals == old(refusals) + tries
      {
        s := Now();
        var acquired := TryLockUser(c, user, tries, true);
        PermanentThen(old(Now()), s, Now());
        s := Now();
        if acquired {
          ghost var pool, t := memory, trace;
          r, seen := RotateLocked(c, user, now, newAddress);
          PermanentThen(old(Now()), s, Now());
          if r.None? {
            RefusedLonger(old(trace), t, seen, user, old(memory), pool, newAddress);
          }
          return;
        }
        tries := tries + 1;
      }
      s := Now();
      GiveUp(c, user, true);
      PermanentThen(old(Now()), s, Now());
      return None, seen;
    }

    /** The state is one that the events since then went through. */
    ghost predicate Visited(since: seq<Event>, s: State)
      reads this
    {
      exists es :: since <= es <= trace && LeadsTo(start, es, s)
    }

    /** Why a rotation under the lock fails. */
    ghost predicate Refused(since: seq<Event>, seen: State, user: User, pool: seq<Address>, newAddress: Address)
      reads this
    {
      || (Visited(since, seen) && NothingToRotate(seen, wallets, user))
      || Exhausted(pool, wallets, |memory|, maxPoolSize, newAddress)
    }

    lemma RefusedLonger(since': seq<Event>, since: seq<Event>, seen: State, user: User, pool': seq<Address>, pool: seq<Address>, newAddress: Address)
      requires Refused(since, seen, user, pool, newAddress) && since' <= since && pool' <= pool
      ensures Refused(since', seen, user, pool', newAddress)
    {
      if Visited(since, seen) {
        var es :| since <= es <= trace && LeadsTo(start, es, seen);
        assert since' <= es;
      }
    }

    /** `rotate_assignment_locked`, and the release of the lock after it. */
    method RotateLocked(c: nat, user: User, now: int, newAddress: Address) returns (r: Option<(Address, Address)>, ghost seen: State)
      requires Valid() && At(c, user, RotateIndex)
      modifies this
      ensures Valid() && old(trace) <= trace && Permanent(old(Now()), Now()) && old(memory) <= memory
      ensures refusals == old(refusals)
      ensures r.Some? ==> Rotated(old(Now()), Now(), user, r.value.0, r.value.1)
      ensures At(c, user, Done(if r.Some? then Some(r.value.1) else None))
      ensures r.None? ==> Refused(old(trace), seen, user, old(memory), newAddress)
    {
      var current;
      current, seen := RetireCurrent(c, user);
      ghost var s, t := Now(), trace;
      if current.None? {
        ReleaseUserLock(c, user, None);
        PermanentThen(old(Now()), s, Now());
        VisitedStays(old(trace), t, seen);
        return None, seen;
      }
      r := ClaimAndPublish(c, user, now, newAddress, current.value.address);
      PermanentThen(old(Now()), s, Now());
    }

    /** The second half of a rotation: claim, publish, release. */
    method ClaimAndPublish(c: nat, user: User, now: int, newAddress: Address, retired: Address) returns (r: Option<(Address, Address)>)
      requires Valid() && At(c, user, ReadPool) && Owns(Now(), user, retired) && wallets[retired].dormant
      modifies this
      ensures Valid() && old(trace) <= trace && Permanent(old(Now()), Now()) && old(memory) <= memory
      ensures refusals == old(refusals)
      ensures r.Some? ==> r.value.0 == retired && Rotated(old(Now()), Now(), user, retired, r.value.1)
      ensures At(c, user, Done(if r.Some? then Some(r.value.1) else None))
      ensures r.None? ==> Exhausted(old(memory), wallets, |memory|, maxPoolSize, newAddress)
    {
      var claimed := ClaimFirstUnassignedWallet(c, user, now, newAddress);
      ghost var s, size := Now(), |memory|;
      if claimed.None? {
        ReleaseUserLock(c, user, None);
        PermanentThen(old(Now()), s, Now());
        ExhaustedStays(old(memory), old(memory), s, Now(), size, |memory|, maxPoolSize, newAddress);
        return None;
      }
      PublishIndex(c, user, claimed.value);
      PermanentThen(old(Now()), s, Now());
      s := Now();
      ReleaseUserLock(c, user, claimed);
      PermanentThen(old(Now()), s, Now());
      return Some((retired, claimed.value));
    }

    lemma VisitedStays(since: seq<Event>, till: seq<Event>, seen: State)
      requires till <= trace && exists es :: since <= es <= till && LeadsTo(start, es, seen)
      ensures Visited(since, seen)
    {
      var es :| since <= es <= till && LeadsTo(start, es, seen);
      assert es <= trace;
    }

    /** Archive the current assignment and drop the index; None if there is nothing to
        rotate. */
    method RetireCurrent(c: nat, user: User) returns (r: Option<Assignment>, ghost seen: State)
      requires Valid() && At(c, user, RotateIndex)
      modifies this
      ensures Valid() && old(trace) <= trace && Permanent(old(Now()), Now()) && old(memory) <= memory
      ensures refusals == old(refusals)
      ensures At(c, user, if r.Some? then ReadPool else Release(None))
      ensures r.Some? ==> Owns(Now(), user, r.value.address) && wallets[r.value.address].dormant
      ensures r.None? ==> Visited(old(trace), seen) && NothingToRotate(seen, wallets, user)
    {
      var address := ReadIndex(c, user, RotateIndex);
      ghost var s, t := Now(), trace;
      seen := s;
      assert Visited(old(trace), seen);
      if address.None? {
        return None, seen;
      }
      r := ReadPayload(c, user, RotatePayload(address.value), address.value);
      PermanentThen(old(Now()), s, Now());
      VisitedStays(old(trace), t, seen);
      s := Now();
      if r.value.dormant {
        return None, seen;
      }
      ArchiveCurrent(c, user, r.value);
      PermanentThen(old(Now()), s, Now());
      s := Now();
      DropUserIndex(c, user);
      PermanentThen(old(Now()), s, Now());
    }
  }

  /** Every address of the pool is assigned, and it could not grow by a new one: it is full,
      or the new address is assigned as well. */
  ghost predicate Exhausted(pool: seq<Address>, wallets: map<Address, Assignment>, size: nat, maxPoolSize: nat, newAddress: Address) {
    (forall a :: a in pool ==> a in wallets) && (size >= maxPoolSize || newAddress in wallets)
  }

  lemma ExhaustedStays(pool': seq<Address>, pool: seq<Address>, s: State, s': State, size: nat, size': nat, maxPoolSize: nat, newAddress: Address)
    requires Exhausted(pool, s.wallets, size, maxPoolSize, newAddress)
    requires pool' <= pool && Permanent(s, s') && size <= size'
    ensures Exhausted(pool', s'.wallets, size', maxPoolSize, newAddress)
  {
  }

  /** The user's index named no address, or one that is dormant. */
  predicate NothingToRotate(seen: State, wallets: map<Address, Assignment>, user: User) {
    user !in seen.index || (seen.index[user] in wallets && wallets[seen.index[user]].dormant)
  }

  /** The retired address is the user's and dormant, the new one the user's and assigned
      only now. */
  ghost predicate Rotated(was: State, s: State, user: User, retired: Address, renewed: Address) {
    && Owns(s, user, retired) && s.wallets[retired].dormant
    && Owns(s, user, renewed) && renewed !in was.wallets
  }
}
