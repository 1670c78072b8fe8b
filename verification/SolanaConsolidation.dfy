/** The consolidation of assignments when a process starts
    (src/solana_pool.rs:364-398, 801-879). */
module SolanaConsolidation {
  import opened Common
  import opened SolanaPool

  type Wallets = map<Address, Assignment>
  type Index = map<User, Address>

  // ---------------------------------------------------------------------
  // Which assignment comes first
  // ---------------------------------------------------------------------

  predicate Less(a: string, b: string) {
    b != "" && (a == "" || a[0] < b[0] || (a[0] == b[0] && Less(a[1..], b[1..])))
  }

  /** The strings agree up to n, where the first one ends or has the smaller character. */
  predicate SmallerAt(a: string, b: string, n: nat) {
    n <= |a| && n < |b| && a[..n] == b[..n] && (n == |a| || a[n] < b[n])
  }

  lemma {:induction false} LessIsLexicographic(a: string, b: string)
    ensures Less(a, b) <==> exists n: nat :: SmallerAt(a, b, n)
  {
    if a != "" && b != "" && a[0] == b[0] {
      LessIsLexicographic(a[1..], b[1..]);
      if n: nat :| SmallerAt(a[1..], b[1..], n) {
        assert a[..n + 1] == [a[0]] + a[1..][..n] && b[..n + 1] == [b[0]] + b[1..][..n];
        assert SmallerAt(a, b, n + 1);
      }
      if n: nat :| SmallerAt(a, b, n) {
        assert n > 0;
        assert a[1..][..n - 1] == a[..n][1..] && b[1..][..n - 1] == b[..n][1..];
        assert SmallerAt(a[1..], b[1..], n - 1);
      }
    } else if b != "" && (a == "" || a[0] < b[0]) {
      assert SmallerAt(a, b, 0);
    } else {
      forall n: nat ensures !SmallerAt(a, b, n) {
        assert 0 < n <= |a| && n < |b| ==> a[..n][0] == a[0] && b[..n][0] == b[0];
      }
    }
  }

  lemma {:induction false} LessIsTotal(a: string, b: string)
    ensures a == b || Less(a, b) || Less(b, a)
  {
    if a != "" && b != "" && a[0] == b[0] {
      LessIsTotal(a[1..], b[1..]);
      assert a == [a[0]] + a[1..] && b == [b[0]] + b[1..];
    }
  }

  lemma {:induction false} LessIsStrict(a: string, b: string)
    ensures !(Less(a, b) && Less(b, a))
  {
    if a != "" && b != "" {
      LessIsStrict(a[1..], b[1..]);
    }
  }

  lemma {:induction false} LessIsTransitive(a: string, b: string, c: string)
    requires Less(a, b) && Less(b, c)
    ensures Less(a, c)
  {
    if a != "" && a[0] == b[0] && b[0] == c[0] {
      LessIsTransitive(a[1..], b[1..], c[1..]);
    }
  }

  /** The earlier reservation, then the smaller address. */
  predicate Before(x: Assignment, y: Assignment) {
    x.reservedAt < y.reservedAt || (x.reservedAt == y.reservedAt && Less(x.address, y.address))
  }

  lemma BeforeIsTransitive(x: Assignment, y: Assignment, z: Assignment)
    requires Before(x, y) && Before(y, z)
    ensures Before(x, z)
  {
    if Less(x.address, y.address) && Less(y.address, z.address) {
      LessIsTransitive(x.address, y.address, z.address);
    }
  }

  lemma BeforeIsTotal(x: Assignment, y: Assignment)
    ensures x.address != y.address ==> Before(x, y) || Before(y, x)
    ensures !(Before(x, y) && Before(y, x))
  {
    LessIsTotal(x.address, y.address);
    LessIsStrict(x.address, y.address);
  }

  // ---------------------------------------------------------------------
  // What consolidation is for
  // ---------------------------------------------------------------------

  predicate IsActive(m: Wallets, u: User, a: Address) {
    a in m && m[a].user == u && !m[a].dormant
  }

  /** The active assignment of u that comes before all others. */
  ghost predicate Canonical(m: Wallets, u: User, a: Address) {
    IsActive(m, u, a) && forall b :: IsActive(m, u, b) && b != a ==>
      m[a].reservedAt < m[b].reservedAt || (m[a].reservedAt == m[b].reservedAt && Less(m[a].address, m[b].address))
  }

  ghost predicate HasActive(m: Wallets, u: User) {
    exists a :: IsActive(m, u, a)
  }

  ghost predicate Keyed(m: Wallets) {
    forall a :: a in m ==> m[a].address == a
  }

  /** Duplicates are dormant, each user with an active address is indexed to the canonical
      one, and nothing else changed. */
  ghost predicate Consolidated(m: Wallets, index: Index, m': Wallets, index': Index) {
    && m'.Keys == m.Keys
    && (forall a :: a in m ==> m'[a] == Settled(m, m[a]))
    && (forall u :: HasActive(m, u) ==> u in index' && Canonical(m, u, index'[u]))
    && (forall u :: !HasActive(m, u) ==> Get(index', u) == Get(index, u))
  }

  ghost function Settled(m: Wallets, x: Assignment): Assignment {
    if !x.dormant && !Canonical(m, x.user, x.address) then x.(dormant := true) else x
  }

  lemma CanonicalIsUnique(m: Wallets, u: User, a: Address, b: Address)
    requires Canonical(m, u, a) && Canonical(m, u, b)
    ensures a == b
  {
    if a != b {
      BeforeIsTotal(m[a], m[b]);
    }
  }

  lemma CanonicalStays(m: Wallets, index: Index, m': Wallets, index': Index, u: User, a: Address)
    requires Keyed(m) && Consolidated(m, index, m', index') && Canonical(m, u, a)
    ensures IsActive(m', u, a) && forall b :: IsActive(m', u, b) ==> b == a
    ensures Canonical(m', u, a)
  {
    assert m'[a] == Settled(m, m[a]);
    forall b | IsActive(m', u, b) ensures b == a {
      assert m'[b] == Settled(m, m[b]);
      CanonicalIsUnique(m, u, a, b);
    }
  }

  /** Afterwards each user with an active address has exactly one, the canonical one,
      indexed to it; owners and dates are as before. */
  lemma ConsolidationConverges(m: Wallets, index: Index, m': Wallets, index': Index, u: User)
    requires Keyed(m) && Consolidated(m, index, m', index')
    ensures Keyed(m') && forall a :: a in m ==> a in m' && OnlyAges(m[a], m'[a])
    ensures HasActive(m, u) <==> HasActive(m', u)
    ensures HasActive(m', u) ==> u in index' && IsActive(m', u, index'[u]) && Canonical(m, u, index'[u])
    ensures forall b :: IsActive(m, u, b) ==> m[index'[u]].reservedAt <= m[b].reservedAt
    ensures forall a :: IsActive(m', u, a) ==> a == index'[u]
  {
    forall a | a in m ensures a in m' && OnlyAges(m[a], m'[a]) {
      assert m'[a] == Settled(m, m[a]);
    }
    if HasActive(m, u) {
      CanonicalStays(m, index, m', index', u, index'[u]);
    }
    if a :| IsActive(m', u, a) {
      assert m'[a] == Settled(m, m[a]);
      assert IsActive(m, u, a);
    }
  }

  lemma NothingLeftToArchive(m: Wallets, i: Index, m1: Wallets, i1: Index, a: Address)
    requires Keyed(m) && Consolidated(m, i, m1, i1) && a in m1
    ensures Settled(m1, m1[a]) == m1[a]
  {
    var u := m1[a].user;
    ConsolidationConverges(m, i, m1, i1, u);
    if !m1[a].dormant {
      assert IsActive(m1, u, a);
      CanonicalStays(m, i, m1, i1, u, i1[u]);
    }
  }

  lemma NothingLeftToIndex(m: Wallets, i: Index, m1: Wallets, i1: Index, m2: Wallets, i2: Index, u: User)
    requires Keyed(m) && Consolidated(m, i, m1, i1) && Consolidated(m1, i1, m2, i2)
    ensures Get(i2, u) == Get(i1, u)
  {
    if HasActive(m1, u) {
      ConsolidationConverges(m, i, m1, i1, u);
      CanonicalStays(m, i, m1, i1, u, i1[u]);
      CanonicalIsUnique(m1, u, i1[u], i2[u]);
    }
  }

  /** A second consolidation changes nothing. */
  lemma ConsolidationIsIdempotent(m: Wallets, i: Index, m1: Wallets, i1: Index, m2: Wallets, i2: Index)
    requires Keyed(m) && Consolidated(m, i, m1, i1) && Consolidated(m1, i1, m2, i2)
    ensures m2 == m1 && i2 == i1
  {
    forall a | a in m1 ensures m2[a] == m1[a] {
      NothingLeftToArchive(m, i, m1, i1, a);
    }
    forall u ensures Get(i2, u) == Get(i1, u) {
      NothingLeftToIndex(m, i, m1, i1, m2, i2, u);
    }
    SameEntries(i1, i2);
  }

  lemma SameEntries(i: Index, j: Index)
    requires forall u :: Get(j, u) == Get(i, u)
    ensures i == j
  {
    forall u ensures u in i <==> u in j {
      assert Get(j, u) == Get(i, u);
    }
    forall u | u in i ensures i[u] == j[u] {
      assert Get(j, u) == Get(i, u);
    }
  }

  /** A consolidated store is one from which the assignment protocol keeps each user at one
      active address. */
  lemma ConsolidationEstablishesLockInv(m: Wallets, i: Index, m': Wallets, i': Index, file: set<Address>)
    requires Keyed(m) && Consolidated(m, i, m', i') && m.Keys <= file
    requires forall u :: u in i ==> i[u] in m && m[i[u]].user == u
    ensures var s := State(m', i', {}, file, map[]); OwnershipInv(s) && LockInv(s)
  {
    var s := State(m', i', {}, file, map[]);
    forall u ensures u in i' ==> Owns(s, u, i'[u]) {
      ConsolidationConverges(m, i, m', i', u);
      if u in i' && !HasActive(m, u) {
        assert Get(i', u) == Get(i, u);
      }
    }
    forall u ensures Indexed(s, u) {
      ConsolidationConverges(m, i, m', i', u);
      forall a | Active(s, u, a) ensures u in i' && a == i'[u] {
        assert IsActive(m', u, a);
      }
    }
    forall a | a in m' ensures m'[a].address == a && a in file {
      assert m'[a] == Settled(m, m[a]);
    }
  }

  // ---------------------------------------------------------------------
  // The code
  // ---------------------------------------------------------------------

  function Insert(x: Assignment, s: seq<Assignment>): (r: seq<Assignment>)
    ensures multiset(r) == multiset(s) + multiset{x}
  {
    if s == [] || Before(x, s[0]) then [x] + s
    else assert s == [s[0]] + s[1..]; [s[0]] + Insert(x, s[1..])
  }

  /** `sort_by`: by date, then address. */
  function SortByAge(s: seq<Assignment>): (r: seq<Assignment>)
    ensures multiset(r) == multiset(s)
  {
    if s == [] then [] else assert s == [s[0]] + s[1..]; Insert(s[0], SortByAge(s[1..]))
  }

  ghost predicate Ascends(s: seq<Assignment>) {
    forall i, j :: 0 <= i < j < |s| ==> !Before(s[j], s[i])
  }

  lemma {:induction false} InsertAscends(x: Assignment, s: seq<Assignment>)
    requires Ascends(s)
    ensures Ascends(Insert(x, s))
  {
    if s != [] && !Before(x, s[0]) {
      InsertAscends(x, s[1..]);
      var rest := Insert(x, s[1..]);
      forall j | 0 <= j < |rest| ensures !Before(rest[j], s[0]) {
        assert rest[j] in multiset(rest);
        assert rest[j] == x || rest[j] in s[1..];
      }
    } else if s != [] {
      forall j | 0 <= j < |s| ensures !Before(s[j], x) {
        if Before(s[j], x) {
          BeforeIsTransitive(s[j], x, s[0]);
          BeforeIsTotal(s[0], s[0]);
        }
      }
    }
  }

  lemma {:induction false} SortByAgeAscends(s: seq<Assignment>)
    ensures Ascends(SortByAge(s))
  {
    if s != [] {
      SortByAgeAscends(s[1..]);
      InsertAscends(s[0], SortByAge(s[1..]));
    }
  }

  predicate Distinct(xs: seq<Assignment>) {
    forall i, j :: 0 <= i < j < |xs| ==> xs[i].address != xs[j].address
  }

  /** The group of u: its active assignments, once each. */
  ghost predicate IsGroup(m: Wallets, u: User, g: seq<Assignment>) {
    && Distinct(g)
    && (forall x :: x in g ==> IsActive(m, u, x.address) && m[x.address] == x)
    && (forall a :: IsActive(m, u, a) ==> m[a] in g)
  }

  /** So the head of the sorted group is canonical, and the rest are the duplicates. */
  lemma HeadIsCanonical(m: Wallets, u: User, g: seq<Assignment>)
    requires Keyed(m) && IsGroup(m, u, g) && g != []
    ensures var s := SortByAge(g); IsGroup(m, u, s) && |s| == |g| && Canonical(m, u, s[0].address)
  {
    var s := SortByAge(g);
    SortByAgeAscends(g);
    SameGroup(m, u, g, s);
    forall b | IsActive(m, u, b) && b != s[0].address ensures Before(s[0], m[b]) {
      var j :| 0 <= j < |s| && s[j] == m[b];
      BeforeIsTotal(s[0], s[j]);
    }
  }

  lemma SameGroup(m: Wallets, u: User, g: seq<Assignment>, s: seq<Assignment>)
    requires IsGroup(m, u, g) && multiset(s) == multiset(g)
    ensures IsGroup(m, u, s) && |s| == |g|
  {
    assert |multiset(s)| == |s| && |multiset(g)| == |g|;
    assert forall x :: x in s <==> x in multiset(s);
    assert forall x :: x in g <==> x in multiset(g);
    forall i, j | 0 <= i < j < |s| ensures s[i].address != s[j].address {
      if s[i].address == s[j].address {
        assert s[i] == s[j] == m[s[i].address];
        TwiceInMultiset(s, i, j);
        OnceInMultiset(g, s[i]);
      }
    }
  }

  lemma TwiceInMultiset(s: seq<Assignment>, i: nat, j: nat)
    requires i < j < |s| && s[i] == s[j]
    ensures multiset(s)[s[i]] >= 2
  {
    assert s == s[..i] + [s[i]] + s[i + 1..j] + [s[j]] + s[j + 1..];
  }

  lemma {:induction false} OnceInMultiset(g: seq<Assignment>, x: Assignment)
    requires Distinct(g)
    ensures multiset(g)[x] <= 1
  {
    if g != [] {
      assert g == [g[0]] + g[1..];
      OnceInMultiset(g[1..], x);
      assert forall j :: 0 <= j < |g[1..]| ==> g[1..][j] == g[j + 1];
    }
  }

  function ActiveOf(xs: seq<Assignment>, u: User): (r: seq<Assignment>)
    ensures forall x :: x in r <==> x in xs && x.user == u && !x.dormant
  {
    if xs == [] then []
    else ActiveOf(xs[..|xs| - 1], u) + if xs[|xs| - 1].user == u && !xs[|xs| - 1].dormant then [xs[|xs| - 1]] else []
  }

  ghost predicate Lists(m: Wallets, xs: seq<Assignment>) {
    && Distinct(xs)
    && (forall x :: x in xs ==> x.address in m && m[x.address] == x)
    && (forall a :: a in m ==> m[a] in xs)
  }

  lemma {:induction false} ActiveOfIsDistinct(xs: seq<Assignment>, u: User)
    requires Distinct(xs)
    ensures Distinct(ActiveOf(xs, u))
  {
    if xs != [] {
      var front, last := xs[..|xs| - 1], xs[|xs| - 1];
      ActiveOfIsDistinct(front, u);
      var g := ActiveOf(front, u);
      forall i | 0 <= i < |g| ensures g[i].address != last.address {
        assert g[i] in g && g[i] in front;
        var k :| 0 <= k < |front| && front[k] == g[i];
        assert xs[k].address != last.address;
      }
      assert ActiveOf(xs, u) == g || ActiveOf(xs, u) == g + [last];
      assert Distinct(g + [last]);
    }
  }

  lemma ActiveOfIsGroup(m: Wallets, xs: seq<Assignment>, u: User)
    requires Keyed(m) && Lists(m, xs)
    ensures IsGroup(m, u, ActiveOf(xs, u)) && (HasActive(m, u) <==> ActiveOf(xs, u) != [])
  {
    ActiveOfIsDistinct(xs, u);
    var g := ActiveOf(xs, u);
    forall a | IsActive(m, u, a) ensures m[a] in g {
      assert m[a] in xs;
    }
    if a :| IsActive(m, u, a) {
      assert m[a] in g;
    }
    if g != [] {
      assert g[0] in g;
      assert IsActive(m, u, g[0].address);
    }
  }

  ghost function Duplicates(m: Wallets): set<Address> {
    set a | a in m && Settled(m, m[a]) != m[a]
  }

  /** Settled for every user but those in rest. */
  ghost predicate PartlyDone(m: Wallets, index: Index, m': Wallets, index': Index, rest: set<User>) {
    && m'.Keys == m.Keys
    && (forall a :: a in m ==> m'[a] == if m[a].user in rest then m[a] else Settled(m, m[a]))
    && (forall u :: HasActive(m, u) && u !in rest ==> u in index' && Canonical(m, u, index'[u]))
    && (forall u :: !HasActive(m, u) || u in rest ==> Get(index', u) == Get(index, u))
  }

  class Store {
    var wallets: Wallets
    var index: Index

    constructor (wallets: Wallets, index: Index)
      ensures this.wallets == wallets && this.index == index
    {
      this.wallets, this.index := wallets, index;
    }

    /** `load_active_reservations`: the scan reports the keys in any order. */
    method LoadReservations() returns (r: seq<Assignment>)
      requires Keyed(wallets)
      ensures Lists(wallets, r)
    {
      r := [];
      var keys := wallets.Keys;
      while keys != {}
        invariant keys <= wallets.Keys
        invariant forall x :: x in r ==> x.address in wallets.Keys - keys && wallets[x.address] == x
        invariant forall a :: a in wallets.Keys - keys ==> wallets[a] in r
        invariant Distinct(r)
        decreases keys
      {
        var a :| a in keys;
        r := r + [wallets[a]];
        keys := keys - {a};
      }
    }

    method GroupActive(xs: seq<Assignment>) returns (groups: map<User, seq<Assignment>>)
      ensures forall u :: u in groups <==> ActiveOf(xs, u) != []
      ensures forall u :: u in groups ==> groups[u] == ActiveOf(xs, u)
    {
      groups := map[];
      var n := 0;
      while n < |xs|
        invariant n <= |xs|
        invariant forall u :: u in groups <==> ActiveOf(xs[..n], u) != []
        invariant forall u :: u in groups ==> groups[u] == ActiveOf(xs[..n], u)
      {
        var x := xs[n];
        assert xs[..n + 1][..n] == xs[..n];
        if !x.dormant {
          groups := groups[x.user := (if x.user in groups then groups[x.user] else []) + [x]];
        }
        n := n + 1;
      }
      assert xs[..n] == xs;
    }

    /** Rewrite everything after the head as dormant. */
    method ArchiveDuplicates(sorted: seq<Assignment>) returns (archived: nat)
      requires sorted != [] && forall x :: x in sorted ==> x.address in wallets
      requires Distinct(sorted)
      modifies this`wallets
      ensures archived == |sorted| - 1 && Archived(old(wallets), wallets, sorted, |sorted|)
    {
      archived := 0;
      while archived < |sorted| - 1
        invariant archived <= |sorted| - 1 && Archived(old(wallets), wallets, sorted, archived + 1)
      {
        var dupe := sorted[archived + 1];
        assert dupe in sorted;
        ArchivedNext(old(wallets), wallets, sorted, archived + 1);
        wallets := wallets[dupe.address := dupe.(dormant := true)];
        archived := archived + 1;
      }
    }

    /** Archive the duplicates of one group and publish its canonical assignment. */
    method SettleGroup(u: User, group: seq<Assignment>, ghost m: Wallets, ghost i: Index, ghost rest: set<User>)
      returns (archived: nat)
      requires Keyed(m) && IsGroup(m, u, group) && group != [] && u in rest && PartlyDone(m, i, wallets, index, rest)
      modifies this
      ensures PartlyDone(m, i, wallets, index, rest - {u}) && archived == |group| - 1
    {
      HeadIsCanonical(m, u, group);
      var sorted := SortByAge(group);
      var canonical := sorted[0];
      ghost var w, x := wallets, index;
      archived := ArchiveDuplicates(sorted);
      index := index[u := canonical.address];
      SettledGroup(m, u, sorted, w, wallets);
      PartlyDoneStep(m, i, w, x, wallets, index, u, canonical.address, rest);
    }

    /** `consolidate_assignments`. */
    method ConsolidateAssignments() returns (indexed: nat, archived: nat)
      requires Keyed(wallets)
      modifies this
      ensures Consolidated(old(wallets), old(index), wallets, index)
      ensures archived == |Duplicates(old(wallets))|
      ensures exists users: set<User> :: (forall u :: u in users <==> HasActive(old(wallets), u)) && indexed == |users|
    {
      ghost var m, i := wallets, index;
      var assignments := LoadReservations();
      var groups := GroupActive(assignments);
      Prepared(m, i, assignments, groups);
      assert forall u :: u in groups.Keys <==> HasActive(m, u);
      indexed, archived := SettleGroups(groups, m, i);
      AllDone(m, i, wallets, index);
    }

    /** The groups come in any order. */
    method SettleGroups(groups: map<User, seq<Assignment>>, ghost m: Wallets, ghost i: Index) returns (indexed: nat, archived: nat)
      requires Keyed(m) && PartlyDone(m, i, wallets, index, groups.Keys) && DuplicatesOutside(m, groups.Keys) == {}
      requires forall u :: u in groups ==> IsGroup(m, u, groups[u]) && groups[u] != []
      modifies this
      ensures PartlyDone(m, i, wallets, index, {}) && archived == |DuplicatesOutside(m, {})| && indexed == |groups.Keys|
    {
      indexed, archived := 0, 0;
      var users := groups.Keys;
      while users != {}
        invariant users <= groups.Keys && PartlyDone(m, i, wallets, index, users)
        invariant archived == |DuplicatesOutside(m, users)| && indexed + |users| == |groups.Keys|
        decreases users
      {
        var u :| u in users;
        var more := SettleGroup(u, groups[u], m, i, users);
        CountGroup(m, u, groups[u], users);
        indexed, archived := indexed + 1, archived + more;
        users := users - {u};
      }
    }
  }

  ghost function DuplicatesOutside(m: Wallets, rest: set<User>): set<Address> {
    set a | a in m && m[a].user !in rest && Settled(m, m[a]) != m[a]
  }

  lemma AllDone(m: Wallets, i: Index, m': Wallets, i': Index)
    requires PartlyDone(m, i, m', i', {})
    ensures Consolidated(m, i, m', i') && DuplicatesOutside(m, {}) == Duplicates(m)
  {
  }

  lemma GroupsOf(m: Wallets, xs: seq<Assignment>, groups: map<User, seq<Assignment>>)
    requires Keyed(m) && Lists(m, xs)
    requires forall u :: u in groups <==> ActiveOf(xs, u) != []
    requires forall u :: u in groups ==> groups[u] == ActiveOf(xs, u)
    ensures forall u :: HasActive(m, u) <==> u in groups
    ensures forall u :: u in groups ==> IsGroup(m, u, groups[u]) && groups[u] != []
  {
    forall u ensures IsGroup(m, u, ActiveOf(xs, u)) && (HasActive(m, u) <==> ActiveOf(xs, u) != []) {
      ActiveOfIsGroup(m, xs, u);
    }
  }

  lemma Prepared(m: Wallets, i: Index, xs: seq<Assignment>, groups: map<User, seq<Assignment>>)
    requires Keyed(m) && Lists(m, xs)
    requires forall u :: u in groups <==> ActiveOf(xs, u) != []
    requires forall u :: u in groups ==> groups[u] == ActiveOf(xs, u)
    ensures forall u :: u in groups ==> IsGroup(m, u, groups[u]) && groups[u] != []
    ensures forall u :: u in groups <==> HasActive(m, u)
    ensures PartlyDone(m, i, m, i, groups.Keys) && DuplicatesOutside(m, groups.Keys) == {}
  {
    GroupsOf(m, xs, groups);
    NothingDoneYet(m, i, groups.Keys);
  }

  lemma NothingDoneYet(m: Wallets, i: Index, users: set<User>)
    requires Keyed(m) && forall u :: HasActive(m, u) <==> u in users
    ensures PartlyDone(m, i, m, i, users) && DuplicatesOutside(m, users) == {}
  {
    forall a | a in m && m[a].user !in users ensures Settled(m, m[a]) == m[a] {
      assert !HasActive(m, m[a].user) ==> !IsActive(m, m[a].user, a);
    }
  }

  ghost predicate InTail(sorted: seq<Assignment>, n: nat, a: Address)
    requires n <= |sorted|
  {
    exists k :: 1 <= k < n && sorted[k].address == a
  }

  /** Entries 1 up to n of sorted are dormant, everything else is as before. */
  ghost predicate Archived(w: Wallets, w': Wallets, sorted: seq<Assignment>, n: nat)
    requires n <= |sorted|
  {
    && w'.Keys == w.Keys
    && (forall k :: 1 <= k < n ==> sorted[k].address in w' && w'[sorted[k].address] == sorted[k].(dormant := true))
    && (forall a :: a in w && !InTail(sorted, n, a) ==> w'[a] == w[a])
  }

  lemma ArchivedNext(w: Wallets, w': Wallets, sorted: seq<Assignment>, n: nat)
    requires Distinct(sorted) && 1 <= n < |sorted| && sorted[n].address in w && Archived(w, w', sorted, n)
    ensures Archived(w, w'[sorted[n].address := sorted[n].(dormant := true)], sorted, n + 1)
  {
    assert InTail(sorted, n + 1, sorted[n].address);
    assert forall a :: InTail(sorted, n, a) ==> InTail(sorted, n + 1, a);
  }

  lemma PartlyDoneStep(m: Wallets, i: Index, w: Wallets, x: Index, w': Wallets, x': Index, u: User, a: Address, rest: set<User>)
    requires PartlyDone(m, i, w, x, rest) && w'.Keys == m.Keys && Canonical(m, u, a) && x' == x[u := a]
    requires forall b :: b in m ==> w'[b] == if m[b].user == u then Settled(m, m[b]) else w[b]
    ensures PartlyDone(m, i, w', x', rest - {u})
  {
    forall v | !HasActive(m, v) || v in rest - {u} ensures Get(x', v) == Get(i, v) {
      assert Get(x, v) == Get(i, v);
    }
  }

  lemma SettledGroup(m: Wallets, u: User, sorted: seq<Assignment>, w: Wallets, w': Wallets)
    requires Keyed(m) && IsGroup(m, u, sorted) && sorted != [] && Canonical(m, u, sorted[0].address)
    requires w.Keys == m.Keys == w'.Keys && forall a :: a in m && m[a].user == u ==> w[a] == m[a]
    requires Archived(w, w', sorted, |sorted|)
    ensures forall a :: a in m ==> w'[a] == if m[a].user == u then Settled(m, m[a]) else w[a]
  {
    forall a | a in m ensures w'[a] == if m[a].user == u then Settled(m, m[a]) else w[a] {
      if IsActive(m, u, a) {
        var k :| 0 <= k < |sorted| && sorted[k] == m[a];
        if k > 0 {
          assert sorted[0].address != a;
          if Canonical(m, u, a) {
            CanonicalIsUnique(m, u, a, sorted[0].address);
          }
        }
      }
    }
  }

  ghost function Tail(s: seq<Assignment>): set<Address> {
    set k | 1 <= k < |s| :: s[k].address
  }

  /** The duplicates of u are the tail of its sorted group. */
  lemma DuplicatesOfGroup(m: Wallets, u: User, s: seq<Assignment>, a: Address)
    requires Keyed(m) && IsGroup(m, u, s) && s != [] && Canonical(m, u, s[0].address)
    ensures a in Tail(s) <==> a in DuplicatesOf(m, u)
  {
    if a in Tail(s) {
      var k :| 1 <= k < |s| && s[k].address == a;
      assert s[k] in s && s[0].address != a;
      if Canonical(m, u, a) {
        CanonicalIsUnique(m, u, a, s[0].address);
      }
    } else if IsActive(m, u, a) {
      var k :| 0 <= k < |s| && s[k] == m[a];
    }
  }

  lemma CountGroup(m: Wallets, u: User, group: seq<Assignment>, rest: set<User>)
    requires Keyed(m) && IsGroup(m, u, group) && group != [] && u in rest
    ensures |DuplicatesOutside(m, rest - {u})| == |DuplicatesOutside(m, rest)| + |group| - 1
  {
    HeadIsCanonical(m, u, group);
    var s := SortByAge(group);
    CountAddresses(s);
    forall a ensures a in Tail(s) <==> a in DuplicatesOf(m, u) {
      DuplicatesOfGroup(m, u, s, a);
    }
    assert Tail(s) == DuplicatesOf(m, u);
    AddDuplicates(m, u, rest);
  }

  ghost function DuplicatesOf(m: Wallets, u: User): set<Address> {
    set a | a in m && m[a].user == u && Settled(m, m[a]) != m[a]
  }

  lemma AddDuplicates(m: Wallets, u: User, rest: set<User>)
    requires u in rest
    ensures |DuplicatesOutside(m, rest - {u})| == |DuplicatesOutside(m, rest)| + |DuplicatesOf(m, u)|
  {
    var fewer, more := DuplicatesOutside(m, rest), DuplicatesOf(m, u);
    assert DuplicatesOutside(m, rest - {u}) == fewer + more;
    assert fewer !! more;
  }

  lemma {:induction false} CountAddresses(s: seq<Assignment>)
    requires s != [] && Distinct(s)
    ensures |Tail(s)| == |s| - 1
  {
    if |s| == 1 {
      assert Tail(s) == {};
    } else {
      var front, last := s[..|s| - 1], s[|s| - 1];
      CountAddresses(front);
      assert Tail(s) == Tail(front) + {last.address};
    }
  }

  /** A second run archives nothing. */
  lemma SecondRunArchivesNothing(m: Wallets, i: Index, m1: Wallets, i1: Index)
    requires Keyed(m) && Consolidated(m, i, m1, i1)
    ensures Duplicates(m1) == {}
  {
    forall a | a in m1 ensures Settled(m1, m1[a]) == m1[a] {
      NothingLeftToArchive(m, i, m1, i1, a);
    }
  }
}
