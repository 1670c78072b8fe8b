/** The signature cursors of the Solana detector and what they promise about deposits
    (src/solana.rs:120-122, 1166-1328, 2455-2470, 2700-2714). */
module SolanaScan {
  import opened Common
  import opened Outbox
  import opened SolanaSignatures

  /** A scanned account: an assigned address, or its token account. */
  type Account = string

  /** Whom deposits to an account belong to. asset is None for native SOL. */
  datatype Owner = Owner(address: string, asset: Option<string>)

  // ---------------------------------------------------------------------
  // Payment keys
  // ---------------------------------------------------------------------

  function AssetName(asset: Option<string>): string {
    if asset.Some? then asset.value else "SOL"
  }

  /** `payment_key`. */
  function PaymentKey(sig: Sig, address: string, asset: Option<string>): Id {
    sig + "|" + address + "|" + AssetName(asset)
  }

  predicate NoBar(s: string) {
    forall i :: 0 <= i < |s| ==> s[i] != '|'
  }

  function FirstBar(s: string): nat {
    if s == "" || s[0] == '|' then 0 else 1 + FirstBar(s[1..])
  }

  lemma {:induction false} FirstBarIs(a: string, x: string)
    requires NoBar(a)
    ensures FirstBar(a + "|" + x) == |a|
  {
    var s := a + "|" + x;
    if a == "" {
      assert s[0] == '|';
    } else {
      assert s[0] == a[0] && s[1..] == a[1..] + "|" + x;
      FirstBarIs(a[1..], x);
    }
  }

  lemma SplitAtBar(a: string, b: string, x: string, y: string)
    requires NoBar(a) && NoBar(b) && a + "|" + x == b + "|" + y
    ensures a == b && x == y
  {
    var s := a + "|" + x;
    FirstBarIs(a, x);
    FirstBarIs(b, y);
    assert s[..|a|] == a && s[..|b|] == b;
    assert s[|a| + 1..] == x && s[|b| + 1..] == y;
  }

  /** Two deposits share a key exactly if signature and address agree and so do the names of
      their assets; a token called SOL shares the keys of native SOL. */
  lemma PaymentKeyInjective(s: Sig, a: string, x: Option<string>, s': Sig, a': string, x': Option<string>)
    requires NoBar(s) && NoBar(s') && NoBar(a) && NoBar(a')
    ensures PaymentKey(s, a, x) == PaymentKey(s', a', x') <==> s == s' && a == a' && AssetName(x) == AssetName(x')
    ensures PaymentKey(s, a, Some("SOL")) == PaymentKey(s, a, None)
  {
    if PaymentKey(s, a, x) == PaymentKey(s', a', x') {
      var r, r' := a + "|" + AssetName(x), a' + "|" + AssetName(x');
      assert s + "|" + r == PaymentKey(s, a, x) && s' + "|" + r' == PaymentKey(s', a', x');
      SplitAtBar(s, s', r, r');
      SplitAtBar(a, a', AssetName(x), AssetName(x'));
    }
  }

  // ---------------------------------------------------------------------
  // The chain
  // ---------------------------------------------------------------------

  /** history: the signatures of an account, oldest first; amount: what a transaction adds
      to it, if anything; small: whether the dust filter may find that too little. */
  datatype SolanaChain = SolanaChain(
    history: Account -> seq<Sig>,
    owner: Account -> Owner,
    amount: (Account, Sig) -> Option<nat>,
    small: (Account, Sig) -> bool)

  ghost predicate GoodChain(ch: SolanaChain) {
    && (forall x :: Distinct(ch.history(x)))
    && (forall x, i :: 0 <= i < |ch.history(x)| ==> NoBar(ch.history(x)[i]))
    && (forall x :: NoBar(ch.owner(x).address))
    && (forall x, y :: ch.owner(x).address == ch.owner(y).address && AssetName(ch.owner(x).asset) == AssetName(ch.owner(y).asset) ==> x == y)
  }

  function KeyAt(ch: SolanaChain, x: Account, i: nat): Id
    requires i < |ch.history(x)|
  {
    PaymentKey(ch.history(x)[i], ch.owner(x).address, ch.owner(x).asset)
  }

  function AmountAt(ch: SolanaChain, x: Account, i: nat): Option<nat>
    requires i < |ch.history(x)|
  {
    ch.amount(x, ch.history(x)[i])
  }

  /** A deposit the dust filter may drop. */
  predicate SmallAt(ch: SolanaChain, x: Account, i: nat)
    requires i < |ch.history(x)|
  {
    AmountAt(ch, x, i).Some? && ch.small(x, ch.history(x)[i])
  }

  ghost predicate Names(ch: SolanaChain, id: Id, x: Account, i: nat) {
    i < |ch.history(x)| && id == KeyAt(ch, x, i) && AmountAt(ch, x, i).Some?
  }

  ghost function AmountOf(ch: SolanaChain, id: Id): nat {
    if exists x, i :: Names(ch, id, x, i) then var x, i :| Names(ch, id, x, i); AmountAt(ch, x, i).value else 0
  }

  lemma AmountOfKey(ch: SolanaChain, x: Account, i: nat)
    requires GoodChain(ch) && i < |ch.history(x)| && AmountAt(ch, x, i).Some?
    ensures AmountOf(ch, KeyAt(ch, x, i)) == AmountAt(ch, x, i).value
  {
    var id := KeyAt(ch, x, i);
    assert Names(ch, id, x, i);
    forall y, j: nat | Names(ch, id, y, j) ensures y == x && j == i {
      PaymentKeyInjective(ch.history(x)[i], ch.owner(x).address, ch.owner(x).asset,
                          ch.history(y)[j], ch.owner(y).address, ch.owner(y).asset);
    }
  }

  // ---------------------------------------------------------------------
  // The detector as an outbox
  // ---------------------------------------------------------------------

  /** cursors is in the state file; dust, the deposits found too small, is history. */
  datatype Scan = Scan(cursors: map<Account, Sig>, dust: set<Id>)

  function Cursor(sc: Scan, x: Account): Option<Sig> {
    if x in sc.cursors then Some(sc.cursors[x]) else None
  }

  /** How many signatures of the account are behind its cursor. */
  function At(ch: SolanaChain, sc: Scan, x: Account): (p: nat)
    ensures p <= |ch.history(x)|
  {
    Position(ch.history(x), Cursor(sc, x))
  }

  /** Queued at some time, or nothing to queue. */
  ghost predicate Settled(ch: SolanaChain, b: Book<Scan>, x: Account, i: nat) {
    && i < |ch.history(x)|
    && (AmountAt(ch, x, i).None? || (SmallAt(ch, x, i) && KeyAt(ch, x, i) in b.scan.dust) || Accounted(b, KeyAt(ch, x, i)))
  }

  /** The cursor of x moves to the i-th signature: one it has passed before, as when a node
      lags behind, or the next one, once it is settled. */
  ghost predicate Passes(ch: SolanaChain, b: Book<Scan>, c: Scan, x: Account, i: nat) {
    && i < |ch.history(x)| && c.cursors == b.scan.cursors[x := ch.history(x)[i]]
    && (c.dust == b.scan.dust || (SmallAt(ch, x, i) && c.dust == b.scan.dust + {KeyAt(ch, x, i)}))
    && (i < At(ch, b.scan, x) || (i == At(ch, b.scan, x) && Settled(ch, b.(scan := c), x, i)))
  }

  ghost predicate Guard(ch: SolanaChain, s: State<Scan>, e: Event<Scan>) {
    match e
    case Advance(c) => exists x, i :: Passes(ch, s.mem, c, x, i)
    case Crash(c) => c == s.disk.scan
    case Ignore(_) => false
    case Remine(_, _) => false
    case Rollback(_, _) => false
    case _ => true
  }

  ghost function SolanaRules(ch: SolanaChain): Rules<Scan> {
    Rules(id => AmountOf(ch, id), (p: Entry) => p.alias == p.id, (s: State<Scan>, e: Event<Scan>) => Guard(ch, s, e))
  }

  // ---------------------------------------------------------------------
  // Coverage
  // ---------------------------------------------------------------------

  /** Everything between where the cursors stood in start and where they stand now. */
  ghost predicate Covers(ch: SolanaChain, start: Scan, b: Book<Scan>) {
    forall x, i :: At(ch, start, x) <= i < At(ch, b.scan, x) ==> Settled(ch, b, x, i)
  }

  ghost predicate CoverInv(ch: SolanaChain, start: Scan, s: State<Scan>) {
    Covers(ch, start, s.mem) && Covers(ch, start, s.disk)
  }

  lemma SettledStays(ch: SolanaChain, start: Scan, b: Book<Scan>, b': Book<Scan>)
    requires Covers(ch, start, b) && b'.scan == b.scan && forall id :: Accounted(b, id) ==> Accounted(b', id)
    ensures Covers(ch, start, b')
  {
    forall x, i | At(ch, start, x) <= i < At(ch, b'.scan, x) ensures Settled(ch, b', x, i) {
      assert Settled(ch, b, x, i);
    }
  }

  lemma PassesKeeps(ch: SolanaChain, start: Scan, b: Book<Scan>, c: Scan, x: Account, i: nat)
    requires GoodChain(ch) && Covers(ch, start, b) && Passes(ch, b, c, x, i)
    ensures Covers(ch, start, b.(scan := c))
  {
    var b' := b.(scan := c);
    assert Distinct(ch.history(x));
    PositionIs(ch.history(x), i);
    forall y, j | At(ch, start, y) <= j < At(ch, c, y) ensures Settled(ch, b', y, j) {
      if y == x && j == i && i == At(ch, b.scan, x) {
        assert Settled(ch, b', x, i);
      } else {
        assert y != x ==> Cursor(c, y) == Cursor(b.scan, y);
        assert Settled(ch, b, y, j);
        assert Accounted(b, KeyAt(ch, y, j)) ==> Accounted(b', KeyAt(ch, y, j));
      }
    }
  }

  lemma CoverStep(ch: SolanaChain, start: Scan, s: State<Scan>, e: Event<Scan>)
    requires GoodChain(ch) && CoverInv(ch, start, s) && Enabled(SolanaRules(ch), s, e)
    ensures CoverInv(ch, start, Apply(s, e))
  {
    if e.Advance? {
      assert Guard(ch, s, e);
      var x, i :| Passes(ch, s.mem, e.scan, x, i);
      PassesKeeps(ch, start, s.mem, e.scan, x, i);
    } else if !e.Crash? {
      forall id | Accounted(s.mem, id) ensures Accounted(Apply(s, e).mem, id) {
        AccountedStays(SolanaRules(ch), s, e, id);
      }
      SettledStays(ch, start, s.mem, Apply(s, e).mem);
    }
  }

  lemma {:induction false} CoverRun(ch: SolanaChain, start: Scan, s: State<Scan>, es: seq<Event<Scan>>)
    requires GoodChain(ch) && CoverInv(ch, start, s) && Legal(SolanaRules(ch), s, es)
    ensures CoverInv(ch, start, Run(s, es))
    decreases |es|
  {
    if es != [] {
      CoverRun(ch, start, s, es[..|es| - 1]);
      CoverStep(ch, start, Run(s, es[..|es| - 1]), es[|es| - 1]);
    }
  }

  /** From a freshly loaded state file, whatever fails or crashes: in memory and in the file,
      every signature between the first and the present cursor of an account deposited
      nothing, or so little that the dust filter dropped it, or is pending or credited. */
  lemma NothingPassedIsLost(ch: SolanaChain, s: State<Scan>, es: seq<Event<Scan>>, b: Book<Scan>, x: Account, i: nat)
    requires GoodChain(ch) && s.mem.scan == s.disk.scan && Legal(SolanaRules(ch), s, es)
    requires b in {Run(s, es).mem, Run(s, es).disk} && At(ch, s.mem.scan, x) <= i < At(ch, b.scan, x)
    ensures i < |ch.history(x)|
    ensures var sig := ch.history(x)[i]; var key := PaymentKey(sig, ch.owner(x).address, ch.owner(x).asset);
      ch.amount(x, sig).None? || (ch.small(x, sig) && key in b.scan.dust) || Accounted(b, key)
  {
    CoverRun(ch, s.mem.scan, s, es);
    assert Settled(ch, b, x, i);
  }
}
