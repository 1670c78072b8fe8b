/** Signature paging of the Solana detector (src/solana.rs:2318-2371). */
module SolanaSignatures {
  import opened Common

  type Sig = string

  /** The page limit of getSignaturesForAddress. */
  const PAGE: nat := 1000

  predicate Distinct(l: seq<Sig>) {
    forall i, j :: 0 <= i < j < |l| ==> l[i] != l[j]
  }

  /** How many signatures of l, oldest first, the cursor has behind it. */
  function Position(l: seq<Sig>, cursor: Option<Sig>): (p: nat)
    ensures p <= |l|
    ensures p > 0 ==> Some(l[p - 1]) == cursor
    ensures p == 0 ==> forall i :: 0 <= i < |l| ==> Some(l[i]) != cursor
  {
    if l == [] then 0
    else if Some(l[|l| - 1]) == cursor then |l|
    else Position(l[..|l| - 1], cursor)
  }

  lemma PositionIs(l: seq<Sig>, p: nat)
    requires Distinct(l) && p < |l|
    ensures Position(l, Some(l[p])) == p + 1
  {
  }

  function Reversed(l: seq<Sig>): (r: seq<Sig>)
    ensures |r| == |l| && forall i :: 0 <= i < |l| ==> r[i] == l[|l| - 1 - i]
  {
    seq(|l|, i requires 0 <= i < |l| => l[|l| - 1 - i])
  }

  /** What a node that knows l, oldest first, answers: the newest signatures older than
      before, newest first, at most a page of them. */
  function PageOf(l: seq<Sig>, before: Option<Sig>): seq<Sig> {
    var end := if before.None? then |l| else if Position(l, before) > 0 then Position(l, before) - 1 else 0;
    var start := if end > PAGE then end - PAGE else 0;
    Reversed(l[start..end])
  }

  /** The node's answer to the n-th request: what it knows by then, or an error. It never
      forgets a signature, but new ones may come in between two pages. */
  ghost predicate Grows(l: seq<Sig>, known: nat -> Option<nat>) {
    && (forall n :: known(n).Some? ==> known(n).value <= |l|)
    && (forall m, n :: m <= n && known(m).Some? && known(n).Some? ==> known(m).value <= known(n).value)
  }

  /** What is newer than the cursor, oldest first; everything, if the node does not know
      the cursor. */
  function NewSignatures(l: seq<Sig>, cursor: Option<Sig>): seq<Sig> {
    l[Position(l, cursor)..]
  }

  /** `get_new_signatures`: exactly what was newer than the cursor when the first page was
      answered, whatever comes in while the others are fetched. */
  method GetNewSignatures(l: seq<Sig>, cursor: Option<Sig>, known: nat -> Option<nat>) returns (r: Option<seq<Sig>>)
    requires Distinct(l) && Grows(l, known)
    ensures r.Some? ==> known(0).Some? && r.value == NewSignatures(l[..known(0).value], cursor)
    ensures r.None? ==> exists n :: known(n).None?
  {
    if known(0).None? {
      return None;
    }
    ghost var first := known(0).value;
    ghost var q := first;
    var before: Option<Sig> := None;
    var collected: seq<Sig> := [];
    var found, n := false, 0;
    while true
      invariant Collected(l, collected, q, first) && !found && Misses(l, cursor, q, first)
      invariant if before.None? then n == 0 && q == first else q < first && before.value == l[q]
      decreases q
    {
      if known(n).None? {
        return None;
      }
      assert first <= known(n).value <= |l|;
      var page := PageOf(l[..known(n).value], before);
      PageContinues(l, first, known(n).value, q, before);
      if page == [] {
        break;
      }
      var taken;
      taken, found := TakeUntil(page, cursor);
      TakeContinues(l, collected, page, taken, cursor, q, first);
      collected := collected + taken;
      q := q - |taken|;
      if found || |page| < PAGE {
        break;
      }
      before := Some(page[|page| - 1]);
      n := n + 1;
    }
    r := Some(Reversed(collected));
    ReversedCollected(l, collected, q, first);
    IsNewer(l, cursor, q, first, found);
  }

  /** The entries of a page before the cursor. */
  method TakeUntil(page: seq<Sig>, cursor: Option<Sig>) returns (taken: seq<Sig>, found: bool)
    ensures |taken| <= |page| && taken == page[..|taken|]
    ensures forall k :: 0 <= k < |taken| ==> Some(page[k]) != cursor
    ensures if found then |taken| < |page| && Some(page[|taken|]) == cursor else |taken| == |page|
  {
    taken, found := [], false;
    var i := 0;
    while i < |page|
      invariant i <= |page| && taken == page[..i]
      invariant forall k :: 0 <= k < i ==> Some(page[k]) != cursor
    {
      if cursor == Some(page[i]) {
        found := true;
        break;
      }
      taken := taken + [page[i]];
      i := i + 1;
    }
  }

  /** l[q..first], newest first. */
  predicate Collected(l: seq<Sig>, collected: seq<Sig>, q: int, first: nat) {
    0 <= q <= first <= |l| && |collected| == first - q && forall i :: 0 <= i < |collected| ==> collected[i] == l[first - 1 - i]
  }

  predicate Misses(l: seq<Sig>, cursor: Option<Sig>, q: int, first: nat) {
    0 <= q <= first <= |l| && forall i :: q <= i < first ==> Some(l[i]) != cursor
  }

  predicate Continues(l: seq<Sig>, page: seq<Sig>, q: nat) {
    q <= |l| && |page| == (if q > PAGE then PAGE else q) && forall i :: 0 <= i < |page| ==> page[i] == l[q - 1 - i]
  }

  lemma PageContinues(l: seq<Sig>, first: nat, view: nat, q: nat, before: Option<Sig>)
    requires Distinct(l) && q <= first <= view <= |l|
    requires if before.None? then q == first == view else q < first && before.value == l[q]
    ensures Continues(l, PageOf(l[..view], before), q)
  {
    if before.Some? {
      PositionIs(l[..view], q);
    }
  }

  lemma TakeContinues(l: seq<Sig>, collected: seq<Sig>, page: seq<Sig>, taken: seq<Sig>, cursor: Option<Sig>, q: nat, first: nat)
    requires Collected(l, collected, q, first) && Misses(l, cursor, q, first) && Continues(l, page, q)
    requires |taken| <= |page| && taken == page[..|taken|] && forall k :: 0 <= k < |taken| ==> Some(page[k]) != cursor
    ensures Collected(l, collected + taken, q - |taken|, first) && Misses(l, cursor, q - |taken|, first)
    ensures |taken| < |page| ==> page[|taken|] == l[q - |taken| - 1]
    ensures |taken| == |page| && page != [] ==> page[|page| - 1] == l[q - |taken|]
  {
    forall i | q - |taken| <= i < q ensures Some(l[i]) != cursor {
      assert page[q - 1 - i] == l[i];
    }
  }

  lemma ReversedCollected(l: seq<Sig>, collected: seq<Sig>, q: nat, first: nat)
    requires Collected(l, collected, q, first)
    ensures Reversed(collected) == l[q..first]
  {
  }

  lemma IsNewer(l: seq<Sig>, cursor: Option<Sig>, q: nat, first: nat, found: bool)
    requires Distinct(l) && Misses(l, cursor, q, first)
    requires if found then q > 0 && Some(l[q - 1]) == cursor else q == 0
    ensures NewSignatures(l[..first], cursor) == l[q..first]
  {
    var v := l[..first];
    if found {
      PositionIs(v, q - 1);
    }
    assert v[q..] == l[q..first];
  }
}
