/** The durable outbox shared by the three detectors: payments wait in `pending` until
    the backend has acknowledged a detection and a credit. Memory is changed step by
    step, snapshots of it are persisted, and a crash falls back to the last snapshot. */
module Outbox {
  import opened Common

  type Id = string

  /** A pending payment. alias is the identity older releases credited it under. */
  datatype Entry = Entry(id: Id, alias: Id, txid: string, address: string, amount: nat, height: nat, notified: bool)

  /** What the state file holds; C is the scan position of the detector. */
  datatype Book<C> = Book(pending: seq<Entry>, credited: set<Id>, ignored: set<Id>, scan: C)

  datatype Credit = Credit(id: Id, amount: nat)

  /** Memory, disk, and what the backend has acknowledged: detections, credits in
      order, and the credits acknowledged but not yet recorded in memory. */
  datatype State<C> = State(
    mem: Book<C>,
    disk: Book<C>,
    detected: set<Id>,
    credits: seq<Credit>,
    unrecorded: set<Id>,
    crashes: nat)

  datatype Event<C> =
    | Queue(entry: Entry)
    | Persist
    | DetectAck(id: Id)
    | Notify(id: Id)                  // remember the acknowledged detection
    | CreditAck(entry: Entry)
    | Record(id: Id)                  // remember the acknowledged credit
    | Retire(entry: Entry)            // credited and swept
    | Ignore(id: Id)
    | Remine(id: Id, height: nat)     // the transaction moved to another block
    | Advance(scan: C)
    | Rollback(from: nat, scan: C)
    | Crash(scan: C)                  // restart from disk at this position

  /** What the detector adds: the amount each event ID stands for on chain, how its
      payments are keyed, and which events its own code allows. */
  datatype Rules<!C> = Rules(amount: Id -> nat, keyed: Entry -> bool, guard: (State<C>, Event<C>) -> bool)

  /** A payment the detector itself made; height and notified change over its life. */
  ghost predicate Proper<C>(r: Rules<C>, e: Entry) {
    e.amount == r.amount(e.id) && r.keyed(e.(height := 0, notified := false))
  }

  predicate Credited<C>(b: Book<C>, e: Entry) {
    e.id in b.credited || e.alias in b.credited
  }

  predicate Pending<C>(b: Book<C>, id: Id) {
    exists i :: 0 <= i < |b.pending| && b.pending[i].id == id
  }

  /** At most this one entry was added to pending, and only if it was not accounted for. */
  ghost predicate AddedUnless<C>(accounted: bool, b: Book<C>, b': Book<C>, e: Entry) {
    b' == if accounted then b else b.(pending := b.pending + [e])
  }

  function Without(ps: seq<Entry>, id: Id): (r: seq<Entry>)
    ensures forall e :: e in r <==> e in ps && e.id != id
    ensures |r| <= |ps| && (forall e :: multiset(r)[e] <= multiset(ps)[e])
  {
    if ps == [] then [] else assert ps == [ps[0]] + ps[1..]; (if ps[0].id == id then [] else [ps[0]]) + Without(ps[1..], id)
  }

  lemma WithoutIsGone<C>(b: Book<C>, ps: seq<Entry>, id: Id)
    requires b.pending == Without(ps, id)
    ensures !Pending(b, id)
  {
    forall i | 0 <= i < |b.pending| ensures b.pending[i].id != id {
      assert b.pending[i] in b.pending;
    }
  }

  function Below(ps: seq<Entry>, from: nat): (r: seq<Entry>)
    ensures forall e :: e in r <==> e in ps && e.height < from
    ensures |r| <= |ps| && (forall e :: multiset(r)[e] <= multiset(ps)[e])
  {
    if ps == [] then [] else assert ps == [ps[0]] + ps[1..]; (if ps[0].height < from then [ps[0]] else []) + Below(ps[1..], from)
  }

  /** `iter_mut().find(..)`: change the first entry with this id. */
  function Update(ps: seq<Entry>, id: Id, f: Entry -> Entry): (r: seq<Entry>)
    ensures |r| == |ps|
    ensures forall i :: 0 <= i < |ps| ==> r[i] == ps[i] || (ps[i].id == id && r[i] == f(ps[i]))
  {
    if ps == [] then [] else if ps[0].id == id then [f(ps[0])] + ps[1..] else [ps[0]] + Update(ps[1..], id, f)
  }

  /** The entry at i is the first one with this id. */
  predicate FirstWith(ps: seq<Entry>, id: Id, i: nat) {
    i < |ps| && ps[i].id == id && forall j :: 0 <= j < i ==> ps[j].id != id
  }

  lemma {:induction false} UpdateChangesFirst(ps: seq<Entry>, id: Id, f: Entry -> Entry)
    ensures forall i :: 0 <= i < |ps| ==> Update(ps, id, f)[i] == if FirstWith(ps, id, i) then f(ps[i]) else ps[i]
  {
    if ps != [] && ps[0].id != id {
      UpdateChangesFirst(ps[1..], id, f);
      forall i | 0 < i < |ps| ensures FirstWith(ps, id, i) <==> FirstWith(ps[1..], id, i - 1) {
        assert FirstWith(ps, id, i) ==> forall j :: 0 <= j < i - 1 ==> ps[1..][j] == ps[j + 1];
      }
    }
  }

  /** The first entry with this id is notified, everything else is as it was. */
  predicate OneNotified(ps: seq<Entry>, qs: seq<Entry>, id: Id) {
    |qs| == |ps| && forall i :: 0 <= i < |ps| ==> qs[i] == if FirstWith(ps, id, i) then ps[i].(notified := true) else ps[i]
  }

  /** The first entry with this id is at another height, everything else is as it was. */
  predicate OneMoved(ps: seq<Entry>, qs: seq<Entry>, id: Id, height: nat) {
    |qs| == |ps| && forall i :: 0 <= i < |ps| ==> qs[i] == if FirstWith(ps, id, i) then ps[i].(height := height) else ps[i]
  }

  /** The payment, if it is pending, is marked as notified. */
  ghost predicate Told<C>(b: Book<C>, id: Id) {
    forall i: nat :: FirstWith(b.pending, id, i) ==> b.pending[i].notified
  }

  /** How many payments are not marked as notified. */
  function Untold(ps: seq<Entry>): nat {
    if ps == [] then 0 else Untold(ps[..|ps| - 1]) + if ps[|ps| - 1].notified then 0 else 1
  }

  /** The payment, if it is pending, is at this height. */
  ghost predicate MinedAt<C>(b: Book<C>, id: Id, height: nat) {
    forall i: nat :: FirstWith(b.pending, id, i) ==> b.pending[i].height == height
  }

  lemma OneNotifiedTells<C>(b: Book<C>, b': Book<C>, id: Id)
    requires OneNotified(b.pending, b'.pending, id)
    ensures Told(b', id) && forall h :: MinedAt(b, id, h) ==> MinedAt(b', id, h)
  {
    SameFirst(b.pending, b'.pending, id);
  }

  lemma OneMovedMoves<C>(b: Book<C>, b': Book<C>, id: Id, height: nat)
    requires OneMoved(b.pending, b'.pending, id, height)
    ensures MinedAt(b', id, height) && (forall i :: 0 <= i < |b.pending| ==> b'.pending[i].(height := b.pending[i].height) == b.pending[i])
  {
    SameFirst(b.pending, b'.pending, id);
  }

  lemma SameFirst(ps: seq<Entry>, qs: seq<Entry>, id: Id)
    requires |ps| == |qs| && forall i :: 0 <= i < |ps| ==> qs[i].id == ps[i].id
    ensures forall i: nat :: FirstWith(qs, id, i) <==> FirstWith(ps, id, i)
  {
    forall i: nat ensures FirstWith(qs, id, i) <==> FirstWith(ps, id, i) {
      assert FirstWith(qs, id, i) ==> forall j :: 0 <= j < i ==> ps[j].id == qs[j].id;
    }
  }

  lemma NotPendingTells<C>(b: Book<C>, id: Id)
    requires !Pending(b, id)
    ensures Told(b, id) && forall h :: MinedAt(b, id, h)
  {
    forall i: nat ensures !FirstWith(b.pending, id, i) {
      assert i < |b.pending| ==> b.pending[i].id != id;
    }
  }

  /** A payment mined at height h has m confirmations, and at least one, at tip t. */
  predicate Buried(h: nat, t: nat, m: nat) {
    h <= t && t - h + 1 >= m
  }

  function SetNotified(e: Entry): Entry { e.(notified := true) }

  function SetHeight(h: nat): Entry -> Entry { (e: Entry) => e.(height := h) }

  /** The events that are the detector's own to allow. */
  predicate Governed<C>(e: Event<C>) {
    e.Queue? || e.Ignore? || e.Remine? || e.Advance? || e.Rollback? || e.Crash?
  }

  ghost predicate Enabled<C>(r: Rules<C>, s: State<C>, e: Event<C>) {
    && (Governed(e) ==> r.guard(s, e))
    && match e
       case Queue(p) => !p.notified && Proper(r, p) && !Credited(s.mem, p) && !Pending(s.mem, p.id)
       case Notify(id) => id in s.detected
       case CreditAck(p) =>
         p.id in s.detected && Proper(r, p) && !Credited(s.mem, p) && p.id !in s.unrecorded
       case Record(id) => id in s.unrecorded
       case Retire(p) => Proper(r, p) && Credited(s.mem, p)
       case _ => true
  }

  function Apply<C>(s: State<C>, e: Event<C>): State<C> {
    var m := s.mem;
    match e
    case Queue(p) => s.(mem := m.(pending := m.pending + [p]))
    case Persist => s.(disk := m)
    case DetectAck(id) => s.(detected := s.detected + {id})
    case Notify(id) => s.(mem := m.(pending := Update(m.pending, id, SetNotified)))
    case CreditAck(p) => s.(credits := s.credits + [Credit(p.id, p.amount)], unrecorded := s.unrecorded + {p.id})
    case Record(id) => s.(mem := m.(credited := m.credited + {id}), unrecorded := s.unrecorded - {id})
    case Retire(p) => s.(mem := m.(pending := Without(m.pending, p.id)))
    case Ignore(id) => s.(mem := m.(pending := Without(m.pending, id), ignored := m.ignored + {id}))
    case Remine(id, h) => s.(mem := m.(pending := Update(m.pending, id, SetHeight(h))))
    case Advance(c) => s.(mem := m.(scan := c))
    case Rollback(from, c) => s.(mem := m.(pending := Below(m.pending, from), scan := c))
    case Crash(c) => s.(mem := s.disk.(scan := c), unrecorded := {}, crashes := s.crashes + 1)
  }

  ghost function Run<C>(s: State<C>, es: seq<Event<C>>): State<C> {
    if es == [] then s else Apply(Run(s, es[..|es| - 1]), es[|es| - 1])
  }

  ghost predicate Legal<C>(r: Rules<C>, s: State<C>, es: seq<Event<C>>) {
    es == [] || (Legal(r, s, es[..|es| - 1]) && Enabled(r, Run(s, es[..|es| - 1]), es[|es| - 1]))
  }

  lemma RunAppend<C>(r: Rules<C>, s: State<C>, es: seq<Event<C>>, e: Event<C>)
    requires Legal(r, s, es) && Enabled(r, Run(s, es), e)
    ensures Legal(r, s, es + [e]) && Run(s, es + [e]) == Apply(Run(s, es), e)
  {
    assert (es + [e])[..|es|] == es;
  }

  lemma {:induction false} LegalSuffix<C>(r: Rules<C>, s: State<C>, es: seq<Event<C>>, k: nat)
    requires Legal(r, s, es) && k <= |es|
    ensures Legal(r, Run(s, es[..k]), es[k..]) && Run(Run(s, es[..k]), es[k..]) == Run(s, es)
    decreases |es|
  {
    if k < |es| {
      LegalSuffix(r, s, es[..|es| - 1], k);
      assert es[..|es| - 1][..k] == es[..k] && es[..|es| - 1][k..] == es[k..][..|es[k..]| - 1];
    } else {
      assert es[..k] == es;
    }
  }

  lemma RunTwo<C>(r: Rules<C>, s: State<C>, e1: Event<C>, e2: Event<C>)
    requires Enabled(r, s, e1) && Enabled(r, Apply(s, e1), e2)
    ensures Legal(r, s, [e1, e2]) && Run(s, [e1, e2]) == Apply(Apply(s, e1), e2)
  {
    RunAppend(r, s, [], e1);
    assert [] + [e1] == [e1];
    RunAppend(r, s, [e1], e2);
    assert [e1] + [e2] == [e1, e2];
  }

  lemma {:induction false} LegalPrefix<C>(r: Rules<C>, s: State<C>, es: seq<Event<C>>, k: nat)
    requires Legal(r, s, es) && k <= |es|
    ensures Legal(r, s, es[..k])
    ensures k < |es| ==> Enabled(r, Run(s, es[..k]), es[k])
    decreases |es|
  {
    if k == |es| {
      assert es[..k] == es;
    } else if k < |es| - 1 {
      LegalPrefix(r, s, es[..|es| - 1], k);
      assert es[..|es| - 1][..k] == es[..k];
    }
  }

  // ---------------------------------------------------------------------
  // Crediting
  // ---------------------------------------------------------------------

  function Count(cs: seq<Credit>, id: Id): nat {
    if cs == [] then 0 else Count(cs[..|cs| - 1], id) + if cs[|cs| - 1].id == id then 1 else 0
  }

  ghost predicate BookInv<C>(r: Rules<C>, s: State<C>, b: Book<C>) {
    forall p :: p in b.pending ==> Proper(r, p) && (p.notified ==> p.id in s.detected)
  }

  ghost predicate CreditInv<C>(r: Rules<C>, s: State<C>) {
    && BookInv(r, s, s.mem) && BookInv(r, s, s.disk)
    && (forall c :: c in s.credits ==> c.amount == r.amount(c.id) && c.id in s.detected)
    && (forall id :: Bounded(s, id))
  }

  /** One credit that memory knows of or is about to, and one for each crash. */
  ghost predicate Bounded<C>(s: State<C>, id: Id) {
    Count(s.credits, id) <= s.crashes + if id in s.mem.credited || id in s.unrecorded then 1 else 0
  }

  lemma PendingStep<C>(r: Rules<C>, s: State<C>, e: Event<C>, p: Entry)
    requires CreditInv(r, s) && Enabled(r, s, e) && p in Apply(s, e).mem.pending
    ensures Proper(r, p) && (p.notified ==> p.id in Apply(s, e).detected)
  {
    var s' := Apply(s, e);
    var i :| 0 <= i < |s'.mem.pending| && s'.mem.pending[i] == p;
    if e.Notify? || e.Remine? {
      assert s.mem.pending[i] in s.mem.pending;
    }
  }

  lemma BoundStep<C>(r: Rules<C>, s: State<C>, e: Event<C>, id: Id)
    requires Enabled(r, s, e) && Bounded(s, id)
    ensures Bounded(Apply(s, e), id)
  {
    if e.CreditAck? {
      var s' := Apply(s, e);
      assert s'.credits[..|s.credits|] == s.credits;
    }
  }

  lemma CreditStep<C>(r: Rules<C>, s: State<C>, e: Event<C>)
    requires CreditInv(r, s) && Enabled(r, s, e)
    ensures CreditInv(r, Apply(s, e))
  {
    var s' := Apply(s, e);
    forall p | p in s'.mem.pending ensures Proper(r, p) && (p.notified ==> p.id in s'.detected) {
      PendingStep(r, s, e, p);
    }
    forall id ensures Bounded(s', id) {
      BoundStep(r, s, e, id);
    }
  }

  lemma {:induction false} CreditRun<C>(r: Rules<C>, s: State<C>, es: seq<Event<C>>)
    requires CreditInv(r, s) && Legal(r, s, es)
    ensures CreditInv(r, Run(s, es))
    decreases |es|
  {
    if es != [] {
      CreditRun(r, s, es[..|es| - 1]);
      CreditStep(r, Run(s, es[..|es| - 1]), es[|es| - 1]);
    }
  }

  /** Memory knows everything the state file does. */
  ghost predicate Durable<C>(s: State<C>) {
    s.disk.credited <= s.mem.credited && s.disk.ignored <= s.mem.ignored
  }

  /** Over any run the file's credited and ignored sets only grow, and memory has them. */
  lemma {:induction false} DurableRun<C>(r: Rules<C>, s: State<C>, es: seq<Event<C>>)
    requires Durable(s)
    ensures Durable(Run(s, es))
    ensures s.disk.credited <= Run(s, es).disk.credited && s.disk.ignored <= Run(s, es).disk.ignored
    decreases |es|
  {
    if es != [] {
      DurableRun(r, s, es[..|es| - 1]);
    }
  }

  /** An event whose credit has reached the file is never queued or credited again, through
      any number of crashes and rollbacks. */
  lemma RecordedCreditIsFinal<C>(r: Rules<C>, s: State<C>, es: seq<Event<C>>, k: nat, i: nat, id: Id)
    requires Initial(r, s) && Legal(r, s, es) && k <= i < |es| && id in Run(s, es[..k]).disk.credited
    ensures !(es[i].Queue? && es[i].entry.id == id) && !(es[i].CreditAck? && es[i].entry.id == id)
  {
    DurableRun(r, s, es[..k]);
    LegalPrefix(r, s, es, i);
    LegalSuffix(r, s, es[..i], k);
    assert es[..i][..k] == es[..k];
    DurableRun(r, Run(s, es[..k]), es[..i][k..]);
  }

  /** Without a crash in between, a credit recorded in memory is as final: a rollback does
      not bring the payment back. */
  lemma {:induction false} CreditOutlivesRollback<C>(r: Rules<C>, s: State<C>, es: seq<Event<C>>, id: Id)
    requires id in s.mem.credited && forall i :: 0 <= i < |es| ==> !es[i].Crash?
    ensures id in Run(s, es).mem.credited
    ensures forall e :: Enabled(r, Run(s, es), e) && (e.Queue? || e.CreditAck?) ==> e.entry.id != id
    decreases |es|
  {
    if es != [] {
      CreditOutlivesRollback(r, s, es[..|es| - 1], id);
    }
  }

  /** A process that has just loaded its state file. */
  ghost predicate Initial<C>(r: Rules<C>, s: State<C>) {
    && s.credits == [] && s.unrecorded == {} && s.crashes == 0 && Durable(s)
    && BookInv(r, s, s.mem) && BookInv(r, s, s.disk)
  }

  lemma InitialInv<C>(r: Rules<C>, s: State<C>)
    requires Initial(r, s)
    ensures CreditInv(r, s)
  {
    forall id ensures Bounded(s, id) {
      assert Count(s.credits, id) == 0;
    }
  }

  /** Every credit of an event carries the same amount, and an event is credited at most
      once, and once more for each crash. */
  lemma CreditsAreBounded<C>(r: Rules<C>, s: State<C>, es: seq<Event<C>>, id: Id)
    requires Initial(r, s) && Legal(r, s, es)
    ensures Count(Run(s, es).credits, id) <= 1 + Run(s, es).crashes
    ensures forall c :: c in Run(s, es).credits ==> c.amount == r.amount(c.id) && c.id in Run(s, es).detected
  {
    InitialInv(r, s);
    CreditRun(r, s, es);
    assert Bounded(Run(s, es), id);
  }

  lemma {:induction false} DetectedEarlier<C>(r: Rules<C>, s: State<C>, es: seq<Event<C>>, id: Id)
    requires id in Run(s, es).detected && id !in s.detected
    ensures exists k :: 0 <= k < |es| && es[k] == DetectAck(id)
    decreases |es|
  {
    var prev, e := es[..|es| - 1], es[|es| - 1];
    if id in Run(s, prev).detected {
      DetectedEarlier(r, s, prev, id);
      var k :| 0 <= k < |prev| && prev[k] == DetectAck(id);
      assert es[k] == DetectAck(id);
    } else {
      assert e == DetectAck(id);
    }
  }

  /** No credit is acknowledged before a detection of the same event was, in this run
      or, for a payment loaded as already notified, in an earlier one. */
  lemma DetectionPrecedesCredit<C>(r: Rules<C>, s: State<C>, es: seq<Event<C>>, i: nat)
    requires Initial(r, s) && Legal(r, s, es) && i < |es| && es[i].CreditAck?
    ensures var id := es[i].entry.id; id in s.detected || exists k :: 0 <= k < i && es[k] == DetectAck(id)
  {
    var id := es[i].entry.id;
    if id !in s.detected {
      LegalPrefix(r, s, es, i);
      DetectedEarlier(r, s, es[..i], id);
      var k :| 0 <= k < i && es[..i][k] == DetectAck(id);
      assert es[k] == DetectAck(id);
    }
  }

  lemma IdsStay<C>(s: State<C>, e: Event<C>, id: Id)
    requires (e.Queue? || e.Notify? || e.Remine?) && Pending(s.mem, id)
    ensures Pending(Apply(s, e).mem, id)
  {
    var i :| 0 <= i < |s.mem.pending| && s.mem.pending[i].id == id;
    assert Apply(s, e).mem.pending[i].id == id;
  }

  /** A payment leaves the pending list only because it is credited or ignored, or in a
      rollback or crash. */
  lemma PendingLeavesOnlyWhenDone<C>(r: Rules<C>, s: State<C>, e: Event<C>, p: Entry)
    requires Enabled(r, s, e) && p in s.mem.pending
    requires !Pending(Apply(s, e).mem, p.id)
    ensures e.Rollback? || e.Crash? || p.id in Apply(s, e).mem.ignored || (e.Retire? && e.entry.id == p.id && Credited(s.mem, e.entry))
  {
    var i :| 0 <= i < |s.mem.pending| && s.mem.pending[i] == p;
    var q := Apply(s, e).mem.pending;
    if e.Queue? || e.Notify? || e.Remine? {
      IdsStay(s, e, p.id);
    }
    assert (e.Retire? && e.entry.id != p.id) || (e.Ignore? && e.id != p.id) ==> p in q;
  }

  // ---------------------------------------------------------------------
  // The receiver
  // ---------------------------------------------------------------------

  /** A backend that keeps one row per event ID. */
  function Receive(cs: seq<Credit>): map<Id, nat> {
    if cs == [] then map[]
    else
      var m, c := Receive(cs[..|cs| - 1]), cs[|cs| - 1];
      if c.id in m then m else m[c.id := c.amount]
  }

  ghost function Total(m: map<Id, nat>, ids: set<Id>): nat
    requires ids <= m.Keys
  {
    if ids == {} then 0 else var id :| id in ids; m[id] + Total(m, ids - {id})
  }

  ghost function SumOver(f: Id -> nat, ids: set<Id>): nat {
    if ids == {} then 0 else var id :| id in ids; f(id) + SumOver(f, ids - {id})
  }

  lemma {:induction false} ReceiveIsDistinct(cs: seq<Credit>, f: Id -> nat)
    requires forall c :: c in cs ==> c.amount == f(c.id)
    ensures forall id :: id in Receive(cs) <==> exists c :: c in cs && c.id == id
    ensures forall id :: id in Receive(cs) ==> Receive(cs)[id] == f(id)
  {
    if cs != [] {
      var prev, c := cs[..|cs| - 1], cs[|cs| - 1];
      assert cs == prev + [c];
      ReceiveIsDistinct(prev, f);
    }
  }

  lemma {:induction false} TotalIsSum(m: map<Id, nat>, f: Id -> nat, ids: set<Id>)
    requires ids <= m.Keys && forall id :: id in m ==> m[id] == f(id)
    ensures Total(m, ids) == SumOver(f, ids)
  {
    if ids != {} {
      var id :| id in ids && Total(m, ids) == m[id] + Total(m, ids - {id});
      SumWithout(f, ids, id);
      TotalIsSum(m, f, ids - {id});
    }
  }

  lemma {:induction false} SumWithout(f: Id -> nat, ids: set<Id>, id: Id)
    requires id in ids
    ensures SumOver(f, ids) == f(id) + SumOver(f, ids - {id})
  {
    var x :| x in ids && SumOver(f, ids) == f(x) + SumOver(f, ids - {x});
    if x != id {
      SumWithout(f, ids - {x}, id);
      SumWithout(f, ids - {id}, x);
      assert ids - {x} - {id} == ids - {id} - {x};
    }
  }

  /** However often events were credited, a receiver that keeps one row per ID ends with
      the chain amounts of the distinct credited events. */
  lemma ReceiverTotal<C>(r: Rules<C>, s: State<C>, es: seq<Event<C>>)
    requires Initial(r, s) && Legal(r, s, es)
    ensures var cs := Run(s, es).credits; var m := Receive(cs);
            && (forall id :: id in m <==> Count(cs, id) > 0)
            && Total(m, m.Keys) == SumOver(r.amount, m.Keys)
  {
    InitialInv(r, s);
    CreditRun(r, s, es);
    var cs := Run(s, es).credits;
    ReceiveIsDistinct(cs, r.amount);
    TotalIsSum(Receive(cs), r.amount, Receive(cs).Keys);
    forall id ensures Count(cs, id) > 0 <==> exists c :: c in cs && c.id == id {
      CountPositive(cs, id);
    }
  }

  lemma {:induction false} CountPositive(cs: seq<Credit>, id: Id)
    ensures Count(cs, id) > 0 <==> exists c :: c in cs && c.id == id
  {
    if cs != [] {
      var prev, c := cs[..|cs| - 1], cs[|cs| - 1];
      assert cs == prev + [c];
      CountPositive(prev, id);
    }
  }

  // ---------------------------------------------------------------------
  // Memory and disk
  // ---------------------------------------------------------------------

  ghost predicate Accounted<C>(b: Book<C>, id: Id) {
    Pending(b, id) || id in b.credited || id in b.ignored
  }

  /** Without rollbacks and crashes an event that is accounted for stays so, provided
      payments retire under their own ID. */
  lemma AccountedStays<C>(r: Rules<C>, s: State<C>, e: Event<C>, id: Id)
    requires Enabled(r, s, e) && !e.Rollback? && !e.Crash? && Accounted(s.mem, id)
    requires e.Retire? ==> e.entry.alias == e.entry.id
    ensures Accounted(Apply(s, e).mem, id)
  {
    if Pending(s.mem, id) {
      var i :| 0 <= i < |s.mem.pending| && s.mem.pending[i].id == id;
      var p := s.mem.pending[i];
      if !Pending(Apply(s, e).mem, id) {
        PendingLeavesOnlyWhenDone(r, s, e, p);
      }
    }
  }

  // ---------------------------------------------------------------------
  // What crediting one payment may change
  // ---------------------------------------------------------------------

  /** Nothing but the payment's own entry, and at most one credit, of this payment, when
      it was not credited before. */
  ghost predicate OnlyConcerns<C>(s: State<C>, s': State<C>, e: Entry) {
    && s'.mem.scan == s.mem.scan && s'.mem.ignored == s.mem.ignored && s.detected <= s'.detected
    && s.mem.credited <= s'.mem.credited <= s.mem.credited + {e.id}
    && (forall p :: p in s.mem.pending && p.id != e.id ==> p in s'.mem.pending)
    && (forall p :: p in s.mem.pending && p.id == e.id ==> StaysOrCredited(s'.mem, p, e))
    && (forall p :: p in s'.mem.pending && p.id != e.id ==> p in s.mem.pending)
    && (forall p :: p in s'.mem.pending ==> p in s.mem.pending || p.(notified := false) in s.mem.pending)
    && (s'.credits == s.credits
        || (s'.credits == s.credits + [Credit(e.id, e.amount)] && !Credited(s.mem, e)))
  }

  ghost predicate StaysOrCredited<C>(b: Book<C>, p: Entry, e: Entry) {
    p in b.pending || p.(notified := true) in b.pending || Credited(b, e)
  }

  ghost predicate Concerns<C>(ev: Event<C>, e: Entry) {
    match ev
    case Persist => true
    case DetectAck(id) => id == e.id
    case Notify(id) => id == e.id
    case CreditAck(p) => p == e
    case Record(id) => id == e.id
    case Retire(p) => p == e
    case _ => false
  }

  lemma OnlyConcernsStep<C>(r: Rules<C>, s: State<C>, ev: Event<C>, e: Entry)
    requires Enabled(r, s, ev) && Concerns(ev, e)
    ensures OnlyConcerns(s, Apply(s, ev), e)
  {
    if ev.Notify? {
      var ps, qs := s.mem.pending, Apply(s, ev).mem.pending;
      forall p | p in ps ensures p in qs || (p.id == e.id && p.(notified := true) in qs) {
        var i :| 0 <= i < |ps| && ps[i] == p;
        assert qs[i] in qs;
      }
      forall q | q in qs ensures q in ps || q.(notified := false) in ps {
        var i :| 0 <= i < |qs| && qs[i] == q;
        assert ps[i] in ps;
        assert q == ps[i] || q == ps[i].(notified := true);
      }
    }
  }

  /** One step, and perhaps a snapshot. */
  lemma OnlyConcernsSaved<C>(r: Rules<C>, s: State<C>, ev: Event<C>, t: State<C>, e: Entry)
    requires Enabled(r, s, ev) && Concerns(ev, e)
    requires t == Apply(s, ev) || t == Apply(Apply(s, ev), Persist)
    ensures OnlyConcerns(s, t, e)
  {
    OnlyConcernsStep(r, s, ev, e);
  }

  lemma OnlyConcernsThen<C>(s: State<C>, s1: State<C>, s2: State<C>, e: Entry)
    requires OnlyConcerns(s, s1, e) && OnlyConcerns(s1, s2, e)
    requires s1.credits == s.credits || s2.credits == s1.credits
    ensures OnlyConcerns(s, s2, e)
  {
    forall p | p in s.mem.pending && p.id == e.id ensures StaysOrCredited(s2.mem, p, e) {
      var q := p.(notified := true);
      assert q.(notified := true) == q;
      assert StaysOrCredited(s1.mem, p, e);
      if q in s1.mem.pending {
        assert StaysOrCredited(s2.mem, q, e);
      }
    }
    forall p | p in s2.mem.pending ensures p in s.mem.pending || p.(notified := false) in s.mem.pending {
      var q := p.(notified := false);
      assert q.(notified := false) == q;
    }
  }
}
