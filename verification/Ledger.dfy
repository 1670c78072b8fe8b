/** The outbox as the detectors change it in place: `pending`, the credited and ignored
    sets and the scan position in memory, and the state file. Every method is tied to
    the events of the Outbox model. */
module Ledger {
  import opened Common
  import opened Outbox

  /** A legal run from a freshly loaded state. */
  ghost predicate Attained<C>(r: Rules<C>, start: State<C>, trace: seq<Event<C>>) {
    if trace == [] then Initial(r, start)
    else Attained(r, start, trace[..|trace| - 1]) && Enabled(r, Run(start, trace[..|trace| - 1]), trace[|trace| - 1])
  }

  lemma {:induction false} AttainedIsLegal<C>(r: Rules<C>, start: State<C>, trace: seq<Event<C>>)
    requires Attained(r, start, trace)
    ensures Initial(r, start) && Legal(r, start, trace)
  {
    if trace != [] {
      AttainedIsLegal(r, start, trace[..|trace| - 1]);
    }
  }

  /** The state is reached from a freshly loaded one by legal events. */
  ghost predicate Sound<C>(r: Rules<C>, start: State<C>, trace: seq<Event<C>>, s: State<C>) {
    forall here :: Unfolded(here) ==> Attained(r, start, trace) && s == Run(start, trace)
  }

  lemma SoundStep<C>(r: Rules<C>, start: State<C>, trace: seq<Event<C>>, s: State<C>, e: Event<C>)
    requires Sound(r, start, trace, s) && Enabled(r, s, e)
    ensures Sound(r, start, trace + [e], Apply(s, e))
  {
    assert Unfolded(true);
    assert (trace + [e])[..|trace|] == trace;
  }

  /** Entries of a copy of pending: each is one the detector made, whose detection was
      acknowledged if it says so. */
  ghost predicate Workable<C>(r: Rules<C>, s: State<C>, ps: seq<Entry>) {
    forall p :: p in ps ==> Proper(r, p) && (p.notified ==> p.id in s.detected)
  }

  class Ledger<C(!new)> {
    var pending: seq<Entry>
    var credited: set<Id>
    var ignored: set<Id>
    var scan: C
    var disk: Book<C>
    ghost const rules: Rules<C>
    ghost const start: State<C>
    ghost var trace: seq<Event<C>>
    ghost var state: State<C>
    ghost var failures: nat  // webhooks refused and writes failed so far
    ghost var told: nat  // detection webhooks sent so far, acknowledged or not

    ghost function Mem(): Book<C>
      reads this`pending, this`credited, this`ignored, this`scan
    {
      Book(pending, credited, ignored, scan)
    }

    /** The fields are what the recorded events lead to. */
    ghost predicate Valid()
      reads this`pending, this`credited, this`ignored, this`scan, this`disk, this`trace, this`state
    {
      && Sound(rules, start, trace, state)
      && state.mem == Mem() && state.disk == disk && state.unrecorded == {}
    }

    /** Load a state file. */
    constructor (ghost rules: Rules<C>, book: Book<C>, ghost detected: set<Id>)
      requires forall p :: p in book.pending ==> Proper(rules, p) && (p.notified ==> p.id in detected)
      ensures Valid() && this.rules == rules && Mem() == book && disk == book && trace == []
      ensures start == state == State(book, book, detected, [], {}, 0) && failures == 0
    {
      pending, credited, ignored, scan, disk := book.pending, book.credited, book.ignored, book.scan, book;
      this.rules := rules;
      start := State(book, book, detected, [], {}, 0);
      trace, state, failures, told := [], State(book, book, detected, [], {}, 0), 0, 0;
    }

    lemma IsLegal()
      requires Valid()
      ensures Initial(rules, start) && Legal(rules, start, trace) && state == Run(start, trace)
    {
      assert Unfolded(true);
      AttainedIsLegal(rules, start, trace);
    }

    lemma Credits()
      requires Valid()
      ensures CreditInv(rules, state)
    {
      IsLegal();
      InitialInv(rules, start);
      CreditRun(rules, start, trace);
    }

    ghost method Step(e: Event<C>)
      requires Sound(rules, start, trace, state) && Enabled(rules, state, e)
      modifies this`trace, this`state
      ensures Sound(rules, start, trace, state)
      ensures trace == old(trace) + [e] && state == Apply(old(state), e)
    {
      SoundStep(rules, start, trace, state, e);
      trace, state := trace + [e], Apply(state, e);
    }

    /** The detector's own push onto `pending`. */
    method Push(p: Entry)
      requires Valid() && Enabled(rules, state, Queue(p))
      modifies this
      ensures Valid() && trace == old(trace) + [Queue(p)] && state == Apply(old(state), Queue(p))
      ensures failures == old(failures)
      ensures told == old(told)
    {
      pending := pending + [p];
      Step(Queue(p));
    }

    /** The detector moves its scan position. */
    method MoveTo(c: C)
      requires Valid() && Enabled(rules, state, Advance(c))
      modifies this
      ensures Valid() && trace == old(trace) + [Advance(c)] && state == Apply(old(state), Advance(c))
      ensures failures == old(failures)
      ensures told == old(told)
    {
      scan := c;
      Step(Advance(c));
    }

    /** The detector starts at a position of its own choice, with a snapshot if asked for;
        the record of events goes on if the rules allow that start. */
    method StartAt(c: C, save: bool) returns (ok: bool)
      requires Valid()
      modifies this
      ensures Mem() == old(Mem()).(scan := c) && disk == if save && ok then Mem() else old(disk)
      ensures old(Enabled(rules, state, Advance(c))) ==> Valid() && old(trace) <= trace
      ensures failures >= old(failures) && (ok <==> failures == old(failures))
      ensures told == old(told)
    {
      ghost var allowed := Enabled(rules, state, Advance(c));
      scan := c;
      if allowed {
        Step(Advance(c));
      }
      ok := true;
      if save {
        ok := *;
        if ok {
          disk := Book(pending, credited, ignored, scan);
          if allowed {
            Step(Persist);
          }
        } else {
          failures := failures + 1;
        }
      }
    }

    /** The detector drops the payments from a height on and moves its scan position. */
    method RollBack(from: nat, c: C)
      requires Valid() && Enabled(rules, state, Rollback(from, c))
      modifies this
      ensures Valid() && trace == old(trace) + [Rollback(from, c)] && state == Apply(old(state), Rollback(from, c))
      ensures failures == old(failures)
      ensures told == old(told)
    {
      pending, scan := Below(pending, from), c;
      Step(Rollback(from, c));
    }

    /** The payment is not ours to credit. */
    method MarkIgnored(id: Id) returns (ok: bool)
      requires Valid() && Enabled(rules, state, Ignore(id))
      modifies this
      ensures Valid() && old(trace) <= trace
      ensures Mem() == old(Mem()).(ignored := old(ignored) + {id}, pending := Without(old(pending), id)) && (ok ==> disk == Mem())
      ensures state.credits == old(state.credits) && state.detected == old(state.detected)
      ensures ok <==> failures == old(failures)
      ensures failures >= old(failures)
      ensures told == old(told)
    {
      ghost var was := state;
      ignored, pending := ignored + {id}, Without(pending, id);
      Step(Ignore(id));
      assert state == Apply(was, Ignore(id));
      ok := PersistState();
    }

    /** The transaction was mined at another height. */
    method MoveEntry(id: Id, height: nat) returns (ok: bool)
      requires Valid() && Enabled(rules, state, Remine(id, height))
      modifies this
      ensures Valid() && old(trace) <= trace
      ensures Mem() == old(Mem()).(pending := pending) && OneMoved(old(pending), pending, id, height) && MinedAt(Mem(), id, height)
      ensures ok ==> disk == Mem()
      ensures state.credits == old(state.credits) && state.detected == old(state.detected)
      ensures ok <==> failures == old(failures)
      ensures failures >= old(failures)
      ensures told == old(told)
    {
      UpdateChangesFirst(pending, id, SetHeight(height));
      ghost var b := Mem();
      pending := Update(pending, id, SetHeight(height));
      OneMovedMoves(b, Mem(), id, height);
      Step(Remine(id, height));
      ok := PersistState();
    }

    /** `persist_state`: one atomic snapshot, or an error that leaves the file alone. */
    method PersistState() returns (ok: bool)
      requires Valid()
      modifies this
      ensures Valid() && Mem() == old(Mem())
      ensures state == if ok then Apply(old(state), Persist) else old(state)
      ensures trace == if ok then old(trace) + [Persist] else old(trace)
      ensures ok <==> failures == old(failures)
      ensures failures >= old(failures)
      ensures told == old(told)
    {
      ok := *;
      if ok {
        disk := Book(pending, credited, ignored, scan);
        Step(Persist);
      } else {
        failures := failures + 1;
      }
    }

    /** `send_webhook`, for a detection or a credit: acknowledged or failed, as the backend
        pleases. */
    method SendWebhook(detection: bool) returns (acknowledged: bool)
      modifies this`failures, this`told
      ensures told == old(told) + if detection then 1 else 0
      ensures acknowledged <==> failures == old(failures)
      ensures failures >= old(failures)
    {
      if detection {
        told := told + 1;
      }
      acknowledged := *;
      if !acknowledged {
        failures := failures + 1;
      }
    }

    /** Detection webhook, flag in memory, snapshot; false on any failure. */
    method NotifyDetection(entry: Entry) returns (ok: bool)
      requires Valid()
      modifies this
      ensures Valid() && old(trace) <= trace
      ensures OnlyConcerns(old(state), state, entry) && credited == old(credited) && state.credits == old(state.credits)
      ensures ok ==> entry.id in state.detected && OneNotified(old(pending), pending, entry.id) && disk == Mem()
      ensures ok ==> Told(Mem(), entry.id) && forall h :: old(MinedAt(Mem(), entry.id, h)) ==> MinedAt(Mem(), entry.id, h)
      ensures ok <==> failures == old(failures)
      ensures failures >= old(failures)
      ensures told == old(told) + 1
    {
      ghost var s := state;
      ok := SendWebhook(true);
      if !ok {
        return;
      }
      Step(DetectAck(entry.id));
      OnlyConcernsStep(rules, s, DetectAck(entry.id), entry);
      ghost var s1 := state;
      ok := MarkNotified(entry);
      OnlyConcernsThen(s, s1, state, entry);
      OneNotifiedTells(s.mem, Mem(), entry.id);
    }

    /** The flag of an acknowledged detection. */
    method MarkNotified(entry: Entry) returns (ok: bool)
      requires Valid() && entry.id in state.detected
      modifies this
      ensures Valid() && old(trace) <= trace && OnlyConcerns(old(state), state, entry)
      ensures Mem() == old(Mem()).(pending := pending) && OneNotified(old(pending), pending, entry.id) && (ok ==> disk == Mem())
      ensures state.credits == old(state.credits) && state.detected == old(state.detected)
      ensures ok <==> failures == old(failures)
      ensures failures >= old(failures)
      ensures told == old(told)
    {
      ghost var s := state;
      UpdateChangesFirst(pending, entry.id, SetNotified);
      pending := Update(pending, entry.id, SetNotified);
      Step(Notify(entry.id));
      ok := PersistState();
      OnlyConcernsSaved(rules, s, Notify(entry.id), state, entry);
    }

    /** Credit webhook, record in memory, snapshot; false on any failure. */
    method SendCredit(entry: Entry) returns (ok: bool)
      requires Valid() && !Credited(Mem(), entry) && entry.id in state.detected
      requires Proper(rules, entry)
      modifies this
      ensures Valid() && old(trace) <= trace && OnlyConcerns(old(state), state, entry) && pending == old(pending)
      ensures ok ==> credited == old(credited) + {entry.id} && disk == Mem()
      ensures ok ==> state.credits == old(state.credits) + [Credit(entry.id, entry.amount)]
      ensures ok <==> failures == old(failures)
      ensures failures >= old(failures)
      ensures told == old(told)
    {
      ghost var s := state;
      ok := SendWebhook(false);
      if !ok {
        return;
      }
      Step(CreditAck(entry));
      OnlyConcernsStep(rules, s, CreditAck(entry), entry);
      ghost var s1 := state;
      ok := RecordCredit(entry);
      OnlyConcernsThen(s, s1, state, entry);
    }

    /** The acknowledged credit enters the credited set. */
    method RecordCredit(entry: Entry) returns (ok: bool)
      requires Sound(rules, start, trace, state) && state.mem == Mem() && state.disk == disk && state.unrecorded == {entry.id}
      modifies this
      ensures Valid() && old(trace) <= trace && OnlyConcerns(old(state), state, entry)
      ensures Mem() == old(Mem()).(credited := old(credited) + {entry.id}) && (ok ==> disk == Mem())
      ensures state.credits == old(state.credits) && state.detected == old(state.detected)
      ensures ok <==> failures == old(failures)
      ensures failures >= old(failures)
      ensures told == old(told)
    {
      ghost var s := state;
      credited := credited + {entry.id};
      Step(Record(entry.id));
      ok := PersistState();
      OnlyConcernsSaved(rules, s, Record(entry.id), state, entry);
    }

    /** Removal from `pending` once swept. */
    method RetireEntry(entry: Entry) returns (ok: bool)
      requires Valid() && Proper(rules, entry) && Credited(Mem(), entry)
      modifies this
      ensures Valid() && old(trace) <= trace && OnlyConcerns(old(state), state, entry) && credited == old(credited)
      ensures pending == Without(old(pending), entry.id) && !Pending(Mem(), entry.id) && (ok ==> disk == Mem())
      ensures state.credits == old(state.credits)
      ensures ok <==> failures == old(failures)
      ensures failures >= old(failures)
      ensures told == old(told)
    {
      ghost var s := state;
      pending := Without(pending, entry.id);
      Step(Retire(entry));
      ok := PersistState();
      OnlyConcernsSaved(rules, s, Retire(entry), state, entry);
      WithoutIsGone(Mem(), old(pending), entry.id);
    }

    /** Credit unless already credited, then removal unless the sweep was deferred. */
    method CreditAndRetire(entry: Entry, alreadyCredited: bool, deferred: bool) returns (ok: bool)
      requires Valid() && Proper(rules, entry)
      requires alreadyCredited <==> Credited(Mem(), entry)
      requires alreadyCredited || entry.id in state.detected
      modifies this
      ensures Valid() && old(trace) <= trace && OnlyConcerns(old(state), state, entry)
      ensures alreadyCredited ==> state.credits == old(state.credits)
      ensures ok ==> Credited(Mem(), entry) && (deferred || !Pending(Mem(), entry.id))
      ensures ok && !alreadyCredited ==> state.credits == old(state.credits) + [Credit(entry.id, entry.amount)]
      ensures deferred ==> pending == old(pending)
      ensures ok && old(disk) == old(Mem()) ==> disk == Mem()
      ensures ok ==> (old(Told(Mem(), entry.id)) ==> Told(Mem(), entry.id))
                     && forall h :: old(MinedAt(Mem(), entry.id, h)) ==> MinedAt(Mem(), entry.id, h)
      ensures ok <==> failures == old(failures)
      ensures failures >= old(failures)
      ensures told == old(told)
    {
      ghost var s := state;
      ok := true;
      if !alreadyCredited {
        ok := SendCredit(entry);
        if !ok {
          return;
        }
      }
      ghost var s1 := state;
      if !deferred {
        ok := RetireEntry(entry);
        OnlyConcernsThen(s, s1, state, entry);
        NotPendingTells(Mem(), entry.id);
      }
    }
  }
}
