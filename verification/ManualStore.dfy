/** The MANUAL store as it runs: tables in a shared database, tickets in this store's memory.
    The final recheck and the transport callback come from outside and may answer anything. */
module ManualStore {
  import opened Common
  import opened Manual
  import R = ManualRuns
  import L = Leases

  /** The recheck and, if it passes, the transport callback. */
  method RecheckAndSend() returns (what: Attempted) {
    what := *;
  }

  /** The attempts a store holds tickets for. */
  ghost function Held(tickets: set<(StoreId, Attempt)>, store: StoreId): set<Attempt>
  {
    set t | t in tickets && t.0 == store :: t.1
  }

  /** The tickets of every other store are what they were. */
  ghost predicate OthersHold(s: R.State, s': R.State, store: StoreId)
  {
    forall other :: other != store ==> Held(s'.tickets, other) == Held(s.tickets, other)
  }

  class Database {
    var permits: map<Attempt, PermitState>
    var bindings: map<Attempt, Binding>
    var subs: map<Attempt, Submission>
    var intents: map<Attempt, Result>
    var outcomes: map<Attempt, Result>
    var leases: L.Table
    // Everything that happened to this database and to the stores open over it.
    ghost var trace: seq<R.State>

    function Tables(): Db
      reads this
    {
      Db(permits, bindings, subs, intents, outcomes, leases)
    }

    ghost predicate Valid()
      reads this
    {
      R.IsRun(trace) && Now().db == Tables()
    }

    ghost function Now(): R.State
      reads this
    {
      if |trace| > 0 then trace[|trace| - 1] else R.State(Tables(), {}, [], [])
    }

    constructor ()
      ensures Valid() && Now().tickets == {} && Now().calls == []
    {
      permits, bindings, subs, intents, outcomes, leases := map[], map[], map[], map[], map[], map[];
      trace := [R.State(Db(map[], map[], map[], map[], map[], map[]), {}, [], [])];
    }

    ghost method Record(e: R.Event, s: R.State)
      requires R.IsRun(trace) && R.Step(Now(), e, s) && s.db == Tables()
      modifies this`trace
      ensures Valid() && trace == old(trace) + [s]
    {
      R.RunGrows(trace, e, s);
      trace := trace + [s];
    }

    /** A lease is taken as the lease protocol allows it. */
    method AcquireLease(key: L.Key, holder: L.Name, ttl: int, now: L.Time) returns (epoch: Option<nat>)
      requires Valid()
      modifies this`leases, this`trace
      ensures Valid() && old(trace) <= trace
      ensures match L.AcquireNext(old(leases), key, holder, ttl, now)
              case Some(r) => epoch == Some(r.1) && leases == r.0
              case None => epoch == None && leases == old(leases)
    {
      var r := L.AcquireNext(leases, key, holder, ttl, now);
      if r.None? {
        return None;
      }
      ghost var s := Now();
      leases := r.value.0;
      Record(R.LeaseEvent(L.AcquireNextEvent(key, holder, ttl, now)), s.(db := s.db.(leases := leases)));
      return Some(r.value.1);
    }

    /** A permit is issued to an attempt that has none. */
    method IssuePermit(a: Attempt) returns (ok: bool)
      requires Valid()
      modifies this`permits, this`trace
      ensures Valid() && old(trace) <= trace
      ensures ok <==> a !in old(permits)
      ensures permits == if ok then old(permits)[a := Issued] else old(permits)
    {
      ok := a !in permits;
      if ok {
        ghost var s := Now();
        permits := permits[a := Issued];
        Record(R.PermitEvent(a, Issued), s.(db := s.db.(permits := permits)));
      }
    }

    /** insertManualSubmissionTransitionTx, inside a transaction. */
    method Insert(a: Attempt, kind: Kind, r: Result, f: L.Fence) returns (ok: bool)
      modifies this`subs, this`intents, this`outcomes
      ensures match Transition(old(Tables()), a, kind, r, f)
              case Some(db) => ok && Tables() == db
              case None => !ok && Tables() == old(Tables())
    {
      ok := TransitionAllowed(Tables(), a, kind, r, f);
      if ok {
        if kind == Intent {
          intents := intents[a := r];
          subs := subs[a := subs[a].(intentAt := Some(f.clock))];
        } else {
          outcomes := outcomes[a := r];
          subs := subs[a := subs[a].(state := r.state, failure := r.failure)];
        }
      }
    }

    /** The loop of RecoverManualFirstSubmissions: one transition row after another, all or nothing. */
    method ClassifyPending(f: L.Fence) returns (ok: bool)
      modifies this`subs, this`intents, this`outcomes
      ensures match Recover(old(Tables()), f)
              case Some(t) => ok && Tables() == t
              case None => !ok && Tables() == old(Tables())
    {
      if !L.HoldsManual(leases, f) {
        return false;
      }
      var before := Tables();
      var todo := PendingSet(before, f);
      while todo != {}
        invariant todo <= PendingSet(before, f)
        invariant Tables() == RecoverOnly(before, PendingSet(before, f) - todo)
        invariant forall a :: a in PendingSet(before, f) - todo ==>
                    TransitionAllowed(before, a, Outcome, RecoveryResult(before.subs[a]), f)
        decreases todo
      {
        var a :| a in todo;
        ghost var done := PendingSet(before, f) - todo;
        RecoverOneMore(before, done, a, f);
        var inserted := Insert(a, Outcome, RecoveryResult(subs[a]), f);
        if !inserted {
          subs, outcomes := before.subs, before.outcomes;
          return false;
        }
        todo := todo - {a};
        assert PendingSet(before, f) - todo == done + {a};
      }
      assert PendingSet(before, f) - todo == PendingSet(before, f);
      assert Tables() == Recover(before, f).value;
      return true;
    }
  }

  /** One open store. Its methods record what they do in the database's trace, so every theorem
      about runs holds of them, whichever other stores are open. Their fence is looked up under the
      SUBMISSION role, which is fixed in the statements themselves. */
  class Store {
    const db: Database
    const id: StoreId
    var tickets: set<Attempt>

    ghost predicate Valid()
      reads this, db
    {
      db.Valid() && tickets == Held(db.Now().tickets, id)
    }

    /** Opening a store never reconstructs a ticket. */
    constructor (db: Database, id: StoreId)
      requires db.Valid()
      modifies db`trace
      ensures this.db == db && this.id == id && tickets == {} && Valid()
      ensures old(db.trace) <= db.trace && OthersHold(old(db.Now()), db.Now(), id)
    {
      this.db, this.id, tickets := db, id, {};
      new;
      ghost var s := db.Now();
      db.Record(R.ReopenEvent(id), s.(tickets := set t | t in s.tickets && t.0 != id));
    }

    /** BeginManualFirstSubmission. `identified` is what the identity rows and the recheck say. */
    method Begin(a: Attempt, txHash: Hash, f: L.Fence, identified: bool) returns (ok: bool)
      requires Valid() && f.key.role == L.Submission
      modifies db`permits, db`bindings, db`subs, db`trace
      ensures Valid() && old(db.trace) <= db.trace && OthersHold(old(db.Now()), db.Now(), id)
      ensures match Claim(old(db.Tables()), a, txHash, f)
              case Some(t) => ok == identified && db.Tables() == if identified then t else old(db.Tables())
              case None => !ok && db.Tables() == old(db.Tables())
    {
      ok := L.HoldsManual(db.leases, f) && identified && a in db.permits && db.permits[a] == Issued
            && a !in db.bindings && a !in db.subs;
      if ok {
        ghost var s := db.Now();
        db.permits := db.permits[a := Consumed];
        db.bindings := db.bindings[a := Binding(txHash, f.key.environment, f.holder, f.epoch, f.clock)];
        db.subs := db.subs[a := Submission(txHash, Submitting, NoFailure, None)];
        db.Record(R.ClaimEvent(a, txHash, f), s.(db := db.Tables(), fenced := s.fenced + [f]));
      }
    }

    /** MarkManualFirstSendIntent: the ticket is issued only after the commit. `inPhase` is what the
        phase view and the recheck say. */
    method Mark(a: Attempt, f: L.Fence, inPhase: bool) returns (ok: bool)
      requires Valid() && f.key.role == L.Submission
      modifies this`tickets, db`subs, db`intents, db`outcomes, db`trace
      ensures Valid() && old(db.trace) <= db.trace && OthersHold(old(db.Now()), db.Now(), id)
      ensures match MarkIntent(old(db.Tables()), a, f)
              case Some(t) =>
                && ok == inPhase
                && db.Tables() == (if inPhase then t else old(db.Tables()))
                && tickets == (if inPhase then old(tickets) + {a} else old(tickets))
              case None => !ok && db.Tables() == old(db.Tables()) && tickets == old(tickets)
    {
      ok := false;
      ghost var s := db.Now();
      if L.HoldsManual(db.leases, f) && inPhase {
        ok := db.Insert(a, Intent, Result(Submitting, None, NoFailure), f);
      }
      if ok {
        tickets := tickets + {a};
        ghost var s' := s.(db := db.Tables(), tickets := s.tickets + {(id, a)}, fenced := s.fenced + [f]);
        db.Record(R.MarkEvent(id, a, f, true), s');
        TicketAdded(s.tickets, id, a);
      }
    }

    /** DiscardManualFirstInvocation. */
    method Discard(a: Attempt)
      requires Valid()
      modifies this`tickets, db`trace
      ensures Valid() && old(db.trace) <= db.trace && OthersHold(old(db.Now()), db.Now(), id)
      ensures tickets == old(tickets) - {a}
    {
      tickets := tickets - {a};
      ghost var s := db.Now();
      db.Record(R.DiscardEvent(id, a), s.(tickets := s.tickets - {(id, a)}));
      TicketBurned(s.tickets, id, a);
    }

    /** WithManualFirstSubmissionOutcome: the ticket is burned first, whatever happens next.
        `ran` is whether the callback was reached; without a ticket nothing else happens. Over
        everything that ever happened to the database no callback ran twice. */
    method Invoke(a: Attempt, txHash: Hash, f: L.Fence) returns (ran: bool, what: Attempted)
      requires Valid() && f.key.role == L.Submission
      modifies this`tickets, db`subs, db`intents, db`outcomes, db`trace
      ensures Valid() && old(db.trace) <= db.trace && OthersHold(old(db.Now()), db.Now(), id)
      ensures tickets == old(tickets) - {a}
      ensures ran ==> a in old(tickets) && MayInvoke(old(db.Tables()), a, txHash, f) && what.Called?
      ensures if a in old(tickets) && MayInvoke(old(db.Tables()), a, txHash, f) then
                match Transition(old(db.Tables()), a, Outcome, ResultOf(what), f)
                case Some(t) => db.Tables() == t && (ran <==> what.Called?)
                case None => db.Tables() == old(db.Tables()) && (ran <==> what.Called?)
              else db.Tables() == old(db.Tables())
      ensures db.Now().calls == if ran then old(db.Now().calls) + [a] else old(db.Now().calls)
      ensures ran ==> a !in old(db.Now().calls)
    {
      ran, what := false, RecheckFailed;
      ghost var s := db.Now();
      var ticket := a in tickets;
      tickets := tickets - {a};
      TicketBurned(s.tickets, id, a);
      if !ticket {
        assert (id, a) !in s.tickets && s.tickets - {(id, a)} == s.tickets;
        return;
      }
      ghost var burned := s.(tickets := s.tickets - {(id, a)});
      if !MayInvoke(db.Tables(), a, txHash, f) {
        db.Record(R.InvokeEvent(id, a, txHash, f, what, true), burned);
        return;
      }
      what := RecheckAndSend();
      ran := what.Called?;
      var recorded := db.Insert(a, Outcome, ResultOf(what), f);
      ghost var after := burned.(db := db.Tables(), fenced := if recorded then s.fenced + [f] else s.fenced,
                                 calls := if ran then s.calls + [a] else s.calls);
      db.Record(R.InvokeEvent(id, a, txHash, f, what, true), after);
      CalledOnce(db.trace, s.calls, a, ran);
    }

    /** RecoverManualFirstSubmissions. */
    method RecoverAll(f: L.Fence) returns (ok: bool)
      requires Valid() && f.key.role == L.Submission
      modifies db`subs, db`intents, db`outcomes, db`trace
      ensures Valid() && old(db.trace) <= db.trace && OthersHold(old(db.Now()), db.Now(), id)
      ensures match Recover(old(db.Tables()), f)
              case Some(t) => ok && db.Tables() == t
              case None => !ok && db.Tables() == old(db.Tables())
    {
      ghost var s := db.Now();
      ok := db.ClassifyPending(f);
      if ok {
        db.Record(R.RecoverEvent(f), s.(db := db.Tables(), fenced := s.fenced + [f]));
      }
    }
  }

  lemma TicketAdded(tickets: set<(StoreId, Attempt)>, store: StoreId, a: Attempt)
    ensures Held(tickets + {(store, a)}, store) == Held(tickets, store) + {a}
    ensures forall other :: other != store ==> Held(tickets + {(store, a)}, other) == Held(tickets, other)
  {
    var more := tickets + {(store, a)};
    forall b | b in Held(tickets, store) + {a} ensures b in Held(more, store) {
      assert (store, b) in more;
    }
    forall other | other != store ensures Held(more, other) == Held(tickets, other) {
      forall b | b in Held(tickets, other) ensures b in Held(more, other) {
        assert (other, b) in more;
      }
    }
  }

  lemma TicketBurned(tickets: set<(StoreId, Attempt)>, store: StoreId, a: Attempt)
    ensures Held(tickets - {(store, a)}, store) == Held(tickets, store) - {a}
    ensures forall other :: other != store ==> Held(tickets - {(store, a)}, other) == Held(tickets, other)
    ensures a in Held(tickets, store) <==> (store, a) in tickets
  {
    var fewer := tickets - {(store, a)};
    forall b | b in Held(tickets, store) - {a} ensures b in Held(fewer, store) {
      assert (store, b) in fewer;
    }
    forall other | other != store ensures Held(fewer, other) == Held(tickets, other) {
      forall b | b in Held(tickets, other) ensures b in Held(fewer, other) {
        assert (other, b) in fewer;
      }
    }
  }

  lemma CalledOnce(trace: seq<R.State>, calls: seq<Attempt>, a: Attempt, ran: bool)
    requires R.IsRun(trace) && trace[|trace| - 1].calls == if ran then calls + [a] else calls
    ensures ran ==> a !in calls
  {
    R.CallbackRunsAtMostOnce(trace, |trace| - 1);
    var now := trace[|trace| - 1].calls;
    assert ran ==> now[|calls|] == a && forall m :: 0 <= m < |calls| ==> now[m] == calls[m];
  }

  /** Each pending claim is classified independently of those already done. */
  lemma RecoverOneMore(before: Db, done: set<Attempt>, a: Attempt, f: L.Fence)
    requires done <= before.subs.Keys && a in before.subs && a !in done
    ensures var db := RecoverOnly(before, done);
            && db.subs[a] == before.subs[a]
            && Transition(db, a, Outcome, RecoveryResult(before.subs[a]), f)
               == (if TransitionAllowed(before, a, Outcome, RecoveryResult(before.subs[a]), f)
                   then Some(RecoverOnly(before, done + {a})) else None)
  {
    var db := RecoverOnly(before, done);
    var t := Transition(db, a, Outcome, RecoveryResult(before.subs[a]), f);
    if t.Some? {
      assert t.value.subs == RecoverOnly(before, done + {a}).subs;
      assert t.value.outcomes == RecoverOnly(before, done + {a}).outcomes;
    }
  }
}
