/** Where every MANUAL outcome comes from, and what it says about the transport callback. */
module ManualOutcomes {
  import opened Common
  import opened Manual
  import opened ManualRuns
  import L = Leases
  import A = IntentSend

  /** The callback ran and gave one of the four supported outcomes. */
  predicate Answered(what: Attempted)
  {
    what.Called? && what.answer.Some? && what.answer.value.state != Submitting
  }

  /** An invocation records the callback's own answer; for want of one the submission is unknown. */
  ghost predicate Reports(what: Attempted, r: Result)
  {
    if Answered(what) then r == what.answer.value
    else r.state == BroadcastUnknown && r.rpcHash == None
  }

  /** The result is what recovery writes, which never knows more than whether the intent is durable. */
  ghost predicate RestartReports(intent: bool, r: Result)
  {
    r == if intent then Result(BroadcastUnknown, None, RestartAfterSendIntent)
         else Result(KnownUnsent, None, RestartBeforeSendIntent)
  }

  /** The step writes the outcome of `a`, and for this reason. */
  ghost predicate Writes(s: State, e: Event, s': State, a: Attempt)
  {
    && a !in s.db.outcomes && a in s'.db.outcomes && a in s.db.subs && s.db.subs[a].state == Submitting
    && a in s'.db.subs && s'.db.subs[a].state == s'.db.outcomes[a].state
    && s'.db.subs[a].failure == s'.db.outcomes[a].failure
    && (|| (e.RecoverEvent? && RestartReports(a in s.db.intents, s'.db.outcomes[a]))
        || (e.InvokeEvent? && e.a == a && a in s.db.intents && Reports(e.what, s'.db.outcomes[a])))
  }

  lemma InvocationWrites(s: State, e: Event, s': State, a: Attempt)
    requires Inv(s) && e.InvokeEvent? && Step(s, e, s') && a !in s.db.outcomes && a in s'.db.outcomes
    ensures Writes(s, e, s', a)
  {
    assert RowOk(s.db, a);
  }

  lemma RecoveryWrites(s: State, e: Event, s': State, a: Attempt)
    requires Inv(s) && e.RecoverEvent? && Step(s, e, s') && a !in s.db.outcomes && a in s'.db.outcomes
    ensures Writes(s, e, s', a)
  {
    assert a in PendingSet(s.db, e.fence);
    assert RowOk(s.db, a);
  }

  lemma NewOutcomeIsWritten(s: State, e: Event, s': State, a: Attempt)
    requires Inv(s) && Step(s, e, s') && a !in s.db.outcomes && a in s'.db.outcomes
    ensures Writes(s, e, s', a)
  {
    if e.InvokeEvent? {
      InvocationWrites(s, e, s', a);
    } else if e.RecoverEvent? {
      RecoveryWrites(s, e, s', a);
    } else {
      assert false;
    }
  }

  /** Nothing calls for a row that has its outcome, and nothing rewrites it. */
  lemma WrittenStays(s: State, e: Event, s': State, a: Attempt)
    requires Inv(s) && Step(s, e, s') && a in s.db.outcomes
    ensures a in s'.db.outcomes && s'.db.outcomes[a] == s.db.outcomes[a]
    ensures a in s.db.subs && a in s'.db.subs && s'.db.subs[a] == s.db.subs[a]
    ensures a in s'.calls <==> a in s.calls
  {
    assert RowOk(s.db, a);
    TransitionsAreWrittenOnce(s, e, s', a);
  }

  /** The step that writes an outcome adds the call of that very invocation, if it made one. */
  lemma WritingCalls(s: State, e: Event, s': State, a: Attempt)
    requires Inv(s) && A.Inv(Abs(s)) && Step(s, e, s') && Writes(s, e, s', a)
    ensures e.InvokeEvent? ==> a !in s.calls && (a in s'.calls <==> e.what.Called?)
    ensures e.RecoverEvent? ==> s'.calls == s.calls
  {
    if e.InvokeEvent? {
      assert (e.store, e.a) in s.tickets;
      assert a in Abs(s).armed;
    }
  }

  /** In every reachable state every outcome was written by one step: a recovery, which writes unknown
      after a durable intent and unsent before it, or an invocation, which writes the callback's own
      answer and, if the recheck failed or the callback erred or answered something unsupported,
      unknown. In the latter case the callback ran, in the whole run, if and only if that invocation
      ran it. */
  lemma {:induction false} OutcomeIsJustified(run: seq<State>, i: nat, a: Attempt) returns (k: nat, e: Event)
    requires IsRun(run) && i < |run| && a in run[i].db.outcomes
    ensures 0 < k <= i && Step(run[k - 1], e, run[k]) && Writes(run[k - 1], e, run[k], a)
    ensures run[i].db.outcomes[a] == run[k].db.outcomes[a]
    ensures a in run[i].db.subs && run[i].db.subs[a].state == run[i].db.outcomes[a].state
    ensures e.InvokeEvent? ==> (a in run[i].calls <==> e.what.Called?)
    ensures e.RecoverEvent? ==> (a in run[i].calls <==> a in run[k].calls)
  {
    RunKeepsInv(run, i - 1);
    assert StepAt(run, i);
    var last :| Step(run[i - 1], last, run[i]);
    if a in run[i - 1].db.outcomes {
      k, e := OutcomeIsJustified(run, i - 1, a);
      WrittenStays(run[i - 1], last, run[i], a);
    } else {
      k, e := i, last;
      NewOutcomeIsWritten(run[i - 1], e, run[i], a);
      RunKeepsSendInv(run, i - 1);
      WritingCalls(run[i - 1], e, run[i], a);
    }
  }

  /** A submission whose callback ran is recorded known_unsent only if the callback itself said so. */
  lemma CalledIsUnsentOnlyByItsAnswer(run: seq<State>, i: nat, a: Attempt) returns (k: nat, e: Event)
    requires IsRun(run) && i < |run| && a in run[i].calls
    requires a in run[i].db.subs && run[i].db.subs[a].state == KnownUnsent
    ensures 0 < k <= i && Step(run[k - 1], e, run[k]) && e.InvokeEvent? && e.a == a
    ensures Answered(e.what) && e.what.answer.value.state == KnownUnsent
  {
    assert RowOk(run[i].db, a) by {
      RunKeepsInv(run, i);
    }
    k, e := OutcomeIsJustified(run, i, a);
    if e.RecoverEvent? {
      CallbackRunsAtMostOnce(run, k);
      assert false;
    }
  }

  /** Once its intent is durable, an invocation that gets no supported answer leaves broadcast_unknown
      whenever it may write at all: its process survives and its clock is not behind the rows. */
  lemma FailedInvocationIsUnknown(s: State, e: Event, s': State)
    requires Inv(s) && e.InvokeEvent? && Step(s, e, s') && !Answered(e.what)
    requires MayInvoke(s.db, e.a, e.txHash, e.fence) && e.committed
    requires s.db.bindings[e.a].createdAt <= e.fence.clock && s.db.subs[e.a].intentAt.value <= e.fence.clock
    ensures e.a in s'.db.outcomes && s'.db.outcomes[e.a].state == BroadcastUnknown
    ensures e.a in s'.db.subs && s'.db.subs[e.a].state == BroadcastUnknown
    ensures s'.calls == if e.what.Called? then s.calls + [e.a] else s.calls
  {
    assert RowOk(s.db, e.a);
  }

  // ---------------------------------------------------------------------------------------
  // Who may do what, and when

  /** The claim under which a submission is open: transaction, environment, holder and epoch. */
  predicate ClaimedBy(db: Db, a: Attempt, f: L.Fence)
  {
    && a in db.bindings && db.bindings[a].environment == f.key.environment
    && db.bindings[a].holder == f.holder && db.bindings[a].epoch == f.epoch
  }

  /** A claim succeeds exactly under a held lease, for an issued permit of an attempt that has neither
      claim nor submission. It consumes that permit, binds the submission to the transaction and to
      the claiming lease at its clock, and changes nothing else. */
  lemma ClaimsExactlyWhen(db: Db, a: Attempt, txHash: Hash, f: L.Fence)
    ensures Claim(db, a, txHash, f).Some? <==>
              && L.HoldsManual(db.leases, f) && a in db.permits && db.permits[a] == Issued
              && a !in db.bindings && a !in db.subs
    ensures Claim(db, a, txHash, f).Some? ==>
              var db' := Claim(db, a, txHash, f).value;
              && db'.permits == db.permits[a := Consumed]
              && db'.bindings == db.bindings[a := Binding(txHash, f.key.environment, f.holder, f.epoch, f.clock)]
              && db'.subs == db.subs[a := Submission(txHash, Submitting, NoFailure, None)]
              && db' == db.(permits := db'.permits, bindings := db'.bindings, subs := db'.subs)
  {
  }

  /** Bindings are written once. */
  lemma BindingsStay(s: State, e: Event, s': State, a: Attempt)
    requires Step(s, e, s') && a in s.db.bindings
    ensures a in s'.db.bindings && s'.db.bindings[a] == s.db.bindings[a]
  {
  }

  /** Only the claimant marks the intent, on an open submission without one, at a clock that is not before
      the claim; and the intent is dated with that clock. */
  lemma MarkNeedsTheClaimant(s: State, e: Event, s': State)
    requires Inv(s) && e.MarkEvent? && Step(s, e, s')
    ensures L.HoldsManual(s.db.leases, e.fence) && ClaimedBy(s.db, e.a, e.fence)
    ensures s.db.bindings[e.a].createdAt <= e.fence.clock
    ensures e.a in s.db.subs && s.db.subs[e.a].state == Submitting && s.db.subs[e.a].intentAt == None
    ensures s'.db.subs == s.db.subs[e.a := s.db.subs[e.a].(intentAt := Some(e.fence.clock))]
    ensures s'.db == s.db.(subs := s'.db.subs, intents := s'.db.intents)
    ensures s'.tickets == if e.kept then s.tickets + {(e.store, e.a)} else s.tickets
  {
  }

  /** The callback runs in exactly those invocations that burn the store's own ticket under the claimant's
      lease, for the claimed transaction, while the submission is open, and whose recheck passed. */
  lemma CallsExactlyWhen(s: State, e: Event, s': State)
    requires Inv(s) && e.InvokeEvent? && Step(s, e, s')
    ensures (e.store, e.a) in s.tickets && (e.store, e.a) !in s'.tickets
    ensures s'.calls == if e.what.Called? && L.HoldsManual(s.db.leases, e.fence) && ClaimedBy(s.db, e.a, e.fence)
                           && s.db.bindings[e.a].txHash == e.txHash && s.db.subs[e.a].state == Submitting
                        then s.calls + [e.a] else s.calls
  {
    assert e.a in s.db.subs && s.db.subs[e.a].intentAt.Some?;
    assert RowOk(s.db, e.a);
  }

  /** Recovery closes exactly the open claims of its environment that were made under an older epoch. */
  lemma RecoveryClosesExactly(s: State, e: Event, s': State, a: Attempt)
    requires Inv(s) && e.RecoverEvent? && Step(s, e, s')
    ensures a in s'.db.outcomes && a !in s.db.outcomes <==>
              && a in s.db.subs && s.db.subs[a].state == Submitting && a in s.db.bindings
              && s.db.bindings[a].environment == e.fence.key.environment && s.db.bindings[a].epoch < e.fence.epoch
  {
    if a in s.db.subs {
      assert RowOk(s.db, a);
    }
    assert a in PendingSet(s.db, e.fence) ==> a in s'.db.outcomes;
  }

  /** Recovery commits exactly under a held lease whose clock is not behind any claim or intent it would
      close: one such row keeps it from closing the others. */
  lemma RecoversExactlyWhen(s: State, f: L.Fence)
    requires Inv(s)
    ensures Recover(s.db, f).Some? <==>
              && L.HoldsManual(s.db.leases, f)
              && forall a :: a in s.db.subs && s.db.subs[a].state == Submitting && a in s.db.bindings
                             && s.db.bindings[a].environment == f.key.environment
                             && s.db.bindings[a].epoch < f.epoch ==>
                   && s.db.bindings[a].createdAt <= f.clock
                   && (s.db.subs[a].intentAt.Some? ==> s.db.subs[a].intentAt.value <= f.clock)
  {
    forall a | a in PendingSet(s.db, f) && L.HoldsManual(s.db.leases, f)
      ensures TransitionAllowed(s.db, a, Outcome, RecoveryResult(s.db.subs[a]), f) <==>
                && s.db.bindings[a].createdAt <= f.clock
                && (s.db.subs[a].intentAt.Some? ==> s.db.subs[a].intentAt.value <= f.clock)
    {
      assert RowOk(s.db, a);
    }
  }

  /** What the rows say about each other in every reachable state: an intent is not dated before its claim,
      a submitted outcome carries the hash of the claimed transaction and no failure, and every other
      outcome has a failure. */
  ghost predicate RowsAgree(db: Db)
  {
    && (forall a :: a in db.subs && a in db.bindings && db.subs[a].intentAt.Some? ==>
          db.bindings[a].createdAt <= db.subs[a].intentAt.value)
    && (forall a :: a in db.outcomes ==>
          && a in db.bindings && db.outcomes[a].state != Submitting
          && (if db.outcomes[a].state == Submitted
              then db.outcomes[a].rpcHash == Some(db.bindings[a].txHash) && db.outcomes[a].failure == NoFailure
              else db.outcomes[a].failure != NoFailure))
  }

  lemma InvocationAgrees(s: State, e: Event, s': State)
    requires RowsAgree(s.db) && e.InvokeEvent? && Step(s, e, s')
    ensures RowsAgree(s'.db)
  {
    var r := Transition(s.db, e.a, Outcome, ResultOf(e.what), e.fence);
    if s'.db != s.db {
      assert r == Some(s'.db);
      assert s'.db.bindings == s.db.bindings && e.a in s.db.bindings;
    }
  }

  lemma RecoveryAgrees(s: State, e: Event, s': State)
    requires RowsAgree(s.db) && e.RecoverEvent? && Step(s, e, s')
    ensures RowsAgree(s'.db)
  {
    var work := PendingSet(s.db, e.fence);
    assert s'.db == RecoverOnly(s.db, work);
    assert forall a :: a in work ==> a in s.db.bindings;
  }

  lemma StepAgrees(s: State, e: Event, s': State)
    requires RowsAgree(s.db) && Inv(s) && Step(s, e, s')
    ensures RowsAgree(s'.db)
  {
    if e.InvokeEvent? {
      InvocationAgrees(s, e, s');
    } else if e.RecoverEvent? {
      RecoveryAgrees(s, e, s');
    } else if e.MarkEvent? {
      MarkNeedsTheClaimant(s, e, s');
      assert s'.db.outcomes == s.db.outcomes;
    } else if e.ClaimEvent? {
      ClaimsExactlyWhen(s.db, e.a, e.txHash, e.fence);
    }
  }

  lemma {:induction false} RowsAlwaysAgree(run: seq<State>, i: nat)
    requires IsRun(run) && i < |run|
    ensures RowsAgree(run[i].db)
  {
    if i > 0 {
      RowsAlwaysAgree(run, i - 1);
      RunKeepsInv(run, i - 1);
      assert StepAt(run, i);
      var e :| Step(run[i - 1], e, run[i]);
      StepAgrees(run[i - 1], e, run[i]);
    }
  }

  /** No outcome is dated before the claim or the intent it closes. */
  lemma OutcomesAreNotBackdated(s: State, e: Event, s': State, a: Attempt)
    requires Inv(s) && (e.InvokeEvent? || e.RecoverEvent?) && Step(s, e, s')
    requires a !in s.db.outcomes && a in s'.db.outcomes
    ensures a in s.db.bindings && s.db.bindings[a].createdAt <= e.fence.clock
    ensures a in s.db.subs && (s.db.subs[a].intentAt.Some? ==> s.db.subs[a].intentAt.value <= e.fence.clock)
    ensures L.HoldsManual(s.db.leases, e.fence) && s.db.bindings[a].environment == e.fence.key.environment
  {
    if e.RecoverEvent? {
      assert a in PendingSet(s.db, e.fence);
    }
  }
}
