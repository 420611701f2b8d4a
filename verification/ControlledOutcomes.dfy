/** What a sending transaction leaves behind, and what the outcome of a submission says about
    whether it was broadcast. */
module ControlledOutcomes {
  import opened Common
  import opened Controlled
  import opened ControlledRuns
  import opened ControlledProofs
  import opened ControlledTheorems
  import L = Leases
  import A = IntentSend

  // ---------------------------------------------------------------------------------------
  // The controls

  /** The immediate checks pass exactly when all controls allow the request. */
  lemma ControlsAreExact(db: Db, revision: nat, r: Request, now: Time)
    ensures ControlReason(db, revision, r, now) == None <==> ControlsAllow(db, revision, r, now)
  {
  }

  /** What a reason claims about the tables. */
  predicate Explains(db: Db, revision: nat, r: Request, now: Time, reason: Reason)
  {
    match reason
    case ControlStateUnavailable => db.control == None
    case EmergencyStopped => db.control.Some? && db.control.value.stopped
    case CanaryDisabled => db.control.Some? && !db.control.value.controlled
    case ControlPolicyMismatch => db.control.Some? && db.control.value.policy != r.policy
    case ControlStateChanged => db.control.Some? && db.control.value.revision != revision
    case ChainMismatch => r.chain != 4663
    case AuthorizationUnavailable => r.auth !in db.auths
    case AuthorizationNotArmed => r.auth in db.auths && !db.auths[r.auth].state.Armed?
    case AuthorizationEpochMismatch => r.auth in db.auths && db.auths[r.auth].epoch != r.authEpoch
    case AuthorizationBindingMismatch =>
      && r.auth in db.auths
      && (db.auths[r.auth].wallet, db.auths[r.auth].policy, db.auths[r.auth].deployment)
         != (r.wallet, r.policy, r.deployment)
    case AuthorizationExpired => r.auth in db.auths && db.auths[r.auth].expiresAt <= now
    case AdmissionBindingInvalid =>
      r.op in db.risks ==>
        || (db.risks[r.op].wallet, db.risks[r.op].policy) != (r.wallet, r.policy)
        || db.risks[r.op].state == RiskCommitted || db.risks[r.op].state == RiskReleased
    case OperationExpired => r.op in db.risks && db.risks[r.op].expiresAt <= now
    case _ => false
  }

  lemma ReasonExplains(db: Db, revision: nat, r: Request, now: Time)
    ensures ControlReason(db, revision, r, now).Some? ==>
              Explains(db, revision, r, now, ControlReason(db, revision, r, now).value)
  {
  }

  // ---------------------------------------------------------------------------------------
  // One send step

  ghost predicate IsOpen(db: Db, id: SubId)
  {
    && id in db.subs && db.subs[id].state == Submitting
    && id.op in db.attempts && db.subs[id].txHash == db.attempts[id.op].txHash
  }

  ghost predicate MayCallFor(db: Db, w: Work, revision: nat, id: SubId, fence: L.Fence, now: Time)
  {
    && L.Holds(db.leases, fence) && ControlsAllow(db, revision, w.request, now)
    && PermitMatches(db, w) && db.permits[w.permit].state == Consumed
    && id in db.subs && db.subs[id].state == Submitting && db.subs[id].txHash == w.txHash
  }

  /** A send step calls the broadcaster exactly when it holds the lease, the controls allow it, its
      permit is the consumed one and its row is open. */
  lemma SendCallsExactlyWhen(s: State, e: Event, s': State)
    requires e.SendEvent? && Step(s, e, s')
    ensures e.id in s.flight
    ensures s'.calls == if MayCallFor(s.db, s.flight[e.id].work, e.revision, e.id, e.fence, e.now)
                        then s.calls + [e.id] else s.calls
  {
    ControlsAreExact(s.db, e.revision, s.flight[e.id].work.request, e.now);
  }

  /** Nobody but the operation of `id` has its lane or reservations changed. */
  ghost predicate OthersHold(db: Db, db': Db, op: OpId)
  {
    forall o: OpId :: o != op ==> HoldOf(db', o) == HoldOf(db, o)
  }

  /** The lane is given up and both reservations are released; a risk reservation that was frozen
      already stays frozen. */
  ghost predicate GivenUp(before: Hold, after: Hold)
  {
    && !after.lane && after.reservation == Some(ResReleased)
    && after.risk == if before.risk == Some(RiskReserved) then Some(RiskReleased) else before.risk
  }

  /** One outcome written to an open row: the row, its operation's hold, and nothing of any other. */
  lemma FinishEffect(db: Db, id: SubId, state: SubState, failure: Failure, purpose: Purpose, fence: L.Fence, db': Db)
    requires DbOk(db) && L.Holds(db.leases, fence)
    requires (purpose == FirstBroadcast <==> id.sequence == 0) && state != Submitting
    requires Finish(db.(leases := L.Touch(db.leases, fence)), id, state, failure, purpose) == Commit(db', ())
    ensures IsOpen(db, id)
    ensures db'.subs == db.subs[id := db.subs[id].(state := state, failure := failure)]
    ensures OthersHold(db, db', id.op)
    ensures var h, h' := HoldOf(db, id.op), HoldOf(db', id.op);
            if state == Submitted then h' == h
            else if state == KnownUnsent && id.sequence == 0 then GivenUp(h, h')
            else h' == FROZEN
  {
    var touched := db.(leases := L.Touch(db.leases, fence));
    assert forall o: OpId :: HoldOf(touched, o) == HoldOf(db, o);
    FinishHold(touched, id, state, failure, purpose);
    HoldWhileOpen(db, id);
    var recorded := touched.(subs := db.subs[id := db.subs[id].(state := state, failure := failure)]);
    forall o: OpId | o != id.op ensures HoldOf(db', o) == HoldOf(db, o) {
      assert HoldOf(recorded, o) == HoldOf(touched, o);
      FreezeOpHold(recorded, id.op, o);
      ReleaseOpHold(recorded, id.op, o);
    }
  }

  lemma RejectionFinishes(s: State, e: Event, s': State) returns (reason: Reason)
    requires e.SendEvent? && SendStep(s, e, s') && s'.calls == s.calls && s'.db != s.db
    ensures e.committed && L.Holds(s.db.leases, e.fence)
    ensures ControlReason(s.db, e.revision, s.flight[e.id].work.request, e.now) == Some(reason)
    ensures Finish(s.db.(leases := L.Touch(s.db.leases, e.fence)), e.id, KnownUnsent, ControlRejected(reason),
                   s.flight[e.id].work.purpose) == Commit(s'.db, ())
  {
    reason := ControlReason(s.db, e.revision, s.flight[e.id].work.request, e.now).value;
  }

  /** A send step that commits without calling the broadcaster does so because a control forbids the
      call. It records the row known_unsent with a reason that is true; a first broadcast gives up
      its lane and reservations, a replay leaves everything frozen. */
  lemma UncalledSendIsUnsent(s: State, e: Event, s': State)
    requires Inv(s) && e.SendEvent? && Step(s, e, s') && s'.calls == s.calls && s'.db != s.db
    ensures e.id in s.flight && L.Holds(s.db.leases, e.fence) && IsOpen(s.db, e.id)
    ensures !ControlsAllow(s.db, e.revision, s.flight[e.id].work.request, e.now)
    ensures e.id in s'.db.subs && s'.db.subs[e.id].failure.ControlRejected?
    ensures Explains(s.db, e.revision, s.flight[e.id].work.request, e.now, s'.db.subs[e.id].failure.reason)
    ensures s'.db.subs == s.db.subs[e.id := s.db.subs[e.id].(state := KnownUnsent, failure := s'.db.subs[e.id].failure)]
    ensures if e.id.sequence == 0 then GivenUp(HoldOf(s.db, e.id.op), HoldOf(s'.db, e.id.op))
            else HoldOf(s'.db, e.id.op) == FROZEN
    ensures OthersHold(s.db, s'.db, e.id.op)
  {
    assert InFlightOk(e.id, s.flight[e.id], s.db.subs);
    var reason := RejectionFinishes(s, e, s');
    ReasonExplains(s.db, e.revision, s.flight[e.id].work.request, e.now);
    ControlsAreExact(s.db, e.revision, s.flight[e.id].work.request, e.now);
    FinishEffect(s.db, e.id, KnownUnsent, ControlRejected(reason), s.flight[e.id].work.purpose, e.fence, s'.db);
  }

  /** Such a step does commit, whenever its process survives: a forbidden send never stays open. */
  lemma ForbiddenSendCommits(s: State, e: Event, s': State)
    requires e.SendEvent? && Step(s, e, s') && e.committed && L.Holds(s.db.leases, e.fence) && IsOpen(s.db, e.id)
    requires !ControlsAllow(s.db, e.revision, s.flight[e.id].work.request, e.now)
    ensures s'.calls == s.calls && s'.db.subs[e.id].state == KnownUnsent
  {
    ControlsAreExact(s.db, e.revision, s.flight[e.id].work.request, e.now);
  }

  lemma AnswerFinishes(s: State, e: Event, s': State)
    requires e.SendEvent? && SendStep(s, e, s') && s'.calls != s.calls && s'.db != s.db
    ensures e.committed && L.Holds(s.db.leases, e.fence) && e.id.op in s.db.attempts
    ensures var outcome := Classify(s.db, e.id, e.response);
            Finish(s.db.(leases := L.Touch(s.db.leases, e.fence)), e.id, outcome.0, outcome.1,
                   s.flight[e.id].work.purpose) == Commit(s'.db, ())
  {
  }

  /** A send step that calls the broadcaster and commits records the answer it got, and the answer
      decides the lane and the reservations: the right hash leaves them, a refused first broadcast
      gives them up, anything else freezes them. */
  lemma CalledSendRecordsAnswer(s: State, e: Event, s': State)
    requires Inv(s) && e.SendEvent? && Step(s, e, s') && s'.calls != s.calls && s'.db != s.db
    ensures IsOpen(s.db, e.id) && e.id in s'.db.subs
    ensures s'.db.subs == s.db.subs[e.id := s.db.subs[e.id].(state := s'.db.subs[e.id].state,
                                                             failure := s'.db.subs[e.id].failure)]
    ensures var row, h, h' := s'.db.subs[e.id], HoldOf(s.db, e.id.op), HoldOf(s'.db, e.id.op);
            match e.response
            case Accepted(hash) =>
              if hash == s.db.subs[e.id].txHash then row.state == Submitted && row.failure == NoFailure && h' == h
              else row.state == ManualResolution && row.failure == HashMismatch && h' == FROZEN
            case TransportError => row.state == BroadcastUnknown && row.failure == AmbiguousTransport && h' == FROZEN
            case Refused =>
              && row.state == KnownUnsent && row.failure == DeterministicRejection
              && (if e.id.sequence == 0 then GivenUp(h, h') else h' == FROZEN)
    ensures OthersHold(s.db, s'.db, e.id.op)
  {
    assert InFlightOk(e.id, s.flight[e.id], s.db.subs);
    AnswerFinishes(s, e, s');
    var outcome := Classify(s.db, e.id, e.response);
    FinishEffect(s.db, e.id, outcome.0, outcome.1, s.flight[e.id].work.purpose, e.fence, s'.db);
  }

  // ---------------------------------------------------------------------------------------
  // What the outcome says, over every run

  /** Whether the row was broadcast, as far as its outcome tells. */
  ghost predicate Tells(row: Submission, called: bool)
  {
    match row.state
    case Submitting => row.failure == NoFailure
    case Submitted => called && row.failure == NoFailure
    case ManualResolution => called && row.failure == HashMismatch
    case BroadcastUnknown =>
      || (called && row.failure == AmbiguousTransport)
      || (row.intentAt.Some? && row.failure == RestartAfterSendIntent)
    case KnownUnsent =>
      || (called && row.failure == DeterministicRejection)
      || (!called && (row.failure.ControlRejected? || row.failure == RestartBeforeSendIntent))
  }

  ghost predicate AllTell(s: State)
  {
    forall id :: id in s.db.subs ==> Tells(s.db.subs[id], id in s.calls)
  }

  lemma OneRowTells(s: State, s': State, id: SubId)
    requires AllTell(s) && id in s.db.subs && id in s'.db.subs
    requires s'.db.subs == s.db.subs[id := s'.db.subs[id]] && (s'.calls == s.calls || s'.calls == s.calls + [id])
    requires Tells(s'.db.subs[id], id in s'.calls)
    ensures AllTell(s')
  {
  }

  lemma UncalledSendKeepsTelling(s: State, e: Event, s': State)
    requires Inv(s) && e.SendEvent? && Step(s, e, s') && s'.calls == s.calls && s'.db != s.db
    requires AllTell(s) && e.id !in s.calls
    ensures AllTell(s')
  {
    UncalledSendIsUnsent(s, e, s');
    OneRowTells(s, s', e.id);
  }

  lemma CalledSendKeepsTelling(s: State, e: Event, s': State)
    requires Inv(s) && e.SendEvent? && Step(s, e, s') && s'.calls == s.calls + [e.id] && s'.db != s.db
    requires AllTell(s)
    ensures AllTell(s')
  {
    CalledSendRecordsAnswer(s, e, s');
    OneRowTells(s, s', e.id);
  }

  lemma UnrecordedSendKeepsTelling(s: State, e: Event, s': State)
    requires Inv(s) && e.SendEvent? && Step(s, e, s') && s'.calls == s.calls + [e.id] && s'.db == s.db
    requires AllTell(s)
    ensures AllTell(s')
  {
    CallNeedsEveryControl(s, e, s');
  }

  lemma SendKeepsTelling(s: State, e: Event, s': State)
    requires Inv(s) && A.Inv(Abs(s)) && AllTell(s) && e.SendEvent? && Step(s, e, s')
    ensures AllTell(s')
  {
    SendCallsExactlyWhen(s, e, s');
    if s'.calls == s.calls && s'.db != s.db {
      assert e.id in Abs(s).armed;
      UncalledSendKeepsTelling(s, e, s');
    } else if s'.db != s.db {
      CalledSendKeepsTelling(s, e, s');
    } else if s'.calls != s.calls {
      UnrecordedSendKeepsTelling(s, e, s');
    }
  }

  lemma RecoverKeepsTelling(s: State, e: Event, s': State)
    requires Inv(s) && A.Inv(Abs(s)) && AllTell(s) && e.RecoverEvent? && Step(s, e, s')
    ensures AllTell(s')
  {
    assert s'.db.subs == ClassifyStuck(s.db, e.fence.key.environment, e.now);
    forall id | id in s'.db.subs ensures Tells(s'.db.subs[id], id in s'.calls) {
      if id in s.calls {
        assert Abs(s).rows[id].intent;
      }
    }
  }

  lemma BeginKeepsTelling(s: State, e: Event, s': State)
    requires AllTell(s) && e.BeginEvent? && BeginStep(s, e, s')
    ensures AllTell(s')
  {
  }

  lemma MarkKeepsTelling(s: State, e: Event, s': State)
    requires AllTell(s) && e.MarkEvent? && MarkStep(s, e, s')
    ensures AllTell(s')
  {
  }

  lemma StepKeepsTelling(s: State, e: Event, s': State)
    requires Inv(s) && A.Inv(Abs(s)) && AllTell(s) && Step(s, e, s')
    ensures AllTell(s')
  {
    match e {
      case SendEvent(_, _, _, _, _, _) => SendKeepsTelling(s, e, s');
      case RecoverEvent(_, _) => RecoverKeepsTelling(s, e, s');
      case BeginEvent(_, _, _, _, _) => BeginKeepsTelling(s, e, s');
      case MarkEvent(_, _, _, _, _) => MarkKeepsTelling(s, e, s');
      case _ => assert s'.db.subs == s.db.subs && s'.calls == s.calls;
    }
  }

  lemma RunStepKeepsTelling(run: seq<State>, i: nat)
    requires IsRun(run) && 0 < i < |run| && AllTell(run[i - 1])
    ensures AllTell(run[i])
  {
    RunKeepsInv(run, i - 1);
    RunKeepsSendInv(run, i - 1);
    assert StepAt(run, i);
    var e :| Step(run[i - 1], e, run[i]);
    StepKeepsTelling(run[i - 1], e, run[i]);
  }

  /** In every reachable state the outcome of a submission tells whether it was broadcast. A row is
      submitted, in manual resolution or ambiguous in transport only if the broadcaster was called
      for it; it is known_unsent either because the broadcaster itself refused it or because it was
      never called. Only a restart after the intent leaves the question open. */
  lemma {:induction false} OutcomeTellsTheCalls(run: seq<State>, i: nat)
    requires IsRun(run) && i < |run|
    ensures AllTell(run[i])
  {
    if i > 0 {
      OutcomeTellsTheCalls(run, i - 1);
      RunStepKeepsTelling(run, i);
    }
  }

  /** A row recorded known_unsent without a refusal by the broadcaster is never broadcast later. */
  lemma UnsentStaysUnsent(run: seq<State>, i: nat, j: nat, id: SubId)
    requires IsRun(run) && i <= j < |run| && id in run[i].db.subs && run[i].db.subs[id].state == KnownUnsent
    requires run[i].db.subs[id].failure != DeterministicRejection
    ensures id !in run[j].calls
  {
    RunKeepsClosedRows(run, i, j, id);
    OutcomeTellsTheCalls(run, j);
  }
}
