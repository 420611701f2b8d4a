/** Every step of the controlled worker keeps the invariant of ControlledRuns. */
module ControlledProofs {
  import opened Common
  import opened Controlled
  import opened ControlledRuns
  import L = Leases

  // ---------------------------------------------------------------------------------------
  // One table at a time

  lemma RowsAfterInsert(subs: Subs, attempts: Attempts, id: SubId, row: Submission)
    requires RowsOk(subs, attempts) && id !in subs
    requires id.op in attempts && attempts[id.op].status != Prepared
    requires id.sequence > 0 ==>
               SubId(id.op, id.sequence - 1) in subs && subs[SubId(id.op, id.sequence - 1)].state == BroadcastUnknown
    requires row.state == Submitting && row.failure == NoFailure
    ensures RowsOk(subs[id := row], attempts)
  {
    var subs' := subs[id := row];
    forall i | i in subs' ensures RowOk(subs', attempts, i) {
      if i != id {
        assert RowOk(subs, attempts, i);
      }
    }
  }

  ghost predicate RowKeepsClasses(row: Submission)
  {
    && (row.state == Submitting ==> row.failure == NoFailure)
    && (row.failure == RestartBeforeSendIntent ==> row.state == KnownUnsent && row.intentAt == None)
    && (row.failure == RestartAfterSendIntent ==> row.state == BroadcastUnknown)
  }

  /** Open rows may change freely: nothing comes after an open row. */
  lemma RowsAfterUpdate(subs: Subs, subs': Subs, attempts: Attempts, attempts': Attempts)
    requires RowsOk(subs, attempts)
    requires subs'.Keys == subs.Keys && attempts'.Keys == attempts.Keys
    requires forall o :: o in attempts && attempts[o].status != Prepared ==> attempts'[o].status != Prepared
    requires forall i :: i in subs ==> RowKeepsClasses(subs'[i]) && (subs'[i] == subs[i] || subs[i].state == Submitting)
    ensures RowsOk(subs', attempts')
  {
    forall i | i in subs' ensures RowOk(subs', attempts', i) {
      assert RowOk(subs, attempts, i);
      if i.sequence > 0 {
        assert subs'[SubId(i.op, i.sequence - 1)] == subs[SubId(i.op, i.sequence - 1)];
      }
    }
  }

  lemma SequencesAfterInsert(subs: Subs, id: SubId, row: Submission)
    ensures Sequences(subs[id := row], id.op) == Sequences(subs, id.op) + {id.sequence}
    ensures forall op :: op != id.op ==> Sequences(subs[id := row], op) == Sequences(subs, op)
  {
    var subs' := subs[id := row];
    assert id in subs';
    forall n | n in Sequences(subs, id.op) ensures n in Sequences(subs', id.op) {
      assert SubId(id.op, n) in subs';
    }
    forall op | op != id.op ensures Sequences(subs', op) == Sequences(subs, op) {
      forall n | n in Sequences(subs, op) ensures n in Sequences(subs', op) {
        assert SubId(op, n) in subs';
      }
    }
  }

  lemma ConsumedAfterBegin(permits: map<PermitId, Permit>, p: PermitId, op: OpId)
    requires p in permits && permits[p].state == Issued
    ensures ConsumedPermits(permits[p := permits[p].(state := Consumed)], op) ==
              if op == permits[p].op then ConsumedPermits(permits, op) + {p} else ConsumedPermits(permits, op)
    ensures p !in ConsumedPermits(permits, op)
  {
  }

  lemma PermitsAfterBegin(permits: map<PermitId, Permit>, subs: Subs, p: PermitId, id: SubId, row: Submission)
    requires PermitsOk(permits, subs)
    requires p in permits && permits[p].state == Issued && permits[p].op == id.op && id !in subs
    ensures PermitsOk(permits[p := permits[p].(state := Consumed)], subs[id := row])
  {
    SequencesAfterInsert(subs, id, row);
    assert id.sequence !in Sequences(subs, id.op) by {
      assert id == SubId(id.op, id.sequence);
    }
    var permits', subs' := permits[p := permits[p].(state := Consumed)], subs[id := row];
    forall op: OpId ensures |ConsumedPermits(permits', op)| == |Sequences(subs', op)| {
      ConsumedAfterBegin(permits, p, op);
      assert |ConsumedPermits(permits, op)| == |Sequences(subs, op)|;
    }
  }

  lemma PermitsSameConsumed(permits: map<PermitId, Permit>, permits': map<PermitId, Permit>, subs: Subs, subs': Subs)
    requires PermitsOk(permits, subs) && subs'.Keys == subs.Keys
    requires forall op: OpId :: ConsumedPermits(permits', op) == ConsumedPermits(permits, op)
    ensures PermitsOk(permits', subs')
  {
    forall op: OpId ensures |ConsumedPermits(permits', op)| == |Sequences(subs', op)| {
      assert Sequences(subs', op) == Sequences(subs, op);
    }
  }

  /** HoldsOk carries over wherever neither the first submission's state nor the hold changed. */
  lemma HoldsFrame(db: Db, db': Db)
    requires HoldsOk(db)
    requires forall id :: id in db'.subs && id.sequence == 0 ==>
               || (id in db.subs && db'.subs[id].state == db.subs[id].state && HoldOf(db', id.op) == HoldOf(db, id.op))
               || HoldOk(db'.subs[id].state, HoldOf(db', id.op))
    ensures HoldsOk(db')
  {
  }

  function FreezeHold(h: Hold): Hold
  {
    Hold(h.lane, h.lane,
         if h.reservation.Some? then Some(ResFrozen) else None,
         if h.risk == Some(RiskReserved) then Some(RiskFrozen) else h.risk)
  }

  function ReleaseHold(h: Hold): Hold
  {
    Hold(false, false,
         if h.reservation.Some? then Some(ResReleased) else None,
         if h.risk == Some(RiskReserved) then Some(RiskReleased) else h.risk)
  }

  lemma FreezeOpHold(db: Db, op: OpId, o: OpId)
    requires op in db.attempts
    ensures HoldOf(FreezeOp(db, op), o) == if o == op then FreezeHold(HoldOf(db, op)) else HoldOf(db, o)
  {
  }

  lemma ReleaseOpHold(db: Db, op: OpId, o: OpId)
    requires op in db.attempts
    ensures HoldOf(ReleaseOp(db, op), o) == if o == op then ReleaseHold(HoldOf(db, op)) else HoldOf(db, o)
  {
  }

  lemma FreezeOpsHold(db: Db, ops: set<OpId>, o: OpId)
    ensures HoldOf(FreezeOps(db, ops), o) == if o in ops then FreezeHold(HoldOf(db, o)) else HoldOf(db, o)
  {
  }

  lemma ReleaseOpsHold(db: Db, ops: set<OpId>, o: OpId)
    ensures HoldOf(ReleaseOps(db, ops), o) == if o in ops then ReleaseHold(HoldOf(db, o)) else HoldOf(db, o)
  {
  }

  // ---------------------------------------------------------------------------------------
  // One transaction at a time

  lemma BeginKeepsDb(db: Db, w: Work, revision: nat, fence: L.Fence, now: Time)
    requires DbOk(db)
    requires Begin(db, w, revision, fence, now).Commit?
    ensures DbOk(Begin(db, w, revision, fence, now).db)
    ensures var id := Begin(db, w, revision, fence, now).value;
            id !in db.subs && id.op == w.request.op && (w.purpose == FirstBroadcast <==> id.sequence == 0)
  {
    var r := Begin(db, w, revision, fence, now);
    var op, id := w.request.op, r.value;
    var row := Submission(w.txHash, Submitting, NoFailure, None, now);
    NextSequenceIsFresh(db.subs, op);
    assert LaneOk(db.lanes[w.request.wallet], w.request.wallet, db.attempts);
    RowsAfterInsert(db.subs, db.attempts, id, row);
    PermitsAfterBegin(db.permits, db.subs, w.permit, id, row);
    HoldsFrame(db, r.db);
  }

  lemma MarkKeepsDb(db: Db, db': Db, id: SubId, now: Time)
    requires DbOk(db) && id in db.subs && db.subs[id].state == Submitting
    requires db' == db.(leases := db'.leases, subs := db.subs[id := db.subs[id].(intentAt := Some(now))])
    ensures DbOk(db')
  {
    forall i | i in db.subs ensures RowKeepsClasses(db'.subs[i]) {
      assert RowOk(db.subs, db.attempts, i);
    }
    RowsAfterUpdate(db.subs, db'.subs, db.attempts, db'.attempts);
    PermitsSameConsumed(db.permits, db'.permits, db.subs, db'.subs);
    assert forall o :: HoldOf(db', o) == HoldOf(db, o);
    HoldsFrame(db, db');
  }

  lemma RowsAfterFinish(subs: Subs, attempts: Attempts, id: SubId, row: Submission, ops: set<OpId>)
    requires RowsOk(subs, attempts) && id in subs
    requires subs[id].state == Submitting && row.state != Submitting
    requires row.failure != RestartBeforeSendIntent && row.failure != RestartAfterSendIntent
    ensures RowsOk(subs[id := row], attempts) && RowsOk(subs[id := row], MarkUnsent(attempts, ops))
  {
    var subs' := subs[id := row];
    forall i | i in subs ensures RowKeepsClasses(subs'[i]) {
      assert RowOk(subs, attempts, i);
    }
    RowsAfterUpdate(subs, subs', attempts, attempts);
    RowsAfterUpdate(subs, subs', attempts, MarkUnsent(attempts, ops));
  }

  lemma LanesAfterFreeze(db: Db, op: OpId)
    requires LanesOk(db.lanes, db.attempts) && op in db.attempts && db.attempts[op].status != Prepared
    ensures LanesOk(FreezeOp(db, op).lanes, FreezeOp(db, op).attempts)
  {
    var db' := FreezeOp(db, op);
    forall w | w in db'.lanes ensures LaneOk(db'.lanes[w], w, db'.attempts) {
      assert LaneOk(db.lanes[w], w, db.attempts);
    }
  }

  lemma LanesAfterRelease(db: Db, op: OpId)
    requires LanesOk(db.lanes, db.attempts) && op in db.attempts && db.attempts[op].status != Prepared
    ensures LanesOk(ReleaseOp(db, op).lanes, ReleaseOp(db, op).attempts)
  {
    var db' := ReleaseOp(db, op);
    forall w | w in db'.lanes ensures LaneOk(db'.lanes[w], w, db'.attempts) {
      assert LaneOk(db.lanes[w], w, db.attempts);
    }
  }

  /** `db'` records an outcome of submission `id`; `op`'s hold becomes `hold`, all others stay. */
  lemma HoldsAfterFinish(db: Db, db': Db, id: SubId, state: SubState, hold: Hold)
    requires RowsOk(db.subs, db.attempts) && HoldsOk(db) && id in db.subs
    requires db'.subs.Keys == db.subs.Keys && db'.subs[id].state == state
    requires forall i :: i in db.subs && i != id ==> db'.subs[i] == db.subs[i]
    requires forall o :: HoldOf(db', o) == if o == id.op then hold else HoldOf(db, o)
    requires id.sequence == 0 ==> HoldOk(state, hold)
    requires id.sequence > 0 ==> hold == FROZEN
    ensures HoldsOk(db')
  {
    forall i | i in db'.subs && i.sequence == 0 ensures HoldOk(db'.subs[i].state, HoldOf(db', i.op)) {
      assert HoldOk(db.subs[i].state, HoldOf(db, i.op));
      if i.op == id.op && i != id {
        RowsAreNumbered(db.subs, db.attempts, id, 0);
        assert i == SubId(id.op, 0);
      }
    }
  }

  /** The hold of a submission's operation while it is open: any later submission of an
      operation finds it frozen. */
  lemma HoldWhileOpen(db: Db, id: SubId)
    requires RowsOk(db.subs, db.attempts) && HoldsOk(db) && id in db.subs && db.subs[id].state == Submitting
    ensures id.op in db.attempts && db.attempts[id.op].status != Prepared
    ensures id.sequence == 0 ==> HoldOk(Submitting, HoldOf(db, id.op))
    ensures id.sequence > 0 ==> HoldOf(db, id.op) == FROZEN
  {
    assert RowOk(db.subs, db.attempts, id);
    RowsAreNumbered(db.subs, db.attempts, id, 0);
    assert HoldOk(db.subs[SubId(id.op, 0)].state, HoldOf(db, id.op));
    if id.sequence == 0 {
      assert id == SubId(id.op, 0);
    }
  }

  lemma FinishKeepsHolds(db: Db, id: SubId, state: SubState, failure: Failure, purpose: Purpose)
    requires RowsOk(db.subs, db.attempts) && HoldsOk(db)
    requires Finish(db, id, state, failure, purpose).Commit?
    requires purpose == FirstBroadcast <==> id.sequence == 0
    requires state != Submitting
    ensures HoldsOk(Finish(db, id, state, failure, purpose).db)
  {
    var op := id.op;
    var recorded := db.(subs := db.subs[id := db.subs[id].(state := state, failure := failure)]);
    HoldWhileOpen(db, id);
    assert forall o :: HoldOf(recorded, o) == HoldOf(db, o);
    if MustFreeze(state, purpose) {
      forall o: OpId
        ensures HoldOf(FreezeOp(recorded, op), o) == if o == op then FreezeHold(HoldOf(db, op)) else HoldOf(db, o)
      {
        FreezeOpHold(recorded, op, o);
      }
      HoldsAfterFinish(db, FreezeOp(recorded, op), id, state, FreezeHold(HoldOf(db, op)));
    } else if state == KnownUnsent {
      forall o: OpId
        ensures HoldOf(ReleaseOp(recorded, op), o) == if o == op then ReleaseHold(HoldOf(db, op)) else HoldOf(db, o)
      {
        ReleaseOpHold(recorded, op, o);
      }
      HoldsAfterFinish(db, ReleaseOp(recorded, op), id, state, ReleaseHold(HoldOf(db, op)));
    } else {
      HoldsAfterFinish(db, recorded, id, state, HoldOf(db, op));
    }
  }

  /** Recording an outcome keeps the tables consistent when the purpose is the row's own. */
  lemma FinishKeepsDb(db: Db, id: SubId, state: SubState, failure: Failure, purpose: Purpose)
    requires DbOk(db)
    requires Finish(db, id, state, failure, purpose).Commit?
    requires purpose == FirstBroadcast <==> id.sequence == 0
    requires state != Submitting
    requires failure != RestartBeforeSendIntent && failure != RestartAfterSendIntent
    ensures DbOk(Finish(db, id, state, failure, purpose).db)
  {
    var db' := Finish(db, id, state, failure, purpose).db;
    var row := db.subs[id].(state := state, failure := failure);
    var recorded := db.(subs := db.subs[id := row]);
    RowsAfterFinish(db.subs, db.attempts, id, row, {id.op});
    HoldWhileOpen(db, id);
    LanesAfterFreeze(recorded, id.op);
    LanesAfterRelease(recorded, id.op);
    FinishKeepsHolds(db, id, state, failure, purpose);
    PermitsSameConsumed(db.permits, db'.permits, db.subs, db'.subs);
  }

  // Recovery

  lemma ClassifyStuckKeepsRows(db: Db, environment: L.Name, now: Time, attempts': Attempts)
    requires RowsOk(db.subs, db.attempts)
    requires attempts'.Keys == db.attempts.Keys
    requires forall o :: o in db.attempts && db.attempts[o].status != Prepared ==> attempts'[o].status != Prepared
    ensures RowsOk(ClassifyStuck(db, environment, now), attempts')
  {
    var subs' := ClassifyStuck(db, environment, now);
    forall i | i in db.subs ensures RowKeepsClasses(subs'[i]) {
      assert RowOk(db.subs, db.attempts, i);
    }
    RowsAfterUpdate(db.subs, subs', db.attempts, attempts');
  }

  /** Release acts on operations whose first submission is known unsent, freeze on those whose
      first submission is ambiguous: never on the same one. */
  lemma RecoverOps(subs: Subs, attempts: Attempts, op: OpId)
    requires RowsOk(subs, attempts)
    ensures op in FirstUnsentOps(subs)
       <==> SubId(op, 0) in subs && subs[SubId(op, 0)].failure == RestartBeforeSendIntent
    ensures op in FirstUnsentOps(subs) ==> subs[SubId(op, 0)].state == KnownUnsent && op !in RestartUnknownOps(subs)
    ensures op in RestartUnknownOps(subs) ==> SubId(op, 0) in subs && subs[SubId(op, 0)].state == BroadcastUnknown
    ensures SubId(op, 0) in subs && subs[SubId(op, 0)].failure == RestartAfterSendIntent ==>
              op in RestartUnknownOps(subs)
  {
    if SubId(op, 0) in subs {
      assert RowOk(subs, attempts, SubId(op, 0));
    }
    if op in RestartUnknownOps(subs) {
      var id :| id in subs && subs[id].failure == RestartAfterSendIntent && id.op == op;
      assert RowOk(subs, attempts, id);
      UnknownMeansFirstUnknown(subs, attempts, id);
    }
    if op in FirstUnsentOps(subs) {
      var id :| id in subs && subs[id].failure == RestartBeforeSendIntent && id.sequence == 0 && id.op == op;
      assert id == SubId(op, 0);
    }
  }

  lemma RecoverKeepsLanes(db: Db, fence: L.Fence, now: Time)
    requires DbOk(db)
    requires RecoverInflight(db, fence, now).Commit?
    ensures LanesOk(RecoverInflight(db, fence, now).db.lanes, RecoverInflight(db, fence, now).db.attempts)
  {
    var db' := RecoverInflight(db, fence, now).db;
    var subs := ClassifyStuck(db, fence.key.environment, now);
    ClassifyStuckKeepsRows(db, fence.key.environment, now, db.attempts);
    forall w | w in db'.lanes ensures LaneOk(db'.lanes[w], w, db'.attempts) {
      assert LaneOk(db.lanes[w], w, db.attempts);
      if db.lanes[w].op.Some? {
        RecoverOps(subs, db.attempts, db.lanes[w].op.value);
        if db.lanes[w].op.value in RestartUnknownOps(subs) {
          assert RowOk(subs, db.attempts, SubId(db.lanes[w].op.value, 0));
        }
      }
    }
  }

  lemma RecoverHold(db: Db, fence: L.Fence, now: Time, op: OpId)
    requires RecoverInflight(db, fence, now).Commit?
    ensures var subs := ClassifyStuck(db, fence.key.environment, now);
            var released := if op in FirstUnsentOps(subs) then ReleaseHold(HoldOf(db, op)) else HoldOf(db, op);
            HoldOf(RecoverInflight(db, fence, now).db, op) ==
              if op in RestartUnknownOps(subs) then FreezeHold(released) else released
  {
    var subs := ClassifyStuck(db, fence.key.environment, now);
    var classified := db.(leases := L.Touch(db.leases, fence), subs := subs);
    assert HoldOf(classified, op) == HoldOf(db, op);
    ReleaseOpsHold(classified, FirstUnsentOps(subs), op);
    FreezeOpsHold(ReleaseOps(classified, FirstUnsentOps(subs)), RestartUnknownOps(subs), op);
  }

  lemma RecoverKeepsHold(db: Db, fence: L.Fence, now: Time, id: SubId)
    requires RowsOk(db.subs, db.attempts)
    requires RecoverInflight(db, fence, now).Commit?
    requires id in db.subs && id.sequence == 0 && HoldOk(db.subs[id].state, HoldOf(db, id.op))
    ensures HoldOk(RecoverInflight(db, fence, now).db.subs[id].state, HoldOf(RecoverInflight(db, fence, now).db, id.op))
  {
    var subs := ClassifyStuck(db, fence.key.environment, now);
    ClassifyStuckKeepsRows(db, fence.key.environment, now, db.attempts);
    RecoverOps(subs, db.attempts, id.op);
    RecoverHold(db, fence, now, id.op);
    assert id == SubId(id.op, 0);
    assert RowOk(db.subs, db.attempts, id);
  }

  lemma RecoverKeepsDb(db: Db, fence: L.Fence, now: Time)
    requires DbOk(db)
    requires RecoverInflight(db, fence, now).Commit?
    ensures DbOk(RecoverInflight(db, fence, now).db)
  {
    var db' := RecoverInflight(db, fence, now).db;
    ClassifyStuckKeepsRows(db, fence.key.environment, now, db'.attempts);
    RecoverKeepsLanes(db, fence, now);
    PermitsSameConsumed(db.permits, db'.permits, db.subs, db'.subs);
    forall id | id in db'.subs && id.sequence == 0 ensures HoldOk(db'.subs[id].state, HoldOf(db', id.op)) {
      RecoverKeepsHold(db, fence, now, id);
    }
  }

  // ---------------------------------------------------------------------------------------
  // Whole steps

  /** Changes outside the submission, attempt, lane, reservation and risk tables. */
  lemma QuietKeepsDb(db: Db, db': Db)
    requires DbOk(db)
    requires db' == db.(permits := db'.permits, auths := db'.auths, control := db'.control, gates := db'.gates,
                        leases := db'.leases)
    requires forall op: OpId :: ConsumedPermits(db'.permits, op) == ConsumedPermits(db.permits, op)
    ensures DbOk(db')
  {
    PermitsSameConsumed(db.permits, db'.permits, db.subs, db'.subs);
    assert forall o :: HoldOf(db', o) == HoldOf(db, o);
    HoldsFrame(db, db');
  }

  lemma AdmitKeepsDb(db: Db, op: OpId, risk: Risk)
    requires DbOk(db) && op !in db.risks
    ensures DbOk(db.(risks := db.risks[op := risk]))
  {
    var db' := db.(risks := db.risks[op := risk]);
    assert forall o :: o != op ==> HoldOf(db', o) == HoldOf(db, o);
    forall id | id in db.subs && id.sequence == 0 ensures HoldOk(db'.subs[id].state, HoldOf(db', id.op)) {
      assert HoldOk(db.subs[id].state, HoldOf(db, id.op));
    }
  }

  lemma OtherKeepsInv(s: State, e: Event, s': State)
    requires Inv(s) && OtherStep(s, e, s')
    ensures Inv(s')
  {
    match e {
      case ReserveEvent(op, wallet) => ReserveKeepsDb(s.db, op, wallet);
      case SignEvent(op, artifactHash, txHash) => SignKeepsDb(s.db, op, artifactHash, txHash);
      case AdmitEvent(op, wallet, policy, expiresAt) =>
        AdmitKeepsDb(s.db, op, Risk(wallet, policy, RiskReserved, expiresAt));
      case _ => QuietKeepsDb(s.db, s'.db);
    }
    FlightAfterUpdate(s.flight, s'.flight, s.db.subs, s'.db.subs);
  }

  lemma ReserveKeepsDb(db: Db, op: OpId, wallet: WalletId)
    requires DbOk(db) && ReserveExecution(db, op, wallet).Commit?
    ensures DbOk(ReserveExecution(db, op, wallet).db)
  {
    var db' := ReserveExecution(db, op, wallet).db;
    forall id | id in db.subs ensures RowOk(db'.subs, db'.attempts, id) && HoldOf(db', id.op) == HoldOf(db, id.op) {
      assert RowOk(db.subs, db.attempts, id);
    }
    forall w | w in db'.lanes ensures LaneOk(db'.lanes[w], w, db'.attempts) {
      if w in db.lanes {
        assert LaneOk(db.lanes[w], w, db.attempts);
      }
    }
    assert forall o :: o in db.attempts && o != op ==> HoldOf(db', o) == HoldOf(db, o);
    HoldsFrame(db, db');
  }

  lemma SignKeepsDb(db: Db, op: OpId, artifactHash: Hash, txHash: Hash)
    requires DbOk(db) && CommitSigned(db, op, artifactHash, txHash).Commit?
    ensures DbOk(CommitSigned(db, op, artifactHash, txHash).db)
  {
    var db' := CommitSigned(db, op, artifactHash, txHash).db;
    forall id | id in db.subs ensures RowOk(db'.subs, db'.attempts, id) && HoldOf(db', id.op) == HoldOf(db, id.op) {
      assert RowOk(db.subs, db.attempts, id);
    }
    forall w | w in db'.lanes ensures LaneOk(db'.lanes[w], w, db'.attempts) {
      assert LaneOk(db.lanes[w], w, db.attempts);
    }
    HoldsFrame(db, db');
  }

  /** `db'` is `db` with an outcome recorded for `id` under `fence`. */
  ghost predicate Recorded(db: Db, id: SubId, purpose: Purpose, fence: L.Fence, state: SubState, failure: Failure,
                           db': Db)
  {
    && fence.key in db.leases
    && state != Submitting && failure != RestartBeforeSendIntent && failure != RestartAfterSendIntent
    && var r := Finish(db.(leases := L.Touch(db.leases, fence)), id, state, failure, purpose);
      r.Commit? && db' == r.db
  }

  lemma RecordedKeepsDb(db: Db, id: SubId, purpose: Purpose, fence: L.Fence, state: SubState, failure: Failure, db': Db)
    requires DbOk(db) && Recorded(db, id, purpose, fence, state, failure, db')
    requires purpose == FirstBroadcast <==> id.sequence == 0
    ensures DbOk(db')
    ensures db'.subs == db.subs[id := db.subs[id].(state := state, failure := failure)]
  {
    var touched := db.(leases := L.Touch(db.leases, fence));
    assert forall o :: HoldOf(touched, o) == HoldOf(db, o);
    HoldsFrame(db, touched);
    FinishKeepsDb(touched, id, state, failure, purpose);
  }

  /** What a send step did: whether the broadcaster was called and whether an outcome committed. */
  datatype Sent = Sent(called: bool, recorded: bool, state: SubState, failure: Failure)

  /** The checks DecideSend passed before it let the broadcaster be called. */
  ghost predicate CallAllowed(db: Db, w: Work, revision: nat, id: SubId, fence: L.Fence, now: Time)
  {
    && L.Holds(db.leases, fence)
    && ControlReason(db, revision, w.request, now) == None
    && PermitMatches(db, w) && db.permits[w.permit].state == Consumed
    && id in db.subs && db.subs[id].txHash == w.txHash && db.subs[id].state == Submitting
  }

  /** A send step forgets the in-memory submission, calls at most once, records at most once. */
  lemma SendEffect(s: State, e: Event, s': State) returns (r: Sent)
    requires e.SendEvent? && SendStep(s, e, s')
    ensures e.id in s.flight && s.flight[e.id].marked && s'.flight == s.flight - {e.id}
    ensures s'.calls == if r.called then s.calls + [e.id] else s.calls
    ensures r.called ==> CallAllowed(s.db, s.flight[e.id].work, e.revision, e.id, e.fence, e.now)
    ensures if r.recorded then
              && L.Holds(s.db.leases, e.fence)
              && Recorded(s.db, e.id, s.flight[e.id].work.purpose, e.fence, r.state, r.failure, s'.db)
              && s'.fenced == s.fenced + [e.fence]
            else
              s'.db == s.db && s'.fenced == s.fenced
  {
    var w := s.flight[e.id].work;
    match DecideSend(s.db, w, e.revision, e.id, e.fence, e.now) {
      case SendAborted(_) => r := Sent(false, false, KnownUnsent, NoFailure);
      case SendRejected(_) =>
        r := Sent(false, e.committed, KnownUnsent,
                  ControlRejected(ControlReason(s.db, e.revision, w.request, e.now).value));
      case MayCall =>
        if e.committed && RecordResponse(s.db, e.id, w.purpose, e.fence, e.response).Commit? {
          var outcome := Classify(s.db, e.id, e.response);
          r := Sent(true, true, outcome.0, outcome.1);
        } else {
          r := Sent(true, false, KnownUnsent, NoFailure);
        }
    }
  }

  lemma RecordedSubs(db: Db, id: SubId, purpose: Purpose, fence: L.Fence, state: SubState, failure: Failure, db': Db)
    requires Recorded(db, id, purpose, fence, state, failure, db')
    ensures id in db.subs && db.subs[id].state == Submitting
    ensures db'.subs == db.subs[id := db.subs[id].(state := state, failure := failure)]
    ensures db'.leases == L.Touch(db.leases, fence)
    ensures db'.attempts.Keys == db.attempts.Keys
    ensures forall o :: o in db.attempts ==> db'.attempts[o].wallet == db.attempts[o].wallet
  {
  }

  lemma SendKeepsInv(s: State, e: Event, s': State)
    requires Inv(s) && e.SendEvent? && SendStep(s, e, s')
    ensures Inv(s')
  {
    var r := SendEffect(s, e, s');
    assert InFlightOk(e.id, s.flight[e.id], s.db.subs);
    if r.recorded {
      RecordedKeepsDb(s.db, e.id, s.flight[e.id].work.purpose, e.fence, r.state, r.failure, s'.db);
    }
    FlightAfterUpdate(s.flight, s'.flight, s.db.subs, s'.db.subs);
  }

  lemma FlightAfterUpdate(flight: map<SubId, Flight>, flight': map<SubId, Flight>, subs: Subs, subs': Subs)
    requires FlightOk(flight, subs)
    requires flight'.Keys <= flight.Keys && forall i :: i in flight' ==> flight'[i] == flight[i]
    requires forall i :: i in flight' && i in subs ==> i in subs' && subs'[i].intentAt == subs[i].intentAt
    ensures FlightOk(flight', subs')
  {
    forall i | i in flight' ensures InFlightOk(i, flight'[i], subs') {
      assert InFlightOk(i, flight[i], subs);
    }
  }

  lemma BeginKeepsInv(s: State, e: Event, s': State)
    requires Inv(s) && e.BeginEvent? && BeginStep(s, e, s')
    ensures Inv(s')
  {
    BeginKeepsDb(s.db, e.work, e.revision, e.fence, e.now);
    var id := Begin(s.db, e.work, e.revision, e.fence, e.now).value;
    FlightAfterUpdate(s.flight, s.flight, s.db.subs, s'.db.subs);
  }

  lemma MarkKeepsInv(s: State, e: Event, s': State)
    requires Inv(s) && e.MarkEvent? && MarkStep(s, e, s')
    ensures Inv(s')
  {
    MarkKeepsDb(s.db, s'.db, e.id, e.now);
    assert InFlightOk(e.id, s.flight[e.id], s.db.subs);
    FlightAfterUpdate(s.flight, s.flight - {e.id}, s.db.subs, s'.db.subs);
    forall i | i in s'.flight ensures InFlightOk(i, s'.flight[i], s'.db.subs) {
      if i != e.id {
        assert i in s.flight - {e.id};
      }
    }
  }

  lemma StepKeepsInv(s: State, e: Event, s': State)
    requires Inv(s) && Step(s, e, s')
    ensures Inv(s')
  {
    match e {
      case BeginEvent(_, _, _, _, _) => BeginKeepsInv(s, e, s');
      case MarkEvent(_, _, _, _, _) => MarkKeepsInv(s, e, s');
      case SendEvent(_, _, _, _, _, _) => SendKeepsInv(s, e, s');
      case RecoverEvent(fence, now) =>
        RecoverKeepsDb(s.db, fence, now);
        FlightAfterUpdate(s.flight, s'.flight, s.db.subs, s'.db.subs);
      case _ => OtherKeepsInv(s, e, s');
    }
  }

  lemma {:induction false} RunKeepsInv(run: seq<State>, i: nat)
    requires IsRun(run) && i < |run|
    ensures Inv(run[i])
  {
    if i == 0 {
      assert forall op: OpId :: ConsumedPermits(run[0].db.permits, op) == {} && Sequences(run[0].db.subs, op) == {};
    } else {
      RunKeepsInv(run, i - 1);
      assert StepAt(run, i);
      var e :| Step(run[i - 1], e, run[i]);
      StepKeepsInv(run[i - 1], e, run[i]);
    }
  }
}
