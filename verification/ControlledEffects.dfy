/** The controlled worker's transactions told by the columns they read and write: exactly when each one
    commits, and what is then different. */
module ControlledEffects {
  import opened Common
  import opened Controlled
  import opened ControlledRuns
  import opened ControlledProofs
  import opened ControlledTheorems
  import opened ControlledOutcomes
  import L = Leases

  // ---------------------------------------------------------------------------------------
  // Begin

  /** The permit a work item carries, column by column. */
  predicate CarriesPermit(db: Db, w: Work, state: PermitState)
  {
    && w.permit in db.permits
    && var p := db.permits[w.permit];
      p == Permit(w.request.op, p.auth, p.authEpoch, w.purpose, w.artifactHash, w.txHash, state,
                  p.issuedAt, p.expiresAt)
  }

  /** Every gate snapshot of the operation under its authorization; a complete chain has three. */
  function GatesOf(db: Db, r: Request): set<Gate>
  {
    set g | g in db.gates && (g.op, g.auth, g.authEpoch) == (r.op, r.auth, r.authEpoch)
  }

  /** The submissions and the lane are as the purpose wants them: none yet and signed, or the latest
      ambiguous and frozen. */
  predicate IsNext(db: Db, w: Work)
  {
    && w.request.wallet in db.lanes && db.lanes[w.request.wallet].op == Some(w.request.op)
    && match w.purpose
      case FirstBroadcast => SubsOf(db, w.request.op) == {} && db.lanes[w.request.wallet].state == LaneSigned
      case UnknownReplay =>
        && db.lanes[w.request.wallet].state == LaneFrozen && SubsOf(db, w.request.op) != {}
        && (forall id :: id in SubsOf(db, w.request.op) && IsLast(db, id) ==> db.subs[id].state == BroadcastUnknown)
  }

  function SubsOf(db: Db, op: OpId): set<SubId>
  {
    set id | id in db.subs && id.op == op
  }

  predicate IsLast(db: Db, id: SubId)
  {
    forall k :: k in SubsOf(db, id.op) ==> k.sequence <= id.sequence
  }

  lemma PurposeIsNext(db: Db, w: Work)
    ensures IsNext(db, w) <==>
              && LaneHas(db.lanes, w.request.wallet, w.request.op)
              && (w.purpose == FirstBroadcast ==>
                    db.lanes[w.request.wallet].state == LaneSigned && Sequences(db.subs, w.request.op) == {})
              && (w.purpose == UnknownReplay ==>
                    db.lanes[w.request.wallet].state == LaneFrozen
                    && LatestState(db.subs, w.request.op) == Some(BroadcastUnknown))
  {
    var op := w.request.op;
    assert Sequences(db.subs, op) == {} <==> SubsOf(db, op) == {} by {
      assert forall id :: id in SubsOf(db, op) ==> id.sequence in Sequences(db.subs, op);
      assert forall n :: n in Sequences(db.subs, op) ==> SubId(op, n) in SubsOf(db, op);
    }
    if Sequences(db.subs, op) != {} {
      LastIsLatest(db, op);
    }
  }

  lemma LastIsLatest(db: Db, op: OpId)
    requires Sequences(db.subs, op) != {}
    ensures var last := SubId(op, Maximum(Sequences(db.subs, op)));
            last in SubsOf(db, op) && forall id :: id in SubsOf(db, op) && IsLast(db, id) <==> id == last
  {
    var last := SubId(op, Maximum(Sequences(db.subs, op)));
    forall id | id in SubsOf(db, op) ensures id.sequence <= last.sequence {
      assert id.sequence in Sequences(db.subs, op);
    }
    assert IsLast(db, last);
    forall id | id in SubsOf(db, op) && IsLast(db, id) ensures id == last {
      assert last.sequence <= id.sequence;
    }
  }

  /** A begin commits exactly under a held lease, with every control allowing it, three gates, the very
      permit issued and unexpired, and the operation's turn as the purpose wants it. */
  lemma BeginsExactlyWhen(db: Db, w: Work, revision: nat, fence: L.Fence, now: Time)
    ensures Begin(db, w, revision, fence, now).Commit? <==>
              && L.Holds(db.leases, fence) && ControlsAllow(db, revision, w.request, now)
              && |GatesOf(db, w.request)| == 3
              && CarriesPermit(db, w, Issued) && now < db.permits[w.permit].expiresAt
              && db.permits[w.permit].auth == w.request.auth && db.permits[w.permit].authEpoch == w.request.authEpoch
              && IsNext(db, w)
  {
    ControlsAreExact(db, revision, w.request, now);
    PurposeIsNext(db, w);
    assert GatesOf(db, w.request) ==
           set g | g in db.gates && g.op == w.request.op && g.auth == w.request.auth
                   && g.authEpoch == w.request.authEpoch;
  }

  /** It consumes that permit, opens one row for the permit's transaction at its clock, numbered after the
      operation's others, stamps the lease, and changes nothing else. */
  lemma BeginOpensOneRow(db: Db, w: Work, revision: nat, fence: L.Fence, now: Time)
    requires Begin(db, w, revision, fence, now).Commit?
    ensures var r := Begin(db, w, revision, fence, now);
            && r.value.op == w.request.op && r.value !in db.subs
            && (forall id :: id in SubsOf(db, w.request.op) ==> id.sequence < r.value.sequence)
            && r.db.subs == db.subs[r.value := Submission(w.txHash, Submitting, NoFailure, None, now)]
            && r.db.permits == db.permits[w.permit := db.permits[w.permit].(state := Consumed)]
            && r.db.leases == db.leases[fence.key := db.leases[fence.key].(updated := fence.clock)]
            && r.db == db.(subs := r.db.subs, permits := r.db.permits, leases := r.db.leases)
  {
    NextSequenceIsFresh(db.subs, w.request.op);
    forall id | id in SubsOf(db, w.request.op) ensures id.sequence < NextSequence(db.subs, w.request.op) {
      assert id.sequence in Sequences(db.subs, w.request.op);
    }
  }

  // ---------------------------------------------------------------------------------------
  // The send intent

  /** The intent is written exactly under a held lease, with every control allowing it, for the consumed
      permit, on the open row of that transaction if it has none; it is dated with the clock. */
  lemma MarksExactlyWhen(db: Db, w: Work, revision: nat, id: SubId, fence: L.Fence, now: Time)
    ensures MarkIntent(db, w, revision, id, fence, now).Commit? <==>
              && L.Holds(db.leases, fence) && ControlsAllow(db, revision, w.request, now)
              && CarriesPermit(db, w, Consumed)
              && id in db.subs && db.subs[id].txHash == w.txHash && db.subs[id].state == Submitting
              && db.subs[id].intentAt == None
    ensures MarkIntent(db, w, revision, id, fence, now).Commit? ==>
              var db' := MarkIntent(db, w, revision, id, fence, now).db;
              && db'.subs == db.subs[id := db.subs[id].(intentAt := Some(now))]
              && db'.leases == db.leases[fence.key := db.leases[fence.key].(updated := fence.clock)]
              && db' == db.(subs := db'.subs, leases := db'.leases)
  {
    ControlsAreExact(db, revision, w.request, now);
  }

  // ---------------------------------------------------------------------------------------
  // Permits

  /** A permit is issued exactly under an armed, unexpired authorization of its epoch, for the transaction
      of an existing attempt, under a new id, if the operation has no permit it would compete with:
      never a second first broadcast, never a second replay that is still issued. */
  lemma IssuesExactlyWhen(db: Db, id: PermitId, p: Permit, at: Time)
    ensures IssuePermit(db, id, p, at).Commit? <==>
              && p.auth in db.auths && db.auths[p.auth].state.Armed? && db.auths[p.auth].epoch == p.authEpoch
              && at < db.auths[p.auth].expiresAt
              && p.op in db.attempts && db.attempts[p.op].txHash == p.txHash && p.state == Issued
              && id !in db.permits
              && (forall q :: q in db.permits && (db.permits[q].op, db.permits[q].purpose) == (p.op, p.purpose) ==>
                    p.purpose == UnknownReplay && db.permits[q].state != Issued)
    ensures IssuePermit(db, id, p, at).Commit? ==>
              IssuePermit(db, id, p, at).db == db.(permits := db.permits[id := p.(issuedAt := at)])
  {
    if p.purpose == UnknownReplay {
      assert p.purpose != FirstBroadcast;
    }
  }

  /** The expiry pass expires exactly the issued permits whose time has come. */
  lemma ExpiresExactly(db: Db, now: Time)
    ensures var db' := ExpirePermits(db, now);
            && db' == db.(permits := db'.permits) && db'.permits.Keys == db.permits.Keys
            && forall p :: p in db.permits ==>
                 db'.permits[p] == db.permits[p].(state := if db.permits[p].state == Issued
                                                              && db.permits[p].expiresAt <= now then Expired
                                                           else db.permits[p].state)
  {
  }

  // ---------------------------------------------------------------------------------------
  // Recovery

  /** A consumed permit of the operation was issued under an authorization of this environment. */
  ghost predicate WasBegunIn(db: Db, op: OpId, environment: L.Name)
  {
    exists p :: p in db.permits && (db.permits[p].op, db.permits[p].state) == (op, Consumed)
                && db.permits[p].auth in db.auths
                && (db.auths[db.permits[p].auth].epoch, db.auths[db.permits[p].auth].deployment.environment)
                   == (db.permits[p].authEpoch, environment)
  }

  /** Recovery commits exactly under a held lease. It closes exactly the open rows of its environment that
      are older than its clock: without an intent as unsent, with one as ambiguous. */
  lemma RecoversExactly(db: Db, fence: L.Fence, now: Time)
    ensures RecoverInflight(db, fence, now).Commit? <==> L.Holds(db.leases, fence)
    ensures RecoverInflight(db, fence, now).Commit? ==>
              var subs' := RecoverInflight(db, fence, now).db.subs;
              && subs'.Keys == db.subs.Keys
              && forall id :: id in db.subs ==>
                   subs'[id] == if db.subs[id].state == Submitting && db.subs[id].createdAt < now
                                   && WasBegunIn(db, id.op, fence.key.environment)
                                then db.subs[id].(state := if db.subs[id].intentAt.Some? then BroadcastUnknown
                                                           else KnownUnsent,
                                                  failure := if db.subs[id].intentAt.Some? then RestartAfterSendIntent
                                                             else RestartBeforeSendIntent)
                                else db.subs[id]
  {
    forall id | id in db.subs
      ensures HasConsumedPermit(db, id.op, fence.key.environment) <==> WasBegunIn(db, id.op, fence.key.environment)
    {
      BegunIs(db, id.op, fence.key.environment);
    }
  }

  lemma BegunIs(db: Db, op: OpId, environment: L.Name)
    ensures HasConsumedPermit(db, op, environment) <==> WasBegunIn(db, op, environment)
  {
  }

  // ---------------------------------------------------------------------------------------
  // Attempts

  /** An attempt is unsent exactly when its first submission is known_unsent. */
  ghost predicate AttemptOk(db: Db, op: OpId)
    requires op in db.attempts
  {
    db.attempts[op].status == Unsent <==> SubId(op, 0) in db.subs && db.subs[SubId(op, 0)].state == KnownUnsent
  }

  ghost predicate AttemptsOk(db: Db)
  {
    forall op {:trigger AttemptOk(db, op)} :: op in db.attempts ==> AttemptOk(db, op)
  }

  lemma FinishKeepsAttempts(db: Db, id: SubId, state: SubState, failure: Failure, purpose: Purpose, db': Db)
    requires AttemptsOk(db) && Finish(db, id, state, failure, purpose) == Commit(db', ())
    requires (purpose == FirstBroadcast <==> id.sequence == 0) && state != Submitting
    requires id.sequence > 0 ==> SubId(id.op, 0) in db.subs && db.subs[SubId(id.op, 0)].state != Submitting
    ensures AttemptsOk(db')
  {
    forall op | op in db'.attempts ensures AttemptOk(db', op) {
      assert AttemptOk(db, op);
    }
  }

  lemma SendKeepsAttempts(s: State, e: Event, s': State)
    requires Inv(s) && AttemptsOk(s.db) && e.SendEvent? && Step(s, e, s')
    ensures AttemptsOk(s'.db)
  {
    if s'.db != s.db {
      assert InFlightOk(e.id, s.flight[e.id], s.db.subs);
      var w := s.flight[e.id].work;
      var r := SendEffect(s, e, s');
      var touched := s.db.(leases := L.Touch(s.db.leases, e.fence));
      forall op | op in touched.attempts ensures AttemptOk(touched, op) {
        assert AttemptOk(s.db, op);
      }
      if e.id.sequence > 0 {
        RowsAreNumbered(s.db.subs, s.db.attempts, e.id, 0);
      }
      FinishKeepsAttempts(touched, e.id, r.state, r.failure, w.purpose, s'.db);
    }
  }

  lemma RecoverKeepsAttempts(db: Db, fence: L.Fence, now: Time, op: OpId)
    requires RowsOk(db.subs, db.attempts) && op in db.attempts && AttemptOk(db, op)
    requires RecoverInflight(db, fence, now).Commit?
    ensures op in RecoverInflight(db, fence, now).db.attempts && AttemptOk(RecoverInflight(db, fence, now).db, op)
  {
    var first := SubId(op, 0);
    var subs := ClassifyStuck(db, fence.key.environment, now);
    if first in db.subs {
      assert RowOk(db.subs, db.attempts, first);
    }
    assert op in FirstUnsentOps(subs) <==> first in subs && subs[first].failure == RestartBeforeSendIntent by {
      forall id | id in subs && id.sequence == 0 && id.op == op ensures id == first {
      }
    }
  }

  lemma RowStepKeepsAttempt(s: State, e: Event, s': State, op: OpId)
    requires AttemptsOk(s.db) && (e.BeginEvent? || e.MarkEvent?) && Step(s, e, s') && op in s'.db.attempts
    ensures AttemptOk(s'.db, op)
  {
    assert AttemptOk(s.db, op);
    if e.BeginEvent? {
      NextSequenceIsFresh(s.db.subs, e.work.request.op);
    }
  }

  lemma OtherStepKeepsAttempt(s: State, e: Event, s': State, op: OpId)
    requires RowsOk(s.db.subs, s.db.attempts) && AttemptsOk(s.db) && OtherStep(s, e, s') && op in s'.db.attempts
    ensures AttemptOk(s'.db, op)
  {
    assert s'.db.subs == s.db.subs;
    assert op in s.db.attempts ==> AttemptOk(s.db, op);
    assert SubId(op, 0) in s.db.subs ==> RowOk(s.db.subs, s.db.attempts, SubId(op, 0));
  }

  lemma StepKeepsAttempts(s: State, e: Event, s': State)
    requires Inv(s) && AttemptsOk(s.db) && Step(s, e, s')
    ensures AttemptsOk(s'.db)
  {
    if e.SendEvent? {
      SendKeepsAttempts(s, e, s');
    } else {
      forall op | op in s'.db.attempts ensures AttemptOk(s'.db, op) {
        if e.RecoverEvent? {
          assert AttemptOk(s.db, op);
          RecoverKeepsAttempts(s.db, e.fence, e.now, op);
        } else if e.BeginEvent? || e.MarkEvent? {
          RowStepKeepsAttempt(s, e, s', op);
        } else {
          OtherStepKeepsAttempt(s, e, s', op);
        }
      }
    }
  }

  /** In every reachable state an attempt is unsent if and only if its first submission is known_unsent. */
  lemma {:induction false} AttemptIsUnsentExactlyWhen(run: seq<State>, i: nat)
    requires IsRun(run) && i < |run|
    ensures AttemptsOk(run[i].db)
  {
    if i > 0 {
      AttemptIsUnsentExactlyWhen(run, i - 1);
      RunKeepsInv(run, i - 1);
      assert StepAt(run, i);
      var e :| Step(run[i - 1], e, run[i]);
      StepKeepsAttempts(run[i - 1], e, run[i]);
    }
  }
}
