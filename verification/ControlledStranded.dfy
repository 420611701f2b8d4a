/** Attempts that the submission worker leaves behind: never listed for recovery again and never
    given another submission, with the exact condition under which that happens. */
module ControlledStranded {
  import opened Common
  import opened Controlled
  import opened ControlledRuns
  import opened ControlledProofs
  import opened ControlledTheorems
  import L = Leases

  /** Some live process can still write the intent of `id`: it has the submission unmarked, the
      lease row still names it, and the authorization is still armed. */
  ghost predicate MayMark(s: State, id: SubId)
  {
    && id in s.flight && !s.flight[id].marked
    && L.NamesRow(s.db.leases, s.flight[id].fence)
    && s.flight[id].work.request.auth in s.db.auths
    && s.db.auths[s.flight[id].work.request.auth].state.Armed?
  }

  /** The latest submission of `op` can only stay as it is or become known_unsent: it is refused,
      answered with a wrong hash, or open without an intent that anyone can still write. */
  ghost predicate DeadEnd(s: State, op: OpId)
  {
    && NextSequence(s.db.subs, op) > 0
    && var id := SubId(op, NextSequence(s.db.subs, op) - 1);
      && id in s.db.subs
      && match s.db.subs[id].state
         case KnownUnsent => true
         case ManualResolution => true
         case Submitting => s.db.subs[id].intentAt.None? && !MayMark(s, id)
         case _ => false
  }

  ghost function Last(run: seq<State>): State
    requires |run| > 0
  {
    run[|run| - 1]
  }

  /** However the run goes on, recovery never lists `op` and no submission is added for it. */
  ghost predicate Abandoned(run: seq<State>, op: OpId)
    requires |run| > 0
  {
    forall longer :: IsRun(longer) && run <= longer ==>
      && !ListedForRecovery(Last(longer).db.subs, op)
      && NextSequence(Last(longer).db.subs, op) == NextSequence(Last(run).db.subs, op)
  }

  lemma LatestIsLast(subs: Subs, op: OpId)
    requires NextSequence(subs, op) > 0
    ensures SubId(op, NextSequence(subs, op) - 1) in subs
    ensures LatestState(subs, op) == Some(subs[SubId(op, NextSequence(subs, op) - 1)].state)
  {
    NextSequenceIsFresh(subs, op);
  }

  // ---------------------------------------------------------------------------------------
  // What the rows of leases, authorizations and permits keep

  ghost predicate LeasesOk(t: L.Table)
  {
    forall k :: k in t ==> k.environment != 0 && t[k].holder != 0 && t[k].epoch > 0 && t[k].expires > 0
  }

  ghost predicate AuthsOk(db: Db)
  {
    && (forall a :: a in db.auths ==> db.auths[a].deployment.environment != 0)
    && (forall p :: p in db.permits ==>
          db.permits[p].auth in db.auths && db.auths[db.permits[p].auth].epoch == db.permits[p].authEpoch)
  }

  /** The lease row has this tenure or a later one. */
  ghost predicate Bound(t: L.Table, f: L.Fence)
  {
    && f.key.role == L.Submission && f.key.environment != 0 && f.holder != 0 && f.epoch > 0
    && f.key in t && f.epoch <= t[f.key].epoch && (f.epoch == t[f.key].epoch ==> f.holder == t[f.key].holder)
  }

  /** What a submission in a live process rests on. */
  ghost predicate Backed(db: Db, id: SubId, w: Work)
  {
    && PermitMatches(db, w) && db.permits[w.permit].state == Consumed
    && w.request.op in db.risks
    && db.risks[w.request.op].wallet == w.request.wallet && db.risks[w.request.op].policy == w.request.policy
    && db.risks[w.request.op].expiresAt > 0
    && w.request.chain == CHAIN_ID
    && id in db.subs && db.subs[id].txHash == w.txHash
  }

  ghost predicate Authorized(auths: map<AuthId, Authorization>, r: Request)
  {
    && r.auth in auths
    && var a := auths[r.auth];
      && a.state != Pending && a.epoch == r.authEpoch && a.expiresAt > 0
      && a.wallet == r.wallet && a.policy == r.policy && a.deployment == r.deployment
  }

  ghost predicate FlightTied(s: State, id: SubId)
    requires id in s.flight
  {
    && Backed(s.db, id, s.flight[id].work)
    && Authorized(s.db.auths, s.flight[id].work.request)
    && Bound(s.db.leases, s.flight[id].fence)
  }

  ghost predicate Tied(s: State)
  {
    && LeasesOk(s.db.leases) && AuthsOk(s.db)
    && forall id {:trigger FlightTied(s, id)} :: id in s.flight ==> FlightTied(s, id)
  }

  lemma LeaseStepKeepsOk(s: L.State, l: L.Event, s': L.State)
    requires L.Step(s, l, s') && LeasesOk(s.table)
    ensures LeasesOk(s'.table)
  {
  }

  lemma StepKeepsLeases(s: State, e: Event, s': State)
    requires Step(s, e, s')
    ensures LeasesOk(s.db.leases) ==> LeasesOk(s'.db.leases)
    ensures L.EpochsGrow(s.db.leases, s'.db.leases)
  {
    var l := StepRefinesLeases(s, e, s');
    var t, t' := L.State(s.db.leases, s.fenced), L.State(s'.db.leases, s'.fenced);
    L.StepGrowsEpochs(t, l, t');
    if LeasesOk(s.db.leases) {
      LeaseStepKeepsOk(t, l, t');
    }
  }

  lemma RecordedKeepsOthers(db: Db, id: SubId, purpose: Purpose, fence: L.Fence, state: SubState, failure: Failure,
                            db': Db)
    requires Recorded(db, id, purpose, fence, state, failure, db')
    ensures db'.risks.Keys == db.risks.Keys && db'.auths == db.auths && db'.permits == db.permits
    ensures forall o :: o in db.risks ==> db'.risks[o] == db.risks[o].(state := db'.risks[o].state)
  {
  }

  /** An authorization keeps its identity and is never armed again. */
  lemma StepEvolvesAuths(s: State, e: Event, s': State)
    requires Step(s, e, s')
    ensures AuthsEvolve(s.db.auths, s'.db.auths)
  {
    if e.SendEvent? {
      var r := SendEffect(s, e, s');
      if r.recorded {
        RecordedKeepsOthers(s.db, e.id, s.flight[e.id].work.purpose, e.fence, r.state, r.failure, s'.db);
      }
    }
  }

  /** A risk row keeps its wallet, policy and expiry. */
  lemma StepKeepsRisk(s: State, e: Event, s': State, o: OpId)
    requires Step(s, e, s') && o in s.db.risks
    ensures o in s'.db.risks && s'.db.risks[o] == s.db.risks[o].(state := s'.db.risks[o].state)
  {
    if e.SendEvent? {
      var r := SendEffect(s, e, s');
      if r.recorded {
        RecordedKeepsOthers(s.db, e.id, s.flight[e.id].work.purpose, e.fence, r.state, r.failure, s'.db);
      }
    }
  }

  /** A submission keeps its transaction hash. */
  lemma StepKeepsHash(s: State, e: Event, s': State, id: SubId)
    requires Step(s, e, s') && id in s.db.subs
    ensures id in s'.db.subs && s'.db.subs[id].txHash == s.db.subs[id].txHash
  {
    match e {
      case BeginEvent(_, _, _, _, _) => NextSequenceIsFresh(s.db.subs, e.work.request.op);
      case SendEvent(_, _, _, _, _, _) =>
        var r := SendEffect(s, e, s');
        if r.recorded {
          RecordedSubs(s.db, e.id, s.flight[e.id].work.purpose, e.fence, r.state, r.failure, s'.db);
        }
      case RecoverEvent(fence, now) =>
        assert s'.db.subs == ClassifyStuck(s.db, fence.key.environment, now);
      case _ =>
    }
  }

  lemma NewPermitIsAuthorized(s: State, e: Event, s': State, p: PermitId)
    requires Step(s, e, s') && p in s'.db.permits && p !in s.db.permits
    ensures s'.db.auths == s.db.auths
    ensures s'.db.permits[p].auth in s.db.auths
    ensures s.db.auths[s'.db.permits[p].auth].epoch == s'.db.permits[p].authEpoch
  {
    NewPermitIsIssued(s, e, s');
  }

  lemma StepKeepsAuthsOk(s: State, e: Event, s': State)
    requires Step(s, e, s') && AuthsOk(s.db)
    ensures AuthsOk(s'.db)
  {
    StepEvolvesAuths(s, e, s');
    forall p | p in s'.db.permits
      ensures s'.db.permits[p].auth in s'.db.auths
      ensures s'.db.auths[s'.db.permits[p].auth].epoch == s'.db.permits[p].authEpoch
    {
      if p in s.db.permits {
        PermitIsSpentOnce(s, e, s', p);
      } else {
        NewPermitIsAuthorized(s, e, s', p);
      }
    }
  }

  lemma StepKeepsBacked(s: State, e: Event, s': State, id: SubId, w: Work)
    requires Step(s, e, s') && Backed(s.db, id, w)
    ensures Backed(s'.db, id, w)
  {
    StepKeepsRisk(s, e, s', w.request.op);
    StepKeepsHash(s, e, s', id);
    PermitIsSpentOnce(s, e, s', w.permit);
  }

  /** A live process keeps its work, lease and revision for as long as it remembers a submission. */
  lemma StepKeepsFlight(s: State, e: Event, s': State, id: SubId)
    requires Inv(s) && Step(s, e, s') && id in s'.flight && id in s.flight
    ensures s'.flight[id] == s.flight[id].(marked := s'.flight[id].marked)
  {
    assert InFlightOk(id, s.flight[id], s.db.subs);
    match e {
      case BeginEvent(_, _, _, _, _) => NextSequenceIsFresh(s.db.subs, e.work.request.op);
      case SendEvent(_, _, _, _, _, _) => var r := SendEffect(s, e, s');
      case _ =>
    }
  }

  lemma NewFlightIsBegun(s: State, e: Event, s': State, id: SubId)
    requires Step(s, e, s') && id in s'.flight && id !in s.flight
    ensures e.BeginEvent? && BeginStep(s, e, s') && id == Begin(s.db, e.work, e.revision, e.fence, e.now).value
  {
    if e.SendEvent? {
      var r := SendEffect(s, e, s');
      assert false;
    }
  }

  lemma BegunIsTied(s: State, e: Event, s': State, id: SubId)
    requires Step(s, e, s') && id in s'.flight && id !in s.flight
    ensures FlightTied(s', id)
  {
    NewFlightIsBegun(s, e, s', id);
  }

  lemma StepKeepsTied(s: State, e: Event, s': State, id: SubId)
    requires Inv(s) && Tied(s) && Step(s, e, s') && id in s'.flight
    ensures FlightTied(s', id)
  {
    if id in s.flight {
      assert FlightTied(s, id);
      StepKeepsFlight(s, e, s', id);
      StepKeepsBacked(s, e, s', id, s.flight[id].work);
      StepEvolvesAuths(s, e, s');
      StepKeepsLeases(s, e, s');
    } else {
      BegunIsTied(s, e, s', id);
    }
  }

  lemma NextKeepsTied(s: State, s': State)
    requires Inv(s) && Tied(s) && Next(s, s')
    ensures Tied(s')
  {
    var e :| Step(s, e, s');
    StepKeepsLeases(s, e, s');
    StepKeepsAuthsOk(s, e, s');
    forall id | id in s'.flight ensures FlightTied(s', id) {
      StepKeepsTied(s, e, s', id);
    }
  }

  lemma {:induction false} RunKeepsTied(run: seq<State>, i: nat)
    requires IsRun(run) && i < |run|
    ensures Tied(run[i])
  {
    if i > 0 {
      RunKeepsTied(run, i - 1);
      RunKeepsInv(run, i - 1);
      assert StepAt(run, i);
      NextKeepsTied(run[i - 1], run[i]);
    }
  }

  // ---------------------------------------------------------------------------------------
  // A dead end stays one

  lemma NothingIsAdded(subs: Subs, subs': Subs, op: OpId)
    requires RowsEvolve(subs, subs') && NextSequence(subs, op) > 0
    requires LatestState(subs, op) != Some(BroadcastUnknown)
    ensures NextSequence(subs', op) == NextSequence(subs, op)
  {
    LatestIsLast(subs, op);
    assert Sequences(subs', op) == Sequences(subs, op) by {
      forall n: nat ensures n in Sequences(subs', op) <==> n in Sequences(subs, op) {
        assert SubId(op, n) in subs ==> SubId(op, n) in subs';
        assert SubId(op, n) in subs' ==> SubId(op, n) in subs;
      }
    }
  }

  /** A process that lost its lease or its authorization never gets it back. */
  lemma StepKeepsUnmarkable(s: State, e: Event, s': State, id: SubId)
    requires Inv(s) && Tied(s) && Step(s, e, s') && id in s.db.subs && !MayMark(s, id)
    requires s.db.subs[id].intentAt.None?
    ensures !MayMark(s', id)
  {
    if id in s'.flight {
      if id in s.flight {
        assert FlightTied(s, id) && InFlightOk(id, s.flight[id], s.db.subs);
        StepKeepsFlight(s, e, s', id);
        StepEvolvesAuths(s, e, s');
        StepKeepsLeases(s, e, s');
      } else {
        NewFlightIsBegun(s, e, s', id);
        NextSequenceIsFresh(s.db.subs, e.work.request.op);
        assert false;
      }
    }
  }

  /** The mark of a submission is written only by a process that may. */
  lemma MarkNeedsMayMark(s: State, e: Event, s': State)
    requires e.MarkEvent? && MarkStep(s, e, s')
    ensures MayMark(s, e.id)
  {
  }

  /** A row that is open without an intent, and that nobody can mark, can only be classified unsent. */
  lemma UnmarkableRowIsOnlyClassified(s: State, e: Event, s': State, id: SubId)
    requires Inv(s) && Step(s, e, s') && id in s.db.subs && !MayMark(s, id)
    requires s.db.subs[id].state == Submitting && s.db.subs[id].intentAt.None?
    ensures id in s'.db.subs
    ensures s'.db.subs[id] == s.db.subs[id] || s'.db.subs[id].state == KnownUnsent
  {
    match e {
      case BeginEvent(_, _, _, _, _) => NextSequenceIsFresh(s.db.subs, e.work.request.op);
      case MarkEvent(_, _, _, _, _) => MarkNeedsMayMark(s, e, s');
      case SendEvent(_, _, _, _, _, _) =>
        var r := SendEffect(s, e, s');
        assert InFlightOk(e.id, s.flight[e.id], s.db.subs);
        if r.recorded {
          RecordedSubs(s.db, e.id, s.flight[e.id].work.purpose, e.fence, r.state, r.failure, s'.db);
        }
      case RecoverEvent(fence, now) =>
        assert s'.db.subs == ClassifyStuck(s.db, fence.key.environment, now);
      case _ =>
    }
  }

  lemma StepKeepsDeadEnd(s: State, e: Event, s': State, op: OpId)
    requires Inv(s) && Tied(s) && Step(s, e, s') && DeadEnd(s, op)
    ensures DeadEnd(s', op) && NextSequence(s'.db.subs, op) == NextSequence(s.db.subs, op)
  {
    LatestIsLast(s.db.subs, op);
    StepEvolvesRows(s, e, s');
    NothingIsAdded(s.db.subs, s'.db.subs, op);
    var id := SubId(op, NextSequence(s.db.subs, op) - 1);
    if s.db.subs[id].state == Submitting {
      UnmarkableRowIsOnlyClassified(s, e, s', id);
      StepKeepsUnmarkable(s, e, s', id);
    }
  }

  lemma NextKeepsDeadEnd(run: seq<State>, j: nat, op: OpId)
    requires IsRun(run) && 0 < j < |run| && DeadEnd(run[j - 1], op)
    ensures DeadEnd(run[j], op) && NextSequence(run[j].db.subs, op) == NextSequence(run[j - 1].db.subs, op)
  {
    RunKeepsInv(run, j - 1);
    RunKeepsTied(run, j - 1);
    assert StepAt(run, j);
    var e :| Step(run[j - 1], e, run[j]);
    StepKeepsDeadEnd(run[j - 1], e, run[j], op);
  }

  lemma {:induction false} RunKeepsDeadEnd(run: seq<State>, i: nat, j: nat, op: OpId)
    requires IsRun(run) && i <= j < |run| && DeadEnd(run[i], op)
    ensures DeadEnd(run[j], op) && NextSequence(run[j].db.subs, op) == NextSequence(run[i].db.subs, op)
    decreases j - i
  {
    if i < j {
      RunKeepsDeadEnd(run, i, j - 1, op);
      NextKeepsDeadEnd(run, j, op);
    }
  }

  lemma DeadEndHold(db: Db, op: OpId)
    requires DbOk(db) && NextSequence(db.subs, op) > 0
    requires NextSequence(db.subs, op) > 1 || LatestState(db.subs, op) == Some(ManualResolution)
    ensures FrozenFor(db, op)
  {
    LatestIsLast(db.subs, op);
    RowsAreNumbered(db.subs, db.attempts, SubId(op, NextSequence(db.subs, op) - 1), 0);
    assert HoldOk(db.subs[SubId(op, 0)].state, HoldOf(db, op));
  }

  /** Once an attempt is at a dead end it stays there, unlisted and with the submissions it has;
      and when its latest submission is a replay or was answered with a wrong hash, its wallet
      lane and reservations are frozen in every later state. */
  lemma DeadEndIsForever(run: seq<State>, i: nat, j: nat, op: OpId)
    requires IsRun(run) && i <= j < |run| && DeadEnd(run[i], op)
    ensures DeadEnd(run[j], op) && !ListedForRecovery(run[j].db.subs, op)
    ensures NextSequence(run[j].db.subs, op) == NextSequence(run[i].db.subs, op)
    ensures NextSequence(run[i].db.subs, op) > 1 || LatestState(run[i].db.subs, op) == Some(ManualResolution) ==>
              FrozenFor(run[j].db, op)
  {
    RunKeepsDeadEnd(run, i, j, op);
    LatestIsLast(run[i].db.subs, op);
    LatestIsLast(run[j].db.subs, op);
    if NextSequence(run[i].db.subs, op) > 1 || LatestState(run[i].db.subs, op) == Some(ManualResolution) {
      if LatestState(run[i].db.subs, op) == Some(ManualResolution) {
        RunKeepsClosedRows(run, i, j, SubId(op, NextSequence(run[i].db.subs, op) - 1));
      }
      RunKeepsInv(run, j);
      DeadEndHold(run[j].db, op);
    }
  }

  // ---------------------------------------------------------------------------------------
  // Any other attempt can be brought back to the recovery list

  /** The operator sets the control row; authorizations and gates stay as they are. */
  lemma SetControl(run: seq<State>, control: Option<Control>) returns (longer: seq<State>)
    requires IsRun(run)
    ensures IsRun(longer) && run <= longer
    ensures var s := Last(run); Last(longer) == s.(db := s.db.(control := control))
  {
    var s := Last(run);
    var s' := s.(db := s.db.(control := control));
    RunGrows(run, ControlsEvent(control, s.db.auths, s.db.gates), s');
    longer := run + [s'];
  }

  lemma LeaseIsTaken(t: L.Table, log: seq<L.Fence>, key: L.Key) returns (l: L.Event, t': L.Table, fence: L.Fence)
    requires key.environment != 0 && (key in t ==> t[key].epoch < L.MAX_EPOCH)
    ensures L.Step(L.State(t, log), l, L.State(t', log)) && !l.MutationEvent?
    ensures fence.key == key && L.Holds(t', fence)
  {
    var now := if key in t then t[key].expires else 0;
    var taken := L.AcquireNext(t, key, 1, 1, now).value;
    l, t', fence := L.AcquireNextEvent(key, 1, 1, now), taken.0, L.Fence(key, 1, taken.1, now);
  }

  lemma LeaseNext(run: seq<State>, l: L.Event, leases: L.Table) returns (longer: seq<State>)
    requires IsRun(run) && !l.MutationEvent?
    requires L.Step(L.State(Last(run).db.leases, Last(run).fenced), l, L.State(leases, Last(run).fenced))
    ensures IsRun(longer) && run <= longer
    ensures Last(longer) == Last(run).(db := Last(run).db.(leases := leases))
  {
    var s := Last(run);
    var s' := s.(db := s.db.(leases := leases));
    assert OtherStep(s, LeaseEvent(l), s');
    RunGrows(run, LeaseEvent(l), s');
    longer := run + [s'];
  }

  lemma TakeFreeLease(run: seq<State>, key: L.Key) returns (longer: seq<State>, fence: L.Fence)
    requires IsRun(run) && key.environment != 0
    requires key in Last(run).db.leases ==> Last(run).db.leases[key].epoch < L.MAX_EPOCH
    ensures IsRun(longer) && run <= longer
    ensures Last(longer) == Last(run).(db := Last(run).db.(leases := Last(longer).db.leases))
    ensures fence.key == key && L.Holds(Last(longer).db.leases, fence)
  {
    var l, leases, f := LeaseIsTaken(Last(run).db.leases, Last(run).fenced, key);
    longer := LeaseNext(run, l, leases);
    fence := f;
  }

  /** Some worker holds the submission lease of an environment, or takes it once it is free: a new
      row, the next epoch after the expiry, or, when no epoch is left, the one it already names. */
  lemma TakeLease(run: seq<State>, environment: L.Name) returns (longer: seq<State>, fence: L.Fence)
    requires IsRun(run) && environment != 0 && LeasesOk(Last(run).db.leases)
    ensures IsRun(longer) && run <= longer
    ensures var s := Last(run); Last(longer) == s.(db := s.db.(leases := Last(longer).db.leases))
    ensures fence.key == L.Key(L.Submission, environment) && L.Holds(Last(longer).db.leases, fence)
  {
    var s := Last(run);
    var key := L.Key(L.Submission, environment);
    if key in s.db.leases && s.db.leases[key].epoch >= L.MAX_EPOCH {
      longer, fence := run, L.Fence(key, s.db.leases[key].holder, s.db.leases[key].epoch, 0);
    } else {
      longer, fence := TakeFreeLease(run, key);
    }
  }

  ghost predicate OpenLatest(s: State, op: OpId)
  {
    && NextSequence(s.db.subs, op) > 0
    && var id := SubId(op, NextSequence(s.db.subs, op) - 1);
      id in s.db.subs && s.db.subs[id].state == Submitting
  }

  lemma SomePermitIsConsumed(s: State, op: OpId) returns (p: PermitId)
    requires Inv(s) && NextSequence(s.db.subs, op) > 0
    ensures p in s.db.permits && s.db.permits[p].op == op && s.db.permits[p].state == Consumed
  {
    NextSequenceIsFresh(s.db.subs, op);
    assert |Sequences(s.db.subs, op)| > 0;
    assert |ConsumedPermits(s.db.permits, op)| > 0;
    p :| p in ConsumedPermits(s.db.permits, op);
  }

  lemma ClassifiedIsListed(db: Db, op: OpId, environment: L.Name, now: Time)
    requires NextSequence(db.subs, op) > 0
    requires var id := SubId(op, NextSequence(db.subs, op) - 1);
             id in db.subs && db.subs[id].intentAt.Some? && Stuck(db, id, environment, now)
    ensures ListedForRecovery(ClassifyStuck(db, environment, now), op)
  {
    var subs' := ClassifyStuck(db, environment, now);
    assert Sequences(subs', op) == Sequences(db.subs, op);
    LatestIsLast(subs', op);
  }

  /** A worker of the permit's own environment can be in a position to classify the latest open
      submission. */
  lemma PrepareRecovery(run: seq<State>, op: OpId) returns (leased: seq<State>, fence: L.Fence, now: Time)
    requires IsRun(run) && OpenLatest(Last(run), op)
    ensures IsRun(leased) && run <= leased && Last(leased).db.subs == Last(run).db.subs
    ensures fence.key.role == L.Submission && L.Holds(Last(leased).db.leases, fence)
    ensures Stuck(Last(leased).db, SubId(op, NextSequence(Last(run).db.subs, op) - 1), fence.key.environment, now)
  {
    RunKeepsInv(run, |run| - 1);
    RunKeepsTied(run, |run| - 1);
    var p := SomePermitIsConsumed(Last(run), op);
    var permit := Last(run).db.permits[p];
    leased, fence := TakeLease(run, Last(run).db.auths[permit.auth].deployment.environment);
    var db := Last(leased).db;
    now := db.subs[SubId(op, NextSequence(db.subs, op) - 1)].createdAt + 1;
    assert p in db.permits && db.permits[p] == permit && permit.auth in db.auths;
  }

  /** An open submission with an intent is classified unknown by a recovery of its environment. */
  lemma RecoveryListsMarked(run: seq<State>, op: OpId) returns (longer: seq<State>)
    requires IsRun(run) && OpenLatest(Last(run), op)
    requires Last(run).db.subs[SubId(op, NextSequence(Last(run).db.subs, op) - 1)].intentAt.Some?
    ensures IsRun(longer) && run <= longer && ListedForRecovery(Last(longer).db.subs, op)
  {
    var leased, fence, now := PrepareRecovery(run, op);
    var s := Last(leased);
    ClassifiedIsListed(s.db, op, fence.key.environment, now);
    var r := RecoverInflight(s.db, fence, now);
    var s' := s.(db := r.db, fenced := s.fenced + [fence]);
    RunGrows(leased, RecoverEvent(fence, now), s');
    longer := leased + [s'];
  }

  lemma MarkedIsOpen(s: State, s': State, op: OpId, now: Time)
    requires OpenLatest(s, op)
    requires var id := SubId(op, NextSequence(s.db.subs, op) - 1);
             s'.db.subs == s.db.subs[id := s.db.subs[id].(intentAt := Some(now))]
    ensures OpenLatest(s', op)
    ensures NextSequence(s'.db.subs, op) == NextSequence(s.db.subs, op)
  {
    var id := SubId(op, NextSequence(s.db.subs, op) - 1);
    SequencesAfterInsert(s.db.subs, id, s'.db.subs[id]);
    assert id.sequence in Sequences(s.db.subs, op);
    assert Sequences(s'.db.subs, op) == Sequences(s.db.subs, op);
  }

  /** With the control row it read, a process that may mark passes every check. */
  lemma ControlsPass(s: State, id: SubId, control: Option<Control>)
    requires Inv(s) && MayMark(s, id) && FlightTied(s, id) && s.db.subs[id].state == Submitting
    requires control == Some(Control(false, true, s.flight[id].work.request.policy, s.flight[id].revision))
    ensures ControlReason(s.db.(control := control), s.flight[id].revision, s.flight[id].work.request, 0) == None
  {
    assert InFlightOk(id, s.flight[id], s.db.subs);
    HoldWhileOpen(s.db, id);
  }

  /** A process that may mark its submission can do so. */
  lemma LiveProcessMarks(run: seq<State>, op: OpId) returns (longer: seq<State>)
    requires IsRun(run) && OpenLatest(Last(run), op)
    requires var id := SubId(op, NextSequence(Last(run).db.subs, op) - 1);
             MayMark(Last(run), id) && Last(run).db.subs[id].intentAt.None?
    ensures IsRun(longer) && run <= longer && OpenLatest(Last(longer), op)
    ensures Last(longer).db.subs[SubId(op, NextSequence(Last(longer).db.subs, op) - 1)].intentAt.Some?
  {
    var s := Last(run);
    var id := SubId(op, NextSequence(s.db.subs, op) - 1);
    RunKeepsInv(run, |run| - 1);
    RunKeepsTied(run, |run| - 1);
    var f := s.flight[id];
    assert FlightTied(s, id);
    var control := Some(Control(false, true, f.work.request.policy, f.revision));
    ControlsPass(s, id, control);
    var ready := SetControl(run, control);
    var t, fence := Last(ready), f.fence.(clock := 0);
    var r := MarkIntent(t.db, f.work, f.revision, id, fence, 0);
    assert r.Commit?;
    var t' := State(r.db, t.flight[id := f.(marked := true)], t.calls, t.fenced + [fence]);
    RunGrows(ready, MarkEvent(id, f.revision, fence, 0, true), t');
    MarkedIsOpen(t, t', op, 0);
    longer := ready + [t'];
  }

  lemma NotDeadEndIsListedAgain(run: seq<State>, op: OpId) returns (longer: seq<State>)
    requires IsRun(run) && NextSequence(Last(run).db.subs, op) > 0 && !DeadEnd(Last(run), op)
    ensures IsRun(longer) && run <= longer && ListedForRecovery(Last(longer).db.subs, op)
  {
    var s := Last(run);
    LatestIsLast(s.db.subs, op);
    var id := SubId(op, NextSequence(s.db.subs, op) - 1);
    if s.db.subs[id].state != Submitting {
      longer := run;
    } else if s.db.subs[id].intentAt.Some? {
      longer := RecoveryListsMarked(run, op);
    } else {
      var marked := LiveProcessMarks(run, op);
      longer := RecoveryListsMarked(marked, op);
    }
  }

  /** An attempt with submissions is never listed for recovery again and never gets another
      submission, however the run goes on, exactly when its latest submission is known_unsent,
      in manual resolution, or open without an intent while no live process has it whose lease
      row still names it and whose authorization is still armed. */
  lemma AbandonedExactlyAtDeadEnds(run: seq<State>, op: OpId)
    requires IsRun(run) && NextSequence(Last(run).db.subs, op) > 0
    ensures Abandoned(run, op) <==> DeadEnd(Last(run), op)
  {
    if DeadEnd(Last(run), op) {
      forall longer | IsRun(longer) && run <= longer
        ensures !ListedForRecovery(Last(longer).db.subs, op)
        ensures NextSequence(Last(longer).db.subs, op) == NextSequence(Last(run).db.subs, op)
      {
        DeadEndIsForever(longer, |run| - 1, |longer| - 1, op);
      }
    } else {
      var longer := NotDeadEndIsListedAgain(run, op);
      assert IsRun(longer) && run <= longer;
    }
  }
}
