/** Every interleaving of the controlled submission worker with crashes, restarts, lease
    takeovers and concurrent changes of the controls.

    `flight` is what live processes remember between their transactions: a submission they
    inserted, whether they also wrote its send intent, the control revision they read and the
    lease they hold, which stay what they were. A crash forgets any part of it.
    `calls` is the history of broadcaster calls, `fenced` that of committed fenced mutations. */
module ControlledRuns {
  import opened Common
  import opened Controlled
  import L = Leases

  datatype Flight = Flight(work: Work, marked: bool, revision: nat, fence: L.Fence)

  /** The fence of the same holder and epoch, at another reading of its clock. */
  predicate SameTenure(f: L.Fence, g: L.Fence)
  {
    f == g.(clock := f.clock)
  }

  datatype State = State(db: Db, flight: map<SubId, Flight>, calls: seq<SubId>, fenced: seq<L.Fence>)

  /** `kept` / `committed` are false when the process dies right after / right before the commit. */
  datatype Event =
    | BeginEvent(work: Work, revision: nat, fence: L.Fence, now: Time, kept: bool)
    | MarkEvent(id: SubId, revision: nat, fence: L.Fence, now: Time, kept: bool)
    | SendEvent(id: SubId, revision: nat, fence: L.Fence, now: Time, response: Response, committed: bool)
    | RecoverEvent(fence: L.Fence, now: Time)
    | CrashEvent(lost: set<SubId>)
    | ExpireEvent(now: Time)
    | IssueEvent(permitId: PermitId, permit: Permit, now: Time)
    | ReserveEvent(op: OpId, wallet: WalletId)
    | SignEvent(op: OpId, artifactHash: Hash, txHash: Hash)
    | AdmitEvent(op: OpId, wallet: WalletId, policy: nat, expiresAt: Time)
    | ControlsEvent(control: Option<Control>, auths: map<AuthId, Authorization>, gates: set<Gate>)
    | LeaseEvent(lease: L.Event)

  ghost predicate Init(s: State)
  {
    s == State(Db(map[], map[], map[], map[], map[], map[], map[], None, {}, map[]), map[], [], [])
  }

  ghost predicate BeginStep(s: State, e: Event, s': State)
    requires e.BeginEvent?
  {
    var r := Begin(s.db, e.work, e.revision, e.fence, e.now);
    && e.fence.key.role == L.Submission
    && r.Commit?
    && s' == State(r.db,
                   if e.kept then s.flight[r.value := Flight(e.work, false, e.revision, e.fence)] else s.flight,
                   s.calls, s.fenced + [e.fence])
  }

  ghost predicate MarkStep(s: State, e: Event, s': State)
    requires e.MarkEvent?
  {
    && e.fence.key.role == L.Submission
    && e.id in s.flight && !s.flight[e.id].marked
    && e.revision == s.flight[e.id].revision && SameTenure(e.fence, s.flight[e.id].fence)
    && var r := MarkIntent(s.db, s.flight[e.id].work, e.revision, e.id, e.fence, e.now);
      && r.Commit?
      && s' == State(r.db,
                     if e.kept then s.flight[e.id := s.flight[e.id].(marked := true)] else s.flight - {e.id},
                     s.calls, s.fenced + [e.fence])
  }

  ghost predicate SendStep(s: State, e: Event, s': State)
    requires e.SendEvent?
  {
    && e.fence.key.role == L.Submission
    && e.id in s.flight && s.flight[e.id].marked
    && e.revision == s.flight[e.id].revision && SameTenure(e.fence, s.flight[e.id].fence)
    && var w := s.flight[e.id].work;
      match DecideSend(s.db, w, e.revision, e.id, e.fence, e.now)
      case SendAborted(_) => s' == s.(flight := s.flight - {e.id})
      case SendRejected(db') =>
        s' == if e.committed then State(db', s.flight - {e.id}, s.calls, s.fenced + [e.fence])
              else s.(flight := s.flight - {e.id})
      case MayCall =>
        var r := RecordResponse(s.db, e.id, w.purpose, e.fence, e.response);
        s' == if e.committed && r.Commit? then State(r.db, s.flight - {e.id}, s.calls + [e.id], s.fenced + [e.fence])
              else s.(flight := s.flight - {e.id}, calls := s.calls + [e.id])
  }

  ghost predicate RecoverStep(s: State, e: Event, s': State)
    requires e.RecoverEvent?
  {
    var r := RecoverInflight(s.db, e.fence, e.now);
    && e.fence.key.role == L.Submission
    && r.Commit?
    && s' == s.(db := r.db, fenced := s.fenced + [e.fence])
  }

  /** An authorization is never deleted and keeps its identity; once closed it stays closed. The
      control row is an operator's, and nothing restricts how it is written. */
  ghost predicate AuthsEvolve(auths: map<AuthId, Authorization>, auths': map<AuthId, Authorization>)
  {
    && (forall a :: a in auths ==>
          && a in auths' && auths'[a] == auths[a].(state := auths'[a].state)
          && (auths[a].state == Closed ==> auths'[a].state == Closed)
          && (auths[a].state == Armed ==> auths'[a].state != Pending))
    && (forall a :: a in auths' && a !in auths ==> auths'[a].deployment.environment != 0)
  }

  /** Steps that neither send nor touch a submission row. */
  ghost predicate OtherStep(s: State, e: Event, s': State)
  {
    match e
    case CrashEvent(lost) => s' == s.(flight := s.flight - lost)
    case ExpireEvent(now) => s' == s.(db := ExpirePermits(s.db, now))
    case IssueEvent(id, p, now) =>
      var r := IssuePermit(s.db, id, p, now); r.Commit? && s' == s.(db := r.db)
    case ReserveEvent(op, w) =>
      var r := ReserveExecution(s.db, op, w); r.Commit? && s' == s.(db := r.db)
    case SignEvent(op, a, h) =>
      var r := CommitSigned(s.db, op, a, h); r.Commit? && s' == s.(db := r.db)
    case AdmitEvent(op, w, p, x) =>
      var r := AdmitRisk(s.db, op, w, p, x); r.Commit? && s' == s.(db := r.db)
    case ControlsEvent(c, a, g) =>
      AuthsEvolve(s.db.auths, a) && s.db.gates <= g && s' == s.(db := s.db.(control := c, auths := a, gates := g))
    case LeaseEvent(l) =>
      && !l.MutationEvent?
      && s' == s.(db := s.db.(leases := s'.db.leases))
      && L.Step(L.State(s.db.leases, s.fenced), l, L.State(s'.db.leases, s.fenced))
    case _ => false
  }

  ghost predicate Step(s: State, e: Event, s': State)
  {
    match e
    case BeginEvent(_, _, _, _, _) => BeginStep(s, e, s')
    case MarkEvent(_, _, _, _, _) => MarkStep(s, e, s')
    case SendEvent(_, _, _, _, _, _) => SendStep(s, e, s')
    case RecoverEvent(_, _) => RecoverStep(s, e, s')
    case _ => OtherStep(s, e, s')
  }

  ghost predicate Next(s: State, s': State)
  {
    exists e :: Step(s, e, s')
  }

  ghost predicate StepAt(run: seq<State>, i: nat)
    requires 0 < i < |run|
  {
    Next(run[i - 1], run[i])
  }

  ghost predicate IsRun(run: seq<State>)
  {
    && |run| > 0
    && Init(run[0])
    && forall i {:trigger StepAt(run, i)} :: 0 < i < |run| ==> StepAt(run, i)
  }

  lemma RunGrows(run: seq<State>, e: Event, s: State)
    requires IsRun(run) && Step(run[|run| - 1], e, s)
    ensures IsRun(run + [s])
  {
    var run' := run + [s];
    forall i {:trigger StepAt(run', i)} | 0 < i < |run'| ensures StepAt(run', i) {
      if i < |run| {
        assert StepAt(run, i);
      } else {
        assert Next(run'[i - 1], run'[i]);
      }
    }
  }

  // ---------------------------------------------------------------------------------------
  // Invariant, table by table

  type Attempts = map<OpId, Attempt>
  type Lanes = map<WalletId, Lane>
  type Reservations = map<OpId, Reservation>
  type Risks = map<OpId, Risk>

  ghost predicate RowOk(subs: Subs, attempts: Attempts, id: SubId)
    requires id in subs
  {
    && id.op in attempts && attempts[id.op].status != Prepared
    && (id.sequence > 0 ==>
          SubId(id.op, id.sequence - 1) in subs && subs[SubId(id.op, id.sequence - 1)].state == BroadcastUnknown)
    && (subs[id].state == Submitting ==> subs[id].failure == NoFailure)
    && (subs[id].failure == RestartBeforeSendIntent ==> subs[id].state == KnownUnsent && subs[id].intentAt == None)
    && (subs[id].failure == RestartAfterSendIntent ==> subs[id].state == BroadcastUnknown)
  }

  /** Submissions of an attempt are numbered without gaps from 0, every one before the last is
      broadcast_unknown, and a failure class fixes the state it was written with. */
  ghost predicate RowsOk(subs: Subs, attempts: Attempts)
  {
    forall id {:trigger RowOk(subs, attempts, id)} :: id in subs ==> RowOk(subs, attempts, id)
  }

  ghost predicate LaneOk(lane: Lane, wallet: WalletId, attempts: Attempts)
  {
    && (lane.state == LaneIdle <==> lane.op.None?)
    && (lane.op.Some? ==>
          && lane.op.value in attempts
          && attempts[lane.op.value].wallet == wallet
          && (lane.state == LaneReserved <==> attempts[lane.op.value].status == Prepared))
  }

  ghost predicate LanesOk(lanes: Lanes, attempts: Attempts)
  {
    forall w :: w in lanes ==> LaneOk(lanes[w], w, attempts)
  }

  /** What the lane, execution reservation and risk reservation rows say about one operation. */
  datatype Hold = Hold(lane: bool, laneFrozen: bool, reservation: Option<Reservation>, risk: Option<RiskState>)

  function HoldOf(db: Db, op: OpId): Hold
  {
    if op !in db.attempts then Hold(false, false, None, None)
    else
      var has := LaneHas(db.lanes, db.attempts[op].wallet, op);
      Hold(has,
           has && db.lanes[db.attempts[op].wallet].state == LaneFrozen,
           if op in db.reservations then Some(db.reservations[op]) else None,
           if op in db.risks then Some(db.risks[op].state) else None)
  }

  /** The wallet lane, execution reservation and risk reservation are all frozen. */
  const FROZEN: Hold := Hold(true, true, Some(ResFrozen), Some(RiskFrozen))

  ghost predicate FrozenFor(db: Db, op: OpId)
  {
    HoldOf(db, op) == FROZEN
  }

  /** What the state of an attempt's first submission says about its lane and reservations. */
  ghost predicate HoldOk(first: SubState, h: Hold)
  {
    match first
    case Submitting => h.lane && h.reservation.Some? && (h.risk == Some(RiskReserved) || h.risk == Some(RiskFrozen))
    case BroadcastUnknown => h == FROZEN
    case ManualResolution => h == FROZEN
    case KnownUnsent => !h.lane
    case Submitted => h.lane
  }

  ghost predicate HoldsOk(db: Db)
  {
    forall id :: id in db.subs && id.sequence == 0 ==> HoldOk(db.subs[id].state, HoldOf(db, id.op))
  }

  ghost function ConsumedPermits(permits: map<PermitId, Permit>, op: OpId): set<PermitId>
  {
    set p | p in permits && permits[p].op == op && permits[p].state == Consumed
  }

  ghost predicate PermitsOk(permits: map<PermitId, Permit>, subs: Subs)
  {
    forall op: OpId :: |ConsumedPermits(permits, op)| == |Sequences(subs, op)|
  }

  ghost predicate InFlightOk(id: SubId, f: Flight, subs: Subs)
  {
    && id in subs
    && f.work.request.op == id.op
    && (f.work.purpose == FirstBroadcast <==> id.sequence == 0)
    && (f.marked <==> subs[id].intentAt.Some?)
  }

  ghost predicate FlightOk(flight: map<SubId, Flight>, subs: Subs)
  {
    forall id :: id in flight ==> InFlightOk(id, flight[id], subs)
  }

  ghost predicate DbOk(db: Db)
  {
    && RowsOk(db.subs, db.attempts)
    && LanesOk(db.lanes, db.attempts)
    && db.attempts.Keys <= db.reservations.Keys
    && HoldsOk(db)
    && PermitsOk(db.permits, db.subs)
  }

  ghost predicate Inv(s: State)
  {
    DbOk(s.db) && FlightOk(s.flight, s.db.subs)
  }

  // ---------------------------------------------------------------------------------------
  // Small facts about the submissions table

  /** Submissions of an attempt are exactly 0..n, all before the last broadcast_unknown. */
  lemma {:induction false} RowsAreNumbered(subs: Subs, attempts: Attempts, id: SubId, k: nat)
    requires RowsOk(subs, attempts) && id in subs && k <= id.sequence
    ensures SubId(id.op, k) in subs
    ensures k < id.sequence ==> subs[SubId(id.op, k)].state == BroadcastUnknown
    decreases id.sequence
  {
    assert RowOk(subs, attempts, id);
    if k < id.sequence {
      RowsAreNumbered(subs, attempts, SubId(id.op, id.sequence - 1), k);
    } else {
      assert id == SubId(id.op, k);
    }
  }

  lemma NextSequenceIsFresh(subs: Subs, op: OpId)
    ensures SubId(op, NextSequence(subs, op)) !in subs
    ensures NextSequence(subs, op) == 0 <==> Sequences(subs, op) == {}
    ensures NextSequence(subs, op) > 0 ==> SubId(op, NextSequence(subs, op) - 1) in subs
  {
    var n := NextSequence(subs, op);
    assert SubId(op, n) in subs ==> n in Sequences(subs, op);
  }

  /** Any ambiguous submission means the first one is ambiguous. */
  lemma UnknownMeansFirstUnknown(subs: Subs, attempts: Attempts, id: SubId)
    requires RowsOk(subs, attempts) && id in subs && subs[id].state == BroadcastUnknown
    ensures SubId(id.op, 0) in subs && subs[SubId(id.op, 0)].state == BroadcastUnknown
  {
    RowsAreNumbered(subs, attempts, id, 0);
    assert id.sequence == 0 ==> id == SubId(id.op, 0);
  }
}
