/** Tables and transactions of the controlled submission worker.

    `Db` is a snapshot of the SQLite tables the worker reads and writes. Each function from
    `Begin` on is one transaction: `Commit` carries the new tables, `Abort` means rollback.
    An execution attempt's id is a hash of its operation's id, so the operation is used as the
    key of both; a submission is keyed by its operation and sequence number. */
module Controlled {
  import opened Common
  import L = Leases

  // Identifiers and hashes are opaque in the source; only their equality matters.
  type OpId = nat
  type WalletId = nat
  type PermitId = nat
  type AuthId = nat
  type Hash = nat
  type Time = nat

  const CHAIN_ID: nat := 4663

  datatype SubId = SubId(op: OpId, sequence: nat)

  datatype SubState = Submitting | Submitted | BroadcastUnknown | ManualResolution | KnownUnsent

  datatype Failure =
    | NoFailure
    | RestartBeforeSendIntent
    | RestartAfterSendIntent
    | DeterministicRejection
    | AmbiguousTransport
    | HashMismatch
    | ControlRejected(reason: Reason)

  datatype Submission = Submission(txHash: Hash, state: SubState, failure: Failure, intentAt: Option<Time>,
                                   createdAt: Time)

  datatype Purpose = FirstBroadcast | UnknownReplay

  datatype PermitState = Issued | Consumed | Expired

  datatype Permit = Permit(op: OpId, auth: AuthId, authEpoch: nat, purpose: Purpose,
                           artifactHash: Hash, txHash: Hash, state: PermitState, issuedAt: Time, expiresAt: Time)

  datatype AttemptStatus = Prepared | Signed | Unsent

  datatype Attempt = Attempt(wallet: WalletId, artifactHash: Hash, txHash: Hash, status: AttemptStatus)

  datatype LaneState = LaneIdle | LaneReserved | LaneSigned | LaneFrozen

  datatype Lane = Lane(state: LaneState, op: Option<OpId>)

  datatype Reservation = ResReserved | ResSigned | ResFrozen | ResReleased

  datatype RiskState = RiskReserved | RiskCommitted | RiskFrozen | RiskReleased

  /** An admitted operation: its risk reservation joined with the admission decision. */
  datatype Risk = Risk(wallet: WalletId, policy: nat, state: RiskState, expiresAt: Time)

  datatype Deployment = Deployment(environment: L.Name, build: Hash, release: L.Name, id: L.Name)

  datatype AuthState = Pending | Armed | Closed

  datatype Authorization = Authorization(state: AuthState, epoch: nat, wallet: WalletId, policy: nat,
                                         deployment: Deployment, expiresAt: Time)

  datatype Control = Control(stopped: bool, controlled: bool, policy: nat, revision: nat)

  datatype Stage = ExecutionAdmission | PreSign | FirstBroadcastGate

  /** A gate snapshot of one of these stages whose decision was PASS. */
  datatype Gate = Gate(id: nat, stage: Stage, op: OpId, auth: AuthId, authEpoch: nat)

  datatype Request = Request(op: OpId, auth: AuthId, authEpoch: nat, policy: nat, chain: nat,
                             wallet: WalletId, deployment: Deployment)

  datatype Work = Work(request: Request, artifactHash: Hash, txHash: Hash, permit: PermitId, purpose: Purpose)

  datatype Db = Db(
    attempts: map<OpId, Attempt>,
    permits: map<PermitId, Permit>,
    subs: Subs,
    lanes: map<WalletId, Lane>,
    reservations: map<OpId, Reservation>,
    risks: map<OpId, Risk>,
    auths: map<AuthId, Authorization>,
    control: Option<Control>,
    gates: set<Gate>,
    leases: L.Table)

  datatype Reason =
    | SubmissionLeaseLost
    | ControlStateUnavailable | EmergencyStopped | CanaryDisabled | ControlPolicyMismatch | ControlStateChanged
    | ChainMismatch
    | AuthorizationUnavailable | AuthorizationNotArmed | AuthorizationEpochMismatch
    | AuthorizationBindingMismatch | AuthorizationExpired
    | AdmissionBindingInvalid | OperationExpired
    | GateChainIncomplete | PermitIdentityMismatch | WalletLaneInvalid
    | FirstBroadcastNotAvailable | UnknownReplayNotAvailable
    | RuntimeRejected | BroadcastAmbiguous | ArtifactIntegrity

  datatype Tx<T> = Commit(db: Db, value: T) | Abort(reason: Reason)

  // ---------------------------------------------------------------------------------------
  // Reads

  /** validateImmediateControlsTx: the first failing check, or None when all pass. */
  function ControlReason(db: Db, revision: nat, r: Request, now: Time): Option<Reason>
  {
    if db.control.None? then Some(ControlStateUnavailable)
    else if db.control.value.stopped then Some(EmergencyStopped)
    else if !db.control.value.controlled then Some(CanaryDisabled)
    else if db.control.value.policy != r.policy then Some(ControlPolicyMismatch)
    else if db.control.value.revision != revision then Some(ControlStateChanged)
    else if r.chain != CHAIN_ID then Some(ChainMismatch)
    else if r.auth !in db.auths then Some(AuthorizationUnavailable)
    else
      var a := db.auths[r.auth];
      if a.state != Armed then Some(AuthorizationNotArmed)
      else if a.epoch != r.authEpoch then Some(AuthorizationEpochMismatch)
      else if a.wallet != r.wallet || a.policy != r.policy || a.deployment != r.deployment then
        Some(AuthorizationBindingMismatch)
      else if a.expiresAt <= now then Some(AuthorizationExpired)
      else if r.op !in db.risks || db.risks[r.op].wallet != r.wallet || db.risks[r.op].policy != r.policy
              || !(db.risks[r.op].state.RiskReserved? || db.risks[r.op].state.RiskFrozen?) then
                Some(AdmissionBindingInvalid)
      else if db.risks[r.op].expiresAt <= now then Some(OperationExpired)
      else None
  }

  predicate GateChainComplete(db: Db, r: Request)
  {
    |set g | g in db.gates && g.op == r.op && g.auth == r.auth && g.authEpoch == r.authEpoch| == 3
  }

  /** The stored permit is the one the work item was built from. */
  predicate PermitMatches(db: Db, w: Work)
  {
    && w.permit in db.permits
    && var p := db.permits[w.permit];
      p.op == w.request.op && p.purpose == w.purpose && p.artifactHash == w.artifactHash && p.txHash == w.txHash
  }

  predicate PermitConsumable(db: Db, w: Work, now: Time)
  {
    && PermitMatches(db, w)
    && var p := db.permits[w.permit];
      p.auth == w.request.auth && p.authEpoch == w.request.authEpoch && p.state == Issued && now < p.expiresAt
  }

  type Subs = map<SubId, Submission>

  function Sequences(subs: Subs, op: OpId): set<nat>
  {
    set id | id in subs && id.op == op :: id.sequence
  }

  /** COALESCE(MAX(sequence)+1,0) */
  function NextSequence(subs: Subs, op: OpId): nat
  {
    if Sequences(subs, op) == {} then 0 else Maximum(Sequences(subs, op)) + 1
  }

  /** The state of the submission with the highest sequence. */
  function LatestState(subs: Subs, op: OpId): Option<SubState>
  {
    if Sequences(subs, op) == {} then None else Some(subs[SubId(op, Maximum(Sequences(subs, op)))].state)
  }

  /** ListControlledRecoveryItems: attempts whose latest submission is submitted or unknown. */
  predicate ListedForRecovery(subs: Subs, op: OpId)
  {
    LatestState(subs, op) == Some(Submitted) || LatestState(subs, op) == Some(BroadcastUnknown)
  }

  predicate LaneHas(lanes: map<WalletId, Lane>, wallet: WalletId, op: OpId)
  {
    wallet in lanes && lanes[wallet].op == Some(op)
  }

  // ---------------------------------------------------------------------------------------
  // Row updates shared by the transactions (each is one SQL UPDATE)

  function FreezeLanes(lanes: map<WalletId, Lane>, ops: set<OpId>): map<WalletId, Lane>
  {
    map w | w in lanes ::
      if lanes[w].op.Some? && lanes[w].op.value in ops then lanes[w].(state := LaneFrozen) else lanes[w]
  }

  function IdleLanes(lanes: map<WalletId, Lane>, ops: set<OpId>): map<WalletId, Lane>
  {
    map w | w in lanes ::
      if lanes[w].op.Some? && lanes[w].op.value in ops then Lane(LaneIdle, None) else lanes[w]
  }

  function SetReservations(rs: map<OpId, Reservation>, ops: set<OpId>, status: Reservation): map<OpId, Reservation>
  {
    map o | o in rs :: if o in ops then status else rs[o]
  }

  function FreezeRisks(rs: map<OpId, Risk>, ops: set<OpId>): map<OpId, Risk>
  {
    map o | o in rs ::
      if o in ops && (rs[o].state.RiskReserved? || rs[o].state.RiskFrozen?) then rs[o].(state := RiskFrozen) else rs[o]
  }

  function ReleaseRisks(rs: map<OpId, Risk>, ops: set<OpId>): map<OpId, Risk>
  {
    map o | o in rs :: if o in ops && rs[o].state.RiskReserved? then rs[o].(state := RiskReleased) else rs[o]
  }

  function MarkUnsent(attempts: map<OpId, Attempt>, ops: set<OpId>): map<OpId, Attempt>
  {
    map o | o in attempts :: if o in ops then attempts[o].(status := Unsent) else attempts[o]
  }

  // ---------------------------------------------------------------------------------------
  // Transactions

  /** BeginControlledSubmissionAfterGate: consume the permit and insert the `submitting` row. */
  function Begin(db: Db, w: Work, revision: nat, fence: L.Fence, now: Time): Tx<SubId>
  {
    var op := w.request.op;
    if !L.Holds(db.leases, fence) then Abort(SubmissionLeaseLost)
    else if ControlReason(db, revision, w.request, now).Some? then
      Abort(ControlReason(db, revision, w.request, now).value)
    else if !GateChainComplete(db, w.request) then Abort(GateChainIncomplete)
    else if !PermitConsumable(db, w, now) then Abort(PermitIdentityMismatch)
    else if !LaneHas(db.lanes, w.request.wallet, op)
            || (w.purpose == FirstBroadcast && db.lanes[w.request.wallet].state != LaneSigned)
            || (w.purpose == UnknownReplay && db.lanes[w.request.wallet].state != LaneFrozen) then
              Abort(WalletLaneInvalid)
    else if w.purpose == FirstBroadcast && Sequences(db.subs, op) != {} then Abort(FirstBroadcastNotAvailable)
    else if w.purpose == UnknownReplay && LatestState(db.subs, op) != Some(BroadcastUnknown) then
      Abort(UnknownReplayNotAvailable)
    else
      var id := SubId(op, NextSequence(db.subs, op));
      Commit(db.(leases := L.Touch(db.leases, fence),
                 permits := db.permits[w.permit := db.permits[w.permit].(state := Consumed)],
                 subs := db.subs[id := Submission(w.txHash, Submitting, NoFailure, None, now)]), id)
  }

  /** MarkControlledSendIntent: the durable boundary before the broadcaster may be called. */
  function MarkIntent(db: Db, w: Work, revision: nat, id: SubId, fence: L.Fence, now: Time): Tx<()>
  {
    if !L.Holds(db.leases, fence) then Abort(SubmissionLeaseLost)
    else if ControlReason(db, revision, w.request, now).Some? then
      Abort(ControlReason(db, revision, w.request, now).value)
    else if !PermitMatches(db, w) || db.permits[w.permit].state != Consumed then Abort(RuntimeRejected)
    else if id !in db.subs || db.subs[id].txHash != w.txHash || db.subs[id].state != Submitting
            || db.subs[id].intentAt.Some? then
      Abort(BroadcastAmbiguous)
    else
      Commit(db.(leases := L.Touch(db.leases, fence),
                 subs := db.subs[id := db.subs[id].(intentAt := Some(now))]), ())
  }

  /** The wallet lane (if the operation still has it), the execution reservation and the risk
      reservation are frozen for the operation. */
  function FreezeOp(db: Db, op: OpId): Db
    requires op in db.attempts
  {
    var wallet := db.attempts[op].wallet;
    db.(lanes := if LaneHas(db.lanes, wallet, op)
                 then db.lanes[wallet := db.lanes[wallet].(state := LaneFrozen)] else db.lanes,
        reservations := SetReservations(db.reservations, {op}, ResFrozen),
        risks := FreezeRisks(db.risks, {op}))
  }

  function ReleaseOp(db: Db, op: OpId): Db
    requires op in db.attempts
  {
    var wallet := db.attempts[op].wallet;
    db.(lanes := if LaneHas(db.lanes, wallet, op) then db.lanes[wallet := Lane(LaneIdle, None)] else db.lanes,
        reservations := SetReservations(db.reservations, {op}, ResReleased),
        risks := ReleaseRisks(db.risks, {op}),
        attempts := MarkUnsent(db.attempts, {op}))
  }

  predicate MustFreeze(state: SubState, purpose: Purpose)
  {
    state == BroadcastUnknown || state == ManualResolution || (state == KnownUnsent && purpose == UnknownReplay)
  }

  /** finishControlledSubmissionTx. Ambiguity, a hash mismatch and a rejected replay freeze; only
      a first broadcast that is known unsent releases. */
  function Finish(db: Db, id: SubId, state: SubState, failure: Failure, purpose: Purpose): Tx<()>
  {
    if id !in db.subs || id.op !in db.attempts || db.subs[id].txHash != db.attempts[id.op].txHash
       || db.subs[id].state != Submitting then
      Abort(ArtifactIntegrity)
    else
      var recorded := db.(subs := db.subs[id := db.subs[id].(state := state, failure := failure)]);
      if MustFreeze(state, purpose) then Commit(FreezeOp(recorded, id.op), ())
      else if state == KnownUnsent then Commit(ReleaseOp(recorded, id.op), ())
      else Commit(recorded, ())
  }

  datatype SendDecision = SendAborted(reason: Reason) | SendRejected(db: Db) | MayCall

  /** The checks of SendControlledPrepared inside its write transaction, before the broadcaster. */
  function DecideSend(db: Db, w: Work, revision: nat, id: SubId, fence: L.Fence, now: Time): SendDecision
  {
    if !L.Holds(db.leases, fence) then SendAborted(SubmissionLeaseLost)
    else
      var touched := db.(leases := L.Touch(db.leases, fence));
      var reason := ControlReason(db, revision, w.request, now);
      if reason.Some? then
        match Finish(touched, id, KnownUnsent, ControlRejected(reason.value), w.purpose)
        case Commit(db', _) => SendRejected(db')
        case Abort(r) => SendAborted(r)
      else if !PermitMatches(db, w) || db.permits[w.permit].state != Consumed then SendAborted(RuntimeRejected)
      else if id !in db.subs || db.subs[id].txHash != w.txHash || db.subs[id].state != Submitting then
        SendAborted(BroadcastAmbiguous)
      else MayCall
  }

  datatype Response = Accepted(hash: Hash) | Refused | TransportError

  function Classify(db: Db, id: SubId, r: Response): (SubState, Failure)
    requires id.op in db.attempts
  {
    match r
    case Refused => (KnownUnsent, DeterministicRejection)
    case TransportError => (BroadcastUnknown, AmbiguousTransport)
    case Accepted(hash) =>
      if hash == db.attempts[id.op].txHash then (Submitted, NoFailure) else (ManualResolution, HashMismatch)
  }

  /** Recording the broadcaster's answer in the same transaction as DecideSend. */
  function RecordResponse(db: Db, id: SubId, purpose: Purpose, fence: L.Fence, r: Response): Tx<()>
    requires L.Holds(db.leases, fence)
  {
    if id.op !in db.attempts then Abort(ArtifactIntegrity)
    else
      var outcome := Classify(db, id, r);
      Finish(db.(leases := L.Touch(db.leases, fence)), id, outcome.0, outcome.1, purpose)
  }

  predicate HasConsumedPermit(db: Db, op: OpId, environment: L.Name)
  {
    exists p :: p in db.permits && db.permits[p].op == op && db.permits[p].state == Consumed
                && db.permits[p].auth in db.auths
                && db.auths[db.permits[p].auth].epoch == db.permits[p].authEpoch
                && db.auths[db.permits[p].auth].deployment.environment == environment
  }

  predicate Stuck(db: Db, id: SubId, environment: L.Name, now: Time)
  {
    id in db.subs && db.subs[id].state == Submitting && db.subs[id].createdAt < now
    && HasConsumedPermit(db, id.op, environment)
  }

  function ClassifyStuck(db: Db, environment: L.Name, now: Time): Subs
  {
    map id | id in db.subs ::
      if !Stuck(db, id, environment, now) then db.subs[id]
      else if db.subs[id].intentAt.None? then db.subs[id].(state := KnownUnsent, failure := RestartBeforeSendIntent)
      else db.subs[id].(state := BroadcastUnknown, failure := RestartAfterSendIntent)
  }

  /** Operations whose first broadcast was interrupted before its send intent. */
  function FirstUnsentOps(subs: Subs): set<OpId>
  {
    set id | id in subs && subs[id].failure == RestartBeforeSendIntent && id.sequence == 0 :: id.op
  }

  function RestartUnknownOps(subs: Subs): set<OpId>
  {
    set id | id in subs && subs[id].failure == RestartAfterSendIntent :: id.op
  }

  function ReleaseOps(db: Db, ops: set<OpId>): Db
  {
    db.(lanes := IdleLanes(db.lanes, ops),
        reservations := SetReservations(db.reservations, ops, ResReleased),
        risks := ReleaseRisks(db.risks, ops),
        attempts := MarkUnsent(db.attempts, ops))
  }

  function FreezeOps(db: Db, ops: set<OpId>): Db
  {
    db.(lanes := FreezeLanes(db.lanes, ops),
        reservations := SetReservations(db.reservations, ops, ResFrozen),
        risks := FreezeRisks(db.risks, ops))
  }

  /** RecoverControlledInflight. The release and freeze passes select by failure class, so they
      also re-apply to rows classified in earlier runs. */
  function RecoverInflight(db: Db, fence: L.Fence, now: Time): Tx<()>
  {
    if !L.Holds(db.leases, fence) then Abort(SubmissionLeaseLost)
    else
      var subs := ClassifyStuck(db, fence.key.environment, now);
      var classified := db.(leases := L.Touch(db.leases, fence), subs := subs);
      Commit(FreezeOps(ReleaseOps(classified, FirstUnsentOps(subs)), RestartUnknownOps(subs)), ())
  }

  /** ExpireControlledSendPermits */
  function ExpirePermits(db: Db, now: Time): Db
  {
    db.(permits := map p | p in db.permits ::
          if db.permits[p].state == Issued && db.permits[p].expiresAt <= now then db.permits[p].(state := Expired)
          else db.permits[p])
  }

  /** IssueCanaryPermitAfterGate together with the table's uniqueness constraints. */
  function IssuePermit(db: Db, id: PermitId, p: Permit, issuedAt: Time): Tx<()>
  {
    if p.auth !in db.auths || db.auths[p.auth].epoch != p.authEpoch || db.auths[p.auth].state != Armed
       || db.auths[p.auth].expiresAt <= issuedAt
       || p.op !in db.attempts || db.attempts[p.op].txHash != p.txHash || p.state != Issued then Abort(RuntimeRejected)
    else if id in db.permits
            || (exists q :: q in db.permits && db.permits[q].op == p.op && db.permits[q].purpose == p.purpose
                            && (p.purpose == FirstBroadcast || db.permits[q].state == Issued)) then
                              Abort(RuntimeRejected)
    else Commit(db.(permits := db.permits[id := p.(issuedAt := issuedAt)]), ())
  }

  // Steps of neighbouring components that create the rows the worker acts on.

  /** ReserveExecution: a fresh attempt takes an idle (or new) wallet lane. */
  function ReserveExecution(db: Db, op: OpId, wallet: WalletId): Tx<()>
  {
    if op in db.attempts || (wallet in db.lanes && db.lanes[wallet].state != LaneIdle) then Abort(WalletLaneInvalid)
    else Commit(db.(attempts := db.attempts[op := Attempt(wallet, 0, 0, Prepared)],
                    lanes := db.lanes[wallet := Lane(LaneReserved, Some(op))],
                    reservations := db.reservations[op := ResReserved]), ())
  }

  /** CommitSigned: the attempt gets its artifact; its lane becomes signed. */
  function CommitSigned(db: Db, op: OpId, artifactHash: Hash, txHash: Hash): Tx<()>
  {
    if op !in db.attempts || db.attempts[op].status != Prepared then Abort(ArtifactIntegrity)
    else
      var wallet := db.attempts[op].wallet;
      Commit(db.(attempts := db.attempts[op := Attempt(wallet, artifactHash, txHash, Signed)],
                 lanes := if LaneHas(db.lanes, wallet, op)
                          then db.lanes[wallet := db.lanes[wallet].(state := LaneSigned)] else db.lanes,
                 reservations := SetReservations(db.reservations, {op}, ResSigned)), ())
  }

  /** An admission writes the risk reservation of a new operation. */
  function AdmitRisk(db: Db, op: OpId, wallet: WalletId, policy: nat, expiresAt: Time): Tx<()>
  {
    if op in db.risks then Abort(AdmissionBindingInvalid)
    else Commit(db.(risks := db.risks[op := Risk(wallet, policy, RiskReserved, expiresAt)]), ())
  }
}
