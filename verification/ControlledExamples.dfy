/** Runs of the controlled submission worker to attempts that are left behind: a refused replay, a
    process whose lease was taken over, and one whose authorization was closed. */
module ControlledExamples {
  import opened Common
  import opened Controlled
  import opened ControlledRuns
  import opened ControlledStranded
  import L = Leases

  const KEY := L.Key(L.Submission, 1)
  const FENCE := L.Fence(KEY, 1, 1, 0)
  const DEPLOYMENT := Deployment(1, 0, 0, 0)
  const REQUEST := Request(0, 0, 0, 0, CHAIN_ID, 0, DEPLOYMENT)
  const PASSED: set<Gate> :=
    {Gate(0, ExecutionAdmission, 0, 0, 0), Gate(1, PreSign, 0, 0, 0), Gate(2, FirstBroadcastGate, 0, 0, 0)}

  /** The tables once operation 0 of wallet 0 is reserved, all controls allowing it. */
  function Tables(attempt: Attempt, lane: LaneState, held: Reservation, risk: RiskState,
                  permits: map<PermitId, Permit>, subs: Subs): Db
  {
    Db(map[0 := attempt], permits, subs, map[0 := Lane(lane, Some(0))], map[0 := held],
       map[0 := Risk(0, 0, risk, 1)],
       map[0 := Authorization(Armed, 0, 0, 0, DEPLOYMENT, 1)],
       Some(Control(false, true, 0, 0)), PASSED, map[KEY := L.Lease(1, 1, 1, 0)])
  }

  const SIGNED := Attempt(0, 1, 1, Signed)

  function WorkOf(purpose: Purpose, permit: PermitId): Work
  {
    Work(REQUEST, 1, 1, permit, purpose)
  }

  function PermitOf(purpose: Purpose, state: PermitState): Permit
  {
    Permit(0, 0, 0, purpose, 1, 1, state, 0, 1)
  }

  lemma GatesPassed(db: Db)
    requires db.gates == PASSED
    ensures GateChainComplete(db, REQUEST)
  {
    assert (set g | g in db.gates && g.op == 0 && g.auth == 0 && g.authEpoch == 0) == PASSED;
  }

  lemma Grow(run: seq<State>, e: Event, s: State) returns (longer: seq<State>)
    requires IsRun(run) && Step(Last(run), e, s)
    ensures IsRun(longer) && run <= longer && Last(longer) == s
  {
    RunGrows(run, e, s);
    longer := run + [s];
  }

  function Quiet(db: Db): State
  {
    State(db, map[], [], [])
  }

  const PREPARED := Tables(Attempt(0, 0, 0, Prepared), LaneReserved, ResReserved, RiskReserved, map[], map[])
  const READY := Tables(SIGNED, LaneSigned, ResSigned, RiskReserved, map[], map[])
  const ADMITTED := PREPARED.(attempts := map[], lanes := map[], reservations := map[])

  lemma RunToAdmitted() returns (run: seq<State>)
    ensures IsRun(run) && Last(run) == Quiet(ADMITTED)
  {
    var controlled := ADMITTED.(risks := map[]);
    var leased := controlled.(control := None, auths := map[], gates := {});
    var empty := leased.(leases := map[]);
    run := [Quiet(empty)];
    var lease := L.AcquireNextEvent(KEY, 1, 1, 0);
    assert L.Step(L.State(empty.leases, []), lease, L.State(leased.leases, []));
    run := Grow(run, LeaseEvent(lease), Quiet(leased));
    run := Grow(run, ControlsEvent(controlled.control, controlled.auths, PASSED), Quiet(controlled));
    run := Grow(run, AdmitEvent(0, 0, 0, 1), Quiet(ADMITTED));
  }

  lemma RunToReady() returns (run: seq<State>)
    ensures IsRun(run) && Last(run) == Quiet(READY)
  {
    run := RunToAdmitted();
    run := Grow(run, ReserveEvent(0, 0), Quiet(PREPARED));
    assert CommitSigned(PREPARED, 0, 1, 1) == Commit(READY, ());
    run := Grow(run, SignEvent(0, 1, 1), Quiet(READY));
  }

  lemma BeginNext(run: seq<State>, w: Work, id: SubId, begun: Db) returns (longer: seq<State>)
    requires IsRun(run) && Last(run).flight == map[]
    requires Begin(Last(run).db, w, 0, FENCE, 0) == Commit(begun, id)
    ensures IsRun(longer) && run <= longer && Last(longer).db == begun
            && Last(longer).flight == map[id := Flight(w, false, 0, FENCE)]
  {
    var s := Last(run);
    longer := Grow(run, BeginEvent(w, 0, FENCE, 0, true),
                   State(begun, map[id := Flight(w, false, 0, FENCE)], s.calls, s.fenced + [FENCE]));
  }

  lemma MarkNext(run: seq<State>, w: Work, id: SubId, marked: Db) returns (longer: seq<State>)
    requires IsRun(run) && Last(run).flight == map[id := Flight(w, false, 0, FENCE)]
    requires MarkIntent(Last(run).db, w, 0, id, FENCE, 0) == Commit(marked, ())
    ensures IsRun(longer) && run <= longer && Last(longer).db == marked
            && Last(longer).flight == map[id := Flight(w, true, 0, FENCE)]
  {
    var s := Last(run);
    longer := Grow(run, MarkEvent(id, 0, FENCE, 0, true),
                   State(marked, map[id := Flight(w, true, 0, FENCE)], s.calls, s.fenced + [FENCE]));
  }

  lemma SendNext(run: seq<State>, w: Work, id: SubId, answer: Response, done: Db) returns (longer: seq<State>)
    requires IsRun(run) && Last(run).flight == map[id := Flight(w, true, 0, FENCE)]
    requires DecideSend(Last(run).db, w, 0, id, FENCE, 0) == MayCall
    requires L.Holds(Last(run).db.leases, FENCE)
    requires RecordResponse(Last(run).db, id, w.purpose, FENCE, answer) == Commit(done, ())
    ensures IsRun(longer) && run <= longer && Last(longer).db == done && Last(longer).flight == map[]
  {
    var s := Last(run);
    assert s.flight - {id} == map[];
    longer := Grow(run, SendEvent(id, 0, FENCE, 0, answer, true),
                   State(done, map[], s.calls + [id], s.fenced + [FENCE]));
  }

  /** A permit is issued, the submission begun, marked and sent, and the answer recorded. */
  lemma SendOnce(run: seq<State>, w: Work, id: SubId, answer: Response, issued: Db, begun: Db, marked: Db, done: Db)
    returns (longer: seq<State>)
    requires IsRun(run) && Last(run).flight == map[]
    requires IssuePermit(Last(run).db, w.permit, PermitOf(w.purpose, Issued), 0) == Commit(issued, ())
    requires Begin(issued, w, 0, FENCE, 0) == Commit(begun, id)
    requires MarkIntent(begun, w, 0, id, FENCE, 0) == Commit(marked, ())
    requires DecideSend(marked, w, 0, id, FENCE, 0) == MayCall
    requires L.Holds(marked.leases, FENCE) && RecordResponse(marked, id, w.purpose, FENCE, answer) == Commit(done, ())
    ensures IsRun(longer) && run <= longer && Last(longer).db == done && Last(longer).flight == map[]
  {
    longer := Grow(run, IssueEvent(w.permit, PermitOf(w.purpose, Issued), 0), Last(run).(db := issued));
    longer := BeginNext(longer, w, id, begun);
    longer := MarkNext(longer, w, id, marked);
    longer := SendNext(longer, w, id, answer, done);
  }

  function Row(state: SubState, failure: Failure, intentAt: Option<Time>): Submission
  {
    Submission(1, state, failure, intentAt, 0)
  }

  const FIRST := SubId(0, 0)
  const REPLAY := SubId(0, 1)
  const LOST := Row(BroadcastUnknown, AmbiguousTransport, Some(0))
  const UNKNOWN := Tables(SIGNED, LaneFrozen, ResFrozen, RiskFrozen,
                          map[0 := PermitOf(FirstBroadcast, Consumed)], map[FIRST := LOST])

  function Frozen(permit: PermitState, subs: Subs): Db
  {
    UNKNOWN.(permits := map[0 := PermitOf(FirstBroadcast, Consumed), 1 := PermitOf(UnknownReplay, permit)],
             subs := subs)
  }

  lemma FirstIsBegun(issued: Db, begun: Db)
    requires issued == READY.(permits := map[0 := PermitOf(FirstBroadcast, Issued)])
    requires begun == READY.(permits := map[0 := PermitOf(FirstBroadcast, Consumed)],
                             subs := map[FIRST := Row(Submitting, NoFailure, None)])
    ensures Begin(issued, WorkOf(FirstBroadcast, 0), 0, FENCE, 0) == Commit(begun, FIRST)
  {
    GatesPassed(issued);
  }

  lemma FirstIsCalled(marked: Db)
    requires marked == READY.(permits := map[0 := PermitOf(FirstBroadcast, Consumed)],
                              subs := map[FIRST := Row(Submitting, NoFailure, Some(0))])
    ensures DecideSend(marked, WorkOf(FirstBroadcast, 0), 0, FIRST, FENCE, 0) == MayCall
  {
  }

  lemma FirstIsLost(marked: Db)
    requires marked == READY.(permits := map[0 := PermitOf(FirstBroadcast, Consumed)],
                              subs := map[FIRST := Row(Submitting, NoFailure, Some(0))])
    ensures RecordResponse(marked, FIRST, FirstBroadcast, FENCE, TransportError) == Commit(UNKNOWN, ())
  {
    assert FENCE.key in marked.leases && L.Touch(marked.leases, FENCE) == marked.leases;
    assert Classify(marked, FIRST, TransportError) == (BroadcastUnknown, AmbiguousTransport);
    var recorded := marked.(subs := map[FIRST := LOST]);
    assert FreezeOp(recorded, 0) == UNKNOWN;
  }

  lemma RunToUnknown() returns (run: seq<State>)
    ensures IsRun(run) && Last(run).db == UNKNOWN && Last(run).flight == map[]
  {
    run := RunToReady();
    var issued := READY.(permits := map[0 := PermitOf(FirstBroadcast, Issued)]);
    var begun := READY.(permits := map[0 := PermitOf(FirstBroadcast, Consumed)],
                        subs := map[FIRST := Row(Submitting, NoFailure, None)]);
    var marked := begun.(subs := map[FIRST := Row(Submitting, NoFailure, Some(0))]);
    FirstIsBegun(issued, begun);
    FirstIsCalled(marked);
    FirstIsLost(marked);
    run := SendOnce(run, WorkOf(FirstBroadcast, 0), FIRST, TransportError, issued, begun, marked, UNKNOWN);
  }

  lemma ReplayIsBegun(issued: Db, begun: Db)
    requires issued == Frozen(Issued, map[FIRST := LOST])
    requires begun == Frozen(Consumed, map[FIRST := LOST, REPLAY := Row(Submitting, NoFailure, None)])
    ensures Begin(issued, WorkOf(UnknownReplay, 1), 0, FENCE, 0) == Commit(begun, REPLAY)
  {
    GatesPassed(issued);
    assert Sequences(issued.subs, 0) == {0};
  }

  lemma ReplayIsIssued(issued: Db)
    requires issued == Frozen(Issued, map[FIRST := LOST])
    ensures IssuePermit(UNKNOWN, 1, PermitOf(UnknownReplay, Issued), 0) == Commit(issued, ())
  {
  }

  lemma ReplayIsMarked(begun: Db, marked: Db)
    requires begun == Frozen(Consumed, map[FIRST := LOST, REPLAY := Row(Submitting, NoFailure, None)])
    requires marked == Frozen(Consumed, map[FIRST := LOST, REPLAY := Row(Submitting, NoFailure, Some(0))])
    ensures MarkIntent(begun, WorkOf(UnknownReplay, 1), 0, REPLAY, FENCE, 0) == Commit(marked, ())
  {
  }

  lemma ReplayIsCalled(marked: Db)
    requires marked == Frozen(Consumed, map[FIRST := LOST, REPLAY := Row(Submitting, NoFailure, Some(0))])
    ensures DecideSend(marked, WorkOf(UnknownReplay, 1), 0, REPLAY, FENCE, 0) == MayCall
  {
  }

  lemma ReplayIsRefused(marked: Db, refused: Db)
    requires marked == Frozen(Consumed, map[FIRST := LOST, REPLAY := Row(Submitting, NoFailure, Some(0))])
    requires refused == Frozen(Consumed,
                               map[FIRST := LOST, REPLAY := Row(KnownUnsent, DeterministicRejection, Some(0))])
    ensures RecordResponse(marked, REPLAY, UnknownReplay, FENCE, Refused) == Commit(refused, ())
  {
    assert FENCE.key in marked.leases && L.Touch(marked.leases, FENCE) == marked.leases;
    assert Classify(marked, REPLAY, Refused) == (KnownUnsent, DeterministicRejection);
    var row := marked.subs[REPLAY].(state := KnownUnsent, failure := DeterministicRejection);
    assert marked.subs[REPLAY := row] == refused.subs;
    assert FreezeOp(refused, 0) == refused;
  }

  lemma RunToRefused(refused: Db) returns (run: seq<State>)
    requires refused == Frozen(Consumed,
                               map[FIRST := LOST, REPLAY := Row(KnownUnsent, DeterministicRejection, Some(0))])
    ensures IsRun(run) && Last(run).db == refused
  {
    run := RunToUnknown();
    var issued := Frozen(Issued, map[FIRST := LOST]);
    var begun := Frozen(Consumed, map[FIRST := LOST, REPLAY := Row(Submitting, NoFailure, None)]);
    var marked := Frozen(Consumed, map[FIRST := LOST, REPLAY := Row(Submitting, NoFailure, Some(0))]);
    ReplayIsIssued(issued);
    ReplayIsBegun(issued, begun);
    ReplayIsMarked(begun, marked);
    ReplayIsCalled(marked);
    ReplayIsRefused(marked, refused);
    run := SendOnce(run, WorkOf(UnknownReplay, 1), REPLAY, Refused, issued, begun, marked, refused);
  }

  /** A first broadcast whose answer is lost, then a replay that is refused: the attempt is at a
      dead end with its lane and reservations frozen. */
  lemma RefusedReplayRun() returns (run: seq<State>)
    ensures IsRun(run) && DeadEnd(Last(run), 0) && FrozenFor(Last(run).db, 0) && Abandoned(run, 0)
    ensures REPLAY in Last(run).db.subs && Last(run).db.subs[REPLAY].failure == DeterministicRejection
  {
    var refused := Frozen(Consumed, map[FIRST := LOST, REPLAY := Row(KnownUnsent, DeterministicRejection, Some(0))]);
    run := RunToRefused(refused);
    assert Sequences(refused.subs, 0) == {0, 1};
    AbandonedExactlyAtDeadEnds(run, 0);
  }

  // ---------------------------------------------------------------------------------------
  // A live process that can no longer mark

  const BEGUN := READY.(permits := map[0 := PermitOf(FirstBroadcast, Consumed)],
                        subs := map[FIRST := Row(Submitting, NoFailure, None)])

  lemma FirstIsIssued(issued: Db)
    requires issued == READY.(permits := map[0 := PermitOf(FirstBroadcast, Issued)])
    ensures IssuePermit(READY, 0, PermitOf(FirstBroadcast, Issued), 0) == Commit(issued, ())
  {
  }

  lemma RunToBegun() returns (run: seq<State>)
    ensures IsRun(run) && Last(run).db == BEGUN
    ensures Last(run).flight == map[FIRST := Flight(WorkOf(FirstBroadcast, 0), false, 0, FENCE)]
  {
    run := RunToReady();
    var issued := READY.(permits := map[0 := PermitOf(FirstBroadcast, Issued)]);
    FirstIsIssued(issued);
    FirstIsBegun(issued, BEGUN);
    run := Grow(run, IssueEvent(0, PermitOf(FirstBroadcast, Issued), 0), Quiet(issued));
    run := BeginNext(run, WorkOf(FirstBroadcast, 0), FIRST, BEGUN);
  }

  lemma BegunIsDeadEnd(s: State)
    requires s.db.subs == BEGUN.subs && !MayMark(s, FIRST)
    ensures DeadEnd(s, 0) && NextSequence(s.db.subs, 0) == 1
  {
    assert Sequences(s.db.subs, 0) == {0};
  }

  /** Another holder takes the lease between begin and mark: the process is alive and has its
      submission, but it can never mark it, and the attempt is left behind. */
  lemma TakenOverRun() returns (run: seq<State>)
    ensures IsRun(run) && FIRST in Last(run).flight && !Last(run).flight[FIRST].marked
    ensures Last(run).db.subs == BEGUN.subs && Abandoned(run, 0)
  {
    run := RunToBegun();
    var leases := BEGUN.leases[KEY := L.Lease(2, 2, 2, 1)];
    run := LeaseNext(run, L.AcquireNextEvent(KEY, 2, 1, 1), leases);
    BegunIsDeadEnd(Last(run));
    AbandonedExactlyAtDeadEnds(run, 0);
  }

  /** The authorization is closed between begin and mark, with the same consequence. */
  lemma RevokedRun() returns (run: seq<State>)
    ensures IsRun(run) && FIRST in Last(run).flight && !Last(run).flight[FIRST].marked
    ensures Last(run).db.subs == BEGUN.subs && Abandoned(run, 0)
  {
    run := RunToBegun();
    var s, auths := Last(run), map[0 := Authorization(Closed, 0, 0, 0, DEPLOYMENT, 1)];
    run := Grow(run, ControlsEvent(s.db.control, auths, s.db.gates), s.(db := s.db.(auths := auths)));
    BegunIsDeadEnd(Last(run));
    AbandonedExactlyAtDeadEnds(run, 0);
  }
}
