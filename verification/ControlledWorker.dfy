/** The controlled submission worker as it runs: one process, one table update after another.

    The clock, the gate decision, the control revision it read and the broadcaster's answer come
    from outside and may be anything. `trace` is the history that led to the current tables;
    every method extends it by steps of ControlledRuns, so each theorem about runs holds of what
    this process does, from any history of other processes and crashes before it. */
module ControlledWorker {
  import opened Common
  import opened Controlled
  import opened ControlledRuns
  import T = ControlledTheorems
  import L = Leases

  method Clock() returns (now: Time) {
    now := *;
  }

  method Broadcast() returns (r: Response) {
    r := *;
  }

  /** The orchestrator's immediate pre-send snapshot: the control revision it saw, and its verdict;
      or an error. */
  method Snapshot() returns (ok: bool, revision: nat, pass: bool) {
    ok, revision, pass := *, *, *;
  }

  /** Loading, decrypting and verifying the stored artifact. */
  method OpenArtifact() returns (ok: bool) {
    ok := *;
  }

  datatype Outcome = Done | Rejected | Failed

  type Permits = map<PermitId, Permit>

  /** ORDER BY issued_at, id. */
  predicate Before(permits: Permits, p: PermitId, q: PermitId)
    requires p in permits && q in permits
  {
    permits[p].issuedAt < permits[q].issuedAt || (permits[p].issuedAt == permits[q].issuedAt && p <= q)
  }

  predicate IsFirst(permits: Permits, todo: set<PermitId>, p: PermitId)
    requires todo <= permits.Keys && p in todo
  {
    forall q :: q in todo ==> Before(permits, p, q)
  }

  /** Strictly in that order, so each once. */
  ghost predicate InOrder(permits: Permits, ids: seq<PermitId>)
  {
    && (forall p :: p in ids ==> p in permits)
    && forall i, j :: 0 <= i < j < |ids| ==> ids[i] != ids[j] && Before(permits, ids[i], ids[j])
  }

  ghost function PermitsOf(work: seq<Work>): seq<PermitId>
  {
    seq(|work|, i requires 0 <= i < |work| => work[i].permit)
  }

  lemma {:induction false} FirstExists(permits: Permits, todo: set<PermitId>)
    requires todo <= permits.Keys && todo != {}
    ensures exists p :: p in todo && IsFirst(permits, todo, p)
    decreases todo
  {
    var q :| q in todo;
    if todo == {q} {
      assert IsFirst(permits, todo, q);
    } else {
      FirstExists(permits, todo - {q});
      var p :| p in todo - {q} && IsFirst(permits, todo - {q}, p);
      assert forall x :: x in todo ==> x == q || Before(permits, p, x);
      assert IsFirst(permits, todo, if Before(permits, p, q) then p else q);
    }
  }

  /** The database handle. Each method is one transaction; a failing check rolls back. */
  class Store {
    var attempts: Attempts
    var permits: map<PermitId, Permit>
    var subs: Subs
    var lanes: Lanes
    var reservations: Reservations
    var risks: Risks
    var auths: map<AuthId, Authorization>
    var control: Option<Control>
    var gates: set<Gate>
    var leases: L.Table

    function Tables(): Db
      reads this
    {
      Db(attempts, permits, subs, lanes, reservations, risks, auths, control, gates, leases)
    }

    constructor (db: Db)
      ensures Tables() == db
    {
      attempts, permits, subs, lanes, reservations := db.attempts, db.permits, db.subs, db.lanes, db.reservations;
      risks, auths, control, gates, leases := db.risks, db.auths, db.control, db.gates, db.leases;
    }

    /** BeginControlledSubmissionAfterGate: consume the permit, then check the lane and the earlier
        submissions, then insert the row. */
    method Begin(w: Work, revision: nat, fence: L.Fence, now: Time) returns (r: Option<SubId>)
      modifies this`leases, this`permits, this`subs
      ensures match Controlled.Begin(old(Tables()), w, revision, fence, now)
              case Commit(db, id) => r == Some(id) && Tables() == db
              case Abort(_) => r == None && Tables() == old(Tables())
    {
      var db := Tables();
      if !L.Holds(leases, fence) || ControlReason(db, revision, w.request, now).Some?
         || !GateChainComplete(db, w.request) || !PermitConsumable(db, w, now) {
        return None;
      }
      leases := L.Touch(leases, fence);
      permits := permits[w.permit := permits[w.permit].(state := Consumed)];
      var op, wallet := w.request.op, w.request.wallet;
      var laneReady := LaneHas(lanes, wallet, op)
                       && lanes[wallet].state == (if w.purpose == FirstBroadcast then LaneSigned else LaneFrozen);
      var rowReady := if w.purpose == FirstBroadcast then Sequences(subs, op) == {}
                      else LatestState(subs, op) == Some(BroadcastUnknown);
      if !laneReady || !rowReady {
        leases, permits := db.leases, db.permits;
        return None;
      }
      var id := SubId(op, NextSequence(subs, op));
      subs := subs[id := Submission(w.txHash, Submitting, NoFailure, None, now)];
      return Some(id);
    }

    /** MarkControlledSendIntent. */
    method MarkIntent(id: SubId, w: Work, revision: nat, fence: L.Fence, now: Time) returns (ok: bool)
      modifies this`leases, this`subs
      ensures match Controlled.MarkIntent(old(Tables()), w, revision, id, fence, now)
              case Commit(db, _) => ok && Tables() == db
              case Abort(_) => !ok && Tables() == old(Tables())
    {
      var db := Tables();
      if !L.Holds(leases, fence) || ControlReason(db, revision, w.request, now).Some?
         || !PermitMatches(db, w) || permits[w.permit].state != Consumed {
        return false;
      }
      if id !in subs || subs[id].txHash != w.txHash || subs[id].state != Submitting || subs[id].intentAt.Some? {
        return false;
      }
      leases := L.Touch(leases, fence);
      subs := subs[id := subs[id].(intentAt := Some(now))];
      return true;
    }

    /** Freeze the operation's lane, if it still has it, and its reservations. */
    method FreezeRows(op: OpId)
      requires op in attempts
      modifies this`lanes, this`reservations, this`risks
      ensures Tables() == FreezeOp(old(Tables()), op)
    {
      var wallet := attempts[op].wallet;
      if LaneHas(lanes, wallet, op) {
        lanes := lanes[wallet := lanes[wallet].(state := LaneFrozen)];
      }
      reservations := SetReservations(reservations, {op}, ResFrozen);
      risks := FreezeRisks(risks, {op});
    }

    /** Release what a first broadcast held. */
    method ReleaseRows(op: OpId)
      requires op in attempts
      modifies this`lanes, this`reservations, this`risks, this`attempts
      ensures Tables() == ReleaseOp(old(Tables()), op)
    {
      var wallet := attempts[op].wallet;
      if LaneHas(lanes, wallet, op) {
        lanes := lanes[wallet := Lane(LaneIdle, None)];
      }
      reservations := SetReservations(reservations, {op}, ResReleased);
      risks := ReleaseRisks(risks, {op});
      attempts := MarkUnsent(attempts, {op});
    }

    /** finishControlledSubmissionTx: the row updates of one outcome, in the source's order. */
    method FinishRows(id: SubId, state: SubState, failure: Failure, purpose: Purpose) returns (ok: bool)
      modifies this`subs, this`lanes, this`reservations, this`risks, this`attempts
      ensures match Finish(old(Tables()), id, state, failure, purpose)
              case Commit(db, _) => ok && Tables() == db
              case Abort(_) => !ok && Tables() == old(Tables())
    {
      if id !in subs || id.op !in attempts || subs[id].txHash != attempts[id.op].txHash
         || subs[id].state != Submitting {
        return false;
      }
      subs := subs[id := subs[id].(state := state, failure := failure)];
      if MustFreeze(state, purpose) {
        FreezeRows(id.op);
      } else if state == KnownUnsent {
        ReleaseRows(id.op);
      }
      return true;
    }

    /** The sending transaction of SendControlledPrepared: re-check, broadcast, record. */
    method Send(id: SubId, w: Work, revision: nat, fence: L.Fence, now: Time)
      returns (outcome: Outcome, called: bool, response: Response)
      modifies this`leases, this`subs, this`lanes, this`reservations, this`risks, this`attempts
      ensures match DecideSend(old(Tables()), w, revision, id, fence, now)
              case SendAborted(_) => !called && outcome == Failed && Tables() == old(Tables())
              case SendRejected(db) => !called && outcome == Rejected && Tables() == db
              case MayCall =>
                && called
                && (match RecordResponse(old(Tables()), id, w.purpose, fence, response)
                    case Commit(db, _) =>
                      Tables() == db && (outcome == Done <==> response.Accepted? && db.subs[id].state == Submitted)
                    case Abort(_) => outcome == Failed && Tables() == old(Tables()))
    {
      outcome, called, response := Failed, false, Refused;
      if !L.Holds(leases, fence) {
        return;
      }
      var db := Tables();
      leases := L.Touch(leases, fence);
      var reason := ControlReason(db, revision, w.request, now);
      if reason.Some? {
        var ok := FinishRows(id, KnownUnsent, ControlRejected(reason.value), w.purpose);
        if ok {
          outcome := Rejected;
        } else {
          leases := db.leases;
        }
        return;
      }
      if !PermitMatches(db, w) || permits[w.permit].state != Consumed
         || id !in subs || subs[id].txHash != w.txHash || subs[id].state != Submitting {
        leases := db.leases;
        return;
      }
      called := true;
      response := Broadcast();
      var ok := false;
      if id.op in attempts {
        var result := Classify(db, id, response);
        ok := FinishRows(id, result.0, result.1, w.purpose);
        outcome := if ok && result.0 == Submitted then Done else Failed;
      }
      if !ok {
        leases := db.leases;
      }
    }

    /** RecoverControlledInflight, one UPDATE after another. */
    method Recover(fence: L.Fence, now: Time) returns (ok: bool)
      modifies this`leases, this`subs, this`lanes, this`reservations, this`risks, this`attempts
      ensures match RecoverInflight(old(Tables()), fence, now)
              case Commit(db, _) => ok && Tables() == db
              case Abort(_) => !ok && Tables() == old(Tables())
    {
      if !L.Holds(leases, fence) {
        return false;
      }
      var db := Tables();
      leases := L.Touch(leases, fence);
      subs := ClassifyStuck(db, fence.key.environment, now);
      ghost var classified := Tables();
      var unsent := FirstUnsentOps(subs);
      lanes := IdleLanes(lanes, unsent);
      reservations := SetReservations(reservations, unsent, ResReleased);
      risks := ReleaseRisks(risks, unsent);
      attempts := MarkUnsent(attempts, unsent);
      assert Tables() == ReleaseOps(classified, unsent);
      var unknown := RestartUnknownOps(subs);
      lanes := FreezeLanes(lanes, unknown);
      reservations := SetReservations(reservations, unknown, ResFrozen);
      risks := FreezeRisks(risks, unknown);
      return true;
    }

    /** ExpireControlledSendPermits: a loop over the expired rows. */
    method Expire(now: Time)
      modifies this`permits
      ensures Tables() == ExpirePermits(old(Tables()), now)
    {
      var due := set p | p in permits && permits[p].state == Issued && permits[p].expiresAt <= now;
      ghost var before := permits;
      ghost var all := due;
      while due != {}
        invariant due <= all && permits.Keys == before.Keys
        invariant forall p :: p in before ==>
                    permits[p] == if p in all && p !in due then before[p].(state := Expired) else before[p]
        decreases due
      {
        var p :| p in due;
        permits := permits[p := permits[p].(state := Expired)];
        due := due - {p};
      }
      assert permits == ExpirePermits(old(Tables()), now).permits;
    }

    /** IssueCanaryPermitAfterGate, with the table's uniqueness constraints. */
    method Issue(id: PermitId, p: Permit, issuedAt: Time) returns (ok: bool)
      modifies this`permits
      ensures match IssuePermit(old(Tables()), id, p, issuedAt)
              case Commit(db, _) => ok && Tables() == db
              case Abort(_) => !ok && Tables() == old(Tables())
    {
      if p.auth !in auths || auths[p.auth].epoch != p.authEpoch || auths[p.auth].state != Armed
         || auths[p.auth].expiresAt <= issuedAt
         || p.op !in attempts || attempts[p.op].txHash != p.txHash || p.state != Issued || id in permits {
        return false;
      }
      var table := permits;
      if exists q :: q in table && table[q].op == p.op && table[q].purpose == p.purpose
                     && (p.purpose == FirstBroadcast || table[q].state == Issued) {
        return false;
      }
      permits := permits[id := p.(issuedAt := issuedAt)];
      return true;
    }

    /** The listable permits, each once, by issue time and then by id. */
    method ListPermits(now: Time) returns (ids: seq<PermitId>)
      ensures forall p :: p in ids <==> p in permits && Listable(permits[p], now)
      ensures InOrder(permits, ids)
    {
      ids := [];
      var todo := permits.Keys;
      while todo != {}
        invariant todo <= permits.Keys
        invariant forall p :: p in ids <==> p in permits && p !in todo && Listable(permits[p], now)
        invariant InOrder(permits, ids)
        invariant forall p, q :: p in ids && q in todo ==> p in permits && Before(permits, p, q)
        decreases todo
      {
        FirstExists(permits, todo);
        var p :| p in todo && IsFirst(permits, todo, p);
        if Listable(permits[p], now) {
          ids := ids + [p];
        }
        todo := todo - {p};
      }
    }

    /** ListControlledSubmissionWork: one item per issued, unexpired permit whose authorization
        still has the permit's epoch, each once, by issue time and then by id. */
    method ListWork(now: Time) returns (work: seq<Work>)
      ensures forall w :: w in work ==> PermitConsumable(Tables(), w, now)
      ensures forall p :: p in permits && Listable(permits[p], now) ==> exists w :: w in work && w.permit == p
      ensures InOrder(permits, PermitsOf(work))
      ensures forall w :: w in work ==> SpeaksFor(w.request)
    {
      var ids := ListPermits(now);
      work := [];
      while |work| < |ids|
        invariant |work| <= |ids| && PermitsOf(work) == ids[..|work|]
        invariant forall w :: w in work ==> PermitConsumable(Tables(), w, now) && SpeaksFor(w.request)
      {
        var p := ids[|work|];
        var row := permits[p];
        var a := auths[row.auth];
        work := work + [Work(Request(row.op, row.auth, row.authEpoch, a.policy, CHAIN_ID, a.wallet, a.deployment),
                             row.artifactHash, row.txHash, p, row.purpose)];
      }
      forall p | p in permits && Listable(permits[p], now) ensures exists w :: w in work && w.permit == p {
        var i :| 0 <= i < |ids| && ids[i] == p;
        assert work[i].permit == PermitsOf(work)[i] && work[i] in work;
      }
      assert ids[..|work|] == ids;
    }

    /** The request is for the chain, and for the policy, wallet and deployment of its authorization. */
    predicate SpeaksFor(r: Request)
      reads this`auths
    {
      && r.chain == 4663 && r.auth in auths
      && auths[r.auth] == Authorization(auths[r.auth].state, r.authEpoch, r.wallet, r.policy, r.deployment,
                                        auths[r.auth].expiresAt)
    }

    predicate Listable(p: Permit, now: Time)
      reads this`auths
    {
      p.state == Issued && now < p.expiresAt && p.auth in auths && auths[p.auth].epoch == p.authEpoch
    }
  }

  /** The artifact and transaction hash stored for the operation are those of the work item. */
  predicate Stores(attempts: Attempts, w: Work)
  {
    && w.request.op in attempts
    && attempts[w.request.op].artifactHash == w.artifactHash && attempts[w.request.op].txHash == w.txHash
  }

  /** One worker process over the store. */
  class Worker {
    const store: Store
    const environment: L.Name
    const holder: L.Name
    const epoch: nat

    ghost var flight: map<SubId, Flight>
    ghost var calls: seq<SubId>
    ghost var fenced: seq<L.Fence>
    ghost var trace: seq<State>

    ghost function Current(): State
      reads this, store
    {
      State(store.Tables(), flight, calls, fenced)
    }

    ghost predicate Valid()
      reads this, store
    {
      IsRun(trace) && trace[|trace| - 1] == Current()
    }

    /** Start on tables that any earlier history left behind. */
    constructor (store: Store, environment: L.Name, holder: L.Name, epoch: nat, ghost history: seq<State>)
      requires IsRun(history) && history[|history| - 1].db == store.Tables() && history[|history| - 1].flight == map[]
      ensures Valid() && flight == map[] && trace == history && this.store == store
    {
      this.store, this.environment, this.holder, this.epoch := store, environment, holder, epoch;
      flight, calls, fenced, trace := map[], history[|history| - 1].calls, history[|history| - 1].fenced, history;
    }

    function Fence(clock: Time): L.Fence
    {
      L.Fence(L.Key(L.Submission, environment), holder, epoch, clock)
    }

    /** The one submission this process remembers, begun under its own lease. */
    ghost predicate InHand(id: SubId, w: Work, revision: nat, marked: bool)
      reads this
    {
      && flight.Keys == {id}
      && flight[id].work == w && flight[id].revision == revision && flight[id].marked == marked
      && SameTenure(Fence(0), flight[id].fence)
    }

    ghost method Log(e: Event)
      requires IsRun(trace) && Step(trace[|trace| - 1], e, Current())
      modifies this`trace
      ensures Valid() && old(trace) <= trace
    {
      RunGrows(trace, e, Current());
      trace := trace + [Current()];
    }

    method Begin(w: Work, revision: nat) returns (r: Option<SubId>)
      requires Valid() && flight == map[]
      modifies this, store
      ensures Valid() && old(trace) <= trace && calls == old(calls)
      ensures r.Some? ==> InHand(r.value, w, revision, false)
      ensures r.None? ==> flight == map[] && store.Tables() == old(store.Tables())
      ensures store.attempts == old(store.attempts)
    {
      var clock := Clock();
      var now := Clock();
      r := store.Begin(w, revision, Fence(clock), now);
      if r.Some? {
        flight, fenced := flight[r.value := Flight(w, false, revision, Fence(clock))], fenced + [Fence(clock)];
        Log(BeginEvent(w, revision, Fence(clock), now, true));
      }
    }

    method MarkIntent(id: SubId, w: Work, revision: nat, now: Time) returns (ok: bool)
      requires Valid() && InHand(id, w, revision, false)
      modifies this, store
      ensures Valid() && old(trace) <= trace && calls == old(calls)
      ensures InHand(id, w, revision, ok)
    {
      var clock := Clock();
      ok := store.MarkIntent(id, w, revision, Fence(clock), now);
      if ok {
        flight, fenced := flight[id := flight[id].(marked := true)], fenced + [Fence(clock)];
        Log(MarkEvent(id, revision, Fence(clock), now, true));
      }
    }

    method Send(id: SubId, w: Work, revision: nat, now: Time) returns (outcome: Outcome)
      requires Valid() && InHand(id, w, revision, true)
      modifies this, store
      ensures Valid() && old(trace) <= trace && flight == map[]
      ensures calls == old(calls) || calls == old(calls) + [id]
      ensures outcome == Done ==> calls == old(calls) + [id]
    {
      var clock := Clock();
      ghost var before := store.Tables();
      var called, response;
      outcome, called, response := store.Send(id, w, revision, Fence(clock), now);
      flight := flight - {id};
      if called {
        calls := calls + [id];
      }
      ghost var recorded := DecideSend(before, w, revision, id, Fence(clock), now).SendRejected?
                            || (called && RecordResponse(before, id, w.purpose, Fence(clock), response).Commit?);
      if recorded {
        fenced := fenced + [Fence(clock)];
      }
      Log(SendEvent(id, revision, Fence(clock), now, response, true));
    }

    ghost method Forget(id: SubId)
      requires Valid() && flight.Keys == {id}
      modifies this`flight, this`trace
      ensures Valid() && old(trace) <= trace && flight == map[]
    {
      flight := flight - {id};
      Log(CrashEvent({id}));
    }

    method Recover() returns (ok: bool)
      requires Valid()
      modifies this, store
      ensures Valid() && old(trace) <= trace && flight == old(flight) && calls == old(calls)
    {
      var clock := Clock();
      var now := Clock();
      ok := store.Recover(Fence(clock), now);
      if ok {
        fenced := fenced + [Fence(clock)];
        Log(RecoverEvent(Fence(clock), now));
      }
    }

    method Expire()
      requires Valid()
      modifies this, store
      ensures Valid() && old(trace) <= trace && flight == old(flight) && calls == old(calls)
    {
      var now := Clock();
      store.Expire(now);
      Log(ExpireEvent(now));
    }

    /** process: begin, open the artifact, mark the intent, send. A failure after the begin leaves the
        row to a later recovery; the process simply forgets it. The one call there may be is made only
        for the artifact that is stored for the operation. */
    method Process(w: Work) returns (outcome: Outcome)
      requires Valid() && flight == map[]
      modifies this, store
      ensures Valid() && old(trace) <= trace && flight == map[]
      ensures old(calls) <= calls && |calls| <= |old(calls)| + 1
      ensures calls != old(calls) ==> Stores(old(store.attempts), w)
    {
      var answered, revision, pass := Snapshot();
      if !answered {
        return Failed;
      }
      var begun := Begin(w, revision);
      if begun.None? {
        var subs, permits := store.subs, store.permits;
        var claimed := w.permit in permits && permits[w.permit].state == Consumed
                       && exists id :: id in subs && id.op == w.request.op && subs[id].txHash == w.txHash;
        return if claimed then Done else Rejected;
      }
      var id := begun.value;
      if !pass {
        Forget(id);
        return Rejected;
      }
      var intact := OpenArtifact();
      if !intact || !Stores(store.attempts, w) {
        Forget(id);
        return Failed;
      }
      var now := Clock();
      var marked := MarkIntent(id, w, revision, now);
      if !marked {
        Forget(id);
        return Failed;
      }
      outcome := Send(id, w, revision, now);
    }

    /** RunOnce: recover, expire, then process each listed permit until one fails. Whatever happened
        before, no submission has been broadcast twice when it returns. */
    method RunOnce() returns (ok: bool)
      requires Valid() && flight == map[]
      modifies this, store
      ensures Valid() && old(trace) <= trace && flight == map[]
      ensures old(calls) <= calls && forall m, n :: 0 <= m < n < |calls| ==> calls[m] != calls[n]
    {
      ok := Pass();
      T.BroadcastAtMostOnce(trace, |trace| - 1);
    }

    method Pass() returns (ok: bool)
      requires Valid() && flight == map[]
      modifies this, store
      ensures Valid() && old(trace) <= trace && flight == map[] && old(calls) <= calls
    {
      var clock := Clock();
      if !L.Holds(store.leases, Fence(clock)) {
        return false;
      }
      var recovered := Recover();
      if !recovered {
        return false;
      }
      Expire();
      var now := Clock();
      var work := store.ListWork(now);
      var i := 0;
      while i < |work|
        invariant 0 <= i <= |work|
        invariant Valid() && old(trace) <= trace && flight == map[] && old(calls) <= calls
      {
        var outcome := Process(work[i]);
        if outcome != Done {
          return false;
        }
        i := i + 1;
      }
      return true;
    }
  }
}
