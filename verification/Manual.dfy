/** The MANUAL first submission: one submission per attempt, an immutable transition row per
    submission and kind, and a burn-once ticket held in the memory of one open store.

    A submission's id is a fixed function of its attempt, so the attempt is its key. */
module Manual {
  import opened Common
  import L = Leases

  type Attempt = nat
  type StoreId = nat
  type Hash = nat
  type Time = nat

  datatype Kind = Intent | Outcome

  datatype SubState = Submitting | Submitted | BroadcastUnknown | ManualResolution | KnownUnsent

  datatype Failure = NoFailure | RestartBeforeSendIntent | RestartAfterSendIntent | OtherFailure

  /** What a transition row writes into the submission. */
  datatype Result = Result(state: SubState, rpcHash: Option<Hash>, failure: Failure)

  datatype Binding = Binding(txHash: Hash, environment: L.Name, holder: L.Name, epoch: nat, createdAt: Time)

  datatype Submission = Submission(txHash: Hash, state: SubState, failure: Failure, intentAt: Option<Time>)

  datatype PermitState = Issued | Consumed

  /** A permit's id is a fixed function of its attempt. The transition rows are kept by kind: their
      table is unique in submission and kind. */
  datatype Db = Db(
    permits: map<Attempt, PermitState>,
    bindings: map<Attempt, Binding>,
    subs: map<Attempt, Submission>,
    intents: map<Attempt, Result>,
    outcomes: map<Attempt, Result>,
    leases: L.Table)

  predicate BoundTo(b: Binding, f: L.Fence)
  {
    b.environment == f.key.environment && b.holder == f.holder && b.epoch == f.epoch
  }

  /** BeginManualFirstSubmission: an issued permit is consumed for the sole submission of the attempt,
      bound to the claiming lease. */
  function Claim(db: Db, a: Attempt, txHash: Hash, f: L.Fence): Option<Db>
  {
    if !L.HoldsManual(db.leases, f) || a !in db.permits || db.permits[a] != Issued || a in db.bindings
       || a in db.subs then None
    else Some(db.(permits := db.permits[a := Consumed],
                  bindings := db.bindings[a := Binding(txHash, f.key.environment, f.holder, f.epoch, f.clock)],
                  subs := db.subs[a := Submission(txHash, Submitting, NoFailure, None)]))
  }

  /** Conditions on an inserted transition row: unique, of an open submission, under the current
      lease, not dated before the claim or the intent, and of a shape its kind allows. */
  predicate TransitionAllowed(db: Db, a: Attempt, kind: Kind, r: Result, f: L.Fence)
  {
    && a !in (if kind == Intent then db.intents else db.outcomes)
    && a in db.bindings && a in db.subs && db.subs[a].state == Submitting
    && L.HoldsManual(db.leases, f) && db.bindings[a].environment == f.key.environment
    && db.bindings[a].createdAt <= f.clock
    && (db.subs[a].intentAt.Some? ==> db.subs[a].intentAt.value <= f.clock)
    && match kind
      case Intent => r == Result(Submitting, None, NoFailure) && db.subs[a].intentAt.None? && BoundTo(db.bindings[a], f)
      case Outcome =>
        && r.state != Submitting
        && (r.state == Submitted ==> r.rpcHash == Some(db.bindings[a].txHash) && r.failure == NoFailure)
        && (r.state != Submitted ==> r.failure != NoFailure)
        && (r.state == BroadcastUnknown || r.state == KnownUnsent ==> r.rpcHash == None)
        && (r.state != KnownUnsent ==> db.subs[a].intentAt.Some?)
  }

  /** insertManualSubmissionTransitionTx together with the row update its insertion causes. */
  function Transition(db: Db, a: Attempt, kind: Kind, r: Result, f: L.Fence): Option<Db>
  {
    if !TransitionAllowed(db, a, kind, r, f) then None
    else
      match kind
      case Intent =>
        Some(db.(intents := db.intents[a := r], subs := db.subs[a := db.subs[a].(intentAt := Some(f.clock))]))
      case Outcome =>
        Some(db.(outcomes := db.outcomes[a := r],
                 subs := db.subs[a := db.subs[a].(state := r.state, failure := r.failure)]))
  }

  /** MarkManualFirstSendIntent, the durable part. */
  function MarkIntent(db: Db, a: Attempt, f: L.Fence): Option<Db>
  {
    if !L.HoldsManual(db.leases, f) then None
    else Transition(db, a, Intent, Result(Submitting, None, NoFailure), f)
  }

  /** The guard of WithManualFirstSubmissionOutcome before its recheck and callback. */
  predicate MayInvoke(db: Db, a: Attempt, txHash: Hash, f: L.Fence)
  {
    && L.HoldsManual(db.leases, f)
    && a in db.subs && a in db.bindings && db.subs[a].state == Submitting && db.subs[a].txHash == txHash
    && db.subs[a].intentAt.Some? && BoundTo(db.bindings[a], f)
    && a !in db.outcomes
  }

  /** What the guarded part did: the final recheck failed, or the callback ran and gave `answer`
      (None: it returned an error). */
  datatype Attempted = RecheckFailed | Called(answer: Option<Result>)

  function ResultOf(x: Attempted): Result
  {
    match x
    case RecheckFailed => Result(BroadcastUnknown, None, OtherFailure)
    case Called(None) => Result(BroadcastUnknown, None, OtherFailure)
    case Called(Some(r)) => if r.state == Submitting then Result(BroadcastUnknown, None, OtherFailure) else r
  }

  predicate Pending(db: Db, a: Attempt, f: L.Fence)
  {
    && a in db.bindings && a in db.subs && db.subs[a].state == Submitting
    && db.bindings[a].environment == f.key.environment && db.bindings[a].epoch < f.epoch
  }

  function RecoveryResult(row: Submission): Result
  {
    if row.intentAt.Some? then Result(BroadcastUnknown, None, RestartAfterSendIntent)
    else Result(KnownUnsent, None, RestartBeforeSendIntent)
  }

  function PendingSet(db: Db, f: L.Fence): set<Attempt>
  {
    set a | a in db.subs && Pending(db, a, f)
  }

  /** RecoverManualFirstSubmissions: classify every pending claim of an older lease epoch; one
      refused row aborts the whole transaction. */
  function Recover(db: Db, f: L.Fence): Option<Db>
  {
    var work := PendingSet(db, f);
    if !L.HoldsManual(db.leases, f) then None
    else if exists a :: a in work && !TransitionAllowed(db, a, Outcome, RecoveryResult(db.subs[a]), f) then None
    else
      Some(RecoverOnly(db, work))
  }

  function RecoverOnly(db: Db, work: set<Attempt>): Db
    requires work <= db.subs.Keys
  {
    db.(subs := map a | a in db.subs :: if a in work then Recovered(db.subs[a]) else db.subs[a],
        outcomes := map a | a in db.outcomes.Keys + work ::
          if a in work then RecoveryResult(db.subs[a]) else db.outcomes[a])
  }

  function Recovered(row: Submission): Submission
  {
    row.(state := RecoveryResult(row).state, failure := RecoveryResult(row).failure)
  }
}

/** Every interleaving of several open stores over one database, with crashes and takeovers. */
module ManualRuns {
  import opened Common
  import opened Manual
  import L = Leases
  import A = IntentSend

  /** `tickets`: what each open store remembers. `calls`: history of transport callbacks,
      `fenced`: history of committed fenced mutations. */
  datatype State = State(db: Db, tickets: set<(StoreId, Attempt)>, calls: seq<Attempt>, fenced: seq<L.Fence>)

  datatype Event =
    | PermitEvent(a: Attempt, state: PermitState)
    | ClaimEvent(a: Attempt, txHash: Hash, fence: L.Fence)
    | MarkEvent(store: StoreId, a: Attempt, fence: L.Fence, kept: bool)
    | InvokeEvent(store: StoreId, a: Attempt, txHash: Hash, fence: L.Fence, what: Attempted, committed: bool)
    | RecoverEvent(fence: L.Fence)
    | DiscardEvent(store: StoreId, a: Attempt)
    | ReopenEvent(store: StoreId)
    | LeaseEvent(lease: L.Event)

  ghost predicate Init(s: State)
  {
    s == State(Db(map[], map[], map[], map[], map[], map[]), {}, [], [])
  }

  ghost predicate InvokeStep(s: State, e: Event, s': State)
    requires e.InvokeEvent?
  {
    && (e.store, e.a) in s.tickets
    && var burned := s.(tickets := s.tickets - {(e.store, e.a)});
      if !MayInvoke(s.db, e.a, e.txHash, e.fence) then s' == burned
      else
        var r := Transition(s.db, e.a, Outcome, ResultOf(e.what), e.fence);
        var after := if e.committed && r.Some? then burned.(db := r.value, fenced := s.fenced + [e.fence]) else burned;
        s' == if e.what.Called? then after.(calls := s.calls + [e.a]) else after
  }

  /** A permit is issued once; its consumption outside of a claim is a step of its own. */
  ghost predicate Step(s: State, e: Event, s': State)
  {
    match e
    case PermitEvent(a, state) =>
      && (a !in s.db.permits || (s.db.permits[a] == Issued && state == Consumed))
      && s' == s.(db := s.db.(permits := s.db.permits[a := state]))
    case ClaimEvent(a, h, f) =>
      var r := Claim(s.db, a, h, f);
      f.key.role == L.Submission && r.Some? && s' == s.(db := r.value, fenced := s.fenced + [f])
    case MarkEvent(store, a, f, kept) =>
      var r := MarkIntent(s.db, a, f);
      && f.key.role == L.Submission && r.Some?
      && s' == s.(db := r.value, tickets := if kept then s.tickets + {(store, a)} else s.tickets,
                  fenced := s.fenced + [f])
    case InvokeEvent(_, _, _, f, _, _) => f.key.role == L.Submission && InvokeStep(s, e, s')
    case RecoverEvent(f) =>
      var r := Recover(s.db, f);
      f.key.role == L.Submission && r.Some? && s' == s.(db := r.value, fenced := s.fenced + [f])
    case DiscardEvent(store, a) => s' == s.(tickets := s.tickets - {(store, a)})
    case ReopenEvent(store) => s' == s.(tickets := set t | t in s.tickets && t.0 != store)
    case LeaseEvent(l) =>
      && !l.MutationEvent?
      && s' == s.(db := s.db.(leases := s'.db.leases))
      && L.Step(L.State(s.db.leases, s.fenced), l, L.State(s'.db.leases, s.fenced))
  }

  ghost predicate Next(s: State, s': State)
  {
    exists e :: Step(s, e, s')
  }

  ghost predicate StepAt(run: seq<State>, i: nat)
    requires 0 < i < |run|
  {
    Next(run[i - 1], run[i])
  }

  ghost predicate IsRun(run: seq<State>)
  {
    && |run| > 0
    && Init(run[0])
    && forall i {:trigger StepAt(run, i)} :: 0 < i < |run| ==> StepAt(run, i)
  }

  // ---------------------------------------------------------------------------------------
  // Invariant

  /** The row is what its transitions say: intent and outcome are each written once. */
  ghost predicate RowOk(db: Db, a: Attempt)
    requires a in db.subs
  {
    && a in db.bindings && db.bindings[a].txHash == db.subs[a].txHash
    && (db.subs[a].intentAt.Some? <==> a in db.intents)
    && (db.subs[a].state != Submitting <==> a in db.outcomes)
    && (db.subs[a].state == Submitting ==> db.subs[a].failure == NoFailure)
  }

  ghost predicate DbOk(db: Db)
  {
    && (forall a {:trigger RowOk(db, a)} :: a in db.subs ==> RowOk(db, a))
    && db.intents.Keys <= db.subs.Keys && db.outcomes.Keys <= db.subs.Keys
    && (forall a :: a in db.bindings ==> a in db.permits && db.permits[a] == Consumed)
  }

  /** A ticket exists only where an intent was written, and in one store only. */
  ghost predicate TicketsOk(s: State)
  {
    && (forall t :: t in s.tickets ==> t.1 in s.db.subs && s.db.subs[t.1].intentAt.Some?)
    && (forall t, u :: t in s.tickets && u in s.tickets && t.1 == u.1 ==> t == u)
  }

  ghost predicate Inv(s: State)
  {
    DbOk(s.db) && TicketsOk(s)
  }

  lemma TransitionKeepsDb(db: Db, a: Attempt, kind: Kind, r: Result, f: L.Fence)
    requires DbOk(db) && Transition(db, a, kind, r, f).Some?
    ensures DbOk(Transition(db, a, kind, r, f).value)
  {
    var db' := Transition(db, a, kind, r, f).value;
    forall b | b in db'.subs ensures RowOk(db', b) {
      assert RowOk(db, b);
    }
  }

  lemma RecoverKeepsDb(db: Db, f: L.Fence)
    requires DbOk(db) && Recover(db, f).Some?
    ensures DbOk(Recover(db, f).value)
  {
    var db' := Recover(db, f).value;
    forall b | b in db'.subs ensures RowOk(db', b) {
      assert RowOk(db, b);
    }
  }

  lemma StepKeepsInv(s: State, e: Event, s': State)
    requires Inv(s) && Step(s, e, s')
    ensures Inv(s')
  {
    match e {
      case ClaimEvent(a, _, _) =>
        forall b | b in s'.db.subs ensures RowOk(s'.db, b) {
          if b != a {
            assert RowOk(s.db, b);
          }
        }
      case MarkEvent(_, a, f, _) => TransitionKeepsDb(s.db, a, Intent, Result(Submitting, None, NoFailure), f);
      case InvokeEvent(_, a, _, f, what, _) =>
        if Transition(s.db, a, Outcome, ResultOf(what), f).Some? {
          TransitionKeepsDb(s.db, a, Outcome, ResultOf(what), f);
        }
      case RecoverEvent(f) => RecoverKeepsDb(s.db, f);
      case LeaseEvent(_) =>
        forall b | b in s'.db.subs ensures RowOk(s'.db, b) {
          assert RowOk(s.db, b);
        }
      case PermitEvent(_, _) =>
        forall b | b in s'.db.subs ensures RowOk(s'.db, b) {
          assert RowOk(s.db, b);
        }
      case _ =>
    }
  }

  lemma {:induction false} RunKeepsInv(run: seq<State>, i: nat)
    requires IsRun(run) && i < |run|
    ensures Inv(run[i])
  {
    if i > 0 {
      RunKeepsInv(run, i - 1);
      assert StepAt(run, i);
      var e :| Step(run[i - 1], e, run[i]);
      StepKeepsInv(run[i - 1], e, run[i]);
    }
  }

  // ---------------------------------------------------------------------------------------
  // Refinement of the intent-marked send protocol

  function PhaseOf(row: Submission): A.Phase
  {
    if row.state == Submitting then A.Open
    else if row.failure == RestartBeforeSendIntent && row.intentAt.None? then A.ClosedUnsent
    else A.ClosedOther
  }

  ghost function Rows(db: Db): map<Attempt, A.Row>
  {
    map a | a in db.subs :: A.Row(db.subs[a].intentAt.Some?, PhaseOf(db.subs[a]))
  }

  ghost function Armed(tickets: set<(StoreId, Attempt)>): set<Attempt>
  {
    set t | t in tickets :: t.1
  }

  ghost function Abs(s: State): A.State<Attempt>
  {
    A.State(Rows(s.db), Armed(s.tickets), s.calls)
  }

  lemma BurnDisarms(s: State, t: (StoreId, Attempt))
    requires TicketsOk(s) && t in s.tickets
    ensures t.1 in Armed(s.tickets)
    ensures Armed(s.tickets - {t}) == Armed(s.tickets) - {t.1}
  {
    forall a | a in Armed(s.tickets) - {t.1} ensures a in Armed(s.tickets - {t}) {
      var u :| u in s.tickets && u.1 == a;
      assert u in s.tickets - {t};
    }
  }

  lemma MarkRefines(s: State, e: Event, s': State) returns (x: A.Event<Attempt>)
    requires DbOk(s.db) && e.MarkEvent? && Step(s, e, s')
    ensures A.Step(Abs(s), x, Abs(s'))
  {
    x := A.Mark(e.a, e.kept);
    assert RowOk(s.db, e.a);
    assert Rows(s'.db) == Rows(s.db)[e.a := A.Row(true, A.Open)];
    if e.kept {
      assert (e.store, e.a) in s'.tickets;
      forall a | a in Armed(s.tickets) ensures a in Armed(s'.tickets) {
        var u :| u in s.tickets && u.1 == a;
        assert u in s'.tickets;
      }
      assert Armed(s'.tickets) == Armed(s.tickets) + {e.a};
    }
  }

  lemma InvokeRefines(s: State, e: Event, s': State) returns (x: A.Event<Attempt>)
    requires Inv(s) && e.InvokeEvent? && InvokeStep(s, e, s')
    ensures A.Step(Abs(s), x, Abs(s'))
  {
    BurnDisarms(s, (e.store, e.a));
    if !MayInvoke(s.db, e.a, e.txHash, e.fence) {
      x := A.Disarm({e.a});
    } else {
      var r := Transition(s.db, e.a, Outcome, ResultOf(e.what), e.fence);
      var recorded := e.committed && r.Some?;
      if recorded {
        assert Rows(r.value) == Rows(s.db)[e.a := Rows(s.db)[e.a].(phase := A.ClosedOther)];
      }
      x := if e.what.Called? then A.Call(e.a, recorded) else if recorded then A.Reject(e.a) else A.Disarm({e.a});
    }
  }

  lemma RecoverRefines(db: Db, f: L.Fence) returns (unsent: set<Attempt>, ambiguous: set<Attempt>)
    requires Recover(db, f).Some?
    ensures forall a :: a in unsent ==> a in Rows(db) && Rows(db)[a] == A.Row(false, A.Open)
    ensures forall a :: a in ambiguous ==> a in Rows(db) && Rows(db)[a] == A.Row(true, A.Open)
    ensures Rows(Recover(db, f).value) == map a | a in Rows(db) ::
                                            if a in unsent then Rows(db)[a].(phase := A.ClosedUnsent)
                                            else if a in ambiguous then Rows(db)[a].(phase := A.ClosedOther)
                                            else Rows(db)[a]
  {
    var work := PendingSet(db, f);
    unsent := set a | a in work && db.subs[a].intentAt.None?;
    ambiguous := set a | a in work && db.subs[a].intentAt.Some?;
    assert forall a :: a in work ==> Recover(db, f).value.subs[a] == Recovered(db.subs[a]);
  }

  /** Every step of the MANUAL path is a step of the abstract protocol. */
  lemma StepRefinesIntentSend(s: State, e: Event, s': State) returns (x: A.Event<Attempt>)
    requires Inv(s) && Step(s, e, s')
    ensures A.Step(Abs(s), x, Abs(s'))
  {
    match e {
      case ClaimEvent(a, _, _) =>
        x := A.OpenRow(a);
        assert Rows(s'.db) == Rows(s.db)[a := A.Row(false, A.Open)];
      case MarkEvent(_, _, _, _) => x := MarkRefines(s, e, s');
      case InvokeEvent(_, _, _, _, _, _) => x := InvokeRefines(s, e, s');
      case RecoverEvent(f) =>
        var unsent, ambiguous := RecoverRefines(s.db, f);
        x := A.Recover(unsent, ambiguous);
      case DiscardEvent(store, a) =>
        x := if (store, a) in s.tickets then A.Disarm({a}) else A.Idle;
        if (store, a) in s.tickets {
          BurnDisarms(s, (store, a));
        } else {
          assert s'.tickets == s.tickets;
        }
      case ReopenEvent(store) =>
        x := A.Disarm(Armed(s.tickets) - Armed(s'.tickets));
        assert Armed(s'.tickets) <= Armed(s.tickets);
        assert Armed(s'.tickets) == Armed(s.tickets) - (Armed(s.tickets) - Armed(s'.tickets));
      case LeaseEvent(_) => x := A.Idle;
      case PermitEvent(_, _) => x := A.Idle;
    }
  }

  lemma RunGrows(run: seq<State>, e: Event, s: State)
    requires IsRun(run) && Step(run[|run| - 1], e, s)
    ensures IsRun(run + [s])
  {
    var run' := run + [s];
    forall i {:trigger StepAt(run', i)} | 0 < i < |run'| ensures StepAt(run', i) {
      if i < |run| {
        assert StepAt(run, i);
      } else {
        assert Next(run'[i - 1], run'[i]);
      }
    }
  }

  lemma RunStep(run: seq<State>, i: nat)
    requires IsRun(run) && 0 < i < |run|
    ensures A.Inv(Abs(run[i - 1])) ==> A.Inv(Abs(run[i]))
    ensures Abs(run[i - 1]).calls <= Abs(run[i]).calls
    ensures forall a :: a in Abs(run[i - 1]).rows && Abs(run[i - 1]).rows[a].phase != A.Open ==>
              a in Abs(run[i]).rows && Abs(run[i]).rows[a] == Abs(run[i - 1]).rows[a]
  {
    assert StepAt(run, i);
    var e :| Step(run[i - 1], e, run[i]);
    RunKeepsInv(run, i - 1);
    var x := StepRefinesIntentSend(run[i - 1], e, run[i]);
    if A.Inv(Abs(run[i - 1])) {
      A.StepKeepsInv(Abs(run[i - 1]), x, Abs(run[i]));
    }
    A.StepIsMonotone(Abs(run[i - 1]), x, Abs(run[i]));
  }

  lemma {:induction false} RunKeepsSendInv(run: seq<State>, i: nat)
    requires IsRun(run) && i < |run|
    ensures A.Inv(Abs(run[i]))
  {
    if i > 0 {
      RunKeepsSendInv(run, i - 1);
      RunStep(run, i);
    }
  }

  lemma {:induction false} RunKeepsUnsent(run: seq<State>, i: nat, j: nat, a: Attempt)
    requires IsRun(run) && i <= j < |run|
    requires a in Abs(run[i]).rows && Abs(run[i]).rows[a].phase == A.ClosedUnsent
    ensures a in Abs(run[j]).rows && Abs(run[j]).rows[a].phase == A.ClosedUnsent
    ensures run[i].calls <= run[j].calls
    decreases j - i
  {
    if i < j {
      RunKeepsUnsent(run, i, j - 1, a);
      RunStep(run, j);
      assert Abs(run[j - 1]).calls <= Abs(run[j]).calls;
    }
  }

  /** The transport callback runs at most once per submission, over all stores, restarts and
      lease epochs. */
  lemma CallbackRunsAtMostOnce(run: seq<State>, i: nat)
    requires IsRun(run) && i < |run|
    ensures forall m, n :: 0 <= m < n < |run[i].calls| ==> run[i].calls[m] != run[i].calls[n]
    ensures forall a :: a in run[i].calls ==> a in run[i].db.subs && a in run[i].db.intents
  {
    RunKeepsSendInv(run, i);
    RunKeepsInv(run, i);
    assert A.NoRepeat(Abs(run[i]).calls);
    forall a | a in run[i].calls ensures a in run[i].db.subs && a in run[i].db.intents {
      assert a in Abs(run[i]).rows && Abs(run[i]).rows[a].intent;
      assert RowOk(run[i].db, a);
    }
  }

  /** Whenever recovery writes known_unsent for a claim, the callback of that claim never ran
      before and never runs in any later state. */
  lemma RecoveryWritesUnsentOnlyIfNeverCalled(run: seq<State>, i: nat, j: nat, f: L.Fence, a: Attempt)
    requires IsRun(run) && 0 < i <= j < |run|
    requires Step(run[i - 1], RecoverEvent(f), run[i])
    requires a in PendingSet(run[i - 1].db, f) && run[i].db.subs[a].state == KnownUnsent
    ensures a !in run[j].calls
  {
    RunKeepsSendInv(run, j);
    assert Abs(run[i]).rows[a].phase == A.ClosedUnsent;
    RunKeepsUnsent(run, i, j, a);
    assert a !in Abs(run[j]).calls;
  }

  /** A transition row, once written, is never rewritten: one intent and one outcome per submission. */
  lemma TransitionsAreWrittenOnce(s: State, e: Event, s': State, a: Attempt)
    requires Step(s, e, s')
    ensures a in s.db.intents ==> a in s'.db.intents && s'.db.intents[a] == s.db.intents[a]
    ensures a in s.db.outcomes ==> a in s'.db.outcomes && s'.db.outcomes[a] == s.db.outcomes[a]
  {
    if e.RecoverEvent? && a in s.db.outcomes {
      RecoverKeepsOutcomes(s.db, e.fence, a);
    }
  }

  lemma RecoverKeepsOutcomes(db: Db, f: L.Fence, a: Attempt)
    requires Recover(db, f).Some? && a in db.outcomes
    ensures a in Recover(db, f).value.outcomes && Recover(db, f).value.outcomes[a] == db.outcomes[a]
  {
    assert forall b :: b in PendingSet(db, f) ==> b !in db.outcomes;
  }

  lemma StepKeepsUnclaimed(s: State, e: Event, s': State, a: Attempt)
    requires Step(s, e, s') && a in s.db.permits && s.db.permits[a] == Consumed && a !in s.db.bindings
    ensures a in s'.db.permits && s'.db.permits[a] == Consumed && a !in s'.db.bindings
  {
  }

  /** A permit consumed without a claim is never adopted: in no later state is there a claim of its
      attempt, a submission or a callback. */
  lemma {:induction false} ConsumedPermitIsNeverClaimed(run: seq<State>, i: nat, j: nat, a: Attempt)
    requires IsRun(run) && i <= j < |run|
    requires a in run[i].db.permits && run[i].db.permits[a] == Consumed && a !in run[i].db.bindings
    ensures a in run[j].db.permits && run[j].db.permits[a] == Consumed
    ensures a !in run[j].db.bindings && a !in run[j].db.subs && a !in run[j].calls
    decreases j - i
  {
    if i < j {
      ConsumedPermitIsNeverClaimed(run, i, j - 1, a);
      assert StepAt(run, j);
      var e :| Step(run[j - 1], e, run[j]);
      StepKeepsUnclaimed(run[j - 1], e, run[j], a);
    }
    assert Inv(run[j]) by {
      RunKeepsInv(run, j);
    }
    assert a in run[j].db.subs ==> RowOk(run[j].db, a);
    CallbackRunsAtMostOnce(run, j);
  }

  // ---------------------------------------------------------------------------------------
  // Refinement of the lease protocol

  lemma StepRefinesLeases(s: State, e: Event, s': State) returns (l: L.Event)
    requires Step(s, e, s')
    ensures L.Step(L.State(s.db.leases, s.fenced), l, L.State(s'.db.leases, s'.fenced))
  {
    match e {
      case ClaimEvent(_, _, f) => l := L.MutationEvent(f, false);
      case MarkEvent(_, _, f, _) => l := L.MutationEvent(f, false);
      case RecoverEvent(f) => l := L.MutationEvent(f, false);
      case InvokeEvent(_, _, _, f, _, _) =>
        l := if |s'.fenced| == |s.fenced| then L.IdleEvent else L.MutationEvent(f, false);
      case LeaseEvent(lease) => l := lease;
      case _ => l := L.IdleEvent;
    }
  }

  lemma {:induction false} RunKeepsLeaseInv(run: seq<State>, i: nat)
    requires IsRun(run) && i < |run|
    ensures L.Inv(L.State(run[i].db.leases, run[i].fenced))
  {
    if i > 0 {
      RunKeepsLeaseInv(run, i - 1);
      assert StepAt(run, i);
      var s, s' := run[i - 1], run[i];
      var e :| Step(s, e, s');
      var l := StepRefinesLeases(s, e, s');
      L.StepKeepsInv(L.State(s.db.leases, s.fenced), l, L.State(s'.db.leases, s'.fenced));
    }
  }

  /** Once a mutation under a later epoch has committed, the earlier claimant can neither mark an
      intent nor have its callback run. */
  lemma TakenOverClaimCannotInvoke(run: seq<State>, i: nat, n: nat, a: Attempt, txHash: Hash, f: L.Fence)
    requires IsRun(run) && i < |run| && n < |run[i].fenced|
    requires run[i].fenced[n].key == f.key && f.epoch < run[i].fenced[n].epoch
    ensures !MayInvoke(run[i].db, a, txHash, f) && MarkIntent(run[i].db, a, f) == None
  {
    RunKeepsLeaseInv(run, i);
  }
}
