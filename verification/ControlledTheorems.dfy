/** What holds over every run of the controlled submission worker. */
module ControlledTheorems {
  import opened Common
  import opened Controlled
  import opened ControlledRuns
  import opened ControlledProofs
  import L = Leases
  import A = IntentSend

  // ---------------------------------------------------------------------------------------
  // Refinement of the intent-marked send protocol

  function PhaseOf(row: Submission): A.Phase
  {
    if row.state == Submitting then A.Open
    else if row.failure == RestartBeforeSendIntent then A.ClosedUnsent
    else A.ClosedOther
  }

  ghost function Rows(subs: Subs): map<SubId, A.Row>
  {
    map id | id in subs :: A.Row(subs[id].intentAt.Some?, PhaseOf(subs[id]))
  }

  ghost function Armed(flight: map<SubId, Flight>): set<SubId>
  {
    set id | id in flight && flight[id].marked
  }

  ghost function Abs(s: State): A.State<SubId>
  {
    A.State(Rows(s.db.subs), Armed(s.flight), s.calls)
  }

  ghost function StuckRows(db: Db, environment: L.Name, now: Time, intent: bool): set<SubId>
  {
    set id | id in db.subs && Stuck(db, id, environment, now) && db.subs[id].intentAt.Some? == intent
  }

  lemma BeginRefines(s: State, e: Event, s': State) returns (a: A.Event<SubId>)
    requires FlightOk(s.flight, s.db.subs) && e.BeginEvent? && BeginStep(s, e, s')
    ensures A.Step(Abs(s), a, Abs(s'))
  {
    var id := SubId(e.work.request.op, NextSequence(s.db.subs, e.work.request.op));
    a := A.OpenRow(id);
    NextSequenceIsFresh(s.db.subs, e.work.request.op);
    assert id in s.flight ==> InFlightOk(id, s.flight[id], s.db.subs);
    assert Armed(s'.flight) == Armed(s.flight);
    assert Rows(s'.db.subs) == Rows(s.db.subs)[id := A.Row(false, A.Open)];
  }

  lemma MarkRefines(s: State, e: Event, s': State) returns (a: A.Event<SubId>)
    requires e.MarkEvent? && MarkStep(s, e, s')
    ensures A.Step(Abs(s), a, Abs(s'))
  {
    a := A.Mark(e.id, e.kept);
    assert Armed(s'.flight) == if e.kept then Armed(s.flight) + {e.id} else Armed(s.flight);
    assert Rows(s'.db.subs) == Rows(s.db.subs)[e.id := A.Row(true, A.Open)];
  }

  lemma SendRefines(s: State, e: Event, s': State) returns (a: A.Event<SubId>)
    requires e.SendEvent? && SendStep(s, e, s')
    ensures A.Step(Abs(s), a, Abs(s'))
  {
    var r := SendEffect(s, e, s');
    a := SentRefines(s, e, s', r);
  }

  lemma SentRefines(s: State, e: Event, s': State, r: Sent) returns (a: A.Event<SubId>)
    requires e.SendEvent? && e.id in s.flight && s.flight[e.id].marked && s'.flight == s.flight - {e.id}
    requires s'.calls == if r.called then s.calls + [e.id] else s.calls
    requires r.called ==> e.id in s.db.subs && s.db.subs[e.id].state == Submitting
    requires if r.recorded then Recorded(s.db, e.id, s.flight[e.id].work.purpose, e.fence, r.state, r.failure, s'.db)
             else s'.db == s.db
    ensures A.Step(Abs(s), a, Abs(s'))
  {
    a := if r.called then A.Call(e.id, r.recorded) else if r.recorded then A.Reject(e.id) else A.Disarm({e.id});
    assert Armed(s'.flight) == Armed(s.flight) - {e.id};
    assert e.id in Armed(s.flight);
    if r.recorded {
      RecordedSubs(s.db, e.id, s.flight[e.id].work.purpose, e.fence, r.state, r.failure, s'.db);
      assert Rows(s'.db.subs) == Rows(s.db.subs)[e.id := Rows(s.db.subs)[e.id].(phase := A.ClosedOther)];
    }
  }

  lemma RecoverRefines(db: Db, db': Db, environment: L.Name, now: Time) returns (a: A.Event<SubId>)
    requires db'.subs == ClassifyStuck(db, environment, now)
    ensures forall armed, calls ::
              A.Step(A.State(Rows(db.subs), armed, calls), a, A.State(Rows(db'.subs), armed, calls))
  {
    a := A.Recover(StuckRows(db, environment, now, false), StuckRows(db, environment, now, true));
  }

  /** Every step of the controlled worker is a step of the abstract protocol. */
  lemma StepRefinesIntentSend(s: State, e: Event, s': State) returns (a: A.Event<SubId>)
    requires Inv(s) && Step(s, e, s')
    ensures A.Step(Abs(s), a, Abs(s'))
  {
    match e {
      case BeginEvent(_, _, _, _, _) => a := BeginRefines(s, e, s');
      case MarkEvent(_, _, _, _, _) => a := MarkRefines(s, e, s');
      case SendEvent(_, _, _, _, _, _) => a := SendRefines(s, e, s');
      case RecoverEvent(fence, now) => a := RecoverRefines(s.db, s'.db, fence.key.environment, now);
      case CrashEvent(lost) =>
        a := A.Disarm(lost);
        assert Armed(s.flight - lost) == Armed(s.flight) - lost;
      case _ =>
        a := A.Idle;
        assert s'.db.subs == s.db.subs && s'.flight == s.flight;
    }
  }

  /** The abstract invariant, and what each state keeps of the one before. */
  lemma RunStep(run: seq<State>, i: nat)
    requires IsRun(run) && 0 < i < |run|
    ensures A.Inv(Abs(run[i - 1])) ==> A.Inv(Abs(run[i]))
    ensures Extends(Abs(run[i - 1]), Abs(run[i]))
  {
    assert StepAt(run, i);
    var e :| Step(run[i - 1], e, run[i]);
    RunKeepsInv(run, i - 1);
    var a := StepRefinesIntentSend(run[i - 1], e, run[i]);
    if A.Inv(Abs(run[i - 1])) {
      A.StepKeepsInv(Abs(run[i - 1]), a, Abs(run[i]));
    }
    A.StepIsMonotone(Abs(run[i - 1]), a, Abs(run[i]));
  }

  lemma {:induction false} RunKeepsSendInv(run: seq<State>, i: nat)
    requires IsRun(run) && i < |run|
    ensures A.Inv(Abs(run[i]))
  {
    if i > 0 {
      RunKeepsSendInv(run, i - 1);
      RunStep(run, i);
    }
  }

  /** What a later state keeps of an earlier one: rows stay, closed rows are frozen history,
      intents and calls are never undone. */
  ghost predicate Extends(s: A.State<SubId>, s': A.State<SubId>)
  {
    && (forall id :: id in s.rows ==>
          && id in s'.rows
          && (s.rows[id].intent ==> s'.rows[id].intent)
          && (s.rows[id].phase != A.Open ==> s'.rows[id] == s.rows[id]))
    && s.calls <= s'.calls
  }

  lemma {:induction false} RunExtends(run: seq<State>, i: nat, j: nat)
    requires IsRun(run) && i <= j < |run|
    ensures Extends(Abs(run[i]), Abs(run[j]))
    decreases j - i
  {
    if i < j {
      RunExtends(run, i, j - 1);
      RunStep(run, j);
    }
  }

  /** Over every interleaving, no submission row is broadcast twice, and every broadcast row has
      a durable send intent. */
  lemma BroadcastAtMostOnce(run: seq<State>, i: nat)
    requires IsRun(run) && i < |run|
    ensures forall m, n :: 0 <= m < n < |run[i].calls| ==> run[i].calls[m] != run[i].calls[n]
    ensures forall id :: id in run[i].calls ==> id in run[i].db.subs && run[i].db.subs[id].intentAt.Some?
  {
    RunKeepsSendInv(run, i);
    assert A.NoRepeat(Abs(run[i]).calls);
    forall id | id in run[i].calls ensures id in run[i].db.subs && run[i].db.subs[id].intentAt.Some? {
      assert id in Abs(run[i]).calls && id in Abs(run[i]).rows && Abs(run[i]).rows[id].intent;
    }
  }

  /** A row that recovery classed restart_before_send_intent was never broadcast before and
      never is afterwards. */
  lemma RestartBeforeIntentMeansNeverBroadcast(run: seq<State>, i: nat, j: nat, id: SubId)
    requires IsRun(run) && i < |run| && j < |run|
    requires id in run[i].db.subs && run[i].db.subs[id].failure == RestartBeforeSendIntent
    ensures id !in run[j].calls
  {
    RunKeepsInv(run, i);
    assert RowOk(run[i].db.subs, run[i].db.attempts, id);
    assert Abs(run[i]).rows[id].phase == A.ClosedUnsent;
    RunKeepsSendInv(run, i);
    if j <= i {
      RunExtends(run, j, i);
      assert id !in Abs(run[i]).calls;
    } else {
      RunExtends(run, i, j);
      RunKeepsSendInv(run, j);
      assert Abs(run[j]).rows[id] == Abs(run[i]).rows[id];
      assert id !in Abs(run[j]).calls;
    }
  }

  // ---------------------------------------------------------------------------------------
  // Refinement of the lease protocol

  /** Every step is an acquisition, a renewal, one fenced mutation, or leaves the leases alone. */
  lemma StepRefinesLeases(s: State, e: Event, s': State) returns (l: L.Event)
    requires Step(s, e, s')
    ensures L.Step(L.State(s.db.leases, s.fenced), l, L.State(s'.db.leases, s'.fenced))
  {
    match e {
      case BeginEvent(_, _, fence, _, _) => l := L.MutationEvent(fence, true);
      case MarkEvent(_, _, fence, _, _) => l := L.MutationEvent(fence, true);
      case RecoverEvent(fence, _) => l := L.MutationEvent(fence, true);
      case SendEvent(id, _, fence, _, _, _) => l := SendRefinesLeases(s, e, s');
      case LeaseEvent(lease) => l := lease;
      case _ => l := L.IdleEvent;
    }
  }

  lemma SendRefinesLeases(s: State, e: Event, s': State) returns (l: L.Event)
    requires e.SendEvent? && SendStep(s, e, s')
    ensures L.Step(L.State(s.db.leases, s.fenced), l, L.State(s'.db.leases, s'.fenced))
  {
    var r := SendEffect(s, e, s');
    l := L.IdleEvent;
    if r.recorded {
      RecordedSubs(s.db, e.id, s.flight[e.id].work.purpose, e.fence, r.state, r.failure, s'.db);
      l := L.MutationEvent(e.fence, true);
    }
  }

  lemma {:induction false} RunKeepsLeaseInv(run: seq<State>, i: nat)
    requires IsRun(run) && i < |run|
    ensures L.Inv(L.State(run[i].db.leases, run[i].fenced))
  {
    if i > 0 {
      RunKeepsLeaseInv(run, i - 1);
      assert StepAt(run, i);
      var s, s' := run[i - 1], run[i];
      var e :| Step(s, e, s');
      var l := StepRefinesLeases(s, e, s');
      L.StepKeepsInv(L.State(s.db.leases, s.fenced), l, L.State(s'.db.leases, s'.fenced));
    }
  }

  /** Over every run of the worker, mutations committed under a later lease epoch come after
      all those committed under an earlier one. */
  lemma WorkerMutationsAreOrderedByEpoch(run: seq<State>, i: nat, m: nat, n: nat)
    requires IsRun(run) && i < |run| && m < |run[i].fenced| && n < |run[i].fenced|
    requires run[i].fenced[m].key == run[i].fenced[n].key
    requires run[i].fenced[m].epoch < run[i].fenced[n].epoch
    ensures m < n
  {
    RunKeepsLeaseInv(run, i);
    assert L.Ordered(run[i].fenced);
  }

  // ---------------------------------------------------------------------------------------
  // Ambiguity keeps everything frozen

  /** How one step may change the submissions: closed rows stay as they are, and a new row takes
      the next number of an attempt that has none yet or whose latest is broadcast_unknown. */
  ghost predicate RowsEvolve(subs: Subs, subs': Subs)
  {
    && (forall id :: id in subs ==> id in subs' && (subs[id].state != Submitting ==> subs'[id] == subs[id]))
    && (forall id :: id in subs' && id !in subs ==>
          && id.sequence == NextSequence(subs, id.op)
          && (LatestState(subs, id.op) == None || LatestState(subs, id.op) == Some(BroadcastUnknown)))
  }

  lemma BeginEvolvesRows(s: State, e: Event, s': State)
    requires e.BeginEvent? && BeginStep(s, e, s')
    ensures RowsEvolve(s.db.subs, s'.db.subs)
  {
    NextSequenceIsFresh(s.db.subs, e.work.request.op);
  }

  lemma StepEvolvesRows(s: State, e: Event, s': State)
    requires Step(s, e, s')
    ensures RowsEvolve(s.db.subs, s'.db.subs)
  {
    match e {
      case BeginEvent(_, _, _, _, _) => BeginEvolvesRows(s, e, s');
      case SendEvent(_, _, _, _, _, _) =>
        var r := SendEffect(s, e, s');
        if r.recorded {
          RecordedSubs(s.db, e.id, s.flight[e.id].work.purpose, e.fence, r.state, r.failure, s'.db);
        }
      case RecoverEvent(fence, now) =>
        assert s'.db.subs == ClassifyStuck(s.db, fence.key.environment, now);
      case _ =>
    }
  }

  lemma RunEvolvesRows(run: seq<State>, i: nat)
    requires IsRun(run) && 0 < i < |run|
    ensures RowsEvolve(run[i - 1].db.subs, run[i].db.subs)
  {
    assert StepAt(run, i);
    var e :| Step(run[i - 1], e, run[i]);
    StepEvolvesRows(run[i - 1], e, run[i]);
  }

  lemma {:induction false} RunKeepsClosedRows(run: seq<State>, i: nat, j: nat, id: SubId)
    requires IsRun(run) && i <= j < |run|
    requires id in run[i].db.subs && run[i].db.subs[id].state != Submitting
    ensures id in run[j].db.subs && run[j].db.subs[id] == run[i].db.subs[id]
    decreases j - i
  {
    if i < j {
      RunKeepsClosedRows(run, i, j - 1, id);
      RunEvolvesRows(run, j);
    }
  }

  /** Once any submission of an attempt is broadcast_unknown, its wallet lane, execution
      reservation and risk reservation are frozen for that operation in every later state. */
  lemma UnknownStaysFrozen(run: seq<State>, i: nat, j: nat, id: SubId)
    requires IsRun(run) && i <= j < |run|
    requires id in run[i].db.subs && run[i].db.subs[id].state == BroadcastUnknown
    ensures FrozenFor(run[j].db, id.op)
  {
    RunKeepsClosedRows(run, i, j, id);
    RunKeepsInv(run, j);
    UnknownMeansFirstUnknown(run[j].db.subs, run[j].db.attempts, id);
    assert HoldOk(run[j].db.subs[SubId(id.op, 0)].state, HoldOf(run[j].db, id.op));
  }

  /** A submitted operation gives up its lane exactly when its first broadcast is known_unsent,
      and then that is its only submission. */
  lemma LaneIsGivenUpOnlyWhenSoleSubmissionIsUnsent(run: seq<State>, i: nat, op: OpId)
    requires IsRun(run) && i < |run| && SubId(op, 0) in run[i].db.subs
    ensures op in run[i].db.attempts
    ensures LaneHas(run[i].db.lanes, run[i].db.attempts[op].wallet, op) <==>
              run[i].db.subs[SubId(op, 0)].state != KnownUnsent
    ensures run[i].db.subs[SubId(op, 0)].state == KnownUnsent ==> Sequences(run[i].db.subs, op) == {0}
  {
    RunKeepsInv(run, i);
    var db := run[i].db;
    var first := SubId(op, 0);
    assert RowOk(db.subs, db.attempts, first);
    assert HoldOk(db.subs[first].state, HoldOf(db, first.op));
    if db.subs[first].state == KnownUnsent {
      forall n | n in Sequences(db.subs, op) ensures n == 0 {
        RowsAreNumbered(db.subs, db.attempts, SubId(op, n), 0);
      }
    }
  }

  lemma RecordedIdlesOnlySubmitted(db: Db, id: SubId, purpose: Purpose, fence: L.Fence, state: SubState,
                                   failure: Failure, db': Db, wallet: WalletId, op: OpId)
    requires Recorded(db, id, purpose, fence, state, failure, db')
    requires LaneHas(db.lanes, wallet, op) && !LaneHas(db'.lanes, wallet, op)
    ensures id.op == op
  {
  }

  lemma SendIdlesOnlySubmitted(s: State, e: Event, s': State, wallet: WalletId, op: OpId)
    requires e.SendEvent? && SendStep(s, e, s')
    requires LaneHas(s.db.lanes, wallet, op) && !LaneHas(s'.db.lanes, wallet, op)
    ensures e.id in s.db.subs && e.id.op == op
    ensures s'.db.subs.Keys == s.db.subs.Keys && s'.db.attempts.Keys == s.db.attempts.Keys
    ensures forall o :: o in s.db.attempts ==> s'.db.attempts[o].wallet == s.db.attempts[o].wallet
  {
    var r := SendEffect(s, e, s');
    RecordedSubs(s.db, e.id, s.flight[e.id].work.purpose, e.fence, r.state, r.failure, s'.db);
    RecordedIdlesOnlySubmitted(s.db, e.id, s.flight[e.id].work.purpose, e.fence, r.state, r.failure, s'.db, wallet, op);
  }

  lemma RecoverIdlesOnlySubmitted(db: Db, fence: L.Fence, now: Time, wallet: WalletId, op: OpId)
    requires RecoverInflight(db, fence, now).Commit?
    requires LaneHas(db.lanes, wallet, op) && !LaneHas(RecoverInflight(db, fence, now).db.lanes, wallet, op)
    ensures SubId(op, 0) in RecoverInflight(db, fence, now).db.subs
  {
    var subs := ClassifyStuck(db, fence.key.environment, now);
    assert op in FirstUnsentOps(subs);
    var id :| id in subs && subs[id].failure == RestartBeforeSendIntent && id.sequence == 0 && id.op == op;
    assert id == SubId(op, 0);
  }

  lemma StepIdlesOnlySubmitted(s: State, e: Event, s': State, wallet: WalletId, op: OpId)
    requires Inv(s) && Step(s, e, s')
    requires LaneHas(s.db.lanes, wallet, op) && !LaneHas(s'.db.lanes, wallet, op)
    ensures SubId(op, 0) in s'.db.subs
    ensures op in s'.db.attempts && s'.db.attempts[op].wallet == wallet
  {
    assert LaneOk(s.db.lanes[wallet], wallet, s.db.attempts);
    OnlySendAndRecoverIdle(s, e, s', wallet, op);
    if e.SendEvent? {
      SendIdlesOnlySubmitted(s, e, s', wallet, op);
      RowsAreNumbered(s.db.subs, s.db.attempts, e.id, 0);
    } else {
      RecoverIdlesOnlySubmitted(s.db, e.fence, e.now, wallet, op);
    }
  }

  lemma OnlySendAndRecoverIdle(s: State, e: Event, s': State, wallet: WalletId, op: OpId)
    requires LanesOk(s.db.lanes, s.db.attempts) && Step(s, e, s')
    requires LaneHas(s.db.lanes, wallet, op) && !LaneHas(s'.db.lanes, wallet, op)
    ensures e.SendEvent? || e.RecoverEvent?
  {
    assert LaneOk(s.db.lanes[wallet], wallet, s.db.attempts);
  }

  /** Whichever step takes a wallet lane away from an operation leaves that operation with one
      submission, a first broadcast recorded known_unsent. */
  lemma LaneIsTakenAwayOnlyFromUnsent(run: seq<State>, i: nat, wallet: WalletId, op: OpId)
    requires IsRun(run) && 0 < i < |run|
    requires LaneHas(run[i - 1].db.lanes, wallet, op) && !LaneHas(run[i].db.lanes, wallet, op)
    ensures Sequences(run[i].db.subs, op) == {0}
    ensures SubId(op, 0) in run[i].db.subs && run[i].db.subs[SubId(op, 0)].state == KnownUnsent
  {
    RunKeepsInv(run, i - 1);
    assert StepAt(run, i);
    var e :| Step(run[i - 1], e, run[i]);
    StepIdlesOnlySubmitted(run[i - 1], e, run[i], wallet, op);
    LaneIsGivenUpOnlyWhenSoleSubmissionIsUnsent(run, i, op);
  }

  // ---------------------------------------------------------------------------------------
  // Numbering

  lemma {:induction false} Interval(s: set<nat>, n: nat)
    requires forall k: nat :: k in s <==> k < n
    ensures |s| == n
  {
    if n > 0 {
      Interval(s - {n - 1}, n - 1);
    } else {
      assert s == {};
    }
  }

  /** In every reachable state an attempt's submissions are numbered 0..n-1 where n is the number
      of permits consumed for it; all but the last are broadcast_unknown, so only the last may
      be submitting. */
  lemma SubmissionsAreNumbered(run: seq<State>, i: nat, op: OpId)
    requires IsRun(run) && i < |run|
    ensures var n := |ConsumedPermits(run[i].db.permits, op)|;
            && (forall k: nat :: SubId(op, k) in run[i].db.subs <==> k < n)
            && (forall k: nat :: k + 1 < n ==> run[i].db.subs[SubId(op, k)].state == BroadcastUnknown)
  {
    RunKeepsInv(run, i);
    var subs, attempts := run[i].db.subs, run[i].db.attempts;
    var n := NextSequence(subs, op);
    NextSequenceIsFresh(subs, op);
    forall k: nat ensures SubId(op, k) in subs <==> k < n {
      if k < n {
        RowsAreNumbered(subs, attempts, SubId(op, n - 1), k);
      } else {
        assert SubId(op, k) in subs ==> k in Sequences(subs, op);
      }
    }
    forall k: nat ensures k in Sequences(subs, op) <==> k < n {
      assert k < n ==> SubId(op, k) in subs;
    }
    Interval(Sequences(subs, op), n);
    assert |ConsumedPermits(run[i].db.permits, op)| == |Sequences(subs, op)|;
    forall k: nat | k + 1 < n ensures subs[SubId(op, k)].state == BroadcastUnknown {
      RowsAreNumbered(subs, attempts, SubId(op, n - 1), k);
    }
  }

  // ---------------------------------------------------------------------------------------
  // When the broadcaster may be called

  /** A step that calls the broadcaster does so once, under a held lease, with every control
      passing at that instant, a consumed permit, and an open row whose intent is durable. */
  lemma CallNeedsEveryControl(s: State, e: Event, s': State)
    requires Inv(s) && Step(s, e, s') && s'.calls != s.calls
    ensures e.SendEvent? && e.id in s.flight && s'.calls == s.calls + [e.id]
    ensures CallAllowed(s.db, s.flight[e.id].work, e.revision, e.id, e.fence, e.now)
    ensures s.db.subs[e.id].intentAt.Some?
  {
    assert e.SendEvent?;
    var r := SendEffect(s, e, s');
    assert InFlightOk(e.id, s.flight[e.id], s.db.subs);
  }

  /** The controls in one conjunction, without the order in which they are checked. */
  predicate ControlsAllow(db: Db, revision: nat, r: Request, now: Time)
  {
    && db.control == Some(Control(false, true, r.policy, revision)) && r.chain == CHAIN_ID
    && r.auth in db.auths && db.auths[r.auth].state.Armed? && db.auths[r.auth].epoch == r.authEpoch
    && now < db.auths[r.auth].expiresAt
    && db.auths[r.auth].wallet == r.wallet && db.auths[r.auth].policy == r.policy
    && db.auths[r.auth].deployment == r.deployment
    && r.op in db.risks && db.risks[r.op].wallet == r.wallet && db.risks[r.op].policy == r.policy
    && now < db.risks[r.op].expiresAt
    && (db.risks[r.op].state == RiskReserved || db.risks[r.op].state == RiskFrozen)
  }

  /** A new submission row appears only in a begin step, numbered next, and only under a held lease,
      with every control allowing it, exactly three passed gates, an issued unexpired permit that
      this step consumes, and the lane in the state the purpose asks for. */
  lemma NewRowNeedsEveryGate(s: State, e: Event, s': State, id: SubId)
    requires Step(s, e, s') && id in s'.db.subs && id !in s.db.subs
    ensures e.BeginEvent? && id == SubId(e.work.request.op, NextSequence(s.db.subs, e.work.request.op))
    ensures L.Holds(s.db.leases, e.fence) && ControlsAllow(s.db, e.revision, e.work.request, e.now)
    ensures GateChainComplete(s.db, e.work.request) && PermitConsumable(s.db, e.work, e.now)
    ensures s'.db.permits[e.work.permit].state == Consumed
    ensures LaneHas(s.db.lanes, e.work.request.wallet, id.op)
    ensures s.db.lanes[e.work.request.wallet].state ==
              if e.work.purpose == FirstBroadcast then LaneSigned else LaneFrozen
  {
    if e.SendEvent? {
      var r := SendEffect(s, e, s');
      if r.recorded {
        RecordedSubs(s.db, e.id, s.flight[e.id].work.purpose, e.fence, r.state, r.failure, s'.db);
      }
      assert false;
    }
    assert e.BeginEvent?;
  }

  /** A step keeps a permit's identity; it is consumed only by a begin before its expiry and expired
      only by the expiry pass at or after it; both are final. */
  lemma PermitIsSpentOnce(s: State, e: Event, s': State, p: PermitId)
    requires Step(s, e, s') && p in s.db.permits
    ensures p in s'.db.permits && s'.db.permits[p] == s.db.permits[p].(state := s'.db.permits[p].state)
    ensures s.db.permits[p].state != Issued ==> s'.db.permits[p] == s.db.permits[p]
    ensures s.db.permits[p].state == Issued && s'.db.permits[p].state == Consumed ==>
              e.BeginEvent? && e.work.permit == p && e.now < s.db.permits[p].expiresAt
    ensures s.db.permits[p].state == Issued && s'.db.permits[p].state == Expired ==>
              e.ExpireEvent? && s.db.permits[p].expiresAt <= e.now
  {
    if e.SendEvent? {
      var r := SendEffect(s, e, s');
      if r.recorded {
        RecordedPermits(s.db, e.id, s.flight[e.id].work.purpose, e.fence, r.state, r.failure, s'.db);
      }
    }
  }

  predicate Rivals(p: Permit, q: Permit)
  {
    && p.op == q.op && p.purpose == q.purpose
    && (p.purpose == FirstBroadcast || (p.state == Issued && q.state == Issued))
  }

  /** At most one first-broadcast permit per operation, and at most one issued replay permit. */
  ghost predicate PermitsUnique(permits: map<PermitId, Permit>)
  {
    forall p, q :: p in permits && q in permits && Rivals(permits[p], permits[q]) ==> p == q
  }

  lemma StepKeepsPermitsUnique(s: State, e: Event, s': State)
    requires PermitsUnique(s.db.permits) && Step(s, e, s')
    ensures PermitsUnique(s'.db.permits)
  {
    forall p | p in s.db.permits
      ensures p in s'.db.permits && s'.db.permits[p] == s.db.permits[p].(state := s'.db.permits[p].state)
      ensures s.db.permits[p].state != Issued ==> s'.db.permits[p] == s.db.permits[p]
    {
      PermitIsSpentOnce(s, e, s', p);
    }
    NewPermitIsIssued(s, e, s');
  }

  lemma NewPermitIsIssued(s: State, e: Event, s': State)
    requires Step(s, e, s')
    ensures forall p :: p in s'.db.permits && p !in s.db.permits ==> e.IssueEvent? && p == e.permitId
  {
    if e.SendEvent? {
      var r := SendEffect(s, e, s');
      if r.recorded {
        RecordedPermits(s.db, e.id, s.flight[e.id].work.purpose, e.fence, r.state, r.failure, s'.db);
      }
    }
  }

  lemma {:induction false} PermitsStayUnique(run: seq<State>, i: nat)
    requires IsRun(run) && i < |run|
    ensures PermitsUnique(run[i].db.permits)
  {
    if i > 0 {
      PermitsStayUnique(run, i - 1);
      assert StepAt(run, i);
      var e :| Step(run[i - 1], e, run[i]);
      StepKeepsPermitsUnique(run[i - 1], e, run[i]);
    }
  }

  lemma RecordedPermits(db: Db, id: SubId, purpose: Purpose, fence: L.Fence, state: SubState, failure: Failure, db': Db)
    requires Recorded(db, id, purpose, fence, state, failure, db')
    ensures db'.permits == db.permits
  {
  }

  lemma StoppedStepDoesNotCall(s: State, e: Event, s': State)
    requires Inv(s) && Step(s, e, s') && s.db.control.Some? && s.db.control.value.stopped
    ensures s'.calls == s.calls
  {
    if s'.calls != s.calls {
      CallNeedsEveryControl(s, e, s');
      assert false;
    }
  }

  ghost predicate StoppedBetween(run: seq<State>, i: nat, j: nat)
    requires j < |run|
  {
    forall k :: i <= k < j ==> run[k].db.control.Some? && run[k].db.control.value.stopped
  }

  /** While the emergency stop is set nothing is broadcast, however the steps interleave. */
  lemma {:induction false} EmergencyStopSilencesTheWorker(run: seq<State>, i: nat, j: nat)
    requires IsRun(run) && i <= j < |run| && StoppedBetween(run, i, j)
    ensures run[j].calls == run[i].calls
    decreases j - i
  {
    if i < j {
      EmergencyStopSilencesTheWorker(run, i, j - 1);
      assert StepAt(run, j);
      var e :| Step(run[j - 1], e, run[j]);
      RunKeepsInv(run, j - 1);
      StoppedStepDoesNotCall(run[j - 1], e, run[j]);
    }
  }

  // ---------------------------------------------------------------------------------------
  // What an answer does

  lemma FinishHold(db: Db, id: SubId, state: SubState, failure: Failure, purpose: Purpose)
    requires Finish(db, id, state, failure, purpose).Commit?
    ensures id.op in db.attempts
    ensures HoldOf(Finish(db, id, state, failure, purpose).db, id.op) ==
              if MustFreeze(state, purpose) then FreezeHold(HoldOf(db, id.op))
              else if state == KnownUnsent then ReleaseHold(HoldOf(db, id.op))
              else HoldOf(db, id.op)
  {
    var recorded := db.(subs := db.subs[id := db.subs[id].(state := state, failure := failure)]);
    assert HoldOf(recorded, id.op) == HoldOf(db, id.op);
    FreezeOpHold(recorded, id.op, id.op);
    ReleaseOpHold(recorded, id.op, id.op);
  }

  /** The recorded answer decides lane and reservations: acceptance of the right hash leaves them,
      a wrong hash or an ambiguous answer freezes them, a refusal releases a first broadcast and
      keeps a replay frozen. */
  lemma AnswerDecidesHold(db: Db, id: SubId, purpose: Purpose, fence: L.Fence, response: Response)
    requires DbOk(db) && L.Holds(db.leases, fence) && RecordResponse(db, id, purpose, fence, response).Commit?
    requires purpose == FirstBroadcast <==> id.sequence == 0
    ensures var db' := RecordResponse(db, id, purpose, fence, response).db;
            var hold := HoldOf(db', id.op);
            match response
            case Accepted(hash) =>
              if hash == db.attempts[id.op].txHash then db'.subs[id].state == Submitted && hold == HoldOf(db, id.op)
              else db'.subs[id].state == ManualResolution && hold == FROZEN
            case TransportError => db'.subs[id].state == BroadcastUnknown && hold == FROZEN
            case Refused =>
              && db'.subs[id].state == KnownUnsent
              && (if purpose == FirstBroadcast then !hold.lane && hold.reservation == Some(ResReleased)
                  else hold == FROZEN)
  {
    var touched := db.(leases := L.Touch(db.leases, fence));
    var outcome := Classify(db, id, response);
    assert HoldOf(touched, id.op) == HoldOf(db, id.op);
    FinishHold(touched, id, outcome.0, outcome.1, purpose);
    HoldWhileOpen(db, id);
  }
}
