/** What the receipt ledger does to the lane of one wallet, beside the steps that reserve, freeze and
    release it. Confirming a receipt idles the lane by wallet, whichever operation has it. */
module LedgerLanes {
  import opened Common

  type OpId = nat

  datatype LaneState = Idle | Taken | Frozen

  datatype Lane = Lane(state: LaneState, op: Option<OpId>)

  datatype Reservation = Reserved | ReservedFrozen | Settled | RevertedReleased | Released

  /** Where an operation is: being executed, unsent, confirmed, or confirmed once and reorganised. */
  datatype Progress = InFlight | Unsent | Canonical | Reorganised

  datatype Op = Op(progress: Progress, reservation: Reservation)

  datatype Db = Db(lane: Lane, ops: map<OpId, Op>)

  const EMPTY: Db := Db(Lane(Idle, None), map[])

  function Reserve(db: Db, op: OpId): Option<Db>
  {
    if op in db.ops || db.lane.state != Idle then None
    else Some(Db(Lane(Taken, Some(op)), db.ops[op := Op(InFlight, Reserved)]))
  }

  /** The worker freezes or releases an operation; the lane only if that operation has it. */
  function Freeze(db: Db, op: OpId): Option<Db>
  {
    if op !in db.ops || db.ops[op].progress != InFlight then None
    else Some(Db(if db.lane.op == Some(op) then db.lane.(state := Frozen) else db.lane,
                 db.ops[op := db.ops[op].(reservation := ReservedFrozen)]))
  }

  function Release(db: Db, op: OpId): Option<Db>
  {
    if op !in db.ops || db.ops[op].progress != InFlight then None
    else Some(Db(if db.lane.op == Some(op) then Lane(Idle, None) else db.lane, db.ops[op := Op(Unsent, Released)]))
  }

  /** The lane and reservation updates of CanonicalizeFenced. */
  function Canonicalize(db: Db, op: OpId, success: bool): Option<Db>
  {
    if op !in db.ops || db.ops[op].progress == Canonical || db.ops[op].progress == Unsent then None
    else Some(Db(Lane(Idle, None), db.ops[op := Op(Canonical, if success then Settled else RevertedReleased)]))
  }

  /** The lane and reservation updates of OrphanFenced: the lane is frozen, for this operation if it
      was idle, otherwise for whichever operation has it. */
  function Orphan(db: Db, op: OpId): Option<Db>
  {
    if op !in db.ops || db.ops[op].progress != Canonical then None
    else
      var mine := db.lane.state == Idle || db.lane.op == Some(op);
      Some(Db(if mine then Lane(Frozen, Some(op)) else db.lane.(state := Frozen),
              db.ops[op := Op(Reorganised, ReservedFrozen)]))
  }

  datatype Event =
    | ReserveEvent(op: OpId)
    | FreezeEvent(op: OpId)
    | ReleaseEvent(op: OpId)
    | CanonicalizeEvent(op: OpId, success: bool)
    | OrphanEvent(op: OpId)

  function Apply(db: Db, e: Event): Option<Db>
  {
    match e
    case ReserveEvent(op) => Reserve(db, op)
    case FreezeEvent(op) => Freeze(db, op)
    case ReleaseEvent(op) => Release(db, op)
    case CanonicalizeEvent(op, success) => Canonicalize(db, op, success)
    case OrphanEvent(op) => Orphan(db, op)
  }

  /** The states that a sequence of events leads through, each event being possible where it occurs. */
  ghost predicate IsRun(run: seq<Db>, events: seq<Event>)
  {
    && |run| == |events| + 1 && run[0] == EMPTY
    && forall i :: 0 <= i < |events| ==> Apply(run[i], events[i]) == Some(run[i + 1])
  }

  // ---------------------------------------------------------------------------------------
  // The life of an operation

  predicate Is(db: Db, o: OpId, progress: Progress)
  {
    o in db.ops && db.ops[o].progress == progress
  }

  /** An event is possible exactly for an operation that is where the event finds it: new, on an idle lane;
      in flight; in flight or reorganised; confirmed. */
  lemma AppliesExactlyWhen(db: Db, e: Event)
    ensures Apply(db, e).Some? <==>
              match e
              case ReserveEvent(op) => op !in db.ops && db.lane.state == Idle
              case FreezeEvent(op) => Is(db, op, InFlight)
              case ReleaseEvent(op) => Is(db, op, InFlight)
              case CanonicalizeEvent(op, _) => Is(db, op, InFlight) || Is(db, op, Reorganised)
              case OrphanEvent(op) => Is(db, op, Canonical)
  {
  }

  /** What a reservation says about its operation. */
  predicate IsReservedAs(o: Op)
  {
    match o.progress
    case InFlight => o.reservation == Reserved || o.reservation == ReservedFrozen
    case Unsent => o.reservation == Released
    case Canonical => o.reservation == Settled || o.reservation == RevertedReleased
    case Reorganised => o.reservation == ReservedFrozen
  }

  /** A step moves its own operation only: a confirmation settles a success and releases a revert, a
      reorganisation freezes the reservation again, and no other row changes. */
  lemma StepMovesItsOperation(db: Db, e: Event)
    requires Apply(db, e).Some?
    ensures var db' := Apply(db, e).value;
            && e.op in db'.ops && db'.ops == db.ops[e.op := db'.ops[e.op]]
            && (match e
                case ReserveEvent(_) => db'.ops[e.op] == Op(InFlight, Reserved)
                case FreezeEvent(_) => db'.ops[e.op] == Op(InFlight, ReservedFrozen)
                case ReleaseEvent(_) => db'.ops[e.op] == Op(Unsent, Released)
                case CanonicalizeEvent(_, success) =>
                  db'.ops[e.op].progress == Canonical && (db'.ops[e.op].reservation == Settled <==> success)
                case OrphanEvent(_) => db'.ops[e.op] == Op(Reorganised, ReservedFrozen))
  {
  }

  /** Where the lane is after a step: a reservation takes it; freezing and releasing touch it only for the
      operation that has it; a confirmation always idles it; a reorganisation always freezes it, for
      its own operation unless another one has it. */
  lemma StepMovesTheLane(db: Db, e: Event)
    requires Apply(db, e).Some? && (db.lane.state == Idle <==> db.lane.op == None)
    ensures var lane, lane' := db.lane, Apply(db, e).value.lane;
            match e
            case ReserveEvent(op) => lane' == Lane(Taken, Some(op))
            case FreezeEvent(op) => lane' == if lane.op == Some(op) then Lane(Frozen, Some(op)) else lane
            case ReleaseEvent(op) => lane' == if lane.op == Some(op) then Lane(Idle, None) else lane
            case CanonicalizeEvent(_, _) => lane' == Lane(Idle, None)
            case OrphanEvent(op) => lane' == Lane(Frozen, if lane.op.Some? then lane.op else Some(op))
  {
  }

  /** In every reachable state each reservation says where its operation is. */
  lemma {:induction false} ReservationsTell(run: seq<Db>, events: seq<Event>, i: nat, o: OpId)
    requires IsRun(run, events) && i < |run| && o in run[i].ops
    ensures IsReservedAs(run[i].ops[o])
  {
    if i > 0 {
      assert Apply(run[i - 1], events[i - 1]) == Some(run[i]);
      StepMovesItsOperation(run[i - 1], events[i - 1]);
      if o != events[i - 1].op {
        ReservationsTell(run, events, i - 1, o);
      }
    }
  }

  predicate IsInFlight(db: Db, op: OpId)
  {
    op in db.ops && db.ops[op].progress == InFlight
  }

  /** Every operation in flight has the wallet's lane; so at most one is in flight. */
  ghost predicate OwnLane(db: Db)
  {
    && (db.lane.state == Idle <==> db.lane.op.None?)
    && forall o: OpId :: IsInFlight(db, o) ==> db.lane.op == Some(o)
  }

  /** A reorganised operation is confirmed again while another one is in flight. */
  ghost predicate TakesOver(db: Db, e: Event)
  {
    && e.CanonicalizeEvent? && e.op in db.ops && db.ops[e.op].progress == Reorganised
    && exists o: OpId :: IsInFlight(db, o) && o != e.op
  }

  /** A step leaves every operation in flight its lane, unless it confirms a reorganised operation
      while another one is in flight; and then it never does. */
  lemma StepKeepsOwnLane(db: Db, e: Event)
    requires OwnLane(db) && Apply(db, e).Some?
    ensures OwnLane(Apply(db, e).value) <==> !TakesOver(db, e)
  {
    var db' := Apply(db, e).value;
    if TakesOver(db, e) {
      var o :| IsInFlight(db, o) && o != e.op;
      assert IsInFlight(db', o) && db'.lane.op.None?;
    } else {
      forall o: OpId | IsInFlight(db', o) ensures db'.lane.op == Some(o) {
        assert IsInFlight(db, o) || (e.ReserveEvent? && o == e.op);
        assert e.CanonicalizeEvent? && IsInFlight(db, e.op) ==> db.lane.op == Some(e.op);
      }
    }
  }

  /** Over every run: as long as no reorganised operation is confirmed while another one is in flight,
      each operation in flight has the lane, and it is the only one. */
  lemma {:induction false} LaneBelongsToTheOneInFlight(run: seq<Db>, events: seq<Event>, i: nat)
    requires IsRun(run, events) && i < |run|
    requires forall k :: 0 <= k < i ==> !TakesOver(run[k], events[k])
    ensures OwnLane(run[i])
    ensures forall o: OpId, p: OpId :: IsInFlight(run[i], o) && IsInFlight(run[i], p) ==> o == p
  {
    if i > 0 {
      LaneBelongsToTheOneInFlight(run, events, i - 1);
      assert Apply(run[i - 1], events[i - 1]) == Some(run[i]);
      StepKeepsOwnLane(run[i - 1], events[i - 1]);
    }
  }

  /** An operation confirmed, another one reserved, the first reorganised and confirmed again: the lane
      is idle while the second is in flight, and a third can take it. */
  lemma TakenOverExample() returns (run: seq<Db>, events: seq<Event>)
    ensures IsRun(run, events) && |events| == 6 && TakesOver(run[4], events[4])
    ensures IsInFlight(run[6], 1) && IsInFlight(run[6], 2) && run[6].lane.op == Some(2)
  {
    events := [ReserveEvent(0), CanonicalizeEvent(0, true), ReserveEvent(1), OrphanEvent(0), CanonicalizeEvent(0, true),
               ReserveEvent(2)];
    var flying, confirmed := Op(InFlight, Reserved), Op(Canonical, Settled);
    var reorganised := Op(Reorganised, ReservedFrozen);
    run := [EMPTY,
            Db(Lane(Taken, Some(0)), map[0 := flying]),
            Db(Lane(Idle, None), map[0 := confirmed]),
            Db(Lane(Taken, Some(1)), map[0 := confirmed, 1 := flying]),
            Db(Lane(Frozen, Some(1)), map[0 := reorganised, 1 := flying]),
            Db(Lane(Idle, None), map[0 := confirmed, 1 := flying]),
            Db(Lane(Taken, Some(2)), map[0 := confirmed, 1 := flying, 2 := flying])];
    assert run[1].ops[0 := confirmed] == run[2].ops && run[3].ops[0 := reorganised] == run[4].ops;
    assert run[4].ops[0 := confirmed] == run[5].ops;
    assert Apply(run[0], events[0]) == Some(run[1]);
    assert Apply(run[1], events[1]) == Some(run[2]);
    assert Apply(run[2], events[2]) == Some(run[3]);
    assert Apply(run[3], events[3]) == Some(run[4]);
    assert Apply(run[4], events[4]) == Some(run[5]);
    assert Apply(run[5], events[5]) == Some(run[6]);
    assert IsInFlight(run[4], 1);
  }

  // ---------------------------------------------------------------------------------------
  // A reorganised operation and its frozen lane

  /** A step leaves the lane with the operation that has it, if and only if it neither confirms a
      receipt, of whichever operation, nor releases that operation. */
  lemma LaneIsKeptExactlyWhen(db: Db, e: Event, o: OpId)
    requires Apply(db, e).Some? && db.lane.state != Idle && db.lane.op == Some(o)
    ensures Apply(db, e).value.lane.op == Some(o) <==> !e.CanonicalizeEvent? && e != ReleaseEvent(o)
  {
  }

  predicate HoldsFrozen(db: Db, o: OpId)
  {
    db.lane == Lane(Frozen, Some(o)) && o in db.ops && db.ops[o].progress == Reorganised
  }

  /** Over every run: a reorganised operation that holds the frozen lane keeps it up to a later state
      if and only if no operation is confirmed before that state, not even another one. */
  lemma {:induction false} ReorganisedKeepsItsLane(run: seq<Db>, events: seq<Event>, i: nat, j: nat, o: OpId)
    requires IsRun(run, events) && i <= j < |run| && HoldsFrozen(run[i], o)
    ensures (forall k :: i <= k <= j ==> HoldsFrozen(run[k], o)) <==>
              (forall k :: i <= k < j ==> !events[k].CanonicalizeEvent?)
    decreases j - i
  {
    if i < j {
      ReorganisedKeepsItsLane(run, events, i, j - 1, o);
      assert Apply(run[j - 1], events[j - 1]) == Some(run[j]);
      if HoldsFrozen(run[j - 1], o) {
        LaneIsKeptExactlyWhen(run[j - 1], events[j - 1], o);
      }
    }
  }

  /** Two confirmed operations are both reorganised; confirming the second again idles the lane that was
      frozen for the first. */
  lemma TwoReorganisedExample() returns (run: seq<Db>, events: seq<Event>)
    ensures IsRun(run, events) && |events| == 7
    ensures HoldsFrozen(run[6], 0) && events[6] == CanonicalizeEvent(1, true)
    ensures run[7].lane == Lane(Idle, None) && 0 in run[7].ops && run[7].ops[0].progress == Reorganised
  {
    events := [ReserveEvent(0), CanonicalizeEvent(0, true), ReserveEvent(1), CanonicalizeEvent(1, true),
               OrphanEvent(0), OrphanEvent(1), CanonicalizeEvent(1, true)];
    var flying, confirmed := Op(InFlight, Reserved), Op(Canonical, Settled);
    var reorganised := Op(Reorganised, ReservedFrozen);
    run := [EMPTY,
            Db(Lane(Taken, Some(0)), map[0 := flying]),
            Db(Lane(Idle, None), map[0 := confirmed]),
            Db(Lane(Taken, Some(1)), map[0 := confirmed, 1 := flying]),
            Db(Lane(Idle, None), map[0 := confirmed, 1 := confirmed]),
            Db(Lane(Frozen, Some(0)), map[0 := reorganised, 1 := confirmed]),
            Db(Lane(Frozen, Some(0)), map[0 := reorganised, 1 := reorganised]),
            Db(Lane(Idle, None), map[0 := reorganised, 1 := confirmed])];
    assert run[1].ops[0 := confirmed] == run[2].ops && run[3].ops[1 := confirmed] == run[4].ops;
    assert run[4].ops[0 := reorganised] == run[5].ops && run[5].ops[1 := reorganised] == run[6].ops;
    assert run[6].ops[1 := confirmed] == run[7].ops;
    assert Apply(run[0], events[0]) == Some(run[1]);
    assert Apply(run[1], events[1]) == Some(run[2]);
    assert Apply(run[2], events[2]) == Some(run[3]);
    assert Apply(run[3], events[3]) == Some(run[4]);
    assert Apply(run[4], events[4]) == Some(run[5]);
    assert Apply(run[5], events[5]) == Some(run[6]);
    assert Apply(run[6], events[6]) == Some(run[7]);
  }
}
