/** The intent-marked send protocol in the abstract.

    A submission row is opened, gets a durable send intent, and only the process that wrote that
    intent may call the transport, once, while it still remembers having written it. Recovery
    closes open rows: without an intent as "never sent", with an intent as "ambiguous". Both the
    controlled worker and the MANUAL path are shown to be instances of this machine. */
module IntentSend {

  datatype Phase = Open | ClosedUnsent | ClosedOther

  datatype Row = Row(intent: bool, phase: Phase)

  /** `armed`: rows whose intent some live process wrote and has not used yet (volatile).
      `calls`: history of transport calls. */
  datatype State<Id> = State(rows: map<Id, Row>, armed: set<Id>, calls: seq<Id>)

  datatype Event<Id> =
    | OpenRow(id: Id)
    | Mark(id: Id, kept: bool)
    | Disarm(ids: set<Id>)
    | Call(id: Id, recorded: bool)
    | Reject(id: Id)
    | Recover(unsent: set<Id>, ambiguous: set<Id>)
    | Idle

  ghost predicate Init<Id>(s: State<Id>)
  {
    s.rows == map[] && s.armed == {} && s.calls == []
  }

  ghost predicate IsOpen<Id>(s: State<Id>, id: Id)
  {
    id in s.rows && s.rows[id].phase == Open
  }

  ghost predicate Step<Id>(s: State<Id>, e: Event<Id>, s': State<Id>)
  {
    match e
    case OpenRow(id) =>
      && id !in s.rows
      && s' == s.(rows := s.rows[id := Row(false, Open)])
    case Mark(id, kept) =>
      && IsOpen(s, id) && !s.rows[id].intent
      && s' == s.(rows := s.rows[id := Row(true, Open)], armed := if kept then s.armed + {id} else s.armed)
    case Disarm(ids) =>
      s' == s.(armed := s.armed - ids)
    case Call(id, recorded) =>
      && id in s.armed && IsOpen(s, id)
      && s'.armed == s.armed - {id}
      && s'.calls == s.calls + [id]
      && s'.rows == if recorded then s.rows[id := s.rows[id].(phase := ClosedOther)] else s.rows
    case Reject(id) =>
      && id in s.armed && IsOpen(s, id)
      && s' == s.(rows := s.rows[id := s.rows[id].(phase := ClosedOther)], armed := s.armed - {id})
    case Recover(unsent, ambiguous) =>
      && (forall id :: id in unsent ==> IsOpen(s, id) && !s.rows[id].intent)
      && (forall id :: id in ambiguous ==> IsOpen(s, id) && s.rows[id].intent)
      && s' == s.(rows := map id | id in s.rows ::
                            if id in unsent then s.rows[id].(phase := ClosedUnsent)
                            else if id in ambiguous then s.rows[id].(phase := ClosedOther)
                            else s.rows[id])
    case Idle => s' == s
  }

  ghost predicate NoRepeat<Id>(calls: seq<Id>)
  {
    forall i, j :: 0 <= i < j < |calls| ==> calls[i] != calls[j]
  }

  /** What the protocol is for: at most one transport call per row, only after its intent, and none
      at all for a row that recovery closed as never sent. */
  ghost predicate Inv<Id>(s: State<Id>)
  {
    && (forall id :: id in s.armed ==> id in s.rows && s.rows[id].intent && id !in s.calls)
    && (forall id :: id in s.calls ==> id in s.rows && s.rows[id].intent)
    && (forall id :: id in s.rows && s.rows[id].phase == ClosedUnsent ==> !s.rows[id].intent)
    && NoRepeat(s.calls)
  }

  lemma StepKeepsInv<Id>(s: State<Id>, e: Event<Id>, s': State<Id>)
    requires Inv(s) && Step(s, e, s')
    ensures Inv(s')
  {
    if e.Call? {
      assert s'.calls == s.calls + [e.id];
      assert e.id !in s.calls;
    }
  }

  /** Rows never lose their intent, and a closed row never changes again. */
  lemma StepIsMonotone<Id>(s: State<Id>, e: Event<Id>, s': State<Id>)
    requires Step(s, e, s')
    ensures forall id :: id in s.rows ==>
              && id in s'.rows
              && (s.rows[id].intent ==> s'.rows[id].intent)
              && (s.rows[id].phase != Open ==> s'.rows[id] == s.rows[id])
    ensures s.calls <= s'.calls
  {
  }
}
