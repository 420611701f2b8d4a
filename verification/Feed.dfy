/** The feed store: deduplicated events, their outbox offsets, sequencer progress and reorg
    compensation. The outbox row of an event has the event's offset, so one sequence of rows
    models both tables. */
module Feed {
  import opened Common

  type TxHash = nat

  datatype Source = Sequencer | Rpc

  datatype Path = IntentPath(n: nat) | ReorgPath(sequence: nat, offset: nat) | OtherPath(n: nat)

  /** Observation.ID is a hash of these parts; the sequence is not one of them. */
  datatype ObsId = ObsId(source: Source, tx: TxHash, path: Path)

  datatype Payload = TransactionIntent(body: nat) | Retraction(original: ObsId) | OtherPayload(body: nat)

  datatype Observation = Observation(source: Source, sequence: nat, tx: TxHash, path: Path, payload: Payload)

  function IdOf(o: Observation): ObsId
  {
    ObsId(o.source, o.tx, o.path)
  }

  datatype Row = Row(offset: nat, obs: Observation, orphaned: bool)

  /** `counter` is the table's AUTOINCREMENT counter: an ignored insert consumes a number too. */
  datatype Db = Db(rows: seq<Row>, counter: nat, observed: Option<nat>, durable: nat, degraded: bool)

  const EMPTY: Db := Db([], 0, None, 0, false)

  predicate HasId(rows: seq<Row>, id: ObsId)
  {
    exists i :: 0 <= i < |rows| && IdOf(rows[i].obs) == id
  }

  /** INSERT … ON CONFLICT(observation_id) DO NOTHING, and the outbox row. */
  function Insert(db: Db, o: Observation): Db
  {
    if HasId(db.rows, IdOf(o)) then db.(counter := db.counter + 1)
    else db.(counter := db.counter + 1, rows := db.rows + [Row(db.counter + 1, o, false)])
  }

  function InsertAll(db: Db, os: seq<Observation>): Db
  {
    if os == [] then db else Insert(InsertAll(db, os[..|os| - 1]), os[|os| - 1])
  }

  function LastOffset(rows: seq<Row>): nat
  {
    if rows == [] then 0 else rows[|rows| - 1].offset
  }

  /** The offset progress is raised to: that of the last inserted row, if any was inserted. */
  function Advance(before: Db, after: Db): Db
  {
    var raised := if |after.rows| > |before.rows| then Max(before.durable, LastOffset(after.rows)) else before.durable;
    after.(durable := raised)
  }

  /** commit, for CommitSequencer (with a sequence) and CommitReceipt (without). */
  function Commit(db: Db, os: seq<Observation>, sequence: Option<nat>): Db
  {
    var inserted := Advance(db, InsertAll(db, os));
    if sequence.None? then inserted
    else inserted.(observed := if db.observed.None? then sequence else Some(Max(db.observed.value, sequence.value)))
  }

  predicate IsCandidate(r: Row, sequence: nat)
  {
    r.obs.source == Sequencer && r.obs.sequence == sequence && !r.orphaned && r.obs.path.IntentPath?
  }

  function Compensation(r: Row, sequence: nat): Observation
  {
    Observation(Sequencer, sequence, r.obs.tx, ReorgPath(sequence, r.offset), Retraction(IdOf(r.obs)))
  }

  /** The compensations of all candidates among the rows, in offset order. */
  function Compensations(rows: seq<Row>, sequence: nat): seq<Observation>
  {
    if rows == [] then []
    else
      var before := Compensations(rows[..|rows| - 1], sequence);
      var last := rows[|rows| - 1];
      if IsCandidate(last, sequence) then before + [Compensation(last, sequence)] else before
  }

  function MarkOrphaned(rows: seq<Row>, sequence: nat): seq<Row>
  {
    seq(|rows|, i requires 0 <= i < |rows| =>
        if IsCandidate(rows[i], sequence) then rows[i].(orphaned := true) else rows[i])
  }

  /** RetractSequencerSequence. Progress is pulled back to the reorganised sequence. */
  function Retract(db: Db, sequence: nat): Db
  {
    var marked := db.(rows := MarkOrphaned(db.rows, sequence));
    var inserted := Advance(db, InsertAll(marked, Compensations(db.rows, sequence)));
    inserted.(observed := if db.observed.None? || db.observed.value > sequence then Some(sequence) else db.observed,
              degraded := true)
  }

  /** ResumeSequence: one full sequence back; the client then delivers everything after it. */
  function Resume(observed: Option<nat>): Option<nat>
  {
    if observed.None? then None else Some(if observed.value > 0 then observed.value - 1 else 0)
  }

  // ---------------------------------------------------------------------------------------
  // Table invariant

  ghost predicate OffsetsOk(db: Db)
  {
    && (forall i, j :: 0 <= i < j < |db.rows| ==> db.rows[i].offset < db.rows[j].offset)
    && (forall i :: 0 <= i < |db.rows| ==> 0 < db.rows[i].offset <= db.counter)
  }

  ghost predicate IdsOk(rows: seq<Row>)
  {
    forall i, j :: 0 <= i < j < |rows| ==> IdOf(rows[i].obs) != IdOf(rows[j].obs)
  }

  /** The row that a retraction compensates. */
  predicate Compensates(o: Observation, r: Row)
  {
    r.orphaned && o.payload == Retraction(IdOf(r.obs)) && o.path.ReorgPath? && o.path.offset == r.offset
  }

  ghost predicate Backed(rows: seq<Row>, o: Observation)
  {
    exists i :: 0 <= i < |rows| && Compensates(o, rows[i])
  }

  /** A retraction comes after the orphaned observation it names, and a reorg path is a
      retraction's. */
  ghost predicate RetractionsOk(rows: seq<Row>)
  {
    forall j {:trigger Backed(rows[..j], rows[j].obs)} :: 0 <= j < |rows| ==>
      Parsed(rows[j].obs) || Backed(rows[..j], rows[j].obs)
  }

  /** What the parser produces: it never makes up a retraction. */
  predicate Parsed(o: Observation)
  {
    !o.payload.Retraction? && !o.path.ReorgPath?
  }

  ghost predicate Valid(db: Db)
  {
    RowsOk(db) && db.durable == LastOffset(db.rows)
  }

  ghost predicate RowsOk(db: Db)
  {
    OffsetsOk(db) && IdsOk(db.rows) && RetractionsOk(db.rows)
  }

  lemma InsertKeepsRetractions(rows: seq<Row>, r: Row)
    requires RetractionsOk(rows) && (Parsed(r.obs) || Backed(rows, r.obs))
    ensures RetractionsOk(rows + [r])
  {
    var rows' := rows + [r];
    forall j {:trigger Backed(rows'[..j], rows'[j].obs)} | 0 <= j < |rows'|
      ensures Parsed(rows'[j].obs) || Backed(rows'[..j], rows'[j].obs)
    {
      if j < |rows| {
        assert rows'[..j] == rows[..j] && rows'[j] == rows[j];
        assert Parsed(rows[j].obs) || Backed(rows[..j], rows[j].obs);
      } else {
        assert rows'[..j] == rows;
      }
    }
  }

  lemma InsertKeepsRows(db: Db, o: Observation)
    requires RowsOk(db) && (Parsed(o) || Backed(db.rows, o))
    ensures RowsOk(Insert(db, o)) && db.rows <= Insert(db, o).rows && HasId(Insert(db, o).rows, IdOf(o))
  {
    if !HasId(db.rows, IdOf(o)) {
      InsertKeepsRetractions(db.rows, Row(db.counter + 1, o, false));
      assert IdOf(Insert(db, o).rows[|db.rows|].obs) == IdOf(o);
    }
  }

  lemma BackedMonotone(rows: seq<Row>, rows': seq<Row>, o: Observation)
    requires rows <= rows' && Backed(rows, o)
    ensures Backed(rows', o)
  {
    var i :| 0 <= i < |rows| && Compensates(o, rows[i]);
    assert rows'[i] == rows[i];
  }

  lemma {:induction false} InsertAllKeepsRows(db: Db, os: seq<Observation>)
    requires RowsOk(db) && forall o :: o in os ==> Parsed(o) || Backed(db.rows, o)
    ensures RowsOk(InsertAll(db, os)) && db.rows <= InsertAll(db, os).rows
  {
    if os != [] {
      var init, last := os[..|os| - 1], os[|os| - 1];
      assert last in os && forall o :: o in init ==> o in os;
      InsertAllKeepsRows(db, init);
      var mid := InsertAll(db, init);
      if Backed(db.rows, last) {
        BackedMonotone(db.rows, mid.rows, last);
      }
      InsertKeepsRows(mid, last);
    }
  }

  lemma {:induction false} InsertAllHasIds(db: Db, os: seq<Observation>, o: Observation)
    requires o in os
    ensures HasId(InsertAll(db, os).rows, IdOf(o))
  {
    var init, last := os[..|os| - 1], os[|os| - 1];
    assert os == init + [last];
    var mid := InsertAll(db, init);
    if o in init {
      InsertAllHasIds(db, init, o);
      HasIdMonotone(mid.rows, Insert(mid, last).rows);
    } else if !HasId(mid.rows, IdOf(o)) {
      assert IdOf(Insert(mid, last).rows[|mid.rows|].obs) == IdOf(o);
    }
  }

  lemma {:induction false} InsertAllKeepsProgress(db: Db, os: seq<Observation>)
    ensures InsertAll(db, os) == db.(rows := InsertAll(db, os).rows, counter := db.counter + |os|)
  {
    if os != [] {
      InsertAllKeepsProgress(db, os[..|os| - 1]);
    }
  }

  lemma HasIdMonotone(rows: seq<Row>, rows': seq<Row>)
    requires rows <= rows'
    ensures forall id :: HasId(rows, id) ==> HasId(rows', id)
  {
    forall id | HasId(rows, id) ensures HasId(rows', id) {
      var i :| 0 <= i < |rows| && IdOf(rows[i].obs) == id;
      assert IdOf(rows'[i].obs) == id;
    }
  }

  /** A commit of parsed observations keeps the table valid and only appends. */
  lemma CommitKeepsValid(db: Db, os: seq<Observation>, sequence: Option<nat>)
    requires Valid(db) && forall o :: o in os ==> Parsed(o)
    ensures Valid(Commit(db, os, sequence)) && db.rows <= Commit(db, os, sequence).rows
    ensures forall o :: o in os ==> HasId(Commit(db, os, sequence).rows, IdOf(o))
  {
    InsertAllKeepsRows(db, os);
    InsertAllKeepsProgress(db, os);
    AdvanceIsLast(db, InsertAll(db, os));
    forall o | o in os ensures HasId(Commit(db, os, sequence).rows, IdOf(o)) {
      InsertAllHasIds(db, os, o);
    }
  }

  /** A sequencer's commit raises progress to its sequence and never lowers it; a receipt's leaves it, and
      neither touches the degraded mark. */
  lemma CommitRaisesProgress(db: Db, os: seq<Observation>, sequence: Option<nat>)
    ensures var db' := Commit(db, os, sequence);
            && db'.degraded == db.degraded
            && (sequence.None? ==> db'.observed == db.observed)
            && (sequence.Some? ==>
                  && db'.observed.Some? && sequence.value <= db'.observed.value
                  && (db.observed.Some? ==> db.observed.value <= db'.observed.value)
                  && (db'.observed == sequence || db'.observed == db.observed))
  {
    InsertAllKeepsProgress(db, os);
  }

  lemma AdvanceIsLast(before: Db, after: Db)
    requires Valid(before) && OffsetsOk(after)
    requires |before.rows| <= |after.rows| && LastOffset(after.rows[..|before.rows|]) == LastOffset(before.rows)
    ensures Advance(before, after).durable == LastOffset(after.rows)
  {
    assert after.rows[..|after.rows|] == after.rows;
  }

  // ---------------------------------------------------------------------------------------
  // Reorg compensation

  lemma {:induction false} CompensationsAre(rows: seq<Row>, sequence: nat)
    ensures forall o :: o in Compensations(rows, sequence) ==>
              exists i :: 0 <= i < |rows| && IsCandidate(rows[i], sequence) && o == Compensation(rows[i], sequence)
    ensures forall i :: 0 <= i < |rows| && IsCandidate(rows[i], sequence) ==>
              Compensation(rows[i], sequence) in Compensations(rows, sequence)
  {
    if rows != [] {
      var init := rows[..|rows| - 1];
      CompensationsAre(init, sequence);
      forall o | o in Compensations(rows, sequence)
        ensures exists i :: 0 <= i < |rows| && IsCandidate(rows[i], sequence) && o == Compensation(rows[i], sequence)
      {
        if o in Compensations(init, sequence) {
          var i :| 0 <= i < |init| && IsCandidate(init[i], sequence) && o == Compensation(init[i], sequence);
          assert rows[i] == init[i];
        } else {
          assert rows[|rows| - 1] == rows[|init|];
        }
      }
      forall i | 0 <= i < |rows| && IsCandidate(rows[i], sequence)
        ensures Compensation(rows[i], sequence) in Compensations(rows, sequence)
      {
        if i < |init| {
          assert init[i] == rows[i];
        }
      }
    }
  }

  lemma MarkKeepsValid(db: Db, sequence: nat)
    requires Valid(db)
    ensures var marked := db.(rows := MarkOrphaned(db.rows, sequence));
            RowsOk(marked) && LastOffset(marked.rows) == LastOffset(db.rows)
  {
    var rows, rows' := db.rows, MarkOrphaned(db.rows, sequence);
    assert forall i :: 0 <= i < |rows| ==>
                         rows'[i].obs == rows[i].obs && rows'[i].offset == rows[i].offset
                         && (rows[i].orphaned ==> rows'[i].orphaned);
    forall j {:trigger Backed(rows'[..j], rows'[j].obs)} | 0 <= j < |rows'|
      ensures Parsed(rows'[j].obs) || Backed(rows'[..j], rows'[j].obs)
    {
      assert Parsed(rows[j].obs) || Backed(rows[..j], rows[j].obs);
      if Backed(rows[..j], rows[j].obs) {
        var i :| 0 <= i < |rows[..j]| && Compensates(rows[j].obs, rows[..j][i]);
        assert Compensates(rows'[j].obs, rows'[..j][i]);
      }
    }
  }

  lemma CompensationsAreBacked(db: Db, sequence: nat)
    ensures forall o :: o in Compensations(db.rows, sequence) ==> Backed(MarkOrphaned(db.rows, sequence), o)
  {
    CompensationsAre(db.rows, sequence);
    var rows' := MarkOrphaned(db.rows, sequence);
    forall o | o in Compensations(db.rows, sequence) ensures Backed(rows', o) {
      var i :| 0 <= i < |db.rows| && IsCandidate(db.rows[i], sequence) && o == Compensation(db.rows[i], sequence);
      assert Compensates(o, rows'[i]);
    }
  }

  lemma RetractKeepsValid(db: Db, sequence: nat)
    requires Valid(db)
    ensures Valid(Retract(db, sequence))
    ensures MarkOrphaned(db.rows, sequence) <= Retract(db, sequence).rows
    ensures forall o :: o in Compensations(db.rows, sequence) ==> HasId(Retract(db, sequence).rows, IdOf(o))
  {
    MarkKeepsValid(db, sequence);
    CompensationsAreBacked(db, sequence);
    var marked, os := db.(rows := MarkOrphaned(db.rows, sequence)), Compensations(db.rows, sequence);
    InsertAllKeepsRows(marked, os);
    InsertAllKeepsProgress(marked, os);
    assert InsertAll(marked, os).rows[..|db.rows|] == marked.rows;
    AdvanceIsLast(db, InsertAll(marked, os));
    forall o | o in os ensures HasId(Retract(db, sequence).rows, IdOf(o)) {
      InsertAllHasIds(marked, os, o);
    }
  }

  lemma {:induction false} NoCandidates(rows: seq<Row>, sequence: nat)
    requires forall i :: 0 <= i < |rows| ==> !IsCandidate(rows[i], sequence)
    ensures Compensations(rows, sequence) == [] && MarkOrphaned(rows, sequence) == rows
  {
    if rows != [] {
      NoCandidates(rows[..|rows| - 1], sequence);
    }
  }

  lemma {:induction false} InsertedAreNotCandidates(db: Db, os: seq<Observation>, sequence: nat, i: nat)
    requires forall o :: o in os ==> o.path.ReorgPath?
    requires |db.rows| <= i < |InsertAll(db, os).rows|
    ensures !IsCandidate(InsertAll(db, os).rows[i], sequence)
    decreases |os|
  {
    var init := os[..|os| - 1];
    assert forall o :: o in init ==> o in os;
    assert os[|os| - 1] in os;
    if i < |InsertAll(db, init).rows| {
      InsertedAreNotCandidates(db, init, sequence, i);
    }
  }

  /** Replaying the same reorg adds no event and no outbox row. */
  lemma ReplayedReorgAddsNothing(db: Db, sequence: nat)
    requires Valid(db)
    ensures Retract(Retract(db, sequence), sequence).rows == Retract(db, sequence).rows
    ensures Retract(Retract(db, sequence), sequence).durable == Retract(db, sequence).durable
  {
    RetractKeepsValid(db, sequence);
    CompensationsAre(db.rows, sequence);
    var marked := db.(rows := MarkOrphaned(db.rows, sequence));
    var once := Retract(db, sequence);
    forall i | 0 <= i < |once.rows| ensures !IsCandidate(once.rows[i], sequence) {
      if i >= |marked.rows| {
        InsertedAreNotCandidates(marked, Compensations(db.rows, sequence), sequence, i);
      } else {
        assert once.rows[i] == marked.rows[i];
      }
    }
    NoCandidates(once.rows, sequence);
  }

  /** A reorg changes nothing of a row but its mark, and newly marks it if and only if it is a
      sequencer's intent of exactly the reorganised sequence. */
  lemma ReorgOrphansExactlyItsIntents(db: Db, sequence: nat, i: nat)
    requires Valid(db) && i < |db.rows|
    ensures i < |Retract(db, sequence).rows|
    ensures var r, r' := db.rows[i], Retract(db, sequence).rows[i];
            && r' == r.(orphaned := r'.orphaned)
            && (r'.orphaned <==>
                  || r.orphaned
                  || (r.obs.source == Sequencer && r.obs.sequence == sequence && r.obs.path.IntentPath?))
  {
    RetractKeepsValid(db, sequence);
    assert Retract(db, sequence).rows[i] == MarkOrphaned(db.rows, sequence)[i];
  }

  /** A reorg pulls progress back to its sequence, never forward, and marks the feed degraded. */
  lemma ReorgPullsBack(db: Db, sequence: nat)
    ensures var db' := Retract(db, sequence);
            && db'.degraded && db'.observed.Some? && db'.observed.value <= sequence
            && (db.observed.Some? && db.observed.value <= sequence ==> db'.observed == db.observed)
            && (db.observed.None? || sequence < db.observed.value ==> db'.observed == Some(sequence))
  {
  }

  /** A row with this id was added between the two tables. */
  ghost predicate Published(rows: seq<Row>, rows': seq<Row>, id: ObsId)
  {
    exists i :: |rows| <= i < |rows'| && IdOf(rows'[i].obs) == id
  }

  lemma PublishedExactlyWhenNew(db: Db, os: seq<Observation>, sequence: Option<nat>, o: Observation)
    requires Valid(db) && o in os && forall x :: x in os ==> Parsed(x)
    ensures Published(db.rows, Commit(db, os, sequence).rows, IdOf(o)) <==> !HasId(db.rows, IdOf(o))
  {
    CommitKeepsValid(db, os, sequence);
    var rows' := Commit(db, os, sequence).rows;
    assert forall k :: 0 <= k < |db.rows| ==> rows'[k] == db.rows[k];
    if HasId(db.rows, IdOf(o)) {
      var k :| 0 <= k < |db.rows| && IdOf(db.rows[k].obs) == IdOf(o);
      assert IdOf(rows'[k].obs) == IdOf(o);
    } else {
      var i :| 0 <= i < |rows'| && IdOf(rows'[i].obs) == IdOf(o);
      assert |db.rows| <= i;
    }
  }

  lemma {:induction false} InsertAllAddsOnly(db: Db, os: seq<Observation>, id: ObsId)
    requires forall o :: o in os ==> IdOf(o) != id
    ensures HasId(InsertAll(db, os).rows, id) ==> HasId(db.rows, id)
  {
    if os != [] {
      var init, last := os[..|os| - 1], os[|os| - 1];
      assert last in os && forall o :: o in init ==> o in os;
      InsertAllAddsOnly(db, init, id);
      if HasId(InsertAll(db, os).rows, id) {
        var mid := InsertAll(db, init);
        var i :| 0 <= i < |InsertAll(db, os).rows| && IdOf(InsertAll(db, os).rows[i].obs) == id;
        assert i < |mid.rows| && IdOf(mid.rows[i].obs) == id;
      }
    }
  }

  /** A retraction adds no row that a parsed observation could be taken for. */
  lemma RetractKeepsIds(db: Db, sequence: nat, id: ObsId)
    requires Valid(db) && !id.path.ReorgPath?
    ensures HasId(Retract(db, sequence).rows, id) <==> HasId(db.rows, id)
  {
    var marked, os := db.(rows := MarkOrphaned(db.rows, sequence)), Compensations(db.rows, sequence);
    CompensationsAre(db.rows, sequence);
    RetractKeepsValid(db, sequence);
    InsertAllAddsOnly(marked, os, id);
    HasIdMonotone(marked.rows, Retract(db, sequence).rows);
    assert HasId(marked.rows, id) <==> HasId(db.rows, id) by {
      assert forall i :: 0 <= i < |db.rows| ==> IdOf(marked.rows[i].obs) == IdOf(db.rows[i].obs);
    }
  }

  /** After a reorg a transaction may be included again, under any sequence. Its observation has the
      id it had, so it is published if and only if it was never observed before the reorg, and an
      orphaned row stays orphaned. */
  lemma ReincludedIntentIsNotRepublished(db: Db, reorganised: nat, os: seq<Observation>, sequence: Option<nat>,
                                         o: Observation)
    requires Valid(db) && o in os && forall x :: x in os ==> Parsed(x)
    ensures var rows := Retract(db, reorganised).rows;
            var rows' := Commit(Retract(db, reorganised), os, sequence).rows;
            && (Published(rows, rows', IdOf(o)) <==> !HasId(db.rows, IdOf(o)))
            && |db.rows| <= |rows'|
            && rows <= rows'
            && (forall i :: 0 <= i < |db.rows| && db.rows[i].obs.source == Sequencer
                            && db.rows[i].obs.sequence == reorganised && db.rows[i].obs.path.IntentPath? ==>
                  rows'[i] == db.rows[i].(orphaned := true))
  {
    RetractKeepsValid(db, reorganised);
    RetractKeepsIds(db, reorganised, IdOf(o));
    PublishedExactlyWhenNew(Retract(db, reorganised), os, sequence, o);
    CommitKeepsValid(Retract(db, reorganised), os, sequence);
    var rows, rows' := Retract(db, reorganised).rows, Commit(Retract(db, reorganised), os, sequence).rows;
    assert forall i :: 0 <= i < |rows| ==> rows'[i] == rows[i];
    forall i | 0 <= i < |db.rows| && db.rows[i].obs.source == Sequencer && db.rows[i].obs.sequence == reorganised
               && db.rows[i].obs.path.IntentPath?
      ensures rows'[i] == db.rows[i].(orphaned := true)
    {
      ReorgOrphansExactlyItsIntents(db, reorganised, i);
    }
  }

  lemma {:induction false} AllKnown(db: Db, os: seq<Observation>)
    requires forall o :: o in os ==> HasId(db.rows, IdOf(o))
    ensures InsertAll(db, os) == db.(counter := db.counter + |os|)
  {
    if os != [] {
      AllKnown(db, os[..|os| - 1]);
    }
  }

  // ---------------------------------------------------------------------------------------
  // Offsets

  /** The offsets the consumer can follow: 1, 2, 3, … */
  ghost predicate Contiguous(rows: seq<Row>)
  {
    forall i :: 0 <= i < |rows| ==> rows[i].offset == i + 1
  }

  /** Exactly when one insert keeps the offsets contiguous: when it is ignored, or when no insert
      was ever ignored before it. */
  lemma InsertKeepsContiguous(db: Db, o: Observation)
    requires OffsetsOk(db) && Contiguous(db.rows)
    ensures Contiguous(Insert(db, o).rows) <==> HasId(db.rows, IdOf(o)) || db.counter == |db.rows|
  {
    if !HasId(db.rows, IdOf(o)) {
      assert Insert(db, o).rows[|db.rows|].offset == db.counter + 1;
    }
  }
}
