/** The feed store and sequencer handler as they run. */
module FeedStore {
  import opened Common
  import opened Feed

  class Store {
    var rows: seq<Row>
    var counter: nat
    var observed: Option<nat>
    var durable: nat
    var degraded: bool

    ghost function Tables(): Db
      reads this
    {
      Db(rows, counter, observed, durable, degraded)
    }

    constructor ()
      ensures Tables() == EMPTY
    {
      rows, counter, observed, durable, degraded := [], 0, None, 0, false;
    }

    /** One insert of the commit loop; `offset` is None when the observation was known. */
    method InsertRow(o: Observation) returns (offset: Option<nat>)
      modifies this`rows, this`counter
      ensures Tables() == Insert(old(Tables()), o)
      ensures offset == if HasId(old(rows), IdOf(o)) then None else Some(counter)
    {
      counter := counter + 1;
      if HasId(rows, IdOf(o)) {
        return None;
      }
      rows := rows + [Row(counter, o, false)];
      return Some(counter);
    }

    /** commit: insert each observation, tracking the highest offset, then raise the progress. */
    method CommitBatch(os: seq<Observation>, sequence: Option<nat>)
      modifies this
      ensures Tables() == Commit(old(Tables()), os, sequence)
    {
      var highest := InsertBatch(os);
      if durable < highest {
        durable := highest;
      }
      if sequence.Some? && (observed.None? || observed.value < sequence.value) {
        observed := sequence;
      }
    }

    /** The insert loop shared by commit and RetractSequencerSequence. */
    method InsertBatch(os: seq<Observation>) returns (highest: nat)
      modifies this`rows, this`counter
      ensures Tables() == InsertAll(old(Tables()), os)
      ensures highest == if |rows| > |old(rows)| then LastOffset(rows) else 0
    {
      highest := 0;
      var i := 0;
      while i < |os|
        invariant 0 <= i <= |os|
        invariant Tables() == InsertAll(old(Tables()), os[..i])
        invariant |rows| >= |old(rows)|
        invariant highest == if |rows| > |old(rows)| then LastOffset(rows) else 0
        invariant |rows| > |old(rows)| ==> LastOffset(rows) <= counter
      {
        assert os[..i + 1][..i] == os[..i];
        var offset := InsertRow(os[i]);
        if offset.Some? && offset.value > highest {
          highest := offset.value;
        }
        i := i + 1;
      }
      assert os[..i] == os;
    }

    /** RetractSequencerSequence: collect the candidates, mark each orphaned, append its
        compensation, pull the progress back and mark the feed degraded. */
    method RetractSequence(sequence: nat)
      modifies this
      ensures Tables() == Retract(old(Tables()), sequence)
    {
      var os := [];
      var marked := rows;
      var i := 0;
      while i < |rows|
        invariant 0 <= i <= |rows| && |marked| == |rows|
        invariant os == Compensations(rows[..i], sequence)
        invariant forall k :: 0 <= k < |rows| ==>
                    marked[k] == if k < i && IsCandidate(rows[k], sequence) then rows[k].(orphaned := true) else rows[k]
      {
        assert rows[..i + 1][..i] == rows[..i];
        if IsCandidate(rows[i], sequence) {
          os := os + [Compensation(rows[i], sequence)];
          marked := marked[i := rows[i].(orphaned := true)];
        }
        i := i + 1;
      }
      assert rows[..i] == rows;
      assert marked == MarkOrphaned(rows, sequence);
      rows := marked;
      var highest := InsertBatch(os);
      if durable < highest {
        durable := highest;
      }
      if observed.None? || observed.value > sequence {
        observed := Some(sequence);
      }
      degraded := true;
    }

    /** ResumeSequence. */
    method ResumeAt() returns (resume: Option<nat>)
      ensures resume == Resume(observed)
      ensures resume.Some? ==> resume.value <= observed.value && (observed.value > 0 ==> resume.value < observed.value)
    {
      if observed.None? {
        return None;
      }
      var at := 0;
      if observed.value > 0 {
        at := observed.value - 1;
      }
      return Some(at);
    }
  }
}
