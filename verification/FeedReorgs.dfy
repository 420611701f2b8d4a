/** Crashes, restarts and reorganisations of the feed. The client stops when it notices that a sequence
    it has passed was replaced; the store compensates that sequence, and the client is started again
    over the new stream, which is the old one below that sequence. */
module FeedReorgs {
  import opened Common
  import opened Feed
  import R = FeedReplay

  type Delivery = R.Delivery

  /** What the feed took in, each once: a delivery, or the reorganisation of a sequence. */
  datatype Input = CommitInput(d: Delivery) | ReorgInput(at: nat)

  function Apply(db: Db, x: Input): Db
  {
    match x
    case CommitInput(d) => Commit(db, d.os, Some(d.sequence))
    case ReorgInput(at) => Retract(db, at)
  }

  /** A run without any crash. */
  function ApplyAll(log: seq<Input>): Db
  {
    if log == [] then EMPTY else Apply(ApplyAll(log[..|log| - 1]), log[|log| - 1])
  }

  // ---------------------------------------------------------------------------------------
  // Rows that differ at most in their offsets

  /** A retraction's path names the offset of the row it compensates; apart from that, equal. */
  predicate SameObservation(o: Observation, o': Observation)
  {
    || o == o'
    || (o.path.ReorgPath? && o'.path.ReorgPath? && o.path.sequence == o'.path.sequence && o == o'.(path := o.path))
  }

  predicate Alike(r: Row, r': Row)
  {
    r.orphaned == r'.orphaned && SameObservation(r.obs, r'.obs)
  }

  /** The same observations in the same order with the same marks, whatever their offsets. */
  predicate SameOutbox(rows: seq<Row>, rows': seq<Row>)
  {
    |rows| == |rows'| && forall i :: 0 <= i < |rows| ==> Alike(rows[i], rows'[i])
  }

  lemma SameIds(rows: seq<Row>, rows': seq<Row>, id: ObsId)
    requires SameOutbox(rows, rows') && !id.path.ReorgPath? && HasId(rows, id)
    ensures HasId(rows', id)
  {
    var i :| 0 <= i < |rows| && IdOf(rows[i].obs) == id;
    assert Alike(rows[i], rows'[i]);
    assert IdOf(rows'[i].obs) == id;
  }

  lemma SameSymmetric(rows: seq<Row>, rows': seq<Row>)
    requires SameOutbox(rows, rows')
    ensures SameOutbox(rows', rows)
  {
    forall i | 0 <= i < |rows'| ensures Alike(rows'[i], rows[i]) {
      assert Alike(rows[i], rows'[i]);
    }
  }

  lemma {:induction false} InsertAllSame(db: Db, db': Db, os: seq<Observation>)
    requires SameOutbox(db.rows, db'.rows) && forall o :: o in os ==> Parsed(o)
    ensures SameOutbox(InsertAll(db, os).rows, InsertAll(db', os).rows)
  {
    if os != [] {
      var init, last := os[..|os| - 1], os[|os| - 1];
      assert last in os && forall o :: o in init ==> o in os;
      InsertAllSame(db, db', init);
      var mid, mid' := InsertAll(db, init), InsertAll(db', init);
      SameSymmetric(mid.rows, mid'.rows);
      if HasId(mid.rows, IdOf(last)) {
        SameIds(mid.rows, mid'.rows, IdOf(last));
      } else if HasId(mid'.rows, IdOf(last)) {
        SameIds(mid'.rows, mid.rows, IdOf(last));
      }
    }
  }

  // ---------------------------------------------------------------------------------------
  // Compensations are always new

  lemma ReorgPathNamesOrphan(rows: seq<Row>, j: nat) returns (k: nat)
    requires RetractionsOk(rows) && j < |rows| && rows[j].obs.path.ReorgPath?
    ensures k < j && rows[k].orphaned && rows[k].offset == rows[j].obs.path.offset
  {
    assert Parsed(rows[j].obs) || Backed(rows[..j], rows[j].obs);
    k :| 0 <= k < |rows[..j]| && Compensates(rows[j].obs, rows[..j][k]);
    assert rows[..j][k] == rows[k];
  }

  lemma OffsetsAreUnique(db: Db, i: nat, k: nat)
    requires OffsetsOk(db) && i < |db.rows| && k < |db.rows| && i != k
    ensures db.rows[i].offset != db.rows[k].offset
  {
    if i < k {
      assert db.rows[i].offset < db.rows[k].offset;
    } else {
      assert db.rows[k].offset < db.rows[i].offset;
    }
  }

  lemma CompensationIsNew(db: Db, sequence: nat, i: nat)
    requires Valid(db) && i < |db.rows| && IsCandidate(db.rows[i], sequence)
    ensures !HasId(db.rows, IdOf(Compensation(db.rows[i], sequence)))
  {
    var rows := db.rows;
    forall j | 0 <= j < |rows| ensures IdOf(rows[j].obs) != IdOf(Compensation(rows[i], sequence)) {
      if rows[j].obs.path.ReorgPath? {
        var k := ReorgPathNamesOrphan(rows, j);
        OffsetsAreUnique(db, i, k);
      }
    }
  }

  /** In offset order, so no two for one row. */
  lemma {:induction false} CompensationsIncrease(rows: seq<Row>, sequence: nat)
    requires forall i, j :: 0 <= i < j < |rows| ==> rows[i].offset < rows[j].offset
    ensures var os := Compensations(rows, sequence);
            && (forall o :: o in os ==> o.path.ReorgPath? && rows != [] && o.path.offset <= rows[|rows| - 1].offset)
            && (forall i, j :: 0 <= i < j < |os| ==> os[i].path.offset < os[j].path.offset)
  {
    if rows != [] {
      var init, last := rows[..|rows| - 1], rows[|rows| - 1];
      CompensationsIncrease(init, sequence);
      var os := Compensations(init, sequence);
      forall o | o in os ensures o.path.offset < last.offset {
        assert init[|init| - 1].offset < last.offset;
      }
      forall i | 0 <= i < |os| ensures os[i].path.offset < last.offset {
        assert os[i] in os;
      }
    }
  }

  ghost function Fresh(from: nat, os: seq<Observation>): seq<Row>
  {
    seq(|os|, i requires 0 <= i < |os| => Row(from + 1 + i, os[i], false))
  }

  lemma FreshHasNot(rows: seq<Row>, from: nat, os: seq<Observation>, id: ObsId)
    requires !HasId(rows, id) && forall o :: o in os ==> IdOf(o) != id
    ensures !HasId(rows + Fresh(from, os), id)
  {
    var all := rows + Fresh(from, os);
    forall k | 0 <= k < |all| ensures IdOf(all[k].obs) != id {
      if k >= |rows| {
        assert all[k].obs == os[k - |rows|] && os[k - |rows|] in os;
      } else {
        assert all[k] == rows[k];
      }
    }
  }

  /** Inserting new observations appends exactly those. */
  lemma {:induction false} InsertAllNew(db: Db, os: seq<Observation>)
    requires forall o :: o in os ==> !HasId(db.rows, IdOf(o))
    requires forall i, j :: 0 <= i < j < |os| ==> IdOf(os[i]) != IdOf(os[j])
    ensures InsertAll(db, os).rows == db.rows + Fresh(db.counter, os) && InsertAll(db, os).counter == db.counter + |os|
  {
    if os != [] {
      var init, last := os[..|os| - 1], os[|os| - 1];
      assert last in os && forall o :: o in init ==> o in os;
      InsertAllNew(db, init);
      forall o | o in init ensures IdOf(o) != IdOf(last) {
        var i :| 0 <= i < |init| && init[i] == o;
        assert os[i] == o;
      }
      FreshHasNot(db.rows, db.counter, init, IdOf(last));
      assert Fresh(db.counter, os) == Fresh(db.counter, init) + [Row(db.counter + |os|, last, false)];
    }
  }

  lemma MarkedKeepsIds(rows: seq<Row>, sequence: nat, id: ObsId)
    requires HasId(MarkOrphaned(rows, sequence), id)
    ensures HasId(rows, id)
  {
    var marked := MarkOrphaned(rows, sequence);
    var i :| 0 <= i < |marked| && IdOf(marked[i].obs) == id;
    assert IdOf(rows[i].obs) == id;
  }

  /** A retraction marks its candidates and appends one compensation for each, in order. */
  lemma RetractRows(db: Db, sequence: nat)
    requires Valid(db)
    ensures Retract(db, sequence).rows ==
              MarkOrphaned(db.rows, sequence) + Fresh(db.counter, Compensations(db.rows, sequence))
  {
    var marked, os := db.(rows := MarkOrphaned(db.rows, sequence)), Compensations(db.rows, sequence);
    CompensationsIncrease(db.rows, sequence);
    CompensationsAre(db.rows, sequence);
    forall o | o in os ensures !HasId(marked.rows, IdOf(o)) {
      var i :| 0 <= i < |db.rows| && IsCandidate(db.rows[i], sequence) && o == Compensation(db.rows[i], sequence);
      CompensationIsNew(db, sequence, i);
      if HasId(marked.rows, IdOf(o)) {
        MarkedKeepsIds(db.rows, sequence, IdOf(o));
      }
    }
    InsertAllNew(marked, os);
  }

  /** The step marked this row. */
  ghost predicate NewlyOrphaned(rows: seq<Row>, rows': seq<Row>, i: nat)
    requires |rows| <= |rows'|
  {
    i < |rows| && !rows[i].orphaned && rows'[i].orphaned
  }

  /** `x` tells the consumer to take back the observation of `r`. */
  predicate TakesBack(x: Row, r: Row, sequence: nat)
  {
    x.obs == Observation(Sequencer, sequence, r.obs.tx, ReorgPath(sequence, r.offset),
                         Retraction(ObsId(r.obs.source, r.obs.tx, r.obs.path)))
    && !x.orphaned
  }

  lemma NewRowIsCompensation(db: Db, sequence: nat, j: nat)
    requires Valid(db) && |db.rows| <= j < |Retract(db, sequence).rows|
    ensures |Retract(db, sequence).rows| == |db.rows| + |Compensations(db.rows, sequence)|
    ensures Retract(db, sequence).rows[j].obs == Compensations(db.rows, sequence)[j - |db.rows|]
    ensures !Retract(db, sequence).rows[j].orphaned
  {
    RetractRows(db, sequence);
    var os := Compensations(db.rows, sequence);
    assert Retract(db, sequence).rows[j] == Fresh(db.counter, os)[j - |db.rows|];
  }

  lemma OrphanedIsCandidate(db: Db, sequence: nat, i: nat)
    requires Valid(db) && i < |db.rows|
    ensures |db.rows| <= |Retract(db, sequence).rows|
    ensures IsCandidate(db.rows[i], sequence) <==> NewlyOrphaned(db.rows, Retract(db, sequence).rows, i)
  {
    RetractKeepsValid(db, sequence);
    ReorgOrphansExactlyItsIntents(db, sequence, i);
  }

  lemma NewRowTakesBack(db: Db, sequence: nat, j: nat) returns (i: nat)
    requires Valid(db) && |db.rows| <= j < |Retract(db, sequence).rows|
    ensures NewlyOrphaned(db.rows, Retract(db, sequence).rows, i)
    ensures TakesBack(Retract(db, sequence).rows[j], db.rows[i], sequence)
  {
    NewRowIsCompensation(db, sequence, j);
    CompensationsAre(db.rows, sequence);
    var o := Retract(db, sequence).rows[j].obs;
    assert o in Compensations(db.rows, sequence);
    i :| 0 <= i < |db.rows| && IsCandidate(db.rows[i], sequence) && o == Compensation(db.rows[i], sequence);
    OrphanedIsCandidate(db, sequence, i);
  }

  lemma OrphanedIsTakenBack(db: Db, sequence: nat, i: nat) returns (j: nat)
    requires Valid(db) && |db.rows| <= |Retract(db, sequence).rows|
    requires NewlyOrphaned(db.rows, Retract(db, sequence).rows, i)
    ensures |db.rows| <= j < |Retract(db, sequence).rows|
    ensures TakesBack(Retract(db, sequence).rows[j], db.rows[i], sequence)
  {
    OrphanedIsCandidate(db, sequence, i);
    CompensationsAre(db.rows, sequence);
    RetractRows(db, sequence);
    var os := Compensations(db.rows, sequence);
    var n :| 0 <= n < |os| && os[n] == Compensation(db.rows[i], sequence);
    j := |db.rows| + n;
    NewRowIsCompensation(db, sequence, j);
  }

  lemma NewRowsAreOrdered(db: Db, sequence: nat, j: nat, k: nat)
    requires Valid(db) && |db.rows| <= j < k < |Retract(db, sequence).rows|
    ensures var rows' := Retract(db, sequence).rows;
            && rows'[j].obs.path.ReorgPath? && rows'[k].obs.path.ReorgPath?
            && rows'[j].obs.path.offset < rows'[k].obs.path.offset
  {
    CompensationsIncrease(db.rows, sequence);
    NewRowIsCompensation(db, sequence, j);
    NewRowIsCompensation(db, sequence, k);
    var os := Compensations(db.rows, sequence);
    assert os[j - |db.rows|] in os && os[k - |db.rows|] in os;
  }

  ghost predicate IsTakenBack(rows': seq<Row>, from: nat, r: Row, sequence: nat)
  {
    exists j :: from <= j < |rows'| && TakesBack(rows'[j], r, sequence)
  }

  ghost predicate TakesBackOrphaned(rows: seq<Row>, rows': seq<Row>, j: nat, sequence: nat)
    requires |rows| <= |rows'| && j < |rows'|
  {
    exists i: nat :: NewlyOrphaned(rows, rows', i) && TakesBack(rows'[j], rows[i], sequence)
  }

  /** After a reorg the outbox has, behind the old rows and in their order, one retraction of each row
      that was newly orphaned, and nothing else. */
  lemma ReorgTakesBackExactlyTheOrphaned(db: Db, sequence: nat)
    requires Valid(db)
    ensures |db.rows| <= |Retract(db, sequence).rows|
    ensures var rows, rows' := db.rows, Retract(db, sequence).rows;
            && (forall i: nat :: NewlyOrphaned(rows, rows', i) ==> IsTakenBack(rows', |rows|, rows[i], sequence))
            && (forall j :: |rows| <= j < |rows'| ==>
                  rows'[j].obs.path.ReorgPath? && TakesBackOrphaned(rows, rows', j, sequence))
            && (forall j, k :: |rows| <= j < k < |rows'| ==> rows'[j].obs.path.offset < rows'[k].obs.path.offset)
  {
    var rows, rows' := db.rows, Retract(db, sequence).rows;
    RetractKeepsValid(db, sequence);
    forall i: nat | NewlyOrphaned(rows, rows', i) ensures IsTakenBack(rows', |rows|, rows[i], sequence) {
      var j := OrphanedIsTakenBack(db, sequence, i);
    }
    forall j | |rows| <= j < |rows'|
      ensures rows'[j].obs.path.ReorgPath? && TakesBackOrphaned(rows, rows', j, sequence)
    {
      var i := NewRowTakesBack(db, sequence, j);
    }
    forall j, k | |rows| <= j < k < |rows'| ensures rows'[j].obs.path.offset < rows'[k].obs.path.offset {
      NewRowsAreOrdered(db, sequence, j, k);
    }
  }

  /** No row of another sequence or source, and no row that is no intent, is ever taken back. */
  lemma OthersAreNotTakenBack(db: Db, sequence: nat, i: nat, j: nat)
    requires Valid(db) && i < |db.rows| && |db.rows| <= j < |Retract(db, sequence).rows|
    requires Retract(db, sequence).rows[j].obs.payload == Retraction(IdOf(db.rows[i].obs))
    ensures db.rows[i].obs.source == Sequencer && db.rows[i].obs.sequence == sequence
    ensures db.rows[i].obs.path.IntentPath? && !db.rows[i].orphaned
  {
    var k := NewRowTakesBack(db, sequence, j);
    if k != i {
      IdsDiffer(db.rows, k, i);
    }
    ReorgOrphansExactlyItsIntents(db, sequence, i);
  }

  lemma IdsDiffer(rows: seq<Row>, i: nat, k: nat)
    requires IdsOk(rows) && i < |rows| && k < |rows| && i != k
    ensures IdOf(rows[i].obs) != IdOf(rows[k].obs)
  {
    if i < k {
      assert IdOf(rows[i].obs) != IdOf(rows[k].obs);
    } else {
      assert IdOf(rows[k].obs) != IdOf(rows[i].obs);
    }
  }

  lemma {:induction false} SameCompensations(rows: seq<Row>, rows': seq<Row>, sequence: nat)
    requires SameOutbox(rows, rows')
    ensures var os, os' := Compensations(rows, sequence), Compensations(rows', sequence);
            |os| == |os'| && forall i :: 0 <= i < |os| ==> SameObservation(os[i], os'[i])
  {
    if rows != [] {
      var n := |rows| - 1;
      assert Alike(rows[n], rows'[n]);
      SameCompensations(rows[..n], rows'[..n], sequence);
    }
  }

  lemma RetractSame(db: Db, db': Db, sequence: nat)
    requires Valid(db) && Valid(db') && SameOutbox(db.rows, db'.rows)
    ensures SameOutbox(Retract(db, sequence).rows, Retract(db', sequence).rows)
  {
    RetractRows(db, sequence);
    RetractRows(db', sequence);
    SameCompensations(db.rows, db'.rows, sequence);
    forall i | 0 <= i < |db.rows|
      ensures Alike(MarkOrphaned(db.rows, sequence)[i], MarkOrphaned(db'.rows, sequence)[i])
    {
      assert Alike(db.rows[i], db'.rows[i]);
    }
  }

  // ---------------------------------------------------------------------------------------
  // Runs

  /** `feed`: the stream of the current chain. `pos`: the next delivery of the live process. `done`: how
      many of its deliveries were ever committed. `log`: what was taken in, each once. */
  datatype State = State(db: Db, feed: seq<Delivery>, pos: nat, done: nat, log: seq<Input>)

  datatype Event = DeliverEvent | RestartEvent | ReorgEvent(at: nat, feed: seq<Delivery>)

  /** How many deliveries of a stream come before a sequence. */
  function Below(feed: seq<Delivery>, sequence: nat): nat
  {
    if sequence == 0 then 0 else R.FirstAfter(feed, sequence - 1)
  }

  function Start(feed: seq<Delivery>, observed: Option<nat>): nat
  {
    if observed.None? then 0 else R.FirstAfter(feed, Resume(observed).value)
  }

  /** Starting here would resume past a delivery that was never committed. */
  predicate Skips(feed: seq<Delivery>, db: Db, done: nat)
  {
    db.observed == Some(0) && done < |feed| && feed[done].sequence == 0
  }

  ghost predicate ReorgStep(s: State, e: Event, s': State)
    requires e.ReorgEvent?
  {
    var n := Below(s.feed, e.at);
    && R.InOrder(e.feed) && n == Below(e.feed, e.at) && n <= s.pos && n <= |s.feed| && n <= |e.feed|
    && s.feed[..n] == e.feed[..n]
    && var db := Retract(s.db, e.at);
      && !Skips(e.feed, db, n)
      && s' == State(db, e.feed, Start(e.feed, db.observed), n, s.log + [ReorgInput(e.at)])
  }

  /** A delivery; a restart; a reorganisation of a sequence the client has passed, with the restart that
      follows it. No start skips. */
  ghost predicate Step(s: State, e: Event, s': State)
  {
    match e
    case DeliverEvent =>
      && s.pos < |s.feed|
      && var d := s.feed[s.pos];
        s' == s.(db := Commit(s.db, d.os, Some(d.sequence)), pos := s.pos + 1, done := Max(s.done, s.pos + 1),
                 log := if s.pos == s.done then s.log + [CommitInput(d)] else s.log)
    case RestartEvent => !Skips(s.feed, s.db, s.done) && s' == s.(pos := Start(s.feed, s.db.observed))
    case ReorgEvent(_, _) => ReorgStep(s, e, s')
  }

  ghost predicate StepAt(run: seq<State>, events: seq<Event>, i: nat)
    requires i < |events| && |run| == |events| + 1
  {
    Step(run[i], events[i], run[i + 1])
  }

  ghost predicate IsRun(run: seq<State>, events: seq<Event>)
  {
    && |run| == |events| + 1 && R.InOrder(run[0].feed) && run[0] == State(EMPTY, run[0].feed, 0, 0, [])
    && forall i {:trigger StepAt(run, events, i)} :: 0 <= i < |events| ==> StepAt(run, events, i)
  }

  ghost predicate Inv(s: State)
  {
    && R.InOrder(s.feed) && s.pos <= s.done <= |s.feed|
    && Valid(s.db) && Valid(ApplyAll(s.log)) && SameOutbox(s.db.rows, ApplyAll(s.log).rows)
    && R.Holds(s.db.rows, s.feed[..s.done])
    && (s.db.observed.Some? && s.done < |s.feed| ==> s.db.observed.value <= s.feed[s.done].sequence)
  }

  lemma ReplayChangesNothing(s: State, s': State)
    requires Inv(s) && s.pos < s.done && Step(s, DeliverEvent, s')
    ensures Inv(s')
  {
    var d := s.feed[s.pos];
    assert s.feed[..s.done][s.pos] == d;
    AllKnown(s.db, d.os);
    CommitKeepsValid(s.db, d.os, Some(d.sequence));
    assert s.done < |s.feed| ==> d.sequence <= s.feed[s.done].sequence;
  }

  lemma CommitKeepsOutbox(s: State, d: Delivery)
    requires Valid(s.db) && Valid(ApplyAll(s.log)) && SameOutbox(s.db.rows, ApplyAll(s.log).rows)
    requires forall o :: o in d.os ==> Parsed(o)
    ensures var db, log := Commit(s.db, d.os, Some(d.sequence)), s.log + [CommitInput(d)];
            Valid(db) && Valid(ApplyAll(log)) && SameOutbox(db.rows, ApplyAll(log).rows)
  {
    var log := s.log + [CommitInput(d)];
    assert log[..|log| - 1] == s.log;
    CommitKeepsValid(s.db, d.os, Some(d.sequence));
    CommitKeepsValid(ApplyAll(s.log), d.os, Some(d.sequence));
    InsertAllSame(s.db, ApplyAll(s.log), d.os);
  }

  lemma CommitHolds(db: Db, feed: seq<Delivery>, n: nat)
    requires Valid(db) && R.InOrder(feed) && n < |feed| && R.Holds(db.rows, feed[..n])
    ensures R.Holds(Commit(db, feed[n].os, Some(feed[n].sequence)).rows, feed[..n + 1])
  {
    var rows := Commit(db, feed[n].os, Some(feed[n].sequence)).rows;
    CommitKeepsValid(db, feed[n].os, Some(feed[n].sequence));
    HasIdMonotone(db.rows, rows);
    var more := feed[..n + 1];
    forall i, o | 0 <= i < |more| && o in more[i].os ensures HasId(rows, IdOf(o)) {
      if i < n {
        assert feed[..n][i] == more[i];
      }
    }
  }

  lemma NewDeliveryExtends(s: State, s': State)
    requires Inv(s) && s.pos == s.done && Step(s, DeliverEvent, s')
    ensures Inv(s')
  {
    CommitKeepsOutbox(s, s.feed[s.pos]);
    CommitHolds(s.db, s.feed, s.done);
  }

  lemma StartIsCommitted(feed: seq<Delivery>, db: Db, done: nat)
    requires R.InOrder(feed) && done <= |feed| && !Skips(feed, db, done)
    requires db.observed.Some? && done < |feed| ==> db.observed.value <= feed[done].sequence
    ensures Start(feed, db.observed) <= done
  {
    if db.observed.Some? {
      R.FirstAfterSplits(feed, Resume(db.observed).value);
    }
  }

  lemma RetractKeepsAll(db: Db, sequence: nat, feed: seq<Delivery>)
    requires Valid(db) && R.Holds(db.rows, feed) && R.InOrder(feed)
    ensures R.Holds(Retract(db, sequence).rows, feed)
  {
    forall i, o | 0 <= i < |feed| && o in feed[i].os ensures HasId(Retract(db, sequence).rows, IdOf(o)) {
      assert Parsed(o);
      RetractKeepsIds(db, sequence, IdOf(o));
    }
  }

  lemma ReorgKeepsOutbox(s: State, at: nat)
    requires Valid(s.db) && Valid(ApplyAll(s.log)) && SameOutbox(s.db.rows, ApplyAll(s.log).rows)
    ensures var db, log := Retract(s.db, at), s.log + [ReorgInput(at)];
            Valid(db) && Valid(ApplyAll(log)) && SameOutbox(db.rows, ApplyAll(log).rows)
  {
    var log := s.log + [ReorgInput(at)];
    assert log[..|log| - 1] == s.log;
    RetractKeepsValid(s.db, at);
    RetractKeepsValid(ApplyAll(s.log), at);
    RetractSame(s.db, ApplyAll(s.log), at);
  }

  lemma ReorgKeepsCommitted(s: State, e: Event, n: nat)
    requires Inv(s) && e.ReorgEvent? && R.InOrder(e.feed)
    requires n <= s.done && n <= |e.feed| && s.feed[..n] == e.feed[..n]
    ensures R.Holds(Retract(s.db, e.at).rows, e.feed[..n])
  {
    forall i, o | 0 <= i < n && o in e.feed[..n][i].os ensures HasId(s.db.rows, IdOf(o)) {
      assert e.feed[..n][i] == s.feed[..n][i] == s.feed[..s.done][i];
    }
    RetractKeepsAll(s.db, e.at, e.feed[..n]);
  }

  lemma ReorgKeepsInv(s: State, e: Event, s': State)
    requires Inv(s) && e.ReorgEvent? && ReorgStep(s, e, s')
    ensures Inv(s')
  {
    var n := Below(e.feed, e.at);
    ReorgKeepsOutbox(s, e.at);
    ReorgKeepsCommitted(s, e, n);
    if e.at > 0 {
      R.FirstAfterSplits(e.feed, e.at - 1);
    }
    StartIsCommitted(e.feed, s'.db, n);
  }

  lemma StepKeepsInv(s: State, e: Event, s': State)
    requires Inv(s) && Step(s, e, s')
    ensures Inv(s')
  {
    match e {
      case DeliverEvent =>
        if s.pos < s.done {
          ReplayChangesNothing(s, s');
        } else {
          NewDeliveryExtends(s, s');
        }
      case RestartEvent => StartIsCommitted(s.feed, s.db, s.done);
      case ReorgEvent(_, _) => ReorgKeepsInv(s, e, s');
    }
  }

  lemma {:induction false} RunKeepsInv(run: seq<State>, events: seq<Event>, i: nat)
    requires IsRun(run, events) && i < |run|
    ensures Inv(run[i])
  {
    if i == 0 {
      assert run[0].feed[..0] == [];
    } else {
      RunKeepsInv(run, events, i - 1);
      assert StepAt(run, events, i - 1);
      StepKeepsInv(run[i - 1], events[i - 1], run[i]);
    }
  }

  /** Whatever the crashes and reorganisations, the outbox holds, up to offsets, exactly the rows that
      the same deliveries and retractions produce without any crash, in the same order and with the
      same orphaned marks. */
  lemma OutboxEqualsCrashFreeHistory(run: seq<State>, events: seq<Event>, i: nat)
    requires IsRun(run, events) && i < |run|
    ensures SameOutbox(run[i].db.rows, ApplyAll(run[i].log).rows)
  {
    RunKeepsInv(run, events, i);
  }

  /** A start after any such history resumes at or before the first delivery that was never committed,
      except exactly when the observed sequence is 0 and that delivery is of sequence 0. */
  lemma StartIsExact(run: seq<State>, events: seq<Event>, i: nat)
    requires IsRun(run, events) && i < |run|
    ensures Start(run[i].feed, run[i].db.observed) <= run[i].done <==> !Skips(run[i].feed, run[i].db, run[i].done)
  {
    RunKeepsInv(run, events, i);
    var s := run[i];
    if Skips(s.feed, s.db, s.done) {
      R.FirstAfterSplits(s.feed, 0);
      assert s.feed[s.done].sequence == 0;
    } else {
      StartIsCommitted(s.feed, s.db, s.done);
    }
  }

  /** Whatever was observed before, a start after a reorganisation delivers everything of the new stream
      from the reorganised sequence on, if and only if that is not sequence 0 or has nothing in it. */
  lemma ReorgIsRedelivered(db: Db, at: nat, feed: seq<Delivery>)
    requires R.InOrder(feed)
    ensures (forall i :: 0 <= i < |feed| && feed[i].sequence >= at ==>
               Start(feed, Retract(db, at).observed) <= i) <==>
            at > 0 || |feed| == 0 || feed[0].sequence > 0
  {
    var observed := Retract(db, at).observed;
    R.FirstAfterSplits(feed, Resume(observed).value);
    if at == 0 && |feed| > 0 && feed[0].sequence == 0 {
      assert Start(feed, observed) > 0;
    }
  }
}
