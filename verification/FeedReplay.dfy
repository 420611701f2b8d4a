/** Crashes and restarts of the feed over one in-order stream of deliveries, without reorgs.

    A delivery is one transaction handed to the handler, which commits its observations together
    with its sequence; a sequence may have several deliveries. `feed` is the stream from the
    first delivery ever committed on. */
module FeedReplay {
  import opened Common
  import opened Feed

  datatype Delivery = Delivery(sequence: nat, os: seq<Observation>)

  ghost predicate InOrder(feed: seq<Delivery>)
  {
    && (forall i, j :: 0 <= i < j < |feed| ==> feed[i].sequence <= feed[j].sequence)
    && (forall i, o :: 0 <= i < |feed| && o in feed[i].os ==> Parsed(o))
  }

  /** A run without any crash. */
  function CommitAll(feed: seq<Delivery>): Db
  {
    if feed == [] then EMPTY
    else Commit(CommitAll(feed[..|feed| - 1]), feed[|feed| - 1].os, Some(feed[|feed| - 1].sequence))
  }

  /** Index of the first delivery after a sequence: where a client resuming there starts. */
  function FirstAfter(feed: seq<Delivery>, sequence: nat): nat
  {
    if feed == [] || feed[0].sequence > sequence then 0 else 1 + FirstAfter(feed[1..], sequence)
  }

  lemma {:induction false} FirstAfterSplits(feed: seq<Delivery>, sequence: nat)
    requires InOrder(feed)
    ensures FirstAfter(feed, sequence) <= |feed|
    ensures forall i :: 0 <= i < FirstAfter(feed, sequence) ==> feed[i].sequence <= sequence
    ensures forall i :: FirstAfter(feed, sequence) <= i < |feed| ==> feed[i].sequence > sequence
  {
    if feed != [] && feed[0].sequence <= sequence {
      FirstAfterSplits(feed[1..], sequence);
      forall i | 0 < i < |feed| ensures feed[i] == feed[1..][i - 1] {
      }
    }
  }

  /** A restart delivers again exactly the deliveries of the observed sequence and those after it; only
      where sequence 0 was observed it begins after that. */
  lemma RestartRedeliversExactly(feed: seq<Delivery>, observed: nat, i: nat)
    requires InOrder(feed) && i < |feed|
    ensures FirstAfter(feed, Resume(Some(observed)).value) <= i <==>
              feed[i].sequence >= if observed == 0 then 1 else observed
  {
    FirstAfterSplits(feed, Resume(Some(observed)).value);
  }

  /** `pos`: the next delivery of the live process. `done`: how many were ever committed. */
  datatype State = State(db: Db, pos: nat, done: nat)

  datatype Event = DeliverEvent | RestartEvent

  ghost predicate Step(feed: seq<Delivery>, s: State, e: Event, s': State)
  {
    match e
    case DeliverEvent =>
      && s.pos < |feed|
      && s' == State(Commit(s.db, feed[s.pos].os, Some(feed[s.pos].sequence)), s.pos + 1, Max(s.done, s.pos + 1))
    case RestartEvent =>
      s' == s.(pos := if s.db.observed.None? then 0 else FirstAfter(feed, Resume(s.db.observed).value))
  }

  /** A restart would resume past a delivery that was never committed. */
  predicate Skips(feed: seq<Delivery>, s: State)
  {
    s.db.observed == Some(0) && s.done < |feed| && feed[s.done].sequence == 0
  }

  ghost predicate StepAt(feed: seq<Delivery>, run: seq<State>, events: seq<Event>, i: nat)
    requires i < |events| && |run| == |events| + 1
  {
    Step(feed, run[i], events[i], run[i + 1]) && (events[i] == RestartEvent ==> !Skips(feed, run[i]))
  }

  /** Any schedule of deliveries and restarts in which no restart skips. */
  ghost predicate IsRun(feed: seq<Delivery>, run: seq<State>, events: seq<Event>)
  {
    && InOrder(feed) && |run| == |events| + 1 && run[0] == State(EMPTY, 0, 0)
    && forall i {:trigger StepAt(feed, run, events, i)} :: 0 <= i < |events| ==> StepAt(feed, run, events, i)
  }

  function Contents(rows: seq<Row>): seq<Observation>
  {
    seq(|rows|, i requires 0 <= i < |rows| => rows[i].obs)
  }

  lemma SameIds(rows: seq<Row>, rows': seq<Row>, id: ObsId)
    requires Contents(rows) == Contents(rows')
    ensures HasId(rows, id) <==> HasId(rows', id)
  {
    assert |rows| == |rows'|;
    assert forall i :: 0 <= i < |rows| ==> rows[i].obs == Contents(rows)[i] == Contents(rows')[i] == rows'[i].obs;
  }

  /** What is inserted depends on the contents only, not on offsets or ignored inserts. */
  lemma {:induction false} InsertAllContents(db: Db, db': Db, os: seq<Observation>)
    requires Contents(db.rows) == Contents(db'.rows)
    ensures Contents(InsertAll(db, os).rows) == Contents(InsertAll(db', os).rows)
  {
    if os != [] {
      var init, last := os[..|os| - 1], os[|os| - 1];
      InsertAllContents(db, db', init);
      var mid, mid' := InsertAll(db, init), InsertAll(db', init);
      SameIds(mid.rows, mid'.rows, IdOf(last));
      assert Contents(mid.rows + [Row(mid.counter + 1, last, false)]) == Contents(mid.rows) + [last];
      assert Contents(mid'.rows + [Row(mid'.counter + 1, last, false)]) == Contents(mid'.rows) + [last];
    }
  }

  /** Every observation of the deliveries is in the table. */
  ghost predicate Holds(rows: seq<Row>, feed: seq<Delivery>)
  {
    forall i, o :: 0 <= i < |feed| && o in feed[i].os ==> HasId(rows, IdOf(o))
  }

  ghost predicate Inv(feed: seq<Delivery>, s: State)
  {
    && s.pos <= s.done <= |feed|
    && Valid(s.db)
    && Contents(s.db.rows) == Contents(CommitAll(feed[..s.done]).rows)
    && Holds(s.db.rows, feed[..s.done])
    && s.db.observed == (if s.done == 0 then None else Some(feed[s.done - 1].sequence))
  }

  lemma ReplayChangesNothing(feed: seq<Delivery>, s: State, s': State)
    requires InOrder(feed) && Inv(feed, s) && s.pos < s.done && Step(feed, s, DeliverEvent, s')
    ensures Inv(feed, s')
  {
    var d := feed[s.pos];
    assert feed[..s.done][s.pos] == d;
    AllKnown(s.db, d.os);
    CommitKeepsValid(s.db, d.os, Some(d.sequence));
    assert d.sequence <= feed[s.done - 1].sequence;
  }

  lemma NewDeliveryExtends(feed: seq<Delivery>, s: State, s': State)
    requires InOrder(feed) && Inv(feed, s) && s.pos == s.done && Step(feed, s, DeliverEvent, s')
    ensures Inv(feed, s')
  {
    var d := feed[s.pos];
    var done := feed[..s.done + 1];
    assert done[..|done| - 1] == feed[..s.done] && done[|done| - 1] == d;
    CommitKeepsValid(s.db, d.os, Some(d.sequence));
    InsertAllContents(s.db, CommitAll(feed[..s.done]), d.os);
    HasIdMonotone(s.db.rows, s'.db.rows);
    forall i, o | 0 <= i < |done| && o in done[i].os ensures HasId(s'.db.rows, IdOf(o)) {
      if i < s.done {
        assert feed[..s.done][i] == done[i];
      }
    }
  }

  /** The rewind by one sequence reaches back to a delivery that was committed, except exactly when
      the only sequence committed so far is 0 and it has more deliveries to come. */
  lemma RewindIsExact(feed: seq<Delivery>, s: State)
    requires InOrder(feed) && Inv(feed, s) && s.done > 0
    ensures FirstAfter(feed, Resume(s.db.observed).value) <= s.done <==> !Skips(feed, s)
  {
    var resume := Resume(s.db.observed).value;
    FirstAfterSplits(feed, resume);
    var first := FirstAfter(feed, resume);
    if first > s.done {
      assert feed[s.done].sequence <= resume;
      assert feed[s.done - 1].sequence <= feed[s.done].sequence;
    }
  }

  lemma StepKeepsInv(feed: seq<Delivery>, s: State, e: Event, s': State)
    requires InOrder(feed) && Inv(feed, s) && Step(feed, s, e, s')
    requires e == RestartEvent ==> !Skips(feed, s)
    ensures Inv(feed, s')
  {
    if e == DeliverEvent {
      if s.pos < s.done {
        ReplayChangesNothing(feed, s, s');
      } else {
        NewDeliveryExtends(feed, s, s');
      }
    } else if s.done > 0 {
      RewindIsExact(feed, s);
    }
  }

  lemma {:induction false} RunKeepsInv(feed: seq<Delivery>, run: seq<State>, events: seq<Event>, i: nat)
    requires IsRun(feed, run, events) && i < |run|
    ensures Inv(feed, run[i])
  {
    if i == 0 {
      assert feed[..0] == [];
    } else {
      RunKeepsInv(feed, run, events, i - 1);
      assert StepAt(feed, run, events, i - 1);
      StepKeepsInv(feed, run[i - 1], events[i - 1], run[i]);
    }
  }

  /** Whatever the crash schedule, the outbox holds exactly the observations of a run without
      crashes over the deliveries committed so far, in the same order. */
  lemma OutboxEqualsCrashFreeRun(feed: seq<Delivery>, run: seq<State>, events: seq<Event>, i: nat)
    requires IsRun(feed, run, events) && i < |run|
    ensures run[i].done <= |feed| && Contents(run[i].db.rows) == Contents(CommitAll(feed[..run[i].done]).rows)
  {
    RunKeepsInv(feed, run, events, i);
  }

  /** A crash inside sequence 0 loses the rest of that sequence: two deliveries of sequence 0, a
      restart between them, and the client resumes after both. */
  lemma CrashInSequenceZeroSkips(o: Observation, o': Observation)
    requires Parsed(o) && Parsed(o')
    ensures var feed := [Delivery(0, [o]), Delivery(0, [o'])];
            var s := State(Commit(EMPTY, [o], Some(0)), 1, 1);
            && Step(feed, State(EMPTY, 0, 0), DeliverEvent, s)
            && Step(feed, s, RestartEvent, s.(pos := 2))
  {
    var feed := [Delivery(0, [o]), Delivery(0, [o'])];
    assert feed[1..] == [Delivery(0, [o'])] && feed[1..][1..] == [];
    assert FirstAfter(feed[1..][1..], 0) == 0;
    assert FirstAfter(feed[1..], 0) == 1;
  }
}
