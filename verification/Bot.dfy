/** The bot's inbox and operation intents, fed from the feed's outbox one event at a time. */
module Bot {
  import Feed

  type ObsId = Feed.ObsId

  datatype Item = Item(offset: nat, id: ObsId, payload: Feed.Payload)

  function ItemOf(r: Feed.Row): Item
  {
    Item(r.offset, Feed.IdOf(r.obs), r.obs.payload)
  }

  /** deterministicIntentID hashes these. */
  datatype IntentId = IntentId(strategy: nat, version: nat, observation: ObsId, kind: nat)

  datatype Status = Created | Retracted

  datatype Db = Db(inbox: seq<Item>, durable: nat, intents: map<IntentId, Status>)

  const EMPTY: Db := Db([], 0, map[])

  datatype Result = Applied | Duplicate | ReplayConflict | FeedGap | Rejected

  function RetractIntents(intents: map<IntentId, Status>, original: ObsId): map<IntentId, Status>
  {
    map k | k in intents :: if k.observation == original && intents[k] == Created then Retracted else intents[k]
  }

  /** Inserts with ON CONFLICT(id) DO NOTHING. */
  function CreateIntents(intents: map<IntentId, Status>, proposals: set<IntentId>): map<IntentId, Status>
  {
    map k | k in intents.Keys + proposals :: if k in intents then intents[k] else Created
  }

  function Effect(intents: map<IntentId, Status>, item: Item, proposals: set<IntentId>): map<IntentId, Status>
  {
    match item.payload
    case Retraction(original) => RetractIntents(intents, original)
    case TransactionIntent(_) => CreateIntents(intents, proposals)
    case OtherPayload(_) => intents
  }

  /** ProcessFeedEvent. `proposals`: the intents the matching strategies' policies accept for it. */
  function Process(db: Db, item: Item, proposals: set<IntentId>): (Db, Result)
  {
    if item.offset == 0 then (db, Rejected)
    else if item.offset <= db.durable then
      (db, if exists i :: 0 <= i < |db.inbox| && db.inbox[i].offset == item.offset && db.inbox[i].id == item.id
           then Duplicate else ReplayConflict)
    else if item.offset != db.durable + 1 then (db, FeedGap)
    else if exists i :: 0 <= i < |db.inbox| && db.inbox[i].id == item.id then (db, Rejected)
    else (Db(db.inbox + [item], item.offset, Effect(db.intents, item, proposals)), Applied)
  }

  /** The inbox holds offsets 1..durable, each once and in order. */
  ghost predicate InboxOk(db: Db)
  {
    && |db.inbox| == db.durable
    && forall i :: 0 <= i < |db.inbox| ==> db.inbox[i].offset == i + 1
  }

  /** Whatever is delivered, in whatever order and however often: the inbox stays exactly
      1..durable, a gap or a conflicting replay changes nothing, and a replay of an item already
      in the inbox is recognised. */
  lemma ProcessKeepsInbox(db: Db, item: Item, proposals: set<IntentId>)
    requires InboxOk(db)
    ensures InboxOk(Process(db, item, proposals).0)
    ensures Process(db, item, proposals).1 != Applied ==> Process(db, item, proposals).0 == db
    ensures item in db.inbox ==> Process(db, item, proposals) == (db, Duplicate)
    ensures Process(db, item, proposals).1 == Applied <==>
              item.offset == db.durable + 1 && forall i :: 0 <= i < |db.inbox| ==> db.inbox[i].id != item.id
  {
    if item in db.inbox {
      var i :| 0 <= i < |db.inbox| && db.inbox[i] == item;
      assert db.inbox[i].offset == item.offset && db.inbox[i].id == item.id;
    }
  }

  /** The answer says where the item stands: at or below the durable offset it is a duplicate if the inbox
      has it there and a conflict otherwise; beyond the next offset it is a gap; at the next offset
      it is refused only if its observation was consumed already. */
  lemma ProcessAnswers(db: Db, item: Item, proposals: set<IntentId>)
    requires InboxOk(db)
    ensures var here := 1 <= item.offset <= |db.inbox|;
            Process(db, item, proposals).1 ==
              if item.offset == 0 then Rejected
              else if here && db.inbox[item.offset - 1].id == item.id then Duplicate
              else if here then ReplayConflict
              else if item.offset > |db.inbox| + 1 then FeedGap
              else if exists i :: 0 <= i < |db.inbox| && db.inbox[i].id == item.id then Rejected
              else Applied
  {
    if 1 <= item.offset <= |db.inbox| {
      assert db.inbox[item.offset - 1].offset == item.offset;
    }
  }

  /** An applied item takes effect once, on the intents alone: a retraction retracts exactly the intents
      of the observation it names, an intent creates what was proposed and is new. */
  lemma AppliedTakesEffect(db: Db, item: Item, proposals: set<IntentId>, k: IntentId)
    requires Process(db, item, proposals).1 == Applied
    ensures var db' := Process(db, item, proposals).0;
            && db'.inbox == db.inbox + [item] && db'.durable == item.offset
            && (k in db'.intents <==> k in db.intents || (item.payload.TransactionIntent? && k in proposals))
            && (k in db.intents ==>
                  db'.intents[k] == if item.payload == Feed.Retraction(k.observation) then Retracted
                                    else db.intents[k])
            && (k in db'.intents && k !in db.intents ==> db'.intents[k] == Created)
  {
  }

  /** The consumer's loop over one batch, stopping at the first error. `propose` gives each item's
      proposals. */
  function Consume(db: Db, items: seq<Item>, propose: Item -> set<IntentId>): Db
    decreases |items|
  {
    if items == [] then db
    else
      var r := Process(db, items[0], propose(items[0]));
      if r.1 == Applied || r.1 == Duplicate then Consume(r.0, items[1..], propose) else r.0
  }

  /** Items that were consumed before do not hold up a batch. */
  lemma {:induction false} ConsumeSkipsReplays(db: Db, replayed: seq<Item>, items: seq<Item>,
                                               propose: Item -> set<IntentId>)
    requires InboxOk(db) && forall x :: x in replayed ==> x in db.inbox
    ensures Consume(db, replayed + items, propose) == Consume(db, items, propose)
    decreases |replayed|
  {
    if replayed == [] {
      assert replayed + items == items;
    } else {
      ProcessKeepsInbox(db, replayed[0], propose(replayed[0]));
      assert (replayed + items)[1..] == replayed[1..] + items;
      ConsumeSkipsReplays(db, replayed[1..], items, propose);
    }
  }

  /** An item that is neither new nor known stops the batch. */
  lemma ConsumeStopsAtTrouble(db: Db, items: seq<Item>, propose: Item -> set<IntentId>)
    requires items != [] && InboxOk(db)
    requires items[0].offset > |db.inbox| + 1
             || (1 <= items[0].offset <= |db.inbox| && db.inbox[items[0].offset - 1].id != items[0].id)
    ensures Consume(db, items, propose) == db
  {
    ProcessAnswers(db, items[0], propose(items[0]));
  }

  class Store {
    var inbox: seq<Item>
    var durable: nat
    var intents: map<IntentId, Status>

    ghost function Tables(): Db
      reads this
    {
      Db(inbox, durable, intents)
    }

    constructor ()
      ensures Tables() == EMPTY
    {
      inbox, durable, intents := [], 0, map[];
    }

    /** ProcessFeedEvent, one transaction. */
    method ProcessEvent(item: Item, proposals: set<IntentId>) returns (result: Result)
      modifies this
      ensures (Tables(), result) == Process(old(Tables()), item, proposals)
    {
      if item.offset == 0 {
        return Rejected;
      }
      if item.offset <= durable {
        var known := exists i :: 0 <= i < |inbox| && inbox[i].offset == item.offset && inbox[i].id == item.id;
        return if known then Duplicate else ReplayConflict;
      }
      if item.offset != durable + 1 {
        return FeedGap;
      }
      if exists i :: 0 <= i < |inbox| && inbox[i].id == item.id {
        return Rejected;
      }
      if item.payload.Retraction? {
        intents := RetractIntents(intents, item.payload.original);
      } else if item.payload.TransactionIntent? {
        intents := CreateIntents(intents, proposals);
      }
      inbox := inbox + [item];
      durable := item.offset;
      return Applied;
    }

    /** RunOnce over one fetched batch: each event is committed before the next is looked at. */
    method RunOnce(items: seq<Item>, propose: Item -> set<IntentId>) returns (processed: nat)
      modifies this
      ensures Tables() == Consume(old(Tables()), items, propose)
      ensures processed <= |items|
    {
      processed := 0;
      while processed < |items|
        invariant processed <= |items|
        invariant Consume(Tables(), items[processed..], propose) == Consume(old(Tables()), items, propose)
      {
        var item := items[processed];
        assert items[processed..][0] == item && items[processed..][1..] == items[processed + 1..];
        var result := ProcessEvent(item, propose(item));
        if result != Applied && result != Duplicate {
          return;
        }
        processed := processed + 1;
      }
    }
  }
}

/** Feed and bot together: the feed commits and retracts, the bot is handed outbox rows. */
module Pipeline {
  import opened Common
  import Feed
  import opened Bot

  datatype State = State(feed: Feed.Db, bot: Db)

  /** Rows may be handed over in any order, any number of times; a crash of either side between
      its transactions leaves both databases as they are. */
  datatype Event =
    | CommitEvent(os: seq<Feed.Observation>, sequence: Option<nat>)
    | ReorgEvent(at: nat)
    | HandOverEvent(k: nat, proposals: set<IntentId>)

  ghost predicate Step(s: State, e: Event, s': State)
  {
    match e
    case CommitEvent(os, sequence) =>
      (forall o :: o in os ==> Feed.Parsed(o)) && s' == s.(feed := Feed.Commit(s.feed, os, sequence))
    case ReorgEvent(sequence) => s' == s.(feed := Feed.Retract(s.feed, sequence))
    case HandOverEvent(k, proposals) =>
      && k < |s.feed.rows|
      && (forall p :: p in proposals ==> p.observation == ItemOf(s.feed.rows[k]).id)
      && s' == s.(bot := Process(s.bot, ItemOf(s.feed.rows[k]), proposals).0)
  }

  ghost predicate Next(s: State, s': State)
  {
    exists e :: Step(s, e, s')
  }

  ghost predicate StepAt(run: seq<State>, i: nat)
    requires 0 < i < |run|
  {
    Next(run[i - 1], run[i])
  }

  ghost predicate IsRun(run: seq<State>)
  {
    && |run| > 0 && run[0] == State(Feed.EMPTY, EMPTY)
    && forall i {:trigger StepAt(run, i)} :: 0 < i < |run| ==> StepAt(run, i)
  }

  /** The inbox is a copy of the first rows of the outbox. */
  ghost predicate Mirrors(rows: seq<Feed.Row>, bot: Db)
  {
    && InboxOk(bot) && bot.durable <= |rows|
    && forall i :: 0 <= i < bot.durable ==> bot.inbox[i] == ItemOf(rows[i])
  }

  ghost predicate RetractedIn(inbox: seq<Item>, id: ObsId)
  {
    exists j :: 0 <= j < |inbox| && inbox[j].payload == Feed.Retraction(id)
  }

  ghost predicate SeenIn(inbox: seq<Item>, id: ObsId)
  {
    exists j :: 0 <= j < |inbox| && inbox[j].id == id
  }

  /** An intent is of an observation in the inbox, and retracted exactly when a retraction of that
      observation is in the inbox. */
  ghost predicate IntentsOk(bot: Db)
  {
    forall k :: k in bot.intents ==>
      SeenIn(bot.inbox, k.observation) && (bot.intents[k] == Retracted <==> RetractedIn(bot.inbox, k.observation))
  }

  ghost predicate Inv(s: State)
  {
    Feed.Valid(s.feed) && Mirrors(s.feed.rows, s.bot) && IntentsOk(s.bot)
  }

  lemma ConsumedOffsets(rows: seq<Feed.Row>, bot: Db, i: nat)
    requires Mirrors(rows, bot) && i < bot.durable
    ensures rows[i].offset == i + 1
  {
    assert bot.inbox[i] == ItemOf(rows[i]);
  }

  lemma AppliedIsNext(s: State, k: nat)
    requires Inv(s) && k < |s.feed.rows| && s.feed.rows[k].offset == s.bot.durable + 1
    ensures k == s.bot.durable
  {
    var n, rows := s.bot.durable, s.feed.rows;
    forall i | 0 <= i < n ensures rows[i].offset == i + 1 {
      ConsumedOffsets(rows, s.bot, i);
    }
    if n < |rows| {
      NextOffset(s.feed, n);
    }
  }

  lemma NextOffset(feed: Feed.Db, n: nat)
    requires Feed.OffsetsOk(feed) && n < |feed.rows| && forall i :: 0 <= i < n ==> feed.rows[i].offset == i + 1
    ensures feed.rows[n].offset > n
  {
    assert n > 0 ==> feed.rows[n - 1].offset < feed.rows[n].offset;
  }

  /** A retraction in the outbox names an earlier row, which is orphaned. */
  lemma RetractionNamesEarlier(rows: seq<Feed.Row>, j: nat) returns (i: nat)
    requires Feed.RetractionsOk(rows) && j < |rows| && rows[j].obs.payload.Retraction?
    ensures i < j && Feed.IdOf(rows[i].obs) == rows[j].obs.payload.original && rows[i].orphaned
  {
    assert Feed.Parsed(rows[j].obs) || Feed.Backed(rows[..j], rows[j].obs);
    i :| 0 <= i < |rows[..j]| && Feed.Compensates(rows[j].obs, rows[..j][i]);
    assert rows[..j][i] == rows[i];
  }

  /** No retraction of an observation precedes the observation in the outbox. */
  lemma NotYetRetracted(s: State, n: nat)
    requires Inv(s) && n == s.bot.durable < |s.feed.rows|
    ensures !RetractedIn(s.bot.inbox, Feed.IdOf(s.feed.rows[n].obs))
    ensures s.feed.rows[n].obs.payload != Feed.Retraction(Feed.IdOf(s.feed.rows[n].obs))
  {
    var rows := s.feed.rows;
    assert forall j :: 0 <= j < n ==> s.bot.inbox[j] == ItemOf(rows[j]);
    forall j | 0 <= j <= n ensures rows[j].obs.payload != Feed.Retraction(Feed.IdOf(rows[n].obs)) {
      if rows[j].obs.payload.Retraction? {
        var i := RetractionNamesEarlier(rows, j);
        assert Feed.IdOf(rows[i].obs) != Feed.IdOf(rows[n].obs);
      }
    }
  }

  lemma HandOverKeepsInv(s: State, k: nat, proposals: set<IntentId>)
    requires Inv(s) && k < |s.feed.rows| && forall p :: p in proposals ==> p.observation == ItemOf(s.feed.rows[k]).id
    ensures Inv(s.(bot := Process(s.bot, ItemOf(s.feed.rows[k]), proposals).0))
  {
    var item := ItemOf(s.feed.rows[k]);
    ProcessKeepsInbox(s.bot, item, proposals);
    var r := Process(s.bot, item, proposals);
    if r.1 == Applied {
      AppliedIsNext(s, k);
      NotYetRetracted(s, k);
      IntentsAfterApply(s.bot, item, proposals);
    }
  }

  lemma IntentsAfterApply(bot: Db, item: Item, proposals: set<IntentId>)
    requires IntentsOk(bot) && Process(bot, item, proposals).1 == Applied
    requires !RetractedIn(bot.inbox, item.id) && (forall p :: p in proposals ==> p.observation == item.id)
    requires item.payload != Feed.Retraction(item.id)
    ensures IntentsOk(Process(bot, item, proposals).0)
  {
    var bot' := Process(bot, item, proposals).0;
    forall k | k in bot'.intents
      ensures SeenIn(bot'.inbox, k.observation)
              && (bot'.intents[k] == Retracted <==> RetractedIn(bot'.inbox, k.observation))
    {
      InboxGrows(bot.inbox, item, k.observation);
    }
  }

  lemma InboxGrows(inbox: seq<Item>, item: Item, id: ObsId)
    ensures SeenIn(inbox + [item], id) <==> SeenIn(inbox, id) || item.id == id
    ensures RetractedIn(inbox + [item], id) <==> RetractedIn(inbox, id) || item.payload == Feed.Retraction(id)
  {
    var inbox' := inbox + [item];
    assert inbox'[|inbox|] == item;
    assert forall j :: 0 <= j < |inbox| ==> inbox'[j] == inbox[j];
  }

  lemma FeedStepKeepsMirror(rows: seq<Feed.Row>, rows': seq<Feed.Row>, bot: Db)
    requires Mirrors(rows, bot) && |rows| <= |rows'|
    requires forall i :: 0 <= i < |rows| ==> ItemOf(rows'[i]) == ItemOf(rows[i])
    ensures Mirrors(rows', bot)
  {
  }

  lemma StepKeepsInv(s: State, e: Event, s': State)
    requires Inv(s) && Step(s, e, s')
    ensures Inv(s')
  {
    match e {
      case CommitEvent(os, sequence) =>
        Feed.CommitKeepsValid(s.feed, os, sequence);
        FeedStepKeepsMirror(s.feed.rows, s'.feed.rows, s.bot);
      case ReorgEvent(sequence) =>
        Feed.RetractKeepsValid(s.feed, sequence);
        var marked := Feed.MarkOrphaned(s.feed.rows, sequence);
        assert forall i :: 0 <= i < |marked| ==> s'.feed.rows[i] == marked[i];
        FeedStepKeepsMirror(s.feed.rows, s'.feed.rows, s.bot);
      case HandOverEvent(k, proposals) => HandOverKeepsInv(s, k, proposals);
    }
  }

  lemma {:induction false} RunKeepsInv(run: seq<State>, i: nat)
    requires IsRun(run) && i < |run|
    ensures Inv(run[i])
  {
    if i > 0 {
      RunKeepsInv(run, i - 1);
      assert StepAt(run, i);
      var e :| Step(run[i - 1], e, run[i]);
      StepKeepsInv(run[i - 1], e, run[i]);
    }
  }

  /** In every reachable state the inbox holds exactly offsets 1..durable, each once and in order,
      and is a copy of the first rows of the outbox. */
  lemma InboxIsAnOutboxPrefix(run: seq<State>, i: nat)
    requires IsRun(run) && i < |run|
    ensures InboxOk(run[i].bot) && Mirrors(run[i].feed.rows, run[i].bot)
  {
    RunKeepsInv(run, i);
  }

  /** In every reachable state no created intent comes from an observation whose retraction the bot
      has consumed, and every retracted intent's observation is orphaned in the feed. */
  lemma IntentsFollowRetractions(run: seq<State>, i: nat, k: IntentId)
    requires IsRun(run) && i < |run| && k in run[i].bot.intents
    ensures run[i].bot.intents[k] == Created ==> !RetractedIn(run[i].bot.inbox, k.observation)
    ensures run[i].bot.intents[k] == Retracted ==>
              exists n :: 0 <= n < |run[i].feed.rows| && Feed.IdOf(run[i].feed.rows[n].obs) == k.observation
                          && run[i].feed.rows[n].orphaned
  {
    RunKeepsInv(run, i);
    var rows, bot := run[i].feed.rows, run[i].bot;
    if bot.intents[k] == Retracted {
      var j :| 0 <= j < |bot.inbox| && bot.inbox[j].payload == Feed.Retraction(k.observation);
      assert bot.inbox[j] == ItemOf(rows[j]);
      var n := RetractionNamesEarlier(rows, j);
    }
  }

  // ---------------------------------------------------------------------------------------
  // A transaction that is included again after its reorg

  lemma OrphanedRowStays(s: State, e: Event, s': State, n: nat)
    requires Inv(s) && Step(s, e, s') && n < |s.feed.rows| && s.feed.rows[n].orphaned
    ensures n < |s'.feed.rows| && s'.feed.rows[n] == s.feed.rows[n]
  {
    match e {
      case CommitEvent(os, sequence) => Feed.CommitKeepsValid(s.feed, os, sequence);
      case ReorgEvent(sequence) =>
        Feed.RetractKeepsValid(s.feed, sequence);
        assert s'.feed.rows[n] == Feed.MarkOrphaned(s.feed.rows, sequence)[n];
      case HandOverEvent(_, _) =>
    }
  }

  lemma RetractionStays(s: State, e: Event, s': State, id: ObsId)
    requires Step(s, e, s') && RetractedIn(s.bot.inbox, id)
    ensures RetractedIn(s'.bot.inbox, id)
  {
    if e.HandOverEvent? {
      InboxGrows(s.bot.inbox, ItemOf(s.feed.rows[e.k]), id);
    }
  }

  /** An orphaned observation keeps its row, orphaned, in every later state, and no other row ever
      carries its id: however often its transaction is included again, it is not published again. */
  lemma {:induction false} OrphanedForever(run: seq<State>, i: nat, j: nat, n: nat)
    requires IsRun(run) && i <= j < |run| && n < |run[i].feed.rows| && run[i].feed.rows[n].orphaned
    ensures n < |run[j].feed.rows| && run[j].feed.rows[n] == run[i].feed.rows[n]
    ensures forall m :: 0 <= m < |run[j].feed.rows| && m != n ==>
              Feed.IdOf(run[j].feed.rows[m].obs) != Feed.IdOf(run[i].feed.rows[n].obs)
    decreases j - i
  {
    if i < j {
      OrphanedForever(run, i, j - 1, n);
      RunKeepsInv(run, j - 1);
      assert StepAt(run, j);
      var e :| Step(run[j - 1], e, run[j]);
      OrphanedRowStays(run[j - 1], e, run[j], n);
    }
    RunKeepsInv(run, j);
  }

  /** Once the bot has consumed the retraction of an observation, every intent of it is retracted in
      every later state; none is ever created again. */
  lemma {:induction false} RetractedForever(run: seq<State>, i: nat, j: nat, id: ObsId)
    requires IsRun(run) && i <= j < |run| && RetractedIn(run[i].bot.inbox, id)
    ensures RetractedIn(run[j].bot.inbox, id)
    ensures forall k :: k in run[j].bot.intents && k.observation == id ==> run[j].bot.intents[k] == Retracted
    decreases j - i
  {
    if i < j {
      RetractedForever(run, i, j - 1, id);
      assert StepAt(run, j);
      var e :| Step(run[j - 1], e, run[j]);
      RetractionStays(run[j - 1], e, run[j], id);
    }
    RunKeepsInv(run, j);
  }

  // A concrete reorg: transaction 1 is observed in sequence 5, its intent is created; sequence 5 is
  // reorganised and the intent retracted; then the transaction is included again in sequence 6.

  const OBSERVED := Feed.Observation(Feed.Sequencer, 5, 1, Feed.IntentPath(0), Feed.TransactionIntent(0))
  const AGAIN := OBSERVED.(sequence := 6)
  const REVOKED := Feed.Observation(Feed.Sequencer, 5, 1, Feed.ReorgPath(5, 1), Feed.Retraction(Feed.IdOf(OBSERVED)))
  const INTENT := IntentId(0, 0, Feed.IdOf(OBSERVED), 0)

  const COMMITTED := Feed.Db([Feed.Row(1, OBSERVED, false)], 1, Some(5), 1, false)
  const REORGANISED := Feed.Db([Feed.Row(1, OBSERVED, true), Feed.Row(2, REVOKED, false)], 2, Some(5), 2, true)

  lemma InsertOne(db: Feed.Db, o: Feed.Observation)
    ensures Feed.InsertAll(db, [o]) == Feed.Insert(db, o)
  {
    assert [o][..0] == [] && Feed.InsertAll(db, []) == db;
  }

  lemma CommitExample()
    ensures Feed.Commit(Feed.EMPTY, [OBSERVED], Some(5)) == COMMITTED
  {
    InsertOne(Feed.EMPTY, OBSERVED);
    assert !Feed.HasId(Feed.EMPTY.rows, Feed.IdOf(OBSERVED));
  }

  lemma RetractExample()
    ensures Feed.Retract(COMMITTED, 5) == REORGANISED
  {
    var rows := COMMITTED.rows;
    assert rows[..0] == [] && rows[0] == Feed.Row(1, OBSERVED, false);
    assert Feed.Compensations(rows, 5) == Feed.Compensations([], 5) + [REVOKED];
    assert Feed.MarkOrphaned(rows, 5) == [Feed.Row(1, OBSERVED, true)];
    var marked := COMMITTED.(rows := Feed.MarkOrphaned(rows, 5));
    InsertOne(marked, REVOKED);
    assert !Feed.HasId(marked.rows, Feed.IdOf(REVOKED));
  }

  lemma RecommitExample()
    ensures Feed.Commit(REORGANISED, [AGAIN], Some(6)) == REORGANISED.(counter := 3, observed := Some(6))
  {
    InsertOne(REORGANISED, AGAIN);
    assert Feed.IdOf(REORGANISED.rows[0].obs) == Feed.IdOf(AGAIN);
  }

  lemma ReinclusionExample() returns (run: seq<State>)
    ensures IsRun(run) && |run| == 6
    ensures run[1].feed == Feed.Commit(run[0].feed, [OBSERVED], Some(5)) && run[2].bot.intents == map[INTENT := Created]
    ensures run[3].feed == Feed.Retract(run[2].feed, 5)
    ensures run[5].feed == Feed.Commit(run[4].feed, [AGAIN], Some(6)) && run[5].feed.rows == run[3].feed.rows
    ensures run[5].bot.intents == map[INTENT := Retracted]
  {
    var first, second := ItemOf(COMMITTED.rows[0]), ItemOf(REORGANISED.rows[1]);
    var created := Db([first], 1, map[INTENT := Created]);
    var retracted := Db([first, second], 2, map[INTENT := Retracted]);
    var again := REORGANISED.(counter := 3, observed := Some(6));
    run := [State(Feed.EMPTY, EMPTY), State(COMMITTED, EMPTY), State(COMMITTED, created), State(REORGANISED, created),
            State(REORGANISED, retracted), State(again, retracted)];
    CommitExample();
    RetractExample();
    RecommitExample();
    assert Step(run[0], CommitEvent([OBSERVED], Some(5)), run[1]);
    assert Process(EMPTY, first, {INTENT}).0 == created;
    assert Step(run[1], HandOverEvent(0, {INTENT}), run[2]);
    assert Step(run[2], ReorgEvent(5), run[3]);
    assert Process(created, second, {}).0 == retracted;
    assert Step(run[3], HandOverEvent(1, {}), run[4]);
    assert Step(run[4], CommitEvent([AGAIN], Some(6)), run[5]);
  }

  // ---------------------------------------------------------------------------------------
  // Draining the outbox

  function Items(rows: seq<Feed.Row>): seq<Item>
  {
    seq(|rows|, i requires 0 <= i < |rows| => ItemOf(rows[i]))
  }

  /** The rows after the first `n`: once those are offsets 1..n, the rows with a greater offset. */
  function After(rows: seq<Feed.Row>, n: nat): seq<Item>
  {
    if n <= |rows| then Items(rows)[n..] else []
  }

  lemma RowKeepsOffset(s: State, e: Event, s': State, n: nat)
    requires Inv(s) && Step(s, e, s') && n < |s.feed.rows|
    ensures n < |s'.feed.rows| && s'.feed.rows[n].offset == s.feed.rows[n].offset
  {
    match e {
      case CommitEvent(os, sequence) => Feed.CommitKeepsValid(s.feed, os, sequence);
      case ReorgEvent(sequence) =>
        Feed.RetractKeepsValid(s.feed, sequence);
        assert s'.feed.rows[n] == Feed.MarkOrphaned(s.feed.rows, sequence)[n];
      case HandOverEvent(_, _) =>
    }
  }

  /** A gap in the offsets stops the bot in front of it, in every later state of every run. */
  lemma {:induction false} GapIsNeverPassed(run: seq<State>, i: nat, j: nat, n: nat)
    requires IsRun(run) && i <= j < |run| && n < |run[i].feed.rows| && run[i].feed.rows[n].offset != n + 1
    ensures n < |run[j].feed.rows| && run[j].feed.rows[n].offset == run[i].feed.rows[n].offset
    ensures run[j].bot.durable <= n
    decreases j - i
  {
    if i < j {
      GapIsNeverPassed(run, i, j - 1, n);
      RunKeepsInv(run, j - 1);
      assert StepAt(run, j);
      var e :| Step(run[j - 1], e, run[j]);
      RowKeepsOffset(run[j - 1], e, run[j], n);
    }
    RunKeepsInv(run, j);
    GapIsAhead(run[j].feed.rows, run[j].bot, n);
  }

  lemma GapIsAhead(rows: seq<Feed.Row>, bot: Db, n: nat)
    requires Mirrors(rows, bot) && n < |rows| && rows[n].offset != n + 1
    ensures bot.durable <= n
  {
    forall i | 0 <= i < bot.durable ensures rows[i].offset == i + 1 {
      ConsumedOffsets(rows, bot, i);
    }
  }

  ghost predicate OwnProposals(propose: Item -> set<IntentId>)
  {
    forall item, p :: p in propose(item) ==> p.observation == item.id
  }

  /** Consuming the rest of a contiguous outbox reaches its end. */
  lemma {:induction false} ContiguousIsDrained(s: State, propose: Item -> set<IntentId>)
    requires Inv(s) && OwnProposals(propose) && Feed.Contiguous(s.feed.rows)
    ensures Consume(s.bot, After(s.feed.rows, s.bot.durable), propose).durable == |s.feed.rows|
    decreases |s.feed.rows| - s.bot.durable
  {
    var n, items := s.bot.durable, Items(s.feed.rows);
    if n < |items| {
      var item := items[n];
      assert items[n..][0] == item && items[n..][1..] == items[n + 1..];
      FreshId(s, n);
      ProcessKeepsInbox(s.bot, item, propose(item));
      HandOverKeepsInv(s, n, propose(item));
      ContiguousIsDrained(s.(bot := Process(s.bot, item, propose(item)).0), propose);
    }
  }

  lemma FreshId(s: State, n: nat)
    requires Inv(s) && n == s.bot.durable < |s.feed.rows|
    ensures forall i :: 0 <= i < |s.bot.inbox| ==> s.bot.inbox[i].id != ItemOf(s.feed.rows[n]).id
  {
    forall i | 0 <= i < |s.bot.inbox| ensures s.bot.inbox[i].id != ItemOf(s.feed.rows[n]).id {
      assert s.bot.inbox[i] == ItemOf(s.feed.rows[i]);
    }
  }

  /** Exactly when the bot can drain the outbox: when its offsets are contiguous. */
  lemma DrainsExactlyContiguousOutboxes(run: seq<State>, i: nat, propose: Item -> set<IntentId>)
    requires IsRun(run) && i < |run| && OwnProposals(propose)
    ensures Consume(run[i].bot, After(run[i].feed.rows, run[i].bot.durable), propose).durable == |run[i].feed.rows|
       <==> Feed.Contiguous(run[i].feed.rows)
  {
    RunKeepsInv(run, i);
    var s := run[i];
    if Feed.Contiguous(s.feed.rows) {
      ContiguousIsDrained(s, propose);
    } else {
      ConsumeKeepsMirror(s, After(s.feed.rows, s.bot.durable), propose, s.bot.durable);
    }
  }

  /** Consuming rows from `from` on keeps the inbox a copy of the first rows. */
  lemma {:induction false} ConsumeKeepsMirror(s: State, items: seq<Item>, propose: Item -> set<IntentId>, from: nat)
    requires Inv(s) && OwnProposals(propose) && from <= |s.feed.rows| && items == Items(s.feed.rows)[from..]
    ensures Mirrors(s.feed.rows, Consume(s.bot, items, propose))
    decreases |items|
  {
    if items != [] {
      var item := items[0];
      assert item == ItemOf(s.feed.rows[from]) && items[1..] == Items(s.feed.rows)[from + 1..];
      HandOverKeepsInv(s, from, propose(item));
      ConsumeKeepsMirror(s.(bot := Process(s.bot, item, propose(item)).0), items[1..], propose, from + 1);
    }
  }

  /** One redelivered observation followed by a new one is enough to stop the bot: the replayed
      insert is ignored but consumes an offset. */
  lemma ReplayLeavesAGap(db: Feed.Db, o: Feed.Observation, o': Feed.Observation)
    requires Feed.Valid(db) && Feed.Contiguous(db.rows) && db.counter == |db.rows|
    requires Feed.HasId(db.rows, Feed.IdOf(o)) && !Feed.HasId(db.rows, Feed.IdOf(o'))
    ensures !Feed.Contiguous(Feed.Insert(Feed.Insert(db, o), o').rows)
  {
    Feed.InsertKeepsContiguous(Feed.Insert(db, o), o');
  }

  // A concrete run: an observation is delivered, delivered again after a restart, then a new one.

  const OTHER := OBSERVED.(sequence := 6, tx := 2)
  const REPLAYED := COMMITTED.(counter := 2)
  const GAPPED := Feed.Db([Feed.Row(1, OBSERVED, false), Feed.Row(3, OTHER, false)], 3, Some(6), 3, false)

  lemma GapExample()
    ensures Feed.Commit(COMMITTED, [OBSERVED], Some(5)) == REPLAYED
    ensures Feed.Commit(REPLAYED, [OTHER], Some(6)) == GAPPED
  {
    InsertOne(COMMITTED, OBSERVED);
    assert Feed.IdOf(COMMITTED.rows[0].obs) == Feed.IdOf(OBSERVED);
    InsertOne(REPLAYED, OTHER);
    assert !Feed.HasId(REPLAYED.rows, Feed.IdOf(OTHER));
  }

  lemma RunToGap() returns (run: seq<State>)
    ensures IsRun(run) && |run| == 5 && run[4].feed == GAPPED && run[4].bot.durable == 1
  {
    var first := ItemOf(COMMITTED.rows[0]);
    var created := Db([first], 1, map[INTENT := Created]);
    run := [State(Feed.EMPTY, EMPTY), State(COMMITTED, EMPTY), State(COMMITTED, created), State(REPLAYED, created),
            State(GAPPED, created)];
    CommitExample();
    GapExample();
    assert Step(run[0], CommitEvent([OBSERVED], Some(5)), run[1]);
    assert Process(EMPTY, first, {INTENT}).0 == created;
    assert Step(run[1], HandOverEvent(0, {INTENT}), run[2]);
    assert Step(run[2], CommitEvent([OBSERVED], Some(5)), run[3]);
    assert Step(run[3], CommitEvent([OTHER], Some(6)), run[4]);
  }

  /** The bot consumes the first event and is then stuck in front of the second, however the run goes on. */
  lemma StuckRun() returns (run: seq<State>)
    ensures IsRun(run) && |run| == 5 && run[4].bot.durable == 1 && |run[4].feed.rows| == 2
    ensures forall longer: seq<State>, j :: IsRun(longer) && run <= longer && 4 <= j < |longer| ==>
              longer[j].bot.durable <= 1
  {
    run := RunToGap();
    forall longer: seq<State>, j | IsRun(longer) && run <= longer && 4 <= j < |longer|
      ensures longer[j].bot.durable <= 1
    {
      assert longer[4] == run[4];
      GapIsNeverPassed(longer, 4, j, 1);
    }
  }
}
