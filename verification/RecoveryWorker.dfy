/** The recovery worker as it runs: loops over the listed attempts and over each attempt's
    canonical observations. The node's answers are parameters; whether the evidence query also
    sees a pending transaction may be anything. */
module RecoveryWorker {
  import opened Common
  import opened Ledger
  import opened LedgerRounds
  import opened LedgerCompletion
  import Controlled
  import ControlledRuns
  import ControlledStranded

  datatype Item = Item(attempt: Attempt, unknown: bool)

  type Book = map<Attempt, Entry>

  function EntryIn(book: Book, a: Attempt): Entry
  {
    if a in book then book[a] else EMPTY
  }

  ghost predicate BookOk(w: World, book: Book)
  {
    forall a :: a in book ==> EntryOk(w, a, book[a])
  }

  /** Whether the evidence query sees a pending transaction, and whether the node's client reports a
      missing receipt as an error. */
  method QueryRecovery() returns (sighted: bool, notFound: bool) {
    sighted, notFound := *, *;
  }

  ghost function Attempts(items: seq<Item>): set<Attempt>
  {
    set i | i in items :: i.attempt
  }

  /** Attempts outside `listed` have the rows they had. */
  ghost predicate OthersKept(before: Book, listed: set<Attempt>, after: Book)
  {
    forall a :: a !in listed ==> (a in after <==> a in before) && (a in after ==> after[a] == before[a])
  }

  ghost predicate AgreesFor(w: World, v: View, c: nat, listed: set<Attempt>, book: Book)
  {
    forall a :: a in listed ==> a in book && Agrees(w, v, c, a, book[a])
  }

  lemma ListedBefore(before: Book, after: Book, items: seq<Item>, n: nat)
    requires n <= |items| && OthersKept(before, Attempts(items[..n]), after)
    ensures OthersKept(before, Attempts(items), after)
  {
    assert forall i :: i in items[..n] ==> i in items;
  }

  lemma AgreesForOneMore(w: World, v: View, c: nat, items: seq<Item>, n: nat, before: Book, after: Book)
    requires n < |items| && AgreesFor(w, v, c, Attempts(items[..n]), before)
    requires OthersKept(before, {items[n].attempt}, after)
    requires items[n].attempt in after && Agrees(w, v, c, items[n].attempt, after[items[n].attempt])
    ensures AgreesFor(w, v, c, Attempts(items[..n + 1]), after)
  {
    assert items[..n + 1] == items[..n] + [items[n]];
    forall a | a in Attempts(items[..n + 1]) ensures a in after && Agrees(w, v, c, a, after[a]) {
      if a != items[n].attempt {
        assert a in Attempts(items[..n]);
      }
    }
  }

  /** The attempt is on the chain, none of its canonical blocks is above the head, and a confirmed
      success of it can be booked. */
  ghost predicate Ready(w: World, v: View, c: nat, a: Attempt, e: Entry)
  {
    && (forall h :: h in Canonical(e) ==> w.height(h) < |v.chain|)
    && !Missing(w, v, a)
    && (forall h :: ConfirmedAt(w, v, c, a, h) ==> Bookable(w, a, e, h, h in Canonical(e)))
  }

  ghost predicate AllReady(w: World, v: View, c: nat, items: seq<Item>, book: Book)
  {
    && (forall m, n :: 0 <= m < n < |items| ==> items[m].attempt != items[n].attempt)
    && (forall n :: 0 <= n < |items| ==> Ready(w, v, c, items[n].attempt, EntryIn(book, items[n].attempt)))
  }

  /** Items that come later in the list are still as they were. */
  lemma NextIsReady(w: World, v: View, c: nat, items: seq<Item>, n: nat, before: Book, now: Book)
    requires n < |items| && AllReady(w, v, c, items, before) && OthersKept(before, Attempts(items[..n]), now)
    ensures Ready(w, v, c, items[n].attempt, EntryIn(now, items[n].attempt))
  {
    forall i | i in items[..n] ensures i.attempt != items[n].attempt {
      var m :| 0 <= m < n && items[m] == i;
    }
    assert items[n].attempt !in Attempts(items[..n]);
  }

  /** The answers of a node that stays on one chain. */
  function AnswersFrom(w: World, v: View, a: Attempt, sighted: bool, notFound: bool): Answers
    requires |v.chain| > 0
  {
    var same: Headers := (h: Hash) => v;
    Answers(same, sighted, Where(w, v.chain, a).Some?, v, notFound, v, |v.chain| - 1, same)
  }

  /** An attempt that is ready completes whatever else the node says. */
  lemma ReadyCompletes(w: World, v: View, c: nat, item: Item, e: Entry, sighted: bool, notFound: bool)
    requires Consistent(w, v) && EntryOk(w, item.attempt, e) && Ready(w, v, c, item.attempt, e)
    ensures Process(w, c, item.attempt, e, AnswersFrom(w, v, item.attempt, sighted, notFound), item.unknown).Some?
  {
    SteadyPassCompletesExactlyWhen(w, c, item.attempt, e, AnswersFrom(w, v, item.attempt, sighted, notFound),
                                   item.unknown, v);
  }

  lemma OneMoreTouched(first: Book, second: Book, third: Book, items: seq<Item>, n: nat)
    requires n < |items| && OthersKept(first, Attempts(items[..n]), second)
    requires OthersKept(second, {items[n].attempt}, third)
    ensures OthersKept(first, Attempts(items[..n + 1]), third)
  {
    var more := items[..n + 1];
    assert more == items[..n] + [items[n]];
    assert items[n] in more;
    forall i | i in items[..n] ensures i.attempt in Attempts(more) {
      assert i in more;
    }
  }

  class Worker {
    const confirmations: nat
    var book: Book

    constructor (confirmations: nat, book: Book)
      ensures this.confirmations == confirmations && this.book == book
    {
      this.confirmations, this.book := confirmations, book;
    }

    /** CheckReorgWithLease for every canonical observation, each asking the node for a header anew. A
        block above the node's head stops the pass with what was orphaned so far. */
    method ScanObservations(a: Attempt, views: Headers) returns (ok: bool)
      modifies this`book
      ensures match Scan(EntryIn(old(book), a), views)
              case Some(e) => ok && book == old(book)[a := e]
              case None =>
                && !ok
                && exists hs :: hs <= Canonical(EntryIn(old(book), a))
                                && book == old(book)[a := OrphanAll(EntryIn(old(book), a), hs)]
    {
      var e := EntryIn(book, a);
      var now := e;
      var todo := Canonical(e);
      ghost var gone: set<Hash> := {};
      assert OrphanAll(e, {}) == e;
      while todo != {}
        invariant todo <= Canonical(e) && gone <= Canonical(e) && todo !! gone
        invariant now == OrphanAll(e, gone)
        invariant gone == set h | h in Canonical(e) - todo && !On(views(h), e.obs[h].number, h)
        invariant forall h :: h in Canonical(e) - todo ==> e.obs[h].number < |views(h).chain|
        invariant book == old(book)
        decreases todo
      {
        var h :| h in todo;
        todo := todo - {h};
        var header := views(h);
        if e.obs[h].number >= |header.chain| {
          book := book[a := now];
          return false;
        }
        if header.chain[e.obs[h].number] != h {
          OrphanOneMore(e, gone, h);
          now, gone := Orphan(now, h), gone + {h};
        }
      }
      assert gone == Stale(e, views);
      book := book[a := now];
      return true;
    }

    /** ReconcileWithLease: observe, then confirm. */
    method ReconcileReceipt(w: World, a: Attempt, q: Answers) returns (ok: bool)
      modifies this`book
      ensures match Reconcile(w, confirmations, a, EntryIn(old(book), a), q)
              case Some(e) => ok && book == old(book)[a := e]
              case None =>
                && !ok
                && var seen := Seen(w, a, EntryIn(old(book), a), q.receipt);
                  book == old(book) || (seen.Some? && book == old(book)[a := seen.value])
    {
      var receipt := Where(w, q.receipt.chain, a);
      if receipt.None? {
        if q.notFound {
          return false;
        }
        book := book[a := EntryIn(book, a)];
        return true;
      }
      var h := receipt.value;
      var seen := Observe(EntryIn(book, a), h, w.height(h), w.receipt(h, a) == Some(true));
      if seen.None? {
        return false;
      }
      book := book[a := seen.value];
      if w.height(h) >= |q.header.chain| {
        return false;
      }
      if !Confirm(confirmations, q.latest, w.height(h), h, q.header.chain[w.height(h)]) {
        return true;
      }
      var effect := w.effect(h, a);
      if w.receipt(h, a) == Some(true) && effect.None? {
        return false;
      }
      var canonical := Canonicalize(seen.value, h, effect);
      if canonical.None? {
        return false;
      }
      book := book[a := canonical.value];
      return true;
    }

    /** The pass after its first scan. */
    method FinishItem(w: World, item: Item, q: Answers) returns (ok: bool)
      requires EntryOk(w, item.attempt, EntryIn(book, item.attempt)) && item.attempt in book
      modifies this`book
      ensures OthersKept(old(book), {item.attempt}, book)
      ensures match AfterScan(w, confirmations, item.attempt, EntryIn(old(book), item.attempt), q, item.unknown)
              case Some(e) => ok && book == old(book)[item.attempt := e]
              case None => !ok
      ensures Steady(w, item.attempt, q, q.receipt)
              && AllIncluded(w, q.receipt, item.attempt, EntryIn(old(book), item.attempt)) ==>
                EntryOk(w, item.attempt, EntryIn(book, item.attempt))
    {
      var a := item.attempt;
      if item.unknown && !q.sighted && !q.mined {
        return true;
      }
      if item.unknown && q.mined && Where(w, q.receipt.chain, a).None? {
        return false;
      }
      ghost var scanned := book[a];
      ok := ReconcileReceipt(w, a, q);
      if !ok {
        if Seen(w, a, scanned, q.receipt).Some? {
          SeenKeeps(w, a, scanned, q.receipt);
        }
        return;
      }
      if Steady(w, a, q, q.receipt) && AllIncluded(w, q.receipt, a, scanned) {
        SteadyReconcile(w, confirmations, a, scanned, q);
      }
      ok := ScanObservations(a, q.last);
    }

    /** process: scan, query, reconcile, scan again, each against the answer it gets. The pass is the
        one MidRoundReorg speaks of; against a node whose chain stays it keeps the rows in step,
        wherever it stops, and ends in agreement. */
    method ProcessItem(w: World, item: Item, q: Answers) returns (ok: bool)
      requires BookOk(w, book)
      modifies this`book
      ensures OthersKept(old(book), {item.attempt}, book)
      ensures match Process(w, confirmations, item.attempt, EntryIn(old(book), item.attempt), q, item.unknown)
              case Some(e) => ok && book == old(book)[item.attempt := e]
              case None => !ok
      ensures Steady(w, item.attempt, q, q.receipt) ==>
                BookOk(w, book) && (ok ==> Agrees(w, q.receipt, confirmations, item.attempt, book[item.attempt]))
    {
      var a := item.attempt;
      ghost var e := EntryIn(book, a);
      assert EntryOk(w, a, e) by {
        EmptyOk(w, a);
      }
      ok := ScanObservations(a, q.scan);
      if !ok {
        ghost var hs :| hs <= Canonical(e) && book == old(book)[a := OrphanAll(e, hs)];
        OrphanAllKeeps(w, a, e, hs);
        return;
      }
      FirstScan(w, a, e, q);
      ok := FinishItem(w, item, q);
      SteadyPass(w, confirmations, a, e, q, item.unknown);
    }

    /** One item of a round whose node stays on one chain. */
    method ProcessSteadily(w: World, item: Item, v: View) returns (ok: bool)
      requires Consistent(w, v) && BookOk(w, book)
      modifies this`book
      ensures OthersKept(old(book), {item.attempt}, book) && BookOk(w, book)
      ensures ok ==> item.attempt in book && Agrees(w, v, confirmations, item.attempt, book[item.attempt])
      ensures Ready(w, v, confirmations, item.attempt, EntryIn(old(book), item.attempt)) ==> ok
    {
      var sighted, notFound := QueryRecovery();
      if Ready(w, v, confirmations, item.attempt, EntryIn(book, item.attempt)) {
        EmptyOk(w, item.attempt);
        ReadyCompletes(w, v, confirmations, item, EntryIn(book, item.attempt), sighted, notFound);
      }
      ok := ProcessItem(w, item, AnswersFrom(w, v, item.attempt, sighted, notFound));
    }

    /** RunOnce over the listed items, stopping at the first failure. A completed round leaves
        every listed attempt in agreement with the round's view and touches no other; so the net
        position of an asset is what the chain itself assigns to the listed attempts with an active
        effect, plus what was booked before for the attempts that are not listed. No item that is
        ready stops the round. */
    method RunOnce(w: World, items: seq<Item>, v: View) returns (ok: bool)
      requires Consistent(w, v) && BookOk(w, book)
      modifies this`book
      ensures BookOk(w, book) && OthersKept(old(book), Attempts(items), book)
      ensures ok ==> AgreesFor(w, v, confirmations, Attempts(items), book)
      ensures ok ==> forall asset :: Position(book, asset) ==
                       Sum(Attempts(items) * Active(book), AssignedBy(w, v, asset)) +
                       Sum(old(book).Keys - Attempts(items), BookedIn(old(book), asset))
      ensures AllReady(w, v, confirmations, items, old(book)) ==> ok
    {
      var n := 0;
      while n < |items|
        invariant 0 <= n <= |items| && BookOk(w, book)
        invariant OthersKept(old(book), Attempts(items[..n]), book)
        invariant AgreesFor(w, v, confirmations, Attempts(items[..n]), book)
      {
        ghost var before := book;
        ghost var ready := AllReady(w, v, confirmations, items, old(book));
        if ready {
          NextIsReady(w, v, confirmations, items, n, old(book), before);
        }
        ok := ProcessSteadily(w, items[n], v);
        OneMoreTouched(old(book), before, book, items, n);
        if !ok {
          ListedBefore(old(book), book, items, n + 1);
          return;
        }
        AgreesForOneMore(w, v, confirmations, items, n, before, book);
        n := n + 1;
      }
      assert items[..n] == items;
      NetPositions(w, v, confirmations, old(book), book, Attempts(items));
      return true;
    }
  }

  lemma FirstScan(w: World, a: Attempt, e: Entry, q: Answers)
    requires EntryOk(w, a, e) && Scan(e, q.scan).Some?
    ensures EntryOk(w, a, Scan(e, q.scan).value)
    ensures Steady(w, a, q, q.receipt) ==> AllIncluded(w, q.receipt, a, Scan(e, q.scan).value)
  {
    OrphanAllKeeps(w, a, e, Stale(e, q.scan));
    ScanKeepsOnChain(w, a, e, q.scan);
  }

  lemma SteadyReconcile(w: World, c: nat, a: Attempt, e: Entry, q: Answers)
    requires Steady(w, a, q, q.receipt) && EntryOk(w, a, e) && AllIncluded(w, q.receipt, a, e)
    requires Reconcile(w, c, a, e, q).Some?
    ensures var r := Reconcile(w, c, a, e, q).value; EntryOk(w, a, r) && Scan(r, q.last) == Some(r)
  {
    ReconcileResult(w, c, a, e, q);
    WhereIsIncluded(w, q.receipt, a);
    var r := Reconcile(w, c, a, e, q).value;
    OnChainOnce(w, a, r, q.receipt);
    ScanFixpoint(w, a, r, q.last);
  }

  lemma SteadyPass(w: World, c: nat, a: Attempt, e: Entry, q: Answers, unknown: bool)
    requires EntryOk(w, a, e)
    ensures Steady(w, a, q, q.receipt) && Process(w, c, a, e, q, unknown).Some? ==>
              && EntryOk(w, a, Process(w, c, a, e, q, unknown).value)
              && Agrees(w, q.receipt, c, a, Process(w, c, a, e, q, unknown).value)
  {
    if Steady(w, a, q, q.receipt) && Process(w, c, a, e, q, unknown).Some? {
      ProcessAgrees(w, c, a, e, q, unknown, q.receipt);
    }
  }

  lemma EmptyOk(w: World, a: Attempt)
    ensures EntryOk(w, a, EMPTY)
  {
  }

  // ---------------------------------------------------------------------------------------
  // Net position

  ghost function Booked(e: Entry, asset: Asset): int
  {
    if IsActive(e) && e.effect.value.effect.asset == asset then e.effect.value.effect.delta else 0
  }

  ghost function BookedIn(book: Book, asset: Asset): Attempt -> int
  {
    (a: Attempt) => Booked(EntryIn(book, a), asset)
  }

  ghost function AssignedBy(w: World, v: View, asset: Asset): Attempt -> int
  {
    (a: Attempt) => Assigned(w, v, a, asset)
  }

  ghost function Active(book: Book): set<Attempt>
  {
    set a | a in book && IsActive(book[a])
  }

  /** The effect the chain itself assigns to the attempt's successful transaction. */
  ghost function Assigned(w: World, v: View, a: Attempt, asset: Asset): int
  {
    if exists h :: Included(w, v, a, h) && w.receipt(h, a) == Some(true) then
      var h :| Included(w, v, a, h) && w.receipt(h, a) == Some(true);
      if w.effect(h, a).Some? && w.effect(h, a).value.asset == asset then w.effect(h, a).value.delta else 0
    else 0
  }

  lemma ActiveIsOnChain(w: World, v: View, c: nat, a: Attempt, e: Entry, asset: Asset)
    requires Consistent(w, v) && Agrees(w, v, c, a, e) && IsActive(e)
    ensures Succeeded(w, v, a) && Booked(e, asset) == Assigned(w, v, a, asset)
  {
    var r := e.effect.value.receipt;
    assert Included(w, v, a, r) && w.receipt(r, a) == Some(true);
    forall h | Included(w, v, a, h) ensures h == r {
      IncludedOnce(w, v, a, h, r);
    }
  }

  ghost function Position(book: Book, asset: Asset): int
  {
    Sum(book.Keys, BookedIn(book, asset))
  }

  /** When the listed attempts agree with the view and the others have the rows they had, the net
      position of an asset is what the chain assigns to the listed attempts with an active effect,
      plus what was booked before for the rest. Of the listed attempts every confirmed one counts,
      and only those that succeeded. */
  lemma NetPosition(w: World, v: View, c: nat, before: Book, book: Book, listed: set<Attempt>, asset: Asset)
    requires Consistent(w, v) && AgreesFor(w, v, c, listed, book) && OthersKept(before, listed, book)
    ensures Position(book, asset) ==
              Sum(listed * Active(book), AssignedBy(w, v, asset)) + Sum(before.Keys - listed, BookedIn(before, asset))
    ensures forall a :: a in listed && Confirmed(w, v, c, a) ==> a in Active(book)
    ensures forall a :: a in listed * Active(book) ==> Succeeded(w, v, a)
  {
    forall a | a in listed * Active(book)
      ensures Succeeded(w, v, a) && Booked(book[a], asset) == Assigned(w, v, a, asset)
    {
      ActiveIsOnChain(w, v, c, a, book[a], asset);
    }
    SumFilter(listed, Active(book), BookedIn(book, asset), AssignedBy(w, v, asset));
    assert book.Keys == listed + (before.Keys - listed);
    SumUnion(listed, before.Keys - listed, BookedIn(book, asset));
    SumCongruent(before.Keys - listed, BookedIn(book, asset), BookedIn(before, asset));
  }

  lemma NetPositions(w: World, v: View, c: nat, before: Book, after: Book, listed: set<Attempt>)
    requires Consistent(w, v) && AgreesFor(w, v, c, listed, after) && OthersKept(before, listed, after)
    ensures forall asset :: Position(after, asset) == Sum(listed * Active(after), AssignedBy(w, v, asset)) +
                                                      Sum(before.Keys - listed, BookedIn(before, asset))
  {
    forall asset ensures Position(after, asset) == Sum(listed * Active(after), AssignedBy(w, v, asset)) +
                                                   Sum(before.Keys - listed, BookedIn(before, asset))
    {
      NetPosition(w, v, c, before, after, listed, asset);
    }
  }

  // ---------------------------------------------------------------------------------------
  // Attempts the submission worker left behind

  /** One recovery round: the state of the submission run it read its list in, and that list. */
  datatype Round = Round(at: nat, listed: set<Attempt>)

  ghost predicate ListedIn(s: ControlledRuns.State, listed: set<Attempt>)
  {
    forall a :: a in listed ==> Controlled.ListedForRecovery(s.db.subs, a)
  }

  /** Rounds that read their lists at or after state `i` of the run; `books[k]` is the book before
      round `k`. */
  ghost predicate IsHistory(run: seq<ControlledRuns.State>, i: nat, books: seq<Book>, rounds: seq<Round>)
  {
    && |books| == |rounds| + 1
    && (forall k :: 0 <= k < |rounds| ==> i <= rounds[k].at < |run| && ListedIn(run[rounds[k].at], rounds[k].listed))
    && (forall k :: 0 <= k < |rounds| ==> OthersKept(books[k], rounds[k].listed, books[k + 1]))
  }

  /** An attempt at a dead end keeps its rows through every later round. If it has no active effect
      then, it never gets one, whichever chain confirms its transaction. */
  lemma {:induction false} StrandedIsNeverBooked(run: seq<ControlledRuns.State>, i: nat, books: seq<Book>,
                                                 rounds: seq<Round>, n: nat, a: Attempt, w: World, v: View, c: nat)
    requires ControlledRuns.IsRun(run) && i < |run| && ControlledStranded.DeadEnd(run[i], a)
    requires IsHistory(run, i, books, rounds) && n < |books|
    ensures EntryIn(books[n], a) == EntryIn(books[0], a)
    ensures Confirmed(w, v, c, a) && !IsActive(EntryIn(books[0], a)) ==> !Agrees(w, v, c, a, EntryIn(books[n], a))
  {
    if n > 0 {
      StrandedIsNeverBooked(run, i, books, rounds, n - 1, a, w, v, c);
      ControlledStranded.DeadEndIsForever(run, i, rounds[n - 1].at, a);
      assert a !in rounds[n - 1].listed;
    }
  }
}
