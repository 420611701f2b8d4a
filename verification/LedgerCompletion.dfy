/** When a recovery pass over one attempt completes, as a condition on the chain, the rows and the
    node's answers. A pass that does not complete stops the worker in front of every later item. */
module LedgerCompletion {
  import opened Common
  import opened Ledger
  import opened LedgerRounds

  /** The success of block `h` can be booked: its effect resolves, and an effect row the attempt has
      is of the same asset and amount, unless nothing is left to write. */
  predicate Bookable(w: World, a: Attempt, e: Entry, h: Hash, written: bool)
  {
    w.receipt(h, a) == Some(true) ==>
      && w.effect(h, a).Some?
      && (written || e.effect.None? || w.effect(h, a) == Some(e.effect.value.effect))
  }

  lemma ReconcileCompletesExactlyWhen(w: World, c: nat, a: Attempt, e: Entry, q: Answers)
    requires EntryOk(w, a, e)
    ensures Reconcile(w, c, a, e, q).Some? <==>
              match Where(w, q.receipt.chain, a)
              case None => !q.notFound
              case Some(h) =>
                && w.height(h) < |q.header.chain|
                && (forall t :: t in Taken(w, c, a, q) ==> Bookable(w, a, e, t, t in Canonical(e)))
  {
    WhereFinds(w, q.receipt.chain, a);
    if Where(w, q.receipt.chain, a).Some? {
      var h := Where(w, q.receipt.chain, a).value;
      ObserveKeeps(w, a, e, h);
      var seen := Observe(e, h, w.height(h), w.receipt(h, a).value).value;
      assert h in Canonical(seen) <==> h in Canonical(e);
    }
  }

  /** The last scan finds the height of every block that is canonical by then. */
  ghost predicate LastScanSees(w: World, c: nat, a: Attempt, e: Entry, q: Answers, unknown: bool)
  {
    forall h :: h in Kept(w, c, a, e, q, unknown) ==> w.height(h) < |q.last(h).chain|
  }

  /** What the reconcile of a pass needs of the answers it gets. */
  ghost predicate Reconcilable(w: World, c: nat, a: Attempt, e: Entry, q: Answers, unknown: bool)
  {
    match Where(w, q.receipt.chain, a)
    case None => !q.notFound && !(unknown && q.mined)
    case Some(h) =>
      && w.height(h) < |q.header.chain|
      && (forall t :: t in Taken(w, c, a, q) ==> Bookable(w, a, e, t, t in Canonical(e) && OnChain(w, q.scan(t), t)))
  }

  /** Whatever the node answers, a pass completes if and only if every height it asks for exists on
      the chain it is asked of, and it ends early or can reconcile what it is told. */
  lemma PassCompletesExactlyWhen(w: World, c: nat, a: Attempt, e: Entry, q: Answers, unknown: bool)
    requires EntryOk(w, a, e)
    ensures Process(w, c, a, e, q, unknown).Some? <==>
              && (forall h :: h in Canonical(e) ==> w.height(h) < |q.scan(h).chain|)
              && (|| (unknown && !q.sighted && !q.mined)
                  || (Reconcilable(w, c, a, e, q, unknown) && LastScanSees(w, c, a, e, q, unknown)))
  {
    assert ScanSees(e, q.scan) <==> forall h :: h in Canonical(e) ==> w.height(h) < |q.scan(h).chain|;
    if ScanSees(e, q.scan) && !EndsEarly(q, unknown) {
      RestCompletesExactlyWhen(w, c, a, e, q, unknown);
    }
  }

  lemma RestCompletesExactlyWhen(w: World, c: nat, a: Attempt, e: Entry, q: Answers, unknown: bool)
    requires EntryOk(w, a, e) && Scan(e, q.scan).Some? && !EndsEarly(q, unknown)
    ensures AfterScan(w, c, a, Scan(e, q.scan).value, q, unknown).Some? <==>
              Reconcilable(w, c, a, e, q, unknown) && LastScanSees(w, c, a, e, q, unknown)
  {
    OrphanAllKeeps(w, a, e, Stale(e, q.scan));
    ScanKeepsOnChain(w, a, e, q.scan);
    var scanned := Scan(e, q.scan).value;
    ScannedIsBookable(w, c, a, e, q);
    ReconcileCompletesExactlyWhen(w, c, a, scanned, q);
    if Reconcile(w, c, a, scanned, q).Some? {
      ReconcileResult(w, c, a, scanned, q);
      var r := Reconcile(w, c, a, scanned, q).value;
      assert Canonical(r) == Kept(w, c, a, e, q, unknown);
      assert ScanSees(r, q.last) <==> LastScanSees(w, c, a, e, q, unknown);
    }
  }

  /** The scan changes neither the asset nor the amount of the attempt's effect row. */
  lemma ScannedIsBookable(w: World, c: nat, a: Attempt, e: Entry, q: Answers)
    requires EntryOk(w, a, e) && Scan(e, q.scan).Some?
    ensures var scanned := Scan(e, q.scan).value;
            forall t :: Bookable(w, a, scanned, t, t in Canonical(scanned)) <==>
                        Bookable(w, a, e, t, t in Canonical(e) && OnChain(w, q.scan(t), t))
  {
    ScanKeepsOnChain(w, a, e, q.scan);
  }

  // ---------------------------------------------------------------------------------------
  // A node whose chain stays

  /** No block of the chain holds the transaction. */
  ghost predicate Missing(w: World, v: View, a: Attempt)
  {
    forall h: Hash :: !Included(w, v, a, h)
  }

  /** Against a node whose chain does not change a pass completes if and only if no canonical block
      lies above the head; and a transaction that is not on the chain is an unknown one nobody has
      seen, or its missing receipt is not an error; and a confirmed success can be booked. */
  lemma SteadyPassCompletesExactlyWhen(w: World, c: nat, a: Attempt, e: Entry, q: Answers, unknown: bool, v: View)
    requires Steady(w, a, q, v) && EntryOk(w, a, e)
    ensures Process(w, c, a, e, q, unknown).Some? <==>
              && (forall h :: h in Canonical(e) ==> w.height(h) < |v.chain|)
              && (Missing(w, v, a) ==> !q.notFound || (unknown && !q.sighted))
              && (forall h :: ConfirmedAt(w, v, c, a, h) ==> Bookable(w, a, e, h, h in Canonical(e)))
  {
    WhereIsIncluded(w, v, a);
    PassCompletesExactlyWhen(w, c, a, e, q, unknown);
    match Where(w, v.chain, a) {
      case None =>
        assert Missing(w, v, a);
      case Some(h) =>
        assert Included(w, v, a, h);
        forall t | ConfirmedAt(w, v, c, a, t) ensures t == h && h in Taken(w, c, a, q) {
          assert Included(w, v, a, t);
        }
        assert Taken(w, c, a, q) <= {h};
        SteadyReconcilable(w, c, a, e, q, unknown, v, h);
    }
  }

  lemma SteadyReconcilable(w: World, c: nat, a: Attempt, e: Entry, q: Answers, unknown: bool, v: View, h: Hash)
    requires Steady(w, a, q, v) && EntryOk(w, a, e) && Included(w, v, a, h) && Where(w, v.chain, a) == Some(h)
    ensures Reconcilable(w, c, a, e, q, unknown) <==>
              (ConfirmedAt(w, v, c, a, h) ==> Bookable(w, a, e, h, h in Canonical(e)))
    ensures (forall k :: k in Canonical(e) ==> w.height(k) < |v.chain|) ==> LastScanSees(w, c, a, e, q, unknown)
  {
    assert w.receipt(h, a) == Some(true) ==> (h in Taken(w, c, a, q) <==> ConfirmedAt(w, v, c, a, h));
  }

  /** The rows after the first scan: of the canonical ones only that of the including block is left. */
  lemma ScanLeavesIncluded(w: World, a: Attempt, e: Entry, v: View, views: Headers, h: Hash)
    requires Consistent(w, v) && (forall k :: views(k) == v) && EntryOk(w, a, e) && Included(w, v, a, h)
    requires forall k :: k in Canonical(e) ==> w.height(k) < |v.chain|
    ensures Scan(e, views).Some?
    ensures var scanned := Scan(e, views).value;
            && EntryOk(w, a, scanned) && Canonical(scanned) == Canonical(e) * {h} && scanned.obs.Keys == e.obs.Keys
            && (Canonical(e) <= {h} ==> scanned == e)
  {
    OrphanAllKeeps(w, a, e, Stale(e, views));
    ScanKeepsOnChain(w, a, e, views);
    var scanned := Scan(e, views).value;
    forall k | k in Canonical(scanned) ensures k == h {
      IncludedOnce(w, v, a, k, h);
    }
    assert Canonical(scanned) == Canonical(e) * {h};
  }

  /** The rest of the pass only records the observation. */
  lemma UnconfirmedIsOnlyObserved(w: World, c: nat, a: Attempt, e: Entry, q: Answers, unknown: bool, v: View, h: Hash)
    requires Steady(w, a, q, v) && EntryOk(w, a, e) && Included(w, v, a, h) && Canonical(e) <= {h}
    requires |v.chain| - 1 - w.height(h) < c
    ensures AfterScan(w, c, a, e, q, unknown) == Observe(e, h, w.height(h), w.receipt(h, a).value)
  {
    WhereIsIncluded(w, v, a);
    ObserveKeeps(w, a, e, h);
    var seen := Observe(e, h, w.height(h), w.receipt(h, a).value).value;
    assert Reconcile(w, c, a, e, q) == Some(seen);
    ScanFixpoint(w, a, seen, q.last);
  }

  /** A transaction on the chain but not yet confirmed never stops a pass. The pass records the
      observation and leaves the canonical one that is on the chain as it is. */
  lemma UnconfirmedInclusionCompletes(w: World, c: nat, a: Attempt, e: Entry, q: Answers, unknown: bool, v: View,
                                      h: Hash)
    requires Steady(w, a, q, v) && EntryOk(w, a, e)
    requires Included(w, v, a, h) && |v.chain| - 1 - w.height(h) < c
    requires forall k :: k in Canonical(e) ==> w.height(k) < |v.chain|
    ensures Process(w, c, a, e, q, unknown).Some?
    ensures var f := Process(w, c, a, e, q, unknown).value;
            && h in f.obs && f.obs[h].number == w.height(h) && w.receipt(h, a) == Some(f.obs[h].success)
            && f.obs.Keys == e.obs.Keys + {h}
            && Canonical(f) == Canonical(e) * {h}
            && (Canonical(e) <= {h} ==> f == if h in e.obs then e else e.(obs := e.obs[h := f.obs[h]]))
            && (h !in e.obs ==> f.obs[h].state == Observed)
  {
    ScanLeavesIncluded(w, a, e, v, q.scan, h);
    var scanned := Scan(e, q.scan).value;
    UnconfirmedIsOnlyObserved(w, c, a, scanned, q, unknown, v, h);
    ObserveKeeps(w, a, scanned, h);
    ObservesExactlyWhen(scanned, h, w.height(h), w.receipt(h, a).value);
  }
}
