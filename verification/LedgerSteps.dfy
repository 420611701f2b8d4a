/** The recovery pass step by step: what each transaction does to the version of an observation, and that
    the machine, left alone, gets to where the pass as a function says. */
module LedgerSteps {
  import opened Common
  import opened Ledger
  import opened LedgerRounds

  // ---------------------------------------------------------------------------------------
  // Versions

  /** An observation keeps its block's number and result; its version grows by one with every change of
      its state, and by nothing else. A new one is merely observed, in version 1. */
  ghost predicate Versioned(e: Entry, e': Entry)
  {
    && (forall h :: h in e.obs ==>
          && h in e'.obs && e'.obs[h].number == e.obs[h].number && e'.obs[h].success == e.obs[h].success
          && e'.obs[h].version == e.obs[h].version + (if e'.obs[h].state == e.obs[h].state then 0 else 1))
    && (forall h :: h in e'.obs && h !in e.obs ==> e'.obs[h].state == Observed && e'.obs[h].version == 1)
  }

  lemma StepIsVersioned(w: World, c: nat, a: Attempt, s: State, e: Event, s': State)
    requires Inv(w, c, a, s) && Step(w, c, a, s, e, s')
    ensures Versioned(s.entry, s'.entry)
  {
  }

  /** Over every run, of two states of one observation the later has at least the version of the earlier,
      and with the same version it is the same row. */
  lemma {:induction false} VersionNamesOneRow(w: World, c: nat, a: Attempt, run: seq<State>, i: nat, j: nat, h: Hash)
    requires IsRun(w, c, a, run) && i <= j < |run| && h in run[i].entry.obs
    ensures h in run[j].entry.obs
    ensures run[i].entry.obs[h].version <= run[j].entry.obs[h].version
    ensures run[i].entry.obs[h].version == run[j].entry.obs[h].version ==>
              run[i].entry.obs[h] == run[j].entry.obs[h]
    decreases j - i
  {
    if i < j {
      VersionNamesOneRow(w, c, a, run, i, j - 1, h);
      RunKeepsInv(w, c, a, run, j - 1);
      assert StepAt(w, c, a, run, j);
      var e :| Step(w, c, a, run[j - 1], e, run[j]);
      StepIsVersioned(w, c, a, run[j - 1], e, run[j]);
    }
  }

  // ---------------------------------------------------------------------------------------
  // The machine gets where the pass goes

  /** Consecutive steps of the machine from `s` to `t`. */
  ghost predicate IsPath(w: World, c: nat, a: Attempt, path: seq<State>, s: State, t: State)
  {
    && |path| > 0 && path[0] == s && path[|path| - 1] == t
    && forall i {:trigger StepAt(w, c, a, path, i)} :: 0 < i < |path| ==> StepAt(w, c, a, path, i)
  }

  ghost predicate Leads(w: World, c: nat, a: Attempt, s: State, t: State)
  {
    exists path :: IsPath(w, c, a, path, s, t)
  }

  lemma LeadsNowhere(w: World, c: nat, a: Attempt, s: State)
    ensures Leads(w, c, a, s, s)
  {
    assert IsPath(w, c, a, [s], s, s);
  }

  lemma LeadsOn(w: World, c: nat, a: Attempt, s: State, t: State, e: Event, u: State)
    requires Leads(w, c, a, s, t) && Step(w, c, a, t, e, u)
    ensures Leads(w, c, a, s, u)
  {
    var path :| IsPath(w, c, a, path, s, t);
    var more := path + [u];
    forall i {:trigger StepAt(w, c, a, more, i)} | 0 < i < |more| ensures StepAt(w, c, a, more, i) {
      if i < |path| {
        assert StepAt(w, c, a, path, i);
      } else {
        assert Next(w, c, a, t, u);
      }
    }
    assert IsPath(w, c, a, more, s, u);
  }

  /** One scan, observation by observation. */
  lemma {:induction false} ScanLeads(w: World, c: nat, a: Attempt, s: State, e: Entry, v: View, second: bool,
                                     todo: set<Hash>, gone: set<Hash>)
    requires todo <= Canonical(e) && gone <= Canonical(e) && todo !! gone
    requires forall h :: h in todo ==> e.obs[h].number < |v.chain|
    requires Leads(w, c, a, s, State(OrphanAll(e, gone), Scanning(second, todo), v))
    ensures var stale := set h | h in todo && !On(v, e.obs[h].number, h);
            Leads(w, c, a, s, State(OrphanAll(e, gone + stale), Scanning(second, {}), v))
    decreases todo
  {
    var stale := set h | h in todo && !On(v, e.obs[h].number, h);
    if todo == {} {
      assert gone + stale == gone;
    } else {
      var h :| h in todo;
      var here := State(OrphanAll(e, gone), Scanning(second, todo), v);
      var rest := todo - {h};
      assert here.entry.obs[h].number == e.obs[h].number;
      var stale' := set k | k in rest && !On(v, e.obs[k].number, k);
      if On(v, e.obs[h].number, h) {
        LeadsOn(w, c, a, s, here, CheckEvent(h), here.(phase := Scanning(second, rest)));
        ScanLeads(w, c, a, s, e, v, second, rest, gone);
        assert gone + stale == gone + stale';
      } else {
        OrphanOneMore(e, gone, h);
        LeadsOn(w, c, a, s, here, CheckEvent(h), State(OrphanAll(e, gone + {h}), Scanning(second, rest), v));
        ScanLeads(w, c, a, s, e, v, second, rest, gone + {h});
        assert gone + stale == gone + {h} + stale';
      }
    }
  }

  lemma WholeScanLeads(w: World, c: nat, a: Attempt, s: State, e: Entry, v: View, second: bool, views: Headers)
    requires (forall h :: views(h) == v) && Scan(e, views).Some?
    requires Leads(w, c, a, s, State(e, Scanning(second, Canonical(e)), v))
    ensures Leads(w, c, a, s, State(Scan(e, views).value, if second then Completed else Asking, v))
  {
    assert OrphanAll(e, {}) == e;
    ScanLeads(w, c, a, s, e, v, second, Canonical(e), {});
    var stale := set h | h in Canonical(e) && !On(v, e.obs[h].number, h);
    assert {} + stale == Stale(e, views);
    var here := State(OrphanAll(e, {} + stale), Scanning(second, {}), v);
    LeadsOn(w, c, a, s, here, ScanDoneEvent, here.(phase := if second then Completed else Asking));
  }

  lemma ReconcileLeads(w: World, c: nat, a: Attempt, s: State, e: Entry, q: Answers, unknown: bool, v: View)
    requires Steady(w, a, q, v) && Leads(w, c, a, s, State(e, Asking, v)) && !EndsEarly(q, unknown)
    requires Reconcile(w, c, a, e, q).Some?
    ensures var r := Reconcile(w, c, a, e, q).value;
            Leads(w, c, a, s, State(r, Scanning(true, Canonical(r)), v))
  {
    var here := State(e, Asking, v);
    match Where(w, v.chain, a) {
      case None =>
        LeadsOn(w, c, a, s, here, AskEvent(unknown, q.sighted), here.(phase := Scanning(true, Canonical(e))));
      case Some(h) =>
        var seen := Observe(e, h, w.height(h), w.receipt(h, a) == Some(true)).value;
        var asked := State(seen, Confirming(h), v);
        LeadsOn(w, c, a, s, here, AskEvent(unknown, q.sighted), asked);
        var r := Reconcile(w, c, a, e, q).value;
        LeadsOn(w, c, a, s, asked, ConfirmEvent, State(r, Scanning(true, Canonical(r)), v));
    }
  }

  /** Against a node whose chain stays, a pass that completes is one the machine can take: from the rows
      before it to completion with the rows after it. */
  lemma PassIsAPath(w: World, c: nat, a: Attempt, e: Entry, q: Answers, unknown: bool, v: View, before: View)
    requires Steady(w, a, q, v) && Process(w, c, a, e, q, unknown).Some?
    ensures Leads(w, c, a, State(e, Idle, before), State(Process(w, c, a, e, q, unknown).value, Completed, v))
  {
    var s := State(e, Idle, before);
    LeadsNowhere(w, c, a, s);
    LeadsOn(w, c, a, s, s, StartEvent(v), State(e, Scanning(false, Canonical(e)), v));
    WholeScanLeads(w, c, a, s, e, v, false, q.scan);
    var scanned := Scan(e, q.scan).value;
    if EndsEarly(q, unknown) {
      LeadsOn(w, c, a, s, State(scanned, Asking, v), AskEvent(unknown, q.sighted), State(scanned, Completed, v));
    } else {
      ReconcileLeads(w, c, a, s, scanned, q, unknown, v);
      WholeScanLeads(w, c, a, s, Reconcile(w, c, a, scanned, q).value, v, true, q.last);
    }
  }
}
