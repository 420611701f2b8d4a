/** One recovery pass over one attempt: check the canonical observations against the chain, look
    for a receipt, confirm it, check again. First as a state machine that may crash after every
    transaction, then as the function a pass without crash computes. */
module LedgerRounds {
  import opened Common
  import opened Ledger

  /** The node's receipt lookup. */
  function Where(w: World, chain: seq<Hash>, a: Attempt): Option<Hash>
  {
    if chain == [] then None
    else if w.receipt(chain[|chain| - 1], a).Some? then Some(chain[|chain| - 1])
    else Where(w, chain[..|chain| - 1], a)
  }

  lemma {:induction false} WhereFinds(w: World, chain: seq<Hash>, a: Attempt)
    ensures Where(w, chain, a).Some? ==>
              Where(w, chain, a).value in chain && w.receipt(Where(w, chain, a).value, a).Some?
    ensures Where(w, chain, a).None? ==> forall h :: h in chain ==> w.receipt(h, a).None?
  {
    if chain != [] {
      WhereFinds(w, chain[..|chain| - 1], a);
      assert chain == chain[..|chain| - 1] + [chain[|chain| - 1]];
    }
  }

  lemma WhereIsIncluded(w: World, v: View, a: Attempt)
    requires Consistent(w, v)
    ensures forall h: Hash :: Included(w, v, a, h) <==> Where(w, v.chain, a) == Some(h)
  {
    WhereFinds(w, v.chain, a);
    forall h: Hash ensures Included(w, v, a, h) <==> Where(w, v.chain, a) == Some(h) {
      if Where(w, v.chain, a).Some? {
        var found := Where(w, v.chain, a).value;
        var i :| 0 <= i < |v.chain| && v.chain[i] == found;
        assert Included(w, v, a, found);
        if Included(w, v, a, h) {
          IncludedOnce(w, v, a, h, found);
        }
      }
    }
  }

  // ---------------------------------------------------------------------------------------
  // The crash-prone machine

  datatype Phase = Idle | Scanning(second: bool, todo: set<Hash>) | Asking | Confirming(h: Hash) | Completed

  datatype State = State(entry: Entry, phase: Phase, view: View)

  datatype Event =
    | StartEvent(view: View)
    | CheckEvent(h: Hash)
    | ScanDoneEvent
    | AskEvent(unknown: bool, txFound: bool)
    | ConfirmEvent
    | CrashEvent

  ghost predicate Init(s: State)
  {
    s.entry == EMPTY && s.phase == Idle
  }

  ghost predicate Step(w: World, c: nat, a: Attempt, s: State, e: Event, s': State)
  {
    match e
    case StartEvent(v) =>
      && (s.phase == Idle || s.phase == Completed) && Consistent(w, v)
      && s' == State(s.entry, Scanning(false, Canonical(s.entry)), v)
    case CheckEvent(h) =>
      && s.phase.Scanning? && h in s.phase.todo && h in s.entry.obs
      && var number := s.entry.obs[h].number;
        if number >= |s.view.chain| then s' == s.(phase := Idle)
        else s' == State(if On(s.view, number, h) then s.entry else Orphan(s.entry, h),
                         s.phase.(todo := s.phase.todo - {h}), s.view)
    case ScanDoneEvent =>
      s.phase.Scanning? && s.phase.todo == {} && s' == s.(phase := if s.phase.second then Completed else Asking)
    case AskEvent(unknown, txFound) =>
      && s.phase == Asking
      && (match Where(w, s.view.chain, a)
          case None =>
            s' == s.(phase := if unknown && !txFound then Completed else Scanning(true, Canonical(s.entry)))
          case Some(h) =>
            match Observe(s.entry, h, w.height(h), w.receipt(h, a) == Some(true))
            case None => s' == s.(phase := Idle)
            case Some(entry) => s' == s.(entry := entry, phase := Confirming(h)))
    case ConfirmEvent =>
      && s.phase.Confirming?
      && var h := s.phase.h;
        if !(w.height(h) < |s.view.chain|) then s' == s.(phase := Idle)
        else if !Confirm(c, |s.view.chain| - 1, w.height(h), h, s.view.chain[w.height(h)]) then
          s' == s.(phase := Scanning(true, Canonical(s.entry)))
        else if w.receipt(h, a) == Some(true) && w.effect(h, a).None? then s' == s.(phase := Idle)
        else
          (match Canonicalize(s.entry, h, w.effect(h, a))
           case None => s' == s.(phase := Idle)
           case Some(entry) => s' == s.(entry := entry, phase := Scanning(true, Canonical(entry))))
    case CrashEvent => s' == s.(phase := Idle)
  }

  ghost predicate Next(w: World, c: nat, a: Attempt, s: State, s': State)
  {
    exists e :: Step(w, c, a, s, e, s')
  }

  ghost predicate StepAt(w: World, c: nat, a: Attempt, run: seq<State>, i: nat)
    requires 0 < i < |run|
  {
    Next(w, c, a, run[i - 1], run[i])
  }

  ghost predicate IsRun(w: World, c: nat, a: Attempt, run: seq<State>)
  {
    && |run| > 0 && Init(run[0])
    && forall i {:trigger StepAt(w, c, a, run, i)} :: 0 < i < |run| ==> StepAt(w, c, a, run, i)
  }

  ghost predicate AllIncluded(w: World, v: View, a: Attempt, e: Entry)
  {
    forall h :: h in Canonical(e) ==> Included(w, v, a, h)
  }

  ghost predicate PhaseOk(w: World, c: nat, a: Attempt, s: State)
  {
    match s.phase
    case Idle => true
    case Scanning(second, todo) =>
      && Consistent(w, s.view) && todo <= Canonical(s.entry)
      && (forall h :: h in Canonical(s.entry) ==> h in todo || Included(w, s.view, a, h))
      && (second ==> AllIncluded(w, s.view, a, s.entry) && (Confirmed(w, s.view, c, a) ==> IsActive(s.entry)))
    case Asking => Consistent(w, s.view) && AllIncluded(w, s.view, a, s.entry)
    case Confirming(h) =>
      && Consistent(w, s.view) && AllIncluded(w, s.view, a, s.entry)
      && Included(w, s.view, a, h) && h in s.entry.obs
    case Completed => Consistent(w, s.view) && Agrees(w, s.view, c, a, s.entry)
  }

  ghost predicate Inv(w: World, c: nat, a: Attempt, s: State)
  {
    EntryOk(w, a, s.entry) && PhaseOk(w, c, a, s)
  }

  lemma CheckKeepsInv(w: World, c: nat, a: Attempt, s: State, e: Event, s': State)
    requires Inv(w, c, a, s) && e.CheckEvent? && Step(w, c, a, s, e, s')
    ensures Inv(w, c, a, s')
  {
    var h := e.h;
    if !On(s.view, s.entry.obs[h].number, h) && s.entry.obs[h].number < |s.view.chain| {
      OrphanKeeps(w, a, s.entry, h);
      assert s.phase.second ==> Included(w, s.view, a, h);
    }
  }

  lemma AskKeepsInv(w: World, c: nat, a: Attempt, s: State, e: Event, s': State)
    requires Inv(w, c, a, s) && e.AskEvent? && Step(w, c, a, s, e, s')
    ensures Inv(w, c, a, s')
  {
    WhereIsIncluded(w, s.view, a);
    match Where(w, s.view.chain, a) {
      case None =>
        assert forall h :: !Included(w, s.view, a, h);
        assert Canonical(s.entry) == {};
        assert IsActive(s.entry) ==> s.entry.effect.value.receipt in Canonical(s.entry);
      case Some(h) =>
        assert Included(w, s.view, a, h);
        ObserveKeeps(w, a, s.entry, h);
    }
  }

  lemma ConfirmKeepsInv(w: World, c: nat, a: Attempt, s: State, e: Event, s': State)
    requires Inv(w, c, a, s) && e.ConfirmEvent? && Step(w, c, a, s, e, s')
    ensures Inv(w, c, a, s')
  {
    var h := s.phase.h;
    forall k | Included(w, s.view, a, k) ensures k == h {
      IncludedOnce(w, s.view, a, k, h);
    }
    assert Canonical(s.entry) <= {h};
    if s'.phase.Scanning? && Confirm(c, |s.view.chain| - 1, w.height(h), h, s.view.chain[w.height(h)]) {
      CanonicalizeKeeps(w, a, s.entry, h);
    }
    if Confirmed(w, s.view, c, a) {
      var k: Hash :| ConfirmedAt(w, s.view, c, a, k);
      assert k == h;
    }
  }

  lemma ScanDoneKeepsInv(w: World, c: nat, a: Attempt, s: State, s': State)
    requires Inv(w, c, a, s) && Step(w, c, a, s, ScanDoneEvent, s')
    ensures Inv(w, c, a, s')
  {
    if s.phase.second && IsActive(s.entry) {
      assert s.entry.effect.value.receipt in Canonical(s.entry);
    }
  }

  lemma StepKeepsInv(w: World, c: nat, a: Attempt, s: State, e: Event, s': State)
    requires Inv(w, c, a, s) && Step(w, c, a, s, e, s')
    ensures Inv(w, c, a, s')
  {
    match e {
      case CheckEvent(_) => CheckKeepsInv(w, c, a, s, e, s');
      case AskEvent(_, _) => AskKeepsInv(w, c, a, s, e, s');
      case ConfirmEvent => ConfirmKeepsInv(w, c, a, s, e, s');
      case ScanDoneEvent => ScanDoneKeepsInv(w, c, a, s, s');
      case _ =>
    }
  }

  lemma {:induction false} RunKeepsInv(w: World, c: nat, a: Attempt, run: seq<State>, i: nat)
    requires IsRun(w, c, a, run) && i < |run|
    ensures Inv(w, c, a, run[i])
  {
    if i > 0 {
      RunKeepsInv(w, c, a, run, i - 1);
      assert StepAt(w, c, a, run, i);
      var e :| Step(w, c, a, run[i - 1], e, run[i]);
      StepKeepsInv(w, c, a, run[i - 1], e, run[i]);
    }
  }

  /** Over any number of rounds, each with its own chain view and each possibly cut short by a
      crash: whenever a round completes, the rows agree with that round's view; and at every
      commit point the effect is active exactly while an observation is canonical_success. */
  lemma CompletedRoundAgrees(w: World, c: nat, a: Attempt, run: seq<State>, i: nat)
    requires IsRun(w, c, a, run) && i < |run|
    ensures run[i].phase == Completed ==> Agrees(w, run[i].view, c, a, run[i].entry)
    ensures AtMostOneCanonical(run[i].entry) && EffectInStep(w, a, run[i].entry)
  {
    RunKeepsInv(w, c, a, run, i);
  }

  // ---------------------------------------------------------------------------------------
  // A pass without crash, as a function of what the node answers to each of its queries

  /** The answers to the header queries of one scan: the chain each observation was checked against. */
  type Headers = Hash -> View

  /** One answer per query of a pass, in order: the headers of the canonical observations, whether
      the evidence query saw the transaction and a receipt of it, the receipt (and whether a missing
      one is an error), the header at its height, the latest number, and the headers of the second
      scan, one query for each observation that is canonical by then. */
  datatype Answers = Answers(scan: Headers, sighted: bool, mined: bool, receipt: View, notFound: bool, header: View,
                             latest: nat, last: Headers)

  /** The answers of a node whose chain does not change during the pass. */
  ghost predicate Steady(w: World, a: Attempt, q: Answers, v: View)
  {
    && Consistent(w, v)
    && q.mined == Where(w, v.chain, a).Some? && q.receipt == v && q.header == v && q.latest == |v.chain| - 1
    && forall h :: q.scan(h) == v && q.last(h) == v
  }

  predicate ScanSees(e: Entry, views: Headers)
  {
    forall h :: h in Canonical(e) ==> e.obs[h].number < |views(h).chain|
  }

  function Stale(e: Entry, views: Headers): set<Hash>
  {
    set h | h in Canonical(e) && !On(views(h), e.obs[h].number, h)
  }

  function OrphanAll(e: Entry, hs: set<Hash>): Entry
    requires hs <= Canonical(e)
  {
    Entry(map h | h in e.obs :: if h in hs then e.obs[h].(state := Orphaned, version := e.obs[h].version + 1)
          else e.obs[h],
          if e.effect.Some? && hs != {} then Some(e.effect.value.(active := false)) else e.effect)
  }

  /** checkReorg over a list of canonical observations, one query each. */
  function Scan(e: Entry, views: Headers): Option<Entry>
  {
    if ScanSees(e, views) then Some(OrphanAll(e, Stale(e, views))) else None
  }

  /** The observation step of reconcile. */
  function Seen(w: World, a: Attempt, e: Entry, v: View): Option<Entry>
  {
    var found := Where(w, v.chain, a);
    if found.None? then None
    else Observe(e, found.value, w.height(found.value), w.receipt(found.value, a) == Some(true))
  }

  lemma SeenKeeps(w: World, a: Attempt, e: Entry, v: View)
    requires EntryOk(w, a, e) && Seen(w, a, e, v).Some?
    ensures EntryOk(w, a, Seen(w, a, e, v).value)
  {
    WhereFinds(w, v.chain, a);
    ObserveKeeps(w, a, e, Where(w, v.chain, a).value);
  }

  /** The block that the receipt, header and latest queries together confirm. */
  function Taken(w: World, c: nat, a: Attempt, q: Answers): set<Hash>
  {
    match Where(w, q.receipt.chain, a)
    case None => {}
    case Some(h) =>
      if w.height(h) < |q.header.chain| && Confirm(c, q.latest, w.height(h), h, q.header.chain[w.height(h)])
      then {h} else {}
  }

  /** reconcile: ErrReceiptPending and ErrNotCanonical are tolerated, every other error is not. The
      effect of a confirmed success is resolved before it is known whether it is still needed. */
  function Reconcile(w: World, c: nat, a: Attempt, e: Entry, q: Answers): Option<Entry>
  {
    match Where(w, q.receipt.chain, a)
    case None => if q.notFound then None else Some(e)
    case Some(h) =>
      match Observe(e, h, w.height(h), w.receipt(h, a) == Some(true))
      case None => None
      case Some(seen) =>
        if !(w.height(h) < |q.header.chain|) then None
        else if !Confirm(c, q.latest, w.height(h), h, q.header.chain[w.height(h)]) then Some(seen)
        else if w.receipt(h, a) == Some(true) && w.effect(h, a).None? then None
        else Canonicalize(seen, h, w.effect(h, a))
  }

  /** An unknown submission without any evidence ends the pass before its receipt is read. */
  predicate EndsEarly(q: Answers, unknown: bool)
  {
    unknown && !q.sighted && !q.mined
  }

  /** A pass after its first scan. A receipt the evidence saw must still be there to be read. */
  function AfterScan(w: World, c: nat, a: Attempt, scanned: Entry, q: Answers, unknown: bool): Option<Entry>
  {
    if EndsEarly(q, unknown) then Some(scanned)
    else if unknown && q.mined && Where(w, q.receipt.chain, a).None? then None
    else
      match Reconcile(w, c, a, scanned, q)
      case None => None
      case Some(reconciled) => Scan(reconciled, q.last)
  }

  /** process of the recovery worker. */
  function Process(w: World, c: nat, a: Attempt, e: Entry, q: Answers, unknown: bool): Option<Entry>
  {
    match Scan(e, q.scan)
    case None => None
    case Some(scanned) => AfterScan(w, c, a, scanned, q, unknown)
  }

  /** Orphaning one stale observation after another is orphaning them all at once. */
  lemma OrphanOneMore(e: Entry, hs: set<Hash>, h: Hash)
    requires hs <= Canonical(e) && h in Canonical(e) && h !in hs
    ensures Orphan(OrphanAll(e, hs), h) == OrphanAll(e, hs + {h})
  {
    assert Orphan(OrphanAll(e, hs), h).obs == OrphanAll(e, hs + {h}).obs;
  }

  lemma OrphanAllKeeps(w: World, a: Attempt, e: Entry, hs: set<Hash>)
    requires EntryOk(w, a, e) && hs <= Canonical(e)
    ensures EntryOk(w, a, OrphanAll(e, hs)) && Canonical(OrphanAll(e, hs)) == Canonical(e) - hs
  {
    if hs == {} {
      assert OrphanAll(e, hs) == e;
    } else {
      var h :| h in hs;
      assert hs == {h};
      OrphanKeeps(w, a, e, h);
      assert OrphanAll(e, hs) == Orphan(e, h);
    }
  }

  lemma ScanFixpoint(w: World, a: Attempt, e: Entry, views: Headers)
    requires ObservationsOk(w, a, e) && forall h :: h in Canonical(e) ==> OnChain(w, views(h), h)
    ensures Scan(e, views) == Some(e)
  {
    assert Stale(e, views) == {};
    assert OrphanAll(e, {}) == e;
  }

  // ---------------------------------------------------------------------------------------
  // Exactly when a pass ends in agreement with a chain, and with its rows in step

  predicate OnChain(w: World, v: View, h: Hash)
  {
    On(v, w.height(h), h)
  }

  /** The blocks that are canonical when the second scan begins. */
  function Kept(w: World, c: nat, a: Attempt, e: Entry, q: Answers, unknown: bool): set<Hash>
  {
    (set h | h in Canonical(e) && OnChain(w, q.scan(h), h)) + (if EndsEarly(q, unknown) then {} else Taken(w, c, a, q))
  }

  /** Those of them that the second scan, if there is one, finds on the chain it asks. */
  function Survivors(w: World, c: nat, a: Attempt, e: Entry, q: Answers, unknown: bool): set<Hash>
  {
    set h | h in Kept(w, c, a, e, q, unknown) && (EndsEarly(q, unknown) || OnChain(w, q.last(h), h))
  }

  /** The survivors are on `v`; and if the success is confirmed there, there is one and none was
      dropped beside it. */
  ghost predicate Settled(w: World, c: nat, a: Attempt, e: Entry, q: Answers, unknown: bool, v: View)
  {
    var kept, survivors := Kept(w, c, a, e, q, unknown), Survivors(w, c, a, e, q, unknown);
    && (forall h :: h in survivors ==> OnChain(w, v, h))
    && (Confirmed(w, v, c, a) ==> survivors == kept && survivors != {})
  }

  /** Two kept blocks were each found on the chain they were asked of. */
  ghost predicate Doubled(w: World, c: nat, a: Attempt, e: Entry, q: Answers, unknown: bool)
  {
    var survivors := Survivors(w, c, a, e, q, unknown);
    exists h, k :: h in survivors && k in survivors && h != k
  }

  /** One kept block was dropped while another one survives with the success. */
  ghost predicate Lost(w: World, c: nat, a: Attempt, e: Entry, q: Answers, unknown: bool)
  {
    var kept, survivors := Kept(w, c, a, e, q, unknown), Survivors(w, c, a, e, q, unknown);
    survivors != kept && exists h :: h in survivors && w.receipt(h, a) == Some(true)
  }

  /** Confirming a block beside whatever is canonical already. */
  lemma CanonicalizeBeside(w: World, a: Attempt, e: Entry, h: Hash)
    requires EntryOk(w, a, e) && h in e.obs && Canonicalize(e, h, w.effect(h, a)).Some?
    ensures var r := Canonicalize(e, h, w.effect(h, a)).value;
            && ObservationsOk(w, a, r) && Canonical(r) == Canonical(e) + {h}
            && (AtMostOneCanonical(r) ==> EntryOk(w, a, r))
  {
    var r := Canonicalize(e, h, w.effect(h, a)).value;
    assert Canonical(r) == Canonical(e) + {h};
    if AtMostOneCanonical(r) {
      forall k | k in Canonical(e) ensures k == h {
        assert k in Canonical(r) && h in Canonical(r);
      }
      CanonicalizeKeeps(w, a, e, h);
    }
  }

  lemma ReconcileResult(w: World, c: nat, a: Attempt, e: Entry, q: Answers)
    requires EntryOk(w, a, e) && Reconcile(w, c, a, e, q).Some?
    ensures var r := Reconcile(w, c, a, e, q).value;
            && ObservationsOk(w, a, r) && Canonical(r) == Canonical(e) + Taken(w, c, a, q)
            && (AtMostOneCanonical(r) ==> EntryOk(w, a, r))
  {
    WhereFinds(w, q.receipt.chain, a);
    if Where(w, q.receipt.chain, a).Some? {
      var h := Where(w, q.receipt.chain, a).value;
      ObserveKeeps(w, a, e, h);
      var seen := Observe(e, h, w.height(h), w.receipt(h, a).value).value;
      if Confirm(c, q.latest, w.height(h), h, q.header.chain[w.height(h)]) {
        CanonicalizeBeside(w, a, seen, h);
      }
    }
  }

  lemma ScanKeepsOnChain(w: World, a: Attempt, e: Entry, views: Headers)
    requires ObservationsOk(w, a, e) && Scan(e, views).Some?
    ensures var f := Scan(e, views).value;
            && ObservationsOk(w, a, f)
            && Canonical(f) == (set h | h in Canonical(e) && OnChain(w, views(h), h))
            && (Canonical(f) == Canonical(e) ==> f == e)
            && (Canonical(f) != Canonical(e) ==> !IsActive(f))
  {
    var f := Scan(e, views).value;
    assert Canonical(f) == Canonical(e) - Stale(e, views);
    if Canonical(f) == Canonical(e) {
      assert Stale(e, views) == {};
      assert OrphanAll(e, {}) == e;
    }
  }

  /** The rows before the last scan. */
  lemma BeforeLastScan(w: World, c: nat, a: Attempt, e: Entry, q: Answers, unknown: bool) returns (r: Entry)
    requires EntryOk(w, a, e) && Process(w, c, a, e, q, unknown).Some?
    ensures ObservationsOk(w, a, r) && Canonical(r) == Kept(w, c, a, e, q, unknown)
    ensures AtMostOneCanonical(r) ==> EntryOk(w, a, r)
    ensures if EndsEarly(q, unknown) then Process(w, c, a, e, q, unknown) == Some(r)
            else Scan(r, q.last).Some? && Process(w, c, a, e, q, unknown) == Scan(r, q.last)
  {
    OrphanAllKeeps(w, a, e, Stale(e, q.scan));
    ScanKeepsOnChain(w, a, e, q.scan);
    var scanned := Scan(e, q.scan).value;
    if EndsEarly(q, unknown) {
      r := scanned;
    } else {
      ReconcileResult(w, c, a, scanned, q);
      r := Reconcile(w, c, a, scanned, q).value;
    }
  }

  /** `f` is what the second scan, if there is one, leaves of `r`. */
  ghost predicate Scanned(w: World, a: Attempt, r: Entry, f: Entry)
  {
    && ObservationsOk(w, a, f) && Canonical(f) <= Canonical(r)
    && (Canonical(f) == Canonical(r) ==> f == r)
    && (Canonical(f) != Canonical(r) ==> !IsActive(f))
  }

  lemma ProcessResult(w: World, c: nat, a: Attempt, e: Entry, q: Answers, unknown: bool) returns (r: Entry, f: Entry)
    requires EntryOk(w, a, e) && Process(w, c, a, e, q, unknown).Some?
    ensures ObservationsOk(w, a, r) && Canonical(r) == Kept(w, c, a, e, q, unknown)
    ensures AtMostOneCanonical(r) ==> EntryOk(w, a, r)
    ensures f == Process(w, c, a, e, q, unknown).value && Scanned(w, a, r, f)
    ensures Canonical(f) == Survivors(w, c, a, e, q, unknown)
  {
    r := BeforeLastScan(w, c, a, e, q, unknown);
    f := Process(w, c, a, e, q, unknown).value;
    if !EndsEarly(q, unknown) {
      ScanKeepsOnChain(w, a, r, q.last);
    }
  }

  ghost predicate AtMostTwo(hs: set<Hash>)
  {
    forall h, k, l :: h in hs && k in hs && l in hs ==> h == k || k == l || h == l
  }

  /** At most one block was canonical before, and at most one is confirmed. */
  lemma KeptAtMostTwo(w: World, c: nat, a: Attempt, e: Entry, q: Answers, unknown: bool)
    requires AtMostOneCanonical(e)
    ensures AtMostTwo(Kept(w, c, a, e, q, unknown))
  {
  }

  lemma DroppedLeavesOne(r: Entry, f: Entry)
    requires AtMostTwo(Canonical(r)) && Canonical(f) < Canonical(r)
    ensures AtMostOneCanonical(f)
  {
    var dropped :| dropped in Canonical(r) && dropped !in Canonical(f);
  }

  lemma OnChainOnce(w: World, a: Attempt, e: Entry, v: View)
    requires Consistent(w, v) && ObservationsOk(w, a, e) && forall h :: h in Canonical(e) ==> OnChain(w, v, h)
    ensures AtMostOneCanonical(e) && AllIncluded(w, v, a, e)
  {
    forall h, k | h in Canonical(e) && k in Canonical(e) ensures h == k {
      IncludedOnce(w, v, a, h, k);
    }
  }

  /** Rows in step whose canonical blocks are on the view agree with it unless a confirmed success
      was missed. */
  lemma InStepAgrees(w: World, c: nat, a: Attempt, e: Entry, v: View)
    requires Consistent(w, v) && EntryOk(w, a, e) && AllIncluded(w, v, a, e)
    ensures Agrees(w, v, c, a, e) <==> (Confirmed(w, v, c, a) ==> Canonical(e) != {})
  {
    if IsActive(e) {
      assert e.effect.value.receipt in Canonical(e);
    }
    if Confirmed(w, v, c, a) && Canonical(e) != {} {
      var h: Hash :| ConfirmedAt(w, v, c, a, h);
      var k: Hash :| k in Canonical(e);
      IncludedOnce(w, v, a, h, k);
      assert e.obs[h].state == CanonicalSuccess;
    }
  }

  /** Rows without an active effect agree unless a success is confirmed. */
  lemma RolledBackAgrees(w: World, c: nat, a: Attempt, f: Entry, v: View)
    requires Consistent(w, v) && ObservationsOk(w, a, f) && !IsActive(f)
    requires forall h :: h in Canonical(f) ==> OnChain(w, v, h)
    ensures Agrees(w, v, c, a, f) <==> !Confirmed(w, v, c, a)
  {
    OnChainOnce(w, a, f, v);
  }

  lemma RolledBackInStep(w: World, a: Attempt, f: Entry)
    requires ObservationsOk(w, a, f) && !IsActive(f) && AtMostOneCanonical(f)
    ensures EntryOk(w, a, f) <==> !exists h :: h in Canonical(f) && w.receipt(h, a) == Some(true)
  {
    if exists h :: h in Canonical(f) && w.receipt(h, a) == Some(true) {
      var h: Hash :| h in Canonical(f) && w.receipt(h, a) == Some(true);
      assert f.obs[h].state == CanonicalSuccess && HasSuccess(f);
    } else {
      forall h | h in f.obs ensures f.obs[h].state != CanonicalSuccess {
        assert f.obs[h].state == CanonicalSuccess ==> h in Canonical(f) && w.receipt(h, a) == Some(true);
      }
    }
  }

  /** The node may answer every query of a pass from another chain, also the two header queries of
      one scan. The pass ends in agreement with a chain if and only if what survived it is settled
      there. */
  lemma MidRoundReorg(w: World, c: nat, a: Attempt, e: Entry, q: Answers, unknown: bool, v: View)
    requires Consistent(w, v) && EntryOk(w, a, e) && Process(w, c, a, e, q, unknown).Some?
    ensures Agrees(w, v, c, a, Process(w, c, a, e, q, unknown).value) <==> Settled(w, c, a, e, q, unknown, v)
  {
    var r, f := ProcessResult(w, c, a, e, q, unknown);
    if forall h :: h in Canonical(f) ==> OnChain(w, v, h) {
      if Canonical(f) == Canonical(r) {
        OnChainOnce(w, a, r, v);
        InStepAgrees(w, c, a, r, v);
      } else {
        RolledBackAgrees(w, c, a, f, v);
      }
    }
  }

  /** Whatever the node answers, a pass leaves observations and effect in step if and only if no two
      blocks survive it and no success survives beside a dropped block. */
  lemma RowsStayInStep(w: World, c: nat, a: Attempt, e: Entry, q: Answers, unknown: bool)
    requires EntryOk(w, a, e) && Process(w, c, a, e, q, unknown).Some?
    ensures EntryOk(w, a, Process(w, c, a, e, q, unknown).value) <==>
              !Doubled(w, c, a, e, q, unknown) && !Lost(w, c, a, e, q, unknown)
  {
    var r, f := ProcessResult(w, c, a, e, q, unknown);
    if Canonical(f) != Canonical(r) {
      KeptAtMostTwo(w, c, a, e, q, unknown);
      DroppedLeavesOne(r, f);
      RolledBackInStep(w, a, f);
    }
  }

  /** A node whose chain does not change: the pass agrees with it. */
  lemma ProcessAgrees(w: World, c: nat, a: Attempt, e: Entry, q: Answers, unknown: bool, v: View)
    requires Steady(w, a, q, v) && EntryOk(w, a, e) && Process(w, c, a, e, q, unknown).Some?
    ensures EntryOk(w, a, Process(w, c, a, e, q, unknown).value)
    ensures Agrees(w, v, c, a, Process(w, c, a, e, q, unknown).value)
  {
    WhereIsIncluded(w, v, a);
    var kept := Kept(w, c, a, e, q, unknown);
    forall h | h in kept ensures OnChain(w, v, h) && w.receipt(h, a).Some? {
      assert h in Taken(w, c, a, q) ==> Included(w, v, a, h);
    }
    forall h, k | h in kept && k in kept ensures h == k {
      IncludedOnce(w, v, a, h, k);
    }
    assert Survivors(w, c, a, e, q, unknown) == kept;
    if Confirmed(w, v, c, a) {
      var h: Hash :| ConfirmedAt(w, v, c, a, h);
      assert Where(w, v.chain, a) == Some(h);
      assert h in Taken(w, c, a, q);
    }
    MidRoundReorg(w, c, a, e, q, unknown, v);
    RowsStayInStep(w, c, a, e, q, unknown);
  }

  /** A pass that drops one block beside a surviving success leaves that success canonical without an
      active effect. */
  lemma LostSuccessHasNoEffect(w: World, c: nat, a: Attempt, e: Entry, q: Answers, unknown: bool) returns (h: Hash)
    requires EntryOk(w, a, e) && Process(w, c, a, e, q, unknown).Some? && Lost(w, c, a, e, q, unknown)
    ensures var f := Process(w, c, a, e, q, unknown).value;
            && ObservationsOk(w, a, f) && Canonical(f) == {h} && f.obs[h].state == CanonicalSuccess && !IsActive(f)
  {
    var r, f := ProcessResult(w, c, a, e, q, unknown);
    KeptAtMostTwo(w, c, a, e, q, unknown);
    DroppedLeavesOne(r, f);
    h :| h in Canonical(f) && w.receipt(h, a) == Some(true);
  }

  /** It is not repaired: as long as every query finds the block on the chain, no later pass re-applies
      the effect, because its observation is already canonical. */
  lemma LostEffectStaysLost(w: World, c: nat, a: Attempt, e: Entry, h: Hash, q: Answers, unknown: bool)
    requires Consistent(w, q.receipt) && ObservationsOk(w, a, e)
    requires Canonical(e) == {h} && e.obs[h].state == CanonicalSuccess && !IsActive(e)
    requires Included(w, q.scan(h), a, h) && Included(w, q.receipt, a, h) && Included(w, q.last(h), a, h)
    requires Process(w, c, a, e, q, unknown).Some?
    ensures Process(w, c, a, e, q, unknown).value == e
  {
    ScanFixpoint(w, a, e, q.scan);
    ScanFixpoint(w, a, e, q.last);
    WhereIsIncluded(w, q.receipt, a);
    assert Where(w, q.receipt.chain, a) == Some(h);
  }

  // ---------------------------------------------------------------------------------------
  // Concrete chains: block 1 held the transaction of attempt 0 when the pass began; block 2 holds
  // it at the same height on the other chain.

  const EXAMPLE: World := World(h => if h == 0 then 0 else 1,
                                (h, a) => if a == 0 && h > 0 then Some(true) else None,
                                (h, a) => Some(Effect(0, 5)))

  const BEFORE: Entry := Entry(map[1 := Observation(1, true, CanonicalSuccess, 2)],
                               Some(EffectRow(1, Effect(0, 5), true)))

  const ONE := View([0, 1])
  const TWO := View([0, 2])

  /** A pass over `BEFORE` with the first scan and the receipt answered from these chains, and the
      second scan from `one` for block 1 and from `two` for block 2. */
  function Asked(scan: View, receipt: View, one: View, two: View): Answers
  {
    Answers((h: Hash) => scan, true, true, receipt, false, receipt, 1, (h: Hash) => if h == 1 then one else two)
  }

  lemma ExampleSetting()
    ensures Consistent(EXAMPLE, ONE) && Consistent(EXAMPLE, TWO) && EntryOk(EXAMPLE, 0, BEFORE)
    ensures Where(EXAMPLE, ONE.chain, 0) == Some(1) && Where(EXAMPLE, TWO.chain, 0) == Some(2)
    ensures Canonical(BEFORE) == {1}
  {
    assert 1 in BEFORE.obs && BEFORE.obs[1].state == CanonicalSuccess;
    assert ONE.chain[1] == 1 && TWO.chain[1] == 2;
  }

  lemma ExampleChains()
    ensures OnChain(EXAMPLE, ONE, 1) && !OnChain(EXAMPLE, ONE, 2)
    ensures OnChain(EXAMPLE, TWO, 2) && !OnChain(EXAMPLE, TWO, 1)
    ensures Confirmed(EXAMPLE, ONE, 0, 0) && Confirmed(EXAMPLE, TWO, 0, 0)
  {
    assert ConfirmedAt(EXAMPLE, ONE, 0, 0, 1) && ConfirmedAt(EXAMPLE, TWO, 0, 0, 2);
  }

  predicate IsChain(v: View)
  {
    v == ONE || v == TWO
  }

  lemma ExampleKept(receipt: View, one: View, two: View)
    requires IsChain(receipt)
    ensures Kept(EXAMPLE, 0, 0, BEFORE, Asked(ONE, receipt, one, two), true) == if receipt == ONE then {1} else {1, 2}
  {
    ExampleSetting();
    ExampleChains();
  }

  lemma ExampleReconciles(receipt: View, one: View, two: View)
    requires IsChain(receipt)
    ensures var r := Reconcile(EXAMPLE, 0, 0, BEFORE, Asked(ONE, receipt, one, two));
            r.Some? && forall h :: h in r.value.obs ==> r.value.obs[h].number == 1
  {
    ExampleSetting();
  }

  lemma ExampleScans(receipt: View, one: View, two: View)
    ensures Scan(BEFORE, Asked(ONE, receipt, one, two).scan) == Some(BEFORE)
  {
    ExampleSetting();
    ExampleChains();
    ScanFixpoint(EXAMPLE, 0, BEFORE, Asked(ONE, receipt, one, two).scan);
  }

  lemma ExampleCompletes(receipt: View, one: View, two: View)
    requires IsChain(receipt) && IsChain(one) && IsChain(two)
    ensures Process(EXAMPLE, 0, 0, BEFORE, Asked(ONE, receipt, one, two), true).Some?
  {
    ExampleScans(receipt, one, two);
    ExampleReconciles(receipt, one, two);
    ExampleSetting();
    var q := Asked(ONE, receipt, one, two);
    var r := Reconcile(EXAMPLE, 0, 0, BEFORE, q).value;
    assert ScanSees(r, q.last);
    assert AfterScan(EXAMPLE, 0, 0, BEFORE, q, true) == Scan(r, q.last);
  }

  ghost predicate EndsInDisagreement(q: Answers, v: View)
  {
    var r := Process(EXAMPLE, 0, 0, BEFORE, q, true);
    r.Some? && !Agrees(EXAMPLE, v, 0, 0, r.value)
  }

  lemma ExampleSurvivors(receipt: View, one: View, two: View)
    requires IsChain(receipt) && IsChain(one) && IsChain(two)
    ensures Survivors(EXAMPLE, 0, 0, BEFORE, Asked(ONE, receipt, one, two), true) ==
              (if one == ONE then {1} else {}) + (if receipt == TWO && two == TWO then {2} else {})
  {
    ExampleChains();
    ExampleKept(receipt, one, two);
  }

  lemma ExampleSettled(receipt: View, one: View, two: View, v: View)
    requires IsChain(receipt) && IsChain(one) && IsChain(two) && IsChain(v)
    ensures Settled(EXAMPLE, 0, 0, BEFORE, Asked(ONE, receipt, one, two), true, v) <==>
              receipt == ONE && one == ONE && v == ONE
  {
    ExampleChains();
    ExampleKept(receipt, one, two);
    ExampleSurvivors(receipt, one, two);
    var survivors := Survivors(EXAMPLE, 0, 0, BEFORE, Asked(ONE, receipt, one, two), true);
    assert one == ONE ==> 1 in survivors;
    assert receipt == TWO && two == TWO ==> 2 in survivors;
  }

  /** A pass over `BEFORE` ends in agreement only if all its queries and `v` are the first chain. */
  lemma ExampleOutcome(receipt: View, one: View, two: View, v: View)
    requires IsChain(receipt) && IsChain(one) && IsChain(two) && IsChain(v)
    ensures EndsInDisagreement(Asked(ONE, receipt, one, two), v) <==> receipt == TWO || one == TWO || v == TWO
  {
    ExampleSetting();
    ExampleCompletes(receipt, one, two);
    ExampleSettled(receipt, one, two, v);
    MidRoundReorg(EXAMPLE, 0, 0, BEFORE, Asked(ONE, receipt, one, two), true, v);
  }

  lemma ExampleSteps(receipt: View, one: View, two: View)
    requires IsChain(receipt) && IsChain(one) && IsChain(two)
    ensures var q := Asked(ONE, receipt, one, two);
            && (Doubled(EXAMPLE, 0, 0, BEFORE, q, true) <==> receipt == TWO && one == ONE && two == TWO)
            && (Lost(EXAMPLE, 0, 0, BEFORE, q, true) <==> receipt == TWO && one == two)
  {
    ExampleKept(receipt, one, two);
    ExampleSurvivors(receipt, one, two);
    var q := Asked(ONE, receipt, one, two);
    var survivors := Survivors(EXAMPLE, 0, 0, BEFORE, q, true);
    if receipt == TWO && one == ONE && two == TWO {
      assert 1 in survivors && 2 in survivors;
    }
    if receipt == TWO && one == two {
      var h: Hash := if one == ONE then 1 else 2;
      assert h in survivors && EXAMPLE.receipt(h, 0) == Some(true);
    }
  }

  /** The chain changes before the receipt is read, before the second scan, there and back, or between
      the two header queries of the second scan: each time the pass ends in disagreement with both
      chains or the last one, three times with its rows out of step. */
  lemma MidRoundReorgExamples()
    ensures EndsInDisagreement(Asked(ONE, TWO, TWO, TWO), TWO)
    ensures Lost(EXAMPLE, 0, 0, BEFORE, Asked(ONE, TWO, TWO, TWO), true)
    ensures EndsInDisagreement(Asked(ONE, ONE, TWO, TWO), TWO)
    ensures EndsInDisagreement(Asked(ONE, TWO, ONE, ONE), ONE)
    ensures Lost(EXAMPLE, 0, 0, BEFORE, Asked(ONE, TWO, ONE, ONE), true)
    ensures EndsInDisagreement(Asked(ONE, TWO, ONE, TWO), ONE) && EndsInDisagreement(Asked(ONE, TWO, ONE, TWO), TWO)
    ensures Doubled(EXAMPLE, 0, 0, BEFORE, Asked(ONE, TWO, ONE, TWO), true)
  {
    ExampleOutcome(TWO, TWO, TWO, TWO);
    ExampleOutcome(ONE, TWO, TWO, TWO);
    ExampleOutcome(TWO, ONE, ONE, ONE);
    ExampleOutcome(TWO, ONE, TWO, ONE);
    ExampleOutcome(TWO, ONE, TWO, TWO);
    ExampleSteps(TWO, TWO, TWO);
    ExampleSteps(TWO, ONE, ONE);
    ExampleSteps(TWO, ONE, TWO);
  }
}
