/** The MANUAL caps, stated on the reservation rows themselves: which rows count towards a cap is said
    here by their fields, and the totals the admission check reads are shown to agree with it. */
module ManualCaps {
  import opened Common
  import opened Totals
  import opened ManualRisk
  import opened ManualExposure
  import opened ManualAdmission

  /** Rows that still hold their input and outlay. */
  function Held(rows: Rows): set<OpId>
  {
    set o | o in rows && (rows[o].state == Reserved || rows[o].state == Frozen)
  }

  function HeldIn(rows: Rows, u: Unit): set<OpId>
  {
    set o | o in Held(rows) && rows[o].unit == u
  }

  function HeldBy(rows: Rows, w: Wallet): set<OpId>
  {
    set o | o in Held(rows) && rows[o].wallet == w
  }

  function HeldInBy(rows: Rows, w: Wallet, u: Unit): set<OpId>
  {
    HeldIn(rows, u) * HeldBy(rows, w)
  }

  /** Admissions dated in the closed interval, whatever became of them. */
  function DatedIn(rows: Rows, from: Time, to: Time): set<OpId>
  {
    set o | o in rows && from <= rows[o].stamp <= to
  }

  function DatedInBy(rows: Rows, w: Wallet, from: Time, to: Time): set<OpId>
  {
    set o | o in DatedIn(rows, from, to) && rows[o].wallet == w
  }

  function InputIn(rows: Rows): OpId -> int
  {
    (o: OpId) => if o in rows then rows[o].input else 0
  }

  function OutlayIn(rows: Rows): OpId -> int
  {
    (o: OpId) => if o in rows then rows[o].outlay else 0
  }

  ghost function Input(rows: Rows, ops: set<OpId>): int
  {
    Sum(ops, InputIn(rows))
  }

  ghost function Outlay(rows: Rows, ops: set<OpId>): int
  {
    Sum(ops, OutlayIn(rows))
  }

  lemma InputTotals(rows: Rows, w: Wallet, u: Unit)
    ensures Total(rows, GlobalInput(u)) == Input(rows, HeldIn(rows, u))
    ensures Total(rows, WalletInput(w, u)) == Input(rows, HeldInBy(rows, w, u))
  {
    TotalIsSum(rows, GlobalInput(u), HeldIn(rows, u), InputIn(rows));
    TotalIsSum(rows, WalletInput(w, u), HeldInBy(rows, w, u), InputIn(rows));
  }

  lemma OutlayTotals(rows: Rows, w: Wallet)
    ensures Total(rows, GlobalOutlay()) == Outlay(rows, Held(rows))
    ensures Total(rows, WalletOutlay(w)) == Outlay(rows, HeldBy(rows, w))
    ensures Total(rows, WalletActive(w)) == |HeldBy(rows, w)|
  {
    TotalIsSum(rows, GlobalOutlay(), Held(rows), OutlayIn(rows));
    TotalIsSum(rows, WalletOutlay(w), HeldBy(rows, w), OutlayIn(rows));
    TotalIsCount(rows, WalletActive(w), HeldBy(rows, w));
  }

  // ---------------------------------------------------------------------------------------
  // Over every history

  /** Over every history of admissions and freeze, commit and release steps under one policy,
      whatever the clock does: the input held in each unit is within its global and wallet caps, the
      outlay held is within its caps, and no wallet has two operations that hold anything. */
  lemma CapsHoldForever(p: Policy, run: seq<Rows>, i: nat, l: InputLimit, w: Wallet)
    requires IsRun(p, run) && i < |run| && l in p.limits
    ensures Input(run[i], HeldIn(run[i], l.unit)) <= l.maxGlobal
    ensures Input(run[i], HeldInBy(run[i], w, l.unit)) <= l.maxWallet
    ensures Outlay(run[i], Held(run[i])) <= p.maxGlobalOutlay
    ensures Outlay(run[i], HeldBy(run[i], w)) <= p.maxWalletOutlay && |HeldBy(run[i], w)| <= 1
  {
    RunKeepsCaps(p, run, i);
    assert InputCaps(run[i], l) && WalletCaps(p, run[i], w);
    InputTotals(run[i], w, l.unit);
    OutlayTotals(run[i], w);
  }

  /** Over every history whose admissions are dated at or after their entry, every closed interval
      of the window's length, wherever it starts, holds at most the global maximum of admissions,
      and at most the wallet maximum per wallet. */
  lemma RateLimitHoldsForever(p: Policy, run: seq<Rows>, i: nat, w: Wallet, x: Time)
    requires IsOrderedRun(p, run) && i < |run|
    ensures |DatedIn(run[i], x, x + p.windowSeconds)| <= p.maxGlobalWindow
    ensures |DatedInBy(run[i], w, x, x + p.windowSeconds)| <= p.maxWalletWindow
  {
    OrderedRunKeepsWindows(p, run, i);
    assert WalletLimited(run[i], w, p.windowSeconds, p.maxWalletWindow);
    TotalIsCount(run[i], InWindow(x, p.windowSeconds), DatedIn(run[i], x, x + p.windowSeconds));
    TotalIsCount(run[i], InWalletWindow(w, x, p.windowSeconds), DatedInBy(run[i], w, x, x + p.windowSeconds));
  }

  // ---------------------------------------------------------------------------------------
  // Exactly what the check asks

  /** The caps on input hold with the operation's own added. */
  ghost predicate InputFits(p: Policy, rows: Rows, a: Admission)
  {
    && Input(rows, HeldInBy(rows, a.wallet, a.limit.unit)) + a.input <= a.limit.maxWallet
    && Input(rows, HeldIn(rows, a.limit.unit)) + a.input <= a.limit.maxGlobal
  }

  /** Its wallet holds nothing, the caps on outlay hold with its own added, and the retained minimum is
      left of the balance. */
  ghost predicate OutlayFits(p: Policy, rows: Rows, a: Admission)
  {
    && HeldBy(rows, a.wallet) == {}
    && a.outlay <= p.maxWalletOutlay && Outlay(rows, Held(rows)) + a.outlay <= p.maxGlobalOutlay
    && a.outlay + p.minBalance <= a.balance < UINT256
  }

  /** Neither window is full. */
  ghost predicate WindowFits(p: Policy, rows: Rows, a: Admission)
  {
    var from := a.entry - p.windowSeconds;
    && |DatedIn(rows, from, a.entry)| < p.maxGlobalWindow
    && |DatedInBy(rows, a.wallet, from, a.entry)| < p.maxWalletWindow
  }

  ghost predicate HasRoom(p: Policy, rows: Rows, a: Admission)
  {
    InputFits(p, rows, a) && OutlayFits(p, rows, a) && WindowFits(p, rows, a)
  }

  lemma WindowTotals(rows: Rows, w: Wallet, from: Time, to: Time)
    requires forall o :: o in rows ==> rows[o].stamp <= to
    ensures Total(rows, GlobalWindow(from)) == |DatedIn(rows, from, to)|
    ensures Total(rows, WalletWindow(w, from)) == |DatedInBy(rows, w, from, to)|
  {
    TotalIsCount(rows, GlobalWindow(from), DatedIn(rows, from, to));
    TotalIsCount(rows, WalletWindow(w, from), DatedInBy(rows, w, from, to));
  }

  lemma LoadedInputs(e: Exposure, rows: Rows, w: Wallet, u: Unit, cutoff: Time)
    requires Matches(e, rows, rows.Keys, w, cutoff)
    ensures Get(e.globalInput, u) == Input(rows, HeldIn(rows, u))
    ensures Get(e.walletInput, u) == Input(rows, HeldInBy(rows, w, u))
  {
    assert Get(e.globalInput, u) == Part(rows, rows.Keys, GlobalInput(u));
    assert Get(e.walletInput, u) == Part(rows, rows.Keys, WalletInput(w, u));
    InputTotals(rows, w, u);
  }

  lemma LoadedOutlays(e: Exposure, rows: Rows, w: Wallet)
    requires e.globalOutlay == Total(rows, GlobalOutlay()) && e.walletOutlay == Total(rows, WalletOutlay(w))
    requires e.walletActive == Total(rows, WalletActive(w))
    ensures e.globalOutlay == Outlay(rows, Held(rows)) && e.walletOutlay == Outlay(rows, HeldBy(rows, w))
    ensures e.walletActive == |HeldBy(rows, w)|
  {
    OutlayTotals(rows, w);
  }

  lemma LoadedWindows(e: Exposure, rows: Rows, w: Wallet, cutoff: Time, now: Time)
    requires e.globalWindow == Total(rows, GlobalWindow(cutoff))
             && e.walletWindow == Total(rows, WalletWindow(w, cutoff))
    requires forall o :: o in rows ==> rows[o].stamp <= now
    ensures e.globalWindow == |DatedIn(rows, cutoff, now)| && e.walletWindow == |DatedInBy(rows, w, cutoff, now)|
  {
    WindowTotals(rows, w, cutoff, now);
  }

  predicate InputPasses(e: Exposure, a: Admission)
  {
    var u := a.limit.unit;
    && CheckCap(Quantity(u, Get(e.walletInput, u)), Quantity(u, a.input), Quantity(u, a.limit.maxWallet))
    && CheckCap(Quantity(u, Get(e.globalInput, u)), Quantity(u, a.input), Quantity(u, a.limit.maxGlobal))
  }

  predicate OutlayPasses(p: Policy, e: Exposure, a: Admission)
  {
    && e.walletActive == 0
    && CheckCap(Quantity(OUTLAY, e.walletOutlay), Quantity(OUTLAY, a.outlay), Quantity(OUTLAY, p.maxWalletOutlay))
    && CheckCap(Quantity(OUTLAY, e.globalOutlay), Quantity(OUTLAY, a.outlay), Quantity(OUTLAY, p.maxGlobalOutlay))
    && CheckRetainedBalance(a.balance, e.walletOutlay + a.outlay, p.minBalance)
  }

  predicate WindowPasses(p: Policy, e: Exposure, a: Admission)
  {
    e.walletWindow < p.maxWalletWindow && e.globalWindow < p.maxGlobalWindow
  }

  lemma InputPassesExactlyWhen(p: Policy, rows: Rows, e: Exposure, a: Admission)
    requires ValidLimit(a.limit) && Matches(e, rows, rows.Keys, a.wallet, a.entry - p.windowSeconds)
    ensures InputPasses(e, a) <==> InputFits(p, rows, a)
  {
    var u := a.limit.unit;
    LoadedInputs(e, rows, a.wallet, u, a.entry - p.windowSeconds);
    CapHoldsExactlyWhen(Quantity(u, Get(e.walletInput, u)), Quantity(u, a.input), Quantity(u, a.limit.maxWallet));
    CapHoldsExactlyWhen(Quantity(u, Get(e.globalInput, u)), Quantity(u, a.input), Quantity(u, a.limit.maxGlobal));
  }

  lemma OutlayPassesExactlyWhen(p: Policy, rows: Rows, e: Exposure, a: Admission)
    requires ValidPolicy(p) && e.walletActive == Total(rows, WalletActive(a.wallet))
    requires e.globalOutlay == Total(rows, GlobalOutlay()) && e.walletOutlay == Total(rows, WalletOutlay(a.wallet))
    ensures OutlayPasses(p, e, a) <==> OutlayFits(p, rows, a)
  {
    LoadedOutlays(e, rows, a.wallet);
    CapHoldsExactlyWhen(Quantity(OUTLAY, e.walletOutlay), Quantity(OUTLAY, a.outlay),
                        Quantity(OUTLAY, p.maxWalletOutlay));
    CapHoldsExactlyWhen(Quantity(OUTLAY, e.globalOutlay), Quantity(OUTLAY, a.outlay),
                        Quantity(OUTLAY, p.maxGlobalOutlay));
  }

  lemma WindowPassesExactlyWhen(p: Policy, rows: Rows, e: Exposure, a: Admission)
    requires e.globalWindow == Total(rows, GlobalWindow(a.entry - p.windowSeconds))
    requires e.walletWindow == Total(rows, WalletWindow(a.wallet, a.entry - p.windowSeconds))
    requires forall o :: o in rows ==> rows[o].stamp <= a.entry
    ensures WindowPasses(p, e, a) <==> WindowFits(p, rows, a)
  {
    LoadedWindows(e, rows, a.wallet, a.entry - p.windowSeconds, a.entry);
  }

  lemma CheckHasParts(p: Policy, e: Exposure, a: Admission)
    ensures CheckExposure(p, e, a) <==> InputPasses(e, a) && OutlayPasses(p, e, a) && WindowPasses(p, e, a)
  {
  }

  /** Against a table with no row dated after the entry, the check on the loaded totals passes exactly
      when there is room for the operation. */
  lemma CheckPassesExactlyWhen(p: Policy, rows: Rows, e: Exposure, a: Admission)
    requires ValidPolicy(p) && a.limit in p.limits
    requires Matches(e, rows, rows.Keys, a.wallet, a.entry - p.windowSeconds)
    requires forall o :: o in rows ==> rows[o].stamp <= a.entry
    ensures CheckExposure(p, e, a) <==> HasRoom(p, rows, a)
  {
    InputPassesExactlyWhen(p, rows, e, a);
    OutlayPassesExactlyWhen(p, rows, e, a);
    WindowPassesExactlyWhen(p, rows, e, a);
    CheckHasParts(p, e, a);
  }

  /** A row the check cannot vouch for: dated after the entry; without verified quantities although it
      holds something or lies in the window; or holding a unit the policy has no limit for. */
  ghost predicate Unsound(p: Policy, entry: Time, rows: Rows, o: OpId)
    requires o in rows
  {
    || rows[o].stamp > entry
    || (!rows[o].typed && (o in Held(rows) || rows[o].stamp >= entry - p.windowSeconds))
    || (o in Held(rows) && forall l :: l in p.limits ==> l.unit != rows[o].unit)
  }

  lemma RefusedIsUnsound(p: Policy, entry: Time, rows: Rows, o: OpId)
    requires o in rows
    ensures Refused(p, entry, rows[o]) <==> Unsound(p, entry, rows, o)
  {
    assert HasLimit(p, rows[o].unit) <==> exists l :: l in p.limits && l.unit == rows[o].unit by {
      if exists l :: l in p.limits && l.unit == rows[o].unit {
        var l :| l in p.limits && l.unit == rows[o].unit;
        var i :| 0 <= i < |p.limits| && p.limits[i] == l;
      }
    }
  }

  /** An operation is admitted against the loaded totals exactly when it is new and positive, its limit
      is one of the policy's, no row is unsound, and there is room; and then one row is added, held
      and dated with the checked time. */
  lemma AdmittedExactlyWhen(p: Policy, rows: Rows, e: Exposure, a: Admission, rows': Rows)
    requires ValidPolicy(p) && Matches(e, rows, rows.Keys, a.wallet, a.entry - p.windowSeconds)
    ensures Admitted(p, rows, e, a, rows') <==>
              && a.op !in rows && a.limit in p.limits && a.input > 0
              && (forall o :: o in rows ==> !Unsound(p, a.entry, rows, o))
              && HasRoom(p, rows, a)
              && rows' == rows[a.op := Row(a.wallet, a.limit.unit, a.input, a.outlay, Reserved, a.stamp, true)]
  {
    forall o | o in rows ensures Refused(p, a.entry, rows[o]) <==> Unsound(p, a.entry, rows, o) {
      RefusedIsUnsound(p, a.entry, rows, o);
    }
    var sound := forall o :: o in rows ==> !Unsound(p, a.entry, rows, o);
    if a.limit in p.limits && sound {
      CheckPassesExactlyWhen(p, rows, e, a);
    }
    AdmittedParts(p, rows, e, a, rows', sound, HasRoom(p, rows, a));
  }

  lemma AdmittedParts(p: Policy, rows: Rows, e: Exposure, a: Admission, rows': Rows, sound: bool, room: bool)
    requires Matches(e, rows, rows.Keys, a.wallet, a.entry - p.windowSeconds)
    requires sound <==> forall o :: o in rows ==> !Refused(p, a.entry, rows[o])
    requires a.limit in p.limits && sound ==> (room <==> CheckExposure(p, e, a))
    ensures Admitted(p, rows, e, a, rows') <==>
              && a.op !in rows && a.limit in p.limits && a.input > 0 && sound && room
              && rows' == rows[a.op := Row(a.wallet, a.limit.unit, a.input, a.outlay, Reserved, a.stamp, true)]
  {
  }

  /** An admitted operation leaves the wallet its retained minimum after everything the wallet holds,
      and is then the only operation the wallet holds. */
  lemma AdmissionRetainsBalance(p: Policy, rows: Rows, e: Exposure, a: Admission, rows': Rows)
    requires ValidPolicy(p) && Admitted(p, rows, e, a, rows')
    ensures HeldBy(rows', a.wallet) == {a.op}
    ensures Outlay(rows', HeldBy(rows', a.wallet)) + p.minBalance <= a.balance
  {
    assert OutlayFits(p, rows, a) && rows' == rows[a.op := RowOf(a)] && a.op !in rows by {
      AdmittedExactlyWhen(p, rows, e, a, rows');
    }
    assert HeldBy(rows, a.wallet) == {} && a.outlay + p.minBalance <= a.balance;
    OneMoreHeld(rows, a, rows');
    OutlayOfOne(rows', a.op);
  }

  lemma OutlayOfOne(rows: Rows, op: OpId)
    requires op in rows
    ensures Outlay(rows, {op}) == rows[op].outlay
  {
    SumInsert({}, op, OutlayIn(rows));
    assert {} + {op} == {op};
  }

  lemma OneMoreHeld(rows: Rows, a: Admission, rows': Rows)
    requires HeldBy(rows, a.wallet) == {} && rows' == rows[a.op := RowOf(a)] && a.op !in rows
    ensures HeldBy(rows', a.wallet) == {a.op}
  {
    assert forall o :: o in rows ==> o !in HeldBy(rows, a.wallet);
  }
}
