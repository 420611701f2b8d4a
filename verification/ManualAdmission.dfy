/** MANUAL admissions over whole histories, under one policy: caps, lanes and the rolling window. */
module ManualAdmission {
  import opened Common
  import opened Totals
  import opened ManualRisk
  import opened ManualExposure

  /** One admission command. `entry` is read when the transaction opens and is the time the
      exposure is computed for; `stamp` is the checked time the reservation is dated with. */
  datatype Admission = Admission(op: OpId, wallet: Wallet, limit: InputLimit, input: nat, outlay: nat, balance: nat,
                                 entry: Time, stamp: Time)

  /** checkManualAdmissionExposure. */
  predicate CheckExposure(p: Policy, e: Exposure, a: Admission)
  {
    var u := a.limit.unit;
    && CheckCap(Quantity(u, Get(e.walletInput, u)), Quantity(u, a.input), Quantity(u, a.limit.maxWallet))
    && CheckCap(Quantity(u, Get(e.globalInput, u)), Quantity(u, a.input), Quantity(u, a.limit.maxGlobal))
    && e.walletActive == 0 && e.walletWindow < p.maxWalletWindow && e.globalWindow < p.maxGlobalWindow
    && CheckCap(Quantity(OUTLAY, e.walletOutlay), Quantity(OUTLAY, a.outlay), Quantity(OUTLAY, p.maxWalletOutlay))
    && CheckCap(Quantity(OUTLAY, e.globalOutlay), Quantity(OUTLAY, a.outlay), Quantity(OUTLAY, p.maxGlobalOutlay))
    && CheckRetainedBalance(a.balance, e.walletOutlay + a.outlay, p.minBalance)
  }

  function RowOf(a: Admission): Row
  {
    Row(a.wallet, a.limit.unit, a.input, a.outlay, Reserved, a.stamp, true)
  }

  ghost predicate Admitted(p: Policy, rows: Rows, e: Exposure, a: Admission, rows': Rows)
  {
    && a.op !in rows && a.limit in p.limits && a.input > 0
    && (forall o :: o in rows ==> !Refused(p, a.entry, rows[o]))
    && Matches(e, rows, rows.Keys, a.wallet, a.entry - p.windowSeconds)
    && CheckExposure(p, e, a)
    && rows' == rows[a.op := RowOf(a)]
  }

  predicate MayBecome(from: State, to: State)
  {
    from == to || from == Reserved || (from == Frozen && to != Reserved)
  }

  datatype Event = AdmitEvent(e: Exposure, a: Admission) | SettleEvent(op: OpId, to: State)

  ghost predicate Step(p: Policy, rows: Rows, e: Event, rows': Rows)
  {
    match e
    case AdmitEvent(x, a) => Admitted(p, rows, x, a, rows')
    case SettleEvent(op, to) =>
      op in rows && MayBecome(rows[op].state, to) && rows' == rows[op := rows[op].(state := to)]
  }

  ghost predicate Next(p: Policy, rows: Rows, rows': Rows)
  {
    exists e :: Step(p, rows, e, rows')
  }

  ghost predicate StepAt(p: Policy, run: seq<Rows>, i: nat)
    requires 0 < i < |run|
  {
    Next(p, run[i - 1], run[i])
  }

  ghost predicate IsRun(p: Policy, run: seq<Rows>)
  {
    && |run| > 0 && run[0] == map[] && ValidPolicy(p)
    && forall i {:trigger StepAt(p, run, i)} :: 0 < i < |run| ==> StepAt(p, run, i)
  }

  /** The clock did not run backwards between the entry of a command and its check. */
  predicate InOrder(e: Event)
  {
    e.AdmitEvent? ==> e.a.entry <= e.a.stamp
  }

  ghost predicate OrderedNext(p: Policy, rows: Rows, rows': Rows)
  {
    exists e :: Step(p, rows, e, rows') && InOrder(e)
  }

  ghost predicate OrderedAt(p: Policy, run: seq<Rows>, i: nat)
    requires 0 < i < |run|
  {
    OrderedNext(p, run[i - 1], run[i])
  }

  /** A history in which every admission is dated at or after its entry. */
  ghost predicate IsOrderedRun(p: Policy, run: seq<Rows>)
  {
    && |run| > 0 && run[0] == map[] && ValidPolicy(p)
    && forall i {:trigger OrderedAt(p, run, i)} :: 0 < i < |run| ==> OrderedAt(p, run, i)
  }

  // ---------------------------------------------------------------------------------------
  // Caps

  ghost predicate InputCaps(rows: Rows, l: InputLimit)
  {
    && Total(rows, GlobalInput(l.unit)) <= l.maxGlobal
    && forall w :: Total(rows, WalletInput(w, l.unit)) <= l.maxWallet
  }

  ghost predicate WalletCaps(p: Policy, rows: Rows, w: Wallet)
  {
    Total(rows, WalletOutlay(w)) <= p.maxWalletOutlay && Total(rows, WalletActive(w)) <= 1
  }

  ghost predicate UnitsOk(p: Policy, rows: Rows)
  {
    forall o :: o in rows && IsActive(rows[o]) ==> HasLimit(p, rows[o].unit)
  }

  ghost predicate Caps(p: Policy, rows: Rows)
  {
    && UnitsOk(p, rows)
    && (forall l :: l in p.limits ==> InputCaps(rows, l))
    && (forall w {:trigger WalletCaps(p, rows, w)} :: WalletCaps(p, rows, w))
    && Total(rows, GlobalOutlay()) <= p.maxGlobalOutlay
  }

  lemma UnitsAreDistinct(p: Policy, l: InputLimit, l': InputLimit)
    requires ValidPolicy(p) && l in p.limits && l' in p.limits && l.unit == l'.unit
    ensures l == l'
  {
    var i :| 0 <= i < |p.limits| && p.limits[i] == l;
    var j :| 0 <= j < |p.limits| && p.limits[j] == l';
    if i < j {
      LimitsIncrease(p, i, j);
    } else if j < i {
      LimitsIncrease(p, j, i);
    }
  }

  lemma AdmitKeepsInputs(p: Policy, rows: Rows, e: Exposure, a: Admission, rows': Rows, l: InputLimit)
    requires ValidPolicy(p) && Admitted(p, rows, e, a, rows') && l in p.limits && InputCaps(rows, l)
    ensures InputCaps(rows', l)
  {
    if l.unit == a.limit.unit {
      UnitsAreDistinct(p, l, a.limit);
    }
    TotalInsert(rows, a.op, RowOf(a), GlobalInput(l.unit));
    assert Get(e.globalInput, l.unit) == Part(rows, rows.Keys, GlobalInput(l.unit));
    forall w: Wallet ensures Total(rows', WalletInput(w, l.unit)) <= l.maxWallet {
      TotalInsert(rows, a.op, RowOf(a), WalletInput(w, l.unit));
      assert Get(e.walletInput, l.unit) == Part(rows, rows.Keys, WalletInput(a.wallet, l.unit));
    }
  }

  lemma AdmitKeepsWallet(p: Policy, rows: Rows, e: Exposure, a: Admission, rows': Rows, w: Wallet)
    requires Admitted(p, rows, e, a, rows') && WalletCaps(p, rows, w)
    ensures WalletCaps(p, rows', w)
  {
    TotalInsert(rows, a.op, RowOf(a), WalletOutlay(w));
    TotalInsert(rows, a.op, RowOf(a), WalletActive(w));
  }

  lemma AdmitKeepsCaps(p: Policy, rows: Rows, e: Exposure, a: Admission, rows': Rows)
    requires ValidPolicy(p) && Caps(p, rows) && Admitted(p, rows, e, a, rows')
    ensures Caps(p, rows')
  {
    assert HasLimit(p, a.limit.unit);
    forall l | l in p.limits ensures InputCaps(rows', l) {
      AdmitKeepsInputs(p, rows, e, a, rows', l);
    }
    forall w: Wallet ensures WalletCaps(p, rows', w) {
      assert WalletCaps(p, rows, w);
      AdmitKeepsWallet(p, rows, e, a, rows', w);
    }
    TotalInsert(rows, a.op, RowOf(a), GlobalOutlay());
  }

  lemma SettleKeepsCaps(p: Policy, rows: Rows, op: OpId, to: State, rows': Rows)
    requires Caps(p, rows) && op in rows && MayBecome(rows[op].state, to) && rows' == rows[op := rows[op].(state := to)]
    ensures Caps(p, rows')
  {
    var row := rows[op].(state := to);
    forall l | l in p.limits ensures InputCaps(rows', l) {
      TotalUpdate(rows, op, row, GlobalInput(l.unit));
      forall w: Wallet ensures Total(rows', WalletInput(w, l.unit)) <= l.maxWallet {
        TotalUpdate(rows, op, row, WalletInput(w, l.unit));
      }
    }
    forall w: Wallet ensures WalletCaps(p, rows', w) {
      assert WalletCaps(p, rows, w);
      TotalUpdate(rows, op, row, WalletOutlay(w));
      TotalUpdate(rows, op, row, WalletActive(w));
    }
    TotalUpdate(rows, op, row, GlobalOutlay());
  }

  // ---------------------------------------------------------------------------------------
  // The rolling window

  function InWindow(x: Time, seconds: nat): Row -> int
  {
    (r: Row) => if x <= r.stamp <= x + seconds then 1 else 0
  }

  function InWalletWindow(w: Wallet, x: Time, seconds: nat): Row -> int
  {
    (r: Row) => if r.wallet == w && x <= r.stamp <= x + seconds then 1 else 0
  }

  /** Every closed interval of the window's length holds at most `max` admissions. */
  ghost predicate Limited(rows: Rows, seconds: nat, max: nat)
  {
    forall x: Time :: Total(rows, InWindow(x, seconds)) <= max
  }

  ghost predicate WalletLimited(rows: Rows, w: Wallet, seconds: nat, max: nat)
  {
    forall x: Time :: Total(rows, InWalletWindow(w, x, seconds)) <= max
  }

  /** What the admission check has established about the table when it reads it at `entry`. */
  ghost predicate WindowCheck(rows: Rows, entry: Time, seconds: nat, max: nat)
  {
    && (forall o :: o in rows ==> rows[o].stamp <= entry)
    && Total(rows, GlobalWindow(entry - seconds)) < max
  }

  lemma WindowStaysLimited(rows: Rows, op: OpId, row: Row, entry: Time, seconds: nat, max: nat)
    requires op !in rows && Limited(rows, seconds, max) && WindowCheck(rows, entry, seconds, max) && entry <= row.stamp
    ensures Limited(rows[op := row], seconds, max)
  {
    forall x: Time ensures Total(rows[op := row], InWindow(x, seconds)) <= max {
      TotalInsert(rows, op, row, InWindow(x, seconds));
      if x <= row.stamp <= x + seconds {
        TotalMonotone(rows, InWindow(x, seconds), GlobalWindow(entry - seconds));
      }
    }
  }

  lemma WalletStaysLimited(rows: Rows, op: OpId, row: Row, w: Wallet, entry: Time, seconds: nat, max: nat)
    requires op !in rows && WalletLimited(rows, w, seconds, max) && entry <= row.stamp
    requires forall o :: o in rows ==> rows[o].stamp <= entry
    requires row.wallet == w ==> Total(rows, WalletWindow(w, entry - seconds)) < max
    ensures WalletLimited(rows[op := row], w, seconds, max)
  {
    forall x: Time ensures Total(rows[op := row], InWalletWindow(w, x, seconds)) <= max {
      TotalInsert(rows, op, row, InWalletWindow(w, x, seconds));
      if x <= row.stamp <= x + seconds {
        TotalMonotone(rows, InWalletWindow(w, x, seconds), WalletWindow(w, entry - seconds));
      }
    }
  }

  ghost predicate Windows(p: Policy, rows: Rows)
  {
    && Limited(rows, p.windowSeconds, p.maxGlobalWindow)
    && forall w :: WalletLimited(rows, w, p.windowSeconds, p.maxWalletWindow)
  }

  lemma AdmitKeepsWindows(p: Policy, rows: Rows, e: Exposure, a: Admission, rows': Rows)
    requires Windows(p, rows) && Admitted(p, rows, e, a, rows') && a.entry <= a.stamp
    ensures Windows(p, rows')
  {
    assert forall o :: o in rows ==> !Refused(p, a.entry, rows[o]) && rows[o].stamp <= a.entry;
    WindowStaysLimited(rows, a.op, RowOf(a), a.entry, p.windowSeconds, p.maxGlobalWindow);
    forall w: Wallet ensures WalletLimited(rows', w, p.windowSeconds, p.maxWalletWindow) {
      WalletStaysLimited(rows, a.op, RowOf(a), w, a.entry, p.windowSeconds, p.maxWalletWindow);
    }
  }

  lemma SettleKeepsWindows(p: Policy, rows: Rows, op: OpId, to: State, rows': Rows)
    requires Windows(p, rows) && op in rows && rows' == rows[op := rows[op].(state := to)]
    ensures Windows(p, rows')
  {
    var row := rows[op].(state := to);
    forall x: Time ensures Total(rows', InWindow(x, p.windowSeconds)) <= p.maxGlobalWindow {
      TotalUpdate(rows, op, row, InWindow(x, p.windowSeconds));
    }
    forall w: Wallet ensures WalletLimited(rows', w, p.windowSeconds, p.maxWalletWindow) {
      forall x: Time ensures Total(rows', InWalletWindow(w, x, p.windowSeconds)) <= p.maxWalletWindow {
        TotalUpdate(rows, op, row, InWalletWindow(w, x, p.windowSeconds));
        assert WalletLimited(rows, w, p.windowSeconds, p.maxWalletWindow);
      }
    }
  }

  // ---------------------------------------------------------------------------------------
  // Histories

  lemma EmptyCaps(p: Policy)
    requires ValidPolicy(p)
    ensures Caps(p, map[])
  {
    forall w: Wallet ensures WalletCaps(p, map[], w) {
    }
  }

  lemma StepKeepsCaps(p: Policy, rows: Rows, e: Event, rows': Rows)
    requires ValidPolicy(p) && Caps(p, rows) && Step(p, rows, e, rows')
    ensures Caps(p, rows')
  {
    match e {
      case AdmitEvent(x, a) => AdmitKeepsCaps(p, rows, x, a, rows');
      case SettleEvent(op, to) => SettleKeepsCaps(p, rows, op, to, rows');
    }
  }

  lemma NextKeepsCaps(p: Policy, rows: Rows, rows': Rows)
    requires ValidPolicy(p) && Caps(p, rows) && Next(p, rows, rows')
    ensures Caps(p, rows')
  {
    var e :| Step(p, rows, e, rows');
    StepKeepsCaps(p, rows, e, rows');
  }

  lemma {:induction false} RunKeepsCaps(p: Policy, run: seq<Rows>, i: nat)
    requires IsRun(p, run) && i < |run|
    ensures Caps(p, run[i])
  {
    if i == 0 {
      EmptyCaps(p);
    } else {
      RunKeepsCaps(p, run, i - 1);
      assert StepAt(p, run, i);
      NextKeepsCaps(p, run[i - 1], run[i]);
    }
  }

  lemma {:induction false} OrderedRunKeepsWindows(p: Policy, run: seq<Rows>, i: nat)
    requires IsOrderedRun(p, run) && i < |run|
    ensures Windows(p, run[i])
  {
    if i == 0 {
      forall w: Wallet ensures WalletLimited(map[], w, p.windowSeconds, p.maxWalletWindow) {
      }
    } else {
      OrderedRunKeepsWindows(p, run, i - 1);
      assert OrderedAt(p, run, i);
      var e :| Step(p, run[i - 1], e, run[i]) && InOrder(e);
      match e {
        case AdmitEvent(x, a) => AdmitKeepsWindows(p, run[i - 1], x, a, run[i]);
        case SettleEvent(op, to) => SettleKeepsWindows(p, run[i - 1], op, to, run[i]);
      }
    }
  }

  // ---------------------------------------------------------------------------------------
  // The window limit needs the entry time not to be after the checked time

  /** What the check asks of an admission apart from the table it is made against. */
  predicate Admissible(p: Policy, a: Admission)
  {
    a.limit in p.limits && a.input > 0 && CheckExposure(p, ZERO, a)
  }

  lemma AdmittedIsAdmissible(p: Policy, rows: Rows, e: Exposure, a: Admission, rows': Rows)
    requires Admitted(p, rows, e, a, rows')
    ensures Admissible(p, a)
  {
  }

  /** Some history in clock order ends in `rows`. */
  ghost predicate Reachable(p: Policy, rows: Rows)
  {
    exists run :: IsOrderedRun(p, run) && run[|run| - 1] == rows
  }

  /** Wherever `a` is admitted after a history in clock order, the window limits still hold. */
  ghost predicate KeepsWindows(p: Policy, a: Admission)
  {
    forall rows, e, rows' :: Reachable(p, rows) && Admitted(p, rows, e, a, rows') ==> Windows(p, rows')
  }

  // The table on which a late entry fails: as many released operations as the window allows, each
  // of its own wallet, all dated one window before the checked time of `a`.

  function Earlier(p: Policy, a: Admission, i: nat): Admission
  {
    a.(op := a.op + 1 + i, wallet := i, entry := a.stamp - p.windowSeconds, stamp := a.stamp - p.windowSeconds)
  }

  function Done(p: Policy, a: Admission, i: nat): Row
  {
    RowOf(Earlier(p, a, i)).(state := Released)
  }

  function Table(p: Policy, a: Admission, n: nat): Rows
  {
    if n == 0 then map[] else Table(p, a, n - 1)[Earlier(p, a, n - 1).op := Done(p, a, n - 1)]
  }

  lemma {:induction false} TableRows(p: Policy, a: Admission, n: nat)
    ensures forall o :: o in Table(p, a, n) ==> a.op < o <= a.op + n
    ensures forall o :: o in Table(p, a, n) ==> Table(p, a, n)[o] == Done(p, a, 0).(wallet := Table(p, a, n)[o].wallet)
  {
    if n > 0 {
      TableRows(p, a, n - 1);
    }
  }

  lemma {:induction false} TableTotal(p: Policy, a: Admission, n: nat, weight: Row -> int, c: int)
    requires forall i: nat :: i < n ==> weight(Done(p, a, i)) == c
    ensures Total(Table(p, a, n), weight) == n * c
  {
    if n == 0 {
      TotalEmpty<OpId, Row>(weight);
    } else {
      TableTotal(p, a, n - 1, weight, c);
      TableRows(p, a, n - 1);
      var fewer: Rows, last: OpId := Table(p, a, n - 1), Earlier(p, a, n - 1).op;
      TotalInsert(fewer, last, Done(p, a, n - 1), weight);
      calc {
        Total(Table(p, a, n), weight);
        Total(fewer, weight) + weight(Done(p, a, n - 1));
        (n - 1) * c + c;
        n * c;
      }
    }
  }

  /** What the check reads from the table: nothing active, and only the window of `cutoff`. */
  lemma TableExposure(p: Policy, a: Admission, n: nat, rows: Rows, w: Wallet, cutoff: Time, recent: nat)
    requires rows == Table(p, a, n)
    requires w >= n || a.stamp - p.windowSeconds < cutoff
    requires recent == if cutoff <= a.stamp - p.windowSeconds then n else 0
    ensures Matches(ZERO.(globalWindow := recent), rows, rows.Keys, w, cutoff)
  {
    forall u: Unit ensures Part(rows, rows.Keys, GlobalInput(u)) == 0 && Part(rows, rows.Keys, WalletInput(w, u)) == 0 {
      TableTotal(p, a, n, GlobalInput(u), 0);
      TableTotal(p, a, n, WalletInput(w, u), 0);
    }
    TableTotal(p, a, n, GlobalOutlay(), 0);
    TableTotal(p, a, n, WalletOutlay(w), 0);
    TableTotal(p, a, n, WalletActive(w), 0);
    TableTotal(p, a, n, WalletWindow(w, cutoff), 0);
    TableTotal(p, a, n, GlobalWindow(cutoff), if cutoff <= a.stamp - p.windowSeconds then 1 else 0);
  }

  lemma TableIsRead(p: Policy, a: Admission, n: nat, now: Time, rows: Rows)
    requires rows == Table(p, a, n) && a.stamp - p.windowSeconds <= now
    ensures a.op !in rows && Earlier(p, a, n).op !in rows
    ensures forall o :: o in rows ==> !Refused(p, now, rows[o])
  {
    TableRows(p, a, n);
  }

  lemma EarlierPasses(p: Policy, a: Admission, n: nat)
    requires ValidPolicy(p) && Admissible(p, a) && n < p.maxGlobalWindow
    ensures CheckExposure(p, ZERO.(globalWindow := n), Earlier(p, a, n))
  {
  }

  lemma EarlierIsAdmitted(p: Policy, a: Admission, n: nat, rows: Rows, next: Admission)
    requires ValidPolicy(p) && Admissible(p, a) && n < p.maxGlobalWindow && rows == Table(p, a, n)
    requires next == Earlier(p, a, n)
    ensures Admitted(p, rows, ZERO.(globalWindow := n), next, rows[next.op := RowOf(next)])
  {
    TableExposure(p, a, n, rows, next.wallet, next.entry - p.windowSeconds, n);
    EarlierPasses(p, a, n);
    TableIsRead(p, a, n, next.entry, rows);
  }

  lemma TableGrows(p: Policy, a: Admission, n: nat) returns (reserved: Rows)
    requires ValidPolicy(p) && Admissible(p, a) && n < p.maxGlobalWindow
    ensures OrderedNext(p, Table(p, a, n), reserved) && OrderedNext(p, reserved, Table(p, a, n + 1))
  {
    var rows, next := Table(p, a, n), Earlier(p, a, n);
    var e := ZERO.(globalWindow := n);
    reserved := rows[next.op := RowOf(next)];
    EarlierIsAdmitted(p, a, n, rows, next);
    assert Step(p, rows, AdmitEvent(e, next), reserved);
    assert reserved[next.op := reserved[next.op].(state := Released)] == Table(p, a, n + 1);
    assert Step(p, reserved, SettleEvent(next.op, Released), Table(p, a, n + 1));
  }

  lemma NextIsReachable(p: Policy, rows: Rows, rows': Rows)
    requires Reachable(p, rows) && OrderedNext(p, rows, rows')
    ensures Reachable(p, rows')
  {
    var run :| IsOrderedRun(p, run) && run[|run| - 1] == rows;
    var run' := run + [rows'];
    forall i {:trigger OrderedAt(p, run', i)} | 0 < i < |run'| ensures OrderedAt(p, run', i) {
      if i < |run| {
        assert OrderedAt(p, run, i);
      }
    }
    assert IsOrderedRun(p, run') && run'[|run'| - 1] == rows';
  }

  lemma {:induction false} TableIsReachable(p: Policy, a: Admission, n: nat)
    requires ValidPolicy(p) && Admissible(p, a) && n <= p.maxGlobalWindow
    ensures Reachable(p, Table(p, a, n))
  {
    if n == 0 {
      assert IsOrderedRun(p, [map[]]);
    } else {
      TableIsReachable(p, a, n - 1);
      var reserved := TableGrows(p, a, n - 1);
      NextIsReachable(p, Table(p, a, n - 1), reserved);
      NextIsReachable(p, reserved, Table(p, a, n));
    }
  }

  /** Dated before its entry, `a` is admitted although its window is already full. */
  lemma LateEntryOverfills(p: Policy, a: Admission)
    requires ValidPolicy(p) && Admissible(p, a) && a.stamp < a.entry
    ensures var rows := Table(p, a, p.maxGlobalWindow);
            var rows' := rows[a.op := RowOf(a)];
            && Admitted(p, rows, ZERO, a, rows')
            && Total(rows', InWindow(a.stamp - p.windowSeconds, p.windowSeconds)) == p.maxGlobalWindow + 1
  {
    var max := p.maxGlobalWindow;
    var rows := Table(p, a, max);
    TableIsRead(p, a, max, a.entry, rows);
    TableExposure(p, a, max, rows, a.wallet, a.entry - p.windowSeconds, 0);
    var weight := InWindow(a.stamp - p.windowSeconds, p.windowSeconds);
    TableTotal(p, a, max, weight, 1);
    TotalInsert(rows, a.op, RowOf(a), weight);
  }

  /** An admission keeps the window limits after every history in clock order if and only if it is
      not dated before its entry, or the check refuses it whatever the table holds. */
  lemma WindowLimitIsExact(p: Policy, a: Admission)
    requires ValidPolicy(p)
    ensures KeepsWindows(p, a) <==> a.entry <= a.stamp || !Admissible(p, a)
  {
    if a.entry <= a.stamp || !Admissible(p, a) {
      forall rows, e, rows' | Reachable(p, rows) && Admitted(p, rows, e, a, rows') ensures Windows(p, rows') {
        AdmittedIsAdmissible(p, rows, e, a, rows');
        var run :| IsOrderedRun(p, run) && run[|run| - 1] == rows;
        OrderedRunKeepsWindows(p, run, |run| - 1);
        AdmitKeepsWindows(p, rows, e, a, rows');
      }
    } else {
      var rows := Table(p, a, p.maxGlobalWindow);
      TableIsReachable(p, a, p.maxGlobalWindow);
      LateEntryOverfills(p, a);
      assert !Limited(rows[a.op := RowOf(a)], p.windowSeconds, p.maxGlobalWindow);
    }
  }

  // ---------------------------------------------------------------------------------------
  // The writer

  /** Whatever totals match the table, the check says the same of them. */
  lemma CheckIsUnique(p: Policy, rows: Rows, e: Exposure, e': Exposure, a: Admission)
    requires Matches(e, rows, rows.Keys, a.wallet, a.entry - p.windowSeconds)
    requires Matches(e', rows, rows.Keys, a.wallet, a.entry - p.windowSeconds)
    ensures CheckExposure(p, e, a) <==> CheckExposure(p, e', a)
  {
    ExposureIsUnique(e, e', rows, a.wallet, a.entry - p.windowSeconds, a.limit.unit);
  }

  /** Nothing lets the operation in. */
  ghost predicate Inadmissible(p: Policy, rows: Rows, op: OpId, wallet: Wallet, unit: Unit, input: nat, outlay: nat,
                               balance: nat, entry: Time, stamp: Time)
  {
    forall e: Exposure, l: InputLimit, rows': Rows ::
      l.unit == unit ==>
        !Admitted(p, rows, e, Admission(op, wallet, l, input, outlay, balance, entry, stamp), rows')
  }

  lemma RefusedIsInadmissible(p: Policy, rows: Rows, e: Exposure, a: Admission)
    requires ValidPolicy(p) && a.limit in p.limits && !CheckExposure(p, e, a)
    requires Matches(e, rows, rows.Keys, a.wallet, a.entry - p.windowSeconds)
    ensures Inadmissible(p, rows, a.op, a.wallet, a.limit.unit, a.input, a.outlay, a.balance, a.entry, a.stamp)
  {
    forall e': Exposure, l: InputLimit, rows': Rows | l.unit == a.limit.unit
      ensures !Admitted(p, rows, e',
                        Admission(a.op, a.wallet, l, a.input, a.outlay, a.balance, a.entry, a.stamp), rows')
    {
      if l in p.limits && Matches(e', rows, rows.Keys, a.wallet, a.entry - p.windowSeconds) {
        UnitsAreDistinct(p, l, a.limit);
        CheckIsUnique(p, rows, e, e', a);
      }
    }
  }

  lemma AdmitKeepsBoth(p: Policy, rows: Rows, e: Exposure, a: Admission, rows': Rows)
    requires ValidPolicy(p) && Admitted(p, rows, e, a, rows')
    ensures Caps(p, rows) ==> Caps(p, rows')
    ensures Windows(p, rows) && a.entry <= a.stamp ==> Windows(p, rows')
  {
    if Caps(p, rows) {
      AdmitKeepsCaps(p, rows, e, a, rows');
    }
    if Windows(p, rows) && a.entry <= a.stamp {
      AdmitKeepsWindows(p, rows, e, a, rows');
    }
  }

  ghost predicate AdmittedWith(p: Policy, rows: Rows, e: Exposure, a: Admission)
  {
    Admitted(p, rows, e, a, rows[a.op := RowOf(a)])
  }

  /** Some totals of the table let the operation in. */
  ghost predicate MayAdmit(p: Policy, rows: Rows, a: Admission)
  {
    exists e :: AdmittedWith(p, rows, e, a)
  }

  lemma MayAdmitKeepsBoth(p: Policy, rows: Rows, a: Admission)
    requires ValidPolicy(p) && MayAdmit(p, rows, a)
    ensures Caps(p, rows) ==> Caps(p, rows[a.op := RowOf(a)])
    ensures Windows(p, rows) && a.entry <= a.stamp ==> Windows(p, rows[a.op := RowOf(a)])
  {
    var e :| AdmittedWith(p, rows, e, a);
    AdmitKeepsBoth(p, rows, e, a, rows[a.op := RowOf(a)]);
  }

  class Writer {
    const policy: Policy
    var rows: Rows

    constructor (policy: Policy)
      requires ValidPolicy(policy)
      ensures this.policy == policy && rows == map[]
    {
      this.policy, rows := policy, map[];
    }

    /** The limit the operation is admitted under, if it is. */
    method Check(order: seq<OpId>, buckets: seq<Bucket>, op: OpId, wallet: Wallet, unit: Unit, input: nat, outlay: nat,
                 balance: nat, entry: Time, stamp: Time)
      returns (limit: Option<InputLimit>)
      requires ValidPolicy(policy)
      requires forall o :: o in rows <==> o in order
      requires forall i, j :: 0 <= i < j < |order| ==> order[i] != order[j]
      ensures limit.Some? ==>
                && limit.value.unit == unit
                && MayAdmit(policy, rows, Admission(op, wallet, limit.value, input, outlay, balance, entry, stamp))
                && (forall b :: b in buckets ==> !MayOverlap(b, entry - policy.windowSeconds))
      ensures limit.None? ==>
                || (exists b :: b in buckets && MayOverlap(b, entry - policy.windowSeconds)) || Overflows(rows)
                || Inadmissible(policy, rows, op, wallet, unit, input, outlay, balance, entry, stamp)
    {
      limit := Limit(policy, unit);
      if limit.None? || input == 0 || op in rows {
        return None;
      }
      var loaded := LoadExposure(rows, order, buckets, wallet, policy, entry);
      if loaded.None? {
        return None;
      }
      var a := Admission(op, wallet, limit.value, input, outlay, balance, entry, stamp);
      if !CheckExposure(policy, loaded.value, a) {
        RefusedIsInadmissible(policy, rows, loaded.value, a);
        return None;
      }
      assert AdmittedWith(policy, rows, loaded.value, a);
    }

    /** admitWithContinuation: load the exposure at entry, check it, insert the row dated with the
        checked time. `order` is whatever order the database returns the rows in. */
    method Admit(order: seq<OpId>, buckets: seq<Bucket>, op: OpId, wallet: Wallet, unit: Unit, input: nat, outlay: nat,
                 balance: nat, entry: Time, stamp: Time)
      returns (ok: bool)
      requires ValidPolicy(policy)
      requires forall o :: o in rows <==> o in order
      requires forall i, j :: 0 <= i < j < |order| ==> order[i] != order[j]
      modifies this`rows
      ensures ok ==> exists l: InputLimit :: l.unit == unit
                       && var a := Admission(op, wallet, l, input, outlay, balance, entry, stamp);
                         MayAdmit(policy, old(rows), a) && rows == old(rows)[op := RowOf(a)]
      ensures ok ==> forall b :: b in buckets ==> !MayOverlap(b, entry - policy.windowSeconds)
      ensures !ok ==> rows == old(rows)
      ensures !ok ==>
                || (exists b :: b in buckets && MayOverlap(b, entry - policy.windowSeconds)) || Overflows(rows)
                || Inadmissible(policy, rows, op, wallet, unit, input, outlay, balance, entry, stamp)
      ensures Caps(policy, old(rows)) ==> Caps(policy, rows)
      ensures Windows(policy, old(rows)) && entry <= stamp ==> Windows(policy, rows)
    {
      var limit := Check(order, buckets, op, wallet, unit, input, outlay, balance, entry, stamp);
      if limit.None? {
        return false;
      }
      var a := Admission(op, wallet, limit.value, input, outlay, balance, entry, stamp);
      MayAdmitKeepsBoth(policy, rows, a);
      rows := rows[op := RowOf(a)];
      return true;
    }
  }
}
