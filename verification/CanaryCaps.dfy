/** The caps of canary admission, stated on the reservations themselves: which rows count towards a cap
    is said here by their fields, and the gate's running totals are shown to agree with it. */
module CanaryCaps {
  import opened Common
  import opened Totals
  import opened CanaryAdmission

  type Rows = map<OpId, Reservation>

  /** Reservations that still hold their amount. */
  function Held(rows: Rows): set<OpId>
  {
    set o | o in rows && (rows[o].state == Reserved || rows[o].state == Frozen)
  }

  function HeldUnder(rows: Rows, v: Version): set<OpId>
  {
    set o | o in Held(rows) && rows[o].policy == v
  }

  function HeldFor(rows: Rows, v: Version, t: Token): set<OpId>
  {
    set o | o in Held(rows) && rows[o].policy == v && rows[o].token == t
  }

  function HeldBy(rows: Rows, w: Wallet): set<OpId>
  {
    set o | o in Held(rows) && rows[o].wallet == w
  }

  /** Every admission of a policy, wallet and token made in [from, to), whatever became of it. */
  function AdmittedIn(rows: Rows, v: Version, w: Wallet, t: Token, from: Time, to: Time): set<OpId>
  {
    set o | o in rows && rows[o].policy == v && rows[o].wallet == w && rows[o].token == t
            && from <= rows[o].createdAt < to
  }

  function AmountIn(rows: Rows): OpId -> int
  {
    (o: OpId) => if o in rows then rows[o].amount else 0
  }

  ghost function Amount(rows: Rows, ops: set<OpId>): int
  {
    Sum(ops, AmountIn(rows))
  }

  // ---------------------------------------------------------------------------------------
  // The gate's totals are these

  /** Multiples of `s`: the one at or below `t` is `n * s` exactly when `t` is in the n-th period. */
  lemma PeriodStart(t: nat, s: nat, n: nat)
    requires s > 0
    ensures t - t % s == n * s <==> n * s <= t < (n + 1) * s
  {
    var m := t / s;
    assert t == m * s + t % s;
    if n < m {
      assert (n + 1) * s <= m * s;
    } else if m < n {
      assert (m + 1) * s <= n * s;
    }
  }

  /** Two times share a window exactly when they fall into the same period; without a duration every
      instant is a window of its own. */
  lemma WindowsArePeriods(t: Time, u: Time, seconds: nat)
    ensures Window(t, seconds) == Window(u, seconds) <==> if seconds == 0 then t == u else t / seconds == u / seconds
  {
    if seconds > 0 {
      var n := u / seconds;
      assert u - u % seconds == n * seconds;
      PeriodStart(t, seconds, n);
      PeriodStart(t, seconds, t / seconds);
      if t / seconds != n {
        assert t - t % seconds == t / seconds * seconds;
        DifferentPeriods(t / seconds, n, seconds);
      }
    }
  }

  lemma DifferentPeriods(m: nat, n: nat, s: nat)
    requires s > 0 && m != n
    ensures m * s != n * s
  {
    if m < n {
      assert (m + 1) * s <= n * s;
    } else {
      assert (n + 1) * s <= m * s;
    }
  }

  /** The period of `now`: where it starts and where the next one does. */
  function PeriodOf(now: Time, seconds: nat): (Time, Time)
  {
    if seconds == 0 then (now, now + 1) else (now / seconds * seconds, (now / seconds + 1) * seconds)
  }

  /** A usage row counts and sums the admissions of one period. */
  lemma BucketIsPeriod(rows: Rows, k: Key, seconds: nat, from: Time, to: Time)
    requires forall t: Time :: Window(t, seconds) == k.window <==> from <= t < to
    ensures var ops := AdmittedIn(rows, k.policy, k.wallet, k.token, from, to);
            && Total(rows, BucketCount(k, seconds)) == |ops|
            && Total(rows, BucketAmount(k, seconds)) == Amount(rows, ops)
  {
    var ops := AdmittedIn(rows, k.policy, k.wallet, k.token, from, to);
    TotalIsCount(rows, BucketCount(k, seconds), ops);
    TotalIsSum(rows, BucketAmount(k, seconds), ops, AmountIn(rows));
  }

  // ---------------------------------------------------------------------------------------
  // Over every run

  /** In every reachable state, for every policy: the reservations that still hold their amount sum to
      at most its total cap and, token by token, to at most its token cap. */
  lemma ExposureStaysWithinCaps(run: seq<Db>, i: nat, v: Version, t: Token)
    requires IsRun(run) && i < |run| && v in run[i].policies
    ensures var ops := HeldUnder(run[i].reservations, v);
            ops != {} ==> Amount(run[i].reservations, ops) <= run[i].policies[v].maxTotal
    ensures var ops := HeldFor(run[i].reservations, v, t);
            ops != {} ==> Amount(run[i].reservations, ops) <= run[i].policies[v].maxToken
  {
    var rows := run[i].reservations;
    RunKeepsInv(run, i);
    assert CapsOk(run[i], v);
    TotalIsSum(rows, PolicyWeight(v), HeldUnder(rows, v), AmountIn(rows));
    TotalIsSum(rows, TokenWeight(v, t), HeldFor(rows, v, t), AmountIn(rows));
    if HeldUnder(rows, v) != {} {
      AmountIsPositive(run[i], HeldUnder(rows, v));
    }
    if HeldFor(rows, v, t) != {} {
      AmountIsPositive(run[i], HeldFor(rows, v, t));
    }
  }

  lemma AmountIsPositive(db: Db, ops: set<OpId>)
    requires RowsOk(db) && ops <= db.reservations.Keys && ops != {}
    ensures Amount(db.reservations, ops) > 0
  {
    var o :| o in ops;
    SumRemove(ops, o, AmountIn(db.reservations));
    SumSubset({}, ops - {o}, AmountIn(db.reservations));
  }

  /** In every reachable state, for every policy, wallet and token: the admissions of any one period
      [n*s, (n+1)*s) of the policy's window number at most its maximum and sum to at most its wallet
      cap, released ones included. */
  lemma EveryPeriodStaysWithinCaps(run: seq<Db>, i: nat, v: Version, w: Wallet, t: Token, n: nat)
    requires IsRun(run) && i < |run| && v in run[i].policies && run[i].policies[v].windowSeconds > 0
    ensures var p, rows := run[i].policies[v], run[i].reservations;
            var ops := AdmittedIn(rows, v, w, t, n * p.windowSeconds, (n + 1) * p.windowSeconds);
            |ops| <= p.maxOperations && (ops != {} ==> Amount(rows, ops) <= p.maxWallet)
  {
    var p, rows := run[i].policies[v], run[i].reservations;
    var s := p.windowSeconds;
    var k := Key(v, w, t, n * s);
    RunKeepsInv(run, i);
    assert BucketOk(run[i], k);
    forall x: Time ensures Window(x, s) == k.window <==> n * s <= x < (n + 1) * s {
      PeriodStart(x, s, n);
    }
    BucketIsPeriod(rows, k, s, n * s, (n + 1) * s);
    var ops := AdmittedIn(rows, v, w, t, n * s, (n + 1) * s);
    if ops != {} {
      AmountIsPositive(run[i], ops);
    }
  }

  /** Where every policy allows at most n unresolved steps (the schema fixes n = 1), no wallet ever
      has more than n reservations that still hold their amount. */
  lemma WalletsStayWithinUnresolved(run: seq<Db>, i: nat, w: Wallet, n: nat)
    requires IsRun(run) && i < |run| && forall v :: v in run[i].policies ==> run[i].policies[v].maxUnresolved <= n
    ensures |HeldBy(run[i].reservations, w)| <= n
  {
    RunKeepsInv(run, i);
    assert WalletOk(run[i], w, n);
    TotalIsCount(run[i].reservations, WalletWeight(w), HeldBy(run[i].reservations, w));
  }

  /** Room for one more operation under every cap of its policy. */
  ghost predicate HasRoom(db: Db, s: Source, now: Time)
    requires s.policy in db.policies
  {
    var p, rows := db.policies[s.policy], db.reservations;
    var (from, to) := PeriodOf(now, p.windowSeconds);
    var period := AdmittedIn(rows, s.policy, s.wallet, s.token, from, to);
    && |HeldBy(rows, s.wallet)| < p.maxUnresolved
    && |period| < p.maxOperations && Amount(rows, period) + s.amount <= p.maxWallet
    && Amount(rows, HeldFor(rows, s.policy, s.token)) + s.amount <= p.maxToken
    && Amount(rows, HeldUnder(rows, s.policy)) + s.amount <= p.maxTotal
  }

  lemma PeriodOfNow(now: Time, seconds: nat)
    ensures var (from, to) := PeriodOf(now, seconds);
            forall t: Time :: Window(t, seconds) == Window(now, seconds) <==> from <= t < to
  {
    if seconds > 0 {
      forall t: Time
        ensures Window(t, seconds) == Window(now, seconds) <==>
                  now / seconds * seconds <= t < (now / seconds + 1) * seconds
      {
        PeriodStart(now, seconds, now / seconds);
        PeriodStart(t, seconds, now / seconds);
      }
    }
  }

  lemma PassedMeansRoom(db: Db, s: Source, now: Time)
    requires Inv(db) && s.policy in db.policies && s.amount > 0
    ensures Passed(db, s, Key(s.policy, s.wallet, s.token, Window(now, db.policies[s.policy].windowSeconds))) <==>
              HasRoom(db, s, now)
  {
    var p, rows := db.policies[s.policy], db.reservations;
    var k := Key(s.policy, s.wallet, s.token, Window(now, p.windowSeconds));
    var (from, to) := PeriodOf(now, p.windowSeconds);
    assert BucketOk(db, k);
    PeriodOfNow(now, p.windowSeconds);
    BucketIsPeriod(rows, k, p.windowSeconds, from, to);
    TotalIsCount(rows, WalletWeight(s.wallet), HeldBy(rows, s.wallet));
    TotalIsSum(rows, TokenWeight(s.policy, s.token), HeldFor(rows, s.policy, s.token), AmountIn(rows));
    TotalIsSum(rows, PolicyWeight(s.policy), HeldUnder(rows, s.policy), AmountIn(rows));
  }

  /** In every reachable state the gate admits exactly when the outer checks passed, the deadline lies
      ahead, the operation is within its limits, and there is room for it under every cap. */
  lemma AdmittedExactlyWhen(run: seq<Db>, i: nat, s: Source, now: Time, outer: Option<Reason>)
    requires IsRun(run) && i < |run| && outer != Some(Admitted)
    ensures GateReason(run[i], s, now, outer) == Admitted <==>
              && outer == None && now < s.expiresAt && s.policy in run[i].policies
              && WithinOperationLimits(s, run[i].policies[s.policy]) && HasRoom(run[i], s, now)
  {
    RunKeepsInv(run, i);
    PassesExactlyWhen(run[i], s, now, outer);
    if s.policy in run[i].policies && s.amount > 0 {
      PassedMeansRoom(run[i], s, now);
      if HasRoom(run[i], s, now) {
        CapsArePositive(run[i], s, now);
      }
    }
  }

  lemma CapsArePositive(db: Db, s: Source, now: Time)
    requires RowsOk(db) && s.policy in db.policies && s.amount > 0 && HasRoom(db, s, now)
    ensures db.policies[s.policy].maxWallet > 0 && db.policies[s.policy].maxToken > 0
    ensures db.policies[s.policy].maxTotal > 0
  {
    var rows := db.reservations;
    var (from, to) := PeriodOf(now, db.policies[s.policy].windowSeconds);
    SumSubset({}, AdmittedIn(rows, s.policy, s.wallet, s.token, from, to), AmountIn(rows));
    SumSubset({}, HeldFor(rows, s.policy, s.token), AmountIn(rows));
    SumSubset({}, HeldUnder(rows, s.policy), AmountIn(rows));
  }
}
