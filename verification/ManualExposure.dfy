/** MANUAL exposure: typed totals over the reservation table, and the admission check on them. */
module ManualExposure {
  import opened Common
  import opened Totals
  import opened ManualRisk

  type OpId = nat
  type Wallet = nat
  type Time = int

  datatype State = Reserved | Committed | Frozen | Released

  /** A reservation row joined with its verified quantities; `typed` is whether the unit row and
      every saved binding checked out. */
  datatype Row = Row(wallet: Wallet, unit: Unit, input: nat, outlay: nat, state: State, stamp: Time, typed: bool)

  type Rows = map<OpId, Row>

  predicate IsActive(r: Row)
  {
    r.state == Reserved || r.state == Frozen
  }

  datatype Exposure = Exposure(
    walletInput: map<Unit, nat>, globalInput: map<Unit, nat>,
    walletOutlay: nat, globalOutlay: nat,
    walletWindow: nat, globalWindow: nat, walletActive: nat)

  const ZERO: Exposure := Exposure(map[], map[], 0, 0, 0, 0, 0)

  function Get(m: map<Unit, nat>, u: Unit): nat
  {
    if u in m then m[u] else 0
  }

  // Weights of the recounts

  function GlobalInput(u: Unit): Row -> int
  {
    (r: Row) => if IsActive(r) && r.unit == u then r.input else 0
  }

  function WalletInput(w: Wallet, u: Unit): Row -> int
  {
    (r: Row) => if IsActive(r) && r.wallet == w && r.unit == u then r.input else 0
  }

  function GlobalOutlay(): Row -> int
  {
    (r: Row) => if IsActive(r) then r.outlay else 0
  }

  function WalletOutlay(w: Wallet): Row -> int
  {
    (r: Row) => if IsActive(r) && r.wallet == w then r.outlay else 0
  }

  function WalletActive(w: Wallet): Row -> int
  {
    (r: Row) => if IsActive(r) && r.wallet == w then 1 else 0
  }

  function GlobalWindow(cutoff: Time): Row -> int
  {
    (r: Row) => if cutoff <= r.stamp then 1 else 0
  }

  function WalletWindow(w: Wallet, cutoff: Time): Row -> int
  {
    (r: Row) => if cutoff <= r.stamp && r.wallet == w then 1 else 0
  }

  predicate HasLimit(p: Policy, u: Unit)
  {
    exists i :: 0 <= i < |p.limits| && p.limits[i].unit == u
  }

  /** A row the calculation refuses: dated after `now`, relevant but untyped, or active in a unit
      the current policy has no limit for. */
  predicate Refused(p: Policy, now: Time, r: Row)
  {
    || r.stamp > now
    || ((IsActive(r) || now - p.windowSeconds <= r.stamp) && !r.typed)
    || (IsActive(r) && !HasLimit(p, r.unit))
  }

  /** One row of the loop of loadManualExposureTx. */
  function AddRow(v: Exposure, r: Row, wallet: Wallet, cutoff: Time): Option<Exposure>
  {
    var counted := v.(globalWindow := v.globalWindow + (if cutoff <= r.stamp then 1 else 0),
                      walletWindow := v.walletWindow + (if cutoff <= r.stamp && r.wallet == wallet then 1 else 0));
    if !IsActive(r) then Some(counted)
    else if Get(v.globalInput, r.unit) + r.input >= UINT256 || v.globalOutlay + r.outlay >= UINT256 then None
    else
      var global := counted.(globalInput := v.globalInput[r.unit := Get(v.globalInput, r.unit) + r.input],
                             globalOutlay := v.globalOutlay + r.outlay);
      if r.wallet != wallet then Some(global)
      else if Get(v.walletInput, r.unit) + r.input >= UINT256 || v.walletOutlay + r.outlay >= UINT256 then None
      else Some(global.(walletActive := v.walletActive + 1,
                        walletInput := v.walletInput[r.unit := Get(v.walletInput, r.unit) + r.input],
                        walletOutlay := v.walletOutlay + r.outlay))
  }

  ghost function Part(rows: Rows, s: set<OpId>, weight: Row -> int): int
  {
    Sum(s, WeightOf(rows, weight))
  }

  /** `v` holds exactly the totals of the rows in `s`. */
  ghost predicate Matches(v: Exposure, rows: Rows, s: set<OpId>, wallet: Wallet, cutoff: Time)
  {
    && (forall u :: Get(v.globalInput, u) == Part(rows, s, GlobalInput(u)))
    && (forall u :: Get(v.walletInput, u) == Part(rows, s, WalletInput(wallet, u)))
    && v.globalOutlay == Part(rows, s, GlobalOutlay())
    && v.walletOutlay == Part(rows, s, WalletOutlay(wallet))
    && v.walletActive == Part(rows, s, WalletActive(wallet))
    && v.globalWindow == Part(rows, s, GlobalWindow(cutoff))
    && v.walletWindow == Part(rows, s, WalletWindow(wallet, cutoff))
  }

  lemma MatchesInputs(v: Exposure, rows: Rows, s: set<OpId>, wallet: Wallet, cutoff: Time, o: OpId, u: Unit)
    requires Matches(v, rows, s, wallet, cutoff) && o in rows && o !in s && AddRow(v, rows[o], wallet, cutoff).Some?
    ensures var v' := AddRow(v, rows[o], wallet, cutoff).value;
            && Get(v'.globalInput, u) == Part(rows, s + {o}, GlobalInput(u))
            && Get(v'.walletInput, u) == Part(rows, s + {o}, WalletInput(wallet, u))
  {
    SumInsert(s, o, WeightOf(rows, GlobalInput(u)));
    SumInsert(s, o, WeightOf(rows, WalletInput(wallet, u)));
  }

  lemma MatchesOneMore(v: Exposure, rows: Rows, s: set<OpId>, wallet: Wallet, cutoff: Time, o: OpId)
    requires Matches(v, rows, s, wallet, cutoff) && o in rows && o !in s && AddRow(v, rows[o], wallet, cutoff).Some?
    ensures Matches(AddRow(v, rows[o], wallet, cutoff).value, rows, s + {o}, wallet, cutoff)
  {
    forall u ensures var v' := AddRow(v, rows[o], wallet, cutoff).value;
                     && Get(v'.globalInput, u) == Part(rows, s + {o}, GlobalInput(u))
                     && Get(v'.walletInput, u) == Part(rows, s + {o}, WalletInput(wallet, u))
    {
      MatchesInputs(v, rows, s, wallet, cutoff, o, u);
    }
    SumInsert(s, o, WeightOf(rows, GlobalOutlay()));
    SumInsert(s, o, WeightOf(rows, WalletOutlay(wallet)));
    SumInsert(s, o, WeightOf(rows, WalletActive(wallet)));
    SumInsert(s, o, WeightOf(rows, GlobalWindow(cutoff)));
    SumInsert(s, o, WeightOf(rows, WalletWindow(wallet, cutoff)));
  }

  /** Some active total does not fit in 256 bits. */
  ghost predicate Overflows(rows: Rows)
  {
    || Total(rows, GlobalOutlay()) >= UINT256
    || exists u :: Total(rows, GlobalInput(u)) >= UINT256
  }

  /** A refused addition means the full total overflows: partial sums only grow, and a wallet's
      sums are part of the global ones. */
  lemma RefusedAddOverflows(v: Exposure, rows: Rows, s: set<OpId>, wallet: Wallet, cutoff: Time, o: OpId)
    requires Matches(v, rows, s, wallet, cutoff) && s <= rows.Keys && o in rows && o !in s
             && AddRow(v, rows[o], wallet, cutoff).None?
    ensures Overflows(rows)
  {
    var u := rows[o].unit;
    WalletBelowGlobal(rows, s, wallet, u);
    SumInsert(s, o, WeightOf(rows, GlobalInput(u)));
    SumInsert(s, o, WeightOf(rows, GlobalOutlay()));
    SumSubset(s + {o}, rows.Keys, WeightOf(rows, GlobalInput(u)));
    SumSubset(s + {o}, rows.Keys, WeightOf(rows, GlobalOutlay()));
  }

  lemma {:induction false} WalletBelowGlobal(rows: Rows, s: set<OpId>, wallet: Wallet, u: Unit)
    ensures Part(rows, s, WalletInput(wallet, u)) <= Part(rows, s, GlobalInput(u))
    ensures Part(rows, s, WalletOutlay(wallet)) <= Part(rows, s, GlobalOutlay())
    decreases s
  {
    if s != {} {
      var o :| o in s;
      WalletBelowGlobal(rows, s - {o}, wallet, u);
      SumRemove(s, o, WeightOf(rows, WalletInput(wallet, u)));
      SumRemove(s, o, WeightOf(rows, GlobalInput(u)));
      SumRemove(s, o, WeightOf(rows, WalletOutlay(wallet)));
      SumRemove(s, o, WeightOf(rows, GlobalOutlay()));
    }
  }

  /** Totals held without a refused addition fit. */
  ghost predicate Fits(v: Exposure)
  {
    v.globalOutlay < UINT256 && forall u :: Get(v.globalInput, u) < UINT256
  }

  lemma AddRowFits(v: Exposure, r: Row, wallet: Wallet, cutoff: Time)
    requires Fits(v) && AddRow(v, r, wallet, cutoff).Some?
    ensures Fits(AddRow(v, r, wallet, cutoff).value)
  {
    forall u: Unit ensures Get(AddRow(v, r, wallet, cutoff).value.globalInput, u) < UINT256 {
      assert Get(v.globalInput, u) < UINT256;
    }
  }

  lemma FittingTotals(v: Exposure, rows: Rows, wallet: Wallet, cutoff: Time)
    requires Matches(v, rows, rows.Keys, wallet, cutoff) && Fits(v)
    ensures !Overflows(rows)
  {
    assert v.globalOutlay == Part(rows, rows.Keys, GlobalOutlay()) == Total(rows, GlobalOutlay());
    forall u: Unit ensures Total(rows, GlobalInput(u)) < UINT256 {
      assert Get(v.globalInput, u) == Part(rows, rows.Keys, GlobalInput(u)) == Total(rows, GlobalInput(u));
    }
  }

  lemma ZeroMatches(rows: Rows, wallet: Wallet, cutoff: Time)
    ensures Matches(ZERO, rows, {}, wallet, cutoff) && Fits(ZERO)
  {
  }

  /** The totals after reading the rows in the given order, None once an addition was refused. */
  function Fold(rows: Rows, order: seq<OpId>, wallet: Wallet, cutoff: Time): Option<Exposure>
    requires forall o :: o in order ==> o in rows
  {
    if order == [] then Some(ZERO)
    else
      var before := Fold(rows, order[..|order| - 1], wallet, cutoff);
      if before.None? then None else AddRow(before.value, rows[order[|order| - 1]], wallet, cutoff)
  }

  ghost function Seen(order: seq<OpId>): set<OpId>
  {
    set o | o in order
  }

  lemma SeenSplits(order: seq<OpId>)
    requires order != [] && forall i, j :: 0 <= i < j < |order| ==> order[i] != order[j]
    ensures order[|order| - 1] !in Seen(order[..|order| - 1])
    ensures Seen(order) == Seen(order[..|order| - 1]) + {order[|order| - 1]}
  {
    assert order == order[..|order| - 1] + [order[|order| - 1]];
  }

  lemma {:induction false} FoldTotals(rows: Rows, order: seq<OpId>, wallet: Wallet, cutoff: Time)
    requires forall o :: o in order ==> o in rows
    requires forall i, j :: 0 <= i < j < |order| ==> order[i] != order[j]
    ensures match Fold(rows, order, wallet, cutoff)
            case Some(v) => Matches(v, rows, Seen(order), wallet, cutoff) && Fits(v)
            case None => Overflows(rows)
  {
    if order == [] {
      ZeroMatches(rows, wallet, cutoff);
      assert Seen(order) == {};
    } else {
      var init, o := order[..|order| - 1], order[|order| - 1];
      FoldTotals(rows, init, wallet, cutoff);
      SeenSplits(order);
      var before := Fold(rows, init, wallet, cutoff);
      if before.Some? {
        FoldStep(before.value, rows, Seen(init), wallet, cutoff, o);
      }
    }
  }

  lemma FoldStep(v: Exposure, rows: Rows, s: set<OpId>, wallet: Wallet, cutoff: Time, o: OpId)
    requires Matches(v, rows, s, wallet, cutoff) && Fits(v) && s <= rows.Keys && o in rows && o !in s
    ensures match AddRow(v, rows[o], wallet, cutoff)
            case Some(v') => Matches(v', rows, s + {o}, wallet, cutoff) && Fits(v')
            case None => Overflows(rows)
  {
    if AddRow(v, rows[o], wallet, cutoff).Some? {
      MatchesOneMore(v, rows, s, wallet, cutoff, o);
      AddRowFits(v, rows[o], wallet, cutoff);
    } else {
      RefusedAddOverflows(v, rows, s, wallet, cutoff, o);
    }
  }

  lemma {:induction false} FoldStaysRefused(rows: Rows, order: seq<OpId>, i: nat, wallet: Wallet, cutoff: Time)
    requires (forall o :: o in order ==> o in rows) && i <= |order| && Fold(rows, order[..i], wallet, cutoff).None?
    ensures Fold(rows, order, wallet, cutoff).None?
    decreases |order|
  {
    if i < |order| {
      assert order[..|order| - 1][..i] == order[..i];
      FoldStaysRefused(rows, order[..|order| - 1], i, wallet, cutoff);
    } else {
      assert order[..i] == order;
    }
  }

  /** Reading succeeds exactly when nothing overflows, with the totals of the whole table. */
  lemma FoldOfAll(rows: Rows, order: seq<OpId>, wallet: Wallet, cutoff: Time)
    requires forall o :: o in rows <==> o in order
    requires forall i, j :: 0 <= i < j < |order| ==> order[i] != order[j]
    ensures Fold(rows, order, wallet, cutoff).Some? <==> !Overflows(rows)
    ensures Fold(rows, order, wallet, cutoff).Some? ==>
              Matches(Fold(rows, order, wallet, cutoff).value, rows, rows.Keys, wallet, cutoff)
  {
    FoldTotals(rows, order, wallet, cutoff);
    assert Seen(order) == rows.Keys;
    if Fold(rows, order, wallet, cutoff).Some? {
      FittingTotals(Fold(rows, order, wallet, cutoff).value, rows, wallet, cutoff);
    }
  }

  predicate AnyRefused(rows: Rows, order: seq<OpId>, p: Policy, now: Time)
    requires forall o :: o in order ==> o in rows
  {
    exists i :: 0 <= i < |order| && Refused(p, now, rows[order[i]])
  }

  /** The loop of loadManualExposureTx, in the order the database returns the rows. */
  method ReadRows(rows: Rows, order: seq<OpId>, wallet: Wallet, p: Policy, now: Time) returns (r: Option<Exposure>)
    requires forall o :: o in order ==> o in rows
    ensures r == if AnyRefused(rows, order, p, now) then None else Fold(rows, order, wallet, now - p.windowSeconds)
  {
    var cutoff := now - p.windowSeconds;
    var v := ZERO;
    var i := 0;
    while i < |order|
      invariant 0 <= i <= |order| && Fold(rows, order[..i], wallet, cutoff) == Some(v)
      invariant forall k :: 0 <= k < i ==> !Refused(p, now, rows[order[k]])
    {
      if Refused(p, now, rows[order[i]]) {
        return None;
      }
      assert order[..i + 1][..i] == order[..i];
      var next := AddRow(v, rows[order[i]], wallet, cutoff);
      if next.None? {
        FoldStaysRefused(rows, order, i + 1, wallet, cutoff);
        return None;
      }
      v, i := next.value, i + 1;
    }
    assert order[..i] == order;
    return Some(v);
  }

  /** A usage bucket written before reservations were typed, with its policy's window length. */
  datatype Bucket = Bucket(start: Time, seconds: nat)

  /** Some instant of the bucket is at or after `cutoff`, or its length is not a valid one. */
  predicate MayOverlap(b: Bucket, cutoff: Time)
  {
    b.seconds == 0 || b.seconds > 31536000 || cutoff <= b.start + b.seconds
  }

  predicate Covers(b: Bucket, t: Time)
  {
    b.start <= t <= b.start + b.seconds
  }

  /** A bucket of valid length is out of the way exactly when no instant of it is in the window. */
  lemma OverlapsExactlyWhen(b: Bucket, cutoff: Time)
    ensures MayOverlap(b, cutoff) <==>
              || !(1 <= b.seconds <= 31536000)
              || exists t: Time :: Covers(b, t) && cutoff <= t
  {
    assert Covers(b, b.start + b.seconds);
  }

  method NoneOverlaps(buckets: seq<Bucket>, cutoff: Time) returns (ok: bool)
    ensures ok <==> forall b :: b in buckets ==> !MayOverlap(b, cutoff)
  {
    var i := 0;
    while i < |buckets|
      invariant 0 <= i <= |buckets|
      invariant forall k :: 0 <= k < i ==> !MayOverlap(buckets[k], cutoff)
    {
      if MayOverlap(buckets[i], cutoff) {
        return false;
      }
      i := i + 1;
    }
    return true;
  }

  /** loadManualExposureTx: rows in any order. It succeeds exactly when no untyped bucket reaches
      into the window, no row is refused and no active total overflows, and then holds the exact
      per-unit totals of the whole table. */
  method LoadExposure(rows: Rows, order: seq<OpId>, buckets: seq<Bucket>, wallet: Wallet, p: Policy, now: Time)
    returns (r: Option<Exposure>)
    requires forall o :: o in rows <==> o in order
    requires forall i, j :: 0 <= i < j < |order| ==> order[i] != order[j]
    ensures r.Some? <==>
              && (forall b :: b in buckets ==> !MayOverlap(b, now - p.windowSeconds))
              && (forall o :: o in rows ==> !Refused(p, now, rows[o]))
              && !Overflows(rows)
    ensures r.Some? ==> Matches(r.value, rows, rows.Keys, wallet, now - p.windowSeconds)
  {
    var typed := NoneOverlaps(buckets, now - p.windowSeconds);
    if !typed {
      return None;
    }
    r := ReadRows(rows, order, wallet, p, now);
    FoldOfAll(rows, order, wallet, now - p.windowSeconds);
    assert AnyRefused(rows, order, p, now) <==> exists o :: o in rows && Refused(p, now, rows[o]) by {
      forall o | o in rows && Refused(p, now, rows[o]) ensures AnyRefused(rows, order, p, now) {
        var i :| 0 <= i < |order| && order[i] == o;
      }
    }
  }

  /** The totals do not depend on the order the rows are read in. */
  lemma ExposureIsUnique(v: Exposure, v': Exposure, rows: Rows, wallet: Wallet, cutoff: Time, u: Unit)
    requires Matches(v, rows, rows.Keys, wallet, cutoff) && Matches(v', rows, rows.Keys, wallet, cutoff)
    ensures Get(v.globalInput, u) == Get(v'.globalInput, u) && Get(v.walletInput, u) == Get(v'.walletInput, u)
    ensures v.(globalInput := map[], walletInput := map[]) == v'.(globalInput := map[], walletInput := map[])
  {
    assert Get(v.globalInput, u) == Part(rows, rows.Keys, GlobalInput(u)) == Get(v'.globalInput, u);
  }

  /** manualSQLSum: exact, failing only when an element is no uint256 or the true sum overflows. */
  method SqlSum(items: seq<nat>) returns (r: Option<nat>)
    ensures r.Some? <==> (forall n :: n in items ==> n < UINT256) && SumSeq(items) < UINT256
    ensures r.Some? ==> r.value == SumSeq(items)
  {
    var total: nat := 0;
    var i := 0;
    while i < |items|
      invariant 0 <= i <= |items| && total == SumSeq(items[..i]) && total < UINT256
      invariant forall k :: 0 <= k < i ==> items[k] < UINT256
    {
      if items[i] >= UINT256 {
        assert items[i] in items;
        return None;
      }
      assert items[..i + 1][..i] == items[..i];
      total := total + items[i];
      if total >= UINT256 {
        PrefixSumBelow(items, i + 1);
        return None;
      }
      i := i + 1;
    }
    assert items[..i] == items;
    return Some(total);
  }

  lemma {:induction false} PrefixSumBelow(items: seq<nat>, n: nat)
    requires n <= |items|
    ensures 0 <= SumSeq(items[..n]) <= SumSeq(items)
    decreases |items| - n, n
  {
    if n < |items| {
      PrefixSumBelow(items, n + 1);
      assert items[..n + 1][..n] == items[..n];
      PrefixNonNegative(items[..n]);
    } else {
      assert items[..n] == items;
      PrefixNonNegative(items);
    }
  }

  lemma {:induction false} PrefixNonNegative(items: seq<nat>)
    ensures 0 <= SumSeq(items)
  {
    if items != [] {
      PrefixNonNegative(items[..|items| - 1]);
    }
  }
}
