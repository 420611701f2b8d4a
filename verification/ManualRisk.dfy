/** Unit-aware MANUAL arithmetic and the typed policy. Decimal strings are numbers here; a
    quantity is valid when it fits in 256 bits. */
module ManualRisk {
  import opened Common

  datatype Kind = TradeInput | NativeGas | NativeValue | NativeOutlay

  // Asset addresses are compared as strings; 0 is the native asset.
  type Asset = nat

  datatype Unit = Unit(asset: Asset, decimals: nat, kind: Kind)

  datatype Quantity = Quantity(unit: Unit, units: nat)

  const NATIVE: Asset := 0

  const OUTLAY: Unit := Unit(NATIVE, 18, NativeOutlay)

  predicate ValidUnit(u: Unit)
  {
    (u.asset == NATIVE ==> u.decimals == 18) && (u.kind != TradeInput ==> u.asset == NATIVE)
  }

  predicate Valid(q: Quantity)
  {
    ValidUnit(q.unit) && q.units < UINT256
  }

  /** Add: never across units, and never past 256 bits. */
  function Add(a: Quantity, b: Quantity): Option<Quantity>
  {
    if !Valid(a) || !Valid(b) || a.unit != b.unit || a.units + b.units >= UINT256 then None
    else Some(Quantity(a.unit, a.units + b.units))
  }

  predicate CheckCap(used: Quantity, added: Quantity, cap: Quantity)
  {
    && Valid(cap) && cap.unit == used.unit && cap.units != 0
    && Add(used, added).Some? && Add(used, added).value.units <= cap.units
  }

  predicate CheckRetainedBalance(balance: nat, outlay: nat, retained: nat)
  {
    && balance < UINT256 && outlay < UINT256 && retained < UINT256
    && outlay + retained < UINT256 && outlay + retained <= balance
  }

  /** The native asset always has 18 decimals; any other asset is only ever traded. */
  lemma UnitsAre(u: Unit)
    ensures ValidUnit(u) <==> if u.asset == 0 then u.decimals == 18 else u.kind == TradeInput
  {
  }

  /** Quantities add up exactly within one valid unit and 256 bits, and in no other case. */
  lemma AddsExactlyWhen(a: Quantity, b: Quantity, c: Quantity)
    ensures Add(a, b) == Some(c) <==>
              a.unit == b.unit == c.unit && ValidUnit(c.unit) && c.units == a.units + b.units < UINT256
  {
  }

  /** A cap holds exactly when it is a positive quantity of the same unit that the sum does not exceed. */
  lemma CapHoldsExactlyWhen(used: Quantity, added: Quantity, cap: Quantity)
    ensures CheckCap(used, added, cap) <==>
              && used.unit == added.unit == cap.unit && ValidUnit(cap.unit)
              && 0 < cap.units < UINT256 && used.units + added.units <= cap.units
  {
  }

  datatype InputLimit = InputLimit(unit: Unit, maxOperation: nat, maxWallet: nat, maxGlobal: nat)

  datatype Policy = Policy(limits: seq<InputLimit>, maxGas: nat, maxWalletOutlay: nat, maxGlobalOutlay: nat,
                           minBalance: nat, maxSellBps: nat, maxWalletWindow: nat, maxGlobalWindow: nat,
                           windowSeconds: nat)

  const MAX_WINDOW_OPERATIONS: nat := 0x7FFF_FFFF_FFFF_FFFF

  predicate ValidLimit(l: InputLimit)
  {
    && ValidUnit(l.unit) && l.unit.kind == TradeInput
    && 0 < l.maxOperation <= l.maxWallet <= l.maxGlobal < UINT256
  }

  /** Policy.Validate: one limit per asset, in strictly increasing asset order. */
  predicate ValidPolicy(p: Policy)
  {
    && 0 < |p.limits| <= 128
    && 0 < p.maxSellBps <= 10000 && 0 < p.windowSeconds <= 31536000
    && 0 < p.maxWalletWindow <= p.maxGlobalWindow <= MAX_WINDOW_OPERATIONS
    && (forall i :: 0 <= i < |p.limits| ==> ValidLimit(p.limits[i]))
    && (forall i :: 0 < i < |p.limits| ==> p.limits[i - 1].unit.asset < p.limits[i].unit.asset)
    && 0 < p.maxGas <= p.maxWalletOutlay <= p.maxGlobalOutlay < UINT256 && p.minBalance < UINT256
  }

  /** Policy.Validate as it runs: a loop that remembers the previous asset. The first entry is
      compared with the empty string, which every asset is above. */
  method Validate(p: Policy) returns (ok: bool)
    ensures ok == ValidPolicy(p)
  {
    if |p.limits| == 0 || |p.limits| > 128 || p.maxSellBps == 0 || p.maxSellBps > 10000 || p.windowSeconds == 0
       || p.windowSeconds > 31536000
       || p.maxWalletWindow == 0 || p.maxGlobalWindow < p.maxWalletWindow || p.maxGlobalWindow > MAX_WINDOW_OPERATIONS {
      return false;
    }
    var previous: Option<Asset> := None;
    var i := 0;
    while i < |p.limits|
      invariant 0 <= i <= |p.limits|
      invariant previous == if i == 0 then None else Some(p.limits[i - 1].unit.asset)
      invariant forall k :: 0 <= k < i ==> ValidLimit(p.limits[k])
      invariant forall k :: 0 < k < i ==> p.limits[k - 1].unit.asset < p.limits[k].unit.asset
    {
      var l := p.limits[i];
      if !ValidUnit(l.unit) || l.unit.kind != TradeInput || (previous.Some? && l.unit.asset <= previous.value) {
        return false;
      }
      previous := Some(l.unit.asset);
      if l.maxOperation == 0 || l.maxOperation >= UINT256 || l.maxWallet >= UINT256 || l.maxGlobal >= UINT256
         || l.maxOperation > l.maxWallet || l.maxWallet > l.maxGlobal {
        return false;
      }
      i := i + 1;
    }
    ok := 0 < p.maxGas <= p.maxWalletOutlay <= p.maxGlobalOutlay < UINT256 && p.minBalance < UINT256;
  }

  lemma {:induction false} LimitsIncrease(p: Policy, i: nat, j: nat)
    requires ValidPolicy(p) && i < j < |p.limits|
    ensures p.limits[i].unit.asset < p.limits[j].unit.asset
    decreases j - i
  {
    if i + 1 < j {
      LimitsIncrease(p, i, j - 1);
    }
    assert p.limits[j - 1].unit.asset < p.limits[j].unit.asset;
  }

  /** Policy.Limit, found by searching. In a valid policy the limit of a unit is unique, so the
      first match is the only one. */
  method Limit(p: Policy, unit: Unit) returns (r: Option<InputLimit>)
    requires ValidPolicy(p)
    ensures r.Some? ==> r.value in p.limits && r.value.unit == unit
    ensures r.None? ==> forall l :: l in p.limits ==> l.unit != unit
    ensures forall l :: l in p.limits && l.unit == unit ==> r == Some(l)
  {
    var i := 0;
    while i < |p.limits|
      invariant 0 <= i <= |p.limits|
      invariant forall k :: 0 <= k < i ==> p.limits[k].unit != unit
    {
      if p.limits[i].unit == unit {
        forall j | 0 <= j < |p.limits| && p.limits[j].unit == unit ensures j == i {
          if j > i {
            LimitsIncrease(p, i, j);
          }
        }
        return Some(p.limits[i]);
      }
      i := i + 1;
    }
    return None;
  }
}
