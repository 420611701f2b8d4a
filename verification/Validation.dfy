/** Trade validation: Resolve and Complete prepare a call from what the node answers; CheckResolution
    and CheckValidation re-derive it independently before it is stored.

    A number in canonical text is that number here; `Fits` is what canonicalUint asks of it. Calldata
    building by the trading SDK is an arbitrary function. Everything the node answers is a
    parameter; an RPC failure, a contradiction or an expired deadline is None. */
module Validation {
  import opened Common
  import opened Decimal

  type Address = nat

  datatype Token = Token(address: Address, curve: Address, decimals: nat, identified: bool)

  /** `amount` and `minReceive` are the user's decimal text, empty when unset. */
  datatype Intent = Intent(wallet: Address, token: Address, buy: bool, amount: string, sellBps: nat, slippageBps: nat,
                           minReceive: string, maxFee: Option<nat>, tip: Option<nat>, maxTotal: Option<nat>)

  datatype Limits = Limits(maxInput: nat, maxGas: nat, maxFee: nat, maxTip: nat, minNative: nat)

  datatype Resolution = Resolution(token: Token, wallet: Address, buy: bool, amountIn: nat, native: nat,
                                   tokenBalance: nat, allowance: nat, minReceive: Option<nat>)

  datatype Call = Call(to: Address, value: nat, data: nat)

  datatype Output = Output(resolution: Resolution, quotedOut: nat, minimumOut: nat, spent: nat, to: Address,
                           from: Address, value: nat, data: nat, gasLimit: nat, feeCap: nat, tipCap: nat, budget: nat,
                           returned: nat)

  datatype Sdk = Sdk(
    buy: (Address, nat, nat, Address) -> Option<Call>,
    sell: (Address, nat, nat, Address) -> Option<Call>)

  function Build(sdk: Sdk, buy: bool, curve: Address, amount: nat, min: nat, wallet: Address): Option<Call>
  {
    if buy then sdk.buy(curve, amount, min, wallet) else sdk.sell(curve, amount, min, wallet)
  }

  predicate Fits(n: nat, zero: bool)
  {
    n < UINT256 && (zero || n > 0)
  }

  /** Proportional slippage floor. */
  function SlippageFloor(out: nat, bps: nat): nat
    requires bps <= 10000
  {
    out * (10000 - bps) / 10000
  }

  // ---------------------------------------------------------------------------------------
  // Resolution

  predicate IntentOk(i: Intent)
  {
    && i.slippageBps < 10000 && ((i.amount == "") != (i.sellBps == 0)) && i.sellBps <= 10000
    && !(i.buy && i.sellBps != 0)
  }

  /** The input amount the intent asks for. */
  function AmountOf(i: Intent, token: Token, balance: nat): Option<nat>
  {
    if i.sellBps != 0 then Some(balance * i.sellBps / 10000)
    else Human(i.amount, if i.buy then 18 else token.decimals)
  }

  function FloorOf(i: Intent, token: Token): Option<nat>
  {
    Human(i.minReceive, if i.buy then token.decimals else 18)
  }

  /** `part` is `whole * bps / 10000`, rounded down. */
  predicate IsShare(part: nat, whole: nat, bps: nat)
  {
    part * 10000 <= whole * bps < (part + 1) * 10000
  }

  lemma FloorIsShare(out: nat, bps: nat)
    requires bps <= 10000
    ensures IsShare(SlippageFloor(out, bps), out, 10000 - bps)
  {
  }

  lemma AmountIsShare(i: Intent, token: Token, balance: nat)
    requires i.sellBps != 0
    ensures AmountOf(i, token, balance).Some? && IsShare(AmountOf(i, token, balance).value, balance, i.sellBps)
  {
  }

  /** What the node reported for the snapshot block. */
  datatype Snapshot = Snapshot(token: Token, native: nat, balance: nat, allowance: nat)

  predicate Affordable(i: Intent, amount: nat, native: nat, balance: nat, allowance: nat)
  {
    if i.buy then amount <= native else amount <= balance && amount <= allowance
  }

  /** Resolve, step by step. What it returns passes the independent check exactly when a tip comes with
      a fee cap, the node answered for the right token, and its quantities are 256-bit words. */
  method Resolve(i: Intent, s: Snapshot) returns (r: Option<Resolution>)
    ensures r.Some? ==> (CheckResolution(i, r.value) <==>
                           && (i.tip.Some? ==> i.maxFee.Some?)
                           && s.token.identified && s.token.address == i.token
                           && Fits(s.native, true) && Fits(s.balance, true) && Fits(s.allowance, true))
    ensures r.Some? ==>
              r.value.native == s.native && r.value.tokenBalance == s.balance && r.value.allowance == s.allowance
    ensures r.Some? && i.sellBps != 0 ==> IsShare(r.value.amountIn, s.balance, i.sellBps)
    ensures r.Some? && i.sellBps == 0 ==>
              Human(i.amount, if i.buy then 18 else s.token.decimals) == Some(r.value.amountIn)
    ensures r.Some? ==> r.value.minReceive == if i.minReceive == "" then None
                                              else Human(i.minReceive, if i.buy then s.token.decimals else 18)
    ensures r.None? <==>
              || !IntentOk(i)
              || AmountOf(i, s.token, s.balance).None?
              || !Fits(AmountOf(i, s.token, s.balance).value, false)
              || !Affordable(i, AmountOf(i, s.token, s.balance).value, s.native, s.balance, s.allowance)
              || (i.minReceive != "" && FloorOf(i, s.token).None?)
  {
    if !IntentOk(i) {
      return None;
    }
    var amount := 0;
    if i.sellBps != 0 {
      amount := s.balance * i.sellBps / 10000;
    } else {
      var d := s.token.decimals;
      if i.buy {
        d := 18;
      }
      var parsed := Human(i.amount, d);
      if parsed.None? {
        return None;
      }
      amount := parsed.value;
    }
    if amount == 0 || amount >= UINT256 || !Affordable(i, amount, s.native, s.balance, s.allowance) {
      return None;
    }
    var resolved := Resolution(s.token, i.wallet, i.buy, amount, s.native, s.balance, s.allowance, None);
    if i.minReceive != "" {
      var floor := Human(i.minReceive, if i.buy then s.token.decimals else 18);
      if floor.None? {
        return None;
      }
      resolved := resolved.(minReceive := floor);
    }
    return Some(resolved);
  }

  /** CheckResolution: the independent re-derivation. */
  predicate CheckResolution(i: Intent, r: Resolution)
  {
    && r.wallet == i.wallet && r.token.address == i.token && r.buy == i.buy && r.token.identified
    && i.slippageBps < 10000
    && Fits(r.tokenBalance, true) && Fits(r.allowance, true) && Fits(r.native, true) && Fits(r.amountIn, false)
    && IntentOk(i)
    && AmountOf(i, r.token, r.tokenBalance) == Some(r.amountIn)
    && Affordable(i, r.amountIn, r.native, r.tokenBalance, r.allowance)
    && (if i.minReceive == "" then r.minReceive == None
        else FloorOf(i, r.token).Some? && FloorOf(i, r.token) == r.minReceive)
    && (i.tip.Some? ==> i.maxFee.Some?)
  }

  // ---------------------------------------------------------------------------------------
  // Completion

  /** The SDK's quote: output, its own minimum for a buy, and what a buy spends. */
  datatype Quote = Quote(out: nat, buyMinimum: nat, spent: nat)

  /** What the node answers while completing. `base` is the snapshot block's base fee. */
  datatype Node = Node(quote: Option<Quote>, base: nat, suggestedTip: Option<nat>, gas: Option<nat>,
                       simulated: Option<nat>)

  function QuotedMinimum(i: Intent, q: Quote): nat
    requires i.slippageBps < 10000
  {
    if i.buy then q.buyMinimum else SlippageFloor(q.out, i.slippageBps)
  }

  /** The user's floor raises the quoted minimum. */
  function Minimum(i: Intent, r: Resolution, q: Quote): nat
    requires i.slippageBps < 10000
  {
    if r.minReceive.Some? then Max(QuotedMinimum(i, q), r.minReceive.value) else QuotedMinimum(i, q)
  }

  /** The fee cap and tip, or None when they are refused. */
  function Fees(i: Intent, l: Limits, node: Node): Option<(nat, nat)>
  {
    if !Fits(l.maxFee, false) || !Fits(l.maxTip, true) then None
    else if i.maxFee.Some? && (!Fits(i.maxFee.value, false) || i.maxFee.value > l.maxFee) then None
    else if i.tip.Some? && !Fits(i.tip.value, true) then None
    else if i.tip.None? && node.suggestedTip.None? then None
    else
      var cap := if i.maxFee.Some? then i.maxFee.value else l.maxFee;
      var tip := if i.tip.Some? then i.tip.value else node.suggestedTip.value;
      if tip > l.maxTip || tip > cap then None
      else
        var fee := if i.maxFee.Some? then cap else 2 * node.base + tip;
        if fee > cap || fee < node.base + tip then None else Some((fee, tip))
  }

  /** The last part of Complete: gas, input and balance limits, then the simulation's answer. */
  function Price(i: Intent, r: Resolution, l: Limits, node: Node, q: Quote, min: nat, call: Call, fees: (nat, nat))
    : Option<Output>
  {
    if node.gas.None? then None
    else
      var gas, fee, tip := node.gas.value, fees.0, fees.1;
      if gas == 0 || gas >= 0x1_0000_0000_0000_0000 || !Fits(l.maxGas, false) || gas > l.maxGas then None
      else if !Fits(l.maxInput, false) || r.amountIn > l.maxInput then None
      else if gas * fee >= UINT256 then None
      else if i.maxTotal.Some? && (!Fits(i.maxTotal.value, false) || gas * fee > i.maxTotal.value) then None
      else if !Fits(l.minNative, true) || gas * fee + call.value + l.minNative >= UINT256
              || r.native < gas * fee + call.value + l.minNative then None
      else if node.simulated != Some(q.out) || q.out >= UINT256 then None
      else Some(Output(r, q.out, min, if i.buy then q.spent else 0, call.to, r.wallet, call.value, call.data,
                       gas, fee, tip, gas * fee, q.out))
  }

  /** Complete. */
  function Complete(sdk: Sdk, i: Intent, r: Resolution, l: Limits, node: Node): Option<Output>
  {
    if !CheckResolution(i, r) || node.quote.None? then None
    else
      var q := node.quote.value;
      var min := Minimum(i, r, q);
      if i.buy && q.spent != r.amountIn then None
      else if min == 0 || min > q.out then None
      else
        var call := Build(sdk, i.buy, r.token.curve, r.amountIn, min, r.wallet);
        var fees := Fees(i, l, node);
        if call.None? || fees.None? then None
        else Price(i, r, l, node, q, min, call.value, fees.value)
  }

  /** CheckValidation: accepts an output only after re-deriving it. */
  predicate CheckValidation(sdk: Sdk, i: Intent, r: Resolution, l: Limits, o: Output)
  {
    && CheckResolution(i, r)
    && o.resolution == r && o.gasLimit > 0 && o.from == r.wallet && o.to == r.token.curve
    && Fits(o.quotedOut, false) && Fits(o.minimumOut, false) && o.minimumOut <= o.quotedOut
    && o.minimumOut == (if r.minReceive.Some? then Max(SlippageFloor(o.quotedOut, i.slippageBps), r.minReceive.value)
                        else SlippageFloor(o.quotedOut, i.slippageBps))
    && var call := Build(sdk, i.buy, r.token.curve, r.amountIn, o.minimumOut, r.wallet);
      && call.Some? && o.value == call.value.value && o.data == call.value.data
      && Fits(o.spent, true) && (if i.buy then o.spent == r.amountIn else o.spent == 0)
      && o.returned == o.quotedOut
      && Fits(o.feeCap, false) && Fits(o.tipCap, true) && o.tipCap <= o.feeCap
      && Fits(l.maxFee, false) && o.feeCap <= l.maxFee && Fits(l.maxTip, true) && o.tipCap <= l.maxTip
      && (i.maxFee.Some? ==> Fits(i.maxFee.value, false) && o.feeCap == i.maxFee.value)
      && (i.tip.Some? ==> Fits(i.tip.value, true) && o.tipCap == i.tip.value)
      && Fits(l.maxGas, false) && o.gasLimit <= l.maxGas
      && Fits(l.maxInput, false) && r.amountIn <= l.maxInput
      && o.gasLimit * o.feeCap < UINT256 && o.budget == o.gasLimit * o.feeCap
      && (i.maxTotal.Some? ==> Fits(i.maxTotal.value, false) && o.budget <= i.maxTotal.value)
      && Fits(l.minNative, true)
      && o.budget + o.value + l.minNative < UINT256 && o.budget + o.value + l.minNative <= r.native
  }

  /** The fee cap always pays the base fee and the tip, is the user's own if given and otherwise twice
      the base fee plus the tip, and respects every limit. */
  lemma FeesAreChecked(i: Intent, l: Limits, node: Node)
    requires Fees(i, l, node).Some?
    ensures var f := Fees(i, l, node).value;
            && f.1 <= f.0 <= l.maxFee && f.1 <= l.maxTip && Fits(l.maxFee, false) && Fits(l.maxTip, true)
            && (i.maxFee.Some? ==> Fits(i.maxFee.value, false) && f.0 == i.maxFee.value)
            && (i.tip.Some? ==> Fits(i.tip.value, true) && f.1 == i.tip.value)
            && (i.maxFee.None? ==> f.0 == 2 * node.base + f.1)
            && node.base + f.1 <= f.0 && (f.0 > 0 <==> i.maxFee.Some? || 2 * node.base + f.1 > 0)
  {
  }

  /** The automatic fee cap is not zero: the user gave one, or there is a base fee or a tip. */
  predicate PaysFees(i: Intent, node: Node)
  {
    i.maxFee.Some? || node.base > 0 || node.suggestedTip != Some(0)
  }

  /** The SDK's minimum of a buy is the proportional one, or the user's floor is above both. */
  predicate MinimumsMatch(i: Intent, r: Resolution, q: Quote)
    requires i.slippageBps < 10000
  {
    var proportional := SlippageFloor(q.out, i.slippageBps);
    q.buyMinimum == proportional || (r.minReceive.Some? && Max(q.buyMinimum, proportional) <= r.minReceive.value)
  }

  predicate AimsAtCurve(sdk: Sdk, i: Intent, r: Resolution, q: Quote)
    requires i.slippageBps < 10000
  {
    var call := Build(sdk, i.buy, r.token.curve, r.amountIn, Minimum(i, r, q), r.wallet);
    call.Some? && call.value.to == r.token.curve
  }

  /** What decides whether the checker accepts a completion, in terms of its inputs: fees are paid, the
      SDK aims the call at the curve, and for a buy the minimums match. */
  predicate AcceptedWhen(sdk: Sdk, i: Intent, r: Resolution, node: Node)
  {
    && i.slippageBps < 10000 && node.quote.Some?
    && PaysFees(i, node)
    && AimsAtCurve(sdk, i, r, node.quote.value)
    && (i.buy ==> MinimumsMatch(i, r, node.quote.value))
  }

  lemma CompletedOutput(sdk: Sdk, i: Intent, r: Resolution, l: Limits, node: Node)
    requires Complete(sdk, i, r, l, node).Some?
    ensures var o := Complete(sdk, i, r, l, node).value;
            && node.quote.Some? && Fees(i, l, node) == Some((o.feeCap, o.tipCap))
            && o.quotedOut == node.quote.value.out && i.slippageBps < 10000
            && o.minimumOut == Minimum(i, r, node.quote.value)
            && (o.to == r.token.curve <==> AimsAtCurve(sdk, i, r, node.quote.value))
            && (o.feeCap > 0 <==> PaysFees(i, node))
  {
    FeesAreChecked(i, l, node);
  }

  /** Every output Complete returns, for sells and buys alike, is accepted by the independent checker
      if and only if that condition on the inputs holds. */
  lemma CheckerAcceptsCompletions(sdk: Sdk, i: Intent, r: Resolution, l: Limits, node: Node)
    requires Complete(sdk, i, r, l, node).Some?
    ensures CheckValidation(sdk, i, r, l, Complete(sdk, i, r, l, node).value) <==> AcceptedWhen(sdk, i, r, node)
  {
    CompletedOutput(sdk, i, r, l, node);
    FeesAreChecked(i, l, node);
  }

  /** A sell that pays fees and is aimed at the curve is accepted. */
  lemma SellsAreAccepted(sdk: Sdk, i: Intent, r: Resolution, l: Limits, node: Node)
    requires !i.buy && Complete(sdk, i, r, l, node).Some? && PaysFees(i, node)
    requires i.slippageBps < 10000 && node.quote.Some? && AimsAtCurve(sdk, i, r, node.quote.value)
    ensures CheckValidation(sdk, i, r, l, Complete(sdk, i, r, l, node).value)
  {
    CheckerAcceptsCompletions(sdk, i, r, l, node);
  }

  /** On a chain without base fee that suggests no tip, Complete returns a zero fee cap, which the
      checker refuses. */
  lemma ZeroFeeIsRefused(sdk: Sdk, i: Intent, r: Resolution, l: Limits, node: Node)
    requires Complete(sdk, i, r, l, node).Some?
    requires i.maxFee.None? && node.base == 0 && node.suggestedTip == Some(0)
    ensures !CheckValidation(sdk, i, r, l, Complete(sdk, i, r, l, node).value)
  {
    CheckerAcceptsCompletions(sdk, i, r, l, node);
  }

  /** Such a completion exists: a sell of a whole balance of 100 units, quoted at 50. */
  lemma ZeroFeeExample() returns (sdk: Sdk, i: Intent, r: Resolution, l: Limits, node: Node)
    ensures i.maxFee.None? && node.base == 0 && node.suggestedTip == Some(0)
    ensures Complete(sdk, i, r, l, node).Some? && !CheckValidation(sdk, i, r, l, Complete(sdk, i, r, l, node).value)
  {
    sdk := Sdk((curve, amount, min, wallet) => None, (curve, amount, min, wallet) => Some(Call(3, 0, 0)));
    i := Intent(1, 2, false, "", 10000, 0, "", None, None, None);
    r := Resolution(Token(2, 3, 18, true), 1, false, 100, 1, 100, 100, None);
    l := Limits(100, 1, 1, 0, 0);
    node := Node(Some(Quote(50, 0, 0)), 0, Some(0), Some(1), Some(50));
    assert Fees(i, l, node) == Some((0, 0));
    ZeroFeeIsRefused(sdk, i, r, l, node);
  }

  /** What acceptance guarantees: the native balance covers the call's value, the gas limit at the
      fee cap and the retained minimum; the minimum output is positive and within the quote, and
      at least the user's floor; a sell is covered by balance and allowance; every limit of the
      policy and of the user is respected. */
  lemma AcceptanceCoversCosts(sdk: Sdk, i: Intent, r: Resolution, l: Limits, o: Output)
    requires CheckValidation(sdk, i, r, l, o)
    ensures o.value + o.gasLimit * o.feeCap + l.minNative <= r.native < UINT256
    ensures 0 < o.minimumOut <= o.quotedOut
    ensures i.minReceive != "" ==>
              && Human(i.minReceive, if i.buy then r.token.decimals else 18) == r.minReceive
              && r.minReceive.Some? && r.minReceive.value <= o.minimumOut
    ensures IsShare(o.minimumOut, o.quotedOut, 10000 - i.slippageBps)
            || (r.minReceive == Some(o.minimumOut)
                && o.quotedOut * (10000 - i.slippageBps) < (o.minimumOut + 1) * 10000)
    ensures i.sellBps != 0 ==> IsShare(r.amountIn, r.tokenBalance, i.sellBps)
    ensures i.sellBps == 0 ==> Human(i.amount, if i.buy then 18 else r.token.decimals) == Some(r.amountIn)
    ensures !i.buy ==> r.amountIn <= r.tokenBalance && r.amountIn <= r.allowance
    ensures o.tipCap <= o.feeCap <= l.maxFee && o.tipCap <= l.maxTip && 0 < o.gasLimit <= l.maxGas
            && r.amountIn <= l.maxInput
    ensures (i.maxFee.Some? ==> o.feeCap == i.maxFee.value) && (i.tip.Some? ==> o.tipCap == i.tip.value)
    ensures i.maxTotal.Some? ==> o.gasLimit * o.feeCap <= i.maxTotal.value
  {
    FloorIsShare(o.quotedOut, i.slippageBps);
    if i.sellBps != 0 {
      AmountIsShare(i, r.token, r.tokenBalance);
    }
  }

  // ---------------------------------------------------------------------------------------
  // Exactly when Complete succeeds, and with what

  /** The tip is the user's or else the suggested one; the fee cap is the user's or else twice the base
      fee plus the tip. They are granted exactly when they pay the base fee within the limits. */
  lemma FeesExactlyWhen(i: Intent, l: Limits, node: Node, fee: nat, tip: nat)
    ensures Fees(i, l, node) == Some((fee, tip)) <==>
              && 0 < l.maxFee < UINT256 && l.maxTip < UINT256
              && Some(tip) == (if i.tip.Some? then i.tip else node.suggestedTip) && (i.tip.Some? ==> tip < UINT256)
              && fee == (if i.maxFee.Some? then i.maxFee.value else 2 * node.base + tip)
              && (i.maxFee.Some? ==> fee > 0)
              && tip <= l.maxTip && node.base + tip <= fee <= l.maxFee
  {
  }

  /** The call the SDK builds for the resolved amount and the minimum. */
  function CallFor(sdk: Sdk, i: Intent, r: Resolution, min: nat): Option<Call>
  {
    if i.buy then sdk.buy(r.token.curve, r.amountIn, min, r.wallet)
    else sdk.sell(r.token.curve, r.amountIn, min, r.wallet)
  }

  /** The limits on gas, input and cost. */
  predicate WithinLimits(i: Intent, r: Resolution, l: Limits, gas: nat, fee: nat, value: nat)
  {
    && 0 < gas <= l.maxGas < UINT256 && gas < 0x1_0000_0000_0000_0000
    && 0 < r.amountIn <= l.maxInput < UINT256
    && gas * fee < UINT256 && (i.maxTotal.Some? ==> 0 < i.maxTotal.value < UINT256 && gas * fee <= i.maxTotal.value)
    && gas * fee + value + l.minNative <= r.native
  }

  /** Complete returns `o` exactly when the resolution checks, the quote, the fees, the call and the
      simulation agree, every limit holds, and `o` says just that. */
  lemma CompletesExactlyWhen(sdk: Sdk, i: Intent, r: Resolution, l: Limits, node: Node, o: Output)
    ensures Complete(sdk, i, r, l, node) == Some(o) <==>
              && CheckResolution(i, r) && node.quote.Some? && node.gas == Some(o.gasLimit)
              && Fees(i, l, node) == Some((o.feeCap, o.tipCap))
              && (i.buy ==> node.quote.value.spent == r.amountIn)
              && o.minimumOut == Minimum(i, r, node.quote.value) && 0 < o.minimumOut <= o.quotedOut < UINT256
              && node.quote.value.out == o.quotedOut && node.simulated == Some(o.quotedOut)
              && CallFor(sdk, i, r, o.minimumOut) == Some(Call(o.to, o.value, o.data))
              && WithinLimits(i, r, l, o.gasLimit, o.feeCap, o.value)
              && o.resolution == r && o.from == r.wallet && o.spent == (if i.buy then r.amountIn else 0)
              && o.budget == o.gasLimit * o.feeCap && o.returned == o.quotedOut
  {
    if CheckResolution(i, r) && node.quote.Some? && Fees(i, l, node).Some? {
      var min := Minimum(i, r, node.quote.value);
      if CallFor(sdk, i, r, min).Some? && (i.buy ==> node.quote.value.spent == r.amountIn) {
        PricesExactlyWhen(i, r, l, node, min, CallFor(sdk, i, r, min).value, Fees(i, l, node).value, o);
      }
    }
  }

  lemma PricesExactlyWhen(i: Intent, r: Resolution, l: Limits, node: Node, min: nat, call: Call, fees: (nat, nat),
                          o: Output)
    requires CheckResolution(i, r) && node.quote.Some? && (i.buy ==> node.quote.value.spent == r.amountIn)
    ensures Price(i, r, l, node, node.quote.value, min, call, fees) == Some(o) <==>
              && node.gas == Some(o.gasLimit) && fees == (o.feeCap, o.tipCap) && min == o.minimumOut
              && o.quotedOut < UINT256 && node.quote.value.out == o.quotedOut && node.simulated == Some(o.quotedOut)
              && call == Call(o.to, o.value, o.data)
              && WithinLimits(i, r, l, o.gasLimit, o.feeCap, o.value)
              && o.resolution == r && o.from == r.wallet && o.spent == (if i.buy then r.amountIn else 0)
              && o.budget == o.gasLimit * o.feeCap && o.returned == o.quotedOut
  {
  }

  /** The fee part of Complete: the cap is the policy's, then the user's, then the automatic one. */
  method FeesStepwise(i: Intent, l: Limits, node: Node) returns (r: Option<(nat, nat)>)
    ensures r == Fees(i, l, node)
  {
    if !Fits(l.maxFee, false) || !Fits(l.maxTip, true) {
      return None;
    }
    var maxFee := l.maxFee;
    if i.maxFee.Some? {
      if !Fits(i.maxFee.value, false) || i.maxFee.value > maxFee {
        return None;
      }
      maxFee := i.maxFee.value;
    }
    var tip: nat := 0;
    if i.tip.Some? {
      if !Fits(i.tip.value, true) {
        return None;
      }
      tip := i.tip.value;
    } else {
      if node.suggestedTip.None? {
        return None;
      }
      tip := node.suggestedTip.value;
    }
    if tip > l.maxTip || tip > maxFee {
      return None;
    }
    if i.maxFee.None? {
      var auto := 2 * node.base + tip;
      if auto > maxFee {
        return None;
      }
      maxFee := auto;
    }
    if maxFee < node.base + tip {
      return None;
    }
    return Some((maxFee, tip));
  }

  method PriceStepwise(i: Intent, r: Resolution, l: Limits, node: Node, q: Quote, min: nat, call: Call,
                       fees: (nat, nat))
    returns (o: Option<Output>)
    ensures o == Price(i, r, l, node, q, min, call, fees)
  {
    if node.gas.None? || node.gas.value == 0 || node.gas.value >= 0x1_0000_0000_0000_0000
       || !Fits(l.maxGas, false) || node.gas.value > l.maxGas
       || !Fits(l.maxInput, false) || r.amountIn > l.maxInput {
      return None;
    }
    var budget := node.gas.value * fees.0;
    if budget >= UINT256 || (i.maxTotal.Some? && (!Fits(i.maxTotal.value, false) || budget > i.maxTotal.value))
       || !Fits(l.minNative, true) {
      return None;
    }
    var required := budget + call.value + l.minNative;
    if required >= UINT256 || r.native < required || node.simulated != Some(q.out) || q.out >= UINT256 {
      return None;
    }
    var spent := if i.buy then q.spent else 0;
    return Some(Output(r, q.out, min, spent, call.to, r.wallet, call.value, call.data, node.gas.value,
                       fees.0, fees.1, budget, q.out));
  }

  /** Complete as it runs: min, the fee cap and the tip are reassigned on the way. */
  method CompleteStepwise(sdk: Sdk, i: Intent, r: Resolution, l: Limits, node: Node) returns (o: Option<Output>)
    ensures o == Complete(sdk, i, r, l, node)
  {
    if !CheckResolution(i, r) || node.quote.None? {
      return None;
    }
    var q := node.quote.value;
    var min;
    if i.buy {
      min := q.buyMinimum;
      if q.spent != r.amountIn {
        return None;
      }
    } else {
      min := SlippageFloor(q.out, i.slippageBps);
    }
    if r.minReceive.Some? && r.minReceive.value > min {
      min := r.minReceive.value;
    }
    assert min == Minimum(i, r, q);
    if min == 0 || min > q.out {
      return None;
    }
    var call := Build(sdk, i.buy, r.token.curve, r.amountIn, min, r.wallet);
    var fees := FeesStepwise(i, l, node);
    if call.None? || fees.None? {
      return None;
    }
    o := PriceStepwise(i, r, l, node, q, min, call.value, fees.value);
  }
}
