/** Manual trade requests: normalisation and the API policy. */
module Requests {
  import opened Common
  import opened Decimal

  datatype Fee = Fee(maxGwei: string, tipGwei: string, maxTotalNative: string)

  /** Optional text is empty when unset. */
  datatype Request = Request(chain: string, wallet: string, token: string, side: string, amount: string,
                             sellPercent: string, slippagePercent: string, fee: Option<Fee>, ttlSeconds: Option<nat>,
                             minReceive: string)

  predicate IdChar(c: char)
  {
    'a' <= c <= 'z' || 'A' <= c <= 'Z' || '0' <= c <= '9' || c in "._:-"
  }

  predicate ValidId(s: string)
  {
    0 < |s| <= 128 && forall i :: 0 <= i < |s| ==> IdChar(s[i])
  }

  predicate HexChar(c: char)
  {
    '0' <= c <= '9' || 'a' <= c <= 'f' || 'A' <= c <= 'F'
  }

  predicate ValidToken(s: string)
  {
    && |s| == 42 && s[..2] == "0x" && (forall i :: 2 <= i < 42 ==> HexChar(s[i]))
    && exists i :: 2 <= i < 42 && s[i] != '0'
  }

  function LowerChar(c: char): char
  {
    if 'A' <= c <= 'F' then 'a' + (c - 'A') else c
  }

  function Lower(s: string): string
  {
    seq(|s|, i requires 0 <= i < |s| => LowerChar(s[i]))
  }

  /** Optional text, parsed when set. */
  function Field(s: string, precision: nat, allowZero: bool): Option<string>
  {
    if s == "" then Some("") else
      match Parse(s, precision, allowZero)
      case None => None
      case Some(r) => Some(r.0)
  }

  /** The scaled value of optional text. */
  function Scale(s: string, precision: nat, allowZero: bool): nat
  {
    match Parse(s, precision, allowZero)
    case None => 0
    case Some(r) => r.1
  }

  function NormalizeFee(f: Fee): Option<Fee>
  {
    var max := Field(f.maxGwei, 9, false);
    var tip := Field(f.tipGwei, 9, true);
    var total := Field(f.maxTotalNative, 18, false);
    if f.maxGwei == "" && f.tipGwei == "" && f.maxTotalNative == "" then None
    else if max.None? || Scale(f.maxGwei, 9, false) >= UINT256 then None
    else if tip.None? then None
    else if f.tipGwei != "" && (f.maxGwei == "" || Scale(f.tipGwei, 9, true) > Scale(f.maxGwei, 9, false)) then None
    else if total.None? || (f.maxTotalNative != "" && HumanUnits(total.value, 18).None?) then None
    else Some(Fee(max.value, tip.value, total.value))
  }

  /** normalize: syntax and unit rules only. */
  function Normalize(r: Request): Option<Request>
  {
    if !ValidId(r.chain) || !ValidId(r.wallet) || !ValidToken(r.token) || (r.side != "buy" && r.side != "sell") then
      None
    else if (r.amount == "") == (r.sellPercent == "") || (r.side == "buy" && r.sellPercent != "") then None
    else
      var buy := r.side == "buy";
      var amount := Field(r.amount, if buy then 18 else 255, false);
      var percent := Field(r.sellPercent, 2, false);
      var slippage := Parse(r.slippagePercent, 2, true);
      var floor := Field(r.minReceive, if buy then 255 else 18, false);
      if amount.None? || (r.amount != "" && buy && HumanUnits(amount.value, 18).None?) then None
      else if percent.None? || Scale(r.sellPercent, 2, false) > 10000 then None
      else if slippage.None? || slippage.value.1 >= 10000 then None
      else if r.ttlSeconds.Some? && (r.ttlSeconds.value == 0 || r.ttlSeconds.value > 86400) then None
      else if floor.None? then None
      else if r.fee.Some? && NormalizeFee(r.fee.value).None? then None
      else Some(r.(token := Lower(r.token), amount := amount.value, sellPercent := percent.value,
                   slippagePercent := slippage.value.0,
                   minReceive := floor.value, fee := if r.fee.Some? then NormalizeFee(r.fee.value) else None))
  }

  lemma FieldIsIdempotent(s: string, precision: nat, allowZero: bool)
    requires Field(s, precision, allowZero).Some?
    ensures var c := Field(s, precision, allowZero).value;
            && Field(c, precision, allowZero) == Some(c) && (c == "" <==> s == "")
            && Scale(c, precision, allowZero) == Scale(s, precision, allowZero)
  {
    if s != "" {
      ParseIsIdempotent(s, precision, allowZero);
    }
  }

  lemma LowerTokenIsValid(s: string)
    requires ValidToken(s)
    ensures ValidToken(Lower(s)) && Lower(Lower(s)) == Lower(s)
  {
    var t := Lower(s);
    var i :| 2 <= i < 42 && s[i] != '0';
    assert t[..2] == s[..2];
    assert t[i] != '0';
  }

  lemma NormalizeFeeIsIdempotent(f: Fee)
    requires NormalizeFee(f).Some?
    ensures NormalizeFee(NormalizeFee(f).value) == NormalizeFee(f)
  {
    FieldIsIdempotent(f.maxGwei, 9, false);
    FieldIsIdempotent(f.tipGwei, 9, true);
    FieldIsIdempotent(f.maxTotalNative, 18, false);
  }

  /** A normalised request normalises to itself, so every stored request re-reads as itself. */
  lemma NormalizeIsIdempotent(r: Request)
    requires Normalize(r).Some?
    ensures Normalize(Normalize(r).value) == Normalize(r)
  {
    var buy := r.side == "buy";
    LowerTokenIsValid(r.token);
    FieldIsIdempotent(r.amount, if buy then 18 else 255, false);
    FieldIsIdempotent(r.sellPercent, 2, false);
    ParseIsIdempotent(r.slippagePercent, 2, true);
    FieldIsIdempotent(r.minReceive, if buy then 255 else 18, false);
    if r.fee.Some? {
      NormalizeFeeIsIdempotent(r.fee.value);
    }
  }

  /** What a normalised request satisfies: exactly one of amount and percentage, a percentage only when
      selling, slippage below and percentage up to 100%, a tip only within a fee cap, and a positive
      buy amount that fits 256 bits. */
  lemma NormalizedIsBounded(r: Request)
    requires Normalize(r).Some?
    ensures var n := Normalize(r).value;
            && (n.amount == "") != (n.sellPercent == "") && (n.side == "buy" ==> n.sellPercent == "")
            && Parse(n.slippagePercent, 2, true).Some? && Scale(n.slippagePercent, 2, true) < 10000
            && (n.sellPercent != "" ==> 0 < Scale(n.sellPercent, 2, false) <= 10000)
            && (n.side == "buy" ==> Human(n.amount, 18).Some?)
            && (n.ttlSeconds.Some? ==> 0 < n.ttlSeconds.value <= 86400)
            && (n.fee.Some? && n.fee.value.tipGwei != "" ==>
                  n.fee.value.maxGwei != ""
                  && Scale(n.fee.value.tipGwei, 9, true) <= Scale(n.fee.value.maxGwei, 9, false))
  {
    var buy := r.side == "buy";
    FieldIsIdempotent(r.amount, if buy then 18 else 255, false);
    FieldIsIdempotent(r.sellPercent, 2, false);
    ParseIsIdempotent(r.slippagePercent, 2, true);
    ParsersAgree(Normalize(r).value.amount, 18);
    if r.fee.Some? {
      FieldIsIdempotent(r.fee.value.maxGwei, 9, false);
      FieldIsIdempotent(r.fee.value.tipGwei, 9, true);
    }
  }

  /** Both are unset, or both denote the same number of units. */
  predicate SameNumber(s: string, t: string, precision: nat)
  {
    if s == "" || t == "" then s == t
    else Parse(s, precision, true).Some? && Scale(s, precision, true) == Scale(t, precision, true)
  }

  lemma FieldKeepsNumber(s: string, precision: nat, allowZero: bool)
    requires Field(s, precision, allowZero).Some?
    ensures SameNumber(Field(s, precision, allowZero).value, s, precision)
  {
    if s != "" {
      ParseIsIdempotent(s, precision, allowZero);
    }
  }

  /** Normalisation changes how a request is written and nothing of what it asks for. */
  lemma NormalizeKeepsNumbers(r: Request)
    requires Normalize(r).Some?
    ensures var n, buy := Normalize(r).value, r.side == "buy";
            && n.chain == r.chain && n.wallet == r.wallet && n.side == r.side && n.ttlSeconds == r.ttlSeconds
            && |n.token| == |r.token| && (n.fee.Some? <==> r.fee.Some?)
            && SameNumber(n.amount, r.amount, if buy then 18 else 255)
            && SameNumber(n.minReceive, r.minReceive, if buy then 255 else 18)
            && SameNumber(n.sellPercent, r.sellPercent, 2) && SameNumber(n.slippagePercent, r.slippagePercent, 2)
            && (r.fee.Some? ==>
                  && SameNumber(n.fee.value.maxGwei, r.fee.value.maxGwei, 9)
                  && SameNumber(n.fee.value.tipGwei, r.fee.value.tipGwei, 9)
                  && SameNumber(n.fee.value.maxTotalNative, r.fee.value.maxTotalNative, 18))
  {
    var buy := r.side == "buy";
    LowerTokenIsValid(r.token);
    FieldKeepsNumber(r.amount, if buy then 18 else 255, false);
    FieldKeepsNumber(r.sellPercent, 2, false);
    FieldKeepsNumber(r.slippagePercent, 2, true);
    FieldKeepsNumber(r.minReceive, if buy then 255 else 18, false);
    if r.fee.Some? {
      FieldKeepsNumber(r.fee.value.maxGwei, 9, false);
      FieldKeepsNumber(r.fee.value.tipGwei, 9, true);
      FieldKeepsNumber(r.fee.value.maxTotalNative, 18, false);
    }
  }

  datatype Policy = Policy(defaultTtl: nat, maxTtl: nat, maxSlippageBps: nat, maxFeeGwei: string)

  predicate ValidPolicy(p: Policy)
  {
    && 0 < p.defaultTtl <= p.maxTtl <= 86400 && p.maxSlippageBps < 10000
    && Parse(p.maxFeeGwei, 9, false).Some? && Scale(p.maxFeeGwei, 9, false) < UINT256
  }

  /** Policy.apply: the time to live it grants, or None. */
  function Apply(p: Policy, r: Request): Option<nat>
  {
    var ttl := if r.ttlSeconds.Some? then r.ttlSeconds.value else p.defaultTtl;
    if r.chain != "robinhood" || Scale(r.slippagePercent, 2, true) > p.maxSlippageBps || ttl > p.maxTtl then None
    else if r.fee.Some? && r.fee.value.maxGwei != ""
            && Scale(r.fee.value.maxGwei, 9, false) > Scale(p.maxFeeGwei, 9, false) then None
    else Some(ttl)
  }

  /** The policy's verdict does not depend on whether a request was already normalised, and a granted
      time to live is positive and within the policy. */
  lemma ApplySeesThroughNormalize(p: Policy, r: Request)
    requires ValidPolicy(p) && Normalize(r).Some?
    ensures Apply(p, Normalize(r).value) == Apply(p, r)
    ensures Apply(p, r).Some? ==> 0 < Apply(p, r).value <= p.maxTtl
  {
    ParseIsIdempotent(r.slippagePercent, 2, true);
    if r.fee.Some? {
      FieldIsIdempotent(r.fee.value.maxGwei, 9, false);
    }
  }

  // ---------------------------------------------------------------------------------------
  // Exactly which requests are accepted

  const UPPER := "ABCDEFGHIJKLMNOPQRSTUVWXYZ"
  const LOWER := "abcdefghijklmnopqrstuvwxyz"
  const DIGITS := "0123456789"

  const NAME_CHARS := UPPER + LOWER + DIGITS + "._:-"

  const HEX_CHARS := DIGITS + "abcdefABCDEF"

  predicate WrittenIn(s: string, chars: string)
  {
    forall i :: 0 <= i < |s| ==> s[i] in chars
  }

  predicate IsName(s: string)
  {
    1 <= |s| <= 128 && WrittenIn(s, NAME_CHARS)
  }

  /** Forty hexadecimal digits after 0x, not all of them zero. */
  predicate IsAddress(s: string)
  {
    |s| == 42 && s[0] == '0' && s[1] == 'x' && WrittenIn(s[2..], HEX_CHARS) && !WrittenIn(s[2..], "0")
  }

  /** Decimal text of at most `precision` places for a number of units in [from, to). */
  predicate IsNumber(s: string, precision: nat, from: nat, to: Option<nat>)
  {
    && Parse(s, precision, true).Some?
    && from <= Scale(s, precision, true) && (to.Some? ==> Scale(s, precision, true) < to.value)
  }

  predicate IsUnsetOr(s: string, precision: nat, from: nat, to: Option<nat>)
  {
    s == "" || IsNumber(s, precision, from, to)
  }

  predicate IsFee(f: Fee)
  {
    && f != Fee("", "", "")
    && IsUnsetOr(f.maxGwei, 9, 1, Some(UINT256)) && IsUnsetOr(f.maxTotalNative, 18, 1, Some(UINT256))
    && (f.tipGwei != "" ==>
          && f.maxGwei != "" && IsNumber(f.tipGwei, 9, 0, None)
          && Scale(f.tipGwei, 9, true) <= Scale(f.maxGwei, 9, true))
  }

  /** The size of the trade: an amount of native units to buy for, or of tokens or percent to sell. */
  predicate IsSize(r: Request)
  {
    if r.side == "buy" then r.sellPercent == "" && IsNumber(r.amount, 18, 1, Some(UINT256))
    else if r.sellPercent == "" then IsNumber(r.amount, 255, 1, None)
    else r.amount == "" && IsNumber(r.sellPercent, 2, 1, Some(10001))
  }

  predicate IsRequest(r: Request)
  {
    && IsName(r.chain) && IsName(r.wallet) && IsAddress(r.token) && (r.side == "buy" || r.side == "sell")
    && IsSize(r) && IsNumber(r.slippagePercent, 2, 0, Some(10000))
    && IsUnsetOr(r.minReceive, if r.side == "buy" then 255 else 18, 1, None)
    && (r.ttlSeconds.Some? ==> 1 <= r.ttlSeconds.value <= 86400)
    && (r.fee.Some? ==> IsFee(r.fee.value))
  }

  lemma UpperIs(c: char)
    ensures c in UPPER <==> 'A' <= c <= 'Z'
  {
    if 'A' <= c <= 'Z' {
      assert UPPER[c as int - 'A' as int] == c;
    }
  }

  lemma LowerIs(c: char)
    ensures c in LOWER <==> 'a' <= c <= 'z'
  {
    if 'a' <= c <= 'z' {
      assert LOWER[c as int - 'a' as int] == c;
    }
  }

  lemma DigitsAre(c: char)
    ensures c in DIGITS <==> '0' <= c <= '9'
  {
    if '0' <= c <= '9' {
      assert DIGITS[c as int - '0' as int] == c;
    }
  }

  lemma LettersAre(c: char)
    ensures c in "abcdefABCDEF" <==> 'a' <= c <= 'f' || 'A' <= c <= 'F'
  {
  }

  lemma CharsAre(c: char)
    ensures IdChar(c) <==> c in NAME_CHARS
    ensures HexChar(c) <==> c in HEX_CHARS
  {
    UpperIs(c);
    LowerIs(c);
    DigitsAre(c);
    LettersAre(c);
  }

  lemma NamesAre(s: string)
    ensures ValidId(s) <==> IsName(s)
  {
    forall c: char ensures IdChar(c) <==> c in NAME_CHARS {
      CharsAre(c);
    }
  }

  lemma AddressesAre(s: string)
    ensures ValidToken(s) <==> IsAddress(s)
  {
    forall c: char ensures HexChar(c) <==> c in HEX_CHARS {
      CharsAre(c);
    }
    if |s| == 42 {
      assert s[..2] == [s[0], s[1]];
      var rest := s[2..];
      assert forall i :: 2 <= i < 42 ==> s[i] == rest[i - 2];
      assert forall i :: 0 <= i < 40 ==> rest[i] == s[i + 2];
    }
  }

  lemma NumbersAre(s: string, precision: nat)
    ensures Parse(s, precision, false).Some? <==> IsNumber(s, precision, 1, None)
    ensures Parse(s, precision, false).Some? ==> Scale(s, precision, false) == Scale(s, precision, true)
  {
  }

  lemma UnitsAre(s: string, precision: nat)
    requires Parse(s, precision, false).Some?
    ensures HumanUnits(Parse(s, precision, false).value.0, precision).Some? <==>
              IsNumber(s, precision, 1, Some(UINT256))
  {
    ParseIsIdempotent(s, precision, false);
  }

  lemma FeesAre(f: Fee)
    ensures NormalizeFee(f).Some? <==> IsFee(f)
  {
    NumbersAre(f.maxGwei, 9);
    NumbersAre(f.maxTotalNative, 18);
    if Parse(f.maxTotalNative, 18, false).Some? {
      UnitsAre(f.maxTotalNative, 18);
    }
  }

  lemma SizesAre(r: Request)
    requires r.side == "buy" || r.side == "sell"
    ensures IsSize(r) <==>
              && (r.amount == "") != (r.sellPercent == "") && !(r.side == "buy" && r.sellPercent != "")
              && (r.amount != "" ==> Parse(r.amount, if r.side == "buy" then 18 else 255, false).Some?)
              && (r.amount != "" && r.side == "buy" ==>
                    HumanUnits(Parse(r.amount, 18, false).value.0, 18).Some?)
              && (r.sellPercent != "" ==>
                    Parse(r.sellPercent, 2, false).Some? && Scale(r.sellPercent, 2, false) <= 10000)
  {
    NumbersAre(r.amount, if r.side == "buy" then 18 else 255);
    NumbersAre(r.sellPercent, 2);
    if r.side == "buy" && Parse(r.amount, 18, false).Some? {
      UnitsAre(r.amount, 18);
    }
  }

  lemma FloorsAre(s: string, precision: nat)
    ensures Field(s, precision, false).Some? <==> IsUnsetOr(s, precision, 1, None)
  {
    NumbersAre(s, precision);
  }

  /** The texts that are not part of the size. */
  predicate RestParses(r: Request)
  {
    && Parse(r.slippagePercent, 2, true).Some? && Scale(r.slippagePercent, 2, true) < 10000
    && (r.ttlSeconds.Some? ==> r.ttlSeconds.value != 0 && r.ttlSeconds.value <= 86400)
    && Field(r.minReceive, if r.side == "buy" then 255 else 18, false).Some?
    && (r.fee.Some? ==> NormalizeFee(r.fee.value).Some?)
  }

  lemma NormalizeParses(r: Request)
    requires (r.side == "buy" || r.side == "sell") && ValidId(r.chain) && ValidId(r.wallet) && ValidToken(r.token)
    ensures Normalize(r).Some? <==> IsSize(r) && RestParses(r)
  {
    SizesAre(r);
  }

  /** Normalisation accepts exactly the well-formed requests. */
  lemma NormalizesExactlyWhen(r: Request)
    ensures Normalize(r).Some? <==> IsRequest(r)
  {
    NamesAre(r.chain);
    NamesAre(r.wallet);
    AddressesAre(r.token);
    if (r.side == "buy" || r.side == "sell") && ValidId(r.chain) && ValidId(r.wallet) && ValidToken(r.token) {
      NormalizeParses(r);
      FloorsAre(r.minReceive, if r.side == "buy" then 255 else 18);
      if r.fee.Some? {
        FeesAre(r.fee.value);
      }
    }
  }

  /** A token's address is written in lower case afterwards, and is otherwise what it was. */
  lemma TokenIsLowered(r: Request, i: nat)
    requires Normalize(r).Some? && i < |r.token|
    ensures var c, c' := r.token[i], Normalize(r).value.token[i];
            && !('A' <= c' <= 'F') && (!('A' <= c <= 'F') ==> c' == c)
            && ('A' <= c <= 'F' ==> c' as int - 'a' as int == c as int - 'A' as int)
  {
    assert Normalize(r).value.token == Lower(r.token);
  }

  /** The policy grants a time to live exactly to requests for its chain within its slippage and fee
      limits, and then the one asked for or, if none was, its default. */
  lemma AppliesExactlyWhen(p: Policy, r: Request, ttl: nat)
    requires ValidPolicy(p) && Normalize(r).Some?
    ensures Apply(p, r) == Some(ttl) <==>
              && r.chain == "robinhood" && IsNumber(r.slippagePercent, 2, 0, Some(p.maxSlippageBps + 1))
              && (r.ttlSeconds == Some(ttl) || (r.ttlSeconds == None && ttl == p.defaultTtl)) && ttl <= p.maxTtl
              && (r.fee.Some? && r.fee.value.maxGwei != "" ==>
                    Scale(r.fee.value.maxGwei, 9, true) <= Scale(p.maxFeeGwei, 9, true))
  {
    NumbersAre(p.maxFeeGwei, 9);
    if r.fee.Some? {
      NumbersAre(r.fee.value.maxGwei, 9);
    }
  }
}
