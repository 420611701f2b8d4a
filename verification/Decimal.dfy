/** Decimal text: the two parsers, the printer, and the numbers between them. */
module Decimal {
  import opened Common

  predicate IsDigit(c: char)
  {
    '0' <= c <= '9'
  }

  predicate Digits(s: string)
  {
    forall i :: 0 <= i < |s| ==> IsDigit(s[i])
  }

  /** The number a digit string denotes; leading zeros are allowed, the empty string is 0. */
  function Val(s: string): nat
    requires Digits(s)
  {
    if s == "" then 0 else Val(s[..|s| - 1]) * 10 + (s[|s| - 1] as nat - '0' as nat)
  }

  function Digit(n: nat): char
    requires n < 10
  {
    '0' + n as char
  }

  /** big.Int.String */
  function Str(n: nat): string
  {
    if n < 10 then [Digit(n)] else Str(n / 10) + [Digit(n % 10)]
  }

  function Zeros(n: nat): string
  {
    seq(n, i => '0')
  }

  /** strings.TrimRight(s, "0") */
  function Trim(s: string): string
  {
    if s != "" && s[|s| - 1] == '0' then Trim(s[..|s| - 1]) else s
  }

  datatype Parts = Parts(whole: string, frac: Option<string>)

  function DotAt(s: string, from: nat): nat
    requires from <= |s|
    ensures from <= DotAt(s, from) <= |s|
    decreases |s| - from
  {
    if from == |s| || s[from] == '.' then from else DotAt(s, from + 1)
  }

  /** strings.Split on the dot, refusing more than two parts. */
  function Split(s: string): Option<Parts>
  {
    var i := DotAt(s, 0);
    if i == |s| then Some(Parts(s, None))
    else
      var frac := s[i + 1..];
      if DotAt(frac, 0) < |frac| then None else Some(Parts(s[..i], Some(frac)))
  }

  function FracOf(p: Parts): string
  {
    if p.frac.Some? then p.frac.value else ""
  }

  predicate WellFormed(p: Parts, precision: nat)
  {
    && p.whole != "" && (|p.whole| > 1 ==> p.whole[0] != '0')
    && (p.frac.Some? ==> p.frac.value != "" && |p.frac.value| <= precision)
    && Digits(p.whole) && Digits(FracOf(p))
  }

  function Canonical(p: Parts): string
  {
    if Trim(FracOf(p)) == "" then p.whole else p.whole + "." + Trim(FracOf(p))
  }

  /** decimal of the request model: canonical text and scaled value. */
  function Parse(value: string, precision: nat, allowZero: bool): Option<(string, nat)>
  {
    if value == "" || |value| > 256 || precision > 255 then None
    else
      match Split(value)
      case None => None
      case Some(p) =>
        if !WellFormed(p, precision) then None
        else
          DigitsScaled(p, precision);
          var units := Val(Scaled(p, precision));
          if !allowZero && units == 0 then None else Some((Canonical(p), units))
  }

  function Scaled(p: Parts, precision: nat): string
    requires |FracOf(p)| <= precision
  {
    p.whole + FracOf(p) + Zeros(precision - |FracOf(p)|)
  }

  lemma DigitsScaled(p: Parts, precision: nat)
    requires WellFormed(p, precision)
    ensures |FracOf(p)| <= precision && Digits(Scaled(p, precision))
  {
  }

  /** human of the chain queries. */
  function Human(s: string, decimals: nat): Option<nat>
  {
    if s == "" || |s| > 256 then None
    else
      match Split(s)
      case None => None
      case Some(p) =>
        if p.whole == "" || (|p.whole| > 1 && p.whole[0] == '0') then None
        else if p.frac.Some? && (p.frac.value == "" || |p.frac.value| > decimals) then None
        else if !Digits(p.whole) || !Digits(FracOf(p)) then None
        else
          DigitsScaled(p, decimals);
          var x := Val(Scaled(p, decimals));
          if x == 0 || x >= UINT256 then None else Some(x)
  }

  /** HumanUnits of the request model. */
  function HumanUnits(s: string, decimals: nat): Option<string>
  {
    match Parse(s, decimals, false)
    case None => None
    case Some(r) => if r.1 >= UINT256 then None else Some(Str(r.1))
  }

  /** Units: exact text of a scaled value. */
  function Units(value: nat, d: nat): string
  {
    if d == 0 then Str(value)
    else
      var text := Padded(value, d);
      var fraction := Trim(text[|text| - d..]);
      if fraction == "" then text[..|text| - d] else text[..|text| - d] + "." + fraction
  }

  function Padded(value: nat, d: nat): (text: string)
    ensures |text| > d
  {
    var text := Str(value);
    if |text| <= d then Zeros(d - |text| + 1) + text else text
  }

  /** canonicalUint: the canonical text of a 256-bit number. */
  function CanonicalUint(s: string, zero: bool): Option<nat>
  {
    if s == "" || !Digits(s) || Str(Val(s)) != s || Val(s) >= UINT256 || (!zero && Val(s) == 0) then None
    else Some(Val(s))
  }

  // ---------------------------------------------------------------------------------------
  // Digit strings

  lemma {:induction false} StrIsCanonical(n: nat)
    ensures Digits(Str(n)) && Val(Str(n)) == n && Str(n) != "" && (n > 0 ==> Str(n)[0] != '0')
            && (n == 0 ==> Str(n) == "0")
  {
    if n >= 10 {
      StrIsCanonical(n / 10);
      assert Str(n)[..|Str(n)| - 1] == Str(n / 10);
    } else {
      assert Str(n)[..0] == "";
    }
  }

  lemma {:induction false} ValAppend(s: string, t: string)
    requires Digits(s) && Digits(t)
    ensures Digits(s + t)
    ensures Val(s) == 0 ==> Val(s + t) == Val(t)
  {
    if t == "" {
      assert s + t == s;
    } else {
      var init := t[..|t| - 1];
      ValAppend(s, init);
      assert (s + t)[..|s + t| - 1] == s + init;
    }
  }

  lemma {:induction false} ValZeros(n: nat)
    ensures Digits(Zeros(n)) && Val(Zeros(n)) == 0
  {
    if n > 0 {
      ValZeros(n - 1);
      assert Zeros(n)[..n - 1] == Zeros(n - 1);
    }
  }

  /** A digit string without a leading zero is the text of its value. */
  lemma {:induction false} StrOfVal(s: string)
    requires Digits(s) && s != "" && (|s| > 1 ==> s[0] != '0')
    ensures Str(Val(s)) == s
  {
    var init, last := s[..|s| - 1], s[|s| - 1];
    if init == "" {
      assert s == [last];
    } else {
      StrOfVal(init);
      PositiveVal(init);
      assert s == init + [last];
    }
  }

  lemma {:induction false} PositiveVal(s: string)
    requires Digits(s) && s != "" && s[0] != '0'
    ensures Val(s) > 0
  {
    if |s| > 1 {
      PositiveVal(s[..|s| - 1]);
    } else {
      assert s[..0] == "";
    }
  }

  /** Any digit string is its value's text with zeros in front. */
  lemma {:induction false} PaddedText(t: string)
    requires Digits(t) && t != "" && Val(t) > 0
    ensures |Str(Val(t))| <= |t| && t == Zeros(|t| - |Str(Val(t))|) + Str(Val(t))
  {
    if t[0] != '0' || |t| == 1 {
      StrOfVal(t);
      assert Zeros(0) == "";
    } else {
      var rest := t[1..];
      assert t == "0" + rest;
      assert "0"[..0] == "" && Val("0") == 0;
      ValAppend("0", rest);
      PaddedText(rest);
      var k := |rest| - |Str(Val(rest))|;
      assert Zeros(k + 1) == "0" + Zeros(k);
    }
  }

  lemma {:induction false} TrimSplits(s: string)
    ensures |Trim(s)| <= |s| && s == Trim(s) + Zeros(|s| - |Trim(s)|)
  {
    if s != "" && s[|s| - 1] == '0' {
      var init := s[..|s| - 1];
      TrimSplits(init);
      var t := Trim(init);
      var k := |init| - |t|;
      assert Zeros(k + 1) == Zeros(k) + "0";
      calc {
        s;
        init + "0";
        t + Zeros(k) + "0";
        t + (Zeros(k) + "0");
      }
    } else {
      assert Zeros(0) == "" && s + "" == s;
    }
  }

  lemma {:induction false} TrimDigits(s: string)
    ensures Digits(s) ==> Digits(Trim(s))
    ensures Trim(s) != "" ==> Trim(s)[|Trim(s)| - 1] != '0'
  {
    if s != "" && s[|s| - 1] == '0' {
      TrimDigits(s[..|s| - 1]);
    }
  }

  lemma {:induction false} TrimZeros(s: string, n: nat)
    ensures Trim(s + Zeros(n)) == Trim(s)
  {
    if n > 0 {
      var t := s + Zeros(n);
      assert t[|t| - 1] == '0' && t[..|t| - 1] == s + Zeros(n - 1);
      TrimZeros(s, n - 1);
    } else {
      assert s + Zeros(0) == s;
    }
  }

  lemma TrimIdempotent(s: string)
    ensures Trim(Trim(s)) == Trim(s)
  {
    TrimDigits(s);
  }

  lemma {:induction false} NoDot(s: string, from: nat)
    requires from <= |s| && forall i :: from <= i < |s| ==> s[i] != '.'
    ensures DotAt(s, from) == |s|
    decreases |s| - from
  {
    if from < |s| {
      NoDot(s, from + 1);
    }
  }

  lemma {:induction false} FirstDot(s: string, from: nat, at: nat)
    requires from <= at < |s| && s[at] == '.' && forall i :: from <= i < at ==> s[i] != '.'
    ensures DotAt(s, from) == at
    decreases at - from
  {
    if from < at {
      FirstDot(s, from + 1, at);
    }
  }

  /** Splitting undoes joining. */
  lemma SplitJoins(whole: string, frac: string)
    requires Digits(whole) && Digits(frac)
    ensures Split(whole) == Some(Parts(whole, None))
    ensures Split(whole + "." + frac) == Some(Parts(whole, Some(frac)))
  {
    NoDot(whole, 0);
    var s := whole + "." + frac;
    assert s[|whole|] == '.';
    FirstDot(s, 0, |whole|);
    assert s[|whole| + 1..] == frac && s[..|whole|] == whole;
    NoDot(frac, 0);
  }

  lemma {:induction false} DotAtFinds(s: string, from: nat)
    requires from <= |s|
    ensures DotAt(s, from) < |s| ==> s[DotAt(s, from)] == '.'
    decreases |s| - from
  {
    if from < |s| && s[from] != '.' {
      DotAtFinds(s, from + 1);
    }
  }

  lemma SplitLength(s: string)
    requires Split(s).Some?
    ensures var p := Split(s).value; s == p.whole + (if p.frac.Some? then "." + p.frac.value else "")
  {
    DotAtFinds(s, 0);
  }

  /** canonicalUint accepts exactly the texts of the numbers in range, each as its own number: text
      and number may stand for one another. */
  lemma CanonicalUintIsExact(s: string, zero: bool, n: nat)
    ensures CanonicalUint(s, zero) == Some(n) <==> s == Str(n) && n < UINT256 && (zero || n > 0)
  {
    StrIsCanonical(n);
  }

  // ---------------------------------------------------------------------------------------
  // The parsers

  /** human and HumanUnits accept the same strings and agree on every value. */
  lemma ParsersAgree(s: string, decimals: nat)
    requires decimals <= 255
    ensures Human(s, decimals).Some? <==> HumanUnits(s, decimals).Some?
    ensures Human(s, decimals).Some? ==> HumanUnits(s, decimals) == Some(Str(Human(s, decimals).value))
  {
    if s != "" && |s| <= 256 && Split(s).Some? {
      var p := Split(s).value;
      assert WellFormed(p, decimals) <==>
             && !(p.whole == "" || (|p.whole| > 1 && p.whole[0] == '0'))
             && !(p.frac.Some? && (p.frac.value == "" || |p.frac.value| > decimals))
             && Digits(p.whole) && Digits(FracOf(p));
    }
  }

  function Trimmed(whole: string, frac: string): Parts
  {
    Parts(whole, if Trim(frac) == "" then None else Some(Trim(frac)))
  }

  function Join(p: Parts): string
  {
    if p.frac.Some? then p.whole + "." + p.frac.value else p.whole
  }

  lemma SplitTrimmed(whole: string, frac: string)
    requires Digits(whole) && Digits(frac)
    ensures Split(Join(Trimmed(whole, frac))) == Some(Trimmed(whole, frac))
  {
    TrimDigits(frac);
    SplitJoins(whole, Trim(frac));
  }

  /** Trailing zeros of the fraction do not change the scaled digits. */
  lemma ScaledTrimmed(whole: string, frac: string, precision: nat)
    requires |frac| <= precision
    ensures |FracOf(Trimmed(whole, frac))| <= precision
    ensures Scaled(Trimmed(whole, frac), precision) == whole + frac + Zeros(precision - |frac|)
  {
    TrimSplits(frac);
    var t := Trim(frac);
    assert Zeros(|frac| - |t|) + Zeros(precision - |frac|) == Zeros(precision - |t|);
    assert whole + frac + Zeros(precision - |frac|) == whole + t + (Zeros(|frac| - |t|) + Zeros(precision - |frac|));
  }

  lemma CanonicalParts(p: Parts, precision: nat)
    requires WellFormed(p, precision)
    ensures var q := Trimmed(p.whole, FracOf(p));
            && WellFormed(q, precision) && Split(Canonical(p)) == Some(q) && Canonical(q) == Canonical(p)
            && |FracOf(p)| <= precision && |FracOf(q)| <= precision && Scaled(q, precision) == Scaled(p, precision)
  {
    TrimSplits(FracOf(p));
    TrimDigits(FracOf(p));
    TrimIdempotent(FracOf(p));
    SplitTrimmed(p.whole, FracOf(p));
    ScaledTrimmed(p.whole, FracOf(p), precision);
  }

  /** Parsing the canonical text gives the same canonical text and the same value. */
  lemma ParseIsIdempotent(value: string, precision: nat, allowZero: bool)
    requires Parse(value, precision, allowZero).Some?
    ensures Parse(Parse(value, precision, allowZero).value.0, precision, allowZero) ==
              Parse(value, precision, allowZero)
    ensures Parse(value, precision, allowZero).value.0 != ""
  {
    var p := Split(value).value;
    SplitLength(value);
    CanonicalParts(p, precision);
    TrimSplits(FracOf(p));
    DigitsScaled(p, precision);
  }

  // ---------------------------------------------------------------------------------------
  // Printer and parser

  function Pow4(n: nat): nat
  {
    if n == 0 then 1 else 4 * Pow4(n - 1)
  }

  lemma {:induction false} StrLength(x: nat, k: nat)
    requires x < Pow4(k) && k > 0
    ensures |Str(x)| <= k
  {
    assert Pow4(1) == 4;
    if x >= 10 {
      StrLength(x / 10, k - 1);
    }
  }

  lemma Regroup(a: int, b: int)
    ensures 4 * (a * b) == (4 * a) * b
  {
  }

  lemma {:induction false} Pow4Adds(m: nat, n: nat)
    ensures Pow4(m + n) == Pow4(m) * Pow4(n)
  {
    if m > 0 {
      Pow4Adds(m - 1, n);
      var rest, power := Pow4(m - 1), Pow4(n);
      assert Pow4(m + n) == 4 * Pow4(m - 1 + n) == 4 * (rest * power);
      Regroup(rest, power);
    }
  }

  lemma Pow4Of128()
    ensures Pow4(128) == UINT256
  {
    assert Pow4(8) == 0x1_0000;
    Pow4Adds(8, 8);
    assert Pow4(16) == 0x1_0000_0000;
    Pow4Adds(16, 16);
    assert Pow4(32) == 0x1_0000_0000_0000_0000;
    Pow4Adds(32, 32);
    Pow4Adds(64, 64);
  }

  lemma PaddedVal(x: nat, d: nat)
    requires x > 0
    ensures Digits(Padded(x, d)) && Val(Padded(x, d)) == x
    ensures Padded(x, d)[0] == '0' ==> |Padded(x, d)| == d + 1
    ensures Padded(x, d)[|Padded(x, d)| - 1] == Digit(x % 10)
  {
    StrIsCanonical(x);
    if |Str(x)| <= d {
      ValZeros(d - |Str(x)| + 1);
      ValAppend(Zeros(d - |Str(x)| + 1), Str(x));
    }
  }

  /** The digits before the point, and after it without trailing zeros. */
  function PartsOf(text: string, d: nat): Parts
    requires d <= |text|
  {
    Trimmed(text[..|text| - d], text[|text| - d..])
  }

  lemma UnitsJoins(x: nat, d: nat)
    ensures Units(x, d) == Join(PartsOf(Padded(x, d), d))
  {
    var text := Padded(x, d);
    if d == 0 {
      assert text[..|text|] == text && text[|text|..] == "";
    }
  }

  lemma PartsAreWellFormed(text: string, d: nat)
    requires d < |text| && Digits(text) && (text[0] == '0' ==> |text| == d + 1)
    ensures WellFormed(PartsOf(text, d), d)
  {
    var whole, rest := text[..|text| - d], text[|text| - d..];
    assert Digits(whole) && Digits(rest) && whole[0] == text[0];
    TrimSplits(rest);
    TrimDigits(rest);
  }

  lemma PartsScale(text: string, d: nat)
    requires d < |text|
    ensures |FracOf(PartsOf(text, d))| <= d && Scaled(PartsOf(text, d), d) == text
  {
    var whole, rest := text[..|text| - d], text[|text| - d..];
    ScaledTrimmed(whole, rest, d);
    assert Zeros(d - |rest|) == "" && whole + rest == text;
  }

  lemma ReadJoined(text: string, d: nat)
    requires d < |text| && Digits(text) && (text[0] == '0' ==> |text| == d + 1) && 0 < Val(text) < UINT256
    ensures Human(Join(PartsOf(text, d)), d) == if |Join(PartsOf(text, d))| <= 256 then Some(Val(text)) else None
  {
    PartsAreWellFormed(text, d);
    PartsScale(text, d);
    SplitTrimmed(text[..|text| - d], text[|text| - d..]);
    assert Join(PartsOf(text, d)) != "";
  }

  lemma UnitsRead(x: nat, d: nat)
    requires 0 < x < UINT256
    ensures Human(Units(x, d), d) == if |Units(x, d)| <= 256 then Some(x) else None
  {
    UnitsJoins(x, d);
    PaddedVal(x, d);
    ReadJoined(Padded(x, d), d);
  }

  /** Length of the printed text: the digits before the point, and the point with the trimmed rest. */
  lemma UnitsLength(x: nat, d: nat)
    ensures var text := Padded(x, d);
            var rest := Trim(text[|text| - d..]);
            |Units(x, d)| == |text| - d + (if rest == "" then 0 else 1 + |rest|) && |rest| <= d
  {
    UnitsJoins(x, d);
    TrimSplits(Padded(x, d)[|Padded(x, d)| - d..]);
  }

  lemma AtMost128Digits(x: nat)
    requires x < UINT256
    ensures |Str(x)| <= 128
  {
    Pow4Of128();
    StrLength(x, 128);
  }

  lemma ShortDecimalsFit(x: nat, d: nat)
    requires 0 < x < UINT256 && d <= 254
    ensures |Units(x, d)| <= 256
  {
    AtMost128Digits(x);
    UnitsLength(x, d);
  }

  lemma FullDecimalsFit(x: nat, d: nat)
    requires 0 < x < UINT256 && d == 255
    ensures |Units(x, d)| <= 256 <==> x % 10 == 0
  {
    AtMost128Digits(x);
    UnitsLength(x, d);
    PaddedVal(x, d);
    var text := Padded(x, d);
    var rest := text[1..];
    assert |text| == 256 && rest[|rest| - 1] == Digit(x % 10);
    TrimWhole(rest);
  }

  lemma UnitsFit(x: nat, d: nat)
    requires 0 < x < UINT256 && d <= 255
    ensures |Units(x, d)| <= 256 <==> d <= 254 || x % 10 == 0
  {
    if d <= 254 {
      ShortDecimalsFit(x, d);
    } else {
      FullDecimalsFit(x, d);
    }
  }

  /** Nothing is trimmed exactly when there is no trailing zero. */
  lemma TrimWhole(s: string)
    requires s != ""
    ensures |Trim(s)| == |s| <==> s[|s| - 1] != '0'
  {
    TrimSplits(s);
    TrimSplits(s[..|s| - 1]);
  }

  /** Printing a positive 256-bit value and reading it back gives the value, for every number of
      decimals, if and only if the text is not too long to read: always up to 254 decimals, and
      at 255 exactly when the last digit is zero. */
  lemma PrintedValueReadsBack(x: nat, d: nat)
    requires 0 < x < UINT256 && d <= 255
    ensures Human(Units(x, d), d) == Some(x) <==> d <= 254 || x % 10 == 0
  {
    UnitsRead(x, d);
    UnitsFit(x, d);
  }

  /** Printing an accepted string's value gives its canonical text. */
  lemma ReadTextPrintsBack(value: string, d: nat)
    requires Parse(value, d, false).Some?
    ensures Units(Parse(value, d, false).value.1, d) == Parse(value, d, false).value.0
  {
    var p := Split(value).value;
    DigitsScaled(p, d);
    var t := Scaled(p, d);
    var x := Val(t);
    ScaledIsPadded(p, d, x);
    UnitsJoins(x, d);
    ScaledParts(p, d);
  }

  lemma ScaledParts(p: Parts, d: nat)
    requires |FracOf(p)| <= d
    ensures d <= |Scaled(p, d)| && Join(PartsOf(Scaled(p, d), d)) == Canonical(p)
  {
    var f := FracOf(p);
    var padded := f + Zeros(d - |f|);
    assert Scaled(p, d) == p.whole + padded && |padded| == d;
    assert (p.whole + padded)[..|p.whole|] == p.whole && (p.whole + padded)[|p.whole|..] == padded;
    TrimZeros(f, d - |f|);
  }

  lemma ScaledIsPadded(p: Parts, d: nat, x: nat)
    requires WellFormed(p, d) && |FracOf(p)| <= d && Digits(Scaled(p, d)) && x == Val(Scaled(p, d)) > 0
    ensures Padded(x, d) == Scaled(p, d)
  {
    var t := Scaled(p, d);
    PaddedText(t);
    StrIsCanonical(x);
    var k := |t| - |Str(x)|;
    if k > 0 {
      assert t[0] == Zeros(k)[0] == '0';
      assert p.whole[0] == t[0];
      assert |p.whole| == 1;
    } else {
      assert Zeros(0) + Str(x) == Str(x);
    }
  }
}
