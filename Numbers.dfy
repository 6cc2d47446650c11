/** The integer helpers of .NET that the modelled code relies on:
    `Math.Clamp`, unchecked 32-bit addition, `Int32.ToString()` of a
    non-negative value and `Int32.Parse` / `Int32.TryParse` with the default
    number style (surrounding white space, one optional sign, decimal
    digits, a value inside the 32-bit range). */
module Numbers {
  import opened Outcomes

  const Int32Min: int := -0x8000_0000
  const Int32Max: int := 0x7FFF_FFFF

  predicate IsInt32(v: int) { Int32Min <= v <= Int32Max }

  /** `Math.Clamp(value, lo, hi)`: the value of [lo, hi] nearest to `value`. */
  function Clamp(value: int, lo: int, hi: int): (r: int)
    requires lo <= hi
    ensures lo <= r <= hi
    ensures forall w :: lo <= w <= hi ==> Dist(r, value) <= Dist(w, value)
  {
    if value < lo then lo else if value > hi then hi else value
  }

  function Dist(a: int, b: int): nat { if a < b then b - a else a - b }

  /** A value already in range is kept, so clamping is idempotent. */
  lemma {:induction false} ClampKeepsInRange(value: int, lo: int, hi: int)
    requires lo <= hi
    ensures lo <= value <= hi <==> Clamp(value, lo, hi) == value
    ensures Clamp(Clamp(value, lo, hi), lo, hi) == Clamp(value, lo, hi)
  {
    var r := Clamp(value, lo, hi);
    if lo <= value <= hi {
      assert Dist(r, value) <= Dist(value, value);
    }
  }

  /** C# unchecked `int` addition of two 32-bit values: the sum wraps around. */
  function AddInt32(a: int, b: int): (r: int)
    requires IsInt32(a) && IsInt32(b)
    ensures IsInt32(r)
    ensures (r - (a + b)) % 0x1_0000_0000 == 0
    ensures IsInt32(a + b) ==> r == a + b
  {
    var s := a + b;
    if s > Int32Max then s - 0x1_0000_0000
    else if s < Int32Min then s + 0x1_0000_0000
    else s
  }

  predicate IsDigit(c: char) { '0' <= c <= '9' }

  predicate AllDigits(s: string) { forall i :: 0 <= i < |s| ==> IsDigit(s[i]) }

  function DigitChar(d: nat): char
    requires d < 10
  {
    ('0' as int + d) as char
  }

  /** Value of a string of decimal digits, most significant first. */
  function DigitsValue(s: string): nat
    requires AllDigits(s)
    decreases |s|
  {
    if |s| == 0 then 0
    else DigitsValue(s[..|s| - 1]) * 10 + (s[|s| - 1] as int - '0' as int)
  }

  /** `n.ToString()` for a non-negative `n`: decimal digits, no sign, no
      leading zero. */
  function DecimalString(n: nat): (r: string)
    ensures |r| >= 1 && AllDigits(r)
    decreases n
  {
    if n < 10 then [DigitChar(n)] else DecimalString(n / 10) + [DigitChar(n % 10)]
  }

  /** The digits `ToString` prints read back as the number. */
  lemma {:induction false} DecimalStringValue(n: nat)
    ensures DigitsValue(DecimalString(n)) == n
    decreases n
  {
    if n >= 10 {
      DecimalStringValue(n / 10);
      var r := DecimalString(n);
      assert r[..|r| - 1] == DecimalString(n / 10);
    }
  }

  /** Different numbers print differently. */
  lemma {:induction false} DecimalStringInjective(a: nat, b: nat)
    requires DecimalString(a) == DecimalString(b)
    ensures a == b
  {
    DecimalStringValue(a);
    DecimalStringValue(b);
  }

  predicate IsWhite(c: char) { c == ' ' || '\t' <= c <= '\r' }

  function TrimStart(s: string): (r: string)
    ensures |r| <= |s|
    decreases |s|
  {
    if |s| > 0 && IsWhite(s[0]) then TrimStart(s[1..]) else s
  }

  function TrimEnd(s: string): (r: string)
    ensures |r| <= |s|
    decreases |s|
  {
    if |s| > 0 && IsWhite(s[|s| - 1]) then TrimEnd(s[..|s| - 1]) else s
  }

  /** `Int32.Parse` with the default style: `None` where .NET throws a
      FormatException or an OverflowException. */
  function ParseInt32(s: string): (r: Option<int>)
    ensures r.Some? ==> IsInt32(r.value)
  {
    var t := TrimEnd(TrimStart(s));
    if |t| == 0 then None
    else
      var signed := t[0] == '-' || t[0] == '+';
      var digits := if signed then t[1..] else t;
      if |digits| == 0 || !AllDigits(digits) then None
      else
        var v: int := if t[0] == '-' then 0 - (DigitsValue(digits) as int) else DigitsValue(digits);
        if IsInt32(v) then Some(v) else None
  }

  /** `Int32.TryParse(s, out v)` where only `v` is used: 0 on failure. */
  function TryParseInt32(s: string): (r: int)
    ensures IsInt32(r)
  {
    match ParseInt32(s)
    case Some(v) => v
    case None => 0
  }

  /** Parsing reads back what `ToString` printed. */
  lemma {:induction false} ParsePrinted(n: nat)
    requires n <= Int32Max
    ensures ParseInt32(DecimalString(n)) == Some(n)
  {
    var d := DecimalString(n);
    DecimalStringValue(n);
    assert !IsWhite(d[0]) && !IsWhite(d[|d| - 1]);
    assert TrimStart(d) == d;
    assert TrimEnd(d) == d;
    assert d[0] != '-' && d[0] != '+';
  }

  /** A string with no digit at all never parses. */
  lemma {:induction false} ParseNeedsDigits(s: string)
    requires forall i :: 0 <= i < |s| ==> !IsDigit(s[i])
    ensures ParseInt32(s) == None
  {
    var t := TrimEnd(TrimStart(s));
    TrimSubstring(s);
    if |t| > 0 {
      var signed := t[0] == '-' || t[0] == '+';
      var digits := if signed then t[1..] else t;
      if |digits| > 0 {
        assert digits[0] in t;
        assert !IsDigit(digits[0]);
      }
    }
  }

  lemma {:induction false} TrimSubstring(s: string)
    ensures forall c :: c in TrimEnd(TrimStart(s)) ==> c in s
  {
    TrimStartSub(s);
    TrimEndSub(TrimStart(s));
  }

  lemma {:induction false} TrimStartSub(s: string)
    ensures forall c :: c in TrimStart(s) ==> c in s
    decreases |s|
  {
    if |s| > 0 && IsWhite(s[0]) {
      TrimStartSub(s[1..]);
    }
  }

  lemma {:induction false} TrimEndSub(s: string)
    ensures forall c :: c in TrimEnd(s) ==> c in s
    decreases |s|
  {
    if |s| > 0 && IsWhite(s[|s| - 1]) {
      TrimEndSub(s[..|s| - 1]);
    }
  }
}
