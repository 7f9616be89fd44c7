/** Decimal text: how integers are printed, and which texts are read back as integers. */
module Decimal {
  import opened Bytes

  const ZERO: byte := 48   // b'0'
  const MINUS: byte := 45  // b'-'

  predicate IsDigit(c: byte)
  {
    ZERO <= c <= ZERO + 9
  }

  predicate AllDigits(s: seq<byte>)
  {
    forall i :: 0 <= i < |s| ==> IsDigit(s[i])
  }

  /** The number a run of digits denotes, leading zeros allowed. */
  function NumValue(s: seq<byte>): nat
    requires AllDigits(s)
  {
    if |s| == 0 then 0 else 10 * NumValue(s[..|s| - 1]) + (s[|s| - 1] - ZERO)
  }

  /** What `write!("{}", n)` prints for an unsigned number. */
  function Digits(n: nat): (s: seq<byte>)
    ensures |s| > 0 && AllDigits(s)
  {
    if n < 10 then [ZERO + n] else Digits(n / 10) + [ZERO + n % 10]
  }

  /** What printing a signed number gives. */
  function Text(v: int): (s: seq<byte>)
    ensures |s| > 0
  {
    if v < 0 then [MINUS] + Digits(-v) else Digits(v)
  }

  /** Digits with no superfluous leading zero. */
  predicate CanonicalDigits(s: seq<byte>)
  {
    |s| > 0 && AllDigits(s) && (s[0] == ZERO ==> |s| == 1)
  }

  lemma {:induction false} DigitsValue(n: nat)
    ensures NumValue(Digits(n)) == n
    ensures CanonicalDigits(Digits(n))
    ensures Digits(n)[0] == ZERO <==> n == 0
  {
    if n < 10 {
    } else {
      DigitsValue(n / 10);
      assert Digits(n)[..|Digits(n)| - 1] == Digits(n / 10);
    }
  }

  lemma {:induction false} ValueDigits(s: seq<byte>)
    requires CanonicalDigits(s)
    ensures Digits(NumValue(s)) == s
  {
    var init := s[..|s| - 1];
    assert s == init + [s[|s| - 1]];
    if |s| <= 1 {
    } else {
      ValueDigits(init);
      var n, d := NumValue(init), s[|s| - 1] - ZERO;
      assert n != 0 by { DigitsValue(n); }
      assert NumValue(s) == 10 * n + d && 0 <= d < 10;
      assert Digits(10 * n + d) == Digits(n) + [ZERO + d];
    }
  }

  /** Reading more digits never makes the number smaller. */
  lemma {:induction false} NumValueGrows(s: seq<byte>, k: nat)
    requires AllDigits(s) && k <= |s|
    ensures NumValue(s[..k]) <= NumValue(s)
  {
    if k == |s| {
      assert s[..k] == s;
    } else {
      NumValueGrows(s[..|s| - 1], k);
      assert s[..|s| - 1][..k] == s[..k];
    }
  }

  /** A number with at least k decimal digits is printed with at least k bytes. */
  lemma {:induction false} DigitsLength(n: nat, k: nat)
    requires 0 < k && n >= Pow10(k - 1)
    ensures |Digits(n)| >= k
  {
    if k <= 1 {
    } else {
      DigitsLength(n / 10, k - 1);
    }
  }

  function Pow10(n: nat): (p: nat)
    ensures p >= 1 && (n >= 1 ==> p >= 10)
  {
    if n == 0 then 1 else 10 * Pow10(n - 1)
  }

  // ---- strict_parse_i64 ----

  /** The 64-bit integer whose canonical text is s, if there is one. */
  function StrictParse(s: seq<byte>): Option<int>
  {
    if CanonicalDigits(s) then
      var v := NumValue(s);
      if v <= I64_MAX then Some(v) else None
    else if |s| > 1 && s[0] == MINUS && CanonicalDigits(s[1..]) && s[1] != ZERO then
      var v := 0 - NumValue(s[1..]);
      if v >= I64_MIN then Some(v) else None
    else None
  }

  lemma StrictParseSound(s: seq<byte>, v: int)
    requires StrictParse(s) == Some(v)
    ensures I64_MIN <= v <= I64_MAX && Text(v) == s
  {
    if CanonicalDigits(s) {
      ValueDigits(s);
    } else {
      ValueDigits(s[1..]);
      DigitsValue(NumValue(s[1..]));
      assert s == [MINUS] + s[1..];
    }
  }

  lemma StrictParseComplete(v: int)
    requires I64_MIN <= v <= I64_MAX
    ensures StrictParse(Text(v)) == Some(v)
  {
    if v >= 0 {
      DigitsValue(v);
    } else {
      DigitsValue(-v);
      assert Text(v)[1..] == Digits(-v);
    }
  }

  /** A text parses to v exactly when it is what printing the 64-bit integer v gives:
      this covers i64::MIN and excludes "-0", signs without digits and leading zeros. */
  lemma StrictParseIffText(s: seq<byte>, v: int)
    ensures StrictParse(s) == Some(v) <==> I64_MIN <= v <= I64_MAX && Text(v) == s
  {
    if StrictParse(s) == Some(v) {
      StrictParseSound(s, v);
    }
    if I64_MIN <= v <= I64_MAX && Text(v) == s {
      StrictParseComplete(v);
    }
  }

  /** A big-endian number below 2^56 starts with a zero byte, so it is never taken for text. */
  lemma SmallIdNotText(v: nat)
    requires v < 0x100_0000_0000_0000
    ensures StrictParse(BeBytes(8, v)) == None
  {
    Pow256Values();
    BeLeadingZero(8, v);
  }

  lemma NumValueStep(digits: seq<byte>, k: nat)
    requires k < |digits| && AllDigits(digits[..k]) && IsDigit(digits[k])
    ensures AllDigits(digits[..k + 1])
    ensures NumValue(digits[..k + 1]) == 10 * NumValue(digits[..k]) + (digits[k] - ZERO)
    ensures AllDigits(digits) ==> NumValue(digits) >= NumValue(digits[..k + 1])
  {
    assert digits[..k + 1] == digits[..k] + [digits[k]];
    if AllDigits(digits) {
      NumValueGrows(digits, k + 1);
    }
  }

  /** What is left to decide once the sign is split off a text that does not start with a zero. */
  lemma StrictParseCases(input: seq<byte>, negative: bool)
    requires |input| > 0 && (negative <==> input[0] == MINUS)
    ensures var digits := if negative then input[1..] else input;
            |digits| > 0 && digits[0] != ZERO ==>
              StrictParse(input) ==
              if !AllDigits(digits) then None
              else
                var v := if negative then 0 - NumValue(digits) else NumValue(digits);
                if I64_MIN <= v <= I64_MAX then Some(v) else None
  {
    hide NumValue;
  }

  lemma StrictParseShort(input: seq<byte>)
    ensures |input| == 0 || (input[0] != MINUS && !IsDigit(input[0])) ==> StrictParse(input) == None
    ensures input == [MINUS] ==> StrictParse(input) == None
    ensures |input| > 1 && (input[0] == ZERO || (input[0] == MINUS && (input[1] == ZERO || !IsDigit(input[1]))))
            ==> StrictParse(input) == None
    ensures input == [ZERO] ==> StrictParse(input) == Some(0)
  {
    if input == [ZERO] {
      assert NumValue(input) == 10 * NumValue(input[..0]);
    }
  }

  /** The loop of strict_parse_i64, with its checked 64-bit arithmetic. */
  method StrictParseI64(input: seq<byte>) returns (r: Option<int>)
    ensures r == StrictParse(input)
  {
    hide StrictParse, NumValue;
    StrictParseShort(input);
    if |input| == 0 {
      return None;
    }
    if input == [ZERO] {
      return Some(0);
    }
    var idx := 0;
    var negative := false;
    if input[0] == MINUS {
      negative := true;
      idx := 1;
    }
    if idx >= |input| {
      return None;
    }
    if input[idx] < ZERO + 1 || input[idx] > ZERO + 9 {
      return None;
    }
    StrictParseCases(input, negative);
    ghost var digits := input[idx..];
    ghost var start := idx;
    var val := input[idx] - ZERO;
    idx := idx + 1;
    NumValueStep(digits, 0);
    NoDigitsValue(digits[..0]);
    while idx < |input|
      invariant start < idx <= |input|
      invariant AllDigits(digits[..idx - start])
      invariant val == NumValue(digits[..idx - start]) <= U64_MAX
    {
      var c := input[idx];
      assert digits[idx - start] == c;
      if !IsDigit(c) {
        return None;
      }
      NumValueStep(digits, idx - start);
      if val * 10 + (c - ZERO) > U64_MAX {
        // checked_mul or checked_add fails
        return None;
      }
      val := val * 10 + (c - ZERO);
      idx := idx + 1;
    }
    assert digits[..idx - start] == digits;
    if negative {
      if val > I64_MAX + 1 {
        return None;
      } else if val == I64_MAX + 1 {
        return Some(I64_MIN);
      } else {
        return Some(-val);
      }
    } else if val > I64_MAX {
      return None;
    } else {
      return Some(val);
    }
  }

  lemma NoDigitsValue(s: seq<byte>)
    requires |s| == 0
    ensures NumValue(s) == 0
  {
  }
}
