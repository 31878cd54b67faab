/** Decimal text of unsigned numbers: Go's `%d` and strconv.FormatUint on one side,
    strconv.ParseUint(s, 10, 16) with its error ignored on the other. */
module Decimal {
  type uint16 = n: int | 0 <= n < 0x1_0000

  const MAX_UINT16: uint16 := 0xFFFF

  predicate IsDigit(c: char) {
    '0' <= c <= '9'
  }

  function Format(n: nat): (s: string) {
    if n < 10 then [('0' as int + n) as char]
    else Format(n / 10) + [('0' as int + n % 10) as char]
  }

  // ParseUint scans left to right: the first character that is no digit yields 0,
  // the first digit that leaves the 16-bit range yields the largest value.
  function ParseFrom(s: string, n: uint16): (r: uint16) {
    if s == [] then n
    else if !IsDigit(s[0]) then 0
    else
      var next := n * 10 + (s[0] as int - '0' as int);
      if next > MAX_UINT16 then MAX_UINT16 else ParseFrom(s[1..], next)
  }

  function ParseUint16(s: string): (r: uint16) {
    ParseFrom(s, 0)
  }

  ghost predicate AllDigits(s: string) {
    forall c <- s :: IsDigit(c)
  }

  // The number a digit string denotes, most significant digit first.
  ghost function Value(s: string): nat
    requires AllDigits(s)
  {
    if s == [] then 0
    else
      assert IsDigit(s[|s| - 1]);
      Value(s[..|s| - 1]) * 10 + (s[|s| - 1] as int - '0' as int)
  }

  lemma {:induction false} FormatDigits(n: nat)
    ensures AllDigits(Format(n)) && Format(n) != [] && Value(Format(n)) == n
  {
    if n >= 10 {
      FormatDigits(n / 10);
      var s := Format(n);
      assert s[..|s| - 1] == Format(n / 10);
    }
  }

  // No leading zero: the first digit is zero only in the text of zero, and that is one digit long.
  lemma {:induction false} FormatLeads(n: nat)
    ensures Format(n) != [] && (Format(n)[0] == '0' <==> n == 0) && (n < 10 <==> |Format(n)| == 1)
  {
    if n >= 10 {
      FormatLeads(n / 10);
    }
  }

  lemma FormatInjective(m: nat, n: nat)
    requires Format(m) == Format(n)
    ensures m == n
  {
    FormatDigits(m);
    FormatDigits(n);
  }

  lemma {:induction false} ValuePrefix(s: string, i: nat)
    requires AllDigits(s) && i <= |s|
    ensures Value(s[..i]) <= Value(s)
  {
    if i == |s| {
      assert s[..i] == s;
    } else {
      var t := s[..|s| - 1];
      assert IsDigit(s[|s| - 1]);
      ValuePrefix(t, i);
      assert t[..i] == s[..i];
    }
  }

  // Scanning the rest of a digit string after its first i digits.
  lemma {:induction false} ParseFromSuffix(s: string, i: nat)
    requires AllDigits(s) && i <= |s| && Value(s[..i]) <= MAX_UINT16
    ensures ParseFrom(s[i..], Value(s[..i])) == if Value(s) <= MAX_UINT16 then Value(s) else MAX_UINT16
    decreases |s| - i
  {
    if i == |s| {
      assert s[..i] == s;
    } else {
      assert s[..i + 1][..i] == s[..i];
      assert s[i..][1..] == s[i + 1..];
      ValuePrefix(s, i + 1);
      if Value(s[..i + 1]) <= MAX_UINT16 {
        ParseFromSuffix(s, i + 1);
      }
    }
  }

  // Scanning a text whose first character that is no digit stands at d.
  lemma {:induction false} ParseFromMalformed(s: string, d: nat, i: nat)
    requires d < |s| && AllDigits(s[..d]) && !IsDigit(s[d]) && i <= d
    requires AllDigits(s[..i]) && Value(s[..i]) <= MAX_UINT16
    ensures ParseFrom(s[i..], Value(s[..i])) == if Value(s[..d]) <= MAX_UINT16 then 0 else MAX_UINT16
    decreases d - i
  {
    if i < d {
      assert s[..d][i] == s[i];
      assert s[..i + 1][..i] == s[..i] && s[..i + 1] == s[..i] + [s[i]];
      assert s[i..][1..] == s[i + 1..];
      assert s[..d][..i + 1] == s[..i + 1];
      ValuePrefix(s[..d], i + 1);
      if Value(s[..i + 1]) <= MAX_UINT16 {
        ParseFromMalformed(s, d, i + 1);
      }
    }
  }

  // Any other text parses to 0, unless its leading digits alone already leave the range; errors are ignored.
  lemma ParseMalformed(s: string, d: nat)
    requires d < |s| && AllDigits(s[..d]) && !IsDigit(s[d])
    ensures ParseUint16(s) == if Value(s[..d]) <= MAX_UINT16 then 0 else MAX_UINT16
  {
    assert s[0..] == s;
    ParseFromMalformed(s, d, 0);
  }

  // A digit string parses to its value, saturated at 65535.
  lemma ParseDigits(s: string)
    requires AllDigits(s)
    ensures ParseUint16(s) == if Value(s) <= MAX_UINT16 then Value(s) else MAX_UINT16
  {
    assert s[0..] == s;
    ParseFromSuffix(s, 0);
  }

  // Printing and parsing is the identity exactly on the 16-bit numbers.
  lemma ParseFormat(n: nat)
    ensures ParseUint16(Format(n)) == n <==> n <= MAX_UINT16
    ensures n > MAX_UINT16 ==> ParseUint16(Format(n)) == MAX_UINT16
  {
    FormatDigits(n);
    ParseDigits(Format(n));
  }
}
