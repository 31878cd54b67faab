/** Base64 with padding as in section 4 of RFC 4648, decoded the way Go's encoding/base64 StdEncoding does:
    line breaks are skipped and unused trailing bits are ignored. */
module Base64 {
  import opened Outcomes
  import opened Selections

  type byte = n: int | 0 <= n < 256
  type sextet = n: int | 0 <= n < 64
  type Bytes = seq<byte>

  const PAD: byte := 61
  const LF: byte := 10
  const CR: byte := 13

  // The alphabet: A-Z, a-z, 0-9, '+', '/'.
  function Symbol(d: sextet): byte {
    if d < 26 then 65 + d
    else if d < 52 then 97 + (d - 26)
    else if d < 62 then 48 + (d - 52)
    else if d == 62 then 43
    else 47
  }

  function Digit(c: byte): Option<sextet> {
    if 65 <= c <= 90 then Some(c - 65)
    else if 97 <= c <= 122 then Some(c - 97 + 26)
    else if 48 <= c <= 57 then Some(c - 48 + 52)
    else if c == 43 then Some(62)
    else if c == 47 then Some(63)
    else None
  }

  // Three bytes regrouped as four sextets.
  function Sextet0(a: byte): sextet { a / 4 }
  function Sextet1(a: byte, b: byte): sextet { a % 4 * 16 + b / 16 }
  function Sextet2(b: byte, c: byte): sextet { b % 16 * 4 + c / 64 }
  function Sextet3(c: byte): sextet { c % 64 }

  function Encode(data: Bytes): Bytes {
    if |data| == 0 then []
    else if |data| == 1 then [Symbol(Sextet0(data[0])), Symbol(Sextet1(data[0], 0)), PAD, PAD]
    else if |data| == 2 then
      [Symbol(Sextet0(data[0])), Symbol(Sextet1(data[0], data[1])), Symbol(Sextet2(data[1], 0)), PAD]
    else
      [Symbol(Sextet0(data[0])), Symbol(Sextet1(data[0], data[1])), Symbol(Sextet2(data[1], data[2])),
          Symbol(Sextet3(data[2]))]
      + Encode(data[3..])
  }

  function SkipBreaks(text: Bytes): Bytes {
    if text == [] then []
    else if text[0] == LF || text[0] == CR then SkipBreaks(text[1..])
    else [text[0]] + SkipBreaks(text[1..])
  }

  function First(p: sextet, q: sextet): byte { p * 4 + q / 16 }
  function Second(q: sextet, r: sextet): byte { q % 16 * 16 + r / 4 }
  function Third(r: sextet, s: sextet): byte { r % 4 * 64 + s }

  function DecodeQuanta(t: Bytes): Option<Bytes> {
    if t == [] then Some([])
    else if |t| < 4 then None
    else
      match (Digit(t[0]), Digit(t[1]), Digit(t[2]), Digit(t[3]))
      case (Some(p), Some(q), Some(r), Some(s)) =>
        (match DecodeQuanta(t[4..])
         case Some(rest) => Some([First(p, q), Second(q, r), Third(r, s)] + rest)
         case None => None)
      case (Some(p), Some(q), Some(r), None) =>
        if t[3] == PAD && |t| == 4 then Some([First(p, q), Second(q, r)]) else None
      case (Some(p), Some(q), None, None) =>
        if t[2] == PAD && t[3] == PAD && |t| == 4 then Some([First(p, q)]) else None
      case _ => None
  }

  function Decode(text: Bytes): Option<Bytes> {
    DecodeQuanta(SkipBreaks(text))
  }

  lemma SymbolDigit(d: sextet)
    ensures Digit(Symbol(d)) == Some(d)
    ensures Symbol(d) != PAD && Symbol(d) != LF && Symbol(d) != CR
  {
  }

  lemma Regroup(a: byte, b: byte, c: byte)
    ensures First(Sextet0(a), Sextet1(a, b)) == a
    ensures Second(Sextet1(a, b), Sextet2(b, c)) == b
    ensures Third(Sextet2(b, c), Sextet3(c)) == c
  {
  }

  lemma {:induction false} EncodeHasNoBreaks(data: Bytes)
    ensures LF !in Encode(data) && CR !in Encode(data)
  {
    if |data| > 2 {
      EncodeHasNoBreaks(data[3..]);
    }
  }

  lemma {:induction false} NothingToSkip(text: Bytes)
    requires LF !in text && CR !in text
    ensures SkipBreaks(text) == text
  {
    if text != [] {
      assert text == [text[0]] + text[1..];
      NothingToSkip(text[1..]);
    }
  }

  // One step of the decoder on four digits, on three digits and padding, on two digits and padding.
  lemma FourDigits(t: Bytes, p: sextet, q: sextet, r: sextet, u: sextet, data: Bytes)
    requires |t| >= 4 && DecodeQuanta(t[4..]) == Some(data)
    requires Digit(t[0]) == Some(p) && Digit(t[1]) == Some(q) && Digit(t[2]) == Some(r) && Digit(t[3]) == Some(u)
    ensures DecodeQuanta(t) == Some([First(p, q), Second(q, r), Third(r, u)] + data)
  {
  }

  lemma ThreeDigits(t: Bytes, p: sextet, q: sextet, r: sextet)
    requires |t| == 4 && t[3] == PAD
    requires Digit(t[0]) == Some(p) && Digit(t[1]) == Some(q) && Digit(t[2]) == Some(r)
    ensures DecodeQuanta(t) == Some([First(p, q), Second(q, r)])
  {
  }

  lemma TwoDigits(t: Bytes, p: sextet, q: sextet)
    requires |t| == 4 && t[2] == t[3] == PAD
    requires Digit(t[0]) == Some(p) && Digit(t[1]) == Some(q)
    ensures DecodeQuanta(t) == Some([First(p, q)])
  {
  }

  lemma DecodeOne(a: byte)
    ensures DecodeQuanta(Encode([a])) == Some([a])
  {
    SymbolDigit(Sextet0(a));
    SymbolDigit(Sextet1(a, 0));
    TwoDigits(Encode([a]), Sextet0(a), Sextet1(a, 0));
    Regroup(a, 0, 0);
  }

  lemma DecodeTwo(a: byte, b: byte)
    ensures DecodeQuanta(Encode([a, b])) == Some([a, b])
  {
    SymbolDigit(Sextet0(a));
    SymbolDigit(Sextet1(a, b));
    SymbolDigit(Sextet2(b, 0));
    ThreeDigits(Encode([a, b]), Sextet0(a), Sextet1(a, b), Sextet2(b, 0));
    Regroup(a, b, 0);
  }

  lemma DecodeThree(a: byte, b: byte, c: byte, rest: Bytes, data: Bytes)
    requires DecodeQuanta(rest) == Some(data)
    ensures DecodeQuanta([Symbol(Sextet0(a)), Symbol(Sextet1(a, b)), Symbol(Sextet2(b, c)), Symbol(Sextet3(c))] + rest)
            == Some([a, b, c] + data)
  {
    SymbolDigit(Sextet0(a));
    SymbolDigit(Sextet1(a, b));
    SymbolDigit(Sextet2(b, c));
    SymbolDigit(Sextet3(c));
    var t := [Symbol(Sextet0(a)), Symbol(Sextet1(a, b)), Symbol(Sextet2(b, c)), Symbol(Sextet3(c))] + rest;
    assert t[4..] == rest;
    FourDigits(t, Sextet0(a), Sextet1(a, b), Sextet2(b, c), Sextet3(c), data);
    Regroup(a, b, c);
  }

  lemma {:induction false} DecodeQuantaEncode(data: Bytes)
    ensures DecodeQuanta(Encode(data)) == Some(data)
  {
    if |data| == 1 {
      DecodeOne(data[0]);
      assert data == [data[0]];
    } else if |data| == 2 {
      DecodeTwo(data[0], data[1]);
      assert data == [data[0], data[1]];
    } else if |data| > 2 {
      DecodeQuantaEncode(data[3..]);
      DecodeThree(data[0], data[1], data[2], Encode(data[3..]), data[3..]);
      assert data == [data[0], data[1], data[2]] + data[3..];
    }
  }

  // The alphabet of section 4 of RFC 4648: 'A' to 'Z', 'a' to 'z' and '0' to '9' in code order, then '+' and '/'.
  lemma AlphabetRuns(d: sextet)
    ensures Symbol(0) == 'A' as int && Symbol(25) == 'Z' as int && Symbol(26) == 'a' as int && Symbol(51) == 'z' as int
    ensures Symbol(52) == '0' as int && Symbol(61) == '9' as int && Symbol(62) == '+' as int && Symbol(63) == '/' as int
    ensures d < 61 && d != 25 && d != 51 ==> Symbol(d + 1) == Symbol(d) + 1
  {
  }

  // The number whose digits to base 64 are d.
  function Bits(d: seq<sextet>): int {
    if d == [] then 0 else 64 * Bits(d[..|d| - 1]) + d[|d| - 1]
  }

  lemma BitsSnoc(d: seq<sextet>, last: sextet)
    ensures Bits(d + [last]) == 64 * Bits(d) + last
  {
    assert (d + [last])[..|d + [last]| - 1] == d;
  }

  lemma FourBits(p: sextet, q: sextet, r: sextet, u: sextet)
    ensures Bits([p, q]) == 64 * p as int + q
    ensures Bits([p, q, r]) == 4096 * p as int + 64 * q as int + r
    ensures Bits([p, q, r, u]) == 262144 * p as int + 4096 * q as int + 64 * r as int + u
  {
    assert [] + [p] == [p] && [p] + [q] == [p, q] && [p, q] + [r] == [p, q, r] && [p, q, r] + [u] == [p, q, r, u];
    BitsSnoc([], p);
    BitsSnoc([p], q);
    BitsSnoc([p, q], r);
    BitsSnoc([p, q, r], u);
  }

  // Every three bytes become the four symbols whose values are the same 24 bits.
  lemma EncodesThree(a: byte, b: byte, c: byte, rest: Bytes) returns (d: seq<sextet>)
    ensures |d| == 4 && Bits(d) == 65536 * a as int + 256 * b as int + c
    ensures Encode([a, b, c] + rest) == [Symbol(d[0]), Symbol(d[1]), Symbol(d[2]), Symbol(d[3])] + Encode(rest)
  {
    d := [Sextet0(a), Sextet1(a, b), Sextet2(b, c), Sextet3(c)];
    FourBits(d[0], d[1], d[2], d[3]);
    assert ([a, b, c] + rest)[3..] == rest;
  }

  // One or two bytes at the end are filled up with zero bits, and with '=' signs to four symbols.
  lemma EncodesTail(a: byte, b: byte) returns (d: seq<sextet>, e: seq<sextet>)
    ensures |d| == 2 && Bits(d) == 16 * a as int && Encode([a]) == [Symbol(d[0]), Symbol(d[1]), 61, 61]
    ensures |e| == 3 && Bits(e) == 4 * (256 * a as int + b)
    ensures Encode([a, b]) == [Symbol(e[0]), Symbol(e[1]), Symbol(e[2]), 61] && Encode([]) == []
  {
    d := [Sextet0(a), Sextet1(a, 0)];
    e := [Sextet0(a), Sextet1(a, b), Sextet2(b, 0)];
    FourBits(d[0], d[1], 0, 0);
    FourBits(e[0], e[1], e[2], 0);
  }

  // Decoding undoes encoding for every byte string, and only the empty string encodes to nothing.
  lemma DecodeEncode(data: Bytes)
    ensures Decode(Encode(data)) == Some(data)
    ensures Encode(data) == [] <==> data == []
  {
    EncodeHasNoBreaks(data);
    NothingToSkip(Encode(data));
    DecodeQuantaEncode(data);
  }

  // Only the alphabet has values, and a symbol's value is its place in it.
  lemma DigitSymbol(c: byte)
    ensures Digit(c).Some? ==> Symbol(Digit(c).value) == c
    ensures Digit(61) == None
  {
  }

  // Whole groups of four: n symbols, then at most two '=' signs.
  ghost predicate Padded(t: Bytes, n: nat) {
    && |t| % 4 == 0 && n <= |t| <= n + 2
    && (forall i | 0 <= i < n :: Digit(t[i]).Some?)
    && (forall i | n <= i < |t| :: t[i] == 61)
  }

  ghost predicate WellPadded(t: Bytes) {
    exists n: nat :: Padded(t, n)
  }

  lemma PaddedRest(t: Bytes, n: nat)
    requires |t| > 4
    ensures Padded(t, n) <==>
            |t| % 4 == 0 && n >= 4 && Padded(t[4..], n - 4) && forall i | 0 <= i < 4 :: Digit(t[i]).Some?
  {
    DigitSymbol(61);
    if n >= 4 && Padded(t[4..], n - 4) {
      forall i | 4 <= i < |t| ensures t[i] == t[4..][i - 4] {
      }
    }
    if Padded(t, n) {
      assert forall i | 0 <= i < |t[4..]| :: t[4..][i] == t[i + 4];
    }
  }

  lemma WellPaddedRest(t: Bytes)
    requires |t| > 4
    ensures WellPadded(t) <==> WellPadded(t[4..]) && forall i | 0 <= i < 4 :: Digit(t[i]).Some?
  {
    if n: nat :| Padded(t, n) {
      PaddedRest(t, n);
    }
    if n: nat :| Padded(t[4..], n) {
      PaddedRest(t, n + 4);
    }
  }

  lemma OneQuantumDecodeIff(t: Bytes)
    requires |t| == 4
    ensures DecodeQuanta(t).Some? <==> WellPadded(t)
  {
    DigitSymbol(61);
    if DecodeQuanta(t).Some? {
      assert Padded(t, if t[3] != 61 then 4 else if t[2] != 61 then 3 else 2);
    }
  }

  lemma QuantumBeforeDecodeIff(t: Bytes)
    requires |t| > 4
    ensures DecodeQuanta(t).Some? <==>
            DecodeQuanta(t[4..]).Some? && forall i | 0 <= i < 4 :: Digit(t[i]).Some?
  {
  }

  lemma {:induction false} QuantaDecodeIff(t: Bytes)
    ensures DecodeQuanta(t).Some? <==> WellPadded(t)
  {
    if t == [] {
      assert Padded(t, 0);
    } else if |t| == 4 {
      OneQuantumDecodeIff(t);
    } else if |t| > 4 {
      QuantaDecodeIff(t[4..]);
      QuantumBeforeDecodeIff(t);
      WellPaddedRest(t);
    }
  }

  lemma {:induction false} SkipBreaksSnoc(text: Bytes, c: byte)
    ensures SkipBreaks(text + [c]) == SkipBreaks(text) + (if c == LF || c == CR then [] else [c])
  {
    if text != [] {
      assert (text + [c])[1..] == text[1..] + [c];
      SkipBreaksSnoc(text[1..], c);
    }
  }

  // The text without its line breaks, in order.
  lemma {:induction false} SkipBreaksKeeps(text: Bytes) returns (idx: seq<nat>)
    ensures Lists(idx, set i: nat | i < |text| && text[i] != 10 && text[i] != 13)
    ensures |idx| == |SkipBreaks(text)|
    ensures forall j | 0 <= j < |idx| :: idx[j] < |text| && SkipBreaks(text)[j] == text[idx[j]]
  {
    if text == [] {
      idx := [];
    } else {
      var n := |text| - 1;
      var kept := set i: nat | i < n && text[..n][i] != 10 && text[..n][i] != 13;
      idx := SkipBreaksKeeps(text[..n]);
      SkipBreaksSnoc(text[..n], text[n]);
      assert text == text[..n] + [text[n]];
      if text[n] != 10 && text[n] != 13 {
        ListsSnoc(idx, kept, n);
        assert kept + {n} == set i: nat | i < |text| && text[i] != 10 && text[i] != 13;
        idx := idx + [n];
      } else {
        assert kept == set i: nat | i < |text| && text[i] != 10 && text[i] != 13;
      }
    }
  }

  // Exactly the padded texts decode, wherever their line breaks are.
  lemma DecodeIff(text: Bytes)
    ensures Decode(text).Some? <==> WellPadded(SkipBreaks(text))
  {
    QuantaDecodeIff(SkipBreaks(text));
  }

  lemma Ungroup(p: sextet, q: sextet, r: sextet, u: sextet)
    ensures Sextet0(First(p, q)) == p && Sextet1(First(p, q), Second(q, r)) == q
    ensures Sextet2(Second(q, r), Third(r, u)) == r && Sextet3(Third(r, u)) == u
  {
  }

  lemma EncodeOneQuantum(t: Bytes, n: nat)
    requires |t| == 4 && Padded(t, n) && DecodeQuanta(t).Some?
    ensures |Encode(DecodeQuanta(t).value)| == 4
    ensures forall i | 0 <= i < 4 && (i != n - 1 || n == 4) :: Encode(DecodeQuanta(t).value)[i] == t[i]
  {
    DigitSymbol(61);
    forall i | 0 <= i < 4 {
      DigitSymbol(t[i]);
    }
    var p, q := Digit(t[0]).value, Digit(t[1]).value;
    var r := if n > 2 then Digit(t[2]).value else 0;
    var u := if n > 3 then Digit(t[3]).value else 0;
    Ungroup(p, q, r, u);
  }

  // The three bytes of a whole quantum, by what encoding them gives back.
  lemma QuantumBytes(t: Bytes, rest: Bytes) returns (a: byte, b: byte, c: byte)
    requires |t| > 4 && DecodeQuanta(t[4..]) == Some(rest) && forall i | 0 <= i < 4 :: Digit(t[i]).Some?
    ensures DecodeQuanta(t) == Some([a, b, c] + rest)
    ensures Symbol(Sextet0(a)) == t[0] && Symbol(Sextet1(a, b)) == t[1]
    ensures Symbol(Sextet2(b, c)) == t[2] && Symbol(Sextet3(c)) == t[3]
  {
    forall i | 0 <= i < 4 {
      DigitSymbol(t[i]);
    }
    var p, q, r, u := Digit(t[0]).value, Digit(t[1]).value, Digit(t[2]).value, Digit(t[3]).value;
    Ungroup(p, q, r, u);
    FourDigits(t, p, q, r, u, rest);
    a, b, c := First(p, q), Second(q, r), Third(r, u);
  }

  lemma EncodeQuantumBefore(t: Bytes, a: byte, b: byte, c: byte, rest: Bytes)
    requires |t| > 4
    requires Symbol(Sextet0(a)) == t[0] && Symbol(Sextet1(a, b)) == t[1]
    requires Symbol(Sextet2(b, c)) == t[2] && Symbol(Sextet3(c)) == t[3]
    ensures Encode([a, b, c] + rest) == t[..4] + Encode(rest)
  {
    assert ([a, b, c] + rest)[3..] == rest;
  }

  // Every symbol but the last before padding is recovered by encoding what was decoded; that one may carry unused bits.
  lemma {:induction false} EncodeDecoded(t: Bytes, n: nat, data: Bytes)
    requires Padded(t, n) && DecodeQuanta(t) == Some(data)
    ensures |Encode(data)| == |t| && forall i | 0 <= i < |t| && (i != n - 1 || n == |t|) :: Encode(data)[i] == t[i]
    decreases |t|
  {
    if |t| == 4 {
      EncodeOneQuantum(t, n);
    } else if |t| > 4 {
      PaddedRest(t, n);
      QuantumBeforeDecodeIff(t);
      var rest := DecodeQuanta(t[4..]).value;
      var a, b, c := QuantumBytes(t, rest);
      EncodeDecoded(t[4..], n - 4, rest);
      EncodeQuantumBefore(t, a, b, c, rest);
      forall i | 4 <= i < |t| ensures t[i] == t[4..][i - 4] {
      }
    }
  }
}
