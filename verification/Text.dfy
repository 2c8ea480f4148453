/** Hexadecimal strings, and numbers printed in a fixed width. */
module Text {
  import opened Bytes

  // ---------------------------------------------------------------- encoding/hex

  function HexDigit(n: nat): (b: byte)
    requires n < 16
    ensures HexVal(b) == Some(n) && IsLowerHexDigit(b)
  {
    if n < 10 then 48 + n else 87 + n
  }

  /** The value of a hex digit; both cases are accepted. */
  function HexVal(b: byte): (v: Option<nat>)
    ensures v.Some? ==> v.value < 16
  {
    if 48 <= b <= 57 then Some(b - 48)
    else if 97 <= b <= 102 then Some(b - 87)
    else if 65 <= b <= 70 then Some(b - 55)
    else None
  }

  /** The digits that are printed, and all that are read. */
  lemma HexTable(n: nat, b: byte)
    requires n < 16
    ensures HexDigit(n) == Ascii("0123456789abcdef")[n]
    ensures HexVal(b) == Some(n) <==> b == Ascii("0123456789abcdef")[n] || b == Ascii("0123456789ABCDEF")[n]
  {}

  predicate IsLowerHexDigit(b: byte) {
    48 <= b <= 57 || 97 <= b <= 102
  }

  predicate IsLowerHex(s: Str) {
    forall i :: 0 <= i < |s| ==> IsLowerHexDigit(s[i])
  }

  /** hex.EncodeToString. */
  function HexEncode(b: Str): (s: Str)
    ensures |s| == 2 * |b| && IsLowerHex(s)
  {
    if b == [] then [] else [HexDigit(b[0] / 16), HexDigit(b[0] % 16)] + HexEncode(b[1..])
  }

  /** hex.DecodeString with its error ignored: the bytes decoded before the first bad pair. */
  function HexDecode(s: Str): (b: Str)
    ensures 2 * |b| <= |s|
  {
    if |s| < 2 || HexVal(s[0]).None? || HexVal(s[1]).None? then []
    else [HexVal(s[0]).value * 16 + HexVal(s[1]).value] + HexDecode(s[2..])
  }

  /** Decoding stops at the end, before a single digit, or before the first pair with something that is no digit. */
  lemma {:induction false} HexDecodeStops(s: Str)
    ensures var k := |HexDecode(s)|;
            && (forall i :: 0 <= i < k ==>
                  && HexVal(s[2 * i]).Some? && HexVal(s[2 * i + 1]).Some?
                  && HexDecode(s)[i] == HexVal(s[2 * i]).value * 16 + HexVal(s[2 * i + 1]).value)
            && (|s| < 2 * k + 2 || HexVal(s[2 * k]).None? || HexVal(s[2 * k + 1]).None?)
  {
    if |s| >= 2 && HexVal(s[0]).Some? && HexVal(s[1]).Some? {
      var rest := s[2..];
      HexDecodeStops(rest);
      var b, c := HexDecode(s), HexDecode(rest);
      assert |b| == |c| + 1 && b[1..] == c;
      forall i | 0 <= i < |b|
        ensures HexVal(s[2 * i]).Some? && HexVal(s[2 * i + 1]).Some?
        ensures b[i] == HexVal(s[2 * i]).value * 16 + HexVal(s[2 * i + 1]).value
      {
        if i > 0 {
          assert b[i] == c[i - 1] && s[2 * i] == rest[2 * (i - 1)] && s[2 * i + 1] == rest[2 * (i - 1) + 1];
        }
      }
      assert 2 * |b| + 2 <= |s| ==> s[2 * |b|] == rest[2 * |c|] && s[2 * |b| + 1] == rest[2 * |c| + 1];
    }
  }

  lemma {:induction false} HexDecodeEncode(b: Str)
    ensures HexDecode(HexEncode(b)) == b
  {
    if b != [] {
      var s := HexEncode(b);
      assert s[0] == HexDigit(b[0] / 16) && s[1] == HexDigit(b[0] % 16);
      assert s[2..] == HexEncode(b[1..]);
      HexDecodeEncode(b[1..]);
    }
  }

  lemma {:induction false} HexEncodeDecode(s: Str)
    requires |s| % 2 == 0 && IsLowerHex(s)
    ensures HexEncode(HexDecode(s)) == s
  {
    if s != [] {
      HexEncodeDecode(s[2..]);
      DecodePair(s);
      EncodePair(s[0], s[1], HexDecode(s[2..]));
      assert s == [s[0], s[1]] + s[2..];
    }
  }

  function Pair(a: byte, b: byte): byte
    requires IsLowerHexDigit(a) && IsLowerHexDigit(b)
  {
    HexVal(a).value * 16 + HexVal(b).value
  }

  lemma DecodePair(s: Str)
    requires |s| >= 2 && IsLowerHexDigit(s[0]) && IsLowerHexDigit(s[1])
    ensures HexDecode(s) == [Pair(s[0], s[1])] + HexDecode(s[2..])
  {}

  lemma EncodePair(a: byte, b: byte, rest: Str)
    requires IsLowerHexDigit(a) && IsLowerHexDigit(b)
    ensures HexEncode([Pair(a, b)] + rest) == [a, b] + HexEncode(rest)
  {
    var all := [Pair(a, b)] + rest;
    assert all[0] == Pair(a, b) && all[1..] == rest;
    DigitBack(a);
    DigitBack(b);
  }

  lemma DigitBack(b: byte)
    requires IsLowerHexDigit(b)
    ensures HexVal(b).Some? && HexDigit(HexVal(b).value) == b
  {}

  /** Decoding loses nothing exactly on an even number of lower-case hex digits. */
  lemma HexLossless(s: Str)
    ensures HexEncode(HexDecode(s)) == s <==> |s| % 2 == 0 && IsLowerHex(s)
  {
    if |s| % 2 == 0 && IsLowerHex(s) {
      HexEncodeDecode(s);
    } else {
      HexIsLower(HexDecode(s));
    }
  }

  lemma HexIsLower(b: Str)
    ensures |HexEncode(b)| % 2 == 0 && IsLowerHex(HexEncode(b))
  {}

  // ---------------------------------------------------------------- printing and parsing numbers

  function Digits(n: nat, base: nat): (s: Str)
    requires base == 10 || base == 16
    ensures |s| >= 1
    decreases n
  {
    if n < base then [HexDigit(n)] else Digits(n / base, base) + [HexDigit(n % base)]
  }

  const ZERO: byte := 48

  /** fmt's %0Nd and %0Nx for a non-negative number: at least width digits. */
  function Padded(n: nat, base: nat, width: nat): (s: Str)
    requires base == 10 || base == 16
    ensures |s| >= width
  {
    var d := Digits(n, base);
    if |d| >= width then d else seq(width - |d|, _ => ZERO) + d
  }

  function DigitVal(b: byte, base: nat): (v: Option<nat>)
    requires base <= 16
    ensures v.Some? ==> v.value < base
  {
    match HexVal(b)
    case Some(v) => if v < base then Some(v) else None
    case None => None
  }

  /** strconv.ParseUint with its error ignored: a syntax error gives 0, an overflow gives max. */
  function ParseUint(s: Str, base: nat, max: nat): nat
    requires base == 10 || base == 16
  {
    ParseUintFrom(s, 0, 0, base, max)
  }

  /** The digit loop of ParseUint, at index i with the value n of the digits before it. */
  function ParseUintFrom(s: Str, i: nat, n: nat, base: nat, max: nat): nat
    requires i <= |s| && (base == 10 || base == 16)
    decreases |s| - i
  {
    if i == |s| then n
    else match DigitVal(s[i], base) {
      case None => 0
      case Some(d) => if n * base + d > max then max else ParseUintFrom(s, i + 1, n * base + d, base, max)
    }
  }

  predicate AllDigits(s: Str, base: nat)
    requires base <= 16
  {
    forall i :: 0 <= i < |s| ==> DigitVal(s[i], base).Some?
  }

  function Value(s: Str, base: nat): nat
    requires (base == 10 || base == 16) && AllDigits(s, base)
  {
    if s == [] then 0 else Value(s[..|s| - 1], base) * base + DigitVal(s[|s| - 1], base).value
  }

  lemma {:induction false} ValueGrows(s: Str, i: nat, base: nat)
    requires (base == 10 || base == 16) && AllDigits(s, base) && i <= |s|
    ensures Value(s[..i], base) <= Value(s, base)
    decreases |s|
  {
    if i < |s| {
      assert s[..|s| - 1][..i] == s[..i];
      ValueGrows(s[..|s| - 1], i, base);
    } else {
      assert s[..i] == s;
    }
  }

  lemma {:induction false} ParseValue(s: Str, i: nat, base: nat, max: nat)
    requires (base == 10 || base == 16) && AllDigits(s, base) && i <= |s| && Value(s, base) <= max
    ensures ParseUintFrom(s, i, Value(s[..i], base), base, max) == Value(s, base)
    decreases |s| - i
  {
    if i == |s| {
      assert s[..i] == s;
    } else {
      assert s[..i + 1][..i] == s[..i];
      ValueGrows(s, i + 1, base);
      ParseValue(s, i + 1, base, max);
    }
  }

  lemma ValueNext(s: Str, i: nat, base: nat)
    requires (base == 10 || base == 16) && AllDigits(s, base) && i < |s|
    ensures Value(s[..i + 1], base) == Value(s[..i], base) * base + DigitVal(s[i], base).value
  {
    assert s[..i + 1][..i] == s[..i];
  }

  lemma {:induction false} ParseOverflow(s: Str, i: nat, base: nat, max: nat)
    requires (base == 10 || base == 16) && AllDigits(s, base) && i <= |s|
    requires Value(s[..i], base) <= max < Value(s, base)
    ensures ParseUintFrom(s, i, Value(s[..i], base), base, max) == max
    decreases |s| - i
  {
    assert s[..|s|] == s;
    if i < |s| {
      ValueNext(s, i, base);
      if Value(s[..i + 1], base) <= max {
        ParseOverflow(s, i + 1, base, max);
      }
    }
  }

  /** Digits are read as the number they stand for, or as the largest number there is. */
  lemma ParseDigits(s: Str, base: nat, max: nat)
    requires (base == 10 || base == 16) && AllDigits(s, base)
    ensures ParseUint(s, base, max) == if Value(s, base) <= max then Value(s, base) else max
  {
    assert s[..0] == [];
    if Value(s, base) <= max {
      ParseValue(s, 0, base, max);
    } else {
      ParseOverflow(s, 0, base, max);
    }
  }

  lemma {:induction false} ParseStops(s: Str, i: nat, k: nat, base: nat, max: nat)
    requires (base == 10 || base == 16) && i <= k < |s| && DigitVal(s[k], base).None?
    requires AllDigits(s[..k], base) && Value(s[..k], base) <= max
    ensures ParseUintFrom(s, i, Value(s[..k][..i], base), base, max) == 0
    decreases k - i
  {
    if i < k {
      var t := s[..k];
      ValueNext(t, i, base);
      ValueGrows(t, i + 1, base);
      assert t[i] == s[i];
      ParseStops(s, i + 1, k, base, max);
    }
  }

  /** Something that is no digit, before the number is too large, makes zero of it all. */
  lemma ParseBad(s: Str, k: nat, base: nat, max: nat)
    requires (base == 10 || base == 16) && k < |s| && DigitVal(s[k], base).None?
    requires AllDigits(s[..k], base) && Value(s[..k], base) <= max
    ensures ParseUint(s, base, max) == 0
  {
    assert s[..k][..0] == [];
    ParseStops(s, 0, k, base, max);
  }

  lemma {:induction false} ValueDigits(n: nat, base: nat)
    requires base == 10 || base == 16
    ensures AllDigits(Digits(n, base), base) && Value(Digits(n, base), base) == n
    decreases n
  {
    if n >= base {
      ValueDigits(n / base, base);
      assert Digits(n, base)[..|Digits(n, base)| - 1] == Digits(n / base, base);
    }
  }

  lemma {:induction false} ValueLeadingZeros(k: nat, s: Str, base: nat)
    requires (base == 10 || base == 16) && AllDigits(s, base)
    ensures AllDigits(seq(k, _ => ZERO) + s, base) && Value(seq(k, _ => ZERO) + s, base) == Value(s, base)
    decreases |s|, k
  {
    var z: Str := seq(k, _ => ZERO);
    if s != [] {
      ValueLeadingZeros(k, s[..|s| - 1], base);
      assert (z + s)[..|z + s| - 1] == z + s[..|s| - 1];
    } else if k > 0 {
      ValueLeadingZeros(k - 1, s, base);
      assert (z + s)[..k - 1] == seq(k - 1, _ => ZERO) + s;
    }
  }

  /** What is printed, with any padding, is the digits of the number in that base. */
  lemma PaddedStands(n: nat, base: nat, width: nat)
    requires base == 10 || base == 16
    ensures AllDigits(Padded(n, base, width), base) && Value(Padded(n, base, width), base) == n
  {
    var d := Digits(n, base);
    ValueDigits(n, base);
    if |d| < width {
      ValueLeadingZeros(width - |d|, d, base);
    }
  }

  /** What is printed, with any padding, parses back to the number. */
  lemma ParsePadded(n: nat, base: nat, width: nat, max: nat)
    requires (base == 10 || base == 16) && n <= max
    ensures ParseUint(Padded(n, base, width), base, max) == n
  {
    var d, p := Digits(n, base), Padded(n, base, width);
    ValueDigits(n, base);
    if |d| < width {
      ValueLeadingZeros(width - |d|, d, base);
    }
    assert p[..0] == [];
    ParseValue(p, 0, base, max);
  }

  function Pow(base: nat, e: nat): nat {
    if e == 0 then 1 else base * Pow(base, e - 1)
  }

  /** A number below base^width is printed in exactly width digits. */
  lemma {:induction false} DigitsFit(n: nat, base: nat, width: nat)
    requires (base == 10 || base == 16) && width >= 1 && n < Pow(base, width)
    ensures |Digits(n, base)| <= width && |Padded(n, base, width)| == width
    decreases width
  {
    if n >= base {
      assert width >= 2;
      DigitsFit(n / base, base, width - 1);
    }
  }

  lemma {:induction false} DigitsAreLowerHex(n: nat, base: nat)
    requires base == 10 || base == 16
    ensures IsLowerHex(Digits(n, base))
    decreases n
  {
    if n >= base {
      DigitsAreLowerHex(n / base, base);
    }
  }
}
