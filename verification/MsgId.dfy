/** Message ids, how they are taken apart, and the generators of their sequence numbers. */
module MsgId {
  import opened Bytes
  import opened Text

  // ---------------------------------------------------------------- generators

  /** The goroutine behind Conn.SequenceID. */
  class SequenceIds {
    var i: u32

    constructor (seed: u32)
      ensures i == seed
    {
      i := seed;
    }

    method Next() returns (n: u32)
      modifies this
      ensures n == old(i) && i == (n + 1) % 0x1_0000_0000
    {
      n := i;
      i := ToU32(i + 1);
    }
  }

  const SEQUENCE_NUMS: nat := 1000000

  /** The goroutine behind Conn.SequenceNum; its first number is drawn at random below 999999. */
  class SequenceNums {
    var i: u32

    ghost predicate Valid()
      reads this
    {
      i < SEQUENCE_NUMS
    }

    constructor (seed: nat)
      requires seed < 999999
      ensures Valid() && i == seed
    {
      i := seed;
    }

    method Next() returns (n: u32)
      requires Valid()
      modifies this
      ensures Valid() && n == old(i) && i == if n == 999999 then 0 else n + 1
    {
      n := i;
      i := (i + 1) % SEQUENCE_NUMS;
    }

    /** The k draws that follow are those of Draw. */
    method NextAll(k: nat) returns (ns: seq<u32>)
      requires Valid()
      modifies this
      ensures Valid() && |ns| == k && forall j :: 0 <= j < k ==> ns[j] == Draw(old(i), j)
    {
      ns := [];
      for j := 0 to k
        invariant Valid() && i == Draw(old(i), j) && |ns| == j
        invariant forall l :: 0 <= l < j ==> ns[l] == Draw(old(i), l)
      {
        DrawCounts(old(i), j);
        var n := Next();
        ns := ns + [n];
      }
    }
  }

  /** The k-th number after start. */
  function Draw(start: nat, k: nat): u32 {
    (start + k) % SEQUENCE_NUMS
  }

  /** Each number is one more than the last, and 0 follows 999999. */
  lemma DrawCounts(start: nat, k: nat)
    ensures Draw(start, 0) == start % 1000000 && Draw(start, k) <= 999999
    ensures Draw(start, k + 1) == if Draw(start, k) == 999999 then 0 else Draw(start, k) + 1
  {}

  /** A number comes back after a million draws and not before. */
  lemma DrawsRepeat(start: nat, j: nat, k: nat)
    requires j <= k
    ensures Draw(start, j) == Draw(start, k) <==> (k - j) % SEQUENCE_NUMS == 0
  {}

  // ---------------------------------------------------------------- making ids

  /** strconv.ParseInt(s, 10, 24) with its error ignored: bad syntax gives 0, a large number is clipped. */
  function ParseInt24(s: Str): (n: int)
    ensures -0x80_0000 <= n <= 0x7F_FFFF
  {
    if s == [] then 0
    else if s[0] == 45 then
      var n: int := ParseUint(s[1..], 10, 0xFF_FFFF);
      if n > 0x80_0000 then -0x80_0000 else -n
    else
      var n: int := ParseUint(if s[0] == 43 then s[1..] else s, 10, 0xFF_FFFF);
      if n >= 0x80_0000 then 0x7F_FFFF else n
  }

  /** What strconv makes of a decimal number with or without a sign: the number, or the end of the range of 24 bits that
      it lies beyond. */
  lemma ParseIntReads(s: Str)
    requires s != [] && AllDigits(s, 10)
    ensures var v: int := Value(s, 10);
            && ParseInt24(s) == (if v <= 8388607 then v else 8388607)
            && ParseInt24([43] + s) == ParseInt24(s)
            && ParseInt24([45] + s) == (if v <= 8388608 then -v else -8388608)
  {
    ParseDigits(s, 10, 0xFF_FFFF);
    assert ([43] + s)[1..] == s && ([45] + s)[1..] == s;
    assert DigitVal(s[0], 10).Some?;
  }

  datatype Clock = Clock(month: nat, day: nat, hour: nat, min: nat)

  predicate Possible(c: Clock) {
    1 <= c.month <= 12 && 1 <= c.day <= 31 && c.hour < 24 && c.min < 60
  }

  /** %06x: the sign takes one of the places. */
  function Hex6(n: int): (s: Str)
    ensures |s| >= 6
  {
    if n < 0 then [45] + Padded(-n, 16, 5) else Padded(n, 16, 6)
  }

  function ClockPieces(c: Clock): seq<Str> {
    [Padded(c.month, 10, 2), Padded(c.day, 10, 2), Padded(c.hour, 10, 2), Padded(c.min, 10, 2)]
  }

  function GenMsgID(spId: Str, c: Clock, sequenceNum: u32): Str {
    Hex6(ParseInt24(spId)) + Cat(ClockPieces(c)) + Hex6(sequenceNum)
  }

  // ---------------------------------------------------------------- taking ids apart

  /** The numbers that UnpackMsgId prints; the gateway code is printed with FixedString(6). */
  datatype Parts = Parts(spId: Str, clock: Clock, seqNum: nat)

  /** OctetString.FixedString: padded with the digit zero in front, or only the last n bytes. */
  function FixedString(s: Str, n: nat): (r: Str)
    ensures |r| == n
  {
    if |s| > n then s[|s| - n..] else seq(n - |s|, _ => ZERO) + s
  }

  /** None is a panic: an id shorter than its fixed positions. */
  function UnpackMsgId(msgId: Str): Option<Parts> {
    if |msgId| < 14 then None
    else Some(Parts(
      FixedString(Digits(ParseUint(msgId[..6], 16, 0xFF_FFFF), 10), 6),
      Clock(ParseUint(msgId[6..8], 10, 255), ParseUint(msgId[8..10], 10, 255),
            ParseUint(msgId[10..12], 10, 255), ParseUint(msgId[12..14], 10, 255)),
      ParseUint(msgId[14..], 16, 0xFF_FFFF)))
  }

  // ---------------------------------------------------------------- properties

  lemma PowersUsed()
    ensures Pow(10, 2) == 100 && Pow(16, 6) == 0x100_0000 && Pow(10, 6) == 1000000
  {
    assert Pow(16, 3) == 0x1000 && Pow(16, 4) == 0x1_0000;
    assert Pow(10, 4) == 10000;
  }

  lemma TwoDigits(n: nat)
    requires n < 100
    ensures |Padded(n, 10, 2)| == 2 && ParseUint(Padded(n, 10, 2), 10, 255) == n && IsLowerHex(Padded(n, 10, 2))
  {
    PowersUsed();
    DigitsFit(n, 10, 2);
    ParsePadded(n, 10, 2, 255);
    DigitsAreLowerHex(n, 10);
  }

  lemma SixDigits(n: nat)
    requires n < 0x100_0000
    ensures |Hex6(n)| == 6 && ParseUint(Hex6(n), 16, 0xFF_FFFF) == n && IsLowerHex(Hex6(n))
  {
    PowersUsed();
    DigitsFit(n, 16, 6);
    ParsePadded(n, 16, 6, 0xFF_FFFF);
    DigitsAreLowerHex(n, 16);
  }

  predicate ClockAt(s: Str, c: Clock) {
    && |s| == 8
    && s[0..2] == Padded(c.month, 10, 2) && s[2..4] == Padded(c.day, 10, 2)
    && s[4..6] == Padded(c.hour, 10, 2) && s[6..8] == Padded(c.min, 10, 2)
  }

  lemma ClockPositions(c: Clock)
    requires Possible(c)
    ensures ClockAt(Cat(ClockPieces(c)), c) && IsLowerHex(Cat(ClockPieces(c)))
  {
    TwoDigits(c.month);
    TwoDigits(c.day);
    TwoDigits(c.hour);
    TwoDigits(c.min);
    var ps, offs := ClockPieces(c), [0, 2, 4, 6, 8];
    CatAt(ps, offs);
    var s := Cat(ps);
    assert Sits(s, ps, offs, 0) && Sits(s, ps, offs, 1) && Sits(s, ps, offs, 2) && Sits(s, ps, offs, 3);
    FourParts(s);
  }

  lemma FourParts(s: Str)
    requires |s| == 8 && IsLowerHex(s[0..2]) && IsLowerHex(s[2..4]) && IsLowerHex(s[4..6]) && IsLowerHex(s[6..8])
    ensures IsLowerHex(s)
  {
    assert s == s[0..2] + s[2..4] + s[4..6] + s[6..8];
  }

  /** The code is printed in six places, the sign being one of them. */
  predicate SixPlaces(code: int) {
    -0x10_0000 < code < 0x100_0000
  }

  /** What UnpackMsgId shows for a code: a sign is not read, and leaves zero. */
  function Shown(code: int): Str {
    FixedString(Digits(if code < 0 then 0 else code, 10), 6)
  }

  lemma CodePrinted(code: int)
    requires SixPlaces(code)
    ensures |Hex6(code)| == 6 && (Hex6(code)[0] == 45 <==> code < 0)
    ensures ParseUint(Hex6(code), 16, 0xFF_FFFF) == if code < 0 then 0 else code
  {
    if code < 0 {
      assert Pow(16, 3) == 0x1000 && Pow(16, 5) == 0x10_0000;
      DigitsFit(-code, 16, 5);
    } else {
      SixDigits(code);
    }
  }

  lemma {:induction false} ParseBounded(s: Str, i: nat, n: nat, base: nat, max: nat)
    requires i <= |s| && (base == 10 || base == 16) && n <= max
    ensures ParseUintFrom(s, i, n, base, max) <= max
    decreases |s| - i
  {
    if i < |s| {
      match DigitVal(s[i], base) {
        case None =>
        case Some(d) =>
          if n * base + d <= max {
            ParseBounded(s, i + 1, n * base + d, base, max);
          }
      }
    }
  }

  lemma NumberRead(n: nat)
    ensures ParseUint(Hex6(n), 16, 0xFF_FFFF) == n <==> n < 0x100_0000
  {
    if n < 0x100_0000 {
      SixDigits(n);
    } else {
      ParseBounded(Hex6(n), 0, 0, 16, 0xFF_FFFF);
    }
  }

  /** An id with a code of six places is unpacked to the code, the clock and the number exactly if the number fits. */
  lemma UnpackGen(spId: Str, c: Clock, n: u32)
    requires Possible(c) && SixPlaces(ParseInt24(spId))
    ensures UnpackMsgId(GenMsgID(spId, c, n)) == Some(Parts(Shown(ParseInt24(spId)), c, n)) <==> n < 0x100_0000
  {
    var id, sp, t := GenMsgID(spId, c, n), ParseInt24(spId), Cat(ClockPieces(c));
    CodePrinted(sp);
    NumberRead(n);
    ClockPositions(c);
    Three(Hex6(sp), t, Hex6(n));
    ClockRead(id, c);
  }

  // A code of seven places shifts all that follows by one.

  lemma {:induction false} LeadingOne(s: Str)
    requires AllDigits(s, 16)
    ensures AllDigits([HexDigit(1)] + s, 16) && Value([HexDigit(1)] + s, 16) >= Pow(16, |s|)
    decreases |s|
  {
    var t := [HexDigit(1)] + s;
    if s == [] {
      assert t[..0] == [];
      assert Value(t[..0], 16) == 0;
    } else {
      var front := s[..|s| - 1];
      LeadingOne(front);
      assert t[..|t| - 1] == [HexDigit(1)] + front;
    }
  }

  lemma {:induction false} PowUp(e: nat, f: nat)
    requires e <= f
    ensures Pow(16, e) <= Pow(16, f)
    decreases f
  {
    if e < f {
      PowUp(e, f - 1);
    }
  }

  /** A number of at least six places with a one before it is read as the largest number there is. */
  lemma OverlongRead(n: nat)
    ensures ParseUint([HexDigit(1)] + Hex6(n), 16, 0xFF_FFFF) == 0xFF_FFFF
  {
    var s := [HexDigit(1)] + Hex6(n);
    Hex6Digits(n);
    LeadingOne(Hex6(n));
    PowersUsed();
    PowUp(6, |Hex6(n)|);
    ParseDigits(s, 16, 0xFF_FFFF);
  }

  lemma Hex6Digits(n: nat)
    ensures AllDigits(Hex6(n), 16)
  {
    ValueDigits(n, 16);
  }

  lemma PairRead(a: nat, b: nat)
    requires a < 16 && b < 10
    ensures ParseUint([HexDigit(a), HexDigit(b)], 10, 255) == if a < 10 then 10 * a + b else 0
  {
    var s := [HexDigit(a), HexDigit(b)];
    assert ParseUintFrom(s, 2, 10 * a + b, 10, 255) == 10 * a + b;
    assert a < 10 ==> ParseUintFrom(s, 1, a, 10, 255) == 10 * a + b;
  }

  lemma PairPrinted(m: nat)
    requires m < 100
    ensures Padded(m, 10, 2) == Pair10(m)
  {
    if m < 10 {
      assert Digits(m, 10) == [HexDigit(m)];
      assert seq(1, _ => ZERO) + [HexDigit(m)] == [ZERO, HexDigit(m)];
    } else {
      assert Digits(m / 10, 10) == [HexDigit(m / 10)];
    }
  }

  /** The bytes of a clock: its eight decimal digits. */
  predicate ClockDigits(t: Str, c: Clock)
    requires Possible(c)
  {
    && |t| == 8
    && t[0..2] == Pair10(c.month) && t[2..4] == Pair10(c.day) && t[4..6] == Pair10(c.hour) && t[6..8] == Pair10(c.min)
  }

  function Pair10(m: nat): Str
    requires m < 100
  {
    [HexDigit(m / 10), HexDigit(m % 10)]
  }

  lemma ClockHasDigits(c: Clock)
    requires Possible(c)
    ensures ClockDigits(Cat(ClockPieces(c)), c)
  {
    ClockPositions(c);
    PairPrinted(c.month);
    PairPrinted(c.day);
    PairPrinted(c.hour);
    PairPrinted(c.min);
  }

  /** A code of seven places: a sign and six digits, of which the last comes where a month should begin. */
  lemma SevenPlaces(code: int)
    requires -0x80_0000 <= code <= -0x10_0000
    ensures |Hex6(code)| == 7 && Hex6(code)[6] == HexDigit(-code % 16)
  {
    var v := -code;
    assert Pow(16, 5) == 0x10_0000 by {
      assert Pow(16, 3) == 0x1000;
    }
    PowersUsed();
    DigitsFit(v, 16, 6);
    DigitsExceed(v, 16, 5);
    assert Padded(v, 16, 5) == Digits(v, 16);
  }

  /** What is read one place too late. */
  predicate ReadLate(parts: Parts, x: nat, c: Clock)
    requires x < 16
  {
    && parts.clock.month == (if x < 10 then 10 * x + c.month / 10 else 0)
    && parts.clock.day == 10 * (c.month % 10) + c.day / 10
    && parts.clock.hour == 10 * (c.day % 10) + c.hour / 10
    && parts.clock.min == 10 * (c.hour % 10) + c.min / 10
  }

  lemma ShiftedClock(id: Str, x: nat, c: Clock)
    requires Possible(c) && x < 16 && |id| >= 15 && id[6] == HexDigit(x) && ClockDigits(id[7..15], c)
    ensures ReadLate(UnpackMsgId(id).value, x, c)
  {
    var t := id[7..15];
    assert id[7] == t[0] && id[8] == t[1] && id[9] == t[2] && id[10] == t[3];
    assert id[11] == t[4] && id[12] == t[5] && id[13] == t[6];
    assert t[0] == t[0..2][0] && t[1] == t[0..2][1] && t[2] == t[2..4][0] && t[3] == t[2..4][1];
    assert t[4] == t[4..6][0] && t[5] == t[4..6][1] && t[6] == t[6..8][0];
    assert id[6..8] == [HexDigit(x), HexDigit(c.month / 10)];
    assert id[8..10] == [HexDigit(c.month % 10), HexDigit(c.day / 10)];
    assert id[10..12] == [HexDigit(c.day % 10), HexDigit(c.hour / 10)];
    assert id[12..14] == [HexDigit(c.hour % 10), HexDigit(c.min / 10)];
    PairRead(x, c.month / 10);
    PairRead(c.month % 10, c.day / 10);
    PairRead(c.day % 10, c.hour / 10);
    PairRead(c.hour % 10, c.min / 10);
  }

  lemma OnlyElevens(parts: Parts, x: nat, c: Clock)
    requires Possible(c) && x < 16 && ReadLate(parts, x, c)
    ensures parts.clock == c <==> x == 1 && c == Clock(11, 11, 11, 11)
  {
    if parts.clock == c {
      assert x == c.month / 10 && c.month / 10 == c.month % 10;
      assert c.month == 11;
    }
  }

  /** Such an id still gives back the clock and the number in one case only: at eleven past eleven on the eleventh of
      November, for the largest number, and a code whose last digit is one. */
  lemma UnpackShifted(spId: Str, c: Clock, n: u32)
    requires Possible(c) && !SixPlaces(ParseInt24(spId))
    ensures UnpackMsgId(GenMsgID(spId, c, n)).Some?
    ensures var parts := UnpackMsgId(GenMsgID(spId, c, n)).value;
            parts.clock == c && parts.seqNum == n
            <==> -ParseInt24(spId) % 16 == 1 && c == Clock(11, 11, 11, 11) && n == 0xFF_FFFF
  {
    var id, code, t := GenMsgID(spId, c, n), ParseInt24(spId), Cat(ClockPieces(c));
    var x := -code % 16;
    SevenPlaces(code);
    ClockHasDigits(c);
    SevenThenClock(Hex6(code), t, Hex6(n));
    ShiftedClock(id, x, c);
    OnlyElevens(UnpackMsgId(id).value, x, c);
    assert UnpackMsgId(id).value.seqNum == ParseUint(id[14..], 16, 0xFF_FFFF);
    if c == Clock(11, 11, 11, 11) {
      ElevenNumber(t, n);
    }
  }

  lemma ElevenNumber(t: Str, n: nat)
    requires ClockDigits(t, Clock(11, 11, 11, 11))
    ensures ParseUint([t[7]] + Hex6(n), 16, 0xFF_FFFF) == 0xFF_FFFF
  {
    assert t[7] == t[6..8][1] == HexDigit(1);
    OverlongRead(n);
  }

  lemma SevenThenClock(a: Str, t: Str, h: Str)
    requires |a| == 7 && |t| == 8
    ensures var s := a + t + h; s[6] == a[6] && s[7..15] == t && s[14..] == [t[7]] + h
  {}

  /** Where the parts of an id are, and the base in which each is printed. */
  lemma IdLayout(spId: Str, c: Clock, n: u32)
    requires Possible(c) && ParseInt24(spId) >= 0
    ensures var id := GenMsgID(spId, c, n);
            && |id| >= 20
            && Stands(id[0..6], 16, ParseInt24(spId))
            && Stands(id[6..8], 10, c.month) && Stands(id[8..10], 10, c.day)
            && Stands(id[10..12], 10, c.hour) && Stands(id[12..14], 10, c.min)
            && Stands(id[14..], 16, n)
  {
    var id, code, t := GenMsgID(spId, c, n), ParseInt24(spId), Cat(ClockPieces(c));
    SixDigits(code);
    ClockPositions(c);
    Three(Hex6(code), t, Hex6(n));
    PaddedStands(code, 16, 6);
    PaddedStands(n, 16, 6);
    PaddedStands(c.month, 10, 2);
    PaddedStands(c.day, 10, 2);
    PaddedStands(c.hour, 10, 2);
    PaddedStands(c.min, 10, 2);
    ClockSlices(id, c);
    assert id[0..6] == id[..6];
  }

  /** The digits s, read in this base, are the number n. */
  predicate Stands(s: Str, base: nat, n: nat)
    requires base == 10 || base == 16
  {
    AllDigits(s, base) && Value(s, base) == n
  }

  lemma ClockSlices(id: Str, c: Clock)
    requires |id| >= 14 && ClockAt(id[6..14], c)
    ensures id[6..8] == Padded(c.month, 10, 2) && id[8..10] == Padded(c.day, 10, 2)
    ensures id[10..12] == Padded(c.hour, 10, 2) && id[12..14] == Padded(c.min, 10, 2)
  {
    Slice2(id, 6, 14, 0, 2);
    Slice2(id, 6, 14, 2, 4);
    Slice2(id, 6, 14, 4, 6);
    Slice2(id, 6, 14, 6, 8);
  }

  lemma ClockRead(id: Str, c: Clock)
    requires Possible(c) && |id| >= 14 && ClockAt(id[6..14], c)
    ensures ParseUint(id[6..8], 10, 255) == c.month && ParseUint(id[8..10], 10, 255) == c.day
    ensures ParseUint(id[10..12], 10, 255) == c.hour && ParseUint(id[12..14], 10, 255) == c.min
  {
    TwoDigits(c.month);
    TwoDigits(c.day);
    TwoDigits(c.hour);
    TwoDigits(c.min);
    ClockSlices(id, c);
  }

  lemma Three(a: Str, b: Str, c: Str)
    requires |a| == 6 && |b| == 8
    ensures var s := a + b + c; s[..6] == a && s[6..14] == b && s[14..] == c
  {}

  lemma CodeInjective(a: int, b: int)
    requires SixPlaces(a) && SixPlaces(b) && Hex6(a) == Hex6(b)
    ensures a == b
  {
    CodePrinted(a);
    CodePrinted(b);
    if a < 0 {
      MinusInjective(-a, -b);
    }
  }

  lemma MinusInjective(m: int, n: int)
    requires m > 0 && n > 0 && Hex6(-m) == Hex6(-n)
    ensures m == n
  {
    assert Hex6(-m)[1..] == Padded(m, 16, 5) && Hex6(-n)[1..] == Padded(n, 16, 5);
    ParsePadded(m, 16, 5, m + n);
    ParsePadded(n, 16, 5, m + n);
  }

  lemma NumberInjective(n: nat, m: nat)
    requires Hex6(n) == Hex6(m)
    ensures n == m
  {
    ParsePadded(n, 16, 6, n + m);
    ParsePadded(m, 16, 6, n + m);
  }

  lemma ClockInjective(c: Clock, c': Clock)
    requires Possible(c) && Possible(c') && Cat(ClockPieces(c)) == Cat(ClockPieces(c'))
    ensures c == c'
  {
    ClockPositions(c);
    ClockPositions(c');
    TwoDigitsInjective(c.month, c'.month);
    TwoDigitsInjective(c.day, c'.day);
    TwoDigitsInjective(c.hour, c'.hour);
    TwoDigitsInjective(c.min, c'.min);
  }

  lemma TwoDigitsInjective(n: nat, m: nat)
    requires n < 100 && m < 100
    ensures Padded(n, 10, 2) == Padded(m, 10, 2) ==> n == m
  {
    TwoDigits(n);
    TwoDigits(m);
  }

  /** An id with a code of six places determines the code, the clock and the number, whatever the number. */
  lemma GenInjective(spId: Str, c: Clock, n: u32, spId': Str, c': Clock, n': u32)
    requires Possible(c) && SixPlaces(ParseInt24(spId))
    requires Possible(c') && SixPlaces(ParseInt24(spId'))
    ensures GenMsgID(spId, c, n) == GenMsgID(spId', c', n')
            <==> ParseInt24(spId) == ParseInt24(spId') && c == c' && n == n'
  {
    var a, b := ParseInt24(spId), ParseInt24(spId');
    CodePrinted(a);
    CodePrinted(b);
    ClockPositions(c);
    ClockPositions(c');
    Three(Hex6(a), Cat(ClockPieces(c)), Hex6(n));
    Three(Hex6(b), Cat(ClockPieces(c')), Hex6(n'));
    if GenMsgID(spId, c, n) == GenMsgID(spId', c', n') {
      CodeInjective(a, b);
      ClockInjective(c, c');
      NumberInjective(n, n');
    }
  }

  /** The id is twenty lower-case hex digits exactly when the gateway code is not negative and the number fits. */
  lemma TwentyDigits(spId: Str, c: Clock, n: u32)
    requires Possible(c)
    ensures var id := GenMsgID(spId, c, n);
            |id| == 20 && IsLowerHex(id) <==> ParseInt24(spId) >= 0 && n < 0x100_0000
  {
    var sp, t, id := ParseInt24(spId), Cat(ClockPieces(c)), GenMsgID(spId, c, n);
    ClockPositions(c);
    if sp < 0 {
      assert id[0] == 45;
    } else {
      SixDigits(sp);
      if n < 0x100_0000 {
        SixDigits(n);
        Three(Hex6(sp), t, Hex6(n));
        assert id == id[..6] + id[6..14] + id[14..];
      } else {
        SevenDigits(n);
      }
    }
  }

  lemma SevenDigits(n: nat)
    requires n >= 0x100_0000
    ensures |Hex6(n)| > 6
  {
    PowersUsed();
    DigitsExceed(n, 16, 6);
  }

  /** A number from base^width on needs more than width digits. */
  lemma {:induction false} DigitsExceed(n: nat, base: nat, width: nat)
    requires (base == 10 || base == 16) && n >= Pow(base, width)
    ensures |Digits(n, base)| > width
    decreases width
  {
    if width > 0 {
      PowPositive(base, width - 1);
      Quotient(n, base, Pow(base, width - 1));
      DigitsExceed(n / base, base, width - 1);
    }
  }

  lemma Quotient(n: nat, base: nat, p: nat)
    requires (base == 10 || base == 16) && n >= base * p && p >= 1
    ensures n >= base && n / base >= p
  {
    if base == 10 {
      assert n >= 10 * p;
    } else {
      assert n >= 16 * p;
    }
  }

  lemma {:induction false} PowPositive(base: nat, e: nat)
    requires base == 10 || base == 16
    ensures Pow(base, e) >= 1
  {
    if e > 0 {
      PowPositive(base, e - 1);
    }
  }

  lemma {:induction false} ValueBelow(s: Str, base: nat)
    requires (base == 10 || base == 16) && AllDigits(s, base)
    ensures Value(s, base) < Pow(base, |s|)
  {
    if s != [] {
      ValueBelow(s[..|s| - 1], base);
    }
  }

  /** UnpackMsgId shows the gateway code as it was given exactly when it was given as six decimal digits. */
  lemma SpIdRecovered(spId: Str, c: Clock, n: u32)
    ensures UnpackMsgId(GenMsgID(spId, c, n)).Some?
    ensures UnpackMsgId(GenMsgID(spId, c, n)).value.spId == spId <==> |spId| == 6 && AllDigits(spId, 10)
  {
    var id, sp := GenMsgID(spId, c, n), ParseInt24(spId);
    ClockLength(c);
    ShownFirst(sp, id);
    assert UnpackMsgId(id).value.spId == Shown(sp);
    if |spId| == 6 && AllDigits(spId, 10) {
      SixDecimals(spId);
    } else {
      ValueDigits(if sp < 0 then 0 else sp, 10);
      assert AllDigits(Shown(sp), 10);
    }
  }

  lemma Join(a: Str, s: Str)
    ensures AllDigits(a + s, 10) <==> AllDigits(a, 10) && AllDigits(s, 10)
  {
    var t := a + s;
    assert forall i :: 0 <= i < |a| ==> t[i] == a[i];
    assert forall i :: 0 <= i < |s| ==> t[|a| + i] == s[i];
  }

  lemma ValueSnoc(s: Str, b: byte)
    requires AllDigits(s, 10) && DigitVal(b, 10).Some?
    ensures AllDigits(s + [b], 10) && Value(s + [b], 10) == Value(s, 10) * 10 + DigitVal(b, 10).value
  {
    Join(s, [b]);
    var t := s + [b];
    assert t[..|s|] == s && t[|s|] == b;
  }

  lemma {:induction false} ValueSplit(a: Str, s: Str)
    requires AllDigits(a, 10) && AllDigits(s, 10)
    ensures AllDigits(a + s, 10)
    ensures Value(a + s, 10) == Value(a, 10) * Pow(10, |s|) + Value(s, 10)
    decreases |s|
  {
    if s == [] {
      assert a + s == a;
    } else {
      var front, last := s[..|s| - 1], s[|s| - 1];
      ValueSplit(a, front);
      ValueSnoc(a + front, last);
      assert a + s == (a + front) + [last];
      Scale(Value(a, 10), Pow(10, |front|), Value(front, 10));
    }
  }

  lemma Scale(a: nat, p: nat, b: nat)
    ensures (a * p + b) * 10 == a * (10 * p) + b * 10
  {}

  lemma Remainder(a: nat, b: nat)
    requires b < 1000000
    ensures (a * 1000000 + b) % 1000000 == b
  {}

  lemma LastSixDigits(d: Str)
    requires |d| > 6 && AllDigits(d, 10)
    ensures Stands(d[|d| - 6..], 10, Value(d, 10) % 1000000)
  {
    var a, s := d[..|d| - 6], d[|d| - 6..];
    assert d == a + s;
    Join(a, s);
    ValueSplit(a, s);
    ValueBelow(s, 10);
    PowersUsed();
    Remainder(Value(a, 10), Value(s, 10));
  }

  /** What is shown for a code is its last six decimal digits. */
  lemma ShownIsDecimal(code: nat)
    ensures |Shown(code)| == 6 && Stands(Shown(code), 10, code % 1000000)
  {
    var d := Digits(code, 10);
    ValueDigits(code, 10);
    PowersUsed();
    if |d| > 6 {
      LastSixDigits(d);
    } else {
      ValueLeadingZeros(6 - |d|, d, 10);
      ValueBelow(Shown(code), 10);
    }
  }

  lemma ClockLength(c: Clock)
    ensures |Cat(ClockPieces(c))| >= 8
  {
    var ps := ClockPieces(c);
    var offs := [0, |ps[0]|, |ps[0]| + |ps[1]|, |ps[0]| + |ps[1]| + |ps[2]|, |ps[0]| + |ps[1]| + |ps[2]| + |ps[3]|];
    CatAt(ps, offs);
  }

  lemma ShownFirst(code: int, id: Str)
    requires -0x80_0000 <= code < 0x80_0000 && |id| >= 14 && Hex6(code) <= id
    ensures FixedString(Digits(ParseUint(id[..6], 16, 0xFF_FFFF), 10), 6) == Shown(code)
  {
    if code < 0 {
      assert id[..6][0] == 45;
    } else {
      SixDigits(code);
      assert id[..6] == Hex6(code);
    }
  }

  lemma SixDecimals(s: Str)
    requires |s| == 6 && AllDigits(s, 10)
    ensures FixedString(Digits(ParseInt24(s), 10), 6) == s
  {
    var n := Value(s, 10);
    PowersUsed();
    ValueBelow(s, 10);
    ParsedCode(s);
    DigitsFit(n, 10, 6);
    PaddedValue(s);
  }

  lemma DigitOf(b: byte)
    requires DigitVal(b, 10).Some?
    ensures HexDigit(DigitVal(b, 10).value) == b
  {}

  /** Digits printed at their own width come back, leading zeros and all. */
  lemma {:induction false} PaddedValue(s: Str)
    requires s != [] && AllDigits(s, 10)
    ensures Padded(Value(s, 10), 10, |s|) == s
  {
    var k := |s| - 1;
    var front, v, last := s[..k], Value(s[..k], 10), DigitVal(s[k], 10).value;
    DigitOf(s[k]);
    assert s == front + [s[k]];
    if k == 0 {
      assert s == [s[0]];
    } else {
      PaddedValue(front);
      PaddedSnoc(v * 10 + last, |s|);
      assert (v * 10 + last) / 10 == v && (v * 10 + last) % 10 == last;
    }
  }

  lemma PaddedSnoc(n: nat, width: nat)
    requires width >= 2
    ensures Padded(n, 10, width) == Padded(n / 10, 10, width - 1) + [HexDigit(n % 10)]
  {
    var d, e := Digits(n, 10), Digits(n / 10, 10);
    if n < 10 {
      assert e == [ZERO];
      assert Padded(n / 10, 10, width - 1) == seq(width - 1, _ => ZERO);
    } else {
      assert d == e + [HexDigit(n % 10)];
    }
  }

  /** The last six bytes are the sequence number, whatever the rest. */
  lemma LastSix(spId: Str, c: Clock, n: u32)
    requires n < 0x100_0000
    ensures var id := GenMsgID(spId, c, n); |id| >= 6 && id[|id| - 6..] == Hex6(n)
  {
    SixDigits(n);
  }

  /** Of a million consecutive draws no two make the same id, whatever the clock does between them. */
  lemma IdsDistinct(start: nat, j: nat, k: nat, spId: Str, c: Clock, spId': Str, c': Clock)
    requires j < k < j + SEQUENCE_NUMS
    ensures GenMsgID(spId, c, Draw(start, j)) != GenMsgID(spId', c', Draw(start, k))
  {
    var m, n := Draw(start, j), Draw(start, k);
    DrawsRepeat(start, j, k);
    LastSix(spId, c, m);
    LastSix(spId', c', n);
    SixDigits(m);
    SixDigits(n);
  }

  // ---------------------------------------------------------------- the documented form

  /** Decimal digits that are read in base 16 give more than they stand for, from ten on. */
  lemma {:induction false} ReadInHex(s: Str)
    requires AllDigits(s, 10)
    ensures AllDigits(s, 16) && Value(s, 16) >= Value(s, 10)
    ensures Value(s, 10) >= 10 ==> Value(s, 16) > Value(s, 10)
  {
    if s != [] {
      ReadInHex(s[..|s| - 1]);
      assert DigitVal(s[|s| - 1], 16) == DigitVal(s[|s| - 1], 10);
    }
  }

  lemma SameInBoth(v: nat)
    requires v < 1000000
    ensures |Padded(v, 10, 6)| == 6 && (Hex6(v) == Padded(v, 10, 6) <==> v < 10)
  {
    var s := Padded(v, 10, 6);
    PowersUsed();
    DigitsFit(v, 10, 6);
    if v >= 10 {
      SixDigits(v);
      PaddedStands(v, 10, 6);
      ReadInHex(s);
      ParseDigits(s, 16, 0xFF_FFFF);
    }
  }

  /** The documented form of an id: decimal digits for the code and for the number. */
  function Documented(spId: Str, c: Clock, n: nat): Str {
    spId + Cat(ClockPieces(c)) + Padded(n, 10, 6)
  }

  /** An id has the form that is documented exactly if its code and its number are both below ten. */
  lemma DocumentedForm(spId: Str, c: Clock, n: u32)
    requires Possible(c) && |spId| == 6 && AllDigits(spId, 10) && n < 1000000
    ensures GenMsgID(spId, c, n) == Documented(spId, c, n) <==> Value(spId, 10) < 10 && n < 10
  {
    var v, t := Value(spId, 10), Cat(ClockPieces(c));
    PowersUsed();
    ValueBelow(spId, 10);
    PaddedValue(spId);
    ParsedCode(spId);
    SameInBoth(v);
    SameInBoth(n);
    SixDigits(v);
    ClockPositions(c);
    Three(Hex6(v), t, Hex6(n));
    Three(spId, t, Padded(n, 10, 6));
  }

  lemma ParsedCode(s: Str)
    requires |s| == 6 && AllDigits(s, 10)
    ensures ParseInt24(s) == Value(s, 10)
  {
    PowersUsed();
    ValueBelow(s, 10);
    assert s[..0] == [];
    ParseValue(s, 0, 10, 0xFF_FFFF);
  }

  /** The documentation's own example, code 010061 and number 12345 on January 16 at 17:00, comes out otherwise. */
  lemma DocumentedExampleFails()
    ensures var c := Clock(1, 16, 17, 0);
            GenMsgID(Ascii("010061"), c, 12345) != Documented(Ascii("010061"), c, 12345)
  {
    DocumentedForm(Ascii("010061"), Clock(1, 16, 17, 0), 12345);
  }

  /** What it is instead, and what it should be. */
  lemma DocumentedExample()
    ensures GenMsgID(Ascii("010061"), Clock(1, 16, 17, 0), 12345)
            == Ascii("00274d") + Ascii("01161700") + Ascii("003039")
    ensures Documented(Ascii("010061"), Clock(1, 16, 17, 0), 12345)
            == Ascii("010061") + Ascii("01161700") + Ascii("012345")
  {
    CodeRead();
    ExampleCode();
    ExampleClock();
    ExampleNumber();
    ExampleDecimal();
  }

  lemma DigitsStep(n: nat, base: nat)
    requires (base == 10 || base == 16) && n >= base
    ensures Digits(n, base) == Digits(n / base, base) + [HexDigit(n % base)]
  {}

  lemma PaddedBy(n: nat, base: nat, width: nat, zeros: Str)
    requires base == 10 || base == 16
    requires |zeros| + |Digits(n, base)| == width && forall i :: 0 <= i < |zeros| ==> zeros[i] == ZERO
    ensures Padded(n, base, width) == zeros + Digits(n, base)
  {
    if zeros != [] {
      assert zeros == seq(width - |Digits(n, base)|, _ => ZERO);
    }
  }

  lemma ExampleCode()
    ensures Hex6(10061) == Ascii("00274d")
  {
    DigitsStep(39, 16);
    DigitsStep(628, 16);
    DigitsStep(10061, 16);
    var d := Digits(10061, 16);
    assert d == [50] + [55] + [52] + [100];
    PaddedBy(10061, 16, 6, [48, 48]);
    assert [48, 48] + d == Ascii("00274d");
  }

  lemma CodeRead()
    ensures ParseInt24(Ascii("010061")) == 10061
  {
    CodePadded();
    PaddedStands(10061, 10, 6);
    ParseIntReads(Padded(10061, 10, 6));
  }

  lemma CodePadded()
    ensures Padded(10061, 10, 6) == Ascii("010061")
  {
    DigitsStep(10, 10);
    DigitsStep(100, 10);
    DigitsStep(1006, 10);
    DigitsStep(10061, 10);
    var d := Digits(10061, 10);
    assert d == [49] + [48] + [48] + [54] + [49];
    PaddedBy(10061, 10, 6, [48]);
    assert [48] + d == Ascii("010061");
  }

  lemma ExampleClock()
    ensures Cat(ClockPieces(Clock(1, 16, 17, 0))) == Ascii("01161700")
  {
    var c := Clock(1, 16, 17, 0);
    ClockHasDigits(c);
    var t := Cat(ClockPieces(c));
    assert t == t[0..2] + t[2..4] + t[4..6] + t[6..8];
  }

  lemma ExampleNumber()
    ensures Hex6(12345) == Ascii("003039")
  {
    DigitsStep(48, 16);
    DigitsStep(771, 16);
    DigitsStep(12345, 16);
    var d := Digits(12345, 16);
    assert d == [51] + [48] + [51] + [57];
    PaddedBy(12345, 16, 6, [48, 48]);
    assert [48, 48] + d == Ascii("003039");
  }

  lemma ExampleDecimal()
    ensures Padded(12345, 10, 6) == Ascii("012345")
  {
    DigitsStep(12, 10);
    DigitsStep(123, 10);
    DigitsStep(1234, 10);
    DigitsStep(12345, 10);
    var d := Digits(12345, 10);
    assert d == [49] + [50] + [51] + [52] + [53];
    PaddedBy(12345, 10, 6, [48]);
    assert [48] + d == Ascii("012345");
  }
}
