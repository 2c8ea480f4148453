/** The text of a status report, as it travels in a Deliver request. */
module Report {
  import opened Bytes
  import opened Text

  /** SmgpDeliverMsgContent. */
  datatype Report = Report(
    submitMsgId: Str, sub: Str, dlvrd: Str, submitDate: Str, doneDate: Str, stat: Str, err: Str, txt: Str)

  function FirstPieces(p: Report): seq<Str> {
    [Ascii("id:"), HexDecode(p.submitMsgId), Ascii(" sub:"), p.sub, Ascii(" dlvrd:"), p.dlvrd]
  }

  function MiddlePieces(p: Report): seq<Str> {
    [Ascii(" submit_date:"), p.submitDate, Ascii(" done_date:"), p.doneDate]
  }

  function LastPieces(p: Report): seq<Str> {
    [Ascii(" stat:"), p.stat, Ascii(" err:"), p.err, Ascii(" text:"), p.txt]
  }

  function Encode(p: Report): Str {
    Cat(FirstPieces(p)) + Cat(MiddlePieces(p)) + Cat(LastPieces(p))
  }

  /** DecodeDeliverMsgContent: fixed positions, and a panic (None) when the data is too short for them. */
  function Decode(data: Str): Option<Report> {
    if |data| < 102 then None
    else Some(Report(HexEncode(data[3..13]), data[18..21], data[28..31], data[44..54], data[65..75],
                     data[81..88], data[93..96], data[102..]))
  }

  /** The field widths that the fixed positions stand for. */
  predicate Standard(p: Report) {
    && |p.submitMsgId| == 20 && IsLowerHex(p.submitMsgId)
    && |p.sub| == 3 && |p.dlvrd| == 3 && |p.submitDate| == 10 && |p.doneDate| == 10 && |p.stat| == 7 && |p.err| == 3
  }

  /** The literal parts of the format are where they belong. */
  predicate Literals(d: Str) {
    && |d| >= 102
    && d[0..3] == Ascii("id:") && d[13..18] == Ascii(" sub:") && d[21..28] == Ascii(" dlvrd:")
    && d[31..44] == Ascii(" submit_date:") && d[54..65] == Ascii(" done_date:")
    && d[75..81] == Ascii(" stat:") && d[88..93] == Ascii(" err:") && d[96..102] == Ascii(" text:")
  }

  /** d is the report p written out: the literals, and the fields between them. */
  predicate Spells(d: Str, p: Report) {
    |d| >= 102 && FirstAt(d, p) && MiddleAt(d, p) && LastAt(d, p)
  }

  predicate FirstAre(h: Str, p: Report) {
    && |h| == 31
    && h[0..3] == Ascii("id:") && h[3..13] == HexDecode(p.submitMsgId) && h[13..18] == Ascii(" sub:")
    && h[18..21] == p.sub && h[21..28] == Ascii(" dlvrd:") && h[28..31] == p.dlvrd
  }

  predicate MiddleAre(h: Str, p: Report) {
    && |h| == 44
    && h[0..13] == Ascii(" submit_date:") && h[13..23] == p.submitDate
    && h[23..34] == Ascii(" done_date:") && h[34..44] == p.doneDate
  }

  predicate LastAre(h: Str, p: Report) {
    && |h| == 27 + |p.txt|
    && h[0..6] == Ascii(" stat:") && h[6..13] == p.stat && h[13..18] == Ascii(" err:")
    && h[18..21] == p.err && h[21..27] == Ascii(" text:") && h[27..27 + |p.txt|] == p.txt
  }

  lemma FirstExactly(h: Str, p: Report)
    requires Standard(p) && |HexDecode(p.submitMsgId)| == 10
    ensures FirstAre(h, p) <==> h == Cat(FirstPieces(p))
  {
    var ps, offs := FirstPieces(p), [0, 3, 13, 18, 21, 28, 31];
    if FirstAre(h, p) {
      CatIs(h, ps, offs);
    }
    CatAt(ps, offs);
    var c := Cat(ps);
    assert Sits(c, ps, offs, 0) && Sits(c, ps, offs, 1) && Sits(c, ps, offs, 2);
    assert Sits(c, ps, offs, 3) && Sits(c, ps, offs, 4) && Sits(c, ps, offs, 5);
  }

  lemma MiddleExactly(h: Str, p: Report)
    requires Standard(p)
    ensures MiddleAre(h, p) <==> h == Cat(MiddlePieces(p))
  {
    var ps, offs := MiddlePieces(p), [0, 13, 23, 34, 44];
    if MiddleAre(h, p) {
      CatIs(h, ps, offs);
    }
    CatAt(ps, offs);
    var c := Cat(ps);
    assert Sits(c, ps, offs, 0) && Sits(c, ps, offs, 1) && Sits(c, ps, offs, 2) && Sits(c, ps, offs, 3);
  }

  lemma LastExactly(h: Str, p: Report)
    requires Standard(p)
    ensures LastAre(h, p) <==> h == Cat(LastPieces(p))
  {
    var ps, offs := LastPieces(p), [0, 6, 13, 18, 21, 27, 27 + |p.txt|];
    if LastAre(h, p) {
      CatIs(h, ps, offs);
    }
    CatAt(ps, offs);
    var c := Cat(ps);
    assert Sits(c, ps, offs, 0) && Sits(c, ps, offs, 1) && Sits(c, ps, offs, 2);
    assert Sits(c, ps, offs, 3) && Sits(c, ps, offs, 4) && Sits(c, ps, offs, 5);
  }

  predicate FirstAt(d: Str, p: Report)
    requires |d| >= 102
  {
    && d[0..3] == Ascii("id:") && d[3..13] == HexDecode(p.submitMsgId) && d[13..18] == Ascii(" sub:")
    && d[18..21] == p.sub && d[21..28] == Ascii(" dlvrd:") && d[28..31] == p.dlvrd
  }

  predicate MiddleAt(d: Str, p: Report)
    requires |d| >= 102
  {
    && d[31..44] == Ascii(" submit_date:") && d[44..54] == p.submitDate
    && d[54..65] == Ascii(" done_date:") && d[65..75] == p.doneDate
  }

  predicate LastAt(d: Str, p: Report)
    requires |d| >= 102
  {
    && d[75..81] == Ascii(" stat:") && d[81..88] == p.stat && d[88..93] == Ascii(" err:")
    && d[93..96] == p.err && d[96..102] == Ascii(" text:") && d[102..] == p.txt
  }

  lemma FirstGroup(d: Str, p: Report)
    requires |d| >= 102
    ensures FirstAt(d, p) <==> FirstAre(d[0..31], p)
  {
    Slice2(d, 0, 31, 0, 3);
    Slice2(d, 0, 31, 3, 13);
    Slice2(d, 0, 31, 13, 18);
    Slice2(d, 0, 31, 18, 21);
    Slice2(d, 0, 31, 21, 28);
    Slice2(d, 0, 31, 28, 31);
  }

  lemma MiddleGroup(d: Str, p: Report)
    requires |d| >= 102
    ensures MiddleAt(d, p) <==> MiddleAre(d[31..75], p)
  {
    Slice2(d, 31, 75, 0, 13);
    Slice2(d, 31, 75, 13, 23);
    Slice2(d, 31, 75, 23, 34);
    Slice2(d, 31, 75, 34, 44);
  }

  lemma LastGroup(d: Str, p: Report)
    requires |d| >= 102
    ensures LastAt(d, p) <==> LastAre(d[75..], p)
  {
    assert d[75..] == d[75..|d|] && d[102..] == d[102..|d|];
    Slice2(d, 75, |d|, 0, 6);
    Slice2(d, 75, |d|, 6, 13);
    Slice2(d, 75, |d|, 13, 18);
    Slice2(d, 75, |d|, 18, 21);
    Slice2(d, 75, |d|, 21, 27);
    Slice2(d, 75, |d|, 27, |d| - 75);
  }

  /** For fields of the standard widths, the bytes that spell the report are the ones Encode writes. */
  lemma SpellsIsEncode(d: Str, p: Report)
    requires Standard(p)
    ensures Spells(d, p) <==> d == Encode(p)
  {
    HexLossless(p.submitMsgId);
    var e, f, g := Cat(FirstPieces(p)), Cat(MiddlePieces(p)), Cat(LastPieces(p));
    FirstExactly(e, p);
    MiddleExactly(f, p);
    LastExactly(g, p);
    if d == Encode(p) || Spells(d, p) {
      FirstGroup(d, p);
      MiddleGroup(d, p);
      LastGroup(d, p);
      FirstExactly(d[0..31], p);
      MiddleExactly(d[31..75], p);
      LastExactly(d[75..], p);
      assert d == d[0..31] + d[31..75] + d[75..];
    }
  }

  /** Decoding what was encoded gives the report back exactly when its fields have the standard widths. */
  lemma DecodeEncodeExactly(p: Report)
    ensures Decode(Encode(p)) == Some(p) <==> Standard(p)
  {
    if Standard(p) {
      SpellsIsEncode(Encode(p), p);
      HexLossless(p.submitMsgId);
    } else if Decode(Encode(p)) == Some(p) {
      HexIsLower(Encode(p)[3..13]);
    }
  }

  /** Encoding what was decoded gives the data back exactly when the data carries the literals. */
  lemma EncodeDecodeExactly(d: Str)
    requires Decode(d).Some?
    ensures Encode(Decode(d).value) == d <==> Literals(d)
  {
    var p := Decode(d).value;
    HexIsLower(d[3..13]);
    HexDecodeEncode(d[3..13]);
    SpellsIsEncode(d, p);
  }
}
