/** The Submit request: its layout on the wire, the places of its fields in a body, and Pack/Unpack. */
module Submit {
  import opened Bytes
  import opened Results
  import opened Slices
  import opened Options
  import opened PacketIo

  const SMGP_SUBMIT: u32 := 2

  /** Everything but the optional parameters. */
  datatype Fields = Fields(
    msgType: byte, needReport: byte, priority: byte,
    serviceId: Str, feeType: Str, feeCode: Str, fixedFee: Str, msgFormat: byte,
    validTime: Str, atTime: Str, srcTermId: Str, chargeTermId: Str,
    destTermIdCount: byte, destTermId: seq<Str>,
    msgLength: byte, msgContent: Str, reserve: Str,
    sequenceId: u32)

  datatype Submit = Submit(fields: Fields, options: Options)

  // ---------------------------------------------------------------- the bytes a Submit is packed to

  function Flags(f: Fields): seq<Str> {
    [[f.msgType], [f.needReport], [f.priority]]
  }

  function Fees(f: Fields): seq<Str> {
    [Octet(f.serviceId, 10), Octet(f.feeType, 2), Octet(f.feeCode, 6), Octet(f.fixedFee, 6), [f.msgFormat]]
  }

  function Terms(f: Fields): seq<Str> {
    [Octet(f.validTime, 17), Octet(f.atTime, 17), Octet(f.srcTermId, 21), Octet(f.chargeTermId, 21),
     [f.destTermIdCount]]
  }

  function Dests(ds: seq<Str>): (ps: seq<Str>)
    ensures |ps| == |ds|
  {
    seq(|ds|, i requires 0 <= i < |ds| => Octet(ds[i], 21))
  }

  function Tail(f: Fields): seq<Str> {
    [[f.msgLength], f.msgContent, Octet(f.reserve, 8)]
  }

  function Body(f: Fields, ts: seq<Tlv>): Str {
    Cat(Flags(f)) + Cat(Fees(f)) + Cat(Terms(f)) + Cat(Dests(f.destTermId)) + Cat(Tail(f)) + Serialize(ts)
  }

  ghost function Declared(p: Submit): nat {
    HEADER_LEN + 114 + p.fields.destTermIdCount * 21 + p.fields.msgLength + SumLen(p.options)
  }

  predicate HeadFits(f: Fields) {
    && |f.serviceId| <= 10 && |f.feeType| <= 2 && |f.feeCode| <= 6 && |f.fixedFee| <= 6
    && |f.validTime| <= 17 && |f.atTime| <= 17 && |f.srcTermId| <= 21 && |f.chargeTermId| <= 21
  }

  predicate DestsFit(ds: seq<Str>) {
    forall i :: 0 <= i < |ds| ==> |ds[i]| <= 21
  }

  /** Every fixed-width field is short enough. */
  predicate Fits(f: Fields) {
    HeadFits(f) && DestsFit(f.destTermId) && |f.reserve| <= 8
  }

  /** What Pack returns when it ranges over the options in the given order. */
  ghost function Packed(p: Submit, order: seq<u16>): Outcome<Str>
    requires IsOrder(order, p.options)
  {
    if Fits(p.fields) then
      Ok(Header(ToU32(Declared(p)), SMGP_SUBMIT, p.fields.sequenceId) + Body(p.fields, InOrder(p.options, order)))
    else Err(MethodParamsInvalid)
  }

  // ---------------------------------------------------------------- where the fields of a body are

  /** The number of bytes before the options: the value that the hand-kept offset ends at. */
  function OptionsOffset(d: Str): nat {
    if |d| <= 104 then 114
    else
      var m := 105 + 21 * d[104] as int;
      if |d| <= m then m + 9 else m + 1 + d[m] + 8
  }

  predicate Complete(d: Str) {
    OptionsOffset(d) <= |d|
  }

  function DestAt(d: Str, i: nat): Str
    requires 126 + 21 * i <= |d|
  {
    Cut(d[105 + 21 * i..126 + 21 * i])
  }

  function DestsAt(d: Str, n: nat): (ds: seq<Str>)
    requires 105 + 21 * n <= |d|
    ensures |ds| == n
  {
    seq(n, i requires 0 <= i < n => DestAt(d, i))
  }

  /** The fields of a complete body, each read off its own place. */
  function FieldsAt(d: Str, sequenceId: u32): Fields
    requires Complete(d)
  {
    var n := d[104] as int;
    var m := 105 + 21 * n;
    Fields(d[0], d[1], d[2], Cut(d[3..13]), Cut(d[13..15]), Cut(d[15..21]), Cut(d[21..27]), d[27],
           Cut(d[28..45]), Cut(d[45..62]), Cut(d[62..83]), Cut(d[83..104]),
           n, DestsAt(d, n),
           d[m], d[m + 1..m + 1 + d[m]], Cut(d[m + 1 + d[m]..m + 1 + d[m] + 8]),
           sequenceId)
  }

  /** What Unpack makes of a body: a truncated body panics, malformed options are an error. */
  function Unpacked(d: Str, sequenceId: u32): Outcome<Submit> {
    if !Complete(d) then Panic
    else match Parse(d[OptionsOffset(d)..]) {
      case Ok(m) => Ok(Submit(FieldsAt(d, sequenceId), m))
      case Err(e) => Err(e)
      case Panic => Panic
    }
  }

  predicate FeesRead(d: Str, f: Fields) {
    && |d| >= 28
    && f.msgType == d[0] && f.needReport == d[1] && f.priority == d[2]
    && f.serviceId == Cut(d[3..13]) && f.feeType == Cut(d[13..15])
    && f.feeCode == Cut(d[15..21]) && f.fixedFee == Cut(d[21..27]) && f.msgFormat == d[27]
  }

  predicate TermsRead(d: Str, f: Fields) {
    && |d| >= 105
    && f.validTime == Cut(d[28..45]) && f.atTime == Cut(d[45..62])
    && f.srcTermId == Cut(d[62..83]) && f.chargeTermId == Cut(d[83..104])
    && f.destTermIdCount == d[104]
  }

  predicate DestsRead(d: Str, f: Fields) {
    && f.destTermIdCount == |f.destTermId|
    && 105 + 21 * |f.destTermId| <= |d| && f.destTermId == DestsAt(d, |f.destTermId|)
  }

  predicate TailRead(d: Str, f: Fields) {
    var m, c := 105 + 21 * |f.destTermId|, |f.msgContent|;
    && m + 1 + c + 8 <= |d|
    && f.msgLength == d[m] == c && f.msgContent == d[m + 1..m + 1 + c]
    && f.reserve == Cut(d[m + 1 + c..m + 1 + c + 8])
  }

  lemma ReadFields(d: Str, f: Fields)
    requires FeesRead(d, f) && TermsRead(d, f) && DestsRead(d, f) && TailRead(d, f)
    ensures Complete(d) && OptionsOffset(d) == 105 + 21 * |f.destTermId| + 1 + |f.msgContent| + 8
    ensures FieldsAt(d, f.sequenceId) == f
  {}

  // ---------------------------------------------------------------- round trip

  /** Exactly the packets that survive the trip: zero-free fields that fit, true counts, well-formed options. */
  predicate Faithful(p: Submit) {
    FaithfulFields(p.fields) && WellFormed(p.options)
  }

  predicate FaithfulFields(f: Fields) {
    && Fits(f)
    && NoZero(f.serviceId) && NoZero(f.feeType) && NoZero(f.feeCode) && NoZero(f.fixedFee)
    && NoZero(f.validTime) && NoZero(f.atTime) && NoZero(f.srcTermId) && NoZero(f.chargeTermId)
    && (forall i :: 0 <= i < |f.destTermId| ==> NoZero(f.destTermId[i]))
    && NoZero(f.reserve)
    && f.destTermIdCount == |f.destTermId| && f.msgLength == |f.msgContent|
  }

  predicate FlagsAre(h: Str, f: Fields) {
    h == [f.msgType, f.needReport, f.priority]
  }

  predicate FeesAre(h: Str, f: Fields) {
    && |h| == 25
    && h[0..10] == Octet(f.serviceId, 10) && h[10..12] == Octet(f.feeType, 2)
    && h[12..18] == Octet(f.feeCode, 6) && h[18..24] == Octet(f.fixedFee, 6) && h[24..25] == [f.msgFormat]
  }

  predicate TermsAre(h: Str, f: Fields) {
    && |h| == 77
    && h[0..17] == Octet(f.validTime, 17) && h[17..34] == Octet(f.atTime, 17)
    && h[34..55] == Octet(f.srcTermId, 21) && h[55..76] == Octet(f.chargeTermId, 21)
    && h[76..77] == [f.destTermIdCount]
  }

  predicate TailIs(t: Str, f: Fields) {
    var n := |f.msgContent|;
    && |t| == 1 + n + 8 && t[0..1] == [f.msgLength]
    && t[1..1 + n] == f.msgContent && t[1 + n..1 + n + 8] == Octet(f.reserve, 8)
  }

  lemma FlagsPositions(f: Fields)
    ensures FlagsAre(Cat(Flags(f)), f)
  {
    Chain3([], [f.msgType], [f.needReport], [f.priority]);
    assert [] + [f.msgType] + [f.needReport] + [f.priority] == [f.msgType, f.needReport, f.priority];
    assert [] + Cat(Flags(f)) == Cat(Flags(f));
  }

  lemma FeesPositions(f: Fields)
    ensures FeesAre(Cat(Fees(f)), f)
  {
    var offs := [0, 10, 12, 18, 24, 25];
    CatAt(Fees(f), offs);
    var h := Cat(Fees(f));
    assert Sits(h, Fees(f), offs, 0) && Sits(h, Fees(f), offs, 1) && Sits(h, Fees(f), offs, 2);
    assert Sits(h, Fees(f), offs, 3) && Sits(h, Fees(f), offs, 4);
  }

  lemma TermsPositions(f: Fields)
    ensures TermsAre(Cat(Terms(f)), f)
  {
    var offs := [0, 17, 34, 55, 76, 77];
    CatAt(Terms(f), offs);
    var h := Cat(Terms(f));
    assert Sits(h, Terms(f), offs, 0) && Sits(h, Terms(f), offs, 1) && Sits(h, Terms(f), offs, 2);
    assert Sits(h, Terms(f), offs, 3) && Sits(h, Terms(f), offs, 4);
  }

  lemma TailPositions(f: Fields)
    ensures TailIs(Cat(Tail(f)), f)
  {
    var offs := [0, 1, 1 + |f.msgContent|, 1 + |f.msgContent| + 8];
    CatAt(Tail(f), offs);
    var t := Cat(Tail(f));
    assert Sits(t, Tail(f), offs, 0) && Sits(t, Tail(f), offs, 1) && Sits(t, Tail(f), offs, 2);
  }

  lemma DestsPositions(ds: seq<Str>)
    ensures |Cat(Dests(ds))| == 21 * |ds|
    ensures forall i :: 0 <= i < |ds| ==> Cat(Dests(ds))[21 * i..21 * i + 21] == Dests(ds)[i]
  {
    var offs := seq(|ds| + 1, i => 21 * i);
    CatAt(Dests(ds), offs);
    forall i | 0 <= i < |ds|
      ensures Cat(Dests(ds))[21 * i..21 * i + 21] == Dests(ds)[i]
    {
      assert Sits(Cat(Dests(ds)), Dests(ds), offs, i);
    }
  }

  /** A body is its parts and its options, laid end to end. */
  lemma BodyParts(f: Fields, ts: seq<Tlv>)
    ensures var d, n, c := Body(f, ts), |f.destTermId|, |f.msgContent|;
            var m := 105 + 21 * n;
            && |d| == m + 1 + c + 8 + |Serialize(ts)|
            && FlagsAre(d[0..3], f) && FeesAre(d[3..28], f) && TermsAre(d[28..105], f)
            && d[105..m] == Cat(Dests(f.destTermId))
            && TailIs(d[m..m + 1 + c + 8], f) && d[m + 1 + c + 8..] == Serialize(ts)
  {
    FlagsPositions(f);
    FeesPositions(f);
    TermsPositions(f);
    DestsPositions(f.destTermId);
    TailPositions(f);
    EndToEnd(Cat(Flags(f)), Cat(Fees(f)), Cat(Terms(f)), Cat(Dests(f.destTermId)), Cat(Tail(f)), Serialize(ts));
  }

  lemma EndToEnd(a: Str, b: Str, c: Str, d: Str, e: Str, g: Str)
    requires |a| == 3 && |b| == 25 && |c| == 77
    ensures var s, m := a + b + c + d + e + g, 105 + |d|;
            && s[0..3] == a && s[3..28] == b && s[28..105] == c && s[105..m] == d
            && s[m..m + |e|] == e && s[m + |e|..] == g
  {}

  lemma ReadFees(d: Str, f: Fields)
    requires FaithfulFields(f) && |d| >= 105 && FlagsAre(d[0..3], f) && FeesAre(d[3..28], f)
    ensures FeesRead(d, f)
  {
    assert d[0] == d[0..3][0] && d[1] == d[0..3][1] && d[2] == d[0..3][2];
    Slice2(d, 3, 28, 0, 10);
    Slice2(d, 3, 28, 10, 12);
    Slice2(d, 3, 28, 12, 18);
    Slice2(d, 3, 28, 18, 24);
    assert d[27] == d[3..28][24..25][0];
    CutOctet(f.serviceId, 10);
    CutOctet(f.feeType, 2);
    CutOctet(f.feeCode, 6);
    CutOctet(f.fixedFee, 6);
  }

  lemma ReadTerms(d: Str, f: Fields)
    requires FaithfulFields(f) && |d| >= 105 && TermsAre(d[28..105], f)
    ensures TermsRead(d, f)
  {
    Slice2(d, 28, 105, 0, 17);
    Slice2(d, 28, 105, 17, 34);
    Slice2(d, 28, 105, 34, 55);
    Slice2(d, 28, 105, 55, 76);
    assert d[104] == d[28..105][76..77][0];
    CutOctet(f.validTime, 17);
    CutOctet(f.atTime, 17);
    CutOctet(f.srcTermId, 21);
    CutOctet(f.chargeTermId, 21);
  }

  lemma ReadDests(d: Str, f: Fields)
    requires FaithfulFields(f) && 105 + 21 * |f.destTermId| <= |d|
    requires d[105..105 + 21 * |f.destTermId|] == Cat(Dests(f.destTermId))
    ensures DestsRead(d, f)
  {
    forall i | 0 <= i < |f.destTermId|
      ensures DestAt(d, i) == f.destTermId[i]
    {
      ReadDest(d, f.destTermId, i);
    }
  }

  lemma ReadDest(d: Str, ds: seq<Str>, i: nat)
    requires i < |ds| && |ds[i]| <= 21 && NoZero(ds[i])
    requires 105 + 21 * |ds| <= |d| && d[105..105 + 21 * |ds|] == Cat(Dests(ds))
    ensures DestAt(d, i) == ds[i]
  {
    DestsPositions(ds);
    Slice2(d, 105, 105 + 21 * |ds|, 21 * i, 21 * i + 21);
    assert d[105 + 21 * i..126 + 21 * i] == Dests(ds)[i];
    CutOctet(ds[i], 21);
  }

  lemma ReadTail(d: Str, f: Fields)
    requires FaithfulFields(f)
    requires var m, c := 105 + 21 * |f.destTermId|, |f.msgContent|;
             m + 1 + c + 8 <= |d| && TailIs(d[m..m + 1 + c + 8], f)
    ensures TailRead(d, f)
  {
    var m, c := 105 + 21 * |f.destTermId|, |f.msgContent|;
    assert d[m] == d[m..m + 1 + c + 8][0..1][0];
    Slice2(d, m, m + 1 + c + 8, 1, 1 + c);
    Slice2(d, m, m + 1 + c + 8, 1 + c, 1 + c + 8);
    CutOctet(f.reserve, 8);
  }

  /** A body is unpacked to the packet it was packed from, for every order of the options. */
  lemma RoundTrip(p: Submit, order: seq<u16>)
    requires Faithful(p) && IsOrder(order, p.options)
    ensures Unpacked(Body(p.fields, InOrder(p.options, order)), p.fields.sequenceId) == Ok(p)
  {
    var f, ts := p.fields, InOrder(p.options, order);
    var d := Body(f, ts);
    BodyParts(f, ts);
    ReadFees(d, f);
    ReadTerms(d, f);
    ReadDests(d, f);
    ReadTail(d, f);
    ReadFields(d, f);
    ParseSerialized(p.options, order);
  }

  lemma FieldsAreFaithful(d: Str, sequenceId: u32)
    requires Complete(d)
    ensures FaithfulFields(FieldsAt(d, sequenceId))
  {}

  /** The packets that survive Pack and Unpack are exactly the faithful ones, whatever the order of the options. */
  lemma RoundTripExactly(p: Submit, order: seq<u16>)
    requires IsOrder(order, p.options)
    ensures Unpacked(Body(p.fields, InOrder(p.options, order)), p.fields.sequenceId) == Ok(p) <==> Faithful(p)
  {
    var d := Body(p.fields, InOrder(p.options, order));
    if Faithful(p) {
      RoundTrip(p, order);
    } else if Unpacked(d, p.fields.sequenceId) == Ok(p) {
      FieldsAreFaithful(d, p.fields.sequenceId);
      ParseIsWellFormed(d[OptionsOffset(d)..]);
    }
  }

  /** The header states the real length, for every order of the options, exactly when the declared total does and fits
      in 32 bits; the declared total is the real one exactly when the counts and lengths that it adds up are. */
  lemma HeaderLengthExact(p: Submit, order: seq<u16>)
    requires IsOrder(order, p.options) && Fits(p.fields)
    ensures var w, f := Packed(p, order).value, p.fields;
            && (U32At(w, 0) == |w| <==> |w| < 0x1_0000_0000 && Declared(p) % 0x1_0000_0000 == |w|)
            && (Declared(p) == |w| <==>
                  21 * f.destTermIdCount + f.msgLength + SumLen(p.options) ==
                  21 * |f.destTermId| + |f.msgContent| + |Serialize(InOrder(p.options, order))|)
  {
    var f, ts := p.fields, InOrder(p.options, order);
    var h := Header(ToU32(Declared(p)), SMGP_SUBMIT, f.sequenceId);
    BodyParts(f, ts);
    Prefix12(h, Body(f, ts));
    ToU32Exact(Declared(p), |h + Body(f, ts)|);
  }

  // ---------------------------------------------------------------- the packet in memory

  lemma WrittenInOrder(h: Str, a: Str, b: Str, c: Str, d: Str, e: Str, g: Str)
    ensures h + a + b + c + d + e + g == h + (a + b + c + d + e + g)
  {}

  lemma DestsNext(ds: seq<Str>, i: nat, before: Str)
    requires i < |ds|
    ensures DestsFit(ds[..i + 1]) <==> DestsFit(ds[..i]) && |ds[i]| <= 21
    ensures before + Cat(Dests(ds[..i])) + Octet(ds[i], 21) == before + Cat(Dests(ds[..i + 1]))
  {
    assert ds[..i + 1] == ds[..i] + [ds[i]];
    assert Dests(ds[..i + 1]) == Dests(ds[..i]) + [Octet(ds[i], 21)];
    CatSnoc(Dests(ds[..i]), Octet(ds[i], 21));
  }

  class SubmitReqPkt {
    var fields: Fields
    var options: OptionRefs

    /** The whole packet, with the option values that the shared storage holds right now. */
    function View(): Submit
      requires ValidRefs(options)
      reads this, Backing(options)
    {
      Submit(fields, Deref(options))
    }

    /** An Unpack of d that ended in r has filled in this packet, which held the fields was before. */
    predicate UnpackedFrom(r: Outcome<()>, data: Slice, d: Str, was: Fields)
      requires data.Valid() && |d| == data.len
      reads this
    {
      && OptionsRead(Stored(r, options), data, OptionsOffset(d), d)
      && (Complete(d) ==>
            var g := FieldsAt(d, was.sequenceId);
            fields == g.(destTermId := was.destTermId + g.destTermId))
    }

    constructor (sequenceId: u32)
      ensures fields == Fields(0, 0, 0, [], [], [], [], 0, [], [], [], [], 0, [], 0, [], [], sequenceId)
      ensures options == map[]
    {
      fields := Fields(0, 0, 0, [], [], [], [], 0, [], [], [], [], 0, [], 0, [], [], sequenceId);
      options := map[];
    }

    method Pack(seqId: u32) returns (r: Outcome<Str>, ghost order: seq<u16>)
      requires ValidRefs(options)
      modifies this`fields
      ensures fields == old(fields).(sequenceId := seqId)
      ensures IsOrder(order, old(Deref(options)))
      ensures r == Packed(Submit(fields, old(Deref(options))), order)
    {
      var opts := Deref(options);
      var optsLen := Len(opts);
      var pktLen := ToU32(HEADER_LEN + 114 + fields.destTermIdCount * 21 + fields.msgLength + optsLen);
      var w := new PkgWriter();
      w.WriteHeader(pktLen, seqId, SMGP_SUBMIT);
      ghost var h := Header(pktLen, SMGP_SUBMIT, seqId);
      assert w.asked == h;
      fields := fields.(sequenceId := seqId);
      var f := fields;
      assert pktLen == ToU32(Declared(Submit(f, opts)));

      WriteHead(w, f);
      WriteDests(w, f.destTermId);
      ghost var dests := w.asked;
      w.WriteByte(f.msgLength);
      w.WriteBytes(f.msgContent);
      w.WriteFixedSizeString(f.reserve, 8);
      Chain3(dests, [f.msgLength], f.msgContent, Octet(f.reserve, 8));
      assert w.asked == dests + Cat(Tail(f));
      order := WriteOptions(w, opts);
      r := w.Bytes();
      WrittenInOrder(h, Cat(Flags(f)), Cat(Fees(f)), Cat(Terms(f)), Cat(Dests(f.destTermId)), Cat(Tail(f)),
                     Serialize(InOrder(opts, order)));
    }

    /** The writes of Pack before the recipients. */
    static method WriteHead(w: PkgWriter, f: Fields)
      requires w.Valid()
      modifies w
      ensures w.Valid() && w.asked == old(w.asked) + Cat(Flags(f)) + Cat(Fees(f)) + Cat(Terms(f))
      ensures old(w.err).None? ==> w.err == if HeadFits(f) then None else Some(MethodParamsInvalid)
    {
      w.WriteByte(f.msgType);
      w.WriteByte(f.needReport);
      w.WriteByte(f.priority);
      Chain3(old(w.asked), [f.msgType], [f.needReport], [f.priority]);
      ghost var flags := old(w.asked) + Cat(Flags(f));
      w.WriteFixedSizeString(f.serviceId, 10);
      w.WriteFixedSizeString(f.feeType, 2);
      w.WriteFixedSizeString(f.feeCode, 6);
      w.WriteFixedSizeString(f.fixedFee, 6);
      w.WriteByte(f.msgFormat);
      Chain5(flags, Octet(f.serviceId, 10), Octet(f.feeType, 2), Octet(f.feeCode, 6), Octet(f.fixedFee, 6),
             [f.msgFormat]);
      ghost var fees := flags + Cat(Fees(f));
      w.WriteFixedSizeString(f.validTime, 17);
      w.WriteFixedSizeString(f.atTime, 17);
      w.WriteFixedSizeString(f.srcTermId, 21);
      w.WriteFixedSizeString(f.chargeTermId, 21);
      w.WriteByte(f.destTermIdCount);
      Chain5(fees, Octet(f.validTime, 17), Octet(f.atTime, 17), Octet(f.srcTermId, 21), Octet(f.chargeTermId, 21),
             [f.destTermIdCount]);
    }

    static method WriteDests(w: PkgWriter, ds: seq<Str>)
      requires w.Valid()
      modifies w
      ensures w.Valid() && w.asked == old(w.asked) + Cat(Dests(ds))
      ensures w.err == if old(w.err).Some? || DestsFit(ds) then old(w.err) else Some(MethodParamsInvalid)
    {
      for i := 0 to |ds|
        invariant w.Valid()
        invariant w.err == if old(w.err).Some? || DestsFit(ds[..i]) then old(w.err) else Some(MethodParamsInvalid)
        invariant w.asked == old(w.asked) + Cat(Dests(ds[..i]))
      {
        w.WriteFixedSizeString(ds[i], 21);
        DestsNext(ds, i, old(w.asked));
      }
      assert ds[..|ds|] == ds;
    }

    /** Reads into this packet, whose recipients so far are kept in front of those that are read. */
    method Unpack(data: Slice) returns (r: Outcome<()>)
      requires data.Valid()
      modifies this
      ensures UnpackedFrom(r, data, old(data.Contents()), old(fields))
    {
      var d := data.Contents();
      var rd := new PkgReader(d);
      var offset := 0;
      var f := ReadAll(rd, fields);
      offset := offset + 1 + 1 + 1 + 10 + 2 + 6 + 6 + 1 + 17 + 17 + 21 + 21 + 1;
      offset := offset + 21 * f.destTermIdCount;
      offset := offset + 1 + f.msgLength + 8;
      fields := f.(destTermId := fields.destTermId + f.destTermId);
      var parsed := ParseOptionsFrom(data, offset, d);
      OptionsReadAt(parsed, data, offset, OptionsOffset(d), d);
      if parsed.Ok? {
        options := parsed.value;
      }
      r := match parsed
           case Ok(_) => if rd.failed then Err(ShortRead) else Ok(())
           case Err(e) => Err(e)
           case Panic => Panic;
      assert Stored(r, options) == parsed;
    }

    /** All reads of Unpack. The offset that adds up the widths of what was read is in step with the reader. */
    static method ReadAll(r: PkgReader, was: Fields) returns (f: Fields)
      requires r.Valid() && r.InStep(0)
      modifies r, r.cbuf
      ensures r.InStep(105 + 21 * f.destTermIdCount + 1 + f.msgLength + 8)
      ensures r.failed <==> !Complete(r.data)
      ensures !r.failed ==> f == FieldsAt(r.data, was.sequenceId)
    {
      f := ReadFees(r, was);
      f := ReadTerms(r, f);
      f := ReadDests(r, f);
      f := ReadTail(r, f);
      if !r.failed {
        ReadFields(r.data, f);
      }
    }

    static method ReadFees(r: PkgReader, was: Fields) returns (f: Fields)
      requires r.Valid() && r.InStep(0)
      modifies r, r.cbuf
      ensures r.Valid() && r.InStep(28)
      ensures f.sequenceId == was.sequenceId
      ensures !r.failed ==> FeesRead(r.data, f)
    {
      var b0 := r.ReadByte(0);
      var b1 := r.ReadByte(1);
      var b2 := r.ReadByte(2);
      var s3 := r.ReadString(10, 3);
      var s13 := r.ReadString(2, 13);
      var s15 := r.ReadString(6, 15);
      var s21 := r.ReadString(6, 21);
      var b27 := r.ReadByte(27);
      f := was.(msgType := b0, needReport := b1, priority := b2, serviceId := s3, feeType := s13,
                feeCode := s15, fixedFee := s21, msgFormat := b27);
    }

    static method ReadTerms(r: PkgReader, was: Fields) returns (f: Fields)
      requires r.Valid() && r.InStep(28)
      modifies r, r.cbuf
      ensures r.Valid() && r.InStep(105)
      ensures f.sequenceId == was.sequenceId && FeesRead(r.data, f) == FeesRead(r.data, was)
      ensures (r.failed <==> 105 > |r.data|) && if r.failed then f.destTermIdCount == 0 else TermsRead(r.data, f)
    {
      var s28 := r.ReadString(17, 28);
      var s45 := r.ReadString(17, 45);
      var s62 := r.ReadString(21, 62);
      var s83 := r.ReadString(21, 83);
      var b104 := r.ReadByte(104);
      f := was.(validTime := s28, atTime := s45, srcTermId := s62, chargeTermId := s83, destTermIdCount := b104);
    }

    static method ReadDests(r: PkgReader, was: Fields) returns (f: Fields)
      requires r.Valid() && r.InStep(105) && (r.failed <==> 105 > |r.data|)
      requires if r.failed then was.destTermIdCount == 0 else FeesRead(r.data, was) && TermsRead(r.data, was)
      modifies r, r.cbuf
      ensures f == was.(destTermId := f.destTermId)
      ensures r.Valid() && r.InStep(105 + 21 * f.destTermIdCount)
      ensures r.failed <==> 105 > |r.data| || 105 + 21 * r.data[104] as int > |r.data|
      ensures !r.failed ==> FeesRead(r.data, f) && TermsRead(r.data, f) && DestsRead(r.data, f)
    {
      var ds: seq<Str> := [];
      for i: int := 0 to was.destTermIdCount
        invariant r.Valid() && r.InStep(105 + 21 * i) && |ds| == i
        invariant r.failed <==> 105 > |r.data| || 105 + 21 * i > |r.data|
        invariant !r.failed ==> forall j :: 0 <= j < i ==> ds[j] == DestAt(r.data, j)
      {
        var s := r.ReadString(21, 105 + 21 * i);
        ds := ds + [s];
      }
      f := was.(destTermId := ds);
    }

    static method ReadTail(r: PkgReader, was: Fields) returns (f: Fields)
      requires r.Valid() && r.InStep(105 + 21 * was.destTermIdCount)
      requires r.failed <==> 105 > |r.data| || 105 + 21 * r.data[104] as int > |r.data|
      requires !r.failed ==> FeesRead(r.data, was) && TermsRead(r.data, was) && DestsRead(r.data, was)
      modifies r, r.cbuf
      ensures f == was.(msgLength := f.msgLength, msgContent := f.msgContent, reserve := f.reserve)
      ensures r.InStep(105 + 21 * f.destTermIdCount + 1 + f.msgLength + 8)
      ensures r.failed <==> !Complete(r.data)
      ensures !r.failed ==> FeesRead(r.data, f) && TermsRead(r.data, f) && DestsRead(r.data, f) && TailRead(r.data, f)
    {
      var m := 105 + 21 * was.destTermIdCount;
      var msgLength := r.ReadByte(m);
      var msgContent := r.ReadNew(msgLength, m + 1);
      var reserve := r.ReadString(8, m + 1 + msgLength);
      f := was.(msgLength := msgLength, msgContent := msgContent, reserve := reserve);
    }
  }
}
