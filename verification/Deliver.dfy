/** The Deliver request: its layout on the wire, the places of its fields in a body, and Pack/Unpack. */
module Deliver {
  import opened Bytes
  import opened Results
  import opened Slices
  import opened Options
  import opened PacketIo
  import opened Text
  import R = Report

  const SMGP_DELIVER: u32 := 3
  const IS_REPORT: byte := 1

  /** Everything but the optional parameters. The message id is kept in hexadecimal. */
  datatype Fields = Fields(
    msgId: Str, isReport: byte, msgFormat: byte,
    recvTime: Str, srcTermId: Str, destTermId: Str,
    msgLength: byte, msgContent: Str, reserve: Str,
    sequenceId: u32, msgStatContent: Option<R.Report>)

  datatype Deliver = Deliver(fields: Fields, options: Options)

  // ---------------------------------------------------------------- the bytes a Deliver is packed to

  function Top(f: Fields): seq<Str> {
    [Octet(HexDecode(f.msgId), 10), [f.isReport], [f.msgFormat]]
  }

  function Terms(f: Fields): seq<Str> {
    [Octet(f.recvTime, 14), Octet(f.srcTermId, 21), Octet(f.destTermId, 21)]
  }

  function Tail(f: Fields): seq<Str> {
    [[f.msgLength], f.msgContent, Octet(f.reserve, 8)]
  }

  function Body(f: Fields, ts: seq<Tlv>): Str {
    Cat(Top(f)) + Cat(Terms(f)) + Cat(Tail(f)) + Serialize(ts)
  }

  ghost function Declared(p: Deliver): nat {
    HEADER_LEN + 77 + p.fields.msgLength + SumLen(p.options)
  }

  predicate Fits(f: Fields) {
    |f.recvTime| <= 14 && |f.srcTermId| <= 21 && |f.destTermId| <= 21 && |f.reserve| <= 8
  }

  /** What Pack returns when it ranges over the options in the given order. */
  ghost function Packed(p: Deliver, order: seq<u16>): Outcome<Str>
    requires IsOrder(order, p.options)
  {
    if Fits(p.fields) then
      Ok(Header(ToU32(Declared(p)), SMGP_DELIVER, p.fields.sequenceId) + Body(p.fields, InOrder(p.options, order)))
    else Err(MethodParamsInvalid)
  }

  // ---------------------------------------------------------------- where the fields of a body are

  /** The number of bytes before the options: the value that the hand-kept offset ends at. */
  function OptionsOffset(d: Str): nat {
    if |d| <= 68 then 77 else 69 + d[68] as int + 8
  }

  predicate Complete(d: Str) {
    OptionsOffset(d) <= |d|
  }

  /** A status report too short for its fixed positions makes Unpack panic. */
  predicate BadReport(d: Str)
    requires Complete(d)
  {
    d[10] == IS_REPORT && d[68] < 102
  }

  /** The fields of a complete body, each read off its own place. */
  function FieldsAt(d: Str, sequenceId: u32): Fields
    requires Complete(d)
  {
    var n := d[68] as int;
    Fields(HexEncode(Cut(d[0..10])), d[10], d[11], Cut(d[12..26]), Cut(d[26..47]), Cut(d[47..68]),
           n, d[69..69 + n], Cut(d[69 + n..69 + n + 8]), sequenceId,
           if d[10] == IS_REPORT then R.Decode(d[69..69 + n]) else None)
  }

  /** What Unpack makes of a body: truncated bodies and short reports panic, malformed options are an error. */
  function Unpacked(d: Str, sequenceId: u32): Outcome<Deliver> {
    if !Complete(d) || BadReport(d) then Panic
    else match Parse(d[OptionsOffset(d)..]) {
      case Ok(m) => Ok(Deliver(FieldsAt(d, sequenceId), m))
      case Err(e) => Err(e)
      case Panic => Panic
    }
  }

  predicate HeadRead(d: Str, f: Fields) {
    && |d| >= 68
    && f.msgId == HexEncode(Cut(d[0..10])) && f.isReport == d[10] && f.msgFormat == d[11]
    && f.recvTime == Cut(d[12..26]) && f.srcTermId == Cut(d[26..47]) && f.destTermId == Cut(d[47..68])
  }

  predicate TailRead(d: Str, f: Fields) {
    var c := |f.msgContent|;
    && 69 + c + 8 <= |d|
    && f.msgLength == d[68] == c && f.msgContent == d[69..69 + c]
    && f.reserve == Cut(d[69 + c..69 + c + 8])
  }

  lemma ReadFields(d: Str, f: Fields)
    requires HeadRead(d, f) && TailRead(d, f)
    ensures Complete(d) && OptionsOffset(d) == 69 + |f.msgContent| + 8
    ensures FieldsAt(d, f.sequenceId) == f.(msgStatContent := FieldsAt(d, f.sequenceId).msgStatContent)
  {}

  // ---------------------------------------------------------------- round trip

  /** The packets whose body can be read back: zero-free text fields that fit, a true length, a decodable report. */
  predicate Sendable(f: Fields) {
    && Fits(f)
    && NoZero(f.recvTime) && NoZero(f.srcTermId) && NoZero(f.destTermId) && NoZero(f.reserve)
    && f.msgLength == |f.msgContent|
    && (f.isReport == IS_REPORT ==> |f.msgContent| >= 102)
  }

  /** What the receiver sees: the id up to its first zero byte, and the report decoded from the content. */
  function Arrived(f: Fields): Fields {
    f.(msgId := HexEncode(Cut(Octet(HexDecode(f.msgId), 10))),
       msgStatContent := if f.isReport == IS_REPORT then R.Decode(f.msgContent) else None)
  }

  predicate TopAre(h: Str, f: Fields) {
    |h| == 12 && h[0..10] == Octet(HexDecode(f.msgId), 10) && h[10..11] == [f.isReport] && h[11..12] == [f.msgFormat]
  }

  predicate TermsAre(h: Str, f: Fields) {
    && |h| == 56
    && h[0..14] == Octet(f.recvTime, 14) && h[14..35] == Octet(f.srcTermId, 21) && h[35..56] == Octet(f.destTermId, 21)
  }

  predicate TailIs(t: Str, f: Fields) {
    var n := |f.msgContent|;
    && |t| == 1 + n + 8 && t[0..1] == [f.msgLength]
    && t[1..1 + n] == f.msgContent && t[1 + n..1 + n + 8] == Octet(f.reserve, 8)
  }

  lemma TopPositions(f: Fields)
    ensures TopAre(Cat(Top(f)), f)
  {
    var ps, offs := Top(f), [0, 10, 11, 12];
    CatAt(ps, offs);
    assert Sits(Cat(ps), ps, offs, 0) && Sits(Cat(ps), ps, offs, 1) && Sits(Cat(ps), ps, offs, 2);
  }

  lemma TermsPositions(f: Fields)
    ensures TermsAre(Cat(Terms(f)), f)
  {
    var ps, offs := Terms(f), [0, 14, 35, 56];
    CatAt(ps, offs);
    assert Sits(Cat(ps), ps, offs, 0) && Sits(Cat(ps), ps, offs, 1) && Sits(Cat(ps), ps, offs, 2);
  }

  lemma TailPositions(f: Fields)
    ensures TailIs(Cat(Tail(f)), f)
  {
    var ps, offs := Tail(f), [0, 1, 1 + |f.msgContent|, 1 + |f.msgContent| + 8];
    CatAt(ps, offs);
    assert Sits(Cat(ps), ps, offs, 0) && Sits(Cat(ps), ps, offs, 1) && Sits(Cat(ps), ps, offs, 2);
  }

  /** A body is its parts and its options, laid end to end. */
  lemma BodyParts(f: Fields, ts: seq<Tlv>)
    ensures var d, c := Body(f, ts), |f.msgContent|;
            && |d| == 69 + c + 8 + |Serialize(ts)|
            && TopAre(d[0..12], f) && TermsAre(d[12..68], f)
            && TailIs(d[68..69 + c + 8], f) && d[69 + c + 8..] == Serialize(ts)
  {
    TopPositions(f);
    TermsPositions(f);
    TailPositions(f);
    EndToEnd(Cat(Top(f)), Cat(Terms(f)), Cat(Tail(f)), Serialize(ts));
  }

  lemma EndToEnd(a: Str, b: Str, c: Str, e: Str)
    requires |a| == 12 && |b| == 56
    ensures var s := a + b + c + e;
            s[0..12] == a && s[12..68] == b && s[68..68 + |c|] == c && s[68 + |c|..] == e
  {}

  lemma ReadHead(d: Str, f: Fields)
    requires Sendable(f) && |d| >= 68 && TopAre(d[0..12], f) && TermsAre(d[12..68], f)
    ensures HeadRead(d, Arrived(f))
  {
    Slice2(d, 0, 12, 0, 10);
    assert d[10] == d[0..12][10..11][0] && d[11] == d[0..12][11..12][0];
    Slice2(d, 12, 68, 0, 14);
    Slice2(d, 12, 68, 14, 35);
    Slice2(d, 12, 68, 35, 56);
    CutOctet(f.recvTime, 14);
    CutOctet(f.srcTermId, 21);
    CutOctet(f.destTermId, 21);
  }

  lemma ReadTail(d: Str, f: Fields)
    requires Sendable(f)
    requires var c := |f.msgContent|; 69 + c + 8 <= |d| && TailIs(d[68..69 + c + 8], f)
    ensures TailRead(d, f)
  {
    var c := |f.msgContent|;
    assert d[68] == d[68..69 + c + 8][0..1][0];
    Slice2(d, 68, 69 + c + 8, 1, 1 + c);
    Slice2(d, 68, 69 + c + 8, 1 + c, 1 + c + 8);
    CutOctet(f.reserve, 8);
  }

  /** For every order of the options, the receiver gets the packet with only its id cut and its report decoded. */
  lemma RoundTrip(p: Deliver, order: seq<u16>)
    requires Sendable(p.fields) && WellFormed(p.options) && IsOrder(order, p.options)
    ensures Unpacked(Body(p.fields, InOrder(p.options, order)), p.fields.sequenceId)
            == Ok(Deliver(Arrived(p.fields), p.options))
  {
    var f, ts := p.fields, InOrder(p.options, order);
    var d := Body(f, ts);
    BodyParts(f, ts);
    ReadHead(d, f);
    ReadTail(d, f);
    ReadFields(d, Arrived(f));
    ParseSerialized(p.options, order);
  }

  lemma FieldsAreSendable(d: Str, sequenceId: u32)
    requires Complete(d) && !BadReport(d)
    ensures Sendable(FieldsAt(d, sequenceId))
  {}

  /** A hexadecimal id of at most ten bytes, none of them zero. */
  predicate UncutId(msgId: Str) {
    |msgId| <= 20 && |msgId| % 2 == 0 && IsLowerHex(msgId) && NoZero(HexDecode(msgId))
  }

  /** The packet holds the report that its content spells if it is marked as a report, and none otherwise. */
  predicate ReportMatches(f: Fields) {
    if f.isReport == IS_REPORT then f.msgStatContent == R.Decode(f.msgContent) else f.msgStatContent == None
  }

  /** The message id survives exactly when it is at most ten zero-free bytes in lower-case hexadecimal. */
  lemma MsgIdSurvives(f: Fields)
    ensures Arrived(f).msgId == f.msgId <==> UncutId(f.msgId)
  {
    var b := HexDecode(f.msgId);
    HexLossless(f.msgId);
    HexDecodeEncode(Cut(Octet(b, 10)));
    HexIsLower(Cut(Octet(b, 10)));
    if |b| <= 10 {
      CutOctet(b, 10);
    }
  }

  /** The packets that survive Pack and Unpack unchanged are exactly the sendable ones with an uncut id, with the report
      that their content spells or none, and with well-formed options, whatever the order of the options. */
  lemma RoundTripExactly(p: Deliver, order: seq<u16>)
    requires IsOrder(order, p.options)
    ensures Unpacked(Body(p.fields, InOrder(p.options, order)), p.fields.sequenceId) == Ok(p)
            <==> Sendable(p.fields) && UncutId(p.fields.msgId) && ReportMatches(p.fields) && WellFormed(p.options)
  {
    var f, ts := p.fields, InOrder(p.options, order);
    var d := Body(f, ts);
    MsgIdSurvives(f);
    if Unpacked(d, f.sequenceId) == Ok(p) {
      FieldsAreSendable(d, f.sequenceId);
      ParseIsWellFormed(d[OptionsOffset(d)..]);
    }
    if Sendable(f) && WellFormed(p.options) {
      RoundTrip(p, order);
    }
  }

  /** The header states the real length, for every order of the options, exactly when the declared total does and fits
      in 32 bits; the declared total is the real one exactly when the lengths that it adds up are. */
  lemma HeaderLengthExact(p: Deliver, order: seq<u16>)
    requires IsOrder(order, p.options) && Fits(p.fields)
    ensures var w, f := Packed(p, order).value, p.fields;
            && (U32At(w, 0) == |w| <==> |w| < 0x1_0000_0000 && Declared(p) % 0x1_0000_0000 == |w|)
            && (Declared(p) == |w| <==>
                  f.msgLength + SumLen(p.options) == |f.msgContent| + |Serialize(InOrder(p.options, order))|)
  {
    var f, ts := p.fields, InOrder(p.options, order);
    var h := Header(ToU32(Declared(p)), SMGP_DELIVER, f.sequenceId);
    BodyParts(f, ts);
    Prefix12(h, Body(f, ts));
    ToU32Exact(Declared(p), |h + Body(f, ts)|);
  }

  // ---------------------------------------------------------------- the packet in memory

  lemma WrittenInOrder(h: Str, a: Str, b: Str, c: Str, e: Str)
    ensures h + a + b + c + e == h + (a + b + c + e)
  {}

  /** The fields after an Unpack of a complete body: a packet that is no report keeps the report it held before. */
  function FilledIn(d: Str, was: Fields): Fields
    requires Complete(d)
  {
    var g := FieldsAt(d, was.sequenceId);
    if d[10] == IS_REPORT then g else g.(msgStatContent := was.msgStatContent)
  }

  class DeliverReqPkt {
    var fields: Fields
    var options: OptionRefs

    /** The whole packet, with the option values that the shared storage holds right now. */
    function View(): Deliver
      requires ValidRefs(options)
      reads this, Backing(options)
    {
      Deliver(fields, Deref(options))
    }

    /** An Unpack of d that ended in r has filled in this packet, which held the fields was before. */
    predicate UnpackedFrom(r: Outcome<()>, data: Slice, d: Str, was: Fields)
      requires data.Valid() && |d| == data.len
      reads this
    {
      if Complete(d) && BadReport(d) then r == Panic
      else
        && OptionsRead(Stored(r, options), data, OptionsOffset(d), d)
        && (Complete(d) ==> fields == FilledIn(d, was))
    }

    constructor (sequenceId: u32)
      ensures fields == Fields([], 0, 0, [], [], [], 0, [], [], sequenceId, None)
      ensures options == map[]
    {
      fields := Fields([], 0, 0, [], [], [], 0, [], [], sequenceId, None);
      options := map[];
    }

    method Pack(seqId: u32) returns (r: Outcome<Str>, ghost order: seq<u16>)
      requires ValidRefs(options)
      modifies this`fields
      ensures fields == old(fields).(sequenceId := seqId)
      ensures IsOrder(order, old(Deref(options)))
      ensures r == Packed(Deliver(fields, old(Deref(options))), order)
    {
      var opts := Deref(options);
      var optsLen := Len(opts);
      var pktLen := ToU32(HEADER_LEN + 77 + fields.msgLength + optsLen);
      var w := new PkgWriter();
      w.WriteHeader(pktLen, seqId, SMGP_DELIVER);
      ghost var h := Header(pktLen, SMGP_DELIVER, seqId);
      assert w.asked == h;
      fields := fields.(sequenceId := seqId);
      var f := fields;
      assert pktLen == ToU32(Declared(Deliver(f, opts)));

      var msgId := HexDecode(f.msgId);
      w.WriteBytes(Octet(msgId, 10));
      w.WriteByte(f.isReport);
      w.WriteByte(f.msgFormat);
      Chain3(h, Octet(msgId, 10), [f.isReport], [f.msgFormat]);
      ghost var top := h + Cat(Top(f));
      w.WriteFixedSizeString(f.recvTime, 14);
      w.WriteFixedSizeString(f.srcTermId, 21);
      w.WriteFixedSizeString(f.destTermId, 21);
      Chain3(top, Octet(f.recvTime, 14), Octet(f.srcTermId, 21), Octet(f.destTermId, 21));
      ghost var terms := top + Cat(Terms(f));
      w.WriteByte(f.msgLength);
      w.WriteBytes(f.msgContent);
      w.WriteFixedSizeString(f.reserve, 8);
      Chain3(terms, [f.msgLength], f.msgContent, Octet(f.reserve, 8));
      assert w.asked == terms + Cat(Tail(f));
      order := WriteOptions(w, opts);
      r := w.Bytes();
      WrittenInOrder(h, Cat(Top(f)), Cat(Terms(f)), Cat(Tail(f)), Serialize(InOrder(opts, order)));
    }

    method Unpack(data: Slice) returns (r: Outcome<()>)
      requires data.Valid()
      modifies this
      ensures UnpackedFrom(r, data, old(data.Contents()), old(fields))
    {
      var d := data.Contents();
      var rd := new PkgReader(d);
      var offset := 0;
      var f, panicked := ReadAll(rd, fields);
      if panicked {
        return Panic;
      }
      fields := f;
      offset := offset + 10 + 1 + 1 + 14 + 21 + 21 + 1 + f.msgLength + 8;
      var parsed := ParseOptionsFrom(data, offset, d);
      OptionsReadAt(parsed, data, offset, OptionsOffset(d), d);
      if parsed.Ok? {
        options := parsed.value;
      }
      r := match parsed
           case Ok(_) => if rd.failed then Err(ShortRead) else Ok(())
           case Err(e) => Err(e)
           case Panic => Panic;
      assert Stored(r, options) == parsed;
    }

    /** All reads of Unpack, which end in a panic at a report that is too short. The offset that adds up the widths of
        what was read is in step with the reader. */
    static method ReadAll(r: PkgReader, was: Fields) returns (f: Fields, panicked: bool)
      requires r.Valid() && r.InStep(0)
      modifies r, r.cbuf
      ensures panicked ==> !Complete(r.data) || BadReport(r.data)
      ensures !panicked ==> r.InStep(69 + f.msgLength + 8) && (r.failed <==> !Complete(r.data))
      ensures !panicked && !r.failed ==> !BadReport(r.data) && f == FilledIn(r.data, was)
    {
      f := ReadHead(r, was);
      f := ReadTail(r, f);
      if f.isReport == IS_REPORT {
        var content := R.Decode(f.msgContent);
        if content.None? {
          return f, true;
        }
        f := f.(msgStatContent := content);
      }
      var reserve := r.ReadString(8, 69 + f.msgLength);
      f := f.(reserve := reserve);
      if !r.failed {
        ReadFields(r.data, f);
      }
      panicked := false;
    }

    static method ReadHead(r: PkgReader, was: Fields) returns (f: Fields)
      requires r.Valid() && r.InStep(0)
      modifies r, r.cbuf
      ensures r.Valid() && r.InStep(68)
      ensures f.sequenceId == was.sequenceId && f.msgStatContent == was.msgStatContent
      ensures r.failed <==> 68 > |r.data|
      ensures !r.failed ==> HeadRead(r.data, f)
      ensures 10 < |r.data| ==> f.isReport == r.data[10]
    {
      var s0 := r.ReadString(10, 0);
      var b10 := r.ReadByte(10);
      var b11 := r.ReadByte(11);
      var s12 := r.ReadString(14, 12);
      var s26 := r.ReadString(21, 26);
      var s47 := r.ReadString(21, 47);
      f := was.(msgId := HexEncode(s0), isReport := b10, msgFormat := b11, recvTime := s12,
                srcTermId := s26, destTermId := s47);
    }

    /** The length and the content. */
    static method ReadTail(r: PkgReader, was: Fields) returns (f: Fields)
      requires r.Valid() && r.InStep(68) && (r.failed <==> 68 > |r.data|)
      modifies r
      ensures f == was.(msgLength := f.msgLength, msgContent := f.msgContent)
      ensures r.Valid() && r.InStep(69 + f.msgLength) && |f.msgContent| == f.msgLength
      ensures f.msgLength == if |r.data| <= 68 then 0 else r.data[68]
      ensures r.failed <==> 69 + f.msgLength > |r.data|
      ensures !r.failed ==> f.msgContent == r.data[69..69 + f.msgLength]
    {
      var msgLength := r.ReadByte(68);
      var s := r.ReadNew(msgLength, 69);
      f := was.(msgLength := msgLength, msgContent := s);
    }
  }
}
