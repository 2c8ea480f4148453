/** Building the Submit packets of a long message, and the way of its text to the receiver. */
module MsgPkgs {
  import opened Bytes
  import opened Results
  import opened Slices
  import opened Options
  import opened PacketIo
  import opened Packets
  import opened Framing
  import opened LongSms
  import S = Submit

  const TAG_TP_pid: u16 := 1
  const TAG_TP_udhi: u16 := 2
  const TAG_PkTotal: u16 := 9
  const TAG_PkNumber: u16 := 10

  const UCS2: byte := 8

  /** Utf8ToUcs2: nothing for text that is not UTF-8. */
  type Encoder = Str -> Option<Str>

  /** The options of packet i of num. */
  function PkgOptions(num: nat, i: nat): Options {
    map[]
       [TAG_TP_pid := NewTlv(TAG_TP_pid, [0])]
       [TAG_TP_udhi := NewTlv(TAG_TP_udhi, [if num > 1 then 1 else 0])]
       [TAG_PkTotal := NewTlv(TAG_PkTotal, [num % 0x100])]
       [TAG_PkNumber := NewTlv(TAG_PkNumber, [(i + 1) % 0x100])]
  }

  function PkgFields(f: S.Fields, chunk: Str): S.Fields {
    f.(msgFormat := UCS2, msgLength := |chunk| % 0x100, msgContent := chunk, sequenceId := 0)
  }

  /** Packet i of a message with these chunks, and the fields f of the request. */
  function PkgOf(f: S.Fields, chunks: seq<Str>, i: nat): S.Submit
    requires i < |chunks|
  {
    S.Submit(PkgFields(f, chunks[i]), PkgOptions(|chunks|, i))
  }

  // ---------------------------------------------------------------- one packet

  /** All that a request says about its message, but for the text itself, is what the packet says; its format is
      UCS2. */
  predicate SaysTheSame(g: S.Fields, f: S.Fields) {
    && g.msgType == f.msgType && g.needReport == f.needReport && g.priority == f.priority
    && g.serviceId == f.serviceId && g.feeType == f.feeType && g.feeCode == f.feeCode && g.fixedFee == f.fixedFee
    && g.validTime == f.validTime && g.atTime == f.atTime
    && g.srcTermId == f.srcTermId && g.chargeTermId == f.chargeTermId
    && g.destTermIdCount == f.destTermIdCount && g.destTermId == f.destTermId && g.reserve == f.reserve
    && g.msgFormat == 8
  }

  /** The options of packet i of num: TP_pid, TP_udhi, PkTotal and PkNumber, of one byte each, and no others. */
  predicate Numbered(o: Options, num: nat, i: nat) {
    && o.Keys == {1, 2, 9, 10}
    && o[1] == Tlv(1, 1, [0]) && o[2] == Tlv(2, 1, [if num > 1 then 1 else 0])
    && o[9] == Tlv(9, 1, [num % 256]) && o[10] == Tlv(10, 1, [(i + 1) % 256])
  }

  /** Every packet repeats the request, with a chunk of the text and its length, and is numbered. */
  lemma PkgRepeatsRequest(f: S.Fields, content: Str, ref: byte, i: nat)
    requires i < |Split(content, ref)|
    ensures var p, chunks := PkgOf(f, Split(content, ref), i), Split(content, ref);
            && SaysTheSame(p.fields, f) && Numbered(p.options, |chunks|, i)
            && p.fields.msgContent == chunks[i] && p.fields.msgLength == |chunks[i]|
  {
    ChunkShape(content, ref, i);
  }

  /** What the request must satisfy: its recipients are counted right, and its fields fit and have no zero bytes. */
  predicate Requestable(f: S.Fields) {
    S.FaithfulFields(PkgFields(f, []))
  }

  lemma OneMore(m: Options, tag: u16, v: byte)
    requires tag !in m && WellFormed(m)
    ensures var n := m[tag := NewTlv(tag, [v])]; SumLen(n) == SumLen(m) + 5 && WellFormed(n)
  {
    SumLenInsert(m, NewTlv(tag, [v]));
  }

  lemma OptionsSize(num: nat, i: nat)
    ensures SumLen(PkgOptions(num, i)) == 20 && WellFormed(PkgOptions(num, i))
  {
    var udhi := if num > 1 then 1 else 0;
    var m1: Options := map[][TAG_TP_pid := NewTlv(TAG_TP_pid, [0])];
    var m2 := m1[TAG_TP_udhi := NewTlv(TAG_TP_udhi, [udhi])];
    var m3 := m2[TAG_PkTotal := NewTlv(TAG_PkTotal, [num % 0x100])];
    OneMore(map[], TAG_TP_pid, 0);
    OneMore(m1, TAG_TP_udhi, udhi);
    OneMore(m2, TAG_PkTotal, num % 0x100);
    OneMore(m3, TAG_PkNumber, (i + 1) % 0x100);
  }

  lemma PkgFaithful(f: S.Fields, content: Str, ref: byte, i: nat)
    requires Requestable(f) && i < Num(content)
    ensures var p := PkgOf(f, Split(content, ref), i);
            S.Faithful(p) && p.fields.msgLength == |p.fields.msgContent| <= SMS_LENGTH
  {
    ChunkShape(content, ref, i);
    OptionsSize(Num(content), i);
  }

  /** The size of each packet, and exactly when the receiver's limit lets it pass: always for up to 100 recipients. */
  lemma PkgSize(f: S.Fields, content: Str, ref: byte, i: nat, order: seq<u16>, seqId: u32)
    requires Requestable(f) && i < Num(content)
    requires IsOrder(order, PkgOptions(Num(content), i))
    ensures var p := WithSubmitSeq(PkgOf(f, Split(content, ref), i), seqId);
            var n := 146 + 21 * |f.destTermId| + |p.fields.msgContent|;
            && |S.Packed(p, order).value| == n && S.Declared(p) == n
            && (|f.destTermId| <= 100 ==> n <= 2386)
            && (n <= SMGP_PACKET_MAX <==> 21 * |f.destTermId| + |p.fields.msgContent| <= 2331)
  {
    var p := WithSubmitSeq(PkgOf(f, Split(content, ref), i), seqId);
    PkgFaithful(f, content, ref, i);
    OptionsSize(Num(content), i);
    SumLenInOrder(p.options, order);
    S.BodyParts(p.fields, InOrder(p.options, order));
  }

  /** The total and the number in the options are the real ones exactly up to 255 packets. */
  lemma PkgNumbers(num: nat, i: nat)
    requires i < num
    ensures PkgOptions(num, i)[TAG_PkTotal].value == [num] <==> num <= 255
    ensures num <= 255 ==> PkgOptions(num, i)[TAG_PkNumber].value == [i + 1]
  {}

  // ---------------------------------------------------------------- a message on its way

  /** What the receiver of a packet looks at to put a long message together. */
  function PartIn(p: Packet): Part {
    if p.SubmitPkt? then
      var o := p.submit.options;
      Part(TAG_TP_udhi in o && o[TAG_TP_udhi].value == [1], p.submit.fields.msgContent)
    else Part(false, [])
  }

  function PartsIn(ps: seq<Packet>): (parts: seq<Part>)
    ensures |parts| == |ps|
  {
    seq(|ps|, i requires 0 <= i < |ps| => PartIn(ps[i]))
  }

  /** A request: its fields, and its text as encoded. */
  datatype Request = Request(fields: S.Fields, content: Str)

  function Contents(rs: seq<Request>): (cs: seq<Str>)
    ensures |cs| == |rs|
  {
    seq(|rs|, i requires 0 <= i < |rs| => rs[i].content)
  }

  /** s sends packet k of this request. */
  ghost predicate SendsPart(s: Sent, r: Request, ref: byte, k: nat) {
    && k < Num(r.content)
    && s.packet == SubmitPkt(PkgOf(r.fields, Split(r.content, ref), k))
    && IsOrder(s.env.order, PkgOptions(Num(r.content), k))
  }

  ghost predicate SendsPartOf(s: Sent, rs: seq<Request>, start: byte) {
    exists i, k :: 0 <= i < |rs| && SendsPart(s, rs[i], RefOf(Contents(rs), start, i), k)
  }

  ghost predicate IsSent(sent: seq<Sent>, r: Request, ref: byte, k: nat) {
    exists j :: 0 <= j < |sent| && SendsPart(sent[j], r, ref, k)
  }

  /** The packets of all the requests, in any order, some perhaps more than once. */
  ghost predicate SendsAll(sent: seq<Sent>, rs: seq<Request>, start: byte) {
    && (forall j :: 0 <= j < |sent| ==> SendsPartOf(sent[j], rs, start))
    && (forall i, k :: 0 <= i < |rs| && 0 <= k < Num(rs[i].content) ==>
          IsSent(sent, rs[i], RefOf(Contents(rs), start, i), k))
  }

  lemma SentIsGood(s: Sent, r: Request, ref: byte, k: nat)
    requires Requestable(r.fields) && |r.fields.destTermId| <= 100 && SendsPart(s, r, ref, k)
    ensures Good(s) && PartIn(ArrivedAs(s)) == PartOf(r.content, ref, k)
  {
    PkgFaithful(r.fields, r.content, ref, k);
    PkgSize(r.fields, r.content, ref, k, s.env.order, s.seqId);
  }

  /** p is packet k of one of the requests, and says all that this request says. */
  predicate ArrivedFor(p: Packet, rs: seq<Request>) {
    exists i, k :: 0 <= i < |rs| && 0 <= k < Num(rs[i].content) && IsPacketOf(p, rs[i], k)
  }

  predicate IsPacketOf(p: Packet, r: Request, k: nat) {
    && p.SubmitPkt? && SaysTheSame(p.submit.fields, r.fields)
    && Numbered(p.submit.options, Num(r.content), k)
  }

  lemma ArrivesForRequest(s: Sent, rs: seq<Request>, start: byte)
    requires SendsPartOf(s, rs, start)
    ensures ArrivedFor(ArrivedAs(s), rs)
  {
    var i, k: nat :| 0 <= i < |rs| && SendsPart(s, rs[i], RefOf(Contents(rs), start, i), k);
    PkgRepeatsRequest(rs[i].fields, rs[i].content, RefOf(Contents(rs), start, i), k);
    assert IsPacketOf(ArrivedAs(s), rs[i], k);
  }

  /** However the packets are ordered among one another, they are received as sent, and among up to 256 long messages
      a message is put together again from what was received exactly if it has at most 255 packets. */
  lemma MessagesArrive(sent: seq<Sent>, tail: Str, rs: seq<Request>, start: byte, i: nat)
    requires SendsAll(sent, rs, start)
    requires forall m :: 0 <= m < |rs| ==> Requestable(rs[m].fields) && |rs[m].fields.destTermId| <= 100
    requires Longs(Contents(rs)) <= 0x100
    requires i < |rs| && IsLong(rs[i].content)
    ensures AllGood(sent)
    ensures var (ps, rest) := RecvAll(Stream(sent) + tail, |sent|);
            && ps == AllArrived(sent) && rest == tail
            && (forall j :: 0 <= j < |sent| ==> ArrivedFor(ps[j], rs))
            && (Reassemble(PartsIn(ps), RefOf(Contents(rs), start, i)) == rs[i].content <==> Num(rs[i].content) <= 255)
  {
    forall j | 0 <= j < |sent|
      ensures Good(sent[j])
    {
      assert SendsPartOf(sent[j], rs, start);
      var m, k :| 0 <= m < |rs| && SendsPart(sent[j], rs[m], RefOf(Contents(rs), start, m), k);
      SentIsGood(sent[j], rs[m], RefOf(Contents(rs), start, m), k);
    }
    forall j | 0 <= j < |sent|
      ensures ArrivedFor(ArrivedAs(sent[j]), rs)
    {
      ArrivesForRequest(sent[j], rs, start);
    }
    FrameStream(sent, tail);
    PartsDeliver(sent, rs, start);
    Reassembled(PartsIn(AllArrived(sent)), Contents(rs), start, i);
  }

  lemma PartsDeliver(sent: seq<Sent>, rs: seq<Request>, start: byte)
    requires SendsAll(sent, rs, start)
    requires forall m :: 0 <= m < |rs| ==> Requestable(rs[m].fields) && |rs[m].fields.destTermId| <= 100
    ensures Delivers(PartsIn(AllArrived(sent)), Contents(rs), start)
  {
    var cs, bag := Contents(rs), PartsIn(AllArrived(sent));
    forall i | 0 <= i < |cs|
      ensures HasAll(bag, cs[i], RefOf(cs, start, i))
    {
      forall k | 0 <= k < Num(cs[i])
        ensures PartOf(cs[i], RefOf(cs, start, i), k) in bag
      {
        assert IsSent(sent, rs[i], RefOf(cs, start, i), k);
        var j :| 0 <= j < |sent| && SendsPart(sent[j], rs[i], RefOf(cs, start, i), k);
        SentIsGood(sent[j], rs[i], RefOf(cs, start, i), k);
        assert bag[j] == PartIn(ArrivedAs(sent[j]));
      }
    }
    forall x | x in bag
      ensures IsPartOfSome(x, cs, start)
    {
      var j :| 0 <= j < |bag| && bag[j] == x;
      assert SendsPartOf(sent[j], rs, start);
      var i, k :| 0 <= i < |rs| && SendsPart(sent[j], rs[i], RefOf(cs, start, i), k);
      SentIsGood(sent[j], rs[i], RefOf(cs, start, i), k);
      assert IsPart(x, cs[i], RefOf(cs, start, i));
    }
  }

  // ---------------------------------------------------------------- in memory

  /** Adds an entry for a value of one byte, in storage of its own. */
  method WithByte(o: OptionRefs, tag: u16, v: byte) returns (n: OptionRefs)
    requires ValidRefs(o)
    ensures ValidRefs(n) && fresh(Backing(n) - Backing(o)) && Deref(n) == Deref(o)[tag := NewTlv(tag, [v])]
  {
    var value := Literal([v]);
    n := o[tag := NewTlvRef(tag, value)];
    assert Now(n[tag]) == NewTlv(tag, [v]);
  }

  method UdhOptions(num: nat) returns (o: OptionRefs)
    ensures ValidRefs(o) && fresh(Backing(o))
    ensures Deref(o) == map[][TAG_TP_pid := NewTlv(TAG_TP_pid, [0])]
                             [TAG_TP_udhi := NewTlv(TAG_TP_udhi, [if num > 1 then 1 else 0])]
  {
    o := map[];
    assert Deref(o) == map[];
    o := WithByte(o, TAG_TP_pid, 0);
    o := WithByte(o, TAG_TP_udhi, if num > 1 then 1 else 0);
  }

  method NewOptions(num: nat, i: nat) returns (o: OptionRefs)
    ensures ValidRefs(o) && fresh(Backing(o)) && Deref(o) == PkgOptions(num, i)
  {
    o := UdhOptions(num);
    o := WithByte(o, TAG_PkTotal, num % 0x100);
    o := WithByte(o, TAG_PkNumber, (i + 1) % 0x100);
  }

  /** p is packet i of the message. */
  predicate IsPkg(p: S.SubmitReqPkt, f: S.Fields, chunks: seq<Str>, i: nat)
    reads p, Backing(p.options)
  {
    i < |chunks| && ValidRefs(p.options) && p.View() == PkgOf(f, chunks, i)
  }

  /** p, made of objects in own, is packet i of the message. */
  predicate OwnsPkg(own: set<object>, p: S.SubmitReqPkt, f: S.Fields, chunks: seq<Str>, i: nat)
    reads own
  {
    p in own && Backing(p.options) <= own && IsPkg(p, f, chunks, i)
  }

  /** The packets are the first ones of the message. */
  predicate ArePkgs(own: set<object>, packets: seq<S.SubmitReqPkt>, f: S.Fields, chunks: seq<Str>)
    reads own
  {
    forall i :: 0 <= i < |packets| ==> OwnsPkg(own, packets[i], f, chunks, i)
  }

  lemma OwnsMore(own: set<object>, more: set<object>, p: S.SubmitReqPkt, f: S.Fields, chunks: seq<Str>, i: nat)
    requires own <= more && OwnsPkg(own, p, f, chunks, i)
    ensures OwnsPkg(more, p, f, chunks, i)
  {}

  lemma PkgsNext(own: set<object>, more: set<object>, packets: seq<S.SubmitReqPkt>, f: S.Fields, chunks: seq<Str>,
                 p: S.SubmitReqPkt)
    requires ArePkgs(own, packets, f, chunks) && own <= more && OwnsPkg(more, p, f, chunks, |packets|)
    ensures ArePkgs(more, packets + [p], f, chunks)
  {
    var all := packets + [p];
    forall i | 0 <= i < |all|
      ensures OwnsPkg(more, all[i], f, chunks, i)
    {
      if i < |packets| {
        OwnsMore(own, more, packets[i], f, chunks, i);
      }
    }
  }

  method NewPkg(f: S.Fields, chunk: Slice, ghost chunks: seq<Str>, num: nat, i: nat)
    returns (p: S.SubmitReqPkt, ghost parts: set<object>)
    requires i < num == |chunks| && chunk.Valid() && chunk.Contents() == chunks[i]
    ensures fresh(parts) && OwnsPkg(parts, p, f, chunks, i)
  {
    p := new S.SubmitReqPkt(0);
    p.fields := f.(msgFormat := UCS2, msgLength := chunk.len % 0x100, msgContent := chunk.Contents(), sequenceId := 0);
    var o := NewOptions(num, i);
    p.options := o;
    parts := {p} + Backing(o);
  }

  /** The packets of one message: new ones, built from the chunks of its encoded text. */
  method GetMsgPkgs(splitter: Splitter, pkg: S.SubmitReqPkt, encode: Encoder)
    returns (r: Outcome<seq<S.SubmitReqPkt>>, ghost own: set<object>)
    modifies splitter
    ensures match encode(pkg.fields.msgContent)
            case None => r == Err(InvalidUtf8) && splitter.tpUdhiSeq == old(splitter.tpUdhiSeq)
            case Some(content) =>
              var chunks := Split(content, old(splitter.tpUdhiSeq));
              && r.Ok? && |r.value| == |chunks| && fresh(own) && ArePkgs(own, r.value, pkg.fields, chunks)
              && splitter.tpUdhiSeq == RefOf([content], old(splitter.tpUdhiSeq), 1)
  {
    var encoded := encode(pkg.fields.msgContent);
    if encoded.None? {
      return Err(InvalidUtf8), {};
    }
    RefMoves([encoded.value], splitter.tpUdhiSeq, 0);
    ghost var contents := Split(encoded.value, splitter.tpUdhiSeq);
    var chunks := splitter.SplitLongSms(encoded.value);
    var packets;
    packets, own := NewPkgs(pkg.fields, chunks, contents);
    r := Ok(packets);
  }

  /** The loop of GetMsgPkgs. */
  method NewPkgs(f: S.Fields, chunks: seq<Slice>, ghost contents: seq<Str>)
    returns (packets: seq<S.SubmitReqPkt>, ghost own: set<object>)
    requires |chunks| == |contents|
    requires forall i :: 0 <= i < |chunks| ==> chunks[i].Valid() && chunks[i].Contents() == contents[i]
    ensures |packets| == |chunks| && fresh(own) && ArePkgs(own, packets, f, contents)
  {
    packets, own := [], {};
    for i := 0 to |chunks|
      invariant |packets| == i && fresh(own) && ArePkgs(own, packets, f, contents)
    {
      var p;
      ghost var parts;
      p, parts := NewPkg(f, chunks[i], contents, |chunks|, i);
      OwnsMore(parts, own + parts, p, f, contents, i);
      PkgsNext(own, own + parts, packets, f, contents, p);
      packets, own := packets + [p], own + parts;
    }
  }
}
