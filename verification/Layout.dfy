/** Where everything is in the bytes of a packet, in the numbers of the protocol. */
module Layout {
  import opened Bytes
  import opened Options
  import opened PacketIo
  import opened Text
  import opened Packets
  import L = Login
  import S = Submit
  import D = Deliver
  import R = Report

  /** The request id that a packet is sent with; an exit is sent with that of an active test. */
  function IdOf(p: Packet): u32 {
    match p
    case LoginPkt(_) => 1
    case LoginRespPkt(_) => 0x8000_0001
    case SubmitPkt(_) => 2
    case SubmitRespPkt(_) => 0x8000_0002
    case DeliverPkt(_) => 3
    case DeliverRespPkt(_) => 0x8000_0003
    case ActiveTestPkt(_) => 4
    case ActiveTestRespPkt(_) => 0x8000_0004
    case ExitPkt(_) => 4
    case ExitRespPkt(_) => 0x8000_0004
    case QueryPkt(_) => 7
    case QueryRespPkt(_) => 0x8000_0007
  }

  lemma HeaderOnly(h: Str, b: Str)
    requires |h| == 12
    ensures var w := h + b;
            U32At(w, 4) == U32At(h, 4) && U32At(w, 8) == U32At(h, 8) && w[12..] == b
  {
    Prefix12(h, b);
    assert (h + b)[12..] == b;
  }

  lemma SmallHeader(p: SmallPacket, seqId: u32, env: Env)
    requires Packable(p, env)
    ensures var w := Wire(p, seqId, env);
            |w| >= 12 && U32At(w, 4) == IdOf(p) && U32At(w, 8) == seqId
  {
    match p
    case LoginRespPkt(l) =>
      HeaderOnly(Header(33, 0x8000_0001, seqId), L.RespBody(L.RespRewritten(l, seqId, env.md5)));
    case SubmitRespPkt(r) => HeaderOnly(Header(26, 0x8000_0002, seqId), RespBody(r));
    case DeliverRespPkt(r) => HeaderOnly(Header(26, 0x8000_0003, seqId), RespBody(r));
    case QueryPkt(q) => HeaderOnly(Header(31, 7, seqId), QueryBody(q));
    case QueryRespPkt(q) => HeaderOnly(Header(71, 0x8000_0007, seqId), QueryRespBody(q));
    case _ =>
  }

  /** The second word of every packet is its request id, the third its sequence id. */
  lemma WireHeader(p: Packet, seqId: u32, env: Env)
    requires Packable(p, env)
    ensures var w := Wire(p, seqId, env);
            |w| >= 12 && U32At(w, 4) == IdOf(p) && U32At(w, 8) == seqId
  {
    match p
    case LoginPkt(l) => HeaderOnly(Header(42, 1, seqId), L.Body(L.Rewritten(l, seqId, env.md5, env.now)));
    case SubmitPkt(s) =>
      var q := WithSubmitSeq(s, seqId);
      HeaderOnly(Header(ToU32(S.Declared(q)), 2, seqId), S.Body(q.fields, InOrder(q.options, env.order)));
    case DeliverPkt(d) =>
      var q := WithDeliverSeq(d, seqId);
      HeaderOnly(Header(ToU32(D.Declared(q)), 3, seqId), D.Body(q.fields, InOrder(q.options, env.order)));
    case _ => SmallHeader(p, seqId, env);
  }

  // ---------------------------------------------------------------- Submit

  predicate SubmitHead(d: Str, f: S.Fields) {
    && |d| >= 105
    && d[0] == f.msgType && d[1] == f.needReport && d[2] == f.priority
    && d[3..13] == Octet(f.serviceId, 10) && d[13..15] == Octet(f.feeType, 2)
    && d[15..21] == Octet(f.feeCode, 6) && d[21..27] == Octet(f.fixedFee, 6) && d[27] == f.msgFormat
    && d[28..45] == Octet(f.validTime, 17) && d[45..62] == Octet(f.atTime, 17)
    && d[62..83] == Octet(f.srcTermId, 21) && d[83..104] == Octet(f.chargeTermId, 21)
    && d[104] == f.destTermIdCount
  }

  predicate SubmitTail(d: Str, f: S.Fields, rest: Str) {
    var m, c := 105 + 21 * |f.destTermId|, |f.msgContent|;
    && |d| == m + 1 + c + 8 + |rest|
    && (forall i :: 0 <= i < |f.destTermId| ==> d[105 + 21 * i..126 + 21 * i] == Octet(f.destTermId[i], 21))
    && d[m] == f.msgLength && d[m + 1..m + 1 + c] == f.msgContent
    && d[m + 1 + c..m + 1 + c + 8] == Octet(f.reserve, 8) && d[m + 1 + c + 8..] == rest
  }

  lemma SubmitHeadLayout(d: Str, f: S.Fields)
    requires |d| >= 105 && S.FlagsAre(d[0..3], f) && S.FeesAre(d[3..28], f) && S.TermsAre(d[28..105], f)
    ensures SubmitHead(d, f)
  {
    SubmitFees(d, f);
    Slice2(d, 28, 105, 0, 17);
    Slice2(d, 28, 105, 17, 34);
    Slice2(d, 28, 105, 34, 55);
    Slice2(d, 28, 105, 55, 76);
    assert d[104] == d[28..105][76..77][0];
  }

  lemma SubmitFees(d: Str, f: S.Fields)
    requires |d| >= 105 && S.FlagsAre(d[0..3], f) && S.FeesAre(d[3..28], f)
    ensures d[0] == f.msgType && d[1] == f.needReport && d[2] == f.priority
    ensures d[3..13] == Octet(f.serviceId, 10) && d[13..15] == Octet(f.feeType, 2)
    ensures d[15..21] == Octet(f.feeCode, 6) && d[21..27] == Octet(f.fixedFee, 6) && d[27] == f.msgFormat
  {
    assert d[0] == d[0..3][0] && d[1] == d[0..3][1] && d[2] == d[0..3][2];
    Slice2(d, 3, 28, 0, 10);
    Slice2(d, 3, 28, 10, 12);
    Slice2(d, 3, 28, 12, 18);
    Slice2(d, 3, 28, 18, 24);
    assert d[27] == d[3..28][24..25][0];
  }

  lemma SubmitDest(d: Str, ds: seq<Str>, i: nat)
    requires i < |ds| && 105 + 21 * |ds| <= |d| && d[105..105 + 21 * |ds|] == Cat(S.Dests(ds))
    ensures d[105 + 21 * i..126 + 21 * i] == Octet(ds[i], 21)
  {
    S.DestsPositions(ds);
    Slice2(d, 105, 105 + 21 * |ds|, 21 * i, 21 * i + 21);
    assert d[105 + 21 * i..105 + (21 * i + 21)] == S.Dests(ds)[i];
  }

  lemma SubmitTailLayout(d: Str, f: S.Fields, rest: Str)
    requires var m, c := 105 + 21 * |f.destTermId|, |f.msgContent|;
             && |d| == m + 1 + c + 8 + |rest|
             && d[105..m] == Cat(S.Dests(f.destTermId))
             && S.TailIs(d[m..m + 1 + c + 8], f) && d[m + 1 + c + 8..] == rest
    ensures SubmitTail(d, f, rest)
  {
    var m, c := 105 + 21 * |f.destTermId|, |f.msgContent|;
    forall i | 0 <= i < |f.destTermId|
      ensures d[105 + 21 * i..126 + 21 * i] == Octet(f.destTermId[i], 21)
    {
      SubmitDest(d, f.destTermId, i);
    }
    assert d[m] == d[m..m + 1 + c + 8][0..1][0];
    Slice2(d, m, m + 1 + c + 8, 1, 1 + c);
    Slice2(d, m, m + 1 + c + 8, 1 + c, 1 + c + 8);
  }

  /** The places of the fields of a Submit request, behind its header. */
  lemma SubmitLayout(p: S.Submit, order: seq<u16>)
    requires IsOrder(order, p.options) && S.Fits(p.fields)
    ensures var w := S.Packed(p, order).value;
            && |w| >= 12 && SubmitHead(w[12..], p.fields)
            && SubmitTail(w[12..], p.fields, Serialize(InOrder(p.options, order)))
  {
    var f, ts := p.fields, InOrder(p.options, order);
    var d := S.Body(f, ts);
    S.BodyParts(f, ts);
    HeaderOnly(Header(ToU32(S.Declared(p)), 2, f.sequenceId), d);
    SubmitHeadLayout(d, f);
    SubmitTailLayout(d, f, Serialize(ts));
  }

  // ---------------------------------------------------------------- Deliver

  predicate DeliverIs(d: Str, f: D.Fields, rest: Str) {
    var c := |f.msgContent|;
    && |d| == 77 + c + |rest|
    && d[0..10] == Octet(HexDecode(f.msgId), 10) && d[10] == f.isReport && d[11] == f.msgFormat
    && d[12..26] == Octet(f.recvTime, 14) && d[26..47] == Octet(f.srcTermId, 21) && d[47..68] == Octet(f.destTermId, 21)
    && d[68] == f.msgLength && d[69..69 + c] == f.msgContent
    && d[69 + c..77 + c] == Octet(f.reserve, 8) && d[77 + c..] == rest
  }

  lemma DeliverBodyLayout(d: Str, f: D.Fields, rest: Str)
    requires var c := |f.msgContent|;
             && |d| == 77 + c + |rest|
             && D.TopAre(d[0..12], f) && D.TermsAre(d[12..68], f)
             && D.TailIs(d[68..77 + c], f) && d[77 + c..] == rest
    ensures DeliverIs(d, f, rest)
  {
    var c := |f.msgContent|;
    Slice2(d, 0, 12, 0, 10);
    assert d[10] == d[0..12][10..11][0] && d[11] == d[0..12][11..12][0];
    Slice2(d, 12, 68, 0, 14);
    Slice2(d, 12, 68, 14, 35);
    Slice2(d, 12, 68, 35, 56);
    assert d[68] == d[68..77 + c][0..1][0];
    Slice2(d, 68, 77 + c, 1, 1 + c);
    Slice2(d, 68, 77 + c, 1 + c, 1 + c + 8);
  }

  /** The places of the fields of a Deliver request, behind its header. */
  lemma DeliverLayout(p: D.Deliver, order: seq<u16>)
    requires IsOrder(order, p.options) && D.Fits(p.fields)
    ensures var w := D.Packed(p, order).value;
            |w| >= 12 && DeliverIs(w[12..], p.fields, Serialize(InOrder(p.options, order)))
  {
    var f, ts := p.fields, InOrder(p.options, order);
    var d := D.Body(f, ts);
    D.BodyParts(f, ts);
    HeaderOnly(Header(ToU32(D.Declared(p)), 3, f.sequenceId), d);
    DeliverBodyLayout(d, f, Serialize(ts));
  }

  // ---------------------------------------------------------------- the others

  /** The places of the fields of a Login request: the padded id, the digest of what is hashed, the mode, the timestamp
      or the time it is replaced by, and the version. */
  lemma LoginLayout(l: L.LoginReq, seqId: u32, env: Env)
    ensures var w := Wire(LoginPkt(l), seqId, env);
            && |w| == 42
            && w[12..][0..8] == Octet(l.clientId, 8)
            && w[12..][8..24] == env.md5(L.Preimage(l.clientId, l.secret, l.timeStamp))
            && w[12..][24] == l.loginMode
            && U32At(w[12..], 25) == (if l.timeStamp == 0 then env.now else l.timeStamp)
            && w[12..][29] == l.clientVersion
  {
    var q := L.Rewritten(l, seqId, env.md5, env.now);
    var d := L.Body(q);
    HeaderOnly(Header(42, 1, seqId), d);
    assert d[0..8] == q.clientId && d[8..24] == q.authenticatorClient;
    assert d[25..29] == Be32(q.timeStamp);
    L.WordAt(d, 25, q.timeStamp);
  }

  /** The places of the fields of a Login response, and what its digest is of: the low byte of the status, the client's
      authenticator in sixteen bytes, and the secret. */
  lemma LoginRespLayout(l: L.LoginResp, seqId: u32, env: Env)
    ensures var w := Wire(LoginRespPkt(l), seqId, env);
            && |w| == 33
            && U32At(w[12..], 0) == l.status
            && w[12..][4..20] == env.md5([l.status % 256] + Octet(l.authenticatorClient, 16) + l.secret)
            && w[12..][20] == l.serverVersion
  {
    var q := L.RespRewritten(l, seqId, env.md5);
    var d := L.RespBody(q);
    HeaderOnly(Header(33, 0x8000_0001, seqId), d);
    assert d[0..4] == Be32(q.status) && d[4..20] == q.authenticatorServer;
    L.WordAt(d, 0, q.status);
  }

  /** The places of the fields of a Submit or Deliver response. */
  lemma RespLayout(r: Resp, seqId: u32, env: Env)
    ensures var w, v := Wire(SubmitRespPkt(r), seqId, env), Wire(DeliverRespPkt(r), seqId, env);
            && |w| == 26 && w[12..][0..10] == Octet(HexDecode(r.msgId), 10) && U32At(w[12..], 10) == r.status
            && |v| == 26 && v[12..] == w[12..]
  {
    var d := RespBody(r);
    HeaderOnly(Header(26, 0x8000_0002, seqId), d);
    HeaderOnly(Header(26, 0x8000_0003, seqId), d);
    assert d[0..10] == Octet(HexDecode(r.msgId), 10) && d[10..14] == Be32(r.status);
    L.WordAt(d, 10, r.status);
  }

  /** The places of the fields of a query. */
  lemma QueryLayout(q: Query, seqId: u32, env: Env)
    requires QueryFits(q)
    ensures var w := Wire(QueryPkt(q), seqId, env);
            && |w| == 31
            && w[12..][0..8] == Octet(q.queryTime, 8) && w[12..][8] == q.queryType
            && w[12..][9..19] == Octet(q.queryCode, 10)
  {
    HeaderOnly(Header(31, 7, seqId), QueryBody(q));
  }

  predicate QueryRespIs(d: Str, q: QueryResp) {
    && |d| == 59
    && d[0..8] == Octet(q.queryTime, 8) && d[8] == q.queryType && d[9..19] == Octet(q.queryCode, 10)
    && U32At(d, 19) == q.mtTlMsg && U32At(d, 23) == q.mtTlUsr && U32At(d, 27) == q.mtScs && U32At(d, 31) == q.mtWt
    && U32At(d, 35) == q.mtFl && U32At(d, 39) == q.moScs && U32At(d, 43) == q.moWt && U32At(d, 47) == q.moFl
    && d[51..59] == Octet(q.reserve, 8)
  }

  lemma QueryRespBodyLayout(q: QueryResp)
    ensures QueryRespIs(QueryRespBody(q), q)
  {
    var d, k := QueryRespBody(q), QueryBody(Key(q));
    assert d[0..8] == k[0..8] && d[8] == k[8] && d[9..19] == k[9..19];
    assert d[51..59] == Octet(q.reserve, 8);
    CountAt(q, 0);
    CountAt(q, 1);
    CountAt(q, 2);
    CountAt(q, 3);
    CountAt(q, 4);
    CountAt(q, 5);
    CountAt(q, 6);
    CountAt(q, 7);
  }

  /** The places of the fields of a query response, with its eight counts in their order. */
  lemma QueryRespLayout(q: QueryResp, seqId: u32, env: Env)
    requires QueryRespFits(q)
    ensures var w := Wire(QueryRespPkt(q), seqId, env); |w| == 71 && QueryRespIs(w[12..], q)
  {
    QueryRespBodyLayout(q);
    HeaderOnly(Header(71, 0x8000_0007, seqId), QueryRespBody(q));
  }

  /** A TLV: tag, length and value. */
  lemma TlvLayout(t: Tlv)
    ensures var b := TlvBytes(t);
            && |b| == 4 + |t.value|
            && b[0] as int * 256 + b[1] == t.tag && b[2] as int * 256 + b[3] == t.length && b[4..] == t.value
  {
    BigEndian(t.tag, 0);
    BigEndian(t.length, 0);
  }

  /** The text of a status report. */
  lemma ReportLayout(p: R.Report)
    ensures R.Encode(p)
            == Ascii("id:") + HexDecode(p.submitMsgId) + Ascii(" sub:") + p.sub + Ascii(" dlvrd:") + p.dlvrd
               + (Ascii(" submit_date:") + p.submitDate + Ascii(" done_date:") + p.doneDate)
               + (Ascii(" stat:") + p.stat + Ascii(" err:") + p.err + Ascii(" text:") + p.txt)
  {
    Six(Ascii("id:"), HexDecode(p.submitMsgId), Ascii(" sub:"), p.sub, Ascii(" dlvrd:"), p.dlvrd);
    Six(Ascii(" stat:"), p.stat, Ascii(" err:"), p.err, Ascii(" text:"), p.txt);
    Four(Ascii(" submit_date:"), p.submitDate, Ascii(" done_date:"), p.doneDate);
  }

  lemma Four(a: Str, b: Str, c: Str, d: Str)
    ensures Cat([a, b, c, d]) == a + b + c + d
  {
    Chain3([], a, b, c);
    CatSnoc([a, b, c], d);
    assert [a, b, c] + [d] == [a, b, c, d];
    assert [] + a + b + c == a + b + c && [] + Cat([a, b, c]) == Cat([a, b, c]);
  }

  lemma Six(a: Str, b: Str, c: Str, d: Str, e: Str, f: Str)
    ensures Cat([a, b, c, d, e, f]) == a + b + c + d + e + f
  {
    Four(a, b, c, d);
    CatSnoc([a, b, c, d], e);
    assert [a, b, c, d] + [e] == [a, b, c, d, e];
    CatSnoc([a, b, c, d, e], f);
    assert [a, b, c, d, e] + [f] == [a, b, c, d, e, f];
  }
}
