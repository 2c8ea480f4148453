/** Two properties of the example server and client together: the ids of status reports, and logging in. */
module EndToEnd {
  import opened Bytes
  import opened Results
  import opened Options
  import opened Text
  import opened Packets
  import opened Framing
  import opened MsgId
  import L = Login
  import D = Deliver
  import R = Report
  import opened Layout

  // ---------------------------------------------------------------- status reports

  const ASCII: byte := 0

  /** The report that handleSubmit makes for a message at the time t. */
  function StatusReport(id: Str, t: Str): R.Report {
    R.Report(id, Ascii("001"), Ascii("001"), t, t, Ascii("DELIVRD"), Ascii("000"), Ascii("00000000000000000000"))
  }

  /** The Deliver packet that carries it. */
  function ReportPkt(id: Str, t: Str, recvTime: Str, src: Str, dest: Str): D.Deliver {
    var content := R.Encode(StatusReport(id, t));
    D.Deliver(
      D.Fields(id, D.IS_REPORT, ASCII, recvTime, src, dest, |content| % 0x100, content, [], 0, None),
      ReportOptions())
  }

  /** TP_udhi and TP_pid. */
  function ReportOptions(): Options {
    map[][2 := NewTlv(2, [0])][1 := NewTlv(1, [1])]
  }

  predicate IsId(id: Str) {
    |id| == 20 && IsLowerHex(id)
  }

  /** The times have their widths, and the numbers come from a Submit that was unpacked. */
  predicate Usable(t: Str, recvTime: Str, src: Str, dest: Str) {
    |t| == 10 && |recvTime| == 14 && NoZero(recvTime) && |src| <= 21 && NoZero(src) && |dest| <= 21 && NoZero(dest)
  }

  lemma ReportLength(p: R.Report)
    requires R.Standard(p)
    ensures |R.Encode(p)| == 102 + |p.txt| && R.Decode(R.Encode(p)) == Some(p)
  {
    R.SpellsIsEncode(R.Encode(p), p);
    R.DecodeEncodeExactly(p);
  }

  lemma ReportSendable(id: Str, t: Str, recvTime: Str, src: Str, dest: Str)
    requires IsId(id) && Usable(t, recvTime, src, dest)
    ensures var d := ReportPkt(id, t, recvTime, src, dest);
            D.Sendable(d.fields) && WellFormed(d.options) && |d.fields.msgContent| == 122
  {
    ReportLength(StatusReport(id, t));
  }

  lemma ReportFits(id: Str, t: Str, recvTime: Str, src: Str, dest: Str, seqId: u32, env: Env)
    requires IsId(id) && Usable(t, recvTime, src, dest)
    requires IsOrder(env.order, ReportPkt(id, t, recvTime, src, dest).options)
    ensures Good(Sent(DeliverPkt(ReportPkt(id, t, recvTime, src, dest)), seqId, env))
  {
    var d := WithDeliverSeq(ReportPkt(id, t, recvTime, src, dest), seqId);
    ReportSendable(id, t, recvTime, src, dest);
    ReportOptionsSize(env.order);
    D.BodyParts(d.fields, InOrder(d.options, env.order));
  }

  lemma ReportOptionsSize(order: seq<u16>)
    requires IsOrder(order, ReportOptions())
    ensures |Serialize(InOrder(ReportOptions(), order))| == 10
  {
    SumLenInsert(map[], NewTlv(2, [0]));
    SumLenInsert(map[][2 := NewTlv(2, [0])], NewTlv(1, [1]));
    SumLenInOrder(ReportOptions(), order);
  }

  /** The text of the report. */
  function ReportText(id: Str, t: Str): Str {
    Ascii("id:") + HexDecode(id) + Ascii(" sub:") + Ascii("001") + Ascii(" dlvrd:") + Ascii("001")
    + (Ascii(" submit_date:") + t + Ascii(" done_date:") + t)
    + (Ascii(" stat:") + Ascii("DELIVRD") + Ascii(" err:") + Ascii("000")
       + Ascii(" text:") + Ascii("00000000000000000000"))
  }

  /** What the client receives: a report from the recipient to the sender, of 122 bytes, with TP_pid and TP_udhi. */
  lemma ReportArrives(id: Str, t: Str, recvTime: Str, src: Str, dest: Str, s: Sent)
    requires IsId(id) && Usable(t, recvTime, src, dest)
    requires s.packet == DeliverPkt(ReportPkt(id, t, recvTime, src, dest))
    ensures ArrivedAs(s).DeliverPkt?
    ensures var f, o := ArrivedAs(s).deliver.fields, ArrivedAs(s).deliver.options;
            && f.isReport == 1 && f.msgFormat == 0
            && f.recvTime == recvTime && f.srcTermId == src && f.destTermId == dest
            && f.msgContent == ReportText(id, t) && f.msgLength == 122 && f.reserve == [] && f.sequenceId == s.seqId
            && o == map[1 := Tlv(1, 1, [1]), 2 := Tlv(2, 1, [0])]
  {
    ReportLayout(StatusReport(id, t));
    ReportSendable(id, t, recvTime, src, dest);
    OptionsListed();
  }

  lemma OptionsListed()
    ensures ReportOptions() == map[1 := Tlv(1, 1, [1]), 2 := Tlv(2, 1, [0])]
  {}

  /** The id in the status report that the client receives is the id it was given in the Submit response, zero bytes or
      not; the id of the Deliver packet itself is that id exactly when it has no zero byte. */
  lemma ReportIdMatches(id: Str, t: Str, recvTime: Str, src: Str, dest: Str, status: u32, s: Sent, tail: Str)
    requires IsId(id) && Usable(t, recvTime, src, dest)
    requires s.packet == DeliverPkt(ReportPkt(id, t, recvTime, src, dest))
    requires IsOrder(s.env.order, s.packet.deliver.options)
    ensures RespUnpacked(RespBody(Resp(id, status, s.seqId)), s.seqId) == Ok(Resp(id, status, s.seqId))
    ensures Good(s) && IsReceived(Packed(s) + tail, ArrivedAs(s), tail)
    ensures ArrivedAs(s).DeliverPkt? && ArrivedAs(s).deliver.fields.msgStatContent == Some(StatusReport(id, t))
    ensures ArrivedAs(s).deliver.fields.msgId == id <==> NoZero(HexDecode(id))
  {
    var f := ReportPkt(id, t, recvTime, src, dest).fields;
    ReportFits(id, t, recvTime, src, dest, s.seqId, s.env);
    FrameOne(s, tail);
    RespRoundTrip(Resp(id, status, s.seqId));
    RespIdSurvives(Resp(id, status, s.seqId));
    ReportLength(StatusReport(id, t));
    D.MsgIdSurvives(f);
  }

  /** Every id that the example server makes is such an id. */
  lemma ServerIdIsId(c: Clock, start: nat, k: nat)
    requires Possible(c)
    ensures IsId(GenMsgID(Ascii("123456"), c, Draw(start, k)))
  {
    var spId := Ascii("123456");
    assert spId[0] == 49;
    TwentyDigits(spId, c, Draw(start, k));
  }

  // ---------------------------------------------------------------- logging in

  const USER: string := "100"
  const PASSWORD: string := "12345678"

  /** handleLogin lets the client in. */
  predicate LoginAccepted(p: L.LoginReq, md5: L.Md5) {
    && p.clientId == Octet(Ascii(USER), 8)
    && p.authenticatorClient == md5(L.Preimage(p.clientId, Ascii(PASSWORD), p.timeStamp))
  }

  /** The id needs no padding, and the timestamp is not replaced by another. */
  predicate Settled(p: L.LoginReq, now: u32) {
    |p.clientId| == 8 && (p.timeStamp != 0 || now == 0)
  }

  /** The server hashes what the client has hashed exactly when packing changes neither the id nor the timestamp. */
  lemma SamePreimage(p: L.LoginReq, seqId: u32, md5: L.Md5, now: u32)
    ensures var q := L.Rewritten(p, seqId, md5, now);
            L.Preimage(q.clientId, p.secret, q.timeStamp) == L.Preimage(p.clientId, p.secret, p.timeStamp)
            <==> Settled(p, now)
  {
    var q := L.Rewritten(p, seqId, md5, now);
    if |p.clientId| == 8 {
      L.SameLengthInjective(q.clientId, p.secret, q.timeStamp, p.clientId, p.secret, p.timeStamp);
    } else {
      assert |L.Preimage(q.clientId, p.secret, q.timeStamp)| != |L.Preimage(p.clientId, p.secret, p.timeStamp)|;
    }
  }

  /** A digest that tells one input from all others. */
  function Telling(x: Str): L.Md5 {
    y => if y == x then Zeros(16) else seq(16, _ => 1)
  }

  lemma TellsApart(x: Str, y: Str)
    ensures (forall md5: L.Md5 :: md5(x) == md5(y)) <==> x == y
  {
    var md5 := Telling(x);
    assert md5(x)[0] == 0;
    if x != y {
      assert md5(y)[0] == 1;
    }
  }

  /** The login packet, as it arrives, is let in under this digest. */
  predicate AcceptedUnder(p: L.LoginReq, seqId: u32, now: u32, md5: L.Md5) {
    LoginAccepted(Arrived(LoginPkt(p), seqId, Env(md5, now, [])).login, md5)
  }

  /** With the right password, the login that arrives is accepted under every digest exactly when the client id was
      given in its padded form and packing does not replace the timestamp. */
  lemma LoginWorks(p: L.LoginReq, seqId: u32, now: u32)
    requires p.secret == Ascii("12345678")
    ensures (forall md5: L.Md5 :: AcceptedUnder(p, seqId, now, md5))
            <==> p.clientId == Ascii("100") + [0, 0, 0, 0, 0] && (p.timeStamp != 0 || now == 0)
  {
    assert Octet(Ascii(USER), 8) == Ascii("100") + [0, 0, 0, 0, 0];
    var x := L.Preimage(p.clientId, p.secret, p.timeStamp);
    var y := L.Preimage(Octet(p.clientId, 8), p.secret, if p.timeStamp == 0 then now else p.timeStamp);
    SamePreimage(p, seqId, Telling(x), now);
    TellsApart(x, y);
    forall md5: L.Md5
      ensures AcceptedUnder(p, seqId, now, md5) <==> Octet(p.clientId, 8) == Octet(Ascii(USER), 8) && md5(x) == md5(y)
    {
    }
    if Octet(p.clientId, 8) != Octet(Ascii(USER), 8) {
      assert !AcceptedUnder(p, seqId, now, Telling(x));
    }
  }

  lemma LoginArrives(p: L.LoginReq, seqId: u32, env: Env, tail: Str)
    ensures var s := Sent(LoginPkt(p), seqId, env);
            Good(s) && IsReceived(Packed(s) + tail, Arrived(LoginPkt(p), seqId, env), tail)
  {
    FrameOne(Sent(LoginPkt(p), seqId, env), tail);
  }

  predicate SameAgain(p: L.LoginReq, seqId: u32, now: u32, md5: L.Md5) {
    L.Rewritten(L.Rewritten(p, seqId, md5, now), seqId, md5, now) == L.Rewritten(p, seqId, md5, now)
  }

  /** Packing a login a second time leaves it as the first time did, whatever the digest, exactly when the id needs no
      padding and the timestamp is not replaced. */
  lemma RepackIdempotent(p: L.LoginReq, seqId: u32, now: u32)
    ensures (forall md5: L.Md5 :: SameAgain(p, seqId, now, md5)) <==> Settled(p, now)
  {
    var x := L.Preimage(p.clientId, p.secret, p.timeStamp);
    var y := L.Preimage(Octet(p.clientId, 8), p.secret, if p.timeStamp == 0 then now else p.timeStamp);
    SamePreimage(p, seqId, Telling(x), now);
    TellsApart(x, y);
    forall md5: L.Md5
      ensures SameAgain(p, seqId, now, md5) <==> md5(x) == md5(y)
    {
    }
  }
}
