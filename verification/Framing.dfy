/** The receive loop's framing, over a whole stream of packets. */
module Framing {
  import opened Bytes
  import opened Results
  import opened Options
  import opened PacketIo
  import opened Packets
  import L = Login
  import S = Submit
  import D = Deliver

  const SMGP_PACKET_MIN: u32 := 12
  const SMGP_PACKET_MAX: u32 := 2477

  /** Whether the read deadline passes in the middle of a header or body, and after how many of its bytes. */
  datatype Arrival = InTime | LateHeader(k: nat) | LateBody(k: nat)

  /** What one receive returns, what it leaves of the stream, and the bytes it has moved into the body buffer. */
  datatype Receipt = Receipt(result: Outcome<Packet>, rest: Str, body: Str)

  datatype PktHeader = PktHeader(packetLength: u32, requestId: u32, sequenceId: u32)

  /** What reading and checking a header gives, and what it leaves of the stream. */
  datatype Head = Refused(error: Error, rest: Str) | Passed(header: PktHeader, rest: Str)

  /** The part up to the checks of the header. The bytes read before a failure are gone. */
  function RecvHeader(stream: Str, a: Arrival): (h: Head)
    ensures h.Passed? ==> SMGP_PACKET_MIN <= h.header.packetLength <= SMGP_PACKET_MAX
  {
    if a.LateHeader? && a.k < HEADER_LEN && a.k <= |stream| then Refused(ReadTimeout, stream[a.k..])
    else if |stream| < HEADER_LEN then Refused(EndOfStream, [])
    else
      var h := PktHeader(U32At(stream, 0), U32At(stream, 4), U32At(stream, 8));
      var rest := stream[HEADER_LEN..];
      if h.packetLength < SMGP_PACKET_MIN || h.packetLength > SMGP_PACKET_MAX then Refused(TotalLengthInvalid, rest)
      else if !KnownId(h.requestId) then Refused(RequestIdInvalid, rest)
      else Passed(h, rest)
  }

  /** One receive. */
  function Recv(stream: Str, a: Arrival): Receipt {
    match RecvHeader(stream, a)
    case Refused(e, rest) => Receipt(Err(e), rest, [])
    case Passed(h, rest) => RecvBody(rest, h.packetLength - HEADER_LEN, h.requestId, h.sequenceId, a)
  }

  /** Every way in which a receive in time can end, by the words of the header. */
  lemma RecvByHeader(stream: Str)
    ensures |stream| < 12 ==> Recv(stream, InTime) == Receipt(Err(EndOfStream), [], [])
    ensures |stream| >= 12 ==>
              var length, id, seqId, rest := U32At(stream, 0), U32At(stream, 4), U32At(stream, 8), stream[12..];
              if length < 12 || length > 2477 then Recv(stream, InTime) == Receipt(Err(TotalLengthInvalid), rest, [])
              else if !KnownId(id) then Recv(stream, InTime) == Receipt(Err(RequestIdInvalid), rest, [])
              else if |rest| < length - 12 then Recv(stream, InTime) == Receipt(Err(EndOfStream), [], rest)
              else
                var body := rest[..length - 12];
                Recv(stream, InTime) == Receipt(UnpackAs(id, seqId, body), rest[length - 12..], body)
  {}

  /** A timeout inside the body of a packet is an error of its own, and loses the header and what was read of the
      body. */
  lemma TimeoutInBody(stream: Str, k: nat)
    requires |stream| >= 12 + k && 12 <= U32At(stream, 0) <= 2477 && KnownId(U32At(stream, 4))
    requires k < U32At(stream, 0) - 12
    ensures Recv(stream, LateBody(k)) == Receipt(Err(BodyTimeout), stream[12 + k..], stream[12..12 + k])
  {
    var rest := stream[12..];
    assert rest[k..] == stream[12 + k..] && rest[..k] == stream[12..12 + k];
  }

  /** A packet that is received is the one that its header names. */
  lemma ReceivedByHeader(stream: Str, a: Arrival)
    requires Recv(stream, a).result.Ok?
    ensures |stream| >= 12 && SeqOf(Recv(stream, a).result.value) == U32At(stream, 8)
    ensures Recv(stream, a).result == UnpackAs(U32At(stream, 4), U32At(stream, 8), Recv(stream, a).body)
  {
    KindById(U32At(stream, 4), U32At(stream, 8), Recv(stream, a).body);
  }

  /** The part after the header, for a body of n bytes. */
  function RecvBody(rest: Str, n: nat, id: u32, sequenceId: u32, a: Arrival): Receipt {
    if a.LateBody? && a.k < n && a.k <= |rest| then Receipt(Err(BodyTimeout), rest[a.k..], rest[..a.k])
    else if |rest| < n then Receipt(Err(EndOfStream), [], rest)
    else Receipt(UnpackAs(id, sequenceId, rest[..n]), rest[n..], rest[..n])
  }

  /** The results of n receives in time, up to the first that is not a packet, and what is left of the stream. */
  function RecvAll(stream: Str, n: nat): (seq<Packet>, Str) {
    if n == 0 then ([], stream)
    else
      var r := Recv(stream, InTime);
      if r.result.Ok? then
        var (ps, end) := RecvAll(r.rest, n - 1);
        ([r.result.value] + ps, end)
      else ([], r.rest)
  }

  // ---------------------------------------------------------------- each kind of packet

  /** A header with the real length and a known id frames any body that unpacks. */
  lemma BodyFramed(length: u32, id: u32, seqId: u32, b: Str, arrived: Packet)
    requires length == HEADER_LEN + |b| && KnownId(id) && UnpackAs(id, seqId, b) == Ok(arrived)
    ensures FramedAs(Header(length, id, seqId) + b, seqId, arrived)
  {
    var h := Header(length, id, seqId);
    Prefix12(h, b);
    assert (h + b)[HEADER_LEN..] == b;
  }

  lemma HeaderFramed(id: u32, seqId: u32, arrived: Packet)
    requires KnownId(id) && UnpackAs(id, seqId, []) == Ok(arrived)
    ensures FramedAs(Header(HEADER_LEN, id, seqId), seqId, arrived)
  {
    BodyFramed(HEADER_LEN, id, seqId, [], arrived);
    assert Header(HEADER_LEN, id, seqId) + [] == Header(HEADER_LEN, id, seqId);
  }

  lemma SubmitFramed(p: S.Submit, order: seq<u16>)
    requires S.Faithful(p) && IsOrder(order, p.options)
    ensures var w := S.Packed(p, order).value;
            |w| <= SMGP_PACKET_MAX ==> FramedAs(w, p.fields.sequenceId, SubmitPkt(p))
  {
    var f, ts := p.fields, InOrder(p.options, order);
    var b := S.Body(f, ts);
    S.RoundTrip(p, order);
    S.BodyParts(f, ts);
    SumLenInOrder(p.options, order);
    assert S.Declared(p) == HEADER_LEN + |b|;
    if HEADER_LEN + |b| <= SMGP_PACKET_MAX {
      BodyFramed(HEADER_LEN + |b|, S.SMGP_SUBMIT, f.sequenceId, b, SubmitPkt(p));
    }
  }

  lemma DeliverFramed(p: D.Deliver, order: seq<u16>)
    requires D.Sendable(p.fields) && WellFormed(p.options) && IsOrder(order, p.options)
    ensures var w := D.Packed(p, order).value;
            |w| <= SMGP_PACKET_MAX ==>
              FramedAs(w, p.fields.sequenceId, DeliverPkt(D.Deliver(D.Arrived(p.fields), p.options)))
  {
    var f, ts := p.fields, InOrder(p.options, order);
    var b := D.Body(f, ts);
    D.RoundTrip(p, order);
    D.BodyParts(f, ts);
    SumLenInOrder(p.options, order);
    assert D.Declared(p) == HEADER_LEN + |b|;
    if HEADER_LEN + |b| <= SMGP_PACKET_MAX {
      BodyFramed(HEADER_LEN + |b|, D.SMGP_DELIVER, f.sequenceId, b, DeliverPkt(D.Deliver(D.Arrived(f), p.options)));
    }
  }

  lemma LoginFramed(l: L.LoginReq, seqId: u32, env: Env)
    ensures FramedAs(Wire(LoginPkt(l), seqId, env), seqId, Arrived(LoginPkt(l), seqId, env))
  {
    var q := L.Rewritten(l, seqId, env.md5, env.now);
    L.RoundTrip(q, L.LoginReq([], [], 0, 0, 0, seqId, []));
    BodyFramed(HEADER_LEN + 30, L.SMGP_LOGIN, seqId, L.Body(q), LoginPkt(q.(secret := [])));
  }

  lemma LoginRespFramed(l: L.LoginResp, seqId: u32, env: Env)
    ensures FramedAs(Wire(LoginRespPkt(l), seqId, env), seqId, Arrived(LoginRespPkt(l), seqId, env))
  {
    var q := L.RespRewritten(l, seqId, env.md5);
    L.RespRoundTrip(q, L.LoginResp(0, [], 0, [], [], seqId));
    var arrived := LoginRespPkt(q.(secret := [], authenticatorClient := []));
    BodyFramed(HEADER_LEN + 21, L.SMGP_LOGIN_RESP, seqId, L.RespBody(q), arrived);
  }

  lemma ResponsesFramed(r: Resp, seqId: u32, env: Env)
    ensures FramedAs(Wire(SubmitRespPkt(r), seqId, env), seqId, Arrived(SubmitRespPkt(r), seqId, env))
    ensures FramedAs(Wire(DeliverRespPkt(r), seqId, env), seqId, Arrived(DeliverRespPkt(r), seqId, env))
  {
    var q := RespArrived(r).(sequenceId := seqId);
    RespRoundTrip(r.(sequenceId := seqId));
    BodyFramed(HEADER_LEN + 14, SMGP_SUBMIT_RESP, seqId, RespBody(r), SubmitRespPkt(q));
    BodyFramed(HEADER_LEN + 14, SMGP_DELIVER_RESP, seqId, RespBody(r), DeliverRespPkt(q));
  }

  lemma QueryFramed(q: Query, seqId: u32)
    ensures var w := Header(HEADER_LEN + 19, SMGP_QUERY, seqId) + QueryBody(q);
            FramedAs(w, seqId, QueryPkt(QueryArrived(q).(sequenceId := seqId)))
  {
    QueryArrives(q.(sequenceId := seqId));
    BodyFramed(HEADER_LEN + 19, SMGP_QUERY, seqId, QueryBody(q), QueryPkt(QueryArrived(q).(sequenceId := seqId)));
  }

  lemma QueryRespFramed(q: QueryResp, seqId: u32)
    ensures var w := Header(HEADER_LEN + 59, SMGP_QUERY_RESP, seqId) + QueryRespBody(q);
            FramedAs(w, seqId, QueryRespPkt(QueryRespArrived(q).(sequenceId := seqId)))
  {
    QueryRespArrives(q.(sequenceId := seqId));
    var arrived := QueryRespPkt(QueryRespArrived(q).(sequenceId := seqId));
    BodyFramed(HEADER_LEN + 59, SMGP_QUERY_RESP, seqId, QueryRespBody(q), arrived);
  }

  /** Every well-formed packet within the size limit is framed by its own header. */
  lemma Framed(p: Packet, seqId: u32, env: Env)
    requires Packable(p, env) && |Wire(p, seqId, env)| <= SMGP_PACKET_MAX
    ensures FramedAs(Wire(p, seqId, env), seqId, Arrived(p, seqId, env))
  {
    match p
    case LoginPkt(l) => LoginFramed(l, seqId, env);
    case LoginRespPkt(l) => LoginRespFramed(l, seqId, env);
    case SubmitPkt(s) => SubmitFramed(WithSubmitSeq(s, seqId), env.order);
    case SubmitRespPkt(r) => ResponsesFramed(r, seqId, env);
    case DeliverPkt(d) => DeliverFramed(WithDeliverSeq(d, seqId), env.order);
    case DeliverRespPkt(r) => ResponsesFramed(r, seqId, env);
    case ActiveTestPkt(_) => HeaderFramed(SMGP_ACTIVE_TEST, seqId, ActiveTestPkt(seqId));
    case ActiveTestRespPkt(_) => HeaderFramed(SMGP_ACTIVE_TEST_RESP, seqId, ActiveTestRespPkt(seqId));
    case ExitPkt(_) => HeaderFramed(SMGP_ACTIVE_TEST, seqId, ActiveTestPkt(seqId));
    case ExitRespPkt(_) => HeaderFramed(SMGP_ACTIVE_TEST_RESP, seqId, ActiveTestRespPkt(seqId));
    case QueryPkt(q) => QueryFramed(q, seqId);
    case QueryRespPkt(q) => QueryRespFramed(q, seqId);
  }

  // ---------------------------------------------------------------- a stream of packets

  datatype Sent = Sent(packet: Packet, seqId: u32, env: Env)

  /** A well-formed packet that fits the receiver's limit. */
  ghost predicate Good(s: Sent) {
    Packable(s.packet, s.env) && |Wire(s.packet, s.seqId, s.env)| <= SMGP_PACKET_MAX
  }

  ghost function Packed(s: Sent): Str
    requires Good(s)
  {
    Wire(s.packet, s.seqId, s.env)
  }

  ghost predicate AllGood(sent: seq<Sent>) {
    forall i :: 0 <= i < |sent| ==> Good(sent[i])
  }

  ghost function Stream(sent: seq<Sent>): Str
    requires AllGood(sent)
  {
    if sent == [] then [] else Packed(sent[0]) + Stream(sent[1..])
  }

  function ArrivedAs(s: Sent): Packet {
    Arrived(s.packet, s.seqId, s.env)
  }

  function AllArrived(sent: seq<Sent>): (ps: seq<Packet>)
    ensures |ps| == |sent|
  {
    seq(|sent|, i requires 0 <= i < |sent| => ArrivedAs(sent[i]))
  }

  /** A receive in time gives the packet p and leaves rest. */
  predicate IsReceived(stream: Str, p: Packet, rest: Str) {
    Recv(stream, InTime).result == Ok(p) && Recv(stream, InTime).rest == rest
  }

  /** One receive takes exactly the bytes of one packet, whatever follows. */
  lemma FrameOne(s: Sent, tail: Str)
    requires Good(s)
    ensures IsReceived(Packed(s) + tail, ArrivedAs(s), tail)
  {
    Framed(s.packet, s.seqId, s.env);
    FramedIsReceived(Packed(s), s.seqId, ArrivedAs(s), tail);
  }

  lemma FramedIsReceived(w: Str, seqId: u32, arrived: Packet, tail: Str)
    requires FramedAs(w, seqId, arrived) && |w| <= SMGP_PACKET_MAX
    ensures IsReceived(w + tail, arrived, tail)
  {
    var stream := w + tail;
    assert stream[..|w|] == w;
    Prefix12(w, tail);
    assert stream[HEADER_LEN..][..|w| - HEADER_LEN] == w[HEADER_LEN..];
    assert stream[HEADER_LEN..][|w| - HEADER_LEN..] == tail;
  }

  lemma RecvAllNext(stream: Str, n: nat, p: Packet, rest: Str)
    requires n > 0 && IsReceived(stream, p, rest)
    ensures RecvAll(stream, n) == ([p] + RecvAll(rest, n - 1).0, RecvAll(rest, n - 1).1)
  {}

  /** Receiving over the concatenation of any packets gives those packets back, and leaves exactly what follows them. */
  lemma {:induction false} FrameStream(sent: seq<Sent>, tail: Str)
    requires AllGood(sent)
    ensures RecvAll(Stream(sent) + tail, |sent|) == (AllArrived(sent), tail)
  {
    if sent == [] {
      assert Stream(sent) + tail == tail;
    } else {
      var s, others := sent[0], sent[1..];
      assert Good(s) && AllGood(others);
      FrameOne(s, Stream(others) + tail);
      RecvAllNext(Packed(s) + (Stream(others) + tail), |sent|, ArrivedAs(s), Stream(others) + tail);
      FrameStream(others, tail);
      Reassociate(Packed(s), Stream(others), tail);
      AllArrivedNext(sent);
    }
  }

  lemma Reassociate(a: Str, b: Str, c: Str)
    ensures a + b + c == a + (b + c)
  {}

  /** The receive after k of the packets gives packet k, and leaves the packets after it. */
  lemma FrameNth(sent: seq<Sent>, k: nat, tail: Str)
    requires AllGood(sent) && k < |sent|
    ensures IsReceived(Stream(sent[k..]) + tail, ArrivedAs(sent[k]), Stream(sent[k + 1..]) + tail)
  {
    var others := sent[k + 1..];
    assert Good(sent[k]) && sent[k..][1..] == others;
    FrameOne(sent[k], Stream(others) + tail);
    Reassociate(Packed(sent[k]), Stream(others), tail);
  }

  /** Only a passed deadline reads as a timeout. */
  lemma InTimeIsNoTimeout(stream: Str)
    ensures Recv(stream, InTime).result != Err(ReadTimeout)
  {}

  lemma AllArrivedNext(sent: seq<Sent>)
    requires sent != []
    ensures AllArrived(sent) == [ArrivedAs(sent[0])] + AllArrived(sent[1..])
  {}

  // ---------------------------------------------------------------- a timeout inside a header

  /** The bytes of a body without which this packet cannot be unpacked. */
  ghost function Needs(p: Packet): nat {
    match p
    case LoginPkt(_) => 30
    case LoginRespPkt(_) => 21
    case SubmitPkt(s) => 114 + 21 * |s.fields.destTermId| + |s.fields.msgContent| + SumLen(s.options)
    case SubmitRespPkt(_) => 14
    case DeliverPkt(d) => 77 + |d.fields.msgContent| + SumLen(d.options)
    case DeliverRespPkt(_) => 14
    case QueryPkt(_) => 19
    case QueryRespPkt(_) => 59
    case _ => 0
  }

  lemma ParseTakes(d: Str, m: Options)
    requires Parse(d) == Ok(m)
    ensures SumLen(m) <= |d|
  {
    var ts := Decompose(d).value;
    AcceptsExactlyTlvs(d, ts);
    SumLenOfParse(ts);
  }

  lemma SubmitTakes(b: Str, sequenceId: u32, p: S.Submit)
    requires S.Unpacked(b, sequenceId) == Ok(p)
    ensures |b| >= Needs(SubmitPkt(p))
  {
    ParseTakes(b[S.OptionsOffset(b)..], p.options);
  }

  lemma DeliverTakes(b: Str, sequenceId: u32, p: D.Deliver)
    requires D.Unpacked(b, sequenceId) == Ok(p)
    ensures |b| >= Needs(DeliverPkt(p))
  {
    ParseTakes(b[D.OptionsOffset(b)..], p.options);
  }

  lemma UnpackTakes(id: u32, sequenceId: u32, b: Str, p: Packet)
    requires UnpackAs(id, sequenceId, b) == Ok(p)
    ensures |b| >= Needs(p)
  {
    match p
    case SubmitPkt(s) => SubmitTakes(b, sequenceId, s);
    case DeliverPkt(d) => DeliverTakes(b, sequenceId, d);
    case _ =>
  }

  /** A receive takes at least a header and the bytes that the packet needs. */
  lemma ReceiveTakes(stream: Str, p: Packet, rest: Str)
    requires IsReceived(stream, p, rest)
    ensures |stream| - |rest| >= HEADER_LEN + Needs(p)
  {
    var n := U32At(stream, 0) - HEADER_LEN;
    UnpackTakes(U32At(stream, 4), U32At(stream, 8), stream[HEADER_LEN..][..n], p);
  }

  lemma SubmitNeeds(p: S.Submit, order: seq<u16>)
    requires S.Faithful(p) && IsOrder(order, p.options)
    ensures |S.Packed(p, order).value| == HEADER_LEN + Needs(SubmitPkt(p))
  {
    S.BodyParts(p.fields, InOrder(p.options, order));
    SumLenInOrder(p.options, order);
  }

  lemma DeliverNeeds(p: D.Deliver, order: seq<u16>)
    requires D.Sendable(p.fields) && WellFormed(p.options) && IsOrder(order, p.options)
    ensures |D.Packed(p, order).value| == HEADER_LEN + Needs(DeliverPkt(p))
  {
    D.BodyParts(p.fields, InOrder(p.options, order));
    SumLenInOrder(p.options, order);
  }

  lemma OtherNeeds(p: Packet, seqId: u32, env: Env)
    requires Packable(p, env) && !p.SubmitPkt? && !p.DeliverPkt?
    ensures |Wire(p, seqId, env)| == HEADER_LEN + Needs(Arrived(p, seqId, env))
  {}

  /** A packed packet has no byte more than the packet that arrives needs. */
  lemma PackedNeeds(s: Sent)
    requires Good(s)
    ensures |Packed(s)| == HEADER_LEN + Needs(ArrivedAs(s))
  {
    match s.packet
    case SubmitPkt(p) => SubmitNeeds(WithSubmitSeq(p, s.seqId), s.env.order);
    case DeliverPkt(p) => DeliverNeeds(WithDeliverSeq(p, s.seqId), s.env.order);
    case _ => OtherNeeds(s.packet, s.seqId, s.env);
  }

  /** The loop goes on after a timeout inside a header. The next receive gets the packet, and leaves what follows it,
      exactly if the timeout has passed before the first byte. */
  lemma TimeoutExactly(s: Sent, tail: Str, k: nat)
    requires Good(s) && k < HEADER_LEN
    ensures var stream := Packed(s) + tail;
            && Recv(stream, LateHeader(k)) == Receipt(Err(ReadTimeout), stream[k..], [])
            && (IsReceived(stream[k..], ArrivedAs(s), tail) <==> k == 0)
  {
    var stream := Packed(s) + tail;
    PackedNeeds(s);
    if k == 0 {
      assert stream[0..] == stream;
      FrameOne(s, tail);
    } else if IsReceived(stream[k..], ArrivedAs(s), tail) {
      ReceiveTakes(stream[k..], ArrivedAs(s), tail);
    }
  }

  lemma LateBeforeHeader(stream: Str)
    ensures Recv(stream, LateHeader(0)) == Receipt(Err(ReadTimeout), stream, [])
  {}

  /** What it gets otherwise: the next length lies across two fields, and for these k no packet has a length and an id
      that make it acceptable. */
  lemma LateInsideHeader(s: Sent, tail: Str, k: nat)
    requires Good(s) && k in [1, 2, 3, 4, 6, 7]
    ensures var stream := Packed(s) + tail;
            && Recv(stream, LateHeader(k)) == Receipt(Err(ReadTimeout), stream[k..], [])
            && Recv(stream[k..], InTime).result
               == Err(if |stream| < k + HEADER_LEN then EndOfStream else TotalLengthInvalid)
  {
    Framed(s.packet, s.seqId, s.env);
    var w, stream := Packed(s), Packed(s) + tail;
    LengthAndId(w, s.seqId, ArrivedAs(s));
    assert stream[0] == w[0] && stream[1] == w[1] && stream[2] == w[2] && stream[3] == w[3];
    assert stream[4] == w[4] && stream[5] == w[5] && stream[6] == w[6] && stream[7] == w[7];
    if |stream| >= k + HEADER_LEN {
      Shifted(stream, k);
    }
  }

  /** The first eight bytes of a framed packet: its length in the low two of four, then a request or response id. */
  predicate LengthAndIdAre(w: Str) {
    && |w| >= 8
    && w[0] == 0 && w[1] == 0 && w[2] as int * 0x100 + w[3] >= SMGP_PACKET_MIN
    && (w[4] == 0 || w[4] == 0x80) && w[5] == 0 && w[6] == 0 && 1 <= w[7] <= 7
  }

  lemma LengthAndId(w: Str, seqId: u32, arrived: Packet)
    requires FramedAs(w, seqId, arrived) && |w| <= SMGP_PACKET_MAX
    ensures LengthAndIdAre(w)
  {
    var id := U32At(w, 4);
    assert id < 8 || 0x8000_0000 < id < 0x8000_0008;
  }

  lemma Shifted(stream: Str, k: nat)
    requires LengthAndIdAre(stream) && k in [1, 2, 3, 4, 6, 7] && |stream| >= k + HEADER_LEN
    ensures var length := U32At(stream[k..], 0); length < SMGP_PACKET_MIN || length > SMGP_PACKET_MAX
  {
    var t := stream[k..];
    assert t[0] == stream[k] && t[1] == stream[k + 1] && t[2] == stream[k + 2] && t[3] == stream[k + 3];
  }

  /** After eight lost bytes the sequence id is taken for the length, and the loop can receive a packet that nobody
      sent. */
  lemma LateForgesPacket(s: Sent, tail: Str)
    requires Good(s) && s.packet.SubmitPkt? && s.seqId == SMGP_PACKET_MIN
    requires var f := s.packet.submit.fields;
             f.msgType == f.needReport == f.priority == 0 && |f.serviceId| >= 5 && f.serviceId[0] == SMGP_ACTIVE_TEST
    ensures var r := Recv(Packed(s) + tail, LateHeader(8));
            && r.result == Err(ReadTimeout)
            && Recv(r.rest, InTime).result == Ok(ActiveTestPkt(U32At(s.packet.submit.fields.serviceId, 1)))
  {
    var p := WithSubmitSeq(s.packet.submit, s.seqId);
    SubmitStarts(p, s.env.order);
    Forged(Packed(s), tail, p.fields.serviceId);
  }

  /** The bytes of a packed Submit from its sequence id to the start of its service id. */
  predicate StartsWith(w: Str, seqId: u32, flags: Str, serviceId: Str)
    requires |flags| == 3 && |serviceId| >= 5
  {
    && |w| >= 20 && U32At(w, 8) == seqId
    && w[12] == flags[0] && w[13] == flags[1] && w[14] == flags[2]
    && w[15] == serviceId[0] && w[16] == serviceId[1] && w[17] == serviceId[2]
    && w[18] == serviceId[3] && w[19] == serviceId[4]
  }

  lemma SubmitStarts(p: S.Submit, order: seq<u16>)
    requires S.Faithful(p) && IsOrder(order, p.options) && |p.fields.serviceId| >= 5
    ensures var f := p.fields;
            StartsWith(S.Packed(p, order).value, f.sequenceId, [f.msgType, f.needReport, f.priority], f.serviceId)
  {
    var f, ts := p.fields, InOrder(p.options, order);
    var d := S.Body(f, ts);
    S.BodyParts(f, ts);
    S.ReadFees(d, f);
    BodyStarts(Header(ToU32(S.Declared(p)), S.SMGP_SUBMIT, f.sequenceId), d, f);
  }

  lemma BodyStarts(h: Str, d: Str, f: S.Fields)
    requires |h| == HEADER_LEN && S.FeesRead(d, f) && |f.serviceId| >= 5
    ensures StartsWith(h + d, U32At(h, 8), [f.msgType, f.needReport, f.priority], f.serviceId)
  {
    Prefix12(h, d);
    var w, name := h + d, f.serviceId;
    assert name == d[3..13][..|name|];
    assert d[3] == name[0] && d[4] == name[1] && d[5] == name[2] && d[6] == name[3] && d[7] == name[4];
    assert w[12] == d[0] && w[13] == d[1] && w[14] == d[2] && w[15] == d[3];
    assert w[16] == d[4] && w[17] == d[5] && w[18] == d[6] && w[19] == d[7];
  }

  lemma Forged(w: Str, tail: Str, serviceId: Str)
    requires |serviceId| >= 5 && serviceId[0] == SMGP_ACTIVE_TEST
    requires StartsWith(w, SMGP_PACKET_MIN, [0, 0, 0], serviceId)
    ensures var r := Recv(w + tail, LateHeader(8));
            r.result == Err(ReadTimeout) && Recv(r.rest, InTime).result == Ok(ActiveTestPkt(U32At(serviceId, 1)))
  {
    var rest := (w + tail)[8..];
    assert rest[0] == w[8] && rest[1] == w[9] && rest[2] == w[10] && rest[3] == w[11];
    assert rest[4] == w[12] && rest[5] == w[13] && rest[6] == w[14] && rest[7] == w[15];
    assert rest[8] == w[16] && rest[9] == w[17] && rest[10] == w[18] && rest[11] == w[19];
    ActiveTestReceived(rest);
  }

  lemma ActiveTestReceived(stream: Str)
    requires |stream| >= HEADER_LEN && U32At(stream, 0) == SMGP_PACKET_MIN && U32At(stream, 4) == SMGP_ACTIVE_TEST
    ensures Recv(stream, InTime).result == Ok(ActiveTestPkt(U32At(stream, 8)))
  {}
}
