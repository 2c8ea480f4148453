/** The smaller packets, and the sum of all packets that the receiver can dispatch on. */
module Packets {
  import opened Bytes
  import opened Results
  import opened Options
  import opened PacketIo
  import opened Text
  import L = Login
  import S = Submit
  import D = Deliver

  // ---------------------------------------------------------------- request ids

  const SMGP_REQUEST_MAX: u32 := 19
  const SMGP_RESPONSE_MIN: u32 := 0x8000_0000
  const SMGP_RESPONSE_MAX: u32 := 0x8000_0013

  const SMGP_SUBMIT_RESP: u32 := 0x8000_0002
  const SMGP_DELIVER_RESP: u32 := 0x8000_0003
  const SMGP_ACTIVE_TEST: u32 := 4
  const SMGP_ACTIVE_TEST_RESP: u32 := 0x8000_0004
  const SMGP_EXIT: u32 := 6
  const SMGP_EXIT_RESP: u32 := 0x8000_0006
  const SMGP_QUERY: u32 := 7
  const SMGP_QUERY_RESP: u32 := 0x8000_0007

  predicate KnownId(id: u32) {
    0 < id < SMGP_REQUEST_MAX || SMGP_RESPONSE_MIN < id < SMGP_RESPONSE_MAX
  }

  // ---------------------------------------------------------------- Submit and Deliver responses

  datatype Resp = Resp(msgId: Str, status: u32, sequenceId: u32)

  /** SmgpSubmitRespPkt.Pack and SmgpDeliverRespPkt.Pack after the header: ten id bytes and the status. */
  function RespBody(p: Resp): Str {
    Octet(HexDecode(p.msgId), 10) + Be32(p.status)
  }

  /** Here the id is taken whole, zero bytes included. */
  function RespUnpacked(d: Str, sequenceId: u32): Outcome<Resp> {
    if |d| < 14 then Err(ShortRead)
    else Ok(Resp(HexEncode(d[0..10]), U32At(d, 10), sequenceId))
  }

  function RespArrived(p: Resp): Resp {
    p.(msgId := HexEncode(Octet(HexDecode(p.msgId), 10)))
  }

  lemma RespRoundTrip(p: Resp)
    ensures RespUnpacked(RespBody(p), p.sequenceId) == Ok(RespArrived(p))
  {
    var d := RespBody(p);
    assert d[0..10] == Octet(HexDecode(p.msgId), 10) && d[10..14] == Be32(p.status);
    L.WordAt(d, 10, p.status);
  }

  /** A response id survives exactly when it is twenty lower-case hex digits, zero bytes or not. */
  lemma RespIdSurvives(p: Resp)
    ensures RespArrived(p) == p <==> |p.msgId| == 20 && IsLowerHex(p.msgId)
  {
    var o := Octet(HexDecode(p.msgId), 10);
    HexIsLower(o);
    HexLossless(p.msgId);
    HexDecodeEncode(o);
  }

  // ---------------------------------------------------------------- Query

  datatype Query = Query(queryTime: Str, queryType: byte, queryCode: Str, sequenceId: u32)

  datatype QueryResp = QueryResp(
    queryTime: Str, queryType: byte, queryCode: Str,
    mtTlMsg: u32, mtTlUsr: u32, mtScs: u32, mtWt: u32, mtFl: u32, moScs: u32, moWt: u32, moFl: u32,
    reserve: Str, sequenceId: u32)

  function QueryBody(p: Query): Str {
    Octet(p.queryTime, 8) + [p.queryType] + Octet(p.queryCode, 10)
  }

  function QueryUnpacked(d: Str, sequenceId: u32): Outcome<Query> {
    if |d| < 19 then Err(ShortRead)
    else Ok(Query(Cut(d[0..8]), d[8], Cut(d[9..19]), sequenceId))
  }

  predicate QueryFits(p: Query) {
    |p.queryTime| <= 8 && |p.queryCode| <= 10
  }

  predicate QueryFaithful(p: Query) {
    QueryFits(p) && NoZero(p.queryTime) && NoZero(p.queryCode)
  }

  /** What the receiver sees: each string up to its first zero byte. */
  function QueryArrived(p: Query): Query {
    p.(queryTime := Cut(Octet(p.queryTime, 8)), queryCode := Cut(Octet(p.queryCode, 10)))
  }

  lemma QueryArrives(p: Query)
    ensures QueryUnpacked(QueryBody(p), p.sequenceId) == Ok(QueryArrived(p))
  {
    var d := QueryBody(p);
    assert d[0..8] == Octet(p.queryTime, 8) && d[9..19] == Octet(p.queryCode, 10);
  }

  /** A query that fits survives exactly when neither of its strings has a zero byte. */
  lemma QueryRoundTrip(p: Query)
    requires QueryFits(p)
    ensures QueryUnpacked(QueryBody(p), p.sequenceId) == Ok(p) <==> QueryFaithful(p)
  {
    QueryArrives(p);
    CutOctet(p.queryTime, 8);
    CutOctet(p.queryCode, 10);
  }

  function Key(p: QueryResp): Query {
    Query(p.queryTime, p.queryType, p.queryCode, p.sequenceId)
  }

  function Counts(p: QueryResp): seq<u32> {
    [p.mtTlMsg, p.mtTlUsr, p.mtScs, p.mtWt, p.mtFl, p.moScs, p.moWt, p.moFl]
  }

  function Words(ns: seq<u32>): (w: Str)
    ensures |w| == 4 * |ns|
  {
    if ns == [] then [] else Be32(ns[0]) + Words(ns[1..])
  }

  function QueryRespBody(p: QueryResp): Str {
    QueryBody(Key(p)) + Words(Counts(p)) + Octet(p.reserve, 8)
  }

  function QueryRespUnpacked(d: Str, sequenceId: u32): Outcome<QueryResp> {
    if |d| < 59 then Err(ShortRead)
    else Ok(QueryResp(Cut(d[0..8]), d[8], Cut(d[9..19]),
                      U32At(d, 19), U32At(d, 23), U32At(d, 27), U32At(d, 31),
                      U32At(d, 35), U32At(d, 39), U32At(d, 43), U32At(d, 47),
                      Cut(d[51..59]), sequenceId))
  }

  predicate QueryRespFaithful(p: QueryResp) {
    QueryFaithful(Key(p)) && |p.reserve| <= 8 && NoZero(p.reserve)
  }

  lemma {:induction false} WordsAt(ns: seq<u32>, i: nat)
    requires i < |ns|
    ensures Words(ns)[4 * i..4 * i + 4] == Be32(ns[i])
  {
    if i > 0 {
      WordsAt(ns[1..], i - 1);
      var w := Words(ns[1..]);
      assert Words(ns)[4..] == w;
      assert Words(ns)[4 * i..4 * i + 4] == w[4 * (i - 1)..4 * (i - 1) + 4];
    }
  }

  lemma CountAt(p: QueryResp, i: nat)
    requires i < 8
    ensures U32At(QueryRespBody(p), 19 + 4 * i) == Counts(p)[i]
  {
    var d, ns := QueryRespBody(p), Counts(p);
    assert d[19..51] == Words(ns);
    Slice2(d, 19, 51, 4 * i, 4 * i + 4);
    WordsAt(ns, i);
    L.WordAt(d, 19 + 4 * i, ns[i]);
  }

  function QueryRespArrived(p: QueryResp): QueryResp {
    p.(queryTime := Cut(Octet(p.queryTime, 8)), queryCode := Cut(Octet(p.queryCode, 10)),
       reserve := Cut(Octet(p.reserve, 8)))
  }

  lemma QueryRespArrives(p: QueryResp)
    ensures QueryRespUnpacked(QueryRespBody(p), p.sequenceId) == Ok(QueryRespArrived(p))
  {
    var d, q := QueryRespBody(p), QueryBody(Key(p));
    QueryArrives(Key(p));
    assert d[0..8] == q[0..8] && d[8] == q[8] && d[9..19] == q[9..19];
    assert d[51..59] == Octet(p.reserve, 8);
    CountAt(p, 0);
    CountAt(p, 1);
    CountAt(p, 2);
    CountAt(p, 3);
    CountAt(p, 4);
    CountAt(p, 5);
    CountAt(p, 6);
    CountAt(p, 7);
  }

  predicate QueryRespFits(p: QueryResp) {
    QueryFits(Key(p)) && |p.reserve| <= 8
  }

  /** A query response that fits survives exactly when none of its strings has a zero byte. */
  lemma QueryRespRoundTrip(p: QueryResp)
    requires QueryRespFits(p)
    ensures QueryRespUnpacked(QueryRespBody(p), p.sequenceId) == Ok(p) <==> QueryRespFaithful(p)
  {
    QueryRespArrives(p);
    CutOctet(p.queryTime, 8);
    CutOctet(p.queryCode, 10);
    CutOctet(p.reserve, 8);
  }

  // ---------------------------------------------------------------- all packets

  datatype Packet =
    | LoginPkt(login: L.LoginReq)
    | LoginRespPkt(loginResp: L.LoginResp)
    | SubmitPkt(submit: S.Submit)
    | SubmitRespPkt(submitResp: Resp)
    | DeliverPkt(deliver: D.Deliver)
    | DeliverRespPkt(deliverResp: Resp)
    | ActiveTestPkt(activeSeq: u32)
    | ActiveTestRespPkt(activeRespSeq: u32)
    | ExitPkt(exitSeq: u32)
    | ExitRespPkt(exitRespSeq: u32)
    | QueryPkt(query: Query)
    | QueryRespPkt(queryResp: QueryResp)

  /** The dispatch and the Unpack call of RecvAndUnpackPkt. */
  function UnpackAs(id: u32, sequenceId: u32, d: Str): Outcome<Packet> {
    if id == SMGP_ACTIVE_TEST then Ok(ActiveTestPkt(sequenceId))
    else if id == SMGP_ACTIVE_TEST_RESP then Ok(ActiveTestRespPkt(sequenceId))
    else if id == L.SMGP_LOGIN then
      Then(L.Unpacked(d, L.LoginReq([], [], 0, 0, 0, sequenceId, [])), p => LoginPkt(p))
    else if id == L.SMGP_LOGIN_RESP then
      Then(L.RespUnpacked(d, L.LoginResp(0, [], 0, [], [], sequenceId)), p => LoginRespPkt(p))
    else if id == S.SMGP_SUBMIT then Then(S.Unpacked(d, sequenceId), p => SubmitPkt(p))
    else if id == SMGP_SUBMIT_RESP then Then(RespUnpacked(d, sequenceId), p => SubmitRespPkt(p))
    else if id == D.SMGP_DELIVER then Then(D.Unpacked(d, sequenceId), p => DeliverPkt(p))
    else if id == SMGP_DELIVER_RESP then Then(RespUnpacked(d, sequenceId), p => DeliverRespPkt(p))
    else if id == SMGP_EXIT then Ok(ExitPkt(sequenceId))
    else if id == SMGP_EXIT_RESP then Ok(ExitRespPkt(sequenceId))
    else if id == SMGP_QUERY then Then(QueryUnpacked(d, sequenceId), p => QueryPkt(p))
    else if id == SMGP_QUERY_RESP then Then(QueryRespUnpacked(d, sequenceId), p => QueryRespPkt(p))
    else Err(RequestIdNotSupported)
  }

  /** The sequence id that a packet bears. */
  function SeqOf(p: Packet): u32 {
    match p
    case LoginPkt(l) => l.sequenceId
    case LoginRespPkt(l) => l.sequenceId
    case SubmitPkt(s) => s.fields.sequenceId
    case SubmitRespPkt(r) => r.sequenceId
    case DeliverPkt(d) => d.fields.sequenceId
    case DeliverRespPkt(r) => r.sequenceId
    case ActiveTestPkt(seqId) => seqId
    case ActiveTestRespPkt(seqId) => seqId
    case ExitPkt(seqId) => seqId
    case ExitRespPkt(seqId) => seqId
    case QueryPkt(q) => q.sequenceId
    case QueryRespPkt(q) => q.sequenceId
  }

  /** The request id decides what kind of packet is unpacked; the packet bears the sequence id of its header. */
  lemma KindById(id: u32, sequenceId: u32, d: Str)
    requires UnpackAs(id, sequenceId, d).Ok?
    ensures var p := UnpackAs(id, sequenceId, d).value;
            && (p.LoginPkt? <==> id == 1) && (p.LoginRespPkt? <==> id == 0x8000_0001)
            && (p.SubmitPkt? <==> id == 2) && (p.SubmitRespPkt? <==> id == 0x8000_0002)
            && (p.DeliverPkt? <==> id == 3) && (p.DeliverRespPkt? <==> id == 0x8000_0003)
            && (p.ActiveTestPkt? <==> id == 4) && (p.ActiveTestRespPkt? <==> id == 0x8000_0004)
            && (p.ExitPkt? <==> id == 6) && (p.ExitRespPkt? <==> id == 0x8000_0006)
            && (p.QueryPkt? <==> id == 7) && (p.QueryRespPkt? <==> id == 0x8000_0007)
            && SeqOf(p) == sequenceId
  {}

  /** The ids that pass the check of the header, and those among them that no packet is known for. */
  lemma IdsByNumber(id: u32, sequenceId: u32, d: Str)
    ensures KnownId(id) <==> 1 <= id <= 18 || 0x8000_0001 <= id <= 0x8000_0012
    ensures UnpackAs(id, sequenceId, d) == Err(RequestIdNotSupported)
            <==> id !in [1, 2, 3, 4, 6, 7, 0x8000_0001, 0x8000_0002, 0x8000_0003, 0x8000_0004, 0x8000_0006, 0x8000_0007]
  {}

  function Then<T, U>(o: Outcome<T>, f: T -> U): Outcome<U> {
    match o
    case Ok(v) => Ok(f(v))
    case Err(e) => Err(e)
    case Panic => Panic
  }

  /** What Pack depends on besides the packet: the digest, the clock, and the order of an options map. */
  datatype Env = Env(md5: L.Md5, now: u32, order: seq<u16>)

  predicate Packable(p: Packet, env: Env) {
    match p
    case SubmitPkt(s) => S.Faithful(s) && IsOrder(env.order, s.options)
    case DeliverPkt(d) => D.Sendable(d.fields) && WellFormed(d.options) && IsOrder(env.order, d.options)
    case QueryPkt(q) => QueryFits(q)
    case QueryRespPkt(q) => QueryRespFits(q)
    case _ => true
  }

  function WithSubmitSeq(s: S.Submit, seqId: u32): S.Submit {
    s.(fields := s.fields.(sequenceId := seqId))
  }

  function WithDeliverSeq(d: D.Deliver, seqId: u32): D.Deliver {
    d.(fields := d.fields.(sequenceId := seqId))
  }

  type SmallPacket = p: Packet | !p.LoginPkt? && !p.SubmitPkt? && !p.DeliverPkt? witness ActiveTestPkt(0)

  /** Pack of the packets whose fields all have fixed places; the Exit packets carry the ids of the active test. */
  function PackedSmall(p: SmallPacket, seqId: u32, md5: L.Md5): Outcome<Str> {
    match p
    case LoginRespPkt(l) =>
      Ok(Header(HEADER_LEN + 21, L.SMGP_LOGIN_RESP, seqId) + L.RespBody(L.RespRewritten(l, seqId, md5)))
    case SubmitRespPkt(r) => Ok(Header(HEADER_LEN + 14, SMGP_SUBMIT_RESP, seqId) + RespBody(r))
    case DeliverRespPkt(r) => Ok(Header(HEADER_LEN + 14, SMGP_DELIVER_RESP, seqId) + RespBody(r))
    case ActiveTestPkt(_) => Ok(Header(HEADER_LEN, SMGP_ACTIVE_TEST, seqId))
    case ActiveTestRespPkt(_) => Ok(Header(HEADER_LEN, SMGP_ACTIVE_TEST_RESP, seqId))
    case ExitPkt(_) => Ok(Header(HEADER_LEN, SMGP_ACTIVE_TEST, seqId))
    case ExitRespPkt(_) => Ok(Header(HEADER_LEN, SMGP_ACTIVE_TEST_RESP, seqId))
    case QueryPkt(q) =>
      if QueryFits(q) then Ok(Header(HEADER_LEN + 19, SMGP_QUERY, seqId) + QueryBody(q)) else Err(MethodParamsInvalid)
    case QueryRespPkt(q) =>
      if QueryRespFits(q)
      then Ok(Header(HEADER_LEN + 59, SMGP_QUERY_RESP, seqId) + QueryRespBody(q))
      else Err(MethodParamsInvalid)
  }

  /** The order in which the options are ranged over is one that the map can have. */
  predicate Orderable(p: Packet, env: Env) {
    match p
    case SubmitPkt(s) => IsOrder(env.order, s.options)
    case DeliverPkt(d) => IsOrder(env.order, d.options)
    case _ => true
  }

  /** What Pack returns. */
  ghost function PackedAs(p: Packet, seqId: u32, env: Env): Outcome<Str>
    requires Orderable(p, env)
  {
    match p
    case LoginPkt(l) =>
      Ok(Header(HEADER_LEN + 30, L.SMGP_LOGIN, seqId) + L.Body(L.Rewritten(l, seqId, env.md5, env.now)))
    case SubmitPkt(s) => S.Packed(WithSubmitSeq(s, seqId), env.order)
    case DeliverPkt(d) => D.Packed(WithDeliverSeq(d, seqId), env.order)
    case _ => PackedSmall(p, seqId, env.md5)
  }

  /** The bytes that Pack returns for a packet that it can pack. */
  ghost function Wire(p: Packet, seqId: u32, env: Env): (w: Str)
    requires Packable(p, env)
    ensures Orderable(p, env) && PackedAs(p, seqId, env) == Ok(w)
  {
    PackedAs(p, seqId, env).value
  }

  /** What the receiver makes of the packet. */
  function Arrived(p: Packet, seqId: u32, env: Env): Packet {
    match p
    case LoginPkt(l) => LoginPkt(L.Rewritten(l, seqId, env.md5, env.now).(secret := []))
    case LoginRespPkt(l) => LoginRespPkt(L.RespRewritten(l, seqId, env.md5).(secret := [], authenticatorClient := []))
    case SubmitPkt(s) => SubmitPkt(WithSubmitSeq(s, seqId))
    case SubmitRespPkt(r) => SubmitRespPkt(RespArrived(r).(sequenceId := seqId))
    case DeliverPkt(d) => DeliverPkt(D.Deliver(D.Arrived(d.fields).(sequenceId := seqId), d.options))
    case DeliverRespPkt(r) => DeliverRespPkt(RespArrived(r).(sequenceId := seqId))
    case ActiveTestPkt(_) => ActiveTestPkt(seqId)
    case ActiveTestRespPkt(_) => ActiveTestRespPkt(seqId)
    case ExitPkt(_) => ActiveTestPkt(seqId)
    case ExitRespPkt(_) => ActiveTestRespPkt(seqId)
    case QueryPkt(q) => QueryPkt(QueryArrived(q).(sequenceId := seqId))
    case QueryRespPkt(q) => QueryRespPkt(QueryRespArrived(q).(sequenceId := seqId))
  }

  /** A well-formed packet is framed by its header and unpacks to what should arrive. */
  predicate FramedAs(w: Str, seqId: u32, arrived: Packet) {
    && |w| >= HEADER_LEN
    && U32At(w, 0) == |w| && U32At(w, 8) == seqId && KnownId(U32At(w, 4))
    && UnpackAs(U32At(w, 4), seqId, w[HEADER_LEN..]) == Ok(arrived)
  }
}
