/** The packets whose fields all have fixed places, as objects: what Pack writes and where Unpack reads. */
module SmallPkts {
  import opened Bytes
  import opened Results
  import opened PacketIo
  import opened Text
  import opened Packets
  import L = Login
  import S = Submit
  import D = Deliver

  /** An Unpack of a packet that now holds fields has ended in r, as u says. */
  predicate Unpacks<T(==)>(r: Outcome<()>, fields: T, u: Outcome<T>) {
    match u
    case Ok(p) => r == Ok(()) && fields == p
    case Err(e) => r == Err(e)
    case Panic => false
  }

  lemma InOrder2(h: Str, a: Str, b: Str)
    ensures h + a + b == h + (a + b)
  {}

  lemma InOrder3(h: Str, a: Str, b: Str, c: Str)
    ensures h + a + b + c == h + (a + b + c)
  {}

  // ---------------------------------------------------------------- responses

  /** SmgpSubmitRespPkt and SmgpDeliverRespPkt, which differ in their request id alone. */
  class RespPkt {
    const requestId: u32
    var fields: Resp

    constructor (requestId: u32, fields: Resp)
      ensures this.requestId == requestId && this.fields == fields
    {
      this.requestId, this.fields := requestId, fields;
    }

    method Pack(seqId: u32) returns (r: Outcome<Str>)
      modifies this
      ensures fields == old(fields).(sequenceId := seqId)
      ensures r == Ok(Header(HEADER_LEN + 14, requestId, seqId) + RespBody(fields))
    {
      var w := new PkgWriter();
      w.WriteHeader(HEADER_LEN + 14, seqId, requestId);
      ghost var h := Header(HEADER_LEN + 14, requestId, seqId);
      assert w.asked == h;
      fields := fields.(sequenceId := seqId);
      var f := fields;
      w.WriteBytes(Octet(HexDecode(f.msgId), 10));
      w.WriteU32(f.status);
      r := w.Bytes();
      InOrder2(h, Octet(HexDecode(f.msgId), 10), Be32(f.status));
    }

    method Unpack(d: Str) returns (r: Outcome<()>)
      modifies this
      ensures Unpacks(r, fields, RespUnpacked(d, old(fields).sequenceId))
    {
      var f := fields;
      var rd := new PkgReader(d);
      var s := rd.ReadNew(10, 0);
      var status := rd.ReadU32(f.status, 10);
      fields := f.(msgId := HexEncode(s), status := status);
      r := if rd.failed then Err(ShortRead) else Ok(());
    }
  }

  // ---------------------------------------------------------------- queries

  method WriteQuery(w: PkgWriter, f: Query)
    requires w.Valid()
    modifies w
    ensures w.Valid() && w.asked == old(w.asked) + QueryBody(f)
    ensures old(w.err).None? ==> w.err == if QueryFits(f) then None else Some(MethodParamsInvalid)
    ensures old(w.err).Some? ==> w.err == old(w.err)
  {
    w.WriteFixedSizeString(f.queryTime, 8);
    w.WriteByte(f.queryType);
    w.WriteFixedSizeString(f.queryCode, 10);
    InOrder3(old(w.asked), Octet(f.queryTime, 8), [f.queryType], Octet(f.queryCode, 10));
  }

  predicate QueryRead(d: Str, f: Query) {
    |d| >= 19 && f.queryTime == Cut(d[0..8]) && f.queryType == d[8] && f.queryCode == Cut(d[9..19])
  }

  method ReadQuery(r: PkgReader, sequenceId: u32) returns (f: Query)
    requires r.Valid() && r.InStep(0)
    modifies r, r.cbuf
    ensures r.Valid() && r.InStep(19) && (r.failed <==> 19 > |r.data|)
    ensures f.sequenceId == sequenceId && (!r.failed ==> QueryRead(r.data, f))
  {
    var time := r.ReadString(8, 0);
    var kind := r.ReadByte(8);
    var code := r.ReadString(10, 9);
    f := Query(time, kind, code, sequenceId);
  }

  class QueryReqPkt {
    var fields: Query

    constructor (fields: Query)
      ensures this.fields == fields
    {
      this.fields := fields;
    }

    method Pack(seqId: u32) returns (r: Outcome<Str>)
      modifies this
      ensures fields == old(fields).(sequenceId := seqId)
      ensures r == if QueryFits(fields) then Ok(Header(HEADER_LEN + 19, SMGP_QUERY, seqId) + QueryBody(fields))
                   else Err(MethodParamsInvalid)
    {
      var w := new PkgWriter();
      w.WriteHeader(HEADER_LEN + 19, seqId, SMGP_QUERY);
      assert w.asked == Header(HEADER_LEN + 19, SMGP_QUERY, seqId);
      fields := fields.(sequenceId := seqId);
      WriteQuery(w, fields);
      r := w.Bytes();
    }

    method Unpack(d: Str) returns (r: Outcome<()>)
      modifies this
      ensures Unpacks(r, fields, QueryUnpacked(d, old(fields).sequenceId))
    {
      var rd := new PkgReader(d);
      var f := ReadQuery(rd, fields.sequenceId);
      fields := f;
      r := if rd.failed then Err(ShortRead) else Ok(());
    }
  }

  // ---------------------------------------------------------------- query responses

  lemma EightWords(a: u32, b: u32, c: u32, d: u32, e: u32, f: u32, g: u32, h: u32)
    ensures Words([a, b, c, d, e, f, g, h])
            == (Be32(a) + Be32(b) + Be32(c) + Be32(d)) + (Be32(e) + Be32(f) + Be32(g) + Be32(h))
  {
    WordsOf4([a, b, c, d], [e, f, g, h]);
    assert [a, b, c, d] + [e, f, g, h] == [a, b, c, d, e, f, g, h];
    FourWords(a, b, c, d);
    FourWords(e, f, g, h);
  }

  lemma {:induction false} WordsOf4(ns: seq<u32>, ms: seq<u32>)
    ensures Words(ns + ms) == Words(ns) + Words(ms)
  {
    if ns == [] {
      assert ns + ms == ms;
    } else {
      assert (ns + ms)[1..] == ns[1..] + ms;
      WordsOf4(ns[1..], ms);
    }
  }

  lemma FourWords(a: u32, b: u32, c: u32, d: u32)
    ensures Words([a, b, c, d]) == Be32(a) + Be32(b) + Be32(c) + Be32(d)
  {
    assert [a, b, c, d][1..] == [b, c, d] && [b, c, d][1..] == [c, d] && [c, d][1..] == [d];
    assert Words([d]) == Be32(d) + Words([]) == Be32(d);
    assert Words([c, d]) == Be32(c) + Be32(d);
    assert Words([b, c, d]) == Be32(b) + (Be32(c) + Be32(d));
    assert Words([a, b, c, d]) == Be32(a) + (Be32(b) + (Be32(c) + Be32(d)));
  }

  method WriteFour(w: PkgWriter, a: u32, b: u32, c: u32, d: u32)
    requires w.Valid()
    modifies w
    ensures w.Valid() && w.err == old(w.err)
    ensures w.asked == old(w.asked) + (Be32(a) + Be32(b) + Be32(c) + Be32(d))
  {
    w.WriteU32(a);
    w.WriteU32(b);
    w.WriteU32(c);
    w.WriteU32(d);
    FourInOrder(old(w.asked), Be32(a), Be32(b), Be32(c), Be32(d));
  }

  lemma FourInOrder(h: Str, a: Str, b: Str, c: Str, d: Str)
    ensures h + a + b + c + d == h + (a + b + c + d)
  {}

  method ReadFour(r: PkgReader, was: u32, ghost at: nat) returns (a: u32, b: u32, c: u32, d: u32)
    requires r.Valid() && r.InStep(at)
    modifies r
    ensures r.Valid() && r.InStep(at + 16) && (r.failed <==> at + 16 > |r.data|)
    ensures !r.failed ==>
              && a == U32At(r.data, at) && b == U32At(r.data, at + 4)
              && c == U32At(r.data, at + 8) && d == U32At(r.data, at + 12)
  {
    a := r.ReadU32(was, at);
    b := r.ReadU32(was, at + 4);
    c := r.ReadU32(was, at + 8);
    d := r.ReadU32(was, at + 12);
  }

  class QueryRespPkt {
    var fields: QueryResp

    constructor (fields: QueryResp)
      ensures this.fields == fields
    {
      this.fields := fields;
    }

    method Pack(seqId: u32) returns (r: Outcome<Str>)
      modifies this
      ensures fields == old(fields).(sequenceId := seqId)
      ensures r == if QueryRespFits(fields)
                   then Ok(Header(HEADER_LEN + 59, SMGP_QUERY_RESP, seqId) + QueryRespBody(fields))
                   else Err(MethodParamsInvalid)
    {
      var w := new PkgWriter();
      w.WriteHeader(HEADER_LEN + 59, seqId, SMGP_QUERY_RESP);
      ghost var h := Header(HEADER_LEN + 59, SMGP_QUERY_RESP, seqId);
      assert w.asked == h;
      fields := fields.(sequenceId := seqId);
      var f := fields;
      WriteQuery(w, Key(f));
      ghost var q := w.asked;
      WriteFour(w, f.mtTlMsg, f.mtTlUsr, f.mtScs, f.mtWt);
      WriteFour(w, f.mtFl, f.moScs, f.moWt, f.moFl);
      EightWords(f.mtTlMsg, f.mtTlUsr, f.mtScs, f.mtWt, f.mtFl, f.moScs, f.moWt, f.moFl);
      InOrder2(q, Be32(f.mtTlMsg) + Be32(f.mtTlUsr) + Be32(f.mtScs) + Be32(f.mtWt),
               Be32(f.mtFl) + Be32(f.moScs) + Be32(f.moWt) + Be32(f.moFl));
      assert w.asked == q + Words(Counts(f));
      w.WriteFixedSizeString(f.reserve, 8);
      r := w.Bytes();
      InOrder3(h, QueryBody(Key(f)), Words(Counts(f)), Octet(f.reserve, 8));
    }

    method Unpack(d: Str) returns (r: Outcome<()>)
      modifies this
      ensures Unpacks(r, fields, QueryRespUnpacked(d, old(fields).sequenceId))
    {
      var was := fields;
      var rd := new PkgReader(d);
      var q := ReadQuery(rd, was.sequenceId);
      var a, b, c, e := ReadFour(rd, 0, 19);
      var f, g, h, i := ReadFour(rd, 0, 35);
      var reserve := rd.ReadString(8, 51);
      fields := QueryResp(q.queryTime, q.queryType, q.queryCode, a, b, c, e, f, g, h, i, reserve, was.sequenceId);
      r := if rd.failed then Err(ShortRead) else Ok(());
    }
  }

  // ---------------------------------------------------------------- all of them

  /** The Pack of the active-test and exit packets, which are a header alone. */
  method PackHeader(requestId: u32, seqId: u32) returns (r: Outcome<Str>)
    ensures r == Ok(Header(HEADER_LEN, requestId, seqId))
  {
    var w := new PkgWriter();
    w.WriteHeader(HEADER_LEN, seqId, requestId);
    assert w.asked == Header(HEADER_LEN, requestId, seqId);
    r := w.Bytes();
  }

  method PackSmall(p: SmallPacket, seqId: u32, md5: L.Md5) returns (r: Outcome<Str>)
    ensures r == PackedSmall(p, seqId, md5)
  {
    match p
    case LoginRespPkt(l) =>
      var o := new L.LoginRespPkt(l);
      r := o.Pack(seqId, md5);
    case SubmitRespPkt(f) =>
      var o := new RespPkt(SMGP_SUBMIT_RESP, f);
      r := o.Pack(seqId);
    case DeliverRespPkt(f) =>
      var o := new RespPkt(SMGP_DELIVER_RESP, f);
      r := o.Pack(seqId);
    case ActiveTestPkt(_) => r := PackHeader(SMGP_ACTIVE_TEST, seqId);
    case ActiveTestRespPkt(_) => r := PackHeader(SMGP_ACTIVE_TEST_RESP, seqId);
    case ExitPkt(_) => r := PackHeader(SMGP_ACTIVE_TEST, seqId);
    case ExitRespPkt(_) => r := PackHeader(SMGP_ACTIVE_TEST_RESP, seqId);
    case QueryPkt(f) =>
      var o := new QueryReqPkt(f);
      r := o.Pack(seqId);
    case QueryRespPkt(f) =>
      var o := new QueryRespPkt(f);
      r := o.Pack(seqId);
  }

  method UnpackResp(id: u32, sequenceId: u32, d: Str) returns (u: Outcome<Resp>)
    ensures u == RespUnpacked(d, sequenceId)
  {
    var o := new RespPkt(id, Resp([], 0, sequenceId));
    var r := o.Unpack(d);
    var f := o.fields;
    u := Then(r, _ => f);
  }

  method UnpackQuery(sequenceId: u32, d: Str) returns (u: Outcome<Query>)
    ensures u == QueryUnpacked(d, sequenceId)
  {
    var o := new QueryReqPkt(Query([], 0, [], sequenceId));
    var r := o.Unpack(d);
    var f := o.fields;
    u := Then(r, _ => f);
  }

  method UnpackQueryResp(sequenceId: u32, d: Str) returns (u: Outcome<QueryResp>)
    ensures u == QueryRespUnpacked(d, sequenceId)
  {
    var o := new QueryRespPkt(QueryResp([], 0, [], 0, 0, 0, 0, 0, 0, 0, 0, [], sequenceId));
    var r := o.Unpack(d);
    var f := o.fields;
    u := Then(r, _ => f);
  }

  method UnpackLoginResp(sequenceId: u32, d: Str) returns (u: Outcome<L.LoginResp>)
    ensures u == L.RespUnpacked(d, L.LoginResp(0, [], 0, [], [], sequenceId))
  {
    var o := new L.LoginRespPkt(L.LoginResp(0, [], 0, [], [], sequenceId));
    var r := o.Unpack(d);
    var f := o.fields;
    u := Then(r, _ => f);
  }

  /** The dispatch for the request ids of these packets, and for those that it does not know. */
  method UnpackSmall(id: u32, sequenceId: u32, d: Str) returns (u: Outcome<SmallPacket>)
    requires id != L.SMGP_LOGIN && id != S.SMGP_SUBMIT && id != D.SMGP_DELIVER
    ensures u == UnpackAs(id, sequenceId, d)
  {
    if id == SMGP_ACTIVE_TEST {
      u := Ok(ActiveTestPkt(sequenceId));
    } else if id == SMGP_ACTIVE_TEST_RESP {
      u := Ok(ActiveTestRespPkt(sequenceId));
    } else if id == L.SMGP_LOGIN_RESP {
      var v := UnpackLoginResp(sequenceId, d);
      u := Then(v, p => LoginRespPkt(p));
    } else if id == SMGP_SUBMIT_RESP {
      var v := UnpackResp(id, sequenceId, d);
      u := Then(v, p => SubmitRespPkt(p));
    } else if id == SMGP_DELIVER_RESP {
      var v := UnpackResp(id, sequenceId, d);
      u := Then(v, p => DeliverRespPkt(p));
    } else if id == SMGP_EXIT {
      u := Ok(ExitPkt(sequenceId));
    } else if id == SMGP_EXIT_RESP {
      u := Ok(ExitRespPkt(sequenceId));
    } else if id == SMGP_QUERY {
      var v := UnpackQuery(sequenceId, d);
      u := Then(v, p => QueryPkt(p));
    } else if id == SMGP_QUERY_RESP {
      var v := UnpackQueryResp(sequenceId, d);
      u := Then(v, p => QueryRespPkt(p));
    } else {
      u := Err(RequestIdNotSupported);
    }
  }
}
