/** The methods of the server's conn, one call at a time, each doing what a step of the Server module does. */
module ServerConn {
  import opened Bytes
  import opened Results
  import opened PacketIo
  import opened Packets
  import opened Framing
  import opened Connection
  import opened Server
  import opened Outgoing
  import L = Login
  import S = Submit
  import D = Deliver

  /** The request in memory, the reply that is to be filled in, and the sequence id it will bear. */
  datatype Response = Response(packet: Packer, reply: Option<SmallPacket>, seqId: u32)

  /** The empty reply that readPacket prepares. */
  function EmptyReply(p: Packet): (q: Option<SmallPacket>)
    ensures q.Some? <==> ReplyTo(p).Some?
    ensures q.Some? ==> Replying(p, q.value)
  {
    match p
    case LoginPkt(l) => Some(LoginRespPkt(L.LoginResp(0, [], 0, [], [], l.sequenceId)))
    case SubmitPkt(s) => Some(SubmitRespPkt(Resp([], 0, s.fields.sequenceId)))
    case DeliverPkt(d) => Some(DeliverRespPkt(Resp([], 0, d.fields.sequenceId)))
    case ActiveTestPkt(seqId) => Some(ActiveTestRespPkt(seqId))
    case ExitPkt(seqId) => Some(ExitRespPkt(seqId))
    case QueryPkt(q) => Some(QueryRespPkt(QueryResp([], 0, [], 0, 0, 0, 0, 0, 0, 0, 0, [], q.sequenceId)))
    case _ => None
  }

  /** The reply starts out with nothing but the sequence id of its request. */
  predicate Blank(q: Packet) {
    match q
    case LoginRespPkt(l) =>
      && l.status == 0 && l.serverVersion == 0
      && l.authenticatorServer == [] && l.secret == [] && l.authenticatorClient == []
    case SubmitRespPkt(r) => r.msgId == [] && r.status == 0
    case DeliverRespPkt(r) => r.msgId == [] && r.status == 0
    case QueryRespPkt(x) =>
      && x.queryTime == [] && x.queryType == 0 && x.queryCode == [] && x.reserve == []
      && forall i :: 0 <= i < 8 ==> Packets.Counts(x)[i] == 0
    case _ => true
  }

  lemma EmptyReplyIsBlank(p: Packet)
    requires ReplyTo(p).Some?
    ensures Blank(EmptyReply(p).value) && SeqOf(EmptyReply(p).value) == SeqOf(p)
  {}

  /** What a received object is, options aside. */
  function KindOf(o: Packer): Packet
    reads Objects(o)
  {
    match o
    case LoginObj(l) => LoginPkt(l.fields)
    case SubmitObj(s) => SubmitPkt(S.Submit(s.fields, map[]))
    case DeliverObj(d) => DeliverPkt(D.Deliver(d.fields, map[]))
    case Small(q) => q
  }

  lemma KindDecides(o: Packer, p: Packet, arr: array<byte>, d: Str)
    requires Holds(o, p, arr, d)
    ensures ReplyTo(KindOf(o)) == ReplyTo(p) && KindOf(o).ActiveTestRespPkt? == p.ActiveTestRespPkt?
    ensures forall version: byte :: Accepted(KindOf(o), version) <==> Accepted(p, version)
  {}

  /** r is what readPacket has made of the packet p. */
  predicate ResponseTo(r: Response, p: Packet) {
    && (r.packet.Small? && r.packet.packet.ActiveTestRespPkt? <==> p.ActiveTestRespPkt?)
    && (r.reply.Some? <==> ReplyTo(p).Some?)
    && (r.reply.Some? ==> Replying(p, r.reply.value) && r.seqId == ReplyTo(p).value.seqId)
  }

  /** On a closed connection nothing is sent. */
  predicate SentAs(closed: bool, before: Str, after: Str, packed: Outcome<Str>, breaks: Option<nat>, r: Outcome<()>) {
    if closed then r == Err(ConnIsClosed) && after == before
    else Writes(before, after, packed, breaks, r)
  }

  /** How many bytes of a packet that was not written in full have been written. */
  function CutOf(closed: bool, packed: Outcome<Str>, breaks: Option<nat>, e: Outcome<()>): nat {
    if closed || e.Ok? || !packed.Ok? || breaks.None? then 0 else breaks.value
  }

  lemma SmallIsGood(q: SmallPacket, seqId: u32, env: Env)
    requires PackedSmall(q, seqId, env.md5).Ok?
    ensures Good(Sent(q, seqId, env)) && Packed(Sent(q, seqId, env)) == PackedSmall(q, seqId, env.md5).value
  {}

  /** Sending a packet is the writing of an entry. */
  lemma SendIsWriting(w: Wired, a: Act, x: Entry, t: Server, q: SmallPacket, breaks: Option<nat>, e: Outcome<()>,
                      after: Str)
    requires x.sent == Sent(q, x.sent.seqId, x.sent.env) && (x.kind.Answer? ==> Replying(x.kind.to, a.reply))
    requires var packed := PackedSmall(q, x.sent.seqId, x.sent.env.md5);
             && SentAs(w.s.closed, w.outgoing, after, packed, breaks, e)
             && Through(a) == e.Ok? && a.cut == CutOf(w.s.closed, packed, breaks, e)
    ensures CanWrite(w.s, a, x) && Written(w, a, x, t).outgoing == after && Written(w, a, x, t).s == t
  {
    var packed := PackedSmall(q, x.sent.seqId, x.sent.env.md5);
    if packed.Ok? {
      SmallIsGood(q, x.sent.seqId, x.sent.env);
    }
  }

  method SendSmall(conn: Conn, q: SmallPacket, seqId: u32, md5: L.Md5, now: u32, breaks: Option<nat>)
    returns (r: Outcome<()>)
    modifies conn`outgoing
    ensures SentAs(conn.state == CLOSED, old(conn.outgoing), conn.outgoing, PackedSmall(q, seqId, md5), breaks, r)
  {
    ghost var order;
    r, order := conn.SendPkt(Small(q), seqId, md5, now, breaks);
  }

  // ---------------------------------------------------------------- the steps that a call makes

  /** Two states of the protocol that agree on what is kept in the connection. */
  predicate SameConn(s: Server, t: Server) {
    && t.n == s.n && t.version == s.version
    && t.closed == s.closed && t.incoming == s.incoming && t.doneCloses == s.doneCloses
  }

  /** The act that finishes a packet: the reply has been sent with this outcome. */
  function FinishAct(s: Server, r: Response, env: Env, breaks: Option<nat>, e: Outcome<()>): Act {
    var cut := if r.reply.Some? then CutOf(s.closed, PackedSmall(r.reply.value, r.seqId, env.md5), breaks, e) else 0;
    var reply := if r.reply.Some? then r.reply.value else ActiveTestPkt(0);
    Act(Finish(e.Ok? && !s.closed), reply, 0, env, false, cut)
  }

  /** The reply that a received packet asks for has the sequence id of its header. */
  lemma AskedOnConn(closed: bool, stream: Str, a: Arrival, version: byte)
    ensures var g := RecvOn(closed, stream, a);
            g.result.Ok? && ReplyTo(g.result.value).Some? ==>
              |stream| >= 12 && ReplyTo(g.result.value).value.seqId == U32At(stream, 8)
  {
    if !closed && Recv(stream, a).result.Ok? {
      DecidedByBytes(stream, a, version);
    }
  }

  lemma ReadEffect(s: Server, g: Receipt)
    ensures var t := AfterRead(s, g);
            && t.n == s.n && t.version == s.version && t.closed == s.closed && t.incoming == g.rest
            && t.counter == s.counter && t.doneCloses == s.doneCloses
            && (t.serve.Handling? <==> g.result.Ok? && Accepted(g.result.value, s.version))
  {}

  /** An act leads from w to t. */
  ghost predicate Acts(w: Wired, t: Wired, a: Act) {
    CanAct(w.s, a) && t == WiredStep(w, a)
  }

  lemma FinishShows(w: Wired, r: Response, env: Env, breaks: Option<nat>, e: Outcome<()>, after: Str)
    returns (t: Wired)
    requires w.s.serve.Finishing? && ResponseTo(r, w.s.serve.p)
    requires if r.reply.None? then e == Ok(()) && after == w.outgoing
             else SentAs(w.s.closed, w.outgoing, after, PackedSmall(r.reply.value, r.seqId, env.md5), breaks, e)
    ensures Acts(w, t, FinishAct(w.s, r, env, breaks, e)) && t.outgoing == after
    ensures t.s == AfterFinish(w.s, w.s.serve.p, w.s.serve.failed, e.Ok? && !w.s.closed)
  {
    var a := FinishAct(w.s, r, env, breaks, e);
    FinishSteps(w.s, a);
    if r.reply.Some? {
      ReplyAttempt(w.s, r, env, breaks, e);
      var x := Attempt(w.s, a).value;
      SendIsWriting(w, a, x, Step(w.s, a.e).value, r.reply.value, breaks, e, after);
    }
    t := WiredStep(w, a);
  }

  lemma FinishSteps(s: Server, a: Act)
    requires s.serve.Finishing? && a.e.Finish? && (a.e.ok ==> !s.closed)
    ensures Step(s, a.e) == Some(AfterFinish(s, s.serve.p, s.serve.failed, a.e.ok))
  {}

  lemma ReplyAttempt(s: Server, r: Response, env: Env, breaks: Option<nat>, e: Outcome<()>)
    requires s.serve.Finishing? && ResponseTo(r, s.serve.p) && r.reply.Some?
    ensures var x := Entry(Answer(s.serve.p), Sent(r.reply.value, r.seqId, env));
            Attempt(s, FinishAct(s, r, env, breaks, e)) == Some(x) && Replying(s.serve.p, r.reply.value)
  {}

  lemma FinishEffect(s: Server, p: Packet, failed: bool, ok: bool)
    ensures var t := AfterFinish(s, p, failed, ok);
            SameConn(s, t) && t.counter == if p.ActiveTestRespPkt? then Wrap32(s.counter - 1) else s.counter
  {}

  /** The acts Load, SendTest and Add of one tick, where the test has been sent with the outcome e. */
  function TestAct(e: Event, seqId: u32, env: Env, cut: nat): Act {
    Act(e, ActiveTestPkt(0), seqId, env, false, cut)
  }

  /** The acts of a tick at which the alarm is raised, or a test is sent with the outcome e. */
  function TickActs(alarm: bool, seqId: u32, env: Env, e: Outcome<()>, cut: nat): seq<Act> {
    var load, test := TestAct(Load, seqId, env, 0), TestAct(SendTest(e.Ok?), seqId, env, cut);
    if alarm then [load]
    else if e.Ok? then [load] + [test] + [TestAct(Add, seqId, env, 0)]
    else [load] + [test]
  }

  lemma ExecAct(w: Wired, acts: seq<Act>, v: Wired, a: Act)
    requires WiredExec(w, acts) == Some(v) && CanAct(v.s, a)
    ensures WiredExec(w, acts + [a]) == Some(WiredStep(v, a))
  {
    assert (acts + [a])[..|acts|] == acts;
  }

  lemma ExecFirst(w: Wired, a: Act)
    requires CanAct(w.s, a)
    ensures WiredExec(w, [a]) == Some(WiredStep(w, a))
  {
    ExecAct(w, [], w, a);
    assert [] + [a] == [a];
  }

  lemma AlarmShows(w: Wired, seqId: u32, env: Env) returns (t: Wired)
    requires w.s.ticker.Ticked? && w.s.counter >= w.s.n
    ensures WiredExec(w, TickActs(true, seqId, env, Ok(()), 0)) == Some(t) && t == w.(s := w.s.(ticker := Alarmed))
  {
    var load := TestAct(Load, seqId, env, 0);
    t := WiredStep(w, load);
    ExecFirst(w, load);
  }

  lemma LoadShows(w: Wired, seqId: u32, env: Env)
    requires w.s.ticker.Ticked? && w.s.counter < w.s.n
    ensures var a := TestAct(Load, seqId, env, 0);
            CanAct(w.s, a) && WiredStep(w, a) == w.(s := w.s.(ticker := Sending))
  {}

  lemma SendTestShows(w: Wired, seqId: u32, env: Env, breaks: Option<nat>, e: Outcome<()>, after: Str)
    requires w.s.ticker.Sending?
    requires SentAs(w.s.closed, w.outgoing, after, PackedSmall(ActiveTestPkt(0), seqId, env.md5), breaks, e)
    ensures var cut := CutOf(w.s.closed, PackedSmall(ActiveTestPkt(0), seqId, env.md5), breaks, e);
            var a := TestAct(SendTest(e.Ok?), seqId, env, cut);
            && CanAct(w.s, a) && WiredStep(w, a).outgoing == after && SameConn(w.s, WiredStep(w, a).s)
            && WiredStep(w, a).s.counter == w.s.counter
            && WiredStep(w, a).s.ticker == if e.Ok? then Adding else Select
  {
    var cut := CutOf(w.s.closed, PackedSmall(ActiveTestPkt(0), seqId, env.md5), breaks, e);
    var a := TestAct(SendTest(e.Ok?), seqId, env, cut);
    SendIsWriting(w, a, Attempt(w.s, a).value, Step(w.s, a.e).value, ActiveTestPkt(0), breaks, e, after);
  }

  lemma AddShows(w: Wired, seqId: u32, env: Env)
    requires w.s.ticker.Adding?
    ensures var a := TestAct(Add, seqId, env, 0);
            && CanAct(w.s, a)
            && WiredStep(w, a) == w.(s := w.s.(ticker := Select, counter := Wrap32(w.s.counter + 1)))
  {}

  /** The counter after a test has been sent with the outcome e. */
  function CountTest(counter: int32, e: Outcome<()>): int32 {
    if e.Ok? then Wrap32(counter + 1) else counter
  }

  lemma TestShows(w: Wired, seqId: u32, env: Env, breaks: Option<nat>, e: Outcome<()>, after: Str)
    returns (cut: nat, t: Wired)
    requires w.s.ticker.Ticked? && w.s.counter < w.s.n
    requires SentAs(w.s.closed, w.outgoing, after, PackedSmall(ActiveTestPkt(0), seqId, env.md5), breaks, e)
    ensures WiredExec(w, TickActs(false, seqId, env, e, cut)) == Some(t)
    ensures t.outgoing == after && SameConn(w.s, t.s) && !t.s.ticker.Alarmed?
    ensures t.s.counter == CountTest(w.s.counter, e)
  {
    cut := CutOf(w.s.closed, PackedSmall(ActiveTestPkt(0), seqId, env.md5), breaks, e);
    t := LoadThenTest(w, seqId, env, breaks, e, after);
    if e.Ok? {
      var acts := [TestAct(Load, seqId, env, 0)] + [TestAct(SendTest(true), seqId, env, cut)];
      AddShows(t, seqId, env);
      ExecAct(w, acts, t, TestAct(Add, seqId, env, 0));
      t := t.(s := t.s.(ticker := Select, counter := Wrap32(t.s.counter + 1)));
    }
  }

  lemma LoadThenTest(w: Wired, seqId: u32, env: Env, breaks: Option<nat>, e: Outcome<()>, after: Str) returns (t: Wired)
    requires w.s.ticker.Ticked? && w.s.counter < w.s.n
    requires SentAs(w.s.closed, w.outgoing, after, PackedSmall(ActiveTestPkt(0), seqId, env.md5), breaks, e)
    ensures var cut := CutOf(w.s.closed, PackedSmall(ActiveTestPkt(0), seqId, env.md5), breaks, e);
            WiredExec(w, [TestAct(Load, seqId, env, 0)] + [TestAct(SendTest(e.Ok?), seqId, env, cut)]) == Some(t)
    ensures t.outgoing == after && SameConn(w.s, t.s) && t.s.counter == w.s.counter
    ensures t.s.ticker == if e.Ok? then Adding else Select
  {
    var cut := CutOf(w.s.closed, PackedSmall(ActiveTestPkt(0), seqId, env.md5), breaks, e);
    var load, test := TestAct(Load, seqId, env, 0), TestAct(SendTest(e.Ok?), seqId, env, cut);
    LoadShows(w, seqId, env);
    var v := w.(s := w.s.(ticker := Sending));
    ExecFirst(w, load);
    SendTestShows(v, seqId, env, breaks, e, after);
    t := WiredStep(v, test);
    ExecAct(w, [load], v, test);
  }

  /** The act of saying goodbye. */
  function ByeAct(e: Event, seqId: u32, env: Env, ok: bool, cut: nat): Act {
    Act(e, ActiveTestPkt(0), seqId, env, ok, cut)
  }

  lemma ByeShows(w: Wired, seqId: u32, env: Env, breaks: Option<nat>, e: Outcome<()>, after: Str)
    requires w.s.serve.Leaving?
    requires SentAs(w.s.closed, w.outgoing, after, PackedSmall(ExitPkt(0), seqId, env.md5), breaks, e)
    ensures var cut := CutOf(w.s.closed, PackedSmall(ExitPkt(0), seqId, env.md5), breaks, e);
            var a := ByeAct(SendExit, seqId, env, e.Ok?, cut);
            && CanAct(w.s, a) && WiredStep(w, a).outgoing == after && WiredStep(w, a).s == w.s.(serve := Saying)
  {
    var cut := CutOf(w.s.closed, PackedSmall(ExitPkt(0), seqId, env.md5), breaks, e);
    var a := ByeAct(SendExit, seqId, env, e.Ok?, cut);
    SendIsWriting(w, a, Attempt(w.s, a).value, Step(w.s, a.e).value, ExitPkt(0), breaks, e, after);
  }

  /** CloseDone and CloseConn, which write nothing. */
  function Closed(s: Server): Server
    requires s.serve.Saying?
  {
    Step(Step(s, CloseDone).value, CloseConn).value
  }

  lemma ClosedEffect(s: Server)
    requires s.serve.Saying?
    ensures var t := Closed(s);
            && t.n == s.n && t.version == s.version && t.incoming == s.incoming && t.counter == s.counter
            && t.closed && t.doneCloses == s.doneCloses + 1
  {}

  /** The packet p has been accepted and its reply prepared, or refused. */
  predicate Prepared(r: Outcome<Response>, p: Packet, version: byte) {
    if Accepted(p, version) then r.Ok? && ResponseTo(r.value, p)
    else r == Err(if p.LoginPkt? then UnsupportedVersion else UnsupportedPkt)
  }

  class ServerConn {
    const conn: Conn
    const version: byte
    const n: int32
    var counter: int32
    var done: bool       // the done channel is closed

    constructor (conn: Conn, version: byte, n: int32)
      ensures this.conn == conn && this.version == version && this.n == n && counter == 0 && !done
    {
      this.conn, this.version, this.n := conn, version, n;
      counter, done := 0, false;
    }

    /** This object and its connection are in the state w of the protocol and have written its bytes. */
    predicate In(w: Wired)
      reads this, conn
    {
      && w.s.n == n && w.s.version == version && w.s.closed == (conn.state == CLOSED) && w.s.incoming == conn.incoming
      && w.s.counter == counter && w.s.doneCloses == (if done then 1 else 0) && w.outgoing == conn.outgoing
    }

    /** The next packet with the reply it asks for; a packet that is not accepted is an error. This is the step Read. */
    method ReadPacket(rb: ReadBuffer, a: Arrival, ghost w: Wired) returns (r: Outcome<Response>, ghost g: Receipt)
      requires In(w) && rb.leftData.Length == BUFFER_SIZE
      modifies conn`incoming, rb, rb.leftData
      ensures g == RecvOn(conn.state == CLOSED, old(conn.incoming), a) && conn.incoming == g.rest
      ensures conn.state != CLOSED ==>
                In(w.(s := AfterRead(w.s, g))) && (r.Ok? <==> AfterRead(w.s, g).serve.Handling?)
      ensures r.Ok? && r.value.reply.Some? ==>
                |old(conn.incoming)| >= 12 && r.value.seqId == U32At(old(conn.incoming), 8)
      ensures match g.result
              case Ok(p) => Prepared(r, p, version) && (r.Ok? ==> Holds(r.value.packet, p, rb.leftData, g.body))
              case Err(e) => r == Err(e)
              case Panic => r == Panic
    {
      var i;
      ghost var stream, closed := conn.incoming, conn.state == CLOSED;
      i, g := conn.RecvAndUnpackPkt(rb, a);
      ReadEffect(w.s, g);
      AskedOnConn(closed, stream, a, version);
      match i
      case Err(e) => r := Err(e);
      case Panic => r := Panic;
      case Ok(o) =>
        r := Prepare(o, version, g.result.value, rb.leftData, g.body);
    }

    /** The switch of readPacket. */
    static method Prepare(o: Packer, version: byte, ghost p: Packet, ghost arr: array<byte>, ghost d: Str)
      returns (r: Outcome<Response>)
      requires Holds(o, p, arr, d)
      ensures Prepared(r, p, version) && (r.Ok? ==> r.value.packet == o)
    {
      var k := KindOf(o);
      KindDecides(o, p, arr, d);
      if k.LoginPkt? && k.login.clientVersion != version {
        return Err(UnsupportedVersion);
      }
      if k.LoginRespPkt? || k.SubmitRespPkt? {
        return Err(UnsupportedPkt);
      }
      var q := ReplyTo(k);
      r := Ok(Response(o, EmptyReply(k), if q.Some? then q.value.seqId else 0));
    }

    /** An answer to a test takes one off the counter; a request is replied to; any other packet needs nothing. This is
        the step Finish, whatever the handler has said. */
    method FinishPacket(r: Response, md5: L.Md5, now: u32, breaks: Option<nat>, ghost w: Wired)
      returns (e: Outcome<()>, ghost t: Wired)
      requires In(w) && w.s.serve.Finishing? && ResponseTo(r, w.s.serve.p)
      modifies this`counter, conn`outgoing
      ensures Acts(w, t, FinishAct(w.s, r, Env(md5, now, []), breaks, e)) && In(t)
      ensures if r.reply.None? then e == Ok(()) && conn.outgoing == old(conn.outgoing)
              else
                var packed := PackedSmall(r.reply.value, r.seqId, md5);
                SentAs(conn.state == CLOSED, old(conn.outgoing), conn.outgoing, packed, breaks, e)
    {
      ghost var p, failed, env := w.s.serve.p, w.s.serve.failed, Env(md5, now, []);
      if r.packet.Small? && r.packet.packet.ActiveTestRespPkt? {
        counter := Wrap32(counter - 1);
        e := Ok(());
      } else if r.reply.None? {
        e := Ok(());
      } else {
        e := SendSmall(conn, r.reply.value, r.seqId, md5, now, breaks);
      }
      t := FinishShows(w, r, env, breaks, e, conn.outgoing);
      FinishEffect(w.s, p, failed, e.Ok? && !w.s.closed);
    }

    /** What the ticker does at a tick: with n tests unanswered it wants to signal exceed, else it sends one more test.
        This is the step Load, and after it the steps SendTest and Add. */
    method Tick(seqId: u32, md5: L.Md5, now: u32, breaks: Option<nat>, ghost w: Wired)
      returns (alarm: bool, ghost e: Outcome<()>, ghost cut: nat, ghost t: Wired)
      requires In(w) && w.s.ticker.Ticked?
      modifies this`counter, conn`outgoing
      ensures WiredExec(w, TickActs(alarm, seqId, Env(md5, now, []), e, cut)) == Some(t)
      ensures In(t) && (alarm <==> t.s.ticker.Alarmed?)
      ensures alarm ==> conn.outgoing == old(conn.outgoing)
      ensures var packed := PackedSmall(ActiveTestPkt(0), seqId, md5);
              !alarm ==> SentAs(conn.state == CLOSED, old(conn.outgoing), conn.outgoing, packed, breaks, e)
    {
      if counter >= n {
        t := AlarmShows(w, seqId, Env(md5, now, []));
        return true, Ok(()), 0, t;
      }
      alarm := false;
      e, cut, t := SendTest(seqId, md5, now, breaks, w);
    }

    /** Sends a test, and counts it if it could be sent. */
    method SendTest(seqId: u32, md5: L.Md5, now: u32, breaks: Option<nat>, ghost w: Wired)
      returns (ghost e: Outcome<()>, ghost cut: nat, ghost t: Wired)
      requires In(w) && w.s.ticker.Ticked? && counter < n
      modifies this`counter, conn`outgoing
      ensures WiredExec(w, TickActs(false, seqId, Env(md5, now, []), e, cut)) == Some(t)
      ensures In(t) && !t.s.ticker.Alarmed?
      ensures var packed := PackedSmall(ActiveTestPkt(0), seqId, md5);
              SentAs(conn.state == CLOSED, old(conn.outgoing), conn.outgoing, packed, breaks, e)
    {
      var r := SendSmall(conn, ActiveTestPkt(0), seqId, md5, now, breaks);
      e := r;
      cut, t := TestShows(w, seqId, Env(md5, now, []), breaks, r, conn.outgoing);
      var next := CountTest(counter, r);
      assert t.s.counter == next;
      counter := next;
    }

    /** Says goodbye, whether that arrives or not, closes done and then the connection: the steps SendExit, CloseDone
        and CloseConn. Closing a channel again is a panic. */
    method Close(seqId: u32, md5: L.Md5, now: u32, breaks: Option<nat>, ghost w: Wired)
      returns (r: Outcome<()>, ghost e: Outcome<()>, ghost cut: nat)
      requires In(w) && w.s.serve.Leaving?
      modifies this`done, conn`outgoing, conn`state, conn`done
      ensures r == if old(done || (conn.state != CLOSED && conn.done)) then Panic else Ok(())
      ensures var a := ByeAct(SendExit, seqId, Env(md5, now, []), e.Ok?, cut);
              && CanAct(w.s, a) && WiredStep(w, a).s.serve.Saying?
              && (r.Ok? ==> In(WiredStep(w, a).(s := Closed(WiredStep(w, a).s))))
      ensures var packed := PackedSmall(ExitPkt(0), seqId, md5);
              SentAs(old(conn.state) == CLOSED, old(conn.outgoing), conn.outgoing, packed, breaks, e)
    {
      var sent := SendSmall(conn, ExitPkt(0), seqId, md5, now, breaks);
      e, cut := sent, CutOf(w.s.closed, PackedSmall(ExitPkt(0), seqId, md5), breaks, sent);
      ByeShows(w, seqId, Env(md5, now, []), breaks, sent, conn.outgoing);
      ClosedEffect(w.s.(serve := Saying));
      if done {
        return Panic, e, cut;
      }
      done := true;
      r := conn.Close();
    }
  }
}
