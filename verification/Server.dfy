/** One served connection: the serve loop and the active-test ticker as two processes that take turns. */
module Server {
  import opened Bytes
  import opened Results
  import opened PacketIo
  import opened Packets
  import opened Framing
  import L = Login

  type int32 = x: int | -0x8000_0000 <= x < 0x8000_0000

  /** Two's-complement wrap-around of atomic.AddInt32. */
  function Wrap32(x: int): int32 {
    (x + 0x8000_0000) % 0x1_0000_0000 - 0x8000_0000
  }

  /** Where the ticker goroutine is: in its select, between a tick and the load of the counter, between the load and the
      send on exceed, blocked in that send, before the SendPkt, before the increment, or gone. */
  datatype Ticker = Select | Ticked | Alarmed | Blocked | Sending | Adding | Exited

  /** Where the serve goroutine is. Leaving, Saying and Dropping are the three calls of close. */
  datatype Serve = Check | Reading | Handling(p: Packet) | Finishing(p: Packet, failed: bool)
    | Leaving | Saying | Dropping | Ended

  /** The header of a reply: its request id and sequence id. */
  datatype Reply = Reply(id: u32, seqId: u32)

  datatype Server = Server(
    n: int32, version: byte,
    closed: bool,            // the state of the connection is CONNECTION_CLOSED
    incoming: Str,           // what the peer sends and nobody has read
    counter: int32,
    ticker: Ticker, serve: Serve,
    // history
    tests: nat,              // active tests sent
    answers: nat,            // active-test responses finished
    handled: seq<Packet>,    // packets given to the handler
    finished: seq<Packet>,   // packets that finishPacket has dealt with
    replies: seq<Reply>,
    doneCloses: nat,
    exceeded: bool)          // serve has left because of exceed

  datatype Event =
    | Tick | SeeDone | Load | Block | SendTest(ok: bool) | Add
    | Exceed | NoExceed | Read(a: Arrival) | Handle(failed: bool) | HandlerPanic | Finish(ok: bool)
    | SendExit | CloseDone | CloseConn

  function Start(n: int32, version: byte, incoming: Str): Server {
    Server(n, version, false, incoming, 0, Select, Check, 0, 0, [], [], [], 0, false)
  }

  // ---------------------------------------------------------------- what serve makes of a packet

  /** readPacket refuses a login of another version, and the responses to logins and submits, which its switch lacks. */
  predicate Accepted(p: Packet, version: byte) {
    match p
    case LoginPkt(l) => l.clientVersion == version
    case LoginRespPkt(_) => false
    case SubmitRespPkt(_) => false
    case _ => true
  }

  /** The header of the reply, if the packet is a request. An exit is answered with the id of the active-test
      response. */
  function ReplyTo(p: Packet): Option<Reply> {
    match p
    case LoginPkt(l) => Some(Reply(L.SMGP_LOGIN_RESP, l.sequenceId))
    case SubmitPkt(s) => Some(Reply(SMGP_SUBMIT_RESP, s.fields.sequenceId))
    case DeliverPkt(d) => Some(Reply(SMGP_DELIVER_RESP, d.fields.sequenceId))
    case ActiveTestPkt(seqId) => Some(Reply(SMGP_ACTIVE_TEST_RESP, seqId))
    case ExitPkt(seqId) => Some(Reply(SMGP_ACTIVE_TEST_RESP, seqId))
    case QueryPkt(q) => Some(Reply(SMGP_QUERY_RESP, q.sequenceId))
    case _ => None
  }

  /** The reply that a header asks for: the response id of a request, but an active-test response for an exit, with the
      sequence id of the request. */
  function AskedFor(id: u32, seqId: u32): Option<Reply> {
    if id in [1, 2, 3, 4, 7] then Some(Reply(id + 0x8000_0000, seqId))
    else if id == 6 then Some(Reply(0x8000_0004, seqId))
    else None
  }

  /** What serve makes of a packet follows from the bytes it came in: the reply from the two ids of its header, refusal
      from its request id and the version byte of a login, and an answer to a test from its request id. */
  lemma DecidedByBytes(stream: Str, a: Arrival, version: byte)
    requires Recv(stream, a).result.Ok?
    ensures var p, id := Recv(stream, a).result.value, U32At(stream, 4);
            && ReplyTo(p) == AskedFor(id, U32At(stream, 8))
            && (Accepted(p, version) <==>
                  id != 0x8000_0001 && id != 0x8000_0002
                  && (id == 1 ==> |Recv(stream, a).body| >= 30 && Recv(stream, a).body[29] == version))
            && (p.ActiveTestRespPkt? <==> id == 0x8000_0004)
  {
    ReceivedByHeader(stream, a);
    var id, seqId, d := U32At(stream, 4), U32At(stream, 8), Recv(stream, a).body;
    KindById(id, seqId, d);
    DecidedByHeader(id, seqId, d, version);
  }

  lemma DecidedByHeader(id: u32, seqId: u32, d: Str, version: byte)
    requires UnpackAs(id, seqId, d).Ok?
    ensures var p := UnpackAs(id, seqId, d).value;
            && ReplyTo(p) == AskedFor(id, seqId)
            && (Accepted(p, version) <==>
                  id != 0x8000_0001 && id != 0x8000_0002 && (id == 1 ==> |d| >= 30 && d[29] == version))
  {
    KindById(id, seqId, d);
  }

  function Replies(ps: seq<Packet>): seq<Reply> {
    if ps == [] then []
    else
      match ReplyTo(ps[|ps| - 1])
      case None => Replies(ps[..|ps| - 1])
      case Some(r) => Replies(ps[..|ps| - 1]) + [r]
  }

  function TestAnswers(ps: seq<Packet>): nat {
    if ps == [] then 0
    else TestAnswers(ps[..|ps| - 1]) + if ps[|ps| - 1].ActiveTestRespPkt? then 1 else 0
  }

  // ---------------------------------------------------------------- the steps

  function AfterRead(s: Server, r: Receipt): Server {
    var t := s.(incoming := r.rest);
    match r.result
    case Ok(p) =>
      if Accepted(p, s.version) then t.(serve := Handling(p), handled := s.handled + [p]) else t.(serve := Leaving)
    case Err(e) => if e == ReadTimeout then t.(serve := Check) else t.(serve := Leaving)
    case Panic => t.(serve := Leaving)
  }

  /** finishPacket, and what serve does with its result and the handler's. */
  function AfterFinish(s: Server, p: Packet, failed: bool, ok: bool): Server {
    var t := s.(serve := if failed then Leaving else Check, finished := s.finished + [p]);
    if p.ActiveTestRespPkt? then t.(counter := Wrap32(s.counter - 1), answers := s.answers + 1)
    else match ReplyTo(p) {
      case None => t
      case Some(r) => if ok then t.(replies := s.replies + [r]) else s.(serve := Leaving)
    }
  }

  /** The state after the event, if it can happen. */
  function Step(s: Server, e: Event): Option<Server> {
    match e
    case Tick => if s.ticker.Select? then Some(s.(ticker := Ticked)) else None
    case SeeDone => if s.ticker.Select? && s.doneCloses > 0 then Some(s.(ticker := Exited)) else None
    case Load =>
      if !s.ticker.Ticked? then None
      else if s.counter >= s.n then Some(s.(ticker := Alarmed))
      else Some(s.(ticker := Sending))
    case Block => if s.ticker.Alarmed? then Some(s.(ticker := Blocked)) else None
    case SendTest(ok) =>
      if !s.ticker.Sending? || (ok && s.closed) then None
      else if ok then Some(s.(ticker := Adding, tests := s.tests + 1))
      else Some(s.(ticker := Select))
    case Add => if s.ticker.Adding? then Some(s.(ticker := Select, counter := Wrap32(s.counter + 1))) else None
    case Exceed =>
      if s.serve.Check? && s.ticker.Blocked? then Some(s.(serve := Leaving, ticker := Select, exceeded := true))
      else None
    case NoExceed => if s.serve.Check? && !s.ticker.Blocked? then Some(s.(serve := Reading)) else None
    case Read(a) => if s.serve.Reading? then Some(AfterRead(s, Recv(s.incoming, a))) else None
    case Handle(failed) => if s.serve.Handling? then Some(s.(serve := Finishing(s.serve.p, failed))) else None
    case HandlerPanic => if s.serve.Handling? then Some(s.(serve := Leaving)) else None
    case Finish(ok) =>
      if s.serve.Finishing? && (ok ==> !s.closed) then Some(AfterFinish(s, s.serve.p, s.serve.failed, ok)) else None
    case SendExit => if s.serve.Leaving? then Some(s.(serve := Saying)) else None
    case CloseDone => if s.serve.Saying? then Some(s.(serve := Dropping, doneCloses := s.doneCloses + 1)) else None
    case CloseConn => if s.serve.Dropping? then Some(s.(serve := Ended, closed := true)) else None
  }

  /** The state after a run of events, if the run can happen. */
  function Exec(s: Server, es: seq<Event>): Option<Server> {
    if es == [] then Some(s)
    else match Exec(s, es[..|es| - 1]) {
      case None => None
      case Some(t) => Step(t, es[|es| - 1])
    }
  }

  // ---------------------------------------------------------------- what every step keeps

  function Pending(s: Server): nat {
    if s.ticker.Adding? then 1 else 0
  }

  function Limit(n: int): nat {
    if n > 0 then n else 0
  }

  /** The counter and the one increment still to come account for every test and every answer. */
  predicate Counted(s: Server) {
    s.counter == Wrap32(s.tests - Pending(s) - s.answers)
  }

  /** Between the load and the send the ticker has room for one more test. */
  predicate Bounded(s: Server) {
    s.tests + (if s.ticker.Sending? then 1 else 0) <= Limit(s.n) + s.answers
  }

  predicate Closing(p: Serve) {
    p.Leaving? || p.Saying? || p.Dropping? || p.Ended?
  }

  /** done is closed once, then the connection, and only on the way out. */
  predicate ClosedOnce(s: Server) {
    && s.doneCloses == (if s.serve.Dropping? || s.serve.Ended? then 1 else 0)
    && (s.closed <==> s.serve.Ended?)
    && (s.ticker.Exited? ==> s.doneCloses == 1)
    && (s.exceeded ==> Closing(s.serve))
  }

  /** Every finished packet has had its reply, in order, and every answer to a test has been counted. */
  predicate Ledger(finished: seq<Packet>, replies: seq<Reply>, answers: nat) {
    replies == Replies(finished) && answers == TestAnswers(finished)
  }

  /** At most one handled packet is not finished: the one in hand, or the one at which serve gave up. */
  predicate InHand(at: Serve, handled: seq<Packet>, finished: seq<Packet>) {
    match at
    case Handling(p) => handled == finished + [p]
    case Finishing(p, _) => handled == finished + [p]
    case Check => handled == finished
    case Reading => handled == finished
    case _ => handled == finished || (handled != [] && handled[..|handled| - 1] == finished)
  }

  predicate Replied(s: Server) {
    Ledger(s.finished, s.replies, s.answers) && InHand(s.serve, s.handled, s.finished)
  }

  predicate Inv(s: Server) {
    Counted(s) && Bounded(s) && ClosedOnce(s) && Replied(s)
  }

  lemma WrapAdd(x: int, d: int)
    requires d == 1 || d == -1
    ensures Wrap32(Wrap32(x) + d) == Wrap32(x + d)
  {}

  lemma WrapExact(x: int)
    requires -0x8000_0000 <= x < 0x8000_0000
    ensures Wrap32(x) == x
  {}

  lemma FinishCounted(s: Server, p: Packet, failed: bool, ok: bool)
    requires Counted(s) && Bounded(s)
    ensures Counted(AfterFinish(s, p, failed, ok)) && Bounded(AfterFinish(s, p, failed, ok))
  {
    WrapAdd(s.tests - Pending(s) - s.answers, -1);
  }

  /** The load finds too much exactly when n tests are unanswered, or unasked answers have made the counter wrap. */
  lemma LoadCounted(s: Server)
    requires Counted(s) && Bounded(s) && s.ticker.Ticked?
    ensures Counted(Step(s, Load).value) && Bounded(Step(s, Load).value)
    ensures Step(s, Load).value.ticker.Alarmed? ==> Overdue(s)
    ensures s.tests - s.answers >= -0x8000_0000 ==>
              (Step(s, Load).value.ticker.Alarmed? <==> s.tests - s.answers >= s.n)
  {
    var d := s.tests - s.answers;
    if d >= -0x8000_0000 {
      WrapExact(d);
    }
  }

  /** At least n tests are unanswered; or there are so many unasked answers that the counter has wrapped. */
  predicate Overdue(s: Server) {
    s.tests - s.answers >= s.n || s.tests - s.answers < -0x8000_0000
  }

  lemma ReadKeeps(s: Server, r: Receipt)
    ensures var t := AfterRead(s, r);
            t == s.(incoming := t.incoming, serve := t.serve, handled := t.handled)
  {}

  lemma StepCounted(s: Server, e: Event)
    requires Counted(s) && Bounded(s) && Step(s, e).Some?
    ensures Counted(Step(s, e).value) && Bounded(Step(s, e).value)
  {
    match e
    case Load => LoadCounted(s);
    case Add => WrapAdd(s.tests - Pending(s) - s.answers, 1);
    case Finish(ok) => FinishCounted(s, s.serve.p, s.serve.failed, ok);
    case Read(a) => ReadKeeps(s, Recv(s.incoming, a));
    case _ =>
  }

  lemma StepClosedOnce(s: Server, e: Event)
    requires ClosedOnce(s) && Step(s, e).Some?
    ensures ClosedOnce(Step(s, e).value)
  {}

  lemma HistoryNext(ps: seq<Packet>, p: Packet)
    ensures (ps + [p])[..|ps|] == ps
    ensures Replies(ps + [p]) == match ReplyTo(p) case None => Replies(ps) case Some(r) => Replies(ps) + [r]
    ensures TestAnswers(ps + [p]) == TestAnswers(ps) + if p.ActiveTestRespPkt? then 1 else 0
  {
    assert (ps + [p])[..|ps|] == ps;
  }

  lemma FinishReplied(s: Server, p: Packet, failed: bool, ok: bool)
    requires Ledger(s.finished, s.replies, s.answers) && s.handled == s.finished + [p]
    ensures Replied(AfterFinish(s, p, failed, ok))
  {
    HistoryNext(s.finished, p);
  }

  lemma PanicReplied(s: Server)
    requires Replied(s) && s.serve.Handling?
    ensures Replied(s.(serve := Leaving))
  {
    HistoryNext(s.finished, s.serve.p);
  }

  lemma ReadReplied(s: Server, r: Receipt)
    requires Replied(s) && s.serve.Reading?
    ensures Replied(AfterRead(s, r))
  {}

  predicate OfTicker(e: Event) {
    e.Tick? || e.SeeDone? || e.Load? || e.Block? || e.SendTest? || e.Add?
  }

  lemma TickerKeeps(s: Server, e: Event)
    requires OfTicker(e) && Step(s, e).Some?
    ensures var t := Step(s, e).value;
            t == s.(ticker := t.ticker, counter := t.counter, tests := t.tests)
  {}

  lemma ServeReplied(s: Server, e: Event)
    requires Replied(s) && !OfTicker(e) && !e.Finish? && !e.Read? && !e.HandlerPanic? && Step(s, e).Some?
    ensures Replied(Step(s, e).value)
  {
    var t := Step(s, e).value;
    assert t.handled == s.handled && t.finished == s.finished && t.replies == s.replies && t.answers == s.answers;
  }

  lemma StepReplied(s: Server, e: Event)
    requires Replied(s) && Step(s, e).Some?
    ensures Replied(Step(s, e).value)
  {
    if OfTicker(e) {
      TickerKeeps(s, e);
    } else {
      match e
      case Finish(ok) => FinishReplied(s, s.serve.p, s.serve.failed, ok);
      case Read(a) => ReadReplied(s, Recv(s.incoming, a));
      case HandlerPanic => PanicReplied(s);
      case _ => ServeReplied(s, e);
    }
  }

  // ---------------------------------------------------------------- every run

  /** What holds of every state that any run from s reaches. */
  lemma {:induction false} RunKeeps(s: Server, es: seq<Event>)
    requires Inv(s) && Exec(s, es).Some?
    ensures var t := Exec(s, es).value; Inv(t) && t.n == s.n && t.version == s.version
  {
    if es != [] {
      var front, e := es[..|es| - 1], es[|es| - 1];
      RunKeeps(s, front);
      var t := Exec(s, front).value;
      StepCounted(t, e);
      StepClosedOnce(t, e);
      StepReplied(t, e);
      StepParameters(t, e);
    }
  }

  lemma StepParameters(s: Server, e: Event)
    requires Step(s, e).Some?
    ensures Step(s, e).value.n == s.n && Step(s, e).value.version == s.version
  {
    if e.Read? {
      ReadKeeps(s, Recv(s.incoming, e.a));
    }
  }

  /** Every run from the start: at most n tests go unanswered, replies are in order and once each, and when serve has
      ended, however it came to that, done has been closed once and the connection is closed. */
  lemma EveryRun(n: int32, version: byte, incoming: Str, es: seq<Event>)
    requires Exec(Start(n, version, incoming), es).Some?
    ensures var t := Exec(Start(n, version, incoming), es).value;
            && t.tests <= Limit(n) + t.answers
            && t.counter == Wrap32(t.tests - Pending(t) - t.answers)
            && t.replies == Replies(t.finished) && t.answers == TestAnswers(t.finished)
            && t.finished <= t.handled && |t.handled| <= |t.finished| + 1
            && t.doneCloses <= 1 && (t.serve.Ended? ==> t.doneCloses == 1 && t.closed)
            && (t.closed ==> t.serve.Ended?)
  {
    StartInv(n, version, incoming);
    RunKeeps(Start(n, version, incoming), es);
  }

  /** Event i of the run is a load that finds too many tests unanswered. */
  predicate OverdueAt(s: Server, es: seq<Event>, i: nat) {
    i < |es| && es[i] == Load && Exec(s, es[..i]).Some? && Overdue(Exec(s, es[..i]).value)
  }

  /** The ticker has raised the alarm, or serve has left because it did. */
  predicate Raised(s: Server) {
    s.ticker.Alarmed? || s.ticker.Blocked? || s.exceeded
  }

  lemma StepRaises(s: Server, e: Event)
    requires Counted(s) && Bounded(s) && Step(s, e).Some? && Raised(Step(s, e).value)
    ensures Raised(s) || (e == Load && Overdue(s))
  {
    match e
    case Load => LoadCounted(s);
    case Read(a) => ReadKeeps(s, Recv(s.incoming, a));
    case _ =>
  }

  lemma OverdueEarlier(s: Server, es: seq<Event>, k: nat, i: nat)
    requires k <= |es| && OverdueAt(s, es[..k], i)
    ensures OverdueAt(s, es, i)
  {
    assert es[..k][..i] == es[..i];
  }

  /** The alarm is only raised after a load at which at least n tests were unanswered. */
  lemma {:induction false} RaisedAfterOverdue(s: Server, es: seq<Event>)
    requires Inv(s) && !Raised(s) && Exec(s, es).Some? && Raised(Exec(s, es).value)
    ensures exists i: nat :: OverdueAt(s, es, i)
  {
    if es != [] {
      var k := |es| - 1;
      var t := Exec(s, es[..k]).value;
      RunKeeps(s, es[..k]);
      StepRaises(t, es[k]);
      if Raised(t) {
        RaisedAfterOverdue(s, es[..k]);
        var i: nat :| OverdueAt(s, es[..k], i);
        OverdueEarlier(s, es, k, i);
      } else {
        assert OverdueAt(s, es, k);
      }
    }
  }

  /** If event i of the run is a load, all tests have been answered by then. */
  predicate PromptAt(s: Server, es: seq<Event>, i: nat) {
    i < |es| && es[i] == Load && Exec(s, es[..i]).Some? ==>
      0 <= Exec(s, es[..i]).value.answers - Exec(s, es[..i]).value.tests <= 0x8000_0000
  }

  lemma PromptNotOverdue(s: Server, es: seq<Event>, i: nat)
    requires Inv(s) && s.n >= 1 && PromptAt(s, es, i)
    ensures !OverdueAt(s, es, i)
  {
    if OverdueAt(s, es, i) {
      RunKeeps(s, es[..i]);
    }
  }

  lemma PromptRun(s: Server, es: seq<Event>)
    requires Inv(s) && !Raised(s) && s.n >= 1 && Exec(s, es).Some?
    requires forall i: nat :: PromptAt(s, es, i)
    ensures !Raised(Exec(s, es).value)
  {
    if Raised(Exec(s, es).value) {
      RaisedAfterOverdue(s, es);
      var i: nat :| OverdueAt(s, es, i);
      PromptNotOverdue(s, es, i);
    }
  }

  lemma StartInv(n: int32, version: byte, incoming: Str)
    ensures Inv(Start(n, version, incoming)) && !Raised(Start(n, version, incoming))
  {}

  /** A peer that answers each test before the next tick is never given up, when n is at least one. */
  lemma PromptNeverRaises(n: int32, version: byte, incoming: Str, es: seq<Event>)
    requires n >= 1 && Exec(Start(n, version, incoming), es).Some?
    requires forall i: nat :: PromptAt(Start(n, version, incoming), es, i)
    ensures !Raised(Exec(Start(n, version, incoming), es).value)
  {
    StartInv(n, version, incoming);
    PromptRun(Start(n, version, incoming), es);
  }

  /** A peer whose answers are never handled is sent at most n tests, and the tick after the last of them, and no
      earlier one, raises the alarm. */
  lemma SilentRaises(n: int32, version: byte, incoming: Str, es: seq<Event>)
    requires Exec(Start(n, version, incoming), es).Some?
    requires Exec(Start(n, version, incoming), es).value.answers == 0
    ensures var t := Exec(Start(n, version, incoming), es).value;
            && t.tests <= Limit(n)
            && (t.ticker.Ticked? ==> (Step(t, Load).value.ticker.Alarmed? <==> t.tests >= n))
  {
    StartInv(n, version, incoming);
    RunKeeps(Start(n, version, incoming), es);
    var t := Exec(Start(n, version, incoming), es).value;
    if t.ticker.Ticked? {
      LoadCounted(t);
    }
  }

  /** No packet is left behind: what has been handled has been finished, but for the one in hand. */
  predicate Complete(s: Server) {
    s.serve.Handling? || s.serve.Finishing? || s.handled == s.finished
  }

  /** The handler does not panic and the network takes every reply. */
  predicate Calm(e: Event) {
    e != HandlerPanic && e != Finish(false)
  }

  lemma StepComplete(s: Server, e: Event)
    requires Replied(s) && Complete(s) && Calm(e) && Step(s, e).Some?
    ensures Complete(Step(s, e).value)
  {
    match e
    case Finish(ok) => FinishComplete(s, s.serve.p, s.serve.failed);
    case Read(a) => ReadComplete(s, Recv(s.incoming, a));
    case _ =>
  }

  lemma FinishComplete(s: Server, p: Packet, failed: bool)
    requires s.handled == s.finished + [p]
    ensures Complete(AfterFinish(s, p, failed, true))
  {}

  lemma ReadComplete(s: Server, r: Receipt)
    requires s.handled == s.finished
    ensures Complete(AfterRead(s, r))
  {}

  /** Unless the handler panics or a reply cannot be sent, every handled request has its reply once serve has moved on:
      also the one whose handler returned an error, after which serve leaves. */
  lemma {:induction false} CalmRunReplies(s: Server, es: seq<Event>)
    requires Inv(s) && Complete(s) && Exec(s, es).Some? && forall i :: 0 <= i < |es| ==> Calm(es[i])
    ensures var t := Exec(s, es).value;
            Complete(t) && (!t.serve.Handling? && !t.serve.Finishing? ==> t.replies == Replies(t.handled))
  {
    if es != [] {
      var k := |es| - 1;
      CalmRunReplies(s, es[..k]);
      RunKeeps(s, es[..k]);
      StepComplete(Exec(s, es[..k]).value, es[k]);
    }
    RunKeeps(s, es);
  }

  // ---------------------------------------------------------------- the end

  function Rank(p: Serve): nat {
    match p
    case Leaving => 3
    case Saying => 2
    case Dropping => 1
    case _ => 0
  }

  /** Once serve is leaving, exactly one of its steps can happen, nothing else moves it, and it comes closer to the
      end. */
  lemma ClosingGoesOn(s: Server, e: Event)
    requires s.serve.Leaving? || s.serve.Saying? || s.serve.Dropping?
    ensures Step(s, [CloseConn, CloseDone, SendExit][Rank(s.serve) - 1]).Some?
    ensures Step(s, e).Some? ==>
              var t := Step(s, e).value;
              if e == [CloseConn, CloseDone, SendExit][Rank(s.serve) - 1]
              then Rank(t.serve) == Rank(s.serve) - 1 && Closing(t.serve)
              else t.serve == s.serve
  {}

  /** The ticker will send on exceed, and nobody will receive. */
  predicate Stuck(s: Server) {
    s.ticker.Alarmed? || s.ticker.Blocked? || (s.ticker.Ticked? && s.counter >= s.n)
  }

  lemma StuckStays(s: Server, e: Event)
    requires s.serve.Ended? && Stuck(s) && Step(s, e).Some?
    ensures Step(s, e).value.serve.Ended? && Stuck(Step(s, e).value)
  {}

  lemma {:induction false} StuckForever(s: Server, es: seq<Event>)
    requires s.serve.Ended? && Stuck(s) && Exec(s, es).Some?
    ensures Exec(s, es).value.serve.Ended? && Stuck(Exec(s, es).value)
  {
    if es != [] {
      StuckForever(s, es[..|es| - 1]);
      StuckStays(Exec(s, es[..|es| - 1]).value, es[|es| - 1]);
    }
  }

  function Ends(s: Server): seq<Event> {
    match s.ticker
    case Select => [SeeDone]
    case Ticked => [Load, SendTest(false), SeeDone]
    case Sending => [SendTest(false), SeeDone]
    case Adding => [Add, SeeDone]
    case _ => []
  }

  lemma ExecOne(s: Server, e: Event)
    ensures Exec(s, [e]) == Step(s, e)
  {
    assert [e][..0] == [];
    assert Exec(s, []) == Some(s);
  }

  lemma ExecSnoc(s: Server, es: seq<Event>, e: Event)
    requires Exec(s, es).Some?
    ensures Exec(s, es + [e]) == Step(Exec(s, es).value, e)
  {
    assert (es + [e])[..|es|] == es;
  }

  lemma EndsTicker(s: Server)
    requires Inv(s) && s.serve.Ended? && !Stuck(s)
    ensures Exec(s, Ends(s)).Some? && Exec(s, Ends(s)).value.ticker.Exited?
  {
    match s.ticker
    case Select => ExecOne(s, SeeDone);
    case Ticked =>
      ExecOne(s, Load);
      ExecSnoc(s, [Load], SendTest(false));
      ExecSnoc(s, [Load] + [SendTest(false)], SeeDone);
      assert Ends(s) == [Load] + [SendTest(false)] + [SeeDone];
    case Sending =>
      ExecOne(s, SendTest(false));
      ExecSnoc(s, [SendTest(false)], SeeDone);
      assert Ends(s) == [SendTest(false)] + [SeeDone];
    case Adding =>
      ExecOne(s, Add);
      ExecSnoc(s, [Add], SeeDone);
      assert Ends(s) == [Add] + [SeeDone];
    case _ =>
  }

  /** After serve has ended, the ticker goroutine can still end exactly if it is not on its way to send on exceed:
      closing done does not wake it there. */
  lemma TickerCanEnd(s: Server)
    requires Inv(s) && s.serve.Ended?
    ensures (exists es :: Exec(s, es).Some? && Exec(s, es).value.ticker.Exited?) <==> !Stuck(s)
  {
    if Stuck(s) {
      forall es | Exec(s, es).Some?
        ensures !Exec(s, es).value.ticker.Exited?
      {
        StuckForever(s, es);
      }
    } else {
      EndsTicker(s);
    }
  }

  /** A tick, now or later, can find n tests unanswered. */
  predicate MayStick(s: Server) {
    !s.ticker.Exited? && (s.ticker.Alarmed? || s.ticker.Blocked? || Wrap32(s.counter + Pending(s)) >= s.n)
  }

  lemma FreeStays(s: Server, e: Event)
    requires s.serve.Ended? && s.closed && !MayStick(s) && Step(s, e).Some?
    ensures var t := Step(s, e).value; t.serve.Ended? && t.closed && !MayStick(t)
  {
    WrapExact(s.counter);
    if e.Add? {
      WrapExact(Wrap32(s.counter + 1));
    }
  }

  lemma {:induction false} FreeForever(s: Server, es: seq<Event>)
    requires s.serve.Ended? && s.closed && !MayStick(s) && Exec(s, es).Some?
    ensures var t := Exec(s, es).value; t.serve.Ended? && t.closed && !MayStick(t)
  {
    if es != [] {
      FreeForever(s, es[..|es| - 1]);
      FreeStays(Exec(s, es[..|es| - 1]).value, es[|es| - 1]);
    }
  }

  lemma StuckMayStick(s: Server)
    requires Stuck(s)
    ensures MayStick(s)
  {
    WrapExact(s.counter);
  }

  /** The way to the next tick. */
  function ToTick(s: Server): seq<Event> {
    match s.ticker
    case Select => [Tick]
    case Sending => [SendTest(false)] + [Tick]
    case Adding => [Add] + [Tick]
    case _ => []
  }

  lemma TickSticks(s: Server)
    requires s.serve.Ended? && MayStick(s)
    ensures Exec(s, ToTick(s)).Some? && Stuck(Exec(s, ToTick(s)).value)
  {
    WrapExact(s.counter);
    match s.ticker
    case Select => ExecOne(s, Tick);
    case Sending =>
      ExecOne(s, SendTest(false));
      ExecSnoc(s, [SendTest(false)], Tick);
    case Adding =>
      ExecOne(s, Add);
      ExecSnoc(s, [Add], Tick);
    case _ =>
  }

  /** After serve has ended, the ticker goroutine can still get stuck exactly if it is not gone and it is on its way to
      send on exceed, or n tests are unanswered: its select may take a tick although done is closed. */
  lemma TickerCanStick(s: Server)
    requires Inv(s) && s.serve.Ended?
    ensures (exists es :: Exec(s, es).Some? && Stuck(Exec(s, es).value)) <==> MayStick(s)
  {
    if MayStick(s) {
      TickSticks(s);
    } else {
      forall es | Exec(s, es).Some?
        ensures !Stuck(Exec(s, es).value)
      {
        FreeForever(s, es);
        if Stuck(Exec(s, es).value) {
          StuckMayStick(Exec(s, es).value);
        }
      }
    }
  }

  /** A run from the start to a state in which the goroutine can end and can get stuck: serve has ended at once, n is
      zero, and the ticker is in its select. */
  lemma EndsOrSticks(version: byte)
    ensures var s := Start(0, version, []);
            var es := [NoExceed] + [Read(InTime)] + [SendExit] + [CloseDone] + [CloseConn];
            && Exec(s, es).Some? && Exec(s, es).value.serve.Ended?
            && !Stuck(Exec(s, es).value) && MayStick(Exec(s, es).value)
  {
    var s := Start(0, version, []);
    var t := s.(serve := Reading);
    ExecOne(s, NoExceed);
    FailedReadLeaves(t);
    var u := Step(t, Read(InTime)).value;
    Then(s, [NoExceed], t, Read(InTime), u);
    var es := [NoExceed] + [Read(InTime)];
    CloseEnds(s, es, u);
    WrapExact(0);
  }

  lemma CloseEnds(s: Server, es: seq<Event>, u: Server)
    requires Exec(s, es) == Some(u) && u.serve.Leaving?
    ensures var all := es + [SendExit] + [CloseDone] + [CloseConn];
            && Exec(s, all).Some? && Exec(s, all).value.serve.Ended?
            && SameTicker(u, Exec(s, all).value)
  {
    SendExitSays(u);
    var v := Step(u, SendExit).value;
    Then(s, es, u, SendExit, v);
    CloseDoneDrops(v);
    var w := Step(v, CloseDone).value;
    Then(s, es + [SendExit], v, CloseDone, w);
    CloseConnEnds(w);
    Then(s, es + [SendExit] + [CloseDone], w, CloseConn, Step(w, CloseConn).value);
  }

  predicate SameTicker(s: Server, t: Server) {
    t.ticker == s.ticker && t.counter == s.counter && t.n == s.n
  }

  /** k ticks at which a test is sent, with nothing else going on. */
  function Rounds(k: nat): seq<Event> {
    if k == 0 then [] else Rounds(k - 1) + [Tick] + [Load] + [SendTest(true)] + [Add]
  }

  lemma Then(s: Server, es: seq<Event>, t: Server, e: Event, u: Server)
    requires Exec(s, es) == Some(t) && Step(t, e) == Some(u)
    ensures Exec(s, es + [e]) == Some(u)
  {
    ExecSnoc(s, es, e);
  }

  lemma {:induction false} RoundsRun(s: Server, k: nat)
    requires s == Start(s.n, s.version, s.incoming) && k <= Limit(s.n)
    ensures Exec(s, Rounds(k)) == Some(s.(counter := k, tests := k))
  {
    if k > 0 {
      RoundsRun(s, k - 1);
      WrapExact(k);
      var es, t := Rounds(k - 1), s.(counter := k - 1, tests := k - 1);
      Then(s, es, t, Tick, t.(ticker := Ticked));
      Then(s, es + [Tick], t.(ticker := Ticked), Load, t.(ticker := Sending));
      var u := t.(ticker := Adding, tests := k);
      Then(s, es + [Tick] + [Load], t.(ticker := Sending), SendTest(true), u);
      Then(s, es + [Tick] + [Load] + [SendTest(true)], u, Add, s.(counter := k, tests := k));
    }
  }

  /** n tests, one more tick, and then a receive that fails before serve sees the alarm. */
  function Leak(n: int): seq<Event> {
    Rounds(Limit(n)) + [Tick] + [Load] + [NoExceed] + [Read(InTime)] + [SendExit] + [CloseDone] + [CloseConn]
  }

  /** The run can happen, and at its end serve is gone and the ticker will never be. */
  predicate EndsStuck(s: Server, es: seq<Event>) {
    Exec(s, es).Some? && Exec(s, es).value.serve.Ended? && Stuck(Exec(s, es).value)
  }

  /** For every n, a peer that leaves n tests unanswered and then breaks off leaves the ticker stuck. */
  lemma StuckIsReached(s: Server)
    requires s == Start(s.n, s.version, s.incoming) && !Recv(s.incoming, InTime).result.Ok?
    ensures EndsStuck(s, Leak(s.n))
  {
    var k := Limit(s.n);
    var es, t := Rounds(k), s.(counter := k, tests := k);
    RoundsRun(s, k);
    Then(s, es, t, Tick, t.(ticker := Ticked));
    t := t.(ticker := Ticked);
    Then(s, es + [Tick], t, Load, t.(ticker := Alarmed));
    t, es := t.(ticker := Alarmed), es + [Tick] + [Load];
    Then(s, es, t, NoExceed, t.(serve := Reading));
    t, es := t.(serve := Reading), es + [NoExceed];
    LeakEnds(s, es, t);
  }

  lemma FailedReadLeaves(t: Server)
    requires t.serve.Reading? && !Recv(t.incoming, InTime).result.Ok?
    ensures Step(t, Read(InTime)).Some?
    ensures var u := Step(t, Read(InTime)).value; u == t.(incoming := u.incoming, serve := Leaving)
  {
    InTimeIsNoTimeout(t.incoming);
  }

  lemma LeakEnds(s: Server, es: seq<Event>, t: Server)
    requires Exec(s, es) == Some(t) && t.serve.Reading? && t.ticker.Alarmed? && !Recv(t.incoming, InTime).result.Ok?
    ensures EndsStuck(s, es + [Read(InTime)] + [SendExit] + [CloseDone] + [CloseConn])
  {
    FailedReadLeaves(t);
    var u := Step(t, Read(InTime)).value;
    Then(s, es, t, Read(InTime), u);
    LeaveEnds(s, es + [Read(InTime)], u);
  }

  lemma LeaveEnds(s: Server, es: seq<Event>, u: Server)
    requires Exec(s, es) == Some(u) && u.serve.Leaving? && u.ticker.Alarmed?
    ensures EndsStuck(s, es + [SendExit] + [CloseDone] + [CloseConn])
  {
    SendExitSays(u);
    var v := Step(u, SendExit).value;
    Then(s, es, u, SendExit, v);
    SayingEnds(s, es + [SendExit], v);
  }

  lemma SendExitSays(u: Server)
    requires u.serve.Leaving?
    ensures Step(u, SendExit).Some?
    ensures var v := Step(u, SendExit).value; v.serve.Saying? && SameTicker(u, v)
  {}

  lemma SayingEnds(s: Server, es: seq<Event>, u: Server)
    requires Exec(s, es) == Some(u) && u.serve.Saying? && u.ticker.Alarmed?
    ensures EndsStuck(s, es + [CloseDone] + [CloseConn])
  {
    CloseDoneDrops(u);
    var v := Step(u, CloseDone).value;
    Then(s, es, u, CloseDone, v);
    DroppingEnds(s, es + [CloseDone], v);
  }

  lemma CloseDoneDrops(u: Server)
    requires u.serve.Saying?
    ensures Step(u, CloseDone).Some?
    ensures var v := Step(u, CloseDone).value; v.serve.Dropping? && SameTicker(u, v)
  {}

  lemma DroppingEnds(s: Server, es: seq<Event>, u: Server)
    requires Exec(s, es) == Some(u) && u.serve.Dropping? && u.ticker.Alarmed?
    ensures EndsStuck(s, es + [CloseConn])
  {
    CloseConnEnds(u);
    var v := Step(u, CloseConn).value;
    Then(s, es, u, CloseConn, v);
    StuckAtEnd(s, es + [CloseConn], v);
  }

  lemma CloseConnEnds(u: Server)
    requires u.serve.Dropping?
    ensures Step(u, CloseConn).Some?
    ensures var v := Step(u, CloseConn).value; v.serve.Ended? && SameTicker(u, v)
  {}

  lemma StuckAtEnd(s: Server, es: seq<Event>, t: Server)
    requires Exec(s, es) == Some(t) && t.serve.Ended? && t.ticker.Alarmed?
    ensures EndsStuck(s, es)
  {}

  // ---------------------------------------------------------------- a stream of good packets

  predicate InLoop(p: Serve) {
    p.Check? || p.Reading? || p.Handling? || p.Finishing?
  }

  function Min(a: nat, b: nat): nat {
    if a <= b then a else b
  }

  /** The packets ps and the packets qs begin alike, as far as both go. */
  predicate Alike(ps: seq<Packet>, qs: seq<Packet>) {
    ps[..Min(|ps|, |qs|)] == qs[..Min(|ps|, |qs|)]
  }

  /** The packets handled first are those sent, and those sent but not handled are still to be read. */
  ghost predicate InStream(s: Server, sent: seq<Sent>, tail: Str)
    requires AllGood(sent)
  {
    && Alike(s.handled, AllArrived(sent))
    && (|s.handled| <= |sent| && InLoop(s.serve) ==> s.incoming == Stream(sent[|s.handled|..]) + tail)
  }

  /** The only timeouts are those that pass between packets. */
  predicate OnTime(e: Event) {
    e.Read? ==> e.a == InTime || e.a == LateHeader(0)
  }

  lemma ReadNext(s: Server, r: Receipt, sent: seq<Sent>, tail: Str)
    requires AllGood(sent) && s.serve.Reading? && InStream(s, sent, tail) && |s.handled| < |sent|
    requires r.result == Ok(ArrivedAs(sent[|s.handled|])) && r.rest == Stream(sent[|s.handled| + 1..]) + tail
    ensures InStream(AfterRead(s, r), sent, tail)
  {
    AlikeNext(s.handled, AllArrived(sent));
    ReadPacketEffect(s, r, ArrivedAs(sent[|s.handled|]));
  }

  lemma ReadPacketEffect(s: Server, r: Receipt, p: Packet)
    requires r.result == Ok(p)
    ensures var t := AfterRead(s, r);
            && t.incoming == r.rest
            && (if Accepted(p, s.version) then t.handled == s.handled + [p]
                else t.handled == s.handled && t.serve.Leaving?)
  {}

  lemma AlikeNext(ps: seq<Packet>, qs: seq<Packet>)
    requires Alike(ps, qs) && |ps| < |qs|
    ensures Alike(ps + [qs[|ps|]], qs)
  {
    assert ps[..|ps|] == ps && (ps + [qs[|ps|]])[..|ps| + 1] == ps + [qs[|ps|]];
    assert qs[..|ps| + 1] == qs[..|ps|] + [qs[|ps|]];
  }

  lemma AlikeBeyond(ps: seq<Packet>, qs: seq<Packet>, p: Packet)
    requires Alike(ps, qs) && |ps| >= |qs|
    ensures Alike(ps + [p], qs)
  {
    assert (ps + [p])[..|qs|] == ps[..|qs|];
  }

  lemma ReadAfterAll(s: Server, r: Receipt, sent: seq<Sent>, tail: Str)
    requires AllGood(sent) && s.serve.Reading? && InStream(s, sent, tail) && |s.handled| >= |sent|
    requires r.result != Err(ReadTimeout)
    ensures InStream(AfterRead(s, r), sent, tail)
  {
    if r.result.Ok? {
      AlikeBeyond(s.handled, AllArrived(sent), r.result.value);
    }
  }

  lemma ReadInStream(s: Server, sent: seq<Sent>, tail: Str)
    requires AllGood(sent) && s.serve.Reading? && InStream(s, sent, tail)
    ensures InStream(AfterRead(s, Recv(s.incoming, InTime)), sent, tail)
  {
    var r := Recv(s.incoming, InTime);
    if |s.handled| < |sent| {
      FrameNth(sent, |s.handled|, tail);
      ReadNext(s, r, sent, tail);
    } else {
      InTimeIsNoTimeout(s.incoming);
      ReadAfterAll(s, r, sent, tail);
    }
  }

  lemma NoReadInStream(s: Server, e: Event, sent: seq<Sent>, tail: Str)
    requires AllGood(sent) && !e.Read? && InStream(s, sent, tail) && Step(s, e).Some?
    ensures InStream(Step(s, e).value, sent, tail)
  {
    var t := Step(s, e).value;
    assert t.handled == s.handled && t.incoming == s.incoming && (InLoop(t.serve) ==> InLoop(s.serve));
  }

  lemma StepInStream(s: Server, e: Event, sent: seq<Sent>, tail: Str)
    requires AllGood(sent) && OnTime(e) && InStream(s, sent, tail) && Step(s, e).Some?
    ensures InStream(Step(s, e).value, sent, tail)
  {
    if !e.Read? {
      NoReadInStream(s, e, sent, tail);
    } else if e.a == InTime {
      ReadInStream(s, sent, tail);
    } else {
      LateInStream(s, sent, tail);
    }
  }

  lemma LateInStream(s: Server, sent: seq<Sent>, tail: Str)
    requires AllGood(sent) && s.serve.Reading? && InStream(s, sent, tail)
    ensures InStream(AfterRead(s, Recv(s.incoming, LateHeader(0))), sent, tail)
  {
    LateBeforeHeader(s.incoming);
  }

  lemma {:induction false} RunInStream(s: Server, es: seq<Event>, sent: seq<Sent>, tail: Str)
    requires AllGood(sent) && forall i :: 0 <= i < |es| ==> OnTime(es[i])
    requires InStream(s, sent, tail) && Exec(s, es).Some?
    ensures InStream(Exec(s, es).value, sent, tail)
  {
    if es != [] {
      var k := |es| - 1;
      RunInStream(s, es[..k], sent, tail);
      StepInStream(Exec(s, es[..k]).value, es[k], sent, tail);
    }
  }

  lemma StartInStream(n: int32, version: byte, sent: seq<Sent>, tail: Str)
    requires AllGood(sent)
    ensures InStream(Start(n, version, Stream(sent) + tail), sent, tail)
  {
    assert sent[0..] == sent;
  }

  /** When the peer sends good packets and then anything, the packets that the server handles first are exactly those
      in their order, and its first replies are theirs, one for each request, with that request's sequence id. */
  lemma StreamIsServed(s: Server, sent: seq<Sent>, tail: Str, es: seq<Event>)
    requires AllGood(sent) && forall i :: 0 <= i < |es| ==> OnTime(es[i])
    requires s == Start(s.n, s.version, Stream(sent) + tail) && Exec(s, es).Some?
    ensures ServedFirst(Exec(s, es).value, AllArrived(sent))
  {
    StartInStream(s.n, s.version, sent, tail);
    RunInStream(s, es, sent, tail);
    StartInv(s.n, s.version, s.incoming);
    RunKeeps(s, es);
    FirstFinished(Exec(s, es).value, AllArrived(sent));
  }

  /** Of the packets handled, the first are those of ps; of the replies, the first are those to the packets of ps that
      have been finished, and there are others only if packets beyond ps have been finished. */
  predicate ServedFirst(t: Server, ps: seq<Packet>) {
    var k := Min(|t.finished|, |ps|);
    && |t.finished| <= |t.handled| <= |t.finished| + 1
    && Alike(t.handled, ps) && Replies(ps[..k]) <= t.replies
    && (|t.finished| <= |ps| ==> t.replies == Replies(ps[..k]))
  }

  lemma {:induction false} RepliesGrow(ps: seq<Packet>, k: nat)
    requires k <= |ps|
    ensures Replies(ps[..k]) <= Replies(ps)
    decreases |ps|
  {
    if k < |ps| {
      var front := ps[..|ps| - 1];
      assert front[..k] == ps[..k];
      RepliesGrow(front, k);
    } else {
      assert ps[..k] == ps;
    }
  }

  lemma FirstFinished(t: Server, ps: seq<Packet>)
    requires Replied(t) && Alike(t.handled, ps)
    ensures ServedFirst(t, ps)
  {
    var k, m := Min(|t.finished|, |ps|), Min(|t.handled|, |ps|);
    assert t.finished == t.handled[..|t.finished|];
    assert t.finished[..k] == t.handled[..m][..k] == ps[..m][..k] == ps[..k];
    assert k == |t.finished| ==> t.finished[..k] == t.finished;
    RepliesGrow(t.finished, k);
  }

  // ---------------------------------------------------------------- staying and leaving

  /** The events that make serve leave its loop: the alarm, a panic, a read that gives neither an accepted packet nor a
      timeout in the header, and the end of a packet whose handler failed or whose reply could not be sent. */
  predicate MakesLeave(s: Server, e: Event) {
    match e
    case Exceed => true
    case HandlerPanic => true
    case Read(a) =>
      var r := Recv(s.incoming, a).result;
      r != Err(ReadTimeout) && !(r.Ok? && Accepted(r.value, s.version))
    case Finish(ok) => s.serve.Finishing? && (s.serve.failed || (ReplyTo(s.serve.p).Some? && !ok))
    case _ => false
  }

  /** Serve stays in its loop exactly if the event is none of those. */
  lemma StaysInLoop(s: Server, e: Event)
    requires InLoop(s.serve) && Step(s, e).Some?
    ensures InLoop(Step(s, e).value.serve) <==> !MakesLeave(s, e)
  {}

  /** When the ticker is sending on exceed, serve can do nothing but receive that; when it is not, serve reads. */
  lemma AlarmIsTaken(s: Server, e: Event)
    requires s.serve.Check? && !OfTicker(e)
    ensures Step(s, e).Some? <==> e == if s.ticker.Blocked? then Exceed else NoExceed
    ensures s.ticker.Blocked? ==>
              Step(s, Exceed) == Some(s.(serve := Leaving, ticker := Select, exceeded := true))
  {}

  /** What serve does with one packet for which its handler returns this. */
  function Round(failed: bool): seq<Event> {
    [NoExceed] + [Read(InTime)] + [Handle(failed)] + [Finish(true)]
  }

  /** t is s after a round with p: the packet handled and finished, its reply sent, and its bytes taken. */
  predicate AfterRound(s: Server, t: Server, p: Packet, rest: Str, failed: bool) {
    && t.serve == (if failed then Leaving else Check)
    && t.handled == s.handled + [p] && t.finished == s.finished + [p] && t.incoming == rest
    && t.replies == s.replies + (match ReplyTo(p) case None => [] case Some(r) => [r])
    && t.ticker == s.ticker && t.closed == s.closed && t.n == s.n && t.version == s.version
  }

  lemma FinishRound(u: Server, p: Packet, failed: bool)
    requires u.serve == Finishing(p, failed) && !u.closed
    ensures FinishedRound(u, Step(u, Finish(true)), p, failed)
  {}

  /** A packet that is received and accepted is handled, replied to and finished; after that serve goes on if the
      handler has returned no error, and leaves if it has. */
  lemma OneRound(s: Server, p: Packet, rest: Str, failed: bool)
    requires s.serve.Check? && !s.ticker.Blocked? && !s.closed
    requires IsReceived(s.incoming, p, rest) && Accepted(p, s.version)
    ensures Exec(s, Round(failed)).Some? && AfterRound(s, Exec(s, Round(failed)).value, p, rest, failed)
  {
    var t := s.(serve := Reading);
    ExecOne(s, NoExceed);
    ReadRound(t, p, rest);
    var u := s.(serve := Handling(p), handled := s.handled + [p], incoming := rest);
    Then(s, [NoExceed], t, Read(InTime), u);
    HandleRound(s, [NoExceed] + [Read(InTime)], u, p, failed);
  }

  lemma ReadRound(t: Server, p: Packet, rest: Str)
    requires t.serve.Reading? && IsReceived(t.incoming, p, rest) && Accepted(p, t.version)
    ensures Step(t, Read(InTime)) == Some(t.(serve := Handling(p), handled := t.handled + [p], incoming := rest))
  {}

  lemma HandleRound(s: Server, es: seq<Event>, u: Server, p: Packet, failed: bool)
    requires Exec(s, es) == Some(u) && u.serve == Handling(p) && !u.closed
    ensures var all := es + [Handle(failed)] + [Finish(true)];
            var v := u.(serve := Finishing(p, failed));
            Exec(s, all) == Step(v, Finish(true)) && FinishedRound(v, Exec(s, all), p, failed)
  {
    var v := u.(serve := Finishing(p, failed));
    Then(s, es, u, Handle(failed), v);
    FinishRound(v, p, failed);
    Then(s, es + [Handle(failed)], v, Finish(true), Step(v, Finish(true)).value);
  }

  predicate FinishedRound(u: Server, r: Option<Server>, p: Packet, failed: bool) {
    && r.Some?
    && var t := r.value;
       && t.serve == (if failed then Leaving else Check)
       && t.handled == u.handled && t.finished == u.finished + [p] && t.incoming == u.incoming
       && t.replies == u.replies + (match ReplyTo(p) case None => [] case Some(r) => [r])
       && t.ticker == u.ticker && t.closed == u.closed && t.n == u.n && t.version == u.version
  }

  function Served(k: nat): seq<Event> {
    if k == 0 then [] else Served(k - 1) + Round(false)
  }

  lemma {:induction false} ExecConcat(s: Server, es: seq<Event>, t: Server, fs: seq<Event>)
    requires Exec(s, es) == Some(t)
    ensures Exec(s, es + fs) == Exec(t, fs)
  {
    if fs == [] {
      assert es + fs == es;
    } else {
      var front, e := fs[..|fs| - 1], fs[|fs| - 1];
      ExecConcat(s, es, t, front);
      assert (es + fs)[..|es + fs| - 1] == es + front;
    }
  }

  /** Serve is about to look for packet k of ps in what is left, and has finished those before it. */
  predicate ServedTo(t: Server, ps: seq<Packet>, k: nat, left: Str) {
    && k <= |ps| && t.serve.Check? && t.ticker.Select? && !t.closed
    && t.handled == ps[..k] && t.finished == ps[..k] && t.incoming == left
  }

  lemma ServedNext(t: Server, u: Server, ps: seq<Packet>, k: nat, left: Str, rest: Str)
    requires ServedTo(t, ps, k, left) && k < |ps| && AfterRound(t, u, ps[k], rest, false)
    ensures ServedTo(u, ps, k + 1, rest)
  {
    assert ps[..k + 1] == ps[..k] + [ps[k]];
  }

  lemma RoundNext(s: Server, es: seq<Event>, t: Server, ps: seq<Packet>, k: nat, left: Str, rest: Str)
    requires Exec(s, es) == Some(t) && ServedTo(t, ps, k, left) && k < |ps|
    requires IsReceived(left, ps[k], rest) && Accepted(ps[k], t.version)
    ensures var all := es + Round(false);
            && Exec(s, all).Some? && ServedTo(Exec(s, all).value, ps, k + 1, rest)
            && Exec(s, all).value.version == t.version
  {
    OneRound(t, ps[k], rest, false);
    ExecConcat(s, es, t, Round(false));
    ServedNext(t, Exec(t, Round(false)).value, ps, k, left, rest);
  }

  /** Packet i of ps is received, with what is left before and after it, and accepted. */
  predicate Coming(ps: seq<Packet>, lefts: seq<Str>, version: byte, i: nat)
    requires |lefts| == |ps| + 1 && i < |ps|
  {
    IsReceived(lefts[i], ps[i], lefts[i + 1]) && Accepted(ps[i], version)
  }

  lemma {:induction false} ServesTo(s: Server, ps: seq<Packet>, lefts: seq<Str>, k: nat)
    requires |lefts| == |ps| + 1 && k <= |ps| && s == Start(s.n, s.version, lefts[0])
    requires forall i :: 0 <= i < |ps| ==> Coming(ps, lefts, s.version, i)
    ensures Exec(s, Served(k)).Some? && ServedTo(Exec(s, Served(k)).value, ps, k, lefts[k])
    ensures Exec(s, Served(k)).value.version == s.version
  {
    if k > 0 {
      ServesTo(s, ps, lefts, k - 1);
      assert Coming(ps, lefts, s.version, k - 1);
      RoundNext(s, Served(k - 1), Exec(s, Served(k - 1)).value, ps, k - 1, lefts[k - 1], lefts[k]);
    }
  }

  ghost function Lefts(sent: seq<Sent>, tail: Str): (ls: seq<Str>)
    requires AllGood(sent)
    ensures |ls| == |sent| + 1
  {
    seq(|sent| + 1, i requires 0 <= i <= |sent| => Stream(sent[i..]) + tail)
  }

  lemma PacketsCome(sent: seq<Sent>, tail: Str, version: byte, i: nat)
    requires AllGood(sent) && i < |sent| && Accepted(ArrivedAs(sent[i]), version)
    ensures Coming(AllArrived(sent), Lefts(sent, tail), version, i)
  {
    FrameNth(sent, i, tail);
  }

  /** The server can handle, finish and reply to all packets of a peer whose packets are good and accepted, and is then
      still in its loop, on an open connection, with just the rest of the stream to read. */
  lemma AllServed(s: Server, sent: seq<Sent>, tail: Str)
    requires AllGood(sent) && s == Start(s.n, s.version, Stream(sent) + tail)
    requires forall i :: 0 <= i < |sent| ==> Accepted(ArrivedAs(sent[i]), s.version)
    ensures Exec(s, Served(|sent|)).Some?
    ensures HasServed(Exec(s, Served(|sent|)).value, AllArrived(sent), tail)
  {
    var ps, lefts := AllArrived(sent), Lefts(sent, tail);
    BothEnds(sent, tail);
    forall i | 0 <= i < |ps|
      ensures Coming(ps, lefts, s.version, i)
    {
      PacketsCome(sent, tail, s.version, i);
    }
    ServesTo(s, ps, lefts, |ps|);
    StartInv(s.n, s.version, s.incoming);
    RunKeeps(s, Served(|ps|));
    ServedAll(Exec(s, Served(|ps|)).value, ps, tail);
  }

  lemma BothEnds(sent: seq<Sent>, tail: Str)
    requires AllGood(sent)
    ensures Lefts(sent, tail)[0] == Stream(sent) + tail && Lefts(sent, tail)[|sent|] == tail
  {
    WholeStream(sent);
    NoStream(sent, tail);
  }

  lemma WholeStream(sent: seq<Sent>)
    requires AllGood(sent)
    ensures Stream(sent[0..]) == Stream(sent)
  {
    assert sent[0..] == sent;
  }

  lemma NoStream(sent: seq<Sent>, tail: Str)
    requires AllGood(sent)
    ensures Stream(sent[|sent|..]) + tail == tail
  {
    assert sent[|sent|..] == [];
    assert Stream([]) == [];
  }

  lemma ServedAll(t: Server, ps: seq<Packet>, rest: Str)
    requires ServedTo(t, ps, |ps|, rest) && Replied(t)
    ensures HasServed(t, ps, rest)
  {
    assert ps[..|ps|] == ps;
  }

  /** Serve is in its loop, on an open connection, and has finished ps and replied to them. */
  predicate HasServed(t: Server, ps: seq<Packet>, rest: Str) {
    t.serve == Check && !t.closed && t.incoming == rest && t.finished == ps && t.replies == Replies(ps)
  }

  /** q is a packet with which serve answers p. */
  predicate Replying(p: Packet, q: Packet) {
    match p
    case LoginPkt(_) => q.LoginRespPkt?
    case SubmitPkt(_) => q.SubmitRespPkt?
    case DeliverPkt(_) => q.DeliverRespPkt?
    case ActiveTestPkt(_) => q.ActiveTestRespPkt?
    case ExitPkt(_) => q.ExitRespPkt?
    case QueryPkt(_) => q.QueryRespPkt?
    case _ => false
  }

  /** Whatever the handler has put in the reply to a packet, the bytes of the reply bear the sequence id that the bytes
      of the packet bear, and the response id that belongs to its request id. */
  lemma ReplyAnswersBytes(stream: Str, a: Arrival, q: Packet, env: Env)
    requires Recv(stream, a).result.Ok? && Replying(Recv(stream, a).result.value, q)
    requires |stream| >= 12 && PackedAs(q, U32At(stream, 8), env).Ok?
    ensures var w, id := PackedAs(q, U32At(stream, 8), env).value, U32At(stream, 4);
            && |w| >= 12 && U32At(w, 8) == U32At(stream, 8)
            && id in [1, 2, 3, 4, 6, 7] && U32At(w, 4) == if id == 6 then 0x8000_0004 else id + 0x8000_0000
  {
    DecidedByBytes(stream, a, 0);
    ReplyBytes(Recv(stream, a).result.value, q, env);
  }

  /** Whatever the handler has put in the reply, its bytes bear the id and sequence id that ReplyTo names. */
  lemma ReplyBytes(p: Packet, q: Packet, env: Env)
    requires Replying(p, q) && ReplyTo(p).Some? && PackedAs(q, ReplyTo(p).value.seqId, env).Ok?
    ensures var w := PackedAs(q, ReplyTo(p).value.seqId, env).value;
            |w| >= HEADER_LEN && Reply(U32At(w, 4), U32At(w, 8)) == ReplyTo(p).value
  {
    var r := ReplyTo(p).value;
    var w := PackedAs(q, r.seqId, env).value;
    match q
    case LoginRespPkt(l) =>
      Prefix12(Header(HEADER_LEN + 21, r.id, r.seqId), L.RespBody(L.RespRewritten(l, r.seqId, env.md5)));
    case SubmitRespPkt(x) => Prefix12(Header(HEADER_LEN + 14, r.id, r.seqId), RespBody(x));
    case DeliverRespPkt(x) => Prefix12(Header(HEADER_LEN + 14, r.id, r.seqId), RespBody(x));
    case QueryRespPkt(x) => Prefix12(Header(HEADER_LEN + 59, r.id, r.seqId), QueryRespBody(x));
    case _ =>
  }
}
