/** The protocol of a served connection together with the bytes that it writes, and what the peer receives of them. */
module Outgoing {
  import opened Bytes
  import opened Results
  import opened PacketIo
  import opened Packets
  import opened Framing
  import opened Server
  import L = Login

  /** Why a packet is written: a tick, a request, or the end. */
  datatype Kind = Test | Answer(to: Packet) | Goodbye

  datatype Entry = Entry(kind: Kind, sent: Sent)

  /** A state of the protocol, the bytes written, and their history: the packets written in full, in order; how many of
      them before the network broke off a write for the first time; and whether it has. */
  datatype Wired = Wired(s: Server, outgoing: Str, log: seq<Entry>, whole: nat, broken: bool)

  /** An event, and what the packet that it writes depends on: the reply as the handler has filled it in, the sequence
      id drawn for a test or an exit, whether the exit can be written, and how much the network takes of a packet that
      it breaks off. */
  datatype Act = Act(e: Event, reply: Packet, seqId: u32, env: Env, bye: bool, cut: nat)

  /** What an event tries to write. */
  function Attempt(s: Server, a: Act): Option<Entry> {
    match a.e
    case SendTest(_) => Some(Entry(Test, Sent(ActiveTestPkt(0), a.seqId, a.env)))
    case SendExit => Some(Entry(Goodbye, Sent(ExitPkt(0), a.seqId, a.env)))
    case Finish(_) =>
      if !s.serve.Finishing? then None
      else (match ReplyTo(s.serve.p)
            case None => None
            case Some(r) => Some(Entry(Answer(s.serve.p), Sent(a.reply, r.seqId, a.env))))
    case _ => None
  }

  predicate Through(a: Act) {
    match a.e
    case SendTest(ok) => ok
    case Finish(ok) => ok
    case SendExit => a.bye
    case _ => true
  }

  /** What is written is a good packet on an open connection; what fails is broken off, or not written at all. */
  ghost predicate CanWrite(s: Server, a: Act, x: Entry) {
    && (x.kind.Answer? ==> Replying(x.kind.to, a.reply))
    && if Through(a) then Good(x.sent) && !s.closed
       else a.cut > 0 ==> Good(x.sent) && !s.closed && a.cut < |Packed(x.sent)|
  }

  ghost predicate CanAct(s: Server, a: Act) {
    Step(s, a.e).Some? && (Attempt(s, a).Some? ==> CanWrite(s, a, Attempt(s, a).value))
  }

  ghost function Written(w: Wired, a: Act, x: Entry, t: Server): Wired
    requires CanWrite(w.s, a, x)
  {
    if Through(a) then
      Wired(t, w.outgoing + Packed(x.sent), w.log + [x], if w.broken then w.whole else w.whole + 1, w.broken)
    else if a.cut == 0 then w.(s := t)
    else Wired(t, w.outgoing + Packed(x.sent)[..a.cut], w.log, w.whole, true)
  }

  ghost function WiredStep(w: Wired, a: Act): Wired
    requires CanAct(w.s, a)
  {
    match Attempt(w.s, a)
    case None => w.(s := Step(w.s, a.e).value)
    case Some(x) => Written(w, a, x, Step(w.s, a.e).value)
  }

  ghost function WiredExec(w: Wired, acts: seq<Act>): Option<Wired> {
    if acts == [] then Some(w)
    else match WiredExec(w, acts[..|acts| - 1]) {
      case None => None
      case Some(v) => if CanAct(v.s, acts[|acts| - 1]) then Some(WiredStep(v, acts[|acts| - 1])) else None
    }
  }

  function Events(acts: seq<Act>): (es: seq<Event>)
    ensures |es| == |acts|
  {
    seq(|acts|, i requires 0 <= i < |acts| => acts[i].e)
  }

  // ---------------------------------------------------------------- what is written and what is counted

  function Sents(log: seq<Entry>): (sent: seq<Sent>)
    ensures |sent| == |log|
  {
    seq(|log|, i requires 0 <= i < |log| => log[i].sent)
  }

  /** The headers of the responses among these packets, in order. */
  function Responses(ps: seq<Packet>): seq<Reply> {
    if ps == [] then []
    else match HeaderOf(ps[|ps| - 1]) {
      case None => Responses(ps[..|ps| - 1])
      case Some(r) => Responses(ps[..|ps| - 1]) + [r]
    }
  }

  function HeaderOf(q: Packet): Option<Reply> {
    match q
    case LoginRespPkt(l) => Some(Reply(L.SMGP_LOGIN_RESP, l.sequenceId))
    case SubmitRespPkt(r) => Some(Reply(SMGP_SUBMIT_RESP, r.sequenceId))
    case DeliverRespPkt(r) => Some(Reply(SMGP_DELIVER_RESP, r.sequenceId))
    case ActiveTestRespPkt(seqId) => Some(Reply(SMGP_ACTIVE_TEST_RESP, seqId))
    case QueryRespPkt(q) => Some(Reply(SMGP_QUERY_RESP, q.sequenceId))
    case _ => None
  }

  /** How many of these packets are active tests. */
  function ActiveTests(ps: seq<Packet>): nat {
    if ps == [] then 0
    else ActiveTests(ps[..|ps| - 1]) + if ps[|ps| - 1].ActiveTestPkt? then 1 else 0
  }

  function Goodbyes(log: seq<Entry>): nat {
    if log == [] then 0
    else Goodbyes(log[..|log| - 1]) + if log[|log| - 1].kind.Goodbye? then 1 else 0
  }

  /** An entry arrives as a response with the header that its request asks for, or as an active test. */
  predicate Arrives(x: Entry) {
    match x.kind
    case Test => ArrivedAs(x.sent).ActiveTestPkt?
    case Goodbye => ArrivedAs(x.sent).ActiveTestPkt?
    case Answer(p) =>
      ReplyTo(p).Some? && HeaderOf(ArrivedAs(x.sent)) == ReplyTo(p) && !ArrivedAs(x.sent).ActiveTestPkt?
  }

  lemma AnswerArrives(p: Packet, q: Packet, seqId: u32, env: Env)
    requires ReplyTo(p).Some? && ReplyTo(p).value.seqId == seqId && Replying(p, q)
    ensures HeaderOf(Arrived(q, seqId, env)) == ReplyTo(p) && !Arrived(q, seqId, env).ActiveTestPkt?
  {}

  lemma AttemptArrives(s: Server, a: Act)
    requires Attempt(s, a).Some?
    requires var x := Attempt(s, a).value; x.kind.Answer? ==> Replying(x.kind.to, a.reply)
    ensures Arrives(Attempt(s, a).value)
  {
    var x := Attempt(s, a).value;
    match x.kind
    case Answer(p) => AnswerArrives(p, a.reply, x.sent.seqId, a.env);
    case _ =>
  }

  /** The packets ps, some of them for the exit, account for the replies and the tests. */
  predicate Balanced(ps: seq<Packet>, byes: nat, s: Server) {
    && Responses(ps) == s.replies && ActiveTests(ps) == s.tests + byes
    && byes <= if SaidGoodbye(s.serve) then 1 else 0
  }

  /** What the peer will have received accounts for the replies, the tests and the exit. */
  ghost predicate Accounted(w: Wired) {
    Balanced(AllArrived(Sents(w.log)), Goodbyes(w.log), w.s)
  }

  /** The bytes written start with the packets written before the first break, and are nothing else without one. */
  ghost predicate OnTheWire(w: Wired) {
    Carries(w.outgoing, Sents(w.log), w.whole, w.broken)
  }

  ghost function Pieces(sent: seq<Sent>): (ps: seq<Str>)
    requires AllGood(sent)
    ensures |ps| == |sent|
  {
    seq(|sent|, i requires 0 <= i < |sent| => Packed(sent[i]))
  }

  lemma {:induction false} StreamIsCat(sent: seq<Sent>)
    requires AllGood(sent)
    ensures Stream(sent) == Cat(Pieces(sent))
  {
    if sent != [] {
      StreamIsCat(sent[1..]);
      PiecesRest(sent);
    }
  }

  lemma PiecesRest(sent: seq<Sent>)
    requires AllGood(sent) && sent != []
    ensures Pieces(sent)[0] == Packed(sent[0]) && Pieces(sent)[1..] == Pieces(sent[1..])
  {
    var ps, qs := Pieces(sent)[1..], Pieces(sent[1..]);
    assert |ps| == |qs|;
    forall i | 0 <= i < |ps|
      ensures ps[i] == qs[i]
    {
      assert sent[1..][i] == sent[i + 1];
    }
  }

  lemma StreamSnoc(sent: seq<Sent>, x: Sent)
    requires AllGood(sent) && Good(x)
    ensures AllGood(sent + [x]) && Stream(sent + [x]) == Stream(sent) + Packed(x)
  {
    StreamIsCat(sent);
    StreamIsCat(sent + [x]);
    PiecesSnoc(sent, x);
    CatSnoc(Pieces(sent), Packed(x));
  }

  lemma PiecesSnoc(sent: seq<Sent>, x: Sent)
    requires AllGood(sent) && Good(x)
    ensures AllGood(sent + [x]) && Pieces(sent + [x]) == Pieces(sent) + [Packed(x)]
  {}

  lemma LogNext(log: seq<Entry>, x: Entry)
    ensures Sents(log + [x]) == Sents(log) + [x.sent]
    ensures AllArrived(Sents(log + [x])) == AllArrived(Sents(log)) + [ArrivedAs(x.sent)]
    ensures Goodbyes(log + [x]) == Goodbyes(log) + if x.kind.Goodbye? then 1 else 0
  {
    assert (log + [x])[..|log|] == log;
  }

  lemma CountNext(ps: seq<Packet>, q: Packet)
    ensures Responses(ps + [q]) == match HeaderOf(q) case None => Responses(ps) case Some(r) => Responses(ps) + [r]
    ensures ActiveTests(ps + [q]) == ActiveTests(ps) + if q.ActiveTestPkt? then 1 else 0
  {
    assert (ps + [q])[..|ps|] == ps;
  }

  /** What an event does to the replies and tests that the protocol counts. */
  predicate Counts(s: Server, t: Server, a: Act, x: Option<Entry>) {
    && t.tests == s.tests + (if x.Some? && x.value.kind.Test? && Through(a) then 1 else 0)
    && (x.Some? && x.value.kind.Answer? && Through(a) ==>
          ReplyTo(x.value.kind.to).Some? && t.replies == s.replies + [ReplyTo(x.value.kind.to).value])
    && (!(x.Some? && x.value.kind.Answer? && Through(a)) ==> t.replies == s.replies)
  }

  lemma StepCounts(s: Server, a: Act)
    requires Step(s, a.e).Some?
    ensures Counts(s, Step(s, a.e).value, a, Attempt(s, a))
  {
    if a.e.Read? {
      ReadKeeps(s, Recv(s.incoming, a.e.a));
    }
  }

  predicate SaidGoodbye(p: Serve) {
    p.Saying? || p.Dropping? || p.Ended?
  }

  lemma StepGoodbye(s: Server, a: Act)
    requires Step(s, a.e).Some?
    ensures var t := Step(s, a.e).value;
            && (SaidGoodbye(s.serve) ==> SaidGoodbye(t.serve))
            && (a.e.SendExit? ==> !SaidGoodbye(s.serve) && SaidGoodbye(t.serve))
  {}

  // ---------------------------------------------------------------- every run

  predicate ByesMove(s: Server, t: Server, bye: bool) {
    if bye then !SaidGoodbye(s.serve) && SaidGoodbye(t.serve) else SaidGoodbye(s.serve) ==> SaidGoodbye(t.serve)
  }

  lemma BalanceNext(ps: seq<Packet>, byes: nat, s: Server, t: Server, a: Act, x: Entry)
    requires Balanced(ps, byes, s) && Arrives(x) && Counts(s, t, a, Some(x)) && Through(a)
    requires ByesMove(s, t, x.kind.Goodbye?)
    ensures Balanced(ps + [ArrivedAs(x.sent)], byes + if x.kind.Goodbye? then 1 else 0, t)
  {
    CountNext(ps, ArrivedAs(x.sent));
  }

  lemma BalanceStays(ps: seq<Packet>, byes: nat, s: Server, t: Server, a: Act, x: Option<Entry>)
    requires Balanced(ps, byes, s) && Counts(s, t, a, x) && (x.Some? ==> !Through(a))
    requires SaidGoodbye(s.serve) ==> SaidGoodbye(t.serve)
    ensures Balanced(ps, byes, t)
  {}

  lemma WrittenAccounted(w: Wired, a: Act, x: Entry, t: Server)
    requires Accounted(w) && CanWrite(w.s, a, x) && Arrives(x) && Counts(w.s, t, a, Some(x))
    requires ByesMove(w.s, t, x.kind.Goodbye?)
    ensures Accounted(Written(w, a, x, t))
  {
    if Through(a) {
      LogNext(w.log, x);
      BalanceNext(AllArrived(Sents(w.log)), Goodbyes(w.log), w.s, t, a, x);
    } else {
      BalanceStays(AllArrived(Sents(w.log)), Goodbyes(w.log), w.s, t, a, Some(x));
    }
  }

  lemma StepAccounted(w: Wired, a: Act)
    requires Accounted(w) && CanAct(w.s, a)
    ensures Accounted(WiredStep(w, a))
  {
    StepCounts(w.s, a);
    StepGoodbye(w.s, a);
    if Attempt(w.s, a).Some? {
      AttemptArrives(w.s, a);
      AttemptKind(w.s, a);
      WrittenAccounted(w, a, Attempt(w.s, a).value, Step(w.s, a.e).value);
    } else {
      BalanceStays(AllArrived(Sents(w.log)), Goodbyes(w.log), w.s, Step(w.s, a.e).value, a, None);
    }
  }

  lemma AttemptKind(s: Server, a: Act)
    requires Attempt(s, a).Some?
    ensures Attempt(s, a).value.kind.Goodbye? <==> a.e.SendExit?
  {}

  /** The bytes out start with the first packets of sent, and are all of them unless the network has broken. */
  ghost predicate Carries(out: Str, sent: seq<Sent>, whole: nat, broken: bool) {
    && AllGood(sent) && whole <= |sent|
    && Stream(sent[..whole]) <= out
    && (!broken ==> whole == |sent| && out == Stream(sent))
  }

  lemma CarriesNext(out: Str, sent: seq<Sent>, whole: nat, broken: bool, x: Sent)
    requires Carries(out, sent, whole, broken) && Good(x)
    ensures Carries(out + Packed(x), sent + [x], if broken then whole else whole + 1, broken)
  {
    StreamSnoc(sent, x);
    if broken {
      assert (sent + [x])[..whole] == sent[..whole];
    } else {
      assert (sent + [x])[..whole + 1] == sent + [x];
    }
  }

  lemma CarriesBroken(out: Str, sent: seq<Sent>, whole: nat, broken: bool, more: Str)
    requires Carries(out, sent, whole, broken)
    ensures Carries(out + more, sent, whole, true)
  {}

  lemma WrittenOnTheWire(w: Wired, a: Act, x: Entry, t: Server)
    requires OnTheWire(w) && CanWrite(w.s, a, x)
    ensures OnTheWire(Written(w, a, x, t))
  {
    var sent := Sents(w.log);
    if Through(a) {
      LogNext(w.log, x);
      CarriesNext(w.outgoing, sent, w.whole, w.broken, x.sent);
    } else if a.cut > 0 {
      CarriesBroken(w.outgoing, sent, w.whole, w.broken, Packed(x.sent)[..a.cut]);
    }
  }

  lemma StepOnTheWire(w: Wired, a: Act)
    requires OnTheWire(w) && CanAct(w.s, a)
    ensures OnTheWire(WiredStep(w, a))
  {
    if Attempt(w.s, a).Some? {
      WrittenOnTheWire(w, a, Attempt(w.s, a).value, Step(w.s, a.e).value);
    }
  }

  ghost predicate WiredInv(w: Wired) {
    Accounted(w) && OnTheWire(w)
  }

  lemma StepKeepsInv(w: Wired, a: Act)
    requires WiredInv(w) && CanAct(w.s, a)
    ensures WiredInv(WiredStep(w, a))
  {
    StepAccounted(w, a);
    StepOnTheWire(w, a);
  }

  lemma {:induction false} WiredRunKeeps(w: Wired, acts: seq<Act>)
    requires WiredInv(w) && WiredExec(w, acts).Some?
    ensures WiredInv(WiredExec(w, acts).value)
  {
    if acts != [] {
      var k := |acts| - 1;
      WiredRunKeeps(w, acts[..k]);
      StepKeepsInv(WiredExec(w, acts[..k]).value, acts[k]);
    }
  }

  /** The run of the protocol that goes with a run of acts. */
  lemma {:induction false} WiredRunIsRun(w: Wired, acts: seq<Act>)
    requires WiredExec(w, acts).Some?
    ensures Exec(w.s, Events(acts)) == Some(WiredExec(w, acts).value.s)
  {
    if acts != [] {
      var k := |acts| - 1;
      WiredRunIsRun(w, acts[..k]);
      RunNext(w.s, acts, WiredExec(w, acts[..k]).value);
    }
  }

  lemma RunNext(s: Server, acts: seq<Act>, v: Wired)
    requires acts != [] && CanAct(v.s, acts[|acts| - 1])
    requires Exec(s, Events(acts[..|acts| - 1])) == Some(v.s)
    ensures Exec(s, Events(acts)) == Some(WiredStep(v, acts[|acts| - 1]).s)
  {
    var front, a := acts[..|acts| - 1], acts[|acts| - 1];
    StepsAlike(v, a);
    EventsNext(front, a);
    ExecSnoc(s, Events(front), a.e);
    assert acts == front + [a];
  }

  lemma StepsAlike(w: Wired, a: Act)
    requires CanAct(w.s, a)
    ensures Step(w.s, a.e) == Some(WiredStep(w, a).s)
  {}

  lemma EventsNext(acts: seq<Act>, a: Act)
    ensures Events(acts + [a]) == Events(acts) + [a.e]
  {}

  /** The start, with nothing written. */
  function WiredStart(n: int32, version: byte, incoming: Str): Wired {
    Wired(Start(n, version, incoming), [], [], 0, false)
  }

  lemma StartWired(n: int32, version: byte, incoming: Str)
    ensures WiredInv(WiredStart(n, version, incoming))
  {}

  /** On every run, the peer receives first, in order and as they arrive, the packets written before the network broke
      for the first time. */
  lemma PeerReceives(w: Wired, acts: seq<Act>)
    requires w == WiredStart(w.s.n, w.s.version, w.s.incoming) && WiredExec(w, acts).Some?
    ensures var v := WiredExec(w, acts).value;
            v.whole <= |v.log| && RecvAll(v.outgoing, v.whole).0 == AllArrived(Sents(v.log)[..v.whole])
  {
    var v := WiredExec(w, acts).value;
    StartWired(w.s.n, w.s.version, w.s.incoming);
    WiredRunKeeps(w, acts);
    CarriedFirst(v.outgoing, Sents(v.log), v.whole, v.broken);
  }

  lemma CarriedFirst(out: Str, sent: seq<Sent>, whole: nat, broken: bool)
    requires Carries(out, sent, whole, broken)
    ensures RecvAll(out, whole).0 == AllArrived(sent[..whole])
  {
    var first := sent[..whole];
    Rest(Stream(first), out);
    FrameStream(first, out[|Stream(first)|..]);
  }

  lemma Rest(a: Str, b: Str)
    requires a <= b
    ensures a + b[|a|..] == b
  {}

  /** On every run on which no write is broken off, the peer receives exactly what was written and nothing else: its
      responses are the replies to the finished requests, one for each, in their order and with their sequence ids, and
      its active tests are those that the server counts, and one more at most, for the exit. */
  lemma PeerReceivesAll(w: Wired, acts: seq<Act>)
    requires w == WiredStart(w.s.n, w.s.version, w.s.incoming) && WiredExec(w, acts).Some?
    requires !WiredExec(w, acts).value.broken
    ensures var v := WiredExec(w, acts).value;
            var (ps, rest) := RecvAll(v.outgoing, |v.log|);
            && ps == AllArrived(Sents(v.log)) && rest == []
            && Responses(ps) == Replies(v.s.finished)
            && v.s.tests <= ActiveTests(ps) <= v.s.tests + 1
            && (ActiveTests(ps) > v.s.tests ==> SaidGoodbye(v.s.serve))
  {
    var v := WiredExec(w, acts).value;
    StartWired(w.s.n, w.s.version, w.s.incoming);
    WiredRunKeeps(w, acts);
    WiredRunIsRun(w, acts);
    FrameStream(Sents(v.log), []);
    assert v.outgoing + [] == v.outgoing;
    EveryRun(w.s.n, w.s.version, w.s.incoming, Events(acts));
  }

  /** The replies that these packets, as bytes, ask for. */
  function RepliesForBytes(ws: seq<Str>): seq<Reply>
    requires forall i :: 0 <= i < |ws| ==> |ws[i]| >= 12
  {
    if ws == [] then []
    else
      var w := ws[|ws| - 1];
      match AskedFor(U32At(w, 4), U32At(w, 8)) {
        case None => RepliesForBytes(ws[..|ws| - 1])
        case Some(r) => RepliesForBytes(ws[..|ws| - 1]) + [r]
      }
  }

  lemma AskedByPacked(s: Sent)
    requires Good(s)
    ensures |Packed(s)| >= 12 && AskedFor(U32At(Packed(s), 4), U32At(Packed(s), 8)) == ReplyTo(ArrivedAs(s))
  {
    Framed(s.packet, s.seqId, s.env);
    DecidedByHeader(U32At(Packed(s), 4), s.seqId, Packed(s)[HEADER_LEN..], 0);
  }

  lemma PiecesLong(sent: seq<Sent>)
    requires AllGood(sent)
    ensures forall i :: 0 <= i < |sent| ==> |Pieces(sent)[i]| >= 12
  {
    forall i | 0 <= i < |sent|
      ensures |Pieces(sent)[i]| >= 12
    {
      AskedByPacked(sent[i]);
    }
  }

  lemma {:induction false} RepliesAskedFor(sent: seq<Sent>)
    requires AllGood(sent)
    ensures forall i :: 0 <= i < |sent| ==> |Pieces(sent)[i]| >= 12
    ensures RepliesForBytes(Pieces(sent)) == Replies(AllArrived(sent))
  {
    PiecesLong(sent);
    if sent != [] {
      var front, last := sent[..|sent| - 1], sent[|sent| - 1];
      RepliesAskedFor(front);
      AskedByPacked(last);
      assert Pieces(sent)[..|sent| - 1] == Pieces(front);
      assert AllArrived(sent)[..|sent| - 1] == AllArrived(front);
    }
  }

  /** A peer that sends good requests, and then anything, receives first the replies to them, as far as they have been
      finished: one for each, in the order in which it sent them, each with the sequence id and the response id that
      the bytes of the request ask for. */
  lemma RequestsAnswered(w: Wired, acts: seq<Act>, sent: seq<Sent>, tail: Str)
    requires AllGood(sent) && w == WiredStart(w.s.n, w.s.version, Stream(sent) + tail)
    requires WiredExec(w, acts).Some? && !WiredExec(w, acts).value.broken
    requires forall i :: 0 <= i < |acts| ==> OnTime(acts[i].e)
    ensures var v := WiredExec(w, acts).value;
            var first := sent[..Min(|v.s.finished|, |sent|)];
            && (forall i :: 0 <= i < |first| ==> |Pieces(first)[i]| >= 12)
            && RepliesForBytes(Pieces(first)) <= Responses(RecvAll(v.outgoing, |v.log|).0)
  {
    var v := WiredExec(w, acts).value;
    var first := sent[..Min(|v.s.finished|, |sent|)];
    WiredRunIsRun(w, acts);
    StreamIsServed(w.s, sent, tail, Events(acts));
    PeerReceivesAll(w, acts);
    EveryRun(w.s.n, w.s.version, w.s.incoming, Events(acts));
    RepliesAskedFor(first);
    assert AllArrived(first) == AllArrived(sent)[..|first|];
  }
}
