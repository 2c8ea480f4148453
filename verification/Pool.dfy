/** Many receives through one pooled buffer: what an earlier packet keeps, and what its option values become. */
module Pool {
  import opened Bytes
  import opened Results
  import opened Slices
  import opened Options
  import opened Packets
  import opened Framing
  import opened Connection

  // ---------------------------------------------------------------- the buffer

  /** The buffer after each of the bodies has been read into its front. */
  function Overlays(buf: Str, bodies: seq<Str>): Str {
    if bodies == [] then buf
    else Overlay(Overlays(buf, bodies[..|bodies| - 1]), bodies[|bodies| - 1])
  }

  lemma OverlaysNext(buf: Str, bodies: seq<Str>, b: Str)
    ensures Overlays(buf, bodies + [b]) == Overlay(Overlays(buf, bodies), b)
  {
    assert (bodies + [b])[..|bodies|] == bodies;
  }

  /** Body j is the last one that reaches to place k. */
  predicate LastWrite(bodies: seq<Str>, j: nat, k: nat) {
    j < |bodies| && k < |bodies[j]| && forall l :: j < l < |bodies| ==> |bodies[l]| <= k
  }

  lemma {:induction false} SomeLastWrite(bodies: seq<Str>, i: nat, k: nat)
    requires i < |bodies| && k < |bodies[i]|
    ensures exists j: nat :: i <= j && LastWrite(bodies, j, k)
    decreases |bodies| - i
  {
    if !LastWrite(bodies, i, k) {
      var l: nat :| i < l < |bodies| && |bodies[l]| > k;
      SomeLastWrite(bodies, l, k);
    }
  }

  /** Every place holds what was last written there. */
  lemma {:induction false} PlaceNow(buf: Str, bodies: seq<Str>, j: nat, k: nat)
    requires LastWrite(bodies, j, k)
    ensures k < |Overlays(buf, bodies)| && Overlays(buf, bodies)[k] == bodies[j][k]
    decreases |bodies|
  {
    var n := |bodies| - 1;
    if j < n {
      assert LastWrite(bodies[..n], j, k);
      PlaceNow(buf, bodies[..n], j, k);
    }
  }

  /** After the whole run, a value that was received with body i is still what was received exactly if, at each of its
      places, the last body that reached there wrote the byte that was there. */
  lemma OptionKept(buf: Str, bodies: seq<Str>, i: nat, off: nat, n: nat)
    requires i < |bodies| && off + n <= |bodies[i]|
    ensures var r := Overlays(buf, bodies);
            && off + n <= |r|
            && (r[off..off + n] == bodies[i][off..off + n]
                <==> forall j: nat, k: nat ::
                       off <= k < off + n && LastWrite(bodies, j, k) ==> bodies[j][k] == bodies[i][k])
  {
    var r, b := Overlays(buf, bodies), bodies[i];
    forall k: nat | off <= k < off + n
      ensures exists j: nat :: LastWrite(bodies, j, k) && k < |r| && r[k] == bodies[j][k]
    {
      SomeLastWrite(bodies, i, k);
      var j: nat :| i <= j && LastWrite(bodies, j, k);
      PlaceNow(buf, bodies, j, k);
    }
    forall j: nat, k: nat | LastWrite(bodies, j, k)
      ensures k < |r| && r[k] == bodies[j][k]
    {
      PlaceNow(buf, bodies, j, k);
    }
    OverlaysLong(buf, bodies, i);
    if r[off..off + n] == b[off..off + n] {
      forall k | off <= k < off + n
        ensures r[k] == b[k]
      {
        assert r[off..off + n][k - off] == b[off..off + n][k - off];
      }
    }
  }

  lemma {:induction false} OverlaysLong(buf: Str, bodies: seq<Str>, i: nat)
    requires i < |bodies|
    ensures |Overlays(buf, bodies)| >= |bodies[i]|
    decreases |bodies|
  {
    if i < |bodies| - 1 {
      OverlaysLong(buf, bodies[..|bodies| - 1], i);
    }
  }

  /** The next body keeps a value exactly when it agrees with it wherever the two overlap. */
  lemma OptionAfterNext(buf: Str, b: Str, off: nat, n: nat)
    requires |b| <= |buf| && off + n <= |buf|
    ensures Overlay(buf, b)[off..off + n] == buf[off..off + n]
            <==> forall k :: off <= k < off + n && k < |b| ==> b[k] == buf[k]
  {
    var r := Overlay(buf, b);
    if r[off..off + n] == buf[off..off + n] {
      forall k | off <= k < off + n && k < |b|
        ensures b[k] == buf[k]
      {
        assert r[off..off + n][k - off] == buf[off..off + n][k - off];
      }
    }
  }

  // ---------------------------------------------------------------- a run of receives

  /** One receive: on which connection, and when its deadline passes. */
  datatype Turn = Turn(who: nat, a: Arrival)

  /** What each receive did, and what all connections had left to read before the first of them and after each. */
  datatype Run = Run(receipts: seq<Receipt>, ats: seq<seq<Str>>)

  predicate Fits(g: Run, closed: seq<bool>, script: seq<Turn>) {
    && |g.receipts| == |script| && |g.ats| == |script| + 1
    && (forall i :: 0 <= i < |g.ats| ==> |g.ats[i]| == |closed|)
    && (forall i :: 0 <= i < |script| ==> script[i].who < |closed|)
  }

  /** Turn t takes the streams from at to next: only its own connection moves. */
  predicate Moves(closed: seq<bool>, at: seq<Str>, t: Turn, r: Receipt, next: seq<Str>)
    requires |closed| == |at| && t.who < |at|
  {
    r == RecvOn(closed[t.who], at[t.who], t.a) && next == at[t.who := r.rest]
  }

  predicate IsTurn(g: Run, closed: seq<bool>, script: seq<Turn>, i: nat)
    requires Fits(g, closed, script) && i < |script|
  {
    Moves(closed, g.ats[i], script[i], g.receipts[i], g.ats[i + 1])
  }

  predicate IsRun(g: Run, closed: seq<bool>, script: seq<Turn>) {
    Fits(g, closed, script) && forall i :: 0 <= i < |script| ==> IsTurn(g, closed, script, i)
  }

  lemma RunNext(g: Run, closed: seq<bool>, script: seq<Turn>, t: Turn, r: Receipt, next: seq<Str>)
    requires IsRun(g, closed, script) && t.who < |closed| && Moves(closed, g.ats[|script|], t, r, next)
    ensures IsRun(Run(g.receipts + [r], g.ats + [next]), closed, script + [t])
  {
    var h, more := Run(g.receipts + [r], g.ats + [next]), script + [t];
    forall i: nat | i < |more|
      ensures IsTurn(h, closed, more, i)
    {
      assert i < |script| ==> IsTurn(g, closed, script, i);
    }
  }

  function BodiesOf(receipts: seq<Receipt>): (bs: seq<Str>)
    ensures |bs| == |receipts|
  {
    seq(|receipts|, i requires 0 <= i < |receipts| => receipts[i].body)
  }

  // ---------------------------------------------------------------- the run in memory

  /** What has not been read yet on each connection. */
  predicate Left(conns: seq<Conn>, at: seq<Str>)
    reads conns
  {
    |at| == |conns| && forall j :: 0 <= j < |conns| ==> conns[j].incoming == at[j]
  }

  predicate AreClosed(conns: seq<Conn>, closed: seq<bool>)
    reads conns
  {
    |closed| == |conns| && forall j :: 0 <= j < |conns| ==> closed[j] == (conns[j].state == CLOSED)
  }

  predicate Distinct(conns: seq<Conn>) {
    forall i, j :: 0 <= i < j < |conns| ==> conns[i] != conns[j]
  }

  /** r, made of objects in own, is what the receive returned. */
  predicate Returned(own: set<object>, r: Outcome<Packer>, g: Receipt, arr: array<byte>)
    reads own
  {
    (r.Ok? ==> Objects(r.value) <= own) && UnpackedTo(r, g.result, arr, g.body)
  }

  predicate AllReturned(own: set<object>, rs: seq<Outcome<Packer>>, gs: seq<Receipt>, arr: array<byte>)
    reads own
  {
    |rs| == |gs| && forall i :: 0 <= i < |rs| ==> Returned(own, rs[i], gs[i], arr)
  }

  lemma ReturnedMore(own: set<object>, more: set<object>, r: Outcome<Packer>, g: Receipt, arr: array<byte>)
    requires own <= more && Returned(own, r, g, arr)
    ensures Returned(more, r, g, arr)
  {}

  lemma ReturnedNext(own: set<object>, more: set<object>, rs: seq<Outcome<Packer>>, gs: seq<Receipt>, arr: array<byte>,
                     r: Outcome<Packer>, g: Receipt)
    requires AllReturned(own, rs, gs, arr) && own <= more && Returned(more, r, g, arr)
    ensures AllReturned(more, rs + [r], gs + [g], arr)
  {
    forall i | 0 <= i < |rs|
      ensures Returned(more, rs[i], gs[i], arr)
    {
      ReturnedMore(own, more, rs[i], gs[i], arr);
    }
  }

  method ReceiveNext(conns: seq<Conn>, rb: ReadBuffer, t: Turn, ghost closed: seq<bool>, ghost at: seq<Str>)
    returns (r: Outcome<Packer>, ghost parts: set<object>, ghost u: Receipt, ghost next: seq<Str>)
    requires rb.leftData.Length == BUFFER_SIZE && Distinct(conns) && t.who < |conns|
    requires AreClosed(conns, closed) && Left(conns, at)
    modifies (set c | c in conns)`incoming, rb, rb.leftData
    ensures AreClosed(conns, closed) && Left(conns, next) && Moves(closed, at, t, u, next)
    ensures fresh(parts) && Returned(parts, r, u, rb.leftData)
    ensures rb.leftData[..] == Overlay(old(rb.leftData[..]), u.body)
  {
    var c := conns[t.who];
    r, u := c.RecvAndUnpackPkt(rb, t.a);
    next := at[t.who := u.rest];
    parts := if r.Ok? then Objects(r.value) else {};
  }

  /** Receives in turn on several connections that share one buffer, going on after those that fail. At the end every
      packet still has the fields it was received with, and its option values are windows of the buffer, which holds the
      bodies laid over one another, whole or broken off. */
  method Receive(conns: seq<Conn>, rb: ReadBuffer, script: seq<Turn>, ghost closed: seq<bool>, ghost start: seq<Str>)
    returns (results: seq<Outcome<Packer>>, ghost own: set<object>, ghost g: Run)
    requires rb.leftData.Length == BUFFER_SIZE && Distinct(conns)
    requires AreClosed(conns, closed) && Left(conns, start)
    requires forall i :: 0 <= i < |script| ==> script[i].who < |conns|
    modifies (set c | c in conns)`incoming, rb, rb.leftData
    ensures IsRun(g, closed, script) && g.ats[0] == start && Left(conns, g.ats[|script|])
    ensures fresh(own) && AllReturned(own, results, g.receipts, rb.leftData)
    ensures rb.leftData[..] == Overlays(old(rb.leftData[..]), BodiesOf(g.receipts))
  {
    results, own, g := [], {}, Run([], [start]);
    ghost var buf := rb.leftData[..];
    for i := 0 to |script|
      invariant AreClosed(conns, closed)
      invariant IsRun(g, closed, script[..i]) && g.ats[0] == start && Left(conns, g.ats[i])
      invariant fresh(own) && AllReturned(own, results, g.receipts, rb.leftData)
      invariant rb.leftData[..] == Overlays(buf, BodiesOf(g.receipts))
    {
      var r;
      ghost var parts, u, next;
      r, parts, u, next := ReceiveNext(conns, rb, script[i], closed, g.ats[i]);
      RunNext(g, closed, script[..i], script[i], u, next);
      TurnNext(script, i);
      ReturnedMore(parts, own + parts, r, u, rb.leftData);
      ReturnedNext(own, own + parts, results, g.receipts, rb.leftData, r, u);
      BodiesNext(buf, g.receipts, u);
      results, own, g := results + [r], own + parts, Run(g.receipts + [u], g.ats + [next]);
    }
    assert script[..|script|] == script;
  }

  lemma TurnNext(script: seq<Turn>, i: nat)
    requires i < |script|
    ensures script[..i] + [script[i]] == script[..i + 1]
  {}

  lemma BodiesNext(buf: Str, receipts: seq<Receipt>, u: Receipt)
    ensures Overlays(buf, BodiesOf(receipts + [u])) == Overlay(Overlays(buf, BodiesOf(receipts)), u.body)
  {
    assert BodiesOf(receipts + [u]) == BodiesOf(receipts) + [u.body];
    OverlaysNext(buf, BodiesOf(receipts), u.body);
  }

  // ---------------------------------------------------------------- what such a run receives

  /** What connection w has left after the turns, as far as its own turns decide it. */
  function Alone(closed: bool, stream: Str, script: seq<Turn>, w: nat): Str {
    if script == [] then stream
    else
      var k := |script| - 1;
      var at := Alone(closed, stream, script[..k], w);
      if script[k].who == w then RecvOn(closed, at, script[k].a).rest else at
  }

  /** The connections do not disturb one another, although they share the buffer: what turn i receives is what it would
      have received if its connection had been alone. */
  lemma {:induction false} ReceivesAlone(g: Run, closed: seq<bool>, script: seq<Turn>, i: nat, w: nat)
    requires IsRun(g, closed, script) && i <= |script| && w < |closed|
    ensures g.ats[i][w] == Alone(closed[w], g.ats[0][w], script[..i], w)
    ensures i < |script| && script[i].who == w ==>
              g.receipts[i] == RecvOn(closed[w], Alone(closed[w], g.ats[0][w], script[..i], w), script[i].a)
  {
    if i > 0 {
      ReceivesAlone(g, closed, script, i - 1, w);
      assert IsTurn(g, closed, script, i - 1);
      assert script[..i][..i - 1] == script[..i - 1];
    }
    if i < |script| {
      assert IsTurn(g, closed, script, i);
    }
  }

  /** How many of the turns receive on connection w without a timeout. */
  function Taken(script: seq<Turn>, w: nat): nat {
    if script == [] then 0
    else Taken(script[..|script| - 1], w) + if script[|script| - 1] == Turn(w, InTime) then 1 else 0
  }

  /** On connection w the only timeouts are those that pass between packets. */
  predicate OnTime(script: seq<Turn>, w: nat) {
    forall i :: 0 <= i < |script| && script[i].who == w ==> script[i].a == InTime || script[i].a == LateHeader(0)
  }

  lemma TakenBefore(script: seq<Turn>, w: nat)
    requires script != [] && OnTime(script, w)
    ensures OnTime(script[..|script| - 1], w) && Taken(script[..|script| - 1], w) <= Taken(script, w)
  {}

  /** The packets sent on a connection and not received yet are what it has left. */
  lemma {:induction false} AloneInStream(script: seq<Turn>, w: nat, sent: seq<Sent>, tail: Str)
    requires AllGood(sent) && OnTime(script, w) && Taken(script, w) <= |sent|
    ensures Alone(false, Stream(sent) + tail, script, w) == Stream(sent[Taken(script, w)..]) + tail
  {
    if script == [] {
      assert sent[0..] == sent;
    } else {
      var front, last := script[..|script| - 1], script[|script| - 1];
      TakenBefore(script, w);
      AloneInStream(front, w, sent, tail);
      var k := Taken(front, w);
      if last == Turn(w, InTime) {
        FrameNth(sent, k, tail);
      } else if last.who == w {
        LateBeforeHeader(Stream(sent[k..]) + tail);
      }
    }
  }

  /** On every connection the packets that were sent are received in their order, however its turns are mixed with those
      of other connections that share the buffer, and whatever happens on those. */
  lemma SharedStreams(g: Run, closed: seq<bool>, script: seq<Turn>, i: nat, sent: seq<Sent>, tail: Str)
    requires IsRun(g, closed, script) && i < |script| && script[i].a == InTime && !closed[script[i].who]
    requires AllGood(sent) && g.ats[0][script[i].who] == Stream(sent) + tail
    requires OnTime(script[..i], script[i].who) && Taken(script[..i], script[i].who) < |sent|
    ensures g.receipts[i].result == Ok(ArrivedAs(sent[Taken(script[..i], script[i].who)]))
  {
    var w := script[i].who;
    ReceivesAlone(g, closed, script, i, w);
    AloneInStream(script[..i], w, sent, tail);
    FrameNth(sent, Taken(script[..i], w), tail);
  }

  // ---------------------------------------------------------------- what becomes of the option values

  /** The options that a packet carries. */
  function Carried(p: Packet): Options {
    match p
    case SubmitPkt(s) => s.options
    case DeliverPkt(d) => d.options
    case _ => map[]
  }

  /** An option value is read from the buffer as it is now, not as it was when the packet was received. */
  lemma OptionNow(own: set<object>, rs: seq<Outcome<Packer>>, gs: seq<Receipt>, arr: array<byte>, i: nat, t: u16)
    requires AllReturned(own, rs, gs, arr) && i < |rs| && rs[i].Ok? && |gs[i].body| <= arr.Length
    requires t in OptionsOf(rs[i].value)
    ensures var v := OptionsOf(rs[i].value)[t].value;
            && v.Contents() == arr[..][v.off..v.off + v.len]
            && gs[i].result.Ok? && t in Carried(gs[i].result.value)
            && Carried(gs[i].result.value)[t].value == gs[i].body[v.off..v.off + v.len]
  {
    assert Returned(own, rs[i], gs[i], arr);
    var v := OptionsOf(rs[i].value)[t].value;
    assert arr[v.off..v.off + v.len] == arr[..][v.off..v.off + v.len];
  }
}
