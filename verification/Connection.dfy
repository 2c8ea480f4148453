/** A connection: its state, its byte streams, sending, and receiving through a pooled buffer. */
module Connection {
  import opened Bytes
  import opened Results
  import opened Slices
  import opened Options
  import opened PacketIo
  import opened Packets
  import opened Framing
  import opened SmallPkts
  import L = Login
  import S = Submit
  import D = Deliver

  datatype State = CLOSED | CONNECTED | AUTHOK

  const BUFFER_SIZE: nat := 4096

  /** A packet in memory. The packets without strings or options of their own to share are kept as values. */
  datatype Packer =
    | LoginObj(login: L.LoginReqPkt)
    | SubmitObj(submit: S.SubmitReqPkt)
    | DeliverObj(deliver: D.DeliverReqPkt)
    | Small(packet: SmallPacket)

  function Objects(o: Packer): set<object> {
    match o
    case LoginObj(l) => {l}
    case SubmitObj(s) => {s}
    case DeliverObj(d) => {d}
    case Small(_) => {}
  }

  /** The option map that o refers to. */
  function OptionsOf(o: Packer): OptionRefs
    reads Objects(o)
  {
    match o
    case SubmitObj(s) => s.options
    case DeliverObj(d) => d.options
    case _ => map[]
  }

  /** The packet that o is right now. */
  function View(o: Packer): Packet
    requires ValidRefs(OptionsOf(o))
    reads Objects(o), Backing(OptionsOf(o))
  {
    match o
    case LoginObj(l) => LoginPkt(l.fields)
    case SubmitObj(s) => SubmitPkt(s.View())
    case DeliverObj(d) => DeliverPkt(d.View())
    case Small(q) => q
  }

  /** The entries of o are windows of arr that spell m if arr starts with d. */
  predicate Held(o: OptionRefs, arr: array<byte>, d: Str, m: Options) {
    && o.Keys == m.Keys
    && forall t :: t in o ==>
         var v := o[t].value;
         v.Valid() && v.arr == arr && v.off + v.len <= |d|
         && m[t] == Tlv(o[t].tag, o[t].length, d[v.off..v.off + v.len])
  }

  /** o owns all of p, except that the option values are windows of arr, into which the body d was read. */
  predicate Holds(o: Packer, p: Packet, arr: array<byte>, d: Str)
    reads Objects(o)
  {
    match o
    case LoginObj(l) => p == LoginPkt(l.fields)
    case SubmitObj(s) => p.SubmitPkt? && s.fields == p.submit.fields && Held(s.options, arr, d, p.submit.options)
    case DeliverObj(v) => p.DeliverPkt? && v.fields == p.deliver.fields && Held(v.options, arr, d, p.deliver.options)
    case Small(q) => p == q
  }

  lemma ReadsHeld(o: OptionRefs, arr: array<byte>, d: Str, k: nat, m: Options)
    requires k <= |d| <= arr.Length && Reads(o, Slice(arr, 0, |d|, arr.Length).From(k), d[k..], m)
    ensures Held(o, arr, d, m)
  {
    var s := Slice(arr, 0, |d|, arr.Length).From(k);
    assert d[k..] == d[k..|d|];
    forall t | t in o
      ensures var v := o[t].value; m[t] == Tlv(o[t].tag, o[t].length, d[v.off..v.off + v.len])
    {
      var v := o[t].value;
      assert Under(o[t], s, d[k..]) == m[t];
      Slice2(d, k, |d|, v.off - k, v.off - k + v.len);
    }
  }

  /** The packet object that the body d unpacks to. */
  predicate UnpackedTo(r: Outcome<Packer>, u: Outcome<Packet>, arr: array<byte>, d: Str)
    reads if r.Ok? then Objects(r.value) else {}
  {
    match u
    case Ok(p) => r.Ok? && Holds(r.value, p, arr, d)
    case Err(e) => r == Err(e)
    case Panic => r == Panic
  }

  method UnpackSubmit(sequenceId: u32, arr: array<byte>, n: nat) returns (r: Outcome<Packer>)
    requires n <= arr.Length
    ensures UnpackedTo(r, UnpackAs(S.SMGP_SUBMIT, sequenceId, arr[..n]), arr, arr[..n])
    ensures r.Ok? ==> fresh(Objects(r.value))
  {
    var data := Slice(arr, 0, n, arr.Length);
    var p := new S.SubmitReqPkt(sequenceId);
    ghost var was, d := p.fields, arr[..n];
    assert data.Contents() == d;
    var u := p.Unpack(data);
    r := match u case Ok(_) => Ok(SubmitObj(p)) case Err(e) => Err(e) case Panic => Panic;
    SubmitHeld(p, u, arr, d, was);
  }

  lemma SubmitHeld(p: S.SubmitReqPkt, u: Outcome<()>, arr: array<byte>, d: Str, was: S.Fields)
    requires |d| <= arr.Length && was.destTermId == []
    requires p.UnpackedFrom(u, Slice(arr, 0, |d|, arr.Length), d, was)
    ensures match S.Unpacked(d, was.sequenceId)
            case Ok(q) => u.Ok? && Holds(SubmitObj(p), SubmitPkt(q), arr, d)
            case Err(e) => u == Err(e)
            case Panic => u == Panic
  {
    if S.Complete(d) && Parse(d[S.OptionsOffset(d)..]).Ok? {
      var f := S.FieldsAt(d, was.sequenceId);
      assert was.destTermId + f.destTermId == f.destTermId;
      ReadsHeld(p.options, arr, d, S.OptionsOffset(d), Parse(d[S.OptionsOffset(d)..]).value);
    }
  }

  method UnpackDeliver(sequenceId: u32, arr: array<byte>, n: nat) returns (r: Outcome<Packer>)
    requires n <= arr.Length
    ensures UnpackedTo(r, UnpackAs(D.SMGP_DELIVER, sequenceId, arr[..n]), arr, arr[..n])
    ensures r.Ok? ==> fresh(Objects(r.value))
  {
    var data := Slice(arr, 0, n, arr.Length);
    var p := new D.DeliverReqPkt(sequenceId);
    ghost var d := arr[..n];
    assert data.Contents() == d;
    var u := p.Unpack(data);
    r := match u case Ok(_) => Ok(DeliverObj(p)) case Err(e) => Err(e) case Panic => Panic;
    if D.Complete(d) && !D.BadReport(d) && Parse(d[D.OptionsOffset(d)..]).Ok? {
      ReadsHeld(p.options, arr, d, D.OptionsOffset(d), Parse(d[D.OptionsOffset(d)..]).value);
    }
  }

  method UnpackLogin(sequenceId: u32, arr: array<byte>, n: nat) returns (r: Outcome<Packer>)
    requires n <= arr.Length
    ensures UnpackedTo(r, UnpackAs(L.SMGP_LOGIN, sequenceId, arr[..n]), arr, arr[..n])
    ensures r.Ok? ==> fresh(Objects(r.value))
  {
    var p := new L.LoginReqPkt(sequenceId);
    var u := p.Unpack(arr[..n]);
    r := match u case Ok(_) => Ok(LoginObj(p)) case Err(e) => Err(e) case Panic => Panic;
  }

  /** The dispatch on the request id: a new packet object unpacks the first n bytes of the buffer. */
  method UnpackNew(id: u32, sequenceId: u32, arr: array<byte>, n: nat) returns (r: Outcome<Packer>)
    requires n <= arr.Length
    ensures UnpackedTo(r, UnpackAs(id, sequenceId, arr[..n]), arr, arr[..n])
    ensures r.Ok? ==> fresh(Objects(r.value))
  {
    if id == S.SMGP_SUBMIT {
      r := UnpackSubmit(sequenceId, arr, n);
    } else if id == D.SMGP_DELIVER {
      r := UnpackDeliver(sequenceId, arr, n);
    } else if id == L.SMGP_LOGIN {
      r := UnpackLogin(sequenceId, arr, n);
    } else {
      var u := UnpackSmall(id, sequenceId, arr[..n]);
      r := match u case Ok(p) => Ok(Small(p)) case Err(e) => Err(e) case Panic => Panic;
    }
  }

  // ---------------------------------------------------------------- the connection

  /** What the pool hands out: it still holds the bytes of whatever was received with it before. */
  class ReadBuffer {
    var header: PktHeader
    const leftData: array<byte>

    constructor ()
      ensures fresh(leftData) && leftData.Length == BUFFER_SIZE
    {
      header := PktHeader(0, 0, 0);
      leftData := new byte[BUFFER_SIZE](_ => 0);
    }
  }

  /** The buffer after b has been read into its front. */
  function Overlay(buf: Str, b: Str): Str {
    if |b| <= |buf| then b + buf[|b|..] else b
  }

  /** One receive on a connection that may be closed. */
  function RecvOn(closed: bool, stream: Str, a: Arrival): Receipt {
    if closed then Receipt(Err(ConnIsClosed), stream, []) else Recv(stream, a)
  }

  /** What was packed has been written, up to where the network broke, and r says how that went. */
  predicate Writes(before: Str, after: Str, packed: Outcome<Str>, breaks: Option<nat>, r: Outcome<()>) {
    match packed
    case Err(e) => r == Err(e) && after == before
    case Panic => false
    case Ok(w) =>
      if breaks.Some? && breaks.value < |w| then r == Err(EndOfStream) && after == before + w[..breaks.value]
      else r == Ok(()) && after == before + w
  }

  class Conn {
    var state: State
    var incoming: Str     // what the peer has sent and nobody has read
    var outgoing: Str     // what has been written to the peer
    var done: bool        // the generators' done channels are closed

    constructor (incoming: Str)
      ensures state == CLOSED && this.incoming == incoming && outgoing == [] && !done
    {
      state, this.incoming, outgoing, done := CLOSED, incoming, [], false;
    }

    method SetState(state: State)
      modifies this`state
      ensures this.state == state
    {
      this.state := state;
    }

    /** Closing twice is harmless, but closing again after setting the state back closes a closed channel. */
    method Close() returns (r: Outcome<()>)
      modifies this`state, this`done
      ensures r == if old(state != CLOSED && done) then Panic else Ok(())
      ensures r.Ok? ==> state == CLOSED && (done <==> old(done || state != CLOSED))
      ensures r.Panic? ==> state == old(state) && done
    {
      if state == CLOSED {
        return Ok(());
      }
      if done {
        return Panic;
      }
      done := true;
      state := CLOSED;
      r := Ok(());
    }

    /** A receive that returned r, with arr for its buffer, did what g says. */
    predicate Receives(r: Outcome<Packer>, g: Receipt, arr: array<byte>, before: Str)
      reads this, arr, if r.Ok? then Objects(r.value) else {}
    {
      UnpackedTo(r, g.result, arr, g.body) && incoming == g.rest && arr[..] == Overlay(before, g.body)
    }

    /** Copies the next bytes of the stream to the front of the buffer. */
    method Fill(arr: array<byte>, n: nat)
      requires n <= |incoming| && n <= arr.Length
      modifies this`incoming, arr
      ensures arr[..] == Overlay(old(arr[..]), old(incoming)[..n]) && incoming == old(incoming)[n..]
    {
      var bytes := incoming;
      forall i | 0 <= i < n {
        arr[i] := bytes[i];
      }
      incoming := bytes[n..];
    }

    method RecvAndUnpackPkt(rb: ReadBuffer, a: Arrival) returns (r: Outcome<Packer>, ghost g: Receipt)
      requires rb.leftData.Length == BUFFER_SIZE
      modifies this`incoming, rb, rb.leftData
      ensures r.Ok? ==> fresh(Objects(r.value))
      ensures g == RecvOn(state == CLOSED, old(incoming), a) && Receives(r, g, rb.leftData, old(rb.leftData[..]))
    {
      assert Overlay(rb.leftData[..], []) == rb.leftData[..];
      if state == CLOSED {
        return Err(ConnIsClosed), Receipt(Err(ConnIsClosed), incoming, []);
      }
      var e := ReadHeader(rb, a);
      if e.Some? {
        return Err(e.value), Receipt(Err(e.value), incoming, []);
      }
      var h := rb.header;
      r, g := RecvBody(rb.leftData, h, h.packetLength - HEADER_LEN, a);
    }

    /** Reads a header into the buffer's header field and checks it. */
    method ReadHeader(rb: ReadBuffer, a: Arrival) returns (e: Option<Error>)
      modifies this`incoming, rb`header
      ensures match RecvHeader(old(incoming), a)
              case Refused(error, rest) => e == Some(error) && incoming == rest
              case Passed(h, rest) => e == None && rb.header == h && incoming == rest
    {
      var stream := incoming;
      if a.LateHeader? && a.k < HEADER_LEN && a.k <= |stream| {
        incoming := stream[a.k..];
        return Some(ReadTimeout);
      }
      if |stream| < HEADER_LEN {
        incoming := [];
        return Some(EndOfStream);
      }
      var h := PktHeader(U32At(stream, 0), U32At(stream, 4), U32At(stream, 8));
      rb.header, incoming := h, stream[HEADER_LEN..];
      if h.packetLength < SMGP_PACKET_MIN || h.packetLength > SMGP_PACKET_MAX {
        return Some(TotalLengthInvalid);
      }
      if !KnownId(h.requestId) {
        return Some(RequestIdInvalid);
      }
      e := None;
    }

    method RecvBody(arr: array<byte>, h: PktHeader, n: nat, a: Arrival) returns (r: Outcome<Packer>, ghost g: Receipt)
      requires n <= SMGP_PACKET_MAX - HEADER_LEN && arr.Length == BUFFER_SIZE
      modifies this`incoming, arr
      ensures r.Ok? ==> fresh(Objects(r.value))
      ensures g == Framing.RecvBody(old(incoming), n, h.requestId, h.sequenceId, a)
      ensures Receives(r, g, arr, old(arr[..]))
    {
      var rest := incoming;
      g := Framing.RecvBody(rest, n, h.requestId, h.sequenceId, a);
      if a.LateBody? && a.k < n && a.k <= |rest| {
        Fill(arr, a.k);
        return Err(BodyTimeout), g;
      }
      if |rest| < n {
        Fill(arr, |rest|);
        return Err(EndOfStream), g;
      }
      Fill(arr, n);
      assert arr[..n] == arr[..][..n] == rest[..n];
      r := UnpackNew(h.requestId, h.sequenceId, arr, n);
    }

    /** Packs whatever the packet is. */
    static method PackPacker(p: Packer, seqId: u32, md5: L.Md5, now: u32)
      returns (r: Outcome<Str>, ghost order: seq<u16>)
      requires ValidRefs(OptionsOf(p))
      modifies Objects(p)
      ensures var env := Env(md5, now, order);
              Orderable(old(View(p)), env) && r == PackedAs(old(View(p)), seqId, env)
    {
      order := [];
      match p
      case LoginObj(l) => r := l.Pack(seqId, md5, now);
      case SubmitObj(s) => r, order := s.Pack(seqId);
      case DeliverObj(d) => r, order := d.Pack(seqId);
      case Small(q) => r := PackSmall(q, seqId, md5);
    }

    /** Packs and writes a packet. A network that breaks takes only the first bytes. */
    method SendPkt(p: Packer, seqId: u32, md5: L.Md5, now: u32, breaks: Option<nat>)
      returns (r: Outcome<()>, ghost order: seq<u16>)
      requires ValidRefs(OptionsOf(p))
      modifies this`outgoing, Objects(p)
      ensures state == CLOSED ==> r == Err(ConnIsClosed) && outgoing == old(outgoing)
      ensures state != CLOSED ==>
                var env := Env(md5, now, order);
                && Orderable(old(View(p)), env)
                && Writes(old(outgoing), outgoing, PackedAs(old(View(p)), seqId, env), breaks, r)
    {
      order := [];
      if state == CLOSED {
        return Err(ConnIsClosed), order;
      }
      var data;
      data, order := PackPacker(p, seqId, md5, now);
      match data
      case Err(e) => r := Err(e);
      case Panic => r := Panic;
      case Ok(w) =>
        if breaks.Some? && breaks.value < |w| {
          outgoing := outgoing + w[..breaks.value];
          r := Err(EndOfStream);
        } else {
          outgoing := outgoing + w;
          r := Ok(());
        }
    }
  }
}
