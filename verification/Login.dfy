/** The Login request and response, and the authenticator that the request carries. MD5 is any function to 16 bytes. */
module Login {
  import opened Bytes
  import opened Results
  import opened PacketIo
  import opened Text

  const SMGP_LOGIN: u32 := 1
  const SMGP_LOGIN_RESP: u32 := 0x8000_0001

  type Digest = s: Str | |s| == 16 witness Zeros(16)
  type Md5 = Str -> Digest

  datatype LoginReq = LoginReq(
    clientId: Str, authenticatorClient: Str, loginMode: byte, timeStamp: u32, clientVersion: byte,
    sequenceId: u32, secret: Str)

  datatype LoginResp = LoginResp(
    status: u32, authenticatorServer: Str, serverVersion: byte,
    secret: Str, authenticatorClient: Str, sequenceId: u32)

  // ---------------------------------------------------------------- the authenticator

  /** %010d of a uint32. */
  function Stamp(timestamp: u32): (s: Str)
    ensures |s| == 10
  {
    StampWidth(timestamp);
    Padded(timestamp, 10, 10)
  }

  lemma StampWidth(timestamp: u32)
    ensures |Padded(timestamp, 10, 10)| == 10
  {
    assert Pow(10, 5) == 100000;
    assert Pow(10, 10) == 10000000000;
    DigitsFit(timestamp, 10, 10);
  }

  /** A stamp is ten decimal digits that stand for the timestamp. */
  lemma StampIsDecimal(timestamp: u32)
    ensures |Stamp(timestamp)| == 10
    ensures AllDigits(Stamp(timestamp), 10) && Value(Stamp(timestamp), 10) == timestamp
  {
    PaddedStands(timestamp, 10, 10);
  }

  /** What GenAuthenticatorClient feeds to MD5. */
  function Preimage(clientId: Str, secret: Str, timestamp: u32): Str {
    clientId + Zeros(7) + secret + Stamp(timestamp)
  }

  /** The hashed bytes: the id, seven zeros, the secret, and the timestamp in ten decimal digits. */
  lemma PreimageLayout(clientId: Str, secret: Str, timestamp: u32)
    ensures var p, k := Preimage(clientId, secret, timestamp), |clientId|;
            && |p| == k + 7 + |secret| + 10
            && p[..k] == clientId && (forall i :: k <= i < k + 7 ==> p[i] == 0) && p[k + 7..k + 7 + |secret|] == secret
            && AllDigits(p[k + 7 + |secret|..], 10) && Value(p[k + 7 + |secret|..], 10) == timestamp
  {
    var p, k := Preimage(clientId, secret, timestamp), |clientId|;
    StampIsDecimal(timestamp);
    assert p[k + 7 + |secret|..] == Stamp(timestamp);
  }

  lemma StampInjective(s: u32, t: u32)
    ensures Stamp(s) == Stamp(t) <==> s == t
  {
    ParsePadded(s, 10, 10, 0xFFFF_FFFF);
    ParsePadded(t, 10, 10, 0xFFFF_FFFF);
  }

  /** For client ids of one length the preimage determines all three parts. */
  lemma SameLengthInjective(c: Str, s: Str, t: u32, c': Str, s': Str, t': u32)
    requires |c| == |c'|
    ensures Preimage(c, s, t) == Preimage(c', s', t') <==> c == c' && s == s' && t == t'
  {
    var p, p' := Preimage(c, s, t), Preimage(c', s', t');
    if p == p' {
      assert p[..|c|] == c && p'[..|c'|] == c';
      assert p[|c| + 7..|p| - 10] == s && p'[|c| + 7..|p| - 10] == s';
      assert p[|p| - 10..] == Stamp(t) && p'[|p| - 10..] == Stamp(t');
      StampInjective(t, t');
    }
  }

  /** The part of a preimage that depends on the client id alone. */
  function Salted(clientId: Str): Str {
    clientId + Zeros(7)
  }

  predicate Clash(c: Str, c': Str) {
    c != c' && (Salted(c) <= Salted(c') || Salted(c') <= Salted(c))
  }

  /** The preimages of these two logins are equal only if the logins are. */
  predicate Determined(c: Str, s: Str, t: u32, c': Str, s': Str, t': u32) {
    Preimage(c, s, t) == Preimage(c', s', t') ==> c == c' && s == s' && t == t'
  }

  lemma SaltedFirst(c: Str, s: Str, t: u32)
    ensures Salted(c) <= Preimage(c, s, t)
  {}

  lemma Prefixes(a: Str, b: Str, p: Str)
    requires a <= p && b <= p
    ensures if |a| <= |b| then a <= b else b <= a
  {}

  lemma NoClashDetermined(c: Str, s: Str, t: u32, c': Str, s': Str, t': u32)
    requires !Clash(c, c')
    ensures Determined(c, s, t, c', s', t')
  {
    if Preimage(c, s, t) == Preimage(c', s', t') {
      SaltedFirst(c, s, t);
      SaltedFirst(c', s', t');
      Prefixes(Salted(c), Salted(c'), Preimage(c, s, t));
      assert |c| == |c'| by {
        assert c == c';
      }
      SameLengthInjective(c, s, t, c', s', t');
    }
  }

  /** A secret that makes the salted id c up to the salted id c'. */
  lemma ClashCollides(c: Str, c': Str)
    requires Salted(c) <= Salted(c')
    ensures Preimage(c, Salted(c')[|Salted(c)|..], 0) == Preimage(c', [], 0)
  {
    var a, b := Salted(c), Salted(c');
    assert a + b[|a|..] == b;
    assert b + [] == b;
  }

  /** The preimage determines id, secret and timestamp for two client ids exactly when they are the same id or neither,
      with the seven zeros after it, starts the other. */
  lemma PreimageDetermines(c: Str, c': Str)
    ensures (forall s, t, s', t' :: Determined(c, s, t, c', s', t')) <==> !Clash(c, c')
  {
    if !Clash(c, c') {
      forall s, t, s', t'
        ensures Determined(c, s, t, c', s', t')
      {
        NoClashDetermined(c, s, t, c', s', t');
      }
    } else if Salted(c) <= Salted(c') {
      ClashCollides(c, c');
      assert !Determined(c, Salted(c')[|Salted(c)|..], 0, c', [], 0);
    } else {
      ClashCollides(c', c);
      assert !Determined(c, [], 0, c', Salted(c)[|Salted(c')|..], 0);
    }
  }

  /** Client ids of one length, and client ids without zero bytes, never clash. */
  lemma UsualIdsNoClash(c: Str, c': Str)
    requires |c| == |c'| || (NoZero(c) && NoZero(c'))
    ensures !Clash(c, c')
  {
    var a, b := Salted(c), Salted(c');
    assert a[..|c|] == c && b[..|c'|] == c';
    assert a[|c|] == 0 && b[|c'|] == 0;
    assert |c| < |c'| ==> b[|c|] == c'[|c|];
    assert |c'| < |c| ==> a[|c'|] == c[|c'|];
  }

  /** Two different logins with the same preimage. */
  lemma PreimageCollision()
    ensures Clash([], [0]) && Preimage([], [0], 0) == Preimage([0], [], 0)
  {
    assert Salted([]) + [0] == Salted([0]);
    ClashCollides([], [0]);
    assert Salted([0])[|Salted([])|..] == [0];
  }

  // ---------------------------------------------------------------- the request

  /** How Pack rewrites the packet: the hash is taken before the id is padded and before a zero timestamp is
      replaced. */
  function Rewritten(p: LoginReq, seqId: u32, md5: Md5, now: u32): LoginReq {
    p.(clientId := Octet(p.clientId, 8),
       authenticatorClient := md5(Preimage(p.clientId, p.secret, p.timeStamp)),
       timeStamp := if p.timeStamp == 0 then now else p.timeStamp,
       sequenceId := seqId)
  }

  /** The body of a packet whose id and authenticator have their wire lengths. */
  function Body(p: LoginReq): Str {
    p.clientId + p.authenticatorClient + [p.loginMode] + Be32(p.timeStamp) + [p.clientVersion]
  }

  predicate OnWire(p: LoginReq) {
    |p.clientId| == 8 && |p.authenticatorClient| == 16
  }

  /** Unpack: the fields at their places; the secret stays as it was, and trailing bytes are ignored. */
  function Unpacked(d: Str, was: LoginReq): Outcome<LoginReq> {
    if |d| < 30 then Err(ShortRead)
    else Ok(was.(clientId := d[0..8], authenticatorClient := d[8..24], loginMode := d[24],
                 timeStamp := U32At(d, 25), clientVersion := d[29]))
  }

  lemma RoundTrip(p: LoginReq, was: LoginReq)
    requires OnWire(p)
    ensures Unpacked(Body(p), was) == Ok(p.(sequenceId := was.sequenceId, secret := was.secret))
  {
    var d := Body(p);
    assert d[0..8] == p.clientId && d[8..24] == p.authenticatorClient;
    assert d[24] == p.loginMode && d[29] == p.clientVersion;
    assert d[25..29] == Be32(p.timeStamp);
    WordAt(d, 25, p.timeStamp);
  }

  lemma WordAt(d: Str, i: nat, n: u32)
    requires i + 4 <= |d| && d[i..i + 4] == Be32(n)
    ensures U32At(d, i) == n
  {
    var w := d[i..i + 4];
    assert w[0] == d[i] && w[1] == d[i + 1] && w[2] == d[i + 2] && w[3] == d[i + 3];
    assert U32At(w, 0) == n;
  }

  lemma WrittenInOrder(h: Str, a: Str, b: Str, c: Str, d: Str, e: Str)
    ensures h + a + b + c + d + e == h + (a + b + c + d + e)
  {}

  class LoginReqPkt {
    var fields: LoginReq

    constructor (sequenceId: u32)
      ensures fields == LoginReq([], [], 0, 0, 0, sequenceId, [])
    {
      fields := LoginReq([], [], 0, 0, 0, sequenceId, []);
    }

    method Pack(seqId: u32, md5: Md5, now: u32) returns (r: Outcome<Str>)
      modifies this
      ensures fields == Rewritten(old(fields), seqId, md5, now)
      ensures r == Ok(Header(HEADER_LEN + 30, SMGP_LOGIN, seqId) + Body(fields))
    {
      var w := new PkgWriter();
      w.WriteHeader(HEADER_LEN + 30, seqId, SMGP_LOGIN);
      ghost var h := Header(HEADER_LEN + 30, SMGP_LOGIN, seqId);
      assert w.asked == h;
      var auth := md5(Preimage(fields.clientId, fields.secret, fields.timeStamp));
      fields := fields.(sequenceId := seqId, clientId := Octet(fields.clientId, 8));
      w.WriteFixedSizeString(fields.clientId, 8);
      if fields.timeStamp == 0 {
        fields := fields.(timeStamp := now);
      }
      fields := fields.(authenticatorClient := auth);
      var f := fields;
      w.WriteBytes(auth);
      w.WriteByte(f.loginMode);
      w.WriteU32(f.timeStamp);
      w.WriteByte(f.clientVersion);
      r := w.Bytes();
      WrittenInOrder(h, f.clientId, auth, [f.loginMode], Be32(f.timeStamp), [f.clientVersion]);
    }

    method Unpack(d: Str) returns (r: Outcome<()>)
      modifies this
      ensures match Unpacked(d, old(fields)) {
                case Ok(p) => r == Ok(()) && fields == p
                case Err(e) => r == Err(e)
                case Panic => false
              }
    {
      var f := fields;
      var rd := new PkgReader(d);
      var sa := rd.ReadNew(8, 0);
      var as_ := rd.ReadNew(16, 8);
      var mode := rd.ReadU8(f.loginMode, 24);
      var stamp := rd.ReadU32(f.timeStamp, 25);
      var version := rd.ReadU8(f.clientVersion, 29);
      fields := f.(clientId := sa, authenticatorClient := as_, loginMode := mode, timeStamp := stamp,
                   clientVersion := version);
      r := if rd.failed then Err(ShortRead) else Ok(());
    }
  }

  // ---------------------------------------------------------------- the response

  /** How Pack rewrites the response: the server's digest of the low status byte, the client's authenticator and the
      secret. */
  function RespRewritten(p: LoginResp, seqId: u32, md5: Md5): LoginResp {
    p.(authenticatorServer := md5([p.status % 0x100] + Octet(p.authenticatorClient, 16) + p.secret),
       sequenceId := seqId)
  }

  function RespBody(p: LoginResp): Str {
    Be32(p.status) + p.authenticatorServer + [p.serverVersion]
  }

  function RespUnpacked(d: Str, was: LoginResp): Outcome<LoginResp> {
    if |d| < 21 then Err(ShortRead)
    else Ok(was.(status := U32At(d, 0), authenticatorServer := d[4..20], serverVersion := d[20]))
  }

  lemma RespRoundTrip(p: LoginResp, was: LoginResp)
    requires |p.authenticatorServer| == 16
    ensures RespUnpacked(RespBody(p), was)
            == Ok(was.(status := p.status, authenticatorServer := p.authenticatorServer,
                       serverVersion := p.serverVersion))
  {
    var d := RespBody(p);
    assert d[0..4] == Be32(p.status) && d[4..20] == p.authenticatorServer;
    WordAt(d, 0, p.status);
  }

  lemma RespInOrder(h: Str, a: Str, b: Str, c: Str)
    ensures h + a + b + c == h + (a + b + c)
  {}

  class LoginRespPkt {
    var fields: LoginResp

    constructor (fields: LoginResp)
      ensures this.fields == fields
    {
      this.fields := fields;
    }

    method Pack(seqId: u32, md5: Md5) returns (r: Outcome<Str>)
      modifies this
      ensures fields == RespRewritten(old(fields), seqId, md5)
      ensures r == Ok(Header(HEADER_LEN + 21, SMGP_LOGIN_RESP, seqId) + RespBody(fields))
    {
      var w := new PkgWriter();
      w.WriteHeader(HEADER_LEN + 21, seqId, SMGP_LOGIN_RESP);
      ghost var h := Header(HEADER_LEN + 21, SMGP_LOGIN_RESP, seqId);
      assert w.asked == h;
      fields := fields.(sequenceId := seqId);
      var f := fields;
      w.WriteU32(f.status);
      var authClient := Octet(f.authenticatorClient, 16);
      var auth := md5([f.status % 0x100] + authClient + f.secret);
      fields := f.(authenticatorServer := auth);
      w.WriteBytes(auth);
      w.WriteByte(f.serverVersion);
      r := w.Bytes();
      RespInOrder(h, Be32(f.status), auth, [f.serverVersion]);
    }

    method Unpack(d: Str) returns (r: Outcome<()>)
      modifies this
      ensures match RespUnpacked(d, old(fields))
              case Ok(p) => r == Ok(()) && fields == p
              case Err(e) => r == Err(e)
              case Panic => false
    {
      var f := fields;
      var rd := new PkgReader(d);
      var status := rd.ReadU32(f.status, 0);
      var s := rd.ReadNew(16, 4);
      var version := rd.ReadU8(f.serverVersion, 20);
      fields := f.(status := status, authenticatorServer := s, serverVersion := version);
      r := if rd.failed then Err(ShortRead) else Ok(());
    }
  }
}
