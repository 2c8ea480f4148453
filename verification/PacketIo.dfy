/** pkgWriter and pkgReader: sequential writing and reading of packet fields with a sticky error. */
module PacketIo {
  import opened Bytes
  import opened Results
  import opened Slices
  import opened Options

  /** HeaderPktLen. */
  const HEADER_LEN: nat := 4 + 4 + 4

  function Header(pktLen: u32, requestId: u32, seqId: u32): (h: Str)
    ensures |h| == HEADER_LEN
    ensures U32At(h, 0) == pktLen && U32At(h, 4) == requestId && U32At(h, 8) == seqId
  {
    Be32(pktLen) + Be32(requestId) + Be32(seqId)
  }

  /** The words of a header are the first ones of the packet. */
  lemma Prefix12(w: Str, tail: Str)
    requires |w| >= HEADER_LEN
    ensures U32At(w + tail, 0) == U32At(w, 0) && U32At(w + tail, 4) == U32At(w, 4) && U32At(w + tail, 8) == U32At(w, 8)
  {
    var s := w + tail;
    assert s[0] == w[0] && s[1] == w[1] && s[2] == w[2] && s[3] == w[3];
    assert s[4] == w[4] && s[5] == w[5] && s[6] == w[6] && s[7] == w[7];
    assert s[8] == w[8] && s[9] == w[9] && s[10] == w[10] && s[11] == w[11];
  }

  /** A growing packet. The first failing write sets err, and every later write does nothing.
      asked is what would have been written if nothing had failed. */
  class PkgWriter {
    var b: Str
    var err: Option<Error>
    ghost var asked: Str

    ghost predicate Valid()
      reads this
    {
      err.None? ==> b == asked
    }

    constructor ()
      ensures Valid() && b == [] && err == None && asked == []
    {
      b, err, asked := [], None, [];
    }

    /** Appends x, unless an earlier write failed. */
    method WriteBytes(x: Str)
      requires Valid()
      modifies this
      ensures Valid() && err == old(err)
      ensures asked == old(asked) + x
      ensures b == if err.Some? then old(b) else old(b) + x
    {
      asked := asked + x;
      if err.Some? {
        return;
      }
      b := b + x;
    }

    method WriteByte(x: byte)
      requires Valid()
      modifies this
      ensures Valid() && err == old(err)
      ensures asked == old(asked) + [x]
      ensures b == if err.Some? then old(b) else old(b) + [x]
    {
      WriteBytes([x]);
    }

    method WriteU32(n: u32)
      requires Valid()
      modifies this
      ensures Valid() && err == old(err)
      ensures asked == old(asked) + Be32(n)
      ensures b == if err.Some? then old(b) else old(b) + Be32(n)
    {
      WriteBytes(Be32(n));
    }

    /** Writes s right-padded with zeros to size bytes; a longer s is an error. */
    method WriteFixedSizeString(s: Str, size: nat)
      requires Valid()
      modifies this
      ensures Valid()
      ensures err == if old(err).None? && |s| > size then Some(MethodParamsInvalid) else old(err)
      ensures asked == old(asked) + Octet(s, size)
      ensures b == if err.Some? then old(b) else old(b) + Octet(s, size)
    {
      if err.Some? {
        asked := asked + Octet(s, size);
        return;
      }
      var l1 := |s|;
      if l1 > size {
        err, asked := Some(MethodParamsInvalid), asked + Octet(s, size);
        return;
      }
      WriteBytes(s + Zeros(size - l1));
    }

    method WriteHeader(pktLen: u32, seqId: u32, requestId: u32)
      requires Valid()
      modifies this
      ensures Valid() && err == old(err)
      ensures asked == old(asked) + Header(pktLen, requestId, seqId)
    {
      WriteU32(pktLen);
      WriteU32(requestId);
      WriteU32(seqId);
      assert asked == old(asked) + Header(pktLen, requestId, seqId);
    }

    method Bytes() returns (r: Outcome<Str>)
      requires Valid()
      ensures r == if err.Some? then Err(err.value) else Ok(asked)
    {
      if err.Some? {
        return Err(err.value);
      }
      r := Ok(b);
    }
  }

  /** A cursor over the bytes of a packet body. The first short read sets failed, and later reads give nothing. */
  class PkgReader {
    const data: Str
    var pos: nat
    var failed: bool
    const cbuf: array<byte>

    predicate Valid()
      reads this
    {
      pos <= |data| && cbuf.Length == 160
    }

    /** offset agrees with the cursor: it is the cursor, or lies past the end once a read has failed. */
    predicate InStep(offset: nat)
      reads this
    {
      if failed then offset > |data| else offset == pos
    }

    constructor (data: Str)
      ensures Valid() && this.data == data && InStep(0) && !failed && fresh(cbuf)
    {
      this.data, pos, failed := data, 0, false;
      cbuf := new byte[160](_ => 0);
    }

    /** Each read is told the offset where its caller believes the cursor to be. */
    method ReadByte(ghost at: nat) returns (b: byte)
      requires Valid() && InStep(at)
      modifies this
      ensures Valid() && InStep(at + 1) && (failed <==> at + 1 > |data|)
      ensures b == if failed then 0 else data[at]
    {
      if failed {
        return 0;
      }
      if pos == |data| {
        failed := true;
        return 0;
      }
      b := data[pos];
      pos := pos + 1;
    }

    /** Fills s; a read that comes up short takes what is left and fails. */
    method ReadBytes(s: array<byte>, ghost at: nat)
      requires Valid() && InStep(at) && s != cbuf
      modifies this, s
      ensures Valid() && InStep(at + s.Length) && (failed <==> at + s.Length > |data|)
      ensures !failed ==> s[..] == data[at..at + s.Length]
      ensures old(failed) ==> s[..] == old(s[..])
    {
      if failed {
        return;
      }
      var n := if |data| - pos < s.Length then |data| - pos else s.Length;
      forall i | 0 <= i < n {
        s[i] := data[pos + i];
      }
      pos := pos + n;
      failed := n != s.Length;
    }

    /** Reads a fixed-width field into cbuf; the result is the length of its part before the first zero. */
    method ReadCString(length: nat, ghost at: nat) returns (n: nat)
      requires Valid() && InStep(at) && 0 < length <= 160
      modifies this, cbuf
      ensures Valid() && InStep(at + length) && (failed <==> at + length > |data|)
      ensures n <= length && cbuf[..n] == if failed then [] else Cut(data[at..at + length])
    {
      if failed {
        return 0;
      }
      var got := if |data| - pos < length then |data| - pos else length;
      forall i | 0 <= i < got {
        cbuf[i] := data[pos + i];
      }
      pos := pos + got;
      if got != length {
        failed := true;
        return 0;
      }
      assert cbuf[..length] == data[at..at + length];
      n := |Cut(cbuf[..length])|;
    }

    /** string(r.ReadCString(length)): the field is copied out of cbuf before the next read reuses it. */
    method ReadString(length: nat, ghost at: nat) returns (s: Str)
      requires Valid() && InStep(at) && 0 < length <= 160
      modifies this, cbuf
      ensures Valid() && InStep(at + length) && (failed <==> at + length > |data|)
      ensures failed ==> s == []
      ensures !failed ==> s == Cut(data[at..at + length])
    {
      var n := ReadCString(length, at);
      s := cbuf[..n];
    }

    /** ReadBytes into a fresh buffer of n bytes. */
    method ReadNew(n: nat, ghost at: nat) returns (s: Str)
      requires Valid() && InStep(at)
      modifies this
      ensures Valid() && InStep(at + n) && (failed <==> at + n > |data|)
      ensures |s| == n && (!failed ==> s == data[at..at + n])
    {
      var a := new byte[n](_ => 0);
      ReadBytes(a, at);
      s := a[..];
    }

    /** ReadInt into a uint8; a failed read leaves the variable as it was. */
    method ReadU8(was: byte, ghost at: nat) returns (n: byte)
      requires Valid() && InStep(at)
      modifies this
      ensures Valid() && InStep(at + 1) && (failed <==> at + 1 > |data|)
      ensures n == if failed then was else data[at]
    {
      n := ReadByte(at);
      n := if failed then was else n;
    }

    /** ReadInt into a uint32; a failed read leaves the variable as it was. */
    method ReadU32(was: u32, ghost at: nat) returns (n: u32)
      requires Valid() && InStep(at)
      modifies this
      ensures Valid() && InStep(at + 4) && (failed <==> at + 4 > |data|)
      ensures n == if failed then was else U32At(data, at)
    {
      if failed {
        return was;
      }
      if |data| - pos < 4 {
        pos, failed := |data|, true;
        return was;
      }
      n := U32At(data, pos);
      pos := pos + 4;
    }
  }

  /** The options in order are those of m that are not left. */
  predicate Ranged(m: Options, left: Options, order: seq<u16>) {
    && left.Keys <= m.Keys && (forall t :: t in left ==> left[t] == m[t])
    && (forall i :: 0 <= i < |order| ==> order[i] in m && order[i] !in left)
    && (forall t :: t in m ==> t in left || t in order)
    && (forall i, j :: 0 <= i < j < |order| ==> order[i] != order[j])
  }

  lemma RangedNext(m: Options, left: Options, order: seq<u16>, t: u16, before: Str)
    requires Ranged(m, left, order) && t in left
    ensures Ranged(m, left - {t}, order + [t])
    ensures before + Serialize(InOrder(m, order)) + TlvBytes(left[t]) == before + Serialize(InOrder(m, order + [t]))
  {
    assert forall u :: u in order ==> u in order + [t];
    assert t in order + [t];
    assert InOrder(m, order + [t]) == InOrder(m, order) + [m[t]];
    SerializeSnoc(InOrder(m, order), m[t]);
  }

  /** The loop that ends Pack: every option is written once, in the order in which the map happens to be ranged over. */
  method WriteOptions(w: PkgWriter, m: Options) returns (ghost order: seq<u16>)
    requires w.Valid()
    modifies w
    ensures w.Valid() && w.err == old(w.err)
    ensures IsOrder(order, m)
    ensures w.asked == old(w.asked) + Serialize(InOrder(m, order))
  {
    var left := m;
    order := [];
    while left != map[]
      invariant w.Valid() && w.err == old(w.err)
      invariant Ranged(m, left, order)
      invariant w.asked == old(w.asked) + Serialize(InOrder(m, order))
      decreases |left|
    {
      var t :| t in left;
      w.WriteBytes(TlvBytes(left[t]));
      RangedNext(m, left, order, t, old(w.asked));
      order, left := order + [t], left - {t};
    }
  }
}
