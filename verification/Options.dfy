/** The optional-parameter part of a packet: TLVs, their serialisation and ParseOptions. */
module Options {
  import opened Bytes
  import opened Results
  import opened Slices

  datatype Tlv = Tlv(tag: u16, length: u16, value: Str)

  /** What an Options map holds, keyed by tag, seen as values. */
  type Options = map<u16, Tlv>

  /** NewTLV: the length field is the value's length cut to 16 bits. */
  function NewTlv(tag: u16, value: Str): Tlv {
    Tlv(tag, ToU16(|value|), value)
  }

  predicate Sized(t: Tlv) {
    t.length == |t.value|
  }

  predicate AllSized(ts: seq<Tlv>) {
    forall i :: 0 <= i < |ts| ==> Sized(ts[i])
  }

  /** TLV.Byte: the TLV's own tag and length fields, then the whole value. */
  function TlvBytes(t: Tlv): Str {
    Be16(t.tag) + Be16(t.length) + t.value
  }

  function Serialize(ts: seq<Tlv>): Str {
    if ts == [] then [] else TlvBytes(ts[0]) + Serialize(ts[1..])
  }

  lemma {:induction false} SerializeConcat(a: seq<Tlv>, b: seq<Tlv>)
    ensures Serialize(a + b) == Serialize(a) + Serialize(b)
  {
    if a == [] {
      assert a + b == b;
    } else {
      assert (a + b)[1..] == a[1..] + b;
      SerializeConcat(a[1..], b);
    }
  }

  lemma SerializeSnoc(a: seq<Tlv>, t: Tlv)
    ensures Serialize(a + [t]) == Serialize(a) + TlvBytes(t)
  {
    SerializeConcat(a, [t]);
    assert Serialize([t]) == TlvBytes(t) + Serialize([]);
  }

  // ---------------------------------------------------------------- which inputs are accepted

  /** The TLV that starts at p, if there is room for one. */
  function TlvAt(d: Str, p: nat): (t: Option<Tlv>)
    requires p <= |d|
    ensures t.Some? ==> Sized(t.value) && p + 4 + t.value.length <= |d|
  {
    if |d| - p < 4 then None
    else
      var vlen := U16At(d, p + 2);
      if |d| - p - 4 < vlen then None else Some(Tlv(U16At(d, p), vlen, d[p + 4..p + 4 + vlen]))
  }

  /** The TLVs that the bytes from p on are made of, if they are made of TLVs. */
  function DecomposeFrom(d: Str, p: nat): Option<seq<Tlv>>
    requires p <= |d|
    decreases |d| - p
  {
    if p == |d| then Some([])
    else match TlvAt(d, p) {
      case None => None
      case Some(t) => Prepend([t], DecomposeFrom(d, p + 4 + t.length))
    }
  }

  function Prepend(ts: seq<Tlv>, rest: Option<seq<Tlv>>): Option<seq<Tlv>> {
    match rest
    case None => None
    case Some(us) => Some(ts + us)
  }

  function Decompose(d: Str): Option<seq<Tlv>> {
    DecomposeFrom(d, 0)
  }

  lemma TlvAtBytes(d: Str, p: nat)
    requires p <= |d| && TlvAt(d, p).Some?
    ensures var t := TlvAt(d, p).value; TlvBytes(t) == d[p..p + 4 + t.length]
  {
    Be16Inverse(d, p);
    Be16Inverse(d, p + 2);
  }

  lemma {:induction false} DecomposeSound(d: Str, p: nat, ts: seq<Tlv>)
    requires p <= |d| && DecomposeFrom(d, p) == Some(ts)
    ensures AllSized(ts) && Serialize(ts) == d[p..]
    decreases |d| - p
  {
    if p < |d| {
      var t := TlvAt(d, p).value;
      TlvAtBytes(d, p);
      assert ts[0] == t && [t] + ts[1..] == ts;
      DecomposeSound(d, p + 4 + t.length, ts[1..]);
    }
  }

  lemma {:induction false} DecomposeComplete(d: Str, p: nat, ts: seq<Tlv>)
    requires AllSized(ts) && p <= |d| && Serialize(ts) == d[p..]
    ensures DecomposeFrom(d, p) == Some(ts)
    decreases |ts|
  {
    if ts != [] {
      var t, rest := ts[0], ts[1..];
      HeadTail(ts);
      TlvInFront(d, p, t, Serialize(rest));
      DecomposeComplete(d, p + 4 + t.length, rest);
      DecomposeStep(d, p, t, rest);
    }
  }

  lemma HeadTail(ts: seq<Tlv>)
    requires ts != []
    ensures ts == [ts[0]] + ts[1..] && Serialize(ts) == TlvBytes(ts[0]) + Serialize(ts[1..])
    ensures AllSized(ts) ==> Sized(ts[0]) && AllSized(ts[1..])
  {}

  lemma DecomposeStep(d: Str, p: nat, t: Tlv, rest: seq<Tlv>)
    requires p < |d| && TlvAt(d, p) == Some(t) && DecomposeFrom(d, p + 4 + t.length) == Some(rest)
    ensures DecomposeFrom(d, p) == Some([t] + rest)
  {}

  lemma TlvInFront(d: Str, p: nat, t: Tlv, rest: Str)
    requires p <= |d| && Sized(t) && d[p..] == TlvBytes(t) + rest
    ensures p < |d| && TlvAt(d, p) == Some(t) && d[p + 4 + t.length..] == rest
  {
    var s, next := d[p..], p + 4 + |t.value|;
    assert |s| == |TlvBytes(t)| + |rest|;
    assert d[p] == s[0] && d[p + 1] == s[1] && d[p + 2] == s[2] && d[p + 3] == s[3];
    assert d[p + 4..next] == s[4..next - p] == t.value;
    assert d[next..] == s[next - p..] == rest;
  }

  /** Accepted inputs are exactly the concatenations of TLV encodings, and the TLVs are determined. */
  lemma AcceptsExactlyTlvs(d: Str, ts: seq<Tlv>)
    ensures Decompose(d) == Some(ts) <==> AllSized(ts) && Serialize(ts) == d
  {
    assert d[0..] == d;
    if Decompose(d) == Some(ts) {
      DecomposeSound(d, 0, ts);
    } else if AllSized(ts) && Serialize(ts) == d {
      DecomposeComplete(d, 0, ts);
    }
  }

  // ---------------------------------------------------------------- the resulting map

  /** Inserting the TLVs one after the other under their tags. */
  function Insert(ts: seq<Tlv>): Options {
    if ts == [] then map[] else Insert(ts[..|ts| - 1])[ts[|ts| - 1].tag := ts[|ts| - 1]]
  }

  /** Entry i carries this tag and no later entry does. */
  predicate LastWith(ts: seq<Tlv>, i: int, tag: u16) {
    0 <= i < |ts| && ts[i].tag == tag && forall j :: i < j < |ts| ==> ts[j].tag != tag
  }

  predicate HasTag(ts: seq<Tlv>, tag: u16) {
    exists i :: 0 <= i < |ts| && ts[i].tag == tag
  }

  lemma LastWithNext(ts: seq<Tlv>, t: Tlv, i: int, tag: u16)
    ensures t.tag != tag ==> (LastWith(ts, i, tag) <==> LastWith(ts + [t], i, tag))
    ensures t.tag == tag ==> LastWith(ts + [t], |ts|, tag)
    ensures HasTag(ts + [t], tag) <==> HasTag(ts, tag) || t.tag == tag
  {
    var us := ts + [t];
    assert us[|ts|] == t && forall j :: 0 <= j < |ts| ==> us[j] == ts[j];
  }

  /** A tag is a key exactly when some TLV carries it, and it maps to the last of those. */
  lemma {:induction false} InsertKeepsLast(ts: seq<Tlv>, tag: u16)
    ensures tag in Insert(ts) <==> HasTag(ts, tag)
    ensures tag in Insert(ts) ==> exists i :: LastWith(ts, i, tag) && Insert(ts)[tag] == ts[i]
  {
    if ts != [] {
      var n := |ts| - 1;
      var front := ts[..n];
      assert ts == front + [ts[n]];
      InsertKeepsLast(front, tag);
      LastWithNext(front, ts[n], n, tag);
      if ts[n].tag != tag && tag in Insert(front) {
        var i :| LastWith(front, i, tag) && Insert(front)[tag] == front[i];
        LastWithNext(front, ts[n], i, tag);
        assert ts[i] == front[i];
      }
    }
  }

  /** What ParseOptions computes from the bytes. */
  function Parse(d: Str): Outcome<Options> {
    match Decompose(d)
    case None => Err(OptionLength)
    case Some(ts) => Ok(Insert(ts))
  }

  lemma ParseIsWellFormed(d: Str)
    requires Parse(d).Ok?
    ensures WellFormed(Parse(d).value)
  {
    var ts := Decompose(d).value;
    DecomposeSound(d, 0, ts);
    forall t | t in Insert(ts)
      ensures Insert(ts)[t].tag == t && Sized(Insert(ts)[t])
    {
      InsertKeepsLast(ts, t);
    }
  }

  // ---------------------------------------------------------------- any iteration order of the map

  /** A possible order in which Go ranges over the map m. */
  predicate IsOrder(order: seq<u16>, m: Options) {
    && (forall i :: 0 <= i < |order| ==> order[i] in m)
    && (forall t :: t in m ==> t in order)
    && (forall i, j :: 0 <= i < j < |order| ==> order[i] != order[j])
  }

  function InOrder(m: Options, order: seq<u16>): (ts: seq<Tlv>)
    requires forall i :: 0 <= i < |order| ==> order[i] in m
    ensures |ts| == |order|
  {
    seq(|order|, i requires 0 <= i < |order| => m[order[i]])
  }

  /** Keys equal the TLVs' tags, and the length fields are right. */
  predicate WellFormed(m: Options) {
    forall t :: t in m ==> m[t].tag == t && Sized(m[t])
  }

  lemma InsertInOrder(m: Options, order: seq<u16>, t: u16)
    requires WellFormed(m) && IsOrder(order, m)
    ensures t in Insert(InOrder(m, order)) <==> t in m
    ensures t in m ==> Insert(InOrder(m, order))[t] == m[t]
  {
    var ts := InOrder(m, order);
    InsertKeepsLast(ts, t);
    if t in m {
      var i :| 0 <= i < |order| && order[i] == t;
      assert ts[i].tag == t;
    }
    if t in Insert(ts) {
      var i :| LastWith(ts, i, t) && Insert(ts)[t] == ts[i];
      assert ts[i] == m[order[i]];
    }
  }

  /** Whatever order the map is written in, parsing the bytes gives the map back. */
  lemma ParseSerialized(m: Options, order: seq<u16>)
    requires WellFormed(m) && IsOrder(order, m)
    ensures Parse(Serialize(InOrder(m, order))) == Ok(m)
  {
    var ts := InOrder(m, order);
    AcceptsExactlyTlvs(Serialize(ts), ts);
    forall t: u16
      ensures t in Insert(ts) <==> t in m
      ensures t in m ==> Insert(ts)[t] == m[t]
    {
      InsertInOrder(m, order, t);
    }
    assert Insert(ts).Keys == m.Keys;
    assert Insert(ts) == m;
  }

  // ---------------------------------------------------------------- Options.Len

  /** The sum of 4 + Length over the entries of the map. */
  ghost function SumLen(m: Options): nat
    decreases |m|
  {
    if m == map[] then 0
    else
      var t :| t in m;
      4 + m[t].length + SumLen(m - {t})
  }

  /** The sum does not depend on which entry is counted first. */
  lemma {:induction false} SumLenRemove(m: Options, t: u16)
    requires t in m
    ensures SumLen(m) == 4 + m[t].length + SumLen(m - {t})
    decreases |m|
  {
    var u :| u in m && SumLen(m) == 4 + m[u].length + SumLen(m - {u});
    if u != t {
      SumLenRemove(m - {u}, t);
      SumLenRemove(m - {t}, u);
      assert m - {u} - {t} == m - {t} - {u};
    }
  }

  lemma SumLenInsert(m: Options, t: Tlv)
    ensures SumLen(m[t.tag := t]) == 4 + t.length + SumLen(m - {t.tag})
    ensures SumLen(m - {t.tag}) <= SumLen(m)
    ensures SumLen(m - {t.tag}) == SumLen(m) <==> t.tag !in m
  {
    var m' := m[t.tag := t];
    SumLenRemove(m', t.tag);
    assert m' - {t.tag} == m - {t.tag};
    if t.tag in m {
      SumLenRemove(m, t.tag);
    } else {
      assert m - {t.tag} == m;
    }
  }

  lemma {:induction false} SumLenInOrder(m: Options, order: seq<u16>)
    requires IsOrder(order, m) && WellFormed(m)
    ensures SumLen(m) == |Serialize(InOrder(m, order))|
    decreases |order|
  {
    if order == [] {
      assert m == map[];
    } else {
      var t, later := order[0], order[1..];
      var rest := m - {t};
      SumLenRemove(m, t);
      OrderRest(m, order);
      SumLenInOrder(rest, later);
      InOrderRest(m, order);
      assert Serialize(InOrder(m, order)) == TlvBytes(m[t]) + Serialize(InOrder(rest, later));
    }
  }

  lemma OrderRest(m: Options, order: seq<u16>)
    requires IsOrder(order, m) && order != []
    ensures IsOrder(order[1..], m - {order[0]})
  {
    forall u | u in m - {order[0]}
      ensures u in order[1..]
    {
      var i :| 0 <= i < |order| && order[i] == u;
      assert order[1..][i - 1] == u;
    }
  }

  lemma InOrderRest(m: Options, order: seq<u16>)
    requires IsOrder(order, m) && order != []
    ensures IsOrder(order[1..], m - {order[0]})
    ensures InOrder(m, order)[0] == m[order[0]] && InOrder(m, order)[1..] == InOrder(m - {order[0]}, order[1..])
  {
    OrderRest(m, order);
  }

  predicate DistinctTags(ts: seq<Tlv>) {
    forall i, j :: 0 <= i < j < |ts| ==> ts[i].tag != ts[j].tag
  }

  /** Len of a parse result never exceeds the input, and reaches it exactly when no tag repeats. */
  lemma {:induction false} SumLenOfParse(ts: seq<Tlv>)
    requires AllSized(ts)
    ensures SumLen(Insert(ts)) <= |Serialize(ts)|
    ensures SumLen(Insert(ts)) == |Serialize(ts)| <==> DistinctTags(ts)
  {
    if ts != [] {
      var n := |ts| - 1;
      var front := ts[..n];
      assert ts == front + [ts[n]];
      SumLenOfParse(front);
      SerializeSnoc(front, ts[n]);
      SumLenInsert(Insert(front), ts[n]);
      InsertKeepsLast(front, ts[n].tag);
      assert DistinctTags(ts) <==> DistinctTags(front) && !HasTag(front, ts[n].tag);
    }
  }

  // ---------------------------------------------------------------- the map on the heap

  /** An entry of the map in memory: its value is a slice, so it may share storage. */
  datatype TlvRef = TlvRef(tag: u16, length: u16, value: Slice)

  type OptionRefs = map<u16, TlvRef>

  predicate ValidRefs(o: OptionRefs) {
    forall t :: t in o ==> o[t].value.Valid()
  }

  function Backing(o: OptionRefs): set<array<byte>> {
    set t | t in o :: o[t].value.arr
  }

  /** The value that an entry has right now. */
  function Now(r: TlvRef): Tlv
    requires r.value.Valid()
    reads r.value.arr
  {
    Tlv(r.tag, r.length, r.value.Contents())
  }

  /** The values that the entries have right now. */
  function Deref(o: OptionRefs): (m: Options)
    requires ValidRefs(o)
    reads Backing(o)
    ensures m.Keys == o.Keys
    ensures forall t :: t in o ==> m[t] == Now(o[t])
  {
    map t | t in o :: assert o[t].value.arr in Backing(o); Now(o[t])
  }

  /** Every value is a window of s. */
  predicate WindowsOf(o: OptionRefs, s: Slice) {
    forall t :: t in o ==> Window(o[t].value, s)
  }

  /** The value that an entry has if the storage under s holds d. */
  function Under(r: TlvRef, s: Slice, d: Str): Tlv
    requires Window(r.value, s) && |d| == s.len
  {
    Tlv(r.tag, r.length, d[r.value.off - s.off..r.value.off - s.off + r.value.len])
  }

  /** NewTLV on the heap: the value slice is kept, not copied. */
  function NewTlvRef(tag: u16, value: Slice): TlvRef {
    TlvRef(tag, ToU16(value.len), value)
  }

  /** The TLV that starts at q ends at p. */
  predicate TlvSpans(d: Str, q: nat, p: nat, t: Tlv) {
    && q + 4 <= p <= |d|
    && p == q + 4 + U16At(d, q + 2)
    && t == Tlv(U16At(d, q), U16At(d, q + 2), d[q + 4..p])
  }

  /** The loop of ParseOptions has seen ts and takes t next. */
  lemma ParseRound(d: Str, q: nat, p: nat, ts: seq<Tlv>, t: Tlv)
    requires TlvSpans(d, q, p, t)
    ensures Prepend(ts, DecomposeFrom(d, q)) == Prepend(ts + [t], DecomposeFrom(d, p))
    ensures Insert(ts + [t]) == Insert(ts)[t.tag := t]
  {
    var rest := DecomposeFrom(d, p);
    if rest.Some? {
      assert ts + ([t] + rest.value) == (ts + [t]) + rest.value;
    }
    assert (ts + [t])[..|ts|] == ts;
  }

  /** ops are windows of s whose values, read off the contents of s, are the entries of m. */
  predicate Reads(ops: OptionRefs, s: Slice, d: Str, m: Options)
    requires |d| == s.len
  {
    && ValidRefs(ops) && WindowsOf(ops, s)
    && ops.Keys == m.Keys && forall t :: t in ops ==> Under(ops[t], s, d) == m[t]
  }

  lemma ReadsNext(ops: OptionRefs, s: Slice, d: Str, m: Options, q: nat, p: nat, t: Tlv, tlv: TlvRef)
    requires s.Valid() && |d| == s.len && Reads(ops, s, d, m) && TlvSpans(d, q, p, t)
    requires tlv == NewTlvRef(t.tag, s.Part(q + 4, p - q - 4))
    ensures Reads(ops[t.tag := tlv], s, d, m[t.tag := t])
  {
    assert tlv.value.off - s.off == q + 4;
  }

  /** As long as the storage is not written to, the entries have the values that were read. */
  lemma ReadsDeref(ops: OptionRefs, s: Slice, m: Options)
    requires s.Valid() && Reads(ops, s, s.Contents(), m)
    ensures ValidRefs(ops) && Deref(ops) == m
  {
    forall t | t in ops
      ensures Now(ops[t]) == m[t]
    {
      WindowContents(ops[t].value, s);
    }
  }

  lemma WindowContents(w: Slice, s: Slice)
    requires s.Valid() && w.Valid() && Window(w, s)
    ensures w.Contents() == s.Contents()[w.off - s.off..w.off - s.off + w.len]
  {}

  method ParseOptions(rawData: Slice) returns (r: Outcome<OptionRefs>)
    requires rawData.Valid()
    ensures var d := old(rawData.Contents());
            match Parse(d) {
              case Ok(m) => r.Ok? && Reads(r.value, rawData, d, m)
              case Err(e) => r == Err(e)
              case Panic => false
            }
  {
    var p: nat, ops: OptionRefs, length := 0, map[], rawData.len;
    ghost var d := rawData.Contents();
    ghost var ts: seq<Tlv>, m: Options := [], map[];
    assert Decompose(d).Some? ==> ts + Decompose(d).value == Decompose(d).value;
    while p < length
      invariant 0 <= p <= length == |d| && d == rawData.Contents()
      invariant m == Insert(ts) && Reads(ops, rawData, d, m)
      invariant Decompose(d) == Prepend(ts, DecomposeFrom(d, p))
      decreases length - p
    {
      ghost var q := p;
      if length - p < 2 + 2 {
        return Err(OptionLength);
      }
      var tag := rawData.U16(p);
      p := p + 2;
      var vlen := rawData.U16(p);
      p := p + 2;
      assert tag == U16At(d, q) && vlen == U16At(d, q + 2);
      if length - p < vlen {
        return Err(OptionLength);
      }
      var tlv := NewTlvRef(tag, rawData.Part(p, vlen));
      p := p + vlen;
      ghost var t := Tlv(tag, vlen, d[q + 4..p]);
      ReadsNext(ops, rawData, d, m, q, p, t, tlv);
      ParseRound(d, q, p, ts, t);
      ops, m, ts := ops[tag := tlv], m[tag := t], ts + [t];
    }
    assert ts + [] == ts;
    r := Ok(ops);
  }

  /** The result of parsing the options of a packet that start at offset: a start past the end is a panic. */
  predicate OptionsRead(r: Outcome<OptionRefs>, data: Slice, offset: nat, d: Str)
    requires data.Valid() && |d| == data.len
  {
    if offset > |d| then r == Panic
    else match Parse(d[offset..]) {
      case Ok(m) => r.Ok? && Reads(r.value, data.From(offset), d[offset..], m)
      case Err(e) => r == Err(e)
      case Panic => false
    }
  }

  lemma OptionsReadAt(r: Outcome<OptionRefs>, data: Slice, offset: nat, k: nat, d: Str)
    requires data.Valid() && |d| == data.len && OptionsRead(r, data, offset, d)
    requires k == offset || (k > |d| && offset > |d|)
    ensures OptionsRead(r, data, k, d)
  {}

  /** ParseOptions(data[offset:]). */
  method ParseOptionsFrom(data: Slice, offset: nat, ghost d: Str) returns (r: Outcome<OptionRefs>)
    requires data.Valid() && d == data.Contents()
    ensures OptionsRead(r, data, offset, d)
  {
    if offset > data.len {
      return Panic;
    }
    var rest := data.From(offset);
    WindowContents(rest, data);
    assert rest.Contents() == d[offset..];
    r := ParseOptions(rest);
  }

  /** An Unpack that ends in r has left the options it read in o. */
  function Stored(r: Outcome<()>, o: OptionRefs): Outcome<OptionRefs> {
    match r
    case Ok(_) => Ok(o)
    case Err(e) => Err(e)
    case Panic => Panic
  }

  /** Options.Len: the loop's total is the sum, whatever order the entries come in. */
  method Len(o: Options) returns (length: nat)
    ensures length == SumLen(o)
  {
    length := 0;
    var left := o;
    while left != map[]
      invariant left.Keys <= o.Keys
      invariant length + SumLen(left) == SumLen(o)
      decreases |left|
    {
      var t :| t in left;
      SumLenRemove(left, t);
      length := length + 2 + 2 + left[t].length;
      left := left - {t};
    }
  }
}
