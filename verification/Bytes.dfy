/** Bytes, big-endian integers and the byte-string helpers that the packet codec is made of.
    A Go string or byte slice is modelled by the sequence of its bytes. */
module Bytes {

  type byte = x: int | 0 <= x < 0x100
  type u16 = x: int | 0 <= x < 0x1_0000
  type u32 = x: int | 0 <= x < 0x1_0000_0000
  type Str = seq<byte>

  datatype Option<+T> = None | Some(value: T)

  /** Go's conversion of a non-negative int to uint32 keeps the low 32 bits. */
  function ToU32(n: nat): u32 {
    if n < 0x1_0000_0000 then n else n % 0x1_0000_0000
  }

  lemma ToU32Exact(n: nat, m: nat)
    ensures ToU32(n) == m <==> m < 0x1_0000_0000 && n % 0x1_0000_0000 == m
  {}

  /** Go's conversion of a length to uint16 keeps the low 16 bits. */
  function ToU16(n: nat): u16 {
    if n < 0x1_0000 then n else n % 0x1_0000
  }

  lemma ToU16Exact(n: nat, m: nat)
    ensures ToU16(n) == m <==> m < 0x1_0000 && n % 0x1_0000 == m
  {}

  function Be16(n: u16): (b: Str)
    ensures |b| == 2 && U16At(b, 0) == n
  {
    [n / 0x100, n % 0x100]
  }

  function U16At(b: Str, i: nat): u16
    requires i + 2 <= |b|
  {
    b[i] as int * 0x100 + b[i + 1]
  }

  /** The high byte comes first. */
  lemma BigEndian(n: u16, m: u32)
    ensures Be16(n)[0] as int * 256 + Be16(n)[1] == n
    ensures var b := Be32(m); b[0] as int * 16777216 + b[1] as int * 65536 + b[2] as int * 256 + b[3] == m
    ensures Be16(0x0102) == [1, 2] && Be32(0x0102_0304) == [1, 2, 3, 4]
  {}

  lemma Be16Inverse(b: Str, i: nat)
    requires i + 2 <= |b|
    ensures Be16(U16At(b, i)) == b[i..i + 2]
  {}

  function Be32(n: u32): (b: Str)
    ensures |b| == 4 && U32At(b, 0) == n
  {
    Be16(n / 0x1_0000) + Be16(n % 0x1_0000)
  }

  function U32At(b: Str, i: nat): u32
    requires i + 4 <= |b|
  {
    U16At(b, i) as int * 0x1_0000 + U16At(b, i + 2)
  }

  /** The bytes of an ASCII literal. */
  function Ascii(s: string): (b: Str)
    ensures |b| == |s|
  {
    seq(|s|, i requires 0 <= i < |s| => s[i] as int % 0x100)
  }

  function Zeros(n: nat): (z: Str)
    ensures |z| == n
  {
    seq(n, _ => 0)
  }

  /** OctetString.Byte: right-pads with zero bytes, or truncates, to exactly n bytes. */
  function Octet(s: Str, n: nat): (r: Str)
    ensures |r| == n
    ensures |s| == n ==> r == s
  {
    if |s| <= n then s + Zeros(n - |s|) else s[..n]
  }

  /** The first n bytes of a string are kept, and zeros are put after them. */
  lemma OctetKeeps(s: Str, n: nat, i: nat)
    requires i < n
    ensures Octet(s, n)[i] == if i < |s| then s[i] else 0
  {}

  predicate NoZero(s: Str) {
    forall i :: 0 <= i < |s| ==> s[i] != 0
  }

  /** The index of the first zero byte from i on, or the length if there is none. */
  function FirstZero(s: Str, i: nat): (k: nat)
    requires i <= |s|
    ensures i <= k <= |s| && (forall j :: i <= j < k ==> s[j] != 0) && (k < |s| ==> s[k] == 0)
    decreases |s| - i
  {
    if i == |s| || s[i] == 0 then i else FirstZero(s, i + 1)
  }

  /** The prefix before the first zero byte, which is what ReadCString keeps. */
  function Cut(s: Str): (r: Str)
    ensures r <= s && NoZero(r) && (|r| < |s| ==> s[|r|] == 0)
  {
    s[..FirstZero(s, 0)]
  }

  /** A fixed-width field gives back the string put in it exactly when that string has no zero byte. */
  lemma CutOctet(s: Str, n: nat)
    requires |s| <= n
    ensures Cut(Octet(s, n)) == s <==> NoZero(s)
  {
    var o, k := Octet(s, n), FirstZero(Octet(s, n), 0);
    assert o[..|s|] == s;
    if NoZero(s) {
      assert forall j :: 0 <= j < |s| ==> o[j] == s[j];
      assert |s| < |o| ==> o[|s|] == 0;
      assert k == |s|;
    }
  }

  lemma Slice2(d: Str, a: nat, b: nat, i: nat, j: nat)
    requires a <= b <= |d| && i <= j <= b - a
    ensures d[a..b][i..j] == d[a + i..a + j]
  {
    var x, y := d[a..b][i..j], d[a + i..a + j];
    forall k | 0 <= k < |x|
      ensures x[k] == y[k]
    {
      assert x[k] == d[a..b][i + k] == d[a + i + k];
    }
  }

  // ---------------------------------------------------------------- concatenation of pieces

  function Cat(ps: seq<Str>): Str {
    if ps == [] then [] else ps[0] + Cat(ps[1..])
  }

  lemma {:induction false} CatConcat(a: seq<Str>, b: seq<Str>)
    ensures Cat(a + b) == Cat(a) + Cat(b)
  {
    if a == [] {
      assert a + b == b;
    } else {
      assert (a + b)[1..] == a[1..] + b;
      CatConcat(a[1..], b);
    }
  }

  lemma CatSnoc(ps: seq<Str>, x: Str)
    ensures Cat(ps + [x]) == Cat(ps) + x
  {
    CatConcat(ps, [x]);
    assert Cat([x]) == x + Cat([]);
  }

  lemma Chain3(h: Str, a: Str, b: Str, c: Str)
    ensures h + a + b + c == h + Cat([a, b, c])
  {
    CatSnoc([a, b], c);
    CatSnoc([a], b);
    CatSnoc([], a);
    assert [] + [a] == [a] && [a] + [b] == [a, b] && [a, b] + [c] == [a, b, c];
  }

  lemma Chain5(h: Str, a: Str, b: Str, c: Str, d: Str, e: Str)
    ensures h + a + b + c + d + e == h + Cat([a, b, c, d, e])
  {
    CatConcat([a, b, c], [d, e]);
    assert [a, b, c] + [d, e] == [a, b, c, d, e];
    Chain3(h, a, b, c);
    Chain3(h + Cat([a, b, c]), d, e, []);
    CatSnoc([d, e], []);
    assert [d, e] + [[]] == [d, e, []];
  }

  /** offs lists where each piece starts, and the total at the end. */
  predicate Offsets(ps: seq<Str>, offs: seq<nat>) {
    && |offs| == |ps| + 1
    && offs[0] == 0
    && forall k :: 0 <= k < |ps| ==> offs[k + 1] == offs[k] + |ps[k]|
  }

  predicate Sits(b: Str, ps: seq<Str>, offs: seq<nat>, k: nat)
    requires k < |ps| && k + 1 < |offs|
  {
    offs[k] <= offs[k + 1] <= |b| && b[offs[k]..offs[k + 1]] == ps[k]
  }

  /** Every piece sits in the concatenation at its offset. */
  lemma {:induction false} CatAt(ps: seq<Str>, offs: seq<nat>)
    requires Offsets(ps, offs)
    ensures |Cat(ps)| == offs[|ps|]
    ensures forall k :: 0 <= k < |ps| ==> Sits(Cat(ps), ps, offs, k)
  {
    if ps != [] {
      var n := |ps| - 1;
      var front := ps[..n];
      assert ps == front + [ps[n]];
      CatSnoc(front, ps[n]);
      CatAt(front, offs[..|ps|]);
      forall k: nat | k < |ps|
        ensures Sits(Cat(ps), ps, offs, k)
      {
        if k < n {
          assert Sits(Cat(front), front, offs[..|ps|], k);
          assert Cat(ps)[offs[k]..offs[k + 1]] == Cat(front)[offs[k]..offs[k + 1]];
        }
      }
    }
  }

  /** A byte string in which every piece sits at its offset, with nothing after, is the concatenation. */
  lemma {:induction false} CatIs(d: Str, ps: seq<Str>, offs: seq<nat>)
    requires Offsets(ps, offs) && |d| == offs[|ps|]
    requires forall k :: 0 <= k < |ps| ==> Sits(d, ps, offs, k)
    ensures Cat(ps) == d
    decreases |ps|
  {
    if ps != [] {
      var n := |ps| - 1;
      var front := ps[..n];
      assert ps == front + [ps[n]];
      assert Sits(d, ps, offs, n);
      forall k: nat | k < n
        ensures Sits(d[..offs[n]], front, offs[..|ps|], k)
      {
        assert Sits(d, ps, offs, k);
        OffsetsGrow(ps, offs, k + 1, n);
        assert d[..offs[n]][offs[k]..offs[k + 1]] == d[offs[k]..offs[k + 1]];
      }
      CatIs(d[..offs[n]], front, offs[..|ps|]);
      CatSnoc(front, ps[n]);
      assert d == d[..offs[n]] + d[offs[n]..];
    }
  }

  lemma {:induction false} OffsetsGrow(ps: seq<Str>, offs: seq<nat>, i: nat, j: nat)
    requires Offsets(ps, offs) && i <= j <= |ps|
    ensures offs[i] <= offs[j]
    decreases j - i
  {
    if i < j {
      OffsetsGrow(ps, offs, i, j - 1);
    }
  }
}
