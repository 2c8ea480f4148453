/** Go byte slices on the heap: a window of a backing array that may have room to grow. */
module Slices {
  import opened Bytes

  datatype Slice = Slice(arr: array<byte>, off: nat, len: nat, cap: nat) {

    predicate Valid() {
      len <= cap && off + cap <= arr.Length
    }

    function Contents(): (s: Str)
      requires Valid()
      reads arr
      ensures |s| == len
    {
      arr[off..off + len]
    }

    /** binary.BigEndian.Uint16(s[i:]). */
    function U16(i: nat): (n: u16)
      requires Valid() && i + 2 <= len
      reads arr
      ensures n == U16At(Contents(), i)
    {
      arr[off + i] as int * 0x100 + arr[off + i + 1]
    }

    /** The Go expression s[from : from+n]. */
    function Part(from: nat, n: nat): (t: Slice)
      requires Valid() && from + n <= len
      ensures t.Valid() && Window(t, this)
    {
      Slice(arr, off + from, n, cap - from)
    }

    /** The Go expression s[from:]. */
    function From(from: nat): (t: Slice)
      requires Valid() && from <= len
      ensures t.Valid()
    {
      Slice(arr, off + from, len - from, cap - from)
    }
  }

  /** w is a part of s: same storage, within the bounds of s. */
  predicate Window(w: Slice, s: Slice) {
    w.arr == s.arr && s.off <= w.off && w.off + w.len <= s.off + s.len
  }

  /** A slice literal: its own storage, with no room to grow. */
  method Literal(s: Str) returns (t: Slice)
    ensures t.Valid() && fresh(t.arr) && t.Contents() == s && t.cap == t.len
  {
    var a := new byte[|s|](i requires 0 <= i < |s| => s[i]);
    t := Slice(a, 0, |s|, |s|);
    assert a[..] == s;
  }

  /** Go's append: in place when the capacity allows it, otherwise in new storage of some larger capacity. */
  method Append(s: Slice, tail: Str) returns (t: Slice)
    requires s.Valid()
    modifies if s.len + |tail| <= s.cap then {s.arr} else {}
    ensures t.Valid() && t.Contents() == old(s.Contents()) + tail
    ensures s.len + |tail| <= s.cap ==> t == s.(len := s.len + |tail|)
    ensures s.len + |tail| > s.cap ==> fresh(t.arr)
    ensures s.Contents() == old(s.Contents())
  {
    var n := s.len + |tail|;
    if n <= s.cap {
      forall i | 0 <= i < |tail| {
        s.arr[s.off + s.len + i] := tail[i];
      }
      t := s.(len := n);
    } else {
      var room: nat :| room >= n;
      var old_ := s.Contents();
      var a := new byte[room](i =>
        if 0 <= i < |old_| then old_[i] else if |old_| <= i < n then tail[i - |old_|] else 0);
      t := Slice(a, 0, n, room);
    }
    assert t.Contents() == old(s.Contents()) + tail;
  }
}
