/** Splitting a long message into numbered chunks, and putting the chunks of several messages together again. */
module LongSms {
  import opened Bytes
  import opened Slices

  const SMS_LENGTH: nat := 140
  const UDH_LENGTH: nat := 6
  const BODY_LENGTH: nat := SMS_LENGTH - UDH_LENGTH

  predicate IsLong(content: Str) {
    |content| > SMS_LENGTH
  }

  /** The number of chunks. */
  function Num(content: Str): (n: nat)
    ensures if IsLong(content) then n >= 2 && BODY_LENGTH * (n - 1) < |content| <= BODY_LENGTH * n else n == 1
  {
    if IsLong(content) then (|content| + BODY_LENGTH - 1) / BODY_LENGTH else 1
  }

  /** The concatenation element: reference, total and index, each cut to a byte. */
  function Udh(ref: byte, num: nat, index: nat): (h: Str)
    ensures |h| == UDH_LENGTH
  {
    [5, 0, 3, ref, num % 0x100, index % 0x100]
  }

  function Start(content: Str, i: nat): (k: nat)
    ensures k <= |content|
  {
    if BODY_LENGTH * i <= |content| then BODY_LENGTH * i else |content|
  }

  function Piece(content: Str, i: nat): Str {
    content[Start(content, i)..Start(content, i + 1)]
  }

  function Pieces(content: Str): (ps: seq<Str>)
    ensures |ps| == Num(content)
  {
    seq(Num(content), i requires 0 <= i < Num(content) => Piece(content, i))
  }

  /** Chunk i of a long message. */
  function Chunk(content: Str, ref: byte, i: nat): Str {
    Udh(ref, Num(content), i + 1) + Piece(content, i)
  }

  function Split(content: Str, ref: byte): (chunks: seq<Str>)
    ensures |chunks| == Num(content)
  {
    if IsLong(content) then seq(Num(content), i requires 0 <= i < Num(content) => Chunk(content, ref, i)) else [content]
  }

  // ---------------------------------------------------------------- one message

  /** Content of up to 140 bytes is not split, and gets no header; above, there is a chunk for each 134 bytes begun. */
  lemma SplitByLength(content: Str, ref: byte)
    ensures |content| <= 140 ==> Split(content, ref) == [content]
    ensures |content| > 140 ==> |Split(content, ref)| == (|content| + 133) / 134
  {}

  /** A chunk: the concatenation element with reference, total and number, and then its 134 bytes, or what is left. */
  lemma ChunkLayout(content: Str, ref: byte, i: nat)
    requires |content| > 140 && i < (|content| + 133) / 134
    ensures i < |Split(content, ref)|
    ensures var c := Split(content, ref)[i];
            var end := if 134 * (i + 1) <= |content| then 134 * (i + 1) else |content|;
            && |c| == 6 + end - 134 * i
            && c[0] == 5 && c[1] == 0 && c[2] == 3 && c[3] == ref
            && c[4] == (|content| + 133) / 134 % 256 && c[5] == (i + 1) % 256
            && 134 * i <= end && c[6..] == content[134 * i..end]
  {
    assert 134 * i <= 134 * (Num(content) - 1);
  }

  lemma PieceLength(content: Str, k: nat)
    requires IsLong(content) && k < Num(content)
    ensures Start(content, k + 1) == Start(content, k) + |Piece(content, k)| && 0 < |Piece(content, k)| <= BODY_LENGTH
  {
    assert BODY_LENGTH * k <= BODY_LENGTH * (Num(content) - 1);
  }

  /** The bodies are the content, cut into pieces of which none is empty. */
  lemma PiecesMakeContent(content: Str)
    requires IsLong(content)
    ensures Cat(Pieces(content)) == content
    ensures forall i :: 0 <= i < Num(content) ==> 0 < |Piece(content, i)| <= BODY_LENGTH
  {
    var n := Num(content);
    var ps, offs := Pieces(content), seq(n + 1, i requires 0 <= i => Start(content, i));
    forall k: nat | k < n
      ensures Sits(content, ps, offs, k) && offs[k + 1] == offs[k] + |ps[k]| && 0 < |ps[k]| <= BODY_LENGTH
    {
      PieceLength(content, k);
    }
    CatIs(content, ps, offs);
  }

  /** No chunk is longer than a message may be, and none of a long message is only a header. */
  lemma ChunkShape(content: Str, ref: byte, i: nat)
    requires i < Num(content)
    ensures |Split(content, ref)[i]| <= SMS_LENGTH
    ensures IsLong(content) ==> UDH_LENGTH < |Split(content, ref)[i]|
  {
    if IsLong(content) {
      PiecesMakeContent(content);
    }
  }

  /** Content made of two-byte units is only cut between units. */
  lemma EvenCuts(content: Str, i: nat)
    requires |content| % 2 == 0
    ensures |Piece(content, i)| % 2 == 0 && Start(content, i) % 2 == 0
  {
    EvenStart(content, i);
    EvenStart(content, i + 1);
  }

  lemma EvenStart(content: Str, i: nat)
    requires |content| % 2 == 0
    ensures Start(content, i) % 2 == 0
  {
    assert BODY_LENGTH * i == 2 * (67 * i);
  }

  /** The total in the header is the number of chunks exactly up to 255 chunks, which is 34170 bytes. */
  lemma TotalIsExact(content: Str, ref: byte, i: nat)
    requires IsLong(content) && i < Num(content)
    ensures Split(content, ref)[i][4] == Num(content) <==> |content| <= 34170
  {
    assert Num(content) <= 255 <==> |content| <= 255 * BODY_LENGTH;
  }

  // ---------------------------------------------------------------- in memory

  /** The package-level reference counter. */
  class Splitter {
    var tpUdhiSeq: byte

    /** The chunks have the contents of Split, and each has storage of its own that nothing else refers to. */
    method SplitLongSms(content: Str) returns (chunks: seq<Slice>)
      modifies this
      ensures |chunks| == Num(content)
      ensures forall i :: 0 <= i < |chunks| ==>
                chunks[i].Valid() && fresh(chunks[i].arr) && chunks[i].Contents() == Split(content, old(tpUdhiSeq))[i]
      ensures forall i, j :: 0 <= i < j < |chunks| ==> chunks[i].arr != chunks[j].arr
      ensures tpUdhiSeq == if |content| > 140 then (old(tpUdhiSeq) + 1) % 256 else old(tpUdhiSeq)
    {
      var contentBytes := Literal(content);
      var num := 1;
      if |content| > SMS_LENGTH {
        num := (|content| + BODY_LENGTH - 1) / BODY_LENGTH;
      }
      if num == 1 {
        return [contentBytes];
      }
      ghost var ref := tpUdhiSeq;
      var tpUdhiHeader := Literal([5, 0, 3, tpUdhiSeq, num % 0x100]);
      tpUdhiSeq := (tpUdhiSeq + 1) % 0x100;
      chunks := MakeChunks(tpUdhiHeader, content, num, ref);
    }

    /** The loop of SplitLongSms. */
    static method MakeChunks(tpUdhiHeader: Slice, content: Str, num: nat, ghost ref: byte) returns (chunks: seq<Slice>)
      requires IsLong(content) && num == Num(content)
      requires tpUdhiHeader.Valid() && tpUdhiHeader.len == tpUdhiHeader.cap
      requires tpUdhiHeader.Contents() == [5, 0, 3, ref, num % 0x100]
      ensures |chunks| == num
      ensures forall i :: 0 <= i < num ==>
                chunks[i].Valid() && fresh(chunks[i].arr) && chunks[i].Contents() == Chunk(content, ref, i)
      ensures forall i, j :: 0 <= i < j < num ==> chunks[i].arr != chunks[j].arr
    {
      chunks := [];
      for i := 0 to num
        invariant |chunks| == i
        invariant forall k :: 0 <= k < i ==>
                    chunks[k].Valid() && fresh(chunks[k].arr) && chunks[k].Contents() == Chunk(content, ref, k)
        invariant forall k, l :: 0 <= k < l < i ==> chunks[k].arr != chunks[l].arr
      {
        var chunk := MakeChunk(tpUdhiHeader, content, num, i, ref);
        chunks := chunks + [chunk];
      }
    }

    /** One round: the first append cannot write behind the shared header, whose storage is full. */
    static method MakeChunk(tpUdhiHeader: Slice, content: Str, num: nat, i: nat, ghost ref: byte) returns (chunk: Slice)
      requires IsLong(content) && i < num == Num(content)
      requires tpUdhiHeader.Valid() && tpUdhiHeader.len == tpUdhiHeader.cap
      requires tpUdhiHeader.Contents() == [5, 0, 3, ref, num % 0x100]
      ensures chunk.Valid() && fresh(chunk.arr) && chunk.Contents() == Chunk(content, ref, i)
    {
      chunk := Append(tpUdhiHeader, [(i + 1) % 0x100]);
      assert chunk.Contents() == Udh(ref, num, i + 1);
      var offset := i * BODY_LENGTH;
      var max := offset + BODY_LENGTH;
      if max > |content| {
        max := |content|;
      }
      assert BODY_LENGTH * i <= BODY_LENGTH * (num - 1);
      assert content[offset..max] == Piece(content, i);
      chunk := Append(chunk, content[offset..max]);
    }
  }

  // ---------------------------------------------------------------- references over a run of splits

  /** The chunks, in storage that is all in own, are those of the message with this reference. */
  predicate SplitInto(own: set<array<byte>>, chunks: seq<Slice>, content: Str, ref: byte)
    reads own
  {
    && |chunks| == Num(content)
    && forall k :: 0 <= k < |chunks| ==>
         chunks[k].arr in own && chunks[k].Valid() && chunks[k].Contents() == Split(content, ref)[k]
  }

  /** The messages so far are split with the references that RefOf says. */
  predicate AllSplit(own: set<array<byte>>, all: seq<seq<Slice>>, contents: seq<Str>, start: byte)
    reads own
  {
    && |all| <= |contents|
    && forall i :: 0 <= i < |all| ==> SplitInto(own, all[i], contents[i], RefOf(contents, start, i))
  }

  lemma SplitIntoMore(own: set<array<byte>>, more: set<array<byte>>, chunks: seq<Slice>, content: Str, ref: byte)
    requires own <= more && SplitInto(own, chunks, content, ref)
    ensures SplitInto(more, chunks, content, ref)
  {}

  lemma AllSplitNext(own: set<array<byte>>, more: set<array<byte>>, all: seq<seq<Slice>>, contents: seq<Str>,
                     start: byte, chunks: seq<Slice>)
    requires AllSplit(own, all, contents, start) && |all| < |contents| && own <= more
    requires SplitInto(more, chunks, contents[|all|], RefOf(contents, start, |all|))
    ensures AllSplit(more, all + [chunks], contents, start)
  {
    forall i | 0 <= i < |all|
      ensures SplitInto(more, all[i], contents[i], RefOf(contents, start, i))
    {
      SplitIntoMore(own, more, all[i], contents[i], RefOf(contents, start, i));
    }
  }

  method SplitOne(splitter: Splitter, content: Str) returns (chunks: seq<Slice>, ghost parts: set<array<byte>>)
    modifies splitter
    ensures fresh(parts) && SplitInto(parts, chunks, content, old(splitter.tpUdhiSeq))
    ensures splitter.tpUdhiSeq
            == if |content| > 140 then (old(splitter.tpUdhiSeq) + 1) % 256 else old(splitter.tpUdhiSeq)
  {
    chunks := splitter.SplitLongSms(content);
    parts := set c | c in chunks :: c.arr;
  }

  /** Splitting one message after the other. */
  method SplitAll(splitter: Splitter, contents: seq<Str>) returns (all: seq<seq<Slice>>, ghost own: set<array<byte>>)
    modifies splitter
    ensures fresh(own) && |all| == |contents| && AllSplit(own, all, contents, old(splitter.tpUdhiSeq))
    ensures splitter.tpUdhiSeq == RefOf(contents, old(splitter.tpUdhiSeq), |contents|)
  {
    all, own := [], {};
    ghost var start := splitter.tpUdhiSeq;
    RefStart(contents, start);
    for i := 0 to |contents|
      invariant |all| == i && fresh(own) && AllSplit(own, all, contents, start)
      invariant splitter.tpUdhiSeq == RefOf(contents, start, i)
    {
      RefMoves(contents, start, i);
      var chunks;
      ghost var parts;
      chunks, parts := SplitOne(splitter, contents[i]);
      SplitIntoMore(parts, own + parts, chunks, contents[i], RefOf(contents, start, i));
      AllSplitNext(own, own + parts, all, contents, start, chunks);
      all, own := all + [chunks], own + parts;
    }
  }

  lemma RefStart(contents: seq<Str>, start: byte)
    ensures RefOf(contents, start, 0) == start
  {}

  /** How many of the messages are long: short ones take no reference. */
  function Longs(contents: seq<Str>): nat {
    if contents == [] then 0
    else Longs(contents[..|contents| - 1]) + if IsLong(contents[|contents| - 1]) then 1 else 0
  }

  /** The reference that message i is split with, when the counter stands at start before message 0. */
  function RefOf(contents: seq<Str>, start: byte, i: nat): byte
    requires i <= |contents|
  {
    (start + Longs(contents[..i])) % 0x100
  }

  /** The counter moves as the splitter moves it. */
  lemma RefMoves(contents: seq<Str>, start: byte, i: nat)
    requires i < |contents|
    ensures RefOf(contents, start, i + 1)
            == if IsLong(contents[i]) then (RefOf(contents, start, i) + 1) % 0x100 else RefOf(contents, start, i)
  {
    assert contents[..i + 1][..i] == contents[..i];
  }

  lemma {:induction false} LongsGrow(contents: seq<Str>, i: nat, j: nat)
    requires i <= j <= |contents|
    ensures Longs(contents[..i]) <= Longs(contents[..j]) <= Longs(contents)
    ensures i < j && IsLong(contents[i]) ==> Longs(contents[..i]) < Longs(contents[..j])
    decreases |contents| - i
  {
    assert contents[..|contents|] == contents;
    if i < j {
      LongsGrow(contents, i + 1, j);
      assert contents[..i + 1][..i] == contents[..i];
    } else if j < |contents| {
      LongsGrow(contents, i + 1, j + 1);
      assert contents[..j + 1][..j] == contents[..j];
    }
  }

  /** Two long messages share a reference exactly when a multiple of 256 references were taken in between. */
  lemma SameRef(contents: seq<Str>, start: byte, i: nat, j: nat)
    requires i <= j < |contents|
    ensures RefOf(contents, start, i) == RefOf(contents, start, j)
            <==> (Longs(contents[..j]) - Longs(contents[..i])) % 0x100 == 0
  {}

  lemma Wraps(start: nat, a: nat, b: nat)
    requires a < b < a + 0x100
    ensures (start + a) % 0x100 != (start + b) % 0x100
  {}

  lemma FewBefore(contents: seq<Str>, i: nat, j: nat)
    requires i < j < |contents| && IsLong(contents[i]) && IsLong(contents[j])
    ensures Longs(contents[..i]) < Longs(contents[..j]) < Longs(contents)
  {
    LongsGrow(contents, i, j);
    LongsGrow(contents, j, |contents|);
    assert contents[..|contents|] == contents;
  }

  lemma FewApart(contents: seq<Str>, start: byte, i: nat, j: nat)
    requires i <= |contents| && j <= |contents|
    requires Longs(contents[..i]) < Longs(contents[..j]) < 0x100
    ensures RefOf(contents, start, i) != RefOf(contents, start, j)
  {
    Wraps(start, Longs(contents[..i]), Longs(contents[..j]));
  }

  /** Among 256 long messages no two share a reference. */
  lemma RefsDiffer(contents: seq<Str>, start: byte, i: nat, j: nat)
    requires i < j < |contents| && IsLong(contents[i]) && IsLong(contents[j]) && Longs(contents) <= 0x100
    ensures RefOf(contents, start, i) != RefOf(contents, start, j)
  {
    FewBefore(contents, i, j);
    FewApart(contents, start, i, j);
  }

  // ---------------------------------------------------------------- reassembly

  /** A chunk as a receiver gets it: whether it starts with a concatenation element, and its bytes. */
  datatype Part = Part(udhi: bool, chunk: Str)

  /** Part k of a message that is split with this reference. */
  function PartOf(content: Str, ref: byte, k: nat): Part
    requires k < Num(content)
  {
    Part(Num(content) > 1, Split(content, ref)[k])
  }

  predicate IsPart(x: Part, content: Str, ref: byte) {
    exists k :: 0 <= k < Num(content) && x == PartOf(content, ref, k)
  }

  predicate HasAll(bag: seq<Part>, content: Str, ref: byte) {
    forall k :: 0 <= k < Num(content) ==> PartOf(content, ref, k) in bag
  }

  predicate IsPartOfSome(x: Part, contents: seq<Str>, start: byte) {
    exists i :: 0 <= i < |contents| && IsPart(x, contents[i], RefOf(contents, start, i))
  }

  /** Some order of some of the parts of the messages, with every part there at least once. */
  predicate Delivers(bag: seq<Part>, contents: seq<Str>, start: byte) {
    && (forall i :: 0 <= i < |contents| ==> HasAll(bag, contents[i], RefOf(contents, start, i)))
    && (forall x :: x in bag ==> IsPartOfSome(x, contents, start))
  }

  /** A part that belongs to the message with this reference. */
  predicate Refers(x: Part, ref: byte) {
    x.udhi && |x.chunk| >= UDH_LENGTH && x.chunk[3] == ref
  }

  /** The body of the first part in the bag with this reference and index. */
  function BodyOf(bag: seq<Part>, ref: byte, index: nat): Str {
    if bag == [] then []
    else if Refers(bag[0], ref) && bag[0].chunk[5] == index then bag[0].chunk[UDH_LENGTH..]
    else BodyOf(bag[1..], ref, index)
  }

  /** The total that the first part with this reference states. */
  function Total(bag: seq<Part>, ref: byte): nat {
    if bag == [] then 0
    else if Refers(bag[0], ref) then bag[0].chunk[4]
    else Total(bag[1..], ref)
  }

  /** Grouping on the reference and ordering by index. */
  function Reassemble(bag: seq<Part>, ref: byte): Str {
    Cat(seq(Total(bag, ref), k requires 0 <= k => BodyOf(bag, ref, k + 1)))
  }

  /** Every part in the bag that bears the reference is one of these. */
  predicate OnlyChunks(bag: seq<Part>, content: Str, ref: byte) {
    forall x :: x in bag && Refers(x, ref) ==> IsChunk(x, content, ref)
  }

  /** A chunk shows its reference, its index and its body. */
  lemma ChunkShows(content: Str, ref: byte, k: nat)
    requires k < Num(content) <= 255
    ensures var c := Chunk(content, ref, k);
            && |c| >= UDH_LENGTH && c[3] == ref && c[4] == Num(content) && c[5] == k + 1
            && c[UDH_LENGTH..] == Piece(content, k)
  {}

  predicate IsChunk(x: Part, content: Str, ref: byte) {
    exists k :: 0 <= k < Num(content) && x.chunk == Chunk(content, ref, k)
  }

  lemma ChunkKnown(x: Part, content: Str, ref: byte)
    requires IsChunk(x, content, ref) && Num(content) <= 255
    ensures |x.chunk| >= UDH_LENGTH && x.chunk[4] == Num(content)
    ensures x.chunk[5] >= 1 && x.chunk[UDH_LENGTH..] == Piece(content, x.chunk[5] - 1)
  {
    var k: nat :| k < Num(content) && x.chunk == Chunk(content, ref, k);
    ChunkShows(content, ref, k);
  }

  lemma LaterPart(bag: seq<Part>, content: Str, ref: byte, p: Part)
    requires bag != [] && OnlyChunks(bag, content, ref) && p in bag && p != bag[0]
    ensures OnlyChunks(bag[1..], content, ref) && p in bag[1..]
  {}

  lemma {:induction false} BodyFound(bag: seq<Part>, content: Str, ref: byte, k: nat)
    requires OnlyChunks(bag, content, ref) && k < Num(content) <= 255
    requires Part(true, Chunk(content, ref, k)) in bag
    ensures BodyOf(bag, ref, k + 1) == Piece(content, k)
  {
    ChunkShows(content, ref, k);
    if Refers(bag[0], ref) && bag[0].chunk[5] == k + 1 {
      ChunkKnown(bag[0], content, ref);
    } else {
      LaterPart(bag, content, ref, Part(true, Chunk(content, ref, k)));
      BodyFound(bag[1..], content, ref, k);
    }
  }

  lemma {:induction false} TotalFound(bag: seq<Part>, content: Str, ref: byte, k: nat)
    requires OnlyChunks(bag, content, ref) && k < Num(content) <= 255
    requires Part(true, Chunk(content, ref, k)) in bag
    ensures Total(bag, ref) == Num(content)
  {
    ChunkShows(content, ref, k);
    if Refers(bag[0], ref) {
      ChunkKnown(bag[0], content, ref);
    } else {
      LaterPart(bag, content, ref, Part(true, Chunk(content, ref, k)));
      TotalFound(bag[1..], content, ref, k);
    }
  }

  lemma OwnChunk(x: Part, content: Str, ref: byte, other: byte)
    requires IsPart(x, content, other) && Refers(x, ref)
    ensures IsLong(content) && other == ref && IsChunk(x, content, ref)
  {
    var k :| 0 <= k < Num(content) && x == PartOf(content, other, k);
    assert x.chunk == Chunk(content, other, k);
  }

  lemma OnlyOwnChunks(bag: seq<Part>, contents: seq<Str>, start: byte, i: nat)
    requires Delivers(bag, contents, start) && Longs(contents) <= 0x100 && i < |contents| && IsLong(contents[i])
    ensures OnlyChunks(bag, contents[i], RefOf(contents, start, i))
  {
    var ref := RefOf(contents, start, i);
    forall x | x in bag && Refers(x, ref)
      ensures IsChunk(x, contents[i], ref)
    {
      assert IsPartOfSome(x, contents, start);
      var j :| 0 <= j < |contents| && IsPart(x, contents[j], RefOf(contents, start, j));
      OwnChunk(x, contents[j], ref, RefOf(contents, start, j));
      SameMessage(contents, start, i, j);
    }
  }

  lemma SameMessage(contents: seq<Str>, start: byte, i: nat, j: nat)
    requires i < |contents| && j < |contents| && IsLong(contents[i]) && IsLong(contents[j]) && Longs(contents) <= 0x100
    ensures RefOf(contents, start, i) == RefOf(contents, start, j) <==> i == j
  {
    if i < j {
      RefsDiffer(contents, start, i, j);
    } else if j < i {
      RefsDiffer(contents, start, j, i);
    }
  }

  lemma PiecesJoin(bag: seq<Part>, content: Str, ref: byte)
    requires OnlyChunks(bag, content, ref) && HasAll(bag, content, ref) && IsLong(content) && Num(content) <= 255
    ensures Reassemble(bag, ref) == content
  {
    forall k: nat | k < Num(content)
      ensures BodyOf(bag, ref, k + 1) == Piece(content, k)
    {
      assert PartOf(content, ref, k) == Part(true, Chunk(content, ref, k));
      BodyFound(bag, content, ref, k);
    }
    assert PartOf(content, ref, 0) == Part(true, Chunk(content, ref, 0));
    TotalFound(bag, content, ref, 0);
    assert seq(Total(bag, ref), k requires 0 <= k => BodyOf(bag, ref, k + 1)) == Pieces(content);
    PiecesMakeContent(content);
  }

  lemma {:induction false} BodySmall(bag: seq<Part>, content: Str, ref: byte, index: nat)
    requires OnlyChunks(bag, content, ref)
    ensures |BodyOf(bag, ref, index)| <= BODY_LENGTH
  {
    if bag != [] {
      var x := bag[0];
      if Refers(x, ref) && x.chunk[5] == index {
        var k :| 0 <= k < Num(content) && x.chunk == Chunk(content, ref, k);
        assert |Piece(content, k)| <= BODY_LENGTH;
      } else {
        BodySmall(bag[1..], content, ref, index);
      }
    }
  }

  lemma {:induction false} TotalSmall(bag: seq<Part>, ref: byte)
    ensures Total(bag, ref) <= 255
  {
    if bag != [] {
      TotalSmall(bag[1..], ref);
    }
  }

  lemma {:induction false} CatSmall(ps: seq<Str>)
    requires forall i :: 0 <= i < |ps| ==> |ps[i]| <= BODY_LENGTH
    ensures |Cat(ps)| <= BODY_LENGTH * |ps|
  {
    if ps != [] {
      CatSmall(ps[1..]);
    }
  }

  /** No more than 255 bodies are ever joined. */
  lemma ReassembleSmall(bag: seq<Part>, content: Str, ref: byte)
    requires OnlyChunks(bag, content, ref)
    ensures |Reassemble(bag, ref)| <= 34170
  {
    var ps := seq(Total(bag, ref), k requires 0 <= k => BodyOf(bag, ref, k + 1));
    TotalSmall(bag, ref);
    forall i | 0 <= i < |ps|
      ensures |ps[i]| <= BODY_LENGTH
    {
      BodySmall(bag, content, ref, i + 1);
    }
    CatSmall(ps);
  }

  /** All chunks of a message, and no others with its reference, make the message exactly if there are at most 255. */
  lemma AllChunksMakeContent(bag: seq<Part>, content: Str, ref: byte)
    requires OnlyChunks(bag, content, ref) && HasAll(bag, content, ref) && IsLong(content)
    ensures Reassemble(bag, ref) == content <==> Num(content) <= 255
  {
    if Num(content) <= 255 {
      PiecesJoin(bag, content, ref);
    } else {
      ReassembleSmall(bag, content, ref);
    }
  }

  /** Among up to 256 long messages, and any short ones, a long message comes back from its reference exactly if it has
      at most 255 chunks, whatever the order in which the parts arrive and however often some are repeated. */
  lemma Reassembled(bag: seq<Part>, contents: seq<Str>, start: byte, i: nat)
    requires Delivers(bag, contents, start) && Longs(contents) <= 0x100
    requires i < |contents| && IsLong(contents[i])
    ensures Reassemble(bag, RefOf(contents, start, i)) == contents[i] <==> Num(contents[i]) <= 255
  {
    OnlyOwnChunks(bag, contents, start, i);
    AllChunksMakeContent(bag, contents[i], RefOf(contents, start, i));
  }
}
