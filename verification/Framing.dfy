/** The byte format of the message layer and its reference decoder
    (common/VASTnet.h, VASTnet/VASTnet.cpp).

    A frame is a four-byte header followed by the message.  The header packs
    start:4, type:2, size:22, end:4 into a little-endian word, lowest bits
    first. */
module Framing {
  type Byte = b: nat | b < 256

  type Bytes = seq<Byte>

  type Kind = k: nat | k < 4        // the two type bits

  const HEADER_SIZE := 4
  const SIZE_RANGE := 0x40_0000     // 22 bits

  datatype Header = Header(start: nat, kind: Kind, size: nat, end: nat) {
    predicate IsVast() {
      start == 10 && end == 5
    }
  }

  datatype Frame = Frame(kind: Kind, payload: Bytes) {
    predicate Fits() {
      |payload| < SIZE_RANGE
    }
  }

  function HeaderOf(b: Bytes): (h: Header)
    requires |b| >= HEADER_SIZE
    ensures h.size < SIZE_RANGE
  {
    var word := b[0] as int + 0x100 * b[1] as int + 0x1_0000 * b[2] as int + 0x100_0000 * b[3] as int;
    Header(word % 16, word / 16 % 4, word / 64 % SIZE_RANGE, word / 0x1000_0000)
  }

  lemma BytesOfWord(word: nat)
    requires word < 0x1_0000_0000
    ensures word % 0x100 + 0x100 * (word / 0x100 % 0x100) + 0x1_0000 * (word / 0x1_0000 % 0x100)
            + 0x100_0000 * (word / 0x100_0000) == word
  {
    var a := word / 0x100;
    assert word == 0x100 * a + word % 0x100;
    assert a / 0x100 == word / 0x1_0000 && a == 0x100 * (a / 0x100) + a % 0x100;
    var c := word / 0x1_0000;
    assert c / 0x100 == word / 0x100_0000 && c == 0x100 * (c / 0x100) + c % 0x100;
  }

  lemma FieldsOfWord(kind: Kind, size: nat, word: nat)
    requires size < SIZE_RANGE && word == 10 + 16 * kind + 64 * size + 0x1000_0000 * 5
    ensures word < 0x1_0000_0000
    ensures word % 16 == 10 && word / 16 % 4 == kind && word / 64 % SIZE_RANGE == size && word / 0x1000_0000 == 5
  {
    assert word / 16 == kind + 4 * size + 0x100_0000 * 5;
    assert word / 64 == size + SIZE_RANGE * 5;
  }

  function HeaderBytes(kind: Kind, size: nat): (b: Bytes)
    requires size < SIZE_RANGE
    ensures |b| == HEADER_SIZE
    ensures HeaderOf(b) == Header(10, kind, size, 5)
  {
    var word: nat := 10 + 16 * kind + 64 * size + 0x1000_0000 * 5;
    FieldsOfWord(kind, size, word);
    var b: Bytes := [word % 0x100, word / 0x100 % 0x100, word / 0x1_0000 % 0x100, word / 0x100_0000];
    BytesOfWord(word);
    b
  }

  // What sendMessage appends; the size field keeps 22 bits.
  function Encode(f: Frame): (b: Bytes)
    ensures |b| == HEADER_SIZE + |f.payload|
  {
    HeaderBytes(f.kind, |f.payload| % SIZE_RANGE) + f.payload
  }

  ghost predicate AllFit(fs: seq<Frame>) {
    forall i :: 0 <= i < |fs| ==> fs[i].Fits()
  }

  function Stream(fs: seq<Frame>): Bytes {
    if fs == [] then [] else Encode(fs[0]) + Stream(fs[1..])
  }

  /** The reference decoder: whole frames off the front of a byte string, and
      what is left.  It knows nothing of chunks. */
  function Parse(s: Bytes): (r: (seq<Frame>, Bytes))
    decreases |s|
  {
    if |s| < HEADER_SIZE then ([], s)
    else
      var h := HeaderOf(s);
      if !h.IsVast() || |s| < HEADER_SIZE + h.size then ([], s)
      else
        var r := Parse(s[HEADER_SIZE + h.size..]);
        ([Frame(h.kind, s[HEADER_SIZE..HEADER_SIZE + h.size])] + r.0, r.1)
  }

  lemma HeaderOfFrame(f: Frame, s: Bytes)
    requires f.Fits() && HEADER_SIZE <= |s|
    requires s <= Encode(f) || Encode(f) <= s
    ensures HeaderOf(s) == Header(10, f.kind, |f.payload|, 5)
  {
    assert |f.payload| % SIZE_RANGE == |f.payload|;
    var h := HeaderBytes(f.kind, |f.payload|);
    assert Encode(f)[..HEADER_SIZE] == h;
    assert forall i :: 0 <= i < HEADER_SIZE ==> s[i] == Encode(f)[i] == h[i];
  }

  /** Decoding a stream of whole frames, then part of another, gives back
      exactly those frames and that part. */
  lemma {:induction false} ParseStream(fs: seq<Frame>, part: Bytes, next: Frame)
    requires AllFit(fs) && next.Fits() && part < Encode(next)
    ensures Parse(Stream(fs) + part) == (fs, part)
  {
    var s := Stream(fs) + part;
    if fs == [] {
      assert s == part;
      if HEADER_SIZE <= |part| {
        HeaderOfFrame(next, part);
      }
    } else {
      var e := Encode(fs[0]);
      assert s == e + (Stream(fs[1..]) + part);
      HeaderOfFrame(fs[0], s);
      assert s[|e|..] == Stream(fs[1..]) + part;
      assert s[HEADER_SIZE..|e|] == fs[0].payload;
      ParseStream(fs[1..], part, next);
      assert [fs[0]] + fs[1..] == fs;
    }
  }

  lemma {:induction false} CutOne(fs: seq<Frame>, p: Bytes)
    requires AllFit(fs) && fs != [] && p <= Stream(fs)
    ensures |p| < |Encode(fs[0])| ==> p < Encode(fs[0])
    ensures |p| >= |Encode(fs[0])| ==>
              var e := Encode(fs[0]); p == e + p[|e|..] && p[|e|..] <= Stream(fs[1..])
  {
    var e := Encode(fs[0]);
    var s := Stream(fs);
    assert s == e + Stream(fs[1..]);
    assert forall i :: 0 <= i < |p| ==> p[i] == s[i];
    if |p| >= |e| {
      assert p == e + p[|e|..];
      assert forall i :: 0 <= i < |p| - |e| ==> p[|e|..][i] == s[|e| + i] == Stream(fs[1..])[i];
    } else {
      assert forall i :: 0 <= i < |p| ==> p[i] == e[i];
    }
  }

  ghost predicate Splits(fs: seq<Frame>, p: Bytes, got: seq<Frame>, part: Bytes) {
    && got <= fs && AllFit(got)
    && p == Stream(got) + part
    && if |got| == |fs| then part == [] else part < Encode(fs[|got|])
  }

  lemma SplitsCons(fs: seq<Frame>, p: Bytes, got: seq<Frame>, part: Bytes)
    requires AllFit(fs) && fs != [] && Splits(fs[1..], p, got, part)
    ensures Splits(fs, Encode(fs[0]) + p, [fs[0]] + got, part)
  {
    assert Encode(fs[0]) + p == Stream([fs[0]] + got) + part;
  }

  // Every prefix of a stream is some whole frames and a proper part of the next.
  lemma {:induction false} PrefixSplits(fs: seq<Frame>, p: Bytes) returns (got: seq<Frame>, part: Bytes)
    requires AllFit(fs) && p <= Stream(fs)
    ensures Splits(fs, p, got, part)
  {
    got, part := [], p;
    if fs != [] {
      CutOne(fs, p);
      if |p| >= |Encode(fs[0])| {
        got, part := PrefixSplits(fs[1..], p[|Encode(fs[0])|..]);
        SplitsCons(fs, p[|Encode(fs[0])|..], got, part);
        got := [fs[0]] + got;
      }
    }
  }

  /** Decoding a prefix of a stream: the frames are the first ones sent, and
      re-encoding them plus the rest gives the prefix back. */
  lemma {:induction false} ParsePrefix(fs: seq<Frame>, p: Bytes)
    requires AllFit(fs) && p <= Stream(fs)
    ensures var (got, rest) := Parse(p);
            Splits(fs, p, got, rest)
  {
    var got, part := PrefixSplits(fs, p);
    ParseStream(got, part, if |got| == |fs| then Frame(0, []) else fs[|got|]);
  }

  lemma LayoutOfWord(kind: Kind, size: nat, word: nat)
    requires size < SIZE_RANGE && word == 10 + 16 * kind + 64 * size + 0x1000_0000 * 5
    ensures word % 0x100 == 10 + 16 * kind + 64 * (size % 4)
    ensures word / 0x100 % 0x100 == size / 4 % 256
    ensures word / 0x1_0000 % 0x100 == size / 1024 % 256
    ensures word / 0x100_0000 == size / 262144 + 80
  {
    var a, b, c := size / 4, size / 1024, size / 262144;
    assert size == 4 * a + size % 4;
    assert word == 10 + 16 * kind + 64 * (size % 4) + 0x100 * (a + 0x10_0000 * 5);
    assert word / 0x100 == a + 0x10_0000 * 5;
    assert a / 0x100 == b && word / 0x1_0000 == b + 0x1000 * 5;
    assert b / 0x100 == c && word / 0x100_0000 == c + 80;
  }

  /** The header's four bytes: a mark at each end, the kind and the size between
      them, low bits first. */
  lemma HeaderLayout(kind: Kind, size: nat)
    requires size < SIZE_RANGE
    ensures HeaderBytes(kind, size) ==
            [10 + 16 * kind + 64 * (size % 4), size / 4 % 256, size / 1024 % 256, size / 262144 + 16 * 5]
  {
    LayoutOfWord(kind, size, 10 + 16 * kind + 64 * size + 0x1000_0000 * 5);
  }
}
