/** The byte format of the network-coding messages
    (VASTnet/udpncmessage.cpp, VASTnet/udpnc_packet_factory.h).

    An eight-byte header (two little-endian words of bit fields), a checksum,
    then for every packet coded together its id, its sender and its receiver's
    address, then the payload. */
module CodedMessages {
  import opened Framing

  const CODED_HEADER_SIZE := 8
  const CHECKSUM_SIZE := 4
  const ENTRY_SIZE := 24
  const ID_SIZE := 8
  const START_BITS := 0xD
  const END_BITS := 0xE
  const MAX_PAYLOAD := 0x100_0000    // 24 bits

  type Nibble = n: nat | n < 16
  type Short = n: nat | n < 0x1_0000
  type Long = n: nat | n < 0x1_0000_0000
  type Wide = n: nat | n < 0x1_0000_0000_0000_0000

  datatype CodedHeader = CodedHeader(
    start: Nibble, ordering: Byte, gensize: Nibble, generation: Byte, count: Byte,
    packetsize: nat, padding: Nibble, end: Nibble)

  datatype Address = Address(host: Long, port: Short, pad: Short)

  datatype Entry = Entry(id: Wide, from: Wide, to: Address)

  datatype Message = Message(
    header: CodedHeader, ids: seq<Wide>, froms: seq<Wide>, tos: seq<Address>, body: Bytes, checksum: Long)

  predicate IsCodedHeader(h: CodedHeader) {
    h.start == START_BITS && h.end == END_BITS
  }

  // ---------------------------------------------------------------- numbers as bytes

  function Pow256(k: nat): nat {
    if k == 0 then 1 else 256 * Pow256(k - 1)
  }

  function ToBytes(v: nat, k: nat): (b: Bytes)
    ensures |b| == k
  {
    if k == 0 then [] else [v % 256] + ToBytes(v / 256, k - 1)
  }

  function FromBytes(b: Bytes): (v: nat) {
    if b == [] then 0 else b[0] + 256 * FromBytes(b[1..])
  }

  lemma {:induction false} FromBytesIsSmall(b: Bytes)
    ensures FromBytes(b) < Pow256(|b|)
  {
    if b != [] {
      FromBytesIsSmall(b[1..]);
    }
  }

  lemma {:induction false} NumberRoundTrip(v: nat, k: nat)
    requires v < Pow256(k)
    ensures FromBytes(ToBytes(v, k)) == v
  {
    if k > 0 {
      assert v == 256 * (v / 256) + v % 256;
      NumberRoundTrip(v / 256, k - 1);
      assert ToBytes(v, k)[1..] == ToBytes(v / 256, k - 1);
    }
  }

  lemma {:induction false} BytesRoundTrip(b: Bytes)
    ensures ToBytes(FromBytes(b), |b|) == b
  {
    if b != [] {
      BytesRoundTrip(b[1..]);
      var v := FromBytes(b);
      assert v % 256 == b[0] && v / 256 == FromBytes(b[1..]);
      assert b == [b[0]] + b[1..];
    }
  }

  lemma Powers()
    ensures Pow256(2) == 0x1_0000 && Pow256(3) == 0x100_0000 && Pow256(4) == 0x1_0000_0000
    ensures Pow256(8) == 0x1_0000_0000_0000_0000
  {
    assert Pow256(2) == 256 * Pow256(1);
    assert Pow256(4) == 256 * Pow256(3);
    assert Pow256(6) == 256 * (256 * Pow256(4));
    assert Pow256(8) == 256 * (256 * Pow256(6));
  }

  function NumberAt(b: Bytes, n: nat, k: nat): (v: nat)
    requires n + k <= |b|
    ensures v < Pow256(k)
  {
    FromBytesIsSmall(b[n..n + k]);
    FromBytes(b[n..n + k])
  }

  // ---------------------------------------------------------------- the header

  function CodedHeaderBytes(h: CodedHeader): (b: Bytes)
    requires h.packetsize < MAX_PAYLOAD
    ensures |b| == CODED_HEADER_SIZE
  {
    [h.start + 16 * (h.ordering % 16), h.ordering / 16 + 16 * h.gensize, h.generation, h.count]
    + [h.packetsize % 256, h.packetsize / 256 % 256, h.packetsize / 0x1_0000, h.padding + 16 * h.end]
  }

  function CodedHeaderOf(b: Bytes): (h: CodedHeader)
    requires |b| >= CODED_HEADER_SIZE
    ensures h.packetsize < MAX_PAYLOAD
  {
    CodedHeader(b[0] % 16, b[0] / 16 + 16 * (b[1] % 16), b[1] / 16, b[2], b[3],
                b[4] as int + 256 * b[5] as int + 0x1_0000 * b[6] as int, b[7] % 16, b[7] / 16)
  }

  lemma HeaderRoundTrip(h: CodedHeader, b: Bytes)
    requires h.packetsize < MAX_PAYLOAD && CodedHeaderBytes(h) <= b
    ensures CodedHeaderOf(b) == h
  {
    var c := CodedHeaderBytes(h);
    assert forall i :: 0 <= i < CODED_HEADER_SIZE ==> b[i] == c[i];
    var o, p := h.ordering, h.packetsize;
    assert o == 16 * (o / 16) + o % 16;
    assert p == 256 * (p / 256) + p % 256;
    assert p / 256 == 256 * (p / 0x1_0000) + p / 256 % 256;
  }

  lemma HeaderBytesRoundTrip(b: Bytes)
    requires |b| >= CODED_HEADER_SIZE
    ensures CodedHeaderBytes(CodedHeaderOf(b)) == b[..CODED_HEADER_SIZE]
  {
    var h := CodedHeaderOf(b);
    assert h.packetsize / 256 == b[5] as int + 256 * b[6] as int && h.packetsize % 256 == b[4];
    assert h.packetsize / 0x1_0000 == b[6];
  }

  // ---------------------------------------------------------------- entries

  function EntryBytes(e: Entry): (b: Bytes)
    ensures |b| == ENTRY_SIZE
  {
    ToBytes(e.id, 8) + ToBytes(e.from, 8) + ToBytes(e.to.host, 4) + ToBytes(e.to.port, 2) + ToBytes(e.to.pad, 2)
  }

  function EntryAt(b: Bytes, n: nat): Entry
    requires n + ENTRY_SIZE <= |b|
  {
    Powers();
    Entry(NumberAt(b, n, 8), NumberAt(b, n + 8, 8),
          Address(NumberAt(b, n + 16, 4), NumberAt(b, n + 20, 2), NumberAt(b, n + 22, 2)))
  }

  // A part of a part.
  lemma Part(b: Bytes, n: nat, c: Bytes, i: nat, j: nat)
    requires n + |c| <= |b| && b[n..n + |c|] == c && i <= j <= |c|
    ensures b[n + i..n + j] == c[i..j]
  {
    var whole, part := b[n..n + |c|], b[n + i..n + j];
    assert forall k :: 0 <= k < j - i ==> part[k] == b[n + i + k] == whole[i + k];
  }

  lemma EntryRoundTrip(e: Entry, b: Bytes, n: nat)
    requires n + ENTRY_SIZE <= |b| && b[n..n + ENTRY_SIZE] == EntryBytes(e)
    ensures EntryAt(b, n) == e
  {
    Powers();
    var c := EntryBytes(e);
    Part(b, n, c, 0, 8);
    Part(b, n, c, 8, 16);
    Part(b, n, c, 16, 20);
    Part(b, n, c, 20, 22);
    Part(b, n, c, 22, 24);
    assert c[..8] == ToBytes(e.id, 8) && c[8..16] == ToBytes(e.from, 8);
    assert c[16..20] == ToBytes(e.to.host, 4);
    assert c[20..22] == ToBytes(e.to.port, 2) && c[22..24] == ToBytes(e.to.pad, 2);
    NumberRoundTrip(e.id, 8);
    NumberRoundTrip(e.from, 8);
    NumberRoundTrip(e.to.host, 4);
    NumberRoundTrip(e.to.port, 2);
    NumberRoundTrip(e.to.pad, 2);
  }

  lemma EntryBytesRoundTrip(b: Bytes, n: nat)
    requires n + ENTRY_SIZE <= |b|
    ensures EntryBytes(EntryAt(b, n)) == b[n..n + ENTRY_SIZE]
  {
    BytesRoundTrip(b[n..n + 8]);
    BytesRoundTrip(b[n + 8..n + 16]);
    BytesRoundTrip(b[n + 16..n + 20]);
    BytesRoundTrip(b[n + 20..n + 22]);
    BytesRoundTrip(b[n + 22..n + 24]);
    assert b[n..n + ENTRY_SIZE] ==
           b[n..n + 8] + b[n + 8..n + 16] + b[n + 16..n + 20] + b[n + 20..n + 22] + b[n + 22..n + 24];
  }

  // ---------------------------------------------------------------- messages

  function SizeOf(m: Message): nat {
    CODED_HEADER_SIZE + m.header.count * ID_SIZE + m.header.count * ID_SIZE
    + (m.header.count * 4 + 2 * 2) + m.header.packetsize + CHECKSUM_SIZE
  }

  // The first k entries.
  function EntriesBytes(m: Message, k: nat): (b: Bytes)
    requires k <= |m.ids| == |m.froms| == |m.tos|
    ensures |b| == ENTRY_SIZE * k
  {
    if k == 0 then []
    else EntriesBytes(m, k - 1) + EntryBytes(Entry(m.ids[k - 1], m.froms[k - 1], m.tos[k - 1]))
  }

  // What can be written: lists of one length that cover the count, and a
  // payload that covers the packet size.
  predicate Writable(m: Message) {
    && |m.ids| == |m.froms| == |m.tos| && m.header.count <= |m.ids|
    && m.header.packetsize <= |m.body| && m.header.packetsize < MAX_PAYLOAD
  }

  function Serialize(m: Message): (b: Bytes)
    requires Writable(m)
    ensures |b| == CODED_HEADER_SIZE + CHECKSUM_SIZE + ENTRY_SIZE * m.header.count + m.header.packetsize
  {
    CodedHeaderBytes(m.header) + ToBytes(m.checksum, 4) + EntriesBytes(m, m.header.count)
    + m.body[..m.header.packetsize]
  }

  /** sizeOf () is what serialize () writes exactly for one packet; for several
      coded together it is too small a buffer. */
  lemma SizeOfIsExactIff(m: Message)
    requires Writable(m)
    ensures SizeOf(m) == |Serialize(m)| <==> m.header.count == 1
    ensures SizeOf(m) < |Serialize(m)| <==> m.header.count > 1
    ensures |Serialize(m)| - SizeOf(m) == 4 * (m.header.count - 1)
  {
  }

  // What reading bytes gives: nothing to read, not a coded message, a read past
  // the end of the buffer, or a message and how many bytes it took.
  datatype Outcome = Empty | Foreign | PastEnd | TooLarge | Read(message: Message, n: nat)

  // The lists after k entries have been read into a message.
  function ReadEntries(m: Message, b: Bytes, n: nat, k: nat): (r: Message)
    requires n + ENTRY_SIZE * k <= |b|
  {
    if k == 0 then m
    else
      var r := ReadEntries(m, b, n, k - 1);
      var e := EntryAt(b, n + ENTRY_SIZE * (k - 1));
      r.(ids := r.ids + [e.id], froms := r.froms + [e.from], tos := r.tos + [e.to])
  }

  // Entries are added to those the message already has.
  function DeserializeInto(m: Message, b: Bytes): Outcome {
    if |b| <= CODED_HEADER_SIZE then Empty
    else
      var h := CodedHeaderOf(b);
      if !IsCodedHeader(h) then Foreign
      else
        var start := CODED_HEADER_SIZE + CHECKSUM_SIZE;
        var n := start + ENTRY_SIZE * h.count;
        if n > |b| then PastEnd
        else if h.packetsize > |b| then TooLarge
        else if n + h.packetsize > |b| then PastEnd
        else
          Powers();
          var m1 := ReadEntries(m.(header := h, checksum := NumberAt(b, CODED_HEADER_SIZE, 4)), b, start, h.count);
          Read(m1.(body := b[n..n + h.packetsize]), n + h.packetsize)
  }

  const BLANK := Message(CodedHeader(0, 0, 0, 0, 0, 0, 0, 0), [], [], [], [], 0)

  function Deserialize(b: Bytes): Outcome {
    DeserializeInto(BLANK, b)
  }

  predicate SameAddress(a: Address, b: Address) {
    a.host == b.host && a.port == b.port
  }

  // Everything but the socket a message came from, which is not sent.
  ghost predicate ContentEquals(a: Message, b: Message) {
    && a.header == b.header && a.ids == b.ids && a.froms == b.froms
    && |a.tos| == |b.tos| && (forall i :: 0 <= i < |a.tos| ==> SameAddress(a.tos[i], b.tos[i]))
    && a.body == b.body && a.checksum == b.checksum
  }

  // A message as the sender and the coder make them.
  predicate WellFormed(m: Message) {
    && IsCodedHeader(m.header)
    && |m.ids| == |m.froms| == |m.tos| == m.header.count
    && |m.body| == m.header.packetsize < MAX_PAYLOAD
  }

  lemma {:induction false} EntriesRead(m: Message, into: Message, b: Bytes, n: nat, k: nat)
    requires k <= |m.ids| == |m.froms| == |m.tos|
    requires n + ENTRY_SIZE * k <= |b| && b[n..n + ENTRY_SIZE * k] == EntriesBytes(m, k)
    ensures ReadEntries(into, b, n, k) ==
            into.(ids := into.ids + m.ids[..k], froms := into.froms + m.froms[..k], tos := into.tos + m.tos[..k])
  {
    if k == 0 {
      assert into.ids + m.ids[..0] == into.ids && into.froms + m.froms[..0] == into.froms;
      assert into.tos + m.tos[..0] == into.tos;
    } else {
      LastEntry(m, b, n, k);
      EntriesRead(m, into, b, n, k - 1);
      OneMore(into.ids, m.ids, k);
      OneMore(into.froms, m.froms, k);
      OneMore(into.tos, m.tos, k);
    }
  }

  lemma OneMore<T>(a: seq<T>, b: seq<T>, k: nat)
    requires 0 < k <= |b|
    ensures a + b[..k] == (a + b[..k - 1]) + [b[k - 1]]
  {
  }

  lemma LastEntry(m: Message, b: Bytes, n: nat, k: nat)
    requires 0 < k <= |m.ids| == |m.froms| == |m.tos|
    requires n + ENTRY_SIZE * k <= |b| && b[n..n + ENTRY_SIZE * k] == EntriesBytes(m, k)
    ensures b[n..n + ENTRY_SIZE * (k - 1)] == EntriesBytes(m, k - 1)
    ensures EntryAt(b, n + ENTRY_SIZE * (k - 1)) == Entry(m.ids[k - 1], m.froms[k - 1], m.tos[k - 1])
  {
    var at := ENTRY_SIZE * (k - 1);
    var all := EntriesBytes(m, k);
    Part(b, n, all, 0, at);
    Part(b, n, all, at, at + ENTRY_SIZE);
    EntryRoundTrip(Entry(m.ids[k - 1], m.froms[k - 1], m.tos[k - 1]), b, n + at);
  }

  /** Reading back what was written gives the message, its entries added to
      those already there, and takes exactly the bytes written, whatever follows
      them in the buffer. */
  lemma ReadsBackInto(m: Message, into: Message, tail: Bytes)
    requires WellFormed(m)
    ensures DeserializeInto(into, Serialize(m) + tail) ==
            Read(m.(ids := into.ids + m.ids, froms := into.froms + m.froms, tos := into.tos + m.tos),
                 |Serialize(m)|)
  {
    var b := Serialize(m) + tail;
    var h, c := m.header, m.header.count;
    var start := CODED_HEADER_SIZE + CHECKSUM_SIZE;
    var n := start + ENTRY_SIZE * c;
    HeaderRoundTrip(h, b);
    Powers();
    assert b[CODED_HEADER_SIZE..start] == ToBytes(m.checksum, 4);
    NumberRoundTrip(m.checksum, 4);
    assert b[start..n] == EntriesBytes(m, c);
    EntriesRead(m, into.(header := h, checksum := m.checksum), b, start, c);
    assert m.ids[..c] == m.ids && m.froms[..c] == m.froms && m.tos[..c] == m.tos;
    assert b[n..n + h.packetsize] == m.body;
  }

  /** A fresh object restores the very message. */
  lemma RoundTrip(m: Message, tail: Bytes)
    requires WellFormed(m)
    ensures Deserialize(Serialize(m) + tail) == Read(m, |Serialize(m)|)
    ensures ContentEquals(Deserialize(Serialize(m) + tail).message, m)
  {
    ReadsBackInto(m, BLANK, tail);
    assert BLANK.ids + m.ids == m.ids && BLANK.froms + m.froms == m.froms && BLANK.tos + m.tos == m.tos;
  }

  /** An object that is used again restores it if and only if its lists are
      empty. */
  lemma RestoresIffBlank(m: Message, into: Message)
    requires WellFormed(m)
    ensures DeserializeInto(into, Serialize(m)).Read?
    ensures ContentEquals(DeserializeInto(into, Serialize(m)).message, m) <==>
            into.ids == [] && into.froms == [] && into.tos == []
  {
    ReadsBackInto(m, into, []);
    assert Serialize(m) + [] == Serialize(m);
    var r := DeserializeInto(into, Serialize(m)).message;
    assert |r.ids| == |into.ids| + |m.ids| && |r.froms| == |into.froms| + |m.froms| && |r.tos| == |into.tos| + |m.tos|;
    if into.ids == [] && into.froms == [] && into.tos == [] {
      assert r.ids == m.ids && r.froms == m.froms && r.tos == m.tos;
    }
  }

  lemma {:induction false} EntriesReadLengths(into: Message, b: Bytes, n: nat, k: nat)
    requires n + ENTRY_SIZE * k <= |b| && |into.ids| == |into.froms| == |into.tos| == 0
    ensures var r := ReadEntries(into, b, n, k);
            |r.ids| == |r.froms| == |r.tos| == k && r.header == into.header && r.checksum == into.checksum
  {
    if k > 0 {
      EntriesReadLengths(into, b, n, k - 1);
    }
  }

  // The bytes from which entries are read are the writing of those entries.
  ghost predicate ReadIsWritten(into: Message, b: Bytes, n: nat, k: nat)
    requires n + ENTRY_SIZE * k <= |b|
  {
    var r := ReadEntries(into, b, n, k);
    |r.ids| == |r.froms| == |r.tos| == k && EntriesBytes(r, k) == b[n..n + ENTRY_SIZE * k]
  }

  lemma ReadStepIsWritten(into: Message, b: Bytes, n: nat, j: nat, k: nat)
    requires k == j + 1 && n + ENTRY_SIZE * k <= |b|
    requires ReadIsWritten(into, b, n, j)
    ensures ReadIsWritten(into, b, n, k)
  {
    var at := n + ENTRY_SIZE * j;
    EntryBytesRoundTrip(b, at);
    ReadOneMore(into, b, n, j, k, at);
    OneEntryMore(ReadEntries(into, b, n, j), ReadEntries(into, b, n, k), EntryAt(b, at), b, n, at, j);
  }

  lemma {:induction false} EntriesReadWritten(into: Message, b: Bytes, n: nat, k: nat)
    requires n + ENTRY_SIZE * k <= |b| && |into.ids| == |into.froms| == |into.tos| == 0
    ensures ReadIsWritten(into, b, n, k)
  {
    if k > 0 {
      EntriesReadWritten(into, b, n, k - 1);
      ReadStepIsWritten(into, b, n, k - 1, k);
    }
  }

  lemma {:induction false} ReadOneMore(into: Message, b: Bytes, n: nat, j: nat, k: nat, at: nat)
    requires k == j + 1 && at == n + ENTRY_SIZE * j && n + ENTRY_SIZE * k <= |b|
    ensures var p, e := ReadEntries(into, b, n, j), EntryAt(b, at);
            ReadEntries(into, b, n, k) == p.(ids := p.ids + [e.id], froms := p.froms + [e.from], tos := p.tos + [e.to])
  {
  }

  lemma OneEntryMore(p: Message, r: Message, e: Entry, b: Bytes, n: nat, at: nat, k: nat)
    requires k == |p.ids| == |p.froms| == |p.tos| && n <= at && at + ENTRY_SIZE <= |b|
    requires r == p.(ids := p.ids + [e.id], froms := p.froms + [e.from], tos := p.tos + [e.to])
    requires EntriesBytes(p, k) == b[n..at] && EntryBytes(e) == b[at..at + ENTRY_SIZE]
    ensures EntriesBytes(r, k + 1) == b[n..at + ENTRY_SIZE]
  {
    SamePrefix(p, r, k);
    assert b[n..at + ENTRY_SIZE] == b[n..at] + b[at..at + ENTRY_SIZE];
  }

  lemma {:induction false} SamePrefix(a: Message, b: Message, k: nat)
    requires k <= |a.ids| == |a.froms| == |a.tos| && k <= |b.ids| == |b.froms| == |b.tos|
    requires a.ids[..k] == b.ids[..k] && a.froms[..k] == b.froms[..k] && a.tos[..k] == b.tos[..k]
    ensures EntriesBytes(a, k) == EntriesBytes(b, k)
  {
    if k > 0 {
      assert a.ids[k - 1] == a.ids[..k][k - 1] == b.ids[k - 1];
      assert a.froms[k - 1] == a.froms[..k][k - 1] == b.froms[k - 1];
      assert a.tos[k - 1] == a.tos[..k][k - 1] == b.tos[k - 1];
      assert a.ids[..k - 1] == a.ids[..k][..k - 1] && b.ids[..k - 1] == b.ids[..k][..k - 1];
      assert a.froms[..k - 1] == a.froms[..k][..k - 1] && b.froms[..k - 1] == b.froms[..k][..k - 1];
      assert a.tos[..k - 1] == a.tos[..k][..k - 1] && b.tos[..k - 1] == b.tos[..k][..k - 1];
      SamePrefix(a, b, k - 1);
    }
  }

  /** Conversely, whatever is accepted is the writing of a well-formed message:
      no two byte strings stand for the same one. */
  lemma AcceptedIsWritten(b: Bytes)
    requires Deserialize(b).Read?
    ensures var r := Deserialize(b);
            WellFormed(r.message) && r.n <= |b| && Serialize(r.message) == b[..r.n]
  {
    Powers();
    var r := Deserialize(b);
    var h := CodedHeaderOf(b);
    var start := CODED_HEADER_SIZE + CHECKSUM_SIZE;
    var n := start + ENTRY_SIZE * h.count;
    var m0 := BLANK.(header := h, checksum := NumberAt(b, CODED_HEADER_SIZE, 4));
    EntriesReadLengths(m0, b, start, h.count);
    EntriesReadWritten(m0, b, start, h.count);
    HeaderBytesRoundTrip(b);
    BytesRoundTrip(b[CODED_HEADER_SIZE..start]);
    var m1 := ReadEntries(m0, b, start, h.count);
    SamePrefix(r.message, m1, h.count);
    WrittenInParts(r.message, b, start, n);
  }

  lemma {:induction false} WrittenInParts(m: Message, b: Bytes, start: nat, n: nat)
    requires Writable(m) && |m.body| == m.header.packetsize
    requires CODED_HEADER_SIZE <= start <= n && n + m.header.packetsize <= |b|
    requires CodedHeaderBytes(m.header) == b[..CODED_HEADER_SIZE]
    requires ToBytes(m.checksum, 4) == b[CODED_HEADER_SIZE..start]
    requires EntriesBytes(m, m.header.count) == b[start..n] && m.body == b[n..n + m.header.packetsize]
    ensures Serialize(m) == b[..n + m.header.packetsize]
  {
    assert m.body[..m.header.packetsize] == m.body;
    assert b[..n + m.header.packetsize] ==
           b[..CODED_HEADER_SIZE] + b[CODED_HEADER_SIZE..start] + b[start..n] + b[n..n + m.header.packetsize];
  }

  // ---------------------------------------------------------------- where everything stands

  lemma {:induction false} PowIsPositive(k: nat)
    ensures Pow256(k) > 0
  {
    if k > 0 {
      PowIsPositive(k - 1);
    }
  }

  // A number's bytes, low ones first.
  lemma {:induction false} LowBytesFirst(v: nat, k: nat, i: nat)
    requires i < k
    ensures Pow256(i) > 0 && ToBytes(v, k)[i] == (v / Pow256(i)) % 256
  {
    PowIsPositive(i);
    if i > 0 {
      PowIsPositive(i - 1);
      LowBytesFirst(v / 256, k - 1, i - 1);
      DivideTwice(v, Pow256(i - 1));
    } else {
      assert v / 1 == v;
    }
  }

  lemma DivideTwice(v: nat, n: nat)
    requires n > 0
    ensures v / 256 / n == v / (256 * n)
  {
    var q, r := v / 256, v % 256;
    var p, s := q / n, q % n;
    assert q == n * p + s;
    assert v == 256 * (n * p + s) + r == (256 * n) * p + (256 * s + r);
    assert 256 * s + r < 256 * n;
    QuotientIs(v, 256 * n, p, 256 * s + r);
  }

  lemma ProductsRise(n: nat, a: nat, b: nat)
    ensures a <= b ==> n * a <= n * b
  {
  }

  lemma QuotientIs(v: nat, n: nat, p: nat, r: nat)
    requires n > 0 && v == n * p + r && r < n
    ensures v / n == p
  {
    var q := v / n;
    ProductsRise(n, q + 1, p);
    ProductsRise(n, p + 1, q);
  }

  function Word(b: Bytes): nat
    requires |b| == 4
  {
    b[0] as int + 0x100 * b[1] as int + 0x1_0000 * b[2] as int + 0x100_0000 * b[3] as int
  }

  /** The header is two words of bit fields, low bits first: start:4, ordering:8,
      gensize:4, generation:8, count:8, then packetsize:24, padding:4, end:4. */
  lemma HeaderWords(h: CodedHeader)
    requires h.packetsize < MAX_PAYLOAD
    ensures var b := CodedHeaderBytes(h);
            && Word(b[..4]) == h.start as int + 0x10 * h.ordering as int + 0x1000 * h.gensize as int
                               + 0x1_0000 * h.generation as int + 0x100_0000 * h.count as int
            && Word(b[4..]) == h.packetsize + 0x100_0000 * h.padding as int + 0x1000_0000 * h.end as int
  {
    assert h.packetsize / 256 == 256 * (h.packetsize / 0x1_0000) + h.packetsize / 256 % 256;
  }

  lemma {:induction false} EntryStands(m: Message, k: nat, i: nat)
    requires i < k <= |m.ids| == |m.froms| == |m.tos|
    ensures EntriesBytes(m, k)[24 * i..24 * i + 24] == EntryBytes(Entry(m.ids[i], m.froms[i], m.tos[i]))
  {
    if i < k - 1 {
      EntryStands(m, k - 1, i);
      var all, before := EntriesBytes(m, k), EntriesBytes(m, k - 1);
      assert all[24 * i..24 * i + 24] == before[24 * i..24 * i + 24];
    }
  }

  // The bytes of a number, from place n on.
  predicate Stands(b: Bytes, n: nat, v: nat, k: nat) {
    n + k <= |b| && b[n..n + k] == ToBytes(v, k)
  }

  lemma EntryFields(e: Entry)
    ensures var b := EntryBytes(e);
            && Stands(b, 0, e.id, 8) && Stands(b, 8, e.from, 8) && Stands(b, 16, e.to.host, 4)
            && Stands(b, 20, e.to.port, 2) && Stands(b, 22, e.to.pad, 2)
  {
  }

  lemma StandsWithin(b: Bytes, n: nat, c: Bytes, i: nat, v: nat, k: nat, at: nat)
    requires n + |c| <= |b| && b[n..n + |c|] == c && Stands(c, i, v, k) && at == n + i
    ensures Stands(b, at, v, k)
  {
    Part(b, n, c, i, i + k);
  }

  /** What is written: the checksum behind the header, then for each packet its
      id, its sender, and its receiver's host and port, then the payload. */
  lemma MessageStands(m: Message, i: nat)
    requires Writable(m) && i < m.header.count
    ensures var b, n, end := Serialize(m), 12 + 24 * i, 12 + 24 * m.header.count;
            && b[..8] == CodedHeaderBytes(m.header) && Stands(b, 8, m.checksum, 4)
            && Stands(b, n, m.ids[i], 8) && Stands(b, n + 8, m.froms[i], 8)
            && Stands(b, n + 16, m.tos[i].host, 4) && Stands(b, n + 20, m.tos[i].port, 2)
            && end + m.header.packetsize == |b| && b[end..] == m.body[..m.header.packetsize]
  {
    var b, n, count := Serialize(m), 12 + 24 * i, m.header.count;
    var all, e := EntriesBytes(m, count), Entry(m.ids[i], m.froms[i], m.tos[i]);
    EntryStands(m, count, i);
    assert b[12..12 + |all|] == all;
    Part(b, 12, all, 24 * i, 24 * i + 24);
    assert b[n..n + 24] == EntryBytes(e);
    EntryFields(e);
    StandsWithin(b, n, EntryBytes(e), 0, m.ids[i], 8, n);
    StandsWithin(b, n, EntryBytes(e), 8, m.froms[i], 8, n + 8);
    StandsWithin(b, n, EntryBytes(e), 16, m.tos[i].host, 4, n + 16);
    StandsWithin(b, n, EntryBytes(e), 20, m.tos[i].port, 2, n + 20);
  }

  /** Bytes are refused in four ways: eight or fewer are no message, other marks
      are somebody else's, an announced payload larger than all there is is too
      large, and entries or a payload that do not fit are past the end; anything
      else is read. */
  lemma RefusedWhen(m: Message, b: Bytes)
    ensures DeserializeInto(m, b).Empty? <==> |b| <= 8
    ensures |b| > 8 ==>
              var count, size := b[3] as int, b[4] as int + 0x100 * b[5] as int + 0x1_0000 * b[6] as int;
              && (DeserializeInto(m, b).Foreign? <==> b[0] % 16 != 13 || b[7] / 16 != 14)
              && (DeserializeInto(m, b).Read? <==>
                    b[0] % 16 == 13 && b[7] / 16 == 14 && 12 + 24 * count + size <= |b|)
              && (DeserializeInto(m, b).TooLarge? <==>
                    b[0] % 16 == 13 && b[7] / 16 == 14 && 12 + 24 * count <= |b| < size)
  {
  }
}
