/** The message object of the network-coding layer (VASTnet/udpncmessage.cpp):
    built up field by field, written into a caller's buffer and restored from
    one. */
module UdpncMessages {
  import opened Framing
  import opened CodedMessages

  /** A message with one packet's id, sender and receiver, as the sender makes
      it, is well formed, and sizeOf () is right for it. */
  lemma UncodedIsWellFormed(h: CodedHeader, id: Wide, from: Wide, to: Address, body: Bytes)
    requires IsCodedHeader(h) && |body| < MAX_PAYLOAD
    ensures var m := Message(h.(count := 1, packetsize := |body|), [id], [from], [to], body, 0);
            WellFormed(m) && SizeOf(m) == |Serialize(m)|
  {
    var m := Message(h.(count := 1, packetsize := |body|), [id], [from], [to], body, 0);
    SizeOfIsExactIff(m);
  }

  class UdpncMessage {
    var header: CodedHeader
    var pktIds: seq<Wide>
    var fromIds: seq<Wide>
    var toAddrs: seq<Address>
    var msg: Bytes
    var checksum: Long

    function Value(): Message
      reads this
    {
      Message(header, pktIds, fromIds, toAddrs, msg, checksum)
    }

    constructor (header: CodedHeader)
      ensures Value() == BLANK.(header := header)
    {
      this.header, pktIds, fromIds, toAddrs, msg, checksum := header, [], [], [], [], 0;
    }

    method PutPacketId(id: Wide, autonumber: bool)
      modifies this
      ensures var m := old(Value());
              Value() == m.(ids := m.ids + [id],
                            header := if autonumber then m.header.(count := (|m.ids| + 1) % 256) else m.header)
    {
      pktIds := pktIds + [id];
      if autonumber {
        header := header.(count := |pktIds| % 256);
      }
    }

    method PutFromId(id: Wide)
      modifies this
      ensures Value() == old(Value()).(froms := old(fromIds) + [id])
    {
      fromIds := fromIds + [id];
    }

    method PutToAddr(a: Address)
      modifies this
      ensures Value() == old(Value()).(tos := old(toAddrs) + [a])
    {
      toAddrs := toAddrs + [a];
    }

    method PutMessage(buffer: Bytes)
      modifies this
      ensures Value() == old(Value()).(body := buffer, header := old(header).(packetsize := |buffer| % MAX_PAYLOAD))
    {
      msg := buffer;
      header := header.(packetsize := |buffer| % MAX_PAYLOAD);
    }

    // memcpy
    static method Store(buffer: array<Byte>, n: nat, bytes: Bytes)
      requires n + |bytes| <= buffer.Length
      modifies buffer
      ensures buffer[..n] == old(buffer[..n])
      ensures buffer[n..n + |bytes|] == bytes
      ensures buffer[n + |bytes|..] == old(buffer[n + |bytes|..])
    {
      var i := 0;
      while i < |bytes|
        invariant 0 <= i <= |bytes|
        invariant forall k :: 0 <= k < buffer.Length && !(n <= k < n + i) ==> buffer[k] == old(buffer[k])
        invariant forall k :: 0 <= k < i ==> buffer[n + k] == bytes[k]
      {
        buffer[n + i] := bytes[i];
        i := i + 1;
      }
    }

    // Appends to what has been written so far.
    static method Append(buffer: array<Byte>, n: nat, bytes: Bytes, ghost written: Bytes) returns (n': nat)
      requires n == |written| && n + |bytes| <= buffer.Length && buffer[..n] == written
      modifies buffer
      ensures n' == n + |bytes| && buffer[..n'] == written + bytes
      ensures forall k :: n' <= k < buffer.Length ==> buffer[k] == old(buffer[k])
    {
      Store(buffer, n, bytes);
      n' := n + |bytes|;
      assert forall k :: n' <= k < buffer.Length ==> buffer[k] == buffer[n'..][k - n'];
      assert buffer[..n'] == buffer[..][..n'] && buffer[..n] == buffer[..][..n];
    }

    // Entry i, behind the head and the entries before it.
    method PutEntry(buffer: array<Byte>, n: nat, i: nat, ghost next: nat, ghost head: Bytes) returns (n': nat)
      requires i < |pktIds| == |fromIds| == |toAddrs| && next == i + 1
      requires n + ENTRY_SIZE <= buffer.Length && buffer[..n] == head + EntriesBytes(Value(), i)
      modifies buffer
      ensures n' == n + ENTRY_SIZE && buffer[..n'] == head + EntriesBytes(Value(), next)
      ensures forall k :: n' <= k < buffer.Length ==> buffer[k] == old(buffer[k])
    {
      n' := Append(buffer, n, EntryBytes(Entry(pktIds[i], fromIds[i], toAddrs[i])), buffer[..n]);
    }

    /** The lists must cover the count and the payload the packet size, and the
        buffer must be large enough; lists of different lengths are an error. */
    method Serialize(buffer: array<Byte>) returns (ok: bool, n: nat)
      requires header.packetsize < MAX_PAYLOAD && buffer.Length >= CODED_HEADER_SIZE
      requires |pktIds| == |fromIds| == |toAddrs| ==>
                 Writable(Value()) && |CodedMessages.Serialize(Value())| <= buffer.Length
      modifies buffer
      ensures ok <==> |pktIds| == |fromIds| == |toAddrs|
      ensures ok ==> n == |CodedMessages.Serialize(Value())| && buffer[..n] == CodedMessages.Serialize(Value())
      ensures ok ==> buffer[n..] == old(buffer[n..])
      ensures !ok ==> buffer[CODED_HEADER_SIZE..] == old(buffer[CODED_HEADER_SIZE..])
    {
      n := Append(buffer, 0, CodedHeaderBytes(header), []);
      if !(|pktIds| == |fromIds| == |toAddrs|) {
        return false, 0;
      }
      ghost var head := CodedHeaderBytes(header) + ToBytes(checksum, 4);
      n := Append(buffer, n, ToBytes(checksum, 4), buffer[..n]);
      var i: nat := 0;
      while i < header.count
        invariant i <= header.count && n == CODED_HEADER_SIZE + CHECKSUM_SIZE + ENTRY_SIZE * i
        invariant buffer[..n] == head + EntriesBytes(Value(), i)
        invariant forall k :: n <= k < buffer.Length ==> buffer[k] == old(buffer[k])
      {
        var next := i + 1;
        n := PutEntry(buffer, n, i, next, head);
        i := next;
      }
      n := Append(buffer, n, msg[..header.packetsize], buffer[..n]);
      ok := true;
    }

    // serialize () without a buffer asks how large one should be.
    method QuerySize() returns (n: nat)
      ensures n == SizeOf(Value())
      ensures Writable(Value()) ==>
                (n == |CodedMessages.Serialize(Value())| <==> header.count == 1)
                && (n < |CodedMessages.Serialize(Value())| <==> header.count > 1)
    {
      n := CODED_HEADER_SIZE;
      n := n + header.count * ID_SIZE;
      n := n + header.count * ID_SIZE;
      n := n + header.count * 4 + 2 * 2;
      n := n + header.packetsize;
      n := n + CHECKSUM_SIZE;
      if Writable(Value()) {
        SizeOfIsExactIff(Value());
      }
    }

    // The entries, each added to the lists.
    method ReadAll(buffer: array<Byte>, count: nat)
      requires CODED_HEADER_SIZE + CHECKSUM_SIZE + ENTRY_SIZE * count <= buffer.Length
      modifies this
      ensures Value() == ReadEntries(old(Value()), buffer[..], CODED_HEADER_SIZE + CHECKSUM_SIZE, count)
    {
      var i: nat, n: nat := 0, CODED_HEADER_SIZE + CHECKSUM_SIZE;
      while i < count
        invariant i <= count && n == CODED_HEADER_SIZE + CHECKSUM_SIZE + ENTRY_SIZE * i
        invariant Value() == ReadEntries(old(Value()), buffer[..], CODED_HEADER_SIZE + CHECKSUM_SIZE, i)
      {
        var e := EntryAt(buffer[..], n);
        var next := i + 1;
        ReadOneMore(old(Value()), buffer[..], CODED_HEADER_SIZE + CHECKSUM_SIZE, i, next, n);
        PutPacketId(e.id, false);
        PutFromId(e.from);
        PutToAddr(e.to);
        i, n := next, n + ENTRY_SIZE;
      }
    }

    /** The lists a header announces must lie inside the buffer, and so must a
        payload no longer than the buffer. */
    method Deserialize(buffer: array<Byte>) returns (result: int)
      requires !DeserializeInto(Value(), buffer[..]).PastEnd?
      modifies this
      ensures var outcome := DeserializeInto(old(Value()), buffer[..]);
              match outcome
              case Empty => result == 0 && Value() == old(Value())
              case Foreign => result == -1 && Value() == old(Value()).(header := CodedHeaderOf(buffer[..]))
              case PastEnd => false
              case TooLarge => result == -1
              case Read(m, n) => result == n && Value() == m
    {
      if buffer.Length <= CODED_HEADER_SIZE {
        return 0;
      }
      header := CodedHeaderOf(buffer[..]);
      if !IsCodedHeader(header) {
        return -1;
      }
      Powers();
      checksum := NumberAt(buffer[..], CODED_HEADER_SIZE, 4);
      var n := CODED_HEADER_SIZE + CHECKSUM_SIZE + ENTRY_SIZE * header.count;
      var packetsize := header.packetsize;
      ReadAll(buffer, header.count);
      if packetsize > buffer.Length {
        msg := buffer[n..];
        return -1;
      }
      msg := buffer[n..n + packetsize];
      return n + packetsize;
    }
  }
}
